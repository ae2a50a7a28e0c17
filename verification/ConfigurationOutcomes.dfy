/**
 * What a configuration file says, read off its lines: which line belongs to which section, which lines a reader
 * accepts, and which document they make up (src/configuration.rs).
 */
module ConfigurationOutcomes {
  import opened Wrappers
  import opened Strings
  import opened BackendRules
  import opened ConfigurationText
  import opened ConfigurationRoundTrip

  // ---------- the lines ----------

  /** A line without anything to read: blank, or a comment. */
  ghost predicate Idle(line: string)
  {
    Trim(line) == "" || Trim(line)[0] == '#'
  }

  /** A section header, with its name between brackets. */
  ghost predicate Opens(line: string, name: string)
  {
    && !Idle(line)
    && exists inner :: Trim(line) == "[" + inner + "]" && name == ToLowerAscii(Trim(inner))
  }

  ghost predicate IsRow(line: string)
  {
    !Idle(line) && forall name :: !Opens(line, name)
  }

  /** The section that is open before line `k`: that of the last header. */
  ghost predicate Within(lines: seq<string>, k: nat, name: string)
    requires k <= |lines|
  {
    exists h :: 0 <= h < k && Opens(lines[h], name) && forall j :: h < j < k ==> forall n :: !Opens(lines[j], n)
  }

  ghost predicate BeforeSections(lines: seq<string>, k: nat)
    requires k <= |lines|
  {
    forall j :: 0 <= j < k ==> forall n :: !Opens(lines[j], n)
  }

  /** Line `k` is a row of the section with this name. */
  ghost predicate RowOf(lines: seq<string>, k: nat, name: string)
  {
    k < |lines| && IsRow(lines[k]) && Within(lines, k, name)
  }

  /** Line `k` is a row before any section. */
  ghost predicate HeadRow(lines: seq<string>, k: nat)
  {
    k < |lines| && IsRow(lines[k]) && BeforeSections(lines, k)
  }

  lemma OpensIff(line: string)
    ensures var t := Trim(line);
      (!Idle(line) && IsHeader(t) ==>
         forall name :: Opens(line, name) <==> name == ToLowerAscii(Trim(t[1..|t| - 1])))
      && (Idle(line) || !IsHeader(t) ==> forall name :: !Opens(line, name))
  {
    hide Trim, ToLowerAscii;
    var t := Trim(line);
    if !Idle(line) && IsHeader(t) {
      assert t == "[" + t[1..|t| - 1] + "]";
      forall inner | t == "[" + inner + "]"
        ensures inner == t[1..|t| - 1]
      {
      }
    }
    forall inner | t == "[" + inner + "]"
      ensures IsHeader(t)
    {
      assert t[|t| - 1] == ']';
    }
  }

  // ---------- what rows say ----------

  /** A row names a key and gives it a value, both without outer blanks. */
  ghost predicate Says(row: string, key: string, value: string)
  {
    exists k, v :: row == k + "=" + v && '=' !in k && key == Trim(k) && value == Trim(v)
  }

  lemma KeyValueIff(row: string)
    ensures forall key, value :: KeyValue(row) == Some((key, value)) <==> Says(row, key, value)
    ensures KeyValue(row).None? <==> '=' !in row
    ensures KeyValue(row).None? ==> forall key, value :: !Says(row, key, value)
  {
    hide Trim;
    if SplitOnce(row, '=').Some? {
      var (k, v) := SplitOnce(row, '=').value;
      assert row == k + "=" + v && '=' !in k;
    }
    forall k, v | row == k + "=" + v && '=' !in k
      ensures SplitOnce(row, '=') == Some((k, v))
    {
      SplitOnceUnique(k, v, '=');
    }
  }

  /** A number below 2^32 in decimal digits, with or without a plus sign. */
  ghost predicate IsNumber(text: string, n: nat)
  {
    && n < 4294967296
    && exists digits ::
      (text == digits || text == "+" + digits) && digits != "" && IsDigits(digits) && DigitsValue(digits) == n
  }

  lemma ParseU32Iff(text: string)
    ensures forall n: nat :: ParseU32(text) == Some(n) <==> IsNumber(text, n)
  {
    var digits := if |text| > 0 && text[0] == '+' then text[1..] else text;
    assert text == digits || text == "+" + digits;
    forall other | (text == other || text == "+" + other) && other != "" && IsDigits(other)
      ensures other == digits
    {
      assert other[0] in other && other[0] != '+';
      assert text == "+" + other ==> text[1..] == other;
    }
  }

  /** The row names the language of the interface. */
  ghost predicate NamesUi(row: string)
  {
    exists k, v :: row == k + "=" + v && '=' !in k && ToLowerAscii(Trim(k)) == "ui_language"
  }

  lemma NamesUiIff(row: string)
    ensures NamesUi(row) <==> IsUiRow(row)
  {
    hide Trim, ToLowerAscii;
    if SplitOnce(row, '=').Some? {
      var (k, v) := SplitOnce(row, '=').value;
      assert row == k + "=" + v && '=' !in k;
    }
    forall k, v | row == k + "=" + v && '=' !in k
      ensures SplitOnce(row, '=') == Some((k, v))
    {
      SplitOnceUnique(k, v, '=');
    }
  }

  // ---------- which lines are refused ----------

  ghost predicate SectionName(name: string)
  {
    name in {"packages", "settings", "input_profiles", "user_dictionary", "word_exclusions", "process_exclusions",
             "backend_rules"}
  }

  ghost predicate OpenedBefore(lines: seq<string>, k: nat, name: string)
    requires k <= |lines|
  {
    exists j :: 0 <= j < k && Opens(lines[j], name)
  }

  ghost predicate HeaderRefused(lines: seq<string>, k: nat, name: string, e: Reason)
    requires k < |lines|
  {
    if !SectionName(name) then e == UnknownSection
    else
      && OpenedBefore(lines, k, name)
      && ((name == "packages" && e == DuplicatePackages) || (name == "input_profiles" && e == DuplicateInputProfiles))
  }

  ghost predicate SchemaRefused(lines: seq<string>, k: nat, e: Reason)
    requires k < |lines|
  {
    var row := Trim(lines[k]);
    if '=' !in row then e == ExpectedSchema
    else if (forall value :: !Says(row, "schema_version", value)) || exists j: nat :: j < k && HeadRow(lines, j)
    then e == OnlyOneSchema
    else (forall value, n :: Says(row, "schema_version", value) ==> !IsNumber(value, n)) && e == InvalidSchema
  }

  ghost predicate ModeRefused(lines: seq<string>, k: nat, e: Reason)
    requires k < |lines|
  {
    var row := Trim(lines[k]);
    if '=' !in row then e == ExpectedMode
    else if (forall value :: !Says(row, "mode", value)) || exists j: nat :: j < k && RowOf(lines, j, "packages")
    then e == OnlyOneMode
    else !Says(row, "mode", "legacy") && !Says(row, "mode", "managed") && e == InvalidMode
  }

  /** The rows of a section among the first `k` lines, in order, with their numbers. */
  ghost function RowsUpTo(lines: seq<string>, k: nat, name: string): seq<(nat, string)>
    requires k <= |lines|
  {
    if k == 0 then []
    else RowsUpTo(lines, k - 1, name) + if RowOf(lines, k - 1, name) then [(k, Trim(lines[k - 1]))] else []
  }

  ghost predicate ProfileRefused(lines: seq<string>, k: nat, e: Reason)
    requires k < |lines|
  {
    if |RowsUpTo(lines, k, "input_profiles")| >= 64 then e == TooManyProfiles
    else '=' !in Trim(lines[k]) && e == ExpectedProfile
  }

  ghost predicate UiBefore(lines: seq<string>, k: nat)
  {
    exists j: nat :: j < k && RowOf(lines, j, "settings") && NamesUi(Trim(lines[j]))
  }

  /** What is wrong with line `k`, given the lines before it. */
  ghost predicate LineRefused(lines: seq<string>, k: nat, e: Reason)
    requires k < |lines|
  {
    || (exists name :: Opens(lines[k], name) && HeaderRefused(lines, k, name, e))
    || (HeadRow(lines, k) && SchemaRefused(lines, k, e))
    || (RowOf(lines, k, "packages") && ModeRefused(lines, k, e))
    || (RowOf(lines, k, "input_profiles") && ProfileRefused(lines, k, e))
    || (RowOf(lines, k, "settings") && NamesUi(Trim(lines[k])) && UiBefore(lines, k) && e == DuplicateSetting)
  }

  // ---------- what has been read ----------

  ghost predicate SectionRead(lines: seq<string>, k: nat, section: Option<Section>)
    requires k <= |lines|
  {
    && (section.None? ==> BeforeSections(lines, k))
    && (section.Some? ==> Within(lines, k, Name(section.value)))
  }

  ghost predicate HeadRead(lines: seq<string>, k: nat, schema: Option<nat>)
    requires k <= |lines|
  {
    && (schema.None? ==> forall j: nat :: j < k ==> !HeadRow(lines, j))
    && (schema.Some? ==> exists j: nat :: j < k && HeadRow(lines, j) && SchemaSaid(Trim(lines[j]), schema.value))
  }

  ghost predicate SchemaSaid(row: string, n: nat)
  {
    exists value :: Says(row, "schema_version", value) && IsNumber(value, n)
  }

  ghost predicate ModeRead(lines: seq<string>, k: nat, mode: Option<Mode>)
    requires k <= |lines|
  {
    && (mode.None? ==> forall j: nat :: j < k ==> !RowOf(lines, j, "packages"))
    && (mode.Some? ==> exists j: nat :: j < k && RowOf(lines, j, "packages") && ModeSaid(Trim(lines[j]), mode.value))
  }

  ghost predicate ModeSaid(row: string, mode: Mode)
  {
    Says(row, "mode", if mode.Managed? then "managed" else "legacy")
  }

  ghost predicate ListsRead(lines: seq<string>, k: nat, st: Reading)
    requires k <= |lines|
  {
    && st.settings == RowsUpTo(lines, k, "settings")
    && st.dictionary == RowsUpTo(lines, k, "user_dictionary")
    && st.exclusions == RowsUpTo(lines, k, "word_exclusions")
    && st.processes == RowsUpTo(lines, k, "process_exclusions")
    && st.rules == RowsUpTo(lines, k, "backend_rules")
  }

  ghost predicate ProfilesRead(lines: seq<string>, k: nat, profiles: seq<(string, string)>)
    requires k <= |lines|
  {
    var rows := RowsUpTo(lines, k, "input_profiles");
    |profiles| == |rows| && forall i :: 0 <= i < |rows| ==> Says(rows[i].1, profiles[i].0, profiles[i].1)
  }

  ghost predicate SeenRead(lines: seq<string>, k: nat, st: Reading)
    requires k <= |lines|
  {
    && (st.rulesSeen <==> OpenedBefore(lines, k, "backend_rules"))
    && (st.packagesSeen <==> OpenedBefore(lines, k, "packages"))
    && (st.profilesSeen <==> OpenedBefore(lines, k, "input_profiles"))
    && (st.ui.Some? <==> UiBefore(lines, k))
  }

  /** What was collected is what the first `k` lines say. */
  ghost predicate Reads(lines: seq<string>, k: nat, st: Reading)
    requires k <= |lines|
  {
    && SectionRead(lines, k, st.section) && HeadRead(lines, k, st.schema) && ModeRead(lines, k, st.mode)
    && ListsRead(lines, k, st) && ProfilesRead(lines, k, st.profiles) && SeenRead(lines, k, st)
  }

  // ---------- one more line ----------

  /** Only one section is open before a line. */
  lemma WithinOnce(lines: seq<string>, k: nat, a: string, b: string)
    requires k <= |lines| && Within(lines, k, a) && (Within(lines, k, b) || BeforeSections(lines, k))
    ensures !BeforeSections(lines, k) && a == b
  {
    var h :| 0 <= h < k && Opens(lines[h], a) && forall j :: h < j < k ==> forall n :: !Opens(lines[j], n);
    if Within(lines, k, b) {
      var i :| 0 <= i < k && Opens(lines[i], b) && forall j :: i < j < k ==> forall n :: !Opens(lines[j], n);
      assert h == i;
      OpensIff(lines[h]);
    }
  }

  /** A line that opens no section leaves the one that is open. */
  lemma SameSection(lines: seq<string>, k: nat)
    requires k < |lines| && forall n :: !Opens(lines[k], n)
    ensures forall name :: Within(lines, k + 1, name) <==> Within(lines, k, name)
    ensures BeforeSections(lines, k + 1) <==> BeforeSections(lines, k)
    ensures forall name :: OpenedBefore(lines, k + 1, name) <==> OpenedBefore(lines, k, name)
  {
    hide Opens;
    forall name
      ensures Within(lines, k + 1, name) <==> Within(lines, k, name)
    {
      if h: int :| 0 <= h < k && Opens(lines[h], name) && forall j :: h < j < k ==> forall n :: !Opens(lines[j], n) {
        assert forall j :: h < j < k + 1 ==> forall n :: !Opens(lines[j], n);
      }
    }
  }

  /** A header opens its section and closes the one before. */
  lemma NextSection(lines: seq<string>, k: nat, name: string)
    requires k < |lines| && Opens(lines[k], name)
    ensures Within(lines, k + 1, name) && !BeforeSections(lines, k + 1)
    ensures forall n :: OpenedBefore(lines, k + 1, n) <==> OpenedBefore(lines, k, n) || n == name
  {
    OpensIff(lines[k]);
    hide Opens;
    assert forall n :: Opens(lines[k], n) ==> n == name;
    forall n
      ensures OpenedBefore(lines, k + 1, n) <==> OpenedBefore(lines, k, n) || n == name
    {
    }
  }

  /** A line that is no row changes nothing that was collected from rows. */
  lemma NoRow(lines: seq<string>, k: nat, st: Reading)
    requires k < |lines| && !IsRow(lines[k])
    ensures HeadRead(lines, k, st.schema) ==> HeadRead(lines, k + 1, st.schema)
    ensures ModeRead(lines, k, st.mode) ==> ModeRead(lines, k + 1, st.mode)
    ensures ListsRead(lines, k, st) ==> ListsRead(lines, k + 1, st)
    ensures ProfilesRead(lines, k, st.profiles) ==> ProfilesRead(lines, k + 1, st.profiles)
    ensures UiBefore(lines, k + 1) <==> UiBefore(lines, k)
  {
    hide IsRow, Within, BeforeSections, Says, NamesUi, SchemaSaid, ModeSaid;
    forall name
      ensures RowsUpTo(lines, k + 1, name) == RowsUpTo(lines, k, name)
    {
    }
  }

  lemma IdleReads(lines: seq<string>, k: nat, st: Reading)
    requires k < |lines| && Reads(lines, k, st) && Idle(lines[k])
    ensures Reads(lines, k + 1, st)
  {
    hide HeadRead, ModeRead, ListsRead, ProfilesRead, Within, BeforeSections, OpenedBefore, UiBefore, Trim;
    SameSection(lines, k);
    NoRow(lines, k, st);
  }

  lemma IdleLine(lines: seq<string>, k: nat, st: Reading)
    requires k < |lines| && Idle(lines[k])
    ensures Step(st, k + 1, lines[k]) == Ok(st)
    ensures forall e :: !LineRefused(lines, k, e)
  {
    hide Within, BeforeSections, UiBefore, HeaderRefused, SchemaRefused, ModeRefused, ProfileRefused, NamesUi, Trim,
      EnterSection, ReadRowOf, IsHeader;
    assert forall n :: !Opens(lines[k], n);
  }

  lemma FromNameIff(name: string)
    ensures FromName(name).Some? <==> SectionName(name)
    ensures FromName(name).Some? ==> Name(FromName(name).value) == name
    ensures FromName(name) == Some(Packages) <==> name == "packages"
    ensures FromName(name) == Some(InputProfiles) <==> name == "input_profiles"
    ensures FromName(name) == Some(RuleSection) <==> name == "backend_rules"
  {
  }

  lemma EnterIs(st: Reading, inner: string)
    ensures var name := ToLowerAscii(Trim(inner));
      var r := EnterSection(st, inner);
      && (!SectionName(name) ==> r == Err(UnknownSection))
      && (name == "packages" && st.packagesSeen ==> r == Err(DuplicatePackages))
      && (name == "input_profiles" && st.profilesSeen ==> r == Err(DuplicateInputProfiles))
      && (SectionName(name) && !(name == "packages" && st.packagesSeen)
          && !(name == "input_profiles" && st.profilesSeen) ==>
            FromName(name).Some?
            && r == Ok(st.(section := FromName(name),
                           packagesSeen := st.packagesSeen || name == "packages",
                           profilesSeen := st.profilesSeen || name == "input_profiles",
                           rulesSeen := st.rulesSeen || name == "backend_rules")))
  {
    hide Trim, ToLowerAscii, FromName;
    FromNameIff(ToLowerAscii(Trim(inner)));
  }

  /** What a header does: it is refused, or only opens its section. */
  lemma HeaderStep(lines: seq<string>, k: nat, st: Reading, name: string)
    requires k < |lines| && SeenRead(lines, k, st) && Opens(lines[k], name)
    ensures var r := Step(st, k + 1, lines[k]);
      && (forall e :: r == Err(e) <==> HeaderRefused(lines, k, name, e))
      && (r.Ok? ==>
            && FromName(name).Some? && Name(FromName(name).value) == name
            && r == Ok(st.(section := FromName(name), packagesSeen := st.packagesSeen || name == "packages",
                           profilesSeen := st.profilesSeen || name == "input_profiles",
                           rulesSeen := st.rulesSeen || name == "backend_rules")))
  {
    OpensIff(lines[k]);
    hide OpenedBefore, UiBefore, EnterSection, FromName, Trim, ToLowerAscii, SectionName, Opens;
    EnterIs(st, Trim(lines[k])[1..|Trim(lines[k])| - 1]);
    FromNameIff(name);
    SectionsNamed(name);
    OpensPlain(lines[k], name);
  }

  lemma OpensPlain(line: string, name: string)
    requires Opens(line, name)
    ensures !Idle(line) && IsHeader(Trim(line)) && name == ToLowerAscii(Trim(Trim(line)[1..|Trim(line)| - 1]))
  {
    OpensIff(line);
    hide Opens, Trim, ToLowerAscii;
  }

  lemma HeaderReads(lines: seq<string>, k: nat, st: Reading, name: string, next: Reading)
    requires k < |lines| && Reads(lines, k, st) && Opens(lines[k], name)
    requires next.section.Some? && Name(next.section.value) == name
    requires next == st.(section := next.section, packagesSeen := st.packagesSeen || name == "packages",
                         profilesSeen := st.profilesSeen || name == "input_profiles",
                         rulesSeen := st.rulesSeen || name == "backend_rules")
    ensures Reads(lines, k + 1, next)
  {
    NextSection(lines, k, name);
    OpensIsNoRow(lines[k], name);
    hide HeadRead, ModeRead, ProfilesRead, Within, BeforeSections, OpenedBefore, UiBefore, RowsUpTo, Opens, IsRow, Name;
    NoRow(lines, k, st);
  }

  lemma HeaderLine(lines: seq<string>, k: nat, st: Reading, name: string)
    requires k < |lines| && Reads(lines, k, st) && Opens(lines[k], name)
    ensures var r := Step(st, k + 1, lines[k]);
      && (forall e :: r == Err(e) <==> HeaderRefused(lines, k, name, e))
      && (r.Ok? ==> Reads(lines, k + 1, r.value))
  {
    SeenIsRead(lines, k, st);
    HeaderStep(lines, k, st, name);
    hide Reads, FromName, Opens, HeaderRefused, Step, SeenRead, Name;
    var r := Step(st, k + 1, lines[k]);
    if r.Ok? { HeaderReads(lines, k, st, name, r.value); }
  }

  lemma SeenIsRead(lines: seq<string>, k: nat, st: Reading)
    requires k <= |lines| && Reads(lines, k, st)
    ensures SeenRead(lines, k, st)
  {
  }

  lemma OpensIsNoRow(line: string, name: string)
    requires Opens(line, name)
    ensures !IsRow(line)
  {
  }

  lemma SectionsNamed(name: string)
    ensures name == "packages" || name == "input_profiles" ==> SectionName(name)
  {
  }

  lemma HeaderOnly(lines: seq<string>, k: nat, name: string)
    requires k < |lines| && Opens(lines[k], name)
    ensures forall e :: LineRefused(lines, k, e) <==> HeaderRefused(lines, k, name, e)
  {
    OpensIff(lines[k]);
    hide Within, BeforeSections, HeaderRefused, SchemaRefused, ModeRefused, ProfileRefused, NamesUi, UiBefore, Opens;
    assert forall n :: Opens(lines[k], n) ==> n == name;
    assert !IsRow(lines[k]);
  }

  // ---------- one more row ----------

  /** A row of a section lengthens the list of that section only. */
  lemma RowOfOne(lines: seq<string>, k: nat, name: string)
    requires RowOf(lines, k, name)
    ensures !HeadRow(lines, k) && forall n :: RowOf(lines, k, n) <==> n == name
    ensures forall n :: n != name ==> RowsUpTo(lines, k + 1, n) == RowsUpTo(lines, k, n)
    ensures RowsUpTo(lines, k + 1, name) == RowsUpTo(lines, k, name) + [(k + 1, Trim(lines[k]))]
  {
    hide Within, BeforeSections, IsRow;
    forall n | RowOf(lines, k, n)
      ensures n == name
    {
      WithinOnce(lines, k, name, n);
    }
    if HeadRow(lines, k) { WithinOnce(lines, k, name, name); }
  }

  lemma HeaderOpens(line: string)
    ensures !Idle(line) && IsHeader(Trim(line)) ==> exists name :: Opens(line, name)
  {
    OpensIff(line);
    hide Opens;
    var t := Trim(line);
    if !Idle(line) && IsHeader(t) { assert Opens(line, ToLowerAscii(Trim(t[1..|t| - 1]))); }
  }

  lemma RowIsPlain(line: string)
    requires IsRow(line)
    ensures !Idle(line) && !IsHeader(Trim(line)) && forall n :: !Opens(line, n)
  {
    HeaderOpens(line);
    hide Opens;
  }

  lemma SchemaLine(lines: seq<string>, k: nat, st: Reading)
    requires k < |lines| && HeadRow(lines, k) && HeadRead(lines, k, st.schema)
    ensures var r := ReadSchema(st, Trim(lines[k]));
      && (forall e :: r == Err(e) <==> SchemaRefused(lines, k, e))
      && (r.Ok? ==>
            && r.value.schema.Some? && r.value == st.(schema := r.value.schema)
            && SchemaSaid(Trim(lines[k]), r.value.schema.value))
  {
    hide HeadRow, Says, IsNumber, ParseU32, KeyValue, Trim;
    var row := Trim(lines[k]);
    KeyValueIff(row);
    if KeyValue(row).Some? { ParseU32Iff(KeyValue(row).value.1); }
    assert st.schema.Some? <==> exists j: nat :: j < k && HeadRow(lines, j);
  }

  lemma HeadLine(lines: seq<string>, k: nat, st: Reading)
    requires k < |lines| && Reads(lines, k, st) && HeadRow(lines, k)
    ensures st.section.None?
    ensures var r := ReadSchema(st, Trim(lines[k]));
      && (forall e :: r == Err(e) <==> SchemaRefused(lines, k, e))
      && (r.Ok? ==> Reads(lines, k + 1, r.value))
  {
    hide Trim, Within, NamesUi, IsRow, SchemaRefused, SchemaSaid, BeforeSections, ReadSchema, OpenedBefore, RowsUpTo,
      UiBefore, ModeRead, ProfilesRead, Opens;
    RowIsPlain(lines[k]);
    SameSection(lines, k);
    if st.section.Some? { WithinOnce(lines, k, Name(st.section.value), Name(st.section.value)); }
    HeadUntouched(lines, k, st);
    SchemaLine(lines, k, st);
  }

  lemma HeadUntouched(lines: seq<string>, k: nat, st: Reading)
    requires k < |lines| && HeadRow(lines, k)
    ensures forall name :: !RowOf(lines, k, name)
    ensures ModeRead(lines, k, st.mode) ==> ModeRead(lines, k + 1, st.mode)
    ensures ListsRead(lines, k, st) ==> ListsRead(lines, k + 1, st)
    ensures ProfilesRead(lines, k, st.profiles) ==> ProfilesRead(lines, k + 1, st.profiles)
    ensures UiBefore(lines, k + 1) <==> UiBefore(lines, k)
  {
    hide Within, BeforeSections, Says, NamesUi, IsRow, ModeSaid;
    forall name
      ensures !RowOf(lines, k, name)
    {
      if RowOf(lines, k, name) { WithinOnce(lines, k, name, name); }
    }
    forall name
      ensures RowsUpTo(lines, k + 1, name) == RowsUpTo(lines, k, name)
    {
    }
  }

  lemma NameOnce(a: Section, b: Section)
    ensures Name(a) == Name(b) ==> a == b
  {
  }

  /** The section that was read last is the one whose row this is. */
  lemma OfItsSection(lines: seq<string>, k: nat, st: Reading, sec: Section)
    requires k < |lines| && SectionRead(lines, k, st.section) && RowOf(lines, k, Name(sec))
    ensures st.section == Some(sec)
    ensures SectionRead(lines, k + 1, st.section)
    ensures forall name :: OpenedBefore(lines, k + 1, name) <==> OpenedBefore(lines, k, name)
  {
    hide IsRow, Within, BeforeSections, Opens, OpenedBefore;
    RowIsPlain(lines[k]);
    SameSection(lines, k);
    if st.section.None? {
      WithinOnce(lines, k, Name(sec), Name(sec));
    } else {
      WithinOnce(lines, k, Name(sec), Name(st.section.value));
      NameOnce(sec, st.section.value);
    }
  }

  lemma HeadKept(lines: seq<string>, k: nat, schema: Option<nat>)
    requires k < |lines| && !HeadRow(lines, k) && HeadRead(lines, k, schema)
    ensures HeadRead(lines, k + 1, schema)
  {
    hide HeadRow, SchemaSaid;
  }

  lemma ModeKept(lines: seq<string>, k: nat, mode: Option<Mode>)
    requires k < |lines| && !RowOf(lines, k, "packages") && ModeRead(lines, k, mode)
    ensures ModeRead(lines, k + 1, mode)
  {
    hide RowOf, ModeSaid;
  }

  lemma UiKept(lines: seq<string>, k: nat)
    requires k < |lines| && !(RowOf(lines, k, "settings") && NamesUi(Trim(lines[k])))
    ensures UiBefore(lines, k + 1) <==> UiBefore(lines, k)
  {
    hide RowOf, NamesUi;
  }

  lemma ProfilesKept(lines: seq<string>, k: nat, profiles: seq<(string, string)>)
    requires k < |lines| && RowsUpTo(lines, k + 1, "input_profiles") == RowsUpTo(lines, k, "input_profiles")
    requires ProfilesRead(lines, k, profiles)
    ensures ProfilesRead(lines, k + 1, profiles)
  {
    hide RowsUpTo, Says;
  }

  // ---------- rows of the packages ----------

  lemma ModeRow(lines: seq<string>, k: nat, st: Reading)
    requires k < |lines| && RowOf(lines, k, "packages") && ModeRead(lines, k, st.mode)
    ensures var r := ReadMode(st, Trim(lines[k]));
      && (forall e :: r == Err(e) <==> ModeRefused(lines, k, e))
      && (r.Ok? ==>
            r.value.mode.Some? && r.value == st.(mode := r.value.mode) && ModeSaid(Trim(lines[k]), r.value.mode.value))
  {
    hide RowOf, Says, KeyValue, Trim;
    var row := Trim(lines[k]);
    KeyValueIff(row);
    assert st.mode.Some? <==> exists j: nat :: j < k && RowOf(lines, j, "packages");
  }

  lemma PackagesLine(lines: seq<string>, k: nat, st: Reading)
    requires k < |lines| && Reads(lines, k, st) && RowOf(lines, k, "packages")
    ensures st.section == Some(Packages)
    ensures var r := ReadMode(st, Trim(lines[k]));
      && (forall e :: r == Err(e) <==> ModeRefused(lines, k, e))
      && (r.Ok? ==> Reads(lines, k + 1, r.value))
  {
    hide RowOf, Says, Trim, ReadMode, ModeRefused, ModeSaid, RowsUpTo, SectionRead, OpenedBefore, UiBefore, HeadRead,
      ProfilesRead;
    OfItsSection(lines, k, st, Packages);
    RowOfOne(lines, k, "packages");
    HeadKept(lines, k, st.schema);
    UiKept(lines, k);
    ProfilesKept(lines, k, st.profiles);
    ModeRow(lines, k, st);
  }

  // ---------- rows of the profiles ----------

  lemma ProfileRow(lines: seq<string>, k: nat, st: Reading)
    requires k < |lines| && ProfilesRead(lines, k, st.profiles)
    requires RowsUpTo(lines, k + 1, "input_profiles")
          == RowsUpTo(lines, k, "input_profiles") + [(k + 1, Trim(lines[k]))]
    ensures var r := ReadProfile(st, Trim(lines[k]));
      && (forall e :: r == Err(e) <==> ProfileRefused(lines, k, e))
      && (r.Ok? ==> r.value == st.(profiles := r.value.profiles) && ProfilesRead(lines, k + 1, r.value.profiles))
  {
    hide RowsUpTo, Says, KeyValue, Trim;
    KeyValueIff(Trim(lines[k]));
  }

  lemma ProfilesLine(lines: seq<string>, k: nat, st: Reading)
    requires k < |lines| && Reads(lines, k, st) && RowOf(lines, k, "input_profiles")
    ensures st.section == Some(InputProfiles)
    ensures var r := ReadProfile(st, Trim(lines[k]));
      && (forall e :: r == Err(e) <==> ProfileRefused(lines, k, e))
      && (r.Ok? ==> Reads(lines, k + 1, r.value))
  {
    hide RowOf, Says, Trim, ReadProfile, ProfileRefused, RowsUpTo, SectionRead, OpenedBefore, UiBefore, HeadRead,
      ProfilesRead, ModeRead;
    OfItsSection(lines, k, st, InputProfiles);
    RowOfOne(lines, k, "input_profiles");
    HeadKept(lines, k, st.schema);
    ModeKept(lines, k, st.mode);
    UiKept(lines, k);
    ProfileRow(lines, k, st);
  }

  // ---------- rows of the settings and of the lists ----------

  lemma SettingRowIs(lines: seq<string>, k: nat, st: Reading)
    requires k < |lines| && RowOf(lines, k, "settings") && (st.ui.Some? <==> UiBefore(lines, k))
    ensures var r := ReadSetting(st, k + 1, Trim(lines[k]));
      && (forall e :: r == Err(e) <==> NamesUi(Trim(lines[k])) && UiBefore(lines, k) && e == DuplicateSetting)
      && (r.Ok? ==>
            && r.value == st.(ui := r.value.ui, settings := st.settings + [(k + 1, Trim(lines[k]))])
            && (r.value.ui.Some? <==> UiBefore(lines, k + 1)))
  {
    hide RowOf, Trim, ToLowerAscii, UiFromConfig, NamesUi;
    NamesUiIff(Trim(lines[k]));
    assert UiBefore(lines, k + 1) <==> UiBefore(lines, k) || NamesUi(Trim(lines[k]));
  }

  lemma SettingsLine(lines: seq<string>, k: nat, st: Reading)
    requires k < |lines| && Reads(lines, k, st) && RowOf(lines, k, "settings")
    ensures st.section == Some(Settings)
    ensures var r := ReadSetting(st, k + 1, Trim(lines[k]));
      && (forall e :: r == Err(e) <==> NamesUi(Trim(lines[k])) && UiBefore(lines, k) && e == DuplicateSetting)
      && (r.Ok? ==> Reads(lines, k + 1, r.value))
  {
    hide RowOf, Says, Trim, ReadSetting, RowsUpTo, SectionRead, OpenedBefore, UiBefore, HeadRead, ProfilesRead,
      ModeRead, NamesUi;
    OfItsSection(lines, k, st, Settings);
    RowOfOne(lines, k, "settings");
    HeadKept(lines, k, st.schema);
    ModeKept(lines, k, st.mode);
    ProfilesKept(lines, k, st.profiles);
    SettingRowIs(lines, k, st);
  }

  predicate IsList(sec: Section)
  {
    sec in {UserDictionary, WordExclusions, ProcessExclusions, RuleSection}
  }

  lemma ListLine(lines: seq<string>, k: nat, st: Reading, sec: Section)
    requires k < |lines| && Reads(lines, k, st) && RowOf(lines, k, Name(sec)) && IsList(sec)
    ensures st.section == Some(sec)
    ensures var r := ReadRowOf(st, k + 1, Trim(lines[k])); r.Ok? && Reads(lines, k + 1, r.value)
  {
    hide RowOf, Says, Trim, RowsUpTo, SectionRead, OpenedBefore, UiBefore, HeadRead, ProfilesRead, ModeRead, NamesUi;
    OfItsSection(lines, k, st, sec);
    RowOfOne(lines, k, Name(sec));
    HeadKept(lines, k, st.schema);
    ModeKept(lines, k, st.mode);
    UiKept(lines, k);
    ProfilesKept(lines, k, st.profiles);
  }

  // ---------- all lines ----------

  lemma RefusedAtHead(lines: seq<string>, k: nat)
    requires k < |lines| && HeadRow(lines, k)
    ensures forall e :: LineRefused(lines, k, e) <==> SchemaRefused(lines, k, e)
  {
    HeadUntouched(lines, k, START);
    RowIsPlain(lines[k]);
    hide RowOf, Opens, IsRow, BeforeSections, HeaderRefused, SchemaRefused, ModeRefused, ProfileRefused, UiBefore,
      NamesUi;
  }

  lemma RefusedInSection(lines: seq<string>, k: nat, sec: Section)
    requires k < |lines| && RowOf(lines, k, Name(sec))
    ensures forall e :: LineRefused(lines, k, e) <==>
      match sec
      case Packages => ModeRefused(lines, k, e)
      case InputProfiles => ProfileRefused(lines, k, e)
      case Settings => NamesUi(Trim(lines[k])) && UiBefore(lines, k) && e == DuplicateSetting
      case _ => false
  {
    RowOfOne(lines, k, Name(sec));
    RowOfIsRow(lines, k, Name(sec));
    RowIsPlain(lines[k]);
    NamesOf(sec);
    hide RowOf, Opens, IsRow, HeadRow, HeaderRefused, SchemaRefused, ModeRefused, ProfileRefused, UiBefore,
      NamesUi, Name;
  }

  lemma RowOfIsRow(lines: seq<string>, k: nat, name: string)
    requires RowOf(lines, k, name)
    ensures IsRow(lines[k])
  {
  }

  lemma NamesOf(sec: Section)
    ensures Name(sec) == "packages" <==> sec == Packages
    ensures Name(sec) == "input_profiles" <==> sec == InputProfiles
    ensures Name(sec) == "settings" <==> sec == Settings
  {
  }

  lemma RowStep(st: Reading, number: nat, raw: string)
    requires IsRow(raw)
    ensures Step(st, number, raw) == ReadRowOf(st, number, Trim(raw))
  {
    RowIsPlain(raw);
    hide IsRow, ReadRowOf, IsHeader, Trim;
  }

  lemma SectionLine(lines: seq<string>, k: nat, st: Reading, sec: Section)
    requires k < |lines| && Reads(lines, k, st) && RowOf(lines, k, Name(sec))
    ensures var r := ReadRowOf(st, k + 1, Trim(lines[k]));
      && (forall e :: r == Err(e) <==> LineRefused(lines, k, e))
      && (r.Ok? ==> Reads(lines, k + 1, r.value))
  {
    RefusedInSection(lines, k, sec);
    hide RowOf, Reads, LineRefused, ModeRefused, ProfileRefused, UiBefore, NamesUi, ReadMode, ReadProfile, ReadSetting,
      Trim;
    match sec
    case Packages => PackagesLine(lines, k, st);
    case InputProfiles => ProfilesLine(lines, k, st);
    case Settings => SettingsLine(lines, k, st);
    case _ => ListLine(lines, k, st, sec);
  }

  lemma RowLine(lines: seq<string>, k: nat, st: Reading)
    requires k < |lines| && Reads(lines, k, st) && IsRow(lines[k])
    ensures var r := Step(st, k + 1, lines[k]);
      && (forall e :: r == Err(e) <==> LineRefused(lines, k, e))
      && (r.Ok? ==> Reads(lines, k + 1, r.value))
  {
    RowStep(st, k + 1, lines[k]);
    hide IsRow, LineRefused, ReadSchema, SchemaRefused, Within, BeforeSections, HeadRead, ModeRead, ListsRead,
      ProfilesRead, SeenRead, Trim, Step;
    if st.section.None? {
      HeadLine(lines, k, st);
      RefusedAtHead(lines, k);
    } else {
      SectionLine(lines, k, st, st.section.value);
    }
  }

  /** A line is refused exactly as it should be, and otherwise what it says is added to what was collected. */
  lemma LineIff(lines: seq<string>, k: nat, st: Reading)
    requires k < |lines| && Reads(lines, k, st)
    ensures var r := Step(st, k + 1, lines[k]);
      && (forall e :: r == Err(e) <==> LineRefused(lines, k, e))
      && (r.Ok? ==> Reads(lines, k + 1, r.value))
  {
    hide Reads, Step, LineRefused, Idle, Opens;
    if Idle(lines[k]) {
      IdleReads(lines, k, st);
      IdleLine(lines, k, st);
    } else if name :| Opens(lines[k], name) {
      HeaderLine(lines, k, st, name);
      HeaderOnly(lines, k, name);
    } else {
      RowLine(lines, k, st);
    }
  }

  lemma NothingRead(lines: seq<string>)
    ensures Reads(lines, 0, START)
  {
  }

  ghost predicate Accepted(lines: seq<string>, k: nat)
    requires k < |lines|
  {
    forall e :: !LineRefused(lines, k, e)
  }

  /** The first line that is refused, and as what. */
  ghost predicate FirstRefused(lines: seq<string>, k: nat, e: Reason)
  {
    k < |lines| && LineRefused(lines, k, e) && forall j: nat :: j < k ==> Accepted(lines, j)
  }

  lemma {:induction false} RunFrom(lines: seq<string>, k: nat, st: Reading)
    requires k <= |lines| && Reads(lines, k, st) && forall j: nat :: j < k ==> Accepted(lines, j)
    ensures var r := Run(st, lines[k..], k + 1);
      && (r.Ok? <==> forall j: nat :: j < |lines| ==> Accepted(lines, j))
      && (r.Ok? ==> Reads(lines, |lines|, r.value))
      && forall j: nat, e :: FirstRefused(lines, j, e) ==> r == Err(TextError(Some(j + 1), e))
    decreases |lines| - k
  {
    hide Reads, Step, LineRefused;
    if k < |lines| {
      assert lines[k..][0] == lines[k] && lines[k..][1..] == lines[k + 1..];
      LineIff(lines, k, st);
      var r := Step(st, k + 1, lines[k]);
      if r.Ok? {
        RunFrom(lines, k + 1, r.value);
      } else {
        OnlyHere(lines, k, r.error);
      }
    } else {
      NoneRefused(lines);
    }
  }

  lemma NotBoth(lines: seq<string>, k: nat, e: Reason)
    requires k < |lines|
    ensures !(Accepted(lines, k) && LineRefused(lines, k, e))
  {
    hide LineRefused;
  }

  lemma OnlyHere(lines: seq<string>, k: nat, e: Reason)
    requires k < |lines| && LineRefused(lines, k, e) && forall j: nat :: j < k ==> Accepted(lines, j)
    ensures !Accepted(lines, k) && forall j: nat, other :: FirstRefused(lines, j, other) ==> j == k
  {
    hide LineRefused, Accepted;
    NotBoth(lines, k, e);
    forall j: nat, other | FirstRefused(lines, j, other)
      ensures j == k
    {
      NotBoth(lines, j, other);
    }
  }

  lemma NoneRefused(lines: seq<string>)
    requires forall j: nat :: j < |lines| ==> Accepted(lines, j)
    ensures forall j: nat, e :: !FirstRefused(lines, j, e)
  {
    hide LineRefused, Accepted;
    forall j: nat, e
      ensures !FirstRefused(lines, j, e)
    {
      if j < |lines| { NotBoth(lines, j, e); }
    }
  }

  /** The lines of a file are read when none is refused, and what was collected is what they say. */
  lemma LinesOutcome(lines: seq<string>)
    ensures var r := Run(START, lines, 1);
      && (r.Ok? <==> forall j: nat :: j < |lines| ==> Accepted(lines, j))
      && (r.Ok? ==> Reads(lines, |lines|, r.value))
      && forall j: nat, e :: FirstRefused(lines, j, e) ==> r == Err(TextError(Some(j + 1), e))
  {
    hide Run, Reads, LineRefused;
    NothingRead(lines);
    assert lines[0..] == lines;
    RunFrom(lines, 0, START);
  }
}
