/**
 * Which configuration files are read, as which document, and how the others are refused: the parts of the file
 * against the fields of the document (src/configuration.rs).
 */
module ConfigurationFiles {
  import opened Wrappers
  import opened Strings
  import opened BackendRules
  import opened ConfigurationText
  import opened ConfigurationRoundTrip
  import opened ConfigurationOutcomes
  import RuleOutcomes

  // ---------- lists ----------

  /** The stored forms of the rows, in order and each once. */
  ghost predicate EntriesOf(entry: string -> Option<string>, rows: seq<(nat, string)>, es: seq<string>)
  {
    && Ascending(es) && (forall i :: 0 <= i < |rows| ==> entry(rows[i].1).Some? && entry(rows[i].1).value in es)
    && forall e :: e in es ==> exists i :: 0 <= i < |rows| && entry(rows[i].1) == Some(e)
  }

  ghost predicate AllEntries(entry: string -> Option<string>, rows: seq<(nat, string)>)
  {
    forall i :: 0 <= i < |rows| ==> entry(rows[i].1).Some?
  }

  /** The first row that is no entry. */
  ghost predicate FirstNoEntry(entry: string -> Option<string>, rows: seq<(nat, string)>, i: int)
  {
    0 <= i < |rows| && entry(rows[i].1).None? && forall j :: 0 <= j < i ==> entry(rows[j].1).Some?
  }

  lemma {:induction false} EntrySetOutcome(entry: string -> Option<string>, rows: seq<(nat, string)>)
    ensures EntrySet(entry, rows).Ok? <==> AllEntries(entry, rows)
    ensures EntrySet(entry, rows).Ok? ==> forall e :: e in EntrySet(entry, rows).value <==>
      exists i :: 0 <= i < |rows| && entry(rows[i].1) == Some(e)
    ensures forall i :: FirstNoEntry(entry, rows, i) ==> EntrySet(entry, rows) == Err(rows[i].0)
  {
    if rows != [] {
      var n := |rows| - 1;
      EntrySetOutcome(entry, rows[..n]);
      assert forall i :: 0 <= i < n ==> rows[..n][i] == rows[i];
      forall i | FirstNoEntry(entry, rows, i)
        ensures EntrySet(entry, rows) == Err(rows[i].0)
      {
        if i < n { assert FirstNoEntry(entry, rows[..n], i); }
      }
    }
  }

  lemma EntriesOutcome(entry: string -> Option<string>, rows: seq<(nat, string)>, reason: Reason)
    ensures var r := CanonicalEntries(entry, rows, reason);
      && (r.Ok? <==> AllEntries(entry, rows)) && (forall es :: r == Ok(es) <==> EntriesOf(entry, rows, es))
      && forall i :: FirstNoEntry(entry, rows, i) ==> r == Err(TextError(Some(rows[i].0), reason))
  {
    hide EntrySet, FirstNoEntry;
    EntrySetOutcome(entry, rows);
    var r := CanonicalEntries(entry, rows, reason);
    forall es | EntriesOf(entry, rows, es)
      ensures r == Ok(es)
    {
      forall e
        ensures e in es <==> e in r.value
      {
        if e in r.value {
          var i :| 0 <= i < |rows| && entry(rows[i].1) == Some(e);
        }
      }
      AscendingUnique(es, r.value);
    }
    if r.Ok? { CanonicalGives(entry, rows, r.value); }
  }

  lemma CanonicalGives(entry: string -> Option<string>, rows: seq<(nat, string)>, es: seq<string>)
    requires EntrySet(entry, rows).Ok? && es == SortedKeys(EntrySet(entry, rows).value)
    ensures EntriesOf(entry, rows, es)
  {
    hide EntrySet, SortedKeys;
    EntrySetOutcome(entry, rows);
  }

  // ---------- profiles ----------

  /** The profile of each pack, no pack twice. */
  ghost predicate ProfilesGiven(f: Formats, rows: seq<(string, string)>, m: map<string, string>)
  {
    && (forall i :: 0 <= i < |rows| ==>
          && f.packId(rows[i].0).Some? && f.profile(rows[i].1).Some?
          && f.packId(rows[i].0).value in m && m[f.packId(rows[i].0).value] == f.profile(rows[i].1).value)
    && (forall i, j :: 0 <= i < j < |rows| ==> f.packId(rows[i].0) != f.packId(rows[j].0))
    && forall id :: id in m ==> exists i :: 0 <= i < |rows| && f.packId(rows[i].0) == Some(id)
  }

  lemma {:induction false} ProfileMapIff(f: Formats, rows: seq<(string, string)>, m: map<string, string>)
    ensures ProfileMap(f, rows) == Some(m) <==> ProfilesGiven(f, rows, m)
  {
    hide ProfilesGiven;
    if rows == [] {
      NoProfiles(f, m);
    } else {
      var n := |rows| - 1;
      if ProfileMap(f, rows) == Some(m) {
        ProfileMapStep(f, rows);
        ProfileMapIff(f, rows[..n], ProfileMap(f, rows[..n]).value);
        OneMoreProfile(f, rows, ProfileMap(f, rows[..n]).value);
      }
      if ProfilesGiven(f, rows, m) {
        OneProfileLess(f, rows, m);
        ProfileMapIff(f, rows[..n], m - {f.packId(rows[n].0).value});
      }
    }
  }

  lemma ProfileMapStep(f: Formats, rows: seq<(string, string)>)
    requires rows != [] && ProfileMap(f, rows).Some?
    ensures var (id, p) := rows[|rows| - 1];
      var had := ProfileMap(f, rows[..|rows| - 1]);
      && had.Some? && f.packId(id).Some? && f.profile(p).Some? && f.packId(id).value !in had.value
      && ProfileMap(f, rows).value == had.value[f.packId(id).value := f.profile(p).value]
  {
    var (id, p) := rows[|rows| - 1];
    match (ProfileMap(f, rows[..|rows| - 1]), f.packId(id), f.profile(p))
    case (Some(m), Some(i), Some(q)) =>
    case _ => assert false;
  }

  lemma NoProfiles(f: Formats, m: map<string, string>)
    ensures ProfilesGiven(f, [], m) <==> m == map[]
  {
  }

  lemma OneMoreProfile(f: Formats, rows: seq<(string, string)>, had: map<string, string>)
    requires rows != [] && ProfilesGiven(f, rows[..|rows| - 1], had)
    requires var (id, p) := rows[|rows| - 1]; f.packId(id).Some? && f.profile(p).Some? && f.packId(id).value !in had
    ensures var (id, p) := rows[|rows| - 1]; ProfilesGiven(f, rows, had[f.packId(id).value := f.profile(p).value])
  {
    var n := |rows| - 1;
    assert forall i :: 0 <= i < n ==> rows[..n][i] == rows[i];
    forall id | id in had
      ensures exists i :: 0 <= i < |rows| && f.packId(rows[i].0) == Some(id)
    {
      var i :| 0 <= i < n && f.packId(rows[..n][i].0) == Some(id);
      assert f.packId(rows[i].0) == Some(id);
    }
  }

  lemma OneProfileLess(f: Formats, rows: seq<(string, string)>, m: map<string, string>)
    requires rows != [] && ProfilesGiven(f, rows, m)
    ensures var (id, p) := rows[|rows| - 1];
      && f.packId(id).Some? && f.profile(p).Some?
      && ProfilesGiven(f, rows[..|rows| - 1], m - {f.packId(id).value})
      && (m - {f.packId(id).value})[f.packId(id).value := f.profile(p).value] == m
  {
    var n := |rows| - 1;
    var last := f.packId(rows[n].0).value;
    assert forall i :: 0 <= i < n ==> rows[..n][i] == rows[i];
    assert (m - {last})[last := m[last]] == m;
    forall id | id in m - {last}
      ensures exists i :: 0 <= i < n && f.packId(rows[..n][i].0) == Some(id)
    {
      var i :| 0 <= i < |rows| && f.packId(rows[i].0) == Some(id);
      assert f.packId(rows[..n][i].0) == Some(id);
    }
  }

  lemma ProfilesOutcome(f: Formats, rows: seq<(string, string)>)
    ensures forall m :: ParseProfiles(f, rows) == Some(m) <==> |rows| <= 64 && ProfilesGiven(f, rows, m)
  {
    hide ProfileMap, ProfilesGiven;
    forall m
      ensures ProfileMap(f, rows) == Some(m) <==> ProfilesGiven(f, rows, m)
    {
      ProfileMapIff(f, rows, m);
    }
  }

  // ---------- process names ----------

  /** The name a process goes by: the last part of its path, in lower case, if it can stand in a row. */
  ghost predicate ProcessNamed(lower: string -> string, row: string, name: string)
  {
    exists path :: RuleOutcomes.Unwrapped(row, path) && ProcessOf(lower, path, name)
  }

  ghost predicate ProcessOf(lower: string -> string, path: string, name: string)
  {
    && (forall c :: c in path ==> !Forbidden(c))
    && Trim(AfterSlash(path)) != "" && name == lower(Trim(AfterSlash(path)))
    && name != "" && name[0] != '#' && !(name[0] == '[' && name[|name| - 1] == ']')
  }

  /** What follows the last slash of either kind. */
  ghost function AfterSlash(path: string): string
  {
    if path == "" then ""
    else if path[|path| - 1] == '/' || path[|path| - 1] == '\\' then ""
    else AfterSlash(path[..|path| - 1]) + [path[|path| - 1]]
  }

  lemma {:induction false} LastPart(s: string, c: char)
    ensures var parts, more := Split(s, '\\'), Split(s + [c], '\\');
      if c == '\\' then |more| > 1 && more[|more| - 1] == ""
      else |more| == |parts| && more[|more| - 1] == parts[|parts| - 1] + [c]
  {
    hide Split;
    if s == "" {
      SplitCons(c, "");
      assert s + [c] == [c] + "";
    } else {
      LastPart(s[1..], c);
      SplitCons(s[0], s[1..]);
      SplitCons(s[0], s[1..] + [c]);
      assert s == [s[0]] + s[1..] && s + [c] == [s[0]] + (s[1..] + [c]);
      var rest := Split(s[1..], '\\');
      assert [s[0]] + (rest[0] + [c]) == [s[0]] + rest[0] + [c];
    }
  }

  lemma SplitCons(c: char, s: string)
    ensures Split("", '\\') == [""]
    ensures var rest := Split(s, '\\');
      Split([c] + s, '\\') == if c == '\\' then [""] + rest else [[c] + rest[0]] + rest[1..]
  {
    assert ([c] + s)[1..] == s;
  }

  lemma {:induction false} LastSegmentIs(path: string)
    ensures LastSegment(path) == AfterSlash(path)
  {
    if path == "" {
      assert WithBackslashes(path) == "";
    } else {
      var n := |path| - 1;
      var c := if path[n] == '/' then '\\' else path[n];
      LastSegmentIs(path[..n]);
      assert WithBackslashes(path) == WithBackslashes(path[..n]) + [c];
      LastPart(WithBackslashes(path[..n]), c);
    }
  }

  lemma ProcessIff(lower: string -> string, row: string, name: string)
    ensures ProcessEntry(lower)(row) == Some(name) <==> ProcessNamed(lower, row, name)
  {
    hide RuleOutcomes.Unwrapped, Trim, TrimWhere, LastSegment, AfterSlash, Forbidden;
    var path := TrimWhere(Trim(row), IsQuote);
    forall p
      ensures RuleOutcomes.Unwrapped(row, p) <==> p == path
    {
      RuleOutcomes.UnwrappedIff(row, p);
    }
    LastSegmentIs(path);
    assert RuleOutcomes.Unwrapped(row, path);
    assert ProcessEntry(lower)(row) == Some(name) <==> ProcessOf(lower, path, name);
  }

  // ---------- version and mode ----------

  ghost predicate SchemaGiven(lines: seq<string>, n: nat)
  {
    exists j: nat :: j < |lines| && HeadRow(lines, j) && SchemaSaid(Trim(lines[j]), n)
  }

  ghost predicate ModeGiven(lines: seq<string>, mode: Mode)
  {
    exists j: nat :: j < |lines| && RowOf(lines, j, "packages") && ModeSaid(Trim(lines[j]), mode)
  }

  ghost predicate HasSection(lines: seq<string>, name: string)
  {
    OpenedBefore(lines, |lines|, name)
  }

  /** What is wrong with the version a file gives, with the sections it has. */
  ghost predicate VersionRefused(lines: seq<string>, e: Reason)
  {
    || ((forall n :: !SchemaGiven(lines, n)) && e == MissingSchema)
    || exists n :: SchemaGiven(lines, n) && VersionWrong(lines, n, e)
  }

  ghost predicate VersionWrong(lines: seq<string>, n: nat, e: Reason)
  {
    if n == 0 || n > 4 then e == UnsupportedSchema
    else if HasSection(lines, "input_profiles") && n <= 2 then e == ProfilesNeedVersion3
    else if HasSection(lines, "packages") && n <= 3 then e == PackagesNeedVersion4
    else n == 4 && (forall mode :: !ModeGiven(lines, mode)) && e == MissingMode
  }

  lemma SchemaSaidOnce(row: string, a: nat, b: nat)
    requires SchemaSaid(row, a) && SchemaSaid(row, b)
    ensures a == b
  {
    hide Trim, IsNumber, ParseU32;
    KeyValueIff(row);
    var v :| Says(row, "schema_version", v) && IsNumber(v, a);
    var w :| Says(row, "schema_version", w) && IsNumber(w, b);
    assert KeyValue(row) == Some(("schema_version", v)) && KeyValue(row) == Some(("schema_version", w));
    ParseU32Iff(v);
  }

  lemma ModeSaidOnce(row: string, a: Mode, b: Mode)
    requires ModeSaid(row, a) && ModeSaid(row, b)
    ensures a == b
  {
    hide Trim;
    KeyValueIff(row);
  }

  /** Of accepted rows before any section there is at most one. */
  lemma HeadRowOnce(lines: seq<string>, i: nat, j: nat)
    requires i < j < |lines| && HeadRow(lines, i) && HeadRow(lines, j)
    ensures exists e :: LineRefused(lines, j, e)
  {
    RefusedAtHead(lines, j);
    hide HeadRow, LineRefused, Says, Trim;
    if '=' !in Trim(lines[j]) {
      assert SchemaRefused(lines, j, ExpectedSchema);
    } else {
      assert SchemaRefused(lines, j, OnlyOneSchema);
    }
  }

  lemma ModeRowOnce(lines: seq<string>, i: nat, j: nat)
    requires i < j < |lines| && RowOf(lines, i, "packages") && RowOf(lines, j, "packages")
    ensures exists e :: LineRefused(lines, j, e)
  {
    RefusedInSection(lines, j, Packages);
    hide RowOf, LineRefused, Says, Trim;
    if '=' !in Trim(lines[j]) {
      assert ModeRefused(lines, j, ExpectedMode);
    } else {
      assert ModeRefused(lines, j, OnlyOneMode);
    }
  }

  ghost predicate AllAccepted(lines: seq<string>)
  {
    forall j: nat :: j < |lines| ==> Accepted(lines, j)
  }

  lemma NoneIsRefused(lines: seq<string>, j: nat)
    requires AllAccepted(lines) && j < |lines|
    ensures !exists e :: LineRefused(lines, j, e)
  {
    hide LineRefused;
    assert Accepted(lines, j);
  }

  lemma SchemaReadIs(lines: seq<string>, schema: Option<nat>, n: nat)
    requires AllAccepted(lines) && HeadRead(lines, |lines|, schema)
    ensures SchemaGiven(lines, n) <==> schema == Some(n)
  {
    hide HeadRow, SchemaSaid, AllAccepted, LineRefused;
    if SchemaGiven(lines, n) {
      var j: nat :| j < |lines| && HeadRow(lines, j) && SchemaSaid(Trim(lines[j]), n);
      assert schema.Some?;
      var i: nat :| i < |lines| && HeadRow(lines, i) && SchemaSaid(Trim(lines[i]), schema.value);
      NoneIsRefused(lines, i);
      NoneIsRefused(lines, j);
      if i < j { HeadRowOnce(lines, i, j); }
      if j < i { HeadRowOnce(lines, j, i); }
      SchemaSaidOnce(Trim(lines[j]), n, schema.value);
    }
  }

  lemma ModeReadIs(lines: seq<string>, mode: Option<Mode>, m: Mode)
    requires AllAccepted(lines) && ModeRead(lines, |lines|, mode)
    ensures ModeGiven(lines, m) <==> mode == Some(m)
  {
    hide RowOf, ModeSaid, AllAccepted, LineRefused;
    if ModeGiven(lines, m) {
      var j: nat :| j < |lines| && RowOf(lines, j, "packages") && ModeSaid(Trim(lines[j]), m);
      assert mode.Some?;
      var i: nat :| i < |lines| && RowOf(lines, i, "packages") && ModeSaid(Trim(lines[i]), mode.value);
      NoneIsRefused(lines, i);
      NoneIsRefused(lines, j);
      if i < j { ModeRowOnce(lines, i, j); }
      if j < i { ModeRowOnce(lines, j, i); }
      ModeSaidOnce(Trim(lines[j]), m, mode.value);
    }
  }

  lemma VersionOutcome(lines: seq<string>, st: Reading)
    requires AllAccepted(lines) && Reads(lines, |lines|, st)
    ensures forall e :: VersionProblem(st) == Some(e) <==> VersionRefused(lines, e)
    ensures forall mode :: ModeGiven(lines, mode) <==> st.mode == Some(mode)
  {
    hide AllAccepted, SectionRead, HeadRead, ModeRead, ListsRead, ProfilesRead, SchemaGiven, ModeGiven, OpenedBefore,
      UiBefore;
    forall n: nat
      ensures SchemaGiven(lines, n) <==> st.schema == Some(n)
    {
      SchemaReadIs(lines, st.schema, n);
    }
    forall mode
      ensures ModeGiven(lines, mode) <==> st.mode == Some(mode)
    {
      ModeReadIs(lines, st.mode, mode);
    }
    if st.schema.Some? { assert SchemaGiven(lines, st.schema.value); }
    if st.mode.Some? { assert ModeGiven(lines, st.mode.value); }
  }

  // ---------- the built-in rules ----------

  ghost predicate KeepsNames(lower: string -> string)
  {
    && lower("notepad.exe") == "notepad.exe" && lower("viber.exe") == "viber.exe"
    && lower("windowsterminal.exe") == "windowsterminal.exe" && lower("openconsole.exe") == "openconsole.exe"
    && lower("conhost.exe") == "conhost.exe" && lower("firefox.exe") == "firefox.exe"
  }

  const BUILT_IN := Rules(map[
    "notepad.exe" := ProtectedPaste, "viber.exe" := ProtectedPaste, "windowsterminal.exe" := PhysicalReplay,
    "openconsole.exe" := PhysicalReplay, "conhost.exe" := PhysicalReplay, "firefox.exe" := PhysicalReplay],
    CapabilityProbe)

  lemma BuiltInRow(name: string, s: Strategy, row: string)
    requires row == name + " = " + Id(s)
    ensures row == Row(name, s)
  {
  }

  lemma PasteRows()
    ensures |DEFAULT_RULES| == 7
    ensures DEFAULT_RULES[0] == Row("notepad.exe", ProtectedPaste)
    ensures DEFAULT_RULES[1] == Row("viber.exe", ProtectedPaste)
  {
    hide Row;
    BuiltInRow("notepad.exe", ProtectedPaste, "notepad.exe = protected-paste");
    BuiltInRow("viber.exe", ProtectedPaste, "viber.exe = protected-paste");
  }

  lemma TerminalRows()
    ensures DEFAULT_RULES[2] == Row("windowsterminal.exe", PhysicalReplay)
    ensures DEFAULT_RULES[3] == Row("openconsole.exe", PhysicalReplay)
  {
    hide Row;
    BuiltInRow("windowsterminal.exe", PhysicalReplay, "windowsterminal.exe = physical-replay");
    BuiltInRow("openconsole.exe", PhysicalReplay, "openconsole.exe = physical-replay");
  }

  lemma LastRows()
    ensures DEFAULT_RULES[4] == Row("conhost.exe", PhysicalReplay)
    ensures DEFAULT_RULES[5] == Row("firefox.exe", PhysicalReplay)
    ensures DEFAULT_RULES[6] == Row("*", CapabilityProbe)
  {
    hide Row;
    BuiltInRow("conhost.exe", PhysicalReplay, "conhost.exe = physical-replay");
    BuiltInRow("firefox.exe", PhysicalReplay, "firefox.exe = physical-replay");
    BuiltInRow("*", CapabilityProbe, "* = capability-probe");
  }

  /** A name in small letters and dots that lowercasing keeps is stored as it is. */
  ghost predicate Keeps(lower: string -> string, p: string)
  {
    lower(p) == p && p != "" && forall c :: c in p ==> c == '.' || 'a' <= c <= 'z'
  }

  lemma NameStored(lower: string -> string, p: string)
    requires Keeps(lower, p)
    ensures StoredPattern(lower, p) && Trimmed(p)
  {
    assert p[0] in p && p[|p| - 1] in p;
  }

  lemma KeepsAll(lower: string -> string)
    requires KeepsNames(lower)
    ensures Keeps(lower, "notepad.exe") && Keeps(lower, "viber.exe") && Keeps(lower, "windowsterminal.exe")
    ensures Keeps(lower, "openconsole.exe") && Keeps(lower, "conhost.exe") && Keeps(lower, "firefox.exe")
  {
  }

  /** One built-in line: `rest` is what follows it. */
  lemma BuiltInLine(lower: string -> string, had: map<string, Strategy>, i: nat, p: string, s: Strategy)
    requires LowerOk(lower) && Keeps(lower, p) && i < |DEFAULT_RULES| && DEFAULT_RULES[i] == Row(p, s) && p !in had
    ensures ReadLines(lower, Partial(had, None), DEFAULT_RULES[i..], i + 1)
         == ReadLines(lower, Partial(had[p := s], None), DEFAULT_RULES[i + 1..], i + 2)
  {
    hide LowerOk, ReadLine, Row, Keeps, Trimmed, StoredPattern;
    NameStored(lower, p);
    RowInserts(lower, Partial(had, None), p, s);
    assert DEFAULT_RULES[i..][0] == DEFAULT_RULES[i] && DEFAULT_RULES[i..][1..] == DEFAULT_RULES[i + 1..];
  }

  const PASTE_RULES: map<string, Strategy> := map["notepad.exe" := ProtectedPaste, "viber.exe" := ProtectedPaste]

  lemma PasteRulesRead(lower: string -> string)
    requires LowerOk(lower) && KeepsNames(lower)
    ensures ReadLines(lower, Partial(map[], None), DEFAULT_RULES, 1)
         == ReadLines(lower, Partial(PASTE_RULES, None), DEFAULT_RULES[2..], 3)
  {
    hide LowerOk, ReadLines, Row, Keeps;
    PasteRows();
    KeepsAll(lower);
    var none: map<string, Strategy> := map[];
    assert DEFAULT_RULES[0..] == DEFAULT_RULES;
    BuiltInLine(lower, none, 0, "notepad.exe", ProtectedPaste);
    BuiltInLine(lower, none["notepad.exe" := ProtectedPaste], 1, "viber.exe", ProtectedPaste);
    assert none["notepad.exe" := ProtectedPaste]["viber.exe" := ProtectedPaste] == PASTE_RULES;
  }

  const TERMINAL_RULES: map<string, Strategy> :=
    PASTE_RULES["windowsterminal.exe" := PhysicalReplay]["openconsole.exe" := PhysicalReplay]

  lemma TerminalRulesRead(lower: string -> string)
    requires LowerOk(lower) && KeepsNames(lower)
    ensures ReadLines(lower, Partial(PASTE_RULES, None), DEFAULT_RULES[2..], 3)
         == ReadLines(lower, Partial(TERMINAL_RULES, None), DEFAULT_RULES[4..], 5)
  {
    hide LowerOk, ReadLines, Row, Keeps;
    PasteRows();
    TerminalRows();
    KeepsAll(lower);
    BuiltInLine(lower, PASTE_RULES, 2, "windowsterminal.exe", PhysicalReplay);
    BuiltInLine(lower, PASTE_RULES["windowsterminal.exe" := PhysicalReplay], 3, "openconsole.exe", PhysicalReplay);
  }

  lemma LastRulesRead(lower: string -> string)
    requires LowerOk(lower) && KeepsNames(lower)
    ensures ReadLines(lower, Partial(TERMINAL_RULES, None), DEFAULT_RULES[4..], 5)
         == ReadLines(lower, Partial(TERMINAL_RULES["conhost.exe" := PhysicalReplay]["firefox.exe" := PhysicalReplay],
                                     None), DEFAULT_RULES[6..], 7)
  {
    hide LowerOk, ReadLines, Row, Keeps;
    PasteRows();
    LastRows();
    KeepsAll(lower);
    BuiltInLine(lower, TERMINAL_RULES, 4, "conhost.exe", PhysicalReplay);
    BuiltInLine(lower, TERMINAL_RULES["conhost.exe" := PhysicalReplay], 5, "firefox.exe", PhysicalReplay);
  }

  lemma BuiltInIs()
    ensures TERMINAL_RULES["conhost.exe" := PhysicalReplay]["firefox.exe" := PhysicalReplay] == BUILT_IN.exact
  {
  }

  /** Without rules of its own a file has the built-in ones. */
  lemma DefaultsAre(lower: string -> string)
    requires LowerOk(lower) && KeepsNames(lower)
    ensures DefaultRules(lower) == BUILT_IN
  {
    hide LowerOk, KeepsNames, ReadLines, Row;
    PasteRulesRead(lower);
    TerminalRulesRead(lower);
    LastRulesRead(lower);
    BuiltInIs();
    LastRows();
    PasteRows();
    assert DEFAULT_RULES[6..] == [Row("*", CapabilityProbe)];
    StarCloses(lower, BUILT_IN.exact, CapabilityProbe, 7);
  }

  // ---------- the document of a file ----------

  /** Every part of the document is what was collected for it. */
  ghost predicate Gives(f: Formats, st: Reading, d: Document)
  {
    && |st.profiles| <= 64 && ProfilesGiven(f, st.profiles, d.profiles)
    && f.read(Texts(st.settings)) == Ok(d.settings)
    && EntriesOf(f.lexiconEntry, st.dictionary, d.dictionary) && EntriesOf(f.lexiconEntry, st.exclusions, d.exclusions)
    && EntriesOf(ProcessEntry(f.lower), st.processes, d.processes)
    && (st.rulesSeen ==> Parsed(f.lower, Texts(st.rules)) == Ok(d.rules))
    && (!st.rulesSeen ==> d.rules == DefaultRules(f.lower))
    && (forall e :: e in d.dictionary ==> e !in d.exclusions)
    && (st.mode.Some? ==> st.mode == Some(d.mode)) && (st.mode.None? ==> d.mode.LegacyBootstrap?)
    && (st.ui.Some? ==> st.ui == Some(d.uiLanguage)) && (st.ui.None? ==> d.uiLanguage == "system")
  }

  ghost predicate InBoth(d: Document)
  {
    exists e :: e in d.dictionary && e in d.exclusions
  }

  /** The line that settings or rules are refused for is that of the row in question. */
  lemma PartErrors(f: Formats, st: Reading)
    ensures forall k: nat :: f.read(Texts(st.settings)) == Err(k) ==>
      ReadSettings(f, st)
      == Err(TextError(Some(if 1 <= k && k <= |st.settings| then st.settings[k - 1].0 else 0), InvalidSettings))
    ensures st.rulesSeen ==> forall j: nat, e ::
      RuleOutcomes.FirstRefused(f.lower, Texts(st.rules), j, e) && j < |st.rules| ==>
      ReadRules(f, st) == Err(TextError(Some(st.rules[j].0), InvalidRule(e)))
  {
    hide Parsed, RuleOutcomes.FirstRefused, RuleOutcomes.Accepted;
    RuleOutcomes.RulesOutcome(f.lower, Texts(st.rules));
  }

  ghost predicate Canonical(f: Formats, d: Document)
  {
    && EntriesOk(f.lexiconEntry, d.dictionary) && EntriesOk(f.lexiconEntry, d.exclusions)
    && EntriesOk(ProcessEntry(f.lower), d.processes)
  }

  lemma CanonicalizedIs(f: Formats, d: Document)
    requires Canonical(f, d)
    ensures !f.valid(d.settings) ==> Canonicalized(f, d) == Err(TextError(None, InvalidSettings))
    ensures f.valid(d.settings) ==>
      Canonicalized(f, d)
      == if forall e :: e in d.dictionary ==> e !in d.exclusions then Ok(d) else Err(TextError(None, EntryInBothLists))
  {
    hide EntriesOk, CanonicalEntries, ProcessEntry, Numbered, Texts;
    NumberedTexts(d.dictionary, 1);
    NumberedTexts(d.exclusions, 1);
    NumberedTexts(d.processes, 1);
    CanonicalOfStored(f.lexiconEntry, Numbered(d.dictionary, 1), InvalidLexiconEntry);
    CanonicalOfStored(f.lexiconEntry, Numbered(d.exclusions, 1), InvalidLexiconEntry);
    CanonicalOfStored(ProcessEntry(f.lower), Numbered(d.processes, 1), InvalidProcessEntry);
  }

  lemma LexiconStored(f: Formats, rows: seq<(nat, string)>)
    requires FormatsOk(f)
    ensures forall r :: CanonicalEntries(f.lexiconEntry, rows, InvalidLexiconEntry) == Ok(r) ==>
      EntriesOk(f.lexiconEntry, r)
  {
    hide SettingsOk, LowerOk, EntriesOk, CanonicalEntries;
    forall line | f.lexiconEntry(line).Some?
      ensures Stored(f.lexiconEntry, f.lexiconEntry(line).value)
    {
      assert EntryOk(f.lexiconEntry, line);
    }
    CanonicalIsOk(f.lexiconEntry, rows, InvalidLexiconEntry);
  }

  lemma ProcessesStored(f: Formats, rows: seq<(nat, string)>)
    requires FormatsOk(f)
    ensures forall r :: CanonicalEntries(ProcessEntry(f.lower), rows, InvalidProcessEntry) == Ok(r) ==>
      EntriesOk(ProcessEntry(f.lower), r)
  {
    hide SettingsOk, LowerOk, EntriesOk, CanonicalEntries, ProcessEntry;
    forall row | ProcessEntry(f.lower)(row).Some?
      ensures Stored(ProcessEntry(f.lower), ProcessEntry(f.lower)(row).value)
    {
      ProcessEntryOk(f.lower, row);
    }
    CanonicalIsOk(ProcessEntry(f.lower), rows, InvalidProcessEntry);
  }

  /** The parts of a file in the order in which they are looked at. */
  datatype Parts = Parts(
    profiles: Option<map<string, string>>,
    settings: Result<Values, TextError>,
    dictionary: Result<seq<string>, TextError>,
    exclusions: Result<seq<string>, TextError>,
    processes: Result<seq<string>, TextError>,
    rules: Result<Rules, TextError>)

  function PartsOf(f: Formats, st: Reading): Parts
  {
    Parts(ParseProfiles(f, st.profiles), ReadSettings(f, st),
          CanonicalEntries(f.lexiconEntry, st.dictionary, InvalidLexiconEntry),
          CanonicalEntries(f.lexiconEntry, st.exclusions, InvalidLexiconEntry),
          CanonicalEntries(ProcessEntry(f.lower), st.processes, InvalidProcessEntry), ReadRules(f, st))
  }

  ghost predicate AllRead(p: Parts)
  {
    p.profiles.Some? && p.settings.Ok? && p.dictionary.Ok? && p.exclusions.Ok? && p.processes.Ok? && p.rules.Ok?
  }

  /** The first part that is not read decides. */
  ghost predicate PartRefused(p: Parts, e: TextError)
  {
    if p.profiles.None? then e == TextError(None, InvalidProfiles)
    else if p.settings.Err? then e == p.settings.error
    else if p.dictionary.Err? then e == p.dictionary.error
    else if p.exclusions.Err? then e == p.exclusions.error
    else if p.processes.Err? then e == p.processes.error
    else p.rules.Err? && e == p.rules.error
  }

  ghost function Joined(st: Reading, p: Parts): Document
    requires AllRead(p)
  {
    Document(if st.mode.Some? then st.mode.value else LegacyBootstrap, p.settings.value, p.profiles.value,
             if st.ui.Some? then st.ui.value else "system", p.dictionary.value, p.exclusions.value, p.processes.value,
             p.rules.value)
  }

  lemma AssembledParts(f: Formats, st: Reading)
    ensures var p := PartsOf(f, st);
      && (forall e :: VersionProblem(st) == Some(e) ==> Assembled(f, st) == Err(TextError(None, e)))
      && (VersionProblem(st).None? ==>
            && (forall e :: PartRefused(p, e) ==> Assembled(f, st) == Err(e))
            && (AllRead(p) ==> Assembled(f, st) == Canonicalized(f, Joined(st, p))))
  {
    hide VersionProblem, ParseProfiles, ReadSettings, CanonicalEntries, ProcessEntry, ReadRules, Canonicalized;
  }

  /** The document that the parts make up is the one they give. */
  lemma PartsGive(f: Formats, st: Reading, d: Document)
    requires FormatsOk(f)
    ensures Gives(f, st, d) <==>
      AllRead(PartsOf(f, st)) && d == Joined(st, PartsOf(f, st)) && forall e :: e in d.dictionary ==> e !in d.exclusions
  {
    hide ParseProfiles, ProfilesGiven, CanonicalEntries, EntriesOf, ProcessEntry, Parsed, DefaultRules, AllEntries,
      FormatsOk, Texts, FirstNoEntry;
    ProfilesOutcome(f, st.profiles);
    EntriesOutcome(f.lexiconEntry, st.dictionary, InvalidLexiconEntry);
    EntriesOutcome(f.lexiconEntry, st.exclusions, InvalidLexiconEntry);
    EntriesOutcome(ProcessEntry(f.lower), st.processes, InvalidProcessEntry);
  }

  lemma PartsCanonical(f: Formats, st: Reading)
    requires FormatsOk(f) && AllRead(PartsOf(f, st))
    ensures Canonical(f, Joined(st, PartsOf(f, st))) && f.valid(Joined(st, PartsOf(f, st)).settings)
  {
    hide CanonicalEntries, EntriesOk, ProcessEntry, ReadRules, ParseProfiles, Texts, LowerOk, ValuesOk;
    LexiconStored(f, st.dictionary);
    LexiconStored(f, st.exclusions);
    ProcessesStored(f, st.processes);
  }

  /**
   * A file whose lines are all accepted is read as a document exactly when its version fits and the document is what
   * its sections give; an entry in both lists is what is left to refuse.
   */
  lemma FileOutcome(f: Formats, lines: seq<string>, st: Reading, d: Document)
    requires FormatsOk(f) && AllAccepted(lines) && Run(START, lines, 1) == Ok(st)
    ensures Reads(lines, |lines|, st)
    ensures Parse(f, lines) == Ok(d) <==> (forall e :: !VersionRefused(lines, e)) && Gives(f, st, d)
    ensures forall e :: VersionRefused(lines, e) ==> Parse(f, lines) == Err(TextError(None, e))
    ensures (forall e :: !VersionRefused(lines, e)) ==>
      && (forall e :: PartRefused(PartsOf(f, st), e) ==> Parse(f, lines) == Err(e))
      && (AllRead(PartsOf(f, st)) && InBoth(Joined(st, PartsOf(f, st))) ==>
            Parse(f, lines) == Err(TextError(None, EntryInBothLists)))
  {
    hide Run, Reads, LineRefused, VersionRefused, VersionProblem, Gives, Canonicalized, Assembled, FormatsOk, Canonical,
      PartsOf;
    LinesOutcome(lines);
    VersionOutcome(lines, st);
    AssembledParts(f, st);
    PartsGive(f, st, d);
    if AllRead(PartsOf(f, st)) {
      PartsCanonical(f, st);
      CanonicalizedIs(f, Joined(st, PartsOf(f, st)));
    } else {
      SomePartRefused(PartsOf(f, st));
    }
  }

  lemma SomePartRefused(p: Parts)
    requires !AllRead(p)
    ensures exists e :: PartRefused(p, e)
  {
    var e :=
      if p.profiles.None? then TextError(None, InvalidProfiles)
      else if p.settings.Err? then p.settings.error
      else if p.dictionary.Err? then p.dictionary.error
      else if p.exclusions.Err? then p.exclusions.error
      else if p.processes.Err? then p.processes.error
      else p.rules.error;
    assert PartRefused(p, e);
  }
}
