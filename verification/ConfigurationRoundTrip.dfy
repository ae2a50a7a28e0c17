/** What is read is canonical, and what is written reads back, exactly when its rules do. */
module ConfigurationRoundTrip {
  import opened Wrappers
  import opened Strings
  import opened BackendRules
  import opened ConfigurationText
  import Localization

  // ---------- canonical documents ----------

  ghost predicate EntriesOk(entry: string -> Option<string>, entries: seq<string>)
  {
    Ascending(entries) && forall e :: e in entries ==> Stored(entry, e)
  }

  ghost predicate ProfilesOk(f: Formats, profiles: map<string, string>)
  {
    |profiles| <= 64 && forall id :: id in profiles ==> Stored(f.packId, id) && Stored(f.profile, profiles[id])
  }

  ghost predicate Disjoint(xs: seq<string>, ys: seq<string>)
  {
    forall e :: !(e in xs && e in ys)
  }

  /** The system's language, or a locale in its normal form. */
  predicate UiForm(ui: string)
  {
    ui == "system" || Localization.NormalizeLocale(ui) == Ok(ui)
  }

  ghost predicate WellFormed(f: Formats, d: Document)
  {
    && f.valid(d.settings) && UiForm(d.uiLanguage)
    && EntriesOk(f.lexiconEntry, d.dictionary) && EntriesOk(f.lexiconEntry, d.exclusions)
    && EntriesOk(ProcessEntry(f.lower), d.processes)
    && Disjoint(d.dictionary, d.exclusions)
    && ProfilesOk(f, d.profiles) && RulesOk(f.lower, d.rules.exact)
  }

  lemma {:induction false} EntrySetStored(entry: string -> Option<string>, rows: seq<(nat, string)>)
    requires forall e :: e in Texts(rows) ==> Stored(entry, e)
    ensures EntrySet(entry, rows).Ok?
    ensures forall e :: e in EntrySet(entry, rows).value <==> e in Texts(rows)
  {
    if rows != [] {
      var n := |rows| - 1;
      var texts := Texts(rows);
      assert texts == Texts(rows[..n]) + [rows[n].1];
      EntrySetStored(entry, rows[..n]);
      assert rows[n].1 in texts;
    }
  }

  /** A sorted list of stored entries is its own canonical form, wherever its rows stood. */
  lemma CanonicalOfStored(entry: string -> Option<string>, rows: seq<(nat, string)>, reason: Reason)
    requires EntriesOk(entry, Texts(rows))
    ensures CanonicalEntries(entry, rows, reason) == Ok(Texts(rows))
  {
    EntrySetStored(entry, rows);
    AscendingUnique(SortedKeys(EntrySet(entry, rows).value), Texts(rows));
  }

  lemma {:induction false} EntrySetIsStored(entry: string -> Option<string>, rows: seq<(nat, string)>)
    requires forall line :: entry(line).Some? ==> Stored(entry, entry(line).value)
    ensures EntrySet(entry, rows).Ok? ==> forall e :: e in EntrySet(entry, rows).value ==> Stored(entry, e)
  {
    if rows != [] {
      EntrySetIsStored(entry, rows[..|rows| - 1]);
    }
  }

  lemma CanonicalIsOk(entry: string -> Option<string>, rows: seq<(nat, string)>, reason: Reason)
    requires forall line :: entry(line).Some? ==> Stored(entry, entry(line).value)
    ensures var r := CanonicalEntries(entry, rows, reason); r.Ok? ==> EntriesOk(entry, r.value)
  {
    EntrySetIsStored(entry, rows);
  }

  lemma NumberedTexts(rows: seq<string>, number: nat)
    ensures Texts(Numbered(rows, number)) == rows
  {
  }

  lemma WellFormedIsCanonical(f: Formats, d: Document)
    requires WellFormed(f, d)
    ensures Canonicalized(f, d) == Ok(d)
  {
    hide RulesOk, ProfilesOk, UiForm, UiFromConfig, EntriesOk, CanonicalEntries, ProcessEntry, Numbered, Texts;
    NumberedTexts(d.dictionary, 1);
    NumberedTexts(d.exclusions, 1);
    NumberedTexts(d.processes, 1);
    CanonicalOfStored(f.lexiconEntry, Numbered(d.dictionary, 1), InvalidLexiconEntry);
    CanonicalOfStored(f.lexiconEntry, Numbered(d.exclusions, 1), InvalidLexiconEntry);
    CanonicalOfStored(ProcessEntry(f.lower), Numbered(d.processes, 1), InvalidProcessEntry);
  }

  // ---------- program names ----------

  lemma SegmentPlain(path: string)
    ensures '\\' !in LastSegment(path) && '/' !in LastSegment(path)
    ensures forall c :: c in LastSegment(path) ==> c in path
  {
    var p := WithBackslashes(path);
    JoinSplit(p, '\\');
    var parts := Split(p, '\\');
    assert parts[|parts| - 1] in parts;
    forall c | c in LastSegment(path)
      ensures c != '\\' && c != '/' && c in path
    {
      SplitKeeps(p, '\\', |parts| - 1, c);
      var i :| 0 <= i < |p| && p[i] == c;
      assert path[i] == c;
    }
  }

  lemma {:induction false} SplitKeeps(s: string, sep: char, k: nat, c: char)
    requires k < |Split(s, sep)| && c in Split(s, sep)[k]
    ensures c in s
  {
    if |s| > 0 {
      var rest := Split(s[1..], sep);
      if s[0] == sep {
        if k > 0 { SplitKeeps(s[1..], sep, k - 1, c); }
      } else if k > 0 {
        assert Split(s, sep)[k] == rest[k];
        SplitKeeps(s[1..], sep, k, c);
      } else if c != s[0] {
        assert c in rest[0];
        SplitKeeps(s[1..], sep, 0, c);
      }
    }
  }

  /** A stored program name is a row of its own, and is stored as itself. */
  lemma ProcessEntryOk(lower: string -> string, row: string)
    requires LowerOk(lower) && ProcessEntry(lower)(row).Some?
    ensures EntryOk(ProcessEntry(lower), row)
  {
    hide LowerOk, TrimWhere;
    var value := TrimWhere(Trim(row), IsQuote);
    var name := Trim(LastSegment(value));
    var stored := lower(name);
    StoredNamePlain(lower, value);
    NameIsOwnSegment(lower, stored);
  }

  lemma StoredNamePlain(lower: string -> string, value: string)
    requires LowerOk(lower) && Trim(LastSegment(value)) != ""
    requires forall c :: c in value ==> !Forbidden(c)
    ensures var stored := lower(Trim(LastSegment(value)));
      && stored != "" && Trimmed(stored) && lower(stored) == stored
      && forall c :: c in stored ==> !Forbidden(c) && c != '/' && c != '\\'
  {
    var name := Trim(LastSegment(value));
    SegmentPlain(value);
    forall c | c in lower(name)
      ensures !Forbidden(c) && c != '/' && c != '\\'
    {
      if Caseless(c) { assert c in name; }
    }
  }

  lemma NameIsOwnSegment(lower: string -> string, stored: string)
    requires stored != "" && Trimmed(stored) && lower(stored) == stored
    requires forall c :: c in stored ==> !Forbidden(c) && c != '/' && c != '\\'
    requires stored[0] != '#' && !(stored[0] == '[' && stored[|stored| - 1] == ']')
    ensures ProcessEntry(lower)(stored) == Some(stored)
  {
    assert stored[0] in stored && stored[|stored| - 1] in stored;
    assert TrimWhere(stored, IsQuote) == stored;
    assert WithBackslashes(stored) == stored by {
      assert forall i :: 0 <= i < |stored| ==> stored[i] in stored;
    }
    SplitPlain(stored, '\\');
    assert Trim(stored) == stored;
    assert LastSegment(stored) == stored;
    assert !(exists c :: c in stored && Forbidden(c));
  }

  // ---------- whatever is read is canonical ----------

  lemma EnglishIsALocale()
    ensures Localization.NormalizeLocale("en") == Ok("en") && Trimmed("en")
  {
    SplitPlain("en", '-');
    LowerFixed("en");
  }

  lemma UiIsStable(raw: string)
    ensures UiForm(UiFromConfig(raw))
    ensures Trimmed(UiFromConfig(raw)) && UiFromConfig(raw) != ""
  {
    hide Localization.IdGrammar;
    var value := Trim(raw);
    var ui := UiFromConfig(raw);
    LowerFixed("system");
    if value == "" || ToLowerAscii(value) == "system" {
    } else if Localization.NormalizeLocale(value).Ok? {
      Localization.NormalizedIsStable(value);
      LowerAsciiIdempotent(value);
    } else {
      EnglishIsALocale();
    }
  }

  /** Exactly these forms are read as themselves. */
  lemma UiFormIff(ui: string)
    ensures UiForm(ui) <==> UiFromConfig(ui) == ui
    ensures UiForm(ui) ==> Trimmed(ui) && ui != ""
  {
    hide Localization.IdGrammar;
    UiIsStable(ui);
    LowerFixed("system");
    if UiForm(ui) && ui != "system" { LocaleTrimmed(ui); }
  }

  lemma LocaleTrimmed(ui: string)
    requires Localization.NormalizeLocale(ui) == Ok(ui)
    ensures Trimmed(ui) && ui != ""
  {
    IdChars(ui);
    assert ui[0] in ui && ui[|ui| - 1] in ui;
  }

  lemma IdChars(id: string)
    requires Localization.IdGrammar(id)
    ensures |id| > 0 && forall c :: c in id ==> Localization.IsAlnum(c) || c == '-'
  {
    JoinSplit(id, '-');
    JoinedChars(Split(id, '-'));
  }

  lemma {:induction false} JoinedChars(parts: seq<string>)
    requires |parts| >= 1
    requires forall i :: 0 <= i < |parts| ==> forall c :: c in parts[i] ==> Localization.IsAlnum(c)
    ensures forall c :: c in Join(parts, '-') ==> Localization.IsAlnum(c) || c == '-'
  {
    if |parts| > 1 { JoinedChars(parts[1..]); }
  }

  lemma {:induction false} ProfileMapOk(f: Formats, rows: seq<(string, string)>)
    requires FormatsOk(f)
    ensures var r := ProfileMap(f, rows);
      r.Some? ==>
        && |r.value| == |rows|
        && forall id :: id in r.value ==> Stored(f.packId, id) && Stored(f.profile, r.value[id])
  {
    hide SettingsOk, LowerOk;
    if rows != [] {
      var n := |rows| - 1;
      ProfileMapOk(f, rows[..n]);
      assert IdOk(f.packId, rows[n].0) && ProfileOk(f.profile, rows[n].1);
      var r := ProfileMap(f, rows);
      if r.Some? {
        var m := ProfileMap(f, rows[..n]).value;
        assert r.value.Keys == m.Keys + {f.packId(rows[n].0).value};
      }
    }
  }

  /** Canonicalizing keeps everything but the lists, which come out stored, sorted and disjoint. */
  lemma CanonicalizedOk(f: Formats, d: Document)
    requires FormatsOk(f)
    ensures var r := Canonicalized(f, d); r.Ok? ==>
      && f.valid(r.value.settings) && Disjoint(r.value.dictionary, r.value.exclusions)
      && EntriesOk(f.lexiconEntry, r.value.dictionary) && EntriesOk(f.lexiconEntry, r.value.exclusions)
      && EntriesOk(ProcessEntry(f.lower), r.value.processes)
      && r.value == d.(dictionary := r.value.dictionary, exclusions := r.value.exclusions,
        processes := r.value.processes)
  {
    hide SettingsOk, LowerOk, EntriesOk, CanonicalEntries, ProcessEntry;
    forall line | f.lexiconEntry(line).Some?
      ensures Stored(f.lexiconEntry, f.lexiconEntry(line).value)
    {
      assert EntryOk(f.lexiconEntry, line);
    }
    forall row | ProcessEntry(f.lower)(row).Some?
      ensures Stored(ProcessEntry(f.lower), ProcessEntry(f.lower)(row).value)
    {
      ProcessEntryOk(f.lower, row);
    }
    CanonicalIsOk(f.lexiconEntry, Numbered(d.dictionary, 1), InvalidLexiconEntry);
    CanonicalIsOk(f.lexiconEntry, Numbered(d.exclusions, 1), InvalidLexiconEntry);
    CanonicalIsOk(ProcessEntry(f.lower), Numbered(d.processes, 1), InvalidProcessEntry);
  }

  lemma {:induction false} RunKeepsUi(st: Reading, lines: seq<string>, number: nat)
    requires st.ui.Some? ==> UiForm(st.ui.value)
    ensures var r := Run(st, lines, number); r.Ok? && r.value.ui.Some? ==>
      UiForm(r.value.ui.value)
    decreases |lines|
  {
    hide Step, UiForm, UiFromConfig;
    if lines != [] {
      StepKeepsUi(st, number, lines[0]);
      var next := Step(st, number, lines[0]);
      if next.Ok? { RunKeepsUi(next.value, lines[1..], number + 1); }
    }
  }

  lemma StepKeepsUi(st: Reading, number: nat, raw: string)
    requires st.ui.Some? ==> UiForm(st.ui.value)
    ensures var r := Step(st, number, raw); r.Ok? && r.value.ui.Some? ==>
      UiForm(r.value.ui.value)
  {
    hide UiForm, UiFromConfig, Trim, ReadRowOf, EnterSection;
    var line := Trim(raw);
    if line == "" || line[0] == '#' {
    } else if IsHeader(line) {
      EnterKeepsUi(st, line[1..|line| - 1]);
    } else {
      RowKeepsUi(st, number, line);
    }
  }

  lemma EnterKeepsUi(st: Reading, name: string)
    ensures var r := EnterSection(st, name); r.Ok? ==> r.value.ui == st.ui
  {
    hide FromName, Trim, ToLowerAscii;
  }

  lemma RowKeepsUi(st: Reading, number: nat, line: string)
    requires st.ui.Some? ==> UiForm(st.ui.value)
    ensures var r := ReadRowOf(st, number, line);
      r.Ok? && r.value.ui.Some? ==> UiForm(r.value.ui.value)
  {
    hide UiForm, UiFromConfig, KeyValue, ParseU32, SplitOnce, Trim, ToLowerAscii;
    var row := SplitOnce(line, '=');
    if row.Some? { UiIsStable(row.value.1); }
  }

  lemma RulesReadOk(f: Formats, st: Reading)
    requires FormatsOk(f)
    ensures var r := ReadRules(f, st); r.Ok? ==> RulesOk(f.lower, r.value.exact)
  {
    hide SettingsOk, LowerOk, RulesOk, Parsed;
    if st.rulesSeen {
      if Parsed(f.lower, Texts(st.rules)).Ok? { ParsedIsOk(f.lower, Texts(st.rules)); }
    } else if Parsed(f.lower, DEFAULT_RULES).Ok? {
      ParsedIsOk(f.lower, DEFAULT_RULES);
    } else {
      NoRulesOk(f.lower);
    }
  }

  lemma NoRulesOk(lower: string -> string)
    ensures RulesOk(lower, map[])
  {
  }

  lemma AssembledOk(f: Formats, st: Reading)
    requires FormatsOk(f) && (st.ui.Some? ==> UiForm(st.ui.value))
    ensures var r := Assembled(f, st); r.Ok? ==> WellFormed(f, r.value)
  {
    hide FormatsOk, Canonicalized, CanonicalEntries, EntriesOk, ReadRules, RulesOk, ReadSettings, ProcessEntry,
      VersionProblem, UiForm, UiFromConfig;
    UiIsStable("");
    SystemUi();
    RulesReadOk(f, st);
    ProfileMapOk(f, st.profiles);
    if Assembled(f, st).Ok? {
      var d := Collected(f, st);
      CanonicalizedOk(f, d);
    }
  }

  lemma SystemUi()
    ensures UiFromConfig("") == "system"
  {
  }

  /** The document of the collected parts, when none of them is refused. */
  function Collected(f: Formats, st: Reading): (d: Document)
    requires Assembled(f, st).Ok?
    ensures Assembled(f, st) == Canonicalized(f, d)
    ensures Some(d.profiles) == ParseProfiles(f, st.profiles) && Ok(d.rules) == ReadRules(f, st)
    ensures d.uiLanguage == if st.ui.Some? then st.ui.value else "system"
  {
    Document(
      if st.mode.Some? then st.mode.value else LegacyBootstrap,
      ReadSettings(f, st).value,
      ParseProfiles(f, st.profiles).value,
      if st.ui.Some? then st.ui.value else "system",
      CanonicalEntries(f.lexiconEntry, st.dictionary, InvalidLexiconEntry).value,
      CanonicalEntries(f.lexiconEntry, st.exclusions, InvalidLexiconEntry).value,
      CanonicalEntries(ProcessEntry(f.lower), st.processes, InvalidProcessEntry).value,
      ReadRules(f, st).value)
  }

  // ---------- the interface language of a file ----------

  /** Line `k` is a row of the settings that gives the interface language. */
  ghost predicate GivesUi(lines: seq<string>, k: nat)
  {
    && k < |lines| && Run(START, lines[..k], 1).Ok? && Run(START, lines[..k], 1).value.section == Some(Settings)
    && var row := Trim(lines[k]);
    && row != "" && row[0] != '#' && !IsHeader(row) && IsUiRow(row)
  }

  /** What such a row says: the system's language, a locale, or English for anything else. */
  ghost predicate UiSaid(row: string, ui: string)
  {
    && IsUiRow(row)
    && var value := Trim(SplitOnce(row, '=').value.1);
    && (value == "" || ToLowerAscii(value) == "system" ==> ui == "system")
    && (value != "" && ToLowerAscii(value) != "system" ==>
          && (forall locale :: Localization.NormalizeLocale(value) == Ok(locale) ==> ui == locale)
          && (Localization.NormalizeLocale(value).Err? ==> ui == "en"))
  }

  ghost predicate UiOfLines(lines: seq<string>, ui: Option<string>)
  {
    && (ui.None? ==> forall k: nat :: !GivesUi(lines, k))
    && (ui.Some? ==> exists k: nat :: OnlyUi(lines, k) && UiSaid(Trim(lines[k]), ui.value))
  }

  ghost predicate OnlyUi(lines: seq<string>, k: nat)
  {
    k < |lines| && GivesUi(lines, k) && forall j: nat :: GivesUi(lines, j) ==> j == k
  }

  lemma LastLine(lines: seq<string>, last: string)
    requires Run(START, lines + [last], 1).Ok?
    ensures Run(START, lines, 1).Ok?
    ensures Step(Run(START, lines, 1).value, 1 + |lines|, last) == Ok(Run(START, lines + [last], 1).value)
  {
    hide Step;
    RunPrefix(START, lines, [last], 1);
    RunAppend(START, lines, [last], 1);
    RunOne(Run(START, lines, 1).value, last, 1 + |lines|);
  }

  lemma {:induction false} RunPrefix(st: Reading, a: seq<string>, b: seq<string>, number: nat)
    requires Run(st, a + b, number).Ok?
    ensures Run(st, a, number).Ok?
    decreases |a|
  {
    hide Step;
    if a != [] {
      assert (a + b)[0] == a[0] && (a + b)[1..] == a[1..] + b;
      RunPrefix(Step(st, number, a[0]).value, a[1..], b, number + 1);
    }
  }

  lemma StepUi(st: Reading, number: nat, raw: string)
    requires Step(st, number, raw).Ok?
    ensures var next, row := Step(st, number, raw).value, Trim(raw);
      if st.section == Some(Settings) && row != "" && row[0] != '#' && !IsHeader(row) && IsUiRow(row)
      then st.ui.None? && next.ui.Some? && UiSaid(row, next.ui.value)
      else next.ui == st.ui
  {
    hide Trim, ToLowerAscii, KeyValue, ParseU32, FromName, Localization.IdGrammar;
    var row := Trim(raw);
    if row == "" || row[0] == '#' {
    } else if IsHeader(row) {
      EnterKeepsUi(st, row[1..|row| - 1]);
    }
  }

  lemma GivesUiBefore(lines: seq<string>, last: string, k: nat)
    requires k < |lines|
    ensures GivesUi(lines + [last], k) <==> GivesUi(lines, k)
  {
    assert (lines + [last])[..k] == lines[..k] && (lines + [last])[k] == lines[k];
  }

  lemma {:induction false} UiOfRun(lines: seq<string>)
    requires Run(START, lines, 1).Ok?
    ensures UiOfLines(lines, Run(START, lines, 1).value.ui)
    decreases |lines|
  {
    hide Run, Step, GivesUi, UiSaid, Trim, IsUiRow;
    if lines == [] {
      EmptyRun(lines);
    } else {
      var n := |lines| - 1;
      var before, last := lines[..n], lines[n];
      assert lines == before + [last];
      LastLine(before, last);
      UiOfRun(before);
      var st := Run(START, before, 1).value;
      StepUi(st, 1 + n, last);
      LastGivesUi(before, last, st);
      forall k | 0 <= k < n
        ensures GivesUi(lines, k) <==> GivesUi(before, k)
      {
        GivesUiBefore(before, last, k);
      }
      UiOfMore(before, last, st.ui, Run(START, lines, 1).value.ui);
    }
  }

  lemma EmptyRun(lines: seq<string>)
    requires lines == []
    ensures UiOfLines(lines, Run(START, lines, 1).value.ui)
  {
  }

  lemma LastGivesUi(before: seq<string>, last: string, st: Reading)
    requires Run(START, before, 1) == Ok(st)
    ensures var row := Trim(last);
      GivesUi(before + [last], |before|)
      <==> st.section == Some(Settings) && row != "" && row[0] != '#' && !IsHeader(row) && IsUiRow(row)
  {
    hide Run, Trim, IsUiRow;
    assert (before + [last])[..|before|] == before;
  }

  lemma UiOfMore(before: seq<string>, last: string, had: Option<string>, ui: Option<string>)
    requires UiOfLines(before, had)
    requires forall k :: 0 <= k < |before| ==> (GivesUi(before + [last], k) <==> GivesUi(before, k))
    requires GivesUi(before + [last], |before|) ==>
      had.None? && ui.Some? && IsUiRow(Trim(last)) && UiSaid(Trim(last), ui.value)
    requires !GivesUi(before + [last], |before|) ==> ui == had
    ensures UiOfLines(before + [last], ui)
  {
    hide UiSaid, Trim, IsUiRow, Run;
    var lines := before + [last];
    assert forall k: nat :: GivesUi(lines, k) ==> k <= |before|;
    assert forall k: nat :: GivesUi(lines, k) && k != |before| ==> GivesUi(before, k);
    if GivesUi(lines, |before|) {
      assert lines[|before|] == last;
      assert OnlyUi(lines, |before|);
    } else if had.Some? {
      var k: nat :| OnlyUi(before, k) && UiSaid(Trim(before[k]), had.value);
      assert GivesUi(lines, k) && lines[k] == before[k];
      assert OnlyUi(lines, k);
    }
  }

  /**
   * The interface language of a file that is read is what its one row for it says: the system's language, the
   * locale it names in normal form, or English when it names none; and the system's without such a row.
   */
  lemma UiOfFile(f: Formats, lines: seq<string>)
    requires Parse(f, lines).Ok?
    ensures var ui := Parse(f, lines).value.uiLanguage;
      && (forall k: nat :: k < |lines| && GivesUi(lines, k) ==> UiSaid(Trim(lines[k]), ui))
      && ((forall k: nat :: !GivesUi(lines, k)) ==> ui == "system")
  {
    hide Run, GivesUi, UiSaid, Trim, IsUiRow, Assembled;
    var st := Run(START, lines, 1).value;
    UiOfRun(lines);
    AssembledUi(f, st);
    if st.ui.Some? {
      var k: nat :| OnlyUi(lines, k) && UiSaid(Trim(lines[k]), st.ui.value);
    }
  }

  lemma AssembledUi(f: Formats, st: Reading)
    requires Assembled(f, st).Ok?
    ensures Assembled(f, st).value.uiLanguage == if st.ui.Some? then st.ui.value else "system"
  {
    hide CanonicalEntries, ProcessEntry, ParseProfiles, ReadSettings, ReadRules, VersionProblem;
  }

  /** Whatever text is read, the document is canonical: stored, sorted, duplicate-free, disjoint. */
  lemma ReadIsWellFormed(f: Formats, lines: seq<string>)
    requires FormatsOk(f) && Parse(f, lines).Ok?
    ensures WellFormed(f, Parse(f, lines).value)
  {
    hide FormatsOk, Assembled, Run, WellFormed, UiForm, UiFromConfig;
    RunKeepsUi(START, lines, 1);
    AssembledOk(f, Run(START, lines, 1).value);
  }

  // ---------- reading what was written ----------

  lemma {:induction false} RunAppend(st: Reading, a: seq<string>, b: seq<string>, number: nat)
    requires Run(st, a, number).Ok?
    ensures Run(st, a + b, number) == Run(Run(st, a, number).value, b, number + |a|)
    decreases |a|
  {
    hide Step;
    if a == [] {
      assert a + b == b;
    } else {
      assert (a + b)[1..] == a[1..] + b;
      RunAppend(Step(st, number, a[0]).value, a[1..], b, number + 1);
    }
  }

  /** Rows of the sections that are kept as they stand. */
  function Pushed(st: Reading, rows: seq<(nat, string)>): Reading
  {
    match st.section
    case Some(Settings) => st.(settings := st.settings + rows)
    case Some(UserDictionary) => st.(dictionary := st.dictionary + rows)
    case Some(WordExclusions) => st.(exclusions := st.exclusions + rows)
    case Some(ProcessExclusions) => st.(processes := st.processes + rows)
    case Some(RuleSection) => st.(rules := st.rules + rows)
    case _ => st
  }

  predicate KeepsRows(section: Option<Section>)
  {
    section.Some? && section.value in {Settings, UserDictionary, WordExclusions, ProcessExclusions, RuleSection}
  }

  predicate IsUiRow(row: string)
  {
    var kv := SplitOnce(row, '=');
    kv.Some? && ToLowerAscii(Trim(kv.value.0)) == UI_LANGUAGE
  }

  predicate KeptRow(section: Option<Section>, row: string)
  {
    PlainRow(row) && (section == Some(Settings) ==> !IsUiRow(row))
  }

  lemma KeptRowStep(st: Reading, number: nat, row: string)
    requires KeepsRows(st.section) && KeptRow(st.section, row)
    ensures Step(st, number, row) == Ok(Pushed(st, [(number, row)]))
  {
    hide Trim, SplitOnce, ToLowerAscii, KeyValue;
  }

  lemma {:induction false} KeptRowsRun(st: Reading, rows: seq<string>, number: nat)
    requires KeepsRows(st.section) && forall row :: row in rows ==> KeptRow(st.section, row)
    ensures Run(st, rows, number) == Ok(Pushed(st, Numbered(rows, number)))
    decreases |rows|
  {
    hide Step, KeptRow;
    if rows == [] {
      assert Numbered(rows, number) == [];
      PushedNone(st);
    } else {
      KeptRowStep(st, number, rows[0]);
      var next := Pushed(st, [(number, rows[0])]);
      KeptRowsRun(next, rows[1..], number + 1);
      PushedMore(st, rows, number);
    }
  }

  lemma PushedNone(st: Reading)
    requires KeepsRows(st.section)
    ensures Pushed(st, []) == st
  {
    assert st.settings + [] == st.settings && st.dictionary + [] == st.dictionary;
    assert st.exclusions + [] == st.exclusions && st.processes + [] == st.processes && st.rules + [] == st.rules;
  }

  lemma PushedMore(st: Reading, rows: seq<string>, number: nat)
    requires KeepsRows(st.section) && rows != []
    ensures Pushed(Pushed(st, [(number, rows[0])]), Numbered(rows[1..], number + 1))
      == Pushed(st, Numbered(rows, number))
  {
    var all, tail := Numbered(rows, number), Numbered(rows[1..], number + 1);
    assert all == [(number, rows[0])] + tail;
    assert forall had: seq<(nat, string)> :: had + [(number, rows[0])] + tail == had + all;
  }

  function Entered(st: Reading, sec: Section): Reading
  {
    match sec
    case Packages => st.(packagesSeen := true, section := Some(sec))
    case InputProfiles => st.(profilesSeen := true, section := Some(sec))
    case RuleSection => st.(rulesSeen := true, section := Some(sec))
    case _ => st.(section := Some(sec))
  }

  lemma FromNameOfName(sec: Section)
    ensures FromName(Name(sec)) == Some(sec)
    ensures Trim(Name(sec)) == Name(sec) && ToLowerAscii(Name(sec)) == Name(sec)
  {
    hide Trim, ToLowerAscii;
    LowerFixed(Name(sec));
    match sec
    case Packages =>
    case Settings =>
    case InputProfiles =>
    case UserDictionary =>
    case WordExclusions =>
    case ProcessExclusions =>
    case RuleSection =>
  }

  lemma HeaderIsHeader(sec: Section)
    ensures IsHeader(Header(sec)) && Trim(Header(sec)) == Header(sec)
    ensures Header(sec)[1..|Header(sec)| - 1] == Name(sec)
  {
    hide Name;
    var h := Header(sec);
    assert h[0] == '[' && h[|h| - 1] == ']';
  }

  lemma HeaderStep(st: Reading, number: nat, sec: Section)
    requires sec == Packages ==> !st.packagesSeen
    requires sec == InputProfiles ==> !st.profilesSeen
    ensures Step(st, number, Header(sec)) == Ok(Entered(st, sec))
  {
    hide Trim, ToLowerAscii, Name, FromName, Header;
    HeaderIsHeader(sec);
    FromNameOfName(sec);
  }

  lemma BlankStep(st: Reading, number: nat)
    ensures Step(st, number, "") == Ok(st)
  {
  }

  /** A blank line and a header lead into a section. */
  lemma SectionRun(st: Reading, sec: Section, rows: seq<string>, number: nat)
    requires sec == Packages ==> !st.packagesSeen
    requires sec == InputProfiles ==> !st.profilesSeen
    ensures Run(st, SectionLines(sec, rows), number) == Run(Entered(st, sec), rows, number + 2)
  {
    hide Step, Header;
    BlankStep(st, number);
    HeaderStep(st, number + 1, sec);
    var lines := SectionLines(sec, rows);
    assert lines[1..] == [Header(sec)] + rows;
    assert lines[1..][1..] == rows;
  }

  lemma KeptSectionRun(st: Reading, sec: Section, rows: seq<string>, number: nat)
    requires KeepsRows(Some(sec)) && forall row :: row in rows ==> KeptRow(Some(sec), row)
    ensures Run(st, SectionLines(sec, rows), number) == Ok(Pushed(Entered(st, sec), Numbered(rows, number + 2)))
  {
    hide Run, KeptRow, Header, Pushed;
    SectionRun(st, sec, rows, number);
    KeptRowsRun(Entered(st, sec), rows, number + 2);
  }

  // ---------- the rows that are written ----------

  lemma RuleRowPlain(lower: string -> string, p: string, s: Strategy)
    requires Trimmed(p) && (p == "*" || StoredPattern(lower, p))
    ensures PlainRow(Row(p, s))
  {
    hide SplitOnce, Id, FromId;
    assert '=' !in p && |p| > 0;
    RowSplits(p, s);
    var row := Row(p, s);
    assert row[0] == p[0];
    IdEnds(p, s);
  }

  lemma IdEnds(p: string, s: Strategy)
    ensures var row := Row(p, s); |row| > 0 && row[|row| - 1] != ']'
  {
    var id, row := Id(s), Row(p, s);
    assert row[|row| - 1] == id[|id| - 1];
    assert id[|id| - 1] in id;
  }

  lemma KeyRowSplits(key: string, value: string)
    requires PlainName(key) && Trimmed(value)
    ensures var row := key + "=" + value;
      && PlainRow(row) && SplitOnce(row, '=') == Some((key, value)) && KeyValue(row) == Some((key, value))
  {
    var row := key + "=" + value;
    SplitOnceUnique(key, value, '=');
    assert row == key + ['='] + value;
    assert row[0] == key[0];
    assert row[|row| - 1] == if value == "" then '=' else value[|value| - 1];
  }

  lemma SettingRowsKept(f: Formats, values: Values)
    requires SettingsOk(f) && f.valid(values)
    ensures forall row :: row in SettingRows(f.keys, values) ==> KeptRow(Some(Settings), row)
  {
    hide PlainRow, SplitOnce, KeyValue;
    assert ValuesOk(f.keys, values);
    forall row | row in SettingRows(f.keys, values)
      ensures KeptRow(Some(Settings), row)
    {
      var i :| 0 <= i < |f.keys| && row == SettingRow(f.keys[i], values);
      var key := f.keys[i];
      assert key in f.keys;
      KeyRowSplits(key, values[key]);
    }
  }

  lemma RuleRowsKept(lower: string -> string, r: Rules)
    requires RulesOk(lower, r.exact) && AllTrimmed(r.exact)
    ensures forall row :: row in ToLines(r) ==> KeptRow(Some(RuleSection), row)
  {
    hide PlainRow, Row, SortedKeys, StoredPattern, Trimmed;
    var keys := SortedKeys(r.exact.Keys);
    forall row | row in ToLines(r)
      ensures KeptRow(Some(RuleSection), row)
    {
      var i :| 0 <= i < |ToLines(r)| && ToLines(r)[i] == row;
      if i < |keys| {
        assert keys[i] in keys;
        RuleRowPlain(lower, keys[i], r.exact[keys[i]]);
      } else {
        StarTrimmed();
        RuleRowPlain(lower, "*", r.fallback);
      }
    }
  }

  lemma StarTrimmed()
    ensures Trimmed("*")
  {
  }

  lemma EntryRowsKept(f: Formats, entries: seq<string>, sec: Section)
    requires FormatsOk(f) && EntriesOk(f.lexiconEntry, entries) && sec in {UserDictionary, WordExclusions}
    ensures forall row :: row in entries ==> KeptRow(Some(sec), row)
  {
    hide SettingsOk, LowerOk, PlainRow;
    forall row | row in entries
      ensures KeptRow(Some(sec), row)
    {
      assert EntryOk(f.lexiconEntry, row);
    }
  }

  lemma ProcessRowsKept(lower: string -> string, entries: seq<string>)
    requires LowerOk(lower) && EntriesOk(ProcessEntry(lower), entries)
    ensures forall row :: row in entries ==> KeptRow(Some(ProcessExclusions), row)
  {
    hide LowerOk, PlainRow, ProcessEntry;
    forall row | row in entries
      ensures KeptRow(Some(ProcessExclusions), row)
    {
      ProcessEntryOk(lower, row);
    }
  }

  // ---------- profiles ----------

  function Pairs(m: map<string, string>, keys: seq<string>): (ps: seq<(string, string)>)
    requires forall k :: k in keys ==> k in m
    ensures |ps| == |keys| && forall i :: 0 <= i < |keys| ==> ps[i] == (keys[i], m[keys[i]])
  {
    seq(|keys|, i requires 0 <= i < |keys| => (keys[i], m[keys[i]]))
  }

  ghost predicate ProfilesPlain(m: map<string, string>, keys: seq<string>)
  {
    forall k :: k in keys ==> k in m && PlainName(k) && Trimmed(m[k])
  }

  lemma ProfileStep(st: Reading, number: nat, id: string, profile: string)
    requires st.section == Some(InputProfiles) && |st.profiles| < 64 && PlainName(id) && Trimmed(profile)
    ensures Step(st, number, id + "=" + profile) == Ok(st.(profiles := st.profiles + [(id, profile)]))
  {
    hide Trim, SplitOnce, KeyValue, Trimmed;
    KeyRowSplits(id, profile);
  }

  lemma {:induction false} ProfileRowsRun(st: Reading, m: map<string, string>, keys: seq<string>, number: nat)
    requires st.section == Some(InputProfiles) && |st.profiles| + |keys| <= 64 && ProfilesPlain(m, keys)
    ensures Run(st, SettingRows(keys, m), number) == Ok(st.(profiles := st.profiles + Pairs(m, keys)))
    decreases |keys|
  {
    hide Step, PlainName, Trimmed;
    if keys == [] {
      assert st.profiles + Pairs(m, keys) == st.profiles;
    } else {
      var rows := SettingRows(keys, m);
      ProfileStep(st, number, keys[0], m[keys[0]]);
      var next := st.(profiles := st.profiles + [(keys[0], m[keys[0]])]);
      assert rows[1..] == SettingRows(keys[1..], m);
      ProfileRowsRun(next, m, keys[1..], number + 1);
      assert next.profiles + Pairs(m, keys[1..]) == st.profiles + Pairs(m, keys);
    }
  }

  function Restricted(m: map<string, string>, keys: seq<string>): (r: map<string, string>)
    requires forall k :: k in keys ==> k in m
    ensures r.Keys == set k | k in keys
    ensures forall k :: k in r ==> r[k] == m[k]
  {
    map k | k in keys :: m[k]
  }

  lemma RestrictedLast(m: map<string, string>, keys: seq<string>)
    requires (forall k :: k in keys ==> k in m) && keys != []
    ensures var n := |keys| - 1; Restricted(m, keys) == Restricted(m, keys[..n])[keys[n] := m[keys[n]]]
  {
    var n := |keys| - 1;
    assert forall k :: k in keys <==> k in keys[..n] || k == keys[n];
  }

  ghost predicate Distinct(keys: seq<string>)
  {
    forall i, j :: 0 <= i < j < |keys| ==> keys[i] != keys[j]
  }

  lemma {:induction false} PairsParse(f: Formats, m: map<string, string>, keys: seq<string>)
    requires Distinct(keys) && forall k :: k in keys ==> k in m && Stored(f.packId, k) && Stored(f.profile, m[k])
    ensures ProfileMap(f, Pairs(m, keys)) == Some(Restricted(m, keys))
  {
    hide Restricted;
    if keys == [] {
      assert Restricted(m, keys) == map[];
    } else {
      var n := |keys| - 1;
      var pairs := Pairs(m, keys);
      assert pairs[..n] == Pairs(m, keys[..n]);
      PairsParse(f, m, keys[..n]);
      assert keys[n] in keys && pairs[n] == (keys[n], m[keys[n]]);
      assert keys[n] !in keys[..n];
      RestrictedLast(m, keys);
    }
  }

  lemma ProfilesParse(f: Formats, m: map<string, string>)
    requires ProfilesOk(f, m)
    ensures ParseProfiles(f, Pairs(m, SortedKeys(m.Keys))) == Some(m)
  {
    hide ProfileMap, Ascending, SortedKeys;
    var keys := SortedKeys(m.Keys);
    AscendingDistinct(keys);
    PairsParse(f, m, keys);
    assert Restricted(m, keys) == m;
  }

  lemma ProfilesArePlain(f: Formats, m: map<string, string>)
    requires FormatsOk(f) && ProfilesOk(f, m)
    ensures ProfilesPlain(m, SortedKeys(m.Keys))
  {
    hide SettingsOk, LowerOk, PlainName;
    forall k | k in SortedKeys(m.Keys)
      ensures k in m && PlainName(k) && Trimmed(m[k])
    {
      assert IdOk(f.packId, k) && ProfileOk(f.profile, m[k]);
    }
  }

  // ---------- settings ----------

  lemma {:induction false} SettingRowsMap(keys: seq<string>, values: Values, first: string, ui: string)
    requires Distinct(keys)
    requires forall k :: k in keys ==> k in values && PlainName(k) && Trimmed(values[k]) && k != UI_LANGUAGE
    requires RowMap([first]) == Some(map[UI_LANGUAGE := ui])
    ensures RowMap([first] + SettingRows(keys, values)) == Some(Restricted(values, keys)[UI_LANGUAGE := ui])
  {
    hide Restricted, KeyValue, PlainName, Trimmed, RowMap;
    var rows := [first] + SettingRows(keys, values);
    if keys == [] {
      assert rows == [first];
      assert Restricted(values, keys)[UI_LANGUAGE := ui] == map[UI_LANGUAGE := ui];
    } else {
      var n := |keys| - 1;
      var key := keys[n];
      assert rows[..|rows| - 1] == [first] + SettingRows(keys[..n], values);
      SettingRowsMap(keys[..n], values, first, ui);
      assert key in keys && key !in keys[..n];
      KeyRowSplits(key, values[key]);
      assert rows[|rows| - 1] == SettingRow(key, values);
      RestrictedLast(values, keys);
      RowMapLast(rows, Restricted(values, keys[..n])[UI_LANGUAGE := ui], key, values[key]);
      UpdateSwap(Restricted(values, keys[..n]), key, values[key], ui);
    }
  }

  lemma RowMapLast(rows: seq<string>, m: Values, key: string, value: string)
    requires rows != [] && RowMap(rows[..|rows| - 1]) == Some(m) && key !in m
    requires KeyValue(rows[|rows| - 1]) == Some((key, value))
    ensures RowMap(rows) == Some(m[key := value])
  {
    hide KeyValue;
  }

  lemma UpdateSwap(m: Values, key: string, value: string, ui: string)
    requires key != UI_LANGUAGE
    ensures m[key := value][UI_LANGUAGE := ui] == m[UI_LANGUAGE := ui][key := value]
  {
  }

  function UiRow(ui: string): string { "ui_language=" + ui }

  lemma UiKeyPlain()
    ensures PlainName(UI_LANGUAGE) && ToLowerAscii(UI_LANGUAGE) == UI_LANGUAGE
  {
    LowerFixed(UI_LANGUAGE);
  }

  lemma UiRowSplits(ui: string)
    requires Trimmed(ui)
    ensures PlainRow(UiRow(ui)) && SplitOnce(UiRow(ui), '=') == Some((UI_LANGUAGE, ui))
    ensures RowMap([UiRow(ui)]) == Some(map[UI_LANGUAGE := ui])
  {
    hide SplitOnce;
    UiKeyPlain();
    KeyRowSplits(UI_LANGUAGE, ui);
    assert UI_LANGUAGE + "=" + ui == UiRow(ui);
    assert [UiRow(ui)][..0] == [];
  }

  /** The settings' rows, with the interface language before them, are read as those settings. */
  lemma SettingsReadBack(f: Formats, values: Values, ui: string)
    requires SettingsOk(f) && f.valid(values) && Trimmed(ui)
    ensures f.read([UiRow(ui)] + SettingRows(f.keys, values)) == Ok(values)
  {
    hide PlainName, RowMap, UiRow, Trimmed;
    assert ValuesOk(f.keys, values);
    UiKeyPlain();
    UiRowSplits(ui);
    forall k | k in f.keys
      ensures k in values && PlainName(k) && Trimmed(values[k]) && k != UI_LANGUAGE
    {
    }
    SettingRowsMap(f.keys, values, UiRow(ui), ui);
    assert Restricted(values, f.keys)[UI_LANGUAGE := ui] - {UI_LANGUAGE} == values;
  }

  // ---------- the preamble ----------

  lemma CommentStep(st: Reading, number: nat, line: string)
    requires |line| > 0 && Trimmed(line) && line[0] == '#'
    ensures Step(st, number, line) == Ok(st)
  {
  }

  lemma SchemaStep(st: Reading, number: nat)
    requires st.section.None? && st.schema.None?
    ensures Step(st, number, "schema_version=4") == Ok(st.(schema := Some(4)))
  {
    hide KeyValue, SplitOnce, Trim;
    var key := "schema_version";
    LowerFixed(key);
    LowerFixed("");
    assert Trimmed("4");
    KeyRowSplits(key, "4");
    assert key + "=" + "4" == "schema_version=4";
    FourParses();
  }

  lemma FourParses()
    ensures ParseU32("4") == Some(4)
  {
    var t := "4"[..0];
    assert DigitsValue(t) == 0;
  }

  lemma ModeStep(st: Reading, number: nat, mode: Mode)
    requires st.section == Some(Packages) && st.mode.None?
    ensures Step(st, number, "mode=" + ModeText(mode)) == Ok(st.(mode := Some(mode)))
  {
    hide KeyValue, SplitOnce, Trim;
    var key, value := "mode", ModeText(mode);
    LowerFixed(key);
    LowerFixed(value);
    KeyRowSplits(key, value);
    assert key + "=" + value == "mode=" + value;
  }

  lemma UiStep(st: Reading, number: nat, ui: string)
    requires st.section == Some(Settings) && st.ui.None? && Trimmed(ui) && UiForm(ui)
    ensures Step(st, number, UiRow(ui)) == Ok(st.(ui := Some(ui), settings := st.settings + [(number, UiRow(ui))]))
  {
    hide UiForm, UiFromConfig, SplitOnce, Trim, UiRow, ToLowerAscii;
    UiRowSplits(ui);
    UiKeyPlain();
    PlainNameTrimmed(UI_LANGUAGE);
    UiFormIff(ui);
  }

  lemma PlainNameTrimmed(name: string)
    requires PlainName(name)
    ensures Trim(name) == name
  {
  }

  function AfterPreamble(d: Document): Reading
  {
    START.(schema := Some(4), packagesSeen := true, mode := Some(d.mode), section := Some(Settings),
           ui := Some(d.uiLanguage), settings := [(8, UiRow(d.uiLanguage))])
  }

  lemma VersionRun()
    ensures Run(START, ["# AutoKeyboardLayot configuration", "schema_version=4"], 1) == Ok(START.(schema := Some(4)))
  {
    hide Step, Trimmed;
    var comment, version := "# AutoKeyboardLayot configuration", "schema_version=4";
    CommentsTrimmed();
    CommentStep(START, 1, comment);
    SchemaStep(START, 2);
    RunCons(START, comment, [version], 1);
    assert [comment] + [version] == [comment, version];
    RunOne(START, version, 2);
  }

  lemma ModeRun(mode: Mode)
    ensures Run(START.(schema := Some(4)), SectionLines(Packages, ["mode=" + ModeText(mode)]), 3)
         == Ok(START.(schema := Some(4), packagesSeen := true, section := Some(Packages), mode := Some(mode)))
  {
    hide Step, Header, ModeText;
    var st := START.(schema := Some(4));
    SectionRun(st, Packages, ["mode=" + ModeText(mode)], 3);
    ModeStep(Entered(st, Packages), 5, mode);
    RunOne(Entered(st, Packages), "mode=" + ModeText(mode), 5);
  }

  lemma UiRun(st: Reading, ui: string)
    requires st.ui.None? && Trimmed(ui) && UiForm(ui) && st.settings == []
    ensures Run(st, SectionLines(Settings, [UiRow(ui), "# AutoKeyboardLayot settings v2"]), 6)
         == Ok(st.(section := Some(Settings), ui := Some(ui), settings := [(8, UiRow(ui))]))
  {
    hide Step, Header, UiRow, UiForm, UiFromConfig, Trimmed;
    var comment := "# AutoKeyboardLayot settings v2";
    var inside := Entered(st, Settings);
    SectionRun(st, Settings, [UiRow(ui), comment], 6);
    UiStep(inside, 8, ui);
    var after := inside.(ui := Some(ui), settings := [(8, UiRow(ui))]);
    assert inside.settings + [(8, UiRow(ui))] == [(8, UiRow(ui))];
    RunCons(inside, UiRow(ui), [comment], 8);
    assert [UiRow(ui)] + [comment] == [UiRow(ui), comment];
    CommentsTrimmed();
    CommentStep(after, 9, comment);
    RunOne(after, comment, 9);
  }

  lemma RunOne(st: Reading, line: string, number: nat)
    requires Step(st, number, line).Ok?
    ensures Run(st, [line], number) == Ok(Step(st, number, line).value)
  {
    hide Step;
    RunCons(st, line, [], number);
    assert [line] + [] == [line];
  }

  lemma PreambleRun(d: Document)
    requires Trimmed(d.uiLanguage) && UiForm(d.uiLanguage)
    ensures Run(START, Preamble(d), 1) == Ok(AfterPreamble(d))
  {
    hide Run, UiForm, UiFromConfig, Header, UiRow, ModeText, Trimmed;
    VersionRun();
    ModeRun(d.mode);
    UiRowIs(d.uiLanguage);
    var first := ["# AutoKeyboardLayot configuration", "schema_version=4"];
    var second := SectionLines(Packages, ["mode=" + ModeText(d.mode)]);
    var third := SectionLines(Settings, [UiRow(d.uiLanguage), "# AutoKeyboardLayot settings v2"]);
    assert Preamble(d) == first + second + third;
    var st := START.(schema := Some(4), packagesSeen := true, section := Some(Packages), mode := Some(d.mode));
    UiRun(st, d.uiLanguage);
    RunAppend(START, first, second, 1);
    RunAppend(START, first + second, third, 1);
  }

  lemma UiRowIs(ui: string)
    ensures UiRow(ui) == "ui_language=" + ui
  {
  }

  lemma CommentsTrimmed()
    ensures Trimmed("# AutoKeyboardLayot configuration") && Trimmed("# AutoKeyboardLayot settings v2")
  {
  }

  lemma RunCons(st: Reading, line: string, rest: seq<string>, number: nat)
    requires Step(st, number, line).Ok?
    ensures Run(st, [line] + rest, number) == Run(Step(st, number, line).value, rest, number + 1)
  {
    hide Step;
    assert ([line] + rest)[1..] == rest;
  }

  // ---------- the whole text ----------

  /** What reading has collected after the settings and the next `k` sections that are written. */
  ghost predicate Gathered(f: Formats, d: Document, st: Reading, k: nat)
  {
    && st.schema == Some(4) && st.mode == Some(d.mode) && st.ui == Some(d.uiLanguage)
    && Texts(st.settings) == [UiRow(d.uiLanguage)] + SettingRows(f.keys, d.settings)
    && Texts(st.dictionary) == (if k >= 1 then d.dictionary else [])
    && st.profiles == (if k >= 2 then ProfilePairs(d) else []) && (st.profilesSeen <==> k >= 2)
    && Texts(st.exclusions) == (if k >= 3 then d.exclusions else [])
    && Texts(st.processes) == (if k >= 4 then d.processes else [])
    && st.rules == []
  }

  function ProfilePairs(d: Document): seq<(string, string)>
  {
    Pairs(d.profiles, SortedKeys(d.profiles.Keys))
  }

  function AfterSettings(f: Formats, d: Document): Reading
  {
    Pushed(AfterPreamble(d), Numbered(SettingRows(f.keys, d.settings), 10))
  }

  lemma SettingsRun(f: Formats, d: Document)
    requires FormatsOk(f) && WellFormed(f, d)
    ensures Run(START, Preamble(d) + SettingRows(f.keys, d.settings), 1) == Ok(AfterSettings(f, d))
    ensures Gathered(f, d, AfterSettings(f, d), 0)
  {
    hide Run, Preamble, SettingsOk, LowerOk, EntriesOk, RulesOk, ProfilesOk, KeptRow, UiForm, UiFromConfig, UiRow,
      Trimmed, ProfilePairs;
    UiFormIff(d.uiLanguage);
    PreambleRun(d);
    PreambleLength(d);
    var rows := SettingRows(f.keys, d.settings);
    SettingRowsKept(f, d.settings);
    KeptRowsRun(AfterPreamble(d), rows, 10);
    RunAppend(START, Preamble(d), rows, 1);
    var st := AfterSettings(f, d);
    assert Texts(st.settings) == [UiRow(d.uiLanguage)] + rows;
  }

  lemma PreambleLength(d: Document)
    ensures |Preamble(d)| == 9
  {
  }

  /** One more section whose rows are kept. */
  lemma AnotherSection(st: Reading, had: seq<string>, sec: Section, rows: seq<string>)
    requires Run(START, had, 1) == Ok(st) && sec != Settings
    requires KeepsRows(Some(sec)) && forall row :: row in rows ==> KeptRow(Some(sec), row)
    ensures Run(START, had + SectionLines(sec, rows), 1) == Ok(Pushed(Entered(st, sec), Numbered(rows, |had| + 3)))
  {
    hide Run, KeptRow, Header, Pushed;
    KeptSectionRun(st, sec, rows, 1 + |had|);
    RunAppend(START, had, SectionLines(sec, rows), 1);
  }

  lemma ProfilesSection(f: Formats, d: Document, st: Reading, had: seq<string>)
    requires FormatsOk(f) && ProfilesOk(f, d.profiles)
    requires Run(START, had, 1) == Ok(st) && !st.profilesSeen && st.profiles == []
    ensures Run(START, had + SectionLines(InputProfiles, ProfileRows(d.profiles)), 1)
         == Ok(Entered(st, InputProfiles).(profiles := ProfilePairs(d)))
  {
    hide Run, FormatsOk, Header, SortedKeys, ProfilesPlain;
    var keys := SortedKeys(d.profiles.Keys);
    var rows := ProfileRows(d.profiles);
    ProfilesArePlain(f, d.profiles);
    SectionRun(st, InputProfiles, rows, 1 + |had|);
    assert |keys| <= 64;
    var inside := Entered(st, InputProfiles);
    ProfileRowsRun(inside, d.profiles, keys, |had| + 3);
    assert inside.profiles + Pairs(d.profiles, keys) == Pairs(d.profiles, keys);
    RunAppend(START, had, SectionLines(InputProfiles, rows), 1);
  }

  lemma DictionaryGathered(f: Formats, d: Document, st: Reading, number: nat)
    requires Gathered(f, d, st, 0)
    ensures Gathered(f, d, Pushed(Entered(st, UserDictionary), Numbered(d.dictionary, number)), 1)
  {
    hide ProfilePairs, UiRow;
    assert st.dictionary + Numbered(d.dictionary, number) == Numbered(d.dictionary, number);
    NumberedTexts(d.dictionary, number);
  }

  lemma ExclusionsGathered(f: Formats, d: Document, st: Reading, number: nat)
    requires Gathered(f, d, st, 2)
    ensures Gathered(f, d, Pushed(Entered(st, WordExclusions), Numbered(d.exclusions, number)), 3)
  {
    hide ProfilePairs, UiRow;
    assert st.exclusions + Numbered(d.exclusions, number) == Numbered(d.exclusions, number);
    NumberedTexts(d.exclusions, number);
  }

  lemma ProcessesGathered(f: Formats, d: Document, st: Reading, number: nat)
    requires Gathered(f, d, st, 3)
    ensures Gathered(f, d, Pushed(Entered(st, ProcessExclusions), Numbered(d.processes, number)), 4)
  {
    hide ProfilePairs, UiRow;
    assert st.processes + Numbered(d.processes, number) == Numbered(d.processes, number);
    NumberedTexts(d.processes, number);
  }

  lemma ProfilesGathered(f: Formats, d: Document, st: Reading)
    requires Gathered(f, d, st, 1)
    ensures Gathered(f, d, Entered(st, InputProfiles).(profiles := ProfilePairs(d)), 2)
  {
    hide ProfilePairs, UiRow;
  }

  lemma DictionarySection(f: Formats, d: Document, st: Reading, had: seq<string>) returns (next: Reading)
    requires FormatsOk(f) && EntriesOk(f.lexiconEntry, d.dictionary)
    requires Run(START, had, 1) == Ok(st) && Gathered(f, d, st, 0)
    ensures Run(START, had + SectionLines(UserDictionary, d.dictionary), 1) == Ok(next) && Gathered(f, d, next, 1)
  {
    hide Run, FormatsOk, EntriesOk, Gathered, SectionLines, Pushed, Entered, KeptRow;
    EntryRowsKept(f, d.dictionary, UserDictionary);
    AnotherSection(st, had, UserDictionary, d.dictionary);
    DictionaryGathered(f, d, st, |had| + 3);
    next := Pushed(Entered(st, UserDictionary), Numbered(d.dictionary, |had| + 3));
  }

  lemma ExclusionsSection(f: Formats, d: Document, st: Reading, had: seq<string>) returns (next: Reading)
    requires FormatsOk(f) && EntriesOk(f.lexiconEntry, d.exclusions)
    requires Run(START, had, 1) == Ok(st) && Gathered(f, d, st, 2)
    ensures Run(START, had + SectionLines(WordExclusions, d.exclusions), 1) == Ok(next) && Gathered(f, d, next, 3)
  {
    hide Run, FormatsOk, EntriesOk, Gathered, SectionLines, Pushed, Entered, KeptRow;
    EntryRowsKept(f, d.exclusions, WordExclusions);
    AnotherSection(st, had, WordExclusions, d.exclusions);
    ExclusionsGathered(f, d, st, |had| + 3);
    next := Pushed(Entered(st, WordExclusions), Numbered(d.exclusions, |had| + 3));
  }

  lemma ProcessesSection(f: Formats, d: Document, st: Reading, had: seq<string>) returns (next: Reading)
    requires FormatsOk(f) && EntriesOk(ProcessEntry(f.lower), d.processes)
    requires Run(START, had, 1) == Ok(st) && Gathered(f, d, st, 3)
    ensures Run(START, had + SectionLines(ProcessExclusions, d.processes), 1) == Ok(next) && Gathered(f, d, next, 4)
  {
    hide Run, FormatsOk, EntriesOk, Gathered, SectionLines, Pushed, Entered, KeptRow, ProcessEntry;
    LowerIsOk(f);
    ProcessRowsKept(f.lower, d.processes);
    AnotherSection(st, had, ProcessExclusions, d.processes);
    ProcessesGathered(f, d, st, |had| + 3);
    next := Pushed(Entered(st, ProcessExclusions), Numbered(d.processes, |had| + 3));
  }

  lemma BeforeProfiles(f: Formats, d: Document, st: Reading)
    requires Gathered(f, d, st, 1)
    ensures !st.profilesSeen && st.profiles == []
  {
  }

  /** Everything before the rules is collected as it was written. */
  lemma BeforeRulesRun(f: Formats, d: Document) returns (st: Reading)
    requires FormatsOk(f) && WellFormed(f, d)
    ensures Run(START, LinesBeforeRules(f, d), 1) == Ok(st) && Gathered(f, d, st, 4)
  {
    hide Run, FormatsOk, EntriesOk, RulesOk, ProfilesOk, UiForm, UiFromConfig, Preamble, SectionLines,
      ProfileRows, Gathered, AfterSettings, ProfilePairs, SettingRows, ProcessEntry, Disjoint, Entered;
    SettingsRun(f, d);
    var had := Preamble(d) + SettingRows(f.keys, d.settings);
    st := DictionarySection(f, d, AfterSettings(f, d), had);
    had := had + SectionLines(UserDictionary, d.dictionary);
    BeforeProfiles(f, d, st);
    ProfilesSection(f, d, st, had);
    ProfilesGathered(f, d, st);
    had := had + SectionLines(InputProfiles, ProfileRows(d.profiles));
    st := ExclusionsSection(f, d, Entered(st, InputProfiles).(profiles := ProfilePairs(d)), had);
    had := had + SectionLines(WordExclusions, d.exclusions);
    st := ProcessesSection(f, d, st, had);
  }

  lemma LowerIsOk(f: Formats)
    requires FormatsOk(f)
    ensures LowerOk(f.lower) && SettingsOk(f)
  {
  }

  // ---------- putting the parts together ----------

  lemma ListsAssemble(f: Formats, d: Document, st: Reading)
    requires FormatsOk(f) && WellFormed(f, d) && Gathered(f, d, st.(rules := []), 4)
    ensures CanonicalEntries(f.lexiconEntry, st.dictionary, InvalidLexiconEntry) == Ok(d.dictionary)
    ensures CanonicalEntries(f.lexiconEntry, st.exclusions, InvalidLexiconEntry) == Ok(d.exclusions)
    ensures CanonicalEntries(ProcessEntry(f.lower), st.processes, InvalidProcessEntry) == Ok(d.processes)
  {
    hide FormatsOk, EntriesOk, RulesOk, ProfilesOk, UiForm, UiFromConfig, UiRow, ProcessEntry, CanonicalEntries,
      ProfilePairs;
    CanonicalOfStored(f.lexiconEntry, st.dictionary, InvalidLexiconEntry);
    CanonicalOfStored(f.lexiconEntry, st.exclusions, InvalidLexiconEntry);
    CanonicalOfStored(ProcessEntry(f.lower), st.processes, InvalidProcessEntry);
  }

  lemma OthersAssemble(f: Formats, d: Document, st: Reading)
    requires FormatsOk(f) && WellFormed(f, d) && Gathered(f, d, st.(rules := []), 4)
    ensures ParseProfiles(f, st.profiles) == Some(d.profiles)
    ensures ReadSettings(f, st) == Ok(d.settings)
    ensures VersionProblem(st).None? && st.mode == Some(d.mode) && st.ui == Some(d.uiLanguage)
  {
    hide FormatsOk, EntriesOk, RulesOk, ProfilesOk, UiForm, UiFromConfig, UiRow, ProcessEntry, ParseProfiles,
      SortedKeys, SettingsOk, Disjoint;
    LowerIsOk(f);
    UiFormIff(d.uiLanguage);
    ProfilesParse(f, d.profiles);
    SettingsReadBack(f, d.settings, d.uiLanguage);
  }

  /** What the collected parts are put together to. */
  lemma GatheredAssembles(f: Formats, d: Document, st: Reading)
    requires FormatsOk(f) && WellFormed(f, d) && Gathered(f, d, st.(rules := []), 4)
    requires ReadRules(f, st) == Ok(d.rules)
    ensures Assembled(f, st) == Ok(d)
  {
    hide FormatsOk, WellFormed, Gathered, ReadRules, ParseProfiles, Canonicalized, CanonicalEntries, ReadSettings,
      VersionProblem, ProcessEntry;
    ListsAssemble(f, d, st);
    OthersAssemble(f, d, st);
    WellFormedIsCanonical(f, d);
  }

  // ---------- the rules, and the read-back check ----------

  lemma RulesGathered(f: Formats, d: Document, st: Reading, number: nat)
    requires Gathered(f, d, st, 4)
    ensures var next := Pushed(Entered(st, RuleSection), Numbered(ToLines(d.rules), number));
      && Gathered(f, d, next.(rules := []), 4) && next.rulesSeen && Texts(next.rules) == ToLines(d.rules)
  {
    hide ProfilePairs, UiRow, ToLines;
    assert st.rules + Numbered(ToLines(d.rules), number) == Numbered(ToLines(d.rules), number);
    NumberedTexts(ToLines(d.rules), number);
  }

  /** A canonical document whose rule patterns carry no outer blanks is read back from its lines. */
  lemma WrittenReadsBack(f: Formats, d: Document)
    requires FormatsOk(f) && WellFormed(f, d) && AllTrimmed(d.rules.exact)
    ensures Parse(f, Lines(f, d)) == Ok(d)
  {
    hide Run, FormatsOk, EntriesOk, RulesOk, ProfilesOk, UiForm, UiFromConfig, LinesBeforeRules, SectionLines, Gathered,
      ToLines, ProcessEntry, Disjoint, Pushed, Entered, KeptRow, Assembled, AllTrimmed, Parsed;
    LowerIsOk(f);
    var st := BeforeRulesRun(f, d);
    var had := LinesBeforeRules(f, d);
    RuleRowsKept(f.lower, d.rules);
    AnotherSection(st, had, RuleSection, ToLines(d.rules));
    RulesGathered(f, d, st, |had| + 3);
    var next := Pushed(Entered(st, RuleSection), Numbered(ToLines(d.rules), |had| + 3));
    BackendRules.RoundTrip(f.lower, d.rules);
    GatheredAssembles(f, d, next);
  }

  lemma {:induction false} TrimKeepsLast(s: string)
    requires |s| > 0 && !IsSpace(s[|s| - 1])
    ensures Trim(s) != "" && Trim(s)[|Trim(s)| - 1] == s[|s| - 1]
    decreases |s|
  {
    if IsSpace(s[0]) { TrimKeepsLast(s[1..]); }
  }

  lemma RuleRowNoHeader(p: string, s: Strategy)
    ensures !IsHeader(Trim(Row(p, s)))
  {
    hide Trim, Id;
    IdEnds(p, s);
    var row, id := Row(p, s), Id(s);
    assert row[|row| - 1] == id[|id| - 1] && id[|id| - 1] in id;
    TrimKeepsLast(row);
  }

  ghost predicate Unquoted(rows: seq<string>)
  {
    forall row :: row in rows ==> '"' !in row
  }

  lemma {:induction false} RuleRowsRun(st: Reading, rows: seq<string>, number: nat)
    requires st.section == Some(RuleSection) && st.rulesSeen && Unquoted(Texts(st.rules)) && Unquoted(rows)
    requires forall row :: row in rows ==> !IsHeader(Trim(row))
    ensures var r := Run(st, rows, number); r.Ok? && r.value.rulesSeen && Unquoted(Texts(r.value.rules))
    decreases |rows|
  {
    hide Trim, IsHeader;
    if rows != [] {
      var line := Trim(rows[0]);
      assert rows[0] in rows && !IsHeader(line);
      var next := Step(st, number, rows[0]).value;
      TextsMore(st.rules, number, line);
      TrimIsPart(rows[0]);
      RuleRowsRun(next, rows[1..], number + 1);
    }
  }

  lemma TrimIsPart(row: string)
    requires '"' !in row
    ensures '"' !in Trim(row)
  {
  }

  lemma TextsMore(rows: seq<(nat, string)>, number: nat, line: string)
    ensures Texts(rows + [(number, line)]) == Texts(rows) + [line]
  {
  }

  lemma RulesRun(f: Formats, d: Document) returns (end: Reading)
    requires FormatsOk(f) && WellFormed(f, d)
    ensures Run(START, Lines(f, d), 1) == Ok(end) && end.rulesSeen && Unquoted(Texts(end.rules))
  {
    hide Run, FormatsOk, WellFormed, LinesBeforeRules, SectionLines, ToLines, Gathered, Unquoted;
    var st := BeforeRulesRun(f, d);
    var had, rows := LinesBeforeRules(f, d), ToLines(d.rules);
    WellFormedRules(f, d);
    RuleLinesUnquoted(f.lower, d.rules);
    SectionRun(st, RuleSection, rows, |had| + 1);
    NoRulesYet(f, d, st);
    RuleRowsRun(Entered(st, RuleSection), rows, |had| + 3);
    RunAppend(START, had, SectionLines(RuleSection, rows), 1);
    end := Run(START, Lines(f, d), 1).value;
  }

  lemma WellFormedRules(f: Formats, d: Document)
    requires WellFormed(f, d)
    ensures RulesOk(f.lower, d.rules.exact)
  {
  }

  lemma NoRulesYet(f: Formats, d: Document, st: Reading)
    requires Gathered(f, d, st, 4)
    ensures Unquoted(Texts(st.rules))
  {
  }

  /** However the rows of rules are read back, the patterns that are read carry no outer blanks. */
  lemma RulesReadTrimmed(f: Formats, d: Document)
    requires FormatsOk(f) && WellFormed(f, d)
    ensures var r := Parse(f, Lines(f, d)); r.Ok? ==> AllTrimmed(r.value.rules.exact)
  {
    hide Run, FormatsOk, WellFormed, Lines, Assembled, AllTrimmed, Unquoted;
    var end := RulesRun(f, d);
    AssembledRules(f, end);
  }

  lemma RuleLinesUnquoted(lower: string -> string, r: Rules)
    requires RulesOk(lower, r.exact)
    ensures Unquoted(ToLines(r)) && forall row :: row in ToLines(r) ==> !IsHeader(Trim(row))
  {
    hide Row, SortedKeys, RulesOk, IsHeader, Trim;
    var keys := SortedKeys(r.exact.Keys);
    forall row | row in ToLines(r)
      ensures '"' !in row && !IsHeader(Trim(row))
    {
      RowUnquoted(lower, r, row);
      var i :| 0 <= i < |ToLines(r)| && ToLines(r)[i] == row;
      if i < |keys| { RuleRowNoHeader(keys[i], r.exact[keys[i]]); } else { RuleRowNoHeader("*", r.fallback); }
    }
  }

  lemma ReadRulesTrimmed(f: Formats, st: Reading)
    requires LowerOk(f.lower) && st.rulesSeen && Unquoted(Texts(st.rules))
    ensures var r := ReadRules(f, st); r.Ok? ==> AllTrimmed(r.value.exact)
  {
    hide AllTrimmed, LowerOk, ReadLines;
    NoneTrimmed();
    UnquotedReadTrimmed(f.lower, Partial(map[], None), Texts(st.rules), 1);
  }

  lemma AssembledRules(f: Formats, st: Reading)
    requires FormatsOk(f) && st.rulesSeen && Unquoted(Texts(st.rules))
    ensures var r := Assembled(f, st); r.Ok? ==> AllTrimmed(r.value.rules.exact)
  {
    hide FormatsOk, Assembled, ReadRules, ParseProfiles, AllTrimmed, CanonicalEntries, ProcessEntry;
    LowerIsOk(f);
    ReadRulesTrimmed(f, st);
    if Assembled(f, st).Ok? {
      var d := Collected(f, st);
      assert Canonicalized(f, d).value.rules == d.rules;
    }
  }

  lemma NoneTrimmed()
    ensures AllTrimmed(map[])
  {
  }

  /**
   * The round trip of the file, exactly: a canonical document is read back from what is written
   * for it when no rule pattern starts or ends with a blank, and otherwise saving it is refused.
   */
  lemma SaveAndLoad(f: Formats, d: Document)
    requires FormatsOk(f) && WellFormed(f, d)
    ensures Parse(f, Lines(f, d)) == Ok(d) <==> AllTrimmed(d.rules.exact)
    ensures AllTrimmed(d.rules.exact) ==> ToText(f, d) == Ok(Lines(f, d))
    ensures !AllTrimmed(d.rules.exact) ==> ToText(f, d) == Err(TextError(None, NotReadBack))
  {
    hide FormatsOk, WellFormed, Parse, Lines, AllTrimmed, Canonicalized;
    WellFormedIsCanonical(f, d);
    if AllTrimmed(d.rules.exact) {
      WrittenReadsBack(f, d);
    } else {
      RulesReadTrimmed(f, d);
    }
  }

  /** Whatever was read from a text can be saved, unless a rule of it carries outer blanks. */
  lemma LoadedCanBeSaved(f: Formats, lines: seq<string>)
    requires FormatsOk(f) && Parse(f, lines).Ok?
    ensures var d := Parse(f, lines).value;
      ToText(f, d).Ok? <==> AllTrimmed(d.rules.exact)
  {
    hide FormatsOk, WellFormed, Parse, Lines, AllTrimmed, ToText;
    ReadIsWellFormed(f, lines);
    SaveAndLoad(f, Parse(f, lines).value);
  }

  /** The rows of a file whose only rule has this pattern, nested in quotes. */
  function NestedLines(f: Formats, d: Document, p: string): seq<string>
  {
    LinesBeforeRules(f, d) + SectionLines(RuleSection, [NestedLine(p)])
  }

  lemma NestedLineKept(p: string)
    ensures KeptRow(Some(RuleSection), NestedLine(p))
  {
    hide Trim;
    var line := NestedLine(p);
    assert line[0] == '"' && line[|line| - 1] == 'y';
  }

  lemma NestedGathered(f: Formats, d: Document, st: Reading, p: string, number: nat)
    requires Gathered(f, d, st, 4)
    ensures var next := Pushed(Entered(st, RuleSection), Numbered([NestedLine(p)], number));
      && Gathered(f, d.(rules := NestedRules(p)), next.(rules := []), 4)
      && next.rulesSeen && Texts(next.rules) == [NestedLine(p)]
  {
    hide ProfilePairs, UiRow, NestedLine;
    assert st.rules + Numbered([NestedLine(p)], number) == Numbered([NestedLine(p)], number);
    PairsIgnoreRules(d, NestedRules(p));
    NumberedTexts([NestedLine(p)], number);
  }

  lemma PairsIgnoreRules(d: Document, r: Rules)
    ensures ProfilePairs(d.(rules := r)) == ProfilePairs(d)
  {
  }

  /** Such a file is loaded, whatever else it holds, and can be saved exactly without outer blanks. */
  lemma LoadedButRefused(f: Formats, d: Document, p: string)
    requires FormatsOk(f) && WellFormed(f, d) && StoredPattern(f.lower, p)
    ensures var stored := d.(rules := NestedRules(p));
      && Parse(f, NestedLines(f, d, p)) == Ok(stored) && WellFormed(f, stored)
      && (!Trimmed(p) ==> ToText(f, stored) == Err(TextError(None, NotReadBack)))
  {
    hide Run, FormatsOk, EntriesOk, RulesOk, ProfilesOk, UiForm, UiFromConfig, LinesBeforeRules, SectionLines,
      Gathered, Parsed, ProcessEntry, Disjoint, Pushed, Entered, KeptRow, Assembled, AllTrimmed, NestedLine,
      NestedRules, ToText, Trimmed;
    var st := BeforeRulesRun(f, d);
    var had, stored := LinesBeforeRules(f, d), d.(rules := NestedRules(p));
    NestedLineKept(p);
    AnotherSection(st, had, RuleSection, [NestedLine(p)]);
    NestedGathered(f, d, st, p, |had| + 3);
    var next := Pushed(Entered(st, RuleSection), Numbered([NestedLine(p)], |had| + 3));
    LowerIsOk(f);
    NestedQuotesAreLost(f.lower, p);
    ParsedIsOk(f.lower, [NestedLine(p)]);
    GatheredAssembles(f, stored, next);
    SaveAndLoad(f, stored);
  }
}
