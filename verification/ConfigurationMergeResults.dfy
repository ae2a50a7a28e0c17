/** Merging whole configurations: what comes out is valid, and when it is what one would expect. */
module ConfigurationMergeResults {
  import opened Wrappers
  import opened Strings
  import opened BackendRules
  import opened ConfigurationText
  import opened ConfigurationRoundTrip
  import opened ConfigurationMerge
  import opened ConfigurationMergeLaws

  /** The formats, and the hotkey among the settings' rows. */
  ghost predicate MergeFormats(f: Formats)
  {
    FormatsOk(f) && HotkeyRows(f)
  }

  /** A document that can be saved and is then loaded as itself. */
  ghost predicate Savable(f: Formats, d: Document)
  {
    WellFormed(f, d) && AllTrimmed(d.rules.exact)
  }

  lemma ValidParts(f: Formats, d: Document)
    requires MergeFormats(f) && WellFormed(f, d)
    ensures SettingsFit(f, d.settings) && RulesOk(f.lower, d.rules.exact) && LowerOk(f.lower)
    ensures ProfilesOk(f, d.profiles) && Disjoint(d.dictionary, d.exclusions)
    ensures Ascending(d.dictionary) && Ascending(d.exclusions) && Ascending(d.processes)
    ensures UiForm(d.uiLanguage)
  {
    hide SettingsOk, LowerOk, UiForm, ProcessEntry, ProfilesOk, RulesOk;
  }

  // ---------- a side that changed nothing ----------

  lemma SameHotkeys(a: Values, b: Values)
    requires HotkeyOf(a) == HotkeyOf(b) && a.Keys == b.Keys && forall k :: k in HOTKEY_KEYS ==> k in a
    requires forall k :: k in a && k !in HotkeySet() ==> a[k] == b[k]
    ensures a == b
  {
    HotkeyNames();
    forall k | k in a
      ensures a[k] == b[k]
    {
      if k in HotkeySet() {
        assert OrEmpty(a, k) == a[k] && OrEmpty(b, k) == b[k];
        assert HotkeyOf(a)[0] == HotkeyOf(b)[0] && HotkeyOf(a)[1] == HotkeyOf(b)[1] && HotkeyOf(a)[2] == HotkeyOf(b)[2];
      }
    }
  }

  /** Settings taken apart into entries and written again are read as themselves. */
  lemma SettingsReadThemselves(f: Formats, d: Document)
    requires SettingsFit(f, d.settings)
    ensures ReadSettingsEntries(f, SettingsEntries(d.settings)) == Some(d.settings)
  {
    hide SettingsText, SettingsEntries, MergeMap, HotkeyOf, RowMap, SettingsFit, HotkeySet;
    var m := SettingsMerge(f, d, d, d);
    MergeMapLaws(SettingsEntries(d.settings), SettingsEntries(d.settings));
    HotkeysPresent(f, d.settings);
    SameHotkeys(m, d.settings);
    RowsReadAs(f, SettingsText(SettingsEntries(d.settings)), d.settings);
  }

  lemma RowsReadAs(f: Formats, rows: seq<string>, values: Values)
    requires SettingsFit(f, values) && RowMap(rows) == Some(values)
    ensures f.read(rows) == Ok(values)
  {
    hide RowMap, ValuesOk, PlainName;
    UiIsNoSetting(f, values);
    assert values - {UI_LANGUAGE} == values;
  }

  lemma HotkeysPresent(f: Formats, values: Values)
    requires SettingsFit(f, values)
    ensures forall k :: k in HOTKEY_KEYS ==> k in values
  {
    assert ValuesOk(f.keys, values);
  }

  lemma UiIsNoSetting(f: Formats, values: Values)
    requires SettingsFit(f, values)
    ensures UI_LANGUAGE !in values
  {
    assert ValuesOk(f.keys, values);
    UiKeyPlain();
  }

  lemma NothingShared(dictionary: seq<string>, exclusions: seq<string>)
    requires Disjoint(dictionary, exclusions)
    ensures Shared(dictionary, exclusions) == []
  {
    SharedNone(dictionary, exclusions);
  }

  lemma {:induction false} SharedNone(dictionary: seq<string>, exclusions: seq<string>)
    requires forall e :: !(e in dictionary && e in exclusions)
    ensures Shared(dictionary, exclusions) == []
  {
    if exclusions != [] {
      var n := |exclusions| - 1;
      assert exclusions[n] in exclusions;
      SharedNone(dictionary, exclusions[..n]);
    }
  }

  lemma NothingToRepair(dictionary: seq<string>, exclusions: seq<string>, draft: seq<string>)
    requires Shared(dictionary, exclusions) == []
    ensures RepairedDictionary(dictionary, exclusions, draft) == dictionary
    ensures RepairedExclusions(dictionary, exclusions, draft) == exclusions
  {
    hide Without, Shared;
    NonePlaced(draft);
    WithoutNone(dictionary);
    WithoutNone(exclusions);
  }

  /** The rules as the merge takes them apart and reads them again. */
  function RulesAgain(f: Formats, r: Rules): Option<Rules>
  {
    ReadRuleValues(f, RuleValues(r))
  }

  /** What a merge amounts to when every part but the rules merges to that of `x` without a clash. */
  lemma MergesTo(f: Formats, base: Document, ours: Document, theirs: Document, x: Document)
    requires MergeFormats(f) && WellFormed(f, x)
    requires MergeValue(base.mode, ours.mode, theirs.mode) == x.mode && !Clash(base.mode, ours.mode, theirs.mode)
    requires MergeValue(base.uiLanguage, ours.uiLanguage, theirs.uiLanguage) == x.uiLanguage
    requires !Clash(base.uiLanguage, ours.uiLanguage, theirs.uiLanguage)
    requires MergedSettings(base, ours, theirs) == SettingsEntries(x.settings)
      && SettingConflicts(base, ours, theirs) == []
    requires MergedProfiles(base, ours, theirs) == x.profiles && ProfileConflicts(base, ours, theirs) == []
    requires MergedRules(base, ours, theirs) == RuleValues(x.rules) && RuleConflicts(base, ours, theirs) == []
    requires MergedDictionary(base, ours, theirs) == x.dictionary
      && MergedExclusions(base, ours, theirs) == x.exclusions
    requires MergeEntries(base.processes, ours.processes, theirs.processes) == x.processes
    ensures Merged(f, base, ours, theirs) == WithRules(x, RulesAgain(f, x.rules), ours.rules)
  {
    hide MergeFormats, WellFormed, MergeValue, Clash, MergedSettings, MergedProfiles, MergedRules, SettingConflicts,
      ProfileConflicts, RuleConflicts, MergedDictionary, MergedExclusions, MergeEntries, ReadSettingsEntries,
      ReadRuleValues, SettingsEntries, RuleValues, ParseProfiles, SortedKeys, RepairedDictionary, RepairedExclusions,
      Shared, SettingsFit, LowerOk, ProfilesOk, Disjoint, Ascending, UiForm, RulesOk;
    ValidParts(f, x);
    SettingsReadThemselves(f, x);
    ProfilesParse(f, x.profiles);
    NothingShared(x.dictionary, x.exclusions);
    NothingToRepair(x.dictionary, x.exclusions, ours.exclusions);
  }

  /** A document with the rules that were read, or with the draft's and a conflict when none were. */
  function WithRules(x: Document, read: Option<Rules>, ours: Rules): MergedConfiguration
  {
    MergedConfiguration(x.(rules := ParsedOr(read, ours)), Note(read.None?, "backend_rules"))
  }

  /** Of a side without changes everything but the rules comes out as it is; the rules as they are read again. */
  lemma UnchangedSides(f: Formats, base: Document, x: Document)
    requires MergeFormats(f) && WellFormed(f, x)
    ensures Merged(f, base, base, x) == WithRules(x, RulesAgain(f, x.rules), base.rules)
    ensures Merged(f, base, x, base) == WithRules(x, RulesAgain(f, x.rules), x.rules)
    ensures Merged(f, base, x, x) == WithRules(x, RulesAgain(f, x.rules), x.rules)
  {
    hide MergeFormats, WellFormed, MergeMap, MapConflicts, MergeEntries, SettingsEntries, RuleValues, Merged,
      SettingsFit, LowerOk, ProfilesOk, Disjoint, Ascending, UiForm, RulesOk, RulesAgain, WithRules;
    ValidParts(f, x);
    MergeMapLaws(SettingsEntries(base.settings), SettingsEntries(x.settings));
    MergeMapLaws(base.profiles, x.profiles);
    MergeMapLaws(RuleValues(base.rules), RuleValues(x.rules));
    MergeEntriesLaws(base.dictionary, x.dictionary);
    MergeEntriesLaws(base.exclusions, x.exclusions);
    MergeEntriesLaws(base.processes, x.processes);
    MergesTo(f, base, base, x, x);
    MergesTo(f, base, x, base, x);
    MergesTo(f, base, x, x, x);
  }

  // ---------- the rules, taken apart and read again ----------

  ghost predicate UnquotedValues(m: map<string, string>)
  {
    forall k :: k in m ==> '"' !in k && '"' !in m[k]
  }

  lemma SplitUnquoted(row: string)
    requires '"' !in row && KeyValue(row).Some?
    ensures '"' !in KeyValue(row).value.0 && '"' !in KeyValue(row).value.1
  {
  }

  lemma {:induction false} LastWinsUnquoted(rows: seq<string>)
    requires forall row :: row in rows ==> '"' !in row
    ensures UnquotedValues(LastWins(rows))
  {
    hide KeyValue;
    if rows != [] {
      var n := |rows| - 1;
      LastWinsUnquoted(rows[..n]);
      assert rows[n] in rows;
      if KeyValue(rows[n]).Some? { SplitUnquoted(rows[n]); }
    }
  }

  lemma RuleValuesUnquoted(lower: string -> string, r: Rules)
    requires RulesOk(lower, r.exact)
    ensures UnquotedValues(RuleValues(r))
  {
    hide ToLines, RulesOk;
    forall row | row in ToLines(r)
      ensures '"' !in row
    {
      RowUnquoted(lower, r, row);
    }
    LastWinsUnquoted(ToLines(r));
  }

  lemma RuleTextUnquoted(m: map<string, string>, keys: seq<string>)
    requires UnquotedValues(m) && forall k :: k in keys ==> k in m
    ensures forall row :: row in RuleText(m, keys) ==> '"' !in row
  {
    forall row | row in RuleText(m, keys)
      ensures '"' !in row
    {
      var i :| 0 <= i < |keys| && RuleText(m, keys)[i] == row;
      assert keys[i] in keys;
      var separator := " = ";
      assert '"' !in separator;
    }
  }

  /** Whatever rules are read from values without quotes are stored, and carry no outer blanks. */
  lemma ReadTrimmed(f: Formats, m: map<string, string>)
    requires LowerOk(f.lower) && UnquotedValues(m)
    ensures var r := ReadRuleValues(f, m); r.Some? ==> RulesOk(f.lower, r.value.exact) && AllTrimmed(r.value.exact)
  {
    hide LowerOk, SortedKeys, RuleText, ReadLines, AllTrimmed, RulesOk, UnquotedValues;
    var rows := RuleText(m, SortedKeys(m.Keys));
    RuleTextUnquoted(m, SortedKeys(m.Keys));
    NoneTrimmed();
    UnquotedReadTrimmed(f.lower, Partial(map[], None), rows, 1);
    if Parsed(f.lower, rows).Ok? { ParsedIsOk(f.lower, rows); }
  }

  /** Rules are read again as themselves exactly when no pattern carries outer blanks. */
  lemma RulesAgainIff(f: Formats, r: Rules)
    requires LowerOk(f.lower) && RulesOk(f.lower, r.exact)
    ensures RulesAgain(f, r) == Some(r) <==> AllTrimmed(r.exact)
  {
    hide LowerOk, RuleValues, ReadRuleValues, RulesOk, AllTrimmed, TrimmedEntries, TrimsLowered;
    RuleValuesUnquoted(f.lower, r);
    ReadTrimmed(f, RuleValues(r));
    if AllTrimmed(r.exact) {
      TrimmedAlready(f.lower, r);
      EntryRulesOf(f.lower, r);
      ReadRuleValuesOf(f, TrimmedEntries(r));
    }
  }

  /** What they are read again as: the trimmed rules, or nothing when a pattern is all blanks. */
  lemma RulesAgainAre(f: Formats, r: Rules)
    requires LowerOk(f.lower) && TrimsLowered(f.lower, r)
    ensures RulesAgain(f, r) == if "" in TrimmedEntries(r) then None else Some(OfEntries(TrimmedEntries(r)))
  {
    hide LowerOk, RuleValues, ReadRuleValues, TrimmedEntries, TrimsLowered, OfEntries;
    EntryRulesOf(f.lower, r);
    ReadRuleValuesOf(f, TrimmedEntries(r));
  }

  /**
   * The laws of the merge: a draft without changes yields the configuration as it is now, a configuration
   * without changes yields the draft, and the same change on both sides yields that change, each without a
   * conflict. Each of them holds exactly when no rule pattern carries outer blanks.
   */
  lemma MergeLaws(f: Formats, base: Document, x: Document)
    requires MergeFormats(f) && WellFormed(f, x)
    ensures Merged(f, base, base, x) == MergedConfiguration(x, []) <==> AllTrimmed(x.rules.exact)
    ensures Merged(f, base, x, base) == MergedConfiguration(x, []) <==> AllTrimmed(x.rules.exact)
    ensures Merged(f, base, x, x) == MergedConfiguration(x, []) <==> AllTrimmed(x.rules.exact)
  {
    hide MergeFormats, WellFormed, Merged, SettingsFit, LowerOk, ProfilesOk, Disjoint, Ascending, UiForm, RulesOk,
      RulesAgain, AllTrimmed;
    ValidParts(f, x);
    UnchangedSides(f, base, x);
    RulesAgainIff(f, x.rules);
    ReadOrNot(x, RulesAgain(f, x.rules), base.rules);
    ReadOrNot(x, RulesAgain(f, x.rules), x.rules);
  }

  lemma ReadOrNot(x: Document, read: Option<Rules>, ours: Rules)
    ensures WithRules(x, read, ours) == MergedConfiguration(x, []) <==> read == Some(x.rules)
  {
    if read.None? { assert Note(true, "backend_rules") != []; }
  }

  // ---------- without conflicts the sides are alike ----------

  lemma NoConflicts(f: Formats, base: Document, ours: Document, theirs: Document)
    requires Conflicts(f, base, ours, theirs) == []
    ensures !Clash(base.mode, ours.mode, theirs.mode) && !Clash(base.uiLanguage, ours.uiLanguage, theirs.uiLanguage)
    ensures SettingConflicts(base, ours, theirs) == [] && ProfileConflicts(base, ours, theirs) == []
    ensures RuleConflicts(base, ours, theirs) == []
    ensures ReadSettingsEntries(f, MergedSettings(base, ours, theirs)).Some?
    ensures ReadMergedProfiles(f, base, ours, theirs).Some? && ReadRuleValues(f, MergedRules(base, ours, theirs)).Some?
    ensures !ListConflict(base, ours, theirs)
  {
    hide Clash, SettingConflicts, ProfileConflicts, RuleConflicts, ReadSettingsEntries, ReadMergedProfiles,
      ReadRuleValues, MergedSettings, MergedRules, ListConflict;
    assert |Conflicts(f, base, ours, theirs)| == 0;
  }

  /** A merge without conflicts gives the same document whichever side is the draft. */
  lemma MergeSymmetric(f: Formats, base: Document, ours: Document, theirs: Document)
    requires Conflicts(f, base, ours, theirs) == []
    ensures Merged(f, base, theirs, ours) == Merged(f, base, ours, theirs)
  {
    hide MergeMap, MapConflicts, MergeEntries, SettingsEntries, RuleValues, Conflicts, ReadSettingsEntries,
      ReadRuleValues, ParseProfiles, SortedKeys, RepairedDictionary, RepairedExclusions, Shared;
    NoConflicts(f, base, ours, theirs);
    MergeMapSymmetric(SettingsEntries(base.settings), SettingsEntries(ours.settings), SettingsEntries(theirs.settings));
    MergeMapSymmetric(base.profiles, ours.profiles, theirs.profiles);
    MergeMapSymmetric(RuleValues(base.rules), RuleValues(ours.rules), RuleValues(theirs.rules));
    MergeEntriesSymmetric(base.dictionary, ours.dictionary, theirs.dictionary);
    MergeEntriesSymmetric(base.exclusions, ours.exclusions, theirs.exclusions);
    MergeEntriesSymmetric(base.processes, ours.processes, theirs.processes);
    var words, excluded := MergedDictionary(base, ours, theirs), MergedExclusions(base, ours, theirs);
    NothingToRepair(words, excluded, ours.exclusions);
    NothingToRepair(words, excluded, theirs.exclusions);
    AlikeConflicts(f, base, ours, theirs);
  }

  lemma AlikeConflicts(f: Formats, base: Document, ours: Document, theirs: Document)
    requires Conflicts(f, base, ours, theirs) == []
    ensures Conflicts(f, base, theirs, ours) == []
  {
    hide MergeMap, MapConflicts, MergeEntries, SettingsEntries, RuleValues, ReadSettingsEntries, ReadRuleValues,
      ParseProfiles, SortedKeys, Shared;
    NoConflicts(f, base, ours, theirs);
    MergeMapSymmetric(SettingsEntries(base.settings), SettingsEntries(ours.settings), SettingsEntries(theirs.settings));
    MergeMapSymmetric(base.profiles, ours.profiles, theirs.profiles);
    MergeMapSymmetric(RuleValues(base.rules), RuleValues(ours.rules), RuleValues(theirs.rules));
    MergeEntriesSymmetric(base.dictionary, ours.dictionary, theirs.dictionary);
    MergeEntriesSymmetric(base.exclusions, ours.exclusions, theirs.exclusions);
  }

  // ---------- what comes out is valid ----------

  lemma MergedEntriesOk(entry: string -> Option<string>, base: seq<string>, ours: seq<string>, theirs: seq<string>)
    requires EntriesOk(entry, ours) && EntriesOk(entry, theirs)
    ensures EntriesOk(entry, MergeEntries(base, ours, theirs))
  {
    forall e | e in MergeEntries(base, ours, theirs)
      ensures Stored(entry, e)
    {
      EntrySurvives(base, ours, theirs, e);
    }
  }

  lemma RepairedOk(entry: string -> Option<string>, dictionary: seq<string>, exclusions: seq<string>,
      draft: seq<string>)
    requires EntriesOk(entry, dictionary) && EntriesOk(entry, exclusions)
    ensures EntriesOk(entry, RepairedDictionary(dictionary, exclusions, draft))
    ensures EntriesOk(entry, RepairedExclusions(dictionary, exclusions, draft))
    ensures Disjoint(RepairedDictionary(dictionary, exclusions, draft),
      RepairedExclusions(dictionary, exclusions, draft))
  {
    var both := Shared(dictionary, exclusions);
    WithoutAscends(dictionary, Placed(both, draft, true));
    WithoutAscends(exclusions, Placed(both, draft, false));
    forall e
      ensures !(e in RepairedDictionary(dictionary, exclusions, draft)
        && e in RepairedExclusions(dictionary, exclusions, draft))
    {
      RepairSeparates(dictionary, exclusions, draft, e);
    }
  }

  lemma ListsWellFormed(f: Formats, base: Document, ours: Document, theirs: Document)
    requires WellFormed(f, ours) && WellFormed(f, theirs)
    ensures var d := MergedDocument(f, base, ours, theirs);
      && EntriesOk(f.lexiconEntry, d.dictionary) && EntriesOk(f.lexiconEntry, d.exclusions)
      && EntriesOk(ProcessEntry(f.lower), d.processes) && Disjoint(d.dictionary, d.exclusions)
  {
    hide EntriesOk, ProcessEntry, MergeEntries, RepairedDictionary, RepairedExclusions, Disjoint, ProfilesOk, RulesOk,
      UiForm, ReadSettingsEntries, ReadRuleValues, ReadMergedProfiles;
    MergedEntriesOk(f.lexiconEntry, base.dictionary, ours.dictionary, theirs.dictionary);
    MergedEntriesOk(f.lexiconEntry, base.exclusions, ours.exclusions, theirs.exclusions);
    MergedEntriesOk(ProcessEntry(f.lower), base.processes, ours.processes, theirs.processes);
    RepairedOk(f.lexiconEntry, MergedDictionary(base, ours, theirs), MergedExclusions(base, ours, theirs),
      ours.exclusions);
  }

  lemma MergedProfilesOk(f: Formats, base: Document, ours: Document, theirs: Document)
    requires FormatsOk(f) && ProfilesOk(f, ours.profiles)
    ensures ProfilesOk(f, ParsedOr(ReadMergedProfiles(f, base, ours, theirs), ours.profiles))
  {
    hide FormatsOk, SortedKeys, MergedProfiles;
    var m := MergedProfiles(base, ours, theirs);
    ProfileMapOk(f, Pairs(m, SortedKeys(m.Keys)));
  }

  lemma MergedSettingsValid(f: Formats, base: Document, ours: Document, theirs: Document)
    requires SettingsOk(f) && f.valid(ours.settings)
    ensures f.valid(ParsedOr(ReadSettingsEntries(f, MergedSettings(base, ours, theirs)), ours.settings))
  {
  }

  lemma MergedRulesUnquoted(f: Formats, base: Document, ours: Document, theirs: Document)
    requires RulesOk(f.lower, ours.rules.exact) && RulesOk(f.lower, theirs.rules.exact)
    ensures UnquotedValues(MergedRules(base, ours, theirs))
  {
    hide RulesOk, RuleValues, MergeMap;
    RuleValuesUnquoted(f.lower, ours.rules);
    RuleValuesUnquoted(f.lower, theirs.rules);
    forall k | k in MergedRules(base, ours, theirs)
      ensures '"' !in k && '"' !in MergedRules(base, ours, theirs)[k]
    {
      MergeMapAt(RuleValues(base.rules), RuleValues(ours.rules), RuleValues(theirs.rules), k);
    }
  }

  /**
   * Merging valid configurations yields a valid one, whatever the base and the conflicts. It can be saved and
   * is then loaded as itself exactly when the merged rules were read, or the draft could be saved.
   */
  lemma MergeIsValid(f: Formats, base: Document, ours: Document, theirs: Document)
    requires MergeFormats(f) && WellFormed(f, ours) && WellFormed(f, theirs)
    ensures var d := Merged(f, base, ours, theirs).document;
      && WellFormed(f, d)
      && (Savable(f, d) <==> ReadRuleValues(f, MergedRules(base, ours, theirs)).Some? || Savable(f, ours))
      && (Savable(f, d) ==> ToText(f, d) == Ok(Lines(f, d)) && Parse(f, Lines(f, d)) == Ok(d))
      && (!Savable(f, d) ==> ToText(f, d) == Err(TextError(None, NotReadBack)))
  {
    hide FormatsOk, MergeMap, RepairedDictionary, RepairedExclusions, MergeEntries, ReadSettingsEntries,
      ReadRuleValues, ReadMergedProfiles, EntriesOk, ProcessEntry, Disjoint, ProfilesOk, UiForm, Parse, Lines,
      ToText, LowerOk, SettingsOk, HotkeyRows, Ascending, MergedSettings, MergedRules, AllTrimmed, RulesOk,
      UnquotedValues;
    ValidParts(f, ours);
    ValidParts(f, theirs);
    ListsWellFormed(f, base, ours, theirs);
    MergedProfilesOk(f, base, ours, theirs);
    MergedSettingsValid(f, base, ours, theirs);
    MergedRulesUnquoted(f, base, ours, theirs);
    ReadTrimmed(f, MergedRules(base, ours, theirs));
    SaveAndLoad(f, Merged(f, base, ours, theirs).document);
  }

  // ---------- which parts can conflict as a whole ----------

  /** Merged profiles are refused as a whole exactly when there are more than 64 of them. */
  lemma ProfilesRefused(f: Formats, base: Document, ours: Document, theirs: Document)
    requires ProfilesOk(f, ours.profiles) && ProfilesOk(f, theirs.profiles)
    ensures var m := MergedProfiles(base, ours, theirs);
      ReadMergedProfiles(f, base, ours, theirs) == if |m| <= 64 then Some(m) else None
  {
    hide MergeMap, SortedKeys, ParseProfiles;
    var m := MergedProfiles(base, ours, theirs);
    forall id | id in m
      ensures Stored(f.packId, id) && Stored(f.profile, m[id])
    {
      MergeMapAt(base.profiles, ours.profiles, theirs.profiles, id);
    }
    if |m| <= 64 {
      ProfilesParse(f, m);
    } else {
      TooManyRefused(f, m);
    }
  }

  lemma TooManyRefused(f: Formats, m: map<string, string>)
    requires |m| > 64
    ensures ParseProfiles(f, Pairs(m, SortedKeys(m.Keys))).None?
  {
    assert |Pairs(m, SortedKeys(m.Keys))| == |m.Keys|;
  }

  /** Values taken key by key from two settings, with the hotkey of one of them. */
  predicate Mixes(ours: Values, theirs: Values, m: Values)
  {
    && m.Keys == ours.Keys && ours.Keys == theirs.Keys
    && (forall k :: k in m && k !in HotkeySet() ==> m[k] == ours[k] || m[k] == theirs[k])
    && (HotkeyOf(m) == HotkeyOf(ours) || HotkeyOf(m) == HotkeyOf(theirs))
  }

  /** Settings are checked row by row, the hotkey's three rows together. */
  ghost predicate RowByRow(f: Formats)
  {
    forall ours, theirs, m :: f.valid(ours) && f.valid(theirs) && Mixes(ours, theirs, m) ==> f.valid(m)
  }

  /** Settings checked row by row are merged value by value, and are never refused as a whole. */
  lemma SettingsNeverRefused(f: Formats, base: Document, ours: Document, theirs: Document)
    requires SettingsFit(f, base.settings) && SettingsFit(f, ours.settings) && SettingsFit(f, theirs.settings)
      && RowByRow(f)
    ensures var r := ReadSettingsEntries(f, MergedSettings(base, ours, theirs));
      r.Some? && MergesSettings(base.settings, ours.settings, theirs.settings, r.value)
  {
    hide MergedSettings, SettingsText, RowMap, HotkeyOf, ValuesOk, HotkeySet;
    var m := SettingsMerge(f, base, ours, theirs);
    SameKeys(f, theirs.settings, m);
    assert Mixes(ours.settings, theirs.settings, m);
    RowsReadAs(f, SettingsText(MergedSettings(base, ours, theirs)), m);
  }

  /** Where each entry of the two word lists ends up. */
  lemma ListsAfterMerge(f: Formats, base: Document, ours: Document, theirs: Document, e: string)
    requires Disjoint(ours.dictionary, ours.exclusions) && Disjoint(theirs.dictionary, theirs.exclusions)
    ensures var d := Merged(f, base, ours, theirs).document;
      var word := Votes(base.dictionary, ours.dictionary, theirs.dictionary, e) >= 2;
      var excluded := Votes(base.exclusions, ours.exclusions, theirs.exclusions, e) >= 2;
      && (e in d.dictionary <==> word && (excluded ==> e in ours.dictionary))
      && (e in d.exclusions <==> excluded && (word ==> e in ours.exclusions))
  {
    hide RepairedDictionary, RepairedExclusions, MergeEntries, ReadSettingsEntries, ReadRuleValues, ReadMergedProfiles;
    EntrySurvives(base.dictionary, ours.dictionary, theirs.dictionary, e);
    EntrySurvives(base.exclusions, ours.exclusions, theirs.exclusions, e);
    RepairSeparates(MergedDictionary(base, ours, theirs), MergedExclusions(base, ours, theirs), ours.exclusions, e);
    if e in MergedDictionary(base, ours, theirs) && e in MergedExclusions(base, ours, theirs) {
      DoublyPlaced(base, ours, theirs, e);
    }
  }

  // ---------- an example ----------

  predicate ExampleValid(m: Values)
  {
    m.Keys == HotkeySet() && forall k :: k in m ==> Trimmed(m[k]) && '\n' !in m[k]
  }

  function ExampleRead(rows: seq<string>): Result<Values, nat>
  {
    match RowMap(rows)
    case None => Err(1)
    case Some(m) => if ExampleValid(m - {UI_LANGUAGE}) then Ok(m - {UI_LANGUAGE}) else Err(1)
  }

  function ExampleFormats(): Formats
  {
    Formats(
      ToLowerAscii,
      (line: string) => if PlainRow(line) then Some(line) else None,
      (id: string) => if PlainName(id) then Some(id) else None,
      (p: string) => if p != "" && Trimmed(p) then Some(p) else None,
      HOTKEY_KEYS, ExampleRead, ExampleValid)
  }

  /** The premises of the results above are met, with settings that are nothing but the hotkey. */
  lemma PremisesCanBeMet() returns (f: Formats, d: Document)
    ensures MergeFormats(f) && RowByRow(f) && Savable(f, d) && f.lower == ToLowerAscii
  {
    f := ExampleFormats();
    ExampleFormatsOk();
    ExampleRowByRow();
    d := Document(Managed, map[HOTKEY_KEYS[0] := "", HOTKEY_KEYS[1] := "", HOTKEY_KEYS[2] := ""], map[], "system",
                  [], [], [], Rules(map[], CapabilityProbe));
    ExampleSavable(d);
  }

  lemma ExampleFormatsOk()
    ensures MergeFormats(ExampleFormats())
  {
    hide PlainName, PlainRow, Trimmed, LowerOk, SettingsOk;
    AsciiLowerOk();
    HotkeyNames();
    ExampleSettingsOk();
    ExampleHotkeyRows();
  }

  lemma ExampleHotkeyRows()
    ensures HotkeyRows(ExampleFormats())
  {
    HotkeyNames();
  }

  lemma ExampleSettingsOk()
    ensures SettingsOk(ExampleFormats())
  {
    hide PlainName, RowMap, Trimmed;
    HotkeyNames();
    UiKeyPlain();
    forall s | ExampleValid(s)
      ensures ValuesOk(HOTKEY_KEYS, s)
    {
      assert forall k :: k in s <==> k in HotkeySet();
    }
  }

  lemma ExampleRowByRow()
    ensures RowByRow(ExampleFormats())
  {
    hide Trimmed, HotkeyOf, HotkeySet;
    var f := ExampleFormats();
    HotkeyNames();
    forall ours, theirs, m | f.valid(ours) && f.valid(theirs) && Mixes(ours, theirs, m)
      ensures f.valid(m)
    {
      SameHotkeys(m, if HotkeyOf(m) == HotkeyOf(ours) then ours else theirs);
    }
  }

  lemma ExampleSavable(d: Document)
    requires d == Document(Managed, map[HOTKEY_KEYS[0] := "", HOTKEY_KEYS[1] := "", HOTKEY_KEYS[2] := ""], map[],
                           "system", [], [], [], Rules(map[], CapabilityProbe))
    ensures Savable(ExampleFormats(), d)
  {
    hide UiForm, ProcessEntry;
    UiIsStable("");
    SystemUi();
    assert d.settings.Keys == HotkeySet();
  }

  lemma BlankPatterns(lower: string -> string)
    requires lower == ToLowerAscii
    ensures StoredPattern(lower, " x ") && !Trimmed(" x ") && StoredPattern(lower, " ") && !Trimmed(" ")
    ensures Trim(" x ") == "x" && Trim(" ") == "" && lower("x") == "x" && lower("") == ""
  {
    assert " x "[1..] == "x ";
    assert "x "[..1] == "x";
    assert " "[1..] == "";
  }

  /** A concrete file that is loaded and then cannot be saved. */
  lemma SomeFileIsRefused() returns (f: Formats, lines: seq<string>)
    ensures FormatsOk(f) && Parse(f, lines).Ok?
    ensures ToText(f, Parse(f, lines).value) == Err(TextError(None, NotReadBack))
  {
    hide FormatsOk, Parse, ToText, NestedLines, NestedRules, WellFormed, StoredPattern, Trimmed, AllTrimmed;
    var d;
    f, d := PremisesCanBeMet();
    BlankPatterns(f.lower);
    lines := NestedLines(f, d, " x ");
    LoadedButRefused(f, d, " x ");
  }

  lemma LastOne(m: map<string, Strategy>, p: string)
    requires p in m
    ensures LastTrimmed(m, [p]) == map[Trim(p) := m[p]]
  {
    hide Trim;
    var none: seq<string> := [];
    assert [p][..0] == none;
    assert LastTrimmed(m, none) == map[];
  }

  lemma NestedEntries(p: string)
    requires p != "*"
    ensures TrimmedEntries(NestedRules(p)) == map[Trim(p) := PhysicalReplay]["*" := CapabilityProbe]
  {
    hide Trim;
    var r := NestedRules(p);
    var keys := SortedKeys(r.exact.Keys);
    assert p in keys && forall k :: k in keys ==> k == p;
    assert |keys| == |r.exact.Keys| == 1;
    assert keys == [p];
    LastOne(r.exact, p);
  }

  /**
   * A draft without changes, and a configuration that is loaded from a file with the pattern ` x `: the merge
   * has no conflict, and silently puts `x` in place of it.
   */
  lemma PatternIsTrimmed() returns (f: Formats, lines: seq<string>, base: Document)
    ensures MergeFormats(f) && Savable(f, base) && Parse(f, lines) == Ok(base.(rules := NestedRules(" x ")))
    ensures Merged(f, base, base, base.(rules := NestedRules(" x ")))
         == MergedConfiguration(base.(rules := Rules(map["x" := PhysicalReplay], CapabilityProbe)), [])
  {
    hide FormatsOk, Parse, NestedLines, WellFormed, StoredPattern, Trimmed, AllTrimmed, HotkeyRows, Merged, RulesAgain;
    f, base := PremisesCanBeMet();
    BlankPatterns(f.lower);
    lines := NestedLines(f, base, " x ");
    var rules := RereadNested(f, base, " x ");
    assert OfEntries(map["x" := PhysicalReplay]["*" := CapabilityProbe]).exact == map["x" := PhysicalReplay];
  }

  /** With a pattern of blanks alone the draft's rules are kept instead, and a conflict is reported. */
  lemma BlankPatternConflicts() returns (f: Formats, lines: seq<string>, base: Document)
    ensures MergeFormats(f) && Savable(f, base) && Parse(f, lines) == Ok(base.(rules := NestedRules(" ")))
    ensures Merged(f, base, base, base.(rules := NestedRules(" "))) == MergedConfiguration(base, ["backend_rules"])
  {
    hide FormatsOk, Parse, NestedLines, WellFormed, StoredPattern, Trimmed, AllTrimmed, HotkeyRows, Merged, RulesAgain;
    f, base := PremisesCanBeMet();
    BlankPatterns(f.lower);
    lines := NestedLines(f, base, " ");
    var rules := RereadNested(f, base, " ");
  }

  /** The file with a nested pattern is loaded; its rules are merged into an unchanged draft as they are read again. */
  lemma RereadNested(f: Formats, base: Document, p: string) returns (read: Option<Rules>)
    requires MergeFormats(f) && Savable(f, base) && StoredPattern(f.lower, p) && f.lower(Trim(p)) == Trim(p)
    ensures Parse(f, NestedLines(f, base, p)) == Ok(base.(rules := NestedRules(p)))
    ensures read == if Trim(p) == "" then None
                    else Some(OfEntries(map[Trim(p) := PhysicalReplay]["*" := CapabilityProbe]))
    ensures Merged(f, base, base, base.(rules := NestedRules(p))) == WithRules(base, read, base.rules)
  {
    hide Parse, NestedLines, StoredPattern, Trimmed, AllTrimmed, HotkeyRows, Merged, RulesAgain, OfEntries, Trim,
      SettingsOk, LowerOk, EntriesOk, ProfilesOk, UiForm, ProcessEntry, Disjoint;
    var x := base.(rules := NestedRules(p));
    LoadedButRefused(f, base, p);
    UnchangedSides(f, base, x);
    NotStar(f.lower, p);
    NestedEntries(p);
    RulesAgainAre(f, x.rules);
    read := RulesAgain(f, x.rules);
  }
}
