/** What a merge of configurations guarantees (src/configuration.rs). */
module ConfigurationMergeLaws {
  import opened Wrappers
  import opened Strings
  import opened BackendRules
  import opened ConfigurationText
  import opened ConfigurationRoundTrip
  import opened ConfigurationMerge

  // ---------- rules as named values ----------

  /** All rules of a document, the catch-all among them. */
  function RuleEntries(r: Rules): map<string, Strategy>
  {
    r.exact["*" := r.fallback]
  }

  /** The same with every pattern trimmed; of patterns that become alike the last one stays. */
  function TrimmedEntries(r: Rules): map<string, Strategy>
  {
    LastTrimmed(r.exact, SortedKeys(r.exact.Keys))["*" := r.fallback]
  }

  function LastTrimmed(m: map<string, Strategy>, keys: seq<string>): map<string, Strategy>
    requires forall k :: k in keys ==> k in m
  {
    if keys == [] then map[]
    else LastTrimmed(m, keys[..|keys| - 1])[Trim(keys[|keys| - 1]) := m[keys[|keys| - 1]]]
  }

  /** A name whose row is read as a rule: neither the catch-all, nor blank, nor a comment. */
  predicate NamesRule(k: string)
  {
    k != "*" && k != "" && k[0] != '#'
  }

  function OfEntries(m: map<string, Strategy>): Rules
    requires "*" in m
  {
    Rules(map k | k in m && NamesRule(k) :: m[k], m["*"])
  }

  function IdMap(m: map<string, Strategy>): (ids: map<string, string>)
    ensures ids.Keys == m.Keys && forall k :: k in m ==> ids[k] == Id(m[k])
  {
    map k | k in m :: Id(m[k])
  }

  ghost predicate EntriesSpelled(lower: string -> string, m: map<string, Strategy>)
  {
    "*" in m && forall k :: k in m ==> Spelled(lower, k)
  }

  /** A trimmed name that is the catch-all, blank, a comment, or stored as itself. */
  ghost predicate Spelled(lower: string -> string, k: string)
  {
    Trimmed(k) && '=' !in k && (NamesRule(k) ==> StoredPattern(lower, k))
  }

  /** Stored rules whose patterns stay lowercased when their outer blanks go. */
  ghost predicate TrimsLowered(lower: string -> string, r: Rules)
  {
    RulesOk(lower, r.exact) && forall p :: p in r.exact ==> lower(Trim(p)) == Trim(p)
  }

  /** Rules without outer blanks are their own trimmed form, and the rules of their entries. */
  lemma TrimmedAlready(lower: string -> string, r: Rules)
    requires RulesOk(lower, r.exact) && AllTrimmed(r.exact)
    ensures TrimsLowered(lower, r) && TrimmedEntries(r) == RuleEntries(r)
    ensures "" !in RuleEntries(r) && OfEntries(RuleEntries(r)) == r
  {
    hide SortedKeys;
    TrimmedPicked(r.exact, SortedKeys(r.exact.Keys));
    AllPicked(r.exact);
    forall p | p in r.exact
      ensures NamesRule(p)
    {
      assert StoredPattern(lower, p);
      NotStar(lower, p);
    }
    assert OfEntries(RuleEntries(r)).exact == r.exact;
  }

  lemma {:induction false} TrimmedPicked(m: map<string, Strategy>, keys: seq<string>)
    requires forall k :: k in keys ==> k in m && Trimmed(k)
    ensures LastTrimmed(m, keys) == Picked(m, keys)
  {
    if keys != [] {
      var n := |keys| - 1;
      TrimmedPicked(m, keys[..n]);
      assert forall k :: k in keys <==> k in keys[..n] || k == keys[n];
    }
  }

  lemma {:induction false} LastTrimmedAt(m: map<string, Strategy>, keys: seq<string>, name: string)
    requires forall k :: k in keys ==> k in m
    ensures name in LastTrimmed(m, keys) <==> exists k :: k in keys && Trim(k) == name
  {
    hide Trim;
    if keys != [] {
      var n := |keys| - 1;
      LastTrimmedAt(m, keys[..n], name);
      assert forall k :: k in keys <==> k in keys[..n] || k == keys[n];
      if Trim(keys[n]) == name { assert keys[n] in keys; }
    }
  }

  lemma EntriesAreSpelled(lower: string -> string, r: Rules)
    requires TrimsLowered(lower, r)
    ensures EntriesSpelled(lower, TrimmedEntries(r))
  {
    hide SortedKeys;
    StarTrimmed();
    var keys := SortedKeys(r.exact.Keys);
    forall name | name in TrimmedEntries(r) && name != "*"
      ensures Spelled(lower, name)
    {
      LastTrimmedAt(r.exact, keys, name);
      var p :| p in keys && Trim(p) == name;
      assert StoredPattern(lower, p) && lower(Trim(p)) == Trim(p);
    }
  }

  lemma RowKeyValue(k: string, s: Strategy)
    requires '=' !in k
    ensures KeyValue(Row(k, s)) == Some((Trim(k), Id(s)))
  {
    hide SplitOnce, Id, FromId, Trim;
    FromIdOfId(s);
    assert Row(k, s) == (k + " ") + ['='] + (" " + Id(s));
    SplitOnceUnique(k + " ", " " + Id(s), '=');
    TrimTail(k);
    LowerFixed(Id(s));
    TrimPadded(Id(s));
  }

  lemma {:induction false} LastWinsOfRows(m: map<string, Strategy>, keys: seq<string>)
    requires forall k :: k in keys ==> k in m && '=' !in k
    ensures LastWins(Rows(m, keys)) == IdMap(LastTrimmed(m, keys))
  {
    hide KeyValue, Row, Trim, Id;
    if keys == [] {
      assert IdMap(LastTrimmed(m, keys)) == map[];
    } else {
      var n := |keys| - 1;
      assert Rows(m, keys)[..n] == Rows(m, keys[..n]);
      LastWinsOfRows(m, keys[..n]);
      assert keys[n] in keys;
      RowKeyValue(keys[n], m[keys[n]]);
      IdMapUpdate(LastTrimmed(m, keys[..n]), Trim(keys[n]), m[keys[n]]);
    }
  }

  /** The rows of rules are taken apart into their trimmed patterns and their strategies. */
  lemma RuleValuesOf(lower: string -> string, r: Rules)
    requires RulesOk(lower, r.exact)
    ensures RuleValues(r) == IdMap(TrimmedEntries(r))
  {
    hide Row, KeyValue, SortedKeys, Id, Rows, LastTrimmed, IdMap, Trimmed;
    var keys := SortedKeys(r.exact.Keys);
    assert forall k :: k in keys ==> StoredPattern(lower, k);
    LastWinsOfRows(r.exact, keys);
    StarTrimmed();
    RowKeyValue("*", r.fallback);
    assert (Rows(r.exact, keys) + [Row("*", r.fallback)])[..|keys|] == Rows(r.exact, keys);
    IdMapUpdate(LastTrimmed(r.exact, keys), "*", r.fallback);
  }

  lemma IdMapUpdate(m: map<string, Strategy>, k: string, s: Strategy)
    ensures IdMap(m)[k := Id(s)] == IdMap(m[k := s])
  {
    hide Id;
  }

  /** How the row of a spelled name is read: refused when blank, skipped as a comment, else as a rule. */
  lemma SpelledRow(lower: string -> string, rules: Partial, k: string, s: Strategy)
    requires LowerOk(lower) && Spelled(lower, k)
    requires if k == "*" then rules.fallback.None? else k !in rules.exact
    ensures ReadLine(lower, rules, Row(k, s))
         == if k == "" then Err(InvalidPattern) else Ok(With(rules, k, s))
  {
    hide LowerOk, ReadRow, StoredPattern;
    if k == "" {
      BlankRow(lower, s);
    } else if k[0] == '#' {
      CommentRow(lower, k, s);
    } else {
      RowReadsBack(lower, k, s);
    }
  }

  function With(rules: Partial, k: string, s: Strategy): Partial
  {
    if k == "*" then rules.(fallback := Some(s))
    else if NamesRule(k) then rules.(exact := rules.exact[k := s]) else rules
  }

  lemma BlankRow(lower: string -> string, s: Strategy)
    ensures ReadRow(lower, Row("", s)) == Err(InvalidPattern)
  {
    hide Id, FromId, Trim, SplitOnce, NormalizePattern;
    BlankLine(s);
    SplitOnceUnique("", " " + Id(s), '=');
    assert "" + ['='] + (" " + Id(s)) == "=" + (" " + Id(s));
    BlankPattern(lower);
  }

  lemma BlankLine(s: Strategy)
    ensures Trim(Row("", s)) == "=" + (" " + Id(s))
  {
    hide Id, Trim;
    LowerFixed(Id(s));
    var line := "=" + (" " + Id(s));
    assert Row("", s) == " " + line;
    assert line[|line| - 1] == Id(s)[|Id(s)| - 1];
    assert Trimmed(line);
    TrimPadded(line);
  }

  lemma BlankPattern(lower: string -> string)
    ensures NormalizePattern(lower, "").None?
  {
  }

  lemma CommentRow(lower: string -> string, k: string, s: Strategy)
    requires Trimmed(k) && k != "" && k[0] == '#'
    ensures ReadRow(lower, Row(k, s)) == Ok(None)
  {
    hide Id;
    LowerFixed(Id(s));
    var row := Row(k, s);
    assert row[0] == '#' && row[|row| - 1] == Id(s)[|Id(s)| - 1];
    assert Trim(row) == row;
  }

  function Kept(m: map<string, Strategy>, keys: seq<string>): map<string, Strategy>
    requires forall k :: k in keys ==> k in m
  {
    map k | k in keys && NamesRule(k) :: m[k]
  }

  function Upto(rules: Partial, m: map<string, Strategy>, keys: seq<string>): Partial
    requires forall k :: k in keys ==> k in m
  {
    Partial(rules.exact + Kept(m, keys), if "*" in keys then Some(m["*"]) else rules.fallback)
  }

  /** Rows of distinct spelled names are read as the rules among them, or refused when a name is blank. */
  lemma {:induction false} SpelledRowsRead(lower: string -> string, rules: Partial, m: map<string, Strategy>,
                                           keys: seq<string>, number: nat)
    requires LowerOk(lower) && Ascending(keys) && ("*" in keys ==> rules.fallback.None?)
    requires forall k :: k in keys ==> k in m && Spelled(lower, k) && k !in rules.exact
    ensures var r := ReadLines(lower, rules, Rows(m, keys), number);
      if "" in keys then r.Err? else r == Ok(Upto(rules, m, keys))
    decreases |keys|
  {
    hide LowerOk, ReadLine, Ascending, Spelled, Row, Upto, Kept, NamesRule;
    if keys == [] {
      UptoNone(rules, m);
    } else {
      var k, tail := keys[0], keys[1..];
      TailAscends(keys);
      assert k in keys;
      SpelledRow(lower, rules, k, m[k]);
      if k != "" {
        assert Rows(m, keys)[1..] == Rows(m, tail);
        SpelledRowsRead(lower, With(rules, k, m[k]), m, tail, number + 1);
        UptoMore(rules, m, keys);
      }
    }
  }

  lemma UptoNone(rules: Partial, m: map<string, Strategy>)
    ensures Upto(rules, m, []) == rules
  {
    assert Kept(m, []) == map[];
  }

  lemma UptoMore(rules: Partial, m: map<string, Strategy>, keys: seq<string>)
    requires keys != [] && keys[0] !in keys[1..] && forall k :: k in keys ==> k in m
    ensures (forall q :: q in keys[1..] ==> q in m)
    ensures Upto(With(rules, keys[0], m[keys[0]]), m, keys[1..]) == Upto(rules, m, keys)
  {
    var k, tail := keys[0], keys[1..];
    assert forall q :: q in keys <==> q == k || q in tail;
    if NamesRule(k) {
      assert rules.exact[k := m[k]] + Kept(m, tail) == rules.exact + Kept(m, keys);
    } else {
      assert Kept(m, tail) == Kept(m, keys);
    }
  }

  lemma IdTextIsRows(m: map<string, Strategy>, keys: seq<string>)
    requires forall k :: k in keys ==> k in m
    ensures RuleText(IdMap(m), keys) == Rows(m, keys)
  {
    hide Id;
  }

  /** The rules that entries are read as from their text: none when a name is blank. */
  function ReadAs(m: map<string, Strategy>): Option<Rules>
    requires "*" in m
  {
    if "" in m then None else Some(OfEntries(m))
  }

  /** Spelled entries, written as text in the order of their names, are read as the rules among them. */
  lemma ReadRuleValuesOf(f: Formats, m: map<string, Strategy>)
    requires LowerOk(f.lower) && EntriesSpelled(f.lower, m)
    ensures ReadRuleValues(f, IdMap(m)) == ReadAs(m)
  {
    hide LowerOk, Rows, RuleText, ReadLines, SortedKeys, Ascending, Spelled, NamesRule;
    var keys := SortedKeys(m.Keys);
    assert SortedKeys(IdMap(m).Keys) == keys;
    IdTextIsRows(m, keys);
    SpelledRowsRead(f.lower, Partial(map[], None), m, keys, 1);
    assert map[] + Kept(m, keys) == OfEntries(m).exact;
  }

  lemma MergeIdMap(base: map<string, Strategy>, ours: map<string, Strategy>, theirs: map<string, Strategy>)
    ensures MergeMap(IdMap(base), IdMap(ours), IdMap(theirs)) == IdMap(MergeMap(base, ours, theirs))
  {
    hide Id, MergeMap, IdMap;
    var ids, m := MergeMap(IdMap(base), IdMap(ours), IdMap(theirs)), MergeMap(base, ours, theirs);
    forall name
      ensures Get(ids, name) == Get(IdMap(m), name)
    {
      MergeMapAt(base, ours, theirs, name);
      MergeMapAt(IdMap(base), IdMap(ours), IdMap(theirs), name);
      IdsDiffer(Get(ours, name), Get(base, name));
    }
    SameMaps(ids, IdMap(m));
  }

  function IdOption(s: Option<Strategy>): Option<string>
  {
    if s.Some? then Some(Id(s.value)) else None
  }

  lemma IdsDiffer(a: Option<Strategy>, b: Option<Strategy>)
    ensures IdOption(a) == IdOption(b) <==> a == b
  {
    hide Trim, ToLowerAscii;
    if a.Some? && b.Some? && Id(a.value) == Id(b.value) {
      FromIdOfId(a.value);
      FromIdOfId(b.value);
    }
  }

  /**
   * The rules are merged trimmed pattern by trimmed pattern, and the merge is read back as those rules exactly
   * when none of its patterns is blank; a merged pattern that starts with `#` is lost as a comment.
   */
  lemma RulesMerge(f: Formats, base: Document, ours: Document, theirs: Document)
    requires LowerOk(f.lower) && TrimsLowered(f.lower, base.rules)
    requires TrimsLowered(f.lower, ours.rules) && TrimsLowered(f.lower, theirs.rules)
    ensures var m := MergeMap(TrimmedEntries(base.rules), TrimmedEntries(ours.rules), TrimmedEntries(theirs.rules));
      && EntriesSpelled(f.lower, m)
      && ReadRuleValues(f, MergedRules(base, ours, theirs)) == if "" in m then None else Some(OfEntries(m))
  {
    hide LowerOk, RuleValues, ReadRuleValues, MergeMap, Spelled, IdMap, TrimsLowered, TrimmedEntries, OfEntries;
    var b, o, t := TrimmedEntries(base.rules), TrimmedEntries(ours.rules), TrimmedEntries(theirs.rules);
    EntryRulesOf(f.lower, base.rules);
    EntryRulesOf(f.lower, ours.rules);
    EntryRulesOf(f.lower, theirs.rules);
    MergeIdMap(b, o, t);
    var m := MergeMap(b, o, t);
    forall k | k in m
      ensures Spelled(f.lower, k)
    {
      MergeMapAt(b, o, t, k);
    }
    MergeMapAt(b, o, t, "*");
    ReadRuleValuesOf(f, m);
  }

  lemma EntryRulesOf(lower: string -> string, r: Rules)
    requires TrimsLowered(lower, r)
    ensures EntriesSpelled(lower, TrimmedEntries(r)) && RuleValues(r) == IdMap(TrimmedEntries(r))
  {
    EntriesAreSpelled(lower, r);
    RuleValuesOf(lower, r);
  }

  /** Rules without outer blanks always merge to rules that are read back, pattern by pattern. */
  lemma TrimmedRulesMerge(f: Formats, base: Document, ours: Document, theirs: Document)
    requires LowerOk(f.lower) && RulesReadable(f.lower, base.rules)
    requires RulesReadable(f.lower, ours.rules) && RulesReadable(f.lower, theirs.rules)
    ensures var m := MergeMap(RuleEntries(base.rules), RuleEntries(ours.rules), RuleEntries(theirs.rules));
      && "*" in m && ReadRuleValues(f, MergedRules(base, ours, theirs)) == Some(Rules(m - {"*"}, m["*"]))
  {
    hide LowerOk, ReadRuleValues, MergeMap, TrimsLowered, TrimmedEntries, OfEntries, EntriesSpelled, AllTrimmed,
      RuleEntries;
    TrimmedAlready(f.lower, base.rules);
    TrimmedAlready(f.lower, ours.rules);
    TrimmedAlready(f.lower, theirs.rules);
    RulesMerge(f, base, ours, theirs);
    var b, o, t := RuleEntries(base.rules), RuleEntries(ours.rules), RuleEntries(theirs.rules);
    var m := MergeMap(b, o, t);
    StarEntry(m, f.lower);
    forall k | k in m
      ensures k == "*" || NamesRule(k)
    {
      MergeMapAt(b, o, t, k);
      EntriesName(f.lower, ours.rules, k);
      EntriesName(f.lower, theirs.rules, k);
    }
    AllNamed(m);
  }

  lemma StarEntry(m: map<string, Strategy>, lower: string -> string)
    requires EntriesSpelled(lower, m)
    ensures "*" in m
  {
  }

  lemma EntriesName(lower: string -> string, r: Rules, k: string)
    requires RulesOk(lower, r.exact)
    ensures k in RuleEntries(r) ==> k == "*" || NamesRule(k)
  {
    if k in r.exact { assert StoredPattern(lower, k); }
  }

  lemma AllNamed(m: map<string, Strategy>)
    requires "*" in m && forall k :: k in m ==> k == "*" || NamesRule(k)
    ensures "" !in m && OfEntries(m) == Rules(m - {"*"}, m["*"])
  {
    assert OfEntries(m).exact == m - {"*"};
  }

  ghost predicate RulesReadable(lower: string -> string, r: Rules)
  {
    RulesOk(lower, r.exact) && AllTrimmed(r.exact)
  }

  // ---------- settings as entries ----------

  /** The hotkey is written in three of the settings' rows, and no row is named like its entry. */
  ghost predicate HotkeyRows(f: Formats)
  {
    (forall k :: k in HOTKEY_KEYS ==> k in f.keys) && HOTKEY_ENTRY !in f.keys
  }

  lemma HotkeyNames()
    ensures forall k :: k in HOTKEY_KEYS <==> k in HotkeySet()
    ensures HOTKEY_KEYS[0] != HOTKEY_KEYS[1] && HOTKEY_KEYS[0] != HOTKEY_KEYS[2] && HOTKEY_KEYS[1] != HOTKEY_KEYS[2]
    ensures HOTKEY_ENTRY !in HotkeySet() && UI_LANGUAGE !in HotkeySet() && UI_LANGUAGE != HOTKEY_ENTRY
    ensures forall k :: k in HOTKEY_KEYS ==> PlainName(k)
  {
    var a, b, c := HOTKEY_KEYS[0], HOTKEY_KEYS[1], HOTKEY_KEYS[2];
    assert |a| == 16 && |b| == 16 && |c| == 22 && |HOTKEY_ENTRY| == 12 && |UI_LANGUAGE| == 11;
    assert a[0] != b[0];
    LowerFixed(a);
    LowerFixed(b);
    LowerFixed(c);
  }

  lemma RowMapMore(rows: seq<string>, row: string)
    requires RowMap(rows).Some? && KeyValue(row).Some? && KeyValue(row).value.0 !in RowMap(rows).value
    ensures RowMap(rows + [row]) == Some(RowMap(rows).value[KeyValue(row).value.0 := KeyValue(row).value.1])
  {
    hide KeyValue;
    assert (rows + [row])[..|rows|] == rows;
  }

  function WithHotkey(m: Values, hotkey: seq<string>): (r: Values)
    requires |hotkey| == 3
  {
    m[HOTKEY_KEYS[0] := hotkey[0]][HOTKEY_KEYS[1] := hotkey[1]][HOTKEY_KEYS[2] := hotkey[2]]
  }

  lemma ZippedOne(keys: seq<string>, values: seq<string>)
    requires keys != [] && values != []
    ensures Zipped(keys, values) == [keys[0] + "=" + values[0]] + Zipped(keys[1..], values[1..])
  {
  }

  lemma ZippedThree(keys: seq<string>, values: seq<string>)
    requires |keys| == 3 && |values| == 3
    ensures Zipped(keys, values) == [keys[0] + "=" + values[0], keys[1] + "=" + values[1], keys[2] + "=" + values[2]]
  {
    hide Zipped;
    ZippedOne(keys, values);
    ZippedOne(keys[1..], values[1..]);
    ZippedOne(keys[2..], values[2..]);
    assert keys[1..][1..] == keys[2..] && values[1..][1..] == values[2..];
    ZippedNone(keys[2..][1..], values[2..][1..]);
  }

  lemma ZippedNone(keys: seq<string>, values: seq<string>)
    requires keys == []
    ensures Zipped(keys, values) == []
  {
  }

  lemma HotkeyRowsMap(rows: seq<string>, hotkey: seq<string>)
    requires |hotkey| == 3 && (forall v :: v in hotkey ==> Trimmed(v)) && RowMap(rows).Some?
    requires forall k :: k in HotkeySet() ==> k !in RowMap(rows).value
    ensures RowMap(rows + Zipped(HOTKEY_KEYS, hotkey)) == Some(WithHotkey(RowMap(rows).value, hotkey))
  {
    hide RowMap, KeyValue, Trimmed, PlainName, PlainRow, Zipped, SplitOnce;
    HotkeyNames();
    var a, b, c := HOTKEY_KEYS[0], HOTKEY_KEYS[1], HOTKEY_KEYS[2];
    KeyRowSplits(a, hotkey[0]);
    KeyRowSplits(b, hotkey[1]);
    KeyRowSplits(c, hotkey[2]);
    ZippedThree(HOTKEY_KEYS, hotkey);
    var r0, r1, r2 := a + "=" + hotkey[0], b + "=" + hotkey[1], c + "=" + hotkey[2];
    RowMapMore(rows, r0);
    RowMapMore(rows + [r0], r1);
    RowMapMore(rows + [r0] + [r1], r2);
    assert rows + Zipped(HOTKEY_KEYS, hotkey) == rows + [r0] + [r1] + [r2];
  }

  /** An entry that is written as one row, or the hotkey's, which is written as three. */
  predicate EntryFits(entries: map<string, string>, k: string)
    requires k in entries
  {
    if k == HOTKEY_ENTRY then HotkeyFits(Split(entries[k], '\n'))
    else PlainName(k) && Trimmed(entries[k]) && k !in HotkeySet()
  }

  predicate HotkeyFits(hotkey: seq<string>)
  {
    |hotkey| == 3 && forall v :: v in hotkey ==> Trimmed(v)
  }

  function Plain(entries: map<string, string>, keys: seq<string>): (m: Values)
    requires forall k :: k in keys ==> k in entries
  {
    map k | k in keys && k != HOTKEY_ENTRY :: entries[k]
  }

  /** The settings that entries stand for. */
  function Spread(entries: map<string, string>, keys: seq<string>): (m: Values)
    requires forall k :: k in keys ==> k in entries && EntryFits(entries, k)
  {
    if HOTKEY_ENTRY in keys then
      assert EntryFits(entries, HOTKEY_ENTRY);
      WithHotkey(Plain(entries, keys), Split(entries[HOTKEY_ENTRY], '\n'))
    else Plain(entries, keys)
  }

  lemma {:induction false} EntryRowsMap(entries: map<string, string>, keys: seq<string>)
    requires Distinct(keys) && forall k :: k in keys ==> k in entries && EntryFits(entries, k)
    ensures RowMap(EntryRows(entries, keys)) == Some(Spread(entries, keys))
  {
    hide RowMap, KeyValue, Trimmed, PlainName, PlainRow, Zipped, SplitOnce, Spread, HotkeyFits;
    if keys == [] {
      NoRows(entries);
    } else {
      var n := |keys| - 1;
      var k := keys[n];
      var before := EntryRows(entries, keys[..n]);
      EntryRowsMap(entries, keys[..n]);
      assert k in keys && k !in keys[..n];
      SpreadMore(entries, keys);
      if k == HOTKEY_ENTRY {
        FitsAsHotkey(entries);
        HotkeyRowsMap(before, Split(entries[k], '\n'));
      } else {
        KeyRowSplits(k, entries[k]);
        RowMapMore(before, k + "=" + entries[k]);
      }
    }
  }

  lemma FitsAsHotkey(entries: map<string, string>)
    requires HOTKEY_ENTRY in entries && EntryFits(entries, HOTKEY_ENTRY)
    ensures var hotkey := Split(entries[HOTKEY_ENTRY], '\n'); |hotkey| == 3 && forall v :: v in hotkey ==> Trimmed(v)
  {
  }

  lemma NoRows(entries: map<string, string>)
    ensures RowMap(EntryRows(entries, [])) == Some(Spread(entries, []))
  {
    assert Plain(entries, []) == map[];
  }

  lemma SpreadMore(entries: map<string, string>, keys: seq<string>)
    requires keys != [] && Distinct(keys) && forall k :: k in keys ==> k in entries && EntryFits(entries, k)
    ensures var n := |keys| - 1;
      var k := keys[n];
      && (forall q :: q in keys[..n] ==> q in entries && EntryFits(entries, q))
      && var before := Spread(entries, keys[..n]);
      && (if k == HOTKEY_ENTRY then
            && (forall q :: q in HotkeySet() ==> q !in before)
            && Spread(entries, keys) == WithHotkey(before, Split(entries[k], '\n'))
          else k !in before && Spread(entries, keys) == before[k := entries[k]])
  {
    hide PlainName, Trimmed;
    var n := |keys| - 1;
    var k := keys[n];
    assert forall q :: q in keys <==> q in keys[..n] || q == k;
    assert k !in keys[..n];
    HotkeyNames();
    if k == HOTKEY_ENTRY {
      assert Plain(entries, keys) == Plain(entries, keys[..n]);
    } else {
      assert Plain(entries, keys) == Plain(entries, keys[..n])[k := entries[k]];
      if HOTKEY_ENTRY in keys {
      }
    }
  }

  // ---------- merged settings ----------

  /** Values of the settings' rows: all of them, trimmed, each on one line. */
  ghost predicate SettingsFit(f: Formats, values: Values)
  {
    SettingsOk(f) && HotkeyRows(f) && f.valid(values)
  }

  lemma EntriesFit(f: Formats, values: Values)
    requires SettingsFit(f, values)
    ensures var e := SettingsEntries(values);
      && (forall k :: k in e <==> k == HOTKEY_ENTRY || (k in f.keys && k !in HotkeySet()))
      && (forall k :: k in e ==> EntryFits(e, k))
      && Split(e[HOTKEY_ENTRY], '\n') == HotkeyOf(values)
  {
    hide PlainName, Trimmed;
    assert ValuesOk(f.keys, values);
    HotkeyNames();
    var hotkey := HotkeyOf(values);
    forall v | v in hotkey
      ensures '\n' !in v && Trimmed(v)
    {
      assert forall k :: k in HOTKEY_KEYS ==> k in values;
    }
    SplitJoin(hotkey, '\n');
  }

  /** What the text of merged settings says: each value is the merged one, the hotkey is merged as a whole. */
  ghost predicate MergesSettings(base: Values, ours: Values, theirs: Values, m: Values)
  {
    && m.Keys == ours.Keys
    && (forall k :: k in m && k !in HotkeySet() ==> Some(m[k]) == MergedName(base, ours, theirs, k))
    && HotkeyOf(m) == MergeValue(HotkeyOf(base), HotkeyOf(ours), HotkeyOf(theirs))
  }

  lemma JoinedHotkeys(f: Formats, a: Values, b: Values)
    requires SettingsFit(f, a) && SettingsFit(f, b)
    ensures SettingsEntries(a)[HOTKEY_ENTRY] == SettingsEntries(b)[HOTKEY_ENTRY] <==> HotkeyOf(a) == HotkeyOf(b)
  {
    hide SettingsFit, HotkeyOf;
    EntriesFit(f, a);
    EntriesFit(f, b);
  }

  lemma MergedEntriesFit(f: Formats, base: Document, ours: Document, theirs: Document)
    requires SettingsFit(f, base.settings) && SettingsFit(f, ours.settings) && SettingsFit(f, theirs.settings)
    ensures var e := MergedSettings(base, ours, theirs);
      && (forall k :: k in e <==> k == HOTKEY_ENTRY || (k in f.keys && k !in HotkeySet()))
      && (forall k :: k in e ==> EntryFits(e, k) && Get(e, k) == MergedName(
            SettingsEntries(base.settings), SettingsEntries(ours.settings), SettingsEntries(theirs.settings), k))
  {
    hide SettingsFit, SettingsEntries, MergeMap, HotkeyFits, PlainName, Trimmed;
    EntriesFit(f, base.settings);
    EntriesFit(f, ours.settings);
    EntriesFit(f, theirs.settings);
    var b, o, t := SettingsEntries(base.settings), SettingsEntries(ours.settings), SettingsEntries(theirs.settings);
    var e := MergedSettings(base, ours, theirs);
    forall k
      ensures k in e <==> k == HOTKEY_ENTRY || (k in f.keys && k !in HotkeySet())
      ensures k in e ==> EntryFits(e, k) && Get(e, k) == MergedName(b, o, t, k)
    {
      MergeMapAt(b, o, t, k);
    }
  }

  lemma SpreadHotkey(f: Formats, e: map<string, string>, keys: seq<string>)
    requires HotkeyRows(f) && HOTKEY_ENTRY in keys
    requires forall k :: k in keys <==> k in e
    requires forall k :: k in e <==> k == HOTKEY_ENTRY || (k in f.keys && k !in HotkeySet())
    requires forall k :: k in e ==> EntryFits(e, k)
    ensures var m := Spread(e, keys);
      && (forall k :: k in m <==> k in f.keys)
      && HotkeyOf(m) == Split(e[HOTKEY_ENTRY], '\n')
      && forall k :: k in m && k !in HotkeySet() ==> k in e && m[k] == e[k]
  {
    hide PlainName, Trimmed;
    HotkeyNames();
    FitsAsHotkey(e);
  }

  /** The rows written for merged settings give, key by key, the merged values, and one side's whole hotkey. */
  lemma SettingsMerge(f: Formats, base: Document, ours: Document, theirs: Document) returns (m: Values)
    requires SettingsFit(f, base.settings) && SettingsFit(f, ours.settings) && SettingsFit(f, theirs.settings)
    ensures RowMap(SettingsText(MergedSettings(base, ours, theirs))) == Some(m)
    ensures MergesSettings(base.settings, ours.settings, theirs.settings, m)
    ensures HotkeyOf(m) == HotkeyOf(ours.settings) || HotkeyOf(m) == HotkeyOf(theirs.settings)
    ensures forall k :: k in m <==> k in f.keys
  {
    hide MergedSettings, EntryFits, Spread, HotkeyOf, RowMap, EntryRows, SortedKeys, Ascending, SettingsEntries,
      HotkeySet;
    var e := MergedSettings(base, ours, theirs);
    var keys := SortedKeys(e.Keys);
    MergedEntriesFit(f, base, ours, theirs);
    AscendingDistinct(keys);
    EntryRowsMap(e, keys);
    m := Spread(e, keys);
    SpreadHotkey(f, e, keys);
    SameKeys(f, ours.settings, m);
    MergedHotkey(f, base, ours, theirs);
    forall k | k in m && k !in HotkeySet()
      ensures Some(m[k]) == MergedName(base.settings, ours.settings, theirs.settings, k)
    {
      PlainEntry(f, base.settings, k);
      PlainEntry(f, ours.settings, k);
      PlainEntry(f, theirs.settings, k);
    }
  }

  lemma SameKeys(f: Formats, values: Values, m: Values)
    requires SettingsFit(f, values) && forall k :: k in m <==> k in f.keys
    ensures m.Keys == values.Keys
  {
    assert ValuesOk(f.keys, values);
  }

  lemma PlainEntry(f: Formats, values: Values, k: string)
    requires SettingsFit(f, values) && k in f.keys && k !in HotkeySet()
    ensures Get(SettingsEntries(values), k) == Get(values, k)
  {
    assert ValuesOk(f.keys, values);
  }

  lemma MergedHotkey(f: Formats, base: Document, ours: Document, theirs: Document)
    requires SettingsFit(f, base.settings) && SettingsFit(f, ours.settings) && SettingsFit(f, theirs.settings)
    ensures var e := MergedSettings(base, ours, theirs);
      HOTKEY_ENTRY in e && Split(e[HOTKEY_ENTRY], '\n')
        == MergeValue(HotkeyOf(base.settings), HotkeyOf(ours.settings), HotkeyOf(theirs.settings))
  {
    hide SettingsFit, SettingsEntries, MergedSettings, HotkeyOf, EntryFits;
    EntriesFit(f, base.settings);
    EntriesFit(f, ours.settings);
    EntriesFit(f, theirs.settings);
    MergedEntriesFit(f, base, ours, theirs);
    JoinedHotkeys(f, ours.settings, base.settings);
  }
}
