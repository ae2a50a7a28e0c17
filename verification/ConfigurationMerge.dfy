/** Merging an edited configuration into one that changed meanwhile (src/configuration.rs). */
module ConfigurationMerge {
  import opened Wrappers
  import opened Strings
  import opened BackendRules
  import opened ConfigurationText
  import opened ConfigurationRoundTrip

  // ---------- one value ----------

  /** `merge_value`: the draft's change wins, otherwise the configuration's value is taken. */
  function MergeValue<T(==)>(base: T, ours: T, theirs: T): (value: T)
    ensures value == ours || value == theirs
  {
    if ours == base then theirs else ours
  }

  /** Whether both sides changed the value, differently. */
  predicate Clash<T(==)>(base: T, ours: T, theirs: T)
  {
    ours != base && theirs != base && theirs != ours
  }

  // ---------- named values ----------

  function Get<V>(m: map<string, V>, name: string): Option<V>
  {
    if name in m then Some(m[name]) else None
  }

  function Names<V>(base: map<string, V>, ours: map<string, V>, theirs: map<string, V>): set<string>
  {
    base.Keys + ours.Keys + theirs.Keys
  }

  function MergedName<V(==)>(
    base: map<string, V>, ours: map<string, V>, theirs: map<string, V>, name: string): Option<V>
  {
    MergeValue(Get(base, name), Get(ours, name), Get(theirs, name))
  }

  predicate NameClash<V(==)>(base: map<string, V>, ours: map<string, V>, theirs: map<string, V>, name: string)
  {
    Clash(Get(base, name), Get(ours, name), Get(theirs, name))
  }

  function MergeMap<V(==)>(base: map<string, V>, ours: map<string, V>, theirs: map<string, V>): (m: map<string, V>)
  {
    map name | name in Names(base, ours, theirs) && MergedName(base, ours, theirs, name).Some?
      :: MergedName(base, ours, theirs, name).value
  }

  /** The names both sides changed differently, in order. */
  function Clashes<V(==)>(base: map<string, V>, ours: map<string, V>, theirs: map<string, V>, names: seq<string>)
    : (conflicts: seq<string>)
    ensures forall n :: n in conflicts <==> n in names && NameClash(base, ours, theirs, n)
  {
    if names == [] then []
    else
      var last := names[|names| - 1];
      Clashes(base, ours, theirs, names[..|names| - 1]) + if NameClash(base, ours, theirs, last) then [last] else []
  }

  function MapConflicts<V(==)>(
    base: map<string, V>, ours: map<string, V>, theirs: map<string, V>): (conflicts: seq<string>)
    ensures forall n :: n in conflicts <==> NameClash(base, ours, theirs, n)
  {
    assert forall n :: n !in Names(base, ours, theirs) ==> !NameClash(base, ours, theirs, n);
    Clashes(base, ours, theirs, SortedKeys(Names(base, ours, theirs)))
  }

  /** What the first names have been merged to. */
  function MergedPart<V(==)>(base: map<string, V>, ours: map<string, V>, theirs: map<string, V>, names: seq<string>)
    : (m: map<string, V>)
    ensures forall n :: n in m <==> n in names && MergedName(base, ours, theirs, n).Some?
    ensures forall n :: n in m ==> Some(m[n]) == MergedName(base, ours, theirs, n)
  {
    if names == [] then map[]
    else
      var last := names[|names| - 1];
      var part := MergedPart(base, ours, theirs, names[..|names| - 1]);
      var value := MergedName(base, ours, theirs, last);
      assert forall n :: n in names <==> n in names[..|names| - 1] || n == last;
      if value.Some? then part[last := value.value] else part
  }

  /** `merge_map`: the loop over all names, filling the merged map and the conflicts. */
  method MergeMaps(base: map<string, string>, ours: map<string, string>, theirs: map<string, string>, had: seq<string>)
    returns (merged: map<string, string>, conflicts: seq<string>)
    ensures merged == MergeMap(base, ours, theirs)
    ensures conflicts == had + MapConflicts(base, ours, theirs)
  {
    hide SortedKeys, Names, Get, MergedPart, MergeMap, Clashes;
    NothingMerged(base, ours, theirs);
    var names := SortedKeys(Names(base, ours, theirs));
    merged, conflicts := map[], had;
    var i := 0;
    while i < |names|
      invariant 0 <= i <= |names|
      invariant merged == MergedPart(base, ours, theirs, names[..i])
      invariant conflicts == had + Clashes(base, ours, theirs, names[..i])
    {
      var name := names[i];
      var b, o, t := Get(base, name), Get(ours, name), Get(theirs, name);
      NextMerged(base, ours, theirs, names, i);
      var value: Option<string>;
      if o == b {
        value := t;
      } else {
        if t != b && t != o { conflicts := conflicts + [name]; }
        value := o;
      }
      if value.Some? { merged := merged[name := value.value]; }
      i := i + 1;
    }
    assert names[..i] == names;
    AllNamesMerged(base, ours, theirs);
  }

  lemma NothingMerged(base: map<string, string>, ours: map<string, string>, theirs: map<string, string>)
    ensures MergedPart(base, ours, theirs, []) == map[] && Clashes(base, ours, theirs, []) == []
  {
  }

  lemma NextMerged<V>(base: map<string, V>, ours: map<string, V>, theirs: map<string, V>, names: seq<string>, i: nat)
    requires i < |names|
    ensures var value := MergeValue(Get(base, names[i]), Get(ours, names[i]), Get(theirs, names[i]));
      var part := MergedPart(base, ours, theirs, names[..i]);
      MergedPart(base, ours, theirs, names[..i + 1]) == if value.Some? then part[names[i] := value.value] else part
    ensures Clashes(base, ours, theirs, names[..i + 1])
      == Clashes(base, ours, theirs, names[..i]) + if NameClash(base, ours, theirs, names[i]) then [names[i]] else []
  {
    hide MergeValue, Get, NameClash;
    assert names[..i + 1][..i] == names[..i];
  }

  lemma PartAt<V>(base: map<string, V>, ours: map<string, V>, theirs: map<string, V>, name: string)
    ensures Get(MergedPart(base, ours, theirs, SortedKeys(Names(base, ours, theirs))), name)
         == MergedName(base, ours, theirs, name)
  {
    hide MergedPart, SortedKeys, MergedName;
    if name !in Names(base, ours, theirs) { NoSuchName(base, ours, theirs, name); }
  }

  lemma NoSuchName<V>(base: map<string, V>, ours: map<string, V>, theirs: map<string, V>, name: string)
    requires name !in Names(base, ours, theirs)
    ensures MergedName(base, ours, theirs, name).None?
  {
  }

  lemma AllNamesMerged<V>(base: map<string, V>, ours: map<string, V>, theirs: map<string, V>)
    ensures MergedPart(base, ours, theirs, SortedKeys(Names(base, ours, theirs))) == MergeMap(base, ours, theirs)
  {
    hide MergedPart, SortedKeys, MergedName, MergeMap, Names, Get;
    var part, m := MergedPart(base, ours, theirs, SortedKeys(Names(base, ours, theirs))), MergeMap(base, ours, theirs);
    forall name
      ensures Get(part, name) == Get(m, name)
    {
      PartAt(base, ours, theirs, name);
      MergeMapAt(base, ours, theirs, name);
    }
    SameMaps(part, m);
  }

  /** Every name takes its merged value, and no other name appears. */
  lemma MergeMapAt<V>(base: map<string, V>, ours: map<string, V>, theirs: map<string, V>, name: string)
    ensures Get(MergeMap(base, ours, theirs), name) == MergedName(base, ours, theirs, name)
  {
  }

  lemma SameMaps<V>(a: map<string, V>, b: map<string, V>)
    requires forall name :: Get(a, name) == Get(b, name)
    ensures a == b
  {
    forall name
      ensures name in a <==> name in b
      ensures name in a ==> a[name] == b[name]
    {
      assert Get(a, name) == Get(b, name);
    }
  }

  lemma NoClashes<V>(base: map<string, V>, ours: map<string, V>, theirs: map<string, V>)
    requires forall name :: !NameClash(base, ours, theirs, name)
    ensures MapConflicts(base, ours, theirs) == []
  {
    NoneClash(base, ours, theirs, SortedKeys(Names(base, ours, theirs)));
  }

  lemma {:induction false} NoneClash<V>(base: map<string, V>, ours: map<string, V>, theirs: map<string, V>,
      names: seq<string>)
    requires forall name :: !NameClash(base, ours, theirs, name)
    ensures Clashes(base, ours, theirs, names) == []
  {
    if names != [] { NoneClash(base, ours, theirs, names[..|names| - 1]); }
  }

  /** A side that changed nothing, or both changing the same, leaves no conflict and no doubt. */
  lemma MergeMapLaws<V>(base: map<string, V>, x: map<string, V>)
    ensures MergeMap(base, base, x) == x && MergeMap(base, x, base) == x && MergeMap(base, x, x) == x
    ensures MapConflicts(base, base, x) == [] && MapConflicts(base, x, base) == [] && MapConflicts(base, x, x) == []
  {
    forall name
      ensures Get(MergeMap(base, base, x), name) == Get(x, name)
      ensures Get(MergeMap(base, x, base), name) == Get(x, name)
      ensures Get(MergeMap(base, x, x), name) == Get(x, name)
    {
      MergeMapAt(base, base, x, name);
      MergeMapAt(base, x, base, name);
      MergeMapAt(base, x, x, name);
    }
    SameMaps(MergeMap(base, base, x), x);
    SameMaps(MergeMap(base, x, base), x);
    SameMaps(MergeMap(base, x, x), x);
    NoClashes(base, base, x);
    NoClashes(base, x, base);
    NoClashes(base, x, x);
  }

  /** Without conflicts the merge does not depend on which side is the draft. */
  lemma MergeMapSymmetric<V>(base: map<string, V>, ours: map<string, V>, theirs: map<string, V>)
    requires MapConflicts(base, ours, theirs) == []
    ensures MergeMap(base, ours, theirs) == MergeMap(base, theirs, ours)
    ensures MapConflicts(base, theirs, ours) == []
  {
    forall name
      ensures Get(MergeMap(base, ours, theirs), name) == Get(MergeMap(base, theirs, ours), name)
      ensures !NameClash(base, theirs, ours, name)
    {
      assert name !in MapConflicts(base, ours, theirs);
      MergeMapAt(base, ours, theirs, name);
      MergeMapAt(base, theirs, ours, name);
    }
    SameMaps(MergeMap(base, ours, theirs), MergeMap(base, theirs, ours));
    NoClashes(base, theirs, ours);
  }

  /** A name conflicts iff both sides changed it differently, and then it keeps the draft's value. */
  lemma ConflictKeepsDraft<V>(base: map<string, V>, ours: map<string, V>, theirs: map<string, V>, name: string)
    ensures name in MapConflicts(base, ours, theirs) <==>
      Get(ours, name) != Get(base, name) && Get(theirs, name) != Get(base, name) && Get(ours, name) != Get(theirs, name)
    ensures name in MapConflicts(base, ours, theirs) ==> Get(MergeMap(base, ours, theirs), name) == Get(ours, name)
    ensures name !in MapConflicts(base, ours, theirs) && Get(ours, name) == Get(base, name) ==>
      Get(MergeMap(base, ours, theirs), name) == Get(theirs, name)
  {
    MergeMapAt(base, ours, theirs, name);
  }

  // ---------- lists ----------

  /** `merge_entries`: kept by the draft and kept or added, or added by the configuration. */
  function MergeEntries(base: seq<string>, ours: seq<string>, theirs: seq<string>): (merged: seq<string>)
  {
    var kept := set e | e in ours && (e in theirs || e !in base);
    var added := set e | e in theirs && e !in base;
    SortedKeys(kept + added)
  }

  function Votes(base: seq<string>, ours: seq<string>, theirs: seq<string>, e: string): nat
  {
    (if e in ours then 1 else 0) + (if e in theirs then 1 else 0) + if e !in base then 1 else 0
  }

  /** An entry survives iff two of "in the draft", "in the configuration", "not in the base" hold. */
  lemma EntrySurvives(base: seq<string>, ours: seq<string>, theirs: seq<string>, e: string)
    ensures Ascending(MergeEntries(base, ours, theirs))
    ensures e in MergeEntries(base, ours, theirs) <==> Votes(base, ours, theirs, e) >= 2
  {
  }

  lemma MergeEntriesLaws(base: seq<string>, x: seq<string>)
    requires Ascending(x)
    ensures MergeEntries(base, base, x) == x && MergeEntries(base, x, base) == x && MergeEntries(base, x, x) == x
  {
    forall e
      ensures e in MergeEntries(base, base, x) <==> e in x
      ensures e in MergeEntries(base, x, base) <==> e in x
      ensures e in MergeEntries(base, x, x) <==> e in x
    {
      EntrySurvives(base, base, x, e);
      EntrySurvives(base, x, base, e);
      EntrySurvives(base, x, x, e);
    }
    AscendingUnique(MergeEntries(base, base, x), x);
    AscendingUnique(MergeEntries(base, x, base), x);
    AscendingUnique(MergeEntries(base, x, x), x);
  }

  lemma MergeEntriesSymmetric(base: seq<string>, ours: seq<string>, theirs: seq<string>)
    ensures MergeEntries(base, ours, theirs) == MergeEntries(base, theirs, ours)
  {
    forall e
      ensures e in MergeEntries(base, ours, theirs) <==> e in MergeEntries(base, theirs, ours)
    {
      EntrySurvives(base, ours, theirs, e);
      EntrySurvives(base, theirs, ours, e);
    }
    AscendingUnique(MergeEntries(base, ours, theirs), MergeEntries(base, theirs, ours));
  }

  // ---------- an entry in both lists ----------

  function Without(xs: seq<string>, gone: seq<string>): (r: seq<string>)
    ensures forall e :: e in r <==> e in xs && e !in gone
  {
    if xs == [] then []
    else
      var n := |xs| - 1;
      Without(xs[..n], gone) + if xs[n] in gone then [] else [xs[n]]
  }

  lemma {:induction false} WithoutAscends(xs: seq<string>, gone: seq<string>)
    requires Ascending(xs)
    ensures Ascending(Without(xs, gone))
  {
    if xs != [] {
      var n := |xs| - 1;
      WithoutAscends(xs[..n], gone);
      var part := Without(xs[..n], gone);
      forall i | 0 <= i < |part|
        ensures Below(part[i], xs[n])
      {
        assert part[i] in part;
        var k :| 0 <= k < n && xs[k] == part[i];
      }
    }
  }

  function Shared(dictionary: seq<string>, exclusions: seq<string>): (both: seq<string>)
    ensures forall e :: e in both <==> e in exclusions && e in dictionary
  {
    if exclusions == [] then []
    else
      var n := |exclusions| - 1;
      Shared(dictionary, exclusions[..n]) + if exclusions[n] in dictionary then [exclusions[n]] else []
  }

  /** The entries of `both` that are in the draft's exclusions, or those that are not. */
  function Placed(both: seq<string>, draft: seq<string>, excluded: bool): (r: seq<string>)
    ensures forall e :: e in r <==> e in both && (e in draft <==> excluded)
  {
    if both == [] then []
    else
      var last := both[|both| - 1];
      Placed(both[..|both| - 1], draft, excluded) + if (last in draft) == excluded then [last] else []
  }

  lemma WithoutLast(xs: seq<string>, x: string, gone: seq<string>)
    ensures Without(xs + [x], gone) == if x in gone then Without(xs, gone) else Without(xs, gone) + [x]
  {
    assert (xs + [x])[..|xs|] == xs;
  }

  lemma {:induction false} WithoutMore(xs: seq<string>, gone: seq<string>, e: string)
    ensures Without(Without(xs, gone), [e]) == Without(xs, gone + [e])
    decreases |xs|, 0
  {
    if xs == [] {
    } else {
      hide Without;
      var n := |xs| - 1;
      assert xs == xs[..n] + [xs[n]];
      WithoutMoreLast(xs[..n], xs[n], gone, e);
    }
  }

  lemma WithoutMoreLast(xs: seq<string>, x: string, gone: seq<string>, e: string)
    ensures Without(Without(xs + [x], gone), [e]) == Without(xs + [x], gone + [e])
    decreases |xs|, 1
  {
    hide Without;
    WithoutMore(xs, gone, e);
    WithoutLast(xs, x, gone);
    WithoutLast(xs, x, gone + [e]);
    if x !in gone {
      WithoutLast(Without(xs, gone), x, [e]);
    }
  }

  lemma {:induction false} WithoutNone(xs: seq<string>)
    ensures Without(xs, []) == xs
  {
    if xs != [] {
      var n := |xs| - 1;
      WithoutNone(xs[..n]);
      assert xs == xs[..n] + [xs[n]];
    }
  }

  /** An entry in both lists stays where the draft put it. */
  function RepairedDictionary(
    dictionary: seq<string>, exclusions: seq<string>, draftExclusions: seq<string>): seq<string>
  {
    Without(dictionary, Placed(Shared(dictionary, exclusions), draftExclusions, true))
  }

  function RepairedExclusions(
    dictionary: seq<string>, exclusions: seq<string>, draftExclusions: seq<string>): seq<string>
  {
    Without(exclusions, Placed(Shared(dictionary, exclusions), draftExclusions, false))
  }

  lemma NonePlaced(draft: seq<string>)
    ensures Placed([], draft, true) == [] && Placed([], draft, false) == []
  {
  }

  lemma PlacedNext(both: seq<string>, i: nat, draft: seq<string>)
    requires i < |both|
    ensures Placed(both[..i + 1], draft, true)
         == if both[i] in draft then Placed(both[..i], draft, true) + [both[i]] else Placed(both[..i], draft, true)
    ensures Placed(both[..i + 1], draft, false)
         == if both[i] in draft then Placed(both[..i], draft, false) else Placed(both[..i], draft, false) + [both[i]]
  {
    assert both[..i + 1][..i] == both[..i];
  }

  /** The repair at the end of `merge`: each shared entry is removed from one of the lists. */
  method Repair(dictionary: seq<string>, exclusions: seq<string>, draftExclusions: seq<string>)
    returns (words: seq<string>, excluded: seq<string>)
    ensures words == RepairedDictionary(dictionary, exclusions, draftExclusions)
    ensures excluded == RepairedExclusions(dictionary, exclusions, draftExclusions)
  {
    hide Without, Placed, Shared;
    var both := Shared(dictionary, exclusions);
    words, excluded := dictionary, exclusions;
    NonePlaced(draftExclusions);
    WithoutNone(dictionary);
    WithoutNone(exclusions);
    var i := 0;
    while i < |both|
      invariant 0 <= i <= |both|
      invariant words == Without(dictionary, Placed(both[..i], draftExclusions, true))
      invariant excluded == Without(exclusions, Placed(both[..i], draftExclusions, false))
    {
      PlacedNext(both, i, draftExclusions);
      if both[i] in draftExclusions {
        words := Without(words, [both[i]]);
        WithoutMore(dictionary, Placed(both[..i], draftExclusions, true), both[i]);
      } else {
        excluded := Without(excluded, [both[i]]);
        WithoutMore(exclusions, Placed(both[..i], draftExclusions, false), both[i]);
      }
      i := i + 1;
    }
    assert both[..i] == both;
  }

  /** After the repair no entry is in both lists, and only entries of both lists were moved. */
  lemma RepairSeparates(dictionary: seq<string>, exclusions: seq<string>, draftExclusions: seq<string>, e: string)
    ensures var words := RepairedDictionary(dictionary, exclusions, draftExclusions);
      var excluded := RepairedExclusions(dictionary, exclusions, draftExclusions);
      && !(e in words && e in excluded)
      && (e in words <==> e in dictionary && !(e in exclusions && e in draftExclusions))
      && (e in excluded <==> e in exclusions && !(e in dictionary && e !in draftExclusions))
  {
  }

  /**
   * An entry can only end up in both lists when the draft has it in one of them, the configuration
   * has it in the other, and the base had it in neither.
   */
  lemma DoublyPlaced(base: Document, ours: Document, theirs: Document, e: string)
    requires Disjoint(ours.dictionary, ours.exclusions) && Disjoint(theirs.dictionary, theirs.exclusions)
    requires e in MergeEntries(base.dictionary, ours.dictionary, theirs.dictionary)
    requires e in MergeEntries(base.exclusions, ours.exclusions, theirs.exclusions)
    ensures e !in base.dictionary && e !in base.exclusions
    ensures e in ours.dictionary <==> e !in ours.exclusions
    ensures e in theirs.dictionary <==> e in ours.exclusions
    ensures e in theirs.exclusions <==> e in ours.dictionary
  {
    EntrySurvives(base.dictionary, ours.dictionary, theirs.dictionary, e);
    EntrySurvives(base.exclusions, ours.exclusions, theirs.exclusions, e);
  }

  // ---------- the hotkey is one entry ----------

  const HOTKEY_KEYS: seq<string> := ["pause_break_undo", "force_hotkey_key", "force_hotkey_modifiers"]
  const HOTKEY_ENTRY := "force_hotkey"

  function OrEmpty(m: Values, key: string): string
  {
    if key in m then m[key] else ""
  }

  function HotkeyOf(values: Values): seq<string>
  {
    [OrEmpty(values, HOTKEY_KEYS[0]), OrEmpty(values, HOTKEY_KEYS[1]), OrEmpty(values, HOTKEY_KEYS[2])]
  }

  function HotkeySet(): set<string> { {HOTKEY_KEYS[0], HOTKEY_KEYS[1], HOTKEY_KEYS[2]} }

  /** `settings_values`: the rows' values, with those of the hotkey joined to one entry. */
  function SettingsEntries(values: Values): map<string, string>
  {
    (values - HotkeySet())[HOTKEY_ENTRY := Join(HotkeyOf(values), '\n')]
  }

  function Zipped(keys: seq<string>, values: seq<string>): (rows: seq<string>)
  {
    if keys == [] || values == [] then [] else [keys[0] + "=" + values[0]] + Zipped(keys[1..], values[1..])
  }

  /** `settings_text`: one row for each entry, the hotkey back in its three rows. */
  function EntryRows(entries: map<string, string>, keys: seq<string>): (rows: seq<string>)
    requires forall k :: k in keys ==> k in entries
  {
    if keys == [] then []
    else
      var k := keys[|keys| - 1];
      EntryRows(entries, keys[..|keys| - 1])
      + if k == HOTKEY_ENTRY then Zipped(HOTKEY_KEYS, Split(entries[k], '\n')) else [k + "=" + entries[k]]
  }

  function SettingsText(entries: map<string, string>): seq<string>
  {
    EntryRows(entries, SortedKeys(entries.Keys))
  }

  // ---------- rules ----------

  /** The values that rows give when a later row wins; rows without `=` are left out. */
  function LastWins(rows: seq<string>): (m: map<string, string>)
  {
    if rows == [] then map[]
    else
      var m := LastWins(rows[..|rows| - 1]);
      match KeyValue(rows[|rows| - 1])
      case None => m
      case Some((k, v)) => m[k := v]
  }

  /** `rule_values`. */
  function RuleValues(r: Rules): map<string, string>
  {
    LastWins(ToLines(r))
  }

  function RuleText(m: map<string, string>, keys: seq<string>): (rows: seq<string>)
    requires forall k :: k in keys ==> k in m
    ensures |rows| == |keys| && forall i :: 0 <= i < |keys| ==> rows[i] == keys[i] + " = " + m[keys[i]]
  {
    seq(|keys|, i requires 0 <= i < |keys| => keys[i] + " = " + m[keys[i]])
  }

  // ---------- the whole merge ----------

  datatype MergedConfiguration = MergedConfiguration(document: Document, conflicts: seq<string>)

  const LISTS := "user_dictionary, word_exclusions"

  function Note(conflict: bool, name: string): seq<string>
  {
    if conflict then [name] else []
  }

  function MergedSettings(base: Document, ours: Document, theirs: Document): map<string, string>
  {
    MergeMap(SettingsEntries(base.settings), SettingsEntries(ours.settings), SettingsEntries(theirs.settings))
  }

  function MergedRules(base: Document, ours: Document, theirs: Document): map<string, string>
  {
    MergeMap(RuleValues(base.rules), RuleValues(ours.rules), RuleValues(theirs.rules))
  }

  function MergedProfiles(base: Document, ours: Document, theirs: Document): map<string, string>
  {
    MergeMap(base.profiles, ours.profiles, theirs.profiles)
  }

  function ReadSettingsEntries(f: Formats, entries: map<string, string>): Option<Values>
  {
    match f.read(SettingsText(entries))
    case Ok(s) => Some(s)
    case Err(_) => None
  }

  function ReadMergedProfiles(f: Formats, base: Document, ours: Document, theirs: Document): Option<map<string, string>>
  {
    var m := MergedProfiles(base, ours, theirs);
    ParseProfiles(f, Pairs(m, SortedKeys(m.Keys)))
  }

  function ReadRuleValues(f: Formats, m: map<string, string>): Option<Rules>
  {
    match Parsed(f.lower, RuleText(m, SortedKeys(m.Keys)))
    case Ok(r) => Some(r)
    case Err(_) => None
  }

  /** `parsed_or_ours`. */
  function ParsedOr<T>(parsed: Option<T>, ours: T): T
  {
    if parsed.Some? then parsed.value else ours
  }

  function MergedDictionary(base: Document, ours: Document, theirs: Document): seq<string>
  {
    MergeEntries(base.dictionary, ours.dictionary, theirs.dictionary)
  }

  function MergedExclusions(base: Document, ours: Document, theirs: Document): seq<string>
  {
    MergeEntries(base.exclusions, ours.exclusions, theirs.exclusions)
  }

  function MergedDocument(f: Formats, base: Document, ours: Document, theirs: Document): Document
  {
    var words, excluded := MergedDictionary(base, ours, theirs), MergedExclusions(base, ours, theirs);
    Document(
      MergeValue(base.mode, ours.mode, theirs.mode),
      ParsedOr(ReadSettingsEntries(f, MergedSettings(base, ours, theirs)), ours.settings),
      ParsedOr(ReadMergedProfiles(f, base, ours, theirs), ours.profiles),
      MergeValue(base.uiLanguage, ours.uiLanguage, theirs.uiLanguage),
      RepairedDictionary(words, excluded, ours.exclusions),
      RepairedExclusions(words, excluded, ours.exclusions),
      MergeEntries(base.processes, ours.processes, theirs.processes),
      ParsedOr(ReadRuleValues(f, MergedRules(base, ours, theirs)), ours.rules))
  }

  function SettingConflicts(base: Document, ours: Document, theirs: Document): seq<string>
  {
    MapConflicts(SettingsEntries(base.settings), SettingsEntries(ours.settings), SettingsEntries(theirs.settings))
  }

  function ProfileConflicts(base: Document, ours: Document, theirs: Document): seq<string>
  {
    MapConflicts(base.profiles, ours.profiles, theirs.profiles)
  }

  function RuleConflicts(base: Document, ours: Document, theirs: Document): seq<string>
  {
    MapConflicts(RuleValues(base.rules), RuleValues(ours.rules), RuleValues(theirs.rules))
  }

  function ListConflict(base: Document, ours: Document, theirs: Document): bool
  {
    Shared(MergedDictionary(base, ours, theirs), MergedExclusions(base, ours, theirs)) != []
  }

  function Conflicts(f: Formats, base: Document, ours: Document, theirs: Document): seq<string>
  {
    Note(Clash(base.mode, ours.mode, theirs.mode), "mode")
    + Note(Clash(base.uiLanguage, ours.uiLanguage, theirs.uiLanguage), "ui_language")
    + SettingConflicts(base, ours, theirs)
    + ProfileConflicts(base, ours, theirs)
    + RuleConflicts(base, ours, theirs)
    + Note(ReadSettingsEntries(f, MergedSettings(base, ours, theirs)).None?, "settings")
    + Note(ReadMergedProfiles(f, base, ours, theirs).None?, "input_profiles")
    + Note(ReadRuleValues(f, MergedRules(base, ours, theirs)).None?, "backend_rules")
    + Note(ListConflict(base, ours, theirs), LISTS)
  }

  function Merged(f: Formats, base: Document, ours: Document, theirs: Document): MergedConfiguration
  {
    MergedConfiguration(MergedDocument(f, base, ours, theirs), Conflicts(f, base, ours, theirs))
  }

  /** `merge`: value by value, name by name and entry by entry, the conflicts noted in this order. */
  method Merge(f: Formats, base: Document, ours: Document, theirs: Document) returns (r: MergedConfiguration)
    ensures r == Merged(f, base, ours, theirs)
  {
    hide MapConflicts, MergeMap, SettingsEntries, RuleValues, MergeEntries, SortedKeys, ParseProfiles, Pairs,
      RepairedDictionary, RepairedExclusions, Shared, MergeValue, Clash, Note, ParsedOr, ReadSettingsEntries,
      ReadRuleValues;
    var conflicts := Note(Clash(base.mode, ours.mode, theirs.mode), "mode");
    var mode := MergeValue(base.mode, ours.mode, theirs.mode);
    conflicts := conflicts + Note(Clash(base.uiLanguage, ours.uiLanguage, theirs.uiLanguage), "ui_language");
    var ui := MergeValue(base.uiLanguage, ours.uiLanguage, theirs.uiLanguage);
    var settingValues, profileValues, ruleValues;
    settingValues, conflicts := MergeMaps(SettingsEntries(base.settings), SettingsEntries(ours.settings),
                                          SettingsEntries(theirs.settings), conflicts);
    profileValues, conflicts := MergeMaps(base.profiles, ours.profiles, theirs.profiles, conflicts);
    ruleValues, conflicts := MergeMaps(RuleValues(base.rules), RuleValues(ours.rules), RuleValues(theirs.rules),
      conflicts);
    var settings := ReadSettingsEntries(f, settingValues);
    conflicts := conflicts + Note(settings.None?, "settings");
    var profiles := ParseProfiles(f, Pairs(profileValues, SortedKeys(profileValues.Keys)));
    conflicts := conflicts + Note(profiles.None?, "input_profiles");
    var rules := ReadRuleValues(f, ruleValues);
    conflicts := conflicts + Note(rules.None?, "backend_rules");
    var words := MergeEntries(base.dictionary, ours.dictionary, theirs.dictionary);
    var excluded := MergeEntries(base.exclusions, ours.exclusions, theirs.exclusions);
    var processes := MergeEntries(base.processes, ours.processes, theirs.processes);
    conflicts := conflicts + Note(Shared(words, excluded) != [], LISTS);
    words, excluded := Repair(words, excluded, ours.exclusions);
    r := MergedConfiguration(
      Document(mode, ParsedOr(settings, ours.settings), ParsedOr(profiles, ours.profiles), ui, words, excluded,
               processes, ParsedOr(rules, ours.rules)),
      conflicts);
  }
}
