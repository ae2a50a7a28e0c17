/** The decision whether a typed word was meant for another layout (src/detector.rs). */
module Detector {
  import opened Wrappers
  import opened Strings
  import opened InputBindings

  const MINIMUM_STATISTICAL_CHARACTERS: nat := 4
  const MINIMUM_BASE_LIST_CHARACTERS: nat := 3
  const DICTIONARY_SCORE_BONUS: real := 10.0

  datatype Config = Config(
    minimumWordCharacters: nat,
    minimumTargetScore: real,
    minimumScoreMargin: real,
    singleLetterWords: bool)

  /** What the dictionaries, the scoring models and the keyboard tables say; scores are any order. */
  datatype Knowledge = Knowledge(
    active: Language -> bool,
    accepts: (Language, string) -> bool,
    baseList: (Language, string) -> bool,
    shortList: (Language, string) -> bool,
    userWord: (Language, string) -> bool,
    excluded: (Language, string) -> bool,
    statisticalTarget: Language -> bool,
    letterCore: (Language, string) -> string,
    score: (Language, string) -> real,
    transpose: (Language, Language, string) -> Option<string>)
  {
    predicate InDictionary(l: Language, word: string)
    {
      baseList(l, word) || shortList(l, word) || userWord(l, word)
    }

    predicate KnowsCore(l: Language, core: string)
    {
      if |core| < MINIMUM_BASE_LIST_CHARACTERS then shortList(l, core) || userWord(l, core) else InDictionary(l, core)
    }
  }

  type Candidate = (Language, string)

  datatype Detection = Detection(
    source: Language, target: Language, original: string, replacement: string, sourceScore: real, targetScore: real)

  /** A typed word in its situation: the detector, the typed layout and the adapter's readings. */
  datatype Situation = Situation(
    config: Config, snapshot: Snapshot, know: Knowledge, word: string, current: Language, candidates: seq<Candidate>)

  // ---------- candidate readings ----------

  /** The first reading the adapter supplied for `l`. */
  function FirstFor(cs: seq<Candidate>, l: Language): (r: Option<string>)
    ensures r.Some? ==> (l, r.value) in cs
    ensures r.None? <==> forall c :: c in cs ==> c.0 != l
  {
    if |cs| == 0 then None
    else if cs[0].0 == l then Some(cs[0].1)
    else FirstFor(cs[1..], l)
  }

  /** The reading of the word in target `l`: the adapter's, else the same keys transposed. */
  function Reading(t: Situation, l: Language): Option<string>
  {
    if l !in AutomaticTargets(t.snapshot, t.current) then None
    else
      match FirstFor(t.candidates, l)
      case Some(r) => Some(r)
      case None => t.know.transpose(t.current, l, t.word)
  }

  ghost predicate DistinctLanguages(cs: seq<Candidate>)
  {
    forall i, j :: 0 <= i < j < |cs| ==> cs[i].0 != cs[j].0
  }

  predicate HasLanguage(cs: seq<Candidate>, l: Language)
  {
    exists c :: c in cs && c.0 == l
  }

  lemma FirstForPrefix(cs: seq<Candidate>, n: nat, l: Language)
    requires n < |cs|
    ensures FirstFor(cs[..n + 1], l) ==
      (if FirstFor(cs[..n], l).Some? then FirstFor(cs[..n], l) else if cs[n].0 == l then Some(cs[n].1) else None)
  {
    if n > 0 {
      assert cs[..n + 1][1..] == cs[1..][..n] && cs[..n][1..] == cs[1..][..n - 1];
      FirstForPrefix(cs[1..], n - 1, l);
    }
  }

  /** `resolve_candidates`: supplied readings of targets first, then the remaining targets transposed. */
  method ResolveCandidates(t: Situation) returns (resolved: seq<Candidate>)
    ensures DistinctLanguages(resolved)
    ensures forall c :: c in resolved <==> Reading(t, c.0) == Some(c.1)
  {
    var targets := AutomaticTargets(t.snapshot, t.current);
    resolved := [];
    for i := 0 to |t.candidates|
      invariant DistinctLanguages(resolved)
      invariant forall c :: c in resolved <==> c.0 in targets && FirstFor(t.candidates[..i], c.0) == Some(c.1)
    {
      var c := t.candidates[i];
      forall l: Language
        ensures FirstFor(t.candidates[..i + 1], l) ==
          (if FirstFor(t.candidates[..i], l).Some? then FirstFor(t.candidates[..i], l)
           else if c.0 == l then Some(c.1) else None)
      {
        FirstForPrefix(t.candidates, i, l);
      }
      if c.0 != t.current && c.0 in targets && !HasLanguage(resolved, c.0) {
        resolved := resolved + [c];
      } else if c.0 in targets {
        assert FirstFor(t.candidates[..i], c.0).Some?;
      }
    }
    assert t.candidates[..|t.candidates|] == t.candidates;
    ghost var supplied := resolved;
    var ids := SortedKeys(targets);
    AscendingDistinct(ids);
    for i := 0 to |ids|
      invariant DistinctLanguages(resolved)
      invariant forall c :: c in resolved <==>
        Reading(t, c.0) == Some(c.1) && (FirstFor(t.candidates, c.0).Some? || c.0 in ids[..i])
    {
      var l := ids[i];
      assert l in ids && l !in ids[..i];
      assert forall m :: m in ids[..i + 1] <==> m in ids[..i] || m == l;
      if HasLanguage(resolved, l) {
        continue;
      }
      assert forall r :: FirstFor(t.candidates, l) == Some(r) ==> (l, r) in resolved;
      var reading := t.know.transpose(t.current, l, t.word);
      if reading.Some? {
        resolved := resolved + [(l, reading.value)];
      }
    }
    assert ids[..|ids|] == ids;
  }

  // ---------- what a reading is worth ----------

  datatype Worth = Nothing | InDictionary | Statistical

  predicate ShortWord(t: Situation) { |t.word| < MINIMUM_STATISTICAL_CHARACTERS }

  predicate SourceIsWord(t: Situation) { t.know.accepts(t.current, t.word) }

  function SourceScore(t: Situation): real
  {
    var score := t.know.score(t.current, t.word);
    if ShortWord(t) && SourceIsWord(t) && t.know.baseList(t.current, t.word) then score - DICTIONARY_SCORE_BONUS
    else score
  }

  /** The checks of the candidate loop, in its order. */
  function WorthOf(t: Situation, l: Language, reading: string): Worth
  {
    if l == t.current || !t.know.active(l) || !t.know.accepts(l, reading) then Nothing
    else
      var listed := t.know.InDictionary(l, reading);
      if !listed && !t.know.statisticalTarget(l) then Nothing
      else if ShortWord(t) && !t.know.shortList(l, reading) && !t.know.userWord(l, reading) then Nothing
      else if !SourceIsWord(t) && !listed then Nothing
      else if t.know.score(l, reading) < t.config.minimumTargetScore
              || t.know.score(l, reading) - SourceScore(t) < t.config.minimumScoreMargin then Nothing
      else if listed then InDictionary else Statistical
  }

  function DetectionOf(t: Situation, l: Language, reading: string): Detection
  {
    Detection(t.current, l, t.word, reading, SourceScore(t), t.know.score(l, reading))
  }

  /** The targets whose reading is worth `w`. */
  function Worthy(t: Situation, w: Worth): set<Language>
  {
    set l | l in AutomaticTargets(t.snapshot, t.current)
            && Reading(t, l).Some? && WorthOf(t, l, Reading(t, l).value) == w
  }

  /** The typed word is left alone without looking at any target. */
  predicate LeftAlone(t: Situation)
  {
    var core := t.know.letterCore(t.current, t.word);
    var known :=
      if ShortWord(t) then t.know.shortList(t.current, t.word) || t.know.userWord(t.current, t.word)
      else t.know.InDictionary(t.current, t.word);
    || |t.word| < t.config.minimumWordCharacters
    || t.know.excluded(t.current, t.word)
    || (SourceIsWord(t) && known)
    || (core != t.word && t.know.KnowsCore(t.current, core))
  }

  function Only(s: set<Language>): (l: Language)
    requires |s| == 1
    ensures s == {l}
  {
    assert s != {};
    var l := Least(s);
    assert |s - {l}| == 0;
    assert s == {l};
    l
  }

  /** The counting rule: one dictionary target, else one statistical one; two of a kind decide nothing. */
  function Decide(t: Situation): Option<Detection>
  {
    var listed, statistical := Worthy(t, InDictionary), Worthy(t, Statistical);
    if |listed| > 1 || |statistical| > 1 then None
    else if |listed| == 1 then Some(DetectionOf(t, Only(listed), Reading(t, Only(listed)).value))
    else if |statistical| == 1 then Some(DetectionOf(t, Only(statistical), Reading(t, Only(statistical)).value))
    else None
  }

  /** Targets that a single letter may become. */
  predicate LetterTarget(t: Situation, l: Language, reading: string)
  {
    && l != t.current && t.know.active(l) && |reading| == 1 && reading != t.word && t.know.accepts(l, reading)
    && (t.know.shortList(l, reading) || t.know.userWord(l, reading))
  }

  function LetterTargets(t: Situation): set<Language>
  {
    set l | l in AutomaticTargets(t.snapshot, t.current)
            && Reading(t, l).Some? && LetterTarget(t, l, Reading(t, l).value)
  }

  predicate LetterLeftAlone(t: Situation)
  {
    || !t.config.singleLetterWords
    || t.know.excluded(t.current, t.word)
    || (SourceIsWord(t) && (t.know.shortList(t.current, t.word) || t.know.userWord(t.current, t.word)))
  }

  function LetterDetection(t: Situation, l: Language, reading: string): Detection
  {
    Detection(t.current, l, t.word, reading, t.know.score(t.current, t.word), t.know.score(l, reading))
  }

  function DecideLetter(t: Situation): Option<Detection>
  {
    var targets := LetterTargets(t);
    if |targets| != 1 then None
    else Some(LetterDetection(t, Only(targets), Reading(t, Only(targets)).value))
  }

  /** The whole decision, by counting. */
  function Verdict(t: Situation): Option<Detection>
  {
    if !t.know.active(t.current) then None
    else if |t.word| == 1 then if LetterLeftAlone(t) then None else DecideLetter(t)
    else if LeftAlone(t) then None
    else Decide(t)
  }

  // ---------- the early-return loops compute the counting rule ----------

  /** Languages among the first readings that are worth `w`. */
  function SeenWorthy(t: Situation, cs: seq<Candidate>, w: Worth): set<Language>
  {
    set c | c in cs && WorthOf(t, c.0, c.1) == w :: c.0
  }

  lemma SeenAll(t: Situation, resolved: seq<Candidate>, w: Worth)
    requires forall c :: c in resolved <==> Reading(t, c.0) == Some(c.1)
    ensures SeenWorthy(t, resolved, w) == Worthy(t, w)
  {
    hide WorthOf;
    forall l
      ensures l in SeenWorthy(t, resolved, w) <==> l in Worthy(t, w)
    {
      if l in SeenWorthy(t, resolved, w) {
        var c :| c in resolved && WorthOf(t, c.0, c.1) == w && c.0 == l;
        assert Reading(t, l) == Some(c.1);
      }
      if l in Worthy(t, w) {
        assert (l, Reading(t, l).value) in resolved;
      }
    }
  }

  lemma SeenOneMore(t: Situation, cs: seq<Candidate>, n: nat, w: Worth)
    requires n < |cs| && DistinctLanguages(cs)
    ensures SeenWorthy(t, cs[..n + 1], w) ==
      SeenWorthy(t, cs[..n], w) + if WorthOf(t, cs[n].0, cs[n].1) == w then {cs[n].0} else {}
    ensures cs[n].0 !in SeenWorthy(t, cs[..n], w)
  {
    hide WorthOf;
    assert cs[..n + 1] == cs[..n] + [cs[n]];
  }

  lemma SeenGrows(t: Situation, cs: seq<Candidate>, n: nat, w: Worth)
    requires n <= |cs|
    ensures |SeenWorthy(t, cs[..n], w)| <= |SeenWorthy(t, cs, w)|
  {
    hide WorthOf;
    assert forall c :: c in cs[..n] ==> c in cs;
    SmallerSet(SeenWorthy(t, cs[..n], w), SeenWorthy(t, cs, w));
  }

  lemma {:induction false} SmallerSet(a: set<Language>, b: set<Language>)
    requires a <= b
    ensures |a| <= |b|
    decreases a
  {
    if a != {} {
      var x :| x in a;
      SmallerSet(a - {x}, b - {x});
    }
  }

  /** What the loop holds after some readings: the one detection of a kind seen so far, if any. */
  ghost predicate Holds(t: Situation, cs: seq<Candidate>, w: Worth, held: Option<Detection>)
  {
    match held
    case None => SeenWorthy(t, cs, w) == {}
    case Some(d) =>
      SeenWorthy(t, cs, w) == {d.target} && (d.target, d.replacement) in cs
        && d == DetectionOf(t, d.target, d.replacement)
  }

  /** The candidate loop: it gives up at the second target of a kind. */
  method DetectLoop(t: Situation, resolved: seq<Candidate>) returns (d: Option<Detection>)
    requires DistinctLanguages(resolved)
    requires forall c :: c in resolved <==> Reading(t, c.0) == Some(c.1)
    ensures d == Decide(t)
  {
    hide WorthOf, SeenWorthy, DetectionOf;
    var listed: Option<Detection>, statistical: Option<Detection> := None, None;
    SeenAll(t, resolved, InDictionary);
    SeenAll(t, resolved, Statistical);
    SeenNone(t);
    for n := 0 to |resolved|
      invariant Holds(t, resolved[..n], InDictionary, listed)
      invariant Holds(t, resolved[..n], Statistical, statistical)
    {
      var c := resolved[n];
      SeenOneMore(t, resolved, n, InDictionary);
      SeenOneMore(t, resolved, n, Statistical);
      SeenGrows(t, resolved, n + 1, InDictionary);
      SeenGrows(t, resolved, n + 1, Statistical);
      DetectionNames(t, c.0, c.1);
      assert forall b :: b in resolved[..n] ==> b in resolved[..n + 1];
      assert c in resolved[..n + 1];
      match WorthOf(t, c.0, c.1)
      case Nothing => continue;
      case InDictionary =>
        if listed.Some? { return None; }
        listed := Some(DetectionOf(t, c.0, c.1));
      case Statistical =>
        if statistical.Some? { return None; }
        statistical := Some(DetectionOf(t, c.0, c.1));
    }
    assert resolved[..|resolved|] == resolved;
    d := if listed.Some? then listed else statistical;
  }

  lemma SeenNone(t: Situation)
    ensures SeenWorthy(t, [], InDictionary) == {} && SeenWorthy(t, [], Statistical) == {}
  {
  }

  lemma DetectionNames(t: Situation, l: Language, reading: string)
    ensures DetectionOf(t, l, reading).target == l && DetectionOf(t, l, reading).replacement == reading
  {
  }

  /** The single-letter loop: any second acceptable target decides nothing. */
  method LetterLoop(t: Situation, resolved: seq<Candidate>) returns (d: Option<Detection>)
    requires DistinctLanguages(resolved)
    requires forall c :: c in resolved <==> Reading(t, c.0) == Some(c.1)
    ensures d == DecideLetter(t)
  {
    hide LetterTarget, Reading, AutomaticTargets;
    d := None;
    ghost var seen: set<Language> := {};
    for n := 0 to |resolved|
      invariant seen == set c | c in resolved[..n] && LetterTarget(t, c.0, c.1) :: c.0
      invariant d.None? ==> seen == {}
      invariant d.Some? ==> seen == {d.value.target} && (d.value.target, d.value.replacement) in resolved[..n]
      invariant d.Some? ==> d.value == LetterDetection(t, d.value.target, d.value.replacement)
    {
      var c := resolved[n];
      assert resolved[..n + 1] == resolved[..n] + [c];
      assert c.0 !in seen;
      if !LetterTarget(t, c.0, c.1) { continue; }
      if d.Some? {
        TwoLetterTargets(t, resolved, d.value.target, c.0);
        return None;
      }
      seen := seen + {c.0};
      d := Some(LetterDetection(t, c.0, c.1));
    }
    assert resolved[..|resolved|] == resolved;
    SeenLetters(t, resolved);
  }

  lemma SeenLetters(t: Situation, resolved: seq<Candidate>)
    requires forall c :: c in resolved <==> Reading(t, c.0) == Some(c.1)
    ensures (set c | c in resolved && LetterTarget(t, c.0, c.1) :: c.0) == LetterTargets(t)
  {
    hide LetterTarget;
    forall l
      ensures l in (set c | c in resolved && LetterTarget(t, c.0, c.1) :: c.0) <==> l in LetterTargets(t)
    {
      if l in LetterTargets(t) {
        assert (l, Reading(t, l).value) in resolved;
      }
    }
  }

  lemma TwoLetterTargets(t: Situation, resolved: seq<Candidate>, a: Language, b: Language)
    requires forall c :: c in resolved <==> Reading(t, c.0) == Some(c.1)
    requires a != b
    requires exists r :: (a, r) in resolved && LetterTarget(t, a, r)
    requires exists r :: (b, r) in resolved && LetterTarget(t, b, r)
    ensures |LetterTargets(t)| > 1
  {
    hide LetterTarget;
    var p :| (a, p) in resolved && LetterTarget(t, a, p);
    var q :| (b, q) in resolved && LetterTarget(t, b, q);
    assert Reading(t, a) == Some(p) && Reading(t, b) == Some(q);
    assert {a, b} <= LetterTargets(t);
    SmallerSet({a, b}, LetterTargets(t));
  }

  /** `detect_mapped_candidates`, with its loops and early returns, is the counting verdict. */
  method DetectMappedCandidates(t: Situation) returns (d: Option<Detection>)
    ensures d == Verdict(t)
  {
    hide WorthOf, Reading, LetterTargets;
    if !t.know.active(t.current) { return None; }
    if |t.word| == 1 {
      if LetterLeftAlone(t) { return None; }
      var readings := ResolveCandidates(t);
      d := LetterLoop(t, readings);
      return d;
    }
    if LeftAlone(t) { return None; }
    var resolved := ResolveCandidates(t);
    d := DetectLoop(t, resolved);
  }

  // ---------- what a verdict guarantees ----------

  /** With one reading per language, the order in which the readings are supplied does not matter. */
  lemma OrderDoesNotMatter(t: Situation, others: seq<Candidate>)
    requires DistinctLanguages(t.candidates) && multiset(others) == multiset(t.candidates)
    requires DistinctLanguages(others)
    ensures Verdict(t.(candidates := others)) == Verdict(t)
  {
    var u := t.(candidates := others);
    forall l
      ensures Reading(u, l) == Reading(t, l)
    {
      assert forall c :: c in others <==> c in t.candidates by {
        assert forall c :: c in others <==> c in multiset(others);
      }
      if FirstFor(others, l).Some? {
      }
      if FirstFor(t.candidates, l).Some? {
      }
    }
    SameVerdict(t, u);
  }

  lemma SameVerdict(t: Situation, u: Situation)
    requires u == t.(candidates := u.candidates) && forall l :: Reading(u, l) == Reading(t, l)
    ensures Verdict(u) == Verdict(t)
  {
    hide Reading;
    assert forall l, r :: WorthOf(u, l, r) == WorthOf(t, l, r);
    assert forall l, r :: LetterTarget(u, l, r) == LetterTarget(t, l, r);
    SameWorthy(t, u, InDictionary);
    SameWorthy(t, u, Statistical);
    assert LetterTargets(u) == LetterTargets(t);
  }

  lemma SameWorthy(t: Situation, u: Situation, w: Worth)
    requires u == t.(candidates := u.candidates) && forall l :: Reading(u, l) == Reading(t, l)
    requires forall l, r :: WorthOf(u, l, r) == WorthOf(t, l, r)
    ensures Worthy(u, w) == Worthy(t, w)
  {
    hide Reading, WorthOf;
  }

  /** A detection always goes from an eligible layout to another eligible one, for a word not excluded. */
  lemma DetectionsAreEligible(t: Situation)
    requires Verdict(t).Some?
    ensures var d := Verdict(t).value;
      && d.source == t.current && d.original == t.word
      && Eligible(t.snapshot, d.source) && Eligible(t.snapshot, d.target) && d.target != d.source
      && Reading(t, d.target) == Some(d.replacement)
      && !t.know.excluded(t.current, t.word) && t.know.accepts(d.target, d.replacement)
  {
    var d := Verdict(t).value;
    assert d.target in Worthy(t, InDictionary) || d.target in Worthy(t, Statistical) || d.target in LetterTargets(t);
  }
}
