/** What decides a detection, in terms of what the dictionaries and models say (src/detector.rs). */
module DetectorResults {
  import opened Wrappers
  import opened InputBindings
  import opened Detector

  // ---------- which words and readings are considered ----------

  /** In the short list or in the user's own words, the lists that count for short words. */
  predicate IsCommon(k: Knowledge, l: Language, word: string)
  {
    k.shortList(l, word) || k.userWord(l, word)
  }

  predicate IsListed(k: Knowledge, l: Language, word: string)
  {
    k.baseList(l, word) || IsCommon(k, l, word)
  }

  /** The typed word is a word of its own layout: common if it has fewer than four letters, listed otherwise. */
  ghost predicate KnownAsTyped(t: Situation)
  {
    && t.know.accepts(t.current, t.word)
    && if |t.word| <= 3 then IsCommon(t.know, t.current, t.word) else IsListed(t.know, t.current, t.word)
  }

  /** What is typed is a known word with punctuation around it; of two letters only common ones count. */
  ghost predicate KnownCore(t: Situation)
  {
    var core := t.know.letterCore(t.current, t.word);
    core != t.word && if |core| <= 2 then IsCommon(t.know, t.current, core) else IsListed(t.know, t.current, core)
  }

  ghost predicate Considered(t: Situation)
  {
    && t.know.active(t.current) && |t.word| >= t.config.minimumWordCharacters
    && !t.know.excluded(t.current, t.word) && !KnownAsTyped(t) && !KnownCore(t)
  }

  /** A short word that only the general list has is worth less. */
  function TypedScore(t: Situation): real
  {
    t.know.score(t.current, t.word)
    - if |t.word| <= 3 && t.know.accepts(t.current, t.word) && t.know.baseList(t.current, t.word) then 10.0 else 0.0
  }

  /** `l` is a layout the word may have been meant for, with this reading. */
  ghost predicate Reads(t: Situation, l: Language, reading: string)
  {
    && l in AutomaticTargets(t.snapshot, t.current) && l != t.current && Reading(t, l) == Some(reading)
    && t.know.active(l) && t.know.accepts(l, reading)
  }

  /** The reading is good enough: listed, or statistical for a word of the typed layout, and better by the margin. */
  ghost predicate Qualifies(t: Situation, l: Language, reading: string)
  {
    && Reads(t, l, reading)
    && (IsListed(t.know, l, reading) || (t.know.statisticalTarget(l) && t.know.accepts(t.current, t.word)))
    && (|t.word| <= 3 ==> IsCommon(t.know, l, reading))
    && t.know.score(l, reading) >= t.config.minimumTargetScore
    && t.know.score(l, reading) - TypedScore(t) >= t.config.minimumScoreMargin
  }

  ghost predicate QualifiesListed(t: Situation, l: Language)
  {
    exists r :: Qualifies(t, l, r) && IsListed(t.know, l, r)
  }

  ghost predicate QualifiesUnlisted(t: Situation, l: Language)
  {
    exists r :: Qualifies(t, l, r) && !IsListed(t.know, l, r)
  }

  // ---------- the counting rule in these terms ----------

  lemma WorthIs(t: Situation, l: Language, reading: string)
    requires l in AutomaticTargets(t.snapshot, t.current) && Reading(t, l) == Some(reading)
    ensures WorthOf(t, l, reading) == InDictionary <==> Qualifies(t, l, reading) && IsListed(t.know, l, reading)
    ensures WorthOf(t, l, reading) == Statistical <==> Qualifies(t, l, reading) && !IsListed(t.know, l, reading)
    ensures SourceScore(t) == TypedScore(t)
  {
    hide AutomaticTargets, Reading;
  }

  lemma WorthyAre(t: Situation)
    ensures forall l :: l in Worthy(t, InDictionary) <==> QualifiesListed(t, l)
    ensures forall l :: l in Worthy(t, Statistical) <==> QualifiesUnlisted(t, l)
  {
    hide WorthOf, Qualifies, AutomaticTargets, Reading;
    forall l
      ensures l in Worthy(t, InDictionary) <==> QualifiesListed(t, l)
      ensures l in Worthy(t, Statistical) <==> QualifiesUnlisted(t, l)
    {
      WorthyAt(t, l);
    }
  }

  lemma WorthyAt(t: Situation, l: Language)
    ensures l in Worthy(t, InDictionary) <==> QualifiesListed(t, l)
    ensures l in Worthy(t, Statistical) <==> QualifiesUnlisted(t, l)
  {
    hide WorthOf, AutomaticTargets, Reading;
    forall r | Qualifies(t, l, r)
      ensures l in AutomaticTargets(t.snapshot, t.current) && Reading(t, l) == Some(r)
    {
    }
    if l in AutomaticTargets(t.snapshot, t.current) && Reading(t, l).Some? {
      WorthIs(t, l, Reading(t, l).value);
    }
  }

  lemma ConsideredIs(t: Situation)
    ensures t.know.active(t.current) && !LeftAlone(t) <==> Considered(t)
  {
  }

  lemma {:induction false} AtMostOne(s: set<Language>)
    ensures |s| <= 1 <==> forall a, b :: a in s && b in s ==> a == b
  {
    if s != {} {
      var a :| a in s;
      if forall b :: b in s ==> b == a {
        assert s == {a};
      } else {
        var b :| b in s && b != a;
        SmallerSet({a, b}, s);
      }
    }
  }

  /** At most one target of each kind qualifies. */
  ghost predicate Clear(t: Situation)
  {
    && (forall a, b :: QualifiesListed(t, a) && QualifiesListed(t, b) ==> a == b)
    && (forall a, b :: QualifiesUnlisted(t, a) && QualifiesUnlisted(t, b) ==> a == b)
  }

  /** The detection to `l`, with the scores it was judged by. */
  ghost predicate IsDetection(t: Situation, d: Detection, l: Language, reading: string)
  {
    && d.source == t.current && d.target == l && d.original == t.word && d.replacement == reading
    && d.sourceScore == TypedScore(t) && d.targetScore == t.know.score(l, reading)
  }

  lemma DecidedIs(t: Situation, l: Language)
    requires l in Worthy(t, InDictionary) || l in Worthy(t, Statistical)
    ensures Reading(t, l).Some? && Qualifies(t, l, Reading(t, l).value)
    ensures IsDetection(t, DetectionOf(t, l, Reading(t, l).value), l, Reading(t, l).value)
  {
    WorthIs(t, l, Reading(t, l).value);
  }

  /**
   * When a word is taken for another layout's: it is considered, some target qualifies, and of the listed and of the
   * unlisted ones at most one each.
   */
  lemma VerdictIff(t: Situation)
    requires |t.word| != 1
    ensures Verdict(t).Some? <==> Considered(t) && Clear(t) && exists l, r :: Qualifies(t, l, r)
  {
    hide Worthy, LeftAlone, Considered, Qualifies, DetectionOf, QualifiesListed, QualifiesUnlisted;
    WorthyAre(t);
    ConsideredIs(t);
    AtMostOne(Worthy(t, InDictionary));
    AtMostOne(Worthy(t, Statistical));
    SomeQualifies(t);
  }

  lemma SomeQualifies(t: Situation)
    ensures (exists l, r :: Qualifies(t, l, r)) <==> exists l :: QualifiesListed(t, l) || QualifiesUnlisted(t, l)
  {
    hide Qualifies;
    if exists l, r :: Qualifies(t, l, r) {
      var l, r :| Qualifies(t, l, r);
      assert QualifiesListed(t, l) || QualifiesUnlisted(t, l);
    }
  }

  /** The listed target wins over an unlisted one. */
  lemma ListedTargetWins(t: Situation, l: Language, reading: string)
    requires |t.word| != 1 && Considered(t) && Clear(t) && Qualifies(t, l, reading) && IsListed(t.know, l, reading)
    ensures Verdict(t).Some? && IsDetection(t, Verdict(t).value, l, reading)
  {
    hide Worthy, LeftAlone, Considered, Qualifies, DetectionOf, QualifiesUnlisted, IsDetection;
    WorthyAre(t);
    ConsideredIs(t);
    AtMostOne(Worthy(t, InDictionary));
    AtMostOne(Worthy(t, Statistical));
    assert QualifiesListed(t, l);
    DecidedIs(t, l);
    OnlyReading(t, l, reading);
  }

  lemma OnlyReading(t: Situation, l: Language, reading: string)
    requires Qualifies(t, l, reading)
    ensures Reading(t, l) == Some(reading)
  {
  }

  /** An unlisted target is taken only when it is the only one that qualifies, and then it is. */
  lemma UnlistedTargetIsAlone(t: Situation, l: Language, reading: string)
    requires |t.word| != 1 && Considered(t) && Qualifies(t, l, reading) && !IsListed(t.know, l, reading)
    ensures (Verdict(t).Some? && Verdict(t).value.target == l) <==> forall k, r :: Qualifies(t, k, r) ==> k == l
    ensures Verdict(t).Some? && Verdict(t).value.target == l ==> IsDetection(t, Verdict(t).value, l, reading)
  {
    hide Worthy, LeftAlone, Considered, Qualifies, DetectionOf, IsDetection, WorthOf;
    WorthyAre(t);
    ConsideredIs(t);
    AtMostOne(Worthy(t, InDictionary));
    AtMostOne(Worthy(t, Statistical));
    assert QualifiesUnlisted(t, l);
    DecidedIs(t, l);
    OnlyReading(t, l, reading);
    forall r | Qualifies(t, l, r)
      ensures r == reading
    {
      OnlyReading(t, l, r);
    }
    assert !QualifiesListed(t, l);
    QualifyingTargets(t, l);
    DecisionNames(t);
  }

  lemma QualifyingTargets(t: Situation, l: Language)
    ensures (forall k, r :: Qualifies(t, k, r) ==> k == l)
            <==> forall k :: QualifiesListed(t, k) || QualifiesUnlisted(t, k) ==> k == l
  {
    hide Qualifies;
    if forall k :: QualifiesListed(t, k) || QualifiesUnlisted(t, k) ==> k == l {
      forall k, r | Qualifies(t, k, r)
        ensures k == l
      {
        assert QualifiesListed(t, k) || QualifiesUnlisted(t, k);
      }
    }
  }

  lemma DecisionNames(t: Situation)
    ensures Decide(t).Some? ==> Decide(t).value.target in Worthy(t, InDictionary) + Worthy(t, Statistical)
    ensures Decide(t).Some? && Worthy(t, InDictionary) != {} ==> Decide(t).value.target in Worthy(t, InDictionary)
  {
  }

  /** Every detection of a word is justified by what the lists and the models say. */
  lemma WordDetectionsAreJustified(t: Situation)
    requires |t.word| != 1 && Verdict(t).Some?
    ensures var d := Verdict(t).value;
      && Considered(t) && Qualifies(t, d.target, d.replacement) && IsDetection(t, d, d.target, d.replacement)
  {
    hide Worthy, LeftAlone, Considered, Qualifies, DetectionOf, WorthOf, Reading;
    ConsideredIs(t);
    DecisionNames(t);
    DecidedIs(t, Verdict(t).value.target);
  }

  // ---------- single letters ----------

  ghost predicate LetterConsidered(t: Situation)
  {
    && t.know.active(t.current) && t.config.singleLetterWords && !t.know.excluded(t.current, t.word)
    && !(t.know.accepts(t.current, t.word) && IsCommon(t.know, t.current, t.word))
  }

  /** Another single letter that is a common word of its layout. */
  ghost predicate LetterQualifies(t: Situation, l: Language, reading: string)
  {
    Reads(t, l, reading) && |reading| == 1 && reading != t.word && IsCommon(t.know, l, reading)
  }

  lemma LettersAre(t: Situation)
    ensures forall l :: l in LetterTargets(t) <==> exists r :: LetterQualifies(t, l, r)
  {
    hide AutomaticTargets, Reading;
    forall l
      ensures l in LetterTargets(t) <==> exists r :: LetterQualifies(t, l, r)
    {
      if l in LetterTargets(t) { assert LetterQualifies(t, l, Reading(t, l).value); }
      if exists r :: LetterQualifies(t, l, r) {
        var r :| LetterQualifies(t, l, r);
        assert LetterTarget(t, l, r);
      }
    }
  }

  /** A letter is taken for another layout's exactly when one single layout has it as a common word. */
  lemma LetterVerdictIff(t: Situation)
    requires |t.word| == 1
    ensures Verdict(t).Some? <==>
      && LetterConsidered(t) && (exists l, r :: LetterQualifies(t, l, r))
      && (forall k, l, q, r :: LetterQualifies(t, k, q) && LetterQualifies(t, l, r) ==> k == l)
    ensures Verdict(t).Some? ==>
      var d := Verdict(t).value;
      && LetterQualifies(t, d.target, d.replacement)
      && d.source == t.current && d.original == t.word
      && d.sourceScore == t.know.score(t.current, t.word) && d.targetScore == t.know.score(d.target, d.replacement)
  {
    hide LetterTargets, LetterQualifies, Reading;
    LettersAre(t);
    AtMostOne(LetterTargets(t));
    SomeLetter(t);
    if |LetterTargets(t)| == 1 { LetterTargetIs(t, Only(LetterTargets(t))); }
  }

  lemma SomeLetter(t: Situation)
    ensures (exists l, r :: LetterQualifies(t, l, r)) <==> LetterTargets(t) != {}
    ensures (forall k, l, q, r :: LetterQualifies(t, k, q) && LetterQualifies(t, l, r) ==> k == l)
            <==> forall k, l :: k in LetterTargets(t) && l in LetterTargets(t) ==> k == l
  {
    hide LetterTargets, LetterQualifies;
    LettersAre(t);
    if exists l, r :: LetterQualifies(t, l, r) {
      var l, r :| LetterQualifies(t, l, r);
      assert l in LetterTargets(t);
    }
    if forall k, l :: k in LetterTargets(t) && l in LetterTargets(t) ==> k == l {
      forall k, l, q, r | LetterQualifies(t, k, q) && LetterQualifies(t, l, r)
        ensures k == l
      {
        assert k in LetterTargets(t) && l in LetterTargets(t);
      }
    }
    if forall k, l, q, r :: LetterQualifies(t, k, q) && LetterQualifies(t, l, r) ==> k == l {
      forall k, l | k in LetterTargets(t) && l in LetterTargets(t)
        ensures k == l
      {
        var q :| LetterQualifies(t, k, q);
        var r :| LetterQualifies(t, l, r);
      }
    }
  }

  lemma LetterTargetIs(t: Situation, l: Language)
    requires l in LetterTargets(t)
    ensures Reading(t, l).Some? && LetterQualifies(t, l, Reading(t, l).value)
  {
    hide AutomaticTargets;
  }

  // ---------- readings ----------

  /** Where the adapter's first reading for `l` stands. */
  ghost predicate FirstAt(cs: seq<Candidate>, l: Language, i: nat)
  {
    i < |cs| && cs[i].0 == l && forall j :: 0 <= j < i ==> cs[j].0 != l
  }

  lemma {:induction false} FirstForIs(cs: seq<Candidate>, l: Language)
    ensures FirstFor(cs, l).Some? ==> exists i: nat :: FirstAt(cs, l, i) && FirstFor(cs, l).value == cs[i].1
  {
    if cs == [] {
    } else if cs[0].0 == l {
      assert FirstAt(cs, l, 0);
    } else {
      FirstForIs(cs[1..], l);
      if FirstFor(cs, l).Some? {
        var i: nat :| FirstAt(cs[1..], l, i) && FirstFor(cs, l).value == cs[1..][i].1;
        assert FirstAt(cs, l, i + 1);
      }
    }
  }

  lemma FirstIsUnique(cs: seq<Candidate>, l: Language, i: nat, j: nat)
    requires FirstAt(cs, l, i) && FirstAt(cs, l, j)
    ensures i == j
  {
  }

  /** A target is read as the adapter's first reading for it says, and as the same keys only without one. */
  lemma ReadingIs(t: Situation, l: Language)
    requires l in AutomaticTargets(t.snapshot, t.current)
    ensures forall i: nat :: FirstAt(t.candidates, l, i) ==> Reading(t, l) == Some(t.candidates[i].1)
    ensures (forall c :: c in t.candidates ==> c.0 != l) ==> Reading(t, l) == t.know.transpose(t.current, l, t.word)
  {
    hide AutomaticTargets;
    FirstForIs(t.candidates, l);
    forall i: nat | FirstAt(t.candidates, l, i)
      ensures Reading(t, l) == Some(t.candidates[i].1)
    {
      assert t.candidates[i] in t.candidates;
      var j: nat :| FirstAt(t.candidates, l, j) && FirstFor(t.candidates, l).value == t.candidates[j].1;
      FirstIsUnique(t.candidates, l, i, j);
    }
  }
}
