/** From the logits of a layout model to probabilities, with every refusal (src/layout_model.rs). */
module LayoutProbabilities {
  import opened Wrappers
  import opened LayoutModel
  import opened FloatNumbers
  import opened LayoutScoring
  import Crc32

  // ---------- the softmax as it is computed ----------

  /** The fold of `f32::max` over the first logits. */
  function LargestOf(logits: seq<Value>): (v: Value)
  {
    if logits == [] then LOWEST else MaxOf(LargestOf(logits[..|logits| - 1]), logits[|logits| - 1])
  }

  /** The exponential of a logit that is finite, with the largest one taken off; others have none. */
  function Part(p: Platform, logit: Value, max: Value): Value
  {
    if logit.Real? then p.exp(Minus(p.round, logit, max)) else ZERO
  }

  function Total(p: Platform, logits: seq<Value>, max: Value): Value
  {
    if logits == [] then ZERO
    else
      var n := |logits| - 1;
      if logits[n].Real? then Plus(p.round, Total(p, logits[..n], max), Part(p, logits[n], max))
      else Total(p, logits[..n], max)
  }

  function TotalOf(p: Platform, logits: seq<Value>): Value
  {
    Total(p, logits, LargestOf(logits))
  }

  function Shares(p: Platform, logits: seq<Value>): (ps: seq<Value>)
    ensures |ps| == |logits|
  {
    seq(|logits|, i requires 0 <= i < |logits| =>
      Over(p.round, Part(p, logits[i], LargestOf(logits)), TotalOf(p, logits)))
  }

  method Largest(logits: seq<Value>) returns (max: Value)
    ensures max == LargestOf(logits)
  {
    max := LOWEST;
    for k := 0 to |logits|
      invariant max == LargestOf(logits[..k])
    {
      assert logits[..k + 1][..k] == logits[..k];
      max := MaxOf(max, logits[k]);
    }
    assert logits[..|logits|] == logits;
  }

  method FillParts(p: Platform, logits: seq<Value>, max: Value, ps: array<Value>) returns (total: Value)
    requires ps.Length == |logits|
    modifies ps
    ensures total == Total(p, logits, max)
    ensures forall i :: 0 <= i < |logits| ==> ps[i] == Part(p, logits[i], max)
  {
    forall k | 0 <= k < ps.Length { ps[k] := ZERO; }
    total := ZERO;
    for k := 0 to |logits|
      invariant total == Total(p, logits[..k], max)
      invariant forall i :: 0 <= i < k ==> ps[i] == Part(p, logits[i], max)
      invariant forall i :: k <= i < |logits| ==> ps[i] == ZERO
    {
      assert logits[..k + 1][..k] == logits[..k];
      if logits[k].Real? {
        ps[k] := p.exp(Minus(p.round, logits[k], max));
        total := Plus(p.round, total, ps[k]);
      }
    }
    assert logits[..|logits|] == logits;
  }

  /** Refused when the total cannot be divided by. */
  method Softmax(p: Platform, logits: seq<Value>) returns (r: Option<seq<Value>>)
    ensures r.Some? <==> TotalOf(p, logits).Real? && TotalOf(p, logits).value > 0.0
    ensures r.Some? ==> r.value == Shares(p, logits)
  {
    hide Total, Part, LargestOf;
    var max := Largest(logits);
    var ps := new Value[|logits|];
    var total := FillParts(p, logits, max, ps);
    if !(total.Real? && total.value > 0.0) { return None; }
    ghost var parts := ps[..];
    for k := 0 to |logits|
      invariant forall i :: 0 <= i < k ==> ps[i] == Shares(p, logits)[i]
      invariant ps[k..] == parts[k..]
    {
      assert ps[k] == parts[k];
      ps[k] := Over(p.round, ps[k], total);
    }
    return Some(ps[..]);
  }

  // ---------- what is used of the arithmetic ----------

  ghost predicate ArithmeticOk(p: Platform)
  {
    RoundingOk(p.round) && ExponentialOk(p.round, p.exp)
  }

  /** Logits of which each is finite or that of a layout without a reading. */
  ghost predicate FiniteOrAbsent(logits: seq<Value>)
  {
    forall i :: 0 <= i < |logits| ==> logits[i].Real? || logits[i] == LOWEST
  }

  ghost predicate SomeReal(logits: seq<Value>)
  {
    exists i :: 0 <= i < |logits| && logits[i].Real?
  }

  // ---------- the largest logit ----------

  lemma {:induction false} LargestIs(logits: seq<Value>)
    requires FiniteOrAbsent(logits)
    ensures !LargestOf(logits).NaN?
    ensures forall i :: 0 <= i < |logits| ==> AtMost(logits[i], LargestOf(logits))
    ensures LargestOf(logits) == LOWEST || LargestOf(logits) in logits
    ensures LargestOf(logits) != LOWEST ==> LargestOf(logits).Real?
  {
    if logits == [] {
    } else {
      LargestIs(logits[..|logits| - 1]);
    }
  }

  lemma LargestIsReal(logits: seq<Value>)
    requires FiniteOrAbsent(logits) && SomeReal(logits)
    ensures LargestOf(logits).Real? && LargestOf(logits) in logits
  {
    LargestIs(logits);
    var i :| 0 <= i < |logits| && logits[i].Real?;
    assert AtMost(logits[i], LargestOf(logits));
  }

  // ---------- the terms and their total ----------

  lemma DifferenceIs(p: Platform, a: Value, b: Value, max: Value)
    requires ArithmeticOk(p) && max.Real? && a.Real? && b.Real? && AtMost(a, b) && AtMost(b, max)
    ensures AtMost(Minus(p.round, a, max), Minus(p.round, b, max)) && AtMost(Minus(p.round, b, max), ZERO)
  {
    hide RoundingOk, ExponentialOk;
    RoundKeepsOrder(p.round, a.value - max.value, b.value - max.value);
    RoundKeepsOrder(p.round, b.value - max.value, 0.0);
    SmallIsExact(p.round, 0);
    assert Minus(p.round, a, max) == p.round(a.value - max.value);
    assert Minus(p.round, b, max) == p.round(b.value - max.value);
  }

  /** Terms lie between zero and one, in the order of their logits. */
  lemma PartIs(p: Platform, a: Value, b: Value, max: Value)
    requires ArithmeticOk(p) && max.Real? && a.Real? && b.Real? && AtMost(a, b) && AtMost(b, max)
    ensures InUnit(p.round, Part(p, a, max)) && InUnit(p.round, Part(p, b, max))
    ensures Part(p, a, max).value <= Part(p, b, max).value
  {
    hide RoundingOk, ExponentialOk, Minus;
    DifferenceIs(p, a, b, max);
    ExponentialAt(p.round, p.exp, Minus(p.round, a, max), Minus(p.round, b, max));
  }

  lemma LargestPart(p: Platform, max: Value)
    requires ArithmeticOk(p) && max.Real?
    ensures Part(p, max, max) == ONE
  {
    SmallIsExact(p.round, 0);
    assert Minus(p.round, max, max) == p.round(0.0);
  }

  /** Adding a term to a total of `n` terms: it stays in range and drops below neither. */
  lemma AddTerm(round: Rounding, total: Value, term: Value, n: nat)
    requires RoundingOk(round) && n < 16 && total.Real? && 0.0 <= total.value <= n as real
    requires round(total.value) == total && InUnit(round, term)
    ensures var sum := Plus(round, total, term);
      && sum.Real? && 0.0 <= sum.value <= (n + 1) as real && round(sum.value) == sum
      && total.value <= sum.value && term.value <= sum.value
  {
    hide RoundingOk;
    var x := total.value + term.value;
    RoundKeepsOrder(round, total.value, x);
    RoundKeepsOrder(round, term.value, x);
    RoundKeepsOrder(round, x, (n + 1) as real);
    SmallIsExact(round, n + 1);
    RoundsOnce(round, x);
  }

  ghost predicate TotalFits(p: Platform, logits: seq<Value>, max: Value)
  {
    var total := Total(p, logits, max);
    && total.Real? && 0.0 <= total.value <= |logits| as real && p.round(total.value) == total
    && forall i :: 0 <= i < |logits| && logits[i].Real? ==> PartFits(p, logits[i], max, total.value)
  }

  predicate PartFits(p: Platform, logit: Value, max: Value, total: real)
  {
    Part(p, logit, max).Real? && 0.0 <= Part(p, logit, max).value <= total
  }

  lemma {:induction false} TotalIs(p: Platform, logits: seq<Value>, max: Value)
    requires ArithmeticOk(p) && max.Real? && |logits| <= 16
    requires forall i :: 0 <= i < |logits| && logits[i].Real? ==> AtMost(logits[i], max)
    ensures TotalFits(p, logits, max)
  {
    hide RoundingOk, ExponentialOk, Part, Plus;
    SmallIsExact(p.round, 0);
    if logits != [] {
      var n := |logits| - 1;
      var before := logits[..n];
      TotalIs(p, before, max);
      if logits[n].Real? {
        PartIs(p, logits[n], logits[n], max);
        AddTerm(p.round, Total(p, before, max), Part(p, logits[n], max), n);
      }
      forall i | 0 <= i < |logits| && logits[i].Real?
        ensures PartFits(p, logits[i], max, Total(p, logits, max).value)
      {
        if i < n { assert before[i] == logits[i] && PartFits(p, before[i], max, Total(p, before, max).value); }
      }
    }
  }

  /** The second refusal never happens: the largest logit contributes one, and at most sixteen terms are added. */
  lemma TotalInRange(p: Platform, logits: seq<Value>)
    requires ArithmeticOk(p) && |logits| <= 16 && FiniteOrAbsent(logits) && SomeReal(logits)
    ensures TotalFits(p, logits, LargestOf(logits)) && TotalOf(p, logits).Real?
    ensures 1.0 <= TotalOf(p, logits).value <= 16.0
  {
    hide RoundingOk, ExponentialOk, Part, Plus, Total;
    var max := LargestOf(logits);
    LargestIs(logits);
    LargestIsReal(logits);
    TotalIs(p, logits, max);
    LargestPart(p, max);
    var i :| 0 <= i < |logits| && logits[i] == max;
    assert PartFits(p, logits[i], max, TotalOf(p, logits).value);
  }

  // ---------- the shares ----------

  lemma QuotientSign(a: real, t: real)
    requires a >= 0.0 && t > 0.0
    ensures a / t >= 0.0
  {
  }

  lemma QuotientOrder(a: real, b: real, t: real)
    requires a <= b && t > 0.0
    ensures a / t <= b / t
  {
    QuotientSign(b - a, t);
    assert (b - a) / t == b / t - a / t;
  }

  lemma Quotients(a: real, b: real, t: real)
    requires 0.0 <= a <= b <= t && 1.0 <= t <= 16.0
    ensures 0.0 <= a / t <= b / t <= 1.0 && 1.0 / 16.0 <= 1.0 / t
  {
    QuotientSign(a, t);
    QuotientOrder(a, b, t);
    QuotientOrder(b, t, t);
    QuotientOrder(t / 16.0, 1.0, t);
    assert t / t == 1.0 && (t / 16.0) / t == 1.0 / 16.0;
  }

  /** Dividing terms by their total: the results lie between zero and one and keep the order. */
  lemma DividedTerms(round: Rounding, a: Value, b: Value, total: Value)
    requires RoundingOk(round) && a.Real? && b.Real? && total.Real?
    requires 0.0 <= a.value <= b.value <= total.value && 1.0 <= total.value <= 16.0
    ensures var x, y := Over(round, a, total), Over(round, b, total);
      x.Real? && y.Real? && 0.0 <= x.value <= y.value <= 1.0
    ensures a == ZERO ==> Over(round, a, total) == ZERO
    ensures b == ONE ==> Over(round, b, total).value >= 1.0 / 16.0
  {
    hide RoundingOk;
    Quotients(a.value, b.value, total.value);
    RoundKeepsOrder(round, 0.0, a.value / total.value);
    RoundKeepsOrder(round, a.value / total.value, b.value / total.value);
    RoundKeepsOrder(round, b.value / total.value, 1.0);
    SmallIsExact(round, 0);
    SmallIsExact(round, 1);
    RoundKeepsOrder(round, 1.0 / 16.0, 1.0 / total.value);
    assert 0.0 / total.value == 0.0;
  }

  /** One share, and its place beside another with a logit no smaller. */
  lemma ShareIs(p: Platform, logits: seq<Value>, i: nat, j: nat)
    requires ArithmeticOk(p) && |logits| <= 16 && FiniteOrAbsent(logits) && SomeReal(logits)
    requires i < |logits| && j < |logits| && logits[i].Real? && logits[j].Real? && AtMost(logits[i], logits[j])
    ensures var x, y := Shares(p, logits)[i], Shares(p, logits)[j];
      && x.Real? && y.Real? && 0.0 <= x.value <= y.value <= 1.0
      && (logits[j] == LargestOf(logits) ==> y.value >= 1.0 / 16.0)
  {
    hide RoundingOk, ExponentialOk, Part, Plus, Total, Over, LargestOf;
    var max, total := LargestOf(logits), TotalOf(p, logits);
    LargestIs(logits);
    LargestIsReal(logits);
    TotalInRange(p, logits);
    PartIs(p, logits[i], logits[j], max);
    LargestPart(p, max);
    assert PartFits(p, logits[j], max, total.value);
    DividedTerms(p.round, Part(p, logits[i], max), Part(p, logits[j], max), total);
  }

  lemma AbsentShare(p: Platform, logits: seq<Value>, i: nat)
    requires ArithmeticOk(p) && |logits| <= 16 && FiniteOrAbsent(logits) && SomeReal(logits)
    requires i < |logits| && !logits[i].Real?
    ensures Shares(p, logits)[i] == ZERO
  {
    hide RoundingOk, ExponentialOk, Plus, Total, Over, LargestOf;
    TotalInRange(p, logits);
    DividedTerms(p.round, ZERO, ZERO, TotalOf(p, logits));
  }

  /**
   * What the probabilities are worth, in the floating point they are computed in: each lies between zero and
   * one, that of a layout without a reading is zero, a larger logit never has the smaller one, and the
   * largest has at least a sixteenth.
   */
  lemma SharesAreProbabilities(p: Platform, logits: seq<Value>)
    requires ArithmeticOk(p) && |logits| <= 16 && FiniteOrAbsent(logits) && SomeReal(logits)
    ensures forall i :: 0 <= i < |logits| ==>
      Shares(p, logits)[i].Real? && 0.0 <= Shares(p, logits)[i].value <= 1.0
    ensures forall i :: 0 <= i < |logits| && logits[i] == LOWEST ==> Shares(p, logits)[i] == ZERO
    ensures forall i, j :: 0 <= i < |logits| && 0 <= j < |logits| && AtMost(logits[i], logits[j]) ==>
      Shares(p, logits)[i].value <= Shares(p, logits)[j].value
    ensures forall i :: 0 <= i < |logits| && logits[i] == LargestOf(logits) ==>
      Shares(p, logits)[i].value >= 1.0 / 16.0
  {
    hide ArithmeticOk, SomeReal, Shares, LargestOf;
    LargestIsReal(logits);
    forall i | 0 <= i < |logits|
      ensures Shares(p, logits)[i].Real? && 0.0 <= Shares(p, logits)[i].value <= 1.0
      ensures logits[i] == LOWEST ==> Shares(p, logits)[i] == ZERO
      ensures logits[i] == LargestOf(logits) ==> Shares(p, logits)[i].value >= 1.0 / 16.0
    {
      if logits[i].Real? { ShareIs(p, logits, i, i); } else { AbsentShare(p, logits, i); }
    }
    forall i, j | 0 <= i < |logits| && 0 <= j < |logits| && AtMost(logits[i], logits[j])
      ensures Shares(p, logits)[i].value <= Shares(p, logits)[j].value
    {
      if logits[i].Real? { ShareIs(p, logits, i, j); }
    }
  }

  // ---------- probabilities ----------

  /** No reading has a logit that overflowed. */
  ghost predicate Bearable(candidates: seq<Option<Candidate>>, logits: seq<Value>)
    requires |candidates| == |logits|
  {
    forall i :: 0 <= i < |logits| && candidates[i].Some? ==> logits[i].Real?
  }

  method AnyOverflow(candidates: seq<Option<Candidate>>, logits: seq<Value>) returns (any: bool)
    requires |candidates| == |logits|
    ensures any <==> !Bearable(candidates, logits)
  {
    for i := 0 to |logits|
      invariant forall k :: 0 <= k < i && candidates[k].Some? ==> logits[k].Real?
    {
      if candidates[i].Some? && !logits[i].Real? { return true; }
    }
    return false;
  }

  /**
   * `probabilities`: there are some exactly when there is one candidate for each layout, the typed layout has
   * one, and no logit of a candidate overflowed; and then they are the shares of the logits.
   */
  method Probabilities(table: seq<bv32>, m: Model, p: Platform, candidates: seq<Option<Candidate>>, typed: nat,
                       previous: seq<string>)
    returns (r: Option<seq<Value>>)
    requires |table| == 256 && Crc32.IsTable(table) && Sized(m) && ArithmeticOk(p)
    ensures r.Some? <==>
      && |candidates| == |m.languages| && typed < |candidates| && candidates[typed].Some?
      && Bearable(candidates, Logits(m, p, candidates, typed, Context(m, p, previous)))
    ensures r.Some? ==>
      var logits := Logits(m, p, candidates, typed, Context(m, p, previous));
      FiniteOrAbsent(logits) && SomeReal(logits) && r.value == Shares(p, logits)
  {
    hide Sized, Crc32.IsTable, Context, TotalOf, ArithmeticOk, Shares, TotalFits, Bearable, Logits, FiniteOrAbsent,
      SomeReal;
    if |candidates| != |m.languages| || typed >= |candidates| || candidates[typed].None? { return None; }
    SizesOf(m);
    var context := FindContext(m, p, previous);
    var logits := FindLogits(table, m, p, candidates, typed, context[..]);
    var overflow := AnyOverflow(candidates, logits);
    if overflow { return None; }
    BearableLogits(candidates, logits, typed);
    TotalInRange(p, logits);
    r := Softmax(p, logits);
  }

  lemma BearableLogits(candidates: seq<Option<Candidate>>, logits: seq<Value>, typed: nat)
    requires |candidates| == |logits| && Bearable(candidates, logits)
    requires forall i :: 0 <= i < |logits| && candidates[i].None? ==> logits[i] == LOWEST
    requires typed < |candidates| && candidates[typed].Some?
    ensures FiniteOrAbsent(logits) && SomeReal(logits)
  {
    assert logits[typed].Real?;
  }

  // ---------- an input that is refused ----------

  /** The smallest model: two languages, tables of zeros, and a hidden unit whose output overflows. */
  function OverflowingModel(): Model
  {
    Model(["en", "ru"], Shape(1, 1, 1, 1, 1, 0), [0], [0], [0, 0, 0, 0, 0, 0, 0, 0, 0, 0], [HUGE], [HUGE], 0)
  }

  function ExamplePlatform(): Platform
  {
    Platform(Bounded, AtZeroOnly, (s: string) => s, (c: char) => [0 as bv8])
  }

  const EXAMPLE: seq<Option<Candidate>> := [Some(Candidate("", false, false)), None]

  lemma OverflowingIsSized()
    ensures Sized(OverflowingModel()) && Width(OverflowingModel()) == 10
  {
    var m := OverflowingModel();
    assert m.languages[0] != m.languages[1] by { assert "en"[0] != "ru"[0]; }
    assert LayoutModel.Finite(0) && LayoutModel.Finite(HUGE);
  }

  lemma AllZeroFloats(fs: seq<Float>)
    requires forall i :: 0 <= i < |fs| ==> fs[i] == 0
    ensures forall i :: 0 <= i < |fs| ==> FromBits(fs[i]) == ZERO
  {
  }

  lemma {:induction false} ZeroDot(p: Platform, weights: seq<Float>, xs: seq<Value>)
    requires p.round == Bounded && |weights| == |xs|
    requires (forall i :: 0 <= i < |xs| ==> xs[i].Real?) && forall i :: 0 <= i < |weights| ==> weights[i] == 0
    ensures Dot(p, weights, xs) == ZERO
  {
    if xs != [] {
      var n := |xs| - 1;
      ZeroDot(p, weights[..n], xs[..n]);
      AllZeroFloats(weights);
    }
  }

  lemma NoRows()
    ensures LayoutScoring.Rows(OverflowingModel(), ExamplePlatform(), EXAMPLE[0].value, 0) == []
  {
    var padded := "<" + "" + ">";
    assert padded == "<>";
    assert WindowsOf(padded, 1, 0) == [];
    assert WindowsOf(padded, 1, 1) == [];
    assert WindowsOf(padded, 1, 2) == [];
    assert AllWindows(padded, 0) == [];
    assert AllWindows(padded, 1) == [];
  }

  lemma ExampleFeatures() returns (features: seq<Value>)
    ensures Sized(OverflowingModel()) && |features| == Width(OverflowingModel())
    ensures var context := Context(OverflowingModel(), ExamplePlatform(), []);
      features == Features(OverflowingModel(), ExamplePlatform(), EXAMPLE[0].value, 0, 0, "", context)
    ensures forall i :: 0 <= i < |features| ==> features[i].Real?
  {
    var m, p := OverflowingModel(), ExamplePlatform();
    OverflowingIsSized();
    NoRows();
    var context := Context(m, p, []);
    features := Features(m, p, EXAMPLE[0].value, 0, 0, "", context);
    var mean, dense := Mean(m, p, []), DenseFeatures(EXAMPLE[0].value, 0, 0, "", context);
    assert features == mean + dense;
    assert forall i :: 0 <= i < |mean| ==> mean[i].Real?;
    assert forall i :: 0 <= i < |context| ==> context[i] == ZERO;
    assert forall i :: 0 <= i < |OneHot(0, 2)| ==> OneHot(0, 2)[i].Real?;
    assert forall i :: 0 <= i < |dense| ==> dense[i].Real?;
  }

  /** Its hidden unit is huge, and the product with its weight is out of range. */
  lemma HugeLogit(features: seq<Value>)
    requires Sized(OverflowingModel()) && |features| == Width(OverflowingModel())
    requires forall i :: 0 <= i < |features| ==> features[i].Real?
    ensures Logit(OverflowingModel(), ExamplePlatform(), features) == Infinite(false)
  {
    hide Sized, FromBits;
    var m, p := OverflowingModel(), ExamplePlatform();
    HugeSquare();
    AllZeroFloats([0]);
    UnitInside(m, 0);
    assert UnitWeights(m, 0) == m.hiddenWeight;
    ZeroDot(p, m.hiddenWeight, features);
    var unit := Activation(m, p, features, 0);
    assert unit == FromBits(HUGE);
    assert Activations(m, p, features) == [unit];
    DotOne(p, HUGE, unit);
    assert m.outputWeight == [HUGE] && [0][0] == 0;
  }

  lemma DotOne(p: Platform, weight: Float, x: Value)
    ensures Dot(p, [weight], [x]) == Plus(p.round, ZERO, Times(p.round, FromBits(weight), x))
  {
    hide FromBits;
    assert [weight][..0] == [] && [x][..0] == [];
  }

  /** Everything fits and the typed layout has a reading, but its logit overflows: there are no probabilities. */
  lemma OverflowIsRefused()
    ensures var m, p := OverflowingModel(), ExamplePlatform();
      && Sized(m) && ArithmeticOk(p) && |EXAMPLE| == |m.languages| && EXAMPLE[0].Some?
      && !Bearable(EXAMPLE, Logits(m, p, EXAMPLE, 0, Context(m, p, [])))
  {
    OverflowingIsSized();
    BoundedIsOk();
    var features := ExampleFeatures();
    HugeLogit(features);
  }
}
