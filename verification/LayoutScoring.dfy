/**
 * Scoring with a layout model: the features of each reading, the hidden units, and the logits, in the
 * floating point of the source (src/layout_model.rs).
 */
module LayoutScoring {
  import opened Wrappers
  import opened Strings
  import opened LayoutModel
  import opened FloatNumbers
  import Crc32

  /** What the platform supplies: how results are rounded, the exponential, lower case and UTF-8. */
  datatype Platform = Platform(
    round: Rounding, exp: Value -> Value, lower: string -> string, utf8: char -> seq<bv8>)

  /** One layout's reading of the typed keys. */
  datatype Candidate = Candidate(text: string, inDictionary: bool, inShortList: bool)

  // ---------- what scoring computes ----------

  function Signed(b: Byte): Value
  {
    Real(if b < 128 then b as real else (b - 256) as real)
  }

  /** A byte of the embedding is a number in two's complement. */
  lemma SignedIs(b: Byte)
    ensures exists n: int :: -128 <= n <= 127 && n % 256 == b && Signed(b) == Real(n as real)
  {
    var n := if b < 128 then b else b - 256;
    assert n % 256 == b;
  }

  function Flag(b: bool): Value
  {
    if b then ONE else ZERO
  }

  function HalfTo(age: nat): real
  {
    if age == 0 then 1.0 else 0.5 * HalfTo(age - 1)
  }

  lemma {:induction false} HalvesAre(age: nat)
    ensures HalfTo(age) == Pow2(-(age as int))
  {
    if age == 0 {
      Pow2Zero();
    } else {
      HalvesAre(age - 1);
      Pow2Next(-(age as int));
    }
  }

  /** The weight of a language among the last `upto` ones: half as much for each step back. */
  function Weight(p: Platform, language: string, previous: seq<string>, upto: nat): Value
    requires upto <= |previous|
  {
    if upto == 0 then ZERO
    else
      var before := Weight(p, language, previous, upto - 1);
      if previous[|previous| - upto] == language then Plus(p.round, before, Real(HalfTo(upto - 1))) else before
  }

  function Kept(m: Model, previous: seq<string>): (n: nat)
    ensures n <= |previous| && n <= m.shape.context
  {
    if |previous| <= m.shape.context then |previous| else m.shape.context
  }

  /** The last languages count, as many as the model looks back or there are. */
  lemma KeptIs(m: Model, previous: seq<string>)
    ensures Kept(m, previous) == |previous| || Kept(m, previous) == m.shape.context
  {
  }

  function Context(m: Model, p: Platform, previous: seq<string>): (c: seq<Value>)
    ensures |c| == |m.languages|
  {
    seq(|m.languages|, i requires 0 <= i < |m.languages| => Weight(p, m.languages[i], previous, Kept(m, previous)))
  }

  ghost predicate AreRows(m: Model, ids: seq<nat>)
  {
    forall i :: 0 <= i < |ids| ==> ids[i] < m.shape.buckets
  }

  lemma SlotInside(row: nat, buckets: nat, dim: nat, slot: nat)
    requires row < buckets && slot < dim
    ensures 0 <= row * dim && row * dim + slot < (row + 1) * dim <= buckets * dim
  {
    assert (row + 1) * dim <= buckets * dim;
  }

  /** One slot of one row, scaled. */
  function Cell(m: Model, p: Platform, row: nat, slot: nat): Value
    requires |m.scales| == m.shape.buckets && |m.embeddings| == m.shape.buckets * m.shape.dim
    requires row < m.shape.buckets && slot < m.shape.dim
  {
    SlotInside(row, m.shape.buckets, m.shape.dim, slot);
    Times(p.round, Signed(m.embeddings[row * m.shape.dim + slot]), FromBits(m.scales[row]))
  }

  /** One slot of the rows, each scaled, summed up. */
  ghost function RowSum(m: Model, p: Platform, ids: seq<nat>, slot: nat): Value
    requires Sized(m) && slot < m.shape.dim && AreRows(m, ids)
  {
    if ids == [] then ZERO
    else
      var n := |ids| - 1;
      Plus(p.round, RowSum(m, p, ids[..n], slot), Cell(m, p, ids[n], slot))
  }

  /** The mean of the rows, slot by slot. */
  ghost function Mean(m: Model, p: Platform, ids: seq<nat>): (v: seq<Value>)
    requires Sized(m) && AreRows(m, ids)
    ensures |v| == m.shape.dim
  {
    seq(m.shape.dim, slot requires 0 <= slot < m.shape.dim =>
      if ids == [] then ZERO else Over(p.round, RowSum(m, p, ids, slot), Real(|ids| as real)))
  }

  function OneHot(index: nat, count: nat): (v: seq<Value>)
    ensures |v| == count
  {
    seq(count, i => Flag(i == index))
  }

  /** The features after the mean, in the order of the training. */
  function DenseFeatures(c: Candidate, index: nat, typed: nat, typedText: string, context: seq<Value>): (v: seq<Value>)
    requires index < |context|
    ensures |v| == DenseWidth(|context|)
  {
    [Flag(c.inDictionary), Flag(c.inShortList), Flag(index == typed), Flag(c.text == typedText), context[index]]
    + OneHot(index, |context|) + context
  }

  function Dot(p: Platform, weights: seq<Float>, xs: seq<Value>): Value
    requires |weights| == |xs|
  {
    if xs == [] then ZERO
    else
      var n := |xs| - 1;
      Plus(p.round, Dot(p, weights[..n], xs[..n]), Times(p.round, FromBits(weights[n]), xs[n]))
  }

  function Rectified(x: Value): Value
  {
    MaxOf(x, ZERO)
  }

  lemma UnitInside(m: Model, unit: nat)
    requires Sized(m) && unit < m.shape.hidden
    ensures 0 <= unit * Width(m) <= (unit + 1) * Width(m) <= |m.hiddenWeight|
    ensures (unit + 1) * Width(m) == unit * Width(m) + Width(m)
  {
    SlotInside(unit, m.shape.hidden, Width(m), 0);
  }

  /** The slice of the weights that belongs to one hidden unit. */
  ghost function UnitWeights(m: Model, unit: nat): (ws: seq<Float>)
    requires Sized(m) && unit < m.shape.hidden
    ensures |ws| == Width(m)
  {
    UnitInside(m, unit);
    m.hiddenWeight[unit * Width(m)..(unit + 1) * Width(m)]
  }

  ghost function Activation(m: Model, p: Platform, features: seq<Value>, unit: nat): Value
    requires Sized(m) && |features| == Width(m) && unit < m.shape.hidden
  {
    Rectified(Plus(p.round, Dot(p, UnitWeights(m, unit), features), FromBits(m.hiddenBias[unit])))
  }

  ghost function Activations(m: Model, p: Platform, features: seq<Value>): (v: seq<Value>)
    requires Sized(m) && |features| == Width(m)
    ensures |v| == m.shape.hidden
  {
    seq(m.shape.hidden, unit requires 0 <= unit < m.shape.hidden => Activation(m, p, features, unit))
  }

  ghost function Features(m: Model, p: Platform, c: Candidate, index: nat, typed: nat, typedText: string,
                          context: seq<Value>): (v: seq<Value>)
    requires Sized(m) && |context| == |m.languages| && index < |context|
    ensures |v| == Width(m)
  {
    Mean(m, p, Rows(m, p, c, index)) + DenseFeatures(c, index, typed, typedText, context)
  }

  /** The rows of the table for the n-grams of a reading. */
  function Rows(m: Model, p: Platform, c: Candidate, index: nat): (ids: seq<nat>)
    requires index < 16 && m.shape.buckets > 0
    ensures AreRows(m, ids)
  {
    var padded := "<" + p.lower(c.text) + ">";
    IdsOf(p.utf8, index, m.shape.buckets, First(AllWindows(padded, m.shape.maxN), m.shape.maxNgrams))
  }

  ghost function Logit(m: Model, p: Platform, features: seq<Value>): Value
    requires Sized(m) && |features| == Width(m)
  {
    Plus(p.round, Dot(p, m.outputWeight, Activations(m, p, features)), FromBits(m.outputBias))
  }

  /** The logit of each reading; layouts without one have the lowest. */
  ghost function Logits(m: Model, p: Platform, candidates: seq<Option<Candidate>>, typed: nat, context: seq<Value>)
    : (ls: seq<Value>)
    requires Sized(m) && |candidates| == |context| == |m.languages|
    requires typed < |candidates| && candidates[typed].Some?
    ensures |ls| == |candidates| && forall i :: 0 <= i < |ls| && candidates[i].None? ==> ls[i] == LOWEST
  {
    seq(|candidates|, i requires 0 <= i < |candidates| =>
      if candidates[i].None? then LOWEST
      else Logit(m, p, Features(m, p, candidates[i].value, i, typed, candidates[typed].value.text, context)))
  }

  // ---------- the loops ----------

  method FindContext(m: Model, p: Platform, previous: seq<string>) returns (context: array<Value>)
    requires Sized(m)
    ensures fresh(context) && context[..] == Context(m, p, previous)
  {
    var count := |m.languages|;
    context := new Value[count](_ => ZERO);
    for age := 0 to Kept(m, previous)
      invariant forall i :: 0 <= i < count ==> context[i] == Weight(p, m.languages[i], previous, age)
    {
      var language := previous[|previous| - 1 - age];
      var index := IndexOf(m, language);
      if index.Some? {
        context[index.value] := Plus(p.round, context[index.value], Real(HalfTo(age)));
      }
    }
  }

  method IndexOf(m: Model, language: string) returns (index: Option<nat>)
    requires Sized(m)
    ensures index.None? ==> language !in m.languages
    ensures index.Some? ==> index.value < |m.languages| && m.languages[index.value] == language
    ensures index.Some? ==> forall i :: 0 <= i < |m.languages| && m.languages[i] == language ==> i == index.value
  {
    for i := 0 to |m.languages|
      invariant forall k :: 0 <= k < i ==> m.languages[k] != language
    {
      if m.languages[i] == language { return Some(i); }
    }
    return None;
  }

  /** Adds one scaled row to the features. */
  method AddRow(m: Model, p: Platform, features: array<Value>, ghost had: seq<nat>, row: nat)
    requires Sized(m) && features.Length == Width(m) && row < m.shape.buckets && AreRows(m, had)
    requires forall slot :: 0 <= slot < m.shape.dim ==> features[slot] == RowSum(m, p, had, slot)
    modifies features
    ensures AreRows(m, had + [row])
    ensures forall slot :: 0 <= slot < m.shape.dim ==> features[slot] == RowSum(m, p, had + [row], slot)
    ensures features[m.shape.dim..] == old(features[m.shape.dim..])
  {
    hide Sized, RowSum, Signed;
    SizesOf(m);
    RowSumMore(m, p, had, row, 0);
    var scale := FromBits(m.scales[row]);
    for slot := 0 to m.shape.dim
      invariant forall s :: 0 <= s < slot ==> features[s] == RowSum(m, p, had + [row], s)
      invariant forall s :: slot <= s < m.shape.dim ==> features[s] == RowSum(m, p, had, s)
      invariant features[m.shape.dim..] == old(features[m.shape.dim..])
    {
      SlotInside(row, m.shape.buckets, m.shape.dim, slot);
      RowSumMore(m, p, had, row, slot);
      var term := Times(p.round, Signed(m.embeddings[row * m.shape.dim + slot]), scale);
      features[slot] := Plus(p.round, features[slot], term);
    }
  }

  lemma SizesOf(m: Model)
    requires Sized(m)
    ensures |m.scales| == m.shape.buckets && |m.embeddings| == m.shape.buckets * m.shape.dim
    ensures |m.hiddenBias| == m.shape.hidden && |m.outputWeight| == m.shape.hidden && |m.languages| <= 16
    ensures m.shape.dim > 0 && m.shape.buckets > 0
  {
  }

  lemma RowSumMore(m: Model, p: Platform, had: seq<nat>, row: nat, slot: nat)
    requires Sized(m) && row < m.shape.buckets && AreRows(m, had) && slot < m.shape.dim
    ensures AreRows(m, had + [row])
      && RowSum(m, p, had + [row], slot) == Plus(p.round, RowSum(m, p, had, slot), Cell(m, p, row, slot))
  {
    hide Sized, Cell;
    assert (had + [row])[..|had|] == had;
  }

  method DivideFirst(p: Platform, features: array<Value>, dim: nat, used: Value)
    requires dim <= features.Length
    modifies features
    ensures forall s :: 0 <= s < dim ==> features[s] == Over(p.round, old(features[s]), used)
    ensures features[dim..] == old(features[dim..])
  {
    hide Over;
    for slot := 0 to dim
      invariant forall s :: 0 <= s < slot ==> features[s] == Over(p.round, old(features[s]), used)
      invariant features[slot..] == old(features[slot..])
    {
      assert features[slot] == old(features[slot]);
      features[slot] := Over(p.round, features[slot], used);
    }
  }

  /** The scaled rows, added up one after the other. */
  method AddRows(m: Model, p: Platform, features: array<Value>, ids: seq<nat>)
    requires Sized(m) && features.Length == Width(m) && AreRows(m, ids)
    requires forall k :: 0 <= k < features.Length ==> features[k] == ZERO
    modifies features
    ensures forall slot :: 0 <= slot < m.shape.dim ==> features[slot] == RowSum(m, p, ids, slot)
    ensures forall k :: m.shape.dim <= k < features.Length ==> features[k] == ZERO
  {
    hide Sized;
    for k := 0 to |ids|
      invariant AreRows(m, ids[..k])
      invariant forall slot :: 0 <= slot < m.shape.dim ==> features[slot] == RowSum(m, p, ids[..k], slot)
      invariant forall s :: m.shape.dim <= s < features.Length ==> features[s] == ZERO
    {
      AddRow(m, p, features, ids[..k], ids[k]);
      assert ids[..k] + [ids[k]] == ids[..k + 1];
    }
    assert ids[..|ids|] == ids;
  }

  /** The first slots become the mean of the rows, all others zero. */
  method FillMean(m: Model, p: Platform, features: array<Value>, ids: seq<nat>)
    requires Sized(m) && features.Length == Width(m) && AreRows(m, ids)
    modifies features
    ensures features[..m.shape.dim] == Mean(m, p, ids)
    ensures forall k :: m.shape.dim <= k < features.Length ==> features[k] == ZERO
  {
    hide Sized, Over, Plus, Times;
    SizesOf(m);
    forall slot | 0 <= slot < features.Length { features[slot] := ZERO; }
    if ids != [] {
      AddRows(m, p, features, ids);
      DivideFirst(p, features, m.shape.dim, Real(|ids| as real));
    }
  }

  method FillFlags(features: array<Value>, dim: nat, c: Candidate, isTyped: bool, isTypedText: bool,
                   weight: Value)
    requires dim + 5 <= features.Length
    modifies features
    ensures features[..dim + 5] == old(features[..dim])
      + [Flag(c.inDictionary), Flag(c.inShortList), Flag(isTyped), Flag(isTypedText), weight]
    ensures forall k :: dim + 5 <= k < features.Length ==> features[k] == old(features[k])
  {
    features[dim] := Flag(c.inDictionary);
    features[dim + 1] := Flag(c.inShortList);
    features[dim + 2] := Flag(isTyped);
    features[dim + 3] := Flag(isTypedText);
    features[dim + 4] := weight;
  }

  /** Zeros with a one are the one-hot part, and zeros. */
  lemma Zeros(tail: seq<Value>, index: nat, count: nat)
    requires index < count <= |tail| && forall k :: 0 <= k < |tail| ==> tail[k] == ZERO
    ensures tail[index := ONE][..count] == OneHot(index, count)
  {
    forall k | 0 <= k < count
      ensures tail[index := ONE][..count][k] == OneHot(index, count)[k]
    {
      assert OneHot(index, count)[k] == Flag(k == index);
    }
  }

  method CopyInto(target: array<Value>, at: nat, values: seq<Value>)
    requires at + |values| == target.Length
    modifies target
    ensures target[..] == old(target[..at]) + values
  {
    for i := 0 to |values|
      invariant target[..at + i] == old(target[..at]) + values[..i]
    {
      target[at + i] := values[i];
    }
    assert values[..|values|] == values;
  }

  lemma InTail(head: seq<Value>, tail: seq<Value>, index: nat, count: nat)
    requires index < count <= |tail|
    ensures (head + tail)[|head| + index := ONE][..|head| + count] == head + tail[index := ONE][..count]
  {
  }

  /** The one-hot part relies on the zeros written before; the context follows it. */
  method FillTail(features: array<Value>, at: nat, index: nat, context: seq<Value>)
    requires features.Length == at + |context| + |context| && index < |context|
    requires forall k :: at <= k < features.Length ==> features[k] == ZERO
    modifies features
    ensures features[..] == old(features[..at]) + OneHot(index, |context|) + context
  {
    hide OneHot;
    ghost var all, head, tail := features[..], features[..at], features[at..];
    features[at + index] := ONE;
    assert features[..] == all[at + index := ONE] && all == head + tail;
    InTail(head, tail, index, |context|);
    Zeros(tail, index, |context|);
    CopyInto(features, at + |context|, context);
  }

  lemma DenseParts(mean: seq<Value>, c: Candidate, index: nat, typed: nat, typedText: string, context: seq<Value>)
    requires index < |context|
    ensures mean
      + [Flag(c.inDictionary), Flag(c.inShortList), Flag(index == typed), Flag(c.text == typedText), context[index]]
            + OneHot(index, |context|) + context
            == mean + DenseFeatures(c, index, typed, typedText, context)
  {
    hide OneHot, Flag;
  }

  /** The slots after the mean. */
  method FillDense(m: Model, features: array<Value>, c: Candidate, index: nat, typed: nat, typedText: string,
                   context: seq<Value>)
    requires features.Length == Width(m) && |context| == |m.languages| && index < |context|
    requires forall k :: m.shape.dim <= k < features.Length ==> features[k] == ZERO
    modifies features
    ensures features[..] == old(features[..m.shape.dim]) + DenseFeatures(c, index, typed, typedText, context)
  {
    hide OneHot, DenseFeatures, Flag;
    ghost var mean := features[..m.shape.dim];
    FillFlags(features, m.shape.dim, c, index == typed, c.text == typedText, context[index]);
    FillTail(features, m.shape.dim + 5, index, context);
    DenseParts(mean, c, index, typed, typedText, context);
  }

  /** The weighted sum of one loop over two zipped lists. */
  method Sum(p: Platform, weights: seq<Float>, xs: seq<Value>) returns (sum: Value)
    requires |weights| == |xs|
    ensures sum == Dot(p, weights, xs)
  {
    sum := ZERO;
    for k := 0 to |xs|
      invariant sum == Dot(p, weights[..k], xs[..k])
    {
      assert weights[..k + 1][..k] == weights[..k] && xs[..k + 1][..k] == xs[..k];
      sum := Plus(p.round, sum, Times(p.round, FromBits(weights[k]), xs[k]));
    }
    assert weights[..|xs|] == weights && xs[..|xs|] == xs;
  }

  /** The hidden units: each takes its own slice of the weights. */
  method FillHidden(m: Model, p: Platform, features: seq<Value>, hidden: array<Value>)
    requires Sized(m) && |features| == Width(m) && hidden.Length == m.shape.hidden
    modifies hidden
    ensures hidden[..] == Activations(m, p, features)
  {
    hide Sized, Dot;
    SizesOf(m);
    for unit := 0 to hidden.Length
      invariant forall u :: 0 <= u < unit ==> hidden[u] == Activation(m, p, features, u)
    {
      UnitInside(m, unit);
      var weights := m.hiddenWeight[unit * Width(m)..(unit + 1) * Width(m)];
      assert weights == UnitWeights(m, unit);
      var sum := Sum(p, weights, features);
      hidden[unit] := Rectified(Plus(p.round, sum, FromBits(m.hiddenBias[unit])));
    }
  }

  /** The logits of all readings, one after the other in the same two buffers. */
  method FindLogits(table: seq<bv32>, m: Model, p: Platform, candidates: seq<Option<Candidate>>, typed: nat,
      context: seq<Value>)
    returns (logits: seq<Value>)
    requires |table| == 256 && Crc32.IsTable(table) && Sized(m) && |candidates| == |context| == |m.languages|
    requires typed < |candidates| && candidates[typed].Some?
    ensures logits == Logits(m, p, candidates, typed, context)
  {
    hide Sized, Crc32.IsTable, IdsOf, First, AllWindows, Mean, DenseFeatures, Activations, Dot, Rows;
    SizesOf(m);
    var typedText := candidates[typed].value.text;
    var features, hidden := new Value[Width(m)], new Value[m.shape.hidden];
    logits := [];
    for index := 0 to |candidates|
      invariant logits == Logits(m, p, candidates, typed, context)[..index]
    {
      if candidates[index].None? {
        logits := logits + [LOWEST];
      } else {
        var c := candidates[index].value;
        var ids := NgramIds(table, p.utf8, p.lower, m, index, c.text);
        RowsAre(m, p, c, index, ids);
        FillMean(m, p, features, ids);
        FillDense(m, features, c, index, typed, typedText, context);
        FillHidden(m, p, features[..], hidden);
        var sum := Sum(p, m.outputWeight, hidden[..]);
        logits := logits + [Plus(p.round, sum, FromBits(m.outputBias))];
      }
    }
  }

  lemma RowsAre(m: Model, p: Platform, c: Candidate, index: nat, ids: seq<nat>)
    requires index < 16 && m.shape.buckets > 0
    requires var padded := "<" + p.lower(c.text) + ">";
      ids == IdsOf(p.utf8, index, m.shape.buckets, First(AllWindows(padded, m.shape.maxN), m.shape.maxNgrams))
    ensures ids == Rows(m, p, c, index) && AreRows(m, ids)
  {
    hide IdsOf, First, AllWindows;
  }
}
