/** The file of the layout model, and what scoring reads of it (src/layout_model.rs). */
module LayoutModel {
  import opened Wrappers
  import opened Strings
  import Crc32

  type Bytes = seq<Byte>

  /** An `f32` by its bits; its value is not part of the model. */
  type Float = nat

  predicate Finite(f: Float)
  {
    f < 0x1_0000_0000 && (f / 0x80_0000) % 256 != 255
  }

  /** Without its sign, a finite `f32` lies below the bits of infinity. */
  ghost predicate IsFinite(f: Float)
  {
    f < 4294967296 && f % 2147483648 < 2139095040
  }

  lemma FiniteIff(f: Float)
    ensures Finite(f) <==> IsFinite(f)
  {
    var sign, size := f / 2147483648, f % 2147483648;
    assert f / 0x80_0000 == 256 * sign + size / 0x80_0000;
  }

  ghost predicate AllFinite(fs: seq<Float>)
  {
    forall f :: f in fs ==> IsFinite(f)
  }

  datatype ModelError = Format | Unsupported

  const MAGIC: Bytes := [0x41, 0x4B, 0x4C, 0x4D]

  // ---------- numbers ----------

  function LittleEndian(n: nat, width: nat): (b: Bytes)
    ensures |b| == width
  {
    if width == 0 then [] else [n % 256] + LittleEndian(n / 256, width - 1)
  }

  function Number(b: Bytes): nat
  {
    if b == [] then 0 else b[0] + 256 * Number(b[1..])
  }

  /** How many numbers `width` bytes can hold. */
  function Limit(width: nat): nat
  {
    if width == 0 then 1 else 256 * Limit(width - 1)
  }

  lemma {:induction false} NumberIsLittleEndian(b: Bytes)
    ensures LittleEndian(Number(b), |b|) == b && Number(b) < Limit(|b|)
  {
    if b != [] {
      NumberIsLittleEndian(b[1..]);
      var n := Number(b);
      assert n % 256 == b[0] && n / 256 == Number(b[1..]);
    }
  }

  lemma {:induction false} LittleEndianIsNumber(n: nat, width: nat)
    requires n < Limit(width)
    ensures Number(LittleEndian(n, width)) == n
  {
    if width > 0 {
      LittleEndianIsNumber(n / 256, width - 1);
      assert LittleEndian(n, width)[1..] == LittleEndian(n / 256, width - 1);
    }
  }

  lemma Limits()
    ensures Limit(2) == 0x1_0000 && Limit(4) == 0x1_0000_0000
  {
    assert Limit(1) == 256 * Limit(0) && Limit(3) == 256 * Limit(2);
  }

  // ---------- the file ----------

  datatype Shape = Shape(buckets: nat, dim: nat, hidden: nat, maxN: nat, maxNgrams: nat, context: nat)

  predicate ShapeOk(s: Shape)
  {
    && 1 <= s.buckets <= 0x10_0000 && 1 <= s.dim <= 64 && 1 <= s.hidden <= 256
    && 1 <= s.maxN <= 8 && 1 <= s.maxNgrams < 256 && s.context <= 16
  }

  /** The bounds of the header, each in its own unit. */
  ghost predicate WellShaped(s: Shape)
  {
    && 0 < s.buckets && s.buckets <= 1048576 && 0 < s.dim && s.dim <= 64 && 0 < s.hidden && s.hidden <= 256
    && 0 < s.maxN && s.maxN <= 8 && 0 < s.maxNgrams && s.maxNgrams <= 255 && s.context <= 16
  }

  lemma ShapeOkIff(s: Shape)
    ensures ShapeOk(s) <==> WellShaped(s)
  {
  }

  datatype Model = Model(
    languages: seq<string>,
    shape: Shape,
    scales: seq<Float>,
    embeddings: Bytes,
    hiddenWeight: seq<Float>,
    hiddenBias: seq<Float>,
    outputWeight: seq<Float>,
    outputBias: Float)

  /** Dense features after the embedding. */
  function DenseWidth(layouts: nat): nat { 5 + 2 * layouts }

  function Width(m: Model): nat { m.shape.dim + DenseWidth(|m.languages|) }

  ghost predicate Distinct(languages: seq<string>)
  {
    forall i, j :: 0 <= i < j < |languages| ==> languages[i] != languages[j]
  }

  /** The tables have the sizes the header announces, and all their values are finite. */
  ghost predicate Sized(m: Model)
  {
    && 2 <= |m.languages| <= 16 && Distinct(m.languages) && WellShaped(m.shape)
    && |m.scales| == m.shape.buckets && |m.embeddings| == m.shape.buckets * m.shape.dim
    && |m.hiddenWeight| == m.shape.hidden * (m.shape.dim + 5 + 2 * |m.languages|)
    && |m.hiddenBias| == m.shape.hidden && |m.outputWeight| == m.shape.hidden
    && AllFinite(m.scales) && AllFinite(m.hiddenWeight) && AllFinite(m.hiddenBias) && AllFinite(m.outputWeight)
    && IsFinite(m.outputBias)
  }

  function FloatBytes(fs: seq<Float>): (b: Bytes)
    ensures |b| == 4 * |fs|
  {
    if fs == [] then [] else LittleEndian(fs[0], 4) + FloatBytes(fs[1..])
  }

  ghost function ShapeBytes(s: Shape): Bytes
    requires WellShaped(s)
  {
    LittleEndian(s.buckets, 4) + LittleEndian(s.dim, 2) + LittleEndian(s.hidden, 2)
    + [s.maxN, s.maxNgrams, s.context]
  }

  ghost predicate Short(ids: seq<Bytes>)
  {
    forall i :: 0 <= i < |ids| ==> |ids[i]| < 256
  }

  /** Each identifier after its length. */
  ghost function IdBytes(ids: seq<Bytes>): Bytes
    requires Short(ids)
  {
    if ids == [] then [] else [|ids[0]|] + ids[0] + IdBytes(ids[1..])
  }

  /** One scale and one row of the embedding for each bucket. */
  function TableBytes(scales: seq<Float>, embeddings: Bytes, dim: nat): (b: Bytes)
    requires |embeddings| == |scales| * dim
    ensures |b| == |scales| * (4 + dim)
  {
    if scales == [] then []
    else
      Rows(|scales|, dim);
      LittleEndian(scales[0], 4) + embeddings[..dim] + TableBytes(scales[1..], embeddings[dim..], dim)
  }

  lemma Rows(n: nat, dim: nat)
    requires n > 0
    ensures n * dim == dim + (n - 1) * dim && n * (4 + dim) == 4 + dim + (n - 1) * (4 + dim)
  {
  }

  function DenseBytes(m: Model): Bytes
  {
    FloatBytes(m.hiddenWeight) + FloatBytes(m.hiddenBias) + FloatBytes(m.outputWeight) + LittleEndian(m.outputBias, 4)
  }

  ghost predicate NamedBy(ids: seq<Bytes>, languages: seq<string>, fromId: Bytes -> Option<string>)
  {
    && |ids| == |languages| && Short(ids)
    && forall i :: 0 <= i < |ids| ==> fromId(ids[i]) == Some(languages[i])
  }

  /** The file of a model, written with these identifiers of its languages. */
  ghost function FileOf(m: Model, ids: seq<Bytes>): Bytes
    requires Sized(m) && Short(ids) && |ids| == |m.languages|
  {
    MAGIC + LittleEndian(2, 2)
    + ([|ids|] + (IdBytes(ids) + (ShapeBytes(m.shape)
    + (TableBytes(m.scales, m.embeddings, m.shape.dim) + DenseBytes(m)))))
  }

  /** The file is exactly this model: every byte of it has its place, and nothing follows. */
  ghost predicate IsFileOf(bytes: Bytes, m: Model, fromId: Bytes -> Option<string>)
  {
    Sized(m) && exists ids :: NamedBy(ids, m.languages, fromId) && bytes == FileOf(m, ids)
  }

  // ---------- what a file holds ----------

  /** A value read from the front of some bytes, and the bytes after it. */
  type Parsing<T> = Option<(T, Bytes)>

  function NumberIn(b: Bytes, width: nat): Parsing<nat>
  {
    if |b| < width then None else Some((Number(b[..width]), b[width..]))
  }

  function FloatIn(b: Bytes): Parsing<Float>
  {
    if |b| < 4 || !Finite(Number(b[..4])) then None else Some((Number(b[..4]), b[4..]))
  }

  function FloatsIn(b: Bytes, count: nat): Parsing<seq<Float>>
  {
    if count == 0 then Some(([], b))
    else
      match FloatIn(b)
      case None => None
      case Some((f, rest)) => Prepended([f], FloatsIn(rest, count - 1))
  }

  function Prepended<T>(had: seq<T>, more: Parsing<seq<T>>): Parsing<seq<T>>
  {
    if more.None? then None else Some((had + more.value.0, more.value.1))
  }

  function LanguageIn(b: Bytes, fromId: Bytes -> Option<string>): Parsing<string>
  {
    if b == [] then None
    else
      var end: nat := b[0] as int + 1;
      if |b| < end then None
      else
        var language := fromId(b[1..end]);
        if language.None? then None else Some((language.value, b[end..]))
  }

  /** `count` languages that are neither repeated nor in `had`. */
  function LanguagesIn(b: Bytes, count: nat, had: seq<string>, fromId: Bytes -> Option<string>): Parsing<seq<string>>
  {
    if count == 0 then Some(([], b))
    else
      match LanguageIn(b, fromId)
      case None => None
      case Some((language, rest)) =>
        if language in had then None
        else Prepended([language], LanguagesIn(rest, count - 1, had + [language], fromId))
  }

  function ShapeIn(b: Bytes): Parsing<Shape>
  {
    if |b| < 11 then None
    else
      var s := Shape(Number(b[..4]), Number(b[4..6]), Number(b[6..8]), b[8], b[9], b[10]);
      if ShapeOk(s) then Some((s, b[11..])) else None
  }

  function TableIn(b: Bytes, buckets: nat, dim: nat): Parsing<(seq<Float>, Bytes)>
  {
    if buckets == 0 then Some((([], []), b))
    else
      match FloatIn(b)
      case None => None
      case Some((scale, rest)) =>
        if |rest| < dim then None
        else PrependedRow([scale], rest[..dim], TableIn(rest[dim..], buckets - 1, dim))
  }

  function PrependedRow(scales: seq<Float>, rows: Bytes, more: Parsing<(seq<Float>, Bytes)>)
    : Parsing<(seq<Float>, Bytes)>
  {
    if more.None? then None else Some(((scales + more.value.0.0, rows + more.value.0.1), more.value.1))
  }

  datatype Dense = Dense(weights: seq<Float>, biases: seq<Float>, outputs: seq<Float>, bias: Float)

  function DenseIn(b: Bytes, hidden: nat, width: nat): Parsing<Dense>
  {
    match FloatsIn(b, hidden * width)
    case None => None
    case Some((weights, afterWeights)) =>
      match FloatsIn(afterWeights, hidden)
      case None => None
      case Some((biases, afterBiases)) =>
        match FloatsIn(afterBiases, hidden)
        case None => None
        case Some((outputs, afterOutputs)) =>
          match FloatIn(afterOutputs)
          case None => None
          case Some((bias, rest)) => Some((Dense(weights, biases, outputs, bias), rest))
  }

  /** The bytes after the header that a shape and a number of layouts announce. */
  function Payload(s: Shape, layouts: nat): nat
  {
    s.buckets * (4 + s.dim) + (s.hidden * (s.dim + DenseWidth(layouts)) + 2 * s.hidden + 1) * 4
  }

  function HeaderIn(b: Bytes, fromId: Bytes -> Option<string>): Parsing<(seq<string>, Shape)>
  {
    if b == [] || !(2 <= b[0] <= 16) then None
    else
      match LanguagesIn(b[1..], b[0], [], fromId)
      case None => None
      case Some((languages, rest)) =>
        match ShapeIn(rest)
        case None => None
        case Some((shape, after)) => Some(((languages, shape), after))
  }

  function TablesIn(b: Bytes, languages: seq<string>, s: Shape): Option<Model>
  {
    if |b| != Payload(s, |languages|) then None
    else
      match TableIn(b, s.buckets, s.dim)
      case None => None
      case Some(((scales, embeddings), rest)) =>
        match DenseIn(rest, s.hidden, s.dim + DenseWidth(|languages|))
        case None => None
        case Some((d, _)) => Some(Model(languages, s, scales, embeddings, d.weights, d.biases, d.outputs, d.bias))
  }

  predicate IsOtherVersion(bytes: Bytes)
  {
    |bytes| >= 6 && bytes[..4] == MAGIC && Number(bytes[4..6]) != 2
  }

  function Parsed(bytes: Bytes, fromId: Bytes -> Option<string>): Result<Model, ModelError>
  {
    if |bytes| < 6 || bytes[..4] != MAGIC then Err(Format)
    else if IsOtherVersion(bytes) then Err(Unsupported)
    else
      match HeaderIn(bytes[6..], fromId)
      case None => Err(Format)
      case Some(((languages, shape), rest)) =>
        match TablesIn(rest, languages, shape)
        case None => Err(Format)
        case Some(m) => Ok(m)
  }

  // ---------- reading undoes writing, piece by piece ----------

  lemma NumberIff(b: Bytes, width: nat, n: nat, rest: Bytes)
    ensures NumberIn(b, width) == Some((n, rest)) <==> n < Limit(width) && b == LittleEndian(n, width) + rest
  {
    hide LittleEndian, Number;
    if NumberIn(b, width) == Some((n, rest)) {
      NumberIsLittleEndian(b[..width]);
    }
    if n < Limit(width) && b == LittleEndian(n, width) + rest {
      LittleEndianIsNumber(n, width);
      assert b[..width] == LittleEndian(n, width) && b[width..] == rest;
    }
  }

  lemma FloatIff(b: Bytes, f: Float, rest: Bytes)
    ensures FloatIn(b) == Some((f, rest)) <==> IsFinite(f) && b == LittleEndian(f, 4) + rest
  {
    hide LittleEndian, Number, Finite, IsFinite;
    if |b| >= 4 { FiniteIff(Number(b[..4])); }
    IsFiniteBelow(f);
    Limits();
    NumberIff(b, 4, f, rest);
  }

  lemma IsFiniteBelow(f: Float)
    ensures IsFinite(f) ==> f < 4294967296
  {
  }

  lemma {:induction false} FloatsIff(b: Bytes, count: nat, fs: seq<Float>, rest: Bytes)
    ensures FloatsIn(b, count) == Some((fs, rest)) <==> |fs| == count && AllFinite(fs) && b == FloatBytes(fs) + rest
    decreases count
  {
    hide LittleEndian, Number, FloatIn, IsFinite;
    if count == 0 {
      assert FloatBytes([]) + rest == rest;
      return;
    }
    if FloatsIn(b, count) == Some((fs, rest)) {
      var (f, after) := FloatIn(b).value;
      var (more, end) := FloatsIn(after, count - 1).value;
      FloatIff(b, f, after);
      FloatsIff(after, count - 1, more, end);
      assert fs[1..] == more;
      assert b == FloatBytes(fs) + rest;
    }
    if |fs| == count && AllFinite(fs) && b == FloatBytes(fs) + rest {
      var after := FloatBytes(fs[1..]) + rest;
      assert b == LittleEndian(fs[0], 4) + after;
      assert fs[0] in fs;
      FloatIff(b, fs[0], after);
      FloatsIff(after, count - 1, fs[1..], rest);
      assert [fs[0]] + fs[1..] == fs;
    }
  }

  lemma LanguageIff(b: Bytes, fromId: Bytes -> Option<string>, language: string, rest: Bytes)
    ensures LanguageIn(b, fromId) == Some((language, rest))
            <==> exists id :: IsIdOf(id, language, fromId) && b == [|id|] + id + rest
  {
    if LanguageIn(b, fromId) == Some((language, rest)) {
      var id := b[1..1 + b[0]];
      assert b == [|id|] + id + rest && IsIdOf(id, language, fromId);
    }
    if exists id :: IsIdOf(id, language, fromId) && b == [|id|] + id + rest {
      var id :| IsIdOf(id, language, fromId) && b == [|id|] + id + rest;
      assert b[1..1 + b[0]] == id && b[1 + b[0]..] == rest;
    }
  }

  ghost predicate IsIdOf(id: Bytes, language: string, fromId: Bytes -> Option<string>)
  {
    |id| < 256 && fromId(id) == Some(language)
  }

  lemma {:induction false} LanguagesRead(b: Bytes, count: nat, had: seq<string>, fromId: Bytes -> Option<string>,
                                         languages: seq<string>, rest: Bytes)
    returns (ids: seq<Bytes>)
    requires Distinct(had) && LanguagesIn(b, count, had, fromId) == Some((languages, rest))
    ensures |languages| == count && Distinct(had + languages)
    ensures NamedBy(ids, languages, fromId) && b == IdBytes(ids) + rest
    decreases count
  {
    hide LanguageIn;
    if count == 0 {
      ids := [];
      assert had + [] == had && IdBytes(ids) + rest == rest;
    } else {
      var (language, after) := LanguageIn(b, fromId).value;
      var (more, end) := LanguagesIn(after, count - 1, had + [language], fromId).value;
      LanguageIff(b, fromId, language, after);
      var id :| IsIdOf(id, language, fromId) && b == [|id|] + id + after;
      var others := LanguagesRead(after, count - 1, had + [language], fromId, more, end);
      ids := [id] + others;
      assert had + [language] + more == had + languages;
      assert ids[1..] == others;
      assert b == IdBytes(ids) + rest;
    }
  }

  /** The first language is no repetition, and the others are named and distinct like before. */
  lemma FirstLanguage(ids: seq<Bytes>, had: seq<string>, fromId: Bytes -> Option<string>, languages: seq<string>)
    requires NamedBy(ids, languages, fromId) && Distinct(had + languages) && ids != []
    ensures languages[0] !in had && IsIdOf(ids[0], languages[0], fromId)
    ensures NamedBy(ids[1..], languages[1..], fromId) && Distinct(had + [languages[0]] + languages[1..])
    ensures IdBytes(ids) == [|ids[0]|] + ids[0] + IdBytes(ids[1..])
  {
    assert had + [languages[0]] + languages[1..] == had + languages;
    forall i | 0 <= i < |had|
      ensures had[i] != languages[0]
    {
      assert (had + languages)[i] == had[i] && (had + languages)[|had|] == languages[0];
    }
  }

  lemma {:induction false} LanguagesWritten(ids: seq<Bytes>, had: seq<string>, fromId: Bytes -> Option<string>,
                                            languages: seq<string>, rest: Bytes)
    requires NamedBy(ids, languages, fromId) && Distinct(had + languages)
    ensures LanguagesIn(IdBytes(ids) + rest, |ids|, had, fromId) == Some((languages, rest))
    decreases |ids|
  {
    hide LanguageIn, Distinct, IsIdOf;
    if ids == [] {
      assert IdBytes(ids) + rest == rest;
    } else {
      FirstLanguage(ids, had, fromId, languages);
      LanguagesWritten(ids[1..], had + [languages[0]], fromId, languages[1..], rest);
      hide IdBytes, NamedBy;
      var after := IdBytes(ids[1..]) + rest;
      assert IdBytes(ids) + rest == [|ids[0]|] + ids[0] + after;
      LanguageIff(IdBytes(ids) + rest, fromId, languages[0], after);
      assert [languages[0]] + languages[1..] == languages;
    }
  }

  lemma ShapeIff(b: Bytes, s: Shape, rest: Bytes)
    ensures ShapeIn(b) == Some((s, rest)) <==> WellShaped(s) && b == ShapeBytes(s) + rest
  {
    hide LittleEndian, Number;
    Limits();
    if ShapeIn(b) == Some((s, rest)) {
      NumberIsLittleEndian(b[..4]);
      NumberIsLittleEndian(b[4..6]);
      NumberIsLittleEndian(b[6..8]);
      assert b == b[..4] + b[4..6] + b[6..8] + [b[8], b[9], b[10]] + b[11..];
    }
    if WellShaped(s) && b == ShapeBytes(s) + rest {
      LittleEndianIsNumber(s.buckets, 4);
      LittleEndianIsNumber(s.dim, 2);
      LittleEndianIsNumber(s.hidden, 2);
      assert b[..4] == LittleEndian(s.buckets, 4);
      assert b[4..6] == LittleEndian(s.dim, 2);
      assert b[6..8] == LittleEndian(s.hidden, 2);
      assert b[11..] == rest;
    }
  }

  lemma {:induction false} TableRead(b: Bytes, buckets: nat, dim: nat, t: (seq<Float>, Bytes), rest: Bytes)
    requires TableIn(b, buckets, dim) == Some((t, rest))
    ensures |t.0| == buckets && AllFinite(t.0) && |t.1| == buckets * dim && b == TableBytes(t.0, t.1, dim) + rest
    decreases buckets
  {
    hide LittleEndian, Number, FloatIn, IsFinite;
    if buckets == 0 {
      assert TableBytes([], [], dim) + rest == rest;
    } else {
      var (scale, after) := FloatIn(b).value;
      var (more, end) := TableIn(after[dim..], buckets - 1, dim).value;
      FloatIff(b, scale, after);
      TableRead(after[dim..], buckets - 1, dim, more, end);
      Rows(buckets, dim);
      assert t.0[1..] == more.0 && t.1[..dim] == after[..dim] && t.1[dim..] == more.1;
      assert after == after[..dim] + after[dim..];
      assert b == TableBytes(t.0, t.1, dim) + rest;
    }
  }

  lemma {:induction false} TableWritten(scales: seq<Float>, embeddings: Bytes, dim: nat, rest: Bytes)
    requires AllFinite(scales) && |embeddings| == |scales| * dim
    ensures TableIn(TableBytes(scales, embeddings, dim) + rest, |scales|, dim) == Some(((scales, embeddings), rest))
    decreases |scales|
  {
    hide LittleEndian, Number, FloatIn, IsFinite;
    if scales == [] {
      assert TableBytes(scales, embeddings, dim) + rest == rest && embeddings == [];
    } else {
      Rows(|scales|, dim);
      var b, more := TableBytes(scales, embeddings, dim) + rest, TableBytes(scales[1..], embeddings[dim..], dim) + rest;
      var after := embeddings[..dim] + more;
      assert b == LittleEndian(scales[0], 4) + after;
      assert scales[0] in scales;
      FloatIff(b, scales[0], after);
      assert after[..dim] == embeddings[..dim] && after[dim..] == more;
      TableWritten(scales[1..], embeddings[dim..], dim, rest);
      assert [scales[0]] + scales[1..] == scales && embeddings[..dim] + embeddings[dim..] == embeddings;
    }
  }

  /** All the layers have their sizes, and their values are finite. */
  ghost predicate DenseOk(d: Dense, hidden: nat, width: nat)
  {
    && |d.weights| == hidden * width && |d.biases| == hidden && |d.outputs| == hidden
    && AllFinite(d.weights) && AllFinite(d.biases) && AllFinite(d.outputs) && IsFinite(d.bias)
  }

  lemma DenseIff(b: Bytes, hidden: nat, width: nat, d: Dense, rest: Bytes)
    ensures DenseIn(b, hidden, width) == Some((d, rest))
            <==> DenseOk(d, hidden, width)
                 && b == FloatBytes(d.weights)
                   + (FloatBytes(d.biases) + (FloatBytes(d.outputs) + (LittleEndian(d.bias, 4) + rest)))
  {
    hide LittleEndian, FloatBytes, FloatsIn, FloatIn, AllFinite, Finite;
    if DenseIn(b, hidden, width) == Some((d, rest)) {
      var (_, a1) := FloatsIn(b, hidden * width).value;
      var (_, a2) := FloatsIn(a1, hidden).value;
      var (_, a3) := FloatsIn(a2, hidden).value;
      FloatsIff(b, hidden * width, d.weights, a1);
      FloatsIff(a1, hidden, d.biases, a2);
      FloatsIff(a2, hidden, d.outputs, a3);
      FloatIff(a3, d.bias, rest);
    }
    if DenseOk(d, hidden, width) {
      var a3 := LittleEndian(d.bias, 4) + rest;
      var a2 := FloatBytes(d.outputs) + a3;
      var a1 := FloatBytes(d.biases) + a2;
      FloatsIff(b, hidden * width, d.weights, a1);
      FloatsIff(a1, hidden, d.biases, a2);
      FloatsIff(a2, hidden, d.outputs, a3);
      FloatIff(a3, d.bias, rest);
    }
  }

  ghost predicate HeaderOk(languages: seq<string>, s: Shape)
  {
    2 <= |languages| <= 16 && Distinct(languages) && WellShaped(s)
  }

  lemma HeaderRead(b: Bytes, fromId: Bytes -> Option<string>, languages: seq<string>, s: Shape, rest: Bytes)
    returns (ids: seq<Bytes>)
    requires HeaderIn(b, fromId) == Some(((languages, s), rest))
    ensures HeaderOk(languages, s) && NamedBy(ids, languages, fromId)
    ensures b == [|ids|] + (IdBytes(ids) + (ShapeBytes(s) + rest))
  {
    hide LanguagesIn, ShapeIn, ShapeBytes, IdBytes, WellShaped;
    var after := LanguagesIn(b[1..], b[0], [], fromId).value.1;
    ids := LanguagesRead(b[1..], b[0], [], fromId, languages, after);
    assert [] + languages == languages;
    ShapeIff(after, s, rest);
    assert b == [b[0]] + b[1..];
  }

  lemma HeaderWritten(ids: seq<Bytes>, fromId: Bytes -> Option<string>, languages: seq<string>, s: Shape, rest: Bytes)
    requires HeaderOk(languages, s) && NamedBy(ids, languages, fromId)
    ensures HeaderIn([|ids|] + (IdBytes(ids) + (ShapeBytes(s) + rest)), fromId) == Some(((languages, s), rest))
  {
    hide LanguagesIn, ShapeIn, ShapeBytes, IdBytes, WellShaped;
    var after := ShapeBytes(s) + rest;
    var b := [|ids|] + (IdBytes(ids) + after);
    assert b[1..] == IdBytes(ids) + after;
    assert [] + languages == languages;
    LanguagesWritten(ids, [], fromId, languages, after);
    ShapeIff(after, s, rest);
  }

  function Layers(m: Model): Dense
  {
    Dense(m.hiddenWeight, m.hiddenBias, m.outputWeight, m.outputBias)
  }

  lemma TablesRead(b: Bytes, languages: seq<string>, s: Shape, m: Model)
    requires HeaderOk(languages, s) && TablesIn(b, languages, s) == Some(m)
    ensures Sized(m) && m.languages == languages && m.shape == s
    ensures b == TableBytes(m.scales, m.embeddings, m.shape.dim) + DenseBytes(m)
  {
    hide TableIn, DenseIn, TableBytes, FloatBytes, LittleEndian, AllFinite, Finite, Distinct;
    var width := s.dim + DenseWidth(|languages|);
    var (_, rest) := TableIn(b, s.buckets, s.dim).value;
    var (_, end) := DenseIn(rest, s.hidden, width).value;
    TableRead(b, s.buckets, s.dim, (m.scales, m.embeddings), rest);
    DenseIff(rest, s.hidden, width, Layers(m), end);
    PayloadIs(s, |languages|);
    assert end == [];
    DenseJoined(m, []);
  }

  lemma TablesWritten(m: Model)
    requires Sized(m)
    ensures TablesIn(TableBytes(m.scales, m.embeddings, m.shape.dim) + DenseBytes(m), m.languages, m.shape) == Some(m)
  {
    hide TableIn, DenseIn, TableBytes, FloatBytes, LittleEndian, AllFinite, Finite, Distinct;
    TableWritten(m.scales, m.embeddings, m.shape.dim, DenseBytes(m));
    DenseJoined(m, []);
    DenseIff(DenseBytes(m), m.shape.hidden, Width(m), Layers(m), []);
    PayloadIs(m.shape, |m.languages|);
  }

  lemma DenseJoined(m: Model, rest: Bytes)
    ensures DenseBytes(m) + rest
         == FloatBytes(m.hiddenWeight)
           + (FloatBytes(m.hiddenBias) + (FloatBytes(m.outputWeight) + (LittleEndian(m.outputBias, 4) + rest)))
    ensures DenseBytes(m) + [] == DenseBytes(m)
  {
    hide FloatBytes, LittleEndian;
  }

  lemma PayloadIs(s: Shape, layouts: nat)
    ensures Payload(s, layouts) == s.buckets * (4 + s.dim)
      + 4 * (s.hidden * (s.dim + DenseWidth(layouts))) + 4 * s.hidden + 4 * s.hidden + 4
  {
  }

  lemma VersionIff(b: Bytes)
    requires |b| == 2
    ensures Number(b) == 2 <==> b == LittleEndian(2, 2)
  {
    Limits();
    NumberIsLittleEndian(b);
    LittleEndianIsNumber(2, 2);
  }

  /** The bytes before and after the version. */
  lemma FileParts(bytes: Bytes, tail: Bytes)
    requires bytes == MAGIC + LittleEndian(2, 2) + tail
    ensures |bytes| >= 6 && bytes[..4] == MAGIC && bytes[4..6] == LittleEndian(2, 2) && bytes[6..] == tail
  {
  }

  lemma ParsedIsFile(bytes: Bytes, fromId: Bytes -> Option<string>, m: Model)
    requires Parsed(bytes, fromId) == Ok(m)
    ensures IsFileOf(bytes, m, fromId)
  {
    hide HeaderIn, TablesIn, TableBytes, DenseBytes, ShapeBytes, IdBytes, LittleEndian, Number, Sized;
    var ((languages, s), rest) := HeaderIn(bytes[6..], fromId).value;
    var ids := HeaderRead(bytes[6..], fromId, languages, s, rest);
    TablesRead(rest, languages, s, m);
    VersionIff(bytes[4..6]);
    assert bytes == bytes[..4] + bytes[4..6] + bytes[6..];
    assert bytes == FileOf(m, ids);
  }

  lemma FileIsParsed(bytes: Bytes, fromId: Bytes -> Option<string>, m: Model)
    requires IsFileOf(bytes, m, fromId)
    ensures Parsed(bytes, fromId) == Ok(m)
  {
    hide HeaderIn, TablesIn, TableBytes, DenseBytes, ShapeBytes, IdBytes, LittleEndian, Number;
    var ids :| NamedBy(ids, m.languages, fromId) && bytes == FileOf(m, ids);
    var rest := TableBytes(m.scales, m.embeddings, m.shape.dim) + DenseBytes(m);
    FileParts(bytes, [|ids|] + (IdBytes(ids) + (ShapeBytes(m.shape) + rest)));
    VersionIff(bytes[4..6]);
    HeaderWritten(ids, fromId, m.languages, m.shape, rest);
    TablesWritten(m);
  }

  /** Parsing yields exactly the model whose file the bytes are: it accepts each such file, and nothing else. */
  lemma ParsedIff(bytes: Bytes, fromId: Bytes -> Option<string>, m: Model)
    ensures Parsed(bytes, fromId) == Ok(m) <==> IsFileOf(bytes, m, fromId)
  {
    hide Parsed, IsFileOf;
    if Parsed(bytes, fromId) == Ok(m) { ParsedIsFile(bytes, fromId, m); }
    if IsFileOf(bytes, m, fromId) { FileIsParsed(bytes, fromId, m); }
  }

  // ---------- the reader ----------

  function With<T>(r: Option<T>, rest: Bytes): Parsing<T>
  {
    if r.None? then None else Some((r.value, rest))
  }

  class Reader {
    const bytes: Bytes
    var offset: nat

    constructor (bytes: Bytes)
      ensures this.bytes == bytes && offset == 0
    {
      this.bytes := bytes;
      offset := 0;
    }

    ghost predicate Valid()
      reads this
    {
      offset <= |bytes|
    }

    /** What has not been read yet. */
    ghost function Rest(): Bytes
      requires Valid()
      reads this
    {
      bytes[offset..]
    }

    method Take(count: nat) returns (r: Option<Bytes>)
      requires Valid()
      modifies this
      ensures Valid()
      ensures r.Some? <==> old(offset) + count <= |bytes|
      ensures r.Some? ==> offset == old(offset) + count && |r.value| == count
      ensures r.Some? ==> old(Rest()) == r.value + Rest()
      ensures r.None? ==> offset == old(offset)
    {
      if offset + count > |bytes| { return None; }
      r := Some(bytes[offset..offset + count]);
      offset := offset + count;
    }

    method Octet() returns (r: Option<Byte>)
      requires Valid()
      modifies this
      ensures Valid() && (r.Some? <==> old(Rest()) != [])
      ensures r.Some? ==> old(Rest()) == [r.value] + Rest()
    {
      var b := Take(1);
      if b.None? { return None; }
      return Some(b.value[0]);
    }

    method Fixed(width: nat) returns (r: Option<nat>)
      requires Valid()
      modifies this
      ensures Valid() && With(r, Rest()) == NumberIn(old(Rest()), width)
    {
      var b := Take(width);
      if b.None? { return None; }
      return Some(Number(b.value));
    }

    method Single() returns (r: Option<Float>)
      requires Valid()
      modifies this
      ensures Valid() && With(r, Rest()) == FloatIn(old(Rest()))
    {
      hide Number, Finite;
      var value := Fixed(4);
      if value.None? || !Finite(value.value) { return None; }
      return value;
    }

    method Floats(count: nat) returns (r: Option<seq<Float>>)
      requires Valid()
      modifies this
      ensures Valid() && With(r, Rest()) == FloatsIn(old(Rest()), count)
    {
      hide FloatIn;
      var values: seq<Float> := [];
      PrependNothing(values, FloatsIn(Rest(), count), []);
      for i := 0 to count
        invariant Valid()
        invariant FloatsIn(old(Rest()), count) == Prepended(values, FloatsIn(Rest(), count - i))
      {
        var f := Single();
        if f.None? {
          return None;
        }
        PrependTwice(values, [f.value], FloatsIn(Rest(), count - i - 1));
        values := values + [f.value];
      }
      PrependNothing(values, None, Rest());
      return Some(values);
    }
  }

  lemma PrependNothing<T>(had: seq<T>, more: Parsing<seq<T>>, rest: Bytes)
    ensures Prepended([], more) == more && Prepended(had, Some(([], rest))) == Some((had, rest))
  {
    if more.Some? { assert [] + more.value.0 == more.value.0; }
    assert had + [] == had;
  }

  lemma PrependTwice<T>(a: seq<T>, b: seq<T>, more: Parsing<seq<T>>)
    ensures Prepended(a, Prepended(b, more)) == Prepended(a + b, more)
  {
    if more.Some? { assert a + (b + more.value.0) == a + b + more.value.0; }
  }

  lemma PrependNoRow(had: seq<Float>, rows: Bytes, more: Parsing<(seq<Float>, Bytes)>, rest: Bytes)
    ensures PrependedRow([], [], more) == more
      && PrependedRow(had, rows, Some((([], []), rest))) == Some(((had, rows), rest))
  {
    if more.Some? { assert [] + more.value.0.0 == more.value.0.0 && [] + more.value.0.1 == more.value.0.1; }
    assert had + [] == had && rows + [] == rows;
  }

  lemma PrependRowTwice(a: seq<Float>, p: Bytes, b: seq<Float>, q: Bytes, more: Parsing<(seq<Float>, Bytes)>)
    ensures PrependedRow(a, p, PrependedRow(b, q, more)) == PrependedRow(a + b, p + q, more)
  {
    if more.Some? {
      assert a + (b + more.value.0.0) == a + b + more.value.0.0;
      assert p + (q + more.value.0.1) == p + q + more.value.0.1;
    }
  }

  // ---------- parsing ----------

  method ReadLanguages(reader: Reader, count: nat, fromId: Bytes -> Option<string>) returns (r: Option<seq<string>>)
    requires reader.Valid()
    modifies reader
    ensures reader.Valid() && With(r, reader.Rest()) == LanguagesIn(old(reader.Rest()), count, [], fromId)
  {
    hide LanguageIn;
    var languages: seq<string> := [];
    PrependNothing(languages, LanguagesIn(reader.Rest(), count, [], fromId), []);
    for i := 0 to count
      invariant reader.Valid()
      invariant LanguagesIn(old(reader.Rest()), count, [], fromId)
             == Prepended(languages, LanguagesIn(reader.Rest(), count - i, languages, fromId))
    {
      var language := ReadLanguage(reader, fromId);
      if language.None? || language.value in languages { return None; }
      PrependTwice(languages, [language.value],
                   LanguagesIn(reader.Rest(), count - i - 1, languages + [language.value], fromId));
      languages := languages + [language.value];
    }
    PrependNothing(languages, None, reader.Rest());
    return Some(languages);
  }

  method ReadLanguage(reader: Reader, fromId: Bytes -> Option<string>) returns (r: Option<string>)
    requires reader.Valid()
    modifies reader
    ensures reader.Valid() && With(r, reader.Rest()) == LanguageIn(old(reader.Rest()), fromId)
  {
    ghost var b := reader.Rest();
    var length := reader.Octet();
    if length.None? { return None; }
    var id := reader.Take(length.value);
    if id.None? { return None; }
    assert b[1..1 + b[0]] == id.value && b[1 + b[0]..] == reader.Rest();
    return fromId(id.value);
  }

  lemma ShapeSlices(b: Bytes)
    requires |b| >= 8
    ensures b[4..][..2] == b[4..6] && b[4..][2..] == b[6..] && b[6..][..2] == b[6..8] && b[6..][2..] == b[8..]
  {
  }

  lemma LastSlices(b: Bytes, x: Byte, y: Byte, z: Byte, rest: Bytes)
    requires |b| >= 8 && b[8..] == [x] + ([y] + ([z] + rest))
    ensures |b| >= 11 && b[8] == x && b[9] == y && b[10] == z && b[11..] == rest
  {
    assert b[8..][0] == b[8] && b[8..][1] == b[9] && b[8..][2] == b[10] && b[8..][3..] == b[11..];
  }

  method ReadShape(reader: Reader) returns (r: Option<Shape>)
    requires reader.Valid()
    modifies reader
    ensures reader.Valid() && With(r, reader.Rest()) == ShapeIn(old(reader.Rest()))
  {
    hide Number, ShapeOk;
    ghost var b := reader.Rest();
    var buckets := reader.Fixed(4);
    if buckets.None? { return None; }
    var dim := reader.Fixed(2);
    if dim.None? { return None; }
    var hidden := reader.Fixed(2);
    if hidden.None? { return None; }
    var maxN := reader.Octet();
    ShapeSlices(b);
    if maxN.None? { return None; }
    var maxNgrams := reader.Octet();
    if maxNgrams.None? { return None; }
    var context := reader.Octet();
    if context.None? { return None; }
    LastSlices(b, maxN.value, maxNgrams.value, context.value, reader.Rest());
    var shape := Shape(buckets.value, dim.value, hidden.value, maxN.value, maxNgrams.value, context.value);
    if !ShapeOk(shape) { return None; }
    return Some(shape);
  }

  method ReadTable(reader: Reader, buckets: nat, dim: nat) returns (r: Option<(seq<Float>, Bytes)>)
    requires reader.Valid()
    modifies reader
    ensures reader.Valid() && With(r, reader.Rest()) == TableIn(old(reader.Rest()), buckets, dim)
  {
    hide FloatIn;
    var scales: seq<Float>, embeddings: Bytes := [], [];
    PrependNoRow(scales, embeddings, TableIn(reader.Rest(), buckets, dim), []);
    for i := 0 to buckets
      invariant reader.Valid()
      invariant TableIn(old(reader.Rest()), buckets, dim)
             == PrependedRow(scales, embeddings, TableIn(reader.Rest(), buckets - i, dim))
    {
      var scale := reader.Single();
      if scale.None? { return None; }
      ghost var after := reader.Rest();
      var row := reader.Take(dim);
      if row.None? { return None; }
      assert after[..dim] == row.value && after[dim..] == reader.Rest();
      PrependRowTwice(scales, embeddings, [scale.value], row.value, TableIn(reader.Rest(), buckets - i - 1, dim));
      scales, embeddings := scales + [scale.value], embeddings + row.value;
    }
    PrependNoRow(scales, embeddings, None, reader.Rest());
    return Some((scales, embeddings));
  }

  method ReadDense(reader: Reader, hidden: nat, width: nat) returns (r: Option<Dense>)
    requires reader.Valid()
    modifies reader
    ensures reader.Valid() && With(r, reader.Rest()) == DenseIn(old(reader.Rest()), hidden, width)
  {
    hide FloatsIn, FloatIn;
    var weights := reader.Floats(hidden * width);
    if weights.None? { return None; }
    var biases := reader.Floats(hidden);
    if biases.None? { return None; }
    var outputs := reader.Floats(hidden);
    if outputs.None? { return None; }
    var bias := reader.Single();
    if bias.None? { return None; }
    return Some(Dense(weights.value, biases.value, outputs.value, bias.value));
  }

  method ReadHeader(reader: Reader, fromId: Bytes -> Option<string>) returns (r: Option<(seq<string>, Shape)>)
    requires reader.Valid()
    modifies reader
    ensures reader.Valid() && With(r, reader.Rest()) == HeaderIn(old(reader.Rest()), fromId)
  {
    hide LanguagesIn, ShapeIn;
    ghost var b := reader.Rest();
    var count := reader.Octet();
    if count.None? || !(2 <= count.value <= 16) { return None; }
    assert b[1..] == reader.Rest();
    var languages := ReadLanguages(reader, count.value, fromId);
    if languages.None? { return None; }
    var shape := ReadShape(reader);
    if shape.None? { return None; }
    return Some((languages.value, shape.value));
  }

  /**
   * `LayoutModel::parse`: it accepts exactly the files of models with tables of the announced sizes and
   * finite values, and yields the model the file was written from.
   */
  method Parse(bytes: Bytes, fromId: Bytes -> Option<string>) returns (r: Result<Model, ModelError>)
    ensures forall m :: r == Ok(m) <==> IsFileOf(bytes, m, fromId)
    ensures r == Err(Unsupported) <==> |bytes| >= 6 && bytes[..4] == MAGIC && bytes[4..6] != LittleEndian(2, 2)
    ensures r == Parsed(bytes, fromId)
  {
    hide IsFileOf, LittleEndian, Number, HeaderIn, TableIn, DenseIn;
    ParsedMeans(bytes, fromId);
    var reader := new Reader(bytes);
    assert reader.Rest() == bytes;
    var magic := reader.Take(4);
    if magic.None? || magic.value != MAGIC { return Err(Format); }
    var version := reader.Fixed(2);
    if version.None? { return Err(Format); }
    assert bytes[4..][..2] == bytes[4..6] && reader.Rest() == bytes[6..];
    if version.value != 2 { return Err(Unsupported); }
    var header := ReadHeader(reader, fromId);
    if header.None? { return Err(Format); }
    var (languages, s) := header.value;
    if |bytes| - reader.offset != Payload(s, |languages|) { return Err(Format); }
    var table := ReadTable(reader, s.buckets, s.dim);
    if table.None? { return Err(Format); }
    var d := ReadDense(reader, s.hidden, s.dim + DenseWidth(|languages|));
    if d.None? { return Err(Format); }
    return Ok(Model(languages, s, table.value.0, table.value.1,
                    d.value.weights, d.value.biases, d.value.outputs, d.value.bias));
  }

  lemma ParsedMeans(bytes: Bytes, fromId: Bytes -> Option<string>)
    ensures forall m :: Parsed(bytes, fromId) == Ok(m) <==> IsFileOf(bytes, m, fromId)
    ensures Parsed(bytes, fromId) == Err(Unsupported)
            <==> |bytes| >= 6 && bytes[..4] == MAGIC && bytes[4..6] != LittleEndian(2, 2)
  {
    hide IsFileOf, Number, LittleEndian;
    forall m
      ensures Parsed(bytes, fromId) == Ok(m) <==> IsFileOf(bytes, m, fromId)
    {
      ParsedIff(bytes, fromId, m);
    }
    if |bytes| >= 6 { VersionIff(bytes[4..6]); }
  }

  // ---------- n-grams ----------

  /** The marks put around a word are no n-grams of their own. */
  predicate Skipped(window: string)
  {
    |window| == 1 && (window[0] == '<' || window[0] == '>')
  }

  /** The windows of length `n` that start before `upto`. */
  function WindowsOf(padded: string, n: nat, upto: nat): (ws: seq<string>)
    requires upto > 0 ==> upto + n <= |padded| + 1
  {
    if upto == 0 then []
    else
      var w := padded[upto - 1..upto - 1 + n];
      WindowsOf(padded, n, upto - 1) + if Skipped(w) then [] else [w]
  }

  function Starts(padded: string, n: nat): nat
  {
    if n <= |padded| then |padded| - n + 1 else 0
  }

  /** The windows of all lengths up to `maxN`, short ones first. */
  function AllWindows(padded: string, maxN: nat): seq<string>
  {
    if maxN == 0 then [] else AllWindows(padded, maxN - 1) + WindowsOf(padded, maxN, Starts(padded, maxN))
  }

  /** The bytes that are hashed for a window: the layout, then the characters. */
  function Hashed(utf8: char -> seq<bv8>, layout: nat, window: string): seq<bv8>
    requires layout < 16
  {
    if window == "" then [(layout + 1) as bv8]
    else Hashed(utf8, layout, window[..|window| - 1]) + utf8(window[|window| - 1])
  }

  function NgramId(utf8: char -> seq<bv8>, layout: nat, buckets: nat, window: string): (id: nat)
    requires layout < 16 && buckets > 0
    ensures id < buckets
  {
    Crc32.Reference(Hashed(utf8, layout, window)) as nat % buckets
  }

  function IdsOf(utf8: char -> seq<bv8>, layout: nat, buckets: nat, windows: seq<string>): (ids: seq<nat>)
    requires layout < 16 && buckets > 0
    ensures |ids| == |windows| && forall i :: 0 <= i < |ids| ==> ids[i] == NgramId(utf8, layout, buckets, windows[i])
  {
    seq(|windows|, i requires 0 <= i < |windows| => NgramId(utf8, layout, buckets, windows[i]))
  }

  function First(windows: seq<string>, count: nat): seq<string>
  {
    if |windows| <= count then windows else windows[..count]
  }

  ghost predicate StartsAt(padded: string, i: nat, w: string)
  {
    i + |w| <= |padded| && padded[i..i + |w|] == w
  }

  ghost predicate NoMark(w: string)
  {
    w != "<" && w != ">"
  }

  lemma {:induction false} WindowsOfIff(padded: string, n: nat, upto: nat, w: string)
    requires upto > 0 ==> upto + n <= |padded| + 1
    ensures w in WindowsOf(padded, n, upto) <==>
      |w| == n && NoMark(w) && exists i: nat :: i < upto && StartsAt(padded, i, w)
  {
    if upto > 0 {
      WindowsOfIff(padded, n, upto - 1, w);
      var last := padded[upto - 1..upto - 1 + n];
      assert Skipped(last) <==> !NoMark(last);
      assert StartsAt(padded, upto - 1, last);
      assert |w| == n && StartsAt(padded, upto - 1, w) ==> w == last;
    }
  }

  /** All windows are exactly the parts of the text of at most `maxN` characters, but for the two marks alone. */
  lemma {:induction false} AllWindowsIff(padded: string, maxN: nat, w: string)
    ensures w in AllWindows(padded, maxN) <==>
      1 <= |w| && |w| <= maxN && NoMark(w) && exists i: nat :: StartsAt(padded, i, w)
  {
    if maxN > 0 {
      hide WindowsOf, NoMark;
      AllWindowsIff(padded, maxN - 1, w);
      WindowsOfIff(padded, maxN, Starts(padded, maxN), w);
      if |w| == maxN {
        assert forall i: nat :: StartsAt(padded, i, w) ==> i < Starts(padded, maxN);
      }
    }
  }

  lemma {:induction false} WindowsGrow(padded: string, n: nat, i: nat, upto: nat)
    requires i <= upto && (upto > 0 ==> upto + n <= |padded| + 1)
    ensures WindowsOf(padded, n, i) <= WindowsOf(padded, n, upto)
    decreases upto
  {
    if i < upto { WindowsGrow(padded, n, i, upto - 1); }
  }

  lemma {:induction false} AllWindowsGrow(padded: string, n: nat, maxN: nat)
    requires n <= maxN
    ensures AllWindows(padded, n) <= AllWindows(padded, maxN)
    decreases maxN
  {
    hide WindowsOf;
    if n < maxN { AllWindowsGrow(padded, n, maxN - 1); }
  }

  /** What has been seen is the beginning of all windows, so a full list is their first part. */
  lemma FullListIsFirst(padded: string, n: nat, i: nat, maxN: nat, count: nat)
    requires 1 <= n <= maxN && i <= Starts(padded, n)
    requires |AllWindows(padded, n - 1) + WindowsOf(padded, n, i)| == count
    ensures First(AllWindows(padded, maxN), count) == AllWindows(padded, n - 1) + WindowsOf(padded, n, i)
  {
    hide WindowsOf;
    WindowsGrow(padded, n, i, Starts(padded, n));
    AllWindowsGrow(padded, n, maxN);
    assert AllWindows(padded, n - 1) + WindowsOf(padded, n, i) <= AllWindows(padded, n);
  }

  method HashedBytes(utf8: char -> seq<bv8>, layout: nat, window: string) returns (buffer: seq<bv8>)
    requires layout < 16
    ensures buffer == Hashed(utf8, layout, window)
  {
    buffer := [(layout + 1) as bv8];
    for k := 0 to |window|
      invariant buffer == Hashed(utf8, layout, window[..k])
    {
      assert window[..k + 1][..k] == window[..k];
      buffer := buffer + utf8(window[k]);
    }
    assert window[..|window|] == window;
  }

  method HashWindow(table: seq<bv32>, utf8: char -> seq<bv8>, layout: nat, buckets: nat, window: string)
      returns (id: nat)
    requires |table| == 256 && Crc32.IsTable(table) && layout < 16 && buckets > 0
    ensures id == NgramId(utf8, layout, buckets, window)
  {
    hide Crc32.IsTable, Hashed, NgramId;
    var buffer := HashedBytes(utf8, layout, window);
    var crc := Crc32.Crc(table, buffer);
    NgramIdOf(utf8, layout, buckets, window, crc);
    return crc as nat % buckets;
  }

  lemma NextWindow(padded: string, n: nat, i: nat)
    requires i < Starts(padded, n)
    ensures i + n <= |padded|
    ensures WindowsOf(padded, n, i + 1)
         == if Skipped(padded[i..i + n]) then WindowsOf(padded, n, i) else WindowsOf(padded, n, i) + [padded[i..i + n]]
  {
  }

  lemma NoWindows(utf8: char -> seq<bv8>, layout: nat, buckets: nat, padded: string, n: nat)
    requires layout < 16 && buckets > 0
    ensures IdsOf(utf8, layout, buckets, []) == [] && AllWindows(padded, 0) == [] && WindowsOf(padded, n, 0) == []
  {
  }

  /** The windows of one length; `full` when the list was complete before they ended. */
  method AddWindows(table: seq<bv32>, utf8: char -> seq<bv8>, layout: nat, shape: Shape, padded: string, n: nat,
      had: seq<nat>)
    returns (ids: seq<nat>, full: bool)
    requires |table| == 256 && Crc32.IsTable(table) && layout < 16 && shape.buckets > 0 && 1 <= n <= shape.maxN
    requires had == IdsOf(utf8, layout, shape.buckets, AllWindows(padded, n - 1)) && |had| <= shape.maxNgrams
    ensures full ==> ids == IdsOf(utf8, layout, shape.buckets, First(AllWindows(padded, shape.maxN), shape.maxNgrams))
    ensures !full ==> ids == IdsOf(utf8, layout, shape.buckets, AllWindows(padded, n)) && |ids| <= shape.maxNgrams
  {
    hide Crc32.IsTable, NgramId, First, IdsOf, WindowsOf, AllWindows, Skipped;
    NoWindows(utf8, layout, shape.buckets, padded, n);
    ids := had;
    ghost var before := AllWindows(padded, n - 1);
    ghost var seen := before;
    assert before + [] == before;
    var i := 0;
    while i < Starts(padded, n)
      invariant 0 <= i <= Starts(padded, n)
      invariant seen == before + WindowsOf(padded, n, i) && |ids| <= shape.maxNgrams
      invariant ids == IdsOf(utf8, layout, shape.buckets, seen)
    {
      NextWindow(padded, n, i);
      var window := padded[i..i + n];
      if !Skipped(window) {
        if |ids| == shape.maxNgrams {
          FullListIsFirst(padded, n, i, shape.maxN, shape.maxNgrams);
          return ids, true;
        }
        var id := HashWindow(table, utf8, layout, shape.buckets, window);
        ids := ids + [id];
        seen := seen + [window];
      }
      i := i + 1;
    }
    OneLength(padded, n);
    return ids, false;
  }

  lemma OneLength(padded: string, n: nat)
    requires n >= 1
    ensures AllWindows(padded, n) == AllWindows(padded, n - 1) + WindowsOf(padded, n, Starts(padded, n))
  {
  }

  /**
   * `ngram_ids`: the hashes of the first `maxNgrams` windows of the word between its marks, short
   * windows first, each a row of the table.
   */
  method NgramIds(table: seq<bv32>, utf8: char -> seq<bv8>, lower: string -> string, m: Model, layout: nat,
      text: string)
    returns (ids: seq<nat>)
    requires |table| == 256 && Crc32.IsTable(table) && layout < 16 && m.shape.buckets > 0
    ensures var padded := "<" + lower(text) + ">";
      ids == IdsOf(utf8, layout, m.shape.buckets, First(AllWindows(padded, m.shape.maxN), m.shape.maxNgrams))
    ensures |ids| <= m.shape.maxNgrams && forall id :: id in ids ==> id < m.shape.buckets
  {
    hide Crc32.IsTable, NgramId, AllWindows;
    var padded := "<" + lower(text) + ">";
    NoWindows(utf8, layout, m.shape.buckets, padded, 1);
    ids := [];
    var n := 1;
    while n <= m.shape.maxN
      invariant 1 <= n <= m.shape.maxN + 1
      invariant ids == IdsOf(utf8, layout, m.shape.buckets, AllWindows(padded, n - 1)) && |ids| <= m.shape.maxNgrams
    {
      var full;
      ids, full := AddWindows(table, utf8, layout, m.shape, padded, n, ids);
      if full { return; }
      n := n + 1;
    }
  }

  lemma NgramIdOf(utf8: char -> seq<bv8>, layout: nat, buckets: nat, window: string, crc: bv32)
    requires layout < 16 && buckets > 0 && crc == Crc32.Reference(Hashed(utf8, layout, window))
    ensures crc as nat % buckets == NgramId(utf8, layout, buckets, window)
  {
  }
}
