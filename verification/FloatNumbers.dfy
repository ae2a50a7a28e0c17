/**
 * Binary floating point as the layout model uses it (clauses 4 to 6 of IEEE 754): results are rounded, may
 * overflow to infinities, and may be no number. Zeros carry no sign here.
 */
module FloatNumbers {
  datatype Value = NaN | Infinite(negative: bool) | Real(value: real)

  /** How a real result is represented: the value next to it, or an infinity beyond the largest. */
  type Rounding = real -> Value

  const ZERO := Real(0.0)
  const ONE := Real(1.0)
  const LOWEST := Infinite(true)

  /** The order of numbers; it holds of nothing that is no number. */
  predicate AtMost(a: Value, b: Value)
  {
    && !a.NaN? && !b.NaN?
    && (a == Infinite(true) || b == Infinite(false) || (a.Real? && b.Real? && a.value <= b.value))
  }

  function Plus(round: Rounding, a: Value, b: Value): Value
  {
    match (a, b)
    case (Real(x), Real(y)) => round(x + y)
    case (Infinite(n), Infinite(k)) => if n == k then a else NaN
    case (Infinite(_), Real(_)) => a
    case (Real(_), Infinite(_)) => b
    case _ => NaN
  }

  function Negated(a: Value): Value
  {
    match a
    case NaN => NaN
    case Infinite(n) => Infinite(!n)
    case Real(x) => Real(-x)
  }

  function Minus(round: Rounding, a: Value, b: Value): Value
  {
    Plus(round, a, Negated(b))
  }

  function Times(round: Rounding, a: Value, b: Value): Value
  {
    match (a, b)
    case (Real(x), Real(y)) => round(x * y)
    case (Infinite(n), Infinite(k)) => Infinite(n != k)
    case (Infinite(n), Real(y)) => if y == 0.0 then NaN else Infinite(n != (y < 0.0))
    case (Real(x), Infinite(k)) => if x == 0.0 then NaN else Infinite(k != (x < 0.0))
    case _ => NaN
  }

  function Over(round: Rounding, a: Value, b: Value): Value
  {
    match (a, b)
    case (Real(x), Real(y)) =>
      if y != 0.0 then round(x / y) else if x == 0.0 then NaN else Infinite(x < 0.0)
    case (Infinite(n), Real(y)) => Infinite(n != (y < 0.0))
    case (Real(_), Infinite(_)) => ZERO
    case _ => NaN
  }

  /** `f32::max`: what is no number gives way to the other. */
  function MaxOf(a: Value, b: Value): Value
  {
    if a.NaN? then b else if b.NaN? then a else if AtMost(a, b) then b else a
  }

  // ---------- where results are no real numbers ----------

  function Sign(v: Value): int
    requires !v.NaN?
  {
    match v
    case Infinite(negative) => if negative then -1 else 1
    case Real(x) => if x == 0.0 then 0 else if x < 0.0 then -1 else 1
  }

  /** The sum with an infinity is that infinity, unless the opposite one is added. */
  lemma InfiniteSum(round: Rounding, a: Value, b: Value)
    requires !a.NaN? && !b.NaN? && (a.Infinite? || b.Infinite?)
    ensures a.Infinite? && b.Infinite? && Sign(a) != Sign(b) ==> Plus(round, a, b) == NaN
    ensures !(a.Infinite? && b.Infinite? && Sign(a) != Sign(b)) ==>
      Plus(round, a, b) == if a.Infinite? then a else b
    ensures Minus(round, a, b) == Plus(round, a, Negated(b)) && Sign(Negated(b)) == -Sign(b)
  {
  }

  /** The product with an infinity has the sign of the product, and is no number for zero. */
  lemma InfiniteProduct(round: Rounding, a: Value, b: Value)
    requires !a.NaN? && !b.NaN? && (a.Infinite? || b.Infinite?)
    ensures Times(round, a, b) == if Sign(a) * Sign(b) == 0 then NaN else Infinite(Sign(a) * Sign(b) < 0)
  {
  }

  /** Quotients: by zero an infinity, of infinities no number, of an infinity its own, by one zero. */
  lemma InfiniteQuotient(round: Rounding, a: Value, b: Value)
    requires !a.NaN? && !b.NaN? && (a.Infinite? || b.Infinite? || Sign(b) == 0)
    ensures Over(round, a, b) ==
      if (a.Infinite? && b.Infinite?) || (Sign(a) == 0 && Sign(b) == 0) then NaN
      else if b.Infinite? then Real(0.0)
      else Infinite(if Sign(b) == -1 then Sign(a) == 1 else Sign(a) == -1)
  {
  }

  lemma NoNumberStays(round: Rounding, a: Value)
    ensures Plus(round, NaN, a) == Plus(round, a, NaN) == NaN && Minus(round, NaN, a) == Minus(round, a, NaN) == NaN
    ensures Times(round, NaN, a) == Times(round, a, NaN) == NaN && Over(round, NaN, a) == Over(round, a, NaN) == NaN
    ensures !AtMost(NaN, a) && !AtMost(a, NaN) && MaxOf(NaN, a) == MaxOf(a, NaN) == a
  {
  }

  /** Numbers are ordered, the infinities outermost. */
  lemma NumbersAreOrdered(a: Value, b: Value)
    requires !a.NaN? && !b.NaN?
    ensures AtMost(a, b) || AtMost(b, a)
    ensures AtMost(a, b) && AtMost(b, a) ==> a == b
    ensures AtMost(Infinite(true), a) && AtMost(a, Infinite(false))
    ensures AtMost(a, MaxOf(a, b)) && AtMost(b, MaxOf(a, b)) && MaxOf(a, b) in {a, b}
  {
  }

  // ---------- the value of 32 bits ----------

  function Pow2(e: int): (p: real)
    ensures p > 0.0
    decreases if e < 0 then -e else e
  {
    if e == 0 then 1.0 else if e > 0 then 2.0 * Pow2(e - 1) else Pow2(e + 1) / 2.0
  }

  /** `f32::from_bits`: sign, exponent and mantissa. */
  function FromBits(bits: nat): (v: Value)
    ensures v.Real? <==> (bits / 0x80_0000) % 256 != 255
  {
    var negative, exponent, mantissa := bits >= 0x8000_0000, (bits / 0x80_0000) % 256, bits % 0x80_0000;
    var sign := if negative then -1.0 else 1.0;
    if exponent == 255 then (if mantissa == 0 then Infinite(negative) else NaN)
    else if exponent == 0 then Real(sign * (mantissa as real * Pow2(-149)))
    else Real(sign * ((0x80_0000 + mantissa) as real * Pow2(exponent - 150)))
  }

  lemma Pow2Next(e: int)
    ensures Pow2(e + 1) == 2.0 * Pow2(e)
  {
  }

  lemma Pow2Zero()
    ensures Pow2(0) == 1.0
  {
  }

  lemma Doubled(a: real, b: real)
    ensures 2.0 * (a * b) == a * (2.0 * b)
  {
  }

  lemma {:induction false} Pow2Sum(e: int, n: nat)
    ensures Pow2(e + n) == Pow2(e) * Pow2(n)
  {
    hide Pow2;
    if n == 0 {
      Pow2Zero();
    } else {
      Pow2Sum(e, n - 1);
      Pow2Next(e + n - 1);
      Pow2Next(n - 1);
      Doubled(Pow2(e), Pow2(n - 1));
    }
  }

  /** The fraction `mantissa` of 2 to the 23, above one, at this exponent. */
  lemma NormalValue(mantissa: nat, exponent: nat)
    ensures (0x80_0000 + mantissa) as real * Pow2(exponent - 150)
      == (1.0 + mantissa as real / 8388608.0) * Pow2(exponent - 127)
  {
    Pow2Sum(exponent - 150, 23);
    assert Pow2(23) == 8388608.0 by { Pow2Of23(); }
    var p := Pow2(exponent - 150);
    assert (1.0 + mantissa as real / 8388608.0) * (p * 8388608.0) == (8388608.0 + mantissa as real) * p;
  }

  lemma Pow2Of23()
    ensures Pow2(23) == 8388608.0
  {
    assert Pow2(3) == 8.0;
    assert Pow2(5) == 32.0;
    assert Pow2(10) == 1024.0 by { Pow2Sum(5, 5); }
    assert Pow2(13) == 8192.0 by { Pow2Sum(10, 3); }
    Pow2Sum(13, 10);
  }

  lemma BitsSplit(sign: nat, exponent: nat, mantissa: nat)
    requires sign < 2 && exponent < 256 && mantissa < 8388608
    ensures var bits := sign * 2147483648 + exponent * 8388608 + mantissa;
      && (bits >= 0x8000_0000 <==> sign == 1) && (bits / 0x80_0000) % 256 == exponent && bits % 0x80_0000 == mantissa
  {
    var bits := sign * 2147483648 + exponent * 8388608 + mantissa;
    assert bits == 8388608 * (256 * sign + exponent) + mantissa;
    assert bits / 8388608 == 256 * sign + exponent;
  }

  /** The interchange format of clause 3.4 of IEEE 754: a sign, eight bits of exponent, 23 of fraction. */
  lemma BitsMean(sign: nat, exponent: nat, mantissa: nat)
    requires sign < 2 && exponent < 256 && mantissa < 8388608
    ensures var v := FromBits(sign * 2147483648 + exponent * 8388608 + mantissa);
      var unit := if sign == 1 then -1.0 else 1.0;
      && (exponent == 255 ==> v == if mantissa == 0 then Infinite(sign == 1) else NaN)
      && (exponent == 0 ==> v == Real(unit * (mantissa as real * Pow2(-149))))
      && (0 < exponent < 255 ==> v == Real(unit * ((1.0 + mantissa as real / 8388608.0) * Pow2(exponent - 127))))
  {
    hide Pow2;
    BitsSplit(sign, exponent, mantissa);
    NormalValue(mantissa, exponent);
  }

  // ---------- what is used of the arithmetic ----------

  /** Rounding keeps the order and what is representable, among it small multiples of a sixteenth. */
  ghost predicate RoundingOk(round: Rounding)
  {
    && (forall x, y :: x <= y ==> AtMost(round(x), round(y)))
    && (forall x :: round(x).Real? ==> round(round(x).value) == round(x))
    && (forall n: nat :: n <= 256 ==> Small(round, n))
  }

  predicate Small(round: Rounding, n: nat)
  {
    round(n as real / 16.0) == Real(n as real / 16.0)
  }

  lemma RoundKeepsOrder(round: Rounding, x: real, y: real)
    requires RoundingOk(round) && x <= y
    ensures AtMost(round(x), round(y))
  {
  }

  lemma RoundsOnce(round: Rounding, x: real)
    requires RoundingOk(round) && round(x).Real?
    ensures round(round(x).value) == round(x)
  {
  }

  lemma SmallIsExact(round: Rounding, n: nat)
    requires RoundingOk(round) && n <= 16
    ensures round(n as real) == Real(n as real) && round(1.0 / 16.0) == Real(1.0 / 16.0)
  {
    assert Small(round, 16 * n) && Small(round, 1);
    assert (16 * n) as real / 16.0 == n as real;
  }

  /** The exponential of numbers up to zero: between zero and one, in order, and one at zero. */
  ghost predicate ExponentialOk(round: Rounding, exp: Value -> Value)
  {
    && exp(ZERO) == ONE
    && (forall v :: AtMost(v, ZERO) ==> InUnit(round, exp(v)))
    && (forall v, w :: AtMost(v, w) && AtMost(w, ZERO) ==> AtMost(exp(v), exp(w)))
  }

  /** A representable value between zero and one. */
  predicate InUnit(round: Rounding, v: Value)
  {
    v.Real? && 0.0 <= v.value <= 1.0 && round(v.value) == v
  }

  lemma ExponentialAt(round: Rounding, exp: Value -> Value, v: Value, w: Value)
    requires ExponentialOk(round, exp) && AtMost(v, w) && AtMost(w, ZERO)
    ensures InUnit(round, exp(v)) && InUnit(round, exp(w)) && exp(v).value <= exp(w).value
  {
    AtMostChains(v, w, ZERO);
    assert AtMost(exp(v), exp(w));
  }

  lemma AtMostChains(a: Value, b: Value, c: Value)
    requires AtMost(a, b) && AtMost(b, c)
    ensures AtMost(a, c)
  {
  }

  // ---------- an instance that overflows ----------

  const LARGEST: real := 340282346638528859811704183484516925440.0

  function Bounded(x: real): Value
  {
    if x > LARGEST then Infinite(false) else if x < -LARGEST then Infinite(true) else Real(x)
  }

  function AtZeroOnly(v: Value): Value
  {
    if v == ZERO then ONE else ZERO
  }

  lemma BoundedIsOk()
    ensures RoundingOk(Bounded) && ExponentialOk(Bounded, AtZeroOnly)
  {
    forall n: nat | n <= 256
      ensures Small(Bounded, n)
    {
    }
    forall v | AtMost(v, ZERO)
      ensures InUnit(Bounded, AtZeroOnly(v))
    {
    }
  }

  lemma {:induction false} Pow2Twice(n: nat)
    ensures Pow2(n + n) == Pow2(n) * Pow2(n)
  {
    if n > 0 {
      Pow2Twice(n - 1);
      assert Pow2(n + n) == 2.0 * Pow2(n + n - 1) == 4.0 * Pow2(n + n - 2);
    }
  }

  /** 2 to the 127, by its bits; its square is out of range. */
  const HUGE: nat := 0x7F00_0000

  lemma PowersOfTwo()
    ensures Pow2(104) == 20282409603651670423947251286016.0
  {
    assert Pow2(13) == 8192.0 by { SmallPowers(); }
    hide Pow2;
    Pow2Twice(13);
    Pow2Twice(26);
    Pow2Twice(52);
  }

  lemma SmallPowers()
    ensures Pow2(13) == 8192.0
  {
    assert Pow2(3) == 8.0;
    assert Pow2(6) == 64.0 by { Pow2Twice(3); }
    assert Pow2(12) == 4096.0 by { Pow2Twice(6); }
  }

  lemma HugeIs()
    ensures FromBits(HUGE) == Real(170141183460469231731687303715884105728.0)
  {
    PowersOfTwo();
    hide Pow2;
    assert HUGE % 0x80_0000 == 0 && HUGE / 0x80_0000 == 254;
  }

  lemma HugeSquare()
    ensures FromBits(HUGE).Real? && Bounded(FromBits(HUGE).value) == FromBits(HUGE)
    ensures FromBits(HUGE).value > 0.0
    ensures Bounded(FromBits(HUGE).value * FromBits(HUGE).value) == Infinite(false)
  {
    hide FromBits;
    HugeIs();
  }
}
