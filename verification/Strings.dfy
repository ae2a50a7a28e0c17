/** Text helpers: the order of `BTreeMap<String, _>`, splitting, trimming and decimal numbers. */
module Strings {
  import opened Wrappers

  // ---------- the order in which ordered sets and maps iterate ----------

  predicate Below(a: string, b: string)
  {
    |b| > 0 && (|a| == 0 || a[0] < b[0] || (a[0] == b[0] && Below(a[1..], b[1..])))
  }

  lemma {:induction false} BelowTotal(a: string, b: string)
    ensures a == b || Below(a, b) || Below(b, a)
    ensures !(Below(a, b) && Below(b, a))
    ensures !Below(a, a)
  {
    if |a| > 0 && |b| > 0 {
      BelowTotal(a[1..], b[1..]);
      if a[0] == b[0] && a[1..] == b[1..] {
        assert a == [a[0]] + a[1..];
        assert b == [b[0]] + b[1..];
      }
    }
    if |a| > 0 {
      BelowTotal(a[1..], a[1..]);
    }
  }

  lemma {:induction false} BelowTransitive(a: string, b: string, c: string)
    requires Below(a, b) && Below(b, c)
    ensures Below(a, c)
  {
    if |a| > 0 && a[0] == b[0] && b[0] == c[0] {
      BelowTransitive(a[1..], b[1..], c[1..]);
    }
  }

  /** `k` is the first place where the two texts differ. */
  ghost predicate DiffersAt(a: string, b: string, k: nat)
  {
    k < |a| && k < |b| && a[..k] == b[..k] && a[k] != b[k]
  }

  /** A proper prefix, or smaller at the first place where the two differ. */
  ghost predicate Lexicographic(a: string, b: string)
  {
    a < b || exists k: nat :: DiffersAt(a, b, k) && a[k] < b[k]
  }

  lemma {:induction false} BelowIff(a: string, b: string)
    ensures Below(a, b) <==> Lexicographic(a, b)
  {
    hide Lexicographic;
    if |a| == 0 || |b| == 0 || a[0] != b[0] {
      DifferentHeads(a, b);
    } else {
      BelowIff(a[1..], b[1..]);
      SameHeads(a, b);
    }
  }

  lemma DifferentHeads(a: string, b: string)
    requires |a| == 0 || |b| == 0 || a[0] != b[0]
    ensures Lexicographic(a, b) <==> |b| > 0 && (|a| == 0 || a[0] < b[0])
  {
    if |a| > 0 && |b| > 0 { assert DiffersAt(a, b, 0); }
  }

  lemma SameHeads(a: string, b: string)
    requires |a| > 0 && |b| > 0 && a[0] == b[0]
    ensures Lexicographic(a, b) <==> Lexicographic(a[1..], b[1..])
  {
    assert a < b <==> a[1..] < b[1..];
    forall k: nat | k > 0
      ensures DiffersAt(a, b, k) <==> DiffersAt(a[1..], b[1..], k - 1)
    {
      if k < |a| && k < |b| {
        assert a[..k] == [a[0]] + a[1..][..k - 1] && b[..k] == [b[0]] + b[1..][..k - 1];
      }
    }
    if k: nat :| DiffersAt(a[1..], b[1..], k) && a[1..][k] < b[1..][k] {
      assert DiffersAt(a, b, k + 1) && a[k + 1] < b[k + 1];
    }
    if k: nat :| DiffersAt(a, b, k) && a[k] < b[k] {
      assert DiffersAt(a[1..], b[1..], k - 1) && a[1..][k - 1] < b[1..][k - 1];
    }
  }

  ghost predicate Ascending(xs: seq<string>)
  {
    forall i, j :: 0 <= i < j < |xs| ==> Below(xs[i], xs[j])
  }

  predicate AtMost(a: string, b: string)
  {
    a == b || Below(a, b)
  }

  predicate IsLeast(x: string, s: set<string>)
  {
    x in s && forall y :: y in s ==> AtMost(x, y)
  }

  lemma {:induction false} LeastExists(s: set<string>)
    requires s != {}
    ensures exists x :: IsLeast(x, s)
  {
    var y :| y in s;
    var rest := s - {y};
    if rest == {} {
      assert s == {y};
      assert IsLeast(y, s);
    } else {
      LeastExists(rest);
      var x :| IsLeast(x, rest);
      BelowTotal(x, y);
      if Below(x, y) {
        assert IsLeast(x, s);
      } else {
        forall z | z in s
          ensures AtMost(y, z)
        {
          if z != y && z != x {
            assert z in rest && AtMost(x, z);
            BelowTransitive(y, x, z);
          }
        }
        assert IsLeast(y, s);
      }
    }
  }

  lemma LeastUnique(s: set<string>)
    ensures forall x, y :: IsLeast(x, s) && IsLeast(y, s) ==> x == y
  {
    forall x, y | IsLeast(x, s) && IsLeast(y, s)
      ensures x == y
    {
      BelowTotal(x, y);
    }
  }

  function Least(s: set<string>): (x: string)
    requires s != {}
    ensures IsLeast(x, s)
  {
    LeastExists(s);
    LeastUnique(s);
    var x :| x in s && IsLeast(x, s);
    x
  }

  /** The elements of an ordered set in iteration order. */
  function SortedKeys(s: set<string>): (xs: seq<string>)
    ensures Ascending(xs)
    ensures forall x :: x in xs <==> x in s
    ensures |xs| == |s|
    decreases |s|
  {
    if s == {} then []
    else
      var x := Least(s);
      assert |s - {x}| == |s| - 1;
      var rest := SortedKeys(s - {x});
      assert forall k :: 0 <= k < |rest| ==> rest[k] in s - {x} && Below(x, rest[k]) by {
        assert forall k :: 0 <= k < |rest| ==> rest[k] in rest;
      }
      [x] + rest
  }

  lemma AscendingDistinct(xs: seq<string>)
    requires Ascending(xs)
    ensures forall i, j :: 0 <= i < j < |xs| ==> xs[i] != xs[j]
  {
    forall i, j | 0 <= i < j < |xs|
      ensures xs[i] != xs[j]
    {
      BelowTotal(xs[i], xs[j]);
    }
  }

  /** A sorted duplicate-free list is determined by its elements. */
  lemma {:induction false} AscendingUnique(xs: seq<string>, ys: seq<string>)
    requires Ascending(xs) && Ascending(ys)
    requires forall x :: x in xs <==> x in ys
    ensures xs == ys
  {
    assert |xs| == 0 <==> |ys| == 0 by {
      if |xs| > 0 { assert xs[0] in xs; }
      if |ys| > 0 { assert ys[0] in ys; }
    }
    if |xs| > 0 {
      assert xs[0] in ys;
      assert ys[0] in xs;
      BelowTotal(xs[0], ys[0]);
      AscendingDistinct(xs);
      AscendingDistinct(ys);
      assert xs[0] == ys[0];
      forall x
        ensures x in xs[1..] <==> x in ys[1..]
      {
        assert x in xs <==> x == xs[0] || x in xs[1..];
        assert x in ys <==> x == ys[0] || x in ys[1..];
      }
      AscendingUnique(xs[1..], ys[1..]);
    }
  }

  // ---------- splitting and trimming ----------

  function Split(s: string, sep: char): (parts: seq<string>)
    ensures |parts| >= 1
  {
    if |s| == 0 then [""]
    else
      var rest := Split(s[1..], sep);
      if s[0] == sep then [""] + rest else [[s[0]] + rest[0]] + rest[1..]
  }

  function Join(parts: seq<string>, sep: char): string
    requires |parts| >= 1
  {
    if |parts| == 1 then parts[0] else parts[0] + [sep] + Join(parts[1..], sep)
  }

  lemma {:induction false} JoinSplit(s: string, sep: char)
    ensures Join(Split(s, sep), sep) == s
    ensures forall p :: p in Split(s, sep) ==> sep !in p
  {
    if |s| > 0 {
      JoinSplit(s[1..], sep);
      var rest := Split(s[1..], sep);
      if s[0] != sep && |rest| > 1 {
        var parts := Split(s, sep);
        assert parts[1..] == rest[1..];
        assert Join(parts, sep) == [s[0]] + (rest[0] + [sep] + Join(rest[1..], sep));
      } else if s[0] == sep {
        assert Split(s, sep)[1..] == rest;
      }
    }
  }

  lemma {:induction false} SplitPlain(p: string, sep: char)
    requires sep !in p
    ensures Split(p, sep) == [p]
  {
    if |p| > 0 {
      SplitPlain(p[1..], sep);
      assert p == [p[0]] + p[1..];
    }
  }

  lemma {:induction false} SplitConcat(p: string, rest: string, sep: char)
    requires sep !in p
    ensures Split(p + [sep] + rest, sep) == [p] + Split(rest, sep)
  {
    var s := p + [sep] + rest;
    if |p| == 0 {
      assert s[1..] == rest;
    } else {
      assert s[1..] == p[1..] + [sep] + rest;
      SplitConcat(p[1..], rest, sep);
      assert p == [p[0]] + p[1..];
    }
  }

  lemma {:induction false} SplitJoin(parts: seq<string>, sep: char)
    requires |parts| >= 1
    requires forall p :: p in parts ==> sep !in p
    ensures Split(Join(parts, sep), sep) == parts
  {
    if |parts| == 1 {
      SplitPlain(parts[0], sep);
    } else {
      SplitJoin(parts[1..], sep);
      SplitConcat(parts[0], Join(parts[1..], sep), sep);
    }
  }

  /** `str::split_once`: the text before and after the first separator. */
  function SplitOnce(s: string, sep: char): (r: Option<(string, string)>)
    ensures r.None? <==> sep !in s
    ensures r.Some? ==> sep !in r.value.0 && s == r.value.0 + [sep] + r.value.1
  {
    if |s| == 0 then None
    else if s[0] == sep then Some(("", s[1..]))
    else
      match SplitOnce(s[1..], sep)
      case None => None
      case Some((a, b)) => Some(([s[0]] + a, b))
  }

  lemma {:induction false} SplitOnceUnique(a: string, b: string, sep: char)
    requires sep !in a
    ensures SplitOnce(a + [sep] + b, sep) == Some((a, b))
  {
    var s := a + [sep] + b;
    if |a| == 0 {
      assert s[1..] == b;
    } else {
      assert s[1..] == a[1..] + [sep] + b;
      SplitOnceUnique(a[1..], b, sep);
      assert a == [a[0]] + a[1..];
    }
  }

  /** `char::is_whitespace`. */
  predicate IsSpace(c: char)
  {
    var n := c as int;
    9 <= n <= 13 || n == 32 || n == 0x85 || n == 0xA0 || n == 0x1680 || 0x2000 <= n <= 0x200A
    || n == 0x2028 || n == 0x2029 || n == 0x202F || n == 0x205F || n == 0x3000
  }

  predicate Trimmed(s: string)
  {
    |s| > 0 ==> !IsSpace(s[0]) && !IsSpace(s[|s| - 1])
  }

  /** Drops every leading and trailing character that `drop` accepts. */
  function TrimWhere(s: string, drop: char -> bool): (t: string)
    ensures |t| > 0 ==> !drop(t[0]) && !drop(t[|t| - 1])
    ensures (|s| > 0 ==> !drop(s[0]) && !drop(s[|s| - 1])) ==> t == s
    ensures forall c :: c in t ==> c in s
    ensures |t| <= |s|
    decreases |s|
  {
    if |s| == 0 then s
    else if drop(s[0]) then TrimWhere(s[1..], drop)
    else if drop(s[|s| - 1]) then TrimWhere(s[..|s| - 1], drop)
    else s
  }

  function Trim(s: string): (t: string)
    ensures Trimmed(t)
    ensures Trimmed(s) ==> t == s
    ensures forall c :: c in t ==> c in s
  {
    TrimWhere(s, IsSpace)
  }

  /** One blank on either side of a trimmed, non-empty text is all that trimming removes. */
  lemma TrimPadded(s: string)
    requires Trimmed(s) && |s| > 0
    ensures Trim(s + " ") == s && Trim(" " + s) == s
  {
    assert (s + " ")[..|s|] == s;
    assert (" " + s)[1..] == s;
  }

  lemma {:induction false} TrimTail(s: string)
    ensures Trim(s + " ") == Trim(s)
  {
    var t := s + " ";
    if s == "" {
      assert t[1..] == "";
    } else if IsSpace(s[0]) {
      assert t[1..] == s[1..] + " ";
      TrimTail(s[1..]);
    } else {
      assert t[..|s|] == s;
    }
  }

  ghost predicate AllOf(s: string, drop: char -> bool)
  {
    forall c :: c in s ==> drop(c)
  }

  lemma TrimFirst(s: string, drop: char -> bool)
    requires s != "" && drop(s[0])
    ensures TrimWhere(s, drop) == TrimWhere(s[1..], drop)
  {
  }

  lemma TrimLast(s: string, drop: char -> bool)
    requires s != "" && !drop(s[0]) && drop(s[|s| - 1])
    ensures TrimWhere(s, drop) == TrimWhere(s[..|s| - 1], drop)
  {
  }

  lemma TrimNone(s: string, drop: char -> bool)
    requires s == "" || (!drop(s[0]) && !drop(s[|s| - 1]))
    ensures TrimWhere(s, drop) == s
  {
  }

  lemma AllOfMore(s: string, c: char, drop: char -> bool)
    ensures AllOf("", drop)
    ensures AllOf(s, drop) && drop(c) ==> AllOf([c] + s, drop) && AllOf(s + [c], drop)
    ensures AllOf(s, drop) && s != "" ==>
      drop(s[0]) && drop(s[|s| - 1]) && AllOf(s[1..], drop) && AllOf(s[..|s| - 1], drop)
  {
  }

  lemma Regroup(c: char, a: string, m: string, b: string)
    ensures [c] + (a + m + b) == ([c] + a) + m + b && (a + m + b) + [c] == a + m + (b + [c])
  {
  }

  /** Trimming takes off such characters at both ends and nothing else. */
  lemma {:induction false} TrimTakes(s: string, drop: char -> bool) returns (front: string, back: string)
    ensures s == front + TrimWhere(s, drop) + back && AllOf(front, drop) && AllOf(back, drop)
    decreases |s|
  {
    hide TrimWhere, AllOf;
    AllOfMore("", ' ', drop);
    if s != "" && drop(s[0]) {
      var rest;
      rest, back := TrimTakes(s[1..], drop);
      front := [s[0]] + rest;
      TrimFirst(s, drop);
      AllOfMore(rest, s[0], drop);
      Regroup(s[0], rest, TrimWhere(s, drop), back);
      assert s == [s[0]] + s[1..];
    } else if s != "" && drop(s[|s| - 1]) {
      var rest;
      front, rest := TrimTakes(s[..|s| - 1], drop);
      back := rest + [s[|s| - 1]];
      TrimLast(s, drop);
      AllOfMore(rest, s[|s| - 1], drop);
      Regroup(s[|s| - 1], front, TrimWhere(s, drop), rest);
      assert s == s[..|s| - 1] + [s[|s| - 1]];
    } else {
      front, back := "", "";
      TrimNone(s, drop);
      assert s == "" + s + "";
    }
  }

  /** Such characters around a text make no difference to what trimming leaves of it. */
  lemma {:induction false} TrimGone(a: string, m: string, b: string, drop: char -> bool)
    requires AllOf(a, drop) && AllOf(b, drop)
    ensures TrimWhere(a + m + b, drop) == TrimWhere(m, drop)
    decreases |a|, |b|, |m|
  {
    hide TrimWhere, AllOf;
    var s := a + m + b;
    AllOfMore(a, ' ', drop);
    AllOfMore(b, ' ', drop);
    if a != "" {
      assert s[0] == a[0] && s[1..] == a[1..] + m + b;
      TrimFirst(s, drop);
      TrimGone(a[1..], m, b, drop);
    } else if b == "" {
      assert s == m;
    } else if m == "" {
      assert s[0] == b[0] && s[1..] == a + m + b[1..];
      TrimFirst(s, drop);
      TrimGone(a, m, b[1..], drop);
    } else if drop(m[0]) {
      assert s[0] == m[0] && s[1..] == a + m[1..] + b;
      TrimFirst(s, drop);
      TrimFirst(m, drop);
      TrimGone(a, m[1..], b, drop);
    } else {
      assert s[0] == m[0] && s[|s| - 1] == b[|b| - 1] && s[..|s| - 1] == a + m + b[..|b| - 1];
      TrimLast(s, drop);
      TrimGone(a, m, b[..|b| - 1], drop);
    }
  }

  /** The white space of Unicode. */
  lemma SpaceIs(c: char)
    ensures IsSpace(c) <==> c as int in {9, 10, 11, 12, 13, 32, 133, 160, 5760, 8192, 8193, 8194, 8195, 8196, 8197,
      8198, 8199, 8200, 8201, 8202, 8232, 8233, 8239, 8287, 12288}
  {
  }

  function LowerAscii(c: char): char
  {
    if 'A' <= c <= 'Z' then (c as int + 32) as char else c
  }

  /** `str::to_ascii_lowercase`. */
  function ToLowerAscii(s: string): (t: string)
    ensures |t| == |s|
    ensures forall i :: 0 <= i < |s| ==> t[i] == LowerAscii(s[i])
  {
    seq(|s|, i requires 0 <= i < |s| => LowerAscii(s[i]))
  }

  const UPPER := "ABCDEFGHIJKLMNOPQRSTUVWXYZ"
  const LOWER := "abcdefghijklmnopqrstuvwxyz"

  /** Each capital letter becomes the small letter at its place in the alphabet; other characters stay. */
  lemma LowerIs(c: char)
    ensures forall i :: 0 <= i < 26 && c == UPPER[i] ==> LowerAscii(c) == LOWER[i]
    ensures c !in UPPER ==> LowerAscii(c) == c
  {
    if 'A' <= c <= 'Z' { assert UPPER[c as int - 65] == c; }
  }

  lemma LowerAsciiIdempotent(s: string)
    ensures ToLowerAscii(ToLowerAscii(s)) == ToLowerAscii(s)
  {
  }

  // ---------- numbers and digests as text ----------

  function Digit(d: nat): (c: char)
    requires d < 10
    ensures '0' <= c <= '9'
  {
    ('0' as int + d) as char
  }

  predicate IsDigits(s: string)
  {
    forall c :: c in s ==> '0' <= c <= '9'
  }

  function Decimal(n: nat): (s: string)
    ensures |s| >= 1 && IsDigits(s)
  {
    if n < 10 then [Digit(n)] else Decimal(n / 10) + [Digit(n % 10)]
  }

  function Pow10(k: nat): (p: nat)
    ensures p >= 1
  {
    if k == 0 then 1 else 10 * Pow10(k - 1)
  }

  lemma {:induction false} DecimalLength(n: nat, k: nat)
    requires k >= 1 && n < Pow10(k)
    ensures |Decimal(n)| <= k
  {
    if n >= 10 {
      assert Pow10(1) == 10;
      DecimalLength(n / 10, k - 1);
    }
  }

  lemma {:induction false} DecimalInjective(m: nat, n: nat)
    requires Decimal(m) == Decimal(n)
    ensures m == n
  {
    if m < 10 {
      assert n >= 10 ==> |Decimal(n)| >= 2;
      assert Decimal(m)[0] == Digit(m);
    } else {
      assert |Decimal(m)| >= 2;
      var a, b := Decimal(m), Decimal(n);
      assert a[..|a| - 1] == Decimal(m / 10);
      assert b[..|b| - 1] == Decimal(n / 10);
      assert a[|a| - 1] == Digit(m % 10);
      assert b[|b| - 1] == Digit(n % 10);
      DecimalInjective(m / 10, n / 10);
    }
  }

  lemma DigitsPrefix(s: string)
    requires IsDigits(s) && s != ""
    ensures IsDigits(s[..|s| - 1])
  {
    var t := s[..|s| - 1];
    forall c | c in t
      ensures '0' <= c <= '9'
    {
      assert c in s;
    }
  }

  function DigitsValue(s: string): (n: nat)
    requires IsDigits(s)
  {
    if s == "" then 0
    else
      assert s[|s| - 1] in s;
      DigitsPrefix(s);
      10 * DigitsValue(s[..|s| - 1]) + (s[|s| - 1] as int - '0' as int)
  }

  lemma {:induction false} DigitsOfDecimal(n: nat)
    ensures DigitsValue(Decimal(n)) == n
    ensures Decimal(n)[0] == '0' <==> n == 0
  {
    var s := Decimal(n);
    if n < 10 {
      assert s[..0] == "";
      assert DigitsValue(s[..0]) == 0;
    } else {
      DigitsOfDecimal(n / 10);
      assert s[..|s| - 1] == Decimal(n / 10);
    }
  }

  type Byte = n: int | 0 <= n < 256

  function HexDigit(d: nat): (c: char)
    requires d < 16
  {
    if d < 10 then Digit(d) else ('a' as int + (d - 10)) as char
  }

  function HexValue(c: char): (v: Option<nat>)
    ensures v.Some? ==> v.value < 16
  {
    if '0' <= c <= '9' then Some(c as int - '0' as int)
    else if 'a' <= c <= 'f' then Some(c as int - 'a' as int + 10)
    else if 'A' <= c <= 'F' then Some(c as int - 'A' as int + 10)
    else None
  }

  function Hex(bytes: seq<Byte>): (s: string)
    ensures |s| == 2 * |bytes|
  {
    if |bytes| == 0 then ""
    else [HexDigit(bytes[0] / 16), HexDigit(bytes[0] % 16)] + Hex(bytes[1..])
  }

  /** `decode_hex`: exactly `n` bytes, two hexadecimal digits each, of either case. */
  function DecodeHex(s: string, n: nat): (r: Option<seq<Byte>>)
    ensures r.Some? ==> |r.value| == n
  {
    if n == 0 then if |s| == 0 then Some([]) else None
    else if |s| < 2 then None
    else
      match (HexValue(s[0]), HexValue(s[1]), DecodeHex(s[2..], n - 1))
      case (Some(h), Some(l), Some(rest)) => Some([16 * h + l] + rest)
      case _ => None
  }

  lemma {:induction false} DecodeHexOfHex(bytes: seq<Byte>)
    ensures DecodeHex(Hex(bytes), |bytes|) == Some(bytes)
  {
    if |bytes| > 0 {
      DecodeHexOfHex(bytes[1..]);
      assert Hex(bytes)[2..] == Hex(bytes[1..]);
      assert 16 * (bytes[0] / 16) + bytes[0] % 16 == bytes[0];
      assert bytes == [bytes[0]] + bytes[1..];
    }
  }

  const HEX_DIGITS := "0123456789abcdef"

  /** The value of a hexadecimal digit is its place among the digits, in either case. */
  lemma HexValueIs(c: char)
    ensures forall v: nat :: v < 16 ==> (HexValue(c) == Some(v) <==> LowerAscii(c) == HEX_DIGITS[v])
  {
  }

  /** A text decodes to exactly the bytes whose hexadecimal form it is. */
  lemma {:induction false} DecodeHexIff(s: string, bytes: seq<Byte>)
    ensures DecodeHex(s, |bytes|) == Some(bytes) <==> ToLowerAscii(s) == Hex(bytes)
  {
    if |bytes| > 0 && |s| >= 2 {
      DecodeHexIff(s[2..], bytes[1..]);
      TwoDigits(s[0], s[1], bytes[0]);
      assert bytes == [bytes[0]] + bytes[1..];
      assert ToLowerAscii(s) == [LowerAscii(s[0]), LowerAscii(s[1])] + ToLowerAscii(s[2..]);
      assert Hex(bytes)[2..] == Hex(bytes[1..]) && ToLowerAscii(s)[2..] == ToLowerAscii(s[2..]);
    }
  }

  lemma TwoDigits(a: char, b: char, n: Byte)
    ensures HexValue(a).Some? && HexValue(b).Some? && 16 * HexValue(a).value + HexValue(b).value == n
      <==> LowerAscii(a) == HexDigit(n / 16) && LowerAscii(b) == HexDigit(n % 16)
  {
  }
}
