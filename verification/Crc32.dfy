/**
 * The CRC-32 of the layout model's n-gram hashing: the table-driven loop equals the bit-serial
 * division by the reflected polynomial 0xEDB88320 (src/layout_model.rs; section 8 of RFC 1952).
 */
module Crc32 {
  // ---------- words ----------

  function Xor(a: bv32, b: bv32): bv32 { a ^ b }

  function Half(a: bv32): bv32 { a >> 1 }

  function Low(a: bv32): bool { a & 1 == 1 }

  function Byte(a: bv32): bv32 { a & 0xFF }

  function High(a: bv32): bv32 { a >> 8 }

  lemma XorAssociates(a: bv32, b: bv32, c: bv32)
    ensures Xor(Xor(a, b), c) == Xor(a, Xor(b, c))
  {
  }

  lemma XorCommutes(a: bv32, b: bv32)
    ensures Xor(a, b) == Xor(b, a)
  {
  }

  lemma XorCancels(p: bv32, a: bv32, b: bv32)
    ensures Xor(Xor(p, a), Xor(p, b)) == Xor(a, b)
  {
    hide Xor;
    XorCommutes(p, a);
    XorAssociates(a, p, Xor(p, b));
    XorUndo(p, b);
  }

  lemma XorUndo(p: bv32, b: bv32)
    ensures Xor(p, Xor(p, b)) == b
  {
  }

  lemma XorZero(a: bv32)
    ensures Xor(a, 0) == a
  {
  }

  lemma XorHalf(a: bv32, b: bv32)
    ensures Half(Xor(a, b)) == Xor(Half(a), Half(b))
  {
  }

  lemma XorLow(a: bv32, b: bv32)
    ensures Low(Xor(a, b)) == (Low(a) != Low(b))
  {
    assert (a ^ b) & 1 == (a & 1) ^ (b & 1);
    assert a & 1 == 0 || a & 1 == 1;
    assert b & 1 == 0 || b & 1 == 1;
  }

  // ---------- the table and the loop ----------

  const POLYNOMIAL: bv32 := 0xEDB8_8320

  /** One step of the table construction. */
  function Shift(value: bv32): bv32
  {
    if Low(value) then Xor(POLYNOMIAL, Half(value)) else Half(value)
  }

  function Shifts(value: bv32, count: nat): bv32
  {
    if count == 0 then value else Shift(Shifts(value, count - 1))
  }

  /** Every entry of the table is its index, shifted eight times. */
  ghost predicate IsTable(table: seq<bv32>)
  {
    |table| == 256 && forall i :: 0 <= i < 256 ==> table[i] == Shifts(i as bv32, 8)
  }

  /** The nested loops that build the table. */
  method BuildTable() returns (table: array<bv32>)
    ensures fresh(table) && IsTable(table[..])
  {
    hide Shift;
    table := new bv32[256];
    var index := 0;
    while index < 256
      invariant 0 <= index <= 256
      invariant forall i :: 0 <= i < index ==> table[i] == Shifts(i as bv32, 8)
    {
      var value := index as bv32;
      var bit := 0;
      while bit < 8
        invariant 0 <= bit <= 8 && value == Shifts(index as bv32, bit)
      {
        value := Shift(value);
        bit := bit + 1;
      }
      table[index] := value;
      index := index + 1;
    }
  }

  /** What one byte does to the register, by the table. */
  function Update(table: seq<bv32>, register: bv32, byte: bv8): bv32
    requires |table| == 256
  {
    Xor(table[Byte(Xor(register, byte as bv32)) as nat], High(register))
  }

  function UpdateAll(table: seq<bv32>, register: bv32, bytes: seq<bv8>): bv32
    requires |table| == 256
  {
    if |bytes| == 0 then register
    else Update(table, UpdateAll(table, register, bytes[..|bytes| - 1]), bytes[|bytes| - 1])
  }

  // ---------- the reference: one message bit at a time ----------

  /** Feeds one message bit into the register, whose low bit leaves. */
  function FeedBit(register: bv32, bit: bool): bv32
  {
    if Low(register) != bit then Xor(POLYNOMIAL, Half(register)) else Half(register)
  }

  /** The register after `count` bits of a byte, least significant first. */
  function FeedBits(register: bv32, byte: bv32, count: nat): bv32
  {
    if count == 0 then register
    else FeedBit(FeedBits(register, byte, count - 1), Low(Dropped(byte, count - 1)))
  }

  /** `byte` without its `count` lowest bits. */
  function Dropped(byte: bv32, count: nat): bv32
  {
    if count == 0 then byte else Half(Dropped(byte, count - 1))
  }

  function FeedAll(register: bv32, bytes: seq<bv8>): bv32
  {
    if |bytes| == 0 then register
    else FeedBits(FeedAll(register, bytes[..|bytes| - 1]), bytes[|bytes| - 1] as bv32, 8)
  }

  /** CRC-32: all ones in, the message bit by bit, the complement out. */
  function Reference(bytes: seq<bv8>): bv32
  {
    !FeedAll(0xFFFF_FFFF, bytes)
  }

  // ---------- linearity ----------

  lemma ShiftLinear(a: bv32, b: bv32)
    ensures Shift(Xor(a, b)) == Xor(Shift(a), Shift(b))
  {
    hide Xor, Half, Low;
    XorHalf(a, b);
    XorLow(a, b);
    XorCancels(POLYNOMIAL, Half(a), Half(b));
    XorAssociates(POLYNOMIAL, Half(a), Half(b));
    XorAssociates(Half(a), POLYNOMIAL, Half(b));
    XorCommutes(Half(a), POLYNOMIAL);
  }

  lemma {:induction false} ShiftsLinear(a: bv32, b: bv32, count: nat)
    ensures Shifts(Xor(a, b), count) == Xor(Shifts(a, count), Shifts(b, count))
  {
    hide Xor, Shift;
    if count > 0 {
      ShiftsLinear(a, b, count - 1);
      ShiftLinear(Shifts(a, count - 1), Shifts(b, count - 1));
    }
  }

  /** Shifting a register that holds pending bits feeds the lowest of them. */
  lemma ShiftFeeds(register: bv32, pending: bv32)
    ensures Shift(Xor(register, pending)) == Xor(FeedBit(register, Low(pending)), Half(pending))
  {
    hide Xor, Half, Low;
    XorHalf(register, pending);
    XorLow(register, pending);
    XorAssociates(POLYNOMIAL, Half(register), Half(pending));
  }

  lemma {:induction false} ShiftsFeed(register: bv32, byte: bv32, count: nat)
    ensures Shifts(Xor(register, byte), count) == Xor(FeedBits(register, byte, count), Dropped(byte, count))
  {
    hide Xor, Shift, FeedBit, Half, Low;
    if count > 0 {
      ShiftsFeed(register, byte, count - 1);
      ShiftFeeds(FeedBits(register, byte, count - 1), Dropped(byte, count - 1));
      assert Dropped(byte, count) == Half(Dropped(byte, count - 1));
    }
  }

  /** A value with no bits in its lowest byte only moves down. */
  lemma HighShifts(a: bv32, count: nat)
    requires Byte(a) == 0 && count <= 8
    ensures Shifts(a, count) == Dropped(a, count)
  {
    hide Xor, Shift;
    if count > 0 {
      HighShifts(a, count - 1);
      LowClear(a, count - 1);
      EvenShift(Dropped(a, count - 1));
    }
  }

  lemma EvenShift(a: bv32)
    requires !Low(a)
    ensures Shift(a) == Half(a)
  {
    hide Xor, Half, Low;
  }

  lemma ShiftedAgain(a: bv32)
    ensures Half(a) == a >> 1 && Half(a >> 1) == a >> 2 && Half(a >> 2) == a >> 3 && Half(a >> 3) == a >> 4
    ensures Half(a >> 4) == a >> 5 && Half(a >> 5) == a >> 6 && Half(a >> 6) == a >> 7
  {
  }

  lemma DroppedIs(a: bv32)
    ensures Dropped(a, 0) == a && Dropped(a, 1) == a >> 1 && Dropped(a, 2) == a >> 2 && Dropped(a, 3) == a >> 3
    ensures Dropped(a, 4) == a >> 4 && Dropped(a, 5) == a >> 5 && Dropped(a, 6) == a >> 6 && Dropped(a, 7) == a >> 7
  {
    hide Half;
    ShiftedAgain(a);
    assert Dropped(a, 1) == Half(Dropped(a, 0));
    assert Dropped(a, 2) == Half(Dropped(a, 1));
    assert Dropped(a, 3) == Half(Dropped(a, 2));
    assert Dropped(a, 4) == Half(Dropped(a, 3));
    assert Dropped(a, 5) == Half(Dropped(a, 4));
    assert Dropped(a, 6) == Half(Dropped(a, 5));
    assert Dropped(a, 7) == Half(Dropped(a, 6));
  }

  lemma LowClear(a: bv32, count: nat)
    requires Byte(a) == 0 && count < 8
    ensures !Low(Dropped(a, count))
  {
    hide Dropped;
    DroppedIs(a);
    BitsClear(a);
    assert count in {0, 1, 2, 3, 4, 5, 6, 7};
  }

  lemma BitsClear(a: bv32)
    requires Byte(a) == 0
    ensures !Low(a) && !Low(a >> 1) && !Low(a >> 2) && !Low(a >> 3)
    ensures !Low(a >> 4) && !Low(a >> 5) && !Low(a >> 6) && !Low(a >> 7)
  {
  }

  /** Two entries of the table that the code in section 8 of RFC 1952 computes: the latter is the polynomial itself. */
  lemma KnownEntries()
    ensures Shifts(1, 8) == 0x7707_3096 && Shifts(128, 8) == 0xEDB8_8320
  {
    ShiftsFrom(1, 0x7707_3096);
    ShiftsFrom(128, 0xEDB8_8320);
  }

  lemma ShiftsFrom(a: bv32, b: bv32)
    requires var c := Shift(Shift(Shift(Shift(a)))); Shift(Shift(Shift(Shift(c)))) == b
    ensures Shifts(a, 8) == b
  {
    hide Shift;
    assert Shifts(a, 2) == Shift(Shifts(a, 1)) && Shifts(a, 1) == Shift(Shifts(a, 0));
    assert Shifts(a, 4) == Shift(Shifts(a, 3)) && Shifts(a, 3) == Shift(Shifts(a, 2));
    assert Shifts(a, 6) == Shift(Shifts(a, 5)) && Shifts(a, 5) == Shift(Shifts(a, 4));
    assert Shifts(a, 8) == Shift(Shifts(a, 7)) && Shifts(a, 7) == Shift(Shifts(a, 6));
  }

  // ---------- one byte, all bytes ----------

  function Upper(a: bv32): bv32 { a & 0xFFFF_FF00 }

  lemma Halves(a: bv32)
    ensures a == Xor(Byte(a), Upper(a)) && Byte(Upper(a)) == 0
  {
  }

  lemma UpperDropped(a: bv32)
    ensures Dropped(Upper(a), 8) == High(a)
  {
    hide Upper, High, Half, Dropped;
    DroppedIs(Upper(a));
    DroppedOnce(Upper(a), 7);
    UpperHigh(a);
  }

  lemma DroppedOnce(a: bv32, count: nat)
    ensures Dropped(a, count + 1) == Half(Dropped(a, count))
  {
    hide Half;
  }

  lemma UpperHigh(a: bv32)
    ensures Half(Upper(a) >> 7) == High(a)
  {
  }

  /** Eight shifts are the table entry of the low byte, added to the rest moved down. */
  lemma EightShifts(a: bv32)
    ensures Shifts(a, 8) == Xor(Shifts(Byte(a), 8), High(a))
  {
    hide Xor, Shifts, Byte, High, Upper, Dropped;
    Halves(a);
    ShiftsLinear(Byte(a), Upper(a), 8);
    HighShifts(Upper(a), 8);
    UpperDropped(a);
  }

  lemma ByteDropped(byte: bv8)
    ensures Dropped(byte as bv32, 8) == 0
  {
    DroppedIs(byte as bv32);
    assert ((byte as bv32) >> 7) >> 1 == 0;
  }

  lemma ByteBelowHigh(register: bv32, byte: bv8)
    ensures High(Xor(register, byte as bv32)) == High(register)
  {
  }

  lemma IndexBack(a: bv32)
    ensures (Byte(a) as nat) < 256 && (Byte(a) as nat) as bv32 == Byte(a)
  {
  }

  lemma UpdateShifts(table: seq<bv32>, register: bv32, byte: bv8)
    requires |table| == 256 && IsTable(table)
    ensures Update(table, register, byte) == Shifts(Xor(register, byte as bv32), 8)
  {
    hide Xor, Shifts, Byte, High;
    var mixed := Xor(register, byte as bv32);
    IndexBack(mixed);
    EightShifts(mixed);
    ByteBelowHigh(register, byte);
  }

  /** One table lookup feeds exactly the eight bits of the byte. */
  lemma UpdateFeeds(table: seq<bv32>, register: bv32, byte: bv8)
    requires |table| == 256 && IsTable(table)
    ensures Update(table, register, byte) == FeedBits(register, byte as bv32, 8)
  {
    hide Xor, Shifts, FeedBits, Dropped, Update, IsTable;
    UpdateShifts(table, register, byte);
    ShiftsFeed(register, byte as bv32, 8);
    ByteDropped(byte);
    XorZero(FeedBits(register, byte as bv32, 8));
  }

  lemma {:induction false} UpdateAllFeeds(table: seq<bv32>, register: bv32, bytes: seq<bv8>)
    requires |table| == 256 && IsTable(table)
    ensures UpdateAll(table, register, bytes) == FeedAll(register, bytes)
  {
    hide Update, FeedBits, IsTable;
    if |bytes| > 0 {
      UpdateAllFeeds(table, register, bytes[..|bytes| - 1]);
      UpdateFeeds(table, UpdateAll(table, register, bytes[..|bytes| - 1]), bytes[|bytes| - 1]);
    }
  }

  /** The hashing loop: for every byte sequence its result is the bit-serial CRC-32. */
  method Crc(table: seq<bv32>, bytes: seq<bv8>) returns (crc: bv32)
    requires |table| == 256 && IsTable(table)
    ensures crc == Reference(bytes)
  {
    hide Update, FeedAll, IsTable;
    var register: bv32 := 0xFFFF_FFFF;
    for i := 0 to |bytes|
      invariant register == UpdateAll(table, 0xFFFF_FFFF, bytes[..i])
    {
      assert bytes[..i + 1][..i] == bytes[..i];
      register := Update(table, register, bytes[i]);
    }
    assert bytes[..|bytes|] == bytes;
    UpdateAllFeeds(table, 0xFFFF_FFFF, bytes);
    return !register;
  }
}
