/**
 The CRC of common/src/crc.c: its table, its byte loop, the bit-at-a-time CRC they stand for
 (MODBUS over Serial Line V1.02, section 6.2.2) and the damage that CRC is sure to notice.

 The register is a bit-vector; bytes and finished CRCs are numbers. The bit operations have names
 (Xor, Half, Odd) so that the inductions below reason about the names and only the small lemmas
 about them open the bit-vectors.
 */
module Crc {
  import opened Settings

  type byte = uint8

  const POLYNOMIAL: bv16 := 0xA001
  const INITIAL: bv16 := 0xFFFF

  function Xor(a: bv16, b: bv16): bv16 {
    a ^ b
  }

  function Half(c: bv16): bv16 {
    c >> 1
  }

  predicate Odd(c: bv16) {
    c & 1 == 1
  }

  /** One step of the shift register. */
  function Shift(c: bv16): bv16 {
    if Odd(c) then Xor(Half(c), POLYNOMIAL) else Half(c)
  }

  function ShiftBy(c: bv16, n: nat): bv16
    decreases n
  {
    if n == 0 then c else ShiftBy(Shift(c), n - 1)
  }

  // ---------------------------------------------------------------- numbers and registers

  function BitValue(bit: bool): bv16 {
    if bit then 1 else 0
  }

  function Join(bit: bool, c: bv16): bv16 {
    (c << 1) | BitValue(bit)
  }

  function Pow2(n: nat): nat {
    if n == 0 then 1 else 2 * Pow2(n - 1)
  }

  /** The number in the low n bits of a register. */
  function Value(c: bv16, n: nat): (x: nat)
    ensures x < Pow2(n)
    decreases n
  {
    if n == 0 then 0 else (if Odd(c) then 1 else 0) + 2 * Value(Half(c), n - 1)
  }

  lemma ByteAndWordBounds()
    ensures Pow2(8) == 0x100 && Pow2(16) == 0x1_0000
  {
    assert Pow2(4) == 0x10;
    assert Pow2(8) == 0x100;
    assert Pow2(12) == 0x1000;
    assert Pow2(16) == 0x1_0000;
  }

  function LowByte(c: bv16): byte {
    ByteAndWordBounds();
    Value(c, 8)
  }

  function ToWord(c: bv16): uint16 {
    ByteAndWordBounds();
    Value(c, 16)
  }

  /** The register that holds the low n bits of a number. */
  function FromValue(x: nat, n: nat): bv16
    decreases n
  {
    if n == 0 then 0 else Join(x % 2 == 1, FromValue(x / 2, n - 1))
  }

  function Widen(b: byte): bv16 {
    FromValue(b, 8)
  }

  // ---------------------------------------------------------------- the code's own form

  function TableEntry(i: uint8): bv16 {
    ShiftBy(Widen(i), 8)
  }

  function TableIndex(crc: bv16, b: byte): uint8 {
    LowByte(Xor(crc, Widen(b)) & 0xFF)
  }

  function High(c: bv16): bv16 {
    c >> 8
  }

  /** One turn of the loop in crc16. */
  function Update(crc: bv16, b: byte): bv16 {
    Xor(High(crc), TableEntry(TableIndex(crc, b)))
  }

  function Fold(crc: bv16, data: seq<byte>): bv16
    decreases |data|
  {
    if data == [] then crc else Fold(Update(crc, data[0]), data[1..])
  }

  function Crc16(data: seq<byte>): uint16 {
    ToWord(Fold(INITIAL, data))
  }

  /** The global crc16_table behind its static init flag. */
  class CrcTable {
    const entries: array<bv16>
    var init: bool

    ghost predicate Valid()
      reads this, entries
    {
      && entries.Length == 0x100
      && (init ==> forall i: uint8 :: entries[i] == TableEntry(i))
    }

    constructor ()
      ensures Valid() && fresh(entries) && !init
    {
      entries := new bv16[0x100];
      init := false;
    }

    method InitCrc16Table()
      requires entries.Length == 0x100
      modifies entries
      ensures forall i: uint8 :: entries[i] == TableEntry(i)
    {
      var i := 0;
      while i < 0x100
        invariant 0 <= i <= 0x100
        invariant forall k: uint8 :: k < i ==> entries[k] == TableEntry(k)
      {
        var crc := Widen(i);
        var j := 0;
        while j < 8
          invariant 0 <= j <= 8
          invariant ShiftBy(crc, 8 - j) == TableEntry(i)
        {
          if crc & 1 != 0 {
            crc := (crc >> 1) ^ POLYNOMIAL;
          } else {
            crc := crc >> 1;
          }
          j := j + 1;
        }
        entries[i] := crc;
        i := i + 1;
      }
    }

    /** The loop's body: one table lookup. */
    method Step(crc: bv16, b: byte) returns (result: bv16)
      requires Valid() && init
      ensures result == Update(crc, b)
    {
      hide TableEntry, Xor, High;
      var index := TableIndex(crc, b);
      result := Xor(High(crc), entries[index]);
    }

    method Crc16Of(data: array<byte>, length: nat) returns (result: uint16)
      requires Valid() && length <= data.Length && data as object != entries
      modifies this, entries
      ensures Valid() && init
      ensures result == Crc16(data[..length])
    {
      if !init {
        init := true;
        InitCrc16Table();
      }
      hide Value, TableEntry, Update;
      var crc := INITIAL;
      var i := 0;
      assert data[0..length] == data[..length];
      while i < length
        invariant 0 <= i <= length
        invariant Valid() && init
        invariant Fold(crc, data[i..length]) == Fold(INITIAL, data[..length])
      {
        assert data[i..length][1..] == data[i + 1..length];
        crc := Step(crc, data[i]);
        i := i + 1;
      }
      result := ToWord(crc);
    }
  }

  // ---------------------------------------------------------------- the reference: one bit at a time

  function FeedBit(c: bv16, bit: bool): bv16 {
    Shift(Xor(c, BitValue(bit)))
  }

  function FeedBits(c: bv16, bits: seq<bool>): bv16
    decreases |bits|
  {
    if bits == [] then c else FeedBits(FeedBit(c, bits[0]), bits[1..])
  }

  /** The low n bits of x, least significant first. */
  function BitsOf(x: bv16, n: nat): (bits: seq<bool>)
    ensures |bits| == n
    decreases n
  {
    if n == 0 then [] else [Odd(x)] + BitsOf(Half(x), n - 1)
  }

  /** The bits of a message in transmission order: bytes in order, least significant bit first. */
  function Bits(data: seq<byte>): (bits: seq<bool>)
    ensures |bits| == 8 * |data|
  {
    if data == [] then [] else BitsOf(Widen(data[0]), 8) + Bits(data[1..])
  }

  // ---------------------------------------------------------------- small facts about the named operations

  lemma XorCommutes(a: bv16, b: bv16)
    ensures Xor(a, b) == Xor(b, a)
  {
  }

  lemma XorAssociates(a: bv16, b: bv16, c: bv16)
    ensures Xor(Xor(a, b), c) == Xor(a, Xor(b, c))
  {
  }

  lemma XorSelf(a: bv16)
    ensures Xor(a, a) == 0
  {
  }

  lemma XorZero(a: bv16)
    ensures Xor(a, 0) == a
  {
  }

  lemma XorHalf(a: bv16, b: bv16)
    ensures Half(Xor(a, b)) == Xor(Half(a), Half(b))
  {
  }

  lemma XorOdd(a: bv16, b: bv16)
    ensures Odd(Xor(a, b)) == (Odd(a) != Odd(b))
  {
  }

  lemma XorRegroups(a: bv16, b: bv16, c: bv16, d: bv16)
    ensures Xor(Xor(a, b), Xor(c, d)) == Xor(Xor(a, c), Xor(b, d))
  {
    hide Xor;
    XorAssociates(a, b, Xor(c, d));
    XorAssociates(b, c, d);
    XorCommutes(b, c);
    XorAssociates(c, b, d);
    XorAssociates(a, c, Xor(b, d));
  }

  lemma HalfAndOddDetermine(x: bv16, y: bv16)
    requires Half(x) == Half(y) && Odd(x) == Odd(y)
    ensures x == y
  {
  }

  lemma BitSplitsOff(x: bv16)
    ensures Xor(BitValue(Odd(x)), Xor(x, BitValue(Odd(x)))) == x
    ensures !Odd(Xor(x, BitValue(Odd(x)))) && Half(Xor(x, BitValue(Odd(x)))) == Half(x)
  {
  }

  lemma ShiftLinear(a: bv16, b: bv16)
    ensures Shift(Xor(a, b)) == Xor(Shift(a), Shift(b))
  {
    hide Xor, Half, Odd;
    XorHalf(a, b);
    XorOdd(a, b);
    var p, q := Half(a), Half(b);
    XorAssociates(p, q, POLYNOMIAL);
    XorAssociates(p, POLYNOMIAL, q);
    XorCommutes(q, POLYNOMIAL);
    XorRegroups(p, POLYNOMIAL, q, POLYNOMIAL);
    XorSelf(POLYNOMIAL);
    XorZero(Xor(p, q));
  }

  lemma {:induction false} ShiftByLinear(a: bv16, b: bv16, n: nat)
    ensures ShiftBy(Xor(a, b), n) == Xor(ShiftBy(a, n), ShiftBy(b, n))
    decreases n
  {
    hide Xor, Shift;
    if n > 0 {
      ShiftLinear(a, b);
      ShiftByLinear(Shift(a), Shift(b), n - 1);
    }
  }

  function HalfBy(x: bv16, n: nat): bv16
    decreases n
  {
    if n == 0 then x else HalfBy(Half(x), n - 1)
  }

  lemma HalfByEight(x: bv16)
    ensures HalfBy(x, 8) == x >> 8
  {
    hide Half;
    var y := Half(Half(Half(Half(x))));
    assert HalfBy(x, 8) == HalfBy(y, 4) by {
      assert HalfBy(x, 8) == HalfBy(Half(Half(x)), 6);
    }
    assert HalfBy(y, 4) == Half(Half(Half(Half(y)))) by {
      assert HalfBy(y, 4) == HalfBy(Half(Half(y)), 2);
    }
    FourHalves(x);
    FourHalves(y);
    assert (x >> 4) >> 4 == x >> 8;
  }

  lemma FourHalves(x: bv16)
    ensures Half(Half(Half(Half(x)))) == x >> 4
  {
  }

  /** The register fits in its low n bits. */
  predicate FitsIn(c: bv16, n: nat)
    decreases n
  {
    if n == 0 then c == 0 else FitsIn(Half(c), n - 1)
  }

  predicate TopBit(c: bv16) {
    c & 0x8000 != 0
  }

  lemma FitsFifteen(c: bv16, n: nat)
    requires FitsIn(c, n) && n <= 15
    ensures !TopBit(c)
  {
    hide Half;
    FitsMore(c, n, 15);
    assert FitsIn(c, 15) == FitsIn(Half(Half(Half(Half(c)))), 11) by {
      assert FitsIn(c, 15) == FitsIn(Half(Half(c)), 13);
    }
    var c4 := c >> 4;
    FourHalves(c);
    assert FitsIn(c4, 11) == FitsIn(Half(Half(Half(Half(c4)))), 7) by {
      assert FitsIn(c4, 11) == FitsIn(Half(Half(c4)), 9);
    }
    var c8 := c4 >> 4;
    FourHalves(c4);
    assert FitsIn(c8, 7) == FitsIn(Half(Half(Half(Half(c8)))), 3) by {
      assert FitsIn(c8, 7) == FitsIn(Half(Half(c8)), 5);
    }
    var c12 := c8 >> 4;
    FourHalves(c8);
    assert FitsIn(c12, 3) == (Half(Half(Half(c12))) == 0) by {
      assert FitsIn(c12, 3) == FitsIn(Half(Half(c12)), 1);
    }
    TopOfShifted(c);
  }

  lemma TopOfShifted(c: bv16)
    requires Half(Half(Half(((c >> 4) >> 4) >> 4))) == 0
    ensures !TopBit(c)
  {
  }

  lemma HalfZero()
    ensures Half(0) == 0
  {
  }

  lemma {:induction false} ZeroFits(n: nat)
    ensures FitsIn(0, n)
  {
    if n > 0 {
      HalfZero();
      ZeroFits(n - 1);
    }
  }

  lemma {:induction false} FitsMore(c: bv16, n: nat, m: nat)
    requires FitsIn(c, n) && n <= m
    ensures FitsIn(c, m)
    decreases m
  {
    if n == 0 {
      ZeroFits(m);
    } else {
      FitsMore(Half(c), n - 1, m - 1);
    }
  }

  lemma HalfFits(c: bv16)
    ensures FitsIn(Half(c), 15)
  {
    hide Half;
    var c1 := Half(c);
    assert FitsIn(c1, 15) == FitsIn(Half(Half(Half(c1))), 12) by {
      assert FitsIn(c1, 15) == FitsIn(Half(Half(c1)), 13);
    }
    var c4 := c >> 4;
    FourHalves(c);
    assert FitsIn(c4, 12) == FitsIn(Half(Half(Half(Half(c4)))), 8) by {
      assert FitsIn(c4, 12) == FitsIn(Half(Half(c4)), 10);
    }
    var c8 := c4 >> 4;
    FourHalves(c4);
    assert FitsIn(c8, 8) == FitsIn(Half(Half(Half(Half(c8)))), 4) by {
      assert FitsIn(c8, 8) == FitsIn(Half(Half(c8)), 6);
    }
    var c12 := c8 >> 4;
    FourHalves(c8);
    FourHalves(c12);
    assert c12 >> 4 == 0;
    assert FitsIn(c12, 4) == (Half(Half(Half(Half(c12)))) == 0) by {
      assert FitsIn(c12, 4) == FitsIn(Half(Half(c12)), 2);
    }
  }

  lemma JoinSplits(bit: bool, c: bv16)
    requires !TopBit(c)
    ensures Odd(Join(bit, c)) == bit && Half(Join(bit, c)) == c
  {
    if bit {
      JoinOne(c);
    } else {
      JoinZero(c);
    }
  }

  lemma JoinOne(c: bv16)
    requires c & 0x8000 == 0
    ensures ((c << 1) | 1) & 1 == 1 && ((c << 1) | 1) >> 1 == c
  {
  }

  lemma JoinZero(c: bv16)
    requires c & 0x8000 == 0
    ensures ((c << 1) | 0) & 1 == 0 && ((c << 1) | 0) >> 1 == c
  {
  }

  lemma {:induction false} FromValueFits(x: nat, n: nat)
    requires n <= 16
    ensures FitsIn(FromValue(x, n), n)
    decreases n
  {
    hide Half, Odd, Join, TopBit;
    if n > 0 {
      FromValueFits(x / 2, n - 1);
      FitsFifteen(FromValue(x / 2, n - 1), n - 1);
      JoinSplits(x % 2 == 1, FromValue(x / 2, n - 1));
    }
  }

  lemma {:induction false} ValueOfFromValue(x: nat, n: nat)
    requires n <= 16 && x < Pow2(n)
    ensures Value(FromValue(x, n), n) == x
    decreases n
  {
    hide Half, Odd, Join, TopBit, FitsIn;
    if n > 0 {
      ValueOfFromValue(x / 2, n - 1);
      FromValueFits(x / 2, n - 1);
      FitsFifteen(FromValue(x / 2, n - 1), n - 1);
      JoinSplits(x % 2 == 1, FromValue(x / 2, n - 1));
    }
  }

  lemma BitAndRest(bit: bool, v: nat)
    ensures var x := (if bit then 1 else 0) + 2 * v;
      (x % 2 == 1) == bit && x / 2 == v
  {
  }

  lemma {:induction false} FromValueOfValue(c: bv16, n: nat)
    requires n <= 16 && FitsIn(c, n)
    ensures FromValue(Value(c, n), n) == c
    decreases n
  {
    if n > 0 {
      FromValueOfValue(Half(c), n - 1);
      RejoinValue(c, n);
    }
  }

  lemma RejoinValue(c: bv16, n: nat)
    requires 0 < n <= 16 && FitsIn(c, n)
    requires FromValue(Value(Half(c), n - 1), n - 1) == Half(c)
    ensures FromValue(Value(c, n), n) == c
  {
    hide Half, Odd, Join, TopBit;
    var v := Value(Half(c), n - 1);
    BitAndRest(Odd(c), v);
    assert Value(c, n) % 2 == 1 <==> Odd(c);
    assert Value(c, n) / 2 == v;
    assert FromValue(Value(c, n), n) == Join(Odd(c), FromValue(v, n - 1));
    FitsFifteen(Half(c), n - 1);
    JoinSplits(Odd(c), Half(c));
    HalfAndOddDetermine(c, Join(Odd(c), Half(c)));
  }

  lemma ValueInjective(a: bv16, b: bv16)
    requires Value(a, 16) == Value(b, 16)
    ensures a == b
  {
    hide Half, Odd, Value, FromValue;
    HalfFits(a);
    HalfFits(b);
    FromValueOfValue(a, 16);
    FromValueOfValue(b, 16);
  }

  lemma WidenInjective(x: byte, y: byte)
    requires Widen(x) == Widen(y)
    ensures x == y
  {
    hide Value, FromValue;
    ByteAndWordBounds();
    ValueOfFromValue(x, 8);
    ValueOfFromValue(y, 8);
  }

  lemma {:induction false} FitsIsHalfBy(c: bv16, n: nat)
    ensures FitsIn(c, n) <==> HalfBy(c, n) == 0
    decreases n
  {
    hide Half;
    if n > 0 {
      FitsIsHalfBy(Half(c), n - 1);
    }
  }

  /** A byte has nothing above bit 7. */
  lemma WidenFits(b: byte)
    ensures HalfBy(Widen(b), 8) == 0 && Widen(b) >> 8 == 0
  {
    hide Half, FromValue, FitsIn, HalfBy;
    FromValueFits(b, 8);
    FitsIsHalfBy(Widen(b), 8);
    HalfByEight(Widen(b));
  }

  lemma LowByteRoundTrip(c: bv16)
    requires c >> 8 == 0
    ensures FromValue(Value(c, 8), 8) == c
  {
    hide Half, Value, FromValue, FitsIn, HalfBy;
    HalfByEight(c);
    FitsIsHalfBy(c, 8);
    FromValueOfValue(c, 8);
  }

  predicate AllFalse(s: seq<bool>) {
    forall i :: 0 <= i < |s| ==> !s[i]
  }

  /** While the bits shifted out are zero, the register only moves down. */
  lemma {:induction false} ShiftZeros(x: bv16, n: nat)
    requires AllFalse(BitsOf(x, n))
    ensures ShiftBy(x, n) == HalfBy(x, n)
    decreases n
  {
    hide Xor, Half, Odd;
    if n > 0 {
      assert !BitsOf(x, n)[0];
      assert BitsOf(x, n)[1..] == BitsOf(Half(x), n - 1);
      ShiftZeros(Half(x), n - 1);
    }
  }

  lemma FourZeroBits(x: bv16, n: nat)
    requires x & 0xF == 0 && AllFalse(BitsOf(x >> 4, n))
    ensures AllFalse(BitsOf(x, n + 4))
  {
    FourHalves(x);
    FourEven(x);
    hide Half, Odd;
    var y := Half(Half(x));
    assert BitsOf(x, n + 4) == [false, false] + BitsOf(y, n + 2);
    assert BitsOf(y, n + 2) == [false, false] + BitsOf(x >> 4, n);
  }

  lemma FourEven(x: bv16)
    requires x & 0xF == 0
    ensures !Odd(x) && !Odd(Half(x)) && !Odd(Half(Half(x))) && !Odd(Half(Half(Half(x))))
  {
  }

  lemma LowByteZero(x: bv16)
    requires x & 0xFF == 0
    ensures AllFalse(BitsOf(x, 8))
  {
    hide BitsOf, Widen;
    assert (x >> 4) & 0xF == 0 && x & 0xF == 0;
    assert AllFalse(BitsOf((x >> 4) >> 4, 0));
    FourZeroBits(x >> 4, 0);
    FourZeroBits(x, 4);
  }

  // ---------------------------------------------------------------- table-driven equals bitwise

  lemma SplitBytes(x: bv16)
    ensures x == Xor(x & 0xFF, x & 0xFF00)
    ensures (x & 0xFF) >> 8 == 0
    ensures (x & 0xFF00) & 0xFF == 0 && (x & 0xFF00) >> 8 == x >> 8
  {
  }

  lemma XorHighPart(a: bv16, b: bv16)
    requires b >> 8 == 0
    ensures Xor(a, b) >> 8 == High(a)
  {
  }

  /** The table identity: a table step is eight steps of the register after folding the byte in. */
  lemma UpdateIsEightShifts(crc: bv16, b: byte)
    ensures Update(crc, b) == ShiftBy(Xor(crc, Widen(b)), 8)
  {
    hide Xor, Half, Odd, Shift, Value, FromValue, ShiftBy, HalfBy, BitsOf, AllFalse;
    var x := Xor(crc, Widen(b));
    SplitBytes(x);
    WidenFits(b);
    XorHighPart(crc, Widen(b));
    LowByteRoundTrip(x & 0xFF);
    ShiftByLinear(x & 0xFF, x & 0xFF00, 8);
    LowByteZero(x & 0xFF00);
    ShiftZeros(x & 0xFF00, 8);
    HalfByEight(x & 0xFF00);
    XorCommutes(TableEntry(TableIndex(crc, b)), High(crc));
  }

  /** Feeding the low bit of x and keeping the rest for later is one shift of c ^ x. */
  lemma FeedLowBit(c: bv16, x: bv16)
    ensures Xor(FeedBit(c, Odd(x)), Half(x)) == Shift(Xor(c, x))
  {
    hide Xor, Half, Odd;
    var bit := BitValue(Odd(x));
    var rest := Xor(x, bit);
    BitSplitsOff(x);
    XorAssociates(c, bit, rest);
    ShiftLinear(Xor(c, bit), rest);
  }

  lemma {:induction false} FeedBitsOf(c: bv16, x: bv16, n: nat)
    ensures Xor(FeedBits(c, BitsOf(x, n)), HalfBy(x, n)) == ShiftBy(Xor(c, x), n)
    decreases n
  {
    hide Xor, Half, Odd, FeedBit, Shift;
    if n > 0 {
      FeedLowBit(c, x);
      assert BitsOf(x, n)[1..] == BitsOf(Half(x), n - 1);
      FeedBitsOf(FeedBit(c, Odd(x)), Half(x), n - 1);
    }
  }

  lemma {:induction false} FeedBitsConcat(c: bv16, a: seq<bool>, b: seq<bool>)
    ensures FeedBits(c, a + b) == FeedBits(FeedBits(c, a), b)
    decreases |a|
  {
    hide FeedBit;
    if a == [] {
      assert a + b == b;
    } else {
      assert (a + b)[1..] == a[1..] + b;
      FeedBitsConcat(FeedBit(c, a[0]), a[1..], b);
    }
  }

  lemma {:induction false} FoldIsFeedBits(c: bv16, data: seq<byte>)
    ensures Fold(c, data) == FeedBits(c, Bits(data))
    decreases |data|
  {
    hide Xor, Half, Odd, FeedBit, Shift, Update, Widen, HalfBy;
    if data != [] {
      var x := Widen(data[0]);
      UpdateIsEightShifts(c, data[0]);
      FeedBitsOf(c, x, 8);
      WidenFits(data[0]);
      XorZero(FeedBits(c, BitsOf(x, 8)));
      FeedBitsConcat(c, BitsOf(x, 8), Bits(data[1..]));
      FoldIsFeedBits(Update(c, data[0]), data[1..]);
    }
  }

  /** The table-driven code computes the bit-at-a-time CRC on every input. */
  lemma {:induction false} TableDrivenIsBitwise(data: seq<byte>)
    ensures Crc16(data) == ToWord(FeedBits(INITIAL, Bits(data)))
  {
    FoldIsFeedBits(INITIAL, data);
  }

  // ---------------------------------------------------------------- error detection

  /** Where two bit strings of one length differ. */
  function Difference(a: seq<bool>, b: seq<bool>): (d: seq<bool>)
    requires |a| == |b|
    ensures |d| == |a| && forall i :: 0 <= i < |d| ==> d[i] == (a[i] != b[i])
  {
    seq(|a|, i requires 0 <= i < |a| => a[i] != b[i])
  }

  lemma FeedBitLinear(c: bv16, d: bv16, x: bool, y: bool)
    ensures Xor(FeedBit(c, x), FeedBit(d, y)) == FeedBit(Xor(c, d), x != y)
  {
    assert Xor(BitValue(x), BitValue(y)) == BitValue(x != y);
    hide Xor, Shift;
    ShiftLinear(Xor(c, BitValue(x)), Xor(d, BitValue(y)));
    XorRegroups(c, BitValue(x), d, BitValue(y));
  }

  lemma {:induction false} FeedBitsLinear(c: bv16, d: bv16, a: seq<bool>, b: seq<bool>)
    requires |a| == |b|
    ensures Xor(FeedBits(c, a), FeedBits(d, b)) == FeedBits(Xor(c, d), Difference(a, b))
    decreases |a|
  {
    hide Xor, FeedBit;
    if a != [] {
      FeedBitLinear(c, d, a[0], b[0]);
      FeedBitsLinear(FeedBit(c, a[0]), FeedBit(d, b[0]), a[1..], b[1..]);
      assert Difference(a, b)[1..] == Difference(a[1..], b[1..]);
    }
  }

  /** Two messages have one CRC exactly when their difference leaves the empty register empty. */
  lemma SameCrcMeansSilentDifference(a: seq<byte>, b: seq<byte>)
    requires |a| == |b|
    ensures Crc16(a) == Crc16(b) ==> FeedBits(0, Difference(Bits(a), Bits(b))) == 0
  {
    hide Xor, FeedBit, Value, Crc16;
    TableDrivenIsBitwise(a);
    TableDrivenIsBitwise(b);
    FeedBitsLinear(INITIAL, INITIAL, Bits(a), Bits(b));
    XorSelf(INITIAL);
    if Crc16(a) == Crc16(b) {
      ValueInjective(FeedBits(INITIAL, Bits(a)), FeedBits(INITIAL, Bits(b)));
      XorSelf(FeedBits(INITIAL, Bits(a)));
    }
  }

  /** Bit 15 of the polynomial is set, so the register loses nothing as it shifts. */
  lemma FeedZeroBit(c: bv16)
    ensures FeedBit(c, false) == 0 <==> c == 0
  {
  }

  lemma {:induction false} FeedZeros(c: bv16, zeros: seq<bool>)
    requires AllFalse(zeros)
    ensures FeedBits(c, zeros) == 0 <==> c == 0
    decreases |zeros|
  {
    hide FeedBit;
    if zeros != [] {
      FeedZeroBit(c);
      FeedZeros(FeedBit(c, false), zeros[1..]);
    }
  }

  lemma Unshift(c: bv16, bit: bool)
    requires !TopBit(FeedBit(c, bit))
    ensures Half(c) == FeedBit(c, bit)
    ensures c == 0 ==> !bit && FeedBit(c, bit) == 0
  {
  }

  /** A register that reaches 0 within j <= 16 bits held at most j bits; from 0 it saw no set bit. */
  lemma {:induction false} ShortWindow(c: bv16, w: seq<bool>)
    requires |w| <= 16 && FeedBits(c, w) == 0
    ensures FitsIn(c, |w|)
    ensures c == 0 ==> AllFalse(w)
    decreases |w|
  {
    hide FeedBit, Half;
    if w != [] {
      var c' := FeedBit(c, w[0]);
      ShortWindow(c', w[1..]);
      FitsFifteen(c', |w| - 1);
      Unshift(c, w[0]);
      if c == 0 {
        assert w == [w[0]] + w[1..];
      }
    }
  }

  /** The differing bits lie in a window of 16 consecutive bits. */
  predicate BurstAt(a: seq<byte>, b: seq<byte>, start: nat) {
    && |a| == |b|
    && forall i :: 0 <= i < 8 * |a| && !(start <= i < start + 16) ==> Bits(a)[i] == Bits(b)[i]
  }

  lemma {:induction false} BitsOfInjective(x: bv16, y: bv16, n: nat)
    requires BitsOf(x, n) == BitsOf(y, n) && HalfBy(x, n) == HalfBy(y, n)
    ensures x == y
    decreases n
  {
    hide Half, Odd;
    if n > 0 {
      assert BitsOf(x, n)[0] == BitsOf(y, n)[0];
      assert BitsOf(x, n)[1..] == BitsOf(Half(x), n - 1);
      assert BitsOf(y, n)[1..] == BitsOf(Half(y), n - 1);
      BitsOfInjective(Half(x), Half(y), n - 1);
      HalfAndOddDetermine(x, y);
    }
  }

  lemma ByteFromBits(x: byte, y: byte)
    requires BitsOf(Widen(x), 8) == BitsOf(Widen(y), 8)
    ensures x == y
  {
    hide BitsOf, Widen;
    WidenFits(x);
    WidenFits(y);
    BitsOfInjective(Widen(x), Widen(y), 8);
    WidenInjective(x, y);
  }

  lemma {:induction false} BitsInjective(a: seq<byte>, b: seq<byte>)
    requires Bits(a) == Bits(b)
    ensures a == b
  {
    hide BitsOf, Widen;
    if a != [] && b != [] {
      assert Bits(a)[..8] == BitsOf(Widen(a[0]), 8) && Bits(b)[..8] == BitsOf(Widen(b[0]), 8);
      ByteFromBits(a[0], b[0]);
      assert Bits(a)[8..] == Bits(a[1..]) && Bits(b)[8..] == Bits(b[1..]);
      BitsInjective(a[1..], b[1..]);
      assert a == [a[0]] + a[1..];
      assert b == [b[0]] + b[1..];
    }
  }

  /** A difference silent to the register and confined to 16 bits is no difference. */
  lemma WindowSilent(d: seq<bool>, start: nat)
    requires forall i :: 0 <= i < |d| && !(start <= i < start + 16) ==> !d[i]
    requires FeedBits(0, d) == 0
    ensures AllFalse(d)
  {
    hide FeedBit;
    var lo := if start <= |d| then start else |d|;
    var hi := if start + 16 <= |d| then start + 16 else |d|;
    var w := d[lo..hi];
    assert d == d[..lo] + (w + d[hi..]);
    FeedBitsConcat(0, d[..lo], w + d[hi..]);
    FeedZeros(0, d[..lo]);
    FeedBitsConcat(0, w, d[hi..]);
    FeedZeros(FeedBits(0, w), d[hi..]);
    ShortWindow(0, w);
    forall i | 0 <= i < |d| ensures !d[i] {
      if lo <= i < hi {
        assert d[i] == w[i - lo];
      }
    }
  }

  /** Every damage confined to 16 consecutive bits changes the CRC, for messages of any length. */
  lemma {:induction false} BurstDetected(a: seq<byte>, b: seq<byte>, start: nat)
    requires a != b && BurstAt(a, b, start)
    ensures Crc16(a) != Crc16(b)
  {
    hide Crc16, Bits, FeedBits;
    SameCrcMeansSilentDifference(a, b);
    if Crc16(a) == Crc16(b) {
      var d := Difference(Bits(a), Bits(b));
      WindowSilent(d, start);
      assert Bits(a) == Bits(b) by {
        forall i | 0 <= i < |Bits(a)| ensures Bits(a)[i] == Bits(b)[i] {
          assert !d[i];
        }
      }
      BitsInjective(a, b);
    }
  }

  lemma {:induction false} BitAt(a: seq<byte>, i: nat)
    requires i < 8 * |a|
    ensures Bits(a)[i] == BitsOf(Widen(a[i / 8]), 8)[i % 8]
  {
    hide BitsOf, Widen;
    if i >= 8 {
      BitAt(a[1..], i - 8);
    }
  }

  /** The byte form: all differences inside two consecutive bytes. */
  lemma {:induction false} TwoByteDamageDetected(a: seq<byte>, b: seq<byte>, k: nat)
    requires |a| == |b| && a != b
    requires forall i :: 0 <= i < |a| && i != k && i != k + 1 ==> a[i] == b[i]
    ensures Crc16(a) != Crc16(b)
  {
    hide BitsOf, Bits, Widen, Crc16;
    forall i | 0 <= i < 8 * |a| && !(8 * k <= i < 8 * k + 16) ensures Bits(a)[i] == Bits(b)[i] {
      BitAt(a, i);
      BitAt(b, i);
    }
    BurstDetected(a, b, 8 * k);
  }

  /** Number of set bits. */
  function OneBits(s: seq<bool>): nat {
    if s == [] then 0 else (if s[0] then 1 else 0) + OneBits(s[1..])
  }

  /** Whether an odd number of the low n bits are set. */
  function ParityOf(c: bv16, n: nat): bool
    decreases n
  {
    n > 0 && Odd(c) != ParityOf(Half(c), n - 1)
  }

  lemma {:induction false} ParityLinear(a: bv16, b: bv16, n: nat)
    ensures ParityOf(Xor(a, b), n) == (ParityOf(a, n) != ParityOf(b, n))
    decreases n
  {
    hide Xor, Half, Odd;
    if n > 0 {
      XorHalf(a, b);
      XorOdd(a, b);
      ParityLinear(Half(a), Half(b), n - 1);
    }
  }

  lemma {:induction false} ParityOfZero(n: nat)
    ensures !ParityOf(0, n)
  {
    if n > 0 {
      HalfZero();
      assert !Odd(0);
      ParityOfZero(n - 1);
    }
  }

  lemma {:induction false} ParityIgnoresZeros(c: bv16, n: nat)
    requires FitsIn(c, n)
    ensures ParityOf(c, n + 1) == ParityOf(c, n)
    decreases n
  {
    if n == 0 {
      ParityOfZero(1);
    } else {
      ParityIgnoresZeros(Half(c), n - 1);
    }
  }

  lemma PolynomialParity()
    ensures ParityOf(POLYNOMIAL, 16)
  {
    assert Odd(POLYNOMIAL) && Half(POLYNOMIAL) == 0x5000;
    assert ParityOf(0x5000, 15) == ParityOf(0x0500, 11) by { ParityDropsFour(0x5000, 11); }
    assert ParityOf(0x0500, 11) == ParityOf(0x0050, 7) by { ParityDropsFour(0x0500, 7); }
    assert ParityOf(0x0050, 7) == ParityOf(0x0005, 3) by { ParityDropsFour(0x0050, 3); }
    assert Odd(0x0005) && Half(0x0005) == 2 && !Odd(2) && Half(2) == 1 && Odd(1);
    ParityOfZero(0);
    assert !ParityOf(0x0005, 3);
  }

  lemma ParityDropsFour(c: bv16, n: nat)
    requires c & 0xF == 0
    ensures ParityOf(c, n + 4) == ParityOf(c >> 4, n)
  {
    FourHalves(c);
    assert !Odd(c) && !Odd(Half(c)) && !Odd(Half(Half(c))) && !Odd(Half(Half(Half(c))));
    hide Half, Odd;
    assert ParityOf(c, n + 4) == ParityOf(Half(Half(c)), n + 2);
    assert ParityOf(Half(Half(c)), n + 2) == ParityOf(Half(Half(Half(Half(c)))), n);
  }

  lemma ShiftParity(c: bv16)
    ensures ParityOf(Shift(c), 16) == ParityOf(c, 16)
  {
    hide Xor, Half, Odd;
    HalfFits(c);
    ParityIgnoresZeros(Half(c), 15);
    ParityLinear(Half(c), POLYNOMIAL, 16);
    PolynomialParity();
  }

  lemma FeedBitParity(c: bv16, bit: bool)
    ensures ParityOf(FeedBit(c, bit), 16) == (ParityOf(c, 16) != bit)
  {
    hide Xor, Half, Odd, Shift;
    ShiftParity(Xor(c, BitValue(bit)));
    ParityLinear(c, BitValue(bit), 16);
    OneBitParity(bit);
  }

  lemma OneBitParity(bit: bool)
    ensures ParityOf(BitValue(bit), 16) == bit
  {
    ParityOfZero(15);
    ParityOfZero(16);
    assert Odd(1) && Half(1) == 0;
  }

  lemma {:induction false} FeedBitsParity(c: bv16, s: seq<bool>)
    ensures ParityOf(FeedBits(c, s), 16) == (ParityOf(c, 16) != (OneBits(s) % 2 == 1))
    decreases |s|
  {
    hide FeedBit, Half, Odd;
    if s != [] {
      FeedBitParity(c, s[0]);
      FeedBitsParity(FeedBit(c, s[0]), s[1..]);
    }
  }

  /** x + 1 divides the polynomial: an odd number of flipped bits, anywhere, changes the CRC. */
  lemma {:induction false} OddDamageDetected(a: seq<byte>, b: seq<byte>)
    requires |a| == |b| && OneBits(Difference(Bits(a), Bits(b))) % 2 == 1
    ensures Crc16(a) != Crc16(b)
  {
    SameCrcMeansSilentDifference(a, b);
    FeedBitsParity(0, Difference(Bits(a), Bits(b)));
    ParityOfZero(16);
  }
}
