/**
 What the CRC is, without its register: the remainder of the message, as a polynomial over GF(2), modulo
 x^16 + x^15 + x^2 + 1, by long division. The message is followed by 16 zero bits and its first 16 bits are
 inverted (the start value 0xFFFF); bytes go lowest bit first, and so does the remainder.
 */
module CrcPolynomial {
  import opened Settings
  import opened Crc

  /** The low n bits of a number, lowest first. */
  function NumberBits(x: nat, n: nat): (bits: seq<bool>)
    ensures |bits| == n
    decreases n
  {
    if n == 0 then [] else [x % 2 == 1] + NumberBits(x / 2, n - 1)
  }

  function BitsNumber(bits: seq<bool>): nat {
    if bits == [] then 0 else (if bits[0] then 1 else 0) + 2 * BitsNumber(bits[1..])
  }

  function MessageBits(data: seq<byte>): (bits: seq<bool>)
    ensures |bits| == 8 * |data|
  {
    if data == [] then [] else NumberBits(data[0], 8) + MessageBits(data[1..])
  }

  /** x^15 + x^2 + 1, coefficients from x^15 down: what is left of the divisor behind its leading term. */
  function Divisor(): (g: seq<bool>)
    ensures |g| == 16
  {
    [true, false, false, false, false, false, false, false, false, false, false, false, false, true, false, true]
  }

  function Zeros(): (z: seq<bool>)
    ensures |z| == 16 && forall i :: 0 <= i < 16 ==> !z[i]
  {
    seq(16, i => false)
  }

  function Ones(): (z: seq<bool>)
    ensures |z| == 16 && forall i :: 0 <= i < 16 ==> z[i]
  {
    seq(16, i => true)
  }

  /** g added to the leading coefficients of s. */
  function AddTo(s: seq<bool>, g: seq<bool>): (r: seq<bool>)
    requires |g| <= |s|
    ensures |r| == |s| && forall i :: 0 <= i < |s| ==> r[i] == if i < |g| then s[i] != g[i] else s[i]
  {
    seq(|s|, i requires 0 <= i < |s| => if i < |g| then s[i] != g[i] else s[i])
  }

  /** Long division: while the degree is 16 or more, take off the leading term and what the divisor adds. */
  function Remainder(s: seq<bool>): (r: seq<bool>)
    requires |s| >= 16
    ensures |r| == 16
    decreases |s|
  {
    if |s| == 16 then s
    else if s[0] then Remainder(AddTo(s[1..], Divisor()))
    else Remainder(s[1..])
  }

  // ---------------------------------------------------------------- the register does this division

  lemma {:induction false} XorBits(a: bv16, b: bv16, n: nat)
    ensures forall i :: 0 <= i < n ==> BitsOf(Xor(a, b), n)[i] == (BitsOf(a, n)[i] != BitsOf(b, n)[i])
    decreases n
  {
    hide Xor, Half, Odd;
    if n > 0 {
      XorOdd(a, b);
      XorHalf(a, b);
      XorBits(Half(a), Half(b), n - 1);
    }
  }

  lemma {:induction false} ZeroBits(n: nat)
    ensures forall i :: 0 <= i < n ==> !BitsOf(0, n)[i]
  {
    if n > 0 {
      HalfZero();
      assert !Odd(0);
      ZeroBits(n - 1);
    }
  }

  lemma OneBit(bit: bool)
    ensures forall i :: 0 <= i < 16 ==> BitsOf(BitValue(bit), 16)[i] == (i == 0 && bit)
  {
    assert Half(BitValue(bit)) == 0 && Odd(BitValue(bit)) == bit;
    ZeroBits(15);
  }

  /** A register that fits in n bits has no bit from n on. */
  lemma {:induction false} NoHighBits(c: bv16, n: nat, m: nat)
    requires FitsIn(c, n) && n <= m
    ensures forall i :: 0 <= i < m ==> BitsOf(c, m)[i] == (i < n && BitsOf(c, n)[i])
    decreases n
  {
    hide Half, Odd;
    if n == 0 {
      ZeroBits(m);
    } else {
      NoHighBits(Half(c), n - 1, m - 1);
    }
  }

  lemma HalfBits(c: bv16)
    ensures BitsOf(Half(c), 16) == BitsOf(c, 16)[1..] + [false]
  {
    hide *;
    HalfFits(c);
    NoHighBits(Half(c), 15, 16);
    FirstBit(c);
    var rest := BitsOf(Half(c), 15);
    assert BitsOf(Half(c), 16) == rest + [false];
    assert BitsOf(c, 16)[1..] == rest;
  }

  lemma FirstBit(c: bv16)
    ensures BitsOf(c, 16) == [Odd(c)] + BitsOf(Half(c), 15)
  {
    hide Half, Odd;
  }

  lemma TwoBits(c: bv16, n: nat)
    ensures BitsOf(c, n + 2) == [Odd(c), Odd(Half(c))] + BitsOf(Half(Half(c)), n)
  {
    hide Half, Odd;
    assert BitsOf(c, n + 2) == [Odd(c)] + BitsOf(Half(c), n + 1);
    assert BitsOf(Half(c), n + 1) == [Odd(Half(c))] + BitsOf(Half(Half(c)), n);
  }

  lemma FourBits(c: bv16, n: nat)
    ensures BitsOf(c, n + 4) == [Odd(c), Odd(Half(c)), Odd(Half(Half(c))), Odd(Half(Half(Half(c))))] + BitsOf(c >> 4, n)
  {
    hide *;
    FourHalves(c);
    TwoBits(c, n + 2);
    TwoBits(Half(Half(c)), n);
  }

  /** The register's constant is the divisor, the wrong way round. */
  lemma DivisorBits()
    ensures BitsOf(POLYNOMIAL, 16) == Divisor()
  {
    FourBits(0xA001, 12);
    FourBits(0x0A00, 8);
    FourBits(0x00A0, 4);
    FourBits(0x000A, 0);
    assert Odd(0xA001) && Half(0xA001) == 0x5000 && !Odd(0x5000) && Half(0x5000) == 0x2800 && !Odd(0x2800) && Half(0x2800) == 0x1400 && !Odd(0x1400);
    assert !Odd(0x0A00) && Half(0x0A00) == 0x0500 && !Odd(0x0500) && Half(0x0500) == 0x0280 && !Odd(0x0280) && Half(0x0280) == 0x0140 && !Odd(0x0140);
    assert !Odd(0x00A0) && Half(0x00A0) == 0x0050 && !Odd(0x0050) && Half(0x0050) == 0x0028 && !Odd(0x0028) && Half(0x0028) == 0x0014 && !Odd(0x0014);
    assert !Odd(0x000A) && Half(0x000A) == 5 && Odd(5) && Half(5) == 2 && !Odd(2) && Half(2) == 1 && Odd(1);
    assert BitsOf(0, 0) == [];
  }

  lemma StartBits()
    ensures BitsOf(INITIAL, 16) == Ones()
  {
    FourBits(0xFFFF, 12);
    FourBits(0x0FFF, 8);
    FourBits(0x00FF, 4);
    FourBits(0x000F, 0);
    assert Odd(0xFFFF) && Half(0xFFFF) == 0x7FFF && Odd(0x7FFF) && Half(0x7FFF) == 0x3FFF && Odd(0x3FFF) && Half(0x3FFF) == 0x1FFF && Odd(0x1FFF);
    assert Odd(0x0FFF) && Half(0x0FFF) == 0x07FF && Odd(0x07FF) && Half(0x07FF) == 0x03FF && Odd(0x03FF) && Half(0x03FF) == 0x01FF && Odd(0x01FF);
    assert Odd(0x00FF) && Half(0x00FF) == 0x007F && Odd(0x007F) && Half(0x007F) == 0x003F && Odd(0x003F) && Half(0x003F) == 0x001F && Odd(0x001F);
    assert Odd(0x000F) && Half(0x000F) == 7 && Odd(7) && Half(7) == 3 && Odd(3) && Half(3) == 1 && Odd(1);
    assert BitsOf(0, 0) == [];
  }

  /** The register moved down, with the divisor added or not. */
  function Down(b: seq<bool>, odd: bool): (r: seq<bool>)
    requires |b| == 16
    ensures |r| == 16
  {
    if odd then AddTo(b[1..] + [false], Divisor()) else b[1..] + [false]
  }

  lemma ShiftBits(x: bv16)
    ensures BitsOf(Shift(x), 16) == Down(BitsOf(x, 16), BitsOf(x, 16)[0])
  {
    OddIsFirst(x);
    HalfBits(x);
    XorBits(Half(x), POLYNOMIAL, 16);
    DivisorBits();
    hide Xor, Half, Odd, BitsOf, Divisor;
  }

  /** One step of the register on its bits. */
  lemma FeedBitBits(c: bv16, bit: bool)
    ensures BitsOf(FeedBit(c, bit), 16) == Down(BitsOf(c, 16), BitsOf(c, 16)[0] != bit)
  {
    hide Xor, Half, Odd, BitsOf, Divisor, Shift, AddTo;
    var x := Xor(c, BitValue(bit));
    XorBits(c, BitValue(bit), 16);
    OneBit(bit);
    ShiftBits(x);
    assert BitsOf(x, 16)[1..] == BitsOf(c, 16)[1..];
  }

  lemma OddIsFirst(x: bv16)
    ensures BitsOf(x, 16)[0] == Odd(x)
  {
  }

  /** One step of the division. */
  lemma DivideOnce(b: seq<bool>, bit: bool, rest: seq<bool>)
    requires |b| == 16 && |rest| >= 16
    ensures Remainder(AddTo([bit] + rest, b)) == Remainder(AddTo(rest, Down(b, b[0] != bit)))
  {
    hide Divisor;
    var s := AddTo([bit] + rest, b);
    var down := b[1..] + [false];
    assert s[1..] == AddTo(rest, down);
    assert AddTo(AddTo(rest, down), Divisor()) == AddTo(rest, AddTo(down, Divisor()));
  }

  /** Dividing with the register added in front is feeding the register. */
  lemma {:induction false} FeedingDivides(c: bv16, bits: seq<bool>)
    ensures Remainder(AddTo(bits + Zeros(), BitsOf(c, 16))) == BitsOf(FeedBits(c, bits), 16)
    decreases |bits|
  {
    hide FeedBit, BitsOf, Down, Zeros, Remainder, AddTo;
    if bits == [] {
      NothingLeft(BitsOf(c, 16));
    } else {
      FeedBitBits(c, bits[0]);
      FeedingDivides(FeedBit(c, bits[0]), bits[1..]);
      assert bits + Zeros() == [bits[0]] + (bits[1..] + Zeros());
      DivideOnce(BitsOf(c, 16), bits[0], bits[1..] + Zeros());
    }
  }

  lemma NothingLeft(b: seq<bool>)
    requires |b| == 16
    ensures Remainder(AddTo([] + Zeros(), b)) == b
  {
    hide Zeros;
  }

  // ---------------------------------------------------------------- bytes and numbers

  lemma {:induction false} ValueIsBitsNumber(c: bv16, n: nat)
    ensures Value(c, n) == BitsNumber(BitsOf(c, n))
    decreases n
  {
    hide Half, Odd;
    if n > 0 {
      ValueIsBitsNumber(Half(c), n - 1);
      assert BitsOf(c, n)[1..] == BitsOf(Half(c), n - 1);
    }
  }

  lemma {:induction false} ByteBits(x: nat, n: nat)
    requires n <= 16
    ensures BitsOf(FromValue(x, n), n) == NumberBits(x, n)
    decreases n
  {
    hide Half, Odd, Join;
    if n > 0 {
      ByteBits(x / 2, n - 1);
      FromValueFits(x / 2, n - 1);
      FitsFifteen(FromValue(x / 2, n - 1), n - 1);
      JoinSplits(x % 2 == 1, FromValue(x / 2, n - 1));
    }
  }

  lemma {:induction false} BitsAreMessageBits(data: seq<byte>)
    ensures Bits(data) == MessageBits(data)
  {
    hide BitsOf, NumberBits, FromValue;
    if data != [] {
      ByteBits(data[0], 8);
      BitsAreMessageBits(data[1..]);
    }
  }

  /** Main result: on every input the CRC is the remainder of the inverted message modulo x^16 + x^15 + x^2 + 1. */
  lemma {:induction false} CrcIsRemainder(data: seq<byte>)
    ensures Crc16(data) == BitsNumber(Remainder(AddTo(MessageBits(data) + Zeros(), Ones())))
  {
    hide BitsOf, MessageBits, Remainder, Zeros, Ones, FeedBits, Fold, Bits, Value, BitsNumber;
    TableDrivenIsBitwise(data);
    BitsAreMessageBits(data);
    StartBits();
    FeedingDivides(INITIAL, MessageBits(data));
    ValueIsBitsNumber(FeedBits(INITIAL, MessageBits(data)), 16);
  }

  /** The table's own entries: entry i is the remainder of the byte i followed by 16 zero bits. */
  lemma {:induction false} EntryIsRemainder(i: uint8)
    ensures ToWord(TableEntry(i)) == BitsNumber(Remainder(NumberBits(i, 8) + Zeros()))
  {
    hide BitsOf, Remainder, Zeros, FeedBits, Value, BitsNumber, NumberBits, HalfBy, ShiftBy, FromValue, Xor;
    ZeroIsNothing(NumberBits(i, 8));
    FeedingDivides(0, NumberBits(i, 8));
    ByteBits(i, 8);
    FeedBitsOf(0, Widen(i), 8);
    WidenFits(i);
    XorCommutes(0, Widen(i));
    XorZero(Widen(i));
    XorZero(FeedBits(0, NumberBits(i, 8)));
    ValueIsBitsNumber(TableEntry(i), 16);
  }

  lemma ZeroIsNothing(bits: seq<bool>)
    ensures AddTo(bits + Zeros(), BitsOf(0, 16)) == bits + Zeros()
  {
    ZeroBits(16);
    hide BitsOf, Zeros;
  }

  /** The CRC of no bytes. */
  lemma StartValue()
    ensures Crc16([]) == 0xFFFF
  {
    CrcIsRemainder([]);
    AllOnes();
  }

  lemma AllOnes()
    ensures BitsNumber(Remainder(AddTo(MessageBits([]) + Zeros(), Ones()))) == 0xFFFF
  {
    var s := AddTo(MessageBits([]) + Zeros(), Ones());
    assert s == [true, true, true, true] + [true, true, true, true] + [true, true, true, true] + [true, true, true, true];
    FourNumber(s[4..]);
    FourNumber(s[8..]);
    FourNumber(s[12..]);
    FourNumber([]);
    assert s[12..] == [true, true, true, true] + [];
    assert s[8..] == [true, true, true, true] + s[12..];
    assert s[4..] == [true, true, true, true] + s[8..];
    assert s == [true, true, true, true] + s[4..];
  }

  lemma FourNumber(rest: seq<bool>)
    ensures BitsNumber([true, true, true, true] + rest) == 15 + 16 * BitsNumber(rest)
  {
    var a := [true] + rest;
    var b := [true] + a;
    var c := [true] + b;
    var d := [true] + c;
    assert d == [true, true, true, true] + rest;
    assert BitsNumber(a) == 1 + 2 * BitsNumber(rest) by { assert a[1..] == rest; }
    assert BitsNumber(b) == 1 + 2 * BitsNumber(a) by { assert b[1..] == a; }
    assert BitsNumber(c) == 1 + 2 * BitsNumber(b) by { assert c[1..] == b; }
    assert BitsNumber(d) == 1 + 2 * BitsNumber(c) by { assert d[1..] == c; }
  }
}
