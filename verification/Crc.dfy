/** The CRC-16/CCITT and CRC-32/IEEE registers of the link and maintenance protocols. */
module Crc {
  import opened Bits

  // CRC-16/CCITT: polynomial 0x1021, most significant bit first.

  function Shift16(c: u16): u16
  {
    if c >= 0x8000 then Xor(2 * c, 0x1021) % 0x1_0000 else (2 * c) % 0x1_0000
  }

  function Shifts16(c: u16, k: nat): u16
  {
    if k == 0 then c else Shift16(Shifts16(c, k - 1))
  }

  function Fold16(c: u16, b: byte): u16
  {
    XorBound16(c, 256 * b);
    Shifts16(Xor(c, 256 * b), 8)
  }

  function Crc16From(c: u16, data: seq<byte>): u16
  {
    if data == [] then c else Fold16(Crc16From(c, data[..|data| - 1]), data[|data| - 1])
  }

  function Crc16(data: seq<byte>): u16
  {
    Crc16From(0xFFFF, data)
  }

  /** The byte and bit loops shared by the Python and the C++ implementation. */
  method Crc16Ccitt(data: seq<byte>) returns (crc: u16)
    ensures crc == Crc16(data)
  {
    hide Xor, Shift16;
    crc := 0xFFFF;
    for i := 0 to |data|
      invariant crc == Crc16From(0xFFFF, data[..i])
    {
      assert data[..i + 1][..i] == data[..i];
      var word: int := data[i];
      XorBound16(crc, 256 * word);
      crc := Xor(crc, 256 * word);
      ghost var start := crc;
      for bit := 0 to 8
        invariant crc == Shifts16(start, bit)
      {
        ShiftOnce(crc);
        crc := if crc >= 0x8000 then Xor(2 * crc, 0x1021) % 0x1_0000 else (2 * crc) % 0x1_0000;
      }
    }
    assert data[..|data|] == data;
  }

  lemma ShiftOnce(c: u16)
    ensures Shift16(c) == if c >= 0x8000 then Xor(2 * c, 0x1021) % 0x1_0000 else (2 * c) % 0x1_0000
  {}

  lemma Pow2Values()
    ensures Pow2(8) == 0x100 && Pow2(15) == 0x8000 && Pow2(16) == 0x1_0000 && Pow2(32) == 0x1_0000_0000
  {
    assert Pow2(12) == 0x1000 && Pow2(20) == 0x10_0000 && Pow2(24) == 0x100_0000 && Pow2(28) == 0x1000_0000;
  }

  lemma ShlValues(h: nat)
    ensures Shl(h, 8) == 0x100 * h && Shl(h, 15) == 0x8000 * h && Shl(h, 16) == 0x1_0000 * h
  {
    assert Shl(h, 1) == 2 * h;
    assert Shl(h, 1) == 2 * h;
    assert Shl(h, 2) == 4 * h;
    assert Shl(h, 3) == 8 * h;
    assert Shl(h, 4) == 16 * h;
    assert Shl(h, 6) == 64 * h;
    assert Shl(h, 8) == 256 * h;
    assert Shl(h, 10) == 1024 * h;
    assert Shl(h, 12) == 4096 * h;
    assert Shl(h, 14) == 16384 * h;
  }

  lemma XorSplit8(h1: nat, l1: byte, h2: nat, l2: byte)
    ensures Xor(256 * h1 + l1, 256 * h2 + l2) == 256 * Xor(h1, h2) + Xor(l1, l2)
  {
    hide Xor, Shl, Pow2;
    Pow2Values(); ShlValues(h1); ShlValues(h2); ShlValues(Xor(h1, h2));
    XorSplit(h1, l1, h2, l2, 8);
  }

  lemma XorSplit15(h1: nat, l1: nat, h2: nat, l2: nat)
    requires l1 < 0x8000 && l2 < 0x8000
    ensures Xor(l1, l2) < 0x8000
    ensures Xor(0x8000 * h1 + l1, 0x8000 * h2 + l2) == 0x8000 * Xor(h1, h2) + Xor(l1, l2)
  {
    hide Xor, Shl, Pow2;
    Pow2Values(); ShlValues(h1); ShlValues(h2); ShlValues(Xor(h1, h2));
    XorSplit(h1, l1, h2, l2, 15);
  }

  /** A carry out of bit 15 is dropped by the truncation to 16 bits. */
  lemma XorDropsCarry(t: u16, p: u16)
    ensures Xor(t, p) < 0x1_0000
    ensures Xor(0x1_0000 + t, p) % 0x1_0000 == Xor(t, p)
  {
    Pow2Values(); ShlValues(1); ShlValues(0); ShlValues(Xor(1, 0));
    XorSplit(1, t, 0, p, 16);
  }

  lemma XorBound16(a: nat, b: nat)
    requires a < 0x1_0000 && b < 0x1_0000
    ensures Xor(a, b) < 0x1_0000
  {
    Pow2Values();
    XorBound(a, b, 16);
  }

  /** One shift as a linear map: double the low 15 bits, add the polynomial when the top bit was set. */
  lemma ShiftAsXor(c: u16)
    ensures Shift16(c) == Xor(2 * (c % 0x8000), if c >= 0x8000 then 0x1021 else 0)
  {
    var t := 2 * (c % 0x8000);
    XorZero(t);
    if c >= 0x8000 {
      XorDropsCarry(t, 0x1021);
      assert 2 * c == 0x1_0000 + t;
    }
  }

  lemma XorTopAndLow(c: u16, d: u16)
    ensures Xor(c, d) < 0x1_0000
    ensures Xor(c, d) / 0x8000 == Xor(c / 0x8000, d / 0x8000)
    ensures Xor(c, d) % 0x8000 == Xor(c % 0x8000, d % 0x8000)
  {
    XorParts15(c / 0x8000, c % 0x8000, d / 0x8000, d % 0x8000, c, d);
    XorBound16(c, d);
  }

  lemma XorParts15(h1: nat, l1: nat, h2: nat, l2: nat, c: nat, d: nat)
    requires l1 < 0x8000 && l2 < 0x8000 && c == 0x8000 * h1 + l1 && d == 0x8000 * h2 + l2
    ensures Xor(c, d) / 0x8000 == Xor(h1, h2) && Xor(c, d) % 0x8000 == Xor(l1, l2)
  {
    hide Xor;
    XorSplit15(h1, l1, h2, l2);
    QuotientUnique(Xor(c, d), Xor(h1, h2), Xor(l1, l2));
  }

  lemma QuotientUnique(x: nat, q: nat, r: nat)
    requires x == 0x8000 * q + r && r < 0x8000
    ensures x / 0x8000 == q && x % 0x8000 == r
  {}

  lemma XorDouble(a: nat, b: nat)
    ensures Xor(2 * a, 2 * b) == 2 * Xor(a, b)
  {
    XorJoin(a, 0, b, 0);
  }

  /** Exclusive or of four words may pair them the other way round. */
  lemma XorSwap(a: nat, p: nat, b: nat, q: nat)
    ensures Xor(Xor(a, p), Xor(b, q)) == Xor(Xor(a, b), Xor(p, q))
  {
    XorAssoc(a, p, Xor(b, q));
    XorAssoc(p, b, q);
    XorComm(p, b);
    XorAssoc(b, p, q);
    XorAssoc(a, b, Xor(p, q));
  }

  lemma XorOfTopBits()
    ensures Xor(0, 0) == 0 && Xor(0, 1) == 1 && Xor(1, 0) == 1 && Xor(1, 1) == 0
  {}

  /** The polynomial, when the bit about to be shifted out is set. */
  function Feedback(top: nat): u16
  {
    if top == 1 then 0x1021 else 0
  }

  lemma FeedbackLinear(a: nat, b: nat)
    requires a <= 1 && b <= 1
    ensures Xor(a, b) <= 1 && Feedback(Xor(a, b)) == Xor(Feedback(a), Feedback(b))
  {
    hide Xor;
    XorOfTopBits();
    XorZero(0x1021); XorComm(0, 0x1021);
  }

  lemma ShiftByParts(c: u16)
    ensures Shift16(c) == Xor(2 * (c % 0x8000), Feedback(c / 0x8000)) && c / 0x8000 <= 1
  {
    hide Xor;
    ShiftAsXor(c);
  }

  lemma ShiftLinear(c: u16, d: u16)
    ensures Xor(c, d) < 0x1_0000
    ensures Shift16(Xor(c, d)) == Xor(Shift16(c), Shift16(d))
  {
    hide Xor, Shift16, Feedback;
    XorTopAndLow(c, d);
    ShiftByParts(c); ShiftByParts(d); ShiftByParts(Xor(c, d));
    FeedbackLinear(c / 0x8000, d / 0x8000);
    XorDouble(c % 0x8000, d % 0x8000);
    XorSwap(2 * (c % 0x8000), Feedback(c / 0x8000), 2 * (d % 0x8000), Feedback(d / 0x8000));
  }

  lemma XorIsZero(a: nat, b: nat)
    requires Xor(a, b) == 0
    ensures a == b
  {
    XorZero(b);
    XorCancel(a, b, b);
  }

  /** The polynomial is odd, so a shift never loses information. */
  lemma ShiftInjective(c: u16, d: u16)
    requires Shift16(c) == Shift16(d)
    ensures c == d
  {
    ShiftLinear(c, d);
    var e := Xor(c, d);
    XorZero(Shift16(c));
    ShiftAsXor(e);
    XorHalf(2 * (e % 0x8000), if e >= 0x8000 then 0x1021 else 0);
    XorZero(2 * (e % 0x8000));
    assert e == 0;
    XorIsZero(c, d);
  }

  lemma {:induction false} ShiftsLinear(c: u16, d: u16, k: nat)
    ensures Xor(c, d) < 0x1_0000
    ensures Shifts16(Xor(c, d), k) == Xor(Shifts16(c, k), Shifts16(d, k))
  {
    XorBound16(c, d);
    if k > 0 {
      ShiftsLinear(c, d, k - 1);
      ShiftLinear(Shifts16(c, k - 1), Shifts16(d, k - 1));
    }
  }

  lemma {:induction false} ShiftsInjective(c: u16, d: u16, k: nat)
    requires Shifts16(c, k) == Shifts16(d, k)
    ensures c == d
  {
    if k > 0 {
      ShiftInjective(Shifts16(c, k - 1), Shifts16(d, k - 1));
      ShiftsInjective(c, d, k - 1);
    }
  }

  lemma {:induction false} ShiftsAdd(c: u16, j: nat, k: nat)
    ensures Shifts16(Shifts16(c, j), k) == Shifts16(c, j + k)
  {
    if k > 0 { ShiftsAdd(c, j, k - 1); }
  }

  /** Folding a byte is a bijection of the register, and different bytes give different registers. */
  lemma FoldInjective(c: u16, a: byte, d: u16, b: byte)
    requires Fold16(c, a) == Fold16(d, b)
    ensures a == b <==> c == d
  {
    XorBound16(c, 256 * a); XorBound16(d, 256 * b);
    ShiftsInjective(Xor(c, 256 * a), Xor(d, 256 * b), 8);
    if a == b { XorCancel(c, d, 256 * a); }
    if c == d {
      XorComm(c, 256 * a); XorComm(c, 256 * b);
      XorCancel(256 * a, 256 * b, c);
    }
  }

  /** Shifts that never reach the top bit only multiply. */
  lemma {:induction false} SmallShifts(b: byte, k: nat)
    requires k <= 8
    ensures Shifts16(b, k) == Pow2(k) * b && Pow2(k) <= 256
  {
    hide Xor;
    PowersTo8(k);
    if k > 0 {
      SmallShifts(b, k - 1);
      PowersTo8(k - 1);
      LowProduct(Pow2(k - 1), b);
    }
  }

  lemma PowersTo8(k: nat)
    requires k <= 8
    ensures Pow2(k) <= 256 && (k < 8 ==> Pow2(k) <= 128) && (k == 8 ==> Pow2(k) == 256)
  {
    assert Pow2(2) == 4 && Pow2(4) == 16 && Pow2(6) == 64;
  }

  lemma LowProduct(p: nat, b: byte)
    requires p <= 128
    ensures p * b < 0x8000 && 2 * p * b == 2 * (p * b)
  {
    assert p * b <= 128 * b;
  }

  lemma HighByteIsEightShifts(b: byte)
    ensures Shifts16(b, 8) == 256 * b
  {
    SmallShifts(b, 8);
    PowersTo8(8);
  }

  lemma XorHighLow(a: byte, b: byte)
    ensures Xor(256 * a, b) == 256 * a + b
  {
    XorSplit8(a, 0, 0, b);
    XorZero(a); XorZero(b); XorComm(0, b);
  }

  /** Two bytes enter the register together as one 16-bit word. */
  lemma FoldTwice(c: u16, a: byte, b: byte)
    ensures Xor(c, 256 * a + b) < 0x1_0000
    ensures Fold16(Fold16(c, a), b) == Shifts16(Xor(c, 256 * a + b), 16)
  {
    XorBound16(c, 256 * a); XorBound16(c, 256 * a + b);
    var x := Xor(c, 256 * a);
    HighByteIsEightShifts(b);
    ShiftsLinear(x, b, 8);
    XorAssoc(c, 256 * a, b);
    XorHighLow(a, b);
    ShiftsAdd(Xor(x, b), 8, 8);
  }

  lemma FoldTwiceInjective(c: u16, a: byte, b: byte, a': byte, b': byte)
    requires Fold16(Fold16(c, a), b) == Fold16(Fold16(c, a'), b')
    ensures a == a' && b == b'
  {
    FoldTwice(c, a, b); FoldTwice(c, a', b');
    var w, w' := 256 * a + b, 256 * a' + b';
    ShiftsInjective(Xor(c, w), Xor(c, w'), 16);
    XorComm(c, w); XorComm(c, w');
    XorCancel(w, w', c);
  }

  // What eight shifts of a byte leave in the high byte.

  function HighAfter(e: byte): byte
  {
    Shifts16(256 * e, 8) / 256
  }

  lemma HighXor(e: byte, f: byte)
    ensures Xor(e, f) < 256 && HighAfter(Xor(e, f)) == Xor(HighAfter(e), HighAfter(f))
  {
    hide Xor, Shifts16;
    ByteXor(e, f);
    ShiftsLinear(256 * e, 256 * f, 8);
    XorSplit8(e, 0, f, 0); XorZero(0);
    WordXor(Shifts16(256 * e, 8), Shifts16(256 * f, 8));
  }

  lemma ByteXor(a: byte, b: byte)
    ensures Xor(a, b) < 256
  {
    Pow2Values();
    XorBound(a, b, 8);
  }

  lemma WordXor(a: u16, b: u16)
    ensures Xor(a, b) < 0x1_0000
    ensures Xor(a, b) / 256 == Xor(a / 256, b / 256) && Xor(a, b) % 256 == Xor(a % 256, b % 256)
  {
    hide Xor;
    XorBound16(a, b);
    ByteXor(a % 256, b % 256);
    XorSplit8(a / 256, a % 256, b / 256, b % 256);
    QuotientOf256(Xor(a, b), Xor(a / 256, b / 256), Xor(a % 256, b % 256));
  }

  lemma QuotientOf256(x: nat, q: nat, r: nat)
    requires x == 256 * q + r && r < 256
    ensures x / 256 == q && x % 256 == r
  {}

  /** A bit above all bits of l is just added. */
  lemma XorDisjoint(h: nat, l: nat, n: nat)
    requires l < Pow2(n)
    ensures Xor(Shl(h, n), l) == Shl(h, n) + l
  {
    XorSplit(h, 0, 0, l, n);
    ShlZero(n);
    XorZero(h); XorZero(l); XorComm(0, l);
  }

  lemma {:induction false} ShlZero(n: nat)
    ensures Shl(0, n) == 0
  {
    if n > 0 { ShlZero(n - 1); }
  }

  lemma XorSplit4(h1: nat, l1: nat, h2: nat, l2: nat)
    requires l1 < 16 && l2 < 16
    ensures Xor(l1, l2) < 16 && Xor(16 * h1 + l1, 16 * h2 + l2) == 16 * Xor(h1, h2) + Xor(l1, l2)
  {
    hide Xor;
    assert Pow2(2) == 4 && Pow2(4) == 16;
    XorSplit(h1, l1, h2, l2, 4);
    Shl4(h1); Shl4(h2); Shl4(Xor(h1, h2));
  }

  lemma Shl4(h: nat)
    ensures Shl(h, 4) == 16 * h
  {
    assert Shl(h, 1) == 2 * h;
    assert Shl(h, 2) == 4 * h;
    assert Shl(h, 3) == 8 * h;
  }

  lemma LowShift(c: u16)
    requires c < 0x8000
    ensures Shift16(c) == 2 * c
  {}

  lemma TopShift(x: nat)
    requires x < 0x4000
    ensures Shift16(0x8000 + 2 * x) == Xor(4 * x, 0x1021)
  {
    hide Shift16, Xor;
    ShiftByParts(0x8000 + 2 * x);
  }

  /** One shift more: the single bits of a byte one after the other. */
  lemma NextBit(e: byte, t: u16)
    requires e < 128 && Shifts16(256 * e, 8) == t
    ensures Shifts16(256 * (2 * e), 8) == Shift16(t)
  {
    hide Shift16;
    LowShift(256 * e);
    assert Shifts16(256 * e, 1) == 512 * e by { assert Shifts16(256 * e, 0) == 256 * e; }
    ShiftsAdd(256 * e, 1, 8);
    ShiftsAdd(256 * e, 8, 1);
    assert Shifts16(t, 1) == Shift16(t) by { assert Shifts16(t, 0) == t; }
  }

  lemma FirstBit()
    ensures Shifts16(256, 8) == 0x1021
  {
    hide Xor, Shift16;
    LowShift(0x0100); LowShift(0x0200); LowShift(0x0400); LowShift(0x0800); LowShift(0x1000); LowShift(0x2000); LowShift(0x4000);
    TopShift(0); XorZero(0x1021); XorComm(0, 0x1021);
    assert Shifts16(256, 1) == 0x0200;
    assert Shifts16(256, 2) == 0x0400;
    assert Shifts16(256, 3) == 0x0800;
    assert Shifts16(256, 4) == 0x1000;
    assert Shifts16(256, 5) == 0x2000;
    assert Shifts16(256, 6) == 0x4000;
    assert Shifts16(256, 7) == 0x8000;
  }

  lemma FifthBit()
    ensures Shift16(0x8108) == 0x1231
  {
    hide Shift16;
    TopShift(0x84);
    XorSplit8(0x02, 0x10, 0x10, 0x21);
    assert Xor(0x02, 0x10) == 0x12 by { assert Xor(1, 8) == 9 by { XorZero(4); XorComm(0, 4); } }
    assert Xor(0x10, 0x21) == 0x31 by { XorSplit4(1, 0, 2, 1); XorZero(1); XorComm(0, 1); assert Xor(1, 2) == 3; }
  }

  /** The eight single-bit bytes. */
  lemma HighOfBits()
    ensures HighAfter(1) == 0x10 && HighAfter(2) == 0x20 && HighAfter(4) == 0x40 && HighAfter(8) == 0x81
    ensures HighAfter(16) == 0x12 && HighAfter(32) == 0x24 && HighAfter(64) == 0x48 && HighAfter(128) == 0x91
  {
    hide Xor, Shift16, Shifts16;
    FirstBit(); FifthBit();
    LowShift(0x1021); LowShift(0x2042); LowShift(0x4084); LowShift(0x1231); LowShift(0x2462); LowShift(0x48C4);
    NextBit(1, 0x1021); NextBit(2, 0x2042); NextBit(4, 0x4084); NextBit(8, 0x8108);
    NextBit(16, 0x1231); NextBit(32, 0x2462); NextBit(64, 0x48C4);
  }

  lemma Disjoint(h: nat, l: nat, n: nat, p: nat)
    requires l < Pow2(n) && p == Shl(h, n)
    ensures Xor(p, l) == p + l
  {
    XorDisjoint(h, l, n);
  }

  lemma SmallShl()
    ensures Pow2(1) == 2 && Pow2(2) == 4 && Pow2(3) == 8 && Pow2(4) == 16 && Pow2(5) == 32 && Pow2(6) == 64
    ensures Shl(1, 1) == 2 && Shl(1, 2) == 4 && Shl(1, 3) == 8 && Shl(1, 4) == 16 && Shl(1, 5) == 32 && Shl(1, 6) == 64
  {
    assert Shl(1, 0) == 1;
  }

  lemma HighOfNothing()
    ensures HighAfter(0) == 0
  {
    hide Xor;
    HighXor(0, 0);
    XorZero(0); XorZero(HighAfter(0));
  }

  /** The low half of the byte. */
  lemma HighOfLow(lo: nat)
    requires lo < 16
    ensures HighAfter(lo) == 16 * lo + lo / 8
  {
    hide Xor, HighAfter, Shl, Pow2;
    HighOfBits(); HighOfNothing(); SmallShl();
    if lo >= 8 {
      HighOfLow(lo - 8);
      Disjoint(1, lo - 8, 3, 8);
      HighXor(8, lo - 8);
      XorSplit4(8, 1, lo - 8, 0);
      XorZero(1);
    } else if lo >= 4 {
      HighOfLow(lo - 4);
      Disjoint(1, lo - 4, 2, 4);
      HighXor(4, lo - 4);
      XorSplit4(4, 0, lo - 4, 0); XorZero(0);
    } else if lo >= 2 {
      HighOfLow(lo - 2);
      Disjoint(1, lo - 2, 1, 2);
      HighXor(2, lo - 2);
      XorSplit4(2, 0, lo - 2, 0); XorZero(0);
    }
  }

  /** The high half, without its top bit. */
  lemma HighOfHigh(hi: nat)
    requires hi < 8
    ensures HighAfter(16 * hi) == 18 * hi
  {
    hide Xor, HighAfter, Shl, Pow2;
    HighOfBits(); HighOfNothing(); SmallShl();
    if hi >= 4 {
      HighOfHigh(hi - 4);
      Disjoint(1, hi - 4, 2, 4);
      XorSplit4(4, 0, hi - 4, 0); XorZero(0);
      HighXor(64, 16 * (hi - 4));
      XorSplit4(4, 8, hi - 4, 2 * (hi - 4));
      Disjoint(1, 2 * (hi - 4), 3, 8);
    } else if hi >= 2 {
      HighOfHigh(hi - 2);
      Disjoint(1, hi - 2, 1, 2);
      XorSplit4(2, 0, hi - 2, 0); XorZero(0);
      HighXor(32, 16 * (hi - 2));
      XorSplit4(2, 4, hi - 2, 2 * (hi - 2));
      Disjoint(1, 2 * (hi - 2), 2, 4);
    }
  }

  /** The high half with its top bit. */
  lemma HighOfTop(k: nat)
    requires k < 8
    ensures HighAfter(128 + 16 * k) == 16 * Xor(9, k) + 1 + 2 * k
  {
    hide Xor, HighAfter, Shl, Pow2;
    HighOfBits(); HighOfHigh(k); SmallShl();
    Disjoint(1, k, 3, 8);
    XorSplit4(8, 0, k, 0); XorZero(0);
    HighXor(128, 16 * k);
    XorSplit4(9, 1, k, 2 * k);
    Disjoint(k, 1, 1, Shl(k, 1));
    assert Shl(k, 1) == 2 * k by { Shl1(k); }
    XorComm(1, 2 * k);
  }

  lemma Shl1(k: nat)
    ensures Shl(k, 1) == 2 * k
  {
    assert Shl(k, 0) == k;
  }

  /** The two halves of a byte cancel in the high byte only for 0 and 0x89. */
  lemma HalvesCancel(lo: nat, hi: nat)
    requires lo < 16 && hi < 16 && HighAfter(16 * hi) == HighAfter(lo)
    ensures (lo == 0 && hi == 0) || (lo == 9 && hi == 8)
  {
    hide Xor, HighAfter;
    HighOfLow(lo);
    if hi < 8 {
      HighOfHigh(hi);
      LowNibbleDecides(hi, 2 * hi, lo);
    } else {
      HighOfTop(hi - 8);
      LowNibbleDecides(Xor(9, hi - 8), 1 + 2 * (hi - 8), lo);
      XorZero(9);
    }
  }

  /** Comparing half by half. */
  lemma LowNibbleDecides(high: nat, low: nat, lo: nat)
    requires low < 16 && lo < 16 && 16 * high + low == 16 * lo + lo / 8
    ensures high == lo && low == lo / 8
  {}

  lemma HighOfHalves(lo: nat, hi: nat)
    requires lo < 16 && hi < 16
    ensures HighAfter(16 * hi + lo) == Xor(HighAfter(16 * hi), HighAfter(lo))
  {
    hide Xor, HighAfter, Shl, Pow2;
    SmallShl(); Shl4(hi);
    Disjoint(hi, lo, 4, 16 * hi);
    HighXor(16 * hi, lo);
  }

  /** Only 0 and 0x89 leave the high byte clear. */
  lemma OnlyOneCancels(e: byte)
    requires Shifts16(256 * e, 8) < 256
    ensures e == 0 || e == 0x89
  {
    hide Xor, Shifts16;
    assert HighAfter(e) == 0;
    hide HighAfter;
    var lo, hi := e % 16, e / 16;
    assert e == 16 * hi + lo;
    HighOfHalves(lo, hi);
    XorIsZero(HighAfter(16 * hi), HighAfter(lo));
    HalvesCancel(lo, hi);
  }

  lemma {:induction false} Crc16Append(c: u16, p: seq<byte>, q: seq<byte>)
    ensures Crc16From(c, p + q) == Crc16From(Crc16From(c, p), q)
  {
    if q == [] {
      assert p + q == p;
    } else {
      Crc16Append(c, p, q[..|q| - 1]);
      assert (p + q)[..|p + q| - 1] == p + q[..|q| - 1];
    }
  }

  /** Registers that differ stay different under any common tail. */
  lemma {:induction false} Crc16TailInjective(c: u16, d: u16, tail: seq<byte>)
    requires Crc16From(c, tail) == Crc16From(d, tail)
    ensures c == d
  {
    if tail != [] {
      var front, last := tail[..|tail| - 1], tail[|tail| - 1];
      FoldInjective(Crc16From(c, front), last, Crc16From(d, front), last);
      Crc16TailInjective(c, d, front);
    }
  }

  /** A burst of one or two changed bytes always changes the checksum. */
  lemma Crc16DetectsBurst(p: seq<byte>, burst: seq<byte>, burst': seq<byte>, q: seq<byte>)
    requires |burst| == |burst'| && 1 <= |burst| <= 2 && burst != burst'
    ensures Crc16(p + burst + q) != Crc16(p + burst' + q)
  {
    var c := Crc16(p);
    if Crc16(p + burst + q) == Crc16(p + burst' + q) {
      Crc16Append(0xFFFF, p + burst, q); Crc16Append(0xFFFF, p + burst', q);
      Crc16Append(0xFFFF, p, burst); Crc16Append(0xFFFF, p, burst');
      Crc16TailInjective(Crc16From(c, burst), Crc16From(c, burst'), q);
      assert Crc16From(c, []) == c;
      if |burst| == 1 {
        assert burst[..0] == [] && burst'[..0] == [];
        FoldInjective(c, burst[0], c, burst'[0]);
      } else {
        assert burst[..1][..0] == [] && burst'[..1][..0] == [];
        assert Crc16From(c, burst) == Fold16(Fold16(c, burst[0]), burst[1]);
        assert Crc16From(c, burst') == Fold16(Fold16(c, burst'[0]), burst'[1]);
        FoldTwiceInjective(c, burst[0], burst[1], burst'[0], burst'[1]);
      }
    }
  }

  // CRC-32/IEEE: reflected polynomial 0xEDB88320, least significant bit first.

  function Shift32(c: u32): (r: u32)
  {
    Pow2Values();
    XorBound(c / 2, 0xEDB88320, 32);
    if c % 2 == 1 then Xor(c / 2, 0xEDB88320) else c / 2
  }

  function Shifts32(c: u32, k: nat): u32
  {
    if k == 0 then c else Shift32(Shifts32(c, k - 1))
  }

  function Fold32(c: u32, b: byte): u32
  {
    Pow2Values();
    XorBound(c, b, 32);
    Shifts32(Xor(c, b), 8)
  }

  function Crc32From(c: u32, data: seq<byte>): u32
  {
    if data == [] then c else Fold32(Crc32From(c, data[..|data| - 1]), data[|data| - 1])
  }

  function Crc32(data: seq<byte>): u32
  {
    0xFFFF_FFFF - Crc32From(0xFFFF_FFFF, data)
  }

  method Crc32Ieee(data: seq<byte>) returns (crc: u32)
    ensures crc == Crc32(data)
  {
    hide Xor, Pow2;
    crc := 0xFFFF_FFFF;
    for i := 0 to |data|
      invariant crc == Crc32From(0xFFFF_FFFF, data[..i])
    {
      assert data[..i + 1][..i] == data[..i];
      Pow2Values();
      XorBound(crc, data[i], 32);
      crc := Xor(crc, data[i]);
      ghost var start := crc;
      for bit := 0 to 8
        invariant crc == Shifts32(start, bit)
      {
        var lsb := crc % 2 == 1;
        crc := crc / 2;
        if lsb {
          XorBound(crc, 0xEDB88320, 32);
          crc := Xor(crc, 0xEDB88320);
        }
      }
    }
    assert data[..|data|] == data;
    crc := 0xFFFF_FFFF - crc;
  }
}
