/** What CRC-32 computes: a remainder of polynomials over GF(2), and which damage it cannot miss. */
module Crc32Theory {
  import opened Bits
  import opened Crc

  // Polynomials over GF(2), as binary numbers: bit i is the coefficient of x to the i.

  /** The generator x^32 + x^26 + x^23 + x^22 + x^16 + x^12 + x^11 + x^10 + x^8 + x^7 + x^5 + x^4 + x^2 + x + 1. */
  const GENERATOR: nat := 0x1_04C1_1DB7

  /** The product of two polynomials. */
  function Product(q: nat, g: nat): nat
  {
    if q == 0 then 0 else Xor(if q % 2 == 1 then g else 0, 2 * Product(q / 2, g))
  }

  /** The bits of n low places in reverse order. */
  function Reversed(v: nat, n: nat): nat
  {
    if n == 0 then 0 else At(v % 2, n - 1) + Reversed(v / 2, n - 1)
  }

  lemma {:induction false} ReversedBound(v: nat, n: nat)
    ensures Reversed(v, n) < Pow2(n)
  {
    if n > 0 { ReversedBound(v / 2, n - 1); }
  }

  /** A word of n bits, reversed in one more place, moves up by one. */
  lemma {:induction false} ReversedWider(v: nat, n: nat)
    requires v < Pow2(n)
    ensures Reversed(v, n + 1) == 2 * Reversed(v, n)
  {
    if n > 0 { ReversedWider(v / 2, n - 1); }
  }

  /** The bit v, moved up by n places. */
  function At(v: nat, n: nat): nat
  {
    if v == 1 then Pow2(n) else 0
  }

  lemma {:induction false} ReversedXor(a: nat, b: nat, n: nat)
    ensures Reversed(Xor(a, b), n) == Xor(Reversed(a, n), Reversed(b, n))
  {
    hide Xor, Pow2, At;
    if n == 0 {
      XorZero(0);
    } else {
      XorHalf(a, b);
      ReversedXor(a / 2, b / 2, n - 1);
      ReversedBound(a / 2, n - 1); ReversedBound(b / 2, n - 1);
      TopBitXor(a % 2, Reversed(a / 2, n - 1), b % 2, Reversed(b / 2, n - 1), n - 1);
    }
  }

  lemma TopBitXor(s: nat, x: nat, t: nat, y: nat, n: nat)
    requires s <= 1 && t <= 1 && x < Pow2(n) && y < Pow2(n)
    ensures Xor(At(s, n) + x, At(t, n) + y) == At(if s == t then 0 else 1, n) + Xor(x, y)
  {
    hide Xor;
    XorSplit(s, x, t, y, n);
    ShlPow2(s, n); ShlPow2(t, n); ShlPow2(Xor(s, t), n);
    assert Xor(s, t) == if s == t then 0 else 1 by { XorOfTopBits(); }
  }

  lemma {:induction false} ShlPow2(h: nat, n: nat)
    ensures Shl(h, n) == h * Pow2(n)
  {
    if n > 0 { ShlPow2(h, n - 1); }
  }

  // Arithmetic modulo the generator.

  ghost predicate Congruent(a: nat, b: nat)
  {
    exists q: nat :: Xor(a, b) == Product(q, GENERATOR)
  }

  lemma {:induction false} ProductXor(q: nat, p: nat, g: nat)
    ensures Product(Xor(q, p), g) == Xor(Product(q, g), Product(p, g))
    decreases q + p
  {
    if q == 0 {
      XorComm(0, p); XorZero(p);
      XorComm(0, Product(p, g)); XorZero(Product(p, g));
    } else if p == 0 {
      XorZero(q); XorZero(Product(q, g));
    } else {
      ProductXor(q / 2, p / 2, g);
      ProductStep(q, g); ProductStep(p, g); ProductStep(Xor(q, p), g);
      XorHalf(q, p);
      var u, v := Taken(q, g), Taken(p, g);
      XorSwap(u, 2 * Product(q / 2, g), v, 2 * Product(p / 2, g));
      XorDouble(Product(q / 2, g), Product(p / 2, g));
      XorZero(g); XorZero(0); XorComm(0, g);
    }
  }

  /** What the lowest coefficient contributes. */
  function Taken(q: nat, g: nat): nat
  {
    if q % 2 == 1 then g else 0
  }

  lemma ProductStep(q: nat, g: nat)
    ensures Product(q, g) == Xor(Taken(q, g), 2 * Product(q / 2, g))
  {
    if q == 0 { XorZero(0); }
  }

  lemma CongruentSame(a: nat)
    ensures Congruent(a, a)
  {
    XorZero(a);
    assert Product(0, GENERATOR) == 0;
  }

  lemma CongruentBack(a: nat, b: nat)
    requires Congruent(a, b)
    ensures Congruent(b, a)
  {
    XorComm(a, b);
  }

  lemma CongruentXor(a: nat, b: nat, c: nat, d: nat)
    requires Congruent(a, b) && Congruent(c, d)
    ensures Congruent(Xor(a, c), Xor(b, d))
  {
    hide Xor, Product;
    var q: nat :| Xor(a, b) == Product(q, GENERATOR);
    var p: nat :| Xor(c, d) == Product(p, GENERATOR);
    ProductXor(q, p, GENERATOR);
    XorSwap(a, c, b, d);
    assert Xor(Xor(a, c), Xor(b, d)) == Product(Xor(q, p), GENERATOR);
  }

  lemma CongruentTrans(a: nat, b: nat, c: nat)
    requires Congruent(a, b) && Congruent(b, c)
    ensures Congruent(a, c)
  {
    hide Xor, Product, Congruent;
    CongruentXor(a, b, b, c);
    XorZero(b);
    CancelMiddle(a, b, c);
  }

  lemma CancelMiddle(a: nat, b: nat, c: nat)
    requires Congruent(Xor(a, b), Xor(b, c))
    ensures Congruent(a, c)
  {
    hide Product;
    XorComm(b, c);
    XorSwap(a, b, c, b);
    XorZero(b); XorZero(Xor(a, c));
    assert Xor(Xor(a, b), Xor(b, c)) == Xor(a, c);
  }

  lemma {:induction false} CongruentShl(a: nat, b: nat, k: nat)
    requires Congruent(a, b)
    ensures Congruent(Shl(a, k), Shl(b, k))
  {
    hide Xor, Product;
    if k > 0 {
      CongruentShl(a, b, k - 1);
      var q: nat :| Xor(Shl(a, k - 1), Shl(b, k - 1)) == Product(q, GENERATOR);
      XorDouble(Shl(a, k - 1), Shl(b, k - 1));
      DoubleProduct(q);
      assert Xor(Shl(a, k), Shl(b, k)) == Product(2 * q, GENERATOR);
    }
  }

  lemma DoubleProduct(q: nat)
    ensures Product(2 * q, GENERATOR) == 2 * Product(q, GENERATOR)
  {
    hide Xor;
    XorComm(0, 2 * Product(q, GENERATOR));
    XorZero(2 * Product(q, GENERATOR));
  }

  // A remainder is unique.

  lemma {:induction false} TopBitStays(a: nat, b: nat, n: nat)
    requires a < Pow2(n) <= b
    ensures Xor(a, b) >= Pow2(n)
  {
    if n == 0 {
      XorComm(0, b); XorZero(b);
    } else {
      XorHalf(a, b);
      TopBitStays(a / 2, b / 2, n - 1);
    }
  }

  lemma Pow2Of33()
    ensures Pow2(33) == 0x2_0000_0000
  {
    Pow2Values();
  }

  lemma {:induction false} MultiplesAreLarge(q: nat)
    requires q > 0
    ensures Product(q, GENERATOR) >= 0x1_0000_0000
  {
    hide Xor, Pow2;
    ProductStep(q, GENERATOR);
    if q == 1 {
      assert Product(0, GENERATOR) == 0;
      XorZero(GENERATOR);
    } else {
      MultiplesAreLarge(q / 2);
      Pow2Of33();
      TopBitStays(Taken(q, GENERATOR), 2 * Product(q / 2, GENERATOR), 33);
    }
  }

  lemma RemainderUnique(r: u32, s: u32)
    requires Congruent(r, s)
    ensures r == s
  {
    hide Xor, Product;
    var q: nat :| Xor(r, s) == Product(q, GENERATOR);
    Pow2Values();
    XorBound(r, s, 32);
    if q > 0 { MultiplesAreLarge(q); }
    assert Product(0, GENERATOR) == 0 by { NoProduct(); }
    XorIsZero(r, s);
  }

  lemma NoProduct()
    ensures Product(0, GENERATOR) == 0
  {}

  // The register, read with its bits in reverse.

  function Mirror(c: u32): nat
  {
    Reversed(c, 32)
  }

  lemma BitOut(h: nat, b: nat, n: nat)
    requires b <= 1
    ensures Reversed(2 * h + b, n + 1) == b * Pow2(n) + Reversed(h, n)
  {}

  /** The lowest hexadecimal digit, turned round, becomes the highest. */
  lemma DigitOut(h: nat, b3: nat, b2: nat, b1: nat, b0: nat, n: nat)
    requires b3 <= 1 && b2 <= 1 && b1 <= 1 && b0 <= 1
    ensures Reversed(16 * h + 8 * b3 + 4 * b2 + 2 * b1 + b0, n + 4) ==
            b0 * (8 * Pow2(n)) + b1 * (4 * Pow2(n)) + b2 * (2 * Pow2(n)) + b3 * Pow2(n) + Reversed(h, n)
  {
    hide Reversed, Pow2;
    var v3 := 2 * h + b3;
    var v2 := 2 * v3 + b2;
    var v1 := 2 * v2 + b1;
    BitOut(h, b3, n); BitOut(v3, b2, n + 1); BitOut(v2, b1, n + 2); BitOut(v1, b0, n + 3);
    assert Pow2(n + 1) == 2 * Pow2(n) && Pow2(n + 2) == 4 * Pow2(n) && Pow2(n + 3) == 8 * Pow2(n) by { Doubled(n); }
  }

  lemma Doubled(n: nat)
    ensures Pow2(n + 1) == 2 * Pow2(n) && Pow2(n + 2) == 4 * Pow2(n) && Pow2(n + 3) == 8 * Pow2(n)
  {}

  /** The constant of the loops is the generator in reverse, without its leading term. */
  lemma MirrorOfConstant()
    ensures Mirror(0xEDB88320) == GENERATOR - 0x1_0000_0000
  {
    hide Reversed, Pow2;
    DigitPowers();
    assert Reversed(0, 0) == 0 by { NothingReversed(); }
    DigitOut(0, 1, 1, 1, 0, 0); DigitOut(0xE, 1, 1, 0, 1, 4); DigitOut(0xED, 1, 0, 1, 1, 8); DigitOut(0xEDB, 1, 0, 0, 0, 12);
    DigitOut(0xEDB8, 1, 0, 0, 0, 16); DigitOut(0xEDB88, 0, 0, 1, 1, 20); DigitOut(0xEDB883, 0, 0, 1, 0, 24);
    DigitOut(0xEDB8832, 0, 0, 0, 0, 28);
  }

  lemma NothingReversed()
    ensures Reversed(0, 0) == 0
  {}

  lemma DigitPowers()
    ensures Pow2(0) == 1 && Pow2(4) == 0x10 && Pow2(8) == 0x100 && Pow2(12) == 0x1000 && Pow2(16) == 0x1_0000
    ensures Pow2(20) == 0x10_0000 && Pow2(24) == 0x100_0000 && Pow2(28) == 0x1000_0000
  {}

  lemma ReversedStep(v: nat, n: nat)
    requires n > 0
    ensures Reversed(v, n) == At(v % 2, n - 1) + Reversed(v / 2, n - 1)
  {}

  /** One step of the loop multiplies by x, modulo the generator. */
  lemma ShiftIsTimesX(c: u32)
    ensures Congruent(Mirror(Shift32(c)), 2 * Mirror(c))
  {
    hide Xor, Reversed, Pow2, Product, Congruent;
    Pow2Values(); Pow2Of31();
    ReversedStep(c, 32);
    ReversedWider(c / 2, 31);
    var x := Reversed(c / 2, 32);
    assert 2 * Mirror(c) == (c % 2) * 0x1_0000_0000 + x;
    if c % 2 == 0 {
      CongruentSame(x);
    } else {
      ReversedXor(c / 2, 0xEDB88320, 32);
      MirrorOfConstant();
      ReversedBound(c / 2, 32);
      GeneratorFlips(x);
    }
  }

  lemma Pow2Of31()
    ensures Pow2(31) == 0x8000_0000
  {
    Pow2Values();
    assert Pow2(32) == 2 * Pow2(31);
  }

  lemma GeneratorFlips(x: u32)
    ensures Congruent(Xor(x, GENERATOR - 0x1_0000_0000), 0x1_0000_0000 + x)
  {
    hide Xor, Pow2, Product;
    var low: nat := GENERATOR - 0x1_0000_0000;
    Pow2Values(); ShlPow2(1, 32);
    Disjoint(1, x, 32, 0x1_0000_0000); Disjoint(1, low, 32, 0x1_0000_0000);
    XorComm(0x1_0000_0000, x);
    XorSwap(x, low, x, 0x1_0000_0000);
    XorZero(x);
    XorComm(low, 0x1_0000_0000);
    XorComm(0, GENERATOR); XorZero(GENERATOR);
    OneTimes(GENERATOR);
    assert Xor(Xor(x, low), 0x1_0000_0000 + x) == Product(1, GENERATOR);
  }

  lemma OneTimes(g: nat)
    ensures Product(1, g) == g
  {
    assert Product(0, g) == 0;
    XorZero(g);
  }

  lemma {:induction false} ShiftsAreTimesX(c: u32, k: nat)
    ensures Congruent(Mirror(Shifts32(c, k)), Shl(Mirror(c), k))
  {
    hide Mirror, Shift32, Congruent;
    if k == 0 {
      CongruentSame(Mirror(c));
    } else {
      var t := Shifts32(c, k - 1);
      ShiftsAreTimesX(c, k - 1);
      ShiftIsTimesX(t);
      CongruentShl(Mirror(t), Shl(Mirror(c), k - 1), 1);
      Shl1(Mirror(t)); Shl1(Shl(Mirror(c), k - 1));
      CongruentTrans(Mirror(Shift32(t)), 2 * Mirror(t), Shl(Mirror(c), k));
    }
  }

  lemma {:induction false} WiderBy(v: nat, n: nat, k: nat)
    requires v < Pow2(n)
    ensures Reversed(v, n + k) == Shl(Reversed(v, n), k)
  {
    hide Reversed;
    if k > 0 {
      WiderBy(v, n, k - 1);
      PowersGrow(n, k - 1);
      ReversedWider(v, n + k - 1);
    }
  }

  lemma {:induction false} PowersGrow(n: nat, k: nat)
    ensures Pow2(n) <= Pow2(n + k)
  {
    if k > 0 { PowersGrow(n, k - 1); }
  }

  // The message.

  /** The coefficients a byte contributes, in the order in which its bits are sent: the least significant first. */
  function ByteTerm(b: byte): nat
  {
    Reversed(b, 8)
  }

  /** The message as a polynomial: the bit sent first is the coefficient of the highest power. */
  function Message(data: seq<byte>): nat
  {
    if data == [] then 0 else 256 * Message(data[..|data| - 1]) + ByteTerm(data[|data| - 1])
  }

  /** The message moved up by 32 places, with the initial register added at its head. */
  function Dividend(c: u32, data: seq<byte>): nat
  {
    Xor(Shl(Message(data), 32), Shl(Mirror(c), 8 * |data|))
  }

  lemma FoldIsStep(c: u32, b: byte)
    ensures Congruent(Mirror(Fold32(c, b)), Xor(Shl(Mirror(c), 8), Shl(ByteTerm(b), 32)))
  {
    hide Congruent, Shifts32, Reversed;
    Pow2Values();
    XorBound(c, b, 32);
    ShiftsAreTimesX(Xor(c, b), 8);
    ReversedXor(c, b, 32);
    WiderBy(b, 8, 24);
    ShlXor(Mirror(c), Shl(ByteTerm(b), 24), 8);
    ShlAdd(ByteTerm(b), 24, 8);
  }

  lemma {:induction false} ShlXor(a: nat, b: nat, k: nat)
    ensures Shl(Xor(a, b), k) == Xor(Shl(a, k), Shl(b, k))
  {
    hide Xor;
    if k > 0 {
      ShlXor(a, b, k - 1);
      XorDouble(Shl(a, k - 1), Shl(b, k - 1));
    }
  }

  lemma {:induction false} ShlAdd(a: nat, j: nat, k: nat)
    ensures Shl(Shl(a, j), k) == Shl(a, j + k)
  {
    if k > 0 { ShlAdd(a, j, k - 1); }
  }

  lemma DividendStep(c: u32, data: seq<byte>, b: byte)
    ensures Dividend(c, data + [b]) == Xor(Shl(Dividend(c, data), 8), Shl(ByteTerm(b), 32))
  {
    hide Xor, Reversed, Shl;
    var m, n := Message(data), 8 * |data|;
    assert (data + [b])[..|data|] == data;
    ReversedBound(b, 8); Pow2Values();
    ShlPow2(m, 8);
    XorDisjoint(m, ByteTerm(b), 8);
    assert Message(data + [b]) == Xor(Shl(m, 8), ByteTerm(b));
    ShlXor(Shl(m, 8), ByteTerm(b), 32);
    ShlAdd(m, 8, 32);
    ShlXor(Shl(m, 32), Shl(Mirror(c), n), 8);
    ShlAdd(m, 32, 8); ShlAdd(Mirror(c), n, 8);
    var u, v, w := Shl(m, 40), Shl(ByteTerm(b), 32), Shl(Mirror(c), n + 8);
    XorAssoc(u, v, w); XorComm(v, w); XorAssoc(u, w, v);
  }

  /** After any bytes the register is congruent to the dividend. */
  lemma {:induction false} RegisterCongruent(c: u32, data: seq<byte>)
    ensures Congruent(Mirror(Crc32From(c, data)), Dividend(c, data))
  {
    hide Congruent, Fold32, Mirror, Xor, ByteTerm;
    if data == [] {
      assert Message(data) == 0;
      ShlZero(32); XorComm(0, Mirror(c)); XorZero(Mirror(c));
      CongruentSame(Mirror(c));
    } else {
      var front, b := data[..|data| - 1], data[|data| - 1];
      var r := Crc32From(c, front);
      RegisterCongruent(c, front);
      FoldIsStep(r, b);
      assert front + [b] == data;
      DividendStep(c, front, b);
      CongruentShl(Mirror(r), Dividend(c, front), 8);
      var t := Shl(ByteTerm(b), 32);
      CongruentSame(t);
      CongruentXor(Shl(Mirror(r), 8), Shl(Dividend(c, front), 8), t, t);
      CongruentTrans(Mirror(Fold32(r, b)), Xor(Shl(Mirror(r), 8), t), Dividend(c, data));
    }
  }

  // The checksum.

  /** r is what remains of p after division by the generator. */
  ghost predicate IsRemainder(r: u32, p: nat)
  {
    exists q: nat :: p == Xor(Product(q, GENERATOR), r)
  }

  lemma CongruentIsRemainder(r: u32, p: nat)
    ensures IsRemainder(r, p) <==> Congruent(r, p)
  {
    hide Xor, Product;
    XorComm(r, p);
    if IsRemainder(r, p) {
      var q: nat :| p == Xor(Product(q, GENERATOR), r);
      XorAssoc(Product(q, GENERATOR), r, r); XorZero(r); XorZero(Product(q, GENERATOR));
    }
    if Congruent(r, p) {
      var q: nat :| Xor(r, p) == Product(q, GENERATOR);
      XorAssoc(p, r, r); XorZero(r); XorZero(p);
    }
  }

  /**
   * CRC-32 is a remainder: complemented and with its bits in reverse, the checksum of any bytes is the one remainder that
   * the message, 32 ones added to its first 32 bits and 32 places appended, leaves on division by the generator.
   */
  lemma Crc32IsRemainder(data: seq<byte>, r: u32)
    ensures IsRemainder(r, Xor(Shl(Message(data), 32), Shl(0xFFFF_FFFF, 8 * |data|)))
            <==> r == Mirror(0xFFFF_FFFF - Crc32(data))
  {
    hide Congruent, IsRemainder, Xor, Shl, Message, Crc32From, Reversed;
    var p, m := Dividend(0xFFFF_FFFF, data), Mirror(0xFFFF_FFFF - Crc32(data));
    MirrorOfOnes();
    RegisterCongruent(0xFFFF_FFFF, data);
    ReversedBound(0xFFFF_FFFF - Crc32(data), 32); Pow2Values();
    CongruentIsRemainder(r, p); CongruentIsRemainder(m, p);
    if IsRemainder(r, p) {
      CongruentBack(m, p);
      CongruentTrans(r, p, m);
      RemainderUnique(r, m);
    }
  }

  lemma MirrorOfOnes()
    ensures Mirror(0xFFFF_FFFF) == 0xFFFF_FFFF
  {
    hide Reversed, Pow2;
    Pow2Values();
    OnesReversed(32);
  }

  lemma {:induction false} OnesReversed(n: nat)
    ensures Reversed(Pow2(n) - 1, n) == Pow2(n) - 1
  {
    if n > 0 {
      OnesReversed(n - 1);
      BitOut(Pow2(n - 1) - 1, 1, n - 1);
    }
  }

  // Damage.

  lemma ShiftLinear32(c: u32, d: u32)
    ensures Xor(c, d) < 0x1_0000_0000
    ensures Shift32(Xor(c, d)) == Xor(Shift32(c), Shift32(d))
  {
    hide Xor, Pow2;
    Pow2Values();
    XorBound(c, d, 32);
    XorHalf(c, d);
    var k: nat := 0xEDB88320;
    var x, y := c / 2, d / 2;
    XorSwap(x, k, y, k); XorZero(k); XorZero(Xor(x, y));
    XorAssoc(x, k, y); XorComm(k, y); XorAssoc(x, y, k);
  }

  /** The constant has its top bit set, so a step never loses information. */
  lemma ShiftInjective32(c: u32, d: u32)
    requires Shift32(c) == Shift32(d)
    ensures c == d
  {
    hide Xor, Pow2;
    Pow2Of31();
    var k: nat := 0xEDB88320;
    TopBitStays(c / 2, k, 31); TopBitStays(d / 2, k, 31);
    if c % 2 == 1 && d % 2 == 1 { XorCancel(c / 2, d / 2, k); }
  }

  lemma {:induction false} ShiftsLinear32(c: u32, d: u32, k: nat)
    ensures Xor(c, d) < 0x1_0000_0000
    ensures Shifts32(Xor(c, d), k) == Xor(Shifts32(c, k), Shifts32(d, k))
  {
    hide Shift32, Xor;
    if k == 0 {
      ShiftLinear32(c, d);
    } else {
      ShiftsLinear32(c, d, k - 1);
      ShiftLinear32(Shifts32(c, k - 1), Shifts32(d, k - 1));
    }
  }

  lemma {:induction false} ShiftsInjective32(c: u32, d: u32, k: nat)
    requires Shifts32(c, k) == Shifts32(d, k)
    ensures c == d
  {
    hide Shift32;
    if k > 0 {
      ShiftInjective32(Shifts32(c, k - 1), Shifts32(d, k - 1));
      ShiftsInjective32(c, d, k - 1);
    }
  }

  lemma {:induction false} ShiftsAdd32(c: u32, j: nat, k: nat)
    ensures Shifts32(Shifts32(c, j), k) == Shifts32(c, j + k)
  {
    hide Shift32;
    if k > 0 { ShiftsAdd32(c, j, k - 1); }
  }

  /** Bits above the low k only move down in k steps. */
  lemma {:induction false} HighBitsMoveDown(b: nat, k: nat)
    requires Shl(b, k) < 0x1_0000_0000
    ensures Shifts32(Shl(b, k), k) == b
  {
    if k > 0 {
      var x: nat := Shl(b, k - 1);
      HighBitsMoveDown(b, k - 1);
      assert Shift32(2 * x) == x;
      ShiftsAdd32(2 * x, 1, k - 1);
      assert Shifts32(2 * x, 1) == x by { assert Shifts32(2 * x, 0) == 2 * x; }
    }
  }

  lemma {:induction false} FromLeAppend(v: seq<byte>, b: byte)
    ensures FromLe(v + [b]) == FromLe(v) + Shl(b, 8 * |v|)
  {
    if v == [] {
      assert v + [b] == [b] && [b][1..] == [];
    } else {
      FromLeAppend(v[1..], b);
      assert (v + [b])[1..] == v[1..] + [b];
      OneByteMore(b, 8 * (|v| - 1));
    }
  }

  lemma OneByteMore(b: nat, k: nat)
    ensures Shl(b, k + 8) == 256 * Shl(b, k)
  {
    hide Shl, Pow2;
    ShlAdd(b, k, 8);
    ShlPow2(Shl(b, k), 8); Pow2Values();
  }

  lemma FromLeBound(w: seq<byte>)
    requires |w| <= 4
    ensures FromLe(w) < Pow256(|w|) <= 0x1_0000_0000
  {
    LeFromLe(w); Pow256Values();
  }

  lemma {:induction false} Pow256IsPow2(n: nat)
    ensures Pow256(n) == Pow2(8 * n)
  {
    if n > 0 {
      Pow256IsPow2(n - 1);
      assert Pow2(8 * n) == 256 * Pow2(8 * n - 8) by { Doubled(8 * n - 3); Doubled(8 * n - 6); Doubled(8 * n - 8); }
    }
  }

  /** Up to four bytes enter the register together, as one little-endian word. */
  lemma {:induction false} WordFolds(c: u32, w: seq<byte>)
    requires |w| <= 4
    ensures Xor(c, FromLe(w)) < 0x1_0000_0000
    ensures Crc32From(c, w) == Shifts32(Xor(c, FromLe(w)), 8 * |w|)
  {
    hide Shift32, Xor, Pow2, FromLe, Pow256, Shl, Shifts32;
    FromLeBound(w); Pow2Values();
    XorBound(c, FromLe(w), 32);
    if w == [] {
      assert FromLe(w) == 0 && Shifts32(c, 0) == c by { NoWord(c); }
      XorZero(c);
    } else {
      var v, b, k := w[..|w| - 1], w[|w| - 1], 8 * (|w| - 1);
      WordFolds(c, v);
      FromLeBound(v); Pow256IsPow2(|v|);
      assert v + [b] == w;
      FromLeAppend(v, b);
      var high, low := Shl(b, k), FromLe(v);
      HighBitsMoveDown(b, k);
      ShiftsLinear32(Xor(c, low), high, k);
      ShiftsAdd32(Xor(Xor(c, low), high), k, 8);
      XorAssoc(c, low, high); XorComm(low, high);
      XorDisjoint(b, low, k);
    }
  }

  lemma NoWord(c: u32)
    ensures FromLe([]) == 0 && Shifts32(c, 0) == c
  {}

  lemma WordInjective(c: u32, w: seq<byte>, w': seq<byte>)
    requires |w| == |w'| <= 4 && Crc32From(c, w) == Crc32From(c, w')
    ensures w == w'
  {
    hide Shifts32, Xor, Crc32From, FromLe;
    WordFolds(c, w); WordFolds(c, w');
    ShiftsInjective32(Xor(c, FromLe(w)), Xor(c, FromLe(w')), 8 * |w|);
    XorComm(c, FromLe(w)); XorComm(c, FromLe(w'));
    XorCancel(FromLe(w), FromLe(w'), c);
    LeFromLe(w); LeFromLe(w');
  }

  lemma {:induction false} Crc32Append(c: u32, p: seq<byte>, q: seq<byte>)
    ensures Crc32From(c, p + q) == Crc32From(Crc32From(c, p), q)
  {
    hide Fold32;
    if q == [] {
      assert p + q == p;
    } else {
      Crc32Append(c, p, q[..|q| - 1]);
      assert (p + q)[..|p + q| - 1] == p + q[..|q| - 1];
    }
  }

  /** Registers that differ stay different under any common tail. */
  lemma {:induction false} Crc32TailInjective(c: u32, d: u32, tail: seq<byte>)
    requires Crc32From(c, tail) == Crc32From(d, tail)
    ensures c == d
  {
    hide Shifts32, Xor, Pow2;
    if tail != [] {
      var front, b := tail[..|tail| - 1], tail[|tail| - 1];
      var x, y := Crc32From(c, front), Crc32From(d, front);
      Pow2Values(); XorBound(x, b, 32); XorBound(y, b, 32);
      ShiftsInjective32(Xor(x, b), Xor(y, b), 8);
      XorCancel(x, y, b);
      Crc32TailInjective(c, d, front);
    }
  }

  /** Bytes that end in the checksum of the bytes before. */
  predicate Checked(b: seq<byte>)
  {
    |b| >= 4 && b[|b| - 4..] == Le(Crc32(b[..|b| - 4]), 4)
  }

  const RESIDUE: u32 := Shifts32(0xFFFF_FFFF, 32)

  lemma ComplementIsXor(c: u32)
    ensures Xor(c, 0xFFFF_FFFF - c) == 0xFFFF_FFFF
  {
    Pow2Values();
    OnesSplit(c, 32);
  }

  lemma {:induction false} OnesSplit(c: nat, n: nat)
    requires c < Pow2(n)
    ensures Xor(c, Pow2(n) - 1 - c) == Pow2(n) - 1
  {
    if n == 0 {
      XorZero(0);
    } else {
      OnesSplit(c / 2, n - 1);
      XorHalf(c, Pow2(n) - 1 - c);
    }
  }

  /** Checked bytes are those that leave one fixed value in the register. */
  lemma CheckedIffResidue(b: seq<byte>)
    requires |b| >= 4
    ensures Checked(b) <==> Crc32From(0xFFFF_FFFF, b) == RESIDUE
  {
    hide Shifts32, Xor, Crc32From, Le, FromLe;
    var p, w := b[..|b| - 4], b[|b| - 4..];
    var c := Crc32From(0xFFFF_FFFF, p);
    var e := Le(0xFFFF_FFFF - c, 4);
    assert p + w == b;
    Crc32Append(0xFFFF_FFFF, p, w);
    Pow256Values(); FromLeLe(0xFFFF_FFFF - c, 4);
    WordFolds(c, e);
    ComplementIsXor(c);
    if Crc32From(0xFFFF_FFFF, b) == RESIDUE { WordInjective(c, w, e); }
  }

  /** No change of one to four adjacent bytes goes unnoticed, wherever it lies, the checksum itself included. */
  lemma Crc32DetectsBurst(p: seq<byte>, burst: seq<byte>, burst': seq<byte>, q: seq<byte>)
    requires |burst| == |burst'| <= 4 && burst != burst'
    requires Checked(p + burst + q)
    ensures !Checked(p + burst' + q)
  {
    hide Crc32From;
    var start: u32 := 0xFFFF_FFFF;
    if Checked(p + burst' + q) {
      CheckedIffResidue(p + burst + q); CheckedIffResidue(p + burst' + q);
      Crc32Append(start, p + burst, q); Crc32Append(start, p + burst', q);
      Crc32Append(start, p, burst); Crc32Append(start, p, burst');
      var c := Crc32From(start, p);
      Crc32TailInjective(Crc32From(c, burst), Crc32From(c, burst'), q);
      WordInjective(c, burst, burst');
    }
  }
}
