/** Unsigned machine words as integers: exclusive or, little-endian byte strings and two's complement. */
module Bits {

  type byte = x: int | 0 <= x < 0x100
  type u16 = x: int | 0 <= x < 0x1_0000
  type u32 = x: int | 0 <= x < 0x1_0000_0000
  type i32 = x: int | -0x8000_0000 <= x < 0x8000_0000
  type i16 = x: int | -0x8000 <= x < 0x8000

  function Pow2(n: nat): (p: nat)
    ensures p >= 1
  {
    if n == 0 then 1 else 2 * Pow2(n - 1)
  }

  /** Bitwise exclusive or of two unsigned words of any width. */
  function Xor(a: nat, b: nat): nat
    decreases a + b
  {
    if a == 0 && b == 0 then 0
    else (if a % 2 == b % 2 then 0 else 1) + 2 * Xor(a / 2, b / 2)
  }

  lemma {:induction false} XorComm(a: nat, b: nat)
    ensures Xor(a, b) == Xor(b, a)
    decreases a + b
  {
    if a != 0 || b != 0 { XorComm(a / 2, b / 2); }
  }

  lemma {:induction false} XorZero(a: nat)
    ensures Xor(a, 0) == a && Xor(a, a) == 0
  {
    if a != 0 { XorZero(a / 2); }
  }

  lemma {:induction false} XorAssoc(a: nat, b: nat, c: nat)
    ensures Xor(Xor(a, b), c) == Xor(a, Xor(b, c))
    decreases a + b + c
  {
    if a != 0 || b != 0 || c != 0 {
      XorAssoc(a / 2, b / 2, c / 2);
      var ab, bc := Xor(a, b), Xor(b, c);
      XorHalf(a, b);
      XorHalf(b, c);
      XorHalf(ab, c);
      XorHalf(a, bc);
    }
  }

  lemma XorHalf(a: nat, b: nat)
    ensures Xor(a, b) / 2 == Xor(a / 2, b / 2)
    ensures Xor(a, b) % 2 == if a % 2 == b % 2 then 0 else 1
  {}

  /** h shifted left by n bits. */
  function Shl(h: nat, n: nat): nat
  {
    if n == 0 then h else 2 * Shl(h, n - 1)
  }

  /** Exclusive or works on the high and the low part of a word separately. */
  lemma {:induction false} XorSplit(h1: nat, l1: nat, h2: nat, l2: nat, n: nat)
    requires l1 < Pow2(n) && l2 < Pow2(n)
    ensures Xor(l1, l2) < Pow2(n)
    ensures Xor(Shl(h1, n) + l1, Shl(h2, n) + l2) == Shl(Xor(h1, h2), n) + Xor(l1, l2)
    decreases n
  {
    hide Xor;
    if n == 0 {
      XorZero(0);
    } else {
      var x, y := Shl(h1, n - 1), Shl(h2, n - 1);
      XorSplit(h1, l1 / 2, h2, l2 / 2, n - 1);
      XorJoin(x, l1, y, l2);
      XorHalf(l1, l2);
    }
  }

  lemma XorJoin(x: nat, l1: nat, y: nat, l2: nat)
    ensures Xor(2 * x + l1, 2 * y + l2) == (if l1 % 2 == l2 % 2 then 0 else 1) + 2 * Xor(x + l1 / 2, y + l2 / 2)
  {
    var a, b := 2 * x + l1, 2 * y + l2;
    assert a / 2 == x + l1 / 2 && b / 2 == y + l2 / 2;
    assert a % 2 == l1 % 2 && b % 2 == l2 % 2;
  }

  /** Exclusive or with the same word on both sides can be cancelled. */
  lemma XorCancel(a: nat, b: nat, c: nat)
    requires Xor(a, c) == Xor(b, c)
    ensures a == b
  {
    XorAssoc(a, c, c);
    XorAssoc(b, c, c);
    XorZero(c);
    XorZero(a);
    XorZero(b);
  }

  lemma XorBound(a: nat, b: nat, n: nat)
    requires a < Pow2(n) && b < Pow2(n)
    ensures Xor(a, b) < Pow2(n)
  {
    XorSplit(0, a, 0, b, n);
  }

  // Little-endian byte strings.

  /** The n low bytes of v, least significant byte first. */
  function Le(v: nat, n: nat): (b: seq<byte>)
    ensures |b| == n
  {
    if n == 0 then [] else [v % 256] + Le(v / 256, n - 1)
  }

  function FromLe(b: seq<byte>): nat
  {
    if b == [] then 0 else b[0] + 256 * FromLe(b[1..])
  }

  function Pow256(n: nat): nat
  {
    if n == 0 then 1 else 256 * Pow256(n - 1)
  }

  lemma Pow256Values()
    ensures Pow256(2) == 0x1_0000 && Pow256(4) == 0x1_0000_0000
  {
    assert Pow256(1) == 256;
    assert Pow256(3) == 256 * Pow256(2);
  }

  lemma {:induction false} FromLeLe(v: nat, n: nat)
    requires v < Pow256(n)
    ensures FromLe(Le(v, n)) == v
  {
    if n > 0 { FromLeLe(v / 256, n - 1); }
  }

  lemma {:induction false} LeFromLe(b: seq<byte>)
    ensures FromLe(b) < Pow256(|b|)
    ensures Le(FromLe(b), |b|) == b
  {
    if b != [] {
      var rest := FromLe(b[1..]);
      LeFromLe(b[1..]);
      LowDigit(b[0], rest);
      assert [b[0]] + b[1..] == b;
    }
  }

  lemma LowDigit(low: byte, rest: nat)
    ensures (low + 256 * rest) % 256 == low && (low + 256 * rest) / 256 == rest
  {}

  function Read16(b: seq<byte>, at: nat): (v: u16)
    requires at + 2 <= |b|
  {
    LeFromLe(b[at..at + 2]); Pow256Values();
    FromLe(b[at..at + 2])
  }

  function Read32(b: seq<byte>, at: nat): (v: u32)
    requires at + 4 <= |b|
  {
    LeFromLe(b[at..at + 4]); Pow256Values();
    FromLe(b[at..at + 4])
  }

  /** Byte by byte, a two-byte or four-byte field stands at this position. */
  lemma WordAt(p: seq<byte>, at: nat, w: seq<byte>)
    requires |w| == 2 && at + 2 <= |p| && p[at] == w[0] && p[at + 1] == w[1]
    ensures p[at..at + 2] == w
  {}

  lemma QuadAt(p: seq<byte>, at: nat, w: seq<byte>)
    requires |w| == 4 && at + 4 <= |p|
    requires p[at] == w[0] && p[at + 1] == w[1] && p[at + 2] == w[2] && p[at + 3] == w[3]
    ensures p[at..at + 4] == w
  {}

  lemma Read16Of(v: u16, b: seq<byte>, at: nat)
    requires at + 2 <= |b| && b[at..at + 2] == Le(v, 2)
    ensures Read16(b, at) == v
  {
    Pow256Values();
    FromLeLe(v, 2);
  }

  lemma Read32Of(v: u32, b: seq<byte>, at: nat)
    requires at + 4 <= |b| && b[at..at + 4] == Le(v, 4)
    ensures Read32(b, at) == v
  {
    Pow256Values();
    FromLeLe(v, 4);
  }

  /** Reading a word and writing it again gives back the bytes. */
  lemma ReadBack(b: seq<byte>, at: nat)
    ensures at + 2 <= |b| ==> Le(Read16(b, at), 2) == b[at..at + 2]
    ensures at + 4 <= |b| ==> Le(Read32(b, at), 4) == b[at..at + 4]
  {
    if at + 2 <= |b| { LeFromLe(b[at..at + 2]); }
    if at + 4 <= |b| { LeFromLe(b[at..at + 4]); }
  }

  // Two's complement casts.

  function I32ToU32(v: i32): u32
  {
    if v < 0 then v + 0x1_0000_0000 else v
  }

  function U32ToI32(v: u32): i32
  {
    if v < 0x8000_0000 then v else v - 0x1_0000_0000
  }

  function I16ToU16(v: i16): u16
  {
    if v < 0 then v + 0x1_0000 else v
  }

  function U16ToI16(v: u16): i16
  {
    if v < 0x8000 then v else v - 0x1_0000
  }
}
