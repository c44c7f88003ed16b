/** Integer arithmetic of the sensing firmware: the bitwise square root, the RMS window and the rational calibration. */
module Sensing {
  import opened Bits
  import opened CalibrationRecord

  const I64_MIN: int := -0x8000_0000_0000_0000
  const I64_MAX: int := 0x7FFF_FFFF_FFFF_FFFF
  const U64_END: int := 0x1_0000_0000_0000_0000
  const I16_MIN: int := -0x8000
  const I16_MAX: int := 0x7FFF

  // Square root.

  predicate IsRoot(r: nat, v: nat)
  {
    r * r <= v < (r + 1) * (r + 1)
  }

  lemma RootUnique(r: nat, s: nat, v: nat)
    requires IsRoot(r, v) && IsRoot(s, v)
    ensures r == s
  {
    if r < s { SquareMonotone(r + 1, s); }
    if s < r { SquareMonotone(s + 1, r); }
  }

  lemma SquareMonotone(a: nat, b: nat)
    requires a <= b
    ensures a * a <= b * b
  {
    assert b * b == a * a + (b - a) * (b + a);
  }

  /** The square of half of 2 to the k. */
  function QuarterSquare(k: nat): nat
  {
    if k == 0 then 0 else Pow2(k - 1) * Pow2(k - 1)
  }

  lemma QuarterSquareShifts(k: nat)
    ensures k > 0 ==> QuarterSquare(k) / 4 == QuarterSquare(k - 1) && QuarterSquare(k) > 0
    ensures k == 0 ==> Pow2(k) == 1
  {
    if k > 1 {
      var h := Pow2(k - 2);
      FourTimes(h);
    }
  }

  lemma FourTimes(h: nat)
    ensures (2 * h) * (2 * h) / 4 == h * h
  {
    assert (2 * h) * (2 * h) == 4 * (h * h);
  }

  lemma LargePowers()
    ensures Pow2(31) == 0x8000_0000 && Pow2(32) == 0x1_0000_0000
  {
    assert Pow2(8) == 0x100;
    assert Pow2(12) == 0x1000;
    assert Pow2(16) == 0x1_0000;
    assert Pow2(20) == 0x10_0000;
    assert Pow2(24) == 0x100_0000;
    assert Pow2(28) == 0x1000_0000;
    assert Pow2(31) == 0x8000_0000;
  }

  /**
   * The bit loop. No intermediate value wraps around: the sum that is compared stays below 2 to the 64. The ghosts are
   * the root found so far and the weight of the bits still to come.
   */
  method IntegerSqrt(v: nat) returns (root: u32)
    requires v < U64_END
    ensures IsRoot(root, v)
  {
    LargePowers();
    var value, result: nat, bit := v, 0, 0x4000_0000_0000_0000;
    ghost var k: nat := 32;
    while bit > value
      invariant k <= 32 && bit == QuarterSquare(k) && v < Pow2(k) * Pow2(k)
      decreases k
    {
      QuarterSquareShifts(k);
      bit := bit / 4;
      k := k - 1;
    }
    ghost var p: nat := 0;
    PowersBelow(k, 32);
    assert RootSoFar(v, value, result, p, Pow2(k)) by { assert p + Pow2(k) == Pow2(k); }
    hide QuarterSquare, Pow2, RootSoFar;
    while bit != 0
      invariant bit == QuarterSquare(k) && RootSoFar(v, value, result, p, Pow2(k))
      decreases k
    {
      QuarterSquareShifts(k);
      ghost var h := HalfPower(k);
      RootStep(v, value, result, p, h);
      assert result + bit < U64_END;
      if value >= result + bit {
        value := value - (result + bit);
        result := result / 2 + bit;
        p := p + h;
      } else {
        result := result / 2;
      }
      bit := bit / 4;
      k := k - 1;
    }
    QuarterSquareShifts(k);
    RootDone(v, value, result, p);
    root := result;
  }

  /** p is the root found so far; the bits still to come weigh less than t. */
  predicate RootSoFar(v: nat, value: int, result: int, p: nat, t: nat)
  {
    && 0 <= value == v - p * p && v < (p + t) * (p + t)
    && result == p * t && p + t <= 0x1_0000_0000
  }

  /** One round of the loop, for the half h of the current weight: no sum wraps, and both branches keep the bounds. */
  lemma RootStep(v: nat, value: int, result: int, p: nat, h: nat)
    requires RootSoFar(v, value, result, p, 2 * h) && h > 0
    ensures 0 <= result && result + h * h < U64_END
    ensures value >= result + h * h ==> RootSoFar(v, value - (result + h * h), result / 2 + h * h, p + h, h)
    ensures value < result + h * h ==> RootSoFar(v, value, result / 2, p, h)
  {
    var sum := (p + h) * (p + h);
    assert p * (2 * h) == 2 * (p * h) && 0 <= p * h;
    assert sum == p * p + 2 * (p * h) + h * h;
    assert (p + h) * h == p * h + h * h;
    assert p + h + h == p + 2 * h;
    SquareMonotone(p + h, 0xFFFF_FFFF);
  }

  lemma RootDone(v: nat, value: int, result: int, p: nat)
    requires RootSoFar(v, value, result, p, 1)
    ensures 0 <= result < 0x1_0000_0000 && IsRoot(result, v)
  {
    assert p * 1 == p;
  }

  /** 2 to the k - 1, the half of 2 to the k. */
  ghost function HalfPower(k: nat): (h: nat)
    ensures k > 0 ==> Pow2(k) == 2 * h && h > 0 && QuarterSquare(k) == h * h && h == Pow2(k - 1)
    ensures k == 0 ==> Pow2(k) == 1
  {
    if k == 0 then 0 else Pow2(k - 1)
  }

  lemma {:induction false} PowersBelow(k: nat, n: nat)
    requires k <= n
    ensures Pow2(k) <= Pow2(n)
    decreases n
  {
    if k < n { PowersBelow(k, n - 1); }
  }

  // The RMS window.

  function SumSquares(w: seq<i16>): nat
  {
    if w == [] then 0 else SumSquares(w[..|w| - 1]) + Square(w[|w| - 1])
  }

  function Square(x: int): nat
  {
    x * x
  }

  function Abs(x: int): nat
  {
    if x < 0 then -x else x
  }

  lemma {:induction false} SumSquaresBounds(w: seq<i16>, lo: nat, hi: nat)
    requires forall i :: 0 <= i < |w| ==> lo <= Abs(w[i]) <= hi
    ensures |w| * (lo * lo) <= SumSquares(w) <= |w| * (hi * hi)
  {
    if w != [] {
      hide Abs, Square;
      var front, x := w[..|w| - 1], w[|w| - 1];
      SumSquaresBounds(front, lo, hi);
      SquareBetween(x, lo, hi);
      OneMore(|front|, lo * lo);
      OneMore(|front|, hi * hi);
    }
  }

  lemma SquareBetween(x: int, lo: nat, hi: nat)
    requires lo <= Abs(x) <= hi
    ensures lo * lo <= Square(x) <= hi * hi
  {
    SquareMonotone(lo, Abs(x));
    SquareMonotone(Abs(x), hi);
  }

  lemma OneMore(n: nat, s: nat)
    ensures (n + 1) * s == n * s + s
  {}

  /** The value a full window yields. */
  predicate IsRms(rms: nat, w: seq<i16>)
  {
    w != [] && IsRoot(rms, SumSquares(w) / |w|)
  }

  /** It lies between the smallest and the largest absolute sample. */
  lemma RmsBetween(w: seq<i16>, rms: nat, lo: nat, hi: nat)
    requires IsRms(rms, w) && forall i :: 0 <= i < |w| ==> lo <= Abs(w[i]) <= hi
    ensures lo <= rms <= hi
  {
    hide SumSquares, Abs;
    var sum := SumSquares(w);
    SumSquaresBounds(w, lo, hi);
    MeanBounds(sum, |w|, lo * lo, hi * hi);
    RootBetween(rms, sum / |w|, lo, hi);
  }

  lemma RootBetween(r: nat, v: nat, lo: nat, hi: nat)
    requires IsRoot(r, v) && lo * lo <= v <= hi * hi
    ensures lo <= r <= hi
  {
    if r < lo { SquareMonotone(r + 1, lo); }
    if r > hi { SquareMonotone(hi + 1, r); }
  }

  lemma MeanBounds(sum: nat, n: nat, lo: nat, hi: nat)
    requires n > 0 && n * lo <= sum <= n * hi
    ensures lo <= sum / n <= hi
  {
    var q := sum / n;
    assert n * q <= sum < n * q + n;
    assert n * (q + 1) == n * q + n && n * (hi + 1) == n * hi + n;
    if q < lo { ProductMonotone(n, q + 1, lo); }
    if q > hi { ProductMonotone(n, hi + 1, q); }
  }

  lemma ProductMonotone(n: nat, a: int, b: int)
    requires a <= b
    ensures n * a <= n * b
  {}

  /** The accumulator of a window of any 16-bit length fits 64 bits, and its RMS fits 16 bits. */
  lemma WindowFits(w: seq<i16>)
    requires |w| <= 0xFFFF
    ensures SumSquares(w) < U64_END
    ensures forall rms :: IsRms(rms, w) ==> rms <= 0x8000
  {
    assert forall i :: 0 <= i < |w| ==> 0 <= Abs(w[i]) <= 0x8000;
    SumSquaresBounds(w, 0, 0x8000);
    forall rms | IsRms(rms, w) ensures rms <= 0x8000 { RmsBetween(w, rms, 0, 0x8000); }
  }

  function Saturate16(x: nat): u16
  {
    if x > 0xFFFF then 0xFFFF else x
  }

  class VibrationRmsWindow {
    const windowSamples: u16
    var samplesCollected: u16
    var sumSquares: nat
    ghost var history: seq<i16>
    ghost var outputs: seq<nat>

    /** The samples of the current, unfinished window. */
    ghost function Window(): seq<i16>
      reads this
      requires Valid()
    {
      Unfinished(history, outputs, windowSamples)
    }

    /** Output i is the RMS of the i-th full window since the last reset; the rest is being accumulated. */
    ghost predicate Valid()
      reads this
    {
      Accumulates(history, outputs, windowSamples, samplesCollected, sumSquares)
    }

    constructor (windowSamples: u16)
      ensures Valid() && history == [] && outputs == []
      ensures this.windowSamples == if windowSamples == 0 then 1 else windowSamples
    {
      this.windowSamples := if windowSamples == 0 then 1 else windowSamples;
      samplesCollected, sumSquares := 0, 0;
      history, outputs := [], [];
    }

    method Reset()
      requires windowSamples >= 1
      modifies this
      ensures Valid() && history == [] && outputs == []
    {
      samplesCollected, sumSquares := 0, 0;
      history, outputs := [], [];
    }

    method Ingest(sample: i16) returns (done: bool, rms: u16)
      requires Valid()
      modifies this
      ensures Valid() && history == old(history) + [sample]
      ensures done == (old(samplesCollected) + 1 == windowSamples)
      ensures done ==> outputs == old(outputs) + [rms] && IsRms(rms, old(Window()) + [sample])
      ensures !done ==> outputs == old(outputs)
    {
      hide Accumulates, Unfinished, IsRoot, IsRms, Square, Start;
      RoomForOne(history, outputs, windowSamples, samplesCollected, sumSquares, sample);
      ghost var h, collected, sum := history, samplesCollected, sumSquares;
      history := history + [sample];
      sumSquares := sumSquares + Square(sample);
      samplesCollected := samplesCollected + 1;
      if samplesCollected < windowSamples {
        OneMoreSample(h, outputs, windowSamples, collected, sum, sample);
        return false, 0;
      }
      QuotientFits(sumSquares, windowSamples);
      var meanSquare := sumSquares / windowSamples;
      var root := IntegerSqrt(meanSquare);
      WindowFull(h, outputs, windowSamples, collected, sum, sample, meanSquare, root);
      rms := Saturate16(root);
      done := true;
      outputs := outputs + [rms];
      samplesCollected, sumSquares := 0, 0;
    }
  }

  /** Where window i of n samples starts. */
  function Start(n: nat, i: nat): nat
  {
    n * i
  }

  lemma StartNext(n: nat, i: nat)
    ensures Start(n, i + 1) == Start(n, i) + n && Start(n, 0) == 0
  {}

  /** The samples behind the last full window of n. */
  function Unfinished(history: seq<i16>, outputs: seq<nat>, n: nat): seq<i16>
  {
    if Start(n, |outputs|) <= |history| then history[Start(n, |outputs|)..] else []
  }

  predicate Accumulates(history: seq<i16>, outputs: seq<nat>, n: nat, collected: nat, sum: nat)
  {
    && n >= 1 && Start(n, |outputs|) <= |history| && AllRms(history, outputs, n)
    && collected == |Unfinished(history, outputs, n)| < n && sum == SumSquares(Unfinished(history, outputs, n))
  }

  /** The sum of a window with one sample more still fits the accumulator. */
  lemma RoomForOne(history: seq<i16>, outputs: seq<nat>, n: nat, collected: nat, sum: nat, sample: i16)
    requires Accumulates(history, outputs, n, collected, sum) && n <= 0xFFFF
    ensures collected < n && sum + Square(sample) < U64_END
  {
    hide SumSquares, AllRms, Square, Start;
    var w := Unfinished(history, outputs, n);
    SumGrows(w, sample);
    WindowFits(w + [sample]);
  }

  lemma OneMoreSample(history: seq<i16>, outputs: seq<nat>, n: nat, collected: nat, sum: nat, sample: i16)
    requires Accumulates(history, outputs, n, collected, sum) && collected + 1 < n
    ensures Accumulates(history + [sample], outputs, n, collected + 1, sum + Square(sample))
  {
    hide SumSquares, AllRms, Square, Start;
    WindowGrows(history, Start(n, |outputs|), sample);
    SumGrows(Unfinished(history, outputs, n), sample);
    AllRmsGrows(history, history + [sample], outputs, n);
  }

  lemma FullWindowRms(w: seq<i16>, n: nat, sum: nat, sample: i16, mean: nat, root: nat)
    requires |w| + 1 == n <= 0xFFFF && sum == SumSquares(w) && mean == (sum + Square(sample)) / n && IsRoot(root, mean)
    ensures IsRms(root, w + [sample]) && root <= 0xFFFF
  {
    hide SumSquares, IsRoot, IsRms, Square;
    SumGrows(w, sample);
    RootIsRms(root, w + [sample]);
    WindowFits(w + [sample]);
  }

  lemma FullWindowCloses(history: seq<i16>, outputs: seq<nat>, n: nat, sample: i16, root: nat)
    requires n >= 1 && Start(n, |outputs|) <= |history| && AllRms(history, outputs, n)
    requires |Unfinished(history, outputs, n)| + 1 == n && IsRms(root, Unfinished(history, outputs, n) + [sample])
    ensures Accumulates(history + [sample], outputs + [root], n, 0, 0)
  {
    hide SumSquares, AllRms, IsRms, Start;
    WindowGrows(history, Start(n, |outputs|), sample);
    AllRmsGrows(history, history + [sample], outputs, n);
    AllRmsNext(history + [sample], outputs, root, n, Unfinished(history, outputs, n) + [sample]);
    SumOfNothing();
  }

  /** The sample that fills the window gives its RMS and leaves an empty window. */
  lemma WindowFull(
      history: seq<i16>, outputs: seq<nat>, n: nat, collected: nat, sum: nat, sample: i16, mean: nat, root: nat)
    requires 0 < n <= 0xFFFF && collected + 1 == n && mean == (sum + Square(sample)) / n && IsRoot(root, mean)
    requires Accumulates(history, outputs, n, collected, sum)
    ensures IsRms(root, Unfinished(history, outputs, n) + [sample]) && root <= 0xFFFF
    ensures Accumulates(history + [sample], outputs + [root], n, 0, 0)
  {
    hide SumSquares, AllRms, IsRoot, IsRms, Square, Unfinished, Start;
    FullWindowRms(Unfinished(history, outputs, n), n, sum, sample, mean, root);
    FullWindowCloses(history, outputs, n, sample, root);
  }

  lemma WindowGrows(history: seq<i16>, at: nat, sample: i16)
    requires at <= |history|
    ensures (history + [sample])[at..] == history[at..] + [sample]
  {}

  lemma SumGrows(w: seq<i16>, sample: i16)
    ensures SumSquares(w + [sample]) == SumSquares(w) + Square(sample)
  {
    assert (w + [sample])[..|w|] == w;
  }

  lemma SumOfNothing()
    ensures SumSquares([]) == 0
  {}

  lemma QuotientFits(sum: nat, n: nat)
    requires n > 0 && sum < U64_END
    ensures sum / n < U64_END
  {}

  lemma RootIsRms(root: nat, w: seq<i16>)
    requires w != [] && IsRoot(root, SumSquares(w) / |w|)
    ensures IsRms(root, w)
  {}

  predicate AllRms(history: seq<i16>, outputs: seq<nat>, n: nat)
  {
    forall i :: 0 <= i < |outputs| ==> RmsAt(history, outputs[i], n, i)
  }

  predicate RmsAt(history: seq<i16>, rms: nat, n: nat, i: nat)
  {
    Start(n, i) <= Start(n, i + 1) <= |history| && IsRms(rms, history[Start(n, i)..Start(n, i + 1)])
  }

  lemma AllRmsGrows(history: seq<i16>, more: seq<i16>, outputs: seq<nat>, n: nat)
    requires AllRms(history, outputs, n) && history <= more
    ensures AllRms(more, outputs, n)
  {
    hide IsRms, Start;
    forall i | 0 <= i < |outputs| ensures RmsAt(more, outputs[i], n, i) {
      assert RmsAt(history, outputs[i], n, i);
      assert more[Start(n, i)..Start(n, i + 1)] == history[Start(n, i)..Start(n, i + 1)];
    }
  }

  /** A full window puts its RMS behind the earlier outputs and leaves an empty window. */
  lemma AllRmsNext(history: seq<i16>, outputs: seq<nat>, rms: nat, n: nat, w: seq<i16>)
    requires AllRms(history, outputs, n) && Start(n, |outputs|) <= |history| && w == history[Start(n, |outputs|)..]
    requires |w| == n && IsRms(rms, w)
    ensures AllRms(history, outputs + [rms], n)
    ensures Start(n, |outputs + [rms]|) == |history| && history[Start(n, |outputs + [rms]|)..] == []
  {
    hide IsRms, Start;
    var k := |outputs|;
    StartNext(n, k);
    assert history[Start(n, k)..Start(n, k + 1)] == w;
    forall i | 0 <= i < k + 1 ensures RmsAt(history, (outputs + [rms])[i], n, i) {
      if i < k { assert RmsAt(history, outputs[i], n, i); }
    }
  }
}
