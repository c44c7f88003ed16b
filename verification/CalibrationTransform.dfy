/** The rational calibration of the firmware, and the host gate that quantises a measured line for it. */
module CalibrationTransform {
  import opened Bits
  import opened CalibrationRecord
  import LinkCodecs
  import opened Sensing

  const BAD_CALIBRATION: u16 := 0x0001
  const NUMERIC_SATURATION: u16 := 0x0002
  const RAW_OUT_OF_RANGE: u16 := 0x0004

  /** Integer division that drops the fraction, as both the firmware's operator and the host's helper do. */
  function TruncDiv(n: int, d: int): int
    requires d > 0
  {
    if n >= 0 then n / d else -((-n) / d)
  }

  lemma TruncDivMeaning(n: int, d: int)
    requires d > 0
    ensures
      var q := TruncDiv(n, d);
      && -d < n - d * q < d && (n >= 0 ==> n - d * q >= 0 && q >= 0) && (n <= 0 ==> n - d * q <= 0 && q <= 0)
      && Abs(q) <= Abs(n)
  {
    if n >= 0 {
      DivMeaning(n, d);
    } else {
      DivMeaning(-n, d);
      NegatedProduct(d, (-n) / d);
    }
  }

  lemma DivMeaning(m: nat, d: int)
    requires d > 0
    ensures 0 <= m - d * (m / d) < d && 0 <= m / d <= m
  {
    var q := m / d;
    assert m == d * q + m % d;
    ProductMonotone(q, 1, d);
  }

  lemma NegatedProduct(d: int, q: int)
    ensures d * (-q) == -(d * q)
  {}

  lemma TruncDivMonotone(m: int, n: int, d: int)
    requires d > 0 && m <= n
    ensures TruncDiv(m, d) <= TruncDiv(n, d)
  {
    hide TruncDiv;
    TruncDivMeaning(m, d);
    TruncDivMeaning(n, d);
    var p, q := TruncDiv(m, d), TruncDiv(n, d);
    assert d * (q + 1) == d * q + d;
    if p > q { ProductMonotone(d, q + 1, p); }
  }

  datatype LinearResult = LinearResult(value: i16, diagnostics: u16, valid: bool)

  predicate Raw24(raw: int)
  {
    RAW24_MIN <= raw <= RAW24_MAX
  }

  function Scaled(raw: int, c: Linear): int
    requires LinearUsable(c)
  {
    TruncDiv((raw - c.rawZero) * c.gainNumerator, c.gainDenominator) + c.outputOffset
  }

  function CalibrateToI16(raw: i32, c: Linear): LinearResult
  {
    if !Raw24(raw) then LinearResult(0, RAW_OUT_OF_RANGE, false)
    else if !LinearUsable(c) then LinearResult(0, BAD_CALIBRATION, false)
    else
      var scaled := Scaled(raw, c);
      if scaled < I16_MIN then LinearResult(-0x8000, NUMERIC_SATURATION, true)
      else if scaled > I16_MAX then LinearResult(0x7FFF, NUMERIC_SATURATION, true)
      else LinearResult(scaled, 0, true)
  }

  /** Exactly which inputs the firmware refuses or saturates, and how it says so. */
  lemma RefusalsIff(raw: i32, c: Linear)
    ensures
      var r := CalibrateToI16(raw, c);
      && (r.diagnostics == 4 <==> raw < -0x80_0000 || raw > 0x7F_FFFF)
      && (r.diagnostics == 1 <==> Raw24(raw) && (c.gainDenominator <= 0 || !Raw24(c.rawZero)))
      && (r.valid <==> Raw24(raw) && Raw24(c.rawZero) && c.gainDenominator > 0) && (!r.valid ==> r.value == 0)
      && (r.diagnostics == 2 ==> r.valid && (r.value == -0x8000 || r.value == 0x7FFF))
      && r.diagnostics in [0, 1, 2, 4]
  {
    hide TruncDiv;
  }

  predicate FitsI64(x: int)
  {
    I64_MIN <= x <= I64_MAX
  }

  /** No intermediate value leaves 64 bits, for any raw value and any usable coefficients. */
  lemma CalibrationFits(raw: i32, c: Linear)
    requires Raw24(raw) && LinearUsable(c)
    ensures
      var product := (raw - c.rawZero) * c.gainNumerator;
      FitsI64(product) && FitsI64(TruncDiv(product, c.gainDenominator)) && FitsI64(Scaled(raw, c))
  {
    hide TruncDiv;
    var centered, product := raw - c.rawZero, (raw - c.rawZero) * c.gainNumerator;
    ProductBound(centered, c.gainNumerator);
    TruncDivMeaning(product, c.gainDenominator);
  }

  lemma ProductBound(a: int, b: int)
    requires -0x100_0000 < a < 0x100_0000 && -0x8000_0000 <= b < 0x8000_0000
    ensures -0x80_0000_0000_0000 <= a * b <= 0x80_0000_0000_0000
  {
    ProductMonotone(Abs(a), Abs(b), 0x8000_0000);
    assert Abs(a * b) == Abs(a) * Abs(b);
  }

  /** Away from saturation the result is within one unit of the exact line, short of it towards the offset. */
  lemma WithinOneUnit(raw: i32, c: Linear)
    requires Raw24(raw) && LinearUsable(c) && CalibrateToI16(raw, c).diagnostics == 0
    ensures
      var n, d := (raw - c.rawZero) * c.gainNumerator, c.gainDenominator;
      var steps := CalibrateToI16(raw, c).value - c.outputOffset;
      -d < n - d * steps < d && (n >= 0 ==> steps >= 0 && d * steps <= n) && (n <= 0 ==> steps <= 0 && d * steps >= n)
  {
    hide TruncDiv;
    var n, d := (raw - c.rawZero) * c.gainNumerator, c.gainDenominator;
    TruncDivMeaning(n, d);
    assert CalibrateToI16(raw, c).value - c.outputOffset == TruncDiv(n, d);
  }

  /** With a gain that is not negative a larger raw value never gives a smaller result, saturated or not. */
  lemma CalibrationMonotone(low: i32, high: i32, c: Linear)
    requires low <= high && Raw24(low) && Raw24(high) && LinearUsable(c) && c.gainNumerator >= 0
    ensures CalibrateToI16(low, c).value <= CalibrateToI16(high, c).value
  {
    hide TruncDiv;
    ProductMonotone(c.gainNumerator, low - c.rawZero + 0x100_0000, high - c.rawZero + 0x100_0000);
    SplitProduct(c.gainNumerator, low - c.rawZero);
    SplitProduct(c.gainNumerator, high - c.rawZero);
    TruncDivMonotone((low - c.rawZero) * c.gainNumerator, (high - c.rawZero) * c.gainNumerator, c.gainDenominator);
  }

  lemma SplitProduct(g: nat, x: int)
    ensures g * (x + 0x100_0000) == x * g + 0x100_0000 * g
  {}

  // The host's quantisation gate for the current channel.

  datatype CurrentPolicy = CurrentPolicy(
    maxError: real, minimumOutput: int, maximumOutput: int, requireNonnegative: bool)

  datatype Row = Row(raw: int, candidate: int, error: real)

  datatype Quantised = Quantised(numerator: int, denominator: int, offset: int, rows: seq<Row>)

  /** The measured line and the fraction that approximates its slope. */
  datatype Line = Line(slope: real, intercept: real, numerator: int, denominator: int)

  function Offset(line: Line): int
  {
    LinkCodecs.Round(line.intercept)
  }

  function Candidate(line: Line, raw: int): int
    requires line.denominator > 0
  {
    TruncDiv(raw * line.numerator, line.denominator) + Offset(line)
  }

  function RowOf(line: Line, raw: int): Row
    requires line.denominator > 0
  {
    var candidate := Candidate(line, raw);
    Row(raw, candidate, candidate as real - (line.slope * raw as real + line.intercept))
  }

  predicate RowPasses(row: Row, p: CurrentPolicy)
  {
    && -p.maxError <= row.error <= p.maxError
    && p.minimumOutput <= row.candidate <= p.maximumOutput
    && (p.requireNonnegative ==> row.candidate >= 0)
  }

  predicate Representable(line: Line)
  {
    && line.slope > 0.0 && line.denominator > 0
    && Int32(line.numerator) && Int32(line.denominator) && Int32(Offset(line))
  }

  /** The gate as one condition on the line, the retained points and the policy. */
  predicate GatePasses(line: Line, points: seq<int>, p: CurrentPolicy)
  {
    && Representable(line) && points != []
    && (forall i :: 0 <= i < |points| ==> Raw24(points[i]) && RowPasses(RowOf(line, points[i]), p))
  }

  /** The gate's verdict on the measured line itself: which candidates it lets through. */
  lemma GatePassesIff(line: Line, points: seq<int>, p: CurrentPolicy)
    ensures GatePasses(line, points, p) <==>
      && line.slope > 0.0 && 0 < line.denominator <= 0x7FFF_FFFF
      && -0x8000_0000 <= line.numerator <= 0x7FFF_FFFF
      && -0x8000_0000 <= LinkCodecs.Round(line.intercept) <= 0x7FFF_FFFF
      && points != []
      && forall i :: 0 <= i < |points| ==>
           && -0x80_0000 <= points[i] <= 0x7F_FFFF
           && var candidate := TruncDiv(points[i] * line.numerator, line.denominator) + LinkCodecs.Round(line.intercept);
              && p.minimumOutput <= candidate <= p.maximumOutput && (p.requireNonnegative ==> candidate >= 0)
              && -p.maxError <= candidate as real - (line.slope * points[i] as real + line.intercept) <= p.maxError
  {
    hide TruncDiv, LinkCodecs.Round;
    if line.denominator > 0 {
      forall i | 0 <= i < |points|
        ensures RowPasses(RowOf(line, points[i]), p) <==>
          var candidate := TruncDiv(points[i] * line.numerator, line.denominator) + LinkCodecs.Round(line.intercept);
          && p.minimumOutput <= candidate <= p.maximumOutput && (p.requireNonnegative ==> candidate >= 0)
          && -p.maxError <= candidate as real - (line.slope * points[i] as real + line.intercept) <= p.maxError
      {}
    }
  }

  /** Builds the regression rows one by one and keeps the largest error and the range flags, as the tool does. */
  method QuantiseCurrent(line: Line, points: seq<int>, p: CurrentPolicy) returns (r: Option<Quantised>)
    ensures r.Some? <==> GatePasses(line, points, p)
    ensures r.Some? ==>
      && r.value.numerator == line.numerator && r.value.denominator == line.denominator
      && r.value.offset == Offset(line) && |r.value.rows| == |points|
      && forall i :: 0 <= i < |points| ==> r.value.rows[i] == RowOf(line, points[i])
  {
    hide TruncDiv, LinkCodecs.Round;
    if !Representable(line) { return None; }
    var rows: seq<Row>, worst, inRange, nonnegative := [], 0.0, true, true;
    for i := 0 to |points|
      invariant |rows| == i && forall k :: 0 <= k < i ==> Raw24(points[k]) && rows[k] == RowOf(line, points[k])
      invariant worst >= 0.0
      invariant worst <= p.maxError && inRange && (nonnegative || !p.requireNonnegative) ==>
                forall k :: 0 <= k < i ==> RowPasses(rows[k], p)
      invariant p.maxError >= 0.0 && (forall k :: 0 <= k < i ==> RowPasses(rows[k], p)) ==>
                worst <= p.maxError && inRange && (nonnegative || !p.requireNonnegative)
    {
      if !Raw24(points[i]) { return None; }
      var row := RowOf(line, points[i]);
      var size := if row.error < 0.0 then -row.error else row.error;
      worst := if size > worst then size else worst;
      inRange := inRange && p.minimumOutput <= row.candidate <= p.maximumOutput;
      nonnegative := nonnegative && row.candidate >= 0;
      rows := rows + [row];
    }
    if rows == [] { return None; }
    if !(worst <= p.maxError && inRange && (nonnegative || !p.requireNonnegative)) {
      if p.maxError < 0.0 { assert !RowPasses(rows[0], p); }
      assert exists k :: 0 <= k < |points| && !RowPasses(rows[k], p);
      return None;
    }
    r := Some(Quantised(line.numerator, line.denominator, Offset(line), rows));
  }

  // From the gate to the firmware.

  /** The coefficients the tool puts into the profile. */
  function ProfileLinear(line: Line): Linear
    requires Representable(line)
  {
    Linear(0, line.numerator, line.denominator, Offset(line))
  }

  /** On one raw value the firmware gives the host's integer candidate, flagged as saturated exactly when it does not fit. */
  lemma FirmwareMatchesIff(line: Line, raw: int)
    requires Representable(line) && Raw24(raw)
    ensures
      var r, candidate := CalibrateToI16(raw, ProfileLinear(line)), Candidate(line, raw);
      && r.valid && (r.diagnostics == 0 <==> I16_MIN <= candidate <= I16_MAX)
      && r.value == if candidate < I16_MIN then I16_MIN else if candidate > I16_MAX then I16_MAX else candidate
  {
    hide TruncDiv, LinkCodecs.Round;
  }

  /**
   * Meaning preserved from profile to device: when the gate passes with output bounds inside 16 bits, the firmware, run
   * on the coefficients it decodes from the blob the host packed, returns exactly the candidate of every retained point
   * without saturation, and so stays within the policy's error of the measured line.
   */
  lemma ProfileKeepsMeaning(
      line: Line, points: seq<int>, p: CurrentPolicy, temperature: (int, int, int, int), sequence: u32, i: nat)
    requires GatePasses(line, points, p) && i < |points|
    requires I16_MIN <= p.minimumOutput && p.maximumOutput <= I16_MAX && HostFields(temperature)
    ensures
      var blob := HostEncode(temperature, (0, line.numerator, line.denominator, Offset(line)), sequence);
      && blob.Some? && Decode(blob.value).Some?
      && var c := Decode(blob.value).value.current;
         CalibrateToI16(points[i], c) == LinearResult(Candidate(line, points[i]), 0, true)
         && -p.maxError <= Candidate(line, points[i]) as real - (line.slope * points[i] as real + line.intercept) <= p.maxError
  {
    hide TruncDiv, LinkCodecs.Round, HostEncode, Decode, CalibrateToI16, Candidate;
    HostBlobDecodes(temperature, (0, line.numerator, line.denominator, Offset(line)), sequence);
    assert RowPasses(RowOf(line, points[i]), p);
    FirmwareMatchesIff(line, points[i]);
  }
}
