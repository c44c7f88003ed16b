/** The ML, sensor and status messages: the Python codec, the firmware codec and their agreement. */
module LinkCodecs {
  import opened Bits
  import opened Crc
  import opened CalibrationRecord
  import opened LinkFrame

  const ML_PAYLOAD: nat := 14
  const SENSOR_PAYLOAD: nat := 8
  const STATUS_PAYLOAD: nat := 4
  const ABSTAIN: byte := 3
  const MAX_Q15: u16 := 32767
  const MAX_STATE: byte := 5

  // The firmware's parsers.

  datatype ParseStatus =
    | Ok | Truncated | BadSof | BadVersion | BadLength | BadCrc | BadType | BadHealthClass | BadRange

  datatype Parsed<T> = Accepted(value: T) | Refused(status: ParseStatus)

  datatype Stamped<T> = Stamped(sequence: u16, timestamp: u32, message: T)

  /** An ML observation in wire units. */
  datatype Observation = Observation(
    modelId: u16, modelVersion: u16, schema: u16, flags: u16, anomaly: u16, health: byte, confidence: byte, age: u16)

  datatype Sensor = Sensor(temperature: i16, vibration: u16, current: u16, flags: u16)

  datatype Status = Status(state: byte, control: byte, safety: u16)

  function ValidateCommon(data: seq<byte>, expectedType: byte, payloadSize: u16): (r: ParseStatus)
    ensures r == Ok ==> |data| == HEADER_SIZE + payloadSize + CRC_SIZE
  {
    if |data| < HEADER_SIZE + 2 then Truncated
    else if data[0] != SOF0 || data[1] != SOF1 then BadSof
    else if data[2] != PROTOCOL_VERSION then BadVersion
    else if data[3] != expectedType then BadType
    else if Read16(data, 6) != payloadSize || |data| != HEADER_SIZE + payloadSize + 2 then BadLength
    else if Read16(data, |data| - 2) != Crc16(data[2..|data| - 2]) then BadCrc
    else Ok
  }

  function Stamp<T>(data: seq<byte>, message: T): Stamped<T>
    requires |data| >= HEADER_SIZE
  {
    Stamped(Read16(data, 4), Read32(data, 8), message)
  }

  function ReadObservation(p: seq<byte>): Observation
    requires |p| == ML_PAYLOAD
  {
    Observation(Read16(p, 0), Read16(p, 2), Read16(p, 4), Read16(p, 6), Read16(p, 8), p[10], p[11], Read16(p, 12))
  }

  function ParseMl(data: seq<byte>): Parsed<Stamped<Observation>>
  {
    var common := ValidateCommon(data, ML_OBSERVATION, ML_PAYLOAD);
    if common != Ok then Refused(common)
    else
      var o := ReadObservation(data[HEADER_SIZE..HEADER_SIZE + ML_PAYLOAD]);
      if o.health > ABSTAIN then Refused(BadHealthClass)
      else if o.anomaly > MAX_Q15 then Refused(BadRange)
      else Accepted(Stamp(data, o))
  }

  function ReadSensor(p: seq<byte>): Sensor
    requires |p| == SENSOR_PAYLOAD
  {
    Sensor(U16ToI16(Read16(p, 0)), Read16(p, 2), Read16(p, 4), Read16(p, 6))
  }

  function ParseSensor(data: seq<byte>): Parsed<Stamped<Sensor>>
  {
    var common := ValidateCommon(data, SENSOR_SNAPSHOT, SENSOR_PAYLOAD);
    if common != Ok then Refused(common)
    else Accepted(Stamp(data, ReadSensor(data[HEADER_SIZE..HEADER_SIZE + SENSOR_PAYLOAD])))
  }

  function ReadStatus(p: seq<byte>): Status
    requires |p| == STATUS_PAYLOAD
  {
    Status(p[0], p[1], Read16(p, 2))
  }

  function ParseStatusFrame(data: seq<byte>): Parsed<Stamped<Status>>
  {
    var common := ValidateCommon(data, STATUS, STATUS_PAYLOAD);
    if common != Ok then Refused(common)
    else
      var s := ReadStatus(data[HEADER_SIZE..HEADER_SIZE + STATUS_PAYLOAD]);
      if s.state > MAX_STATE then Refused(BadRange) else Accepted(Stamp(data, s))
  }

  predicate SameHeader(data: seq<byte>, f: Frame)
    requires |data| >= HEADER_SIZE + CRC_SIZE
  {
    && f.sequence == Read16(data, 4) && f.timestamp == Read32(data, 8)
    && f.payload == data[HEADER_SIZE..|data| - CRC_SIZE]
  }

  /**
   * The firmware's common checks pass exactly on the frames that the host's decoder accepts with this type and payload
   * size, and both read the same header.
   */
  lemma CommonIsDecode(data: seq<byte>, expectedType: byte, payloadSize: u16)
    ensures
      var f := DecodeFrame(data, PROTOCOL_VERSION);
      && (ValidateCommon(data, expectedType, payloadSize) == Ok <==>
          f.Some? && f.value.messageType == expectedType && |f.value.payload| == payloadSize)
      && (f.Some? ==> |data| >= HEADER_SIZE + CRC_SIZE && SameHeader(data, f.value))
  {
    hide Crc16, FromLe;
  }

  // Payload layouts.

  function ObservationBytes(o: Observation): (p: seq<byte>)
    ensures |p| == ML_PAYLOAD
  {
    Le(o.modelId, 2) + Le(o.modelVersion, 2) + Le(o.schema, 2) + Le(o.flags, 2) + Le(o.anomaly, 2) +
    [o.health, o.confidence] + Le(o.age, 2)
  }

  function SensorBytes(s: Sensor): (p: seq<byte>)
    ensures |p| == SENSOR_PAYLOAD
  {
    Le(I16ToU16(s.temperature), 2) + Le(s.vibration, 2) + Le(s.current, 2) + Le(s.flags, 2)
  }

  function StatusBytes(s: Status): (p: seq<byte>)
    ensures |p| == STATUS_PAYLOAD
  {
    [s.state, s.control] + Le(s.safety, 2)
  }

  lemma ObservationLayout(o: Observation)
    ensures ReadObservation(ObservationBytes(o)) == o
  {
    hide Le, FromLe;
    var p := ObservationBytes(o);
    WordAt(p, 0, Le(o.modelId, 2));
    WordAt(p, 2, Le(o.modelVersion, 2));
    WordAt(p, 4, Le(o.schema, 2));
    WordAt(p, 6, Le(o.flags, 2));
    WordAt(p, 8, Le(o.anomaly, 2));
    WordAt(p, 12, Le(o.age, 2));
    Read16Of(o.modelId, p, 0); Read16Of(o.modelVersion, p, 2); Read16Of(o.schema, p, 4);
    Read16Of(o.flags, p, 6); Read16Of(o.anomaly, p, 8); Read16Of(o.age, p, 12);
  }

  lemma ObservationCanonical(p: seq<byte>)
    requires |p| == ML_PAYLOAD
    ensures ObservationBytes(ReadObservation(p)) == p
  {
    hide Le, FromLe;
    ReadBack(p, 0); ReadBack(p, 2); ReadBack(p, 4); ReadBack(p, 6); ReadBack(p, 8); ReadBack(p, 12);
    assert p == p[0..2] + p[2..4] + p[4..6] + p[6..8] + p[8..10] + [p[10], p[11]] + p[12..14];
  }

  lemma SensorLayout(s: Sensor)
    ensures ReadSensor(SensorBytes(s)) == s
  {
    hide Le, FromLe;
    var p := SensorBytes(s);
    WordAt(p, 0, Le(I16ToU16(s.temperature), 2));
    WordAt(p, 2, Le(s.vibration, 2));
    WordAt(p, 4, Le(s.current, 2));
    WordAt(p, 6, Le(s.flags, 2));
    Read16Of(I16ToU16(s.temperature), p, 0); Read16Of(s.vibration, p, 2);
    Read16Of(s.current, p, 4); Read16Of(s.flags, p, 6);
  }

  lemma StatusLayout(s: Status)
    ensures ReadStatus(StatusBytes(s)) == s
  {
    hide Le, FromLe;
    var p := StatusBytes(s);
    WordAt(p, 2, Le(s.safety, 2));
    Read16Of(s.safety, p, 2);
  }

  // The firmware's ML encoder.

  predicate Sendable(o: Observation)
  {
    o.anomaly <= MAX_Q15 && o.health <= ABSTAIN
  }

  function MlBytes(o: Observation, sequence: u16, timestamp: u32): (b: seq<byte>)
    ensures |b| == HEADER_SIZE + ML_PAYLOAD + CRC_SIZE
  {
    Bytes(Frame(PROTOCOL_VERSION, ML_OBSERVATION, sequence, timestamp, ObservationBytes(o)))
  }

  /** Fills the caller's 28-byte frame buffer in place; an observation that cannot be sent leaves it alone. */
  method EncodeMl(o: Observation, sequence: u16, timestamp: u32, out: array<byte>) returns (ok: bool)
    requires out.Length == HEADER_SIZE + ML_PAYLOAD + CRC_SIZE
    modifies out
    ensures ok == Sendable(o)
    ensures out[..] == if ok then MlBytes(o, sequence, timestamp) else old(out[..])
  {
    hide Le, Crc16;
    if o.anomaly > MAX_Q15 || o.health > ABSTAIN { return false; }
    for i := 0 to out.Length
      invariant forall k :: 0 <= k < i ==> out[k] == 0
    {
      out[i] := 0;
    }
    out[0] := SOF0; out[1] := SOF1;
    out[2] := PROTOCOL_VERSION; out[3] := ML_OBSERVATION;
    ghost var a, b := [SOF0, SOF1, PROTOCOL_VERSION, ML_OBSERVATION], Le(sequence, 2);
    PutNext(out, a, 4, sequence, 2);
    PutNext(out, a + b, 6, ML_PAYLOAD, 2);
    PutNext(out, a + b + Le(ML_PAYLOAD, 2), 8, timestamp, 4);
    ghost var head := a + b + Le(ML_PAYLOAD, 2) + Le(timestamp, 4);
    PutObservation(out, head, o);
    ghost var f := Frame(PROTOCOL_VERSION, ML_OBSERVATION, sequence, timestamp, ObservationBytes(o));
    FrontOfFrame(f, head, out[..26]);
    assert out[2..26] == out[..26][2..];
    var crc := Crc16Ccitt(out[2..26]);
    PutNext(out, head + ObservationBytes(o), 26, crc, 2);
    assert out[..] == out[..28];
    ok := true;
  }

  /** What the checksum covers, and the whole frame, from the front that has been written. */
  lemma FrontOfFrame(f: Frame, head: seq<byte>, front: seq<byte>)
    requires |f.payload| <= 0xFFFF
    requires head == [SOF0, SOF1, f.version, f.messageType] + Le(f.sequence, 2) + Le(|f.payload|, 2) + Le(f.timestamp, 4)
    requires front == head + f.payload
    ensures front[2..] == Body(f) && Bytes(f) == front + Le(Crc16(Body(f)), 2)
  {
    hide Le, Crc16;
    assert front == [SOF0, SOF1] + Body(f);
  }

  method PutObservation(out: array<byte>, ghost head: seq<byte>, o: Observation)
    requires out.Length == HEADER_SIZE + ML_PAYLOAD + CRC_SIZE && out[..12] == head
    modifies out
    ensures out[..26] == head + ObservationBytes(o)
  {
    hide Le;
    ghost var a, b, c, d := Le(o.modelId, 2), Le(o.modelVersion, 2), Le(o.schema, 2), Le(o.flags, 2);
    PutNext(out, head, 12, o.modelId, 2);
    PutNext(out, head + a, 14, o.modelVersion, 2);
    PutNext(out, head + a + b, 16, o.schema, 2);
    PutNext(out, head + a + b + c, 18, o.flags, 2);
    PutNext(out, head + a + b + c + d, 20, o.anomaly, 2);
    ghost var done := head + a + b + c + d + Le(o.anomaly, 2);
    out[22] := o.health;
    out[23] := o.confidence;
    assert out[..24] == done + [o.health, o.confidence];
    PutNext(out, done + [o.health, o.confidence], 24, o.age, 2);
    assert done + [o.health, o.confidence] + Le(o.age, 2) == head + ObservationBytes(o);
  }

  // The host's codec, in physical units.

  datatype Health = Normal | Warning | Critical | Abstain

  datatype HostObservation = HostObservation(
    modelId: int, modelVersion: int, schema: int, flags: int, score: real, health: Health, confidence: real, age: int)

  function HealthCode(h: Health): (c: byte)
    ensures c <= ABSTAIN
  {
    match h
    case Normal => 0
    case Warning => 1
    case Critical => 2
    case Abstain => 3
  }

  function HealthOf(c: byte): Health
    requires c <= ABSTAIN
  {
    if c == 0 then Normal else if c == 1 then Warning else if c == 2 then Critical else Abstain
  }

  /** Rounding to the nearest integer, ties to even. */
  function Round(x: real): int
  {
    var n, rest := x.Floor, x - x.Floor as real;
    if rest < 0.5 then n else if rest > 0.5 then n + 1 else if n % 2 == 0 then n else n + 1
  }

  /** n is the integer nearest to x, and of two nearest ones the even one. */
  predicate Nearest(x: real, n: int)
  {
    -0.5 <= n as real - x <= 0.5 && (n as real - x == 0.5 || n as real - x == -0.5 ==> n % 2 == 0)
  }

  /** Rounding gives the one nearest integer. */
  lemma RoundNearest(x: real, n: int)
    ensures Nearest(x, n) <==> n == Round(x)
  {}

  function Clamp(x: real): real
  {
    if x < 0.0 then 0.0 else if x > 1.0 then 1.0 else x
  }

  function Quantise(x: real, full: nat): int
  {
    Round(Clamp(x) * full as real)
  }

  lemma QuantiseBounds(x: real, full: nat)
    ensures 0 <= Quantise(x, full) <= full
    ensures -0.5 <= Quantise(x, full) as real - Clamp(x) * full as real <= 0.5
  {
    var y := Clamp(x) * full as real;
    assert 0.0 <= y <= full as real;
  }

  /** A quantised value read back as a fraction and quantised again is the same value. */
  lemma QuantiseExact(x: real, q: nat, full: nat)
    requires 0 < full && q <= full && x * full as real == q as real
    ensures Quantise(x, full) == q
  {
    assert 0.0 <= x <= 1.0;
  }

  predicate FitsU16(v: int) { 0 <= v <= 0xFFFF }

  predicate HostSendable(o: HostObservation)
  {
    FitsU16(o.age) && FitsU16(o.modelId) && FitsU16(o.modelVersion) && FitsU16(o.schema) && FitsU16(o.flags)
  }

  function ToWire(o: HostObservation): (w: Observation)
    requires HostSendable(o)
    ensures Sendable(w)
  {
    QuantiseBounds(o.score, 32767); QuantiseBounds(o.confidence, 255);
    Observation(o.modelId, o.modelVersion, o.schema, o.flags,
                Quantise(o.score, 32767), HealthCode(o.health), Quantise(o.confidence, 255), o.age)
  }

  function FromWire(w: Observation): HostObservation
    requires Sendable(w)
  {
    HostObservation(w.modelId, w.modelVersion, w.schema, w.flags,
                    w.anomaly as real / 32767.0, HealthOf(w.health), w.confidence as real / 255.0, w.age)
  }

  function HostEncodeMl(o: HostObservation, sequence: int, timestamp: int): Option<seq<byte>>
  {
    if !HostSendable(o) then None
    else EncodeFrame(ML_OBSERVATION, sequence, timestamp, ObservationBytes(ToWire(o)), PROTOCOL_VERSION)
  }

  function HostDecodeMl(f: Frame): Option<HostObservation>
  {
    if f.messageType != ML_OBSERVATION then None
    else if |f.payload| != ML_PAYLOAD then None
    else
      var w := ReadObservation(f.payload);
      if w.anomaly > MAX_Q15 then None
      else if w.health > ABSTAIN then None
      else Some(FromWire(w))
  }

  function HostEncodeSensor(temperature: int, vibration: int, current: int, flags: int, sequence: int, timestamp: int): Option<seq<byte>>
  {
    if !(-32768 <= temperature <= 32767) || !FitsU16(vibration) || !FitsU16(current) || !FitsU16(flags) then None
    else
      EncodeFrame(SENSOR_SNAPSHOT, sequence, timestamp,
                       SensorBytes(Sensor(temperature, vibration, current, flags)), PROTOCOL_VERSION)
  }

  function HostDecodeSensor(f: Frame): Option<Sensor>
  {
    if f.messageType != SENSOR_SNAPSHOT || |f.payload| != SENSOR_PAYLOAD then None else Some(ReadSensor(f.payload))
  }

  function HostEncodeStatus(state: int, control: int, safety: int, sequence: int, timestamp: int): Option<seq<byte>>
  {
    if !(0 <= state <= 5) || !(0 <= control <= 0xFF) || !FitsU16(safety) then None
    else
      EncodeFrame(LinkFrame.STATUS, sequence, timestamp, StatusBytes(Status(state, control, safety)), PROTOCOL_VERSION)
  }

  function HostDecodeStatus(f: Frame): Option<Status>
  {
    if f.messageType != LinkFrame.STATUS || |f.payload| != STATUS_PAYLOAD then None
    else
      var s := ReadStatus(f.payload);
      if s.state > MAX_STATE then None else Some(s)
  }

  // Agreement of the two sides.

  /** Host to firmware: whatever the host encodes, the firmware would have encoded in the same bytes, and parses. */
  lemma HostFrameParses(o: HostObservation, sequence: int, timestamp: int)
    requires HostEncodeMl(o, sequence, timestamp).Some?
    ensures
      var data := HostEncodeMl(o, sequence, timestamp).value;
      data == MlBytes(ToWire(o), sequence, timestamp) && ParseMl(data) == Accepted(Stamped(sequence, timestamp, ToWire(o)))
  {
    hide Le, Crc16, ToWire, HostSendable;
    FirmwareFrameParses(ToWire(o), sequence, timestamp);
  }

  lemma FirmwareFrameParses(w: Observation, sequence: u16, timestamp: u32)
    requires Sendable(w)
    ensures ParseMl(MlBytes(w, sequence, timestamp)) == Accepted(Stamped(sequence, timestamp, w))
  {
    hide Le, Crc16, FromLe, DecodeFrame, ValidateCommon, Bytes, ReadObservation, ObservationBytes;
    var f := Frame(PROTOCOL_VERSION, ML_OBSERVATION, sequence, timestamp, ObservationBytes(w));
    DecodeBytes(f);
    ObservationLayout(w);
    CommonIsDecode(Bytes(f), ML_OBSERVATION, ML_PAYLOAD);
  }

  /** Firmware to host: both decoders accept the same ML byte strings and read the same message. */
  lemma DecodersAgree(data: seq<byte>)
    ensures
      var f := DecodeFrame(data, PROTOCOL_VERSION);
      && (ParseMl(data).Accepted? <==> f.Some? && HostDecodeMl(f.value).Some?)
      && (ParseMl(data).Accepted? ==>
            var p := ParseMl(data).value;
            Sendable(p.message) && HostDecodeMl(f.value) == Some(FromWire(p.message))
            && p.sequence == f.value.sequence && p.timestamp == f.value.timestamp)
  {
    hide Le, Crc16, FromLe, DecodeFrame, ValidateCommon, ReadObservation, FromWire;
    CommonIsDecode(data, ML_OBSERVATION, ML_PAYLOAD);
  }

  /**
   * A firmware frame decoded by the host and encoded again is the same frame, byte for byte: the physical units lose
   * nothing.
   */
  lemma MlFramesRoundTrip(data: seq<byte>)
    requires ParseMl(data).Accepted?
    ensures
      var p := ParseMl(data).value;
      && Sendable(p.message)
      && HostEncodeMl(FromWire(p.message), p.sequence, p.timestamp) == Some(data)
      && MlBytes(p.message, p.sequence, p.timestamp) == data
  {
    hide Le, Crc16, ToWire, FromWire, ParseMl, Bytes, ObservationBytes;
    var p := ParseMl(data).value;
    MlBytesOfParsed(data);
    WireRoundTrip(p.message);
  }

  lemma MlBytesOfParsed(data: seq<byte>)
    requires ParseMl(data).Accepted?
    ensures
      var p := ParseMl(data).value;
      Sendable(p.message) && MlBytes(p.message, p.sequence, p.timestamp) == data
  {
    hide Le, Crc16, FromLe, DecodeFrame, ValidateCommon, ReadObservation, Bytes, ObservationBytes;
    CommonIsDecode(data, ML_OBSERVATION, ML_PAYLOAD);
    BytesDecode(data, PROTOCOL_VERSION);
    ObservationCanonical(data[HEADER_SIZE..HEADER_SIZE + ML_PAYLOAD]);
    var f := DecodeFrame(data, PROTOCOL_VERSION).value;
    var p := ParseMl(data).value;
    assert f.version == PROTOCOL_VERSION;
    assert f == Frame(PROTOCOL_VERSION, ML_OBSERVATION, p.sequence, p.timestamp, ObservationBytes(p.message));
  }

  lemma WireRoundTrip(w: Observation)
    requires Sendable(w)
    ensures HostSendable(FromWire(w)) && ToWire(FromWire(w)) == w
  {
    hide Quantise;
    var o := FromWire(w);
    QuantiseExact(o.score, w.anomaly, 32767);
    QuantiseExact(o.confidence, w.confidence, 255);
    assert HealthCode(o.health) == w.health;
  }

  /** Host to host: only the two fractions change, each by at most half a step. */
  lemma HostRoundTrip(o: HostObservation)
    requires HostSendable(o)
    ensures
      var back := FromWire(ToWire(o));
      && back == o.(score := back.score, confidence := back.confidence)
      && -0.5 <= (back.score - Clamp(o.score)) * 32767.0 <= 0.5
      && -0.5 <= (back.confidence - Clamp(o.confidence)) * 255.0 <= 0.5
  {
    hide Quantise;
    QuantiseBounds(o.score, 32767);
    QuantiseBounds(o.confidence, 255);
    var q := Quantise(o.score, 32767);
    assert (q as real / 32767.0) * 32767.0 == q as real;
  }

  lemma SensorFrameRoundTrip(t: int, v: int, c: int, flags: int, sequence: int, timestamp: int)
    requires HostEncodeSensor(t, v, c, flags, sequence, timestamp).Some?
    ensures
      var data := HostEncodeSensor(t, v, c, flags, sequence, timestamp).value;
      && ParseSensor(data) == Accepted(Stamped(sequence, timestamp, Sensor(t, v, c, flags)))
      && DecodeFrame(data, PROTOCOL_VERSION).Some?
      && HostDecodeSensor(DecodeFrame(data, PROTOCOL_VERSION).value) == Some(Sensor(t, v, c, flags))
  {
    hide Le, Crc16, FromLe, DecodeFrame, ValidateCommon, Bytes, ReadSensor, SensorBytes;
    var s := Sensor(t, v, c, flags);
    var f := Frame(PROTOCOL_VERSION, SENSOR_SNAPSHOT, sequence, timestamp, SensorBytes(s));
    DecodeBytes(f);
    SensorLayout(s);
    CommonIsDecode(Bytes(f), SENSOR_SNAPSHOT, SENSOR_PAYLOAD);
  }

  lemma StatusFrameRoundTrip(state: int, control: int, safety: int, sequence: int, timestamp: int)
    requires HostEncodeStatus(state, control, safety, sequence, timestamp).Some?
    ensures
      var data := HostEncodeStatus(state, control, safety, sequence, timestamp).value;
      && ParseStatusFrame(data) == Accepted(Stamped(sequence, timestamp, Status(state, control, safety)))
      && DecodeFrame(data, PROTOCOL_VERSION).Some?
      && HostDecodeStatus(DecodeFrame(data, PROTOCOL_VERSION).value) == Some(Status(state, control, safety))
  {
    hide Le, Crc16, FromLe, DecodeFrame, ValidateCommon, Bytes, ReadStatus, StatusBytes;
    var s := Status(state, control, safety);
    var f := Frame(PROTOCOL_VERSION, LinkFrame.STATUS, sequence, timestamp, StatusBytes(s));
    DecodeBytes(f);
    StatusLayout(s);
    CommonIsDecode(Bytes(f), LinkFrame.STATUS, STATUS_PAYLOAD);
  }
}
