/** Where every field stands in the byte strings that cross a boundary, by position and weight of each byte. */
module WireLayout {
  import opened Bits
  import opened Crc
  import opened CalibrationRecord
  import LinkFrame
  import opened LinkCodecs
  import MaintenanceDevice
  import MaintenanceLink
  import HostSession

  /** Two bytes, the less significant first. */
  function Word(b: seq<byte>, at: nat): int
    requires at + 2 <= |b|
  {
    b[at] as int + 0x100 * (b[at + 1] as int)
  }

  /** Four bytes, the least significant first. */
  function Quad(b: seq<byte>, at: nat): int
    requires at + 4 <= |b|
  {
    b[at] as int + 0x100 * (b[at + 1] as int) + 0x1_0000 * (b[at + 2] as int) + 0x100_0000 * (b[at + 3] as int)
  }

  /** Four bytes in two's complement. */
  function Signed(b: seq<byte>, at: nat): int
    requires at + 4 <= |b|
  {
    if b[at + 3] < 0x80 then Quad(b, at) else Quad(b, at) - 0x1_0000_0000
  }

  lemma FromLeStep(b: seq<byte>)
    requires b != []
    ensures FromLe(b) == b[0] + 0x100 * FromLe(b[1..])
  {}

  /** Reading a word is adding up its bytes by weight. */
  lemma ReadsAreSums(b: seq<byte>, at: nat)
    ensures at + 2 <= |b| ==> Read16(b, at) == Word(b, at)
    ensures at + 4 <= |b| ==> Read32(b, at) == Quad(b, at)
  {
    hide FromLe;
    assert FromLe([]) == 0 by { NothingRead(); }
    if at + 2 <= |b| {
      var w := b[at..at + 2];
      FromLeStep(w); FromLeStep(w[1..]);
      assert w[1..][1..] == [];
    }
    if at + 4 <= |b| {
      var w := b[at..at + 4];
      FromLeStep(w); FromLeStep(w[1..]); FromLeStep(w[1..][1..]); FromLeStep(w[1..][1..][1..]);
      assert w[1..][1..][1..][1..] == [];
    }
  }

  lemma NothingRead()
    ensures FromLe([]) == 0
  {}

  lemma WordStands(v: u16, b: seq<byte>, at: nat)
    requires at + 2 <= |b| && b[at..at + 2] == Le(v, 2)
    ensures Word(b, at) == v
  {
    Read16Of(v, b, at);
    ReadsAreSums(b, at);
  }

  lemma QuadStands(v: u32, b: seq<byte>, at: nat)
    requires at + 4 <= |b| && b[at..at + 4] == Le(v, 4)
    ensures Quad(b, at) == v
  {
    Read32Of(v, b, at);
    ReadsAreSums(b, at);
  }

  lemma SignedStands(v: i32, b: seq<byte>, at: nat)
    requires at + 4 <= |b| && b[at..at + 4] == Le(I32ToU32(v), 4)
    ensures Signed(b, at) == v
  {
    hide Le;
    QuadStands(I32ToU32(v), b, at);
  }

  /** The link frame. */
  lemma LinkFrameLayout(f: LinkFrame.Frame)
    requires |f.payload| <= 0xFFFF
    ensures
      var b, n := LinkFrame.Bytes(f), |f.payload|;
      && |b| == 14 + n && b[0] == 0xA5 && b[1] == 0x5A && b[2] == f.version && b[3] == f.messageType
      && Word(b, 4) == f.sequence && Word(b, 6) == n && Quad(b, 8) == f.timestamp
      && b[12..12 + n] == f.payload && Word(b, 12 + n) == Crc16(b[2..12 + n])
  {
    hide Crc16, Le, FromLe, Word, Quad;
    var b, n, body := LinkFrame.Bytes(f), |f.payload|, LinkFrame.Body(f);
    assert b[2..12 + n] == body;
    WordAt(b, 4, Le(f.sequence, 2)); WordAt(b, 6, Le(n, 2)); QuadAt(b, 8, Le(f.timestamp, 4));
    assert b[12..12 + n] == f.payload;
    WordAt(b, 12 + n, Le(Crc16(body), 2));
    WordStands(f.sequence, b, 4); WordStands(n, b, 6); QuadStands(f.timestamp, b, 8); WordStands(Crc16(body), b, 12 + n);
  }

  /** The three payloads of the link. */
  lemma MlPayloadLayout(o: Observation)
    ensures
      var p := ObservationBytes(o);
      && |p| == 14 && Word(p, 0) == o.modelId && Word(p, 2) == o.modelVersion && Word(p, 4) == o.schema
      && Word(p, 6) == o.flags && Word(p, 8) == o.anomaly && p[10] == o.health && p[11] == o.confidence && Word(p, 12) == o.age
  {
    hide Le, FromLe, Word;
    var p := ObservationBytes(o);
    WordAt(p, 0, Le(o.modelId, 2)); WordAt(p, 2, Le(o.modelVersion, 2)); WordAt(p, 4, Le(o.schema, 2));
    WordAt(p, 6, Le(o.flags, 2)); WordAt(p, 8, Le(o.anomaly, 2)); WordAt(p, 12, Le(o.age, 2));
    WordStands(o.modelId, p, 0); WordStands(o.modelVersion, p, 2); WordStands(o.schema, p, 4);
    WordStands(o.flags, p, 6); WordStands(o.anomaly, p, 8); WordStands(o.age, p, 12);
  }

  lemma SensorPayloadLayout(s: Sensor)
    ensures
      var p := SensorBytes(s);
      && |p| == 8 && Word(p, 0) == (if s.temperature < 0 then s.temperature + 0x1_0000 else s.temperature)
      && Word(p, 2) == s.vibration && Word(p, 4) == s.current && Word(p, 6) == s.flags
  {
    hide Le, FromLe, Word;
    var p := SensorBytes(s);
    WordAt(p, 0, Le(I16ToU16(s.temperature), 2));
    WordAt(p, 2, Le(s.vibration, 2)); WordAt(p, 4, Le(s.current, 2)); WordAt(p, 6, Le(s.flags, 2));
    WordStands(I16ToU16(s.temperature), p, 0);
    WordStands(s.vibration, p, 2); WordStands(s.current, p, 4); WordStands(s.flags, p, 6);
  }

  lemma StatusPayloadLayout(s: Status)
    ensures
      var p := StatusBytes(s);
      |p| == 4 && p[0] == s.state && p[1] == s.control && Word(p, 2) == s.safety
  {
    hide Le, FromLe, Word;
    var p := StatusBytes(s);
    WordAt(p, 2, Le(s.safety, 2));
    WordStands(s.safety, p, 2);
  }

  /**
   * The host encodes exactly the observations whose integers fit their fields, and each byte of the frame means: the two
   * fractions, cut off at 0 and 1, to the nearest 1/32767 and 1/255, and the class as 0 normal, 1 warning, 2 critical,
   * 3 abstain.
   */
  lemma HostMlLayout(o: HostObservation, sequence: int, timestamp: int)
    ensures HostEncodeMl(o, sequence, timestamp).Some? <==>
      && 0 <= sequence <= 0xFFFF && 0 <= timestamp <= 0xFFFF_FFFF && 0 <= o.age <= 0xFFFF
      && 0 <= o.modelId <= 0xFFFF && 0 <= o.modelVersion <= 0xFFFF && 0 <= o.schema <= 0xFFFF && 0 <= o.flags <= 0xFFFF
    ensures HostEncodeMl(o, sequence, timestamp).Some? ==>
      var b := HostEncodeMl(o, sequence, timestamp).value;
      && |b| == 28 && b[3] == 0x10 && Word(b, 4) == sequence && Quad(b, 8) == timestamp
      && Word(b, 12) == o.modelId && Word(b, 14) == o.modelVersion && Word(b, 16) == o.schema && Word(b, 18) == o.flags
      && Nearest(Clamp(o.score) * 32767.0, Word(b, 20)) && Nearest(Clamp(o.confidence) * 255.0, b[23] as int)
      && b[22] as int == (match o.health case Normal => 0 case Warning => 1 case Critical => 2 case Abstain => 3)
      && Word(b, 24) == o.age
  {
    hide Le, FromLe, Crc16, Word, Quad, Nearest, Clamp, Round, LinkFrame.Bytes, ObservationBytes;
    if HostEncodeMl(o, sequence, timestamp).Some? {
      var w := ToWire(o);
      var f := LinkFrame.Frame(LinkFrame.PROTOCOL_VERSION, LinkFrame.ML_OBSERVATION, sequence, timestamp, ObservationBytes(w));
      LinkFrameLayout(f);
      MlPayloadLayout(w);
      RoundNearest(Clamp(o.score) * 32767.0, w.anomaly);
      RoundNearest(Clamp(o.confidence) * 255.0, w.confidence);
      PayloadWords(LinkFrame.Bytes(f), ObservationBytes(w));
    }
  }

  /** The payload's words stand twelve bytes further on in the frame. */
  lemma PayloadWords(b: seq<byte>, p: seq<byte>)
    requires |b| >= 12 + |p| && b[12..12 + |p|] == p
    ensures forall i :: 0 <= i < |p| ==> b[12 + i] == p[i]
    ensures forall i :: 0 <= i && i + 2 <= |p| ==> Word(b, 12 + i) == Word(p, i)
  {
    forall i | 0 <= i < |p|
      ensures b[12 + i] == p[i]
    {
      assert b[12..12 + |p|][i] == b[12 + i];
    }
  }

  /** Four signed coefficients in the order of the record's fields. */
  predicate LinearAt(b: seq<byte>, at: nat, c: Linear)
    requires at + 16 <= |b|
  {
    && Signed(b, at) == c.rawZero && Signed(b, at + 4) == c.gainNumerator
    && Signed(b, at + 8) == c.gainDenominator && Signed(b, at + 12) == c.outputOffset
  }

  lemma LinearStands(c: Linear, b: seq<byte>, at: nat)
    requires at + 16 <= |b| && b[at..at + 16] == LinearBytes(c)
    ensures LinearAt(b, at, c)
  {
    hide Le, Signed;
    SliceOfSlice(b, at, at + 16, 0, 4); SliceOfSlice(b, at, at + 16, 4, 8);
    SliceOfSlice(b, at, at + 16, 8, 12); SliceOfSlice(b, at, at + 16, 12, 16);
    var w := b[at..at + 16];
    assert w[0..4] == Le(I32ToU32(c.rawZero), 4) && w[4..8] == Le(I32ToU32(c.gainNumerator), 4);
    assert w[8..12] == Le(I32ToU32(c.gainDenominator), 4) && w[12..16] == Le(I32ToU32(c.outputOffset), 4);
    SignedStands(c.rawZero, b, at); SignedStands(c.gainNumerator, b, at + 4);
    SignedStands(c.gainDenominator, b, at + 8); SignedStands(c.outputOffset, b, at + 12);
  }

  /** The calibration record: "1CSF", version 1, its own size, the sequence, two linear maps and the checksum. */
  lemma RecordLayout(r: Record)
    ensures
      var b := Blob(r);
      && |b| == 48 && b[..4] == [0x31, 0x43, 0x53, 0x46] && Word(b, 4) == 1 && Word(b, 6) == 48 && Quad(b, 8) == r.sequence
      && LinearAt(b, 12, r.temperature) && LinearAt(b, 28, r.current) && Quad(b, 44) == Crc32(b[..44])
  {
    hide Crc32, Le, FromLe, Word, Quad, LinearAt;
    var b, p := Blob(r), Prefix(r);
    assert b[..44] == p;
    assert p[0..4] == b[0..4] == Le(MAGIC, 4);
    WordAt(b, 4, Le(VERSION, 2)); WordAt(b, 6, Le(BLOB_SIZE, 2)); QuadAt(b, 8, Le(r.sequence, 4));
    QuadAt(b, 44, Le(Crc32(p), 4));
    assert b[12..28] == LinearBytes(r.temperature) && b[28..44] == LinearBytes(r.current);
    MagicBytes();
    WordStands(VERSION, b, 4); WordStands(BLOB_SIZE, b, 6); QuadStands(r.sequence, b, 8); QuadStands(Crc32(p), b, 44);
    LinearStands(r.temperature, b, 12); LinearStands(r.current, b, 28);
  }

  lemma MagicBytes()
    ensures Le(MAGIC, 4) == [0x31, 0x43, 0x53, 0x46]
  {
    assert Le(0x46, 1) == [0x46] by { assert Le(0, 0) == []; }
    assert Le(0x4653, 2) == [0x53] + Le(0x46, 1);
    assert Le(0x465343, 3) == [0x43] + Le(0x4653, 2);
  }

  /** The maintenance frame: "FSM1", version 1, opcode, length, payload and checksum. */
  lemma MaintenanceFrameLayout(f: MaintenanceDevice.Frame)
    requires MaintenanceLink.Fits(f)
    ensures
      var b, n := MaintenanceLink.Bytes(f), |f.payload|;
      && |b| == 12 + n && b[..4] == [0x46, 0x53, 0x4D, 0x31] && b[4] == 1 && b[5] == f.opcode && Word(b, 6) == n
      && b[8..8 + n] == f.payload && Quad(b, 8 + n) == Crc32(b[..8 + n])
  {
    hide Crc32, Le, FromLe, Word, Quad;
    var b, n := MaintenanceLink.Bytes(f), |f.payload|;
    MaintenanceLink.HeaderBytes(f, b);
    assert b[8 + n..8 + n + 4] == b[8 + n..];
    WordStands(n, b, 6); QuadStands(Crc32(MaintenanceLink.Body(f)), b, 8 + n);
  }

  /** What a signature covers: a fixed domain, the device, the installed floor, the artifact root and the record. */
  lemma AuthorizationLayout(mac: seq<byte>, floor: u32, root: seq<byte>, blob: seq<byte>)
    requires |mac| == 6 && |root| == 32 && |blob| == 48
    ensures
      var p := MaintenanceDevice.AuthorizationPayload(mac, floor, root, blob);
      && |p| == 142 && p[52..58] == mac && Quad(p, 58) == floor && p[62..94] == root && p[94..] == blob
      && p[..52] == MaintenanceDevice.Ascii("ForgeSense-Calibration-Maintenance-Authorization-v1\n")
  {
    hide Le, FromLe, Quad;
    var p := MaintenanceDevice.AuthorizationPayload(mac, floor, root, blob);
    QuadAt(p, 58, Le(floor, 4));
    QuadStands(floor, p, 58);
  }

  /** The two requests that change the device. */
  lemma PrepareLayout(bootNonce: u32, floor: u32, root: seq<byte>, blob: seq<byte>, signature: seq<byte>)
    requires |root| == 32 && |blob| == 48 && |signature| <= 80
    ensures
      var p := HostSession.PrepareRequest(bootNonce, floor, root, blob, signature).payload;
      && |p| == 90 + |signature| && Quad(p, 0) == bootNonce && Quad(p, 4) == floor && p[8..40] == root && p[40..88] == blob
      && Word(p, 88) == |signature| && p[90..] == signature
  {
    hide Le, FromLe, Word, Quad;
    var p := HostSession.PrepareRequest(bootNonce, floor, root, blob, signature).payload;
    QuadAt(p, 0, Le(bootNonce, 4)); QuadAt(p, 4, Le(floor, 4)); WordAt(p, 88, Le(|signature|, 2));
    assert p[8..40] == root && p[40..88] == blob && p[90..] == signature;
    QuadStands(bootNonce, p, 0); QuadStands(floor, p, 4); WordStands(|signature|, p, 88);
  }

  lemma CommitLayout(bootNonce: u32, nonce: u32, sequence: u32)
    ensures
      var p := HostSession.CommitRequest(bootNonce, nonce, sequence).payload;
      |p| == 12 && Quad(p, 0) == bootNonce && Quad(p, 4) == nonce && Quad(p, 8) == sequence
  {
    hide Le, FromLe, Word, Quad;
    var p := HostSession.CommitRequest(bootNonce, nonce, sequence).payload;
    QuadAt(p, 0, Le(bootNonce, 4)); QuadAt(p, 4, Le(nonce, 4)); QuadAt(p, 8, Le(sequence, 4));
    QuadStands(bootNonce, p, 0); QuadStands(nonce, p, 4); QuadStands(sequence, p, 8);
  }

  /** What a lower-case hexadecimal digit stands for. */
  function DigitValue(c: char): int
  {
    if '0' <= c <= '9' then c as int - '0' as int else c as int - 'a' as int + 10
  }

  /** A device identity or a fingerprint in hexadecimal: two lower-case digits a byte, the high half first. */
  lemma {:induction false} HexLayout(b: seq<byte>, i: nat)
    requires i < |b|
    ensures
      var s := HostSession.Hex(b);
      |s| == 2 * |b| && DigitValue(s[2 * i]) * 16 + DigitValue(s[2 * i + 1]) == b[i] as int
  {
    if i == 0 {
      DigitOf(b[0] / 16); DigitOf(b[0] % 16);
    } else {
      HexLayout(b[1..], i - 1);
      assert HostSession.Hex(b)[2..] == HostSession.Hex(b[1..]);
    }
  }

  lemma DigitOf(n: nat)
    requires n < 16
    ensures DigitValue(HostSession.HexChar(n)) == n
  {}
}
