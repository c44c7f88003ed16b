/** ForgeSense Link frames: the envelope codec of the Python side and what its checksum detects. */
module LinkFrame {
  import opened Bits
  import opened Crc
  import opened CalibrationRecord

  const SOF0: byte := 0xA5
  const SOF1: byte := 0x5A
  const PROTOCOL_VERSION: byte := 1
  const HEADER_SIZE: nat := 12
  const CRC_SIZE: nat := 2

  const ML_OBSERVATION: byte := 0x10
  const SENSOR_SNAPSHOT: byte := 0x11
  const STATUS: byte := 0x30

  datatype Frame = Frame(version: byte, messageType: byte, sequence: u16, timestamp: u32, payload: seq<byte>)

  /** The bytes after the start marker that the checksum covers. */
  function Body(f: Frame): (b: seq<byte>)
    requires |f.payload| <= 0xFFFF
    ensures |b| == 10 + |f.payload|
  {
    [f.version, f.messageType] + Le(f.sequence, 2) + Le(|f.payload|, 2) + Le(f.timestamp, 4) + f.payload
  }

  function Bytes(f: Frame): (b: seq<byte>)
    requires |f.payload| <= 0xFFFF
    ensures |b| == HEADER_SIZE + |f.payload| + CRC_SIZE
  {
    [SOF0, SOF1] + Body(f) + Le(Crc16(Body(f)), 2)
  }

  /** The encoder: refuses fields that do not fit the header. */
  function EncodeFrame(messageType: byte, sequence: int, timestamp: int, payload: seq<byte>, version: byte): (r: Option<seq<byte>>)
  {
    if !(0 <= sequence <= 0xFFFF) then None
    else if !(0 <= timestamp <= 0xFFFF_FFFF) then None
    else if |payload| > 0xFFFF then None
    else Some(Bytes(Frame(version, messageType, sequence, timestamp, payload)))
  }

  function DecodeFrame(data: seq<byte>, expectedVersion: byte): (r: Option<Frame>)
  {
    if |data| < HEADER_SIZE + CRC_SIZE then None
    else if data[0] != SOF0 || data[1] != SOF1 then None
    else
      var n := Read16(data, 6);
      if |data| != HEADER_SIZE + n + CRC_SIZE then None
      else if data[2] != expectedVersion then None
      else if Read16(data, HEADER_SIZE + n) != Crc16(data[2..HEADER_SIZE + n]) then None
      else Some(Frame(data[2], data[3], Read16(data, 4), Read32(data, 8), data[HEADER_SIZE..HEADER_SIZE + n]))
  }

  /** What the decoder accepts is exactly what the encoder produces: the two are inverse to each other. */
  lemma DecodeBytes(f: Frame)
    requires |f.payload| <= 0xFFFF
    ensures DecodeFrame(Bytes(f), f.version) == Some(f)
  {
    hide Crc16, Le, FromLe;
    var b, n, body := Bytes(f), |f.payload|, Body(f);
    var crc := Crc16(body);
    assert b[2..HEADER_SIZE + n] == body;
    WordAt(b, 4, Le(f.sequence, 2));
    WordAt(b, 6, Le(n, 2));
    QuadAt(b, 8, Le(f.timestamp, 4));
    assert b[HEADER_SIZE..HEADER_SIZE + n] == f.payload;
    WordAt(b, HEADER_SIZE + n, Le(crc, 2));
    Read16Of(f.sequence, b, 4);
    Read16Of(n, b, 6);
    Read32Of(f.timestamp, b, 8);
    Read16Of(crc, b, HEADER_SIZE + n);
  }

  lemma BytesDecode(data: seq<byte>, version: byte)
    requires DecodeFrame(data, version).Some?
    ensures
      var f := DecodeFrame(data, version).value;
      f.version == version && |f.payload| <= 0xFFFF && Bytes(f) == data
  {
    hide Crc16, Le, FromLe;
    var f := DecodeFrame(data, version).value;
    var n := |f.payload|;
    ReadBack(data, 4); ReadBack(data, 6); ReadBack(data, 8); ReadBack(data, HEADER_SIZE + n);
    var body := data[2..HEADER_SIZE + n];
    assert body == [data[2], data[3]] + data[4..6] + data[6..8] + data[8..12] + data[12..12 + n];
    assert Body(f) == body;
    assert data == [data[0], data[1]] + body + data[HEADER_SIZE + n..];
  }

  // Error detection.

  /** data with k bytes from position i on replaced. */
  function Damaged(data: seq<byte>, i: nat, noise: seq<byte>): seq<byte>
    requires i + |noise| <= |data|
  {
    data[..i] + noise + data[i + |noise|..]
  }

  /** One byte, or two adjacent bytes, from position i on are replaced and something changes. */
  predicate Changes(data: seq<byte>, i: nat, noise: seq<byte>)
  {
    1 <= |noise| <= 2 && i + |noise| <= |data| && noise != data[i..i + |noise|]
  }

  /** The last covered byte and the low checksum byte, changed by the two differences that cancel. */
  predicate Cancels(data: seq<byte>, i: nat, noise: seq<byte>)
  {
    && |noise| == 2 && i + 3 == |data| && Xor(data[i], noise[0]) == 0x89 && Xor(data[i + 1], noise[1]) == 0xA1
  }

  /** What an accepted frame always shows: the start marker, and its body's checksum in the last two bytes. */
  predicate Sealed(data: seq<byte>)
  {
    && |data| >= HEADER_SIZE + CRC_SIZE && data[0] == SOF0 && data[1] == SOF1
    && data[|data| - CRC_SIZE..] == Le(Crc16(data[2..|data| - CRC_SIZE]), 2)
  }

  lemma AcceptedIsSealed(data: seq<byte>, version: byte)
    ensures DecodeFrame(data, version).Some? ==> Sealed(data)
  {
    hide Crc16, FromLe, Le;
    if DecodeFrame(data, version).Some? {
      ReadBack(data, |data| - CRC_SIZE);
    }
  }

  /** The seal, the version and the length are all that the decoder checks. */
  lemma AcceptedIff(data: seq<byte>, version: byte)
    ensures DecodeFrame(data, version).Some? <==>
            Sealed(data) && data[2] == version && Read16(data, 6) == |data| - HEADER_SIZE - CRC_SIZE
  {
    hide Crc16, FromLe, Le;
    if |data| >= HEADER_SIZE + CRC_SIZE {
      ReadBack(data, |data| - CRC_SIZE);
      if Sealed(data) { Read16Of(Crc16(data[2..|data| - CRC_SIZE]), data, |data| - CRC_SIZE); }
    }
  }

  /**
   * Error detection, exactly: of all changes of one byte or of two adjacent bytes of a valid frame, for every payload
   * length and every position, the only ones the decoder accepts are those of the last covered byte by 0x89 together
   * with the low checksum byte by 0xA1.
   */
  lemma DamageAcceptedIff(data: seq<byte>, version: byte, i: nat, noise: seq<byte>)
    requires DecodeFrame(data, version).Some? && Changes(data, i, noise)
    ensures DecodeFrame(Damaged(data, i, noise), version).Some? <==> Cancels(data, i, noise)
  {
    hide DecodeFrame, Sealed, Crc16, Read16, Le;
    AcceptedIsSealed(data, version);
    assert |data| >= HEADER_SIZE + CRC_SIZE by { SealedSize(data); }
    if |noise| == 2 && i + 3 == |data| {
      SealAcrossIff(data, i, noise);
      AcceptedIff(data, version);
      AcceptedIff(Damaged(data, i, noise), version);
      HeaderKept(data, i, noise);
    } else {
      DamageBreaksSeal(data, i, noise);
      AcceptedIsSealed(Damaged(data, i, noise), version);
    }
  }

  lemma SealedSize(data: seq<byte>)
    requires Sealed(data)
    ensures |data| >= HEADER_SIZE + CRC_SIZE
  {}

  lemma HeaderKept(data: seq<byte>, i: nat, noise: seq<byte>)
    requires |data| >= HEADER_SIZE + CRC_SIZE && |noise| == 2 && i + 3 == |data|
    ensures
      var bad := Damaged(data, i, noise);
      |bad| == |data| && bad[2] == data[2] && Read16(bad, 6) == Read16(data, 6)
  {
    hide FromLe;
    assert Damaged(data, i, noise)[6..8] == data[6..8];
  }

  /** Away from the boundary before the last two bytes, no change survives. */
  lemma DamageBreaksSeal(data: seq<byte>, i: nat, noise: seq<byte>)
    requires Sealed(data) && Changes(data, i, noise) && !(|noise| == 2 && i + 3 == |data|)
    ensures !Sealed(Damaged(data, i, noise))
    decreases |noise|
  {
    hide Crc16, Le;
    var bad, m := Damaged(data, i, noise), |data| - CRC_SIZE;
    if i >= m {
      assert bad[2..m] == data[2..m];
      TailShows(data, i, noise);
    } else if i >= 2 {
      BodyDamageShows(data, i, noise);
      assert bad[m..] == data[m..];
    } else if noise[0] != data[i] {
      assert bad[i] == noise[0];
    } else if i == 0 {
      assert noise == [noise[0], noise[1]] && data[0..2] == [data[0], data[1]];
      assert bad[1] == noise[1];
    } else {
      OneByteOfTwo(data, noise);
      DamageBreaksSeal(data, 2, [noise[1]]);
    }
  }

  /** Of two changed bytes at the end of the marker, with the marker byte unchanged only the version byte counts. */
  lemma OneByteOfTwo(data: seq<byte>, noise: seq<byte>)
    requires |data| >= 4 && Changes(data, 1, noise) && noise[0] == data[1]
    ensures |noise| == 2 && Changes(data, 2, [noise[1]]) && Damaged(data, 1, noise) == Damaged(data, 2, [noise[1]])
  {
    assert data[1..2] == [data[1]] && noise[..1] == [noise[0]];
    if |noise| == 2 {
      assert noise == [noise[0], noise[1]] && data[1..3] == [data[1], data[2]] && data[2..3] == [data[2]];
    }
  }

  lemma TailShows(data: seq<byte>, i: nat, noise: seq<byte>)
    requires Changes(data, i, noise) && |data| >= CRC_SIZE && i >= |data| - CRC_SIZE
    ensures Damaged(data, i, noise)[|data| - CRC_SIZE..] != data[|data| - CRC_SIZE..]
  {
    var bad, m := Damaged(data, i, noise), |data| - CRC_SIZE;
    assert bad[m..][i - m..i - m + |noise|] == noise;
    assert data[m..][i - m..i - m + |noise|] == data[i..i + |noise|];
  }

  /** Across the boundary the seal holds exactly for the two differences that cancel. */
  lemma SealAcrossIff(data: seq<byte>, i: nat, noise: seq<byte>)
    requires Sealed(data) && Changes(data, i, noise) && |noise| == 2 && i + 3 == |data|
    ensures Sealed(Damaged(data, i, noise)) <==> Cancels(data, i, noise)
  {
    hide Crc16, Fold16, Le, Xor, Crc16From;
    var bad := Damaged(data, i, noise);
    var c := Crc16From(0xFFFF, data[2..i]);
    assert data[2..i + 1] == data[2..i] + [data[i]] && bad[2..i + 1] == data[2..i] + [noise[0]];
    LastByteFolds(data[2..i], data[i]); LastByteFolds(data[2..i], noise[0]);
    assert data[i + 1..] == [data[i + 1], data[i + 2]] && bad[i + 1..] == [noise[1], data[i + 2]];
    TwoBytes(Fold16(c, data[i])); TwoBytes(Fold16(c, noise[0]));
    assert noise == [noise[0], noise[1]] && data[i..i + 2] == [data[i], data[i + 1]];
    FoldsAgreeHighIff(c, data[i], noise[0], data[i + 1], noise[1]);
  }

  lemma TwoBytes(v: u16)
    ensures Le(v, 2) == [v % 256, v / 256]
  {
    assert Le(v / 256, 1) == [v / 256];
  }

  /**
   * x is the low register byte after b. Then, for another pair, x' is the low byte after b' over the same high byte
   * exactly when the differences are the two that cancel.
   */
  lemma FoldsAgreeHighIff(c: u16, b: byte, b': byte, x: byte, x': byte)
    requires Fold16(c, b) % 256 == x && !(b == b' && x == x')
    ensures
      Fold16(c, b') % 256 == x' && Fold16(c, b') / 256 == Fold16(c, b) / 256
      <==> Xor(b, b') == 0x89 && Xor(x, x') == 0xA1
  {
    hide Fold16, Xor;
    var f, f' := Fold16(c, b), Fold16(c, b');
    WordXor(f, f');
    if Xor(b, b') == 0x89 {
      StraddlingDamageEscapes(c, b, b');
      LowByteOnly(f, f');
      if Xor(x, x') == 0xA1 { XorComm(x, x'); XorComm(x, f' % 256); XorCancel(x', f' % 256, x); }
    } else if f' / 256 == f / 256 {
      XorZero(f / 256);
      FoldDifference(c, b, b');
      ByteXor(b, b');
      OnlyOneCancels(Xor(b, b'));
      XorIsZero(b, b');
    }
  }

  /** Two bytes folded into one register leave registers whose difference depends on the bytes' difference alone. */
  lemma FoldDifference(c: u16, b: byte, b': byte)
    ensures Xor(b, b') < 256 && Xor(Fold16(c, b), Fold16(c, b')) == Shifts16(256 * Xor(b, b'), 8)
  {
    hide Xor, Shifts16;
    XorBound16(c, 256 * b); XorBound16(c, 256 * b');
    ShiftsLinear(Xor(c, 256 * b), Xor(c, 256 * b'), 8);
    XorSwap(c, 256 * b, c, 256 * b');
    XorZero(c);
    XorComm(0, Xor(256 * b, 256 * b')); XorZero(Xor(256 * b, 256 * b'));
    XorSplit8(b, 0, b', 0);
    XorZero(0);
    ByteXor(b, b');
  }

  /** Damage of one or two adjacent bytes inside the body changes the body's checksum. */
  lemma BodyDamageShows(data: seq<byte>, i: nat, noise: seq<byte>)
    requires 2 <= i && i + |noise| <= |data| - CRC_SIZE && 1 <= |noise| <= 2
    requires noise != data[i..i + |noise|]
    ensures
      var m := |data| - CRC_SIZE;
      Le(Crc16(Damaged(data, i, noise)[2..m]), 2) != Le(Crc16(data[2..m]), 2)
  {
    hide Crc16;
    var m := |data| - CRC_SIZE;
    var p, q, was := data[2..i], data[i + |noise|..m], data[i..i + |noise|];
    assert data[2..m] == p + was + q;
    assert Damaged(data, i, noise)[2..m] == p + noise + q;
    Crc16DetectsBurst(p, was, noise, q);
    Pow256Values();
    FromLeLe(Crc16(p + was + q), 2);
    FromLeLe(Crc16(p + noise + q), 2);
  }

  /** The damage that escapes: last body byte and checksum low byte, changed by 0x89 and 0xA1. */
  lemma StraddlingDamageEscapes(c: u16, b: byte, b': byte)
    requires Xor(b, b') == 0x89
    ensures Xor(Fold16(c, b), Fold16(c, b')) == 0xA1
  {
    hide Xor, Shifts16, Fold16;
    FoldDifference(c, b, b');
    EightShiftsOf89();
  }

  /** Two frames that differ in the bytes n and n + 1 only, by the differences that cancel. */
  predicate CancellingPair(x: seq<byte>, y: seq<byte>, n: nat)
  {
    && |x| == |y| == n + 3 && x[..n] == y[..n] && x[n + 2] == y[n + 2]
    && Xor(x[n], y[n]) == 0x89 && Xor(x[n + 1], y[n + 1]) == 0xA1
  }

  /**
   * Whole frames: change the last payload byte by 0x89 and the two frames differ only in that byte and in the low byte
   * of the checksum, and both are accepted.
   */
  lemma StraddlingPairAccepted(f: Frame, rest: seq<byte>, b: byte, b': byte)
    requires f.payload == rest + [b] && |f.payload| <= 0xFFFF && Xor(b, b') == 0x89
    ensures
      var g := f.(payload := rest + [b']);
      && DecodeFrame(Bytes(f), f.version) == Some(f) && DecodeFrame(Bytes(g), f.version) == Some(g)
      && CancellingPair(Bytes(f), Bytes(g), HEADER_SIZE + |rest|)
  {
    hide DecodeFrame, Fold16, Bytes, Crc16From, Xor, Le;
    var g := f.(payload := rest + [b']);
    DecodeBytes(f); DecodeBytes(g);
    var p := [f.version, f.messageType] + Le(f.sequence, 2) + Le(|f.payload|, 2) + Le(f.timestamp, 4) + rest;
    var c := Crc16From(0xFFFF, p);
    BytesEnd(f, p, b); BytesEnd(g, p, b');
    StraddlingDamageEscapes(c, b, b');
    LowByteOnly(Fold16(c, b), Fold16(c, b'));
  }

  lemma BytesEnd(f: Frame, p: seq<byte>, b: byte)
    requires |f.payload| <= 0xFFFF && Body(f) == p + [b]
    ensures
      var crc := Fold16(Crc16From(0xFFFF, p), b);
      Bytes(f) == [SOF0, SOF1] + p + [b, crc % 256, crc / 256]
  {
    hide Fold16, Crc16From, Body;
    var crc := Fold16(Crc16From(0xFFFF, p), b);
    LastByteFolds(p, b);
    assert Le(crc, 2) == [crc % 256, crc / 256] by { assert Le(crc / 256, 1) == [crc / 256]; }
  }

  lemma LastByteFolds(p: seq<byte>, b: byte)
    ensures Crc16(p + [b]) == Fold16(Crc16From(0xFFFF, p), b)
  {
    hide Fold16;
    assert (p + [b])[..|p|] == p;
  }

  lemma LowByteOnly(x: u16, y: u16)
    requires Xor(x, y) == 0xA1
    ensures x / 256 == y / 256 && Xor(x % 256, y % 256) == 0xA1
  {
    hide Xor;
    XorSplit8(x / 256, x % 256, y / 256, y % 256);
    Pow2Values();
    XorBound(x % 256, y % 256, 8);
    XorIsZero(x / 256, y / 256);
  }

  lemma EightShiftsOf89()
    ensures Shifts16(0x8900, 8) == 0xA1
  {
    hide Xor, Shift16;
    TopShifts();
    LowShift(0x0221); LowShift(0x0442); LowShift(0x0884); LowShift(0x1108); LowShift(0x2210); LowShift(0x4420);
    assert Shifts16(0x8900, 1) == 0x0221;
    assert Shifts16(0x8900, 2) == 0x0442;
    assert Shifts16(0x8900, 3) == 0x0884;
    assert Shifts16(0x8900, 4) == 0x1108;
    assert Shifts16(0x8900, 5) == 0x2210;
    assert Shifts16(0x8900, 6) == 0x4420;
    assert Shifts16(0x8900, 7) == 0x8840;
  }

  lemma TopShifts()
    ensures Shift16(0x8900) == 0x0221 && Shift16(0x8840) == 0xA1
  {
    hide Shift16;
    ShiftByParts(0x8900); ShiftByParts(0x8840);
    XorOfTopBytes();
    XorSplit8(0x12, 0, 0x10, 0x21);
    XorSplit8(0x10, 0x80, 0x10, 0x21);
  }

  lemma XorOfTopBytes()
    ensures Xor(0x12, 0x10) == 0x02 && Xor(0x10, 0x10) == 0 && Xor(0, 0x21) == 0x21 && Xor(0x80, 0x21) == 0xA1
  {
    XorZero(0x10); XorZero(0x21); XorComm(0, 0x21); XorZero(4);
    assert Xor(9, 8) == 1;
    assert Xor(1, 0) == 1 && Xor(2, 0) == 2;
    assert Xor(4, 1) == 5;
    assert Xor(8, 2) == 10;
    assert Xor(16, 4) == 20;
    assert Xor(32, 8) == 40;
    assert Xor(64, 16) == 80;
  }
}
