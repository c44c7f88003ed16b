/** The 48-byte calibration record: fields, wire format and the dual-slot selection rule. */
module CalibrationRecord {
  import opened Bits
  import opened Crc
  import Crc32Theory

  datatype Option<+T> = None | Some(value: T)

  const RAW24_MIN: int := -0x80_0000
  const RAW24_MAX: int := 0x7F_FFFF
  const MAGIC: u32 := 0x46534331
  const VERSION: u16 := 1
  const BLOB_SIZE: nat := 48

  datatype Linear = Linear(rawZero: i32, gainNumerator: i32, gainDenominator: i32, outputOffset: i32)

  datatype Record = Record(sequence: u32, temperature: Linear, current: Linear)

  /** The value-initialised record of the firmware. */
  const EMPTY_RECORD := Record(0, Linear(0, 1, 1, 0), Linear(0, 1, 1, 0))

  predicate LinearUsable(c: Linear)
  {
    c.gainDenominator > 0 && RAW24_MIN <= c.rawZero <= RAW24_MAX
  }

  predicate Usable(r: Record)
  {
    LinearUsable(r.temperature) && LinearUsable(r.current)
  }

  // Encoding.

  function LinearBytes(c: Linear): (b: seq<byte>)
    ensures |b| == 16
  {
    Le(I32ToU32(c.rawZero), 4) + Le(I32ToU32(c.gainNumerator), 4) +
    Le(I32ToU32(c.gainDenominator), 4) + Le(I32ToU32(c.outputOffset), 4)
  }

  /** The 44 bytes that the checksum covers. */
  function Prefix(r: Record): (b: seq<byte>)
    ensures |b| == 44
  {
    Le(MAGIC, 4) + Le(VERSION, 2) + Le(BLOB_SIZE, 2) + Le(r.sequence, 4) +
    LinearBytes(r.temperature) + LinearBytes(r.current)
  }

  function Blob(r: Record): (b: seq<byte>)
    ensures |b| == BLOB_SIZE
  {
    Prefix(r) + Le(Crc32(Prefix(r)), 4)
  }

  function Encode(r: Record): Option<seq<byte>>
  {
    if Usable(r) then Some(Blob(r)) else None
  }

  /** v shifted right by i bytes. */
  function Shr8(v: nat, i: nat): nat
  {
    if i == 0 then v else Shr8(v / 256, i - 1)
  }

  lemma {:induction false} LeDigit(v: nat, n: nat, i: nat)
    requires i < n
    ensures Le(v, n)[i] == Shr8(v, i) % 256
  {
    if i > 0 { LeDigit(v / 256, n - 1, i - 1); }
  }

  /** Overwrites the n bytes at a position with the low bytes of v, as the firmware's put_u16 and put_u32 do. */
  method PutWord(p: array<byte>, at: nat, v: nat, n: nat)
    requires at + n <= p.Length
    modifies p
    ensures p[..] == old(p[..at]) + Le(v, n) + old(p[at + n..])
  {
    for i := 0 to n
      invariant p[..at] == old(p[..at]) && p[at + n..] == old(p[at + n..])
      invariant forall k :: 0 <= k < i ==> p[at + k] == Le(v, n)[k]
    {
      LeDigit(v, n, i);
      p[at + i] := Shr8(v, i) % 256;
    }
    assert p[at..at + n] == Le(v, n);
    assert p[..] == p[..at] + p[at..at + n] + p[at + n..];
  }

  /** Writes the next word behind what has been written so far. */
  method PutNext(p: array<byte>, ghost done: seq<byte>, at: nat, v: nat, n: nat)
    requires at + n <= p.Length && p[..at] == done
    modifies p
    ensures p[..at + n] == done + Le(v, n)
    ensures forall k :: at + n <= k < p.Length ==> p[k] == old(p[k])
  {
    ghost var was := p[..];
    PutWord(p, at, v, n);
    assert forall k :: at + n <= k < p.Length ==> p[..][k] == was[at + n..][k - at - n];
    assert p[..at + n] == p[..][..at + n];
  }

  method PutLinear(p: array<byte>, ghost done: seq<byte>, at: nat, c: Linear)
    requires at + 16 <= p.Length && p[..at] == done
    modifies p
    ensures p[..at + 16] == done + LinearBytes(c)
    ensures forall k :: at + 16 <= k < p.Length ==> p[k] == old(p[k])
  {
    hide Le;
    ghost var a, b, d := Le(I32ToU32(c.rawZero), 4), Le(I32ToU32(c.gainNumerator), 4), Le(I32ToU32(c.gainDenominator), 4);
    PutNext(p, done, at, I32ToU32(c.rawZero), 4);
    PutNext(p, done + a, at + 4, I32ToU32(c.gainNumerator), 4);
    PutNext(p, done + a + b, at + 8, I32ToU32(c.gainDenominator), 4);
    PutNext(p, done + a + b + d, at + 12, I32ToU32(c.outputOffset), 4);
    assert done + a + b + d + Le(I32ToU32(c.outputOffset), 4) == done + LinearBytes(c);
  }

  /** The firmware's encoder: refuses an unusable record, otherwise fills the caller's buffer. */
  method EncodeInto(r: Record, out: array<byte>) returns (ok: bool)
    requires out.Length == BLOB_SIZE
    modifies out
    ensures ok == Encode(r).Some?
    ensures out[..] == if ok then Encode(r).value else old(out[..])
  {
    hide Le, Crc32, LinearBytes;
    if !LinearUsable(r.temperature) || !LinearUsable(r.current) { return false; }
    for i := 0 to BLOB_SIZE
      invariant forall k :: 0 <= k < i ==> out[k] == 0
    {
      out[i] := 0;
    }
    ghost var a, b, c, d := Le(MAGIC, 4), Le(VERSION, 2), Le(BLOB_SIZE, 2), Le(r.sequence, 4);
    ghost var t := LinearBytes(r.temperature);
    PutNext(out, [], 0, MAGIC, 4);
    PutNext(out, a, 4, VERSION, 2);
    PutNext(out, a + b, 6, BLOB_SIZE, 2);
    PutNext(out, a + b + c, 8, r.sequence, 4);
    PutLinear(out, a + b + c + d, 12, r.temperature);
    PutLinear(out, a + b + c + d + t, 28, r.current);
    assert out[..44] == Prefix(r);
    var crc := Crc32Ieee(out[..44]);
    PutNext(out, Prefix(r), 44, crc, 4);
    assert out[..] == out[..48];
    ok := true;
  }

  // Decoding.

  function ReadI32(b: seq<byte>, at: nat): i32
    requires at + 4 <= |b|
  {
    U32ToI32(Read32(b, at))
  }

  function ReadLinear(b: seq<byte>, at: nat): Linear
    requires at + 16 <= |b|
  {
    Linear(ReadI32(b, at), ReadI32(b, at + 4), ReadI32(b, at + 8), ReadI32(b, at + 12))
  }

  function Decode(b: seq<byte>): Option<Record>
  {
    if |b| != BLOB_SIZE then None
    else if Read32(b, 0) != MAGIC then None
    else if Read16(b, 4) != VERSION then None
    else if Read16(b, 6) != BLOB_SIZE then None
    else if Read32(b, 44) != Crc32(b[..44]) then None
    else
      var r := Record(Read32(b, 8), ReadLinear(b, 12), ReadLinear(b, 28));
      if !LinearUsable(r.temperature) || !LinearUsable(r.current) then None else Some(r)
  }

  lemma SliceOfSlice<T>(s: seq<T>, lo: nat, hi: nat, a: nat, b: nat)
    requires a <= b && lo + b <= hi <= |s|
    ensures s[lo..hi][a..b] == s[lo + a..lo + b]
  {
    var x, y := s[lo..hi][a..b], s[lo + a..lo + b];
    assert forall k :: 0 <= k < b - a ==> x[k] == y[k];
    assert x == y;
  }

  lemma ReadLinearBytes(c: Linear, b: seq<byte>, at: nat)
    requires at + 16 <= |b| && b[at..at + 16] == LinearBytes(c)
    ensures ReadLinear(b, at) == c
  {
    hide Le;
    var w := b[at..at + 16];
    SliceOfSlice(b, at, at + 16, 0, 4);
    SliceOfSlice(b, at, at + 16, 4, 8);
    SliceOfSlice(b, at, at + 16, 8, 12);
    SliceOfSlice(b, at, at + 16, 12, 16);
    assert w[0..4] == Le(I32ToU32(c.rawZero), 4) && w[4..8] == Le(I32ToU32(c.gainNumerator), 4);
    assert w[8..12] == Le(I32ToU32(c.gainDenominator), 4) && w[12..16] == Le(I32ToU32(c.outputOffset), 4);
    Read32Of(I32ToU32(c.rawZero), b, at);
    Read32Of(I32ToU32(c.gainNumerator), b, at + 4);
    Read32Of(I32ToU32(c.gainDenominator), b, at + 8);
    Read32Of(I32ToU32(c.outputOffset), b, at + 12);
  }

  lemma LinearBytesRead(b: seq<byte>, at: nat)
    requires at + 16 <= |b|
    ensures LinearBytes(ReadLinear(b, at)) == b[at..at + 16]
  {
    hide ReadI32;
    hide Le, FromLe;
    ReadBackSigned(b, at); ReadBackSigned(b, at + 4); ReadBackSigned(b, at + 8); ReadBackSigned(b, at + 12);
    assert b[at..at + 16] == b[at..at + 4] + b[at + 4..at + 8] + b[at + 8..at + 12] + b[at + 12..at + 16];
  }

  lemma ReadBackSigned(b: seq<byte>, at: nat)
    requires at + 4 <= |b|
    ensures Le(I32ToU32(ReadI32(b, at)), 4) == b[at..at + 4]
  {
    hide Le, FromLe;
    ReadBack(b, at);
  }

  /** Every usable record survives the round trip, negative coefficients included. */
  lemma DecodeEncode(r: Record)
    requires Usable(r)
    ensures Decode(Blob(r)) == Some(r)
  {
    hide Crc32, Le, FromLe;
    var b, p := Blob(r), Prefix(r);
    var crc := Crc32(p);
    assert b[..44] == p;
    assert p[0..4] == b[0..4] == Le(MAGIC, 4) && b[4..6] == Le(VERSION, 2) && b[6..8] == Le(BLOB_SIZE, 2);
    assert b[8..12] == Le(r.sequence, 4) && b[44..48] == Le(crc, 4);
    assert b[12..28] == LinearBytes(r.temperature) && b[28..44] == LinearBytes(r.current);
    Read32Of(MAGIC, b, 0);
    Read16Of(VERSION, b, 4);
    Read16Of(BLOB_SIZE, b, 6);
    Read32Of(r.sequence, b, 8);
    Read32Of(crc, b, 44);
    ReadLinearBytes(r.temperature, b, 12);
    ReadLinearBytes(r.current, b, 28);
  }

  /** Every accepted byte string is the one encoding of the record it decodes to. */
  lemma EncodeDecode(b: seq<byte>)
    requires Decode(b).Some?
    ensures Usable(Decode(b).value) && Blob(Decode(b).value) == b
  {
    hide Crc32, Le, FromLe;
    var r := Decode(b).value;
    ReadBack(b, 0); ReadBack(b, 4); ReadBack(b, 6); ReadBack(b, 8); ReadBack(b, 44);
    LinearBytesRead(b, 12);
    LinearBytesRead(b, 28);
    var p := b[..44];
    assert p == b[0..4] + b[4..6] + b[6..8] + b[8..12] + b[12..28] + b[28..44];
    assert Prefix(r) == p;
    assert b == p + b[44..48];
  }

  /** Accepted blobs and usable records correspond one to one. */
  lemma BlobInjective(r: Record, s: Record)
    requires Usable(r) && Usable(s) && Blob(r) == Blob(s)
    ensures r == s
  {
    DecodeEncode(r);
    DecodeEncode(s);
  }

  lemma DecodedIsChecked(b: seq<byte>)
    requires Decode(b).Some?
    ensures Crc32Theory.Checked(b)
  {
    hide Crc32, Le, FromLe;
    ReadBack(b, 44);
    assert b[44..] == b[44..48];
  }

  /** A stored or sent record with one to four adjacent bytes changed, anywhere, is never accepted. */
  lemma DamagedRecordRefused(p: seq<byte>, burst: seq<byte>, burst': seq<byte>, q: seq<byte>)
    requires |burst| == |burst'| <= 4 && burst != burst'
    requires Decode(p + burst + q).Some?
    ensures Decode(p + burst' + q) == None
  {
    hide Decode, Crc32Theory.Checked;
    DecodedIsChecked(p + burst + q);
    Crc32Theory.Crc32DetectsBurst(p, burst, burst', q);
    if Decode(p + burst' + q).Some? { DecodedIsChecked(p + burst' + q); }
  }

  /** The host tool's encoder: the same layout through struct.pack, after its own range checks. */
  function HostEncode(temperature: (int, int, int, int), current: (int, int, int, int), sequence: u32): Option<seq<byte>>
  {
    if !HostFields(temperature) || !HostFields(current) then None
    else
      var pack := (f: (int, int, int, int)) requires HostFields(f) =>
        Le(I32ToU32(f.0), 4) + Le(I32ToU32(f.1), 4) + Le(I32ToU32(f.2), 4) + Le(I32ToU32(f.3), 4);
      var prefix := Le(MAGIC, 4) + Le(VERSION, 2) + Le(BLOB_SIZE, 2) + Le(sequence, 4) + pack(temperature) + pack(current);
      Some(prefix + Le(Crc32(prefix), 4))
  }

  predicate Int32(v: int)
  {
    -0x8000_0000 <= v < 0x8000_0000
  }

  predicate HostFields(f: (int, int, int, int))
  {
    && Int32(f.0) && Int32(f.1) && Int32(f.2) && Int32(f.3)
    && RAW24_MIN <= f.0 <= RAW24_MAX && f.2 > 0
  }

  /** What the host tool packs, the firmware decodes to the same coefficients, and nothing else is refused. */
  lemma HostBlobDecodes(t: (int, int, int, int), c: (int, int, int, int), sequence: u32)
    ensures HostEncode(t, c, sequence).Some? <==> HostFields(t) && HostFields(c)
    ensures HostFields(t) && HostFields(c) ==>
      Decode(HostEncode(t, c, sequence).value) ==
        Some(Record(sequence, Linear(t.0, t.1, t.2, t.3), Linear(c.0, c.1, c.2, c.3)))
  {
    if HostFields(t) && HostFields(c) {
      var r := Record(sequence, Linear(t.0, t.1, t.2, t.3), Linear(c.0, c.1, c.2, c.3));
      DecodeEncode(r);
      assert HostEncode(t, c, sequence).value == Blob(r);
    }
  }
}
