/** The FSM1 maintenance frames: encoder and byte-at-a-time parser of the maintenance firmware. */
module MaintenanceLink {
  import opened Bits
  import opened Crc
  import Crc32Theory
  import opened CalibrationRecord
  import MaintenanceDevice

  type Frame = MaintenanceDevice.Frame

  const MARK: seq<byte> := [0x46, 0x53, 0x4D, 0x31]
  const LINK_VERSION: byte := 1
  const MAX_PAYLOAD: nat := 192
  const HEADER: nat := 8
  const CRC: nat := 4
  const MAX_FRAME: nat := 204

  predicate Fits(f: Frame)
  {
    |f.payload| <= MAX_PAYLOAD
  }

  function Body(f: Frame): (b: seq<byte>)
    ensures |b| == HEADER + |f.payload|
  {
    MARK + [LINK_VERSION, f.opcode] + Le(|f.payload|, 2) + f.payload
  }

  function Bytes(f: Frame): (b: seq<byte>)
    ensures |b| == HEADER + |f.payload| + CRC
  {
    Body(f) + Le(Crc32(Body(f)), 4)
  }

  /** Fills the caller's buffer; a payload over the limit is refused and leaves the buffer alone. */
  method EncodeFrame(opcode: byte, payload: seq<byte>, out: array<byte>) returns (ok: bool, outSize: nat)
    requires out.Length == MAX_FRAME
    modifies out
    ensures ok == Fits(MaintenanceDevice.Frame(opcode, payload))
    ensures ok ==> outSize <= MAX_FRAME && out[..outSize] == Bytes(MaintenanceDevice.Frame(opcode, payload))
    ensures !ok ==> out[..] == old(out[..])
  {
    hide Le, Crc32;
    outSize := 0;
    if |payload| > MAX_PAYLOAD { return false, 0; }
    for i := 0 to 4
      invariant forall k :: 0 <= k < i ==> out[k] == MARK[k]
    {
      out[i] := MARK[i];
    }
    out[4] := LINK_VERSION;
    out[5] := opcode;
    PutWord(out, 6, |payload|, 2);
    ghost var head := MARK + [LINK_VERSION, opcode] + Le(|payload|, 2);
    assert out[..8] == head;
    for i := 0 to |payload|
      invariant out[..8] == head
      invariant forall k :: 0 <= k < i ==> out[8 + k] == payload[k]
    {
      out[8 + i] := payload[i];
    }
    var bodySize := HEADER + |payload|;
    assert out[8..bodySize] == payload;
    assert out[..bodySize] == out[..8] + out[8..bodySize];
    var crc := Crc32Ieee(out[..bodySize]);
    PutWord(out, bodySize, crc, 4);
    ok, outSize := true, bodySize + CRC;
  }

  lemma BytesAreChecked(f: Frame)
    ensures Crc32Theory.Checked(Bytes(f))
  {
    hide Crc32, Le;
    var b := Bytes(f);
    assert b[..|b| - 4] == Body(f) && b[|b| - 4..] == Le(Crc32(Body(f)), 4);
  }

  /** A frame with one to four adjacent bytes changed, its length field and checksum included, encodes no frame at all. */
  lemma DamagedFrameRefused(f: Frame, p: seq<byte>, burst: seq<byte>, burst': seq<byte>, q: seq<byte>)
    requires |burst| == |burst'| <= 4 && burst != burst' && Bytes(f) == p + burst + q
    ensures forall other: Frame :: Bytes(other) != p + burst' + q
  {
    hide Bytes, Crc32Theory.Checked;
    BytesAreChecked(f);
    Crc32Theory.Crc32DetectsBurst(p, burst, burst', q);
    forall other: Frame
      ensures Bytes(other) != p + burst' + q
    {
      BytesAreChecked(other);
    }
  }

  // The parser, as a step on the bytes it holds.

  datatype Step = Step(held: seq<byte>, frame: Option<Frame>)

  function Restart(b: byte): seq<byte>
  {
    if b == MARK[0] then [b] else []
  }

  /** What the parser may hold: the start of the marker, or a marker and an unfinished frame. */
  predicate InFlight(held: seq<byte>)
  {
    && (forall i :: 0 <= i < |held| && i < 4 ==> held[i] == MARK[i])
    && (|held| >= 5 ==> held[4] == LINK_VERSION)
    && (|held| >= 8 ==> Read16(held, 6) <= MAX_PAYLOAD && |held| < HEADER + Read16(held, 6) + CRC)
  }

  function Feed(held: seq<byte>, b: byte): Step
  {
    if |held| < 4 then Step(if b == MARK[|held|] then held + [b] else Restart(b), None)
    else
      var h := held + [b];
      if |h| == 5 && h[4] != LINK_VERSION then Step(Restart(b), None)
      else if |h| < HEADER then Step(h, None)
      else
        var n := Read16(h, 6);
        if n > MAX_PAYLOAD then Step(Restart(b), None)
        else if |h| < HEADER + n + CRC then Step(h, None)
        else if |h| != HEADER + n + CRC then Step(Restart(b), None)
        else if Read32(h, HEADER + n) != Crc32(h[..HEADER + n]) then Step(Restart(b), None)
        else Step([], Some(MaintenanceDevice.Frame(h[5], h[HEADER..HEADER + n])))
  }

  /** The parser keeps an unfinished frame, with room in the 204-byte buffer for one more byte. */
  lemma FeedInFlight(held: seq<byte>, b: byte)
    requires InFlight(held)
    ensures InFlight(Feed(held, b).held) && |Feed(held, b).held| < MAX_FRAME
  {
    hide Crc32, FromLe;
    var h := held + [b];
    if |held| >= 8 { assert h[6..8] == held[6..8]; }
  }

  function Run(input: seq<byte>): Step
  {
    if input == [] then Step([], None) else Feed(Run(input[..|input| - 1]).held, input[|input| - 1])
  }

  predicate Suffix(t: seq<byte>, s: seq<byte>)
  {
    |t| <= |s| && s[|s| - |t|..] == t
  }

  lemma FeedSuffix(held: seq<byte>, b: byte, s: seq<byte>)
    requires Suffix(held, s)
    ensures Suffix(Feed(held, b).held, s + [b]) && Suffix(held + [b], s + [b])
  {
    hide Crc32, FromLe;
    assert (s + [b])[|s| - |held|..] == held + [b];
  }

  /** After any input the held bytes are exactly the last bytes of the input. */
  lemma {:induction false} HeldIsRecent(input: seq<byte>)
    ensures
      var held := Run(input).held;
      Suffix(held, input) && InFlight(held) && |held| < MAX_FRAME
  {
    hide Feed, InFlight;
    if input == [] {
      assert InFlight([]) by { NothingInFlight(); }
    } else {
      var front, b := input[..|input| - 1], input[|input| - 1];
      HeldIsRecent(front);
      FeedInFlight(Run(front).held, b);
      FeedSuffix(Run(front).held, b, front);
      assert input == front + [b];
    }
  }

  lemma NothingInFlight()
    ensures InFlight([])
  {}

  /** A frame is reported only when the most recent bytes of the input are its encoding. */
  lemma ReportedIsRecent(input: seq<byte>)
    requires Run(input).frame.Some?
    ensures
      var f := Run(input).frame.value;
      Fits(f) && Suffix(Bytes(f), input) && Run(input).held == []
  {
    hide Run, Feed, InFlight, Bytes, Suffix;
    LastStep(input);
    var front, b := input[..|input| - 1], input[|input| - 1];
    HeldIsRecent(front);
    FeedSuffix(Run(front).held, b, front);
    assert input == front + [b];
    ReportedIsHeld(Run(front).held, b);
  }

  lemma ReportedIsHeld(held: seq<byte>, b: byte)
    requires InFlight(held) && Feed(held, b).frame.Some?
    ensures
      var f := Feed(held, b).frame.value;
      Fits(f) && Bytes(f) == held + [b] && Feed(held, b).held == []
  {
    hide Crc32, Le, FromLe;
    var h := held + [b];
    var f := Feed(held, b).frame.value;
    var n := |f.payload|;
    ReadBack(h, 6);
    ReadBack(h, HEADER + n);
    assert h[..4] == MARK;
    assert h[..HEADER + n] == h[..4] + [h[4], h[5]] + h[6..8] + h[8..8 + n];
    assert Body(f) == h[..HEADER + n];
    assert h == h[..HEADER + n] + h[HEADER + n..HEADER + n + 4];
  }

  // Encoded frames come out.

  /** The frames reported so far. */
  function Outputs(input: seq<byte>): seq<Frame>
  {
    if input == [] then []
    else
      var frame := Run(input).frame;
      Outputs(input[..|input| - 1]) + if frame.Some? then [frame.value] else []
  }

  /** One more byte. */
  lemma OneMore(input: seq<byte>, b: byte)
    ensures Run(input + [b]) == Feed(Run(input).held, b)
    ensures
      var frame := Run(input + [b]).frame;
      Outputs(input + [b]) == Outputs(input) + if frame.Some? then [frame.value] else []
  {
    hide Feed;
    assert (input + [b])[..|input|] == input;
  }

  /** A first marker byte fed now would begin a frame. */
  predicate Starts(s: seq<byte>)
  {
    Run(s + [MARK[0]]).held == [MARK[0]]
  }

  /** It does all through the hunt for the marker, and where the version or the high byte of the length is due. */
  lemma StartTaken(s: seq<byte>)
    requires |Run(s).held| <= 4 || |Run(s).held| == 7
    ensures Starts(s)
  {
    hide Run, Crc32, FromLe;
    OneMore(s, MARK[0]);
    var h := Run(s).held + [MARK[0]];
    if |h| == 8 {
      assert h[6..8] == [h[6], MARK[0]];
      LargeWord(h[6], MARK[0]);
    }
  }

  lemma LargeWord(lo: byte, hi: byte)
    ensures FromLe([lo, hi]) == lo + 256 * hi
  {
    assert [lo, hi][1..] == [hi];
    assert FromLe([hi]) == hi;
  }

  lemma StartIsSilent(s: seq<byte>)
    requires Starts(s)
    ensures Outputs(s + [MARK[0]]) == Outputs(s)
  {
    hide Run, Crc32, FromLe;
    OneMore(s, MARK[0]);
    assert Outputs(s) + [] == Outputs(s);
  }

  lemma {:induction false} FrameBuildsUp(s: seq<byte>, f: Frame, data: seq<byte>, k: nat)
    requires Fits(f) && data == Bytes(f) && Starts(s) && 1 <= k < |data|
    ensures Run(s + data[..k]).held == data[..k] && Outputs(s + data[..k]) == Outputs(s)
  {
    hide Feed, Run, Bytes, Outputs;
    if k == 1 {
      HeaderBytes(f, data);
      assert data[..1] == [MARK[0]];
      StartIsSilent(s);
    } else {
      FrameBuildsUp(s, f, data, k - 1);
      FeedGrows(f, data, k);
      var before := s + data[..k - 1];
      OneMore(before, data[k - 1]);
      assert s + data[..k] == before + [data[k - 1]];
      assert Outputs(before) + [] == Outputs(before);
    }
  }

  lemma FeedGrows(f: Frame, data: seq<byte>, k: nat)
    requires Fits(f) && data == Bytes(f) && 0 < k < |data|
    ensures Feed(data[..k - 1], data[k - 1]) == Step(data[..k], None)
  {
    hide Crc32, Le, FromLe, Read16, Read32;
    var h := data[..k];
    assert data[..k - 1] + [data[k - 1]] == h;
    HeaderBytes(f, data);
    if k >= 8 { LengthAt(f, data, h); }
  }

  /** A front that holds the header shows the payload size. */
  lemma LengthAt(f: Frame, data: seq<byte>, h: seq<byte>)
    requires Fits(f) && data == Bytes(f) && 8 <= |h| && h <= data
    ensures Read16(h, 6) == |f.payload|
  {
    hide Bytes, Le;
    HeaderBytes(f, data);
    var w := data[6..8];
    assert h[6] == w[0] && h[7] == w[1];
    WordAt(h, 6, w);
    Read16Of(|f.payload|, h, 6);
  }

  lemma HeaderBytes(f: Frame, data: seq<byte>)
    requires Fits(f) && data == Bytes(f)
    ensures data[..4] == MARK && data[4] == LINK_VERSION && data[5] == f.opcode && data[6..8] == Le(|f.payload|, 2)
    ensures forall i :: 0 <= i < 4 ==> data[i] == MARK[i]
    ensures data[8..8 + |f.payload|] == f.payload && data[..8 + |f.payload|] == Body(f)
    ensures data[8 + |f.payload|..] == Le(Crc32(Body(f)), 4)
  {
    hide Crc32, Le;
    var n, crc := |f.payload|, Le(Crc32(Body(f)), 4);
    assert data == Body(f) + crc;
    WordAt(data, 6, Le(n, 2));
    assert data[..4] == MARK;
    assert data[8..8 + n] == f.payload;
  }

  lemma FeedCompletes(f: Frame)
    requires Fits(f)
    ensures
      var data := Bytes(f);
      Feed(data[..|data| - 1], data[|data| - 1]) == Step([], Some(f))
  {
    hide Crc32, Le, FromLe, Bytes, Body;
    var data, n := Bytes(f), |f.payload|;
    HeaderBytes(f, data);
    assert data[..|data| - 1] + [data[|data| - 1]] == data;
    assert data[8 + n..8 + n + 4] == data[8 + n..];
    Read16Of(n, data, 6);
    Read32Of(Crc32(Body(f)), data, 8 + n);
  }

  lemma LastStep(input: seq<byte>)
    ensures input == [] ==> Run(input) == Step([], None)
    ensures input != [] ==> Run(input) == Feed(Run(input[..|input| - 1]).held, input[|input| - 1])
  {}

  /**
   * An encoded frame whose first byte begins a frame is reported at precisely its last byte and leaves nothing held, so
   * encoding and parsing are inverse on streams.
   */
  lemma FrameReported(s: seq<byte>, f: Frame)
    requires Fits(f) && Starts(s)
    ensures Run(s + Bytes(f)) == Step([], Some(f)) && Outputs(s + Bytes(f)) == Outputs(s) + [f]
  {
    hide Run, Feed, Bytes, Outputs, Starts;
    var data := Bytes(f);
    var k := |data| - 1;
    FrameBuildsUp(s, f, data, k);
    FeedCompletes(f);
    OneMore(s + data[..k], data[k]);
    assert s + data == s + data[..k] + [data[k]];
  }

  // The marker hunt.

  /** The marker ends at position k of the input. */
  predicate MarkEndsAt(input: seq<byte>, k: nat)
  {
    4 <= k <= |input| && input[k - 4..k] == MARK
  }

  ghost predicate NoMarkBefore(input: seq<byte>, n: nat)
  {
    forall k :: 0 <= k < n ==> !MarkEndsAt(input, k)
  }

  /** Up to the first marker, the parser holds the longest start of the marker that the input ends with. */
  lemma {:induction false} HuntHoldsLongest(input: seq<byte>, j: nat)
    requires NoMarkBefore(input, |input|)
    requires j <= 4 && Suffix(MARK[..j], input)
    ensures j <= |Run(input).held| <= 4 && Run(input).held == MARK[..|Run(input).held|]
  {
    hide Feed, Run, Suffix, NoMarkBefore, InFlight;
    if input == [] {
      LastStep([]);
      assert j == 0 by { SuffixEnds(MARK[..j], input); }
    } else {
      var front, b := input[..|input| - 1], input[|input| - 1];
      NoMarkInFront(input);
      var i := if j == 0 then 0 else j - 1;
      SuffixEnds(MARK[..j], input);
      assert MARK[..i] == if j == 0 then [] else MARK[..j][..j - 1];
      assert Suffix(MARK[..i], front) by { if j == 0 { EmptySuffix(front); } }
      HuntHoldsLongest(front, i);
      HeldIsRecent(front);
      var held := Run(front).held;
      SuffixEnds(MARK[..i], front);
      SuffixEnds(held, front);
      assert input == front + [b];
      HuntNotOver(front, b, held);
      LastStep(input);
      assert j > 0 ==> b == MARK[..j][j - 1];
      HuntStep(|held|, j, b);
    }
  }

  lemma SuffixEnds(t: seq<byte>, s: seq<byte>)
    requires Suffix(t, s)
    ensures |t| <= |s|
    ensures t != [] ==> s[|s| - 1] == t[|t| - 1] && Suffix(t[..|t| - 1], s[..|s| - 1])
  {
    if t != [] { assert s[..|s| - 1][|s| - |t|..] == s[|s| - |t|..][..|t| - 1]; }
  }

  lemma EmptySuffix(s: seq<byte>)
    ensures Suffix([], s)
  {}

  /** With the whole marker held, the marker would have ended before the last byte. */
  lemma HuntNotOver(front: seq<byte>, b: byte, held: seq<byte>)
    requires NoMarkBefore(front + [b], |front + [b]|) && Suffix(held, front) && |held| <= 4 && held == MARK[..|held|]
    ensures |held| < 4
  {
    WholeMarkHeld(front, b, held);
    assert !MarkEndsAt(front + [b], |front|);
  }

  lemma WholeMarkHeld(front: seq<byte>, b: byte, held: seq<byte>)
    requires Suffix(held, front) && |held| <= 4 && held == MARK[..|held|]
    ensures |held| == 4 ==> MarkEndsAt(front + [b], |front|)
  {
    if |held| == 4 {
      assert MARK[..4] == MARK;
      assert (front + [b])[|front| - 4..|front|] == front[|front| - 4..];
    }
  }

  /** The letters of the marker differ, so a failed match can only start again at its last byte. */
  lemma HuntStep(h: nat, j: nat, b: byte)
    requires h < 4 && j <= 4 && (j > 0 ==> j - 1 <= h && b == MARK[j - 1])
    requires j > 1 ==> MARK[j - 2] == MARK[h - 1]
    ensures j <= |Feed(MARK[..h], b).held| <= 4
    ensures Feed(MARK[..h], b).held == MARK[..|Feed(MARK[..h], b).held|]
  {}

  lemma NoMarkInFront(input: seq<byte>)
    requires input != [] && NoMarkBefore(input, |input|)
    ensures NoMarkBefore(input[..|input| - 1], |input| - 1)
  {
    var front := input[..|input| - 1];
    forall k | 0 <= k < |front| ensures !MarkEndsAt(front, k) {
      assert !MarkEndsAt(input, k);
      assert k >= 4 ==> front[k - 4..k] == input[k - 4..k];
    }
  }

  /** The hunt ends with the whole marker held exactly when its first occurrence in the input is complete. */
  lemma FirstMarkFound(input: seq<byte>)
    requires NoMarkBefore(input, |input|)
    ensures |Run(input).held| <= 4
    ensures Run(input).held == MARK <==> MarkEndsAt(input, |input|)
  {
    hide Run;
    assert Suffix(MARK[..0], input);
    HuntHoldsLongest(input, 0);
    HeldIsRecent(input);
    if MarkEndsAt(input, |input|) {
      assert MARK[..4] == MARK;
      HuntHoldsLongest(input, 4);
    }
  }

  // The parser as an object.

  class MaintenanceFrameParser {
    const buffer: array<byte>
    var size: nat
    var expectedSize: nat
    ghost var history: seq<byte>

    ghost predicate Valid()
      reads this, buffer
    {
      && buffer.Length == MAX_FRAME && size < MAX_FRAME && buffer[..size] == Run(history).held
      && expectedSize == if size < HEADER then 0 else HEADER + Read16(buffer[..size], 6) + CRC
    }

    constructor ()
      ensures Valid() && history == [] && fresh(buffer)
    {
      buffer := new byte[MAX_FRAME](_ => 0);
      size, expectedSize := 0, 0;
      history := [];
    }

    method Reset()
      requires buffer.Length == MAX_FRAME
      modifies this
      ensures Valid() && history == [] && size == 0
    {
      size, expectedSize := 0, 0;
      history := [];
    }

    method RestartWith(b: byte)
      requires buffer.Length == MAX_FRAME
      modifies this`size, this`expectedSize, buffer
      ensures size <= 1 && expectedSize == 0 && buffer[..size] == Restart(b)
    {
      size, expectedSize := 0, 0;
      if b == MARK[0] {
        buffer[0] := b;
        size := 1;
      }
    }

    /** The firmware's guards against a full buffer and an overshot frame never fire. */
    method FeedByte(b: byte) returns (frame: Option<Frame>)
      requires Valid()
      modifies this, buffer
      ensures Valid() && history == old(history) + [b] && frame == Run(history).frame
    {
      hide Run, Feed, InFlight;
      ghost var was, before := buffer[..size], history;
      history := history + [b];
      assert history[..|history| - 1] == before;
      LastStep(history);
      HeldIsRecent(before);
      HeldIsRecent(history);
      frame := Extend(b);
    }

    method Hunt(b: byte)
      requires buffer.Length == MAX_FRAME && size < 4 && expectedSize == 0
      modifies this`size, this`expectedSize, buffer
      ensures size <= 4 && expectedSize == 0 && buffer[..size] == Feed(old(buffer[..size]), b).held
    {
      hide Crc32, FromLe, Read16, Read32;
      ghost var h := buffer[..size] + [b];
      if b == MARK[size] {
        buffer[size] := b;
        size := size + 1;
        assert buffer[..size] == h;
      } else {
        RestartWith(b);
      }
    }

    method Extend(b: byte) returns (frame: Option<Frame>)
      requires buffer.Length == MAX_FRAME && size < MAX_FRAME && InFlight(buffer[..size])
      requires expectedSize == if size < HEADER then 0 else HEADER + Read16(buffer[..size], 6) + CRC
      modifies this`size, this`expectedSize, buffer
      ensures size <= MAX_FRAME && Step(buffer[..size], frame) == Feed(old(buffer[..size]), b)
      ensures expectedSize == if size < HEADER then 0 else HEADER + Read16(buffer[..size], 6) + CRC
    {
      hide Crc32, FromLe, Read16, Read32;
      ghost var was := buffer[..size];
      ghost var h := was + [b];
      LengthStays(was, b);
      if size < 4 {
        Hunt(b);
        return None;
      }
      buffer[size] := b;
      size := size + 1;
      assert buffer[..size] == h;
      if size == 5 && buffer[4] != LINK_VERSION {
        RestartWith(b);
        return None;
      }
      if size == HEADER {
        var payloadSize := Read16(buffer[..size], 6);
        if payloadSize > MAX_PAYLOAD {
          RestartWith(b);
          return None;
        }
        expectedSize := HEADER + payloadSize + CRC;
      }
      if expectedSize == 0 || size < expectedSize { return None; }
      assert size == expectedSize;
      var claimed := Read32(buffer[..size], expectedSize - CRC);
      var computed := Crc32Ieee(buffer[..expectedSize - CRC]);
      assert buffer[..expectedSize - CRC] == h[..expectedSize - CRC];
      if claimed != computed {
        RestartWith(b);
        return None;
      }
      var payloadSize := Read16(buffer[..size], 6);
      frame := Some(MaintenanceDevice.Frame(buffer[5], buffer[HEADER..HEADER + payloadSize]));
      assert buffer[HEADER..HEADER + payloadSize] == h[HEADER..HEADER + payloadSize];
      size, expectedSize := 0, 0;
    }
  }

  lemma LengthStays(held: seq<byte>, b: byte)
    requires InFlight(held)
    ensures |held| >= 8 ==> Read16(held + [b], 6) == Read16(held, 6)
    ensures |held| >= 8 ==> |held| < HEADER + Read16(held, 6) + CRC && Read16(held, 6) <= MAX_PAYLOAD
  {
    if |held| >= 8 { assert (held + [b])[6..8] == held[6..8]; }
  }
}
