/**
 * The host's resynchronising stream decoder. The specification is one left-to-right scan of the whole byte stream; the
 * decoder works on chunks, a bounded buffer and bulk searches for the start marker.
 */
module StreamDecoder {
  import opened Bits
  import opened CalibrationRecord
  import opened LinkFrame

  datatype Loss = Garbage | Oversize | Corrupt

  datatype Action = Wait | Drop(loss: Loss) | Emit(frame: Frame)

  datatype Stats = Stats(framesOk: nat, errors: nat, discarded: nat, oversize: nat)

  const NO_STATS := Stats(0, 0, 0, 0)

  /** What has come out of a stream: the frames, the counters and the bytes still held back. */
  datatype Tally = Tally(frames: seq<Frame>, stats: Stats, rest: seq<byte>)

  function FrameSize(f: Frame): nat
  {
    HEADER_SIZE + |f.payload| + CRC_SIZE
  }

  /** What to do at the front of the buffered bytes. */
  function Next(b: seq<byte>, maxPayload: nat): (a: Action)
    ensures a.Emit? ==> FrameSize(a.frame) <= |b|
    ensures a.Drop? ==> b != []
  {
    if b == [] then Wait
    else if b[0] != SOF0 then Drop(Garbage)
    else if |b| == 1 then Wait
    else if b[1] != SOF1 then Drop(Garbage)
    else if |b| < HEADER_SIZE then Wait
    else
      var n := Read16(b, 6);
      if n > maxPayload then Drop(Oversize)
      else
        var total := HEADER_SIZE + n + CRC_SIZE;
        if |b| < total then Wait
        else
          match DecodeFrame(b[..total], PROTOCOL_VERSION)
          case None => Drop(Corrupt)
          case Some(f) => EmittedSize(b[..total]); Emit(f)
  }

  lemma EmittedSize(data: seq<byte>)
    requires DecodeFrame(data, PROTOCOL_VERSION).Some?
    ensures FrameSize(DecodeFrame(data, PROTOCOL_VERSION).value) == |data|
  {}

  function Plus(s: Stats, t: Stats): Stats
  {
    Stats(s.framesOk + t.framesOk, s.errors + t.errors, s.discarded + t.discarded, s.oversize + t.oversize)
  }

  function CostOf(loss: Loss): Stats
  {
    match loss
    case Garbage => Stats(0, 0, 1, 0)
    case Oversize => Stats(0, 0, 1, 1)
    case Corrupt => Stats(0, 1, 1, 0)
  }

  /** The scan of a whole byte stream from left to right. */
  function Scan(b: seq<byte>, maxPayload: nat): Tally
    decreases |b|
  {
    match Next(b, maxPayload)
    case Wait => Tally([], NO_STATS, b)
    case Drop(loss) =>
      var t := Scan(b[1..], maxPayload);
      Tally(t.frames, Plus(CostOf(loss), t.stats), t.rest)
    case Emit(f) =>
      var t := Scan(b[FrameSize(f)..], maxPayload);
      Tally([f] + t.frames, Plus(Stats(1, 0, 0, 0), t.stats), t.rest)
  }

  function Then(t: Tally, u: Tally): Tally
  {
    Tally(t.frames + u.frames, Plus(t.stats, u.stats), u.rest)
  }

  // The scan can be cut anywhere.

  /** A decision once taken is not changed by bytes that arrive later. */
  lemma DecisionStands(b: seq<byte>, more: seq<byte>, maxPayload: nat)
    requires !Next(b, maxPayload).Wait?
    ensures Next(b + more, maxPayload) == Next(b, maxPayload)
  {
    hide DecodeFrame, FromLe;
    if |b| >= HEADER_SIZE {
      assert (b + more)[6..8] == b[6..8];
      var total := HEADER_SIZE + Read16(b, 6) + CRC_SIZE;
      if |b| >= total { assert (b + more)[..total] == b[..total]; }
    }
  }

  // One step of the scan.

  lemma ScanWait(b: seq<byte>, maxPayload: nat)
    requires Next(b, maxPayload) == Wait
    ensures Scan(b, maxPayload) == Tally([], NO_STATS, b)
  {
    hide Next;
  }

  lemma ScanDrop(b: seq<byte>, maxPayload: nat)
    requires Next(b, maxPayload).Drop?
    ensures Scan(b, maxPayload) ==
            Then(Tally([], CostOf(Next(b, maxPayload).loss), []), Scan(b[1..], maxPayload))
  {
    hide Next;
  }

  lemma ScanEmit(b: seq<byte>, maxPayload: nat)
    requires Next(b, maxPayload).Emit?
    ensures
      var f := Next(b, maxPayload).frame;
      Scan(b, maxPayload) == Then(Tally([f], Stats(1, 0, 0, 0), []), Scan(b[FrameSize(f)..], maxPayload))
  {
    hide Next;
  }

  lemma ThenAssoc(t: Tally, u: Tally, v: Tally)
    ensures Then(Then(t, u), v) == Then(t, Then(u, v))
  {
    assert t.frames + u.frames + v.frames == t.frames + (u.frames + v.frames);
  }

  lemma {:induction false} ScanSplit(s: seq<byte>, t: seq<byte>, maxPayload: nat)
    ensures Scan(s + t, maxPayload) == Then(Scan(s, maxPayload), Scan(Scan(s, maxPayload).rest + t, maxPayload))
    decreases |s|, 0
  {
    hide Next, Scan, Then;
    match Next(s, maxPayload)
    case Wait =>
      ScanWait(s, maxPayload);
      ThenNothing(s, Scan(s + t, maxPayload));
    case Drop(loss) =>
      DecisionStands(s, t, maxPayload);
      ScanDrop(s, maxPayload); ScanDrop(s + t, maxPayload);
      assert (s + t)[1..] == s[1..] + t;
      SplitAfter(s[1..], t, Tally([], CostOf(loss), []), maxPayload);
    case Emit(f) =>
      DecisionStands(s, t, maxPayload);
      ScanEmit(s, maxPayload); ScanEmit(s + t, maxPayload);
      assert (s + t)[FrameSize(f)..] == s[FrameSize(f)..] + t;
      SplitAfter(s[FrameSize(f)..], t, Tally([f], Stats(1, 0, 0, 0), []), maxPayload);
  }

  /** The induction step: a first decision put in front of a stream that can be cut. */
  lemma {:induction false} SplitAfter(s: seq<byte>, t: seq<byte>, first: Tally, maxPayload: nat)
    ensures Then(first, Scan(s + t, maxPayload)) ==
            Then(Then(first, Scan(s, maxPayload)), Scan(Then(first, Scan(s, maxPayload)).rest + t, maxPayload))
    decreases |s|, 1
  {
    hide Next, Scan;
    ScanSplit(s, t, maxPayload);
    var u := Scan(s, maxPayload);
    ThenAssoc(first, u, Scan(u.rest + t, maxPayload));
  }

  lemma ThenNothing(s: seq<byte>, u: Tally)
    ensures Then(Tally([], NO_STATS, s), u) == u
  {}

  /** What a scan holds back is an undecided front, never longer than the largest frame less one byte. */
  lemma {:induction false} RestWaits(b: seq<byte>, maxPayload: nat)
    ensures Next(Scan(b, maxPayload).rest, maxPayload) == Wait
    ensures |Scan(b, maxPayload).rest| <= maxPayload + HEADER_SIZE + CRC_SIZE - 1
    decreases |b|
  {
    match Next(b, maxPayload)
    case Wait =>
    case Drop(_) => hide Next; RestWaits(b[1..], maxPayload);
    case Emit(f) => hide Next; RestWaits(b[FrameSize(f)..], maxPayload);
  }

  // The decoder.

  /** What scanning b adds to frames and counters. */
  function Outlook(frames: seq<Frame>, stats: Stats, b: seq<byte>, maxPayload: nat): Tally
  {
    var t := Scan(b, maxPayload);
    Tally(frames + t.frames, Plus(stats, t.stats), t.rest)
  }

  /**
   * One call of the decoder on its state as a value: everything emitted so far, the counters and the buffer. Bytes over
   * the buffer limit are discarded from the front.
   */
  function Fed(t: Tally, chunk: seq<byte>, maxPayload: nat, maxBuffer: nat): Tally
  {
    var grown := t.rest + chunk;
    var over := if |grown| > maxBuffer then |grown| - maxBuffer else 0;
    Outlook(t.frames, Plus(t.stats, Lost(over)), grown[over..], maxPayload)
  }

  function Lost(n: nat): Stats
  {
    Stats(0, 0, n, 0)
  }

  predicate MarkerAt(b: seq<byte>, i: nat)
  {
    i + 1 < |b| && b[i] == SOF0 && b[i + 1] == SOF1
  }

  lemma OutlookDrop(frames: seq<Frame>, stats: Stats, b: seq<byte>, maxPayload: nat)
    requires Next(b, maxPayload).Drop?
    ensures Outlook(frames, stats, b, maxPayload) ==
            Outlook(frames, Plus(stats, CostOf(Next(b, maxPayload).loss)), b[1..], maxPayload)
  {
    hide Next, Scan;
    ScanDrop(b, maxPayload);
  }

  lemma OutlookEmit(frames: seq<Frame>, stats: Stats, b: seq<byte>, maxPayload: nat)
    requires Next(b, maxPayload).Emit?
    ensures
      var f := Next(b, maxPayload).frame;
      Outlook(frames, stats, b, maxPayload) ==
      Outlook(frames + [f], Plus(stats, Stats(1, 0, 0, 0)), b[FrameSize(f)..], maxPayload)
  {
    hide Next, Scan;
    ScanEmit(b, maxPayload);
  }

  /** Dropping garbage one byte at a time is the same as cutting it off at once. */
  lemma {:induction false} SkipGarbage(frames: seq<Frame>, stats: Stats, b: seq<byte>, k: nat, maxPayload: nat)
    requires k <= |b| && forall i :: 0 <= i < k ==> !MarkerAt(b, i)
    requires k == |b| > 0 ==> b[k - 1] != SOF0
    ensures Outlook(frames, stats, b, maxPayload) == Outlook(frames, Plus(stats, Lost(k)), b[k..], maxPayload)
    decreases k
  {
    hide Next, Scan, Outlook;
    if k == 0 {
      assert b[0..] == b;
    } else {
      assert !MarkerAt(b, 0);
      GarbageFront(b, maxPayload, k);
      OutlookDrop(frames, stats, b, maxPayload);
      forall i | 0 <= i < k - 1 ensures !MarkerAt(b[1..], i) { assert !MarkerAt(b, i + 1); }
      SkipGarbage(frames, Plus(stats, Lost(1)), b[1..], k - 1, maxPayload);
      assert b[1..][k - 1..] == b[k..];
    }
  }

  lemma GarbageFront(b: seq<byte>, maxPayload: nat, k: nat)
    requires 0 < k <= |b| && !MarkerAt(b, 0)
    requires k == |b| > 0 ==> b[k - 1] != SOF0
    ensures Next(b, maxPayload) == Drop(Garbage)
  {}

  /** The decision at a start marker, in the decoder's order of tests. */
  lemma DecisionAtMarker(b: seq<byte>, maxPayload: nat)
    requires MarkerAt(b, 0) && |b| >= HEADER_SIZE
    ensures
      var n := Read16(b, 6);
      var total := HEADER_SIZE + n + CRC_SIZE;
      if n > maxPayload then Next(b, maxPayload) == Drop(Oversize)
      else if |b| < total then Next(b, maxPayload) == Wait
      else if DecodeFrame(b[..total], PROTOCOL_VERSION) == None then Next(b, maxPayload) == Drop(Corrupt)
      else
        var f := DecodeFrame(b[..total], PROTOCOL_VERSION).value;
        Next(b, maxPayload) == Emit(f) && FrameSize(f) == total
  {
    hide DecodeFrame;
    var total := HEADER_SIZE + Read16(b, 6) + CRC_SIZE;
    if |b| >= total && DecodeFrame(b[..total], PROTOCOL_VERSION).Some? { EmittedSize(b[..total]); }
  }

  lemma ShortMarkerWaits(b: seq<byte>, maxPayload: nat)
    requires MarkerAt(b, 0) && |b| < HEADER_SIZE
    ensures Next(b, maxPayload) == Wait
  {}

  class Decoder {
    const maxPayload: nat
    const maxBuffer: nat
    var buffer: seq<byte>
    var stats: Stats
    ghost var emitted: seq<Frame>

    ghost function Now(): Tally
      reads this
    {
      Tally(emitted, stats, buffer)
    }

    /** Between calls the buffer holds an undecided front. */
    ghost predicate Valid()
      reads this
    {
      && Next(buffer, maxPayload) == Wait && |buffer| <= maxBuffer && maxBuffer >= HEADER_SIZE + CRC_SIZE
    }

    constructor (maxPayload: nat, maxBuffer: nat)
      requires maxPayload <= 0xFFFF && maxBuffer >= HEADER_SIZE + CRC_SIZE
      ensures Valid() && Now() == Tally([], NO_STATS, [])
      ensures this.maxPayload == maxPayload && this.maxBuffer == maxBuffer
    {
      this.maxPayload := maxPayload;
      this.maxBuffer := maxBuffer;
      buffer := [];
      stats := NO_STATS;
      emitted := [];
    }

    method Reset()
      requires Valid()
      modifies this
      ensures Valid() && Now() == old(Now()).(rest := [])
    {
      buffer := [];
    }

    /** The first start marker, or the length of the buffer when there is none. */
    method Find() returns (index: nat)
      ensures index <= |buffer| && (forall i :: 0 <= i < index ==> !MarkerAt(buffer, i))
      ensures index < |buffer| ==> MarkerAt(buffer, index)
    {
      index := 0;
      while index < |buffer| && !MarkerAt(buffer, index)
        invariant index <= |buffer| && (forall i :: 0 <= i < index ==> !MarkerAt(buffer, i))
      {
        index := index + 1;
      }
    }

    method DiscardUntilSof() returns (found: bool)
      modifies this
      ensures found ==> MarkerAt(buffer, 0)
      ensures !found ==> Next(buffer, maxPayload) == Wait
      ensures |buffer| <= old(|buffer|) && emitted == old(emitted)
      ensures Outlook(emitted, stats, buffer, maxPayload) == old(Outlook(emitted, stats, buffer, maxPayload))
    {
      hide Scan, DecodeFrame, Outlook;
      ghost var before := buffer;
      var index := Find();
      found := index < |buffer|;
      if !found {
        var keep := if buffer != [] && buffer[|buffer| - 1] == SOF0 then 1 else 0;
        index := |buffer| - keep;
      }
      SkipGarbage(emitted, stats, buffer, index, maxPayload);
      buffer := buffer[index..];
      stats := stats.(discarded := stats.discarded + index);
      assert found ==> MarkerAt(before, index) && buffer[0] == before[index] && buffer[1] == before[index + 1];
    }

    /** Takes a chunk and returns the frames it completes. */
    method Feed(chunk: seq<byte>) returns (frames: seq<Frame>)
      requires Valid()
      modifies this
      ensures Valid()
      ensures Now() == Fed(old(Now()), chunk, maxPayload, maxBuffer)
      ensures emitted == old(emitted) + frames
    {
      hide Scan, DecodeFrame, Next, Outlook;
      buffer := buffer + chunk;
      if |buffer| > maxBuffer {
        var overflow := |buffer| - maxBuffer;
        buffer := buffer[overflow..];
        stats := stats.(discarded := stats.discarded + overflow);
      }
      frames := [];
      ghost var goal := Outlook(emitted, stats, buffer, maxPayload);
      assert goal == Fed(old(Now()), chunk, maxPayload, maxBuffer) by { assert (old(buffer) + chunk)[0..] == old(buffer) + chunk; }
      while true
        invariant |buffer| <= maxBuffer && emitted == old(emitted) + frames
        invariant Outlook(emitted, stats, buffer, maxPayload) == goal
        decreases |buffer|
      {
        var found := DiscardUntilSof();
        if !found { break; }
        if |buffer| < HEADER_SIZE { ShortMarkerWaits(buffer, maxPayload); break; }
        DecisionAtMarker(buffer, maxPayload);
        var payloadLength := Read16(buffer, 6);
        if payloadLength > maxPayload {
          OutlookDrop(emitted, stats, buffer, maxPayload);
          buffer := buffer[1..];
          stats := stats.(discarded := stats.discarded + 1, oversize := stats.oversize + 1);
          continue;
        }
        var total := HEADER_SIZE + payloadLength + CRC_SIZE;
        if |buffer| < total { break; }
        var candidate := DecodeFrame(buffer[..total], PROTOCOL_VERSION);
        if candidate == None {
          OutlookDrop(emitted, stats, buffer, maxPayload);
          buffer := buffer[1..];
          stats := stats.(discarded := stats.discarded + 1, errors := stats.errors + 1);
          continue;
        }
        OutlookEmit(emitted, stats, buffer, maxPayload);
        buffer := buffer[total..];
        stats := stats.(framesOk := stats.framesOk + 1);
        frames := frames + [candidate.value];
        emitted := emitted + [candidate.value];
      }
      OutlookWait(emitted, stats, buffer, maxPayload);
    }
  }

  lemma OutlookWait(frames: seq<Frame>, stats: Stats, b: seq<byte>, maxPayload: nat)
    requires Next(b, maxPayload) == Wait
    ensures Outlook(frames, stats, b, maxPayload) == Tally(frames, stats, b)
  {
    hide Next, Scan;
    ScanWait(b, maxPayload);
  }

  // Runs of the decoder.

  function FedAll(chunks: seq<seq<byte>>, maxPayload: nat, maxBuffer: nat): Tally
  {
    if chunks == [] then Tally([], NO_STATS, [])
    else Fed(FedAll(chunks[..|chunks| - 1], maxPayload, maxBuffer), chunks[|chunks| - 1], maxPayload, maxBuffer)
  }

  function Flat(chunks: seq<seq<byte>>): seq<byte>
  {
    if chunks == [] then [] else Flat(chunks[..|chunks| - 1]) + chunks[|chunks| - 1]
  }

  /**
   * Chunk independence: however a stream is cut into chunks of at most maxBuffer - (maxPayload + 13) bytes, the frames,
   * the counters and the held-back bytes are those of one scan of the whole stream.
   */
  lemma {:induction false} ChunkIndependence(chunks: seq<seq<byte>>, maxPayload: nat, maxBuffer: nat)
    requires forall c :: c in chunks ==> |c| + maxPayload + 13 <= maxBuffer
    ensures FedAll(chunks, maxPayload, maxBuffer) == Scan(Flat(chunks), maxPayload)
  {
    hide Scan, Next;
    if chunks == [] {
      ScanWait([], maxPayload) by { assert Next([], maxPayload) == Wait by { NothingWaits(maxPayload); } }
    } else {
      var front, last := chunks[..|chunks| - 1], chunks[|chunks| - 1];
      ChunkIndependence(front, maxPayload, maxBuffer);
      RestWaits(Flat(front), maxPayload);
      ScanSplit(Flat(front), last, maxPayload);
      var t := Scan(Flat(front), maxPayload);
      assert last in chunks;
      assert (t.rest + last)[0..] == t.rest + last;
    }
  }

  lemma NothingWaits(maxPayload: nat)
    ensures Next([], maxPayload) == Wait
  {}

  function TotalSize(frames: seq<Frame>): nat
  {
    if frames == [] then 0 else TotalSize(frames[..|frames| - 1]) + FrameSize(frames[|frames| - 1])
  }

  lemma {:induction false} TotalSizeAppend(p: seq<Frame>, q: seq<Frame>)
    ensures TotalSize(p + q) == TotalSize(p) + TotalSize(q)
  {
    if q == [] {
      assert p + q == p;
    } else {
      TotalSizeAppend(p, q[..|q| - 1]);
      assert (p + q)[..|p + q| - 1] == p + q[..|q| - 1];
    }
  }

  /** Every one of n bytes is accounted for. */
  predicate Accounts(t: Tally, n: nat)
  {
    && n == t.stats.discarded + TotalSize(t.frames) + |t.rest|
    && t.stats.framesOk == |t.frames| && t.stats.errors + t.stats.oversize <= t.stats.discarded
  }

  lemma {:induction false} ScanAccounts(b: seq<byte>, maxPayload: nat)
    ensures Accounts(Scan(b, maxPayload), |b|)
    decreases |b|
  {
    hide Next, Scan;
    match Next(b, maxPayload)
    case Wait => ScanWait(b, maxPayload);
    case Drop(_) =>
      ScanDrop(b, maxPayload);
      ScanAccounts(b[1..], maxPayload);
      assert [] + Scan(b[1..], maxPayload).frames == Scan(b[1..], maxPayload).frames;
    case Emit(f) =>
      ScanEmit(b, maxPayload);
      ScanAccounts(b[FrameSize(f)..], maxPayload);
      TotalSizeAppend([f], Scan(b[FrameSize(f)..], maxPayload).frames);
      assert TotalSize([f]) == FrameSize(f);
  }

  /**
   * Conservation, for chunks of any size and with or without overflow: bytes fed are bytes discarded, bytes of emitted
   * frames or bytes still buffered.
   */
  lemma {:induction false} BytesConserved(chunks: seq<seq<byte>>, maxPayload: nat, maxBuffer: nat)
    ensures Accounts(FedAll(chunks, maxPayload, maxBuffer), |Flat(chunks)|)
  {
    hide Scan;
    if chunks != [] {
      var front, last := chunks[..|chunks| - 1], chunks[|chunks| - 1];
      BytesConserved(front, maxPayload, maxBuffer);
      var t := FedAll(front, maxPayload, maxBuffer);
      var grown := t.rest + last;
      var over := if |grown| > maxBuffer then |grown| - maxBuffer else 0;
      var u := Scan(grown[over..], maxPayload);
      ScanAccounts(grown[over..], maxPayload);
      TotalSizeAppend(t.frames, u.frames);
    }
  }

  // Resynchronisation.

  /** The scan of b decides at offset k. */
  predicate Reaches(b: seq<byte>, k: nat, maxPayload: nat)
    decreases |b|
  {
    k == 0 ||
    match Next(b, maxPayload)
    case Wait => false
    case Drop(_) => Reaches(b[1..], k - 1, maxPayload)
    case Emit(f) => FrameSize(f) <= k && Reaches(b[FrameSize(f)..], k - FrameSize(f), maxPayload)
  }

  /** An accepted frame starts before offset k and ends after it. */
  ghost predicate Overlapped(b: seq<byte>, k: nat, maxPayload: nat)
  {
    exists p: nat :: p < k <= |b| && FrameOver(b, p, k, maxPayload)
  }

  predicate FrameOver(b: seq<byte>, p: nat, k: nat, maxPayload: nat)
    requires p < k <= |b|
  {
    && Reaches(b, p, maxPayload) && Next(b[p..], maxPayload).Emit?
    && p + FrameSize(Next(b[p..], maxPayload).frame) > k
  }

  /** A frame that the scan reaches is emitted right there. */
  lemma {:induction false} ReachedIsEmitted(b: seq<byte>, k: nat, maxPayload: nat)
    requires k <= |b| && Reaches(b, k, maxPayload)
    ensures exists before :: Scan(b, maxPayload).frames == before + Scan(b[k..], maxPayload).frames
    decreases |b|
  {
    hide Next;
    if k == 0 {
      assert b[0..] == b;
      assert Scan(b, maxPayload).frames == [] + Scan(b[k..], maxPayload).frames;
    } else {
      match Next(b, maxPayload)
      case Drop(_) =>
        ReachedIsEmitted(b[1..], k - 1, maxPayload);
        assert b[1..][k - 1..] == b[k..];
      case Emit(f) =>
        var n := FrameSize(f);
        ReachedIsEmitted(b[n..], k - n, maxPayload);
        assert b[n..][k - n..] == b[k..];
        var before :| Scan(b[n..], maxPayload).frames == before + Scan(b[k..], maxPayload).frames;
        assert Scan(b, maxPayload).frames == ([f] + before) + Scan(b[k..], maxPayload).frames;
    }
  }

  lemma EnoughToDecide(b: seq<byte>, maxPayload: nat)
    requires |b| >= HEADER_SIZE + maxPayload + CRC_SIZE
    ensures !Next(b, maxPayload).Wait?
  {
    hide DecodeFrame, FromLe;
  }

  /** With enough bytes behind offset k the scan decides there, unless an accepted frame carries it past. */
  lemma {:induction false} NeverStalls(b: seq<byte>, k: nat, maxPayload: nat)
    requires k <= |b| && |b| + 1 >= k + HEADER_SIZE + maxPayload + CRC_SIZE
    ensures Reaches(b, k, maxPayload) || Overlapped(b, k, maxPayload)
    decreases k
  {
    hide Next, Overlapped;
    if k > 0 {
      EnoughToDecide(b, maxPayload);
      match Next(b, maxPayload)
      case Drop(_) =>
        NeverStalls(b[1..], k - 1, maxPayload);
        OverlapMoves(b, 1, k, maxPayload);
      case Emit(f) =>
        if FrameSize(f) > k {
          OverlapsAtOnce(b, k, maxPayload);
        } else {
          NeverStalls(b[FrameSize(f)..], k - FrameSize(f), maxPayload);
          OverlapMoves(b, FrameSize(f), k, maxPayload);
        }
    }
  }

  lemma OverlapsAtOnce(b: seq<byte>, k: nat, maxPayload: nat)
    requires 0 < k <= |b| && Next(b, maxPayload).Emit? && FrameSize(Next(b, maxPayload).frame) > k
    ensures Overlapped(b, k, maxPayload)
  {
    hide Next;
    assert b[0..] == b;
    assert FrameOver(b, 0, k, maxPayload);
  }

  /** The first decision takes n bytes; what overlaps in the rest overlaps in the whole. */
  lemma OverlapMoves(b: seq<byte>, n: nat, k: nat, maxPayload: nat)
    requires n <= k <= |b|
    requires
      match Next(b, maxPayload)
      case Wait => false
      case Drop(_) => n == 1
      case Emit(f) => n == FrameSize(f)
    ensures Overlapped(b[n..], k - n, maxPayload) ==> Overlapped(b, k, maxPayload)
  {
    hide Next;
    if Overlapped(b[n..], k - n, maxPayload) {
      var p: nat :| p < k - n <= |b[n..]| && FrameOver(b[n..], p, k - n, maxPayload);
      assert b[n..][p..] == b[p + n..];
      assert FrameOver(b, p + n, k, maxPayload);
    }
  }

  /** A frame the decoder can take: protocol version 1 and a payload within the limit. */
  predicate Receivable(f: Frame, maxPayload: nat)
  {
    f.version == PROTOCOL_VERSION && |f.payload| <= maxPayload && |f.payload| <= 0xFFFF
  }

  lemma FrameFront(f: Frame, tail: seq<byte>, maxPayload: nat)
    requires Receivable(f, maxPayload)
    ensures Next(Bytes(f) + tail, maxPayload) == Emit(f)
  {
    var b := Bytes(f);
    DecodeBytes(f);
    assert Next(b, maxPayload) == Emit(f) by {
      hide DecodeFrame, FromLe, Le;
      assert b[6..8] == Le(|f.payload|, 2);
      Read16Of(|f.payload|, b, 6);
      assert b[..|b|] == b;
    }
    DecisionStands(b, tail, maxPayload);
  }

  ghost predicate Contains(frames: seq<Frame>, f: Frame, after: seq<Frame>)
  {
    exists before :: frames == before + ([f] + after)
  }

  /**
   * Resynchronisation: after any garbage, a valid frame followed by enough bytes is emitted, and scanning goes on
   * behind it, unless an earlier accepted frame overlaps it.
   */
  lemma Resynchronises(garbage: seq<byte>, f: Frame, tail: seq<byte>, maxPayload: nat)
    requires Receivable(f, maxPayload) && |f.payload| + |tail| + 1 >= maxPayload
    ensures
      var b := garbage + Bytes(f) + tail;
      || Overlapped(b, |garbage|, maxPayload)
      || Contains(Scan(b, maxPayload).frames, f, Scan(tail, maxPayload).frames)
  {
    hide Bytes, Next, Scan, Reaches, Overlapped;
    var b, k := garbage + Bytes(f) + tail, |garbage|;
    NeverStalls(b, k, maxPayload);
    if Reaches(b, k, maxPayload) {
      ReachedIsEmitted(b, k, maxPayload);
      assert b[k..] == Bytes(f) + tail;
      FrameFront(f, tail, maxPayload);
      ScanEmit(b[k..], maxPayload);
      assert b[k..][FrameSize(f)..] == tail;
    }
  }

  /** The same for a decoder that is fed the stream in pieces. */
  lemma ResynchronisesInChunks(
      chunks: seq<seq<byte>>, garbage: seq<byte>, f: Frame, tail: seq<byte>, maxPayload: nat, maxBuffer: nat)
    requires Receivable(f, maxPayload) && |tail| >= maxPayload
    requires forall c :: c in chunks ==> |c| + maxPayload + 13 <= maxBuffer
    requires Flat(chunks) == garbage + Bytes(f) + tail
    ensures Overlapped(Flat(chunks), |garbage|, maxPayload) || f in FedAll(chunks, maxPayload, maxBuffer).frames
  {
    hide Bytes, Next, Scan, Reaches, Overlapped;
    ChunkIndependence(chunks, maxPayload, maxBuffer);
    Resynchronises(garbage, f, tail, maxPayload);
  }

  predicate AllReceivable(frames: seq<Frame>, maxPayload: nat)
  {
    forall i :: 0 <= i < |frames| ==> Receivable(frames[i], maxPayload)
  }

  /** The bytes of frames sent one after the other. */
  function Wire(frames: seq<Frame>, maxPayload: nat): seq<byte>
    requires AllReceivable(frames, maxPayload)
  {
    if frames == [] then [] else
      assert Receivable(frames[0], maxPayload);
      Bytes(frames[0]) + Wire(frames[1..], maxPayload)
  }

  lemma WireFront(frames: seq<Frame>, maxPayload: nat)
    requires AllReceivable(frames, maxPayload) && frames != []
    ensures Receivable(frames[0], maxPayload) && AllReceivable(frames[1..], maxPayload)
    ensures Wire(frames, maxPayload) == Bytes(frames[0]) + Wire(frames[1..], maxPayload)
  {
    hide Bytes;
    assert Receivable(frames[0], maxPayload);
  }

  lemma NothingOnWire(maxPayload: nat)
    ensures Wire([], maxPayload) == []
  {}

  lemma {:induction false} CleanStream(frames: seq<Frame>, maxPayload: nat)
    requires AllReceivable(frames, maxPayload)
    ensures Scan(Wire(frames, maxPayload), maxPayload) == Tally(frames, Stats(|frames|, 0, 0, 0), [])
  {
    hide Next, Scan, Wire, AllReceivable, Bytes;
    if frames == [] {
      NothingOnWire(maxPayload);
      NothingWaits(maxPayload);
      ScanWait([], maxPayload);
    } else {
      var f, more := frames[0], frames[1..];
      WireFront(frames, maxPayload);
      FrameFront(f, Wire(more, maxPayload), maxPayload);
      ScanEmit(Wire(frames, maxPayload), maxPayload);
      assert Wire(frames, maxPayload)[FrameSize(f)..] == Wire(more, maxPayload);
      CleanStream(more, maxPayload);
      assert [f] + more == frames;
    }
  }

  /** Encoded frames sent back to back come out exactly, with nothing discarded, however the stream is cut. */
  lemma CleanStreamInChunks(chunks: seq<seq<byte>>, frames: seq<Frame>, maxPayload: nat, maxBuffer: nat)
    requires AllReceivable(frames, maxPayload)
    requires forall c :: c in chunks ==> |c| + maxPayload + 13 <= maxBuffer
    requires Flat(chunks) == Wire(frames, maxPayload)
    ensures FedAll(chunks, maxPayload, maxBuffer) == Tally(frames, Stats(|frames|, 0, 0, 0), [])
  {
    hide Scan, FedAll, Flat, Wire, AllReceivable;
    ChunkIndependence(chunks, maxPayload, maxBuffer);
    CleanStream(frames, maxPayload);
  }
}
