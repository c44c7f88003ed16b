/** What the counters of the host's stream decoder count, as positions in the stream. */
module StreamLosses {
  import opened Bits
  import opened LinkFrame
  import opened StreamDecoder
  import opened CalibrationRecord

  /** A complete header starts at offset k. */
  predicate HeaderAt(b: seq<byte>, k: nat)
  {
    k + HEADER_SIZE <= |b| && b[k] == SOF0 && b[k + 1] == SOF1
  }

  /** At offset k a header announces more than the decoder takes. */
  predicate OversizeAt(b: seq<byte>, k: nat, maxPayload: nat)
  {
    HeaderAt(b, k) && Read16(b, k + 6) > maxPayload
  }

  /** At offset k stands a whole frame of acceptable length that does not decode. */
  predicate CorruptAt(b: seq<byte>, k: nat, maxPayload: nat)
  {
    && HeaderAt(b, k)
    && var n := Read16(b, k + 6);
       var end := k + HEADER_SIZE + n + CRC_SIZE;
       n <= maxPayload && end <= |b| && DecodeFrame(b[k..end], PROTOCOL_VERSION) == None
  }

  /** What the scan counts when it comes to offset k. */
  predicate CountedAt(b: seq<byte>, k: nat, maxPayload: nat, oversize: bool)
  {
    k <= |b| && Reaches(b, k, maxPayload) && if oversize then OversizeAt(b, k, maxPayload) else CorruptAt(b, k, maxPayload)
  }

  /** The number of offsets below n at which the scan counts such a loss. */
  function Counted(b: seq<byte>, n: nat, maxPayload: nat, oversize: bool): nat
  {
    if n == 0 then 0
    else Counted(b, n - 1, maxPayload, oversize) + if CountedAt(b, n - 1, maxPayload, oversize) then 1 else 0
  }

  /** The first decision tells which loss is counted at offset 0. */
  lemma FirstCounted(b: seq<byte>, maxPayload: nat)
    ensures CountedAt(b, 0, maxPayload, true) <==> Next(b, maxPayload) == Drop(Oversize)
    ensures CountedAt(b, 0, maxPayload, false) <==> Next(b, maxPayload) == Drop(Corrupt)
  {
    hide DecodeFrame, FromLe;
  }

  lemma WordInTail(b: seq<byte>, n: nat, k: nat)
    requires n + k + 8 <= |b|
    ensures Read16(b[n..], k + 6) == Read16(b, n + k + 6)
  {
    assert b[n..][k + 6..k + 8] == b[n + k + 6..n + k + 8];
  }

  /** How many bytes the first decision takes. */
  predicate FirstTakes(b: seq<byte>, n: nat, maxPayload: nat)
  {
    match Next(b, maxPayload)
    case Wait => false
    case Drop(_) => n == 1
    case Emit(f) => n == FrameSize(f)
  }

  /** Behind the first decision the scan counts in the whole what it counts in the rest, and inside it nothing. */
  lemma CountedInTail(b: seq<byte>, n: nat, k: nat, maxPayload: nat, oversize: bool)
    requires FirstTakes(b, n, maxPayload) && n <= |b|
    ensures CountedAt(b, n + k, maxPayload, oversize) <==> CountedAt(b[n..], k, maxPayload, oversize)
    ensures forall j :: 0 < j < n ==> !CountedAt(b, j, maxPayload, oversize)
  {
    hide DecodeFrame, FromLe, Next;
    if n + k + HEADER_SIZE <= |b| {
      WordInTail(b, n, k);
      var end := k + HEADER_SIZE + Read16(b, n + k + 6) + CRC_SIZE;
      if n + end <= |b| { assert b[n..][k..end] == b[n + k..n + end]; }
    }
  }

  lemma {:induction false} CountedShifts(b: seq<byte>, n: nat, m: nat, maxPayload: nat, oversize: bool)
    requires FirstTakes(b, n, maxPayload) && 0 < n <= |b|
    ensures Counted(b, n + m, maxPayload, oversize) ==
            (if CountedAt(b, 0, maxPayload, oversize) then 1 else 0) + Counted(b[n..], m, maxPayload, oversize)
  {
    hide CountedAt, FirstTakes;
    if m == 0 {
      FirstOnly(b, n, n, maxPayload, oversize);
    } else {
      CountedShifts(b, n, m - 1, maxPayload, oversize);
      CountedInTail(b, n, m - 1, maxPayload, oversize);
    }
  }

  lemma {:induction false} FirstOnly(b: seq<byte>, n: nat, j: nat, maxPayload: nat, oversize: bool)
    requires FirstTakes(b, n, maxPayload) && 0 < j <= n <= |b|
    ensures Counted(b, j, maxPayload, oversize) == if CountedAt(b, 0, maxPayload, oversize) then 1 else 0
  {
    hide CountedAt, FirstTakes;
    if j > 1 {
      FirstOnly(b, n, j - 1, maxPayload, oversize);
      CountedInTail(b, n, 0, maxPayload, oversize);
    } else {
      assert Counted(b, 0, maxPayload, oversize) == 0;
    }
  }

  /** While the scan waits it counts nothing. */
  lemma {:induction false} WaitingCountsNothing(b: seq<byte>, n: nat, maxPayload: nat, oversize: bool)
    requires Next(b, maxPayload) == Wait
    ensures Counted(b, n, maxPayload, oversize) == 0
  {
    hide Next, OversizeAt, CorruptAt;
    if n > 0 {
      WaitingCountsNothing(b, n - 1, maxPayload, oversize);
      FirstCounted(b, maxPayload);
    }
  }

  /**
   * The counters mean what they say: after any stream the error counter is the number of positions where the scan met a
   * whole frame that does not decode, and the oversize counter the number of positions where it met a header announcing
   * too much.
   */
  lemma {:induction false} LossesCounted(b: seq<byte>, maxPayload: nat)
    ensures Scan(b, maxPayload).stats.errors == Counted(b, |b|, maxPayload, false)
    ensures Scan(b, maxPayload).stats.oversize == Counted(b, |b|, maxPayload, true)
    decreases |b|
  {
    hide Next, Scan, CountedAt, Counted;
    FirstCounted(b, maxPayload);
    match Next(b, maxPayload)
    case Wait =>
      ScanWait(b, maxPayload);
      WaitingCountsNothing(b, |b|, maxPayload, false); WaitingCountsNothing(b, |b|, maxPayload, true);
    case Drop(_) =>
      ScanDrop(b, maxPayload);
      LossesCounted(b[1..], maxPayload);
      CountedShifts(b, 1, |b| - 1, maxPayload, false); CountedShifts(b, 1, |b| - 1, maxPayload, true);
    case Emit(f) =>
      var n := FrameSize(f);
      ScanEmit(b, maxPayload);
      LossesCounted(b[n..], maxPayload);
      CountedShifts(b, n, |b| - n, maxPayload, false); CountedShifts(b, n, |b| - n, maxPayload, true);
  }

  /** The same for the decoder, however the stream is cut. */
  lemma LossesCountedInChunks(chunks: seq<seq<byte>>, maxPayload: nat, maxBuffer: nat)
    requires forall c :: c in chunks ==> |c| + maxPayload + 13 <= maxBuffer
    ensures
      var stats, b := FedAll(chunks, maxPayload, maxBuffer).stats, Flat(chunks);
      && stats.errors == Counted(b, |b|, maxPayload, false) && stats.oversize == Counted(b, |b|, maxPayload, true)
      && stats.framesOk == |FedAll(chunks, maxPayload, maxBuffer).frames|
  {
    hide Scan, Counted, FedAll;
    ChunkIndependence(chunks, maxPayload, maxBuffer);
    LossesCounted(Flat(chunks), maxPayload);
    ScanAccounts(Flat(chunks), maxPayload);
  }

  /** On overflow the oldest bytes go: of one call with too much the newest bytes up to the limit are decoded. */
  lemma OverflowKeepsNewest(junk: seq<byte>, frames: seq<Frame>, maxPayload: nat)
    requires AllReceivable(frames, maxPayload)
    ensures
      var wire := Wire(frames, maxPayload);
      FedAll([junk + wire], maxPayload, |wire|) == Tally(frames, Stats(|frames|, 0, |junk|, 0), [])
  {
    hide Scan, Wire, AllReceivable;
    var wire := Wire(frames, maxPayload);
    CleanStream(frames, maxPayload);
    assert [junk + wire][..0] == [];
    assert [] + (junk + wire) == junk + wire;
    assert (junk + wire)[|junk|..] == wire;
    assert [] + frames == frames;
  }
}
