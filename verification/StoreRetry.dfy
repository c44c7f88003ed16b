/** What a second attempt in the same boot may do: exactly when every power cut stays recoverable. */
module StoreRetry {
  import opened Bits
  import opened CalibrationRecord
  import opened SlotSelection
  import opened NvsStore
  import opened StoreRecovery

  /** The boot works, leaves a settled store, and finds the active record, the candidate or an earlier attempt's record. */
  ghost predicate Recovers(s: Store, n: Nvs, c: Record, after: Run)
    requires s.activeSlot <= 1
  {
    && after.path != [] && after.ok && Settled(after.store, after.Final())
    && (ActiveOf(after.store) == ActiveOf(s) || ActiveOf(after.store) == Some(c) || Earlier(s, n, ActiveOf(after.store)))
  }

  /** The record is one that the inactive slot may already hold. */
  ghost predicate Earlier(s: Store, n: Nvs, r: Option<Record>)
    requires s.activeSlot <= 1
  {
    exists b :: n.Slot(InactiveSlot(s)).MayHold(b) && b.Some? && r == SlotRecord(b)
  }

  ghost predicate AlwaysRecovers(s: Store, n: Nvs, c: Record)
    requires s.activeSlot <= 1
  {
    forall f, at, p :: Recovers(s, n, c, Recovery(StageAndCommit(s, n, c, f).At(at).PowerCut(p)))
  }

  /**
   * An attempt keeps the crash guarantee at every power cut if and only if no floor that may already be on the flash
   * exceeds the candidate's sequence. A first attempt always meets this; a retry after a failed metadata write may not.
   */
  lemma RetryRecoversIff(s: Store, n: Nvs, c: Record)
    requires Safe(s, n) && SequenceIsNewer(c.sequence, s.installedFloor) && Usable(c)
    ensures AlwaysRecovers(s, n, c) <==> FloorsBelow(n, c.sequence)
  {
    hide Safe, StageAndCommit, Recovery, Recovers, FloorsBelow, Usable;
    SafeIsReady(s, n);
    if FloorsBelow(n, c.sequence) {
      forall f, at, p
        ensures Recovers(s, n, c, Recovery(StageAndCommit(s, n, c, f).At(at).PowerCut(p)))
      {
        AttemptRecovers(s, n, c, f, at, p);
      }
    } else {
      var v :| n.floor.MayHold(v) && FloorOf(v) > c.sequence by { SomeFloorAbove(n, c.sequence); }
      Strands(s, n, c, v);
    }
  }

  lemma SomeFloorAbove(n: Nvs, bound: u32)
    requires !FloorsBelow(n, bound)
    ensures exists v :: n.floor.MayHold(v) && FloorOf(v) > bound
  {}

  lemma AttemptRecovers(s: Store, n: Nvs, c: Record, f: StageFaults, at: nat, p: Persisted)
    requires Attemptable(s, n, c) && s.activeSlot <= 1
    ensures Recovers(s, n, c, Recovery(StageAndCommit(s, n, c, f).At(at).PowerCut(p)))
  {
    hide Safe, Settled, StageAndCommit, Recovery, Attemptable, OnTheWay;
    StageOnTheWay(s, n, c, f, at);
    RecoveryOfOnTheWay(s, n, c, StageAndCommit(s, n, c, f).At(at), p);
    var after := Recovery(StageAndCommit(s, n, c, f).At(at).PowerCut(p));
    if ActiveOf(after.store) != Some(c) {
      var b :| n.Slot(InactiveSlot(s)).MayHold(b) && ActiveOf(after.store) == Expected(s, b);
      ExpectedIsKnown(s, n, b);
    }
  }

  lemma ExpectedIsKnown(s: Store, n: Nvs, b: Slot)
    requires s.activeSlot <= 1 && n.Slot(InactiveSlot(s)).MayHold(b)
    ensures Expected(s, b) == ActiveOf(s) || Earlier(s, n, Expected(s, b))
  {
    hide Decode;
  }

  /** With a higher floor already written, cutting power right after the slot write leaves a flash no boot accepts. */
  lemma Strands(s: Store, n: Nvs, c: Record, v: Option<u32>)
    requires Safe(s, n) && SequenceIsNewer(c.sequence, s.installedFloor) && Usable(c)
    requires n.floor.MayHold(v) && FloorOf(v) > c.sequence
    ensures !AlwaysRecovers(s, n, c)
  {
    n.floor.CutReaches(v);
    var k: nat :| n.floor.Cut(k).durable == v;
    var i := InactiveSlot(s);
    var p := Persisted(|n.slot0.pending| + 1, |n.slot1.pending| + 1, 0, k);
    SlotWriteIsSecondState(s, n, c);
    StrandedFlash(s, n, c, v, p);
    assert !Recovers(s, n, c, Recovery(StageAndCommit(s, n, c, NO_STAGE_FAULTS).At(1).PowerCut(p)));
  }

  lemma StrandedFlash(s: Store, n: Nvs, c: Record, v: Option<u32>, p: Persisted)
    requires Safe(s, n) && SequenceIsNewer(c.sequence, s.installedFloor) && Usable(c)
    requires FloorOf(v) > c.sequence && n.floor.Cut(p.floor).durable == v
    requires p.slot0 == |n.slot0.pending| + 1 && p.slot1 == |n.slot1.pending| + 1
    ensures !Recovery(n.SetSlot(InactiveSlot(s), Blob(c), Works).PowerCut(p)).ok
  {
    hide Blob, Decode, Recovery, SelectSlot;
    var i := InactiveSlot(s);
    var d := n.SetSlot(i, Blob(c), Works).PowerCut(p);
    CutAfterWrite(n, i, Blob(c), p);
    var other := d.Slot(1 - i).durable;
    assert other == if s.hasActive then Some(Blob(s.activeRecord)) else None;
    DecodeEncode(c);
    if s.hasActive { DecodeEncode(s.activeRecord); }
    BelowFloorIsRollback(d.slot0.durable, d.slot1.durable, FloorOf(v), c, i);
    RecoveryRuns(d);
  }

  /** Two sound slots whose highest sequence is below the floor are taken for a rollback. */
  lemma BelowFloorIsRollback(slot0: Slot, slot1: Slot, floor: u32, c: Record, i: byte)
    requires i <= 1 && c.sequence < floor && SlotRecord([slot0, slot1][i]) == Some(c)
    requires
      var other := [slot0, slot1][1 - i];
      other.Some? ==> SlotRecord(other).Some? && SlotRecord(other).value.sequence < c.sequence
    ensures SelectSlot(slot0, slot1, floor) == RollbackDetected
  {
    hide Decode;
  }

  lemma CutAfterWrite(n: Nvs, i: byte, blob: seq<byte>, p: Persisted)
    requires i <= 1 && p.slot0 == |n.slot0.pending| + 1 && p.slot1 == |n.slot1.pending| + 1
    ensures
      var d := n.SetSlot(i, blob, Works).PowerCut(p);
      && d.Quiet() && d.Slot(i).durable == Some(blob) && n.Slot(1 - i).MayHold(d.Slot(1 - i).durable)
      && d.floor == n.floor.Cut(p.floor)
  {
    n.slot0.CutHolds(p.slot0); n.slot1.CutHolds(p.slot1);
  }

  lemma SlotWriteIsSecondState(s: Store, n: Nvs, c: Record)
    requires s.ready && s.activeSlot <= 1 && SequenceIsNewer(c.sequence, s.installedFloor) && Usable(c)
    ensures StageAndCommit(s, n, c, NO_STAGE_FAULTS).At(1) == n.SetSlot(InactiveSlot(s), Blob(c), Works)
  {
    hide Blob, Decode, WriteMetadata;
  }

  /** The failure of the very last commit of an attempt. */
  const LAST_COMMIT_FAILS := NO_STAGE_FAULTS.(commit := Fails(false, Persisted(0, 0, 0, 0)))

  /** On any settled device, a failed attempt followed in the same boot by one with a lower sequence can strand it. */
  lemma LowerRetryCanStrand(s: Store, n: Nvs, first: Record, second: Record)
    requires Settled(s, n) && Usable(first) && Usable(second)
    requires SequenceIsNewer(first.sequence, s.installedFloor) && SequenceIsNewer(second.sequence, s.installedFloor)
    requires second.sequence < first.sequence
    ensures
      var run := StageAndCommit(s, n, first, LAST_COMMIT_FAILS);
      !run.ok && run.store == s && Safe(s, run.Final()) && !AlwaysRecovers(s, run.Final(), second)
  {
    var run := StageAndCommit(s, n, first, LAST_COMMIT_FAILS);
    SettledIsAttemptable(s, n, first);
    StageOnTheWay(s, n, first, LAST_COMMIT_FAILS, |run.path|);
    FailedLastCommit(s, n, first);
    Strands(s, run.Final(), second, Some(first.sequence));
  }

  lemma FailedLastCommit(s: Store, n: Nvs, c: Record)
    requires s.ready && s.activeSlot <= 1 && SequenceIsNewer(c.sequence, s.installedFloor) && Usable(c)
    ensures
      var run := StageAndCommit(s, n, c, LAST_COMMIT_FAILS);
      !run.ok && run.store == s && run.Final().floor.MayHold(Some(c.sequence))
  {
    hide Blob, Decode;
    DecodeEncode(c);
    var run := StageAndCommit(s, n, c, LAST_COMMIT_FAILS);
    var i := InactiveSlot(s);
    var m := WriteSlot(n, i, Blob(c), LAST_COMMIT_FAILS).1[2];
    var path := WriteMetadata(m, i, c.sequence, Works, Works, LAST_COMMIT_FAILS.commit).1;
    assert path[3].floor == m.floor.Write(c.sequence);
    assert run.Final() == path[3];
    assert path[3].floor.pending[|m.floor.pending|] == c.sequence;
  }

  // The rule a caller can follow.

  datatype Attempt = Attempt(record: Record, faults: StageFaults)

  /** The flash after these failed attempts of one boot; a failed attempt leaves the store object as it was. */
  function Tried(s: Store, n: Nvs, attempts: seq<Attempt>): Nvs
    requires s.activeSlot <= 1
  {
    if attempts == [] then n
    else
      var a := attempts[|attempts| - 1];
      StageAndCommit(s, Tried(s, n, attempts[..|attempts| - 1]), a.record, a.faults).Final()
  }

  /** Every attempt of the boot is at least every earlier one. */
  predicate Rising(attempts: seq<Attempt>)
  {
    forall i, j :: 0 <= i < j < |attempts| ==> attempts[i].record.sequence <= attempts[j].record.sequence
  }

  /** b is the blob of some attempt's record. */
  predicate AttemptedBlob(attempts: seq<Attempt>, b: Slot)
  {
    exists j :: 0 <= j < |attempts| && Usable(attempts[j].record) && b == Some(Blob(attempts[j].record))
  }

  /** What rising attempts leave on the flash of a settled store. */
  ghost predicate TriedSafely(s: Store, n: Nvs, attempts: seq<Attempt>, m: Nvs)
    requires s.activeSlot <= 1
  {
    && Safe(s, m)
    && (forall b :: m.Slot(InactiveSlot(s)).MayHold(b) ==>
          n.Slot(InactiveSlot(s)).MayHold(b) || AttemptedBlob(attempts, b))
    && FloorsBelow(m, if attempts == [] then s.installedFloor
                      else Max(s.installedFloor, attempts[|attempts| - 1].record.sequence))
  }

  /** One attempt more, cut or not, of a sequence at least the last one. */
  lemma AttemptOnTop(s: Store, n: Nvs, front: seq<Attempt>, m: Nvs, a: Attempt, at: nat)
    requires s.activeSlot <= 1 && TriedSafely(s, n, front, m)
    requires front != [] ==> front[|front| - 1].record.sequence <= a.record.sequence
    ensures TriedSafely(s, n, front + [a], StageAndCommit(s, m, a.record, a.faults).At(at))
  {
    hide StageAndCommit, Safe, Attemptable, Usable, Blob;
    var c := a.record;
    if SequenceIsNewer(c.sequence, s.installedFloor) && Usable(c) {
      FloorsReach(s, n, front, m, c);
      StageOnTheWay(s, m, c, a.faults, at);
      OnTheWayTried(s, n, front, m, a, StageAndCommit(s, m, c, a.faults).At(at));
    } else {
      RefusedStays(s, m, a);
      RefusedTried(s, n, front, m, a);
    }
  }

  lemma FloorsReach(s: Store, n: Nvs, front: seq<Attempt>, m: Nvs, c: Record)
    requires s.activeSlot <= 1 && TriedSafely(s, n, front, m)
    requires front != [] ==> front[|front| - 1].record.sequence <= c.sequence
    requires SequenceIsNewer(c.sequence, s.installedFloor) && Usable(c)
    ensures Attemptable(s, m, c)
  {
    hide Safe, Usable, Blob;
  }

  lemma OnTheWayTried(s: Store, n: Nvs, front: seq<Attempt>, m: Nvs, a: Attempt, k: Nvs)
    requires s.activeSlot <= 1 && TriedSafely(s, n, front, m) && OnTheWay(s, m, a.record, k) && Usable(a.record)
    requires front != [] ==> front[|front| - 1].record.sequence <= a.record.sequence
    ensures TriedSafely(s, n, front + [a], k)
  {
    hide Safe, Usable, Blob, AttemptedBlob;
    var all := front + [a];
    forall b | k.Slot(InactiveSlot(s)).MayHold(b)
      ensures n.Slot(InactiveSlot(s)).MayHold(b) || AttemptedBlob(all, b)
    {
      assert Left(m, InactiveSlot(s), a.record, b);
      MoreAttempts(front, a, b);
    }
    assert FloorsBelow(k, Max(s.installedFloor, all[|all| - 1].record.sequence));
  }

  lemma MoreAttempts(front: seq<Attempt>, a: Attempt, b: Slot)
    ensures AttemptedBlob(front, b) ==> AttemptedBlob(front + [a], b)
    ensures Usable(a.record) && b == Some(Blob(a.record)) ==> AttemptedBlob(front + [a], b)
  {
    hide Usable, Blob;
    var all := front + [a];
    if AttemptedBlob(front, b) {
      var j :| 0 <= j < |front| && Usable(front[j].record) && b == Some(Blob(front[j].record));
      assert all[j] == front[j];
    }
    assert all[|front|] == a;
  }

  lemma RefusedStays(s: Store, m: Nvs, a: Attempt)
    requires s.activeSlot <= 1 && !(SequenceIsNewer(a.record.sequence, s.installedFloor) && Usable(a.record))
    ensures StageAndCommit(s, m, a.record, a.faults) == Run(false, s, [m])
  {
    hide Blob, Decode, Usable;
  }

  lemma RefusedTried(s: Store, n: Nvs, front: seq<Attempt>, m: Nvs, a: Attempt)
    requires s.activeSlot <= 1 && TriedSafely(s, n, front, m)
    requires front != [] ==> front[|front| - 1].record.sequence <= a.record.sequence
    ensures TriedSafely(s, n, front + [a], m)
  {
    hide Safe, Usable, Blob, AttemptedBlob;
    forall b | m.Slot(InactiveSlot(s)).MayHold(b)
      ensures n.Slot(InactiveSlot(s)).MayHold(b) || AttemptedBlob(front + [a], b)
    {
      MoreAttempts(front, a, b);
    }
  }

  lemma {:induction false} RisingStaysSafe(s: Store, n: Nvs, attempts: seq<Attempt>)
    requires Settled(s, n) && Rising(attempts) && s.activeSlot <= 1
    ensures TriedSafely(s, n, attempts, Tried(s, n, attempts))
  {
    hide Settled, TriedSafely, StageAndCommit;
    if attempts == [] {
      NothingTried(s, n);
    } else {
      var front, a := attempts[..|attempts| - 1], attempts[|attempts| - 1];
      RisingStaysSafe(s, n, front);
      var m := Tried(s, n, front);
      AttemptOnTop(s, n, front, m, a, |StageAndCommit(s, m, a.record, a.faults).path|);
      assert front + [a] == attempts;
    }
  }

  lemma NothingTried(s: Store, n: Nvs)
    requires Settled(s, n)
    ensures s.activeSlot <= 1 && TriedSafely(s, n, [], n)
  {
    hide Blob, Decode;
    var b := n.Slot(InactiveSlot(s)).durable;
    assert n.Slot(InactiveSlot(s)).MayHold(b);
  }

  /** A record that one of the attempts staged. */
  predicate Among(attempts: seq<Attempt>, r: Option<Record>)
  {
    exists j :: 0 <= j < |attempts| && r == Some(attempts[j].record)
  }

  /**
   * The form a caller can check: from a settled store, as long as each attempt of a boot is at least every sequence
   * attempted before in that boot, every power cut inside the last one is followed by a boot that works and finds the
   * active record or one of the attempted records.
   */
  lemma RisingRetriesRecover(s: Store, n: Nvs, attempts: seq<Attempt>, a: Attempt, at: nat, p: Persisted)
    requires Settled(s, n) && s.activeSlot <= 1 && Rising(attempts + [a])
    ensures
      var cut := StageAndCommit(s, Tried(s, n, attempts), a.record, a.faults).At(at).PowerCut(p);
      var after := Recovery(cut);
      && after.ok && Settled(after.store, after.Final())
      && (ActiveOf(after.store) == ActiveOf(s) || Among(attempts + [a], ActiveOf(after.store)))
  {
    hide Settled, TriedSafely, StageAndCommit, Tried, Recovery, Expected, Among, AttemptedBlob, Safe;
    var all := attempts + [a];
    assert Rising(attempts) && (attempts != [] ==> attempts[|attempts| - 1].record.sequence <= a.record.sequence) by {
      RisingFront(attempts, a);
    }
    RisingStaysSafe(s, n, attempts);
    var m := StageAndCommit(s, Tried(s, n, attempts), a.record, a.faults).At(at);
    AttemptOnTop(s, n, attempts, Tried(s, n, attempts), a, at);
    TriedIsSafe(s, n, all, m);
    RecoveryOfSafe(s, m, p);
    var b := m.PowerCut(p).Slot(InactiveSlot(s)).durable;
    ExpectedAmong(s, n, all, m, b);
  }

  lemma RisingFront(attempts: seq<Attempt>, a: Attempt)
    requires Rising(attempts + [a])
    ensures Rising(attempts) && (attempts != [] ==> attempts[|attempts| - 1].record.sequence <= a.record.sequence)
  {
    var all := attempts + [a];
    forall i, j | 0 <= i < j < |attempts| ensures attempts[i].record.sequence <= attempts[j].record.sequence {
      assert all[i] == attempts[i] && all[j] == attempts[j];
    }
    if attempts != [] { assert all[|attempts| - 1] == attempts[|attempts| - 1] && all[|attempts|] == a; }
  }

  lemma TriedIsSafe(s: Store, n: Nvs, attempts: seq<Attempt>, m: Nvs)
    requires s.activeSlot <= 1 && TriedSafely(s, n, attempts, m)
    ensures Safe(s, m)
  {}

  lemma ExpectedAmong(s: Store, n: Nvs, attempts: seq<Attempt>, m: Nvs, b: Slot)
    requires Settled(s, n) && s.activeSlot <= 1 && TriedSafely(s, n, attempts, m) && m.Slot(InactiveSlot(s)).MayHold(b)
    ensures Expected(s, b) == ActiveOf(s) || Among(attempts, Expected(s, b))
  {
    hide Settled, Safe, Blob, Decode, Usable;
    SettledExpects(s, n);
    if !n.Slot(InactiveSlot(s)).MayHold(b) {
      assert AttemptedBlob(attempts, b);
      var j :| 0 <= j < |attempts| && Usable(attempts[j].record) && b == Some(Blob(attempts[j].record));
      DecodeEncode(attempts[j].record);
    }
  }
}
