/** What a boot finds after power was lost at any flash call of the store. */
module StoreRecovery {
  import opened Bits
  import opened CalibrationRecord
  import opened SlotSelection
  import opened NvsStore

  /** The boot after a power cut, when its own flash calls work. */
  function Recovery(n: Nvs): (run: Run)
    ensures run.path != []
  {
    Begin(CLOSED, n, NO_BEGIN_FAULTS)
  }

  /** A value the inactive slot may hold without endangering the active record. */
  predicate SlotSafe(s: Store, b: Slot)
  {
    b.Some? ==>
      && SlotRecord(b).Some?
      && SlotSequence(b) <= MAX_SEQUENCE
      && (!s.hasActive ==> SlotSequence(b) > 0)
      && (s.hasActive && SlotSequence(b) == s.installedFloor ==> b == Some(Blob(s.activeRecord)))
  }

  ghost predicate HoldsOnly(c: Cell<seq<byte>>, v: Slot)
  {
    forall b :: c.MayHold(b) ==> b == v
  }

  ghost predicate FloorsBelow(n: Nvs, bound: u32)
  {
    forall v :: n.floor.MayHold(v) ==> FloorOf(v) <= bound
  }

  /** A ready store whose active record no power cut can take away. */
  ghost predicate Safe(s: Store, n: Nvs)
  {
    && s.ready && s.activeSlot <= 1
    && (s.hasActive ==>
          && Usable(s.activeRecord)
          && s.installedFloor == s.activeRecord.sequence
          && 0 < s.installedFloor <= MAX_SEQUENCE
          && HoldsOnly(n.Slot(s.activeSlot), Some(Blob(s.activeRecord))))
    && (!s.hasActive ==> s.installedFloor == 0 && HoldsOnly(n.slot1, None))
    && (forall b :: n.Slot(InactiveSlot(s)).MayHold(b) ==>
          SlotSafe(s, b) && FloorsBelow(n, Max(s.installedFloor, SlotSequence(b))))
  }

  /** Safe, with nothing uncommitted and nothing newer waiting in the inactive slot: what a boot leaves behind. */
  ghost predicate Settled(s: Store, n: Nvs)
  {
    Safe(s, n) && n.Quiet() && SlotSequence(n.Slot(InactiveSlot(s)).durable) <= s.installedFloor
  }

  /** A successful boot leaves a settled store, whatever was on the flash and whichever calls failed on the way. */
  lemma BeginSettles(n: Nvs, f: BeginFaults)
    requires n.Quiet() && Begin(CLOSED, n, f).ok
    ensures Settled(Begin(CLOSED, n, f).store, Begin(CLOSED, n, f).Final())
  {
    hide Decode, Blob, Settled, SelectSlot, WriteMetadata;
    MetadataRepaired(n, f);
    var run := Begin(CLOSED, n, f);
    var r0, r1 := ReadSlot(n.slot0, f.read0).value, ReadSlot(n.slot1, f.read1).value;
    assert r0 == n.slot0.durable && r1 == n.slot1.durable;
    var floor := FloorOf(n.floor.View());
    SelectSlotMeaning(r0, r1, floor);
    var sel := SelectSlot(r0, r1, floor);
    if sel.Selected? {
      var slots := [r0, r1];
      assert Chosen(slots, floor, sel.slot, sel.record);
      assert Chosen(slots, 0, sel.slot, sel.record);
      SelectionSettles(run.Final(), run.store, slots, sel.slot, sel.record);
    } else {
      assert n.slot0.durable == None && n.slot1.durable == None && floor == 0;
      QuietSettles(run.store, n);
    }
  }

  /** Without uncommitted writes it is enough to look at the durable values. */
  lemma QuietSettles(s: Store, n: Nvs)
    requires n.Quiet() && s.ready && s.activeSlot <= 1
    requires s.hasActive ==>
      && Usable(s.activeRecord) && s.installedFloor == s.activeRecord.sequence && 0 < s.installedFloor <= MAX_SEQUENCE
      && n.Slot(s.activeSlot).durable == Some(Blob(s.activeRecord))
    requires !s.hasActive ==> s.installedFloor == 0 && n.slot0.durable == None && n.slot1.durable == None
    requires SlotSafe(s, n.Slot(InactiveSlot(s)).durable) && FloorOf(n.floor.durable) <= s.installedFloor
    requires SlotSequence(n.Slot(InactiveSlot(s)).durable) <= s.installedFloor
    ensures Settled(s, n)
  {
    hide Blob, SlotSafe, SlotSequence;
    var i := InactiveSlot(s);
    assert forall b :: n.Slot(i).MayHold(b) ==> b == n.Slot(i).durable;
  }

  /** A metadata repair that succeeds leaves the slots alone and the floor key at the new value. */
  lemma MetadataRepaired(n: Nvs, f: BeginFaults)
    requires n.Quiet()
    ensures forall i: byte, v: u32 :: var (ok, path) := WriteMetadata(n, i, v, f.setActive, f.setFloor, f.commit);
              path != [] && (ok ==> SlotsKept(n, path[|path| - 1]) && path[|path| - 1].floor.durable == Some(v))
  {}

  predicate SlotsKept(n: Nvs, m: Nvs)
  {
    m.Quiet() && m.slot0.durable == n.slot0.durable && m.slot1.durable == n.slot1.durable
  }

  lemma SelectionSettles(m: Nvs, s: Store, slots: seq<Slot>, i: nat, r: Record)
    requires m.Quiet() && slots == [m.slot0.durable, m.slot1.durable] && FloorOf(m.floor.durable) <= r.sequence
    requires Chosen(slots, 0, i, r)
    requires s == Store(r.sequence, if i == 0 then 0 else 1, true, true, true, r)
    ensures Settled(s, m)
  {
    hide Decode, Blob, Settled;
    EncodeDecode(slots[i].value);
    var other := slots[1 - i];
    assert SlotSequence(other) <= r.sequence;
    assert SlotSequence(other) == r.sequence ==> other == slots[i];
    assert other.Some? ==> SlotRecord(other).Some?;
    QuietSettles(s, m);
  }

  /** The record a boot must find, given what the inactive slot holds. */
  function Expected(s: Store, b: Slot): Option<Record>
  {
    if SlotSequence(b) > s.installedFloor then SlotRecord(b) else ActiveOf(s)
  }

  /** The slots of a settled flash, as far as selection can tell. */
  ghost predicate SlotsOf(s: Store, slots: seq<Slot>, b: Slot, floor: u32)
  {
    && |slots| == 2 && s.ready && s.activeSlot <= 1
    && (s.hasActive ==>
          && Usable(s.activeRecord) && s.installedFloor == s.activeRecord.sequence
          && 0 < s.installedFloor <= MAX_SEQUENCE && slots[s.activeSlot] == Some(Blob(s.activeRecord)))
    && (!s.hasActive ==> s.installedFloor == 0 && slots[1] == None)
    && b == slots[InactiveSlot(s)] && SlotSafe(s, b)
    && floor <= Max(s.installedFloor, SlotSequence(b))
  }

  lemma SelectionIsExpected(s: Store, slots: seq<Slot>, b: Slot, floor: u32)
    requires SlotsOf(s, slots, b, floor)
    ensures
      var sel := SelectSlot(slots[0], slots[1], floor);
      if Expected(s, b).Some? then sel.Selected? && Some(sel.record) == Expected(s, b) else sel.Empty?
  {
    hide Decode, Blob;
    if s.hasActive { DecodeEncode(s.activeRecord); }
  }

  /** Recovery from a safe state is determined: the inactive slot wins exactly when it holds a newer record. */
  lemma RecoveryOfSafe(s: Store, n: Nvs, p: Persisted)
    requires Safe(s, n)
    ensures
      var d := n.PowerCut(p);
      var b := d.Slot(InactiveSlot(s)).durable;
      var after := Recovery(d);
      && n.Slot(InactiveSlot(s)).MayHold(b)
      && after.ok && Settled(after.store, after.Final())
      && ActiveOf(after.store) == Expected(s, b)
  {
    hide Decode, Blob, Settled;
    var d := n.PowerCut(p);
    n.slot0.CutHolds(p.slot0); n.slot1.CutHolds(p.slot1); n.floor.CutHolds(p.floor);
    var b := d.Slot(InactiveSlot(s)).durable;
    var slots := [d.slot0.durable, d.slot1.durable];
    var floor := FloorOf(d.floor.durable);
    assert SlotsOf(s, slots, b, floor);
    SelectionIsExpected(s, slots, b, floor);
    SizesAccepted(s, slots, b, floor);
    RecoveryRuns(d);
    BeginSettles(d, NO_BEGIN_FAULTS);
  }

  lemma SizesAccepted(s: Store, slots: seq<Slot>, b: Slot, floor: u32)
    requires SlotsOf(s, slots, b, floor)
    ensures forall j :: 0 <= j < 2 && slots[j].Some? ==> |slots[j].value| == BLOB_SIZE
  {
    hide Blob;
    forall j | 0 <= j < 2 && slots[j].Some?
      ensures |slots[j].value| == BLOB_SIZE
    {
      assert j == InactiveSlot(s) || j == s.activeSlot || !s.hasActive;
    }
  }

  /** Without faults a boot reports what selection found. */
  lemma RecoveryRuns(d: Nvs)
    requires d.Quiet()
    requires d.slot0.durable.Some? ==> |d.slot0.durable.value| == BLOB_SIZE
    requires d.slot1.durable.Some? ==> |d.slot1.durable.value| == BLOB_SIZE
    ensures
      var sel := SelectSlot(d.slot0.durable, d.slot1.durable, FloorOf(d.floor.durable));
      && (sel.Empty? ==> Recovery(d).ok && ActiveOf(Recovery(d).store) == None)
      && (sel.Selected? ==> Recovery(d).ok && ActiveOf(Recovery(d).store) == Some(sel.record))
      && (!sel.Empty? && !sel.Selected? ==> !Recovery(d).ok)
  {
    hide SelectSlot;
  }

  // One attempt to stage a record, from any safe state.

  /** b is a value the inactive slot may hold once c was attempted. */
  ghost predicate Left(n: Nvs, i: byte, c: Record, b: Slot)
  {
    n.Slot(i).MayHold(b) || b == Some(Blob(c))
  }

  /** A flash state on the way of staging c: still safe for s, and holding nothing but c besides what was there. */
  ghost predicate OnTheWay(s: Store, n: Nvs, c: Record, m: Nvs)
  {
    && Safe(s, m)
    && (forall b :: m.Slot(InactiveSlot(s)).MayHold(b) ==> Left(n, InactiveSlot(s), c, b))
    && (forall v :: m.floor.MayHold(v) ==> n.floor.MayHold(v) || v == Some(c.sequence))
  }

  ghost predicate Attemptable(s: Store, n: Nvs, c: Record)
  {
    Safe(s, n) && SequenceIsNewer(c.sequence, s.installedFloor) && Usable(c) && FloorsBelow(n, c.sequence)
  }

  lemma SetSlotOnTheWay(s: Store, n: Nvs, c: Record, o: Outcome)
    requires Attemptable(s, n, c)
    ensures OnTheWay(s, n, c, n.SetSlot(InactiveSlot(s), Blob(c), o))
  {
    hide Decode, Blob;
    DecodeEncode(c);
    var i := InactiveSlot(s);
    var m := n.SetSlot(i, Blob(c), o);
    forall b | m.Slot(i).MayHold(b)
      ensures Left(n, i, c, b)
    {}
  }

  /** Whatever m' may come to hold, m may come to hold too. */
  ghost predicate Shrinks(m: Nvs, m': Nvs)
  {
    && (forall v :: m'.slot0.MayHold(v) ==> m.slot0.MayHold(v))
    && (forall v :: m'.slot1.MayHold(v) ==> m.slot1.MayHold(v))
    && (forall v :: m'.floor.MayHold(v) ==> m.floor.MayHold(v))
  }

  lemma CommitShrinks(m: Nvs, o: Outcome)
    ensures Shrinks(m, m.Commit(o))
  {
    var p := if o.Fails? then o.persisted else Persisted(|m.slot0.pending|, |m.slot1.pending|, 0, |m.floor.pending|);
    m.slot0.CutHolds(p.slot0); m.slot1.CutHolds(p.slot1); m.floor.CutHolds(p.floor);
  }

  lemma CommitOnTheWay(s: Store, n: Nvs, c: Record, m: Nvs, o: Outcome)
    requires OnTheWay(s, n, c, m)
    ensures OnTheWay(s, n, c, m.Commit(o))
  {
    CommitShrinks(m, o);
    ShrunkIsOnTheWay(s, n, c, m, m.Commit(o));
  }

  lemma ShrunkIsOnTheWay(s: Store, n: Nvs, c: Record, m: Nvs, m': Nvs)
    requires OnTheWay(s, n, c, m) && Shrinks(m, m')
    ensures OnTheWay(s, n, c, m')
  {
    hide Decode, Blob, SlotSafe, SlotSequence, Left;
  }

  lemma SetActiveOnTheWay(s: Store, n: Nvs, c: Record, m: Nvs, i: byte, o: Outcome)
    requires OnTheWay(s, n, c, m)
    ensures OnTheWay(s, n, c, m.SetActive(i, o))
  {
    hide Decode, Blob;
    assert m.SetActive(i, o).floor == m.floor;
    assert m.SetActive(i, o).slot0 == m.slot0 && m.SetActive(i, o).slot1 == m.slot1;
  }

  lemma SetFloorOnTheWay(s: Store, n: Nvs, c: Record, m: Nvs, o: Outcome)
    requires OnTheWay(s, n, c, m) && Usable(c)
    requires HoldsOnly(m.Slot(InactiveSlot(s)), Some(Blob(c)))
    ensures OnTheWay(s, n, c, m.SetFloor(c.sequence, o))
  {
    hide Decode, Blob;
    DecodeEncode(c);
    var k := m.SetFloor(c.sequence, o);
    assert k.slot0 == m.slot0 && k.slot1 == m.slot1;
    forall b | k.Slot(InactiveSlot(s)).MayHold(b)
      ensures SlotSafe(s, b) && FloorsBelow(k, Max(s.installedFloor, SlotSequence(b)))
    {
      assert m.Slot(InactiveSlot(s)).MayHold(b);
    }
  }

  /** Every flash state of the metadata write is on the way. */
  lemma MetadataOnTheWay(s: Store, n: Nvs, c: Record, m: Nvs, a: Outcome, f: Outcome, k: Outcome)
    requires OnTheWay(s, n, c, m) && Usable(c)
    requires HoldsOnly(m.Slot(InactiveSlot(s)), Some(Blob(c)))
    ensures
      var path := WriteMetadata(m, InactiveSlot(s), c.sequence, a, f, k).1;
      forall j :: 0 <= j < |path| ==> OnTheWay(s, n, c, path[j])
  {
    var i := InactiveSlot(s);
    hide Safe, OnTheWay, Blob, Decode;
    var m1 := m.SetActive(i, a);
    SetActiveOnTheWay(s, n, c, m, i, a);
    assert m1.Slot(i) == m.Slot(i);
    var m2 := m1.SetFloor(c.sequence, f);
    SetFloorOnTheWay(s, n, c, m1, f);
    CommitOnTheWay(s, n, c, m2, k);
  }

  /** After a slot write that was read back, the slot holds the new record and nothing else. */
  lemma WrittenSlot(n: Nvs, i: byte, blob: seq<byte>, f: StageFaults)
    requires i <= 1 && WriteSlot(n, i, blob, f).0
    ensures
      var m := WriteSlot(n, i, blob, f).1[2];
      |WriteSlot(n, i, blob, f).1| == 3 && m.Slot(i) == Cell(Some(blob), []) && m.Slot(1 - i) == n.Slot(1 - i).Flush()
  {}

  lemma SlotOnTheWay(s: Store, n: Nvs, c: Record, f: StageFaults)
    requires Attemptable(s, n, c)
    ensures
      var path := WriteSlot(n, InactiveSlot(s), Blob(c), f).1;
      forall j :: 0 <= j < |path| ==> OnTheWay(s, n, c, path[j])
  {
    var i := InactiveSlot(s);
    hide Safe, OnTheWay, Blob, Decode;
    assert OnTheWay(s, n, c, n) by { StartsOnTheWay(s, n, c); }
    SetSlotOnTheWay(s, n, c, f.setSlot);
    CommitOnTheWay(s, n, c, n.SetSlot(i, Blob(c), f.setSlot), f.commitSlot);
  }

  lemma StartsOnTheWay(s: Store, n: Nvs, c: Record)
    requires Safe(s, n)
    ensures OnTheWay(s, n, c, n)
  {}

  /** Whatever fails, every flash state of an attempt is on the way. */
  lemma StageOnTheWay(s: Store, n: Nvs, c: Record, f: StageFaults, at: nat)
    requires Attemptable(s, n, c)
    ensures OnTheWay(s, n, c, StageAndCommit(s, n, c, f).At(at))
  {
    hide Safe, OnTheWay, Blob, Decode, WriteSlot, WriteMetadata;
    assert s.ready && s.activeSlot <= 1 by { SafeIsReady(s, n); }
    SlotOnTheWay(s, n, c, f);
    var i := InactiveSlot(s);
    if WriteSlot(n, i, Blob(c), f).0 {
      WrittenSlot(n, i, Blob(c), f);
      var m := WriteSlot(n, i, Blob(c), f).1[2];
      assert HoldsOnly(m.Slot(i), Some(Blob(c)));
      MetadataOnTheWay(s, n, c, m, f.setActive, f.setFloor, f.commit);
    }
  }

  lemma SafeIsReady(s: Store, n: Nvs)
    requires Safe(s, n)
    ensures s.ready && s.activeSlot <= 1
  {}

  /** A metadata write that worked leaves nothing uncommitted and touches no slot. */
  lemma WrittenMetadata(m: Nvs, i: byte, floor: u32, a: Outcome, f: Outcome, k: Outcome)
    requires WriteMetadata(m, i, floor, a, f, k).0
    ensures
      var path := WriteMetadata(m, i, floor, a, f, k).1;
      path[|path| - 1] == Nvs(m.slot0.Flush(), m.slot1.Flush(), Cell(Some(i), []), Cell(Some(floor), []))
  {}

  function InstalledStore(s: Store, c: Record): Store
    requires s.activeSlot <= 1
  {
    Store(c.sequence, InactiveSlot(s), true, s.isOpen, s.ready, c)
  }

  lemma StageRan(s: Store, n: Nvs, c: Record, f: StageFaults)
    requires s.activeSlot <= 1 && StageAndCommit(s, n, c, f).ok
    ensures
      var run, i := StageAndCommit(s, n, c, f), InactiveSlot(s);
      && s.ready && SequenceIsNewer(c.sequence, s.installedFloor) && Usable(c)
      && run.store == InstalledStore(s, c)
      && run.Final().floor == Cell(Some(c.sequence), []) && run.Final().active == Cell(Some(i), [])
      && run.Final().Slot(i) == Cell(Some(Blob(c)), [])
      && run.Final().Slot(1 - i) == n.Slot(1 - i).Flush()
  {
    hide Blob, Decode, WriteSlot, WriteMetadata;
    var i := InactiveSlot(s);
    assert Usable(c);
    DecodeEncode(c);
    WrittenSlot(n, i, Blob(c), f);
    var m := WriteSlot(n, i, Blob(c), f).1[2];
    WrittenMetadata(m, i, c.sequence, f.setActive, f.setFloor, f.commit);
    assert m.Slot(1 - i).Flush() == m.Slot(1 - i);
  }

  lemma InstalledIsSettled(s: Store, c: Record, m: Nvs)
    requires s.activeSlot <= 1 && s.ready && SequenceIsNewer(c.sequence, s.installedFloor) && Usable(c)
    requires m.Quiet() && m.floor.durable == Some(c.sequence)
    requires m.Slot(InactiveSlot(s)).durable == Some(Blob(c))
    requires m.Slot(1 - InactiveSlot(s)).durable == if s.hasActive then Some(Blob(s.activeRecord)) else None
    requires s.hasActive ==> Usable(s.activeRecord) && s.activeRecord.sequence == s.installedFloor
    ensures Settled(InstalledStore(s, c), m)
  {
    hide Blob, Decode;
    if s.hasActive { DecodeEncode(s.activeRecord); }
    var t := InstalledStore(s, c);
    assert InactiveSlot(t) == 1 - InactiveSlot(s);
    assert m.Slot(InactiveSlot(t)).MayHold(m.Slot(InactiveSlot(t)).durable);
  }

  /** A call that returned true left the new record installed and nothing uncommitted. */
  lemma StageSettles(s: Store, n: Nvs, c: Record, f: StageFaults)
    requires Safe(s, n) && StageAndCommit(s, n, c, f).ok
    ensures
      var run := StageAndCommit(s, n, c, f);
      && Settled(run.store, run.Final())
      && ActiveOf(run.store) == Some(c)
      && run.store.installedFloor == c.sequence > s.installedFloor
      && Usable(c) && c.sequence <= MAX_SEQUENCE
  {
    hide StageAndCommit, Blob, Decode, Settled;
    StageRan(s, n, c, f);
    var i := InactiveSlot(s);
    n.Slot(1 - i).CutHolds(|n.Slot(1 - i).pending|);
    StageFinalQuiet(s, n, c, f);
    InstalledIsSettled(s, c, StageAndCommit(s, n, c, f).Final());
  }

  lemma StageFinalQuiet(s: Store, n: Nvs, c: Record, f: StageFaults)
    requires s.activeSlot <= 1 && StageAndCommit(s, n, c, f).ok
    ensures StageAndCommit(s, n, c, f).Final().Quiet()
  {
    hide StageAndCommit, Blob, Decode;
    StageRan(s, n, c, f);
  }

  /** An attempt that returned false, or never began, leaves the store object as it was. */
  lemma FailedStageKeepsStore(s: Store, n: Nvs, c: Record, f: StageFaults)
    requires s.activeSlot <= 1 && !StageAndCommit(s, n, c, f).ok
    ensures StageAndCommit(s, n, c, f).store == s
  {
    hide Blob, Decode, WriteSlot, WriteMetadata;
  }

  lemma SettledIsSafe(s: Store, n: Nvs)
    requires Settled(s, n)
    ensures Safe(s, n) && s.ready && s.activeSlot <= 1
  {
    hide Blob;
  }

  /** In a settled flash a boot can only expect the active record. */
  lemma SettledExpects(s: Store, n: Nvs)
    requires Settled(s, n)
    ensures s.activeSlot <= 1
    ensures forall b :: n.Slot(InactiveSlot(s)).MayHold(b) ==> Expected(s, b) == ActiveOf(s)
  {
    hide Blob, Decode, SlotSequence, SlotRecord;
  }

  /**
   * Crash atomicity. From the state a boot leaves, cut the power after any flash call of an attempt, with any part of
   * the uncommitted writes on the flash: the next boot works and finds the old record or the new one, nothing else.
   */
  lemma CrashAtomicity(s: Store, n: Nvs, c: Record, f: StageFaults, at: nat, p: Persisted)
    requires Settled(s, n)
    ensures
      var run := StageAndCommit(s, n, c, f);
      var after := Recovery(run.At(at).PowerCut(p));
      && after.ok && Settled(after.store, after.Final())
      && (ActiveOf(after.store) == ActiveOf(s) || ActiveOf(after.store) == Some(c))
  {
    hide Safe, Settled, Attemptable, StageAndCommit, Recovery, Expected;
    SettledIsSafe(s, n);
    SettledExpects(s, n);
    SettledIsAttemptable(s, n, c);
    if Attemptable(s, n, c) {
      StageOnTheWay(s, n, c, f, at);
      RecoveryOfOnTheWay(s, n, c, StageAndCommit(s, n, c, f).At(at), p);
    } else {
      RecoveryOfSafe(s, n, p);
    }
  }

  /** A settled store refuses the record at once, or attempting it is harmless. */
  lemma SettledIsAttemptable(s: Store, n: Nvs, c: Record)
    requires Settled(s, n)
    ensures SequenceIsNewer(c.sequence, s.installedFloor) && Usable(c) <==> Attemptable(s, n, c)
    ensures !Attemptable(s, n, c) ==> forall f :: StageAndCommit(s, n, c, f) == Run(false, s, [n])
  {
    hide Blob, Decode;
    assert n.Slot(InactiveSlot(s)).MayHold(n.Slot(InactiveSlot(s)).durable);
  }

  lemma RecoveryOfOnTheWay(s: Store, n: Nvs, c: Record, m: Nvs, p: Persisted)
    requires OnTheWay(s, n, c, m) && Attemptable(s, n, c)
    ensures
      var after := Recovery(m.PowerCut(p));
      && after.ok && Settled(after.store, after.Final())
      && ((exists b :: n.Slot(InactiveSlot(s)).MayHold(b) && ActiveOf(after.store) == Expected(s, b)) ||
          ActiveOf(after.store) == Some(c))
  {
    RecoveryOfSafe(s, m, p);
    DecodeEncode(c);
    hide Safe, Settled, Decode, Blob;
    var b := m.PowerCut(p).Slot(InactiveSlot(s)).durable;
    if b == Some(Blob(c)) {
      assert Expected(s, b) == Some(c);
    } else {
      assert n.Slot(InactiveSlot(s)).MayHold(b);
    }
  }

  /** Once the call has returned true, every later power cut recovers the new record. */
  lemma InstalledSurvives(s: Store, n: Nvs, c: Record, f: StageFaults, p: Persisted)
    requires Settled(s, n) && StageAndCommit(s, n, c, f).ok
    ensures
      var after := Recovery(StageAndCommit(s, n, c, f).Final().PowerCut(p));
      after.ok && ActiveOf(after.store) == Some(c)
  {
    hide StageAndCommit;
    var run := StageAndCommit(s, n, c, f);
    StageSettles(s, n, c, f);
    RecoveryOfSafe(run.store, run.Final(), p);
  }
}
