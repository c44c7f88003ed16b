/** Whole lives of the store: any boots, attempts, in-session retries, failing calls and power cuts, in any order. */
module StoreLife {
  import opened Bits
  import opened CalibrationRecord
  import opened SlotSelection
  import opened NvsStore
  import opened StoreRecovery

  /** What a successful begin or stage reports: the installed floor and the active record. */
  datatype Confirmation = Confirmation(floor: u32, active: Option<Record>)

  datatype Life = Life(nvs: Nvs, store: Store, confirmed: seq<Confirmation>)

  datatype StoreEvent =
    | BeginCall(begin: BeginFaults)
    | StageCall(candidate: Record, stage: StageFaults)
    | PowerCut(lost: Persisted)
    | CutInBegin(begin: BeginFaults, at: nat, lost: Persisted)
    | CutInStage(candidate: Record, stage: StageFaults, at: nat, lost: Persisted)

  function Reported(s: Store): Confirmation
  {
    Confirmation(s.installedFloor, ActiveOf(s))
  }

  function After(l: Life, run: Run): Life
    requires run.path != []
  {
    Life(run.Final(), run.store, if run.ok then l.confirmed + [Reported(run.store)] else l.confirmed)
  }

  function Dark(l: Life, n: Nvs): Life
  {
    Life(n, CLOSED, l.confirmed)
  }

  function LifeStep(l: Life, e: StoreEvent): Life
  {
    match e
    case BeginCall(f) => After(l, Begin(l.store, l.nvs, f))
    case StageCall(c, f) => if l.store.activeSlot > 1 then l else After(l, StageAndCommit(l.store, l.nvs, c, f))
    case PowerCut(p) => Dark(l, l.nvs.PowerCut(p))
    case CutInBegin(f, at, p) => Dark(l, Begin(l.store, l.nvs, f).At(at).PowerCut(p))
    case CutInStage(c, f, at, p) =>
      if l.store.activeSlot > 1 then l else Dark(l, StageAndCommit(l.store, l.nvs, c, f).At(at).PowerCut(p))
  }

  function Lived(l: Life, events: seq<StoreEvent>): Life
  {
    if events == [] then l else LifeStep(Lived(l, events[..|events| - 1]), events[|events| - 1])
  }

  /** A device taken into use with any flash contents. */
  predicate Fresh(l: Life)
  {
    l.nvs.Quiet() && l.store == CLOSED && l.confirmed == []
  }

  /** Slot i can hold nothing but the encoding of r, whatever is lost. */
  predicate Anchored(n: Nvs, i: nat, r: Record)
  {
    n.Slot(i).durable == Some(Blob(r)) && forall k :: 0 <= k < |n.Slot(i).pending| ==> n.Slot(i).pending[k] == Blob(r)
  }

  /** Floors never fall, and two reports at one floor name the same record. */
  ghost predicate Monotone(h: seq<Confirmation>)
  {
    forall i, j :: 0 <= i < j < |h| ==>
      h[i].floor <= h[j].floor && (h[i].floor == h[j].floor ==> h[i].active == h[j].active)
  }

  ghost predicate Kept(n: Nvs, c: Confirmation)
  {
    match c.active
    case None => c.floor == 0
    case Some(r) =>
      c.floor == r.sequence && 0 < r.sequence <= MAX_SEQUENCE && Usable(r) && (Anchored(n, 0, r) || Anchored(n, 1, r))
  }

  ghost predicate Inv(l: Life)
  {
    && l.store.activeSlot <= 1
    && (!l.store.ready ==> l.store == CLOSED && l.nvs.slot0.pending == [] && l.nvs.slot1.pending == [])
    && (l.store.ready ==>
          && l.confirmed != []
          && l.confirmed[|l.confirmed| - 1] == Reported(l.store)
          && (l.store.hasActive ==> Anchored(l.nvs, l.store.activeSlot, l.store.activeRecord)))
    && (l.confirmed != [] ==> Kept(l.nvs, l.confirmed[|l.confirmed| - 1]))
    && Monotone(l.confirmed)
  }

  lemma AnchoredPersists(n: Nvs, i: nat, r: Record, p: Persisted, o: Outcome)
    requires Anchored(n, i, r)
    ensures Anchored(n.PowerCut(p), i, r) && Anchored(n.Commit(o), i, r)
  {
    hide Blob;
  }

  lemma KeptPersists(n: Nvs, c: Confirmation, p: Persisted)
    requires Kept(n, c)
    ensures Kept(n.PowerCut(p), c)
  {
    hide Blob;
    if c.active.Some? {
      var r := c.active.value;
      if Anchored(n, 0, r) { AnchoredPersists(n, 0, r, p, Works); } else { AnchoredPersists(n, 1, r, p, Works); }
    }
  }

  lemma DarkKeepsInv(l: Life, n: Nvs, p: Persisted)
    requires Inv(l)
    requires l.confirmed != [] ==> Kept(n, l.confirmed[|l.confirmed| - 1])
    ensures Inv(Dark(l, n.PowerCut(p)))
  {
    hide Kept;
    if l.confirmed != [] { KeptPersists(n, l.confirmed[|l.confirmed| - 1], p); }
  }

  /** A begin never touches the slots, so at each of its flash states the confirmed record is still kept. */
  lemma BeginKeeps(s: Store, n: Nvs, f: BeginFaults, at: nat, c: Confirmation)
    requires n.slot0.pending == [] && n.slot1.pending == []
    requires Kept(n, c)
    ensures Kept(Begin(s, n, f).At(at), c)
    ensures Begin(s, n, f).Final().slot0 == n.slot0 && Begin(s, n, f).Final().slot1 == n.slot1
  {
    hide Begin, Blob;
    BeginSlots(s, n, f, at);
    BeginSlots(s, n, f, |Begin(s, n, f).path|);
  }

  ghost predicate SameSlots(n: Nvs, m: Nvs)
  {
    m.slot0 == n.slot0 && m.slot1 == n.slot1
  }

  lemma MetadataSlots(n: Nvs, i: byte, v: u32, a: Outcome, f: Outcome, k: Outcome)
    requires n.slot0.pending == [] && n.slot1.pending == []
    ensures forall m :: m in WriteMetadata(n, i, v, a, f, k).1 ==> SameSlots(n, m)
  {
    var n1 := n.SetActive(i, a);
    var n2 := n1.SetFloor(v, f);
    assert SameSlots(n, n1) && SameSlots(n, n2);
    assert SameSlots(n, n2.Commit(k));
  }

  /** A begin only ever writes metadata. */
  lemma BeginPath(s: Store, n: Nvs, f: BeginFaults) returns (i: byte, v: u32)
    ensures
      var path := Begin(s, n, f).path;
      path == [n] || path == WriteMetadata(n, i, v, f.setActive, f.setFloor, f.commit).1
  {
    hide Decode, Blob, SelectSlot, WriteMetadata, ReadSlot;
    var floor := FloorOf(n.floor.View());
    i, v := 0, 0;
    var r0, r1 := ReadSlot(n.slot0, f.read0), ReadSlot(n.slot1, f.read1);
    if r0.Some? && r1.Some? && SelectSlot(r0.value, r1.value, floor).Selected? {
      var sel := SelectSlot(r0.value, r1.value, floor);
      i, v := if sel.slot == 0 then 0 else 1, Max(floor, sel.record.sequence);
    }
  }

  lemma BeginSlots(s: Store, n: Nvs, f: BeginFaults, at: nat)
    requires n.slot0.pending == [] && n.slot1.pending == []
    ensures Begin(s, n, f).At(at).slot0 == n.slot0 && Begin(s, n, f).At(at).slot1 == n.slot1
  {
    hide Begin, WriteMetadata;
    var i, v := BeginPath(s, n, f);
    MetadataSlots(n, i, v, f.setActive, f.setFloor, f.commit);
    assert Begin(s, n, f).At(at) in Begin(s, n, f).path;
  }

  /** What a begin that worked reports, in terms of the slots it found. */
  lemma BeginReports(n: Nvs, f: BeginFaults)
    requires n.slot0.pending == [] && n.slot1.pending == []
    requires Begin(CLOSED, n, f).ok
    ensures
      var s := Begin(CLOSED, n, f).store;
      && s.ready && s.activeSlot <= 1
      && (!s.hasActive ==> s.installedFloor == 0 && n.slot0.durable == None && n.slot1.durable == None)
      && (s.hasActive ==>
            && s.installedFloor == s.activeRecord.sequence
            && Chosen([n.slot0.durable, n.slot1.durable], 0, s.activeSlot, s.activeRecord))
  {
    hide Decode, Blob;
    var floor := FloorOf(n.floor.View());
    SelectSlotMeaning(n.slot0.durable, n.slot1.durable, floor);
    var sel := SelectSlot(n.slot0.durable, n.slot1.durable, floor);
    if sel.Selected? {
      assert Chosen([n.slot0.durable, n.slot1.durable], floor, sel.slot, sel.record);
    }
  }

  lemma BeginKeepsInv(l: Life, f: BeginFaults)
    requires Inv(l)
    ensures Inv(LifeStep(l, BeginCall(f)))
  {
    hide Decode, Blob;
    if !l.store.ready {
      var run := Begin(CLOSED, l.nvs, f);
      BeginSlots(l.store, l.nvs, f, |run.path|);
      hide Begin;
      if run.ok {
        BeginReports(l.nvs, f);
        ReportKeepsInv(l, run);
      } else {
        FailedBeginCloses(l.nvs, f);
      }
    }
  }

  lemma ReportKeepsInv(l: Life, run: Run)
    requires Inv(l) && !l.store.ready && run.path != [] && run.ok
    requires run.Final().slot0 == l.nvs.slot0 && run.Final().slot1 == l.nvs.slot1
    requires
      var s := run.store;
      && s.ready && s.activeSlot <= 1
      && (!s.hasActive ==> s.installedFloor == 0 && l.nvs.slot0.durable == None && l.nvs.slot1.durable == None)
      && (s.hasActive ==>
            && s.installedFloor == s.activeRecord.sequence
            && Chosen([l.nvs.slot0.durable, l.nvs.slot1.durable], 0, s.activeSlot, s.activeRecord))
    ensures Inv(After(l, run))
  {
    hide Decode, Blob;
    var s := run.store;
    var slots := [l.nvs.slot0.durable, l.nvs.slot1.durable];
    if s.hasActive {
      EncodeDecode(slots[s.activeSlot].value);
      assert Anchored(run.Final(), s.activeSlot, s.activeRecord);
    }
    if l.confirmed != [] { BeginContinues(l, s); }
  }

  lemma FailedBeginCloses(n: Nvs, f: BeginFaults)
    requires !Begin(CLOSED, n, f).ok
    ensures Begin(CLOSED, n, f).store == CLOSED
  {
    hide Decode, Blob, SelectSlot, WriteMetadata;
  }

  /** A later boot reports a newer record, or the one confirmed last. */
  lemma BeginContinues(l: Life, s: Store)
    requires Inv(l) && !l.store.ready && l.confirmed != [] && s.ready
    requires !s.hasActive ==> s.installedFloor == 0 && l.nvs.slot0.durable == None && l.nvs.slot1.durable == None
    requires s.activeSlot <= 1
    requires s.hasActive ==> s.installedFloor == s.activeRecord.sequence
    requires s.hasActive ==> Chosen([l.nvs.slot0.durable, l.nvs.slot1.durable], 0, s.activeSlot, s.activeRecord)
    ensures
      var c := l.confirmed[|l.confirmed| - 1];
      c.floor <= s.installedFloor && (c.floor == s.installedFloor ==> c.active == ActiveOf(s))
    ensures Monotone(l.confirmed + [Reported(s)])
  {
    hide Decode, Blob;
    var c := l.confirmed[|l.confirmed| - 1];
    var slots := [l.nvs.slot0.durable, l.nvs.slot1.durable];
    if c.active.Some? {
      var r := c.active.value;
      DecodeEncode(r);
      var k := if Anchored(l.nvs, 0, r) then 0 else 1;
      assert slots[k] == Some(Blob(r));
      assert SlotSequence(slots[k]) == r.sequence;
    }
    if s.hasActive {
      assert SlotRecord(slots[s.activeSlot]) == Some(s.activeRecord);
    }
  }

  lemma SlotWriteKeepsOther(n: Nvs, j: byte, blob: seq<byte>, f: StageFaults, i: nat, r: Record)
    requires j <= 1 && i == 1 - j && Anchored(n, i, r)
    ensures forall m :: m in WriteSlot(n, j, blob, f).1 ==> Anchored(m, i, r)
  {
    hide Blob, ReadSlot;
    var n1 := n.SetSlot(j, blob, f.setSlot);
    assert n1.Slot(i) == n.Slot(i);
    AnchoredPersists(n1, i, r, Persisted(0, 0, 0, 0), f.commitSlot);
  }

  lemma MetadataKeepsSlots(m: Nvs, j: byte, floor: u32, a: Outcome, f: Outcome, k: Outcome, i: nat, r: Record)
    requires Anchored(m, i, r)
    ensures forall x :: x in WriteMetadata(m, j, floor, a, f, k).1 ==> Anchored(x, i, r)
  {
    hide Blob;
    var m2 := m.SetActive(j, a).SetFloor(floor, f);
    assert m2.Slot(i) == m.Slot(i);
    AnchoredPersists(m2, i, r, Persisted(0, 0, 0, 0), k);
  }

  /** A stage writes only the inactive slot: the confirmed record stays where it is at every flash state. */
  lemma StageKeepsActive(s: Store, n: Nvs, c: Record, f: StageFaults, at: nat, i: nat, r: Record)
    requires s.activeSlot <= 1 && i <= 1 && (s.ready ==> i == 1 - InactiveSlot(s)) && Anchored(n, i, r)
    ensures Anchored(StageAndCommit(s, n, c, f).At(at), i, r)
  {
    hide Blob, Decode, Usable, Anchored, WriteSlot, WriteMetadata;
    var j := InactiveSlot(s);
    if s.ready {
      var front := WriteSlot(n, j, Blob(c), f).1;
      SlotWriteKeepsOther(n, j, Blob(c), f, i, r);
      MetadataKeepsSlots(front[|front| - 1], j, c.sequence, f.setActive, f.setFloor, f.commit, i, r);
    }
  }

  lemma StageKeepsInv(l: Life, c: Record, f: StageFaults)
    requires Inv(l)
    ensures Inv(LifeStep(l, StageCall(c, f)))
  {
    var s, n := l.store, l.nvs;
    var run := StageAndCommit(s, n, c, f);
    if run.ok {
      StageRan(s, n, c, f);
      hide StageAndCommit, Blob, Decode;
      InstalledKeepsInv(l, run, c);
    } else {
      FailedStageKeepsStore(s, n, c, f);
      if s.ready {
        if s.hasActive { StageKeepsActive(s, n, c, f, |run.path|, s.activeSlot, s.activeRecord); }
      } else {
        assert run.path == [n];
      }
      hide StageAndCommit, Blob, Decode;
      RefusedKeepsInv(l, run);
    }
  }

  lemma InstalledKeepsInv(l: Life, run: Run, c: Record)
    requires Inv(l) && l.store.ready && run.path != [] && run.ok
    requires SequenceIsNewer(c.sequence, l.store.installedFloor) && Usable(c)
    requires run.store == InstalledStore(l.store, c)
    requires run.Final().Slot(InactiveSlot(l.store)) == Cell(Some(Blob(c)), [])
    ensures Inv(After(l, run))
  {
    hide Blob, Decode, Usable;
    assert Anchored(run.Final(), run.store.activeSlot, c);
    var h, h' := l.confirmed, After(l, run).confirmed;
    assert h' == h + [Confirmation(c.sequence, Some(c))];
    assert forall i :: 0 <= i < |h| ==> h[i].floor <= h[|h| - 1].floor;
  }

  lemma RefusedKeepsInv(l: Life, run: Run)
    requires Inv(l) && run.path != [] && !run.ok && run.store == l.store
    requires !l.store.ready ==> run.Final() == l.nvs
    requires l.store.ready && l.store.hasActive ==> Anchored(run.Final(), l.store.activeSlot, l.store.activeRecord)
    ensures Inv(After(l, run))
  {
    hide Blob, Decode, Usable;
  }

  lemma CutStageKeepsInv(l: Life, c: Record, f: StageFaults, at: nat, p: Persisted)
    requires Inv(l)
    ensures Inv(LifeStep(l, CutInStage(c, f, at, p)))
  {
    hide StageAndCommit, Anchored, Kept, Blob;
    var s, n := l.store, l.nvs;
    KeptInStage(l, c, f, at);
    DarkKeepsInv(l, StageAndCommit(s, n, c, f).At(at), p);
  }

  /** Whatever flash state a staging call is cut at, the last report is still kept. */
  lemma KeptInStage(l: Life, c: Record, f: StageFaults, at: nat)
    requires Inv(l)
    ensures l.confirmed != [] ==> Kept(StageAndCommit(l.store, l.nvs, c, f).At(at), l.confirmed[|l.confirmed| - 1])
  {
    hide StageAndCommit, Anchored, Blob;
    var s, n := l.store, l.nvs;
    if !s.ready {
      ClosedStageIdle(s, n, c, f);
    } else if s.hasActive {
      StageKeepsActive(s, n, c, f, at, s.activeSlot, s.activeRecord);
    }
  }

  lemma ClosedStageIdle(s: Store, n: Nvs, c: Record, f: StageFaults)
    requires !s.ready && s.activeSlot <= 1
    ensures StageAndCommit(s, n, c, f).path == [n]
  {
    hide Blob, Decode, Usable;
  }

  lemma StepKeepsInv(l: Life, e: StoreEvent)
    requires Inv(l)
    ensures Inv(LifeStep(l, e))
    ensures l.confirmed <= LifeStep(l, e).confirmed
  {
    hide Inv, Begin, StageAndCommit;
    match e
    case BeginCall(f) => BeginKeepsInv(l, f);
    case StageCall(c, f) => StageKeepsInv(l, c, f);
    case PowerCut(p) => CutKeepsInv(l, p);
    case CutInStage(c, f, at, p) => CutStageKeepsInv(l, c, f, at, p);
    case CutInBegin(f, at, p) => CutBeginKeepsInv(l, f, at, p);
  }

  lemma CutKeepsInv(l: Life, p: Persisted)
    requires Inv(l)
    ensures Inv(LifeStep(l, PowerCut(p))) && l.confirmed <= LifeStep(l, PowerCut(p)).confirmed
  {
    DarkKeepsInv(l, l.nvs, p);
    hide Inv;
  }

  lemma CutBeginKeepsInv(l: Life, f: BeginFaults, at: nat, p: Persisted)
    requires Inv(l)
    ensures Inv(LifeStep(l, CutInBegin(f, at, p)))
  {
    if l.store.ready {
      DarkKeepsInv(l, l.nvs, p);
    } else {
      if l.confirmed != [] { BeginKeeps(l.store, l.nvs, f, at, l.confirmed[|l.confirmed| - 1]); }
      DarkKeepsInv(l, Begin(l.store, l.nvs, f).At(at), p);
    }
    hide Inv;
  }

  /**
   * Monotone life history: along every life, the reported floor never decreases and no two different records are ever
   * reported at one sequence.
   */
  lemma {:induction false} LifeIsMonotone(l: Life, events: seq<StoreEvent>)
    requires Fresh(l)
    ensures Inv(Lived(l, events)) && Monotone(Lived(l, events).confirmed)
  {
    if events != [] {
      LifeIsMonotone(l, events[..|events| - 1]);
      hide Inv, LifeStep;
      StepKeepsInv(Lived(l, events[..|events| - 1]), events[|events| - 1]);
    }
  }

  /** Each successful stage, at any point of any life, strictly raises every floor reported before it. */
  lemma StageRaisesFloor(l: Life, events: seq<StoreEvent>, c: Record, f: StageFaults, i: nat)
    requires Fresh(l)
    requires
      var before := Lived(l, events);
      before.store.activeSlot <= 1 && StageAndCommit(before.store, before.nvs, c, f).ok && i < |before.confirmed|
    ensures
      var before := Lived(l, events);
      LifeStep(before, StageCall(c, f)).confirmed == before.confirmed + [Confirmation(c.sequence, Some(c))]
      && before.confirmed[i].floor < c.sequence
  {
    hide StageAndCommit, Lived, Usable, Blob;
    LifeIsMonotone(l, events);
    var before := Lived(l, events);
    StageRan(before.store, before.nvs, c, f);
  }

  /** A begin that works reports every earlier confirmation's floor or a higher one, and the same record at the same floor. */
  lemma BeginNeverFallsBack(l: Life, events: seq<StoreEvent>, f: BeginFaults, i: nat)
    requires Fresh(l)
    requires
      var before := Lived(l, events);
      Begin(before.store, before.nvs, f).ok && i < |before.confirmed|
    ensures
      var before := Lived(l, events);
      var now := Reported(Begin(before.store, before.nvs, f).store);
      before.confirmed[i].floor <= now.floor && (before.confirmed[i].floor == now.floor ==> before.confirmed[i].active == now.active)
  {
    var more := events + [BeginCall(f)];
    assert more[..|more| - 1] == events;
    LifeIsMonotone(l, more);
    var h := Lived(l, more).confirmed;
    assert h[i] == Lived(l, events).confirmed[i];
    hide Inv, Begin;
  }
}
