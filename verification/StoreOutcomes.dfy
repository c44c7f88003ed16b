/** When the store's two operations succeed, over every combination of failing flash calls, and what a boot repairs. */
module StoreOutcomes {
  import opened Bits
  import opened CalibrationRecord
  import opened SlotSelection
  import opened NvsStore
  import opened StoreRecovery

  /**
   * Staging succeeds if and only if the store is ready, the record is usable and newer than the floor, and every one of
   * the six flash calls works.
   */
  lemma StageOkIff(s: Store, n: Nvs, c: Record, f: StageFaults)
    requires s.activeSlot <= 1
    ensures StageAndCommit(s, n, c, f).ok <==>
      && s.ready && c.sequence > s.installedFloor && c.sequence != 0 && c.sequence != 0xFFFF_FFFF && Usable(c)
      && f == NO_STAGE_FAULTS
  {
    hide Decode, Blob;
    if Usable(c) { DecodeEncode(c); }
  }

  predicate Readable(slot: Cell<seq<byte>>)
  {
    slot.View().Some? ==> |slot.View().value| == BLOB_SIZE
  }

  /** The flash that a boot sees. */
  function SlotsSeen(n: Nvs): seq<Slot>
  {
    [n.slot0.View(), n.slot1.View()]
  }

  /** The metadata keys already say what selection says. */
  predicate MetadataCurrent(n: Nvs, i: nat, r: Record)
  {
    n.active.View() == Some(if i == 0 then 0 else 1) && FloorOf(n.floor.View()) == r.sequence
  }

  /**
   * A boot succeeds if and only if its opening and reading calls work, the slots have the right size, and either both
   * slots and the floor are absent, or one slot is the chosen one at or above the stored floor and the metadata is
   * current or its repair works.
   */
  lemma BeginOkIff(n: Nvs, f: BeginFaults)
    ensures Begin(CLOSED, n, f).ok <==>
      && f.open.Works? && f.getFloor.Works? && f.read0.Works? && f.read1.Works?
      && Readable(n.slot0) && Readable(n.slot1)
      && (|| (n.slot0.View() == None && n.slot1.View() == None && FloorOf(n.floor.View()) == 0)
          || exists i, r :: Chosen(SlotsSeen(n), FloorOf(n.floor.View()), i, r)
               && ((f.setActive.Works? && f.setFloor.Works? && f.commit.Works?)
                   || (f.getActive.Works? && MetadataCurrent(n, i, r))))
  {
    hide SelectSlot, Chosen;
    var slot0, slot1, floor := n.slot0.View(), n.slot1.View(), FloorOf(n.floor.View());
    SelectSlotMeaning(slot0, slot1, floor);
    var sel := SelectSlot(slot0, slot1, floor);
    if sel.Selected? {
      assert Chosen(SlotsSeen(n), floor, sel.slot, sel.record);
      ChosenFacts(SlotsSeen(n), floor, sel.slot, sel.record);
    }
    if i: nat, r: Record :| Chosen(SlotsSeen(n), floor, i, r) {
      assert sel == Selected(i, r);
    }
  }

  lemma ChosenFacts(slots: seq<Slot>, floor: u32, i: nat, r: Record)
    requires |slots| == 2 && Chosen(slots, floor, i, r)
    ensures i < 2 && floor <= r.sequence && Max(floor, r.sequence) == r.sequence
  {}

  /**
   * A boot that finds a record leaves the flash saying so: on the flash, beyond any later power cut, the floor key holds
   * the record's sequence, the active key its slot, and the slots are as they were. A floor once raised by an install is
   * therefore never lowered by a boot.
   */
  lemma BeginRepairs(n: Nvs, f: BeginFaults)
    requires n.Quiet() && Begin(CLOSED, n, f).ok && Begin(CLOSED, n, f).store.hasActive
    ensures
      var run := Begin(CLOSED, n, f);
      && run.Final().Quiet() && SlotsKept(n, run.Final())
      && run.Final().floor.durable == Some(run.store.activeRecord.sequence)
      && run.Final().active.durable == Some(run.store.activeSlot)
      && run.store.installedFloor == run.store.activeRecord.sequence >= FloorOf(n.floor.durable)
  {
    hide SelectSlot, Chosen, WriteMetadata;
    var slot0, slot1, floor := n.slot0.View(), n.slot1.View(), FloorOf(n.floor.View());
    SelectSlotMeaning(slot0, slot1, floor);
    var sel := SelectSlot(slot0, slot1, floor);
    if sel.Selected? {
      ChosenFacts([slot0, slot1], floor, sel.slot, sel.record);
      ChosenNotZero([slot0, slot1], floor, sel.slot, sel.record);
      var i: byte := if sel.slot == 0 then 0 else 1;
      if WriteMetadata(n, i, sel.record.sequence, f.setActive, f.setFloor, f.commit).0 {
        WrittenMetadata(n, i, sel.record.sequence, f.setActive, f.setFloor, f.commit);
      }
    }
  }

  lemma ChosenNotZero(slots: seq<Slot>, floor: u32, i: nat, r: Record)
    requires |slots| == 2 && Chosen(slots, floor, i, r)
    ensures r.sequence > 0
  {}

  /** A store that is ready stays as it is when it is opened again; one that was left open without being ready starts afresh. */
  lemma BeginAgain(s: Store, n: Nvs, f: BeginFaults)
    ensures s.ready ==> Begin(s, n, f) == Run(true, s, [n])
    ensures !s.ready && s.isOpen ==> Begin(s, n, f) == Begin(CLOSED, n, f)
  {
    hide SelectSlot, WriteMetadata, ReadSlot;
  }
}
