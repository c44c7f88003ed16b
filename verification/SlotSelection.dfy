/** Which of the two calibration slots a boot selects. */
module SlotSelection {
  import opened Bits
  import opened CalibrationRecord

  datatype Selection =
    | Empty
    | Selected(slot: nat, record: Record)
    | Ambiguous
    | RollbackDetected
    | Corrupt

  const MAX_SEQUENCE: u32 := 0xFFFF_FFFE

  predicate SequenceIsNewer(candidate: u32, floor: u32)
  {
    candidate != 0 && candidate != 0xFFFF_FFFF && candidate > floor
  }

  /** A slot as read from flash: absent, or the bytes found there. */
  type Slot = Option<seq<byte>>

  function SlotRecord(slot: Slot): Option<Record>
  {
    match slot
    case None => None
    case Some(blob) => Decode(blob)
  }

  function SelectSlot(slot0: Slot, slot1: Slot, floor: u32): Selection
  {
    var d0, d1 := SlotRecord(slot0), SlotRecord(slot1);
    if (slot0.Some? && d0.None?) || (slot1.Some? && d1.None?) then Corrupt
    else if d0.None? && d1.None? then
      if floor == 0 then Empty else RollbackDetected
    else if d0.Some? && d1.Some? && d0.value.sequence == d1.value.sequence && slot0 != slot1 then Ambiguous
    else
      var take1 := d0.None? || (d1.Some? && d1.value.sequence > d0.value.sequence);
      var r := if take1 then d1.value else d0.value;
      if r.sequence == 0 || r.sequence == 0xFFFF_FFFF || r.sequence < floor then RollbackDetected
      else Selected(if take1 then 1 else 0, r)
  }

  /** The sequence a slot contributes; an absent slot counts as sequence zero. */
  function SlotSequence(slot: Slot): u32
  {
    if SlotRecord(slot).Some? then SlotRecord(slot).value.sequence else 0
  }

  /** What selection means: the sound slots' highest sequence, at or above the floor, with no two readings of it. */
  ghost predicate Chosen(slots: seq<Slot>, floor: u32, i: nat, r: Record)
    requires |slots| == 2
  {
    && i < 2
    && SlotRecord(slots[i]) == Some(r)
    && floor <= r.sequence && 0 < r.sequence <= MAX_SEQUENCE
    && (forall j :: 0 <= j < 2 && slots[j].Some? ==> SlotRecord(slots[j]).Some?)
    && (forall j :: 0 <= j < 2 ==> SlotSequence(slots[j]) <= r.sequence)
    && (forall j :: 0 <= j < 2 && SlotSequence(slots[j]) == r.sequence ==> slots[j] == slots[i])
    && (i == 1 ==> SlotSequence(slots[0]) < r.sequence)
  }

  /** Selection succeeds on a slot exactly when that slot is the chosen one, and is empty only on a blank device. */
  lemma SelectSlotMeaning(slot0: Slot, slot1: Slot, floor: u32)
    ensures forall i, r :: SelectSlot(slot0, slot1, floor) == Selected(i, r) <==> Chosen([slot0, slot1], floor, i, r)
    ensures SelectSlot(slot0, slot1, floor) == Empty <==> slot0.None? && slot1.None? && floor == 0
  {
    hide SelectSlot, Chosen;
    EmptyMeaning(slot0, slot1, floor);
    var sel := SelectSlot(slot0, slot1, floor);
    if sel.Selected? { SelectedIsChosen(slot0, slot1, floor); }
    forall i: nat, r: Record | Chosen([slot0, slot1], floor, i, r)
      ensures sel == Selected(i, r)
    {
      ChosenIsSelected(slot0, slot1, floor, i, r);
    }
  }

  lemma EmptyMeaning(slot0: Slot, slot1: Slot, floor: u32)
    ensures SelectSlot(slot0, slot1, floor) == Empty <==> slot0.None? && slot1.None? && floor == 0
  {
    hide Decode;
  }

  lemma SelectedIsChosen(slot0: Slot, slot1: Slot, floor: u32)
    requires SelectSlot(slot0, slot1, floor).Selected?
    ensures
      var sel := SelectSlot(slot0, slot1, floor);
      Chosen([slot0, slot1], floor, sel.slot, sel.record)
  {
    hide SlotRecord;
    assert slot0.None? ==> SlotRecord(slot0) == None by { AbsentHasNoRecord(slot0); }
    assert slot1.None? ==> SlotRecord(slot1) == None by { AbsentHasNoRecord(slot1); }
  }

  lemma AbsentHasNoRecord(slot: Slot)
    ensures slot.None? ==> SlotRecord(slot) == None
  {}

  lemma ChosenIsSelected(slot0: Slot, slot1: Slot, floor: u32, i: nat, r: Record)
    requires Chosen([slot0, slot1], floor, i, r)
    ensures SelectSlot(slot0, slot1, floor) == Selected(i, r)
  {
    hide Decode;
    var slots := [slot0, slot1];
    assert SlotSequence(slots[0]) <= r.sequence && SlotSequence(slots[1]) <= r.sequence;
    assert slots[0].Some? ==> SlotRecord(slots[0]).Some?;
    assert slots[1].Some? ==> SlotRecord(slots[1]).Some?;
  }
}
