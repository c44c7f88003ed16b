/** The dual-slot calibration store of the maintenance firmware over a flash that may fail or lose power at any call. */
module NvsStore {
  import opened Bits
  import opened CalibrationRecord
  import opened SlotSelection

  // Flash: every key holds a durable value and the writes not yet committed. Single-key writes are not torn.

  datatype Cell<T> = Cell(durable: Option<T>, pending: seq<T>) {
    function View(): Option<T>
    {
      if pending == [] then durable else Some(pending[|pending| - 1])
    }

    function Write(v: T): Cell<T>
    {
      this.(pending := pending + [v])
    }

    /** The first n uncommitted writes reach the flash. */
    function Persist(n: nat): Cell<T>
    {
      var k := if n < |pending| then n else |pending|;
      if k == 0 then this else Cell(Some(pending[k - 1]), pending[k..])
    }

    /** Power is lost after n uncommitted writes reached the flash. */
    function Cut(n: nat): Cell<T>
    {
      Cell(Persist(n).durable, [])
    }

    function Flush(): Cell<T>
    {
      Cut(|pending|)
    }

    /** v is a value this key may hold after a power cut. */
    ghost predicate MayHold(v: Option<T>)
    {
      v == durable || exists i :: 0 <= i < |pending| && v == Some(pending[i])
    }

    lemma CutHolds(n: nat)
      ensures MayHold(Cut(n).durable)
      ensures forall v :: Persist(n).MayHold(v) ==> MayHold(v)
    {}

    lemma CutReaches(v: Option<T>)
      requires MayHold(v)
      ensures exists n: nat :: Cut(n).durable == v
    {
      if v == durable {
        assert Cut(0).durable == v;
      } else {
        var i :| 0 <= i < |pending| && v == Some(pending[i]);
        assert Cut(i + 1).durable == v;
      }
    }
  }

  datatype Persisted = Persisted(slot0: nat, slot1: nat, active: nat, floor: nat)

  /** How one flash call ends. A failed call may still have taken effect in part. */
  datatype Outcome = Works | Fails(kept: bool, persisted: Persisted)

  datatype Nvs = Nvs(slot0: Cell<seq<byte>>, slot1: Cell<seq<byte>>, active: Cell<byte>, floor: Cell<u32>) {
    function Slot(i: nat): Cell<seq<byte>>
    {
      if i == 0 then slot0 else slot1
    }

    function SetSlot(i: nat, blob: seq<byte>, o: Outcome): Nvs
    {
      if o.Fails? && !o.kept then this
      else if i == 0 then this.(slot0 := slot0.Write(blob))
      else this.(slot1 := slot1.Write(blob))
    }

    function SetActive(i: byte, o: Outcome): Nvs
    {
      if o.Fails? && !o.kept then this else this.(active := active.Write(i))
    }

    function SetFloor(v: u32, o: Outcome): Nvs
    {
      if o.Fails? && !o.kept then this else this.(floor := floor.Write(v))
    }

    function Commit(o: Outcome): Nvs
    {
      match o
      case Works => Nvs(slot0.Flush(), slot1.Flush(), active.Flush(), floor.Flush())
      case Fails(_, p) =>
        Nvs(slot0.Persist(p.slot0), slot1.Persist(p.slot1), active.Persist(p.active), floor.Persist(p.floor))
    }

    function PowerCut(p: Persisted): Nvs
    {
      Nvs(slot0.Cut(p.slot0), slot1.Cut(p.slot1), active.Cut(p.active), floor.Cut(p.floor))
    }

    predicate Quiet()
    {
      slot0.pending == [] && slot1.pending == [] && active.pending == [] && floor.pending == []
    }
  }

  function FloorOf(v: Option<u32>): u32
  {
    if v.Some? then v.value else 0
  }

  // The store object as a value, and its operations as functions over store and flash.

  datatype Store = Store(
    installedFloor: u32, activeSlot: byte, hasActive: bool, isOpen: bool, ready: bool, activeRecord: Record)

  const CLOSED := Store(0, 0, false, false, false, EMPTY_RECORD)

  function ActiveOf(s: Store): Option<Record>
  {
    if s.ready && s.hasActive then Some(s.activeRecord) else None
  }

  /** The flash states one operation passes through, the first being the state it started from. */
  datatype Run = Run(ok: bool, store: Store, path: seq<Nvs>) {
    function Final(): Nvs
      requires path != []
    {
      path[|path| - 1]
    }

    /** The flash when power is lost after the at-th state was reached. */
    function At(at: nat): Nvs
      requires path != []
    {
      path[if at < |path| then at else |path| - 1]
    }
  }

  datatype BeginFaults = BeginFaults(
    open: Outcome, getFloor: Outcome, read0: Outcome, read1: Outcome,
    getActive: Outcome, setActive: Outcome, setFloor: Outcome, commit: Outcome)

  const NO_BEGIN_FAULTS := BeginFaults(Works, Works, Works, Works, Works, Works, Works, Works)

  datatype StageFaults = StageFaults(
    setSlot: Outcome, commitSlot: Outcome, readback: Outcome, setActive: Outcome, setFloor: Outcome, commit: Outcome)

  const NO_STAGE_FAULTS := StageFaults(Works, Works, Works, Works, Works, Works)

  /** A slot read gives nothing when the call fails or the stored blob has the wrong size. */
  function ReadSlot(cell: Cell<seq<byte>>, o: Outcome): Option<Slot>
  {
    if o.Fails? then None
    else
      match cell.View()
      case None => Some(None)
      case Some(blob) => if |blob| == BLOB_SIZE then Some(Some(blob)) else None
  }

  function WriteMetadata(n: Nvs, slot: byte, floor: u32, setActive: Outcome, setFloor: Outcome, commit: Outcome)
    : (r: (bool, seq<Nvs>))
    ensures r.1 != [] && r.1[0] == n
  {
    var n1 := n.SetActive(slot, setActive);
    if setActive.Fails? then (false, [n, n1])
    else
      var n2 := n1.SetFloor(floor, setFloor);
      if setFloor.Fails? then (false, [n, n1, n2])
      else
        var n3 := n2.Commit(commit);
        (commit.Works?, [n, n1, n2, n3])
  }

  function Max(a: u32, b: u32): u32
  {
    if a < b then b else a
  }

  function Begin(s: Store, n: Nvs, f: BeginFaults): (run: Run)
    ensures run.path != [] && run.path[0] == n
  {
    if s.ready then Run(true, s, [n])
    else
      var base := if s.isOpen then CLOSED else s;
      if f.open.Fails? then Run(false, base, [n])
      else if f.getFloor.Fails? then Run(false, CLOSED, [n])
      else
        var storedFloor := FloorOf(n.floor.View());
        var r0, r1 := ReadSlot(n.slot0, f.read0), ReadSlot(n.slot1, f.read1);
        if r0.None? || r1.None? then Run(false, CLOSED, [n])
        else
          match SelectSlot(r0.value, r1.value, storedFloor)
          case Empty => Run(true, base.(installedFloor := 0, hasActive := false, isOpen := true, ready := true), [n])
          case Selected(i, r) =>
            var floor := Max(storedFloor, r.sequence);
            var loaded := Store(floor, if i == 0 then 0 else 1, true, true, true, r);
            var needsRepair :=
              f.getActive.Fails? || n.active.View() != Some(loaded.activeSlot) || storedFloor != floor;
            if !needsRepair then Run(true, loaded, [n])
            else
              var (ok, path) := WriteMetadata(n, loaded.activeSlot, floor, f.setActive, f.setFloor, f.commit);
              Run(ok, if ok then loaded else CLOSED, path)
          case _ => Run(false, CLOSED, [n])
  }

  function InactiveSlot(s: Store): byte
    requires s.activeSlot <= 1
  {
    if s.hasActive then 1 - s.activeSlot else 0
  }

  /** Writes the encoded record into a slot, commits and reads it back. */
  function WriteSlot(n: Nvs, i: byte, blob: seq<byte>, f: StageFaults): (r: (bool, seq<Nvs>))
    ensures r.1 != [] && r.1[0] == n
  {
    var n1 := n.SetSlot(i, blob, f.setSlot);
    if f.setSlot.Fails? then (false, [n, n1])
    else
      var n2 := n1.Commit(f.commitSlot);
      (f.commitSlot.Works? && ReadSlot(n2.Slot(i), f.readback) == Some(Some(blob)), [n, n1, n2])
  }

  function StageAndCommit(s: Store, n: Nvs, c: Record, f: StageFaults): (run: Run)
    requires s.activeSlot <= 1
    ensures run.path != [] && run.path[0] == n
  {
    if !s.ready || !SequenceIsNewer(c.sequence, s.installedFloor) || !Usable(c) then Run(false, s, [n])
    else
      var blob := Blob(c);
      var i := InactiveSlot(s);
      var (written, front) := WriteSlot(n, i, blob, f);
      var decoded := Decode(blob);
      if !written || decoded.None? || decoded.value.sequence != c.sequence then Run(false, s, front)
      else
        var (ok, tail) := WriteMetadata(front[|front| - 1], i, c.sequence, f.setActive, f.setFloor, f.commit);
        var installed := Store(decoded.value.sequence, i, true, s.isOpen, s.ready, decoded.value);
        Run(ok, if ok then installed else s, front + tail)
  }

  /** The firmware's store object, updated in place; `path` records the flash state after every call that writes. */
  class CalibrationNvsStore {
    var nvs: Nvs
    var installedFloor: u32
    var activeSlot: byte
    var hasActive: bool
    var isOpen: bool
    var ready: bool
    var activeRecord: Record

    ghost function State(): Store
      reads this
    {
      Store(installedFloor, activeSlot, hasActive, isOpen, ready, activeRecord)
    }

    constructor (flash: Nvs)
      ensures State() == CLOSED && nvs == flash
    {
      nvs := flash;
      installedFloor, activeSlot, hasActive, isOpen, ready := 0, 0, false, false, false;
      activeRecord := EMPTY_RECORD;
    }

    method ResetFailedOpen()
      modifies this
      ensures State() == CLOSED && nvs == old(nvs)
    {
      installedFloor, activeSlot, hasActive, isOpen, ready := 0, 0, false, false, false;
      activeRecord := EMPTY_RECORD;
    }

    method StoreMetadata(slot: byte, floor: u32, setActive: Outcome, setFloor: Outcome, commit: Outcome)
      returns (ok: bool, ghost path: seq<Nvs>)
      modifies this`nvs
      ensures (ok, path) == WriteMetadata(old(nvs), slot, floor, setActive, setFloor, commit)
      ensures nvs == path[|path| - 1]
    {
      ghost var n0 := nvs;
      nvs := nvs.SetActive(slot, setActive);
      ghost var n1 := nvs;
      if setActive.Fails? { return false, [n0, n1]; }
      nvs := nvs.SetFloor(floor, setFloor);
      ghost var n2 := nvs;
      if setFloor.Fails? { return false, [n0, n1, n2]; }
      nvs := nvs.Commit(commit);
      path := [n0, n1, n2, nvs];
      ok := commit.Works?;
    }

    method Open(f: BeginFaults) returns (ok: bool, ghost path: seq<Nvs>)
      modifies this
      ensures Run(ok, State(), path) == Begin(old(State()), old(nvs), f)
      ensures nvs == path[|path| - 1]
    {
      hide Decode, SelectSlot, WriteMetadata, ReadSlot, Max;
      path := [nvs];
      if ready { return true, path; }
      if isOpen { ResetFailedOpen(); }
      if f.open.Fails? { return false, path; }
      isOpen := true;

      if f.getFloor.Fails? { ResetFailedOpen(); return false, path; }
      var storedFloor := FloorOf(nvs.floor.View());
      var slot0, slot1 := ReadSlot(nvs.slot0, f.read0), ReadSlot(nvs.slot1, f.read1);
      if slot0.None? || slot1.None? { ResetFailedOpen(); return false, path; }

      var selected := SelectSlot(slot0.value, slot1.value, storedFloor);
      if selected.Empty? {
        installedFloor := 0;
        hasActive := false;
        ready := true;
        return true, path;
      }
      if !selected.Selected? { ResetFailedOpen(); return false, path; }

      installedFloor := Max(storedFloor, selected.record.sequence);
      activeSlot := if selected.slot == 0 then 0 else 1;
      activeRecord := selected.record;
      hasActive := true;
      if f.getActive.Fails? || nvs.active.View() != Some(activeSlot) || storedFloor != installedFloor {
        var repaired;
        repaired, path := StoreMetadata(activeSlot, installedFloor, f.setActive, f.setFloor, f.commit);
        if !repaired { ResetFailedOpen(); return false, path; }
      }
      ready := true;
      ok := true;
    }

    method LoadActive() returns (out: Option<Record>)
      ensures out == ActiveOf(State())
    {
      if !ready || !hasActive { return None; }
      out := Some(activeRecord);
    }

    method StoreSlot(slot: byte, blob: seq<byte>, f: StageFaults) returns (ok: bool, ghost path: seq<Nvs>)
      modifies this`nvs
      ensures (ok, path) == WriteSlot(old(nvs), slot, blob, f)
      ensures nvs == path[|path| - 1]
    {
      ghost var n0 := nvs;
      nvs := nvs.SetSlot(slot, blob, f.setSlot);
      path := [n0, nvs];
      if f.setSlot.Fails? { return false, path; }
      ghost var n1 := nvs;
      nvs := nvs.Commit(f.commitSlot);
      path := [n0, n1, nvs];
      if f.commitSlot.Fails? { return false, path; }
      var readback := ReadSlot(nvs.Slot(slot), f.readback);
      ok := readback == Some(Some(blob));
    }

    method Stage(c: Record, f: StageFaults) returns (ok: bool, ghost path: seq<Nvs>)
      requires activeSlot <= 1
      modifies this
      ensures Run(ok, State(), path) == StageAndCommit(old(State()), old(nvs), c, f)
      ensures nvs == path[|path| - 1]
    {
      hide Blob, Decode, WriteSlot, WriteMetadata;
      path := [nvs];
      if !ready || !SequenceIsNewer(c.sequence, installedFloor) { return false, path; }
      if !LinearUsable(c.temperature) || !LinearUsable(c.current) { return false, path; }
      var encoded := Blob(c);
      var slot := if hasActive then 1 - activeSlot else 0;
      var written;
      written, path := StoreSlot(slot, encoded, f);
      if !written { return false, path; }
      var decoded := Decode(encoded);
      if decoded.None? || decoded.value.sequence != c.sequence { return false, path; }

      ghost var front := path;
      written, path := StoreMetadata(slot, c.sequence, f.setActive, f.setFloor, f.commit);
      path := front + path;
      if !written { return false, path; }
      activeSlot := slot;
      activeRecord := decoded.value;
      installedFloor := decoded.value.sequence;
      hasActive := true;
      ok := true;
    }
  }
}
