/** Whole lives of a device: frames, gate changes, boots and power cuts; where every installed record came from. */
module DeviceRuns {
  import opened Bits
  import opened CalibrationRecord
  import opened SlotSelection
  import opened NvsStore
  import opened StoreRecovery
  import opened StoreLife
  import opened MaintenanceDevice

  /** Flash, store and reports, plus the globals while the device is powered. */
  datatype Device = Device(life: Life, ram: Option<Ram>)

  /** What a boot finds besides the flash. */
  datatype Boot = Boot(identityReady: bool, flashReady: bool, gateConfigValid: bool, mac: seq<byte>,
                       authority: Option<Authority>, nonce: Nonce)

  datatype Event =
    | PowerOn(boot: Boot, begin: BeginFaults)
    | Deliver(frame: Frame, gates: Gates, nonce: Nonce, stage: StageFaults)
    | PowerOff(lost: Persisted)
    | CutInBoot(boot: Boot, begin: BeginFaults, at: nat, lost: Persisted)
    | CutInFrame(frame: Frame, gates: Gates, nonce: Nonce, stage: StageFaults, at: nat, lost: Persisted)

  function Globals(b: Boot, storeReady: bool): Ram
  {
    Ram(storeReady, b.gateConfigValid && b.identityReady, b.mac, b.nonce, if b.identityReady then b.authority else None,
        false, 0, 0, EMPTY_RECORD, ZERO_BLOB)
  }

  function Handle(d: Device, e: Event): CommitRun
    requires d.ram.Some? && (e.Deliver? || e.CutInFrame?) && d.life.store.activeSlot <= 1
    ensures Handle(d, e).run.path != []
  {
    HandleFrame(d.ram.value, d.life.store, d.life.nvs, e.frame, e.gates, e.nonce, e.stage)
  }

  function Step(d: Device, e: Event): Device
  {
    match e
    case PowerOn(b, f) =>
      if d.ram.Some? then d
      else if !b.identityReady || !b.flashReady then d.(ram := Some(Globals(b, false)))
      else
        var life := LifeStep(d.life, BeginCall(f));
        Device(life, Some(Globals(b, life.store.ready)))
    case Deliver(_, _, _, _) =>
      if d.ram.None? || d.life.store.activeSlot > 1 then d
      else
        var c := Handle(d, e);
        Device(After(d.life, c.run), Some(c.ram))
    case PowerOff(p) => Device(LifeStep(d.life, PowerCut(p)), None)
    case CutInBoot(b, f, at, p) =>
      if d.ram.Some? || !b.identityReady || !b.flashReady then Device(LifeStep(d.life, PowerCut(p)), None)
      else Device(LifeStep(d.life, CutInBegin(f, at, p)), None)
    case CutInFrame(_, _, _, _, at, p) =>
      if d.ram.None? || d.life.store.activeSlot > 1 then Device(LifeStep(d.life, PowerCut(p)), None)
      else Device(Dark(d.life, Handle(d, e).run.At(at).PowerCut(p)), None)
  }

  function Ran(d: Device, es: seq<Event>): Device
  {
    if es == [] then d else Step(Ran(d, es[..|es| - 1]), es[|es| - 1])
  }

  predicate Unboxed(d: Device)
  {
    Fresh(d.life) && d.ram == None
  }

  // Every device step is one step of the store's life, or leaves it alone.

  /** The call a frame makes on the store, if it makes one. */
  predicate Attempts(d: Device, e: Event)
  {
    && (e.Deliver? || e.CutInFrame?) && d.ram.Some? && d.life.store.activeSlot <= 1
    && |Handle(d, e).run.path| > 1
  }

  lemma FrameRuns(m: Ram, s: Store, n: Nvs, frame: Frame, g: Gates, nonce: Nonce, f: StageFaults)
    requires s.activeSlot <= 1
    ensures
      var c := HandleFrame(m, s, n, frame, g, nonce, f);
      if |c.run.path| > 1 then
        && frame.opcode == COMMIT_RECORD && |frame.payload| == 12 && GatesAsserted(m, g) && m.storeReady
        && m.pendingValid && s.installedFloor == m.pendingFloor
        && Read32(frame.payload, 0) == m.bootNonce && Read32(frame.payload, 4) == m.commitNonce
        && c.run == StageAndCommit(s, n, m.pendingRecord, f)
        && (!c.run.ok ==> !c.ram.storeReady) && c.ram.pendingValid == false
      else c.run == Run(false, s, [n])
  {
    hide Decode, Blob, StatusReply, AuthorizationReply, ActiveRecordReply, HandlePrepare;
    var c := HandleFrame(m, s, n, frame, g, nonce, f);
    StageShape(s, n, m.pendingRecord, f);
  }

  lemma StageShape(s: Store, n: Nvs, c: Record, f: StageFaults)
    requires s.activeSlot <= 1
    ensures
      var run := StageAndCommit(s, n, c, f);
      |run.path| == 1 ==> run == Run(false, s, [n])
  {
    hide Decode, Blob;
  }

  ghost predicate DeviceInv(d: Device)
  {
    && Inv(d.life)
    && (d.ram == None ==> d.life.store == CLOSED && d.life.nvs.Quiet())
    && (d.ram.Some? && d.ram.value.storeReady ==> Settled(d.life.store, d.life.nvs))
  }

  lemma BootedInv(d: Device, b: Boot, f: BeginFaults)
    requires DeviceInv(d) && d.ram == None
    ensures DeviceInv(Step(d, PowerOn(b, f)))
  {
    hide Inv, Settled, Begin;
    StepKeepsInv(d.life, BeginCall(f));
    if Begin(CLOSED, d.life.nvs, f).ok {
      BeginSettles(d.life.nvs, f);
    } else {
      FailedBeginCloses(d.life.nvs, f);
    }
  }

  lemma AttemptInv(l: Life, r: Record, f: StageFaults)
    requires Inv(l) && Settled(l.store, l.nvs)
    ensures
      var run := StageAndCommit(l.store, l.nvs, r, f);
      Inv(After(l, run)) && (run.ok ==> Settled(run.store, run.Final()))
  {
    StepKeepsInv(l, StageCall(r, f));
    var run := StageAndCommit(l.store, l.nvs, r, f);
    if run.ok { StageSettles(l.store, l.nvs, r, f); }
    hide Settled, StageAndCommit;
  }

  lemma CutAttemptInv(l: Life, r: Record, f: StageFaults, at: nat, p: Persisted)
    requires Inv(l) && l.store.activeSlot <= 1
    ensures
      var dark := StageAndCommit(l.store, l.nvs, r, f).At(at).PowerCut(p);
      Inv(Dark(l, dark)) && dark.Quiet()
  {
    hide Inv, StageAndCommit;
    StepKeepsInv(l, CutInStage(r, f, at, p));
  }

  lemma PoweredStepInv(d: Device, e: Event)
    requires DeviceInv(d) && d.ram.Some? && (e.Deliver? || e.CutInFrame?)
    ensures DeviceInv(Step(d, e))
  {
    hide HandleFrame, StageAndCommit, Inv, Settled;
    ActiveSlotOf(d);
    var m, s, n := d.ram.value, d.life.store, d.life.nvs;
    FrameRuns(m, s, n, e.frame, e.gates, e.nonce, e.stage);
    var c := Handle(d, e);
    if |c.run.path| > 1 {
      if e.Deliver? { AttemptInv(d.life, m.pendingRecord, e.stage); }
      else { CutAttemptInv(d.life, m.pendingRecord, e.stage, e.at, e.lost); }
    } else {
      FrameStoreReady(m, s, n, e.frame, e.gates, e.nonce, e.stage);
      if e.CutInFrame? { StepKeepsInv(d.life, PowerCut(e.lost)); }
      else { assert After(d.life, c.run) == d.life; }
    }
  }

  lemma ActiveSlotOf(d: Device)
    requires DeviceInv(d)
    ensures d.life.store.activeSlot <= 1
  {}

  lemma FrameStoreReady(m: Ram, s: Store, n: Nvs, frame: Frame, g: Gates, nonce: Nonce, f: StageFaults)
    requires s.activeSlot <= 1
    ensures HandleFrame(m, s, n, frame, g, nonce, f).ram.storeReady ==> m.storeReady
  {
    hide Decode, Blob, StatusReply, AuthorizationReply, ActiveRecordReply, StageAndCommit;
  }

  lemma StepDeviceInv(d: Device, e: Event)
    requires DeviceInv(d)
    ensures DeviceInv(Step(d, e))
  {
    hide DeviceInv, Inv, Handle;
    match e
    case PowerOn(b, f) => if d.ram == None { BootedInv(d, b, f); }
    case Deliver(_, _, _, _) => if d.ram.Some? { PoweredStepInv(d, e); }
    case PowerOff(p) => DarkStepInv(d, PowerCut(p));
    case CutInBoot(b, f, at, p) =>
      DarkStepInv(d, PowerCut(p));
      DarkStepInv(d, CutInBegin(f, at, p));
    case CutInFrame(_, _, _, _, at, p) =>
      if d.ram.Some? { PoweredStepInv(d, e); } else { DarkStepInv(d, PowerCut(p)); }
  }

  /** A power cut of the store leaves a device without power. */
  lemma DarkStepInv(d: Device, e: StoreEvent)
    requires DeviceInv(d) && (e.PowerCut? || e.CutInBegin?)
    ensures DeviceInv(Device(LifeStep(d.life, e), None))
  {
    hide Inv, Begin, Settled;
    StepKeepsInv(d.life, e);
  }

  lemma {:induction false} RunInv(d: Device, es: seq<Event>)
    requires Unboxed(d)
    ensures DeviceInv(Ran(d, es))
  {
    if es != [] {
      RunInv(d, es[..|es| - 1]);
      hide DeviceInv, Step;
      StepDeviceInv(Ran(d, es[..|es| - 1]), es[|es| - 1]);
    }
  }

  // Provenance.

  /** What one accepted PREPARE granted: a record, for one floor, by one signature, to be committed with one nonce. */
  datatype Grant = Grant(floor: u32, root: seq<byte>, blob: seq<byte>, signature: seq<byte>, nonce: Nonce)

  /** A PREPARE request that passes every check. */
  predicate Accepts(m: Ram, s: Store, payload: seq<byte>, g: Gates, nonce: Nonce, grant: Grant)
  {
    && GatesAsserted(m, g) && m.storeReady && m.authority.Some?
    && |payload| == PREPARE_FIXED + |grant.signature|
    && Read32(payload, 0) == m.bootNonce
    && Read32(payload, 4) == grant.floor == s.installedFloor
    && payload[8..40] == grant.root && payload[40..88] == grant.blob && payload[90..] == grant.signature
    && Decode(grant.blob).Some? && SequenceIsNewer(Decode(grant.blob).value.sequence, grant.floor)
    && Verified(m.authority.value, m.mac, grant.floor, grant.root, grant.blob, grant.signature)
    && grant.nonce == nonce
  }

  /** The grant that a PREPARE payload asks for. */
  function GrantOf(payload: seq<byte>, nonce: Nonce): Grant
    requires |payload| >= PREPARE_FIXED
  {
    Grant(Read32(payload, 4), payload[8..40], payload[40..88], payload[90..], nonce)
  }

  /** The globals once this grant is pending. */
  function WithPending(m: Ram, grant: Grant): Ram
  {
    m.(pendingValid := true, pendingFloor := grant.floor, commitNonce := grant.nonce,
       pendingRecord := if Decode(grant.blob).Some? then Decode(grant.blob).value else EMPTY_RECORD,
       pendingBlob := grant.blob)
  }

  /** A PREPARE is answered OK if and only if every check passes, and any other answer clears the pending record. */
  lemma PrepareAnswersOkIff(m: Ram, s: Store, payload: seq<byte>, g: Gates, nonce: Nonce)
    ensures
      var (m', reply) := HandlePrepare(m, s, payload, g, nonce);
      && reply.payload != []
      && (reply.payload[0] == OK <==>
            |payload| > PREPARE_FIXED && Read16(payload, 88) == |payload| - PREPARE_FIXED
            && Accepts(m, s, payload, g, nonce, GrantOf(payload, nonce)))
      && m' == if reply.payload[0] == OK then WithPending(m, GrantOf(payload, nonce)) else ClearPending(m)
  {
    hide Decode, AuthorizationPayload, Le, FromLe;
  }

  /** The globals hold the record of this grant. */
  predicate Holds(m: Ram, grant: Grant)
  {
    && m.pendingValid && m.pendingFloor == grant.floor && m.pendingBlob == grant.blob
    && Decode(grant.blob) == Some(m.pendingRecord) && m.commitNonce == grant.nonce
  }

  /** Event i of the run is an accepted PREPARE with this grant. */
  ghost predicate AcceptedAt(d: Device, es: seq<Event>, i: nat, grant: Grant)
  {
    && i < |es| && es[i].Deliver? && es[i].frame.opcode == PREPARE_RECORD
    && var before := Ran(d, es[..i]);
       before.ram.Some? && Accepts(before.ram.value, before.life.store, es[i].frame.payload, es[i].gates, es[i].nonce, grant)
  }

  /** No power loss among events i up to, not including, j. */
  predicate SameBoot(es: seq<Event>, i: nat, j: nat)
  {
    j <= |es| && forall k :: i <= k < j ==> es[k].Deliver? || es[k].PowerOn?
  }

  lemma FramePending(m: Ram, s: Store, n: Nvs, frame: Frame, g: Gates, nonce: Nonce, f: StageFaults)
    returns (grant: Grant)
    requires s.activeSlot <= 1 && HandleFrame(m, s, n, frame, g, nonce, f).ram.pendingValid
    ensures
      var m' := HandleFrame(m, s, n, frame, g, nonce, f).ram;
      m' == m || (frame.opcode == PREPARE_RECORD && Accepts(m, s, frame.payload, g, nonce, grant) && Holds(m', grant))
  {
    hide Decode, Blob, StatusReply, AuthorizationReply, ActiveRecordReply, StageAndCommit;
    var p := frame.payload;
    if frame.opcode == PREPARE_RECORD && |p| > 90 {
      grant := Grant(Read32(p, 4), p[8..40], p[40..88], p[90..], nonce);
    } else {
      grant := Grant(0, [], [], [], nonce);
    }
  }

  /** Without power loss, a step keeps the pending record, or replaces it by one that was just granted. */
  lemma PendingStep(d: Device, e: Event) returns (grant: Grant)
    requires DeviceInv(d) && HasPending(Step(d, e))
    ensures e.Deliver? || e.PowerOn?
    ensures d.ram.Some?
    ensures
      || Step(d, e).ram == d.ram
      || (e.Deliver? && e.frame.opcode == PREPARE_RECORD && HoldsGrant(Step(d, e), grant)
          && Accepts(d.ram.value, d.life.store, e.frame.payload, e.gates, e.nonce, grant))
  {
    hide Inv, Settled, Accepts, Holds, HandleFrame, Begin;
    ActiveSlotOf(d);
    if e.Deliver? && d.ram.Some? {
      grant := FramePending(d.ram.value, d.life.store, d.life.nvs, e.frame, e.gates, e.nonce, e.stage);
    } else {
      grant := Grant(0, [], [], [], 1);
    }
  }

  predicate HasPending(d: Device)
  {
    d.ram.Some? && d.ram.value.pendingValid
  }

  predicate HoldsGrant(d: Device, grant: Grant)
  {
    d.ram.Some? && Holds(d.ram.value, grant)
  }

  lemma PendingNeedsEvents(d: Device, es: seq<Event>)
    requires Unboxed(d) && HasPending(Ran(d, es))
    ensures es != [] && Ran(d, es) == Step(Ran(d, es[..|es| - 1]), es[|es| - 1])
  {}

  /** A pending record always stems from a PREPARE accepted earlier in the same boot. */
  lemma {:induction false} PendingOrigin(d: Device, es: seq<Event>) returns (i: nat, grant: Grant)
    requires Unboxed(d) && HasPending(Ran(d, es))
    ensures AcceptedAt(d, es, i, grant) && SameBoot(es, i, |es|) && HoldsGrant(Ran(d, es), grant)
  {
    hide Ran, Step, DeviceInv, Accepts, Holds, Unboxed;
    PendingNeedsEvents(d, es);
    var front, e := es[..|es| - 1], es[|es| - 1];
    RunInv(d, front);
    grant := PendingStep(Ran(d, front), e);
    if Ran(d, es).ram == Ran(d, front).ram {
      i, grant := PendingOrigin(d, front);
      AcceptedPrefix(d, es, i, |front|, grant);
      hide AcceptedAt;
      assert forall k :: i <= k < |front| ==> es[k] == front[k];
    } else {
      i := |front|;
    }
  }

  lemma AcceptedPrefix(d: Device, es: seq<Event>, i: nat, j: nat, grant: Grant)
    requires j <= |es| && AcceptedAt(d, es[..j], i, grant)
    ensures i < j && AcceptedAt(d, es, i, grant)
  {
    hide Accepts, Step, Ran;
    assert es[..j][..i] == es[..i];
  }

  lemma AttemptFacts(d: Device, e: Event)
    requires Attempts(d, e)
    ensures
      var m, s := d.ram.value, d.life.store;
      && e.frame.opcode == COMMIT_RECORD && |e.frame.payload| == 12 && GatesAsserted(m, e.gates)
      && m.pendingValid && s.installedFloor == m.pendingFloor && Read32(e.frame.payload, 4) == m.commitNonce
      && Handle(d, e).run == StageAndCommit(s, d.life.nvs, m.pendingRecord, e.stage)
  {
    hide HandleFrame, StageAndCommit;
    FrameRuns(d.ram.value, d.life.store, d.life.nvs, e.frame, e.gates, e.nonce, e.stage);
  }

  /** The commit that event e makes on device d is the one this grant allows. */
  ghost predicate Commits(d: Device, e: Event, grant: Grant)
  {
    && Attempts(d, e)
    && grant.floor == d.life.store.installedFloor
    && e.frame.opcode == COMMIT_RECORD && |e.frame.payload| == 12 && GatesAsserted(d.ram.value, e.gates)
    && Read32(e.frame.payload, 4) == grant.nonce
    && Decode(grant.blob).Some?
    && Handle(d, e).run == StageAndCommit(d.life.store, d.life.nvs, Decode(grant.blob).value, e.stage)
  }

  /**
   * Install provenance. Whenever a frame makes the device write its store, whether or not power lasts through it, the
   * record it writes was granted by a PREPARE accepted in the same boot, signed for the floor the store has just before
   * the write, and both gates are asserted now as they were then.
   */
  lemma InstallProvenance(d: Device, es: seq<Event>, j: nat, before: Device, e: Event) returns (i: nat, grant: Grant)
    requires Unboxed(d) && j < |es| && e == es[j] && before == Ran(d, es[..j])
    requires Attempts(before, e)
    ensures AcceptedAt(d, es, i, grant) && i < j && SameBoot(es, i, j)
    ensures Commits(before, e, grant)
  {
    hide Ran, Unboxed, Attempts, AcceptedAt, HoldsGrant, HasPending, Commits;
    AttemptNeedsPending(before, e);
    i, grant := PendingOrigin(d, es[..j]);
    AcceptedPrefix(d, es, i, j, grant);
    HeldGrantCommits(before, e, grant);
  }

  lemma AttemptNeedsPending(d: Device, e: Event)
    requires Attempts(d, e)
    ensures HasPending(d)
  {
    hide HandleFrame, StageAndCommit;
    AttemptFacts(d, e);
  }

  lemma HeldGrantCommits(d: Device, e: Event, grant: Grant)
    requires Attempts(d, e) && HoldsGrant(d, grant)
    ensures Commits(d, e, grant)
  {
    hide HandleFrame, StageAndCommit, Decode;
    AttemptFacts(d, e);
  }

  /** Powered, with a store that is not open. */
  predicate Shut(d: Device)
  {
    d.ram.Some? && !d.ram.value.storeReady
  }

  lemma ShutStays(d: Device, e: Event)
    requires Shut(d) && d.life.store.activeSlot <= 1 && (e.Deliver? || e.PowerOn?)
    ensures Shut(Step(d, e)) && Step(d, e).life == d.life
  {
    hide HandleFrame, Begin, StageAndCommit;
    if e.Deliver? {
      FrameStoreReady(d.ram.value, d.life.store, d.life.nvs, e.frame, e.gates, e.nonce, e.stage);
      FrameRuns(d.ram.value, d.life.store, d.life.nvs, e.frame, e.gates, e.nonce, e.stage);
    }
  }

  /**
   * A device that once stands without an open store, because its boot found no identity or no flash, its store refused to
   * open, or a commit failed, writes nothing until the power is cut.
   */
  lemma {:induction false} ShutNeverWrites(d: Device, es: seq<Event>, i: nat, j: nat)
    requires Unboxed(d) && i <= j <= |es| && Shut(Ran(d, es[..i])) && SameBoot(es, i, j)
    ensures Shut(Ran(d, es[..j])) && Ran(d, es[..j]).life == Ran(d, es[..i]).life
    ensures j < |es| ==> !Attempts(Ran(d, es[..j]), es[j])
    decreases j - i
  {
    hide Unboxed, Shut, Step, HandleFrame, Attempts, DeviceInv;
    if i < j {
      ShutNeverWrites(d, es, i, j - 1);
      RunInv(d, es[..j - 1]);
      ActiveSlotOf(Ran(d, es[..j - 1]));
      ShutStays(Ran(d, es[..j - 1]), es[j - 1]);
      assert es[..j][..j - 1] == es[..j - 1];
    }
    if j < |es| { ShutAttemptsNothing(Ran(d, es[..j]), es[j]); }
  }

  lemma ShutAttemptsNothing(d: Device, e: Event)
    requires Shut(d)
    ensures !Attempts(d, e)
  {
    hide HandleFrame;
    if Attempts(d, e) { FrameRuns(d.ram.value, d.life.store, d.life.nvs, e.frame, e.gates, e.nonce, e.stage); }
  }

  /** A boot opens the store only with identity and flash in order, and trusts gates and key only with identity. */
  lemma BootTrusts(d: Device, b: Boot, f: BeginFaults)
    requires d.ram == None
    ensures
      var m := Step(d, PowerOn(b, f)).ram.value;
      && (m.storeReady ==> b.identityReady && b.flashReady)
      && (forall g :: GatesAsserted(m, g) ==> b.identityReady && b.gateConfigValid && g == Gates(true, true))
      && (m.authority.Some? ==> b.identityReady && m.authority == b.authority)
      && !m.pendingValid && m.mac == b.mac && m.bootNonce == b.nonce
  {
    hide Begin;
  }
}
