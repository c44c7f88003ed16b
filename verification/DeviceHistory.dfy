/** The confirmed history of a device: every install used a signature for the floor it started from, and used it once. */
module DeviceHistory {
  import opened Bits
  import opened CalibrationRecord
  import opened SlotSelection
  import opened NvsStore
  import opened StoreRecovery
  import opened StoreLife
  import opened MaintenanceDevice
  import opened DeviceRuns

  /**
   * Events i and j are PREPARE and COMMIT of one boot for this grant: accepted with the gates asserted, committed with
   * the gates asserted, and the commit made the store write the granted record over the granted floor.
   */
  ghost predicate Exchanged(d: Device, es: seq<Event>, i: nat, j: nat, g: Grant)
  {
    i < j < |es| && AcceptedAt(d, es, i, g) && SameBoot(es, i, j) && Commits(Ran(d, es[..j]), es[j], g)
  }

  /** Some exchange of the run granted and committed this blob for this floor. */
  ghost predicate Granted(d: Device, es: seq<Event>, floor: u32, blob: seq<byte>)
  {
    exists i, j, g :: Exchanged(d, es, i, j, g) && g.floor == floor && g.blob == blob
  }

  lemma ExchangeStays(d: Device, es: seq<Event>, e: Event, i: nat, j: nat, g: Grant)
    requires Exchanged(d, es, i, j, g)
    ensures Exchanged(d, es + [e], i, j, g)
  {
    hide AcceptedAt, Commits, Ran;
    assert (es + [e])[..|es|] == es && (es + [e])[..j] == es[..j];
    AcceptedPrefix(d, es + [e], i, |es|, g);
  }

  lemma GrantedStays(d: Device, es: seq<Event>, e: Event, floor: u32, blob: seq<byte>)
    requires Granted(d, es, floor, blob)
    ensures Granted(d, es + [e], floor, blob)
  {
    hide Exchanged;
    var i, j, g :| Exchanged(d, es, i, j, g) && g.floor == floor && g.blob == blob;
    ExchangeStays(d, es, e, i, j, g);
  }

  function Floor(d: Device): u32
  {
    if d.life.confirmed == [] then 0 else d.life.confirmed[|d.life.confirmed| - 1].floor
  }

  /** Any value a slot may hold is no newer than the last report, or was granted for the floor of that report. */
  ghost predicate Explained(d: Device, es: seq<Event>, b: Slot, floor: u32)
  {
    SlotSequence(b) <= floor || (b.Some? && Granted(d, es, floor, b.value))
  }

  ghost predicate SlotsExplained(d: Device, es: seq<Event>, n: Nvs, floor: u32)
  {
    && (forall b :: n.slot0.MayHold(b) ==> Explained(d, es, b, floor))
    && (forall b :: n.slot1.MayHold(b) ==> Explained(d, es, b, floor))
  }

  /** Entry t+1 of the history reports another record than entry t. */
  predicate Installs(h: seq<Confirmation>, t: nat)
  {
    t + 1 < |h| && h[t] != h[t + 1]
  }

  ghost predicate InstallsGranted(d: Device, es: seq<Event>, h: seq<Confirmation>)
  {
    forall t: nat :: Installs(h, t) ==>
      h[t + 1].active.Some? && Usable(h[t + 1].active.value) && Granted(d, es, h[t].floor, Blob(h[t + 1].active.value))
  }

  ghost predicate HistoryInv(d: Device, es: seq<Event>, x: Device)
  {
    && DeviceInv(x)
    && (x.life.confirmed != [] ==> SlotsExplained(d, es, x.life.nvs, Floor(x)))
    && InstallsGranted(d, es, x.life.confirmed)
  }

  /** Nothing a run has explained becomes unexplained as it goes on. */
  lemma MoreEvents(d: Device, es: seq<Event>, e: Event, x: Device)
    requires HistoryInv(d, es, x)
    ensures HistoryInv(d, es + [e], x)
  {
    hide DeviceInv, Granted, Blob, SlotSequence, Usable;
    forall floor, blob | Granted(d, es, floor, blob)
      ensures Granted(d, es + [e], floor, blob)
    {
      GrantedStays(d, es, e, floor, blob);
    }
  }

  /** The flash after any partial persistence holds nothing new. */
  lemma CutExplained(d: Device, es: seq<Event>, n: Nvs, floor: u32, p: Persisted)
    requires SlotsExplained(d, es, n, floor)
    ensures SlotsExplained(d, es, n.PowerCut(p), floor)
  {
    hide Explained;
    n.slot0.CutHolds(p.slot0); n.slot1.CutHolds(p.slot1);
  }

  lemma BootHistory(d: Device, es: seq<Event>, x: Device, b: Boot, f: BeginFaults)
    requires HistoryInv(d, es, x) && x.ram == None
    ensures HistoryInv(d, es, Step(x, PowerOn(b, f)))
  {
    hide Begin, Inv, Settled, SlotsExplained, InstallsGranted;
    BootedInv(x, b, f);
    var n := x.life.nvs;
    var run := Begin(CLOSED, n, f);
    BeginSlots(CLOSED, n, f, |run.path|);
    if run.ok {
      BeginReports(n, f);
      if x.life.confirmed != [] { BeginContinues(x.life, run.store); }
      BootReport(d, es, x, run);
    } else if x.life.confirmed != [] {
      SameSlotsExplained(d, es, n, run.Final(), Floor(x));
    }
  }

  lemma SameSlotsExplained(d: Device, es: seq<Event>, n: Nvs, m: Nvs, floor: u32)
    requires SlotsExplained(d, es, n, floor) && n.slot0 == m.slot0 && n.slot1 == m.slot1
    ensures SlotsExplained(d, es, m, floor)
  {
    hide Explained;
  }

  /** A boot that works explains every slot anew: nothing on the flash is newer than what it reports. */
  lemma BootReport(d: Device, es: seq<Event>, x: Device, run: Run)
    requires x.life.confirmed != [] ==> SlotsExplained(d, es, x.life.nvs, Floor(x))
    requires InstallsGranted(d, es, x.life.confirmed)
    requires run.path != [] && run.ok && run.store.ready && run.store.activeSlot <= 1
    requires run.Final().slot0 == x.life.nvs.slot0 && run.Final().slot1 == x.life.nvs.slot1
    requires x.life.nvs.slot0.pending == [] && x.life.nvs.slot1.pending == []
    requires
      var s, slots := run.store, [x.life.nvs.slot0.durable, x.life.nvs.slot1.durable];
      && (!s.hasActive ==> s.installedFloor == 0 && slots == [None, None])
      && (s.hasActive ==> s.installedFloor == s.activeRecord.sequence && Chosen(slots, 0, s.activeSlot, s.activeRecord))
    requires x.life.confirmed != [] ==>
      Floor(x) <= run.store.installedFloor
      && (Floor(x) == run.store.installedFloor ==> x.life.confirmed[|x.life.confirmed| - 1].active == ActiveOf(run.store))
    ensures SlotsExplained(d, es, run.Final(), run.store.installedFloor)
    ensures InstallsGranted(d, es, After(x.life, run).confirmed)
  {
    hide Granted, Blob, Decode, Usable;
    var s := run.store;
    var slots := [x.life.nvs.slot0.durable, x.life.nvs.slot1.durable];
    assert SlotSequence(slots[0]) <= s.installedFloor && SlotSequence(slots[1]) <= s.installedFloor;
    var h := x.life.confirmed;
    if h != [] && h[|h| - 1] != Reported(s) {
      EncodeDecode(slots[s.activeSlot].value);
      assert Explained(d, es, slots[s.activeSlot], Floor(x));
      assert Granted(d, es, Floor(x), Blob(s.activeRecord));
    }
    ExtendInstalls(d, es, h, Reported(s));
  }

  lemma ExtendInstalls(d: Device, es: seq<Event>, h: seq<Confirmation>, c: Confirmation)
    requires InstallsGranted(d, es, h)
    requires h != [] && h[|h| - 1] != c ==>
      c.active.Some? && Usable(c.active.value) && Granted(d, es, h[|h| - 1].floor, Blob(c.active.value))
    ensures InstallsGranted(d, es, h + [c])
  {
    hide Granted, Blob, Usable;
    forall t: nat | Installs(h + [c], t)
      ensures
        var k := h + [c];
        k[t + 1].active.Some? && Usable(k[t + 1].active.value) && Granted(d, es, k[t].floor, Blob(k[t + 1].active.value))
    {
      if t + 1 < |h| { assert Installs(h, t); }
    }
  }

  /** The flash states of a granted attempt hold nothing but what was explained and the granted blob. */
  lemma AttemptExplained(d: Device, es: seq<Event>, s: Store, n: Nvs, r: Record, f: StageFaults, at: nat)
    requires Settled(s, n) && SlotsExplained(d, es, n, s.installedFloor)
    requires Granted(d, es, s.installedFloor, Blob(r))
    ensures SlotsExplained(d, es, StageAndCommit(s, n, r, f).At(at), s.installedFloor)
  {
    hide Settled;
    hide Granted, Blob, StageAndCommit;
    SettledIsAttemptable(s, n, r);
    if Attemptable(s, n, r) {
      StageOnTheWay(s, n, r, f, at);
      var m := StageAndCommit(s, n, r, f).At(at);
      hide Safe;
      OnTheWayExplained(d, es, s, n, r, m);
    }
  }

  lemma OnTheWayExplained(d: Device, es: seq<Event>, s: Store, n: Nvs, r: Record, m: Nvs)
    requires s.activeSlot <= 1 && Safe(s, m) && OnTheWay(s, n, r, m)
    requires SlotsExplained(d, es, n, s.installedFloor) && Granted(d, es, s.installedFloor, Blob(r))
    ensures SlotsExplained(d, es, m, s.installedFloor)
  {
    hide Granted, Blob, Decode;
    if s.hasActive { DecodeEncode(s.activeRecord); }
    forall i, b | 0 <= i <= 1 && m.Slot(i).MayHold(b)
      ensures Explained(d, es, b, s.installedFloor)
    {
      if i == InactiveSlot(s) {
        assert Left(n, i, r, b);
      }
    }
    assert m.Slot(0) == m.slot0 && m.Slot(1) == m.slot1;
  }

  /** A settled flash holds nothing newer than its store reports. */
  lemma SettledExplained(d: Device, es: seq<Event>, s: Store, n: Nvs)
    requires Settled(s, n)
    ensures SlotsExplained(d, es, n, s.installedFloor)
  {
    hide Granted, Blob, Decode;
    if s.hasActive { DecodeEncode(s.activeRecord); }
    forall i, b | 0 <= i <= 1 && n.Slot(i).MayHold(b)
      ensures Explained(d, es, b, s.installedFloor)
    {}
    assert n.Slot(0) == n.slot0 && n.Slot(1) == n.slot1;
  }

  /** The record being written was granted for the floor reported last, and this event commits it. */
  lemma AttemptGranted(d: Device, es: seq<Event>, x: Device, e: Event)
    requires Unboxed(d) && x == Ran(d, es) && DeviceInv(x) && Attempts(x, e)
    ensures
      var m, s := x.ram.value, x.life.store;
      && Settled(s, x.life.nvs) && x.life.confirmed != [] && Floor(x) == s.installedFloor
      && Granted(d, es + [e], s.installedFloor, Blob(m.pendingRecord))
      && Handle(x, e).run == StageAndCommit(s, x.life.nvs, m.pendingRecord, e.stage)
      && (Handle(x, e).run.ok || !Handle(x, e).ram.storeReady)
  {
    hide HandleFrame, StageAndCommit, Settled, AcceptedAt, Decode, Blob, Commits, SameBoot, Ran, HoldsGrant, Granted;
    AttemptWhileReady(x, e);
    SettledIsSafe(x.life.store, x.life.nvs);
    FrameRuns(x.ram.value, x.life.store, x.life.nvs, e.frame, e.gates, e.nonce, e.stage);
    AttemptNeedsPending(x, e);
    var i: nat, grant := PendingOrigin(d, es);
    HeldGrantCommits(x, e, grant);
    ExchangeNow(d, es, e, i, grant);
    HeldBlob(x, grant);
  }

  lemma ExchangeNow(d: Device, es: seq<Event>, e: Event, i: nat, g: Grant)
    requires AcceptedAt(d, es, i, g) && SameBoot(es, i, |es|) && Commits(Ran(d, es), e, g)
    ensures Granted(d, es + [e], g.floor, g.blob)
  {
    hide AcceptedAt, Commits, Ran;
    var more := es + [e];
    assert more[..|es|] == es && more[|es|] == e;
    AcceptedPrefix(d, more, i, |es|, g);
    assert Exchanged(d, more, i, |es|, g);
  }

  lemma HeldBlob(x: Device, g: Grant)
    requires HoldsGrant(x, g)
    ensures g.blob == Blob(x.ram.value.pendingRecord) && g.floor == x.ram.value.pendingFloor
  {
    hide Decode, Blob;
    EncodeDecode(g.blob);
  }

  lemma AttemptWhileReady(x: Device, e: Event)
    requires DeviceInv(x) && Attempts(x, e)
    ensures x.ram.Some? && (e.Deliver? || e.CutInFrame?) && Settled(x.life.store, x.life.nvs)
  {
    hide HandleFrame, StageAndCommit, Settled, Inv;
    FrameRuns(x.ram.value, x.life.store, x.life.nvs, e.frame, e.gates, e.nonce, e.stage);
  }

  lemma AttemptHistory(d: Device, es: seq<Event>, x: Device, e: Event)
    requires Unboxed(d) && x == Ran(d, es) && HistoryInv(d, es, x) && Attempts(x, e)
    ensures HistoryInv(d, es + [e], Step(x, e))
  {
    hide Ran, HandleFrame, StageAndCommit, Inv, Safe, Settled, SlotsExplained, InstallsGranted, Granted, Blob, Attempts, Unboxed;
    var more := es + [e];
    MoreEvents(d, es, e, x);
    AttemptWhileReady(x, e);
    AttemptGranted(d, es, x, e);
    SettledIsSafe(x.life.store, x.life.nvs);
    StepDeviceInv(x, e);
    var s, n, r, f := x.life.store, x.life.nvs, x.ram.value.pendingRecord, e.stage;
    var run := StageAndCommit(s, n, r, f);
    if e.CutInFrame? {
      AttemptExplained(d, more, s, n, r, f, e.at);
      CutExplained(d, more, run.At(e.at), s.installedFloor, e.lost);
    } else if run.ok {
      StageSettles(s, n, r, f);
      SettledExplained(d, more, run.store, run.Final());
      ExtendInstalls(d, more, x.life.confirmed, Reported(run.store));
    } else {
      AttemptExplained(d, more, s, n, r, f, |run.path|);
    }
  }

  /** The flash from which an idle power loss cuts: as it stands, or somewhere inside a boot. */
  lemma CutBootSlots(x: Device, f: BeginFaults, at: nat)
    requires DeviceInv(x) && x.ram == None
    ensures
      var m := Begin(x.life.store, x.life.nvs, f).At(at);
      m.slot0 == x.life.nvs.slot0 && m.slot1 == x.life.nvs.slot1
  {
    hide Inv, Settled, Begin;
    BeginSlots(x.life.store, x.life.nvs, f, at);
  }

  lemma IdleHistory(d: Device, es: seq<Event>, x: Device, e: Event)
    requires HistoryInv(d, es, x) && !Attempts(x, e) && !(e.PowerOn? && x.ram == None)
    ensures HistoryInv(d, es, Step(x, e))
  {
    hide Inv, Settled, SlotsExplained, InstallsGranted, Begin, HandleFrame;
    ActiveSlotOf(x);
    StepDeviceInv(x, e);
    var n := x.life.nvs;
    match e
    case PowerOn(_, _) =>
    case PowerOff(p) => if x.life.confirmed != [] { CutExplained(d, es, n, Floor(x), p); }
    case CutInBoot(_, f, at, p) =>
      if x.life.confirmed != [] {
        CutExplained(d, es, n, Floor(x), p);
        if x.ram == None {
          CutBootSlots(x, f, at);
          var m := Begin(x.life.store, n, f).At(at);
          SameSlotsExplained(d, es, n, m, Floor(x));
          CutExplained(d, es, m, Floor(x), p);
        }
      }
    case _ => IdleFrameHistory(d, es, x, e);
  }

  lemma IdleFrameHistory(d: Device, es: seq<Event>, x: Device, e: Event)
    requires HistoryInv(d, es, x) && !Attempts(x, e) && (e.Deliver? || e.CutInFrame?)
    ensures HistoryInv(d, es, Step(x, e))
  {
    hide Inv, Settled, SlotsExplained, InstallsGranted, HandleFrame;
    ActiveSlotOf(x);
    StepDeviceInv(x, e);
    if x.ram.Some? {
      FrameRuns(x.ram.value, x.life.store, x.life.nvs, e.frame, e.gates, e.nonce, e.stage);
      assert Handle(x, e).run.path == [x.life.nvs];
    }
    if x.life.confirmed != [] && e.CutInFrame? { CutExplained(d, es, x.life.nvs, Floor(x), e.lost); }
  }

  lemma NoHistory(d: Device)
    requires Unboxed(d)
    ensures HistoryInv(d, [], Ran(d, []))
  {}

  /** The whole run, from any flash contents. */
  lemma {:induction false} HistoryHolds(d: Device, es: seq<Event>)
    requires Unboxed(d)
    ensures HistoryInv(d, es, Ran(d, es))
  {
    hide HistoryInv, Step, Attempts, Unboxed;
    if es == [] {
      NoHistory(d);
    } else {
      var front, e := es[..|es| - 1], es[|es| - 1];
      var x := Ran(d, front);
      HistoryHolds(d, front);
      assert front + [e] == es;
      if Attempts(x, e) {
        AttemptHistory(d, front, x, e);
      } else {
        if e.PowerOn? && x.ram == None { BootHistory(d, front, x, e.boot, e.begin); } else { IdleHistory(d, front, x, e); }
        MoreEvents(d, front, e, Step(x, e));
      }
    }
  }

  /** An authorization covers this device identity, floor, artifact root and record. */
  ghost predicate Spends(d: Device, es: seq<Event>, h: seq<Confirmation>, t: nat, mac: seq<byte>, i: nat, g: Grant, signed: seq<byte>)
  {
    && Installs(h, t) && h[t + 1].active.Some?
    && AcceptedAt(d, es, i, g) && g.floor == h[t].floor && g.blob == Blob(h[t + 1].active.value)
    && |mac| == 6 && signed == AuthorizationPayload(mac, g.floor, g.root, g.blob)
  }

  /**
   * Every install, including one that only a later boot brings to light, stems from one exchange: a PREPARE accepted for
   * the floor it replaced and a COMMIT of that very record in the same boot, with both gates asserted at each.
   */
  lemma EveryInstallGranted(d: Device, es: seq<Event>, t: nat) returns (i: nat, j: nat, g: Grant)
    requires Unboxed(d) && Installs(Ran(d, es).life.confirmed, t)
    ensures
      var h := Ran(d, es).life.confirmed;
      && Exchanged(d, es, i, j, g) && g.floor == h[t].floor < h[t + 1].floor
      && h[t + 1].active.Some? && g.blob == Blob(h[t + 1].active.value)
  {
    hide Ran, Unboxed, Exchanged, Blob;
    HistoryHolds(d, es);
    var h := Ran(d, es).life.confirmed;
    assert Granted(d, es, h[t].floor, Blob(h[t + 1].active.value));
    i, j, g :| Exchanged(d, es, i, j, g) && g.floor == h[t].floor && g.blob == Blob(h[t + 1].active.value);
  }

  /** One signed payload is spent by at most one install over the whole life of the device. */
  lemma AuthorizationSpentOnce(d: Device, es: seq<Event>, t: nat, u: nat, mac: seq<byte>, mac': seq<byte>,
                               i: nat, j: nat, g: Grant, g': Grant, signed: seq<byte>)
    requires Unboxed(d)
    requires Spends(d, es, Ran(d, es).life.confirmed, t, mac, i, g, signed)
    requires Spends(d, es, Ran(d, es).life.confirmed, u, mac', j, g', signed)
    ensures t == u
  {
    hide Ran, Unboxed, AcceptedAt, AuthorizationPayload, Blob;
    RootSizes(d, es, i, g);
    RootSizes(d, es, j, g');
    AuthorizationPayloadInjective(mac, g.floor, g.root, g.blob, mac', g'.floor, g'.root, g'.blob);
    HistoryHolds(d, es);
    var h := Ran(d, es).life.confirmed;
    assert Monotone(h);
    if t < u { InstallRaises(h, t, u); }
    if u < t { InstallRaises(h, u, t); }
  }

  lemma RootSizes(d: Device, es: seq<Event>, i: nat, g: Grant)
    requires AcceptedAt(d, es, i, g)
    ensures |g.root| == 32
  {
    hide Ran;
  }

  /** Installs along a monotone history start from ever higher floors. */
  lemma InstallRaises(h: seq<Confirmation>, t: nat, u: nat)
    requires Monotone(h) && Installs(h, t) && Installs(h, u) && t < u
    ensures h[t].floor < h[u].floor
  {
    assert h[t].floor <= h[t + 1].floor && h[t + 1].floor <= h[u].floor;
  }
}
