/** Host runs get to their end: with gates asserted, working flash and no lost answer every authorized run completes. */
module HostProgress {
  import opened Bits
  import opened CalibrationRecord
  import opened SlotSelection
  import opened NvsStore
  import opened StoreRecovery
  import opened StoreLife
  import opened MaintenanceDevice
  import opened DeviceRuns
  import opened DeviceReplies
  import opened DeviceProgress
  import opened AuditLedger
  import LedgerProofs
  import LedgerAppends
  import opened HostSession
  import opened Commissioning

  // One run by itself: the device and the session, exchange by exchange.

  datatype Link = Link(device: Device, session: Session)

  function Talk(u: Setup, l: Ledger, c: Link, m: Move): Link
    requires m.Exchange?
  {
    if Request(c.session).None? then c
    else
      var e := Deliver(Request(c.session).value, m.gates, m.nonce, m.stage);
      var answer := Answer(c.device, e);
      Link(Step(c.device, e),
           if m.lost || answer.None? then Fail(c.session)
           else Receive(u.hashing, u.policy, l, u.sha, c.session, answer.value))
  }

  /** Exchanges of session k and nothing else, with the gates asserted, working flash and no lost answer. */
  predicate Calm(run: seq<Move>, k: nat)
  {
    forall i :: 0 <= i < |run| ==> Undisturbed(run[i], k)
  }

  predicate Undisturbed(m: Move, k: nat)
  {
    m.Exchange? && m.k == k && m.gates == Gates(true, true) && m.stage == NO_STAGE_FAULTS && !m.lost
  }

  function Talks(u: Setup, l: Ledger, c: Link, run: seq<Move>, k: nat): Link
    requires Calm(run, k)
  {
    if run == [] then c
    else Talk(u, l, Talks(u, l, c, run[..|run| - 1], k), run[|run| - 1])
  }

  lemma TalkIsAct(u: Setup, w: World, k: nat, m: Move)
    requires k < |w.sessions| && Undisturbed(m, k)
    ensures
      var w', c := Act(u, w, m), Talk(u, w.ledger, Link(DeviceIn(u, w), w.sessions[k]), m);
      w'.ledger == w.ledger && DeviceIn(u, w') == c.device && w'.sessions == w.sessions[k := c.session]
  {
    hide Ran, Receive, Answer, Step, Request;
    if Request(w.sessions[k]).Some? {
      MoreHistory(u, w.events, Deliver(Request(w.sessions[k]).value, m.gates, m.nonce, m.stage));
    }
  }

  /** In the world, a calm run moves its own session and the device, and nothing else. */
  lemma {:induction false} TalksArePlay(u: Setup, w: World, k: nat, run: seq<Move>)
    requires k < |w.sessions| && Calm(run, k)
    ensures
      var w', c := Play(u, w, run), Talks(u, w.ledger, Link(DeviceIn(u, w), w.sessions[k]), run, k);
      w'.ledger == w.ledger && DeviceIn(u, w') == c.device && w'.sessions == w.sessions[k := c.session]
  {
    hide Act, Talk, Ran, Undisturbed;
    if run != [] {
      var front, m := run[..|run| - 1], run[|run| - 1];
      TalksArePlay(u, w, k, front);
      TalkIsAct(u, Play(u, w, front), k, m);
    }
  }

  lemma {:induction false} PlayAppend(u: Setup, w: World, a: seq<Move>, b: seq<Move>)
    ensures Play(u, w, a + b) == Play(u, Play(u, w, a), b)
  {
    hide Act;
    if b == [] {
      assert a + b == a;
    } else {
      PlayAppend(u, w, a, b[..|b| - 1]);
      assert (a + b)[..|a + b| - 1] == a + b[..|b| - 1];
    }
  }

  // A device that stands ready.

  /** Powered, with an open store, valid gate inputs and a pinned key; nothing pending. */
  ghost predicate Standing(x: Device)
  {
    && DeviceInv(x) && x.ram.Some?
    && var m := x.ram.value;
       && m.storeReady && m.gateConfigValid && !m.pendingValid && |m.mac| == 6
       && m.authority.Some? && |m.authority.value.fingerprint| == 32
  }

  /** What a status query tells of a standing device while the gates are asserted. */
  function Seen(x: Device): DeviceStatus
    requires x.ram.Some?
  {
    var m, s := x.ram.value, x.life.store;
    DeviceStatus(DEVICE_PREFIX + Hex(m.mac), m.bootNonce, true, true, true, s.hasActive, s.installedFloor, ActiveCrc(m, s), 0)
  }

  function KeySeen(x: Device): AuthorizationStatus
    requires x.ram.Some? && x.ram.value.authority.Some?
  {
    AuthorizationStatus(true, Hex(x.ram.value.authority.value.fingerprint))
  }

  lemma StandingPowered(x: Device)
    requires Standing(x)
    ensures x.ram.Some? && x.ram.value.authority.Some?
  {}

  lemma StandingStore(x: Device)
    requires Standing(x)
    ensures
      var s := x.life.store;
      && s.ready && s.activeSlot <= 1
      && x.life.confirmed != [] && x.life.confirmed[|x.life.confirmed| - 1] == Reported(s)
      && (s.hasActive ==> s.installedFloor == s.activeRecord.sequence && Usable(s.activeRecord))
  {
    hide DeviceInv;
    ReadyReports(x);
  }

  /** Queries are answered and leave the device as it is. */
  lemma QueryAnswer(x: Device, e: Event)
    requires Standing(x) && e.Deliver? && e.frame.payload == []
    requires e.frame.opcode in [QUERY_STATUS, QUERY_AUTHORIZATION, QUERY_ACTIVE_RECORD]
    ensures Step(x, e) == x
    ensures
      var m, s := x.ram.value, x.life.store;
      Answer(x, e) == Some(
        if e.frame.opcode == QUERY_STATUS then StatusReply(m, s, e.gates)
        else if e.frame.opcode == QUERY_AUTHORIZATION then AuthorizationReply(m)
        else ActiveRecordReply(m, s))
  {
    StandingStore(x);
    hide Standing, StatusReply, AuthorizationReply, ActiveRecordReply, HandlePrepare, HandleCommit;
  }

  /** The session after a reply, when the reply reads as this status, key or record. */
  lemma TalkStatus(u: Setup, l: Ledger, c: Link, m: Move, k: nat) returns (reply: Frame)
    requires Standing(c.device) && Undisturbed(m, k) && Request(c.session) == Some(Frame(QUERY_STATUS, []))
    ensures ReadStatus(reply) == Some(Seen(c.device))
    ensures Talk(u, l, c, m) == Link(c.device, Receive(u.hashing, u.policy, l, u.sha, c.session, reply))
  {
    hide Receive, ReadStatus, StatusReply, Step, Answer, Seen;
    QueryAnswer(c.device, Deliver(Frame(QUERY_STATUS, []), m.gates, m.nonce, m.stage));
    reply := StatusReply(c.device.ram.value, c.device.life.store, m.gates);
    StatusSeen(c.device, m.gates);
  }

  lemma StatusSeen(x: Device, g: Gates)
    requires Standing(x) && g == Gates(true, true)
    ensures ReadStatus(StatusReply(x.ram.value, x.life.store, g)) == Some(Seen(x))
  {
    hide ReadStatus, StatusReply, DeviceInv, ActiveCrc, Hex;
    StatusMeans(x.ram.value, x.life.store, g);
  }

  lemma TalkKey(u: Setup, l: Ledger, c: Link, m: Move, k: nat) returns (reply: Frame)
    requires Standing(c.device) && Undisturbed(m, k) && Request(c.session) == Some(Frame(QUERY_AUTHORIZATION, []))
    ensures ReadAuthorization(reply) == Some(KeySeen(c.device))
    ensures Talk(u, l, c, m) == Link(c.device, Receive(u.hashing, u.policy, l, u.sha, c.session, reply))
  {
    hide Receive, ReadAuthorization, AuthorizationReply, Step, Answer, Hex;
    QueryAnswer(c.device, Deliver(Frame(QUERY_AUTHORIZATION, []), m.gates, m.nonce, m.stage));
    reply := AuthorizationReply(c.device.ram.value);
    AuthorizationMeans(c.device.ram.value);
  }

  lemma TalkActive(u: Setup, l: Ledger, c: Link, m: Move, k: nat) returns (reply: Frame)
    requires Standing(c.device) && Undisturbed(m, k) && Request(c.session) == Some(Frame(QUERY_ACTIVE_RECORD, []))
    ensures ReadActive(reply, u.sha) == Some(ActiveSeen(c.device.life.store, u.sha))
    ensures Talk(u, l, c, m) == Link(c.device, Receive(u.hashing, u.policy, l, u.sha, c.session, reply))
  {
    hide Receive, ReadActive, ActiveRecordReply, Step, Answer, ActiveSeen, Usable;
    QueryAnswer(c.device, Deliver(Frame(QUERY_ACTIVE_RECORD, []), m.gates, m.nonce, m.stage));
    StandingStore(c.device);
    reply := ActiveRecordReply(c.device.ram.value, c.device.life.store);
    ActiveMeans(c.device.ram.value, c.device.life.store, u.sha);
  }

  // The live preflight, common to both kinds of run.

  /** The ledger agrees with the device, so that its preflight passes, and has room for one more entry. */
  ghost predicate Agrees(u: Setup, l: Ledger, x: Device, st: LedgerState)
    requires x.ram.Some? && x.ram.value.authority.Some?
  {
    && Verify(u.hashing, u.policy, l, Some(Seen(x).deviceId)) == Some(st)
    && st.sequence == x.life.store.installedFloor && st.authoritySha == KeySeen(x).fingerprint
    && st.recordSha == ActiveSeen(x.life.store, u.sha).sha
  }

  lemma {:induction false} HexLower(b: seq<byte>)
    ensures Lower(Hex(b)) == Hex(b)
  {
    assert forall i :: 0 <= i < |Hex(b)| ==> LowerChar(Hex(b)[i]) == Hex(b)[i];
  }

  lemma FingerprintDigest(b: seq<byte>)
    requires |b| == 32
    ensures RequireSha(Some(Hex(b))) == Some(Hex(b))
  {
    hide Hex, Lower;
    HexLower(b);
  }

  lemma PreflightAgrees(u: Setup, l: Ledger, x: Device, st: LedgerState, s: Session)
    requires Sound(u) && Standing(x) && Agrees(u, l, x, st)
    requires s.ledgerSeen == st && TaskDevice(s.task) == Seen(x).deviceId
    ensures
      FinishPreflight(u.hashing, u.policy, l, u.sha, s, Seen(x), KeySeen(x), ActiveSeen(x.life.store, u.sha)) ==
      if s.task.VerifyReboot? then s.(phase := RebootStatus)
      else s.(phase := if s.task.package.intent.Some? then IntentActive else PreStatus)
  {
    StandingStore(x);
    FingerprintDigest(x.ram.value.authority.value.fingerprint);
    if x.life.store.hasActive { LowerDigest(u.sha(Blob(x.life.store.activeRecord))); }
    hide Verify, Hex, Blob, Usable, DeviceInv, Lower, IsDigest;
  }

  /** Three exchanges after its start a run is past its preflight. */
  lemma PreflightRuns(u: Setup, l: Ledger, x: Device, st: LedgerState, s: Session, run: seq<Move>, k: nat)
    requires Sound(u) && Standing(x) && Agrees(u, l, x, st)
    requires s.ledgerSeen == st && TaskDevice(s.task) == Seen(x).deviceId && s.phase == PreflightStatus
    requires Calm(run, k) && |run| == 3
    ensures Talks(u, l, Link(x, s), run, k) ==
      Link(x, if s.task.VerifyReboot? then s.(phase := RebootStatus)
              else s.(phase := if s.task.package.intent.Some? then IntentActive else PreStatus))
  {
    hide Standing, Sound, Agrees, Seen, KeySeen, ActiveSeen, Talk, FinishPreflight, ReadStatus, ReadAuthorization, ReadActive, Receive;
    StandingPowered(x);
    TalksOfThree(u, l, Link(x, s), run, k);
    var c0 := Link(x, s);
    var reply := TalkStatus(u, l, c0, run[0], k);
    PreflightTaken(u, l, s, reply);
    var c1 := Link(x, s.(phase := PreflightAuthorization(Seen(x))));
    reply := TalkKey(u, l, c1, run[1], k);
    PreflightTaken(u, l, c1.session, reply);
    var c2 := Link(x, s.(phase := PreflightActive(Seen(x), KeySeen(x))));
    reply := TalkActive(u, l, c2, run[2], k);
    PreflightTaken(u, l, c2.session, reply);
    PreflightAgrees(u, l, x, st, c2.session);
  }

  /** What each phase of the preflight makes of a reply that reads well. */
  lemma PreflightTaken(u: Setup, l: Ledger, s: Session, reply: Frame)
    ensures s.phase == PreflightStatus && ReadStatus(reply).Some? ==>
      Receive(u.hashing, u.policy, l, u.sha, s, reply) == s.(phase := PreflightAuthorization(ReadStatus(reply).value))
    ensures s.phase.PreflightAuthorization? && ReadAuthorization(reply).Some? ==>
      Receive(u.hashing, u.policy, l, u.sha, s, reply) == s.(phase := PreflightActive(s.phase.seen, ReadAuthorization(reply).value))
    ensures s.phase.PreflightActive? && ReadActive(reply, u.sha).Some? ==>
      Receive(u.hashing, u.policy, l, u.sha, s, reply) ==
        FinishPreflight(u.hashing, u.policy, l, u.sha, s, s.phase.seen, s.phase.key, ReadActive(reply, u.sha).value)
  {
    hide ReadStatus, ReadAuthorization, ReadActive, FinishPreflight;
  }

  lemma TalksOfThree(u: Setup, l: Ledger, c: Link, run: seq<Move>, k: nat)
    requires Calm(run, k) && |run| == 3
    ensures Undisturbed(run[0], k) && Undisturbed(run[1], k) && Undisturbed(run[2], k)
    ensures Talks(u, l, c, run, k) == Talk(u, l, Talk(u, l, Talk(u, l, c, run[0]), run[1]), run[2])
  {
    hide Talk;
    var two := run[..2];
    assert two[..1][..0] == [] && two[1] == run[1] && two[..1][0] == run[0];
    assert Talks(u, l, c, two[..1], k) == Talk(u, l, c, run[0]);
    assert Talks(u, l, c, two, k) == Talk(u, l, Talk(u, l, c, run[0]), run[1]);
  }

  // A provisioning run.

  /** A package that was prepared and signed for this record and this device as it stands. */
  ghost predicate PackageFor(u: Setup, x: Device, p: Package, r: Record)
    requires x.ram.Some? && x.ram.value.authority.Some?
  {
    var m, s := x.ram.value, x.life.store;
    && p.deviceId == Seen(x).deviceId && p.signer == KeySeen(x).fingerprint
    && p.installed == s.installedFloor && p.candidate == r.sequence
    && p.blob == Blob(r) && p.crc == Read32(Blob(r), 44)
    && Authorized(m, s, r, p.root, p.signature)
    && LedgerAppends.WellFormed(Some(p.artifactRoot)) && LedgerAppends.WellFormed(Some(p.payloadSha))
    && LedgerAppends.WellFormed(Some(p.signatureSha))
    && (p.intent.Some? ==> RecoversActive(u, s, p.intent.value) && r.sequence == s.installedFloor + 1)
  }

  /** A recovery package names the record that is active. */
  predicate RecoversActive(u: Setup, s: Store, i: Intent)
  {
    var a := ActiveSeen(s, u.sha);
    a.present && a.sha == Some(i.sha) && a.sequence == i.sequence && a.crc == i.crc
  }

  /** The device once it has installed the record: it reports it, and stands ready for the next exchange. */
  ghost predicate Installed(x: Device, x': Device, r: Record)
    requires x.ram.Some?
  {
    && Standing(x') && x'.ram.value == ClearPending(x.ram.value)
    && x'.life.confirmed == x.life.confirmed + [Confirmation(r.sequence, Some(r))]
    && x'.life.store.hasActive && x'.life.store.activeRecord == r && x'.life.store.installedFloor == r.sequence && Usable(r)
  }

  lemma PackageLoads(u: Setup, x: Device, p: Package, r: Record)
    requires Standing(x) && PackageFor(u, x, p, r)
    ensures Loadable(p) && WritableNow(p, Seen(x), KeySeen(x))
  {
    hide Blob, Read32, Hex, DeviceInv, Usable;
  }

  /** What the queries of a provisioning run make of a reply that reads well and agrees. */
  lemma QueriesTaken(u: Setup, l: Ledger, s: Session, p: Package, reply: Frame)
    requires s.task == Apply(p) && Loadable(p)
    ensures s.phase == PreStatus && ReadStatus(reply).Some? ==>
      Receive(u.hashing, u.policy, l, u.sha, s, reply) == s.(phase := PreAuthorization(ReadStatus(reply).value))
    ensures s.phase.PostStatus? && ReadStatus(reply).Some? ==>
      Receive(u.hashing, u.policy, l, u.sha, s, reply) == s.(phase := PostAuthorization(s.phase.pre, ReadStatus(reply).value))
    ensures s.phase.PreAuthorization? && ReadAuthorization(reply).Some?
            && WritableNow(p, s.phase.pre, ReadAuthorization(reply).value) ==>
      Receive(u.hashing, u.policy, l, u.sha, s, reply) == s.(phase := Prepare(s.phase.pre))
    ensures s.phase.PostAuthorization? && ReadAuthorization(reply).Some?
            && WrittenNow(p, s.phase.pre, s.phase.post, ReadAuthorization(reply).value) ==>
      Receive(u.hashing, u.policy, l, u.sha, s, reply) == s.(phase := PostActive(s.phase.pre, s.phase.post))
  {
    hide ReadStatus, ReadAuthorization, Loadable, WritableNow, WrittenNow;
  }

  lemma RecordsTaken(u: Setup, l: Ledger, s: Session, p: Package, reply: Frame)
    requires s.task == Apply(p) && Loadable(p) && ReadActive(reply, u.sha).Some?
    ensures
      var a := ReadActive(reply, u.sha).value;
      && (s.phase == IntentActive && p.intent.Some? && IntentHolds(p, p.intent.value, a) ==>
            Receive(u.hashing, u.policy, l, u.sha, s, reply) == s.(before := Some(a), phase := PreStatus))
      && (s.phase.PostActive? && ReadsBack(p, u.sha, s, a) ==>
            Receive(u.hashing, u.policy, l, u.sha, s, reply) ==
              s.(phase := Finished(WriteReport(s, u.sha, s.phase.pre, s.phase.post, a))))
  {
    hide ReadActive, Loadable, IntentHolds, ReadsBack, WriteReport;
  }

  /** The recovery check: one exchange more. */
  lemma IntentRuns(u: Setup, l: Ledger, x: Device, s: Session, m: Move, k: nat, r: Record)
    requires Standing(x) && s.task.Apply? && s.task.package.intent.Some? && PackageFor(u, x, s.task.package, r)
    requires s.phase == IntentActive && Undisturbed(m, k)
    ensures Talk(u, l, Link(x, s), m) ==
      Link(x, s.(before := Some(ActiveSeen(x.life.store, u.sha)), phase := PreStatus))
  {
    hide Standing, Seen, KeySeen, Talk, Loadable, ReadActive, Receive, Authorized, Blob, Read32, LedgerAppends.WellFormed;
    StandingPowered(x);
    PackageLoads(u, x, s.task.package, r);
    StandingStore(x);
    var reply := TalkActive(u, l, Link(x, s), m, k);
    RecordsTaken(u, l, s, s.task.package, reply);
  }

  /** Two queries, and the run is about to send PREPARE. */
  lemma WritableRuns(u: Setup, l: Ledger, x: Device, s: Session, m: Move, m': Move, k: nat, r: Record)
    requires Standing(x) && s.task.Apply? && PackageFor(u, x, s.task.package, r)
    requires s.phase == PreStatus && Undisturbed(m, k) && Undisturbed(m', k)
    ensures Talk(u, l, Talk(u, l, Link(x, s), m), m') == Link(x, s.(phase := Prepare(Seen(x))))
  {
    hide Standing, Seen, KeySeen, Talk, Loadable, WritableNow, ReadStatus, ReadAuthorization, PackageFor, Receive;
    StandingPowered(x);
    PackageLoads(u, x, s.task.package, r);
    var reply := TalkStatus(u, l, Link(x, s), m, k);
    QueriesTaken(u, l, s, s.task.package, reply);
    var c := Link(x, s.(phase := PreAuthorization(Seen(x))));
    reply := TalkKey(u, l, c, m', k);
    QueriesTaken(u, l, c.session, s.task.package, reply);
  }

  /** The host takes the device's answers to PREPARE and COMMIT of the package's record. */
  lemma AnswersTaken(u: Setup, l: Ledger, s: Session, p: Package, pre: DeviceStatus, reply: Frame, r: Record, nonce: Nonce)
    requires s.task == Apply(p) && Loadable(p) && p.candidate == r.sequence && p.crc == Read32(Blob(r), 44)
    ensures s.phase == Prepare(pre) && OffersCommit(reply, r, nonce) ==>
      |reply.payload| == 13
      && Receive(u.hashing, u.policy, l, u.sha, s, reply) == s.(phase := Commit(pre, Read32(reply.payload, 9), Read32(reply.payload, 1)))
    ensures forall n, q :: s.phase == Commit(pre, n, q) && ConfirmsInstall(reply, r) ==>
      Receive(u.hashing, u.policy, l, u.sha, s, reply) == s.(phase := PostStatus(pre))
  {
    hide Loadable, Read32, Blob;
  }

  /** One exchange of a powered device, written out. */
  lemma TalkIs(u: Setup, l: Ledger, c: Link, m: Move, k: nat, e: Event)
    requires c.device.ram.Some? && c.device.life.store.activeSlot <= 1 && Undisturbed(m, k)
    requires Request(c.session).Some? && e == Deliver(Request(c.session).value, m.gates, m.nonce, m.stage)
    ensures Talk(u, l, c, m) ==
      Link(Step(c.device, e), Receive(u.hashing, u.policy, l, u.sha, c.session, Handle(c.device, e).reply))
  {
    hide Handle, Step, Receive, Request;
  }

  /** PREPARE and COMMIT: the device installs the record, and its answers are what the host expects. */
  lemma InstallRuns(u: Setup, l: Ledger, x: Device, s: Session, m: Move, m': Move, k: nat, r: Record)
    returns (x': Device)
    requires Standing(x) && s.task.Apply? && PackageFor(u, x, s.task.package, r)
    requires s.phase == Prepare(Seen(x)) && Undisturbed(m, k) && Undisturbed(m', k)
    ensures Installed(x, x', r)
    ensures Talk(u, l, Talk(u, l, Link(x, s), m), m') == Link(x', s.(phase := PostStatus(Seen(x))))
  {
    hide PrepareRequest, CommitRequest, Handle, Step, Read32, Blob, Usable, Verified, DeviceInv, Hex, Loadable, Receive, Talk,
         OffersCommit, ConfirmsInstall, Installed, ActiveCrc, LedgerAppends.WellFormed, RecoversActive;
    StandingStore(x);
    PackageLoads(u, x, s.task.package, r);
    var p, ram, store := s.task.package, x.ram.value, x.life.store;
    AuthorizedExchangeInstalls(x, r, p.root, p.signature, m.gates, m'.gates, m.nonce, m'.nonce, m.stage);
    var e := Deliver(PrepareRequest(ram.bootNonce, store.installedFloor, p.root, Blob(r), p.signature), m.gates, m.nonce, m.stage);
    var prepared, offer := Step(x, e), Handle(x, e).reply;
    TalkIs(u, l, Link(x, s), m, k, e);
    AnswersTaken(u, l, s, p, Seen(x), offer, r, m.nonce);
    var s' := s.(phase := Commit(Seen(x), Read32(offer.payload, 9), Read32(offer.payload, 1)));
    assert Talk(u, l, Link(x, s), m) == Link(prepared, s');
    var e' := Deliver(CommitRequest(ram.bootNonce, Read32(offer.payload, 9), Read32(offer.payload, 1)), m'.gates, m'.nonce, NO_STAGE_FAULTS);
    x' := Step(prepared, e');
    TalkIs(u, l, Link(prepared, s'), m', k, e');
    AnswersTaken(u, l, s', p, Seen(x), Handle(prepared, e').reply, r, m.nonce);
    InstalledStands(x, prepared, x', e, e', r);
  }

  lemma InstalledStands(x: Device, prepared: Device, x': Device, e: Event, e': Event, r: Record)
    requires Standing(x) && prepared == Step(x, e) && x' == Step(prepared, e') && Usable(r)
    requires x'.life.confirmed == x.life.confirmed + [Confirmation(r.sequence, Some(r))]
    requires x'.ram == Some(ClearPending(x.ram.value.(pendingRecord := r, pendingBlob := Blob(r))))
    ensures Installed(x, x', r)
  {
    hide Step, Blob, Usable, DeviceInv;
    StepDeviceInv(x, e);
    StepDeviceInv(prepared, e');
    StandingStore(x');
  }

  // What the installed device answers.

  lemma InstalledAnswers(u: Setup, x: Device, x': Device, p: Package, r: Record)
    requires Standing(x) && PackageFor(u, x, p, r) && Installed(x, x', r)
    ensures KeySeen(x') == KeySeen(x) && WrittenNow(p, Seen(x), Seen(x'), KeySeen(x'))
    ensures ActiveSeen(x'.life.store, u.sha) == ActiveRecord(true, p.blob, p.candidate, p.crc, Some(u.sha(p.blob)))
  {
    hide Blob, Read32, Hex, DeviceInv, Usable, Authorized, LedgerAppends.WellFormed;
    StandingStore(x');
  }

  /** The report a run of this package ends with. */
  function ReportOf(u: Setup, x: Device, p: Package, st: LedgerState): Report
    requires x.ram.Some?
  {
    var sha := Some(u.sha(p.blob));
    Report(EVIDENCE_SCHEMA, true, false, Seen(x).deviceId, Some(HostBinding(true, true, st.headSha, st.entryCount)),
           p.installed, p.candidate, Some(ExactRecord(true, sha, p.candidate, p.crc)), p.candidate, p.crc, sha, Some(p.signer),
           Some(p.artifactRoot), Some(p.payloadSha), Some(p.signatureSha), p.intent.Some?, None, p.rest, p.rest)
  }

  /** The session has checked the recovery intent, if the package has one. */
  predicate IntentSeen(u: Setup, x: Device, s: Session)
    requires s.task.Apply?
  {
    s.task.package.intent.Some? ==> s.before == Some(ActiveSeen(x.life.store, u.sha))
  }

  /** Three queries after the COMMIT the run is finished. */
  lemma ConfirmRuns(u: Setup, l: Ledger, x: Device, x': Device, s: Session, m0: Move, m1: Move, m2: Move, k: nat, r: Record)
    requires Standing(x) && s.task.Apply? && PackageFor(u, x, s.task.package, r) && Installed(x, x', r)
    requires s.phase == PostStatus(Seen(x)) && Undisturbed(m0, k) && Undisturbed(m1, k) && Undisturbed(m2, k)
    requires IntentSeen(u, x, s)
    ensures Talk(u, l, Talk(u, l, Talk(u, l, Link(x', s), m0), m1), m2) ==
      Link(x', s.(phase := Finished(ReportOf(u, x, s.task.package, s.ledgerSeen))))
  {
    hide Standing, KeySeen, Talk, Loadable, WrittenNow, ReadStatus, ReadAuthorization, ReadActive, Receive, Hex, ReadsBack,
         PackageFor, WriteReport, ReportOf;
    var p := s.task.package;
    StandingPowered(x);
    PackageLoads(u, x, p, r);
    InstalledAnswers(u, x, x', p, r);
    StandingPowered(x');
    var reply := TalkStatus(u, l, Link(x', s), m0, k);
    QueriesTaken(u, l, s, p, reply);
    var c := Link(x', s.(phase := PostAuthorization(Seen(x), Seen(x'))));
    reply := TalkKey(u, l, c, m1, k);
    QueriesTaken(u, l, c.session, p, reply);
    var d := Link(x', s.(phase := PostActive(Seen(x), Seen(x'))));
    reply := TalkActive(u, l, d, m2, k);
    RecordsTaken(u, l, d.session, p, reply);
    ReportFits(u, x, x', d.session, r);
  }

  lemma ReportFits(u: Setup, x: Device, x': Device, s: Session, r: Record)
    requires Standing(x) && s.task.Apply? && PackageFor(u, x, s.task.package, r) && Installed(x, x', r) && IntentSeen(u, x, s)
    ensures
      var p, a := s.task.package, ActiveSeen(x'.life.store, u.sha);
      && ReadsBack(p, u.sha, s, a)
      && WriteReport(s, u.sha, Seen(x), Seen(x'), a) == ReportOf(u, x, p, s.ledgerSeen)
  {
    hide Blob, Read32, Hex, DeviceInv, Authorized, LedgerAppends.WellFormed;
    InstalledAnswers(u, x, x', s.task.package, r);
    StandingStore(x);
  }

  // Putting the exchanges together.

  lemma {:induction false} TalksSplit(u: Setup, l: Ledger, c: Link, run: seq<Move>, k: nat, n: nat)
    requires Calm(run, k) && n <= |run|
    ensures Calm(run[..n], k) && Calm(run[n..], k)
    ensures Talks(u, l, c, run, k) == Talks(u, l, Talks(u, l, c, run[..n], k), run[n..], k)
  {
    hide Talk, Undisturbed;
    if n == |run| {
      assert run[..n] == run;
    } else {
      var front := run[..|run| - 1];
      TalksSplit(u, l, c, front, k, n);
      assert front[..n] == run[..n];
      assert front[n..] == run[n..][..|run[n..]| - 1];
    }
  }

  lemma TalksOfOne(u: Setup, l: Ledger, c: Link, run: seq<Move>, k: nat)
    requires Calm(run, k) && |run| == 1
    ensures Undisturbed(run[0], k) && Talks(u, l, c, run, k) == Talk(u, l, c, run[0])
  {
    hide Talk;
    assert run[..0] == [];
  }

  lemma TalksOfTwo(u: Setup, l: Ledger, c: Link, run: seq<Move>, k: nat)
    requires Calm(run, k) && |run| == 2
    ensures Undisturbed(run[0], k) && Undisturbed(run[1], k)
    ensures Talks(u, l, c, run, k) == Talk(u, l, Talk(u, l, c, run[0]), run[1])
  {
    hide Talk;
    assert run[..1][..0] == [] && run[..1][0] == run[0];
    assert Talks(u, l, c, run[..1], k) == Talk(u, l, c, run[0]);
  }

  /** The seven exchanges from the last look at the device to the report. */
  lemma WriteRuns(u: Setup, l: Ledger, x: Device, s: Session, run: seq<Move>, k: nat, r: Record) returns (x': Device)
    requires Standing(x) && s.task.Apply? && PackageFor(u, x, s.task.package, r) && IntentSeen(u, x, s)
    requires s.phase == PreStatus && Calm(run, k) && |run| == 7
    ensures Installed(x, x', r)
    ensures Talks(u, l, Link(x, s), run, k) == Link(x', s.(phase := Finished(ReportOf(u, x, s.task.package, s.ledgerSeen))))
  {
    hide Standing, PackageFor, Installed, Talk, Seen, ReportOf, IntentSeen, Calm, Talks;
    StandingPowered(x);
    var c0 := Link(x, s);
    TalksSplit(u, l, c0, run, k, 4);
    TalksSplit(u, l, c0, run[..4], k, 2);
    TalksOfTwo(u, l, c0, run[..4][..2], k);
    WritableRuns(u, l, x, s, run[..4][..2][0], run[..4][..2][1], k, r);
    var s1 := s.(phase := Prepare(Seen(x)));
    var c1 := Link(x, s1);
    TalksOfTwo(u, l, c1, run[..4][2..], k);
    x' := InstallRuns(u, l, x, s1, run[..4][2..][0], run[..4][2..][1], k, r);
    var s2 := s.(phase := PostStatus(Seen(x)));
    TalksOfThree(u, l, Link(x', s2), run[4..], k);
    SamePast(u, x, s, s2);
    ConfirmRuns(u, l, x, x', s2, run[4..][0], run[4..][1], run[4..][2], k, r);
  }

  lemma SamePast(u: Setup, x: Device, s: Session, s': Session)
    requires s.task.Apply? && IntentSeen(u, x, s) && s'.task == s.task && s'.before == s.before
    ensures IntentSeen(u, x, s')
  {}

  function Started(t: Task, st: LedgerState): Session
  {
    Session(t, st, None, PreflightStatus)
  }

  /** How many exchanges a provisioning run takes. */
  function RunLength(p: Package): nat
  {
    if p.intent.Some? then 11 else 10
  }

  /** A whole provisioning run. */
  lemma ApplyRuns(u: Setup, l: Ledger, x: Device, st: LedgerState, p: Package, r: Record, run: seq<Move>, k: nat)
    returns (x': Device)
    requires Sound(u) && Standing(x) && Agrees(u, l, x, st) && PackageFor(u, x, p, r)
    requires Calm(run, k) && |run| == RunLength(p)
    ensures Installed(x, x', r)
    ensures
      var c := Talks(u, l, Link(x, Started(Apply(p), st)), run, k);
      c.device == x' && c.session.task == Apply(p) && c.session.phase == Finished(ReportOf(u, x, p, st))
  {
    hide Sound, Standing, Agrees, Installed, Talk, ReportOf, Calm, Talks;
    StandingPowered(x);
    assert p.deviceId == Seen(x).deviceId;
    hide PackageFor, Seen;
    var s := Started(Apply(p), st);
    TalksSplit(u, l, Link(x, s), run, k, 3);
    PreflightRuns(u, l, x, st, s, run[..3], k);
    var rest := run[3..];
    if p.intent.Some? {
      var c := Link(x, s.(phase := IntentActive));
      TalksSplit(u, l, c, rest, k, 1);
      TalksOfOne(u, l, c, rest[..1], k);
      IntentRuns(u, l, x, c.session, rest[..1][0], k, r);
      x' := WriteRuns(u, l, x, s.(before := Some(ActiveSeen(x.life.store, u.sha)), phase := PreStatus), rest[1..], k, r);
    } else {
      x' := WriteRuns(u, l, x, s.(phase := PreStatus), rest, k, r);
    }
  }
}
