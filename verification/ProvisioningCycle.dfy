/** A whole commissioning cycle gets done: provisioning, its ledger entry, a reboot, its verification, its ledger entry. */
module ProvisioningCycle {
  import opened Bits
  import opened CalibrationRecord
  import opened SlotSelection
  import opened NvsStore
  import opened StoreRecovery
  import opened StoreLife
  import opened MaintenanceDevice
  import opened DeviceRuns
  import opened DeviceReplies
  import opened DeviceProgress
  import opened AuditLedger
  import opened LedgerProofs
  import opened LedgerAppends
  import opened HostSession
  import opened Commissioning
  import opened HostProgress

  // The reports are appended.

  /** The ledger verifies to a state with one entry more, at this sequence and record and under the same key. */
  ghost predicate Grown(u: Setup, l': Ledger, st: LedgerState, sequence: int, recordSha: Option<string>)
  {
    match Verify(u.hashing, u.policy, l', Some(st.deviceId))
    case None => false
    case Some(st') =>
      && st'.deviceId == st.deviceId && st'.entryCount == st.entryCount + 1 == |l'.entries|
      && st'.sequence == sequence && st'.recordSha == recordSha && st'.authoritySha == st.authoritySha
  }

  predicate LastEventIs(l: Ledger, eventType: string)
  {
    l.entries != [] && l.entries[|l.entries| - 1].core.eventType == eventType
  }

  /** What the ledger reads in a report of a finished provisioning run. */
  lemma ReportReads(u: Setup, x: Device, p: Package, st: LedgerState, r: Record)
    requires Sound(u) && Standing(x) && PackageFor(u, x, p, r) && st.authoritySha == KeySeen(x).fingerprint
    ensures
      var rep := ReportOf(u, x, p, st);
      && WellFormed(rep.recordSha) && Lower(rep.recordSha.value) == u.sha(p.blob)
      && States(rep.signerSha, st.authoritySha)
  {
    hide Standing, Seen, Hex, Authorized, IsDigest, RecoversActive, Blob, Read32, Lower;
    StandingPowered(x);
    FingerprintIsDigest(x);
    assert p.signer == KeySeen(x).fingerprint;
    LowerDigest(u.sha(p.blob));
  }

  lemma FingerprintIsDigest(x: Device)
    requires Standing(x)
    ensures States(Some(KeySeen(x).fingerprint), KeySeen(x).fingerprint)
  {
    StandingPowered(x);
    hide Lower, IsDigest, DeviceInv;
    FingerprintDigest(x.ram.value.authority.value.fingerprint);
    RequireShaStates(Some(KeySeen(x).fingerprint), KeySeen(x).fingerprint);
  }

  lemma ReportAppended(u: Setup, l: Ledger, x: Device, st: LedgerState, p: Package, r: Record)
    requires Sound(u) && Standing(x) && PackageFor(u, x, p, r) && Agrees(u, l, x, st) && HasRoom(st)
    ensures
      var l' := AppendWrite(u.hashing, u.policy, l, ReportOf(u, x, p, st)).ledger;
      && Grown(u, l', st, r.sequence, Some(u.sha(Blob(r))))
      && LastEventIs(l', if p.intent.Some? then "recovery_commit" else "write_commit")
  {
    StandingPowered(x);
    ReportReads(u, x, p, st, r);
    var rep := ReportOf(u, x, p, st);
    assert p.installed == x.life.store.installedFloor && p.candidate == r.sequence && p.blob == Blob(r);
    assert p.intent.Some? ==> r.sequence == x.life.store.installedFloor + 1;
    assert SequenceIsNewer(r.sequence, x.life.store.installedFloor);
    assert WellFormed(rep.artifactRoot) && WellFormed(rep.payloadSha) && WellFormed(rep.signatureSha);
    hide PackageFor, Standing, WellFormed, States, Hex, Blob, Verify, Lower, AppendWrite, ActiveSeen, WriteAdmissible, RequireSha;
    StateIsNormal(u.hashing, u.policy, l, Some(Seen(x).deviceId));
    VerifiedDevice(u, l, Seen(x).deviceId);
    AppendWriteIff(u.hashing, u.policy, l, rep, st);
    AppendWriteSound(u.hashing, u.policy, l, rep, st);
    RequireShaStates(rep.recordSha, u.sha(p.blob));
  }

  // In the world.

  /** Ledger and device agree on sequence and key, as far as a preflight can see, and the ledger has room. */
  ghost predicate Matching(u: Setup, w: World, st: LedgerState)
    requires DeviceIn(u, w).ram.Some? && DeviceIn(u, w).ram.value.authority.Some?
  {
    var x := DeviceIn(u, w);
    && Verify(u.hashing, u.policy, w.ledger, Some(Seen(x).deviceId)) == Some(st)
    && st.sequence == x.life.store.installedFloor && st.authoritySha == KeySeen(x).fingerprint
  }

  /** In a reachable world, agreement on sequence and key is agreement on the record. */
  lemma MatchingAgrees(u: Setup, w: World, moves: seq<Move>, st: LedgerState)
    requires Sound(u) && Opening(u, w)
    requires
      var now := Play(u, w, moves);
      Standing(DeviceIn(u, now)) && Matching(u, now, st)
    ensures Agrees(u, Play(u, w, moves).ledger, DeviceIn(u, Play(u, w, moves)), st)
    ensures st.entryCount == |Play(u, w, moves).ledger.entries|
  {
    hide Ran, Play, Sound, Opening, DeviceInv, Hex, ActiveCrc, Blob, Usable, IsDigest;
    var now := Play(u, w, moves);
    var x := DeviceIn(u, now);
    StandingStore(x);
    VerifyAny(u, now.ledger, Seen(x).deviceId);
    StateIsNormal(u.hashing, u.policy, now.ledger, Some(Seen(x).deviceId));
    hide Verify;
    FullIsRefused(u, now.ledger);
    LedgerNeverAhead(u, w, moves);
  }

  /** Starting a run and exchanging calmly plays the run on the device and its own session. */
  lemma StartedRun(u: Setup, now: World, t: Task, st: LedgerState, run: seq<Move>)
    requires Verify(u.hashing, u.policy, now.ledger, Some(TaskDevice(t))) == Some(st)
    requires Calm(run, |now.sessions|)
    ensures
      var k := |now.sessions|;
      var w', c := Play(u, now, [StartRun(t)] + run), Talks(u, now.ledger, Link(DeviceIn(u, now), Started(t, st)), run, k);
      && w'.ledger == now.ledger && DeviceIn(u, w') == c.device
      && w'.sessions == now.sessions + [c.session]
  {
    hide Ran, Talks, Verify, Calm;
    var k := |now.sessions|;
    var begun := Act(u, now, StartRun(t));
    assert [StartRun(t)][..0] == [];
    assert Play(u, now, [StartRun(t)]) == begun;
    PlayAppend(u, now, [StartRun(t)], run);
    TalksArePlay(u, begun, k, run);
  }

  /**
   * Provisioning gets done. In any reachable world, take a powered device with its gates asserted and nothing pending, a
   * package authorized for its installed floor, and a ledger that agrees on sequence and key and has room. Ten exchanges
   * without a lost answer or a failing flash call, eleven for a recovery, end in a report; the device has installed and
   * reported the signed record; and appending the report gives a ledger that verifies with one write or recovery entry
   * more, at the record's sequence and hash.
   */
  lemma ApplyRunFinishes(u: Setup, w: World, moves: seq<Move>, p: Package, r: Record, st: LedgerState, run: seq<Move>)
    requires Sound(u) && Opening(u, w)
    requires
      var now := Play(u, w, moves);
      var x := DeviceIn(u, now);
      Standing(x) && Matching(u, now, st) && HasRoom(st) && PackageFor(u, x, p, r)
    requires Calm(run, |Play(u, w, moves).sessions|) && |run| == RunLength(p)
    ensures
      var now := Play(u, w, moves);
      var done, k := Play(u, now, [StartRun(Apply(p))] + run), |now.sessions|;
      && |done.sessions| == k + 1 && done.sessions[k].task == Apply(p)
      && done.sessions[k].phase == Finished(ReportOf(u, DeviceIn(u, now), p, st))
      && Installed(DeviceIn(u, now), DeviceIn(u, done), r)
      && var l' := Act(u, done, AppendReport(k)).ledger;
         && Grown(u, l', st, r.sequence, Some(u.sha(Blob(r))))
         && LastEventIs(l', if p.intent.Some? then "recovery_commit" else "write_commit")
  {
    hide Play, Sound, Opening, Standing, PackageFor, Installed, Agrees, Grown, Calm, Talks, ReportOf, AppendWrite, Ran, Blob,
         HasRoom, LastEventIs, Seen, Verify, KeySeen;
    var now := Play(u, w, moves);
    var x := DeviceIn(u, now);
    StandingPowered(x);
    PackageDevice(u, x, p, r);
    MatchingAgrees(u, w, moves, st);
    StartedRun(u, now, Apply(p), st, run);
    var x' := ApplyRuns(u, now.ledger, x, st, p, r, run, |now.sessions|);
    ReportAppended(u, now.ledger, x, st, p, r);
  }

  lemma PackageDevice(u: Setup, x: Device, p: Package, r: Record)
    requires Standing(x) && PackageFor(u, x, p, r)
    ensures p.deviceId == Seen(x).deviceId
  {
    hide Standing, Seen, Hex, Authorized, RecoversActive, WellFormed;
    StandingPowered(x);
  }

  // Verifying a reboot.

  /** A committed report of the record that is active now, made under another boot nonce. */
  ghost predicate PriorFor(u: Setup, x: Device, prior: Report, priorNonce: int)
    requires x.ram.Some? && x.ram.value.authority.Some?
  {
    var a := ActiveSeen(x.life.store, u.sha);
    && prior.schema == EVIDENCE_SCHEMA && prior.commitVerified && prior.deviceId == Seen(x).deviceId
    && priorNonce != Seen(x).bootNonce
    && a.present && prior.recordSha == a.sha && prior.candidateSequence == a.sequence && prior.candidateCrc == a.crc
    && States(prior.signerSha, KeySeen(x).fingerprint)
  }

  function RebootTask(x: Device, prior: Report, priorNonce: int): Task
    requires x.ram.Some?
  {
    VerifyReboot(prior, priorNonce, Seen(x).deviceId)
  }

  predicate ReadsPrior(a: ActiveRecord, r: Report)
  {
    a.present && a.sha == r.recordSha && a.sequence == r.candidateSequence && a.crc == r.candidateCrc
  }

  lemma RebootStatusTaken(u: Setup, l: Ledger, s: Session, reply: Frame, status: DeviceStatus)
    requires s.task.VerifyReboot? && s.phase == RebootStatus && ReadStatus(reply) == Some(status)
    requires Recovered(s.task.prior, s.task.priorNonce, status)
    ensures Receive(u.hashing, u.policy, l, u.sha, s, reply) == s.(phase := RebootActive)
  {
    hide ReadStatus, Recovered;
  }

  lemma RebootActiveTaken(u: Setup, l: Ledger, s: Session, reply: Frame, a: ActiveRecord)
    requires s.task.VerifyReboot? && s.phase == RebootActive && ReadActive(reply, u.sha) == Some(a) && ReadsPrior(a, s.task.prior)
    ensures Receive(u.hashing, u.policy, l, u.sha, s, reply) == s.(phase := Finished(RebootReport(s, a)))
  {
    hide ReadActive, RebootReport;
  }

  lemma PriorRecovered(u: Setup, x: Device, prior: Report, priorNonce: int)
    requires Standing(x) && PriorFor(u, x, prior, priorNonce)
    ensures Recovered(prior, priorNonce, Seen(x)) && ReadsPrior(ActiveSeen(x.life.store, u.sha), prior)
  {
    hide Blob, Hex, DeviceInv, Usable, States, Read32;
    StandingStore(x);
  }

  /** After its preflight the run makes two queries. */
  lemma RebootQueries(u: Setup, l: Ledger, x: Device, s: Session, m: Move, m': Move, k: nat)
    requires Standing(x) && s.task.VerifyReboot? && s.phase == RebootStatus && Undisturbed(m, k) && Undisturbed(m', k)
    requires Recovered(s.task.prior, s.task.priorNonce, Seen(x)) && ReadsPrior(ActiveSeen(x.life.store, u.sha), s.task.prior)
    ensures Talk(u, l, Talk(u, l, Link(x, s), m), m') ==
      Link(x, s.(phase := Finished(RebootReport(s, ActiveSeen(x.life.store, u.sha)))))
  {
    hide Standing, Talk, Recovered, ReadActive, ReadStatus, Seen, Receive, ActiveSeen, ReadsPrior;
    StandingPowered(x);
    var reply := TalkStatus(u, l, Link(x, s), m, k);
    RebootStatusTaken(u, l, s, reply, Seen(x));
    var s' := s.(phase := RebootActive);
    reply := TalkActive(u, l, Link(x, s'), m', k);
    RebootActiveTaken(u, l, s', reply, ActiveSeen(x.life.store, u.sha));
  }

  /** The whole verification run: five queries. */
  lemma VerifyRuns(u: Setup, l: Ledger, x: Device, st: LedgerState, prior: Report, priorNonce: int, run: seq<Move>, k: nat)
    requires Sound(u) && Standing(x) && Agrees(u, l, x, st) && PriorFor(u, x, prior, priorNonce)
    requires Calm(run, k) && |run| == 5
    ensures
      var t := RebootTask(x, prior, priorNonce);
      var c := Talks(u, l, Link(x, Started(t, st)), run, k);
      && c.device == x && c.session.task == t
      && c.session.phase == Finished(RebootReport(Started(t, st), ActiveSeen(x.life.store, u.sha)))
  {
    hide Sound, Standing, Agrees, Talk, Calm, Talks, Recovered, Seen, ActiveSeen, PriorFor, ReadsPrior, Undisturbed;
    StandingPowered(x);
    PriorRecovered(u, x, prior, priorNonce);
    var s := Started(RebootTask(x, prior, priorNonce), st);
    TalksSplit(u, l, Link(x, s), run, k, 3);
    PreflightRuns(u, l, x, st, s, run[..3], k);
    var s', rest := s.(phase := RebootStatus), run[3..];
    TalksOfTwo(u, l, Link(x, s'), rest, k);
    RebootQueries(u, l, x, s', rest[0], rest[1], k);
  }

  lemma RebootAppended(u: Setup, l: Ledger, x: Device, st: LedgerState, prior: Report, priorNonce: int)
    requires Sound(u) && Standing(x) && Agrees(u, l, x, st) && PriorFor(u, x, prior, priorNonce) && HasRoom(st)
    ensures
      var r := RebootReport(Started(RebootTask(x, prior, priorNonce), st), ActiveSeen(x.life.store, u.sha));
      var l' := AppendReboot(u.hashing, u.policy, l, r).ledger;
      Grown(u, l', st, st.sequence, st.recordSha) && LastEventIs(l', "reboot_verified")
  {
    StandingPowered(x);
    StandingStore(x);
    var a := ActiveSeen(x.life.store, u.sha);
    LowerDigest(u.sha(a.blob));
    assert a.sha == Some(u.sha(a.blob)) && WellFormed(a.sha) && States(a.sha, u.sha(a.blob));
    hide Standing, WellFormed, States, Hex, Blob, Verify, Lower, AppendReboot, ActiveSeen, RebootAdmissible, RequireSha, Read32;
    var r := RebootReport(Started(RebootTask(x, prior, priorNonce), st), a);
    StateIsNormal(u.hashing, u.policy, l, Some(Seen(x).deviceId));
    VerifiedDevice(u, l, Seen(x).deviceId);
    AppendRebootIff(u.hashing, u.policy, l, r, st);
    AppendRebootSound(u.hashing, u.policy, l, r, st);
  }

  /**
   * Reboot verification gets done. In any reachable world, with a powered device that reports the record of a committed
   * report under another boot nonce, and a ledger that agrees on sequence and key and has room, five exchanges without a
   * lost answer end in a completed report, and appending it gives a ledger that verifies with one reboot entry more and
   * the same calibration state.
   */
  lemma VerifyRunFinishes(u: Setup, w: World, moves: seq<Move>, prior: Report, priorNonce: int, st: LedgerState, run: seq<Move>)
    requires Sound(u) && Opening(u, w)
    requires
      var now := Play(u, w, moves);
      var x := DeviceIn(u, now);
      Standing(x) && Matching(u, now, st) && HasRoom(st) && PriorFor(u, x, prior, priorNonce)
    requires Calm(run, |Play(u, w, moves).sessions|) && |run| == 5
    ensures
      var now := Play(u, w, moves);
      var t, k := RebootTask(DeviceIn(u, now), prior, priorNonce), |now.sessions|;
      var done := Play(u, now, [StartRun(t)] + run);
      && |done.sessions| == k + 1 && done.sessions[k].task == t && done.sessions[k].phase.Finished?
      && done.sessions[k].phase.report.rebootVerified && DeviceIn(u, done) == DeviceIn(u, now)
      && var l' := Act(u, done, AppendReport(k)).ledger;
         Grown(u, l', st, st.sequence, st.recordSha) && LastEventIs(l', "reboot_verified")
  {
    hide Play, Sound, Opening, Standing, Agrees, Grown, Calm, Talks, AppendReboot, Ran, HasRoom, LastEventIs, Seen, Verify, KeySeen,
         PriorFor, ActiveSeen;
    var now := Play(u, w, moves);
    var x := DeviceIn(u, now);
    StandingPowered(x);
    MatchingAgrees(u, w, moves, st);
    StartedRun(u, now, RebootTask(x, prior, priorNonce), st, run);
    VerifyRuns(u, now.ledger, x, st, prior, priorNonce, run, |now.sessions|);
    RebootAppended(u, now.ledger, x, st, prior, priorNonce);
  }

  // The whole cycle.

  /** A boot of the same device with the same key, which finds its identity, its flash and its gate inputs in order. */
  ghost predicate SameDevice(x: Device, b: Boot)
    requires x.ram.Some?
  {
    && b.identityReady && b.flashReady && b.gateConfigValid
    && b.mac == x.ram.value.mac && b.authority == x.ram.value.authority && b.nonce != x.ram.value.bootNonce
  }

  function Rebooted(x: Device, lost: Persisted, b: Boot): Device
  {
    Step(Step(x, PowerOff(lost)), PowerOn(b, NO_BEGIN_FAULTS))
  }

  /** After any power cut and a boot with working flash the device stands again, with the same active record. */
  lemma RebootStands(x: Device, lost: Persisted, b: Boot)
    requires Standing(x) && SameDevice(x, b)
    ensures
      var y := Rebooted(x, lost, b);
      && Standing(y) && ActiveOf(y.life.store) == ActiveOf(x.life.store)
      && y.ram.value.mac == x.ram.value.mac && y.ram.value.authority == x.ram.value.authority
      && y.ram.value.bootNonce == b.nonce
  {
    hide Inv, Settled, Safe, Begin, Expected, Decode, Blob;
    StepDeviceInv(x, PowerOff(lost));
    StepDeviceInv(Step(x, PowerOff(lost)), PowerOn(b, NO_BEGIN_FAULTS));
    SettledIsSafe(x.life.store, x.life.nvs);
    RecoveryOfSafe(x.life.store, x.life.nvs, lost);
    SettledExpects(x.life.store, x.life.nvs);
    SettledIsSafe(Rebooted(x, lost, b).life.store, Rebooted(x, lost, b).life.nvs);
  }

  /** The report of the run stands for the rebooted device. */
  lemma ReportIsPrior(u: Setup, x: Device, x': Device, y: Device, p: Package, r: Record, st: LedgerState, lost: Persisted, b: Boot)
    requires Sound(u) && Standing(x) && PackageFor(u, x, p, r) && Installed(x, x', r) && st.authoritySha == KeySeen(x).fingerprint
    requires SameDevice(x, b) && y == Rebooted(x', lost, b)
    ensures Standing(y) && PriorFor(u, y, ReportOf(u, x, p, st), Seen(x).bootNonce)
    ensures Seen(y).deviceId == p.deviceId && KeySeen(y) == KeySeen(x) && y.life.store.installedFloor == r.sequence
  {
    StandingPowered(x);
    InstalledAnswers(u, x, x', p, r);
    ReportReads(u, x, p, st, r);
    assert SameDevice(x', b);
    RebootStands(x', lost, b);
    StandingStore(y); StandingStore(x');
    assert y.life.store.hasActive && y.life.store.activeRecord == r;
    hide Standing, Hex, Blob, Usable, Authorized, WellFormed, States, Read32, Step, RecoversActive, ActiveCrc;
  }

  /** The moves of one whole cycle: provision, append, power off and on, verify, append. */
  function Cycle(u: Setup, x: Device, p: Package, st: LedgerState, run: seq<Move>, lost: Persisted, b: Boot, run': seq<Move>, k: nat)
    : seq<Move>
    requires x.ram.Some?
  {
    Front(p, run, lost, b, k) + ([StartRun(VerifyReboot(ReportOf(u, x, p, st), Seen(x).bootNonce, p.deviceId))] + run')
    + [AppendReport(k + 1)]
  }

  function Front(p: Package, run: seq<Move>, lost: Persisted, b: Boot, k: nat): seq<Move>
  {
    ([StartRun(Apply(p))] + run) + [AppendReport(k), DeviceMove(PowerOff(lost)), DeviceMove(PowerOn(b, NO_BEGIN_FAULTS))]
  }

  lemma PlayThree(u: Setup, w: World, a: Move, b: Move, c: Move)
    ensures Play(u, w, [a, b, c]) == Act(u, Act(u, Act(u, w, a), b), c)
  {
    hide Act;
    assert [a, b, c][..2] == [a, b] && [a, b][..1] == [a] && [a][..0] == [];
    assert Play(u, w, [a]) == Act(u, w, a);
    assert Play(u, w, [a, b]) == Act(u, Act(u, w, a), b);
  }

  lemma PlayOne(u: Setup, w: World, a: Move)
    ensures Play(u, w, [a]) == Act(u, w, a)
  {
    hide Act;
    assert [a][..0] == [];
  }

  lemma DevicePlays(u: Setup, w: World, e: Event)
    ensures
      var w' := Act(u, w, DeviceMove(e));
      w'.ledger == w.ledger && w'.sessions == w.sessions && DeviceIn(u, w') == Step(DeviceIn(u, w), e)
  {
    hide Step;
    MoreHistory(u, w.events, e);
  }

  /** Half way: the report is appended and the device rebooted. */
  lemma FrontPlays(u: Setup, now: World, p: Package, run: seq<Move>, lost: Persisted, b: Boot, k: nat)
    ensures
      var done, half := Play(u, now, [StartRun(Apply(p))] + run), Play(u, now, Front(p, run, lost, b, k));
      && half.ledger == Act(u, done, AppendReport(k)).ledger && half.sessions == done.sessions
      && DeviceIn(u, half) == Rebooted(DeviceIn(u, done), lost, b)
  {
    hide Play, Ran, Step, AppendWrite, AppendReboot;
    var done := Play(u, now, [StartRun(Apply(p))] + run);
    var a, off, on := AppendReport(k), DeviceMove(PowerOff(lost)), DeviceMove(PowerOn(b, NO_BEGIN_FAULTS));
    PlayAppend(u, now, [StartRun(Apply(p))] + run, [a, off, on]);
    PlayThree(u, done, a, off, on);
    AppendPlays(u, done, k);
    var appended := Act(u, done, a);
    DevicePlays(u, appended, PowerOff(lost));
    DevicePlays(u, Act(u, appended, off), PowerOn(b, NO_BEGIN_FAULTS));
  }

  lemma AppendPlays(u: Setup, w: World, k: nat)
    ensures Act(u, w, AppendReport(k)).events == w.events && Act(u, w, AppendReport(k)).sessions == w.sessions
  {
    hide AppendWrite, AppendReboot;
  }

  /** The ledger has grown to a state that matches the rebooted device. */
  lemma HalfMatches(u: Setup, half: World, x: Device, x': Device, p: Package, r: Record, st: LedgerState, lost: Persisted, b: Boot)
    returns (st': LedgerState)
    requires Sound(u) && Standing(x) && PackageFor(u, x, p, r) && Installed(x, x', r) && SameDevice(x, b)
    requires st.authoritySha == KeySeen(x).fingerprint && st.deviceId == p.deviceId
    requires DeviceIn(u, half) == Rebooted(x', lost, b) && Grown(u, half.ledger, st, r.sequence, Some(u.sha(Blob(r))))
    ensures Standing(DeviceIn(u, half)) && PriorFor(u, DeviceIn(u, half), ReportOf(u, x, p, st), Seen(x).bootNonce)
    ensures Seen(DeviceIn(u, half)).deviceId == p.deviceId
    ensures Matching(u, half, st') && st'.entryCount == st.entryCount + 1 && st'.deviceId == st.deviceId
    ensures st'.sequence == r.sequence && st'.recordSha == Some(u.sha(Blob(r))) && st'.authoritySha == st.authoritySha
  {
    hide Standing, PackageFor, Installed, SameDevice, Rebooted, Seen, KeySeen, Verify, PriorFor, ReportOf, Blob, Ran;
    var y := DeviceIn(u, half);
    StandingPowered(x);
    ReportIsPrior(u, x, x', y, p, r, st, lost, b);
    StandingPowered(y);
    st' := Verify(u.hashing, u.policy, half.ledger, Some(st.deviceId)).value;
  }

  /**
   * The whole cycle gets done. From any reachable world as above, with room for two entries: provisioning, appending its
   * report, cutting the power with any part of the flash writes lost, booting the same device with working flash and a
   * new nonce, verifying the reboot against that report and appending the verification leave a ledger that verifies with
   * exactly two entries more, the last a verified reboot, at the sequence and hash of the signed record, which is the
   * record the device reports.
   */
  lemma CycleCompletes(u: Setup, w: World, moves: seq<Move>, p: Package, r: Record, st: LedgerState, run: seq<Move>,
                       lost: Persisted, b: Boot, run': seq<Move>)
    requires Sound(u) && Opening(u, w)
    requires
      var now := Play(u, w, moves);
      var x := DeviceIn(u, now);
      && Standing(x) && Matching(u, now, st) && st.entryCount + 1 < MAX_ENTRIES && PackageFor(u, x, p, r) && SameDevice(x, b)
    requires
      var k := |Play(u, w, moves).sessions|;
      Calm(run, k) && |run| == RunLength(p) && Calm(run', k + 1) && |run'| == 5
    ensures
      var now := Play(u, w, moves);
      var done := Play(u, now, Cycle(u, DeviceIn(u, now), p, st, run, lost, b, run', |now.sessions|));
      var end := Verify(u.hashing, u.policy, done.ledger, Some(p.deviceId));
      && end.Some? && end.value.entryCount == st.entryCount + 2 && end.value.sequence == r.sequence
      && end.value.recordSha == Some(u.sha(Blob(r))) && end.value.authoritySha == st.authoritySha
      && LastEventIs(done.ledger, "reboot_verified")
      && Standing(DeviceIn(u, done)) && ActiveOf(DeviceIn(u, done).life.store) == Some(r)
  {
    hide Play, Sound, Opening, Standing, PackageFor, Installed, Calm, ReportOf, Ran, Blob, Act, Rebooted, SameDevice, PriorFor,
         LastEventIs, Verify, Seen, KeySeen, Front;
    var now := Play(u, w, moves);
    var x, k := DeviceIn(u, now), |now.sessions|;
    StandingPowered(x);
    PackageDevice(u, x, p, r);
    VerifiedDevice(u, now.ledger, p.deviceId);
    ApplyRunFinishes(u, w, moves, p, r, st, run);
    var x' := DeviceIn(u, Play(u, now, [StartRun(Apply(p))] + run));
    FrontPlays(u, now, p, run, lost, b, k);
    var front := Front(p, run, lost, b, k);
    var half := Play(u, now, front);
    var st' := HalfMatches(u, half, x, x', p, r, st, lost, b);
    PlayAppend(u, w, moves, front);
    StandingPowered(DeviceIn(u, half));
    var t := RebootTask(DeviceIn(u, half), ReportOf(u, x, p, st), Seen(x).bootNonce);
    VerifyRunFinishes(u, w, moves + front, ReportOf(u, x, p, st), Seen(x).bootNonce, st', run');
    PlayAppend(u, now, front + ([StartRun(t)] + run'), [AppendReport(k + 1)]);
    PlayAppend(u, now, front, [StartRun(t)] + run');
    var verified := Play(u, half, [StartRun(t)] + run');
    PlayOne(u, verified, AppendReport(k + 1));
    AppendPlays(u, verified, k + 1);
    RebootedActive(x, x', lost, b, r);
  }

  lemma RebootedActive(x: Device, x': Device, lost: Persisted, b: Boot, r: Record)
    requires Standing(x) && Installed(x, x', r) && SameDevice(x, b)
    ensures Standing(Rebooted(x', lost, b)) && ActiveOf(Rebooted(x', lost, b).life.store) == Some(r)
  {
    hide Rebooted;
    assert SameDevice(x', b);
    RebootStands(x', lost, b);
    StandingStore(x');
  }
}
