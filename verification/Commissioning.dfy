/** Device, host runs and audit ledger together: any interleaving of runs, appends, boots, power cuts and other frames. */
module Commissioning {
  import opened Bits
  import opened CalibrationRecord
  import opened SlotSelection
  import opened NvsStore
  import opened StoreRecovery
  import opened StoreLife
  import opened MaintenanceDevice
  import opened DeviceRuns
  import opened DeviceHistory
  import opened AuditLedger
  import LedgerProofs
  import opened HostSession
  import opened DeviceReplies

  /** What stays fixed: the device out of the box, the hash functions and the ledger policy. */
  datatype Setup = Setup(device: Device, hashing: Hashing, policy: Policy, sha: seq<byte> -> string)

  ghost predicate Sound(u: Setup)
  {
    Unboxed(u.device) && Digests(u.hashing) && forall b :: IsDigest(u.sha(b))
  }

  datatype World = World(events: seq<Event>, ledger: Ledger, sessions: seq<Session>)

  datatype Move =
    | DeviceMove(event: Event)
    | StartRun(task: Task)
    | Exchange(k: nat, gates: Gates, nonce: Nonce, stage: StageFaults, lost: bool)
    | AppendReport(k: nat)
    | TransitionMove(transition: TransitionPackage, post: DeviceState)

  function DeviceIn(u: Setup, w: World): Device
  {
    Ran(u.device, w.events)
  }

  /** The device's answer to a request, when it is powered. */
  function Answer(x: Device, e: Event): Option<Frame>
    requires e.Deliver?
  {
    if x.ram.None? || x.life.store.activeSlot > 1 then None else Some(Handle(x, e).reply)
  }

  function Act(u: Setup, w: World, m: Move): World
  {
    match m
    case DeviceMove(e) => w.(events := w.events + [e])
    case StartRun(task) =>
      (match Verify(u.hashing, u.policy, w.ledger, Some(TaskDevice(task)))
       case None => w
       case Some(st) => w.(sessions := w.sessions + [Session(task, st, None, PreflightStatus)]))
    case Exchange(k, g, nonce, f, lost) =>
      if k >= |w.sessions| || Request(w.sessions[k]).None? then w
      else
        var s := w.sessions[k];
        var e := Deliver(Request(s).value, g, nonce, f);
        var answer := Answer(DeviceIn(u, w), e);
        var s' := if lost || answer.None? then Fail(s)
                  else Receive(u.hashing, u.policy, w.ledger, u.sha, s, answer.value);
        World(w.events + [e], w.ledger, w.sessions[k := s'])
    case AppendReport(k) =>
      if k >= |w.sessions| || !w.sessions[k].phase.Finished? then w
      else
        var r := w.sessions[k].phase.report;
        var a := if w.sessions[k].task.Apply? then AppendWrite(u.hashing, u.policy, w.ledger, r)
                 else AppendReboot(u.hashing, u.policy, w.ledger, r);
        w.(ledger := a.ledger)
    case TransitionMove(p, post) => w.(ledger := AppendTransition(u.hashing, u.policy, w.ledger, p, post).ledger)
  }

  function Play(u: Setup, w: World, moves: seq<Move>): World
  {
    if moves == [] then w else Act(u, Play(u, w, moves[..|moves| - 1]), moves[|moves| - 1])
  }

  /** A ledger just initialized, no runs yet, a device out of the box. */
  ghost predicate Opening(u: Setup, w: World)
  {
    && w.events == [] && w.sessions == []
    && exists d, mdRest, evidence, rest :: Initialize(u.hashing, u.policy, d, mdRest, evidence, rest) == Some(w.ledger)
  }

  function RecordSha(u: Setup, active: Option<Record>): Option<string>
  {
    if active.Some? then Some(u.sha(Blob(active.value))) else None
  }

  /** The device once reported this sequence with this record, or both stand for no record at all. */
  ghost predicate Confirmed(u: Setup, h: seq<Confirmation>, sequence: int, recordSha: Option<string>)
  {
    || (sequence == 0 && recordSha == None)
    || exists t: nat :: t < |h| && h[t].active.Some? && h[t].floor == sequence && recordSha == RecordSha(u, h[t].active)
  }

  lemma ConfirmedStays(u: Setup, h: seq<Confirmation>, h': seq<Confirmation>, sequence: int, recordSha: Option<string>)
    requires h <= h' && Confirmed(u, h, sequence, recordSha)
    ensures Confirmed(u, h', sequence, recordSha)
  {
    hide RecordSha;
    if sequence != 0 || recordSha != None {
      var t: nat :| t < |h| && h[t].active.Some? && h[t].floor == sequence && recordSha == RecordSha(u, h[t].active);
      assert h'[t] == h[t];
    }
  }

  lemma HistoryGrows(x: Device, e: Event)
    ensures x.life.confirmed <= Step(x, e).life.confirmed
  {
    hide Begin, StageAndCommit, HandleFrame;
  }

  lemma MoreHistory(u: Setup, events: seq<Event>, e: Event)
    ensures Ran(u.device, events).life.confirmed <= Ran(u.device, events + [e]).life.confirmed
    ensures Ran(u.device, events + [e]) == Step(Ran(u.device, events), e)
  {
    hide Step;
    assert (events + [e])[..|events|] == events;
    HistoryGrows(Ran(u.device, events), e);
  }

  function History(u: Setup, w: World): seq<Confirmation>
  {
    Ran(u.device, w.events).life.confirmed
  }

  ghost predicate ReportConfirmed(u: Setup, h: seq<Confirmation>, s: Session)
  {
    s.phase.Finished? && s.task.Apply? ==>
      Confirmed(u, h, s.phase.report.candidateSequence, RequireSha(s.phase.report.recordSha))
  }

  ghost predicate LedgerConfirmed(u: Setup, h: seq<Confirmation>, l: Ledger)
  {
    match Verify(u.hashing, u.policy, l, None)
    case None => true
    case Some(st) => Confirmed(u, h, st.sequence, st.recordSha)
  }

  ghost predicate WorldInv(u: Setup, w: World)
  {
    && LedgerConfirmed(u, History(u, w), w.ledger)
    && forall k :: 0 <= k < |w.sessions| ==> ReportConfirmed(u, History(u, w), w.sessions[k])
  }

  // What a device tells the host.

  /** The active-record answer carries exactly the record the device reported last. */
  lemma ActiveAnswer(u: Setup, x: Device, e: Event, a: ActiveRecord)
    requires DeviceInv(x) && e.Deliver? && e.frame == Frame(QUERY_ACTIVE_RECORD, []) && Answer(x, e).Some?
    requires ReadActive(Answer(x, e).value, u.sha) == Some(a) && a.present
    ensures
      var h := x.life.confirmed;
      && h != [] && h[|h| - 1].active.Some?
      && a.sequence == h[|h| - 1].floor && a.sha == RecordSha(u, h[|h| - 1].active)
  {
    var m, s := x.ram.value, x.life.store;
    assert Handle(x, e).reply == ActiveRecordReply(m, s);
    hide Handle, HandleFrame;
    ActiveReplyFacts(m, s, u.sha, a);
    ReadyReports(x);
    SequenceInBlob(s.activeRecord);
    hide Blob, Settled, Inv;
  }

  lemma ActiveReplyFacts(m: Ram, s: Store, sha: seq<byte> -> string, a: ActiveRecord)
    requires ReadActive(ActiveRecordReply(m, s), sha) == Some(a) && a.present
    ensures m.storeReady && ActiveOf(s) == Some(s.activeRecord)
    ensures a.blob == Blob(s.activeRecord) && a.sha == Some(sha(a.blob)) && a.sequence == Read32(a.blob, 8)
  {
    hide Blob, Read32;
    var p := ActiveRecordReply(m, s).payload;
    if m.storeReady && s.hasActive && ActiveOf(s).Some? && Encode(s.activeRecord).Some? {
      assert p[2..50] == Blob(s.activeRecord);
    }
  }

  lemma ReadyReports(x: Device)
    requires DeviceInv(x) && x.ram.Some? && x.ram.value.storeReady
    ensures
      var h, s := x.life.confirmed, x.life.store;
      && s.ready && s.activeSlot <= 1
      && h != [] && h[|h| - 1] == Reported(s)
      && (s.hasActive ==> s.installedFloor == s.activeRecord.sequence && Usable(s.activeRecord))
  {
    hide Settled, Blob;
    SettledIsSafe(x.life.store, x.life.nvs);
  }

  /** A run that just finished an apply saw, in the device's own answer, the record its report claims. */
  lemma FinishedReport(u: Setup, l: Ledger, s: Session, reply: Frame, s': Session)
    requires s' == Receive(u.hashing, u.policy, l, u.sha, s, reply) && s'.phase.Finished? && s'.task.Apply?
    ensures Request(s) == Some(Frame(QUERY_ACTIVE_RECORD, []))
    ensures ReadActive(reply, u.sha).Some?
    ensures
      var a, r := ReadActive(reply, u.sha).value, s'.phase.report;
      a.present && a.sequence == r.candidateSequence && a.sha == r.recordSha
  {
    hide ReadActive, ReadStatus, ReadAuthorization, Preflight, Loadable, WritableNow, PreparedAsAsked, CommittedAsAsked, WrittenNow;
  }

  lemma ExchangeConfirmed(u: Setup, w: World, k: nat, g: Gates, nonce: Nonce, f: StageFaults, lost: bool)
    requires Sound(u) && WorldInv(u, w) && k < |w.sessions| && Request(w.sessions[k]).Some?
    ensures
      var w' := Act(u, w, Exchange(k, g, nonce, f, lost));
      History(u, w) <= History(u, w') && ReportConfirmed(u, History(u, w'), w'.sessions[k])
  {
    hide Ran, DeviceInv, Receive, ReadActive, RecordSha, Request, Step, Answer, Verify;
    var s := w.sessions[k];
    var e := Deliver(Request(s).value, g, nonce, f);
    var w' := Act(u, w, Exchange(k, g, nonce, f, lost));
    MoreHistory(u, w.events, e);
    var x := DeviceIn(u, w);
    RunInv(u.device, w.events);
    var s' := w'.sessions[k];
    var answer := Answer(x, e);
    if !lost && answer.Some? && s'.phase.Finished? && s'.task.Apply? {
      FinishedReport(u, w.ledger, s, answer.value, s');
      var a := ReadActive(answer.value, u.sha).value;
      ActiveAnswer(u, x, e, a);
      RecordShaDigest(u, x.life.confirmed[|x.life.confirmed| - 1].active);
      var h, h' := History(u, w), History(u, w');
      assert h'[|h| - 1] == h[|h| - 1];
    }
  }

  lemma RecordShaDigest(u: Setup, active: Option<Record>)
    requires Sound(u) && active.Some?
    ensures RequireSha(RecordSha(u, active)) == RecordSha(u, active)
  {
    hide Lower, IsDigest;
    LowerDigest(u.sha(Blob(active.value)));
  }

  lemma AppendConfirmed(u: Setup, w: World, k: nat)
    requires Sound(u) && WorldInv(u, w) && k < |w.sessions| && w.sessions[k].phase.Finished?
    ensures LedgerConfirmed(u, History(u, w), Act(u, w, AppendReport(k)).ledger)
  {
    hide Ran, Confirmed, WriteAdmissible, RebootAdmissible;
    var s := w.sessions[k];
    var r := s.phase.report;
    var l := w.ledger;
    assert ReportConfirmed(u, History(u, w), s);
    VerifyAny(u, l, r.deviceId);
    var v := Verify(u.hashing, u.policy, l, Some(r.deviceId));
    if v.Some? {
      if s.task.Apply? { LedgerProofs.AppendWriteSound(u.hashing, u.policy, l, r, v.value); }
      else { LedgerProofs.AppendRebootSound(u.hashing, u.policy, l, r, v.value); }
      VerifyAny(u, Act(u, w, AppendReport(k)).ledger, v.value.deviceId);
      hide Verify, AppendWrite, AppendReboot;
    } else {
      hide Verify;
    }
  }

  /** Verification for a device, when it works, gives the same state as verification for any. */
  lemma VerifyAny(u: Setup, l: Ledger, device: string)
    ensures Verify(u.hashing, u.policy, l, Some(device)).Some? ==>
      Verify(u.hashing, u.policy, l, Some(device)) == Verify(u.hashing, u.policy, l, None)
    ensures Verify(u.hashing, u.policy, l, None).Some? ==>
      Verify(u.hashing, u.policy, l, Some(Strip(l.metadata.deviceId))) == Verify(u.hashing, u.policy, l, None)
      && Verify(u.hashing, u.policy, l, None).value.deviceId == Strip(l.metadata.deviceId)
  {
    hide CheckEntries, Strip;
  }

  lemma TransitionConfirmed(u: Setup, w: World, p: TransitionPackage, post: DeviceState)
    requires Sound(u) && WorldInv(u, w)
    ensures LedgerConfirmed(u, History(u, w), Act(u, w, TransitionMove(p, post)).ledger)
  {
    hide Ran, Confirmed, TransitionAdmissible;
    var l := w.ledger;
    var v := Verify(u.hashing, u.policy, l, None);
    if v.Some? {
      LedgerProofs.AppendTransitionSound(u.hashing, u.policy, l, p, post, v.value);
      VerifyAny(u, Act(u, w, TransitionMove(p, post)).ledger, v.value.deviceId);
    }
    hide Verify;
  }

  /** What was confirmed stays confirmed as the device's history grows. */
  lemma InvStays(u: Setup, w: World, events: seq<Event>)
    requires WorldInv(u, w) && History(u, w) <= Ran(u.device, events).life.confirmed
    ensures WorldInv(u, w.(events := events))
  {
    hide Ran, Confirmed, Verify, RequireSha;
    var h, h' := History(u, w), Ran(u.device, events).life.confirmed;
    var v := Verify(u.hashing, u.policy, w.ledger, None);
    if v.Some? { ConfirmedStays(u, h, h', v.value.sequence, v.value.recordSha); }
    forall k | 0 <= k < |w.sessions|
      ensures ReportConfirmed(u, h', w.sessions[k])
    {
      var s := w.sessions[k];
      assert ReportConfirmed(u, h, s);
      if s.phase.Finished? && s.task.Apply? {
        ConfirmedStays(u, h, h', s.phase.report.candidateSequence, RequireSha(s.phase.report.recordSha));
      }
    }
  }

  lemma ActKeepsInv(u: Setup, w: World, m: Move)
    requires Sound(u) && WorldInv(u, w)
    ensures WorldInv(u, Act(u, w, m))
  {
    hide Ran, Verify, Receive, AppendWrite, AppendReboot, AppendTransition, Confirmed, Sound, Answer;
    match m
    case DeviceMove(e) => MoreHistory(u, w.events, e); InvStays(u, w, w.events + [e]);
    case StartRun(task) =>
    case AppendReport(k) =>
      if k < |w.sessions| && w.sessions[k].phase.Finished? { AppendConfirmed(u, w, k); }
    case TransitionMove(p, post) => TransitionConfirmed(u, w, p, post);
    case Exchange(k, g, nonce, f, lost) =>
      if k < |w.sessions| && Request(w.sessions[k]).Some? {
        ExchangeConfirmed(u, w, k, g, nonce, f, lost);
        InvStays(u, w, Act(u, w, m).events);
      }
  }

  lemma {:induction false} PlayKeepsInv(u: Setup, w: World, moves: seq<Move>)
    requires Sound(u) && Opening(u, w)
    ensures WorldInv(u, Play(u, w, moves))
  {
    hide WorldInv, Act, Sound, Opening;
    if moves == [] {
      OpeningInv(u, w);
    } else {
      PlayKeepsInv(u, w, moves[..|moves| - 1]);
      ActKeepsInv(u, Play(u, w, moves[..|moves| - 1]), moves[|moves| - 1]);
    }
  }

  lemma OpeningInv(u: Setup, w: World)
    requires Sound(u) && Opening(u, w)
    ensures WorldInv(u, w)
  {
    hide Initialize, Verify, Ran;
    var d, mdRest, evidence, rest :| Initialize(u.hashing, u.policy, d, mdRest, evidence, rest) == Some(w.ledger);
    LedgerProofs.InitializeVerifies(u.hashing, u.policy, d, mdRest, evidence, rest);
    VerifyAny(u, w.ledger, Strip(d.deviceId));
  }

  // The ledger stays verifiable.

  /** The ledger verifies, or the directory is full. */
  predicate Intact(u: Setup, l: Ledger)
  {
    Verify(u.hashing, u.policy, l, None).Some? || |l.entries| > MAX_ENTRIES
  }

  /** A confirmed sequence is within the ledger's range. */
  lemma ConfirmedInRange(u: Setup, events: seq<Event>, sequence: int, recordSha: Option<string>)
    requires Sound(u) && Confirmed(u, Ran(u.device, events).life.confirmed, sequence, recordSha)
    ensures sequence <= MAX_LEDGER_SEQUENCE
  {
    hide Ran, Settled, Blob, RecordSha;
    RunInv(u.device, events);
    var x := Ran(u.device, events);
    var h := x.life.confirmed;
    if !(sequence == 0 && recordSha == None) {
      var t: nat :| t < |h| && h[t].active.Some? && h[t].floor == sequence && recordSha == RecordSha(u, h[t].active);
      assert Kept(x.life.nvs, h[|h| - 1]);
      if t < |h| - 1 { assert h[t].floor <= h[|h| - 1].floor; }
    }
  }

  /** An append from a verified state, claiming a sequence in range, leaves an intact ledger. */
  lemma AppendIntact(u: Setup, l: Ledger, st: LedgerState, after: Calibration, a: Appended)
    requires Verify(u.hashing, u.policy, l, Some(st.deviceId)) == Some(st) && st.entryCount == |l.entries|
    requires after.sequence <= MAX_LEDGER_SEQUENCE
    requires LedgerProofs.Appends(u.hashing, u.policy, l, st, after, a) || a == Appended(l, None)
    ensures Intact(u, a.ledger)
  {
    hide Verify;
    VerifyAny(u, a.ledger, st.deviceId);
    VerifyAny(u, l, st.deviceId);
  }

  lemma ReportIntact(u: Setup, w: World, k: nat)
    requires Sound(u) && WorldInv(u, w) && Intact(u, w.ledger)
    requires k < |w.sessions| && w.sessions[k].phase.Finished?
    ensures Intact(u, Act(u, w, AppendReport(k)).ledger)
  {
    hide Ran, Confirmed, WriteAdmissible, RebootAdmissible, Verify, LedgerProofs.Appends, RequireSha, IsDigest;
    var s, l := w.sessions[k], w.ledger;
    var r := s.phase.report;
    var v := Verify(u.hashing, u.policy, l, Some(r.deviceId));
    if v.Some? {
      LedgerProofs.StateIsNormal(u.hashing, u.policy, l, Some(r.deviceId));
      VerifiedDevice(u, l, r.deviceId);
      if s.task.Apply? {
        assert ReportConfirmed(u, History(u, w), s);
        ConfirmedInRange(u, w.events, r.candidateSequence, RequireSha(r.recordSha));
        LedgerProofs.AppendWriteSound(u.hashing, u.policy, l, r, v.value);
        AppendIntact(u, l, v.value, LedgerProofs.ClaimedCalibration(v.value, r), AppendWrite(u.hashing, u.policy, l, r));
      } else {
        LedgerProofs.AppendRebootSound(u.hashing, u.policy, l, r, v.value);
        AppendIntact(u, l, v.value, LedgerProofs.CurrentCalibration(v.value), AppendReboot(u.hashing, u.policy, l, r));
      }
    }
  }

  lemma VerifiedDevice(u: Setup, l: Ledger, device: string)
    requires Verify(u.hashing, u.policy, l, Some(device)).Some?
    ensures Verify(u.hashing, u.policy, l, Some(device)).value.deviceId == device
  {
    hide CheckEntries, Strip;
  }

  lemma TransitionIntact(u: Setup, w: World, p: TransitionPackage, post: DeviceState)
    requires Sound(u) && Intact(u, w.ledger)
    ensures Intact(u, Act(u, w, TransitionMove(p, post)).ledger)
  {
    hide Ran, TransitionAdmissible, Verify, LedgerProofs.Appends, IsDigest;
    var l := w.ledger;
    var v := Verify(u.hashing, u.policy, l, None);
    if v.Some? {
      LedgerProofs.StateIsNormal(u.hashing, u.policy, l, None);
      LedgerProofs.AppendTransitionSound(u.hashing, u.policy, l, p, post, v.value);
      AppendIntact(u, l, v.value, LedgerProofs.CurrentCalibration(v.value).(authoritySha := p.newKey),
                   AppendTransition(u.hashing, u.policy, l, p, post));
    }
  }

  /**
   * Over every interleaving the ledger verifies exactly as long as its directory has room: no run of the host makes it
   * unverifiable, because it only ever appends what a device has reported.
   */
  lemma {:induction false} LedgerStaysIntact(u: Setup, w: World, moves: seq<Move>)
    requires Sound(u) && Opening(u, w)
    ensures
      var l := Play(u, w, moves).ledger;
      Verify(u.hashing, u.policy, l, None).Some? <==> |l.entries| <= MAX_ENTRIES
  {
    hide Verify, Opening, WorldInv, Sound, Act;
    if moves == [] {
      OpeningVerifies(u, w);
    } else {
      var front, m := moves[..|moves| - 1], moves[|moves| - 1];
      var before := Play(u, w, front);
      LedgerStaysIntact(u, w, front);
      PlayKeepsInv(u, w, front);
      ActIntact(u, before, m);
    }
    FullIsRefused(u, Play(u, w, moves).ledger);
  }

  lemma ActIntact(u: Setup, w: World, m: Move)
    requires Sound(u) && WorldInv(u, w) && Intact(u, w.ledger)
    ensures Intact(u, Act(u, w, m).ledger)
  {
    hide Ran, Verify, Receive, AppendWrite, AppendReboot, AppendTransition, Confirmed, Sound, Answer, Intact, WorldInv;
    match m
    case AppendReport(k) => if k < |w.sessions| && w.sessions[k].phase.Finished? { ReportIntact(u, w, k); }
    case TransitionMove(p, post) => TransitionIntact(u, w, p, post);
    case _ =>
  }

  lemma OpeningVerifies(u: Setup, w: World)
    requires Sound(u) && Opening(u, w)
    ensures Verify(u.hashing, u.policy, w.ledger, None).Some?
  {
    hide Initialize, Verify, Ran;
    var d, mdRest, evidence, rest :| Initialize(u.hashing, u.policy, d, mdRest, evidence, rest) == Some(w.ledger);
    LedgerProofs.InitializeVerifies(u.hashing, u.policy, d, mdRest, evidence, rest);
    VerifyAny(u, w.ledger, Strip(d.deviceId));
  }

  lemma FullIsRefused(u: Setup, l: Ledger)
    ensures Verify(u.hashing, u.policy, l, None).Some? ==> |l.entries| <= MAX_ENTRIES
  {
    hide CheckEntries;
  }

  // Agreement.

  lemma HistoryFacts(u: Setup, events: seq<Event>)
    requires Sound(u)
    ensures DeviceInv(Ran(u.device, events)) && Monotone(Ran(u.device, events).life.confirmed)
    ensures
      var x := Ran(u.device, events);
      x.life.confirmed != [] ==>
        var c := x.life.confirmed[|x.life.confirmed| - 1];
        Floor(x) == c.floor && (c.active.Some? <==> c.floor > 0)
  {
    hide Ran, Settled, Blob;
    RunInv(u.device, events);
  }

  /**
   * Three-party agreement, over every interleaving from a fresh device and ledger, for as long as the ledger's
   * directory has room: the ledger verifies, its sequence does not exceed the floor the device reported last, and if the
   * two are equal the ledger's record hash is the hash of the device's active record.
   */
  lemma LedgerNeverAhead(u: Setup, w: World, moves: seq<Move>)
    requires Sound(u) && Opening(u, w)
    requires |Play(u, w, moves).ledger.entries| <= MAX_ENTRIES
    ensures Verify(u.hashing, u.policy, Play(u, w, moves).ledger, None).Some?
    ensures
      var now := Play(u, w, moves);
      var st, x := Verify(u.hashing, u.policy, now.ledger, None).value, DeviceIn(u, now);
      && st.sequence <= Floor(x)
      && (st.sequence == Floor(x) && x.life.confirmed != [] ==>
            st.recordSha == RecordSha(u, x.life.confirmed[|x.life.confirmed| - 1].active))
  {
    hide Ran, Play, Sound, Opening, Verify, Monotone, DeviceInv;
    var now := Play(u, w, moves);
    LedgerStaysIntact(u, w, moves);
    PlayKeepsInv(u, w, moves);
    HistoryFacts(u, now.events);
    var st := Verify(u.hashing, u.policy, now.ledger, None).value;
    AgreementOf(u, DeviceIn(u, now), st.sequence, st.recordSha);
  }

  lemma AgreementOf(u: Setup, x: Device, sequence: int, recordSha: Option<string>)
    requires Monotone(x.life.confirmed) && Confirmed(u, x.life.confirmed, sequence, recordSha)
    requires x.life.confirmed != [] ==> (x.life.confirmed[|x.life.confirmed| - 1].active.Some? <==> Floor(x) > 0)
    ensures sequence <= Floor(x)
    ensures sequence == Floor(x) && x.life.confirmed != [] ==>
      recordSha == RecordSha(u, x.life.confirmed[|x.life.confirmed| - 1].active)
  {
    hide Blob;
    var h := x.life.confirmed;
    if !(sequence == 0 && recordSha == None) {
      var t: nat :| t < |h| && h[t].active.Some? && h[t].floor == sequence && recordSha == RecordSha(u, h[t].active);
      if t < |h| - 1 { assert h[t].floor <= h[|h| - 1].floor; }
    }
  }

  /** The answers of one device state to the three preflight queries. */
  predicate Answers(u: Setup, m: Ram, s: Store, g: Gates, status: DeviceStatus, key: AuthorizationStatus, active: ActiveRecord)
  {
    && ReadStatus(StatusReply(m, s, g)) == Some(status)
    && ReadAuthorization(AuthorizationReply(m)) == Some(key)
    && ReadActive(ActiveRecordReply(m, s), u.sha) == Some(active)
  }

  /** What the three answers say of a ready store. */
  lemma AnswersOfReady(u: Setup, x: Device, g: Gates, status: DeviceStatus, key: AuthorizationStatus, active: ActiveRecord)
    requires DeviceInv(x) && x.ram.Some? && Answers(u, x.ram.value, x.life.store, g, status, key, active)
    ensures
      var s := x.life.store;
      && x.ram.value.storeReady && status.installed == Floor(x) == s.installedFloor
      && status.hasActive == active.present == s.hasActive
      && active.sha == RecordSha(u, ActiveOf(s))
      && (active.present ==> active.sequence == status.installed && active.crc == status.crc)
  {
    hide Blob, Settled, Inv, StatusReply;
    var m, s := x.ram.value, x.life.store;
    assert m.storeReady;
    ReadyReports(x);
    StatusFields(m, s, g, status);
    if s.hasActive {
      SequenceInBlob(s.activeRecord);
      ActiveFields(m, s, u.sha, active);
    }
  }

  lemma ActiveFields(m: Ram, s: Store, sha: seq<byte> -> string, a: ActiveRecord)
    requires m.storeReady && s.ready && s.hasActive && Usable(s.activeRecord)
    requires ReadActive(ActiveRecordReply(m, s), sha) == Some(a)
    ensures a.present && a.blob == Blob(s.activeRecord) && a.sha == Some(sha(a.blob))
    ensures a.sequence == Read32(a.blob, 8) && a.crc == Read32(a.blob, 44)
  {
    hide Blob, Read32, Usable, ReadActive, ActiveRecordReply;
    ActiveMeans(m, s, sha);
    SequenceInBlob(s.activeRecord);
  }

  lemma StatusFields(m: Ram, s: Store, g: Gates, status: DeviceStatus)
    requires ReadStatus(StatusReply(m, s, g)) == Some(status) && m.storeReady && s.ready
    requires s.hasActive ==> Usable(s.activeRecord)
    ensures status.installed == s.installedFloor && status.hasActive == s.hasActive && status.storeReady
    ensures s.hasActive ==> status.crc == Read32(Blob(s.activeRecord), 44)
  {
    hide Blob, Usable, Read32, Hex;
    assert |m.mac| == 6;
    hide ReadStatus, StatusReply;
    StatusMeans(m, s, g);
  }

  /**
   * Preflight is exact: in any reachable world, a run that started from the ledger as it stands passes its preflight
   * against the answers of the powered device if and only if sequence and signing key agree. The record never has to be
   * compared separately: equal sequences already mean equal records.
   */
  lemma PreflightPassesIff(u: Setup, w: World, moves: seq<Move>, run: Session, g: Gates,
                           status: DeviceStatus, key: AuthorizationStatus, active: ActiveRecord)
    requires Sound(u) && Opening(u, w)
    requires
      var now := Play(u, w, moves);
      var x := DeviceIn(u, now);
      && x.ram.Some? && Answers(u, x.ram.value, x.life.store, g, status, key, active)
      && Verify(u.hashing, u.policy, now.ledger, None) == Some(run.ledgerSeen)
      && run.ledgerSeen.deviceId == status.deviceId == TaskDevice(run.task)
    ensures
      var now := Play(u, w, moves);
      FinishPreflight(u.hashing, u.policy, now.ledger, u.sha, run, status, key, active).phase != Failed
      <==> run.ledgerSeen.sequence == DeviceIn(u, now).life.store.installedFloor
           && RequireSha(Some(key.fingerprint)) == Some(run.ledgerSeen.authoritySha)
  {
    hide Ran, Play, Sound, Opening, Verify, DeviceInv, Answers, RequireSha, RecordSha;
    var now := Play(u, w, moves);
    var x := DeviceIn(u, now);
    HistoryFacts(u, now.events);
    FullIsRefused(u, now.ledger);
    LedgerNeverAhead(u, w, moves);
    AnswersOfReady(u, x, g, status, key, active);
    LastReport(x);
    VerifyAny(u, now.ledger, status.deviceId);
    RecordShaIfAny(u, ActiveOf(x.life.store));
  }

  lemma LastReport(x: Device)
    requires DeviceInv(x) && x.ram.Some? && x.ram.value.storeReady
    ensures x.life.confirmed != [] && x.life.confirmed[|x.life.confirmed| - 1].active == ActiveOf(x.life.store)
  {
    hide Settled, Inv;
    ReadyReports(x);
  }

  lemma RecordShaIfAny(u: Setup, active: Option<Record>)
    requires Sound(u)
    ensures RequireSha(RecordSha(u, active)) == RecordSha(u, active)
  {
    hide Lower, IsDigest;
    if active.Some? { RecordShaDigest(u, active); }
  }
}
