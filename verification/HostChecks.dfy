/** Exactly when a host run finishes, on the replies it receives: nothing it must check is left out. */
module HostChecks {
  import opened Bits
  import opened CalibrationRecord
  import opened MaintenanceDevice
  import opened AuditLedger
  import opened HostSession

  /** Exactly which replies the host can read: the right opcode and size, an OK status, and zeros where no record is. */
  lemma ReadableIff(reply: Frame, sha: seq<byte> -> string)
    ensures
      var p := reply.payload;
      && (ReadStatus(reply).Some? <==> reply.opcode == 0x81 && |p| == 27 && p[0] == 0)
      && (ReadAuthorization(reply).Some? <==> reply.opcode == 0x84 && |p| == 34 && p[0] == 0)
      && (ReadActive(reply, sha).Some? <==>
            reply.opcode == 0x85 && |p| == 50 && p[0] == 0 && (p[1] == 1 || forall i :: 2 <= i < 50 ==> p[i] == 0))
      && (ReadActive(reply, sha).Some? ==> ReadActive(reply, sha).value.present == (p[1] == 1))
  {
    hide Hex, Read32;
    var p := reply.payload;
    if |p| == 50 {
      var rest := p[2..];
      assert rest == Zeros(48) <==> forall i :: 0 <= i < 48 ==> rest[i] == 0 by { ZerosAre(48); }
      assert forall i :: 0 <= i < 48 ==> rest[i] == p[i + 2];
    }
  }

  lemma {:induction false} ZerosAre(n: nat)
    ensures forall i :: 0 <= i < n ==> Zeros(n)[i] == 0
  {
    if n > 0 { ZerosAre(n - 1); }
  }

  /** What a run needs besides the replies: hash functions, policy and the ledger as it stands. */
  datatype Ground = Ground(hashing: Hashing, policy: Policy, ledger: Ledger, sha: seq<byte> -> string)

  function Hear(u: Ground, s: Session, reply: Frame): Session
  {
    Receive(u.hashing, u.policy, u.ledger, u.sha, s, reply)
  }

  /** The session after these replies. */
  function Heard(u: Ground, s: Session, replies: seq<Frame>): Session
  {
    if replies == [] then s else Hear(u, Heard(u, s, replies[..|replies| - 1]), replies[|replies| - 1])
  }

  lemma {:induction false} HeardSplit(u: Ground, s: Session, replies: seq<Frame>, n: nat)
    requires n <= |replies|
    ensures Heard(u, s, replies) == Heard(u, Heard(u, s, replies[..n]), replies[n..])
  {
    hide Hear;
    if n == |replies| {
      assert replies[..n] == replies;
    } else {
      var front := replies[..|replies| - 1];
      HeardSplit(u, s, front, n);
      assert front[..n] == replies[..n];
      assert front[n..] == replies[n..][..|replies[n..]| - 1];
    }
  }

  lemma HeardOne(u: Ground, s: Session, replies: seq<Frame>)
    requires replies != []
    ensures Heard(u, s, replies) == Heard(u, Hear(u, s, replies[0]), replies[1..])
  {
    hide Hear;
    HeardSplit(u, s, replies, 1);
    assert replies[..1][..0] == [];
    assert Heard(u, s, replies[..1]) == Hear(u, s, replies[0]);
  }

  lemma {:induction false} FailedStays(u: Ground, s: Session, replies: seq<Frame>)
    requires s.phase == Failed
    ensures Heard(u, s, replies).phase == Failed
  {
    hide Hear;
    if replies != [] {
      FailedStays(u, s, replies[..|replies| - 1]);
      FailedOnce(u, Heard(u, s, replies[..|replies| - 1]), replies[|replies| - 1]);
    }
  }

  lemma FailedOnce(u: Ground, s: Session, reply: Frame)
    requires s.phase == Failed
    ensures Hear(u, s, reply).phase == Failed
  {
    hide Loadable;
  }

  // The preflight.

  /** The three answers agree with each other, with the ledger as it stands and with the ledger the run began from. */
  predicate PreflightAgreed(u: Ground, s: Session, r0: Frame, r1: Frame, r2: Frame)
  {
    && ReadStatus(r0).Some? && ReadAuthorization(r1).Some? && ReadActive(r2, u.sha).Some?
    && var status, key, active := ReadStatus(r0).value, ReadAuthorization(r1).value, ReadActive(r2, u.sha).value;
       && status.deviceId == TaskDevice(s.task)
       && status.hasActive == active.present
       && (active.present ==> active.sequence == status.installed && active.crc == status.crc)
       && var st := Verify(u.hashing, u.policy, u.ledger, Some(status.deviceId));
          && st == Some(s.ledgerSeen)
          && st.value.sequence == status.installed
          && (active.sha.Some? ==> RequireSha(active.sha).Some?) && RequireSha(active.sha) == st.value.recordSha
          && RequireSha(Some(key.fingerprint)) == Some(st.value.authoritySha)
  }

  function AfterPreflight(s: Session): Session
  {
    if s.task.VerifyReboot? then s.(phase := RebootStatus)
    else s.(phase := if s.task.package.intent.Some? then IntentActive else PreStatus)
  }

  lemma PreflightHeard(u: Ground, s: Session, replies: seq<Frame>)
    requires s.phase == PreflightStatus && |replies| >= 3
    ensures
      if PreflightAgreed(u, s, replies[0], replies[1], replies[2]) then
        Heard(u, s, replies) == Heard(u, AfterPreflight(s), replies[3..])
      else Heard(u, s, replies).phase == Failed
  {
    hide ReadStatus, ReadAuthorization, ReadActive, Verify, RequireSha, Heard;
    HeardOne(u, s, replies);
    var s1, t1 := Hear(u, s, replies[0]), replies[1..];
    if s1.phase == Failed { FailedStays(u, s1, t1); return; }
    HeardOne(u, s1, t1);
    var s2, t2 := Hear(u, s1, t1[0]), t1[1..];
    if s2.phase == Failed { FailedStays(u, s2, t2); return; }
    HeardOne(u, s2, t2);
    var s3, t3 := Hear(u, s2, t2[0]), t2[1..];
    assert t3 == replies[3..];
    if s3.phase == Failed { FailedStays(u, s3, t3); }
  }

  // A provisioning run.

  /** The device as seen before the write is the package's, writable now, and lower than the candidate. */
  predicate BeforeWrite(p: Package, r0: Frame, r1: Frame)
  {
    && ReadStatus(r0).Some? && ReadAuthorization(r1).Some?
    && var pre, key := ReadStatus(r0).value, ReadAuthorization(r1).value;
       && pre.deviceId == p.deviceId && key.ready && key.fingerprint == p.signer
       && pre.storeReady && pre.maintenance && pre.loadInhibit && pre.pending == 0
       && pre.installed == p.installed < p.candidate
  }

  /** The device offered and confirmed exactly the package's sequence and checksum. */
  predicate Written(p: Package, r0: Frame, r1: Frame)
  {
    && r0.opcode == 0x82 && |r0.payload| == 13 && r0.payload[0] == 0
    && Read32(r0.payload, 1) == p.candidate && Read32(r0.payload, 5) == p.crc
    && 0 < Read32(r0.payload, 9) < 0xFFFF_FFFF
    && r1.opcode == 0x83 && |r1.payload| == 9 && r1.payload[0] == 0
    && Read32(r1.payload, 1) == p.candidate && Read32(r1.payload, 5) == p.crc
  }

  /** The same device in the same boot then reports the candidate, and its record reads back byte for byte. */
  predicate AfterWrite(u: Ground, s: Session, p: Package, pre: Frame, r0: Frame, r1: Frame, r2: Frame)
    requires ReadStatus(pre).Some?
  {
    && ReadStatus(r0).Some? && ReadAuthorization(r1).Some? && ReadActive(r2, u.sha).Some?
    && var was, post, key, a := ReadStatus(pre).value, ReadStatus(r0).value, ReadAuthorization(r1).value, ReadActive(r2, u.sha).value;
       && post.deviceId == was.deviceId && post.bootNonce == was.bootNonce && key.ready && key.fingerprint == p.signer
       && post.storeReady && post.hasActive && post.installed == p.candidate && post.crc == p.crc && post.pending == 0
       && a.present && a.sha == Some(u.sha(p.blob)) && a.sequence == p.candidate && a.crc == p.crc
       && (p.intent.Some? ==> s.before.Some? && a.sequence == s.before.value.sequence + 1)
  }

  /** The package's parts have the sizes of the protocol, and its checksum is its blob's own. */
  predicate WellPacked(p: Package)
  {
    |p.blob| == 48 && Read32(p.blob, 44) == p.crc && |p.root| == 32 && 0 < |p.signature| <= 80
  }

  lemma WriteHeard(u: Ground, s: Session, p: Package, r: seq<Frame>)
    requires s.task == Apply(p) && s.phase == PreStatus && |r| == 7
    ensures Heard(u, s, r).phase.Finished? <==>
      && WellPacked(p) && BeforeWrite(p, r[0], r[1]) && Written(p, r[2], r[3])
      && AfterWrite(u, s, p, r[0], r[4], r[5], r[6])
  {
    hide Heard, BeforeWrite, Written, AfterWrite, WellPacked, Hear;
    HeardOne(u, s, r);
    var s1, t1 := Hear(u, s, r[0]), r[1..];
    StatusHeard(u, s, p, r[0]);
    if s1.phase == Failed { FailedStays(u, s1, t1); return; }
    HeardOne(u, s1, t1);
    var s2, t2 := Hear(u, s1, t1[0]), t1[1..];
    KeyHeard(u, s1, p, r[0], t1[0]);
    if s2.phase == Failed { FailedStays(u, s2, t2); return; }
    HeardOne(u, s2, t2);
    var s3, t3 := Hear(u, s2, t2[0]), t2[1..];
    HeardOne(u, s3, t3);
    var s4, t4 := Hear(u, s3, t3[0]), t3[1..];
    WrittenHeard(u, s2, p, t2[0], t3[0]);
    if s3.phase == Failed { FailedStays(u, s3, t3); return; }
    if s4.phase == Failed { FailedStays(u, s4, t4); return; }
    assert t4 == r[4..] && t3[0] == r[3] && t2[0] == r[2];
    ConfirmHeard(u, s4, p, r[0], t4);
    AfterWriteSame(u, s, s4, p, r[0], r[4], r[5], r[6]);
  }

  lemma AfterWriteSame(u: Ground, s: Session, s': Session, p: Package, pre: Frame, r0: Frame, r1: Frame, r2: Frame)
    requires ReadStatus(pre).Some? && s.before == s'.before
    ensures AfterWrite(u, s, p, pre, r0, r1, r2) == AfterWrite(u, s', p, pre, r0, r1, r2)
  {
    hide ReadStatus, ReadAuthorization, ReadActive;
  }

  lemma StatusHeard(u: Ground, s: Session, p: Package, reply: Frame)
    requires s.task == Apply(p) && s.phase == PreStatus
    ensures Hear(u, s, reply) ==
      if WellPacked(p) && ReadStatus(reply).Some? then s.(phase := PreAuthorization(ReadStatus(reply).value)) else Fail(s)
    ensures forall r1 :: BeforeWrite(p, reply, r1) ==> ReadStatus(reply).Some?
  {
    hide ReadStatus, ReadAuthorization;
  }

  lemma KeyHeard(u: Ground, s: Session, p: Package, pre: Frame, reply: Frame)
    requires s.task == Apply(p) && WellPacked(p) && ReadStatus(pre).Some? && s.phase == PreAuthorization(ReadStatus(pre).value)
    ensures Hear(u, s, reply) ==
      if BeforeWrite(p, pre, reply) then s.(phase := Prepare(ReadStatus(pre).value)) else Fail(s)
  {
    hide ReadStatus, ReadAuthorization;
  }

  lemma WrittenHeard(u: Ground, s: Session, p: Package, r0: Frame, r1: Frame)
    requires s.task == Apply(p) && WellPacked(p) && s.phase.Prepare?
    ensures
      var s' := Hear(u, s, r0);
      if Written(p, r0, r1) then Hear(u, s', r1) == s.(phase := PostStatus(s.phase.pre)) && s'.phase != Failed
      else s'.phase == Failed || Hear(u, s', r1).phase == Failed
  {
    hide Read32;
  }

  lemma ConfirmHeard(u: Ground, s: Session, p: Package, pre: Frame, r: seq<Frame>)
    requires s.task == Apply(p) && WellPacked(p) && ReadStatus(pre).Some? && s.phase == PostStatus(ReadStatus(pre).value) && |r| == 3
    ensures Heard(u, s, r).phase.Finished? <==> AfterWrite(u, s, p, pre, r[0], r[1], r[2])
  {
    hide Heard, ReadStatus, ReadAuthorization, ReadActive, WriteReport, WellPacked;
    WellPackedLoads(p);
    hide Loadable;
    HeardOne(u, s, r);
    var s1, t1 := Hear(u, s, r[0]), r[1..];
    if s1.phase == Failed { FailedStays(u, s1, t1); return; }
    HeardOne(u, s1, t1);
    var s2, t2 := Hear(u, s1, t1[0]), t1[1..];
    if s2.phase == Failed { FailedStays(u, s2, t2); return; }
    HeardOne(u, s2, t2);
    NothingMore(u, Hear(u, s2, t2[0]), t2[1..]);
  }

  lemma WellPackedLoads(p: Package)
    ensures WellPacked(p) <==> Loadable(p)
  {
    hide Read32;
  }

  lemma NothingMore(u: Ground, s: Session, replies: seq<Frame>)
    requires replies == []
    ensures Heard(u, s, replies) == s
  {}

  /**
   * A provisioning run finishes if and only if its ten replies satisfy every check: the live preflight against the
   * ledger, the device's identity, key, gates, store and floor before the write, the sequence and checksum in the answers
   * to PREPARE and COMMIT, and the same device, boot and key with the candidate read back byte for byte after it.
   */
  lemma ApplyFinishesIff(u: Ground, st: LedgerState, p: Package, r: seq<Frame>)
    requires p.intent == None && |r| == 10
    ensures
      var s := Session(Apply(p), st, None, PreflightStatus);
      Heard(u, s, r).phase.Finished? <==>
        && WellPacked(p) && PreflightAgreed(u, s, r[0], r[1], r[2]) && BeforeWrite(p, r[3], r[4]) && Written(p, r[5], r[6])
        && AfterWrite(u, s, p, r[3], r[7], r[8], r[9])
  {
    hide Heard, PreflightAgreed, BeforeWrite, Written, AfterWrite, WellPacked;
    var s := Session(Apply(p), st, None, PreflightStatus);
    PreflightHeard(u, s, r);
    WriteHeard(u, AfterPreflight(s), p, r[3..]);
    if BeforeWrite(p, r[3], r[4]) {
      StatusHeard(u, AfterPreflight(s), p, r[3]);
      AfterWriteSame(u, s, AfterPreflight(s), p, r[3], r[7], r[8], r[9]);
    }
  }

  /** The active record is the one the recovery package was built against, and the package takes exactly the next sequence. */
  predicate RecoversRead(u: Ground, p: Package, reply: Frame)
    requires p.intent.Some?
  {
    && ReadActive(reply, u.sha).Some?
    && var a, i := ReadActive(reply, u.sha).value, p.intent.value;
       && a.present && a.sha == Some(i.sha) && a.sequence == i.sequence == p.installed && a.crc == i.crc
       && p.candidate == p.installed + 1
  }

  lemma IntentHeard(u: Ground, s: Session, p: Package, reply: Frame)
    requires s.task == Apply(p) && s.phase == IntentActive && p.intent.Some?
    ensures Hear(u, s, reply) ==
      if WellPacked(p) && RecoversRead(u, p, reply) then s.(before := Some(ReadActive(reply, u.sha).value), phase := PreStatus)
      else Fail(s)
  {
    WellPackedLoads(p);
    hide ReadActive, Loadable;
  }

  /** A recovery run: the same with eleven replies, and the record read first is the one the package recovers from. */
  lemma RecoveryFinishesIff(u: Ground, st: LedgerState, p: Package, r: seq<Frame>)
    requires p.intent.Some? && |r| == 11
    ensures
      var s := Session(Apply(p), st, None, PreflightStatus);
      Heard(u, s, r).phase.Finished? <==>
        && WellPacked(p) && PreflightAgreed(u, s, r[0], r[1], r[2]) && RecoversRead(u, p, r[3])
        && BeforeWrite(p, r[4], r[5]) && Written(p, r[6], r[7])
        && AfterWrite(u, s.(before := Some(ReadActive(r[3], u.sha).value)), p, r[4], r[8], r[9], r[10])
  {
    hide Heard, PreflightAgreed, BeforeWrite, Written, AfterWrite, WellPacked, Hear, ReadActive, RecoversRead;
    var s := Session(Apply(p), st, None, PreflightStatus);
    PreflightHeard(u, s, r);
    var s1, t1 := AfterPreflight(s), r[3..];
    HeardOne(u, s1, t1);
    IntentHeard(u, s1, p, r[3]);
    var s2, t2 := Hear(u, s1, r[3]), t1[1..];
    if s2.phase == Failed { FailedStays(u, s2, t2); return; }
    assert t2 == r[4..];
    WriteHeard(u, s2, p, t2);
    RecoveryNeedsRead(u, p, r[3]);
    if BeforeWrite(p, r[4], r[5]) {
      StatusHeard(u, s2, p, r[4]);
      AfterWriteSame(u, s.(before := Some(ReadActive(r[3], u.sha).value)), s2, p, r[4], r[8], r[9], r[10]);
    }
  }

  lemma RecoveryNeedsRead(u: Ground, p: Package, reply: Frame)
    requires p.intent.Some?
    ensures RecoversRead(u, p, reply) ==> ReadActive(reply, u.sha).Some?
  {}

  /** What a reboot verification must see: the device of the report, rebooted, with the reported record active. */
  predicate RebootSeen(u: Ground, prior: Report, priorNonce: int, r0: Frame, r1: Frame)
  {
    && ReadStatus(r0).Some? && ReadActive(r1, u.sha).Some?
    && var status, a := ReadStatus(r0).value, ReadActive(r1, u.sha).value;
       && prior.schema == "forgesense.calibration_physical_provisioning.v1" && prior.commitVerified
       && status.deviceId == prior.deviceId && status.bootNonce != priorNonce && status.storeReady && status.hasActive
       && status.installed == prior.candidateSequence && status.crc == prior.candidateCrc && status.pending == 0
       && a.present && a.sha == prior.recordSha && a.sequence == prior.candidateSequence && a.crc == prior.candidateCrc
  }

  /** A reboot verification finishes if and only if its five replies satisfy every check. */
  lemma RebootFinishesIff(u: Ground, st: LedgerState, prior: Report, priorNonce: int, device: string, r: seq<Frame>)
    requires |r| == 5
    ensures
      var s := Session(VerifyReboot(prior, priorNonce, device), st, None, PreflightStatus);
      Heard(u, s, r).phase.Finished? <==>
        PreflightAgreed(u, s, r[0], r[1], r[2]) && RebootSeen(u, prior, priorNonce, r[3], r[4])
  {
    hide Heard, PreflightAgreed, ReadStatus, ReadActive, RebootReport;
    var s := Session(VerifyReboot(prior, priorNonce, device), st, None, PreflightStatus);
    PreflightHeard(u, s, r);
    var s1, t1 := AfterPreflight(s), r[3..];
    HeardOne(u, s1, t1);
    var s2, t2 := Hear(u, s1, t1[0]), t1[1..];
    if s2.phase == Failed { FailedStays(u, s2, t2); return; }
    HeardOne(u, s2, t2);
    NothingMore(u, Hear(u, s2, t2[0]), t2[1..]);
  }
}
