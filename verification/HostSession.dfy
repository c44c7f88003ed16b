/** The host's side of one provisioning or reboot-verification run: request by request, check by check. */
module HostSession {
  import opened Bits
  import opened CalibrationRecord
  import opened MaintenanceDevice
  import opened AuditLedger

  // Reading replies.

  function HexChar(n: nat): (c: char)
    requires n < 16
    ensures HexDigit(c)
  {
    "0123456789abcdef"[n]
  }

  function Hex(b: seq<byte>): (s: string)
    ensures |s| == 2 * |b| && forall i :: 0 <= i < |s| ==> HexDigit(s[i])
  {
    if b == [] then "" else [HexChar(b[0] / 16), HexChar(b[0] % 16)] + Hex(b[1..])
  }

  const DEVICE_PREFIX: string := "esp32s3:"

  datatype DeviceStatus = DeviceStatus(
    deviceId: string, bootNonce: u32, maintenance: bool, loadInhibit: bool, storeReady: bool, hasActive: bool,
    installed: u32, crc: u32, pending: u32)

  function ReadStatus(reply: Frame): Option<DeviceStatus>
  {
    var p := reply.payload;
    if reply.opcode != STATUS_RESPONSE || p == [] || p[0] != OK || |p| != 27 then None
    else Some(DeviceStatus(DEVICE_PREFIX + Hex(p[1..7]), Read32(p, 7), p[11] == 1, p[12] == 1, p[13] == 1, p[14] == 1,
                           Read32(p, 15), Read32(p, 19), Read32(p, 23)))
  }

  datatype AuthorizationStatus = AuthorizationStatus(ready: bool, fingerprint: string)

  function ReadAuthorization(reply: Frame): Option<AuthorizationStatus>
  {
    var p := reply.payload;
    if reply.opcode != AUTHORIZATION_RESPONSE || p == [] || p[0] != OK || |p| != 34 then None
    else Some(AuthorizationStatus(p[1] == 1, Hex(p[2..34])))
  }

  datatype ActiveRecord = ActiveRecord(present: bool, blob: seq<byte>, sequence: u32, crc: u32, sha: Option<string>)

  function ReadActive(reply: Frame, sha: seq<byte> -> string): Option<ActiveRecord>
  {
    var p := reply.payload;
    if reply.opcode != ACTIVE_RECORD_RESPONSE || p == [] || p[0] != OK || |p| != 50 then None
    else if p[1] != 1 then
      if p[2..] == Zeros(48) then Some(ActiveRecord(false, [], 0, 0, None)) else None
    else
      var blob := p[2..50];
      Some(ActiveRecord(true, blob, Read32(blob, 8), Read32(blob, 44), Some(sha(blob))))
  }

  // What the host brings along.

  /** The record a recovery package was built against. */
  datatype Intent = Intent(sha: string, sequence: int, crc: int)

  /** A verified provisioning bundle with its verified authorization. */
  datatype Package = Package(
    deviceId: string, installed: int, candidate: int, crc: int, blob: seq<byte>,
    root: seq<byte>, signature: seq<byte>, signer: string, intent: Option<Intent>,
    artifactRoot: string, payloadSha: string, signatureSha: string, rest: string)

  predicate Loadable(p: Package)
  {
    |p.blob| == BLOB_SIZE && Read32(p.blob, 44) == p.crc && |p.root| == 32 && 0 < |p.signature| <= MAX_SIGNATURE
  }

  datatype Task = Apply(package: Package) | VerifyReboot(prior: Report, priorNonce: int, device: string)

  /** Where a run stands: what it has seen so far, and hence what it sends next. */
  datatype Phase =
    | PreflightStatus
    | PreflightAuthorization(seen: DeviceStatus)
    | PreflightActive(seen: DeviceStatus, key: AuthorizationStatus)
    | IntentActive
    | PreStatus
    | PreAuthorization(pre: DeviceStatus)
    | Prepare(pre: DeviceStatus)
    | Commit(pre: DeviceStatus, nonce: u32, sequence: u32)
    | PostStatus(pre: DeviceStatus)
    | PostAuthorization(pre: DeviceStatus, post: DeviceStatus)
    | PostActive(pre: DeviceStatus, post: DeviceStatus)
    | RebootStatus
    | RebootActive
    | Finished(report: Report)
    | Failed

  datatype Session = Session(task: Task, ledgerSeen: LedgerState, before: Option<ActiveRecord>, phase: Phase)

  function PrepareRequest(bootNonce: u32, floor: u32, root: seq<byte>, blob: seq<byte>, signature: seq<byte>): Frame
  {
    Frame(PREPARE_RECORD, Le(bootNonce, 4) + Le(floor, 4) + root + blob + Le(|signature|, 2) + signature)
  }

  function CommitRequest(bootNonce: u32, nonce: u32, sequence: u32): Frame
  {
    Frame(COMMIT_RECORD, Le(bootNonce, 4) + Le(nonce, 4) + Le(sequence, 4))
  }

  function Request(s: Session): Option<Frame>
  {
    match s.phase
    case PreflightStatus => Some(Frame(QUERY_STATUS, []))
    case PreflightAuthorization(_) => Some(Frame(QUERY_AUTHORIZATION, []))
    case PreflightActive(_, _) => Some(Frame(QUERY_ACTIVE_RECORD, []))
    case IntentActive => Some(Frame(QUERY_ACTIVE_RECORD, []))
    case PreStatus => Some(Frame(QUERY_STATUS, []))
    case PreAuthorization(_) => Some(Frame(QUERY_AUTHORIZATION, []))
    case Prepare(pre) =>
      if s.task.VerifyReboot? then None
      else
        var p := s.task.package;
        Some(PrepareRequest(pre.bootNonce, pre.installed, p.root, p.blob, p.signature))
    case Commit(pre, nonce, sequence) =>
      Some(CommitRequest(pre.bootNonce, nonce, sequence))
    case PostStatus(_) => Some(Frame(QUERY_STATUS, []))
    case PostAuthorization(_, _) => Some(Frame(QUERY_AUTHORIZATION, []))
    case PostActive(_, _) => Some(Frame(QUERY_ACTIVE_RECORD, []))
    case RebootStatus => Some(Frame(QUERY_STATUS, []))
    case RebootActive => Some(Frame(QUERY_ACTIVE_RECORD, []))
    case Finished(_) => None
    case Failed => None
  }

  function TaskDevice(t: Task): string
  {
    if t.Apply? then t.package.deviceId else t.device
  }

  function Fail(s: Session): Session
  {
    s.(phase := Failed)
  }

  /** The live preflight against the ledger as it is now, which must be the ledger the run started from. */
  function FinishPreflight(h: Hashing, policy: Policy, l: Ledger, sha: seq<byte> -> string, s: Session,
                           status: DeviceStatus, key: AuthorizationStatus, active: ActiveRecord): Session
  {
    if status.deviceId != TaskDevice(s.task) || status.hasActive != active.present
       || (active.present && (active.sequence != status.installed || active.crc != status.crc))
       || Preflight(h, policy, l, status.deviceId, status.installed, active.sha, Some(key.fingerprint)) != Some(s.ledgerSeen)
    then Fail(s)
    else if s.task.VerifyReboot? then s.(phase := RebootStatus)
    else s.(phase := if s.task.package.intent.Some? then IntentActive else PreStatus)
  }

  predicate IntentHolds(p: Package, i: Intent, active: ActiveRecord)
  {
    && active.present && active.sha == Some(i.sha) && active.sequence == i.sequence && active.crc == i.crc
    && p.installed == active.sequence && p.candidate == p.installed + 1
  }

  predicate WritableNow(p: Package, pre: DeviceStatus, key: AuthorizationStatus)
  {
    && pre.deviceId == p.deviceId && key.ready && key.fingerprint == p.signer
    && pre.storeReady && pre.maintenance && pre.loadInhibit
    && pre.installed == p.installed && p.candidate > pre.installed && pre.pending == 0
  }

  predicate PreparedAsAsked(p: Package, reply: Frame)
  {
    var r := reply.payload;
    && reply.opcode == PREPARE_RESPONSE && |r| == 13 && r[0] == OK
    && Read32(r, 1) == p.candidate && Read32(r, 5) == p.crc && Read32(r, 9) != 0 && Read32(r, 9) != 0xFFFF_FFFF
  }

  predicate CommittedAsAsked(p: Package, reply: Frame)
  {
    var r := reply.payload;
    reply.opcode == COMMIT_RESPONSE && |r| == 9 && r[0] == OK && Read32(r, 1) == p.candidate && Read32(r, 5) == p.crc
  }

  predicate WrittenNow(p: Package, pre: DeviceStatus, post: DeviceStatus, key: AuthorizationStatus)
  {
    && post.deviceId == pre.deviceId && post.bootNonce == pre.bootNonce
    && key.ready && key.fingerprint == p.signer
    && post.storeReady && post.hasActive && post.installed == p.candidate && post.crc == p.crc && post.pending == 0
  }

  function Binding(s: Session): Option<HostBinding>
  {
    Some(HostBinding(true, true, s.ledgerSeen.headSha, s.ledgerSeen.entryCount))
  }

  function WriteReport(s: Session, sha: seq<byte> -> string, pre: DeviceStatus, post: DeviceStatus, active: ActiveRecord): Report
    requires s.task.Apply?
  {
    var p := s.task.package;
    Report(EVIDENCE_SCHEMA, true, false, pre.deviceId, Binding(s), pre.installed, post.installed,
           Some(ExactRecord(active.present, active.sha, active.sequence, active.crc)),
           p.candidate, p.crc, Some(sha(p.blob)), Some(p.signer),
           Some(p.artifactRoot), Some(p.payloadSha), Some(p.signatureSha),
           p.intent.Some?, None, p.rest, p.rest)
  }

  predicate ReadsBack(p: Package, sha: seq<byte> -> string, s: Session, active: ActiveRecord)
  {
    && active.present && active.sha == Some(sha(p.blob)) && active.sequence == p.candidate && active.crc == p.crc
    && (p.intent.Some? ==> s.before.Some? && active.sequence == s.before.value.sequence + 1)
  }

  predicate Recovered(r: Report, priorNonce: int, status: DeviceStatus)
  {
    && r.schema == EVIDENCE_SCHEMA && r.commitVerified
    && status.deviceId == r.deviceId && status.bootNonce != priorNonce
    && status.storeReady && status.hasActive
    && status.installed == r.candidateSequence && status.crc == r.candidateCrc && status.pending == 0
  }

  function RebootReport(s: Session, active: ActiveRecord): Report
    requires s.task.VerifyReboot?
  {
    s.task.prior.(rebootVerified := true, host := Binding(s),
      reboot := Some(RebootSection(true, active.sha,
        Some(ExactRecord(active.present, active.sha, active.sequence, active.crc)))))
  }

  /** What the host makes of the reply to its last request. */
  function Receive(h: Hashing, policy: Policy, l: Ledger, sha: seq<byte> -> string, s: Session, reply: Frame): Session
  {
    match s.phase
    case PreflightStatus =>
      (match ReadStatus(reply) case None => Fail(s) case Some(st) => s.(phase := PreflightAuthorization(st)))
    case PreflightAuthorization(st) =>
      (match ReadAuthorization(reply) case None => Fail(s) case Some(key) => s.(phase := PreflightActive(st, key)))
    case PreflightActive(st, key) =>
      (match ReadActive(reply, sha) case None => Fail(s) case Some(a) => FinishPreflight(h, policy, l, sha, s, st, key, a))
    case RebootStatus =>
      if s.task.Apply? then Fail(s)
      else
        (match ReadStatus(reply)
         case None => Fail(s)
         case Some(st) => if Recovered(s.task.prior, s.task.priorNonce, st) then s.(phase := RebootActive) else Fail(s))
    case RebootActive =>
      if s.task.Apply? then Fail(s)
      else
        (match ReadActive(reply, sha)
         case None => Fail(s)
         case Some(a) =>
           var r := s.task.prior;
           if a.present && a.sha == r.recordSha && a.sequence == r.candidateSequence && a.crc == r.candidateCrc then
             s.(phase := Finished(RebootReport(s, a)))
           else Fail(s))
    case _ => if s.task.VerifyReboot? || !Loadable(s.task.package) then Fail(s) else ReceiveApply(sha, s, s.task.package, reply)
  }

  function ReceiveApply(sha: seq<byte> -> string, s: Session, p: Package, reply: Frame): Session
    requires s.task == Apply(p)
  {
    match s.phase
    case IntentActive =>
      (match ReadActive(reply, sha)
       case None => Fail(s)
       case Some(a) =>
         if p.intent.Some? && IntentHolds(p, p.intent.value, a) then s.(before := Some(a), phase := PreStatus) else Fail(s))
    case PreStatus =>
      (match ReadStatus(reply) case None => Fail(s) case Some(st) => s.(phase := PreAuthorization(st)))
    case PreAuthorization(pre) =>
      (match ReadAuthorization(reply)
       case None => Fail(s)
       case Some(key) => if WritableNow(p, pre, key) then s.(phase := Prepare(pre)) else Fail(s))
    case Prepare(pre) =>
      if PreparedAsAsked(p, reply) then s.(phase := Commit(pre, Read32(reply.payload, 9), Read32(reply.payload, 1))) else Fail(s)
    case Commit(pre, _, _) => if CommittedAsAsked(p, reply) then s.(phase := PostStatus(pre)) else Fail(s)
    case PostStatus(pre) =>
      (match ReadStatus(reply) case None => Fail(s) case Some(st) => s.(phase := PostAuthorization(pre, st)))
    case PostAuthorization(pre, post) =>
      (match ReadAuthorization(reply)
       case None => Fail(s)
       case Some(key) => if WrittenNow(p, pre, post, key) then s.(phase := PostActive(pre, post)) else Fail(s))
    case PostActive(pre, post) =>
      (match ReadActive(reply, sha)
       case None => Fail(s)
       case Some(a) => if ReadsBack(p, sha, s, a) then s.(phase := Finished(WriteReport(s, sha, pre, post, a))) else Fail(s))
    case _ => Fail(s)
  }
}
