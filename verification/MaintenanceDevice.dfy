/** The maintenance firmware: two-phase PREPARE and COMMIT behind physical gates and a pinned signing key. */
module MaintenanceDevice {
  import opened Bits
  import opened CalibrationRecord
  import opened SlotSelection
  import opened NvsStore

  // Opcodes and status codes of the maintenance protocol.

  const QUERY_STATUS: byte := 0x01
  const PREPARE_RECORD: byte := 0x02
  const COMMIT_RECORD: byte := 0x03
  const QUERY_AUTHORIZATION: byte := 0x04
  const QUERY_ACTIVE_RECORD: byte := 0x05
  const STATUS_RESPONSE: byte := 0x81
  const PREPARE_RESPONSE: byte := 0x82
  const COMMIT_RESPONSE: byte := 0x83
  const AUTHORIZATION_RESPONSE: byte := 0x84
  const ACTIVE_RECORD_RESPONSE: byte := 0x85

  const OK: byte := 0
  const BAD_REQUEST: byte := 1
  const PHYSICAL_GATE_OPEN: byte := 2
  const STORE_UNAVAILABLE: byte := 3
  const SESSION_MISMATCH: byte := 4
  const SEQUENCE_MISMATCH: byte := 5
  const RECORD_INVALID: byte := 6
  const PENDING_MISMATCH: byte := 7
  const COMMIT_FAILED: byte := 8
  const INTERNAL_ERROR: byte := 9
  const AUTHORIZATION_FAILED: byte := 10
  const AUTHORIZATION_UNAVAILABLE: byte := 11

  const PREPARE_FIXED: nat := 90
  const MAX_SIGNATURE: nat := 80

  datatype Frame = Frame(opcode: byte, payload: seq<byte>)

  /** Whether each gate input reads its active level at the moment of a request. */
  datatype Gates = Gates(maintenance: bool, loadInhibit: bool)

  /** The pinned key: its fingerprint, and which signatures it accepts for which bytes. */
  datatype Authority = Authority(fingerprint: seq<byte>, verifies: (seq<byte>, seq<byte>) -> bool)

  /** A random word the firmware accepts as a nonce. */
  type Nonce = x: int | 0 < x < 0xFFFF_FFFF witness 1

  /** The globals of the firmware, apart from the store. */
  datatype Ram = Ram(
    storeReady: bool, gateConfigValid: bool, mac: seq<byte>, bootNonce: u32, authority: Option<Authority>,
    pendingValid: bool, pendingFloor: u32, commitNonce: u32, pendingRecord: Record, pendingBlob: seq<byte>)

  function Zeros(n: nat): (b: seq<byte>)
    ensures |b| == n
  {
    if n == 0 then [] else [0] + Zeros(n - 1)
  }

  const ZERO_BLOB: seq<byte> := Zeros(48)

  function ClearPending(m: Ram): Ram
  {
    m.(pendingValid := false, pendingFloor := 0, commitNonce := 0, pendingRecord := EMPTY_RECORD, pendingBlob := ZERO_BLOB)
  }

  predicate GatesAsserted(m: Ram, g: Gates)
  {
    m.gateConfigValid && g.maintenance && g.loadInhibit
  }

  // What a signature covers.

  function Ascii(s: string): (b: seq<byte>)
    ensures |b| == |s|
  {
    seq(|s|, i requires 0 <= i < |s| => s[i] as int % 256)
  }

  const AUTHORIZATION_DOMAIN: string := "ForgeSense-Calibration-Maintenance-Authorization-v1\n"

  function AuthorizationPayload(mac: seq<byte>, floor: u32, root: seq<byte>, blob: seq<byte>): seq<byte>
  {
    Ascii(AUTHORIZATION_DOMAIN) + mac + Le(floor, 4) + root + blob
  }

  /** Equal signed bytes mean equal device, floor, artifact root and record. */
  lemma AuthorizationPayloadInjective(
      mac: seq<byte>, floor: u32, root: seq<byte>, blob: seq<byte>,
      mac': seq<byte>, floor': u32, root': seq<byte>, blob': seq<byte>)
    requires |mac| == |mac'| == 6 && |root| == |root'| == 32
    requires AuthorizationPayload(mac, floor, root, blob) == AuthorizationPayload(mac', floor', root', blob')
    ensures mac == mac' && floor == floor' && root == root' && blob == blob'
  {
    var d := Ascii(AUTHORIZATION_DOMAIN);
    var p, p' := AuthorizationPayload(mac, floor, root, blob), AuthorizationPayload(mac', floor', root', blob');
    var n := |d|;
    assert mac == p[n..n + 6] == p'[n..n + 6] == mac';
    assert Le(floor, 4) == p[n + 6..n + 10] == p'[n + 6..n + 10] == Le(floor', 4);
    assert root == p[n + 10..n + 42] == p'[n + 10..n + 42] == root';
    assert blob == p[n + 42..] == p'[n + 42..] == blob';
    Pow256Values();
    FromLeLe(floor, 4);
    FromLeLe(floor', 4);
  }

  predicate Verified(a: Authority, mac: seq<byte>, floor: u32, root: seq<byte>, blob: seq<byte>, signature: seq<byte>)
  {
    0 < |signature| <= MAX_SIGNATURE && a.verifies(AuthorizationPayload(mac, floor, root, blob), signature)
  }

  // Requests.

  function StatusOnly(opcode: byte, status: byte): Frame
  {
    Frame(opcode, [status])
  }

  function Bit(b: bool): byte
  {
    if b then 1 else 0
  }

  function StatusReply(m: Ram, s: Store, g: Gates): Frame
  {
    var active := if m.storeReady then ActiveOf(s) else None;
    var encoded := if active.Some? then Encode(active.value) else None;
    var crc := if encoded.Some? then Read32(encoded.value, 44) else 0;
    Frame(STATUS_RESPONSE,
      [OK] + m.mac + Le(m.bootNonce, 4)
      + [Bit(m.gateConfigValid && g.maintenance), Bit(m.gateConfigValid && g.loadInhibit),
         Bit(m.storeReady), Bit(m.storeReady && s.hasActive)]
      + Le(if m.storeReady then s.installedFloor else 0, 4) + Le(crc, 4)
      + Le(if m.pendingValid then m.pendingRecord.sequence else 0, 4))
  }

  function AuthorizationReply(m: Ram): Frame
  {
    Frame(AUTHORIZATION_RESPONSE,
      match m.authority
      case Some(a) => [OK, 1] + a.fingerprint
      case None => [OK, 0] + Zeros(32))
  }

  function ActiveRecordReply(m: Ram, s: Store): Frame
  {
    if !m.storeReady then StatusOnly(ACTIVE_RECORD_RESPONSE, STORE_UNAVAILABLE)
    else if !s.hasActive then Frame(ACTIVE_RECORD_RESPONSE, [OK, 0] + ZERO_BLOB)
    else if ActiveOf(s).None? || Encode(s.activeRecord).None? then StatusOnly(ACTIVE_RECORD_RESPONSE, INTERNAL_ERROR)
    else Frame(ACTIVE_RECORD_RESPONSE, [OK, 1] + Blob(s.activeRecord))
  }

  function PrepareFailure(m: Ram, status: byte): (Ram, Frame)
  {
    (ClearPending(m), StatusOnly(PREPARE_RESPONSE, status))
  }

  function HandlePrepare(m: Ram, s: Store, payload: seq<byte>, g: Gates, nonce: Nonce): (Ram, Frame)
  {
    if |payload| <= PREPARE_FIXED || |payload| > PREPARE_FIXED + MAX_SIGNATURE then PrepareFailure(m, BAD_REQUEST)
    else if !GatesAsserted(m, g) then PrepareFailure(m, PHYSICAL_GATE_OPEN)
    else if !m.storeReady then PrepareFailure(m, STORE_UNAVAILABLE)
    else if m.authority.None? then PrepareFailure(m, AUTHORIZATION_UNAVAILABLE)
    else
      var floor := Read32(payload, 4);
      if Read32(payload, 0) != m.bootNonce then PrepareFailure(m, SESSION_MISMATCH)
      else if floor != s.installedFloor then PrepareFailure(m, SEQUENCE_MISMATCH)
      else
        var root, blob, size := payload[8..40], payload[40..88], Read16(payload, 88);
        if size == 0 || size > MAX_SIGNATURE || |payload| != PREPARE_FIXED + size then PrepareFailure(m, BAD_REQUEST)
        else
          var decoded := Decode(blob);
          if decoded.None? || !SequenceIsNewer(decoded.value.sequence, floor) then PrepareFailure(m, RECORD_INVALID)
          else if !Verified(m.authority.value, m.mac, floor, root, blob, payload[90..]) then
            PrepareFailure(m, AUTHORIZATION_FAILED)
          else
            (m.(pendingValid := true, pendingFloor := floor, commitNonce := nonce,
                pendingRecord := decoded.value, pendingBlob := blob),
             Frame(PREPARE_RESPONSE, [OK] + Le(decoded.value.sequence, 4) + blob[44..] + Le(nonce, 4)))
  }

  /** A COMMIT request: the globals and the store afterwards, the flash states on the way, and the reply. */
  datatype CommitRun = CommitRun(ram: Ram, run: Run, reply: Frame)

  function CommitFailure(m: Ram, run: Run, status: byte): CommitRun
  {
    CommitRun(m, run, StatusOnly(COMMIT_RESPONSE, status))
  }

  /** Stages the pending record and compares what is active then with what was prepared. */
  function InstallPending(m: Ram, s: Store, n: Nvs, f: StageFaults): (c: CommitRun)
    requires s.activeSlot <= 1
    ensures c.run == StageAndCommit(s, n, m.pendingRecord, f)
  {
    var run := StageAndCommit(s, n, m.pendingRecord, f);
    if !run.ok || ActiveOf(run.store).None? || Encode(run.store.activeRecord) != Some(m.pendingBlob) then
      CommitFailure(ClearPending(m).(storeReady := false), run, COMMIT_FAILED)
    else
      CommitRun(ClearPending(m), run,
        Frame(COMMIT_RESPONSE, [OK] + Le(run.store.activeRecord.sequence, 4) + m.pendingBlob[44..]))
  }

  function HandleCommit(m: Ram, s: Store, n: Nvs, payload: seq<byte>, g: Gates, f: StageFaults): (c: CommitRun)
    requires s.activeSlot <= 1
    ensures c.run.path != [] && c.run.path[0] == n
  {
    var idle := Run(false, s, [n]);
    if |payload| != 12 then CommitFailure(m, idle, BAD_REQUEST)
    else if !GatesAsserted(m, g) then CommitFailure(ClearPending(m), idle, PHYSICAL_GATE_OPEN)
    else if !m.storeReady then CommitFailure(ClearPending(m), idle, STORE_UNAVAILABLE)
    else if m.authority.None? then CommitFailure(ClearPending(m), idle, AUTHORIZATION_UNAVAILABLE)
    else if Read32(payload, 0) != m.bootNonce then CommitFailure(ClearPending(m), idle, SESSION_MISMATCH)
    else if !m.pendingValid || Read32(payload, 4) != m.commitNonce || Read32(payload, 8) != m.pendingRecord.sequence then
      CommitFailure(m, idle, PENDING_MISMATCH)
    else if s.installedFloor != m.pendingFloor || !SequenceIsNewer(m.pendingRecord.sequence, s.installedFloor) then
      CommitFailure(ClearPending(m), idle, SEQUENCE_MISMATCH)
    else
      InstallPending(m, s, n, f)
  }

  /** One request frame from the link. */
  function HandleFrame(m: Ram, s: Store, n: Nvs, frame: Frame, g: Gates, nonce: Nonce, f: StageFaults): (c: CommitRun)
    requires s.activeSlot <= 1
    ensures c.run.path != [] && c.run.path[0] == n
  {
    var idle := Run(false, s, [n]);
    if frame.opcode == QUERY_STATUS && frame.payload == [] then CommitRun(m, idle, StatusReply(m, s, g))
    else if frame.opcode == PREPARE_RECORD then
      var (m', reply) := HandlePrepare(m, s, frame.payload, g, nonce);
      CommitRun(m', idle, reply)
    else if frame.opcode == COMMIT_RECORD then HandleCommit(m, s, n, frame.payload, g, f)
    else if frame.opcode == QUERY_AUTHORIZATION then
      CommitRun(m, idle, if frame.payload == [] then AuthorizationReply(m) else StatusOnly(AUTHORIZATION_RESPONSE, BAD_REQUEST))
    else if frame.opcode == QUERY_ACTIVE_RECORD then
      CommitRun(m, idle, if frame.payload == [] then ActiveRecordReply(m, s) else StatusOnly(ACTIVE_RECORD_RESPONSE, BAD_REQUEST))
    else CommitRun(m, idle, StatusOnly(STATUS_RESPONSE, BAD_REQUEST))
  }

  /** The readback check after a commit that worked cannot fail: an accepted blob is the only encoding of its record. */
  lemma CommitComparisonHolds(s: Store, n: Nvs, blob: seq<byte>, f: StageFaults)
    requires s.activeSlot <= 1 && Decode(blob).Some?
    requires StageAndCommit(s, n, Decode(blob).value, f).ok
    ensures
      var after := StageAndCommit(s, n, Decode(blob).value, f).store;
      ActiveOf(after) == Decode(blob) && Encode(after.activeRecord) == Some(blob)
  {
    hide Blob, Decode, WriteSlot, WriteMetadata;
    EncodeDecode(blob);
  }

  /** The firmware's globals and request handlers, updated in place. */
  class Maintenance {
    const store: CalibrationNvsStore
    const mac: seq<byte>
    const bootNonce: u32
    const gateConfigValid: bool
    const authority: Option<Authority>
    var storeReady: bool
    var pendingValid: bool
    var pendingFloor: u32
    var commitNonce: u32
    var pendingRecord: Record
    var pendingBlob: seq<byte>

    ghost function Globals(): Ram
      reads this
    {
      Ram(storeReady, gateConfigValid, mac, bootNonce, authority,
          pendingValid, pendingFloor, commitNonce, pendingRecord, pendingBlob)
    }

    constructor (s: CalibrationNvsStore, ready: bool, device: seq<byte>, nonce: Nonce, gates: bool, key: Option<Authority>)
      ensures store == s
      ensures Globals() == Ram(ready, gates, device, nonce, key, false, 0, 0, EMPTY_RECORD, ZERO_BLOB)
    {
      store, mac, bootNonce, gateConfigValid, authority := s, device, nonce, gates, key;
      storeReady := ready;
      pendingValid, pendingFloor, commitNonce, pendingRecord, pendingBlob := false, 0, 0, EMPTY_RECORD, ZERO_BLOB;
    }

    method Clear()
      modifies this
      ensures Globals() == ClearPending(old(Globals()))
    {
      pendingValid, pendingFloor, commitNonce, pendingRecord, pendingBlob := false, 0, 0, EMPTY_RECORD, ZERO_BLOB;
    }

    method Prepare(payload: seq<byte>, g: Gates, nonce: Nonce) returns (reply: Frame)
      modifies this
      ensures (Globals(), reply) == HandlePrepare(old(Globals()), store.State(), payload, g, nonce)
    {
      hide Decode;
      if |payload| <= PREPARE_FIXED || |payload| > PREPARE_FIXED + MAX_SIGNATURE {
        Clear();
        return StatusOnly(PREPARE_RESPONSE, BAD_REQUEST);
      }
      if !(gateConfigValid && g.maintenance && g.loadInhibit) {
        Clear();
        return StatusOnly(PREPARE_RESPONSE, PHYSICAL_GATE_OPEN);
      }
      if !storeReady {
        Clear();
        return StatusOnly(PREPARE_RESPONSE, STORE_UNAVAILABLE);
      }
      if authority.None? {
        Clear();
        return StatusOnly(PREPARE_RESPONSE, AUTHORIZATION_UNAVAILABLE);
      }
      var nonceSent, expectedFloor := Read32(payload, 0), Read32(payload, 4);
      if nonceSent != bootNonce {
        Clear();
        return StatusOnly(PREPARE_RESPONSE, SESSION_MISMATCH);
      }
      if expectedFloor != store.installedFloor {
        Clear();
        return StatusOnly(PREPARE_RESPONSE, SEQUENCE_MISMATCH);
      }
      var root, blob, size := payload[8..40], payload[40..88], Read16(payload, 88);
      if size == 0 || size > MAX_SIGNATURE || |payload| != PREPARE_FIXED + size {
        Clear();
        return StatusOnly(PREPARE_RESPONSE, BAD_REQUEST);
      }
      var decoded := Decode(blob);
      if decoded.None? || !SequenceIsNewer(decoded.value.sequence, expectedFloor) {
        Clear();
        return StatusOnly(PREPARE_RESPONSE, RECORD_INVALID);
      }
      if !Verified(authority.value, mac, expectedFloor, root, blob, payload[90..]) {
        Clear();
        return StatusOnly(PREPARE_RESPONSE, AUTHORIZATION_FAILED);
      }
      pendingRecord := decoded.value;
      pendingBlob := blob;
      pendingFloor := expectedFloor;
      commitNonce := nonce;
      pendingValid := true;
      reply := Frame(PREPARE_RESPONSE, [OK] + Le(decoded.value.sequence, 4) + blob[44..] + Le(commitNonce, 4));
    }

    method Commit(payload: seq<byte>, g: Gates, f: StageFaults) returns (reply: Frame, ghost path: seq<Nvs>)
      requires store.activeSlot <= 1
      modifies this, store
      ensures
        var c := HandleCommit(old(Globals()), old(store.State()), old(store.nvs), payload, g, f);
        && Globals() == c.ram && store.State() == c.run.store && reply == c.reply
        && path == c.run.path && store.nvs == path[|path| - 1]
    {
      hide InstallPending, Read32, Le;
      path := [store.nvs];
      if |payload| != 12 { return StatusOnly(COMMIT_RESPONSE, BAD_REQUEST), path; }
      if !(gateConfigValid && g.maintenance && g.loadInhibit) {
        Clear();
        return StatusOnly(COMMIT_RESPONSE, PHYSICAL_GATE_OPEN), path;
      }
      if !storeReady {
        Clear();
        return StatusOnly(COMMIT_RESPONSE, STORE_UNAVAILABLE), path;
      }
      if authority.None? {
        Clear();
        return StatusOnly(COMMIT_RESPONSE, AUTHORIZATION_UNAVAILABLE), path;
      }
      var nonceSent, nonce, sequence := Read32(payload, 0), Read32(payload, 4), Read32(payload, 8);
      if nonceSent != bootNonce {
        Clear();
        return StatusOnly(COMMIT_RESPONSE, SESSION_MISMATCH), path;
      }
      if !pendingValid || nonce != commitNonce || sequence != pendingRecord.sequence {
        return StatusOnly(COMMIT_RESPONSE, PENDING_MISMATCH), path;
      }
      if store.installedFloor != pendingFloor || !SequenceIsNewer(pendingRecord.sequence, store.installedFloor) {
        Clear();
        return StatusOnly(COMMIT_RESPONSE, SEQUENCE_MISMATCH), path;
      }
      reply, path := Install(f);
    }

    method Install(f: StageFaults) returns (reply: Frame, ghost path: seq<Nvs>)
      requires store.activeSlot <= 1
      modifies this, store
      ensures
        var c := InstallPending(old(Globals()), old(store.State()), old(store.nvs), f);
        && Globals() == c.ram && store.State() == c.run.store && reply == c.reply
        && path == c.run.path && store.nvs == path[|path| - 1]
    {
      hide Decode, StageAndCommit, Blob, Le, Usable;
      var staged;
      staged, path := store.Stage(pendingRecord, f);
      if !staged {
        Clear();
        storeReady := false;
        return StatusOnly(COMMIT_RESPONSE, COMMIT_FAILED), path;
      }
      var active := store.LoadActive();
      if active.None? || Encode(active.value) != Some(pendingBlob) {
        Clear();
        storeReady := false;
        return StatusOnly(COMMIT_RESPONSE, COMMIT_FAILED), path;
      }
      reply := Frame(COMMIT_RESPONSE, [OK] + Le(active.value.sequence, 4) + pendingBlob[44..]);
      Clear();
    }
  }
}
