/** The per-device calibration audit ledger: a hash chain over events, re-checked from genesis on every use. */
module AuditLedger {
  import opened CalibrationRecord

  const LEDGER_SCHEMA: string := "forgesense.calibration_audit_ledger.v1"
  const ENTRY_SCHEMA: string := "forgesense.calibration_audit_entry.v1"
  const EVIDENCE_SCHEMA: string := "forgesense.calibration_physical_provisioning.v1"

  const GENESIS: string := "genesis"
  const WRITE: string := "write_commit"
  const RECOVERY: string := "recovery_commit"
  const REBOOT: string := "reboot_verified"
  const TRANSITION: string := "authority_transition"

  const MAX_LEDGER_SEQUENCE: int := 0xFFFF_FFFE

  /** Entry files are named by eight digits; a ninth makes the name foreign to the directory. */
  const MAX_ENTRIES: nat := 1_0000_0000

  // Digests.

  predicate HexDigit(c: char)
  {
    '0' <= c <= '9' || 'a' <= c <= 'f'
  }

  predicate IsDigest(s: string)
  {
    |s| == 64 && forall i :: 0 <= i < |s| ==> HexDigit(s[i])
  }

  function LowerChar(c: char): char
  {
    if 'A' <= c <= 'Z' then (c as int + 32) as char else c
  }

  function Lower(s: string): (r: string)
    ensures |r| == |s|
  {
    seq(|s|, i requires 0 <= i < |s| => LowerChar(s[i]))
  }

  /** The digest a field states, in lower case; nothing when the field is missing or malformed. */
  function RequireSha(value: Option<string>): (r: Option<string>)
    ensures r.Some? ==> IsDigest(r.value)
  {
    match value
    case None => None
    case Some(s) => if IsDigest(Lower(s)) then Some(Lower(s)) else None
  }

  lemma LowerDigest(s: string)
    requires IsDigest(s)
    ensures Lower(s) == s && RequireSha(Some(s)) == Some(s)
  {
    assert forall i :: 0 <= i < |s| ==> LowerChar(s[i]) == s[i];
    assert Lower(s) == s;
  }

  function ZeroDigest(n: nat): (s: string)
    ensures |s| == n && forall i :: 0 <= i < n ==> s[i] == '0'
  {
    if n == 0 then "" else "0" + ZeroDigest(n - 1)
  }

  const GENESIS_PREVIOUS: string := ZeroDigest(64)

  // Files.

  datatype Section = Section(sequence: int, recordSha: Option<string>, authoritySha: Option<string>)

  datatype EventAuthority = EventAuthority(mayControlActuators: bool, mayRelaxLimits: bool, automaticProvisioning: bool)

  datatype Transition = Transition(dualSignatureVerified: bool, oldAuthority: string, newAuthority: string)

  /** Everything an entry hash covers; `evidence` and `rest` stand for the members that verification does not read. */
  datatype Core = Core(
    schema: string, index: int, eventType: string, deviceId: string, previousSha: string,
    before: Option<Section>, after: Option<Section>, authority: Option<EventAuthority>,
    metadataSha: Option<string>, transition: Option<Transition>, evidence: seq<string>, rest: string)

  datatype Entry = Entry(core: Core, entrySha: Option<string>)

  datatype Metadata = Metadata(schema: string, policyId: string, deviceId: string, authority: string, rest: string)

  datatype Policy = Policy(policyId: string, authority: string)

  /** A ledger directory: the metadata file and the entry files in the order of their numbers. */
  datatype Ledger = Ledger(metadata: Metadata, entries: seq<Entry>)

  /** The hash functions, as arbitrary functions into digests. */
  datatype Hashing = Hashing(entry: Core -> string, metadata: Metadata -> string)

  ghost predicate Digests(h: Hashing)
  {
    (forall c :: IsDigest(h.entry(c))) && (forall m :: IsDigest(h.metadata(m)))
  }

  datatype LedgerState = LedgerState(
    deviceId: string, entryCount: nat, headSha: string, sequence: int, recordSha: Option<string>, authoritySha: string)

  predicate Blank(c: char)
  {
    c == ' ' || c == '\t' || c == '\n' || c == '\r'
  }

  function Strip(s: string): string
    decreases |s|
  {
    if s == "" then s
    else if Blank(s[0]) then Strip(s[1..])
    else if Blank(s[|s| - 1]) then Strip(s[..|s| - 1])
    else s
  }

  // Verification.

  /** The running state of the verification loop. */
  datatype Chain = Chain(previousHash: string, sequence: int, recordSha: Option<string>, authoritySha: string)

  const START := Chain(GENESIS_PREVIOUS, 0, None, "")

  datatype Calibration = Calibration(sequence: int, recordSha: Option<string>, authoritySha: string)

  function StateFields(section: Option<Section>): (r: Option<Calibration>)
    ensures r.Some? ==> 0 <= r.value.sequence <= MAX_LEDGER_SEQUENCE && IsDigest(r.value.authoritySha)
    ensures r.Some? && r.value.recordSha.Some? ==> IsDigest(r.value.recordSha.value)
  {
    match section
    case None => None
    case Some(s) =>
      if s.sequence < 0 || s.sequence > MAX_LEDGER_SEQUENCE then None
      else
        var record := RequireSha(s.recordSha);
        var authority := RequireSha(s.authoritySha);
        if (s.recordSha.Some? && record.None?) || authority.None? then None
        else Some(Calibration(s.sequence, record, authority.value))
  }

  predicate EventAllowed(c: Core, before: Calibration, after: Calibration)
  {
    if c.eventType == WRITE then
      after.authoritySha == before.authoritySha && after.sequence > before.sequence && after.recordSha.Some?
    else if c.eventType == RECOVERY then
      after.authoritySha == before.authoritySha && after.sequence == before.sequence + 1 && after.recordSha.Some?
    else if c.eventType == REBOOT then
      after == before
    else if c.eventType == TRANSITION then
      && after.sequence == before.sequence && after.recordSha == before.recordSha
      && after.authoritySha != before.authoritySha
      && c.transition.Some? && c.transition.value.dualSignatureVerified
      && c.transition.value.oldAuthority == before.authoritySha
      && c.transition.value.newAuthority == after.authoritySha
    else false
  }

  function CheckEntry(h: Hashing, md: Metadata, st: Chain, index: nat, e: Entry): Option<Chain>
  {
    var c := e.core;
    var claimed := RequireSha(e.entrySha);
    var before, after := StateFields(c.before), StateFields(c.after);
    if c.schema != ENTRY_SCHEMA || c.index != index || c.deviceId != Strip(md.deviceId)
       || c.previousSha != st.previousHash || claimed != Some(h.entry(c))
       || before.None? || after.None?
       || c.authority != Some(EventAuthority(false, false, false)) then None
    else
      var b, a := before.value, after.value;
      var next := Chain(claimed.value, a.sequence, a.recordSha, a.authoritySha);
      if index == 0 then
        if c.eventType != GENESIS || b.sequence != 0 || a.sequence != 0 || b.recordSha.Some? || a.recordSha.Some?
           || b.authoritySha != a.authoritySha || RequireSha(c.metadataSha) != Some(h.metadata(md)) then None
        else Some(next)
      else if b != Calibration(st.sequence, st.recordSha, st.authoritySha) || !EventAllowed(c, b, a) then None
      else Some(next)
  }

  function CheckEntries(h: Hashing, md: Metadata, entries: seq<Entry>): Option<Chain>
  {
    if entries == [] then Some(START)
    else
      var st := CheckEntries(h, md, entries[..|entries| - 1]);
      if st.None? then None else CheckEntry(h, md, st.value, |entries| - 1, entries[|entries| - 1])
  }

  predicate MetadataAccepted(policy: Policy, md: Metadata, expectedDevice: Option<string>)
  {
    && md.schema == LEDGER_SCHEMA && md.policyId == policy.policyId
    && Strip(md.deviceId) != "" && (expectedDevice.Some? ==> expectedDevice.value == Strip(md.deviceId))
    && md.authority == policy.authority
  }

  function Verify(h: Hashing, policy: Policy, l: Ledger, expectedDevice: Option<string>): Option<LedgerState>
  {
    if !MetadataAccepted(policy, l.metadata, expectedDevice) || l.entries == [] || |l.entries| > MAX_ENTRIES then None
    else
      match CheckEntries(h, l.metadata, l.entries)
      case None => None
      case Some(st) =>
        Some(LedgerState(Strip(l.metadata.deviceId), |l.entries|, st.previousHash, st.sequence, st.recordSha, st.authoritySha))
  }

  /** The verification loop as the host runs it. */
  method VerifyLedger(h: Hashing, policy: Policy, l: Ledger, expectedDevice: Option<string>)
    returns (r: Option<LedgerState>)
    ensures r == Verify(h, policy, l, expectedDevice)
  {
    hide CheckEntry, MetadataAccepted;
    if !MetadataAccepted(policy, l.metadata, expectedDevice) { return None; }
    if l.entries == [] || |l.entries| > MAX_ENTRIES { return None; }
    var previousHash, sequence, recordSha, authoritySha := GENESIS_PREVIOUS, 0, None, "";
    var entries := l.entries;
    for i := 0 to |entries|
      invariant CheckEntries(h, l.metadata, entries[..i]) == Some(Chain(previousHash, sequence, recordSha, authoritySha))
    {
      assert entries[..i + 1][..i] == entries[..i];
      var next := CheckEntry(h, l.metadata, Chain(previousHash, sequence, recordSha, authoritySha), i, entries[i]);
      if next.None? {
        RejectedStays(h, l.metadata, entries, i + 1);
        return None;
      }
      previousHash, sequence, recordSha, authoritySha :=
        next.value.previousHash, next.value.sequence, next.value.recordSha, next.value.authoritySha;
    }
    assert entries[..|entries|] == entries;
    r := Some(LedgerState(Strip(l.metadata.deviceId), |entries|, previousHash, sequence, recordSha, authoritySha));
  }

  /** Once an entry is refused, nothing appended after it helps. */
  lemma {:induction false} RejectedStays(h: Hashing, md: Metadata, entries: seq<Entry>, n: nat)
    requires n <= |entries| && CheckEntries(h, md, entries[..n]) == None
    ensures CheckEntries(h, md, entries) == None
  {
    hide CheckEntry;
    if n == |entries| {
      assert entries[..n] == entries;
    } else {
      assert entries[..|entries| - 1][..n] == entries[..n];
      RejectedStays(h, md, entries[..|entries| - 1], n);
    }
  }

  /** Every prefix of a checked chain is checked. */
  lemma PrefixChecked(h: Hashing, md: Metadata, entries: seq<Entry>, n: nat)
    requires n <= |entries| && CheckEntries(h, md, entries).Some?
    ensures CheckEntries(h, md, entries[..n]).Some?
  {
    hide CheckEntry;
    if CheckEntries(h, md, entries[..n]) == None { RejectedStays(h, md, entries, n); }
  }

  // Live preflight.

  function Preflight(h: Hashing, policy: Policy, l: Ledger, deviceId: string, sequence: int, recordSha: Option<string>,
                     authoritySha: Option<string>): Option<LedgerState>
  {
    match Verify(h, policy, l, Some(deviceId))
    case None => None
    case Some(st) =>
      if sequence != st.sequence then None
      else if recordSha.Some? && RequireSha(recordSha).None? then None
      else if RequireSha(recordSha) != st.recordSha then None
      else if RequireSha(authoritySha) != Some(st.authoritySha) then None
      else Some(st)
  }

  // Initialization and the three appends.

  const NO_AUTHORITY := Some(EventAuthority(false, false, false))

  datatype DeviceState = DeviceState(
    deviceId: string, installedSequence: int, recordCrc: Option<int>, recordSha: Option<string>, recordHex: Option<string>,
    authorizationReady: bool, authoritySha: Option<string>)

  /** The directory after an operation, and the state it returned, if it returned one. */
  datatype Appended = Appended(ledger: Ledger, result: Option<LedgerState>)

  function Initialize(h: Hashing, policy: Policy, d: DeviceState, metadataRest: string, evidence: seq<string>, rest: string)
    : Option<Ledger>
  {
    var id := Strip(d.deviceId);
    var authority := RequireSha(d.authoritySha);
    if id == "" || d.installedSequence != 0
       || d.recordCrc.Some? || d.recordSha.Some? || d.recordHex.Some?
       || !d.authorizationReady || authority.None? then None
    else
      var md := Metadata(LEDGER_SCHEMA, policy.policyId, id, policy.authority, metadataRest);
      var empty := Some(Section(0, None, authority));
      var core := Core(ENTRY_SCHEMA, 0, GENESIS, id, GENESIS_PREVIOUS, empty, empty, NO_AUTHORITY,
                       Some(h.metadata(md)), None, evidence, rest);
      Some(Ledger(md, [Entry(core, Some(h.entry(core)))]))
  }

  /** Writes the entry file, then verifies the whole ledger again. */
  function AppendEntry(h: Hashing, policy: Policy, l: Ledger, core: Core): Appended
  {
    match Verify(h, policy, l, Some(core.deviceId))
    case None => Appended(l, None)
    case Some(st) =>
      if core.index != st.entryCount || core.previousSha != st.headSha then Appended(l, None)
      else
        var l' := l.(entries := l.entries + [Entry(core, Some(h.entry(core)))]);
        Appended(l', Verify(h, policy, l', Some(st.deviceId)))
  }

  function EventCore(st: LedgerState, deviceId: string, eventType: string, after: Calibration, transition: Option<Transition>,
                     evidence: seq<string>, rest: string): Core
  {
    Core(ENTRY_SCHEMA, st.entryCount, eventType, deviceId, st.headSha,
         Some(Section(st.sequence, st.recordSha, Some(st.authoritySha))),
         Some(Section(after.sequence, after.recordSha, Some(after.authoritySha))),
         NO_AUTHORITY, None, transition, evidence, rest)
  }

  datatype HostBinding = HostBinding(required: bool, preflightVerified: bool, head: string, entryCount: int)

  datatype ExactRecord = ExactRecord(present: bool, sha: Option<string>, sequence: int, crc: int)

  datatype RebootSection = RebootSection(nonceChanged: bool, recordSha: Option<string>, exact: Option<ExactRecord>)

  /** A physical evidence report, as far as the ledger reads it. */
  datatype Report = Report(
    schema: string, commitVerified: bool, rebootVerified: bool, deviceId: string, host: Option<HostBinding>,
    preSequence: int, postSequence: int, exact: Option<ExactRecord>,
    candidateSequence: int, candidateCrc: int, recordSha: Option<string>, signerSha: Option<string>,
    artifactRoot: Option<string>, payloadSha: Option<string>, signatureSha: Option<string>,
    recovery: bool, reboot: Option<RebootSection>, fileSha: string, rest: string)

  predicate PreflightBound(r: Report, st: LedgerState)
  {
    r.host == Some(HostBinding(true, true, st.headSha, st.entryCount))
  }

  predicate ExactMatches(x: Option<ExactRecord>, sha: string, sequence: int, crc: int)
  {
    x == Some(ExactRecord(true, Some(sha), sequence, crc))
  }

  /** Every check of the write append, in the state the ledger verified to. */
  predicate WriteAdmissible(r: Report, st: LedgerState)
  {
    && r.schema == EVIDENCE_SCHEMA && r.commitVerified
    && PreflightBound(r, st)
    && RequireSha(r.recordSha).Some?
    && r.preSequence == st.sequence && r.postSequence == r.candidateSequence
    && ExactMatches(r.exact, RequireSha(r.recordSha).value, r.candidateSequence, r.candidateCrc)
    && RequireSha(r.signerSha) == Some(st.authoritySha)
    && (r.recovery ==> r.candidateSequence == r.preSequence + 1)
    && r.candidateSequence > r.preSequence
    && RequireSha(r.artifactRoot).Some? && RequireSha(r.payloadSha).Some? && RequireSha(r.signatureSha).Some?
  }

  function AppendWrite(h: Hashing, policy: Policy, l: Ledger, r: Report): Appended
  {
    match Verify(h, policy, l, Some(r.deviceId))
    case None => Appended(l, None)
    case Some(st) =>
      if !WriteAdmissible(r, st) then Appended(l, None)
      else
        var sha := RequireSha(r.recordSha);
        AppendEntry(h, policy, l,
          EventCore(st, r.deviceId, if r.recovery then RECOVERY else WRITE,
            Calibration(r.candidateSequence, sha, st.authoritySha), None,
            [r.fileSha, RequireSha(r.artifactRoot).value, RequireSha(r.payloadSha).value,
             RequireSha(r.signatureSha).value, sha.value], r.rest))
  }

  predicate RebootAdmissible(r: Report, st: LedgerState)
  {
    && r.schema == EVIDENCE_SCHEMA && r.commitVerified && r.rebootVerified
    && PreflightBound(r, st)
    && RequireSha(r.recordSha).Some?
    && r.candidateSequence == st.sequence && RequireSha(r.recordSha) == st.recordSha
    && RequireSha(r.signerSha) == Some(st.authoritySha)
    && r.reboot.Some? && r.reboot.value.nonceChanged
    && RequireSha(r.reboot.value.recordSha) == RequireSha(r.recordSha)
    && ExactMatches(r.reboot.value.exact, RequireSha(r.recordSha).value, r.candidateSequence, r.candidateCrc)
  }

  function AppendReboot(h: Hashing, policy: Policy, l: Ledger, r: Report): Appended
  {
    match Verify(h, policy, l, Some(r.deviceId))
    case None => Appended(l, None)
    case Some(st) =>
      if !RebootAdmissible(r, st) then Appended(l, None)
      else
        AppendEntry(h, policy, l,
          EventCore(st, r.deviceId, REBOOT, Calibration(st.sequence, st.recordSha, st.authoritySha), None,
            [r.fileSha, RequireSha(r.recordSha).value], r.rest))
  }

  /** A transition package whose two signatures were verified, for a ledger position and a pair of keys. */
  datatype TransitionPackage = TransitionPackage(
    deviceId: string, head: string, entryCount: int, sequence: int, recordSha: Option<string>,
    oldKey: string, newKey: string, digests: seq<string>, rest: string)

  predicate TransitionAdmissible(p: TransitionPackage, post: DeviceState, st: LedgerState)
  {
    && p.deviceId == st.deviceId && p.head == st.headSha && p.entryCount == st.entryCount
    && p.sequence == st.sequence && p.recordSha == st.recordSha
    && p.oldKey == st.authoritySha && p.newKey != st.authoritySha
    && post.deviceId == st.deviceId && post.installedSequence == st.sequence
    && (post.recordSha.Some? ==> RequireSha(post.recordSha).Some?) && RequireSha(post.recordSha) == st.recordSha
    && post.authorizationReady && RequireSha(post.authoritySha) == Some(p.newKey)
  }

  function AppendTransition(h: Hashing, policy: Policy, l: Ledger, p: TransitionPackage, post: DeviceState): Appended
  {
    match Verify(h, policy, l, None)
    case None => Appended(l, None)
    case Some(st) =>
      if !TransitionAdmissible(p, post, st) then Appended(l, None)
      else
        AppendEntry(h, policy, l,
          EventCore(st, st.deviceId, TRANSITION, Calibration(st.sequence, st.recordSha, p.newKey),
            Some(Transition(true, p.oldKey, p.newKey)), p.digests, p.rest))
  }
}
