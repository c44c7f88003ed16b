/** What the audit ledger guarantees: sound appends, one-way history, tamper evidence. */
module LedgerProofs {
  import opened CalibrationRecord
  import opened AuditLedger

  /** The state after the first n entries of a chain that verifies. */
  function After(h: Hashing, l: Ledger, n: nat): Chain
    requires n <= |l.entries| && CheckEntries(h, l.metadata, l.entries).Some?
  {
    PrefixChecked(h, l.metadata, l.entries, n);
    CheckEntries(h, l.metadata, l.entries[..n]).value
  }

  function CalibrationOf(c: Chain): Calibration
  {
    Calibration(c.sequence, c.recordSha, c.authoritySha)
  }

  /** Entry n of a verifying chain passed its own check against the state before it. */
  lemma EntryChecked(h: Hashing, l: Ledger, n: nat)
    requires n < |l.entries| && CheckEntries(h, l.metadata, l.entries).Some?
    ensures CheckEntry(h, l.metadata, After(h, l, n), n, l.entries[n]) == Some(After(h, l, n + 1))
  {
    hide CheckEntry;
    PrefixChecked(h, l.metadata, l.entries, n + 1);
    assert l.entries[..n + 1][..n] == l.entries[..n];
  }

  // Appending.

  /** An entry core that continues a verified ledger by one allowed event. */
  predicate Continues(st: LedgerState, c: Core, after: Calibration)
  {
    && c.schema == ENTRY_SCHEMA && c.index == st.entryCount && c.deviceId == st.deviceId && c.previousSha == st.headSha
    && c.before == Some(Section(st.sequence, st.recordSha, Some(st.authoritySha)))
    && c.after == Some(Section(after.sequence, after.recordSha, Some(after.authoritySha)))
    && c.authority == NO_AUTHORITY
    && EventAllowed(c, Calibration(st.sequence, st.recordSha, st.authoritySha), after)
    && IsDigest(after.authoritySha) && (after.recordSha.Some? ==> IsDigest(after.recordSha.value))
    && 0 <= after.sequence
  }

  /** What the chain carries is always in the form that verification reads back unchanged. */
  ghost predicate Normal(c: Chain)
  {
    && 0 <= c.sequence <= MAX_LEDGER_SEQUENCE && IsDigest(c.authoritySha)
    && (c.recordSha.Some? ==> IsDigest(c.recordSha.value))
    && IsDigest(c.previousHash)
  }

  lemma ChainNormal(h: Hashing, md: Metadata, entries: seq<Entry>)
    requires entries != [] && CheckEntries(h, md, entries).Some?
    ensures Normal(CheckEntries(h, md, entries).value)
  {
    hide EventAllowed, Strip;
  }

  lemma FieldsOf(sequence: int, recordSha: Option<string>, authoritySha: string)
    requires IsDigest(authoritySha) && (recordSha.Some? ==> IsDigest(recordSha.value)) && sequence >= 0
    ensures StateFields(Some(Section(sequence, recordSha, Some(authoritySha)))) ==
      if sequence <= MAX_LEDGER_SEQUENCE then Some(Calibration(sequence, recordSha, authoritySha)) else None
  {
    hide Lower, IsDigest;
    LowerDigest(authoritySha);
    if recordSha.Some? { LowerDigest(recordSha.value); }
  }

  /** The one state a successful append leads to. */
  function Next(h: Hashing, st: LedgerState, c: Core, after: Calibration): LedgerState
  {
    LedgerState(st.deviceId, st.entryCount + 1, h.entry(c), after.sequence, after.recordSha, after.authoritySha)
  }

  predicate HasRoom(st: LedgerState)
  {
    st.entryCount < MAX_ENTRIES
  }

  /**
   * The outcome of an append that wrote its file: one entry more, and the ledger verifies, to exactly the claimed state,
   * if and only if the claimed sequence is in the ledger's range and the directory has room for the file's name. Since
   * the file is written before it is checked, the ledger otherwise no longer verifies at all.
   */
  ghost predicate Appends(h: Hashing, policy: Policy, l: Ledger, st: LedgerState, after: Calibration, a: Appended)
  {
    && |a.ledger.entries| == |l.entries| + 1 && a.ledger.entries[..|l.entries|] == l.entries
    && a.ledger.metadata == l.metadata
    && a.result == Verify(h, policy, a.ledger, Some(st.deviceId))
    && (a.result.Some? <==> after.sequence <= MAX_LEDGER_SEQUENCE && HasRoom(st))
    && (a.result.Some? ==> a.result.value == Next(h, st, a.ledger.entries[|l.entries|].core, after))
  }

  lemma AppendContinues(h: Hashing, policy: Policy, l: Ledger, st: LedgerState, c: Core, after: Calibration)
    requires Digests(h)
    requires Verify(h, policy, l, Some(c.deviceId)) == Some(st) && Continues(st, c, after)
    ensures Appends(h, policy, l, st, after, AppendEntry(h, policy, l, c))
  {
    hide EventAllowed, Strip, IsDigest, Lower;
    var n := |l.entries|;
    ChainNormal(h, l.metadata, l.entries);
    FieldsOf(st.sequence, st.recordSha, st.authoritySha);
    FieldsOf(after.sequence, after.recordSha, after.authoritySha);
    LowerDigest(h.entry(c));
    var e := Entry(c, Some(h.entry(c)));
    var l' := l.(entries := l.entries + [e]);
    assert l'.entries[..n] == l.entries;
    var chain := CheckEntries(h, l.metadata, l.entries).value;
    assert CheckEntries(h, l.metadata, l'.entries) == CheckEntry(h, l.metadata, chain, n, e);
  }

  function ClaimedCalibration(st: LedgerState, r: Report): Calibration
  {
    Calibration(r.candidateSequence, RequireSha(r.recordSha), st.authoritySha)
  }

  lemma StateIsNormal(h: Hashing, policy: Policy, l: Ledger, device: Option<string>)
    requires Verify(h, policy, l, device).Some?
    ensures
      var st := Verify(h, policy, l, device).value;
      && st.entryCount == |l.entries| > 0 && st.deviceId == Strip(l.metadata.deviceId)
      && Verify(h, policy, l, Some(st.deviceId)) == Some(st)
      && 0 <= st.sequence <= MAX_LEDGER_SEQUENCE && IsDigest(st.authoritySha) && IsDigest(st.headSha)
      && (st.recordSha.Some? ==> IsDigest(st.recordSha.value))
  {
    hide CheckEntry, CheckEntries, Strip, IsDigest;
    ChainNormal(h, l.metadata, l.entries);
  }

  /** A write append refuses and changes nothing, or appends exactly the claimed record and sequence. */
  lemma AppendWriteSound(h: Hashing, policy: Policy, l: Ledger, r: Report, st: LedgerState)
    requires Digests(h) && Verify(h, policy, l, Some(r.deviceId)) == Some(st)
    ensures
      var a := AppendWrite(h, policy, l, r);
      if WriteAdmissible(r, st) then Appends(h, policy, l, st, ClaimedCalibration(st, r), a) else a == Appended(l, None)
  {
    StateIsNormal(h, policy, l, Some(r.deviceId));
    if WriteAdmissible(r, st) {
      var sha := RequireSha(r.recordSha);
      var after := ClaimedCalibration(st, r);
      var c := EventCore(st, r.deviceId, if r.recovery then RECOVERY else WRITE, after, None,
        [r.fileSha, RequireSha(r.artifactRoot).value, RequireSha(r.payloadSha).value,
         RequireSha(r.signatureSha).value, sha.value], r.rest);
      hide Verify, IsDigest, Lower, Appends;
      assert Continues(st, c, after);
      AppendContinues(h, policy, l, st, c, after);
    }
  }

  /**
   * A report that every check of the write append admits, on any verifying ledger, and that claims a sequence beyond the
   * ledger's range. No run of the host against a device produces one, because a device never reports such a sequence.
   */
  function OversizedReport(st: LedgerState): Report
  {
    var digest := ZeroDigest(64);
    Report(EVIDENCE_SCHEMA, true, false, st.deviceId, Some(HostBinding(true, true, st.headSha, st.entryCount)),
           st.sequence, 0x1_0000_0000, Some(ExactRecord(true, Some(digest), 0x1_0000_0000, 0)), 0x1_0000_0000, 0,
           Some(digest), Some(st.authoritySha), Some(digest), Some(digest), Some(digest), false, None, digest, "")
  }

  /** Appending it writes an entry after which the ledger verifies for nobody. */
  lemma OversizedReportBreaksLedger(h: Hashing, policy: Policy, l: Ledger, d: Option<string>, st: LedgerState)
    requires Digests(h) && Verify(h, policy, l, d) == Some(st)
    ensures
      var r := OversizedReport(st);
      var a := AppendWrite(h, policy, l, r);
      && WriteAdmissible(r, st) && r.candidateSequence > MAX_LEDGER_SEQUENCE
      && a.result == None && |a.ledger.entries| == |l.entries| + 1
      && forall device :: Verify(h, policy, a.ledger, device) == None
  {
    hide IsDigest, Lower, Strip, CheckEntries, AppendWrite;
    StateIsNormal(h, policy, l, d);
    LowerDigest(ZeroDigest(64)) by { ZeroIsDigest(); }
    LowerDigest(st.authoritySha);
    AppendWriteSound(h, policy, l, OversizedReport(st), st);
  }

  lemma ZeroIsDigest()
    ensures IsDigest(ZeroDigest(64))
  {}

  function CurrentCalibration(st: LedgerState): Calibration
  {
    Calibration(st.sequence, st.recordSha, st.authoritySha)
  }

  /** A reboot append refuses and changes nothing, or appends an event that leaves the calibration state as it was. */
  lemma AppendRebootSound(h: Hashing, policy: Policy, l: Ledger, r: Report, st: LedgerState)
    requires Digests(h) && Verify(h, policy, l, Some(r.deviceId)) == Some(st)
    ensures
      var a := AppendReboot(h, policy, l, r);
      if RebootAdmissible(r, st) then Appends(h, policy, l, st, CurrentCalibration(st), a) else a == Appended(l, None)
  {
    StateIsNormal(h, policy, l, Some(r.deviceId));
    if RebootAdmissible(r, st) {
      var after := CurrentCalibration(st);
      var c := EventCore(st, r.deviceId, REBOOT, after, None, [r.fileSha, RequireSha(r.recordSha).value], r.rest);
      hide Verify, IsDigest, Lower, Appends;
      assert Continues(st, c, after);
      AppendContinues(h, policy, l, st, c, after);
    }
  }

  /** A transition append refuses and changes nothing, or appends an event that changes the key and nothing else. */
  lemma AppendTransitionSound(h: Hashing, policy: Policy, l: Ledger, p: TransitionPackage, post: DeviceState, st: LedgerState)
    requires Digests(h) && Verify(h, policy, l, None) == Some(st)
    ensures
      var a := AppendTransition(h, policy, l, p, post);
      if TransitionAdmissible(p, post, st) then
        Appends(h, policy, l, st, CurrentCalibration(st).(authoritySha := p.newKey), a)
      else a == Appended(l, None)
  {
    StateIsNormal(h, policy, l, None);
    if TransitionAdmissible(p, post, st) {
      var after := CurrentCalibration(st).(authoritySha := p.newKey);
      var c := EventCore(st, st.deviceId, TRANSITION, after, Some(Transition(true, p.oldKey, p.newKey)), p.digests, p.rest);
      hide Verify, IsDigest, Lower, Appends;
      assert Continues(st, c, after);
      AppendContinues(h, policy, l, st, c, after);
    }
  }

  /** A ledger made for a fresh device verifies, at sequence zero with no record and the device's own key. */
  lemma InitializeVerifies(h: Hashing, policy: Policy, d: DeviceState, mdRest: string, evidence: seq<string>, rest: string)
    requires Digests(h) && Initialize(h, policy, d, mdRest, evidence, rest).Some?
    ensures
      var l := Initialize(h, policy, d, mdRest, evidence, rest).value;
      && d.installedSequence == 0 && d.recordSha == None && d.authorizationReady
      && Verify(h, policy, l, Some(Strip(d.deviceId))) ==
           Some(LedgerState(Strip(d.deviceId), 1, h.entry(l.entries[0].core), 0, None, RequireSha(d.authoritySha).value))
  {
    hide Strip, IsDigest, Lower, EventAllowed;
    var l := Initialize(h, policy, d, mdRest, evidence, rest).value;
    StripStripped(d.deviceId);
    var authority := RequireSha(d.authoritySha).value;
    LowerDigest(h.entry(l.entries[0].core));
    LowerDigest(h.metadata(l.metadata));
    FieldsOf(0, None, authority);
    assert l.entries[..0] == [];
    assert CheckEntries(h, l.metadata, l.entries) == CheckEntry(h, l.metadata, START, 0, l.entries[0]);
  }

  lemma {:induction false} StripStripped(s: string)
    ensures Strip(Strip(s)) == Strip(s)
    decreases |s|
  {
    if s != "" {
      if Blank(s[0]) { StripStripped(s[1..]); }
      else if Blank(s[|s| - 1]) { StripStripped(s[..|s| - 1]); }
    }
  }
}
