/** Exactly when each append of the audit ledger writes an entry, on the members of its input, and which entry. */
module LedgerAppends {
  import opened CalibrationRecord
  import opened AuditLedger
  import opened LedgerProofs

  /** A member holds 64 hexadecimal digits, in either letter case. */
  predicate WellFormed(value: Option<string>)
  {
    value.Some? && IsDigest(Lower(value.value))
  }

  /** A member holds this digest, in either letter case. */
  predicate States(value: Option<string>, digest: string)
  {
    WellFormed(value) && Lower(value.value) == digest
  }

  /** The larger ledger is the smaller one with one hashed entry of this kind behind its verified state. */
  predicate Extends(h: Hashing, l: Ledger, l': Ledger, st: LedgerState, eventType: string, sequence: int,
                    recordSha: Option<string>, authoritySha: string, transition: Option<Transition>, evidence: seq<string>)
  {
    && l'.metadata == l.metadata && |l'.entries| == |l.entries| + 1 && l'.entries[..|l.entries|] == l.entries
    && var e := l'.entries[|l.entries|];
       && e.entrySha == Some(h.entry(e.core))
       && e.core.schema == "forgesense.calibration_audit_entry.v1" && e.core.index == |l.entries|
       && e.core.eventType == eventType && e.core.deviceId == st.deviceId && e.core.previousSha == st.headSha
       && e.core.before == Some(Section(st.sequence, st.recordSha, Some(st.authoritySha)))
       && e.core.after == Some(Section(sequence, recordSha, Some(authoritySha)))
       && e.core.authority == Some(EventAuthority(false, false, false))
       && e.core.transition == transition && e.core.evidence == evidence
  }

  lemma RequireShaStates(value: Option<string>, digest: string)
    ensures RequireSha(value).Some? <==> WellFormed(value)
    ensures RequireSha(value) == Some(digest) <==> States(value, digest)
    ensures WellFormed(value) ==> RequireSha(value) == Some(Lower(value.value))
  {
    hide Lower, IsDigest;
  }

  /** The members of a report that commit to the ledger as it stood when the run began. */
  lemma BoundIff(r: Report, st: LedgerState)
    ensures PreflightBound(r, st) <==>
      && r.host.Some? && r.host.value.required && r.host.value.preflightVerified
      && r.host.value.head == st.headSha && r.host.value.entryCount == st.entryCount
  {}

  lemma AppendedEntry(h: Hashing, policy: Policy, l: Ledger, st: LedgerState, device: string, eventType: string,
                      after: Calibration, transition: Option<Transition>, evidence: seq<string>, rest: string)
    requires Verify(h, policy, l, Some(device)) == Some(st)
    ensures
      var a := AppendEntry(h, policy, l, EventCore(st, device, eventType, after, transition, evidence, rest));
      Extends(h, l, a.ledger, st, eventType, after.sequence, after.recordSha, after.authoritySha, transition, evidence)
  {
    hide CheckEntries, Strip;
  }

  /**
   * The write append adds an entry if and only if the report is of the evidence schema and of a committed write, was made
   * under the preflight of exactly this ledger, continues its sequence upwards, read back exactly the record it claims,
   * names the ledger's signing key, moves by one when it is a recovery, and carries its digests; and the entry is the
   * write or recovery event of that record.
   */
  lemma AppendWriteIff(h: Hashing, policy: Policy, l: Ledger, r: Report, st: LedgerState)
    requires Verify(h, policy, l, Some(r.deviceId)) == Some(st)
    ensures
      var a := AppendWrite(h, policy, l, r);
      a.ledger != l <==>
        && r.schema == "forgesense.calibration_physical_provisioning.v1" && r.commitVerified
        && r.host.Some? && r.host.value.required && r.host.value.preflightVerified
        && r.host.value.head == st.headSha && r.host.value.entryCount == st.entryCount
        && r.preSequence == st.sequence < r.candidateSequence == r.postSequence
        && WellFormed(r.recordSha)
        && r.exact.Some? && r.exact.value.present && r.exact.value.sha == Some(Lower(r.recordSha.value))
        && r.exact.value.sequence == r.candidateSequence && r.exact.value.crc == r.candidateCrc
        && States(r.signerSha, st.authoritySha)
        && (r.recovery ==> r.candidateSequence == st.sequence + 1)
        && WellFormed(r.artifactRoot) && WellFormed(r.payloadSha) && WellFormed(r.signatureSha)
    ensures
      var a := AppendWrite(h, policy, l, r);
      if a.ledger == l then a.result == None
      else
        && WellFormed(r.recordSha) && WellFormed(r.artifactRoot) && WellFormed(r.payloadSha) && WellFormed(r.signatureSha)
        && var sha := Lower(r.recordSha.value);
           Extends(h, l, a.ledger, st, if r.recovery then "recovery_commit" else "write_commit", r.candidateSequence,
                   Some(sha), st.authoritySha, None,
                   [r.fileSha, Lower(r.artifactRoot.value), Lower(r.payloadSha.value), Lower(r.signatureSha.value), sha])
  {
    hide Verify, WellFormed, Lower, RequireSha, AppendEntry, EventCore, PreflightBound;
    BoundIff(r, st);
    RequireShaStates(r.recordSha, ""); RequireShaStates(r.signerSha, st.authoritySha);
    RequireShaStates(r.artifactRoot, ""); RequireShaStates(r.payloadSha, ""); RequireShaStates(r.signatureSha, "");
    if WriteAdmissible(r, st) {
      var sha := RequireSha(r.recordSha);
      AppendedEntry(h, policy, l, st, r.deviceId, if r.recovery then RECOVERY else WRITE,
        Calibration(r.candidateSequence, sha, st.authoritySha), None,
        [r.fileSha, RequireSha(r.artifactRoot).value, RequireSha(r.payloadSha).value,
         RequireSha(r.signatureSha).value, sha.value], r.rest);
    }
  }

  /**
   * The reboot append adds an entry if and only if the report of a committed write was completed by a verified reboot
   * under the preflight of exactly this ledger, claims the very state the ledger has, and read back exactly that record
   * under a new boot nonce.
   */
  lemma AppendRebootIff(h: Hashing, policy: Policy, l: Ledger, r: Report, st: LedgerState)
    requires Verify(h, policy, l, Some(r.deviceId)) == Some(st)
    ensures
      var a := AppendReboot(h, policy, l, r);
      a.ledger != l <==>
        && r.schema == "forgesense.calibration_physical_provisioning.v1" && r.commitVerified && r.rebootVerified
        && r.host.Some? && r.host.value.required && r.host.value.preflightVerified
        && r.host.value.head == st.headSha && r.host.value.entryCount == st.entryCount
        && r.candidateSequence == st.sequence
        && st.recordSha.Some? && States(r.recordSha, st.recordSha.value)
        && States(r.signerSha, st.authoritySha)
        && r.reboot.Some? && r.reboot.value.nonceChanged && States(r.reboot.value.recordSha, st.recordSha.value)
        && r.reboot.value.exact.Some?
        && var x := r.reboot.value.exact.value;
           x.present && x.sha == st.recordSha && x.sequence == st.sequence && x.crc == r.candidateCrc
    ensures
      var a := AppendReboot(h, policy, l, r);
      if a.ledger == l then a.result == None
      else
        && st.recordSha.Some?
        && Extends(h, l, a.ledger, st, "reboot_verified", st.sequence, st.recordSha, st.authoritySha, None,
                   [r.fileSha, st.recordSha.value])
  {
    hide Verify, WellFormed, Lower, RequireSha, AppendEntry, EventCore, PreflightBound;
    BoundIff(r, st);
    var claimed := if st.recordSha.Some? then st.recordSha.value else "";
    RequireShaStates(r.recordSha, claimed); RequireShaStates(r.signerSha, st.authoritySha);
    if r.reboot.Some? { RequireShaStates(r.reboot.value.recordSha, claimed); }
    if RebootAdmissible(r, st) {
      AppendedEntry(h, policy, l, st, r.deviceId, REBOOT, Calibration(st.sequence, st.recordSha, st.authoritySha), None,
        [r.fileSha, RequireSha(r.recordSha).value], r.rest);
    }
  }

  /**
   * The transition append adds an entry if and only if the package names this device, this head, this length and this
   * calibration state, passes the ledger's key on to a different one, and the device observed afterwards is unchanged but
   * for reporting exactly that new key.
   */
  lemma AppendTransitionIff(h: Hashing, policy: Policy, l: Ledger, p: TransitionPackage, post: DeviceState, st: LedgerState)
    requires Verify(h, policy, l, None) == Some(st)
    ensures
      var a := AppendTransition(h, policy, l, p, post);
      a.ledger != l <==>
        && p.deviceId == st.deviceId == post.deviceId
        && p.head == st.headSha && p.entryCount == st.entryCount
        && p.sequence == st.sequence == post.installedSequence
        && p.recordSha == st.recordSha
        && (if st.recordSha.Some? then States(post.recordSha, st.recordSha.value) else post.recordSha == None)
        && p.oldKey == st.authoritySha != p.newKey
        && post.authorizationReady && States(post.authoritySha, p.newKey)
    ensures
      var a := AppendTransition(h, policy, l, p, post);
      if a.ledger == l then a.result == None
      else
        Extends(h, l, a.ledger, st, "authority_transition", st.sequence, st.recordSha, p.newKey,
                Some(Transition(true, st.authoritySha, p.newKey)), p.digests)
  {
    hide WellFormed, Lower, RequireSha, AppendEntry, EventCore;
    StateIsNormal(h, policy, l, None);
    hide Verify;
    RequireShaStates(post.recordSha, if st.recordSha.Some? then st.recordSha.value else "");
    RequireShaStates(post.authoritySha, p.newKey);
    NoShaIsNone(post.recordSha);
    if TransitionAdmissible(p, post, st) {
      AppendedEntry(h, policy, l, st, st.deviceId, TRANSITION, Calibration(st.sequence, st.recordSha, p.newKey),
        Some(Transition(true, p.oldKey, p.newKey)), p.digests, p.rest);
    }
  }

  lemma NoShaIsNone(value: Option<string>)
    ensures (value.Some? ==> RequireSha(value).Some?) && RequireSha(value) == None <==> value == None
  {
    hide Lower, IsDigest;
  }
}
