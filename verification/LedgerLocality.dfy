/** What verification of a ledger amounts to, entry by entry: each entry stands by itself and behind its neighbour. */
module LedgerLocality {
  import opened CalibrationRecord
  import opened AuditLedger
  import opened LedgerProofs
  import opened LedgerAppends

  /** A digest member in lower case. */
  function Digest(value: Option<string>): Option<string>
  {
    if value.Some? then Some(Lower(value.value)) else None
  }

  /** A state section: a sequence within 32 bits less the reserved value, a key, and a record hash or none. */
  predicate SectionStands(section: Option<Section>)
  {
    && section.Some? && 0 <= section.value.sequence <= 0xFFFF_FFFE
    && WellFormed(section.value.authoritySha) && (section.value.recordSha.Some? ==> WellFormed(section.value.recordSha))
  }

  predicate SameState(a: Section, b: Section)
  {
    a.sequence == b.sequence && Digest(a.recordSha) == Digest(b.recordSha) && Digest(a.authoritySha) == Digest(b.authoritySha)
  }

  /** The four events after genesis, on the two sections of the entry. */
  predicate EventStands(c: Core)
    requires SectionStands(c.before) && SectionStands(c.after)
  {
    var b, a := c.before.value, c.after.value;
    match c.eventType
    case "write_commit" => Digest(a.authoritySha) == Digest(b.authoritySha) && a.sequence > b.sequence && a.recordSha.Some?
    case "recovery_commit" => Digest(a.authoritySha) == Digest(b.authoritySha) && a.sequence == b.sequence + 1 && a.recordSha.Some?
    case "reboot_verified" => SameState(a, b)
    case "authority_transition" =>
      && a.sequence == b.sequence && Digest(a.recordSha) == Digest(b.recordSha)
      && Digest(a.authoritySha) != Digest(b.authoritySha)
      && c.transition.Some? && c.transition.value.dualSignatureVerified
      && Some(c.transition.value.oldAuthority) == Digest(b.authoritySha)
      && Some(c.transition.value.newAuthority) == Digest(a.authoritySha)
    case _ => false
  }

  /** Entry n is well formed, hashed, without authority, and continues the entry before it. */
  predicate EntryStands(h: Hashing, md: Metadata, entries: seq<Entry>, n: nat)
    requires n < |entries|
  {
    var c := entries[n].core;
    && c.schema == "forgesense.calibration_audit_entry.v1" && c.index == n && c.deviceId == Strip(md.deviceId)
    && States(entries[n].entrySha, h.entry(c))
    && c.previousSha == (if n == 0 then ZeroDigest(64) else h.entry(entries[n - 1].core))
    && c.authority == Some(EventAuthority(false, false, false))
    && SectionStands(c.before) && SectionStands(c.after)
    && if n == 0 then
         && c.eventType == "genesis" && c.before.value.sequence == 0 && SameState(c.before.value, c.after.value)
         && c.before.value.recordSha == None && States(c.metadataSha, h.metadata(md))
       else
         && entries[n - 1].core.after.Some? && SameState(c.before.value, entries[n - 1].core.after.value)
         && EventStands(c)
  }

  lemma FieldsStand(section: Option<Section>)
    ensures StateFields(section).Some? <==> SectionStands(section)
    ensures SectionStands(section) ==>
      var s, f := section.value, StateFields(section).value;
      f.sequence == s.sequence && f.recordSha == Digest(s.recordSha) && Some(f.authoritySha) == Digest(s.authoritySha)
  {
    hide Lower, IsDigest;
  }

  /** The chain state behind an entry is its after section, in lower case, and its hash. */
  predicate Behind(h: Hashing, st: Chain, e: Entry)
  {
    && e.core.after.Some? && st.previousHash == h.entry(e.core) && st.sequence == e.core.after.value.sequence
    && st.recordSha == Digest(e.core.after.value.recordSha) && Some(st.authoritySha) == Digest(e.core.after.value.authoritySha)
  }

  lemma EventsAgree(c: Core, before: Calibration, after: Calibration)
    requires SectionStands(c.before) && SectionStands(c.after)
    requires StateFields(c.before) == Some(before) && StateFields(c.after) == Some(after)
    ensures EventAllowed(c, before, after) <==> EventStands(c)
  {
    FieldsStand(c.before); FieldsStand(c.after);
    hide StateFields, Lower, WellFormed;
  }

  /** One step of the verification loop decides exactly whether its entry stands. */
  lemma StepStands(h: Hashing, md: Metadata, entries: seq<Entry>, st: Chain)
    requires entries != []
    requires |entries| == 1 ==> st == START
    requires |entries| > 1 ==> Behind(h, st, entries[|entries| - 2])
    ensures
      var n := |entries| - 1;
      var next := CheckEntry(h, md, st, n, entries[n]);
      && (next.Some? <==> EntryStands(h, md, entries, n))
      && (next.Some? ==> Behind(h, next.value, entries[n]))
  {
    var n, e := |entries| - 1, entries[|entries| - 1];
    FieldsStand(e.core.before); FieldsStand(e.core.after);
    RequireShaStates(e.entrySha, h.entry(e.core)); RequireShaStates(e.core.metadataSha, h.metadata(md));
    if StateFields(e.core.before).Some? && StateFields(e.core.after).Some? {
      EventsAgree(e.core, StateFields(e.core.before).value, StateFields(e.core.after).value);
    }
    hide StateFields, RequireSha, Strip, EventAllowed, EventStands, SectionStands, States, WellFormed, Lower, ZeroDigest;
  }

  lemma {:induction false} ChecksStand(h: Hashing, md: Metadata, entries: seq<Entry>)
    ensures CheckEntries(h, md, entries).Some? <==> forall n :: 0 <= n < |entries| ==> EntryStands(h, md, entries, n)
    ensures entries != [] && CheckEntries(h, md, entries).Some? ==>
      Behind(h, CheckEntries(h, md, entries).value, entries[|entries| - 1])
  {
    hide CheckEntry, EntryStands, Behind;
    if entries != [] {
      var front, last := entries[..|entries| - 1], |entries| - 1;
      ChecksStand(h, md, front);
      forall n | 0 <= n < |front|
        ensures EntryStands(h, md, front, n) <==> EntryStands(h, md, entries, n)
      {
        StandsInFront(h, md, entries, n);
      }
      if CheckEntries(h, md, front).Some? { StepStands(h, md, entries, CheckEntries(h, md, front).value); }
    }
  }

  lemma StandsInFront(h: Hashing, md: Metadata, entries: seq<Entry>, n: nat)
    requires n + 1 < |entries|
    ensures EntryStands(h, md, entries[..|entries| - 1], n) <==> EntryStands(h, md, entries, n)
  {
    hide EventStands, SectionStands, States, SameState, Strip, ZeroDigest;
  }

  /**
   * Verification is local: a ledger verifies if and only if its metadata is of the schema, the policy and the device, its
   * entries are between one and a hundred million, and every entry stands by itself and behind the one before it.
   */
  lemma VerifiesIff(h: Hashing, policy: Policy, l: Ledger, device: Option<string>)
    ensures Verify(h, policy, l, device).Some? <==>
      && l.metadata.schema == "forgesense.calibration_audit_ledger.v1" && l.metadata.policyId == policy.policyId
      && l.metadata.authority == policy.authority && Strip(l.metadata.deviceId) != ""
      && (device.Some? ==> device.value == Strip(l.metadata.deviceId))
      && 1 <= |l.entries| <= 1_0000_0000
      && forall n :: 0 <= n < |l.entries| ==> EntryStands(h, l.metadata, l.entries, n)
  {
    hide EntryStands, CheckEntries, Strip;
    ChecksStand(h, l.metadata, l.entries);
  }

  /** A ledger can be begun if and only if the device is named, blank, at sequence zero, and ready with a key. */
  lemma InitializeIff(h: Hashing, policy: Policy, d: DeviceState, metadataRest: string, evidence: seq<string>, rest: string)
    ensures Initialize(h, policy, d, metadataRest, evidence, rest).Some? <==>
      && Strip(d.deviceId) != "" && d.installedSequence == 0
      && d.recordCrc == None && d.recordSha == None && d.recordHex == None
      && d.authorizationReady && WellFormed(d.authoritySha)
  {
    hide Strip, Lower, IsDigest;
    RequireShaStates(d.authoritySha, "");
  }

  /** The live preflight passes if and only if the ledger verifies for the device and agrees with it in every member. */
  lemma PreflightIff(h: Hashing, policy: Policy, l: Ledger, device: string, sequence: int, recordSha: Option<string>,
                     authoritySha: Option<string>)
    ensures
      var st := Verify(h, policy, l, Some(device));
      Preflight(h, policy, l, device, sequence, recordSha, authoritySha).Some? <==>
        && st.Some? && sequence == st.value.sequence
        && (recordSha.Some? ==> WellFormed(recordSha)) && Digest(recordSha) == st.value.recordSha
        && States(authoritySha, st.value.authoritySha)
  {
    hide Verify, Lower, IsDigest;
    if Verify(h, policy, l, Some(device)).Some? {
      RequireShaStates(authoritySha, Verify(h, policy, l, Some(device)).value.authoritySha);
    }
  }
}
