/** One-way history and tamper evidence of the audit ledger. */
module LedgerHistory {
  import opened CalibrationRecord
  import opened AuditLedger
  import opened LedgerProofs

  ghost predicate Checked(h: Hashing, l: Ledger)
  {
    l.entries != [] && CheckEntries(h, l.metadata, l.entries).Some?
  }

  /** The state after entry n. */
  function StateAt(h: Hashing, l: Ledger, n: nat): Calibration
    requires n <= |l.entries| && CheckEntries(h, l.metadata, l.entries).Some?
  {
    CalibrationOf(After(h, l, n))
  }

  function Kind(l: Ledger, n: nat): string
    requires n < |l.entries|
  {
    l.entries[n].core.eventType
  }

  /** What each entry after genesis does to the state before it. */
  lemma EntryEffect(h: Hashing, l: Ledger, n: nat)
    requires Checked(h, l) && 0 < n < |l.entries|
    ensures
      var b, a := StateAt(h, l, n), StateAt(h, l, n + 1);
      && (Kind(l, n) == WRITE || Kind(l, n) == RECOVERY || Kind(l, n) == REBOOT || Kind(l, n) == TRANSITION)
      && (Kind(l, n) == WRITE ==> a.sequence > b.sequence)
      && (Kind(l, n) == RECOVERY ==> a.sequence == b.sequence + 1)
      && (Kind(l, n) == REBOOT ==> a == b)
      && (a.sequence != b.sequence || a.recordSha != b.recordSha ==> Kind(l, n) == WRITE || Kind(l, n) == RECOVERY)
      && (a.authoritySha != b.authoritySha <==> Kind(l, n) == TRANSITION)
  {
    hide StateFields, Strip, After;
    EntryChecked(h, l, n);
  }

  predicate Commits(l: Ledger, n: nat)
    requires n < |l.entries|
  {
    Kind(l, n) == WRITE || Kind(l, n) == RECOVERY
  }

  /** Sequences never fall, and stay the same exactly over stretches without a write or recovery commit. */
  lemma {:induction false} SequencesNeverFall(h: Hashing, l: Ledger, i: nat, j: nat)
    requires Checked(h, l) && 0 < i <= j <= |l.entries|
    ensures StateAt(h, l, i).sequence <= StateAt(h, l, j).sequence
    ensures StateAt(h, l, i).sequence == StateAt(h, l, j).sequence <==> forall n :: i <= n < j ==> !Commits(l, n)
    ensures (forall n :: i <= n < j ==> !Commits(l, n)) ==> StateAt(h, l, i).recordSha == StateAt(h, l, j).recordSha
    decreases j - i
  {
    hide StateAt, Kind, CheckEntries;
    if i < j {
      SequencesNeverFall(h, l, i, j - 1);
      EntryEffect(h, l, j - 1);
      assert j - 1 > 0 && Commits(l, j - 1) <==> StateAt(h, l, j).sequence != StateAt(h, l, j - 1).sequence;
    }
  }

  /** The authority changes over a stretch only if the stretch holds a transition. */
  lemma {:induction false} AuthorityChangesAtTransitions(h: Hashing, l: Ledger, i: nat, j: nat)
    requires Checked(h, l) && 0 < i <= j <= |l.entries|
    requires forall n :: i <= n < j ==> Kind(l, n) != TRANSITION
    ensures StateAt(h, l, i).authoritySha == StateAt(h, l, j).authoritySha
    decreases j - i
  {
    if i < j {
      AuthorityChangesAtTransitions(h, l, i, j - 1);
      EntryEffect(h, l, j - 1);
    }
  }

  /**
   * What every entry of a checked ledger states: its own place in the chain and its device, no authority over actuators,
   * limits or automatic provisioning; a write or recovery names a record, and a transition was signed by both keys and
   * names the key before it and the key after it.
   */
  lemma EntryStates(h: Hashing, l: Ledger, n: nat)
    requires Checked(h, l) && n < |l.entries|
    ensures
      var c := l.entries[n].core;
      && c.index == n && c.deviceId == Strip(l.metadata.deviceId)
      && c.previousSha == (if n == 0 then ZeroDigest(64) else h.entry(l.entries[n - 1].core))
      && c.authority.Some? && !c.authority.value.mayControlActuators && !c.authority.value.mayRelaxLimits
      && !c.authority.value.automaticProvisioning
      && (Kind(l, n) == "genesis" <==> n == 0)
      && (Kind(l, n) == "write_commit" || Kind(l, n) == "recovery_commit" ==> StateAt(h, l, n + 1).recordSha.Some?)
      && (Kind(l, n) == "authority_transition" ==>
            c.transition == Some(Transition(true, StateAt(h, l, n).authoritySha, StateAt(h, l, n + 1).authoritySha)))
  {
    hide StateFields, Strip;
    EntryChecked(h, l, n);
    HashBefore(h, l, n);
    hide After;
  }

  /** The hash the chain carries is that of the last entry. */
  lemma HashBefore(h: Hashing, l: Ledger, n: nat)
    requires Checked(h, l) && n <= |l.entries|
    ensures After(h, l, n).previousHash == if n == 0 then ZeroDigest(64) else h.entry(l.entries[n - 1].core)
  {
    hide StateFields, Strip, EventAllowed;
    if n > 0 { EntryChecked(h, l, n - 1); }
  }

  /** Entry n passed the key on to this one, under both signatures. */
  predicate PassedOn(l: Ledger, n: nat, key: string)
    requires n < |l.entries|
  {
    var t := l.entries[n].core.transition;
    Kind(l, n) == TRANSITION && t.Some? && t.value.dualSignatureVerified && t.value.newAuthority == key
  }

  /** The key at any point of a checked ledger is its first key, or was passed on by a transition that both keys signed. */
  lemma {:induction false} KeyProvenance(h: Hashing, l: Ledger, j: nat)
    requires Checked(h, l) && 0 < j <= |l.entries|
    ensures
      || StateAt(h, l, j).authoritySha == StateAt(h, l, 1).authoritySha
      || exists n :: 0 < n < j && PassedOn(l, n, StateAt(h, l, j).authoritySha)
  {
    hide StateAt, Kind, CheckEntries;
    if j > 1 {
      KeyProvenance(h, l, j - 1);
      EntryEffect(h, l, j - 1);
      EntryStates(h, l, j - 1);
      if StateAt(h, l, j).authoritySha != StateAt(h, l, j - 1).authoritySha {
        assert PassedOn(l, j - 1, StateAt(h, l, j).authoritySha);
      }
    }
  }

  // Truncation.

  function Truncated(l: Ledger, n: nat): Ledger
    requires n <= |l.entries|
  {
    l.(entries := l.entries[..n])
  }

  /**
   * A truncated ledger passes the live preflight against the device the full ledger describes exactly when the removed
   * entries hold no write and no recovery commit and leave the signing key as it was.
   */
  lemma TruncationUnnoticedIff(h: Hashing, policy: Policy, l: Ledger, n: nat, full: LedgerState)
    requires Verify(h, policy, l, Some(full.deviceId)) == Some(full) && 0 < n <= |l.entries|
    ensures
      Preflight(h, policy, Truncated(l, n), full.deviceId, full.sequence, full.recordSha, Some(full.authoritySha)).Some?
      <==> (forall k :: n <= k < |l.entries| ==> !Commits(l, k))
           && StateAt(h, l, n).authoritySha == full.authoritySha
  {
    hide Verify, CheckEntries, RequireSha, IsDigest, Commits, StateAt;
    StateIsNormal(h, policy, l, Some(full.deviceId));
    TruncatedVerifies(h, policy, l, n, full.deviceId);
    TruncatedVerifies(h, policy, l, |l.entries|, full.deviceId);
    assert l.entries[..|l.entries|] == l.entries;
    SequencesNeverFall(h, l, n, |l.entries|);
    DigestsKept(full);
  }

  lemma DigestsKept(full: LedgerState)
    requires IsDigest(full.authoritySha) && (full.recordSha.Some? ==> IsDigest(full.recordSha.value))
    ensures RequireSha(Some(full.authoritySha)) == Some(full.authoritySha)
    ensures RequireSha(full.recordSha) == full.recordSha
  {
    hide IsDigest, Lower;
    LowerDigest(full.authoritySha);
    if full.recordSha.Some? { LowerDigest(full.recordSha.value); }
  }

  /** A truncated ledger verifies, and shows the state the full one had after that entry. */
  lemma TruncatedVerifies(h: Hashing, policy: Policy, l: Ledger, n: nat, device: string)
    requires Verify(h, policy, l, Some(device)).Some? && 0 < n <= |l.entries|
    ensures Checked(h, l)
    ensures
      var st := Verify(h, policy, Truncated(l, n), Some(device));
      && st.Some? && st.value.deviceId == device
      && Calibration(st.value.sequence, st.value.recordSha, st.value.authoritySha) == StateAt(h, l, n)
  {
    hide CheckEntry, Strip;
    PrefixChecked(h, l.metadata, l.entries, n);
  }

  // Tamper evidence.

  /** Two different inputs with one digest, both taken from these two ledgers. */
  ghost predicate Collide(h: Hashing, l: Ledger, l': Ledger)
  {
    || (exists i, j :: CoresCollide(h, l, l', i, j))
    || (l.metadata != l'.metadata && h.metadata(l.metadata) == h.metadata(l'.metadata))
  }

  predicate CoresCollide(h: Hashing, l: Ledger, l': Ledger, i: nat, j: nat)
  {
    && i < |l.entries| && j < |l'.entries| && l.entries[i].core != l'.entries[j].core
    && h.entry(l.entries[i].core) == h.entry(l'.entries[j].core)
  }

  /** The same ledger, up to the letter case of the stored entry hashes. */
  predicate SameContent(l: Ledger, l': Ledger)
  {
    && l.metadata == l'.metadata && |l.entries| == |l'.entries|
    && forall i :: 0 <= i < |l.entries| ==>
         l.entries[i].core == l'.entries[i].core && RequireSha(l.entries[i].entrySha) == RequireSha(l'.entries[i].entrySha)
  }

  /** The head hash of a checked chain is the hash of its last core, and binds its index and predecessor. */
  lemma HeadBinds(h: Hashing, l: Ledger)
    requires Checked(h, l)
    ensures
      var n := |l.entries| - 1;
      var e := l.entries[n];
      && After(h, l, n + 1).previousHash == h.entry(e.core)
      && RequireSha(e.entrySha) == Some(h.entry(e.core))
      && e.core.index == n && e.core.previousSha == After(h, l, n).previousHash
      && (n == 0 ==> RequireSha(e.core.metadataSha) == Some(h.metadata(l.metadata)))
  {
    hide StateFields, Strip, After, RequireSha, EventAllowed;
    EntryChecked(h, l, |l.entries| - 1);
  }

  function HeadOf(h: Hashing, l: Ledger): string
    requires CheckEntries(h, l.metadata, l.entries).Some?
  {
    CheckEntries(h, l.metadata, l.entries).value.previousHash
  }

  lemma HeadOfPrefix(h: Hashing, l: Ledger, n: nat)
    requires Checked(h, l) && 0 < n <= |l.entries|
    ensures Checked(h, Truncated(l, n)) && HeadOf(h, Truncated(l, n)) == After(h, l, n).previousHash
  {
    hide CheckEntries;
    PrefixChecked(h, l.metadata, l.entries, n);
  }

  lemma GrowSameContent(l: Ledger, l': Ledger, n: nat)
    requires |l.entries| == |l'.entries| == n + 1
    requires SameContent(Truncated(l, n), Truncated(l', n))
    requires l.entries[n].core == l'.entries[n].core
    requires RequireSha(l.entries[n].entrySha) == RequireSha(l'.entries[n].entrySha)
    ensures SameContent(l, l')
  {
    hide RequireSha;
    forall i | 0 <= i < |l.entries|
      ensures l.entries[i].core == l'.entries[i].core
      ensures RequireSha(l.entries[i].entrySha) == RequireSha(l'.entries[i].entrySha)
    {
      if i < n { assert l.entries[i] == Truncated(l, n).entries[i] && l'.entries[i] == Truncated(l', n).entries[i]; }
    }
  }

  /** A collision among the first entries is one of the whole ledgers. */
  lemma CollisionStays(h: Hashing, l: Ledger, l': Ledger, n: nat)
    requires n <= |l.entries| && n <= |l'.entries| && Collide(h, Truncated(l, n), Truncated(l', n))
    ensures Collide(h, l, l')
  {
    if i: nat, j: nat :| CoresCollide(h, Truncated(l, n), Truncated(l', n), i, j) {
      assert CoresCollide(h, l, l', i, j);
    }
  }

  /**
   * Tamper evidence: two ledgers that verify and end in the same head hash hold the same entries and metadata, or two
   * of their own entries, or their own metadata, are different and have one hash.
   */
  lemma {:induction false} TamperEvidence(h: Hashing, l: Ledger, l': Ledger)
    requires Checked(h, l) && Checked(h, l') && HeadOf(h, l) == HeadOf(h, l')
    ensures SameContent(l, l') || Collide(h, l, l')
    decreases |l.entries|
  {
    hide CheckEntries, RequireSha, SameContent, After, Collide;
    HeadBinds(h, l);
    HeadBinds(h, l');
    HeadOfPrefix(h, l, |l.entries|); HeadOfPrefix(h, l', |l'.entries|);
    assert l.entries[..|l.entries|] == l.entries && l'.entries[..|l'.entries|] == l'.entries;
    var n := |l.entries| - 1;
    if l.entries[n].core != l'.entries[|l'.entries| - 1].core {
      LastCoresCollide(h, l, l');
    } else if n == 0 {
      OneEntry(h, l, l');
    } else {
      HeadOfPrefix(h, l, n); HeadOfPrefix(h, l', n);
      TamperEvidence(h, Truncated(l, n), Truncated(l', n));
      if SameContent(Truncated(l, n), Truncated(l', n)) { GrowSameContent(l, l', n); } else { CollisionStays(h, l, l', n); }
    }
  }

  lemma LastCoresCollide(h: Hashing, l: Ledger, l': Ledger)
    requires l.entries != [] && l'.entries != []
    requires CoresCollide(h, l, l', |l.entries| - 1, |l'.entries| - 1)
    ensures Collide(h, l, l')
  {}

  lemma OneEntry(h: Hashing, l: Ledger, l': Ledger)
    requires |l.entries| == |l'.entries| == 1 && l.entries[0].core == l'.entries[0].core
    requires RequireSha(l.entries[0].entrySha) == RequireSha(l'.entries[0].entrySha)
    requires h.metadata(l.metadata) == h.metadata(l'.metadata)
    ensures SameContent(l, l') || Collide(h, l, l')
  {
    hide RequireSha;
  }

  /** Under the verified state: equal heads of verifying ledgers, whatever policy and device each was checked for. */
  lemma HeadsDetermineLedgers(h: Hashing, policy: Policy, l: Ledger, l': Ledger, d: Option<string>, d': Option<string>)
    requires Verify(h, policy, l, d).Some? && Verify(h, policy, l', d').Some?
    requires Verify(h, policy, l, d).value.headSha == Verify(h, policy, l', d').value.headSha
    ensures SameContent(l, l') || Collide(h, l, l')
  {
    hide CheckEntries;
    TamperEvidence(h, l, l');
  }

  // What the chain does not bind.

  /**
   * The letter case of the stored entry hashes is not bound, anywhere in the chain: ledgers that differ in it alone
   * verify to the same state.
   */
  lemma EntryHashCaseUnbound(h: Hashing, policy: Policy, l: Ledger, l': Ledger, d: Option<string>)
    requires SameContent(l, l')
    ensures Verify(h, policy, l', d) == Verify(h, policy, l, d)
  {
    hide CheckEntries, SameContent;
    SameLength(l, l');
    SameChecks(h, l, l', |l.entries|);
    assert l.entries[..|l.entries|] == l.entries && l'.entries[..|l.entries|] == l'.entries;
  }

  lemma SameLength(l: Ledger, l': Ledger)
    requires SameContent(l, l')
    ensures |l.entries| == |l'.entries| && l.metadata == l'.metadata
  {}

  lemma {:induction false} SameChecks(h: Hashing, l: Ledger, l': Ledger, n: nat)
    requires SameContent(l, l') && |l.entries| == |l'.entries| && n <= |l.entries|
    ensures CheckEntries(h, l.metadata, l.entries[..n]) == CheckEntries(h, l.metadata, l'.entries[..n])
  {
    hide CheckEntries, SameContent;
    if n == 0 {
      assert l.entries[..0] == l'.entries[..0];
    } else {
      SameChecks(h, l, l', n - 1);
      SameEntry(l, l', n - 1);
      assert l.entries[..n] == l.entries[..n - 1] + [l.entries[n - 1]];
      assert l'.entries[..n] == l'.entries[..n - 1] + [l'.entries[n - 1]];
      SameStep(h, l.metadata, l.entries[..n - 1], l'.entries[..n - 1], l.entries[n - 1], l'.entries[n - 1]);
    }
  }

  lemma SameEntry(l: Ledger, l': Ledger, i: nat)
    requires SameContent(l, l') && i < |l.entries| && i < |l'.entries|
    ensures l.entries[i].core == l'.entries[i].core && RequireSha(l.entries[i].entrySha) == RequireSha(l'.entries[i].entrySha)
  {
    hide RequireSha;
  }

  lemma SameStep(h: Hashing, md: Metadata, front: seq<Entry>, front': seq<Entry>, e: Entry, e': Entry)
    requires |front| == |front'| && CheckEntries(h, md, front) == CheckEntries(h, md, front')
    requires e'.core == e.core && RequireSha(e'.entrySha) == RequireSha(e.entrySha)
    ensures CheckEntries(h, md, front + [e]) == CheckEntries(h, md, front' + [e'])
  {
    hide CheckEntries, CheckEntry, RequireSha;
    ChainStep(h, md, front, e);
    ChainStep(h, md, front', e');
    var st := CheckEntries(h, md, front);
    if st.Some? { CaseDoesNotMatter(h, md, st.value, |front|, e, e'); }
  }

  lemma ChainStep(h: Hashing, md: Metadata, front: seq<Entry>, e: Entry)
    ensures CheckEntries(h, md, front + [e]) ==
            match CheckEntries(h, md, front)
            case None => None
            case Some(st) => CheckEntry(h, md, st, |front|, e)
  {
    hide CheckEntry;
    assert (front + [e])[..|front|] == front;
  }

  lemma CaseDoesNotMatter(h: Hashing, md: Metadata, st: Chain, i: nat, e: Entry, e': Entry)
    requires e'.core == e.core && RequireSha(e'.entrySha) == RequireSha(e.entrySha)
    ensures CheckEntry(h, md, st, i, e') == CheckEntry(h, md, st, i, e)
  {
    hide StateFields, Strip, EventAllowed, RequireSha;
  }

  /**
   * The exact condition: for a verifying ledger, any other ledger verifies to the same head if and only if it has the
   * same content, unless the two together hold a collision.
   */
  lemma SameHeadIff(h: Hashing, policy: Policy, l: Ledger, l': Ledger, d: Option<string>)
    requires Verify(h, policy, l, d).Some? && !Collide(h, l, l')
    ensures
      Verify(h, policy, l', d).Some? && Verify(h, policy, l', d).value.headSha == Verify(h, policy, l, d).value.headSha
      <==> SameContent(l, l')
  {
    hide Verify, SameContent, Collide;
    if SameContent(l, l') {
      EntryHashCaseUnbound(h, policy, l, l', d);
    } else if Verify(h, policy, l', d).Some? && Verify(h, policy, l', d).value.headSha == Verify(h, policy, l, d).value.headSha {
      HeadsDetermineLedgers(h, policy, l, l', d, d);
    }
  }

  /** Every stored entry hash is written in lower case. */
  predicate WrittenLow(l: Ledger)
  {
    forall i :: 0 <= i < |l.entries| ==> LowHash(l.entries[i])
  }

  predicate LowHash(e: Entry)
  {
    e.entrySha.Some? && Lower(e.entrySha.value) == e.entrySha.value
  }

  /**
   * The condition a caller can check: of the ledgers with the head of a verifying ledger that is written in lower case,
   * that ledger itself is the only one written in lower case, unless a collision is shown.
   */
  lemma LowCaseDetermines(h: Hashing, policy: Policy, l: Ledger, l': Ledger, d: Option<string>)
    requires Verify(h, policy, l, d).Some? && Verify(h, policy, l', d).Some?
    requires Verify(h, policy, l', d).value.headSha == Verify(h, policy, l, d).value.headSha
    requires WrittenLow(l) && !Collide(h, l, l')
    ensures l' == l <==> WrittenLow(l')
  {
    hide Verify, Collide;
    HeadsDetermineLedgers(h, policy, l, l', d, d);
    if WrittenLow(l') {
      forall i | 0 <= i < |l.entries|
        ensures l.entries[i] == l'.entries[i]
      {
        HashPresent(h, policy, l, d, i);
        assert LowHash(l.entries[i]) && LowHash(l'.entries[i]);
      }
      assert l.entries == l'.entries;
    }
  }

  lemma HashPresent(h: Hashing, policy: Policy, l: Ledger, d: Option<string>, i: nat)
    requires Verify(h, policy, l, d).Some? && i < |l.entries|
    ensures RequireSha(l.entries[i].entrySha).Some?
  {
    hide StateFields, Strip, EventAllowed, RequireSha, After, CheckEntries;
    EntryChecked(h, l, i);
  }

  /** The host writes lower case: a new ledger is, and appending keeps it. */
  lemma HostWritesLow(h: Hashing, policy: Policy, l: Ledger, core: Core)
    requires Digests(h) && WrittenLow(l)
    ensures WrittenLow(AppendEntry(h, policy, l, core).ledger)
  {
    hide Verify, IsDigest, Lower;
    DigestLow(h, core);
    var l' := l.(entries := l.entries + [Entry(core, Some(h.entry(core)))]);
    forall i | 0 <= i < |l'.entries|
      ensures LowHash(l'.entries[i])
    {
      if i < |l.entries| { assert LowHash(l.entries[i]); }
    }
  }

  lemma DigestLow(h: Hashing, core: Core)
    requires Digests(h)
    ensures LowHash(Entry(core, Some(h.entry(core))))
  {
    LowerDigest(h.entry(core));
  }

  lemma NewLedgerLow(h: Hashing, policy: Policy, d: DeviceState, mdRest: string, evidence: seq<string>, rest: string)
    requires Digests(h) && Initialize(h, policy, d, mdRest, evidence, rest).Some?
    ensures WrittenLow(Initialize(h, policy, d, mdRest, evidence, rest).value)
  {
    hide IsDigest, Lower, RequireSha;
    DigestLow(h, Initialize(h, policy, d, mdRest, evidence, rest).value.entries[0].core);
  }

  function UpperChar(c: char): char
  {
    if 'a' <= c <= 'z' then (c as int - 32) as char else c
  }

  function Upper(s: string): (r: string)
    ensures |r| == |s|
  {
    seq(|s|, i requires 0 <= i < |s| => UpperChar(s[i]))
  }

  /** The inputs that show it: wherever a stored hash holds a letter, its upper-case spelling verifies as well. */
  lemma UpperCaseVerifies(h: Hashing, policy: Policy, l: Ledger, d: Option<string>, i: nat, k: nat)
    requires Verify(h, policy, l, d).Some? && i < |l.entries| && WrittenLow(l)
    requires k < |l.entries[i].entrySha.value| && 'a' <= l.entries[i].entrySha.value[k] <= 'f'
    ensures
      var l' := l.(entries := l.entries[i := l.entries[i].(entrySha := Some(Upper(l.entries[i].entrySha.value)))]);
      l' != l && Verify(h, policy, l', d) == Verify(h, policy, l, d)
  {
    hide Verify, RequireSha, Upper, IsDigest, Lower;
    var s := l.entries[i].entrySha.value;
    var l' := l.(entries := l.entries[i := l.entries[i].(entrySha := Some(Upper(s)))]);
    assert LowHash(l.entries[i]);
    BothSpellings(s, k);
    assert l'.entries[i] != l.entries[i];
    EntryHashCaseUnbound(h, policy, l, l', d);
  }

  lemma BothSpellings(s: string, k: nat)
    requires k < |s| && 'a' <= s[k] <= 'f' && Lower(s) == s
    ensures Upper(s) != s && RequireSha(Some(Upper(s))) == RequireSha(Some(s))
  {
    assert Upper(s)[k] != s[k];
    forall i | 0 <= i < |s| ensures LowerChar(UpperChar(s[i])) == s[i] {
      assert LowerChar(s[i]) == Lower(s)[i];
    }
    assert Lower(Upper(s)) == s;
  }

  // Reports are spent.

  /**
   * A report that any append accepted is refused by every append from then on, however many other entries follow it.
   */
  lemma ReportSpent(h: Hashing, policy: Policy, l: Ledger, r: Report, st: LedgerState, l': Ledger, st': LedgerState)
    requires Verify(h, policy, l, Some(r.deviceId)) == Some(st)
    requires WriteAdmissible(r, st) || RebootAdmissible(r, st)
    requires |l'.entries| > |l.entries| && Verify(h, policy, l', Some(r.deviceId)) == Some(st')
    ensures AppendWrite(h, policy, l', r) == Appended(l', None)
    ensures AppendReboot(h, policy, l', r) == Appended(l', None)
  {
    hide Verify, RequireSha;
    StateIsNormal(h, policy, l, Some(r.deviceId));
    StateIsNormal(h, policy, l', Some(r.deviceId));
  }
}
