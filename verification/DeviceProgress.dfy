/** What an authorized host can rely on: a ready device with working flash installs exactly what was signed. */
module DeviceProgress {
  import opened Bits
  import opened CalibrationRecord
  import opened SlotSelection
  import opened NvsStore
  import opened StoreRecovery
  import opened StoreLife
  import opened MaintenanceDevice
  import opened DeviceRuns
  import opened HostSession
  import opened DeviceReplies

  /** With working flash a ready store takes a record if and only if it is usable and newer than the floor. */
  lemma StageSucceedsIff(s: Store, n: Nvs, c: Record)
    requires s.ready && s.activeSlot <= 1
    ensures StageAndCommit(s, n, c, NO_STAGE_FAULTS).ok <==> SequenceIsNewer(c.sequence, s.installedFloor) && Usable(c)
  {
    hide Decode, Blob, Usable;
    if Usable(c) { DecodeEncode(c); }
  }

  // The host's two requests, as the device reads them.

  /** What the device reads back from a PREPARE request. */
  lemma PrepareFields(bootNonce: u32, floor: u32, root: seq<byte>, blob: seq<byte>, signature: seq<byte>)
    requires |root| == 32 && |blob| == 48 && |signature| <= MAX_SIGNATURE
    ensures
      var p := PrepareRequest(bootNonce, floor, root, blob, signature).payload;
      && |p| == PREPARE_FIXED + |signature| && Read32(p, 0) == bootNonce && Read32(p, 4) == floor
      && p[8..40] == root && p[40..88] == blob && Read16(p, 88) == |signature| && p[90..] == signature
  {
    hide Le, FromLe;
    var p := PrepareRequest(bootNonce, floor, root, blob, signature).payload;
    assert p[0..4] == Le(bootNonce, 4) && p[4..8] == Le(floor, 4) && p[88..90] == Le(|signature|, 2);
    Read32Of(bootNonce, p, 0); Read32Of(floor, p, 4); Read16Of(|signature|, p, 88);
  }

  lemma CommitFields(bootNonce: u32, nonce: u32, sequence: u32)
    ensures
      var p := CommitRequest(bootNonce, nonce, sequence).payload;
      |p| == 12 && Read32(p, 0) == bootNonce && Read32(p, 4) == nonce && Read32(p, 8) == sequence
  {
    hide Le, FromLe;
    var p := CommitRequest(bootNonce, nonce, sequence).payload;
    assert p[0..4] == Le(bootNonce, 4) && p[4..8] == Le(nonce, 4) && p[8..12] == Le(sequence, 4);
    Read32Of(bootNonce, p, 0); Read32Of(nonce, p, 4); Read32Of(sequence, p, 8);
  }

  /** A record that is signed for the current floor of a ready device. */
  predicate Authorized(m: Ram, s: Store, r: Record, root: seq<byte>, signature: seq<byte>)
  {
    && m.storeReady && m.authority.Some? && |root| == 32
    && Usable(r) && SequenceIsNewer(r.sequence, s.installedFloor)
    && Verified(m.authority.value, m.mac, s.installedFloor, root, Blob(r), signature)
  }

  /** PREPARE of an authorized record leaves exactly that record pending, under the nonce it returns. */
  lemma PrepareHolds(m: Ram, s: Store, r: Record, root: seq<byte>, signature: seq<byte>, g: Gates, nonce: Nonce)
    requires Authorized(m, s, r, root, signature) && GatesAsserted(m, g)
    ensures
      var request := PrepareRequest(m.bootNonce, s.installedFloor, root, Blob(r), signature);
      HandlePrepare(m, s, request.payload, g, nonce).0 ==
      m.(pendingValid := true, pendingFloor := s.installedFloor, commitNonce := nonce, pendingRecord := r, pendingBlob := Blob(r))
  {
    hide PrepareRequest, Blob, Decode, AuthorizationPayload, Read16, Read32, Usable, HandlePrepare;
    PrepareFields(m.bootNonce, s.installedFloor, root, Blob(r), signature);
    DecodeEncode(r);
    PrepareAnswersOkIff(m, s, PrepareRequest(m.bootNonce, s.installedFloor, root, Blob(r), signature).payload, g, nonce);
  }

  lemma CommitInstalls(m: Ram, s: Store, n: Nvs, r: Record, g: Gates)
    requires s.ready && s.activeSlot <= 1 && m.storeReady && m.authority.Some? && GatesAsserted(m, g)
    requires Usable(r) && SequenceIsNewer(r.sequence, s.installedFloor)
    requires m.pendingValid && m.pendingFloor == s.installedFloor && m.pendingRecord == r && m.pendingBlob == Blob(r)
    ensures
      var c := HandleCommit(m, s, n, CommitRequest(m.bootNonce, m.commitNonce, r.sequence).payload, g, NO_STAGE_FAULTS);
      c.run == StageAndCommit(s, n, r, NO_STAGE_FAULTS) && c.run.ok && c.ram == ClearPending(m)
      && ActiveOf(c.run.store) == Some(r)
  {
    hide CommitRequest, StageAndCommit, Blob, Decode, Usable, Read32;
    CommitFields(m.bootNonce, m.commitNonce, r.sequence);
    StageSucceedsIff(s, n, r);
    DecodeEncode(r);
    CommitComparisonHolds(s, n, Blob(r), NO_STAGE_FAULTS);
  }

  /** The answer to PREPARE of an authorized record: its sequence, its checksum and the fresh commit nonce. */
  predicate OffersCommit(reply: Frame, r: Record, nonce: Nonce)
  {
    var p := reply.payload;
    && reply.opcode == PREPARE_RESPONSE && |p| == 13 && p[0] == OK
    && Read32(p, 1) == r.sequence && Read32(p, 5) == Read32(Blob(r), 44) && Read32(p, 9) == nonce
  }

  /** The answer to the COMMIT that installed a record: its sequence and its checksum. */
  predicate ConfirmsInstall(reply: Frame, r: Record)
  {
    var p := reply.payload;
    && reply.opcode == COMMIT_RESPONSE && |p| == 9 && p[0] == OK
    && Read32(p, 1) == r.sequence && Read32(p, 5) == Read32(Blob(r), 44)
  }

  /** PREPARE of an authorized record is answered with everything the COMMIT needs. */
  lemma PrepareOffers(m: Ram, s: Store, r: Record, root: seq<byte>, signature: seq<byte>, g: Gates, nonce: Nonce)
    requires Authorized(m, s, r, root, signature) && GatesAsserted(m, g)
    ensures
      var request := PrepareRequest(m.bootNonce, s.installedFloor, root, Blob(r), signature);
      OffersCommit(HandlePrepare(m, s, request.payload, g, nonce).1, r, nonce)
  {
    hide PrepareRequest, Blob, Decode, AuthorizationPayload, Read16, Read32, Usable, HandlePrepare;
    var payload := PrepareRequest(m.bootNonce, s.installedFloor, root, Blob(r), signature).payload;
    PrepareFields(m.bootNonce, s.installedFloor, root, Blob(r), signature);
    DecodeEncode(r);
    PrepareAnswersOkIff(m, s, payload, g, nonce);
    PrepareReplyMeans(m, s, payload, g, nonce);
  }

  /** COMMIT of the pending record is answered with what was installed. */
  lemma CommitConfirms(m: Ram, s: Store, n: Nvs, r: Record, g: Gates)
    requires s.ready && s.activeSlot <= 1 && m.storeReady && m.authority.Some? && GatesAsserted(m, g)
    requires Usable(r) && SequenceIsNewer(r.sequence, s.installedFloor)
    requires m.pendingValid && m.pendingFloor == s.installedFloor && m.pendingRecord == r && m.pendingBlob == Blob(r)
    ensures
      var c := HandleCommit(m, s, n, CommitRequest(m.bootNonce, m.commitNonce, r.sequence).payload, g, NO_STAGE_FAULTS);
      ConfirmsInstall(c.reply, r)
  {
    hide CommitRequest, StageAndCommit, Blob, Decode, Usable, Read32, HandleCommit;
    CommitInstalls(m, s, n, r, g);
    DecodeEncode(r);
    CommitReplyMeans(m, s, n, CommitRequest(m.bootNonce, m.commitNonce, r.sequence).payload, g, NO_STAGE_FAULTS);
  }

  /** The globals with this record pending. */
  function Holding(m: Ram, s: Store, r: Record, nonce: Nonce): Ram
  {
    m.(pendingValid := true, pendingFloor := s.installedFloor, commitNonce := nonce, pendingRecord := r, pendingBlob := Blob(r))
  }

  /**
   * An authorized exchange installs: on any device in any reachable state with a ready store and the gates asserted at
   * both requests, PREPARE is answered with a sequence and a nonce, and the COMMIT that quotes these two from the answer
   * makes the device confirm the signed record, report it next, and stand ready for the next exchange.
   */
  lemma AuthorizedExchangeInstalls(
      d: Device, r: Record, root: seq<byte>, signature: seq<byte>, g: Gates, g': Gates, nonce: Nonce, unused: Nonce,
      f: StageFaults)
    requires DeviceInv(d) && d.ram.Some? && Authorized(d.ram.value, d.life.store, r, root, signature)
    requires GatesAsserted(d.ram.value, g) && GatesAsserted(d.ram.value, g')
    ensures
      var m, s := d.ram.value, d.life.store;
      var prepare := Deliver(PrepareRequest(m.bootNonce, s.installedFloor, root, Blob(r), signature), g, nonce, f);
      var prepared, offer := Step(d, prepare), Handle(d, prepare).reply;
      && OffersCommit(offer, r, nonce)
      && prepared.ram.Some? && prepared.life == d.life
      && var commit := Deliver(CommitRequest(m.bootNonce, Read32(offer.payload, 9), Read32(offer.payload, 1)), g', unused, NO_STAGE_FAULTS);
         var done := Step(prepared, commit);
         && ConfirmsInstall(Handle(prepared, commit).reply, r)
         && done.life.confirmed == d.life.confirmed + [Confirmation(r.sequence, Some(r))]
         && done.ram.Some? && done.ram.value == ClearPending(m.(pendingRecord := r, pendingBlob := Blob(r)))
  {
    hide HandlePrepare, HandleCommit, StageAndCommit, Blob, Usable, Verified, DeviceInv, Step, Handle, OffersCommit, ConfirmsInstall;
    var m, s := d.ram.value, d.life.store;
    ReadyStore(d);
    var prepare := Deliver(PrepareRequest(m.bootNonce, s.installedFloor, root, Blob(r), signature), g, nonce, f);
    PrepareHolds(m, s, r, root, signature, g, nonce);
    PrepareOffers(m, s, r, root, signature, g, nonce);
    PrepareStep(d, prepare);
    var prepared, offer := d.(ram := Some(Holding(m, s, r, nonce))), Handle(d, prepare).reply;
    Offered(offer, r, nonce);
    var commit := Deliver(CommitRequest(m.bootNonce, Read32(offer.payload, 9), Read32(offer.payload, 1)), g', unused, NO_STAGE_FAULTS);
    CommitInstalls(Holding(m, s, r, nonce), s, d.life.nvs, r, g');
    CommitConfirms(Holding(m, s, r, nonce), s, d.life.nvs, r, g');
    CommitStep(prepared, commit);
    StageRan(s, d.life.nvs, r, NO_STAGE_FAULTS);
  }

  lemma Offered(offer: Frame, r: Record, nonce: Nonce)
    requires OffersCommit(offer, r, nonce)
    ensures |offer.payload| == 13 && Read32(offer.payload, 1) == r.sequence && Read32(offer.payload, 9) == nonce
  {}

  lemma PrepareStep(d: Device, e: Event)
    requires d.ram.Some? && d.life.store.activeSlot <= 1 && e.Deliver? && e.frame.opcode == PREPARE_RECORD
    ensures
      var (m', reply) := HandlePrepare(d.ram.value, d.life.store, e.frame.payload, e.gates, e.nonce);
      Step(d, e) == d.(ram := Some(m')) && Handle(d, e).reply == reply
  {
    hide HandlePrepare, HandleCommit, StatusReply, AuthorizationReply, ActiveRecordReply;
  }

  lemma CommitStep(d: Device, e: Event)
    requires d.ram.Some? && d.life.store.activeSlot <= 1 && e.Deliver? && e.frame.opcode == COMMIT_RECORD
    ensures
      var c := HandleCommit(d.ram.value, d.life.store, d.life.nvs, e.frame.payload, e.gates, e.stage);
      Step(d, e) == Device(After(d.life, c.run), Some(c.ram)) && Handle(d, e) == c
  {
    hide HandlePrepare, HandleCommit, StatusReply, AuthorizationReply, ActiveRecordReply;
  }

  lemma ReadyStore(d: Device)
    requires DeviceInv(d) && d.ram.Some? && d.ram.value.storeReady
    ensures d.life.store.ready && d.life.store.activeSlot <= 1
  {
    SafeIsReady(d.life.store, d.life.nvs);
  }
}
