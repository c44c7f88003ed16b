/** What the device's answers say to whoever reads them: every field of every reply, as the host's reader sees it. */
module DeviceReplies {
  import opened Bits
  import opened CalibrationRecord
  import opened SlotSelection
  import opened NvsStore
  import opened StoreRecovery
  import opened MaintenanceDevice
  import opened DeviceRuns
  import opened AuditLedger
  import opened HostSession

  /**
   * A PREPARE answered OK returns the sequence and checksum of the record it holds now, and the nonce that a COMMIT has
   * to quote; any other answer is a bare status.
   */
  lemma PrepareReplyMeans(m: Ram, s: Store, payload: seq<byte>, g: Gates, nonce: Nonce)
    ensures
      var (m', reply) := HandlePrepare(m, s, payload, g, nonce);
      var p := reply.payload;
      && reply.opcode == PREPARE_RESPONSE && p != []
      && if p[0] == OK then
           && |p| == 13 && m'.pendingValid
           && Read32(p, 1) == m'.pendingRecord.sequence && |m'.pendingBlob| == BLOB_SIZE
           && Read32(p, 5) == Read32(m'.pendingBlob, 44) && Read32(p, 9) == m'.commitNonce == nonce
         else |p| == 1
  {
    hide Decode, Verified, GatesAsserted, Read16, Read32, Le, FromLe;
    var (m', reply) := HandlePrepare(m, s, payload, g, nonce);
    var p := reply.payload;
    if p[0] == OK {
      PreparedBytes(m'.pendingRecord.sequence, m'.pendingBlob, nonce);
    }
  }

  lemma PreparedBytes(sequence: u32, blob: seq<byte>, nonce: u32)
    requires |blob| == BLOB_SIZE
    ensures
      var p := [OK] + Le(sequence, 4) + blob[44..] + Le(nonce, 4);
      |p| == 13 && Read32(p, 1) == sequence && Read32(p, 5) == Read32(blob, 44) && Read32(p, 9) == nonce
  {
    hide Le, FromLe;
    var p := [OK] + Le(sequence, 4) + blob[44..] + Le(nonce, 4);
    assert p[1..5] == Le(sequence, 4) && p[9..13] == Le(nonce, 4);
    assert p[5..9] == blob[44..48];
    Read32Of(sequence, p, 1); Read32Of(nonce, p, 9);
  }

  /** Every refusal of PREPARE names a check that really failed. */
  lemma PrepareDiagnosis(m: Ram, s: Store, payload: seq<byte>, g: Gates, nonce: Nonce)
    ensures
      var status := HandlePrepare(m, s, payload, g, nonce).1.payload[0];
      && (status == 1 ==> |payload| <= 90 || Read16(payload, 88) != |payload| - 90 || |payload| > 170)
      && (status == 2 ==> !(m.gateConfigValid && g.maintenance && g.loadInhibit))
      && (status == 3 ==> !m.storeReady)
      && (status == 4 ==> |payload| > 90 && Read32(payload, 0) != m.bootNonce)
      && (status == 5 ==> |payload| > 90 && Read32(payload, 4) != s.installedFloor)
      && (status == 6 ==>
            && |payload| > 90
            && var r := Decode(payload[40..88]);
               r == None || !SequenceIsNewer(r.value.sequence, s.installedFloor))
      && (status == 10 ==>
            && |payload| > 90 && m.authority.Some?
            && !Verified(m.authority.value, m.mac, s.installedFloor, payload[8..40], payload[40..88], payload[90..]))
      && (status == 11 ==> m.authority == None)
      && status in [0, 1, 2, 3, 4, 5, 6, 10, 11]
  {
    hide Decode, Verified, Read16, Read32, Le;
  }

  /**
   * Every refusal of COMMIT names a check that really failed, and says what becomes of the pending record: it stays only
   * when the request itself was malformed or did not match it, and everything else clears it.
   */
  lemma CommitDiagnosis(m: Ram, s: Store, n: Nvs, payload: seq<byte>, g: Gates, f: StageFaults)
    requires s.activeSlot <= 1
    ensures
      var c := HandleCommit(m, s, n, payload, g, f);
      var status := c.reply.payload[0];
      && (status == 1 <==> |payload| != 12)
      && (status == 2 ==> !(m.gateConfigValid && g.maintenance && g.loadInhibit))
      && (status == 3 ==> !m.storeReady)
      && (status == 4 ==> |payload| == 12 && Read32(payload, 0) != m.bootNonce)
      && (status == 5 ==> s.installedFloor != m.pendingFloor || !SequenceIsNewer(m.pendingRecord.sequence, s.installedFloor))
      && (status == 7 ==>
            && |payload| == 12
            && (!m.pendingValid || Read32(payload, 4) != m.commitNonce || Read32(payload, 8) != m.pendingRecord.sequence))
      && (status == 8 ==> !StageAndCommit(s, n, m.pendingRecord, f).ok || Some(m.pendingBlob) != Encode(m.pendingRecord))
      && (status == 11 ==> m.authority == None)
      && status in [0, 1, 2, 3, 4, 5, 7, 8, 11]
      && c.ram == (if status == 1 || status == 7 then m
                   else if status == 8 then ClearPending(m).(storeReady := false) else ClearPending(m))
  {
    hide Read32, Le, Blob, Usable, StageAndCommit;
    if StageAndCommit(s, n, m.pendingRecord, f).ok { StagedIsActive(s, n, m.pendingRecord, f); }
  }

  lemma StagedIsActive(s: Store, n: Nvs, c: Record, f: StageFaults)
    requires s.activeSlot <= 1 && StageAndCommit(s, n, c, f).ok
    ensures
      var after := StageAndCommit(s, n, c, f).store;
      ActiveOf(after) == Some(c) && after.activeRecord == c && Usable(c)
  {
    StageRan(s, n, c, f);
    hide StageAndCommit, Blob, Usable;
  }

  /**
   * A COMMIT is answered OK if and only if the staging it made succeeded; the answer then carries the sequence and the
   * checksum of what is active now, and any other answer is a bare status.
   */
  lemma CommitReplyMeans(m: Ram, s: Store, n: Nvs, payload: seq<byte>, g: Gates, f: StageFaults)
    requires s.activeSlot <= 1 && (m.pendingValid ==> Decode(m.pendingBlob) == Some(m.pendingRecord))
    ensures
      var c := HandleCommit(m, s, n, payload, g, f);
      var p := c.reply.payload;
      && c.reply.opcode == COMMIT_RESPONSE && p != [] && (p[0] == OK <==> c.run.ok)
      && if c.run.ok then
           && |p| == 9 && ActiveOf(c.run.store) == Some(m.pendingRecord)
           && Read32(p, 1) == m.pendingRecord.sequence && Read32(p, 5) == Read32(Blob(m.pendingRecord), 44)
         else |p| == 1
  {
    hide Decode, GatesAsserted, Blob, Read32, Le, FromLe, Usable, StageAndCommit;
    var c := HandleCommit(m, s, n, payload, g, f);
    if m.pendingValid {
      EncodeDecode(m.pendingBlob);
      if StageAndCommit(s, n, m.pendingRecord, f).ok {
        CommitComparisonHolds(s, n, m.pendingBlob, f);
        CommittedBytes(m.pendingRecord.sequence, m.pendingBlob);
      }
    }
  }

  lemma CommittedBytes(sequence: u32, blob: seq<byte>)
    requires |blob| == BLOB_SIZE
    ensures
      var p := [OK] + Le(sequence, 4) + blob[44..];
      |p| == 9 && Read32(p, 1) == sequence && Read32(p, 5) == Read32(blob, 44)
  {
    hide Le, FromLe;
    var p := [OK] + Le(sequence, 4) + blob[44..];
    assert p[1..5] == Le(sequence, 4);
    assert p[5..9] == blob[44..48];
    Read32Of(sequence, p, 1);
  }

  /** The checksum that a status reply states for the active record. */
  function ActiveCrc(m: Ram, s: Store): u32
  {
    if m.storeReady && ActiveOf(s).Some? && Usable(s.activeRecord) then Read32(Blob(s.activeRecord), 44) else 0
  }

  /** The host reads a status reply as exactly the device's state: every one of its nine fields. */
  lemma StatusMeans(m: Ram, s: Store, g: Gates)
    requires |m.mac| == 6
    ensures ReadStatus(StatusReply(m, s, g)) == Some(DeviceStatus(
      DEVICE_PREFIX + Hex(m.mac), m.bootNonce, m.gateConfigValid && g.maintenance, m.gateConfigValid && g.loadInhibit,
      m.storeReady, m.storeReady && s.hasActive, if m.storeReady then s.installedFloor else 0, ActiveCrc(m, s),
      if m.pendingValid then m.pendingRecord.sequence else 0))
  {
    hide Blob, Usable, Le, FromLe, Hex, Read32;
    var p := StatusReply(m, s, g).payload;
    var floor, crc := if m.storeReady then s.installedFloor else 0, ActiveCrc(m, s);
    var pending := if m.pendingValid then m.pendingRecord.sequence else 0;
    assert p[1..7] == m.mac && p[7..11] == Le(m.bootNonce, 4);
    assert p[15..19] == Le(floor, 4) && p[19..23] == Le(crc, 4) && p[23..27] == Le(pending, 4);
    Read32Of(m.bootNonce, p, 7); Read32Of(floor, p, 15); Read32Of(crc, p, 19); Read32Of(pending, p, 23);
  }

  /** The host reads the key of an authorization reply as the pinned key's fingerprint, or as zeros when there is none. */
  lemma AuthorizationMeans(m: Ram)
    requires m.authority.Some? ==> |m.authority.value.fingerprint| == 32
    ensures ReadAuthorization(AuthorizationReply(m)) ==
      Some(AuthorizationStatus(m.authority.Some?, if m.authority.Some? then Hex(m.authority.value.fingerprint) else ZeroDigest(64)))
  {
    hide Hex, Zeros, ZeroDigest;
    var p := AuthorizationReply(m).payload;
    if m.authority.Some? {
      assert p[2..34] == m.authority.value.fingerprint;
    } else {
      assert p[2..34] == Zeros(32);
      HexOfZeros(32);
    }
  }

  lemma {:induction false} HexOfZeros(n: nat)
    ensures Hex(Zeros(n)) == ZeroDigest(2 * n)
  {
    if n > 0 {
      HexOfZeros(n - 1);
      assert Zeros(n)[1..] == Zeros(n - 1);
      assert ZeroDigest(2 * n) == "00" + ZeroDigest(2 * n - 2) by {
        assert ZeroDigest(2 * n) == "0" + ZeroDigest(2 * n - 1);
        assert ZeroDigest(2 * n - 1) == "0" + ZeroDigest(2 * n - 2);
      }
    }
  }

  /** What the host knows of a device's active record. */
  function ActiveSeen(s: Store, sha: seq<byte> -> string): ActiveRecord
  {
    if s.hasActive then
      var blob := Blob(s.activeRecord);
      ActiveRecord(true, blob, s.activeRecord.sequence, Read32(blob, 44), Some(sha(blob)))
    else ActiveRecord(false, [], 0, 0, None)
  }

  /** The host reads the active-record reply of a ready store as the record itself, or as its absence. */
  lemma ActiveMeans(m: Ram, s: Store, sha: seq<byte> -> string)
    requires m.storeReady && s.ready && (s.hasActive ==> Usable(s.activeRecord))
    ensures ReadActive(ActiveRecordReply(m, s), sha) == Some(ActiveSeen(s, sha))
  {
    hide Blob, Read32, Usable, Zeros;
    var p := ActiveRecordReply(m, s).payload;
    if s.hasActive {
      assert p[2..50] == Blob(s.activeRecord);
      SequenceInBlob(s.activeRecord);
    } else {
      assert p[2..] == Zeros(48);
    }
  }

  lemma SequenceInBlob(r: Record)
    ensures Read32(Blob(r), 8) == r.sequence
  {
    hide Le;
    assert Blob(r)[8..12] == Le(r.sequence, 4);
    Read32Of(r.sequence, Blob(r), 8);
  }

  /**
   * Whatever else arrives changes nothing, neither globals nor store nor flash: queries, unknown opcodes and queries with
   * a payload, which are answered with a bad-request status under the opcode of the reply that was due.
   */
  lemma OtherFramesChangeNothing(m: Ram, s: Store, n: Nvs, frame: Frame, g: Gates, nonce: Nonce, f: StageFaults)
    requires s.activeSlot <= 1 && frame.opcode != 2 && frame.opcode != 3
    ensures
      var c := HandleFrame(m, s, n, frame, g, nonce, f);
      && c.ram == m && c.run == Run(false, s, [n])
      && c.reply.opcode == (if frame.opcode == 4 then 0x84 else if frame.opcode == 5 then 0x85 else 0x81)
      && (frame.payload != [] || frame.opcode !in [1, 4, 5] ==> c.reply.payload == [1])
      && (frame.opcode == 5 && frame.payload == [] && !m.storeReady ==> c.reply.payload == [3])
  {
    hide HandlePrepare, HandleCommit, Le, Blob, Usable, Zeros;
  }
}
