# ForgeSense verification

ForgeSense guards an industrial load with an FPGA safety controller, ESP32 sensing firmware and Python host tools.
This project models the parts of it whose correctness spans several functions, several machines or a whole run, and
proves what they promise. It is plain Dafny 4.11: `dafny verify dfyconfig.toml` checks everything.

The modules, bottom up:

| module | what it models |
|---|---|
| Bits, Crc, Crc32Theory | machine words as integers, little-endian bytes, the two checksum loops, the algebra of the CRC-16 step, CRC-32 as a remainder of polynomials |
| CalibrationRecord, SlotSelection | the 48-byte calibration record, its firmware and host encoders, the choice between two slots |
| NvsStore, StoreRecovery, StoreOutcomes, StoreRetry, StoreLife | the crash-safe dual-slot store as a class over a flash model, when its operations succeed, and every run of it |
| MaintenanceDevice, DeviceReplies, DeviceRuns, DeviceHistory, DeviceProgress | the two-phase signed PREPARE/COMMIT firmware, what its answers say, its whole life across boots, and what an authorized host can rely on |
| AuditLedger, LedgerProofs, LedgerAppends, LedgerLocality, LedgerHistory | the hash-chained ledger: verification entry by entry, the three appends, tamper evidence |
| HostSession, HostChecks, Commissioning | the host's apply and verify-reboot runs, exactly when they finish, and host, device and ledger interleaved in any order |
| HostProgress, ProvisioningCycle | runs that nothing disturbs get done, up to a whole cycle of provisioning, reboot and two ledger entries |
| LinkFrame, LinkCodecs, WireLayout, StreamDecoder, StreamLosses, ByteDecoders, MaintenanceLink | framing, error detection, message codecs and layouts, the chunked host decoder and the byte-at-a-time firmware decoders |
| Freshness, Safety, SafetyProgress | the replay gates and the six-state safety controller |
| Sensing, CalibrationTransform | bitwise square root, RMS window, rational calibration and the host gate that feeds it |

How the outside world enters:

- **Flash.** Every key is a durable value plus its uncommitted writes. A power cut keeps, key by key, any prefix of the
  uncommitted writes, so any combination of old and new values across keys. Every flash call may fail, with or without
  having taken effect. A single-key write is not torn.
- **Cryptography.** Hash functions are arbitrary functions into digests. Tamper evidence says that two ledgers hold the
  same content or that two of their own entries, or their own metadata, differ and have one hash. The signature check is
  an arbitrary predicate on the signed bytes and the signature.
- **Inputs.** Random nonces, gate levels, received bytes, lost answers and the moment of a power cut are parameters of
  the runs, and the theorems hold for all of them.

## Findings

Each is a lemma of the project, with the exact condition next to it.

- `StoreRetry.LowerRetryCanStrand`: when a staging call fails at its last commit and a lower, still newer sequence is
  staged in the same boot, a power cut can leave a device that the next boot refuses as rolled back.
  `StoreRetry.RetryRecoversIff` gives the exact condition, and `StoreRetry.RisingRetriesRecover` the rule a caller can
  follow: never stage less than was attempted before in the same boot. The firmware's caller refuses every further
  commit after a failure until the next boot.
- `LedgerProofs.OversizedReportBreaksLedger`: the append functions write the new entry before they verify the ledger
  again. On every verifying ledger a report that claims a sequence above 0xFFFFFFFE passes every check of the write
  append and leaves a ledger that no longer verifies. `LedgerProofs.AppendWriteSound` gives the exact condition: the
  appended ledger verifies if and only if the claimed sequence is at most 0xFFFFFFFE and fewer than 10^8 entries are
  present. Runs of the host against a device never get there: `Commissioning.LedgerStaysIntact`.
- `LedgerHistory.UpperCaseVerifies`: wherever a stored `entry_sha256` holds a letter, its upper-case spelling verifies
  as well, because verification compares in lower case. `LedgerHistory.SameHeadIff` gives the exact condition: the
  ledgers with one head are those that agree up to this letter case. `LedgerHistory.LowCaseDetermines` is the check that
  removes the freedom: among ledgers written in lower case, as the host writes them, one head means one ledger.
- `LedgerHistory.TruncationUnnoticedIff`: removing trailing reboot checks, or transitions that cancel out, is not
  noticed by the live preflight.
- `LinkFrame.DamageAcceptedIff`: the CRC is sent low byte first, so changing the last covered byte by 0x89 together with
  the low checksum byte by 0xA1 turns a valid frame into another accepted one. Of all changes of one byte or of two
  adjacent bytes, at any position, these are the only ones that are accepted.

## Model

| member | source | states |
|---|---|---|
| Crc.Crc16Ccitt | protocol/python/forgesense_protocol.py:177-183 | the byte and bit loops compute the CRC-16 register that all theorems on frames are about |
| Crc.Crc32Ieee | firmware/esp32_calibration_maintenance/main/maintenance_protocol.cpp:34-47 | the reflected CRC-32 loop computes the CRC-32 function used for records and maintenance frames; Crc32Theory says what that function is |
| Crc.ShiftLinear | protocol/python/forgesense_protocol.py:181-182 | one bit step is linear over exclusive or |
| Crc.ShiftInjective | protocol/python/forgesense_protocol.py:181-182 | one bit step loses no information |
| Crc.FoldInjective | protocol/python/forgesense_protocol.py:179-182 | after one byte two registers agree: the bytes agreed exactly when the registers before did |
| Crc.OnlyOneCancels | protocol/python/forgesense_protocol.py:179-182 | of all byte differences only 0 and 0x89 leave the high register byte alone |
| Crc.Crc16TailInjective | protocol/python/forgesense_protocol.py:177-183 | a common tail never makes two different registers equal |
| Crc.Crc16DetectsBurst | protocol/python/forgesense_protocol.py:177-183 | replacing one byte, or two adjacent bytes, anywhere in a message of any length changes its CRC |
| Crc32Theory.Crc32IsRemainder | firmware/esp32_calibration_maintenance/main/maintenance_protocol.cpp:34-47 | for bytes of any length the complemented checksum, its bits in reverse, is the one remainder that the message polynomial, 32 ones added at its head and 32 places appended, leaves on division by 0x104C11DB7 over GF(2); stated with polynomial products only |
| Crc32Theory.Crc32DetectsBurst | firmware/esp32_calibration_maintenance/main/maintenance_protocol.cpp:34-47 | in bytes that end in their own CRC-32 no change of one to four adjacent bytes goes unnoticed, wherever it lies, across the boundary to the checksum included |
| CalibrationRecord.EncodeInto | firmware/components/forgesense_sensing/forgesense_calibration.cpp:65-76 | the in-place encoder refuses exactly unusable records, leaves the buffer alone then, and otherwise fills all 48 bytes with the record's blob |
| CalibrationRecord.DecodeEncode | firmware/components/forgesense_sensing/forgesense_calibration.cpp:78-91 | decoding an encoded usable record gives it back, negative fields included |
| CalibrationRecord.EncodeDecode | firmware/components/forgesense_sensing/forgesense_calibration.cpp:78-91 | every accepted blob is the encoding of what it decodes to: the format is canonical |
| CalibrationRecord.BlobInjective | firmware/components/forgesense_sensing/forgesense_calibration.cpp:65-76 | different usable records have different blobs |
| CalibrationRecord.DamagedRecordRefused | firmware/components/forgesense_sensing/forgesense_calibration.cpp:78-91 | an accepted 48-byte record with one to four adjacent bytes changed anywhere is refused |
| CalibrationRecord.HostBlobDecodes | tools/prepare_calibration_provisioning.py:152-196 | the host packs exactly the field tuples in range, and the firmware decodes its blob to the same coefficients |
| SlotSelection.SelectSlotMeaning | firmware/components/forgesense_sensing/forgesense_calibration_provisioning.cpp:41-79 | a slot is selected if and only if it is the unambiguous highest sound sequence at or above the floor; empty if and only if both slots are absent and the floor is zero |
| NvsStore.CalibrationNvsStore.constructor | firmware/esp32_calibration_maintenance/main/calibration_store_nvs.hpp:36-42 | a new store object is closed and leaves the flash alone |
| NvsStore.CalibrationNvsStore.ResetFailedOpen | firmware/esp32_calibration_maintenance/main/calibration_store_nvs.cpp:23-34 | a failed open puts every field back and leaves the flash alone |
| NvsStore.CalibrationNvsStore.StoreMetadata | firmware/esp32_calibration_maintenance/main/calibration_store_nvs.cpp:57-65 | the metadata write passes the flash states of its specification, for every outcome of its three calls |
| NvsStore.CalibrationNvsStore.Open | firmware/esp32_calibration_maintenance/main/calibration_store_nvs.cpp:67-126 | opening the store refines the boot function: result, fields and every flash state on the way |
| NvsStore.CalibrationNvsStore.LoadActive | firmware/esp32_calibration_maintenance/main/calibration_store_nvs.cpp:128-134 | gives the active record exactly when the store is ready and has one |
| NvsStore.CalibrationNvsStore.StoreSlot | firmware/esp32_calibration_maintenance/main/calibration_store_nvs.cpp:150-162 | the slot write, commit and readback pass the flash states of their specification |
| NvsStore.CalibrationNvsStore.Stage | firmware/esp32_calibration_maintenance/main/calibration_store_nvs.cpp:136-178 | staging a record refines the staging function: result, fields and every flash state on the way |
| StoreOutcomes.StageOkIff | firmware/esp32_calibration_maintenance/main/calibration_store_nvs.cpp:136-178 | over every combination of flash failures, staging succeeds if and only if the store is ready, the record is usable and newer, and all six calls work |
| StoreOutcomes.BeginOkIff | firmware/esp32_calibration_maintenance/main/calibration_store_nvs.cpp:67-126 | over every flash contents and every combination of failures, a boot succeeds if and only if its calls work, the slots are readable, and both are absent with a zero floor, or one is chosen and the metadata is current or repaired |
| StoreOutcomes.BeginRepairs | firmware/esp32_calibration_maintenance/main/calibration_store_nvs.cpp:113-124 | a boot that finds a record leaves its sequence and slot durable in the metadata keys, so a floor never falls at a boot, and leaves the slots alone |
| StoreOutcomes.BeginAgain | firmware/esp32_calibration_maintenance/main/calibration_store_nvs.cpp:67-80 | opening a ready store again changes nothing, and one left half open starts afresh |
| StoreRecovery.BeginSettles | firmware/esp32_calibration_maintenance/main/calibration_store_nvs.cpp:67-126 | any successful boot, from any flash contents and with any failing calls on the way, leaves the settled store that the crash theorems start from |
| StoreRecovery.RecoveryOfSafe | firmware/esp32_calibration_maintenance/main/calibration_store_nvs.cpp:67-126 | from every safe state, after any power cut, a boot succeeds and finds the active record or the newer one waiting in the inactive slot |
| StoreRecovery.CrashAtomicity | firmware/esp32_calibration_maintenance/main/calibration_store_nvs.cpp:136-178 | cut a staging call at any flash call with any uncommitted writes kept: the next boot succeeds and yields exactly the old record or exactly the new one |
| StoreRecovery.InstalledSurvives | firmware/esp32_calibration_maintenance/main/calibration_store_nvs.cpp:136-178 | once staging has returned true, every later boot yields the new record |
| StoreRecovery.StageSettles | firmware/esp32_calibration_maintenance/main/calibration_store_nvs.cpp:136-178 | a successful staging call leaves a settled store whose active record is the candidate and whose floor rose to its sequence |
| StoreRecovery.FailedStageKeepsStore | firmware/esp32_calibration_maintenance/main/calibration_store_nvs.cpp:136-178 | a failed staging call changes no field of the store object |
| StoreRetry.RetryRecoversIff | firmware/esp32_calibration_maintenance/main/calibration_store_nvs.cpp:136-178 | after failed attempts in the same boot, staging keeps the crash guarantee at every power cut, namely a working boot that finds the active record, the candidate or an earlier attempt's record, if and only if no floor above the candidate can be waiting in flash |
| StoreRetry.LowerRetryCanStrand | firmware/esp32_calibration_maintenance/main/calibration_store_nvs.cpp:169-171 | the failing family: a last-commit failure followed by any lower sequence |
| StoreRetry.RisingRetriesRecover | firmware/esp32_calibration_maintenance/main/calibration_store_nvs.cpp:136-178 | as long as each attempt of a boot is at least every earlier one, every power cut inside the last one is followed by a boot that works and finds the active record or an attempted one |
| StoreLife.LifeIsMonotone | firmware/esp32_calibration_maintenance/main/calibration_store_nvs.cpp:111-178 | over every run of boots, stagings, failures, retries and power cuts the reported floor never falls and no two records are reported at one sequence |
| StoreLife.StageRaisesFloor | firmware/esp32_calibration_maintenance/main/calibration_store_nvs.cpp:136-178 | in every run each successful staging reports its record above everything reported before |
| StoreLife.BeginNeverFallsBack | firmware/esp32_calibration_maintenance/main/calibration_store_nvs.cpp:111-125 | in every run a successful boot reports at least every earlier floor, and the same record at the same floor |
| MaintenanceDevice.AuthorizationPayloadInjective | firmware/esp32_calibration_maintenance/main/maintenance_authorization.cpp:157-174 | the signed bytes determine device, floor, artifact root and record |
| MaintenanceDevice.CommitComparisonHolds | firmware/esp32_calibration_maintenance/main/app_main.cpp:363-372 | after a successful staging the comparison of the active record's encoding with the pending blob always holds |
| MaintenanceDevice.Maintenance.constructor | firmware/esp32_calibration_maintenance/main/app_main.cpp:426-474 | a boot starts with nothing pending |
| MaintenanceDevice.Maintenance.Clear | firmware/esp32_calibration_maintenance/main/app_main.cpp:72-78 | clearing forgets the pending record, its floor and the nonce, and nothing else |
| MaintenanceDevice.Maintenance.Prepare | firmware/esp32_calibration_maintenance/main/app_main.cpp:221-310 | the PREPARE handler refines its specification in every branch: globals and reply |
| MaintenanceDevice.Maintenance.Commit | firmware/esp32_calibration_maintenance/main/app_main.cpp:312-383 | the COMMIT handler refines its specification in every branch: globals, store, flash path and reply |
| DeviceReplies.PrepareReplyMeans | firmware/esp32_calibration_maintenance/main/app_main.cpp:304-309 | for every request: an OK answer to PREPARE has 13 bytes with the sequence and checksum of the record now pending and the nonce that COMMIT must quote; any other is a bare status |
| DeviceReplies.CommitReplyMeans | firmware/esp32_calibration_maintenance/main/app_main.cpp:363-383 | for every request: COMMIT answers OK if and only if its staging succeeded, and then carries sequence and checksum of what is active |
| DeviceReplies.StatusMeans | firmware/esp32_calibration_maintenance/main/app_main.cpp:163-182 | the host's reader gets from the status reply exactly the device's state in all nine fields |
| DeviceReplies.AuthorizationMeans | firmware/esp32_calibration_maintenance/main/app_main.cpp:184-193 | the host's reader gets the fingerprint of the pinned key in hexadecimal, or zeros when there is none |
| DeviceReplies.ActiveMeans | firmware/esp32_calibration_maintenance/main/app_main.cpp:195-219 | the host's reader gets the active record's blob, sequence, checksum and hash, or its absence |
| DeviceReplies.PrepareDiagnosis | firmware/esp32_calibration_maintenance/main/app_main.cpp:221-310 | every status code that refuses a PREPARE names a check that really failed |
| DeviceReplies.CommitDiagnosis | firmware/esp32_calibration_maintenance/main/app_main.cpp:312-383 | every status code that refuses a COMMIT names a check that really failed, and the pending record survives exactly a malformed or mismatching request |
| DeviceReplies.OtherFramesChangeNothing | firmware/esp32_calibration_maintenance/main/app_main.cpp:385-424 | every frame but PREPARE and COMMIT leaves globals, store and flash alone, and a query with a payload or an unknown opcode is answered as a bad request |
| DeviceProgress.StageSucceedsIff | firmware/esp32_calibration_maintenance/main/calibration_store_nvs.cpp:136-178 | with working flash a ready store takes a record if and only if it is usable and newer than the floor |
| DeviceRuns.PrepareAnswersOkIff | firmware/esp32_calibration_maintenance/main/app_main.cpp:221-310 | PREPARE answers OK if and only if length, gates, store, key, session, floor, record and signature all check, and then holds exactly what was asked; every other answer clears the pending record |
| DeviceProgress.AuthorizedExchangeInstalls | firmware/esp32_calibration_maintenance/main/app_main.cpp:221-383 | in every reachable state a ready device with working flash, gates asserted, answers the host's PREPARE for an authorized record with its sequence, checksum and a fresh nonce, and the COMMIT built from that answer installs the record, is answered with its sequence and checksum, and leaves the device ready for the next exchange |
| DeviceRuns.FrameRuns | firmware/esp32_calibration_maintenance/main/app_main.cpp:385-424 | a frame writes flash only as a COMMIT with asserted gates, matching nonces and a pending record for the current floor, and a failed write disables the store until the next boot |
| DeviceRuns.PendingOrigin | firmware/esp32_calibration_maintenance/main/app_main.cpp:221-310 | in every run a pending record stems from a PREPARE accepted earlier in the same boot |
| DeviceRuns.InstallProvenance | firmware/esp32_calibration_maintenance/main/app_main.cpp:312-383 | in every run each store write carries a record granted in the same boot, signed for the floor just before the write, with both gates asserted at PREPARE and at COMMIT |
| DeviceRuns.ShutNeverWrites | firmware/esp32_calibration_maintenance/main/app_main.cpp:312-383 | in every run a device whose store is not open, after a bad boot or a failed commit, writes nothing until its power is cut |
| DeviceRuns.BootTrusts | firmware/esp32_calibration_maintenance/main/app_main.cpp:426-458 | a boot opens the store only with identity and flash in order, trusts gates and key only with identity, and starts with nothing pending |
| DeviceHistory.EveryInstallGranted | firmware/esp32_calibration_maintenance/main/app_main.cpp:221-383 | every record the device ever comes to report, even one only a later boot brings to light, stems from one exchange: a PREPARE accepted for the floor it replaced and a COMMIT of that record in the same boot, with both gates asserted at each |
| DeviceHistory.AuthorizationSpentOnce | firmware/esp32_calibration_maintenance/main/maintenance_authorization.cpp:143-198 | over the whole life of a device one signed payload causes at most one install |
| AuditLedger.VerifyLedger | commissioning/forgesense_commission/audit_ledger.py:210-325 | the verification loop computes the fold that the ledger theorems are about |
| AuditLedger.PrefixChecked | commissioning/forgesense_commission/audit_ledger.py:242-325 | every prefix of a chain that passes passes |
| LedgerProofs.EntryChecked | commissioning/forgesense_commission/audit_ledger.py:242-315 | each entry of a verifying chain passed its own check against the state the entries before it add up to |
| LedgerProofs.StateIsNormal | commissioning/forgesense_commission/audit_ledger.py:188-207 | the state of a verifying ledger has normalised digests and a sequence within bounds |
| LedgerProofs.AppendContinues | commissioning/forgesense_commission/audit_ledger.py:448-468 | appending an allowed continuation gives a verifying ledger with one more entry and the claimed state, exactly when sequence and entry number have room |
| LedgerProofs.AppendWriteSound | commissioning/forgesense_commission/audit_ledger.py:480-562 | a write append either refuses and changes nothing or appends exactly the claimed record and sequence |
| LedgerProofs.OversizedReportBreaksLedger | commissioning/forgesense_commission/audit_ledger.py:448-562 | on every verifying ledger a report above the sequence range passes all checks, is appended, and leaves a ledger that verifies for nobody |
| LedgerProofs.AppendRebootSound | commissioning/forgesense_commission/audit_ledger.py:565-634 | a reboot append either refuses and changes nothing or appends an entry that leaves the state as it was |
| LedgerProofs.AppendTransitionSound | commissioning/forgesense_commission/audit_ledger.py:637-721 | a transition append either refuses and changes nothing or changes the signing key alone |
| LedgerAppends.AppendWriteIff | commissioning/forgesense_commission/audit_ledger.py:480-562 | the write append adds an entry if and only if the report's members satisfy every condition, each written out on the report and the verified state, and the entry is the write or recovery event with its sections and digests |
| LedgerAppends.AppendRebootIff | commissioning/forgesense_commission/audit_ledger.py:565-634 | the same for the reboot append |
| LedgerAppends.AppendTransitionIff | commissioning/forgesense_commission/audit_ledger.py:637-721 | the same for the key transition |
| LedgerProofs.InitializeVerifies | commissioning/forgesense_commission/audit_ledger.py:328-407 | an initialised ledger verifies with one entry, sequence zero and no record, and only a blank, authorized device gets one |
| LedgerLocality.VerifiesIff | commissioning/forgesense_commission/audit_ledger.py:210-325 | verification is local: a ledger verifies if and only if metadata and length are right and every entry stands by itself and behind its neighbour |
| LedgerLocality.InitializeIff | commissioning/forgesense_commission/audit_ledger.py:328-407 | a ledger can be begun if and only if the device is named, blank, at sequence zero and ready with a key |
| LedgerLocality.PreflightIff | commissioning/forgesense_commission/audit_ledger.py:410-433 | the live preflight passes if and only if the ledger verifies for the device and agrees with it in sequence, record and key |
| LedgerHistory.EntryEffect | commissioning/forgesense_commission/audit_ledger.py:282-315 | writes raise the sequence, recoveries step by exactly one, reboots change nothing, only transitions change the key |
| LedgerHistory.EntryStates | commissioning/forgesense_commission/audit_ledger.py:242-315 | every entry of a checked ledger carries its place, its device and the hash before it, grants no authority, and a transition is signed by both keys and names the keys before and after it |
| LedgerHistory.KeyProvenance | commissioning/forgesense_commission/audit_ledger.py:289-308 | the key at any point of a checked ledger is its first key or was passed on by a transition that both keys signed |
| LedgerHistory.SequencesNeverFall | commissioning/forgesense_commission/audit_ledger.py:282-315 | along every ledger sequences never fall, and stay the same exactly over stretches without a write or recovery |
| LedgerHistory.AuthorityChangesAtTransitions | commissioning/forgesense_commission/audit_ledger.py:282-315 | along every ledger the signing key changes only at transitions |
| LedgerHistory.TruncationUnnoticedIff | commissioning/forgesense_commission/audit_ledger.py:410-433 | a truncated ledger passes the live preflight if and only if the removed entries hold no write or recovery and leave the key as it was |
| LedgerHistory.TamperEvidence | commissioning/forgesense_commission/audit_ledger.py:242-325 | two checked chains with one head have the same content, or two of their own entries, or their own metadata, differ and have one hash |
| LedgerHistory.HeadsDetermineLedgers | commissioning/forgesense_commission/audit_ledger.py:210-325 | two verifying ledgers with one head hash have the same metadata and entries, or show a collision between themselves |
| LedgerHistory.ReportSpent | commissioning/forgesense_commission/audit_ledger.py:436-445 | a report some append accepted is refused by every append from then on, whatever was appended in between |
| LedgerHistory.EntryHashCaseUnbound | commissioning/forgesense_commission/audit_ledger.py:254-255 | ledgers that differ only in the letter case of stored entry hashes, anywhere in the chain, verify to the same state |
| LedgerHistory.SameHeadIff | commissioning/forgesense_commission/audit_ledger.py:242-325 | without a collision between the two, another ledger verifies to the head of a verifying ledger if and only if it has the same content up to that letter case |
| LedgerHistory.LowCaseDetermines | commissioning/forgesense_commission/audit_ledger.py:242-325 | among verifying ledgers with the head of one written in lower case, that one is exactly the one written in lower case |
| LedgerHistory.HostWritesLow | commissioning/forgesense_commission/audit_ledger.py:448-468 | appending keeps every stored entry hash in lower case |
| LedgerHistory.NewLedgerLow | commissioning/forgesense_commission/audit_ledger.py:328-407 | a new ledger stores its entry hash in lower case |
| LedgerHistory.UpperCaseVerifies | commissioning/forgesense_commission/audit_ledger.py:84-90 | the upper-case spelling of any stored hash with a letter gives a different ledger that verifies to the same state |
| Commissioning.FinishedReport | commissioning/forgesense_commission/recovery.py:150-158 | an apply run finishes only on the device's own active-record answer carrying the record and sequence its report claims |
| HostChecks.ReadableIff | commissioning/forgesense_commission/provisioning.py:216-242 | exactly which status, authorization and active-record replies the host can read |
| HostChecks.ApplyFinishesIff | commissioning/forgesense_commission/signed_provisioning.py:339-473 | a provisioning run finishes if and only if its ten replies satisfy every check of preflight, device, key, gates, floor, PREPARE, COMMIT and readback |
| HostChecks.RecoveryFinishesIff | commissioning/forgesense_commission/recovery.py:76-171 | a recovery run finishes if and only if, besides, the active record is the package's intent and the candidate the next sequence |
| HostChecks.RebootFinishesIff | commissioning/forgesense_commission/recovery.py:174-203 | a reboot verification finishes if and only if its five replies show the reported device under a new nonce with the reported record active |
| Commissioning.ActiveAnswer | firmware/esp32_calibration_maintenance/main/app_main.cpp:195-219 | the active-record answer carries exactly the record and floor the device reported last |
| Commissioning.LedgerStaysIntact | tools/run_physical_calibration_provisioning.py:342-398 | over every interleaving the ledger verifies if and only if it has at most 10^8 entries: no run makes it unverifiable |
| Commissioning.LedgerNeverAhead | tools/run_physical_calibration_provisioning.py:342-398 | over every interleaving of runs, lost answers, failures before the append, boots, power cuts, foreign frames and transitions, for as long as the ledger directory has room, the ledger verifies, its sequence never exceeds the device floor, and at equality it holds the hash of the active blob |
| Commissioning.PreflightPassesIff | tools/run_physical_calibration_provisioning.py:230-259 | in every reachable world the preflight passes if and only if sequence and signing key agree |
| ProvisioningCycle.ApplyRunFinishes | tools/run_physical_calibration_provisioning.py:342-398 | in every reachable world that agrees on sequence and key, with gates asserted, working flash and no lost answer, the exchanges of an authorized run end in a report, the device has installed the record, and appending the report gives a ledger that verifies with one write or recovery entry more at the record's sequence and hash |
| ProvisioningCycle.VerifyRunFinishes | commissioning/forgesense_commission/provisioning.py:411-447 | in every such world the five exchanges of a reboot verification end in a report, and appending it gives a ledger that verifies with one reboot entry more and the same state |
| ProvisioningCycle.CycleCompletes | tools/run_physical_calibration_provisioning.py:342-398 | the whole cycle gets done: provisioning, append, a power cut with any writes lost, a boot, verification against the run's own report, append; the ledger verifies with exactly two entries more and names the record the device reports |
| LinkFrame.DecodeBytes | protocol/python/forgesense_protocol.py:186-222 | decoding an encoded frame gives it back, for every payload length |
| LinkFrame.BytesDecode | protocol/python/forgesense_protocol.py:205-222 | every accepted byte string is the encoding of the frame it decodes to |
| LinkFrame.DamageAcceptedIff | protocol/python/forgesense_protocol.py:205-222 | of all changes of one byte or of two adjacent bytes of a valid frame, at any position and payload length, the decoder accepts exactly those of the last covered byte by 0x89 with the low checksum byte by 0xA1 |
| LinkFrame.StraddlingPairAccepted | protocol/python/forgesense_protocol.py:199-202 | the pair of changes across the checksum boundary that cancels: both frames are accepted |
| LinkCodecs.CommonIsDecode | firmware/components/forgesense_protocol/forgesense_protocol.cpp:43-72 | the firmware's common checks pass exactly on the frames the host's decoder accepts with that type and size, with the same header |
| LinkCodecs.EncodeMl | firmware/components/forgesense_protocol/forgesense_protocol.cpp:164-196 | the in-place ML encoder refuses exactly bad scores and classes and otherwise fills the 28 bytes with the frame |
| LinkCodecs.HostFrameParses | protocol/python/forgesense_protocol.py:225-245 | what the host encodes is what the firmware would have encoded, byte for byte, and the firmware parses it |
| LinkCodecs.FirmwareFrameParses | firmware/components/forgesense_protocol/forgesense_protocol.cpp:89-120 | the firmware parses its own ML frames back to the same message |
| LinkCodecs.DecodersAgree | protocol/python/forgesense_protocol.py:248-269 | host and firmware accept the same ML byte strings and read the same message |
| LinkCodecs.MlFramesRoundTrip | protocol/python/forgesense_protocol.py:225-269 | a firmware ML frame decoded to physical units by the host and encoded again is the same frame |
| LinkCodecs.HostRoundTrip | protocol/python/forgesense_protocol.py:225-269 | an observation that goes over the wire changes only in its two fractions, by at most half a step |
| LinkCodecs.SensorFrameRoundTrip | protocol/python/forgesense_protocol.py:272-311 | a sensor snapshot the host encodes is read back unchanged by host and firmware, negative temperatures included |
| LinkCodecs.StatusFrameRoundTrip | protocol/python/forgesense_protocol.py:314-345 | a status snapshot the host encodes is read back unchanged by host and firmware |
| LinkCodecs.RoundNearest | protocol/python/forgesense_protocol.py:225-227 | rounding gives the one nearest integer, ties to even |
| WireLayout.LinkFrameLayout | protocol/python/forgesense_protocol.py:186-196 | where each field of a link frame stands, with the weight of each byte |
| WireLayout.MlPayloadLayout | protocol/python/forgesense_protocol.py:225-248 | where each field of the ML payload stands |
| WireLayout.HostMlLayout | protocol/python/forgesense_protocol.py:225-248 | the host encodes exactly the observations whose integers fit, and each byte of the frame has the stated meaning, fractions to the nearest step and class codes included |
| WireLayout.SensorPayloadLayout | protocol/python/forgesense_protocol.py:272-290 | where each field of the sensor payload stands, the temperature in two's complement |
| WireLayout.StatusPayloadLayout | protocol/python/forgesense_protocol.py:314-328 | where each field of the status payload stands |
| WireLayout.RecordLayout | firmware/components/forgesense_sensing/forgesense_calibration.cpp:65-76 | where each field of the calibration record stands, the coefficients in two's complement |
| WireLayout.MaintenanceFrameLayout | firmware/esp32_calibration_maintenance/main/maintenance_protocol.cpp:49-70 | where each field of a maintenance frame stands |
| WireLayout.AuthorizationLayout | firmware/esp32_calibration_maintenance/main/maintenance_authorization.cpp:157-174 | where domain, device, floor, artifact root and record stand in the 142 signed bytes |
| WireLayout.PrepareLayout | commissioning/forgesense_commission/signed_provisioning.py:297-336 | where each field of a PREPARE request stands |
| WireLayout.CommitLayout | commissioning/forgesense_commission/provisioning.py:256-263 | where each field of a COMMIT request stands |
| WireLayout.HexLayout | commissioning/forgesense_commission/provisioning.py:226-242 | device identities and fingerprints are written with two lower-case hexadecimal digits a byte, the high half first |
| StreamDecoder.ScanSplit | protocol/python/forgesense_stream.py:66-92 | scanning a stream can be interrupted anywhere and resumed from the held-back bytes |
| StreamDecoder.Decoder.constructor | protocol/python/forgesense_stream.py:27-35 | a new decoder holds nothing and has counted nothing |
| StreamDecoder.Decoder.Reset | protocol/python/forgesense_stream.py:41-42 | a reset drops the buffer and keeps the counters |
| StreamDecoder.Decoder.DiscardUntilSof | protocol/python/forgesense_stream.py:44-56 | the bulk search loses exactly what the byte-by-byte scan would discard |
| StreamDecoder.Decoder.Feed | protocol/python/forgesense_stream.py:58-92 | one call emits, counts and keeps exactly what the declarative scan of the truncated buffer does |
| StreamDecoder.RestWaits | protocol/python/forgesense_stream.py:66-92 | what is held back is an undecided front shorter than the largest frame |
| StreamDecoder.ChunkIndependence | protocol/python/forgesense_stream.py:58-92 | however a stream is cut into chunks within the stated size, frames, all four counters and leftover equal one scan of the whole stream |
| StreamDecoder.BytesConserved | protocol/python/forgesense_stream.py:44-92 | for chunks of any size, overflow included, bytes fed are bytes discarded plus bytes of emitted frames plus bytes buffered |
| StreamDecoder.Resynchronises | protocol/python/forgesense_stream.py:66-92 | after any garbage a valid frame with enough bytes behind it is emitted, unless an earlier accepted frame overlaps it |
| StreamDecoder.ResynchronisesInChunks | protocol/python/forgesense_stream.py:58-92 | the same for the decoder fed in pieces |
| StreamDecoder.CleanStream | protocol/python/forgesense_stream.py:66-92 | encoded frames back to back come out exactly, with nothing discarded and no error |
| StreamDecoder.CleanStreamInChunks | protocol/python/forgesense_stream.py:58-92 | the same however the stream is cut |
| StreamLosses.LossesCounted | protocol/python/forgesense_stream.py:66-92 | the error counter is the number of positions where the scan met a whole frame that does not decode, the oversize counter the number where a header announced too much |
| StreamLosses.LossesCountedInChunks | protocol/python/forgesense_stream.py:58-92 | the same for the decoder however the stream is cut |
| StreamLosses.OverflowKeepsNewest | protocol/python/forgesense_stream.py:58-64 | of one call with too many bytes the oldest are lost and the newest up to the limit are decoded |
| ByteDecoders.PushInFlight | firmware/components/forgesense_protocol/forgesense_stream.cpp:66-217 | the held bytes stay a correct unfinished frame that leaves room for one more byte, so every buffer write is in bounds |
| ByteDecoders.HeldIsRecent | firmware/components/forgesense_protocol/forgesense_stream.cpp:66-217 | after any input the held bytes are exactly the last bytes of the input |
| ByteDecoders.DeliveredIsRecent | firmware/components/forgesense_protocol/forgesense_stream.cpp:105-129 | a message is delivered only for a valid frame formed by the most recent bytes |
| ByteDecoders.FrameDelivered | firmware/components/forgesense_protocol/forgesense_stream.cpp:66-217 | a valid frame whose start byte begins a frame, also behind stray start bytes, is delivered at precisely its last byte and nothing before |
| ByteDecoders.StartsIff | firmware/components/forgesense_protocol/forgesense_stream.cpp:13-50 | a start byte begins a frame exactly while marker, version or type is due and where the high length byte is due |
| ByteDecoders.RejectedIff | firmware/components/forgesense_protocol/forgesense_stream.cpp:66-217 | a rejection is counted exactly when the bytes behind a whole marker stop being the start of any frame the decoder takes, or are a whole frame that does not parse; the low length byte is judged with the high one |
| ByteDecoders.HostMlFrameDelivered | firmware/components/forgesense_protocol/forgesense_stream.cpp:139-173 | every ML frame the host can encode reaches the firmware's decoder with the host's quantised message |
| ByteDecoders.FixedStreamDecoder.constructor | firmware/components/forgesense_protocol/forgesense_stream.cpp:131-137 | a new decoder holds nothing and has counted nothing |
| ByteDecoders.FixedStreamDecoder.Reset | firmware/components/forgesense_protocol/forgesense_stream.cpp:131-133 | a reset holds nothing and keeps the counters |
| ByteDecoders.FixedStreamDecoder.RestartFrom | firmware/components/forgesense_protocol/forgesense_stream.cpp:13-22 | a restart keeps the byte only as a new start marker |
| ByteDecoders.FixedStreamDecoder.PushPrefix | firmware/components/forgesense_protocol/forgesense_stream.cpp:25-50 | the marker search takes the first two bytes as the step function does and leaves later bytes alone |
| ByteDecoders.FixedStreamDecoder.PushByte | firmware/components/forgesense_protocol/forgesense_stream.cpp:139-217 | the ML and the sensor decoder, in place over their buffers, follow the step function on every input and count its events |
| ByteDecoders.FpgaStreamDecoder.constructor | firmware/components/forgesense_protocol/forgesense_stream.cpp:54-58 | a new decoder holds nothing and has counted nothing |
| ByteDecoders.FpgaStreamDecoder.Reset | firmware/components/forgesense_protocol/forgesense_stream.cpp:54-58 | a reset holds nothing and keeps the counters |
| ByteDecoders.FpgaStreamDecoder.RestartFrom | firmware/components/forgesense_protocol/forgesense_stream.cpp:60-64 | a restart keeps the byte only as a new start marker and forgets type and size |
| ByteDecoders.FpgaStreamDecoder.PushByte | firmware/components/forgesense_protocol/forgesense_stream.cpp:66-129 | the two-message decoder, in place over its buffer, follows the step function on every input and counts its events |
| MaintenanceLink.EncodeFrame | firmware/esp32_calibration_maintenance/main/maintenance_protocol.cpp:49-70 | the in-place encoder refuses exactly oversized payloads and otherwise writes the frame |
| MaintenanceLink.HeldIsRecent | firmware/esp32_calibration_maintenance/main/maintenance_protocol.cpp:85-138 | after any input the parser holds exactly the last bytes of the input, an unfinished frame that leaves room for one more byte |
| MaintenanceLink.ReportedIsRecent | firmware/esp32_calibration_maintenance/main/maintenance_protocol.cpp:118-137 | a frame is reported only when the most recent bytes are its encoding |
| MaintenanceLink.FrameReported | firmware/esp32_calibration_maintenance/main/maintenance_protocol.cpp:85-138 | an encoded frame whose first byte begins a frame is reported at precisely its last byte: encoder and parser are inverse on streams |
| MaintenanceLink.StartTaken | firmware/esp32_calibration_maintenance/main/maintenance_protocol.cpp:77-115 | a first marker byte begins a frame all through the hunt, and where version or high length byte is due |
| MaintenanceLink.DamagedFrameRefused | firmware/esp32_calibration_maintenance/main/maintenance_protocol.cpp:118-137 | a frame with one to four adjacent bytes changed, length and checksum included, is the encoding of no frame at all |
| MaintenanceLink.HuntHoldsLongest | firmware/esp32_calibration_maintenance/main/maintenance_protocol.cpp:77-93 | during the marker hunt the parser holds the longest start of the marker that the input ends with |
| MaintenanceLink.FirstMarkFound | firmware/esp32_calibration_maintenance/main/maintenance_protocol.cpp:77-93 | the hunt ends exactly when the first occurrence of the marker is complete |
| MaintenanceLink.MaintenanceFrameParser.constructor | firmware/esp32_calibration_maintenance/main/maintenance_protocol.cpp:72-75 | a new parser holds nothing |
| MaintenanceLink.MaintenanceFrameParser.Reset | firmware/esp32_calibration_maintenance/main/maintenance_protocol.cpp:72-75 | a reset parser holds nothing |
| MaintenanceLink.MaintenanceFrameParser.RestartWith | firmware/esp32_calibration_maintenance/main/maintenance_protocol.cpp:77-83 | a restart keeps the byte only as a new start of the marker |
| MaintenanceLink.MaintenanceFrameParser.FeedByte | firmware/esp32_calibration_maintenance/main/maintenance_protocol.cpp:85-138 | the parser, in place over its buffer, follows the step function on every input |
| Freshness.NewerIsSerialOrder | protocol/python/forgesense_protocol.py:348-350 | the comparison is the one of section 3.2 of RFC 1982, with the undefined case refused |
| Freshness.HostGate.Accept | protocol/python/forgesense_protocol.py:361-375 | the host gate gives the specified verdict and remembers a sequence exactly when it accepts |
| Freshness.FirmwareGate.Accept | firmware/components/forgesense_protocol/forgesense_stream.cpp:219-242 | the firmware gate gives the specified verdict and remembers a sequence exactly when it accepts |
| Freshness.PassIff | protocol/python/forgesense_protocol.py:361-375 | an observation passes if and only if flag, model, version, schema, age and sequence all check |
| Freshness.RefusalIsTrue | protocol/python/forgesense_protocol.py:361-375 | a refusal names the first check that failed |
| Freshness.GatesAgree | firmware/components/forgesense_protocol/forgesense_stream.cpp:219-242 | host and firmware, each behind its own decoder, give the same verdicts on every run of byte strings |
| Freshness.AcceptedIsChain | protocol/python/forgesense_protocol.py:372-375 | in every run each accepted number is newer than the one accepted before |
| Freshness.ReplayDistance | protocol/python/forgesense_protocol.py:348-375 | accepted numbers lift to a counter that climbs by 1 to 32767, so one is accepted again only after at least two others |
| Freshness.ReplayAfterTwo | protocol/python/forgesense_protocol.py:348-375 | that distance is tight |
| Safety.SafetyController.constructor | simulator/forgesense_sim/closed_loop.py:44-59 | a new controller is in startup with nothing latched and an unused gate |
| Safety.SafetyController.Reset | simulator/forgesense_sim/closed_loop.py:61-67 | a reset restores the initial state, the gate included |
| Safety.SafetyController.Step | simulator/forgesense_sim/closed_loop.py:85-169 | one step moves all registers as the transition function says and reports them |
| Safety.RegistersMean | simulator/forgesense_sim/closed_loop.py:101-122 | over every run the registers hold the latest accepted class, the length of the current silence and the last accepted sequence |
| Safety.LoadAuthority | simulator/forgesense_sim/closed_loop.py:94-169 | in every reachable step load means no emergency, no hard critical limit, no critical latest class and a silence below the watchdog limit, and warning is on exactly for a hard or ML warning |
| SafetyProgress.LoadedIff | simulator/forgesense_sim/closed_loop.py:94-158 | in every reachable step load is on if and only if nothing forbids it and it was on before or startup is done: the converse of LoadAuthority |
| SafetyProgress.StoppedIff | simulator/forgesense_sim/closed_loop.py:123-157 | exactly when FAULT_LATCHED and SHUTDOWN are entered and kept, on what the run has read |
| SafetyProgress.RecoversIff | simulator/forgesense_sim/closed_loop.py:144-158 | exactly when RECOVERY and STARTUP are entered and kept |
| SafetyProgress.RecoveryCompletes | simulator/forgesense_sim/closed_loop.py:142-158 | a request granted in either stopped state is followed two steps later by load when nothing forbids it |
| SafetyProgress.LoadKeepsOn | simulator/forgesense_sim/closed_loop.py:134-143 | a loaded controller stays loaded as long as nothing forbids it |
| SafetyProgress.ChannelDecides | simulator/forgesense_sim/closed_loop.py:69-83 | with the other channels below their limits each channel alone decides the level, at its own limits |
| SafetyProgress.SeverityMonotone | simulator/forgesense_sim/closed_loop.py:69-83 | severity never falls as readings rise, warning excludes critical, an invalid snapshot is critical |
| SafetyProgress.DefaultLimits | simulator/forgesense_sim/closed_loop.py:20-26 | the default limits are ordered and have the stated values |
| Safety.LatchedExactlyInFault | simulator/forgesense_sim/closed_loop.py:123-157 | over every run the latch is set exactly in FAULT_LATCHED |
| Safety.RecoveryHandshake | simulator/forgesense_sim/closed_loop.py:142-158 | without a reset every way from FAULT_LATCHED, or from SHUTDOWN, back to load passes a granted recovery request followed by startup, at least two steps earlier |
| Sensing.IntegerSqrt | firmware/components/forgesense_sensing/forgesense_sensing.cpp:41-57 | for every 64-bit value the bit loop ends without wrap-around with the floor of the square root |
| Sensing.RootUnique | firmware/components/forgesense_sensing/forgesense_sensing.cpp:41-57 | there is only one such root |
| Sensing.RmsBetween | firmware/components/forgesense_sensing/forgesense_sensing.cpp:79-84 | the value of a full window lies between the smallest and the largest absolute sample |
| Sensing.WindowFits | firmware/components/forgesense_sensing/forgesense_sensing.cpp:67-84 | for any 16-bit window length the accumulator fits 64 bits and the result fits 16 bits, so the final clamp never acts |
| Sensing.VibrationRmsWindow.constructor | firmware/components/forgesense_sensing/forgesense_sensing.cpp:59-60 | a window length of zero becomes one |
| Sensing.VibrationRmsWindow.Reset | firmware/components/forgesense_sensing/forgesense_sensing.cpp:62-65 | a reset starts a new window |
| Sensing.VibrationRmsWindow.Ingest | firmware/components/forgesense_sensing/forgesense_sensing.cpp:67-87 | over every run of samples output i is the RMS of exactly the i-th full window, and nothing is lost in between |
| CalibrationTransform.TruncDivMeaning | tools/prepare_approved_calibration_source_change.py:186-191 | the division helper truncates toward zero, as the firmware's operator does |
| CalibrationTransform.CalibrationFits | firmware/components/forgesense_sensing/forgesense_sensing.cpp:21-26 | no intermediate value leaves 64 bits for any raw value and usable coefficients |
| CalibrationTransform.WithinOneUnit | firmware/components/forgesense_sensing/forgesense_sensing.cpp:21-26 | an unsaturated result is within one unit of the exact line, on the side of the offset |
| CalibrationTransform.CalibrationMonotone | firmware/components/forgesense_sensing/forgesense_sensing.cpp:7-39 | with a non-negative gain results never fall as raw values rise, saturated or not |
| CalibrationTransform.RefusalsIff | firmware/components/forgesense_sensing/forgesense_sensing.cpp:7-39 | exactly which inputs are refused or saturated, with which diagnostic and value |
| CalibrationTransform.QuantiseCurrent | tools/prepare_approved_calibration_source_change.py:194-250 | the gate's loop accepts exactly when every retained point is in range and within the policy, and its rows are the candidates |
| CalibrationTransform.GatePassesIff | tools/prepare_approved_calibration_source_change.py:194-250 | the gate's condition written out on the line, the points and the policy |
| CalibrationTransform.FirmwareMatchesIff | firmware/components/forgesense_sensing/forgesense_sensing.cpp:28-38 | the firmware gives the host's integer candidate clamped to 16 bits, and flags saturation exactly when it does not fit |
| CalibrationTransform.ProfileKeepsMeaning | tools/prepare_approved_calibration_source_change.py:209-233 | when the gate passes within 16 bits, the firmware run on the coefficients decoded from the host's blob returns exactly the candidate of every retained point and stays within the policy error of the measured line |

## Left out

- SHA-256, ECDSA verification, DER and key parsing: arbitrary functions and predicates stand for them.
- JSON parsing, canonical JSON, files, fsync, path confinement and schema or authority-flag checks of the `prepare_*` and `verify_*` tools: field comparisons without an invariant. Ledger members that verification does not read are two opaque members of an entry.
- Digests as Unicode text: lower-casing and stripping are modelled for ASCII.
- Signature, git, sdkconfig and source-manifest checks of an authority transition: one flag of the transition package, an arbitrary input.
- firmware/esp32/main/calibration_store_nvs.cpp: the same store algorithm in another namespace.
- `crc32_ieee` of firmware/components/forgesense_sensing/forgesense_calibration.cpp writes the conditional exclusive or as a mask; one loop stands for both CRC-32 loops.
- StoreRecovery.BeginSettles: starts from a closed store on a flash without uncommitted writes, as after power-on; the firmware calls `begin` once per boot. A second begin in one boot is an event of the runs of StoreLife, but CrashAtomicity is not stated from the store it leaves.
- Torn single-key flash writes, and flash calls that corrupt other keys.
- Serial ports, timeouts and retries: a lost answer fails the run, received bytes are inputs. Host runs and firmware meet at the level of frames; the frame parser of commissioning/forgesense_commission/provisioning.py is not part of this model.
- LinkCodecs.HostRoundTrip: real arithmetic stands for binary floating point, with rounding to even at the same place.
- LinkCodecs.MlFramesRoundTrip: the division by 32767 and by 255 is exact real division.
- CalibrationTransform.QuantiseCurrent: the fraction that approximates the slope is an input, not computed by continued fractions; the sorted set of retained points is a sequence; floating point is real arithmetic.
- Quantisation of the temperature channel: gain one, so the same transform with a constant offset.
- Safety.SafetyController.Step: the textual rejection reason is not modelled; thresholds and snapshots are reals.
- ByteDecoders.FixedStreamDecoder.PushByte: one class with a message type parameter stands for the ML and the sensor decoder, which differ in constants only.
- ByteDecoders: after a failed frame the decoders drop the bytes of that frame, so no resynchronisation promise is made for them; the host's decoder has one.
- Cut of power inside the host: a run that never appends its report covers it.
- ProvisioningCycle.ApplyRunFinishes: nothing else talks to the device between the exchanges of the run, because another frame may rightly make it fail; what any interleaving keeps is in Commissioning.
- Crc32Theory.Crc32DetectsBurst: damage of more than four adjacent bytes, which a 32-bit checksum cannot exclude.
- Dashboard, telemetry, simulator plant, ML inference and the small counters and ring buffers.
