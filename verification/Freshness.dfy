/** The serial-number freshness gates of the host and of the firmware. */
module Freshness {
  import opened Bits
  import opened CalibrationRecord
  import opened LinkFrame
  import opened LinkCodecs

  const HALF: int := 0x8000
  const MODULUS: int := 0x1_0000

  /** candidate is ahead of previous by less than half of the 16-bit circle. */
  predicate SequenceIsNewer(candidate: u16, previous: u16)
  {
    var delta := (candidate - previous) % MODULUS;
    0 < delta < HALF
  }

  /** This is the comparison of section 3.2 of RFC 1982 for 16-bit serial numbers; the undefined case is refused. */
  lemma NewerIsSerialOrder(candidate: u16, previous: u16)
    ensures SequenceIsNewer(candidate, previous) <==>
            || (previous < candidate && candidate - previous < HALF)
            || (previous > candidate && previous - candidate > HALF)
  {}

  /** What a gate expects of every observation. */
  datatype Policy = Policy(modelId: u16, modelVersion: u16, schema: u16, maxAge: u16)

  datatype Verdict = Pass | InvalidFlag | WrongModel | WrongVersion | WrongSchema | StaleInference | Replay

  // The host's gate.

  function HostVerdict(p: Policy, last: Option<u16>, sequence: u16, o: HostObservation): Verdict
  {
    if o.flags % 2 == 0 then InvalidFlag
    else if o.modelId != p.modelId then WrongModel
    else if o.modelVersion != p.modelVersion then WrongVersion
    else if o.schema != p.schema then WrongSchema
    else if o.age > p.maxAge then StaleInference
    else if last.Some? && !SequenceIsNewer(sequence, last.value) then Replay
    else Pass
  }

  class HostGate {
    const policy: Policy
    var lastSequence: Option<u16>

    constructor (policy: Policy)
      ensures this.policy == policy && lastSequence == None
    {
      this.policy := policy;
      lastSequence := None;
    }

    method Accept(sequence: u16, o: HostObservation) returns (verdict: Verdict)
      modifies this
      ensures verdict == HostVerdict(policy, old(lastSequence), sequence, o)
      ensures lastSequence == if verdict.Pass? then Some(sequence) else old(lastSequence)
    {
      if o.flags % 2 == 0 { return InvalidFlag; }
      if o.modelId != policy.modelId { return WrongModel; }
      if o.modelVersion != policy.modelVersion { return WrongVersion; }
      if o.schema != policy.schema { return WrongSchema; }
      if o.age > policy.maxAge { return StaleInference; }
      if lastSequence.Some? && !SequenceIsNewer(sequence, lastSequence.value) { return Replay; }
      lastSequence := Some(sequence);
      verdict := Pass;
    }
  }

  // The firmware's gate.

  function FirmwareVerdict(p: Policy, have: bool, last: u16, frame: Stamped<Observation>): Verdict
  {
    var o := frame.message;
    if o.flags % 2 == 0 then InvalidFlag
    else if o.modelId != p.modelId then WrongModel
    else if o.modelVersion != p.modelVersion then WrongVersion
    else if o.schema != p.schema then WrongSchema
    else if o.age > p.maxAge then StaleInference
    else if have && !SequenceIsNewer(frame.sequence, last) then Replay
    else Pass
  }

  class FirmwareGate {
    const policy: Policy
    var haveSequence: bool
    var lastSequence: u16

    constructor (policy: Policy)
      ensures this.policy == policy && !haveSequence && lastSequence == 0
    {
      this.policy := policy;
      haveSequence, lastSequence := false, 0;
    }

    method Accept(frame: Stamped<Observation>) returns (verdict: Verdict)
      modifies this
      ensures verdict == FirmwareVerdict(policy, old(haveSequence), old(lastSequence), frame)
      ensures haveSequence == (verdict.Pass? || old(haveSequence))
      ensures lastSequence == if verdict.Pass? then frame.sequence else old(lastSequence)
    {
      var o := frame.message;
      if o.flags % 2 == 0 { return InvalidFlag; }
      if o.modelId != policy.modelId { return WrongModel; }
      if o.modelVersion != policy.modelVersion { return WrongVersion; }
      if o.schema != policy.schema { return WrongSchema; }
      if o.age > policy.maxAge { return StaleInference; }
      if haveSequence && !SequenceIsNewer(frame.sequence, lastSequence) { return Replay; }
      lastSequence := frame.sequence;
      haveSequence := true;
      verdict := Pass;
    }
  }

  /** When the gate passes an observation, whatever the order of its checks. */
  lemma PassIff(p: Policy, last: Option<u16>, sequence: u16, o: HostObservation)
    ensures HostVerdict(p, last, sequence, o) == Pass <==>
      && o.flags % 2 == 1 && o.modelId == p.modelId && o.modelVersion == p.modelVersion && o.schema == p.schema
      && o.age <= p.maxAge
      && (last.Some? ==> 0 < (sequence - last.value) % 0x1_0000 < 0x8000)
  {}

  /** A refusal names the first check that failed, in the fixed order flag, model, version, schema, age, replay. */
  lemma RefusalIsTrue(p: Policy, last: Option<u16>, sequence: u16, o: HostObservation)
    ensures
      var v := HostVerdict(p, last, sequence, o);
      && (v == InvalidFlag <==> o.flags % 2 == 0)
      && (v == WrongModel ==> o.modelId != p.modelId)
      && (v == WrongVersion ==> o.modelId == p.modelId && o.modelVersion != p.modelVersion)
      && (v == WrongSchema ==> o.modelVersion == p.modelVersion && o.schema != p.schema)
      && (v == StaleInference ==> o.schema == p.schema && o.age > p.maxAge)
      && (v == Replay ==> o.age <= p.maxAge && last.Some? && !SequenceIsNewer(sequence, last.value))
  {}

  // Runs over received byte strings. A string that does not decode never reaches the gate.

  /** The accepted sequence numbers, oldest first, and the verdict on each input. */
  datatype Log = Log(accepted: seq<u16>, verdicts: seq<Option<Verdict>>)

  function LastOf(accepted: seq<u16>): Option<u16>
  {
    if accepted == [] then None else Some(accepted[|accepted| - 1])
  }

  function HostOffer(p: Policy, last: Option<u16>, data: seq<byte>): Option<Verdict>
  {
    match DecodeFrame(data, PROTOCOL_VERSION)
    case None => None
    case Some(f) =>
      match HostDecodeMl(f)
      case None => None
      case Some(o) => Some(HostVerdict(p, last, f.sequence, o))
  }

  /** The sequence number in the header of a byte string. */
  function SequenceOf(data: seq<byte>): u16
  {
    if |data| < HEADER_SIZE then 0 else Read16(data, 4)
  }

  function Noted(log: Log, verdict: Option<Verdict>, data: seq<byte>): Log
  {
    Log(log.accepted + if verdict == Some(Pass) then [SequenceOf(data)] else [], log.verdicts + [verdict])
  }

  function HostRun(p: Policy, inputs: seq<seq<byte>>): Log
  {
    if inputs == [] then Log([], [])
    else
      var log, data := HostRun(p, inputs[..|inputs| - 1]), inputs[|inputs| - 1];
      Noted(log, HostOffer(p, LastOf(log.accepted), data), data)
  }

  function FirmwareOffer(p: Policy, have: bool, last: u16, data: seq<byte>): Option<Verdict>
  {
    match ParseMl(data)
    case Refused(_) => None
    case Accepted(frame) => Some(FirmwareVerdict(p, have, last, frame))
  }

  /** The firmware's run keeps the two gate fields and the log. */
  datatype FirmwareState = FirmwareState(have: bool, last: u16, log: Log)

  function FirmwareRun(p: Policy, inputs: seq<seq<byte>>): FirmwareState
  {
    if inputs == [] then FirmwareState(false, 0, Log([], []))
    else
      var s, data := FirmwareRun(p, inputs[..|inputs| - 1]), inputs[|inputs| - 1];
      var verdict := FirmwareOffer(p, s.have, s.last, data);
      var pass := verdict == Some(Pass);
      FirmwareState(s.have || pass, if pass then SequenceOf(data) else s.last, Noted(s.log, verdict, data))
  }

  lemma OffersAgree(p: Policy, last: Option<u16>, data: seq<byte>)
    ensures HostOffer(p, last, data) == FirmwareOffer(p, last.Some?, if last.Some? then last.value else 0, data)
  {
    hide DecodeFrame, ParseMl, HostDecodeMl;
    DecodersAgree(data);
  }

  /** Host and firmware decide alike on every run, and agree on the last accepted sequence number. */
  lemma {:induction false} GatesAgree(p: Policy, inputs: seq<seq<byte>>)
    ensures
      var s := FirmwareRun(p, inputs);
      && s.log == HostRun(p, inputs)
      && LastOf(s.log.accepted) == if s.have then Some(s.last) else None
  {
    hide HostOffer, FirmwareOffer, SequenceOf;
    if inputs != [] {
      var front, data := inputs[..|inputs| - 1], inputs[|inputs| - 1];
      GatesAgree(p, front);
      OffersAgree(p, LastOf(HostRun(p, front).accepted), data);
      LastMatters(p, FirmwareRun(p, front).last, data);
    }
  }

  lemma LastMatters(p: Policy, last: u16, data: seq<byte>)
    ensures FirmwareOffer(p, false, last, data) == FirmwareOffer(p, false, 0, data)
  {
    hide ParseMl;
  }

  // Replay distance.

  predicate Chain(accepted: seq<u16>)
  {
    forall i :: 0 < i < |accepted| ==> SequenceIsNewer(accepted[i], accepted[i - 1])
  }

  /** Each accepted number is newer than the one accepted before it. */
  lemma {:induction false} AcceptedIsChain(p: Policy, inputs: seq<seq<byte>>)
    ensures Chain(HostRun(p, inputs).accepted)
  {
    hide HostOffer, SequenceOf;
    if inputs != [] {
      var front, data := inputs[..|inputs| - 1], inputs[|inputs| - 1];
      AcceptedIsChain(p, front);
      var last := LastOf(HostRun(p, front).accepted);
      if HostOffer(p, last, data) == Some(Pass) { PassIsNewer(p, last, data); }
    }
  }

  lemma PassIsNewer(p: Policy, last: Option<u16>, data: seq<byte>)
    requires HostOffer(p, last, data) == Some(Pass)
    ensures last.Some? ==> SequenceIsNewer(SequenceOf(data), last.value)
  {
    hide FromLe;
  }

  /** The unbounded counter behind the accepted 16-bit numbers. */
  function Lift(accepted: seq<u16>, i: nat): int
    requires i < |accepted|
  {
    if i == 0 then accepted[0] else Lift(accepted, i - 1) + (accepted[i] - accepted[i - 1]) % MODULUS
  }

  lemma {:induction false} LiftCounts(accepted: seq<u16>, i: nat)
    requires Chain(accepted) && i < |accepted|
    ensures Lift(accepted, i) % MODULUS == accepted[i]
    ensures i > 0 ==> 1 <= Lift(accepted, i) - Lift(accepted, i - 1) <= 32767
  {
    if i > 0 {
      LiftCounts(accepted, i - 1);
      assert SequenceIsNewer(accepted[i], accepted[i - 1]);
      StepModulo(Lift(accepted, i - 1), accepted[i - 1], accepted[i]);
    }
  }

  lemma StepModulo(c: int, a: u16, b: u16)
    requires c % MODULUS == a
    ensures (c + (b - a) % MODULUS) % MODULUS == b
  {
    var q := c / MODULUS;
    assert c == MODULUS * q + a;
    var d := (b - a) % MODULUS;
    assert d == b - a || d == b - a + MODULUS;
    if d == b - a { RemainderOf(MODULUS * q + b, q, b); } else { RemainderOf(MODULUS * (q + 1) + b, q + 1, b); }
  }

  lemma RemainderOf(x: int, q: int, r: int)
    requires x == MODULUS * q + r && 0 <= r < MODULUS
    ensures x % MODULUS == r
  {}

  lemma {:induction false} LiftClimbs(accepted: seq<u16>, i: nat, j: nat)
    requires Chain(accepted) && i <= j < |accepted|
    ensures j - i <= Lift(accepted, j) - Lift(accepted, i) <= 32767 * (j - i)
    decreases j - i
  {
    if i < j {
      LiftClimbs(accepted, i, j - 1);
      LiftCounts(accepted, j);
    }
  }

  /**
   * Over every run the accepted numbers are the low halves of a counter that climbs by 1 to 32767 at each acceptance,
   * so a number is accepted again only after at least two other acceptances.
   */
  lemma ReplayDistance(p: Policy, inputs: seq<seq<byte>>, i: nat, j: nat)
    requires i < j < |HostRun(p, inputs).accepted|
    ensures
      var accepted := HostRun(p, inputs).accepted;
      && Lift(accepted, i) % MODULUS == accepted[i] && Lift(accepted, j) % MODULUS == accepted[j]
      && j - i <= Lift(accepted, j) - Lift(accepted, i) <= 32767 * (j - i)
      && (accepted[i] == accepted[j] ==> j - i >= 3)
  {
    hide HostRun;
    var accepted := HostRun(p, inputs).accepted;
    AcceptedIsChain(p, inputs);
    LiftCounts(accepted, i);
    LiftCounts(accepted, j);
    LiftClimbs(accepted, i, j);
    if accepted[i] == accepted[j] { SameRemainder(Lift(accepted, i), Lift(accepted, j)); }
  }

  lemma SameRemainder(a: int, b: int)
    requires a < b && a % MODULUS == b % MODULUS
    ensures b - a >= MODULUS
  {}

  /** An observation that passes every check but the sequence comparison. */
  const USUAL := Observation(1, 1, 1, 1, 0, 0, 0, 0)

  const USUAL_POLICY := Policy(1, 1, 1, 1500)

  /** The distance is tight: two other acceptances are enough. */
  lemma ReplayAfterTwo()
    ensures
      var inputs := [MlBytes(USUAL, 0, 0), MlBytes(USUAL, 32767, 0), MlBytes(USUAL, 65534, 0), MlBytes(USUAL, 0, 0)];
      HostRun(USUAL_POLICY, inputs).accepted == [0, 32767, 65534, 0]
  {
    hide HostRun, MlBytes, Noted;
    RunOfNothing();
    var a, b, c := MlBytes(USUAL, 0, 0), MlBytes(USUAL, 32767, 0), MlBytes(USUAL, 65534, 0);
    UsualStep([], [a], [], 0);
    UsualStep([a], [a, b], [0], 32767);
    UsualStep([a, b], [a, b, c], [0, 32767], 65534);
    UsualStep([a, b, c], [a, b, c, a], [0, 32767, 65534], 0);
  }

  /** One more usual observation with a newer sequence number is accepted. */
  lemma UsualStep(inputs: seq<seq<byte>>, more: seq<seq<byte>>, accepted: seq<u16>, sequence: u16)
    requires more == inputs + [MlBytes(USUAL, sequence, 0)] && HostRun(USUAL_POLICY, inputs).accepted == accepted
    requires accepted != [] ==> SequenceIsNewer(sequence, accepted[|accepted| - 1])
    ensures HostRun(USUAL_POLICY, more).accepted == accepted + [sequence]
  {
    hide MlBytes, HostRun, HostOffer, SequenceOf;
    UsualOffer(LastOf(HostRun(USUAL_POLICY, inputs).accepted), sequence);
    RunStep(inputs, MlBytes(USUAL, sequence, 0));
  }

  lemma RunOfNothing()
    ensures HostRun(USUAL_POLICY, []) == Log([], [])
  {}

  lemma RunStep(inputs: seq<seq<byte>>, data: seq<byte>)
    ensures
      var log := HostRun(USUAL_POLICY, inputs);
      HostRun(USUAL_POLICY, inputs + [data]) == Noted(log, HostOffer(USUAL_POLICY, LastOf(log.accepted), data), data)
  {
    assert (inputs + [data])[..|inputs|] == inputs;
  }

  lemma UsualOffer(last: Option<u16>, sequence: u16)
    requires last.Some? ==> SequenceIsNewer(sequence, last.value)
    ensures
      var data := MlBytes(USUAL, sequence, 0);
      HostOffer(USUAL_POLICY, last, data) == Some(Pass) && SequenceOf(data) == sequence
  {
    hide MlBytes, DecodeFrame, ParseMl, ValidateCommon, HostDecodeMl, FromLe;
    var data := MlBytes(USUAL, sequence, 0);
    FirmwareFrameParses(USUAL, sequence, 0);
    OffersAgree(USUAL_POLICY, last, data);
    CommonIsDecode(data, ML_OBSERVATION, ML_PAYLOAD);
    DecodersAgree(data);
  }
}
