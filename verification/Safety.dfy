/** The cycle-level safety controller: watchdog, latched ML class, load authority and the recovery handshake. */
module Safety {
  import opened Bits
  import opened CalibrationRecord
  import opened LinkFrame
  import opened LinkCodecs
  import opened Freshness

  datatype State = Startup | Run | Warned | Shutdown | FaultLatched | Recovery

  datatype Thresholds = Thresholds(
    tempWarn: real, tempCrit: real, vibrationWarn: real, vibrationCrit: real, currentWarn: real, currentCrit: real)

  datatype Snapshot = Snapshot(allValid: bool, temperature: real, vibration: real, current: real)

  /** What one step reads. */
  datatype Inputs = Inputs(
    snapshot: Snapshot, startupDone: bool, emergency: bool, mlFrame: Option<seq<byte>>, recoveryReq: bool)

  datatype Controller = Controller(
    state: State, latched: bool, sinceKick: nat, haveMl: bool, lastHealth: Health, lastSequence: Option<u16>)

  datatype Output = Output(
    state: State, loadEnable: bool, warningActive: bool, faultLatched: bool, hardWarning: bool, hardCritical: bool,
    acceptedMl: bool)

  /** The thresholds and the watchdog limit, at least one step. */
  datatype Config = Config(limits: Thresholds, timeout: nat)

  const POLICY := Policy(1, 1, 1, 1500)

  const FRESH := Controller(Startup, false, 0, false, Health.Abstain, None)

  predicate HardCritical(t: Thresholds, s: Snapshot)
  {
    !s.allValid || s.temperature >= t.tempCrit || s.vibration >= t.vibrationCrit || s.current >= t.currentCrit
  }

  predicate HardWarning(t: Thresholds, s: Snapshot)
  {
    && s.allValid && !HardCritical(t, s)
    && (s.temperature >= t.tempWarn || s.vibration >= t.vibrationWarn || s.current >= t.currentWarn)
  }

  /** The observation that the gate accepts in this step, with its sequence number. */
  function Taken(last: Option<u16>, e: Inputs): Option<(u16, Health)>
  {
    if e.mlFrame == None then None
    else
      match DecodeFrame(e.mlFrame.value, PROTOCOL_VERSION)
      case None => None
      case Some(f) =>
        match HostDecodeMl(f)
        case None => None
        case Some(o) => if HostVerdict(POLICY, last, f.sequence, o) == Pass then Some((f.sequence, o.health)) else None
  }

  /** The state after the class and the watchdog have been brought up to date. */
  function NextState(c: Controller, e: Inputs, hardWarning: bool, hardCritical: bool, timeout: bool): State
  {
    var mlWarning := c.haveMl && c.lastHealth == Health.Warning;
    var mlCritical := c.haveMl && c.lastHealth == Health.Critical;
    if e.emergency || hardCritical then FaultLatched
    else
      match c.state
      case Startup =>
        if timeout || mlCritical then Shutdown
        else if e.startupDone then (if hardWarning || mlWarning then Warned else Run)
        else Startup
      case Run =>
        if timeout || mlCritical then Shutdown else if hardWarning || mlWarning then Warned else Run
      case Warned =>
        if timeout || mlCritical then Shutdown else if !hardWarning && !mlWarning then Run else Warned
      case Shutdown =>
        if e.recoveryReq && !timeout && !hardWarning && !hardCritical && !mlCritical then Recovery else Shutdown
      case FaultLatched =>
        if e.recoveryReq && !e.emergency && !hardCritical then Recovery else FaultLatched
      case Recovery => Startup
  }

  /** The registers other than the state, after a step's inputs have been read. */
  function Refreshed(c: Controller, e: Inputs): Controller
  {
    var taken := Taken(c.lastSequence, e);
    c.(haveMl := c.haveMl || taken.Some?,
       lastHealth := if taken.Some? then taken.value.1 else c.lastHealth,
       lastSequence := if taken.Some? then Some(taken.value.0) else c.lastSequence,
       sinceKick := if !e.startupDone || taken.Some? then 0 else c.sinceKick + 1)
  }

  predicate TimedOut(g: Config, c: Controller, e: Inputs)
  {
    e.startupDone && Taken(c.lastSequence, e) == None && c.sinceKick + 1 >= g.timeout
  }

  function Next(g: Config, c: Controller, e: Inputs): Controller
  {
    var r := Refreshed(c, e);
    var critical := HardCritical(g.limits, e.snapshot);
    var state := NextState(r, e, HardWarning(g.limits, e.snapshot), critical, TimedOut(g, c, e));
    r.(state := state,
       latched := if e.emergency || critical then true
                  else if c.state == FaultLatched && state == Recovery then false
                  else c.latched)
  }

  predicate Loaded(s: State)
  {
    s == Run || s == Warned
  }

  class SafetyController {
    const config: Config
    const gate: HostGate
    var state: State
    var latched: bool
    var stepsSinceKick: nat
    var haveMl: bool
    var lastMlHealth: Health

    ghost function Now(): Controller
      reads this, gate
    {
      Controller(state, latched, stepsSinceKick, haveMl, lastMlHealth, gate.lastSequence)
    }

    ghost predicate Valid()
    {
      gate.policy == POLICY
    }

    constructor (config: Config)
      requires config.timeout >= 1
      ensures Valid() && Now() == FRESH && fresh(gate) && this.config == config
    {
      this.config := config;
      gate := new HostGate(POLICY);
      state, latched, stepsSinceKick := Startup, false, 0;
      haveMl, lastMlHealth := false, Health.Abstain;
    }

    method Reset()
      modifies this, gate
      ensures Now() == FRESH
    {
      state, latched, stepsSinceKick := Startup, false, 0;
      haveMl, lastMlHealth := false, Health.Abstain;
      gate.lastSequence := None;
    }

    method TakeMl(e: Inputs) returns (accepted: bool)
      requires Valid()
      modifies this`haveMl, this`lastMlHealth, gate
      ensures accepted == Taken(old(gate.lastSequence), e).Some?
      ensures haveMl == (old(haveMl) || accepted)
      ensures lastMlHealth == if accepted then Taken(old(gate.lastSequence), e).value.1 else old(lastMlHealth)
      ensures gate.lastSequence ==
              if accepted then Some(Taken(old(gate.lastSequence), e).value.0) else old(gate.lastSequence)
    {
      hide DecodeFrame, HostDecodeMl;
      if e.mlFrame == None { return false; }
      var frame := DecodeFrame(e.mlFrame.value, PROTOCOL_VERSION);
      if frame == None { return false; }
      var observation := HostDecodeMl(frame.value);
      if observation == None { return false; }
      var verdict := gate.Accept(frame.value.sequence, observation.value);
      accepted := verdict == Pass;
      if accepted {
        haveMl := true;
        lastMlHealth := observation.value.health;
      }
    }

    method Step(e: Inputs) returns (out: Output)
      requires Valid()
      modifies this, gate
      ensures Now() == Next(config, old(Now()), e)
      ensures out.state == state && out.loadEnable == Loaded(state) && out.warningActive == state.Warned?
      ensures out.faultLatched == latched && out.acceptedMl == Taken(old(gate.lastSequence), e).Some?
      ensures out.hardWarning == HardWarning(config.limits, e.snapshot)
      ensures out.hardCritical == HardCritical(config.limits, e.snapshot)
    {
      hide Taken, HardWarning, HardCritical, NextState;
      ghost var c := Now();
      var hardWarning, hardCritical := HardWarning(config.limits, e.snapshot), HardCritical(config.limits, e.snapshot);
      var accepted := TakeMl(e);
      var timeout := false;
      if !e.startupDone || accepted {
        stepsSinceKick := 0;
      } else {
        stepsSinceKick := stepsSinceKick + 1;
        timeout := stepsSinceKick >= config.timeout;
      }
      assert Now() == Refreshed(c, e) && timeout == TimedOut(config, c, e);
      Move(e, hardWarning, hardCritical, timeout);
      out := Output(state, Loaded(state), state == Warned, latched, hardWarning, hardCritical, accepted);
    }

    method Move(e: Inputs, hardWarning: bool, hardCritical: bool, timeout: bool)
      modifies this`state, this`latched
      ensures state == NextState(old(Now()), e, hardWarning, hardCritical, timeout)
      ensures latched == if e.emergency || hardCritical then true
                         else if old(state) == FaultLatched && state == Recovery then false
                         else old(latched)
    {
      var mlWarning := haveMl && lastMlHealth == Health.Warning;
      var mlCritical := haveMl && lastMlHealth == Health.Critical;
      if e.emergency || hardCritical {
        state := FaultLatched;
        latched := true;
      } else if state == Startup {
        if timeout || mlCritical {
          state := Shutdown;
        } else if e.startupDone {
          state := if hardWarning || mlWarning then Warned else Run;
        }
      } else if state == Run {
        if timeout || mlCritical { state := Shutdown; } else if hardWarning || mlWarning { state := Warned; }
      } else if state == Warned {
        if timeout || mlCritical { state := Shutdown; } else if !hardWarning && !mlWarning { state := Run; }
      } else if state == Shutdown {
        if e.recoveryReq && !timeout && !hardWarning && !hardCritical && !mlCritical { state := Recovery; }
      } else if state == FaultLatched {
        if e.recoveryReq && !e.emergency && !hardCritical {
          latched := false;
          state := Recovery;
        }
      } else {
        state := Startup;
      }
    }
  }

  // Runs without a reset.

  function After(g: Config, run: seq<Inputs>): Controller
  {
    if run == [] then FRESH else Next(g, After(g, run[..|run| - 1]), run[|run| - 1])
  }

  // What the registers mean, defined on the inputs alone.

  /** The ML byte strings offered so far. */
  function Offered(run: seq<Inputs>): seq<seq<byte>>
  {
    if run == [] then []
    else
      var e := run[|run| - 1];
      Offered(run[..|run| - 1]) + if e.mlFrame.Some? then [e.mlFrame.value] else []
  }

  /** The observation accepted in the last step, by a gate that has seen everything offered before. */
  function TakenLast(run: seq<Inputs>): Option<(u16, Health)>
    requires run != []
  {
    Taken(LastOf(HostRun(POLICY, Offered(run[..|run| - 1])).accepted), run[|run| - 1])
  }

  /** The class of the latest accepted observation. */
  function LatestClass(run: seq<Inputs>): Option<Health>
  {
    if run == [] then None
    else if TakenLast(run).Some? then Some(TakenLast(run).value.1)
    else LatestClass(run[..|run| - 1])
  }

  /** How many of the latest steps, in a row, had startup done and no accepted observation. */
  function Silence(run: seq<Inputs>): nat
  {
    if run == [] || !run[|run| - 1].startupDone || TakenLast(run).Some? then 0 else 1 + Silence(run[..|run| - 1])
  }

  lemma TakenIsPass(log: Log, e: Inputs)
    requires e.mlFrame.Some?
    ensures
      var last := LastOf(log.accepted);
      var data := e.mlFrame.value;
      var noted := Noted(log, HostOffer(POLICY, last, data), data);
      LastOf(noted.accepted) == if Taken(last, e).Some? then Some(Taken(last, e).value.0) else last
  {
    hide FromLe, HostDecodeMl;
  }

  /** The registers hold what their definitions on the inputs say, over every run. */
  lemma {:induction false} RegistersMean(g: Config, run: seq<Inputs>)
    ensures
      var c := After(g, run);
      && c.lastSequence == LastOf(HostRun(POLICY, Offered(run)).accepted)
      && LatestClass(run) == (if c.haveMl then Some(c.lastHealth) else None)
      && Silence(run) == c.sinceKick
  {
    hide Taken, HostOffer, Noted, NextState;
    if run != [] {
      var front, e := run[..|run| - 1], run[|run| - 1];
      RegistersMean(g, front);
      if e.mlFrame.Some? {
        var log, data := HostRun(POLICY, Offered(front)), e.mlFrame.value;
        TakenIsPass(log, e);
        assert Offered(run)[..|Offered(run)| - 1] == Offered(front);
      } else {
        assert Taken(After(g, front).lastSequence, e) == None by { NothingTaken(After(g, front).lastSequence, e); }
        assert Offered(run) == Offered(front);
      }
    }
  }

  lemma NothingTaken(last: Option<u16>, e: Inputs)
    requires e.mlFrame == None
    ensures Taken(last, e) == None
  {}

  // Load authority.

  lemma LoadStep(g: Config, c: Controller, e: Inputs)
    requires Loaded(Next(g, c, e).state)
    ensures
      var d := Next(g, c, e);
      && !e.emergency && !HardCritical(g.limits, e.snapshot)
      && !(d.haveMl && d.lastHealth == Health.Critical) && !TimedOut(g, c, e)
      && (d.state == Warned <==> HardWarning(g.limits, e.snapshot) || (d.haveMl && d.lastHealth == Health.Warning))
  {
    hide Taken, HardCritical, HardWarning;
  }

  /**
   * In every reachable step: the load is on only with no emergency, no hard critical limit, a latest accepted ML class
   * that is not critical and a silence shorter than the watchdog limit; and while it is on, the warning state is on
   * exactly when a hard or a latest ML warning holds.
   */
  lemma LoadAuthority(g: Config, run: seq<Inputs>)
    requires run != [] && g.timeout >= 1 && Loaded(After(g, run).state)
    ensures
      var e := run[|run| - 1];
      && !e.emergency && !HardCritical(g.limits, e.snapshot)
      && LatestClass(run) != Some(Health.Critical) && Silence(run) < g.timeout
      && (After(g, run).state == Warned <==>
          HardWarning(g.limits, e.snapshot) || LatestClass(run) == Some(Health.Warning))
  {
    hide Next, LatestClass, Silence, HardCritical, HardWarning, TimedOut;
    var front, e := run[..|run| - 1], run[|run| - 1];
    var c := After(g, front);
    LoadStep(g, c, e);
    RegistersMean(g, run);
    KickCount(g, c, e);
    assert After(g, run) == Next(g, c, e);
  }

  lemma KickCount(g: Config, c: Controller, e: Inputs)
    requires g.timeout >= 1 && !TimedOut(g, c, e)
    ensures Next(g, c, e).sinceKick < g.timeout
  {
    hide Taken;
  }

  // The latch and the recovery handshake.

  lemma {:induction false} LatchedExactlyInFault(g: Config, run: seq<Inputs>)
    ensures After(g, run).latched <==> After(g, run).state == FaultLatched
  {
    hide Taken, HardCritical, HardWarning;
    if run != [] { LatchedExactlyInFault(g, run[..|run| - 1]); }
  }

  /** The state after step i of a run. */
  function StateAfter(g: Config, run: seq<Inputs>, i: nat): State
    requires i < |run|
  {
    After(g, run[..i + 1]).state
  }

  predicate Stopped(s: State, shutdownToo: bool)
  {
    s == FaultLatched || (shutdownToo && s == Shutdown)
  }

  /** Step k is a granted recovery request in a stopped state, and startup follows. */
  predicate Handshake(g: Config, run: seq<Inputs>, k: nat, shutdownToo: bool)
  {
    && 0 < k && k + 1 < |run|
    && Stopped(StateAfter(g, run, k - 1), shutdownToo) && StateAfter(g, run, k) == Recovery
    && Granted(g, run[k]) && StateAfter(g, run, k + 1) == Startup
  }

  predicate Granted(g: Config, e: Inputs)
  {
    e.recoveryReq && !e.emergency && !HardCritical(g.limits, e.snapshot)
  }

  ghost predicate HandshakeWithin(g: Config, run: seq<Inputs>, i: nat, j: nat, shutdownToo: bool)
  {
    exists k: nat :: i < k < j && Handshake(g, run, k, shutdownToo)
  }

  /** Where one step can lead. */
  lemma Moves(g: Config, run: seq<Inputs>, j: nat)
    requires 0 < j < |run|
    ensures
      var s, t := StateAfter(g, run, j - 1), StateAfter(g, run, j);
      && (s == FaultLatched ==> t == FaultLatched || (t == Recovery && Granted(g, run[j])))
      && (s == Shutdown ==> t == FaultLatched || t == Shutdown || (t == Recovery && Granted(g, run[j])))
      && (s == Recovery ==> t == FaultLatched || t == Startup)
      && (Loaded(s) || s == Startup ==> t != Recovery)
      && (Loaded(t) ==> Loaded(s) || s == Startup)
  {
    hide Taken, HardCritical, HardWarning;
    assert run[..j + 1][..j] == run[..j];
    assert run[..j] == run[..(j - 1) + 1];
  }

  /** From a stopped state, anything but a stopped state or recovery is reached only through a handshake. */
  lemma {:induction false} OnlyThroughHandshake(g: Config, run: seq<Inputs>, i: nat, j: nat, both: bool)
    requires i < j < |run| && Stopped(StateAfter(g, run, i), both)
    ensures
      var t := StateAfter(g, run, j);
      && (!Stopped(t, both) && t != Recovery ==> HandshakeWithin(g, run, i, j, both))
      && (t == Recovery ==>
            HandshakeWithin(g, run, i, j, both) || (Granted(g, run[j]) && Stopped(StateAfter(g, run, j - 1), both)))
    decreases j
  {
    hide StateAfter, Granted, After;
    Moves(g, run, j);
    if i + 1 < j {
      OnlyThroughHandshake(g, run, i, j - 1, both);
      if HandshakeWithin(g, run, i, j - 1, both) {
        var k: nat :| i < k < j - 1 && Handshake(g, run, k, both);
        assert HandshakeWithin(g, run, i, j, both);
      } else if StateAfter(g, run, j - 1) == Recovery && StateAfter(g, run, j) == Startup {
        Moves(g, run, j - 1);
        assert Handshake(g, run, j - 1, both);
      }
    }
  }

  /**
   * Without a reset, from FAULT_LATCHED at step i to load at step j leads only a step k, i < k <= j - 2, that had a
   * recovery request with neither emergency nor hard critical limit and moved FAULT_LATCHED to RECOVERY, followed by
   * STARTUP; from SHUTDOWN likewise, where the request may be granted in SHUTDOWN or in FAULT_LATCHED.
   */
  lemma RecoveryHandshake(g: Config, run: seq<Inputs>, i: nat, j: nat, shutdownToo: bool)
    requires i < j < |run|
    requires Stopped(StateAfter(g, run, i), shutdownToo) && Loaded(StateAfter(g, run, j))
    ensures exists k: nat :: i < k <= j - 2 && Handshake(g, run, k, shutdownToo)
  {
    hide StateAfter, Granted, After;
    OnlyThroughHandshake(g, run, i, j, shutdownToo);
    var k: nat :| i < k < j && Handshake(g, run, k, shutdownToo);
    assert StateAfter(g, run, k + 1) == Startup;
  }
}
