/** When the safety controller changes state, on what it has read: every state, in both directions, over every run. */
module SafetyProgress {
  import opened CalibrationRecord
  import opened LinkCodecs
  import opened Safety

  /** The limits a controller has unless it is given others. */
  const DEFAULT_LIMITS := Thresholds(65.0, 80.0, 0.6, 1.0, 2.5, 3.2)

  /** Every warning limit lies at or below its critical limit. */
  predicate Ordered(t: Thresholds)
  {
    t.tempWarn <= t.tempCrit && t.vibrationWarn <= t.vibrationCrit && t.currentWarn <= t.currentCrit
  }

  /** While the two other channels are below their warning limits, each channel alone decides the level. */
  lemma ChannelDecides(t: Thresholds, s: Snapshot)
    requires Ordered(t) && s.allValid
    ensures s.vibration < t.vibrationWarn && s.current < t.currentWarn ==>
      && (HardCritical(t, s) <==> t.tempCrit <= s.temperature)
      && (HardWarning(t, s) <==> t.tempWarn <= s.temperature < t.tempCrit)
    ensures s.temperature < t.tempWarn && s.current < t.currentWarn ==>
      && (HardCritical(t, s) <==> t.vibrationCrit <= s.vibration)
      && (HardWarning(t, s) <==> t.vibrationWarn <= s.vibration < t.vibrationCrit)
    ensures s.temperature < t.tempWarn && s.vibration < t.vibrationWarn ==>
      && (HardCritical(t, s) <==> t.currentCrit <= s.current)
      && (HardWarning(t, s) <==> t.currentWarn <= s.current < t.currentCrit)
  {}

  /** How severe a snapshot is: 0 below every limit, 1 for a warning, 2 for critical. */
  function Severity(t: Thresholds, s: Snapshot): nat
  {
    if HardCritical(t, s) then 2 else if HardWarning(t, s) then 1 else 0
  }

  /** Severity never falls as readings rise, warning and critical exclude each other, and an invalid snapshot is critical. */
  lemma SeverityMonotone(t: Thresholds, s: Snapshot, s': Snapshot)
    requires s.temperature <= s'.temperature && s.vibration <= s'.vibration && s.current <= s'.current
    requires s'.allValid ==> s.allValid
    ensures Severity(t, s) <= Severity(t, s') && !(HardWarning(t, s) && HardCritical(t, s))
    ensures !s.allValid ==> Severity(t, s) == 2
  {}

  /** The default limits in numbers. */
  lemma DefaultLimits(s: Snapshot)
    ensures Ordered(DEFAULT_LIMITS)
    ensures Severity(DEFAULT_LIMITS, s) ==
      if !s.allValid || s.temperature >= 80.0 || s.vibration >= 1.0 || s.current >= 3.2 then 2
      else if s.temperature >= 65.0 || s.vibration >= 0.6 || s.current >= 2.5 then 1
      else 0
  {}

  // One step, on the registers.

  /** The watchdog condition of a step, on the count the step leaves. */
  lemma TimedOutIff(g: Config, c: Controller, e: Inputs)
    requires g.timeout >= 1
    ensures TimedOut(g, c, e) <==> Next(g, c, e).sinceKick >= g.timeout
  {
    hide Taken, HardCritical, HardWarning, NextState;
  }

  /** Nothing stops the load in this step: no emergency, no hard critical limit. */
  predicate Undisturbed(g: Config, e: Inputs)
  {
    !e.emergency && !HardCritical(g.limits, e.snapshot)
  }

  /** The latest class and the silence leave the link in order. */
  predicate LinkInOrder(g: Config, run: seq<Inputs>)
  {
    LatestClass(run) != Some(Health.Critical) && Silence(run) < g.timeout
  }

  /** The state before the last step. */
  function Before(g: Config, run: seq<Inputs>): State
    requires run != []
  {
    After(g, run[..|run| - 1]).state
  }

  /** A step's registers, read as definitions on the inputs. */
  lemma LastStep(g: Config, run: seq<Inputs>)
    requires run != [] && g.timeout >= 1
    ensures
      var c, e := After(g, run[..|run| - 1]), run[|run| - 1];
      var d := Next(g, c, e);
      && After(g, run) == d
      && (LatestClass(run) == Some(Health.Critical) <==> d.haveMl && d.lastHealth == Health.Critical)
      && (LatestClass(run) == Some(Health.Warning) <==> d.haveMl && d.lastHealth == Health.Warning)
      && (Silence(run) >= g.timeout <==> TimedOut(g, c, e))
  {
    hide Next, LatestClass, Silence, TimedOut;
    RegistersMean(g, run);
    TimedOutIff(g, After(g, run[..|run| - 1]), run[|run| - 1]);
  }

  lemma ClassKept(g: Config, c: Controller, e: Inputs)
    ensures Next(g, c, e).haveMl == Refreshed(c, e).haveMl && Next(g, c, e).lastHealth == Refreshed(c, e).lastHealth
    ensures Next(g, c, e).state ==
      NextState(Refreshed(c, e), e, HardWarning(g.limits, e.snapshot), HardCritical(g.limits, e.snapshot), TimedOut(g, c, e))
    ensures Refreshed(c, e).state == c.state
  {
    hide Taken, NextState, TimedOut;
  }

  /**
   * Load in both directions. After any run with one step more the load is on if and only if that step has no emergency
   * and no hard critical limit, the latest accepted class is not critical, the silence is below the watchdog limit, and
   * the load was on before or the controller was in startup and startup is done. The warning state then shows exactly a
   * hard or a latest ML warning.
   */
  lemma LoadedIff(g: Config, run: seq<Inputs>)
    requires run != [] && g.timeout >= 1
    ensures
      var s, t, e := Before(g, run), After(g, run).state, run[|run| - 1];
      Loaded(t) <==>
        && !e.emergency && !HardCritical(g.limits, e.snapshot)
        && LatestClass(run) != Some(Health.Critical) && Silence(run) < g.timeout
        && (Loaded(s) || (s == Startup && e.startupDone))
    ensures Loaded(After(g, run).state) ==>
      (After(g, run).state == Warned <==>
        HardWarning(g.limits, run[|run| - 1].snapshot) || LatestClass(run) == Some(Health.Warning))
  {
    hide Next, LatestClass, Silence, HardCritical, HardWarning, TimedOut, Refreshed;
    LastStep(g, run);
    ClassKept(g, After(g, run[..|run| - 1]), run[|run| - 1]);
  }

  /**
   * When the controller stops. SHUTDOWN is entered from load or startup exactly on a critical latest class or a silence
   * at the limit, and left only to a fault or by a granted request in order; FAULT_LATCHED is entered from every state
   * exactly on an emergency or a hard critical limit, and left only by a request without either.
   */
  lemma StoppedIff(g: Config, run: seq<Inputs>)
    requires run != [] && g.timeout >= 1
    ensures
      var s, t, e := Before(g, run), After(g, run).state, run[|run| - 1];
      t == FaultLatched <==> e.emergency || HardCritical(g.limits, e.snapshot) || (s == FaultLatched && !e.recoveryReq)
    ensures
      var s, t, e := Before(g, run), After(g, run).state, run[|run| - 1];
      t == Shutdown <==>
        && !e.emergency && !HardCritical(g.limits, e.snapshot)
        && if s == Shutdown then
             !(e.recoveryReq && !HardWarning(g.limits, e.snapshot)
               && LatestClass(run) != Some(Health.Critical) && Silence(run) < g.timeout)
           else
             (Loaded(s) || s == Startup) && (LatestClass(run) == Some(Health.Critical) || Silence(run) >= g.timeout)
  {
    hide Next, LatestClass, Silence, HardCritical, HardWarning, TimedOut, Refreshed;
    LastStep(g, run);
    ClassKept(g, After(g, run[..|run| - 1]), run[|run| - 1]);
  }

  /** When the controller recovers and starts up. */
  lemma RecoversIff(g: Config, run: seq<Inputs>)
    requires run != [] && g.timeout >= 1
    ensures
      var s, t, e := Before(g, run), After(g, run).state, run[|run| - 1];
      t == Recovery <==>
        && e.recoveryReq && !e.emergency && !HardCritical(g.limits, e.snapshot)
        && (s == FaultLatched
            || (s == Shutdown && !HardWarning(g.limits, e.snapshot)
                && LatestClass(run) != Some(Health.Critical) && Silence(run) < g.timeout))
    ensures
      var s, t, e := Before(g, run), After(g, run).state, run[|run| - 1];
      t == Startup <==>
        && !e.emergency && !HardCritical(g.limits, e.snapshot)
        && (s == Recovery || (s == Startup && !e.startupDone && LatestClass(run) != Some(Health.Critical)))
  {
    hide Next, LatestClass, Silence, HardCritical, HardWarning, TimedOut, Refreshed;
    LastStep(g, run);
    ClassKept(g, After(g, run[..|run| - 1]), run[|run| - 1]);
    if !run[|run| - 1].startupDone { SilenceNeedsStartup(run); }
  }

  lemma SilenceNeedsStartup(run: seq<Inputs>)
    requires run != [] && !run[|run| - 1].startupDone
    ensures Silence(run) == 0
  {
    hide TakenLast;
  }

  lemma StepBack(g: Config, run: seq<Inputs>, e: Inputs)
    ensures Before(g, run + [e]) == After(g, run).state && (run + [e])[|run + [e]| - 1] == e
  {
    hide After;
    assert (run + [e])[..|run + [e]| - 1] == run;
  }

  /**
   * Recovery completes. A request granted in either stopped state is followed, two steps later, by load: through RECOVERY
   * and STARTUP, provided neither step has an emergency or a hard critical limit, startup is done, and the link is in
   * order when load is due.
   */
  lemma RecoveryCompletes(g: Config, run: seq<Inputs>, e0: Inputs, e1: Inputs, e2: Inputs)
    requires g.timeout >= 1 && e0.recoveryReq && Undisturbed(g, e0) && Undisturbed(g, e1) && Undisturbed(g, e2)
    requires
      || After(g, run).state == FaultLatched
      || (After(g, run).state == Shutdown && !HardWarning(g.limits, e0.snapshot) && LinkInOrder(g, run + [e0]))
    requires e2.startupDone && LinkInOrder(g, run + [e0] + [e1] + [e2])
    ensures After(g, run + [e0]).state == Recovery && After(g, run + [e0] + [e1]).state == Startup
    ensures Loaded(After(g, run + [e0] + [e1] + [e2]).state)
  {
    hide After, Before, LatestClass, Silence, HardCritical, HardWarning;
    StepBack(g, run, e0); StepBack(g, run + [e0], e1); StepBack(g, run + [e0] + [e1], e2);
    RecoversIff(g, run + [e0]);
    RecoversIff(g, run + [e0] + [e1]);
    LoadedIff(g, run + [e0] + [e1] + [e2]);
  }

  /** Load keeps on: while nothing disturbs and the link stays in order, a loaded controller stays loaded. */
  lemma {:induction false} LoadKeepsOn(g: Config, run: seq<Inputs>, more: seq<Inputs>)
    requires g.timeout >= 1 && Loaded(After(g, run).state)
    requires forall i :: 0 <= i < |more| ==> Undisturbed(g, more[i]) && LinkInOrder(g, run + more[..i + 1])
    ensures Loaded(After(g, run + more).state)
  {
    hide After, Before, LatestClass, Silence, HardCritical, HardWarning;
    if more == [] {
      assert run + more == run;
    } else {
      var front, e := more[..|more| - 1], more[|more| - 1];
      forall i | 0 <= i < |front|
        ensures Undisturbed(g, front[i]) && LinkInOrder(g, run + front[..i + 1])
      {
        assert front[i] == more[i] && front[..i + 1] == more[..i + 1];
      }
      LoadKeepsOn(g, run, front);
      assert run + more == run + front + [e] && more[..|more|] == more;
      StepBack(g, run + front, e);
      LoadedIff(g, run + more);
    }
  }
}
