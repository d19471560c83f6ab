/**
 * One pass of the control loop `monitor_humidity`: read the configuration,
 * honour maintenance mode, run the timer check, the scheduler, the cache
 * refresh, the scenario search and the selected action.  Sensor values,
 * the wall clock and the instant `now` are parameters; the sleeps between
 * passes are not modelled.  An exception caught by the loop's outer handler
 * ends the pass with the state reached so far.
 */
module Monitor {
  import opened Wrappers
  import opened Scheduler
  import opened Scenarios
  import opened Settings
  import opened Pump

  /** How a pass ends. */
  datatype TickOutcome =
    | ConfigUnreadable          // no usable cache and the file cannot be read
    | MaintenancePause          // maintenance mode: nothing else happens
    | ScheduleError(entry: nat) // a schedule entry's time is malformed
    | ReloadFailed              // the stale cache could not be reloaded
    | ScenarioKeyError          // no profile for the current scenario
    | RuleKeyError(rule: nat)   // the examined rule lacks a key
    | RuleTypeError(rule: nat)  // the selected rule's `null` duration is compared with 0
    | NoScenario                // no rule matched
    | Applied(rule: nat, action: string, duration: Nullable<real>, minInterval: real)

  /** The pump state, the configuration store, whether the scheduler started the pump, and the outcome. */
  datatype TickResult = TickResult(pump: PumpState, store: Store, scheduled: bool, outcome: TickOutcome)

  /** The configuration the pass starts from: the cache when it is truthy, else the file. */
  function LoopConfig(st: Store): (r: Option<Config>)
    ensures Truthy(st.cache) ==> r == st.cache
    ensures !Truthy(st.cache) ==> r == st.file
  {
    if Truthy(st.cache) then st.cache else st.file
  }

  /** The schedule list `check_scheduled_watering` reads: from a truthy cache, else the file, else none. */
  function ScheduleSource(st: Store): (r: seq<ScheduleEntry>)
    ensures !Truthy(st.cache) && st.file.None? ==> r == []
    ensures !Truthy(st.cache) && st.file.Some? ==> r == st.file.value.scheduledWaterings.GetOr([])
    ensures Truthy(st.cache) ==> r == st.cache.value.scheduledWaterings.GetOr([])
  {
    if Truthy(st.cache) then st.cache.value.scheduledWaterings.GetOr([])
    else if st.file.None? then []
    else st.file.value.scheduledWaterings.GetOr([])
  }

  /** The pump after the scheduler's verdict: a triggered entry starts it and stamps the last watering. */
  function ScheduleApplied(p: PumpState, outcome: ScheduleOutcome, now: real): (r: PumpState)
    ensures !outcome.Triggered? ==> r == p
    ensures outcome.Triggered? ==> r == Started(p, now, outcome.duration, true)
  {
    if outcome.Triggered? then Started(p, now, outcome.duration, true) else p
  }

  /** The profile `config['scenarios'][config['current_scenario']]`; `None` is the `KeyError`. */
  function CurrentRules(c: Config): (r: Option<seq<Rule>>)
    ensures r.Some? <==>
      c.scenarios.Some? && c.currentScenario.Some? && c.currentScenario.value in c.scenarios.value
    ensures r.Some? ==> r.value == c.scenarios.value[c.currentScenario.value]
  {
    if c.scenarios.Some? && c.currentScenario.Some? && c.currentScenario.value in c.scenarios.value then
      Some(c.scenarios.value[c.currentScenario.value])
    else None
  }

  /**
   * Line 311 compares `null > 0` when "Surveiller" meets a stopped pump:
   * `not is_pump_on` is true, so the comparison is evaluated and raises.
   */
  predicate MonitorRaises(action: string, duration: Nullable<real>, pumpOn: bool)
  {
    action == ActionMonitor && !pumpOn && duration.Null?
  }

  /** Scenario search and action, on the refreshed configuration and the vacation flag read at the start of the pass. */
  function ScenarioStep(p: PumpState, config: Config, vacation: bool, reading: Reading, now: real): (r: (PumpState, TickOutcome))
    ensures !r.1.Applied? ==> r.0 == p
    ensures CurrentRules(config).None? ==> r.1 == ScenarioKeyError
    ensures CurrentRules(config).Some? && FindMatch(CurrentRules(config).value, reading) == NoMatch ==>
      r.1 == NoScenario
    ensures CurrentRules(config).Some? && FindMatch(CurrentRules(config).value, reading).KeyMissing? ==>
      r.1 == RuleKeyError(FindMatch(CurrentRules(config).value, reading).index)
    ensures CurrentRules(config).Some? && FindMatch(CurrentRules(config).value, reading).Matched? ==>
      var i := FindMatch(CurrentRules(config).value, reading).index;
      var rule := CurrentRules(config).value[i];
      if rule.action.None? || rule.duration.None? then r.1 == RuleKeyError(i)
      else if HalvedDuration(rule.duration.value, vacation).None? then r.1 == RuleTypeError(i)
      else if MonitorRaises(rule.action.value, HalvedDuration(rule.duration.value, vacation).value, p.pumpOn) then
        r.1 == RuleTypeError(i)
      else
        r.1 == Applied(i, rule.action.value, HalvedDuration(rule.duration.value, vacation).value,
                       config.minWateringInterval.GetOr(DefaultMinWateringInterval))
    ensures r.1.Applied? ==> r.0 == RuleAction(p, r.1.action, r.1.duration, r.1.minInterval, now)
    ensures reading.soil.None? ==> !r.1.Applied?
  {
    match CurrentRules(config)
    case None => (p, ScenarioKeyError)
    case Some(rules) =>
      match FindMatch(rules, reading)
      case NoMatch => (p, NoScenario)
      case KeyMissing(i) => (p, RuleKeyError(i))
      case Matched(i) =>
        var rule := rules[i];
        if rule.action.None? || rule.duration.None? then (p, RuleKeyError(i))
        else
          match HalvedDuration(rule.duration.value, vacation)
          case None => (p, RuleTypeError(i))
          case Some(d) =>
            if MonitorRaises(rule.action.value, d, p.pumpOn) then (p, RuleTypeError(i))
            else
              var minInterval := config.minWateringInterval.GetOr(DefaultMinWateringInterval);
              (RuleAction(p, rule.action.value, d, minInterval, now), Applied(i, rule.action.value, d, minInterval))
  }

  /**
   * A selected watering rule with a numeric duration starts a stopped pump
   * past the interval guard, for the duration after vacation mode.
   */
  lemma MatchedWaterRuleStarts(p: PumpState, config: Config, vacation: bool, reading: Reading, now: real, i: nat, x: real)
    requires CurrentRules(config).Some? && FindMatch(CurrentRules(config).value, reading) == Matched(i)
    requires i < |CurrentRules(config).value|
    requires CurrentRules(config).value[i].action.Some? && IsWaterAction(CurrentRules(config).value[i].action.value)
    requires CurrentRules(config).value[i].duration == Some(NonNull(x))
    requires !p.pumpOn && IntervalElapsed(p.last, now, config.minWateringInterval.GetOr(DefaultMinWateringInterval))
    ensures ScenarioStep(p, config, vacation, reading, now).0 == Started(p, now, VacationDuration(x, vacation), true)
  {
  }

  /** One pass of the loop. */
  function TickSpec(p: PumpState, st: Store, clock: WallClock, now: real, reading: Reading): (r: TickResult)
    ensures LoopConfig(st).None? ==> r == TickResult(p, st, false, ConfigUnreadable)
    ensures LoopConfig(st).Some? && LoopConfig(st).value.maintenanceMode.GetOr(DefaultMaintenance) ==>
      r == TickResult(p, st, false, MaintenancePause)
    ensures r.store == st || RefreshStep(st, now) == Some(r.store)
  {
    match LoopConfig(st)
    case None => TickResult(p, st, false, ConfigUnreadable)
    case Some(config0) =>
      if config0.maintenanceMode.GetOr(DefaultMaintenance) then TickResult(p, st, false, MaintenancePause)
      else
        var vacation := config0.vacationMode.GetOr(DefaultVacation);
        var p1 := TimerStep(p, now);
        var due := Due(ScheduleSource(st), clock, now, p1.pumpOn, p1.last);
        if due.Failed? then TickResult(p1, st, false, ScheduleError(due.index))
        else
          var p2 := ScheduleApplied(p1, due, now);
          match RefreshStep(st, now)
          case None => TickResult(p2, st, due.Triggered?, ReloadFailed)
          case Some(st2) =>
            var (p3, outcome) := ScenarioStep(p2, st2.cache.value, vacation, reading, now);
            TickResult(p3, st2, due.Triggered?, outcome)
  }

  /** The invariant of the pump timer holds after every pass. */
  lemma TickConsistent(p: PumpState, st: Store, clock: WallClock, now: real, reading: Reading)
    requires Consistent(p)
    ensures Consistent(TickSpec(p, st, clock, now, reading).pump)
  {
  }

  /** The scenario step logs at most the run it stops. */
  lemma ScenarioStepLog(p: PumpState, config: Config, vacation: bool, reading: Reading, now: real)
    ensures var q := ScenarioStep(p, config, vacation, reading, now).0;
      q.log == p.log || (p.onTime.Some? && q.log == p.log + [WateringEvent(p.onTime.value, now - p.onTime.value)])
  {
    var r := ScenarioStep(p, config, vacation, reading, now);
    if r.1.Applied? {
      RuleActionLog(p, r.1.action, r.1.duration, r.1.minInterval, now);
    }
  }

  /** A pass only appends to the watering log, and at most two events. */
  lemma TickLogAppends(p: PumpState, st: Store, clock: WallClock, now: real, reading: Reading)
    ensures var log := TickSpec(p, st, clock, now, reading).pump.log;
      |p.log| <= |log| <= |p.log| + 2 && log[..|p.log|] == p.log
  {
    match LoopConfig(st)
    case None =>
    case Some(config0) =>
      if !config0.maintenanceMode.GetOr(DefaultMaintenance) {
        var p1 := TimerStep(p, now);
        assert |p.log| <= |p1.log| <= |p.log| + 1 && p1.log[..|p.log|] == p.log;
        var due := Due(ScheduleSource(st), clock, now, p1.pumpOn, p1.last);
        var p2 := ScheduleApplied(p1, due, now);
        assert p2.log == p1.log;
        if !due.Failed? && RefreshStep(st, now).Some? {
          var st2 := RefreshStep(st, now).value;
          var vacation := config0.vacationMode.GetOr(DefaultVacation);
          var p3 := ScenarioStep(p2, st2.cache.value, vacation, reading, now).0;
          ScenarioStepLog(p2, st2.cache.value, vacation, reading, now);
          assert TickSpec(p, st, clock, now, reading).pump == p3;
          assert p3.log[..|p2.log|] == p2.log;
        }
      }
  }

  /** Maintenance mode leaves pump, timer, log and cache as they were. */
  lemma MaintenanceFreezes(p: PumpState, st: Store, clock: WallClock, now: real, reading: Reading)
    requires LoopConfig(st).Some? && LoopConfig(st).value.maintenanceMode == Some(true)
    ensures var r := TickSpec(p, st, clock, now, reading);
      r.pump == p && r.store == st && r.outcome == MaintenancePause
  {
  }

  /**
   * The leak cutoff: a run past one and a half times its planned minutes is
   * stopped and logged in the pass that sees it; the pump can only be
   * running afterwards on a new run started at `now`.
   */
  lemma LeakCutoff(p: PumpState, st: Store, clock: WallClock, now: real, reading: Reading)
    requires Consistent(p) && TimerVerdictAt(p, now) == LeakDetected
    requires LoopConfig(st).Some? && !LoopConfig(st).value.maintenanceMode.GetOr(DefaultMaintenance)
    ensures var r := TickSpec(p, st, clock, now, reading);
      |r.pump.log| > |p.log| && r.pump.log[|p.log|] == WateringEvent(p.onTime.value, now - p.onTime.value)
      && (r.pump.pumpOn ==> r.pump.onTime == Some(now))
  {
    TickLogAppends(p, st, clock, now, reading);
    var p1 := TimerStep(p, now);
    assert p1.log == p.log + [WateringEvent(p.onTime.value, now - p.onTime.value)];
  }

  /**
   * A pass that switches the pump on from off does so at `now`, stamping the
   * last watering, and only past a guard: five minutes for the scheduler,
   * the configured interval for a rule.
   */
  lemma StartNeedsGuard(p: PumpState, st: Store, clock: WallClock, now: real, reading: Reading)
    requires Consistent(p) && !p.pumpOn
    requires TickSpec(p, st, clock, now, reading).pump.pumpOn
    ensures var r := TickSpec(p, st, clock, now, reading);
      r.pump.onTime == Some(now) && r.pump.last == Some(now)
      && (if r.scheduled then GuardAllows(p.last, now)
          else r.outcome.Applied? && IntervalElapsed(p.last, now, r.outcome.minInterval))
  {
    var config0 := LoopConfig(st).value;
    var p1 := TimerStep(p, now);
    assert p1 == p;
    var due := Due(ScheduleSource(st), clock, now, p1.pumpOn, p1.last);
    var p2 := ScheduleApplied(p1, due, now);
    if !due.Failed? && RefreshStep(st, now).Some? {
      var st2 := RefreshStep(st, now).value;
      var vacation := config0.vacationMode.GetOr(DefaultVacation);
      var step := ScenarioStep(p2, st2.cache.value, vacation, reading, now);
      assert TickSpec(p, st, clock, now, reading) == TickResult(step.0, st2, due.Triggered?, step.1);
      if step.1.Applied? {
        RuleActionStarts(p2, step.1.action, step.1.duration, step.1.minInterval, now);
      }
    }
  }

  /** The two ways a rule's action can leave the pump running. */
  lemma RuleActionStarts(s: PumpState, action: string, duration: Nullable<real>, minInterval: real, now: real)
    requires RuleAction(s, action, duration, minInterval, now).pumpOn
    ensures var r := RuleAction(s, action, duration, minInterval, now);
      (s.pumpOn && r == s) || (!s.pumpOn && IntervalElapsed(s.last, now, minInterval) && r.onTime == Some(now) && r.last == Some(now))
  {
  }

  /**
   * A due entry whose duration is `null`, started as written, breaks the
   * timer invariant, and the per-tick check never stops that run.
   */
  lemma ScheduledNullLeavesPumpRunning(entries: seq<ScheduleEntry>, clock: WallClock, p: PumpState, now: real, later: real)
    requires Due(entries, clock, now, p.pumpOn, p.last).Triggered?
    requires entries[Due(entries, clock, now, p.pumpOn, p.last).index].duration == Some(Null)
    ensures var r := p.(pumpOn := true, onTime := Some(now), last := Some(now),
                       duration := EntryMinutesAsWritten(entries[Due(entries, clock, now, p.pumpOn, p.last).index]));
      r.pumpOn && !Consistent(r) && TimerStep(r, later) == r
  {
  }

  /** The air readings never change what a pass does. */
  lemma TickIgnoresAir(p: PumpState, st: Store, clock: WallClock, now: real, r1: Reading, r2: Reading)
    requires r1.soil == r2.soil
    ensures TickSpec(p, st, clock, now, r1) == TickSpec(p, st, clock, now, r2)
  {
    forall rules: seq<Rule> ensures FindMatch(rules, r1) == FindMatch(rules, r2) {
      AirReadingsIgnored(rules, r1, r2);
    }
  }

  /** `check_scheduled_watering` on the global state. */
  method CheckScheduledWatering(pump: PumpTimer, store: ConfigStore, clock: WallClock, now: real) returns (outcome: ScheduleOutcome)
    modifies pump
    ensures outcome == Due(ScheduleSource(store.Snapshot()), clock, now, old(pump.pumpOn), old(pump.lastWateringTime))
    ensures pump.State() == ScheduleApplied(old(pump.State()), outcome, now)
  {
    var entries: seq<ScheduleEntry>;
    if store.cache.Some? && store.cache.value != EmptyConfig {
      entries := store.cache.value.scheduledWaterings.GetOr([]);
    } else if store.file.Some? {
      entries := store.file.value.scheduledWaterings.GetOr([]);
    } else {
      entries := [];
    }
    outcome := FindDue(entries, clock, now, pump.pumpOn, pump.lastWateringTime);
    if outcome.Triggered? {
      pump.Start(now, outcome.duration, true);
    }
  }

  /** The scenario search and the selected rule's action, on the global pump. */
  method ApplyScenario(pump: PumpTimer, config: Config, vacation: bool, reading: Reading, now: real) returns (outcome: TickOutcome)
    modifies pump
    ensures (pump.State(), outcome) == ScenarioStep(old(pump.State()), config, vacation, reading, now)
  {
    var profile := CurrentRules(config);
    if profile.None? {
      return ScenarioKeyError;
    }
    var rules := profile.value;
    match FindMatch(rules, reading)
    case NoMatch =>
      outcome := NoScenario;
    case KeyMissing(i) =>
      outcome := RuleKeyError(i);
    case Matched(i) =>
      var rule := rules[i];
      if rule.action.None? || rule.duration.None? {
        return RuleKeyError(i);
      }
      var action := rule.action.value;
      var duration := rule.duration.value;
      if vacation {
        if duration.Null? {
          return RuleTypeError(i);
        }
        if duration.value > 0.0 {
          duration := NonNull(duration.value * 0.5);
        }
      }
      if action == ActionMonitor && !pump.pumpOn && duration.Null? {
        return RuleTypeError(i);
      }
      var minInterval := config.minWateringInterval.GetOr(DefaultMinWateringInterval);
      pump.ApplyAction(action, duration, minInterval, now);
      outcome := Applied(i, action, duration, minInterval);
  }

  /** One pass of `monitor_humidity` on the global state. */
  method Tick(pump: PumpTimer, store: ConfigStore, clock: WallClock, now: real, reading: Reading)
    returns (scheduled: bool, outcome: TickOutcome)
    modifies pump, store
    ensures TickResult(pump.State(), store.Snapshot(), scheduled, outcome)
      == TickSpec(old(pump.State()), old(store.Snapshot()), clock, now, reading)
  {
    scheduled := false;
    var config: Config;
    if store.cache.Some? && store.cache.value != EmptyConfig {
      config := store.cache.value;
    } else if store.file.Some? {
      config := store.file.value;
    } else {
      return false, ConfigUnreadable;
    }
    if config.maintenanceMode.GetOr(DefaultMaintenance) {
      return false, MaintenancePause;
    }
    var vacation := config.vacationMode.GetOr(DefaultVacation);
    var _ := pump.CheckTimer(now);
    var due := CheckScheduledWatering(pump, store, clock, now);
    if due.Failed? {
      return false, ScheduleError(due.index);
    }
    scheduled := due.Triggered?;
    var ok := store.Refresh(now);
    if !ok {
      return scheduled, ReloadFailed;
    }
    outcome := ApplyScenario(pump, store.cache.value, vacation, reading, now);
  }
}
