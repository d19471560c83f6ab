/**
 * The pump and its timer: the module globals `pump_on_time`,
 * `watering_duration_minutes` and `last_watering_time` of app.py, the pump
 * output (GPIO 18, low = running) and the watering log written by
 * `record_arrosage`.  Every transition is first stated as a function on
 * the value `PumpState`; the class `PumpTimer` performs it in place.
 */
module Pump {
  import opened Wrappers
  import opened PyStr
  import opened Scenarios

  /** One line of the watering log: start instant and run length, in seconds. */
  datatype WateringEvent = WateringEvent(start: real, seconds: real)

  /**
   * `pumpOn` is the pump output; `onTime` and `duration` (minutes) form the
   * timer; `last` is the anti-excess reference instant; `log` the appended events.
   */
  datatype PumpState = PumpState(
    pumpOn: bool,
    onTime: Option<real>,
    duration: Option<real>,
    last: Option<real>,
    log: seq<WateringEvent>)

  /** The pump runs exactly when the timer is set, and the timer's two halves are set together. */
  predicate Consistent(s: PumpState)
  {
    (s.pumpOn <==> s.onTime.Some?) && (s.onTime.Some? <==> s.duration.Some?)
  }

  /** Emergency margin: a run is a leak once it exceeds its planned minutes by half. */
  const LeakFactor: real := 1.5

  /** Minutes elapsed since instant `t` (seconds). */
  function MinutesSince(t: real, now: real): real
  {
    (now - t) / 60.0
  }

  /** What the per-tick check decides for the running timer. */
  datatype TimerVerdict = Idle | KeepRunning | DurationReached | LeakDetected

  /** The decision of the per-tick check. */
  function TimerVerdictAt(s: PumpState, now: real): (v: TimerVerdict)
    ensures v == Idle <==> s.onTime.None? || s.duration.None?
    ensures v == LeakDetected <==>
      s.onTime.Some? && s.duration.Some? && MinutesSince(s.onTime.value, now) > s.duration.value * LeakFactor
    ensures v == DurationReached <==>
      s.onTime.Some? && s.duration.Some? && MinutesSince(s.onTime.value, now) <= s.duration.value * LeakFactor
      && MinutesSince(s.onTime.value, now) >= s.duration.value
  {
    if s.onTime.None? || s.duration.None? then Idle
    else
      var elapsed := MinutesSince(s.onTime.value, now);
      if elapsed > s.duration.value * LeakFactor then LeakDetected
      else if elapsed >= s.duration.value then DurationReached
      else KeepRunning
  }

  /** With a non-negative plan, a leak stop is only ever later than a normal stop would be. */
  lemma LeakAfterDuration(s: PumpState, now: real)
    requires s.duration.Some? && s.duration.value >= 0.0
    requires TimerVerdictAt(s, now) == LeakDetected
    ensures MinutesSince(s.onTime.value, now) > s.duration.value
  {
  }

  /** A running timer keeps running exactly while fewer than the planned minutes have passed. */
  lemma KeepRunningBelowPlan(s: PumpState, now: real)
    requires s.onTime.Some? && s.duration.Some? && s.duration.value >= 0.0
    ensures TimerVerdictAt(s, now) == KeepRunning <==> MinutesSince(s.onTime.value, now) < s.duration.value
  {
  }

  /**
   * A stop that records the run: pump off, one event for the run, the stop
   * instant as last watering, timer cleared.
   */
  function StopAndRecord(s: PumpState, now: real): (r: PumpState)
    requires s.onTime.Some?
    ensures !r.pumpOn && r.onTime.None? && r.duration.None? && r.last == Some(now)
    ensures r.log == s.log + [WateringEvent(s.onTime.value, now - s.onTime.value)]
    ensures Consistent(r)
  {
    PumpState(false, None, None, Some(now), s.log + [WateringEvent(s.onTime.value, now - s.onTime.value)])
  }

  /** The per-tick duration and leak check. */
  function TimerStep(s: PumpState, now: real): (r: PumpState)
    ensures TimerVerdictAt(s, now) in {Idle, KeepRunning} ==> r == s
    ensures TimerVerdictAt(s, now) in {DurationReached, LeakDetected} ==>
      !r.pumpOn && r.onTime.None? && r.duration.None? && r.last == Some(now)
      && r.log == s.log + [WateringEvent(s.onTime.value, now - s.onTime.value)]
    ensures Consistent(s) ==> Consistent(r)
  {
    match TimerVerdictAt(s, now)
    case LeakDetected => StopAndRecord(s, now)
    case DurationReached => StopAndRecord(s, now)
    case _ => s
  }

  /** A start: pump on, timer set to `now` and `d` minutes; `resetLast` also moves the last watering to `now`. */
  function Started(s: PumpState, now: real, d: real, resetLast: bool): (r: PumpState)
    ensures r.pumpOn && r.onTime == Some(now) && r.duration == Some(d) && r.log == s.log
    ensures r.last == (if resetLast then Some(now) else s.last)
    ensures Consistent(r)
  {
    PumpState(true, Some(now), Some(d), if resetLast then Some(now) else s.last, s.log)
  }

  /** The anti-excess guard: no watering yet, or at least `minInterval` minutes since the last one. */
  predicate IntervalElapsed(last: Option<real>, now: real, minInterval: real)
  {
    last.None? || !(MinutesSince(last.value, now) < minInterval)
  }

  /**
   * "Pas d'arrosage": a running pump is switched off; the run is recorded
   * and the timer cleared only if a start instant is known.
   */
  function StopIfRunning(s: PumpState, now: real): (r: PumpState)
    ensures !r.pumpOn
    ensures !s.pumpOn ==> r == s
    ensures s.pumpOn && s.onTime.Some? ==> r == StopAndRecord(s, now)
    ensures s.pumpOn && s.onTime.None? ==> r == s.(pumpOn := false)
    ensures Consistent(s) ==> Consistent(r)
  {
    if !s.pumpOn then s
    else if s.onTime.Some? then StopAndRecord(s, now)
    else s.(pumpOn := false)
  }

  /** The action of the selected rule, with its (already halved) duration and the configured interval. */
  function ActionStep(s: PumpState, action: string, duration: real, minInterval: real, now: real): (r: PumpState)
    // a running pump's timer is never reset by a watering action
    ensures action != ActionNoWater && s.pumpOn ==> r == s
    // a start happens only from a stopped pump, past the interval guard, and stamps now
    ensures r != s && action != ActionNoWater ==>
      !s.pumpOn && IntervalElapsed(s.last, now, minInterval) && r == Started(s, now, duration, true)
    ensures IsWaterAction(action) && !s.pumpOn && IntervalElapsed(s.last, now, minInterval) ==>
      r == Started(s, now, duration, true)
    ensures action == ActionMonitor ==>
      (r != s <==> !s.pumpOn && duration > 0.0 && IntervalElapsed(s.last, now, minInterval))
    ensures action == ActionNoWater ==> r == StopIfRunning(s, now)
    ensures !IsWaterAction(action) && action != ActionMonitor && action != ActionNoWater ==> r == s
    ensures Consistent(s) ==> Consistent(r)
  {
    if IsWaterAction(action) then
      if !s.pumpOn && IntervalElapsed(s.last, now, minInterval) then Started(s, now, duration, true) else s
    else if action == ActionMonitor then
      if !s.pumpOn && duration > 0.0 && IntervalElapsed(s.last, now, minInterval) then Started(s, now, duration, true) else s
    else if action == ActionNoWater then StopIfRunning(s, now)
    else s
  }

  /**
   * A start that stores no planned duration, as the loop does when the
   * duration it copies into `watering_duration_minutes` is `None`.
   */
  function StartedWithoutPlan(s: PumpState, now: real): (r: PumpState)
    ensures r.pumpOn && r.onTime == Some(now) && r.duration.None? && r.last == Some(now) && r.log == s.log
    ensures !Consistent(r)
  {
    PumpState(true, Some(now), None, Some(now), s.log)
  }

  /** The per-tick check skips a run without a planned duration, at any later instant. */
  lemma UnplannedRunNeverStops(s: PumpState, now: real, later: real)
    ensures TimerStep(StartedWithoutPlan(s, now), later) == StartedWithoutPlan(s, now)
  {
  }

  /**
   * The action of the selected rule when its (already halved) duration may
   * be `null`.  A number acts as `ActionStep`; `null` never starts the pump,
   * since the per-tick check can only end a run that has a planned duration,
   * but "Pas d'arrosage" still stops it.
   */
  function RuleAction(s: PumpState, action: string, duration: Nullable<real>, minInterval: real, now: real): (r: PumpState)
    ensures duration.NonNull? ==> r == ActionStep(s, action, duration.value, minInterval, now)
    ensures duration.Null? && action == ActionNoWater ==> r == StopIfRunning(s, now)
    ensures duration.Null? && action != ActionNoWater ==> r == s
    ensures r.pumpOn && !s.pumpOn ==>
      duration.NonNull? && IntervalElapsed(s.last, now, minInterval) && r == Started(s, now, duration.value, true)
    ensures r.pumpOn && s.pumpOn ==> r == s
    ensures Consistent(s) ==> Consistent(r)
  {
    match duration
    case NonNull(x) => ActionStep(s, action, x, minInterval, now)
    case Null => if action == ActionNoWater then StopIfRunning(s, now) else s
  }

  /** A rule's action logs nothing, or exactly the run it stops. */
  lemma RuleActionLog(s: PumpState, action: string, duration: Nullable<real>, minInterval: real, now: real)
    ensures var r := RuleAction(s, action, duration, minInterval, now);
      r.log == s.log || (s.onTime.Some? && r.log == s.log + [WateringEvent(s.onTime.value, now - s.onTime.value)])
  {
    if action == ActionNoWater {
      assert RuleAction(s, action, duration, minInterval, now) == StopIfRunning(s, now);
    }
  }

  /**
   * The action as written: with a `null` duration a watering action still
   * switches a stopped pump on past the interval guard, and copies `None`
   * into the timer.  ("Surveiller" with `null` never starts: the comparison
   * `null > 0` either raises or is skipped because the pump is on.)
   */
  function RuleActionAsWritten(s: PumpState, action: string, duration: Nullable<real>, minInterval: real, now: real): (r: PumpState)
    ensures duration.Null? && IsWaterAction(action) && !s.pumpOn && IntervalElapsed(s.last, now, minInterval) ==>
      r == StartedWithoutPlan(s, now)
    ensures !(duration.Null? && IsWaterAction(action) && !s.pumpOn && IntervalElapsed(s.last, now, minInterval)) ==>
      r == RuleAction(s, action, duration, minInterval, now)
  {
    match duration
    case NonNull(x) => ActionStep(s, action, x, minInterval, now)
    case Null =>
      if IsWaterAction(action) then
        if !s.pumpOn && IntervalElapsed(s.last, now, minInterval) then StartedWithoutPlan(s, now) else s
      else if action == ActionNoWater then StopIfRunning(s, now)
      else s
  }

  /**
   * A watering rule with a `null` duration, as written, breaks the timer
   * invariant, and the per-tick check never stops the pump it started.
   */
  lemma NullRuleLeavesPumpRunning(s: PumpState, action: string, minInterval: real, now: real, later: real)
    requires Consistent(s) && !s.pumpOn && IsWaterAction(action) && IntervalElapsed(s.last, now, minInterval)
    ensures var r := RuleActionAsWritten(s, action, Null, minInterval, now);
      r.pumpOn && !Consistent(r) && TimerStep(r, later) == r
  {
    UnplannedRunNeverStops(s, now, later);
  }

  /** Stopping twice records the run once. */
  lemma {:induction false} SecondStopLogsNothing(s: PumpState, now: real, later: real)
    ensures StopIfRunning(StopIfRunning(s, now), later) == StopIfRunning(s, now)
  {
  }

  /** The `duration` value of a manual request: missing, a JSON number, a JSON string, or anything else. */
  datatype DurationField = Missing | Number(x: real) | JsonString(t: string) | Other

  /** `float(data.get('duration', 1))`; `None` is the exception `float` raises. */
  function ToMinutes(f: DurationField): (r: Option<real>)
    ensures f.Missing? ==> r == Some(1.0)
    ensures f.Number? ==> r == Some(f.x)
    ensures f.JsonString? ==> r == ParseNum(f.t)
    ensures f.Other? ==> r.None?
  {
    match f
    case Missing => Some(1.0)
    case Number(x) => Some(x)
    case JsonString(t) => ParseNum(t)
    case Other => None
  }

  /** The reply of the manual control endpoint. */
  datatype ManualReply = StartedFor(minutes: real) | AlreadyRunning | StoppedPump | InvalidAction | ServerError

  /**
   * `manual_pump_control` as written: on start, the pump output and
   * `pump_on_time` are set before `float(duration)` is evaluated, so a
   * duration `float` rejects leaves the pump running with no planned duration.
   */
  function ManualStepAsWritten(s: PumpState, action: Option<string>, duration: DurationField, now: real): (r: (PumpState, ManualReply))
    ensures action == Some("start") && !s.pumpOn && ToMinutes(duration).None? ==>
      r.0 == s.(pumpOn := true, onTime := Some(now)) && r.1 == ServerError
  {
    if action == Some("start") then
      if !s.pumpOn then
        var switchedOn := s.(pumpOn := true, onTime := Some(now));
        match ToMinutes(duration)
        case None => (switchedOn, ServerError)
        case Some(d) => (switchedOn.(duration := Some(d)), StartedFor(d))
      else (s, AlreadyRunning)
    else if action == Some("stop") then
      (if s.onTime.Some? then StopAndRecord(s, now).(last := s.last) else s.(pumpOn := false), StoppedPump)
    else (s, InvalidAction)
  }

  /**
   * The unconvertible duration breaks the timer invariant, and the per-tick
   * check never stops that pump, however much later it runs.
   */
  lemma ManualStartLeavesPumpRunning(s: PumpState, now: real, later: real)
    requires Consistent(s) && !s.pumpOn
    ensures var r := ManualStepAsWritten(s, Some("start"), Other, now).0;
      r.pumpOn && !Consistent(r) && TimerStep(r, later) == r
  {
    var r := ManualStepAsWritten(s, Some("start"), Other, now).0;
    assert r.duration.None?;
  }

  /**
   * `manual_pump_control` with the conversion done before the pump is
   * touched: an unconvertible duration is a server error with no change.
   * Start needs a stopped pump and skips the interval guard; neither start
   * nor stop moves the last watering instant.
   */
  function ManualStep(s: PumpState, action: Option<string>, duration: DurationField, now: real): (r: (PumpState, ManualReply))
    ensures r.0.last == s.last
    ensures action == Some("start") ==>
      if s.pumpOn then r == (s, AlreadyRunning)
      else if ToMinutes(duration).None? then r == (s, ServerError)
      else r == (Started(s, now, ToMinutes(duration).value, false), StartedFor(ToMinutes(duration).value))
    ensures action == Some("stop") ==>
      !r.0.pumpOn && r.0.onTime.None? && r.1 == StoppedPump
      && r.0.log == (if s.onTime.Some? then s.log + [WateringEvent(s.onTime.value, now - s.onTime.value)] else s.log)
    ensures action != Some("start") && action != Some("stop") ==> r == (s, InvalidAction)
    ensures Consistent(s) ==> Consistent(r.0)
  {
    if action == Some("start") then
      if s.pumpOn then (s, AlreadyRunning)
      else
        match ToMinutes(duration)
        case None => (s, ServerError)
        case Some(d) => (Started(s, now, d, false), StartedFor(d))
    else if action == Some("stop") then
      (if s.onTime.Some? then StopAndRecord(s, now).(last := s.last) else s.(pumpOn := false), StoppedPump)
    else (s, InvalidAction)
  }

  /** The two definitions differ only where `float` rejects the duration. */
  lemma ManualStepAgrees(s: PumpState, action: Option<string>, duration: DurationField, now: real)
    requires Consistent(s)
    requires !(action == Some("start") && !s.pumpOn && ToMinutes(duration).None?)
    ensures ManualStepAsWritten(s, action, duration, now) == ManualStep(s, action, duration, now)
  {
  }

  /** A second manual stop records nothing more. */
  lemma ManualStopTwice(s: PumpState, action: Option<string>, now: real, later: real)
    requires action == Some("stop")
    ensures var once := ManualStep(s, action, Missing, now).0;
      ManualStep(once, action, Missing, later).0.log == once.log
  {
  }

  /**
   * The pump and its timer as mutable fields.  `history` stands for the
   * lines `record_arrosage` appends to the watering log.
   */
  class PumpTimer {
    var pumpOn: bool
    var pumpOnTime: Option<real>
    var wateringDuration: Option<real>
    var lastWateringTime: Option<real>
    ghost var history: seq<WateringEvent>

    ghost function State(): PumpState
      reads this
    {
      PumpState(pumpOn, pumpOnTime, wateringDuration, lastWateringTime, history)
    }

    /** Start-up: pump driven off, no timer, no watering yet. */
    constructor ()
      ensures State() == PumpState(false, None, None, None, [])
      ensures Consistent(State())
    {
      pumpOn := false;
      pumpOnTime := None;
      wateringDuration := None;
      lastWateringTime := None;
      history := [];
    }

    /** `record_arrosage(start, seconds)`. */
    method Record(start: real, seconds: real)
      modifies this
      ensures State() == old(State()).(log := old(history) + [WateringEvent(start, seconds)])
    {
      history := history + [WateringEvent(start, seconds)];
    }

    /** Switches the pump on for `minutes`; `resetLast` also stamps the last watering. */
    method Start(now: real, minutes: real, resetLast: bool)
      modifies this
      ensures State() == Started(old(State()), now, minutes, resetLast)
    {
      pumpOn := true;
      pumpOnTime := Some(now);
      wateringDuration := Some(minutes);
      if resetLast {
        lastWateringTime := pumpOnTime;
      }
    }

    /** Pump off, run recorded, last watering stamped, timer cleared. */
    method StopRun(now: real)
      requires pumpOnTime.Some?
      modifies this
      ensures State() == StopAndRecord(old(State()), now)
    {
      pumpOn := false;
      Record(pumpOnTime.value, now - pumpOnTime.value);
      lastWateringTime := Some(now);
      pumpOnTime := None;
      wateringDuration := None;
    }

    /** The start of each tick: stops a run that reached its duration or overran it by half. */
    method CheckTimer(now: real) returns (verdict: TimerVerdict)
      modifies this
      ensures verdict == TimerVerdictAt(old(State()), now)
      ensures State() == TimerStep(old(State()), now)
    {
      verdict := Idle;
      if pumpOnTime.Some? && wateringDuration.Some? {
        var elapsed := MinutesSince(pumpOnTime.value, now);
        var maxDuration := wateringDuration.value * LeakFactor;
        if elapsed > maxDuration {
          verdict := LeakDetected;
          StopRun(now);
        } else if elapsed >= wateringDuration.value {
          verdict := DurationReached;
          StopRun(now);
        } else {
          verdict := KeepRunning;
        }
      }
    }

    /** Applies the action of the selected rule; a `null` duration never starts the pump. */
    method ApplyAction(action: string, duration: Nullable<real>, minInterval: real, now: real)
      modifies this
      ensures State() == RuleAction(old(State()), action, duration, minInterval, now)
    {
      if action == ActionWater || action == ActionLightWater {
        var canWater := true;
        if lastWateringTime.Some? && MinutesSince(lastWateringTime.value, now) < minInterval {
          canWater := false;
        }
        if !pumpOn && canWater && duration.NonNull? {
          Start(now, duration.value, true);
        }
      } else if action == ActionMonitor {
        var canWater := true;
        if lastWateringTime.Some? && MinutesSince(lastWateringTime.value, now) < minInterval {
          canWater := false;
        }
        if !pumpOn && duration.NonNull? && duration.value > 0.0 && canWater {
          Start(now, duration.value, true);
        }
      } else if action == ActionNoWater {
        if pumpOn {
          pumpOn := false;
          if pumpOnTime.Some? {
            StopRun(now);
          }
        }
      }
    }

    /** The manual control endpoint, with the duration converted before the pump is touched. */
    method ManualControl(action: Option<string>, duration: DurationField, now: real) returns (reply: ManualReply)
      modifies this
      ensures (State(), reply) == ManualStep(old(State()), action, duration, now)
    {
      if action == Some("start") {
        if !pumpOn {
          var minutes := ToMinutes(duration);
          if minutes.None? {
            return ServerError;
          }
          Start(now, minutes.value, false);
          return StartedFor(minutes.value);
        }
        return AlreadyRunning;
      } else if action == Some("stop") {
        pumpOn := false;
        if pumpOnTime.Some? {
          Record(pumpOnTime.value, now - pumpOnTime.value);
          pumpOnTime := None;
          wateringDuration := None;
        }
        return StoppedPump;
      }
      return InvalidAction;
    }
  }
}
