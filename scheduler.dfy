/**
 * Fixed-time watering (`check_scheduled_watering`): enabled entries whose
 * day list holds today and whose `HH:MM` lies within one minute of the
 * current minute of the day fire, provided five minutes have passed since
 * the last watering and the pump is off.  The first entry that fires wins.
 */
module Scheduler {
  import opened Wrappers
  import opened PyStr

  datatype Weekday = Monday | Tuesday | Wednesday | Thursday | Friday | Saturday | Sunday

  /** One entry of `scheduled_waterings`; `None` stands for a missing key, and a duration may be `null`. */
  datatype ScheduleEntry = ScheduleEntry(
    time: Option<string>,
    days: Option<seq<string>>,
    duration: Option<Nullable<real>>,
    enabled: Option<bool>)

  /** The local wall-clock reading taken from `datetime.now()`: the weekday, hours and minutes. */
  datatype WallClock = WallClock(day: Weekday, hour: int, minute: int)

  /** `strftime("%A").lower()` in the English locale. */
  function DayName(d: Weekday): (r: string)
    ensures |r| >= 6 && r[|r| - 3..] == "day"
  {
    match d
    case Monday => "monday"
    case Tuesday => "tuesday"
    case Wednesday => "wednesday"
    case Thursday => "thursday"
    case Friday => "friday"
    case Saturday => "saturday"
    case Sunday => "sunday"
  }

  /** Minutes that must separate a scheduled start from the last watering. */
  const ScheduleGuardMinutes: real := 5.0

  /** Minutes of duration used when an entry has none. */
  const DefaultScheduleDuration: real := 1.0

  /**
   * `schedule.get('duration', 1)` as written: a missing key reads as one
   * minute, but a `null` duration reads as `None`, and that `None` becomes
   * the planned duration of the run the entry starts.
   */
  function EntryMinutesAsWritten(e: ScheduleEntry): (r: Option<real>)
    ensures r.None? <==> e.duration == Some(Null)
    ensures r.Some? ==> r.value == EntryMinutes(e)
  {
    match e.duration.GetOr(NonNull(DefaultScheduleDuration))
    case Null => None
    case NonNull(x) => Some(x)
  }

  /**
   * The minutes an entry runs for: its number, or the one-minute default
   * both when the key is missing and when it is `null`, so that every
   * scheduled run has a planned duration for the per-tick check to end it.
   */
  function EntryMinutes(e: ScheduleEntry): (r: real)
    ensures e.duration.None? || e.duration == Some(Null) ==> r == DefaultScheduleDuration
    ensures e.duration.Some? && e.duration.value.NonNull? ==> r == e.duration.value.value
  {
    match e.duration
    case Some(NonNull(x)) => x
    case _ => DefaultScheduleDuration
  }

  function Abs(x: int): nat
  {
    if x < 0 then -x else x
  }

  /** `h, m = map(int, time.split(':'))`; `None` is the `ValueError` this raises on malformed text. */
  function ParseScheduleTime(t: string): (r: Option<(int, int)>)
    ensures r.Some? ==> |Split(t, ':')| == 2
  {
    var parts := Split(t, ':');
    if |parts| != 2 then None
    else
      match (ParseInt(parts[0]), ParseInt(parts[1]))
      case (Some(h), Some(m)) => Some((h, m))
      case _ => None
  }

  /** Within one minute of the entry's time of day, counted inside one day (no wrap at midnight). */
  predicate InWindow(clock: WallClock, h: int, m: int)
  {
    Abs((clock.hour * 60 + clock.minute) - (h * 60 + m)) <= 1
  }

  /** No watering yet, or at least five minutes since the last one. */
  predicate GuardAllows(last: Option<real>, now: real)
  {
    last.None? || (now - last.value) / 60.0 >= ScheduleGuardMinutes
  }

  /** What the loop does with one entry: go on to the next, start the pump, or raise. */
  datatype Verdict = Pass | Fire(duration: real) | Raise

  /** The body of the loop for one entry. */
  function EntryVerdict(e: ScheduleEntry, clock: WallClock, now: real, pumpOn: bool, last: Option<real>): (v: Verdict)
    ensures v.Fire? <==>
      e.enabled.GetOr(true) && DayName(clock.day) in e.days.GetOr([])
      && ParseScheduleTime(e.time.GetOr("")).Some?
      && InWindow(clock, ParseScheduleTime(e.time.GetOr("")).value.0, ParseScheduleTime(e.time.GetOr("")).value.1)
      && GuardAllows(last, now) && !pumpOn
    ensures v.Fire? ==> v.duration == EntryMinutes(e)
    ensures v.Raise? <==>
      e.enabled.GetOr(true) && DayName(clock.day) in e.days.GetOr([]) && ParseScheduleTime(e.time.GetOr("")).None?
  {
    if !e.enabled.GetOr(true) then Pass
    else if DayName(clock.day) !in e.days.GetOr([]) then Pass
    else
      match ParseScheduleTime(e.time.GetOr(""))
      case None => Raise
      case Some((h, m)) =>
        if !InWindow(clock, h, m) then Pass
        else if !GuardAllows(last, now) then Pass
        else if pumpOn then Pass
        else Fire(EntryMinutes(e))
  }

  /** Result of one call: the entry that started the pump, none, or the entry whose time raised. */
  datatype ScheduleOutcome = Triggered(index: nat, duration: real) | NothingDue | Failed(index: nat)

  /** The search from position `from` on. */
  function DueFrom(entries: seq<ScheduleEntry>, from: nat, clock: WallClock, now: real, pumpOn: bool, last: Option<real>): (r: ScheduleOutcome)
    requires from <= |entries|
    ensures r.Triggered? ==>
      from <= r.index < |entries| && EntryVerdict(entries[r.index], clock, now, pumpOn, last) == Fire(r.duration)
      && forall j :: from <= j < r.index ==> EntryVerdict(entries[j], clock, now, pumpOn, last) == Pass
    ensures r.Failed? ==>
      from <= r.index < |entries| && EntryVerdict(entries[r.index], clock, now, pumpOn, last) == Raise
      && forall j :: from <= j < r.index ==> EntryVerdict(entries[j], clock, now, pumpOn, last) == Pass
    ensures r.NothingDue? ==>
      forall j :: from <= j < |entries| ==> EntryVerdict(entries[j], clock, now, pumpOn, last) == Pass
    decreases |entries| - from
  {
    if from == |entries| then NothingDue
    else
      match EntryVerdict(entries[from], clock, now, pumpOn, last)
      case Fire(d) => Triggered(from, d)
      case Raise => Failed(from)
      case Pass => DueFrom(entries, from + 1, clock, now, pumpOn, last)
  }

  /** The whole list, as one call of `check_scheduled_watering` sees it. */
  function Due(entries: seq<ScheduleEntry>, clock: WallClock, now: real, pumpOn: bool, last: Option<real>): (r: ScheduleOutcome)
    ensures pumpOn ==> !r.Triggered?
    ensures r.Triggered? ==> GuardAllows(last, now)
  {
    DueFrom(entries, 0, clock, now, pumpOn, last)
  }

  /** One step of the search: an entry that passes hands over to the next, one that fires or raises ends it. */
  lemma DueStep(entries: seq<ScheduleEntry>, i: nat, clock: WallClock, now: real, pumpOn: bool, last: Option<real>)
    requires i < |entries|
    ensures var v := EntryVerdict(entries[i], clock, now, pumpOn, last);
      (v == Pass ==> DueFrom(entries, i, clock, now, pumpOn, last) == DueFrom(entries, i + 1, clock, now, pumpOn, last))
      && (v.Fire? ==> DueFrom(entries, i, clock, now, pumpOn, last) == Triggered(i, v.duration))
      && (v == Raise ==> DueFrom(entries, i, clock, now, pumpOn, last) == Failed(i))
  {
  }

  /** The body of the loop of `check_scheduled_watering` for one entry, as it is written. */
  method CheckEntry(schedule: ScheduleEntry, clock: WallClock, now: real, pumpOn: bool, last: Option<real>) returns (v: Verdict)
    ensures v == EntryVerdict(schedule, clock, now, pumpOn, last)
  {
    if !schedule.enabled.GetOr(true) {
      return Pass;
    }
    var days := schedule.days.GetOr([]);
    if DayName(clock.day) !in days {
      return Pass;
    }
    var hm := ParseScheduleTime(schedule.time.GetOr(""));
    if hm.None? {
      return Raise;
    }
    var timeDiff := Abs((clock.hour * 60 + clock.minute) - (hm.value.0 * 60 + hm.value.1));
    if timeDiff <= 1 {
      if last.Some? && (now - last.value) / 60.0 < ScheduleGuardMinutes {
        return Pass;
      }
      if !pumpOn {
        return Fire(EntryMinutes(schedule));
      }
    }
    return Pass;
  }

  /** The loop of `check_scheduled_watering` over the entries: `continue` on a pass, `return` on a start or a raise. */
  method FindDue(entries: seq<ScheduleEntry>, clock: WallClock, now: real, pumpOn: bool, last: Option<real>) returns (r: ScheduleOutcome)
    ensures r == Due(entries, clock, now, pumpOn, last)
  {
    var i := 0;
    while i < |entries|
      invariant 0 <= i <= |entries|
      invariant DueFrom(entries, i, clock, now, pumpOn, last) == Due(entries, clock, now, pumpOn, last)
    {
      DueStep(entries, i, clock, now, pumpOn, last);
      var v := CheckEntry(entries[i], clock, now, pumpOn, last);
      match v
      case Raise =>
        return Failed(i);
      case Fire(d) =>
        return Triggered(i, d);
      case Pass =>
        i := i + 1;
    }
    return NothingDue;
  }

  /** A time written `H:M` in decimal digits is read back as its hour and minute. */
  lemma ScheduleTimeText(h: nat, m: nat)
    ensures ParseScheduleTime(NatStr(h) + ":" + NatStr(m)) == Some((h as int, m as int))
  {
    var hs, ms := NatStr(h), NatStr(m);
    DigitsExclude(hs, ':');
    DigitsExclude(ms, ':');
    assert hs + ":" + ms == hs + [':'] + ms;
    SplitAt(hs, ms, ':');
    SplitWithout(ms, ':');
    ParseIntNatStr(h);
    ParseIntNatStr(m);
  }

  /** The window is computed inside one day: 23:59 is not within a minute of 00:00. */
  lemma NoMidnightWrap(day: Weekday)
    ensures !InWindow(WallClock(day, 23, 59), 0, 0)
  {
  }

  /** An entry fires only on a listed day: removing today from its days stops it firing. */
  lemma NotToday(e: ScheduleEntry, clock: WallClock, now: real, pumpOn: bool, last: Option<real>)
    requires DayName(clock.day) !in e.days.GetOr([])
    ensures EntryVerdict(e, clock, now, pumpOn, last) == Pass
  {
  }
}
