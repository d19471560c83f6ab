/**
 * Concrete cases of the engine's behaviour: a three-band plant profile,
 * the interval guard, the timer thresholds, a scheduled entry, the
 * vacation halving, and the `null` durations of the schedule and the rules.
 */
module WorkedExamples {
  import opened Wrappers
  import opened PyStr
  import opened Conditions
  import opened Scenarios
  import opened Scheduler
  import opened Pump
  import opened Settings
  import opened Monitor

  /** Too wet: no water; too dry: water 1.5 minutes; in between: water lightly 0.5 minutes. */
  function BandProfile(): seq<Rule>
  {
    [ Rule(Text(">55"), Text(""), Text(""), Some(ActionNoWater), Some(NonNull(0.0))),
      Rule(Text("<35"), Text(""), Text(""), Some(ActionWater), Some(NonNull(1.5))),
      Rule(Text("35-55"), Text(""), Text(""), Some(ActionLightWater), Some(NonNull(0.5))) ]
  }

  function SoilOnly(v: Option<real>): Reading
  {
    Reading(v, None, None)
  }

  lemma BandTexts()
    ensures ">" + "" + NatStr(55) == ">55"
    ensures "<" + "" + NatStr(35) == "<35"
    ensures NatStr(35) + "-" + NatStr(55) == "35-55"
  {
  }

  /** The wet rule's condition holds exactly above 55. */
  lemma WetCondition(v: real)
    ensures EvalCondition(Some(v), Text(">55")) <==> v > 55.0
  {
    BandTexts();
    GreaterMeaning("", 55, v);
  }

  /** The dry rule's condition holds exactly below 35. */
  lemma DryCondition(v: real)
    ensures EvalCondition(Some(v), Text("<35")) <==> v < 35.0
  {
    BandTexts();
    LessMeaning("", 35, v);
  }

  /** The middle rule's condition holds exactly from 35 to 55. */
  lemma MiddleCondition(v: real)
    ensures EvalCondition(Some(v), Text("35-55")) <==> 35.0 <= v <= 55.0
  {
    BandTexts();
    RangeMeaning(35, 55, v);
  }

  /** In a three-rule profile, a first rule that matches is selected. */
  lemma FirstOfThree(r0: Rule, r1: Rule, r2: Rule, reading: Reading)
    requires KeysPresent(r0) && SoilMatches(r0, reading)
    ensures FindMatch([r0, r1, r2], reading) == Matched(0)
  {
    FirstMatchUnique([r0, r1, r2], reading, 0);
  }

  /** In a three-rule profile, passing over the first rule and matching the second selects the second. */
  lemma SecondOfThree(r0: Rule, r1: Rule, r2: Rule, reading: Reading)
    requires PassedOver(r0, reading)
    requires KeysPresent(r1) && SoilMatches(r1, reading)
    ensures FindMatch([r0, r1, r2], reading) == Matched(1)
  {
    var rules := [r0, r1, r2];
    assert forall j :: 0 <= j < 1 ==> PassedOver(rules[j], reading);
    FirstMatchUnique(rules, reading, 1);
  }

  /** A soil reading above the wet band selects the first rule. */
  lemma WetSoil(v: real)
    requires v > 55.0
    ensures FindMatch(BandProfile(), SoilOnly(Some(v))) == Matched(0)
  {
    var p := BandProfile();
    WetCondition(v);
    FirstOfThree(p[0], p[1], p[2], SoilOnly(Some(v)));
    assert p == [p[0], p[1], p[2]];
  }

  /** Below 35 the wet rule is passed over and the dry rule selects. */
  lemma DryRules(v: real)
    requires v < 35.0
    ensures PassedOver(BandProfile()[0], SoilOnly(Some(v)))
    ensures KeysPresent(BandProfile()[1]) && SoilMatches(BandProfile()[1], SoilOnly(Some(v)))
  {
    WetCondition(v);
    DryCondition(v);
  }

  /** A dry reading passes over the wet rule and selects the watering rule. */
  lemma DrySoil(v: real)
    requires v < 35.0
    ensures FindMatch(BandProfile(), SoilOnly(Some(v))) == Matched(1)
  {
    var p := BandProfile();
    DryRules(v);
    SecondOfThree(p[0], p[1], p[2], SoilOnly(Some(v)));
    assert p == [p[0], p[1], p[2]];
  }

  /** Between 35 and 55 the first two rules are passed over. */
  lemma MiddlePassesOver(v: real)
    requires 35.0 <= v <= 55.0
    ensures PassedOver(BandProfile()[0], SoilOnly(Some(v))) && PassedOver(BandProfile()[1], SoilOnly(Some(v)))
  {
    WetCondition(v);
    DryCondition(v);
  }

  /** The middle rule selects a reading between 35 and 55. */
  lemma MiddleSelects(v: real)
    requires 35.0 <= v <= 55.0
    ensures KeysPresent(BandProfile()[2]) && SoilMatches(BandProfile()[2], SoilOnly(Some(v)))
  {
    MiddleCondition(v);
  }

  /** In a three-rule profile, passing over the first two and matching the third selects the third. */
  lemma ThirdOfThree(r0: Rule, r1: Rule, r2: Rule, reading: Reading)
    requires PassedOver(r0, reading) && PassedOver(r1, reading)
    requires KeysPresent(r2) && SoilMatches(r2, reading)
    ensures FindMatch([r0, r1, r2], reading) == Matched(2)
  {
    var rules := [r0, r1, r2];
    assert forall j :: 0 <= j < 2 ==> PassedOver(rules[j], reading);
    FirstMatchUnique(rules, reading, 2);
  }

  /** A reading in the middle band falls through to the range rule. */
  lemma MiddleSoil(v: real)
    requires 35.0 <= v <= 55.0
    ensures FindMatch(BandProfile(), SoilOnly(Some(v))) == Matched(2)
  {
    var p := BandProfile();
    MiddlePassesOver(v);
    MiddleSelects(v);
    ThirdOfThree(p[0], p[1], p[2], SoilOnly(Some(v)));
    assert p == [p[0], p[1], p[2]];
  }

  /** Without a soil reading nothing is selected. */
  lemma NoSoil()
    ensures FindMatch(BandProfile(), SoilOnly(None)) == NoMatch
  {
    assert forall j :: 0 <= j < 3 ==> PassedOver(BandProfile()[j], SoilOnly(None));
  }

  /** Thirty-minute guard: ten minutes after the last watering refuses, thirty-one allows. */
  lemma IntervalCases(t: real)
    ensures !IntervalElapsed(Some(t), t + 600.0, 30.0)
    ensures IntervalElapsed(Some(t), t + 1860.0, 30.0)
  {
  }

  /** A one-minute plan: 0.9 minutes keep running, 1.0 stops normally, 1.6 is a leak. */
  lemma TimerCases(t: real, log: seq<WateringEvent>)
    ensures var s := PumpState(true, Some(t), Some(1.0), Some(t), log);
      TimerVerdictAt(s, t + 54.0) == KeepRunning
      && TimerVerdictAt(s, t + 60.0) == DurationReached
      && TimerVerdictAt(s, t + 96.0) == LeakDetected
  {
  }

  /** Exactly one and a half times the plan is still a normal stop: the leak comparison is strict. */
  lemma LeakBoundaryIsNormalStop(t: real, log: seq<WateringEvent>)
    ensures TimerVerdictAt(PumpState(true, Some(t), Some(1.0), Some(t), log), t + 90.0) == DurationReached
  {
  }

  /** `int("06")` is 6. */
  lemma ParseLeadingZero()
    ensures ParseInt("06") == Some(6) && ParseInt("00") == Some(0)
  {
    StripDigits("06");
    StripDigits("00");
    assert "06"[..1] == "0" && "00"[..1] == "0" && "0"[..0] == "";
    assert DigitsValue("0") == 0;
    assert DigitsValue("06") == 6 && DigitsValue("00") == 0;
  }

  /** `"06:00"` splits into `"06"` and `"00"`. */
  lemma SplitSixHundred()
    ensures Split("06:00", ':') == ["06", "00"]
  {
    assert "06:00" == "06" + [':'] + "00";
    DigitsExclude("06", ':');
    DigitsExclude("00", ':');
    SplitAt("06", "00", ':');
    SplitWithout("00", ':');
  }

  /** The schedule time `"06:00"` is six o'clock. */
  lemma ZeroSixHundred()
    ensures ParseScheduleTime("06:00") == Some((6, 0))
  {
    SplitSixHundred();
    ParseLeadingZero();
  }

  /** Monday 06:00 for two minutes: due at 06:01 when the last watering was ten minutes ago, not at 06:03. */
  lemma ScheduleCases(now: real)
    ensures var e := ScheduleEntry(Some("06:00"), Some(["monday"]), Some(NonNull(2.0)), None);
      EntryVerdict(e, WallClock(Monday, 6, 1), now, false, Some(now - 600.0)) == Fire(2.0)
      && EntryVerdict(e, WallClock(Monday, 6, 3), now, false, Some(now - 600.0)) == Pass
  {
    ZeroSixHundred();
  }

  /** Vacation mode starts a 1.5-minute rule for 0.75 minutes. */
  lemma VacationCase()
    ensures VacationDuration(1.5, true) == 0.75
  {
  }

  /** A configuration selecting the three-band profile, with vacation mode on and the other keys missing. */
  function BandConfig(): Config
  {
    Config(None, Some(true), None, None, Some(map["band" := BandProfile()]), Some("band"), map[])
  }

  /**
   * Dry soil under vacation mode: the pass selects the second rule and
   * starts a stopped pump for half its 1.5 minutes, past the default
   * 30-minute interval.
   */
  lemma DryPassStartsPump(p: PumpState, v: real, now: real)
    requires v < 35.0 && !p.pumpOn && p.last.None?
    ensures ScenarioStep(p, BandConfig(), true, SoilOnly(Some(v)), now)
      == (Started(p, now, 0.75, true), Applied(1, ActionWater, NonNull(0.75), 30.0))
  {
    DrySoil(v);
    var c := BandConfig();
    assert CurrentRules(c) == Some(BandProfile());
    assert BandProfile()[1].action == Some(ActionWater) && BandProfile()[1].duration == Some(NonNull(1.5));
    assert HalvedDuration(NonNull(1.5), true) == Some(NonNull(0.75));
    assert RuleAction(p, ActionWater, NonNull(0.75), 30.0, now) == Started(p, now, 0.75, true);
  }

  /** A due entry with `"duration": null`: as written it plans `None`; the model runs the one-minute default. */
  lemma NullScheduleCase(now: real)
    ensures var e := ScheduleEntry(Some("06:00"), Some(["monday"]), Some(Null), None);
      EntryVerdict(e, WallClock(Monday, 6, 0), now, false, None) == Fire(1.0)
      && EntryMinutesAsWritten(e).None?
  {
    ZeroSixHundred();
  }

  /** "Arroser" with `null` on a stopped pump: as written an unplanned run starts; the model leaves the pump off. */
  lemma NullRuleCase(p: PumpState, now: real)
    requires Consistent(p) && !p.pumpOn && p.last.None?
    ensures RuleActionAsWritten(p, ActionWater, Null, 30.0, now) == StartedWithoutPlan(p, now)
    ensures RuleAction(p, ActionWater, Null, 30.0, now) == p
  {
  }
}
