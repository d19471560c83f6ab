/**
 * The plant rule table and the first-match search of the control loop
 * (app.py, inside `monitor_humidity`).  A rule is selected by its soil
 * condition alone; the air conditions are evaluated and then ignored.
 */
module Scenarios {
  import opened Wrappers
  import opened Conditions

  /** The four action texts the loop acts on; any other text does nothing. */
  const ActionWater := "Arroser"
  const ActionLightWater := "Arroser légèrement"
  const ActionMonitor := "Surveiller, arroser si nécessaire"
  const ActionNoWater := "Pas d'arrosage"

  /** The two texts that water whenever the guards allow it. */
  predicate IsWaterAction(action: string)
  {
    action == ActionWater || action == ActionLightWater
  }

  /**
   * One row of a plant profile.  `Absent` and `None` stand for a key missing
   * from the JSON object; a present duration may be a number or `null`.
   */
  datatype Rule = Rule(
    soil: Field,
    airTemperature: Field,
    airHumidity: Field,
    action: Option<string>,
    duration: Option<Nullable<real>>)

  /** One snapshot of the sensors; `None` is a failed read. */
  datatype Reading = Reading(soil: Option<real>, airTemperature: Option<real>, airHumidity: Option<real>)

  /** The three condition keys the loop reads from every rule it examines. */
  predicate KeysPresent(r: Rule)
  {
    !r.soil.Absent? && !r.airTemperature.Absent? && !r.airHumidity.Absent?
  }

  /** The selecting condition: a soil reading is present and satisfies the soil condition. */
  predicate SoilMatches(r: Rule, reading: Reading)
  {
    reading.soil.Some? && EvalCondition(reading.soil, r.soil)
  }

  /** A rule the search passes over without stopping. */
  predicate PassedOver(r: Rule, reading: Reading)
  {
    KeysPresent(r) && !SoilMatches(r, reading)
  }

  /**
   * Result of the search: the index of the selected rule, no rule, or the
   * index of a rule whose condition key is missing (the `KeyError` that ends
   * the tick).
   */
  datatype MatchResult = Matched(index: nat) | NoMatch | KeyMissing(index: nat)

  /** The search from position `from` on. */
  function FindMatchFrom(rules: seq<Rule>, reading: Reading, from: nat): (m: MatchResult)
    requires from <= |rules|
    ensures m.Matched? ==>
      from <= m.index < |rules| && KeysPresent(rules[m.index]) && SoilMatches(rules[m.index], reading)
      && forall j :: from <= j < m.index ==> PassedOver(rules[j], reading)
    ensures m.KeyMissing? ==>
      from <= m.index < |rules| && !KeysPresent(rules[m.index])
      && forall j :: from <= j < m.index ==> PassedOver(rules[j], reading)
    ensures m.NoMatch? ==> forall j :: from <= j < |rules| ==> PassedOver(rules[j], reading)
    decreases |rules| - from
  {
    if from == |rules| then NoMatch
    else
      var rule := rules[from];
      if !KeysPresent(rule) then KeyMissing(from)
      else
        var soilMatch := SoilMatches(rule, reading);
        // evaluated as the loop does, and never consulted
        var temperatureMatch := reading.airTemperature.None? || EvalCondition(reading.airTemperature, rule.airTemperature);
        var humidityMatch := reading.airHumidity.None? || EvalCondition(reading.airHumidity, rule.airHumidity);
        if soilMatch then Matched(from) else FindMatchFrom(rules, reading, from + 1)
  }

  /** The `for scenario in scenarios ... break` search over the current profile: the first rule whose soil condition holds. */
  function FindMatch(rules: seq<Rule>, reading: Reading): (m: MatchResult)
    ensures reading.soil.None? ==> !m.Matched?
  {
    FindMatchFrom(rules, reading, 0)
  }

  /** The selection does not depend on the air temperature or the air humidity. */
  lemma {:induction false} AirReadingsIgnoredFrom(rules: seq<Rule>, r1: Reading, r2: Reading, from: nat)
    requires from <= |rules|
    requires r1.soil == r2.soil
    ensures FindMatchFrom(rules, r1, from) == FindMatchFrom(rules, r2, from)
    decreases |rules| - from
  {
    if from < |rules| {
      AirReadingsIgnoredFrom(rules, r1, r2, from + 1);
    }
  }

  lemma AirReadingsIgnored(rules: seq<Rule>, r1: Reading, r2: Reading)
    requires r1.soil == r2.soil
    ensures FindMatch(rules, r1) == FindMatch(rules, r2)
  {
    AirReadingsIgnoredFrom(rules, r1, r2, 0);
  }

  /** The first-match search is the only one satisfying its contract: any index with the first-match property is the one found. */
  lemma {:induction false} FirstMatchUnique(rules: seq<Rule>, reading: Reading, i: nat)
    requires i < |rules| && KeysPresent(rules[i]) && SoilMatches(rules[i], reading)
    requires forall j :: 0 <= j < i ==> PassedOver(rules[j], reading)
    ensures FindMatch(rules, reading) == Matched(i)
  {
  }

  /** Duration after vacation mode: halved, but only when positive. */
  function VacationDuration(d: real, vacation: bool): (r: real)
    ensures vacation && d > 0.0 ==> 0.0 < r < d && r * 2.0 == d
    ensures !(vacation && d > 0.0) ==> r == d
  {
    if vacation && d > 0.0 then d * 0.5 else d
  }

  /**
   * Line 270 with a duration that may be `null`: `vacation_mode and d > 0`
   * compares `null > 0` when vacation is on, which raises (`None`); with
   * vacation off the comparison is skipped and `null` passes through.
   */
  function HalvedDuration(d: Nullable<real>, vacation: bool): (r: Option<Nullable<real>>)
    ensures r.None? <==> vacation && d.Null?
    ensures !vacation ==> r == Some(d)
    ensures d.NonNull? ==> r == Some(NonNull(VacationDuration(d.value, vacation)))
  {
    match d
    case Null => if vacation then None else Some(Null)
    case NonNull(x) => Some(NonNull(VacationDuration(x, vacation)))
  }
}
