/**
 * The watering command returned to a remote sensor node by
 * `api_node_data`: the same first soil match as the control loop, but every
 * key read with a default, no interval guard, no timer, and only the two
 * watering texts answered with `water`.
 */
module NodeEndpoint {
  import opened Wrappers
  import opened Conditions
  import opened Scenarios
  import opened Settings

  /** The profile used when `current_scenario` is missing. */
  const DefaultProfile: string := "Monstera deliciosa"

  /** Minutes answered for a watering rule without a duration. */
  const DefaultNodeDuration: real := 1.0

  datatype NodeAction = NodeNone | NodeWater

  /** The command part of the reply: action, minutes (`null` copied from a rule), and the two mode flags. */
  datatype NodeCommand = NodeCommand(action: NodeAction, duration: Nullable<real>, maintenanceMode: bool, vacationMode: bool)

  /** `config.get('scenarios', {}).get(config.get('current_scenario', 'Monstera deliciosa'), [])`. */
  function NodeRules(c: Config): (r: seq<Rule>)
    ensures c.scenarios.None? ==> r == []
    ensures c.scenarios.Some? && c.currentScenario.GetOr(DefaultProfile) in c.scenarios.value ==>
      r == c.scenarios.value[c.currentScenario.GetOr(DefaultProfile)]
  {
    var profiles := c.scenarios.GetOr(map[]);
    var name := c.currentScenario.GetOr(DefaultProfile);
    if name in profiles then profiles[name] else []
  }

  /** The node's check of one rule: its soil condition holds for the reported value. */
  predicate SoilHolds(rule: Rule, soil: Option<real>)
  {
    soil.Some? && EvalCondition(soil, rule.soil)
  }

  /** A rule the node's search passes over. */
  predicate SoilSkipped(rule: Rule, soil: Option<real>)
  {
    !SoilHolds(rule, soil)
  }

  /** The index of the first rule whose soil condition holds (a missing condition never holds); never `KeyMissing`. */
  function NodeMatchFrom(rules: seq<Rule>, soil: Option<real>, from: nat): (r: MatchResult)
    requires from <= |rules|
    ensures !r.KeyMissing?
    ensures r.Matched? ==>
      from <= r.index < |rules| && SoilHolds(rules[r.index], soil)
      && forall j :: from <= j < r.index ==> SoilSkipped(rules[j], soil)
    ensures r.NoMatch? ==> forall j :: from <= j < |rules| ==> SoilSkipped(rules[j], soil)
    decreases |rules| - from
  {
    if from == |rules| then NoMatch
    else
      var rule := rules[from];
      var soilMatch := SoilHolds(rule, soil);
      if soilMatch then Matched(from) else NodeMatchFrom(rules, soil, from + 1)
  }

  /** The decision answers `water`: no maintenance, a soil value, and a first match whose action is a watering text. */
  predicate NodeWaters(c: Config, soil: Option<real>)
  {
    !c.maintenanceMode.GetOr(false) && soil.Some? && NodeMatchFrom(NodeRules(c), soil, 0).Matched?
    && IsWaterAction(NodeRules(c)[NodeMatchFrom(NodeRules(c), soil, 0).index].action.GetOr(ActionNoWater))
  }

  /** The matched rule's `get("Watering duration (minutes)", 1)`: one minute when missing, `null` kept. */
  function NodeRuleDuration(c: Config, soil: Option<real>): Nullable<real>
    requires NodeWaters(c, soil)
  {
    NodeRules(c)[NodeMatchFrom(NodeRules(c), soil, 0).index].duration.GetOr(NonNull(DefaultNodeDuration))
  }

  /**
   * The decision of lines 1245-1260, given the configuration read (or `{}`)
   * and the reported soil value.  `None` is the error reply of lines
   * 1264-1266, reached when vacation mode multiplies a `null` duration.
   */
  function NodeDecision(c: Config, soil: Option<real>): (r: Option<NodeCommand>)
    ensures r.Some? ==>
      r.value.maintenanceMode == c.maintenanceMode.GetOr(false) && r.value.vacationMode == c.vacationMode.GetOr(false)
    ensures r.Some? ==> (r.value.action == NodeWater <==> NodeWaters(c, soil))
    ensures !NodeWaters(c, soil) ==> r.Some? && r.value.action == NodeNone && r.value.duration == NonNull(0.0)
    ensures c.maintenanceMode.GetOr(false) || soil.None? ==> r.Some? && r.value.action == NodeNone
    ensures NodeWaters(c, soil) ==> (r.None? <==> c.vacationMode.GetOr(false) && NodeRuleDuration(c, soil).Null?)
    ensures NodeWaters(c, soil) && r.Some? ==>
      r.value.action == NodeWater
      && r.value.duration == (if c.vacationMode.GetOr(false) then NonNull(NodeRuleDuration(c, soil).value * 0.5)
                              else NodeRuleDuration(c, soil))
  {
    var maintenance := c.maintenanceMode.GetOr(false);
    var vacation := c.vacationMode.GetOr(false);
    var none := Some(NodeCommand(NodeNone, NonNull(0.0), maintenance, vacation));
    if maintenance || soil.None? then none
    else
      var rules := NodeRules(c);
      match NodeMatchFrom(rules, soil, 0)
      case Matched(i) =>
        var rule := rules[i];
        if IsWaterAction(rule.action.GetOr(ActionNoWater)) then
          var d := rule.duration.GetOr(NonNull(DefaultNodeDuration));
          if !vacation then Some(NodeCommand(NodeWater, d, maintenance, vacation))
          else
            match d
            case Null => None
            case NonNull(x) => Some(NodeCommand(NodeWater, NonNull(x * 0.5), maintenance, vacation))
        else none
      case _ => none
  }

  /** One step of the loop's search over a rule that has its condition keys. */
  lemma FindMatchStep(rules: seq<Rule>, air: Reading, from: nat)
    requires from < |rules| && KeysPresent(rules[from])
    ensures FindMatchFrom(rules, air, from)
      == if SoilMatches(rules[from], air) then Matched(from) else FindMatchFrom(rules, air, from + 1)
  {
  }

  /** Where every rule has its condition keys, the node's search selects the rule the loop selects. */
  lemma {:induction false} NodeMatchAgreesFrom(rules: seq<Rule>, air: Reading, from: nat)
    requires from <= |rules|
    requires forall j :: from <= j < |rules| ==> KeysPresent(rules[j])
    requires air.soil.Some?
    ensures FindMatchFrom(rules, air, from) == NodeMatchFrom(rules, air.soil, from)
    decreases |rules| - from
  {
    if from < |rules| {
      FindMatchStep(rules, air, from);
      NodeMatchAgreesFrom(rules, air, from + 1);
    }
  }

  lemma NodeMatchAgrees(rules: seq<Rule>, air: Reading)
    requires forall j :: 0 <= j < |rules| ==> KeysPresent(rules[j])
    requires air.soil.Some?
    ensures FindMatch(rules, air) == NodeMatchFrom(rules, air.soil, 0)
  {
    NodeMatchAgreesFrom(rules, air, 0);
  }

  /**
   * Unlike the loop, the node endpoint halves every duration under vacation
   * mode, including zero or negative ones.
   */
  lemma NodeHalvesNonPositive(c: Config, soil: real)
    requires !c.maintenanceMode.GetOr(false) && c.vacationMode.GetOr(false)
    requires NodeMatchFrom(NodeRules(c), Some(soil), 0).Matched?
    requires var rule := NodeRules(c)[NodeMatchFrom(NodeRules(c), Some(soil), 0).index];
      IsWaterAction(rule.action.GetOr(ActionNoWater)) && rule.duration == Some(NonNull(-2.0))
    ensures NodeDecision(c, Some(soil)) == Some(NodeCommand(NodeWater, NonNull(-1.0), false, true))
    ensures VacationDuration(-2.0, true) == -2.0
  {
  }
}
