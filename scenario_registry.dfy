/** The read-only scenario registry (`scenario_v09`): three named what-if scenarios, each a
    data-only override payload. The accessors return deep copies, which for values is the value
    itself: a caller can never reach the registry through what it is given.
 */
module ScenarioRegistry {
  import opened Values

  datatype ScenarioMeta = ScenarioMeta(scope: seq<string>, reversible: bool)

  datatype Scenario = Scenario(
    id: string,
    title: string,              // the `label` field (`label` is a Dafny keyword)
    description: string,
    overrides: Fields,
    meta: ScenarioMeta)

  /** `SCENARIOS`. */
  const Scenarios: map<string, Scenario> := map[
    "attrition_spike" := Scenario(
      "attrition_spike",
      "Attrition Spike (+25%)",
      "Simulates a sudden increase in employee attrition.",
      map["workforce" := Dict(map["attrition_rate_multiplier" := Num(1.25)])],
      ScenarioMeta(["attrition"], true)),
    "sentiment_drop" := Scenario(
      "sentiment_drop",
      "Sentiment Drop (-15%)",
      "Models a decline in overall employee sentiment.",
      map["sentiment" := Dict(map["engagement_index_delta" := Num(-0.15)])],
      ScenarioMeta(["sentiment"], true)),
    "manager_effectiveness_decline" := Scenario(
      "manager_effectiveness_decline",
      "Manager Effectiveness Decline",
      "Simulates reduced manager effectiveness across teams.",
      map["manager_effectiveness" := Dict(map["effectiveness_score_delta" := Num(-0.20)])],
      ScenarioMeta(["manager_effectiveness"], true))
  ]

  /** Every entry is filed under its own id and carries a non-empty override payload. */
  predicate WellFormed(registry: map<string, Scenario>)
  {
    forall id :: id in registry ==> registry[id].id == id && registry[id].overrides != map[]
  }

  /** Every registry entry's `id` equals its key and its payload is non-empty. */
  lemma RegistryWellFormed()
    ensures WellFormed(Scenarios)
  {
    forall id | id in Scenarios
      ensures Scenarios[id].id == id && Scenarios[id].overrides != map[]
    {
      if id == "attrition_spike" {
        assert "workforce" in Scenarios[id].overrides;
      } else if id == "sentiment_drop" {
        assert "sentiment" in Scenarios[id].overrides;
      } else {
        assert "manager_effectiveness" in Scenarios[id].overrides;
      }
    }
  }

  /** `list_scenarios`: the whole registry, with its three ids. */
  function ListScenarios(): (r: map<string, Scenario>)
    ensures r.Keys == {"attrition_spike", "sentiment_drop", "manager_effectiveness_decline"}
    ensures WellFormed(r)
  {
    RegistryWellFormed();
    Scenarios
  }

  /** `get_scenario_definition`: the entry for a registered id, None otherwise. */
  function GetScenarioDefinition(scenarioId: string): (r: Option<Scenario>)
    ensures r.Some? <==> scenarioId in ListScenarios()
    ensures r.Some? ==> r.value == ListScenarios()[scenarioId]
    ensures r.Some? ==> r.value.id == scenarioId && r.value.overrides != map[]
  {
    if scenarioId in Scenarios then Some(Scenarios[scenarioId]) else None
  }

  /** `get_scenario_overrides`: the payload of a registered id; `{}` for an unknown one. */
  function GetScenarioOverrides(scenarioId: string): (r: Fields)
    ensures scenarioId !in ListScenarios() ==> r == map[]
    ensures scenarioId in ListScenarios() ==> r == ListScenarios()[scenarioId].overrides
    ensures r != map[] <==> scenarioId in ListScenarios()
  {
    if scenarioId in Scenarios then Scenarios[scenarioId].overrides else map[]
  }

  /** The payload accessor agrees with the definition accessor on every id. */
  lemma OverridesAgreeWithDefinition(scenarioId: string)
    ensures GetScenarioOverrides(scenarioId)
            == (match GetScenarioDefinition(scenarioId) case Some(s) => s.overrides case None => map[])
  {
  }
}
