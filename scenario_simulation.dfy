/** The non-mutating what-if simulator (`scenario_simulation_engine`): merge a registered
    scenario's payload into a copy of a context, with the same recursive merge the Context v1 store
    uses (its local `_apply_overrides` is the same algorithm as `_apply_changes`, modelled once as
    `DictMerge.ApplyChanges`). The base is a value here, so it can never be changed.
 */
module ScenarioSimulation {
  import opened Values
  import opened DictMerge
  import opened Overrides
  import opened ContextStore
  import opened ScenarioRegistry
  import opened ScenarioBoundary

  /** What `simulate_scenario` returns: the base itself for an unknown id, otherwise the base with
      the scenario's payload merged in. */
  function Simulated(base: Fields, scenarioId: string): Fields
  {
    var payload := GetScenarioOverrides(scenarioId);
    if payload == map[] then base else Merge(base, payload)
  }

  /** `simulate_scenario`: copy the base, fetch the payload, merge it into the copy in place. */
  method SimulateScenario(base: Fields, scenarioId: string) returns (simulated: Fields)
    ensures scenarioId !in ListScenarios() ==> simulated == base
    ensures simulated == Simulated(base, scenarioId)
  {
    simulated := base;
    var payload := GetScenarioOverrides(scenarioId);
    if payload == map[] {
      return;
    }
    simulated := ApplyChanges(simulated, payload);
  }

  /** Merging an empty patch changes nothing. */
  lemma MergeNothing(target: Fields)
    ensures Merge(target, map[]) == target
  {
  }

  /** Preview and commit share semantics: the simulated view is what resolving the base with one
      override carrying the scenario's payload gives. */
  lemma SimulationMatchesResolve(base: Fields, scenarioId: string, o: Override)
    requires o.changes == GetScenarioOverrides(scenarioId)
    ensures Simulated(base, scenarioId) == Resolve(base, [o])
  {
    assert [o][..0] == [];
    MergeNothing(base);
  }

  /** For a record with no scenario active, previewing a registered scenario on its effective view
      gives exactly the effective view that `apply_scenario` commits. */
  lemma PreviewMatchesCommit(context: Context, scenarioId: string, actor: string, now: Timestamp)
    requires Consistent(context)
    requires OfKind(context.overrides, ScenarioKind) == []
    requires scenarioId in ListScenarios()
    ensures AfterApplyScenario(context, scenarioId, actor, now).effective == Simulated(context.effective, scenarioId)
  {
    ClearScenarioRemovesAll(context, actor, now);
    AppliedScenarioRecord(context, scenarioId, actor, now);
    ResolveAppend(context.baseline, context.overrides, ScenarioEntry(scenarioId));
  }

  /** A place the scenario's payload does not touch keeps the base's value in the simulation. */
  lemma SimulationKeepsUntouched(base: Fields, scenarioId: string, path: seq<string>)
    requires path != [] && Untouched(GetScenarioOverrides(scenarioId), path)
    ensures Lookup(Simulated(base, scenarioId), path) == Lookup(base, path)
  {
    MergeKeepsUntouched(base, GetScenarioOverrides(scenarioId), path);
  }
}
