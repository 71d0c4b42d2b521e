/** The scenario-to-override adapter (`scenario_override_adapter`): translates a v0.9 scenario
    payload into a Context v1 override request, keeping only its `strategy` and `kpis` parts.
 */
module ScenarioAdapter {
  import opened Values
  import opened Overrides
  import ContextStore

  /** The only payload keys the adapter carries over, in the order it copies them. */
  const CarriedKeys: set<string> := {"strategy", "kpis"}

  /** `scenario_to_override`: a scenario-typed, expiring override under the scenario's id and
      label, whose changes are the payload's `strategy` and `kpis` entries, each when present, and
      whose `applies_to` names exactly those keys. */
  function ScenarioToOverride(scenarioId: string, title: string, payload: Fields): (r: OverrideRequest)
    ensures r.id == Some(scenarioId) && r.kind == Some("scenario") && r.title == Some(title)
    ensures r.expires == Some(true)
    ensures r.changes.Some? && r.appliesTo == Some(r.changes.value.Keys)
    ensures forall key :: key in r.changes.value <==> key in CarriedKeys && key in payload
    ensures forall key :: key in r.changes.value ==> r.changes.value[key] == payload[key]
  {
    var strategy := if "strategy" in payload then map["strategy" := payload["strategy"]] else map[];
    var kpis := if "kpis" in payload then map["kpis" := payload["kpis"]] else map[];
    var changes := strategy + kpis;
    OverrideRequest(Some(scenarioId), Some("scenario"), Some(title), Some(changes.Keys), Some(changes), Some(true))
  }

  /** A payload with neither `strategy` nor `kpis` becomes an override that changes nothing and
      applies to nothing. */
  lemma EmptyPayloadChangesNothing(scenarioId: string, title: string, payload: Fields)
    requires "strategy" !in payload && "kpis" !in payload
    ensures ScenarioToOverride(scenarioId, title, payload).changes == Some(map[])
    ensures ScenarioToOverride(scenarioId, title, payload).appliesTo == Some({})
  {
    var changes := ScenarioToOverride(scenarioId, title, payload).changes.value;
    assert changes.Keys == {};
  }

  /** Every adapted override is accepted by the Context v1 store: it is appended under the
      scenario's id, typed as a scenario, with the adapted changes. */
  lemma AdaptedOverrideApplies(context: ContextStore.Context, scenarioId: string, title: string, payload: Fields,
                               actor: string, now: Timestamp, freshId: string)
    ensures
      var request := ScenarioToOverride(scenarioId, title, payload);
      var r := ContextStore.ApplyOverride(context, request, actor, now, freshId);
      && r.Ok?
      && r.value.overrides[..|context.overrides|] == context.overrides
      && |r.value.overrides| == |context.overrides| + 1
      && r.value.overrides[|context.overrides|].id == scenarioId
      && r.value.overrides[|context.overrides|].kind == "scenario"
      && r.value.overrides[|context.overrides|].changes == request.changes.value
  {
    var request := ScenarioToOverride(scenarioId, title, payload);
    var r := ContextStore.ApplyOverride(context, request, actor, now, freshId);
    assert ContextStore.OverrideEntry(request, freshId).Ok?;
    assert r.value.overrides == context.overrides + [ContextStore.OverrideEntry(request, freshId).value];
  }
}
