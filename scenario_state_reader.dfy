/** The active-scenario reader (`scenario_state_reader`): report the first scenario override of a
    Context v1 record, or else the record's `meta.active_scenario` marker when it is truthy. The
    record may lack any key; reading never changes it.
 */
module ScenarioStateReader {
  import opened Values
  import opened Overrides
  import opened SelfHealingContext

  /** What `get_active_scenario` returns: the `id`, `label` and `actor` of a scenario override, or
      the marker value found in `meta`, whatever it is. */
  datatype ActiveScenario =
    | FromOverride(id: string, title: string, actor: Option<string>)
    | Marker(value: Value)

  /** The index of the first override of a kind, if there is one. */
  function FirstOfKind(overrides: seq<Override>, kind: string): (r: Option<nat>)
    ensures r.Some? ==> r.value < |overrides| && overrides[r.value].kind == kind
    ensures r.Some? ==> forall j :: 0 <= j < r.value ==> overrides[j].kind != kind
    ensures r.None? <==> forall j :: 0 <= j < |overrides| ==> overrides[j].kind != kind
    decreases |overrides|
  {
    if overrides == [] then None
    else if overrides[0].kind == kind then Some(0)
    else match FirstOfKind(overrides[1..], kind)
      case None => None
      case Some(i) => Some(i + 1)
  }

  /** `context.get("meta", {}).get("active_scenario")`. */
  function MarkerOf(context: PartialContext): Option<Value>
  {
    if context.meta.Some? && "active_scenario" in context.meta.value.fields
    then Some(context.meta.value.fields["active_scenario"])
    else None
  }

  /** `get_active_scenario`: the first scenario override wins, its label defaulting to its id;
      otherwise a truthy marker; otherwise None. Missing `overrides` reads as an empty list. */
  function GetActiveScenario(context: PartialContext): (r: Option<ActiveScenario>)
    ensures
      var overrides := if context.overrides.Some? then context.overrides.value else [];
      match FirstOfKind(overrides, "scenario")
      case Some(i) =>
        r == Some(FromOverride(overrides[i].id,
                               if overrides[i].title.Some? then overrides[i].title.value else overrides[i].id,
                               overrides[i].actor))
      case None =>
        && (r.Some? <==> MarkerOf(context).Some? && Truthy(MarkerOf(context).value))
        && (r.Some? ==> r == Some(Marker(MarkerOf(context).value)))
  {
    var overrides := if context.overrides.Some? then context.overrides.value else [];
    match FirstOfKind(overrides, "scenario")
    case Some(i) =>
      var o := overrides[i];
      Some(FromOverride(o.id, if o.title.Some? then o.title.value else o.id, o.actor))
    case None =>
      var marker := MarkerOf(context);
      if marker.Some? && Truthy(marker.value) then Some(Marker(marker.value)) else None
  }

  /** The reader reports a scenario override exactly when the record holds one, and then it is the
      first one in list order. */
  lemma ReportsFirstScenarioOverride(context: PartialContext)
    requires context.overrides.Some?
    ensures
      (exists j :: 0 <= j < |context.overrides.value| && context.overrides.value[j].kind == "scenario")
      <==> GetActiveScenario(context).Some? && GetActiveScenario(context).value.FromOverride?
  {
  }

  /** Without overrides and without a marker there is no active scenario. */
  lemma NothingActive(context: PartialContext)
    requires context.overrides.None? || forall j :: 0 <= j < |context.overrides.value| ==> context.overrides.value[j].kind != "scenario"
    requires MarkerOf(context).None? || !Truthy(MarkerOf(context).value)
    ensures GetActiveScenario(context) == None
  {
  }
}
