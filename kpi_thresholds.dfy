/** Threshold resolution (`resolve_kpi_thresholds`): a client's own thresholds for a KPI take
    precedence over the defaults table.

    The defaults table is a parameter (`DEFAULT_KPI_THRESHOLDS`, which the module imports, is not
    part of this model). The active client is a dict or None; what it holds under `kpis` may be
    any value, and Python's `in` and subscript behave on it as they do on that kind of value.
 */
module KpiThresholds {
  import opened Values

  /** `DEFAULT_KPI_THRESHOLDS.get(kpi, {})`. */
  function DefaultFor(kpi: string, defaults: Fields): Value
  {
    if kpi in defaults then defaults[kpi] else Dict(map[])
  }

  /** A client dict holding `kpis[kpi].thresholds` through nested dicts. */
  predicate HasOwnThresholds(client: Fields, kpi: string)
  {
    && "kpis" in client && client["kpis"].Dict?
    && kpi in client["kpis"].fields && client["kpis"].fields[kpi].Dict?
    && "thresholds" in client["kpis"].fields[kpi].fields
  }

  /** `resolve_kpi_thresholds`: the four tests of the condition run left to right and stop at the
      first false one; a test on a value that is not a container raises. */
  function ResolveKpiThresholds(kpi: string, activeClient: Option<Fields>, defaults: Fields): (r: Result<Value, PyError>)
    ensures (activeClient.Some? && HasOwnThresholds(activeClient.value, kpi))
            ==> r == Ok(activeClient.value["kpis"].fields[kpi].fields["thresholds"])
    ensures (activeClient.None? || "kpis" !in activeClient.value) ==> r == Ok(DefaultFor(kpi, defaults))
    ensures r.Err? ==> r.error == TypeError
    ensures r.Err? ==> activeClient.Some? && "kpis" in activeClient.value && !HasOwnThresholds(activeClient.value, kpi)
  {
    if activeClient.None? || activeClient.value == map[] || "kpis" !in activeClient.value then
      Ok(DefaultFor(kpi, defaults))
    else
      var clientKpis := activeClient.value["kpis"];
      match Contains(clientKpis, kpi)
      case Err(e) => Err(e)
      case Ok(false) => Ok(DefaultFor(kpi, defaults))
      case Ok(true) =>
        match Subscript(clientKpis, kpi)
        case Err(e) => Err(e)
        case Ok(entry) =>
          match Contains(entry, "thresholds")
          case Err(e) => Err(e)
          case Ok(false) => Ok(DefaultFor(kpi, defaults))
          case Ok(true) => Subscript(entry, "thresholds")
  }

  /** With dicts all the way down the lookup never raises: the client's thresholds when it has
      them, the defaults entry otherwise. */
  lemma DictClientResolves(kpi: string, client: Fields, defaults: Fields)
    requires "kpis" in client && client["kpis"].Dict?
    requires kpi in client["kpis"].fields ==> client["kpis"].fields[kpi].Dict?
    ensures ResolveKpiThresholds(kpi, Some(client), defaults)
            == if HasOwnThresholds(client, kpi) then Ok(client["kpis"].fields[kpi].fields["thresholds"])
               else Ok(DefaultFor(kpi, defaults))
  {
  }

  /** A client KPI entry without `thresholds` falls back to the defaults. */
  lemma EntryWithoutThresholdsFallsBack(kpi: string, client: Fields, defaults: Fields)
    requires "kpis" in client && client["kpis"].Dict? && kpi in client["kpis"].fields
    requires client["kpis"].fields[kpi].Dict? && "thresholds" !in client["kpis"].fields[kpi].fields
    ensures ResolveKpiThresholds(kpi, Some(client), defaults) == Ok(DefaultFor(kpi, defaults))
  {
  }

  /** A KPI neither the client nor the defaults know resolves to an empty dict. */
  lemma UnknownKpiIsEmpty(kpi: string, activeClient: Option<Fields>, defaults: Fields)
    requires kpi !in defaults
    requires activeClient.Some? ==> "kpis" !in activeClient.value || (activeClient.value["kpis"].Dict? && kpi !in activeClient.value["kpis"].fields)
    ensures ResolveKpiThresholds(kpi, activeClient, defaults) == Ok(Dict(map[]))
  {
  }

  /** A list under `kpis` that names the KPI cannot be indexed by it, so the lookup raises. */
  lemma ListOfKpisRaises(kpi: string, client: Fields, defaults: Fields)
    requires "kpis" in client && client["kpis"].List? && Str(kpi) in client["kpis"].items
    ensures ResolveKpiThresholds(kpi, Some(client), defaults) == Err(TypeError)
  {
  }
}
