/** The KPI delta engine (`kpi_delta_engine`): compare the KPI values of a baseline context and a
    scenario context, one record per baseline KPI that the scenario also carries, each classified
    by the direction and the magnitude of its change.

    The baseline's `kpis` dict is iterated, so it is an ordered list of (name, state) pairs here;
    the scenario's `kpis` dict is only looked up, so it is a map. A context without a `kpis` key
    is `None`. The delta is exact (the source rounds the reported delta to two places, but
    classifies the unrounded one).
 */
module KpiDelta {
  import opened Values

  datatype Direction = Up | Down | Flat

  datatype Signal = Strong | Moderate | Weak | NoSignal

  datatype DeltaRecord = DeltaRecord(
    kpi: string,
    baseline: Value,
    scenario: Value,
    delta: real,
    direction: Direction,
    signal: Signal)

  function Abs(x: real): real
  {
    if x < 0.0 then -x else x
  }

  /** `_direction`. */
  function DirectionOf(delta: real): (d: Direction)
    ensures d == Up <==> delta > 0.0
    ensures d == Down <==> delta < 0.0
    ensures d == Flat <==> delta == 0.0
  {
    if delta > 0.0 then Up
    else if delta < 0.0 then Down
    else Flat
  }

  /** `_signal`: strong from 10, moderate from 3, weak above 0, none at 0, on the magnitude. */
  function SignalOf(delta: real): (s: Signal)
    ensures s == Strong <==> Abs(delta) >= 10.0
    ensures s == Moderate <==> 3.0 <= Abs(delta) < 10.0
    ensures s == Weak <==> 0.0 < Abs(delta) < 3.0
    ensures s == NoSignal <==> delta == 0.0
  {
    var magnitude := Abs(delta);
    if magnitude >= 10.0 then Strong
    else if magnitude >= 3.0 then Moderate
    else if magnitude > 0.0 then Weak
    else NoSignal
  }

  /** A change is flat exactly when it carries no signal. */
  lemma FlatIffNoSignal(delta: real)
    ensures DirectionOf(delta) == Flat <==> SignalOf(delta) == NoSignal
  {
  }

  /** `scen_val - base_val`: a TypeError unless both are numbers. */
  function Subtract(scenario: Value, baseline: Value): (r: Result<real, PyError>)
    ensures r.Ok? <==> AsNumber(scenario).Some? && AsNumber(baseline).Some?
    ensures r.Ok? ==> r.value == AsNumber(scenario).value - AsNumber(baseline).value
  {
    match (AsNumber(scenario), AsNumber(baseline))
    case (Some(s), Some(b)) => Ok(s - b)
    case _ => Err(TypeError)
  }

  /** One iteration of the loop: no record when the scenario lacks the KPI or maps it to an empty
      state, otherwise the record, or the error the subscripts or the subtraction raise. */
  function Step(kpi: string, baseState: Value, scenarioKpis: Option<Fields>): Result<Option<DeltaRecord>, PyError>
  {
    if scenarioKpis.None? then Err(KeyError("kpis"))
    else if !TruthyAt(scenarioKpis.value, kpi) then Ok(None)
    else
      match Subscript(baseState, "value")
      case Err(e) => Err(e)
      case Ok(baseVal) =>
        var scenVal := scenarioKpis.value[kpi];
        match Subscript(scenVal, "value")
        case Err(e) => Err(e)
        case Ok(scenVal) =>
          match Subtract(scenVal, baseVal)
          case Err(e) => Err(e)
          case Ok(delta) => Ok(Some(DeltaRecord(kpi, baseVal, scenVal, delta, DirectionOf(delta), SignalOf(delta))))
  }

  /** The records for the baseline KPIs in order, or the first error raised. */
  function Deltas(baselineKpis: seq<(string, Value)>, scenarioKpis: Option<Fields>): Result<seq<DeltaRecord>, PyError>
    decreases |baselineKpis|
  {
    if baselineKpis == [] then Ok([])
    else
      var n := |baselineKpis| - 1;
      match Deltas(baselineKpis[..n], scenarioKpis)
      case Err(e) => Err(e)
      case Ok(records) =>
        match Step(baselineKpis[n].0, baselineKpis[n].1, scenarioKpis)
        case Err(e) => Err(e)
        case Ok(None) => Ok(records)
        case Ok(Some(record)) => Ok(records + [record])
  }

  /** `compute_kpi_deltas`: a missing baseline `kpis` is a KeyError; the loop appends one record
      per compared KPI. */
  method ComputeKpiDeltas(baselineKpis: Option<seq<(string, Value)>>, scenarioKpis: Option<Fields>)
    returns (r: Result<seq<DeltaRecord>, PyError>)
    ensures baselineKpis.None? ==> r == Err(KeyError("kpis"))
    ensures baselineKpis.Some? ==> r == Deltas(baselineKpis.value, scenarioKpis)
  {
    if baselineKpis.None? {
      return Err(KeyError("kpis"));
    }
    var kpis := baselineKpis.value;
    var deltas: seq<DeltaRecord> := [];
    var i := 0;
    while i < |kpis|
      invariant 0 <= i <= |kpis|
      invariant Deltas(kpis[..i], scenarioKpis) == Ok(deltas)
    {
      assert kpis[..i + 1][..i] == kpis[..i];
      var step := Step(kpis[i].0, kpis[i].1, scenarioKpis);
      if step.Err? {
        assert Deltas(kpis[..i + 1], scenarioKpis) == Err(step.error);
        ErrorPersists(kpis, i + 1, scenarioKpis);
        return Err(step.error);
      }
      if step.value.Some? {
        deltas := deltas + [step.value.value];
      }
      i := i + 1;
    }
    assert kpis[..i] == kpis;
    r := Ok(deltas);
  }

  /** Once an error is raised, the loop never reaches the later KPIs. */
  lemma {:induction false} ErrorPersists(kpis: seq<(string, Value)>, i: nat, scenarioKpis: Option<Fields>)
    requires i <= |kpis| && Deltas(kpis[..i], scenarioKpis).Err?
    ensures Deltas(kpis, scenarioKpis) == Deltas(kpis[..i], scenarioKpis)
    decreases |kpis| - i
  {
    if i < |kpis| {
      assert kpis[..i + 1][..i] == kpis[..i];
      ErrorPersists(kpis, i + 1, scenarioKpis);
    } else {
      assert kpis[..i] == kpis;
    }
  }

  /** The positions of the baseline KPIs that the scenario carries with a non-empty state, in
      baseline order. */
  function Compared(baselineKpis: seq<(string, Value)>, scenarioKpis: Fields): (r: seq<nat>)
    ensures |r| <= |baselineKpis|
    ensures forall i :: 0 <= i < |r| ==> r[i] < |baselineKpis|
    ensures forall i, k :: 0 <= i < k < |r| ==> r[i] < r[k]
    ensures forall j :: 0 <= j < |baselineKpis| ==> (j in r <==> TruthyAt(scenarioKpis, baselineKpis[j].0))
    decreases |baselineKpis|
  {
    if baselineKpis == [] then []
    else
      var n := |baselineKpis| - 1;
      var prefix := Compared(baselineKpis[..n], scenarioKpis);
      assert forall j :: 0 <= j < n ==> baselineKpis[..n][j] == baselineKpis[j];
      prefix + (if TruthyAt(scenarioKpis, baselineKpis[n].0) then [n] else [])
  }

  /** The record `compute_kpi_deltas` appends for a baseline entry: it names the KPI, the scenario
      carries that KPI with a non-empty state, the record holds the baseline entry's `value` and
      the scenario entry's `value`, both numbers, its delta is the second minus the first, and it
      is classified by `_direction` and `_signal`. */
  predicate RecordOf(record: DeltaRecord, entry: (string, Value), scenarioKpis: Fields)
  {
    && record.kpi == entry.0
    && TruthyAt(scenarioKpis, entry.0)
    && Subscript(entry.1, "value") == Ok(record.baseline)
    && Subscript(scenarioKpis[entry.0], "value") == Ok(record.scenario)
    && AsNumber(record.scenario).Some? && AsNumber(record.baseline).Some?
    && record.delta == AsNumber(record.scenario).value - AsNumber(record.baseline).value
    && record.direction == DirectionOf(record.delta)
    && record.signal == SignalOf(record.delta)
  }

  /** One step yields a record exactly for a KPI the scenario carries with a non-empty state, and
      then it is that entry's record. */
  lemma StepDescribesKpi(kpi: string, baseState: Value, scenarioKpis: Fields)
    requires Step(kpi, baseState, Some(scenarioKpis)).Ok?
    ensures Step(kpi, baseState, Some(scenarioKpis)).value.Some? <==> TruthyAt(scenarioKpis, kpi)
    ensures Step(kpi, baseState, Some(scenarioKpis)).value.Some? ==>
              RecordOf(Step(kpi, baseState, Some(scenarioKpis)).value.value, (kpi, baseState), scenarioKpis)
  {
  }

  /** On success there is one record per compared KPI, in baseline order (so never more records
      than baseline KPIs), and each is the record of its baseline entry. */
  lemma {:induction false} DeltasDescribeComparedKpis(baselineKpis: seq<(string, Value)>, scenarioKpis: Fields)
    requires Deltas(baselineKpis, Some(scenarioKpis)).Ok?
    ensures
      var records := Deltas(baselineKpis, Some(scenarioKpis)).value;
      var compared := Compared(baselineKpis, scenarioKpis);
      && |records| == |compared| <= |baselineKpis|
      && forall i :: 0 <= i < |records| ==> RecordOf(records[i], baselineKpis[compared[i]], scenarioKpis)
    decreases |baselineKpis|
  {
    if baselineKpis != [] {
      var n := |baselineKpis| - 1;
      var prefix := baselineKpis[..n];
      DeltasDescribeComparedKpis(prefix, scenarioKpis);
      var rs := Deltas(prefix, Some(scenarioKpis)).value;
      var cp := Compared(prefix, scenarioKpis);
      var step := Step(baselineKpis[n].0, baselineKpis[n].1, Some(scenarioKpis));
      StepDescribesKpi(baselineKpis[n].0, baselineKpis[n].1, scenarioKpis);
      var records := Deltas(baselineKpis, Some(scenarioKpis)).value;
      var compared := Compared(baselineKpis, scenarioKpis);
      if step.value.Some? {
        assert records == rs + [step.value.value];
        assert compared == cp + [n];
      } else {
        assert records == rs;
        assert compared == cp;
      }
      forall i | 0 <= i < |records|
        ensures RecordOf(records[i], baselineKpis[compared[i]], scenarioKpis)
      {
        if i < |rs| {
          assert records[i] == rs[i] && compared[i] == cp[i];
          assert baselineKpis[cp[i]] == prefix[cp[i]];
        }
      }
    }
  }

  /** Every record is about a baseline KPI that the scenario carries with a non-empty state. */
  lemma {:induction false} RecordsAreComparedKpis(baselineKpis: seq<(string, Value)>, scenarioKpis: Fields)
    requires Deltas(baselineKpis, Some(scenarioKpis)).Ok?
    ensures forall record :: record in Deltas(baselineKpis, Some(scenarioKpis)).value ==>
              TruthyAt(scenarioKpis, record.kpi) && exists j :: 0 <= j < |baselineKpis| && baselineKpis[j].0 == record.kpi
    decreases |baselineKpis|
  {
    if baselineKpis != [] {
      var n := |baselineKpis| - 1;
      RecordsAreComparedKpis(baselineKpis[..n], scenarioKpis);
      forall record | record in Deltas(baselineKpis[..n], Some(scenarioKpis)).value
        ensures exists j :: 0 <= j < |baselineKpis| && baselineKpis[j].0 == record.kpi
      {
        var j :| 0 <= j < n && baselineKpis[..n][j].0 == record.kpi;
        assert baselineKpis[j].0 == record.kpi;
      }
    }
  }

  /** With no baseline KPIs the scenario is never consulted, so even a scenario without `kpis`
      gives an empty list. */
  lemma NoBaselineKpisNoRecords(scenarioKpis: Option<Fields>)
    ensures Deltas([], scenarioKpis) == Ok([])
  {
  }
}
