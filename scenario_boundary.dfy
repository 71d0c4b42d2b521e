/** The scenario application boundary (`scenario_application_boundary_v1`): the one place where
    scenarios touch a context. It drives a stateful context manager, first removing every active
    scenario override one call at a time and then applying the requested scenario's payload as a
    single override, so at most one scenario is active afterwards.

    The context manager class it calls (`ContextManagerV1`) is not part of this model's sources; its
    interface is fixed by the calls made here (`list_overrides`, `apply_override`,
    `remove_override`). `ContextManager` below is that class, holding one Context v1 record and
    changing it with the operations of `ContextStore`.
 */
module ScenarioBoundary {
  import opened Values
  import opened Overrides
  import opened ContextStore
  import opened ScenarioRegistry

  /** The `type` of the overrides this boundary owns. */
  const ScenarioKind: string := "scenario"

  /** The id under which a scenario's override is stored: `f"scenario_{scenario_id}"`. */
  function ScenarioOverrideId(scenarioId: string): string
  {
    "scenario_" + scenarioId
  }

  // ---------------------------------------------------------------------------------------------
  // Filters over the overrides list
  // ---------------------------------------------------------------------------------------------

  /** `[o for o in overrides if o["type"] == kind]`. */
  function OfKind(overrides: seq<Override>, kind: string): (r: seq<Override>)
    ensures forall o :: o in r <==> o in overrides && o.kind == kind
    ensures Subsequence(r, overrides)
    decreases |overrides|
  {
    if overrides == [] then []
    else if overrides[0].kind == kind then [overrides[0]] + OfKind(overrides[1..], kind)
    else OfKind(overrides[1..], kind)
  }

  /** The overrides of every other kind, in order. */
  function NotOfKind(overrides: seq<Override>, kind: string): (r: seq<Override>)
    ensures forall o :: o in r <==> o in overrides && o.kind != kind
    ensures Subsequence(r, overrides)
    decreases |overrides|
  {
    if overrides == [] then []
    else if overrides[0].kind != kind then [overrides[0]] + NotOfKind(overrides[1..], kind)
    else NotOfKind(overrides[1..], kind)
  }

  /** The ids of a list of overrides, in order. */
  function IdsOf(overrides: seq<Override>): (r: seq<string>)
    ensures |r| == |overrides|
  {
    seq(|overrides|, i requires 0 <= i < |overrides| => overrides[i].id)
  }

  /** The overrides whose id is none of `ids`, in order. */
  function WithoutIds(overrides: seq<Override>, ids: seq<string>): (r: seq<Override>)
    ensures forall o :: o in r <==> o in overrides && o.id !in ids
    ensures Subsequence(r, overrides)
    ensures ids == [] ==> r == overrides
    decreases |overrides|
  {
    if overrides == [] then []
    else if overrides[0].id in ids then WithoutIds(overrides[1..], ids)
    else [overrides[0]] + WithoutIds(overrides[1..], ids)
  }

  lemma IdOfMember(overrides: seq<Override>, o: Override)
    requires o in overrides
    ensures o.id in IdsOf(overrides)
  {
    var i :| 0 <= i < |overrides| && overrides[i] == o;
    assert IdsOf(overrides)[i] == o.id;
  }

  lemma OfKindAppend(overrides: seq<Override>, o: Override, kind: string)
    ensures OfKind(overrides + [o], kind) == OfKind(overrides, kind) + (if o.kind == kind then [o] else [])
    decreases |overrides|
  {
    if overrides != [] {
      assert (overrides + [o])[1..] == overrides[1..] + [o];
      OfKindAppend(overrides[1..], o, kind);
    }
  }

  lemma NotOfKindAppend(overrides: seq<Override>, o: Override, kind: string)
    ensures NotOfKind(overrides + [o], kind) == NotOfKind(overrides, kind) + (if o.kind != kind then [o] else [])
    decreases |overrides|
  {
    if overrides != [] {
      assert (overrides + [o])[1..] == overrides[1..] + [o];
      NotOfKindAppend(overrides[1..], o, kind);
    }
  }

  lemma WithoutIdsAppend(overrides: seq<Override>, o: Override, ids: seq<string>)
    ensures WithoutIds(overrides + [o], ids) == WithoutIds(overrides, ids) + (if o.id in ids then [] else [o])
    decreases |overrides|
  {
    if overrides != [] {
      assert (overrides + [o])[1..] == overrides[1..] + [o];
      WithoutIdsAppend(overrides[1..], o, ids);
    }
  }

  lemma {:induction false} WithoutIdsNoMatch(overrides: seq<Override>, ids: seq<string>)
    requires forall o :: o in overrides ==> o.id !in ids
    ensures WithoutIds(overrides, ids) == overrides
    decreases |overrides|
  {
    if overrides != [] {
      assert overrides[0] in overrides;
      WithoutIdsNoMatch(overrides[1..], ids);
    }
  }

  /** Removing one id and then a list of ids removes the lot. */
  lemma {:induction false} WithoutIdThenIds(overrides: seq<Override>, id: string, ids: seq<string>)
    ensures WithoutIds(WithoutId(overrides, id), ids) == WithoutIds(overrides, [id] + ids)
    decreases |overrides|
  {
    if overrides != [] {
      WithoutIdThenIds(overrides[1..], id, ids);
    }
  }

  /** A list with no override of a kind filters to the empty list. */
  lemma OfKindNone(overrides: seq<Override>, kind: string)
    requires forall o :: o in overrides ==> o.kind != kind
    ensures OfKind(overrides, kind) == []
  {
  }

  /** Removing by id exactly the ids of one kind leaves the overrides of the other kinds. */
  lemma {:induction false} WithoutIdsIsNotOfKind(overrides: seq<Override>, ids: seq<string>, kind: string)
    requires forall o :: o in overrides ==> (o.kind == kind <==> o.id in ids)
    ensures WithoutIds(overrides, ids) == NotOfKind(overrides, kind)
    decreases |overrides|
  {
    if overrides != [] {
      assert overrides[0] in overrides;
      WithoutIdsIsNotOfKind(overrides[1..], ids, kind);
    }
  }

  // ---------------------------------------------------------------------------------------------
  // What the boundary does to a context record
  // ---------------------------------------------------------------------------------------------

  /** The history entry `remove_override` logs for an id. */
  function RemovalEntry(id: string, actor: string, now: Timestamp): HistoryEntry
  {
    HistoryEntry(now, actor, "remove_override", "Removed override: " + id)
  }

  /** The entries logged by removing the ids one call at a time. */
  function RemovalEntries(ids: seq<string>, actor: string, now: Timestamp): (r: seq<HistoryEntry>)
    ensures |r| == |ids|
    decreases |ids|
  {
    if ids == [] then [] else [RemovalEntry(ids[0], actor, now)] + RemovalEntries(ids[1..], actor, now)
  }

  /** `remove_override` issued once per id, in order. */
  function RemoveEach(context: Context, ids: seq<string>, actor: string, now: Timestamp): Context
    decreases |ids|
  {
    if ids == [] then context
    else RemoveEach(RemoveOverride(context, ids[0], actor, now), ids[1..], actor, now)
  }

  /** Removing a list of ids one call at a time removes every override with one of the ids and
      keeps the rest in order. */
  lemma {:induction false} RemoveEachOverrides(context: Context, ids: seq<string>, actor: string, now: Timestamp)
    ensures RemoveEach(context, ids, actor, now).overrides == WithoutIds(context.overrides, ids)
    decreases |ids|
  {
    if ids != [] {
      RemoveEachOverrides(RemoveOverride(context, ids[0], actor, now), ids[1..], actor, now);
      WithoutIdThenIds(context.overrides, ids[0], ids[1..]);
      assert [ids[0]] + ids[1..] == ids;
    }
  }

  /** Each call moves the version on by one and logs one entry, in call order; the baseline stays. */
  lemma {:induction false} RemoveEachLog(context: Context, ids: seq<string>, actor: string, now: Timestamp)
    ensures
      var r := RemoveEach(context, ids, actor, now);
      && r.meta == context.meta.(version := context.meta.version + |ids|)
      && r.baseline == context.baseline
      && r.history == context.history + RemovalEntries(ids, actor, now)
    decreases |ids|
  {
    if ids != [] {
      var next := RemoveOverride(context, ids[0], actor, now);
      RemoveEachLog(next, ids[1..], actor, now);
      assert next.history + RemovalEntries(ids[1..], actor, now)
          == context.history + ([RemovalEntry(ids[0], actor, now)] + RemovalEntries(ids[1..], actor, now));
    }
  }

  /** Removing a list of ids one call at a time: every override with one of the ids is gone and
      the rest keep their order, the version has moved on once per call, the history holds one
      entry per call in call order; an empty list changes nothing. */
  lemma RemoveEachEffect(context: Context, ids: seq<string>, actor: string, now: Timestamp)
    ensures
      var r := RemoveEach(context, ids, actor, now);
      && r.overrides == WithoutIds(context.overrides, ids)
      && r.meta == context.meta.(version := context.meta.version + |ids|)
      && r.baseline == context.baseline
      && r.history == context.history + RemovalEntries(ids, actor, now)
      && (ids == [] ==> r == context)
  {
    RemoveEachOverrides(context, ids, actor, now);
    RemoveEachLog(context, ids, actor, now);
  }

  /** Each removal recomputes the effective view, so after at least one call it is consistent. */
  lemma {:induction false} RemoveEachConsistent(context: Context, ids: seq<string>, actor: string, now: Timestamp)
    requires Consistent(context) || ids != []
    ensures Consistent(RemoveEach(context, ids, actor, now))
    decreases |ids|
  {
    if ids != [] {
      RemoveEachConsistent(RemoveOverride(context, ids[0], actor, now), ids[1..], actor, now);
    }
  }

  /** `clear_scenario`: remove, one call each, the ids of the scenario overrides listed before the
      first removal. */
  function AfterClear(context: Context, actor: string, now: Timestamp): Context
  {
    RemoveEach(context, IdsOf(OfKind(context.overrides, ScenarioKind)), actor, now)
  }

  /** The request the context manager's `apply_override(override_id, override_type, payload)`
      is taken to build: the payload is the `changes`, its keys the `applies_to`, and `label` and
      `expires` take their defaults. */
  function ManagerRequest(overrideId: string, overrideType: string, payload: Fields): OverrideRequest
  {
    OverrideRequest(Some(overrideId), Some(overrideType), None, Some(payload.Keys), Some(payload), None)
  }

  /** The override a registered scenario is stored as. */
  function ScenarioEntry(scenarioId: string): Override
  {
    var payload := GetScenarioOverrides(scenarioId);
    Override(ScenarioOverrideId(scenarioId), ScenarioKind, Some(""), payload.Keys, payload, Some(true), None, None)
  }

  /** `apply_scenario`: clear, then apply the payload of a registered scenario; an unknown id stops
      after the clear. */
  function AfterApplyScenario(context: Context, scenarioId: string, actor: string, now: Timestamp): Context
  {
    var cleared := AfterClear(context, actor, now);
    var payload := GetScenarioOverrides(scenarioId);
    if payload == map[] then cleared
    else
      var id := ScenarioOverrideId(scenarioId);
      ContextStore.ApplyOverride(cleared, ManagerRequest(id, ScenarioKind, payload), actor, now, id).value
  }

  // ---------------------------------------------------------------------------------------------
  // The stateful context manager and the boundary's two entry points
  // ---------------------------------------------------------------------------------------------

  class ContextManager {
    var meta: Meta
    var baseline: Fields
    var overrides: seq<Override>
    var effective: Fields
    var history: seq<HistoryEntry>

    /** The Context v1 record the manager holds. */
    function Record(): Context
      reads this
    {
      Context(meta, baseline, overrides, effective, history)
    }

    constructor (context: Context)
      ensures Record() == context
    {
      meta := context.meta;
      baseline := context.baseline;
      overrides := context.overrides;
      effective := context.effective;
      history := context.history;
    }

    /** `list_overrides(override_type=kind)`. */
    method ListOverrides(kind: string) returns (r: seq<Override>)
      ensures r == OfKind(overrides, kind)
      ensures forall o :: o in r <==> o in overrides && o.kind == kind
    {
      r := OfKind(overrides, kind);
    }

    /** `apply_override(override_id, override_type, payload, actor)`: the record changes as
        `apply_override` of the Context v1 store changes it. */
    method ApplyOverride(overrideId: string, overrideType: string, payload: Fields, actor: string, now: Timestamp)
      modifies this
      ensures Record() == ContextStore.ApplyOverride(old(Record()), ManagerRequest(overrideId, overrideType, payload), actor, now, overrideId).value
    {
      var entry := Override(overrideId, overrideType, Some(""), payload.Keys, payload, Some(true), None, None);
      overrides := overrides + [entry];
      meta := meta.(version := meta.version + 1);
      history := history + [HistoryEntry(now, actor, "apply_override", "Applied override: " + "")];
      effective := FoldOverrides(baseline, overrides);
    }

    /** `remove_override(override_id, actor)`: the record changes as `remove_override` of the
        Context v1 store changes it. */
    method RemoveOverride(overrideId: string, actor: string, now: Timestamp)
      modifies this
      ensures Record() == ContextStore.RemoveOverride(old(Record()), overrideId, actor, now)
    {
      overrides := WithoutId(overrides, overrideId);
      meta := meta.(version := meta.version + 1);
      history := history + [RemovalEntry(overrideId, actor, now)];
      effective := FoldOverrides(baseline, overrides);
    }
  }

  /** `clear_scenario`: list the active scenario overrides once, then remove each by id. */
  method ClearScenario(contextManager: ContextManager, actor: string, now: Timestamp)
    modifies contextManager
    ensures contextManager.Record() == AfterClear(old(contextManager.Record()), actor, now)
  {
    ghost var start := contextManager.Record();
    var active := contextManager.ListOverrides(ScenarioKind);
    assert IdsOf(active)[0..] == IdsOf(active);
    var i := 0;
    while i < |active|
      invariant 0 <= i <= |active|
      invariant RemoveEach(contextManager.Record(), IdsOf(active)[i..], actor, now) == AfterClear(start, actor, now)
    {
      ghost var before := contextManager.Record();
      assert IdsOf(active)[i..][0] == active[i].id && IdsOf(active)[i..][1..] == IdsOf(active)[i + 1..];
      contextManager.RemoveOverride(active[i].id, actor, now);
      assert contextManager.Record() == RemoveOverride(before, active[i].id, actor, now);
      i := i + 1;
    }
  }

  /** `apply_scenario`: clear first, then apply the registered payload as one override. */
  method ApplyScenario(contextManager: ContextManager, scenarioId: string, actor: string, now: Timestamp)
    modifies contextManager
    ensures contextManager.Record() == AfterApplyScenario(old(contextManager.Record()), scenarioId, actor, now)
  {
    ClearScenario(contextManager, actor, now);
    var payload := GetScenarioOverrides(scenarioId);
    if payload == map[] {
      return;
    }
    contextManager.ApplyOverride(ScenarioOverrideId(scenarioId), ScenarioKind, payload, actor, now);
  }

  // ---------------------------------------------------------------------------------------------
  // Properties of the boundary
  // ---------------------------------------------------------------------------------------------

  /** After a clear no scenario override is left; every removal is its own versioned, logged
      mutation; with nothing active the record is left exactly as it was. */
  lemma ClearScenarioRemovesAll(context: Context, actor: string, now: Timestamp)
    ensures
      var active := OfKind(context.overrides, ScenarioKind);
      var after := AfterClear(context, actor, now);
      && OfKind(after.overrides, ScenarioKind) == []
      && after.overrides == WithoutIds(context.overrides, IdsOf(active))
      && after.meta == context.meta.(version := context.meta.version + |active|)
      && after.baseline == context.baseline
      && after.history == context.history + RemovalEntries(IdsOf(active), actor, now)
      && (active == [] ==> after == context)
  {
    var active := OfKind(context.overrides, ScenarioKind);
    var after := AfterClear(context, actor, now);
    RemoveEachEffect(context, IdsOf(active), actor, now);
    forall o | o in after.overrides
      ensures o.kind != ScenarioKind
    {
      if o.kind == ScenarioKind {
        IdOfMember(active, o);
      }
    }
    OfKindNone(after.overrides, ScenarioKind);
  }

  /** A clear keeps every override of another kind, in order, provided none of them shares its id
      with a scenario override (removal is by id). */
  lemma ClearKeepsOtherOverrides(context: Context, actor: string, now: Timestamp)
    requires forall o :: o in context.overrides && o.kind != ScenarioKind ==>
               o.id !in IdsOf(OfKind(context.overrides, ScenarioKind))
    ensures AfterClear(context, actor, now).overrides == NotOfKind(context.overrides, ScenarioKind)
  {
    var ids := IdsOf(OfKind(context.overrides, ScenarioKind));
    RemoveEachEffect(context, ids, actor, now);
    forall o | o in context.overrides && o.kind == ScenarioKind
      ensures o.id in ids
    {
      IdOfMember(OfKind(context.overrides, ScenarioKind), o);
    }
    WithoutIdsIsNotOfKind(context.overrides, ids, ScenarioKind);
  }

  /** The record `apply_scenario` leaves when the scenario is registered: the cleared record with
      the scenario's override appended. */
  lemma AppliedScenarioRecord(context: Context, scenarioId: string, actor: string, now: Timestamp)
    requires scenarioId in ListScenarios()
    ensures
      var cleared := AfterClear(context, actor, now);
      var after := AfterApplyScenario(context, scenarioId, actor, now);
      && after.meta == cleared.meta.(version := cleared.meta.version + 1)
      && after.baseline == cleared.baseline
      && after.overrides == cleared.overrides + [ScenarioEntry(scenarioId)]
      && after.history == cleared.history + [HistoryEntry(now, actor, "apply_override", "Applied override: ")]
      && Consistent(after)
  {
    var cleared := AfterClear(context, actor, now);
    var payload := GetScenarioOverrides(scenarioId);
    var id := ScenarioOverrideId(scenarioId);
    var request := ManagerRequest(id, ScenarioKind, payload);
    var entry := OverrideEntry(request, id);
    assert entry.Ok?;
    assert entry.value == ScenarioEntry(scenarioId);
    var r := ContextStore.ApplyOverride(cleared, request, actor, now, id);
    assert r.Ok?;
    assert payload != map[];
    assert AfterApplyScenario(context, scenarioId, actor, now) == r.value;
    assert r.value.overrides == cleared.overrides + [ScenarioEntry(scenarioId)];
    assert "Applied override: " + entry.value.title.value == "Applied override: ";
  }

  /** After `apply_scenario` exactly one scenario override is active, stored under
      `scenario_<id>` at the end of the list, when the id is registered, and none otherwise; the
      apply is one more versioned, logged mutation after those of the clear. */
  lemma ApplyScenarioLeavesOneActive(context: Context, scenarioId: string, actor: string, now: Timestamp)
    ensures
      var after := AfterApplyScenario(context, scenarioId, actor, now);
      var cleared := AfterClear(context, actor, now);
      var applied := if scenarioId in ListScenarios() then [ScenarioEntry(scenarioId)] else [];
      && OfKind(after.overrides, ScenarioKind) == applied
      && after.overrides == cleared.overrides + applied
      && after.meta.version == cleared.meta.version + |applied|
      && after.history == cleared.history + (if scenarioId in ListScenarios()
                                               then [HistoryEntry(now, actor, "apply_override", "Applied override: ")]
                                               else [])
      && after.baseline == context.baseline
  {
    var cleared := AfterClear(context, actor, now);
    ClearScenarioRemovesAll(context, actor, now);
    if scenarioId in ListScenarios() {
      AppliedScenarioRecord(context, scenarioId, actor, now);
      OfKindAppend(cleared.overrides, ScenarioEntry(scenarioId), ScenarioKind);
      assert [] + [ScenarioEntry(scenarioId)] == [ScenarioEntry(scenarioId)];
    } else {
      assert GetScenarioOverrides(scenarioId) == map[];
      assert cleared.overrides + [] == cleared.overrides;
      assert cleared.history + [] == cleared.history;
    }
  }

  /** The record `apply_scenario` leaves has an effective view that its baseline and overrides
      determine, whenever it applied a scenario or the record it started from had one. */
  lemma ApplyScenarioConsistent(context: Context, scenarioId: string, actor: string, now: Timestamp)
    requires scenarioId in ListScenarios() || Consistent(context)
    ensures Consistent(AfterApplyScenario(context, scenarioId, actor, now))
  {
    if scenarioId in ListScenarios() {
      AppliedScenarioRecord(context, scenarioId, actor, now);
    } else {
      RemoveEachConsistent(context, IdsOf(OfKind(context.overrides, ScenarioKind)), actor, now);
    }
  }

  /** Every override of another kind is still there, in order, after `apply_scenario`, provided
      none of them shares its id with a scenario override. */
  lemma ApplyScenarioKeepsOtherOverrides(context: Context, scenarioId: string, actor: string, now: Timestamp)
    requires forall o :: o in context.overrides && o.kind != ScenarioKind ==>
               o.id !in IdsOf(OfKind(context.overrides, ScenarioKind))
    ensures NotOfKind(AfterApplyScenario(context, scenarioId, actor, now).overrides, ScenarioKind)
            == NotOfKind(context.overrides, ScenarioKind)
  {
    var cleared := AfterClear(context, actor, now);
    ClearKeepsOtherOverrides(context, actor, now);
    ApplyScenarioLeavesOneActive(context, scenarioId, actor, now);
    var others := NotOfKind(context.overrides, ScenarioKind);
    WithoutIdsIsNotOfKind(others, [], ScenarioKind);
    if scenarioId in ListScenarios() {
      NotOfKindAppend(others, ScenarioEntry(scenarioId), ScenarioKind);
    }
  }

  /** The second clear of a record holding one scenario override at the end removes it and
      anything else carrying its id. */
  lemma ClearSingleScenario(context: Context, others: seq<Override>, e: Override, actor: string, now: Timestamp)
    requires context.overrides == others + [e]
    requires OfKind(others, ScenarioKind) == [] && e.kind == ScenarioKind
    ensures AfterClear(context, actor, now).overrides == WithoutIds(others, [e.id])
    ensures OfKind(AfterClear(context, actor, now).overrides, ScenarioKind) == []
    ensures AfterClear(context, actor, now).baseline == context.baseline
  {
    OfKindAppend(others, e, ScenarioKind);
    assert OfKind(context.overrides, ScenarioKind) == [e];
    assert IdsOf([e]) == [e.id];
    ClearScenarioRemovesAll(context, actor, now);
    WithoutIdsAppend(others, e, [e.id]);
  }

  /** Applying a registered scenario a second time: the second clear removes the first scenario
      override and anything else with its id, and the same override is appended again. */
  lemma ApplyRegisteredScenarioTwice(context: Context, scenarioId: string, actor: string, now: Timestamp)
    requires scenarioId in ListScenarios()
    ensures
      var e := ScenarioEntry(scenarioId);
      var cleared := AfterClear(context, actor, now).overrides;
      var once := AfterApplyScenario(context, scenarioId, actor, now);
      var twice := AfterApplyScenario(once, scenarioId, actor, now);
      && once.overrides == cleared + [e]
      && twice.overrides == WithoutIds(cleared, [e.id]) + [e]
      && OfKind(twice.overrides, ScenarioKind) == [e]
      && twice.baseline == once.baseline
  {
    var e := ScenarioEntry(scenarioId);
    var once := AfterApplyScenario(context, scenarioId, actor, now);
    var cleared := AfterClear(context, actor, now);
    ClearScenarioRemovesAll(context, actor, now);
    AppliedScenarioRecord(context, scenarioId, actor, now);
    ClearSingleScenario(once, cleared.overrides, e, actor, now);
    AppliedScenarioRecord(once, scenarioId, actor, now);
    OfKindAppend(AfterClear(once, actor, now).overrides, e, ScenarioKind);
  }

  /** An id that no override of another kind carries is gone after a clear. */
  lemma ClearedLacksId(context: Context, id: string, actor: string, now: Timestamp)
    requires forall o :: o in context.overrides && o.kind != ScenarioKind ==> o.id != id
    ensures forall o :: o in AfterClear(context, actor, now).overrides ==> o.id !in [id]
  {
    var cleared := AfterClear(context, actor, now);
    ClearScenarioRemovesAll(context, actor, now);
    forall o | o in cleared.overrides
      ensures o.id !in [id]
    {
      if o.kind == ScenarioKind {
        IdOfMember(OfKind(context.overrides, ScenarioKind), o);
      }
    }
  }

  /** With no override of another kind under the id `scenario_<id>`, the second application gives
      back the overrides and the effective view of the first. */
  lemma ApplyRegisteredScenarioTwiceUnchanged(context: Context, scenarioId: string, actor: string, now: Timestamp)
    requires scenarioId in ListScenarios()
    requires forall o :: o in context.overrides && o.kind != ScenarioKind ==> o.id != ScenarioOverrideId(scenarioId)
    ensures
      var once := AfterApplyScenario(context, scenarioId, actor, now);
      var twice := AfterApplyScenario(once, scenarioId, actor, now);
      twice.overrides == once.overrides && twice.effective == once.effective
  {
    var e := ScenarioEntry(scenarioId);
    var once := AfterApplyScenario(context, scenarioId, actor, now);
    ApplyRegisteredScenarioTwice(context, scenarioId, actor, now);
    ClearedLacksId(context, e.id, actor, now);
    WithoutIdsNoMatch(AfterClear(context, actor, now).overrides, [e.id]);
    ApplyScenarioConsistent(context, scenarioId, actor, now);
    ApplyScenarioConsistent(once, scenarioId, actor, now);
  }

  /** Applying the same scenario twice leaves the same scenario override as applying it once; the
      whole overrides list and the effective view are the same too unless an override of another
      kind carries the id `scenario_<id>` (the second clear removes it). */
  lemma ApplyScenarioIdempotent(context: Context, scenarioId: string, actor: string, now: Timestamp)
    ensures
      var once := AfterApplyScenario(context, scenarioId, actor, now);
      var twice := AfterApplyScenario(once, scenarioId, actor, now);
      && OfKind(twice.overrides, ScenarioKind) == OfKind(once.overrides, ScenarioKind)
      && ((forall o :: o in context.overrides && o.kind != ScenarioKind ==> o.id != ScenarioOverrideId(scenarioId)) ==>
            twice.overrides == once.overrides && twice.effective == once.effective)
  {
    var once := AfterApplyScenario(context, scenarioId, actor, now);
    var cleared := AfterClear(context, actor, now);
    ClearScenarioRemovesAll(context, actor, now);
    if scenarioId in ListScenarios() {
      ApplyRegisteredScenarioTwice(context, scenarioId, actor, now);
      OfKindAppend(cleared.overrides, ScenarioEntry(scenarioId), ScenarioKind);
      if forall o :: o in context.overrides && o.kind != ScenarioKind ==> o.id != ScenarioOverrideId(scenarioId) {
        ApplyRegisteredScenarioTwiceUnchanged(context, scenarioId, actor, now);
      }
    } else {
      assert GetScenarioOverrides(scenarioId) == map[];
      assert once == cleared;
      ClearScenarioRemovesAll(once, actor, now);
    }
  }
}
