/** The `catalyst_experimental` context manager: the same record and operations, but every entry
    point first repairs a record that lacks some of its keys (`_ensure_context_invariants`), the
    override id is required, and each stored override carries its actor and timestamp.

    A record read back from anywhere may lack any top-level key, and its `meta` may lack
    `version`, so every field of the record is optional here.
 */
module SelfHealingContext {
  import opened Values
  import opened DictMerge
  import opened Overrides

  /** `meta`: the version, if present, and every other key (`context_id`, `client_id`,
      `created_at`, `source`, `active_scenario`, ...). */
  datatype PartialMeta = PartialMeta(version: Option<int>, fields: Fields)

  datatype PartialContext = PartialContext(
    meta: Option<PartialMeta>,
    baseline: Option<Fields>,
    overrides: Option<seq<Override>>,
    effective: Option<Fields>,
    history: Option<seq<HistoryEntry>>)

  /** The keys every mutation and read path relies on are present. */
  predicate Healed(c: PartialContext)
  {
    c.meta.Some? && c.meta.value.version.Some? && c.overrides.Some? && c.history.Some?
  }

  /** `_ensure_context_invariants`: add the missing `meta`, `meta.version` = 1, `overrides` = [],
      `history` = [], and seed `effective` from `baseline` when only the latter is present. */
  function EnsureContextInvariants(c: PartialContext): (r: PartialContext)
    ensures Healed(r)
    ensures c.meta.Some? && c.meta.value.version.Some? ==> r.meta == c.meta
    ensures c.meta.Some? ==> r.meta.value.fields == c.meta.value.fields
    ensures c.meta.None? ==> r.meta == Some(PartialMeta(Some(1), map[]))
    ensures c.meta.Some? && c.meta.value.version.None? ==> r.meta.value.version == Some(1)
    ensures r.overrides == (if c.overrides.Some? then c.overrides else Some([]))
    ensures r.history == (if c.history.Some? then c.history else Some([]))
    ensures r.baseline == c.baseline
    ensures r.effective == (if c.effective.None? && c.baseline.Some? then c.baseline else c.effective)
  {
    var meta := if c.meta.Some? then c.meta.value else PartialMeta(None, map[]);
    var meta := if meta.version.Some? then meta else meta.(version := Some(1));
    PartialContext(
      Some(meta),
      c.baseline,
      if c.overrides.Some? then c.overrides else Some([]),
      if c.effective.None? && c.baseline.Some? then c.baseline else c.effective,
      if c.history.Some? then c.history else Some([]))
  }

  /** Repairing twice is repairing once, and a record that needs no repair is left as it is. */
  lemma EnsureContextInvariantsIdempotent(c: PartialContext)
    ensures EnsureContextInvariants(EnsureContextInvariants(c)) == EnsureContextInvariants(c)
    ensures Healed(c) && (c.effective.Some? || c.baseline.None?) ==> EnsureContextInvariants(c) == c
  {
  }

  /** `create_context`: the complete record at version 1, which the repair leaves unchanged. */
  function CreateContext(clientId: string, baseline: Fields, source: string, contextId: string, now: Timestamp): (c: PartialContext)
    ensures Healed(c) && c.meta.value.version == Some(1)
    ensures c.meta.value.fields == map["context_id" := Str(contextId), "client_id" := Str(clientId),
                                       "created_at" := Str(now), "source" := Str(source)]
    ensures c.baseline == Some(baseline) && c.effective == Some(baseline) && c.overrides == Some([])
    ensures c.history == Some([HistoryEntry(now, source, "create_context", "Context initialised from baseline")])
    ensures EnsureContextInvariants(c) == c
  {
    var meta := PartialMeta(Some(1), map["context_id" := Str(contextId), "client_id" := Str(clientId),
                                        "created_at" := Str(now), "source" := Str(source)]);
    EnsureContextInvariants(PartialContext(
      Some(meta), Some(baseline), Some([]), Some(baseline),
      Some([HistoryEntry(now, source, "create_context", "Context initialised from baseline")])))
  }

  /** `resolve_effective_context` repairs the record it is given (the caller's own record: the
      repaired one is returned here), then needs its `baseline`. */
  function Resolved(c: PartialContext): (r: Result<Fields, PyError>)
    ensures r.Err? <==> c.baseline.None?
    ensures r.Ok? ==> r.value == Resolve(c.baseline.value, EnsureContextInvariants(c).overrides.value)
  {
    var healed := EnsureContextInvariants(c);
    if healed.baseline.None? then Err(KeyError("baseline"))
    else Ok(Resolve(healed.baseline.value, healed.overrides.value))
  }

  /** `resolve_effective_context`, with its loop over the overrides. */
  method ResolveEffectiveContext(context: PartialContext) returns (repaired: PartialContext, effective: Result<Fields, PyError>)
    ensures repaired == EnsureContextInvariants(context)
    ensures effective == Resolved(context)
  {
    repaired := EnsureContextInvariants(context);
    if repaired.baseline.None? {
      return repaired, Err(KeyError("baseline"));
    }
    var view := FoldOverrides(repaired.baseline.value, repaired.overrides.value);
    effective := Ok(view);
  }

  /** The stored override: `id`, `type`, `applies_to` and `changes` are required (KeyError, in
      that order), `label` defaults to "", and the actor and instant are recorded. */
  function OverrideEntry(request: OverrideRequest, actor: string, now: Timestamp): (r: Result<Override, PyError>)
    ensures r.Err? <==> request.id.None? || request.kind.None? || request.appliesTo.None? || request.changes.None?
    ensures request.id.None? ==> r == Err(KeyError("id"))
    ensures request.id.Some? && request.kind.None? ==> r == Err(KeyError("type"))
    ensures request.id.Some? && request.kind.Some? && request.appliesTo.None? ==> r == Err(KeyError("applies_to"))
    ensures request.id.Some? && request.kind.Some? && request.appliesTo.Some? && request.changes.None?
            ==> r == Err(KeyError("changes"))
    ensures r.Ok? ==>
      && Some(r.value.id) == request.id && Some(r.value.kind) == request.kind
      && r.value.title == Some(if request.title.Some? then request.title.value else "")
      && Some(r.value.appliesTo) == request.appliesTo
      && r.value.actor == Some(actor) && r.value.timestamp == Some(now)
      && Some(r.value.changes) == request.changes
      && r.value.expires.None?
  {
    if request.id.None? then Err(KeyError("id"))
    else if request.kind.None? then Err(KeyError("type"))
    else if request.appliesTo.None? then Err(KeyError("applies_to"))
    else if request.changes.None? then Err(KeyError("changes"))
    else Ok(Override(
      id := request.id.value,
      kind := request.kind.value,
      title := Some(if request.title.Some? then request.title.value else ""),
      appliesTo := request.appliesTo.value,
      changes := request.changes.value,
      expires := None,
      actor := Some(actor),
      timestamp := Some(now)))
  }

  /** `apply_override` on a repaired copy: append, bump the version, log one entry naming the id,
      recompute the effective view (which needs a baseline). */
  function ApplyOverride(context: PartialContext, request: OverrideRequest, actor: string, now: Timestamp): (r: Result<PartialContext, PyError>)
    ensures OverrideEntry(request, actor, now).Err? ==> r == Err(OverrideEntry(request, actor, now).error)
    ensures OverrideEntry(request, actor, now).Ok? && context.baseline.None? ==> r == Err(KeyError("baseline"))
    ensures r.Ok? <==> OverrideEntry(request, actor, now).Ok? && context.baseline.Some?
    ensures r.Ok? ==>
      var before := EnsureContextInvariants(context);
      var entry := OverrideEntry(request, actor, now).value;
      && Healed(r.value)
      && r.value.overrides == Some(before.overrides.value + [entry])
      && r.value.meta.value.version == Some(before.meta.value.version.value + 1)
      && r.value.meta.value.fields == before.meta.value.fields
      && r.value.baseline == context.baseline
      && r.value.history == Some(before.history.value + [HistoryEntry(now, actor, "apply_override", "Applied override: " + entry.id)])
      && r.value.effective == Some(Resolve(context.baseline.value, r.value.overrides.value))
  {
    var c := EnsureContextInvariants(context);
    match OverrideEntry(request, actor, now)
    case Err(e) => Err(e)
    case Ok(entry) =>
      var meta := c.meta.value;
      var c := c.(overrides := Some(c.overrides.value + [entry]),
                  meta := Some(meta.(version := Some(meta.version.value + 1))),
                  history := Some(c.history.value + [HistoryEntry(now, actor, "apply_override", "Applied override: " + entry.id)]));
      match Resolved(c)
      case Err(e) => Err(e)
      case Ok(view) => Ok(c.(effective := Some(view)))
  }

  /** `remove_override` on a repaired copy: filter out every override with the id, bump the
      version, log one entry, recompute the effective view (which needs a baseline). */
  function RemoveOverride(context: PartialContext, overrideId: string, actor: string, now: Timestamp): (r: Result<PartialContext, PyError>)
    ensures r.Err? <==> context.baseline.None?
    ensures r.Err? ==> r.error == KeyError("baseline")
    ensures r.Ok? ==>
      var before := EnsureContextInvariants(context);
      && Healed(r.value)
      && r.value.overrides == Some(WithoutId(before.overrides.value, overrideId))
      && r.value.meta.value.version == Some(before.meta.value.version.value + 1)
      && r.value.meta.value.fields == before.meta.value.fields
      && r.value.baseline == context.baseline
      && r.value.history == Some(before.history.value + [HistoryEntry(now, actor, "remove_override", "Removed override: " + overrideId)])
      && r.value.effective == Some(Resolve(context.baseline.value, r.value.overrides.value))
  {
    var c := EnsureContextInvariants(context);
    var meta := c.meta.value;
    var c := c.(overrides := Some(WithoutId(c.overrides.value, overrideId)),
                meta := Some(meta.(version := Some(meta.version.value + 1))),
                history := Some(c.history.value + [HistoryEntry(now, actor, "remove_override", "Removed override: " + overrideId)]));
    match Resolved(c)
    case Err(e) => Err(e)
    case Ok(view) => Ok(c.(effective := Some(view)))
  }

  /** Applying an override with a new id to a record that has a baseline, and then removing that
      id, gives back the repaired record's overrides and an effective view equal to resolving them;
      the version has moved on by two. */
  lemma ApplyThenRemoveRestores(context: PartialContext, request: OverrideRequest, actor: string, now: Timestamp)
    requires context.baseline.Some?
    requires OverrideEntry(request, actor, now).Ok?
    requires IdAbsent(EnsureContextInvariants(context).overrides.value, request.id.value)
    ensures ApplyOverride(context, request, actor, now).Ok?
    ensures
      var before := EnsureContextInvariants(context);
      var after := RemoveOverride(ApplyOverride(context, request, actor, now).value, request.id.value, actor, now);
      && after.Ok?
      && after.value.overrides == before.overrides
      && after.value.effective == Some(Resolve(context.baseline.value, before.overrides.value))
      && after.value.meta.value.version == Some(before.meta.value.version.value + 2)
  {
    var before := EnsureContextInvariants(context);
    var entry := OverrideEntry(request, actor, now).value;
    var r := ApplyOverride(context, request, actor, now);
    assert r.Ok?;
    var applied := r.value;
    assert applied.overrides.value == before.overrides.value + [entry];
    assert Healed(applied) && applied.baseline.Some?;
    var after := RemoveOverride(applied, entry.id, actor, now);
    assert after.Ok?;
    assert after.value.overrides == Some(WithoutId(applied.overrides.value, entry.id));
    WithoutIdAppend(before.overrides.value, entry, entry.id);
    assert entry.id == request.id.value;
    assert WithoutId(before.overrides.value, entry.id) == before.overrides.value;
    calc {
      WithoutId(applied.overrides.value, entry.id);
      WithoutId(before.overrides.value + [entry], entry.id);
      WithoutId(before.overrides.value, entry.id) + [];
      before.overrides.value;
    }
    assert after.value.overrides == before.overrides;
    assert after.value.meta.value.version == Some(before.meta.value.version.value + 2);
  }
}
