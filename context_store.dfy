/** The Context v1 record and its pure operations, as in the `catalyst` context manager:
    `create_context`, `apply_override`, `remove_override` and `resolve_effective_context`.
    Each operation deep-copies its input and returns the changed copy, so here each is a function
    from the old record to the new one and the caller's record can never change.
 */
module ContextStore {
  import opened Values
  import opened DictMerge
  import opened Overrides

  datatype Meta = Meta(contextId: string, clientId: string, createdAt: Timestamp, source: string, version: int)

  datatype Context = Context(
    meta: Meta,
    baseline: Fields,
    overrides: seq<Override>,
    effective: Fields,
    history: seq<HistoryEntry>)

  /** The cached `effective` view is the one the baseline and the overrides determine. */
  predicate Consistent(c: Context)
  {
    c.effective == Resolve(c.baseline, c.overrides)
  }

  /** `create_context`: a fresh record at version 1 whose effective view is the baseline. The
      generated context id and the creation instant are parameters. */
  function CreateContext(clientId: string, baseline: Fields, source: string, contextId: string, now: Timestamp): (c: Context)
    ensures c.meta.version == 1 && c.meta.clientId == clientId && c.meta.source == source
    ensures c.baseline == baseline && c.overrides == [] && c.effective == baseline
    ensures |c.history| == 1 && c.history[0].action == "create_context" && c.history[0].actor == source
    ensures Consistent(c)
  {
    Context(
      Meta(contextId, clientId, now, source, 1),
      baseline,
      [],
      baseline,
      [HistoryEntry(now, source, "create_context", "Context initialised from baseline")])
  }

  /** The stored override built from a request: `id` defaults to a fresh id, `label` to "",
      `expires` to true; a missing `type`, `applies_to` or `changes` raises a KeyError, checked
      in that order. */
  function OverrideEntry(request: OverrideRequest, freshId: string): (r: Result<Override, PyError>)
    ensures r.Err? <==> request.kind.None? || request.appliesTo.None? || request.changes.None?
    ensures request.kind.None? ==> r == Err(KeyError("type"))
    ensures r.Ok? ==>
      && r.value.id == (if request.id.Some? then request.id.value else freshId)
      && Some(r.value.kind) == request.kind
      && r.value.title == Some(if request.title.Some? then request.title.value else "")
      && Some(r.value.appliesTo) == request.appliesTo
      && Some(r.value.changes) == request.changes
      && r.value.expires == Some(if request.expires.Some? then request.expires.value else true)
      && r.value.actor.None? && r.value.timestamp.None?
  {
    if request.kind.None? then Err(KeyError("type"))
    else if request.appliesTo.None? then Err(KeyError("applies_to"))
    else if request.changes.None? then Err(KeyError("changes"))
    else Ok(Override(
      id := if request.id.Some? then request.id.value else freshId,
      kind := request.kind.value,
      title := Some(if request.title.Some? then request.title.value else ""),
      appliesTo := request.appliesTo.value,
      changes := request.changes.value,
      expires := Some(if request.expires.Some? then request.expires.value else true),
      actor := None,
      timestamp := None))
  }

  /** `apply_override`: append the override, bump the version, log one history entry, recompute
      the effective view. */
  function ApplyOverride(context: Context, request: OverrideRequest, actor: string, now: Timestamp, freshId: string): (r: Result<Context, PyError>)
    ensures r.Err? <==> OverrideEntry(request, freshId).Err?
    ensures r.Ok? ==>
      var c := r.value;
      var entry := OverrideEntry(request, freshId).value;
      && c.overrides == context.overrides + [entry]
      && c.meta == context.meta.(version := context.meta.version + 1)
      && c.baseline == context.baseline
      && c.history == context.history + [HistoryEntry(now, actor, "apply_override", "Applied override: " + entry.title.value)]
      && Consistent(c)
  {
    match OverrideEntry(request, freshId)
    case Err(e) => Err(e)
    case Ok(entry) =>
      var overrides := context.overrides + [entry];
      Ok(Context(
        context.meta.(version := context.meta.version + 1),
        context.baseline,
        overrides,
        Resolve(context.baseline, overrides),
        context.history + [HistoryEntry(now, actor, "apply_override", "Applied override: " + entry.title.value)]))
  }

  /** `remove_override`: drop every override with the id (none may match), bump the version,
      log one history entry, recompute the effective view. */
  function RemoveOverride(context: Context, overrideId: string, actor: string, now: Timestamp): (c: Context)
    ensures c.overrides == WithoutId(context.overrides, overrideId)
    ensures c.meta == context.meta.(version := context.meta.version + 1)
    ensures c.baseline == context.baseline
    ensures c.history == context.history + [HistoryEntry(now, actor, "remove_override", "Removed override: " + overrideId)]
    ensures Consistent(c)
  {
    var overrides := WithoutId(context.overrides, overrideId);
    Context(
      context.meta.(version := context.meta.version + 1),
      context.baseline,
      overrides,
      Resolve(context.baseline, overrides),
      context.history + [HistoryEntry(now, actor, "remove_override", "Removed override: " + overrideId)])
  }

  /** `resolve_effective_context`: the view the record's baseline and overrides determine. */
  method ResolveEffectiveContext(context: Context) returns (effective: Fields)
    ensures context.overrides == [] ==> effective == context.baseline
    ensures effective == Resolve(context.baseline, context.overrides)
  {
    effective := FoldOverrides(context.baseline, context.overrides);
  }

  /** Applying an override whose id is new and then removing that id gives back the overrides and
      the effective view of a consistent record; the version has moved on by two and the history
      by two entries. */
  lemma ApplyThenRemoveRestores(context: Context, request: OverrideRequest, actor: string, now: Timestamp, freshId: string)
    requires Consistent(context)
    requires OverrideEntry(request, freshId).Ok?
    requires IdAbsent(context.overrides, OverrideEntry(request, freshId).value.id)
    ensures ApplyOverride(context, request, actor, now, freshId).Ok?
    ensures
      var id := OverrideEntry(request, freshId).value.id;
      var after := RemoveOverride(ApplyOverride(context, request, actor, now, freshId).value, id, actor, now);
      && after.overrides == context.overrides
      && after.effective == context.effective
      && after.baseline == context.baseline
      && after.meta.version == context.meta.version + 2
      && |after.history| == |context.history| + 2
  {
    var entry := OverrideEntry(request, freshId).value;
    WithoutIdAppend(context.overrides, entry, entry.id);
  }
}
