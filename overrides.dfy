/** Override records, the history log, and the resolution of an effective view from a baseline and
    an ordered list of overrides (`resolve_effective_context`, identical in both context managers).
 */
module Overrides {
  import opened Values
  import opened DictMerge

  /** Timestamps and generated ids are opaque values supplied by the caller. */
  type Timestamp = string

  /** One entry of a context's `overrides` list. The two context managers store slightly different
      fields: `expires` only in the first, `actor` and `timestamp` only in the second. */
  datatype Override = Override(
    id: string,
    kind: string,               // the `type` field: "scenario" or "manual"
    title: Option<string>,      // the `label` field (`label` is a Dafny keyword)
    appliesTo: set<string>,
    changes: Fields,
    expires: Option<bool>,
    actor: Option<string>,
    timestamp: Option<Timestamp>)

  /** The `override` dict a caller hands to `apply_override`; any key may be missing. */
  datatype OverrideRequest = OverrideRequest(
    id: Option<string>,
    kind: Option<string>,
    title: Option<string>,      // the `label` field (`label` is a Dafny keyword)
    appliesTo: Option<set<string>>,
    changes: Option<Fields>,
    expires: Option<bool>)

  datatype HistoryEntry = HistoryEntry(timestamp: Timestamp, actor: string, action: string, summary: string)

  /** The effective view: the baseline with every override's changes merged in, in list order. */
  function Resolve(baseline: Fields, overrides: seq<Override>): Fields
    decreases |overrides|
  {
    if overrides == [] then baseline
    else Merge(Resolve(baseline, overrides[..|overrides| - 1]), overrides[|overrides| - 1].changes)
  }

  /** The loop of `resolve_effective_context`: start from a copy of the baseline and merge each
      override's changes into it in turn. */
  method FoldOverrides(baseline: Fields, overrides: seq<Override>) returns (effective: Fields)
    ensures overrides == [] ==> effective == baseline
    ensures effective == Resolve(baseline, overrides)
  {
    effective := baseline;
    var i := 0;
    while i < |overrides|
      invariant 0 <= i <= |overrides|
      invariant effective == Resolve(baseline, overrides[..i])
    {
      assert overrides[..i + 1][..i] == overrides[..i];
      effective := ApplyChanges(effective, overrides[i].changes);
      i := i + 1;
    }
    assert overrides[..i] == overrides;
  }

  /** Resolving one more override merges its changes into the previous effective view. */
  lemma ResolveAppend(baseline: Fields, overrides: seq<Override>, o: Override)
    ensures Resolve(baseline, overrides + [o]) == Merge(Resolve(baseline, overrides), o.changes)
  {
    assert (overrides + [o])[..|overrides|] == overrides;
  }

  /** Last-applied wins: a leaf that override `i` sets is what the effective view shows, provided
      no later override touches that place. */
  lemma {:induction false} LaterOverrideWins(baseline: Fields, overrides: seq<Override>, i: nat, path: seq<string>)
    requires i < |overrides| && path != []
    requires Lookup(overrides[i].changes, path).Some? && !Lookup(overrides[i].changes, path).value.Dict?
    requires forall j :: i < j < |overrides| ==> Untouched(overrides[j].changes, path)
    ensures Lookup(Resolve(baseline, overrides), path) == Lookup(overrides[i].changes, path)
    decreases |overrides|
  {
    var n := |overrides|;
    var prefix := overrides[..n - 1];
    if i == n - 1 {
      MergeLeafWins(Resolve(baseline, prefix), overrides[i].changes, path);
    } else {
      LaterOverrideWins(baseline, prefix, i, path);
      MergeKeepsUntouched(Resolve(baseline, prefix), overrides[n - 1].changes, path);
    }
  }

  /** A place that no override touches shows the baseline's value. */
  lemma {:induction false} ResolveKeepsBaseline(baseline: Fields, overrides: seq<Override>, path: seq<string>)
    requires path != []
    requires forall j :: 0 <= j < |overrides| ==> Untouched(overrides[j].changes, path)
    ensures Lookup(Resolve(baseline, overrides), path) == Lookup(baseline, path)
    decreases |overrides|
  {
    if overrides != [] {
      var n := |overrides|;
      ResolveKeepsBaseline(baseline, overrides[..n - 1], path);
      MergeKeepsUntouched(Resolve(baseline, overrides[..n - 1]), overrides[n - 1].changes, path);
    }
  }

  /** Applying the same override twice in a row resolves to the same view as applying it once. */
  lemma RepeatedOverrideIsHarmless(baseline: Fields, overrides: seq<Override>, o: Override)
    ensures Resolve(baseline, overrides + [o, o]) == Resolve(baseline, overrides + [o])
  {
    ResolveAppend(baseline, overrides + [o], o);
    assert overrides + [o, o] == (overrides + [o]) + [o];
    ResolveAppend(baseline, overrides, o);
    MergeIdempotent(Resolve(baseline, overrides), o.changes);
  }

  /** True when `xs` can be obtained from `ys` by deleting elements. */
  predicate Subsequence<T(==)>(xs: seq<T>, ys: seq<T>)
    decreases |ys|
  {
    xs == [] || (ys != [] && if xs[0] == ys[0] then Subsequence(xs[1..], ys[1..]) else Subsequence(xs, ys[1..]))
  }

  /** No override in the list has the id. */
  predicate IdAbsent(overrides: seq<Override>, id: string)
  {
    forall i :: 0 <= i < |overrides| ==> overrides[i].id != id
  }

  /** `[o for o in overrides if o["id"] != override_id]`. */
  function WithoutId(overrides: seq<Override>, id: string): (r: seq<Override>)
    ensures forall o :: o in r <==> o in overrides && o.id != id
    ensures Subsequence(r, overrides)
    ensures IdAbsent(overrides, id) ==> r == overrides
    decreases |overrides|
  {
    if overrides == [] then []
    else if overrides[0].id == id then WithoutId(overrides[1..], id)
    else [overrides[0]] + WithoutId(overrides[1..], id)
  }

  /** Removing an id drops an entry appended with that id and filters the earlier ones. */
  lemma WithoutIdAppend(overrides: seq<Override>, o: Override, id: string)
    ensures WithoutId(overrides + [o], id) == WithoutId(overrides, id) + (if o.id == id then [] else [o])
    decreases |overrides|
  {
    if overrides != [] {
      assert (overrides + [o])[1..] == overrides[1..] + [o];
      WithoutIdAppend(overrides[1..], o, id);
    }
  }
}
