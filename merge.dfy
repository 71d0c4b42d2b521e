/** The recursive dict merge shared by both context managers (`_apply_changes`) and by the what-if
    simulator (`_apply_overrides`): for every key of the patch, a dict merged into a dict recurses,
    anything else replaces the target's value; keys the patch does not name are left alone.
 */
module DictMerge {
  import opened Values

  /** The dict `target` after the patch `changes` has been merged into it. */
  function Merge(target: Fields, changes: Fields): Fields
    decreases Dict(changes)
  {
    map key | key in target.Keys + changes.Keys ::
      if key !in changes then target[key]
      else if changes[key].Dict? && key in target && target[key].Dict? then
        Dict(Merge(target[key].fields, changes[key].fields))
      else changes[key]
  }

  /** `_apply_changes(target, changes)`: walks the keys of `changes` one at a time and assigns into
      the target, descending into nested dicts by a recursive call. The target is a value here, so
      the updated dict is returned instead of being changed in place. */
  method ApplyChanges(target: Fields, changes: Fields) returns (r: Fields)
    ensures r.Keys == target.Keys + changes.Keys
    ensures forall key :: key in target && key !in changes ==> r[key] == target[key]
    ensures forall key :: key in changes && !(changes[key].Dict? && key in target && target[key].Dict?) ==>
              r[key] == changes[key]
    ensures forall key :: key in changes && changes[key].Dict? && key in target && target[key].Dict? ==>
              r[key] == Dict(Merge(target[key].fields, changes[key].fields))
    ensures r == Merge(target, changes)
    decreases Dict(changes)
  {
    r := target;
    var pending := changes.Keys;
    while pending != {}
      invariant pending <= changes.Keys
      invariant r.Keys == target.Keys + (changes.Keys - pending)
      invariant forall key :: key in r && (key !in changes || key in pending) ==> r[key] == target[key]
      invariant forall key :: key in changes && key !in pending ==> r[key] == Merge(target, changes)[key]
      decreases pending
    {
      var key :| key in pending;
      var value := changes[key];
      if value.Dict? && key in r && r[key].Dict? {
        var inner := ApplyChanges(r[key].fields, value.fields);
        r := r[key := Dict(inner)];
      } else {
        r := r[key := value];
      }
      pending := pending - {key};
    }
  }

  /** Merging a dict into itself changes nothing. */
  lemma {:induction false} MergeSelf(d: Fields)
    ensures Merge(d, d) == d
    decreases Dict(d)
  {
    forall key | key in d && d[key].Dict?
      ensures Merge(d[key].fields, d[key].fields) == d[key].fields
    {
      MergeSelf(d[key].fields);
    }
  }

  /** Merging the same patch twice is the same as merging it once. */
  lemma {:induction false} MergeIdempotent(target: Fields, changes: Fields)
    ensures Merge(Merge(target, changes), changes) == Merge(target, changes)
    decreases Dict(changes)
  {
    var once := Merge(target, changes);
    forall key | key in changes && changes[key].Dict?
      ensures Merge(once[key].fields, changes[key].fields) == once[key].fields || !once[key].Dict?
    {
      if key in target && target[key].Dict? {
        MergeIdempotent(target[key].fields, changes[key].fields);
      } else {
        MergeSelf(changes[key].fields);
      }
    }
    assert Merge(once, changes) == once;
  }

  /** A patch that stops short of a path, or never names it, leaves that place absent. */
  lemma {:induction false} UntouchedLookupNone(changes: Fields, path: seq<string>)
    requires path != [] && Untouched(changes, path)
    ensures Lookup(changes, path) == None
    decreases |path|
  {
    if path[0] in changes {
      UntouchedLookupNone(changes[path[0]].fields, path[1..]);
    }
  }

  /** A scalar, list or null that the patch puts at a path is what the merged dict holds there:
      the patch wins on leaves. */
  lemma {:induction false} MergeLeafWins(target: Fields, changes: Fields, path: seq<string>)
    requires path != []
    requires Lookup(changes, path).Some? && !Lookup(changes, path).value.Dict?
    ensures Lookup(Merge(target, changes), path) == Lookup(changes, path)
    decreases |path|
  {
    var key := path[0];
    if |path| > 1 && key in target && target[key].Dict? {
      MergeLeafWins(target[key].fields, changes[key].fields, path[1..]);
    }
  }

  /** A place the patch does not touch keeps the target's value there. */
  lemma {:induction false} MergeKeepsUntouched(target: Fields, changes: Fields, path: seq<string>)
    requires path != [] && Untouched(changes, path)
    ensures Lookup(Merge(target, changes), path) == Lookup(target, path)
    decreases |path|
  {
    var key := path[0];
    if key in changes {
      if key in target && target[key].Dict? {
        MergeKeepsUntouched(target[key].fields, changes[key].fields, path[1..]);
      } else {
        UntouchedLookupNone(changes[key].fields, path[1..]);
      }
    }
  }
}
