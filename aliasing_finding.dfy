/** The Context v1 store with Python's object sharing made visible.

    `_apply_changes` stores `target[key] = value` without copying, so after resolving, the
    effective view holds the very dict objects that the overrides' `changes` hold. A later
    override whose changes reach into such a dict then merges into it in place, which edits the
    earlier override's stored changes. `deepcopy` at the start of `apply_override` and
    `remove_override` copies the record but keeps this sharing (its memo maps each shared object
    to one copy), so the edit survives into later records: removing the later override leaves its
    changes behind in the earlier one, and in every effective view resolved from it.

    Here dicts live in a heap (a sequence of objects, each an ordered list of key/slot pairs) and
    a slot holds either a plain value or a reference to another dict. Since a sharing-preserving
    copy of a record is indistinguishable from the record itself, the copy step is the identity.
    The heap is shared by every record version, so only the newest record may be read from the
    newest heap: Python's `deepcopy` leaves an earlier returned record untouched, whereas here a
    later heap also shows the in-place edits to the objects that record points to. Meta and history play no part and are left out. Recursion is bounded by a fuel parameter.
 */
module AliasingFinding {
  import opened Values
  import opened Overrides

  datatype Slot = Atom(v: Value) | Ref(addr: nat)

  type Obj = seq<(string, Slot)>

  type Heap = seq<Obj>

  /** `d.get(key)` on an object. */
  function Get(o: Obj, key: string): (r: Option<Slot>)
    ensures r.None? <==> forall i :: 0 <= i < |o| ==> o[i].0 != key
    decreases |o|
  {
    if o == [] then None else if o[0].0 == key then Some(o[0].1) else Get(o[1..], key)
  }

  /** `d[key] = slot`: an existing key keeps its place, a new one goes at the end. */
  function Put(o: Obj, key: string, slot: Slot): (r: Obj)
    ensures Get(r, key) == Some(slot)
    ensures forall k :: k != key ==> Get(r, k) == Get(o, k)
    decreases |o|
  {
    if o == [] then [(key, slot)]
    else if o[0].0 == key then [(key, slot)] + o[1..]
    else [o[0]] + Put(o[1..], key, slot)
  }

  /** The dict a slot refers to, when it refers to one in the heap. */
  predicate IsDictRef(heap: Heap, s: Option<Slot>)
  {
    s.Some? && s.value.Ref? && s.value.addr < |heap|
  }

  /** `_apply_changes(target, changes)` as written, over the entries of `changes` in order: a dict
      change into a dict target recurses into the target's own dict; anything else is stored by
      reference, so the target then shares the change's dict. */
  function ApplyChangesAsWritten(heap: Heap, target: nat, entries: Obj, fuel: nat): (r: Heap)
    ensures |r| == |heap|
    decreases fuel, |entries|
  {
    if fuel == 0 || entries == [] || target >= |heap| then heap
    else
      var key := entries[0].0;
      var value := entries[0].1;
      var existing := Get(heap[target], key);
      var next :=
        if IsDictRef(heap, Some(value)) && IsDictRef(heap, existing)
        then ApplyChangesAsWritten(heap, existing.value.addr, heap[value.addr], fuel - 1)
        else heap[target := Put(heap[target], key, value)];
      ApplyChangesAsWritten(next, target, entries[1..], fuel)
  }

  /** `deepcopy` of a dict: fresh objects all the way down, sharing nothing with the original. */
  function CloneObj(heap: Heap, addr: nat, fuel: nat): (r: (Heap, nat))
    ensures |r.0| > |heap| && r.1 < |r.0|
    decreases fuel, 0
  {
    if fuel == 0 || addr >= |heap| then (heap + [[]], |heap|)
    else
      var copied := CloneEntries(heap, heap[addr], fuel - 1);
      (copied.0 + [copied.1], |copied.0|)
  }

  function CloneEntries(heap: Heap, entries: Obj, fuel: nat): (r: (Heap, Obj))
    ensures |r.0| >= |heap|
    decreases fuel, 1 + |entries|
  {
    if entries == [] then (heap, [])
    else
      var head :=
        match entries[0].1
        case Atom(v) => (heap, Atom(v))
        case Ref(a) => var c := CloneObj(heap, a, fuel); (c.0, Ref(c.1));
      var rest := CloneEntries(head.0, entries[1..], fuel);
      (rest.0, [(entries[0].0, head.1)] + rest.1)
  }

  /** The value a heap dict stands for. */
  function Read(heap: Heap, addr: nat, fuel: nat): Fields
    decreases fuel, 0
  {
    if fuel == 0 || addr >= |heap| then map[] else ReadEntries(heap, heap[addr], fuel - 1)
  }

  function ReadEntries(heap: Heap, entries: Obj, fuel: nat): Fields
    decreases fuel, 1 + |entries|
  {
    if entries == [] then map[]
    else
      var v := match entries[0].1
               case Atom(x) => x
               case Ref(a) => Dict(Read(heap, a, fuel));
      ReadEntries(heap, entries[1..], fuel)[entries[0].0 := v]
  }

  /** An override as stored: its id and a reference to its `changes` dict. */
  datatype StoredOverride = StoredOverride(id: string, changes: nat)

  datatype HeapContext = HeapContext(baseline: nat, overrides: seq<StoredOverride>, effective: nat)

  /** The loop of `resolve_effective_context` as written, merging into `effective` in place. */
  function FoldAsWritten(heap: Heap, effective: nat, overrides: seq<StoredOverride>, fuel: nat): (r: Heap)
    ensures |r| == |heap|
    decreases |overrides|
  {
    if overrides == [] then heap
    else
      var changes := if overrides[0].changes < |heap| then heap[overrides[0].changes] else [];
      FoldAsWritten(ApplyChangesAsWritten(heap, effective, changes, fuel), effective, overrides[1..], fuel)
  }

  /** `resolve_effective_context` as written: a fresh copy of the baseline, then the fold. */
  function ResolveAsWritten(heap: Heap, c: HeapContext, fuel: nat): (r: (Heap, HeapContext))
    ensures r.1.baseline == c.baseline && r.1.overrides == c.overrides
  {
    var copy := CloneObj(heap, c.baseline, fuel);
    (FoldAsWritten(copy.0, copy.1, c.overrides, fuel), c.(effective := copy.1))
  }

  /** `apply_override` as written, on the parts that matter here: the caller's `changes` dict is
      stored by reference, then the view is resolved. */
  function ApplyOverrideAsWritten(heap: Heap, c: HeapContext, id: string, changes: nat, fuel: nat): (r: (Heap, HeapContext))
    ensures r.1.overrides == c.overrides + [StoredOverride(id, changes)]
  {
    ResolveAsWritten(heap, c.(overrides := c.overrides + [StoredOverride(id, changes)]), fuel)
  }

  /** `remove_override` as written: drop the id, then resolve. */
  function RemoveOverrideAsWritten(heap: Heap, c: HeapContext, id: string, fuel: nat): (r: (Heap, HeapContext))
    ensures forall o :: o in r.1.overrides <==> o in c.overrides && o.id != id
  {
    ResolveAsWritten(heap, c.(overrides := StoredWithout(c.overrides, id)), fuel)
  }

  function StoredWithout(overrides: seq<StoredOverride>, id: string): (r: seq<StoredOverride>)
    ensures forall o :: o in r <==> o in overrides && o.id != id
    decreases |overrides|
  {
    if overrides == [] then []
    else (if overrides[0].id != id then [overrides[0]] else []) + StoredWithout(overrides[1..], id)
  }

  const X1: map<string, Value> := map["x" := Num(1.0)]
  const X1Y2: map<string, Value> := map["x" := Num(1.0), "y" := Num(2.0)]

  /** The objects of the example: an empty baseline at 0, `o1`'s changes `{"a": {"x": 1}}` at 1
      (the inner dict at 2), `o2`'s changes `{"a": {"y": 2}}` at 3 (the inner dict at 4). */
  const Heap0: Heap := [[], [("a", Ref(2))], [("x", Atom(Num(1.0)))], [("a", Ref(4))], [("y", Atom(Num(2.0)))]]
  const Start := HeapContext(0, [], 0)

  /** After applying `o1`: the view at 5 shares `o1`'s inner dict. */
  const Heap1: Heap := Heap0 + [[("a", Ref(2))]]
  const Applied1 := HeapContext(0, [StoredOverride("o1", 1)], 5)

  /** After applying `o2`: the view at 6 shares it too, and `o2`'s change was merged into it. */
  const Heap2: Heap := Heap1[2 := [("x", Atom(Num(1.0))), ("y", Atom(Num(2.0)))]] + [[("a", Ref(2))]]
  const Applied2 := HeapContext(0, [StoredOverride("o1", 1), StoredOverride("o2", 3)], 6)

  /** After removing `o2`: the view at 7 shares `o1`'s edited inner dict. */
  const Heap3: Heap := Heap2 + [[("a", Ref(2))]]
  const Removed := HeapContext(0, [StoredOverride("o1", 1)], 7)

  lemma ApplyFirst()
    ensures ApplyOverrideAsWritten(Heap0, Start, "o1", 1, 3) == (Heap1, Applied1)
  {
    var h := Heap0 + [[]];
    assert CloneObj(Heap0, 0, 3) == (h, 5);
    assert h[1] == [("a", Ref(2))];
    assert ApplyChangesAsWritten(h, 5, [("a", Ref(2))], 3) == Heap1;
    assert FoldAsWritten(Heap1, 5, [], 3) == Heap1;
    assert Start.overrides + [StoredOverride("o1", 1)] == [StoredOverride("o1", 1)];
  }

  lemma ApplySecond()
    ensures ApplyOverrideAsWritten(Heap1, Applied1, "o2", 3, 3) == (Heap2, Applied2)
  {
    var h := Heap1 + [[]];
    assert CloneObj(Heap1, 0, 3) == (h, 6);
    var ha := h[6 := [("a", Ref(2))]];
    assert h[1] == [("a", Ref(2))];
    assert ApplyChangesAsWritten(h, 6, [("a", Ref(2))], 3) == ha;
    assert ha[2] == [("x", Atom(Num(1.0)))];
    assert Get(ha[2], "y") == None;
    assert Put(ha[2], "y", Atom(Num(2.0))) == [("x", Atom(Num(1.0))), ("y", Atom(Num(2.0)))];
    assert ha[2 := [("x", Atom(Num(1.0))), ("y", Atom(Num(2.0)))]] == Heap2;
    assert ApplyChangesAsWritten(ha, 2, [("y", Atom(Num(2.0)))], 2) == ApplyChangesAsWritten(Heap2, 2, [], 2);
    assert ha[3] == [("a", Ref(4))] && ha[4] == [("y", Atom(Num(2.0)))];
    assert ApplyChangesAsWritten(ha, 6, [("a", Ref(4))], 3) == ApplyChangesAsWritten(Heap2, 6, [], 3);
    assert FoldAsWritten(Heap2, 6, [], 3) == Heap2;
    assert FoldAsWritten(ha, 6, [StoredOverride("o2", 3)], 3) == Heap2;
    var both := Applied1.overrides + [StoredOverride("o2", 3)];
    assert both == [StoredOverride("o1", 1), StoredOverride("o2", 3)];
    assert both[1..] == [StoredOverride("o2", 3)];
    assert FoldAsWritten(h, 6, both, 3) == Heap2;
  }

  lemma RemoveSecond()
    ensures RemoveOverrideAsWritten(Heap2, Applied2, "o2", 3) == (Heap3, Removed)
  {
    assert StoredWithout([StoredOverride("o2", 3)], "o2") == [];
    assert StoredWithout(Applied2.overrides, "o2") == [StoredOverride("o1", 1)];
    var h := Heap2 + [[]];
    assert CloneObj(Heap2, 0, 3) == (h, 7);
    assert h[1] == [("a", Ref(2))];
    assert ApplyChangesAsWritten(h, 7, [("a", Ref(2))], 3) == Heap3;
    assert FoldAsWritten(Heap3, 7, [], 3) == Heap3;
  }

  lemma ReadViews()
    ensures Read(Heap1, 5, 3) == map["a" := Dict(X1)]
    ensures Read(Heap3, 1, 3) == map["a" := Dict(X1Y2)]
    ensures Read(Heap3, 7, 3) == map["a" := Dict(X1Y2)]
  {
    assert Read(Heap1, 2, 2) == X1;
    assert Heap3[2] == [("x", Atom(Num(1.0))), ("y", Atom(Num(2.0)))];
    assert Read(Heap3, 2, 2) == X1Y2;
  }

  /** An empty baseline, then override `o1` with changes `{"a": {"x": 1}}`, then override `o2`
      with changes `{"a": {"y": 2}}`, then `o2` removed. The overrides list is back to `[o1]`, but
      `o1`'s stored changes now read `{"a": {"x": 1, "y": 2}}` and so does the effective view,
      where the aliasing-free store (and the source's own promise that removing an override undoes
      it) gives `{"a": {"x": 1}}`. */
  lemma RemovedOverrideLeaksIntoEffective()
    ensures
      var applied1 := ApplyOverrideAsWritten(Heap0, Start, "o1", 1, 3);
      var applied2 := ApplyOverrideAsWritten(applied1.0, applied1.1, "o2", 3, 3);
      var removed := RemoveOverrideAsWritten(applied2.0, applied2.1, "o2", 3);
      var o1 := Override("o1", "manual", None, {"a"}, map["a" := Dict(X1)], None, None, None);
      && removed.1.overrides == applied1.1.overrides
      && Read(applied1.0, applied1.1.effective, 3) == map["a" := Dict(X1)]
      && Read(removed.0, removed.1.overrides[0].changes, 3) == map["a" := Dict(X1Y2)]
      && Read(removed.0, removed.1.effective, 3) == map["a" := Dict(X1Y2)]
      && Resolve(map[], [o1]) == map["a" := Dict(X1)]
      && Read(removed.0, removed.1.effective, 3) != Resolve(map[], [o1])
  {
    ApplyFirst();
    ApplySecond();
    RemoveSecond();
    ReadViews();
    var o1 := Override("o1", "manual", None, {"a"}, map["a" := Dict(X1)], None, None, None);
    assert [o1][..0] == [];
    assert X1Y2 != X1 by {
      assert "y" in X1Y2;
    }
    assert map["a" := Dict(X1Y2)]["a"] != map["a" := Dict(X1)]["a"];
  }
}
