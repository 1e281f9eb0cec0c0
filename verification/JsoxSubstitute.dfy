/** Writing the resolved values back over their placeholders, in place. */
module JsoxSubstitute {
  import opened JsoxModel
  import opened JsoxRefs
  import opened JsoxReviver
  import opened JsoxResolve

  /** The list and the substitution say the same. */
  ghost predicate Covers(ds: seq<DeferredRef>, sigma: Subst) {
    && (forall i :: 0 <= i < |ds| ==> ds[i].placeholder in sigma && sigma[ds[i].placeholder] == ds[i].resolved)
    && (forall p :: p in sigma ==> Named(ds, p))
  }

  /** What one depth-first visit does to the graph `h0`, given that it began with `seen` visited: exactly the newly
      visited objects are rewritten, and every container in their slots is visited too, placeholders apart. */
  ghost predicate Visited(h0: Heap, sigma: Subst, before: Heap, seen: set<nat>, after: Heap, seen': set<nat>) {
    && seen <= seen' <= h0.Keys
    && after.Keys == h0.Keys == before.Keys
    && (forall o :: o in h0 && o !in seen' - seen ==> after[o] == before[o])
    && (forall o :: o in seen' - seen ==> after[o] == RewriteSlots(h0[o], sigma))
    && (forall a, b :: a in seen' - seen && Edge(h0, sigma.Keys, a, b) ==> b in seen')
  }

  /** Objects not visited yet are as they were. */
  ghost predicate Untouched(h0: Heap, h: Heap, seen: set<nat>) {
    h.Keys == h0.Keys && forall o :: o in h0 && o !in seen ==> h[o] == h0[o]
  }

  lemma VisitedCompose(h0: Heap, sigma: Subst, h1: Heap, s1: set<nat>, h2: Heap, s2: set<nat>, h3: Heap, s3: set<nat>)
    requires Visited(h0, sigma, h1, s1, h2, s2) && Visited(h0, sigma, h2, s2, h3, s3)
    ensures Visited(h0, sigma, h1, s1, h3, s3)
  {
    forall o | o in h0 && o !in s3 - s1 ensures h3[o] == h1[o] {
      assert h3[o] == h2[o];
    }
    forall o | o in s3 - s1 ensures h3[o] == RewriteSlots(h0[o], sigma) {
      if o in s2 {
        assert h3[o] == h2[o];
      }
    }
    forall a, b | a in s3 - s1 && Edge(h0, sigma.Keys, a, b) ensures b in s3 {
      if a in s2 {
        assert b in s2;
      }
    }
  }

  /** Depth-first rewriting; `seen` keeps it terminating on cycles.  `c` is any set of objects closed under the
      non-placeholder slots of `h0`: the visit stays inside it. */
  method SubstituteDeferred(r: Reviver, node: Value, seen: set<nat>, ghost h0: Heap, ghost sigma: Subst,
                            ghost c: set<nat>)
    returns (seen': set<nat>)
    requires Closed(h0) && InHeap(h0, node) && seen <= h0.Keys && Untouched(h0, r.heap, seen)
    requires Covers(r.deferred, sigma)
    requires ClosedUnder(h0, sigma.Keys, c) && RootSet(node) <= c
    modifies r`heap
    decreases |h0.Keys - seen|, 1, 0
    ensures Visited(h0, sigma, old(r.heap), seen, r.heap, seen')
    ensures RootSet(node) <= seen' && seen' <= seen + c
  {
    if !node.Obj? { return seen; }
    if node.id in seen { return seen; }
    seen' := SubstituteSlots(r, node.id, seen, h0, sigma, c);
  }

  lemma SmallerRest(h0: Heap, seen: set<nat>, wider: set<nat>, o: nat)
    requires o in h0 && o !in seen && seen + {o} <= wider
    ensures |h0.Keys - wider| < |h0.Keys - seen|
  {
    var rest := (h0.Keys - seen) - {o};
    assert h0.Keys - wider <= rest;
    SubsetSize(h0.Keys - wider, rest);
  }

  lemma {:induction false} SubsetSize(a: set<nat>, b: set<nat>)
    requires a <= b
    ensures |a| <= |b|
  {
    if a != {} {
      var x :| x in a;
      SubsetSize(a - {x}, b - {x});
    }
  }

  predicate Replaced(sigma: Subst, v: Value) {
    v.Obj? && v.id in sigma
  }

  /** An object whose slots are rewritten except for the keys still to do. */
  function PartlyRewritten(slots: Slots, sigma: Subst, todo: set<string>): Slots {
    map k | k in slots :: if k in todo then slots[k] else Image(sigma, slots[k])
  }

  /** The containers in the slots done so far have been visited. */
  ghost predicate ChildrenSeen(slots: Slots, sigma: Subst, todo: set<string>, seen: set<nat>) {
    forall k :: k in slots && k !in todo && slots[k].Obj? && slots[k].id !in sigma ==> slots[k].id in seen
  }

  /** Object `o` is being visited: it is partly rewritten, and everything visited since is done. */
  ghost predicate Visiting(h0: Heap, sigma: Subst, before: Heap, seen: set<nat>, o: nat, after: Heap, seen': set<nat>,
                           todo: set<string>)
    requires o in h0
  {
    && o in after && after[o] == PartlyRewritten(h0[o], sigma, todo)
    && Visited(h0, sigma, before[o := after[o]], seen + {o}, after, seen')
    && ChildrenSeen(h0[o], sigma, todo, seen')
  }

  lemma VisitingStarts(h0: Heap, sigma: Subst, before: Heap, seen: set<nat>, o: nat)
    requires Untouched(h0, before, seen) && o in h0 && o !in seen && seen <= h0.Keys
    ensures Visiting(h0, sigma, before, seen, o, before, seen + {o}, h0[o].Keys)
  {
    assert PartlyRewritten(h0[o], sigma, h0[o].Keys) == h0[o] == before[o];
    assert before[o := before[o]] == before;
  }

  lemma VisitingEnds(h0: Heap, sigma: Subst, before: Heap, seen: set<nat>, o: nat, after: Heap, seen': set<nat>)
    requires o in h0 && o !in seen && seen <= h0.Keys && before.Keys == h0.Keys
    requires Visiting(h0, sigma, before, seen, o, after, seen', {})
    ensures Visited(h0, sigma, before, seen, after, seen')
  {
    assert PartlyRewritten(h0[o], sigma, {}) == RewriteSlots(h0[o], sigma);
    forall x | x in h0 && x !in seen' - seen ensures after[x] == before[x] {
      assert x != o;
    }
    forall x | x in seen' - seen ensures after[x] == RewriteSlots(h0[x], sigma) {
      if x != o {
        assert x in seen' - (seen + {o});
      }
    }
    forall a, b | a in seen' - seen && Edge(h0, sigma.Keys, a, b) ensures b in seen' {
      if a != o {
        assert a in seen' - (seen + {o});
      }
    }
  }

  lemma VisitedElsewhere(h0: Heap, sigma: Subst, before: Heap, seen: set<nat>, o: nat, after: Heap, seen': set<nat>,
                         slots: Slots)
    requires o in seen && o in h0 && o in after && Visited(h0, sigma, before[o := after[o]], seen, after, seen')
    ensures Visited(h0, sigma, before[o := slots], seen, after[o := slots], seen')
  {
    forall x | x in seen' - seen ensures after[o := slots][x] == RewriteSlots(h0[x], sigma) {
      assert after[x] == RewriteSlots(h0[x], sigma);
    }
    forall x | x in h0 && x !in seen' - seen ensures after[o := slots][x] == before[o := slots][x] {
      if x != o {
        assert after[x] == before[o := after[o]][x];
      }
    }
  }

  lemma PlaceholderWritten(h0: Heap, sigma: Subst, before: Heap, seen: set<nat>, o: nat, after: Heap, seen': set<nat>,
                           todo: set<string>, k: string, w: Value)
    requires o in h0 && Visiting(h0, sigma, before, seen, o, after, seen', todo)
    requires k in todo && k in h0[o] && w == Image(sigma, h0[o][k]) && Replaced(sigma, h0[o][k])
    ensures Visiting(h0, sigma, before, seen, o, Set(after, o, k, w), seen', todo - {k})
  {
    var h := Set(after, o, k, w);
    assert h[o] == PartlyRewritten(h0[o], sigma, todo - {k});
    VisitedElsewhere(h0, sigma, before, seen + {o}, o, after, seen', h[o]);
  }

  lemma ChildVisited(h0: Heap, sigma: Subst, before: Heap, seen: set<nat>, o: nat, h1: Heap, s1: set<nat>,
                     h2: Heap, s2: set<nat>, todo: set<string>, k: string)
    requires o in h0 && Visiting(h0, sigma, before, seen, o, h1, s1, todo)
    requires Visited(h0, sigma, h1, s1, h2, s2)
    requires k in todo && k in h0[o] && !Replaced(sigma, h0[o][k]) && RootSet(h0[o][k]) <= s2
    ensures Visiting(h0, sigma, before, seen, o, h2, s2, todo - {k})
  {
    assert o in s1 && h2[o] == h1[o];
    assert PartlyRewritten(h0[o], sigma, todo) == PartlyRewritten(h0[o], sigma, todo - {k});
    VisitedCompose(h0, sigma, before[o := h1[o]], seen + {o}, h1, s1, h2, s2);
  }

  lemma VisitingLeavesUntouched(h0: Heap, sigma: Subst, before: Heap, seen: set<nat>, o: nat, after: Heap,
                                seen': set<nat>, todo: set<string>)
    requires o in h0 && Untouched(h0, before, seen) && Visiting(h0, sigma, before, seen, o, after, seen', todo)
    ensures Untouched(h0, after, seen')
  {
  }

  /** The loop over the own properties of one object; the order they come in does not matter. */
  method SubstituteSlots(r: Reviver, o: nat, seen: set<nat>, ghost h0: Heap, ghost sigma: Subst, ghost c: set<nat>)
    returns (seen': set<nat>)
    requires Closed(h0) && o in h0 && o !in seen && seen <= h0.Keys && Untouched(h0, r.heap, seen)
    requires Covers(r.deferred, sigma)
    requires ClosedUnder(h0, sigma.Keys, c) && o in c
    modifies r`heap
    decreases |h0.Keys - seen|, 0, 1
    ensures Visited(h0, sigma, old(r.heap), seen, r.heap, seen')
    ensures o in seen' && seen' <= seen + c
  {
    seen' := seen + {o};
    var todo := r.heap[o].Keys;
    VisitingStarts(h0, sigma, r.heap, seen, o);
    while todo != {}
      invariant todo <= h0[o].Keys
      invariant Visiting(h0, sigma, old(r.heap), seen, o, r.heap, seen', todo)
      invariant seen' <= seen + c
      decreases todo
    {
      var k :| k in todo;
      seen' := SubstituteSlot(r, o, k, seen', h0, sigma, c, old(r.heap), seen, todo);
      todo := todo - {k};
    }
    VisitingEnds(h0, sigma, old(r.heap), seen, o, r.heap, seen');
  }

  /** One property: write over a placeholder, or visit the container found there. */
  method SubstituteSlot(r: Reviver, o: nat, k: string, seen: set<nat>, ghost h0: Heap, ghost sigma: Subst,
                        ghost c: set<nat>, ghost before: Heap, ghost entry: set<nat>, ghost todo: set<string>)
    returns (seen': set<nat>)
    requires Closed(h0) && o in h0 && o !in entry && entry <= h0.Keys && Untouched(h0, before, entry)
    requires Visiting(h0, sigma, before, entry, o, r.heap, seen, todo)
    requires k in todo && todo <= h0[o].Keys && k in r.heap[o]
    requires Covers(r.deferred, sigma)
    requires ClosedUnder(h0, sigma.Keys, c) && o in c && seen <= entry + c
    modifies r`heap
    decreases |h0.Keys - entry|, 0, 0
    ensures Visiting(h0, sigma, before, entry, o, r.heap, seen', todo - {k})
    ensures seen' <= entry + c
  {
    var v := r.heap[o][k];
    assert v == h0[o][k];
    var which := FindPlaceholder(r.deferred, v);
    if which < |r.deferred| {
      PlaceholderWritten(h0, sigma, before, entry, o, r.heap, seen, todo, k, r.deferred[which].resolved);
      r.heap := Set(r.heap, o, k, r.deferred[which].resolved);
      seen' := seen;
    } else {
      VisitingLeavesUntouched(h0, sigma, before, entry, o, r.heap, seen, todo);
      SmallerRest(h0, entry, seen, o);
      assert !Replaced(sigma, v);
      ChildWithin(h0, sigma, o, k, c);
      seen' := SubstituteDeferred(r, v, seen, h0, sigma, c);
      ChildVisited(h0, sigma, before, entry, o, old(r.heap), seen, r.heap, seen', todo, k);
    }
  }

  lemma ChildWithin(h0: Heap, sigma: Subst, o: nat, k: string, c: set<nat>)
    requires Closed(h0) && o in h0 && k in h0[o] && o in c && ClosedUnder(h0, sigma.Keys, c)
    requires !Replaced(sigma, h0[o][k])
    ensures InHeap(h0, h0[o][k]) && RootSet(h0[o][k]) <= c
  {
    var v := h0[o][k];
    if v.Obj? {
      assert Has(h0, o, k) && h0[o][k] == Obj(v.id);
      assert Edge(h0, sigma.Keys, o, v.id);
    }
  }
}
