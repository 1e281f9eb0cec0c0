/** The whole second pass: resolve every deferred reference, then substitute from the root and from every owner. */
module JsoxSettle {
  import opened Options
  import opened JsoxModel
  import opened JsoxRefs
  import opened JsoxReviver
  import opened JsoxResolve
  import opened JsoxSubstitute

  ghost predicate AllResolvable(doc: Document) {
    forall p :: p in doc.refs ==> Resolvable(doc, p)
  }

  /** The substitution of a document all of whose references resolve. */
  ghost function SigmaOf(doc: Document): (sigma: Subst)
    requires AllResolvable(doc)
    ensures Resolves(doc, sigma)
  {
    map p | p in doc.refs :: Meaning(doc, p)
  }

  /** The objects substitution starts from. */
  ghost function StartSet(root: Value, ds: seq<DeferredRef>): set<nat> {
    RootSet(root) + set d | d in ds && d.owner.Obj? :: d.owner.id
  }

  /** The heap the pass has to leave behind. */
  ghost function Settled(doc: Document, from: set<nat>): Heap
    requires AllResolvable(doc)
  {
    Rewrite(doc.heap, ReachSet(doc.heap, doc.refs.Keys, from), SigmaOf(doc))
  }

  ghost predicate OwnersIn(h: Heap, ds: seq<DeferredRef>) {
    forall i :: 0 <= i < |ds| ==> InHeap(h, ds[i].owner)
  }

  ghost function DocumentOf(h: Heap, ds: seq<DeferredRef>, root: Value): Document {
    Document(h, RefsOf(ds), root)
  }

  lemma StartsWithin(root: Value, a: seq<DeferredRef>, b: seq<DeferredRef>)
    requires EachOn(a, b)
    ensures StartSet(root, a) <= StartSet(root, b)
  {
    forall d | d in a && d.owner.Obj? ensures d.owner.id in StartSet(root, b) {
      var i :| 0 <= i < |a| && a[i] == d;
      var j :| 0 <= j < |b| && SameRef(a[i], b[j]);
      assert b[j] in b && b[j].owner == d.owner;
    }
  }

  /** Any reordering of the list, whatever its resolution state, is the same set of references: whether they all have
      a meaning does not depend on the order they were deferred in, and no more does the document that results. */
  lemma OrderIsImmaterial(h: Heap, root: Value, a: seq<DeferredRef>, b: seq<DeferredRef>)
    requires Distinct(a) && Distinct(b) && EachOn(a, b) && EachOn(b, a)
    ensures var doc, other := DocumentOf(h, a, root), DocumentOf(h, b, root);
            && (AllResolvable(doc) <==> AllResolvable(other))
            && (AllResolvable(doc) ==> Settled(doc, StartSet(root, a)) == Settled(other, StartSet(root, b)))
  {
    hide AllResolvable, Settled, StartSet, EachOn, Distinct;
    ReorderedRefs(a, b);
    StartsWithin(root, a, b);
    StartsWithin(root, b, a);
    assert StartSet(root, a) == StartSet(root, b);
  }

  ghost predicate DoneTo(ds: seq<DeferredRef>, n: nat)
    requires n <= |ds|
  {
    forall i :: 0 <= i < n ==> ds[i].state.Resolved?
  }

  lemma StartKept(ds: seq<DeferredRef>, doc: Document)
    requires Distinct(ds) && Fresh(ds) && doc.refs == RefsOf(ds)
    ensures Kept(ds, ds, doc, false)
  {
    RefsOfLists(ds);
  }

  /** The first loop: every reference in list order, stopping at the first that has no meaning. */
  method ResolveAll(r: Reviver, root: Value, ghost doc: Document)
    requires !r.failed && Distinct(r.deferred) && Fresh(r.deferred) && doc == DocumentOf(r.heap, r.deferred, root)
    modifies r`deferred, r`failed
    ensures Consistent(r.deferred, doc) && Advanced(old(r.deferred), r.deferred)
    ensures r.failed ==> !AllResolvable(doc)
    ensures !r.failed ==> AllResolvable(doc) && Covers(r.deferred, SigmaOf(doc))
  {
    StartKept(r.deferred, doc);
    var idx := 0;
    while idx < |r.deferred|
      invariant idx <= |r.deferred| && !r.failed
      invariant Kept(old(r.deferred), r.deferred, doc, false)
      invariant DoneTo(r.deferred, idx)
      decreases |r.deferred| - idx
    {
      ghost var before := r.deferred;
      ResolveNext(r, root, idx, doc, old(r.deferred));
      KeptCompose(old(r.deferred), before, r.deferred, doc, r.failed);
      if r.failed { return; }
      ResolvedStay(before, r.deferred, idx);
      idx := idx + 1;
    }
    AllCovered(r.deferred, doc);
  }

  /** One turn: the call at the top level, where nothing is in progress, fails only if the reference has no meaning. */
  method ResolveNext(r: Reviver, root: Value, idx: nat, ghost doc: Document, ghost start: seq<DeferredRef>)
    requires !r.failed && Fresh(start) && Kept(start, r.deferred, doc, false) && idx < |r.deferred|
    requires doc.heap == r.heap && doc.root == root
    modifies r`deferred, r`failed
    ensures Kept(old(r.deferred), r.deferred, doc, r.failed)
    ensures r.failed ==> !AllResolvable(doc)
    ensures !r.failed ==> r.deferred[idx].state.Resolved?
  {
    ghost var p := r.deferred[idx].placeholder;
    ghost var n: nat := 0;
    if Resolvable(doc, p) { n :| Eval(doc, n, p).Some?; }
    NoneInProgress(start, r.deferred, doc, n);
    var v := ResolveDeferredOne(r, root, idx, doc, n);
  }

  lemma NoneInProgress(a: seq<DeferredRef>, ds: seq<DeferredRef>, doc: Document, n: nat)
    requires Fresh(a) && Kept(a, ds, doc, false)
    ensures AllHigher(ds, doc, n)
  {
  }

  lemma ResolvedStay(a: seq<DeferredRef>, b: seq<DeferredRef>, idx: nat)
    requires Advanced(a, b) && idx < |a|
    requires DoneTo(a, idx) && b[idx].state.Resolved?
    ensures DoneTo(b, idx + 1)
  {
    forall i | 0 <= i < idx ensures b[i].state.Resolved? {
      assert Moved(a[i], b[i]);
    }
  }

  lemma AllCovered(ds: seq<DeferredRef>, doc: Document)
    requires Consistent(ds, doc) && DoneTo(ds, |ds|)
    ensures AllResolvable(doc) && Covers(ds, SigmaOf(doc))
  {
    forall p | p in doc.refs ensures Resolvable(doc, p) {
      assert Named(ds, p);
      var i :| 0 <= i < |ds| && ds[i].placeholder == p;
      assert Sound(ds[i], doc);
    }
    forall i | 0 <= i < |ds| ensures SigmaOf(doc)[ds[i].placeholder] == ds[i].resolved {
      assert Sound(ds[i], doc);
      DerivesFunctional(doc, ds[i].placeholder, ds[i].resolved, SigmaOf(doc)[ds[i].placeholder]);
    }
  }

  ghost predicate OwnersSeen(ds: seq<DeferredRef>, n: nat, seen: set<nat>)
    requires n <= |ds|
  {
    forall i :: 0 <= i < n ==> RootSet(ds[i].owner) <= seen
  }

  /** The second loop: substitute from the root, then from the accumulator each reference was read under. */
  method SubstituteAll(r: Reviver, root: Value, ghost sigma: Subst)
    requires Closed(r.heap) && InHeap(r.heap, root) && OwnersIn(r.heap, r.deferred) && Covers(r.deferred, sigma)
    modifies r`heap
    ensures r.heap == Rewrite(old(r.heap), ReachSet(old(r.heap), sigma.Keys, StartSet(root, r.deferred)), sigma)
  {
    ghost var h0 := r.heap;
    ghost var c := ReachSet(h0, sigma.Keys, StartSet(root, r.deferred));
    ReachClosed(h0, sigma.Keys, StartSet(root, r.deferred));
    StartsReached(h0, sigma.Keys, root, r.deferred);
    var seen := SubstituteStarts(r, root, h0, sigma, c);
    VisitedAll(h0, sigma, root, r.deferred, r.heap, seen);
  }

  method SubstituteStarts(r: Reviver, root: Value, ghost h0: Heap, ghost sigma: Subst, ghost c: set<nat>)
    returns (seen: set<nat>)
    requires h0 == r.heap && Closed(h0) && InHeap(h0, root) && OwnersIn(h0, r.deferred) && Covers(r.deferred, sigma)
    requires ClosedUnder(h0, sigma.Keys, c) && RootSet(root) <= c && OwnersSeen(r.deferred, |r.deferred|, c)
    modifies r`heap
    ensures Visited(h0, sigma, h0, {}, r.heap, seen)
    ensures RootSet(root) <= seen <= c && OwnersSeen(r.deferred, |r.deferred|, seen)
  {
    NothingVisited(h0, sigma);
    hide Visited, ClosedUnder, Closed, Covers, InHeap;
    seen := SubstituteFrom(r, root, {}, h0, sigma, c);
    var idx := 0;
    while idx < |r.deferred|
      invariant idx <= |r.deferred|
      invariant Visited(h0, sigma, h0, {}, r.heap, seen)
      invariant RootSet(root) <= seen <= c && OwnersSeen(r.deferred, idx, seen)
    {
      seen := SubstituteFrom(r, r.deferred[idx].owner, seen, h0, sigma, c);
      idx := idx + 1;
    }
  }

  lemma NothingVisited(h0: Heap, sigma: Subst)
    ensures Visited(h0, sigma, h0, {}, h0, {})
  {
  }

  /** One more starting point on top of everything visited so far. */
  method SubstituteFrom(r: Reviver, node: Value, seen: set<nat>, ghost h0: Heap, ghost sigma: Subst, ghost c: set<nat>)
    returns (seen': set<nat>)
    requires Closed(h0) && InHeap(h0, node) && Covers(r.deferred, sigma)
    requires ClosedUnder(h0, sigma.Keys, c) && RootSet(node) <= c
    requires Visited(h0, sigma, h0, {}, r.heap, seen) && seen <= c
    modifies r`heap
    ensures Visited(h0, sigma, h0, {}, r.heap, seen')
    ensures seen + RootSet(node) <= seen' <= c
  {
    VisitedLeavesUntouched(h0, sigma, r.heap, seen);
    seen' := SubstituteDeferred(r, node, seen, h0, sigma, c);
    VisitedCompose(h0, sigma, h0, {}, old(r.heap), seen, r.heap, seen');
  }

  lemma VisitedLeavesUntouched(h0: Heap, sigma: Subst, h: Heap, seen: set<nat>)
    requires Visited(h0, sigma, h0, {}, h, seen)
    ensures Untouched(h0, h, seen)
  {
  }

  lemma StartsReached(h: Heap, skip: set<nat>, root: Value, ds: seq<DeferredRef>)
    requires Closed(h) && InHeap(h, root) && OwnersIn(h, ds)
    ensures RootSet(root) <= ReachSet(h, skip, StartSet(root, ds))
    ensures OwnersSeen(ds, |ds|, ReachSet(h, skip, StartSet(root, ds)))
  {
    var from := StartSet(root, ds);
    forall o | o in RootSet(root) ensures o in ReachSet(h, skip, from) {
      ReachStart(h, skip, from, o);
    }
    forall i | 0 <= i < |ds| ensures RootSet(ds[i].owner) <= ReachSet(h, skip, from) {
      if ds[i].owner.Obj? {
        assert ds[i] in ds && InHeap(h, ds[i].owner);
        ReachStart(h, skip, from, ds[i].owner.id);
      }
    }
  }

  lemma VisitedAll(h0: Heap, sigma: Subst, root: Value, ds: seq<DeferredRef>, h: Heap, seen: set<nat>)
    requires Visited(h0, sigma, h0, {}, h, seen)
    requires RootSet(root) <= seen <= ReachSet(h0, sigma.Keys, StartSet(root, ds))
    requires OwnersSeen(ds, |ds|, seen)
    ensures h == Rewrite(h0, ReachSet(h0, sigma.Keys, StartSet(root, ds)), sigma)
  {
    hide Visited, Rewrite, ReachSet, StartSet, ClosedUnder, OwnersSeen;
    StartsSeen(root, ds, seen);
    VisitedIsClosed(h0, sigma, h, seen);
    ReachLeast(h0, sigma.Keys, StartSet(root, ds), seen);
    assert seen == ReachSet(h0, sigma.Keys, StartSet(root, ds));
    VisitedIsRewritten(h0, sigma, h, seen);
  }

  lemma StartsSeen(root: Value, ds: seq<DeferredRef>, seen: set<nat>)
    requires RootSet(root) <= seen && OwnersSeen(ds, |ds|, seen)
    ensures StartSet(root, ds) <= seen
  {
    forall o | o in StartSet(root, ds) ensures o in seen {
      if o !in RootSet(root) {
        var d :| d in ds && d.owner.Obj? && d.owner.id == o;
        var i :| 0 <= i < |ds| && ds[i] == d;
        assert o in RootSet(ds[i].owner);
      }
    }
  }

  lemma VisitedIsClosed(h0: Heap, sigma: Subst, h: Heap, seen: set<nat>)
    requires Visited(h0, sigma, h0, {}, h, seen)
    ensures ClosedUnder(h0, sigma.Keys, seen)
  {
    assert seen - {} == seen;
  }

  lemma VisitedIsRewritten(h0: Heap, sigma: Subst, h: Heap, seen: set<nat>)
    requires Visited(h0, sigma, h0, {}, h, seen)
    ensures h == Rewrite(h0, seen, sigma)
  {
    assert seen - {} == seen;
  }

  /** The pass succeeds exactly when every reference has a meaning; then the document's identity is unchanged and the
      heap is exactly the rewritten one.  On failure nothing has been written. */
  method ResolveDeferredRefs(r: Reviver, root: Value) returns (v: Value)
    requires !r.failed && Distinct(r.deferred) && Fresh(r.deferred)
    requires Closed(r.heap) && InHeap(r.heap, root) && OwnersIn(r.heap, r.deferred)
    modifies r`heap, r`deferred, r`failed
    ensures r.failed <==> !AllResolvable(old(DocumentOf(r.heap, r.deferred, root)))
    ensures r.failed ==> r.heap == old(r.heap)
    ensures RefsOf(r.deferred) == RefsOf(old(r.deferred))
    ensures !r.failed ==> v == root
    ensures !r.failed ==>
              r.heap == Settled(old(DocumentOf(r.heap, r.deferred, root)), StartSet(root, old(r.deferred)))
  {
    ghost var doc := DocumentOf(r.heap, r.deferred, root);
    ghost var ds := r.deferred;
    if |r.deferred| == 0 {
      assert SigmaOf(doc) == map[];
      RewriteByNothing(r.heap, ReachSet(doc.heap, doc.refs.Keys, StartSet(root, ds)));
      return root;
    }
    ResolveAll(r, root, doc);
    SameRefs(ds, r.deferred);
    if r.failed { return Undefined; }
    ghost var resolved := r.deferred;
    SameStart(root, ds, resolved, r.heap);
    SubstituteAll(r, root, SigmaOf(doc));
    // the document itself can be nothing but a reference
    var which := FindPlaceholder(r.deferred, root);
    v := root;
    if which < |r.deferred| { v := r.deferred[which].resolved; }
    RootIsNoPlaceholder(resolved, doc);
  }

  lemma {:induction false} SameRefs(a: seq<DeferredRef>, b: seq<DeferredRef>)
    requires Advanced(a, b)
    ensures RefsOf(a) == RefsOf(b)
  {
    if a != [] {
      assert Moved(a[|a| - 1], b[|a| - 1]);
      SameRefs(a[..|a| - 1], b[..|a| - 1]);
    }
  }

  lemma RewriteByNothing(h: Heap, visited: set<nat>)
    ensures Rewrite(h, visited, map[]) == h
  {
    forall o | o in h ensures RewriteSlots(h[o], map[]) == h[o] {
    }
  }

  lemma SameStart(root: Value, a: seq<DeferredRef>, b: seq<DeferredRef>, h: Heap)
    requires Advanced(a, b) && OwnersIn(h, a)
    ensures StartSet(root, a) == StartSet(root, b) && OwnersIn(h, b)
  {
    forall i | 0 <= i < |a| ensures b[i].owner == a[i].owner {
      assert Moved(a[i], b[i]);
    }
    forall o | o in StartSet(root, a) ensures o in StartSet(root, b) {
      if o !in RootSet(root) {
        var i :| 0 <= i < |a| && a[i].owner == Obj(o);
        assert b[i] in b;
      }
    }
    forall o | o in StartSet(root, b) ensures o in StartSet(root, a) {
      if o !in RootSet(root) {
        var i :| 0 <= i < |b| && b[i].owner == Obj(o);
        assert a[i] in a;
      }
    }
  }

  lemma RootIsNoPlaceholder(ds: seq<DeferredRef>, doc: Document)
    requires AllResolvable(doc) && Lists(ds, doc.refs)
    ensures forall i :: 0 <= i < |ds| ==> doc.root != Obj(ds[i].placeholder)
  {
    ResolvableRoot(doc);
  }

  /** A root that is a placeholder always fails as circular. */
  lemma ResolvableRoot(doc: Document)
    requires AllResolvable(doc)
    ensures !IsPlaceholder(doc.refs, doc.root)
  {
    if IsPlaceholder(doc.refs, doc.root) {
      var p := doc.root.id;
      var n: nat :| Eval(doc, n, p).Some?;
      PlaceholderRootResolvesNothing(doc, n, p);
    }
  }

  /** What a caller gets from a settled document: no object reachable from the root holds a placeholder, every
      reference is what its path names in the finished document, and settling again would change nothing. */
  lemma SettledDocument(doc: Document, from: set<nat>)
    requires WellFormed(doc) && AllResolvable(doc) && RootSet(doc.root) <= from <= doc.heap.Keys
    requires !IsPlaceholder(doc.refs, doc.root)
    ensures FreeOfPlaceholders(Settled(doc, from), doc.refs, ReachSet(Settled(doc, from), {}, RootSet(doc.root)))
    ensures forall p :: p in doc.refs ==> ValueAt(Settled(doc, from), doc.root, doc.refs[p]) == Some(SigmaOf(doc)[p])
    ensures var h := Settled(doc, from); Rewrite(h, ReachSet(h, doc.refs.Keys, from), SigmaOf(doc)) == h
  {
    var sigma := SigmaOf(doc);
    NoPlaceholderReachable(doc, sigma, from);
    RewriteIdempotent(doc, sigma, from);
    ReachedWithin(doc, from);
    forall p | p in doc.refs ensures ValueAt(Settled(doc, from), doc.root, doc.refs[p]) == Some(sigma[p]) {
      ResolvedIsValueAt(doc, sigma, ReachSet(doc.heap, doc.refs.Keys, from), p);
    }
  }
}
