/** Resolving the deferred references of a finished document and writing the results back. */
module JsoxResolve {
  import opened Options
  import opened JsoxModel
  import opened JsoxRefs
  import opened JsoxReviver

  // ---- resolving ---------------------------------------------------------------------------------

  /** Which deferred reference `v` is the placeholder of; |ds| if none. */
  method FindPlaceholder(ds: seq<DeferredRef>, v: Value) returns (which: nat)
    ensures which <= |ds|
    ensures which < |ds| ==> v == Obj(ds[which].placeholder)
    ensures which == |ds| ==> forall i :: 0 <= i < |ds| ==> v != Obj(ds[i].placeholder)
  {
    which := 0;
    if !v.Obj? { return |ds|; }
    while which < |ds|
      invariant which <= |ds|
      invariant forall i :: 0 <= i < which ==> v != Obj(ds[i].placeholder)
    {
      if v.id == ds[which].placeholder { return; }
      which := which + 1;
    }
  }

  /** The list is that of `doc`, and every entry marked resolved holds what its reference means. */
  ghost predicate Consistent(ds: seq<DeferredRef>, doc: Document) {
    Lists(ds, doc.refs) && forall i :: 0 <= i < |ds| ==> Sound(ds[i], doc)
  }

  ghost predicate Sound(d: DeferredRef, doc: Document) {
    d.state.Resolved? ==> Derives(doc, d.placeholder, d.resolved)
  }

  ghost predicate Moved(d: DeferredRef, e: DeferredRef) {
    && e.placeholder == d.placeholder && e.path == d.path && e.owner == d.owner
    && (!d.state.Unresolved? ==> e == d)
  }

  /** `b` is `a` further resolved: only resolution state moved, and nothing resolved was touched. */
  ghost predicate Advanced(a: seq<DeferredRef>, b: seq<DeferredRef>) {
    |a| == |b| && forall i :: 0 <= i < |a| ==> Moved(a[i], b[i])
  }

  lemma AdvancedLists(a: seq<DeferredRef>, b: seq<DeferredRef>, refs: Refs)
    requires Advanced(a, b) && Lists(a, refs)
    ensures Lists(b, refs)
  {
    forall i | 0 <= i < |b| ensures b[i].placeholder in refs && refs[b[i].placeholder] == b[i].path {
      assert Moved(a[i], b[i]);
    }
    forall p | p in refs ensures Named(b, p) {
      assert Named(a, p);
      var i :| 0 <= i < |a| && a[i].placeholder == p;
      assert Moved(a[i], b[i]);
    }
  }

  /** The entries in progress are the same ones. */
  ghost predicate SameInProgress(a: seq<DeferredRef>, b: seq<DeferredRef>)
    requires |a| == |b|
  {
    forall i :: 0 <= i < |a| ==> (b[i].state.Resolving? <==> a[i].state.Resolving?)
  }

  /** Nothing in progress has a derivation of height `n`. */
  ghost predicate AllHigher(ds: seq<DeferredRef>, doc: Document, n: nat)
    requires Lists(ds, doc.refs)
  {
    forall i :: 0 <= i < |ds| && ds[i].state.Resolving? ==> Eval(doc, n, ds[i].placeholder).None?
  }

  /** What any part of the pass keeps: the list stays consistent and, unless it failed, the entries in progress at the
      end are those in progress at the start. */
  ghost predicate Kept(a: seq<DeferredRef>, b: seq<DeferredRef>, doc: Document, failed: bool) {
    Consistent(b, doc) && Advanced(a, b) && (!failed ==> SameInProgress(a, b))
  }

  lemma KeptCompose(a: seq<DeferredRef>, b: seq<DeferredRef>, c: seq<DeferredRef>, doc: Document, failed: bool)
    requires Kept(a, b, doc, false) && Kept(b, c, doc, failed)
    ensures Kept(a, c, doc, failed)
  {
    forall i | 0 <= i < |a| ensures Moved(a[i], c[i]) {
      assert Moved(a[i], b[i]) && Moved(b[i], c[i]);
    }
  }

  lemma AllHigherTransfers(a: seq<DeferredRef>, b: seq<DeferredRef>, doc: Document, n: nat)
    requires Advanced(a, b) && SameInProgress(a, b) && Lists(a, doc.refs) && Lists(b, doc.refs) && AllHigher(a, doc, n)
    ensures AllHigher(b, doc, n)
  {
    forall i | 0 <= i < |b| && b[i].state.Resolving? ensures Eval(doc, n, b[i].placeholder).None? {
      assert Moved(a[i], b[i]);
    }
  }

  function Waiting(ds: seq<DeferredRef>): nat {
    if ds == [] then 0 else Waiting(ds[..|ds| - 1]) + if ds[|ds| - 1].state.Unresolved? then 1 else 0
  }

  lemma {:induction false} AdvancedWaits(a: seq<DeferredRef>, b: seq<DeferredRef>)
    requires Advanced(a, b)
    ensures Waiting(b) <= Waiting(a)
  {
    if a != [] {
      AdvancedWaits(a[..|a| - 1], b[..|b| - 1]);
    }
  }

  function Started(ds: seq<DeferredRef>, which: nat): seq<DeferredRef>
    requires which < |ds|
  {
    ds[which := ds[which].(state := Resolving)]
  }

  function Finished(ds: seq<DeferredRef>, which: nat, v: Value): seq<DeferredRef>
    requires which < |ds|
  {
    ds[which := ds[which].(state := Resolved, resolved := v)]
  }

  lemma {:induction false} StartingWaitsLess(ds: seq<DeferredRef>, which: nat)
    requires which < |ds| && ds[which].state.Unresolved?
    ensures Waiting(Started(ds, which)) == Waiting(ds) - 1
  {
    var started := Started(ds, which);
    if which == |ds| - 1 {
      assert started[..|ds| - 1] == ds[..|ds| - 1];
    } else {
      var init := ds[..|ds| - 1];
      StartingWaitsLess(init, which);
      assert started[..|ds| - 1] == Started(init, which);
    }
  }

  lemma StartedKeeps(ds: seq<DeferredRef>, which: nat, doc: Document)
    requires which < |ds| && ds[which].state.Unresolved? && Consistent(ds, doc)
    ensures Consistent(Started(ds, which), doc) && Advanced(ds, Started(ds, which))
  {
    assert Advanced(ds, Started(ds, which));
    AdvancedLists(ds, Started(ds, which), doc.refs);
  }

  /** From an unresolved entry, through a walk that began by starting it. */
  lemma WalkedKeeps(ds: seq<DeferredRef>, walked: seq<DeferredRef>, which: nat)
    requires which < |ds| && ds[which].state.Unresolved? && Advanced(Started(ds, which), walked)
    ensures Advanced(ds, walked)
    ensures walked[which] == Started(ds, which)[which]
  {
    forall i | 0 <= i < |ds| ensures Moved(ds[i], walked[i]) {
      assert Moved(Started(ds, which)[i], walked[i]);
    }
    assert Moved(Started(ds, which)[which], walked[which]);
  }

  /** ... to the finished entry. */
  lemma FinishedKeeps(ds: seq<DeferredRef>, walked: seq<DeferredRef>, which: nat, doc: Document, v: Value)
    requires which < |ds| && ds[which].state.Unresolved?
    requires Advanced(Started(ds, which), walked) && Consistent(walked, doc)
    requires SameInProgress(Started(ds, which), walked)
    requires !v.Undefined? && StepsBy(doc, Derived(doc), ds[which].path, |ds[which].path|, v)
    ensures Derives(doc, ds[which].placeholder, v)
    ensures Consistent(Finished(walked, which, v), doc)
    ensures Advanced(ds, Finished(walked, which, v))
  {
    WalkedKeeps(ds, walked, which);
    DerivesIsLeast(doc);
    assert Rule(doc, Derived(doc), ds[which].placeholder, v);
    var done := Finished(walked, which, v);
    forall i | 0 <= i < |ds| ensures Moved(ds[i], done[i]) && Sound(done[i], doc) {
      assert Moved(ds[i], walked[i]);
    }
    assert Advanced(ds, done);
    assert Named(ds, ds[which].placeholder) by { assert ds[which].placeholder == ds[which].placeholder; }
    FinishedLists(walked, which, v, doc.refs);
  }

  lemma FinishedLists(walked: seq<DeferredRef>, which: nat, v: Value, refs: Refs)
    requires which < |walked| && Lists(walked, refs)
    ensures Lists(Finished(walked, which, v), refs)
  {
    var done := Finished(walked, which, v);
    forall p | p in refs ensures Named(done, p) {
      assert Named(walked, p);
      var i :| 0 <= i < |walked| && walked[i].placeholder == p;
      assert done[i].placeholder == p;
    }
  }

  lemma FinishedSameInProgress(ds: seq<DeferredRef>, walked: seq<DeferredRef>, which: nat, v: Value)
    requires which < |ds| == |walked| && ds[which].state.Unresolved?
    requires SameInProgress(Started(ds, which), walked)
    ensures SameInProgress(ds, Finished(walked, which, v))
  {
    var started, done := Started(ds, which), Finished(walked, which, v);
    forall i | 0 <= i < |ds| ensures done[i].state.Resolving? <==> ds[i].state.Resolving? {
      assert walked[i].state.Resolving? <==> started[i].state.Resolving?;
    }
  }

  /** The height to walk the path of `which` at: one below its own least height, where neither it nor anything that
      was in progress has a derivation. */
  lemma HeightBelow(ds: seq<DeferredRef>, which: nat, doc: Document, n: nat) returns (h: nat)
    requires which < |ds| && ds[which].state.Unresolved? && Consistent(ds, doc)
    ensures Eval(doc, n, ds[which].placeholder).Some? && AllHigher(ds, doc, n) ==>
              && Sure(Started(ds, which), doc, h, ds[which].path, |ds[which].path|)
              && !Steps(doc, h, ds[which].path, |ds[which].path|).value.Undefined?
  {
    h := 0;
    StartedKeeps(ds, which, doc);
    if Eval(doc, n, ds[which].placeholder).Some? && AllHigher(ds, doc, n) {
      var m := LeastHeight(doc, n, ds[which].placeholder);
      h := m - 1;
      AllHigherBelow(ds, doc, h, n);
    }
  }

  lemma AllHigherBelow(ds: seq<DeferredRef>, doc: Document, m: nat, n: nat)
    requires Lists(ds, doc.refs) && AllHigher(ds, doc, n) && m <= n
    ensures AllHigher(ds, doc, m)
  {
    forall i | 0 <= i < |ds| && ds[i].state.Resolving? ensures Eval(doc, m, ds[i].placeholder).None? {
      if Eval(doc, m, ds[i].placeholder).Some? {
        EvalMonotone(doc, m, n, ds[i].placeholder);
      }
    }
  }

  /** Step through a placeholder.  `n` is a height the caller is interested in: when the placeholder has a derivation of
      that height and nothing in progress does, this cannot fail. */
  method DerefDeferred(r: Reviver, root: Value, v: Value, ghost doc: Document, ghost n: nat) returns (w: Value)
    requires doc.heap == r.heap && doc.root == root && Consistent(r.deferred, doc) && !r.failed
    modifies r`deferred, r`failed
    decreases Waiting(r.deferred), 1
    ensures Kept(old(r.deferred), r.deferred, doc, r.failed)
    ensures !r.failed ==> DerefBy(doc, Derived(doc), v, w)
    ensures Deref(doc, n, v).Some? && AllHigher(old(r.deferred), doc, n) ==> !r.failed
  {
    var which := FindPlaceholder(r.deferred, v);
    if which == |r.deferred| {
      assert !IsPlaceholder(doc.refs, v);
      return v;
    }
    w := ResolveDeferredOne(r, root, which, doc, n);
  }

  /** The memoised three-state walk. */
  method ResolveDeferredOne(r: Reviver, root: Value, which: nat, ghost doc: Document, ghost n: nat) returns (v: Value)
    requires which < |r.deferred|
    requires doc.heap == r.heap && doc.root == root && Consistent(r.deferred, doc) && !r.failed
    modifies r`deferred, r`failed
    decreases Waiting(r.deferred), 0
    ensures Kept(old(r.deferred), r.deferred, doc, r.failed)
    ensures !r.failed ==> Derives(doc, r.deferred[which].placeholder, v)
    ensures !r.failed ==> r.deferred[which].state.Resolved?
    ensures Eval(doc, n, r.deferred[which].placeholder).Some? && AllHigher(old(r.deferred), doc, n) ==> !r.failed
  {
    var d := r.deferred[which];
    if d.state.Resolved? { return d.resolved; }
    if d.state.Resolving? {
      r.failed := true;
      return Undefined;
    }
    ghost var h := HeightBelow(r.deferred, which, doc, n);
    StartingWaitsLess(r.deferred, which);
    StartedKeeps(r.deferred, which, doc);
    r.deferred := Started(r.deferred, which);
    v := WalkDeferred(r, root, d.path, doc, h);
    if !r.failed && v.Undefined? { r.failed := true; }
    WalkedKeeps(old(r.deferred), r.deferred, which);
    if r.failed { return Undefined; }
    FinishedKeeps(old(r.deferred), r.deferred, which, doc, v);
    FinishedSameInProgress(old(r.deferred), r.deferred, which, v);
    r.deferred := Finished(r.deferred, which, v);
  }

  lemma DerefAgrees(doc: Document, n: nat, v: Value, w: Value)
    requires DerefBy(doc, Derived(doc), v, w) && Deref(doc, n, v).Some?
    ensures Deref(doc, n, v) == Some(w)
  {
    if IsPlaceholder(doc.refs, v) {
      DerivesFunctional(doc, v.id, w, Eval(doc, n, v.id).value);
    }
  }

  /** One more stage of a walk, the placeholder stepped through included. */
  lemma StageDerived(doc: Document, path: seq<Step>, k: nat, at: Value, w: Value)
    requires k < |path| && at.Obj? && Has(doc.heap, at.id, Prop(path[k]))
    requires StepsBy(doc, Derived(doc), path, k, at)
    requires DerefBy(doc, Derived(doc), doc.heap[at.id][Prop(path[k])], w)
    ensures StepsBy(doc, Derived(doc), path, k + 1, w)
  {
    assert at == Obj(at.id);
  }

  /** Where a walk stands after `k` steps: at a value the walking rule leads to, and at the one a derivation of height
      `n` leads to if there is one. */
  ghost predicate Stands(doc: Document, path: seq<Step>, k: nat, at: Value)
    requires k <= |path|
  {
    !at.Undefined? ==> StepsBy(doc, Derived(doc), path, k, at)
  }

  ghost predicate Sure(ds: seq<DeferredRef>, doc: Document, n: nat, path: seq<Step>, k: nat)
    requires k <= |path|
  {
    Lists(ds, doc.refs) && Steps(doc, n, path, k).Some? && AllHigher(ds, doc, n)
  }

  lemma SureCompose(a: seq<DeferredRef>, b: seq<DeferredRef>, doc: Document, n: nat, path: seq<Step>, j: nat)
    requires j <= |path| && Sure(a, doc, n, path, |path|)
    requires Advanced(a, b) && SameInProgress(a, b)
    ensures Sure(b, doc, n, path, j)
  {
    StepsPrefix(doc, n, path, j, |path|);
    AdvancedLists(a, b, doc.refs);
    AllHigherTransfers(a, b, doc, n);
  }

  lemma SureStarts(ds: seq<DeferredRef>, doc: Document, n: nat, path: seq<Step>)
    requires Sure(ds, doc, n, path, |path|)
    ensures Deref(doc, n, doc.root).Some? && Steps(doc, n, path, 0).Some? && AllHigher(ds, doc, n)
  {
    StepsPrefix(doc, n, path, 0, |path|);
  }

  lemma WalkStarts(doc: Document, n: nat, path: seq<Step>, at: Value)
    requires DerefBy(doc, Derived(doc), doc.root, at)
    ensures Stands(doc, path, 0, at)
    ensures Steps(doc, n, path, 0).Some? ==> Steps(doc, n, path, 0) == Some(at)
  {
    if Deref(doc, n, doc.root).Some? { DerefAgrees(doc, n, doc.root, at); }
  }

  /** The loop over the path of one reference. */
  method WalkDeferred(r: Reviver, root: Value, path: seq<Step>, ghost doc: Document, ghost n: nat) returns (at: Value)
    requires doc.heap == r.heap && doc.root == root && Consistent(r.deferred, doc) && !r.failed
    modifies r`deferred, r`failed
    decreases Waiting(r.deferred), 3
    ensures Kept(old(r.deferred), r.deferred, doc, r.failed)
    ensures !r.failed ==> Stands(doc, path, |path|, at)
    ensures Sure(old(r.deferred), doc, n, path, |path|) ==> !r.failed && Steps(doc, n, path, |path|) == Some(at)
  {
    hide Stands, Sure, Steps, Deref, DerefBy, AllHigher, Advanced, SameInProgress, Consistent;
    ghost var sure := Sure(r.deferred, doc, n, path, |path|);
    if sure { SureStarts(r.deferred, doc, n, path); }
    at := DerefDeferred(r, root, root, doc, n);
    if !r.failed { WalkStarts(doc, n, path, at); }
    var idx := 0;
    while idx < |path|
      invariant idx <= |path|
      invariant Kept(old(r.deferred), r.deferred, doc, r.failed)
      invariant !r.failed ==> Stands(doc, path, idx, at)
      invariant sure ==> !r.failed && Steps(doc, n, path, idx) == Some(at)
    {
      if r.failed { return Undefined; }
      ghost var before := r.deferred;
      AdvancedWaits(old(r.deferred), before);
      if sure { SureCompose(old(r.deferred), before, doc, n, path, idx + 1); }
      at := StepDeferred(r, root, path, idx, at, doc, n);
      KeptCompose(old(r.deferred), before, r.deferred, doc, r.failed);
      idx := idx + 1;
    }
  }

  /** One turn of the loop: read one property -- a missing index reads as undefined, a missing name fails -- and step
      through a placeholder found there. */
  method StepDeferred(r: Reviver, root: Value, path: seq<Step>, idx: nat, at: Value, ghost doc: Document, ghost n: nat)
    returns (w: Value)
    requires doc.heap == r.heap && doc.root == root && Consistent(r.deferred, doc) && !r.failed
    requires idx < |path| && Stands(doc, path, idx, at)
    modifies r`deferred, r`failed
    decreases Waiting(r.deferred), 2
    ensures Kept(old(r.deferred), r.deferred, doc, r.failed)
    ensures !r.failed ==> Stands(doc, path, idx + 1, w)
    ensures Sure(old(r.deferred), doc, n, path, idx + 1) && Steps(doc, n, path, idx) == Some(at) ==>
              !r.failed && Steps(doc, n, path, idx + 1) == Some(w)
  {
    if !at.Obj? {
      r.failed := true;
      return Undefined;
    }
    if path[idx].Name? && !Has(r.heap, at.id, Prop(path[idx])) {
      r.failed := true;
      return Undefined;
    }
    var next := Get(r.heap, at.id, Prop(path[idx]));
    w := DerefDeferred(r, root, next, doc, n);
    if !r.failed && Has(doc.heap, at.id, Prop(path[idx])) {
      StageDerived(doc, path, idx, at, w);
      if Deref(doc, n, next).Some? { DerefAgrees(doc, n, next, w); }
    }
  }
}
