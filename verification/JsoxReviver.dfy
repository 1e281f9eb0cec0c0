/** The mutable state of one revival: the fields of `reviver_data` that building and resolving update. */
module JsoxReviver {
  import opened Options
  import opened JsoxModel
  import opened JsoxRefs

  datatype State = Unresolved | Resolving | Resolved

  datatype DeferredRef = DeferredRef(path: seq<Step>, placeholder: nat, owner: Value, state: State, resolved: Value)

  /** An open container on the revive stack.  A new member starts out zeroed, so a named one has index 0; an
      indexed one has no name, which differs from every name. */
  datatype Member = Member(container: Value, isArray: bool, index: nat, name: string)

  /** What one call of foreign code came back with, and the object graph it left. */
  datatype Answer = Answer(threw: bool, value: Value, heap: Heap)

  class Reviver {
    var heap: Heap
    var next: nat                    // ids from here on are unused
    var rootObject: Option<nat>
    var refObject: Value
    var reviveStack: seq<Member>     // bottom first
    var deferred: seq<DeferredRef>
    var failed: bool
    var fieldCb: bool                // a field callback is installed
    var revive: bool                 // a reviver function was passed in
    ghost var building: seq<nat>     // containers whose build has started and not finished
    ghost var answers: seq<Answer>   // all calls of foreign code so far

    constructor ()
      ensures heap == map[] && next == 0 && rootObject == None && refObject == Undefined && reviveStack == []
      ensures deferred == [] && !failed && !fieldCb && !revive && building == [] && answers == []
    {
      heap, next, rootObject, refObject, reviveStack := map[], 0, None, Undefined, [];
      deferred, failed, fieldCb, revive, building, answers := [], false, false, false, [], [];
    }
  }

  // ---- the deferred list as a set of references ----------------------------------------------------

  ghost predicate Distinct(ds: seq<DeferredRef>) {
    forall i, j :: 0 <= i < j < |ds| ==> ds[i].placeholder != ds[j].placeholder
  }

  ghost predicate Fresh(ds: seq<DeferredRef>) {
    forall i :: 0 <= i < |ds| ==> ds[i].state.Unresolved?
  }

  /** The references on the list, without their order and their resolution state. */
  ghost function RefsOf(ds: seq<DeferredRef>): Refs {
    if ds == [] then map[]
    else RefsOf(ds[..|ds| - 1])[ds[|ds| - 1].placeholder := ds[|ds| - 1].path]
  }

  ghost predicate Named(ds: seq<DeferredRef>, p: nat) {
    exists i :: 0 <= i < |ds| && ds[i].placeholder == p
  }

  /** The list holds exactly these references. */
  ghost predicate Lists(ds: seq<DeferredRef>, refs: Refs) {
    && (forall i :: 0 <= i < |ds| ==> ds[i].placeholder in refs && refs[ds[i].placeholder] == ds[i].path)
    && (forall p :: p in refs ==> Named(ds, p))
  }

  lemma {:induction false} RefsOfLists(ds: seq<DeferredRef>)
    requires Distinct(ds)
    ensures Lists(ds, RefsOf(ds))
  {
    if ds != [] {
      var init := ds[..|ds| - 1];
      RefsOfLists(init);
      forall p | p in RefsOf(ds) ensures Named(ds, p) {
        if p == ds[|ds| - 1].placeholder {
          assert ds[|ds| - 1].placeholder == p;
        } else {
          assert Named(init, p);
          var i :| 0 <= i < |init| && init[i].placeholder == p;
          assert ds[i].placeholder == p;
        }
      }
    }
  }

  /** The same reference, deferred in the same container, whatever became of it since. */
  predicate SameRef(d: DeferredRef, e: DeferredRef) {
    d.placeholder == e.placeholder && d.path == e.path && d.owner == e.owner
  }

  ghost predicate EachOn(a: seq<DeferredRef>, b: seq<DeferredRef>) {
    forall i :: 0 <= i < |a| ==> exists j :: 0 <= j < |b| && SameRef(a[i], b[j])
  }

  lemma RefsWithin(a: seq<DeferredRef>, b: seq<DeferredRef>, p: nat)
    requires Distinct(a) && Distinct(b) && EachOn(a, b) && p in RefsOf(a)
    ensures p in RefsOf(b) && RefsOf(b)[p] == RefsOf(a)[p]
  {
    RefsOfLists(a);
    RefsOfLists(b);
    assert Named(a, p);
    var i :| 0 <= i < |a| && a[i].placeholder == p;
    var j :| 0 <= j < |b| && SameRef(a[i], b[j]);
  }

  lemma ReorderedRefs(a: seq<DeferredRef>, b: seq<DeferredRef>)
    requires Distinct(a) && Distinct(b) && EachOn(a, b) && EachOn(b, a)
    ensures RefsOf(a) == RefsOf(b)
  {
    forall p | p in RefsOf(a) ensures p in RefsOf(b) && RefsOf(b)[p] == RefsOf(a)[p] {
      RefsWithin(a, b, p);
    }
    forall p | p in RefsOf(b) ensures p in RefsOf(a) {
      RefsWithin(b, a, p);
    }
  }
}
