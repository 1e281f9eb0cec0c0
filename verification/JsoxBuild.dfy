/** Building a document from its parse tree: the recursive fill of containers, with its callbacks, early returns and
    failures, and the conversion that settles references afterwards. */
module JsoxBuild {
  import opened Options
  import opened JsoxModel
  import opened JsoxRefs
  import opened JsoxReviver
  import opened JsoxDoc
  import opened JsoxMeaning
  import opened JsoxSettle
  import opened JsoxDocument
  import opened JsoxDistinct

  // ---- open containers ----------------------------------------------------------------------------------------

  /** Every container whose build has started and not finished is the root or on the revive stack. */
  ghost predicate CoveredBy(building: seq<nat>, rootObject: Option<nat>, stack: seq<Member>) {
    forall x :: x in building ==> rootObject == Some(x) || OnStack(stack, Obj(x))
  }

  ghost predicate Covered(r: Reviver)
    reads r
  {
    CoveredBy(r.building, r.rootObject, r.reviveStack)
  }

  /** Is this value one of the containers currently being filled?  It never misses one. */
  method IsStillOpen(r: Reviver, v: Value) returns (open: bool)
    requires Covered(r)
    ensures open <==> v.Obj? && (r.rootObject == Some(v.id) || r.refObject == v || OnStack(r.reviveStack, v))
    ensures v.Obj? && v.id in r.building ==> open
  {
    if !v.Obj? { return false; }
    if r.rootObject == Some(v.id) { return true; }
    if r.refObject == v { return true; }
    var n := 0;
    while n < |r.reviveStack|
      invariant n <= |r.reviveStack|
      invariant forall j :: 0 <= j < n ==> r.reviveStack[j].container != v
    {
      if r.reviveStack[n].container == v { return true; }
      n := n + 1;
    }
    return false;
  }

  ghost function StateOf(r: Reviver): Build
    reads r
  {
    Build(r.heap, r.next, r.deferred)
  }

  // ---- what holds whatever foreign code does ----------------------------------------------------------------

  /** Object ids handed around are live, placeholders are distinct, and nothing is resolved yet. */
  ghost predicate Sane(st: Build, rootObject: Option<nat>, refObject: Value, stack: seq<Member>) {
    && Closed(st.heap) && (forall x :: x in st.heap ==> x < st.next)
    && Distinct(st.deferred) && Fresh(st.deferred)
    && (forall i :: 0 <= i < |st.deferred| ==>
          st.deferred[i].placeholder in st.heap && InHeap(st.heap, st.deferred[i].owner))
    && (rootObject.Some? ==> rootObject.value in st.heap) && InHeap(st.heap, refObject)
    && forall m :: m in stack ==> InHeap(st.heap, m.container)
  }

  ghost predicate SaneNow(r: Reviver)
    reads r
  {
    Sane(StateOf(r), r.rootObject, r.refObject, r.reviveStack)
  }

  lemma SaneSet(st: Build, root: Option<nat>, refObject: Value, stack: seq<Member>, o: nat, k: string, v: Value)
    requires Sane(st, root, refObject, stack) && o in st.heap && InHeap(st.heap, v)
    ensures Sane(Put(st, o, k, v), root, refObject, stack)
    ensures Sane(st.(heap := Delete(st.heap, o, k)), root, refObject, stack)
  {
    var h, d := Put(st, o, k, v).heap, Delete(st.heap, o, k);
    forall x: nat, y: string | Has(h, x, y) ensures InHeap(h, h[x][y]) {
      assert (x == o && y == k) || Has(st.heap, x, y);
    }
    forall x: nat, y: string | Has(d, x, y) ensures InHeap(d, d[x][y]) {
      assert Has(st.heap, x, y);
    }
  }

  lemma SaneGrew(st: Build, st': Build, root: Option<nat>, refObject: Value, stack: seq<Member>)
    requires Sane(st, root, refObject, stack) && st.heap.Keys <= st'.heap.Keys && st'.deferred == st.deferred
    requires Closed(st'.heap) && forall x :: x in st'.heap ==> x < st'.next
    ensures Sane(st', root, refObject, stack)
  {
  }

  lemma SaneDefer(st: Build, root: Option<nat>, refObject: Value, stack: seq<Member>, path: seq<Step>)
    requires Sane(st, root, refObject, stack)
    ensures Sane(Alloc(st).(deferred := st.deferred + [DeferredRef(path, st.next, refObject, Unresolved, Undefined)]),
                 root, refObject, stack)
  {
    SaneAlloc(st, root, refObject, stack);
  }

  lemma SaneAlloc(st: Build, root: Option<nat>, refObject: Value, stack: seq<Member>)
    requires Sane(st, root, refObject, stack)
    ensures Sane(Alloc(st), root, refObject, stack) && st.heap.Keys <= Alloc(st).heap.Keys
  {
    var h := Alloc(st).heap;
    forall x: nat, y: string | Has(h, x, y) ensures InHeap(h, h[x][y]) {
      assert Has(st.heap, x, y);
    }
  }

  lemma SanePush(st: Build, root: Option<nat>, refObject: Value, stack: seq<Member>, m: Member)
    requires Sane(st, root, refObject, stack) && InHeap(st.heap, m.container)
    ensures Sane(st, root, refObject, stack + [m])
  {
  }

  lemma {:induction false} EagerInHeap(st: Build, root: nat, refObject: Value, stack: seq<Member>, path: seq<Step>,
                                       n: nat)
    requires Sane(st, Some(root), refObject, stack) && n <= |path|
    ensures var at := EagerWalk(st.heap, root, stack, refObject, path, n);
            at.At? ==> InHeap(st.heap, at.refValue) && at.refObj in st.heap
  {
    if n > 0 {
      EagerInHeap(st, root, refObject, stack, path, n - 1);
      var at := EagerWalk(st.heap, root, stack, refObject, path, n - 1);
      if at.At? {
        EagerStepInHeap(st, root, refObject, stack, at, path[n - 1], n - 1, n < |path|);
      }
    }
  }

  lemma EagerStepInHeap(st: Build, root: nat, refObject: Value, stack: seq<Member>, at: Eager, step: Step, idx: nat,
                        more: bool)
    requires Sane(st, Some(root), refObject, stack)
    requires at.At? && InHeap(st.heap, at.refValue) && at.refObj in st.heap
    ensures var next := EagerStep(st.heap, stack, refObject, at, step, idx, more);
            next.At? ==> InHeap(st.heap, next.refValue) && next.refObj in st.heap
  {
    if Has(st.heap, at.refObj, Prop(step)) {
      assert InHeap(st.heap, st.heap[at.refObj][Prop(step)]);
    }
    if idx < |stack| {
      assert stack[idx] in stack;
    }
  }

  // ---- values ---------------------------------------------------------------------------------------------------

  method NewObject(r: Reviver) returns (v: Value)
    requires SaneNow(r)
    modifies r`heap, r`next
    ensures SaneNow(r) && old(r.heap.Keys) <= r.heap.Keys && InHeap(r.heap, v)
    ensures v == Obj(old(r.next)) && StateOf(r) == Alloc(old(StateOf(r)))
  {
    SaneAlloc(StateOf(r), r.rootObject, r.refObject, r.reviveStack);
    v := Obj(r.next);
    r.heap := r.heap[r.next := map[]];
    r.next := r.next + 1;
  }

  /** The object graph `h` as far as it is one: live objects stay, slots name objects that exist. */
  function Graph(live: Heap, h: Heap, next: nat): Heap {
    map o | o in live.Keys + h.Keys && o < next ::
      if o !in h then live[o]
      else
        map k | k in h[o] && (h[o][k].Obj? ==> h[o][k].id < next && h[o][k].id in live.Keys + h.Keys) :: h[o][k]
  }

  lemma GraphIsClosed(live: Heap, h: Heap, next: nat)
    requires Closed(live) && forall x :: x in live ==> x < next
    ensures Closed(Graph(live, h, next)) && live.Keys <= Graph(live, h, next).Keys
  {
    var g := Graph(live, h, next);
    forall x: nat, y: string | Has(g, x, y) ensures InHeap(g, g[x][y]) {
      if x !in h {
        assert Has(live, x, y);
      }
    }
  }

  /** Foreign code: it may allocate, turn the object graph into any other, return anything, or throw. */
  method Callback(r: Reviver) returns (threw: bool, v: Value)
    requires SaneNow(r)
    modifies r`heap, r`next, r`answers
    ensures SaneNow(r) && old(r.heap.Keys) <= r.heap.Keys && InHeap(r.heap, v)
    ensures r.answers == old(r.answers) + [Answer(threw, v, r.heap)]
  {
    var h: Heap := *;
    var more: int := *;
    if more > 0 { r.next := r.next + more; }
    GraphIsClosed(r.heap, h, r.next);
    r.heap := Graph(r.heap, h, r.next);
    SaneGrew(old(StateOf(r)), StateOf(r), r.rootObject, r.refObject, r.reviveStack);
    threw := *;
    v := *;
    if !InHeap(r.heap, v) { v := Undefined; }
    r.answers := r.answers + [Answer(threw, v, r.heap)];
  }

  /** Foreign code was called `n` times since `before`. */
  ghost predicate Called(r: Reviver, before: seq<Answer>, n: nat)
    reads r
  {
    |r.answers| == |before| + n && before <= r.answers
  }

  /** The answer of the last call. */
  ghost function Last(r: Reviver): Answer
    requires r.answers != []
    reads r
  {
    r.answers[|r.answers| - 1]
  }

  function Count(b: bool): nat {
    if b then 1 else 0
  }

  /** The graph left by a call whose answer goes into slot `k` of `o`, unless it is undefined or there is none. */
  ghost function Stored(a: Answer, o: nat, k: string): Heap {
    if a.threw || a.value.Undefined? || o !in a.heap then a.heap else Set(a.heap, o, k, a.value)
  }

  method DeferReference(r: Reviver, path: seq<Step>) returns (v: Value)
    requires SaneNow(r)
    modifies r`heap, r`next, r`deferred
    ensures SaneNow(r) && old(r.heap.Keys) <= r.heap.Keys && InHeap(r.heap, v)
    ensures v == Obj(old(r.next))
    ensures r.refObject.Obj? ==> StateOf(r) == Defer(old(StateOf(r)), path, r.refObject.id)
  {
    SaneDefer(StateOf(r), r.rootObject, r.refObject, r.reviveStack, path);
    v := NewObject(r);
    r.deferred := r.deferred + [DeferredRef(path, v.id, r.refObject, Unresolved, Undefined)];
  }

  /** The reference walk of `makeValue`: through stored slots, preferring the revive stack for containers that are not
      stored yet, falling back to the container being filled when a name is missing off the stack. */
  method WalkReference(r: Reviver, root: nat, path: seq<Step>) returns (refValue: Value)
    requires r.rootObject == Some(root) && (path != [] ==> !r.failed)
    modifies r`failed
    ensures var walked := EagerWalk(r.heap, root, r.reviveStack, r.refObject, path, |path|);
            if walked.Failed? then r.failed else r.failed == old(r.failed) && refValue == walked.refValue
  {
    var refObj := root;
    refValue := Obj(root);
    var offStack := false;
    var idx := 0;
    while idx < |path|
      invariant idx <= |path| && r.failed == old(r.failed)
      invariant EagerWalk(r.heap, root, r.reviveStack, r.refObject, path, idx) == At(refObj, refValue, offStack)
    {
      var more := idx + 1 < |path|;
      ghost var at := At(refObj, refValue, offStack);
      ghost var next := EagerStep(r.heap, r.reviveStack, r.refObject, at, path[idx], idx, more);
      assert EagerWalk(r.heap, root, r.reviveStack, r.refObject, path, idx + 1) == next;
      var onStack := idx < |r.reviveStack|;
      match path[idx] {
        case Index(n) =>
          var element := Get(r.heap, refObj, Prop(path[idx]));
          if element.Undefined? {
            if onStack && r.reviveStack[idx].index == n {
              if r.reviveStack[idx].container.Obj? {
                refValue := r.reviveStack[idx].container;
                refObj := refValue.id;
                offStack := false;
              }
            }
          } else {
            offStack := true;
            refValue := element;
            if element.Obj? {
              refObj := element.id;
            } else if more {
              r.failed := true;
            }
          }
        case Name(s) =>
          var found := Undefined;
          if !offStack && onStack {
            if !r.reviveStack[idx].isArray && r.reviveStack[idx].name == s {
              found := r.reviveStack[idx].container;
              offStack := false;
            } else if Has(r.heap, refObj, s) {
              found := Get(r.heap, refObj, s);
              offStack := true;
            } else {
              r.failed := true;
            }
          }
          if !r.failed && (!onStack || offStack) {
            if Has(r.heap, refObj, s) {
              found := Get(r.heap, refObj, s);
              offStack := true;
            } else {
              found := r.refObject;
              offStack := false;
            }
          }
          refValue := found;
          if found.Obj? {
            refObj := found.id;
          } else if more {
            r.failed := true;
          }
      }
      if r.failed {
        EagerFails(r.heap, root, r.reviveStack, r.refObject, path, idx + 1, |path|);
        return Undefined;
      }
      idx := idx + 1;
    }
  }

  lemma {:induction false} EagerFails(h: Heap, root: nat, stack: seq<Member>, refObject: Value, path: seq<Step>,
                                      m: nat, n: nat)
    requires m <= n <= |path| && EagerWalk(h, root, stack, refObject, path, m).Failed?
    ensures EagerWalk(h, root, stack, refObject, path, n).Failed?
    decreases n - m
  {
    if m < n {
      EagerFails(h, root, stack, refObject, path, m + 1, n);
    }
  }

  predicate ObjectsOnly(stack: seq<Member>) {
    forall j :: 0 <= j < |stack| ==> stack[j].container.Obj?
  }

  /** Nothing has failed, and the container being filled is the innermost open one. */
  ghost predicate Reading(r: Reviver)
    reads r
  {
    && !r.failed && r.rootObject.Some? && r.refObject.Obj? && ObjectsOnly(r.reviveStack)
    && r.refObject == Chain(r.rootObject.value, r.reviveStack, |r.reviveStack|)
  }

  /** What reading a reference from `st` to `st'` gives: failure, the value the walk lands on, or a placeholder if
      that is still open. */
  ghost predicate ReadsAs(st: Build, root: nat, stack: seq<Member>, refObject: Value, path: seq<Step>, failed: bool,
                          v: Value, st': Build)
    requires refObject.Obj?
  {
    match EagerWalk(st.heap, root, stack, refObject, path, |path|)
    case Failed => failed
    case At(_, w, _) =>
      && !failed
      && if IsOpen(root, stack, w) then v == Obj(st.next) && st' == Defer(st, path, refObject.id)
         else v == w && st' == st
  }

  /** Case 12 of `makeValue`: settle for the value found, or hand out a placeholder if it is still being built. */
  method MakeReference(r: Reviver, path: seq<Step>) returns (v: Value)
    requires Covered(r) && SaneNow(r)
    modifies r`heap, r`next, r`deferred, r`failed
    ensures SaneNow(r) && old(r.heap.Keys) <= r.heap.Keys && InHeap(r.heap, v)
    ensures old(r.failed) ==> r.failed
    ensures r.rootObject == None ==> r.failed && v == Undefined && StateOf(r) == old(StateOf(r))
    ensures old(Reading(r)) ==>
              ReadsAs(old(StateOf(r)), r.rootObject.value, r.reviveStack, r.refObject, path, r.failed, v, StateOf(r))
  {
    if r.rootObject == None {
      r.failed := true;
      return Undefined;
    }
    if path != [] && r.failed { return Undefined; }
    ghost var root := r.rootObject.value;
    TopIsOpen(root, r.reviveStack);
    var refValue := WalkReference(r, r.rootObject.value, path);
    EagerInHeap(StateOf(r), root, r.refObject, r.reviveStack, path, |path|);
    if r.failed && path != [] { return Undefined; }
    var open := IsStillOpen(r, refValue);
    if open {
      v := DeferReference(r, path);
    } else {
      v := refValue;
    }
  }

  lemma TopIsOpen(root: nat, stack: seq<Member>)
    ensures IsOpen(root, stack, Chain(root, stack, |stack|))
  {
    if stack != [] {
      assert stack[|stack| - 1].container == Chain(root, stack, |stack|);
    }
  }

  /** A value that is not a container.  A tagged one, and every one under a reviver function, goes through foreign
      code. */
  method MakeValue(r: Reviver, node: Node) returns (v: Value)
    requires Covered(r) && !node.Container? && !node.Hole? && SaneNow(r)
    modifies r`heap, r`next, r`deferred, r`failed, r`answers
    ensures SaneNow(r) && old(r.heap.Keys) <= r.heap.Keys && InHeap(r.heap, v)
    ensures old(r.failed) ==> r.failed
    ensures node.Reference? && r.rootObject == None ==>
              r.failed && (!r.revive ==> v == Undefined && StateOf(r) == old(StateOf(r)))
    ensures var n := Count(node.Scalar? && node.tagged) + Count(r.revive);
            && Called(r, old(r.answers), n)
            && (n > 0 ==> r.heap == Last(r).heap && (!Last(r).threw || !r.revive ==> v == Last(r).value))
    ensures r.revive && Last(r).threw && node.Scalar? && !node.tagged ==> v == Prim(node.p)
    ensures r.revive && Last(r).threw && node.Undef? ==> v == Undefined
    ensures !r.revive && node.Scalar? && !node.tagged ==>
              v == Prim(node.p) && StateOf(r) == old(StateOf(r)) && r.failed == old(r.failed)
    ensures !r.revive && node.Undef? ==> v == Undefined && StateOf(r) == old(StateOf(r)) && r.failed == old(r.failed)
    ensures !r.revive && node.Reference? && old(Reading(r)) ==>
              ReadsAs(old(StateOf(r)), r.rootObject.value, r.reviveStack, r.refObject, node.path, r.failed, v,
                      StateOf(r))
  {
    hide Sane;
    match node {
      case Scalar(p, tagged) =>
        v := Prim(p);
        if tagged {
          var _, w := Callback(r);
          v := w;
        }
      case Undef => v := Undefined;
      case Reference(path) => v := MakeReference(r, path);
    }
    if r.revive {
      var threw, w := Callback(r);
      if !threw { v := w; }
    }
  }

  /** An accumulator `v` is what the registered constructor answered, if it is an object, or the plain one `made`. */
  ghost predicate Made(r: Reviver, made: nat, v: Value)
    requires r.answers != []
    reads r
  {
    r.heap == Last(r).heap && v == if !Last(r).threw && Last(r).value.Obj? then Last(r).value else Obj(made)
  }

  /** The accumulator for an object: a plain one, unless a class is registered for its tag. */
  method GetObject(r: Reviver, tagged: bool) returns (v: Value)
    requires SaneNow(r)
    modifies r`heap, r`next, r`fieldCb, r`failed, r`answers
    ensures SaneNow(r) && old(r.heap.Keys) <= r.heap.Keys && InHeap(r.heap, v)
    ensures v.Obj? && (old(r.failed) ==> r.failed)
    ensures Called(r, old(r.answers), Count(tagged))
    ensures tagged ==> Made(r, old(r.next), v) && r.failed == (old(r.failed) || Last(r).threw)
    ensures !tagged ==>
        v == Obj(old(r.next)) && StateOf(r) == Alloc(old(StateOf(r))) && !r.fieldCb && r.failed == old(r.failed)
  {
    r.fieldCb := false;
    v := NewObject(r);
    if tagged {
      r.fieldCb := *;
      var threw, w := Callback(r);          // the registered constructor
      if threw { r.failed := true; } else if w.Obj? { v := w; }
    }
  }

  method GetArray(r: Reviver, tagged: bool) returns (v: Value)
    requires SaneNow(r)
    modifies r`heap, r`next, r`fieldCb, r`answers
    ensures SaneNow(r) && old(r.heap.Keys) <= r.heap.Keys && InHeap(r.heap, v)
    ensures v.Obj?
    ensures Called(r, old(r.answers), Count(tagged))
    ensures tagged ==> Made(r, old(r.next), v)
    ensures !tagged ==> v == Obj(old(r.next)) && StateOf(r) == Alloc(old(StateOf(r))) && !r.fieldCb
  {
    r.fieldCb := false;
    v := NewObject(r);
    if tagged {
      r.fieldCb := *;
      var threw, w := Callback(r);
      if !threw && w.Obj? { v := w; }
    }
  }

  // ---- containers ------------------------------------------------------------------------------------------------

  /** Nothing runs foreign code, and `o` is the innermost open container, described by `c`. */
  ghost predicate PlainAt(r: Reviver, root: nat, o: nat, c: Node)
    requires c.Container?
    reads r
  {
    && !r.failed && !r.fieldCb && !r.revive && Untagged(c)
    && r.rootObject == Some(root) && ObjectsOnly(r.reviveStack) && Chain(root, r.reviveStack, |r.reviveStack|) == Obj(o)
  }

  /** What a part of the build never changes, whatever callbacks, failures and early returns it goes through. */
  twostate predicate Balanced(r: Reviver)
    reads r
  {
    && r.reviveStack == old(r.reviveStack)
    && r.building == old(r.building)
    && r.rootObject == old(r.rootObject)
    && r.revive == old(r.revive)
    && (old(r.failed) ==> r.failed)
    && old(r.heap.Keys) <= r.heap.Keys
    && |old(r.answers)| <= |r.answers|
  }

  /** The state is what the specification gives, or it gave nothing and the revival failed. */
  ghost predicate Follows(r: Reviver, built: Option<Build>, refObject: Value)
    reads r
  {
    match built
    case None => r.failed
    case Some(st) => !r.failed && !r.fieldCb && r.refObject == refObject && StateOf(r) == st
  }

  method SetSlot(r: Reviver, o: nat, k: string, v: Value)
    requires SaneNow(r) && o in r.heap && InHeap(r.heap, v)
    modifies r`heap
    ensures SaneNow(r) && old(r.heap.Keys) <= r.heap.Keys
    ensures r.heap == Set(old(r.heap), o, k, v)
  {
    SaneSet(StateOf(r), r.rootObject, r.refObject, r.reviveStack, o, k, v);
    r.heap := Set(r.heap, o, k, v);
  }

  method DeleteSlot(r: Reviver, o: nat, k: string)
    requires SaneNow(r) && o in r.heap
    modifies r`heap
    ensures SaneNow(r) && old(r.heap.Keys) <= r.heap.Keys
    ensures r.heap == Delete(old(r.heap), o, k)
  {
    SaneSet(StateOf(r), r.rootObject, r.refObject, r.reviveStack, o, k, Undefined);
    r.heap := Delete(r.heap, o, k);
  }

  /** The `default` case and the array hole. */
  method BuildValueField(r: Reviver, c: Node, i: nat, o: nat, cb: bool, ghost root: nat) returns (go: bool)
    requires c.Container? && i < |c.fields| && !c.fields[i].node.Container? && Covered(r) && SaneNow(r) && o in r.heap
    modifies r`heap, r`next, r`deferred, r`failed, r`answers
    ensures Balanced(r) && SaneNow(r)
    ensures cb && !c.fields[i].node.Hole? && go ==>
              |r.answers| > |old(r.answers)| && r.heap == Stored(Last(r), o, PropAt(c.fields, i))
    ensures old(PlainAt(r, root, o, c)) && !cb && r.refObject == Obj(o) ==>
              Follows(r, BuildField(old(StateOf(r)), root, r.reviveStack, o, c, i), Obj(o)) && go
  {
    hide Sane;
    var node, k := c.fields[i].node, PropAt(c.fields, i);
    if node.Hole? {
      SetSlot(r, o, k, Undefined);
      DeleteSlot(r, o, k);
      return true;
    }
    if cb {
      go := HandValueOver(r, node, o, k);
    } else {
      StoreValue(r, c, i, o, root);
      go := true;
    }
  }

  /** With a field callback installed, the callback decides what is stored. */
  method HandValueOver(r: Reviver, node: Node, o: nat, k: string) returns (go: bool)
    requires !node.Container? && !node.Hole? && Covered(r) && SaneNow(r) && o in r.heap
    modifies r`heap, r`next, r`deferred, r`failed, r`answers
    ensures Balanced(r) && SaneNow(r)
    ensures go ==> |r.answers| > |old(r.answers)| && r.heap == Stored(Last(r), o, k)
  {
    hide Sane;
    var v := MakeValue(r, node);
    if r.failed { return false; }
    if v.Undefined? { return false; }
    var threw, z := Callback(r);
    if !threw && !z.Undefined? { SetSlot(r, o, k, z); }
    return true;
  }

  method StoreValue(r: Reviver, c: Node, i: nat, o: nat, ghost root: nat)
    requires c.Container? && i < |c.fields| && !c.fields[i].node.Container? && !c.fields[i].node.Hole?
    requires Covered(r) && SaneNow(r) && o in r.heap
    modifies r`heap, r`next, r`deferred, r`failed, r`answers
    ensures Balanced(r) && SaneNow(r)
    ensures r.revive ==> |r.answers| > |old(r.answers)|
    ensures r.revive && !Last(r).threw ==>
              r.heap == if c.fields[i].node.Undef? && o in Last(r).heap
                        then Set(Last(r).heap, o, PropAt(c.fields, i), Last(r).value)
                        else Stored(Last(r), o, PropAt(c.fields, i))
    ensures old(PlainAt(r, root, o, c)) && r.refObject == Obj(o) ==>
              Follows(r, BuildField(old(StateOf(r)), root, r.reviveStack, o, c, i), Obj(o))
  {
    hide Sane;
    var node := c.fields[i].node;
    var v := MakeValue(r, node);
    if node.Undef? || !v.Undefined? { SetSlot(r, o, PropAt(c.fields, i), v); }
  }

  method Push(r: Reviver, c: Node, i: nat, index: nat, container: Value)
    requires c.Container? && i < |c.fields| && index == UnnamedBefore(c.fields, i)
    modifies r`reviveStack
    ensures r.reviveStack == old(r.reviveStack) + [MemberFor(c.fields, i, container)]
  {
    var member := if c.fields[i].name.Some? then Member(container, false, 0, c.fields[i].name.value)
                  else Member(container, true, index, "");
    r.reviveStack := r.reviveStack + [member];
  }

  method Pop(r: Reviver)
    requires r.reviveStack != []
    modifies r`reviveStack
    ensures r.reviveStack == old(r.reviveStack[..|r.reviveStack| - 1])
  {
    r.reviveStack := r.reviveStack[..|r.reviveStack| - 1];
  }

  /** Fill container `v`, which field `i` of `c` describes, while it is on the revive stack. */
  method BuildPushed(r: Reviver, c: Node, i: nat, index: nat, v: Value, ghost root: nat)
    requires c.Container? && i < |c.fields| && c.fields[i].node.Container? && index == UnnamedBefore(c.fields, i)
    requires Covered(r) && SaneNow(r) && InHeap(r.heap, v)
    modifies r
    decreases c, 0
    ensures Balanced(r) && SaneNow(r)
    ensures var m, inner := MemberFor(c.fields, i, v), c.fields[i].node;
            old(PushedPlain(r, root, m, inner)) ==>
              Follows(r, BuildFields(old(StateOf(r)), root, r.reviveStack + [m], v.id, inner, |inner.fields|),
                      old(r.refObject))
  {
    SanePush(StateOf(r), r.rootObject, r.refObject, r.reviveStack, MemberFor(c.fields, i, v));
    Push(r, c, i, index, v);
    ghost var m := MemberFor(c.fields, i, v);
    StackGrew(old(r.reviveStack), r.reviveStack, m);
    if v.Obj? {
      BuildObject(r, c.fields[i].node, v.id, root);
    }
    Pop(r);
    assert r.reviveStack == old(r.reviveStack);
  }

  lemma StackGrew(a: seq<Member>, b: seq<Member>, m: Member)
    requires b == a + [m]
    ensures forall v :: OnStack(a, v) ==> OnStack(b, v)
    ensures OnStack(b, m.container)
    ensures b[..|b| - 1] == a
  {
    forall v | OnStack(a, v) ensures OnStack(b, v) {
      var j :| 0 <= j < |a| && a[j].container == v;
      assert b[j].container == v;
    }
    assert b[|a|].container == m.container;
  }

  /** The state of `PlainAt` for a child that is about to be pushed. */
  ghost predicate PushedPlain(r: Reviver, root: nat, m: Member, inner: Node)
    requires inner.Container?
    reads r
  {
    && !r.failed && !r.fieldCb && !r.revive && Untagged(inner)
    && r.rootObject == Some(root) && ObjectsOnly(r.reviveStack + [m]) && m.container.Obj?
  }

  /** The recursive fill.  Whatever happens on the way, the revive stack comes back as it was and no open container is
      ever off it; without foreign code the result is the specified one, failures included. */
  method BuildObject(r: Reviver, c: Node, o: nat, ghost root: nat)
    requires c.Container? && Covered(r) && SaneNow(r) && o in r.heap
    requires r.rootObject == Some(o) || OnStack(r.reviveStack, Obj(o))
    modifies r
    decreases c, 3
    ensures Balanced(r) && SaneNow(r)
    ensures old(PlainAt(r, root, o, c)) ==>
              Follows(r, BuildFields(old(StateOf(r)), root, r.reviveStack, o, c, |c.fields|), old(r.refObject))
  {
    if r.failed { return; }
    var priorRefObject := r.refObject;
    r.refObject := Obj(o);
    r.building := r.building + [o];
    var go := BuildLoop(r, c, o, r.fieldCb, root);
    r.building := r.building[..|r.building| - 1];
    assert r.building == old(r.building);
    if go { r.refObject := priorRefObject; }
  }

  /** The loop over the fields; `go` is false when it left early, which leaves `refObject` as it is. */
  method BuildLoop(r: Reviver, c: Node, o: nat, cb: bool, ghost root: nat) returns (go: bool)
    requires c.Container? && Covered(r) && SaneNow(r) && o in r.heap
    modifies r
    decreases c, 2
    ensures Balanced(r) && SaneNow(r)
    ensures old(PlainAt(r, root, o, c)) && !cb && old(r.refObject) == Obj(o) ==>
              && Follows(r, BuildFields(old(StateOf(r)), root, r.reviveStack, o, c, |c.fields|), Obj(o))
              && (!r.failed ==> go)
  {
    hide Sane;
    ghost var st0 := StateOf(r);
    ghost var plain := PlainAt(r, root, o, c) && !cb && r.refObject == Obj(o);
    var idx, index := 0, 0;
    while idx < |c.fields|
      invariant idx <= |c.fields| && index == UnnamedBefore(c.fields, idx)
      invariant Balanced(r) && SaneNow(r)
      invariant plain ==> Follows(r, BuildFields(st0, root, r.reviveStack, o, c, idx), Obj(o))
    {
      go := BuildNode(r, c, idx, index, o, cb, root);
      if !go {
        if plain { NextFails(r, st0, root, o, c, idx); }
        return;
      }
      if c.fields[idx].name.None? { index := index + 1; }
      idx := idx + 1;
    }
    return true;
  }

  /** A build that failed at a field fails. */
  lemma NextFails(r: Reviver, st0: Build, root: nat, o: nat, c: Node, n: nat)
    requires c.Container? && n < |c.fields| && r.failed
    requires match BuildFields(st0, root, r.reviveStack, o, c, n)
             case None => true
             case Some(mid) => BuildField(mid, root, r.reviveStack, o, c, n).None?
    ensures BuildFields(st0, root, r.reviveStack, o, c, |c.fields|).None?
  {
    if BuildFields(st0, root, r.reviveStack, o, c, |c.fields|).Some? {
      FieldsPrefix(st0, root, r.reviveStack, o, c, n + 1, |c.fields|);
    }
  }

  lemma {:induction false} FieldsPrefix(st: Build, root: nat, stack: seq<Member>, o: nat, c: Node, m: nat, n: nat)
    requires c.Container? && m <= n <= |c.fields| && BuildFields(st, root, stack, o, c, n).Some?
    ensures BuildFields(st, root, stack, o, c, m).Some?
    decreases n - m
  {
    if m < n {
      FieldsPrefix(st, root, stack, o, c, m + 1, n);
    }
  }

  method BuildNode(r: Reviver, c: Node, i: nat, index: nat, o: nat, cb: bool, ghost root: nat) returns (go: bool)
    requires c.Container? && i < |c.fields| && index == UnnamedBefore(c.fields, i) && Covered(r) && SaneNow(r)
    requires o in r.heap
    modifies r
    decreases c, 1, 1
    ensures Balanced(r) && SaneNow(r)
    ensures old(PlainAt(r, root, o, c)) && !cb && old(r.refObject) == Obj(o) ==>
              && Follows(r, BuildField(old(StateOf(r)), root, r.reviveStack, o, c, i), Obj(o))
              && (!r.failed ==> go)
  {
    if !c.fields[i].node.Container? {
      go := BuildValueField(r, c, i, o, cb, root);
    } else if c.fields[i].node.isArray {
      go := BuildArrayField(r, c, i, index, o, cb, root);
    } else {
      go := BuildObjectField(r, c, i, index, o, cb, root);
    }
  }

  /** What the specification makes of a container field, without its `match`. */
  lemma ContainerSpec(st: Build, root: nat, stack: seq<Member>, o: nat, c: Node, i: nat)
    requires c.Container? && i < |c.fields| && c.fields[i].node.Container?
    ensures var inner, m := c.fields[i].node, MemberFor(c.fields, i, Obj(st.next));
            BuildField(st, root, stack, o, c, i) ==
            if inner.isArray then
              BuildFields(Put(Alloc(st), o, PropAt(c.fields, i), Obj(st.next)), root, stack + [m], st.next, inner,
                          |inner.fields|)
            else
              match BuildFields(Alloc(st), root, stack + [m], st.next, inner, |inner.fields|)
              case None => None
              case Some(built) => Some(Put(built, o, PropAt(c.fields, i), Obj(st.next)))
  {
  }

  /** A child is pushed onto a chain of objects. */
  lemma PlainChild(r: Reviver, root: nat, o: nat, c: Node, i: nat, v: Value)
    requires c.Container? && i < |c.fields| && c.fields[i].node.Container? && Untagged(c) && v.Obj?
    requires !r.failed && !r.fieldCb && !r.revive && r.rootObject == Some(root) && ObjectsOnly(r.reviveStack)
    ensures PushedPlain(r, root, MemberFor(c.fields, i, v), c.fields[i].node)
  {
  }

  /** Storing a new array in its parent, which the field callback may do differently. */
  method StoreArray(r: Reviver, empty: Value, o: nat, k: string, cb: bool) returns (v: Value)
    requires SaneNow(r) && o in r.heap && InHeap(r.heap, empty)
    modifies r`heap, r`next, r`failed, r`answers
    ensures SaneNow(r) && old(r.heap.Keys) <= r.heap.Keys && InHeap(r.heap, v)
    ensures old(r.failed) ==> r.failed
    ensures cb ==>
              && Called(r, old(r.answers), 1) && r.heap == Stored(Last(r), o, k)
              && r.failed == (old(r.failed) || Last(r).threw)
              && v == if Last(r).threw then empty
                      else if Last(r).value.Undefined? then Get(r.heap, o, k) else Last(r).value
    ensures !cb ==> Called(r, old(r.answers), 0)
    ensures !cb ==> v == empty && r.failed == old(r.failed) && StateOf(r) == Put(old(StateOf(r)), o, k, empty)
  {
    v := empty;
    if cb {
      var threw, w := Callback(r);
      if threw {
        r.failed := true;
      } else {
        v := w;
        if !v.Undefined? { SetSlot(r, o, k, v); } else { v := Get(r.heap, o, k); }
      }
    } else {
      SetSlot(r, o, k, empty);
    }
  }

  /** A new array, stored in its parent; `go` is false when the revival has failed before that. */
  method OpenArray(r: Reviver, tagged: bool, o: nat, k: string, cb: bool) returns (v: Value, go: bool)
    requires SaneNow(r) && o in r.heap
    modifies r`heap, r`next, r`fieldCb, r`failed, r`answers
    ensures SaneNow(r) && old(r.heap.Keys) <= r.heap.Keys && InHeap(r.heap, v)
    ensures (old(r.failed) ==> r.failed) && go == !old(r.failed)
    ensures Called(r, old(r.answers), Count(tagged) + Count(go && cb))
    ensures go && cb ==> r.heap == Stored(Last(r), o, k)
    ensures !tagged && !cb && go ==>
              && v == Obj(old(r.next)) && StateOf(r) == Put(Alloc(old(StateOf(r))), o, k, v)
              && !r.fieldCb && !r.failed
  {
    hide Sane;
    v := GetArray(r, tagged);
    go := !r.failed;
    if go { v := StoreArray(r, v, o, k, cb); }
  }

  /** What the `n` calls of foreign code that a filled array `built` goes through lead to: what the last one answers
      takes its slot, through one more call if there is a field callback, unless it is the array itself. */
  ghost predicate Replaced(r: Reviver, before: seq<Answer>, n: nat, built: Value, o: nat, k: string, cb: bool)
    requires n > 0
    reads r
  {
    && |r.answers| >= |before| + n
    && var a := r.answers[|before| + n - 1];
       if a.value == built then |r.answers| == |before| + n && r.heap == a.heap
       else if cb then |r.answers| == |before| + n + 1 && r.heap == Stored(Last(r), o, k)
       else |r.answers| == |before| + n && o in a.heap && r.heap == Set(a.heap, o, k, a.value)
  }

  /** The callbacks a filled array still goes through. */
  method ArrayAnswer(r: Reviver, built: Value) returns (v: Value)
    requires SaneNow(r) && InHeap(r.heap, built)
    modifies r`heap, r`next, r`answers
    ensures SaneNow(r) && old(r.heap.Keys) <= r.heap.Keys && InHeap(r.heap, v)
    ensures var n := Count(r.fieldCb) + Count(r.revive);
            && Called(r, old(r.answers), n)
            && if n == 0 then v == built && StateOf(r) == old(StateOf(r))
               else r.heap == Last(r).heap && v == Last(r).value
  {
    hide Sane;
    v := built;
    if r.fieldCb {
      var _, w := Callback(r);
      v := w;
    }
    if r.revive {
      var _, w := Callback(r);
      v := w;
    }
  }

  /** What becomes of a filled array. */
  method ReplaceArray(r: Reviver, built: Value, o: nat, k: string, cb: bool)
    requires SaneNow(r) && o in r.heap && InHeap(r.heap, built)
    modifies r`heap, r`next, r`answers
    ensures SaneNow(r) && old(r.heap.Keys) <= r.heap.Keys
    ensures |old(r.answers)| <= |r.answers|
    ensures var n := Count(r.fieldCb) + Count(r.revive);
            if n == 0 then StateOf(r) == old(StateOf(r)) else Replaced(r, old(r.answers), n, built, o, k, cb)
  {
    hide Sane;
    var v := ArrayAnswer(r, built);
    if v != built {
      if cb {
        var threw, w := Callback(r);
        if !threw && !w.Undefined? { SetSlot(r, o, k, w); }
      } else {
        SetSlot(r, o, k, v);
      }
    }
  }

  /** An array is stored in its parent first and filled after; its elements never see the field callback. */
  method BuildArrayField(r: Reviver, c: Node, i: nat, index: nat, o: nat, cb: bool, ghost root: nat) returns (go: bool)
    requires c.Container? && i < |c.fields| && index == UnnamedBefore(c.fields, i) && Covered(r) && SaneNow(r)
    requires o in r.heap
    requires c.fields[i].node.Container? && c.fields[i].node.isArray
    modifies r
    decreases c, 1, 0
    ensures Balanced(r) && SaneNow(r)
    ensures old(PlainAt(r, root, o, c)) && !cb && old(r.refObject) == Obj(o) ==>
              && Follows(r, BuildField(old(StateOf(r)), root, r.reviveStack, o, c, i), Obj(o))
              && (!r.failed ==> go)
  {
    hide Sane, CoveredBy, OnStack, BuildField, BuildFields, Replaced, Stored, Last, Put;
    ghost var plain := PlainAt(r, root, o, c) && !cb;
    if plain { assert Untagged(c.fields[i].node); }
    var v;
    v, go := OpenArray(r, c.fields[i].node.tagged, o, PropAt(c.fields, i), cb);
    if !go { return false; }
    if plain {
      PlainChild(r, root, o, c, i, v);
      ContainerSpec(old(StateOf(r)), root, r.reviveStack, o, c, i);
    }
    var save := r.fieldCb;
    r.fieldCb := false;
    BuildPushed(r, c, i, index, v, root);
    if save { r.fieldCb := true; }
    ReplaceArray(r, v, o, PropAt(c.fields, i), cb);
    return true;
  }

  /** A callback that may return something else in place of `v`; throwing fails the revival. */
  method PassThrough(r: Reviver, v: Value) returns (w: Value)
    requires SaneNow(r) && InHeap(r.heap, v)
    modifies r`heap, r`next, r`failed, r`answers
    ensures SaneNow(r) && old(r.heap.Keys) <= r.heap.Keys && InHeap(r.heap, w)
    ensures Called(r, old(r.answers), 1) && r.heap == Last(r).heap
    ensures r.failed == (old(r.failed) || Last(r).threw) && w == if Last(r).threw then v else Last(r).value
  {
    var threw;
    threw, w := Callback(r);
    if threw {
      r.failed := true;
      w := v;
      assert w.Obj? ==> w.id in old(r.heap.Keys);
    }
  }

  /** One of the calls from the `n`-th on threw. */
  ghost predicate Threw(answers: seq<Answer>, n: nat) {
    exists j :: n <= j < |answers| && answers[j].threw
  }

  /** The callbacks a filled object still goes through: the class's own, the enclosing one, the reviver function. */
  method ReplaceObject(r: Reviver, built: Value, finalCb: bool, cb: bool) returns (v: Value)
    requires SaneNow(r) && InHeap(r.heap, built)
    modifies r`heap, r`next, r`fieldCb, r`failed, r`answers
    ensures SaneNow(r) && old(r.heap.Keys) <= r.heap.Keys && InHeap(r.heap, v)
    ensures r.fieldCb == cb && (old(r.failed) ==> r.failed)
    ensures var n := Count(finalCb) + Count(cb) + Count(r.revive);
            && Called(r, old(r.answers), n)
            && (r.failed <==> old(r.failed) || Threw(r.answers, |old(r.answers)|))
            && (n > 0 ==> r.heap == Last(r).heap && (!r.failed ==> !Last(r).threw && v == Last(r).value))
    ensures !finalCb && !cb && !r.revive ==> v == built && StateOf(r) == old(StateOf(r)) && r.failed == old(r.failed)
  {
    hide Sane;
    v := built;
    if finalCb { v := PassThrough(r, v); }
    r.fieldCb := cb;
    if cb { v := PassThrough(r, v); }
    if r.revive { v := PassThrough(r, v); }
  }

  /** A filled object goes through its callbacks and is stored in its parent. */
  method CloseObject(r: Reviver, built: Value, finalCb: bool, o: nat, k: string, cb: bool) returns (go: bool)
    requires SaneNow(r) && o in r.heap && InHeap(r.heap, built)
    modifies r`heap, r`next, r`fieldCb, r`failed, r`answers
    ensures SaneNow(r) && old(r.heap.Keys) <= r.heap.Keys
    ensures r.fieldCb == cb && (old(r.failed) ==> r.failed) && go == !r.failed
    ensures var n := Count(finalCb) + Count(cb) + Count(r.revive);
            && Called(r, old(r.answers), n)
            && (r.failed <==> old(r.failed) || Threw(r.answers, |old(r.answers)|))
            && (go && n > 0 ==> !Last(r).threw && r.heap == Stored(Last(r), o, k))
    ensures !finalCb && !cb && !r.revive && built.Obj? ==>
              r.failed == old(r.failed) && (go ==> StateOf(r) == Put(old(StateOf(r)), o, k, built))
  {
    hide Sane, Threw;
    var v := ReplaceObject(r, built, finalCb, cb);
    if r.failed { return false; }
    if !v.Undefined? { SetSlot(r, o, k, v); }
    return true;
  }

  /** An object is filled first, may be replaced by its callbacks, and is stored after. */
  method BuildObjectField(r: Reviver, c: Node, i: nat, index: nat, o: nat, cb: bool, ghost root: nat) returns (go: bool)
    requires c.Container? && i < |c.fields| && index == UnnamedBefore(c.fields, i) && Covered(r) && SaneNow(r)
    requires o in r.heap
    requires c.fields[i].node.Container? && !c.fields[i].node.isArray
    modifies r
    decreases c, 1, 0
    ensures Balanced(r) && SaneNow(r)
    ensures (cb || r.revive) && go ==>
              |r.answers| > |old(r.answers)| && !Last(r).threw && r.heap == Stored(Last(r), o, PropAt(c.fields, i))
    ensures old(PlainAt(r, root, o, c)) && !cb && old(r.refObject) == Obj(o) ==>
              && Follows(r, BuildField(old(StateOf(r)), root, r.reviveStack, o, c, i), Obj(o))
              && (!r.failed ==> go)
  {
    hide Sane, CoveredBy, OnStack, BuildField, BuildFields, Made, Threw, Stored;
    ghost var plain := PlainAt(r, root, o, c) && !cb;
    if plain { assert Untagged(c.fields[i].node); }
    var v := GetObject(r, c.fields[i].node.tagged);
    if plain {
      PlainChild(r, root, o, c, i, v);
      ContainerSpec(old(StateOf(r)), root, r.reviveStack, o, c, i);
    }
    var finalCb := r.fieldCb;
    BuildPushed(r, c, i, index, v, root);
    go := CloseObject(r, v, finalCb, o, PropAt(c.fields, i), cb);
  }

  // ---- the conversion ---------------------------------------------------------------------------------------

  /** The container the document is built into. */
  method RootObject(r: Reviver, val: Node) returns (root: nat, cb: bool)
    requires val.Container? && SaneNow(r)
    modifies r`heap, r`next, r`fieldCb, r`failed, r`rootObject, r`answers
    ensures SaneNow(r) && root in r.heap && r.rootObject == Some(root)
    ensures old(r.failed) ==> r.failed
    ensures Called(r, old(r.answers), Count(val.tagged))
    ensures !val.tagged ==>
              && root == old(r.next) && StateOf(r) == Alloc(old(StateOf(r)))
              && !r.fieldCb && r.failed == old(r.failed) && !cb
  {
    var v;
    if val.isArray { v := GetArray(r, val.tagged); } else { v := GetObject(r, val.tagged); }
    root := v.id;
    r.rootObject := Some(root);
    cb := r.fieldCb;
    if val.isArray { r.fieldCb := false; }
  }

  /** What becomes of an untagged document whose build gave `built`: it fails if the build did or a deferred
      reference has no meaning, and otherwise is the settled document. */
  ghost predicate Converted(built: Option<Build>, failed: bool, v: Value, h: Heap) {
    match built
    case None => failed
    case Some(st) =>
      && (failed <==> !AllResolvable(BuiltDocument(st)))
      && (!failed ==> v == Obj(0) && h == Settled(BuiltDocument(st), StartSet(Obj(0), st.deferred)))
  }

  /** Object `0` is what the tree says, with one object for each container. */
  ghost predicate Faithful(val: Node, h: Heap)
    requires val.Container?
  {
    TreeMeans(val, 0, h, Obj(0)) && |ObjectsTo(val, 0, h, |val.fields|)| == ContainersTo(val, |val.fields|)
  }

  /** The whole conversion of one parsed message; it `threw` when the last call of the root's class did, which
      leaves early. With or without foreign code, a conversion that succeeds leaves no placeholder reachable from
      what it returns.  Without foreign code it succeeds exactly when the build and all deferred references do, and
      when all references are read well the result is what the message says. */
  method ConvertMessage(r: Reviver, val: Node) returns (v: Value, threw: bool)
    requires StateOf(r) == Build(map[], 0, []) && r.rootObject == None && r.refObject == Undefined
    requires r.reviveStack == [] && r.building == [] && !r.failed && !val.Hole?
    modifies r
    ensures r.reviveStack == [] && r.building == []
    ensures val.Reference? ==> r.failed
    ensures !val.Container? && !old(r.revive) ==>
              match val
              case Scalar(p, tagged) => if tagged then Called(r, old(r.answers), 1) && v == Last(r).value
                                        else !r.failed && v == Prim(p) && StateOf(r) == old(StateOf(r))
              case Undef => !r.failed && v == Undefined && StateOf(r) == old(StateOf(r))
              case Reference(_) => v == Undefined && StateOf(r) == old(StateOf(r))
    ensures !val.Container? && old(r.revive) ==>
              && |r.answers| > |old(r.answers)| && (!Last(r).threw ==> v == Last(r).value)
              && (Last(r).threw && val.Undef? ==> v == Undefined)
              && (Last(r).threw && val.Scalar? && !val.tagged ==> v == Prim(val.p))
    ensures threw ==> val.Container? && val.tagged
    ensures !r.failed && !threw && val.Container? ==>
              FreeOfPlaceholders(r.heap, RefsOf(r.deferred), ReachSet(r.heap, {}, RootSet(v)))
    ensures val.Container? && Untagged(val) && !old(r.revive) ==> Converted(BuildDocument(val), r.failed, v, r.heap)
    ensures val.Container? && WellFormedTree(val) && Untagged(val) && !old(r.revive) && ReadsDocument(val, true) ==>
              !r.failed ==> Faithful(val, r.heap)
    ensures val.Container? && WellFormedTree(val) && Untagged(val) && !old(r.revive) && ReadsDocument(val, false) ==>
              !r.failed && Faithful(val, r.heap)
  {
    hide Faithful, WellFormedTree, ReadsFields, FreeOfPlaceholders, ReachSet;
    threw := false;
    if !val.Container? {
      v := MakeValue(r, val);
      return;
    }
    ghost var plain := Untagged(val) && !r.revive;
    var o, cb := RootObject(r, val);
    BuildObject(r, val, o, 0);
    v := Obj(o);
    if !r.failed && val.tagged && cb {
      var w;
      threw, w := Callback(r);
      if threw { return; }
      v := w;
    }
    if plain { WellReadIsFaithful(val); }
    if r.failed {
      if r.deferred != [] { v := Undefined; }
      return;
    }
    ghost var doc, from := DocumentOf(r.heap, r.deferred, v), StartSet(v, r.deferred);
    v := ResolveDeferredRefs(r, v);
    if !r.failed { SettledIsFree(doc, from, r.heap); }
  }

  lemma WellReadIsFaithful(val: Node)
    requires val.Container?
    ensures WellFormedTree(val) && ReadsDocument(val, true) ==>
              && BuildDocument(val).Some?
              && var st := BuildDocument(val).value;
                 AllResolvable(BuiltDocument(st)) ==>
                   Faithful(val, Settled(BuiltDocument(st), StartSet(Obj(0), st.deferred)))
    ensures WellFormedTree(val) && ReadsDocument(val, false) ==>
              ReadsDocument(val, true) && BuildDocument(val).Some?
                && AllResolvable(BuiltDocument(BuildDocument(val).value))
  {
    if WellFormedTree(val) && ReadsDocument(val, false) { KnownReferencesResolve(val); }
    if WellFormedTree(val) && ReadsDocument(val, true) {
      var st := DocumentMeansItsTree(val);
      if AllResolvable(BuiltDocument(st)) { ContainersStayApart(val, st); }
    }
  }

  lemma SettledIsFree(doc: Document, from: set<nat>, h: Heap)
    requires WellFormed(doc) && AllResolvable(doc) && RootSet(doc.root) <= from && h == Settled(doc, from)
    ensures FreeOfPlaceholders(h, doc.refs, ReachSet(h, {}, RootSet(doc.root)))
  {
    ResolvableRoot(doc);
    NoPlaceholderReachable(doc, SigmaOf(doc), from);
  }
}
