/** What a built and settled document means: every node of its parse tree is where it belongs, and every reference slot
    holds exactly the value its path names in the finished document. */
module JsoxMeaning {
  import opened Options
  import opened JsoxModel
  import opened JsoxRefs
  import opened JsoxReviver
  import opened JsoxDoc
  import opened JsoxChain
  import opened JsoxInvariant

  /** The property names of the first `n` fields that leave a slot behind. */
  ghost function PropsTo(c: Node, n: nat): set<string>
    requires c.Container? && n <= |c.fields|
  {
    set i | 0 <= i < n && !c.fields[i].node.Hole? :: PropAt(c.fields, i)
  }

  lemma PropsNext(c: Node, n: nat)
    requires c.Container? && n < |c.fields|
    ensures PropsTo(c, n + 1) == PropsTo(c, n) + if c.fields[n].node.Hole? then {} else {PropAt(c.fields, n)}
  {
    if !c.fields[n].node.Hole? {
      assert PropAt(c.fields, n) in PropsTo(c, n + 1);
    }
  }

  // ---- the meaning of a parse tree in a finished heap ---------------------------------------------------------

  ghost predicate FieldMeans(c: Node, i: nat, o: nat, h: Heap, root: Value)
    requires c.Container? && i < |c.fields|
    decreases c, 0
  {
    var k, node := PropAt(c.fields, i), c.fields[i].node;
    !node.Hole? ==>
      && Has(h, o, k)
      && match node
         case Scalar(p, _) => h[o][k] == Prim(p)
         case Undef => h[o][k] == Undefined
         case Hole => true
         case Reference(path) => ValueAt(h, root, path) == Some(h[o][k])
         case Container(_, _, _) => h[o][k].Obj? && h[o][k].id > o && TreeMeans(node, h[o][k].id, h, root)
  }

  /** Object `o` is what container node `c` describes: exactly these slots, each meaning what its field says, nested
      containers each an object of their own. */
  ghost predicate TreeMeans(c: Node, o: nat, h: Heap, root: Value)
    requires c.Container?
    decreases c, 1
  {
    && o in h && h[o].Keys == PropsTo(c, |c.fields|)
    && forall i :: 0 <= i < |c.fields| ==> FieldMeans(c, i, o, h, root)
  }

  // ---- the same while references are still deferred --------------------------------------------------------------

  /** A reference slot after the build: a placeholder with the path, or the value the path leads to. */
  ghost predicate ReferenceBuilt(path: seq<Step>, slot: Value, h: Heap, refs: Refs, root: Value) {
    var landed := Walk(h, root, path, |path|);
    || (IsPlaceholder(refs, slot) && refs[slot.id] == path)
    || (landed.Some? && !landed.value.Undefined? && slot == landed.value)
  }

  ghost predicate FieldBuilt(c: Node, i: nat, o: nat, h: Heap, refs: Refs, root: Value)
    requires c.Container? && i < |c.fields|
    decreases c, 0
  {
    var k, node := PropAt(c.fields, i), c.fields[i].node;
    !node.Hole? ==>
      && Has(h, o, k)
      && match node
         case Scalar(p, _) => h[o][k] == Prim(p)
         case Undef => h[o][k] == Undefined
         case Hole => true
         case Reference(path) => ReferenceBuilt(path, h[o][k], h, refs, root)
         case Container(_, _, _) =>
           h[o][k].Obj? && h[o][k].id > o && h[o][k].id !in refs && TreeBuilt(node, h[o][k].id, h, refs, root)
  }

  ghost predicate TreeBuilt(c: Node, o: nat, h: Heap, refs: Refs, root: Value)
    requires c.Container?
    decreases c, 1
  {
    && o in h && h[o].Keys == PropsTo(c, |c.fields|)
    && forall i :: 0 <= i < |c.fields| ==> FieldBuilt(c, i, o, h, refs, root)
  }

  // ---- what is built stays built ------------------------------------------------------------------------------------

  lemma {:induction false} WalkGrows(h: Heap, h': Heap, cur: nat, at: Value, path: seq<Step>, n: nat)
    requires Grew(h, h', cur) && n <= |path| && Walk(h, at, path, n).Some?
    ensures Walk(h', at, path, n) == Walk(h, at, path, n)
  {
    if n > 0 {
      WalkGrows(h, h', cur, at, path, n - 1);
      var v := Walk(h, at, path, n - 1).value;
      assert Has(h, v.id, Prop(path[n - 1]));
    }
  }

  lemma {:induction false} WalkInHeap(h: Heap, at: Value, path: seq<Step>, n: nat)
    requires Closed(h) && InHeap(h, at) && n <= |path| && Walk(h, at, path, n).Some?
    ensures InHeap(h, Walk(h, at, path, n).value)
  {
    if n > 0 {
      WalkInHeap(h, at, path, n - 1);
      var v := Walk(h, at, path, n - 1).value;
      assert Has(h, v.id, Prop(path[n - 1]));
    }
  }

  /** More references, none of them for an object that was there before. */
  ghost predicate RefsGrew(refs: Refs, refs': Refs, h: Heap) {
    && (forall p :: p in refs ==> p in refs' && refs'[p] == refs[p])
    && (forall p :: p in refs' && p in h ==> p in refs)
  }

  lemma {:induction false} FieldStaysBuilt(c: Node, i: nat, o: nat, h: Heap, h': Heap, refs: Refs, refs': Refs,
                                           root: Value, cur: nat)
    requires c.Container? && i < |c.fields| && FieldBuilt(c, i, o, h, refs, root)
    requires Closed(h) && InHeap(h, root) && Grew(h, h', cur) && RefsGrew(refs, refs', h) && cur <= o
    ensures FieldBuilt(c, i, o, h', refs', root)
    decreases c, 0
  {
    var k, node := PropAt(c.fields, i), c.fields[i].node;
    if !node.Hole? {
      assert Has(h, o, k) && Has(h', o, k) && h'[o][k] == h[o][k];
      if node.Reference? && Walk(h, root, node.path, |node.path|).Some? {
        WalkGrows(h, h', cur, root, node.path, |node.path|);
        WalkInHeap(h, root, node.path, |node.path|);
      }
      if node.Container? {
        TreeStaysBuilt(node, h[o][k].id, h, h', refs, refs', root, cur);
      }
    }
  }

  lemma {:induction false} TreeStaysBuilt(c: Node, o: nat, h: Heap, h': Heap, refs: Refs, refs': Refs, root: Value,
                                          cur: nat)
    requires c.Container? && TreeBuilt(c, o, h, refs, root)
    requires Closed(h) && InHeap(h, root) && Grew(h, h', cur) && RefsGrew(refs, refs', h) && cur < o
    ensures TreeBuilt(c, o, h', refs', root)
    decreases c, 1
  {
    forall i | 0 <= i < |c.fields| ensures FieldBuilt(c, i, o, h', refs', root) {
      FieldStaysBuilt(c, i, o, h, h', refs, refs', root, cur);
    }
  }

  // ---- building builds what the tree says -------------------------------------------------------------------

  /** What building the first `n` fields of `c` into `o` achieves, seen in the heap with the open links added. */
  ghost predicate Achieves(st: Build, st': Build, root: nat, stack: seq<Member>, o: nat, c: Node, n: nat)
    requires c.Container? && n <= |c.fields|
  {
    && Inv(st', root, stack, c.isArray)
    && Advances(st, st', o)
    && o in st'.heap && st'.heap[o].Keys == PropsTo(c, n)
    && forall i :: 0 <= i < n ==> FieldBuilt(c, i, o, Linked(st'.heap, root, stack), RefsIn(st'), Obj(root))
  }

  /** The next field, after the first `i`. */
  ghost predicate FieldAchieves(st: Build, st': Build, root: nat, stack: seq<Member>, o: nat, c: Node, i: nat)
    requires c.Container? && i < |c.fields|
  {
    && Inv(st', root, stack, c.isArray)
    && Advances(st, st', o)
    && o in st'.heap && st'.heap[o].Keys == PropsTo(c, i + 1)
    && FieldBuilt(c, i, o, Linked(st'.heap, root, stack), RefsIn(st'), Obj(root))
  }

  ghost predicate Ready(st: Build, root: nat, stack: seq<Member>, o: nat, c: Node, i: nat)
    requires c.Container? && i <= |c.fields|
  {
    && WellFormedTree(c)
    && Inv(st, root, stack, c.isArray) && o == ChainId(root, stack, |stack|)
    && st.heap[o].Keys == PropsTo(c, i)
  }

  lemma FreshProp(c: Node, i: nat)
    requires c.Container? && WellFormedTree(c) && i < |c.fields|
    ensures PropAt(c.fields, i) !in PropsTo(c, i)
  {
  }

  /** The heap with links: the slot just stored is in it. */
  lemma StoredIsLinked(st: Build, root: nat, stack: seq<Member>, topArray: bool, o: nat)
    requires Inv(st, root, stack, topArray) && o == ChainId(root, stack, |stack|)
    ensures Linked(st.heap, root, stack).Keys == st.heap.Keys
    ensures o in st.heap && Linked(st.heap, root, stack)[o] == st.heap[o]
  {
    TopNotParent(st, root, stack, topArray, o);
    LinkedElsewhere(st.heap, root, stack, o);
  }

  lemma ValueFieldOK(st: Build, root: nat, stack: seq<Member>, o: nat, c: Node, i: nat, v: Value)
    requires c.Container? && i < |c.fields| && Ready(st, root, stack, o, c, i)
    requires c.fields[i].node.Scalar? || c.fields[i].node.Undef?
    requires v == if c.fields[i].node.Scalar? then Prim(c.fields[i].node.p) else Undefined
    ensures FieldAchieves(st, Put(st, o, PropAt(c.fields, i), v), root, stack, o, c, i)
  {
    FreshProp(c, i);
    PropsNext(c, i);
    forall j | 0 <= j <= |stack| ensures v != Chain(root, stack, j) {
      ChainInHeap(st.heap, root, stack, j);
    }
    PutOK(st, root, stack, c.isArray, o, PropAt(c.fields, i), v);
    StoredIsLinked(Put(st, o, PropAt(c.fields, i), v), root, stack, c.isArray, o);
  }

  lemma HoleFieldOK(st: Build, root: nat, stack: seq<Member>, o: nat, c: Node, i: nat)
    requires c.Container? && i < |c.fields| && Ready(st, root, stack, o, c, i) && c.fields[i].node.Hole?
    ensures var k := PropAt(c.fields, i);
            && st.(heap := Delete(Set(st.heap, o, k, Undefined), o, k)) == st
            && FieldAchieves(st, st, root, stack, o, c, i)
  {
    FreshProp(c, i);
    PropsNext(c, i);
    TopNotParent(st, root, stack, c.isArray, o);
    var k := PropAt(c.fields, i);
    assert st.heap[o][k := Undefined] - {k} == st.heap[o];
    assert Delete(Set(st.heap, o, k, Undefined), o, k) == st.heap;
  }

  /** A reference that lands on an open container is deferred, whichever way it went. */
  lemma DeferredFieldOK(st: Build, root: nat, stack: seq<Member>, o: nat, c: Node, i: nat)
    requires c.Container? && i < |c.fields| && Ready(st, root, stack, o, c, i) && c.fields[i].node.Reference?
    ensures FieldAchieves(st, Put(Defer(st, c.fields[i].node.path, o), o, PropAt(c.fields, i), Obj(st.next)),
                          root, stack, o, c, i)
  {
    hide TreeBuilt, FieldBuilt, Inv, Linked, PropsTo;
    var k, path := PropAt(c.fields, i), c.fields[i].node.path;
    var mid := Defer(st, path, o);
    var st' := Put(mid, o, k, Obj(st.next));
    FreshProp(c, i);
    PropsNext(c, i);
    TopNotParent(st, root, stack, c.isArray, o);
    DeferOK(st, root, stack, c.isArray, o, path);
    PutOK(mid, root, stack, c.isArray, o, k, Obj(st.next));
    AdvancesCompose(st, mid, st', o);
    StoredIsLinked(st', root, stack, c.isArray, o);
    ReferenceFieldBuilt(c, i, o, Linked(st'.heap, root, stack), RefsIn(st'), Obj(root), Obj(st.next));
  }

  /** A known reference that lands on anything else stores it. */
  lemma KnownFieldOK(st: Build, root: nat, stack: seq<Member>, o: nat, c: Node, i: nat, v: Value)
    requires c.Container? && i < |c.fields| && Ready(st, root, stack, o, c, i) && c.fields[i].node.Reference?
    requires KnownWalk(st.heap, root, stack, c.fields[i].node.path, |c.fields[i].node.path|) == Some(v)
    requires !IsOpen(root, stack, v)
    ensures !v.Undefined?
    ensures FieldAchieves(st, Put(st, o, PropAt(c.fields, i), v), root, stack, o, c, i)
  {
    hide TreeBuilt, FieldBuilt;
    var k, path := PropAt(c.fields, i), c.fields[i].node.path;
    var st' := Put(st, o, k, v);
    FreshProp(c, i);
    PropsNext(c, i);
    OpenOrNot(root, stack, v);
    KnownIsWalk(st.heap, root, stack, path, |path|);
    KnownInHeap(st, root, stack, c.isArray, path);
    TopNotParent(st, root, stack, c.isArray, o);
    PutOK(st, root, stack, c.isArray, o, k, v);
    LinkedGrew(st.heap, st'.heap, root, stack, o);
    var h := Linked(st'.heap, root, stack);
    WalkGrows(Linked(st.heap, root, stack), h, o, Obj(root), path, |path|);
    StoredIsLinked(st', root, stack, c.isArray, o);
    ReferenceFieldBuilt(c, i, o, h, RefsIn(st'), Obj(root), v);
  }

  /** A reference that is known, or ends on an open container. */
  lemma ReferenceFieldOK(st: Build, root: nat, stack: seq<Member>, o: nat, c: Node, i: nat, st': Build)
    requires c.Container? && i < |c.fields| && Ready(st, root, stack, o, c, i) && c.fields[i].node.Reference?
    requires ReadsField(st, root, stack, o, c, i, true) && BuildField(st, root, stack, o, c, i) == Some(st')
    ensures FieldAchieves(st, st', root, stack, o, c, i)
  {
    hide Ready, FieldAchieves;
    var path := c.fields[i].node.path;
    var at := EagerWalk(st.heap, root, stack, Obj(o), path, |path|);
    if Known(st, root, stack, path) { KnownLands(st, root, stack, o, c, i, path); }
    if IsOpen(root, stack, at.refValue) {
      DeferredFieldOK(st, root, stack, o, c, i);
    } else {
      KnownFieldOK(st, root, stack, o, c, i, at.refValue);
    }
  }

  lemma KnownLands(st: Build, root: nat, stack: seq<Member>, o: nat, c: Node, i: nat, path: seq<Step>)
    requires c.Container? && i <= |c.fields| && Ready(st, root, stack, o, c, i) && Known(st, root, stack, path)
    ensures var at := EagerWalk(st.heap, root, stack, Obj(o), path, |path|);
            at.At? && Some(at.refValue) == KnownWalk(st.heap, root, stack, path, |path|)
  {
    EagerIsKnown(st.heap, root, stack, c.isArray, Obj(o), path, |path|);
  }

  lemma ReferenceFieldBuilt(c: Node, i: nat, o: nat, h: Heap, refs: Refs, root: Value, slot: Value)
    requires c.Container? && i < |c.fields| && c.fields[i].node.Reference?
    requires Has(h, o, PropAt(c.fields, i)) && h[o][PropAt(c.fields, i)] == slot
    requires ReferenceBuilt(c.fields[i].node.path, slot, h, refs, root)
    ensures FieldBuilt(c, i, o, h, refs, root)
  {
  }

  lemma KnownInHeap(st: Build, root: nat, stack: seq<Member>, topArray: bool, path: seq<Step>)
    requires Inv(st, root, stack, topArray) && KnownWalk(st.heap, root, stack, path, |path|).Some?
    ensures InHeap(st.heap, KnownWalk(st.heap, root, stack, path, |path|).value)
  {
    KnownInHeapTo(st, root, stack, topArray, path, |path|);
  }

  lemma {:induction false} KnownInHeapTo(st: Build, root: nat, stack: seq<Member>, topArray: bool, path: seq<Step>,
                                         n: nat)
    requires Inv(st, root, stack, topArray) && n <= |path| && KnownWalk(st.heap, root, stack, path, n).Some?
    ensures InHeap(st.heap, KnownWalk(st.heap, root, stack, path, n).value)
  {
    if n == 0 {
      ChainInHeap(st.heap, root, stack, 0);
    } else {
      KnownInHeapTo(st, root, stack, topArray, path, n - 1);
      var u, step := KnownWalk(st.heap, root, stack, path, n - 1).value, path[n - 1];
      if n - 1 < |stack| && u == Chain(root, stack, n - 1) && Matches(stack[n - 1], step) {
        ChainInHeap(st.heap, root, stack, n);
      } else {
        assert Has(st.heap, u.id, Prop(step));
      }
    }
  }

  lemma {:induction false} FieldOK(st: Build, st': Build, root: nat, stack: seq<Member>, o: nat, c: Node, i: nat)
    requires c.Container? && i < |c.fields| && Ready(st, root, stack, o, c, i)
    requires BuildField(st, root, stack, o, c, i) == Some(st') && ReadsField(st, root, stack, o, c, i, true)
    ensures FieldAchieves(st, st', root, stack, o, c, i)
    decreases c, i, 0
  {
    hide TreeBuilt, FieldBuilt, Advances;
    match c.fields[i].node
    case Scalar(p, _) => ValueFieldOK(st, root, stack, o, c, i, Prim(p));
    case Undef => ValueFieldOK(st, root, stack, o, c, i, Undefined);
    case Hole => HoleFieldOK(st, root, stack, o, c, i);
    case Reference(path) => ReferenceFieldOK(st, root, stack, o, c, i, st');
    case Container(isArray, _, _) =>
      var inner, m := c.fields[i].node, MemberFor(c.fields, i, Obj(st.next));
      var begun := if isArray then Put(Alloc(st), o, PropAt(c.fields, i), Obj(st.next)) else Alloc(st);
      ChildReady(st, begun, root, stack, o, c, i, m);
      var built := BuildFields(begun, root, stack + [m], st.next, inner, |inner.fields|).value;
      FieldsOK(begun, built, root, stack + [m], st.next, inner, |inner.fields|);
      ContainerFieldOK(st, begun, built, st', root, stack, o, c, i, m);
  }

  lemma PropsEmpty(c: Node)
    requires c.Container?
    ensures PropsTo(c, 0) == {}
  {
  }

  /** How field `i` came to be `st'`: the child was opened, built as its node says, and closed again. */
  ghost predicate ChildBuilt(st: Build, begun: Build, built: Build, st': Build, root: nat, stack: seq<Member>, o: nat,
                             c: Node, i: nat, m: Member)
    requires c.Container? && i < |c.fields| && c.fields[i].node.Container?
  {
    var inner, k := c.fields[i].node, PropAt(c.fields, i);
    && m == MemberFor(c.fields, i, Obj(st.next))
    && begun == (if inner.isArray then Put(Alloc(st), o, k, Obj(st.next)) else Alloc(st))
    && Advances(st, begun, o)
    && Achieves(begun, built, root, stack + [m], st.next, inner, |inner.fields|)
    && st' == if inner.isArray then built else Put(built, o, k, Obj(st.next))
  }

  lemma ChildMember(c: Node, i: nat, v: Value)
    requires c.Container? && WellFormedTree(c) && i < |c.fields|
    ensures var m := MemberFor(c.fields, i, v);
            m.container == v && m.isArray == c.isArray && MemberProp(m) == PropAt(c.fields, i)
  {
  }

  lemma ChildCloses(st: Build, begun: Build, built: Build, st': Build, root: nat, stack: seq<Member>, o: nat, c: Node,
                    i: nat, m: Member)
    requires c.Container? && i < |c.fields| && Ready(st, root, stack, o, c, i) && c.fields[i].node.Container?
    requires ChildBuilt(st, begun, built, st', root, stack, o, c, i, m)
    ensures Inv(st', root, stack, c.isArray) && Advances(st, st', o)
    ensures o in st.heap && o < st.next && o in st'.heap
    ensures st'.heap[o] == st.heap[o][PropAt(c.fields, i) := Obj(st.next)]
    ensures Linked(st'.heap, root, stack) == Linked(built.heap, root, stack + [m]) && st'.deferred == built.deferred
  {
    hide TreeBuilt, FieldBuilt, Inv, Linked, PropsTo, WellFormedTree, MemberFor, MemberProp, PropAt;
    NextIsNew(st, root, stack, c.isArray, o);
    ChildMember(c, i, Obj(st.next));
    FreshProp(c, i);
    TopNotParent(st, root, stack, c.isArray, o);
    ChildAdvances(st, begun, built, o, st.next);
    CloseOK(st, built, root, stack, c.isArray, o, m, c.fields[i].node.isArray);
    AdvancesCompose(st, built, st', o);
  }

  /** Opening a child leaves everything ready to build it. */
  lemma ChildReady(st: Build, begun: Build, root: nat, stack: seq<Member>, o: nat, c: Node, i: nat, m: Member)
    requires c.Container? && i < |c.fields| && Ready(st, root, stack, o, c, i) && c.fields[i].node.Container?
    requires m == MemberFor(c.fields, i, Obj(st.next))
    requires begun ==
             if c.fields[i].node.isArray then Put(Alloc(st), o, PropAt(c.fields, i), Obj(st.next)) else Alloc(st)
    ensures Ready(begun, root, stack + [m], st.next, c.fields[i].node, 0) && Advances(st, begun, o)
  {
    hide TreeBuilt, FieldBuilt;
    FreshProp(c, i);
    PropsEmpty(c.fields[i].node);
    OpenOK(st, root, stack, c.isArray, o, m, c.fields[i].node.isArray);
  }

  /** Building leaves everything ready for the next field. */
  lemma StillReady(st: Build, st': Build, root: nat, stack: seq<Member>, o: nat, c: Node, n: nat)
    requires c.Container? && n <= |c.fields| && Ready(st, root, stack, o, c, 0)
    requires BuildFields(st, root, stack, o, c, n) == Some(st') && ReadsFields(st, root, stack, o, c, n, true)
    ensures Ready(st', root, stack, o, c, n)
  {
    FieldsOK(st, st', root, stack, o, c, n);
  }

  /** Closing a child that was built as its node says. */
  lemma ContainerFieldOK(st: Build, begun: Build, built: Build, st': Build, root: nat, stack: seq<Member>, o: nat,
                         c: Node, i: nat, m: Member)
    requires c.Container? && i < |c.fields| && Ready(st, root, stack, o, c, i) && c.fields[i].node.Container?
    requires ChildBuilt(st, begun, built, st', root, stack, o, c, i, m)
    ensures FieldAchieves(st, st', root, stack, o, c, i)
  {
    hide TreeBuilt, FieldBuilt, Inv, Advances, WellFormedTree;
    PropsNext(c, i);
    ChildCloses(st, begun, built, st', root, stack, o, c, i, m);
    StoredIsLinked(st', root, stack, c.isArray, o);
    var h := Linked(st'.heap, root, stack);
    ChildTreeBuilt(begun, built, root, stack + [m], st.next, c.fields[i].node, h);
    ContainerFieldBuilt(c, i, o, h, RefsIn(built), Obj(root), st.next);
  }

  lemma ChildTreeBuilt(begun: Build, built: Build, root: nat, deeper: seq<Member>, child: nat, inner: Node, h: Heap)
    requires inner.Container? && Achieves(begun, built, root, deeper, child, inner, |inner.fields|)
    requires deeper != [] && deeper[|deeper| - 1].container == Obj(child) && h == Linked(built.heap, root, deeper)
    ensures TreeBuilt(inner, child, h, RefsIn(built), Obj(root)) && child !in RefsIn(built)
  {
    assert Chain(root, deeper, |deeper|) == Obj(child);
    StoredIsLinked(built, root, deeper, inner.isArray, child);
  }

  lemma ContainerFieldBuilt(c: Node, i: nat, o: nat, h: Heap, refs: Refs, root: Value, child: nat)
    requires c.Container? && i < |c.fields| && c.fields[i].node.Container?
    requires Has(h, o, PropAt(c.fields, i)) && h[o][PropAt(c.fields, i)] == Obj(child)
    requires child > o && child !in refs && TreeBuilt(c.fields[i].node, child, h, refs, root)
    ensures FieldBuilt(c, i, o, h, refs, root)
  {
  }

  /** Growth of a new child only is growth of the document around it. */
  lemma ChildAdvances(st: Build, begun: Build, built: Build, o: nat, child: nat)
    requires Advances(st, begun, o) && Advances(begun, built, child)
    requires child !in st.heap && o in st.heap
    ensures Advances(st, built, o) && built.heap[o] == begun.heap[o]
  {
    forall k | Has(st.heap, o, k) ensures Has(built.heap, o, k) && built.heap[o][k] == st.heap[o][k] {
      assert Has(begun.heap, o, k);
    }
  }

  lemma {:induction false} FieldsOK(st: Build, st': Build, root: nat, stack: seq<Member>, o: nat, c: Node, n: nat)
    requires c.Container? && n <= |c.fields| && Ready(st, root, stack, o, c, 0)
    requires BuildFields(st, root, stack, o, c, n) == Some(st') && ReadsFields(st, root, stack, o, c, n, true)
    ensures Achieves(st, st', root, stack, o, c, n)
    decreases c, n, 1
  {
    hide Achieves, FieldAchieves, Inv, Advances;
    if n > 0 {
      var mid := BuildFields(st, root, stack, o, c, n - 1).value;
      FieldsOK(st, mid, root, stack, o, c, n - 1);
      AchievedReady(st, mid, root, stack, o, c, n - 1);
      FieldOK(mid, st', root, stack, o, c, n - 1);
      NextFieldOK(st, mid, st', root, stack, o, c, n - 1);
    } else {
      NoFieldsOK(st, root, stack, o, c);
    }
  }

  lemma NoFieldsOK(st: Build, root: nat, stack: seq<Member>, o: nat, c: Node)
    requires c.Container? && Ready(st, root, stack, o, c, 0)
    ensures Achieves(st, st, root, stack, o, c, 0)
  {
    TopNotParent(st, root, stack, c.isArray, o);
  }

  lemma AchievedReady(st: Build, mid: Build, root: nat, stack: seq<Member>, o: nat, c: Node, n: nat)
    requires c.Container? && n <= |c.fields| && Ready(st, root, stack, o, c, 0)
    requires Achieves(st, mid, root, stack, o, c, n)
    ensures Ready(mid, root, stack, o, c, n)
  {
  }

  lemma NextFieldOK(st: Build, mid: Build, st': Build, root: nat, stack: seq<Member>, o: nat, c: Node, n: nat)
    requires c.Container? && n < |c.fields| && o == ChainId(root, stack, |stack|)
    requires Achieves(st, mid, root, stack, o, c, n) && FieldAchieves(mid, st', root, stack, o, c, n)
    ensures Achieves(st, st', root, stack, o, c, n + 1)
  {
    AdvancesCompose(st, mid, st', o);
    TopNotParent(mid, root, stack, c.isArray, o);
    LinkedGrew(mid.heap, st'.heap, root, stack, o);
    LinkedClosed(mid, root, stack, c.isArray);
    StoredIsLinked(mid, root, stack, c.isArray, o);
    ChainInHeap(mid.heap, root, stack, 0);
    forall i | 0 <= i < n ensures FieldBuilt(c, i, o, Linked(st'.heap, root, stack), RefsIn(st'), Obj(root)) {
      FieldStaysBuilt(c, i, o, Linked(mid.heap, root, stack), Linked(st'.heap, root, stack), RefsIn(mid), RefsIn(st'),
                      Obj(root), o);
    }
  }

  lemma LinkedClosed(st: Build, root: nat, stack: seq<Member>, topArray: bool)
    requires Inv(st, root, stack, topArray)
    ensures Closed(Linked(st.heap, root, stack))
  {
    LinkedClosedTo(st.heap, root, stack);
  }

  lemma {:induction false} LinkedClosedTo(h: Heap, root: nat, stack: seq<Member>)
    requires Closed(h) && ChainOK(h, root, stack)
    ensures Closed(Linked(h, root, stack)) && Linked(h, root, stack).Keys == h.Keys
    decreases |stack|
  {
    if stack != [] {
      var last := |stack| - 1;
      ChainPrefix(h, root, stack, last);
      LinkedClosedTo(h, root, stack[..last]);
      ChainInHeap(h, root, stack, last);
      ChainInHeap(h, root, stack, |stack|);
    }
  }
}
