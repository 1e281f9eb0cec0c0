/** Containers of a document stay apart: the settled document has as many objects as its parse tree has containers. */
module JsoxDistinct {
  import opened Options
  import opened JsoxModel
  import opened JsoxRefs
  import opened JsoxReviver
  import opened JsoxSettle
  import opened JsoxDoc
  import opened JsoxChain
  import opened JsoxInvariant
  import opened JsoxMeaning
  import opened JsoxDocument

  /** The objects found for a container node and the containers in its first `n` fields, down to the leaves. */
  ghost function ObjectsTo(c: Node, o: nat, h: Heap, n: nat): set<nat>
    requires c.Container? && n <= |c.fields|
    decreases c, n, 1
  {
    if n == 0 then {o} else ObjectsTo(c, o, h, n - 1) + FieldObjects(c, o, h, n - 1)
  }

  ghost function FieldObjects(c: Node, o: nat, h: Heap, i: nat): set<nat>
    requires c.Container? && i < |c.fields|
    decreases c, i, 0
  {
    var k, inner := PropAt(c.fields, i), c.fields[i].node;
    if inner.Container? && Has(h, o, k) && h[o][k].Obj? then ObjectsTo(inner, h[o][k].id, h, |inner.fields|) else {}
  }

  /** How many containers the node has, itself included. */
  function ContainersTo(c: Node, n: nat): nat
    requires c.Container? && n <= |c.fields|
    decreases c, n
  {
    if n == 0 then 1
    else
      var inner := c.fields[n - 1].node;
      ContainersTo(c, n - 1) + if inner.Container? then ContainersTo(inner, |inner.fields|) else 0
  }

  /** Every container of the first `n` fields is in its slot, as an object that is no placeholder. */
  ghost predicate WholeTo(c: Node, o: nat, h: Heap, refs: Refs, n: nat)
    requires c.Container? && n <= |c.fields|
    decreases c, 1
  {
    forall i :: 0 <= i < n ==> WholeField(c, o, h, refs, i)
  }

  ghost predicate WholeField(c: Node, o: nat, h: Heap, refs: Refs, i: nat)
    requires c.Container? && i < |c.fields|
    decreases c, 0
  {
    var k, inner := PropAt(c.fields, i), c.fields[i].node;
    inner.Container? ==>
      && Has(h, o, k) && h[o][k].Obj? && h[o][k].id in h && h[o][k].id !in refs
      && WholeTo(inner, h[o][k].id, h, refs, |inner.fields|)
  }

  // ---- what is whole stays whole -------------------------------------------------------------------------------

  lemma {:induction false} WholeStays(c: Node, o: nat, st: Build, st': Build, cur: nat, n: nat)
    requires c.Container? && n <= |c.fields| && WholeTo(c, o, st.heap, RefsIn(st), n) && Advances(st, st', cur)
    ensures WholeTo(c, o, st'.heap, RefsIn(st'), n) && ObjectsTo(c, o, st'.heap, n) == ObjectsTo(c, o, st.heap, n)
    decreases c, n
  {
    if n > 0 {
      WholeStays(c, o, st, st', cur, n - 1);
      assert WholeField(c, o, st.heap, RefsIn(st), n - 1);
      var k, inner := PropAt(c.fields, n - 1), c.fields[n - 1].node;
      if inner.Container? {
        assert st'.heap[o][k] == st.heap[o][k];
        WholeStays(inner, st.heap[o][k].id, st, st', cur, |inner.fields|);
      }
    }
  }

  lemma {:induction false} WholeSettles(c: Node, o: nat, h: Heap, refs: Refs, sigma: Subst, visited: set<nat>, n: nat)
    requires c.Container? && n <= |c.fields| && WholeTo(c, o, h, refs, n) && sigma.Keys == refs.Keys
    ensures ObjectsTo(c, o, Rewrite(h, visited, sigma), n) == ObjectsTo(c, o, h, n)
    decreases c, n
  {
    if n > 0 {
      WholeSettles(c, o, h, refs, sigma, visited, n - 1);
      assert WholeField(c, o, h, refs, n - 1);
      var inner := c.fields[n - 1].node;
      if inner.Container? {
        WholeSettles(inner, h[o][PropAt(c.fields, n - 1)].id, h, refs, sigma, visited, |inner.fields|);
      }
    }
  }

  // ---- building keeps containers apart -------------------------------------------------------------------------

  /** Building the first `n` fields between `st` and `st'` made the objects of their containers, each a new one. */
  ghost predicate Apart(st: Build, st': Build, o: nat, c: Node, n: nat)
    requires c.Container? && n <= |c.fields|
  {
    && st.next <= st'.next && WholeTo(c, o, st'.heap, RefsIn(st'), n)
    && (forall x :: x in ObjectsTo(c, o, st'.heap, n) ==> x == o || st.next <= x < st'.next)
    && |ObjectsTo(c, o, st'.heap, n)| == ContainersTo(c, n)
  }

  lemma {:induction false} FieldsApart(st: Build, st': Build, root: nat, stack: seq<Member>, o: nat, c: Node, n: nat)
    requires c.Container? && n <= |c.fields| && Ready(st, root, stack, o, c, 0)
    requires BuildFields(st, root, stack, o, c, n) == Some(st') && ReadsFields(st, root, stack, o, c, n, true)
    ensures Apart(st, st', o, c, n)
    decreases c, n
  {
    hide Achieves, FieldAchieves, Inv, Advances, Apart, BuildField;
    if n == 0 {
      NoneApart(st, o, c);
    } else {
      var mid := BuildFields(st, root, stack, o, c, n - 1).value;
      FieldsApart(st, mid, root, stack, o, c, n - 1);
      StillReady(st, mid, root, stack, o, c, n - 1);
      FieldOK(mid, st', root, stack, o, c, n - 1);
      FieldAdvances(st, mid, st', root, stack, o, c, n);
      if c.fields[n - 1].node.Container? {
        var inner, m := c.fields[n - 1].node, MemberFor(c.fields, n - 1, Obj(mid.next));
        var begun := if inner.isArray then Put(Alloc(mid), o, PropAt(c.fields, n - 1), Obj(mid.next)) else Alloc(mid);
        ChildReady(mid, begun, root, stack, o, c, n - 1, m);
        var built := ContainerStates(mid, st', root, stack, o, c, n - 1);
        FieldsApart(begun, built, root, stack + [m], mid.next, inner, |inner.fields|);
        ChildApart(st, mid, begun, built, st', root, stack, o, c, n - 1, m);
      } else {
        NoChild(st, mid, st', o, c, n - 1);
      }
    }
  }

  lemma NoneApart(st: Build, o: nat, c: Node)
    requires c.Container?
    ensures Apart(st, st, o, c, 0)
  {
  }

  lemma FieldAdvances(st: Build, mid: Build, st': Build, root: nat, stack: seq<Member>, o: nat, c: Node, n: nat)
    requires c.Container? && 0 < n <= |c.fields| && FieldAchieves(mid, st', root, stack, o, c, n - 1)
    requires Ready(st, root, stack, o, c, 0)
    ensures Advances(mid, st', o) && o < st.next
  {
    TopNotParent(st, root, stack, c.isArray, o);
  }

  lemma ContainerStates(mid: Build, st': Build, root: nat, stack: seq<Member>, o: nat, c: Node, i: nat)
    returns (built: Build)
    requires c.Container? && i < |c.fields| && c.fields[i].node.Container?
    requires BuildField(mid, root, stack, o, c, i) == Some(st')
    ensures var inner, m, k := c.fields[i].node, MemberFor(c.fields, i, Obj(mid.next)), PropAt(c.fields, i);
            var begun := if inner.isArray then Put(Alloc(mid), o, k, Obj(mid.next)) else Alloc(mid);
            && BuildFields(begun, root, stack + [m], mid.next, inner, |inner.fields|) == Some(built)
            && st' == if inner.isArray then built else Put(built, o, k, Obj(mid.next))
  {
    var inner, m, k := c.fields[i].node, MemberFor(c.fields, i, Obj(mid.next)), PropAt(c.fields, i);
    var begun := if inner.isArray then Put(Alloc(mid), o, k, Obj(mid.next)) else Alloc(mid);
    built := BuildFields(begun, root, stack + [m], mid.next, inner, |inner.fields|).value;
  }

  lemma NoChild(st: Build, mid: Build, st': Build, o: nat, c: Node, i: nat)
    requires c.Container? && i < |c.fields| && !c.fields[i].node.Container?
    requires Apart(st, mid, o, c, i) && Advances(mid, st', o)
    ensures Apart(st, st', o, c, i + 1)
  {
    hide ObjectsTo, WholeTo, ContainersTo, Grew;
    WholeStays(c, o, mid, st', o, i);
    NothingMore(c, o, st'.heap, RefsIn(st'), i);
  }

  lemma NothingMore(c: Node, o: nat, h: Heap, refs: Refs, i: nat)
    requires c.Container? && i < |c.fields| && !c.fields[i].node.Container? && WholeTo(c, o, h, refs, i)
    ensures WholeTo(c, o, h, refs, i + 1) && ContainersTo(c, i + 1) == ContainersTo(c, i)
    ensures ObjectsTo(c, o, h, i + 1) == ObjectsTo(c, o, h, i)
  {
    WholeNext(c, o, h, refs, i);
    assert FieldObjects(c, o, h, i) == {};
  }

  lemma WholeNext(c: Node, o: nat, h: Heap, refs: Refs, i: nat)
    requires c.Container? && i < |c.fields| && WholeTo(c, o, h, refs, i) && WholeField(c, o, h, refs, i)
    ensures WholeTo(c, o, h, refs, i + 1)
  {
  }

  lemma ChildApart(st: Build, mid: Build, begun: Build, built: Build, st': Build, root: nat, stack: seq<Member>, o: nat,
                   c: Node, i: nat, m: Member)
    requires c.Container? && i < |c.fields| && c.fields[i].node.Container? && o < st.next
    requires Ready(mid, root, stack, o, c, i) && Apart(st, mid, o, c, i) && Advances(mid, st', o)
    requires var inner, k := c.fields[i].node, PropAt(c.fields, i);
             && m == MemberFor(c.fields, i, Obj(mid.next))
             && begun == (if inner.isArray then Put(Alloc(mid), o, k, Obj(mid.next)) else Alloc(mid))
             && Ready(begun, root, stack + [m], mid.next, inner, 0)
             && BuildFields(begun, root, stack + [m], mid.next, inner, |inner.fields|) == Some(built)
             && ReadsFields(begun, root, stack + [m], mid.next, inner, |inner.fields|, true)
             && st' == (if inner.isArray then built else Put(built, o, k, Obj(mid.next)))
             && Apart(begun, built, mid.next, inner, |inner.fields|)
    ensures Apart(st, st', o, c, i + 1)
  {
    hide Inv, Ready, Advances, WholeTo, ObjectsTo, ContainersTo, Has;
    var inner, child := c.fields[i].node, mid.next;
    ChildStored(mid, begun, built, st', root, stack, o, c, i, m);
    WholeStays(c, o, mid, st', o, i);
    WholeStays(inner, child, built, st', o, |inner.fields|);
    Joined(st, mid, st', o, c, i, child);
  }

  lemma Joined(st: Build, mid: Build, st': Build, o: nat, c: Node, i: nat, child: nat)
    requires c.Container? && i < |c.fields| && c.fields[i].node.Container? && o < st.next <= mid.next <= st'.next
    requires WholeTo(c, o, st'.heap, RefsIn(st'), i) && |ObjectsTo(c, o, st'.heap, i)| == ContainersTo(c, i)
    requires forall x :: x in ObjectsTo(c, o, st'.heap, i) ==> x == o || st.next <= x < mid.next
    requires Has(st'.heap, o, PropAt(c.fields, i)) && st'.heap[o][PropAt(c.fields, i)] == Obj(child)
    requires child in st'.heap && child !in RefsIn(st')
    requires var inner := c.fields[i].node;
             && WholeTo(inner, child, st'.heap, RefsIn(st'), |inner.fields|)
             && (forall x :: x in ObjectsTo(inner, child, st'.heap, |inner.fields|) ==> mid.next <= x < st'.next)
             && |ObjectsTo(inner, child, st'.heap, |inner.fields|)| == ContainersTo(inner, |inner.fields|)
    ensures Apart(st, st', o, c, i + 1)
  {
    var inner := c.fields[i].node;
    var before, more := ObjectsTo(c, o, st'.heap, i), ObjectsTo(inner, child, st'.heap, |inner.fields|);
    assert FieldObjects(c, o, st'.heap, i) == more;
    assert WholeField(c, o, st'.heap, RefsIn(st'), i);
    WholeNext(c, o, st'.heap, RefsIn(st'), i);
    Together(before, more, o, st.next, mid.next, st'.next);
    hide WholeTo, WholeField, Has, FieldObjects;
    assert ObjectsTo(c, o, st'.heap, i + 1) == before + more;
  }

  lemma Together(before: set<nat>, more: set<nat>, o: nat, lo: nat, mid: nat, hi: nat)
    requires o < lo <= mid <= hi && (forall x :: x in before ==> x == o || lo <= x < mid)
    requires forall x :: x in more ==> mid <= x < hi
    ensures |before + more| == |before| + |more| && forall x :: x in before + more ==> x == o || lo <= x < hi
  {
    assert before !! more;
  }

  lemma ChildStored(mid: Build, begun: Build, built: Build, st': Build, root: nat, stack: seq<Member>, o: nat, c: Node,
                    i: nat, m: Member)
    requires c.Container? && i < |c.fields| && c.fields[i].node.Container? && Ready(mid, root, stack, o, c, i)
    requires var inner, k := c.fields[i].node, PropAt(c.fields, i);
             && m == MemberFor(c.fields, i, Obj(mid.next))
             && begun == (if inner.isArray then Put(Alloc(mid), o, k, Obj(mid.next)) else Alloc(mid))
             && Ready(begun, root, stack + [m], mid.next, inner, 0)
             && BuildFields(begun, root, stack + [m], mid.next, inner, |inner.fields|) == Some(built)
             && ReadsFields(begun, root, stack + [m], mid.next, inner, |inner.fields|, true)
             && st' == (if inner.isArray then built else Put(built, o, k, Obj(mid.next)))
    ensures Advances(built, st', o)
    ensures Has(st'.heap, o, PropAt(c.fields, i)) && st'.heap[o][PropAt(c.fields, i)] == Obj(mid.next)
    ensures mid.next in st'.heap && mid.next !in RefsIn(st')
    ensures begun.next == mid.next + 1 && begun.next <= built.next == st'.next
  {
    hide Inv, Achieves, WellFormedTree, PropsTo, BuildFields, ReadsFields, UniqueProps, Grew, RefsIn;
    ChildMade(begun, built, root, stack + [m], mid.next, c.fields[i].node);
    ParentKept(mid, begun, built, root, stack, o, c, i, m);
    FreshProp(c, i);
    PutAdvances(built, o, PropAt(c.fields, i), Obj(mid.next));
  }

  lemma ParentKept(mid: Build, begun: Build, built: Build, root: nat, stack: seq<Member>, o: nat, c: Node, i: nat,
                   m: Member)
    requires c.Container? && i < |c.fields| && c.fields[i].node.Container? && Ready(mid, root, stack, o, c, i)
    requires m == MemberFor(c.fields, i, Obj(mid.next)) && Advances(begun, built, mid.next)
    requires begun ==
             if c.fields[i].node.isArray then Put(Alloc(mid), o, PropAt(c.fields, i), Obj(mid.next)) else Alloc(mid)
    ensures o in mid.heap && o != mid.next && o in built.heap && built.heap[o] == begun.heap[o]
  {
    assert mid.next !in mid.heap;
    hide Inv, WellFormedTree, PropsTo;
    ChildReady(mid, begun, root, stack, o, c, i, m);
    TopNotParent(mid, root, stack, c.isArray, o);
    ChildAdvances(mid, begun, built, o, mid.next);
  }

  lemma ChildMade(begun: Build, built: Build, root: nat, deeper: seq<Member>, child: nat, inner: Node)
    requires inner.Container? && Ready(begun, root, deeper, child, inner, 0)
    requires BuildFields(begun, root, deeper, child, inner, |inner.fields|) == Some(built)
    requires ReadsFields(begun, root, deeper, child, inner, |inner.fields|, true)
    ensures Advances(begun, built, child) && child in built.heap && child !in RefsIn(built)
  {
    FieldsOK(begun, built, root, deeper, child, inner, |inner.fields|);
    TopNotParent(built, root, deeper, inner.isArray, child);
  }

  lemma PutAdvances(st: Build, o: nat, k: string, v: Value)
    requires o in st.heap && (Has(st.heap, o, k) ==> st.heap[o][k] == v)
    ensures Advances(st, Put(st, o, k, v), o) && Advances(st, st, o)
  {
  }

  /** The containers of a well-formed document whose references are all read well are different objects, before and
      after settling: there are as many as the parse tree has container nodes. */
  lemma ContainersStayApart(c: Node, st: Build)
    requires c.Container? && WellFormedTree(c) && ReadsDocument(c, true) && BuildDocument(c) == Some(st)
    requires AllResolvable(BuiltDocument(st))
    ensures var h := Settled(BuiltDocument(st), StartSet(Obj(0), st.deferred));
            |ObjectsTo(c, 0, h, |c.fields|)| == ContainersTo(c, |c.fields|)
  {
    BuildStarts(c);
    FieldsApart(EMPTY_ROOT, st, 0, [], 0, c, |c.fields|);
    var doc, from := BuiltDocument(st), StartSet(Obj(0), st.deferred);
    WholeSettles(c, 0, doc.heap, doc.refs, SigmaOf(doc), ReachSet(doc.heap, doc.refs.Keys, from), |c.fields|);
  }
}
