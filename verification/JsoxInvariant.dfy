/** Building keeps its invariant, and what it has built so far stays as it is. */
module JsoxInvariant {
  import opened JsoxModel
  import opened JsoxRefs
  import opened JsoxReviver
  import opened JsoxDoc
  import opened JsoxChain

  ghost function RefsIn(st: Build): Refs {
    RefsOf(st.deferred)
  }

  /** Ids from `next` on are unused; placeholders are empty objects of the heap. */
  ghost predicate StateOK(st: Build) {
    && Closed(st.heap)
    && (forall x :: x in st.heap ==> x < st.next)
    && Distinct(st.deferred) && Fresh(st.deferred)
    && (forall i :: 0 <= i < |st.deferred| ==> InHeap(st.heap, st.deferred[i].owner))
    && (forall p :: p in RefsIn(st) ==> p in st.heap && st.heap[p] == map[])
  }

  ghost predicate NotOpen(root: nat, stack: seq<Member>, v: Value) {
    forall j {:trigger Chain(root, stack, j)} :: 0 <= j <= |stack| ==> v != Chain(root, stack, j)
  }

  /** The invariant: `topArray` tells whether the container being filled, the top of the chain, is an array. */
  ghost predicate Inv(st: Build, root: nat, stack: seq<Member>, topArray: bool) {
    && StateOK(st)
    && ChainOK(st.heap, root, stack) && StoredOK(st.heap, root, stack) && HiddenOK(st.heap, root, stack, topArray)
    && forall j {:trigger Chain(root, stack, j)} :: 0 <= j <= |stack| ==>
        !IsPlaceholder(RefsIn(st), Chain(root, stack, j))
  }

  /** From `st` to `st'` container `o` gained slots, and objects and references were added. */
  ghost predicate Advances(st: Build, st': Build, o: nat) {
    && st.next <= st'.next
    && Grew(st.heap, st'.heap, o)
    && (forall p :: p in RefsIn(st) ==> p in RefsIn(st') && RefsIn(st')[p] == RefsIn(st)[p])
    && (forall p :: p in RefsIn(st') && p in st.heap ==> p in RefsIn(st))
  }

  lemma AdvancesCompose(a: Build, b: Build, c: Build, o: nat)
    requires Advances(a, b, o) && Advances(b, c, o)
    ensures Advances(a, c, o)
  {
    GrewCompose(a.heap, b.heap, c.heap, o);
  }

  lemma OpenOrNot(root: nat, stack: seq<Member>, v: Value)
    ensures IsOpen(root, stack, v) <==> !NotOpen(root, stack, v)
  {
    if IsOpen(root, stack, v) {
      if v == Obj(root) {
        assert v == Chain(root, stack, 0);
      } else {
        var j :| 0 <= j < |stack| && stack[j].container == v;
        assert v == Chain(root, stack, j + 1);
      }
    }
    if !NotOpen(root, stack, v) {
      var j :| 0 <= j <= |stack| && v == Chain(root, stack, j);
      if j > 0 {
        assert stack[j - 1].container == v;
      }
    }
  }

  lemma TopNotParent(st: Build, root: nat, stack: seq<Member>, topArray: bool, o: nat)
    requires Inv(st, root, stack, topArray) && o == ChainId(root, stack, |stack|)
    ensures o in st.heap && o !in RefsIn(st)
    ensures forall j {:trigger ChainId(root, stack, j)} :: 0 <= j < |stack| ==> o != ChainId(root, stack, j)
  {
    TopIsNoParent(st.heap, root, stack);
    ChainInHeap(st.heap, root, stack, |stack|);
  }

  lemma NextIsNew(st: Build, root: nat, stack: seq<Member>, topArray: bool, o: nat)
    requires Inv(st, root, stack, topArray) && o == ChainId(root, stack, |stack|)
    ensures o in st.heap && o < st.next && st.next !in st.heap
  {
    TopNotParent(st, root, stack, topArray, o);
  }

  // ---- the steps -------------------------------------------------------------------------------------------

  /** Storing a value that is not an open container under a new key of the top container. */
  lemma PutOK(st: Build, root: nat, stack: seq<Member>, topArray: bool, o: nat, k: string, v: Value)
    requires Inv(st, root, stack, topArray) && o == ChainId(root, stack, |stack|)
    requires !Has(st.heap, o, k) && InHeap(st.heap, v) && NotOpen(root, stack, v)
    ensures Inv(Put(st, o, k, v), root, stack, topArray)
    ensures Advances(st, Put(st, o, k, v), o)
  {
    TopNotParent(st, root, stack, topArray, o);
    var h := Put(st, o, k, v).heap;
    ChainStays(st.heap, h, root, stack);
    StoredStays(st.heap, h, root, stack);
    forall x: nat, y: string | Has(h, x, y)
      ensures KeepsHidden(root, stack, topArray, x, y, h[x][y]) && InHeap(h, h[x][y])
    {
      if x != o || y != k {
        assert Has(st.heap, x, y);
        assert KeepsHidden(root, stack, topArray, x, y, st.heap[x][y]) && InHeap(st.heap, st.heap[x][y]);
      }
    }
    assert Closed(h);
  }

  /** A new empty object. */
  lemma AllocOK(st: Build, root: nat, stack: seq<Member>, topArray: bool, o: nat)
    requires Inv(st, root, stack, topArray) && o in st.heap
    ensures Inv(Alloc(st), root, stack, topArray)
    ensures Advances(st, Alloc(st), o)
    ensures NotOpen(root, stack, Obj(st.next)) && InHeap(Alloc(st).heap, Obj(st.next)) && st.next !in RefsIn(st)
  {
    var h := Alloc(st).heap;
    ChainStays(st.heap, h, root, stack);
    assert st.next !in st.heap;
    forall x: nat, y: string | Has(h, x, y)
      ensures KeepsHidden(root, stack, topArray, x, y, h[x][y]) && InHeap(h, h[x][y])
    {
      assert Has(st.heap, x, y);
      assert KeepsHidden(root, stack, topArray, x, y, st.heap[x][y]) && InHeap(st.heap, st.heap[x][y]);
    }
    assert Closed(h);
    StoredStays(st.heap, h, root, stack);
    forall j | 0 <= j <= |stack| ensures Obj(st.next) != Chain(root, stack, j) {
      ChainInHeap(st.heap, root, stack, j);
    }
  }

  lemma RefsOfAppend(ds: seq<DeferredRef>, d: DeferredRef)
    ensures RefsOf(ds + [d]) == RefsOf(ds)[d.placeholder := d.path]
  {
    assert (ds + [d])[..|ds|] == ds;
  }

  /** A new placeholder. */
  lemma DeferOK(st: Build, root: nat, stack: seq<Member>, topArray: bool, o: nat, path: seq<Step>)
    requires Inv(st, root, stack, topArray) && o in st.heap
    ensures Inv(Defer(st, path, o), root, stack, topArray)
    ensures Advances(st, Defer(st, path, o), o)
    ensures NotOpen(root, stack, Obj(st.next)) && InHeap(Defer(st, path, o).heap, Obj(st.next))
    ensures st.next in RefsIn(Defer(st, path, o)) && RefsIn(Defer(st, path, o))[st.next] == path
  {
    AllocOK(st, root, stack, topArray, o);
    var d := DeferredRef(path, st.next, Obj(o), Unresolved, Undefined);
    RefsOfAppend(st.deferred, d);
    RefsOfLists(st.deferred);
    var ds := st.deferred + [d];
    forall i, j | 0 <= i < j < |ds| ensures ds[i].placeholder != ds[j].placeholder {
      if j == |st.deferred| {
        assert ds[i].placeholder in RefsIn(st);
      }
    }
    forall j | 0 <= j <= |stack| ensures !IsPlaceholder(RefsOf(ds), Chain(root, stack, j)) {
      assert Obj(st.next) != Chain(root, stack, j);
    }
  }

  // ---- opening and closing a container ------------------------------------------------------------------------

  lemma DeeperChain(root: nat, stack: seq<Member>, m: Member)
    ensures forall j {:trigger Chain(root, stack + [m], j)} :: 0 <= j <= |stack| ==>
              Chain(root, stack + [m], j) == Chain(root, stack, j)
    ensures Chain(root, stack + [m], |stack| + 1) == m.container
  {
  }

  /** Opening a child: an object is pushed without being stored, an array is stored first. */
  lemma OpenOK(st: Build, root: nat, stack: seq<Member>, topArray: bool, o: nat, m: Member, childArray: bool)
    requires Inv(st, root, stack, topArray) && o == ChainId(root, stack, |stack|)
    requires m.container == Obj(st.next) && m.isArray == topArray && !Has(st.heap, o, MemberProp(m))
    ensures var begun := if childArray then Put(Alloc(st), o, MemberProp(m), m.container) else Alloc(st);
            && Inv(begun, root, stack + [m], childArray)
            && Advances(st, begun, o)
            && begun.heap[st.next] == map[]
  {
    var alloc := Alloc(st);
    TopNotParent(st, root, stack, topArray, o);
    AllocOK(st, root, stack, topArray, o);
    var begun := if childArray then Put(alloc, o, MemberProp(m), m.container) else alloc;
    if childArray {
      PutOK(alloc, root, stack, topArray, o, MemberProp(m), m.container);
      AdvancesCompose(st, alloc, begun, o);
    }
    DeeperOK(begun, root, stack, topArray, o, m, childArray);
    forall x: nat, y: string | Has(begun.heap, x, y)
      ensures KeepsHidden(root, stack + [m], childArray, x, y, begun.heap[x][y])
    {
      OpenedSlot(st, alloc, begun, root, stack, topArray, o, m, childArray, x, y);
    }
  }

  lemma DeeperOK(begun: Build, root: nat, stack: seq<Member>, topArray: bool, o: nat, m: Member, childArray: bool)
    requires StateOK(begun) && ChainOK(begun.heap, root, stack) && StoredOK(begun.heap, root, stack)
    requires forall j {:trigger Chain(root, stack, j)} :: 0 <= j <= |stack| ==>
        !IsPlaceholder(RefsIn(begun), Chain(root, stack, j))
    requires o == ChainId(root, stack, |stack|) && InHeap(begun.heap, m.container)
    requires m.container.Obj? && o < m.container.id && m.container.id !in RefsIn(begun)
    requires Has(begun.heap, o, MemberProp(m)) ==> begun.heap[o][MemberProp(m)] == m.container
    ensures ChainOK(begun.heap, root, stack + [m]) && StoredOK(begun.heap, root, stack + [m])
    ensures forall j {:trigger Chain(root, stack + [m], j)} :: 0 <= j <= |stack| + 1 ==>
              !IsPlaceholder(RefsIn(begun), Chain(root, stack + [m], j))
  {
    var deeper := stack + [m];
    DeeperChain(root, stack, m);
    forall j | 0 <= j < |deeper|
      ensures deeper[j].container.Obj? && ChainId(root, deeper, j) < deeper[j].container.id
      ensures Has(begun.heap, ChainId(root, deeper, j), MemberProp(deeper[j])) ==>
                begun.heap[ChainId(root, deeper, j)][MemberProp(deeper[j])] == deeper[j].container
    {
      assert ChainId(root, deeper, j) == ChainId(root, stack, j);
    }
  }

  lemma OpenedSlot(st: Build, alloc: Build, begun: Build, root: nat, stack: seq<Member>, topArray: bool, o: nat,
                   m: Member, childArray: bool, x: nat, y: string)
    requires HiddenOK(alloc.heap, root, stack, topArray) && Closed(st.heap) && st.next !in st.heap
    requires NotOpen(root, stack, Obj(st.next))
    requires alloc == Alloc(st) && o in st.heap && m.container == Obj(st.next) && m.isArray == topArray
    requires o == ChainId(root, stack, |stack|)
    requires begun == if childArray then Put(alloc, o, MemberProp(m), m.container) else alloc
    requires Has(begun.heap, x, y)
    ensures KeepsHidden(root, stack + [m], childArray, x, y, begun.heap[x][y])
  {
    DeeperChain(root, stack, m);
    var v := begun.heap[x][y];
    if childArray && x == o && y == MemberProp(m) {
      assert v == m.container;
      assert ChainId(root, stack + [m], |stack|) == o;
    } else {
      assert Has(st.heap, x, y) && InHeap(st.heap, v) && v != Obj(st.next);
      assert Has(alloc.heap, x, y) && KeepsHidden(root, stack, topArray, x, y, v);
    }
  }

  /** Closing it again: the object is stored now, the array already was. */
  lemma CloseOK(st: Build, built: Build, root: nat, stack: seq<Member>, topArray: bool, o: nat, m: Member,
                childArray: bool)
    requires Inv(st, root, stack, topArray) && o == ChainId(root, stack, |stack|)
    requires m.container.Obj? && m.isArray == topArray
    requires Inv(built, root, stack + [m], childArray)
    requires if childArray then Has(built.heap, o, MemberProp(m)) && built.heap[o][MemberProp(m)] == m.container
             else !Has(built.heap, o, MemberProp(m))
    ensures var closed := if childArray then built else Put(built, o, MemberProp(m), m.container);
            && Inv(closed, root, stack, topArray)
            && Linked(closed.heap, root, stack) == Linked(built.heap, root, stack + [m])
            && Advances(built, closed, o)
  {
    var deeper := stack + [m];
    DeeperChain(root, stack, m);
    ClosedChain(built, root, stack, topArray, m, childArray);
    TopNotParent(built, root, stack, topArray, o);
    assert deeper[..|stack|] == stack;
    LinkedKeys(built.heap, root, stack);
    assert ChainId(root, deeper, |stack|) == o;
    if childArray {
      LinkedElsewhere(built.heap, root, stack, o);
      assert Linked(built.heap, root, stack)[o] == built.heap[o];
      SetSame(Linked(built.heap, root, stack), o, MemberProp(m), m.container);
    } else {
      forall j | 0 <= j <= |stack| ensures m.container != Chain(root, stack, j) {
        ChainIncreases(built.heap, root, deeper, j, |deeper|);
        assert Chain(root, deeper, j) == Chain(root, stack, j);
        ChainInHeap(built.heap, root, stack, j);
      }
      assert Chain(root, deeper, |deeper|) == m.container;
      PutOK(built, root, stack, topArray, o, MemberProp(m), m.container);
      LinkedSet(built.heap, root, stack, o, MemberProp(m), m.container);
    }
  }

  lemma SetSame(h: Heap, o: nat, k: string, v: Value)
    requires Has(h, o, k) && h[o][k] == v
    ensures Set(h, o, k, v) == h
  {
    assert h[o][k := v] == h[o];
  }

  lemma ClosedChain(built: Build, root: nat, stack: seq<Member>, topArray: bool, m: Member, childArray: bool)
    requires Inv(built, root, stack + [m], childArray) && m.isArray == topArray
    ensures Inv(built, root, stack, topArray)
  {
    var deeper := stack + [m];
    DeeperChain(root, stack, m);
    ChainPrefix(built.heap, root, deeper, |stack|);
    assert deeper[..|stack|] == stack;
    forall j | 0 <= j < |stack|
      ensures Has(built.heap, ChainId(root, stack, j), MemberProp(stack[j])) ==>
                built.heap[ChainId(root, stack, j)][MemberProp(stack[j])] == stack[j].container
    {
      assert ChainId(root, deeper, j) == ChainId(root, stack, j) && deeper[j] == stack[j];
    }
    forall x: nat, y: string | Has(built.heap, x, y)
      ensures KeepsHidden(root, stack, topArray, x, y, built.heap[x][y])
    {
      var v := built.heap[x][y];
      assert KeepsHidden(root, deeper, childArray, x, y, v);
      forall j | 0 <= j <= |stack| && v == Chain(root, stack, j)
        ensures j > 0 && if j < |stack| then stack[j].isArray else topArray
        ensures x == ChainId(root, stack, j - 1) && y == MemberProp(stack[j - 1])
      {
        assert v == Chain(root, deeper, j);
        if j > 0 { assert Chain(root, deeper, j - 1) == Chain(root, stack, j - 1); }
      }
    }
    forall j | 0 <= j <= |stack| ensures !IsPlaceholder(RefsIn(built), Chain(root, stack, j)) {
      assert Chain(root, deeper, j) == Chain(root, stack, j);
    }
  }
}
