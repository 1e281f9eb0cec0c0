/** The main result about a document: built while every step of every reference is known when it is read, then settled,
    it is exactly what its parse tree says. */
module JsoxDocument {
  import opened Options
  import opened JsoxModel
  import opened JsoxRefs
  import opened JsoxReviver
  import opened JsoxDoc
  import opened JsoxChain
  import opened JsoxInvariant
  import opened JsoxMeaning
  import opened JsoxSettle

  // ---- references that are all known -------------------------------------------------------------------------

  /** Reads that allow no forward reference are reads that allow some. */
  lemma {:induction false} KnownIsEnough(st: Build, root: nat, stack: seq<Member>, o: nat, c: Node, i: nat)
    requires c.Container? && i < |c.fields| && ReadsField(st, root, stack, o, c, i, false)
    ensures ReadsField(st, root, stack, o, c, i, true)
    decreases c, i, 0
  {
    var inner := c.fields[i].node;
    if inner.Container? {
      var child := Obj(st.next);
      var begun := if inner.isArray then Put(Alloc(st), o, PropAt(c.fields, i), child) else Alloc(st);
      KnownAreEnough(begun, root, stack + [MemberFor(c.fields, i, child)], st.next, inner, |inner.fields|);
    }
  }

  lemma {:induction false} KnownAreEnough(st: Build, root: nat, stack: seq<Member>, o: nat, c: Node, n: nat)
    requires c.Container? && n <= |c.fields| && ReadsFields(st, root, stack, o, c, n, false)
    ensures ReadsFields(st, root, stack, o, c, n, true)
    decreases c, n, 1
  {
    if n > 0 {
      KnownAreEnough(st, root, stack, o, c, n - 1);
      KnownIsEnough(BuildFields(st, root, stack, o, c, n - 1).value, root, stack, o, c, n - 1);
    }
  }

  /** A field whose references are read well is built. */
  lemma {:induction false} ReadIsBuilt(st: Build, root: nat, stack: seq<Member>, o: nat, c: Node, i: nat)
    requires c.Container? && i < |c.fields| && Ready(st, root, stack, o, c, i)
    requires ReadsField(st, root, stack, o, c, i, true)
    ensures BuildField(st, root, stack, o, c, i).Some?
    decreases c, i, 0
  {
    hide Ready;
    var inner := c.fields[i].node;
    if inner.Reference? && Known(st, root, stack, inner.path) {
      KnownLands(st, root, stack, o, c, i, inner.path);
    }
    if inner.Container? {
      var m := MemberFor(c.fields, i, Obj(st.next));
      var begun := if inner.isArray then Put(Alloc(st), o, PropAt(c.fields, i), Obj(st.next)) else Alloc(st);
      ChildReady(st, begun, root, stack, o, c, i, m);
      ReadsAreBuilt(begun, root, stack + [m], st.next, inner, |inner.fields|);
    }
  }

  lemma {:induction false} ReadsAreBuilt(st: Build, root: nat, stack: seq<Member>, o: nat, c: Node, n: nat)
    requires c.Container? && n <= |c.fields| && Ready(st, root, stack, o, c, 0)
    requires ReadsFields(st, root, stack, o, c, n, true)
    ensures BuildFields(st, root, stack, o, c, n).Some?
    decreases c, n, 1
  {
    if n > 0 {
      var mid := BuildFields(st, root, stack, o, c, n - 1).value;
      StillReady(st, mid, root, stack, o, c, n - 1);
      ReadIsBuilt(mid, root, stack, o, c, n - 1);
    }
  }

  // ---- every deferred reference of these lands on a container --------------------------------------------------

  ghost predicate Lands(h: Heap, refs: Refs, root: Value, p: nat) {
    p in refs
    && var landed := Walk(h, root, refs[p], |refs[p]|);
       landed.Some? && landed.value.Obj? && landed.value.id !in refs
  }

  ghost predicate AllLand(h: Heap, refs: Refs, root: Value) {
    forall p :: p in refs ==> Lands(h, refs, root, p)
  }

  lemma LandsStays(h: Heap, h': Heap, refs: Refs, refs': Refs, root: Value, cur: nat, p: nat)
    requires Closed(h) && InHeap(h, root) && Grew(h, h', cur) && RefsGrew(refs, refs', h) && Lands(h, refs, root, p)
    ensures Lands(h', refs', root, p)
  {
    WalkGrows(h, h', cur, root, refs[p], |refs[p]|);
    WalkInHeap(h, root, refs[p], |refs[p]|);
  }

  ghost predicate LandsNow(st: Build, root: nat, stack: seq<Member>) {
    AllLand(Linked(st.heap, root, stack), RefsIn(st), Obj(root))
  }

  lemma LandsAfter(st: Build, st': Build, root: nat, stack: seq<Member>, topArray: bool, o: nat)
    requires Inv(st, root, stack, topArray) && Inv(st', root, stack, topArray) && o == ChainId(root, stack, |stack|)
    requires Advances(st, st', o) && LandsNow(st, root, stack)
    requires forall p :: p in RefsIn(st') && p !in RefsIn(st) ==>
        Lands(Linked(st'.heap, root, stack), RefsIn(st'), Obj(root), p)
    ensures LandsNow(st', root, stack)
  {
    var h, h' := Linked(st.heap, root, stack), Linked(st'.heap, root, stack);
    TopNotParent(st, root, stack, topArray, o);
    LinkedGrew(st.heap, st'.heap, root, stack, o);
    LinkedClosed(st, root, stack, topArray);
    StoredIsLinked(st, root, stack, topArray, o);
    ChainInHeap(st.heap, root, stack, 0);
    forall p | p in RefsIn(st') ensures Lands(h', RefsIn(st'), Obj(root), p) {
      if p in RefsIn(st) {
        LandsStays(h, h', RefsIn(st), RefsIn(st'), Obj(root), o, p);
      }
    }
  }

  lemma ReferenceLands(st: Build, st': Build, root: nat, stack: seq<Member>, o: nat, c: Node, i: nat)
    requires c.Container? && i < |c.fields| && Ready(st, root, stack, o, c, i) && c.fields[i].node.Reference?
    requires BuildField(st, root, stack, o, c, i) == Some(st') && FieldAchieves(st, st', root, stack, o, c, i)
    requires LandsNow(st, root, stack) && Known(st, root, stack, c.fields[i].node.path)
    ensures LandsNow(st', root, stack)
  {
    hide TreeBuilt, FieldBuilt;
    var path := c.fields[i].node.path;
    var v := KnownWalk(st.heap, root, stack, path, |path|).value;
    KnownLands(st, root, stack, o, c, i, path);
    assert st' == ReadInto(st, root, stack, o, PropAt(c.fields, i), path, v);
    if IsOpen(root, stack, v) {
      RefsOfAppend(st.deferred, DeferredRef(path, st.next, Obj(o), Unresolved, Undefined));
      OpenLands(st, st', root, stack, o, c.isArray, path, v);
    } else {
      assert RefsIn(st') == RefsIn(st);
    }
    LandsAfter(st, st', root, stack, c.isArray, o);
  }

  /** A known path to an open container leads to a container ever after. */
  lemma OpenLands(st: Build, st': Build, root: nat, stack: seq<Member>, o: nat, topArray: bool, path: seq<Step>,
                  v: Value)
    requires Inv(st, root, stack, topArray) && Inv(st', root, stack, topArray) && Advances(st, st', o)
    requires o == ChainId(root, stack, |stack|) && KnownWalk(st.heap, root, stack, path, |path|) == Some(v)
    requires IsOpen(root, stack, v) && st.next in RefsIn(st') && RefsIn(st')[st.next] == path
    ensures Lands(Linked(st'.heap, root, stack), RefsIn(st'), Obj(root), st.next)
  {
    hide StateOK, StoredOK, HiddenOK;
    KnownIsWalk(st.heap, root, stack, path, |path|);
    TopNotParent(st, root, stack, topArray, o);
    LinkedGrew(st.heap, st'.heap, root, stack, o);
    WalkGrows(Linked(st.heap, root, stack), Linked(st'.heap, root, stack), o, Obj(root), path, |path|);
    OpenOrNot(root, stack, v);
    var j :| 0 <= j <= |stack| && v == Chain(root, stack, j);
    ChainInHeap(st'.heap, root, stack, j);
    assert !IsPlaceholder(RefsIn(st'), v);
  }

  lemma {:induction false} FieldLands(st: Build, st': Build, root: nat, stack: seq<Member>, o: nat, c: Node, i: nat)
    requires c.Container? && i < |c.fields| && Ready(st, root, stack, o, c, i)
    requires BuildField(st, root, stack, o, c, i) == Some(st') && ReadsField(st, root, stack, o, c, i, false)
    requires LandsNow(st, root, stack)
    ensures LandsNow(st', root, stack)
    decreases c, i, 1
  {
    hide TreeBuilt, FieldBuilt, Inv, Advances, AllLand;
    KnownIsEnough(st, root, stack, o, c, i);
    FieldOK(st, st', root, stack, o, c, i);
    if c.fields[i].node.Reference? {
      ReferenceLands(st, st', root, stack, o, c, i);
    } else if c.fields[i].node.Container? {
      ContainerLands(st, st', root, stack, o, c, i);
    } else {
      if c.fields[i].node.Hole? { HoleFieldOK(st, root, stack, o, c, i); }
      assert RefsIn(st') == RefsIn(st);
      LandsAfter(st, st', root, stack, c.isArray, o);
    }
  }

  lemma {:induction false} ContainerLands(st: Build, st': Build, root: nat, stack: seq<Member>, o: nat, c: Node, i: nat)
    requires c.Container? && i < |c.fields| && Ready(st, root, stack, o, c, i) && c.fields[i].node.Container?
    requires BuildField(st, root, stack, o, c, i) == Some(st') && ReadsField(st, root, stack, o, c, i, false)
    requires LandsNow(st, root, stack)
    ensures LandsNow(st', root, stack)
    decreases c, i, 0
  {
    hide TreeBuilt, FieldBuilt, Inv, Advances, AllLand;
    var inner, m := c.fields[i].node, MemberFor(c.fields, i, Obj(st.next));
    var deeper := stack + [m];
    var begun := if inner.isArray then Put(Alloc(st), o, PropAt(c.fields, i), Obj(st.next)) else Alloc(st);
    var built := BuildFields(begun, root, deeper, st.next, inner, |inner.fields|).value;
    OpenedReady(st, begun, root, stack, o, c, i, m);
    KnownAreEnough(begun, root, deeper, st.next, inner, |inner.fields|);
    FieldsOK(begun, built, root, deeper, st.next, inner, |inner.fields|);
    ChildCloses(st, begun, built, st', root, stack, o, c, i, m);
    FieldsLand(begun, built, root, deeper, st.next, inner, |inner.fields|);
    assert RefsIn(st') == RefsIn(built);
  }

  lemma OpenedReady(st: Build, begun: Build, root: nat, stack: seq<Member>, o: nat, c: Node, i: nat, m: Member)
    requires c.Container? && i < |c.fields| && Ready(st, root, stack, o, c, i) && c.fields[i].node.Container?
    requires m == MemberFor(c.fields, i, Obj(st.next)) && LandsNow(st, root, stack)
    requires begun ==
             if c.fields[i].node.isArray then Put(Alloc(st), o, PropAt(c.fields, i), Obj(st.next)) else Alloc(st)
    ensures Ready(begun, root, stack + [m], st.next, c.fields[i].node, 0) && Advances(st, begun, o)
    ensures LandsNow(begun, root, stack + [m])
  {
    hide TreeBuilt, FieldBuilt;
    FreshProp(c, i);
    ChildReady(st, begun, root, stack, o, c, i, m);
    OpenedLands(st, begun, root, stack, o, c.isArray, m, c.fields[i].node.isArray);
  }

  lemma OpenedLands(st: Build, begun: Build, root: nat, stack: seq<Member>, o: nat, topArray: bool, m: Member,
                    childArray: bool)
    requires Inv(st, root, stack, topArray) && o == ChainId(root, stack, |stack|) && !Has(st.heap, o, MemberProp(m))
    requires Advances(st, begun, o) && Inv(begun, root, stack + [m], childArray) && m.isArray == topArray
    requires RefsIn(begun) == RefsIn(st) && LandsNow(st, root, stack)
    ensures LandsNow(begun, root, stack + [m])
  {
    var deeper := stack + [m];
    var h, mid, h' := Linked(st.heap, root, stack), Linked(begun.heap, root, stack), Linked(begun.heap, root, deeper);
    TopNotParent(st, root, stack, topArray, o);
    ClosedChain(begun, root, stack, topArray, m, childArray);
    LinkedGrew(st.heap, begun.heap, root, stack, o);
    DeeperChain(root, stack, m);
    assert deeper[..|stack|] == stack;
    assert h' == Set(mid, o, MemberProp(m), m.container);
    StoredIsLinked(st, root, stack, topArray, o);
    LinkedClosed(st, root, stack, topArray);
    ChainInHeap(st.heap, root, stack, 0);
    LinkGrew(h, mid, h', o, MemberProp(m), m.container);
    forall p | p in RefsIn(begun) ensures Lands(h', RefsIn(begun), Obj(root), p) {
      assert Lands(h, RefsIn(st), Obj(root), p);
      LandsStays(h, h', RefsIn(st), RefsIn(begun), Obj(root), o, p);
    }
  }

  lemma LinkGrew(h: Heap, mid: Heap, h': Heap, o: nat, k: string, v: Value)
    requires Grew(h, mid, o) && h' == Set(mid, o, k, v) && !Has(h, o, k)
    ensures Grew(h, h', o)
  {
    forall y | Has(h, o, y) ensures Has(h', o, y) && h'[o][y] == h[o][y] {
      assert Has(mid, o, y);
    }
  }

  lemma {:induction false} FieldsLand(st: Build, st': Build, root: nat, stack: seq<Member>, o: nat, c: Node, n: nat)
    requires c.Container? && n <= |c.fields| && Ready(st, root, stack, o, c, 0)
    requires BuildFields(st, root, stack, o, c, n) == Some(st') && ReadsFields(st, root, stack, o, c, n, false)
    requires LandsNow(st, root, stack)
    ensures LandsNow(st', root, stack)
    decreases c, n, 2
  {
    hide TreeBuilt, FieldBuilt, Inv, Advances, AllLand;
    if n > 0 {
      var mid := BuildFields(st, root, stack, o, c, n - 1).value;
      FieldsLand(st, mid, root, stack, o, c, n - 1);
      KnownAreEnough(st, root, stack, o, c, n - 1);
      FieldsOK(st, mid, root, stack, o, c, n - 1);
      FieldLands(mid, st', root, stack, o, c, n - 1);
    }
  }

  // ---- from the built document to the settled one ---------------------------------------------------------------

  ghost function BuiltDocument(st: Build): Document {
    Document(st.heap, RefsIn(st), Obj(0))
  }

  ghost predicate EmptyPlaceholders(doc: Document) {
    forall p :: p in doc.refs ==> p in doc.heap && doc.heap[p] == map[]
  }

  /** A walk that meets no placeholder on its way needs nothing resolved first. */
  lemma {:induction false} WalkIsSteps(doc: Document, path: seq<Step>, n: nat)
    requires EmptyPlaceholders(doc) && !IsPlaceholder(doc.refs, doc.root)
    requires n <= |path| && Walk(doc.heap, doc.root, path, n).Some?
    requires !IsPlaceholder(doc.refs, Walk(doc.heap, doc.root, path, n).value)
    ensures Steps(doc, 0, path, n) == Walk(doc.heap, doc.root, path, n)
  {
    if n > 0 {
      var v := Walk(doc.heap, doc.root, path, n - 1).value;
      assert Has(doc.heap, v.id, Prop(path[n - 1]));
      WalkIsSteps(doc, path, n - 1);
    }
  }

  lemma LandedResolves(doc: Document, p: nat)
    requires EmptyPlaceholders(doc) && !IsPlaceholder(doc.refs, doc.root) && Lands(doc.heap, doc.refs, doc.root, p)
    ensures Derives(doc, p, Walk(doc.heap, doc.root, doc.refs[p], |doc.refs[p]|).value)
  {
    WalkIsSteps(doc, doc.refs[p], |doc.refs[p]|);
    assert Eval(doc, 1, p) == Some(Walk(doc.heap, doc.root, doc.refs[p], |doc.refs[p]|).value);
  }

  ghost predicate Settling(doc: Document, sigma: Subst, visited: set<nat>) {
    && WellFormed(doc) && EmptyPlaceholders(doc) && !IsPlaceholder(doc.refs, doc.root) && Resolves(doc, sigma)
    && Reached(doc) <= visited
  }

  lemma {:induction false} WalkReached(doc: Document, path: seq<Step>, n: nat)
    requires WellFormed(doc) && EmptyPlaceholders(doc) && !IsPlaceholder(doc.refs, doc.root)
    requires n <= |path| && Walk(doc.heap, doc.root, path, n).Some?
    ensures var v := Walk(doc.heap, doc.root, path, n).value;
            v.Obj? && v.id !in doc.refs ==> v.id in Reached(doc)
  {
    var v := Walk(doc.heap, doc.root, path, n).value;
    if n == 0 {
      if v.Obj? { ReachStart(doc.heap, doc.refs.Keys, RootSet(doc.root), v.id); }
    } else {
      WalkReached(doc, path, n - 1);
      var u := Walk(doc.heap, doc.root, path, n - 1).value;
      assert Has(doc.heap, u.id, Prop(path[n - 1]));
      if v.Obj? && v.id !in doc.refs {
        assert Edge(doc.heap, doc.refs.Keys, u.id, v.id);
        ReachStep(doc.heap, doc.refs.Keys, RootSet(doc.root), u.id, v.id);
      }
    }
  }

  /** Where a walk led while references were pending, it leads after settling, placeholders replaced. */
  lemma {:induction false} WalkSettles(doc: Document, sigma: Subst, visited: set<nat>, path: seq<Step>, n: nat)
    requires Settling(doc, sigma, visited) && n <= |path| && Walk(doc.heap, doc.root, path, n).Some?
    ensures Walk(Rewrite(doc.heap, visited, sigma), doc.root, path, n)
            == Some(Image(sigma, Walk(doc.heap, doc.root, path, n).value))
  {
    if n > 0 {
      WalkSettles(doc, sigma, visited, path, n - 1);
      WalkReached(doc, path, n - 1);
      var u := Walk(doc.heap, doc.root, path, n - 1).value;
      assert Has(doc.heap, u.id, Prop(path[n - 1]));
    }
  }

  /** A reference slot, deferred or not, ends up holding exactly the value its path names in the finished document. */
  lemma ReferenceSettles(doc: Document, sigma: Subst, visited: set<nat>, path: seq<Step>, slot: Value)
    requires Settling(doc, sigma, visited) && ReferenceBuilt(path, slot, doc.heap, doc.refs, doc.root)
    ensures ValueAt(Rewrite(doc.heap, visited, sigma), doc.root, path) == Some(Image(sigma, slot))
  {
    if IsPlaceholder(doc.refs, slot) && doc.refs[slot.id] == path {
      ResolvedIsValueAt(doc, sigma, visited, slot.id);
    } else {
      WalkSettles(doc, sigma, visited, path, |path|);
      if IsPlaceholder(doc.refs, slot) { DerivesFinal(doc, slot.id, sigma[slot.id]); }
    }
  }

  lemma {:induction false} FieldSettles(doc: Document, sigma: Subst, visited: set<nat>, c: Node, i: nat, o: nat)
    requires Settling(doc, sigma, visited) && o in Reached(doc)
    requires c.Container? && i < |c.fields| && FieldBuilt(c, i, o, doc.heap, doc.refs, doc.root)
    ensures FieldMeans(c, i, o, Rewrite(doc.heap, visited, sigma), doc.root)
    decreases c, 0
  {
    var k, node := PropAt(c.fields, i), c.fields[i].node;
    if node.Reference? {
      ReferenceSettles(doc, sigma, visited, node.path, doc.heap[o][k]);
    }
    if node.Container? {
      var child := doc.heap[o][k].id;
      assert Edge(doc.heap, doc.refs.Keys, o, child) by { assert Has(doc.heap, o, k); }
      ReachStep(doc.heap, doc.refs.Keys, RootSet(doc.root), o, child);
      TreeSettles(doc, sigma, visited, node, child);
    }
  }

  lemma {:induction false} TreeSettles(doc: Document, sigma: Subst, visited: set<nat>, c: Node, o: nat)
    requires Settling(doc, sigma, visited) && o in Reached(doc)
    requires c.Container? && TreeBuilt(c, o, doc.heap, doc.refs, doc.root)
    ensures TreeMeans(c, o, Rewrite(doc.heap, visited, sigma), doc.root)
    decreases c, 1
  {
    forall i | 0 <= i < |c.fields| ensures FieldMeans(c, i, o, Rewrite(doc.heap, visited, sigma), doc.root) {
      FieldSettles(doc, sigma, visited, c, i, o);
    }
  }

  lemma BuildStarts(c: Node)
    requires c.Container? && WellFormedTree(c)
    ensures Ready(Build(map[0 := map[]], 1, []), 0, [], 0, c, 0) && LandsNow(Build(map[0 := map[]], 1, []), 0, [])
  {
    PropsEmpty(c);
  }

  const EMPTY_ROOT := Build(map[0 := map[]], 1, [])

  /** Main result.  Say every reference of a document is known when it is read -- its path exists in the document so
      far -- or is deferred, as its walk ends on a container still open.  Then the document builds; it converts if
      and only if all deferred references have a meaning; and the settled document means exactly its parse tree:
      nothing is lost, added or swapped, and each reference slot, read eagerly or deferred, holds the value at its
      path in the final document. */
  lemma DocumentMeansItsTree(c: Node) returns (st: Build)
    requires c.Container? && WellFormedTree(c) && ReadsDocument(c, true)
    ensures BuildDocument(c) == Some(st)
    ensures Distinct(st.deferred) && Fresh(st.deferred) && OwnersIn(st.heap, st.deferred)
    ensures WellFormed(BuiltDocument(st))
    ensures AllResolvable(BuiltDocument(st)) ==>
              TreeMeans(c, 0, Settled(BuiltDocument(st), StartSet(Obj(0), st.deferred)), Obj(0))
  {
    BuildStarts(c);
    ReadsAreBuilt(EMPTY_ROOT, 0, [], 0, c, |c.fields|);
    st := BuildDocument(c).value;
    FieldsOK(EMPTY_ROOT, st, 0, [], 0, c, |c.fields|);
    var doc, from := BuiltDocument(st), StartSet(Obj(0), st.deferred);
    assert Chain(0, [], 0) == Obj(0);
    assert Linked(st.heap, 0, []) == st.heap;
    if AllResolvable(doc) {
      ReachedWithin(doc, from);
      ReachStart(doc.heap, doc.refs.Keys, RootSet(doc.root), 0);
      TreeSettles(doc, SigmaOf(doc), ReachSet(doc.heap, doc.refs.Keys, from), c, 0);
    }
  }

  /** When every reference is known, they all have a meaning, so that the document does convert. */
  lemma KnownReferencesResolve(c: Node)
    requires c.Container? && WellFormedTree(c) && ReadsDocument(c, false)
    ensures ReadsDocument(c, true) && BuildDocument(c).Some? && AllResolvable(BuiltDocument(BuildDocument(c).value))
  {
    BuildStarts(c);
    KnownAreEnough(EMPTY_ROOT, 0, [], 0, c, |c.fields|);
    ReadsAreBuilt(EMPTY_ROOT, 0, [], 0, c, |c.fields|);
    var st := BuildDocument(c).value;
    FieldsOK(EMPTY_ROOT, st, 0, [], 0, c, |c.fields|);
    FieldsLand(EMPTY_ROOT, st, 0, [], 0, c, |c.fields|);
    var doc := BuiltDocument(st);
    assert Chain(0, [], 0) == Obj(0);
    forall p | p in doc.refs ensures Resolvable(doc, p) {
      assert Lands(doc.heap, doc.refs, doc.root, p);
      LandedResolves(doc, p);
    }
  }
}
