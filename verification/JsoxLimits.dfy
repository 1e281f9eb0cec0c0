/** Documents at the edge of the main result: where a reference gets its value wrong without an error, where it is
    deferred though its path does not exist yet, where it fails though its path exists, and where a wrong way ends
    right. */
module JsoxLimits {
  import opened Options
  import opened JsoxModel
  import opened JsoxRefs
  import opened JsoxReviver
  import opened JsoxSettle
  import opened JsoxDoc
  import opened JsoxChain
  import opened JsoxInvariant
  import opened JsoxMeaning
  import opened JsoxDocument
  import opened JsoxBuild

  function Object(fields: seq<Field>): Node {
    Container(false, false, fields)
  }

  function Member1(name: string, node: Node): Field {
    Field(Some(name), node)
  }

  const ONE := Scalar(1, false)

  ghost function Finished(st: Build): Heap
    requires AllResolvable(BuiltDocument(st))
  {
    Settled(BuiltDocument(st), StartSet(Obj(0), st.deferred))
  }

  /** Nothing deferred, nothing to settle. */
  lemma NothingDeferred(st: Build)
    requires st.deferred == []
    ensures AllResolvable(BuiltDocument(st)) && Finished(st) == st.heap
  {
    var doc := BuiltDocument(st);
    assert doc.refs == map[];
    assert SigmaOf(doc) == map[];
    RewriteByNothing(st.heap, ReachSet(doc.heap, doc.refs.Keys, StartSet(Obj(0), st.deferred)));
  }

  /** Building an object-valued field, given what building the object in it gives. */
  lemma ObjectField(st: Build, stack: seq<Member>, o: nat, c: Node, i: nat, deeper: seq<Member>, built: Build)
    requires c.Container? && i < |c.fields| && c.fields[i].node.Container? && !c.fields[i].node.isArray
    requires deeper == stack + [MemberFor(c.fields, i, Obj(st.next))]
    requires BuildFields(Alloc(st), 0, deeper, st.next, c.fields[i].node, |c.fields[i].node.fields|) == Some(built)
    ensures BuildField(st, 0, stack, o, c, i) == Some(Put(built, o, PropAt(c.fields, i), Obj(st.next)))
  {
    ContainerSpec(st, 0, stack, o, c, i);
  }

  /** Building one more field. */
  lemma OneMore(st: Build, stack: seq<Member>, o: nat, c: Node, n: nat, mid: Build, st': Build)
    requires c.Container? && n < |c.fields| && BuildFields(st, 0, stack, o, c, n) == Some(mid)
    requires BuildField(mid, 0, stack, o, c, n) == Some(st')
    ensures BuildFields(st, 0, stack, o, c, n + 1) == Some(st')
  {
  }

  /** An object that holds a field that is not read well is not. */
  lemma BadlyRead(st: Build, stack: seq<Member>, o: nat, c: Node, n: nat, mid: Build, forward: bool)
    requires c.Container? && n + 1 == |c.fields| && BuildFields(st, 0, stack, o, c, n) == Some(mid)
    requires !ReadsField(mid, 0, stack, o, c, n, forward)
    ensures !ReadsFields(st, 0, stack, o, c, |c.fields|, forward)
  {
  }

  // ---- a missing name falls back to the container being filled -----------------------------------------------

  const FALLBACK_PATH := [Name("a"), Name("x"), Name("k")]
  const FALLBACK_INNER := Object([Member1("k", ONE), Member1("c", Reference(FALLBACK_PATH))])

  /** `{a:{}, b:{k:1, c:ref["a","x","k"]}}` */
  const FALLBACK := Object([Member1("a", Object([])), Member1("b", FALLBACK_INNER)])

  const FALLBACK_MID := Put(Alloc(EMPTY_ROOT), 0, "a", Obj(1))
  const FALLBACK_READ := Put(Alloc(FALLBACK_MID), 2, "k", Prim(1))
  const FALLBACK_INNER_BUILT := Put(FALLBACK_READ, 2, "c", Prim(1))
  const FALLBACK_BUILT := Put(FALLBACK_INNER_BUILT, 0, "b", Obj(2))

  lemma FallbackWalk()
    ensures var stack := [Member(Obj(2), false, 0, "b")];
            && EagerWalk(FALLBACK_READ.heap, 0, stack, Obj(2), FALLBACK_PATH, 3) == At(2, Prim(1), true)
            && KnownWalk(FALLBACK_READ.heap, 0, stack, FALLBACK_PATH, 3).None?
  {
    var h, stack := FALLBACK_READ.heap, [Member(Obj(2), false, 0, "b")];
    assert EagerWalk(h, 0, stack, Obj(2), FALLBACK_PATH, 0) == At(0, Obj(0), false);
    assert EagerWalk(h, 0, stack, Obj(2), FALLBACK_PATH, 1) == At(1, Obj(1), true);
    assert EagerWalk(h, 0, stack, Obj(2), FALLBACK_PATH, 2) == At(2, Obj(2), false);
    assert KnownWalk(h, 0, stack, FALLBACK_PATH, 1) == Some(Obj(1));
    assert KnownWalk(h, 0, stack, FALLBACK_PATH, 2).None?;
  }

  lemma FallbackInner()
    ensures var stack := [Member(Obj(2), false, 0, "b")];
            && BuildFields(Alloc(FALLBACK_MID), 0, stack, 2, FALLBACK_INNER, 1) == Some(FALLBACK_READ)
            && BuildFields(Alloc(FALLBACK_MID), 0, stack, 2, FALLBACK_INNER, 2)
               == Some(FALLBACK_INNER_BUILT)
            && !ReadsField(FALLBACK_READ, 0, stack, 2, FALLBACK_INNER, 1, true)
  {
    var stack := [Member(Obj(2), false, 0, "b")];
    FallbackWalk();
    hide EagerWalk, KnownWalk;
    assert BuildFields(Alloc(FALLBACK_MID), 0, stack, 2, FALLBACK_INNER, 0) == Some(Alloc(FALLBACK_MID));
    OneMore(Alloc(FALLBACK_MID), stack, 2, FALLBACK_INNER, 0, Alloc(FALLBACK_MID), FALLBACK_READ);
    OneMore(Alloc(FALLBACK_MID), stack, 2, FALLBACK_INNER, 1, FALLBACK_READ, FALLBACK_INNER_BUILT);
  }

  lemma FallbackBuilds()
    ensures BuildFields(EMPTY_ROOT, 0, [], 0, FALLBACK, 1) == Some(FALLBACK_MID)
    ensures BuildDocument(FALLBACK) == Some(FALLBACK_BUILT) && !ReadsDocument(FALLBACK, true)
  {
    var first, second := [Member(Obj(1), false, 0, "a")], [Member(Obj(2), false, 0, "b")];
    FallbackInner();
    hide EagerWalk, KnownWalk, ReadsFields;
    assert BuildFields(Alloc(EMPTY_ROOT), 0, first, 1, Object([]), 0) == Some(Alloc(EMPTY_ROOT));
    ObjectField(EMPTY_ROOT, [], 0, FALLBACK, 0, first, Alloc(EMPTY_ROOT));
    OneMore(EMPTY_ROOT, [], 0, FALLBACK, 0, EMPTY_ROOT, FALLBACK_MID);
    ObjectField(FALLBACK_MID, [], 0, FALLBACK, 1, second, FALLBACK_INNER_BUILT);
    OneMore(EMPTY_ROOT, [], 0, FALLBACK, 1, FALLBACK_MID, FALLBACK_BUILT);
    BadlyRead(Alloc(FALLBACK_MID), second, 2, FALLBACK_INNER, 1, FALLBACK_READ, true);
    assert [] + second == second;
    BadlyRead(EMPTY_ROOT, [], 0, FALLBACK, 1, FALLBACK_MID, true);
  }

  lemma FallbackWellFormed()
    ensures WellFormedTree(FALLBACK) && Untagged(FALLBACK)
  {
    assert WellFormedTree(FALLBACK_INNER) && Untagged(FALLBACK_INNER);
  }

  lemma FallbackSlot()
    ensures var h := FALLBACK_BUILT.heap;
            && Get(h, 2, "c") == Prim(1) && ValueAt(h, Obj(0), FALLBACK_PATH).None?
            && !TreeMeans(FALLBACK, 0, h, Obj(0))
  {
    var h := FALLBACK_BUILT.heap;
    assert h[0]["a"] == Obj(1) && h[1] == map[] && h[0]["b"] == Obj(2);
    assert Walk(h, Obj(0), FALLBACK_PATH, 1) == Some(Obj(1));
    assert Walk(h, Obj(0), FALLBACK_PATH, 2).None?;
    assert !FieldMeans(FALLBACK_INNER, 1, 2, h, Obj(0));
    assert !FieldMeans(FALLBACK, 1, 0, h, Obj(0));
  }

  /** It converts, and `c` is 1, while there is nothing at its path: `a` has no `x`, so the walk went on in `b`. */
  lemma FallbackReadsTheWrongObject()
    ensures WellFormedTree(FALLBACK) && Untagged(FALLBACK) && !ReadsDocument(FALLBACK, true)
    ensures BuildDocument(FALLBACK).Some?
    ensures var st := BuildDocument(FALLBACK).value;
            && AllResolvable(BuiltDocument(st))
            && Get(Finished(st), 2, "c") == Prim(1) && ValueAt(Finished(st), Obj(0), FALLBACK_PATH).None?
            && !TreeMeans(FALLBACK, 0, Finished(st), Obj(0))
  {
    FallbackWellFormed();
    hide BuildDocument, ReadsDocument, TreeMeans, ValueAt, WellFormedTree, Untagged;
    FallbackBuilds();
    NothingDeferred(FALLBACK_BUILT);
    FallbackSlot();
  }

  // ---- a number finds a named member -------------------------------------------------------------------------

  const NUMBER_PATH := [Index(0), Name("k")]
  const NUMBER_INNER := Object([Member1("k", ONE), Member1("x", Reference(NUMBER_PATH))])

  /** `{foo:{k:1, x:ref[0,"k"]}}` */
  const NUMBER := Object([Member1("foo", NUMBER_INNER)])

  const NUMBER_READ := Put(Alloc(EMPTY_ROOT), 1, "k", Prim(1))
  const NUMBER_INNER_BUILT := Put(NUMBER_READ, 1, "x", Prim(1))
  const NUMBER_BUILT := Put(NUMBER_INNER_BUILT, 0, "foo", Obj(1))

  lemma NumberWalk()
    ensures var h, stack := NUMBER_READ.heap, [Member(Obj(1), false, 0, "foo")];
            && EagerWalk(h, 0, stack, Obj(1), NUMBER_PATH, 2) == At(1, Prim(1), true)
            && KnownWalk(h, 0, stack, NUMBER_PATH, 2).None?
  {
    var h, stack := NUMBER_READ.heap, [Member(Obj(1), false, 0, "foo")];
    assert EagerWalk(h, 0, stack, Obj(1), NUMBER_PATH, 0) == At(0, Obj(0), false);
    assert EagerWalk(h, 0, stack, Obj(1), NUMBER_PATH, 1) == At(1, Obj(1), false);
    assert KnownWalk(h, 0, stack, NUMBER_PATH, 1).None?;
  }

  lemma NumberBuilds()
    ensures BuildDocument(NUMBER) == Some(NUMBER_BUILT) && !ReadsDocument(NUMBER, true)
  {
    var stack := [Member(Obj(1), false, 0, "foo")];
    NumberWalk();
    hide EagerWalk, KnownWalk, ReadsFields;
    var begun := Alloc(EMPTY_ROOT);
    assert BuildFields(begun, 0, stack, 1, NUMBER_INNER, 0) == Some(begun);
    OneMore(begun, stack, 1, NUMBER_INNER, 0, begun, NUMBER_READ);
    OneMore(begun, stack, 1, NUMBER_INNER, 1, NUMBER_READ, NUMBER_INNER_BUILT);
    ObjectField(EMPTY_ROOT, [], 0, NUMBER, 0, stack, NUMBER_INNER_BUILT);
    OneMore(EMPTY_ROOT, [], 0, NUMBER, 0, EMPTY_ROOT, NUMBER_BUILT);
    BadlyRead(begun, stack, 1, NUMBER_INNER, 1, NUMBER_READ, true);
    assert [] + stack == stack;
    BadlyRead(EMPTY_ROOT, [], 0, NUMBER, 0, EMPTY_ROOT, true);
  }

  lemma NumberSlot()
    ensures var h := NUMBER_BUILT.heap;
            && Get(h, 1, "x") == Prim(1) && ValueAt(h, Obj(0), NUMBER_PATH).None?
            && !TreeMeans(NUMBER, 0, h, Obj(0))
  {
    var h := NUMBER_BUILT.heap;
    assert Decimal(0) == "0" != "foo" && h[0] == map["foo" := Obj(1)];
    assert Walk(h, Obj(0), NUMBER_PATH, 1).None?;
    assert !FieldMeans(NUMBER_INNER, 1, 1, h, Obj(0));
    assert !FieldMeans(NUMBER, 0, 0, h, Obj(0));
  }

  /** It converts, and `x` is 1, while the root has no element 0: a named member of the stack starts out with index
      0, so the walk took `foo` for it. */
  lemma IndexZeroMatchesANamedMember()
    ensures WellFormedTree(NUMBER) && Untagged(NUMBER) && !ReadsDocument(NUMBER, true)
    ensures BuildDocument(NUMBER).Some?
    ensures var st := BuildDocument(NUMBER).value;
            && AllResolvable(BuiltDocument(st))
            && Get(Finished(st), 1, "x") == Prim(1) && ValueAt(Finished(st), Obj(0), NUMBER_PATH).None?
            && !TreeMeans(NUMBER, 0, Finished(st), Obj(0))
  {
    assert WellFormedTree(NUMBER_INNER) && Untagged(NUMBER_INNER);
    hide BuildDocument, ReadsDocument, TreeMeans, ValueAt;
    NumberBuilds();
    NothingDeferred(NUMBER_BUILT);
    NumberSlot();
  }

  // ---- a wrong way that ends right ---------------------------------------------------------------------------

  const LUCKY_PATH := [Name("x"), Name("b"), Name("c")]
  const LUCKY_B := Object([Member1("c", ONE)])
  const LUCKY_X := Object([Member1("c", ONE), Member1("a", Reference(LUCKY_PATH)), Member1("b", LUCKY_B)])

  /** `{x:{c:1, a:ref["x","b","c"], b:{c:1}}}` */
  const LUCKY := Object([Member1("x", LUCKY_X)])

  const LUCKY_READ := Put(Alloc(EMPTY_ROOT), 1, "c", Prim(1))
  const LUCKY_STORED := Put(LUCKY_READ, 1, "a", Prim(1))
  const LUCKY_B_BUILT := Put(Alloc(LUCKY_STORED), 2, "c", Prim(1))
  const LUCKY_X_BUILT := Put(LUCKY_B_BUILT, 1, "b", Obj(2))
  const LUCKY_BUILT := Put(LUCKY_X_BUILT, 0, "x", Obj(1))

  lemma LuckyWalk()
    ensures var h, stack := LUCKY_READ.heap, [Member(Obj(1), false, 0, "x")];
            && EagerWalk(h, 0, stack, Obj(1), LUCKY_PATH, 3) == At(1, Prim(1), true)
            && KnownWalk(h, 0, stack, LUCKY_PATH, 3).None?
  {
    var h, stack := LUCKY_READ.heap, [Member(Obj(1), false, 0, "x")];
    assert EagerWalk(h, 0, stack, Obj(1), LUCKY_PATH, 0) == At(0, Obj(0), false);
    assert EagerWalk(h, 0, stack, Obj(1), LUCKY_PATH, 1) == At(1, Obj(1), false);
    assert EagerWalk(h, 0, stack, Obj(1), LUCKY_PATH, 2) == At(1, Obj(1), false);
    assert KnownWalk(h, 0, stack, LUCKY_PATH, 1) == Some(Obj(1));
    assert KnownWalk(h, 0, stack, LUCKY_PATH, 2).None?;
  }

  lemma LuckyXBuilds()
    ensures var stack, begun := [Member(Obj(1), false, 0, "x")], Alloc(EMPTY_ROOT);
            && BuildFields(begun, 0, stack, 1, LUCKY_X, 3) == Some(LUCKY_X_BUILT)
            && !ReadsFields(begun, 0, stack, 1, LUCKY_X, 3, true)
  {
    var stack, begun := [Member(Obj(1), false, 0, "x")], Alloc(EMPTY_ROOT);
    var deeper := stack + [Member(Obj(2), false, 0, "b")];
    LuckyWalk();
    hide EagerWalk, KnownWalk;
    assert BuildFields(begun, 0, stack, 1, LUCKY_X, 0) == Some(begun);
    OneMore(begun, stack, 1, LUCKY_X, 0, begun, LUCKY_READ);
    OneMore(begun, stack, 1, LUCKY_X, 1, LUCKY_READ, LUCKY_STORED);
    assert BuildFields(Alloc(LUCKY_STORED), 0, deeper, 2, LUCKY_B, 0) == Some(Alloc(LUCKY_STORED));
    OneMore(Alloc(LUCKY_STORED), deeper, 2, LUCKY_B, 0, Alloc(LUCKY_STORED), LUCKY_B_BUILT);
    ObjectField(LUCKY_STORED, stack, 1, LUCKY_X, 2, deeper, LUCKY_B_BUILT);
    OneMore(begun, stack, 1, LUCKY_X, 2, LUCKY_STORED, LUCKY_X_BUILT);
    assert !ReadsField(LUCKY_READ, 0, stack, 1, LUCKY_X, 1, true);
    assert !ReadsFields(begun, 0, stack, 1, LUCKY_X, 2, true);
  }

  lemma LuckyBuilds()
    ensures BuildDocument(LUCKY) == Some(LUCKY_BUILT) && !ReadsDocument(LUCKY, true)
  {
    var stack := [Member(Obj(1), false, 0, "x")];
    LuckyXBuilds();
    hide EagerWalk, KnownWalk, ReadsFields;
    ObjectField(EMPTY_ROOT, [], 0, LUCKY, 0, stack, LUCKY_X_BUILT);
    OneMore(EMPTY_ROOT, [], 0, LUCKY, 0, EMPTY_ROOT, LUCKY_BUILT);
    assert [] + stack == stack;
    BadlyRead(EMPTY_ROOT, [], 0, LUCKY, 0, EMPTY_ROOT, true);
  }

  lemma LuckyHeap()
    ensures var h := LUCKY_BUILT.heap;
            && h == map[0 := map["x" := Obj(1)], 1 := map["c" := Prim(1), "a" := Prim(1), "b" := Obj(2)],
                        2 := map["c" := Prim(1)]]
            && ValueAt(h, Obj(0), LUCKY_PATH) == Some(Prim(1))
  {
    var h := LUCKY_BUILT.heap;
    assert h[0] == map["x" := Obj(1)] && h[1] == map["c" := Prim(1), "a" := Prim(1), "b" := Obj(2)];
    assert h[2] == map["c" := Prim(1)];
    assert Walk(h, Obj(0), LUCKY_PATH, 1) == Some(Obj(1));
    assert Walk(h, Obj(0), LUCKY_PATH, 2) == Some(Obj(2));
  }

  lemma LuckyX(h: Heap)
    requires Has(h, 1, "c") && h[1] == map["c" := Prim(1), "a" := Prim(1), "b" := Obj(2)]
    requires 2 in h && h[2] == map["c" := Prim(1)] && ValueAt(h, Obj(0), LUCKY_PATH) == Some(Prim(1))
    ensures TreeMeans(LUCKY_X, 1, h, Obj(0))
  {
    PropsNext(LUCKY_B, 0);
    assert FieldMeans(LUCKY_B, 0, 2, h, Obj(0));
    assert TreeMeans(LUCKY_B, 2, h, Obj(0));
    PropsNext(LUCKY_X, 0);
    PropsNext(LUCKY_X, 1);
    PropsNext(LUCKY_X, 2);
    hide PropsTo, ValueAt;
    assert FieldMeans(LUCKY_X, 0, 1, h, Obj(0)) && FieldMeans(LUCKY_X, 1, 1, h, Obj(0))
           && FieldMeans(LUCKY_X, 2, 1, h, Obj(0));
  }

  lemma LuckySlots()
    ensures TreeMeans(LUCKY, 0, LUCKY_BUILT.heap, Obj(0))
  {
    LuckyHeap();
    LuckyX(LUCKY_BUILT.heap);
    PropsNext(LUCKY, 0);
    hide ValueAt;
    assert FieldMeans(LUCKY, 0, 0, LUCKY_BUILT.heap, Obj(0));
  }

  /** The walk for `a` finds no `b` in `x` and goes on in `x` itself, whose `c` is 1 like that of the `b` still to
      come: the reference is not read well, and the document converts to what it says all the same. */
  lemma WrongWayEndsRight()
    ensures WellFormedTree(LUCKY) && Untagged(LUCKY) && !ReadsDocument(LUCKY, true)
    ensures BuildDocument(LUCKY).Some?
    ensures var st := BuildDocument(LUCKY).value;
            AllResolvable(BuiltDocument(st)) && TreeMeans(LUCKY, 0, Finished(st), Obj(0))
  {
    assert WellFormedTree(LUCKY_B) && Untagged(LUCKY_B);
    assert WellFormedTree(LUCKY_X) && Untagged(LUCKY_X);
    hide BuildDocument, ReadsDocument, TreeMeans;
    LuckyBuilds();
    NothingDeferred(LUCKY_BUILT);
    LuckySlots();
  }

  // ---- forward references ------------------------------------------------------------------------------------

  /** `{a:ref["b"], b:5}` */
  const FORWARD := Object([Member1("a", Reference([Name("b")])), Member1("b", Scalar(5, false))])

  const DEFERRED := Put(Defer(EMPTY_ROOT, [Name("b")], 0), 0, "a", Obj(1))
  const FORWARD_BUILT := Put(DEFERRED, 0, "b", Prim(5))

  lemma ForwardField(c: Node)
    requires c.Container? && |c.fields| > 0 && c.fields[0] == Member1("a", Reference([Name("b")]))
    ensures EndsOpen(EMPTY_ROOT, 0, [], 0, [Name("b")]) && !Known(EMPTY_ROOT, 0, [], [Name("b")])
    ensures BuildFields(EMPTY_ROOT, 0, [], 0, c, 1) == Some(DEFERRED)
  {
    var h := EMPTY_ROOT.heap;
    assert EagerWalk(h, 0, [], Obj(0), [Name("b")], 0) == At(0, Obj(0), false);
    assert EagerWalk(h, 0, [], Obj(0), [Name("b")], 1) == At(0, Obj(0), false);
    assert KnownWalk(h, 0, [], [Name("b")], 0) == Some(Obj(0));
    assert BuildFields(EMPTY_ROOT, 0, [], 0, c, 0) == Some(EMPTY_ROOT);
    OneMore(EMPTY_ROOT, [], 0, c, 0, EMPTY_ROOT, DEFERRED);
  }

  lemma ForwardBuilds()
    ensures BuildDocument(FORWARD) == Some(FORWARD_BUILT)
    ensures ReadsDocument(FORWARD, true) && !ReadsDocument(FORWARD, false)
  {
    ForwardField(FORWARD);
    hide EagerWalk, KnownWalk, Known, EndsOpen;
    OneMore(EMPTY_ROOT, [], 0, FORWARD, 1, DEFERRED, FORWARD_BUILT);
    assert ReadsFields(EMPTY_ROOT, 0, [], 0, FORWARD, 0, true);
    assert ReadsFields(EMPTY_ROOT, 0, [], 0, FORWARD, 1, true);
    assert !ReadsFields(EMPTY_ROOT, 0, [], 0, FORWARD, 1, false);
  }

  lemma ForwardResolves()
    ensures AllResolvable(BuiltDocument(FORWARD_BUILT))
  {
    var doc := BuiltDocument(FORWARD_BUILT);
    RefsOfAppend([], DeferredRef([Name("b")], 1, Obj(0), Unresolved, Undefined));
    assert [] + FORWARD_BUILT.deferred == FORWARD_BUILT.deferred;
    assert doc.refs == map[1 := [Name("b")]];
    assert Has(doc.heap, 0, "b") && doc.heap[0]["b"] == Prim(5);
    assert Steps(doc, 0, [Name("b")], 0) == Some(Obj(0));
    assert Steps(doc, 0, [Name("b")], 1) == Some(Prim(5));
    assert Eval(doc, 1, 1) == Some(Prim(5));
  }

  /** A reference to what comes later: its path does not exist when it is read, the walk falls back to the root,
      which is still open, so it is deferred; in the converted document `a` is 5. */
  lemma ForwardReferenceIsRight()
    ensures WellFormedTree(FORWARD) && Untagged(FORWARD) && ReadsDocument(FORWARD, true)
    ensures !ReadsDocument(FORWARD, false)
    ensures BuildDocument(FORWARD).Some?
    ensures var st := BuildDocument(FORWARD).value;
            && AllResolvable(BuiltDocument(st))
            && TreeMeans(FORWARD, 0, Finished(st), Obj(0)) && Get(Finished(st), 0, "a") == Prim(5)
  {
    ForwardWellFormed();
    hide ReadsDocument, TreeMeans, BuildDocument, AllResolvable, WellFormed, WellFormedTree, Untagged;
    ForwardBuilds();
    ForwardResolves();
    var st := DocumentMeansItsTree(FORWARD);
    ForwardSlot(Finished(st));
  }

  lemma ForwardWellFormed()
    ensures WellFormedTree(FORWARD) && Untagged(FORWARD)
  {
  }

  lemma ForwardSlot(h: Heap)
    requires TreeMeans(FORWARD, 0, h, Obj(0))
    ensures Get(h, 0, "a") == Prim(5)
  {
    assert FieldMeans(FORWARD, 0, 0, h, Obj(0)) && FieldMeans(FORWARD, 1, 0, h, Obj(0));
    assert Walk(h, Obj(0), [Name("b")], 1) == Some(Prim(5));
  }

  /** `{a:ref["b"], b:ref["a"]}` */
  const CIRCULAR := Object([Member1("a", Reference([Name("b")])), Member1("b", Reference([Name("a")]))])

  const CIRCULAR_BUILT := Put(DEFERRED, 0, "b", Obj(1))

  lemma CircularBuilds()
    ensures BuildDocument(CIRCULAR) == Some(CIRCULAR_BUILT) && ReadsDocument(CIRCULAR, true)
  {
    ForwardField(CIRCULAR);
    var h := DEFERRED.heap;
    assert Has(h, 0, "a") && h[0]["a"] == Obj(1);
    assert EagerWalk(h, 0, [], Obj(0), [Name("a")], 0) == At(0, Obj(0), false);
    assert EagerWalk(h, 0, [], Obj(0), [Name("a")], 1) == At(1, Obj(1), true);
    assert KnownWalk(h, 0, [], [Name("a")], 0) == Some(Obj(0));
    assert KnownWalk(h, 0, [], [Name("a")], 1) == Some(Obj(1));
    hide EagerWalk, KnownWalk, EndsOpen;
    OneMore(EMPTY_ROOT, [], 0, CIRCULAR, 1, DEFERRED, CIRCULAR_BUILT);
    assert ReadsFields(EMPTY_ROOT, 0, [], 0, CIRCULAR, 0, true);
    assert ReadsFields(EMPTY_ROOT, 0, [], 0, CIRCULAR, 1, true);
  }

  lemma {:induction false} CircularNever(doc: Document, n: nat)
    requires doc.root == Obj(0) && doc.refs == map[1 := [Name("b")]]
    requires Has(doc.heap, 0, "b") && doc.heap[0]["b"] == Obj(1)
    ensures Eval(doc, n, 1).None?
  {
    if n > 0 {
      CircularNever(doc, n - 1);
      assert Steps(doc, n - 1, [Name("b")], 0) == Some(Obj(0));
      assert Steps(doc, n - 1, [Name("b")], 1) == Deref(doc, n - 1, Obj(1));
    }
  }

  /** Two references to each other are read well, and have no meaning: the conversion fails. */
  lemma CircularReferencesFail()
    ensures WellFormedTree(CIRCULAR) && Untagged(CIRCULAR) && ReadsDocument(CIRCULAR, true)
    ensures BuildDocument(CIRCULAR).Some? && !AllResolvable(BuiltDocument(BuildDocument(CIRCULAR).value))
  {
    CircularBuilds();
    var doc := BuiltDocument(CIRCULAR_BUILT);
    RefsOfAppend([], DeferredRef([Name("b")], 1, Obj(0), Unresolved, Undefined));
    assert [] + CIRCULAR_BUILT.deferred == CIRCULAR_BUILT.deferred;
    assert doc.refs == map[1 := [Name("b")]];
    assert Has(doc.heap, 0, "b") && doc.heap[0]["b"] == Obj(1);
    if Resolvable(doc, 1) {
      var n: nat :| Eval(doc, n, 1).Some?;
      CircularNever(doc, n);
    }
  }

  // ---- a name for an element ---------------------------------------------------------------------------------

  const NAMED_INNER := Object([Member1("x", Reference([Name("0")]))])

  /** `[{x:ref["0"]}]` */
  const NAMED := Container(true, false, [Field(None, NAMED_INNER)])

  /** The path exists when it is read, but names by a string an element that is not stored yet: the walk fails, and
      with it the conversion. */
  lemma NameOfAnElementFails()
    ensures WellFormedTree(NAMED) && Untagged(NAMED) && BuildDocument(NAMED).None?
    ensures var h, stack := Alloc(EMPTY_ROOT).heap, [Member(Obj(1), true, 0, "")];
            && ValueAt(Linked(h, 0, stack), Obj(0), [Name("0")]) == Some(Obj(1))
            && !ByKind(h, 0, stack, [Name("0")], 1)
  {
    var begun, stack := Alloc(EMPTY_ROOT), [Member(Obj(1), true, 0, "")];
    var h, path := begun.heap, [Name("0")];
    assert Decimal(0) == "0";
    assert stack[..0] == [];
    assert Linked(h, 0, stack) == Set(h, 0, "0", Obj(1));
    assert Walk(Linked(h, 0, stack), Obj(0), path, 0) == Some(Obj(0));
    assert Walk(Linked(h, 0, stack), Obj(0), path, 1) == Some(Obj(1));
    assert RunsDown(stack, path, 0);
    assert EagerWalk(h, 0, stack, Obj(1), path, 0) == At(0, Obj(0), false);
    assert EagerWalk(h, 0, stack, Obj(1), path, 1).Failed?;
    hide EagerWalk, Linked;
    assert BuildFields(begun, 0, stack, 1, NAMED_INNER, 0) == Some(begun);
    assert BuildFields(begun, 0, stack, 1, NAMED_INNER, 1).None?;
    ContainerSpec(EMPTY_ROOT, 0, [], 0, NAMED, 0);
    assert [] + stack == stack;
    assert BuildFields(EMPTY_ROOT, 0, [], 0, NAMED, 0) == Some(EMPTY_ROOT);
  }

  // ---- a cycle -----------------------------------------------------------------------------------------------

  const CYCLE_A := Object([Member1("self", Reference([Name("a")]))])

  /** `{a:{self:ref["a"]}}` */
  const CYCLE := Object([Member1("a", CYCLE_A)])

  lemma CycleIsKnown()
    ensures ReadsDocument(CYCLE, false)
  {
    var begun, stack, path := Alloc(EMPTY_ROOT), [Member(Obj(1), false, 0, "a")], [Name("a")];
    assert KnownWalk(begun.heap, 0, stack, path, 0) == Some(Obj(0));
    assert KnownWalk(begun.heap, 0, stack, path, 1) == Some(Obj(1));
    assert Known(begun, 0, stack, path);
    hide KnownWalk, Known;
    assert BuildFields(begun, 0, stack, 1, CYCLE_A, 0) == Some(begun);
    assert ReadsFields(begun, 0, stack, 1, CYCLE_A, 0, false);
    assert ReadsFields(begun, 0, stack, 1, CYCLE_A, 1, false);
    assert [] + stack == stack;
    assert BuildFields(EMPTY_ROOT, 0, [], 0, CYCLE, 0) == Some(EMPTY_ROOT);
    assert ReadsFields(EMPTY_ROOT, 0, [], 0, CYCLE, 0, false);
    assert ReadsField(EMPTY_ROOT, 0, [], 0, CYCLE, 0, false);
  }

  /** A document that refers to an enclosing object converts to a cycle. */
  lemma CyclicDocument()
    ensures WellFormedTree(CYCLE) && Untagged(CYCLE) && ReadsDocument(CYCLE, false)
    ensures BuildDocument(CYCLE).Some?
    ensures var st := BuildDocument(CYCLE).value;
            && AllResolvable(BuiltDocument(st))
            && exists x: nat :: x > 0 && Get(Finished(st), 0, "a") == Obj(x) && Get(Finished(st), x, "self") == Obj(x)
  {
    hide ReadsDocument, TreeMeans, BuildDocument, AllResolvable, WellFormed;
    assert WellFormedTree(CYCLE_A) && Untagged(CYCLE_A);
    CycleIsKnown();
    KnownReferencesResolve(CYCLE);
    var st := DocumentMeansItsTree(CYCLE);
    CycleSlots(Finished(st));
  }

  lemma CycleSlots(h: Heap)
    requires TreeMeans(CYCLE, 0, h, Obj(0))
    ensures exists x: nat :: x > 0 && Get(h, 0, "a") == Obj(x) && Get(h, x, "self") == Obj(x)
  {
    assert FieldMeans(CYCLE, 0, 0, h, Obj(0));
    var x := h[0]["a"].id;
    assert TreeMeans(CYCLE_A, x, h, Obj(0));
    assert FieldMeans(CYCLE_A, 0, x, h, Obj(0));
    assert Walk(h, Obj(0), [Name("a")], 1) == Some(Obj(x));
  }
}
