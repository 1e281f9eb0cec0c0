/** What deferred references mean.

    Every deferred reference owns a placeholder object and a path from the document root.  Its meaning is the least
    one: walk the path from the root and, wherever a step lands on a placeholder, go on from whatever that
    placeholder's own reference means. */
module JsoxRefs {
  import opened Options
  import opened JsoxModel

  /** placeholder -> path */
  type Refs = map<nat, seq<Step>>

  /** The finished document as the resolver sees it. */
  datatype Document = Document(heap: Heap, refs: Refs, root: Value)

  predicate IsPlaceholder(refs: Refs, v: Value) {
    v.Obj? && v.id in refs
  }

  // ---- meaning by derivations of bounded height ------------------------------------------------

  /** The value of reference `p`, when a derivation of height at most `n` gives it one. */
  ghost function Eval(doc: Document, n: nat, p: nat): (r: Option<Value>)
    requires p in doc.refs
    decreases n, 0, 0
  {
    if n == 0 then None
    else
      match Steps(doc, n - 1, doc.refs[p], |doc.refs[p]|)
      case None => None
      case Some(v) => if v.Undefined? then None else Some(v)
  }

  ghost function Deref(doc: Document, n: nat, v: Value): Option<Value>
    decreases n, 1, 0
  {
    if IsPlaceholder(doc.refs, v) then Eval(doc, n, v.id) else Some(v)
  }

  /** Where the first `k` steps of a path lead, stepping through every placeholder met. */
  ghost function Steps(doc: Document, n: nat, path: seq<Step>, k: nat): Option<Value>
    requires k <= |path|
    decreases n, 2, k
  {
    if k == 0 then Deref(doc, n, doc.root)
    else
      match Steps(doc, n, path, k - 1)
      case None => None
      case Some(at) =>
        if at.Obj? && Has(doc.heap, at.id, Prop(path[k - 1])) then
          Deref(doc, n, doc.heap[at.id][Prop(path[k - 1])])
        else None
  }

  /** Reference `p` means `v`. */
  ghost predicate Derives(doc: Document, p: nat, v: Value) {
    p in doc.refs && exists n: nat :: Eval(doc, n, p) == Some(v)
  }

  ghost predicate Resolvable(doc: Document, p: nat) {
    p in doc.refs && exists n: nat :: Eval(doc, n, p).Some?
  }

  ghost function Meaning(doc: Document, p: nat): (v: Value)
    requires Resolvable(doc, p)
    ensures Derives(doc, p, v)
  {
    var n: nat :| Eval(doc, n, p).Some?;
    Eval(doc, n, p).value
  }

  // ---- the meaning is well defined ---------------------------------------------------------------

  lemma {:induction false} EvalMonotone(doc: Document, m: nat, n: nat, p: nat)
    requires p in doc.refs && m <= n && Eval(doc, m, p).Some?
    ensures Eval(doc, n, p) == Eval(doc, m, p)
    decreases m, 0, 0
  {
    StepsMonotone(doc, m - 1, n - 1, doc.refs[p], |doc.refs[p]|);
  }

  lemma {:induction false} DerefMonotone(doc: Document, m: nat, n: nat, v: Value)
    requires m <= n && Deref(doc, m, v).Some?
    ensures Deref(doc, n, v) == Deref(doc, m, v)
    decreases m, 1, 0
  {
    if IsPlaceholder(doc.refs, v) {
      EvalMonotone(doc, m, n, v.id);
    }
  }

  lemma {:induction false} StepsMonotone(doc: Document, m: nat, n: nat, path: seq<Step>, k: nat)
    requires m <= n && k <= |path| && Steps(doc, m, path, k).Some?
    ensures Steps(doc, n, path, k) == Steps(doc, m, path, k)
    decreases m, 2, k
  {
    if k == 0 {
      DerefMonotone(doc, m, n, doc.root);
    } else {
      StepsMonotone(doc, m, n, path, k - 1);
      var at := Steps(doc, m, path, k - 1).value;
      DerefMonotone(doc, m, n, doc.heap[at.id][Prop(path[k - 1])]);
    }
  }

  /** A longer walk that arrives has arrived at every shorter stage. */
  lemma {:induction false} StepsPrefix(doc: Document, n: nat, path: seq<Step>, j: nat, k: nat)
    requires j <= k <= |path| && Steps(doc, n, path, k).Some?
    ensures Steps(doc, n, path, j).Some?
    decreases k - j
  {
    if j < k {
      StepsPrefix(doc, n, path, j + 1, k);
    }
  }

  /** A reference means one value only. */
  lemma DerivesFunctional(doc: Document, p: nat, v: Value, w: Value)
    requires Derives(doc, p, v) && Derives(doc, p, w)
    ensures v == w
  {
    var m: nat :| Eval(doc, m, p) == Some(v);
    var n: nat :| Eval(doc, n, p) == Some(w);
    if m <= n {
      EvalMonotone(doc, m, n, p);
    } else {
      EvalMonotone(doc, n, m, p);
    }
  }

  /** The least height at which a reference has a value: everything its derivation needs is lower. */
  lemma {:induction false} LeastHeight(doc: Document, n: nat, p: nat) returns (m: nat)
    requires p in doc.refs && Eval(doc, n, p).Some?
    ensures 0 < m <= n && Eval(doc, m, p).Some? && Eval(doc, m - 1, p).None?
  {
    if Eval(doc, n - 1, p).Some? {
      m := LeastHeight(doc, n - 1, p);
    } else {
      m := n;
    }
  }

  // ---- the meaning is the least relation closed under the walking rule ------------------------------

  /** A relation between placeholders and values, as a predicate. */
  type Relation = (nat, Value) -> bool

  ghost predicate DerefBy(doc: Document, rel: Relation, v: Value, w: Value) {
    if IsPlaceholder(doc.refs, v) then rel(v.id, w) else v == w
  }

  /** Walking `k` steps leads to `v` when placeholders are read through `rel`. */
  ghost predicate StepsBy(doc: Document, rel: Relation, path: seq<Step>, k: nat, v: Value)
    requires k <= |path|
    decreases k
  {
    if k == 0 then DerefBy(doc, rel, doc.root, v)
    else exists at: nat ::
      && StepsBy(doc, rel, path, k - 1, Obj(at))
      && Has(doc.heap, at, Prop(path[k - 1]))
      && DerefBy(doc, rel, doc.heap[at][Prop(path[k - 1])], v)
  }

  /** The walking rule: a reference means whatever defined value its path leads to. */
  ghost predicate Rule(doc: Document, rel: Relation, p: nat, v: Value) {
    p in doc.refs && !v.Undefined? && StepsBy(doc, rel, doc.refs[p], |doc.refs[p]|, v)
  }

  ghost predicate ClosedUnderRule(doc: Document, rel: Relation) {
    forall p, v :: Rule(doc, rel, p, v) ==> rel(p, v)
  }

  ghost function Derived(doc: Document): Relation {
    (p: nat, v: Value) => Derives(doc, p, v)
  }

  lemma {:induction false} EvalWithin(doc: Document, rel: Relation, n: nat, p: nat)
    requires ClosedUnderRule(doc, rel) && p in doc.refs && Eval(doc, n, p).Some?
    ensures rel(p, Eval(doc, n, p).value)
    decreases n, 0, 0
  {
    var path := doc.refs[p];
    StepsWithin(doc, rel, n - 1, path, |path|);
    assert Rule(doc, rel, p, Eval(doc, n, p).value);
  }

  lemma {:induction false} StepsWithin(doc: Document, rel: Relation, n: nat, path: seq<Step>, k: nat)
    requires ClosedUnderRule(doc, rel) && k <= |path| && Steps(doc, n, path, k).Some?
    ensures StepsBy(doc, rel, path, k, Steps(doc, n, path, k).value)
    decreases n, 2, k
  {
    if k == 0 {
      if IsPlaceholder(doc.refs, doc.root) {
        EvalWithin(doc, rel, n, doc.root.id);
      }
    } else {
      StepsWithin(doc, rel, n, path, k - 1);
      var at := Steps(doc, n, path, k - 1).value;
      assert StepsBy(doc, rel, path, k - 1, Obj(at.id));
      var next := doc.heap[at.id][Prop(path[k - 1])];
      if IsPlaceholder(doc.refs, next) {
        EvalWithin(doc, rel, n, next.id);
      }
    }
  }

  /** A walk through derived meanings is a walk of some bounded height. */
  lemma {:induction false} StepsByBounded(doc: Document, path: seq<Step>, k: nat, v: Value) returns (n: nat)
    requires k <= |path| && StepsBy(doc, Derived(doc), path, k, v)
    ensures Steps(doc, n, path, k) == Some(v)
    decreases k
  {
    if k == 0 {
      n := DerefBounded(doc, doc.root, v);
    } else {
      var at: nat :|
        && StepsBy(doc, Derived(doc), path, k - 1, Obj(at))
        && Has(doc.heap, at, Prop(path[k - 1]))
        && DerefBy(doc, Derived(doc), doc.heap[at][Prop(path[k - 1])], v);
      var a := StepsByBounded(doc, path, k - 1, Obj(at));
      var next := doc.heap[at][Prop(path[k - 1])];
      var b := DerefBounded(doc, next, v);
      n := if a <= b then b else a;
      StepsMonotone(doc, a, n, path, k - 1);
      DerefMonotone(doc, b, n, next);
    }
  }

  lemma DerefBounded(doc: Document, v: Value, w: Value) returns (n: nat)
    requires DerefBy(doc, Derived(doc), v, w)
    ensures Deref(doc, n, v) == Some(w)
  {
    n := 0;
    if IsPlaceholder(doc.refs, v) {
      n :| Eval(doc, n, v.id) == Some(w);
    }
  }

  /** `Derives` is closed under the walking rule, and every relation closed under it contains `Derives`. */
  lemma DerivesIsLeast(doc: Document)
    ensures ClosedUnderRule(doc, Derived(doc))
    ensures forall rel: Relation, p, v | ClosedUnderRule(doc, rel) && Derives(doc, p, v) :: rel(p, v)
  {
    forall p, v | Rule(doc, Derived(doc), p, v) ensures Derived(doc)(p, v) {
      var n := StepsByBounded(doc, doc.refs[p], |doc.refs[p]|, v);
      assert Eval(doc, n + 1, p) == Some(v);
    }
    forall rel: Relation, p, v | ClosedUnderRule(doc, rel) && Derives(doc, p, v) ensures rel(p, v) {
      var n: nat :| Eval(doc, n, p) == Some(v);
      EvalWithin(doc, rel, n, p);
    }
  }

  // ---- what resolved values look like ---------------------------------------------------------------

  lemma {:induction false} DerefIsFinal(doc: Document, n: nat, v: Value)
    requires Deref(doc, n, v).Some?
    ensures !IsPlaceholder(doc.refs, Deref(doc, n, v).value)
    decreases n, 1, 0
  {
    if IsPlaceholder(doc.refs, v) {
      var path := doc.refs[v.id];
      StepsAreFinal(doc, n - 1, path, |path|);
    }
  }

  lemma {:induction false} StepsAreFinal(doc: Document, n: nat, path: seq<Step>, k: nat)
    requires k <= |path| && Steps(doc, n, path, k).Some?
    ensures !IsPlaceholder(doc.refs, Steps(doc, n, path, k).value)
    decreases n, 2, k
  {
    if k == 0 {
      DerefIsFinal(doc, n, doc.root);
    } else {
      var at := Steps(doc, n, path, k - 1).value;
      DerefIsFinal(doc, n, doc.heap[at.id][Prop(path[k - 1])]);
    }
  }

  /** No reference resolves to undefined or to another placeholder. */
  lemma DerivesFinal(doc: Document, p: nat, v: Value)
    requires Derives(doc, p, v)
    ensures !v.Undefined? && !IsPlaceholder(doc.refs, v)
  {
    var n: nat :| Eval(doc, n, p) == Some(v);
    StepsAreFinal(doc, n - 1, doc.refs[p], |doc.refs[p]|);
  }

  /** A document whose root is itself a placeholder resolves nothing: every walk starts by needing itself. */
  lemma {:induction false} PlaceholderRootResolvesNothing(doc: Document, n: nat, p: nat)
    requires IsPlaceholder(doc.refs, doc.root) && p in doc.refs
    ensures Eval(doc, n, p).None?
    decreases n
  {
    if n > 0 && Eval(doc, n, p).Some? {
      StepsPrefix(doc, n - 1, doc.refs[p], 0, |doc.refs[p]|);
      PlaceholderRootResolvesNothing(doc, n - 1, doc.root.id);
    }
  }

  // ---- resolved values are part of the document already -----------------------------------------------

  ghost function RootSet(v: Value): set<nat> {
    if v.Obj? then {v.id} else {}
  }

  /** The objects of the document that are reachable from the root without stepping onto a placeholder. */
  ghost function Reached(doc: Document): set<nat> {
    ReachSet(doc.heap, doc.refs.Keys, RootSet(doc.root))
  }

  ghost predicate WellFormed(doc: Document) {
    Closed(doc.heap) && InHeap(doc.heap, doc.root)
  }

  lemma {:induction false} DerefReached(doc: Document, n: nat, v: Value)
    requires WellFormed(doc) && Deref(doc, n, v).Some?
    requires v.Obj? && !IsPlaceholder(doc.refs, v) ==> v.id in Reached(doc)
    ensures Deref(doc, n, v).value.Obj? ==> Deref(doc, n, v).value.id in Reached(doc)
    decreases n, 1, 0
  {
    if IsPlaceholder(doc.refs, v) {
      var path := doc.refs[v.id];
      StepsReached(doc, n - 1, path, |path|);
    }
  }

  lemma {:induction false} StepsReached(doc: Document, n: nat, path: seq<Step>, k: nat)
    requires WellFormed(doc) && k <= |path| && Steps(doc, n, path, k).Some?
    ensures Steps(doc, n, path, k).value.Obj? ==> Steps(doc, n, path, k).value.id in Reached(doc)
    decreases n, 2, k
  {
    if k == 0 {
      if doc.root.Obj? {
        ReachStart(doc.heap, doc.refs.Keys, RootSet(doc.root), doc.root.id);
      }
      DerefReached(doc, n, doc.root);
    } else {
      StepsReached(doc, n, path, k - 1);
      var at := Steps(doc, n, path, k - 1).value;
      var next := doc.heap[at.id][Prop(path[k - 1])];
      if next.Obj? && !IsPlaceholder(doc.refs, next) {
        assert Edge(doc.heap, doc.refs.Keys, at.id, next.id);
        ReachStep(doc.heap, doc.refs.Keys, RootSet(doc.root), at.id, next.id);
      }
      DerefReached(doc, n, next);
    }
  }

  /** Every object a reference resolves to was already reachable from the root through non-placeholder slots: this is
      why substitution never has to descend into the values it writes. */
  lemma DerivesReached(doc: Document, p: nat, v: Value)
    requires WellFormed(doc) && Derives(doc, p, v) && v.Obj?
    ensures v.id in Reached(doc)
  {
    var n: nat :| Eval(doc, n, p) == Some(v);
    StepsReached(doc, n - 1, doc.refs[p], |doc.refs[p]|);
  }

  // ---- substitution -------------------------------------------------------------------------------------

  /** placeholder -> what it is replaced by */
  type Subst = map<nat, Value>

  function Image(sigma: Subst, v: Value): Value {
    if v.Obj? && v.id in sigma then sigma[v.id] else v
  }

  /** An object with every placeholder slot replaced: same keys, all other slots as they were. */
  function RewriteSlots(slots: Slots, sigma: Subst): (r: Slots)
    ensures r.Keys == slots.Keys
  {
    map k | k in slots :: Image(sigma, slots[k])
  }

  /** Exactly the objects in `visited` rewritten. */
  function Rewrite(h: Heap, visited: set<nat>, sigma: Subst): (r: Heap)
    ensures r.Keys == h.Keys
  {
    map o | o in h :: if o in visited then RewriteSlots(h[o], sigma) else h[o]
  }

  /** The substitution that resolves every reference. */
  ghost predicate Resolves(doc: Document, sigma: Subst) {
    && sigma.Keys == doc.refs.Keys
    && forall p :: p in sigma ==> Derives(doc, p, sigma[p])
  }

  /** No slot of an object in `c` holds a placeholder. */
  ghost predicate FreeOfPlaceholders(h: Heap, refs: Refs, c: set<nat>) {
    forall o, k :: o in c && Has(h, o, k) ==> !IsPlaceholder(refs, h[o][k])
  }

  lemma RewrittenAreFree(doc: Document, sigma: Subst, visited: set<nat>)
    requires Resolves(doc, sigma)
    ensures FreeOfPlaceholders(Rewrite(doc.heap, visited, sigma), doc.refs, visited)
  {
    var h := Rewrite(doc.heap, visited, sigma);
    forall o, k | o in visited && Has(h, o, k) ensures !IsPlaceholder(doc.refs, h[o][k]) {
      var v := doc.heap[o][k];
      if IsPlaceholder(doc.refs, v) {
        DerivesFinal(doc, v.id, sigma[v.id]);
      }
    }
  }

  /** After rewriting the objects visited from `from`, nothing new becomes reachable from there, placeholders
      included. */
  lemma RewriteStaysWithin(doc: Document, sigma: Subst, from: set<nat>)
    requires WellFormed(doc) && Resolves(doc, sigma)
    requires RootSet(doc.root) <= from
    ensures var visited := ReachSet(doc.heap, doc.refs.Keys, from);
            ClosedUnder(Rewrite(doc.heap, visited, sigma), {}, visited)
  {
    var visited := ReachSet(doc.heap, doc.refs.Keys, from);
    var h := Rewrite(doc.heap, visited, sigma);
    forall a, b | a in visited && a in h && Edge(h, {}, a, b) ensures b in visited {
      var k :| Has(h, a, k) && h[a][k] == Obj(b);
      var v := doc.heap[a][k];
      if IsPlaceholder(doc.refs, v) {
        DerivesReached(doc, v.id, sigma[v.id]);
        ReachedWithin(doc, from);
      } else {
        assert Edge(doc.heap, doc.refs.Keys, a, b);
        ReachStep(doc.heap, doc.refs.Keys, from, a, b);
      }
    }
  }

  lemma ReachedWithin(doc: Document, from: set<nat>)
    requires WellFormed(doc) && RootSet(doc.root) <= from
    ensures Reached(doc) <= ReachSet(doc.heap, doc.refs.Keys, from)
  {
    var visited := ReachSet(doc.heap, doc.refs.Keys, from);
    forall o | o in RootSet(doc.root) ensures o in visited {
      ReachStart(doc.heap, doc.refs.Keys, from, o);
    }
    ReachClosed(doc.heap, doc.refs.Keys, from);
    ReachLeast(doc.heap, doc.refs.Keys, RootSet(doc.root), visited);
  }

  /** Main result: once the objects visited from the root and the owners are rewritten, no object reachable from the
      root, through any of its slots, holds a placeholder -- although no written value is ever descended into. */
  lemma NoPlaceholderReachable(doc: Document, sigma: Subst, from: set<nat>)
    requires WellFormed(doc) && Resolves(doc, sigma)
    requires RootSet(doc.root) <= from && !IsPlaceholder(doc.refs, doc.root)
    ensures var h := Rewrite(doc.heap, ReachSet(doc.heap, doc.refs.Keys, from), sigma);
            FreeOfPlaceholders(h, doc.refs, ReachSet(h, {}, RootSet(doc.root)))
  {
    var visited := ReachSet(doc.heap, doc.refs.Keys, from);
    var h := Rewrite(doc.heap, visited, sigma);
    RewriteStaysWithin(doc, sigma, from);
    if doc.root.Obj? {
      ReachStart(doc.heap, doc.refs.Keys, from, doc.root.id);
    }
    ReachLeast(h, {}, RootSet(doc.root), visited);
    RewrittenAreFree(doc, sigma, visited);
  }

  lemma SkippingKeepsClosed(h: Heap, skip: set<nat>, c: set<nat>)
    requires ClosedUnder(h, {}, c)
    ensures ClosedUnder(h, skip, c)
  {
    forall a, b | a in c && a in h && Edge(h, skip, a, b) ensures b in c {
      assert Edge(h, {}, a, b);
    }
  }

  /** A second substitution run over the rewritten document changes nothing. */
  lemma RewriteIdempotent(doc: Document, sigma: Subst, from: set<nat>)
    requires WellFormed(doc) && Resolves(doc, sigma) && RootSet(doc.root) <= from <= doc.heap.Keys
    ensures var h := Rewrite(doc.heap, ReachSet(doc.heap, doc.refs.Keys, from), sigma);
            Rewrite(h, ReachSet(h, doc.refs.Keys, from), sigma) == h
  {
    var visited := ReachSet(doc.heap, doc.refs.Keys, from);
    var h := Rewrite(doc.heap, visited, sigma);
    RewriteStaysWithin(doc, sigma, from);
    SkippingKeepsClosed(h, doc.refs.Keys, visited);
    forall o | o in from ensures o in visited {
      ReachStart(doc.heap, doc.refs.Keys, from, o);
    }
    ReachLeast(h, doc.refs.Keys, from, visited);
    RewrittenAreFree(doc, sigma, visited);
    RewriteNothing(h, doc.refs, sigma, ReachSet(h, doc.refs.Keys, from), visited);
  }

  /** Rewriting objects that hold no placeholder leaves the heap as it is. */
  lemma RewriteNothing(h: Heap, refs: Refs, sigma: Subst, again: set<nat>, free: set<nat>)
    requires sigma.Keys == refs.Keys && again <= free && FreeOfPlaceholders(h, refs, free)
    ensures Rewrite(h, again, sigma) == h
  {
    forall o | o in again && o in h ensures RewriteSlots(h[o], sigma) == h[o] {
      forall k | k in h[o] ensures Image(sigma, h[o][k]) == h[o][k] {
        assert Has(h, o, k);
      }
    }
  }

  // ---- after rewriting, references are plain paths --------------------------------------------------------

  /** Walking the rewritten document plainly goes where the resolving walk went. */
  lemma {:induction false} StepsArePlainWalks(doc: Document, sigma: Subst, visited: set<nat>, n: nat, path: seq<Step>,
                                              k: nat)
    requires WellFormed(doc) && Resolves(doc, sigma) && Reached(doc) <= visited
    requires !IsPlaceholder(doc.refs, doc.root)
    requires k <= |path| && Steps(doc, n, path, k).Some?
    ensures Walk(Rewrite(doc.heap, visited, sigma), doc.root, path, k) == Steps(doc, n, path, k)
    decreases k
  {
    if k > 0 {
      StepsArePlainWalks(doc, sigma, visited, n, path, k - 1);
      StepsReached(doc, n, path, k - 1);
      var at := Steps(doc, n, path, k - 1).value;
      var next := doc.heap[at.id][Prop(path[k - 1])];
      if IsPlaceholder(doc.refs, next) {
        DerivesFunctional(doc, next.id, sigma[next.id], Eval(doc, n, next.id).value);
      }
    }
  }

  /** What a reference resolves to is exactly what its path names in the finished document. */
  lemma ResolvedIsValueAt(doc: Document, sigma: Subst, visited: set<nat>, p: nat)
    requires WellFormed(doc) && Resolves(doc, sigma) && Reached(doc) <= visited
    requires !IsPlaceholder(doc.refs, doc.root) && p in doc.refs
    ensures ValueAt(Rewrite(doc.heap, visited, sigma), doc.root, doc.refs[p]) == Some(sigma[p])
  {
    var n: nat :| Eval(doc, n, p) == Some(sigma[p]);
    StepsArePlainWalks(doc, sigma, visited, n - 1, doc.refs[p], |doc.refs[p]|);
  }
}
