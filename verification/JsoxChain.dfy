/** The invariant of a build in progress, and why the eager walk is right while it holds.

    An object under construction is not in its parent yet, only on the revive stack; `Linked` is the heap with those
    missing links added, which is what the document will look like. */
module JsoxChain {
  import opened Options
  import opened JsoxModel
  import opened JsoxReviver
  import opened JsoxDoc

  function ChainId(root: nat, stack: seq<Member>, j: nat): nat
    requires j <= |stack|
  {
    var v := Chain(root, stack, j);
    if v.Obj? then v.id else 0
  }

  /** Containers on the chain are objects of the heap, each allocated after its parent. */
  ghost predicate ChainOK(h: Heap, root: nat, stack: seq<Member>) {
    && (forall j {:trigger Chain(root, stack, j)} :: 0 <= j <= |stack| ==>
          Chain(root, stack, j).Obj? && Chain(root, stack, j).id in h)
    && (forall j {:trigger ChainId(root, stack, j)} :: 0 <= j < |stack| ==>
          stack[j].container.Obj? && ChainId(root, stack, j) < stack[j].container.id)
  }

  /** A link of the chain that is stored already is stored where it belongs. */
  ghost predicate StoredOK(h: Heap, root: nat, stack: seq<Member>) {
    forall j {:trigger ChainId(root, stack, j)} ::
      0 <= j < |stack| && Has(h, ChainId(root, stack, j), MemberProp(stack[j])) ==>
        h[ChainId(root, stack, j)][MemberProp(stack[j])] == stack[j].container
  }

  /** A slot `k` of object `x` holding `v` keeps the open containers hidden: it never holds the root, and it holds
      another open container only if that is an array, in its own place. */
  ghost predicate KeepsHidden(root: nat, stack: seq<Member>, topArray: bool, x: nat, k: string, v: Value) {
    forall j {:trigger Chain(root, stack, j)} :: 0 <= j <= |stack| && v == Chain(root, stack, j) ==>
      && j > 0 && (if j < |stack| then stack[j].isArray else topArray)
      && x == ChainId(root, stack, j - 1) && k == MemberProp(stack[j - 1])
  }

  ghost predicate HiddenOK(h: Heap, root: nat, stack: seq<Member>, topArray: bool) {
    forall x, k :: Has(h, x, k) ==> KeepsHidden(root, stack, topArray, x, k, h[x][k])
  }

  // ---- the eager walk ------------------------------------------------------------------------------------

  lemma {:induction false} KnownPrefix(h: Heap, root: nat, stack: seq<Member>, path: seq<Step>, j: nat, n: nat)
    requires j <= n <= |path| && KnownWalk(h, root, stack, path, n).Some?
    ensures KnownWalk(h, root, stack, path, j).Some?
    ensures j < n ==> KnownWalk(h, root, stack, path, j).value.Obj?
    decreases n - j
  {
    if j < n {
      KnownPrefix(h, root, stack, path, j + 1, n);
    }
  }

  /** Where the eager walk stands after `n` steps when the walk so far was known to lead to `v`. */
  ghost predicate EagerStands(root: nat, stack: seq<Member>, n: nat, v: Value, at: Eager) {
    && at.At? && at.refValue == v
    && (v.Obj? ==> at.refObj == v.id)
    && (!at.offStack ==> n <= |stack| && v == Chain(root, stack, n))
    && (at.offStack && n < |stack| && v == Chain(root, stack, n) ==> stack[n].isArray)
  }

  /** One step of a known walk: the code's choice between stored slot and revive stack is the right one. */
  lemma EagerStepIsKnown(h: Heap, root: nat, stack: seq<Member>, topArray: bool, refObject: Value, u: Value, step: Step,
                         n: nat, more: bool, at: Eager)
    requires ChainOK(h, root, stack) && StoredOK(h, root, stack) && HiddenOK(h, root, stack, topArray)
    requires EagerStands(root, stack, n, u, at)
    requires KnownStep(h, root, stack, u, step, n).Some?
    requires more ==> KnownStep(h, root, stack, u, step, n).value.Obj?
    ensures at.At? && EagerStep(h, stack, refObject, at, step, n, more).At?
    ensures EagerStands(root, stack, n + 1, KnownStep(h, root, stack, u, step, n).value,
                        EagerStep(h, stack, refObject, at, step, n, more))
  {
    var v := KnownStep(h, root, stack, u, step, n).value;
    if n < |stack| && u == Chain(root, stack, n) && Matches(stack[n], step) {
      OnChainStep(h, root, stack, topArray, refObject, u, step, n, more, at);
    } else {
      assert Has(h, u.id, Prop(step)) && h[u.id][Prop(step)] == v;
      assert KeepsHidden(root, stack, topArray, u.id, Prop(step), v);
      if !at.offStack && n < |stack| {
        assert u.id == ChainId(root, stack, n);
      }
    }
  }

  lemma OnChainStep(h: Heap, root: nat, stack: seq<Member>, topArray: bool, refObject: Value, u: Value, step: Step,
                    n: nat, more: bool, at: Eager)
    requires ChainOK(h, root, stack) && StoredOK(h, root, stack) && HiddenOK(h, root, stack, topArray)
    requires EagerStands(root, stack, n, u, at)
    requires n < |stack| && u == Chain(root, stack, n) && Matches(stack[n], step) && u.Obj?
    ensures EagerStands(root, stack, n + 1, stack[n].container, EagerStep(h, stack, refObject, at, step, n, more))
  {
    assert u.id == ChainId(root, stack, n) && MemberProp(stack[n]) == Prop(step);
    if Has(h, u.id, Prop(step)) {
      assert h[u.id][Prop(step)] == stack[n].container;
      assert KeepsHidden(root, stack, topArray, u.id, Prop(step), stack[n].container);
    }
  }

  lemma StandsAtRoot(root: nat, stack: seq<Member>)
    ensures EagerStands(root, stack, 0, Obj(root), At(root, Obj(root), false))
  {
  }

  /** The eager walk of a known path lands on the value the path leads to. */
  lemma {:induction false} EagerIsKnown(h: Heap, root: nat, stack: seq<Member>, topArray: bool, refObject: Value,
                                        path: seq<Step>, n: nat)
    requires ChainOK(h, root, stack) && StoredOK(h, root, stack) && HiddenOK(h, root, stack, topArray)
    requires n <= |path| && KnownWalk(h, root, stack, path, |path|).Some?
    ensures KnownWalk(h, root, stack, path, n).Some?
    ensures EagerWalk(h, root, stack, refObject, path, n).At?
    ensures EagerStands(root, stack, n, KnownWalk(h, root, stack, path, n).value,
                        EagerWalk(h, root, stack, refObject, path, n))
  {
    hide ChainOK, StoredOK, HiddenOK, EagerStands, KnownStep, EagerStep;
    KnownPrefix(h, root, stack, path, n, |path|);
    if n == 0 {
      StandsAtRoot(root, stack);
    } else {
      EagerIsKnown(h, root, stack, topArray, refObject, path, n - 1);
      var u, at := KnownWalk(h, root, stack, path, n - 1).value, EagerWalk(h, root, stack, refObject, path, n - 1);
      var step, more := path[n - 1], n < |path|;
      assert KnownWalk(h, root, stack, path, n) == KnownStep(h, root, stack, u, step, n - 1);
      EagerStepIsKnown(h, root, stack, topArray, refObject, u, step, n - 1, more, at);
      assert EagerWalk(h, root, stack, refObject, path, n) == EagerStep(h, stack, refObject, at, step, n - 1, more);
    }
  }

  // ---- the heap with the open links added ------------------------------------------------------------------

  function Linked(h: Heap, root: nat, stack: seq<Member>): Heap {
    if stack == [] then h
    else
      var last := |stack| - 1;
      Set(Linked(h, root, stack[..last]), ChainId(root, stack, last), MemberProp(stack[last]), stack[last].container)
  }

  lemma ChainPrefix(h: Heap, root: nat, stack: seq<Member>, n: nat)
    requires n <= |stack| && ChainOK(h, root, stack)
    ensures ChainOK(h, root, stack[..n])
    ensures forall j :: 0 <= j <= n ==> ChainId(root, stack[..n], j) == ChainId(root, stack, j)
  {
    forall j | 0 <= j <= n ensures Chain(root, stack[..n], j) == Chain(root, stack, j) {
    }
    forall j | 0 <= j < n
      ensures stack[..n][j].container.Obj? && ChainId(root, stack[..n], j) < stack[..n][j].container.id
    {
      assert ChainId(root, stack, j) == ChainId(root, stack[..n], j);
    }
  }

  lemma {:induction false} ChainIncreases(h: Heap, root: nat, stack: seq<Member>, i: nat, j: nat)
    requires ChainOK(h, root, stack) && i < j <= |stack|
    ensures ChainId(root, stack, i) < ChainId(root, stack, j)
    decreases j
  {
    if i < j - 1 {
      ChainIncreases(h, root, stack, i, j - 1);
    }
    assert ChainId(root, stack, j - 1) < stack[j - 1].container.id;
  }

  /** Adding the links leaves every object alone that is not the parent of an open container. */
  lemma {:induction false} LinkedElsewhere(h: Heap, root: nat, stack: seq<Member>, x: nat)
    requires ChainOK(h, root, stack)
    requires forall j :: 0 <= j < |stack| ==> x != ChainId(root, stack, j)
    ensures Linked(h, root, stack).Keys == h.Keys
    ensures x in h ==> Linked(h, root, stack)[x] == h[x]
    decreases |stack|
  {
    if stack != [] {
      var last := |stack| - 1;
      ChainPrefix(h, root, stack, last);
      forall j | 0 <= j < last ensures x != ChainId(root, stack[..last], j) {
        assert x != ChainId(root, stack, j);
      }
      LinkedElsewhere(h, root, stack[..last], x);
      assert ChainId(root, stack, last) in h by { ChainInHeap(h, root, stack, last); }
    }
  }

  lemma ChainStays(h: Heap, h': Heap, root: nat, stack: seq<Member>)
    requires ChainOK(h, root, stack) && h.Keys <= h'.Keys
    ensures ChainOK(h', root, stack)
  {
    forall j | 0 <= j < |stack| ensures stack[j].container.Obj? && ChainId(root, stack, j) < stack[j].container.id {
      assert ChainId(root, stack, j) >= 0;
    }
  }

  lemma StoredStays(h: Heap, h': Heap, root: nat, stack: seq<Member>)
    requires ChainOK(h, root, stack) && StoredOK(h, root, stack) && h.Keys <= h'.Keys
    requires forall j {:trigger ChainId(root, stack, j)} :: 0 <= j < |stack| ==>
               var x := ChainId(root, stack, j); x in h ==> h'[x] == h[x]
    ensures StoredOK(h', root, stack)
  {
    forall j | 0 <= j < |stack|
      ensures Has(h', ChainId(root, stack, j), MemberProp(stack[j])) ==>
                h'[ChainId(root, stack, j)][MemberProp(stack[j])] == stack[j].container
    {
      ChainInHeap(h, root, stack, j);
    }
  }

  lemma ChainInHeap(h: Heap, root: nat, stack: seq<Member>, j: nat)
    requires ChainOK(h, root, stack) && j <= |stack|
    ensures ChainId(root, stack, j) in h && Chain(root, stack, j) == Obj(ChainId(root, stack, j))
  {
  }

  lemma TopIsNoParent(h: Heap, root: nat, stack: seq<Member>)
    requires ChainOK(h, root, stack)
    ensures forall j :: 0 <= j < |stack| ==> ChainId(root, stack, |stack|) != ChainId(root, stack, j)
    ensures forall j :: 0 <= j < |stack| ==> ChainId(root, stack, |stack|) > ChainId(root, stack, j)
  {
    forall j | 0 <= j < |stack| ensures ChainId(root, stack, |stack|) > ChainId(root, stack, j) {
      ChainIncreases(h, root, stack, j, |stack|);
    }
  }

  /** Every link of the chain is there. */
  lemma {:induction false} LinkPresent(h: Heap, root: nat, stack: seq<Member>, j: nat)
    requires ChainOK(h, root, stack) && j < |stack|
    ensures Has(Linked(h, root, stack), ChainId(root, stack, j), MemberProp(stack[j]))
    ensures Linked(h, root, stack)[ChainId(root, stack, j)][MemberProp(stack[j])] == stack[j].container
    decreases |stack|
  {
    var last := |stack| - 1;
    if j < last {
      ChainPrefix(h, root, stack, last);
      LinkPresent(h, root, stack[..last], j);
      ChainIncreases(h, root, stack, j, last);
    }
  }

  lemma StoredPrefix(h: Heap, root: nat, stack: seq<Member>, n: nat)
    requires n <= |stack| && ChainOK(h, root, stack) && StoredOK(h, root, stack)
    ensures StoredOK(h, root, stack[..n])
  {
    ChainPrefix(h, root, stack, n);
    forall j | 0 <= j < n
      ensures Has(h, ChainId(root, stack[..n], j), MemberProp(stack[..n][j])) ==>
                h[ChainId(root, stack[..n], j)][MemberProp(stack[..n][j])] == stack[..n][j].container
    {
      assert ChainId(root, stack[..n], j) == ChainId(root, stack, j) && stack[..n][j] == stack[j];
    }
  }

  /** Nothing stored is lost or changed by adding the links. */
  lemma {:induction false} LinkedKeeps(h: Heap, root: nat, stack: seq<Member>, x: nat, k: string)
    requires ChainOK(h, root, stack) && StoredOK(h, root, stack) && Has(h, x, k)
    ensures Has(Linked(h, root, stack), x, k) && Linked(h, root, stack)[x][k] == h[x][k]
    decreases |stack|
  {
    if stack != [] {
      var last := |stack| - 1;
      ChainPrefix(h, root, stack, last);
      StoredPrefix(h, root, stack, last);
      LinkedKeeps(h, root, stack[..last], x, k);
    }
  }

  /** A known walk is a plain walk once the links are in. */
  lemma {:induction false} KnownIsWalk(h: Heap, root: nat, stack: seq<Member>, path: seq<Step>, n: nat)
    requires ChainOK(h, root, stack) && StoredOK(h, root, stack)
    requires n <= |path| && KnownWalk(h, root, stack, path, n).Some?
    ensures Walk(Linked(h, root, stack), Obj(root), path, n) == KnownWalk(h, root, stack, path, n)
    ensures !KnownWalk(h, root, stack, path, n).value.Undefined?
  {
    if n > 0 {
      KnownIsWalk(h, root, stack, path, n - 1);
      KnownStepIsLinked(h, root, stack, KnownWalk(h, root, stack, path, n - 1).value, path[n - 1], n - 1);
    }
  }

  lemma KnownStepIsLinked(h: Heap, root: nat, stack: seq<Member>, u: Value, step: Step, n: nat)
    requires ChainOK(h, root, stack) && StoredOK(h, root, stack)
    requires KnownStep(h, root, stack, u, step, n).Some?
    ensures u.Obj? && Has(Linked(h, root, stack), u.id, Prop(step))
    ensures Linked(h, root, stack)[u.id][Prop(step)] == KnownStep(h, root, stack, u, step, n).value
    ensures !KnownStep(h, root, stack, u, step, n).value.Undefined?
  {
    if n < |stack| && u == Chain(root, stack, n) && Matches(stack[n], step) {
      LinkPresent(h, root, stack, n);
      assert MemberProp(stack[n]) == Prop(step);
    } else {
      LinkedKeeps(h, root, stack, u.id, Prop(step));
    }
  }

  // ---- which paths are known -----------------------------------------------------------------------------------

  /** The path runs down the open containers at least to the one past member `i`. */
  predicate RunsDown(stack: seq<Member>, path: seq<Step>, i: nat)
    requires i < |stack| && i < |path|
  {
    forall j :: 0 <= j <= i ==> Prop(path[j]) == MemberProp(stack[j])
  }

  /** Where a path runs into an open container that is not stored yet, it does so by a number for an element of an
      array and by a name for a member of an object. */
  ghost predicate ByKind(h: Heap, root: nat, stack: seq<Member>, path: seq<Step>, n: nat)
    requires n <= |path|
  {
    forall i :: 0 <= i < |stack| && i < n ==>
      (RunsDown(stack, path, i) && !Has(h, ChainId(root, stack, i), MemberProp(stack[i])) ==>
         Matches(stack[i], path[i]))
  }

  /** A slot that is only there with the links is one of the links. */
  lemma {:induction false} LinkedOnly(h: Heap, root: nat, stack: seq<Member>, x: nat, k: string) returns (j: nat)
    requires ChainOK(h, root, stack) && Has(Linked(h, root, stack), x, k) && !Has(h, x, k)
    ensures j < |stack| && x == ChainId(root, stack, j) && k == MemberProp(stack[j])
    ensures Linked(h, root, stack)[x][k] == stack[j].container
    decreases |stack|
  {
    var last := |stack| - 1;
    ChainPrefix(h, root, stack, last);
    if x == ChainId(root, stack, last) && k == MemberProp(stack[last]) {
      j := last;
    } else {
      j := LinkedOnly(h, root, stack[..last], x, k);
    }
  }

  /** An open container sits in one place only, the end of its own chain. */
  lemma OwnPlace(h: Heap, root: nat, stack: seq<Member>, topArray: bool, x: nat, k: string, j: nat)
    requires ChainOK(h, root, stack) && StoredOK(h, root, stack) && HiddenOK(h, root, stack, topArray)
    requires Has(Linked(h, root, stack), x, k) && j <= |stack|
    requires Linked(h, root, stack)[x][k] == Chain(root, stack, j)
    ensures j > 0 && x == ChainId(root, stack, j - 1) && k == MemberProp(stack[j - 1])
  {
    if Has(h, x, k) {
      LinkedKeeps(h, root, stack, x, k);
      assert KeepsHidden(root, stack, topArray, x, k, h[x][k]);
    } else {
      var i := LinkedOnly(h, root, stack, x, k);
      if j < i + 1 { ChainIncreases(h, root, stack, j, i + 1); }
      if i + 1 < j { ChainIncreases(h, root, stack, i + 1, j); }
    }
  }

  /** So a path that leads to an open container runs down the chain. */
  lemma {:induction false} LeadsDown(h: Heap, root: nat, stack: seq<Member>, topArray: bool, path: seq<Step>, n: nat,
                                     j: nat)
    requires ChainOK(h, root, stack) && StoredOK(h, root, stack) && HiddenOK(h, root, stack, topArray)
    requires n <= |path| && j <= |stack|
    requires Walk(Linked(h, root, stack), Obj(root), path, n) == Some(Chain(root, stack, j))
    ensures n == j && forall i :: 0 <= i < j ==> Prop(path[i]) == MemberProp(stack[i])
  {
    hide StoredOK, HiddenOK, ChainOK, Linked;
    ChainInHeap(h, root, stack, j);
    if n == 0 {
      if j > 0 { ChainIncreases(h, root, stack, 0, j); }
    } else {
      var u := Walk(Linked(h, root, stack), Obj(root), path, n - 1).value;
      OwnPlace(h, root, stack, topArray, u.id, Prop(path[n - 1]), j);
      ChainInHeap(h, root, stack, j - 1);
      LeadsDown(h, root, stack, topArray, path, n - 1, j - 1);
    }
  }

  /** A path that exists, and goes by kind, is known. */
  lemma {:induction false} WalkIsKnown(h: Heap, root: nat, stack: seq<Member>, topArray: bool, path: seq<Step>, n: nat)
    requires ChainOK(h, root, stack) && StoredOK(h, root, stack) && HiddenOK(h, root, stack, topArray)
    requires n <= |path| && ByKind(h, root, stack, path, n)
    requires var end := Walk(Linked(h, root, stack), Obj(root), path, n); end.Some? && !end.value.Undefined?
    ensures KnownWalk(h, root, stack, path, n) == Walk(Linked(h, root, stack), Obj(root), path, n)
  {
    if n > 0 {
      var u := Walk(Linked(h, root, stack), Obj(root), path, n - 1).value;
      WalkIsKnown(h, root, stack, topArray, path, n - 1);
      hide ChainOK, StoredOK, HiddenOK, ByKind, KnownStep, Linked;
      if Has(h, u.id, Prop(path[n - 1])) {
        StoredIsKnown(h, root, stack, u, path[n - 1], n - 1);
      } else {
        LinkIsKnown(h, root, stack, topArray, path, n - 1, u);
      }
    }
  }

  lemma LinkIsKnown(h: Heap, root: nat, stack: seq<Member>, topArray: bool, path: seq<Step>, n: nat, u: Value)
    requires ChainOK(h, root, stack) && StoredOK(h, root, stack) && HiddenOK(h, root, stack, topArray)
    requires n < |path| && ByKind(h, root, stack, path, n + 1) && u.Obj?
    requires Walk(Linked(h, root, stack), Obj(root), path, n) == Some(u)
    requires Has(Linked(h, root, stack), u.id, Prop(path[n])) && !Has(h, u.id, Prop(path[n]))
    ensures KnownStep(h, root, stack, u, path[n], n) == Some(Linked(h, root, stack)[u.id][Prop(path[n])])
  {
    var j := LinkedOnly(h, root, stack, u.id, Prop(path[n]));
    ChainInHeap(h, root, stack, j);
    LeadsDown(h, root, stack, topArray, path, n, j);
    assert RunsDown(stack, path, j);
  }

  lemma StoredIsKnown(h: Heap, root: nat, stack: seq<Member>, u: Value, step: Step, n: nat)
    requires ChainOK(h, root, stack) && StoredOK(h, root, stack)
    requires u.Obj? && Has(h, u.id, Prop(step))
    requires Has(Linked(h, root, stack), u.id, Prop(step)) && !Linked(h, root, stack)[u.id][Prop(step)].Undefined?
    ensures KnownStep(h, root, stack, u, step, n) == Some(Linked(h, root, stack)[u.id][Prop(step)])
  {
    LinkedKeeps(h, root, stack, u.id, Prop(step));
    if n < |stack| && u == Chain(root, stack, n) && Matches(stack[n], step) {
      assert u.id == ChainId(root, stack, n) && Prop(step) == MemberProp(stack[n]);
    }
  }

  /** A known path goes by kind. */
  lemma KnownGoesByKind(h: Heap, root: nat, stack: seq<Member>, path: seq<Step>)
    requires ChainOK(h, root, stack) && StoredOK(h, root, stack)
    requires KnownWalk(h, root, stack, path, |path|).Some?
    ensures ByKind(h, root, stack, path, |path|)
  {
    forall i | 0 <= i < |stack| && i < |path| && RunsDown(stack, path, i)
               && !Has(h, ChainId(root, stack, i), MemberProp(stack[i]))
      ensures Matches(stack[i], path[i])
    {
      KnownPrefix(h, root, stack, path, i + 1, |path|);
      KnownRunsDown(h, root, stack, path, i);
    }
  }

  lemma {:induction false} KnownRunsDown(h: Heap, root: nat, stack: seq<Member>, path: seq<Step>, n: nat)
    requires ChainOK(h, root, stack) && StoredOK(h, root, stack) && n <= |stack| && n <= |path|
    requires KnownWalk(h, root, stack, path, n).Some? && forall j :: 0 <= j < n ==>
        Prop(path[j]) == MemberProp(stack[j])
    ensures KnownWalk(h, root, stack, path, n) == Some(Chain(root, stack, n))
  {
    if n > 0 {
      KnownRunsDown(h, root, stack, path, n - 1);
      ChainInHeap(h, root, stack, n - 1);
      assert Has(h, ChainId(root, stack, n - 1), MemberProp(stack[n - 1])) ==>
               h[ChainId(root, stack, n - 1)][MemberProp(stack[n - 1])] == stack[n - 1].container;
    }
  }

  /** Exactly which paths are known: those that lead to a defined value in the document as it stands, open
      containers linked to their parents, and go by kind.  The eager walk lands on that value. */
  lemma KnownExactlyWhen(h: Heap, root: nat, stack: seq<Member>, topArray: bool, refObject: Value, path: seq<Step>)
    requires ChainOK(h, root, stack) && StoredOK(h, root, stack) && HiddenOK(h, root, stack, topArray)
    ensures KnownWalk(h, root, stack, path, |path|).Some?
            <==> && ValueAt(Linked(h, root, stack), Obj(root), path).Some?
                 && ByKind(h, root, stack, path, |path|)
    ensures KnownWalk(h, root, stack, path, |path|).Some? ==>
              && EagerWalk(h, root, stack, refObject, path, |path|).At?
              && Some(EagerWalk(h, root, stack, refObject, path, |path|).refValue)
                 == ValueAt(Linked(h, root, stack), Obj(root), path)
  {
    if KnownWalk(h, root, stack, path, |path|).Some? {
      KnownIsWalk(h, root, stack, path, |path|);
      KnownGoesByKind(h, root, stack, path);
      EagerIsKnown(h, root, stack, topArray, refObject, path, |path|);
    } else if ValueAt(Linked(h, root, stack), Obj(root), path).Some? && ByKind(h, root, stack, path, |path|) {
      WalkIsKnown(h, root, stack, topArray, path, |path|);
    }
  }

  // ---- growth ------------------------------------------------------------------------------------------------

  /** From `h` to `h'` object `o` may have gained slots and objects may have been added; nothing else moved. */
  ghost predicate Grew(h: Heap, h': Heap, o: nat) {
    && (forall x :: x in h ==> x in h')
    && (forall x :: x in h && x != o ==> h'[x] == h[x])
    && (forall k :: Has(h, o, k) ==> Has(h', o, k) && h'[o][k] == h[o][k])
  }

  lemma GrewCompose(a: Heap, b: Heap, c: Heap, o: nat)
    requires Grew(a, b, o) && Grew(b, c, o)
    ensures Grew(a, c, o)
  {
    forall k | Has(a, o, k) ensures Has(c, o, k) && c[o][k] == a[o][k] {
      assert Has(b, o, k);
    }
  }

  /** The links move along with the heap. */
  lemma {:induction false} LinkedGrew(h: Heap, h': Heap, root: nat, stack: seq<Member>, o: nat)
    requires ChainOK(h, root, stack) && ChainOK(h', root, stack) && Grew(h, h', o)
    requires forall j :: 0 <= j < |stack| ==> o != ChainId(root, stack, j)
    ensures Grew(Linked(h, root, stack), Linked(h', root, stack), o)
    decreases |stack|
  {
    if stack != [] {
      var last := |stack| - 1;
      ChainPrefix(h, root, stack, last);
      ChainPrefix(h', root, stack, last);
      forall j | 0 <= j < last ensures o != ChainId(root, stack[..last], j) {
        assert o != ChainId(root, stack, j);
      }
      LinkedGrew(h, h', root, stack[..last], o);
      ChainInHeap(h, root, stack, last);
      LinkedKeys(h, root, stack[..last]);
      assert o != ChainId(root, stack, last);
      BothSet(Linked(h, root, stack[..last]), Linked(h', root, stack[..last]), o, ChainId(root, stack, last),
              MemberProp(stack[last]), stack[last].container);
      hide Grew, Set, ChainOK, ChainId;
    }
  }

  lemma BothSet(h: Heap, h': Heap, o: nat, x: nat, k: string, v: Value)
    requires Grew(h, h', o) && x in h && x != o
    ensures Grew(Set(h, x, k, v), Set(h', x, k, v), o)
  {
  }

  lemma {:induction false} LinkedKeys(h: Heap, root: nat, stack: seq<Member>)
    requires ChainOK(h, root, stack)
    ensures Linked(h, root, stack).Keys == h.Keys
    decreases |stack|
  {
    if stack != [] {
      var last := |stack| - 1;
      ChainPrefix(h, root, stack, last);
      LinkedKeys(h, root, stack[..last]);
      ChainInHeap(h, root, stack, last);
    }
  }

  /** Storing into the top container commutes with adding the links. */
  lemma {:induction false} LinkedSet(h: Heap, root: nat, stack: seq<Member>, o: nat, k: string, v: Value)
    requires ChainOK(h, root, stack) && o in h
    requires forall j :: 0 <= j < |stack| ==> o != ChainId(root, stack, j)
    ensures Linked(Set(h, o, k, v), root, stack) == Set(Linked(h, root, stack), o, k, v)
    decreases |stack|
  {
    if stack != [] {
      var last := |stack| - 1;
      ChainPrefix(h, root, stack, last);
      forall j | 0 <= j < last ensures o != ChainId(root, stack[..last], j) {
        assert o != ChainId(root, stack, j);
      }
      LinkedSet(h, root, stack[..last], o, k, v);
      LinkedKeys(h, root, stack[..last]);
      ChainInHeap(h, root, stack, last);
      assert o != ChainId(root, stack, last);
    }
  }
}
