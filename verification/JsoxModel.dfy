/** The values, objects and reference paths that JSOX revival works on.

    An object graph is a finite heap: object id -> own property -> value.  Property keys are strings, as in
    JavaScript: an array element sits under the decimal spelling of its index. */
module JsoxModel {
  import opened Options

  /** `Prim` stands for every value that is not an object (null, numbers, strings, booleans, ...). */
  datatype Value = Undefined | Prim(p: int) | Obj(id: nat)

  /** One element of a `ref[...]` path: a number, after the `(uint32_t)` cast every use of it makes, or a string. */
  datatype Step = Index(n: nat) | Name(s: string)

  type Slots = map<string, Value>
  type Heap = map<nat, Slots>

  function Digit(d: nat): char
    requires d < 10
  {
    "0123456789"[d]
  }

  function Decimal(n: nat): string {
    if n < 10 then [Digit(n)] else Decimal(n / 10) + [Digit(n % 10)]
  }

  /** The property a step reads. */
  function Prop(step: Step): string {
    match step
    case Index(n) => Decimal(n)
    case Name(s) => s
  }

  lemma DigitInjective(a: nat, b: nat)
    requires a < 10 && b < 10 && Digit(a) == Digit(b)
    ensures a == b
  {
  }

  /** Array slots never collide: an index can be read back from its spelling. */
  lemma {:induction false} DecimalInjective(m: nat, n: nat)
    requires Decimal(m) == Decimal(n)
    ensures m == n
  {
    var a, b := Decimal(m), Decimal(n);
    assert a[|a| - 1] == Digit(m % 10) && b[|b| - 1] == Digit(n % 10);
    DigitInjective(m % 10, n % 10);
    if m >= 10 && n >= 10 {
      assert a[..|a| - 1] == Decimal(m / 10) && b[..|b| - 1] == Decimal(n / 10);
      DecimalInjective(m / 10, n / 10);
    } else {
      DecimalNonempty(m / 10);
      DecimalNonempty(n / 10);
    }
  }

  lemma DecimalNonempty(n: nat)
    ensures |Decimal(n)| > 0
  {
  }

  // ---- heaps -------------------------------------------------------------------------------

  predicate Has(h: Heap, o: nat, k: string) {
    o in h && k in h[o]
  }

  /** Reading a property that is not there gives undefined. */
  function Get(h: Heap, o: nat, k: string): Value {
    if Has(h, o, k) then h[o][k] else Undefined
  }

  function Set(h: Heap, o: nat, k: string, v: Value): Heap {
    h[o := (if o in h then h[o] else map[])[k := v]]
  }

  function Delete(h: Heap, o: nat, k: string): Heap {
    if o in h then h[o := h[o] - {k}] else h
  }

  predicate InHeap(h: Heap, v: Value) {
    v.Obj? ==> v.id in h
  }

  /** No slot names an object outside the heap. */
  ghost predicate Closed(h: Heap) {
    forall o, k :: o in h && k in h[o] ==> InHeap(h, h[o][k])
  }

  /** Plain traversal: follow the first `n` steps of a path from `at`, every step an existing property. */
  function Walk(h: Heap, at: Value, path: seq<Step>, n: nat): (r: Option<Value>)
    requires n <= |path|
  {
    if n == 0 then Some(at)
    else
      match Walk(h, at, path, n - 1)
      case None => None
      case Some(v) =>
        if v.Obj? && Has(h, v.id, Prop(path[n - 1])) then Some(h[v.id][Prop(path[n - 1])]) else None
  }

  /** What a path means in a finished document: the value it lands on, which has to be one. */
  function ValueAt(h: Heap, root: Value, path: seq<Step>): Option<Value> {
    match Walk(h, root, path, |path|)
    case None => None
    case Some(v) => if v.Undefined? then None else Some(v)
  }

  // ---- reachability --------------------------------------------------------------------------

  /** `b` is the value of a slot of `a`, leaving out the objects in `skip`. */
  ghost predicate Edge(h: Heap, skip: set<nat>, a: nat, b: nat) {
    b !in skip && exists k :: Has(h, a, k) && h[a][k] == Obj(b)
  }

  ghost predicate IsTrail(h: Heap, skip: set<nat>, trail: seq<nat>) {
    && |trail| > 0
    && forall i :: 0 < i < |trail| ==> Edge(h, skip, trail[i - 1], trail[i])
  }

  ghost predicate Reaches(h: Heap, skip: set<nat>, from: set<nat>, o: nat) {
    exists trail: seq<nat> :: IsTrail(h, skip, trail) && trail[0] in from && trail[|trail| - 1] == o
  }

  /** The objects reachable from `from` through slots, never stepping onto an object in `skip`. */
  ghost function ReachSet(h: Heap, skip: set<nat>, from: set<nat>): set<nat> {
    set o | o in h && Reaches(h, skip, from, o)
  }

  ghost predicate ClosedUnder(h: Heap, skip: set<nat>, c: set<nat>) {
    forall a, b :: a in c && a in h && Edge(h, skip, a, b) ==> b in c
  }

  lemma ReachStart(h: Heap, skip: set<nat>, from: set<nat>, o: nat)
    requires o in from && o in h
    ensures o in ReachSet(h, skip, from)
  {
    var trail := [o];
    assert IsTrail(h, skip, trail);
  }

  lemma ReachStep(h: Heap, skip: set<nat>, from: set<nat>, a: nat, b: nat)
    requires Closed(h) && a in ReachSet(h, skip, from) && Edge(h, skip, a, b)
    ensures b in ReachSet(h, skip, from)
  {
    var trail: seq<nat> :| IsTrail(h, skip, trail) && trail[0] in from && trail[|trail| - 1] == a;
    var longer := trail + [b];
    forall i | 0 < i < |longer| ensures Edge(h, skip, longer[i - 1], longer[i]) {
      if i < |trail| {
        assert longer[i - 1] == trail[i - 1] && longer[i] == trail[i];
      }
    }
    assert IsTrail(h, skip, longer);
    var k :| Has(h, a, k) && h[a][k] == Obj(b);
    assert InHeap(h, h[a][k]);
  }

  lemma ReachClosed(h: Heap, skip: set<nat>, from: set<nat>)
    requires Closed(h)
    ensures ClosedUnder(h, skip, ReachSet(h, skip, from))
  {
    forall a, b | a in ReachSet(h, skip, from) && a in h && Edge(h, skip, a, b) ensures b in ReachSet(h, skip, from) {
      ReachStep(h, skip, from, a, b);
    }
  }

  lemma {:induction false} TrailStays(h: Heap, skip: set<nat>, c: set<nat>, trail: seq<nat>, n: nat)
    requires IsTrail(h, skip, trail) && trail[0] in c && n < |trail|
    requires ClosedUnder(h, skip, c)
    ensures trail[n] in c
  {
    if n > 0 {
      TrailStays(h, skip, c, trail, n - 1);
      assert Edge(h, skip, trail[n - 1], trail[n]);
    }
  }

  /** The reachable set is the least closed one. */
  lemma ReachLeast(h: Heap, skip: set<nat>, from: set<nat>, c: set<nat>)
    requires from <= c && ClosedUnder(h, skip, c)
    ensures ReachSet(h, skip, from) <= c
  {
    forall o | o in ReachSet(h, skip, from) ensures o in c {
      var trail: seq<nat> :| IsTrail(h, skip, trail) && trail[0] in from && trail[|trail| - 1] == o;
      TrailStays(h, skip, c, trail, |trail| - 1);
    }
  }
}
