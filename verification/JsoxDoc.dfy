/** Parse trees, the eager reference walk, and what building a document from its tree means. */
module JsoxDoc {
  import opened Options
  import opened JsoxModel
  import opened JsoxReviver

  // ---- parse trees ---------------------------------------------------------------------------------

  /** `tagged` nodes carry a class name: a registered class may run callbacks for them. */
  datatype Node =
    | Scalar(p: int, tagged: bool)
    | Undef
    | Hole                                   // an empty array element
    | Container(isArray: bool, tagged: bool, fields: seq<Field>)
    | Reference(path: seq<Step>)

  /** Array elements have no name. */
  datatype Field = Field(name: Option<string>, node: Node)

  function UnnamedBefore(fields: seq<Field>, i: nat): nat
    requires i <= |fields|
  {
    if i == 0 then 0 else UnnamedBefore(fields, i - 1) + if fields[i - 1].name.None? then 1 else 0
  }

  /** The property field `i` is stored under. */
  function PropAt(fields: seq<Field>, i: nat): string
    requires i < |fields|
  {
    match fields[i].name
    case Some(s) => s
    case None => Decimal(UnnamedBefore(fields, i))
  }

  predicate AllUnnamed(fields: seq<Field>) {
    forall i :: 0 <= i < |fields| ==> fields[i].name.None?
  }

  predicate UniqueProps(fields: seq<Field>) {
    forall i, j :: 0 <= i < j < |fields| ==> PropAt(fields, i) != PropAt(fields, j)
  }

  /** Property names are unique in every container, array elements are unnamed and object members named, and only arrays
      have holes. */
  predicate WellFormedTree(c: Node)
    requires c.Container?
    decreases c
  {
    && UniqueProps(c.fields)
    && (forall i :: 0 <= i < |c.fields| ==> (c.isArray <==> c.fields[i].name.None?))
    && forall i :: 0 <= i < |c.fields| ==>
         && (c.fields[i].node.Hole? ==> c.isArray)
         && (c.fields[i].node.Container? ==> WellFormedTree(c.fields[i].node))
  }

  predicate Untagged(c: Node)
    requires c.Container?
    decreases c
  {
    && !c.tagged
    && forall i :: 0 <= i < |c.fields| ==>
         && (c.fields[i].node.Scalar? ==> !c.fields[i].node.tagged)
         && (c.fields[i].node.Container? ==> Untagged(c.fields[i].node))
  }

  lemma {:induction false} UnnamedCount(fields: seq<Field>, i: nat)
    requires AllUnnamed(fields) && i <= |fields|
    ensures UnnamedBefore(fields, i) == i
  {
    if i > 0 {
      UnnamedCount(fields, i - 1);
    }
  }

  /** Arrays meet the uniqueness condition by themselves. */
  lemma ArrayPropsUnique(fields: seq<Field>)
    requires AllUnnamed(fields)
    ensures UniqueProps(fields)
  {
    forall i, j | 0 <= i < j < |fields| ensures PropAt(fields, i) != PropAt(fields, j) {
      UnnamedCount(fields, i);
      UnnamedCount(fields, j);
      if PropAt(fields, i) == PropAt(fields, j) {
        DecimalInjective(i, j);
      }
    }
  }

  // ---- the open chain ---------------------------------------------------------------------------------

  /** The stack member pushed for field `i`. */
  function MemberFor(fields: seq<Field>, i: nat, container: Value): Member
    requires i < |fields|
  {
    match fields[i].name
    case Some(s) => Member(container, false, 0, s)
    case None => Member(container, true, UnnamedBefore(fields, i), "")
  }

  function MemberProp(m: Member): string {
    if m.isArray then Decimal(m.index) else m.name
  }

  /** The open containers from the root down: the root, then the stack members. */
  function Chain(root: nat, stack: seq<Member>, j: nat): Value
    requires j <= |stack|
  {
    if j == 0 then Obj(root) else stack[j - 1].container
  }

  predicate OnStack(stack: seq<Member>, v: Value) {
    exists j :: 0 <= j < |stack| && stack[j].container == v
  }

  predicate IsOpen(root: nat, stack: seq<Member>, v: Value) {
    v == Obj(root) || OnStack(stack, v)
  }

  // ---- the eager walk, as the code does it ----------------------------------------------------------------

  /** `refObj` is the container the walk is in, `refValue` what it has landed on. */
  datatype Eager = Failed | At(refObj: nat, refValue: Value, offStack: bool)

  function Landed(refObj: nat, v: Value, offStack: bool, more: bool): Eager {
    if v.Obj? then At(v.id, v, offStack) else if more then Failed else At(refObj, v, offStack)
  }

  /** One step, at depth `idx` of the path; `more` tells whether further steps follow. */
  function EagerStep(h: Heap, stack: seq<Member>, refObject: Value, at: Eager, step: Step, idx: nat, more: bool): Eager
    requires at.At?
  {
    match step
    case Index(n) =>
      var element := Get(h, at.refObj, Prop(step));
      if !element.Undefined? then Landed(at.refObj, element, true, more)
      else if idx < |stack| && stack[idx].index == n && stack[idx].container.Obj? then
        At(stack[idx].container.id, stack[idx].container, false)
      else at
    case Name(s) =>
      if !at.offStack && idx < |stack| then
        if !stack[idx].isArray && stack[idx].name == s then Landed(at.refObj, stack[idx].container, false, more)
        else if Has(h, at.refObj, s) then Landed(at.refObj, h[at.refObj][s], true, more)
        else Failed
      else if Has(h, at.refObj, s) then Landed(at.refObj, h[at.refObj][s], true, more)
      else Landed(at.refObj, refObject, false, more)
  }

  function EagerWalk(h: Heap, root: nat, stack: seq<Member>, refObject: Value, path: seq<Step>, n: nat): Eager
    requires n <= |path|
  {
    if n == 0 then At(root, Obj(root), false)
    else
      var at := EagerWalk(h, root, stack, refObject, path, n - 1);
      if at.Failed? then Failed else EagerStep(h, stack, refObject, at, path[n - 1], n - 1, n < |path|)
  }

  // ---- the condition: every step is stored already, or is the next open container ----------------------------

  predicate Matches(m: Member, step: Step) {
    match step
    case Index(n) => m.isArray && m.index == n
    case Name(s) => !m.isArray && m.name == s
  }

  /** A step that is the next open container, or a stored, defined property. */
  function KnownStep(h: Heap, root: nat, stack: seq<Member>, at: Value, step: Step, idx: nat): Option<Value> {
    if !at.Obj? then None
    else if idx < |stack| && at == Chain(root, stack, idx) && Matches(stack[idx], step) then Some(stack[idx].container)
    else if Get(h, at.id, Prop(step)).Undefined? then None
    else Some(h[at.id][Prop(step)])
  }

  /** Where the first `n` steps lead when every one of them is known. */
  function KnownWalk(h: Heap, root: nat, stack: seq<Member>, path: seq<Step>, n: nat): Option<Value>
    requires n <= |path|
  {
    if n == 0 then Some(Obj(root))
    else
      match KnownWalk(h, root, stack, path, n - 1)
      case None => None
      case Some(at) => KnownStep(h, root, stack, at, path[n - 1], n - 1)
  }

  // ---- building -----------------------------------------------------------------------------------------------

  datatype Build = Build(heap: Heap, next: nat, deferred: seq<DeferredRef>)

  function Put(st: Build, o: nat, k: string, v: Value): Build {
    st.(heap := Set(st.heap, o, k, v))
  }

  /** A new empty object. */
  function Alloc(st: Build): Build {
    st.(heap := st.heap[st.next := map[]], next := st.next + 1)
  }

  /** A reference read inside container `o` that landed on an open container. */
  function Defer(st: Build, path: seq<Step>, o: nat): Build {
    Alloc(st).(deferred := st.deferred + [DeferredRef(path, st.next, Obj(o), Unresolved, Undefined)])
  }

  /** A reference that landed on `v`: the value itself, unless that is still open; undefined is not stored at all. */
  function ReadInto(st: Build, root: nat, stack: seq<Member>, o: nat, k: string, path: seq<Step>, v: Value): Build {
    if IsOpen(root, stack, v) then Put(Defer(st, path, o), o, k, Obj(st.next))
    else if v.Undefined? then st
    else Put(st, o, k, v)
  }

  /** Building field `i` of a container node into object `o`, the top of the open chain.  Arrays are stored in their
      parent before they are filled and objects after; a reference is read by the eager walk.  There is no result when a
      walk fails. */
  function BuildField(st: Build, root: nat, stack: seq<Member>, o: nat, c: Node, i: nat): Option<Build>
    requires c.Container? && i < |c.fields|
    decreases c, i, 0
  {
    var k := PropAt(c.fields, i);
    match c.fields[i].node
    case Scalar(p, _) => Some(Put(st, o, k, Prim(p)))
    case Undef => Some(Put(st, o, k, Undefined))
    case Hole => Some(st.(heap := Delete(Set(st.heap, o, k, Undefined), o, k)))
    case Reference(path) =>
      (match EagerWalk(st.heap, root, stack, Obj(o), path, |path|)
       case Failed => None
       case At(_, v, _) => Some(ReadInto(st, root, stack, o, k, path, v)))
    case Container(isArray, _, _) =>
      var child := Obj(st.next);
      var deeper := stack + [MemberFor(c.fields, i, child)];
      if isArray then BuildFields(Put(Alloc(st), o, k, child), root, deeper, st.next, c.fields[i].node,
                                  |c.fields[i].node.fields|)
      else
        match BuildFields(Alloc(st), root, deeper, st.next, c.fields[i].node, |c.fields[i].node.fields|)
        case None => None
        case Some(built) => Some(Put(built, o, k, child))
  }

  /** The first `n` fields of a container node, into object `o`. */
  function BuildFields(st: Build, root: nat, stack: seq<Member>, o: nat, c: Node, n: nat): Option<Build>
    requires c.Container? && n <= |c.fields|
    decreases c, n, 1
  {
    if n == 0 then Some(st)
    else
      match BuildFields(st, root, stack, o, c, n - 1)
      case None => None
      case Some(built) => BuildField(built, root, stack, o, c, n - 1)
  }

  /** A whole document: object 0 is its root. */
  function BuildDocument(c: Node): Option<Build>
    requires c.Container?
  {
    BuildFields(Build(map[0 := map[]], 1, []), 0, [], 0, c, |c.fields|)
  }

  // ---- which references are read well ------------------------------------------------------------------------

  predicate Known(st: Build, root: nat, stack: seq<Member>, path: seq<Step>) {
    KnownWalk(st.heap, root, stack, path, |path|).Some?
  }

  /** The walk ends on a container that is still open, by whatever steps: the reference is deferred. */
  predicate EndsOpen(st: Build, root: nat, stack: seq<Member>, o: nat, path: seq<Step>) {
    var at := EagerWalk(st.heap, root, stack, Obj(o), path, |path|);
    at.At? && IsOpen(root, stack, at.refValue)
  }

  /** Every reference of the field is known when it is read or, if `forward`, ends on an open container. */
  predicate ReadsField(st: Build, root: nat, stack: seq<Member>, o: nat, c: Node, i: nat, forward: bool)
    requires c.Container? && i < |c.fields|
    decreases c, i, 0
  {
    match c.fields[i].node
    case Reference(path) => Known(st, root, stack, path) || (forward && EndsOpen(st, root, stack, o, path))
    case Container(isArray, _, _) =>
      var child := Obj(st.next);
      var begun := if isArray then Put(Alloc(st), o, PropAt(c.fields, i), child) else Alloc(st);
      ReadsFields(begun, root, stack + [MemberFor(c.fields, i, child)], st.next, c.fields[i].node,
                  |c.fields[i].node.fields|, forward)
    case _ => true
  }

  predicate ReadsFields(st: Build, root: nat, stack: seq<Member>, o: nat, c: Node, n: nat, forward: bool)
    requires c.Container? && n <= |c.fields|
    decreases c, n, 1
  {
    n == 0
    || (&& ReadsFields(st, root, stack, o, c, n - 1, forward)
        && match BuildFields(st, root, stack, o, c, n - 1)
           case None => false
           case Some(built) => ReadsField(built, root, stack, o, c, n - 1, forward))
  }

  predicate ReadsDocument(c: Node, forward: bool)
    requires c.Container?
  {
    ReadsFields(Build(map[0 := map[]], 1, []), 0, [], 0, c, |c.fields|, forward)
  }
}
