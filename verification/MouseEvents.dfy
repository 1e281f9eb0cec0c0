/** Synthesis of mouse inputs: a request for buttons, position and scrolling becomes the transitions that reach it. */
module MouseEvents {
  import opened Options

  /** The bits of a button mask that the code tests; `Relative` asks for a position relative to the cursor. */
  datatype Button = Left | Right | Middle | X1 | X2 | Relative

  type Buttons = set<Button>

  /** The bits of an input's flags. */
  datatype Flag =
    | Move                                   // absolute, on the virtual desktop
    | Down(button: Button) | Up(button: Button)
    | XDown | XUp | Wheel | HWheel

  type Flags = set<Flag>

  /** What goes into `mouseData`; the amount of a scroll is in notches, before scaling. */
  datatype Data = Nothing | Button1 | Button2 | Notches(amount: real)

  /** One synthesised input; `x`, `y` are screen positions, before scaling to the virtual desktop. */
  datatype Input = Input(x: int, y: int, flags: Flags, data: Data)

  /** One request; what is missing is taken from the present state. */
  datatype Request = Request(x: Option<int>, y: Option<int>, buttons: Option<Buttons>, vscroll: Option<real>,
                             hscroll: Option<real>)

  // ---- one request, as a function ---------------------------------------------------------------------

  /** What the loop still has to do: `b` the requested buttons, `held` the recorded ones. */
  datatype Todo = Todo(b: Buttons, held: Buttons, scroll1: bool, scroll2: bool, downUp: real, rightLeft: real)

  function When(on: bool, flag: Flag): Flags {
    if on then {flag} else {}
  }

  /** The transitions of the left, right and middle button, all in the first input. */
  function Transitions(b: Buttons, held: Buttons): Flags {
    When(Left in b && Left !in held, Down(Left))
    + When(Right in b && Right !in held, Down(Right))
    + When(Middle in b && Middle !in held, Down(Middle))
    + When(Left !in b && Left in held, Up(Left))
    + When(Right !in b && Right in held, Up(Right))
    + When(Middle !in b && Middle in held, Up(Middle))
  }

  /** The recorded buttons once those transitions are on their way. */
  function Recorded(b: Buttons, held: Buttons): Buttons {
    held * {X1, X2} + b * {Left, Right, Middle}
  }

  /** One turn: flags and data of the input, what is left, and whether it was about an X button. */
  function Turn(t: Todo): (Flags, Data, Todo, bool) {
    if X1 in t.b && X1 !in t.held then ({XDown}, Button1, t.(b := t.b - {X1}), true)
    else if X1 !in t.b && X1 in t.held then ({XUp}, Button1, t.(held := t.held - {X1}), true)
    else if X2 in t.b && X2 !in t.held then ({XDown}, Button2, t.(b := t.b - {X2}), true)
    else if X2 !in t.b && X2 in t.held then ({XUp}, Button2, t.(held := t.held - {X2}), true)
    else if t.scroll1 then ({Wheel}, Notches(t.downUp), t.(scroll1 := false), false)
    else if t.scroll2 then ({HWheel}, Notches(t.rightLeft), t.(scroll2 := false), false)
    else ({}, Nothing, t, false)
  }

  function One(on: bool): nat {
    if on then 1 else 0
  }

  /** How many X buttons differ between request and record. */
  function XPending(t: Todo): nat {
    One((X1 in t.b) != (X1 in t.held)) + One((X2 in t.b) != (X2 in t.held))
  }

  function Scrolls(t: Todo): nat {
    One(t.scroll1) + One(t.scroll2)
  }

  predicate Again(t: Todo, hasX: bool) {
    hasX || t.scroll1 || t.scroll2
  }

  lemma TurnProgress(t: Todo)
    ensures var (_, _, rest, hasX) := Turn(t);
            && (hasX ==> XPending(t) > 0 && XPending(rest) == XPending(t) - 1 && Scrolls(rest) == Scrolls(t))
            && (!hasX ==>
                  && XPending(t) == 0 && XPending(rest) == 0
                  && Scrolls(rest) == if Scrolls(t) > 0 then Scrolls(t) - 1 else 0)
  {
  }

  /** The inputs from `t` on, the first of them carrying `flags` and the position besides. */
  function Inputs(t: Todo, x: int, y: int, flags: Flags): (r: seq<Input>)
    ensures |r| > 0
    decreases XPending(t) + Scrolls(t)
  {
    var (f, data, rest, hasX) := Turn(t);
    TurnProgress(t);
    [Input(x, y, flags + f, data)] + if Again(rest, hasX) then Inputs(rest, 0, 0, {}) else []
  }

  /** The recorded buttons after them. */
  function Final(t: Todo): Buttons
    decreases XPending(t) + Scrolls(t)
  {
    var (_, _, rest, hasX) := Turn(t);
    TurnProgress(t);
    if Again(rest, hasX) then Final(rest) else rest.held
  }

  /** The request completed from the present state; `cursor` is where the mouse is. */
  function Target(q: Request, cursor: (int, int), held: Buttons): (int, int, Buttons) {
    var x := if q.x.Some? then q.x.value else cursor.0;
    var y := if q.y.Some? then q.y.value else cursor.1;
    var b := if q.buttons.Some? then q.buttons.value else held;
    if Relative in b then (x + cursor.0, y + cursor.1, b) else (x, y, b)
  }

  function Amount(scroll: Option<real>): real {
    if scroll.Some? then scroll.value else 0.0
  }

  /** The vertical scroll is dropped when the horizontal one is zero, too; the horizontal one is kept even when zero. */
  function Start(q: Request, b: Buttons, held: Buttons): Todo {
    Todo(b, Recorded(b, held), q.vscroll.Some? && Amount(q.vscroll) != 0.0 && Amount(q.hscroll) != 0.0, q.hscroll.Some?,
         Amount(q.vscroll), Amount(q.hscroll))
  }

  function EventInputs(q: Request, cursor: (int, int), held: Buttons): seq<Input> {
    var (x, y, b) := Target(q, cursor, held);
    var moves := x != cursor.0 || y != cursor.1;
    Inputs(Start(q, b, held), if moves then x else 0, if moves then y else 0, When(moves, Move) + Transitions(b, held))
  }

  function EventButtons(q: Request, cursor: (int, int), held: Buttons): Buttons {
    Final(Start(q, Target(q, cursor, held).2, held))
  }

  // ---- how many ------------------------------------------------------------------------------------------

  /** Exactly one input for each X transition, then one for each scroll, or a single one for neither. */
  lemma {:induction false} InputCount(t: Todo, x: int, y: int, flags: Flags)
    ensures |Inputs(t, x, y, flags)| == XPending(t) + if Scrolls(t) == 0 then 1 else Scrolls(t)
    decreases XPending(t) + Scrolls(t)
  {
    var (_, _, rest, hasX) := Turn(t);
    TurnProgress(t);
    if Again(rest, hasX) {
      InputCount(rest, 0, 0, {});
    }
  }

  /** Between one and four, so four slots suffice. */
  lemma OneToFourInputs(q: Request, cursor: (int, int), held: Buttons)
    ensures 1 <= |EventInputs(q, cursor, held)| <= 4
  {
    var (x, y, b) := Target(q, cursor, held);
    var moves := x != cursor.0 || y != cursor.1;
    InputCount(Start(q, b, held), if moves then x else 0, if moves then y else 0,
               When(moves, Move) + Transitions(b, held));
  }

  // ---- replaying the left, right and middle button -------------------------------------------------------

  /** The three buttons whose presses are recorded. */
  type Main = k: Button | k == Left || k == Right || k == Middle witness Left

  /** The state of a button after one input; none when a pressed button is pressed or a released one released. */
  function Replay1(k: Main, pressed: bool, flags: Flags): Option<bool> {
    if Down(k) in flags && Up(k) in flags then None
    else if Down(k) in flags then (if pressed then None else Some(true))
    else if Up(k) in flags then (if pressed then Some(false) else None)
    else Some(pressed)
  }

  function Replay(k: Main, pressed: bool, inputs: seq<Input>): Option<bool>
    decreases |inputs|
  {
    if inputs == [] then Some(pressed)
    else
      match Replay1(k, pressed, inputs[0].flags)
      case None => None
      case Some(p) => Replay(k, p, inputs[1..])
  }

  lemma TurnLeavesButtons(t: Todo, k: Main)
    ensures var (f, _, rest, _) := Turn(t);
            && Down(k) !in f && Up(k) !in f
            && (k in rest.held <==> k in t.held)
  {
  }

  lemma {:induction false} RestIsQuiet(t: Todo, k: Main, pressed: bool)
    ensures Replay(k, pressed, Inputs(t, 0, 0, {})) == Some(pressed)
    ensures k in Final(t) <==> k in t.held
    decreases XPending(t) + Scrolls(t)
  {
    var (f, data, rest, hasX) := Turn(t);
    TurnProgress(t);
    TurnLeavesButtons(t, k);
    var inputs := Inputs(t, 0, 0, {});
    if Again(rest, hasX) {
      RestIsQuiet(rest, k, pressed);
      assert inputs[1..] == Inputs(rest, 0, 0, {});
    } else {
      assert inputs[1..] == [];
    }
  }

  lemma TransitionsAreRight(k: Main, b: Buttons, held: Buttons, moves: bool, f: Flags)
    requires Down(k) !in f && Up(k) !in f
    ensures Replay1(k, k in held, When(moves, Move) + Transitions(b, held) + f) == Some(k in b)
    ensures k in Recorded(b, held) <==> k in b
  {
  }

  /** The inputs of one request take each button from its recorded to its requested state, which is recorded then; they
      never press a pressed button or release a released one. */
  lemma EventReplays(k: Main, q: Request, cursor: (int, int), held: Buttons)
    ensures Replay(k, k in held, EventInputs(q, cursor, held)) == Some(k in EventButtons(q, cursor, held))
    ensures k in EventButtons(q, cursor, held) <==> k in (if q.buttons.Some? then q.buttons.value else held)
  {
    hide Turn, Transitions, Recorded;
    var (x, y, b) := Target(q, cursor, held);
    var moves := x != cursor.0 || y != cursor.1;
    var t := Start(q, b, held);
    var (f, data, rest, hasX) := Turn(t);
    TurnProgress(t);
    TurnLeavesButtons(t, k);
    TransitionsAreRight(k, b, held, moves, f);
    RestIsQuiet(t, k, false);
    var inputs := EventInputs(q, cursor, held);
    if Again(rest, hasX) {
      RestIsQuiet(rest, k, k in b);
      assert inputs[1..] == Inputs(rest, 0, 0, {});
    } else {
      assert inputs[1..] == [];
    }
  }

  // ---- a list of requests -----------------------------------------------------------------------------------

  function AllInputs(events: seq<Request>, cursor: (int, int), held: Buttons): seq<Input> {
    if events == [] then []
    else
      var (x, y, _) := Target(events[0], cursor, held);
      EventInputs(events[0], cursor, held) + AllInputs(events[1..], (x, y), EventButtons(events[0], cursor, held))
  }

  function AllButtons(events: seq<Request>, cursor: (int, int), held: Buttons): Buttons {
    if events == [] then held
    else
      var (x, y, _) := Target(events[0], cursor, held);
      AllButtons(events[1..], (x, y), EventButtons(events[0], cursor, held))
  }

  lemma {:induction false} ReplayConcat(k: Main, pressed: bool, a: seq<Input>, b: seq<Input>)
    requires Replay(k, pressed, a).Some?
    ensures Replay(k, pressed, a + b) == Replay(k, Replay(k, pressed, a).value, b)
    decreases |a|
  {
    if a == [] {
      assert a + b == b;
    } else {
      assert (a + b)[1..] == a[1..] + b;
      ReplayConcat(k, Replay1(k, pressed, a[0].flags).value, a[1..], b);
    }
  }

  /** Replaying the whole emitted sequence from the initial state reaches the recorded final state, without ever
      pressing a pressed button or releasing a released one. */
  lemma {:induction false} SequenceReplays(k: Main, events: seq<Request>, cursor: (int, int), held: Buttons)
    ensures Replay(k, k in held, AllInputs(events, cursor, held)) == Some(k in AllButtons(events, cursor, held))
    decreases |events|
  {
    if events != [] {
      var (x, y, _) := Target(events[0], cursor, held);
      var next := EventButtons(events[0], cursor, held);
      EventReplays(k, events[0], cursor, held);
      SequenceReplays(k, events[1..], (x, y), next);
      ReplayConcat(k, k in held, EventInputs(events[0], cursor, held), AllInputs(events[1..], (x, y), next));
    }
  }

  // ---- what does not work as for those three ------------------------------------------------------------------

  /** A press of an X button is never recorded: afterwards one counts as held only if it did before and still should. */
  lemma {:induction false} XPressesForgotten(t: Todo)
    ensures Final(t) * {X1, X2} == t.b * t.held * {X1, X2}
    decreases XPending(t) + Scrolls(t)
  {
    var (_, _, rest, hasX) := Turn(t);
    TurnProgress(t);
    TurnKeepsX(t);
    if Again(rest, hasX) {
      XPressesForgotten(rest);
    } else {
      assert XPending(t) == 0;
    }
  }

  lemma TurnKeepsX(t: Todo)
    ensures var (_, _, rest, _) := Turn(t);
            rest.b * rest.held * {X1, X2} == t.b * t.held * {X1, X2}
  {
  }

  /** The two buttons whose presses are not recorded. */
  type Side = k: Button | k == X1 || k == X2 witness X1

  function DataOf(k: Side): Data {
    if k == X1 then Button1 else Button2
  }

  /** The state of an X button after one input. */
  function ReplayX1(k: Side, pressed: bool, input: Input): Option<bool> {
    if input.data != DataOf(k) then Some(pressed)
    else if XDown in input.flags && XUp in input.flags then None
    else if XDown in input.flags then (if pressed then None else Some(true))
    else if XUp in input.flags then (if pressed then Some(false) else None)
    else Some(pressed)
  }

  function ReplayX(k: Side, pressed: bool, inputs: seq<Input>): Option<bool>
    decreases |inputs|
  {
    if inputs == [] then Some(pressed)
    else
      match ReplayX1(k, pressed, inputs[0])
      case None => None
      case Some(p) => ReplayX(k, p, inputs[1..])
  }

  lemma {:induction false} ReplayXConcat(k: Side, pressed: bool, a: seq<Input>, b: seq<Input>)
    ensures ReplayX(k, pressed, a + b)
         == if ReplayX(k, pressed, a).None? then None else ReplayX(k, ReplayX(k, pressed, a).value, b)
    decreases |a|
  {
    if a == [] {
      assert a + b == b;
    } else {
      assert (a + b)[1..] == a[1..] + b;
      var first := ReplayX1(k, pressed, a[0]);
      if first.Some? { ReplayXConcat(k, first.value, a[1..], b); }
    }
  }

  /** What a request does to an X button: it is pressed when it is asked for and not recorded, released when it is
      recorded and not asked for. */
  function XAfter(asked: bool, recorded: bool, pressed: bool): Option<bool> {
    if asked && !recorded then (if pressed then None else Some(true))
    else if !asked && recorded then (if pressed then Some(false) else None)
    else Some(pressed)
  }

  lemma {:induction false} XTurns(t: Todo, x: int, y: int, flags: Flags, k: Side, pressed: bool)
    requires XDown !in flags && XUp !in flags
    ensures ReplayX(k, pressed, Inputs(t, x, y, flags)) == XAfter(k in t.b, k in t.held, pressed)
    decreases XPending(t) + Scrolls(t)
  {
    var (f, data, rest, hasX) := Turn(t);
    TurnProgress(t);
    var inputs := Inputs(t, x, y, flags);
    var first := XTurn(t, x, y, flags, k, pressed);
    if Again(rest, hasX) {
      assert inputs[1..] == Inputs(rest, 0, 0, {});
      if first.Some? { XTurns(rest, 0, 0, {}, k, first.value); }
    } else {
      assert inputs[1..] == [];
    }
  }

  /** One input does all there is to do for the button, or nothing. */
  lemma XTurn(t: Todo, x: int, y: int, flags: Flags, k: Side, pressed: bool) returns (first: Option<bool>)
    requires XDown !in flags && XUp !in flags
    ensures var (f, data, rest, hasX) := Turn(t);
            && first == ReplayX1(k, pressed, Input(x, y, flags + f, data))
            && (!Again(rest, hasX) ==> first == XAfter(k in t.b, k in t.held, pressed))
            && (first.None? ==> XAfter(k in t.b, k in t.held, pressed).None?)
            && (first.Some? ==>
                  XAfter(k in rest.b, k in rest.held, first.value) == XAfter(k in t.b, k in t.held, pressed))
  {
    var (f, data, _, _) := Turn(t);
    first := ReplayX1(k, pressed, Input(x, y, flags + f, data));
  }

  /** Whether a request asks for the button; what is missing is taken from the record. */
  predicate Asks(k: Side, q: Request, recorded: bool) {
    if q.buttons.Some? then k in q.buttons.value else recorded
  }

  lemma EventReplaysX(k: Side, q: Request, cursor: (int, int), held: Buttons, pressed: bool)
    ensures var asked := Asks(k, q, k in held);
            && ReplayX(k, pressed, EventInputs(q, cursor, held)) == XAfter(asked, k in held, pressed)
            && (k in EventButtons(q, cursor, held) <==> asked && k in held)
  {
    hide Turn;
    var (x, y, b) := Target(q, cursor, held);
    var moves := x != cursor.0 || y != cursor.1;
    var flags := When(moves, Move) + Transitions(b, held);
    XTurns(Start(q, b, held), if moves then x else 0, if moves then y else 0, flags, k, pressed);
    XPressesForgotten(Start(q, b, held));
    assert k in {X1, X2};
    assert k in Final(Start(q, b, held)) <==> k in Final(Start(q, b, held)) * {X1, X2};
  }

  /** Some request of the list asks for the button while it is not recorded. */
  predicate AsksUnrecorded(k: Side, events: seq<Request>, recorded: bool) {
    if events == [] then false
    else
      var asked := Asks(k, events[0], recorded);
      (asked && !recorded) || AsksUnrecorded(k, events[1..], asked && recorded)
  }

  /** Once the record has lost a pressed button it never finds it again. */
  lemma {:induction false} LostForGood(k: Side, events: seq<Request>, cursor: (int, int), held: Buttons)
    requires k !in held
    ensures k !in AllButtons(events, cursor, held)
    ensures ReplayX(k, true, AllInputs(events, cursor, held)) != Some(false)
    decreases |events|
  {
    if events != [] {
      var (x, y, _) := Target(events[0], cursor, held);
      var next := EventButtons(events[0], cursor, held);
      EventReplaysX(k, events[0], cursor, held, true);
      LostForGood(k, events[1..], (x, y), next);
      ReplayXConcat(k, true, EventInputs(events[0], cursor, held), AllInputs(events[1..], (x, y), next));
    }
  }

  /** Replaying an X button over a whole list never presses it pressed or releases it released, and ends in the recorded
      state, if and only if no request of the list asks for it while it is not recorded. */
  lemma {:induction false} XReplaysExactlyWhen(k: Side, events: seq<Request>, cursor: (int, int), held: Buttons)
    ensures ReplayX(k, k in held, AllInputs(events, cursor, held)) == Some(k in AllButtons(events, cursor, held))
            <==> !AsksUnrecorded(k, events, k in held)
    decreases |events|
  {
    if events != [] {
      var (x, y, _) := Target(events[0], cursor, held);
      var next := EventButtons(events[0], cursor, held);
      EventReplaysX(k, events[0], cursor, held, k in held);
      ReplayXConcat(k, k in held, EventInputs(events[0], cursor, held), AllInputs(events[1..], (x, y), next));
      if Asks(k, events[0], k in held) && k !in held {
        LostForGood(k, events[1..], (x, y), next);
      } else {
        XReplaysExactlyWhen(k, events[1..], (x, y), next);
      }
    }
  }

  /** So asking for a held X1 twice presses it twice. */
  lemma XPressedTwice()
    ensures var q := Request(None, None, Some({X1}), None, None);
            var inputs := AllInputs([q, q], (0, 0), {});
            |inputs| == 4 && inputs[0] == inputs[2] == Input(0, 0, {XDown}, Button1)
  {
    var q := Request(None, None, Some({X1}), None, None);
    var t := Start(q, {X1}, {});
    assert t.b == {X1} && t.held == {};
    var rest := t.(b := {});
    var none: Flags := {};
    assert t.b - {X1} == {} && none + none == none && none + {XDown} == {XDown};
    assert Turn(t) == ({XDown}, Button1, rest, true);
    assert Turn(rest) == ({}, Nothing, rest, false);
    assert Inputs(rest, 0, 0, {}) == [Input(0, 0, {}, Nothing)];
    assert Final(rest) == {};
    assert When(false, Move) + Transitions({X1}, {}) == {};
    assert EventInputs(q, (0, 0), {}) == [Input(0, 0, {XDown}, Button1), Input(0, 0, {}, Nothing)];
    assert EventButtons(q, (0, 0), {}) == {};
    assert [q, q][1..] == [q];
    assert AllInputs([q], (0, 0), {}) == EventInputs(q, (0, 0), {}) + AllInputs([q][1..], (0, 0), {});
  }

  // ---- scrolls -------------------------------------------------------------------------------------------------

  /** If `on`, one input has the flag, and carries the amount; if not, none has it. */
  ghost predicate Emits(inputs: seq<Input>, flag: Flag, on: bool, amount: real) {
    && (on <==> exists i :: 0 <= i < |inputs| && flag in inputs[i].flags)
    && (forall i :: 0 <= i < |inputs| && flag in inputs[i].flags ==> inputs[i].data == Notches(amount))
    && forall i, j :: 0 <= i < j < |inputs| ==> flag !in inputs[i].flags || flag !in inputs[j].flags
  }

  lemma EmitsAfter(first: Input, rest: seq<Input>, flag: Flag, on: bool, amount: real)
    requires if flag in first.flags then on && first.data == Notches(amount) && Emits(rest, flag, false, amount)
             else Emits(rest, flag, on, amount)
    ensures Emits([first] + rest, flag, on, amount)
  {
    var inputs := [first] + rest;
    if flag in first.flags { assert flag in inputs[0].flags; }
    if i :| 0 <= i < |rest| && flag in rest[i].flags { assert flag in inputs[i + 1].flags; }
    forall i | 0 < i < |inputs| ensures inputs[i] == rest[i - 1] {}
  }

  lemma {:induction false} ScrollInputs(t: Todo, x: int, y: int, flags: Flags, flag: Flag)
    requires (flag == Wheel || flag == HWheel) && flag !in flags
    ensures if flag == Wheel then Emits(Inputs(t, x, y, flags), flag, t.scroll1, t.downUp)
            else Emits(Inputs(t, x, y, flags), flag, t.scroll2, t.rightLeft)
    decreases XPending(t) + Scrolls(t)
  {
    hide Emits;
    var (f, data, rest, hasX) := Turn(t);
    TurnProgress(t);
    var on, amount := if flag == Wheel then t.scroll1 else t.scroll2, if flag == Wheel then t.downUp else t.rightLeft;
    if Again(rest, hasX) {
      ScrollInputs(rest, 0, 0, {}, flag);
      EmitsAfter(Input(x, y, flags + f, data), Inputs(rest, 0, 0, {}), flag, on, amount);
    } else {
      EmitsNone(flag, amount);
      EmitsAfter(Input(x, y, flags + f, data), [], flag, on, amount);
    }
  }

  lemma EmitsNone(flag: Flag, amount: real)
    ensures Emits([], flag, false, amount)
  {
  }

  /** A vertical scroll is emitted, once and with its amount, exactly when both amounts are nonzero: alone it is
      dropped. */
  lemma VerticalScrollNeedsBoth(q: Request, cursor: (int, int), held: Buttons)
    ensures var on := q.vscroll.Some? && q.vscroll.value != 0.0 && q.hscroll.Some? && q.hscroll.value != 0.0;
            Emits(EventInputs(q, cursor, held), Wheel, on, if on then q.vscroll.value else 0.0)
  {
    var (x, y, b) := Target(q, cursor, held);
    var moves := x != cursor.0 || y != cursor.1;
    var flags := When(moves, Move) + Transitions(b, held);
    ScrollInputs(Start(q, b, held), if moves then x else 0, if moves then y else 0, flags, Wheel);
  }

  /** A horizontal one is emitted, once and with its amount, whenever it is given, even when it is zero. */
  lemma HorizontalScrollIsKept(q: Request, cursor: (int, int), held: Buttons)
    ensures Emits(EventInputs(q, cursor, held), HWheel, q.hscroll.Some?,
                  if q.hscroll.Some? then q.hscroll.value else 0.0)
  {
    var (x, y, b) := Target(q, cursor, held);
    var moves := x != cursor.0 || y != cursor.1;
    var flags := When(moves, Move) + Transitions(b, held);
    ScrollInputs(Start(q, b, held), if moves then x else 0, if moves then y else 0, flags, HWheel);
  }

  // ---- where the mouse is sent ---------------------------------------------------------------------------------

  /** The input leaves the mouse where it is. */
  predicate Still(input: Input) {
    Move !in input.flags && input.x == 0 && input.y == 0
  }

  lemma {:induction false} OnlyFirstMoves(t: Todo, x: int, y: int, flags: Flags)
    ensures var inputs := Inputs(t, x, y, flags);
            && inputs[0].x == x && inputs[0].y == y && (Move in inputs[0].flags <==> Move in flags)
            && forall i :: 0 < i < |inputs| ==> Still(inputs[i])
    decreases XPending(t) + Scrolls(t)
  {
    var (f, data, rest, hasX) := Turn(t);
    TurnProgress(t);
    if Again(rest, hasX) {
      OnlyFirstMoves(rest, 0, 0, {});
      assert Inputs(t, x, y, flags)[1..] == Inputs(rest, 0, 0, {});
    }
  }

  /** The coordinate asked for: as given, or that of the cursor, and counted from the cursor for a relative one. */
  function Wish(given: Option<int>, here: int, relative: bool): int {
    (if given.Some? then given.value else here) + if relative then here else 0
  }

  /** The first input moves the mouse to the point asked for, if it is not there already; no other input moves it. */
  lemma MovesWhereAsked(q: Request, cursor: (int, int), held: Buttons)
    ensures var relative := Relative in (if q.buttons.Some? then q.buttons.value else held);
            var x, y := Wish(q.x, cursor.0, relative), Wish(q.y, cursor.1, relative);
            var inputs := EventInputs(q, cursor, held);
            && |inputs| > 0
            && (if x == cursor.0 && y == cursor.1 then Still(inputs[0])
                else Move in inputs[0].flags && inputs[0].x == x && inputs[0].y == y)
            && forall i :: 0 < i < |inputs| ==> Still(inputs[i])
  {
    var (x, y, b) := Target(q, cursor, held);
    var moves := x != cursor.0 || y != cursor.1;
    OnlyFirstMoves(Start(q, b, held), if moves then x else 0, if moves then y else 0,
                   When(moves, Move) + Transitions(b, held));
  }

  /** Where the mouse is after some inputs. */
  function CursorAfter(cursor: (int, int), inputs: seq<Input>): (int, int)
    decreases |inputs|
  {
    if inputs == [] then cursor
    else CursorAfter(if Move in inputs[0].flags then (inputs[0].x, inputs[0].y) else cursor, inputs[1..])
  }

  lemma {:induction false} CursorStays(cursor: (int, int), inputs: seq<Input>)
    requires forall i :: 0 <= i < |inputs| ==> Still(inputs[i])
    ensures CursorAfter(cursor, inputs) == cursor
    decreases |inputs|
  {
    if inputs != [] { CursorStays(cursor, inputs[1..]); }
  }

  lemma {:induction false} CursorConcat(cursor: (int, int), a: seq<Input>, b: seq<Input>)
    ensures CursorAfter(cursor, a + b) == CursorAfter(CursorAfter(cursor, a), b)
    decreases |a|
  {
    if a == [] {
      assert a + b == b;
    } else {
      assert (a + b)[1..] == a[1..] + b;
      CursorConcat(if Move in a[0].flags then (a[0].x, a[0].y) else cursor, a[1..], b);
    }
  }

  /** The inputs of one request take the mouse to the point asked for. */
  lemma EventMoves(q: Request, cursor: (int, int), held: Buttons)
    ensures var relative := Relative in (if q.buttons.Some? then q.buttons.value else held);
            CursorAfter(cursor, EventInputs(q, cursor, held))
            == (Wish(q.x, cursor.0, relative), Wish(q.y, cursor.1, relative))
  {
    hide EventInputs;
    MovesWhereAsked(q, cursor, held);
    var inputs := EventInputs(q, cursor, held);
    CursorStays(if Move in inputs[0].flags then (inputs[0].x, inputs[0].y) else cursor, inputs[1..]);
  }

  /** Where a list of requests leaves the mouse. */
  function AllCursor(events: seq<Request>, cursor: (int, int), held: Buttons): (int, int) {
    if events == [] then cursor
    else
      var (x, y, _) := Target(events[0], cursor, held);
      AllCursor(events[1..], (x, y), EventButtons(events[0], cursor, held))
  }

  /** Replaying the moves of everything emitted for a list of requests ends at the position kept for the next one. */
  lemma {:induction false} CursorReplays(events: seq<Request>, cursor: (int, int), held: Buttons)
    ensures CursorAfter(cursor, AllInputs(events, cursor, held)) == AllCursor(events, cursor, held)
    decreases |events|
  {
    if events != [] {
      var (x, y, _) := Target(events[0], cursor, held);
      var next := EventButtons(events[0], cursor, held);
      EventMoves(events[0], cursor, held);
      assert CursorAfter(cursor, EventInputs(events[0], cursor, held)) == (x, y);
      hide EventInputs, EventButtons, Target, Wish, CursorAfter;
      CursorReplays(events[1..], (x, y), next);
      CursorConcat(cursor, EventInputs(events[0], cursor, held), AllInputs(events[1..], (x, y), next));
    }
  }

  // ---- the code ---------------------------------------------------------------------------------------------------

  /** The globals: where the mouse was last sent, and the recorded buttons; `sent` is what went to the system. */
  class Hid {
    var mouseX: int
    var mouseY: int
    var buttons: Buttons
    var sent: seq<Input>

    constructor ()
      ensures buttons == {} && sent == [] && mouseX == 0 && mouseY == 0
    {
      mouseX, mouseY, buttons, sent := 0, 0, {}, [];
    }
  }

  /** The loop state of a request, with what it has produced. */
  ghost predicate InLoop(t: Todo, x: int, y: int, flags: Flags, done: seq<Input>, whole: seq<Input>, last: Buttons) {
    && whole == done + Inputs(t, x, y, flags)
    && last == Final(t)
  }

  /** One pass through the loop body: the input it fills in, and what is left. */
  method FillInput(t: Todo, x: int, y: int, flags: Flags) returns (input: Input, rest: Todo, hasX: bool)
    ensures (input, rest, hasX) == (Input(x, y, flags + Turn(t).0, Turn(t).1), Turn(t).2, Turn(t).3)
  {
    var b, held, scroll1, scroll2 := t.b, t.held, t.scroll1, t.scroll2;
    var f, data := flags, Nothing;
    if X1 in b && X1 !in held {
      f := f + {XDown};
      data := Button1;
      b := b - {X1};
      hasX := true;
    } else if X1 !in b && X1 in held {
      f := f + {XUp};
      data := Button1;
      held := held - {X1};
      hasX := true;
    } else if X2 in b && X2 !in held {
      f := f + {XDown};
      data := Button2;
      b := b - {X2};
      hasX := true;
    } else if X2 !in b && X2 in held {
      f := f + {XUp};
      data := Button2;
      held := held - {X2};
      hasX := true;
    } else {
      hasX := false;
      if scroll1 {
        f := f + {Wheel};
        data := Notches(t.downUp);
        scroll1 := false;
      } else if scroll2 {
        f := f + {HWheel};
        data := Notches(t.rightLeft);
        scroll2 := false;
      }
    }
    assert flags + {} == flags;
    input := Input(x, y, f, data);
    rest := Todo(b, held, scroll1, scroll2, t.downUp, t.rightLeft);
  }

  lemma LoopAdvances(t: Todo, x: int, y: int, flags: Flags, done: seq<Input>, whole: seq<Input>, last: Buttons)
    requires InLoop(t, x, y, flags, done, whole, last)
    ensures var (f, data, rest, hasX) := Turn(t);
            var done' := done + [Input(x, y, flags + f, data)];
            && |done'| <= |whole|
            && if Again(rest, hasX) then
                 InLoop(rest, 0, 0, {}, done', whole, last) && XPending(rest) + Scrolls(rest) < XPending(t) + Scrolls(t)
               else done' == whole && rest.held == last
  {
    TurnProgress(t);
    var (f, data, rest, hasX) := Turn(t);
    if Again(rest, hasX) {
      assert done + Inputs(t, x, y, flags) == done + [Input(x, y, flags + f, data)] + Inputs(rest, 0, 0, {});
    } else {
      assert Inputs(t, x, y, flags) == [Input(x, y, flags + f, data)];
    }
  }

  /** `mouse.event(x, y, buttons, ...)`: fills an array of four inputs and sends what it used of it. */
  method Event(hid: Hid, q: Request, cursor: (int, int))
    modifies hid`buttons, hid`sent
    ensures hid.sent == old(hid.sent) + EventInputs(q, cursor, old(hid.buttons))
    ensures hid.buttons == EventButtons(q, cursor, old(hid.buttons))
  {
    hide Transitions, Recorded, Turn;
    var (x, y, b) := Target(q, cursor, hid.buttons);
    var inputs := new Input[4](_ => Input(0, 0, {}, Nothing));
    var moves := x != cursor.0 || y != cursor.1;
    var flags := When(moves, Move) + Transitions(b, hid.buttons);
    var px, py := if moves then x else 0, if moves then y else 0;
    ghost var whole, last := EventInputs(q, cursor, hid.buttons), EventButtons(q, cursor, hid.buttons);
    OneToFourInputs(q, cursor, hid.buttons);
    var t := Start(q, b, hid.buttons);
    var used, again := 0, true;
    while again
      invariant used <= |whole| <= 4 && inputs.Length == 4 && fresh(inputs)
      invariant hid.sent == old(hid.sent)
      invariant again ==> InLoop(t, px, py, flags, inputs[..used], whole, last)
      invariant !again ==> inputs[..used] == whole && hid.buttons == last
      decreases again, XPending(t) + Scrolls(t)
    {
      ghost var done := inputs[..used];
      LoopAdvances(t, px, py, flags, done, whole, last);
      var input, rest, hasX := FillInput(t, px, py, flags);
      inputs[used] := input;
      hid.buttons := rest.held;
      used := used + 1;
      assert inputs[..used] == done + [input];
      again := Again(rest, hasX);
      t, px, py, flags := rest, 0, 0, {};
    }
    hid.sent := hid.sent + inputs[..used];
  }

  /** `mouse.event([...])`: all requests in turn, collected in one list and sent at once. */
  method GenerateEvents(hid: Hid, events: seq<Request>)
    modifies hid
    ensures hid.sent == old(hid.sent) + AllInputs(events, (old(hid.mouseX), old(hid.mouseY)), old(hid.buttons))
    ensures hid.buttons == AllButtons(events, (old(hid.mouseX), old(hid.mouseY)), old(hid.buttons))
    ensures (hid.mouseX, hid.mouseY) == AllCursor(events, (old(hid.mouseX), old(hid.mouseY)), old(hid.buttons))
    ensures (hid.mouseX, hid.mouseY)
            == CursorAfter((old(hid.mouseX), old(hid.mouseY)), hid.sent[|old(hid.sent)|..])
  {
    hide EventInputs, EventButtons, Target;
    var inputs: seq<Input> := [];
    var n := 0;
    while n < |events|
      invariant n <= |events| && hid.sent == old(hid.sent)
      invariant inputs + AllInputs(events[n..], (hid.mouseX, hid.mouseY), hid.buttons)
                == AllInputs(events, (old(hid.mouseX), old(hid.mouseY)), old(hid.buttons))
      invariant AllButtons(events[n..], (hid.mouseX, hid.mouseY), hid.buttons)
                == AllButtons(events, (old(hid.mouseX), old(hid.mouseY)), old(hid.buttons))
      invariant AllCursor(events[n..], (hid.mouseX, hid.mouseY), hid.buttons)
                == AllCursor(events, (old(hid.mouseX), old(hid.mouseY)), old(hid.buttons))
    {
      assert events[n..][1..] == events[n + 1..];
      var more := GenerateEvent(hid, events[n]);
      inputs := inputs + more;
      n := n + 1;
    }
    assert events[n..] == [];
    hid.sent := hid.sent + inputs;
    CursorReplays(events, (old(hid.mouseX), old(hid.mouseY)), old(hid.buttons));
    assert hid.sent[|old(hid.sent)|..] == inputs;
  }

  method GenerateEvent(hid: Hid, q: Request) returns (inputs: seq<Input>)
    modifies hid`mouseX, hid`mouseY, hid`buttons
    ensures inputs == EventInputs(q, old((hid.mouseX, hid.mouseY)), old(hid.buttons))
    ensures hid.buttons == EventButtons(q, old((hid.mouseX, hid.mouseY)), old(hid.buttons))
    ensures var (x, y, _) := Target(q, old((hid.mouseX, hid.mouseY)), old(hid.buttons));
            hid.mouseX == x && hid.mouseY == y
  {
    hide Transitions, Recorded, Turn;
    var cursor := (hid.mouseX, hid.mouseY);
    var (x, y, b) := Target(q, cursor, hid.buttons);
    var moves := x != cursor.0 || y != cursor.1;
    var flags := When(moves, Move) + Transitions(b, hid.buttons);
    var px, py := if moves then x else 0, if moves then y else 0;
    if moves { hid.mouseX, hid.mouseY := x, y; }
    ghost var whole, last := EventInputs(q, cursor, hid.buttons), EventButtons(q, cursor, hid.buttons);
    var t := Start(q, b, hid.buttons);
    inputs := [];
    var again := true;
    while again
      invariant hid.mouseX == x && hid.mouseY == y
      invariant again ==> InLoop(t, px, py, flags, inputs, whole, last)
      invariant !again ==> inputs == whole && hid.buttons == last
      decreases again, XPending(t) + Scrolls(t)
    {
      LoopAdvances(t, px, py, flags, inputs, whole, last);
      var input, rest, hasX := FillInput(t, px, py, flags);
      hid.buttons := rest.held;
      inputs := inputs + [input];
      again := Again(rest, hasX);
      t, px, py, flags := rest, 0, 0, {};
    }
  }
}
