/** Promised queries: a first-in first-out queue that the event loop drains through one worker thread at a time.

    Worker threads and the event loop run interleaved.  The steps below are the code's critical sections and the
    stretches between them; a submission happens on the event loop's thread and may interrupt it anywhere. */
module QueryScheduler {
  import opened Options

  type Query = nat

  /** Where the event loop stands in handling the message of a finished query. */
  datatype Main =
    | Waiting
    | Handling(q: Query)     // message taken off the queue
    | Settled(q: Query)      // promise resolved or rejected
    | Counted                // `pending` lowered
    | Released               // `promisedRunning` cleared, about to start the next
    | Picked(q: Query)       // next query taken off the queue, thread not started yet

  /** Where a submission stands. */
  datatype Sub =
    | NoSub
    | SubCounted(q: Query)   // `pending` raised
    | SubQueued              // query on the queue, about to start one
    | SubPicked(q: Query)

  datatype State = State(
    queue: seq<Query>,       // plqPromised
    running: bool,           // promisedRunning
    pending: int,
    workers: seq<Query>,     // queries on a worker thread
    messages: seq<Query>,    // finished, message posted
    main: Main,
    sub: Sub,
    submitted: seq<Query>, started: seq<Query>, settled: seq<Query>)   // what happened, in order

  const INITIAL := State([], false, 0, [], [], Waiting, NoSub, [], [], [])

  datatype Step =
    | Submit(q: Query)
    | Advance                // the event loop's thread takes its next step
    | Finish(i: nat)         // a worker posts its result

  predicate Enabled(s: State, step: Step) {
    match step
    case Submit(_) => s.sub.NoSub?
    case Advance => !s.sub.NoSub? || !s.main.Waiting? || s.messages != []
    case Finish(i) => i < |s.workers|
  }

  /** The critical section of `startQueuedQuery`: takes the next query unless one is running. */
  function Pick(s: State): (State, Option<Query>) {
    if !s.running && s.queue != [] then
      (s.(queue := s.queue[1..], running := true, started := s.started + [s.queue[0]]), Some(s.queue[0]))
    else (s, None)
  }

  function AdvanceSub(s: State): State {
    match s.sub
    case NoSub => s
    case SubCounted(q) => s.(queue := s.queue + [q], submitted := s.submitted + [q], sub := SubQueued)
    case SubQueued =>
      (var (t, picked) := Pick(s);
       t.(sub := if picked.Some? then SubPicked(picked.value) else NoSub))
    case SubPicked(q) => s.(workers := s.workers + [q], sub := NoSub)
  }

  function AdvanceMain(s: State): State {
    match s.main
    case Waiting => if s.messages == [] then s else s.(messages := s.messages[1..], main := Handling(s.messages[0]))
    case Handling(q) => s.(settled := s.settled + [q], main := Settled(q))
    case Settled(_) => s.(pending := s.pending - 1, main := Counted)
    case Counted => s.(running := false, main := Released)
    case Released =>
      (var (t, picked) := Pick(s);
       t.(main := if picked.Some? then Picked(picked.value) else Waiting))
    case Picked(q) => s.(workers := s.workers + [q], main := Waiting)
  }

  function Do(s: State, step: Step): State
    requires Enabled(s, step)
  {
    match step
    case Submit(q) => s.(pending := s.pending + 1, sub := SubCounted(q))
    case Advance => if s.sub.NoSub? then AdvanceMain(s) else AdvanceSub(s)
    case Finish(i) => s.(workers := s.workers[..i] + s.workers[i + 1..], messages := s.messages + [s.workers[i]])
  }

  /** The states reachable by some interleaving. */
  ghost predicate IsRun(run: seq<State>, steps: seq<Step>) {
    && |run| == |steps| + 1 && run[0] == INITIAL
    && forall i :: 0 <= i < |steps| ==> Enabled(run[i], steps[i]) && run[i + 1] == Do(run[i], steps[i])
  }

  // ---- the invariant ---------------------------------------------------------------------------------------

  function PickedQueries(s: State): seq<Query> {
    (if s.main.Picked? then [s.main.q] else []) + (if s.sub.SubPicked? then [s.sub.q] else [])
  }

  /** Queries between leaving the queue and being settled. */
  function InFlight(s: State): seq<Query> {
    PickedQueries(s) + s.workers + s.messages + if s.main.Handling? then [s.main.q] else []
  }

  /** Settled, but `promisedRunning` not cleared yet. */
  predicate WindingDown(s: State) {
    s.main.Settled? || s.main.Counted?
  }

  ghost predicate Inv(s: State) {
    && |InFlight(s)| + (if WindingDown(s) then 1 else 0) == (if s.running then 1 else 0)
    && s.submitted == s.started + s.queue
    && s.started == s.settled + InFlight(s)
    && s.pending == |s.submitted| - |s.settled|
                    + (if s.sub.SubCounted? then 1 else 0) + (if s.main.Settled? then 1 else 0)
    && (s.queue != [] && !s.running ==> s.main.Released? || s.sub.SubQueued?)
  }

  lemma PickKeeps(s: State)
    ensures var (t, picked) := Pick(s);
            && t.started + t.queue == s.started + s.queue
            && (picked.None? ==> t == s)
            && (picked.Some? ==> !s.running && t.running && t.started == s.started + [picked.value])
            && (t.queue != [] ==> t.running)
            && t == s.(queue := t.queue, running := t.running, started := t.started)
  {
    var (t, picked) := Pick(s);
    if picked.Some? {
      assert s.started + s.queue == s.started + [s.queue[0]] + s.queue[1..];
    }
  }

  lemma StepKeeps(s: State, step: Step)
    requires Inv(s) && Enabled(s, step)
    ensures Inv(Do(s, step))
  {
    var t := Do(s, step);
    match step {
      case Submit(q) =>
        assert InFlight(t) == InFlight(s);
      case Finish(i) =>
        assert |InFlight(s)| == 1 && |s.workers| == 1 && i == 0;
        assert InFlight(s) == s.workers && InFlight(t) == t.messages == [s.workers[0]];
      case Advance =>
        if s.sub.NoSub? { MainKeeps(s); } else { SubKeeps(s); }
    }
  }

  lemma SubKeeps(s: State)
    requires Inv(s) && !s.sub.NoSub?
    ensures Inv(AdvanceSub(s))
  {
    var t := AdvanceSub(s);
    match s.sub {
      case NoSub =>
      case SubCounted(q) =>
        assert InFlight(t) == InFlight(s);
        assert s.started + s.queue + [q] == s.started + (s.queue + [q]);
      case SubQueued =>
        PickKeeps(s);
        if Pick(s).1.Some? {
          assert InFlight(s) == [] && InFlight(t) == [t.sub.q];
        } else {
          assert InFlight(t) == InFlight(s);
        }
      case SubPicked(q) =>
        assert InFlight(s) == [q] && InFlight(t) == [q];
    }
  }

  lemma MainKeeps(s: State)
    requires Inv(s) && s.sub.NoSub? && Enabled(s, Advance)
    ensures Inv(AdvanceMain(s))
  {
    var t := AdvanceMain(s);
    match s.main {
      case Waiting =>
        assert InFlight(s) == s.messages == [s.messages[0]] && InFlight(t) == [s.messages[0]];
      case Handling(q) =>
        assert InFlight(s) == [q] && InFlight(t) == [];
      case Settled(_) =>
        assert InFlight(t) == InFlight(s) == [];
      case Counted =>
        assert InFlight(t) == InFlight(s) == [];
      case Released =>
        PickKeeps(s);
        if Pick(s).1.Some? {
          assert InFlight(s) == [] && InFlight(t) == [t.main.q];
        } else {
          assert InFlight(t) == InFlight(s);
        }
      case Picked(q) =>
        assert InFlight(s) == [q] && InFlight(t) == [q];
    }
  }

  lemma {:induction false} RunKeeps(run: seq<State>, steps: seq<Step>, n: nat)
    requires IsRun(run, steps) && n < |run|
    ensures Inv(run[n])
  {
    if n > 0 {
      RunKeeps(run, steps, n - 1);
      StepKeeps(run[n - 1], steps[n - 1]);
    }
  }

  // ---- what that means in every state of every run ----------------------------------------------------------------

  predicate IsPrefix(a: seq<Query>, b: seq<Query>) {
    |a| <= |b| && a == b[..|a|]
  }

  /** Neither the event loop nor a submission is in the middle of anything. */
  predicate Quiet(s: State) {
    s.main.Waiting? && s.sub.NoSub?
  }

  /** In every interleaving: at most one query is in flight, queries start and settle in submission order, none
      twice, and between steps of the event loop the counter is exact and a waiting query implies a running one. */
  lemma Safety(run: seq<State>, steps: seq<Step>, n: nat)
    requires IsRun(run, steps) && n < |run|
    ensures var s := run[n];
            && |InFlight(s)| <= 1 && |s.workers| <= 1
            && IsPrefix(s.started, s.submitted) && IsPrefix(s.settled, s.started)
            && |s.settled| <= |s.started| <= |s.settled| + 1
            && (Quiet(s) ==> s.pending == |s.queue| + if s.running then 1 else 0)
            && (Quiet(s) && s.queue != [] ==> s.running && |s.workers| + |s.messages| == 1)
  {
    RunKeeps(run, steps, n);
  }

  // ---- every submitted query settles -------------------------------------------------------------------------------

  /** Steps still to go if nothing more is submitted. */
  function Remaining(s: State): nat {
    8 * |s.queue|
    + (if s.sub.SubCounted? then 10 else if s.sub.SubQueued? then 1 else if s.sub.SubPicked? then 7 else 0)
    + 6 * |s.workers| + 5 * |s.messages|
    + match s.main
      case Waiting => 0
      case Handling(_) => 4
      case Settled(_) => 3
      case Counted => 2
      case Released => 1
      case Picked(_) => 7
  }

  /** Every step but a submission brings the end nearer. */
  lemma StepProgress(s: State, step: Step)
    requires Inv(s) && Enabled(s, step) && !step.Submit?
    ensures Remaining(Do(s, step)) < Remaining(s)
  {
  }

  /** No wakeup is ever lost: a state in which nothing can happen any more has settled everything, in order, and is
      ready for the next submission. */
  lemma StuckIsDone(s: State)
    requires Inv(s) && forall step: Step :: !step.Submit? ==> !Enabled(s, step)
    ensures s.settled == s.started == s.submitted && s.queue == [] && !s.running && s.pending == 0
  {
    assert !Enabled(s, Advance) && !Enabled(s, Finish(0));
    assert InFlight(s) == [];
  }

  ghost predicate Continues(run: seq<State>, steps: seq<Step>) {
    && |run| == |steps| + 1
    && forall i :: 0 <= i < |steps| ==>
         !steps[i].Submit? && Enabled(run[i], steps[i]) && run[i + 1] == Do(run[i], steps[i])
  }

  /** Once submissions stop, every schedule ends after a bounded number of steps, so every submitted query settles. */
  lemma {:induction false} Bounded(run: seq<State>, steps: seq<Step>)
    requires Continues(run, steps) && Inv(run[0])
    ensures Inv(run[|steps|]) && |steps| + Remaining(run[|steps|]) <= Remaining(run[0])
    decreases |steps|
  {
    if steps != [] {
      var n := |steps| - 1;
      Bounded(run[..n + 1], steps[..n]);
      StepKeeps(run[n], steps[n]);
      StepProgress(run[n], steps[n]);
    }
  }

  // ---- the code, each function run to its end ----------------------------------------------------------------------

  /** `startQueuedQuery`, thread start included. */
  function Started(s: State): State {
    var (t, picked) := Pick(s);
    if picked.Some? then t.(workers := t.workers + [picked.value]) else t
  }

  function Submitted(s: State, q: Query): State {
    Started(s.(pending := s.pending + 1, queue := s.queue + [q], submitted := s.submitted + [q]))
  }

  function Handled(s: State): State
    requires s.messages != []
  {
    Started(s.(messages := s.messages[1..], settled := s.settled + [s.messages[0]], pending := s.pending - 1,
               running := false))
  }

  /** The message loop of the event loop's callback. */
  function Drained(s: State): State
    decreases |s.messages|
  {
    if s.messages == [] then s else Drained(Handled(s))
  }

  /** Each is an uninterrupted stretch of the steps above, so everything proved of their interleavings applies. */
  lemma SubmissionIsSteps(s: State, q: Query)
    requires Quiet(s)
    ensures var t := Do(Do(Do(s, Submit(q)), Advance), Advance);
            Submitted(s, q) == if t.sub.SubPicked? then Do(t, Advance) else t
  {
  }

  lemma HandlingIsSteps(s: State)
    requires Quiet(s) && s.messages != []
    ensures var t := Do(Do(Do(Do(Do(s, Advance), Advance), Advance), Advance), Advance);
            Handled(s) == if t.main.Picked? then Do(t, Advance) else t
  {
  }

  class SqlState {
    var plqPromised: seq<Query>
    var promisedRunning: bool
    var pending: int
    var messages: seq<Query>
    var threads: seq<Query>          // one entry a started worker
    ghost var submitted: seq<Query>
    ghost var started: seq<Query>
    ghost var settled: seq<Query>

    ghost function Abs(): State
      reads this
    {
      State(plqPromised, promisedRunning, pending, threads, messages, Waiting, NoSub, submitted, started, settled)
    }

    constructor ()
      ensures Abs() == INITIAL && Inv(Abs())
    {
      plqPromised, promisedRunning, pending, messages := [], false, 0, [];
      threads, submitted, started, settled := [], [], [], [];
    }

    method StartQueuedQuery()
      modifies this
      ensures Abs() == Started(old(Abs()))
    {
      var params: Option<Query> := None;
      if !promisedRunning {
        if plqPromised != [] {
          params := Some(plqPromised[0]);
          plqPromised := plqPromised[1..];
        }
        if params.Some? {
          promisedRunning := true;
          started := started + [params.value];
        }
      }
      if params.Some? { threads := threads + [params.value]; }
    }

    method SubmitPromised(q: Query)
      requires Inv(Abs())
      modifies this
      ensures Abs() == Submitted(old(Abs()), q) && Inv(Abs())
    {
      SubmissionKeeps(Abs(), q);
      pending := pending + 1;
      plqPromised := plqPromised + [q];
      submitted := submitted + [q];
      StartQueuedQuery();
    }

    /** The worker thread is done with its query. */
    method QueryThreadEnds(i: nat)
      requires Inv(Abs()) && i < |threads|
      modifies this
      ensures Abs() == Do(old(Abs()), Finish(i)) && Inv(Abs())
    {
      StepKeeps(Abs(), Finish(i));
      messages := messages + [threads[i]];
      threads := threads[..i] + threads[i + 1..];
    }

    /** One message of a finished query. */
    method HandleQueryMessage()
      requires messages != []
      modifies this
      ensures Abs() == Handled(old(Abs()))
      ensures settled == old(settled + messages[..1]) && messages == old(messages[1..])
    {
      settled := settled + [messages[0]];
      assert messages[..1] == [messages[0]];
      messages := messages[1..];
      pending := pending - 1;
      promisedRunning := false;
      StartQueuedQuery();
    }

    /** The loop of `sqlUserAsyncMsgEx_` over the messages of finished queries. */
    method HandleMessages()
      requires Inv(Abs())
      modifies this
      ensures Abs() == Drained(old(Abs())) && Inv(Abs())
      ensures messages == [] && settled == old(settled + messages)
    {
      hide Inv, Handled;
      while messages != []
        invariant Inv(Abs()) && Drained(Abs()) == Drained(old(Abs()))
        invariant settled + messages == old(settled + messages)
        decreases |messages|
      {
        HandlingKeeps(Abs());
        assert messages == messages[..1] + messages[1..];
        HandleQueryMessage();
      }
    }
  }

  lemma SubmissionKeeps(s: State, q: Query)
    requires Inv(s) && Quiet(s)
    ensures Inv(Submitted(s, q))
  {
    SubmissionIsSteps(s, q);
    var a := Do(s, Submit(q));
    StepKeeps(s, Submit(q));
    var b := Do(a, Advance);
    StepKeeps(a, Advance);
    var c := Do(b, Advance);
    StepKeeps(b, Advance);
    if c.sub.SubPicked? { StepKeeps(c, Advance); }
  }

  lemma HandlingKeeps(s: State)
    requires Inv(s) && Quiet(s) && s.messages != []
    ensures Inv(Handled(s))
  {
    HandlingIsSteps(s);
    var a := Do(s, Advance);
    StepKeeps(s, Advance);
    var b := Do(a, Advance);
    StepKeeps(a, Advance);
    var c := Do(b, Advance);
    StepKeeps(b, Advance);
    var d := Do(c, Advance);
    StepKeeps(c, Advance);
    var e := Do(d, Advance);
    StepKeeps(d, Advance);
    if e.main.Picked? { StepKeeps(e, Advance); }
  }
}
