/** Signing: threads race for a nonce that makes the digest of a text lopsided enough; verifying repeats the digest.

    The threads and the caller run interleaved, on parameters that outlive the call; each step below is one access
    of what they share, or a stretch of one thread's own work. */
module Signing {
  import opened Options
  import opened SignCheck

  /** What the library does: the 256-bit digest of a text followed by bytes, base64, and a number as text.  A nonce it
      generates decodes to 32 bytes. */
  datatype Library = Library(digest: (seq<Byte>, seq<Byte>) -> seq<Byte>, decode: string -> seq<Byte>,
                             encode: seq<Byte> -> string, show: int -> string)

  ghost predicate Sized(lib: Library) {
    forall text: seq<Byte>, bytes: seq<Byte> :: |lib.digest(text, bytes)| == 32
  }

  predicate Generated(lib: Library, nonce: string) {
    |lib.decode(nonce)| == 32
  }

  const MAX_THREADS := 32

  /** One thread's parameters, kept from one call to the next. */
  datatype Params = Params(nonce: Option<string>, outbuf: seq<Byte>, passedAs: int, s: Signature, id: Option<string>,
                           ended: bool)

  /** Where a thread stands. */
  datatype Pc =
    | Unstarted
    | Draw            // about to drop its nonce, if any, and take a new one
    | Hash
    | Check
    | Test            // at the loop's condition
    | Last            // out of the loop, about to look at `done`
    | SetDone
    | Ending
    | Over

  /** Where the caller stands. */
  datatype Main = Starting(k: nat) | WaitingDone | WaitingEnded(k: nat) | Returned(found: Option<nat>)

  datatype State = State(text: seq<Byte>, pad1: int, pad2: int, params: seq<Params>, pcs: seq<Pc>, done: bool,
                         main: Main)

  /** A call finds the parameters as earlier calls left them. */
  function Called(text: seq<Byte>, pad1: int, pad2: int, threads: nat, params: seq<Params>): State {
    State(text, pad1, pad2, params, seq(threads, _ => Unstarted), false, Starting(0))
  }

  // ---- steps -----------------------------------------------------------------------------------------------

  datatype Step =
    | Caller
    | Thread(n: nat, nonce: string)    // the nonce is what the generator answers, if asked

  function Drawn(p: Params, nonce: string): Params {
    p.(nonce := Some(nonce))
  }

  function Hashed(lib: Library, text: seq<Byte>, p: Params): Params
    requires p.nonce.Some? && Generated(lib, p.nonce.value)
  {
    p.(outbuf := lib.digest(text, lib.decode(p.nonce.value)[..32]))
  }

  function Checked(lib: Library, pad1: int, pad2: int, p: Params): Params
    requires |p.outbuf| == 32
  {
    var s := Classify(TableRuns(p.outbuf), pad1, pad2);
    if s.classifier != 0 then p.(passedAs := s.classifier, s := s, id := Some(lib.encode(p.outbuf)))
    else p.(passedAs := 0, s := s, nonce := None)
  }

  /** The first of the first n threads that holds a nonce. */
  function FirstHolder(params: seq<Params>, n: nat): Option<nat>
    requires n <= |params|
  {
    if n == 0 then None
    else
      var before := FirstHolder(params, n - 1);
      if before.Some? then before else if params[n - 1].nonce.Some? then Some(n - 1) else None
  }

  predicate Enabled(lib: Library, s: State, step: Step) {
    && |s.pcs| <= |s.params|
    && match step
       case Caller =>
         (match s.main
          case Starting(k) => k <= |s.pcs|
          case WaitingDone => s.done
          case WaitingEnded(k) => k < |s.pcs| ==> s.params[k].ended
          case Returned(_) => false)
       case Thread(n, nonce) =>
         n < |s.pcs| && match s.pcs[n]
                        case Unstarted => false
                        case Over => false
                        case Draw => Generated(lib, nonce)
                        case Hash => s.params[n].nonce.Some? && Generated(lib, s.params[n].nonce.value)
                        case Check => |s.params[n].outbuf| == 32
                        case _ => true
  }

  function CallerStep(s: State): State
    requires |s.pcs| <= |s.params|
  {
    match s.main
    case Starting(k) =>
      if k < |s.pcs| then
        s.(params := s.params[k := s.params[k].(ended := false)], pcs := s.pcs[k := Draw], main := Starting(k + 1))
      else s.(main := WaitingDone)
    case WaitingDone => s.(main := WaitingEnded(0))
    case WaitingEnded(k) =>
      s.(main := if k < |s.pcs| then WaitingEnded(k + 1) else Returned(FirstHolder(s.params, |s.pcs|)))
    case Returned(_) => s
  }

  function Do(lib: Library, s: State, step: Step): State
    requires Enabled(lib, s, step)
  {
    match step
    case Caller => CallerStep(s)
    case Thread(n, nonce) =>
      var p := s.params[n];
      match s.pcs[n]
      case Draw => s.(params := s.params[n := Drawn(p, nonce)], pcs := s.pcs[n := Hash])
      case Hash => s.(params := s.params[n := Hashed(lib, s.text, p)], pcs := s.pcs[n := Check])
      case Check => s.(params := s.params[n := Checked(lib, s.pad1, s.pad2, p)], pcs := s.pcs[n := Test])
      case Test => s.(pcs := s.pcs[n := if p.nonce.None? && !s.done then Draw else Last])
      case Last => s.(pcs := s.pcs[n := if !s.done then SetDone else Ending])
      case SetDone => s.(done := true, pcs := s.pcs[n := Ending])
      case Ending => s.(params := s.params[n := p.(ended := true)], pcs := s.pcs[n := Over])
      case _ => s
  }

  /** Some interleaving of a call with at least one and at most 32 threads. */
  ghost predicate IsRun(lib: Library, run: seq<State>, steps: seq<Step>) {
    && |run| == |steps| + 1
    && 1 <= |run[0].pcs| <= MAX_THREADS == |run[0].params|
    && run[0] == Called(run[0].text, run[0].pad1, run[0].pad2, |run[0].pcs|, run[0].params)
    && forall i :: 0 <= i < |steps| ==> Enabled(lib, run[i], steps[i]) && run[i + 1] == Do(lib, run[i], steps[i])
  }

  // ---- the invariant ---------------------------------------------------------------------------------------

  /** The nonce's digest with the text of this call is in the buffer and passed the check of this call. */
  ghost predicate Proven(lib: Library, s: State, p: Params) {
    && p.nonce.Some? && Generated(lib, p.nonce.value)
    && p.outbuf == lib.digest(s.text, lib.decode(p.nonce.value)) && |p.outbuf| == 32
    && p.s == Classify(TableRuns(p.outbuf), s.pad1, s.pad2) && p.s.classifier != 0
    && p.passedAs == p.s.classifier && p.id == Some(lib.encode(p.outbuf))
  }

  ghost predicate ThreadOk(lib: Library, s: State, p: Params, pc: Pc) {
    && (pc != Unstarted ==> (p.ended <==> pc == Over))
    && match pc
       case Unstarted => true
       case Draw => true
       case Hash => p.nonce.Some? && Generated(lib, p.nonce.value)
       case Check =>
         && p.nonce.Some? && Generated(lib, p.nonce.value) && |p.outbuf| == 32
         && p.outbuf == lib.digest(s.text, lib.decode(p.nonce.value))
       case Test => p.nonce.Some? ==> Proven(lib, s, p)
       case Last => (p.nonce.Some? ==> Proven(lib, s, p)) && (p.nonce.Some? || s.done)
       case SetDone => Proven(lib, s, p)
       case Ending => (p.nonce.Some? ==> Proven(lib, s, p)) && s.done
       case Over => (p.nonce.Some? ==> Proven(lib, s, p)) && s.done
  }

  /** The thread is past setting `done`, and has a nonce. */
  predicate Winner(s: State, n: nat)
    requires |s.pcs| <= |s.params|
  {
    n < |s.pcs| && (s.pcs[n].Ending? || s.pcs[n].Over?) && s.params[n].nonce.Some?
  }

  ghost predicate MainOk(s: State) {
    match s.main
    case Starting(k) => k <= |s.pcs| && forall j :: 0 <= j < |s.pcs| ==> (s.pcs[j].Unstarted? <==> j >= k)
    case WaitingDone => forall j :: 0 <= j < |s.pcs| ==> !s.pcs[j].Unstarted?
    case WaitingEnded(k) =>
      && s.done && k <= |s.pcs| && (forall j :: 0 <= j < |s.pcs| ==> !s.pcs[j].Unstarted?)
      && forall j :: 0 <= j < k ==> s.pcs[j].Over?
    case Returned(found) =>
      && s.done && (forall j :: 0 <= j < |s.pcs| ==> s.pcs[j].Over?)
      && |s.pcs| <= |s.params| && found == FirstHolder(s.params, |s.pcs|)
  }

  ghost predicate Inv(lib: Library, s: State) {
    && 1 <= |s.pcs| <= |s.params|
    && (forall n :: 0 <= n < |s.pcs| ==> ThreadOk(lib, s, s.params[n], s.pcs[n]))
    && (s.done ==> exists n: nat :: Winner(s, n))
    && MainOk(s)
  }

  lemma CallerKeeps(lib: Library, s: State)
    requires Inv(lib, s) && Enabled(lib, s, Caller)
    ensures Inv(lib, CallerStep(s))
  {
    hide Proven;
    var t := CallerStep(s);
    if s.done {
      var n: nat :| Winner(s, n);
      assert Winner(t, n);
    }
    forall n | 0 <= n < |t.pcs| ensures ThreadOk(lib, t, t.params[n], t.pcs[n]) {
      assert ThreadOk(lib, s, s.params[n], s.pcs[n]);
      ProvenStays(lib, s, t, s.params[n]);
    }
  }

  lemma ProvenStays(lib: Library, s: State, t: State, p: Params)
    requires t.text == s.text && t.pad1 == s.pad1 && t.pad2 == s.pad2
    ensures Proven(lib, s, p) ==> Proven(lib, t, p) && Proven(lib, t, p.(ended := true))
  {
  }

  lemma ThreadKeeps(lib: Library, s: State, n: nat, nonce: string)
    requires Inv(lib, s) && Enabled(lib, s, Thread(n, nonce)) && Sized(lib)
    ensures Inv(lib, Do(lib, s, Thread(n, nonce)))
  {
    var t := Do(lib, s, Thread(n, nonce));
    OwnStep(lib, s, n, nonce);
    ThreadKeepsMain(lib, s, n, nonce);
    ThreadKeepsWinner(lib, s, n, nonce);
    forall k | 0 <= k < |t.pcs| ensures ThreadOk(lib, t, t.params[k], t.pcs[k]) {
      if k != n { OtherThreadOk(lib, s, t, s.params[k], s.pcs[k]); }
    }
    hide Checked, Hashed, MainOk, Winner, ThreadOk;
  }

  lemma OtherThreadOk(lib: Library, s: State, t: State, p: Params, pc: Pc)
    requires ThreadOk(lib, s, p, pc) && (s.done ==> t.done)
    requires t.text == s.text && t.pad1 == s.pad1 && t.pad2 == s.pad2
    ensures ThreadOk(lib, t, p, pc)
  {
    hide Proven;
    ProvenStays(lib, s, t, p);
  }

  lemma ThreadKeepsWinner(lib: Library, s: State, n: nat, nonce: string)
    requires Enabled(lib, s, Thread(n, nonce)) && ThreadOk(lib, s, s.params[n], s.pcs[n])
    requires s.done ==> exists w: nat :: Winner(s, w)
    ensures var t := Do(lib, s, Thread(n, nonce)); t.done ==> exists w: nat :: Winner(t, w)
  {
    hide Proven, Checked, Hashed;
    var t := Do(lib, s, Thread(n, nonce));
    if s.done {
      var w: nat :| Winner(s, w);
      assert Winner(t, w);
    } else if t.done {
      ProvenHolds(lib, s, s.params[n]);
      assert Winner(t, n);
    }
  }

  lemma ThreadKeepsMain(lib: Library, s: State, n: nat, nonce: string)
    requires MainOk(s) && Enabled(lib, s, Thread(n, nonce))
    ensures MainOk(Do(lib, s, Thread(n, nonce)))
  {
    hide Checked, Hashed;
  }

  lemma ProvenHolds(lib: Library, s: State, p: Params)
    requires Proven(lib, s, p)
    ensures p.nonce.Some?
  {
  }

  lemma OwnStep(lib: Library, s: State, n: nat, nonce: string)
    requires Enabled(lib, s, Thread(n, nonce)) && Sized(lib) && ThreadOk(lib, s, s.params[n], s.pcs[n])
    ensures var t := Do(lib, s, Thread(n, nonce)); ThreadOk(lib, t, t.params[n], t.pcs[n])
  {
    var t := Do(lib, s, Thread(n, nonce));
    ProvenStays(lib, s, t, s.params[n]);
    if s.pcs[n].Hash? {
      var bytes := lib.decode(s.params[n].nonce.value);
      assert bytes[..32] == bytes;
    }
  }

  lemma {:induction false} RunKeeps(lib: Library, run: seq<State>, steps: seq<Step>, n: nat)
    requires Sized(lib) && IsRun(lib, run, steps) && n < |run|
    ensures Inv(lib, run[n])
    ensures run[n].text == run[0].text && run[n].pad1 == run[0].pad1 && run[n].pad2 == run[0].pad2
  {
    if n > 0 {
      hide Inv;
      RunKeeps(lib, run, steps, n - 1);
      match steps[n - 1]
      case Caller => CallerKeeps(lib, run[n - 1]);
      case Thread(k, nonce) => ThreadKeeps(lib, run[n - 1], k, nonce);
    }
  }

  lemma {:induction false} FirstHolderIsFirst(params: seq<Params>, n: nat)
    requires n <= |params|
    ensures match FirstHolder(params, n)
            case Some(k) => k < n && params[k].nonce.Some? && forall j :: 0 <= j < k ==> params[j].nonce.None?
            case None => forall j :: 0 <= j < n ==> params[j].nonce.None?
  {
    if n > 0 { FirstHolderIsFirst(params, n - 1); }
  }

  /** When a call returns, every thread has ended; at least one holds a nonce, the first of them is returned, and
      whatever nonce a thread holds was proven on this call's text with this call's pads -- however the threads
      interleaved, and whatever earlier calls left in the parameters. */
  lemma CallReturnsProvenNonce(lib: Library, run: seq<State>, steps: seq<Step>)
    requires Sized(lib) && IsRun(lib, run, steps) && run[|steps|].main.Returned?
    ensures var s := run[|steps|];
            && s.text == run[0].text && s.pad1 == run[0].pad1 && s.pad2 == run[0].pad2
            && |s.pcs| <= |s.params|
            && (forall n :: 0 <= n < |s.pcs| ==> s.pcs[n].Over? && s.params[n].ended)
            && (forall n :: 0 <= n < |s.pcs| && s.params[n].nonce.Some? ==> Proven(lib, s, s.params[n]))
            && s.main.found.Some? && s.main.found.value < |s.pcs|
            && s.params[s.main.found.value].nonce.Some?
            && forall n :: 0 <= n < s.main.found.value ==> s.params[n].nonce.None?
  {
    hide Proven;
    RunKeeps(lib, run, steps, |steps|);
    var s := run[|steps|];
    FirstHolderIsFirst(s.params, |s.pcs|);
    assert forall n :: 0 <= n < |s.pcs| ==> ThreadOk(lib, s, s.params[n], s.pcs[n]);
    var w: nat :| Winner(s, w);
    assert s.params[w].nonce.Some?;
  }

  /** `done` is never lowered, and until the call returns something can happen: no thread waits for another. */
  lemma DoneStaysAndNothingSticks(lib: Library, s: State, step: Step, nonce: string)
    requires Inv(lib, s) && Enabled(lib, s, step) && Generated(lib, nonce)
    ensures s.done ==> Do(lib, s, step).done
    ensures !s.main.Returned? ==> Enabled(lib, s, Caller) || exists n: nat :: Enabled(lib, s, Thread(n, nonce))
  {
    if !s.main.Returned? && !Enabled(lib, s, Caller) {
      hide Proven;
      var n: nat := if s.main.WaitingEnded? then s.main.k else 0;
      assert ThreadOk(lib, s, s.params[n], s.pcs[n]);
      if s.main.WaitingDone? && s.pcs[n].Over? { assert false; }
      assert Enabled(lib, s, Thread(n, nonce));
    }
  }

  function Left(pc: Pc): nat {
    match pc
    case Unstarted => 7
    case Draw => 6
    case Hash => 5
    case Check => 4
    case Test => 3
    case Last => 2
    case SetDone => 2
    case Ending => 1
    case Over => 0
  }

  function AllLeft(pcs: seq<Pc>): nat {
    if pcs == [] then 0 else Left(pcs[0]) + AllLeft(pcs[1..])
  }

  lemma {:induction false} OneMoved(pcs: seq<Pc>, n: nat, pc: Pc)
    requires n < |pcs|
    ensures AllLeft(pcs[n := pc]) == AllLeft(pcs) - Left(pcs[n]) + Left(pc)
  {
    if n > 0 {
      assert pcs[n := pc][1..] == pcs[1..][n - 1 := pc];
      OneMoved(pcs[1..], n - 1, pc);
    } else {
      assert pcs[n := pc][1..] == pcs[1..];
    }
  }

  function CallerLeft(s: State): int {
    match s.main
    case Starting(k) => 2 * |s.pcs| + 3 - k
    case WaitingDone => |s.pcs| + 2
    case WaitingEnded(k) => |s.pcs| + 1 - k
    case Returned(_) => 0
  }

  lemma ThreadWindsDown(lib: Library, s: State, n: nat, nonce: string)
    requires Enabled(lib, s, Thread(n, nonce)) && s.done
    ensures var t := Do(lib, s, Thread(n, nonce));
            AllLeft(t.pcs) < AllLeft(s.pcs) && t.main == s.main && |t.pcs| == |s.pcs|
  {
    hide Hashed, Checked, AllLeft;
    OneMoved(s.pcs, n, Do(lib, s, Thread(n, nonce)).pcs[n]);
  }

  /** Once a nonce has been found the call winds down: every step counts, whatever the schedule. */
  lemma WindsDown(lib: Library, s: State, step: Step)
    requires Inv(lib, s) && Enabled(lib, s, step) && s.done
    ensures var t := Do(lib, s, step);
            AllLeft(t.pcs) + CallerLeft(t) < AllLeft(s.pcs) + CallerLeft(s) && CallerLeft(t) >= 0
  {
    hide ThreadOk, AllLeft, Winner, FirstHolder;
    if step.Caller? {
      if s.main.Starting? && s.main.k < |s.pcs| { OneMoved(s.pcs, s.main.k, Draw); }
    } else {
      ThreadWindsDown(lib, s, step.n, step.nonce);
      hide Do;
    }
  }

  // ---- arguments, results, verifying -----------------------------------------------------------------------

  /** An argument of the script's call: a number, anything else as text, or undefined. */
  datatype Arg = Number(value: int) | Other(text: string) | Undef

  datatype Pads = Pads(seen: bool, pad1: int, pad2: int)

  /** The first number is the first pad; every later one replaces the second. */
  function Taken(pads: Pads, arg: Arg): Pads {
    match arg
    case Number(v) => if pads.seen then pads.(pad2 := v) else pads.(seen := true, pad1 := v)
    case _ => pads
  }

  function PadsOf(args: seq<Arg>): Pads {
    if args == [] then Pads(false, 0, 0) else Taken(PadsOf(args[..|args| - 1]), args[|args| - 1])
  }

  /** All arguments but the text. */
  function AfterText(args: seq<Arg>): seq<Arg> {
    if args == [] then [] else args[1..]
  }

  predicate NoNumber(args: seq<Arg>, i: nat, j: nat) {
    forall k :: i <= k < j && k < |args| ==> !args[k].Number?
  }

  lemma {:induction false} PadsUpTo(args: seq<Arg>, i: nat, j: nat, n: nat)
    requires i <= j < |args| && args[i].Number? && args[j].Number? && n <= |args|
    requires NoNumber(args, 0, i) && NoNumber(args, j + 1, |args|)
    ensures n <= i ==> PadsOf(args[..n]) == Pads(false, 0, 0)
    ensures n > i ==> PadsOf(args[..n]).seen && PadsOf(args[..n]).pad1 == args[i].value
    ensures i < n && i == j ==> PadsOf(args[..n]).pad2 == 0
    ensures i < j < n ==> PadsOf(args[..n]).pad2 == args[j].value
  {
    if n > 0 {
      PadsUpTo(args, i, j, n - 1);
      assert args[..n][..n - 1] == args[..n - 1];
    }
  }

  /** By position, with `i` the first and `j` the last number after the text: the first is the first pad, the last,
      if it is another, is the second. */
  lemma PadsByPosition(args: seq<Arg>, i: nat, j: nat)
    requires 0 < i <= j < |args| && args[i].Number? && args[j].Number?
    requires NoNumber(args, 1, i) && NoNumber(args, j + 1, |args|)
    ensures var pads := PadsOf(AfterText(args));
            pads.pad1 == args[i].value && pads.pad2 == if i < j then args[j].value else 0
  {
    var rest := args[1..];
    PadsUpTo(rest, i - 1, j - 1, |rest|);
    assert rest[..|rest|] == rest;
  }

  /** Without numbers both are 0. */
  lemma {:induction false} NoPads(args: seq<Arg>)
    requires NoNumber(args, 0, |args|)
    ensures PadsOf(args) == Pads(false, 0, 0)
  {
    if args != [] { NoPads(args[..|args| - 1]); }
  }

  method ParsePads(args: seq<Arg>) returns (pad1: int, pad2: int)
    ensures var pads := PadsOf(AfterText(args)); pad1 == pads.pad1 && pad2 == pads.pad2
  {
    pad1, pad2 := 0, 0;
    var n, argn := false, 1;
    if args == [] { return; }
    ghost var rest := args[1..];
    assert rest[..0] == [];
    while argn < |args|
      invariant 1 <= argn <= |args|
      invariant PadsOf(rest[..argn - 1]) == Pads(n, pad1, pad2)
    {
      assert rest[..argn][..argn - 1] == rest[..argn - 1];
      match args[argn] {
        case Number(v) => if n { pad2 := v; } else { n, pad1 := true, v; }
        case _ =>
      }
      argn := argn + 1;
    }
    assert rest[..argn - 1] == rest;
  }

  /** Where signing takes a text and pads and verifying a text, a key and pads, they take the same pads. */
  lemma {:induction false} KeyIsNoPad(key: string, pads: seq<Arg>)
    ensures PadsOf([Other(key)] + pads) == PadsOf(pads)
  {
    if pads != [] {
      var n := |pads| - 1;
      assert ([Other(key)] + pads)[..n + 1] == [Other(key)] + pads[..n];
      KeyIsNoPad(key, pads[..n]);
    } else {
      assert [Other(key)] + pads == [Other(key)];
    }
  }

  datatype Result = Result(classifier: int, extent: int, id: string)

  /** What signing reports, besides the nonce as the key, of the thread found. */
  function Reported(p: Params): Result
    requires p.id.Some?
  {
    Result(p.s.classifier, p.s.extent, p.id.value)
  }

  /** The bytes fed for the key: none when it is undefined. */
  function KeyBytes(lib: Library, key: Arg): seq<Byte> {
    match key
    case Undef => []
    case Other(text) => lib.decode(text)
    case Number(v) => lib.decode(lib.show(v))
  }

  /** What verifying reports of a text, given as the bytes of the first argument; nothing without a key argument. */
  function Verified(lib: Library, text: seq<Byte>, args: seq<Arg>): Option<Result>
    requires Sized(lib)
  {
    if |args| <= 1 then None
    else
      var pads, outbuf := PadsOf(AfterText(args)), lib.digest(text, KeyBytes(lib, args[1]));
      var s := Classify(TableRuns(outbuf), pads.pad1, pads.pad2);
      Some(Result(s.classifier, s.extent, lib.encode(outbuf)))
  }

  /** The bytes verified are the digest of the text followed by the decoded key, or by nothing for an undefined key;
      what is reported is their encoding and the signature of their bits. */
  lemma VerifiedMeans(lib: Library, text: seq<Byte>, args: seq<Arg>)
    requires Sized(lib)
    ensures |args| < 2 ==> Verified(lib, text, args) == None
    ensures |args| >= 2 ==>
              && var key := match args[1] case Undef => [] case Other(t) => lib.decode(t)
                                          case Number(v) => lib.decode(lib.show(v));
              && var outbuf, pads := lib.digest(text, key), PadsOf(AfterText(args));
              && Verified(lib, text, args).Some?
              && var r := Verified(lib, text, args).value;
              && r.id == lib.encode(outbuf)
              && Describes(Signature(r.classifier, r.extent), BufferBits(outbuf), pads.pad1, pads.pad2)
  {
    if |args| >= 2 {
      var outbuf := lib.digest(text, KeyBytes(lib, args[1]));
      SignatureMeans(outbuf, PadsOf(AfterText(args)).pad1, PadsOf(AfterText(args)).pad2);
      hide Describes, Classify, TableRuns, BufferBits;
    }
  }

  /** What a proven nonce is: with it the bits of the digest are lopsided, in the way the signature says. */
  lemma ProvenMeans(lib: Library, s: State, p: Params)
    requires Proven(lib, s, p)
    ensures var outbuf := lib.digest(s.text, lib.decode(p.nonce.value));
            && Describes(p.s, BufferBits(outbuf), s.pad1, s.pad2) && p.s.classifier != 0
            && p.id == Some(lib.encode(outbuf))
  {
    SignatureMeans(p.outbuf, s.pad1, s.pad2);
    hide Describes;
  }

  method Verify(table: array<Entry>, lib: Library, text: seq<Byte>, args: seq<Arg>) returns (r: Option<Result>)
    requires IsTable(table) && Sized(lib)
    ensures r == Verified(lib, text, args)
  {
    if |args| > 1 {
      var pad1, pad2 := ParsePads(args);
      var bytes := [];
      if !args[1].Undef? {
        var id := if args[1].Other? then args[1].text else lib.show(args[1].value);
        bytes := lib.decode(id);
      }
      var outbuf := lib.digest(text, bytes);
      var _, s := SignCheck.SignCheck(table, outbuf, pad1, pad2);
      return Some(Result(s.classifier, s.extent, lib.encode(outbuf)));
    }
    return None;
  }

  /** Verifying what signing returned, on the same text with the same pads, reports what signing did: the same id,
      extent and classifier, and the classifier is not 0.  This holds for the nonce of every thread that has one. */
  lemma SignThenVerify(lib: Library, run: seq<State>, steps: seq<Step>, text: Arg, pads: seq<Arg>, n: nat)
    requires Sized(lib) && IsRun(lib, run, steps) && run[|steps|].main.Returned? && n < |run[|steps|].pcs|
    requires var signed := PadsOf(AfterText([text] + pads)); signed.pad1 == run[0].pad1 && signed.pad2 == run[0].pad2
    requires run[|steps|].main.found == Some(n) || (n < |run[|steps|].params| && run[|steps|].params[n].nonce.Some?)
    ensures |run[|steps|].pcs| <= |run[|steps|].params|
    ensures var p := run[|steps|].params[n];
            && p.nonce.Some? && p.id.Some?
            && Verified(lib, run[0].text, [text, Other(p.nonce.value)] + pads) == Some(Reported(p))
            && Reported(p).classifier != 0
  {
    CallReturnsProvenNonce(lib, run, steps);
    var s := run[|steps|];
    assert s.params[n].nonce.Some?;
    assert Proven(lib, s, s.params[n]);
    var key := s.params[n].nonce.value;
    assert ([text] + pads)[1..] == pads && ([text, Other(key)] + pads)[1..] == [Other(key)] + pads;
    KeyIsNoPad(key, pads);
  }

  // ---- the code of one thread's turn and of the caller's search --------------------------------------------

  /** The body of the loop, on one thread's own parameters. */
  method TryNonce(table: array<Entry>, lib: Library, text: seq<Byte>, pad1: int, pad2: int, threadParams: array<Params>,
                  n: nat, nonce: string)
    requires IsTable(table) && Sized(lib) && n < threadParams.Length && Generated(lib, nonce)
    modifies threadParams
    ensures threadParams[..] == old(threadParams[..])[n :=
              Checked(lib, pad1, pad2, Hashed(lib, text, Drawn(old(threadParams[n]), nonce)))]
  {
    var p := threadParams[n];
    p := p.(nonce := Some(nonce));
    var bytes := lib.decode(nonce);
    p := p.(outbuf := lib.digest(text, bytes[..32]));
    var passedAs, s := SignCheck.SignCheck(table, p.outbuf, pad1, pad2);
    p := p.(passedAs := passedAs, s := s);
    if passedAs != 0 {
      p := p.(id := Some(lib.encode(p.outbuf)));
    } else {
      p := p.(nonce := None);
    }
    threadParams[n] := p;
  }

  method FindHolder(threadParams: array<Params>, threads: nat) returns (found: Option<nat>)
    requires threads <= threadParams.Length
    ensures found == FirstHolder(threadParams[..], threads)
  {
    found := None;
    var n := 0;
    while n < threads
      invariant n <= threads && found == FirstHolder(threadParams[..], n)
    {
      if threadParams[n].nonce.Some? {
        if found.None? { found := Some(n); }
      }
      n := n + 1;
    }
  }
}
