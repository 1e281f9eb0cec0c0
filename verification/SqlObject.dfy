/** The object that owns the pool: the code of each pool operation, field by field, against what SqlPool says it
    does. */
module SqlObject {
  import opened Options
  import opened SqlPool

  /** What the script's open callback may do with the object while it runs.  The last is a command that finds its
      connection lost, the one that carries the callback, and opens it again: the callback is called within itself. */
  datatype Call =
    | UseCall(now: nat, answer: Answer)
    | DropCall(handle: Option<Odbc>, now: nat)
    | TransactCall(now: nat, answer: Answer)
    | EndTransactionCall(now: nat)
    | CloseCall
    | ReopenCall(odbc: Odbc, calls: seq<Call>)

  /** A null handle is ignored. */
  function DroppedHandle(p: Pool, odbc: Option<Odbc>, now: nat): Pool {
    if odbc.None? then p else Dropped(p, odbc.value, now)
  }

  function AfterCall(p: Pool, call: Call): Pool
    decreases call
  {
    match call
    case UseCall(now, answer) => Used(p, now, answer.odbc).0
    case DropCall(odbc, now) => DroppedHandle(p, odbc, now)
    case TransactCall(now, answer) => Transacting(p, now, answer.odbc)
    case EndTransactionCall(now) => TransactionEnded(p, now)
    case CloseCall => AllClosed(p)
    case ReopenCall(odbc, calls) => CalledBack(p, odbc, calls)
  }

  function AfterCalls(p: Pool, calls: seq<Call>): Pool
    decreases calls, 0
  {
    if calls == [] then p else AfterCalls(AfterCall(p, calls[0]), calls[1..])
  }

  /** After the open callback ran, with `odbc` pinned. */
  function CalledBack(p: Pool, odbc: Odbc, calls: seq<Call>): Pool
    decreases calls, 1
  {
    AfterCalls(p.(opening := Some(odbc)), calls).(opening := None)
  }

  predicate RunsCallback(p: Pool, now: nat, answer: Answer) {
    Connects(p, now) && CallbackDue(p) && answer.isOpen
  }

  /** A use, with the open callback if it is due on it. */
  function UsedWith(p: Pool, now: nat, answer: Answer, calls: seq<Call>): (Pool, Odbc) {
    if RunsCallback(p, now, answer) then
      (Opened(AfterCalls(Opening(p, now, answer.odbc), calls)), answer.odbc)
    else Used(p, now, answer.odbc)
  }

  // ---- the code and the events -------------------------------------------------------------------------------

  ghost predicate Stretch(run: seq<World>, events: seq<Event>) {
    && |run| == |events| + 1
    && forall k :: 0 <= k < |events| ==> Enabled(run[k], events[k]) && run[k + 1] == Do(run[k], events[k])
  }

  /** What a single call is among the events: a use by a new client, a drop by one that holds the connection. */
  predicate IsEvent(w: World, call: Call, e: Event) {
    match call
    case UseCall(now, answer) => e.Use? && e.now == now && e.answer == answer
    case DropCall(odbc, now) => e.Drop? && e.now == now && e.client in w.holders && Some(w.holders[e.client]) == odbc
    case TransactCall(now, answer) => e == Transact(now, answer)
    case EndTransactionCall(now) => e == EndTransaction(now)
    case CloseCall => e == CloseAll
    case ReopenCall(_, _) => false
  }

  /** Events `i` to `j` are the call: one event, or the opening, what the inner callback does, and its end. */
  ghost predicate AreCall(run: seq<World>, events: seq<Event>, call: Call, i: nat, j: nat)
    requires |run| == |events| + 1 && i <= j <= |events|
    decreases call
  {
    match call
    case ReopenCall(odbc, calls) =>
      && i + 2 <= j && events[i].Reopen? && HandleOf(run[i], events[i].user) == Some(odbc) == run[i].carrier
      && AreCalls(run, events, calls, i + 1, j - 1) && events[j - 1] == EndReopen(events[i].user)
    case _ => j == i + 1 && IsEvent(run[i], call, events[i])
  }

  ghost predicate AreCalls(run: seq<World>, events: seq<Event>, calls: seq<Call>, i: nat, j: nat)
    requires |run| == |events| + 1 && i <= j <= |events|
    decreases calls
  {
    if calls == [] then i == j
    else exists k: nat :: i <= k <= j && AreCall(run, events, calls[0], i, k) && AreCalls(run, events, calls[1..], k, j)
  }

  lemma IsOneStep(w: World, call: Call, e: Event)
    requires Enabled(w, e) && IsEvent(w, call, e) && w.pool.callbackInvoked
    ensures var v := Do(w, e);
            && v.pool == AfterCall(w.pool, call) && v.pool.callbackInvoked
            && v.opener == w.opener && v.carrier == w.carrier
  {
    hide Odbcs, Recent, Expired;
  }

  lemma ReopenIsCall(w: World, user: User, odbc: Odbc)
    requires Enabled(w, Reopen(user)) && HandleOf(w, user) == Some(odbc) == w.carrier
    ensures var v := Do(w, Reopen(user));
            v.pool == w.pool.(opening := Some(odbc)) && v.opener == w.opener && v.carrier == w.carrier
  {
  }

  lemma {:induction false} CallIsEvents(run: seq<World>, events: seq<Event>, call: Call, i: nat, j: nat)
    requires Stretch(run, events) && i <= j <= |events| && AreCall(run, events, call, i, j)
    requires run[i].pool.callbackInvoked
    ensures run[j].pool == AfterCall(run[i].pool, call) && run[j].pool.callbackInvoked
    ensures run[j].opener == run[i].opener && run[j].carrier == run[i].carrier
    decreases call
  {
    hide Enabled, IsEvent, HandleOf;
    match call
    case ReopenCall(odbc, calls) =>
      ReopenIsCall(run[i], events[i].user, odbc);
      assert run[i + 1] == Do(run[i], events[i]);
      CallsAreEvents(run, events, calls, i + 1, j - 1);
      assert run[j] == Do(run[j - 1], events[j - 1]);
    case _ =>
      IsOneStep(run[i], call, events[i]);
  }

  lemma {:induction false} CallsAreEvents(run: seq<World>, events: seq<Event>, calls: seq<Call>, i: nat, j: nat)
    requires Stretch(run, events) && i <= j <= |events| && AreCalls(run, events, calls, i, j)
    requires run[i].pool.callbackInvoked
    ensures run[j].pool == AfterCalls(run[i].pool, calls) && run[j].pool.callbackInvoked
    ensures run[j].opener == run[i].opener && run[j].carrier == run[i].carrier
    decreases calls
  {
    if calls != [] {
      hide AfterCall, Stretch, AreCall;
      var k: nat :| i <= k <= j && AreCall(run, events, calls[0], i, k) && AreCalls(run, events, calls[1..], k, j);
      CallIsEvents(run, events, calls[0], i, k);
      CallsAreEvents(run, events, calls[1..], k, j);
    }
  }

  /** A use whose open callback makes these calls, by a client or by `transact`, is a run of the pool's events: the
      opening begins, the calls happen, further openings within them, and the opening ends.  So whatever holds of
      all runs holds while the callback runs. */
  lemma UseWithCallbackIsEvents(run: seq<World>, events: seq<Event>, calls: seq<Call>, opener: Opener, now: nat,
                                odbc: Odbc)
    requires Stretch(run, events) && |events| >= 2
    requires events[0] == BeginOpen(opener, now, odbc) && events[|events| - 1] == EndOpen
    requires AreCalls(run, events, calls, 1, |events| - 1)
    ensures var (p, used) := UsedWith(run[0].pool, now, Answer(odbc, true), calls);
            && used == odbc
            && run[|events|].pool == if opener.ForTransaction? then p.(transacting := Some(used)) else p
  {
    hide AreCalls, Pruned;
    var last := |events| - 1;
    assert run[1] == Do(run[0], events[0]);
    CallsAreEvents(run, events, calls, 1, last);
    assert run[last + 1] == Do(run[last], events[last]);
  }

  lemma CallEndsOpening(p: Pool, call: Call)
    ensures AfterCall(p, call).opening == if call.ReopenCall? then None else p.opening
  {
    hide Recent, Expired, Odbcs;
  }

  /** While an open callback runs its connection stays pinned if and only if none of its commands opens the
      connection again. */
  lemma {:induction false} CallsKeepOpening(p: Pool, calls: seq<Call>)
    requires p.opening.Some?
    ensures AfterCalls(p, calls).opening == p.opening <==> forall k :: 0 <= k < |calls| ==> !calls[k].ReopenCall?
    decreases |calls|
  {
    if calls != [] {
      hide AfterCall;
      CallEndsOpening(p, calls[0]);
      assert calls[1..] == [] || calls[1] == calls[1..][0];
      if calls[0].ReopenCall? {
        CallsPinNothing(AfterCall(p, calls[0]), calls[1..]);
      } else {
        CallsKeepOpening(AfterCall(p, calls[0]), calls[1..]);
        assert forall k :: 0 < k < |calls| ==> calls[k] == calls[1..][k - 1];
      }
    }
  }

  lemma {:induction false} CallsPinNothing(p: Pool, calls: seq<Call>)
    requires p.opening.None?
    ensures AfterCalls(p, calls).opening.None?
    decreases |calls|
  {
    if calls != [] {
      hide AfterCall;
      CallEndsOpening(p, calls[0]);
      CallsPinNothing(AfterCall(p, calls[0]), calls[1..]);
    }
  }

  lemma {:induction false} CallsKeepInvoked(p: Pool, calls: seq<Call>)
    requires p.callbackInvoked
    ensures AfterCalls(p, calls).callbackInvoked
    decreases calls
  {
    if calls != [] {
      CallKeepsInvoked(p, calls[0]);
      hide AfterCall;
      CallsKeepInvoked(AfterCall(p, calls[0]), calls[1..]);
    }
  }

  lemma {:induction false} CallKeepsInvoked(p: Pool, call: Call)
    requires p.callbackInvoked
    ensures AfterCall(p, call).callbackInvoked
    decreases call
  {
    hide Recent, Expired, Odbcs;
    if call.ReopenCall? { CallsKeepInvoked(p.(opening := Some(call.odbc)), call.calls); }
  }

  lemma ClosedInTurn(p: Pool, first: seq<Odbc>, rest: seq<Odbc>)
    ensures Closed(Closed(p, first), rest) == Closed(p, first + rest)
  {
    assert p.closings + first + rest == p.closings + (first + rest);
  }

  lemma OneEntry(entry: Idle, rest: seq<Idle>, now: nat)
    ensures Recent([entry] + rest, now) == if Stale(entry, now) then Recent(rest, now) else [entry] + Recent(rest, now)
    ensures Expired([entry] + rest, now)
         == if Stale(entry, now) then Expired(rest, now) + [entry.odbc] else Expired(rest, now)
  {
    assert ([entry] + rest)[1..] == rest;
  }

  /** The list has been walked up to entry i, the expired entries moved to `closeList`. */
  ghost predicate PrunedUpTo(was: seq<Idle>, now: nat, idle: seq<Idle>, i: nat, closeList: seq<Odbc>) {
    && i <= |idle|
    && Recent(was, now) == idle[..i] + Recent(idle[i..], now)
    && Expired(was, now) == Expired(idle[i..], now) + closeList
  }

  lemma PruningStarts(idle: seq<Idle>, now: nat)
    ensures PrunedUpTo(idle, now, idle, 0, [])
  {
    assert idle[..0] == [] && idle[0..] == idle;
  }

  lemma PruningGoesOn(was: seq<Idle>, now: nat, idle: seq<Idle>, i: nat, closeList: seq<Odbc>)
    requires PrunedUpTo(was, now, idle, i, closeList) && i < |idle|
    ensures if Stale(idle[i], now)
            then PrunedUpTo(was, now, idle[..i] + idle[i + 1..], i, [idle[i].odbc] + closeList)
            else PrunedUpTo(was, now, idle, i + 1, closeList)
  {
    hide Stale, Recent, Expired;
    var kept, entry, rest := idle[..i], idle[i], idle[i + 1..];
    assert idle[i..] == [entry] + rest;
    OneEntry(entry, rest, now);
    if Stale(entry, now) {
      assert (kept + rest)[..i] == kept && (kept + rest)[i..] == rest;
    } else {
      assert idle[..i + 1] == kept + [entry];
    }
  }

  lemma PruningEnds(was: seq<Idle>, now: nat, idle: seq<Idle>, closeList: seq<Odbc>)
    requires PrunedUpTo(was, now, idle, |idle|, closeList)
    ensures Recent(was, now) == idle && Expired(was, now) == closeList
  {
    assert idle[..|idle|] == idle && idle[|idle|..] == [];
  }

  class SqlObject {
    const maxIdle: nat
    const hasCallback: bool
    var odbcPool: seq<Idle>
    var activeOdbc: int
    var pooledOdbc: int
    var openedOdbc: int
    var reusedOdbc: int
    var closedOdbc: int
    var transactingOdbc: Option<Odbc>
    var openingOdbc: Option<Odbc>
    var openCallbackInvoked: bool
    ghost var closings: seq<Odbc>

    ghost function State(): Pool
      reads this
    {
      Pool(maxIdle, hasCallback, odbcPool, activeOdbc, pooledOdbc, openedOdbc, reusedOdbc, closedOdbc,
           transactingOdbc, openingOdbc, openCallbackInvoked, closings)
    }

    constructor (maxIdle: nat, hasCallback: bool)
      ensures State() == Created(maxIdle, hasCallback)
    {
      this.maxIdle, this.hasCallback := maxIdle, hasCallback;
      odbcPool, activeOdbc, pooledOdbc, openedOdbc, reusedOdbc, closedOdbc := [], 0, 0, 0, 0, 0;
      transactingOdbc, openingOdbc, openCallbackInvoked, closings := None, None, false, [];
    }

    method ClosePooledODBC(odbc: Odbc)
      modifies this
      ensures State() == Closed(old(State()), [odbc])
    {
      pooledOdbc := pooledOdbc - 1;
      closedOdbc := closedOdbc + 1;
      closings := closings + [odbc];
    }

    /** Takes the expired entries off the list, onto the head of another, and closes that one in order. */
    method PruneIdleODBCs(now: nat)
      modifies this
      ensures State() == Pruned(old(State()), now)
    {
      hide PrunedUpTo, Stale;
      var i, closeList: seq<Odbc> := 0, [];
      PruningStarts(odbcPool, now);
      while i < |odbcPool|
        invariant PrunedUpTo(old(odbcPool), now, odbcPool, i, closeList) && i <= |odbcPool|
        invariant State() == old(State()).(idle := odbcPool)
        decreases |odbcPool| - i
      {
        PruningGoesOn(old(odbcPool), now, odbcPool, i, closeList);
        if Stale(odbcPool[i], now) {
          closeList := [odbcPool[i].odbc] + closeList;
          odbcPool := odbcPool[..i] + odbcPool[i + 1..];
        } else {
          i := i + 1;
        }
      }
      PruningEnds(old(odbcPool), now, odbcPool, closeList);
      CloseList(closeList);
    }

    method CloseList(closeList: seq<Odbc>)
      modifies this
      ensures State() == Closed(old(State()), closeList)
    {
      var rest := closeList;
      while rest != []
        invariant Closed(State(), rest) == Closed(old(State()), closeList)
      {
        ClosedInTurn(State(), [rest[0]], rest[1..]);
        assert [rest[0]] + rest[1..] == rest;
        ClosePooledODBC(rest[0]);
        rest := rest[1..];
      }
      assert closings + [] == closings;
    }

    method DropODBC(odbc: Option<Odbc>, now: nat)
      modifies this
      ensures State() == DroppedHandle(old(State()), odbc, now)
    {
      if odbc.None? { return; }
      if odbc == transactingOdbc { return; }
      if odbc == openingOdbc { return; }
      PruneIdleODBCs(now);
      if pooledOdbc >= maxIdle {
        activeOdbc := activeOdbc - 1;
        closedOdbc := closedOdbc + 1;
        closings := closings + [odbc.value];
        return;
      }
      odbcPool := [Idle(odbc.value, now)] + odbcPool;
      activeOdbc := activeOdbc - 1;
      pooledOdbc := pooledOdbc + 1;
    }

    /** `answer` is that of the connect, `calls` what the open callback does, if it comes to either. */
    method UseODBC(now: nat, answer: Answer, calls: seq<Call>) returns (odbc: Odbc)
      modifies this
      ensures (State(), odbc) == UsedWith(old(State()), now, answer, calls)
      decreases calls, 2
    {
      if transactingOdbc.Some? { return transactingOdbc.value; }
      if openingOdbc.Some? { return openingOdbc.value; }
      PruneIdleODBCs(now);
      if odbcPool != [] {
        odbc := odbcPool[0].odbc;
        odbcPool := odbcPool[1..];
        pooledOdbc := pooledOdbc - 1;
        activeOdbc := activeOdbc + 1;
        reusedOdbc := reusedOdbc + 1;
      } else {
        var callOpenCallback := hasCallback && !openCallbackInvoked;
        if callOpenCallback { openCallbackInvoked := true; }
        odbc := answer.odbc;
        if callOpenCallback && answer.isOpen { OnOpen(odbc, calls); }
        activeOdbc := activeOdbc + 1;
        openedOdbc := openedOdbc + 1;
      }
    }

    /** Called by the library, each time it opens the connection that the callback was given to. */
    method OnOpen(odbc: Odbc, calls: seq<Call>)
      requires openCallbackInvoked
      modifies this
      ensures State() == CalledBack(old(State()), odbc, calls)
      decreases calls, 1
    {
      openingOdbc := Some(odbc);
      OpenCallback(calls);
      openingOdbc := None;
    }

    /** The script's code: any calls on the object, in any order. */
    method OpenCallback(calls: seq<Call>)
      requires openCallbackInvoked
      modifies this
      ensures State() == AfterCalls(old(State()), calls)
      decreases calls, 0
    {
      var i := 0;
      while i < |calls|
        invariant i <= |calls| && openCallbackInvoked
        invariant AfterCalls(State(), calls[i..]) == AfterCalls(old(State()), calls)
      {
        CallKeepsInvoked(State(), calls[i]);
        assert calls[i..][1..] == calls[i + 1..];
        match calls[i] {
          case UseCall(now, answer) => var _ := UseODBC(now, answer, calls[..0]);
          case DropCall(odbc, now) => DropODBC(odbc, now);
          case TransactCall(now, answer) => Transact(now, answer, calls[..0]);
          case EndTransactionCall(now) => EndTransaction(now);
          case CloseCall => ClosePooledODBCs();
          case ReopenCall(odbc, inner) => OnOpen(odbc, inner);
        }
        i := i + 1;
      }
    }

    method Transact(now: nat, answer: Answer, calls: seq<Call>)
      modifies this
      ensures var (q, odbc) := UsedWith(old(State()), now, answer, calls); State() == q.(transacting := Some(odbc))
      decreases calls, 3
    {
      var odbc := UseODBC(now, answer, calls);
      transactingOdbc := Some(odbc);
    }

    /** Commit and rollback differ only in what they tell the database. */
    method EndTransaction(now: nat)
      modifies this
      ensures State() == TransactionEnded(old(State()), now)
    {
      if transactingOdbc.Some? {
        var odbc := transactingOdbc;
        transactingOdbc := None;
        DropODBC(odbc, now);
      }
    }

    method ClosePooledODBCs()
      modifies this
      ensures State() == AllClosed(old(State()))
    {
      while odbcPool != []
        invariant AllClosed(State()) == AllClosed(old(State()))
        decreases |odbcPool|
      {
        var closeList := odbcPool;
        odbcPool := [];
        CloseList(Odbcs(closeList));
        assert closings + [] == closings;
      }
    }
  }
}
