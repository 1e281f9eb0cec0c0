/** Whole runs of the pool: where the connections are, what the counters mean, in which order the idle ones are. */
module SqlRuns {
  import opened Options
  import opened SqlPool

  ghost predicate IsRun(maxIdle: nat, hasCallback: bool, run: seq<World>, events: seq<Event>) {
    && |run| == |events| + 1 && run[0] == Start(maxIdle, hasCallback)
    && forall i :: 0 <= i < |events| ==> Enabled(run[i], events[i]) && run[i + 1] == Do(run[i], events[i])
  }

  lemma {:induction false} RunKeeps(maxIdle: nat, hasCallback: bool, run: seq<World>, events: seq<Event>, n: nat)
    requires IsRun(maxIdle, hasCallback, run, events) && n < |run|
    requires forall i :: 0 <= i < n ==> Orderly(run[i], events[i])
    ensures Inv(run[n])
  {
    if n == 0 {
      assert Odbcs([]) == [] && run[0].holders.Values == {};
    } else {
      hide Inv, Orderly, Do, Enabled;
      RunKeeps(maxIdle, hasCallback, run, events, n - 1);
      StepKeepsExactlyWhen(run[n - 1], events[n - 1]);
    }
  }

  /** What the invariant says of the connections one by one. */
  lemma EachInOnePlace(w: World, odbc: Odbc)
    requires Inv(w)
    ensures odbc in w.issued <==> odbc in w.pool.closings || odbc in Odbcs(w.pool.idle) || odbc in Held(w)
    ensures odbc in w.pool.closings ==> odbc !in Odbcs(w.pool.idle) && odbc !in Held(w)
    ensures odbc in Odbcs(w.pool.idle) ==> odbc !in Held(w)
    ensures multiset(w.pool.closings)[odbc] <= 1 && multiset(Odbcs(w.pool.idle))[odbc] <= 1
    ensures w.pool.transacting == Some(odbc) || w.pool.opening == Some(odbc) ==>
              odbc !in w.pool.closings && odbc !in Odbcs(w.pool.idle)
  {
    assert Everywhere(w)[odbc] == multiset(w.issued)[odbc];
  }

  /** What the invariant says of the counters. */
  lemma CountersMeanSets(w: World)
    requires Inv(w)
    ensures w.pool.openedOdbc == w.pool.closedOdbc + w.pool.activeOdbc + w.pool.pooledOdbc
    ensures w.pool.openedOdbc == |w.issued| - |Pending(w)|
    ensures w.pool.activeOdbc == |Held(w)| - |Pending(w)|
    ensures w.pool.closedOdbc == |w.pool.closings| && w.pool.pooledOdbc == |w.pool.idle| <= w.pool.maxIdle
  {
    assert |Everywhere(w)| == |w.pool.closings| + |Odbcs(w.pool.idle)| + |Held(w)|;
    assert |Everywhere(w)| == |multiset(w.issued)| == |w.issued|;
    assert Held(w) == (Held(w) - Pending(w)) + Pending(w);
  }

  /** The counters balance on every run, also when connections are handed back out of turn. */
  lemma {:induction false} CountersAlwaysBalance(maxIdle: nat, hasCallback: bool, run: seq<World>, events: seq<Event>,
                                                 n: nat)
    requires IsRun(maxIdle, hasCallback, run, events) && n < |run|
    ensures Counted(run[n].pool)
  {
    if n > 0 {
      hide Counted, Do, Enabled;
      CountersAlwaysBalance(maxIdle, hasCallback, run, events, n - 1);
      StepCounts(run[n - 1], events[n - 1]);
    }
  }

  lemma PrunedCounts(p: Pool, now: nat)
    requires Counted(p)
    ensures Counted(Pruned(p, now))
  {
    PruningMoves(p.idle, now);
  }

  lemma UsedCounts(p: Pool, now: nat, odbc: Odbc)
    requires Counted(p)
    ensures Counted(Used(p, now, odbc).0)
  {
    hide Recent, Expired;
    PrunedCounts(p, now);
  }

  lemma DroppedCounts(p: Pool, odbc: Odbc, now: nat)
    requires Counted(p)
    ensures Counted(Dropped(p, odbc, now))
  {
    hide Recent, Expired;
    PrunedCounts(p, now);
  }

  lemma StepCounts(w: World, e: Event)
    requires Counted(w.pool) && Enabled(w, e)
    ensures Counted(Do(w, e).pool)
  {
    hide Used, Dropped, Pruned, Odbcs;
    match e
    case Use(_, now, answer) => UsedCounts(w.pool, now, answer.odbc);
    case BeginOpen(_, now, _) => PrunedCounts(w.pool, now);
    case Drop(client, now) => DroppedCounts(w.pool, w.holders[client], now);
    case Transact(now, answer) => UsedCounts(w.pool, now, answer.odbc);
    case EndTransaction(now) =>
      if w.pool.transacting.Some? { DroppedCounts(w.pool.(transacting := None), w.pool.transacting.value, now); }
    case CloseAll =>
    case EndOpen =>
    case Lose(_) =>
    case Reopen(_) =>
    case EndReopen(_) =>
  }

  ghost predicate SortedBy(idle: seq<Idle>, now: nat) {
    NewestFirst(idle) && forall i :: 0 <= i < |idle| ==> idle[i].lastUsed <= now
  }

  lemma UsedSorts(p: Pool, now: nat, odbc: Odbc)
    requires SortedBy(p.idle, now) && now < CLOCK_RANGE
    ensures SortedBy(Used(p, now, odbc).0.idle, now) && SortedBy(Pruned(p, now).idle, now)
  {
    hide Stale, Recent, Expired;
    PruningCutsTheTail(p.idle, now);
  }

  lemma DroppedSorts(p: Pool, odbc: Odbc, now: nat)
    requires SortedBy(p.idle, now) && now < CLOCK_RANGE
    ensures SortedBy(Dropped(p, odbc, now).idle, now)
  {
    hide Stale, Recent, Expired;
    PruningCutsTheTail(p.idle, now);
  }

  lemma StepOrders(w: World, e: Event)
    requires Ordered(w) && Enabled(w, e)
    ensures Ordered(Do(w, e))
  {
    hide Used, Dropped, Pruned;
    match e
    case Use(_, now, answer) => UsedSorts(w.pool, now, answer.odbc);
    case BeginOpen(_, now, odbc) => UsedSorts(w.pool, now, odbc);
    case Drop(client, now) => DroppedSorts(w.pool, w.holders[client], now);
    case Transact(now, answer) => UsedSorts(w.pool, now, answer.odbc);
    case EndTransaction(now) =>
      if w.pool.transacting.Some? { DroppedSorts(w.pool.(transacting := None), w.pool.transacting.value, now); }
    case EndOpen =>
    case CloseAll =>
    case Lose(_) =>
    case Reopen(_) =>
    case EndReopen(_) =>
  }

  /** On every run at all the idle list is sorted, most recently used first. */
  lemma {:induction false} AlwaysOrdered(maxIdle: nat, hasCallback: bool, run: seq<World>, events: seq<Event>, n: nat)
    requires IsRun(maxIdle, hasCallback, run, events) && n < |run|
    ensures Ordered(run[n])
  {
    if n > 0 {
      hide Ordered, Do, Enabled;
      AlwaysOrdered(maxIdle, hasCallback, run, events, n - 1);
      StepOrders(run[n - 1], events[n - 1]);
    } else {
      assert run[0].pool.idle == [];
    }
  }

  /** A pin stays until the transaction or an open callback ends, and meanwhile every use is given it. */
  lemma PinStays(w: World, e: Event)
    requires PinsAgree(w) && Enabled(w, e)
    ensures w.pool.transacting.Some? && !e.EndTransaction? && !(e.EndOpen? && w.opener.ForTransaction?) ==>
              Do(w, e).pool.transacting == w.pool.transacting
    ensures w.pool.opening.Some? && !e.EndOpen? && !e.EndReopen? ==> Do(w, e).pool.opening == w.pool.opening
    ensures Pinned(w.pool).Some? && e.Use? ==> Do(w, e).holders == w.holders[e.client := Pinned(w.pool).value]
  {
    hide Odbcs, Recent, Expired;
  }

  /** A use with nothing pinned hands out a connection nobody else has. */
  lemma UseIsExclusive(w: World, client: Client, now: nat, answer: Answer)
    requires Inv(w) && Enabled(w, Use(client, now, answer)) && Pinned(w.pool).None?
    ensures var v := Do(w, Use(client, now, answer));
            && client in v.holders && v.holders[client] !in Held(w)
            && v.holders[client] !in v.pool.closings && v.holders[client] !in Odbcs(v.pool.idle)
  {
    hide Held, Odbcs, Recent, Expired, NewestFirst, PinsAgree;
    var v := Do(w, Use(client, now, answer));
    UseKeeps(w, client, now, answer);
    UseHolds(w, client, now, answer);
    UsedTakes(w, now, answer);
    HeldGrows(w, v, v.holders[client]);
    HeldIsNowhereElse(v, v.holders[client]);
  }

  /** It is the idle connection used last, if that was used within the timeout, and otherwise a new one.  This, as
      the order of the list, depends on the clock alone, not on who hands connections back. */
  lemma ReuseIsNewest(w: World, now: nat, another: Odbc)
    requires Ordered(w) && Ticks(w, now) && Pinned(w.pool).None?
    ensures var idle, (q, odbc) := w.pool.idle, Used(w.pool, now, another);
            if idle != [] && now - idle[0].lastUsed <= IDLE_TIMEOUT then
              && odbc == idle[0].odbc && (forall i :: 0 <= i < |idle| ==> idle[i].lastUsed <= idle[0].lastUsed)
              && q.reusedOdbc == w.pool.reusedOdbc + 1 && q.openedOdbc == w.pool.openedOdbc
            else
              && odbc == another && q.idle == [] && q.openedOdbc == w.pool.openedOdbc + 1
              && q.reusedOdbc == w.pool.reusedOdbc
  {
    PruningCutsTheTail(w.pool.idle, now);
  }

  // ---- what each operation leaves, from the state before and the clock ------------------------------------------

  /** The first `n` idle connections were used within the timeout, the others were not. */
  predicate Split(idle: seq<Idle>, now: nat, n: nat) {
    && n <= |idle| && (forall i :: 0 <= i < n ==> now - idle[i].lastUsed <= IDLE_TIMEOUT)
    && forall i :: n <= i < |idle| ==> now - idle[i].lastUsed > IDLE_TIMEOUT
  }

  /** All but the first `n` have been closed, the last of the list first. */
  predicate ClosesTail(before: seq<Odbc>, idle: seq<Idle>, n: nat, after: seq<Odbc>)
    requires n <= |idle|
  {
    && |after| == |before| + |idle| - n && after[..|before|] == before
    && var tail := after[|before|..];
       forall k :: 0 <= k < |tail| ==> tail[k] == idle[|idle| - 1 - k].odbc
  }

  lemma PrunedLeaves(p: Pool, now: nat, n: nat)
    requires SortedBy(p.idle, now) && now < CLOCK_RANGE && Split(p.idle, now, n)
    ensures Pruned(p, now).idle == p.idle[..n] && ClosesTail(p.closings, p.idle, n, Pruned(p, now).closings)
    ensures var q := Pruned(p, now);
            q == p.(idle := q.idle, pooledOdbc := q.pooledOdbc, closedOdbc := q.closedOdbc, closings := q.closings)
  {
    hide Recent, Expired;
    PruningCutsTheTail(p.idle, now);
    var m := |Recent(p.idle, now)|;
    assert m < |p.idle| ==> now - p.idle[m].lastUsed > IDLE_TIMEOUT;
    assert n < |p.idle| ==> now - p.idle[n].lastUsed > IDLE_TIMEOUT;
  }

  /** Connection `odbc` was handed back: it is kept, as the one used last, if fewer than the maximum were idle within
      the timeout, and closed otherwise; what was idle for longer is closed in any case, and before it. */
  predicate HandedBack(p: Pool, q: Pool, odbc: Odbc, now: nat, n: nat)
    requires n <= |p.idle|
  {
    && q.activeOdbc == p.activeOdbc - 1 && q.openedOdbc == p.openedOdbc && q.reusedOdbc == p.reusedOdbc
    && q.transacting == p.transacting && q.opening == p.opening && q.callbackInvoked == p.callbackInvoked
    && if n < p.maxIdle then
         q.idle == [Idle(odbc, now)] + p.idle[..n] && ClosesTail(p.closings, p.idle, n, q.closings)
       else
         && q.idle == p.idle[..n] && q.closings != [] && q.closings[|q.closings| - 1] == odbc
         && ClosesTail(p.closings, p.idle, n, q.closings[..|q.closings| - 1])
  }

  lemma DroppedLeaves(p: Pool, odbc: Odbc, now: nat, n: nat)
    requires Counted(p) && SortedBy(p.idle, now) && now < CLOCK_RANGE && Split(p.idle, now, n)
    requires p.transacting != Some(odbc) && p.opening != Some(odbc)
    ensures HandedBack(p, Dropped(p, odbc, now), odbc, now, n)
  {
    PrunedLeaves(p, now, n);
    PrunedCounts(p, now);
    hide Pruned, ClosesTail;
    var closed := Pruned(p, now).closings;
    assert (closed + [odbc])[..|closed|] == closed;
  }

  /** What a drop leaves; a pinned connection is not handed back. */
  lemma DropLeaves(w: World, client: Client, now: nat, n: nat)
    requires Counted(w.pool) && Ordered(w) && Enabled(w, Drop(client, now)) && Split(w.pool.idle, now, n)
    ensures var odbc, p, v := w.holders[client], w.pool, Do(w, Drop(client, now));
            && v.holders == w.holders - {client}
            && if p.transacting == Some(odbc) || p.opening == Some(odbc) then v.pool == p
               else HandedBack(p, v.pool, odbc, now, n)
  {
    var odbc := w.holders[client];
    hide HandedBack, Pruned;
    if w.pool.transacting != Some(odbc) && w.pool.opening != Some(odbc) {
      DroppedLeaves(w.pool, odbc, now, n);
    }
  }

  /** What a commit or rollback leaves. */
  lemma EndTransactionLeaves(w: World, now: nat, n: nat)
    requires Counted(w.pool) && Ordered(w) && Enabled(w, EndTransaction(now)) && Split(w.pool.idle, now, n)
    ensures var p, q := w.pool, Do(w, EndTransaction(now)).pool;
            if p.transacting.None? then q == p
            else if p.opening == p.transacting then q == p.(transacting := None)
            else HandedBack(p.(transacting := None), q, p.transacting.value, now, n)
  {
    hide HandedBack, Pruned;
    if w.pool.transacting.Some? && w.pool.opening != w.pool.transacting {
      DroppedLeaves(w.pool.(transacting := None), w.pool.transacting.value, now, n);
    }
  }

  /** Connection `odbc` was given out: the pinned one, or else the idle one used last, if it is within the timeout, or
      else a new one; what was idle for longer is closed. */
  predicate GivenOut(p: Pool, q: Pool, odbc: Odbc, another: Odbc, n: nat)
    requires n <= |p.idle|
  {
    if p.transacting.Some? then q == p && odbc == p.transacting.value
    else if p.opening.Some? then q == p && odbc == p.opening.value
    else
      && q.activeOdbc == p.activeOdbc + 1 && ClosesTail(p.closings, p.idle, n, q.closings)
      && q.transacting == p.transacting && q.opening == p.opening
      && if n > 0 then
           && odbc == p.idle[0].odbc && q.idle == p.idle[1..n]
           && q.reusedOdbc == p.reusedOdbc + 1 && q.openedOdbc == p.openedOdbc
         else
           && odbc == another && q.idle == []
           && q.openedOdbc == p.openedOdbc + 1 && q.reusedOdbc == p.reusedOdbc
  }

  lemma UsedLeaves(p: Pool, now: nat, another: Odbc, n: nat)
    requires SortedBy(p.idle, now) && now < CLOCK_RANGE && Split(p.idle, now, n)
    ensures var (q, odbc) := Used(p, now, another); GivenOut(p, q, odbc, another, n)
  {
    PrunedLeaves(p, now, n);
    hide Pruned, ClosesTail;
  }

  /** What a use leaves. */
  lemma UseLeaves(w: World, client: Client, now: nat, answer: Answer, n: nat)
    requires Ordered(w) && Enabled(w, Use(client, now, answer)) && Split(w.pool.idle, now, n)
    ensures var v := Do(w, Use(client, now, answer));
            && client in v.holders && v.holders == w.holders[client := v.holders[client]]
            && GivenOut(w.pool, v.pool, v.holders[client], answer.odbc, n)
  {
    hide GivenOut, Pruned;
    UsedLeaves(w.pool, now, answer.odbc, n);
  }

  /** What the start of a transaction leaves: besides, it pins what it was given. */
  lemma TransactLeaves(w: World, now: nat, answer: Answer, n: nat)
    requires Ordered(w) && Enabled(w, Transact(now, answer)) && Split(w.pool.idle, now, n)
    ensures var p, q := w.pool, Do(w, Transact(now, answer)).pool;
            && q.transacting.Some?
            && GivenOut(p, q.(transacting := p.transacting), q.transacting.value, answer.odbc, n)
  {
    hide GivenOut, Pruned;
    UsedLeaves(w.pool, now, answer.odbc, n);
    UsedPins(w.pool, now, answer.odbc);
    var (q, odbc) := Used(w.pool, now, answer.odbc);
    assert Do(w, Transact(now, answer)).pool.(transacting := w.pool.transacting) == q;
  }

  /** Closing all closes every idle connection, the first of the list first, and no other. */
  lemma CloseAllLeaves(w: World)
    requires Counted(w.pool)
    ensures var p, q := w.pool, Do(w, CloseAll).pool;
            && q.idle == [] && q.pooledOdbc == 0 && q.activeOdbc == p.activeOdbc
            && |q.closings| == |p.closings| + |p.idle| && q.closings[..|p.closings|] == p.closings
            && forall k :: 0 <= k < |p.idle| ==> q.closings[|p.closings| + k] == p.idle[k].odbc
  {
  }

  /** A user that borrowed the connection of a transaction and hands it back after the commit: the connection is
      idle twice, so that it can be handed to two users at once, and the number of active connections is -1. */
  lemma BorrowerOutlivesTheTransaction()
    ensures var events := [Transact(1, Answer(0, true)), Use(7, 2, NONE), EndTransaction(3), Drop(7, 4)];
            exists run: seq<World> ::
              && IsRun(4, false, run, events) && !LastHolder(run[2], events[2])
              && run[4].pool.idle == [Idle(0, 4), Idle(0, 3)] && run[4].pool.activeOdbc == -1
  {
    hide Do, Enabled, IsRun, LastHolder;
    var events := [Transact(1, Answer(0, true)), Use(7, 2, NONE), EndTransaction(3), Drop(7, 4)];
    BorrowerBorrows();
    BorrowerReturns();
    BorrowerIsNotLast();
    FourEvents(Start(4, false), W1, W2, W3, W4, events);
    assert [Start(4, false), W1, W2, W3, W4][4] == W4;
  }

  lemma BorrowerIsNotLast()
    ensures !LastHolder(W2, EndTransaction(3))
  {
    assert W2.holders[7] == 0;
  }

  lemma FourEvents(w0: World, w1: World, w2: World, w3: World, w4: World, events: seq<Event>)
    requires |events| == 4 && w0 == Start(w0.pool.maxIdle, w0.pool.hasCallback)
    requires Enabled(w0, events[0]) && Do(w0, events[0]) == w1 && Enabled(w1, events[1]) && Do(w1, events[1]) == w2
    requires Enabled(w2, events[2]) && Do(w2, events[2]) == w3 && Enabled(w3, events[3]) && Do(w3, events[3]) == w4
    ensures IsRun(w0.pool.maxIdle, w0.pool.hasCallback, [w0, w1, w2, w3, w4], events)
  {
    hide Do, Enabled;
  }

  /** For uses that do not connect. */
  const NONE := Answer(0, false)

  const W1 := Start(4, false).(
    pool := Created(4, false).(activeOdbc := 1, openedOdbc := 1, transacting := Some(0)), clock := 1,
    issued := {0}, connected := {0})
  const W2 := W1.(clock := 2, holders := map[7 := 0])
  const W3 := W2.(pool := Created(4, false).(openedOdbc := 1, pooledOdbc := 1, idle := [Idle(0, 3)]), clock := 3)
  const W4 := W3.(pool := W3.pool.(activeOdbc := -1, pooledOdbc := 2, idle := [Idle(0, 4), Idle(0, 3)]), clock := 4,
                  holders := map[])

  lemma BorrowerBorrows()
    ensures Enabled(Start(4, false), Transact(1, Answer(0, true)))
    ensures Do(Start(4, false), Transact(1, Answer(0, true))) == W1
    ensures Enabled(W1, Use(7, 2, NONE)) && Do(W1, Use(7, 2, NONE)) == W2
  {
    NothingToPrune([], 1);
  }

  lemma BorrowerReturns()
    ensures Enabled(W2, EndTransaction(3)) && Do(W2, EndTransaction(3)) == W3
    ensures Enabled(W3, Drop(7, 4)) && Do(W3, Drop(7, 4)) == W4
  {
    NothingToPrune([], 3);
    NothingToPrune(W3.pool.idle, 4);
    hide Recent, Expired, Odbcs;
    assert W3.holders - {7} == map[];
  }

  lemma NothingToPrune(idle: seq<Idle>, now: nat)
    requires |idle| <= 1 && forall i :: 0 <= i < |idle| ==> 0 <= now - idle[i].lastUsed <= IDLE_TIMEOUT
    ensures Recent(idle, now) == idle && Expired(idle, now) == []
  {
    if idle != [] {
      assert idle[1..] == [] && !Stale(idle[0], now);
    }
  }
}
