/** When the open callback runs, over whole runs of the pool, and what it can do to the pin. */
module SqlOpenings {
  import opened Options
  import opened SqlPool
  import opened SqlRuns

  /** The callbacks that are running, one for each opening under way. */
  function Running(w: World): nat {
    |w.reopening| + if w.opener == Nobody then 0 else 1
  }

  /** The open callback starts to run, once more. */
  predicate Starts(w: World, e: Event)
    requires Enabled(w, e)
  {
    Running(Do(w, e)) == Running(w) + 1
  }

  /** The connection that an event makes. */
  function NewHandle(w: World, e: Event): Option<Odbc> {
    match e
    case Use(_, now, answer) => if Connects(w.pool, now) then Some(answer.odbc) else None
    case Transact(now, answer) => if Connects(w.pool, now) then Some(answer.odbc) else None
    case BeginOpen(_, _, odbc) => Some(odbc)
    case _ => None
  }

  predicate Opens(w: World, e: Event, odbc: Odbc)
    requires Enabled(w, e)
  {
    odbc !in w.connected && odbc in Do(w, e).connected
  }

  /** The callback has been given away exactly when a connect was tried, and then to the connection made. */
  ghost predicate GivenAway(w: World, hasCallback: bool) {
    && w.pool.hasCallback == hasCallback && w.pool.openedOdbc >= 0
    && (w.pool.callbackInvoked <==> hasCallback && (w.pool.openedOdbc > 0 || w.opener != Nobody))
    && (w.carrier.Some? <==> w.pool.callbackInvoked)
    && (w.opener != Nobody || w.reopening != multiset{} ==> w.carrier.Some?)
    && (w.carrier.Some? ==> w.carrier.value in w.issued)
  }

  lemma UsedGives(p: Pool, now: nat, odbc: Odbc)
    ensures var q := Used(p, now, odbc).0;
            && q.hasCallback == p.hasCallback
            && q.openedOdbc == p.openedOdbc + (if Connects(p, now) then 1 else 0)
            && q.callbackInvoked == (p.callbackInvoked || (Connects(p, now) && p.hasCallback))
  {
  }

  lemma DroppedGives(p: Pool, odbc: Odbc, now: nat)
    ensures var q := Dropped(p, odbc, now);
            q.hasCallback == p.hasCallback && q.openedOdbc == p.openedOdbc && q.callbackInvoked == p.callbackInvoked
  {
  }

  lemma StepGives(w: World, e: Event, hasCallback: bool)
    requires GivenAway(w, hasCallback) && Enabled(w, e)
    ensures GivenAway(Do(w, e), hasCallback)
    ensures w.carrier.Some? ==> Do(w, e).carrier == w.carrier && !e.BeginOpen?
    ensures w.carrier.None? ==> Do(w, e).carrier == if hasCallback then NewHandle(w, e) else None
  {
    hide Used, Dropped, Recent, Expired, Odbcs;
    match e
    case Use(_, now, answer) => UsedGives(w.pool, now, answer.odbc);
    case Transact(now, answer) => UsedGives(w.pool, now, answer.odbc);
    case Drop(client, now) => DroppedGives(w.pool, w.holders[client], now);
    case EndTransaction(now) =>
      if w.pool.transacting.Some? { DroppedGives(w.pool.(transacting := None), w.pool.transacting.value, now); }
    case EndReopen(user) => assert w.reopening != multiset{};
    case _ =>
  }

  /** The callback starts with an event if and only if the event opens the connection that carries it. */
  lemma StepStarts(w: World, e: Event, hasCallback: bool)
    requires GivenAway(w, hasCallback) && Enabled(w, e)
    ensures Starts(w, e) <==> Do(w, e).carrier.Some? && Opens(w, e, Do(w, e).carrier.value)
  {
    hide Used, Dropped, Pruned, Connects, AllClosed, Transacting, TransactionEnded, GivenAway;
    match e
    case BeginOpen(_, _, _) => BeginOpenStarts(w, e, hasCallback);
    case Use(_, _, _) => ConnectStartsNone(w, e, hasCallback);
    case Transact(_, _) => ConnectStartsNone(w, e, hasCallback);
    case Reopen(user) => ReopenStarts(w, user, hasCallback);
    case EndReopen(user) => assert |w.reopening - multiset{user}| == |w.reopening| - 1;
    case _ =>
  }

  lemma BeginOpenStarts(w: World, e: Event, hasCallback: bool)
    requires GivenAway(w, hasCallback) && Enabled(w, e) && e.BeginOpen?
    ensures Starts(w, e) && Opens(w, e, e.odbc)
  {
    hide Pruned, Connects;
  }

  lemma ConnectStartsNone(w: World, e: Event, hasCallback: bool)
    requires GivenAway(w, hasCallback) && Enabled(w, e) && (e.Use? || e.Transact?)
    ensures !Starts(w, e) && (Do(w, e).carrier.Some? ==> !Opens(w, e, Do(w, e).carrier.value))
  {
    hide Used, Connects;
  }

  lemma ReopenStarts(w: World, user: User, hasCallback: bool)
    requires GivenAway(w, hasCallback) && Enabled(w, Reopen(user))
    ensures Starts(w, Reopen(user)) <==> w.carrier.Some? && Opens(w, Reopen(user), w.carrier.value)
  {
    assert |w.reopening + multiset{user}| == |w.reopening| + 1;
    hide GivenAway, HandleOf;
  }

  lemma {:induction false} AlwaysGivenAway(maxIdle: nat, hasCallback: bool, run: seq<World>, events: seq<Event>, n: nat)
    requires IsRun(maxIdle, hasCallback, run, events) && n < |run|
    ensures GivenAway(run[n], hasCallback)
  {
    if n > 0 {
      hide GivenAway, Do, Enabled;
      AlwaysGivenAway(maxIdle, hasCallback, run, events, n - 1);
      StepGives(run[n - 1], events[n - 1], hasCallback);
    }
  }

  /** Connection `odbc` is the first one that the run makes, with event `i`. */
  ghost predicate IsFirst(run: seq<World>, events: seq<Event>, i: nat, odbc: Odbc)
    requires |run| == |events| + 1
  {
    && i < |events| && NewHandle(run[i], events[i]) == Some(odbc)
    && forall k :: 0 <= k < i ==> NewHandle(run[k], events[k]).None?
  }

  /** On every run the callback is given to the first connection made, and to no other. */
  lemma {:induction false} FirstIsCarrier(maxIdle: nat, hasCallback: bool, run: seq<World>, events: seq<Event>,
                                          i: nat, odbc: Odbc, n: nat)
    requires IsRun(maxIdle, hasCallback, run, events) && n < |run| && IsFirst(run, events, i, odbc)
    ensures run[n].carrier == if n > i && hasCallback then Some(odbc) else None
    decreases n
  {
    if n > 0 {
      hide GivenAway, Do, Enabled, NewHandle;
      var w, e := run[n - 1], events[n - 1];
      assert n - 1 <= i ==> NewHandle(w, e) == if n - 1 == i then Some(odbc) else None;
      AlwaysGivenAway(maxIdle, hasCallback, run, events, n - 1);
      FirstIsCarrier(maxIdle, hasCallback, run, events, i, odbc, n - 1);
      hide IsFirst;
      StepGives(w, e, hasCallback);
      if n - 1 > i && !hasCallback { StillNone(w, e); }
    }
  }

  lemma StillNone(w: World, e: Event)
    requires GivenAway(w, false) && Enabled(w, e)
    ensures Do(w, e).carrier.None?
  {
    StepGives(w, e, false);
    hide Do, Enabled;
  }

  /** On every run, of an object with an open callback, the callback runs at exactly the openings of the first
      connection made: when that is opened by the connect or, that having failed, later, and each time it is opened
      again after it was lost.  No opening of any other connection runs it. */
  lemma CallbackRunsExactlyWhen(maxIdle: nat, hasCallback: bool, run: seq<World>, events: seq<Event>,
                                i: nat, odbc: Odbc, n: nat)
    requires IsRun(maxIdle, hasCallback, run, events) && n < |events| && IsFirst(run, events, i, odbc)
    ensures Starts(run[n], events[n]) <==> hasCallback && Opens(run[n], events[n], odbc)
  {
    hide Do, Enabled, GivenAway, NewHandle;
    AlwaysGivenAway(maxIdle, hasCallback, run, events, n);
    FirstIsCarrier(maxIdle, hasCallback, run, events, i, odbc, n + 1);
    StepStarts(run[n], events[n], hasCallback);
    if n < i { NotYetMade(maxIdle, hasCallback, run, events, i, odbc, n); }
  }

  /** Before it is made it does not open. */
  lemma NotYetMade(maxIdle: nat, hasCallback: bool, run: seq<World>, events: seq<Event>, i: nat, odbc: Odbc, n: nat)
    requires IsRun(maxIdle, hasCallback, run, events) && IsFirst(run, events, i, odbc) && n < i
    ensures !Opens(run[n], events[n], odbc)
  {
    NothingMade(maxIdle, hasCallback, run, events, n + 1, i);
  }

  lemma {:induction false} NothingMade(maxIdle: nat, hasCallback: bool, run: seq<World>, events: seq<Event>, n: nat,
                                       i: nat)
    requires IsRun(maxIdle, hasCallback, run, events) && n <= i < |events|
    requires forall k :: 0 <= k < i ==> NewHandle(run[k], events[k]).None?
    ensures Empty(run[n])
  {
    if n > 0 {
      NothingMade(maxIdle, hasCallback, run, events, n - 1, i);
      StaysEmpty(run[n - 1], events[n - 1]);
    }
  }

  ghost predicate Empty(w: World) {
    && w.issued == {} && w.connected == {} && w.holders == map[] && w.pool.idle == []
    && Pinned(w.pool).None? && w.opener == Nobody && w.reopening == multiset{}
  }

  lemma StaysEmpty(w: World, e: Event)
    requires Empty(w) && Enabled(w, e) && NewHandle(w, e).None?
    ensures Empty(Do(w, e))
  {
  }

  /** At any moment of any run, a use that connects and opens is given the callback if and only if there is one and
      no connect was tried before in the life of the object; otherwise it is a plain use. */
  lemma CallbackGivenExactlyWhen(maxIdle: nat, hasCallback: bool, run: seq<World>, events: seq<Event>, n: nat,
                                 client: Client, now: nat, odbc: Odbc)
    requires IsRun(maxIdle, hasCallback, run, events) && n < |run|
    requires Ticks(run[n], now) && client !in run[n].holders && run[n].opener == Nobody
    requires Connects(run[n].pool, now) && IsNew(run[n], odbc)
    ensures Enabled(run[n], BeginOpen(ForClient(client), now, odbc)) <==> hasCallback && run[n].pool.openedOdbc == 0
    ensures Enabled(run[n], Use(client, now, Answer(odbc, true))) <==> !(hasCallback && run[n].pool.openedOdbc == 0)
  {
    AlwaysGivenAway(maxIdle, hasCallback, run, events, n);
  }

  /** So in no run does a connect run the callback twice. */
  lemma {:induction false} CallbackGivenOnce(maxIdle: nat, hasCallback: bool, run: seq<World>, events: seq<Event>,
                                             i: nat, j: nat)
    requires IsRun(maxIdle, hasCallback, run, events) && i < j < |events| && events[i].BeginOpen?
    ensures run[j].carrier == Some(events[i].odbc) && !events[j].BeginOpen?
    decreases j
  {
    hide GivenAway, Do, Enabled;
    AlwaysGivenAway(maxIdle, hasCallback, run, events, j - 1);
    AlwaysGivenAway(maxIdle, hasCallback, run, events, j);
    if i < j - 1 {
      CallbackGivenOnce(maxIdle, hasCallback, run, events, i, j - 1);
    } else {
      BeginOpenGives(run[i], events[i]);
    }
    StepGives(run[j - 1], events[j - 1], hasCallback);
    StepGives(run[j], events[j], hasCallback);
  }

  lemma BeginOpenGives(w: World, e: Event)
    requires Enabled(w, e) && e.BeginOpen?
    ensures Do(w, e).carrier == Some(e.odbc)
  {
  }

  const V1 := Start(4, true).(
    pool := Created(4, true).(callbackInvoked := true, opening := Some(0)), clock := 1, opener := ForClient(0),
    issued := {0}, connected := {0}, carrier := Some(0))
  const V2 := V1.(pool := Created(4, true).(callbackInvoked := true, activeOdbc := 1, openedOdbc := 1),
                  holders := map[0 := 0], opener := Nobody)

  lemma FirstOpens()
    ensures Enabled(Start(4, true), BeginOpen(ForClient(0), 1, 0))
    ensures Do(Start(4, true), BeginOpen(ForClient(0), 1, 0)) == V1
    ensures Enabled(V1, EndOpen) && Do(V1, EndOpen) == V2
  {
    NothingToPrune([], 1);
  }

  const V3 := V2.(pool := Created(4, true).(callbackInvoked := true, openedOdbc := 1, pooledOdbc := 1,
                                            idle := [Idle(0, 2)]), clock := 2, holders := map[])
  const V4 := V3.(pool := Created(4, true).(callbackInvoked := true, openedOdbc := 1, closedOdbc := 1, closings := [0]))
  const V5 := V4.(pool := V4.pool.(openedOdbc := 2, activeOdbc := 1), clock := 3, holders := map[0 := 1],
                  issued := {0, 1}, connected := {0, 1})

  lemma HandedBack()
    ensures Enabled(V2, Drop(0, 2)) && Do(V2, Drop(0, 2)) == V3
  {
    NothingToPrune([], 2);
    hide Recent, Expired, Odbcs;
    assert V2.holders - {0} == map[];
  }

  lemma ClosedAndReopened()
    ensures Enabled(V3, CloseAll) && Do(V3, CloseAll) == V4
    ensures var again := Use(0, 3, Answer(1, true)); Enabled(V4, again) && Do(V4, again) == V5 && !Starts(V4, again)
  {
    NothingToPrune([], 3);
    assert Odbcs(V3.pool.idle) == [0];
  }

  /** An object with an open callback is used, handed back its connection, closed, and used again: the second
      connection is a new one, the first being closed, and gets no callback. */
  lemma ReopenedWithoutCallback()
    ensures var again := Use(0, 3, Answer(1, true));
            var events := [BeginOpen(ForClient(0), 1, 0), EndOpen, Drop(0, 2), CloseAll, again];
            exists run: seq<World> ::
              && IsRun(4, true, run, events) && run[5].holders == map[0 := 1]
              && run[5].pool.closings == [0] && run[5].pool.openedOdbc == 2 && !Starts(run[4], again)
  {
    hide Do, Enabled, Starts;
    var again := Use(0, 3, Answer(1, true));
    var events := [BeginOpen(ForClient(0), 1, 0), EndOpen, Drop(0, 2), CloseAll, again];
    FirstOpens();
    HandedBack();
    ClosedAndReopened();
    var run := [Start(4, true), V1, V2, V3, V4, V5];
    assert IsRun(4, true, run, events);
    assert run[5] == V5 && run[4] == V4;
  }

  lemma ZeroComesAndGoes()
    ensures var none: set<Odbc> := {}; none + {0} == {0} && {0} - {0} == none
  {
  }

  const L3 := V2.(connected := {})
  const L4 := V2.(pool := V2.pool.(opening := Some(0)), reopening := multiset{ByClient(0)})

  lemma LostAndOpened()
    ensures Enabled(V2, Lose(0)) && Do(V2, Lose(0)) == L3
    ensures Enabled(L3, Reopen(ByClient(0))) && Do(L3, Reopen(ByClient(0))) == L4
    ensures Starts(Start(4, true), BeginOpen(ForClient(0), 1, 0)) && Starts(L3, Reopen(ByClient(0)))
  {
    NothingToPrune([], 1);
    ZeroComesAndGoes();
    assert multiset{} + multiset{ByClient(0)} == multiset{ByClient(0)};
  }

  /** The first connection is lost and opened again under the client that uses it: the callback runs a second time. */
  lemma RunsAgainWhenLost()
    ensures var events := [BeginOpen(ForClient(0), 1, 0), EndOpen, Lose(0), Reopen(ByClient(0))];
            exists run: seq<World> ::
              IsRun(4, true, run, events) && Starts(run[0], events[0]) && Starts(run[3], events[3])
  {
    hide Do, Enabled, IsRun, Starts;
    var events := [BeginOpen(ForClient(0), 1, 0), EndOpen, Lose(0), Reopen(ByClient(0))];
    FirstOpens();
    LostAndOpened();
    FourEvents(Start(4, true), V1, V2, L3, L4, events);
    var run := [Start(4, true), V1, V2, L3, L4];
    assert run[0] == Start(4, true) && run[3] == L3;
  }

  const F1 := Start(4, true).(
    pool := Created(4, true).(callbackInvoked := true, activeOdbc := 1, openedOdbc := 1), clock := 1,
    holders := map[0 := 0], issued := {0}, carrier := Some(0))

  /** The first connection could not be opened at once: the callback runs when it is. */
  lemma RunsLateWhenFirstFails()
    ensures var (first, late) := (Use(0, 1, Answer(0, false)), Reopen(ByClient(0)));
            && Enabled(Start(4, true), first) && !Starts(Start(4, true), first)
            && var w := Do(Start(4, true), first); Enabled(w, late) && Starts(w, late)
  {
    NothingToPrune([], 1);
    assert Do(Start(4, true), Use(0, 1, Answer(0, false))) == F1;
  }

  const N2 := V1.(clock := 2, holders := map[1 := 0])
  const N3 := N2.(connected := {})
  const N4 := N2.(reopening := multiset{ByClient(1)})
  const N5 := N2.(pool := N2.pool.(opening := None))
  const N6 := N5.(pool := N5.pool.(activeOdbc := -1, pooledOdbc := 1, idle := [Idle(0, 3)]), clock := 3,
                  holders := map[])
  const N7 := N6.(pool := N6.pool.(activeOdbc := 0, openedOdbc := 1), holders := map[0 := 0], opener := Nobody)

  lemma InnerOpens()
    ensures Enabled(V1, Use(1, 2, NONE)) && Do(V1, Use(1, 2, NONE)) == N2
    ensures Enabled(N2, Lose(0)) && Do(N2, Lose(0)) == N3
    ensures Enabled(N3, Reopen(ByClient(1))) && Do(N3, Reopen(ByClient(1))) == N4
    ensures Enabled(N4, EndReopen(ByClient(1))) && Do(N4, EndReopen(ByClient(1))) == N5
  {
    ZeroComesAndGoes();
    assert multiset{} + multiset{ByClient(1)} == multiset{ByClient(1)};
    assert multiset{ByClient(1)} - multiset{ByClient(1)} == multiset{};
  }

  lemma InnerHandsBack()
    ensures Enabled(N5, Drop(1, 3)) && !LastHolder(N5, Drop(1, 3)) && Do(N5, Drop(1, 3)) == N6
    ensures Enabled(N6, EndOpen) && Do(N6, EndOpen) == N7
  {
    NothingToPrune([], 3);
    hide Recent, Expired, Odbcs;
    assert N5.holders - {1} == map[];
    assert 0 in Pending(N5);
  }

  /** A command of the open callback loses the connection, and opens it again: when the inner callback ends, the pin
      ends for the outer one as well.  The command then hands the connection back, although the first use is still
      to be given it: it is idle and held at once. */
  lemma InnerOpeningUnpins()
    ensures var events := [BeginOpen(ForClient(0), 1, 0), Use(1, 2, NONE), Lose(0), Reopen(ByClient(1)),
                           EndReopen(ByClient(1)), Drop(1, 3), EndOpen];
            exists run: seq<World> ::
              && IsRun(4, true, run, events) && Running(run[4]) == 2
              && Running(run[5]) == 1 && run[5].pool.opening.None? && !LastHolder(run[5], events[5])
              && run[7].holders == map[0 := 0] && run[7].pool.idle == [Idle(0, 3)]
  {
    hide Do, Enabled, LastHolder;
    var events := [BeginOpen(ForClient(0), 1, 0), Use(1, 2, NONE), Lose(0), Reopen(ByClient(1)),
                   EndReopen(ByClient(1)), Drop(1, 3), EndOpen];
    FirstOpens();
    InnerOpens();
    InnerHandsBack();
    var run := [Start(4, true), V1, N2, N3, N4, N5, N6, N7];
    assert IsRun(4, true, run, events);
    assert run[4] == N4 && run[5] == N5 && run[7] == N7;
  }
}
