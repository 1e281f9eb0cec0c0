/** The pool of database connections behind one SQL object: idle connections are reused most recently used first,
    dropped when idle for too long, and capped in number; a connection in a transaction, or one whose open callback
    is running, is pinned.  The library below keeps the open callback with the connection it was given to, and runs it
    each time that connection opens. */
module SqlPool {
  import opened Options

  /** A connection handle; each connect yields a new one. */
  type Odbc = nat

  /** What the library answers to a connect: always a handle, and whether it could be opened at once. */
  datatype Answer = Answer(odbc: Odbc, isOpen: bool)

  const IDLE_TIMEOUT := 30000
  const CLOCK_RANGE := 0x1_0000_0000_0000_0000

  datatype Idle = Idle(odbc: Odbc, lastUsed: nat)

  /** The fields of the object that the pool uses; `closings` lists the connections closed, in order. */
  datatype Pool = Pool(
    maxIdle: nat, hasCallback: bool,
    idle: seq<Idle>, activeOdbc: int, pooledOdbc: int, openedOdbc: int, reusedOdbc: int, closedOdbc: int,
    transacting: Option<Odbc>, opening: Option<Odbc>, callbackInvoked: bool,
    closings: seq<Odbc>)

  function Created(maxIdle: nat, hasCallback: bool): Pool {
    Pool(maxIdle, hasCallback, [], 0, 0, 0, 0, 0, None, None, false, [])
  }

  function Odbcs(idle: seq<Idle>): (odbcs: seq<Odbc>)
    ensures |odbcs| == |idle|
  {
    seq(|idle|, i requires 0 <= i < |idle| => idle[i].odbc)
  }

  // ---- what each operation does ----------------------------------------------------------------------------

  /** The subtraction is unsigned. */
  predicate Stale(entry: Idle, now: nat) {
    (now - entry.lastUsed) % CLOCK_RANGE > IDLE_TIMEOUT
  }

  function Recent(idle: seq<Idle>, now: nat): seq<Idle> {
    if idle == [] then []
    else if Stale(idle[0], now) then Recent(idle[1..], now)
    else [idle[0]] + Recent(idle[1..], now)
  }

  /** The connections pruned, last of the list first. */
  function Expired(idle: seq<Idle>, now: nat): seq<Odbc> {
    if idle == [] then []
    else if Stale(idle[0], now) then Expired(idle[1..], now) + [idle[0].odbc]
    else Expired(idle[1..], now)
  }

  function Closed(p: Pool, odbcs: seq<Odbc>): Pool {
    p.(pooledOdbc := p.pooledOdbc - |odbcs|, closedOdbc := p.closedOdbc + |odbcs|, closings := p.closings + odbcs)
  }

  function Pruned(p: Pool, now: nat): Pool {
    Closed(p.(idle := Recent(p.idle, now)), Expired(p.idle, now))
  }

  function AllClosed(p: Pool): Pool {
    Closed(p.(idle := []), Odbcs(p.idle))
  }

  /** Whether handing the connection back has an effect. */
  predicate Releases(p: Pool, odbc: Odbc) {
    p.transacting != Some(odbc) && p.opening != Some(odbc)
  }

  function Dropped(p: Pool, odbc: Odbc, now: nat): Pool {
    if !Releases(p, odbc) then p
    else
      var q := Pruned(p, now);
      if q.pooledOdbc >= q.maxIdle then
        q.(activeOdbc := q.activeOdbc - 1, closedOdbc := q.closedOdbc + 1, closings := q.closings + [odbc])
      else
        q.(idle := [Idle(odbc, now)] + q.idle, activeOdbc := q.activeOdbc - 1, pooledOdbc := q.pooledOdbc + 1)
  }

  function Pinned(p: Pool): Option<Odbc> {
    if p.transacting.Some? then p.transacting else p.opening
  }

  /** Whether a use has to connect anew. */
  predicate Connects(p: Pool, now: nat) {
    Pinned(p).None? && Recent(p.idle, now) == []
  }

  predicate CallbackDue(p: Pool) {
    p.hasCallback && !p.callbackInvoked
  }

  /** A use during which no open callback runs; `odbc` is the handle that a connect gives, if there is one. */
  function Used(p: Pool, now: nat, odbc: Odbc): (Pool, Odbc) {
    if Pinned(p).Some? then (p, Pinned(p).value)
    else
      var q := Pruned(p, now);
      if q.idle != [] then
        (q.(idle := q.idle[1..], pooledOdbc := q.pooledOdbc - 1, activeOdbc := q.activeOdbc + 1,
            reusedOdbc := q.reusedOdbc + 1),
         q.idle[0].odbc)
      else
        (q.(callbackInvoked := q.callbackInvoked || q.hasCallback, activeOdbc := q.activeOdbc + 1,
            openedOdbc := q.openedOdbc + 1),
         odbc)
  }

  /** A use up to the moment the open callback starts, and from the moment it ends. */
  function Opening(p: Pool, now: nat, odbc: Odbc): Pool {
    Pruned(p, now).(callbackInvoked := true, opening := Some(odbc))
  }

  function Opened(p: Pool): Pool {
    p.(opening := None, activeOdbc := p.activeOdbc + 1, openedOdbc := p.openedOdbc + 1)
  }

  function Transacting(p: Pool, now: nat, odbc: Odbc): Pool {
    var (q, used) := Used(p, now, odbc);
    q.(transacting := Some(used))
  }

  function TransactionEnded(p: Pool, now: nat): Pool {
    if p.transacting.None? then p else Dropped(p.(transacting := None), p.transacting.value, now)
  }

  // ---- the pool and its users ------------------------------------------------------------------------------

  type Client = nat

  /** For whom the first connection is being opened, its callback running. */
  datatype Opener = Nobody | ForClient(client: Client) | ForTransaction

  /** Who runs a command on a connection: a client, the transaction that begins or ends, or the library by itself. */
  datatype User = ByClient(client: Client) | ByTransaction | ByLibrary(odbc: Odbc)

  /** The pool, who holds what, and the library's side: the connections ever made, those that are open, the one that
      carries the open callback, and the commands that are waiting for the callback because they opened it again. */
  datatype World = World(
    pool: Pool, clock: nat, holders: map<Client, Odbc>, opener: Opener, issued: set<Odbc>, connected: set<Odbc>,
    carrier: Option<Odbc>, reopening: multiset<User>)

  function Start(maxIdle: nat, hasCallback: bool): World {
    World(Created(maxIdle, hasCallback), 0, map[], Nobody, {}, {}, None, multiset{})
  }

  /** What can happen.  While an open callback runs, that is between `BeginOpen` and `EndOpen` or between `Reopen` and
      `EndReopen`, anything else can, further openings included. */
  datatype Event =
    | Use(client: Client, now: nat, answer: Answer)
    | BeginOpen(opener: Opener, now: nat, odbc: Odbc)
    | EndOpen
    | Drop(client: Client, now: nat)
    | Transact(now: nat, answer: Answer)
    | EndTransaction(now: nat)       // commit or rollback
    | CloseAll
    | Lose(odbc: Odbc)               // the database is gone
    | Reopen(user: User)             // a command finds its connection not open, and opens it
    | EndReopen(user: User)

  predicate Ticks(w: World, now: nat) {
    w.clock <= now < CLOCK_RANGE
  }

  predicate IsNew(w: World, odbc: Odbc) {
    odbc !in w.issued && odbc !in w.connected
  }

  /** The connect answers with a new connection, and does not open one that is given the callback. */
  predicate PlainConnect(w: World, now: nat, answer: Answer) {
    Connects(w.pool, now) ==> IsNew(w, answer.odbc) && !(answer.isOpen && CallbackDue(w.pool))
  }

  /** The connection a user's commands run on. */
  function HandleOf(w: World, user: User): Option<Odbc> {
    match user
    case ByClient(client) => if client in w.holders then Some(w.holders[client]) else None
    case ByTransaction => w.pool.transacting
    case ByLibrary(odbc) => if odbc in w.issued then Some(odbc) else None
  }

  predicate Enabled(w: World, e: Event) {
    match e
    case Use(client, now, answer) =>
      Ticks(w, now) && client !in w.holders && w.opener != ForClient(client) && PlainConnect(w, now, answer)
    case BeginOpen(opener, now, odbc) =>
      && Ticks(w, now) && opener != Nobody && (opener.ForClient? ==> opener.client !in w.holders)
      && Connects(w.pool, now) && CallbackDue(w.pool) && IsNew(w, odbc)
    case EndOpen => w.opener != Nobody && w.carrier.Some?
    case Drop(client, now) => Ticks(w, now) && client in w.holders && ByClient(client) !in w.reopening
    case Transact(now, answer) => Ticks(w, now) && PlainConnect(w, now, answer)
    case EndTransaction(now) => Ticks(w, now)
    case CloseAll => true
    case Lose(odbc) => odbc in w.connected
    case Reopen(user) =>
      && HandleOf(w, user).Some? && HandleOf(w, user).value !in w.connected
      && (user.ByClient? ==> user !in w.reopening)
    case EndReopen(user) => user in w.reopening
  }

  function Connected(w: World, now: nat, answer: Answer): World {
    if !Connects(w.pool, now) then w.(clock := now)
    else
      w.(clock := now, issued := w.issued + {answer.odbc},
         connected := if answer.isOpen then w.connected + {answer.odbc} else w.connected,
         carrier := if CallbackDue(w.pool) then Some(answer.odbc) else w.carrier)
  }

  function Do(w: World, e: Event): World
    requires Enabled(w, e)
  {
    match e
    case Use(client, now, answer) =>
      (var (q, odbc) := Used(w.pool, now, answer.odbc);
       Connected(w, now, answer).(pool := q, holders := w.holders[client := odbc]))
    case BeginOpen(opener, now, odbc) =>
      w.(pool := Opening(w.pool, now, odbc), clock := now, opener := opener, issued := w.issued + {odbc},
         connected := w.connected + {odbc}, carrier := Some(odbc))
    case EndOpen =>
      (var p := Opened(w.pool);
       if w.opener.ForTransaction? then w.(pool := p.(transacting := w.carrier), opener := Nobody)
       else w.(pool := p, opener := Nobody, holders := w.holders[w.opener.client := w.carrier.value]))
    case Drop(client, now) =>
      w.(pool := Dropped(w.pool, w.holders[client], now), clock := now, holders := w.holders - {client})
    case Transact(now, answer) =>
      Connected(w, now, answer).(pool := Transacting(w.pool, now, answer.odbc))
    case EndTransaction(now) => w.(pool := TransactionEnded(w.pool, now), clock := now)
    case CloseAll => w.(pool := AllClosed(w.pool))
    case Lose(odbc) => w.(connected := w.connected - {odbc})
    case Reopen(user) =>
      (var odbc := HandleOf(w, user).value;
       var v := w.(connected := w.connected + {odbc});
       if w.carrier != Some(odbc) then v
       else v.(pool := w.pool.(opening := w.carrier), reopening := w.reopening + multiset{user}))
    case EndReopen(user) => w.(pool := w.pool.(opening := None), reopening := w.reopening - multiset{user})
  }

  /** Whoever hands a connection back to the pool is its last holder.  A user that borrowed a pinned connection and
      keeps it past the end of the pinning can break this. */
  predicate LastHolder(w: World, e: Event) {
    match e
    case Drop(client, _) =>
      (client in w.holders && Releases(w.pool, w.holders[client])) ==>
        w.holders[client] !in (w.holders - {client}).Values + Pending(w)
    case EndTransaction(_) =>
      (w.pool.transacting.Some? && w.pool.opening != w.pool.transacting) ==>
        w.pool.transacting.value !in w.holders.Values + Pending(w)
    case _ => true
  }

  /** A connection that is pinned has a holder: when it is opened again, when that pin ends, and when the transaction
      for which the first connection was opened takes the place of another. */
  predicate StaysHeld(w: World, e: Event) {
    match e
    case Reopen(user) =>
      (HandleOf(w, user).Some? && HandleOf(w, user) == w.carrier) ==> w.carrier.value in Held(w)
    case EndReopen(_) =>
      w.pool.opening.Some? ==> w.pool.opening.value in w.holders.Values + Some1(w.pool.transacting) + Pending(w)
    case EndOpen =>
      (w.opener.ForTransaction? && w.pool.transacting.Some? && w.pool.transacting != w.carrier) ==>
        w.pool.transacting.value in w.holders.Values
    case _ => true
  }

  predicate Orderly(w: World, e: Event) {
    LastHolder(w, e) && StaysHeld(w, e)
  }

  // ---- the invariant ---------------------------------------------------------------------------------------

  function Some1(o: Option<Odbc>): set<Odbc> {
    if o.Some? then {o.value} else {}
  }

  /** The connection that is being opened for a use. */
  function Pending(w: World): set<Odbc> {
    if w.opener == Nobody then {} else Some1(w.carrier)
  }

  /** The connections somebody holds: clients, the transaction, the pin, and the use that is opening the first one. */
  function Held(w: World): set<Odbc> {
    w.holders.Values + Some1(w.pool.transacting) + Some1(w.pool.opening) + Pending(w)
  }

  function ClosedOrIdle(p: Pool): multiset<Odbc> {
    multiset(p.closings) + multiset(Odbcs(p.idle))
  }

  /** Where the connections are, each as often as it occurs. */
  function Everywhere(w: World): multiset<Odbc> {
    ClosedOrIdle(w.pool) + multiset(Held(w))
  }

  /** Every connection ever made is in exactly one place: closed, idle, or held. */
  ghost predicate Partitioned(w: World) {
    Everywhere(w) == multiset(w.issued)
  }

  ghost predicate Counted(p: Pool) {
    && p.openedOdbc == p.closedOdbc + p.activeOdbc + p.pooledOdbc
    && p.pooledOdbc == |p.idle|
    && p.closedOdbc == |p.closings|
    && p.pooledOdbc <= p.maxIdle
  }

  /** Most recently used first. */
  ghost predicate Ordered(w: World) {
    && w.clock < CLOCK_RANGE
    && NewestFirst(w.pool.idle)
    && forall i :: 0 <= i < |w.pool.idle| ==> w.pool.idle[i].lastUsed <= w.clock
  }

  ghost predicate NewestFirst(idle: seq<Idle>) {
    forall i, j :: 0 <= i < j < |idle| ==> idle[i].lastUsed >= idle[j].lastUsed
  }

  /** Only the carrier is pinned for an open callback, and only while one runs. */
  ghost predicate PinsAgree(w: World) {
    && (w.pool.opening.Some? ==> w.pool.opening == w.carrier && (w.opener != Nobody || w.reopening != multiset{}))
    && (w.opener != Nobody || w.reopening != multiset{} ==> w.carrier.Some?)
    && (w.carrier.Some? ==> w.pool.callbackInvoked)
    && (w.opener.ForClient? ==> w.opener.client !in w.holders)
    && forall c :: ByClient(c) in w.reopening ==> c in w.holders && Some(w.holders[c]) == w.carrier
  }

  /** A connection is counted active while it is held, except while it is being opened for its first use. */
  ghost predicate ActiveCounted(w: World) {
    w.pool.activeOdbc == |Held(w) - Pending(w)|
  }

  ghost predicate Inv(w: World) {
    Partitioned(w) && Counted(w.pool) && Ordered(w) && PinsAgree(w) && ActiveCounted(w)
  }

  lemma OdbcsOf(first: Idle, rest: seq<Idle>)
    ensures Odbcs([first] + rest) == [first.odbc] + Odbcs(rest)
    ensures multiset(Odbcs([first] + rest)) == multiset{first.odbc} + multiset(Odbcs(rest))
  {
    assert Odbcs([first] + rest) == [first.odbc] + Odbcs(rest);
  }

  lemma {:induction false} PruningMoves(idle: seq<Idle>, now: nat)
    ensures multiset(Odbcs(Recent(idle, now))) + multiset(Expired(idle, now)) == multiset(Odbcs(idle))
    ensures |Recent(idle, now)| + |Expired(idle, now)| == |idle|
  {
    hide Stale, Odbcs;
    if idle == [] {
      assert Recent(idle, now) == idle;
    } else {
      var first, rest := idle[0], idle[1..];
      PruningMoves(rest, now);
      assert idle == [first] + rest;
      OdbcsOf(first, rest);
      OdbcsOf(first, Recent(rest, now));
    }
  }

  /** While the clock does not go back the subtraction does not wrap. */
  lemma StaleMeans(entry: Idle, now: nat)
    requires entry.lastUsed <= now < CLOCK_RANGE
    ensures Stale(entry, now) <==> now - entry.lastUsed > IDLE_TIMEOUT
  {
  }

  lemma {:induction false} AllExpired(idle: seq<Idle>, now: nat)
    requires forall i :: 0 <= i < |idle| ==> Stale(idle[i], now)
    ensures Recent(idle, now) == [] && |Expired(idle, now)| == |idle|
    ensures forall k :: 0 <= k < |idle| ==> Expired(idle, now)[k] == idle[|idle| - 1 - k].odbc
  {
    hide Stale;
    if idle != [] {
      AllExpired(idle[1..], now);
    }
  }

  /** The first `n` entries are recent, and the others are closed from the last one on. */
  ghost predicate CutsAt(idle: seq<Idle>, now: nat, n: nat) {
    && n <= |idle| && Recent(idle, now) == idle[..n]
    && (forall i :: 0 <= i < n ==> now - idle[i].lastUsed <= IDLE_TIMEOUT)
    && (forall i :: n <= i < |idle| ==> now - idle[i].lastUsed > IDLE_TIMEOUT)
    && |Expired(idle, now)| == |idle| - n
    && forall k :: 0 <= k < |idle| - n ==> Expired(idle, now)[k] == idle[|idle| - 1 - k].odbc
  }

  lemma CutsAfterFirst(first: Idle, rest: seq<Idle>, now: nat, n: nat)
    requires CutsAt(rest, now, n) && !Stale(first, now) && now - first.lastUsed <= IDLE_TIMEOUT
    ensures CutsAt([first] + rest, now, n + 1)
  {
    hide Stale;
    var idle := [first] + rest;
    assert idle[1..] == rest;
    assert idle[..n + 1] == [first] + rest[..n];
  }

  /** On an ordered list and a clock that has not gone back, pruning cuts off exactly the tail that has been idle
      for more than the timeout, and closes it oldest first. */
  lemma {:induction false} PruningCutsTheTail(idle: seq<Idle>, now: nat)
    requires NewestFirst(idle) && now < CLOCK_RANGE && forall i :: 0 <= i < |idle| ==> idle[i].lastUsed <= now
    ensures CutsAt(idle, now, |Recent(idle, now)|)
  {
    hide Stale;
    if idle != [] {
      var first, rest := idle[0], idle[1..];
      StaleMeans(first, now);
      if Stale(first, now) {
        forall i | 0 <= i < |idle| ensures Stale(idle[i], now) && now - idle[i].lastUsed > IDLE_TIMEOUT {
          StaleMeans(idle[i], now);
        }
        AllExpired(idle, now);
      } else {
        hide CutsAt;
        PruningCutsTheTail(rest, now);
        CutsAfterFirst(first, rest, now, |Recent(rest, now)|);
        assert [first] + rest == idle;
      }
    }
  }

  lemma PrunedKeeps(w: World, now: nat)
    requires Partitioned(w) && Counted(w.pool) && Ordered(w) && Ticks(w, now)
    ensures var v := w.(pool := Pruned(w.pool, now), clock := now);
            && Partitioned(v) && Counted(v.pool) && Ordered(v) && Held(v) == Held(w)
            && ClosedOrIdle(v.pool) == ClosedOrIdle(w.pool)
  {
    PruningMoves(w.pool.idle, now);
    PruningCutsTheTail(w.pool.idle, now);
  }

  /** A held connection is neither idle nor closed: in particular a pinned one. */
  lemma HeldIsNowhereElse(w: World, odbc: Odbc)
    requires Partitioned(w) && odbc in Held(w)
    ensures odbc in w.issued && odbc !in w.pool.closings && odbc !in Odbcs(w.pool.idle)
  {
    assert Everywhere(w)[odbc] == multiset(w.issued)[odbc] == 1;
  }

  // ---- every event keeps it --------------------------------------------------------------------------------

  lemma ValuesWith(holders: map<Client, Odbc>, client: Client, odbc: Odbc)
    requires client !in holders
    ensures holders[client := odbc].Values == holders.Values + {odbc}
  {
    var h := holders[client := odbc];
    assert h[client] == odbc;
    forall c | c in holders.Values ensures c in h.Values {
      var k :| k in holders && holders[k] == c;
      assert h[k] == c;
    }
  }

  lemma ValuesWithout(holders: map<Client, Odbc>, client: Client)
    requires client in holders
    ensures holders.Values == (holders - {client}).Values + {holders[client]}
  {
    var h := holders - {client};
    forall c | c in holders.Values && c != holders[client] ensures c in h.Values {
      var k :| k in holders && holders[k] == c;
      assert h[k] == c;
    }
  }

  lemma OneMore(held: set<Odbc>, odbc: Odbc)
    requires odbc !in held
    ensures multiset(held + {odbc}) == multiset(held) + multiset{odbc}
  {
  }

  /** A connection comes to be held that was idle, or is new. */
  lemma HeldGrows(w: World, v: World, odbc: Odbc)
    requires Partitioned(w) && Held(v) == Held(w) + {odbc}
    requires || (ClosedOrIdle(w.pool) == ClosedOrIdle(v.pool) + multiset{odbc} && v.issued == w.issued)
             || (ClosedOrIdle(w.pool) == ClosedOrIdle(v.pool) && v.issued == w.issued + {odbc} && odbc !in w.issued)
    ensures Partitioned(v) && odbc !in Held(w)
  {
    hide Held, ClosedOrIdle;
    assert Everywhere(w)[odbc] == multiset(w.issued)[odbc];
    OneMore(Held(w), odbc);
    if odbc !in w.issued { OneMore(w.issued, odbc); }
  }

  /** What a use with nothing pinned does: it reuses an idle connection, or connects anew. */
  lemma UsedTakes(w: World, now: nat, answer: Answer)
    requires Partitioned(w) && Counted(w.pool) && Ordered(w) && Ticks(w, now)
    requires Pinned(w.pool).None? && PlainConnect(w, now, answer)
    ensures var p, (q, odbc) := w.pool, Used(w.pool, now, answer.odbc);
            var v := Connected(w, now, answer).(pool := q);
            && Counted(q) && Ordered(v) && q.activeOdbc == p.activeOdbc + 1
            && q.transacting == p.transacting && q.opening == p.opening && (p.callbackInvoked ==> q.callbackInvoked)
            && (!Connects(p, now) ==>
                  ClosedOrIdle(p) == ClosedOrIdle(q) + multiset{odbc} && v.issued == w.issued)
            && (Connects(p, now) ==>
                  ClosedOrIdle(p) == ClosedOrIdle(q) && odbc !in w.issued && v.issued == w.issued + {odbc})
  {
    hide Odbcs, Expired, Recent, Held;
    PrunedKeeps(w, now);
    var r := Pruned(w.pool, now);
    if r.idle != [] {
      var first, rest := r.idle[0], r.idle[1..];
      assert r.idle == [first] + rest;
      OdbcsOf(first, rest);
      assert ClosedOrIdle(r) == ClosedOrIdle(r.(idle := rest)) + multiset{first.odbc};
    }
  }

  lemma UseHolds(w: World, client: Client, now: nat, answer: Answer)
    requires PinsAgree(w) && Enabled(w, Use(client, now, answer))
    ensures var v, odbc := Do(w, Use(client, now, answer)), Used(w.pool, now, answer.odbc).1;
            && Held(v) == Held(w) + {odbc} && Pending(v) == Pending(w) && PinsAgree(v)
            && (Pinned(w.pool).Some? ==> Held(v) == Held(w))
  {
    UsePins(w, client, now, answer);
    assert w.opener != Nobody ==> w.pool.callbackInvoked;
    hide PinsAgree, Pruned;
    ValuesWith(w.holders, client, Used(w.pool, now, answer.odbc).1);
    UsedPins(w.pool, now, answer.odbc);
  }

  /** A use leaves the pins as they are. */
  lemma UsedPins(p: Pool, now: nat, odbc: Odbc)
    ensures var (q, used) := Used(p, now, odbc);
            && q.transacting == p.transacting && q.opening == p.opening
            && (Pinned(p).Some? ==> used == Pinned(p).value)
            && (p.callbackInvoked || (Connects(p, now) && p.hasCallback) ==> q.callbackInvoked)
  {
  }

  lemma UsePins(w: World, client: Client, now: nat, answer: Answer)
    requires PinsAgree(w) && Enabled(w, Use(client, now, answer))
    ensures PinsAgree(Do(w, Use(client, now, answer)))
  {
    hide Odbcs, Recent, Expired;
  }

  lemma UseKeeps(w: World, client: Client, now: nat, answer: Answer)
    requires Inv(w) && Enabled(w, Use(client, now, answer))
    ensures Inv(Do(w, Use(client, now, answer)))
  {
    hide Held, Odbcs, Recent, Expired, Partitioned, Counted, Ordered, PinsAgree, ActiveCounted;
    var v := Do(w, Use(client, now, answer));
    UseHolds(w, client, now, answer);
    TakingKeeps(w, v, now, answer);
  }

  lemma TransactHolds(w: World, now: nat, answer: Answer)
    requires Enabled(w, Transact(now, answer)) && PinsAgree(w)
    ensures var v, odbc := Do(w, Transact(now, answer)), Used(w.pool, now, answer.odbc).1;
            && Held(v) == Held(w) + {odbc} && Pending(v) == Pending(w) && PinsAgree(v)
            && (Pinned(w.pool).Some? ==> Held(v) == Held(w))
  {
    hide Pruned;
    UsedPins(w.pool, now, answer.odbc);
  }

  lemma TransactKeeps(w: World, now: nat, answer: Answer)
    requires Inv(w) && Enabled(w, Transact(now, answer))
    ensures Inv(Do(w, Transact(now, answer)))
  {
    hide Held, Odbcs, Recent, Expired, Partitioned, Counted, Ordered, PinsAgree, ActiveCounted;
    var v := Do(w, Transact(now, answer));
    TransactHolds(w, now, answer);
    TakingKeeps(w, v, now, answer);
  }

  lemma TakingKeeps(w: World, v: World, now: nat, answer: Answer)
    requires Inv(w) && Ticks(w, now) && PlainConnect(w, now, answer)
    requires var q := Used(w.pool, now, answer.odbc).0;
             v.pool.(transacting := q.transacting) == q
    requires PinsAgree(v) && Pending(v) == Pending(w)
    requires var c := Connected(w, now, answer); v.clock == c.clock && v.issued == c.issued
    requires Held(v) == Held(w) + {Used(w.pool, now, answer.odbc).1}
    requires Pinned(w.pool).Some? ==> Held(v) == Held(w)
    ensures Inv(v)
  {
    hide Held, Pending, Odbcs, Recent, Expired, NewestFirst, PinsAgree;
    var odbc := Used(w.pool, now, answer.odbc).1;
    if Pinned(w.pool).None? {
      UsedTakes(w, now, answer);
      HeldGrows(w, v, odbc);
      OneMoreActive(w, v, odbc);
    }
  }

  lemma OneMoreActive(w: World, v: World, odbc: Odbc)
    requires Held(v) == Held(w) + {odbc} && Pending(v) == Pending(w) && odbc !in Held(w)
    ensures |Held(v) - Pending(v)| == |Held(w) - Pending(w)| + 1
  {
    PendingIsHeld(w);
    hide Held, Pending;
    assert Held(v) - Pending(v) == (Held(w) - Pending(w)) + {odbc};
  }

  lemma PendingIsHeld(w: World)
    ensures Pending(w) <= Held(w)
  {
  }

  lemma BeginOpenHolds(w: World, opener: Opener, now: nat, odbc: Odbc)
    requires PinsAgree(w) && Enabled(w, BeginOpen(opener, now, odbc))
    ensures var v := Do(w, BeginOpen(opener, now, odbc));
            && Held(v) == Held(w) + {odbc} && Pending(w) == {} && Pending(v) == {odbc} && PinsAgree(v)
  {
    hide Odbcs, Recent, Expired;
  }

  lemma BeginOpenKeeps(w: World, opener: Opener, now: nat, odbc: Odbc)
    requires Inv(w) && Enabled(w, BeginOpen(opener, now, odbc))
    ensures Inv(Do(w, BeginOpen(opener, now, odbc)))
  {
    hide Held, Pending, ClosedOrIdle, PinsAgree, Partitioned, Counted, Ordered, Pruned;
    var v := Do(w, BeginOpen(opener, now, odbc));
    BeginOpenHolds(w, opener, now, odbc);
    BeginOpenCounts(w, opener, now, odbc);
    HeldGrows(w, v, odbc);
    assert Held(v) - {odbc} == Held(w) - {};
  }

  lemma BeginOpenCounts(w: World, opener: Opener, now: nat, odbc: Odbc)
    requires Partitioned(w) && Counted(w.pool) && Ordered(w) && Enabled(w, BeginOpen(opener, now, odbc))
    ensures var v := Do(w, BeginOpen(opener, now, odbc));
            && Counted(v.pool) && Ordered(v) && ClosedOrIdle(v.pool) == ClosedOrIdle(w.pool)
            && v.pool.activeOdbc == w.pool.activeOdbc
  {
    PrunedKeeps(w, now);
    hide Held, Odbcs, Recent, Expired, NewestFirst;
  }

  lemma EndOpenHolds(w: World)
    requires PinsAgree(w) && Enabled(w, EndOpen)
    ensures var v := Do(w, EndOpen);
            && Pending(w) == {w.carrier.value} <= Held(w) && Pending(v) == {} && PinsAgree(v)
            && (StaysHeld(w, EndOpen) ==> Held(v) == Held(w))
            && (!StaysHeld(w, EndOpen) ==> !(Held(w) <= Held(v)))
            && Held(v) <= Held(w)
  {
    if w.opener.ForClient? { ValuesWith(w.holders, w.opener.client, w.carrier.value); }
  }

  /** The same connections are idle and closed, and no others are held; if one that was held is not, it is nowhere. */
  lemma FewerHeld(w: World, v: World)
    requires Partitioned(w) && v.issued == w.issued && ClosedOrIdle(v.pool) == ClosedOrIdle(w.pool)
    requires Held(v) <= Held(w)
    ensures Partitioned(v) <==> Held(v) == Held(w)
  {
    hide Held, ClosedOrIdle;
    if odbc :| odbc in Held(w) && odbc !in Held(v) {
      assert Everywhere(w)[odbc] == multiset(w.issued)[odbc];
      assert Everywhere(v)[odbc] < Everywhere(w)[odbc];
    }
  }

  lemma EndOpenCounts(w: World)
    requires Counted(w.pool) && Ordered(w) && Enabled(w, EndOpen)
    ensures var v := Do(w, EndOpen);
            && Counted(v.pool) && Ordered(v) && ClosedOrIdle(v.pool) == ClosedOrIdle(w.pool) && v.issued == w.issued
            && v.pool.activeOdbc == w.pool.activeOdbc + 1
  {
    SameLists(w.pool, Do(w, EndOpen).pool);
    hide NewestFirst, ClosedOrIdle;
  }

  lemma SameLists(p: Pool, q: Pool)
    ensures p.idle == q.idle && p.closings == q.closings ==> ClosedOrIdle(p) == ClosedOrIdle(q)
  {
  }

  lemma PendingCounts(w: World, v: World, odbc: Odbc)
    requires ActiveCounted(w) && Held(v) == Held(w) && odbc in Held(w) && Pending(w) == {odbc} && Pending(v) == {}
    requires v.pool.activeOdbc == w.pool.activeOdbc + 1
    ensures ActiveCounted(v)
  {
    hide Held, Pending;
    assert Held(v) - {} == (Held(w) - {odbc}) + {odbc};
  }

  lemma EndOpenKeeps(w: World)
    requires Inv(w) && Enabled(w, EndOpen)
    ensures Inv(Do(w, EndOpen)) <==> StaysHeld(w, EndOpen)
  {
    hide Held, Pending, Partitioned, Counted, Ordered, PinsAgree, ActiveCounted, StaysHeld;
    var v := Do(w, EndOpen);
    EndOpenHolds(w);
    EndOpenCounts(w);
    FewerHeld(w, v);
    if StaysHeld(w, EndOpen) { PendingCounts(w, v, w.carrier.value); }
  }

  lemma ReopenHolds(w: World, user: User)
    requires PinsAgree(w) && Enabled(w, Reopen(user))
    ensures var v := Do(w, Reopen(user));
            && Pending(v) == Pending(w) && PinsAgree(v) && Held(w) <= Held(v)
            && (StaysHeld(w, Reopen(user)) ==> Held(v) == Held(w))
            && (!StaysHeld(w, Reopen(user)) ==> user.ByLibrary? && user.odbc in Held(v) - Held(w))
  {
    ReopenPins(w, user);
    hide PinsAgree;
    if user.ByClient? { assert w.holders[user.client] in w.holders.Values; }
  }

  lemma ReopenPins(w: World, user: User)
    requires PinsAgree(w) && Enabled(w, Reopen(user))
    ensures PinsAgree(Do(w, Reopen(user)))
  {
  }

  /** A connection that is idle or closed comes to be held as well: it is in two places. */
  lemma TwoPlaces(w: World, v: World, odbc: Odbc)
    requires Partitioned(w) && v.issued == w.issued && ClosedOrIdle(v.pool) == ClosedOrIdle(w.pool)
    requires odbc in w.issued && odbc !in Held(w) && odbc in Held(v)
    ensures !Partitioned(v)
  {
    hide Held, ClosedOrIdle;
    assert Everywhere(w)[odbc] == multiset(w.issued)[odbc] == 1;
    assert Everywhere(v)[odbc] == 2;
  }

  lemma ReopenKeeps(w: World, user: User)
    requires Inv(w) && Enabled(w, Reopen(user))
    ensures Inv(Do(w, Reopen(user))) <==> StaysHeld(w, Reopen(user))
  {
    hide Held, Pending, ClosedOrIdle, Partitioned, Counted, NewestFirst, PinsAgree, ActiveCounted, StaysHeld;
    var v := Do(w, Reopen(user));
    ReopenHolds(w, user);
    SameLists(w.pool, v.pool);
    if StaysHeld(w, Reopen(user)) {
      SameClosedOrIdle(w, v);
    } else {
      TwoPlaces(w, v, user.odbc);
    }
  }

  lemma EndReopenHolds(w: World, user: User)
    requires PinsAgree(w) && Enabled(w, EndReopen(user))
    ensures var v := Do(w, EndReopen(user));
            && Pending(v) == Pending(w) && PinsAgree(v) && Held(v) <= Held(w)
            && (StaysHeld(w, EndReopen(user)) <==> Held(v) == Held(w))
  {
  }

  lemma EndReopenKeeps(w: World, user: User)
    requires Inv(w) && Enabled(w, EndReopen(user))
    ensures Inv(Do(w, EndReopen(user))) <==> StaysHeld(w, EndReopen(user))
  {
    hide Held, Pending, Odbcs, NewestFirst, StaysHeld, PinsAgree;
    EndReopenHolds(w, user);
    FewerHeld(w, Do(w, EndReopen(user)));
  }

  lemma ReleasedBag(w: World, u: World, odbc: Odbc)
    requires Partitioned(w) && odbc in Held(w) && u.issued == w.issued
    requires ClosedOrIdle(u.pool) == ClosedOrIdle(w.pool) + multiset{odbc}
    ensures Held(u) == Held(w) - {odbc} ==> Partitioned(u)
    ensures odbc in Held(u) ==> !Partitioned(u)
  {
    hide Held, ClosedOrIdle;
    OneMore(Held(w) - {odbc}, odbc);
    assert Held(w) - {odbc} + {odbc} == Held(w);
    if odbc in Held(u) {
      assert Everywhere(u)[odbc] >= 2;
    }
  }

  /** A release moves the connection from the held ones to the idle or closed ones.  If it stays held it is now in two
      places. */
  lemma ReleaseMoves(w: World, v: World, odbc: Odbc, now: nat)
    requires Partitioned(w) && Counted(w.pool) && Ordered(w) && Ticks(w, now) && odbc in Held(w)
    requires Releases(v.pool, odbc) && v.pool.(transacting := w.pool.transacting) == w.pool
    requires v.issued == w.issued && v.clock == now
    ensures var u := v.(pool := Dropped(v.pool, odbc, now));
            && Counted(u.pool) && Ordered(u) && u.pool.activeOdbc == w.pool.activeOdbc - 1
            && (Held(u) == Held(w) - {odbc} ==> Partitioned(u))
            && (odbc in Held(u) ==> !Partitioned(u))
  {
    ReleaseCounts(w, v, odbc, now);
    PrunedKeeps(w, now);
    hide Odbcs, Expired, Recent, Held, Partitioned, Counted, Ordered;
    var q := Pruned(v.pool, now);
    var p := Dropped(v.pool, odbc, now);
    OdbcsOf(Idle(odbc, now), q.idle);
    assert ClosedOrIdle(q) == ClosedOrIdle(w.pool);
    assert ClosedOrIdle(p) == ClosedOrIdle(q) + multiset{odbc};
    ReleasedBag(w, v.(pool := p), odbc);
  }

  lemma ReleaseCounts(w: World, v: World, odbc: Odbc, now: nat)
    requires Partitioned(w) && Counted(w.pool) && Ordered(w) && Ticks(w, now)
    requires Releases(v.pool, odbc) && v.pool.(transacting := w.pool.transacting) == w.pool && v.clock == now
    ensures var u := v.(pool := Dropped(v.pool, odbc, now));
            Counted(u.pool) && Ordered(u) && u.pool.activeOdbc == w.pool.activeOdbc - 1
  {
    PrunedKeeps(w, now);
    hide Odbcs, Expired, Recent, Held, Partitioned, ClosedOrIdle;
  }

  lemma ReleaseKeeps(w: World, u: World, odbc: Odbc)
    requires ActiveCounted(w) && odbc in Held(w) && odbc !in Pending(w) && Pending(u) == Pending(w)
    requires PinsAgree(u) && Counted(u.pool) && Ordered(u) && u.pool.activeOdbc == w.pool.activeOdbc - 1
    requires Held(u) == Held(w) - {odbc} && Partitioned(u)
    ensures Inv(u)
  {
    hide Held, Pending, Odbcs, Partitioned, Counted, Ordered, PinsAgree;
    assert Held(w) - Pending(w) == Held(u) - Pending(u) + {odbc};
  }

  /** Handing a connection back keeps the invariant exactly when its last holder does it. */
  lemma DropKeeps(w: World, client: Client, now: nat)
    requires Inv(w) && Enabled(w, Drop(client, now))
    ensures Inv(Do(w, Drop(client, now))) <==> LastHolder(w, Drop(client, now))
  {
    hide Held, Pending, Odbcs, Recent, Expired, Partitioned, Counted, Ordered, PinsAgree, ActiveCounted;
    DropHolds(w, client, now);
    var odbc := w.holders[client];
    var u := Do(w, Drop(client, now));
    if Releases(w.pool, odbc) {
      ReleaseMoves(w, w.(holders := w.holders - {client}, clock := now), odbc, now);
      if LastHolder(w, Drop(client, now)) { ReleaseKeeps(w, u, odbc); }
    } else {
      SameClosedOrIdle(w, u);
    }
  }

  lemma SameClosedOrIdle(w: World, u: World)
    requires Inv(w) && u.pool.(transacting := w.pool.transacting, opening := w.pool.opening) == w.pool
    requires u.issued == w.issued && Held(u) == Held(w) && Pending(u) == Pending(w)
    requires w.clock <= u.clock < CLOCK_RANGE && PinsAgree(u)
    ensures Inv(u)
  {
    hide Held, Pending, Odbcs, NewestFirst, PinsAgree;
  }

  lemma DropHolds(w: World, client: Client, now: nat)
    requires PinsAgree(w) && Enabled(w, Drop(client, now))
    ensures var u, odbc := Do(w, Drop(client, now)), w.holders[client];
            && odbc in Held(w) && Pending(u) == Pending(w) && PinsAgree(u)
            && (!Releases(w.pool, odbc) ==> Held(u) == Held(w))
            && (Releases(w.pool, odbc) && LastHolder(w, Drop(client, now)) ==>
                  odbc !in Pending(w) && Held(u) == Held(w) - {odbc})
            && (Releases(w.pool, odbc) && !LastHolder(w, Drop(client, now)) ==> odbc in Held(u))
  {
    hide Odbcs, Recent, Expired;
    DropPins(w, client, now);
    hide PinsAgree;
    ValuesWithout(w.holders, client);
  }

  lemma DropPins(w: World, client: Client, now: nat)
    requires PinsAgree(w) && Enabled(w, Drop(client, now))
    ensures PinsAgree(Do(w, Drop(client, now)))
  {
    hide Odbcs, Recent, Expired;
  }

  lemma EndTransactionKeeps(w: World, now: nat)
    requires Inv(w) && Enabled(w, EndTransaction(now))
    ensures Inv(Do(w, EndTransaction(now))) <==> LastHolder(w, EndTransaction(now))
  {
    hide Held, Pending, Odbcs, Recent, Expired, Partitioned, Counted, Ordered, PinsAgree, ActiveCounted;
    var u := Do(w, EndTransaction(now));
    EndTransactionHolds(w, now);
    if w.pool.transacting.Some? && w.pool.opening != w.pool.transacting {
      var odbc := w.pool.transacting.value;
      ReleaseMoves(w, w.(pool := w.pool.(transacting := None), clock := now), odbc, now);
      if LastHolder(w, EndTransaction(now)) { ReleaseKeeps(w, u, odbc); }
    } else {
      SameClosedOrIdle(w, u);
    }
  }

  lemma EndTransactionHolds(w: World, now: nat)
    requires PinsAgree(w) && Enabled(w, EndTransaction(now))
    ensures var u := Do(w, EndTransaction(now));
            && PinsAgree(u) && Some1(w.pool.transacting) <= Held(w) && Pending(u) == Pending(w)
            && (w.pool.transacting.None? || w.pool.opening == w.pool.transacting ==> Held(u) == Held(w))
            && (w.pool.transacting.Some? && w.pool.opening != w.pool.transacting ==>
                  && (LastHolder(w, EndTransaction(now)) ==>
                        && w.pool.transacting.value !in Pending(w)
                        && Held(u) == Held(w) - {w.pool.transacting.value})
                  && (!LastHolder(w, EndTransaction(now)) ==> w.pool.transacting.value in Held(u)))
  {
    hide Odbcs, Recent, Expired;
  }

  lemma CloseAllHolds(w: World)
    ensures var v := Do(w, CloseAll);
            Held(v) == Held(w) && Pending(v) == Pending(w) && (PinsAgree(w) ==> PinsAgree(v))
  {
  }

  lemma CloseAllKeeps(w: World)
    requires Inv(w)
    ensures Inv(Do(w, CloseAll))
  {
    hide Held, Pending, PinsAgree;
    CloseAllHolds(w);
  }

  lemma LoseHolds(w: World, odbc: Odbc)
    requires Enabled(w, Lose(odbc))
    ensures var v := Do(w, Lose(odbc));
            Held(v) == Held(w) && Pending(v) == Pending(w) && (PinsAgree(w) ==> PinsAgree(v))
  {
  }

  lemma LoseKeeps(w: World, odbc: Odbc)
    requires Inv(w) && Enabled(w, Lose(odbc))
    ensures Inv(Do(w, Lose(odbc)))
  {
    hide Held, Pending, PinsAgree, Partitioned, Counted, ActiveCounted;
    LoseHolds(w, odbc);
    SameClosedOrIdle(w, Do(w, Lose(odbc)));
  }

  /** The exact condition: an event keeps the invariant if and only if whoever hands a connection back is its last
      holder, and what is pinned stays held. */
  lemma StepKeepsExactlyWhen(w: World, e: Event)
    requires Inv(w) && Enabled(w, e)
    ensures Inv(Do(w, e)) <==> Orderly(w, e)
  {
    hide Inv, Do;
    match e {
      case Use(client, now, answer) => UseKeeps(w, client, now, answer);
      case BeginOpen(opener, now, odbc) => BeginOpenKeeps(w, opener, now, odbc);
      case EndOpen => EndOpenKeeps(w);
      case Drop(client, now) => DropKeeps(w, client, now);
      case Transact(now, answer) => TransactKeeps(w, now, answer);
      case EndTransaction(now) => EndTransactionKeeps(w, now);
      case CloseAll => CloseAllKeeps(w);
      case Lose(odbc) => LoseKeeps(w, odbc);
      case Reopen(user) => ReopenKeeps(w, user);
      case EndReopen(user) => EndReopenKeeps(w, user);
    }
  }
}
