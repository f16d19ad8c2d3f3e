/**
 * The SQL connection pool: connections are leased to handlers, and handlers run in the middle of
 * the pool's own operations, where they may ask for more connections and drop the ones they hold.
 */
module ConnectionPools {

  type Conn = nat

  /** What a handler does, in order, before it returns. A pointer that it does not drop it keeps. */
  datatype Handler = Handler(id: nat, actions: seq<Action>)
  datatype Action =
    | Request(handler: Handler)   // getConnection
    | DropOwn                     // the pointer it was given goes out of scope
    | DropOf(holder: nat)         // so does one that an earlier handler kept

  datatype Lease = Lease(conn: Conn, holder: nat)

  /** The pool at the moment a user handler is called. */
  datatype Call = Call(handler: Handler, conn: Conn, idle: seq<Conn>, waiting: seq<Handler>, leases: seq<Lease>, inHand: multiset<Conn>)

  /**
   * `inHand` are the connections on their way between the pool and a holder: dropped and not yet
   * back, or taken and not yet handed over. `arrived`, `calls`, `entered` and `left` are histories.
   */
  datatype Pool = Pool(
    idle: seq<Conn>, waiting: seq<Handler>,
    leases: seq<Lease>, inHand: multiset<Conn>,
    arrived: seq<Handler>, calls: seq<Call>, entered: seq<Conn>, left: seq<Conn>)

  // ---------- how much work handlers can still cause ----------

  function Work(h: Handler): (w: nat)
    ensures w > 0
  {
    1 + ActionsWork(h.actions)
  }

  function ActionsWork(actions: seq<Action>): nat {
    if actions == [] then 0 else ActionWork(actions[0]) + ActionsWork(actions[1..])
  }

  function ActionWork(a: Action): (w: nat)
    ensures w > 0
  {
    if a.Request? then 1 + Work(a.handler) else 1
  }

  function QueueWork(waiting: seq<Handler>): nat {
    if waiting == [] then 0 else Work(waiting[0]) + QueueWork(waiting[1..])
  }

  lemma {:induction false} QueueWorkAppend(waiting: seq<Handler>, h: Handler)
    ensures QueueWork(waiting + [h]) == QueueWork(waiting) + Work(h)
  {
    if waiting == [] {
      assert QueueWork([h]) == Work(h) + QueueWork([h][1..]);
    } else {
      QueueWorkAppend(waiting[1..], h);
      assert (waiting + [h])[1..] == waiting[1..] + [h];
    }
  }

  // ---------- the operations, handlers included ----------

  /** The strand's part of getConnection. */
  function Get(s: Pool, h: Handler): (t: Pool)
    ensures QueueWork(t.waiting) <= QueueWork(s.waiting) + Work(h)
    decreases QueueWork(s.waiting) + Work(h), 1
  {
    if s.idle == [] then
      QueueWorkAppend(s.waiting, h);
      s.(arrived := s.arrived + [h], waiting := s.waiting + [h])
    else
      Serve(Taken(s, h), s.idle[0], h)
  }

  /** The request has arrived and the first idle connection is popped for it. */
  function Taken(s: Pool, h: Handler): Pool
    requires s.idle != []
  {
    var c := s.idle[0];
    s.(arrived := s.arrived + [h], idle := s.idle[1..], left := s.left + [c], inHand := s.inHand + multiset{c})
  }

  /** The strand's part of returnToPool. */
  function Return(s: Pool, c: Conn): (t: Pool)
    ensures QueueWork(t.waiting) <= QueueWork(s.waiting)
    decreases QueueWork(s.waiting), 1
  {
    if s.waiting == [] then
      s.(idle := s.idle + [c], entered := s.entered + [c], inHand := s.inHand - multiset{c})
    else
      Serve(s.(waiting := s.waiting[1..]), c, s.waiting[0])
  }

  /** `handler(makeConnectionPtr(conn))` */
  function Serve(s: Pool, c: Conn, h: Handler): (t: Pool)
    ensures QueueWork(t.waiting) < QueueWork(s.waiting) + Work(h)
    decreases QueueWork(s.waiting) + Work(h), 0
  {
    Act(Leased(s, c, h), Lease(c, h.id), h.actions)
  }

  function Leased(s: Pool, c: Conn, h: Handler): Pool {
    var leases, inHand := s.leases + [Lease(c, h.id)], s.inHand - multiset{c};
    s.(leases := leases, inHand := inHand, calls := s.calls + [Call(h, c, s.idle, s.waiting, leases, inHand)])
  }

  /** The handler's actions, one after the other. */
  function Act(s: Pool, own: Lease, actions: seq<Action>): (t: Pool)
    ensures QueueWork(t.waiting) <= QueueWork(s.waiting) + ActionsWork(actions)
    decreases QueueWork(s.waiting) + ActionsWork(actions), 1
  {
    if actions == [] then s else
      Act(ActOnce(s, own, actions[0]), own, actions[1..])
  }

  function ActOnce(s: Pool, own: Lease, a: Action): (t: Pool)
    ensures QueueWork(t.waiting) < QueueWork(s.waiting) + ActionWork(a)
    decreases QueueWork(s.waiting) + ActionWork(a), 0
  {
    match a
    case Request(h) => Get(s, h)
    case DropOwn => Drop(s, FindLease(s.leases, own))
    case DropOf(holder) => Drop(s, FindHolder(s.leases, holder))
  }

  /** A pointer's deleter runs: the connection goes straight back, since this is the strand. */
  function Drop(s: Pool, i: nat): (t: Pool)
    requires i <= |s.leases|
    ensures QueueWork(t.waiting) <= QueueWork(s.waiting)
    decreases QueueWork(s.waiting), 2
  {
    if i == |s.leases| then s else Return(Dropped(s, i), s.leases[i].conn)
  }

  function Dropped(s: Pool, i: nat): Pool
    requires i < |s.leases|
  {
    s.(leases := s.leases[..i] + s.leases[i + 1..], inHand := s.inHand + multiset{s.leases[i].conn})
  }

  function FindLease(leases: seq<Lease>, own: Lease): (i: nat)
    ensures i <= |leases| && (i < |leases| ==> leases[i] == own) && forall j :: 0 <= j < i ==> leases[j] != own
  {
    if leases == [] || leases[0] == own then 0 else 1 + FindLease(leases[1..], own)
  }

  function FindHolder(leases: seq<Lease>, holder: nat): (i: nat)
    ensures i <= |leases| && (i < |leases| ==> leases[i].holder == holder) && forall j :: 0 <= j < i ==> leases[j].holder != holder
  {
    if leases == [] || leases[0].holder == holder then 0 else 1 + FindHolder(leases[1..], holder)
  }

  // ---------- what holds in between ----------

  function Conns(leases: seq<Lease>): multiset<Conn> {
    if leases == [] then multiset{} else Conns(leases[..|leases| - 1]) + multiset{leases[|leases| - 1].conn}
  }

  function Handlers(calls: seq<Call>): seq<Handler> {
    if calls == [] then [] else Handlers(calls[..|calls| - 1]) + [calls[|calls| - 1].handler]
  }

  /** Idle, leased and travelling connections are together exactly the pool's, each of them once. */
  ghost predicate Partition(all: set<Conn>, idle: seq<Conn>, leases: seq<Lease>, inHand: multiset<Conn>) {
    multiset(idle) + Conns(leases) + inHand == multiset(all)
  }

  /** No connection lies idle while a request waits. */
  ghost predicate NoneIdleWhileWaiting(idle: seq<Conn>, waiting: seq<Handler>) {
    idle == [] || waiting == []
  }

  ghost predicate CallSound(all: set<Conn>, k: Call) {
    && Partition(all, k.idle, k.leases, k.inHand)
    && NoneIdleWhileWaiting(k.idle, k.waiting)
    && Lease(k.conn, k.handler.id) in k.leases
  }

  /** `next` is the request being served, taken off the queue or never put on it. */
  ghost predicate InvBut(all: set<Conn>, s: Pool, next: seq<Handler>) {
    && Partition(all, s.idle, s.leases, s.inHand)
    && NoneIdleWhileWaiting(s.idle, s.waiting)
    && s.arrived == Handlers(s.calls) + next + s.waiting
    && s.entered == s.left + s.idle
    && forall i :: 0 <= i < |s.calls| ==> CallSound(all, s.calls[i])
  }

  ghost predicate Inv(all: set<Conn>, s: Pool) {
    InvBut(all, s, [])
  }

  // ---------- every operation keeps it ----------

  lemma ConnsAppend(leases: seq<Lease>, l: Lease)
    ensures Conns(leases + [l]) == Conns(leases) + multiset{l.conn}
  {
    assert (leases + [l])[..|leases|] == leases;
  }

  lemma {:induction false} ConnsRemove(leases: seq<Lease>, i: nat)
    requires i < |leases|
    ensures Conns(leases) == Conns(leases[..i] + leases[i + 1..]) + multiset{leases[i].conn}
    decreases |leases|
  {
    var n := |leases| - 1;
    if i == n {
      assert leases[..i] + leases[i + 1..] == leases[..n];
    } else {
      ConnsRemove(leases[..n], i);
      assert leases[..i] + leases[i + 1..] == (leases[..n][..i] + leases[..n][i + 1..]) + [leases[n]];
      ConnsAppend(leases[..n][..i] + leases[..n][i + 1..], leases[n]);
    }
  }

  lemma {:induction false} KeepGet(all: set<Conn>, s: Pool, h: Handler)
    requires Inv(all, s)
    ensures Inv(all, Get(s, h))
    decreases QueueWork(s.waiting) + Work(h), 1
  {
    if s.idle == [] {
      KeepQueued(all, s, h);
    } else {
      KeepTaken(all, s, h);
      KeepServe(all, Taken(s, h), s.idle[0], h);
    }
  }

  lemma KeepQueued(all: set<Conn>, s: Pool, h: Handler)
    requires Inv(all, s) && s.idle == []
    ensures Inv(all, s.(arrived := s.arrived + [h], waiting := s.waiting + [h]))
  {
    assert s.arrived + [h] == Handlers(s.calls) + [] + (s.waiting + [h]);
  }

  lemma KeepTaken(all: set<Conn>, s: Pool, h: Handler)
    requires Inv(all, s) && s.idle != []
    ensures InvBut(all, Taken(s, h), [h]) && s.idle[0] in Taken(s, h).inHand
  {
    assert s.idle == [s.idle[0]] + s.idle[1..];
    assert s.arrived + [h] == Handlers(s.calls) + [h] + s.waiting;
    assert s.entered == (s.left + [s.idle[0]]) + s.idle[1..];
  }

  lemma {:induction false} KeepReturn(all: set<Conn>, s: Pool, c: Conn)
    requires Inv(all, s) && c in s.inHand
    ensures Inv(all, Return(s, c))
    decreases QueueWork(s.waiting), 1
  {
    if s.waiting == [] {
      assert s.entered + [c] == s.left + (s.idle + [c]);
    } else {
      assert s.waiting == [s.waiting[0]] + s.waiting[1..];
      KeepServe(all, s.(waiting := s.waiting[1..]), c, s.waiting[0]);
    }
  }

  lemma {:induction false} KeepServe(all: set<Conn>, s: Pool, c: Conn, h: Handler)
    requires InvBut(all, s, [h]) && c in s.inHand
    ensures Inv(all, Serve(s, c, h))
    decreases QueueWork(s.waiting) + Work(h), 0
  {
    KeepLeased(all, s, c, h);
    KeepAct(all, Leased(s, c, h), Lease(c, h.id), h.actions);
  }

  lemma HandlersAppend(calls: seq<Call>, k: Call)
    ensures Handlers(calls + [k]) == Handlers(calls) + [k.handler]
  {
    assert (calls + [k])[..|calls|] == calls;
  }

  lemma NewCallSound(all: set<Conn>, s: Pool, c: Conn, h: Handler)
    requires InvBut(all, s, [h]) && c in s.inHand
    ensures var t := Leased(s, c, h); CallSound(all, Call(h, c, t.idle, t.waiting, t.leases, t.inHand))
  {
    LeasedPartition(all, s, c, h);
    var leases := Leased(s, c, h).leases;
    assert leases[|s.leases|] == Lease(c, h.id);
  }

  lemma CallsStaySound(all: set<Conn>, calls: seq<Call>, k: Call)
    requires CallSound(all, k) && forall i :: 0 <= i < |calls| ==> CallSound(all, calls[i])
    ensures forall i :: 0 <= i < |calls + [k]| ==> CallSound(all, (calls + [k])[i])
  {
    forall i | 0 <= i < |calls + [k]| ensures CallSound(all, (calls + [k])[i]) {
      if i < |calls| { assert (calls + [k])[i] == calls[i]; }
    }
  }

  lemma KeepLeased(all: set<Conn>, s: Pool, c: Conn, h: Handler)
    requires InvBut(all, s, [h]) && c in s.inHand
    ensures Inv(all, Leased(s, c, h))
  {
    var t := Leased(s, c, h);
    var k := Call(h, c, t.idle, t.waiting, t.leases, t.inHand);
    LeasedPartition(all, s, c, h);
    NewCallSound(all, s, c, h);
    CallsStaySound(all, s.calls, k);
    HandlersAppend(s.calls, k);
    assert Handlers(s.calls) + [h] + [] + s.waiting == Handlers(s.calls) + [h] + s.waiting;
  }

  lemma LeasedPartition(all: set<Conn>, s: Pool, c: Conn, h: Handler)
    requires Partition(all, s.idle, s.leases, s.inHand) && c in s.inHand
    ensures var t := Leased(s, c, h); Partition(all, t.idle, t.leases, t.inHand)
  {
    ConnsAppend(s.leases, Lease(c, h.id));
    assert s.inHand == s.inHand - multiset{c} + multiset{c};
  }

  lemma {:induction false} KeepAct(all: set<Conn>, s: Pool, own: Lease, actions: seq<Action>)
    requires Inv(all, s)
    ensures Inv(all, Act(s, own, actions))
    decreases QueueWork(s.waiting) + ActionsWork(actions), 1
  {
    if actions != [] {
      KeepActOnce(all, s, own, actions[0]);
      KeepAct(all, ActOnce(s, own, actions[0]), own, actions[1..]);
    }
  }

  lemma {:induction false} KeepActOnce(all: set<Conn>, s: Pool, own: Lease, a: Action)
    requires Inv(all, s)
    ensures Inv(all, ActOnce(s, own, a))
    decreases QueueWork(s.waiting) + ActionWork(a), 0
  {
    match a
    case Request(h) => KeepGet(all, s, h);
    case DropOwn => KeepDrop(all, s, FindLease(s.leases, own));
    case DropOf(holder) => KeepDrop(all, s, FindHolder(s.leases, holder));
  }

  lemma {:induction false} KeepDrop(all: set<Conn>, s: Pool, i: nat)
    requires Inv(all, s) && i <= |s.leases|
    ensures Inv(all, Drop(s, i))
    decreases QueueWork(s.waiting), 2
  {
    if i < |s.leases| {
      KeepDropped(all, s, i);
      KeepReturn(all, Dropped(s, i), s.leases[i].conn);
    }
  }

  lemma KeepDropped(all: set<Conn>, s: Pool, i: nat)
    requires Inv(all, s) && i < |s.leases|
    ensures Inv(all, Dropped(s, i)) && s.leases[i].conn in Dropped(s, i).inHand
  {
    ConnsRemove(s.leases, i);
  }

  // ---------- every run ----------

  /** What reaches the strand from outside it, and what other threads do to the pointers they hold. */
  datatype Event =
    | Arrives(h: Handler)      // a request dispatched to the strand starts
    | LetGo(holder: nat)       // a kept pointer is destroyed elsewhere: its return is posted
    | Arrived(c: Conn)         // a posted return starts

  function Step(s: Pool, e: Event): Pool {
    match e
    case Arrives(h) => Get(s, h)
    case LetGo(holder) =>
      var i := FindHolder(s.leases, holder);
      if i < |s.leases| then Dropped(s, i) else s
    case Arrived(c) => if c in s.inHand then Return(s, c) else s
  }

  function Run(s: Pool, es: seq<Event>): Pool {
    if es == [] then s else Step(Run(s, es[..|es| - 1]), es[|es| - 1])
  }

  function Fresh(n: nat): Pool {
    var idle := seq(n, i => i);
    Pool(idle, [], [], multiset{}, [], [], idle, [])
  }

  function Ids(n: nat): (ids: set<Conn>)
    ensures forall c: Conn :: c in ids <==> c < n
  {
    if n == 0 then {} else Ids(n - 1) + {n - 1}
  }

  lemma {:induction false} IdsOnce(n: nat)
    ensures multiset(seq(n, i => i)) == multiset(Ids(n))
  {
    if n > 0 {
      IdsOnce(n - 1);
      assert seq(n, i => i) == seq(n - 1, i => i) + [n - 1];
      var last: Conn := n - 1;
      assert multiset(Ids(n)) == multiset(Ids(n - 1)) + multiset{last};
    }
  }

  lemma KeepStep(all: set<Conn>, s: Pool, e: Event)
    requires Inv(all, s)
    ensures Inv(all, Step(s, e))
  {
    match e
    case Arrives(h) => KeepGet(all, s, h);
    case LetGo(holder) =>
      var i := FindHolder(s.leases, holder);
      if i < |s.leases| { KeepDropped(all, s, i); }
    case Arrived(c) =>
      if c in s.inHand { KeepReturn(all, s, c); }
  }

  /** In every run, whatever the handlers do, the pool's invariant holds after every step. */
  lemma {:induction false} EveryRunIsSound(n: nat, es: seq<Event>)
    ensures Inv(Ids(n), Run(Fresh(n), es))
    decreases |es|
  {
    var all := Ids(n);
    if es == [] {
      IdsOnce(n);
    } else {
      EveryRunIsSound(n, es[..|es| - 1]);
      KeepStep(all, Run(Fresh(n), es[..|es| - 1]), es[|es| - 1]);
    }
  }

  lemma {:induction false} LeaseCounted(leases: seq<Lease>, i: nat, j: nat)
    requires i < |leases| && j < |leases|
    ensures leases[i].conn in Conns(leases)
    ensures i != j && leases[i].conn == leases[j].conn ==> Conns(leases)[leases[i].conn] >= 2
  {
    ConnsRemove(leases, i);
    if i != j {
      var rest := leases[..i] + leases[i + 1..];
      var k := if j < i then j else j - 1;
      assert rest[k] == leases[j];
      ConnsRemove(rest, k);
    }
  }

  /** So no connection has two holders or is idle while held, now or at any handler call so far. */
  lemma NoConnectionIsShared(n: nat, es: seq<Event>, leases: seq<Lease>, idle: seq<Conn>, inHand: multiset<Conn>, i: nat, j: nat)
    requires var s := Run(Fresh(n), es);
      || (leases == s.leases && idle == s.idle && inHand == s.inHand)
      || exists k :: 0 <= k < |s.calls| && leases == s.calls[k].leases && idle == s.calls[k].idle && inHand == s.calls[k].inHand
    requires i < |leases|
    ensures leases[i].conn !in idle && leases[i].conn !in inHand
    ensures i < j < |leases| ==> leases[i].conn != leases[j].conn
  {
    EveryRunIsSound(n, es);
    assert Partition(Ids(n), idle, leases, inHand);
    var c := leases[i].conn;
    LeaseCounted(leases, i, if j < |leases| then j else i);
    assert multiset(Ids(n))[c] <= 1;
    assert multiset(idle)[c] + Conns(leases)[c] + inHand[c] <= 1;
  }

  // ---------- where requests and connections go ----------

  function Times(hs: seq<Handler>, x: Handler): nat {
    if hs == [] then 0 else Times(hs[..|hs| - 1], x) + if hs[|hs| - 1] == x then 1 else 0
  }

  /** How often the actions request a connection for `x`. */
  function Requests(actions: seq<Action>, x: Handler): nat {
    if actions == [] then 0 else RequestsOf(actions[0], x) + Requests(actions[1..], x)
  }

  function RequestsOf(a: Action, x: Handler): nat {
    if a.Request? && a.handler == x then 1 else 0
  }

  /** And how often all the handlers that were called have done so. */
  function Asked(calls: seq<Call>, x: Handler): nat {
    if calls == [] then 0 else Asked(calls[..|calls| - 1], x) + Requests(calls[|calls| - 1].handler.actions, x)
  }

  /** From `s` to `t` nothing that happened is forgotten, and `x` arrived as often as it was asked for, and `more` times. */
  ghost predicate Accounts(s: Pool, t: Pool, x: Handler, more: int) {
    && s.arrived <= t.arrived && s.calls <= t.calls && s.entered <= t.entered && s.left <= t.left
    && Times(t.arrived, x) + Asked(s.calls, x) == Times(s.arrived, x) + more + Asked(t.calls, x)
  }

  lemma TimesAppend(hs: seq<Handler>, h: Handler, x: Handler)
    ensures Times(hs + [h], x) == Times(hs, x) + if h == x then 1 else 0
  {
    assert (hs + [h])[..|hs|] == hs;
  }

  lemma {:induction false} TimesConcat(hs: seq<Handler>, more: seq<Handler>, x: Handler)
    ensures Times(hs + more, x) == Times(hs, x) + Times(more, x)
    decreases |more|
  {
    if more == [] {
      assert hs + more == hs;
    } else {
      var n := |more| - 1;
      TimesConcat(hs, more[..n], x);
      assert hs + more == (hs + more[..n]) + [more[n]];
      TimesAppend(hs + more[..n], more[n], x);
    }
  }

  lemma CountLeased(s: Pool, c: Conn, h: Handler, x: Handler)
    ensures Accounts(s, Leased(s, c, h), x, -(Requests(h.actions, x) as int))
  {
    assert Leased(s, c, h).calls[..|s.calls|] == s.calls;
  }

  lemma CountTaken(s: Pool, h: Handler, x: Handler)
    requires s.idle != []
    ensures Accounts(s, Taken(s, h), x, if h == x then 1 else 0)
  {
    TimesAppend(s.arrived, h, x);
  }

  lemma {:induction false} CountGet(s: Pool, h: Handler, x: Handler)
    ensures Accounts(s, Get(s, h), x, if h == x then 1 else 0)
    decreases QueueWork(s.waiting) + Work(h), 1
  {
    if s.idle == [] {
      TimesAppend(s.arrived, h, x);
    } else {
      CountTaken(s, h, x);
      CountServe(Taken(s, h), s.idle[0], h, x);
    }
  }

  lemma {:induction false} CountReturn(s: Pool, c: Conn, x: Handler)
    ensures Accounts(s, Return(s, c), x, 0)
    decreases QueueWork(s.waiting), 1
  {
    if s.waiting != [] {
      CountServe(s.(waiting := s.waiting[1..]), c, s.waiting[0], x);
    }
  }

  lemma {:induction false} CountServe(s: Pool, c: Conn, h: Handler, x: Handler)
    ensures Accounts(s, Serve(s, c, h), x, 0)
    ensures Leased(s, c, h).calls <= Serve(s, c, h).calls
    decreases QueueWork(s.waiting) + Work(h), 0
  {
    CountLeased(s, c, h, x);
    CountAct(Leased(s, c, h), Lease(c, h.id), h.actions, x);
  }

  lemma {:induction false} CountAct(s: Pool, own: Lease, actions: seq<Action>, x: Handler)
    ensures Accounts(s, Act(s, own, actions), x, Requests(actions, x))
    decreases QueueWork(s.waiting) + ActionsWork(actions), 1
  {
    if actions != [] {
      CountActOnce(s, own, actions[0], x);
      CountAct(ActOnce(s, own, actions[0]), own, actions[1..], x);
    }
  }

  lemma {:induction false} CountActOnce(s: Pool, own: Lease, a: Action, x: Handler)
    ensures Accounts(s, ActOnce(s, own, a), x, RequestsOf(a, x))
    decreases QueueWork(s.waiting) + ActionWork(a), 0
  {
    match a
    case Request(h) => CountGet(s, h, x);
    case DropOwn => CountDrop(s, FindLease(s.leases, own), x);
    case DropOf(holder) => CountDrop(s, FindHolder(s.leases, holder), x);
  }

  lemma {:induction false} CountDrop(s: Pool, i: nat, x: Handler)
    requires i <= |s.leases|
    ensures Accounts(s, Drop(s, i), x, 0)
    decreases QueueWork(s.waiting), 2
  {
    if i < |s.leases| {
      CountReturn(Dropped(s, i), s.leases[i].conn, x);
    }
  }

  /** The next call after those of `s` gives `c` to `h`. */
  ghost predicate CallsNext(s: Pool, t: Pool, c: Conn, h: Handler) {
    |t.calls| > |s.calls| && t.calls[|s.calls|].handler == h && t.calls[|s.calls|].conn == c
  }

  /** `c` serves the first of the waiting requests, or it goes to the back of the idle connections. */
  ghost predicate HandsOn(s: Pool, t: Pool, c: Conn) {
    if s.waiting == [] then t.idle == s.idle + [c] && t.calls == s.calls && t.leases == s.leases
    else CallsNext(s, t, c, s.waiting[0])
  }

  lemma ServeCalls(s: Pool, c: Conn, h: Handler)
    ensures CallsNext(s, Serve(s, c, h), c, h)
  {
    CountServe(s, c, h, h);
    var k := Leased(s, c, h).calls[|s.calls|];
    assert Serve(s, c, h).calls[|s.calls|] == k;
  }

  /** A request is the next to be called, with the front idle connection, or the last to wait; it always arrives. */
  lemma GetPlaces(s: Pool, h: Handler)
    ensures s.arrived + [h] <= Get(s, h).arrived
    ensures if s.idle == [] then Get(s, h).waiting == s.waiting + [h] && Get(s, h).calls == s.calls
            else CallsNext(s, Get(s, h), s.idle[0], h)
  {
    if s.idle != [] {
      ServeCalls(Taken(s, h), s.idle[0], h);
      CountServe(Taken(s, h), s.idle[0], h, h);
    }
  }

  lemma ReturnHandsOn(s: Pool, c: Conn)
    ensures HandsOn(s, Return(s, c), c)
  {
    if s.waiting != [] {
      ServeCalls(s.(waiting := s.waiting[1..]), c, s.waiting[0]);
    }
  }

  /** A pointer that a handler drops, its own or another holder's, is gone, and its connection is handed on at once. */
  lemma DropHandsOn(s: Pool, own: Lease, a: Action, i: nat)
    requires i == if a.DropOwn? then FindLease(s.leases, own) else if a.DropOf? then FindHolder(s.leases, a.holder) else |s.leases|
    requires i < |s.leases|
    ensures HandsOn(Dropped(s, i), ActOnce(s, own, a), s.leases[i].conn)
    ensures if a.DropOwn? then s.leases[i] == own else s.leases[i].holder == a.holder
  {
    ReturnHandsOn(Dropped(s, i), s.leases[i].conn);
  }

  /** One destroyed elsewhere is gone at once, and its connection is handed on when the return reaches the strand. */
  lemma LetGoHandsOn(s: Pool, holder: nat, i: nat)
    requires i == FindHolder(s.leases, holder) && i < |s.leases|
    ensures var t, c := Step(s, LetGo(holder)), s.leases[i].conn;
      t.leases == s.leases[..i] + s.leases[i + 1..] && t.idle == s.idle && HandsOn(t, Step(t, Arrived(c)), c)
  {
    ReturnHandsOn(Dropped(s, i), s.leases[i].conn);
  }

  /** The requests that reach the strand from outside it, in order. */
  function Arrivals(es: seq<Event>): seq<Handler> {
    if es == [] then [] else
      var e := es[|es| - 1];
      Arrivals(es[..|es| - 1]) + if e.Arrives? then [e.h] else []
  }

  function Once(e: Event, x: Handler): nat {
    if e.Arrives? && e.h == x then 1 else 0
  }

  lemma CountStep(s: Pool, e: Event, x: Handler)
    ensures Accounts(s, Step(s, e), x, Once(e, x))
    ensures e.Arrives? ==> s.arrived + [e.h] <= Step(s, e).arrived
  {
    match e
    case Arrives(h) =>
      CountGet(s, h, x);
      GetPlaces(s, h);
    case LetGo(holder) =>
    case Arrived(c) =>
      if c in s.inHand { CountReturn(s, c, x); }
  }

  lemma OneMoreArrival(es: seq<Event>, x: Handler)
    requires es != []
    ensures Times(Arrivals(es), x) == Times(Arrivals(es[..|es| - 1]), x) + Once(es[|es| - 1], x)
  {
    var before, e := Arrivals(es[..|es| - 1]), es[|es| - 1];
    if e.Arrives? {
      TimesAppend(before, e.h, x);
    } else {
      assert before + [] == before;
    }
  }

  lemma {:induction false} CountRun(n: nat, es: seq<Event>, x: Handler)
    ensures var s := Run(Fresh(n), es); Times(s.arrived, x) == Times(Arrivals(es), x) + Asked(s.calls, x)
    decreases |es|
  {
    if es != [] {
      CountRun(n, es[..|es| - 1], x);
      CountStep(Run(Fresh(n), es[..|es| - 1]), es[|es| - 1], x);
      OneMoreArrival(es, x);
    }
  }

  /** None of the handlers called so far has itself asked for a connection. */
  ghost predicate NobodyAsked(calls: seq<Call>) {
    forall x :: Asked(calls, x) == 0
  }

  lemma {:induction false} AskedBefore(calls: seq<Call>, more: seq<Call>, x: Handler)
    requires calls <= more
    ensures Asked(calls, x) <= Asked(more, x)
    decreases |more|
  {
    if |calls| < |more| {
      AskedBefore(calls, more[..|more| - 1], x);
    } else {
      assert calls == more;
    }
  }

  lemma NoneMore(hs: seq<Handler>, more: seq<Handler>)
    requires hs <= more && forall x :: Times(more, x) == Times(hs, x)
    ensures more == hs
  {
    var rest := more[|hs|..];
    assert more == hs + rest;
    if rest != [] {
      var x := rest[|rest| - 1];
      TimesConcat(hs, rest, x);
    }
  }

  /** Then the requests arrived are those from outside, in their order. */
  lemma {:induction false} ArrivedInOrder(n: nat, es: seq<Event>)
    requires NobodyAsked(Run(Fresh(n), es).calls)
    ensures Run(Fresh(n), es).arrived == Arrivals(es)
    decreases |es|
  {
    if es != [] {
      var before, e := es[..|es| - 1], es[|es| - 1];
      var s, t := Run(Fresh(n), before), Run(Fresh(n), es);
      forall x ensures Asked(s.calls, x) == 0 && Times(t.arrived, x) == Times(Arrivals(es), x) {
        CountStep(s, e, x);
        AskedBefore(s.calls, t.calls, x);
        CountRun(n, es, x);
      }
      ArrivedInOrder(n, before);
      CountStep(s, e, Handler(0, []));
      NoneMore(Arrivals(es), t.arrived);
    }
  }

  /**
   * Every request is served or waits, once: those from outside and those of the handlers that were called. Without
   * the latter they are served in the order of their arrival. Idle connections leave in the order they came.
   */
  lemma BothQueuesAreFair(n: nat, es: seq<Event>, x: Handler)
    ensures var s := Run(Fresh(n), es); s.arrived == Handlers(s.calls) + s.waiting
    ensures var s := Run(Fresh(n), es);
      Times(Handlers(s.calls), x) + Times(s.waiting, x) == Times(Arrivals(es), x) + Asked(s.calls, x)
    ensures var s := Run(Fresh(n), es); NobodyAsked(s.calls) ==> Handlers(s.calls) + s.waiting == Arrivals(es)
    ensures var s := Run(Fresh(n), es); s.entered == s.left + s.idle
  {
    EveryRunIsSound(n, es);
    var s := Run(Fresh(n), es);
    assert Handlers(s.calls) + [] == Handlers(s.calls);
    CountRun(n, es, x);
    TimesConcat(Handlers(s.calls), s.waiting, x);
    if NobodyAsked(s.calls) { ArrivedInOrder(n, es); }
  }

  // ---------- the synchronous drain ----------

  /** Handlers that drop their pointer at once and ask for nothing. */
  predicate AllDropAtOnce(waiting: seq<Handler>) {
    forall i :: 0 <= i < |waiting| ==> waiting[i].actions == [DropOwn]
  }

  lemma ActSingle(s: Pool, own: Lease, a: Action)
    ensures Act(s, own, [a]) == ActOnce(s, own, a)
  {
    assert Act(s, own, [a]) == Act(ActOnce(s, own, a), own, [a][1..]);
  }

  /** The lease just added is the only one of its connection, and dropping it undoes it. */
  lemma DropUndoesLease(all: set<Conn>, s: Pool, c: Conn, h: Handler)
    requires InvBut(all, s, [h]) && c in s.inHand
    ensures var t := Leased(s, c, h);
      FindLease(t.leases, Lease(c, h.id)) == |s.leases| && Dropped(t, |s.leases|) == s.(calls := t.calls)
  {
    var t, own := Leased(s, c, h), Lease(c, h.id);
    var i := FindLease(t.leases, own);
    assert t.leases[|s.leases|] == own;
    KeepLeased(all, s, c, h);
    LeaseCounted(t.leases, i, |s.leases|);
    assert multiset(all)[c] <= 1;
    assert t.leases[..|s.leases|] + t.leases[|s.leases| + 1..] == s.leases;
    assert s.inHand - multiset{c} + multiset{c} == s.inHand;
  }

  /** From `s` to `t`, `c` served every waiting request, once each and in order, and ended up last in the pool. */
  ghost predicate Drained(s: Pool, c: Conn, t: Pool) {
    var n := |s.calls|;
    && t.waiting == [] && t.idle == s.idle + [c] && t.leases == s.leases
    && |t.calls| == n + |s.waiting| && t.calls[..n] == s.calls
    && forall j :: n <= j < |t.calls| ==> t.calls[j].handler == s.waiting[j - n] && t.calls[j].conn == c
  }

  /** When the waiting handlers drop at once, returning one connection serves them all. */
  lemma {:induction false} DrainServesEveryone(all: set<Conn>, s: Pool, c: Conn)
    requires Inv(all, s) && c in s.inHand && AllDropAtOnce(s.waiting)
    ensures Drained(s, c, Return(s, c))
    decreases |s.waiting|
  {
    if s.waiting != [] {
      var h, q := s.waiting[0], s.(waiting := s.waiting[1..]);
      var d := AfterOne(q, c, h);
      OneServed(all, s, c);
      AfterOneKeeps(all, q, c, h);
      DrainServesEveryone(all, d, c);
      DrainedEarlier(s, c, Return(d, c));
    }
  }

  /** The pool once `h` has been served and its connection is on its way back. */
  function AfterOne(q: Pool, c: Conn, h: Handler): Pool {
    q.(calls := Leased(q, c, h).calls)
  }

  lemma AfterOneKeeps(all: set<Conn>, q: Pool, c: Conn, h: Handler)
    requires InvBut(all, q, [h]) && c in q.inHand
    ensures Inv(all, AfterOne(q, c, h))
  {
    KeepLeased(all, q, c, h);
    DropUndoesLease(all, q, c, h);
    KeepDropped(all, Leased(q, c, h), |q.leases|);
  }

  lemma OneServed(all: set<Conn>, s: Pool, c: Conn)
    requires Inv(all, s) && c in s.inHand && s.waiting != [] && s.waiting[0].actions == [DropOwn]
    ensures var h, q := s.waiting[0], s.(waiting := s.waiting[1..]);
      InvBut(all, q, [h]) && Return(s, c) == Return(AfterOne(q, c, h), c)
  {
    var h, q := s.waiting[0], s.(waiting := s.waiting[1..]);
    assert s.waiting == [h] + q.waiting;
    assert s.arrived == Handlers(q.calls) + [h] + q.waiting;
    DropUndoesLease(all, q, c, h);
    ServeDropsAtOnce(q, c, h, AfterOne(q, c, h));
  }

  lemma ServeDropsAtOnce(q: Pool, c: Conn, h: Handler, d: Pool)
    requires h.actions == [DropOwn]
    requires var l := Leased(q, c, h);
      FindLease(l.leases, Lease(c, h.id)) == |q.leases| && d == Dropped(l, |q.leases|)
    ensures Serve(q, c, h) == Return(d, c)
  {
    var l := Leased(q, c, h);
    ActSingle(l, Lease(c, h.id), DropOwn);
  }

  lemma DrainedEarlier(s: Pool, c: Conn, t: Pool)
    requires s.waiting != [] && Drained(AfterOne(s.(waiting := s.waiting[1..]), c, s.waiting[0]), c, t)
    ensures Drained(s, c, t)
  {
    var d, n := AfterOne(s.(waiting := s.waiting[1..]), c, s.waiting[0]), |s.calls|;
    assert |d.calls| == n + 1 && d.calls[..n] == s.calls && d.calls[n].handler == s.waiting[0] && d.calls[n].conn == c;
    assert t.calls[..n] == t.calls[..n + 1][..n] && t.calls[n] == t.calls[..n + 1][n];
    forall j | n <= j < |t.calls| ensures t.calls[j].handler == s.waiting[j - n] && t.calls[j].conn == c {
      if j > n {
        assert t.calls[j].handler == d.waiting[j - (n + 1)];
      }
    }
  }

  // ---------- the pool object ----------

  class ConnectionPool {
    var pool: seq<Conn>
    var requestQueue: seq<Handler>
    var leases: seq<Lease> // the live ConnectionPtr objects, wherever they are
    ghost var inHand: multiset<Conn>
    ghost var arrived: seq<Handler>
    ghost var calls: seq<Call>
    ghost var entered: seq<Conn>
    ghost var left: seq<Conn>

    ghost function State(): Pool
      reads this
    {
      Pool(pool, requestQueue, leases, inHand, arrived, calls, entered, left)
    }

    constructor (connectionNumber: nat)
      ensures State() == Fresh(connectionNumber)
    {
      pool, requestQueue := [], [];
      leases, inHand, arrived, calls, left := [], multiset{}, [], [], [];
      new;
      for i := 0 to connectionNumber
        invariant pool == seq(i, k => k)
        invariant State() == Pool(pool, [], [], multiset{}, [], [], entered, [])
      {
        pool := pool + [i];
      }
      entered := pool;
    }

    method GetConnection(h: Handler)
      modifies this
      ensures State() == Get(old(State()), h)
      decreases QueueWork(requestQueue) + Work(h), 1
    {
      arrived := arrived + [h];
      if |pool| == 0 {
        requestQueue := requestQueue + [h];
      } else {
        var c := pool[0];
        pool := pool[1..];
        left, inHand := left + [c], inHand + multiset{c};
        CallHandler(c, h);
      }
    }

    method ReturnToPool(c: Conn)
      modifies this
      ensures State() == Return(old(State()), c)
      decreases QueueWork(requestQueue), 1
    {
      if |requestQueue| == 0 {
        pool := pool + [c];
        entered, inHand := entered + [c], inHand - multiset{c};
      } else {
        var handler := requestQueue[0];
        requestQueue := requestQueue[1..];
        CallHandler(c, handler);
      }
    }

    /** The user's code, with a fresh pointer to `c`. */
    method CallHandler(c: Conn, h: Handler)
      modifies this
      ensures State() == Serve(old(State()), c, h)
      decreases QueueWork(requestQueue) + Work(h), 0
    {
      leases, inHand := leases + [Lease(c, h.id)], inHand - multiset{c};
      calls := calls + [Call(h, c, pool, requestQueue, leases, inHand)];
      RunActions(Lease(c, h.id), h.actions);
    }

    method RunActions(own: Lease, actions: seq<Action>)
      modifies this
      ensures State() == Act(old(State()), own, actions)
      decreases QueueWork(requestQueue) + ActionsWork(actions), 1
    {
      if |actions| > 0 {
        RunAction(own, actions[0]);
        RunActions(own, actions[1..]);
      }
    }

    method RunAction(own: Lease, a: Action)
      modifies this
      ensures State() == ActOnce(old(State()), own, a)
      decreases QueueWork(requestQueue) + ActionWork(a), 0
    {
      match a
      case Request(h) => GetConnection(h);
      case DropOwn => DeletePointer(FindLease(leases, own));
      case DropOf(holder) => DeletePointer(FindHolder(leases, holder));
    }

    /** OnDeleteReturnToPool, on the strand. */
    method DeletePointer(i: nat)
      requires i <= |leases|
      modifies this
      ensures State() == Drop(old(State()), i)
      decreases QueueWork(requestQueue), 2
    {
      if i < |leases| {
        var c := leases[i].conn;
        leases, inHand := leases[..i] + leases[i + 1..], inHand + multiset{c};
        ReturnToPool(c);
      }
    }
  }
}
