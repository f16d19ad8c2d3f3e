/**
 * The MySQL service's worker threads: one thread is added with each connection, all of them take operations
 * from one queue, and a thread ends at its next loop test once its connection is gone.
 */
module MysqlService {
  import opened Collections

  /** A connection's id, and the name of the thread that was added with it. */
  type Id = int

  /** Where a worker thread is in its loop: inside `run_one` without or with an operation, or at the loop test. */
  datatype Phase = Waiting | Executing(conn: Id) | Testing

  /**
   * `live` are the connections that exist: their `threadEndFlag` is shared with their thread. `queue`
   * holds the operations posted to the work io_service, each named by its connection; `threads` are the
   * running threads and `pool` the members of the thread group.
   */
  datatype State = State(connIdFactory: Id, live: set<Id>, queue: seq<Id>, threads: map<Id, Phase>, pool: set<Id>, stopped: bool)

  datatype Event =
    | Construct
    | Destroy(conn: Id)
    | Post(conn: Id)      // connect, prepareQuery, runPrepared
    | Take(thread: Id)    // run_one dequeues an operation
    | Complete(thread: Id) // the operation posts its handler
    | Test(thread: Id)    // the operation returned: while(!terminated.unique())
    | Shutdown
    | Leave(thread: Id)   // run_one returns 0: the io_service is stopped

  const CREATED := State(1, {}, [], map[], {}, false)

  ghost predicate Outstanding(s: State, c: Id) {
    c in s.queue || exists t :: t in s.threads && s.threads[t] == Executing(c)
  }

  /** When a step can happen; a connection has one outstanding operation at most and is destroyed without any. */
  ghost predicate Enabled(s: State, e: Event) {
    match e
    case Construct => true
    case Destroy(c) => c in s.live && !Outstanding(s, c)
    case Post(c) => c in s.live && !Outstanding(s, c)
    case Take(t) => !s.stopped && s.queue != [] && t in s.threads && s.threads[t].Waiting?
    case Complete(t) => t in s.threads && s.threads[t].Executing?
    case Test(t) => t in s.threads && s.threads[t].Testing?
    case Shutdown => true
    case Leave(t) => s.stopped && t in s.threads && s.threads[t].Waiting?
  }

  /** A thread ends; it removes itself from the group unless the service is stopped. */
  function Ended(s: State, t: Id): State {
    s.(threads := s.threads - {t}, pool := if s.stopped then s.pool else s.pool - {t})
  }

  ghost function Step(s: State, e: Event): State
    requires Enabled(s, e)
  {
    match e
    case Construct =>
      var c := s.connIdFactory;
      s.(connIdFactory := c + 1, live := s.live + {c}, threads := s.threads[c := Waiting], pool := s.pool + {c})
    case Destroy(c) => s.(live := s.live - {c})
    case Post(c) => s.(queue := s.queue + [c])
    case Take(t) => s.(queue := s.queue[1..], threads := s.threads[t := Executing(s.queue[0])])
    case Complete(t) => s.(threads := s.threads[t := Testing])
    case Test(t) => if t in s.live then s.(threads := s.threads[t := Waiting]) else Ended(s, t)
    case Shutdown => s.(stopped := true)
    case Leave(t) => Ended(s, t)
  }

  ghost function Run(s: State, es: seq<Event>): State {
    if es == [] then s else
      var t := Run(s, es[..|es| - 1]);
      if Enabled(t, es[|es| - 1]) then Step(t, es[|es| - 1]) else t
  }

  // ---------- what every step keeps ----------

  ghost predicate FreshIds(s: State) {
    forall c :: c in s.live || c in s.threads || c in s.pool ==> c < s.connIdFactory
  }

  ghost predicate QueueSound(s: State) {
    && (forall i, j :: 0 <= i < j < |s.queue| ==> s.queue[i] != s.queue[j])
    && (forall i :: 0 <= i < |s.queue| ==> s.queue[i] in s.live)
  }

  ghost predicate WorkSound(s: State) {
    && (forall t :: t in s.threads && s.threads[t].Executing? ==> s.threads[t].conn in s.live && s.threads[t].conn !in s.queue)
    && (forall t, u :: t in s.threads && u in s.threads && s.threads[t].Executing? && s.threads[u] == s.threads[t] ==> t == u)
  }

  ghost predicate PoolSound(s: State) {
    && s.threads.Keys <= s.pool
    && (!s.stopped ==> s.live <= s.threads.Keys && s.pool == s.threads.Keys)
  }

  ghost predicate Inv(s: State) {
    FreshIds(s) && QueueSound(s) && WorkSound(s) && PoolSound(s)
  }

  lemma KeepQueue(s: State, e: Event)
    requires Inv(s) && Enabled(s, e)
    ensures QueueSound(Step(s, e))
  {
  }

  lemma KeepWork(s: State, e: Event)
    requires Inv(s) && Enabled(s, e)
    ensures WorkSound(Step(s, e))
  {
  }

  lemma KeepPool(s: State, e: Event)
    requires Inv(s) && Enabled(s, e)
    ensures FreshIds(Step(s, e)) && PoolSound(Step(s, e))
  {
  }

  /** Every connection has its own thread, whatever was constructed, destroyed, posted and executed. */
  lemma {:induction false} EveryRunIsSound(s: State, es: seq<Event>)
    requires Inv(s)
    ensures Inv(Run(s, es))
    decreases |es|
  {
    if es != [] {
      var t := Run(s, es[..|es| - 1]);
      var e := es[|es| - 1];
      EveryRunIsSound(s, es[..|es| - 1]);
      if Enabled(t, e) {
        KeepQueue(t, e);
        KeepWork(t, e);
        KeepPool(t, e);
      }
    }
  }

  // ---------- threads and connections ----------

  /** The threads whose connection is gone. */
  function Orphans(s: State): set<Id> {
    s.threads.Keys - s.live
  }

  /** Until shutdown there are as many threads as connections and orphans together. */
  lemma {:induction false} ThreadsCoverConnections(es: seq<Event>)
    requires !Run(CREATED, es).stopped
    ensures var s := Run(CREATED, es);
      |s.threads| == |s.live| + |Orphans(s)| && (|s.threads| == |s.live| <==> Orphans(s) == {})
  {
    EveryRunIsSound(CREATED, es);
    var s := Run(CREATED, es);
    assert s.threads.Keys == s.live + Orphans(s);
  }

  /** Event `i` of the run could happen when its turn came. */
  ghost predicate TookEffect(es: seq<Event>, i: nat) {
    i < |es| && Enabled(Run(CREATED, es[..i]), es[i])
  }

  /** Event `i` destroyed connection `c`. */
  ghost predicate Destroyed(es: seq<Event>, i: nat, c: Id) {
    TookEffect(es, i) && es[i] == Destroy(c)
  }

  /** After event `i` the thread of `c` came to its loop test. */
  ghost predicate TestedAfter(es: seq<Event>, i: nat, c: Id) {
    exists j: nat :: j > i && TookEffect(es, j) && es[j] == Test(c)
  }

  /** Connection `c` was destroyed and its thread has not come to its loop test since. */
  ghost predicate Unended(es: seq<Event>, c: Id) {
    exists i: nat :: Destroyed(es, i, c) && !TestedAfter(es, i, c)
  }

  lemma PrefixEffect(es: seq<Event>, n: nat, i: nat)
    requires i < n <= |es|
    ensures TookEffect(es[..n], i) == TookEffect(es, i) && es[..n][i] == es[i]
  {
    assert es[..n][..i] == es[..i];
  }

  lemma PrefixTested(es: seq<Event>, i: nat, c: Id)
    requires es != []
    ensures var n := |es| - 1;
      TestedAfter(es, i, c) <==> TestedAfter(es[..n], i, c) || (i < n && TookEffect(es, n) && es[n] == Test(c))
  {
    var n := |es| - 1;
    if TestedAfter(es, i, c) {
      var j: nat :| j > i && TookEffect(es, j) && es[j] == Test(c);
      if j < n { PrefixEffect(es, n, j); }
    }
    if TestedAfter(es[..n], i, c) {
      var j: nat :| j > i && TookEffect(es[..n], j) && es[..n][j] == Test(c);
      PrefixEffect(es, n, j);
    }
  }

  lemma UnendedStep(es: seq<Event>, c: Id)
    requires es != []
    ensures var n := |es| - 1; var happens := TookEffect(es, n);
      Unended(es, c) <==> (happens && es[n] == Destroy(c)) || (Unended(es[..n], c) && !(happens && es[n] == Test(c)))
  {
    var n := |es| - 1;
    if Unended(es, c) {
      var i: nat :| Destroyed(es, i, c) && !TestedAfter(es, i, c);
      PrefixTested(es, i, c);
      if i < n {
        PrefixEffect(es, n, i);
        assert Destroyed(es[..n], i, c);
      }
    }
    if Unended(es[..n], c) && !(TookEffect(es, n) && es[n] == Test(c)) {
      var i: nat :| Destroyed(es[..n], i, c) && !TestedAfter(es[..n], i, c);
      PrefixTested(es, i, c);
      PrefixEffect(es, n, i);
      assert Destroyed(es, i, c);
    }
    if TookEffect(es, n) && es[n] == Destroy(c) {
      PrefixTested(es, n, c);
      NothingAfter(es[..n], n, c);
      assert Destroyed(es, n, c);
    }
  }

  lemma NothingAfter(es: seq<Event>, i: nat, c: Id)
    requires |es| <= i
    ensures !TestedAfter(es, i, c)
  {
  }

  /** The threads that outlive their connection are those whose destruction no loop test has followed. */
  lemma {:induction false} OrphansAreUnended(es: seq<Event>, c: Id)
    requires !Run(CREATED, es).stopped
    ensures c in Orphans(Run(CREATED, es)) <==> Unended(es, c)
    decreases |es|
  {
    if es != [] {
      var n := |es| - 1;
      var s := Run(CREATED, es[..n]);
      EveryRunIsSound(CREATED, es[..n]);
      OrphansAreUnended(es[..n], c);
      UnendedStep(es, c);
      if Enabled(s, es[n]) {
        OrphanStep(s, es[n], c);
      }
    }
  }

  lemma OrphanStep(s: State, e: Event, c: Id)
    requires Inv(s) && !s.stopped && Enabled(s, e)
    ensures c in Orphans(Step(s, e)) <==> e == Destroy(c) || (c in Orphans(s) && e != Test(c))
  {
  }

  /**
   * Until shutdown there are as many threads as connections exactly when, since every destruction, the
   * destroyed connection's thread has come to its loop test.
   */
  lemma {:induction false} EqualNumbersIff(es: seq<Event>)
    requires !Run(CREATED, es).stopped
    ensures var s := Run(CREATED, es);
      |s.threads| == |s.live| <==> forall i: nat, c :: Destroyed(es, i, c) ==> TestedAfter(es, i, c)
  {
    var s := Run(CREATED, es);
    ThreadsCoverConnections(es);
    if Orphans(s) == {} {
      forall i: nat, c | Destroyed(es, i, c) ensures TestedAfter(es, i, c) {
        OrphansAreUnended(es, c);
      }
    } else {
      var c := Member(Orphans(s));
      OrphansAreUnended(es, c);
    }
  }

  /** The class comment promises equal numbers at all times: destroying an idle connection breaks that. */
  lemma {:induction false} NotAlwaysEqual()
    ensures var s := Run(CREATED, [Construct, Destroy(1)]);
      s.live == {} && s.threads.Keys == {1}
  {
    var es := [Construct, Destroy(1)];
    assert es[..1] == [Construct] && [Construct][..0] == [];
    assert Run(CREATED, []) == CREATED;
    assert Run(CREATED, [Construct]) == Step(CREATED, Construct);
  }

  predicate NoTakeBy(es: seq<Event>, t: Id) {
    forall i :: 0 <= i < |es| ==> es[i] != Take(t)
  }

  /** An orphan that waits for work stays, as long as it gets none. */
  lemma {:induction false} OrphanWaits(s: State, t: Id, es: seq<Event>)
    requires Inv(s) && t in Orphans(s) && s.threads[t].Waiting?
    requires NoTakeBy(es, t) && !Run(s, es).stopped
    ensures t in Orphans(Run(s, es)) && Run(s, es).threads[t].Waiting?
    decreases |es|
  {
    if es != [] {
      var u := Run(s, es[..|es| - 1]);
      var e := es[|es| - 1];
      if Enabled(u, e) { assert Step(u, e).stopped == u.stopped || e.Shutdown?; }
      OrphanWaits(s, t, es[..|es| - 1]);
      EveryRunIsSound(s, es[..|es| - 1]);
    }
  }

  /** Once it has taken an operation it never waits for another: it ends at its next loop test. */
  lemma {:induction false} OrphanTakesNoMore(s: State, t: Id, es: seq<Event>)
    requires Inv(s) && t < s.connIdFactory && t !in s.live && (t in s.threads ==> !s.threads[t].Waiting?)
    ensures var u := Run(s, es); t < u.connIdFactory && t !in u.live && (t in u.threads ==> !u.threads[t].Waiting?)
    decreases |es|
  {
    if es != [] {
      OrphanTakesNoMore(s, t, es[..|es| - 1]);
    }
  }

  // ---------- no operation waits behind another connection's ----------

  /** The threads of existing connections that are not executing: they wait, or will after their loop test. */
  function Available(s: State): set<Id> {
    set t | t in s.threads && t in s.live && !s.threads[t].Executing?
  }

  function Busy(s: State): set<Id> {
    set t | t in s.threads && t in s.live && s.threads[t].Executing?
  }

  lemma {:induction false} DistinctQueue(queue: seq<Id>)
    requires forall i, j :: 0 <= i < j < |queue| ==> queue[i] != queue[j]
    ensures |set c | c in queue| == |queue|
    decreases |queue|
  {
    var n := |queue| - 1;
    if n >= 0 {
      DistinctQueue(queue[..n]);
      assert (set c | c in queue) == (set c | c in queue[..n]) + {queue[n]};
    }
  }

  /** Distinct threads execute operations of distinct connections. */
  lemma {:induction false} BusyAtMost(s: State, busy: set<Id>, conns: set<Id>)
    requires WorkSound(s)
    requires forall t :: t in busy ==> t in s.threads && s.threads[t].Executing? && s.threads[t].conn in conns
    ensures |busy| <= |conns|
    decreases |busy|
  {
    if |busy| > 0 {
      var t := Member(busy);
      BusyAtMost(s, busy - {t}, conns - {s.threads[t].conn});
    }
  }

  lemma LiveThreads(s: State)
    requires PoolSound(s) && !s.stopped
    ensures |s.live| == |Available(s)| + |Busy(s)|
  {
    forall t ensures t in s.live <==> t in Available(s) + Busy(s) {
    }
    Parts(s.live, Available(s), Busy(s));
  }

  function Queued(s: State): set<Id> {
    set c | c in s.queue
  }

  lemma QueuedConnections(s: State)
    requires QueueSound(s)
    ensures |s.live| == |s.queue| + |s.live - Queued(s)|
  {
    DistinctQueue(s.queue);
    Parts(s.live, Queued(s), s.live - Queued(s));
  }

  lemma BusyLeavesQueue(s: State)
    requires QueueSound(s) && WorkSound(s)
    ensures |Busy(s)| + |s.queue| <= |s.live|
  {
    QueuedConnections(s);
    BusyAtMost(s, Busy(s), s.live - Queued(s));
  }

  /** The pigeonhole: a queued operation always has a thread that no other operation holds. */
  lemma {:induction false} AvailableCoverQueue(s: State)
    requires Inv(s) && !s.stopped
    ensures |Available(s)| >= |s.queue|
  {
    LiveThreads(s);
    BusyLeavesQueue(s);
  }

  function Waiters(s: State): set<Id> {
    set t | t in s.threads && s.threads[t].Waiting?
  }

  /** Hence, when no thread is between its operation and its loop test, idle threads are at least queued operations. */
  lemma {:induction false} IdleCoverQueue(es: seq<Event>)
    requires var s := Run(CREATED, es); !s.stopped && forall t :: t in s.threads ==> !s.threads[t].Testing?
    ensures var s := Run(CREATED, es); |Waiters(s)| >= |s.queue|
  {
    EveryRunIsSound(CREATED, es);
    var s := Run(CREATED, es);
    AvailableCoverQueue(s);
    forall t | t in Available(s) ensures t in Waiters(s) {
      assert !s.threads[t].Testing?;
    }
    SubsetSize(Available(s), Waiters(s));
  }

  /** Steps of the threads that end no operation. */
  predicate StartsOnly(es: seq<Event>) {
    forall i :: 0 <= i < |es| ==> es[i].Take? || es[i].Test?
  }

  lemma RunSnoc(s: State, es: seq<Event>, e: Event)
    ensures Run(s, es + [e]) == var t := Run(s, es); if Enabled(t, e) then Step(t, e) else t
  {
    assert (es + [e])[..|es|] == es;
  }

  /** One queued operation starts while everything that executes goes on. */
  lemma FrontStarts(s: State, t: Id) returns (es: seq<Event>)
    requires Inv(s) && !s.stopped && s.queue != [] && t in Available(s)
    ensures StartsOnly(es) && Run(s, es).queue == s.queue[1..] && !Run(s, es).stopped
  {
    es := [];
    if s.threads[t].Testing? {
      RunSnoc(s, es, Test(t));
      es := es + [Test(t)];
    }
    RunSnoc(s, es, Take(t));
    es := es + [Take(t)];
  }

  lemma {:induction false} RunSplits(s: State, es: seq<Event>, fs: seq<Event>)
    ensures Run(s, es + fs) == Run(Run(s, es), fs)
    decreases |fs|
  {
    if fs == [] {
      assert es + fs == es;
    } else {
      var n := |fs| - 1;
      RunSplits(s, es, fs[..n]);
      assert es + fs == (es + fs[..n]) + [fs[n]];
      RunSnoc(s, es + fs[..n], fs[n]);
    }
  }

  /** From every sound state all queued operations can start although none that executes ever completes. */
  lemma {:induction false} NoneWaitsBehindAnother(s: State) returns (es: seq<Event>)
    requires Inv(s) && !s.stopped
    ensures StartsOnly(es) && Run(s, es).queue == []
    decreases |s.queue|
  {
    if s.queue == [] {
      es := [];
    } else {
      AvailableCoverQueue(s);
      var t := Member(Available(s));
      var first := FrontStarts(s, t);
      EveryRunIsSound(s, first);
      var rest := NoneWaitsBehindAnother(Run(s, first));
      RunSplits(s, first, rest);
      es := first + rest;
    }
  }

  // ---------- no operation is lost ----------

  /** The operations posted in a run, each named by its connection. */
  ghost function Posted(s: State, es: seq<Event>): seq<Id> {
    if es == [] then [] else
      var u, e := Run(s, es[..|es| - 1]), es[|es| - 1];
      Posted(s, es[..|es| - 1]) + if e.Post? && Enabled(u, e) then [e.conn] else []
  }

  /** The operations that threads took in a run: what each of them then executes. */
  ghost function Started(s: State, es: seq<Event>): seq<Id> {
    if es == [] then [] else
      var u, e := Run(s, es[..|es| - 1]), es[|es| - 1];
      Started(s, es[..|es| - 1]) + if e.Take? && Enabled(u, e) then Executed(Step(u, e), e.thread) else []
  }

  function Executed(s: State, t: Id): seq<Id> {
    if t in s.threads && s.threads[t].Executing? then [s.threads[t].conn] else []
  }

  lemma Regroup(q: seq<Id>, p: seq<Id>, s: seq<Id>, r: seq<Id>, x: seq<Id>)
    requires q + p == s + r
    ensures q + (p + x) == s + (r + x)
  {
    assert q + (p + x) == (q + p) + x;
    assert s + (r + x) == (s + r) + x;
  }

  lemma OneTaken(s: State, t: Id)
    requires Enabled(s, Take(t))
    ensures s.queue == Executed(Step(s, Take(t)), t) + Step(s, Take(t)).queue
  {
  }

  /** In every run the operations that were started and those still queued are the posted ones, once each and in order. */
  lemma {:induction false} OperationsInOrder(s: State, es: seq<Event>)
    ensures s.queue + Posted(s, es) == Started(s, es) + Run(s, es).queue
    decreases |es|
  {
    if es == [] {
      assert s.queue + [] == [] + s.queue;
    } else {
      var u, e := Run(s, es[..|es| - 1]), es[|es| - 1];
      OperationsInOrder(s, es[..|es| - 1]);
      var posted, started := Posted(s, es[..|es| - 1]), Started(s, es[..|es| - 1]);
      assert posted + [] == posted && started + [] == started;
      if Enabled(u, e) {
        match e
        case Post(c) => Regroup(s.queue, posted, started, u.queue, [c]);
        case Take(t) =>
          OneTaken(u, t);
          assert started + u.queue == started + Executed(Step(u, e), t) + Step(u, e).queue;
        case _ =>
      }
    }
  }

  /** How often an event happened in a run from the creation of the service. */
  ghost function Happened(es: seq<Event>, e: Event): nat {
    if es == [] then 0 else
      var n := |es| - 1;
      Happened(es[..n], e) + if es[n] == e && Enabled(Run(CREATED, es[..n]), e) then 1 else 0
  }

  function In(s: State, t: Id, testing: bool): nat {
    if t in s.threads && (if testing then s.threads[t].Testing? else s.threads[t].Executing?) then 1 else 0
  }

  lemma CycleStep(s: State, e: Event, t: Id)
    requires Inv(s) && Enabled(s, e)
    ensures var u := Step(s, e);
      && In(u, t, false) == In(s, t, false) + (if e == Take(t) then 1 else 0) - (if e == Complete(t) then 1 else 0)
      && In(u, t, true) == In(s, t, true) + (if e == Complete(t) then 1 else 0) - (if e == Test(t) then 1 else 0)
  {
  }

  /** The worker's do-while loop in every run: no thread comes to its loop test but after an operation that it took and completed. */
  lemma {:induction false} ThreadsCycle(es: seq<Event>, t: Id)
    ensures var s := Run(CREATED, es);
      && Happened(es, Take(t)) == Happened(es, Complete(t)) + In(s, t, false)
      && Happened(es, Complete(t)) == Happened(es, Test(t)) + In(s, t, true)
    decreases |es|
  {
    if es != [] {
      var s, e := Run(CREATED, es[..|es| - 1]), es[|es| - 1];
      ThreadsCycle(es[..|es| - 1], t);
      EveryRunIsSound(CREATED, es[..|es| - 1]);
      if Enabled(s, e) { CycleStep(s, e, t); }
    }
  }

  lemma {:induction false} NothingStartsWhenStopped(s: State, es: seq<Event>)
    requires s.stopped
    ensures Run(s, es).stopped && Started(s, es) == []
    decreases |es|
  {
    if es != [] {
      NothingStartsWhenStopped(s, es[..|es| - 1]);
    }
  }

  /** After shutdown no operation starts any more, and every thread that waits can leave, without leaving the group. */
  lemma ShutdownIsFinal(s: State, es: seq<Event>, t: Id)
    ensures var u := Run(Step(s, Shutdown), es);
      && Started(Step(s, Shutdown), es) == []
      && (t in u.threads && u.threads[t].Waiting? ==>
           Enabled(u, Leave(t)) && t !in Step(u, Leave(t)).threads && Step(u, Leave(t)).pool == u.pool)
  {
    NothingStartsWhenStopped(Step(s, Shutdown), es);
  }

  // ---------- the service object ----------

  class Service {
    var connIdFactory: Id
    var live: set<Id>
    var queue: seq<Id>
    var threads: map<Id, Phase>
    var pool: set<Id>
    var stopped: bool

    function Now(): State
      reads this
    {
      State(connIdFactory, live, queue, threads, pool, stopped)
    }

    constructor ()
      ensures Now() == CREATED && Inv(Now())
    {
      connIdFactory, live, queue, threads, pool, stopped := 1, {}, [], map[], {}, false;
    }

    method Construct() returns (id: Id)
      requires Inv(Now())
      modifies this
      ensures id == old(connIdFactory) && id !in old(live) && id !in old(threads)
      ensures Now() == Step(old(Now()), Event.Construct) && Inv(Now())
    {
      KeepAll(Now(), Event.Construct);
      id := connIdFactory;
      connIdFactory := connIdFactory + 1;
      live := live + {id};
      threads := threads[id := Waiting];
      pool := pool + {id};
    }

    method Destroy(conn: Id)
      requires Inv(Now()) && Enabled(Now(), Event.Destroy(conn))
      modifies this`live
      ensures Now() == Step(old(Now()), Event.Destroy(conn)) && Inv(Now())
    {
      KeepAll(Now(), Event.Destroy(conn));
      live := live - {conn};
    }

    method Post(conn: Id)
      requires Inv(Now()) && Enabled(Now(), Event.Post(conn))
      modifies this`queue
      ensures Now() == Step(old(Now()), Event.Post(conn)) && Inv(Now())
    {
      KeepAll(Now(), Event.Post(conn));
      queue := queue + [conn];
    }

    method ShutdownService()
      requires Inv(Now())
      modifies this`stopped
      ensures Now() == Step(old(Now()), Shutdown) && Inv(Now())
    {
      KeepAll(Now(), Shutdown);
      stopped := true;
    }

    /** `run_one` up to the call of the operation; none means that it returns 0 and the loop breaks. */
    method RunOne(thread: Id) returns (taken: bool)
      requires Inv(Now()) && thread in threads && threads[thread].Waiting? && (stopped || queue != [])
      modifies this`queue, this`threads, this`pool
      ensures taken == !old(stopped)
      ensures Now() == Step(old(Now()), if taken then Take(thread) else Leave(thread)) && Inv(Now())
    {
      if stopped {
        KeepAll(Now(), Leave(thread));
        EndThread(thread);
        taken := false;
      } else {
        KeepAll(Now(), Take(thread));
        threads := threads[thread := Executing(queue[0])];
        queue := queue[1..];
        taken := true;
      }
    }

    method PostHandler(thread: Id)
      requires Inv(Now()) && Enabled(Now(), Complete(thread))
      modifies this`threads
      ensures Now() == Step(old(Now()), Complete(thread)) && Inv(Now())
    {
      KeepAll(Now(), Complete(thread));
      threads := threads[thread := Testing];
    }

    /** The loop condition, and the end of the thread when its connection is gone. */
    method TestLoop(thread: Id) returns (again: bool)
      requires Inv(Now()) && Enabled(Now(), Test(thread))
      modifies this`threads, this`pool
      ensures again == (thread in live) && Now() == Step(old(Now()), Test(thread)) && Inv(Now())
    {
      KeepAll(Now(), Test(thread));
      again := thread in live;
      if again {
        threads := threads[thread := Waiting];
      } else {
        EndThread(thread);
      }
    }

    method EndThread(thread: Id)
      modifies this`threads, this`pool
      ensures Now() == Ended(old(Now()), thread)
    {
      if !stopped {
        pool := pool - {thread};
      }
      threads := threads - {thread};
    }
  }

  lemma KeepAll(s: State, e: Event)
    requires Inv(s) && Enabled(s, e)
    ensures Inv(Step(s, e))
  {
    KeepQueue(s, e);
    KeepWork(s, e);
    KeepPool(s, e);
  }
}
