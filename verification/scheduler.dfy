/** Deferred and interval tasks over a deadline timer, with completions delivered by an io_service. */
module Scheduler {

  /** Identifies one async_wait. */
  type Wait = nat

  /** How a wait ends. */
  datatype Code = Success | OperationAborted

  datatype Done = Done(wait: Wait, code: Code)

  /**
   * The timer's registered waits, the completions that are queued but not delivered, and the task's
   * interval. `issued` counts the waits; the rest are histories: the times that were passed to the timer,
   * the handlers that ran, and the calls of the bound function.
   */
  datatype Task = Task(live: seq<Wait>, queued: seq<Done>, ms: int, issued: nat, armed: seq<int>, delivered: seq<Done>, bodies: seq<Code>)

  // ---------- the deadline timer ----------

  /** The completions of some waits that end with one code. */
  function Ended(waits: seq<Wait>, code: Code): seq<Done> {
    if waits == [] then [] else [Done(waits[0], code)] + Ended(waits[1..], code)
  }

  /** Cancelling queues every registered wait with operation_aborted. */
  function TimerCancelled(s: Task): Task {
    s.(queued := s.queued + Ended(s.live, OperationAborted), live := [])
  }

  /** `expires_from_now` cancels, then `async_wait` registers a new wait. */
  function Scheduled(s: Task): Task {
    var t := TimerCancelled(s);
    t.(live := [s.issued], issued := s.issued + 1, armed := s.armed + [s.ms])
  }

  /** The deadline passes: the registered waits are queued with success. */
  function Expired(s: Task): Task {
    s.(queued := s.queued + Ended(s.live, Success), live := [])
  }

  // ---------- the tasks ----------

  datatype Kind = Deferred | Interval

  function Cancelled(s: Task): Task {
    TimerCancelled(s)
  }

  /** `timer.cancel() > 0` */
  function CancelResult(s: Task): bool {
    |s.live| > 0
  }

  /** A queued completion is handed to the bound function with its code. */
  function Taken(s: Task, i: nat): Task
    requires i < |s.queued|
  {
    var d := s.queued[i];
    s.(queued := s.queued[..i] + s.queued[i + 1..], delivered := s.delivered + [d], bodies := s.bodies + [d.code])
  }

  /** An interval task re-arms itself before it calls the bound function, unless the wait was aborted. */
  function Delivered(kind: Kind, s: Task, i: nat): Task
    requires i < |s.queued|
  {
    var t := Taken(s, i);
    if kind.Interval? && s.queued[i].code.Success? then Scheduled(t) else t
  }

  /** What other code, or the bound function while it runs, does to a task; and what the io_service does. */
  datatype Event =
    | Start(ms: int)      // DeferredTask::start, IntervalTask::start and both reschedules
    | Cancel
    | Expiry
    | Delivery(i: nat)

  predicate Enabled(s: Task, e: Event) {
    match e
    case Start(_) => true
    case Cancel => true
    case Expiry => s.live != []
    case Delivery(i) => i < |s.queued|
  }

  function Step(kind: Kind, s: Task, e: Event): Task
    requires Enabled(s, e)
  {
    match e
    case Start(ms) => Scheduled(s.(ms := ms))
    case Cancel => Cancelled(s)
    case Expiry => Expired(s)
    case Delivery(i) => Delivered(kind, s, i)
  }

  const CREATED := Task([], [], 0, 0, [], [], [])

  function Run(kind: Kind, s: Task, es: seq<Event>): Task {
    if es == [] then s else
      var t := Run(kind, s, es[..|es| - 1]);
      if Enabled(t, es[|es| - 1]) then Step(kind, t, es[|es| - 1]) else t
  }

  // ---------- every wait is somewhere, once ----------

  function Waits(ds: seq<Done>): multiset<Wait> {
    if ds == [] then multiset{} else Waits(ds[..|ds| - 1]) + multiset{ds[|ds| - 1].wait}
  }

  /** The waits issued so far. */
  function Issued(n: nat): multiset<Wait> {
    if n == 0 then multiset{} else var w: Wait := n - 1; Issued(n - 1) + multiset{w}
  }

  function Codes(ds: seq<Done>): seq<Code> {
    if ds == [] then [] else Codes(ds[..|ds| - 1]) + [ds[|ds| - 1].code]
  }

  ghost predicate Inv(s: Task) {
    && |s.live| <= 1
    && multiset(s.live) + Waits(s.queued) + Waits(s.delivered) == Issued(s.issued)
    && s.bodies == Codes(s.delivered)
  }

  lemma WaitsAppend(ds: seq<Done>, d: Done)
    ensures Waits(ds + [d]) == Waits(ds) + multiset{d.wait}
  {
    assert (ds + [d])[..|ds|] == ds;
  }

  lemma {:induction false} WaitsRemove(ds: seq<Done>, i: nat)
    requires i < |ds|
    ensures Waits(ds) == Waits(ds[..i] + ds[i + 1..]) + multiset{ds[i].wait}
    decreases |ds|
  {
    var n := |ds| - 1;
    if i == n {
      assert ds[..i] + ds[i + 1..] == ds[..n];
    } else {
      WaitsRemove(ds[..n], i);
      assert ds[..i] + ds[i + 1..] == (ds[..n][..i] + ds[..n][i + 1..]) + [ds[n]];
      WaitsAppend(ds[..n][..i] + ds[..n][i + 1..], ds[n]);
    }
  }

  lemma OneLive(live: seq<Wait>, code: Code)
    requires |live| <= 1
    ensures Ended(live, code) == if live == [] then [] else [Done(live[0], code)]
  {
    if live != [] {
      assert live[1..] == [];
    }
  }

  /** Ending the live wait moves it to the queue. */
  lemma EndedWaits(ds: seq<Done>, live: seq<Wait>, code: Code)
    requires |live| <= 1
    ensures Waits(ds + Ended(live, code)) == Waits(ds) + multiset(live)
  {
    OneLive(live, code);
    if live == [] {
      assert ds + Ended(live, code) == ds;
    } else {
      WaitsAppend(ds, Done(live[0], code));
      assert live == [live[0]];
    }
  }

  lemma Moved(a: multiset<Wait>, b: multiset<Wait>, c: multiset<Wait>, m: multiset<Wait>)
    ensures a + (b + m) + c == a + m + b + c
    ensures a + b + (c + m) == a + (b + m) + c
  {
  }

  lemma KeepEnded(s: Task, code: Code)
    requires Inv(s)
    ensures Inv(s.(queued := s.queued + Ended(s.live, code), live := []))
  {
    var ended := s.queued + Ended(s.live, code);
    var none: seq<Wait> := [];
    EndedWaits(s.queued, s.live, code);
    Moved(multiset(none), Waits(s.queued), Waits(s.delivered), multiset(s.live));
    assert multiset(none) + multiset(s.live) == multiset(s.live);
    assert multiset(none) + Waits(ended) + Waits(s.delivered) == Issued(s.issued);
  }

  lemma OneMoreIssued(q: multiset<Wait>, d: multiset<Wait>, n: nat)
    requires multiset{} + q + d == Issued(n)
    ensures var w: Wait := n; multiset([w]) + q + d == Issued(n + 1)
  {
    var w: Wait := n;
    assert multiset([w]) == multiset{w};
    assert multiset([w]) + q + d == (multiset{} + q + d) + multiset{w};
  }

  lemma KeepScheduled(s: Task)
    requires Inv(s)
    ensures Inv(Scheduled(s))
  {
    KeepEnded(s, OperationAborted);
    var t := TimerCancelled(s);
    OneMoreIssued(Waits(t.queued), Waits(t.delivered), t.issued);
  }

  lemma CodesAppend(ds: seq<Done>, d: Done)
    ensures Codes(ds + [d]) == Codes(ds) + [d.code]
  {
    assert (ds + [d])[..|ds|] == ds;
  }

  lemma KeepTaken(s: Task, i: nat)
    requires Inv(s) && i < |s.queued|
    ensures Inv(Taken(s, i))
  {
    var d := s.queued[i];
    var rest := s.queued[..i] + s.queued[i + 1..];
    WaitsRemove(s.queued, i);
    WaitsAppend(s.delivered, d);
    CodesAppend(s.delivered, d);
    Moved(multiset(s.live), Waits(rest), Waits(s.delivered), multiset{d.wait});
    assert multiset(s.live) + Waits(rest) + Waits(s.delivered + [d]) == Issued(s.issued);
  }

  lemma KeepDelivered(kind: Kind, s: Task, i: nat)
    requires Inv(s) && i < |s.queued|
    ensures Inv(Delivered(kind, s, i))
  {
    KeepTaken(s, i);
    if kind.Interval? && s.queued[i].code.Success? { KeepScheduled(Taken(s, i)); }
  }

  lemma KeepStep(kind: Kind, s: Task, e: Event)
    requires Inv(s) && Enabled(s, e)
    ensures Inv(Step(kind, s, e))
  {
    match e
    case Start(ms) => KeepScheduled(s.(ms := ms));
    case Cancel => KeepEnded(s, OperationAborted);
    case Expiry => KeepEnded(s, Success);
    case Delivery(i) => KeepDelivered(kind, s, i);
  }

  /** Over every interleaving: at most one live wait, and every wait issued is live, queued or delivered, once. */
  lemma {:induction false} EveryRunIsSound(kind: Kind, s: Task, es: seq<Event>)
    requires Inv(s)
    ensures Inv(Run(kind, s, es))
    decreases |es|
  {
    if es != [] {
      var t := Run(kind, s, es[..|es| - 1]);
      EveryRunIsSound(kind, s, es[..|es| - 1]);
      if Enabled(t, es[|es| - 1]) { KeepStep(kind, t, es[|es| - 1]); }
    }
  }

  lemma {:induction false} IssuedOnce(n: nat, w: Wait)
    ensures Issued(n)[w] == if w < n then 1 else 0
  {
    if n > 0 {
      IssuedOnce(n - 1, w);
    }
  }

  lemma {:induction false} WaitCounted(ds: seq<Done>, i: nat, j: nat)
    requires i < j < |ds| && ds[i].wait == ds[j].wait
    ensures Waits(ds)[ds[i].wait] >= 2
  {
    WaitsRemove(ds, j);
    var rest := ds[..j] + ds[j + 1..];
    assert rest[i] == ds[i];
    WaitsRemove(rest, i);
  }

  /** So no wait is ever delivered twice, and the bound function ran once per delivery with its code. */
  lemma DeliveredAtMostOnce(kind: Kind, es: seq<Event>, i: nat, j: nat)
    requires i < j < |Run(kind, CREATED, es).delivered|
    ensures var s := Run(kind, CREATED, es);
      s.delivered[i].wait != s.delivered[j].wait && s.bodies == Codes(s.delivered)
  {
    EveryRunIsSound(kind, CREATED, es);
    var s := Run(kind, CREATED, es);
    var w := s.delivered[i].wait;
    IssuedOnce(s.issued, w);
    if w == s.delivered[j].wait { WaitCounted(s.delivered, i, j); }
  }

  /** cancel() returns true exactly when it aborts the live wait. */
  lemma CancelAbortsLive(s: Task)
    requires Inv(s)
    ensures CancelResult(s) <==> s.live != []
    ensures Cancelled(s).live == []
    ensures Cancelled(s).queued == if CancelResult(s) then s.queued + [Done(s.live[0], OperationAborted)] else s.queued
  {
    OneLive(s.live, OperationAborted);
  }

  // ---------- when the bound function can still run ----------

  ghost predicate NoSuccessQueued(s: Task) {
    forall i :: 0 <= i < |s.queued| ==> s.queued[i].code.OperationAborted?
  }

  ghost predicate Quiet(s: Task) {
    s.live == [] && NoSuccessQueued(s)
  }

  predicate NoStart(es: seq<Event>) {
    forall i :: 0 <= i < |es| ==> !es[i].Start?
  }

  function Successes(bodies: seq<Code>): nat {
    if bodies == [] then 0 else Successes(bodies[..|bodies| - 1]) + if bodies[|bodies| - 1].Success? then 1 else 0
  }

  lemma QuietStep(kind: Kind, s: Task, e: Event)
    requires Quiet(s) && Enabled(s, e) && !e.Start?
    ensures Quiet(Step(kind, s, e)) && Successes(Step(kind, s, e).bodies) == Successes(s.bodies)
  {
    if e.Delivery? {
      var t := Step(kind, s, e);
      assert t.bodies[..|s.bodies|] == s.bodies;
    }
  }

  /** With nothing live and no success queued, the body never runs with success again until it is restarted. */
  lemma {:induction false} QuietStaysQuiet(kind: Kind, s: Task, es: seq<Event>)
    requires Quiet(s) && NoStart(es)
    ensures Quiet(Run(kind, s, es)) && Successes(Run(kind, s, es).bodies) == Successes(s.bodies)
    decreases |es|
  {
    if es != [] {
      var t := Run(kind, s, es[..|es| - 1]);
      QuietStaysQuiet(kind, s, es[..|es| - 1]);
      if Enabled(t, es[|es| - 1]) { QuietStep(kind, t, es[|es| - 1]); }
    }
  }

  lemma RunOfOne(kind: Kind, s: Task, e: Event)
    ensures Run(kind, s, [e]) == if Enabled(s, e) then Step(kind, s, e) else s
  {
    assert [e][..0] == [];
  }

  /** An expiry that was queued before the cancel still runs the body with success. */
  lemma {:induction false} QueuedSuccessStillRuns(kind: Kind, s: Task, i: nat)
    requires i < |s.queued| && s.queued[i].code.Success?
    ensures Successes(Run(kind, Cancelled(s), [Delivery(i)]).bodies) == Successes(s.bodies) + 1
  {
    var t := Cancelled(s);
    assert t.queued[i] == s.queued[i];
    RunOfOne(kind, t, Delivery(i));
    assert (s.bodies + [Success])[..|s.bodies|] == s.bodies;
  }

  lemma CancelQuiets(s: Task)
    requires |s.live| <= 1 && NoSuccessQueued(s)
    ensures Quiet(Cancelled(s)) && Cancelled(s).bodies == s.bodies
  {
    OneLive(s.live, OperationAborted);
  }

  /** A cancel stops the task for good exactly when no expiry was already queued. */
  lemma CancelStopsIffNoSuccessQueued(kind: Kind, s: Task)
    requires Inv(s)
    ensures (forall es :: NoStart(es) ==> Successes(Run(kind, Cancelled(s), es).bodies) == Successes(s.bodies)) <==> NoSuccessQueued(s)
  {
    if NoSuccessQueued(s) {
      CancelQuiets(s);
      forall es | NoStart(es) ensures Successes(Run(kind, Cancelled(s), es).bodies) == Successes(s.bodies) {
        QuietStaysQuiet(kind, Cancelled(s), es);
      }
    } else {
      var i :| 0 <= i < |s.queued| && s.queued[i].code.Success?;
      QueuedSuccessStillRuns(kind, s, i);
      assert NoStart([Delivery(i)]);
    }
  }

  // ---------- an interval task keeps going ----------

  /** A live wait, or a queued success, whose delivery will arm the next. */
  ghost predicate WillRun(s: Task) {
    s.live != [] || exists i :: 0 <= i < |s.queued| && s.queued[i].code.Success?
  }

  predicate NoCancel(es: seq<Event>) {
    forall i :: 0 <= i < |es| ==> !es[i].Cancel?
  }

  lemma WillRunStep(s: Task, e: Event)
    requires Inv(s) && WillRun(s) && Enabled(s, e) && !e.Cancel?
    ensures WillRun(Step(Interval, s, e))
  {
    OneLive(s.live, OperationAborted);
    match e
    case Start(_) =>
    case Expiry =>
      OneLive(s.live, Success);
      var t := Expired(s);
      assert t.queued[|s.queued|] == Done(s.live[0], Success);
    case Delivery(i) =>
      var t := Delivered(Interval, s, i);
      if s.queued[i].code.OperationAborted? && s.live == [] {
        var j :| 0 <= j < |s.queued| && s.queued[j].code.Success?;
        assert t.queued[if j < i then j else j - 1] == s.queued[j];
      }
  }

  /** Started and never cancelled, however often it is rescheduled and whatever is queued meanwhile. */
  lemma {:induction false} IntervalKeepsRunning(s: Task, es: seq<Event>)
    requires Inv(s) && WillRun(s) && NoCancel(es)
    ensures Inv(Run(Interval, s, es)) && WillRun(Run(Interval, s, es))
    decreases |es|
  {
    if es != [] {
      var t := Run(Interval, s, es[..|es| - 1]);
      IntervalKeepsRunning(s, es[..|es| - 1]);
      if Enabled(t, es[|es| - 1]) {
        KeepStep(Interval, t, es[|es| - 1]);
        WillRunStep(t, es[|es| - 1]);
      }
    }
  }

  /** From any sound state, starting an interval task keeps it going until somebody cancels it. */
  lemma {:induction false} StartedIntervalGoesOn(s: Task, ms: int, es: seq<Event>)
    requires Inv(s) && NoCancel(es)
    ensures WillRun(Run(Interval, Step(Interval, s, Start(ms)), es))
  {
    KeepStep(Interval, s, Start(ms));
    IntervalKeepsRunning(Step(Interval, s, Start(ms)), es);
  }

  lemma RunOfTwo(kind: Kind, s: Task, es: seq<Event>)
    requires |es| == 2 && Enabled(s, es[0]) && Enabled(Step(kind, s, es[0]), es[1])
    ensures Run(kind, s, es) == Step(kind, Step(kind, s, es[0]), es[1])
  {
    assert es[..1] == [es[0]];
    RunOfOne(kind, s, es[0]);
  }

  lemma SuccessAfterExpiry(s: Task)
    requires |s.live| == 1
    ensures var i := |s.queued|; i < |Expired(s).queued| && Expired(s).queued[i].code.Success?
  {
    OneLive(s.live, Success);
  }

  /** Events of the timer and the io_service alone, after which the body has run with success once more. */
  ghost predicate BringsSuccess(kind: Kind, s: Task, es: seq<Event>) {
    NoStart(es) && NoCancel(es) && Successes(Run(kind, s, es).bodies) == Successes(s.bodies) + 1
  }

  lemma ExpiryBringsSuccess(kind: Kind, s: Task, es: seq<Event>)
    requires kind.Interval? && |s.live| == 1 && |es| == 2 && es[0].Expiry? && es[1] == Delivery(|s.queued|)
    ensures BringsSuccess(kind, s, es)
  {
    SuccessAfterExpiry(s);
    RunOfTwo(kind, s, es);
    SuccessRuns(kind, Expired(s), |s.queued|);
  }

  lemma DeliveryBringsSuccess(kind: Kind, s: Task, i: nat)
    requires kind.Interval? && i < |s.queued| && s.queued[i].code.Success?
    ensures BringsSuccess(kind, s, [Delivery(i)])
  {
    RunOfOne(kind, s, Delivery(i));
    SuccessRuns(kind, s, i);
  }

  /** And a task that keeps going does run. */
  lemma NextSuccess(kind: Kind, s: Task)
    requires kind.Interval? && Inv(s) && WillRun(s)
    ensures exists es :: BringsSuccess(kind, s, es)
  {
    if s.live != [] {
      ExpiryBringsSuccess(kind, s, [Expiry, Delivery(|s.queued|)]);
    } else {
      var i :| 0 <= i < |s.queued| && s.queued[i].code.Success?;
      DeliveryBringsSuccess(kind, s, i);
    }
  }

  lemma SuccessRuns(kind: Kind, s: Task, i: nat)
    requires i < |s.queued| && s.queued[i].code.Success?
    ensures Successes(Delivered(kind, s, i).bodies) == Successes(s.bodies) + 1
  {
    assert (s.bodies + [Success])[..|s.bodies|] == s.bodies;
  }

  // ---------- how often a task waits, and for how long ----------

  function Starts(es: seq<Event>): nat {
    if es == [] then 0 else Starts(es[..|es| - 1]) + if es[|es| - 1].Start? then 1 else 0
  }

  /** The waits that an interval task adds by itself. */
  function Rearmed(kind: Kind, bodies: seq<Code>): nat {
    if kind.Interval? then Successes(bodies) else 0
  }

  lemma IssuedStep(kind: Kind, s: Task, e: Event)
    requires Enabled(s, e)
    ensures var t := Step(kind, s, e);
      t.issued - Rearmed(kind, t.bodies) == s.issued - Rearmed(kind, s.bodies) + if e.Start? then 1 else 0
  {
    if e.Delivery? {
      var d := s.queued[e.i];
      assert (s.bodies + [d.code])[..|s.bodies|] == s.bodies;
    }
  }

  /** A deferred task waits once per start; an interval task once more for every success it was delivered. */
  lemma {:induction false} IssuedExactly(kind: Kind, s: Task, es: seq<Event>)
    requires s == CREATED
    ensures Run(kind, s, es).issued == Starts(es) + Rearmed(kind, Run(kind, s, es).bodies)
    decreases |es|
  {
    if es != [] {
      var t := Run(kind, s, es[..|es| - 1]);
      IssuedExactly(kind, s, es[..|es| - 1]);
      if Enabled(t, es[|es| - 1]) { IssuedStep(kind, t, es[|es| - 1]); }
    }
  }

  lemma {:induction false} WaitsSize(ds: seq<Done>)
    ensures |Waits(ds)| == |ds| && |Codes(ds)| == |ds|
    decreases |ds|
  {
    if ds != [] {
      WaitsSize(ds[..|ds| - 1]);
    }
  }

  lemma {:induction false} IssuedSize(n: nat)
    ensures |Issued(n)| == n
  {
    if n > 0 {
      IssuedSize(n - 1);
    }
  }

  /** As many waits were issued as are live, queued and delivered together. */
  lemma Balance(s: Task)
    requires Inv(s)
    ensures s.issued == |s.live| + |s.queued| + |s.delivered| && |s.bodies| == |s.delivered|
  {
    WaitsSize(s.queued);
    WaitsSize(s.delivered);
    IssuedSize(s.issued);
    assert |multiset(s.live)| == |s.live|;
  }

  lemma {:induction false} SuccessesAtMost(bodies: seq<Code>)
    ensures Successes(bodies) <= |bodies|
    decreases |bodies|
  {
    if bodies != [] {
      SuccessesAtMost(bodies[..|bodies| - 1]);
    }
  }

  /** A deferred task runs with success at most once per start. */
  lemma DeferredRunsAtMostOncePerStart(es: seq<Event>)
    ensures Successes(Run(Deferred, CREATED, es).bodies) <= Starts(es)
  {
    var s := Run(Deferred, CREATED, es);
    EveryRunIsSound(Deferred, CREATED, es);
    IssuedExactly(Deferred, CREATED, es);
    Balance(s);
    SuccessesAtMost(s.bodies);
  }

  ghost predicate OnlySuccess(s: Task, i: nat) {
    && s.live == [] && i < |s.queued| && s.queued[i].code.Success?
    && forall j :: 0 <= j < |s.queued| && j != i ==> s.queued[j].code.OperationAborted?
  }

  lemma QuietAfter(kind: Kind, s: Task, i: nat)
    requires kind.Deferred? && OnlySuccess(s, i)
    ensures Quiet(Delivered(kind, s, i)) && Successes(Delivered(kind, s, i).bodies) == Successes(s.bodies) + 1
  {
    SuccessRuns(kind, s, i);
    var rest := s.queued[..i] + s.queued[i + 1..];
    forall j | 0 <= j < |rest| ensures rest[j].code.OperationAborted? {
      assert rest[j] == s.queued[if j < i then j else j + 1];
    }
  }

  /** Once its one expiry is delivered a deferred task stays quiet until it is started again. */
  lemma DeferredRunsOnce(kind: Kind, s: Task, i: nat, es: seq<Event>)
    requires kind.Deferred? && OnlySuccess(s, i) && NoStart(es)
    ensures Successes(Run(kind, Delivered(kind, s, i), es).bodies) == Successes(s.bodies) + 1
  {
    QuietAfter(kind, s, i);
    QuietStaysQuiet(kind, Delivered(kind, s, i), es);
  }

  lemma ArmedStep(kind: Kind, s: Task, e: Event)
    requires Enabled(s, e) && !e.Start?
    ensures Step(kind, s, e).ms == s.ms
    ensures Step(kind, s, e).armed == s.armed || Step(kind, s, e).armed == s.armed + [s.ms]
  {
  }

  /** From a start or reschedule on, the timer is armed with its interval and no other, until the next. */
  lemma {:induction false} IntervalIsUsed(kind: Kind, s: Task, ms: int, es: seq<Event>)
    requires NoStart(es)
    ensures var t := Run(kind, Step(kind, s, Start(ms)), es);
      t.ms == ms && s.armed + [ms] <= t.armed && forall j :: |s.armed| <= j < |t.armed| ==> t.armed[j] == ms
    decreases |es|
  {
    if es != [] {
      var t := Run(kind, Step(kind, s, Start(ms)), es[..|es| - 1]);
      IntervalIsUsed(kind, s, ms, es[..|es| - 1]);
      if Enabled(t, es[|es| - 1]) { ArmedStep(kind, t, es[|es| - 1]); }
    }
  }

  // ---------- Scheduler::Wrapper ----------

  /** The codes that an asynchronous operation can end with. */
  datatype ErrorCode = NoError | Aborted | Other

  datatype Wrapped = Calls | Ignores | Throws

  /** What the wrapper that the Scheduler puts around a plain function does with a completion's code. */
  function Wrapper(e: ErrorCode): Wrapped {
    if e.NoError? then Calls else if e.Aborted? then Ignores else Throws
  }

  /** How often the function is called until the wrapper first throws, and whether it does. */
  function CallsUntilThrow(es: seq<ErrorCode>): (nat, bool) {
    if es == [] then (0, false) else
      var (n, throws) := CallsUntilThrow(es[1..]);
      match Wrapper(es[0])
      case Calls => (n + 1, throws)
      case Ignores => (n, throws)
      case Throws => (0, true)
  }

  predicate OtherAt(es: seq<ErrorCode>, i: nat) {
    i < |es| && es[i].Other?
  }

  /** It throws exactly when a code is neither success nor aborted, and calls once per success before that. */
  lemma {:induction false} WrapperCalls(es: seq<ErrorCode>, n: nat)
    requires n <= |es| && (forall i :: 0 <= i < n ==> !OtherAt(es, i)) && (n < |es| ==> OtherAt(es, n))
    ensures CallsUntilThrow(es) == (|Of(es[..n], NoError)|, n < |es|)
    decreases n
  {
    if n > 0 {
      assert !OtherAt(es, 0);
      forall i | 0 <= i < n - 1 ensures !OtherAt(es[1..], i) {
        assert !OtherAt(es, i + 1);
      }
      WrapperCalls(es[1..], n - 1);
      assert es[..n][1..] == es[1..][..n - 1];
    }
  }

  /** The codes that equal one given. */
  function Of(es: seq<ErrorCode>, e: ErrorCode): seq<ErrorCode> {
    if es == [] then [] else (if es[0] == e then [e] else []) + Of(es[1..], e)
  }

  // ---------- the task object ----------

  class TimerTask {
    const kind: Kind
    var ms: int
    var live: seq<Wait>     // registered with the timer
    var queued: seq<Done>   // in the io_service
    var issued: nat
    ghost var armed: seq<int>
    ghost var delivered: seq<Done>
    ghost var bodies: seq<Code>

    ghost function State(): Task
      reads this
    {
      Task(live, queued, ms, issued, armed, delivered, bodies)
    }

    constructor (k: Kind)
      ensures kind == k && State() == CREATED
    {
      kind, ms, live, queued, issued := k, 0, [], [], 0;
      armed, delivered, bodies := [], [], [];
    }

    /** boost::asio::deadline_timer::cancel */
    method CancelTimer() returns (n: nat)
      modifies this`live, this`queued
      ensures n == |old(live)| && State() == TimerCancelled(old(State()))
    {
      n := |live|;
      ghost var was := queued;
      for i := 0 to n
        invariant live == old(live) && queued + Ended(live[i..], OperationAborted) == was + Ended(live, OperationAborted)
      {
        assert live[i..] == [live[i]] + live[i + 1..];
        queued := queued + [Done(live[i], OperationAborted)];
      }
      assert Ended(live[n..], OperationAborted) == [];
      live := [];
    }

    method Cancel() returns (cancelled: bool)
      modifies this`live, this`queued
      ensures cancelled == CancelResult(old(State())) && State() == Cancelled(old(State()))
    {
      var n := CancelTimer();
      cancelled := n > 0;
    }

    /** Both arities of schedule(): expires_from_now, then async_wait. */
    method Schedule()
      modifies this`live, this`queued, this`issued, this`armed
      ensures State() == Scheduled(old(State()))
    {
      var n := CancelTimer();
      live := live + [issued];
      issued, armed := issued + 1, armed + [ms];
    }

    /** start and reschedule */
    method Restart(millisec: int)
      modifies this`ms, this`live, this`queued, this`issued, this`armed
      ensures State() == Step(kind, old(State()), Start(millisec))
    {
      ms := millisec;
      Schedule();
    }

    /** One handler runs: for an interval task the lambda that its constructor stores. */
    method Deliver(i: nat) returns (code: Code)
      requires i < |queued|
      modifies this
      ensures State() == Delivered(kind, old(State()), i) && code == old(queued[i]).code
    {
      var d := queued[i];
      queued, delivered := queued[..i] + queued[i + 1..], delivered + [d];
      if kind.Interval? && !d.code.OperationAborted? {
        Schedule();
      }
      code := d.code;
      bodies := bodies + [code];
    }
  }
}
