/** Starting the pool: every connection attempts to connect, and one handler hears of the outcome. */
module PoolConnect {
  import opened Bytes
  import opened Collections
  import opened ConnectionPools

  type Error = e: int | e != 0 witness 1

  /** An attempt finishes; completions run one at a time on the strand, in any order. */
  datatype Completion = Completion(conn: Conn, error: Option<Error>)

  /** What the user's handler is called with. */
  datatype Report = Report(error: Option<Error>, started: nat)

  datatype Control = Control(pool: seq<Conn>, firstError: Option<Error>, outstanding: set<Conn>, reports: seq<Report>)

  /** `pool.erase(std::find(pool.begin(), pool.end(), conn))` */
  function Erase(pool: seq<Conn>, c: Conn): seq<Conn>
    requires c in pool
  {
    if pool[0] == c then pool[1..] else [pool[0]] + Erase(pool[1..], c)
  }

  /** An attempt whose connection is still in the pool and whose handler has not run. */
  predicate Expected(s: Control, k: Completion) {
    k.conn in s.outstanding && k.conn in s.pool
  }

  function Completed(s: Control, k: Completion): Control
    requires Expected(s, k)
  {
    var pool := if k.error.Some? then Erase(s.pool, k.conn) else s.pool;
    var first := if k.error.Some? && s.firstError.None? then k.error else s.firstError;
    var outstanding := s.outstanding - {k.conn};
    Control(pool, first, outstanding, if outstanding == {} then s.reports + [Report(first, |pool|)] else s.reports)
  }

  // ---------- what the run should come to ----------

  function Failed(ks: seq<Completion>): set<Conn> {
    if ks == [] then {} else
      var k := ks[|ks| - 1];
      Failed(ks[..|ks| - 1]) + if k.error.Some? then {k.conn} else {}
  }

  function Finished(ks: seq<Completion>): set<Conn> {
    if ks == [] then {} else Finished(ks[..|ks| - 1]) + {ks[|ks| - 1].conn}
  }

  function FirstError(ks: seq<Completion>): Option<Error> {
    if ks == [] then None
    else if ks[0].error.Some? then ks[0].error
    else FirstError(ks[1..])
  }

  /** The pool without the given connections, order kept. */
  function Without(pool: seq<Conn>, gone: set<Conn>): (r: seq<Conn>)
    ensures forall c :: c in r <==> c in pool && c !in gone
  {
    if pool == [] then [] else (if pool[0] in gone then [] else [pool[0]]) + Without(pool[1..], gone)
  }

  predicate Distinct(pool: seq<Conn>) {
    forall i, j :: 0 <= i < j < |pool| ==> pool[i] != pool[j]
  }

  /** Every connection's attempt finishes once, in some order. */
  predicate OneEach(pool: seq<Conn>, ks: seq<Completion>) {
    && (forall i :: 0 <= i < |ks| ==> ks[i].conn in pool)
    && (forall i, j :: 0 <= i < j < |ks| ==> ks[i].conn != ks[j].conn)
  }

  predicate All(pool: seq<Conn>, ks: seq<Completion>) {
    OneEach(pool, ks) && |ks| == |pool|
  }

  lemma {:induction false} FirstErrorLast(ks: seq<Completion>, k: Completion)
    ensures FirstError(ks + [k]) == if FirstError(ks).Some? then FirstError(ks) else k.error
  {
    if ks == [] {
      assert FirstError([k]) == if k.error.Some? then k.error else FirstError([k][1..]);
    } else {
      FirstErrorLast(ks[1..], k);
      assert (ks + [k])[1..] == ks[1..] + [k];
    }
  }

  lemma EraseCons(x: Conn, w: seq<Conn>, c: Conn)
    requires x == c || c in w
    ensures Erase([x] + w, c) == if x == c then w else [x] + Erase(w, c)
  {
    assert ([x] + w)[1..] == w;
  }

  lemma WithoutCons(pool: seq<Conn>, gone: set<Conn>)
    requires pool != []
    ensures Without(pool, gone) == if pool[0] in gone then Without(pool[1..], gone) else [pool[0]] + Without(pool[1..], gone)
  {
  }

  lemma {:induction false} EraseFromRest(pool: seq<Conn>, gone: set<Conn>, c: Conn)
    requires Distinct(pool) && c in pool && c !in gone
    ensures c in Without(pool, gone) && Erase(Without(pool, gone), c) == Without(pool, gone + {c})
    decreases |pool|
  {
    var x, tail := pool[0], pool[1..];
    assert pool == [x] + tail;
    var w := Without(tail, gone);
    WithoutCons(pool, gone);
    WithoutCons(pool, gone + {c});
    if x == c {
      assert c !in tail;
      WithoutAbsent(tail, gone, c);
      EraseCons(x, w, c);
    } else {
      EraseFromRest(tail, gone, c);
      EraseCons(x, w, c);
    }
  }

  lemma {:induction false} WithoutAbsent(pool: seq<Conn>, gone: set<Conn>, c: Conn)
    requires c !in pool
    ensures Without(pool, gone + {c}) == Without(pool, gone)
  {
    if pool != [] {
      WithoutAbsent(pool[1..], gone, c);
    }
  }

  lemma {:induction false} WithoutNone(pool: seq<Conn>, gone: set<Conn>)
    ensures |Without(pool, gone)| <= |pool|
    ensures |Without(pool, gone)| == |pool| <==> forall c :: c in pool ==> c !in gone
  {
    if pool != [] {
      WithoutNone(pool[1..], gone);
      assert pool == [pool[0]] + pool[1..];
      assert forall c :: c in pool <==> c == pool[0] || c in pool[1..];
    }
  }

  lemma {:induction false} NoErrorIffNoneFailed(ks: seq<Completion>)
    ensures FirstError(ks).None? <==> Failed(ks) == {}
    ensures Failed(ks) <= Finished(ks)
    decreases |ks|
  {
    if ks != [] {
      var before, k := ks[..|ks| - 1], ks[|ks| - 1];
      NoErrorIffNoneFailed(before);
      FirstErrorLast(before, k);
      assert before + [k] == ks;
    }
  }

  lemma {:induction false} NotYet(ks: seq<Completion>, c: Conn)
    requires forall i :: 0 <= i < |ks| ==> ks[i].conn != c
    ensures c !in Finished(ks)
    decreases |ks|
  {
    if ks != [] {
      NotYet(ks[..|ks| - 1], c);
    }
  }

  lemma {:induction false} FinishedCount(pool: seq<Conn>, ks: seq<Completion>)
    requires OneEach(pool, ks)
    ensures |Finished(ks)| == |ks| && Finished(ks) <= Elements(pool)
    decreases |ks|
  {
    if ks != [] {
      var before, k := ks[..|ks| - 1], ks[|ks| - 1];
      FinishedCount(pool, before);
      NotYet(before, k.conn);
    }
  }

  function Elements(pool: seq<Conn>): set<Conn> {
    set c | c in pool
  }

  lemma {:induction false} DistinctCount(pool: seq<Conn>)
    requires Distinct(pool)
    ensures |Elements(pool)| == |pool|
  {
    if pool != [] {
      DistinctCount(pool[1..]);
      assert pool == [pool[0]] + pool[1..];
      assert Elements(pool) == {pool[0]} + Elements(pool[1..]);
    }
  }

  lemma AllFinish(pool: seq<Conn>, ks: seq<Completion>)
    requires Distinct(pool) && OneEach(pool, ks)
    ensures Finished(ks) <= Elements(pool)
    ensures Elements(pool) - Finished(ks) == {} <==> |ks| == |pool|
  {
    FinishedCount(pool, ks);
    DistinctCount(pool);
    if |ks| == |pool| {
      SubsetSize(Finished(ks), Elements(pool));
    }
  }

  // ---------- the run ----------

  function Start(pool: seq<Conn>): Control {
    Control(pool, None, Elements(pool), [])
  }

  /** The state after the completions in `ks`; a completion nobody expects would change nothing. */
  function After(pool: seq<Conn>, ks: seq<Completion>): Control {
    if ks == [] then Start(pool) else
      var s := After(pool, ks[..|ks| - 1]);
      if Expected(s, ks[|ks| - 1]) then Completed(s, ks[|ks| - 1]) else s
  }

  /** The state that the completions so far must have led to. */
  ghost predicate Reported(pool: seq<Conn>, ks: seq<Completion>, s: Control) {
    && s.pool == Without(pool, Failed(ks)) && s.firstError == FirstError(ks)
    && s.outstanding == Elements(pool) - Finished(ks)
    && s.reports == if ks != [] && |ks| == |pool| then [Report(FirstError(ks), |s.pool|)] else []
  }

  /** The handler is called once, by the last completion, with the first error and the survivors' number. */
  lemma {:induction false} ConnectReports(pool: seq<Conn>, ks: seq<Completion>)
    requires Distinct(pool) && OneEach(pool, ks)
    ensures Reported(pool, ks, After(pool, ks))
    decreases |ks|
  {
    if ks == [] {
      SameWithout(pool);
    } else {
      var before, k := ks[..|ks| - 1], ks[|ks| - 1];
      ConnectReports(pool, before);
      assert before + [k] == ks;
      OneMore(pool, After(pool, before), before, k);
    }
  }

  lemma OneMore(pool: seq<Conn>, s: Control, before: seq<Completion>, k: Completion)
    requires Distinct(pool) && OneEach(pool, before + [k]) && Reported(pool, before, s)
    ensures Expected(s, k) && Reported(pool, before + [k], Completed(s, k))
  {
    var ks := before + [k];
    LastIsNew(pool, before, k);
    FirstErrorLast(before, k);
    assert Failed(before) + {} == Failed(before);
    if k.error.Some? {
      EraseFromRest(pool, Failed(before), k.conn);
    }
    assert Expected(s, k);
    assert Elements(pool) - Finished(before) - {k.conn} == Elements(pool) - Finished(ks);
    AllFinish(pool, ks);
  }

  lemma LastIsNew(pool: seq<Conn>, before: seq<Completion>, k: Completion)
    requires Distinct(pool) && OneEach(pool, before + [k])
    ensures OneEach(pool, before) && |before| < |pool|
    ensures k.conn !in Finished(before) && k.conn !in Failed(before)
    ensures Failed(before + [k]) == Failed(before) + (if k.error.Some? then {k.conn} else {})
    ensures Finished(before + [k]) == Finished(before) + {k.conn}
  {
    var ks := before + [k];
    assert ks[..|before|] == before && ks[|before|] == k;
    assert forall i :: 0 <= i < |before| ==> before[i] == ks[i];
    NotYet(before, k.conn);
    NoErrorIffNoneFailed(before);
    FinishedCount(pool, ks);
    DistinctCount(pool);
    SubsetSize(Finished(ks), Elements(pool));
  }

  lemma {:induction false} SameWithout(pool: seq<Conn>)
    ensures Without(pool, {}) == pool
  {
    if pool != [] {
      SameWithout(pool[1..]);
    }
  }

  /** For every pool and completion order: no report before the last attempt, one then, and no error iff all are up. */
  lemma ConnectIsReportedOnce(pool: seq<Conn>, ks: seq<Completion>, i: nat)
    requires Distinct(pool) && All(pool, ks) && i < |ks|
    ensures After(pool, ks[..i]).reports == []
    ensures var s := After(pool, ks);
      && s.reports == [Report(FirstError(ks), |s.pool|)]
      && (s.reports[0].error.None? <==> s.reports[0].started == |pool|)
      && forall c :: c in s.pool <==> c in pool && c !in Failed(ks)
  {
    ConnectReports(pool, ks[..i]);
    ConnectReports(pool, ks);
    NoErrorIffNoneFailed(ks);
    WithoutNone(pool, Failed(ks));
    FinishedCount(pool, ks);
    AllFinish(pool, ks);
    assert forall c :: c in Finished(ks) ==> c in Elements(pool);
    assert Failed(ks) == {} <==> forall c :: c in pool ==> c !in Failed(ks);
  }

  /** With no connection at all nothing ever calls the handler, although connect promises a call. */
  lemma EmptyPoolNeverReports(ks: seq<Completion>)
    ensures After([], ks).reports == []
    decreases |ks|
  {
    if ks != [] {
      EmptyPoolNeverReports(ks[..|ks| - 1]);
      EmptyStays(ks[..|ks| - 1]);
    }
  }

  lemma {:induction false} EmptyStays(ks: seq<Completion>)
    ensures After([], ks) == Start([])
    decreases |ks|
  {
    if ks != [] {
      EmptyStays(ks[..|ks| - 1]);
    }
  }

  // ---------- the erasure as it is written ----------

  /**
   * Each attempt keeps a reference to its connection's place in the deque. Erasing anywhere but at an end
   * invalidates all of them (`valid`), and a failure that then searches with its own finds anything (`stale`).
   */
  datatype Refs = Refs(control: Control, valid: bool, stale: bool)

  predicate AtAnEnd(pool: seq<Conn>, c: Conn) {
    pool != [] && (pool[0] == c || pool[|pool| - 1] == c)
  }

  /** What a stale search does to the pool is not known, so nothing is said of it any more. */
  function WithRefs(r: Refs, k: Completion): Refs {
    if r.stale || !Expected(r.control, k) then r
    else if k.error.None? then r.(control := Completed(r.control, k))
    else if !r.valid then r.(stale := true)
    else Refs(Completed(r.control, k), AtAnEnd(r.control.pool, k.conn), false)
  }

  function AfterWithRefs(pool: seq<Conn>, ks: seq<Completion>): Refs {
    if ks == [] then Refs(Start(pool), true, false) else WithRefs(AfterWithRefs(pool, ks[..|ks| - 1]), ks[|ks| - 1])
  }

  predicate FailsAt(ks: seq<Completion>, i: nat) {
    i < |ks| && ks[i].error.Some?
  }

  /** The connection of completion `i` is first or last of those that had not failed before. */
  predicate EndAt(pool: seq<Conn>, ks: seq<Completion>, i: nat)
    requires i < |ks|
  {
    AtAnEnd(Without(pool, Failed(ks[..i])), ks[i].conn)
  }

  /** Every failure happened at an end. */
  ghost predicate AllAtEnds(pool: seq<Conn>, ks: seq<Completion>) {
    forall i: nat :: FailsAt(ks, i) ==> EndAt(pool, ks, i)
  }

  /** Every failure that another follows happened at an end. */
  ghost predicate SureOrder(pool: seq<Conn>, ks: seq<Completion>) {
    forall i: nat, j: nat :: i < j && FailsAt(ks, i) && FailsAt(ks, j) ==> EndAt(pool, ks, i)
  }

  lemma EndBefore(pool: seq<Conn>, ks: seq<Completion>, k: Completion, i: nat)
    requires i < |ks|
    ensures EndAt(pool, ks + [k], i) == EndAt(pool, ks, i) && FailsAt(ks + [k], i) == FailsAt(ks, i)
  {
    assert (ks + [k])[..i] == ks[..i];
  }

  lemma OneMoreAtEnds(pool: seq<Conn>, ks: seq<Completion>, k: Completion)
    ensures AllAtEnds(pool, ks + [k]) <==>
      AllAtEnds(pool, ks) && (k.error.Some? ==> AtAnEnd(Without(pool, Failed(ks)), k.conn))
  {
    var n := |ks|;
    assert (ks + [k])[..n] == ks;
    forall i: nat | i < n ensures EndAt(pool, ks + [k], i) == EndAt(pool, ks, i) && FailsAt(ks + [k], i) == FailsAt(ks, i) {
      EndBefore(pool, ks, k, i);
    }
    if AllAtEnds(pool, ks + [k]) {
      forall i: nat | FailsAt(ks, i) ensures EndAt(pool, ks, i) {
        assert FailsAt(ks + [k], i);
      }
      assert k.error.Some? ==> FailsAt(ks + [k], n);
    }
  }

  lemma OneMoreSure(pool: seq<Conn>, ks: seq<Completion>, k: Completion)
    ensures SureOrder(pool, ks + [k]) <==> SureOrder(pool, ks) && (k.error.Some? ==> AllAtEnds(pool, ks))
  {
    var n := |ks|;
    forall i: nat | i < n ensures EndAt(pool, ks + [k], i) == EndAt(pool, ks, i) && FailsAt(ks + [k], i) == FailsAt(ks, i) {
      EndBefore(pool, ks, k, i);
    }
    if SureOrder(pool, ks + [k]) {
      forall i: nat, j: nat | i < j && FailsAt(ks, i) && FailsAt(ks, j) ensures EndAt(pool, ks, i) {
        assert FailsAt(ks + [k], i) && FailsAt(ks + [k], j);
      }
      if k.error.Some? {
        forall i: nat | FailsAt(ks, i) ensures EndAt(pool, ks, i) {
          assert FailsAt(ks + [k], i) && FailsAt(ks + [k], n);
        }
      }
    }
  }

  /** What the references have come to, and that till then the control object is `s`. */
  ghost predicate RefsAre(r: Refs, pool: seq<Conn>, ks: seq<Completion>, s: Control) {
    && (!r.stale <==> SureOrder(pool, ks))
    && (!r.stale ==> r.control == s && (r.valid <==> AllAtEnds(pool, ks)))
  }

  lemma RefsStep(r: Refs, pool: seq<Conn>, ks: seq<Completion>, s: Control, k: Completion)
    requires RefsAre(r, pool, ks, s) && Expected(s, k) && s.pool == Without(pool, Failed(ks))
    ensures RefsAre(WithRefs(r, k), pool, ks + [k], Completed(s, k))
  {
    OneMoreAtEnds(pool, ks, k);
    OneMoreSure(pool, ks, k);
  }

  lemma AfterOneMore(pool: seq<Conn>, ks: seq<Completion>, k: Completion)
    requires Expected(After(pool, ks), k)
    ensures After(pool, ks + [k]) == Completed(After(pool, ks), k)
    ensures AfterWithRefs(pool, ks + [k]) == WithRefs(AfterWithRefs(pool, ks), k)
  {
    assert (ks + [k])[..|ks|] == ks;
  }

  lemma Unsnoc(ks: seq<Completion>) returns (before: seq<Completion>, k: Completion)
    requires ks != []
    ensures ks == before + [k] && |before| < |ks|
  {
    before, k := ks[..|ks| - 1], ks[|ks| - 1];
  }

  lemma ExpectedNext(pool: seq<Conn>, before: seq<Completion>, k: Completion)
    requires Distinct(pool) && OneEach(pool, before + [k])
    ensures OneEach(pool, before) && Expected(After(pool, before), k)
    ensures After(pool, before).pool == Without(pool, Failed(before))
  {
    LastIsNew(pool, before, k);
    ConnectReports(pool, before);
    OneMore(pool, After(pool, before), before, k);
  }

  /** For every completion order so far: what the references have come to, and that till then the pool is as by identity. */
  lemma {:induction false} StaleExactly(pool: seq<Conn>, ks: seq<Completion>)
    requires Distinct(pool) && OneEach(pool, ks)
    ensures RefsAre(AfterWithRefs(pool, ks), pool, ks, After(pool, ks))
    decreases |ks|
  {
    if ks != [] {
      var before, k := Unsnoc(ks);
      ExpectedNext(pool, before, k);
      StaleExactly(pool, before);
      RefsStep(AfterWithRefs(pool, before), pool, before, After(pool, before), k);
      AfterOneMore(pool, before, k);
    }
  }

  /** As it is written, no search is stale exactly in the orders that keep the references; then connect does what it promises. */
  lemma AsWrittenMeetsIff(pool: seq<Conn>, ks: seq<Completion>)
    requires Distinct(pool) && All(pool, ks) && pool != []
    ensures var r := AfterWithRefs(pool, ks);
      && (!r.stale <==> SureOrder(pool, ks))
      && (!r.stale ==> r.control.pool == Without(pool, Failed(ks)))
      && (!r.stale ==> r.control.reports == [Report(FirstError(ks), |r.control.pool|)])
  {
    StaleExactly(pool, ks);
    ConnectReports(pool, ks);
  }

  /** Three connections, of which the middle one fails first and then another. */
  lemma MiddleFailsFirst(pool: seq<Conn>, ks: seq<Completion>)
    requires |pool| == 3 && Distinct(pool) && OneEach(pool, ks) && |ks| >= 2
    requires ks[0].conn == pool[1] && ks[0].error.Some? && ks[1].error.Some?
    ensures AfterWithRefs(pool, ks).stale
  {
    StaleExactly(pool, ks);
    SameWithout(pool);
    assert FailsAt(ks, 0) && FailsAt(ks, 1) && !EndAt(pool, ks, 0);
  }

  // ---------- the control object ----------

  /** ConnectControl, with the pool that it refers to. */
  class ConnectControl {
    var pool: seq<Conn>
    var firstError: Option<Error>
    var outstanding: set<Conn> // whose handlers still share the control object
    ghost var reports: seq<Report>

    ghost function State(): Control
      reads this
    {
      Control(pool, firstError, outstanding, reports)
    }

    constructor (p: seq<Conn>)
      ensures State() == Start(p)
    {
      pool, firstError, outstanding, reports := p, None, Elements(p), [];
    }

    /** The lambda that connect passes with each attempt. */
    method OnCompletion(k: Completion) returns (called: Option<Report>)
      requires Expected(State(), k)
      modifies this
      ensures State() == Completed(old(State()), k)
      ensures reports == old(reports) + if called.Some? then [called.value] else []
    {
      called := None;
      if k.error.Some? {
        var i := 0;
        while pool[i] != k.conn
          invariant 0 <= i < |pool| && k.conn in pool[i..] && k.conn !in pool[..i]
          decreases |pool| - i
        {
          assert pool[i..] == [pool[i]] + pool[i + 1..];
          i := i + 1;
        }
        EraseAt(pool, k.conn, i);
        pool := pool[..i] + pool[i + 1..];
        if firstError.None? {
          firstError := k.error;
        }
      }
      outstanding := outstanding - {k.conn};
      if outstanding == {} {
        called := Some(Report(firstError, |pool|));
        reports := reports + [called.value];
      }
    }
  }

  lemma {:induction false} EraseAt(pool: seq<Conn>, c: Conn, i: nat)
    requires i < |pool| && pool[i] == c && c !in pool[..i]
    ensures Erase(pool, c) == pool[..i] + pool[i + 1..]
    decreases |pool|
  {
    if i > 0 {
      assert pool[0] in pool[..i] && pool[1..][..i - 1] == pool[1..i];
      EraseAt(pool[1..], c, i - 1);
    }
  }
}
