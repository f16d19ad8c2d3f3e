/**
 * A client connection: a queue with a single writer, and a loop that reads a header, then a body,
 * then dispatches. Completions of asynchronous operations are steps of the environment.
 */
module Connections {
  import opened Bytes
  import opened Collections
  import opened InMessages

  type Msg = nat

  /** What follows a write that succeeds. */
  datatype Then = KeepSending | StopAfter

  datatype Write = Write(msg: Msg, after: Then)

  /** A read of the header, or of the body announced by a header; `first` selects the protocol's handler. */
  datatype Read = HeaderRead(first: bool) | BodyRead(first: bool, header: seq<byte>)

  datatype Dispatch = Dispatch(frame: seq<byte>, first: bool)

  /** `pendingReads` and `pendingWrites` are the operations the socket has not completed; the last six fields are histories. */
  datatype Link = Link(
    queue: seq<Msg>, readClosed: bool, writeClosed: bool, started: bool, open: bool,
    pendingWrites: seq<Write>, pendingReads: seq<Read>,
    accepted: seq<Msg>, encoded: seq<Msg>, written: seq<Msg>,
    consumed: seq<byte>, dispatched: seq<Dispatch>, lost: nat)

  const NEW := Link([], false, false, false, true, [], [], [], [], [], [], [], 0)

  // ---------- closing ----------

  function Stopped(s: Link): Link {
    s.(readClosed := true, writeClosed := true, open := false)
  }

  function Aborted(s: Link): Link {
    Stopped(s.(lost := s.lost + 1))
  }

  // ---------- sending ----------

  /** `encodes` says whether encode() of the front message returns or throws. */
  function DoSend(s: Link, after: Then, encodes: bool): Link
    requires s.queue != []
  {
    var t := s.(encoded := s.encoded + [s.queue[0]]);
    if encodes then t.(pendingWrites := t.pendingWrites + [Write(s.queue[0], after)]) else Aborted(t)
  }

  function TrySend(s: Link, m: Msg, after: Then, encodes: bool): Link {
    if s.writeClosed then s else
      var t := s.(queue := s.queue + [m], accepted := s.accepted + [m]);
      if s.queue == [] then DoSend(t, after, encodes) else t
  }

  /** How an asynchronous operation completes; the socket cancels its operations only when it is closed. */
  datatype Result = Success | Cancelled | Failure

  predicate Possible(s: Link, r: Result) {
    r.Cancelled? ==> !s.open
  }

  function WriteDone(s: Link, i: nat, r: Result, encodes: bool): Link
    requires i < |s.pendingWrites|
    requires s.queue != []
  {
    var w := s.pendingWrites[i];
    var t := s.(pendingWrites := s.pendingWrites[..i] + s.pendingWrites[i + 1..]);
    match r
    case Cancelled => t
    case Failure => Aborted(t)
    case Success =>
      var u := t.(queue := t.queue[1..], written := t.written + [w.msg]);
      if w.after.StopAfter? then Stopped(u)
      else if u.queue != [] then DoSend(u, KeepSending, encodes)
      else u
  }

  // ---------- receiving ----------

  /** The body length that a header announces, if a message can have it. */
  function BodyLength(header: seq<byte>): Option<nat>
    requires |header| == HEADER_SIZE
  {
    var n := Number(header);
    if 8 <= n <= MAX_BODY_SIZE - HEADER_SIZE then Some(n) else None
  }

  /** It is what parseHeaderAndGetBodyBuffer finds in a fresh message holding that header. */
  lemma HeaderParsedLength(c: Cursor)
    requires c.Standard() && c.pos == 0 && c.size == HEADER_SIZE
    ensures var n := BodyLength(c.bytes[..HEADER_SIZE]);
      && (n.Some? <==> HeaderParsed(c).Done?)
      && (n.Some? ==> HeaderParsed(c).value == c.(pos := HEADER_SIZE, size := HEADER_SIZE + n.value))
  {
    assert c.bytes[0..2] == c.bytes[..HEADER_SIZE];
  }

  function Wanted(r: Read): nat
    requires r.BodyRead? ==> |r.header| == HEADER_SIZE && BodyLength(r.header).Some?
  {
    if r.HeaderRead? then HEADER_SIZE else BodyLength(r.header).value
  }

  predicate WellFormedRead(r: Read) {
    r.BodyRead? ==> |r.header| == HEADER_SIZE && BodyLength(r.header).Some?
  }

  /** What a protocol handler does to the connection while it runs. */
  datatype Act = Sends(m: Msg, after: Then, encodes: bool) | Stops | StopsReceiving | StopsSending

  function Do(s: Link, a: Act): Link {
    match a
    case Sends(m, after, encodes) => TrySend(s, m, after, encodes)
    case Stops => Stopped(s)
    case StopsReceiving => s.(readClosed := true)
    case StopsSending => s.(writeClosed := true)
  }

  function DoAll(s: Link, acts: seq<Act>): Link {
    if acts == [] then s else Do(DoAll(s, acts[..|acts| - 1]), acts[|acts| - 1])
  }

  function AskForHeader(s: Link, first: bool): Link {
    s.(pendingReads := s.pendingReads + [HeaderRead(first)])
  }

  /** The handler runs, and the loop goes on unless the handler threw or the connection was closed. */
  function Dispatched(s: Link, r: Read, data: seq<byte>, acts: seq<Act>, throws: bool): Link
    requires r.BodyRead?
  {
    var t := DoAll(s.(dispatched := s.dispatched + [Dispatch(r.header + data, r.first)]), acts);
    if throws then Aborted(t) else if t.readClosed then t else AskForHeader(t, false)
  }

  function ReadDone(s: Link, i: nat, r: Result, data: seq<byte>, acts: seq<Act>, throws: bool): Link
    requires i < |s.pendingReads| && WellFormedRead(s.pendingReads[i])
  {
    var read := s.pendingReads[i];
    var t := s.(pendingReads := s.pendingReads[..i] + s.pendingReads[i + 1..]);
    match r
    case Cancelled => t
    case Failure => Aborted(t)
    case Success =>
      var u := t.(consumed := t.consumed + data);
      if u.readClosed then u
      else if read.BodyRead? then Dispatched(u, read, data, acts, throws)
      else if |data| == HEADER_SIZE && BodyLength(data).Some? then u.(pendingReads := u.pendingReads + [BodyRead(read.first, data)])
      else Aborted(u)
  }

  // ---------- runs ----------

  datatype Event =
    | Starts
    | Outside(act: Act)                                       // a call from other code
    | Timeout                                                 // one of the two timers expires
    | WriteCompletes(i: nat, result: Result, encodes: bool)
    | ReadCompletes(i: nat, result: Result, data: seq<byte>, acts: seq<Act>, throws: bool)

  predicate Enabled(s: Link, e: Event) {
    match e
    case Starts => !s.started
    case Outside(_) => true
    case Timeout => true
    case WriteCompletes(i, r, _) => i < |s.pendingWrites| && s.queue != [] && Possible(s, r)
    case ReadCompletes(i, r, data, _, _) =>
      && i < |s.pendingReads| && WellFormedRead(s.pendingReads[i]) && Possible(s, r)
      && (r.Success? ==> |data| == Wanted(s.pendingReads[i]))
  }

  function Step(s: Link, e: Event): Link
    requires Enabled(s, e)
  {
    match e
    case Starts => AskForHeader(s.(started := true), true)
    case Outside(a) => Do(s, a)
    case Timeout => Aborted(s)
    case WriteCompletes(i, r, encodes) => WriteDone(s, i, r, encodes)
    case ReadCompletes(i, r, data, acts, throws) => ReadDone(s, i, r, data, acts, throws)
  }

  /** Events that cannot happen are passed over. */
  function Run(s: Link, es: seq<Event>): Link {
    if es == [] then s else
      var t := Run(s, es[..|es| - 1]);
      if Enabled(t, es[|es| - 1]) then Step(t, es[|es| - 1]) else t
  }

  // ---------- the send path ----------

  /** At most one write, of the queue's front; nothing accepted is lost, reordered or encoded twice. */
  ghost predicate SendInv(s: Link) {
    && |s.pendingWrites| <= 1
    && (s.pendingWrites != [] ==> s.queue != [] && s.pendingWrites[0].msg == s.queue[0])
    && s.written + s.queue == s.accepted
    && s.encoded <= s.accepted
    && |s.written| <= |s.encoded| <= |s.written| + 1
    && (s.pendingWrites != [] ==> |s.encoded| == |s.written| + 1)
    && (!s.writeClosed ==> (s.queue != [] <==> s.pendingWrites != []) && (s.pendingWrites == [] ==> |s.encoded| == |s.written|))
    && (!s.open ==> s.writeClosed && s.readClosed)
  }

  lemma KeepDoSend(s: Link, after: Then, encodes: bool)
    requires s.queue != [] && s.pendingWrites == [] && s.written + s.queue == s.accepted
    requires s.encoded == s.written && (!s.open ==> s.writeClosed && s.readClosed)
    ensures SendInv(DoSend(s, after, encodes))
  {
    var e := s.encoded + [s.queue[0]];
    assert s.accepted[..|s.written|] == s.written && s.accepted[|s.written|] == s.queue[0];
    assert e <= s.accepted;
  }

  lemma EncodedIsWritten(s: Link)
    requires SendInv(s) && |s.encoded| == |s.written|
    ensures s.encoded == s.written
  {
    assert s.accepted[..|s.written|] == s.written;
    assert s.encoded == s.accepted[..|s.encoded|];
  }

  lemma KeepTrySend(s: Link, m: Msg, after: Then, encodes: bool)
    requires SendInv(s)
    ensures SendInv(TrySend(s, m, after, encodes))
  {
    if !s.writeClosed {
      var t := s.(queue := s.queue + [m], accepted := s.accepted + [m]);
      assert t.written + t.queue == (s.written + s.queue) + [m];
      if s.queue == [] {
        EncodedIsWritten(s);
        KeepDoSend(t, after, encodes);
      }
    }
  }

  lemma KeepDo(s: Link, a: Act)
    requires SendInv(s)
    ensures SendInv(Do(s, a))
  {
    if a.Sends? {
      KeepTrySend(s, a.m, a.after, a.encodes);
    }
  }

  lemma {:induction false} KeepDoAll(s: Link, acts: seq<Act>)
    requires SendInv(s)
    ensures SendInv(DoAll(s, acts))
    decreases |acts|
  {
    if acts != [] {
      KeepDoAll(s, acts[..|acts| - 1]);
      KeepDo(DoAll(s, acts[..|acts| - 1]), acts[|acts| - 1]);
    }
  }

  lemma KeepWriteDone(s: Link, i: nat, r: Result, encodes: bool)
    requires SendInv(s) && i < |s.pendingWrites| && s.queue != [] && Possible(s, r)
    ensures SendInv(WriteDone(s, i, r, encodes))
  {
    assert s.pendingWrites[..i] + s.pendingWrites[i + 1..] == [];
    if r.Success? {
      KeepWritten(s, encodes);
    }
  }

  lemma KeepWritten(s: Link, encodes: bool)
    requires SendInv(s) && s.pendingWrites != []
    ensures SendInv(WriteDone(s, 0, Success, encodes))
  {
    var w := s.pendingWrites[0];
    var u := s.(pendingWrites := [], queue := s.queue[1..], written := s.written + [w.msg]);
    assert s.pendingWrites[..0] + s.pendingWrites[1..] == [];
    FrontWritten(s, u);
    if !w.after.StopAfter? && u.queue != [] {
      KeepDoSend(u, KeepSending, encodes);
    }
  }

  lemma FrontWritten(s: Link, u: Link)
    requires SendInv(s) && s.pendingWrites != []
    requires u == s.(pendingWrites := [], queue := s.queue[1..], written := s.written + [s.pendingWrites[0].msg])
    ensures u.written + u.queue == u.accepted && u.encoded == u.written
  {
    assert s.queue == [s.queue[0]] + u.queue;
    assert s.encoded == s.accepted[..|u.written|] == u.written;
  }

  lemma KeepReadDone(s: Link, i: nat, r: Result, data: seq<byte>, acts: seq<Act>, throws: bool)
    requires SendInv(s) && i < |s.pendingReads| && WellFormedRead(s.pendingReads[i])
    ensures SendInv(ReadDone(s, i, r, data, acts, throws))
  {
    var u := s.(pendingReads := s.pendingReads[..i] + s.pendingReads[i + 1..], consumed := s.consumed + data);
    var read := s.pendingReads[i];
    if r.Success? && read.BodyRead? && !s.readClosed {
      KeepDoAll(u.(dispatched := u.dispatched + [Dispatch(read.header + data, read.first)]), acts);
    }
  }

  lemma KeepStep(s: Link, e: Event)
    requires SendInv(s) && Enabled(s, e)
    ensures SendInv(Step(s, e))
  {
    match e
    case Starts =>
    case Outside(a) => KeepDo(s, a);
    case Timeout =>
    case WriteCompletes(i, r, encodes) => KeepWriteDone(s, i, r, encodes);
    case ReadCompletes(i, r, data, acts, throws) => KeepReadDone(s, i, r, data, acts, throws);
  }

  /** Over every interleaving of calls, completions, timeouts and handlers. */
  lemma {:induction false} SendPathIsSound(s: Link, es: seq<Event>)
    requires SendInv(s)
    ensures SendInv(Run(s, es))
    decreases |es|
  {
    if es != [] {
      var t := Run(s, es[..|es| - 1]);
      SendPathIsSound(s, es[..|es| - 1]);
      if Enabled(t, es[|es| - 1]) { KeepStep(t, es[|es| - 1]); }
    }
  }

  /** So from the first event on: written and queued messages are the accepted ones in order, none encoded twice. */
  lemma {:induction false} MessagesGoOutOnceInOrder(es: seq<Event>)
    ensures var s := Run(NEW, es);
      && s.written + s.queue == s.accepted
      && (s.encoded == s.accepted[..|s.written|] || (|s.written| < |s.accepted| && s.encoded == s.accepted[..|s.written| + 1]))
      && |s.pendingWrites| <= 1 && (s.pendingWrites != [] ==> s.queue != [] && s.pendingWrites[0].msg == s.queue[0])
      && (!s.writeClosed && s.queue != [] ==> s.pendingWrites != [])
  {
    SendPathIsSound(NEW, es);
    var s := Run(NEW, es);
    assert s.encoded == s.accepted[..|s.encoded|];
  }

  // ---------- sendAndStop ----------

  /** Right after the call: the continuation is kept on an empty queue, and anything else makes it a plain send. */
  lemma SendAndStopKept(s: Link, m: Msg)
    requires SendInv(s) && !s.writeClosed
    ensures var t := TrySend(s, m, StopAfter, true);
      t.pendingWrites == if s.queue == [] then [Write(m, StopAfter)] else s.pendingWrites
    ensures s.queue != [] ==> TrySend(s, m, StopAfter, true) == TrySend(s, m, KeepSending, true)
  {
  }

  /** Behind another message it is a plain send: here both are written and the connection stays up. */
  lemma SendAndStopForgotten()
    ensures var es := [Outside(Sends(1, KeepSending, true)), Outside(Sends(2, StopAfter, true)),
                       WriteCompletes(0, Success, true), WriteCompletes(0, Success, true)];
      var s := Run(NEW, es);
      s.written == [1, 2] && !s.writeClosed && !s.readClosed && s.open
  {
    var e1, e2 := Outside(Sends(1, KeepSending, true)), Outside(Sends(2, StopAfter, true));
    var e3 := WriteCompletes(0, Success, true);
    assert [e1, e2, e3, e3][..3] == [e1, e2, e3] && [e1, e2, e3][..2] == [e1, e2] && [e1, e2][..1] == [e1] && [e1][..0] == [];
    assert Run(NEW, []) == NEW;
    var s1 := Run(NEW, [e1]);
    assert s1 == Step(NEW, e1) && s1.pendingWrites == [Write(1, KeepSending)];
    var s2 := Run(NEW, [e1, e2]);
    assert s2 == Step(s1, e2) && s2.queue == [1, 2];
    var s3 := Run(NEW, [e1, e2, e3]);
    assert s3 == Step(s2, e3) && s3.pendingWrites == [Write(2, KeepSending)];
    var s4 := Run(NEW, [e1, e2, e3, e3]);
    assert s4 == Step(s3, e3);
  }

  /** Either the stopping write is still going, or it is over and nothing can follow it. */
  ghost predicate LastWrite(s: Link, m: Msg, before: seq<Msg>) {
    || (s.pendingWrites == [Write(m, StopAfter)] && s.written == before)
    || (s.pendingWrites == [] && s.writeClosed && s.written == before)
    || (s.pendingWrites == [] && !s.open && s.written == before + [m])
  }

  lemma LastWriteDo(s: Link, a: Act, m: Msg, before: seq<Msg>)
    requires SendInv(s) && LastWrite(s, m, before)
    ensures LastWrite(Do(s, a), m, before)
  {
  }

  lemma {:induction false} LastWriteDoAll(s: Link, acts: seq<Act>, m: Msg, before: seq<Msg>)
    requires SendInv(s) && LastWrite(s, m, before)
    ensures LastWrite(DoAll(s, acts), m, before)
    decreases |acts|
  {
    if acts != [] {
      LastWriteDoAll(s, acts[..|acts| - 1], m, before);
      KeepDoAll(s, acts[..|acts| - 1]);
      LastWriteDo(DoAll(s, acts[..|acts| - 1]), acts[|acts| - 1], m, before);
    }
  }

  lemma LastWriteStep(s: Link, e: Event, m: Msg, before: seq<Msg>)
    requires SendInv(s) && LastWrite(s, m, before) && Enabled(s, e)
    ensures LastWrite(Step(s, e), m, before)
  {
    match e
    case Starts =>
    case Timeout =>
    case Outside(a) => LastWriteDo(s, a, m, before);
    case WriteCompletes(i, r, encodes) => assert s.pendingWrites[..i] + s.pendingWrites[i + 1..] == [];
    case ReadCompletes(i, r, data, acts, throws) => LastWriteRead(s, i, r, data, acts, throws, m, before);
  }

  lemma LastWriteRead(s: Link, i: nat, r: Result, data: seq<byte>, acts: seq<Act>, throws: bool, m: Msg, before: seq<Msg>)
    requires SendInv(s) && LastWrite(s, m, before) && i < |s.pendingReads| && WellFormedRead(s.pendingReads[i])
    ensures LastWrite(ReadDone(s, i, r, data, acts, throws), m, before)
  {
    var u := s.(pendingReads := s.pendingReads[..i] + s.pendingReads[i + 1..], consumed := s.consumed + data);
    var read := s.pendingReads[i];
    if r.Success? && read.BodyRead? && !s.readClosed {
      LastWriteDoAll(u.(dispatched := u.dispatched + [Dispatch(read.header + data, read.first)]), acts, m, before);
    }
  }

  lemma {:induction false} LastWriteRun(s: Link, es: seq<Event>, m: Msg, before: seq<Msg>)
    requires SendInv(s) && LastWrite(s, m, before)
    ensures LastWrite(Run(s, es), m, before)
    decreases |es|
  {
    if es != [] {
      var t := Run(s, es[..|es| - 1]);
      LastWriteRun(s, es[..|es| - 1], m, before);
      SendPathIsSound(s, es[..|es| - 1]);
      if Enabled(t, es[|es| - 1]) { LastWriteStep(t, es[|es| - 1], m, before); }
    }
  }

  /** A sendAndStop accepted on an empty queue is the last message ever written, whatever happens next. */
  lemma {:induction false} SendAndStopIsLast(s: Link, m: Msg, encodes: bool, es: seq<Event>)
    requires SendInv(s) && !s.writeClosed && s.queue == []
    ensures var t := Run(TrySend(s, m, StopAfter, encodes), es);
      t.written == s.written || (t.written == s.written + [m] && !t.open && t.readClosed && t.writeClosed)
  {
    KeepTrySend(s, m, StopAfter, encodes);
    LastWriteRun(TrySend(s, m, StopAfter, encodes), es, m, s.written);
    SendPathIsSound(TrySend(s, m, StopAfter, encodes), es);
  }

  function Writes(n: nat): (es: seq<Event>)
    ensures |es| == n
  {
    seq(n, _ => WriteCompletes(0, Success, true))
  }

  /** After `n` writes of `s` succeeded, none of which stops. */
  ghost predicate WroteSome(s: Link, n: nat, t: Link) {
    && n <= |s.queue| && t.queue == s.queue[n..] && t.written == s.written + s.queue[..n] && t.open && !t.writeClosed
    && t.pendingWrites == if n < |s.queue| then [Write(s.queue[n], KeepSending)] else []
  }

  lemma WriteOne(s: Link, n: nat, t: Link)
    requires n < |s.queue| && WroteSome(s, n, t)
    ensures WroteSome(s, n + 1, WriteDone(t, 0, Success, true))
  {
    var w := t.pendingWrites[0];
    assert t.pendingWrites[..0] + t.pendingWrites[1..] == [];
    assert t.queue[1..] == s.queue[n + 1..];
    assert t.written + [w.msg] == s.written + s.queue[..n + 1];
  }

  lemma {:induction false} WritesKeepOpen(s: Link, n: nat)
    requires n <= |s.queue| && WroteSome(s, 0, s)
    ensures WroteSome(s, n, Run(s, Writes(n)))
    decreases n
  {
    if n > 0 {
      var t := Run(s, Writes(n - 1));
      WritesKeepOpen(s, n - 1);
      assert Writes(n)[..n - 1] == Writes(n - 1);
      WriteOne(s, n - 1, t);
      assert Run(s, Writes(n)) == Step(t, WriteCompletes(0, Success, true));
    }
  }

  /** After a sendAndStop of `m` and the events, `m` has been written and the connection is not stopped. */
  ghost predicate WrittenYetOpen(s: Link, m: Msg, es: seq<Event>) {
    var t := Run(TrySend(s, m, StopAfter, true), es);
    |t.written| > |s.accepted| && t.open
  }

  /** Behind a plain send: once everything queued is written the connection is still open. */
  lemma QueuedStopForgotten(s: Link, m: Msg)
    requires SendInv(s) && s.open && !s.writeClosed && s.queue != [] && s.pendingWrites[0].after.KeepSending?
    ensures WrittenYetOpen(s, m, Writes(|s.queue| + 1))
  {
    var t := TrySend(s, m, StopAfter, true);
    assert t.written + t.queue[..0] == t.written;
    assert t.queue[0] == s.queue[0];
    WritesKeepOpen(t, |t.queue|);
    KeepTrySend(s, m, StopAfter, true);
  }

  /** On an empty queue, or behind another sendAndStop. */
  lemma StopIsCertain(s: Link, m: Msg, es: seq<Event>)
    requires SendInv(s) && !s.writeClosed && (s.queue == [] || s.pendingWrites[0].after.StopAfter?)
    ensures !WrittenYetOpen(s, m, es)
  {
    if s.queue == [] {
      SendAndStopIsLast(s, m, true, es);
    } else {
      KeepTrySend(s, m, StopAfter, true);
      LastWriteRun(TrySend(s, m, StopAfter, true), es, s.queue[0], s.written);
    }
  }

  /**
   * Over all runs: the connection is stopped by the time the message of a sendAndStop is written exactly
   * when nothing was queued before it or the message being written was itself sent to stop.
   */
  lemma SendAndStopStopsIff(s: Link, m: Msg)
    requires SendInv(s) && s.open && !s.writeClosed
    ensures (forall es :: !WrittenYetOpen(s, m, es)) <==> s.queue == [] || s.pendingWrites[0].after.StopAfter?
  {
    if s.queue == [] || s.pendingWrites[0].after.StopAfter? {
      forall es ensures !WrittenYetOpen(s, m, es) {
        StopIsCertain(s, m, es);
      }
    } else {
      QueuedStopForgotten(s, m);
    }
  }

  // ---------- the read loop ----------

  predicate WellFormedFrame(f: seq<byte>) {
    |f| >= HEADER_SIZE && BodyLength(f[..HEADER_SIZE]) == Some(|f| - HEADER_SIZE)
  }

  /** The complete frames a byte stream starts with. */
  function Frames(stream: seq<byte>): seq<seq<byte>>
    decreases |stream|
  {
    if |stream| < HEADER_SIZE then [] else
      match BodyLength(stream[..HEADER_SIZE])
      case None => []
      case Some(n) =>
        if |stream| < HEADER_SIZE + n then [] else
          [stream[..HEADER_SIZE + n]] + Frames(stream[HEADER_SIZE + n..])
  }

  function Flat(ds: seq<Dispatch>): seq<byte> {
    if ds == [] then [] else ds[0].frame + Flat(ds[1..])
  }

  function FramesOf(ds: seq<Dispatch>): (fs: seq<seq<byte>>)
    ensures |fs| == |ds| && forall i :: 0 <= i < |ds| ==> fs[i] == ds[i].frame
  {
    seq(|ds|, i requires 0 <= i < |ds| => ds[i].frame)
  }

  lemma {:induction false} FlatAppend(ds: seq<Dispatch>, d: Dispatch)
    ensures Flat(ds + [d]) == Flat(ds) + d.frame
  {
    if ds == [] {
      assert Flat([d]) == d.frame + Flat([d][1..]);
    } else {
      FlatAppend(ds[1..], d);
      assert (ds + [d])[1..] == ds[1..] + [d];
    }
  }

  lemma FrameFirst(f: seq<byte>, tail: seq<byte>)
    requires WellFormedFrame(f)
    ensures Frames(f + tail) == [f] + Frames(tail)
  {
    var s := f + tail;
    assert s[..HEADER_SIZE] == f[..HEADER_SIZE] && s[..|f|] == f && s[|f|..] == tail;
  }

  lemma FlatCons(ds: seq<Dispatch>, rest: seq<byte>)
    requires ds != []
    ensures Flat(ds) + rest == ds[0].frame + (Flat(ds[1..]) + rest)
    ensures FramesOf(ds) == [ds[0].frame] + FramesOf(ds[1..])
  {
    Associative(ds[0].frame, Flat(ds[1..]), rest);
  }

  /** Whole frames followed by anything are split exactly at their boundaries. */
  lemma {:induction false} FramesOfFlat(ds: seq<Dispatch>, rest: seq<byte>, later: seq<seq<byte>>)
    requires forall i :: 0 <= i < |ds| ==> WellFormedFrame(ds[i].frame)
    requires later == Frames(rest)
    ensures Frames(Flat(ds) + rest) == FramesOf(ds) + later
  {
    if ds == [] {
      assert Flat(ds) + rest == rest && FramesOf(ds) + later == later;
    } else {
      FlatCons(ds, rest);
      FrameFirst(ds[0].frame, Flat(ds[1..]) + rest);
      FramesOfFlat(ds[1..], rest, later);
      Associative([ds[0].frame], FramesOf(ds[1..]), later);
    }
  }

  /** At most one read, and one as long as the connection receives; every byte read is in a frame, in order. */
  ghost predicate ReadInv(s: Link) {
    && |s.pendingReads| <= 1
    && (!s.open ==> s.writeClosed && s.readClosed)
    && (!s.started ==> s.pendingReads == [] && s.dispatched == [] && s.consumed == [])
    && (s.started && !s.readClosed ==> s.pendingReads != [])
    && DispatchesSound(s.dispatched)
    && Flat(s.dispatched) <= s.consumed
    && (s.pendingReads != [] ==> Awaits(s, s.pendingReads[0]))
  }

  ghost predicate DispatchesSound(ds: seq<Dispatch>) {
    forall i :: 0 <= i < |ds| ==> WellFormedFrame(ds[i].frame) && (ds[i].first <==> i == 0)
  }

  /** The read that is going on continues exactly where the last dispatched frame ended. */
  ghost predicate Awaits(s: Link, r: Read) {
    && WellFormedRead(r) && (r.first <==> s.dispatched == [])
    && s.consumed == Flat(s.dispatched) + (if r.BodyRead? then r.header else [])
  }

  /** What handlers do leaves the read side alone, apart from closing it. */
  ghost predicate SameReading(s: Link, t: Link) {
    && t.pendingReads == s.pendingReads && t.dispatched == s.dispatched && t.consumed == s.consumed && t.started == s.started
    && (s.readClosed ==> t.readClosed)
    && ((!s.open ==> s.writeClosed && s.readClosed) ==> !t.open ==> t.writeClosed && t.readClosed)
  }

  lemma DoReads(s: Link, a: Act)
    ensures SameReading(s, Do(s, a))
  {
  }

  lemma {:induction false} DoAllReads(s: Link, acts: seq<Act>)
    ensures SameReading(s, DoAll(s, acts))
    decreases |acts|
  {
    if acts != [] {
      DoAllReads(s, acts[..|acts| - 1]);
      DoReads(DoAll(s, acts[..|acts| - 1]), acts[|acts| - 1]);
    }
  }

  lemma ReadInvSame(s: Link, t: Link)
    requires ReadInv(s) && SameReading(s, t)
    ensures ReadInv(t)
  {
  }

  lemma WriteReads(s: Link, i: nat, r: Result, encodes: bool)
    requires i < |s.pendingWrites| && s.queue != []
    ensures SameReading(s, WriteDone(s, i, r, encodes))
  {
  }

  lemma KeepDispatch(u: Link, r: Read, data: seq<byte>, acts: seq<Act>, throws: bool)
    requires u.pendingReads == [] && u.started && !u.readClosed && (!u.open ==> u.writeClosed && u.readClosed)
    requires r.BodyRead? && WellFormedRead(r) && |data| == Wanted(r)
    requires DispatchesSound(u.dispatched) && (r.first <==> u.dispatched == [])
    requires u.consumed == Flat(u.dispatched) + r.header + data
    ensures ReadInv(Dispatched(u, r, data, acts, throws))
  {
    var d := Dispatch(r.header + data, r.first);
    var v := u.(dispatched := u.dispatched + [d]);
    FlatAppend(u.dispatched, d);
    assert (r.header + data)[..HEADER_SIZE] == r.header;
    assert Flat(v.dispatched) == u.consumed;
    assert DispatchesSound(v.dispatched);
    DoAllReads(v, acts);
  }

  lemma KeepRead(s: Link, i: nat, r: Result, data: seq<byte>, acts: seq<Act>, throws: bool)
    requires ReadInv(s) && s.started && Enabled(s, ReadCompletes(i, r, data, acts, throws))
    ensures ReadInv(ReadDone(s, i, r, data, acts, throws))
  {
    var read := s.pendingReads[i];
    assert s.pendingReads[..i] + s.pendingReads[i + 1..] == [];
    var u := s.(pendingReads := [], consumed := s.consumed + data);
    if r.Success? && !s.readClosed {
      if read.BodyRead? {
        KeepDispatch(u, read, data, acts, throws);
      } else {
        assert u.consumed == Flat(s.dispatched) + data;
      }
    }
  }

  lemma ReadStep(s: Link, e: Event)
    requires ReadInv(s) && Enabled(s, e)
    ensures ReadInv(Step(s, e))
  {
    match e
    case Starts => assert s.consumed == Flat(s.dispatched) + [];
    case Outside(a) =>
      DoReads(s, a);
      ReadInvSame(s, Do(s, a));
    case Timeout =>
    case WriteCompletes(i, r, encodes) =>
      WriteReads(s, i, r, encodes);
      ReadInvSame(s, WriteDone(s, i, r, encodes));
    case ReadCompletes(i, r, data, acts, throws) => KeepRead(s, i, r, data, acts, throws);
  }

  lemma {:induction false} ReadLoopIsSound(s: Link, es: seq<Event>)
    requires ReadInv(s)
    ensures ReadInv(Run(s, es))
    decreases |es|
  {
    if es != [] {
      var t := Run(s, es[..|es| - 1]);
      ReadLoopIsSound(s, es[..|es| - 1]);
      if Enabled(t, es[|es| - 1]) { ReadStep(t, es[|es| - 1]); }
    }
  }

  lemma PartialFrame(r: Read)
    requires WellFormedRead(r)
    ensures Frames(if r.BodyRead? then r.header else []) == []
  {
    if r.BodyRead? {
      assert r.header[..HEADER_SIZE] == r.header;
      LengthPositive(r.header);
    }
  }

  lemma LengthPositive(header: seq<byte>)
    requires |header| == HEADER_SIZE && BodyLength(header).Some?
    ensures 8 <= BodyLength(header).value <= MAX_BODY_SIZE - HEADER_SIZE
  {
  }

  /**
   * In every run the dispatched frames are, in wire order, the first complete frames of the bytes
   * read; all of them while the connection is receiving. Only the first goes to handleFirstMessage.
   */
  lemma {:induction false} DispatchesFollowTheWire(es: seq<Event>)
    ensures var s := Run(NEW, es);
      && FramesOf(s.dispatched) <= Frames(s.consumed)
      && (!s.readClosed ==> FramesOf(s.dispatched) == Frames(s.consumed))
      && forall i :: 0 <= i < |s.dispatched| ==> (s.dispatched[i].first <==> i == 0)
  {
    ReadLoopIsSound(NEW, es);
    var s := Run(NEW, es);
    var rest := s.consumed[|Flat(s.dispatched)|..];
    assert s.consumed == Flat(s.dispatched) + rest;
    FramesOfFlat(s.dispatched, rest, Frames(rest));
    if s.pendingReads != [] {
      PartialFrame(s.pendingReads[0]);
    }
  }

  /** Once receiving is stopped, by stopReceiving or by stop, nothing is dispatched any more. */
  lemma {:induction false} NothingDispatchedAfterStop(s: Link, es: seq<Event>)
    requires s.readClosed
    ensures Run(s, es).readClosed && Run(s, es).dispatched == s.dispatched
    decreases |es|
  {
    if es != [] {
      var t, e := Run(s, es[..|es| - 1]), es[|es| - 1];
      NothingDispatchedAfterStop(s, es[..|es| - 1]);
      if Enabled(t, e) && e.Outside? { DoReads(t, e.act); }
    }
  }

  // ---------- failures ----------

  /** A message that is sent at once and that encode() throws on. */
  predicate FailsToEncode(s: Link, a: Act) {
    a.Sends? && !s.writeClosed && s.queue == [] && !a.encodes
  }

  function FailuresAmong(s: Link, acts: seq<Act>): nat {
    if acts == [] then 0 else
      var n := |acts| - 1;
      FailuresAmong(s, acts[..n]) + if FailsToEncode(DoAll(s, acts[..n]), acts[n]) then 1 else 0
  }

  /** The link as the protocol's handler finds it. */
  function AtHandler(s: Link, i: nat, data: seq<byte>): Link
    requires i < |s.pendingReads| && s.pendingReads[i].BodyRead?
  {
    var r := s.pendingReads[i];
    s.(pendingReads := s.pendingReads[..i] + s.pendingReads[i + 1..], consumed := s.consumed + data,
       dispatched := s.dispatched + [Dispatch(r.header + data, r.first)])
  }

  /** How often an event makes the connection abort: an I/O error, a timeout, a header no body can have, a throw. */
  function Aborts(s: Link, e: Event): nat
    requires Enabled(s, e)
  {
    match e
    case Starts => 0
    case Outside(a) => if FailsToEncode(s, a) then 1 else 0
    case Timeout => 1
    case WriteCompletes(i, r, encodes) =>
      var next := r.Success? && s.pendingWrites[i].after.KeepSending? && |s.queue| > 1;
      if r.Failure? || (next && !encodes) then 1 else 0
    case ReadCompletes(i, r, data, acts, throws) =>
      if r.Failure? then 1
      else if r.Cancelled? || s.readClosed then 0
      else if s.pendingReads[i].HeaderRead? then (if BodyLength(data).Some? then 0 else 1)
      else FailuresAmong(AtHandler(s, i, data), acts) + if throws then 1 else 0
  }

  /** What stops the connection without a failure. */
  predicate StopsIn(s: Link, e: Event)
    requires Enabled(s, e)
  {
    match e
    case Outside(a) => a.Stops?
    case WriteCompletes(i, r, _) => r.Success? && s.pendingWrites[i].after.StopAfter?
    case ReadCompletes(i, r, _, acts, _) => r.Success? && !s.readClosed && s.pendingReads[i].BodyRead? && Stops in acts
    case Starts => false
    case Timeout => false
  }

  /** Closed both ways, and the socket too. */
  predicate Closed(s: Link) {
    !s.open && s.readClosed && s.writeClosed
  }

  lemma DoFails(s: Link, a: Act)
    ensures Do(s, a).lost == s.lost + if FailsToEncode(s, a) then 1 else 0
    ensures Do(s, a).open <==> s.open && !FailsToEncode(s, a) && !a.Stops?
    ensures FailsToEncode(s, a) || a.Stops? || Closed(s) ==> Closed(Do(s, a))
  {
  }

  lemma {:induction false} DoAllFails(s: Link, acts: seq<Act>)
    ensures DoAll(s, acts).lost == s.lost + FailuresAmong(s, acts)
    ensures DoAll(s, acts).open <==> s.open && FailuresAmong(s, acts) == 0 && Stops !in acts
    ensures FailuresAmong(s, acts) > 0 || Stops in acts || Closed(s) ==> Closed(DoAll(s, acts))
    decreases |acts|
  {
    if acts != [] {
      var n := |acts| - 1;
      DoAllFails(s, acts[..n]);
      DoFails(DoAll(s, acts[..n]), acts[n]);
      assert acts == acts[..n] + [acts[n]];
    }
  }

  /** What an event does to the connection as a whole. */
  ghost predicate AbortsAre(s: Link, t: Link, aborts: nat, stops: bool) {
    && t.lost == s.lost + aborts && (t.open <==> s.open && aborts == 0 && !stops)
    && (aborts > 0 || stops ==> Closed(t))
  }

  lemma WriteAborts(s: Link, i: nat, r: Result, encodes: bool)
    requires Enabled(s, WriteCompletes(i, r, encodes))
    ensures var e := WriteCompletes(i, r, encodes);
      AbortsAre(s, WriteDone(s, i, r, encodes), Aborts(s, e), StopsIn(s, e))
  {
  }

  lemma DispatchAborts(s: Link, i: nat, data: seq<byte>, acts: seq<Act>, throws: bool)
    requires i < |s.pendingReads| && s.pendingReads[i].BodyRead?
    ensures var u := s.(pendingReads := s.pendingReads[..i] + s.pendingReads[i + 1..], consumed := s.consumed + data);
      AbortsAre(s, Dispatched(u, s.pendingReads[i], data, acts, throws),
                FailuresAmong(AtHandler(s, i, data), acts) + (if throws then 1 else 0), Stops in acts)
  {
    DoAllFails(AtHandler(s, i, data), acts);
  }

  lemma ReadAborts(s: Link, i: nat, r: Result, data: seq<byte>, acts: seq<Act>, throws: bool)
    requires Enabled(s, ReadCompletes(i, r, data, acts, throws))
    ensures var e := ReadCompletes(i, r, data, acts, throws);
      AbortsAre(s, ReadDone(s, i, r, data, acts, throws), Aborts(s, e), StopsIn(s, e))
  {
    if r.Success? && !s.readClosed && s.pendingReads[i].BodyRead? {
      DispatchAborts(s, i, data, acts, throws);
    }
  }

  /** The protocol is told once per abort and by nothing else, and the connection closes by aborts and stops only. */
  lemma AbortsExactly(s: Link, e: Event)
    requires Enabled(s, e)
    ensures AbortsAre(s, Step(s, e), Aborts(s, e), StopsIn(s, e))
  {
    match e
    case Starts =>
    case Timeout =>
    case Outside(a) => DoFails(s, a);
    case WriteCompletes(i, r, encodes) => WriteAborts(s, i, r, encodes);
    case ReadCompletes(i, r, data, acts, throws) => ReadAborts(s, i, r, data, acts, throws);
  }

  /** The aborts of a whole run. */
  function AllAborts(s: Link, es: seq<Event>): nat {
    if es == [] then 0 else
      var n := |es| - 1;
      var t := Run(s, es[..n]);
      AllAborts(s, es[..n]) + if Enabled(t, es[n]) then Aborts(t, es[n]) else 0
  }

  lemma {:induction false} LostAreAborts(s: Link, es: seq<Event>)
    ensures Run(s, es).lost == s.lost + AllAborts(s, es)
    decreases |es|
  {
    if es != [] {
      var t := Run(s, es[..|es| - 1]);
      LostAreAborts(s, es[..|es| - 1]);
      if Enabled(t, es[|es| - 1]) { AbortsExactly(t, es[|es| - 1]); }
    }
  }

  lemma ClosedStep(s: Link, e: Event)
    requires Closed(s) && Enabled(s, e)
    ensures Closed(Step(s, e)) && Step(s, e).dispatched == s.dispatched
    ensures s.started ==> Step(s, e).started && |Step(s, e).pendingReads| <= |s.pendingReads|
  {
    if e.Outside? { DoReads(s, e.act); }
  }

  lemma {:induction false} ClosedForGood(s: Link, es: seq<Event>)
    requires Closed(s)
    ensures Closed(Run(s, es)) && Run(s, es).dispatched == s.dispatched
    ensures s.started ==> Run(s, es).started && |Run(s, es).pendingReads| <= |s.pendingReads|
    decreases |es|
  {
    if es != [] {
      var t := Run(s, es[..|es| - 1]);
      ClosedForGood(s, es[..|es| - 1]);
      if Enabled(t, es[|es| - 1]) { ClosedStep(t, es[|es| - 1]); }
    }
  }

  lemma FailedRead(s: Link, e: Event)
    requires ReadInv(s) && Enabled(s, e) && e.ReadCompletes? && Aborts(s, e) > 0
    ensures s.started && Step(s, e).started && Step(s, e).pendingReads == []
  {
    if e.result.Success? && s.pendingReads[e.i].BodyRead? {
      var t := AtHandler(s, e.i, e.data);
      DoAllReads(t, e.acts);
      DoAllFails(t, e.acts);
    }
  }

  /**
   * In every run: an event that fails, a throwing handler's dispatch among them, closes the connection for good.
   * Whatever follows, nothing is dispatched and, once started, nothing more is read; after a failed read or
   * dispatch no read is left.
   */
  lemma FailureIsFinal(es: seq<Event>, e: Event, fs: seq<Event>)
    requires var s := Run(NEW, es); Enabled(s, e) && Aborts(s, e) > 0
    ensures var s := Run(NEW, es); var t := Step(s, e); var u := Run(t, fs);
      && t.lost == s.lost + Aborts(s, e)
      && Closed(u) && u.dispatched == t.dispatched
      && (t.started ==> |u.pendingReads| <= |t.pendingReads|)
      && (e.ReadCompletes? ==> u.pendingReads == [])
  {
    var s := Run(NEW, es);
    AbortsExactly(s, e);
    ClosedForGood(Step(s, e), fs);
    ReadLoopIsSound(NEW, es);
    if e.ReadCompletes? { FailedRead(s, e); }
  }

  // ---------- what is accepted, and the two half stops ----------

  /** A message is accepted exactly when the connection is not closed for writing. */
  function Offer(s: Link, a: Act): seq<Msg> {
    if a.Sends? && !s.writeClosed then [a.m] else []
  }

  function OffersAmong(s: Link, acts: seq<Act>): seq<Msg> {
    if acts == [] then [] else
      var n := |acts| - 1;
      OffersAmong(s, acts[..n]) + Offer(DoAll(s, acts[..n]), acts[n])
  }

  /** The messages that other code and the handlers send in a run while they may. */
  function Offered(s: Link, es: seq<Event>): seq<Msg> {
    if es == [] then [] else
      var n := |es| - 1;
      var t, e := Run(s, es[..n]), es[n];
      Offered(s, es[..n]) + if Enabled(t, e) then OffersOf(t, e) else []
  }

  function OffersOf(s: Link, e: Event): seq<Msg>
    requires Enabled(s, e)
  {
    if e.Outside? then Offer(s, e.act)
    else if e.ReadCompletes? && e.result.Success? && !s.readClosed && s.pendingReads[e.i].BodyRead? then
      OffersAmong(AtHandler(s, e.i, e.data), e.acts)
    else []
  }

  lemma DoAccepts(s: Link, a: Act)
    ensures Do(s, a).accepted == s.accepted + Offer(s, a)
  {
  }

  lemma {:induction false} DoAllAccepts(s: Link, acts: seq<Act>)
    ensures DoAll(s, acts).accepted == s.accepted + OffersAmong(s, acts)
    decreases |acts|
  {
    if acts != [] {
      var n := |acts| - 1;
      DoAllAccepts(s, acts[..n]);
      DoAccepts(DoAll(s, acts[..n]), acts[n]);
      Associative(s.accepted, OffersAmong(s, acts[..n]), Offer(DoAll(s, acts[..n]), acts[n]));
    }
  }

  lemma WriteAccepts(s: Link, i: nat, r: Result, encodes: bool)
    requires i < |s.pendingWrites| && s.queue != []
    ensures WriteDone(s, i, r, encodes).accepted == s.accepted
  {
  }

  lemma ReadAccepts(s: Link, i: nat, r: Result, data: seq<byte>, acts: seq<Act>, throws: bool)
    requires Enabled(s, ReadCompletes(i, r, data, acts, throws))
    ensures ReadDone(s, i, r, data, acts, throws).accepted == s.accepted + OffersOf(s, ReadCompletes(i, r, data, acts, throws))
  {
    if r.Success? && !s.readClosed && s.pendingReads[i].BodyRead? {
      DoAllAccepts(AtHandler(s, i, data), acts);
    }
  }

  lemma StepAccepts(s: Link, e: Event)
    requires Enabled(s, e)
    ensures Step(s, e).accepted == s.accepted + OffersOf(s, e)
  {
    match e
    case Starts =>
    case Timeout =>
    case Outside(a) => DoAccepts(s, a);
    case WriteCompletes(i, r, encodes) => WriteAccepts(s, i, r, encodes);
    case ReadCompletes(i, r, data, acts, throws) => ReadAccepts(s, i, r, data, acts, throws);
  }

  /** In every run the accepted messages are those offered, in order. */
  lemma {:induction false} AcceptedAreOffered(s: Link, es: seq<Event>)
    ensures Run(s, es).accepted == s.accepted + Offered(s, es)
    decreases |es|
  {
    if es != [] {
      var t, e := Run(s, es[..|es| - 1]), es[|es| - 1];
      AcceptedAreOffered(s, es[..|es| - 1]);
      if Enabled(t, e) {
        StepAccepts(t, e);
        Associative(s.accepted, Offered(s, es[..|es| - 1]), OffersOf(t, e));
      }
    }
  }

  lemma {:induction false} RefusesAll(s: Link, acts: seq<Act>)
    requires s.writeClosed
    ensures DoAll(s, acts).writeClosed && OffersAmong(s, acts) == []
    decreases |acts|
  {
    if acts != [] {
      RefusesAll(s, acts[..|acts| - 1]);
    }
  }

  lemma {:induction false} RefusesInRun(s: Link, es: seq<Event>)
    requires s.writeClosed
    ensures Run(s, es).writeClosed && Offered(s, es) == []
    decreases |es|
  {
    if es != [] {
      var t, e := Run(s, es[..|es| - 1]), es[|es| - 1];
      RefusesInRun(s, es[..|es| - 1]);
      if Enabled(t, e) && e.ReadCompletes? && e.result.Success? && !t.readClosed && t.pendingReads[e.i].BodyRead? {
        RefusesAll(AtHandler(t, e.i, e.data), e.acts);
      }
    }
  }

  /** Each half stop closes its own direction for good and leaves the other and the socket alone. */
  lemma HalfStops(s: Link, es: seq<Event>)
    ensures var t := Do(s, StopsSending);
      t.open == s.open && t.readClosed == s.readClosed && t.pendingReads == s.pendingReads && Run(t, es).accepted == s.accepted
    ensures var t := Do(s, StopsReceiving);
      t.open == s.open && t.writeClosed == s.writeClosed && t.pendingWrites == s.pendingWrites && Run(t, es).dispatched == s.dispatched
  {
    var t := Do(s, StopsSending);
    RefusesInRun(t, es);
    AcceptedAreOffered(t, es);
    assert s.accepted + [] == s.accepted;
    NothingDispatchedAfterStop(Do(s, StopsReceiving), es);
  }

  // ---------- the connection object ----------

  class Connection {
    var outMsgQueue: seq<Msg>
    var readClosed: bool
    var writeClosed: bool
    var started: bool
    var open: bool
    var pendingWrites: seq<Write>
    var pendingReads: seq<Read>
    ghost var accepted: seq<Msg>
    ghost var encoded: seq<Msg>
    ghost var written: seq<Msg>
    ghost var consumed: seq<byte>
    ghost var dispatched: seq<Dispatch>
    ghost var lost: nat

    ghost function State(): Link
      reads this
    {
      Link(outMsgQueue, readClosed, writeClosed, started, open, pendingWrites, pendingReads,
           accepted, encoded, written, consumed, dispatched, lost)
    }

    constructor ()
      ensures State() == NEW
    {
      outMsgQueue, readClosed, writeClosed, started, open := [], false, false, false, true;
      pendingWrites, pendingReads := [], [];
      accepted, encoded, written, consumed, dispatched, lost := [], [], [], [], [], 0;
    }

    method Stop()
      modifies this
      ensures State() == Stopped(old(State()))
    {
      readClosed, writeClosed := true, true;
      open := false;
    }

    method Abort()
      modifies this
      ensures State() == Aborted(old(State()))
    {
      lost := lost + 1; // protocol->connectionLost()
      Stop();
    }

    method TrySendOrEnqueueThen(m: Msg, after: Then, encodes: bool)
      modifies this
      ensures State() == TrySend(old(State()), m, after, encodes)
    {
      if writeClosed {
        return;
      }
      var shallSend := |outMsgQueue| == 0;
      outMsgQueue, accepted := outMsgQueue + [m], accepted + [m];
      if shallSend {
        SendFront(after, encodes);
      }
    }

    method SendFront(after: Then, encodes: bool)
      requires outMsgQueue != []
      modifies this
      ensures State() == DoSend(old(State()), after, encodes)
    {
      var msg := outMsgQueue[0];
      encoded := encoded + [msg];
      if !encodes {
        Abort();
        return;
      }
      pendingWrites := pendingWrites + [Write(msg, after)];
    }

    method KeepSending(encodes: bool)
      modifies this
      ensures State() == if old(outMsgQueue) != [] then DoSend(old(State()), Then.KeepSending, encodes) else old(State())
    {
      if |outMsgQueue| != 0 {
        SendFront(Then.KeepSending, encodes);
      }
    }

    method OnWriteCompleted(i: nat, r: Result, encodes: bool)
      requires i < |pendingWrites| && outMsgQueue != []
      modifies this
      ensures State() == WriteDone(old(State()), i, r, encodes)
    {
      var w := pendingWrites[i];
      pendingWrites := pendingWrites[..i] + pendingWrites[i + 1..];
      match r
      case Success =>
        outMsgQueue, written := outMsgQueue[1..], written + [w.msg];
        if w.after.StopAfter? { Stop(); } else { KeepSending(encodes); }
      case Cancelled =>
      case Failure => Abort();
    }

    method Perform(a: Act)
      modifies this
      ensures State() == Do(old(State()), a)
    {
      match a
      case Sends(m, after, encodes) => TrySendOrEnqueueThen(m, after, encodes);
      case Stops => Stop();
      case StopsReceiving => readClosed := true;
      case StopsSending => writeClosed := true;
    }

    /** The protocol's handler at work. */
    method PerformAll(acts: seq<Act>)
      modifies this
      ensures State() == DoAll(old(State()), acts)
    {
      assert acts[..|acts|] == acts;
      for i := 0 to |acts|
        invariant State() == DoAll(old(State()), acts[..i])
      {
        assert acts[..i + 1][..i] == acts[..i];
        Perform(acts[i]);
      }
    }

    method ParseIncomingMessage(first: bool)
      modifies this`pendingReads
      ensures State() == AskForHeader(old(State()), first)
    {
      pendingReads := pendingReads + [HeaderRead(first)];
    }

    method OnReadCompleted(i: nat, r: Result, data: seq<byte>, acts: seq<Act>, throws: bool)
      requires i < |pendingReads| && WellFormedRead(pendingReads[i])
      modifies this
      ensures State() == ReadDone(old(State()), i, r, data, acts, throws)
    {
      var read := pendingReads[i];
      pendingReads := pendingReads[..i] + pendingReads[i + 1..];
      if r.Cancelled? {
        return;
      }
      if r.Failure? {
        Abort();
        return;
      }
      consumed := consumed + data;
      if readClosed {
        return;
      }
      match read
      case HeaderRead(first) =>
        if |data| == HEADER_SIZE && BodyLength(data).Some? {
          pendingReads := pendingReads + [BodyRead(first, data)];
        } else {
          Abort();
        }
      case BodyRead(first, header) =>
        dispatched := dispatched + [Dispatch(header + data, first)];
        PerformAll(acts);
        if throws {
          Abort();
        } else if !readClosed {
          ParseIncomingMessage(false);
        }
    }
  }
}
