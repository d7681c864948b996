/** What clients get, in every run of the whole pipeline. */
module EndToEnd {
  import opened Seqs
  import opened Wire
  import Receive
  import Sender
  import T = SendThreads
  import D = Dispatcher
  import opened Pipeline

  lemma WireOfReplies(c: T.Config, send: T.State<Byte>, owner: T.Owner)
    requires SendInv(c, send, owner)
    ensures send.wire <= Concat(send.accepted)
    ensures send.queue == [] ==> send.wire == Concat(send.accepted)
  {
    assert send.queue == [] ==> T.View(send, owner).queue == [];
  }

  lemma ClientDecodesAll(ms: seq<Msg>)
    ensures Decode(CLIENT_LIMITS, EncodeAll(ms)).0 == ms
  {
    DecodeInvertsEncode(CLIENT_LIMITS, ms, []);
    assert EncodeAll(ms) + [] == EncodeAll(ms) && ms + [] == ms;
  }

  lemma PostedUntilRefused(l: Limits, x: Session)
    requires RxInv(l, x)
    ensures x.rx.posted <= UntilRefused(l, x.requests)
  {
    var all := EncodeAll(x.requests);
    var n := |EncodeAll(x.rx.posted)|;
    assert all == EncodeAll(x.rx.posted) + all[n..];
    DecodeInvertsEncode(l, x.rx.posted, all[n..]);
    DecodeStopsAtRefused(l, x.requests);
  }

  lemma DispatchedIsPrefix(v: Server, s: System, i: nat)
    requires LogInv(v, s)
    ensures Of(i, Nodes(s.log)) <= Of(i, s.posted)
  {
    assert s.posted[..|s.log|] == Nodes(s.log);
    OfPrefix(i, Nodes(s.log), s.posted);
  }

  /** The client's view of one session after any run. `taken` are the bytes that it has read so far. */
  lemma RepliesInOrder(v: Server, steps: seq<Step>, i: nat, taken: seq<Byte>)
    requires IsRun(v, INIT, steps)
    requires var s := Exec(v, INIT, steps); i < |s.sessions| && taken <= s.sessions[i].send.wire
    ensures var s := Exec(v, INIT, steps);
            var got := Decode(CLIENT_LIMITS, taken).0;
            && got <= Handled(v, Answered(i, s.log))
            && IsSubsequence(Answered(i, s.log), Of(i, Nodes(s.log)))
            && Of(i, Nodes(s.log)) <= UntilRefused(v.limits, s.sessions[i].requests)
  {
    var s := Exec(v, INIT, steps);
    RunsKeepInv(v, INIT, steps);
    var x := s.sessions[i];
    var replies := Handled(v, Answered(i, s.log));
    assert HistoryInv(v, i, x, s.posted, s.log) && RxInv(v.limits, x);
    WireOfReplies(Threads(v), x.send, x.owner);
    DecodeMonotone(CLIENT_LIMITS, taken, EncodeAll(replies));
    ClientDecodesAll(replies);
    AnsweredIsSubsequence(i, s.log);
    DispatchedIsPrefix(v, s, i);
    PostedUntilRefused(v.limits, x);
  }

  /** The main result. In every run and for each session, what the client decodes from the bytes that it
      has read are, in order, the handler's replies to a subsequence of the requests that it sent. */
  lemma ClientGetsReplies(v: Server, steps: seq<Step>, i: nat, taken: seq<Byte>) returns (served: seq<Msg>)
    requires IsRun(v, INIT, steps)
    requires var s := Exec(v, INIT, steps); i < |s.sessions| && taken <= s.sessions[i].send.wire
    ensures Decode(CLIENT_LIMITS, taken).0 == Handled(v, served)
    ensures IsSubsequence(served, Exec(v, INIT, steps).sessions[i].requests)
  {
    var s := Exec(v, INIT, steps);
    RepliesInOrder(v, steps, i, taken);
    var got, answered := Decode(CLIENT_LIMITS, taken).0, Answered(i, s.log);
    served := answered[..|got|];
    TakeServed(v, answered, Of(i, Nodes(s.log)), s.sessions[i].requests, |got|);
  }

  lemma TakeServed(v: Server, answered: seq<Msg>, dispatched: seq<Msg>, requests: seq<Msg>, n: nat)
    requires IsSubsequence(answered, dispatched) && dispatched <= requests && n <= |answered|
    ensures Handled(v, answered[..n]) == Handled(v, answered)[..n] && IsSubsequence(answered[..n], requests)
  {
    WidenAll(answered, dispatched, requests);
    TakeOfSubsequence(answered, n, requests);
  }

  /** A dispatched request goes unanswered only if its id is not registered, or if at that moment the
      session's send queue held MAX_SENDQUE + 1 items. */
  lemma SkippedOnlyIf(v: Server, steps: seq<Step>, e: Record)
    requires IsRun(v, INIT, steps) && e in Exec(v, INIT, steps).log
    ensures match e.out
            case Unregistered => e.node.msg.id !in v.known
            case QueueFull(size) => e.node.msg.id in v.known && size == Sender.MAX_SENDQUE + 1
            case Replied(r) => e.node.msg.id in v.known && r == v.handler(e.node.msg)
  {
    RunsKeepInv(v, INIT, steps);
    assert RecordInv(v, e);
  }

  function Known(known: set<Short>, ms: seq<Msg>): seq<Msg> {
    if ms == [] then []
    else
      var n := |ms| - 1;
      Known(known, ms[..n]) + if ms[n].id in known then [ms[n]] else []
  }

  lemma {:induction false} AnsweredIfNeverFull(v: Server, i: nat, log: seq<Record>)
    requires forall e <- log :: RecordInv(v, e) && (e.node.session == i ==> !e.out.QueueFull?)
    ensures Answered(i, log) == Known(v.known, Of(i, Nodes(log)))
  {
    if log != [] {
      var before, e := log[..|log| - 1], log[|log| - 1];
      AnsweredIfNeverFull(v, i, before);
      assert Nodes(log) == Nodes(before) + [e.node];
      OfPush(i, Nodes(before), e.node);
      var ms := Of(i, Nodes(before));
      assert e in log && ms + [] == ms;
      assert (ms + [e.node.msg])[..|ms|] == ms;
    }
  }

  lemma AllPosted(l: Limits, x: Session)
    requires RxInv(l, x) && x.rx.phase.Head? && x.rx.consumed == EncodeAll(x.requests)
    ensures x.rx.posted == x.requests
  {
    assert EncodeAll(x.rx.posted) + [] == EncodeAll(x.rx.posted);
    ClientDecodesAll(x.rx.posted);
    ClientDecodesAll(x.requests);
  }

  /** Session `i` has nothing outstanding: its requests are taken in, nothing waits for dispatch and its
      send queue is empty. */
  ghost predicate Settled(s: System, i: nat)
    requires i < |s.sessions|
  {
    var x := s.sessions[i];
    && x.rx.phase.Head? && x.rx.consumed == EncodeAll(x.requests)
    && s.queue == [] && x.send.queue == []
  }

  /** None of the session's replies has met a full queue. */
  ghost predicate NeverFull(s: System, i: nat) {
    forall e <- s.log :: e.node.session == i ==> !e.out.QueueFull?
  }

  /** Completeness: once a session is settled, and if none of its replies met a full queue, the client's
      bytes are the replies to exactly the requests with a registered id. */
  lemma SettledClientHasAll(v: Server, steps: seq<Step>, i: nat)
    requires IsRun(v, INIT, steps) && i < |Exec(v, INIT, steps).sessions| && Settled(Exec(v, INIT, steps), i)
    requires NeverFull(Exec(v, INIT, steps), i)
    ensures var x := Exec(v, INIT, steps).sessions[i];
            Decode(CLIENT_LIMITS, x.send.wire).0 == Handled(v, Known(v.known, x.requests))
  {
    RunsKeepInv(v, INIT, steps);
    SettledHasAll(v, Exec(v, INIT, steps), i);
  }

  lemma SettledHasAll(v: Server, s: System, i: nat)
    requires Inv(v, s) && i < |s.sessions| && Settled(s, i)
    requires NeverFull(s, i)
    ensures var x := s.sessions[i];
            Decode(CLIENT_LIMITS, x.send.wire).0 == Handled(v, Known(v.known, x.requests))
  {
    SettledState(v, s, i);
    AnsweredIfNeverFull(v, i, s.log);
    ClientDecodesAll(Handled(v, Answered(i, s.log)));
  }

  lemma SettledState(v: Server, s: System, i: nat)
    requires Inv(v, s) && i < |s.sessions| && Settled(s, i)
    ensures Of(i, Nodes(s.log)) == s.sessions[i].requests
    ensures s.sessions[i].send.wire == EncodeAll(Handled(v, Answered(i, s.log)))
  {
    var x := s.sessions[i];
    assert HistoryInv(v, i, x, s.posted, s.log);
    AllPosted(v.limits, x);
    assert Nodes(s.log) == s.posted;
    WireOfReplies(Threads(v), x.send, x.owner);
  }

  lemma {:induction false} AllKnown(known: set<Short>, ms: seq<Msg>)
    requires forall m <- ms :: m.id in known
    ensures Known(known, ms) == ms
  {
    if ms != [] {
      AllKnown(known, ms[..|ms| - 1]);
      assert ms == ms[..|ms| - 1] + [ms[|ms| - 1]];
    }
  }

  /** For the repository's own client, which sends nothing but MSG_HELLO_WORLD: a reply to every request. */
  lemma SyncClientIsAnswered(v: Server, steps: seq<Step>, i: nat)
    requires v.known == {D.MSG_HELLO_WORLD}
    requires IsRun(v, INIT, steps) && i < |Exec(v, INIT, steps).sessions| && Settled(Exec(v, INIT, steps), i)
    requires NeverFull(Exec(v, INIT, steps), i)
    requires forall m <- Exec(v, INIT, steps).sessions[i].requests :: m.id == D.MSG_HELLO_WORLD
    ensures var x := Exec(v, INIT, steps).sessions[i];
            Decode(CLIENT_LIMITS, x.send.wire).0 == Handled(v, x.requests)
  {
    SettledClientHasAll(v, steps, i);
    AllKnown(v.known, Exec(v, INIT, steps).sessions[i].requests);
  }

  // ----- progress -----

  /** The read that takes in more of message `m`, when `rest` is what has been taken of it. */
  lemma NextRead(l: Limits, p: Phase, rest: seq<Byte>, m: Msg, tail: seq<Byte>) returns (e: Receive.Event)
    requires Admissible(l, m) && !p.Stopped? && Receive.Leftover(l, p, rest) && rest <= Frame(m) + tail
    ensures !e.ReadFailed? && rest + Receive.BytesOf(e) <= Frame(m) + tail
    ensures if p.Head? then e == Receive.HeadSome(Frame(m)[..HEAD_TOTAL_LEN]) && OnHeader(l, e.bytes).Body?
            else p == Body(m.id, |m.payload|) && e == Receive.BodyFull(m.payload)
  {
    if p.Head? {
      HeaderOfFrame(l, m);
      e := Receive.HeadSome(Frame(m)[..HEAD_TOTAL_LEN]);
    } else {
      e := Receive.BodyFull(m.payload);
      assert rest == (Frame(m) + tail)[..HEAD_TOTAL_LEN] == Frame(m)[..HEAD_TOTAL_LEN];
      HeaderOfFrame(l, m);
      assert rest + m.payload == Frame(m);
    }
  }

  /** What follows the posted messages on the stream. */
  lemma NextFrame(l: Limits, x: Session) returns (m: Msg, tail: seq<Byte>)
    requires RxInv(l, x) && !x.rx.phase.Stopped?
    requires AllAdmissible(l, x.requests) && (x.rx.consumed != EncodeAll(x.requests) || x.rx.phase.Body?)
    ensures Admissible(l, m) && EncodeAll(x.requests) == EncodeAll(x.rx.posted) + (Frame(m) + tail)
  {
    var done := x.rx.posted;
    PostedUntilRefused(l, x);
    assert done == x.requests ==> |Rest(x.rx)| == 0;
    m := x.requests[|done|];
    var more := x.requests[|done| + 1..];
    tail := EncodeAll(more);
    EncodeSplit(x.requests, |done|);
    assert x.requests[..|done|] == done;
  }

  /** Bytes of an acceptable request that have not been taken in can be, by a full read. */
  lemma ReadCanProceed(l: Limits, x: Session) returns (e: Receive.Event)
    requires RxInv(l, x) && !x.rx.phase.Stopped?
    requires AllAdmissible(l, x.requests) && (x.rx.consumed != EncodeAll(x.requests) || x.rx.phase.Body?)
    ensures Receive.Enabled(x.rx, e) && x.rx.consumed + Receive.BytesOf(e) <= EncodeAll(x.requests)
    ensures !e.ReadFailed? && !Receive.Next(l, x.rx, e).phase.Stopped?
  {
    var m, tail := NextFrame(l, x);
    var before, rest := EncodeAll(x.rx.posted), Rest(x.rx);
    CutPrefix(before, rest, Frame(m) + tail);
    e := NextRead(l, x.rx.phase, rest, m, tail);
    CutPrefix(before, rest + Receive.BytesOf(e), Frame(m) + tail);
    Associate(before, rest, Receive.BytesOf(e));
  }

  /** A step of a send side that is no error and no empty transfer. */
  predicate Works(a: T.Action<Byte>) {
    !a.Abort? && (a.Transfer? ==> a.n > 0)
  }

  /** A session whose send side is not at rest can make a step on it. */
  lemma SendCanProceed(v: Server, s: System, i: nat) returns (a: T.Action<Byte>)
    requires Inv(v, s) && i < |s.sessions|
    requires var x := s.sessions[i]; !T.Quiet(x.send) || (x.send.queue != [] && !x.send.closed)
    ensures Enabled(v, s, Write(i, a)) && Works(a) && (a.Done? || a.Transfer? ==> T.Quiet(s.sessions[i].send))
  {
    assert SendInv(Threads(v), s.sessions[i].send, s.sessions[i].owner);
    a := T.SomeoneMoves(Threads(v), s.sessions[i].send, s.sessions[i].owner);
  }

  /** A step that is neither a new connection or request, nor an error, nor an empty transfer. */
  predicate Advances(a: Step) {
    a.Dispatch? || a.Return? || (a.Write? && Works(a.a)) || (a.Read? && !a.e.ReadFailed?)
  }

  /** An advancing step that asks nothing of the other clients: bytes move to or from client `i` only. The
      threads inside other sessions' critical sections may go on, and so may the worker. */
  predicate Local(i: nat, a: Step) {
    && Advances(a) && (a.Read? ==> a.i == i)
    && (a.Write? && (a.a.Transfer? || a.a.Done?) ==> a.i == i)
  }

  /** An open session whose requests are all acceptable to the server. */
  ghost predicate Served(v: Server, s: System, i: nat) {
    && i < |s.sessions|
    && var x := s.sessions[i];
       !x.rx.phase.Stopped? && !x.send.closed && AllAdmissible(v.limits, x.requests)
  }

  /** Nothing gets stuck, with all threads of all sessions interleaved: until an open session that sent
      acceptable requests is settled, some step is possible that advances, and that needs no other client
      to send or to read. */
  lemma PipelineMoves(v: Server, steps: seq<Step>, i: nat) returns (a: Step)
    requires IsRun(v, INIT, steps)
    requires var s := Exec(v, INIT, steps); Served(v, s, i) && !Settled(s, i)
    ensures Enabled(v, Exec(v, INIT, steps), a) && Local(i, a)
  {
    RunsKeepInv(v, INIT, steps);
    a := StateMoves(v, Exec(v, INIT, steps), i);
  }

  lemma StateMoves(v: Server, s: System, i: nat) returns (a: Step)
    requires Inv(v, s) && Served(v, s, i) && !Settled(s, i)
    ensures Enabled(v, s, a) && Local(i, a)
    ensures a.Read? ==> !Receive.Next(v.limits, s.sessions[i].rx, a.e).phase.Stopped?
  {
    if s.queue != [] {
      a := FrontCanProceed(v, s);
    } else if s.sessions[i].send.queue != [] {
      var b := SendCanProceed(v, s, i);
      a := Write(i, b);
    } else {
      var e := ReadCanProceed(v.limits, s.sessions[i]);
      a := Read(i, e);
    }
  }

  /** The front message is dispatched, or its callback goes on, or it returns, whatever the network does. */
  lemma FrontCanProceed(v: Server, s: System) returns (a: Step)
    requires Inv(v, s) && s.queue != []
    ensures Enabled(v, s, a) && Advances(a) && !a.Read? && (a.Write? ==> !a.a.Transfer? && !a.a.Done?)
  {
    var j := s.queue[0].session;
    if s.worker.Free? {
      assert s.posted[|s.log|] == s.queue[0];
    }
    assert CallInv(v, s.worker, s.queue, j, T.PcOf(s.sessions[j].send, WORKER));
    if !T.PcOf(s.sessions[j].send, WORKER).Idle? {
      var b := SendCanProceed(v, s, j);
      a := Write(j, b);
    } else {
      a := if s.worker.Free? then Dispatch else Return;
    }
  }

  // ----- giving up -----

  /** A socket is closed exactly if its receiver has given up or a write has failed. */
  ghost predicate ClosedInvs(xs: seq<Session>) {
    forall i | 0 <= i < |xs| :: ClosedInv(xs[i])
  }

  ghost predicate ClosedInv(x: Session) {
    x.send.closed <==> x.rx.phase.Stopped? || x.send.aborted != []
  }

  lemma ReplaceKeepsClosed(xs: seq<Session>, i: nat, x: Session)
    requires ClosedInvs(xs) && i < |xs| && ClosedInv(x)
    ensures ClosedInvs(xs[i := x])
  {
  }

  lemma WriteKeepsClosed(v: Server, xs: seq<Session>, i: nat, a: T.Action<Byte>)
    requires ClosedInvs(xs) && i < |xs| && T.Enabled(Threads(v), xs[i].send, a) && !a.CloseSocket?
    ensures ClosedInvs(xs[i := WithSend(v, xs[i], a)])
  {
    assert ClosedInv(xs[i]);
    ReplaceKeepsClosed(xs, i, WithSend(v, xs[i], a));
  }

  lemma StepKeepsClosed(v: Server, s: System, a: Step)
    requires ClosedInvs(s.sessions) && Enabled(v, s, a)
    ensures ClosedInvs(Next(v, s, a).sessions)
  {
    match a
    case Connect => assert ClosedInv(FRESH);
    case Request(i, _) => ReplaceKeepsClosed(s.sessions, i, Next(v, s, a).sessions[i]);
    case Read(i, _) =>
      assert ClosedInv(s.sessions[i]);
      ReplaceKeepsClosed(s.sessions, i, Next(v, s, a).sessions[i]);
    case Dispatch =>
      if s.queue[0].msg.id in v.known {
        WriteKeepsClosed(v, s.sessions, s.queue[0].session, T.Call(WORKER, Frame(v.handler(s.queue[0].msg))));
      }
    case Write(i, b) => WriteKeepsClosed(v, s.sessions, i, b);
    case Return =>
  }

  lemma {:induction false} RunsKeepClosed(v: Server, s: System, steps: seq<Step>)
    requires ClosedInvs(s.sessions) && IsRun(v, s, steps)
    ensures ClosedInvs(Exec(v, s, steps).sessions)
    decreases |steps|
  {
    if steps != [] {
      StepKeepsClosed(v, s, steps[0]);
      RunsKeepClosed(v, Next(v, s, steps[0]), steps[1..]);
    }
  }

  lemma SendStaysClosed(v: Server, x: Session, a: T.Action<Byte>)
    requires x.send.closed && T.Enabled(Threads(v), x.send, a)
    ensures WithSend(v, x, a).send.closed && WithSend(v, x, a).send.wire == x.send.wire
  {
  }

  lemma StepStaysClosed(v: Server, s: System, a: Step, i: nat)
    requires Enabled(v, s, a) && i < |s.sessions| && s.sessions[i].send.closed
    ensures var s' := Next(v, s, a);
            i < |s'.sessions| && s'.sessions[i].send.closed && s'.sessions[i].send.wire == s.sessions[i].send.wire
  {
    if a.Write? && a.i == i {
      SendStaysClosed(v, s.sessions[i], a.a);
    }
  }

  /** Once a socket is closed, nothing more ever goes out on it, though the session's replies may be queued. */
  lemma {:induction false} ClosedIsSilent(v: Server, s: System, steps: seq<Step>, i: nat)
    requires IsRun(v, s, steps) && i < |s.sessions| && s.sessions[i].send.closed
    ensures var e := Exec(v, s, steps);
            i < |e.sessions| && e.sessions[i].send.closed && e.sessions[i].send.wire == s.sessions[i].send.wire
    decreases |steps|
  {
    if steps != [] {
      StepStaysClosed(v, s, steps[0], i);
      ClosedIsSilent(v, Next(v, s, steps[0]), steps[1..], i);
    }
  }

  /** In every run: a session's socket is closed if and only if its receiver has given up, over whatever it
      was, or a write has failed; and from then on its wire never grows. */
  lemma GivingUpCloses(v: Server, steps: seq<Step>, more: seq<Step>, i: nat)
    requires IsRun(v, INIT, steps) && IsRun(v, Exec(v, INIT, steps), more) && i < |Exec(v, INIT, steps).sessions|
    ensures var x := Exec(v, INIT, steps).sessions[i];
            && (x.send.closed <==> x.rx.phase.Stopped? || x.send.aborted != [])
            && (x.send.closed ==>
                  var e := Exec(v, Exec(v, INIT, steps), more);
                  i < |e.sessions| && e.sessions[i].send.wire == x.send.wire)
  {
    RunsKeepClosed(v, INIT, steps);
    var s := Exec(v, INIT, steps);
    assert ClosedInv(s.sessions[i]);
    if s.sessions[i].send.closed {
      ClosedIsSilent(v, s, more, i);
    }
  }

  // ----- nobody is held up -----

  /** Whatever the server is doing, clients can connect and send, and any piece of a header, a whole body or an
      error can arrive; a body has to wait while a callback runs. */
  lemma InputIsFree(v: Server, s: System, i: nat, m: Sendable, k: nat)
    requires i < |s.sessions| && RxInv(v.limits, s.sessions[i])
    ensures Enabled(v, s, Connect) && Enabled(v, s, Request(i, m))
    ensures var x := s.sessions[i];
            var left := EncodeAll(x.requests)[|x.rx.consumed|..];
            && (!x.rx.phase.Stopped? ==> Enabled(v, s, Read(i, Receive.ReadFailed)))
            && (x.rx.phase.Head? && 0 < k <= 4 && k <= |left| ==> Enabled(v, s, Read(i, Receive.HeadSome(left[..k]))))
            && (x.rx.phase.Body? && x.rx.phase.len <= |left| && s.worker.Free? ==>
                  Enabled(v, s, Read(i, Receive.BodyFull(left[..x.rx.phase.len]))))
  {
    var x := s.sessions[i];
    var left := EncodeAll(x.requests)[|x.rx.consumed|..];
    assert EncodeAll(x.requests) == x.rx.consumed + left;
    assert x.rx.consumed + [] == x.rx.consumed;
  }

  /** Whatever the worker and other sessions are doing, a session's network threads are held up by its own
      send mutex only. */
  lemma ThreadsAreFree(v: Server, s: System, i: nat, t: T.Tid) returns (a: T.Action<Byte>)
    requires i < |s.sessions| && T.Inv(Threads(v), s.sessions[i].send, s.sessions[i].owner) && t != WORKER
    requires var send := s.sessions[i].send;
             && !T.PcOf(send, t).Idle?
             && (T.PcOf(send, t).SendWait? || T.PcOf(send, t).DoneWait? ==> send.lock.Free?)
    ensures Enabled(v, s, Write(i, a)) && T.PcOf(WithSend(v, s.sessions[i], a).send, t) != T.PcOf(s.sessions[i].send, t)
  {
    a := T.OnlyTheMutexBlocks(Threads(v), s.sessions[i].send, s.sessions[i].owner, t);
  }

  /** And its write in flight by nothing. */
  lemma WritesAreFree(v: Server, s: System, i: nat, t: T.Tid, n: nat)
    requires i < |s.sessions| && t != WORKER
    requires var send := s.sessions[i].send; send.ops != [] && T.PcOf(send, t).Idle?
    ensures var send := s.sessions[i].send;
            && Enabled(v, s, Write(i, T.Abort(0, t)))
            && (send.ops[0].sent == |send.ops[0].node.item| ==> Enabled(v, s, Write(i, T.Done(0, t))))
            && (send.ops[0].sent + n <= |send.ops[0].node.item| && !send.closed ==>
                  Enabled(v, s, Write(i, T.Transfer(0, n))))
  {
  }
}
