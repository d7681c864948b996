/** Exactly when a client can have a reply refused. */
module FullQueue {
  import opened Seqs
  import opened Wire
  import Receive
  import Sender
  import T = SendThreads
  import D = Dispatcher
  import opened Pipeline
  import opened EndToEnd
  import opened Delivery

  /** A run in which the first client keeps to the rule. */
  ghost predicate Drawn(v: Server, steps: seq<Step>, p: Pace) {
    IsRun(v, INIT, steps) && Paced(v, INIT, steps, 0, p)
  }

  lemma {:induction false} Append(v: Server, s: System, steps: seq<Step>, a: Step, p: Pace)
    requires IsRun(v, s, steps) && Paced(v, s, steps, 0, p) && Enabled(v, Exec(v, s, steps), a)
    requires a.Request? && a.i == 0 ==> Allows(p, Exec(v, s, steps), 0)
    ensures IsRun(v, s, steps + [a]) && Paced(v, s, steps + [a], 0, p)
    ensures Exec(v, s, steps + [a]) == Next(v, Exec(v, s, steps), a)
    decreases |steps|
  {
    if steps == [] {
      assert steps + [a] == [a];
      assert Exec(v, Next(v, s, a), []) == Next(v, s, a);
    } else {
      Append(v, Next(v, s, steps[0]), steps[1..], a, p);
      TailOfAppend(steps, [a]);
    }
  }

  lemma Then(v: Server, steps: seq<Step>, a: Step, p: Pace) returns (longer: seq<Step>)
    requires Drawn(v, steps, p) && Enabled(v, Exec(v, INIT, steps), a)
    requires a.Request? && a.i == 0 ==> Allows(p, Exec(v, INIT, steps), 0)
    ensures Drawn(v, longer, p) && Exec(v, INIT, longer) == Next(v, Exec(v, INIT, steps), a)
  {
    longer := steps + [a];
    Append(v, INIT, steps, a, p);
  }

  /** One open session: `n` requests taken in, `k` replies queued, `wire` gone out. */
  ghost predicate Single(s: System, n: nat, k: nat, wire: seq<Byte>) {
    && |s.sessions| == 1
    && var x := s.sessions[0];
       && x.rx.phase.Head? && |x.requests| == n && x.rx.consumed == EncodeAll(x.requests)
       && |x.send.queue| == k && x.send.wire == wire && !x.send.closed
  }

  /** Nobody is doing anything. */
  ghost predicate Idling(s: System, n: nat, k: nat, wire: seq<Byte>) {
    Single(s, n, k, wire) && s.queue == [] && s.worker.Free? && T.Quiet(s.sessions[0].send)
  }

  /** A request has been taken in and posted. */
  ghost predicate Posted(s: System, n: nat, k: nat, wire: seq<Byte>, m: Msg) {
    Single(s, n, k, wire) && s.queue == [D.LogicNode(0, m)] && s.worker.Free? && T.Quiet(s.sessions[0].send)
  }

  /** The worker is inside the critical section of `Send`, and nobody else does anything. */
  ghost predicate Sending(s: System, n: nat, k: nat, wire: seq<Byte>) {
    && Single(s, n, k, wire) && |s.queue| == 1 && s.queue[0].session == 0
    && var send := s.sessions[0].send;
       && send.lock == T.Held(WORKER) && WORKER in send.pcs
       && forall t <- send.pcs :: t != WORKER ==> send.pcs[t].Idle?
  }

  /** The callback's `Send` is done. */
  ghost predicate Returning(s: System, n: nat, k: nat, wire: seq<Byte>) {
    && Single(s, n, k, wire) && |s.queue| == 1 && s.queue[0].session == 0 && s.worker.Decided?
    && T.Quiet(s.sessions[0].send)
  }

  ghost function WorkerPc(s: System): T.Pc<Byte>
    requires |s.sessions| == 1
  {
    T.PcOf(s.sessions[0].send, WORKER)
  }

  lemma TakeIn(v: Server, before: seq<Step>, n: nat, k: nat, wire: seq<Byte>, p: Pace, m: Sendable)
    returns (steps: seq<Step>)
    requires Drawn(v, before, p) && Idling(Exec(v, INIT, before), n, k, wire) && Admissible(v.limits, m)
    requires Allows(p, Exec(v, INIT, before), 0)
    ensures Drawn(v, steps, p) && Posted(Exec(v, INIT, steps), n + 1, k, wire, m)
  {
    var x := Exec(v, INIT, before).sessions[0];
    var head := Frame(m)[..HEAD_TOTAL_LEN];
    EncodeAppend(x.requests, [m]);
    EncodeCons(m, []);
    assert [m] + [] == [m] && Frame(m) + EncodeAll([]) == Frame(m) == head + m.payload;
    Associate(x.rx.consumed, head, m.payload);
    HeaderOfFrame(v.limits, m);
    steps := Then(v, before, Request(0, m), p);
    steps := Then(v, steps, Read(0, Receive.HeadSome(head)), p);
    steps := Then(v, steps, Read(0, Receive.BodyFull(m.payload)), p);
  }

  lemma EnterSend(v: Server, before: seq<Step>, n: nat, k: nat, wire: seq<Byte>, p: Pace, m: Msg)
    returns (steps: seq<Step>)
    requires Drawn(v, before, p) && Posted(Exec(v, INIT, before), n, k, wire, m) && m.id in v.known
    ensures Drawn(v, steps, p) && Sending(Exec(v, INIT, steps), n, k, wire)
    ensures Exec(v, INIT, steps).worker.Calling? && WorkerPc(Exec(v, INIT, steps)).SendIn?
  {
    steps := Then(v, before, Dispatch, p);
    steps := Then(v, steps, Write(0, T.Acquire(WORKER)), p);
  }

  lemma Refuse(v: Server, before: seq<Step>, n: nat, wire: seq<Byte>, p: Pace) returns (steps: seq<Step>)
    requires Drawn(v, before, p) && Sending(Exec(v, INIT, before), n, Sender.MAX_SENDQUE + 1, wire)
    requires Exec(v, INIT, before).worker.Calling? && WorkerPc(Exec(v, INIT, before)).SendIn?
    ensures Drawn(v, steps, p) && Sending(Exec(v, INIT, steps), n, Sender.MAX_SENDQUE + 1, wire)
    ensures var s := Exec(v, INIT, steps); s.worker.Decided? && WorkerPc(s).Leave? && !NeverFull(s, 0)
  {
    steps := Then(v, before, Write(0, T.Measure(WORKER)), p);
    ghost var log := Exec(v, INIT, steps).log;
    assert log[|log| - 1] in log;
  }

  lemma Accept(v: Server, before: seq<Step>, n: nat, k: nat, wire: seq<Byte>, p: Pace) returns (steps: seq<Step>)
    requires Drawn(v, before, p) && Sending(Exec(v, INIT, before), n, k, wire) && k <= Sender.MAX_SENDQUE
    requires Exec(v, INIT, before).worker.Calling? && WorkerPc(Exec(v, INIT, before)).SendIn?
    ensures Drawn(v, steps, p) && Sending(Exec(v, INIT, steps), n, k + 1, wire)
    ensures var s := Exec(v, INIT, steps); s.worker.Decided? && (WorkerPc(s).Leave? || WorkerPc(s).Got?)
  {
    steps := Then(v, before, Write(0, T.Measure(WORKER)), p);
    steps := Then(v, steps, Write(0, T.Push(WORKER)), p);
  }

  /** `Send` is left; the write is started before or after the unlock, if one is due. */
  lemma LeaveSend(v: Server, before: seq<Step>, n: nat, k: nat, wire: seq<Byte>, p: Pace) returns (steps: seq<Step>)
    requires Drawn(v, before, p) && Sending(Exec(v, INIT, before), n, k, wire)
    requires var s := Exec(v, INIT, before); s.worker.Decided? && (WorkerPc(s).Leave? || WorkerPc(s).Got?)
    ensures Drawn(v, steps, p) && Exec(v, INIT, steps).log == Exec(v, INIT, before).log
    ensures Returning(Exec(v, INIT, steps), n, k, wire)
  {
    steps := before;
    if WorkerPc(Exec(v, INIT, before)).Got? && v.startUnderLock {
      steps := StartWrite(v, steps, n, k, wire, p);
    }
    if WorkerPc(Exec(v, INIT, steps)).Got? {
      steps := LeaveAndStart(v, steps, n, k, wire, p);
    } else {
      steps := Unlock(v, steps, n, k, wire, p);
    }
  }

  lemma Unlock(v: Server, before: seq<Step>, n: nat, k: nat, wire: seq<Byte>, p: Pace) returns (steps: seq<Step>)
    requires Drawn(v, before, p) && Sending(Exec(v, INIT, before), n, k, wire)
    requires var s := Exec(v, INIT, before); s.worker.Decided? && WorkerPc(s).Leave?
    ensures Drawn(v, steps, p) && Exec(v, INIT, steps).log == Exec(v, INIT, before).log
    ensures Returning(Exec(v, INIT, steps), n, k, wire)
  {
    steps := Then(v, before, Write(0, T.Unlock(WORKER)), p);
  }

  lemma StartWrite(v: Server, before: seq<Step>, n: nat, k: nat, wire: seq<Byte>, p: Pace) returns (steps: seq<Step>)
    requires Drawn(v, before, p) && Sending(Exec(v, INIT, before), n, k, wire)
    requires var s := Exec(v, INIT, before); s.worker.Decided? && WorkerPc(s).Got? && v.startUnderLock
    ensures Drawn(v, steps, p) && Exec(v, INIT, steps).log == Exec(v, INIT, before).log
    ensures var s := Exec(v, INIT, steps); Sending(s, n, k, wire) && s.worker.Decided? && WorkerPc(s).Leave?
  {
    steps := Then(v, before, Write(0, T.Begin(WORKER)), p);
  }

  lemma LeaveAndStart(v: Server, before: seq<Step>, n: nat, k: nat, wire: seq<Byte>, p: Pace) returns (steps: seq<Step>)
    requires Drawn(v, before, p) && Sending(Exec(v, INIT, before), n, k, wire)
    requires var s := Exec(v, INIT, before); s.worker.Decided? && WorkerPc(s).Got? && !v.startUnderLock
    ensures Drawn(v, steps, p) && Exec(v, INIT, steps).log == Exec(v, INIT, before).log
    ensures Returning(Exec(v, INIT, steps), n, k, wire)
  {
    steps := Then(v, before, Write(0, T.Unlock(WORKER)), p);
    steps := Then(v, steps, Write(0, T.Begin(WORKER)), p);
  }

  lemma Finish(v: Server, before: seq<Step>, n: nat, k: nat, wire: seq<Byte>, p: Pace) returns (steps: seq<Step>)
    requires Drawn(v, before, p) && Returning(Exec(v, INIT, before), n, k, wire)
    ensures Drawn(v, steps, p) && Exec(v, INIT, steps).log == Exec(v, INIT, before).log
    ensures Idling(Exec(v, INIT, steps), n, k, wire)
  {
    steps := Then(v, before, Return, p);
  }

  /** `n` requests that nobody reads the replies of. */
  lemma {:induction false} Flood(v: Server, m: Sendable, n: nat, p: Pace) returns (steps: seq<Step>)
    requires Admissible(v.limits, m) && m.id in v.known && (n <= p.first || n <= p.window)
    ensures Drawn(v, steps, p)
    ensures Idling(Exec(v, INIT, steps), n, if n <= Sender.MAX_SENDQUE + 1 then n else Sender.MAX_SENDQUE + 1, [])
    ensures n > Sender.MAX_SENDQUE + 1 ==> !NeverFull(Exec(v, INIT, steps), 0)
  {
    if n == 0 {
      steps := Then(v, [], Connect, p);
    } else {
      var k := if n - 1 <= Sender.MAX_SENDQUE + 1 then n - 1 else Sender.MAX_SENDQUE + 1;
      steps := Flood(v, m, n - 1, p);
      steps := TakeIn(v, steps, n - 1, k, [], p, m);
      steps := EnterSend(v, steps, n, k, [], p, m);
      if k == Sender.MAX_SENDQUE + 1 {
        steps := Refuse(v, steps, n, [], p);
      } else {
        steps := Accept(v, steps, n, k, [], p);
        k := k + 1;
      }
      steps := LeaveSend(v, steps, n, k, [], p);
      steps := Finish(v, steps, n, k, [], p);
    }
  }

  /** The whole front item goes out, so that the client can decode it, and its handler has not run yet. */
  lemma SendFront(v: Server, before: seq<Step>, n: nat, k: nat, p: Pace) returns (steps: seq<Step>, wire: seq<Byte>)
    requires Drawn(v, before, p) && Idling(Exec(v, INIT, before), n, k, []) && k > 0
    ensures Drawn(v, steps, p) && Idling(Exec(v, INIT, steps), n, k, wire)
    ensures |Decoded(Exec(v, INIT, steps), 0)| >= 1
  {
    FrontWrite(v, before);
    var op := Exec(v, INIT, before).sessions[0].send.ops[0];
    steps, wire := SendBytes(v, before, n, k, |op.node.item| - op.sent, p);
    FrontDecodes(v, steps);
  }

  lemma FrontWrite(v: Server, steps: seq<Step>)
    requires IsRun(v, INIT, steps) && |Exec(v, INIT, steps).sessions| == 1
    requires var send := Exec(v, INIT, steps).sessions[0].send;
             T.Quiet(send) && send.queue != [] && !send.closed
    ensures var send := Exec(v, INIT, steps).sessions[0].send;
            |send.ops| == 1 && send.ops[0].sent <= |send.ops[0].node.item|
  {
    RunsKeepInv(v, INIT, steps);
    WriteInFlight(v, Exec(v, INIT, steps).sessions);
  }

  lemma FrontDecodes(v: Server, steps: seq<Step>)
    requires IsRun(v, INIT, steps) && |Exec(v, INIT, steps).sessions| == 1
    requires var send := Exec(v, INIT, steps).sessions[0].send;
             |send.ops| == 1 && send.ops[0].sent == |send.ops[0].node.item|
    ensures |Decoded(Exec(v, INIT, steps), 0)| >= 1
  {
    RunsKeepInv(v, INIT, steps);
    RunsKeepPlaced(v, INIT, steps);
    FrontIsDecoded(v, Exec(v, INIT, steps));
  }

  lemma SendBytes(v: Server, before: seq<Step>, n: nat, k: nat, j: nat, p: Pace)
    returns (steps: seq<Step>, wire: seq<Byte>)
    requires Drawn(v, before, p) && Idling(Exec(v, INIT, before), n, k, [])
    requires Enabled(v, Exec(v, INIT, before), Write(0, T.Transfer(0, j)))
    ensures Drawn(v, steps, p) && Idling(Exec(v, INIT, steps), n, k, wire)
    ensures var was, now := Exec(v, INIT, before).sessions[0].send.ops, Exec(v, INIT, steps).sessions[0].send.ops;
            |now| == |was| && now[0] == was[0].(sent := was[0].sent + j)
  {
    steps := Then(v, before, Write(0, T.Transfer(0, j)), p);
    wire := Exec(v, INIT, steps).sessions[0].send.wire;
  }

  lemma WriteInFlight(v: Server, xs: seq<Session>)
    requires SendInvs(v, xs) && |xs| == 1
    requires T.Quiet(xs[0].send) && xs[0].send.queue != [] && !xs[0].send.closed
    ensures |xs[0].send.ops| == 1 && xs[0].send.ops[0].sent <= |xs[0].send.ops[0].node.item|
  {
    assert SendInv(Threads(v), xs[0].send, xs[0].owner);
  }

  lemma FrontIsDecoded(v: Server, s: System)
    requires HistoryInvs(v, s) && Placed(s.sessions) && |s.sessions| == 1
    requires var send := s.sessions[0].send;
             |send.ops| == 1 && send.ops[0].sent == |send.ops[0].node.item|
    ensures |Decoded(s, 0)| >= 1
  {
    var x := s.sessions[0];
    assert HistoryInv(v, 0, x, s.posted, s.log) && PlaceInv(x.send, x.owner);
    WireHoldsFront(Handled(v, Answered(0, s.log)), T.View(x.send, x.owner));
  }

  lemma WireHoldsFront(replies: seq<Msg>, send: Sender.State<Byte>)
    requires Sender.InPlace(send) && send.accepted == Frames(replies)
    requires send.queue != [] && send.sent == |send.queue[0]|
    ensures |Decode(CLIENT_LIMITS, send.wire).0| >= 1
  {
    var n := |replies| - |send.queue|;
    TakeOneMore(send.accepted, n);
    ConcatPush(send.accepted[..n], send.accepted[n]);
    assert send.queue[0][..send.sent] == send.queue[0];
    assert Frames(replies[..n + 1]) == send.accepted[..n + 1];
    ClientDecodesAll(replies[..n + 1]);
  }

  /** With a wider window a client can overtake its own queue. */
  lemma Overtake(v: Server, m: Sendable, p: Pace) returns (steps: seq<Step>)
    requires Admissible(v.limits, m) && m.id in v.known && p.window > Sender.MAX_SENDQUE
    ensures Drawn(v, steps, p) && !NeverFull(Exec(v, INIT, steps), 0)
  {
    var k, wire := Sender.MAX_SENDQUE + 1, [];
    steps := Flood(v, m, k, p);
    steps, wire := SendFront(v, steps, k, k, p);
    steps := TakeIn(v, steps, k, k, wire, p, m);
    steps := EnterSend(v, steps, k + 1, k, wire, p, m);
    steps := Refuse(v, steps, k + 1, wire, p);
  }

  /** Whatever the server, if it has a callback for some acceptable request: keeping to a rule rules out
      refused replies if and only if the rule allows at most MAX_SENDQUE + 1 requests for a start and later
      at most MAX_SENDQUE undecoded ones. */
  lemma PaceIff(v: Server, m: Sendable, p: Pace)
    requires Admissible(v.limits, m) && m.id in v.known
    ensures (forall steps | Drawn(v, steps, p) :: NeverFull(Exec(v, INIT, steps), 0)) <==>
            p.first <= 1001 && p.window <= 1000
  {
    if p.first > Sender.MAX_SENDQUE + 1 {
      var steps := Flood(v, m, Sender.MAX_SENDQUE + 2, p);
      assert Drawn(v, steps, p);
    } else if p.window > Sender.MAX_SENDQUE {
      var steps := Overtake(v, m, p);
      assert Drawn(v, steps, p);
    } else {
      forall steps | Drawn(v, steps, p) ensures NeverFull(Exec(v, INIT, steps), 0) {
        PacedAreNeverRefused(v, steps, 0, p);
      }
    }
  }

  /** A run in which the first client has sent `n` requests and a reply to it has been refused. */
  ghost predicate Refuses(v: Server, steps: seq<Step>, n: nat) {
    IsRun(v, INIT, steps)
    && var s := Exec(v, INIT, steps);
       s.sessions != [] && |s.sessions[0].requests| == n && !NeverFull(s, 0)
  }

  /** Whatever the server, if it has a callback at all for some acceptable request: a client of `n` requests
      can have a reply refused if and only if `n` is more than MAX_SENDQUE + 1. */
  lemma RefusableIff(v: Server, m: Sendable, n: nat)
    requires Admissible(v.limits, m) && m.id in v.known
    ensures (exists steps :: Refuses(v, steps, n)) <==> n > 1001
  {
    if n > Sender.MAX_SENDQUE + 1 {
      var steps := Flood(v, m, n, Pace(n, 0));
      assert Refuses(v, steps, n);
    } else if steps :| Refuses(v, steps, n) {
      FewAreNeverRefused(v, steps, 0);
    }
  }
}
