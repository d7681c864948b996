/** The pipeline comes to rest, and what every client has then. */
module Delivery {
  import opened Seqs
  import opened Wire
  import Receive
  import Sender
  import T = SendThreads
  import D = Dispatcher
  import opened Pipeline
  import opened EndToEnd

  // ----- the work left -----

  ghost function Minus(a: nat, b: nat): nat {
    if a < b then 0 else a - b
  }

  const PER_ITEM := 10
  const PER_MESSAGE := 0x8000 + 100

  /** What is ahead of whoever owns the write token, up to its next pop. */
  ghost function OwnerWork(send: T.State<Byte>, w: T.Owner): nat {
    match w
    case Nobody => 0
    case Kernel => 10
    case Thread(t) =>
      match T.PcOf(send, t)
      case DoneWait => 9
      case DoneIn => 8
      case Popped => 14
      case Got(_) => 13
      case Start(_) => 12
      case _ => 0
  }

  /** What is ahead of the worker inside `Send`, the work for the new item included. */
  ghost function CallWork(pc: T.Pc<Byte>): nat {
    match pc
    case SendWait(x) => |x| + PER_ITEM + 16
    case SendIn(x) => |x| + PER_ITEM + 15
    case Sized(x, _) => |x| + PER_ITEM + 14
    case _ => 0
  }

  ghost function LeaveWork(send: T.State<Byte>): nat {
    if send.lock.Held? && T.PcOf(send, send.lock.t).Leave? then 1 else 0
  }

  ghost function SendWork(send: T.State<Byte>, w: T.Owner): nat {
    Minus(|Concat(send.accepted)|, |send.wire|) + PER_ITEM * |send.queue|
    + OwnerWork(send, w) + LeaveWork(send) + CallWork(T.PcOf(send, WORKER))
  }

  ghost function PhaseWork(p: Phase): nat {
    match p
    case Head => 1
    case Body(_, _) => PER_MESSAGE + 2
    case Stopped(_) => 0
  }

  ghost function RxWork(requests: seq<Msg>, rx: Receive.State): nat {
    (PER_MESSAGE + 2) * Minus(|EncodeAll(requests)|, |rx.consumed|) + PhaseWork(rx.phase)
  }

  ghost function SessionWork(x: Session): nat {
    RxWork(x.requests, x.rx) + SendWork(x.send, x.owner)
  }

  ghost function Total(xs: seq<Session>): nat {
    if xs == [] then 0 else SessionWork(xs[0]) + Total(xs[1..])
  }

  ghost function QueueWork(w: Worker, n: nat): int {
    match w
    case Free => PER_MESSAGE * n
    case Calling => PER_MESSAGE * (n - 1) + 2
    case Decided => PER_MESSAGE * (n - 1) + 1
  }

  ghost function Work(s: System): int {
    Total(s.sessions) + QueueWork(s.worker, |s.queue|)
  }

  lemma {:induction false} TotalReplace(xs: seq<Session>, i: nat, x: Session)
    requires i < |xs|
    ensures Total(xs[i := x]) == Total(xs) - SessionWork(xs[i]) + SessionWork(x)
  {
    if i == 0 {
      assert xs[0 := x][1..] == xs[1..];
    } else {
      TotalReplace(xs[1..], i - 1, x);
      assert xs[i := x][1..] == xs[1..][i - 1 := x];
    }
  }

  // ----- every step that is not an input does some of it -----

  lemma SectionDoesWork(c: T.Config, send: T.State<Byte>, w: T.Owner, a: T.Action<Byte>)
    requires T.Inv(c, send, w) && T.Enabled(c, send, a) && OnlyWorkerSends(send)
    requires a.Pop? || a.Front? || a.Begin? || a.Unlock?
    ensures SendWork(T.Next(c, send, a), T.NextOwner(c, send, w, a)) < SendWork(send, w)
  {
  }

  lemma CallDoesWork(c: T.Config, send: T.State<Byte>, w: T.Owner, a: T.Action<Byte>)
    requires T.Inv(c, send, w) && T.Enabled(c, send, a) && OnlyWorkerSends(send)
    requires a.Acquire? || a.Measure?
    ensures SendWork(T.Next(c, send, a), T.NextOwner(c, send, w, a)) < SendWork(send, w)
  {
  }

  lemma PushDoesWork(c: T.Config, send: T.State<Byte>, w: T.Owner, t: T.Tid)
    requires T.Inv(c, send, w) && T.Enabled(c, send, T.Push(t)) && OnlyWorkerSends(send)
    ensures SendWork(T.Next(c, send, T.Push(t)), T.NextOwner(c, send, w, T.Push(t))) < SendWork(send, w)
  {
    ConcatPush(send.accepted, send.pcs[t].item);
  }

  lemma KernelDoesWork(c: T.Config, send: T.State<Byte>, w: T.Owner, a: T.Action<Byte>)
    requires T.Inv(c, send, w) && T.Enabled(c, send, a) && OnlyWorkerSends(send)
    requires a.Done? || a.Abort? || (a.Transfer? && a.n > 0)
    requires T.Next(c, send, a).wire <= Concat(send.accepted)
    ensures SendWork(T.Next(c, send, a), T.NextOwner(c, send, w, a)) < SendWork(send, w)
  {
  }

  lemma SendStepDoesWork(v: Server, x: Session, a: T.Action<Byte>)
    requires SendInv(Threads(v), x.send, x.owner) && T.Enabled(Threads(v), x.send, a) && OnlyWorkerSends(x.send)
    requires !a.Call? && !a.CloseSocket? && (a.Transfer? ==> a.n > 0)
    ensures SessionWork(WithSend(v, x, a)) < SessionWork(x)
  {
    var c := Threads(v);
    if a.Acquire? || a.Measure? {
      CallDoesWork(c, x.send, x.owner, a);
    } else if a.Push? {
      PushDoesWork(c, x.send, x.owner, a.t);
    } else if a.Pop? || a.Front? || a.Begin? || a.Unlock? {
      SectionDoesWork(c, x.send, x.owner, a);
    } else if a.Done? || a.Abort? || a.Transfer? {
      SendKeeps(v, x, a);
      WireOfReplies(c, T.Next(c, x.send, a), T.NextOwner(c, x.send, x.owner, a));
      KernelDoesWork(c, x.send, x.owner, a);
    }
  }

  lemma CallAddsWork(v: Server, x: Session, item: seq<Byte>)
    requires T.Inv(Threads(v), x.send, x.owner) && T.Enabled(Threads(v), x.send, T.Call(WORKER, item))
    ensures SessionWork(WithSend(v, x, T.Call(WORKER, item))) == SessionWork(x) + |item| + PER_ITEM + 16
  {
  }

  lemma ReadDoesWork(v: Server, s: System, i: nat, e: Receive.Event)
    requires Enabled(v, s, Read(i, e))
    ensures SessionWork(ReadStep(v, s, i, e).sessions[i]) + (if e.BodyFull? then PER_MESSAGE else 0)
            < SessionWork(s.sessions[i])
  {
  }

  /** Everything but a new connection, a new request and a transfer of no bytes. */
  predicate Internal(a: Step) {
    !a.Connect? && !a.Request? && (a.Write? && a.a.Transfer? ==> a.a.n > 0)
  }

  lemma ReadStepDoesWork(v: Server, s: System, i: nat, e: Receive.Event)
    requires Enabled(v, s, Read(i, e))
    ensures Work(ReadStep(v, s, i, e)) < Work(s)
  {
    ReadDoesWork(v, s, i, e);
    TotalReplace(s.sessions, i, ReadStep(v, s, i, e).sessions[i]);
  }

  lemma DispatchDoesWork(v: Server, s: System)
    requires SendInvs(v, s.sessions) && Enabled(v, s, Dispatch)
    ensures Work(DispatchStep(v, s)) < Work(s)
  {
    if s.queue[0].msg.id in v.known {
      var i, item := s.queue[0].session, Frame(v.handler(s.queue[0].msg));
      CallAddsWork(v, s.sessions[i], item);
      TotalReplace(s.sessions, i, WithSend(v, s.sessions[i], T.Call(WORKER, item)));
    }
  }

  /** While it is in `Send`, the worker is in a callback whose outcome is open. */
  lemma DecidesWhileCalling(v: Server, s: System, i: nat, a: T.Action<Byte>)
    requires CallInvs(v, s) && Enabled(v, s, Write(i, a)) && Decides(s, i, a)
    ensures s.worker.Calling? && s.queue != [] && s.queue[0].session == i
  {
    assert CallInv(v, s.worker, s.queue, i, T.PcOf(s.sessions[i].send, WORKER));
  }

  lemma WriteParts(v: Server, s: System, i: nat, a: T.Action<Byte>)
    requires Enabled(v, s, Write(i, a)) && (Decides(s, i, a) ==> s.worker.Calling?)
    ensures var s' := WriteStep(v, s, i, a);
            && s'.sessions == s.sessions[i := WithSend(v, s.sessions[i], a)]
            && QueueWork(s'.worker, |s'.queue|) <= QueueWork(s.worker, |s.queue|)
  {
  }

  lemma WriteDoesWork(v: Server, s: System, i: nat, a: T.Action<Byte>)
    requires i < |s.sessions| && SendInv(Threads(v), s.sessions[i].send, s.sessions[i].owner)
    requires OnlyWorkerSends(s.sessions[i].send) && (Decides(s, i, a) ==> s.worker.Calling?)
    requires Enabled(v, s, Write(i, a)) && (a.Transfer? ==> a.n > 0)
    ensures Work(WriteStep(v, s, i, a)) < Work(s)
  {
    var x := s.sessions[i];
    SendStepDoesWork(v, x, a);
    TotalReplace(s.sessions, i, WithSend(v, x, a));
    WriteParts(v, s, i, a);
  }

  lemma StepDoesWork(v: Server, s: System, a: Step)
    requires Inv(v, s) && Enabled(v, s, a) && Internal(a)
    ensures Work(Next(v, s, a)) < Work(s)
  {
    match a
    case Read(i, e) => ReadStepDoesWork(v, s, i, e);
    case Dispatch => DispatchDoesWork(v, s);
    case Write(i, b) =>
      if Decides(s, i, b) {
        DecidesWhileCalling(v, s, i, b);
      }
      WriteDoesWork(v, s, i, b);
    case Return =>
  }

  predicate AllInternal(steps: seq<Step>) {
    steps != [] ==> Internal(steps[0]) && AllInternal(steps[1..])
  }

  /** Termination: without new input the pipeline makes only finitely many steps, whatever the threads,
      the network and errors do, and their number is bounded beforehand by the work at hand. */
  lemma {:induction false} RunsTerminate(v: Server, s: System, more: seq<Step>)
    requires Inv(v, s) && IsRun(v, s, more) && AllInternal(more)
    ensures |more| <= Work(s)
    decreases |more|
  {
    if more == [] {
      WorkIsNatural(v, s);
    } else {
      StepDoesWork(v, s, more[0]);
      StepKeepsInv(v, s, more[0]);
      RunsTerminate(v, Next(v, s, more[0]), more[1..]);
    }
  }

  lemma WorkIsNatural(v: Server, s: System)
    requires LogInv(v, s)
    ensures 0 <= Work(s)
  {
  }

  /** No step of the given kind is possible. */
  ghost predicate AtRest(v: Server, s: System, kind: Step -> bool) {
    forall a :: kind(a) ==> !Enabled(v, s, a)
  }

  lemma AdvanceDoesWork(v: Server, s: System, a: Step)
    requires Inv(v, s) && Enabled(v, s, a) && Advances(a)
    ensures Inv(v, Next(v, s, a)) && Work(Next(v, s, a)) < Work(s)
  {
    StepDoesWork(v, s, a);
    StepKeepsInv(v, s, a);
  }

  /** By advancing in any given way, the pipeline comes to where it can advance no more in that way. */
  lemma {:induction false} RestIsReached(v: Server, s: System, kind: Step -> bool) returns (more: seq<Step>)
    requires Inv(v, s) && forall a :: kind(a) ==> Advances(a)
    ensures IsRun(v, s, more) && AtRest(v, Exec(v, s, more), kind) && forall a <- more :: kind(a)
    decreases Work(s)
  {
    WorkIsNatural(v, s);
    more := [];
    if a :| kind(a) && Enabled(v, s, a) {
      AdvanceDoesWork(v, s, a);
      more := RestIsReached(v, Next(v, s, a), kind);
      TailOfAppend([a], more);
      more := [a] + more;
    }
  }

  // ----- a client that paces itself never fills its send queue -----

  ghost function Decoded(s: System, i: nat): seq<Msg>
    requires i < |s.sessions|
  {
    Decode(CLIENT_LIMITS, s.sessions[i].send.wire).0
  }

  /** A client's rule: the first `first` requests are free; a later one is sent only if fewer than `window`
      requests would go without a decoded reply before it. */
  datatype Pace = Pace(first: nat, window: nat)

  const SAFE := Pace(Sender.MAX_SENDQUE + 1, Sender.MAX_SENDQUE)

  ghost predicate Allows(p: Pace, s: System, i: nat)
    requires i < |s.sessions|
  {
    |s.sessions[i].requests| < p.first || |s.sessions[i].requests| < |Decoded(s, i)| + p.window
  }

  ghost predicate Paced(v: Server, s: System, steps: seq<Step>, i: nat, p: Pace)
    requires IsRun(v, s, steps)
    decreases |steps|
  {
    steps != [] ==>
      && (steps[0].Request? && steps[0].i == i ==> Allows(p, s, i))
      && Paced(v, Next(v, s, steps[0]), steps[1..], i, p)
  }

  /** What the rule keeps true. */
  ghost predicate OnPace(p: Pace, s: System, i: nat) {
    i < |s.sessions| ==>
      |s.sessions[i].requests| <= p.first || |s.sessions[i].requests| <= |Decoded(s, i)| + p.window
  }

  lemma RequestsGrow(v: Server, s: System, a: Step, i: nat)
    requires Enabled(v, s, a) && i < |s.sessions|
    ensures i < |Next(v, s, a).sessions|
    ensures |Next(v, s, a).sessions[i].requests|
            == |s.sessions[i].requests| + if a.Request? && a.i == i then 1 else 0
  {
  }

  lemma SendGrows(v: Server, x: Session, a: T.Action<Byte>)
    requires T.Enabled(Threads(v), x.send, a)
    ensures x.send.wire <= WithSend(v, x, a).send.wire
  {
  }

  lemma WireGrows(v: Server, s: System, a: Step, i: nat)
    requires Enabled(v, s, a) && i < |s.sessions|
    ensures i < |Next(v, s, a).sessions| && s.sessions[i].send.wire <= Next(v, s, a).sessions[i].send.wire
  {
    if a.Write? {
      SendGrows(v, s.sessions[a.i], a.a);
    }
  }

  lemma StepKeepsPace(v: Server, s: System, a: Step, i: nat, p: Pace)
    requires Enabled(v, s, a) && OnPace(p, s, i)
    requires a.Request? && a.i == i ==> Allows(p, s, i)
    ensures OnPace(p, Next(v, s, a), i)
  {
    if i < |s.sessions| {
      RequestsGrow(v, s, a, i);
      WireGrows(v, s, a, i);
      DecodeMonotone(CLIENT_LIMITS, s.sessions[i].send.wire, Next(v, s, a).sessions[i].send.wire);
    }
  }

  /** Every session's wire ends inside the item in front of its queue. */
  ghost predicate PlaceInv(send: T.State<Byte>, owner: T.Owner) {
    T.TokenInv(send, owner) && Sender.InPlace(T.View(send, owner))
  }

  ghost predicate Placed(xs: seq<Session>) {
    forall i | 0 <= i < |xs| :: PlaceInv(xs[i].send, xs[i].owner)
  }

  lemma ReplaceKeepsPlaced(xs: seq<Session>, i: nat, x: Session)
    requires Placed(xs) && i < |xs| && PlaceInv(x.send, x.owner)
    ensures Placed(xs[i := x])
  {
  }

  lemma SendKeepsPlaced(v: Server, xs: seq<Session>, i: nat, x: Session, a: T.Action<Byte>)
    requires Placed(xs) && i < |xs| && SendInv(Threads(v), x.send, x.owner) && T.Enabled(Threads(v), x.send, a)
    requires x.send == xs[i].send && x.owner == xs[i].owner
    ensures Placed(xs[i := WithSend(v, x, a)])
  {
    T.StepIsAtomicRun(Threads(v), x.send, x.owner, a);
    Sender.RunsKeepPlace(Sender.BOUND, T.View(x.send, x.owner), T.Mimic(Threads(v), x.send, a));
    ReplaceKeepsPlaced(xs, i, WithSend(v, x, a));
  }

  lemma ConnectKeepsPlaced(xs: seq<Session>)
    requires Placed(xs)
    ensures Placed(xs + [FRESH])
  {
    Sender.InitInPlace<Byte>();
    assert T.View(FRESH.send, FRESH.owner) == Sender.Init();
  }

  lemma ReadKeepsPlaced(v: Server, s: System, i: nat, e: Receive.Event)
    requires SendInvs(v, s.sessions) && Placed(s.sessions) && Enabled(v, s, Read(i, e))
    ensures Placed(ReadStep(v, s, i, e).sessions)
  {
    var x := s.sessions[i].(rx := Receive.Next(v.limits, s.sessions[i].rx, e));
    if x.rx.phase.Stopped? {
      SendKeepsPlaced(v, s.sessions, i, x, T.CloseSocket);
    } else {
      ReplaceKeepsPlaced(s.sessions, i, x);
    }
  }

  lemma StepKeepsPlaced(v: Server, s: System, a: Step)
    requires SendInvs(v, s.sessions) && Placed(s.sessions) && Enabled(v, s, a)
    ensures Placed(Next(v, s, a).sessions)
  {
    match a
    case Connect => ConnectKeepsPlaced(s.sessions);
    case Request(i, m) => ReplaceKeepsPlaced(s.sessions, i, Next(v, s, a).sessions[i]);
    case Read(i, e) => ReadKeepsPlaced(v, s, i, e);
    case Dispatch =>
      if s.queue[0].msg.id in v.known {
        var i := s.queue[0].session;
        SendKeepsPlaced(v, s.sessions, i, s.sessions[i], T.Call(WORKER, Frame(v.handler(s.queue[0].msg))));
      }
    case Write(i, b) => SendKeepsPlaced(v, s.sessions, i, s.sessions[i], b);
    case Return =>
  }

  lemma {:induction false} RunsKeepPlaced(v: Server, s: System, steps: seq<Step>)
    requires Inv(v, s) && Placed(s.sessions) && IsRun(v, s, steps)
    ensures Placed(Exec(v, s, steps).sessions)
    decreases |steps|
  {
    if steps != [] {
      StepKeepsPlaced(v, s, steps[0]);
      StepKeepsInv(v, s, steps[0]);
      RunsKeepPlaced(v, Next(v, s, steps[0]), steps[1..]);
    }
  }

  /** What the client decodes are the items that have left the queue, and at most the front. */
  lemma DecodedAreSent(v: Server, s: System, i: nat)
    requires HistoryInvs(v, s) && Placed(s.sessions) && i < |s.sessions|
    ensures |Decoded(s, i)| + |s.sessions[i].send.queue| <= |Answered(i, s.log)| + 1
  {
    var x := s.sessions[i];
    assert HistoryInv(v, i, x, s.posted, s.log) && PlaceInv(x.send, x.owner);
    var replies := Handled(v, Answered(i, s.log));
    WireInPlace(replies, T.View(x.send, x.owner));
  }

  lemma WireInPlace(replies: seq<Msg>, send: Sender.State<Byte>)
    requires Sender.InPlace(send) && send.accepted == Frames(replies)
    ensures |Decode(CLIENT_LIMITS, send.wire).0| + |send.queue| <= |replies| + 1
  {
    var n := |replies| - |send.queue|;
    var k := if send.queue == [] then n else n + 1;
    assert send.wire <= EncodeAll(replies[..k]) by {
      assert Frames(replies[..n]) == send.accepted[..n];
      if send.queue != [] {
        TakeOneMore(send.accepted, n);
        ConcatPush(send.accepted[..n], send.accepted[n]);
        assert Frames(replies[..k]) == send.accepted[..k];
      }
    }
    DecodeMonotone(CLIENT_LIMITS, send.wire, EncodeAll(replies[..k]));
    ClientDecodesAll(replies[..k]);
  }

  /** A reply is refused only to a client that has sent more requests than fit into its queue, and is more
      than MAX_SENDQUE requests ahead of what it can decode. */
  lemma RefusalIsLate(v: Server, s: System, i: nat)
    requires Inv(v, s) && Placed(s.sessions)
    requires i < |s.sessions| && s.worker.Calling? && s.queue[0].session == i
    requires Sender.Full(Sender.BOUND, |s.sessions[i].send.queue|)
    ensures |s.sessions[i].requests| > Sender.MAX_SENDQUE + 1
    ensures |s.sessions[i].requests| > |Decoded(s, i)| + Sender.MAX_SENDQUE
  {
    AnsweredBeforeFront(v, s, i);
    FewPosts(v, s, i);
    DecodedAreSent(v, s, i);
    FullSize(Threads(v), s.sessions[i].send, s.sessions[i].owner);
    ItemsAreAnswers(v, s, i);
  }

  lemma AnsweredBeforeFront(v: Server, s: System, i: nat)
    requires LogInv(v, s) && s.worker.Calling? && s.queue[0].session == i
    ensures |Answered(i, s.log)| < |Of(i, s.posted)|
  {
    AnsweredIsSubsequence(i, s.log);
    SubsequenceIsShorter(Answered(i, s.log), Of(i, Nodes(s.log)));
    OfPush(i, Nodes(s.log), s.queue[0]);
    HeadTail(s.queue);
    Associate(Nodes(s.log), [s.queue[0]], s.queue[1..]);
    OfPrefix(i, Nodes(s.log) + [s.queue[0]], s.posted);
  }

  lemma ItemsAreAnswers(v: Server, s: System, i: nat)
    requires HistoryInvs(v, s) && Placed(s.sessions) && i < |s.sessions|
    ensures |s.sessions[i].send.queue| <= |Answered(i, s.log)|
  {
    var x := s.sessions[i];
    assert HistoryInv(v, i, x, s.posted, s.log) && PlaceInv(x.send, x.owner);
    assert |T.View(x.send, x.owner).queue| == |x.send.queue|;
  }

  lemma FewPosts(v: Server, s: System, i: nat)
    requires RxInvs(v, s.sessions) && HistoryInvs(v, s) && i < |s.sessions|
    ensures |Of(i, s.posted)| <= |s.sessions[i].requests|
  {
    assert HistoryInv(v, i, s.sessions[i], s.posted, s.log);
    PostedUntilRefused(v.limits, s.sessions[i]);
  }

  /** The records that a step adds. */
  lemma RecordsOfStep(v: Server, s: System, a: Step)
    requires Enabled(v, s, a)
    ensures forall e <- Next(v, s, a).log | e !in s.log && e.out.QueueFull? ::
              && s.queue != [] && e.node == s.queue[0]
              && a.Write? && a.a == T.Measure(WORKER) && Decides(s, a.i, a.a)
  {
  }

  /** Only the worker's refusal of a reply to session `i` adds such a record. */
  lemma OthersRefuseNothing(v: Server, s: System, a: Step, i: nat)
    requires CallInvs(v, s) && Enabled(v, s, a) && NeverFull(s, i)
    requires a.Write? && a.a == T.Measure(WORKER) && Decides(s, a.i, a.a) ==> a.i != i
    ensures NeverFull(Next(v, s, a), i)
  {
    if a.Write? && Decides(s, a.i, a.a) {
      DecidesWhileCalling(v, s, a.i, a.a);
    }
    RecordsOfStep(v, s, a);
  }

  lemma PacedStep(v: Server, s: System, a: Step, i: nat, p: Pace)
    requires Inv(v, s) && Placed(s.sessions) && Enabled(v, s, a) && NeverFull(s, i) && OnPace(p, s, i)
    requires p.first <= SAFE.first && p.window <= SAFE.window
    requires a.Request? && a.i == i ==> Allows(p, s, i)
    ensures var e := Next(v, s, a); Inv(v, e) && OnPace(p, e, i) && NeverFull(e, i) && Placed(e.sessions)
  {
    StepKeepsInv(v, s, a);
    StepKeepsPace(v, s, a, i, p);
    if a.Write? && a.i == i && a.a == T.Measure(WORKER) && Decides(s, i, a.a) {
      DecidesWhileCalling(v, s, i, a.a);
      RefusalIsLate(v, s, i);
    }
    OthersRefuseNothing(v, s, a, i);
    StepKeepsPlaced(v, s, a);
  }

  lemma {:induction false} PacedRuns(v: Server, s: System, steps: seq<Step>, i: nat, p: Pace)
    requires Inv(v, s) && IsRun(v, s, steps) && Paced(v, s, steps, i, p) && OnPace(p, s, i)
    requires p.first <= SAFE.first && p.window <= SAFE.window && NeverFull(s, i) && Placed(s.sessions)
    ensures var e := Exec(v, s, steps); Inv(v, e) && OnPace(p, e, i) && NeverFull(e, i) && Placed(e.sessions)
    decreases |steps|
  {
    if steps != [] {
      PacedStep(v, s, steps[0], i, p);
      PacedRuns(v, Next(v, s, steps[0]), steps[1..], i, p);
    }
  }

  /** A client that sends its first MAX_SENDQUE + 1 requests at will, and later ones only while fewer than
      MAX_SENDQUE are undecoded, never has a reply refused, however long it lives and whatever the other
      clients do. */
  lemma PacedAreNeverRefused(v: Server, steps: seq<Step>, i: nat, p: Pace)
    requires IsRun(v, INIT, steps) && Paced(v, INIT, steps, i, p)
    requires p.first <= SAFE.first && p.window <= SAFE.window
    ensures NeverFull(Exec(v, INIT, steps), i)
  {
    PacedRuns(v, INIT, steps, i, p);
  }

  /** In particular a client that never sends more than MAX_SENDQUE + 1 requests. */
  lemma FewAreNeverRefused(v: Server, steps: seq<Step>, i: nat)
    requires IsRun(v, INIT, steps) && i < |Exec(v, INIT, steps).sessions|
    requires |Exec(v, INIT, steps).sessions[i].requests| <= Sender.MAX_SENDQUE + 1
    ensures NeverFull(Exec(v, INIT, steps), i)
  {
    FewArePaced(v, INIT, steps, i, SAFE);
    PacedAreNeverRefused(v, steps, i, SAFE);
  }

  lemma {:induction false} FewArePaced(v: Server, s: System, steps: seq<Step>, i: nat, p: Pace)
    requires IsRun(v, s, steps) && i < |Exec(v, s, steps).sessions|
    requires |Exec(v, s, steps).sessions[i].requests| <= p.first
    ensures Paced(v, s, steps, i, p)
    ensures i < |s.sessions| ==> |s.sessions[i].requests| <= |Exec(v, s, steps).sessions[i].requests|
    decreases |steps|
  {
    if steps != [] {
      FewArePaced(v, Next(v, s, steps[0]), steps[1..], i, p);
      if i < |s.sessions| {
        RequestsGrow(v, s, steps[0], i);
      }
    }
  }

  // ----- delivery -----

  /** No step is left that advances and asks nothing of the other clients. */
  ghost predicate AtRestFor(v: Server, s: System, i: nat) {
    AtRest(v, s, (a: Step) => Local(i, a))
  }

  /** What client `i` decodes are the replies to the registered ones among `requests`. */
  ghost predicate HasAll(v: Server, s: System, i: nat, requests: seq<Msg>) {
    i < |s.sessions| && Decoded(s, i) == Handled(v, Known(v.known, requests))
  }

  /** Delivery: when no step is left that advances without the help of other clients, an open session with
      acceptable requests that paced itself has had the replies to exactly those whose id is registered.
      Other clients may have stopped reading or sending, or may be in the middle of anything. */
  lemma RestingClientHasAll(v: Server, steps: seq<Step>, i: nat)
    requires IsRun(v, INIT, steps) && Paced(v, INIT, steps, i, SAFE)
    requires var s := Exec(v, INIT, steps); AtRestFor(v, s, i) && Served(v, s, i)
    ensures HasAll(v, Exec(v, INIT, steps), i, Exec(v, INIT, steps).sessions[i].requests)
  {
    PacedRuns(v, INIT, steps, i, SAFE);
    RestIsSettled(v, Exec(v, INIT, steps), i);
    SettledHasAll(v, Exec(v, INIT, steps), i);
  }

  /** For the repository's own client's requests: a reply to every one. */
  lemma RestingSyncClient(v: Server, steps: seq<Step>, i: nat)
    requires v.known == {1001} && IsRun(v, INIT, steps) && Paced(v, INIT, steps, i, SAFE)
    requires var s := Exec(v, INIT, steps);
             AtRestFor(v, s, i) && Served(v, s, i) && forall m <- s.sessions[i].requests :: m.id == D.MSG_HELLO_WORLD
    ensures var s := Exec(v, INIT, steps); Decoded(s, i) == Handled(v, s.sessions[i].requests)
  {
    RestingClientHasAll(v, steps, i);
    AllKnown(v.known, Exec(v, INIT, steps).sessions[i].requests);
  }

  lemma RestIsSettled(v: Server, s: System, i: nat)
    requires Inv(v, s) && AtRestFor(v, s, i) && Served(v, s, i)
    ensures Settled(s, i)
  {
    if !Settled(s, i) {
      var a := StateMoves(v, s, i);
    }
  }

  lemma AdvanceKeepsServed(v: Server, s: System, i: nat, a: Step)
    requires Served(v, s, i) && Enabled(v, s, a) && Local(i, a)
    requires a.Read? ==> !Receive.Next(v.limits, s.sessions[i].rx, a.e).phase.Stopped?
    ensures Served(v, Next(v, s, a), i) && Next(v, s, a).sessions[i].requests == s.sessions[i].requests
  {
  }

  /** A local step leaves the other clients' streams alone. */
  lemma LocalLeavesOthers(v: Server, s: System, a: Step, i: nat, j: nat)
    requires Enabled(v, s, a) && Local(i, a) && i != j
    ensures |Next(v, s, a).sessions| == |s.sessions|
    ensures j < |s.sessions| ==> SameStreams(s.sessions[j], Next(v, s, a).sessions[j])
  {
  }

  /** Nothing has been sent to, or read from, or written by the client. */
  ghost predicate SameStreams(x: Session, y: Session) {
    y.requests == x.requests && y.rx == x.rx && y.send.wire == x.send.wire
  }

  lemma {:induction false} LocalRunsLeaveOthers(v: Server, s: System, steps: seq<Step>, i: nat, j: nat)
    requires IsRun(v, s, steps) && (forall a <- steps :: Local(i, a)) && i != j
    ensures |Exec(v, s, steps).sessions| == |s.sessions|
    ensures j < |s.sessions| ==> SameStreams(s.sessions[j], Exec(v, s, steps).sessions[j])
    decreases |steps|
  {
    if steps != [] {
      assert steps[0] in steps;
      LocalLeavesOthers(v, s, steps[0], i, j);
      LocalRunsLeaveOthers(v, Next(v, s, steps[0]), steps[1..], i, j);
    }
  }

  /** From every reachable state the pipeline can advance, with no help from other clients and without
      losing an open session that sent acceptable requests, until that session is settled. */
  lemma {:induction false} CanBeSettled(v: Server, s: System, i: nat) returns (more: seq<Step>)
    requires Inv(v, s) && Served(v, s, i)
    ensures IsRun(v, s, more) && forall a <- more :: Local(i, a)
    ensures var e := Exec(v, s, more);
            Served(v, e, i) && Settled(e, i) && e.sessions[i].requests == s.sessions[i].requests
    decreases Work(s)
  {
    WorkIsNatural(v, s);
    more := [];
    if !Settled(s, i) {
      var a := StateMoves(v, s, i);
      AdvanceDoesWork(v, s, a);
      AdvanceKeepsServed(v, s, i, a);
      more := CanBeSettled(v, Next(v, s, a), i);
      TailOfAppend([a], more);
      more := [a] + more;
    }
  }

  /** So after every run an open session that paced itself and whose requests are acceptable can still get
      all its replies, whether or not any other client ever sends or reads another byte. */
  lemma CanBeServed(v: Server, steps: seq<Step>, i: nat) returns (more: seq<Step>)
    requires IsRun(v, INIT, steps) && Paced(v, INIT, steps, i, SAFE) && Served(v, Exec(v, INIT, steps), i)
    ensures IsRun(v, Exec(v, INIT, steps), more) && forall a <- more :: Local(i, a)
    ensures var s := Exec(v, INIT, steps); HasAll(v, Exec(v, s, more), i, s.sessions[i].requests)
    ensures var s, e := Exec(v, INIT, steps), Exec(v, Exec(v, INIT, steps), more);
            |e.sessions| == |s.sessions|
            && forall j | 0 <= j < |s.sessions| && j != i :: SameStreams(s.sessions[j], e.sessions[j])
  {
    PacedRuns(v, INIT, steps, i, SAFE);
    more := ServeFrom(v, Exec(v, INIT, steps), i);
    forall j: nat | j != i
      ensures var s, e := Exec(v, INIT, steps), Exec(v, Exec(v, INIT, steps), more);
              && |e.sessions| == |s.sessions|
              && (j < |s.sessions| ==> SameStreams(s.sessions[j], e.sessions[j]))
    {
      LocalRunsLeaveOthers(v, Exec(v, INIT, steps), more, i, j);
    }
    LocalRunsLeaveOthers(v, Exec(v, INIT, steps), more, i, i + 1);
  }

  lemma ServeFrom(v: Server, s: System, i: nat) returns (more: seq<Step>)
    requires Inv(v, s) && OnPace(SAFE, s, i) && NeverFull(s, i) && Placed(s.sessions) && Served(v, s, i)
    ensures IsRun(v, s, more) && forall a <- more :: Local(i, a)
    ensures HasAll(v, Exec(v, s, more), i, s.sessions[i].requests)
  {
    more := CanBeSettled(v, s, i);
    AdvancingIsPaced(v, s, more, i, SAFE);
    PacedRuns(v, s, more, i, SAFE);
    SettledHasAll(v, Exec(v, s, more), i);
  }

  lemma {:induction false} AdvancingIsPaced(v: Server, s: System, steps: seq<Step>, i: nat, p: Pace)
    requires IsRun(v, s, steps) && forall a <- steps :: Advances(a)
    ensures Paced(v, s, steps, i, p)
    decreases |steps|
  {
    if steps != [] {
      assert steps[0] in steps;
      AdvancingIsPaced(v, Next(v, s, steps[0]), steps[1..], i, p);
    }
  }
}
