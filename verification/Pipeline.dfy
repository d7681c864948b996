/** The whole pipeline for any number of sessions: client encoder, byte stream, receiver, logic queue,
    callback, send queue, byte stream, client decoder. The send sides are those of SendThreads, so the
    worker's calls of `Send` are interleaved step by step with the network threads' HandleWrite. The
    logic queue is the atomic dispatcher (RunsDispatch), which LogicQueue.RunsAreAtomic shows the monitor
    to refine. */
module Pipeline {
  import opened Seqs
  import opened Wire
  import Receive
  import Sender
  import T = SendThreads
  import D = Dispatcher

  /** `handler` stands for parsing the request, building the reply and serialising it. */
  datatype Server = Server(limits: Limits, known: set<Short>, handler: Msg -> Sendable, startUnderLock: bool)

  /** The logic worker among the threads that use a session's send side. */
  const WORKER: T.Tid := 0

  function Threads(v: Server): T.Config {
    T.Config(Sender.BOUND, v.startUnderLock)
  }

  datatype Session = Session(
    requests: seq<Sendable>, // history: what the client has written
    rx: Receive.State,
    send: T.State<Byte>,
    owner: T.Owner           // history: who owns the write token
  )

  /** The worker between two callbacks, in a callback before `Send` has accepted or refused the reply,
      and after. It holds the logic mutex unless it is free. */
  datatype Worker = Free | Calling | Decided

  datatype Outcome = Unregistered | QueueFull(size: nat) | Replied(reply: Sendable)
  datatype Record = Record(node: D.LogicNode, out: Outcome)

  datatype System = System(
    sessions: seq<Session>,
    queue: seq<D.LogicNode>,
    worker: Worker,
    posted: seq<D.LogicNode>, // history
    log: seq<Record>          // history
  )

  datatype Step =
    | Connect
    | Request(i: nat, m: Sendable)
    | Read(i: nat, e: Receive.Event)
    | Dispatch                         // look up the front's callback; call it if there is one
    | Write(i: nat, a: T.Action<Byte>) // a step of the session's send side, by any thread
    | Return                           // the callback returns; pop

  const INIT := System([], [], Free, [], [])
  const FRESH := Session([], Receive.INIT, T.Init(), T.Nobody)

  /** True whenever a message waits and the worker is free or its Send has returned (FrontCanProceed in
      EndToEnd): the session is known and the worker is not inside its Send. */
  ghost predicate WorkerIdleAtFront(s: System) {
    s.queue != [] && s.queue[0].session < |s.sessions| && T.PcOf(s.sessions[s.queue[0].session].send, WORKER).Idle?
  }

  ghost predicate Enabled(v: Server, s: System, a: Step) {
    match a
    case Connect => true
    case Request(i, _) => i < |s.sessions|
    case Read(i, e) =>
      && i < |s.sessions| && Receive.Enabled(s.sessions[i].rx, e)
      && s.sessions[i].rx.consumed + Receive.BytesOf(e) <= EncodeAll(s.sessions[i].requests)
      && (e.BodyFull? ==> s.worker.Free?) // posting takes the logic mutex
    case Dispatch => s.worker.Free? && WorkerIdleAtFront(s)
    case Write(i, a) =>
      && i < |s.sessions| && T.Enabled(Threads(v), s.sessions[i].send, a)
      && !a.Call? && !a.CloseSocket? && (a.Done? || a.Abort? ==> a.t != WORKER)
    case Return => s.worker.Decided? && WorkerIdleAtFront(s)
  }

  ghost function WithSend(v: Server, x: Session, a: T.Action<Byte>): Session
    requires T.Enabled(Threads(v), x.send, a)
  {
    x.(send := T.Next(Threads(v), x.send, a), owner := T.NextOwner(Threads(v), x.send, x.owner, a))
  }

  function Decide(s: System, out: Outcome): System {
    if s.queue == [] then s else s.(worker := Decided, log := s.log + [Record(s.queue[0], out)])
  }

  ghost function Next(v: Server, s: System, a: Step): System
    requires Enabled(v, s, a)
  {
    match a
    case Connect => s.(sessions := s.sessions + [FRESH])
    case Request(i, m) =>
      s.(sessions := s.sessions[i := s.sessions[i].(requests := s.sessions[i].requests + [m])])
    case Read(i, e) => ReadStep(v, s, i, e)
    case Dispatch => DispatchStep(v, s)
    case Write(i, a) => WriteStep(v, s, i, a)
    case Return => s.(queue := s.queue[1..], worker := Free)
  }

  /** A read posts a message when a body is complete, and closes the socket when it gives up. */
  ghost function ReadStep(v: Server, s: System, i: nat, e: Receive.Event): System
    requires Enabled(v, s, Read(i, e))
  {
    var x := s.sessions[i].(rx := Receive.Next(v.limits, s.sessions[i].rx, e));
    var x' := if x.rx.phase.Stopped? then WithSend(v, x, T.CloseSocket) else x;
    var s' := s.(sessions := s.sessions[i := x']);
    if e.BodyFull? then
      var node := D.LogicNode(i, x.rx.posted[|x.rx.posted| - 1]);
      s'.(queue := s.queue + [node], posted := s.posted + [node])
    else s'
  }

  ghost function DispatchStep(v: Server, s: System): System
    requires Enabled(v, s, Dispatch)
  {
    var node := s.queue[0];
    if node.msg.id !in v.known then
      s.(queue := s.queue[1..], log := s.log + [Record(node, Unregistered)])
    else
      var x := WithSend(v, s.sessions[node.session], T.Call(WORKER, Frame(v.handler(node.msg))));
      s.(sessions := s.sessions[node.session := x], worker := Calling)
  }

  ghost function WriteStep(v: Server, s: System, i: nat, a: T.Action<Byte>): System
    requires Enabled(v, s, Write(i, a))
  {
    var s' := s.(sessions := s.sessions[i := WithSend(v, s.sessions[i], a)]);
    if a == T.Push(WORKER) && s.queue != [] then Decide(s', Replied(v.handler(s.queue[0].msg)))
    else if a == T.Measure(WORKER) && Sender.Full(Sender.BOUND, |s.sessions[i].send.queue|) then
      Decide(s', QueueFull(|s.sessions[i].send.queue|))
    else s'
  }

  ghost predicate IsRun(v: Server, s: System, steps: seq<Step>)
    decreases |steps|
  {
    steps != [] ==> Enabled(v, s, steps[0]) && IsRun(v, Next(v, s, steps[0]), steps[1..])
  }

  ghost function Exec(v: Server, s: System, steps: seq<Step>): System
    requires IsRun(v, s, steps)
    decreases |steps|
  {
    if steps == [] then s else Exec(v, Next(v, s, steps[0]), steps[1..])
  }

  // ----- one session's share of the histories -----

  function Of(i: nat, nodes: seq<D.LogicNode>): seq<Msg> {
    if nodes == [] then []
    else
      var n := |nodes| - 1;
      Of(i, nodes[..n]) + if nodes[n].session == i then [nodes[n].msg] else []
  }

  ghost function Nodes(log: seq<Record>): seq<D.LogicNode> {
    seq(|log|, k requires 0 <= k < |log| => log[k].node)
  }

  /** The requests of session `i` that have been answered. */
  function Answered(i: nat, log: seq<Record>): seq<Msg> {
    if log == [] then []
    else
      var n := |log| - 1;
      Answered(i, log[..n]) + if log[n].node.session == i && log[n].out.Replied? then [log[n].node.msg] else []
  }

  function Handled(v: Server, ms: seq<Msg>): seq<Msg> {
    seq<Msg>(|ms|, k requires 0 <= k < |ms| => v.handler(ms[k]))
  }

  lemma OfPush(i: nat, nodes: seq<D.LogicNode>, x: D.LogicNode)
    ensures Of(i, nodes + [x]) == Of(i, nodes) + if x.session == i then [x.msg] else []
  {
    assert (nodes + [x])[..|nodes|] == nodes;
  }

  lemma AnsweredPush(i: nat, log: seq<Record>, e: Record)
    ensures Answered(i, log + [e]) ==
            Answered(i, log) + if e.node.session == i && e.out.Replied? then [e.node.msg] else []
  {
    assert (log + [e])[..|log|] == log;
  }

  lemma {:induction false} OfPrefix(i: nat, a: seq<D.LogicNode>, b: seq<D.LogicNode>)
    requires a <= b
    ensures Of(i, a) <= Of(i, b)
    decreases |b|
  {
    if |a| < |b| {
      OfPrefix(i, a, b[..|b| - 1]);
    } else {
      assert a == b;
    }
  }

  lemma {:induction false} AnsweredIsSubsequence(i: nat, log: seq<Record>)
    ensures IsSubsequence(Answered(i, log), Of(i, Nodes(log)))
    decreases |log|
  {
    if log != [] {
      var before, e := log[..|log| - 1], log[|log| - 1];
      AnsweredIsSubsequence(i, before);
      assert Nodes(log) == Nodes(before) + [e.node];
      OfPush(i, Nodes(before), e.node);
      var a, b := Answered(i, before), Of(i, Nodes(before));
      assert a + [] == a && b + [] == b;
      if e.node.session == i {
        if e.out.Replied? {
          Extend(a, b, e.node.msg);
        } else {
          Widen(a, b, e.node.msg);
        }
      }
    }
  }

  // ----- what every step keeps -----

  ghost function Rest(rx: Receive.State): seq<Byte> {
    var n := |EncodeAll(rx.posted)|;
    if n <= |rx.consumed| then rx.consumed[n..] else []
  }

  /** The receiver is where its bytes have brought it. */
  ghost predicate RxInv(l: Limits, x: Session) {
    Receive.Inv(l, x.rx, Rest(x.rx)) && x.rx.consumed <= EncodeAll(x.requests)
  }

  /** The send side keeps its token and stands for a valid state of the atomic sender. */
  ghost predicate SendInv(c: T.Config, send: T.State<Byte>, owner: T.Owner) {
    T.Inv(c, send, owner) && Sender.Valid(Sender.BOUND, T.View(send, owner))
  }

  /** The session has posted what is recorded, and accepted the frames of the recorded replies. */
  ghost predicate HistoryInv(v: Server, i: nat, x: Session, posted: seq<D.LogicNode>, log: seq<Record>) {
    && Of(i, posted) == x.rx.posted
    && x.send.accepted == Frames(Handled(v, Answered(i, log)))
  }

  /** Where the worker is in session `i`'s Send: nowhere, unless the front message is the session's. */
  ghost predicate CallInv(v: Server, w: Worker, queue: seq<D.LogicNode>, i: nat, pc: T.Pc<Byte>) {
    if w.Free? || queue == [] || queue[0].session != i then pc.Idle?
    else if w.Calling? then
      (pc.SendWait? || pc.SendIn? || pc.Sized?) && pc.item == Frame(v.handler(queue[0].msg))
    else pc.Got? || pc.Start? || pc.Leave? || pc.Idle?
  }

  ghost predicate RecordInv(v: Server, e: Record) {
    && (e.out.Unregistered? <==> e.node.msg.id !in v.known)
    && (e.out.QueueFull? ==> e.out.size == Sender.MAX_SENDQUE + 1)
    && (e.out.Replied? ==> e.out.reply == v.handler(e.node.msg))
  }

  ghost function Pending(s: System): seq<D.LogicNode> {
    if s.worker.Decided? && s.queue != [] then s.queue[1..] else s.queue
  }

  ghost predicate LogInv(v: Server, s: System) {
    && Nodes(s.log) + Pending(s) == s.posted
    && (forall n <- s.posted :: n.session < |s.sessions|)
    && (forall e <- s.log :: RecordInv(v, e))
    && (!s.worker.Free? ==>
          s.queue != [] && s.queue[0].session < |s.sessions| && s.queue[0].msg.id in v.known)
  }

  ghost predicate RxInvs(v: Server, xs: seq<Session>) {
    forall i | 0 <= i < |xs| :: RxInv(v.limits, xs[i])
  }

  ghost predicate SendInvs(v: Server, xs: seq<Session>) {
    forall i | 0 <= i < |xs| :: SendInv(Threads(v), xs[i].send, xs[i].owner)
  }

  ghost predicate HistoryInvs(v: Server, s: System) {
    forall i | 0 <= i < |s.sessions| :: HistoryInv(v, i, s.sessions[i], s.posted, s.log)
  }

  ghost predicate CallInvs(v: Server, s: System) {
    forall i | 0 <= i < |s.sessions| ::
      CallInv(v, s.worker, s.queue, i, T.PcOf(s.sessions[i].send, WORKER)) && OnlyWorkerSends(s.sessions[i].send)
  }

  /** Network threads run HandleWrite only. */
  ghost predicate OnlyWorkerSends(send: T.State<Byte>) {
    forall t <- send.pcs :: send.pcs[t].SendWait? || send.pcs[t].SendIn? || send.pcs[t].Sized? ==> t == WORKER
  }

  ghost predicate Inv(v: Server, s: System) {
    LogInv(v, s) && RxInvs(v, s.sessions) && SendInvs(v, s.sessions) && HistoryInvs(v, s) && CallInvs(v, s)
  }

  lemma {:induction false} NothingOf(i: nat, nodes: seq<D.LogicNode>)
    requires forall n <- nodes :: n.session != i
    ensures Of(i, nodes) == []
  {
    if nodes != [] {
      NothingOf(i, nodes[..|nodes| - 1]);
    }
  }

  lemma {:induction false} NothingAnswered(i: nat, log: seq<Record>)
    requires forall e <- log :: e.node.session != i
    ensures Answered(i, log) == []
  {
    if log != [] {
      NothingAnswered(i, log[..|log| - 1]);
    }
  }

  lemma RxKeeps(l: Limits, rx: Receive.State, e: Receive.Event)
    requires Receive.Inv(l, rx, Rest(rx)) && Receive.Enabled(rx, e)
    ensures var rx' := Receive.Next(l, rx, e); Receive.Inv(l, rx', Rest(rx'))
  {
    var rest := Receive.StepKeepsInv(l, rx, Rest(rx), e);
    var rx' := Receive.Next(l, rx, e);
    assert Rest(rx') == rest;
  }

  lemma SendKeeps(v: Server, x: Session, a: T.Action<Byte>)
    requires SendInv(Threads(v), x.send, x.owner) && T.Enabled(Threads(v), x.send, a)
    ensures SendInv(Threads(v), WithSend(v, x, a).send, WithSend(v, x, a).owner)
  {
    T.StepIsAtomicRun(Threads(v), x.send, x.owner, a);
    Sender.RunsConserve(Sender.BOUND, T.View(x.send, x.owner), T.Mimic(Threads(v), x.send, a));
  }

  lemma FreshKeeps(v: Server)
    ensures SendInv(Threads(v), FRESH.send, FRESH.owner)
  {
    Sender.InitValid<Byte>(Sender.BOUND);
    T.InitIsQuiet<Byte>(Threads(v));
  }

  lemma NoHistoryYet(v: Server, s: System)
    requires LogInv(v, s)
    ensures Of(|s.sessions|, s.posted) == [] && Answered(|s.sessions|, s.log) == []
  {
    var n := |s.sessions|;
    NothingOf(n, s.posted);
    forall e <- s.log ensures e.node.session != n {
      var k :| 0 <= k < |s.log| && s.log[k] == e;
      assert (Nodes(s.log) + Pending(s))[k] == e.node;
    }
    NothingAnswered(n, s.log);
  }

  lemma ConnectKeepsHistory(v: Server, s: System)
    requires LogInv(v, s) && HistoryInvs(v, s)
    ensures HistoryInvs(v, Next(v, s, Connect))
  {
    NoHistoryYet(v, s);
    assert Frames(Handled(v, [])) == [];
    var s' := Next(v, s, Connect);
    forall i | 0 <= i < |s'.sessions| ensures HistoryInv(v, i, s'.sessions[i], s'.posted, s'.log) {
      if i < |s.sessions| {
        assert HistoryInv(v, i, s.sessions[i], s.posted, s.log);
      }
    }
  }

  lemma ConnectKeepsCalls(v: Server, s: System)
    requires LogInv(v, s) && CallInvs(v, s)
    ensures LogInv(v, Next(v, s, Connect)) && CallInvs(v, Next(v, s, Connect))
  {
  }

  lemma ConnectKeepsRx(v: Server, s: System)
    requires RxInvs(v, s.sessions)
    ensures RxInvs(v, Next(v, s, Connect).sessions)
  {
    assert EncodeAll([]) + [] == [];
    assert RxInv(v.limits, FRESH);
  }

  lemma ConnectKeepsSend(v: Server, s: System)
    requires SendInvs(v, s.sessions)
    ensures SendInvs(v, Next(v, s, Connect).sessions)
  {
    FreshKeeps(v);
    AppendKeepsSend(v, s.sessions, FRESH);
  }

  lemma AppendKeepsSend(v: Server, xs: seq<Session>, x: Session)
    requires SendInvs(v, xs) && SendInv(Threads(v), x.send, x.owner)
    ensures SendInvs(v, xs + [x])
  {
  }

  lemma ReplaceKeepsSend(v: Server, xs: seq<Session>, i: nat, x: Session)
    requires SendInvs(v, xs) && i < |xs| && SendInv(Threads(v), x.send, x.owner)
    ensures SendInvs(v, xs[i := x])
  {
  }

  lemma ReplaceKeepsRx(v: Server, xs: seq<Session>, i: nat, x: Session)
    requires RxInvs(v, xs) && i < |xs| && RxInv(v.limits, x)
    ensures RxInvs(v, xs[i := x])
  {
  }

  lemma ConnectKeeps(v: Server, s: System)
    requires Inv(v, s)
    ensures Inv(v, Next(v, s, Connect))
  {
    ConnectKeepsHistory(v, s);
    ConnectKeepsCalls(v, s);
    ConnectKeepsRx(v, s);
    ConnectKeepsSend(v, s);
  }

  lemma RequestKeepsRx(v: Server, s: System, i: nat, m: Sendable)
    requires RxInvs(v, s.sessions) && Enabled(v, s, Request(i, m))
    ensures RxInvs(v, Next(v, s, Request(i, m)).sessions)
  {
    var x := s.sessions[i];
    EncodeAppend(x.requests, [m]);
    ReplaceKeepsRx(v, s.sessions, i, x.(requests := x.requests + [m]));
  }

  lemma RequestKeepsRest(v: Server, s: System, i: nat, m: Sendable)
    requires LogInv(v, s) && HistoryInvs(v, s) && CallInvs(v, s) && Enabled(v, s, Request(i, m))
    ensures var s' := Next(v, s, Request(i, m)); LogInv(v, s') && HistoryInvs(v, s') && CallInvs(v, s')
  {
  }

  // reads

  lemma ReadKeepsRx(v: Server, s: System, i: nat, e: Receive.Event)
    requires RxInvs(v, s.sessions) && Enabled(v, s, Read(i, e))
    ensures RxInvs(v, ReadStep(v, s, i, e).sessions)
  {
    var x := s.sessions[i];
    RxKeeps(v.limits, x.rx, e);
    assert x.rx.consumed + [] == x.rx.consumed;
    ReplaceKeepsRx(v, s.sessions, i, ReadStep(v, s, i, e).sessions[i]);
  }

  lemma ReadKeepsSend(v: Server, s: System, i: nat, e: Receive.Event)
    requires SendInvs(v, s.sessions) && Enabled(v, s, Read(i, e))
    ensures SendInvs(v, ReadStep(v, s, i, e).sessions)
  {
    SendKeeps(v, s.sessions[i].(rx := Receive.Next(v.limits, s.sessions[i].rx, e)), T.CloseSocket);
    ReplaceKeepsSend(v, s.sessions, i, ReadStep(v, s, i, e).sessions[i]);
  }

  lemma ReadKeepsLog(v: Server, s: System, i: nat, e: Receive.Event)
    requires LogInv(v, s) && CallInvs(v, s) && Enabled(v, s, Read(i, e))
    ensures LogInv(v, ReadStep(v, s, i, e)) && CallInvs(v, ReadStep(v, s, i, e))
  {
    if e.BodyFull? {
      Associate(Nodes(s.log), s.queue, [ReadStep(v, s, i, e).posted[|s.posted|]]);
    }
  }

  lemma ReadKeepsHistory(v: Server, s: System, i: nat, e: Receive.Event)
    requires HistoryInvs(v, s) && Enabled(v, s, Read(i, e))
    ensures HistoryInvs(v, ReadStep(v, s, i, e))
  {
    if e.BodyFull? {
      var s' := ReadStep(v, s, i, e);
      var node := s'.posted[|s.posted|];
      forall k | 0 <= k < |s'.sessions| ensures HistoryInv(v, k, s'.sessions[k], s'.posted, s'.log) {
        assert HistoryInv(v, k, s.sessions[k], s.posted, s.log);
        OfPush(k, s.posted, node);
        assert Of(k, s.posted) + [] == Of(k, s.posted);
      }
    }
  }

  // the worker

  /** A record of the front message that answers nobody. */
  lemma RecordKeepsHistory(v: Server, s: System, e: Record)
    requires HistoryInvs(v, s) && !e.out.Replied?
    ensures HistoryInvs(v, s.(log := s.log + [e]))
  {
    forall k | 0 <= k < |s.sessions| ensures HistoryInv(v, k, s.sessions[k], s.posted, s.log + [e]) {
      assert HistoryInv(v, k, s.sessions[k], s.posted, s.log);
      AnsweredPush(k, s.log, e);
      assert Answered(k, s.log) + [] == Answered(k, s.log);
    }
  }

  /** Recording the front message keeps the order of dispatch. */
  lemma RecordKeepsOrder(log: seq<Record>, queue: seq<D.LogicNode>, e: Record)
    requires queue != [] && e.node == queue[0]
    ensures Nodes(log + [e]) + queue[1..] == Nodes(log) + queue
  {
    assert Nodes(log + [e]) == Nodes(log) + [e.node];
    assert queue == [queue[0]] + queue[1..];
    Associate(Nodes(log), [e.node], queue[1..]);
  }

  lemma SkipKeeps(v: Server, s: System)
    requires LogInv(v, s) && HistoryInvs(v, s) && CallInvs(v, s)
    requires Enabled(v, s, Dispatch) && s.queue[0].msg.id !in v.known
    ensures var s' := Next(v, s, Dispatch); LogInv(v, s') && HistoryInvs(v, s') && CallInvs(v, s')
  {
    var e := Record(s.queue[0], Unregistered);
    RecordKeepsHistory(v, s, e);
    RecordKeepsOrder(s.log, s.queue, e);
  }

  lemma CallKeepsSend(v: Server, s: System)
    requires SendInvs(v, s.sessions) && Enabled(v, s, Dispatch)
    ensures SendInvs(v, Next(v, s, Dispatch).sessions)
  {
    if s.queue[0].msg.id in v.known {
      var i := s.queue[0].session;
      SendKeeps(v, s.sessions[i], T.Call(WORKER, Frame(v.handler(s.queue[0].msg))));
      ReplaceKeepsSend(v, s.sessions, i, Next(v, s, Dispatch).sessions[i]);
    }
  }

  lemma CallKeepsRx(v: Server, s: System)
    requires RxInvs(v, s.sessions) && Enabled(v, s, Dispatch)
    ensures RxInvs(v, Next(v, s, Dispatch).sessions)
  {
  }

  lemma CallKeeps(v: Server, s: System)
    requires LogInv(v, s) && HistoryInvs(v, s) && CallInvs(v, s)
    requires Enabled(v, s, Dispatch) && s.queue[0].msg.id in v.known
    ensures var s' := Next(v, s, Dispatch); LogInv(v, s') && HistoryInvs(v, s') && CallInvs(v, s')
  {
  }

  lemma ReturnKeeps(v: Server, s: System)
    requires Inv(v, s) && Enabled(v, s, Return)
    ensures Inv(v, Next(v, s, Return))
  {
    var s' := Next(v, s, Return);
    assert CallInvs(v, s') by {
      forall k | 0 <= k < |s.sessions| ensures T.PcOf(s.sessions[k].send, WORKER).Idle? {
        assert CallInv(v, s.worker, s.queue, k, T.PcOf(s.sessions[k].send, WORKER));
      }
    }
    assert HistoryInvs(v, s');
  }

  // the send sides

  lemma WriteKeepsRx(v: Server, s: System, i: nat, a: T.Action<Byte>)
    requires RxInvs(v, s.sessions) && Enabled(v, s, Write(i, a))
    ensures RxInvs(v, WriteStep(v, s, i, a).sessions)
  {
    ReplaceKeepsRx(v, s.sessions, i, WithSend(v, s.sessions[i], a));
  }

  lemma WriteKeepsSend(v: Server, s: System, i: nat, a: T.Action<Byte>)
    requires SendInvs(v, s.sessions) && Enabled(v, s, Write(i, a))
    ensures SendInvs(v, WriteStep(v, s, i, a).sessions)
  {
    SendKeeps(v, s.sessions[i], a);
    ReplaceKeepsSend(v, s.sessions, i, WithSend(v, s.sessions[i], a));
  }

  /** The step by which `Send` accepts or refuses the reply. */
  ghost predicate Decides(s: System, i: nat, a: T.Action<Byte>)
    requires i < |s.sessions|
  {
    a == T.Push(WORKER) || (a == T.Measure(WORKER) && Sender.Full(Sender.BOUND, |s.sessions[i].send.queue|))
  }

  lemma SendStepFacts(c: T.Config, send: T.State<Byte>, a: T.Action<Byte>)
    requires T.Enabled(c, send, a) && OnlyWorkerSends(send) && !a.Call?
    ensures OnlyWorkerSends(T.Next(c, send, a))
    ensures a != T.Push(WORKER) ==> T.Next(c, send, a).accepted == send.accepted
  {
  }

  /** Steps that decide nothing leave the worker where the invariant allows it to be. */
  lemma CallStep(v: Server, w: Worker, queue: seq<D.LogicNode>, i: nat, send: T.State<Byte>, a: T.Action<Byte>)
    requires T.Enabled(Threads(v), send, a) && !a.Call? && (a.Done? ==> a.t != WORKER)
    requires CallInv(v, w, queue, i, T.PcOf(send, WORKER)) && a != T.Push(WORKER)
    requires a == T.Measure(WORKER) ==> !Sender.Full(Sender.BOUND, |send.queue|)
    ensures CallInv(v, w, queue, i, T.PcOf(T.Next(Threads(v), send, a), WORKER))
  {
  }

  lemma QuietWriteKeepsCalls(v: Server, s: System, i: nat, a: T.Action<Byte>)
    requires CallInvs(v, s) && Enabled(v, s, Write(i, a)) && !Decides(s, i, a)
    ensures CallInvs(v, WriteStep(v, s, i, a))
  {
    var send := s.sessions[i].send;
    SendStepFacts(Threads(v), send, a);
    CallStep(v, s.worker, s.queue, i, send, a);
  }

  lemma QuietWriteKeeps(v: Server, s: System, i: nat, a: T.Action<Byte>)
    requires LogInv(v, s) && HistoryInvs(v, s) && CallInvs(v, s)
    requires Enabled(v, s, Write(i, a)) && !Decides(s, i, a)
    ensures var s' := WriteStep(v, s, i, a); LogInv(v, s') && HistoryInvs(v, s') && CallInvs(v, s')
  {
    QuietWriteKeepsCalls(v, s, i, a);
    SendStepFacts(Threads(v), s.sessions[i].send, a);
    assert HistoryInv(v, i, s.sessions[i], s.posted, s.log);
  }

  lemma RefuseKeepsCalls(v: Server, s: System, i: nat, a: T.Action<Byte>)
    requires CallInvs(v, s) && Enabled(v, s, Write(i, a)) && a == T.Measure(WORKER) && Decides(s, i, a)
    ensures CallInvs(v, WriteStep(v, s, i, a)) && s.worker.Calling? && s.queue != []
  {
    var send := s.sessions[i].send;
    assert CallInv(v, s.worker, s.queue, i, T.PcOf(send, WORKER));
    SendStepFacts(Threads(v), send, a);
  }

  lemma RefuseKeepsHistory(v: Server, s: System, i: nat)
    requires HistoryInvs(v, s) && Enabled(v, s, Write(i, T.Measure(WORKER))) && Decides(s, i, T.Measure(WORKER))
    ensures HistoryInvs(v, WriteStep(v, s, i, T.Measure(WORKER)))
  {
    if s.queue != [] {
      RecordKeepsHistory(v, s, Record(s.queue[0], QueueFull(|s.sessions[i].send.queue|)));
    }
  }

  lemma RefuseKeeps(v: Server, s: System, i: nat)
    requires Enabled(v, s, Write(i, T.Measure(WORKER))) && Decides(s, i, T.Measure(WORKER))
    requires LogInv(v, s) && CallInvs(v, s) && SendInv(Threads(v), s.sessions[i].send, s.sessions[i].owner)
    ensures var s' := WriteStep(v, s, i, T.Measure(WORKER)); LogInv(v, s') && CallInvs(v, s')
  {
    var x := s.sessions[i];
    RefuseKeepsCalls(v, s, i, T.Measure(WORKER));
    FullSize(Threads(v), x.send, x.owner);
    var e := Record(s.queue[0], QueueFull(|x.send.queue|));
    RecordKeepsOrder(s.log, s.queue, e);
    assert RecordInv(v, e);
  }

  lemma FullSize(c: T.Config, send: T.State<Byte>, owner: T.Owner)
    requires SendInv(c, send, owner) && Sender.Full(Sender.BOUND, |send.queue|)
    ensures |send.queue| == Sender.MAX_SENDQUE + 1
  {
    assert |T.View(send, owner).queue| == |send.queue|;
  }

  lemma AcceptKeeps(v: Server, s: System, i: nat)
    requires LogInv(v, s) && CallInvs(v, s) && Enabled(v, s, Write(i, T.Push(WORKER)))
    ensures var s' := WriteStep(v, s, i, T.Push(WORKER)); LogInv(v, s') && CallInvs(v, s')
    ensures s.queue != [] && s.queue[0].session == i
    ensures s.sessions[i].send.pcs[WORKER].item == Frame(v.handler(s.queue[0].msg))
  {
    assert CallInv(v, s.worker, s.queue, i, T.PcOf(s.sessions[i].send, WORKER));
    var e := Record(s.queue[0], Replied(v.handler(s.queue[0].msg)));
    RecordKeepsOrder(s.log, s.queue, e);
    assert RecordInv(v, e);
  }

  lemma AcceptKeepsHistory(v: Server, s: System, i: nat)
    requires HistoryInvs(v, s) && Enabled(v, s, Write(i, T.Push(WORKER)))
    requires s.queue != [] && s.queue[0].session == i
    requires s.sessions[i].send.pcs[WORKER].item == Frame(v.handler(s.queue[0].msg))
    ensures HistoryInvs(v, WriteStep(v, s, i, T.Push(WORKER)))
  {
    var s', m := WriteStep(v, s, i, T.Push(WORKER)), s.queue[0].msg;
    forall k | 0 <= k < |s'.sessions| ensures HistoryInv(v, k, s'.sessions[k], s'.posted, s'.log) {
      assert HistoryInv(v, k, s.sessions[k], s.posted, s.log);
      AnsweredPush(k, s.log, Record(s.queue[0], Replied(v.handler(m))));
      assert Answered(k, s.log) + [] == Answered(k, s.log);
      ReplyAppends(v, Answered(k, s.log), m);
    }
  }

  lemma ReplyAppends(v: Server, ms: seq<Msg>, m: Msg)
    ensures Frames(Handled(v, ms + [m])) == Frames(Handled(v, ms)) + [Frame(v.handler(m))]
  {
    assert Handled(v, ms + [m]) == Handled(v, ms) + [v.handler(m)];
  }

  lemma WriteKeeps(v: Server, s: System, i: nat, a: T.Action<Byte>)
    requires Enabled(v, s, Write(i, a)) && SendInv(Threads(v), s.sessions[i].send, s.sessions[i].owner)
    requires LogInv(v, s) && HistoryInvs(v, s) && CallInvs(v, s)
    ensures var s' := WriteStep(v, s, i, a); LogInv(v, s') && HistoryInvs(v, s') && CallInvs(v, s')
  {
    if a == T.Push(WORKER) {
      AcceptKeeps(v, s, i);
      AcceptKeepsHistory(v, s, i);
    } else if Decides(s, i, a) {
      RefuseKeepsHistory(v, s, i);
      RefuseKeeps(v, s, i);
    } else {
      QuietWriteKeeps(v, s, i, a);
    }
  }

  lemma StepKeepsInv(v: Server, s: System, a: Step)
    requires Inv(v, s) && Enabled(v, s, a)
    ensures Inv(v, Next(v, s, a))
  {
    match a
    case Connect => ConnectKeeps(v, s);
    case Request(i, m) =>
      RequestKeepsRx(v, s, i, m);
      ReplaceKeepsSend(v, s.sessions, i, Next(v, s, a).sessions[i]);
      RequestKeepsRest(v, s, i, m);
    case Read(i, e) =>
      ReadKeepsRx(v, s, i, e);
      ReadKeepsSend(v, s, i, e);
      ReadKeepsLog(v, s, i, e);
      ReadKeepsHistory(v, s, i, e);
    case Dispatch =>
      CallKeepsRx(v, s);
      CallKeepsSend(v, s);
      if s.queue[0].msg.id in v.known {
        CallKeeps(v, s);
      } else {
        SkipKeeps(v, s);
      }
    case Write(i, b) =>
      WriteKeepsRx(v, s, i, b);
      WriteKeepsSend(v, s, i, b);
      WriteKeeps(v, s, i, b);
    case Return => ReturnKeeps(v, s);
  }

  lemma {:induction false} RunsKeepInv(v: Server, s: System, steps: seq<Step>)
    requires Inv(v, s) && IsRun(v, s, steps)
    ensures Inv(v, Exec(v, s, steps))
    decreases |steps|
  {
    if steps != [] {
      StepKeepsInv(v, s, steps[0]);
      RunsKeepInv(v, Next(v, s, steps[0]), steps[1..]);
    }
  }

  // ----- the logic queue of the pipeline is the atomic dispatcher -----

  ghost function Entries(log: seq<Record>): seq<D.Entry> {
    seq(|log|, k requires 0 <= k < |log| => D.Entry(log[k].node, !log[k].out.Unregistered?))
  }

  /** A callback is in the dispatcher's history from its call on, in the records from its decision on. */
  ghost function LogicView(s: System): D.State {
    D.State(s.queue, !s.worker.Free?, s.posted,
            Entries(s.log) + if s.worker.Calling? && s.queue != [] then [D.Entry(s.queue[0], true)] else [])
  }

  /** The dispatcher's step, if any, that a step of the pipeline is. */
  ghost function LogicSteps(v: Server, s: System, a: Step): seq<D.Step>
    requires Enabled(v, s, a)
  {
    match a
    case Read(i, e) =>
      if e.BodyFull? then [D.Post(D.LogicNode(i, RawMsg.Msg(s.sessions[i].rx.phase.id, e.bytes)))] else []
    case Dispatch => [if s.queue[0].msg.id in v.known then D.Call else D.Skip]
    case Return => [D.Return]
    case _ => []
  }

  lemma RecordIsEntry(log: seq<Record>, e: Record)
    ensures Entries(log + [e]) == Entries(log) + [D.Entry(e.node, !e.out.Unregistered?)]
    ensures Entries(log) + [] == Entries(log)
  {
  }

  /** Deciding about the reply shows nothing to the dispatcher. */
  lemma DecideIsSilent(v: Server, s: System, i: nat, a: T.Action<Byte>)
    requires CallInvs(v, s) && Enabled(v, s, Write(i, a))
    ensures LogicView(WriteStep(v, s, i, a)) == LogicView(s)
  {
    if Decides(s, i, a) && s.queue != [] {
      assert CallInv(v, s.worker, s.queue, i, T.PcOf(s.sessions[i].send, WORKER));
      RecordIsEntry(s.log, WriteStep(v, s, i, a).log[|s.log|]);
    }
  }

  lemma DispatchIsStep(v: Server, s: System)
    requires Enabled(v, s, Dispatch)
    ensures var m := LogicSteps(v, s, Dispatch)[0];
            D.Enabled(v.known, LogicView(s), m) && D.Next(v.known, LogicView(s), m) == LogicView(DispatchStep(v, s))
  {
    RecordIsEntry(s.log, Record(s.queue[0], Unregistered));
  }

  /** Every step of the pipeline is invisible to the logic queue or one step of the atomic dispatcher. */
  lemma StepDispatches(v: Server, s: System, a: Step)
    requires LogInv(v, s) && CallInvs(v, s) && Enabled(v, s, a)
    ensures var m := LogicSteps(v, s, a);
            D.IsRun(v.known, LogicView(s), m) && D.Exec(v.known, LogicView(s), m) == LogicView(Next(v, s, a))
  {
    match a
    case Dispatch =>
      DispatchIsStep(v, s);
      D.OneStep(v.known, LogicView(s), LogicSteps(v, s, a)[0]);
    case Write(i, b) => DecideIsSilent(v, s, i, b);
    case Return => D.OneStep(v.known, LogicView(s), D.Return);
    case Read(i, e) =>
      if e.BodyFull? {
        D.OneStep(v.known, LogicView(s), LogicSteps(v, s, a)[0]);
      }
    case _ =>
  }

  /** And it may dispatch whenever the dispatcher may: its guard excludes nothing. */
  lemma DispatchIff(v: Server, s: System)
    requires LogInv(v, s) && CallInvs(v, s)
    ensures Enabled(v, s, Dispatch) <==>
            D.Enabled(v.known, LogicView(s), D.Call) || D.Enabled(v.known, LogicView(s), D.Skip)
  {
    if s.worker.Free? && s.queue != [] {
      assert s.posted[|s.log|] == s.queue[0];
      assert CallInv(v, s.worker, s.queue, s.queue[0].session, T.PcOf(s.sessions[s.queue[0].session].send, WORKER));
    }
  }

  ghost function LogicRun(v: Server, s: System, steps: seq<Step>): seq<D.Step>
    requires IsRun(v, s, steps)
    decreases |steps|
  {
    if steps == [] then []
    else LogicSteps(v, s, steps[0]) + LogicRun(v, Next(v, s, steps[0]), steps[1..])
  }

  lemma {:induction false} RunsDispatch(v: Server, s: System, steps: seq<Step>)
    requires Inv(v, s) && IsRun(v, s, steps)
    ensures var m := LogicRun(v, s, steps);
            D.IsRun(v.known, LogicView(s), m) && D.Exec(v.known, LogicView(s), m) == LogicView(Exec(v, s, steps))
    decreases |steps|
  {
    if steps != [] {
      var s' := Next(v, s, steps[0]);
      StepDispatches(v, s, steps[0]);
      StepKeepsInv(v, s, steps[0]);
      RunsDispatch(v, s', steps[1..]);
      D.Cons(v.known, LogicView(s), LogicSteps(v, s, steps[0]), LogicRun(v, s', steps[1..]));
    }
  }
}
