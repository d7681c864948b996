/** `Send` and `HandleWrite` run by any number of threads, one shared-memory step at a time. The
    servers differ in one point only: whether the write is started before or after the unlock. */
module SendThreads {
  import opened Seqs
  import Sender

  type Tid = nat

  /** A queue entry; `id` is its address, never reused. */
  datatype Node<T> = Node(id: nat, item: seq<T>)

  /** An asynchronous write of one node's buffer. */
  datatype Op<T> = Op(node: Node<T>, sent: nat)

  datatype Pc<T> =
    | Idle
    | SendWait(item: seq<T>) // in Send, before the lock
    | SendIn(item: seq<T>)   // in Send, lock held
    | Sized(item: seq<T>, size: nat) // size() read and within the bound
    | DoneWait               // in HandleWrite without error, before the lock
    | DoneIn                 // in HandleWrite, lock held
    | Popped                 // pop() done, empty() not tested yet
    | Got(node: Node<T>)     // front() read, lock held, write not started
    | Start(node: Node<T>)   // front() read, lock released, write not started
    | Leave                  // nothing left to do but release the lock

  datatype Lock = Free | Held(t: Tid)

  /** The websocket's sender is Config(Unbounded, false). */
  datatype Config = Config(bound: Sender.Bound, startUnderLock: bool)

  const ASYN := Config(Sender.BOUND, true)
  const COROUTINE := Config(Sender.BOUND, false)

  datatype State<T> = State(
    pcs: map<Tid, Pc<T>>,
    lock: Lock,
    queue: seq<Node<T>>,
    nextId: nat,             // next unused address
    ops: seq<Op<T>>,         // writes in flight
    aborted: seq<Op<T>>,     // history: writes that ended with an error
    closed: bool,
    wire: seq<T>,            // history
    accepted: seq<seq<T>>,   // history
    fault: bool              // a pop of an empty queue, or a transfer out of a freed node
  )

  datatype Action<T> =
    | Call(t: Tid, item: seq<T>)
    | Acquire(t: Tid)
    | Measure(t: Tid)         // size() and the test against the bound
    | Push(t: Tid)
    | Pop(t: Tid)
    | Front(t: Tid)           // empty(), then front()
    | Begin(t: Tid)           // async_write
    | Unlock(t: Tid)
    | Transfer(i: nat, n: nat)
    | Done(i: nat, t: Tid)    // write i ended well; thread t enters HandleWrite
    | Abort(i: nat, t: Tid)   // write i ended with an error; thread t runs the error branch
    | CloseSocket

  function Init<T>(): State<T> {
    State(map[], Free, [], 0, [], [], false, [], [], false)
  }

  ghost function PcOf<T>(s: State<T>, t: Tid): Pc<T> {
    if t in s.pcs then s.pcs[t] else Idle
  }

  ghost predicate Enabled<T>(c: Config, s: State<T>, a: Action<T>) {
    match a
    case Call(t, _) => PcOf(s, t).Idle?
    case Acquire(t) => s.lock.Free? && (PcOf(s, t).SendWait? || PcOf(s, t).DoneWait?)
    case Measure(t) => PcOf(s, t).SendIn?
    case Push(t) => PcOf(s, t).Sized?
    case Pop(t) => PcOf(s, t).DoneIn?
    case Front(t) => PcOf(s, t).Popped?
    case Begin(t) => if c.startUnderLock then PcOf(s, t).Got? else PcOf(s, t).Start?
    case Unlock(t) => PcOf(s, t).Leave? || (PcOf(s, t).Got? && !c.startUnderLock)
    case Transfer(i, n) => i < |s.ops| && !s.closed && s.ops[i].sent + n <= |s.ops[i].node.item|
    case Done(i, t) => i < |s.ops| && s.ops[i].sent == |s.ops[i].node.item| && PcOf(s, t).Idle?
    case Abort(i, t) => i < |s.ops| && PcOf(s, t).Idle?
    case CloseSocket => true
  }

  ghost function Next<T>(c: Config, s: State<T>, a: Action<T>): State<T>
    requires Enabled(c, s, a)
  {
    match a
    case Call(t, x) => s.(pcs := s.pcs[t := SendWait(x)])
    case Acquire(t) =>
      var pc := s.pcs[t];
      s.(lock := Held(t), pcs := s.pcs[t := if pc.SendWait? then SendIn(pc.item) else DoneIn])
    case Measure(t) =>
      var x := s.pcs[t].item;
      s.(pcs := s.pcs[t := if Sender.Full(c.bound, |s.queue|) then Leave else Sized(x, |s.queue|)])
    case Push(t) =>
      var pc, q := s.pcs[t], s.queue + [Node(s.nextId, s.pcs[t].item)];
      s.(queue := q, nextId := s.nextId + 1, accepted := s.accepted + [pc.item],
         pcs := s.pcs[t := if pc.size > 0 then Leave else Got(q[0])])
    case Pop(t) =>
      s.(fault := s.fault || s.queue == [], queue := if s.queue == [] then [] else s.queue[1..],
         pcs := s.pcs[t := Popped])
    case Front(t) =>
      s.(pcs := s.pcs[t := if s.queue == [] then Leave else Got(s.queue[0])])
    case Begin(t) =>
      var pc := s.pcs[t];
      s.(ops := s.ops + [Op(pc.node, 0)], pcs := s.pcs[t := if pc.Got? then Leave else Idle])
    case Unlock(t) =>
      var pc := s.pcs[t];
      s.(lock := Free, pcs := s.pcs[t := if pc.Got? then Start(pc.node) else Idle])
    case Transfer(i, n) =>
      var op := s.ops[i];
      s.(ops := s.ops[i := op.(sent := op.sent + n)],
         wire := s.wire + op.node.item[op.sent..op.sent + n],
         fault := s.fault || op.node !in s.queue)
    case Done(i, t) => s.(ops := s.ops[..i] + s.ops[i + 1..], pcs := s.pcs[t := DoneWait])
    case Abort(i, t) =>
      s.(ops := s.ops[..i] + s.ops[i + 1..], aborted := s.aborted + [s.ops[i]], closed := true)
    case CloseSocket => s.(closed := true)
  }

  ghost function Emits<T>(c: Config, s: State<T>, a: Action<T>): seq<Sender.Event<T>>
    requires Enabled(c, s, a)
  {
    match a
    case Measure(t) => if Sender.Full(c.bound, |s.queue|) then [Sender.Refused(s.pcs[t].item)] else []
    case Push(t) => [Sender.Accepted(s.pcs[t].item)]
    case Transfer(i, n) => [Sender.Wrote(s.ops[i].node.item[s.ops[i].sent..s.ops[i].sent + n])]
    case Abort(_, _) => [Sender.Failed]
    case CloseSocket => [Sender.Closed]
    case _ => []
  }

  ghost predicate IsRun<T>(c: Config, s: State<T>, acts: seq<Action<T>>)
    decreases |acts|
  {
    acts != [] ==> Enabled(c, s, acts[0]) && IsRun(c, Next(c, s, acts[0]), acts[1..])
  }

  ghost function Exec<T>(c: Config, s: State<T>, acts: seq<Action<T>>): State<T>
    requires IsRun(c, s, acts)
    decreases |acts|
  {
    if acts == [] then s else Exec(c, Next(c, s, acts[0]), acts[1..])
  }

  ghost function Trace<T>(c: Config, s: State<T>, acts: seq<Action<T>>): seq<Sender.Event<T>>
    requires IsRun(c, s, acts)
    decreases |acts|
  {
    if acts == [] then [] else Emits(c, s, acts[0]) + Trace(c, Next(c, s, acts[0]), acts[1..])
  }

  /** What counts as a fault: popping an empty queue, and transferring out of a node that has left it. */
  lemma FaultMeans<T>(c: Config, s: State<T>, a: Action<T>)
    requires Enabled(c, s, a)
    ensures Next(c, s, a).fault <==>
            s.fault || (a.Pop? && s.queue == []) || (a.Transfer? && s.ops[a.i].node !in s.queue)
  {
  }

  // ----- the write token -----

  predicate InLock<T>(pc: Pc<T>) {
    pc.SendIn? || pc.Sized? || pc.DoneIn? || pc.Popped? || pc.Got? || pc.Leave?
  }

  /** The thread owns the right to start the next write. */
  predicate HasToken<T>(pc: Pc<T>) {
    pc.DoneWait? || pc.DoneIn? || pc.Popped? || pc.Got? || pc.Start?
  }

  datatype Owner = Nobody | Thread(t: Tid) | Kernel

  ghost predicate LockInv<T>(c: Config, s: State<T>) {
    && (forall t <- s.pcs :: InLock(s.pcs[t]) <==> s.lock == Held(t))
    && (s.lock.Held? ==> s.lock.t in s.pcs)
    && (forall t <- s.pcs :: s.pcs[t].Sized? ==> s.pcs[t].size == |s.queue| && !Sender.Full(c.bound, |s.queue|))
    && (forall t <- s.pcs :: s.pcs[t].Start? ==> !c.startUnderLock)
  }

  ghost predicate TokenInv<T>(s: State<T>, w: Owner) {
    && (forall t <- s.pcs :: HasToken(s.pcs[t]) <==> w == Thread(t))
    && (w.Thread? ==> w.t in s.pcs)
    && (w.Nobody? ==> s.queue == [] || s.aborted != [])
    && (s.queue == [] && !w.Nobody? ==> w.Thread? && s.pcs[w.t].Popped?)
    && (s.aborted != [] ==> w.Nobody?)
    && (if w.Kernel? then |s.ops| == 1 && s.queue != [] && OpOfFront(s, s.ops[0]) else s.ops == [])
    && (s.aborted != [] ==> |s.aborted| == 1 && s.queue != [] && OpOfFront(s, s.aborted[0]) && s.closed)
    && (w.Thread? && (s.pcs[w.t].Got? || s.pcs[w.t].Start?) ==> s.queue != [] && s.pcs[w.t].node == s.queue[0])
  }

  ghost predicate OpOfFront<T>(s: State<T>, op: Op<T>)
    requires s.queue != []
  {
    op.node == s.queue[0] && op.sent <= |op.node.item|
  }

  ghost predicate AddressInv<T>(s: State<T>) {
    && (forall i, j | 0 <= i < j < |s.queue| :: s.queue[i].id != s.queue[j].id)
    && (forall i | 0 <= i < |s.queue| :: s.queue[i].id < s.nextId)
  }

  ghost predicate Inv<T>(c: Config, s: State<T>, w: Owner) {
    LockInv(c, s) && TokenInv(s, w) && AddressInv(s) && !s.fault
  }

  ghost function NextOwner<T>(c: Config, s: State<T>, w: Owner, a: Action<T>): Owner
    requires Enabled(c, s, a)
  {
    match a
    case Push(t) => if s.queue == [] then Thread(t) else w
    case Front(t) => if s.queue == [] then Nobody else w
    case Begin(_) => Kernel
    case Done(_, t) => Thread(t)
    case Abort(_, _) => Nobody
    case _ => w
  }

  lemma StepKeepsLock<T>(c: Config, s: State<T>, a: Action<T>)
    requires LockInv(c, s) && Enabled(c, s, a)
    ensures LockInv(c, Next(c, s, a))
  {
    match a
    case Call(_, _) =>
    case Acquire(_) =>
    case Measure(_) =>
    case Push(_) =>
    case Pop(_) =>
    case Front(_) =>
    case Begin(_) =>
    case Unlock(_) =>
    case Transfer(_, _) =>
    case Done(_, _) =>
    case Abort(_, _) =>
    case CloseSocket =>
  }

  /** The steps of the operating system: transfers, completions and errors. */
  lemma KernelKeepsToken<T>(c: Config, s: State<T>, w: Owner, a: Action<T>)
    requires LockInv(c, s) && TokenInv(s, w) && !s.fault && Enabled(c, s, a)
    requires a.Transfer? || a.Done? || a.Abort? || a.CloseSocket?
    ensures TokenInv(Next(c, s, a), NextOwner(c, s, w, a)) && !Next(c, s, a).fault
  {
    match a
    case Transfer(_, _) =>
    case Done(_, _) =>
    case Abort(_, _) =>
    case CloseSocket =>
  }

  /** The steps inside the critical sections. */
  lemma SectionKeepsToken<T>(c: Config, s: State<T>, w: Owner, a: Action<T>)
    requires LockInv(c, s) && TokenInv(s, w) && !s.fault && Enabled(c, s, a)
    requires a.Measure? || a.Push? || a.Pop? || a.Front?
    ensures TokenInv(Next(c, s, a), NextOwner(c, s, w, a)) && !Next(c, s, a).fault
  {
    match a
    case Measure(_) =>
    case Push(_) =>
    case Pop(_) =>
    case Front(_) =>
  }

  /** The steps around them. */
  lemma EntryKeepsToken<T>(c: Config, s: State<T>, w: Owner, a: Action<T>)
    requires LockInv(c, s) && TokenInv(s, w) && !s.fault && Enabled(c, s, a)
    requires a.Call? || a.Acquire? || a.Begin? || a.Unlock?
    ensures TokenInv(Next(c, s, a), NextOwner(c, s, w, a)) && !Next(c, s, a).fault
  {
    match a
    case Call(_, _) =>
    case Acquire(_) =>
    case Begin(_) =>
    case Unlock(_) =>
  }

  lemma StepKeepsToken<T>(c: Config, s: State<T>, w: Owner, a: Action<T>)
    requires LockInv(c, s) && TokenInv(s, w) && !s.fault && Enabled(c, s, a)
    ensures TokenInv(Next(c, s, a), NextOwner(c, s, w, a)) && !Next(c, s, a).fault
  {
    if a.Call? || a.Acquire? || a.Begin? || a.Unlock? {
      EntryKeepsToken(c, s, w, a);
    } else if a.Measure? || a.Push? || a.Pop? || a.Front? {
      SectionKeepsToken(c, s, w, a);
    } else {
      KernelKeepsToken(c, s, w, a);
    }
  }

  lemma StepKeepsAddress<T>(c: Config, s: State<T>, a: Action<T>)
    requires AddressInv(s) && Enabled(c, s, a)
    ensures AddressInv(Next(c, s, a))
  {
  }

  lemma StepKeepsInv<T>(c: Config, s: State<T>, w: Owner, a: Action<T>)
    requires Inv(c, s, w) && Enabled(c, s, a)
    ensures Inv(c, Next(c, s, a), NextOwner(c, s, w, a))
  {
    StepKeepsLock(c, s, a);
    StepKeepsToken(c, s, w, a);
    StepKeepsAddress(c, s, a);
  }

  ghost function ExecOwner<T>(c: Config, s: State<T>, w: Owner, acts: seq<Action<T>>): Owner
    requires IsRun(c, s, acts)
    decreases |acts|
  {
    if acts == [] then w else ExecOwner(c, Next(c, s, acts[0]), NextOwner(c, s, w, acts[0]), acts[1..])
  }

  lemma {:induction false} RunsKeepInv<T>(c: Config, s: State<T>, w: Owner, acts: seq<Action<T>>)
    requires Inv(c, s, w) && IsRun(c, s, acts)
    ensures Inv(c, Exec(c, s, acts), ExecOwner(c, s, w, acts))
    decreases |acts|
  {
    if acts != [] {
      StepKeepsInv(c, s, w, acts[0]);
      RunsKeepInv(c, Next(c, s, acts[0]), NextOwner(c, s, w, acts[0]), acts[1..]);
    }
  }

  ghost function Holders<T>(s: State<T>): set<Tid> {
    set t <- s.pcs | HasToken(s.pcs[t])
  }

  /** The rights to write that exist: threads about to write, and writes in flight. */
  ghost function Tokens<T>(s: State<T>): nat {
    |Holders(s)| + |s.ops|
  }

  /** In every interleaving there is at most one write token: one if something is queued and no write has
      failed, none after a failure, and on an empty queue one exactly while a thread that has popped the last
      item has yet to see so. Its node is the queue's front; no thread pops an empty queue and no write reads
      from a node that has left the queue. */
  lemma OneToken<T>(c: Config, acts: seq<Action<T>>)
    requires IsRun(c, Init(), acts)
    ensures var s := Exec(c, Init(), acts);
            && Tokens(s) <= 1
            && (s.queue != [] ==> Tokens(s) == if s.aborted == [] then 1 else 0)
            && (s.queue == [] ==> Tokens(s) == if exists t <- s.pcs :: s.pcs[t].Popped? then 1 else 0)
            && (s.aborted != [] ==> s.queue != []) && (s.lock.Free? ==> forall t <- s.pcs :: !s.pcs[t].Popped?)
            && (forall op <- s.ops :: s.queue != [] && op.node == s.queue[0])
            && (forall t <- s.pcs | s.pcs[t].Got? || s.pcs[t].Start? ::
                  s.queue != [] && s.pcs[t].node == s.queue[0])
            && (forall t :: Enabled(c, s, Action<T>.Pop(t)) ==> s.queue != [])
            && (forall t, u | t in s.pcs && u in s.pcs && InLock(s.pcs[t]) && InLock(s.pcs[u]) :: t == u)
            && !s.fault
  {
    var s, w := Exec(c, Init(), acts), ExecOwner(c, Init(), Nobody, acts);
    RunsKeepInv(c, Init<T>(), Nobody, acts);
    if w.Thread? {
      assert Holders(s) == {w.t};
    } else {
      assert Holders(s) == {};
    }
  }

  /** The buffer of a write in flight stays at the front of the queue until that write's own handler
      runs, whatever other threads push, pop or close meanwhile. */
  lemma BufferStaysInFront<T>(c: Config, acts: seq<Action<T>>, a: Action<T>)
    requires IsRun(c, Init(), acts) && Exec(c, Init(), acts).ops != []
    requires Enabled(c, Exec(c, Init(), acts), a) && !a.Done? && !a.Abort?
    ensures var s := Exec(c, Init(), acts);
            var s' := Next(c, s, a);
            && |s'.ops| == 1 && s.queue != [] && s'.queue != []
            && s'.ops[0].node == s'.queue[0] == s.queue[0] == s.ops[0].node
  {
    var s, w := Exec(c, Init(), acts), ExecOwner(c, Init(), Nobody, acts);
    RunsKeepInv(c, Init<T>(), Nobody, acts);
    StepKeepsInv(c, s, w, a);
  }

  // ----- the fine-grained sender does what the atomic one does -----

  ghost function Items<T>(q: seq<Node<T>>): seq<seq<T>> {
    seq(|q|, i requires 0 <= i < |q| => q[i].item)
  }

  /** The atomic sender's state that a reachable state stands for. */
  ghost function View<T>(s: State<T>, w: Owner): Sender.State<T>
    requires TokenInv(s, w)
  {
    var sent :=
      if s.queue == [] then 0
      else match w
        case Kernel => s.ops[0].sent
        case Thread(t) => if s.pcs[t].DoneWait? || s.pcs[t].DoneIn? then |s.queue[0].item| else 0
        case Nobody => s.aborted[0].sent;
    Sender.State(Items(s.queue), s.queue != [] && !w.Nobody?, sent, s.closed, s.wire, s.accepted)
  }

  /** The atomic step, if any, that an action stands for. */
  ghost function Mimic<T>(c: Config, s: State<T>, a: Action<T>): seq<Sender.Step<T>>
    requires Enabled(c, s, a)
  {
    match a
    case Measure(t) => if Sender.Full(c.bound, |s.queue|) then [Sender.Send(s.pcs[t].item)] else []
    case Push(t) => [Sender.Send(s.pcs[t].item)]
    case Pop(_) => [Sender.Complete]
    case Transfer(_, n) => [Sender.Transfer(n)]
    case Abort(_, _) => [Sender.Fail]
    case CloseSocket => [Sender.Close]
    case _ => []
  }

  ghost predicate Mimics<T>(c: Config, s: State<T>, w: Owner, a: Action<T>)
    requires Enabled(c, s, a) && TokenInv(s, w) && TokenInv(Next(c, s, a), NextOwner(c, s, w, a))
  {
    var m, v, v' := Mimic(c, s, a), View(s, w), View(Next(c, s, a), NextOwner(c, s, w, a));
    if m == [] then v == v' && Emits(c, s, a) == []
    else
      && Sender.Enabled(v, m[0])
      && Sender.Next(c.bound, v, m[0]) == v'
      && Sender.Emits(c.bound, v, m[0]) == Emits(c, s, a)
  }

  lemma PushMimics<T>(c: Config, s: State<T>, w: Owner, t: Tid)
    requires Inv(c, s, w) && Enabled(c, s, Action<T>.Push(t))
    requires TokenInv(Next(c, s, Push(t)), NextOwner(c, s, w, Push(t)))
    ensures Mimics(c, s, w, Push(t))
  {
    assert Items(Next(c, s, Push(t)).queue) == Items(s.queue) + [s.pcs[t].item];
  }

  lemma PopMimics<T>(c: Config, s: State<T>, w: Owner, t: Tid)
    requires Inv(c, s, w) && Enabled(c, s, Action<T>.Pop(t))
    requires TokenInv(Next(c, s, Pop(t)), NextOwner(c, s, w, Pop(t)))
    ensures Mimics(c, s, w, Pop(t))
  {
    assert Items(Next(c, s, Pop(t)).queue) == Items(s.queue)[1..];
  }

  lemma TransferMimics<T>(c: Config, s: State<T>, w: Owner, i: nat, n: nat)
    requires Inv(c, s, w) && Enabled(c, s, Action<T>.Transfer(i, n))
    requires TokenInv(Next(c, s, Transfer(i, n)), NextOwner(c, s, w, Transfer(i, n)))
    ensures Mimics(c, s, w, Transfer(i, n))
  {
  }

  lemma AbortMimics<T>(c: Config, s: State<T>, w: Owner, i: nat, t: Tid)
    requires Inv(c, s, w) && Enabled(c, s, Action<T>.Abort(i, t))
    requires TokenInv(Next(c, s, Abort(i, t)), NextOwner(c, s, w, Abort(i, t)))
    ensures Mimics(c, s, w, Abort(i, t))
  {
  }

  /** Reading the front and starting the write are invisible. */
  lemma StartMimics<T>(c: Config, s: State<T>, w: Owner, a: Action<T>)
    requires Inv(c, s, w) && Enabled(c, s, a) && (a.Front? || a.Begin?)
    requires TokenInv(Next(c, s, a), NextOwner(c, s, w, a))
    ensures Mimics(c, s, w, a)
  {
  }

  /** So are calls, locking, and the entry into the handler. */
  lemma SilentMimics<T>(c: Config, s: State<T>, w: Owner, a: Action<T>)
    requires Inv(c, s, w) && Enabled(c, s, a) && Mimic(c, s, a) == [] && !a.Front? && !a.Begin?
    requires TokenInv(Next(c, s, a), NextOwner(c, s, w, a))
    ensures Mimics(c, s, w, a)
  {
  }

  lemma StepMimics<T>(c: Config, s: State<T>, w: Owner, a: Action<T>)
    requires Inv(c, s, w) && Enabled(c, s, a)
    requires TokenInv(Next(c, s, a), NextOwner(c, s, w, a))
    ensures Mimics(c, s, w, a)
  {
    if a.Front? || a.Begin? {
      StartMimics(c, s, w, a);
    } else if Mimic(c, s, a) == [] {
      SilentMimics(c, s, w, a);
    } else {
      match a
      case Push(t) => PushMimics(c, s, w, t);
      case Pop(t) => PopMimics(c, s, w, t);
      case Transfer(i, n) => TransferMimics(c, s, w, i, n);
      case Abort(i, t) => AbortMimics(c, s, w, i, t);
      case Measure(_) =>
      case CloseSocket =>
    }
  }

  lemma StepIsAtomicRun<T>(c: Config, s: State<T>, w: Owner, a: Action<T>)
    requires Inv(c, s, w) && Enabled(c, s, a)
    ensures Inv(c, Next(c, s, a), NextOwner(c, s, w, a))
    ensures var v, m := View(s, w), Mimic(c, s, a);
            && Sender.IsRun(c.bound, v, m)
            && Sender.Exec(c.bound, v, m) == View(Next(c, s, a), NextOwner(c, s, w, a))
            && Sender.Trace(c.bound, v, m) == Emits(c, s, a)
  {
    var v, m := View(s, w), Mimic(c, s, a);
    StepKeepsInv(c, s, w, a);
    StepMimics(c, s, w, a);
    if m != [] {
      Sender.OneStep(c.bound, v, m[0]);
      assert m == [m[0]];
    }
  }

  ghost function MimicRun<T>(c: Config, s: State<T>, acts: seq<Action<T>>): seq<Sender.Step<T>>
    requires IsRun(c, s, acts)
    decreases |acts|
  {
    if acts == [] then [] else Mimic(c, s, acts[0]) + MimicRun(c, Next(c, s, acts[0]), acts[1..])
  }

  /** Refinement: every run shows the same accepted and refused items, wire units, failures and closes,
      in the same order, as a run of the atomic sender. */
  lemma {:induction false} RunsAreAtomic<T>(c: Config, s: State<T>, w: Owner, acts: seq<Action<T>>)
    requires Inv(c, s, w) && IsRun(c, s, acts)
    ensures Inv(c, Exec(c, s, acts), ExecOwner(c, s, w, acts))
    ensures var m, v := MimicRun(c, s, acts), View(s, w);
            && Sender.IsRun(c.bound, v, m)
            && Sender.Exec(c.bound, v, m) == View(Exec(c, s, acts), ExecOwner(c, s, w, acts))
            && Sender.Trace(c.bound, v, m) == Trace(c, s, acts)
    decreases |acts|
  {
    if acts != [] {
      var s', w' := Next(c, s, acts[0]), NextOwner(c, s, w, acts[0]);
      StepIsAtomicRun(c, s, w, acts[0]);
      RunsAreAtomic(c, s', w', acts[1..]);
      Sender.Compose(c.bound, View(s, w), Mimic(c, s, acts[0]), MimicRun(c, s', acts[1..]));
    }
  }

  // ----- and everything the atomic one does -----

  lemma Cons<T>(c: Config, s: State<T>, a: Action<T>, acts: seq<Action<T>>)
    requires Enabled(c, s, a) && IsRun(c, Next(c, s, a), acts)
    ensures IsRun(c, s, [a] + acts)
    ensures Exec(c, s, [a] + acts) == Exec(c, Next(c, s, a), acts)
    ensures MimicRun(c, s, [a] + acts) == Mimic(c, s, a) + MimicRun(c, Next(c, s, a), acts)
    ensures Trace(c, s, [a] + acts) == Emits(c, s, a) + Trace(c, Next(c, s, a), acts)
  {
    assert ([a] + acts)[1..] == acts;
  }

  lemma {:induction false} Compose<T>(c: Config, s: State<T>, one: seq<Action<T>>, two: seq<Action<T>>)
    requires IsRun(c, s, one) && IsRun(c, Exec(c, s, one), two)
    ensures IsRun(c, s, one + two)
    ensures Exec(c, s, one + two) == Exec(c, Exec(c, s, one), two)
    ensures MimicRun(c, s, one + two) == MimicRun(c, s, one) + MimicRun(c, Exec(c, s, one), two)
    decreases |one|
  {
    if one == [] {
      assert one + two == two;
    } else {
      var s' := Next(c, s, one[0]);
      Compose(c, s', one[1..], two);
      TailOfAppend(one, two);
      Associate(Mimic(c, s, one[0]), MimicRun(c, s', one[1..]), MimicRun(c, Exec(c, s, one), two));
    }
  }

  /** Nobody is inside Send or HandleWrite. */
  ghost predicate Quiet<T>(s: State<T>) {
    s.lock.Free? && forall t <- s.pcs :: s.pcs[t].Idle?
  }

  /** What is left to do for thread 0 in a critical section. */
  function Rest<T>(c: Config, start: bool): seq<Action<T>> {
    if !start then [Unlock(0)]
    else if c.startUnderLock then [Begin(0)] + [Unlock(0)]
    else [Unlock(0)] + [Begin(0)]
  }

  lemma RestRuns<T>(c: Config, s: State<T>)
    requires s.lock == Held(0) && 0 in s.pcs && (s.pcs[0].Leave? || s.pcs[0].Got?)
    requires forall t <- s.pcs :: t != 0 ==> s.pcs[t].Idle?
    ensures var r := Rest(c, s.pcs[0].Got?);
            IsRun(c, s, r) && MimicRun(c, s, r) == [] && Quiet(Exec(c, s, r))
  {
    var r := Rest<T>(c, s.pcs[0].Got?);
    var s' := Next(c, s, r[0]);
    if s.pcs[0].Got? {
      Cons(c, s', r[1], []);
      Cons(c, s, r[0], [r[1]]);
    } else {
      Cons(c, s, r[0], []);
    }
  }

  /** Thread 0 alone carries out one atomic step. */
  function Script<T>(c: Config, v: Sender.State<T>, a: Sender.Step<T>): seq<Action<T>> {
    match a
    case Send(x) =>
      [Call(0, x)] + ([Acquire(0)] + ([Measure(0)] +
      if Sender.Full(c.bound, |v.queue|) then Rest(c, false) else [Push(0)] + Rest(c, v.queue == [])))
    case Transfer(n) => [Transfer(0, n)]
    case Complete => [Done(0, 0)] + ([Acquire(0)] + ([Pop(0)] + ([Front(0)] + Rest(c, |v.queue| > 1))))
    case Fail => [Abort(0, 0)]
    case Close => [CloseSocket]
  }

  lemma RefusedScript<T>(c: Config, s: State<T>, x: seq<T>)
    requires Quiet(s) && Sender.Full(c.bound, |s.queue|)
    ensures var r := [Call(0, x)] + ([Acquire(0)] + ([Measure(0)] + Rest(c, false)));
            IsRun(c, s, r) && MimicRun(c, s, r) == [Sender.Send(x)] && Quiet(Exec(c, s, r))
  {
    var s1 := Next(c, s, Call(0, x));
    var s2 := Next(c, s1, Acquire(0));
    RestRuns(c, Next(c, s2, Measure(0)));
    Cons(c, s2, Measure(0), Rest(c, false));
    Cons(c, s1, Acquire(0), [Measure(0)] + Rest(c, false));
    Cons(c, s, Call(0, x), [Acquire(0)] + ([Measure(0)] + Rest(c, false)));
  }

  lemma PushRuns<T>(c: Config, s: State<T>)
    requires s.lock == Held(0) && 0 in s.pcs && s.pcs[0].Sized? && s.pcs[0].size == |s.queue|
    requires forall t <- s.pcs :: t != 0 ==> s.pcs[t].Idle?
    ensures var r := [Push(0)] + Rest(c, s.queue == []);
            IsRun(c, s, r) && MimicRun(c, s, r) == [Sender.Send(s.pcs[0].item)] && Quiet(Exec(c, s, r))
  {
    RestRuns(c, Next(c, s, Push(0)));
    Cons(c, s, Push(0), Rest(c, s.queue == []));
  }

  lemma AcceptedScript<T>(c: Config, s: State<T>, x: seq<T>)
    requires Quiet(s) && !Sender.Full(c.bound, |s.queue|)
    ensures var r := [Call(0, x)] + ([Acquire(0)] + ([Measure(0)] + ([Push(0)] + Rest(c, s.queue == []))));
            IsRun(c, s, r) && MimicRun(c, s, r) == [Sender.Send(x)] && Quiet(Exec(c, s, r))
  {
    var s1 := Next(c, s, Call(0, x));
    var s2 := Next(c, s1, Acquire(0));
    var r := [Push(0)] + Rest(c, s.queue == []);
    PushRuns(c, Next(c, s2, Measure(0)));
    Cons(c, s2, Measure(0), r);
    Cons(c, s1, Acquire(0), [Measure(0)] + r);
    Cons(c, s, Call(0, x), [Acquire(0)] + ([Measure(0)] + r));
  }

  lemma FrontRuns<T>(c: Config, s: State<T>)
    requires s.lock == Held(0) && 0 in s.pcs && s.pcs[0].Popped?
    requires forall t <- s.pcs :: t != 0 ==> s.pcs[t].Idle?
    ensures var r := [Front(0)] + Rest(c, s.queue != []);
            IsRun(c, s, r) && MimicRun(c, s, r) == [] && Quiet(Exec(c, s, r))
  {
    RestRuns(c, Next(c, s, Front(0)));
    Cons(c, s, Front(0), Rest(c, s.queue != []));
  }

  lemma CompleteScript<T>(c: Config, s: State<T>)
    requires Quiet(s) && |s.ops| == 1 && s.ops[0].sent == |s.ops[0].node.item| && s.queue != []
    ensures var r := [Done(0, 0)] + ([Acquire(0)] + ([Pop(0)] + ([Front(0)] + Rest(c, |s.queue| > 1))));
            IsRun(c, s, r) && MimicRun(c, s, r) == [Sender.Complete] && Quiet(Exec(c, s, r))
  {
    var s1 := Next(c, s, Done(0, 0));
    var s2 := Next(c, s1, Acquire(0));
    var r := [Front(0)] + Rest(c, |s.queue| > 1);
    FrontRuns(c, Next(c, s2, Pop(0)));
    Cons(c, s2, Pop(0), r);
    Cons(c, s1, Acquire(0), [Pop(0)] + r);
    Cons(c, s, Done(0, 0), [Acquire(0)] + ([Pop(0)] + r));
  }

  lemma ScriptWorks<T>(c: Config, s: State<T>, w: Owner, a: Sender.Step<T>)
    requires Inv(c, s, w) && Quiet(s) && Sender.Enabled(View(s, w), a)
    ensures var r := Script(c, View(s, w), a);
            IsRun(c, s, r) && MimicRun(c, s, r) == [a] && Quiet(Exec(c, s, r))
  {
    match a
    case Send(x) =>
      if Sender.Full(c.bound, |s.queue|) {
        RefusedScript(c, s, x);
      } else {
        AcceptedScript(c, s, x);
      }
    case Complete => CompleteScript(c, s);
    case Transfer(n) => Cons(c, s, Transfer(0, n), []);
    case Fail => Cons(c, s, Abort(0, 0), []);
    case Close => Cons(c, s, CloseSocket, []);
  }

  ghost function ScriptRun<T>(c: Config, v: Sender.State<T>, steps: seq<Sender.Step<T>>): seq<Action<T>>
    requires Sender.IsRun(c.bound, v, steps)
    decreases |steps|
  {
    if steps == [] then []
    else Script(c, v, steps[0]) + ScriptRun(c, Sender.Next(c.bound, v, steps[0]), steps[1..])
  }

  lemma ScriptReaches<T>(c: Config, s: State<T>, w: Owner, a: Sender.Step<T>) returns (s': State<T>, w': Owner)
    requires Inv(c, s, w) && Quiet(s) && Sender.Enabled(View(s, w), a)
    ensures var r := Script(c, View(s, w), a);
            IsRun(c, s, r) && MimicRun(c, s, r) == [a] && s' == Exec(c, s, r)
    ensures Quiet(s') && Inv(c, s', w') && View(s', w') == Sender.Next(c.bound, View(s, w), a)
  {
    var r, v := Script(c, View(s, w), a), View(s, w);
    ScriptWorks(c, s, w, a);
    RunsAreAtomic(c, s, w, r);
    s', w' := Exec(c, s, r), ExecOwner(c, s, w, r);
    Sender.OneStep(c.bound, v, a);
  }

  /** Conversely every run of the atomic sender can be carried out by the threads. */
  lemma {:induction false} AtomicRunsHappen<T>(c: Config, s: State<T>, w: Owner, steps: seq<Sender.Step<T>>)
    requires Inv(c, s, w) && Quiet(s) && Sender.IsRun(c.bound, View(s, w), steps)
    ensures var acts := ScriptRun(c, View(s, w), steps);
            IsRun(c, s, acts) && MimicRun(c, s, acts) == steps
    decreases |steps|
  {
    if steps != [] {
      var s', w' := ScriptReaches(c, s, w, steps[0]);
      AtomicRunsHappen(c, s', w', steps[1..]);
      Compose(c, s, Script(c, View(s, w), steps[0]), ScriptRun(c, View(s', w'), steps[1..]));
      HeadTail(steps);
    }
  }

  lemma InitIsQuiet<T>(c: Config)
    ensures var s: State<T> := Init();
            Inv(c, s, Nobody) && Quiet(s) && View(s, Nobody) == Sender.Init()
  {
  }

  /** Starting the write before or after the unlock makes no observable difference: whatever one
      variant shows, the other shows too, by a run built from the first one's. */
  lemma SameTraces<T>(c: Config, d: Config, acts: seq<Action<T>>) returns (other: seq<Action<T>>)
    requires c.bound == d.bound && IsRun(c, Init(), acts)
    ensures IsRun(d, Init(), other) && Trace(d, Init(), other) == Trace(c, Init(), acts)
  {
    var s: State<T> := Init();
    RunsAreAtomic(c, s, Nobody, acts);
    InitIsQuiet<T>(d);
    other := ScriptRun(d, View(s, Nobody), MimicRun(c, s, acts));
    AtomicRunsHappen(d, s, Nobody, MimicRun(c, s, acts));
    RunsAreAtomic(d, s, Nobody, other);
  }

  /** In particular every trace of the coroutine server's sender is one of `asynServer`'s. */
  lemma CoroutineRefinesAsyn<T>(acts: seq<Action<T>>) returns (other: seq<Action<T>>)
    requires IsRun(COROUTINE, Init(), acts)
    ensures IsRun(ASYN, Init(), other) && Trace(ASYN, Init(), other) == Trace(COROUTINE, Init(), acts)
  {
    other := SameTraces(COROUTINE, ASYN, acts);
  }

  /** In every interleaving, before and after errors: the wire followed by what has not been transferred
      is the accepted items in acceptance order, so the wire is a prefix of them, and all of them once
      nothing is queued. */
  lemma WireIsPrefix<T>(c: Config, acts: seq<Action<T>>)
    requires IsRun(c, Init(), acts)
    ensures var s := Exec(c, Init(), acts);
            var w := ExecOwner(c, Init(), Nobody, acts);
            && Inv(c, s, w) && Concat(s.accepted) == s.wire + Sender.Unsent(View(s, w))
            && s.wire <= Concat(s.accepted)
            && (s.queue == [] ==> s.wire == Concat(s.accepted))
            && (c.bound.Max? ==> |s.queue| <= c.bound.n + 1)
  {
    RunsAreAtomic(c, Init<T>(), Nobody, acts);
    Sender.InitValid<T>(c.bound);
    InitIsQuiet<T>(c);
    Sender.RunsConserve(c.bound, Sender.Init(), MimicRun(c, Init<T>(), acts));
  }

  /** Fail-stop with threads: after a failed write nothing more is ever transferred, queued items
      stay, and no thread ever starts a write again. */
  lemma FailureIsFinal<T>(c: Config, acts: seq<Action<T>>, more: seq<Action<T>>)
    requires IsRun(c, Init(), acts) && Exec(c, Init(), acts).aborted != []
    requires IsRun(c, Exec(c, Init(), acts), more)
    ensures var s, s' := Exec(c, Init(), acts), Exec(c, Exec(c, Init(), acts), more);
            s'.wire == s.wire && s'.ops == [] && Tokens(s') == 0 && s'.queue != [] && Items(s.queue) <= Items(s'.queue)
  {
    var s, w := Exec(c, Init<T>(), acts), ExecOwner(c, Init<T>(), Nobody, acts);
    RunsKeepInv(c, Init<T>(), Nobody, acts);
    RunsAreAtomic(c, s, w, more);
    Sender.DeadForever(c.bound, View(s, w), MimicRun(c, s, more));
    var s', w' := Exec(c, s, more), ExecOwner(c, s, w, more);
    assert View(s', w').queue == Items(s'.queue);
    assert Holders(s') == {};
  }

  /** Nothing gets stuck: while some thread is inside Send or HandleWrite, or a write is in flight on an
      open socket, a step is possible that is not a new call, an error or a close. */
  lemma SomeoneMoves<T>(c: Config, s: State<T>, w: Owner) returns (a: Action<T>)
    requires Inv(c, s, w) && (!Quiet(s) || (s.queue != [] && !s.closed))
    ensures Enabled(c, s, a) && !a.Call? && !a.Abort? && !a.CloseSocket?
    ensures (a.Done? ==> a.t == 1) && (a.Transfer? ==> a.n > 0) && (a.Done? || a.Transfer? ==> Quiet(s))
  {
    if s.lock.Held? {
      var t := s.lock.t;
      a := match s.pcs[t]
        case SendIn(_) => Measure(t)
        case Sized(_, _) => Push(t)
        case DoneIn => Pop(t)
        case Popped => Front(t)
        case Got(_) => if c.startUnderLock then Begin(t) else Unlock(t)
        case _ => Unlock(t);
    } else if t :| t in s.pcs && !s.pcs[t].Idle? {
      a := if s.pcs[t].Start? then Begin(t) else Acquire(t);
    } else {
      a := if s.ops[0].sent == |s.ops[0].node.item| then Done(0, 1) else Transfer(0, 1);
    }
  }

  // ----- what a trace shows, and who decides what -----

  /** In every interleaving the trace determines what went out, what was accepted and whether the socket is
      closed. */
  lemma TraceShows<T>(c: Config, acts: seq<Action<T>>)
    requires IsRun(c, Init(), acts)
    ensures var s, trace := Exec(c, Init(), acts), Trace(c, Init(), acts);
            && s.wire == Sender.Sent(trace) && s.accepted == Sender.Taken(trace)
            && (s.closed <==> Sender.Failed in trace || Sender.Closed in trace)
  {
    var m := MimicRun(c, Init<T>(), acts);
    RunsAreAtomic(c, Init<T>(), Nobody, acts);
    InitIsQuiet<T>(c);
    Sender.TraceShows(c.bound, Sender.Init(), m);
    assert Sender.Init<T>().wire + Sender.Sent(Trace(c, Init(), acts)) == Sender.Sent(Trace(c, Init(), acts));
    assert Sender.Init<T>().accepted + Sender.Taken(Trace(c, Init(), acts)) == Sender.Taken(Trace(c, Init(), acts));
  }

  /** It shows a failure exactly if a write has failed, and a close exactly if the read side has closed. */
  lemma {:induction false} TraceShowsErrors<T>(c: Config, s: State<T>, acts: seq<Action<T>>)
    requires IsRun(c, s, acts)
    ensures Sender.Failed in Trace(c, s, acts) <==> exists a <- acts :: a.Abort?
    ensures Sender.Closed in Trace(c, s, acts) <==> CloseSocket in acts
    decreases |acts|
  {
    if acts != [] {
      TraceShowsErrors(c, Next(c, s, acts[0]), acts[1..]);
      HeadTail(acts);
      assert Sender.Failed in Emits(c, s, acts[0]) <==> acts[0].Abort?;
      assert Sender.Closed in Emits(c, s, acts[0]) <==> acts[0].CloseSocket?;
    }
  }

  /** The items with which a thread has called `Send`, in order. */
  ghost function Calls<T>(t: Tid, acts: seq<Action<T>>): seq<seq<T>> {
    if acts == [] then []
    else CallOf(t, acts[0]) + Calls(t, acts[1..])
  }

  ghost function CallOf<T>(t: Tid, a: Action<T>): seq<seq<T>> {
    if a.Call? && a.t == t then [a.item] else []
  }

  /** The items that its own steps show as accepted or refused. */
  ghost function Answers<T>(c: Config, s: State<T>, t: Tid, acts: seq<Action<T>>): seq<seq<T>>
    requires IsRun(c, s, acts)
    decreases |acts|
  {
    if acts == [] then []
    else AnswerOf(c, s, t, acts[0]) + Answers(c, Next(c, s, acts[0]), t, acts[1..])
  }

  ghost function AnswerOf<T>(c: Config, s: State<T>, t: Tid, a: Action<T>): seq<seq<T>>
    requires Enabled(c, s, a)
  {
    if (a.Measure? || a.Push?) && a.t == t && Emits(c, s, a) != [] then Sender.DecidedBy(Emits(c, s, a)[0]) else []
  }

  /** The item that a thread is carrying. */
  ghost function Carried<T>(pc: Pc<T>): seq<seq<T>> {
    if pc.SendWait? || pc.SendIn? || pc.Sized? then [pc.item] else []
  }

  lemma StepAnswers<T>(c: Config, s: State<T>, t: Tid, a: Action<T>)
    requires Enabled(c, s, a)
    ensures Carried(PcOf(s, t)) + CallOf(t, a) == AnswerOf(c, s, t, a) + Carried(PcOf(Next(c, s, a), t))
  {
  }

  /** Every call of `Send` is answered once, by its own thread, in the order of the thread's calls: each item
      is accepted or refused, or the thread still carries it. */
  lemma {:induction false} CallsAreAnswered<T>(c: Config, s: State<T>, t: Tid, acts: seq<Action<T>>)
    requires IsRun(c, s, acts)
    ensures Carried(PcOf(s, t)) + Calls(t, acts) == Answers(c, s, t, acts) + Carried(PcOf(Exec(c, s, acts), t))
    decreases |acts|
  {
    var now := Carried(PcOf(s, t));
    if acts == [] {
      assert now + [] == now == [] + now;
    } else {
      var a, s', rest := acts[0], Next(c, s, acts[0]), acts[1..];
      StepAnswers(c, s, t, a);
      CallsAreAnswered(c, s', t, rest);
      Associate(now, CallOf(t, a), Calls(t, rest));
      Associate(AnswerOf(c, s, t, a), Carried(PcOf(s', t)), Calls(t, rest));
      Associate(AnswerOf(c, s, t, a), Answers(c, s', t, rest), Carried(PcOf(Exec(c, s', rest), t)));
    }
  }

  // ----- nothing but the mutex holds anybody up -----

  /** In every reachable state a thread inside `Send` or `HandleWrite` can take its next step, unless another
      thread owns the mutex that it waits for. */
  lemma OnlyTheMutexBlocks<T>(c: Config, s: State<T>, w: Owner, t: Tid) returns (a: Action<T>)
    requires Inv(c, s, w) && !PcOf(s, t).Idle?
    requires PcOf(s, t).SendWait? || PcOf(s, t).DoneWait? ==> s.lock.Free?
    ensures Enabled(c, s, a) && PcOf(Next(c, s, a), t) != PcOf(s, t)
    ensures a.Acquire? || a.Measure? || a.Push? || a.Pop? || a.Front? || a.Begin? || a.Unlock?
    ensures a.t == t
  {
    a := match PcOf(s, t)
      case SendIn(_) => Measure(t)
      case Sized(_, _) => Push(t)
      case DoneIn => Pop(t)
      case Popped => Front(t)
      case Got(_) => if c.startUnderLock then Begin(t) else Unlock(t)
      case Start(_) => Begin(t)
      case Leave => Unlock(t)
      case _ => Acquire(t);
  }

  /** Whatever the threads are doing, a thread that does nothing can be called with any item, can be handed
      the end of the write in flight, good or bad, and the write can move any number of its units. */
  lemma NetworkIsFree<T>(c: Config, s: State<T>, t: Tid, item: seq<T>, n: nat)
    requires PcOf(s, t).Idle?
    ensures Enabled(c, s, Call(t, item)) && Enabled(c, s, Action<T>.CloseSocket)
    ensures s.ops != [] ==> Enabled(c, s, Action<T>.Abort(0, t))
    ensures s.ops != [] && s.ops[0].sent == |s.ops[0].node.item| ==> Enabled(c, s, Action<T>.Done(0, t))
    ensures s.ops != [] && s.ops[0].sent + n <= |s.ops[0].node.item| && !s.closed ==>
              Enabled(c, s, Action<T>.Transfer(0, n))
  {
  }

  lemma Then<T>(c: Config, acts: seq<Action<T>>, a: Action<T>) returns (longer: seq<Action<T>>)
    requires IsRun(c, Init(), acts) && Enabled(c, Exec(c, Init(), acts), a)
    ensures IsRun(c, Init(), longer) && Exec(c, Init(), longer) == Next(c, Exec(c, Init(), acts), a)
  {
    var s := Exec(c, Init(), acts);
    Cons(c, s, a, []);
    assert [a] + [] == [a];
    Compose(c, Init(), acts, [a]);
    longer := acts + [a];
  }

  lemma FirstSend<T>(c: Config, x: seq<T>) returns (acts: seq<Action<T>>)
    requires !Sender.Full(c.bound, 0)
    ensures IsRun(c, Init(), acts)
    ensures var s := Exec(c, Init(), acts);
            && s.lock == Held(1) && s.pcs.Keys == {1} && s.pcs[1] == Got(Node(0, x))
            && s.queue == [Node(0, x)] && s.ops == [] && !s.closed
  {
    acts := Then(c, [], Call(1, x));
    acts := Then(c, acts, Acquire(1));
    acts := Then(c, acts, Measure(1));
    acts := Then(c, acts, Push(1));
  }

  lemma FirstWrite<T>(c: Config, x: seq<T>) returns (acts: seq<Action<T>>)
    requires !Sender.Full(c.bound, 0)
    ensures IsRun(c, Init(), acts)
    ensures var s := Exec(c, Init(), acts);
            s.lock.Free? && s.pcs.Keys == {1} && s.pcs[1].Idle? && s.ops == [Op(Node(0, x), 0)] && !s.closed
  {
    acts := FirstSend(c, x);
    if c.startUnderLock {
      acts := Then(c, acts, Begin(1));
      acts := Then(c, acts, Unlock(1));
    } else {
      acts := Then(c, acts, Unlock(1));
      acts := Then(c, acts, Begin(1));
    }
  }

  /** `Send` and a completion handler do race: one thread can be inside `Send` while the write in flight ends
      and another waits at the entry of `HandleWrite`. */
  lemma HandlersRace<T>(c: Config, x: seq<T>, y: seq<T>) returns (acts: seq<Action<T>>)
    requires !Sender.Full(c.bound, 0)
    ensures IsRun(c, Init(), acts)
    ensures var s := Exec(c, Init(), acts); PcOf(s, 1) == SendIn(y) && PcOf(s, 2).DoneWait?
  {
    acts := FirstWrite(c, x);
    acts := Then(c, acts, Transfer(0, |x|));
    acts := Then(c, acts, Call(1, y));
    acts := Then(c, acts, Acquire(1));
    acts := Then(c, acts, Done(0, 2));
  }

  /** The window that the two unlock orders differ in: `coroutineServer` can be about to start a write while
      another thread is inside `Send`; `asynServer` cannot. */
  lemma WindowIff<T>(c: Config, x: seq<T>, y: seq<T>)
    requires !Sender.Full(c.bound, 0)
    ensures (exists acts :: ShowsWindow(c, x, y, acts)) <==> !c.startUnderLock
  {
    if !c.startUnderLock {
      var acts := FirstSend(c, x);
      acts := Then(c, acts, Unlock(1));
      acts := Then(c, acts, Call(2, y));
      acts := Then(c, acts, Acquire(2));
      assert ShowsWindow(c, x, y, acts);
    } else if acts :| ShowsWindow(c, x, y, acts) {
      RunsKeepInv(c, Init<T>(), Nobody, acts);
    }
  }

  /** The two servers differ in this, and not in their bound. */
  lemma ServersDiffer<T>(x: seq<T>, y: seq<T>)
    ensures (exists acts :: ShowsWindow(COROUTINE, x, y, acts)) && !(exists acts :: ShowsWindow(ASYN, x, y, acts))
    ensures ASYN.bound == COROUTINE.bound == Sender.Max(1000)
  {
    WindowIff(COROUTINE, x, y);
    WindowIff(ASYN, x, y);
  }

  ghost predicate ShowsWindow<T>(c: Config, x: seq<T>, y: seq<T>, acts: seq<Action<T>>) {
    IsRun(c, Init(), acts)
    && var s := Exec(c, Init(), acts);
       PcOf(s, 1).Start? && PcOf(s, 1).node.item == x && PcOf(s, 2) == SendIn(y)
  }
}
