/** All threads of a server with all its mutexes: the logic queue's, the session table's, and one
    send mutex for each session. Callbacks run with the logic mutex held and call `Send`, which takes a send mutex. */
module LockOrder {
  type Tid = nat
  datatype Mutex = Logic | Table | Send(session: nat)

  datatype Pc =
    | Idle
    | PostWant | PostIn                                     // PostMsgToQue
    | WorkWant | WorkIn | WorkSleep                         // DealMsg, and its wait
    | CallWant(session: nat) | CallIn(session: nat)         // Send from a callback
    | WriteWant(session: nat) | WriteIn(session: nat)       // HandleWrite
    | TableWant | TableIn                                   // HandleAccept, ClearSession

  datatype State = State(pcs: map<Tid, Pc>, owner: map<Mutex, Tid>)

  datatype Action =
    | Move(t: Tid, to: Pc)  // no mutex changes hands
    | Lock(t: Tid)          // the mutex that the thread waits for
    | Unlock(t: Tid)        // the mutex that it locked last
    | Wait(t: Tid)          // condition variable: release and sleep

  datatype Want = Nothing | One(m: Mutex)

  function PcOf(s: State, t: Tid): Pc {
    if t in s.pcs then s.pcs[t] else Idle
  }

  function Wanted(pc: Pc): Want {
    match pc
    case PostWant => One(Logic)
    case WorkWant => One(Logic)
    case TableWant => One(Table)
    case CallWant(i) => One(Send(i))
    case WriteWant(i) => One(Send(i))
    case _ => Nothing
  }

  predicate Enabled(s: State, a: Action) {
    match a
    case Move(t, to) =>
      var pc := PcOf(s, t);
      || (pc.Idle? && (to.PostWant? || to.WorkWant? || to.WriteWant? || to.TableWant?))
      || (pc.WorkSleep? && to.WorkWant?)
      || (pc.WorkIn? && to.CallWant?)
    case Lock(t) => Wanted(PcOf(s, t)).One? && Wanted(PcOf(s, t)).m !in s.owner
    case Unlock(t) => var pc := PcOf(s, t); pc.PostIn? || pc.WorkIn? || pc.CallIn? || pc.WriteIn? || pc.TableIn?
    case Wait(t) => PcOf(s, t).WorkIn?
  }

  function Next(s: State, a: Action): State
    requires Enabled(s, a)
  {
    match a
    case Move(t, to) => s.(pcs := s.pcs[t := to])
    case Lock(t) =>
      var to := (match s.pcs[t]
                 case PostWant => PostIn
                 case WorkWant => WorkIn
                 case TableWant => TableIn
                 case CallWant(i) => CallIn(i)
                 case WriteWant(i) => WriteIn(i));
      State(s.pcs[t := to], s.owner[Wanted(s.pcs[t]).m := t])
    case Unlock(t) =>
      (match s.pcs[t]
       case PostIn => State(s.pcs[t := Idle], s.owner - {Logic})
       case WorkIn => State(s.pcs[t := Idle], s.owner - {Logic})
       case TableIn => State(s.pcs[t := Idle], s.owner - {Table})
       case CallIn(i) => State(s.pcs[t := WorkIn], s.owner - {Send(i)})
       case WriteIn(i) => State(s.pcs[t := Idle], s.owner - {Send(i)}))
    case Wait(t) => State(s.pcs[t := WorkSleep], s.owner - {Logic})
  }

  ghost predicate IsRun(s: State, acts: seq<Action>)
    decreases |acts|
  {
    acts != [] ==> Enabled(s, acts[0]) && IsRun(Next(s, acts[0]), acts[1..])
  }

  ghost function Exec(s: State, acts: seq<Action>): State
    requires IsRun(s, acts)
    decreases |acts|
  {
    if acts == [] then s else Exec(Next(s, acts[0]), acts[1..])
  }

  function Init(): State {
    State(map[], map[])
  }

  predicate HasLogic(pc: Pc) {
    pc.PostIn? || pc.WorkIn? || pc.CallWant? || pc.CallIn?
  }

  ghost predicate LogicInv(s: State) {
    && (Logic in s.owner ==> s.owner[Logic] in s.pcs && HasLogic(s.pcs[s.owner[Logic]]))
    && (forall t <- s.pcs | HasLogic(s.pcs[t]) :: Logic in s.owner && s.owner[Logic] == t)
  }

  ghost predicate TableInv(s: State) {
    && (Table in s.owner ==> s.owner[Table] in s.pcs && s.pcs[s.owner[Table]].TableIn?)
    && (forall t <- s.pcs | s.pcs[t].TableIn? :: Table in s.owner && s.owner[Table] == t)
  }

  ghost predicate SendInv(s: State) {
    && (forall i | Send(i) in s.owner ::
          s.owner[Send(i)] in s.pcs && s.pcs[s.owner[Send(i)]] in {CallIn(i), WriteIn(i)})
    && (forall t <- s.pcs | s.pcs[t].CallIn? || s.pcs[t].WriteIn? ::
          Send(s.pcs[t].session) in s.owner && s.owner[Send(s.pcs[t].session)] == t)
  }

  ghost predicate Inv(s: State) {
    LogicInv(s) && TableInv(s) && SendInv(s)
  }

  lemma StepKeepsLogic(s: State, a: Action)
    requires LogicInv(s) && Enabled(s, a)
    ensures LogicInv(Next(s, a))
  {
  }

  lemma StepKeepsTable(s: State, a: Action)
    requires TableInv(s) && Enabled(s, a)
    ensures TableInv(Next(s, a))
  {
  }

  lemma StepKeepsSend(s: State, a: Action)
    requires SendInv(s) && Enabled(s, a)
    ensures SendInv(Next(s, a))
  {
    match a
    case Move(_, _) =>
    case Lock(_) =>
    case Unlock(_) =>
    case Wait(_) =>
  }

  lemma StepKeepsInv(s: State, a: Action)
    requires Inv(s) && Enabled(s, a)
    ensures Inv(Next(s, a))
  {
    StepKeepsLogic(s, a);
    StepKeepsTable(s, a);
    StepKeepsSend(s, a);
  }

  lemma {:induction false} RunsKeepInv(s: State, acts: seq<Action>)
    requires Inv(s) && IsRun(s, acts)
    ensures Inv(Exec(s, acts))
    decreases |acts|
  {
    if acts != [] {
      StepKeepsInv(s, acts[0]);
      RunsKeepInv(Next(s, acts[0]), acts[1..]);
    }
  }

  /** Thread `t` is blocked on a mutex that thread `u` owns. */
  ghost predicate WaitsFor(s: State, t: Tid, u: Tid) {
    var w := Wanted(PcOf(s, t));
    w.One? && w.m in s.owner && s.owner[w.m] == u
  }

  function Rank(pc: Pc): nat {
    match Wanted(pc)
    case One(Logic) => 2
    case One(_) => 1
    case Nothing => 0
  }

  ghost predicate WaitChain(s: State, p: seq<Tid>) {
    forall i | 0 <= i < |p| - 1 :: WaitsFor(s, p[i], p[i + 1])
  }

  lemma {:induction false} RankFalls(s: State, p: seq<Tid>)
    requires Inv(s) && p != [] && WaitChain(s, p)
    ensures Rank(PcOf(s, p[0])) >= Rank(PcOf(s, p[|p| - 1])) + |p| - 1
  {
    if |p| > 1 {
      assert WaitsFor(s, p[0], p[1]);
      assert WaitChain(s, p[1..]) by {
        forall i | 0 <= i < |p| - 2 ensures WaitsFor(s, p[1..][i], p[1..][i + 1]) {
          assert WaitsFor(s, p[i + 1], p[i + 2]);
        }
      }
      RankFalls(s, p[1..]);
    }
  }

  /** In every reachable state of any number of threads and sessions the waits-for relation has no
      cycle, and no chain of it is longer than two steps. */
  lemma NoWaitCycle(acts: seq<Action>, p: seq<Tid>)
    requires IsRun(Init(), acts) && |p| > 1 && WaitChain(Exec(Init(), acts), p)
    ensures p[0] != p[|p| - 1] && |p| <= 3
  {
    RunsKeepInv(Init(), acts);
    RankFalls(Exec(Init(), acts), p);
  }

  /** Hence no deadlock: behind every blocked thread there is one that is not blocked. */
  lemma BlockedBehindRunning(acts: seq<Action>, t: Tid) returns (u: Tid)
    requires IsRun(Init(), acts)
    requires var s := Exec(Init(), acts); Wanted(PcOf(s, t)).One? && !Enabled(s, Lock(t))
    ensures var s := Exec(Init(), acts);
            && (WaitsFor(s, t, u) || exists v :: WaitsFor(s, t, v) && WaitsFor(s, v, u))
            && (Enabled(s, Lock(u)) || Enabled(s, Unlock(u)))
  {
    var s := Exec(Init(), acts);
    RunsKeepInv(Init(), acts);
    u := s.owner[Wanted(PcOf(s, t)).m];
    if Wanted(PcOf(s, u)).One? && !Enabled(s, Lock(u)) {
      var v := u;
      assert WaitsFor(s, t, v);
      u := s.owner[Wanted(PcOf(s, v)).m];
      assert WaitsFor(s, v, u);
    }
  }

  // ----- and all of this does happen -----

  lemma {:induction false} Snoc(s: State, acts: seq<Action>, a: Action)
    requires IsRun(s, acts) && Enabled(Exec(s, acts), a)
    ensures IsRun(s, acts + [a]) && Exec(s, acts + [a]) == Next(Exec(s, acts), a)
    decreases |acts|
  {
    if acts == [] {
      assert acts + [a] == [a];
      assert Exec(Next(s, a), []) == Next(s, a);
    } else {
      Snoc(Next(s, acts[0]), acts[1..], a);
      assert (acts + [a])[1..] == acts[1..] + [a];
    }
  }

  lemma Then(acts: seq<Action>, a: Action) returns (longer: seq<Action>)
    requires IsRun(Init(), acts) && Enabled(Exec(Init(), acts), a)
    ensures IsRun(Init(), longer) && Exec(Init(), longer) == Next(Exec(Init(), acts), a)
  {
    longer := acts + [a];
    Snoc(Init(), acts, a);
  }

  lemma BothInside(i: nat) returns (acts: seq<Action>)
    ensures IsRun(Init(), acts)
    ensures Exec(Init(), acts) == State(map[0 := WorkIn, 1 := WriteIn(i)], map[Logic := 0, Send(i) := 1])
  {
    acts := Then([], Move(0, WorkWant));
    acts := Then(acts, Lock(0));
    acts := Then(acts, Move(1, WriteWant(i)));
    acts := Then(acts, Lock(1));
  }

  /** The bound of NoWaitCycle is attained: a poster behind the worker, whose callback's `Send` is behind a
      network thread in that session's HandleWrite. */
  lemma ChainOfThree(i: nat) returns (acts: seq<Action>, p: seq<Tid>)
    ensures IsRun(Init(), acts) && |p| == 3 && WaitChain(Exec(Init(), acts), p)
    ensures var s := Exec(Init(), acts);
            PcOf(s, p[0]).PostWant? && PcOf(s, p[1]) == CallWant(i) && PcOf(s, p[2]) == WriteIn(i)
  {
    acts := BothInside(i);
    acts := Then(acts, Move(0, CallWant(i)));
    acts := Then(acts, Move(2, PostWant));
    p := [2, 0, 1];
  }

  /** Every thread can be at every place of the code. */
  lemma EveryPlaceIsReached(t: Tid, pc: Pc) returns (acts: seq<Action>)
    ensures IsRun(Init(), acts) && PcOf(Exec(Init(), acts), t) == pc
  {
    acts := [];
    match pc
    case Idle =>
    case PostWant => acts := Then(acts, Move(t, PostWant));
    case PostIn =>
      acts := Then(acts, Move(t, PostWant));
      acts := Then(acts, Lock(t));
    case WorkWant => acts := Then(acts, Move(t, WorkWant));
    case WorkIn =>
      acts := Then(acts, Move(t, WorkWant));
      acts := Then(acts, Lock(t));
    case WorkSleep =>
      acts := Then(acts, Move(t, WorkWant));
      acts := Then(acts, Lock(t));
      acts := Then(acts, Wait(t));
    case CallWant(i) =>
      acts := Then(acts, Move(t, WorkWant));
      acts := Then(acts, Lock(t));
      acts := Then(acts, Move(t, CallWant(i)));
    case CallIn(i) =>
      acts := Then(acts, Move(t, WorkWant));
      acts := Then(acts, Lock(t));
      acts := Then(acts, Move(t, CallWant(i)));
      acts := Then(acts, Lock(t));
    case WriteWant(i) => acts := Then(acts, Move(t, WriteWant(i)));
    case WriteIn(i) =>
      acts := Then(acts, Move(t, WriteWant(i)));
      acts := Then(acts, Lock(t));
    case TableWant => acts := Then(acts, Move(t, TableWant));
    case TableIn =>
      acts := Then(acts, Move(t, TableWant));
      acts := Then(acts, Lock(t));
  }

  /** In every state a thread can leave its place, unless another thread owns the mutex that it waits for: an
      idle one for any mutex or callback, one inside a critical section by releasing what it locked last. */
  lemma OnlyMutexesBlock(s: State, t: Tid, i: nat, to: Pc)
    ensures PcOf(s, t).Idle? && to in {PostWant, WorkWant, WriteWant(i), TableWant} ==> Enabled(s, Move(t, to))
    ensures PcOf(s, t).WorkIn? ==> Enabled(s, Wait(t)) && Enabled(s, Move(t, CallWant(i)))
    ensures PcOf(s, t).WorkSleep? ==> Enabled(s, Move(t, WorkWant))
    ensures Wanted(PcOf(s, t)).Nothing? && !PcOf(s, t).Idle? && !PcOf(s, t).WorkSleep? ==> Enabled(s, Unlock(t))
    ensures Wanted(PcOf(s, t)).One? && !Enabled(s, Lock(t)) ==> exists u :: WaitsFor(s, t, u)
  {
    if Wanted(PcOf(s, t)).One? && !Enabled(s, Lock(t)) {
      assert WaitsFor(s, t, s.owner[Wanted(PcOf(s, t)).m]);
    }
  }
}
