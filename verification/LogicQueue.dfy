/** The shared logic queue: a monitor with a condition variable, any number of posting threads and
    one worker, run one shared-memory step at a time. */
module LogicQueue {
  import opened Seqs
  import Wire
  import opened D = Dispatcher

  type Tid = nat

  /** `asynServer` loops for ever; `coroutineServer` tests the stop flag before each round. */
  datatype Variant = Asyn | Coroutine
  datatype Config = Config(variant: Variant, known: set<Wire.Short>)

  datatype Worker =
    | Top         // at the head of the outer loop
    | Want        // before the lock
    | Check       // lock held, at the test of the inner while
    | ToWait      // lock held, test was true, wait not entered yet
    | Waiting     // blocked in wait, lock released, not notified
    | Woken       // leaving wait, before the lock
    | Decide      // lock held, at the test of the stop flag
    | Handle      // lock held, at front()
    | Called      // lock held, callback has run, pop left to do
    | Drain       // lock held, at the test of the drain loop
    | DrainCalled // lock held, callback has run inside the drain loop
    | Exited      // left through the drain loop
    | Quit        // left through the outer test

  datatype Poster = Idle | PostWait(node: LogicNode) | PostIn(node: LogicNode) | Pushed | Leave

  datatype Lock = Free | ByWorker | ByPoster(t: Tid)

  /** The destructor: flag written, then notify_one. */
  datatype Stopper = Running | Flagged | Notified

  datatype State = State(
    queue: seq<LogicNode>,
    lock: Lock,
    worker: Worker,
    posters: map<Tid, Poster>,
    stopper: Stopper,
    posted: seq<LogicNode>, // history: every push
    log: seq<Entry>,        // history: every dispatch
    seen: nat,              // history: |posted| at the worker's last lock acquisition
    fault: bool             // front() or pop() of an empty queue
  )

  datatype Action =
    | PostCall(t: Tid, node: LogicNode)
    | PostAcquire(t: Tid)
    | PostPush(t: Tid)
    | PostNotify(t: Tid) // notify_one if the size is exactly 1
    | PostUnlock(t: Tid)
    | Work               // the worker's next step
    | Spurious           // the worker wakes up without a notification
    | SetStop
    | NotifyStop

  function Init(): State {
    State.State([], Free, Top, map[], Running, [], [], 0, false)
  }

  predicate Stopped(s: State) {
    !s.stopper.Running?
  }

  predicate Ended(s: State) {
    s.worker.Exited? || s.worker.Quit?
  }

  function PosterOf(s: State, t: Tid): Poster {
    if t in s.posters then s.posters[t] else Idle
  }

  predicate Enabled(s: State, a: Action) {
    match a
    case PostCall(t, _) => PosterOf(s, t).Idle?
    case PostAcquire(t) => PosterOf(s, t).PostWait? && s.lock.Free?
    case PostPush(t) => PosterOf(s, t).PostIn?
    case PostNotify(t) => PosterOf(s, t).Pushed?
    case PostUnlock(t) => PosterOf(s, t).Leave?
    case Work =>
      if s.worker.Want? || s.worker.Woken? then s.lock.Free? else !s.worker.Waiting? && !Ended(s)
    case Spurious => s.worker.Waiting?
    case SetStop => s.stopper.Running?
    case NotifyStop => s.stopper.Flagged?
  }

  function Notify(w: Worker): Worker {
    if w.Waiting? then Woken else w
  }

  function Next(c: Config, s: State, a: Action): State
    requires Enabled(s, a)
  {
    match a
    case PostCall(t, node) => s.(posters := s.posters[t := PostWait(node)])
    case PostAcquire(t) => s.(lock := ByPoster(t), posters := s.posters[t := PostIn(s.posters[t].node)])
    case PostPush(t) =>
      var node := s.posters[t].node;
      s.(queue := s.queue + [node], posted := s.posted + [node], posters := s.posters[t := Pushed])
    case PostNotify(t) =>
      s.(posters := s.posters[t := Leave], worker := if |s.queue| == 1 then Notify(s.worker) else s.worker)
    case PostUnlock(t) => s.(lock := Free, posters := s.posters[t := Idle])
    case Work => WorkerStep(c, s)
    case Spurious => s.(worker := Woken)
    case SetStop => s.(stopper := Flagged)
    case NotifyStop => s.(stopper := Notified, worker := Notify(s.worker))
  }

  function WorkerStep(c: Config, s: State): State
    requires Enabled(s, Work)
  {
    match s.worker
    case Top => s.(worker := if c.variant.Coroutine? && Stopped(s) then Quit else Want)
    case Want => s.(lock := ByWorker, seen := |s.posted|, worker := Check)
    case Woken => s.(lock := ByWorker, seen := |s.posted|, worker := Check)
    case Check => s.(worker := if s.queue == [] && !Stopped(s) then ToWait else Decide)
    case ToWait => s.(lock := Free, worker := Waiting)
    case Decide => s.(worker := if Stopped(s) then Drain else Handle)
    case Handle =>
      if s.queue == [] then s.(fault := true)
      else if s.queue[0].msg.id in c.known then s.(log := s.log + [Entry(s.queue[0], true)], worker := Called)
      else s.(log := s.log + [Entry(s.queue[0], false)], queue := s.queue[1..], lock := Free, worker := Top)
    case Called => Popped(s).(lock := Free, worker := Top)
    case Drain =>
      if s.queue == [] then s.(lock := Free, worker := Exited)
      else if s.queue[0].msg.id in c.known then s.(log := s.log + [Entry(s.queue[0], true)], worker := DrainCalled)
      else s.(log := s.log + [Entry(s.queue[0], false)], queue := s.queue[1..])
    case DrainCalled => Popped(s).(worker := Drain)
  }

  function Popped(s: State): State {
    if s.queue == [] then s.(fault := true) else s.(queue := s.queue[1..])
  }

  ghost predicate IsRun(c: Config, s: State, acts: seq<Action>)
    decreases |acts|
  {
    acts != [] ==> Enabled(s, acts[0]) && IsRun(c, Next(c, s, acts[0]), acts[1..])
  }

  ghost function Exec(c: Config, s: State, acts: seq<Action>): State
    requires IsRun(c, s, acts)
    decreases |acts|
  {
    if acts == [] then s else Exec(c, Next(c, s, acts[0]), acts[1..])
  }

  /** What counts as a fault: front() or pop() of an empty queue. */
  lemma FaultMeans(c: Config, s: State, a: Action)
    requires Enabled(s, a)
    ensures Next(c, s, a).fault <==>
            s.fault || (a.Work? && (s.worker.Handle? || s.worker.Called? || s.worker.DrainCalled?) && s.queue == [])
  {
  }

  /** A poster wakes a sleeping worker up if and only if the queue holds one message then. */
  lemma PostWakesIff(c: Config, s: State, t: Tid)
    requires Enabled(s, PostNotify(t)) && s.worker.Waiting?
    ensures Next(c, s, PostNotify(t)).worker.Woken? <==> |s.queue| == 1
  {
  }

  // ----- what every step keeps -----

  predicate WorkerIn(w: Worker) {
    w.Check? || w.ToWait? || w.Decide? || w.Handle? || w.Called? || w.Drain? || w.DrainCalled?
  }

  predicate PosterIn(p: Poster) {
    p.PostIn? || p.Pushed? || p.Leave?
  }

  ghost predicate LockInv(s: State) {
    && (WorkerIn(s.worker) <==> s.lock.ByWorker?)
    && (forall t <- s.posters :: PosterIn(s.posters[t]) <==> s.lock == ByPoster(t))
    && (s.lock.ByPoster? ==> s.lock.t in s.posters)
  }

  /** The heart of the optimised notification: the worker sleeps on a non-empty queue only while the
      thread that made it non-empty is still about to notify. */
  ghost predicate WakeupInv(s: State) {
    && (s.worker.ToWait? ==> s.queue == [])
    && (s.worker.Waiting? && s.queue != [] ==>
          |s.queue| == 1 && s.lock.ByPoster? && PosterOf(s, s.lock.t).Pushed?)
    && (s.worker.Decide? ==> s.queue != [] || Stopped(s))
    && (s.worker.Handle? || s.worker.Called? || s.worker.DrainCalled? ==> s.queue != [])
    && (s.worker.Drain? || s.worker.DrainCalled? || Ended(s) ==> Stopped(s))
    && !s.fault
  }

  /** The atomic dispatcher's state that a state stands for. */
  function View(s: State): D.State {
    D.State(s.queue, s.worker.Called? || s.worker.DrainCalled?, s.posted, s.log)
  }

  ghost predicate FifoInv(c: Config, s: State) {
    && InOrder(c.known, View(s))
    && (s.lock.ByWorker? ==> s.seen == |s.posted|)
    && (s.worker.Exited? ==> s.seen == |s.log|)
    && (s.worker.Quit? ==> c.variant.Coroutine?)
  }

  ghost predicate Inv(c: Config, s: State) {
    LockInv(s) && WakeupInv(s) && FifoInv(c, s)
  }

  lemma StepKeepsLock(c: Config, s: State, a: Action)
    requires LockInv(s) && WakeupInv(s) && Enabled(s, a)
    ensures LockInv(Next(c, s, a))
  {
  }

  lemma StepKeepsWakeup(c: Config, s: State, a: Action)
    requires LockInv(s) && WakeupInv(s) && Enabled(s, a)
    ensures WakeupInv(Next(c, s, a))
  {
  }

  /** The atomic step, if any, that an action stands for. */
  function Mimic(c: Config, s: State, a: Action): seq<D.Step>
    requires Enabled(s, a)
  {
    match a
    case PostPush(t) => [Post(s.posters[t].node)]
    case Work =>
      if s.worker.Called? || s.worker.DrainCalled? then [Return]
      else if (s.worker.Handle? || s.worker.Drain?) && s.queue != [] then
        [if s.queue[0].msg.id in c.known then Call else Skip]
      else []
    case _ => []
  }

  /** Every step of posters, worker and destructor is invisible or one step of the atomic dispatcher. */
  lemma StepMimics(c: Config, s: State, a: Action)
    requires LockInv(s) && WakeupInv(s) && Enabled(s, a)
    ensures var m := Mimic(c, s, a);
            D.IsRun(c.known, View(s), m) && D.Exec(c.known, View(s), m) == View(Next(c, s, a))
  {
    var m := Mimic(c, s, a);
    if m != [] {
      D.OneStep(c.known, View(s), m[0]);
    }
  }

  lemma StepKeepsFifo(c: Config, s: State, a: Action)
    requires Inv(c, s) && Enabled(s, a)
    ensures FifoInv(c, Next(c, s, a))
  {
    StepMimics(c, s, a);
    var m := Mimic(c, s, a);
    if m != [] {
      StepKeepsOrder(c.known, View(s), m[0]);
    }
  }

  lemma StepKeepsInv(c: Config, s: State, a: Action)
    requires Inv(c, s) && Enabled(s, a)
    ensures Inv(c, Next(c, s, a))
  {
    StepKeepsLock(c, s, a);
    StepKeepsWakeup(c, s, a);
    StepKeepsFifo(c, s, a);
  }

  lemma {:induction false} RunsKeepInv(c: Config, s: State, acts: seq<Action>)
    requires Inv(c, s) && IsRun(c, s, acts)
    ensures Inv(c, Exec(c, s, acts))
    decreases |acts|
  {
    if acts != [] {
      StepKeepsInv(c, s, acts[0]);
      RunsKeepInv(c, Next(c, s, acts[0]), acts[1..]);
    }
  }

  ghost function MimicRun(c: Config, s: State, acts: seq<Action>): seq<D.Step>
    requires IsRun(c, s, acts)
    decreases |acts|
  {
    if acts == [] then [] else Mimic(c, s, acts[0]) + MimicRun(c, Next(c, s, acts[0]), acts[1..])
  }

  /** Refinement: with its mutex, condition variable and stop flag the monitor does what the atomic
      dispatcher can do, in every interleaving and in either server. */
  lemma {:induction false} RunsAreAtomic(c: Config, s: State, acts: seq<Action>)
    requires Inv(c, s) && IsRun(c, s, acts)
    ensures var m := MimicRun(c, s, acts);
            D.IsRun(c.known, View(s), m) && D.Exec(c.known, View(s), m) == View(Exec(c, s, acts))
    decreases |acts|
  {
    if acts != [] {
      var s' := Next(c, s, acts[0]);
      StepMimics(c, s, acts[0]);
      StepKeepsInv(c, s, acts[0]);
      RunsAreAtomic(c, s', acts[1..]);
      D.Cons(c.known, View(s), Mimic(c, s, acts[0]), MimicRun(c, s', acts[1..]));
    }
  }

  // ----- no lost wakeup for posts -----

  /** In every run: a worker that sleeps without having been notified sleeps on an empty queue, except
      while the poster that pushed the first message still holds the lock and is about to notify. */
  lemma NoLostWakeup(c: Config, acts: seq<Action>)
    requires IsRun(c, Init(), acts)
    ensures var s := Exec(c, Init(), acts);
            && (s.worker.Waiting? && s.lock.Free? ==> s.queue == [])
            && (s.worker.Waiting? && s.queue != [] ==>
                  s.lock.ByPoster? && Enabled(s, PostNotify(s.lock.t))
                  && Next(c, s, PostNotify(s.lock.t)).worker.Woken?)
            && (s.worker.Handle? || s.worker.Called? || s.worker.DrainCalled? ==> s.queue != [])
            && !s.fault
  {
    RunsKeepInv(c, Init(), acts);
  }

  /** Unless the worker sleeps on an empty queue or has ended, the worker or the thread that holds the
      lock can take a step: nobody waits for a spurious wakeup or for another post. */
  lemma SomeoneMoves(c: Config, s: State) returns (a: Action)
    requires Inv(c, s) && !Ended(s) && (s.queue != [] || !s.worker.Waiting?)
    ensures Enabled(s, a) && (a.Work? || a.PostPush? || a.PostNotify? || a.PostUnlock?)
  {
    if s.lock.ByPoster? {
      var p := s.posters[s.lock.t];
      a := if p.PostIn? then PostPush(s.lock.t) else if p.Pushed? then PostNotify(s.lock.t) else PostUnlock(s.lock.t);
    } else {
      a := Work;
    }
  }

  // ----- the worker's steps are bounded -----

  /** How far the worker is from its next dispatch, its sleep or its end. */
  function Rank(w: Worker): nat {
    match w
    case Top => 5
    case Want => 4
    case Woken => 4
    case Check => 3
    case Decide => 2
    case ToWait => 1
    case Handle => 1
    case Drain => 1
    case _ => 0
  }

  /** The worker's steps that are invisible to the dispatcher, and those that are not. */
  ghost function Silent(c: Config, s: State, acts: seq<Action>): nat
    requires IsRun(c, s, acts)
    decreases |acts|
  {
    if acts == [] then 0
    else (if acts[0].Work? && Mimic(c, s, acts[0]) == [] then 1 else 0) + Silent(c, Next(c, s, acts[0]), acts[1..])
  }

  ghost function Visible(c: Config, s: State, acts: seq<Action>): nat
    requires IsRun(c, s, acts)
    decreases |acts|
  {
    if acts == [] then 0
    else (if acts[0].Work? && Mimic(c, s, acts[0]) != [] then 1 else 0) + Visible(c, Next(c, s, acts[0]), acts[1..])
  }

  function WorkerSteps(acts: seq<Action>): nat {
    if acts == [] then 0 else (if acts[0].Work? then 1 else 0) + WorkerSteps(acts[1..])
  }

  lemma {:induction false} WorkerStepsCount(acts: seq<Action>)
    ensures WorkerSteps(acts) == multiset(acts)[Work]
  {
    if acts != [] {
      WorkerStepsCount(acts[1..]);
      HeadTail(acts);
      assert multiset(acts) == multiset([acts[0]]) + multiset(acts[1..]);
    }
  }

  function Pushes(acts: seq<Action>): nat {
    if acts == [] then 0 else (if acts[0].PostPush? then 1 else 0) + Pushes(acts[1..])
  }

  /** It may wake the worker up. */
  predicate Wakes(a: Action) {
    a.PostNotify? || a.NotifyStop? || a.Spurious?
  }

  function Wakeups(acts: seq<Action>): nat {
    if acts == [] then 0 else (if Wakes(acts[0]) then 1 else 0) + Wakeups(acts[1..])
  }

  lemma StepCounts(c: Config, s: State, a: Action)
    requires Enabled(s, a)
    ensures |Next(c, s, a).posted| == |s.posted| + if a.PostPush? then 1 else 0
    ensures |Mimic(c, s, a)| == if a.PostPush? || (a.Work? && Mimic(c, s, a) != []) then 1 else 0
  {
  }

  /** The counts in terms of the run: the worker's steps are the silent and the visible ones, each push adds one
      post, and the dispatcher's steps are the pushes and the visible ones. */
  lemma {:induction false} CountsAddUp(c: Config, s: State, acts: seq<Action>)
    requires IsRun(c, s, acts)
    ensures Silent(c, s, acts) + Visible(c, s, acts) == WorkerSteps(acts) == multiset(acts)[Work]
    ensures |Exec(c, s, acts).posted| == |s.posted| + Pushes(acts)
    ensures |MimicRun(c, s, acts)| == Pushes(acts) + Visible(c, s, acts)
    decreases |acts|
  {
    if acts != [] {
      StepCounts(c, s, acts[0]);
      WorkerStepsCount(acts);
      CountsAddUp(c, Next(c, s, acts[0]), acts[1..]);
    }
  }

  lemma RankFalls(c: Config, s: State, a: Action)
    requires Inv(c, s) && Enabled(s, a)
    ensures var s' := Next(c, s, a);
            var woken := if Wakes(a) then 4 else 0;
            && (a.Work? && Mimic(c, s, a) == [] ==> Rank(s'.worker) < Rank(s.worker))
            && (a.Work? && Mimic(c, s, a) != [] ==> Rank(s'.worker) <= Rank(s.worker) + 5)
            && (a.Work? ==> 6 * |s'.queue| + Rank(s'.worker) < 6 * |s.queue| + Rank(s.worker))
            && (!a.Work? ==> Rank(s'.worker) <= Rank(s.worker) + woken)
            && (!a.Work? ==> |s'.queue| == |s.queue| + if a.PostPush? then 1 else 0)
  {
  }

  /** Between two dispatcher steps the worker takes at most five steps, and four more for each notification
      and spurious wakeup. */
  lemma {:induction false} SilentIsBounded(c: Config, s: State, acts: seq<Action>)
    requires Inv(c, s) && IsRun(c, s, acts)
    ensures Silent(c, s, acts) + Rank(Exec(c, s, acts).worker)
            <= Rank(s.worker) + 5 * Visible(c, s, acts) + 4 * Wakeups(acts)
    decreases |acts|
  {
    if acts != [] {
      RankFalls(c, s, acts[0]);
      StepKeepsInv(c, s, acts[0]);
      SilentIsBounded(c, Next(c, s, acts[0]), acts[1..]);
    }
  }

  /** In all, it takes at most six steps for each message, and four for each of those. */
  lemma {:induction false} WorkIsBounded(c: Config, s: State, acts: seq<Action>)
    requires Inv(c, s) && IsRun(c, s, acts)
    ensures WorkerSteps(acts) + 6 * |Exec(c, s, acts).queue| + Rank(Exec(c, s, acts).worker)
            <= 6 * |s.queue| + Rank(s.worker) + 6 * Pushes(acts) + 4 * Wakeups(acts)
    decreases |acts|
  {
    if acts != [] {
      RankFalls(c, s, acts[0]);
      StepKeepsInv(c, s, acts[0]);
      WorkIsBounded(c, Next(c, s, acts[0]), acts[1..]);
    }
  }

  /** So the worker gets there: once neither it nor the thread that holds the lock can take a step, every post
      has been dispatched and no callback is running, unless the worker has ended. */
  lemma AllDispatchedAtRest(c: Config, acts: seq<Action>)
    requires IsRun(c, Init(), acts)
    requires var s := Exec(c, Init(), acts);
             forall a: Action | a.Work? || a.PostPush? || a.PostNotify? || a.PostUnlock? :: !Enabled(s, a)
    ensures var s := Exec(c, Init(), acts);
            Ended(s) || (s.worker.Waiting? && s.queue == [] && Dispatched(s.log) == s.posted)
    ensures Ended(Exec(c, Init(), acts)) ==> Stopped(Exec(c, Init(), acts))
  {
    RunsKeepInv(c, Init(), acts);
    var s := Exec(c, Init(), acts);
    if !Ended(s) && (s.queue != [] || !s.worker.Waiting?) {
      var a := SomeoneMoves(c, s);
    }
  }

  // ----- dispatch in order, exactly once -----

  /** In every run, what has been dispatched followed by what is still pending is the sequence of posts,
      and a callback has run for exactly the dispatched messages whose id is registered. */
  lemma DispatchIsFifo(c: Config, acts: seq<Action>)
    requires IsRun(c, Init(), acts)
    ensures var s := Exec(c, Init(), acts);
            && Dispatched(s.log) + Pending(View(s)) == s.posted
            && forall i | 0 <= i < |s.log| ::
                 s.log[i].node == s.posted[i] && (s.log[i].called <==> s.posted[i].msg.id in c.known)
  {
    RunsKeepInv(c, Init(), acts);
    var s := Exec(c, Init(), acts);
    forall i | 0 <= i < |s.log| ensures s.log[i].node == s.posted[i] {
      assert (Dispatched(s.log) + Pending(View(s)))[i] == Dispatched(s.log)[i];
      assert s.log[i] in s.log;
    }
  }

  // ----- stopping -----

  /** Leaving through the drain loop means that everything posted before the worker's last acquisition
      of the lock has been dispatched; `asynServer` can leave in no other way. */
  lemma DrainOnStop(c: Config, acts: seq<Action>)
    requires IsRun(c, Init(), acts)
    ensures var s := Exec(c, Init(), acts);
            && (s.worker.Exited? ==> s.seen <= |s.posted| && Dispatched(s.log) == s.posted[..s.seen])
            && (c.variant.Asyn? ==> !s.worker.Quit?)
  {
    RunsKeepInv(c, Init(), acts);
    var s := Exec(c, Init(), acts);
    if s.worker.Exited? {
      assert (Dispatched(s.log) + Pending(View(s)))[..|s.log|] == Dispatched(s.log);
    }
  }

  /** The flag is up and the worker, in `coroutineServer`, will meet the outer test next. */
  predicate Leaves(s: State) {
    Stopped(s) && (s.worker.Top? || s.worker.Handle? || s.worker.Called? || s.worker.Quit?)
  }

  /** How many messages a worker that leaves has dispatched in the end. */
  function Last(s: State): nat {
    |s.log| + if s.worker.Handle? then 1 else 0
  }

  lemma {:induction false} LeavesForGood(c: Config, s: State, acts: seq<Action>)
    requires c.variant.Coroutine? && Inv(c, s) && Leaves(s) && IsRun(c, s, acts)
    ensures var e := Exec(c, s, acts); Leaves(e) && Last(e) == Last(s)
    decreases |acts|
  {
    if acts != [] {
      StepKeepsInv(c, s, acts[0]);
      LeavesForGood(c, Next(c, s, acts[0]), acts[1..]);
    }
  }

  /** The flag is up, and the worker will see the first `n` posts once more before it ends. */
  predicate WillSee(c: Config, s: State, n: nat) {
    && Stopped(s) && n <= |s.posted|
    && (s.worker.Exited? ==> n <= s.seen)
    && (c.variant.Coroutine? ==> !Leaves(s))
  }

  lemma {:induction false} SeesForGood(c: Config, s: State, n: nat, acts: seq<Action>)
    requires Inv(c, s) && WillSee(c, s, n) && IsRun(c, s, acts)
    ensures WillSee(c, Exec(c, s, acts), n)
    decreases |acts|
  {
    if acts != [] {
      StepKeepsInv(c, s, acts[0]);
      SeesForGood(c, Next(c, s, acts[0]), n, acts[1..]);
    }
  }

  lemma StepOnlyAdds(c: Config, s: State, a: Action)
    requires Enabled(s, a)
    ensures s.posted <= Next(c, s, a).posted && s.log <= Next(c, s, a).log
  {
  }

  lemma {:induction false} PostsStay(c: Config, s: State, acts: seq<Action>)
    requires IsRun(c, s, acts)
    ensures s.posted <= Exec(c, s, acts).posted && s.log <= Exec(c, s, acts).log
    decreases |acts|
  {
    if acts != [] {
      StepOnlyAdds(c, s, acts[0]);
      PostsStay(c, Next(c, s, acts[0]), acts[1..]);
    }
  }

  /** What an ended worker has not dispatched is what is queued. */
  lemma EndedQueue(c: Config, e: State)
    requires Inv(c, e) && Ended(e)
    ensures |e.log| <= |e.posted| && Dispatched(e.log) == e.posted[..|e.log|] && e.queue == e.posted[|e.log|..]
  {
    assert e.posted == Dispatched(e.log) + e.queue;
  }

  /** At the moment when the destructor raises the flag: a message posted before is never dispatched if
      and only if the worker of `coroutineServer` is at the outer test with a message waiting, or is busy
      with the front message and another one waits. It then leaves by the outer test, wherever the posters
      and the destructor are by then, having finished the message in hand and no other. */
  lemma LeftBehindIff(c: Config, acts: seq<Action>, more: seq<Action>)
    requires IsRun(c, Init(), acts) && Enabled(Exec(c, Init(), acts), SetStop)
    requires var s' := Next(c, Exec(c, Init(), acts), SetStop); IsRun(c, s', more) && Ended(Exec(c, s', more))
    ensures var s := Exec(c, Init(), acts);
            var e := Exec(c, Next(c, s, SetStop), more);
            && |e.log| <= |e.posted| && s.posted <= e.posted
            && Dispatched(e.log) == e.posted[..|e.log|] && e.queue == e.posted[|e.log|..]
            && (|e.log| < |s.posted| <==>
                  && c.variant.Coroutine?
                  && ((s.worker.Top? && s.queue != []) || ((s.worker.Handle? || s.worker.Called?) && |s.queue| > 1)))
            && (e.worker.Quit? <==>
                  c.variant.Coroutine? && (s.worker.Top? || s.worker.Handle? || s.worker.Called?))
            && (e.worker.Quit? ==> |e.log| == |s.log| + if s.worker.Handle? then 1 else 0)
  {
    var s := Exec(c, Init(), acts);
    var s' := Next(c, s, SetStop);
    var e := Exec(c, s', more);
    RunsKeepInv(c, Init(), acts);
    StepKeepsInv(c, s, SetStop);
    RunsKeepInv(c, s', more);
    PostsStay(c, s', more);
    EndedQueue(c, e);
    assert |s.posted| == |s.log| + |Pending(View(s))|;
    if c.variant.Coroutine? && Leaves(s') {
      LeavesForGood(c, s', more);
    } else {
      SeesForGood(c, s', |s.posted|, more);
    }
  }

  /** What a worker leaves behind stays there: nothing is dispatched after its end. */
  lemma {:induction false} EndedForGood(c: Config, s: State, acts: seq<Action>)
    requires Ended(s) && IsRun(c, s, acts)
    ensures var e := Exec(c, s, acts); e.worker == s.worker && e.log == s.log && s.queue <= e.queue
    decreases |acts|
  {
    if acts != [] {
      EndedForGood(c, Next(c, s, acts[0]), acts[1..]);
    }
  }

  /** It does happen: a message posted before the first round, and a stop. */
  lemma CoroutineCanLeaveBehind(known: set<Wire.Short>, node: LogicNode) returns (acts: seq<Action>)
    ensures var c := Config(Coroutine, known);
            IsRun(c, Init(), acts)
            && var s := Exec(c, Init(), acts); s.worker.Quit? && s.queue == [node] && s.log == []
  {
    var c := Config(Coroutine, known);
    acts := Then(c, [], PostCall(0, node));
    acts := Then(c, acts, PostAcquire(0));
    acts := Then(c, acts, PostPush(0));
    acts := Then(c, acts, PostNotify(0));
    acts := Then(c, acts, PostUnlock(0));
    acts := Then(c, acts, SetStop);
    acts := Then(c, acts, Work);
  }

  lemma {:induction false} Snoc(c: Config, s: State, acts: seq<Action>, a: Action)
    requires IsRun(c, s, acts) && Enabled(Exec(c, s, acts), a)
    ensures IsRun(c, s, acts + [a]) && Exec(c, s, acts + [a]) == Next(c, Exec(c, s, acts), a)
    ensures MimicRun(c, s, acts + [a]) == MimicRun(c, s, acts) + Mimic(c, Exec(c, s, acts), a)
    decreases |acts|
  {
    if acts == [] {
      assert acts + [a] == [a];
      assert MimicRun(c, Next(c, s, a), []) == [];
    } else {
      Snoc(c, Next(c, s, acts[0]), acts[1..], a);
      TailOfAppend(acts, [a]);
      var s' := Next(c, s, acts[0]);
      Associate(Mimic(c, s, acts[0]), MimicRun(c, s', acts[1..]), Mimic(c, Exec(c, s', acts[1..]), a));
    }
  }

  lemma Then(c: Config, acts: seq<Action>, a: Action) returns (longer: seq<Action>)
    requires IsRun(c, Init(), acts) && Enabled(Exec(c, Init(), acts), a)
    ensures IsRun(c, Init(), longer) && Exec(c, Init(), longer) == Next(c, Exec(c, Init(), acts), a)
  {
    longer := acts + [a];
    Snoc(c, Init(), acts, a);
  }

  /** The destructor's notification has been given while the worker had tested the predicate but had
      not entered wait. */
  predicate Missed(s: State) {
    && s.stopper.Notified? && (s.worker.ToWait? || s.worker.Waiting?) && s.queue == []
    && forall t <- s.posters :: !s.posters[t].Pushed?
  }

  predicate Heard(s: State) {
    s.stopper.Notified? && !s.worker.ToWait? && !s.worker.Waiting?
  }

  lemma {:induction false} MissedForGood(c: Config, s: State, acts: seq<Action>)
    requires LockInv(s) && WakeupInv(s) && Missed(s) && IsRun(c, s, acts)
    requires forall a <- acts :: !a.PostPush? && !a.Spurious?
    ensures Missed(Exec(c, s, acts))
    decreases |acts|
  {
    if acts != [] {
      StepKeepsLock(c, s, acts[0]);
      StepKeepsWakeup(c, s, acts[0]);
      assert acts[0] in acts;
      MissedForGood(c, Next(c, s, acts[0]), acts[1..]);
    }
  }

  /** A worker that heard the stop never sleeps again, whatever the others do, and each of its steps
      brings its end nearer, which only a post can put off, by two steps. */
  lemma {:induction false} HeardEnds(c: Config, s: State, acts: seq<Action>)
    requires Inv(c, s) && Heard(s) && IsRun(c, s, acts)
    ensures Inv(c, Exec(c, s, acts)) && Heard(Exec(c, s, acts))
    ensures WorkerSteps(acts) + StopMeasure(Exec(c, s, acts)) <= StopMeasure(s) + 2 * Pushes(acts)
    decreases |acts|
  {
    if acts != [] {
      HeardStep(c, s, acts[0]);
      HeardEnds(c, Next(c, s, acts[0]), acts[1..]);
    }
  }

  lemma HeardStep(c: Config, s: State, a: Action)
    requires Inv(c, s) && Heard(s) && Enabled(s, a)
    ensures var s' := Next(c, s, a);
            Inv(c, s') && Heard(s') && WorkerSteps([a]) + StopMeasure(s') <= StopMeasure(s) + 2 * Pushes([a])
  {
    StepKeepsInv(c, s, a);
  }

  /** The drain loop terminates, because nobody can post while the worker is in it: whatever the other
      threads do, the worker takes at most two steps for each queued message and a last one, by which it
      leaves, and until then it can always take the next. */
  lemma {:induction false} DrainIsBounded(c: Config, s: State, acts: seq<Action>)
    requires Inv(c, s) && (s.worker.Drain? || s.worker.DrainCalled?) && IsRun(c, s, acts)
    ensures var e := Exec(c, s, acts);
            && (e.worker.Drain? || e.worker.DrainCalled? || e.worker.Exited?)
            && (!e.worker.Exited? ==> e.posted == s.posted && Enabled(e, Work))
            && WorkerSteps(acts) <= 2 * |s.queue| + if s.worker.Drain? then 1 else 0
    decreases |acts|
  {
    if acts != [] {
      var s' := Next(c, s, acts[0]);
      StepKeepsInv(c, s, acts[0]);
      if s'.worker.Exited? {
        EndedForGood(c, s', acts[1..]);
        EndedTakesNoSteps(c, s', acts[1..]);
      } else {
        DrainIsBounded(c, s', acts[1..]);
      }
    }
  }

  lemma {:induction false} EndedTakesNoSteps(c: Config, s: State, acts: seq<Action>)
    requires Ended(s) && IsRun(c, s, acts)
    ensures WorkerSteps(acts) == 0
    decreases |acts|
  {
    if acts != [] {
      EndedTakesNoSteps(c, Next(c, s, acts[0]), acts[1..]);
    }
  }

  function StopMeasure(s: State): nat {
    2 * |s.queue| +
    match s.worker
    case Top => 5
    case Want => 4
    case Woken => 4
    case Check => 3
    case Decide => 2
    case Drain => 1
    case DrainCalled => 0
    case Handle => 5
    case Called => 4
    case ToWait => 6
    case Waiting => 5
    case Exited => 0
    case Quit => 0
  }

  /** When the destructor notifies: with no later post and no spurious wakeup, the worker is asleep (or
      about to be) after every continuation if and only if at that moment it stood between its
      predicate test and wait. */
  lemma StopIsLostIff(c: Config, acts: seq<Action>, more: seq<Action>)
    requires IsRun(c, Init(), acts) && Enabled(Exec(c, Init(), acts), NotifyStop)
    requires IsRun(c, Next(c, Exec(c, Init(), acts), NotifyStop), more)
    requires forall a <- more :: !a.PostPush? && !a.Spurious?
    ensures var s := Exec(c, Init(), acts);
            var e := Exec(c, Next(c, s, NotifyStop), more);
            (e.worker.ToWait? || e.worker.Waiting?) <==> s.worker.ToWait?
  {
    var s := Exec(c, Init(), acts);
    var s' := Next(c, s, NotifyStop);
    RunsKeepInv(c, Init(), acts);
    StepKeepsInv(c, s, NotifyStop);
    if s.worker.ToWait? {
      MissedForGood(c, s', more);
    } else {
      HeardEnds(c, s', more);
    }
  }

  /** It does happen, in both servers: an idle worker, stopped between the test and wait. */
  lemma StopCanBeLost(c: Config) returns (acts: seq<Action>)
    ensures IsRun(c, Init(), acts) && var s := Exec(c, Init(), acts); Missed(s) && s.worker.Waiting?
  {
    acts := Then(c, [], Work);
    acts := Then(c, acts, Work);
    acts := Then(c, acts, Work);
    acts := Then(c, acts, SetStop);
    acts := Then(c, acts, NotifyStop);
    acts := Then(c, acts, Work);
  }

  /** A missed stop is noticed after all when the worker wakes up spuriously, or when a poster that is inside
      pushes its message and notifies. */
  lemma MissedIsRescued(c: Config, s: State, t: Tid)
    requires Inv(c, s) && Missed(s) && s.worker.Waiting?
    ensures Enabled(s, Spurious) && Heard(Next(c, s, Spurious))
    ensures PosterOf(s, t).PostIn? ==>
              Enabled(s, PostPush(t)) && Enabled(Next(c, s, PostPush(t)), PostNotify(t))
              && Heard(Next(c, Next(c, s, PostPush(t)), PostNotify(t)))
  {
  }

  // ----- nothing but the mutex and the wait hold anybody up -----

  /** In every reachable state a poster can take its next step, unless another thread owns the mutex that it
      waits for. */
  lemma OnlyTheMutexBlocks(c: Config, s: State, t: Tid, node: LogicNode) returns (a: Action)
    requires PosterOf(s, t).PostWait? ==> s.lock.Free?
    ensures Enabled(s, a) && PosterOf(Next(c, s, a), t) != PosterOf(s, t)
    ensures PosterOf(s, t).Idle? ==> a == PostCall(t, node)
    ensures (a.PostCall? || a.PostAcquire? || a.PostPush? || a.PostNotify? || a.PostUnlock?) && a.t == t
  {
    a := match PosterOf(s, t)
      case Idle => PostCall(t, node)
      case PostWait(_) => PostAcquire(t)
      case PostIn(_) => PostPush(t)
      case Pushed => PostNotify(t)
      case Leave => PostUnlock(t);
  }

  /** So can the worker, unless it sleeps or has ended; it may wake up spuriously; and the destructor is held
      up by nobody. */
  lemma OnlyTheMutexBlocksTheWorker(c: Config, s: State)
    requires LockInv(s) && WakeupInv(s)
    ensures !s.worker.Waiting? && !Ended(s) && (s.worker.Want? || s.worker.Woken? ==> s.lock.Free?) ==>
              Enabled(s, Work) && WorkerStep(c, s) != s
    ensures s.worker.Waiting? ==> Enabled(s, Spurious)
    ensures s.stopper.Running? ==> Enabled(s, SetStop)
    ensures s.stopper.Flagged? ==> Enabled(s, NotifyStop)
  {
  }

  /** The worker lets the mutex go after each message: outside the drain loop a waiting poster can get in
      between two messages. */
  lemma PostersGetIn(c: Config, s: State, t: Tid)
    requires Inv(c, s) && Enabled(s, Work) && PosterOf(s, t).PostWait?
    requires s.worker.Called? || (s.worker.Handle? && s.queue[0].msg.id !in c.known)
    ensures Enabled(Next(c, s, Work), PostAcquire(t))
  {
  }

  // ----- the monitor does everything that the dispatcher can do -----

  /** No thread is inside PostMsgToQue, nobody stops the server, and the worker is either in a callback or
      about to take the mutex or asleep. */
  ghost predicate Ready(s: State) {
    && (forall t <- s.posters :: s.posters[t].Idle?) && s.stopper.Running?
    && if s.worker.Called? then s.lock.ByWorker?
       else s.lock.Free? && (s.worker.Top? || s.worker.Want? || s.worker.Woken? || s.worker.Waiting?)
  }

  /** One more action that the dispatcher sees as `shown`. */
  lemma ThenShows(c: Config, acts: seq<Action>, a: Action, shown: seq<D.Step>) returns (longer: seq<Action>)
    requires IsRun(c, Init(), acts) && Enabled(Exec(c, Init(), acts), a) && Mimic(c, Exec(c, Init(), acts), a) == shown
    ensures IsRun(c, Init(), longer) && Exec(c, Init(), longer) == Next(c, Exec(c, Init(), acts), a)
    ensures MimicRun(c, Init(), longer) == MimicRun(c, Init(), acts) + shown
    ensures shown == [] ==> MimicRun(c, Init(), longer) == MimicRun(c, Init(), acts)
  {
    longer := acts + [a];
    Snoc(c, Init(), acts, a);
  }

  lemma PushHappens(c: Config, before: seq<Action>, node: LogicNode) returns (acts: seq<Action>)
    requires IsRun(c, Init(), before) && Ready(Exec(c, Init(), before)) && !Exec(c, Init(), before).worker.Called?
    ensures IsRun(c, Init(), acts) && MimicRun(c, Init(), acts) == MimicRun(c, Init(), before) + [Post(node)]
    ensures var s := Exec(c, Init(), acts);
            && s.lock == ByPoster(0) && PosterOf(s, 0).Pushed? && s.stopper.Running?
            && (forall t <- s.posters :: t != 0 ==> s.posters[t].Idle?)
            && (s.worker.Top? || s.worker.Want? || s.worker.Woken? || s.worker.Waiting?)
  {
    acts := ThenShows(c, before, PostCall(0, node), []);
    acts := ThenShows(c, acts, PostAcquire(0), []);
    acts := ThenShows(c, acts, PostPush(0), [Post(node)]);
  }

  lemma PostHappens(c: Config, before: seq<Action>, node: LogicNode) returns (acts: seq<Action>)
    requires IsRun(c, Init(), before) && Ready(Exec(c, Init(), before)) && !Exec(c, Init(), before).worker.Called?
    ensures IsRun(c, Init(), acts) && Ready(Exec(c, Init(), acts))
    ensures MimicRun(c, Init(), acts) == MimicRun(c, Init(), before) + [Post(node)]
  {
    acts := PushHappens(c, before, node);
    acts := ThenShows(c, acts, PostNotify(0), []);
    acts := ThenShows(c, acts, PostUnlock(0), []);
  }

  /** The worker gets to the front message. */
  lemma FrontIsReached(c: Config, before: seq<Action>) returns (acts: seq<Action>)
    requires IsRun(c, Init(), before) && Ready(Exec(c, Init(), before))
    requires var s := Exec(c, Init(), before); s.queue != [] && !s.worker.Called? && !s.worker.Waiting?
    ensures IsRun(c, Init(), acts) && MimicRun(c, Init(), acts) == MimicRun(c, Init(), before)
    ensures AtFront(Exec(c, Init(), before), Exec(c, Init(), acts))
  {
    acts := before;
    if Exec(c, Init(), acts).worker.Top? {
      acts := ThenShows(c, acts, Work, []);
    }
    acts := FrontFromWant(c, acts);
  }

  ghost predicate AtFront(s: State, e: State) {
    e.worker.Handle? && e.lock.ByWorker? && e.queue == s.queue && e.posters == s.posters && e.stopper == s.stopper
  }

  lemma FrontFromWant(c: Config, before: seq<Action>) returns (acts: seq<Action>)
    requires IsRun(c, Init(), before) && Ready(Exec(c, Init(), before))
    requires var s := Exec(c, Init(), before); s.queue != [] && (s.worker.Want? || s.worker.Woken?)
    ensures IsRun(c, Init(), acts) && MimicRun(c, Init(), acts) == MimicRun(c, Init(), before)
    ensures AtFront(Exec(c, Init(), before), Exec(c, Init(), acts))
  {
    acts := ThenShows(c, before, Work, []);
    acts := FrontFromCheck(c, acts);
  }

  lemma FrontFromCheck(c: Config, before: seq<Action>) returns (acts: seq<Action>)
    requires IsRun(c, Init(), before)
    requires var s := Exec(c, Init(), before);
             s.queue != [] && s.worker.Check? && s.lock.ByWorker? && s.stopper.Running?
    ensures IsRun(c, Init(), acts) && MimicRun(c, Init(), acts) == MimicRun(c, Init(), before)
    ensures AtFront(Exec(c, Init(), before), Exec(c, Init(), acts))
  {
    acts := ThenShows(c, before, Work, []);
    acts := ThenShows(c, acts, Work, []);
  }

  lemma DispatchHappens(c: Config, before: seq<Action>, a: D.Step) returns (acts: seq<Action>)
    requires IsRun(c, Init(), before) && Ready(Exec(c, Init(), before)) && (a.Skip? || a.Call?)
    requires D.Enabled(c.known, View(Exec(c, Init(), before)), a) && !Exec(c, Init(), before).worker.Waiting?
    ensures IsRun(c, Init(), acts) && Ready(Exec(c, Init(), acts))
    ensures MimicRun(c, Init(), acts) == MimicRun(c, Init(), before) + [a]
  {
    acts := FrontIsReached(c, before);
    acts := ThenShows(c, acts, Work, [a]);
  }

  lemma StepHappens(c: Config, before: seq<Action>, a: D.Step) returns (acts: seq<Action>)
    requires IsRun(c, Init(), before) && Ready(Exec(c, Init(), before))
    requires D.Enabled(c.known, View(Exec(c, Init(), before)), a)
    ensures IsRun(c, Init(), acts) && Ready(Exec(c, Init(), acts))
    ensures MimicRun(c, Init(), acts) == MimicRun(c, Init(), before) + [a]
  {
    NoSleeperAtWork(c, before);
    match a
    case Post(node) => acts := PostHappens(c, before, node);
    case Return => acts := ThenShows(c, before, Work, [Return]);
    case _ => acts := DispatchHappens(c, before, a);
  }

  lemma NoSleeperAtWork(c: Config, acts: seq<Action>)
    requires IsRun(c, Init(), acts) && Ready(Exec(c, Init(), acts))
    ensures Exec(c, Init(), acts).worker.Waiting? ==> Exec(c, Init(), acts).queue == []
    ensures !Exec(c, Init(), acts).worker.DrainCalled?
  {
    NoLostWakeup(c, acts);
  }

  lemma {:induction false} RunGoesOn(c: Config, before: seq<Action>, steps: seq<D.Step>)
    returns (acts: seq<Action>)
    requires IsRun(c, Init(), before) && Ready(Exec(c, Init(), before))
    requires D.IsRun(c.known, View(Exec(c, Init(), before)), steps)
    ensures IsRun(c, Init(), acts) && MimicRun(c, Init(), acts) == MimicRun(c, Init(), before) + steps
    decreases |steps|
  {
    var done := MimicRun(c, Init(), before);
    if steps == [] {
      acts := before;
      assert done + [] == done;
    } else {
      acts := StepHappens(c, before, steps[0]);
      ViewFollows(c, before, acts, steps[0]);
      acts := RunGoesOn(c, acts, steps[1..]);
      HeadTail(steps);
      Associate(done, [steps[0]], steps[1..]);
    }
  }

  lemma ViewFollows(c: Config, before: seq<Action>, acts: seq<Action>, a: D.Step)
    requires IsRun(c, Init(), before) && IsRun(c, Init(), acts)
    requires MimicRun(c, Init(), acts) == MimicRun(c, Init(), before) + [a]
    requires D.Enabled(c.known, View(Exec(c, Init(), before)), a)
    ensures View(Exec(c, Init(), acts)) == D.Next(c.known, View(Exec(c, Init(), before)), a)
  {
    RunsAreAtomic(c, Init(), before);
    RunsAreAtomic(c, Init(), acts);
    D.Snoc(c.known, View(Init()), MimicRun(c, Init(), before), a);
  }

  /** Conversely to RunsAreAtomic: every run of the dispatcher is carried out by a run of the monitor, so the
      dispatcher allows nothing that the monitor does not. */
  lemma AtomicRunsHappen(c: Config, steps: seq<D.Step>) returns (acts: seq<Action>)
    requires D.IsRun(c.known, D.INIT, steps)
    ensures IsRun(c, Init(), acts) && MimicRun(c, Init(), acts) == steps
  {
    acts := RunGoesOn(c, [], steps);
    assert [] + steps == steps;
  }
}
