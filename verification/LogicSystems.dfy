/** The worker's loop and the posting method as code. A callback run is recorded in a history. */
module LogicSystems {
  import opened Seqs
  import Wire
  import opened D = Dispatcher

  function Outcome(known: set<Wire.Short>, node: LogicNode): Entry {
    Entry(node, node.msg.id in known)
  }

  function Outcomes(known: set<Wire.Short>, nodes: seq<LogicNode>): seq<Entry> {
    seq(|nodes|, i requires 0 <= i < |nodes| => Outcome(known, nodes[i]))
  }

  /** How many messages are queued when the worker of `coroutineServer` releases the lock for the last
      time before the flag goes up: between two releases it takes one message, if there is one. */
  ghost function Backlog(queued: nat, arrivals: seq<seq<LogicNode>>): nat
    requires arrivals != []
    decreases |arrivals|
  {
    if |arrivals| == 1 then queued
    else Backlog((if queued > 0 then queued - 1 else 0) + |arrivals[0]|, arrivals[1..])
  }

  /** How many messages stay queued for ever, if the outer test ends the loop. */
  ghost function LeftBehind(queued: nat, arrivals: seq<seq<LogicNode>>): int {
    if arrivals == [] then queued else Backlog(queued, arrivals) - 1 + |arrivals[|arrivals| - 1]|
  }

  ghost predicate SameCourse(q0: nat, r0: seq<seq<LogicNode>>, q1: nat, r1: seq<seq<LogicNode>>)
    requires r1 != []
  {
    r0 != [] && Backlog(q1, r1) == Backlog(q0, r0) && LeftBehind(q1, r1) == LeftBehind(q0, r0)
  }

  /** A round with `q0` messages queued and `r0` to come ends with `q1` and `r1`, or with the flag seen. */
  ghost predicate Goes(q0: nat, r0: seq<seq<LogicNode>>, q1: nat, r1: seq<seq<LogicNode>>, stop: bool)
    requires r0 != []
  {
    if stop then Backlog(q0, r0) == 0
    else if r1 == [] then Backlog(q0, r0) > 0 && q1 == LeftBehind(q0, r0)
    else SameCourse(q0, r0, q1, r1)
  }

  /** A loop that began with `before` messages queued is at its outer test. */
  ghost predicate OnCourse(before: nat, arrivals: seq<seq<LogicNode>>, queued: nat, rest: seq<seq<LogicNode>>) {
    && LeftBehind(queued, rest) == LeftBehind(before, arrivals)
    && (if rest != [] then arrivals != [] && Backlog(queued, rest) == Backlog(before, arrivals)
        else arrivals == [] || Backlog(before, arrivals) > 0)
  }

  class LogicSystem {
    var msgQue: seq<LogicNode>
    const funCallback: set<Wire.Short>
    ghost var log: seq<Entry>
    ghost var posted: seq<LogicNode>

    /** Dispatched then queued messages are the posts, and callbacks ran for exactly the registered ids. */
    ghost predicate Valid()
      reads this
    {
      InOrder(funCallback, View())
    }

    ghost function View(): D.State
      reads this
    {
      D.State(msgQue, false, posted, log)
    }

    constructor (known: set<Wire.Short>)
      ensures Valid() && msgQue == [] && log == [] && posted == [] && funCallback == known
    {
      msgQue := [];
      funCallback := known;
      log, posted := [], [];
    }

    /** `notify` tells whether `notify_one` is called. */
    method PostMsgToQue(node: LogicNode) returns (notify: bool)
      requires Valid()
      modifies this`msgQue, this`posted
      ensures Valid() && msgQue == old(msgQue) + [node] && posted == old(posted) + [node]
      ensures notify <==> old(msgQue) == []
    {
      StepKeepsOrder(funCallback, View(), Post(node));
      posted := posted + [node];
      msgQue := msgQue + [node];
      notify := |msgQue| == 1;
    }

    /** Look up the front's callback; run it if there is one; pop. */
    method DealFront()
      requires Valid() && msgQue != []
      modifies this`msgQue, this`log
      ensures Valid() && msgQue == old(msgQue)[1..]
      ensures log == old(log) + [Outcome(funCallback, old(msgQue)[0])]
    {
      var node := msgQue[0];
      FrontKeepsOrder(funCallback, View());
      if node.msg.id !in funCallback {
        msgQue := msgQue[1..];
        log := log + [Entry(node, false)];
        return;
      }
      log := log + [Entry(node, true)];
      msgQue := msgQue[1..];
    }

    method DrainQueue()
      requires Valid()
      modifies this`msgQue, this`log
      ensures Valid() && msgQue == []
      ensures log == old(log) + Outcomes(funCallback, old(msgQue))
    {
      while msgQue != []
        invariant Valid() && posted == old(posted) && old(log) <= log
        decreases |msgQue|
      {
        DealFront();
      }
      LogFollows(funCallback, old(View()), View(), []);
      assert old(msgQue) + [] == old(msgQue) && old(posted) + [] == old(posted);
      assert old(msgQue)[..|old(msgQue)|] == old(msgQue);
    }

    /** The lock is released: other threads post `arrivals[0]`. */
    method Release(arrivals: seq<seq<LogicNode>>) returns (rest: seq<seq<LogicNode>>)
      requires Valid() && arrivals != []
      modifies this`msgQue, this`posted
      ensures Valid() && posted + Concat(rest) == old(posted) + Concat(arrivals)
      ensures rest == arrivals[1..] && msgQue == old(msgQue) + arrivals[0]
      ensures msgQue + Concat(rest) == old(msgQue) + Concat(arrivals)
    {
      Associate(msgQue, arrivals[0], Concat(arrivals[1..]));
      Associate(posted, arrivals[0], Concat(arrivals[1..]));
      Associate(Dispatched(log), msgQue, arrivals[0]);
      msgQue, posted := msgQue + arrivals[0], posted + arrivals[0];
      rest := arrivals[1..];
    }

    /** The inner while around wait; no arrivals left means that the stop flag is set. */
    method WaitWhileEmpty(arrivals: seq<seq<LogicNode>>) returns (rest: seq<seq<LogicNode>>)
      requires Valid()
      modifies this`msgQue, this`posted
      ensures Valid() && posted + Concat(rest) == old(posted) + Concat(arrivals)
      ensures msgQue != [] || rest == []
      ensures msgQue + Concat(rest) == old(msgQue) + Concat(arrivals)
      ensures |rest| <= |arrivals|
      ensures if rest == [] then arrivals == [] || Backlog(|old(msgQue)|, arrivals) == 0
              else SameCourse(|old(msgQue)|, arrivals, |msgQue|, rest)
    {
      rest := arrivals;
      while msgQue == [] && rest != []
        invariant Valid() && posted + Concat(rest) == old(posted) + Concat(arrivals)
        invariant |rest| <= |arrivals|
        invariant msgQue + Concat(rest) == old(msgQue) + Concat(arrivals)
        invariant if rest == [] then arrivals == [] || Backlog(|old(msgQue)|, arrivals) == 0
                  else SameCourse(|old(msgQue)|, arrivals, |msgQue|, rest)
        decreases |rest|
      {
        rest := Release(rest);
      }
    }

    /** The body of the loop up to the drain: wait, and unless the flag is seen (`stop`) deal with the front
        and release the lock. */
    method Round(arrivals: seq<seq<LogicNode>>) returns (rest: seq<seq<LogicNode>>, stop: bool)
      requires Valid()
      modifies this
      ensures Valid() && posted + Concat(rest) == old(posted) + Concat(arrivals)
      ensures arrivals == [] ==> stop
      ensures stop ==> rest == [] && log == old(log) && msgQue == old(msgQue) + Concat(arrivals)
      ensures !stop ==> var all := old(msgQue) + Concat(arrivals);
                        && all != [] && |rest| < |arrivals| && msgQue + Concat(rest) == all[1..]
                        && log == old(log) + [Outcome(funCallback, all[0])]
      ensures arrivals != [] ==> Goes(|old(msgQue)|, arrivals, |msgQue|, rest, stop)
    {
      rest := WaitWhileEmpty(arrivals);
      stop := rest == [];
      if !stop {
        DealFront();
        rest := Release(rest);
      }
    }

    /** `asynServer`. `arrivals[k]` is what other threads post while the worker has released the lock
        for the k-th time, in wait or between two rounds; the stop flag is seen after the last one. */
    method DealMsg(arrivals: seq<seq<LogicNode>>)
      requires Valid()
      modifies this
      ensures Valid() && posted == old(posted) + Concat(arrivals)
      ensures msgQue == [] && Dispatched(log) == posted
      ensures log == old(log) + Outcomes(funCallback, old(msgQue) + Concat(arrivals))
    {
      var rest, stop := arrivals, false;
      while !stop
        invariant Valid() && posted + Concat(rest) == old(posted) + Concat(arrivals)
        invariant old(log) <= log && (stop ==> rest == [])
        decreases |rest|, !stop
      {
        rest, stop := Round(rest);
      }
      DrainQueue();
      LogFollows(funCallback, old(View()), View(), Concat(arrivals));
    }

    /** `coroutineServer`: the flag is also tested before each round, and then nothing is drained.
        `n` messages are dispatched; `quit` tells that the outer test ended the loop. */
    method DealMsgCoroutine(arrivals: seq<seq<LogicNode>>) returns (n: nat, quit: bool)
      requires Valid()
      modifies this
      ensures Valid() && posted == old(posted) + Concat(arrivals)
      ensures var all := old(msgQue) + Concat(arrivals);
              n <= |all| && msgQue == all[n..] && log == old(log) + Outcomes(funCallback, all[..n])
      ensures quit <==> arrivals == [] || Backlog(|old(msgQue)|, arrivals) > 0
      ensures |msgQue| == if quit then LeftBehind(|old(msgQue)|, arrivals) else 0
    {
      var rest, stop := arrivals, false;
      n, quit := 0, true;
      while rest != []
        invariant Valid() && posted + Concat(rest) == old(posted) + Concat(arrivals)
        invariant old(log) <= log && |log| == |old(log)| + n
        invariant OnCourse(|old(msgQue)|, arrivals, |msgQue|, rest)
        invariant quit
        decreases |rest|
      {
        rest, stop := Round(rest);
        if stop {
          n, quit := n + |msgQue|, false;
          DrainQueue();
          break;
        }
        n := n + 1;
      }
      LogFollows(funCallback, old(View()), View(), Concat(arrivals));
    }
  }

  /** Between two states of the class with no callback running, the log has grown by the outcomes of the
      messages that have left the queue. */
  lemma LogFollows(known: set<Wire.Short>, s: D.State, e: D.State, more: seq<LogicNode>)
    requires InOrder(known, s) && !s.busy && InOrder(known, e) && !e.busy
    requires s.log <= e.log && e.posted == s.posted + more
    ensures var all, n := s.queue + more, |e.log| - |s.log|;
            n <= |all| && e.queue == all[n..] && e.log == s.log + Outcomes(known, all[..n])
  {
    var all, n := s.queue + more, |e.log| - |s.log|;
    var added := e.log[|s.log|..];
    assert e.log == s.log + added;
    assert Dispatched(e.log) == Dispatched(s.log) + Dispatched(added);
    Associate(Dispatched(s.log), Dispatched(added), e.queue);
    Associate(Dispatched(s.log), s.queue, more);
    CutPrefix(Dispatched(s.log), Dispatched(added) + e.queue, all);
    CutPrefix(Dispatched(s.log), all, Dispatched(added) + e.queue);
    assert all == Dispatched(added) + e.queue;
    assert all[..n] == Dispatched(added);
    assert forall x <- added :: x in e.log;
    assert added == Outcomes(known, all[..n]);
  }

  /** A dispatch in one step: skipped, or called and returned from. */
  lemma FrontKeepsOrder(known: set<Wire.Short>, s: D.State)
    requires InOrder(known, s) && !s.busy && s.queue != []
    ensures InOrder(known, s.(queue := s.queue[1..], log := s.log + [Entry(s.queue[0], s.queue[0].msg.id in known)]))
  {
    if s.queue[0].msg.id in known {
      StepKeepsOrder(known, s, Call);
      StepKeepsOrder(known, D.Next(known, s, Call), Return);
    } else {
      StepKeepsOrder(known, s, Skip);
    }
  }

  /** The entries of a dispatch are the messages in order, called exactly if their id is registered. */
  lemma OutcomesMean(known: set<Wire.Short>, nodes: seq<LogicNode>)
    ensures Dispatched(Outcomes(known, nodes)) == nodes
    ensures forall e <- Outcomes(known, nodes) :: e.called <==> e.node.msg.id in known
  {
  }
}
