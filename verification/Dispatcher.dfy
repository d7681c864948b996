/** The logic queue with its critical sections as single steps: what the monitor is meant to do. While a
    callback runs nothing is posted, because the worker holds the mutex. */
module Dispatcher {
  import opened Seqs
  import Wire

  /** A received message and the session that must answer it. */
  datatype LogicNode = LogicNode(session: nat, msg: Wire.Msg)

  /** What became of a dispatched message: its callback ran, or its id had none. */
  datatype Entry = Entry(node: LogicNode, called: bool)

  const MSG_HELLO_WORLD: Wire.Short := 1001

  datatype State = State(
    queue: seq<LogicNode>,
    busy: bool,             // the front's callback is running
    posted: seq<LogicNode>, // history
    log: seq<Entry>         // history
  )

  datatype Step = Post(node: LogicNode) | Skip | Call | Return

  const INIT := State([], false, [], [])

  predicate Enabled(known: set<Wire.Short>, s: State, a: Step) {
    match a
    case Post(_) => !s.busy
    case Skip => !s.busy && s.queue != [] && s.queue[0].msg.id !in known
    case Call => !s.busy && s.queue != [] && s.queue[0].msg.id in known
    case Return => s.busy && s.queue != []
  }

  function Next(known: set<Wire.Short>, s: State, a: Step): State
    requires Enabled(known, s, a)
  {
    match a
    case Post(node) => s.(queue := s.queue + [node], posted := s.posted + [node])
    case Skip => s.(queue := s.queue[1..], log := s.log + [Entry(s.queue[0], false)])
    case Call => s.(busy := true, log := s.log + [Entry(s.queue[0], true)])
    case Return => s.(busy := false, queue := s.queue[1..])
  }

  ghost predicate IsRun(known: set<Wire.Short>, s: State, steps: seq<Step>)
    decreases |steps|
  {
    steps != [] ==> Enabled(known, s, steps[0]) && IsRun(known, Next(known, s, steps[0]), steps[1..])
  }

  ghost function Exec(known: set<Wire.Short>, s: State, steps: seq<Step>): State
    requires IsRun(known, s, steps)
    decreases |steps|
  {
    if steps == [] then s else Exec(known, Next(known, s, steps[0]), steps[1..])
  }

  lemma OneStep(known: set<Wire.Short>, s: State, a: Step)
    requires Enabled(known, s, a)
    ensures IsRun(known, s, [a]) && Exec(known, s, [a]) == Next(known, s, a)
  {
    assert [a][1..] == [];
  }

  lemma {:induction false} Snoc(known: set<Wire.Short>, s: State, steps: seq<Step>, a: Step)
    requires IsRun(known, s, steps) && Enabled(known, Exec(known, s, steps), a)
    ensures IsRun(known, s, steps + [a]) && Exec(known, s, steps + [a]) == Next(known, Exec(known, s, steps), a)
    decreases |steps|
  {
    if steps == [] {
      assert steps + [a] == [a];
      OneStep(known, s, a);
    } else {
      Snoc(known, Next(known, s, steps[0]), steps[1..], a);
      TailOfAppend(steps, [a]);
    }
  }

  /** At most one step in front of a run. */
  lemma Cons(known: set<Wire.Short>, s: State, one: seq<Step>, more: seq<Step>)
    requires |one| <= 1 && IsRun(known, s, one) && IsRun(known, Exec(known, s, one), more)
    ensures IsRun(known, s, one + more)
    ensures Exec(known, s, one + more) == Exec(known, Exec(known, s, one), more)
  {
    if one == [] {
      assert one + more == more;
    } else {
      assert one == [one[0]] && (one + more)[1..] == more;
      OneStep(known, s, one[0]);
    }
  }

  ghost function Dispatched(log: seq<Entry>): seq<LogicNode> {
    seq(|log|, i requires 0 <= i < |log| => log[i].node)
  }

  /** The posted messages that have not been dispatched. */
  ghost function Pending(s: State): seq<LogicNode> {
    if s.busy && s.queue != [] then s.queue[1..] else s.queue
  }

  /** Dispatched messages then pending ones are the posts, and callbacks ran for the registered ids. */
  ghost predicate InOrder(known: set<Wire.Short>, s: State) {
    && Dispatched(s.log) + Pending(s) == s.posted
    && forall e <- s.log :: e.called <==> e.node.msg.id in known
  }

  lemma StepKeepsOrder(known: set<Wire.Short>, s: State, a: Step)
    requires InOrder(known, s) && Enabled(known, s, a)
    ensures InOrder(known, Next(known, s, a))
  {
    match a
    case Post(node) => Associate(Dispatched(s.log), s.queue, [node]);
    case Return =>
    case _ =>
      var e := Next(known, s, a).log[|s.log|];
      assert Dispatched(s.log + [e]) == Dispatched(s.log) + [e.node];
      HeadTail(s.queue);
      Associate(Dispatched(s.log), [e.node], s.queue[1..]);
  }
}
