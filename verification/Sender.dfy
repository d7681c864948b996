/** One session's send side, with the critical sections of `Send` and `HandleWrite` as single
    steps: what every sender in the repository is meant to do. An item is one entry of the send
    queue; a unit is what the transport carries (a byte on a socket, a whole message on a websocket). */
module Sender {
  import opened Seqs

  const MAX_SENDQUE := 1000

  /** The send queue's limit, or none at all. */
  datatype Bound = Unbounded | Max(n: nat)

  const BOUND := Max(MAX_SENDQUE)

  /** The guard of `Send`: `>`, not `>=`. */
  predicate Full(b: Bound, size: nat) {
    b.Max? && size > b.n
  }

  datatype State<T> = State(
    queue: seq<seq<T>>,    // items not popped yet
    writing: bool,         // a write of queue[0] is in flight
    sent: nat,             // units of queue[0] already transferred
    closed: bool,          // the socket
    wire: seq<T>,          // history: all units transferred
    accepted: seq<seq<T>>  // history: all items pushed
  )

  datatype Step<T> =
    | Send(item: seq<T>)
    | Transfer(n: nat) // the write in flight moves n more units
    | Complete         // completion handler without error
    | Fail             // completion handler with an error
    | Close            // the read side closes the socket

  datatype Event<T> = Accepted(item: seq<T>) | Refused(item: seq<T>) | Wrote(units: seq<T>) | Failed | Closed

  function Init<T>(): State<T> {
    State([], false, 0, false, [], [])
  }

  ghost predicate Enabled<T>(s: State<T>, a: Step<T>) {
    match a
    case Send(_) => true
    case Transfer(n) => s.writing && !s.closed && s.queue != [] && s.sent + n <= |s.queue[0]|
    case Complete => s.writing && s.queue != [] && s.sent == |s.queue[0]|
    case Fail => s.writing
    case Close => true
  }

  ghost function Next<T>(b: Bound, s: State<T>, a: Step<T>): State<T>
    requires Enabled(s, a)
  {
    match a
    case Send(x) =>
      if Full(b, |s.queue|) then s
      else s.(queue := s.queue + [x], accepted := s.accepted + [x], writing := s.writing || s.queue == [])
    case Transfer(n) =>
      s.(sent := s.sent + n, wire := s.wire + s.queue[0][s.sent..s.sent + n])
    case Complete => s.(queue := s.queue[1..], sent := 0, writing := |s.queue| > 1)
    case Fail => s.(writing := false, closed := true)
    case Close => s.(closed := true)
  }

  ghost function Emits<T>(b: Bound, s: State<T>, a: Step<T>): seq<Event<T>>
    requires Enabled(s, a)
  {
    match a
    case Send(x) => if Full(b, |s.queue|) then [Refused(x)] else [Accepted(x)]
    case Transfer(n) => [Wrote(s.queue[0][s.sent..s.sent + n])]
    case Complete => []
    case Fail => [Failed]
    case Close => [Closed]
  }

  ghost predicate IsRun<T>(b: Bound, s: State<T>, steps: seq<Step<T>>)
    decreases |steps|
  {
    steps != [] ==> Enabled(s, steps[0]) && IsRun(b, Next(b, s, steps[0]), steps[1..])
  }

  ghost function Exec<T>(b: Bound, s: State<T>, steps: seq<Step<T>>): State<T>
    requires IsRun(b, s, steps)
    decreases |steps|
  {
    if steps == [] then s else Exec(b, Next(b, s, steps[0]), steps[1..])
  }

  ghost function Trace<T>(b: Bound, s: State<T>, steps: seq<Step<T>>): seq<Event<T>>
    requires IsRun(b, s, steps)
    decreases |steps|
  {
    if steps == [] then [] else Emits(b, s, steps[0]) + Trace(b, Next(b, s, steps[0]), steps[1..])
  }

  lemma OneStep<T>(b: Bound, s: State<T>, a: Step<T>)
    requires Enabled(s, a)
    ensures IsRun(b, s, [a]) && Exec(b, s, [a]) == Next(b, s, a) && Trace(b, s, [a]) == Emits(b, s, a)
  {
    assert [a][1..] == [];
  }

  lemma {:induction false} Compose<T>(b: Bound, s: State<T>, one: seq<Step<T>>, two: seq<Step<T>>)
    requires IsRun(b, s, one) && IsRun(b, Exec(b, s, one), two)
    ensures IsRun(b, s, one + two)
    ensures Exec(b, s, one + two) == Exec(b, Exec(b, s, one), two)
    ensures Trace(b, s, one + two) == Trace(b, s, one) + Trace(b, Exec(b, s, one), two)
    decreases |one|
  {
    if one == [] {
      assert one + two == two;
    } else {
      var s' := Next(b, s, one[0]);
      Compose(b, s', one[1..], two);
      TailOfAppend(one, two);
      Associate(Emits(b, s, one[0]), Trace(b, s', one[1..]), Trace(b, Exec(b, s, one), two));
    }
  }

  // ----- what a trace shows -----

  ghost function UnitsOf<T>(e: Event<T>): seq<T> {
    if e.Wrote? then e.units else []
  }

  ghost function AcceptedBy<T>(e: Event<T>): seq<seq<T>> {
    if e.Accepted? then [e.item] else []
  }

  ghost function DecidedBy<T>(e: Event<T>): seq<seq<T>> {
    if e.Accepted? || e.Refused? then [e.item] else []
  }

  /** The units that went out, in order. */
  ghost function Sent<T>(trace: seq<Event<T>>): seq<T> {
    if trace == [] then [] else UnitsOf(trace[0]) + Sent(trace[1..])
  }

  /** The items that were accepted, and those that were accepted or refused, in order. */
  ghost function Taken<T>(trace: seq<Event<T>>): seq<seq<T>> {
    if trace == [] then [] else AcceptedBy(trace[0]) + Taken(trace[1..])
  }

  ghost function Decided<T>(trace: seq<Event<T>>): seq<seq<T>> {
    if trace == [] then [] else DecidedBy(trace[0]) + Decided(trace[1..])
  }

  /** The items that `Send` was called with, in order. */
  ghost function Offered<T>(steps: seq<Step<T>>): seq<seq<T>> {
    if steps == [] then [] else (if steps[0].Send? then [steps[0].item] else []) + Offered(steps[1..])
  }

  lemma {:induction false} SentAppend<T>(one: seq<Event<T>>, more: seq<Event<T>>)
    ensures Sent(one + more) == Sent(one) + Sent(more)
  {
    if one == [] {
      assert one + more == more;
    } else {
      SentAppend(one[1..], more);
      TailOfAppend(one, more);
      Associate(UnitsOf(one[0]), Sent(one[1..]), Sent(more));
    }
  }

  lemma {:induction false} TakenAppend<T>(one: seq<Event<T>>, more: seq<Event<T>>)
    ensures Taken(one + more) == Taken(one) + Taken(more)
  {
    if one == [] {
      assert one + more == more;
    } else {
      TakenAppend(one[1..], more);
      TailOfAppend(one, more);
      Associate(AcceptedBy(one[0]), Taken(one[1..]), Taken(more));
    }
  }

  lemma {:induction false} DecidedAppend<T>(one: seq<Event<T>>, more: seq<Event<T>>)
    ensures Decided(one + more) == Decided(one) + Decided(more)
  {
    if one == [] {
      assert one + more == more;
    } else {
      DecidedAppend(one[1..], more);
      TailOfAppend(one, more);
      Associate(DecidedBy(one[0]), Decided(one[1..]), Decided(more));
    }
  }

  lemma StepShows<T>(b: Bound, s: State<T>, a: Step<T>)
    requires Enabled(s, a)
    ensures var s', e := Next(b, s, a), Emits(b, s, a);
            && |e| <= 1
            && s'.wire == s.wire + Sent(e) && s'.accepted == s.accepted + Taken(e)
            && Decided(e) == (if a.Send? then [a.item] else [])
            && (s'.closed <==> s.closed || Failed in e || Closed in e)
            && (Failed in e <==> a.Fail?) && (Closed in e <==> a.Close?)
  {
    var e := Emits(b, s, a);
    assert e != [] ==> e[1..] == [];
  }

  /** A trace determines what went out, what was accepted and whether the socket is closed; every item
      offered is accepted or refused, in its turn. */
  lemma {:induction false} TraceShows<T>(b: Bound, s: State<T>, steps: seq<Step<T>>)
    requires IsRun(b, s, steps)
    ensures Exec(b, s, steps).wire == s.wire + Sent(Trace(b, s, steps))
    ensures Exec(b, s, steps).accepted == s.accepted + Taken(Trace(b, s, steps))
    ensures Decided(Trace(b, s, steps)) == Offered(steps)
    ensures Exec(b, s, steps).closed <==> s.closed || Failed in Trace(b, s, steps) || Closed in Trace(b, s, steps)
    ensures (Failed in Trace(b, s, steps) <==> Fail in steps) && (Closed in Trace(b, s, steps) <==> Close in steps)
    decreases |steps|
  {
    if steps != [] {
      var s', rest := Next(b, s, steps[0]), steps[1..];
      var e, more := Emits(b, s, steps[0]), Trace(b, s', rest);
      TraceShows(b, s', rest);
      StepShows(b, s, steps[0]);
      HeadTail(steps);
      SentAppend(e, more);
      TakenAppend(e, more);
      DecidedAppend(e, more);
      Associate(s.wire, Sent(e), Sent(more));
      Associate(s.accepted, Taken(e), Taken(more));
    }
  }

  // ----- what every step keeps -----

  ghost function Unsent<T>(s: State<T>): seq<T>
    requires s.queue != [] ==> s.sent <= |s.queue[0]|
  {
    if s.queue == [] then [] else s.queue[0][s.sent..] + Concat(s.queue[1..])
  }

  ghost predicate Valid<T>(b: Bound, s: State<T>) {
    && (s.queue == [] ==> !s.writing && s.sent == 0)
    && (s.queue != [] ==> s.sent <= |s.queue[0]|)
    && (s.queue != [] && !s.writing ==> s.closed)
    && (b.Max? ==> |s.queue| <= b.n + 1)
    && Concat(s.accepted) == s.wire + Unsent(s)
  }

  lemma SendConserves<T>(b: Bound, s: State<T>, x: seq<T>)
    requires Valid(b, s) && !Full(b, |s.queue|)
    ensures var s' := Next(b, s, Send(x)); Concat(s'.accepted) == s'.wire + Unsent(s')
  {
    var s' := Next(b, s, Send(x));
    ConcatPush(s.accepted, x);
    assert Unsent(s') == Unsent(s) + x by {
      if s.queue == [] {
        assert [x][1..] == [] && x[0..] == x;
      } else {
        ConcatPush(s.queue[1..], x);
        assert s'.queue[1..] == s.queue[1..] + [x];
        Associate(s.queue[0][s.sent..], Concat(s.queue[1..]), x);
      }
    }
    Associate(s.wire, Unsent(s), x);
  }

  lemma TransferConserves<T>(b: Bound, s: State<T>, n: nat)
    requires Valid(b, s) && Enabled(s, Transfer(n))
    ensures var s' := Next(b, s, Transfer(n)); Concat(s'.accepted) == s'.wire + Unsent(s')
  {
    MoveOn(s.wire, s.queue[0], s.sent, s.sent + n, Concat(s.queue[1..]));
  }

  lemma CompleteConserves<T>(b: Bound, s: State<T>)
    requires Valid(b, s) && Enabled(s, Step<T>.Complete)
    ensures var s' := Next(b, s, Step<T>.Complete); Concat(s'.accepted) == s'.wire + Unsent(s')
  {
    assert s.queue[0][s.sent..] == [];
    if |s.queue| > 1 {
      assert s.queue[1][0..] == s.queue[1] && s.queue[1..][0] == s.queue[1];
    }
  }

  lemma StepKeepsValid<T>(b: Bound, s: State<T>, a: Step<T>)
    requires Valid(b, s) && Enabled(s, a)
    ensures Valid(b, Next(b, s, a))
  {
    match a
    case Send(x) =>
      if !Full(b, |s.queue|) {
        SendConserves(b, s, x);
      }
    case Transfer(n) => TransferConserves(b, s, n);
    case Complete => CompleteConserves(b, s);
    case Fail =>
    case Close =>
  }

  /** In every run, errors and partial transfers included: what has been transferred followed by what
      is still queued is the concatenation of the accepted items in acceptance order. */
  lemma {:induction false} RunsConserve<T>(b: Bound, s: State<T>, steps: seq<Step<T>>)
    requires Valid(b, s) && IsRun(b, s, steps)
    ensures var s' := Exec(b, s, steps);
            Valid(b, s') && s'.wire <= Concat(s'.accepted) && s.wire <= s'.wire && s.accepted <= s'.accepted
    ensures var s' := Exec(b, s, steps);
            !s'.writing && !s'.closed ==> s'.wire == Concat(s'.accepted)
    decreases |steps|
  {
    if steps != [] {
      StepKeepsValid(b, s, steps[0]);
      RunsConserve(b, Next(b, s, steps[0]), steps[1..]);
    }
  }

  /** The queue is the end of what has been accepted; the wire holds everything before it and the part of
      the front that has been transferred. */
  ghost predicate InPlace<T>(s: State<T>) {
    var n := |s.accepted| - |s.queue|;
    && n >= 0 && s.accepted[n..] == s.queue
    && (s.queue != [] ==> s.sent <= |s.queue[0]|)
    && s.wire == Concat(s.accepted[..n]) + (if s.queue == [] then [] else s.queue[0][..s.sent])
  }

  lemma SendKeepsPlace<T>(b: Bound, s: State<T>, x: seq<T>)
    requires Valid(b, s) && InPlace(s)
    ensures InPlace(Next(b, s, Send(x)))
  {
    var n := |s.accepted| - |s.queue|;
    assert (s.accepted + [x])[n..] == s.accepted[n..] + [x];
    assert (s.accepted + [x])[..n] == s.accepted[..n];
    assert x[..0] == [];
  }

  lemma TransferKeepsPlace<T>(b: Bound, s: State<T>, n: nat)
    requires InPlace(s) && Enabled(s, Transfer(n))
    ensures InPlace(Next(b, s, Transfer(n)))
  {
    var front, before := s.queue[0], Concat(s.accepted[..|s.accepted| - |s.queue|]);
    assert front[..s.sent] + front[s.sent..s.sent + n] == front[..s.sent + n];
    Associate(before, front[..s.sent], front[s.sent..s.sent + n]);
  }

  lemma CompleteKeepsPlace<T>(b: Bound, s: State<T>)
    requires InPlace(s) && Enabled(s, Step<T>.Complete)
    ensures InPlace(Next(b, s, Step<T>.Complete))
  {
    var n, front := |s.accepted| - |s.queue|, s.queue[0];
    TakeOneMore(s.accepted, n);
    assert front[..s.sent] == front;
    ConcatPush(s.accepted[..n], front);
  }

  lemma StepKeepsPlace<T>(b: Bound, s: State<T>, a: Step<T>)
    requires Valid(b, s) && InPlace(s) && Enabled(s, a)
    ensures InPlace(Next(b, s, a))
  {
    match a
    case Send(x) => SendKeepsPlace(b, s, x);
    case Transfer(n) => TransferKeepsPlace(b, s, n);
    case Complete => CompleteKeepsPlace(b, s);
    case Fail =>
    case Close =>
  }

  /** In every run the wire ends inside the item that is in front of the queue. */
  lemma {:induction false} RunsKeepPlace<T>(b: Bound, s: State<T>, steps: seq<Step<T>>)
    requires Valid(b, s) && InPlace(s) && IsRun(b, s, steps)
    ensures InPlace(Exec(b, s, steps))
    decreases |steps|
  {
    if steps != [] {
      StepKeepsValid(b, s, steps[0]);
      StepKeepsPlace(b, s, steps[0]);
      RunsKeepPlace(b, Next(b, s, steps[0]), steps[1..]);
    }
  }

  lemma InitValid<T>(b: Bound)
    ensures Valid<T>(b, Init())
  {
  }

  lemma InitInPlace<T>()
    ensures InPlace<T>(Init())
  {
    assert Concat<T>([]) + [] == [];
  }

  /** After a failed write the front item stays queued and nobody holds the right to write. */
  ghost predicate Dead<T>(s: State<T>) {
    s.queue != [] && !s.writing
  }

  lemma FailKills<T>(b: Bound, s: State<T>)
    requires Valid(b, s) && Enabled(s, Step<T>.Fail)
    ensures Dead(Next(b, s, Step<T>.Fail))
  {
  }

  /** Fail-stop: nothing queued is ever dropped, no write is ever started, the wire never grows. */
  lemma {:induction false} DeadForever<T>(b: Bound, s: State<T>, steps: seq<Step<T>>)
    requires Dead(s) && IsRun(b, s, steps)
    ensures var s' := Exec(b, s, steps); Dead(s') && s'.wire == s.wire && s.queue <= s'.queue
    ensures forall e <- Trace(b, s, steps) :: !e.Wrote? && !e.Failed?
    decreases |steps|
  {
    if steps != [] {
      DeadForever(b, Next(b, s, steps[0]), steps[1..]);
    }
  }

  /** Closing the socket silences the session at once, also while a write is in flight. */
  lemma {:induction false} ClosedIsSilent<T>(b: Bound, s: State<T>, steps: seq<Step<T>>)
    requires s.closed && IsRun(b, s, steps)
    ensures Exec(b, s, steps).wire == s.wire && Exec(b, s, steps).closed
    ensures forall e <- Trace(b, s, steps) :: !e.Wrote?
    decreases |steps|
  {
    if steps != [] {
      ClosedIsSilent(b, Next(b, s, steps[0]), steps[1..]);
    }
  }

  /** `n` sends with no completion in between fill the queue to MAX_SENDQUE + 1 items, never more. */
  lemma {:induction false} BoundIsOneMore<T>(max: nat, item: seq<T>, n: nat)
    ensures var steps := seq(n, _ => Send(item));
            IsRun(Max(max), Init(), steps)
            && |Exec(Max(max), Init(), steps).queue| == if n <= max + 1 then n else max + 1
  {
    var steps := seq(n, _ => Send(item));
    if n > 0 {
      BoundIsOneMore(max, item, n - 1);
      var before := seq(n - 1, _ => Send(item));
      Compose(Max(max), Init(), before, [Send(item)]);
      assert steps == before + [Send(item)];
      var s := Exec(Max(max), Init(), before);
      assert Exec(Max(max), s, [Send(item)]) == Exec(Max(max), Next(Max(max), s, Send(item)), []);
    }
  }

  // ----- progress -----

  ghost predicate Progress<T>(a: Step<T>) {
    a.Complete? || (a.Transfer? && a.n > 0)
  }

  /** Transfers and completions alone cannot go on for ever. */
  lemma {:induction false} TransfersTerminate<T>(b: Bound, s: State<T>, steps: seq<Step<T>>)
    requires Valid(b, s) && IsRun(b, s, steps) && forall a <- steps :: Progress(a)
    ensures |steps| <= |Unsent(s)| + |s.queue|
    decreases |steps|
  {
    if steps != [] {
      var s' := Next(b, s, steps[0]);
      StepKeepsValid(b, s, steps[0]);
      assert Progress(steps[0]) && s'.accepted == s.accepted;
      assert |s.wire| + |Unsent(s)| == |Concat(s.accepted)|;
      assert |s'.wire| + |Unsent(s')| == |Concat(s.accepted)|;
      TransfersTerminate(b, Next(b, s, steps[0]), steps[1..]);
    }
  }

  /** On an open socket they can go on until everything accepted has been transferred. */
  lemma OpenCanProgress<T>(b: Bound, s: State<T>) returns (a: Step<T>)
    requires Valid(b, s) && !s.closed && s.wire != Concat(s.accepted)
    ensures Progress(a) && Enabled(s, a)
  {
    if s.sent == |s.queue[0]| {
      a := Complete;
    } else {
      a := Transfer(1);
    }
  }
}
