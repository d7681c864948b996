/** The websocket echo: one connection's handshake, reads and writes, and its entry in the manager.
    `main` runs one thread, so each completion handler is one step. */
module WebSocket {
  import opened Seqs
  import opened Wire
  import Sender

  type Payload = seq<Byte>

  datatype Handshake = Waiting | Open | Refused

  datatype State = State(
    handshake: Handshake,
    readFailed: bool,
    managed: bool,              // the manager holds the connection
    received: seq<Payload>,     // history
    send: Sender.State<Payload> // a unit on the wire is a whole payload
  )

  datatype Event =
    | Accepted(ok: bool)       // async_accept has ended
    | Received(data: Payload)  // async_read has ended well
    | ReadFails
    | Writing(step: Sender.Step<Payload>) // the write in flight transfers, ends well or fails

  const INIT := State(Waiting, false, false, [], Sender.Init())

  ghost predicate Enabled(s: State, e: Event) {
    match e
    case Accepted(_) => s.handshake.Waiting?
    case Received(_) => s.handshake.Open? && !s.readFailed
    case ReadFails => s.handshake.Open? && !s.readFailed
    case Writing(a) => !a.Send? && !a.Close? && Sender.Enabled(s.send, a)
  }

  ghost function Next(s: State, e: Event): State
    requires Enabled(s, e)
  {
    match e
    case Accepted(ok) => s.(handshake := if ok then Open else Refused, managed := ok)
    case Received(data) =>
      s.(received := s.received + [data], send := Sender.Next(Sender.Unbounded, s.send, Sender.Send([data])))
    case ReadFails => s.(readFailed := true, managed := false)
    case Writing(a) => s.(send := Sender.Next(Sender.Unbounded, s.send, a), managed := s.managed && !a.Fail?)
  }

  ghost predicate IsRun(s: State, es: seq<Event>)
    decreases |es|
  {
    es != [] ==> Enabled(s, es[0]) && IsRun(Next(s, es[0]), es[1..])
  }

  ghost function Exec(s: State, es: seq<Event>): State
    requires IsRun(s, es)
    decreases |es|
  {
    if es == [] then s else Exec(Next(s, es[0]), es[1..])
  }

  ghost predicate Inv(s: State) {
    && (s.managed <==> s.handshake.Open? && !s.readFailed && !s.send.closed)
    && (!s.handshake.Open? ==> s.send == Sender.Init() && !s.readFailed)
    && Sender.Valid(Sender.Unbounded, s.send)
    && Concat(s.send.accepted) == s.received
  }

  lemma StepKeepsInv(s: State, e: Event)
    requires Inv(s) && Enabled(s, e)
    ensures Inv(Next(s, e))
  {
    match e
    case Received(data) =>
      ConcatPush(s.send.accepted, [data]);
      Sender.StepKeepsValid(Sender.Unbounded, s.send, Sender.Send([data]));
    case Writing(a) => Sender.StepKeepsValid(Sender.Unbounded, s.send, a);
    case _ =>
  }

  lemma {:induction false} Snoc(s: State, es: seq<Event>, e: Event)
    requires IsRun(s, es) && Enabled(Exec(s, es), e)
    ensures IsRun(s, es + [e]) && Exec(s, es + [e]) == Next(Exec(s, es), e)
    decreases |es|
  {
    if es == [] {
      assert es + [e] == [e];
      assert Exec(Next(s, e), []) == Next(s, e);
    } else {
      Snoc(Next(s, es[0]), es[1..], e);
      TailOfAppend(es, [e]);
    }
  }

  /** In every run: the payloads written are a prefix, in order, of the payloads read, and all of them
      once nothing is queued; unless a write has failed one is in flight exactly while something is
      queued; and the manager holds the connection exactly from a successful handshake until the first
      failed read or write. */
  lemma EchoIsFaithful(es: seq<Event>)
    requires IsRun(INIT, es)
    ensures var s := Exec(INIT, es);
            && s.send.wire <= s.received
            && (s.send.queue == [] ==> s.send.wire == s.received)
            && (!s.send.closed ==> (s.send.writing <==> s.send.queue != []))
            && (s.managed <==> Accepted(true) in es && ReadFails !in es && Writing(Sender.Fail) !in es)
  {
    ManagedIff(INIT, es);
  }

  lemma {:induction false} ManagedIff(s: State, es: seq<Event>)
    requires Inv(s) && IsRun(s, es)
    ensures var e := Exec(s, es);
            && Inv(e)
            && (e.handshake.Open? <==> s.handshake.Open? || Accepted(true) in es)
            && (e.readFailed <==> s.readFailed || ReadFails in es)
            && (e.send.closed <==> s.send.closed || Writing(Sender.Fail) in es)
    decreases |es|
  {
    if es != [] {
      StepKeepsInv(s, es[0]);
      ManagedIff(Next(s, es[0]), es[1..]);
      HeadTail(es);
      if s.handshake.Open? {
        StaysOpen(Next(s, es[0]), es[1..]);
      }
    }
  }

  lemma {:induction false} StaysOpen(s: State, es: seq<Event>)
    requires IsRun(s, es) && !s.handshake.Waiting?
    ensures Exec(s, es).handshake == s.handshake && forall ok :: Accepted(ok) !in es
    decreases |es|
  {
    if es != [] {
      StaysOpen(Next(s, es[0]), es[1..]);
      assert es == [es[0]] + es[1..];
    }
  }

  // ----- the handlers as code -----

  class ConnectionManager {
    var connections: map<string, Connection>

    constructor ()
      ensures connections == map[]
    {
      connections := map[];
    }

    /** `insert` keeps an existing entry. */
    method AddConnection(conn: Connection)
      modifies this
      ensures conn.uuid in connections
      ensures connections == if conn.uuid in old(connections) then old(connections)
                             else old(connections)[conn.uuid := conn]
    {
      if conn.uuid !in connections {
        connections := connections[conn.uuid := conn];
      }
    }

    method RemoveConnection(uuid: string)
      modifies this
      ensures connections == old(connections) - {uuid}
    {
      connections := connections - {uuid};
    }
  }

  function Units(q: seq<Payload>): seq<seq<Payload>> {
    seq(|q|, i requires 0 <= i < |q| => [q[i]])
  }

  lemma UnitsTail(q: seq<Payload>)
    requires q != []
    ensures Units(q) != [] && Units(q)[0] == [q[0]] && Units(q)[1..] == Units(q[1..])
  {
  }

  class Connection {
    const uuid: string
    var sendQueue: seq<Payload>
    ghost var spec: State
    ghost var history: seq<Event>

    ghost predicate Valid(m: ConnectionManager)
      reads this, m
    {
      && IsRun(INIT, history) && spec == Exec(INIT, history)
      && spec.send.queue == Units(sendQueue)
      && (spec.managed <==> uuid in m.connections)
      && (spec.managed ==> m.connections[uuid] == this)
    }

    constructor (id: string, m: ConnectionManager)
      requires id !in m.connections
      ensures Valid(m) && uuid == id && history == []
    {
      uuid, sendQueue, spec, history := id, [], INIT, [];
    }

    ghost method Record(e: Event)
      requires IsRun(INIT, history) && spec == Exec(INIT, history) && Enabled(spec, e)
      modifies this`spec, this`history
      ensures history == old(history) + [e] && spec == Next(old(spec), e)
      ensures IsRun(INIT, history) && spec == Exec(INIT, history) && Inv(old(spec)) && Inv(spec)
    {
      ManagedIff(INIT, history);
      StepKeepsInv(spec, e);
      Snoc(INIT, history, e);
      spec, history := Next(spec, e), history + [e];
    }

    /** The handler of async_accept; a true result means that a read is started. */
    method OnAccept(m: ConnectionManager, ok: bool) returns (read: bool)
      requires Valid(m) && spec.handshake.Waiting?
      modifies this, m
      ensures Valid(m) && history == old(history) + [Accepted(ok)] && read == ok
      ensures m.connections - {uuid} == old(m.connections) - {uuid}
      ensures forall c: Connection | old(allocated(c)) && old(c.Valid(m)) && c.uuid != uuid :: c.Valid(m)
    {
      Record(Accepted(ok));
      if ok {
        m.AddConnection(this);
      } else {
        m.RemoveConnection(uuid);
      }
      read := ok;
    }

    /** The handler of a successful async_read, with AsyncSend; `write` tells that a write is started. */
    method OnRead(m: ConnectionManager, data: Payload) returns (write: bool)
      requires Valid(m) && spec.handshake.Open? && !spec.readFailed
      modifies this
      ensures Valid(m) && history == old(history) + [Received(data)]
      ensures sendQueue == old(sendQueue) + [data]
      ensures forall c: Connection | old(allocated(c)) && old(c.Valid(m)) && c.uuid != uuid :: c.Valid(m)
      ensures write <==> spec.send.writing && !old(spec).send.writing
    {
      Record(Received(data));
      var queLen := |sendQueue|;
      sendQueue := sendQueue + [data];
      write := queLen == 0;
    }

    method OnReadError(m: ConnectionManager)
      requires Valid(m) && spec.handshake.Open? && !spec.readFailed
      modifies this, m
      ensures Valid(m) && history == old(history) + [ReadFails]
      ensures m.connections - {uuid} == old(m.connections) - {uuid}
      ensures forall c: Connection | old(allocated(c)) && old(c.Valid(m)) && c.uuid != uuid :: c.Valid(m)
    {
      Record(ReadFails);
      m.RemoveConnection(uuid);
    }

    /** The payload of the write in flight goes out, before its handler runs. */
    method Transferred(m: ConnectionManager) returns (msg: Payload)
      requires Valid(m) && spec.send.writing && sendQueue != [] && spec.send.sent == 0 && !spec.send.closed
      modifies this`spec, this`history
      ensures Valid(m) && history == old(history) + [Writing(Sender.Transfer(1))]
      ensures sendQueue != [] && msg == sendQueue[0] && spec.send.wire == old(spec).send.wire + [msg]
    {
      msg := sendQueue[0];
      Record(Writing(Sender.Transfer(1)));
      assert [msg][0..1] == [msg];
    }

    /** The handler of async_write; `write` tells that the next write is started, with `msg`. */
    method OnWritten(m: ConnectionManager, ok: bool) returns (write: bool, msg: Payload)
      requires Valid(m) && spec.send.writing && sendQueue != [] && (ok ==> spec.send.sent == 1)
      modifies this, m
      ensures Valid(m) && history == old(history) + [Writing(if ok then Sender.Complete else Sender.Fail)]
      ensures write <==> spec.send.writing
      ensures write ==> sendQueue != [] && msg == sendQueue[0]
      ensures sendQueue == if ok then old(sendQueue)[1..] else old(sendQueue)
      ensures m.connections - {uuid} == old(m.connections) - {uuid}
      ensures forall c: Connection | old(allocated(c)) && old(c.Valid(m)) && c.uuid != uuid :: c.Valid(m)
    {
      write, msg := false, [];
      var e: Event := Writing(if ok then Sender.Complete else Sender.Fail);
      Record(e);
      if ok {
        UnitsTail(sendQueue);
        sendQueue := sendQueue[1..];
        if sendQueue == [] {
          return;
        }
        write, msg := true, sendQueue[0];
      } else {
        m.RemoveConnection(uuid);
      }
    }
  }

  lemma {:induction false} ConcatUnits(q: seq<Payload>)
    ensures Concat(Units(q)) == q
  {
    if q != [] {
      ConcatUnits(q[1..]);
      UnitsTail(q);
      HeadTail(q);
    }
  }

  /** Whatever handlers have run on a connection: what it has written and what it has still to write are the
      payloads read, in order, and the manager has it under its uuid exactly from a successful handshake
      until its first failed read or write. */
  lemma ConnectionEchoes(c: Connection, m: ConnectionManager)
    requires c.Valid(m)
    ensures c.spec.send.sent <= |c.sendQueue| && c.spec.received == c.spec.send.wire + c.sendQueue[c.spec.send.sent..]
    ensures c.uuid in m.connections <==>
            Accepted(true) in c.history && ReadFails !in c.history && Writing(Sender.Fail) !in c.history
    ensures c.uuid in m.connections ==> m.connections[c.uuid] == c
  {
    ManagedIff(INIT, c.history);
    RestIsQueued(c.spec, c.sendQueue);
  }

  lemma RestIsQueued(s: State, q: seq<Payload>)
    requires Inv(s) && s.send.queue == Units(q)
    ensures s.send.sent <= |q| && s.received == s.send.wire + q[s.send.sent..]
  {
    if q != [] {
      UnitsTail(q);
      ConcatUnits(q[1..]);
      UnsentUnits(s.send.sent, q);
    }
  }

  lemma UnsentUnits(sent: nat, q: seq<Payload>)
    requires sent <= 1 && q != []
    ensures [q[0]][sent..] + q[1..] == q[sent..]
  {
  }
}
