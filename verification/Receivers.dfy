/** The receivers as code over a socket whose bytes arrive in arbitrary chunks. */
module Receivers {
  import opened Seqs
  import opened Wire
  import opened MsgNodes
  import Receive

  /** The read side of a socket: the chunks that will arrive, then end of stream. */
  class Socket {
    var chunks: seq<seq<Byte>>

    ghost function Bytes(): seq<Byte>
      reads this
    {
      Concat(chunks)
    }

    constructor (arriving: seq<seq<Byte>>)
      ensures chunks == arriving
    {
      chunks := arriving;
    }

    /** One read: at least one byte, at most `max`, and never across a chunk; 0 at the end. */
    method ReadSome(buf: array<Byte>, at: nat, max: nat) returns (n: nat)
      requires 0 < max && at + max <= buf.Length
      modifies this, buf
      ensures n <= max && n <= |old(Bytes())| && (n == 0 <==> old(Bytes()) == [])
      ensures Bytes() == old(Bytes())[n..]
      ensures buf[..at] == old(buf[..at]) && buf[at + n..] == old(buf[at + n..])
      ensures buf[at..at + n] == old(Bytes())[..n]
    {
      while chunks != [] && chunks[0] == []
        invariant Bytes() == old(Bytes()) && buf[..] == old(buf[..])
        decreases |chunks|
      {
        chunks := chunks[1..];
      }
      if chunks == [] {
        return 0;
      }
      var chunk := chunks[0];
      n := if |chunk| < max then |chunk| else max;
      ghost var later := Concat(chunks[1..]);
      forall i | 0 <= i < n {
        buf[at + i] := chunk[i];
      }
      chunks := [chunk[n..]] + chunks[1..];
      assert Bytes() == chunk[n..] + later;
    }

    /** The composed read `async_read`: until `max` bytes have come or the stream ends. */
    method Read(buf: array<Byte>, max: nat) returns (ok: bool)
      requires max <= buf.Length
      modifies this, buf
      ensures ok <==> max <= |old(Bytes())|
      ensures ok ==> Bytes() == old(Bytes())[max..] && buf[..max] == old(Bytes())[..max]
      ensures !ok ==> Bytes() == [] && buf[..|old(Bytes())|] == old(Bytes())
                      && buf[|old(Bytes())|..] == old(buf[|Bytes()|..])
      ensures buf[max..] == old(buf[max..])
    {
      var n := 0;
      while n < max
        invariant n <= max && n <= |old(Bytes())|
        invariant Bytes() == old(Bytes())[n..] && buf[..n] == old(Bytes())[..n]
        invariant buf[n..] == old(buf[n..])
      {
        var k := ReadSome(buf, n, max - n);
        if k == 0 {
          return false;
        }
        assert buf[..n + k] == buf[..n] + buf[n..n + k];
        assert buf[n + k..] == old(buf[n..])[k..] == old(buf[n + k..]);
        n := n + k;
      }
      ok := true;
    }
  }

  /** The nodes posted to the logic queue, with their values; `others` are buffers still written to. */
  ghost predicate Posted(nodes: seq<RecvNode>, values: seq<Msg>, others: set<array<Byte>>)
    reads set n <- nodes :: n.data
  {
    && |nodes| == |values|
    && (forall i | 0 <= i < |nodes| ::
          nodes[i].Sized() && nodes[i].data !in others && nodes[i].Value() == values[i])
  }

  /** The receive loop of the coroutine server and, without limits, of the client. */
  class LoopReceiver {
    const limits: Limits
    const recvHeadNode: MsgNode
    var closed: bool
    var posted: seq<RecvNode>
    ghost var delivered: seq<Msg>

    ghost predicate Valid()
      reads this, set n <- posted :: n.data
    {
      recvHeadNode.totalLen == HEAD_TOTAL_LEN && recvHeadNode.data.Length == HEAD_TOTAL_LEN + 1
      && Posted(posted, delivered, {recvHeadNode.data})
    }

    constructor (l: Limits)
      ensures Valid() && limits == l && delivered == [] && fresh(recvHeadNode) && fresh(recvHeadNode.data)
    {
      limits, closed, posted, delivered := l, false, [], [];
      recvHeadNode := new MsgNode(HEAD_TOTAL_LEN);
    }

    method ReadHead(sock: Socket) returns (p: Phase)
      requires Valid()
      modifies recvHeadNode, recvHeadNode.data, sock
      ensures Valid()
      ensures var bytes := old(sock.Bytes());
              if |bytes| < HEAD_TOTAL_LEN then p == Stopped(ReadError)
              else p == OnHeader(limits, bytes[..HEAD_TOTAL_LEN]) && sock.Bytes() == bytes[HEAD_TOTAL_LEN..]
      ensures var n := |old(sock.Bytes())|;
              n < HEAD_TOTAL_LEN ==>
                && recvHeadNode.data[..n] == old(sock.Bytes())
                && forall i | n <= i < HEAD_TOTAL_LEN :: recvHeadNode.data[i] == 0
    {
      ghost var bytes := sock.Bytes();
      recvHeadNode.Clear();
      var read := sock.Read(recvHeadNode.data, HEAD_TOTAL_LEN);
      if !read {
        return Stopped(ReadError);
      }
      assert recvHeadNode.data[..HEAD_TOTAL_LEN] == bytes[..HEAD_TOTAL_LEN];
      var id := NetworkToHost(recvHeadNode.data[0], recvHeadNode.data[1]);
      if id > limits.maxId {
        return Stopped(BadId);
      }
      var len := NetworkToHost(recvHeadNode.data[2], recvHeadNode.data[3]);
      if len > limits.maxLen {
        return Stopped(BadLength);
      }
      p := if len < 0 then Stopped(NegativeLength) else Body(id, len);
    }

    /** The body goes into a fresh node, which is then posted and never written again. */
    method ReadBody(sock: Socket, id: Short, len: nat) returns (ok: bool)
      requires Valid() && len < 0x8000
      modifies this`posted, this`delivered, sock
      ensures Valid() && old(posted) <= posted
      ensures ok <==> len <= |old(sock.Bytes())|
      ensures ok ==> sock.Bytes() == old(sock.Bytes())[len..]
                     && delivered == old(delivered) + [RawMsg.Msg(id, old(sock.Bytes())[..len])]
      ensures !ok ==> delivered == old(delivered)
    {
      var node := new RecvNode(len, id);
      ok := sock.Read(node.data, len);
      if ok {
        posted := posted + [node];
        delivered := delivered + [node.Value()];
      }
    }

    /** One turn of the loop: the first message of the stream, if it is accepted and complete. */
    method ReceiveOne(sock: Socket) returns (ok: bool)
      requires Valid()
      modifies this`posted, this`delivered, recvHeadNode, recvHeadNode.data, sock
      ensures Valid() && old(posted) <= posted
      ensures var all := Decode(limits, old(sock.Bytes())).0;
              && (ok <==> all != [])
              && (ok ==> delivered == old(delivered) + [all[0]] && all[1..] == Decode(limits, sock.Bytes()).0)
      ensures !ok ==> delivered == old(delivered)
      ensures ok ==> |sock.Bytes()| < |old(sock.Bytes())|
    {
      ghost var bytes := sock.Bytes();
      var p := ReadHead(sock);
      if !p.Body? {
        return false;
      }
      DecodeOne(limits, bytes);
      ok := ReadBody(sock, p.id, p.len);
    }

    /** `flag(k)` is what the loop reads from `m_flag_close` before message `k`. Whatever the chunks
        are, the loop delivers the messages of the whole stream in order, all of them unless the flag
        was set, and exactly up to the first time it was. */
    method Start(sock: Socket, flag: nat -> bool)
      requires Valid() && delivered == []
      modifies this, recvHeadNode, recvHeadNode.data, sock
      ensures Valid() && closed
      ensures var all := Decode(limits, old(sock.Bytes())).0;
              && delivered <= all
              && (delivered == all || flag(|delivered|))
              && forall k | 0 <= k < |delivered| :: !flag(k)
    {
      ghost var all := Decode(limits, sock.Bytes()).0;
      var k := 0;
      while !flag(k)
        invariant Valid()
        invariant k <= |all| && delivered == all[..k] && Decode(limits, sock.Bytes()).0 == all[k..]
        invariant forall j | 0 <= j < k :: !flag(j)
        decreases |sock.Bytes()|
      {
        var ok := ReceiveOne(sock);
        if !ok {
          break;
        }
        TakeOneMore(all, k);
        k := k + 1;
      }
      closed := true;
    }
  }

  /** What the decoder does after an accepted header, in terms of the bytes after it. */
  lemma DecodeOne(l: Limits, s: seq<Byte>)
    requires |s| >= HEAD_TOTAL_LEN && OnHeader(l, s[..HEAD_TOTAL_LEN]).Body?
    ensures var p, body := OnHeader(l, s[..HEAD_TOTAL_LEN]), s[HEAD_TOTAL_LEN..];
            && p.len < 0x8000
            && (|body| < p.len ==> Decode(l, s).0 == [])
            && (|body| >= p.len ==>
                  Decode(l, s).0 == [RawMsg.Msg(p.id, body[..p.len])] + Decode(l, body[p.len..]).0)
  {
    AcceptedHeader(l, s[..HEAD_TOTAL_LEN]);
    var p, body := OnHeader(l, s[..HEAD_TOTAL_LEN]), s[HEAD_TOTAL_LEN..];
    if |body| >= p.len {
      assert body[..p.len] == s[HEAD_TOTAL_LEN..HEAD_TOTAL_LEN + p.len];
      assert body[p.len..] == s[HEAD_TOTAL_LEN + p.len..];
    }
  }

  datatype Handler = OnHead | OnMsg

  /** A read that has been started and whose handler has not run yet: where its bytes go, how many at
      most, and the handler. */
  datatype ReadOp = ReadOp(buf: array<Byte>, len: nat, handler: Handler)

  /** The read callbacks of `asynServer`. A started read is added to `ops`; the handler that a completed
      one calls takes it away. */
  class CallbackReceiver {
    const limits: Limits
    const recvHeadNode: MsgNode
    var recvMsgNode: RecvNode?
    var ops: seq<ReadOp>
    var closed: bool
    var posted: seq<RecvNode>
    ghost var rx: Receive.State
    ghost var history: seq<Receive.Event>

    ghost function HeadRead(): ReadOp {
      ReadOp(recvHeadNode.data, HEAD_TOTAL_LEN, OnHead)
    }

    ghost function BodyRead(): seq<ReadOp>
      reads this
    {
      if recvMsgNode == null then [] else [ReadOp(recvMsgNode.data, recvMsgNode.totalLen, OnMsg)]
    }

    /** The buffers that reads may still write to. */
    ghost function Open(): set<array<Byte>>
      reads this
    {
      {recvHeadNode.data} + if rx.phase.Body? && recvMsgNode != null then {recvMsgNode.data} else {}
    }

    ghost predicate Valid()
      reads this, set n <- posted :: n.data
    {
      && recvHeadNode.totalLen == HEAD_TOTAL_LEN && recvHeadNode.data.Length == HEAD_TOTAL_LEN + 1
      && Posted(posted, rx.posted, Open())
      && (rx.phase.Head? ==> ops == [] || ops == [HeadRead()])
      && (rx.phase.Body? ==>
            && recvMsgNode != null && recvMsgNode.Sized() && recvMsgNode.data != recvHeadNode.data
            && recvMsgNode.msgId == rx.phase.id && recvMsgNode.totalLen == rx.phase.len
            && ops == BodyRead())
      && (rx.phase.Stopped? ==> ops == [])
      && Receive.IsRun(limits, Receive.INIT, history) && rx == Receive.Exec(limits, Receive.INIT, history)
    }

    constructor (l: Limits)
      ensures Valid() && limits == l && history == [] && ops == []
      ensures fresh(recvHeadNode) && fresh(recvHeadNode.data)
    {
      limits, closed, posted, ops, recvMsgNode := l, false, [], [], null;
      rx, history := Receive.INIT, [];
      recvHeadNode := new MsgNode(HEAD_TOTAL_LEN);
    }

    /** Called by the acceptor, and after each message: the next header read. */
    method Start()
      requires Valid() && rx.phase.Head? && ops == []
      modifies this`ops, recvHeadNode, recvHeadNode.data
      ensures Valid() && ops == [HeadRead()]
      ensures forall i | 0 <= i < HEAD_TOTAL_LEN :: recvHeadNode.data[i] == 0
    {
      recvHeadNode.Clear();
      ops := ops + [ReadOp(recvHeadNode.data, HEAD_TOTAL_LEN, OnHead)];
    }

    /** The operating system writes into the buffer of a started read, before the handler runs. */
    method Fill(k: nat, bytes: seq<Byte>)
      requires Valid() && k < |ops| && |bytes| <= ops[k].len
      modifies ops[k].buf
      ensures Valid() && ops[k].buf[..|bytes|] == bytes
    {
      forall i | 0 <= i < |bytes| {
        ops[k].buf[i] := bytes[i];
      }
    }

    ghost method Record(e: Receive.Event)
      requires Receive.IsRun(limits, Receive.INIT, history) && rx == Receive.Exec(limits, Receive.INIT, history)
      requires Receive.Enabled(rx, e)
      modifies this`rx, this`history
      ensures history == old(history) + [e] && rx == Receive.Next(limits, old(rx), e)
      ensures Receive.IsRun(limits, Receive.INIT, history) && rx == Receive.Exec(limits, Receive.INIT, history)
    {
      Receive.Snoc(limits, Receive.INIT, history, e);
      rx, history := Receive.Next(limits, rx, e), history + [e];
    }

    method HandleReadHead(k: nat, ok: bool, n: nat)
      requires Valid() && k < |ops| && ops[k].handler.OnHead? && (ok ==> 0 < n <= ops[k].len)
      modifies this
      ensures Valid() && posted == old(posted)
      ensures history == old(history) +
                [if ok then Receive.HeadSome(old(ops[k].buf[..n])) else Receive.ReadFailed]
      ensures ops == if rx.phase.Body? then BodyRead() else []
      ensures rx.phase.Body? ==> fresh(recvMsgNode) && fresh(recvMsgNode.data)
      ensures closed <==> old(closed) || rx.phase.Stopped?
    {
      Record(if ok then Receive.HeadSome(ops[k].buf[..n]) else Receive.ReadFailed);
      ops := ops[..k] + ops[k + 1..];
      if !ok || n < HEAD_TOTAL_LEN {
        closed := true;
        return;
      }
      var id := NetworkToHost(recvHeadNode.data[0], recvHeadNode.data[1]);
      if id > limits.maxId {
        closed := true;
        return;
      }
      var len := NetworkToHost(recvHeadNode.data[2], recvHeadNode.data[3]);
      if len > limits.maxLen || len < 0 {
        closed := true;
        return;
      }
      recvMsgNode := new RecvNode(len, id);
      ops := ops + [ReadOp(recvMsgNode.data, recvMsgNode.totalLen, OnMsg)];
    }

    /** Posts the body's own node and starts the next header read into the other buffer: no posted node
        is ever the target of a read again. */
    method HandleReadMsg(k: nat, ok: bool)
      requires Valid() && k < |ops| && ops[k].handler.OnMsg?
      modifies this, recvHeadNode, recvHeadNode.data
      ensures Valid()
      ensures history == old(history) +
                [if ok then Receive.BodyFull(old(ops[k].buf[..ops[k].len])) else Receive.ReadFailed]
      ensures posted == old(posted) + if ok then [old(recvMsgNode)] else []
      ensures ops == if ok then [HeadRead()] else []
      ensures ok ==> forall i | 0 <= i < HEAD_TOTAL_LEN :: recvHeadNode.data[i] == 0
      ensures closed <==> old(closed) || !ok
    {
      Record(if ok then Receive.BodyFull(ops[k].buf[..ops[k].len]) else Receive.ReadFailed);
      ops := ops[..k] + ops[k + 1..];
      if ok {
        posted := posted + [recvMsgNode];
        Start();
      } else {
        closed := true;
      }
    }
  }

  /** Whatever callbacks have run on a session: at most one read is outstanding, its buffer has room for
      it and belongs to no posted node, and the posted nodes hold a prefix of what a receiver with
      composed reads gets from the same stream. */
  lemma SessionReceives(r: CallbackReceiver, stream: seq<Byte>)
    requires r.Valid() && r.rx.consumed <= stream
    ensures |r.ops| <= 1
    ensures forall op <- r.ops, n <- r.posted :: op.buf != n.data && op.len < op.buf.Length
    ensures var all := Decode(r.limits, stream).0;
            && |r.posted| <= |all|
            && forall i | 0 <= i < |r.posted| :: r.posted[i].Sized() && r.posted[i].Value() == all[i]
  {
    Receive.PostsPrefix(r.limits, r.history, stream);
  }
}
