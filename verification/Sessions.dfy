/** The send side of a session as code, tied to the atomic sender. The two servers run the same
    statements; where they release the lock is the subject of SendThreads. */
module Sessions {
  import opened Seqs
  import opened Wire
  import opened MsgNodes
  import Sender

  class SendSession {
    var closed: bool
    var sendQue: seq<SendNode>
    ghost var spec: Sender.State<Byte>
    ghost var history: seq<Sender.Step<Byte>>

    /** The real queue holds the buffers that the atomic sender's queue names, and the atomic sender's
        state is the one its history leads to. */
    ghost predicate Valid()
      reads this, set n <- sendQue :: n.data
    {
      && |sendQue| == |spec.queue|
      && (forall i | 0 <= i < |sendQue| :: sendQue[i].Sized() && sendQue[i].Buffer() == spec.queue[i])
      && closed == spec.closed
      && Sender.IsRun(Sender.BOUND, Sender.Init(), history)
      && Sender.Exec(Sender.BOUND, Sender.Init(), history) == spec
    }

    constructor ()
      ensures Valid() && history == []
    {
      closed, sendQue, spec, history := false, [], Sender.Init(), [];
    }

    ghost method Record(a: Sender.Step<Byte>)
      requires Sender.Enabled(spec, a)
      requires Sender.IsRun(Sender.BOUND, Sender.Init(), history)
      requires Sender.Exec(Sender.BOUND, Sender.Init(), history) == spec
      modifies this`spec, this`history
      ensures history == old(history) + [a] && spec == Sender.Next(Sender.BOUND, old(spec), a)
      ensures Sender.IsRun(Sender.BOUND, Sender.Init(), history)
      ensures Sender.Exec(Sender.BOUND, Sender.Init(), history) == spec
    {
      Sender.OneStep(Sender.BOUND, spec, a);
      Sender.Compose(Sender.BOUND, Sender.Init(), history, [a]);
      spec := Sender.Next(Sender.BOUND, spec, a);
      history := history + [a];
    }

    /** `write` is the node whose buffer is handed to async_write, if a write is started. */
    method Send(msg: seq<Byte>, id: Short) returns (write: SendNode?)
      requires Valid() && HEAD_TOTAL_LEN + |msg| < 0x8000
      modifies this
      ensures Valid() && history == old(history) + [Sender.Send(Frame(RawMsg.Msg(id, msg)))]
      ensures old(sendQue) <= sendQue && (sendQue != old(sendQue) <==> |old(sendQue)| <= Sender.MAX_SENDQUE)
      ensures write != null <==> old(sendQue) == []
      ensures write != null ==> sendQue == [write]
      ensures old(spec.writing || spec.queue == []) ==> spec.writing
    {
      var sendQueSize := |sendQue|;
      Record(Sender.Send(Frame(RawMsg.Msg(id, msg))));
      if sendQueSize > Sender.MAX_SENDQUE {
        return null;
      }
      var node := new SendNode(msg, id);
      sendQue := sendQue + [node];
      if sendQueSize > 0 {
        return null;
      }
      write := sendQue[0];
    }

    /** The completion handler of the write in flight. */
    method HandleWrite(ok: bool) returns (write: SendNode?)
      requires Valid() && spec.writing && spec.queue != [] && (ok ==> spec.sent == |spec.queue[0]|)
      modifies this
      ensures Valid() && history == old(history) + [if ok then Sender.Complete else Sender.Fail]
      ensures sendQue == if ok then old(sendQue)[1..] else old(sendQue)
      ensures write != null <==> ok && sendQue != []
      ensures write != null ==> write == sendQue[0] && spec.writing && spec.sent == 0
      ensures closed <==> old(closed) || !ok
    {
      Record(if ok then Sender.Complete else Sender.Fail);
      if !ok {
        closed := true;
        return null;
      }
      sendQue := sendQue[1..];
      write := if sendQue == [] then null else sendQue[0];
    }

    method Close()
      requires Valid()
      modifies this
      ensures Valid() && closed && sendQue == old(sendQue)
      ensures history == old(history) + [Sender.Close]
    {
      Record(Sender.Close);
      closed := true;
    }

    /** The operating system transfers bytes `at..at + n` of the buffer that it was handed. */
    method Transferred(at: nat, n: nat) returns (bytes: seq<Byte>)
      requires Valid() && Sender.Enabled(spec, Sender.Transfer(n)) && at == spec.sent
      modifies this`spec, this`history
      ensures Valid() && history == old(history) + [Sender.Transfer(n)]
      ensures at + n <= sendQue[0].totalLen && bytes == sendQue[0].data[at..at + n]
      ensures spec.sent == at + n && spec.wire == old(spec.wire) + bytes
    {
      assert sendQue[0].Buffer() == spec.queue[0] && |spec.queue[0]| == sendQue[0].totalLen;
      bytes := sendQue[0].data[at..at + n];
      assert bytes == sendQue[0].Buffer()[at..at + n];
      Record(Sender.Transfer(n));
    }
  }

  /** Whatever calls and callbacks have been made on a session: what went out is a prefix of the frames
      accepted, what has not gone out is still queued, and the real queue never exceeds its bound by
      more than one. */
  lemma SessionConserves(s: SendSession)
    requires s.Valid()
    ensures s.spec.wire <= Concat(s.spec.accepted)
    ensures s.sendQue == [] ==> s.spec.wire == Concat(s.spec.accepted)
    ensures |s.sendQue| <= Sender.MAX_SENDQUE + 1
  {
    Sender.InitValid<Byte>(Sender.BOUND);
    Sender.RunsConserve(Sender.BOUND, Sender.Init(), s.history);
  }
}
