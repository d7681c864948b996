/** `Session` of asynReadWrite: a send queue over single partial writes, with its own bookkeeping of
    how much of the front node has been sent. */
module PartialWrites {
  import opened Seqs
  import opened Wire
  import Sender

  class MsgNode {
    const msg: array<Byte>
    const totalLen: nat
    var curLen: nat

    constructor (bytes: seq<Byte>)
      ensures fresh(msg) && msg[..] == bytes && totalLen == |bytes| && curLen == 0
    {
      msg := new Byte[|bytes|](i requires 0 <= i < |bytes| => bytes[i]);
      totalLen, curLen := |bytes|, 0;
    }
  }

  class Session {
    var sendQueue: seq<MsgNode>
    var sendPending: bool
    ghost var spec: Sender.State<Byte>
    ghost var history: seq<Sender.Step<Byte>>

    /** Every node's counter is within its length; the counters of all but the front are zero; the
        pending flag says that the queue is not empty. */
    ghost predicate Valid()
      reads this, sendQueue, set n <- sendQueue :: n.msg
    {
      && |sendQueue| == |spec.queue|
      && (forall i | 0 <= i < |sendQueue| ::
            sendQueue[i].msg[..] == spec.queue[i] && sendQueue[i].totalLen == |spec.queue[i]|)
      && (forall i, j | 0 <= i < j < |sendQueue| :: sendQueue[i] != sendQueue[j])
      && (sendQueue != [] ==> sendQueue[0].curLen <= spec.sent <= sendQueue[0].totalLen)
      && (forall i | 0 < i < |sendQueue| :: sendQueue[i].curLen == 0)
      && (sendPending <==> sendQueue != [])
      && (sendQueue == [] ==> spec.sent == 0 && !spec.writing)
      && Sender.IsRun(Sender.Unbounded, Sender.Init(), history)
      && Sender.Exec(Sender.Unbounded, Sender.Init(), history) == spec
    }

    constructor ()
      ensures Valid() && history == []
    {
      sendQueue, sendPending, spec, history := [], false, Sender.Init(), [];
    }

    ghost method Record(a: Sender.Step<Byte>)
      requires Sender.Enabled(spec, a)
      requires Sender.IsRun(Sender.Unbounded, Sender.Init(), history)
      requires Sender.Exec(Sender.Unbounded, Sender.Init(), history) == spec
      modifies this`spec, this`history
      ensures history == old(history) + [a] && spec == Sender.Next(Sender.Unbounded, old(spec), a)
      ensures Sender.IsRun(Sender.Unbounded, Sender.Init(), history)
      ensures Sender.Exec(Sender.Unbounded, Sender.Init(), history) == spec
    {
      Sender.OneStep(Sender.Unbounded, spec, a);
      Sender.Compose(Sender.Unbounded, Sender.Init(), history, [a]);
      spec := Sender.Next(Sender.Unbounded, spec, a);
      history := history + [a];
    }

    /** Bytes not yet counted as sent, and one for each node: bounds the chain of callbacks. */
    ghost function Left(): nat
      requires Valid()
      reads this, sendQueue, set n <- sendQueue :: n.msg
    {
      if sendQueue == [] then 0
      else sendQueue[0].totalLen - sendQueue[0].curLen + |Concat(spec.queue[1..])| + |sendQueue|
    }

    /** `start` tells that async_write_some is called, with the front node's bytes. */
    method WriteToSocket(buf: seq<Byte>) returns (start: bool)
      requires Valid()
      modifies this
      ensures Valid() && history == old(history) + [Sender.Send(buf)]
      ensures |sendQueue| == |old(sendQueue)| + 1 && old(sendQueue) <= sendQueue && sendPending
      ensures start <==> old(sendQueue) == []
      ensures start ==> spec.writing && sendQueue[0].curLen == 0
    {
      var node := new MsgNode(buf);
      Record(Sender.Send(buf));
      sendQueue := sendQueue + [node];
      if sendPending {
        return false;
      }
      start := true;
      sendPending := true;
    }

    /** The operating system moves `n` bytes from where the write in flight was told to start. */
    ghost method Transferred(n: nat)
      requires Valid() && Sender.Enabled(spec, Sender.Transfer(n))
      modifies this`spec, this`history
      ensures Valid() && history == old(history) + [Sender.Transfer(n)]
      ensures spec.sent == old(spec.sent) + n
    {
      Record(Sender.Transfer(n));
    }

    /** The write in flight has ended after `n` bytes. `start` tells that the next one begins, at byte
        `curLen` of the front node: always the first byte not transferred yet. */
    method WriteCallBack(ok: bool, n: nat) returns (start: bool)
      requires Valid() && spec.writing && sendQueue != []
      requires ok ==> sendQueue[0].curLen + n == spec.sent
      modifies this, sendQueue
      ensures Valid()
      ensures !ok ==> !start && sendQueue == old(sendQueue) && history == old(history) + [Sender.Fail]
      ensures ok && old(spec.sent) < old(sendQueue[0].totalLen) ==>
                sendQueue == old(sendQueue) && history == old(history)
      ensures ok && old(spec.sent) == old(sendQueue[0].totalLen) ==>
                sendQueue == old(sendQueue)[1..] && history == old(history) + [Sender.Complete]
      ensures ok ==> (start <==> sendPending) && (start <==> spec.writing)
      ensures start ==> sendQueue[0].curLen == spec.sent
      ensures ok && (n > 0 || old(spec.sent) == old(sendQueue[0].totalLen)) ==> Left() < old(Left())
    {
      if !ok {
        Record(Sender.Fail);
        return false;
      }
      var sendData := sendQueue[0];
      sendData.curLen := sendData.curLen + n;
      if sendData.totalLen > sendData.curLen {
        return true;
      }
      Record(Sender.Complete);
      sendQueue := sendQueue[1..];
      if sendQueue == [] {
        sendPending := false;
        start := false;
      } else {
        start := true;
      }
    }
  }

  /** With any calls, callbacks and transfer sizes: wire bytes, then the rest of the front node from the
      first byte not transferred, then the other nodes, are everything ever written, in order. */
  lemma PartialWritesConserve(s: Session)
    requires s.Valid()
    ensures Concat(s.spec.accepted) == s.spec.wire + Sender.Unsent(s.spec)
    ensures s.sendQueue != [] ==>
              Sender.Unsent(s.spec) == s.sendQueue[0].msg[s.spec.sent..] + Concat(s.spec.queue[1..])
    ensures !s.sendPending ==> s.spec.wire == Concat(s.spec.accepted)
  {
    Sender.InitValid<Byte>(Sender.Unbounded);
    Sender.RunsConserve(Sender.Unbounded, Sender.Init(), s.history);
  }
}
