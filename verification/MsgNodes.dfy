/** The message buffers, filled in place. All buffers have one byte more than their length. */
module MsgNodes {
  import opened Wire

  /** `MsgNode`: used for the header. */
  class MsgNode {
    var curLen: nat
    const totalLen: nat
    const data: array<Byte>

    constructor (maxLen: nat)
      requires maxLen < 0x8000
      ensures totalLen == maxLen && curLen == 0
      ensures fresh(data) && data.Length == maxLen + 1 && forall i | 0 <= i <= maxLen :: data[i] == 0
    {
      curLen, totalLen := 0, maxLen;
      data := new Byte[maxLen + 1](_ => 0);
    }

    method Clear()
      requires totalLen < data.Length
      modifies this, data
      ensures curLen == 0
      ensures forall i | 0 <= i < totalLen :: data[i] == 0
      ensures data[totalLen..] == old(data[totalLen..])
    {
      for i := 0 to totalLen
        invariant forall j | 0 <= j < i :: data[j] == 0
        invariant data[totalLen..] == old(data[totalLen..])
      {
        data[i] := 0;
      }
      curLen := 0;
    }
  }

  class RecvNode {
    const msgId: Short
    const totalLen: nat
    const data: array<Byte>

    constructor (maxLen: nat, id: Short)
      requires maxLen < 0x8000
      ensures msgId == id && totalLen == maxLen && Sized() && fresh(data)
      ensures forall i | 0 <= i <= maxLen :: data[i] == 0
    {
      msgId, totalLen := id, maxLen;
      data := new Byte[maxLen + 1](_ => 0);
    }

    predicate Sized() {
      totalLen < 0x8000 && data.Length == totalLen + 1
    }

    ghost function Value(): Msg
      requires Sized()
      reads data
    {
      RawMsg.Msg(msgId, data[..totalLen])
    }
  }

  class SendNode {
    const msgId: Short
    const totalLen: nat
    const data: array<Byte>

    predicate Sized() {
      data.Length == totalLen + 1
    }

    /** The bytes handed to async_write. */
    ghost function Buffer(): seq<Byte>
      requires Sized()
      reads data
    {
      data[..totalLen]
    }

    /** Writes id, length and payload at their offsets; the result is exactly the message's frame. */
    constructor (msg: seq<Byte>, id: Short)
      requires HEAD_TOTAL_LEN + |msg| < 0x8000
      ensures Sized() && fresh(data) && data[totalLen] == 0 && msgId == id && totalLen == 4 + |msg|
      ensures Buffer() == Frame(RawMsg.Msg(id, msg))
    {
      msgId, totalLen := id, HEAD_TOTAL_LEN + |msg|;
      data := new Byte[HEAD_TOTAL_LEN + |msg| + 1](_ => 0);
      new;
      var idNet, lenNet := HostToNetwork(id), HostToNetwork(|msg|);
      data[0], data[1] := idNet[0], idNet[1];
      data[2], data[3] := lenNet[0], lenNet[1];
      for i := 0 to |msg|
        invariant data[..HEAD_TOTAL_LEN] == idNet + lenNet
        invariant data[HEAD_TOTAL_LEN..HEAD_TOTAL_LEN + i] == msg[..i]
        invariant data[totalLen] == 0
      {
        data[HEAD_TOTAL_LEN + i] := msg[i];
        assert msg[..i + 1] == msg[..i] + [msg[i]];
      }
      assert msg[..|msg|] == msg;
      assert data[..totalLen] == data[..HEAD_TOTAL_LEN] + data[HEAD_TOTAL_LEN..totalLen];
    }
  }
}
