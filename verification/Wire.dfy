/** Message frames on the byte stream: two big-endian 16-bit words, id and length, then the
    payload; and the reference decoder that every receiver is compared with. */
module Wire {
  import opened Seqs

  type Byte = b: int | 0 <= b < 0x100
  type Short = v: int | -0x8000 <= v < 0x8000

  const HEAD_TOTAL_LEN := 4

  /** A narrowing conversion to `short`. */
  function ToShort(n: int): Short {
    var u := n % 0x1_0000;
    if u < 0x8000 then u else u - 0x1_0000
  }

  /** The two bytes in memory after `host_to_network_short`. */
  function HostToNetwork(v: Short): seq<Byte> {
    var u := v % 0x1_0000;
    [u / 0x100, u % 0x100]
  }

  function NetworkToHost(hi: Byte, lo: Byte): Short {
    ToShort(hi * 0x100 + lo)
  }

  /** A message whose length fits the length word. */
  datatype RawMsg = Msg(id: Short, payload: seq<Byte>)
  type Msg = m: RawMsg | |m.payload| < 0x8000 witness RawMsg.Msg(0, [])

  /** `SendNode` stores `HEAD_TOTAL_LEN + max_len` in a `short`, so it can build these only. */
  type Sendable = m: Msg | HEAD_TOTAL_LEN + |m.payload| < 0x8000 witness RawMsg.Msg(0, [])

  function Frame(m: Msg): seq<Byte> {
    HostToNetwork(m.id) + HostToNetwork(|m.payload|) + m.payload
  }

  function Frames(ms: seq<Msg>): seq<seq<Byte>> {
    seq(|ms|, i requires 0 <= i < |ms| => Frame(ms[i]))
  }

  function EncodeAll(ms: seq<Msg>): seq<Byte> {
    Concat(Frames(ms))
  }

  /** What a receiver checks; neither server checks a lower bound. */
  datatype Limits = Limits(maxId: int, maxLen: int)

  const ASYN_LIMITS := Limits(10000, 2048)
  const COROUTINE_LIMITS := Limits(2048, 2048)
  const CLIENT_LIMITS := Limits(0x7fff, 0x7fff)

  predicate Admissible(l: Limits, m: Msg) {
    m.id <= l.maxId && |m.payload| <= l.maxLen
  }

  datatype Why = ShortHeader | BadId | BadLength | NegativeLength | ReadError

  /** What the receiver does next: read a header, read a body, or nothing any more. */
  datatype Phase = Head | Body(id: Short, len: nat) | Stopped(why: Why)

  /** The decision taken on four header bytes, in the order of the code's tests. */
  function OnHeader(l: Limits, h: seq<Byte>): Phase
    requires |h| == HEAD_TOTAL_LEN
  {
    var id := NetworkToHost(h[0], h[1]);
    if id > l.maxId then Stopped(BadId)
    else
      var len := NetworkToHost(h[2], h[3]);
      if len > l.maxLen then Stopped(BadLength)
      else if len < 0 then Stopped(NegativeLength)
      else Body(id, len)
  }

  /** The layout on the wire, as numbers: the id as a 16-bit two's complement word, high byte first, then
      the payload's length in the same way, then the payload. */
  lemma FrameLayout(m: Msg)
    ensures var f := Frame(m);
            && |f| == 4 + |m.payload|
            && (f[0] * 0x100 + f[1] - m.id) % 0x1_0000 == 0
            && f[2] as int * 0x100 + f[3] == |m.payload|
            && f[4..] == m.payload
  {
  }

  /** What a receiver makes of four bytes, as numbers: `id` and `len` are the 16-bit words, high byte first,
      in two's complement. The id is tested first, and negative values of either pass the upper limits. */
  lemma HeaderMeans(l: Limits, h: seq<Byte>, id: Short, len: Short)
    requires |h| == 4
    requires (h[0] * 0x100 + h[1] - id) % 0x1_0000 == 0 && (h[2] * 0x100 + h[3] - len) % 0x1_0000 == 0
    ensures OnHeader(l, h) ==
            if id > l.maxId then Stopped(BadId)
            else if len > l.maxLen then Stopped(BadLength)
            else if len < 0 then Stopped(NegativeLength)
            else Body(id, len)
  {
    WordMeans(h[0], h[1], id);
    WordMeans(h[2], h[3], len);
  }

  lemma WordMeans(hi: Byte, lo: Byte, v: Short)
    requires (hi * 0x100 + lo - v) % 0x1_0000 == 0
    ensures NetworkToHost(hi, lo) == v
  {
    var u := hi * 0x100 + lo;
    var q := (u - v) / 0x1_0000;
    assert u - v == q * 0x1_0000;
    assert q == if v < 0 then 1 else 0;
  }

  lemma HostRoundTrip(v: Short)
    ensures var w := HostToNetwork(v); NetworkToHost(w[0], w[1]) == v
  {
  }

  lemma NetworkRoundTrip(hi: Byte, lo: Byte)
    ensures HostToNetwork(NetworkToHost(hi, lo)) == [hi, lo]
  {
    var u := hi * 0x100 + lo;
    assert ToShort(u) % 0x1_0000 == u;
    assert u / 0x100 == hi && u % 0x100 == lo;
  }

  lemma HeaderOfFrame(l: Limits, m: Msg)
    ensures var p := OnHeader(l, Frame(m)[..HEAD_TOTAL_LEN]);
            if Admissible(l, m) then p == Body(m.id, |m.payload|) else p.Stopped?
  {
    HostRoundTrip(m.id);
    HostRoundTrip(|m.payload|);
  }

  lemma AcceptedHeader(l: Limits, h: seq<Byte>)
    requires |h| == HEAD_TOTAL_LEN && OnHeader(l, h).Body?
    ensures var p := OnHeader(l, h);
            p.id <= l.maxId && p.len <= l.maxLen && p.len < 0x8000
            && HostToNetwork(p.id) + HostToNetwork(p.len) == h
  {
    NetworkRoundTrip(h[0], h[1]);
    NetworkRoundTrip(h[2], h[3]);
  }

  // ----- the reference decoder -----

  /** The messages at the front of `s`, and the bytes that no complete accepted message covers. */
  function Decode(l: Limits, s: seq<Byte>): (seq<Msg>, seq<Byte>) {
    if |s| < HEAD_TOTAL_LEN then ([], s)
    else
      match OnHeader(l, s[..HEAD_TOTAL_LEN])
      case Body(id, len) =>
        var n := HEAD_TOTAL_LEN + len;
        if |s| < n then ([], s)
        else
          AcceptedHeader(l, s[..HEAD_TOTAL_LEN]);
          var m := RawMsg.Msg(id, s[HEAD_TOTAL_LEN..n]);
          var (ms, rest) := Decode(l, s[n..]);
          ([m] + ms, rest)
      case _ => ([], s)
  }

  /** No accepted message is complete at the front of `s`. */
  predicate Blocked(l: Limits, s: seq<Byte>) {
    |s| >= HEAD_TOTAL_LEN && OnHeader(l, s[..HEAD_TOTAL_LEN]).Body? ==>
      |s| < HEAD_TOTAL_LEN + OnHeader(l, s[..HEAD_TOTAL_LEN]).len
  }

  predicate AllAdmissible(l: Limits, ms: seq<Msg>) {
    forall m <- ms :: Admissible(l, m)
  }

  lemma EncodeCons(m: Msg, ms: seq<Msg>)
    ensures EncodeAll([m] + ms) == Frame(m) + EncodeAll(ms)
  {
    assert Frames([m] + ms) == [Frame(m)] + Frames(ms);
  }

  lemma EncodeAppend(a: seq<Msg>, b: seq<Msg>)
    ensures EncodeAll(a + b) == EncodeAll(a) + EncodeAll(b)
  {
    assert Frames(a + b) == Frames(a) + Frames(b);
    ConcatAppend(Frames(a), Frames(b));
  }

  lemma EncodeSplit(ms: seq<Msg>, k: nat)
    requires k < |ms|
    ensures EncodeAll(ms) == EncodeAll(ms[..k]) + (Frame(ms[k]) + EncodeAll(ms[k + 1..]))
  {
    assert ms == ms[..k] + ([ms[k]] + ms[k + 1..]);
    EncodeAppend(ms[..k], [ms[k]] + ms[k + 1..]);
    EncodeCons(ms[k], ms[k + 1..]);
  }

  lemma DecodeFrame(l: Limits, m: Msg, tail: seq<Byte>)
    requires Admissible(l, m)
    ensures Decode(l, Frame(m) + tail) == ([m] + Decode(l, tail).0, Decode(l, tail).1)
  {
    HeaderOfFrame(l, m);
    var s, n := Frame(m) + tail, HEAD_TOTAL_LEN + |m.payload|;
    assert s[..HEAD_TOTAL_LEN] == Frame(m)[..HEAD_TOTAL_LEN];
    assert s[HEAD_TOTAL_LEN..n] == m.payload;
    assert s[n..] == tail;
  }

  /** Decoding inverts encoding, whatever follows the encoded messages. */
  lemma {:induction false} DecodeInvertsEncode(l: Limits, ms: seq<Msg>, tail: seq<Byte>)
    requires AllAdmissible(l, ms)
    ensures Decode(l, EncodeAll(ms) + tail) == (ms + Decode(l, tail).0, Decode(l, tail).1)
  {
    var d := Decode(l, tail);
    if ms == [] {
      assert EncodeAll(ms) + tail == tail && ms + d.0 == d.0;
    } else {
      var m, more := ms[0], EncodeAll(ms[1..]) + tail;
      assert EncodeAll(ms) + tail == Frame(m) + more by {
        assert ms == [m] + ms[1..];
        EncodeCons(m, ms[1..]);
      }
      DecodeFrame(l, m, more);
      DecodeInvertsEncode(l, ms[1..], tail);
      Rejoin(ms, d.0);
    }
  }

  /** One step of the decoder, read backwards. */
  lemma DecodeStep(l: Limits, s: seq<Byte>) returns (n: nat)
    requires Decode(l, s).0 != []
    ensures 0 < n <= |s|
    ensures var ms := Decode(l, s).0;
            Admissible(l, ms[0]) && Frame(ms[0]) == s[..n] && Decode(l, s[n..]) == (ms[1..], Decode(l, s).1)
  {
    var h := s[..HEAD_TOTAL_LEN];
    AcceptedHeader(l, h);
    n := HEAD_TOTAL_LEN + OnHeader(l, h).len;
    assert s[..n] == h + s[HEAD_TOTAL_LEN..n];
  }

  /** Encoding inverts decoding: nothing is lost and the decoder stops only where it must. */
  lemma {:induction false} EncodeInvertsDecode(l: Limits, s: seq<Byte>)
    ensures var (ms, rest) := Decode(l, s);
            AllAdmissible(l, ms) && EncodeAll(ms) + rest == s && Blocked(l, rest)
    decreases |s|
  {
    var d := Decode(l, s);
    if d.0 == [] {
      assert EncodeAll(d.0) + d.1 == d.1;
    } else {
      var n := DecodeStep(l, s);
      EncodeInvertsDecode(l, s[n..]);
      assert EncodeAll(d.0) == s[..n] + EncodeAll(d.0[1..]) by {
        EncodeCons(d.0[0], d.0[1..]);
        assert d.0 == [d.0[0]] + d.0[1..];
      }
      Associate(s[..n], EncodeAll(d.0[1..]), d.1);
    }
  }

  /** The decoder is the only one with these properties. */
  lemma DecodeUnique(l: Limits, ms: seq<Msg>, rest: seq<Byte>)
    requires AllAdmissible(l, ms) && Blocked(l, rest)
    ensures Decode(l, EncodeAll(ms) + rest) == (ms, rest)
  {
    DecodeInvertsEncode(l, ms, rest);
    assert ms + [] == ms;
  }

  /** Cutting the stream anywhere and resuming with the bytes left over changes nothing. */
  lemma DecodeResumes(l: Limits, s: seq<Byte>, t: seq<Byte>)
    ensures var (ms, rest) := Decode(l, s);
            Decode(l, s + t) == (ms + Decode(l, rest + t).0, Decode(l, rest + t).1)
  {
    var d := Decode(l, s);
    EncodeInvertsDecode(l, s);
    Associate(EncodeAll(d.0), d.1, t);
    DecodeInvertsEncode(l, d.0, d.1 + t);
  }

  /** More bytes never change what was decoded before them. */
  lemma DecodeMonotone(l: Limits, s: seq<Byte>, t: seq<Byte>)
    requires s <= t
    ensures Decode(l, s).0 <= Decode(l, t).0
  {
    DecodeResumes(l, s, t[|s|..]);
    assert t == s + t[|s|..];
  }

  /** The messages before the first one that the limits refuse. */
  function UntilRefused(l: Limits, ms: seq<Msg>): (r: seq<Msg>)
    ensures r <= ms
    ensures AllAdmissible(l, r)
    ensures |r| < |ms| ==> !Admissible(l, ms[|r|])
  {
    if ms == [] || !Admissible(l, ms[0]) then [] else [ms[0]] + UntilRefused(l, ms[1..])
  }

  /** A receiver of a whole encoded stream delivers exactly the messages before the first refused one. */
  lemma DecodeStopsAtRefused(l: Limits, ms: seq<Msg>)
    ensures Decode(l, EncodeAll(ms)).0 == UntilRefused(l, ms)
  {
    var good := UntilRefused(l, ms);
    var bad := ms[|good|..];
    assert ms == good + bad;
    EncodeAppend(good, bad);
    if bad != [] {
      assert bad == [bad[0]] + bad[1..];
      EncodeCons(bad[0], bad[1..]);
      HeaderOfFrame(l, bad[0]);
      assert EncodeAll(bad)[..HEAD_TOTAL_LEN] == Frame(bad[0])[..HEAD_TOTAL_LEN];
    }
    DecodeUnique(l, good, EncodeAll(bad));
  }

  /** The coroutine server compares the id with the length limit: of one and the same stream it accepts
      less than `asynServer` exactly if the first message that it refuses is one that the other accepts,
      and then only the id can be the reason. */
  lemma {:induction false} IdLimitDiffers(ms: seq<Msg>)
    ensures var c, a := UntilRefused(COROUTINE_LIMITS, ms), UntilRefused(ASYN_LIMITS, ms);
            && c <= a
            && (c != a <==> |c| < |ms| && 2048 < ms[|c|].id <= 10000 && |ms[|c|].payload| <= 2048)
  {
    if ms != [] && Admissible(COROUTINE_LIMITS, ms[0]) {
      IdLimitDiffers(ms[1..]);
    }
  }
}
