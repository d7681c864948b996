/** The receivers. The coroutine server and the client read a whole header and a whole body with
    composed reads; `asynServer` reads its header with a single partial read. */
module Receive {
  import opened Seqs
  import opened Wire

  // ----- the callback receiver as a state machine -----

  datatype State = State(phase: Phase, consumed: seq<Byte>, posted: seq<Msg>)

  datatype Event =
    | HeadSome(bytes: seq<Byte>) // async_read_some for the header returned these bytes
    | BodyFull(bytes: seq<Byte>) // the composed read of the body returned
    | ReadFailed

  const INIT := State(Head, [], [])

  predicate Enabled(s: State, e: Event) {
    match e
    case HeadSome(b) => s.phase.Head? && 0 < |b| <= HEAD_TOTAL_LEN
    case BodyFull(b) => s.phase.Body? && |b| == s.phase.len < 0x8000
    case ReadFailed => !s.phase.Stopped?
  }

  function Next(l: Limits, s: State, e: Event): State
    requires Enabled(s, e)
  {
    match e
    case HeadSome(b) =>
      State(if |b| < HEAD_TOTAL_LEN then Stopped(ShortHeader) else OnHeader(l, b), s.consumed + b, s.posted)
    case BodyFull(b) => State(Head, s.consumed + b, s.posted + [RawMsg.Msg(s.phase.id, b)])
    case ReadFailed => s.(phase := Stopped(ReadError))
  }

  ghost predicate IsRun(l: Limits, s: State, es: seq<Event>)
    decreases |es|
  {
    es != [] ==> Enabled(s, es[0]) && IsRun(l, Next(l, s, es[0]), es[1..])
  }

  ghost function Exec(l: Limits, s: State, es: seq<Event>): State
    requires IsRun(l, s, es)
    decreases |es|
  {
    if es == [] then s else Exec(l, Next(l, s, es[0]), es[1..])
  }

  lemma {:induction false} Snoc(l: Limits, s: State, es: seq<Event>, e: Event)
    requires IsRun(l, s, es) && Enabled(Exec(l, s, es), e)
    ensures IsRun(l, s, es + [e]) && Exec(l, s, es + [e]) == Next(l, Exec(l, s, es), e)
    decreases |es|
  {
    if es == [] {
      assert es + [e] == [e];
      assert Exec(l, Next(l, s, e), []) == Next(l, s, e);
    } else {
      Snoc(l, Next(l, s, es[0]), es[1..], e);
      TailOfAppend(es, [e]);
    }
  }

  /** The consumed bytes that belong to no posted message. */
  ghost predicate Leftover(l: Limits, p: Phase, rest: seq<Byte>) {
    match p
    case Head => rest == []
    case Body(id, len) =>
      |rest| == HEAD_TOTAL_LEN && OnHeader(l, rest) == p && len < 0x8000
    case Stopped(ShortHeader) => 0 < |rest| < HEAD_TOTAL_LEN
    case Stopped(ReadError) => |rest| <= HEAD_TOTAL_LEN
    case Stopped(_) => |rest| == HEAD_TOTAL_LEN && OnHeader(l, rest) == p
  }

  ghost predicate Inv(l: Limits, s: State, rest: seq<Byte>) {
    AllAdmissible(l, s.posted) && s.consumed == EncodeAll(s.posted) + rest && Leftover(l, s.phase, rest)
  }

  lemma StepKeepsInv(l: Limits, s: State, rest: seq<Byte>, e: Event) returns (rest': seq<Byte>)
    requires Inv(l, s, rest) && Enabled(s, e)
    ensures Inv(l, Next(l, s, e), rest')
  {
    match e
    case HeadSome(b) =>
      rest' := b;
      assert EncodeAll(s.posted) + [] == EncodeAll(s.posted);
      if |b| == HEAD_TOTAL_LEN && OnHeader(l, b).Body? {
        AcceptedHeader(l, b);
      }
    case BodyFull(b) =>
      rest' := [];
      AcceptedHeader(l, rest);
      var m := RawMsg.Msg(s.phase.id, b);
      assert Frame(m) == rest + b;
      EncodeAppend(s.posted, [m]);
      EncodeCons(m, []);
      assert [m] + [] == [m];
      Associate(EncodeAll(s.posted), rest, b);
    case ReadFailed => rest' := rest;
  }

  lemma {:induction false} RunsKeepInv(l: Limits, s: State, rest: seq<Byte>, es: seq<Event>) returns (rest': seq<Byte>)
    requires Inv(l, s, rest) && IsRun(l, s, es)
    ensures Inv(l, Exec(l, s, es), rest')
    decreases |es|
  {
    rest' := rest;
    if es != [] {
      rest' := StepKeepsInv(l, s, rest, es[0]);
      rest' := RunsKeepInv(l, Next(l, s, es[0]), rest', es[1..]);
    }
  }

  /** On one stream, however its reads are cut or fail, the callback receiver posts a prefix of what
      the composed reads post under the same limits. */
  lemma PostsPrefix(l: Limits, es: seq<Event>, stream: seq<Byte>)
    requires IsRun(l, INIT, es) && Exec(l, INIT, es).consumed <= stream
    ensures Exec(l, INIT, es).posted <= Decode(l, stream).0
  {
    var s := Exec(l, INIT, es);
    var rest := RunsKeepInv(l, INIT, [], es);
    var n := |EncodeAll(s.posted)|;
    assert stream == EncodeAll(s.posted) + stream[n..];
    DecodeInvertsEncode(l, s.posted, stream[n..]);
  }

  /** Nothing more can be read in full from the stream. */
  predicate Exhausted(s: State, stream: seq<Byte>) {
    match s.phase
    case Head => |stream| < |s.consumed| + HEAD_TOTAL_LEN
    case Body(_, len) => |stream| < |s.consumed| + len
    case Stopped(_) => true
  }

  /** It means that no read of a whole header or a whole body is possible on the rest of the stream. */
  lemma ExhaustedMeans(s: State, stream: seq<Byte>)
    requires s.consumed <= stream && (s.phase.Body? ==> s.phase.len < 0x8000)
    ensures Exhausted(s, stream) <==>
            forall e | Enabled(s, e) && Full(e) :: !(s.consumed + BytesOf(e) <= stream)
  {
    var rest := stream[|s.consumed|..];
    if s.phase.Head? && |rest| >= HEAD_TOTAL_LEN {
      var e := HeadSome(rest[..HEAD_TOTAL_LEN]);
      assert Enabled(s, e) && Full(e) && s.consumed + BytesOf(e) <= stream;
    } else if s.phase.Body? && |rest| >= s.phase.len {
      var e := BodyFull(rest[..s.phase.len]);
      assert Enabled(s, e) && Full(e) && s.consumed + BytesOf(e) <= stream;
    }
  }

  predicate Full(e: Event) {
    e.BodyFull? || (e.HeadSome? && |e.bytes| == HEAD_TOTAL_LEN)
  }

  function BytesOf(e: Event): seq<Byte> {
    if e.ReadFailed? then [] else e.bytes
  }

  /** If no header read comes back short and none fails, it posts all of it. */
  lemma PostsAll(l: Limits, es: seq<Event>, stream: seq<Byte>)
    requires IsRun(l, INIT, es) && Exec(l, INIT, es).consumed <= stream
    requires Exhausted(Exec(l, INIT, es), stream)
    requires var p := Exec(l, INIT, es).phase; p != Stopped(ShortHeader) && p != Stopped(ReadError)
    ensures Exec(l, INIT, es).posted == Decode(l, stream).0
  {
    var s := Exec(l, INIT, es);
    var rest := RunsKeepInv(l, INIT, [], es);
    var tail := rest + stream[|s.consumed|..];
    Associate(EncodeAll(s.posted), rest, stream[|s.consumed|..]);
    assert stream == s.consumed + stream[|s.consumed|..];
    if !s.phase.Head? {
      assert tail[..HEAD_TOTAL_LEN] == rest;
    }
    DecodeUnique(l, s.posted, tail);
  }

  /** The receiver gives up over a short header exactly if some header read returned fewer bytes than
      a header has, and over an error exactly if some read failed. */
  lemma {:induction false} GivesUpIff(l: Limits, s: State, es: seq<Event>)
    requires !s.phase.Stopped? && IsRun(l, s, es)
    ensures Exec(l, s, es).phase == Stopped(ShortHeader) <==>
            exists e <- es :: e.HeadSome? && |e.bytes| < HEAD_TOTAL_LEN
    ensures Exec(l, s, es).phase == Stopped(ReadError) <==> ReadFailed in es
    decreases |es|
  {
    if es != [] {
      var s', more := Next(l, s, es[0]), es[1..];
      assert es == [es[0]] + more;
      if s'.phase.Stopped? {
        assert more == [];
        assert es[0] in es;
        assert Exec(l, s', more) == s';
      } else {
        GivesUpIff(l, s', more);
      }
    }
  }

  /** The two receivers do differ: half a header at a time loses the message. */
  lemma ShortHeaderLoses(l: Limits, m: Msg)
    requires Admissible(l, m)
    ensures var e := HeadSome(Frame(m)[..2]);
            IsRun(l, INIT, [e]) && Exec(l, INIT, [e]).phase == Stopped(ShortHeader)
            && Exec(l, INIT, [e]).posted == [] && Decode(l, Frame(m)).0 == [m]
  {
    var e := HeadSome(Frame(m)[..2]);
    assert [e][1..] == [];
    assert Exec(l, INIT, [e]) == Exec(l, Next(l, INIT, e), []);
    DecodeFrame(l, m, []);
    assert Frame(m) + [] == Frame(m) && [m] + [] == [m];
  }

  /** On the stream of an honest client, read until nothing more can be read in full, a message is lost
      exactly if some header read came back short. */
  lemma LosesIff(l: Limits, es: seq<Event>, ms: seq<Msg>)
    requires IsRun(l, INIT, es) && AllAdmissible(l, ms) && ReadFailed !in es
    requires Exec(l, INIT, es).consumed <= EncodeAll(ms) && Exhausted(Exec(l, INIT, es), EncodeAll(ms))
    ensures Exec(l, INIT, es).posted == ms <==> forall e <- es :: e.HeadSome? ==> |e.bytes| == HEAD_TOTAL_LEN
  {
    var s := Exec(l, INIT, es);
    var rest := RunsKeepInv(l, INIT, [], es);
    GivesUpIff(l, INIT, es);
    HeadReadsAreNonEmpty(l, INIT, es);
    if s.phase == Stopped(ShortHeader) {
      assert |rest| > 0;
      assert s.posted != ms;
    } else {
      PostsAll(l, es, EncodeAll(ms));
      DecodeInvertsEncode(l, ms, []);
      assert EncodeAll(ms) + [] == EncodeAll(ms) && ms + [] == ms;
    }
  }

  lemma {:induction false} HeadReadsAreNonEmpty(l: Limits, s: State, es: seq<Event>)
    requires IsRun(l, s, es)
    ensures forall e <- es :: e.HeadSome? ==> 0 < |e.bytes| <= HEAD_TOTAL_LEN
    decreases |es|
  {
    if es != [] {
      HeadReadsAreNonEmpty(l, Next(l, s, es[0]), es[1..]);
      assert es == [es[0]] + es[1..];
    }
  }
}
