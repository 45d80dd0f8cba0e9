/** The length-prefixed frames of the display protocol and the reader that reassembles them
    from arbitrary chunks. The payload format is a parameter that is assumed to round-trip. */
module Frames {
  import opened Wrappers

  type Byte = b: int | 0 <= b < 256

  const HEADER_SIZE: nat := 4
  const MAX_MESSAGE_SIZE: nat := 16777216

  /** How messages become payloads and back; None is an error. */
  datatype Codec<!M(!new)> = Codec(marshal: M -> Option<seq<Byte>>, unmarshal: seq<Byte> -> Option<M>) {
    ghost predicate RoundTrips() {
      forall m :: marshal(m).Some? ==> unmarshal(marshal(m).value) == Some(m)
    }

    /** EncodeFrame accepts the message. */
    predicate Encodable(m: M) {
      marshal(m).Some? && |marshal(m).value| <= MAX_MESSAGE_SIZE
    }
  }

  datatype FrameError = MarshalFailed | TooLarge(size: nat) | Undecodable

  // ---------- The header ----------

  /** Four bytes, most significant first. */
  function Header(n: nat): seq<Byte>
    requires n < 0x1_0000_0000
  {
    [n / 0x100_0000, n / 0x1_0000 % 0x100, n / 0x100 % 0x100, n % 0x100]
  }

  function HeaderValue(h: seq<Byte>): nat
    requires |h| == HEADER_SIZE
  {
    var b0: int, b1: int, b2: int, b3: int := h[0], h[1], h[2], h[3];
    ((b0 * 0x100 + b1) * 0x100 + b2) * 0x100 + b3
  }

  lemma HeaderRoundTrip(n: nat)
    requires n < 0x1_0000_0000
    ensures HeaderValue(Header(n)) == n
  {
    var a := n / 0x100;
    var b := a / 0x100;
    assert n / 0x1_0000 == b && n / 0x100_0000 == b / 0x100;
  }

  /** `a` comes before `b` in byte order: at the first byte that differs it has the lower one. */
  predicate ByteLess(a: seq<Byte>, b: seq<Byte>) {
    exists k :: 0 <= k < |a| && k < |b| && a[k] < b[k] && a[..k] == b[..k]
  }

  /** The byte order of the header is that of the lengths: the most significant byte comes first. */
  lemma HeadersSort(m: nat, n: nat)
    requires m < n < 0x1_0000_0000
    ensures ByteLess(Header(m), Header(n))
    ensures |Header(m)| == 4 && Header(0x01020304) == [1, 2, 3, 4]
  {
    var a, b := Header(m), Header(n);
    HeaderRoundTrip(m);
    HeaderRoundTrip(n);
    if a[0] != b[0] {
      assert a[..0] == b[..0];
    } else if a[1] != b[1] {
      assert a[..1] == b[..1];
    } else if a[2] != b[2] {
      assert a[..2] == b[..2];
    } else {
      assert a[..3] == b[..3];
    }
  }

  function Framed(payload: seq<Byte>): seq<Byte>
    requires |payload| <= MAX_MESSAGE_SIZE
  {
    Header(|payload|) + payload
  }

  method EncodeFrame<M(!new)>(c: Codec<M>, msg: M) returns (r: Result<seq<Byte>, FrameError>)
    ensures r.Ok? <==> c.Encodable(msg)
    ensures r.Ok? ==> r.value == Framed(c.marshal(msg).value)
    ensures r.Err? ==> r.error == if c.marshal(msg).None? then MarshalFailed else TooLarge(|c.marshal(msg).value|)
  {
    var marshaled := c.marshal(msg);
    if marshaled.None? {
      return Err(MarshalFailed);
    }
    var payload := marshaled.value;
    if |payload| > MAX_MESSAGE_SIZE {
      return Err(TooLarge(|payload|));
    }
    var frame := new Byte[HEADER_SIZE + |payload|];
    var header := Header(|payload|);
    for i := 0 to HEADER_SIZE
      invariant frame[..i] == header[..i]
    {
      frame[i] := header[i];
    }
    for i := 0 to |payload|
      invariant frame[..HEADER_SIZE + i] == header + payload[..i]
    {
      frame[HEADER_SIZE + i] := payload[i];
    }
    return Ok(frame[..]);
  }

  // ---------- Decoding ----------

  datatype Decoded<M> =
    | Incomplete
    | Message(msg: M, rest: seq<Byte>)
    | Failed(error: FrameError, rest: seq<Byte>)

  /** One frame off the front of `data`. An oversized header throws everything away. */
  function DecodeFrame<M(!new)>(c: Codec<M>, data: seq<Byte>): (d: Decoded<M>)
    ensures d.Message? ==> |d.rest| < |data|
  {
    if |data| < HEADER_SIZE then Incomplete
    else
      var length := HeaderValue(data[..HEADER_SIZE]);
      if length > MAX_MESSAGE_SIZE then Failed(TooLarge(length), [])
      else if |data| < HEADER_SIZE + length then Incomplete
      else
        var rest := data[HEADER_SIZE + length..];
        match c.unmarshal(data[HEADER_SIZE..HEADER_SIZE + length])
        case None => Failed(Undecodable, rest)
        case Some(m) => Message(m, rest)
  }

  /** All complete messages, the error that stopped the decoding if any, and what is left. */
  datatype Drained<M> = Drained(msgs: seq<M>, error: Option<FrameError>, rest: seq<Byte>)

  function DrainOf<M(!new)>(c: Codec<M>, buf: seq<Byte>): Drained<M>
    decreases |buf|
  {
    match DecodeFrame(c, buf)
    case Incomplete => Drained([], None, buf)
    case Failed(e, rest) => Drained([], Some(e), rest)
    case Message(m, rest) => Prepend(m, DrainOf(c, rest))
  }

  function Prepend<M(!new)>(m: M, d: Drained<M>): Drained<M> { d.(msgs := [m] + d.msgs) }

  function Append<M(!new)>(msgs: seq<M>, d: Drained<M>): Drained<M> { d.(msgs := msgs + d.msgs) }

  class FrameReader<!M(!new)> {
    const codec: Codec<M>
    var buf: seq<Byte>

    constructor (codec: Codec<M>)
      ensures this.codec == codec && buf == []
    {
      this.codec, buf := codec, [];
    }

    method Feed(data: seq<Byte>)
      modifies this
      ensures buf == old(buf) + data
    {
      buf := buf + data;
    }

    method Drain() returns (msgs: seq<M>, error: Option<FrameError>)
      modifies this
      ensures Drained(msgs, error, buf) == DrainOf(codec, old(buf))
    {
      hide DrainOf, DecodeFrame;
      msgs := [];
      assert [] + DrainOf(codec, buf).msgs == DrainOf(codec, buf).msgs;
      while true
        invariant DrainOf(codec, old(buf)) == Append(msgs, DrainOf(codec, buf))
        decreases |buf|
      {
        DrainStep(codec, buf);
        match DecodeFrame(codec, buf) {
          case Incomplete =>
            assert msgs + [] == msgs;
            return msgs, None;
          case Failed(e, rest) =>
            assert msgs + [] == msgs;
            buf := rest;
            return msgs, Some(e);
          case Message(m, rest) =>
            ghost var more := DrainOf(codec, rest).msgs;
            assert msgs + ([m] + more) == (msgs + [m]) + more;
            msgs := msgs + [m];
            buf := rest;
        }
      }
    }
  }

  // ---------- Chunks do not matter ----------

  /** A frame already complete is decoded the same whatever follows. */
  lemma DecodeExtends<M(!new)>(c: Codec<M>, data: seq<Byte>, more: seq<Byte>)
    ensures match DecodeFrame(c, data)
            case Incomplete => true
            case Message(m, rest) => DecodeFrame(c, data + more) == Message(m, rest + more)
            case Failed(Undecodable, rest) => DecodeFrame(c, data + more) == Failed(Undecodable, rest + more)
            case Failed(e, rest) => DecodeFrame(c, data + more) == Failed(e, [])
  {
    if |data| >= HEADER_SIZE {
      assert (data + more)[..HEADER_SIZE] == data[..HEADER_SIZE];
      var length := HeaderValue(data[..HEADER_SIZE]);
      if length <= MAX_MESSAGE_SIZE && HEADER_SIZE + length <= |data| {
        assert (data + more)[HEADER_SIZE..HEADER_SIZE + length] == data[HEADER_SIZE..HEADER_SIZE + length];
        assert (data + more)[HEADER_SIZE + length..] == data[HEADER_SIZE + length..] + more;
      }
    }
  }

  lemma DrainStep<M(!new)>(c: Codec<M>, buf: seq<Byte>)
    ensures var d := DecodeFrame(c, buf);
            && (d.Incomplete? ==> DrainOf(c, buf) == Drained([], None, buf))
            && (d.Failed? ==> DrainOf(c, buf) == Drained([], Some(d.error), d.rest))
            && (d.Message? ==> DrainOf(c, buf) == Prepend(d.msg, DrainOf(c, d.rest)))
  {}

  /** Draining early and going on with the rest is draining once. */
  lemma {:induction false} DrainSplits<M(!new)>(c: Codec<M>, buf: seq<Byte>, more: seq<Byte>)
    requires DrainOf(c, buf).error.None?
    ensures DrainOf(c, buf + more) == Append(DrainOf(c, buf).msgs, DrainOf(c, DrainOf(c, buf).rest + more))
    decreases |buf|
  {
    hide DecodeFrame, DrainOf;
    DecodeExtends(c, buf, more);
    DrainStep(c, buf);
    var decoded := DecodeFrame(c, buf);
    if decoded.Message? {
      DrainStep(c, buf + more);
      DrainSplits(c, decoded.rest, more);
      var first := DrainOf(c, decoded.rest);
      var second := DrainOf(c, first.rest + more);
      assert [decoded.msg] + (first.msgs + second.msgs) == ([decoded.msg] + first.msgs) + second.msgs;
    } else {
      assert [] + DrainOf(c, buf + more).msgs == DrainOf(c, buf + more).msgs;
    }
  }

  /** A drain that stops at an error stops there whatever follows; an oversized frame swallows it. */
  lemma {:induction false} ErrorExtends<M(!new)>(c: Codec<M>, buf: seq<Byte>, more: seq<Byte>)
    requires DrainOf(c, buf).error.Some?
    ensures var d := DrainOf(c, buf);
            && (d.error == Some(Undecodable) ==> DrainOf(c, buf + more) == d.(rest := d.rest + more))
            && (d.error != Some(Undecodable) ==> DrainOf(c, buf + more) == d && d.rest == [])
    decreases |buf|
  {
    hide DecodeFrame, DrainOf;
    DecodeExtends(c, buf, more);
    DecodeErrors(c, buf);
    DrainStep(c, buf);
    DrainStep(c, buf + more);
    if DecodeFrame(c, buf).Message? {
      ErrorExtends(c, DecodeFrame(c, buf).rest, more);
    }
  }

  lemma DecodeErrors<M(!new)>(c: Codec<M>, buf: seq<Byte>)
    ensures var d := DecodeFrame(c, buf);
            d.Failed? && d.error != Undecodable ==> d.error.TooLarge? && d.rest == []
  {
  }

  function Concat(chunks: seq<seq<Byte>>): seq<Byte> {
    if chunks == [] then [] else chunks[0] + Concat(chunks[1..])
  }

  /** Feed and drain, chunk by chunk, up to the first error. */
  function FedInChunks<M(!new)>(c: Codec<M>, buf: seq<Byte>, chunks: seq<seq<Byte>>): Drained<M>
    decreases |chunks|
  {
    if chunks == [] then Drained([], None, buf)
    else
      var d := DrainOf(c, buf + chunks[0]);
      if d.error.Some? then d
      else
        var more := FedInChunks(c, d.rest, chunks[1..]);
        Append(d.msgs, more)
  }

  /** The chunks that FedInChunks has not come to when an error stops it. */
  function Unfed<M(!new)>(c: Codec<M>, buf: seq<Byte>, chunks: seq<seq<Byte>>): seq<seq<Byte>>
    decreases |chunks|
  {
    if chunks == [] then []
    else
      var d := DrainOf(c, buf + chunks[0]);
      if d.error.Some? then chunks[1..] else Unfed(c, d.rest, chunks[1..])
  }

  /** However a stream is cut, feeding it chunk by chunk gives the messages and the error of one
      drain over all of it, and leaves what that leaves: in the buffer and in the chunks to come. */
  lemma {:induction false} ChunkingIrrelevant<M(!new)>(c: Codec<M>, buf: seq<Byte>, chunks: seq<seq<Byte>>)
    requires DrainOf(c, buf) == Drained([], None, buf)
    ensures var fed, d := FedInChunks(c, buf, chunks), DrainOf(c, buf + Concat(chunks));
            && fed.msgs == d.msgs && fed.error == d.error
            && (if fed.error.Some? && fed.error.value.TooLarge? then fed.rest == d.rest == []
                else fed.rest + Concat(Unfed(c, buf, chunks)) == d.rest)
            && (fed.error.None? ==> Unfed(c, buf, chunks) == [])
    decreases |chunks|
  {
    hide DrainOf;
    if chunks == [] {
      assert buf + Concat(chunks) == buf && buf + Concat([]) == buf;
    } else {
      var rest := Concat(chunks[1..]);
      assert buf + Concat(chunks) == (buf + chunks[0]) + rest;
      var d := DrainOf(c, buf + chunks[0]);
      DrainErrors(c, buf + chunks[0]);
      if d.error.Some? {
        ErrorExtends(c, buf + chunks[0], rest);
      } else {
        DrainSplits(c, buf + chunks[0], rest);
        DrainAgain(c, buf + chunks[0]);
        ChunkingIrrelevant(c, d.rest, chunks[1..]);
      }
    }
  }

  lemma NothingDrains<M(!new)>(c: Codec<M>)
    ensures DrainOf(c, []) == Drained([], None, [])
  {
  }

  lemma {:induction false} DrainErrors<M(!new)>(c: Codec<M>, buf: seq<Byte>)
    ensures var e := DrainOf(c, buf).error; e.Some? ==> e == Some(Undecodable) || e.value.TooLarge?
    decreases |buf|
  {
    if DecodeFrame(c, buf).Message? {
      DrainErrors(c, DecodeFrame(c, buf).rest);
    }
  }

  /** What a drain leaves holds no complete frame. */
  lemma {:induction false} DrainAgain<M(!new)>(c: Codec<M>, buf: seq<Byte>)
    requires DrainOf(c, buf).error.None?
    ensures DrainOf(c, DrainOf(c, buf).rest) == Drained([], None, DrainOf(c, buf).rest)
    decreases |buf|
  {
    if DecodeFrame(c, buf).Message? {
      DrainAgain(c, DecodeFrame(c, buf).rest);
    }
  }

  // ---------- Round trip ----------

  /** The frames of `msgs`, one after the other. */
  function Stream<M(!new)>(c: Codec<M>, msgs: seq<M>): seq<Byte>
    requires forall i :: 0 <= i < |msgs| ==> c.Encodable(msgs[i])
  {
    if msgs == [] then []
    else
      assert c.Encodable(msgs[0]);
      Framed(c.marshal(msgs[0]).value) + Stream(c, msgs[1..])
  }

  lemma FrameDecodes<M(!new)>(c: Codec<M>, payload: seq<Byte>, more: seq<Byte>)
    requires |payload| <= MAX_MESSAGE_SIZE
    ensures DecodeFrame(c, Framed(payload) + more)
         == match c.unmarshal(payload) case None => Failed(Undecodable, more) case Some(m) => Message(m, more)
  {
    var data := Framed(payload) + more;
    HeaderRoundTrip(|payload|);
    assert data[..HEADER_SIZE] == Header(|payload|);
    assert data[HEADER_SIZE..HEADER_SIZE + |payload|] == payload;
    assert data[HEADER_SIZE + |payload|..] == more;
  }

  lemma {:induction false} StreamDrains<M(!new)>(c: Codec<M>, msgs: seq<M>, more: seq<Byte>)
    requires c.RoundTrips() && forall i :: 0 <= i < |msgs| ==> c.Encodable(msgs[i])
    ensures var d := DrainOf(c, more);
            DrainOf(c, Stream(c, msgs) + more) == Append(msgs, d)
    decreases |msgs|
  {
    hide DecodeFrame, Framed;
    if msgs == [] {
      assert Stream(c, msgs) + more == more;
      assert [] + DrainOf(c, more).msgs == DrainOf(c, more).msgs;
    } else {
      assert c.Encodable(msgs[0]);
      var payload := c.marshal(msgs[0]).value;
      assert Stream(c, msgs) + more == Framed(payload) + (Stream(c, msgs[1..]) + more);
      FrameDecodes(c, payload, Stream(c, msgs[1..]) + more);
      StreamDrains(c, msgs[1..], more);
      assert [msgs[0]] + (msgs[1..] + DrainOf(c, more).msgs) == msgs + DrainOf(c, more).msgs;
    }
  }

  /** Any chunking of the encoded messages yields exactly those messages, in order, without an
      error and with nothing left over. */
  lemma AnyChunkingDelivers<M(!new)>(c: Codec<M>, msgs: seq<M>, chunks: seq<seq<Byte>>)
    requires c.RoundTrips() && forall i :: 0 <= i < |msgs| ==> c.Encodable(msgs[i])
    requires Concat(chunks) == Stream(c, msgs)
    ensures FedInChunks(c, [], chunks) == Drained(msgs, None, [])
  {
    StreamDrains(c, msgs, []);
    assert Stream(c, msgs) + [] == Stream(c, msgs) == [] + Concat(chunks);
    ChunkingIrrelevant(c, [], chunks);
  }

  /** A complete frame with an undecodable payload, in whatever chunks it comes: the messages before
      it are delivered, the error is reported, and feeding goes on at the frame after it. */
  lemma BadPayloadIsSkipped<M(!new)>(c: Codec<M>, before: seq<M>, payload: seq<Byte>, after: seq<M>,
      chunks: seq<seq<Byte>>)
    requires c.RoundTrips() && |payload| <= MAX_MESSAGE_SIZE && c.unmarshal(payload).None?
    requires forall i :: 0 <= i < |before| ==> c.Encodable(before[i])
    requires forall i :: 0 <= i < |after| ==> c.Encodable(after[i])
    requires Concat(chunks) == Stream(c, before) + (Framed(payload) + Stream(c, after))
    ensures var fed, unfed := FedInChunks(c, [], chunks), Unfed(c, [], chunks);
            && fed == Drained(before, Some(Undecodable), fed.rest)
            && fed.rest + Concat(unfed) == Stream(c, after)
            && FedInChunks(c, [], [fed.rest] + unfed) == Drained(after, None, [])
  {
    hide DecodeFrame, Framed, DrainOf, Stream, FedInChunks, Unfed;
    StreamDrains(c, before, Framed(payload) + Stream(c, after));
    FrameDecodes(c, payload, Stream(c, after));
    DrainStep(c, Framed(payload) + Stream(c, after));
    assert [] + Concat(chunks) == Concat(chunks) && before + [] == before;
    NothingDrains(c);
    ChunkingIrrelevant(c, [], chunks);
    var fed, unfed := FedInChunks(c, [], chunks), Unfed(c, [], chunks);
    assert ([fed.rest] + unfed)[1..] == unfed;
    AnyChunkingDelivers(c, after, [fed.rest] + unfed);
  }

  /** An oversized header is worse: whatever has been fed behind it is lost as well. */
  lemma OversizeLosesTheRest<M(!new)>(c: Codec<M>, before: seq<M>, length: nat, more: seq<Byte>, chunks: seq<seq<Byte>>)
    requires c.RoundTrips() && MAX_MESSAGE_SIZE < length < 0x1_0000_0000
    requires forall i :: 0 <= i < |before| ==> c.Encodable(before[i])
    requires Concat(chunks) == Stream(c, before) + (Header(length) + more)
    ensures FedInChunks(c, [], chunks) == Drained(before, Some(TooLarge(length)), [])
  {
    StreamDrains(c, before, Header(length) + more);
    HeaderRoundTrip(length);
    assert (Header(length) + more)[..HEADER_SIZE] == Header(length);
    assert [] + Concat(chunks) == Concat(chunks) && before + [] == before;
    ChunkingIrrelevant(c, [], chunks);
  }
}
