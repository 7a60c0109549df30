/** Cutting the downlink byte stream into messages of fixed length. */
module MsgFramer {
  import opened FrameCodec
  import opened Options
  import opened ReplyCodec
  import opened Wire

  datatype Verdict = NeedMore | Message(typ: U8, size: nat) | BadHeader | BadVersion

  /** What the bytes at the head of the buffer are. */
  function Classify(buf: seq<U8>): (r: Verdict)
    ensures r.Message? ==> 0 < r.size <= |buf|
  {
    if |buf| < MSG_HDR_SIZE then NeedMore
    else if GetU32(buf, 0) != MAGIC then BadHeader
    else if buf[4] != PROTOCOL_VERSION then Verdict.BadVersion
    else
      var typ, len := buf[5], GetU32(buf, 12);
      var need := if typ == TYPE_HELLO && len == HELLO_PAYLOAD_SIZE then HELLO_WIRE_SIZE
                  else if typ == TYPE_REPLY && len == REPLY_PAYLOAD_SIZE then REPLY_WIRE_SIZE
                  else if typ == TYPE_ERR && len == ERR_PAYLOAD_SIZE then ERR_WIRE_SIZE
                  else 0;
      if need == 0 then BadHeader else if |buf| < need then NeedMore else Message(typ, need)
  }

  /** What a reader has after taking messages until more bytes are needed or the header is bad. */
  datatype Drained = Drained(messages: seq<seq<U8>>, rest: seq<U8>, error: Option<Verdict>)

  function Drain(buf: seq<U8>): Drained
    decreases |buf|
  {
    match Classify(buf)
    case NeedMore => Drained([], buf, None)
    case BadHeader => Drained([], buf, Some(BadHeader))
    case BadVersion => Drained([], buf, Some(Verdict.BadVersion))
    case Message(_, n) =>
      var d := Drain(buf[n..]);
      d.(messages := [buf[..n]] + d.messages)
  }

  /** One more chunk of the stream; after an error the connection is given up. */
  function Feed(s: Drained, chunk: seq<U8>): Drained {
    if s.error.Some? then s
    else
      var d := Drain(s.rest + chunk);
      d.(messages := s.messages + d.messages)
  }

  const START := Drained([], [], None)

  function FeedAll(chunks: seq<seq<U8>>): Drained {
    if chunks == [] then START else Feed(FeedAll(chunks[..|chunks| - 1]), chunks[|chunks| - 1])
  }

  function Flatten(chunks: seq<seq<U8>>): seq<U8> {
    if chunks == [] then [] else Flatten(chunks[..|chunks| - 1]) + chunks[|chunks| - 1]
  }

  /** More bytes do not change a verdict. */
  lemma ClassifyMonotone(a: seq<U8>, b: seq<U8>)
    requires !Classify(a).NeedMore?
    ensures Classify(a + b) == Classify(a)
  {
    hide FromLe;
    assert (a + b)[0..4] == a[0..4];
    assert (a + b)[12..16] == a[12..16];
  }

  /** Draining in two steps is draining at once. */
  lemma {:induction false} DrainAppend(a: seq<U8>, b: seq<U8>)
    ensures var d, e := Drain(a), Drain(a + b);
            if d.error.Some? then e.messages == d.messages && e.error == d.error
            else e == Feed(d, b)
    decreases |a|
  {
    hide Classify;
    match Classify(a)
    case NeedMore =>
      var e := Drain(a + b);
      assert [] + e.messages == e.messages;
    case BadHeader => ClassifyMonotone(a, b);
    case BadVersion => ClassifyMonotone(a, b);
    case Message(_, n) =>
      ClassifyMonotone(a, b);
      DrainAppend(a[n..], b);
      assert (a + b)[..n] == a[..n];
      assert (a + b)[n..] == a[n..] + b;
      var d := Drain(a[n..]);
      if d.error.None? {
        var f := Drain(d.rest + b);
        assert [a[..n]] + (d.messages + f.messages) == [a[..n]] + d.messages + f.messages;
      }
  }

  lemma DrainNothing()
    ensures Drain([]) == START
  {}

  /** However the stream is cut into chunks, the same messages and the same first error come out. */
  lemma {:induction false} ChunkingIsIrrelevant(chunks: seq<seq<U8>>)
    ensures var whole, fed := Drain(Flatten(chunks)), FeedAll(chunks);
            && fed.messages == whole.messages && fed.error == whole.error
            && (fed.error.None? ==> fed.rest == whole.rest)
  {
    hide Drain;
    if chunks == [] {
      DrainNothing();
    } else {
      var n := |chunks| - 1;
      ChunkingIsIrrelevant(chunks[..n]);
      DrainAppend(Flatten(chunks[..n]), chunks[n]);
    }
  }

  // ---- what a peer sends ----

  datatype Downlink = HelloMsg(hello: Hello) | ReplyMsg(reply: Reply) | ErrorMsg(err: ErrMsg)

  predicate Sendable(m: Downlink) {
    m.ReplyMsg? ==> m.reply.Shape()
  }

  function Bytes(m: Downlink): seq<U8>
    requires Sendable(m)
  {
    match m
    case HelloMsg(h) => HelloBytes(h)
    case ReplyMsg(r) => ReplyBytes(r)
    case ErrorMsg(e) => ErrBytes(e)
  }

  function AllBytes(ms: seq<Downlink>): (s: seq<seq<U8>>)
    requires forall m :: m in ms ==> Sendable(m)
    ensures |s| == |ms|
  {
    seq(|ms|, i requires 0 <= i < |ms| => assert ms[i] in ms; Bytes(ms[i]))
  }

  lemma PackedIsMessage(m: Downlink)
    requires Sendable(m)
    ensures Classify(Bytes(m)).Message? && Classify(Bytes(m)).size == |Bytes(m)|
  {
    hide MsgHdrBytes, Le, U64Bytes, Words, NormalNavBytes, NormalNav, GetU32;
    match m
    case HelloMsg(h) => MsgHdrRoundTrip(Bytes(m), TYPE_HELLO, 0, 0, HELLO_PAYLOAD_SIZE);
    case ReplyMsg(r) => MsgHdrRoundTrip(Bytes(m), TYPE_REPLY, r.flags, r.frameIdx, REPLY_PAYLOAD_SIZE);
    case ErrorMsg(e) => MsgHdrRoundTrip(Bytes(m), TYPE_ERR, 0, e.frameIdx, ERR_PAYLOAD_SIZE);
  }

  lemma DrainOne(b: seq<U8>)
    requires Classify(b).Message? && Classify(b).size == |b|
    ensures Drain(b) == Drained([b], [], None)
  {
    assert b[|b|..] == [];
    assert b[..|b|] == b;
    DrainNothing();
  }

  lemma {:induction false} PackedStream(ms: seq<Downlink>)
    requires forall m :: m in ms ==> Sendable(m)
    ensures Drain(Flatten(AllBytes(ms))) == Drained(AllBytes(ms), [], None)
  {
    hide Bytes, Classify;
    if ms == [] {
      DrainNothing();
    } else {
      var n := |ms| - 1;
      var all := AllBytes(ms);
      assert all[..n] == AllBytes(ms[..n]);
      PackedStream(ms[..n]);
      assert ms[n] in ms;
      PackedIsMessage(ms[n]);
      DrainOne(Bytes(ms[n]));
      DrainAppend(Flatten(all[..n]), all[n]);
      assert [] + all[n] == all[n];
      assert all == all[..n] + [all[n]];
    }
  }

  /** Packed messages come back exactly, in order, for every way the transport cuts the stream. */
  lemma PackedMessagesComeBack(ms: seq<Downlink>, chunks: seq<seq<U8>>)
    requires forall m :: m in ms ==> Sendable(m)
    requires Flatten(chunks) == Flatten(AllBytes(ms))
    ensures FeedAll(chunks) == Drained(AllBytes(ms), [], None)
  {
    ChunkingIsIrrelevant(chunks);
    PackedStream(ms);
  }

  // ---- the buffer ----

  class Framer {
    var buf: seq<U8>

    constructor ()
      ensures buf == []
    {
      buf := [];
    }

    method Append(data: seq<U8>)
      modifies this
      ensures buf == old(buf) + data
    {
      buf := buf + data;
    }

    method Next() returns (r: Verdict)
      ensures r == Classify(buf)
    {
      if |buf| < MSG_HDR_SIZE {
        return NeedMore;
      }
      if GetU32(buf, 0) != MAGIC {
        return BadHeader;
      }
      if buf[4] != PROTOCOL_VERSION {
        return Verdict.BadVersion;
      }
      var typ, len := buf[5], GetU32(buf, 12);
      var need;
      if typ == TYPE_HELLO && len == HELLO_PAYLOAD_SIZE {
        need := HELLO_WIRE_SIZE;
      } else if typ == TYPE_REPLY && len == REPLY_PAYLOAD_SIZE {
        need := REPLY_WIRE_SIZE;
      } else if typ == TYPE_ERR && len == ERR_PAYLOAD_SIZE {
        need := ERR_WIRE_SIZE;
      } else {
        return BadHeader;
      }
      if |buf| < need {
        return NeedMore;
      }
      r := Message(typ, need);
    }

    method Consume(n: nat)
      modifies this
      ensures buf == if n <= |old(buf)| then old(buf)[n..] else []
    {
      buf := buf[if n < |buf| then n else |buf|..];
    }

    method Clear()
      modifies this
      ensures buf == []
    {
      buf := [];
    }

    /** The reader's loop: append what arrived, then take messages while there are any. */
    method Receive(chunk: seq<U8>) returns (messages: seq<seq<U8>>, error: Option<Verdict>)
      modifies this
      ensures Drained(messages, buf, error) == Drain(old(buf) + chunk)
    {
      Append(chunk);
      ghost var all := Drain(buf);
      messages := [];
      error := None;
      var more := true;
      while more
        invariant more ==> error.None? && all == Drain(buf).(messages := messages + Drain(buf).messages)
        invariant !more ==> Drained(messages, buf, error) == all
        decreases more, |buf|
      {
        var r := Next();
        match r
        case NeedMore =>
          more := false;
        case BadHeader =>
          error, more := Some(BadHeader), false;
        case BadVersion =>
          error, more := Some(Verdict.BadVersion), false;
        case Message(_, n) =>
          ghost var before := Drain(buf[n..]).messages;
          assert messages + ([buf[..n]] + before) == messages + [buf[..n]] + before;
          messages := messages + [buf[..n]];
          Consume(n);
      }
    }
  }
}
