/** Length-prefixed frames over a byte stream: the decoder of `crates/protocol/src/framing.rs` and
    the `FrameReader` that the connection task polls inside its `select!` loop.

    A frame body is parsed by an oracle `parse`; CBOR itself is not modelled.  A connection is a
    script of what each `read` meets, and the scripts range over every way of cutting the bytes into
    reads and of abandoning `next` at its read. */
module Framing {
  import opened Wrappers

  const MAX_FRAME_LEN: nat := 16 * 1024 * 1024

  /** Decoded frames are told apart by a number; nothing below looks inside one. */
  type OrchdFrame = int

  type Parser = seq<byte> -> Option<OrchdFrame>

  // ---- The length prefix ----

  function ToLe32(n: int): (r: seq<byte>)
    requires 0 <= n < 0x1_0000_0000
    ensures |r| == 4
  {
    [n % 256, n / 256 % 256, n / 65536 % 256, n / 16777216]
  }

  function FromLe32(b: seq<byte>): (n: int)
    requires |b| >= 4
    ensures 0 <= n < 0x1_0000_0000
  {
    b[0] as int + 256 * (b[1] as int) + 65536 * (b[2] as int) + 16777216 * (b[3] as int)
  }

  lemma Le32RoundTrip(n: int)
    requires 0 <= n < 0x1_0000_0000
    ensures FromLe32(ToLe32(n)) == n
    ensures var b := ToLe32(n);
            b[0] as int + 256 * (b[1] as int + 256 * (b[2] as int + 256 * (b[3] as int))) == n
  {
    var a, b, c := n / 256, n / 256 / 256, n / 256 / 256 / 256;
    assert n / 65536 == b && n / 16777216 == c;
    assert n == 256 * a + n % 256 && a == 256 * b + a % 256 && b == 256 * c + b % 256;
  }

  // ---- Encoding ----

  /** `encode_cbor_frame` after the body is serialised: an oversized body is refused locally. */
  function EncodeFrame(body: seq<byte>): (r: Result<seq<byte>, int>)
    ensures r.Ok? <==> |body| <= MAX_FRAME_LEN
  {
    if |body| > MAX_FRAME_LEN then Err(|body|) else Ok(ToLe32(|body|) + body)
  }

  /** What the peer writes for a list of messages. */
  function Wire(encode: OrchdFrame -> seq<byte>, ts: seq<OrchdFrame>): seq<byte>
    requires forall i :: 0 <= i < |ts| ==> |encode(ts[i])| <= MAX_FRAME_LEN
  {
    if ts == [] then [] else EncodeFrame(encode(ts[0])).value + Wire(encode, ts[1..])
  }

  // ---- One call of decode ----

  datatype Drained = Drained(items: seq<OrchdFrame>, rest: seq<byte>) | Corrupt

  function Prepend(items: seq<OrchdFrame>, d: Drained): Drained {
    match d
    case Corrupt => Corrupt
    case Drained(more, rest) => Drained(items + more, rest)
  }

  /** The head of the buffer: a complete frame, not yet complete, or corrupt. */
  datatype Head = Complete(item: OrchdFrame, size: nat) | Partial | Bad

  function ReadHead(parse: Parser, buf: seq<byte>): (h: Head)
    ensures h.Complete? ==> 4 <= h.size <= |buf|
  {
    if |buf| < 4 then Partial
    else
      var len := FromLe32(buf);
      if len > MAX_FRAME_LEN then Bad
      else if |buf| - 4 < len then Partial
      else match parse(buf[4..4 + len])
        case None => Bad
        case Some(t) => Complete(t, 4 + len)
  }

  /** How a buffer starts, told from its bytes: not yet a whole frame, a prefix over 16 MiB or a body that
      does not parse, or the frame its body parses to. */
  lemma HeadIs(parse: Parser, buf: seq<byte>, t: OrchdFrame, n: nat)
    ensures ReadHead(parse, buf) == Bad <==>
              |buf| >= 4 && (FromLe32(buf) > 16 * 1024 * 1024
                             || (|buf| >= 4 + FromLe32(buf) && parse(buf[4..4 + FromLe32(buf)]).None?))
    ensures ReadHead(parse, buf) == Complete(t, n) <==>
              && |buf| >= 4 && FromLe32(buf) <= 16 * 1024 * 1024 && n == 4 + FromLe32(buf) <= |buf|
              && parse(buf[4..n]) == Some(t)
    ensures ReadHead(parse, buf) == Partial <==>
              |buf| < 4 || (FromLe32(buf) <= 16 * 1024 * 1024 && |buf| < 4 + FromLe32(buf))
  {
  }

  /** Decode all at once: every complete frame and the bytes left over, or corrupt. */
  function Drain(parse: Parser, buf: seq<byte>): Drained
    decreases |buf|
  {
    match ReadHead(parse, buf)
    case Partial => Drained([], buf)
    case Bad => Corrupt
    case Complete(t, n) => Prepend([t], Drain(parse, buf[n..]))
  }

  /** The complete frames that stand before the first corrupt or unfinished one. */
  function GoodFrames(parse: Parser, buf: seq<byte>): seq<OrchdFrame>
    decreases |buf|
  {
    match ReadHead(parse, buf)
    case Complete(t, n) => [t] + GoodFrames(parse, buf[n..])
    case _ => []
  }

  /** One turn of the decoder's loop, at `offset`: the prefix, the cap, the body and its parse. */
  function HeadAt(parse: Parser, buf: seq<byte>, offset: nat): Head
    requires offset <= |buf|
    ensures HeadAt(parse, buf, offset).Complete? ==> 4 <= HeadAt(parse, buf, offset).size <= |buf| - offset
  {
    if |buf| - offset < 4 then Partial
    else
      var len := FromLe32(buf[offset..offset + 4]);
      if len > MAX_FRAME_LEN then Bad
      else if |buf| - offset - 4 < len then Partial
      else match parse(buf[offset + 4..offset + 4 + len])
        case None => Bad
        case Some(t) => Complete(t, 4 + len)
  }

  lemma HeadAtIsHead(parse: Parser, buf: seq<byte>, offset: nat)
    requires offset <= |buf|
    ensures HeadAt(parse, buf, offset) == ReadHead(parse, buf[offset..])
  {
    var tail := buf[offset..];
    if |tail| >= 4 {
      var len := FromLe32(tail);
      assert FromLe32(buf[offset..offset + 4]) == len;
      if len <= MAX_FRAME_LEN && |tail| - 4 >= len {
        assert tail[4..4 + len] == buf[offset + 4..offset + 4 + len];
      }
    }
  }

  /** Decoding from an offset of a buffer that stays where it is. */
  function DrainFrom(parse: Parser, buf: seq<byte>, offset: nat): Drained
    requires offset <= |buf|
    decreases |buf| - offset
  {
    match HeadAt(parse, buf, offset)
    case Partial => Drained([], buf[offset..])
    case Bad => Corrupt
    case Complete(t, n) => Prepend([t], DrainFrom(parse, buf, offset + n))
  }

  lemma DropTwice(buf: seq<byte>, offset: nat, n: nat)
    requires offset + n <= |buf|
    ensures buf[offset..][n..] == buf[offset + n..]
  {
  }

  /** What a turn makes of what the bytes after its frame drain to. */
  function Folded(head: Head, tail: seq<byte>, more: Drained): Drained {
    match head
    case Partial => Drained([], tail)
    case Bad => Corrupt
    case Complete(t, _) => Prepend([t], more)
  }

  lemma {:induction false} FoldsFrom(parse: Parser, buf: seq<byte>, offset: nat, head: Head, more: Drained)
    requires offset <= |buf| && head == HeadAt(parse, buf, offset)
    requires head.Complete? ==> more == DrainFrom(parse, buf, offset + head.size)
    ensures DrainFrom(parse, buf, offset) == Folded(head, buf[offset..], more)
  {
  }

  lemma {:induction false} Folds(parse: Parser, tail: seq<byte>, head: Head, more: Drained)
    requires head == ReadHead(parse, tail)
    requires head.Complete? ==> more == Drain(parse, tail[head.size..])
    ensures Drain(parse, tail) == Folded(head, tail, more)
  {
  }

  lemma {:induction false} DrainFromIsDrain(parse: Parser, buf: seq<byte>, offset: nat, tail: seq<byte>)
    requires offset <= |buf| && tail == buf[offset..]
    ensures DrainFrom(parse, buf, offset) == Drain(parse, tail)
    decreases |tail|
  {
    var head, more := ReadHead(parse, tail), Corrupt;
    HeadAtIsHead(parse, buf, offset);
    if head.Complete? {
      DropTwice(buf, offset, head.size);
      DrainFromIsDrain(parse, buf, offset + head.size, tail[head.size..]);
      more := Drain(parse, tail[head.size..]);
    }
    Folds(parse, tail, head, more);
    FoldsFrom(parse, buf, offset, head, more);
  }

  /** Having collected `items` up to `offset`, the whole result is still what the rest will add. */
  predicate Left(parse: Parser, buf: seq<byte>, items: seq<OrchdFrame>, offset: nat, whole: Drained)
    requires offset <= |buf|
  {
    whole == Prepend(items, DrainFrom(parse, buf, offset))
  }

  lemma DrainWhole(parse: Parser, buf: seq<byte>)
    ensures Left(parse, buf, [], 0, Drain(parse, buf))
  {
    DrainFromIsDrain(parse, buf, 0, buf);
    PrependNothing(DrainFrom(parse, buf, 0));
  }

  /** One turn of the decoder's loop keeps what it has collected in step with the whole. */
  lemma DecodeTurn(parse: Parser, buf: seq<byte>, items: seq<OrchdFrame>, offset: nat, whole: Drained)
    requires offset <= |buf| && Left(parse, buf, items, offset, whole)
    ensures HeadAt(parse, buf, offset).Partial? ==> whole == Drained(items, buf[offset..])
    ensures HeadAt(parse, buf, offset).Bad? ==> whole == Corrupt
    ensures HeadAt(parse, buf, offset).Complete? ==>
              Left(parse, buf, items + [HeadAt(parse, buf, offset).item], offset + HeadAt(parse, buf, offset).size,
                   whole)
  {
  }

  class CborFrameDecoder {
    var buf: seq<byte>

    constructor ()
      ensures buf == []
    {
      buf := [];
    }

    method Push(chunk: seq<byte>)
      modifies this
      ensures buf == old(buf) + chunk
    {
      buf := buf + chunk;
    }

    /** Err leaves the buffer as it was, good frames before the corrupt one included. */
    method Decode(parse: Parser) returns (r: Option<seq<OrchdFrame>>)
      modifies this
      ensures match Drain(parse, old(buf))
              case Corrupt => r == None && buf == old(buf)
              case Drained(items, rest) => r == Some(items) && buf == rest
    {
      var bytes := buf;
      var items: seq<OrchdFrame>, offset := [], 0;
      ghost var whole := Drain(parse, bytes);
      DrainWhole(parse, bytes);
      while true
        invariant 0 <= offset <= |bytes| && buf == bytes
        invariant Left(parse, bytes, items, offset, whole)
        decreases |bytes| - offset
      {
        DecodeTurn(parse, bytes, items, offset, whole);
        match HeadAt(parse, bytes, offset) {
          case Partial => break;
          case Bad => return None;
          case Complete(t, n) => items, offset := items + [t], offset + n;
        }
      }
      buf := bytes[offset..];
      return Some(items);
    }
  }

  lemma PrependTwice(a: seq<OrchdFrame>, b: seq<OrchdFrame>, d: Drained)
    ensures Prepend(a, Prepend(b, d)) == Prepend(a + b, d)
  {
  }

  lemma PrependNothing(d: Drained)
    ensures Prepend([], d) == d
  {
  }

  // ---- Decoding is independent of where the stream is cut ----

  /** More bytes never change what the head already was. */
  lemma HeadIsStable(parse: Parser, a: seq<byte>, b: seq<byte>)
    ensures ReadHead(parse, a) != Partial ==> ReadHead(parse, a + b) == ReadHead(parse, a)
  {
    if |a| >= 4 {
      var len := FromLe32(a);
      assert FromLe32(a + b) == len;
      if |a| - 4 >= len { assert (a + b)[4..4 + len] == a[4..4 + len]; }
    }
  }

  lemma {:induction false} DrainInTwoSteps(parse: Parser, a: seq<byte>, b: seq<byte>)
    ensures Drain(parse, a).Corrupt? ==>
              Drain(parse, a + b) == Corrupt && GoodFrames(parse, a + b) == GoodFrames(parse, a)
    ensures Drain(parse, a).Drained? ==>
              && Drain(parse, a + b) == Prepend(Drain(parse, a).items, Drain(parse, Drain(parse, a).rest + b))
              && GoodFrames(parse, a + b) == Drain(parse, a).items + GoodFrames(parse, Drain(parse, a).rest + b)
    decreases |a|
  {
    HeadIsStable(parse, a, b);
    match ReadHead(parse, a) {
      case Bad =>
      case Partial =>
        PrependNothing(Drain(parse, a + b));
        assert [] + GoodFrames(parse, a + b) == GoodFrames(parse, a + b);
      case Complete(t, n) =>
        assert (a + b)[n..] == a[n..] + b;
        DrainInTwoSteps(parse, a[n..], b);
        if Drain(parse, a[n..]).Drained? {
          var d := Drain(parse, a[n..]);
          PrependTwice([t], d.items, Drain(parse, d.rest + b));
          assert [t] + (d.items + GoodFrames(parse, d.rest + b)) == ([t] + d.items) + GoodFrames(parse, d.rest + b);
        }
    }
  }

  lemma {:induction false} RestIsPartial(parse: Parser, buf: seq<byte>)
    requires Drain(parse, buf).Drained?
    ensures ReadHead(parse, Drain(parse, buf).rest) == Partial
    ensures Drain(parse, Drain(parse, buf).rest) == Drained([], Drain(parse, buf).rest)
    ensures GoodFrames(parse, buf) == Drain(parse, buf).items
    decreases |buf|
  {
    if ReadHead(parse, buf).Complete? { RestIsPartial(parse, buf[ReadHead(parse, buf).size..]); }
  }

  // ---- The reader inside the select loop ----

  /** What one `read` meets: bytes, an I/O error, or the select loop abandoning it for a command.
      The end of the script is the peer closing the connection. */
  datatype ReadEvent = Bytes(chunk: seq<byte>) | IoError | Abandoned

  datatype Next = Frame(item: OrchdFrame) | Closed | Failed | GaveUp

  datatype Delivery = Delivery(frames: seq<OrchdFrame>, failed: bool)

  function After(items: seq<OrchdFrame>, d: Delivery): Delivery {
    Delivery(items + d.frames, d.failed)
  }

  /** Every frame that polling `next` until it closes or fails will yield. */
  function Deliver(parse: Parser, buf: seq<byte>, script: seq<ReadEvent>): Delivery
    decreases |script|, 1
  {
    match Drain(parse, buf)
    case Corrupt => Delivery([], true)
    case Drained(items, rest) => After(items, DeliverAfterRead(parse, rest, script))
  }

  /** The same, when everything complete has been taken out and the next step is a read. */
  function DeliverAfterRead(parse: Parser, rest: seq<byte>, script: seq<ReadEvent>): Delivery
    decreases |script|, 0
  {
    if script == [] then Delivery([], false)
    else match script[0]
      case Bytes(chunk) => Deliver(parse, rest + chunk, script[1..])
      case IoError => Delivery([], true)
      case Abandoned => Deliver(parse, rest, script[1..])
  }

  class FrameReader {
    const decoder: CborFrameDecoder
    var pending: seq<OrchdFrame>

    constructor ()
      ensures fresh(decoder) && decoder.buf == [] && pending == []
    {
      decoder := new CborFrameDecoder();
      pending := [];
    }

    ghost function Future(parse: Parser, script: seq<ReadEvent>): Delivery
      reads this, decoder
    {
      After(pending, Deliver(parse, decoder.buf, script))
    }

    /** One poll of `next`, up to a frame, the end of the connection or its abandonment. */
    method Poll(parse: Parser, script: seq<ReadEvent>) returns (out: Next, left: seq<ReadEvent>)
      modifies this, decoder
      ensures match out
              case Frame(t) => old(Future(parse, script)) == After([t], Future(parse, left)) && |left| <= |script|
              case GaveUp => old(Future(parse, script)) == Future(parse, left) && |left| < |script|
              case Closed => old(Future(parse, script)) == Delivery([], false)
              case Failed => old(Future(parse, script)) == Delivery([], true)
    {
      left := script;
      while true
        invariant |left| <= |script|
        invariant Future(parse, left) == old(Future(parse, script))
        decreases |left|, if pending == [] then 1 else 0
      {
        if pending != [] {
          out := Frame(pending[0]);
          assert pending == [pending[0]] + pending[1..];
          AfterTwice([pending[0]], pending[1..], Deliver(parse, decoder.buf, left));
          pending := pending[1..];
          return;
        }
        ghost var buf := decoder.buf;
        var r := decoder.Decode(parse);
        if r == None { return Failed, left; }
        if r.value != [] {
          RestIsPartial(parse, buf);
          DeliverFlushed(parse, buf, left);
          pending := r.value;
          continue;
        }
        AfterNothing(DeliverAfterRead(parse, decoder.buf, left));
        AfterNothing(Deliver(parse, buf, left));
        if left == [] { return Closed, left; }
        match left[0] {
          case IoError => return Failed, left;
          case Abandoned =>
            AfterNothing(Deliver(parse, decoder.buf, left[1..]));
            return GaveUp, left[1..];
          case Bytes(chunk) =>
            AfterNothing(Deliver(parse, decoder.buf + chunk, left[1..]));
            decoder.Push(chunk);
            left := left[1..];
        }
      }
    }
  }

  lemma AfterTwice(a: seq<OrchdFrame>, b: seq<OrchdFrame>, d: Delivery)
    ensures After(a, After(b, d)) == After(a + b, d)
  {
  }

  lemma AfterNothing(d: Delivery)
    ensures After([], d) == d
  {
  }

  /** Moving the decoded items into the queue leaves the future unchanged. */
  lemma DeliverFlushed(parse: Parser, buf: seq<byte>, script: seq<ReadEvent>)
    requires Drain(parse, buf).Drained?
    ensures Deliver(parse, buf, script)
            == After(Drain(parse, buf).items, Deliver(parse, Drain(parse, buf).rest, script))
  {
    RestIsPartial(parse, buf);
    AfterNothing(DeliverAfterRead(parse, Drain(parse, buf).rest, script));
  }

  /** Whatever came before it, an I/O error ends the reading as a failure: what was delivered stays
      delivered, and nothing after it is read. */
  lemma {:induction false} ReadErrorEnds(parse: Parser, buf: seq<byte>, before: seq<ReadEvent>, after: seq<ReadEvent>)
    ensures Deliver(parse, buf, before + [IoError] + after)
            == Delivery(Deliver(parse, buf, before).frames, true)
    decreases |before|
  {
    var script := before + [IoError] + after;
    if Drain(parse, buf).Drained? && before != [] {
      var rest := Drain(parse, buf).rest;
      assert script[0] == before[0] && script[1..] == before[1..] + [IoError] + after;
      match before[0] {
        case IoError =>
        case Bytes(chunk) => ReadErrorEnds(parse, rest + chunk, before[1..], after);
        case Abandoned => ReadErrorEnds(parse, rest, before[1..], after);
      }
    }
  }

  /** The connection task's read side: poll, and poll again after every frame or abandonment. */
  method ReadAll(parse: Parser, script: seq<ReadEvent>) returns (got: seq<OrchdFrame>, failed: bool)
    ensures Delivery(got, failed) == Deliver(parse, [], script)
  {
    var reader := new FrameReader();
    var left := script;
    got := [];
    AfterNothing(Deliver(parse, [], script));
    AfterNothing(After([], Deliver(parse, [], script)));
    while true
      invariant fresh(reader) && fresh(reader.decoder)
      invariant Deliver(parse, [], script) == After(got, reader.Future(parse, left))
      decreases |reader.Future(parse, left).frames|, |left|
    {
      var out;
      out, left := reader.Poll(parse, left);
      match out {
        case Frame(t) =>
          AfterTwice(got, [t], reader.Future(parse, left));
          got := got + [t];
        case GaveUp =>
        case Closed => assert got + [] == got; return got, false;
        case Failed => assert got + [] == got; return got, true;
      }
    }
  }

  // ---- What is delivered ----

  function ChunkOf(e: ReadEvent): seq<byte> { if e.Bytes? then e.chunk else [] }

  function BytesOf(script: seq<ReadEvent>): seq<byte> {
    if script == [] then [] else ChunkOf(script[0]) + BytesOf(script[1..])
  }

  ghost predicate NoIoError(script: seq<ReadEvent>) {
    forall i :: 0 <= i < |script| ==> !script[i].IoError?
  }

  /** The good frames that the failing `decode` throws away with its error. */
  function Lost(parse: Parser, buf: seq<byte>, script: seq<ReadEvent>): seq<OrchdFrame>
    decreases |script|
  {
    match Drain(parse, buf)
    case Corrupt => GoodFrames(parse, buf)
    case Drained(items, rest) =>
      if script == [] || script[0].IoError? then []
      else Lost(parse, rest + ChunkOf(script[0]), script[1..])
  }

  lemma ReadStep(parse: Parser, buf: seq<byte>, script: seq<ReadEvent>)
    requires Drain(parse, buf).Drained? && script != [] && !script[0].IoError?
    ensures var items, next := Drain(parse, buf).items, Drain(parse, buf).rest + ChunkOf(script[0]);
            && Deliver(parse, buf, script) == After(items, Deliver(parse, next, script[1..]))
            && Lost(parse, buf, script) == Lost(parse, next, script[1..])
  {
    var rest := Drain(parse, buf).rest;
    assert rest + [] == rest;
  }

  lemma AssociateBytes(a: seq<byte>, b: seq<byte>, c: seq<byte>)
    ensures a + (b + c) == (a + b) + c
  {
  }

  lemma ReadBytes(rest: seq<byte>, script: seq<ReadEvent>)
    requires script != []
    ensures (rest + ChunkOf(script[0])) + BytesOf(script[1..]) == rest + BytesOf(script)
  {
    AssociateBytes(rest, ChunkOf(script[0]), BytesOf(script[1..]));
  }

  /** Of the good frames on the wire, those delivered and those lost, in order and exactly once. */
  lemma {:induction false} DeliveryAccounts(parse: Parser, buf: seq<byte>, script: seq<ReadEvent>)
    requires NoIoError(script)
    ensures GoodFrames(parse, buf + BytesOf(script)) == Deliver(parse, buf, script).frames + Lost(parse, buf, script)
    ensures Deliver(parse, buf, script).failed <==> Drain(parse, buf + BytesOf(script)) == Corrupt
    ensures !Deliver(parse, buf, script).failed ==> Lost(parse, buf, script) == []
    decreases |script|
  {
    DrainInTwoSteps(parse, buf, BytesOf(script));
    if Drain(parse, buf).Drained? {
      var items, rest := Drain(parse, buf).items, Drain(parse, buf).rest;
      RestIsPartial(parse, buf);
      if script == [] {
        assert rest + [] == rest;
      } else {
        ReadStep(parse, buf, script);
        ReadBytes(rest, script);
        var next := rest + ChunkOf(script[0]);
        DeliveryAccounts(parse, next, script[1..]);
        Associate(items, Deliver(parse, next, script[1..]).frames, Lost(parse, next, script[1..]));
      }
    }
  }

  lemma Associate(a: seq<OrchdFrame>, b: seq<OrchdFrame>, c: seq<OrchdFrame>)
    ensures a + (b + c) == (a + b) + c
  {
  }

  lemma FrameHead(parse: Parser, body: seq<byte>, t: OrchdFrame, tail: seq<byte>)
    requires |body| <= MAX_FRAME_LEN && parse(body) == Some(t)
    ensures ReadHead(parse, (ToLe32(|body|) + body) + tail) == Complete(t, 4 + |body|)
  {
    Le32RoundTrip(|body|);
    var all := (ToLe32(|body|) + body) + tail;
    assert FromLe32(all) == FromLe32(ToLe32(|body|));
    assert all[4..4 + |body|] == body;
  }

  lemma {:induction false} WireDrains(parse: Parser, encode: OrchdFrame -> seq<byte>, ts: seq<OrchdFrame>,
                                      tail: seq<byte>)
    requires forall i :: 0 <= i < |ts| ==> |encode(ts[i])| <= MAX_FRAME_LEN && parse(encode(ts[i])) == Some(ts[i])
    ensures Drain(parse, Wire(encode, ts) + tail) == Prepend(ts, Drain(parse, tail))
  {
    if ts == [] {
      assert Wire(encode, ts) + tail == tail;
      PrependNothing(Drain(parse, tail));
    } else {
      var frame := EncodeFrame(encode(ts[0])).value;
      var more := Wire(encode, ts[1..]) + tail;
      FrameHead(parse, encode(ts[0]), ts[0], more);
      Associate(frame, Wire(encode, ts[1..]), tail);
      assert (frame + more)[|frame|..] == more;
      WireDrains(parse, encode, ts[1..], tail);
      PrependTwice([ts[0]], ts[1..], Drain(parse, tail));
      assert [ts[0]] + ts[1..] == ts;
    }
  }

  /** Every cut of the stream into reads, with `next` abandoned at any of them, delivers exactly the
      frames that were written; a frame that has not fully arrived is not delivered. */
  lemma FramesSurviveAnySplit(parse: Parser, encode: OrchdFrame -> seq<byte>, ts: seq<OrchdFrame>, tail: seq<byte>,
                              script: seq<ReadEvent>)
    requires forall i :: 0 <= i < |ts| ==> |encode(ts[i])| <= MAX_FRAME_LEN && parse(encode(ts[i])) == Some(ts[i])
    requires ReadHead(parse, tail) == Partial
    requires NoIoError(script) && BytesOf(script) == Wire(encode, ts) + tail
    ensures Deliver(parse, [], script) == Delivery(ts, false)
  {
    WireDrains(parse, encode, ts, tail);
    assert [] + BytesOf(script) == BytesOf(script);
    assert ts + [] == ts;
    DeliveryAccounts(parse, [], script);
    RestIsPartial(parse, BytesOf(script));
    assert Deliver(parse, [], script).frames + [] == Deliver(parse, [], script).frames;
  }

  // ---- When a corrupt stream still delivers all its good frames ----

  /** How many bytes the good frames of a stream take, length prefixes included. */
  function GoodLen(parse: Parser, buf: seq<byte>): nat
    decreases |buf|
  {
    match ReadHead(parse, buf)
    case Complete(_, n) => n + GoodLen(parse, buf[n..])
    case _ => 0
  }

  lemma {:induction false} GoodLenInTwoSteps(parse: Parser, a: seq<byte>, b: seq<byte>)
    ensures Drain(parse, a).Corrupt? ==> GoodLen(parse, a + b) == GoodLen(parse, a)
    ensures Drain(parse, a).Drained? ==>
              && |Drain(parse, a).rest| <= |a|
              && GoodLen(parse, a + b)
                 == |a| - |Drain(parse, a).rest| + GoodLen(parse, Drain(parse, a).rest + b)
    decreases |a|
  {
    HeadIsStable(parse, a, b);
    if ReadHead(parse, a).Complete? {
      var n := ReadHead(parse, a).size;
      assert (a + b)[n..] == a[n..] + b;
      GoodLenInTwoSteps(parse, a[n..], b);
    }
  }

  /** For frames the peer encoded that is the length of what it wrote. */
  lemma {:induction false} WireGoodLen(parse: Parser, encode: OrchdFrame -> seq<byte>, ts: seq<OrchdFrame>,
                                       tail: seq<byte>)
    requires forall i :: 0 <= i < |ts| ==> |encode(ts[i])| <= MAX_FRAME_LEN && parse(encode(ts[i])) == Some(ts[i])
    ensures GoodLen(parse, Wire(encode, ts) + tail) == |Wire(encode, ts)| + GoodLen(parse, tail)
  {
    if ts == [] {
      assert Wire(encode, ts) + tail == tail;
    } else {
      var frame := EncodeFrame(encode(ts[0])).value;
      var more := Wire(encode, ts[1..]) + tail;
      FrameHead(parse, encode(ts[0]), ts[0], more);
      AssociateBytes(frame, Wire(encode, ts[1..]), tail);
      assert (frame + more)[|frame|..] == more;
      WireGoodLen(parse, encode, ts[1..], tail);
    }
  }

  lemma NoGoodFrames(parse: Parser, buf: seq<byte>)
    ensures GoodLen(parse, buf) == 0 <==> GoodFrames(parse, buf) == []
  {
  }

  /** What has not made a frame by itself is shorter than the first frame it becomes part of. */
  lemma PartialIsShorter(parse: Parser, rest: seq<byte>, chunk: seq<byte>)
    requires ReadHead(parse, rest) == Partial
    ensures GoodLen(parse, rest + chunk) == 0 || GoodLen(parse, rest + chunk) > |rest|
  {
    var all := rest + chunk;
    if ReadHead(parse, all).Complete? && |rest| >= 4 {
      assert FromLe32(all) == FromLe32(rest);
    }
  }

  /** After n reads all the bytes of the good frames are there, and nothing corrupt yet. */
  ghost predicate ArrivedBy(parse: Parser, rest: seq<byte>, script: seq<ReadEvent>, n: nat) {
    && n <= |script|
    && |rest + BytesOf(script[..n])| >= GoodLen(parse, rest + BytesOf(script))
    && Drain(parse, rest + BytesOf(script[..n])) != Corrupt
  }

  lemma FirstRead(rest: seq<byte>, script: seq<ReadEvent>, n: nat)
    requires 0 < n <= |script|
    ensures rest + BytesOf(script[..n]) == (rest + ChunkOf(script[0])) + BytesOf(script[1..][..n - 1])
    ensures rest + BytesOf(script) == (rest + ChunkOf(script[0])) + BytesOf(script[1..])
  {
    assert script[..n][1..] == script[1..][..n - 1] && script[..n][0] == script[0];
    ReadBytes(rest, script[..n]);
    ReadBytes(rest, script);
  }

  lemma CorruptStays(parse: Parser, next: seq<byte>, more: seq<byte>)
    requires Drain(parse, next) == Corrupt
    ensures Drain(parse, next + more) == Corrupt && GoodLen(parse, next + more) == GoodLen(parse, next)
  {
    DrainInTwoSteps(parse, next, more);
    GoodLenInTwoSteps(parse, next, more);
  }

  lemma NoReadYet(parse: Parser, rest: seq<byte>, script: seq<ReadEvent>)
    requires ReadHead(parse, rest) == Partial
    ensures ArrivedBy(parse, rest, script, 0) <==> |rest| >= GoodLen(parse, rest + BytesOf(script))
  {
    assert script[..0] == [] && rest + [] == rest;
  }

  /** The read that uncovers the corruption: nothing is lost exactly if it completes no frame. */
  lemma LostAtOnce(parse: Parser, rest: seq<byte>, script: seq<ReadEvent>)
    requires ReadHead(parse, rest) == Partial && script != []
    requires Drain(parse, rest + ChunkOf(script[0])) == Corrupt
    ensures GoodFrames(parse, rest + ChunkOf(script[0])) == [] <==> exists n: nat :: ArrivedBy(parse, rest, script, n)
  {
    var next := rest + ChunkOf(script[0]);
    FirstRead(rest, script, 1);
    CorruptStays(parse, next, BytesOf(script[1..]));
    NoGoodFrames(parse, next);
    PartialIsShorter(parse, rest, ChunkOf(script[0]));
    NoReadYet(parse, rest, script);
    forall n | 0 < n <= |script| ensures !ArrivedBy(parse, rest, script, n) {
      FirstRead(rest, script, n);
      CorruptStays(parse, next, BytesOf(script[1..][..n - 1]));
    }
  }

  /** A read that leaves the stream sound only moves the question on. */
  lemma ArrivedLater(parse: Parser, rest: seq<byte>, script: seq<ReadEvent>, n: nat)
    requires script != [] && n <= |script| - 1 && Drain(parse, rest + ChunkOf(script[0])).Drained?
    ensures ArrivedBy(parse, rest, script, n + 1)
       <==> ArrivedBy(parse, Drain(parse, rest + ChunkOf(script[0])).rest, script[1..], n)
  {
    var next := rest + ChunkOf(script[0]);
    FirstRead(rest, script, n + 1);
    GoodLenInTwoSteps(parse, next, BytesOf(script[1..]));
    GoodLenInTwoSteps(parse, next, BytesOf(script[1..][..n]));
    DrainInTwoSteps(parse, next, BytesOf(script[1..][..n]));
  }

  lemma ArrivedInOne(parse: Parser, rest: seq<byte>, script: seq<ReadEvent>)
    requires script != [] && Drain(parse, rest + ChunkOf(script[0])).Drained? && ArrivedBy(parse, rest, script, 0)
    ensures ArrivedBy(parse, rest, script, 1)
  {
    FirstRead(rest, script, 1);
    assert BytesOf(script[1..][..0]) == [];
    assert (rest + ChunkOf(script[0])) + [] == rest + ChunkOf(script[0]);
    assert rest + BytesOf(script[..0]) == rest;
  }

  lemma LostFromRest(parse: Parser, next: seq<byte>, script: seq<ReadEvent>)
    requires Drain(parse, next).Drained?
    ensures Lost(parse, next, script) == Lost(parse, Drain(parse, next).rest, script)
  {
    RestIsPartial(parse, next);
  }

  lemma {:induction false} NothingLost(parse: Parser, rest: seq<byte>, script: seq<ReadEvent>)
    requires ReadHead(parse, rest) == Partial && NoIoError(script)
    ensures Lost(parse, rest, script) == [] <==> exists n: nat :: ArrivedBy(parse, rest, script, n)
    decreases |script|
  {
    NoReadYet(parse, rest, script);
    if script == [] {
      assert rest + [] == rest;
      assert ArrivedBy(parse, rest, script, 0);
    } else {
      var next, more := rest + ChunkOf(script[0]), script[1..];
      ReadStep(parse, rest, script);
      if Drain(parse, next) == Corrupt {
        LostAtOnce(parse, rest, script);
      } else {
        var rest' := Drain(parse, next).rest;
        RestIsPartial(parse, next);
        LostFromRest(parse, next, more);
        NothingLost(parse, rest', more);
        MovedOn(parse, rest, script);
      }
    }
  }

  lemma MovedOn(parse: Parser, rest: seq<byte>, script: seq<ReadEvent>)
    requires script != [] && Drain(parse, rest + ChunkOf(script[0])).Drained?
    ensures (exists n: nat :: ArrivedBy(parse, rest, script, n))
       <==> exists n: nat :: ArrivedBy(parse, Drain(parse, rest + ChunkOf(script[0])).rest, script[1..], n)
  {
    var rest' := Drain(parse, rest + ChunkOf(script[0])).rest;
    if n: nat :| ArrivedBy(parse, rest, script, n) {
      if n == 0 { ArrivedInOne(parse, rest, script); }
      ArrivedLater(parse, rest, script, if n == 0 then 0 else n - 1);
      assert ArrivedBy(parse, rest', script[1..], if n == 0 then 0 else n - 1);
    }
    if n: nat :| ArrivedBy(parse, rest', script[1..], n) {
      ArrivedLater(parse, rest, script, n);
      assert ArrivedBy(parse, rest, script, n + 1);
    }
  }

  /** These reads bring all bytes of the good frames, and nothing corrupt. */
  ghost predicate ReadsSuffice(parse: Parser, script: seq<ReadEvent>, n: nat) {
    && n <= |script|
    && |BytesOf(script[..n])| >= GoodLen(parse, BytesOf(script))
    && Drain(parse, BytesOf(script[..n])) != Corrupt
  }

  lemma SufficeFromNothing(parse: Parser, script: seq<ReadEvent>, n: nat)
    ensures ReadsSuffice(parse, script, n) <==> ArrivedBy(parse, [], script, n)
  {
    assert [] + BytesOf(script) == BytesOf(script);
    if n <= |script| { assert [] + BytesOf(script[..n]) == BytesOf(script[..n]); }
  }

  /** What arrives of a stream that turns corrupt, told from the cut alone: its good frames all
      arrive if and only if some number of reads brings all their bytes and nothing corrupt. */
  lemma CorruptStreamLosesOneRead(parse: Parser, script: seq<ReadEvent>)
    requires NoIoError(script)
    ensures Deliver(parse, [], script).frames <= GoodFrames(parse, BytesOf(script))
    ensures Deliver(parse, [], script).frames == GoodFrames(parse, BytesOf(script))
       <==> exists n: nat :: ReadsSuffice(parse, script, n)
  {
    DeliveryAccounts(parse, [], script);
    NothingLost(parse, [], script);
    assert [] + BytesOf(script) == BytesOf(script);
    forall n: nat ensures ReadsSuffice(parse, script, n) <==> ArrivedBy(parse, [], script, n) {
      SufficeFromNothing(parse, script, n);
    }
  }

  // ---- A corrupt stream whose outcome depends on the cut ----

  function ParseOneByte(b: seq<byte>): Option<OrchdFrame> { if |b| == 1 then Some(b[0]) else None }

  const GOOD: seq<byte> := [1, 0, 0, 0, 7]
  const OVERSIZED: seq<byte> := [0, 0, 0, 255]

  lemma CorruptDrains()
    ensures Drain(ParseOneByte, []) == Drained([], [])
    ensures Drain(ParseOneByte, GOOD) == Drained([7], [])
    ensures Drain(ParseOneByte, OVERSIZED) == Corrupt
    ensures Drain(ParseOneByte, GOOD + OVERSIZED) == Corrupt
  {
  }

  lemma ReadOversized()
    ensures Deliver(ParseOneByte, GOOD, [Bytes(OVERSIZED)]) == Delivery([7], true)
  {
    CorruptDrains();
    var script := [Bytes(OVERSIZED)];
    assert script[1..] == [] && [] + OVERSIZED == OVERSIZED;
    assert Deliver(ParseOneByte, OVERSIZED, script[1..]) == Delivery([], true);
  }

  lemma TwoReads()
    ensures BytesOf([Bytes(GOOD), Bytes(OVERSIZED)]) == GOOD + OVERSIZED
    ensures Deliver(ParseOneByte, [], [Bytes(GOOD), Bytes(OVERSIZED)]) == Delivery([7], true)
  {
    CorruptDrains();
    ReadOversized();
    var script := [Bytes(GOOD), Bytes(OVERSIZED)];
    assert script[1..] == [Bytes(OVERSIZED)] && script[1..][1..] == [];
    assert [] + GOOD == GOOD && OVERSIZED + [] == OVERSIZED;
    assert BytesOf(script[1..]) == OVERSIZED;
    assert DeliverAfterRead(ParseOneByte, [], script) == Delivery([7], true);
  }

  lemma OneRead()
    ensures BytesOf([Bytes(GOOD + OVERSIZED)]) == GOOD + OVERSIZED
    ensures Deliver(ParseOneByte, [], [Bytes(GOOD + OVERSIZED)]) == Delivery([], true)
  {
    CorruptDrains();
    var script := [Bytes(GOOD + OVERSIZED)];
    assert script[1..] == [];
    assert [] + (GOOD + OVERSIZED) == GOOD + OVERSIZED;
    assert BytesOf(script) == (GOOD + OVERSIZED) + BytesOf([]);
    assert Deliver(ParseOneByte, GOOD + OVERSIZED, []) == Delivery([], true);
    assert DeliverAfterRead(ParseOneByte, [], script) == Delivery([], true);
  }

  /** The same corrupt bytes deliver their one good frame when it comes in a read of its own, and
      deliver nothing when it shares a read with the corrupt prefix. */
  lemma CutDecidesOnCorruptStream()
    ensures BytesOf([Bytes(GOOD), Bytes(OVERSIZED)]) == BytesOf([Bytes(GOOD + OVERSIZED)])
    ensures Deliver(ParseOneByte, [], [Bytes(GOOD), Bytes(OVERSIZED)]) == Delivery([7], true)
    ensures Deliver(ParseOneByte, [], [Bytes(GOOD + OVERSIZED)]) == Delivery([], true)
  {
    TwoReads();
    OneRead();
  }
}
