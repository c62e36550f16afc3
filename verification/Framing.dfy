/** Docker's multiplexed stream framing (`satl-api/src/framing.rs`): every
    payload travels as frames of an 8-byte header and at most u32::MAX bytes.
    The partner of the encoder is a client's incremental decoder for the stream
    format of the ContainerAttach operation in Docker Engine API v1.43. */
module Framing {
  import opened ByteStrings

  const HEADER_LEN: nat := 8
  const MAX: nat := 0xFFFF_FFFF

  datatype LogStream = Stdout | Stderr {
    function AsByte(): Byte { if Stdout? then 1 else 2 }
  }

  datatype Frame = Frame(stream: LogStream, data: Bytes)

  /** `put_u32`. */
  function BigEndian(n: nat): Bytes
    requires n <= MAX
  {
    [n / 0x100_0000, n / 0x1_0000 % 256, n / 256 % 256, n % 256]
  }

  function Header(stream: LogStream, length: nat): Bytes
    requires length <= MAX
  {
    [stream.AsByte(), 0, 0, 0] + BigEndian(length)
  }

  function FrameBytes(f: Frame): Bytes
    requires |f.data| <= MAX
  {
    Header(f.stream, |f.data|) + f.data
  }

  ghost predicate Fits(frames: seq<Frame>)
  {
    forall f | f in frames :: |f.data| <= MAX
  }

  function Wire(frames: seq<Frame>): Bytes
    requires Fits(frames)
  {
    if frames == [] then [] else FrameBytes(frames[0]) + Wire(frames[1..])
  }

  /** The frames of one payload: an empty payload still has one. */
  function Split(stream: LogStream, payload: Bytes): (frames: seq<Frame>)
    ensures Fits(frames)
    decreases |payload|
  {
    if |payload| <= MAX then [Frame(stream, payload)]
    else [Frame(stream, payload[..MAX])] + Split(stream, payload[MAX..])
  }

  /** `encode`: frame one payload. */
  method Encode(stream: LogStream, payload: Bytes) returns (out: Bytes)
    ensures out == Wire(Split(stream, payload))
  {
    out := [];
    var rest := payload;
    ghost var done: seq<Frame> := [];
    while true
      invariant Fits(done) && out == Wire(done)
      invariant done + Split(stream, rest) == Split(stream, payload)
      decreases |rest|
    {
      var take := if |rest| <= MAX then |rest| else MAX;
      ghost var was := out;
      out := out + [stream.AsByte()];
      out := out + [0, 0, 0];
      out := out + BigEndian(take);
      out := out + rest[..take];
      ghost var f := Frame(stream, rest[..take]);
      Assembled(was, f);
      WireAppend(done, f);
      SplitStep(stream, rest, done);
      done := done + [f];
      rest := rest[take..];
      if rest == [] { break; }
    }
  }

  /** The four pieces of a frame, appended one after the other. */
  lemma Assembled(out: Bytes, f: Frame)
    requires |f.data| <= MAX
    ensures out + [f.stream.AsByte()] + [0, 0, 0] + BigEndian(|f.data|) + f.data == out + FrameBytes(f)
  {
    var first: Bytes, pad: Bytes, length := [f.stream.AsByte()], [0, 0, 0], BigEndian(|f.data|);
    assert first + pad + length == Header(f.stream, |f.data|);
    Regroup(out, first, pad, length, f.data);
  }

  lemma Regroup<T>(out: seq<T>, a: seq<T>, b: seq<T>, c: seq<T>, d: seq<T>)
    ensures out + a + b + c + d == out + ((a + b + c) + d)
  {
  }

  /** One turn of the loop moves one frame from the front of the rest. */
  lemma SplitStep(stream: LogStream, rest: Bytes, done: seq<Frame>)
    ensures var take := if |rest| <= MAX then |rest| else MAX;
            var f := Frame(stream, rest[..take]);
            && (|rest| <= MAX ==> done + Split(stream, rest) == done + [f])
            && (|rest| > MAX ==> done + Split(stream, rest) == done + [f] + Split(stream, rest[take..]))
  {
    if |rest| <= MAX {
      assert rest[..|rest|] == rest;
    } else {
      Associates(done, [Frame(stream, rest[..MAX])], Split(stream, rest[MAX..]));
    }
  }

  lemma Associates<T>(a: seq<T>, b: seq<T>, c: seq<T>)
    ensures a + b + c == a + (b + c)
  {
  }

  lemma {:induction false} WireAppend(frames: seq<Frame>, f: Frame)
    requires Fits(frames) && |f.data| <= MAX
    ensures Fits(frames + [f]) && Wire(frames + [f]) == Wire(frames) + FrameBytes(f)
    decreases |frames|
  {
    if frames == [] {
      assert (frames + [f])[1..] == [];
    } else {
      assert (frames + [f])[0] == frames[0] && (frames + [f])[1..] == frames[1..] + [f];
      WireAppend(frames[1..], f);
      Associates(FrameBytes(frames[0]), Wire(frames[1..]), FrameBytes(f));
    }
  }

  lemma {:induction false} WireConcat(a: seq<Frame>, b: seq<Frame>)
    requires Fits(a) && Fits(b)
    ensures Fits(a + b) && Wire(a + b) == Wire(a) + Wire(b)
    decreases |a|
  {
    if a == [] {
      assert a + b == b;
    } else {
      assert (a + b)[0] == a[0] && (a + b)[1..] == a[1..] + b;
      WireConcat(a[1..], b);
      Associates(FrameBytes(a[0]), Wire(a[1..]), Wire(b));
    }
  }

  // ---- The decoder ---------------------------------------------------------

  function ReadLength(header: Bytes): nat
    requires |header| >= HEADER_LEN
  {
    header[4] as int * 0x100_0000 + header[5] as int * 0x1_0000 + header[6] as int * 256 + header[7]
  }

  predicate HeaderOk(buffer: Bytes)
  {
    && |buffer| >= HEADER_LEN
    && (buffer[0] == 1 || buffer[0] == 2) && buffer[1] == 0 && buffer[2] == 0 && buffer[3] == 0
  }

  /** A whole frame stands at the front of the buffer. */
  predicate FrameReady(buffer: Bytes)
  {
    HeaderOk(buffer) && |buffer| >= HEADER_LEN + ReadLength(buffer)
  }

  function FrontFrame(buffer: Bytes): Frame
    requires FrameReady(buffer)
  {
    Frame(if buffer[0] == 1 then Stdout else Stderr, buffer[HEADER_LEN..HEADER_LEN + ReadLength(buffer)])
  }

  /** What a client has decoded, and the bytes it still holds. */
  datatype Decoded = Decoded(frames: seq<Frame>, held: Bytes)

  /** Take every whole frame off the front of a buffer. */
  function Drain(buffer: Bytes): Decoded
    decreases |buffer|
  {
    if !FrameReady(buffer) then Decoded([], buffer)
    else
      var rest := Drain(buffer[HEADER_LEN + ReadLength(buffer)..]);
      Decoded([FrontFrame(buffer)] + rest.frames, rest.held)
  }

  function Feed(d: Decoded, chunk: Bytes): Decoded
  {
    var more := Drain(d.held + chunk);
    Decoded(d.frames + more.frames, more.held)
  }

  function FeedAll(d: Decoded, chunks: seq<Bytes>): Decoded
    decreases |chunks|
  {
    if chunks == [] then d else FeedAll(Feed(d, chunks[0]), chunks[1..])
  }

  function Flatten(chunks: seq<Bytes>): Bytes
  {
    if chunks == [] then [] else chunks[0] + Flatten(chunks[1..])
  }

  // ---- Decoding undoes encoding --------------------------------------------

  lemma LengthRoundTrip(stream: LogStream, n: nat, tail: Bytes)
    requires n <= MAX
    ensures var b := Header(stream, n) + tail; HeaderOk(b) && ReadLength(b) == n
  {
    BigEndianSum(n);
  }

  lemma BigEndianSum(n: nat)
    requires n <= MAX
    ensures n / 0x100_0000 * 0x100_0000 + n / 0x1_0000 % 256 * 0x1_0000 + n / 256 % 256 * 256 + n % 256 == n
  {
    var a := n / 256;
    var b := n / 0x1_0000;
    assert a / 256 == b && b / 256 == n / 0x100_0000;
  }

  /** One frame, then anything. */
  lemma DrainFrame(f: Frame, tail: Bytes)
    requires |f.data| <= MAX
    ensures var rest := Drain(tail);
            Drain(FrameBytes(f) + tail) == Decoded([f] + rest.frames, rest.held)
  {
    var b := FrameBytes(f) + tail;
    LengthRoundTrip(f.stream, |f.data|, f.data + tail);
    Cut(Header(f.stream, |f.data|), f.data, tail);
    assert FrontFrame(b) == f;
  }

  lemma Cut<T>(a: seq<T>, b: seq<T>, c: seq<T>)
    ensures a + b + c == a + (b + c)
    ensures (a + b + c)[|a|..|a| + |b|] == b && (a + b + c)[|a| + |b|..] == c
  {
  }

  lemma {:induction false} DrainWire(frames: seq<Frame>)
    requires Fits(frames)
    ensures Drain(Wire(frames)) == Decoded(frames, [])
    decreases |frames|
  {
    if frames != [] {
      DrainWire(frames[1..]);
      DrainFrame(frames[0], Wire(frames[1..]));
    }
  }

  lemma StillReady(a: Bytes, b: Bytes)
    requires FrameReady(a)
    ensures FrameReady(a + b) && ReadLength(a + b) == ReadLength(a) && FrontFrame(a + b) == FrontFrame(a)
    ensures var n := HEADER_LEN + ReadLength(a); (a + b)[n..] == a[n..] + b
  {
  }

  /** Bytes that arrive later do not change the frames already taken. */
  lemma {:induction false} DrainInTwo(a: Bytes, b: Bytes)
    ensures var first := Drain(a);
            var second := Drain(first.held + b);
            Drain(a + b) == Decoded(first.frames + second.frames, second.held)
    decreases |a|
  {
    if FrameReady(a) {
      var n := HEADER_LEN + ReadLength(a);
      StillReady(a, b);
      DrainInTwo(a[n..], b);
      var first, tail := Drain(a), Drain(a[n..]);
      var second := Drain(tail.held + b);
      Associates([FrontFrame(a)], tail.frames, second.frames);
    } else {
      assert Drain(a).frames + Drain(a + b).frames == Drain(a + b).frames;
    }
  }

  /** However the stream is cut into chunks, the client ends with the same. */
  lemma {:induction false} ChunksDoNotMatter(d: Decoded, chunks: seq<Bytes>)
    ensures var all := Drain(d.held + Flatten(chunks));
            d.held == Drain(d.held).held && Drain(d.held).frames == [] ==>
              FeedAll(d, chunks) == Decoded(d.frames + all.frames, all.held)
    decreases |chunks|
  {
    if d.held == Drain(d.held).held && Drain(d.held).frames == [] {
      if chunks == [] {
        assert d.held + Flatten(chunks) == d.held;
        assert d.frames + [] == d.frames;
      } else {
        var first := Feed(d, chunks[0]);
        var more := Drain(d.held + chunks[0]);
        HeldIsIncomplete(d.held + chunks[0]);
        ChunksDoNotMatter(first, chunks[1..]);
        DrainInTwo(d.held + chunks[0], Flatten(chunks[1..]));
        Associates(d.held, chunks[0], Flatten(chunks[1..]));
        var rest := Drain(more.held + Flatten(chunks[1..]));
        Associates(d.frames, more.frames, rest.frames);
      }
    }
  }

  lemma {:induction false} HeldIsIncomplete(buffer: Bytes)
    ensures var d := Drain(buffer); Drain(d.held) == Decoded([], d.held)
    decreases |buffer|
  {
    if FrameReady(buffer) {
      HeldIsIncomplete(buffer[HEADER_LEN + ReadLength(buffer)..]);
    }
  }

  // ---- A sequence of writes ------------------------------------------------

  datatype Write = Write(stream: LogStream, payload: Bytes)

  function AllFrames(writes: seq<Write>): (frames: seq<Frame>)
    ensures Fits(frames)
  {
    if writes == [] then [] else Split(writes[0].stream, writes[0].payload) + AllFrames(writes[1..])
  }

  /** The bytes sent for a sequence of writes, one `encode` after another. */
  function Sent(writes: seq<Write>): Bytes
  {
    if writes == [] then [] else Wire(Split(writes[0].stream, writes[0].payload)) + Sent(writes[1..])
  }

  /** The bytes of one stream, in order. */
  function OfStream(frames: seq<Frame>, stream: LogStream): Bytes
  {
    if frames == [] then []
    else (if frames[0].stream == stream then frames[0].data else []) + OfStream(frames[1..], stream)
  }

  function WrittenTo(writes: seq<Write>, stream: LogStream): Bytes
  {
    if writes == [] then []
    else (if writes[0].stream == stream then writes[0].payload else []) + WrittenTo(writes[1..], stream)
  }

  lemma {:induction false} SentIsWire(writes: seq<Write>)
    ensures Sent(writes) == Wire(AllFrames(writes))
    decreases |writes|
  {
    if writes != [] {
      SentIsWire(writes[1..]);
      WireConcat(Split(writes[0].stream, writes[0].payload), AllFrames(writes[1..]));
    }
  }

  lemma {:induction false} OfStreamConcat(a: seq<Frame>, b: seq<Frame>, stream: LogStream)
    ensures OfStream(a + b, stream) == OfStream(a, stream) + OfStream(b, stream)
    decreases |a|
  {
    if a == [] {
      assert a + b == b;
    } else {
      assert (a + b)[0] == a[0] && (a + b)[1..] == a[1..] + b;
      OfStreamConcat(a[1..], b, stream);
    }
  }

  lemma {:induction false} SplitKeepsPayload(stream: LogStream, payload: Bytes, other: LogStream)
    ensures OfStream(Split(stream, payload), other) == if other == stream then payload else []
    decreases |payload|
  {
    if |payload| <= MAX {
      assert Split(stream, payload)[1..] == [];
    } else {
      assert Split(stream, payload)[1..] == Split(stream, payload[MAX..]);
      SplitKeepsPayload(stream, payload[MAX..], other);
      assert payload[..MAX] + payload[MAX..] == payload;
    }
  }

  lemma {:induction false} StreamsKept(writes: seq<Write>, stream: LogStream)
    ensures OfStream(AllFrames(writes), stream) == WrittenTo(writes, stream)
    decreases |writes|
  {
    if writes != [] {
      var first := Split(writes[0].stream, writes[0].payload);
      StreamsKept(writes[1..], stream);
      SplitKeepsPayload(writes[0].stream, writes[0].payload, stream);
      OfStreamConcat(first, AllFrames(writes[1..]), stream);
    }
  }

  /** For any writes and any cutting of what was sent into chunks, the client
      gets back every frame in the order written, nothing is left over, and each
      stream's bytes are exactly those written to it. */
  lemma StreamsRoundTrip(writes: seq<Write>, chunks: seq<Bytes>)
    requires Flatten(chunks) == Sent(writes)
    ensures var d := FeedAll(Decoded([], []), chunks);
            && d.frames == AllFrames(writes) && d.held == []
            && OfStream(d.frames, Stdout) == WrittenTo(writes, Stdout)
            && OfStream(d.frames, Stderr) == WrittenTo(writes, Stderr)
  {
    ChunksDoNotMatter(Decoded([], []), chunks);
    assert [] + Flatten(chunks) == Flatten(chunks);
    SentIsWire(writes);
    DrainWire(AllFrames(writes));
    assert [] + AllFrames(writes) == AllFrames(writes);
    StreamsKept(writes, Stdout);
    StreamsKept(writes, Stderr);
  }

  /** A payload of n bytes takes max(1, ceil(n / MAX)) frames, all of its
      stream, all full but the last. */
  lemma {:induction false} FrameCount(stream: LogStream, payload: Bytes)
    ensures var frames := Split(stream, payload);
            && |frames| == (if payload == [] then 1 else (|payload| + 0xFFFF_FFFF - 1) / 0xFFFF_FFFF)
            && (forall f | f in frames :: f.stream == stream)
            && (forall i :: 0 <= i < |frames| - 1 ==> |frames[i].data| == 0xFFFF_FFFF)
    decreases |payload|
  {
    if |payload| > MAX {
      FrameCount(stream, payload[MAX..]);
      assert (|payload| + MAX - 1) / MAX == (|payload[MAX..]| + MAX - 1) / MAX + 1;
    }
  }

  /** On the wire a frame is the stream's number, 1 for stdout and 2 for stderr,
      three zeros, its length with the most significant byte first, and its data. */
  lemma FrameOnTheWire(f: Frame)
    requires |f.data| <= MAX
    ensures var b := FrameBytes(f);
            && |b| == 8 + |f.data| && b[8..] == f.data
            && b[0] == (match f.stream case Stdout => 1 case Stderr => 2) && b[1] == b[2] == b[3] == 0
            && b[4] as int * 0x100_0000 + b[5] as int * 0x1_0000 + b[6] as int * 0x100 + b[7] as int == |f.data|
  {
    LengthRoundTrip(f.stream, |f.data|, f.data);
  }

  // ---- Log frames ----------------------------------------------------------

  const SPACE: Byte := 0x20

  /** `encode_log_frame`, the RFC 3339 stamp given. */
  method EncodeLogFrame(stream: LogStream, data: Bytes, stamp: Bytes, timestamps: bool) returns (out: Bytes)
    ensures out == Sent([Write(stream, if timestamps then stamp + [SPACE] + data else data)])
  {
    var payload := if timestamps then stamp + [SPACE] + data else data;
    out := Encode(stream, payload);
    assert [Write(stream, payload)][1..] == [];
  }
}
