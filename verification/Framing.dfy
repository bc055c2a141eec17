/** Length-prefixed frames over a byte stream that may split them anywhere. */
module Framing {
  import opened Wrappers
  import opened Utf8

  const LENGTH_PREFIX_SIZE := 4

  /** Messages are abstract: a codec turns one into payload bytes and back, or rejects the bytes. */
  datatype Codec<!M> = Codec(serialize: M -> Bytes, parse: Bytes -> Option<M>)

  ghost predicate RoundTrips<M(!new)>(c: Codec<M>) {
    forall m: M :: c.parse(c.serialize(m)) == Some(m)
  }

  datatype Failure =
    | FrameTooLarge(size: nat, maximum: int)
    | TruncatedFrame(expected: nat, received: nat)
    | TrailingFrameData(trailing: nat)
    | ProtocolMessage          // the payload is no message
    | LengthOverflow           // the length does not fit four bytes

  datatype Outcome<+T> = Good(value: T) | Bad(failure: Failure)

  function BigEndian4(n: nat): (b: Bytes)
    requires n < 0x1_0000_0000
    ensures |b| == 4
  {
    [n / 0x100_0000, n / 0x1_0000 % 0x100, n / 0x100 % 0x100, n % 0x100]
  }

  function FromBigEndian(b: Bytes): nat
    requires |b| == 4
  {
    var b0: int, b1: int, b2: int, b3: int := b[0], b[1], b[2], b[3];
    ((b0 * 0x100 + b1) * 0x100 + b2) * 0x100 + b3
  }

  lemma BigEndianInverse(n: nat)
    requires n < 0x1_0000_0000
    ensures FromBigEndian(BigEndian4(n)) == n
  {
    var high, middle := n / 0x1_0000, n / 0x100;
    assert n / 0x100_0000 == high / 0x100 && middle / 0x100 == high;
    assert high == high / 0x100 * 0x100 + high % 0x100;
    assert middle == high * 0x100 + middle % 0x100;
    assert n == middle * 0x100 + n % 0x100;
  }

  function EncodeFrame<M>(c: Codec<M>, m: M, max: int): Outcome<Bytes> {
    var payload := c.serialize(m);
    if |payload| > max then Bad(FrameTooLarge(|payload|, max))
    else if |payload| >= 0x1_0000_0000 then Bad(LengthOverflow)
    else Good(BigEndian4(|payload|) + payload)
  }

  /** Exactly one frame in memory. */
  function DecodeFrame<M>(c: Codec<M>, frame: Bytes, max: int): Outcome<M> {
    if |frame| < 4 then Bad(TruncatedFrame(4, |frame|))
    else
      var size := FromBigEndian(frame[..4]);
      if size > max then Bad(FrameTooLarge(size, max))
      else if |frame| < 4 + size then Bad(TruncatedFrame(4 + size, |frame|))
      else if |frame| > 4 + size then Bad(TrailingFrameData(|frame| - (4 + size)))
      else match c.parse(frame[4..]) case Some(m) => Good(m) case None => Bad(ProtocolMessage)
  }

  /** Encoding succeeds exactly when the payload is within the maximum and its length fits four bytes. */
  lemma EncodeExact<M>(c: Codec<M>, m: M, max: int)
    ensures var size := |c.serialize(m)|;
            match EncodeFrame(c, m, max)
            case Good(frame) => size <= max && size < 0x1_0000_0000 && frame == BigEndian4(size) + c.serialize(m)
            case Bad(f) => if size > max then f == FrameTooLarge(size, max) else size >= 0x1_0000_0000 && f == LengthOverflow
  {}

  /** Decoding succeeds exactly on one whole frame within the maximum whose payload is a message. */
  lemma DecodeExact<M>(c: Codec<M>, frame: Bytes, max: int, m: M)
    ensures DecodeFrame(c, frame, max) == Good(m) <==>
              |frame| >= 4 && FromBigEndian(frame[..4]) == |frame| - 4 <= max && c.parse(frame[4..]) == Some(m)
    ensures var f := DecodeFrame(c, frame, max);
            && (f.Bad? && f.failure.TruncatedFrame? ==> |frame| < f.failure.expected && f.failure.received == |frame|)
            && (f.Bad? && f.failure.TrailingFrameData? ==> |frame| > 4 && f.failure.trailing == |frame| - 4 - FromBigEndian(frame[..4]))
            && (f.Bad? && f.failure.FrameTooLarge? ==> |frame| >= 4 && f.failure.size == FromBigEndian(frame[..4]) > max)
  {
    hide FromBigEndian;
  }

  // ---- Draining a buffer ----

  /** What one call takes out of the buffer: the messages, then what is left; or the error that ended
      the call, with the buffer it left. Messages decoded before an error are lost with it. */
  datatype Drained<+M> = Drained(messages: seq<M>, left: Bytes) | Failed(failure: Failure, left: Bytes)

  function Drain<M>(c: Codec<M>, buffer: Bytes, max: int): Drained<M>
    decreases |buffer|
  {
    if |buffer| < 4 then Drained([], buffer)
    else
      var size := FromBigEndian(buffer[..4]);
      if size > max then Failed(FrameTooLarge(size, max), [])
      else if |buffer| < 4 + size then Drained([], buffer)
      else match c.parse(buffer[4..4 + size])
        case None => Failed(ProtocolMessage, buffer[4 + size..])
        case Some(m) => After([m], Drain(c, buffer[4 + size..], max))
  }

  /** `d` with messages decoded before it; an error forgets them. */
  function After<M>(ms: seq<M>, d: Drained<M>): Drained<M> {
    match d
    case Drained(ms', left) => Drained(ms + ms', left)
    case Failed(f, left) => Failed(f, left)
  }

  lemma AfterTwice<M>(a: seq<M>, b: seq<M>, d: Drained<M>)
    ensures After(a, After(b, d)) == After(a + b, d)
  {
    if d.Drained? { assert a + (b + d.messages) == a + b + d.messages; }
  }

  /** The buffer starts with a complete frame, or with one that is too large. */
  predicate HoldsFrame(buffer: Bytes, max: int) {
    |buffer| >= 4 && (FromBigEndian(buffer[..4]) > max || |buffer| >= 4 + FromBigEndian(buffer[..4]))
  }

  /** `finish` on a leftover buffer. */
  function Finish(buffer: Bytes): Option<Failure> {
    if buffer == [] then None
    else Some(TruncatedFrame(if |buffer| >= 4 then 4 + FromBigEndian(buffer[..4]) else 4, |buffer|))
  }

  class FrameDecoder<M> {
    const codec: Codec<M>
    const maxMessageSize: int
    var buffer: Bytes

    constructor (codec: Codec<M>, maxMessageSize: int)
      ensures this.codec == codec && this.maxMessageSize == maxMessageSize && buffer == []
    {
      this.codec, this.maxMessageSize, buffer := codec, maxMessageSize, [];
    }

    method Feed(chunk: Bytes) returns (result: Outcome<seq<M>>)
      modifies this
      ensures match Drain(codec, old(buffer) + chunk, maxMessageSize)
              case Drained(ms, left) => result == Good(ms) && buffer == left
              case Failed(f, left) => result == Bad(f) && buffer == left
    {
      hide FromBigEndian;
      buffer := buffer + chunk;
      var messages: seq<M> := [];
      ghost var start := buffer;
      while |buffer| >= 4
        invariant Drain(codec, start, maxMessageSize) == After(messages, Drain(codec, buffer, maxMessageSize))
        decreases |buffer|
      {
        var size := FromBigEndian(buffer[..4]);
        if size > maxMessageSize {
          buffer := [];
          return Bad(FrameTooLarge(size, maxMessageSize));
        }
        var frameSize := 4 + size;
        if |buffer| < frameSize { break; }
        var frame := buffer[..frameSize];
        assert frame[..4] == buffer[..4] && frame[4..] == buffer[4..frameSize];
        buffer := buffer[frameSize..];
        match DecodeFrame(codec, frame, maxMessageSize) {
          case Bad(f) => return Bad(f);
          case Good(m) =>
            AfterTwice(messages, [m], Drain(codec, buffer, maxMessageSize));
            messages := messages + [m];
        }
      }
      assert messages + [] == messages;
      return Good(messages);
    }

    method FinishStream() returns (failure: Option<Failure>)
      modifies this
      ensures failure == Finish(old(buffer)) && buffer == []
    {
      failure := Finish(buffer);
      buffer := [];
    }
  }

  // ---- Chunking does not matter ----

  /** What was left over before is completed by what comes next. */
  lemma {:induction false} DrainMore<M>(c: Codec<M>, buffer: Bytes, more: Bytes, max: int)
    requires Drain(c, buffer, max).Drained?
    ensures var d := Drain(c, buffer, max);
            Drain(c, buffer + more, max) == After(d.messages, Drain(c, d.left + more, max))
    decreases |buffer|
  {
    hide FromBigEndian;
    var d := Drain(c, buffer, max);
    if !HoldsFrame(buffer, max) {
      assert d == Drained([], buffer);
      if Drain(c, buffer + more, max).Drained? {
        assert d.messages + Drain(c, buffer + more, max).messages == Drain(c, buffer + more, max).messages;
      }
    } else {
      var size := FromBigEndian(buffer[..4]);
      var m := c.parse(buffer[4..4 + size]).value;
      var rest := buffer[4 + size..];
      HeadMore(c, buffer, more, max);
      DrainMore(c, rest, more, max);
      AfterTwice([m], Drain(c, rest, max).messages, Drain(c, d.left + more, max));
    }
  }

  lemma HeadMore<M>(c: Codec<M>, buffer: Bytes, more: Bytes, max: int)
    requires HoldsFrame(buffer, max) && Drain(c, buffer, max).Drained?
    ensures var size := FromBigEndian(buffer[..4]);
            && c.parse(buffer[4..4 + size]).Some?
            && Drain(c, buffer, max) == After([c.parse(buffer[4..4 + size]).value], Drain(c, buffer[4 + size..], max))
            && Drain(c, buffer + more, max) == After([c.parse(buffer[4..4 + size]).value], Drain(c, buffer[4 + size..] + more, max))
  {
    hide FromBigEndian;
    var size := FromBigEndian(buffer[..4]);
    var all := buffer + more;
    assert all[..4] == buffer[..4] && all[4..4 + size] == buffer[4..4 + size];
    assert all[4 + size..] == buffer[4 + size..] + more;
  }

  function Join(chunks: seq<Bytes>): Bytes {
    if chunks == [] then [] else chunks[0] + Join(chunks[1..])
  }

  /** What a receiver got by feeding chunk after chunk: the messages of the calls that returned, the buffer,
      and the error that ended it, if one did. */
  datatype Delivery<+M> = Delivery(messages: seq<M>, left: Bytes, failure: Option<Failure>)

  function FeedAll<M>(c: Codec<M>, buffer: Bytes, chunks: seq<Bytes>, max: int): Delivery<M>
    decreases chunks
  {
    if chunks == [] then Delivery([], buffer, None)
    else match Drain(c, buffer + chunks[0], max)
      case Failed(f, left) => Delivery([], left, Some(f))
      case Drained(ms, left) => var rest := FeedAll(c, left, chunks[1..], max); rest.(messages := ms + rest.messages)
  }

  /** Feeding delivers exactly the drain of the chunks before the call that fails; without a failing call,
      of all chunks. That call fails, with the error and the buffer of the drain of the chunks up to it. */
  lemma {:induction false} DeliveredExactly<M>(c: Codec<M>, buffer: Bytes, chunks: seq<Bytes>, max: int) returns (n: nat)
    requires !HoldsFrame(buffer, max)
    ensures n <= |chunks| && Drain(c, buffer + Join(chunks[..n]), max).Drained?
    ensures n == |chunks| ==>
              var d := Drain(c, buffer + Join(chunks), max);
              d.Drained? && FeedAll(c, buffer, chunks, max) == Delivery(d.messages, d.left, None)
    ensures n < |chunks| ==>
              var before, at := Drain(c, buffer + Join(chunks[..n]), max), Drain(c, buffer + Join(chunks[..n + 1]), max);
              && at.Failed? && Drain(c, buffer + Join(chunks), max).Failed?
              && Drain(c, buffer + Join(chunks), max).failure == at.failure
              && FeedAll(c, buffer, chunks, max) == Delivery(before.messages, at.left, Some(at.failure))
    decreases chunks
  {
    hide Drain, HoldsFrame;
    if chunks == [] {
      n := 0;
      assert buffer + Join(chunks) == buffer && chunks[..0] == [];
      DrainNothing(c, buffer, max);
      return;
    }
    var first := buffer + chunks[0];
    JoinFirst(buffer, chunks, |chunks|);
    assert chunks[..|chunks|] == chunks && chunks[1..][..|chunks| - 1] == chunks[1..];
    var d := Drain(c, first, max);
    if d.Failed? {
      n := 0;
      assert buffer + Join(chunks[..0]) == buffer;
      DrainNothing(c, buffer, max);
      assert chunks[..1] == [chunks[0]] && buffer + Join(chunks[..1]) == first;
      FailMore(c, first, Join(chunks[1..]), max);
    } else {
      LeftHoldsNoFrame(c, first, max);
      var k := DeliveredExactly(c, d.left, chunks[1..], max);
      n := k + 1;
      FedFirst(c, buffer, chunks, k, max);
      FedFirst(c, buffer, chunks, |chunks| - 1, max);
      if n < |chunks| { FedFirst(c, buffer, chunks, k + 1, max); }
    }
  }

  lemma DrainNothing<M>(c: Codec<M>, buffer: Bytes, max: int)
    requires !HoldsFrame(buffer, max)
    ensures Drain(c, buffer, max) == Drained([], buffer)
  {}

  lemma JoinFirst(buffer: Bytes, chunks: seq<Bytes>, k: nat)
    requires 0 < k <= |chunks|
    ensures buffer + Join(chunks[..k]) == buffer + chunks[0] + Join(chunks[1..][..k - 1])
  {
    assert chunks[..k][1..] == chunks[1..][..k - 1];
  }

  /** The first chunk fed, then k more. */
  lemma FedFirst<M>(c: Codec<M>, buffer: Bytes, chunks: seq<Bytes>, k: nat, max: int)
    requires chunks != [] && k < |chunks| && Drain(c, buffer + chunks[0], max).Drained?
    ensures var d := Drain(c, buffer + chunks[0], max);
            Drain(c, buffer + Join(chunks[..k + 1]), max)
            == After(d.messages, Drain(c, d.left + Join(chunks[1..][..k]), max))
  {
    JoinFirst(buffer, chunks, k + 1);
    DrainMore(c, buffer + chunks[0], Join(chunks[1..][..k]), max);
  }

  /** A stream that drains without error drains to the same messages and the same leftover however it
      is cut into chunks. */
  lemma ChunkingIrrelevant<M>(c: Codec<M>, buffer: Bytes, chunks: seq<Bytes>, max: int)
    requires !HoldsFrame(buffer, max)
    requires Drain(c, buffer + Join(chunks), max).Drained?
    ensures var d := Drain(c, buffer + Join(chunks), max);
            FeedAll(c, buffer, chunks, max) == Delivery(d.messages, d.left, None)
  {
    var n := DeliveredExactly(c, buffer, chunks, max);
  }

  /** More bytes do not mend a stream that has failed, nor change the error. */
  lemma {:induction false} FailMore<M>(c: Codec<M>, buffer: Bytes, more: Bytes, max: int)
    requires Drain(c, buffer, max).Failed?
    ensures Drain(c, buffer + more, max).Failed? && Drain(c, buffer + more, max).failure == Drain(c, buffer, max).failure
    decreases |buffer|
  {
    hide FromBigEndian;
    var size := FromBigEndian(buffer[..4]);
    var all := buffer + more;
    assert all[..4] == buffer[..4];
    if size <= max {
      assert all[4..4 + size] == buffer[4..4 + size];
      if c.parse(buffer[4..4 + size]).Some? {
        assert all[4 + size..] == buffer[4 + size..] + more;
        FailMore(c, buffer[4 + size..], more, max);
      }
    }
  }

  /** The leftover never holds a whole frame, and it is a suffix of the input. */
  lemma {:induction false} LeftHoldsNoFrame<M>(c: Codec<M>, buffer: Bytes, max: int)
    requires Drain(c, buffer, max).Drained?
    ensures var left := Drain(c, buffer, max).left;
            !HoldsFrame(left, max) && |left| <= |buffer| && left == buffer[|buffer| - |left|..]
    decreases |buffer|
  {
    if HoldsFrame(buffer, max) {
      LeftHoldsNoFrame(c, buffer[4 + FromBigEndian(buffer[..4])..], max);
    }
  }

  /** After any error-free call, `finish` reports exactly the truncation `decode_frame` would report. */
  lemma FinishMatchesDecode<M>(c: Codec<M>, buffer: Bytes, max: int)
    requires Drain(c, buffer, max).Drained?
    ensures var left := Drain(c, buffer, max).left;
            match Finish(left)
            case None => left == []
            case Some(f) => f.TruncatedFrame? && DecodeFrame(c, left, max) == Bad(f)
  {
    LeftHoldsNoFrame(c, buffer, max);
  }

  // ---- What draining a buffer is, in terms of single frames ----

  /** The head of the buffer cannot be decoded. */
  function BadHead<M>(c: Codec<M>, buffer: Bytes, max: int): Option<Failure>
    requires HoldsFrame(buffer, max)
  {
    var size := FromBigEndian(buffer[..4]);
    if size > max then Some(FrameTooLarge(size, max))
    else match DecodeFrame(c, buffer[..4 + size], max) case Bad(f) => Some(f) case Good(_) => None
  }

  ghost predicate Decode<M>(c: Codec<M>, frames: seq<Bytes>, ms: seq<M>, max: int) {
    |frames| == |ms| && forall i | 0 <= i < |frames| :: DecodeFrame(c, frames[i], max) == Good(ms[i])
  }

  /** Frames that decode_frame decodes one by one, and a tail that is no frame yet or a bad one: draining yields
      the messages and the tail, or the error decode_frame gives for the bad one. */
  lemma {:induction false} DrainIsDecoding<M>(c: Codec<M>, frames: seq<Bytes>, ms: seq<M>, tail: Bytes, max: int)
    requires Decode(c, frames, ms, max) && (HoldsFrame(tail, max) ==> BadHead(c, tail, max).Some?)
    ensures match Drain(c, Join(frames) + tail, max)
            case Drained(messages, left) => !HoldsFrame(tail, max) && messages == ms && left == tail
            case Failed(f, _) => HoldsFrame(tail, max) && BadHead(c, tail, max) == Some(f)
    decreases frames
  {
    if frames == [] {
      assert Join(frames) + tail == tail;
      if HoldsFrame(tail, max) { TailFails(c, tail, max); }
    } else {
      hide Drain, HoldsFrame, BadHead, DecodeFrame;
      var rest := Join(frames[1..]) + tail;
      assert Join(frames) + tail == frames[0] + rest;
      FrameFirst(c, frames[0], ms[0], rest, max);
      DrainIsDecoding(c, frames[1..], ms[1..], tail, max);
      assert [ms[0]] + ms[1..] == ms;
    }
  }

  lemma TailFails<M>(c: Codec<M>, tail: Bytes, max: int)
    requires HoldsFrame(tail, max) && BadHead(c, tail, max).Some?
    ensures Drain(c, tail, max).Failed? && Some(Drain(c, tail, max).failure) == BadHead(c, tail, max)
  {
    hide FromBigEndian;
    var size := FromBigEndian(tail[..4]);
    if size <= max { assert tail[..4 + size][..4] == tail[..4] && tail[..4 + size][4..] == tail[4..4 + size]; }
  }

  lemma FrameFirst<M>(c: Codec<M>, frame: Bytes, m: M, rest: Bytes, max: int)
    requires DecodeFrame(c, frame, max) == Good(m)
    ensures Drain(c, frame + rest, max) == After([m], Drain(c, rest, max))
  {
    hide FromBigEndian;
    var b := frame + rest;
    var size := FromBigEndian(frame[..4]);
    assert b[..4] == frame[..4] && b[4..4 + size] == frame[4..] && b[4 + size..] == rest;
  }

  /** And every buffer splits like that. */
  lemma {:induction false} EveryBufferSplits<M>(c: Codec<M>, buffer: Bytes, max: int)
    returns (frames: seq<Bytes>, ms: seq<M>, tail: Bytes)
    ensures Decode(c, frames, ms, max) && buffer == Join(frames) + tail
    ensures HoldsFrame(tail, max) ==> BadHead(c, tail, max).Some?
    decreases |buffer|
  {
    if !HoldsFrame(buffer, max) || BadHead(c, buffer, max).Some? {
      frames, ms, tail := [], [], buffer;
    } else {
      var end := 4 + FromBigEndian(buffer[..4]);
      var frame, m := buffer[..end], DecodeFrame(c, buffer[..end], max).value;
      frames, ms, tail := EveryBufferSplits(c, buffer[end..], max);
      frames, ms := [frame] + frames, [m] + ms;
      assert frames[1..] + [] == frames[1..];
      assert buffer == frame + buffer[end..];
    }
  }

  // ---- What a bad frame costs ----

  /** The messages before the first bad frame, or before the partial frame at the end. */
  function Whole<M>(c: Codec<M>, buffer: Bytes, max: int): seq<M>
    decreases |buffer|
  {
    if !HoldsFrame(buffer, max) || FromBigEndian(buffer[..4]) > max then []
    else
      var end := 4 + FromBigEndian(buffer[..4]);
      match c.parse(buffer[4..end]) case None => [] case Some(m) => [m] + Whole(c, buffer[end..], max)
  }

  /** How many bytes the first k of them take. */
  function EndOf<M>(c: Codec<M>, buffer: Bytes, max: int, k: nat): nat
    requires k <= |Whole(c, buffer, max)|
    decreases |buffer|
  {
    if k == 0 then 0
    else var end := 4 + FromBigEndian(buffer[..4]); end + EndOf(c, buffer[end..], max, k - 1)
  }

  /** How many bytes it takes to see that a failing stream's bad frame is bad: its header when it is too
      large, all of it when it is no message. */
  function MetAt<M>(c: Codec<M>, buffer: Bytes, max: int): nat
    requires Drain(c, buffer, max).Failed?
    decreases |buffer|
  {
    var size := FromBigEndian(buffer[..4]);
    if size > max then 4
    else if c.parse(buffer[4..4 + size]).None? then 4 + size
    else 4 + size + MetAt(c, buffer[4 + size..], max)
  }

  /** A first part of a failing stream fails exactly when it reaches the bad frame's giveaway; otherwise it
      yields exactly the messages that end in it. */
  lemma {:induction false} PartDrains<M>(c: Codec<M>, buffer: Bytes, max: int, j: nat)
    requires Drain(c, buffer, max).Failed? && j <= |buffer|
    ensures MetAt(c, buffer, max) <= |buffer|
    ensures var d := Drain(c, buffer[..j], max);
            && (d.Failed? <==> j >= MetAt(c, buffer, max))
            && (d.Drained? ==>
                  && d.messages <= Whole(c, buffer, max)
                  && forall k | 0 <= k <= |Whole(c, buffer, max)| :: k <= |d.messages| <==> EndOf(c, buffer, max, k) <= j)
    decreases |buffer|
  {
    hide FromBigEndian;
    var part, size := buffer[..j], FromBigEndian(buffer[..4]);
    if j >= 4 { assert part[..4] == buffer[..4]; }
    if size <= max && j >= 4 + size { assert part[4..4 + size] == buffer[4..4 + size]; }
    if size <= max && c.parse(buffer[4..4 + size]).Some? {
      var rest := buffer[4 + size..];
      PartDrains(c, rest, max, if j >= 4 + size then j - (4 + size) else 0);
      if j >= 4 + size { assert part[4 + size..] == rest[..j - (4 + size)]; }
    }
  }

  /** The call that brings the stream to `pos` bytes. */
  function CallOf(chunks: seq<Bytes>, pos: nat): nat {
    if chunks == [] || pos <= |chunks[0]| then 0 else 1 + CallOf(chunks[1..], pos - |chunks[0]|)
  }

  lemma {:induction false} CallOfExact(chunks: seq<Bytes>, pos: nat, n: nat)
    requires 0 < pos <= |Join(chunks)| && n <= |chunks|
    ensures CallOf(chunks, pos) < n <==> pos <= |Join(chunks[..n])|
  {
    if n > 0 {
      assert chunks[..n][1..] == chunks[1..][..n - 1];
      if pos > |chunks[0]| { CallOfExact(chunks[1..], pos - |chunks[0]|, n - 1); }
    }
  }

  lemma {:induction false} JoinPart(chunks: seq<Bytes>, n: nat)
    requires n <= |chunks|
    ensures |Join(chunks[..n])| <= |Join(chunks)| && Join(chunks)[..|Join(chunks[..n])|] == Join(chunks[..n])
  {
    if n > 0 {
      assert chunks[..n][1..] == chunks[1..][..n - 1];
      JoinPart(chunks[1..], n - 1);
    }
  }

  /** For every failing stream and chunking: what is delivered comes before the bad frame and in order, the
      error is that of the whole stream, and a decoded message is lost if and only if the bad frame is met
      in the very call that completes the message. */
  lemma LostIffMetTogether<M>(c: Codec<M>, chunks: seq<Bytes>, max: int, i: nat)
    requires Drain(c, Join(chunks), max).Failed? && i < |Whole(c, Join(chunks), max)|
    ensures var stream := Join(chunks);
            var d := FeedAll(c, [], chunks, max);
            && d.messages <= Whole(c, stream, max) && d.failure == Some(Drain(c, stream, max).failure)
            && (i >= |d.messages| <==> CallOf(chunks, EndOf(c, stream, max, i + 1)) == CallOf(chunks, MetAt(c, stream, max)))
  {
    hide Drain, FeedAll, Whole, CallOf, Join, HoldsFrame, MetAt, EndOf;
    var stream := Join(chunks);
    var n := FailingCall(c, chunks, max);
    PartDrains(c, stream, max, |Join(chunks[..n])|);
    PartDrains(c, stream, max, |Join(chunks[..n + 1])|);
    EndsBefore(c, stream, max, i + 1);
    SameCall(chunks, EndOf(c, stream, max, i + 1), MetAt(c, stream, max), n);
  }

  /** The failing call, and what was delivered before it, in terms of the stream's first parts. */
  lemma FailingCall<M>(c: Codec<M>, chunks: seq<Bytes>, max: int) returns (n: nat)
    requires Drain(c, Join(chunks), max).Failed?
    ensures n < |chunks|
    ensures var stream := Join(chunks);
            var a, b := |Join(chunks[..n])|, |Join(chunks[..n + 1])|;
            && a <= |stream| && b <= |stream|
            && Drain(c, stream[..a], max).Drained? && Drain(c, stream[..b], max).Failed?
            && FeedAll(c, [], chunks, max).messages == Drain(c, stream[..a], max).messages
            && FeedAll(c, [], chunks, max).failure == Some(Drain(c, stream, max).failure)
  {
    hide Drain, FeedAll, Join;
    assert !HoldsFrame([], max);
    n := DeliveredExactly(c, [], chunks, max);
    assert [] + Join(chunks) == Join(chunks) && [] + Join(chunks[..n]) == Join(chunks[..n]);
    JoinPart(chunks, n);
    assert n < |chunks|;
    assert [] + Join(chunks[..n + 1]) == Join(chunks[..n + 1]);
    JoinPart(chunks, n + 1);
  }

  /** Of two positions, the later of which the n-th call reaches, the earlier is reached by the same call or before. */
  lemma SameCall(chunks: seq<Bytes>, end: nat, met: nat, n: nat)
    requires n < |chunks| && 0 < end < met <= |Join(chunks[..n + 1])| <= |Join(chunks)| && |Join(chunks[..n])| < met
    ensures CallOf(chunks, met) == n
    ensures CallOf(chunks, end) == CallOf(chunks, met) <==> end > |Join(chunks[..n])|
  {
    CallOfExact(chunks, met, n);
    CallOfExact(chunks, met, n + 1);
    CallOfExact(chunks, end, n);
    CallOfExact(chunks, end, n + 1);
    hide CallOf, Join;
  }

  lemma {:induction false} EndsBefore<M>(c: Codec<M>, buffer: Bytes, max: int, k: nat)
    requires Drain(c, buffer, max).Failed? && k <= |Whole(c, buffer, max)|
    ensures EndOf(c, buffer, max, k) < MetAt(c, buffer, max) && (k > 0 ==> EndOf(c, buffer, max, k) > 0)
    decreases |buffer|
  {
    hide FromBigEndian;
    if k > 0 { EndsBefore(c, buffer[4 + FromBigEndian(buffer[..4])..], max, k - 1); }
  }

  /** One good frame and a header that is too large: in one call the message is lost, in two it is not. */
  lemma ErrorDropsEarlierMessages<M(!new)>(c: Codec<M>, m: M, bad: Bytes, max: int)
    requires RoundTrips(c) && EncodeFrame(c, m, max).Good?
    requires |bad| >= 4 && FromBigEndian(bad[..4]) > max
    ensures var good := EncodeFrame(c, m, max).value;
            var failure := Some(FrameTooLarge(FromBigEndian(bad[..4]), max));
            && FeedAll(c, [], [good + bad], max) == Delivery([], [], failure)
            && FeedAll(c, [], [good, bad], max) == Delivery([m], [], failure)
  {
    hide FromBigEndian, EncodeFrame;
    var good := EncodeFrame(c, m, max).value;
    FrameDrains(c, m, bad, max);
    FrameDrains(c, m, [], max);
    assert good + [] == good;
    assert [] + (good + bad) == good + bad && [] + good == good && [] + bad == bad;
    assert Drain(c, good + bad, max) == Failed(FrameTooLarge(FromBigEndian(bad[..4]), max), []);
    assert Drain(c, good, max) == Drained([m], []) && Drain(c, bad, max) == Failed(FrameTooLarge(FromBigEndian(bad[..4]), max), []);
    hide Drain;
    assert [good, bad][1..] == [bad] && [m] + [] == [m];
  }

  // ---- Messages survive the trip ----

  predicate Encodable<M>(c: Codec<M>, ms: seq<M>, max: int) {
    forall i | 0 <= i < |ms| :: EncodeFrame(c, ms[i], max).Good?
  }

  function Frames<M>(c: Codec<M>, ms: seq<M>, max: int): Bytes
    requires Encodable(c, ms, max)
  {
    if ms == [] then [] else EncodeFrame(c, ms[0], max).value + Frames(c, ms[1..], max)
  }

  lemma FrameShape<M>(c: Codec<M>, m: M, rest: Bytes, max: int)
    requires EncodeFrame(c, m, max).Good?
    ensures var b := EncodeFrame(c, m, max).value + rest;
            var size := |c.serialize(m)|;
            && |b| >= 4 + size && b[..4] == BigEndian4(size) && FromBigEndian(b[..4]) == size
            && size <= max && b[4..4 + size] == c.serialize(m) && b[4 + size..] == rest
  {
    BigEndianInverse(|c.serialize(m)|);
    var b := EncodeFrame(c, m, max).value + rest;
    assert b[..4] == BigEndian4(|c.serialize(m)|);
  }

  lemma FrameDrains<M(!new)>(c: Codec<M>, m: M, rest: Bytes, max: int)
    requires RoundTrips(c) && EncodeFrame(c, m, max).Good?
    ensures Drain(c, EncodeFrame(c, m, max).value + rest, max)
            == After([m], Drain(c, rest, max))
  {
    FrameShape(c, m, rest, max);
  }

  /** Sent frames, cut into any chunks, come out as exactly the messages sent, in order; a partial
      frame after them stays in the buffer. */
  lemma {:induction false} MessagesArrive<M(!new)>(c: Codec<M>, ms: seq<M>, tail: Bytes, chunks: seq<Bytes>, max: int)
    requires RoundTrips(c) && Encodable(c, ms, max) && !HoldsFrame(tail, max)
    requires Join(chunks) == Frames(c, ms, max) + tail
    ensures FeedAll(c, [], chunks, max) == Delivery(ms, tail, None)
  {
    FramesDrain(c, ms, tail, max);
    assert [] + Join(chunks) == Join(chunks);
    ChunkingIrrelevant(c, [], chunks, max);
  }

  lemma {:induction false} FramesDrain<M(!new)>(c: Codec<M>, ms: seq<M>, tail: Bytes, max: int)
    requires RoundTrips(c) && Encodable(c, ms, max) && !HoldsFrame(tail, max)
    ensures Drain(c, Frames(c, ms, max) + tail, max) == Drained(ms, tail)
    decreases ms
  {
    if ms == [] {
      assert Frames(c, ms, max) + tail == tail;
    } else {
      var rest := Frames(c, ms[1..], max) + tail;
      assert Frames(c, ms, max) + tail == EncodeFrame(c, ms[0], max).value + rest;
      hide EncodeFrame, Drain, Frames, HoldsFrame;
      FrameDrains(c, ms[0], rest, max);
      FramesDrain(c, ms[1..], tail, max);
      assert [ms[0]] + ms[1..] == ms;
    }
  }

  // ---- The two ends of a pipe ----

  /** A handle whose writes may accept fewer bytes than asked; `counts` is what the system reports. */
  class PipeWriter {
    var sent: Bytes
    var counts: seq<int>

    constructor (counts: seq<int>)
      ensures sent == [] && this.counts == counts
    {
      this.counts := counts;
      sent := [];
    }

    /** At most all of `data` is taken; a missing or non-positive report takes nothing. */
    method WriteFile(data: Bytes) returns (count: int)
      modifies this
      ensures count <= |data| && sent == old(sent) + data[..if count <= 0 then 0 else count]
      ensures |counts| <= |old(counts)| && (count > 0 ==> |counts| < |old(counts)|)
      ensures old(counts) != [] && old(counts)[0] > 0 && data != [] ==> count > 0
      ensures old(counts) != [] ==> counts == old(counts)[1..]
    {
      count := 0;
      if counts != [] {
        count := Min(counts[0], |data|);
        counts := counts[1..];
      }
      sent := sent + data[..if count <= 0 then 0 else count];
    }
  }

  predicate AllPositive(counts: seq<int>) { forall i | 0 <= i < |counts| :: counts[i] > 0 }

  /** `write_pipe_message` after encoding. `ok` is false for PipeWriteError. */
  method WriteFrame(pipe: PipeWriter, frame: Bytes) returns (ok: bool)
    modifies pipe
    ensures old(pipe.sent) <= pipe.sent <= old(pipe.sent) + frame
    ensures ok <==> pipe.sent == old(pipe.sent) + frame
    ensures AllPositive(old(pipe.counts)) && |old(pipe.counts)| >= |frame| ==> ok
  {
    var written := 0;
    ghost var before := pipe.sent;
    ok := true;
    while written < |frame|
      invariant 0 <= written <= |frame|
      invariant pipe.sent == before + frame[..written]
      invariant AllPositive(old(pipe.counts)) && |old(pipe.counts)| >= |frame| ==>
                  AllPositive(pipe.counts) && |pipe.counts| >= |frame| - written
      decreases |frame| - written
    {
      ghost var left := pipe.counts;
      var count := pipe.WriteFile(frame[written..]);
      if count <= 0 {
        assert pipe.sent == before + frame[..written];
        assert |before + frame[..written]| < |before + frame|;
        return false;
      }
      assert frame[..written] + frame[written..][..count] == frame[..written + count];
      written := written + count;
    }
    assert frame[..written] == frame;
  }

  /** A stream whose reads may return fewer bytes than asked, and nothing only at its end. */
  class ByteReader {
    var incoming: Bytes
    var sizes: seq<nat>

    constructor (incoming: Bytes, sizes: seq<nat>)
      ensures this.incoming == incoming && this.sizes == sizes
    {
      this.incoming, this.sizes := incoming, sizes;
    }

    method Read(size: nat) returns (chunk: Bytes)
      requires size > 0
      modifies this
      ensures |chunk| <= size && old(incoming) == chunk + incoming
      ensures chunk == [] <==> old(incoming) == []
    {
      var offered := if sizes == [] || sizes[0] == 0 then 1 else sizes[0];
      if sizes != [] { sizes := sizes[1..]; }
      var n := Min(Min(offered, size), |incoming|);
      chunk := incoming[..n];
      incoming := incoming[n..];
    }
  }

  /** `_read_exact`. */
  method ReadExact(stream: ByteReader, size: nat) returns (r: Outcome<Bytes>)
    modifies stream
    ensures |old(stream.incoming)| >= size ==>
              r == Good(old(stream.incoming)[..size]) && stream.incoming == old(stream.incoming)[size..]
    ensures |old(stream.incoming)| < size ==>
              r == Bad(TruncatedFrame(size, |old(stream.incoming)|)) && stream.incoming == []
  {
    var chunks: Bytes := [];
    ghost var before := stream.incoming;
    while |chunks| < size
      invariant |chunks| <= size && before == chunks + stream.incoming
      decreases size - |chunks|
    {
      var chunk := stream.Read(size - |chunks|);
      if chunk == [] {
        assert before == chunks;
        return Bad(TruncatedFrame(size, |chunks|));
      }
      assert chunks + (chunk + stream.incoming) == chunks + chunk + stream.incoming;
      chunks := chunks + chunk;
    }
    assert before[..size] == chunks && before[size..] == stream.incoming;
    return Good(chunks);
  }

  /** `read_frame`, as a function of the bytes still to come: its result and what it leaves. Its
      truncation counts the body alone, unlike `decode_frame`'s. */
  function ReadOne<M>(c: Codec<M>, incoming: Bytes, max: int): (Outcome<M>, Bytes) {
    if |incoming| < 4 then (Bad(TruncatedFrame(4, |incoming|)), [])
    else
      var size := FromBigEndian(incoming[..4]);
      if size > max then (Bad(FrameTooLarge(size, max)), incoming[4..])
      else if |incoming| < 4 + size then (Bad(TruncatedFrame(size, |incoming| - 4)), [])
      else (match c.parse(incoming[4..4 + size]) case Some(m) => Good(m) case None => Bad(ProtocolMessage),
            incoming[4 + size..])
  }

  /** Whatever sizes the reads return, one frame is read and nothing after it is touched. */
  method ReadFrame<M>(c: Codec<M>, stream: ByteReader, max: int) returns (r: Outcome<M>)
    modifies stream
    ensures (r, stream.incoming) == ReadOne(c, old(stream.incoming), max)
  {
    hide FromBigEndian;
    ghost var before := stream.incoming;
    var prefix := ReadExact(stream, LENGTH_PREFIX_SIZE);
    if prefix.Bad? { return Bad(prefix.failure); }
    var size := FromBigEndian(prefix.value);
    if size > max { return Bad(FrameTooLarge(size, max)); }
    assert before[4..] == stream.incoming;
    var body := ReadExact(stream, size);
    if body.Bad? { return Bad(body.failure); }
    assert before[4..][..size] == before[4..4 + size] && before[4..][size..] == before[4 + size..];
    match c.parse(body.value) {
      case Some(m) => return Good(m);
      case None => return Bad(ProtocolMessage);
    }
  }

  /** Reading a stream and decoding a frame in memory agree: the first frame is judged alike, and a stream that ends
      inside it is a truncation for both, of the body alone once the header has come. */
  lemma ReadMatchesDecode<M>(c: Codec<M>, incoming: Bytes, max: int)
    ensures var (r, rest) := ReadOne(c, incoming, max);
            if HoldsFrame(incoming, max) then
              var size := FromBigEndian(incoming[..4]);
              var end := if size > max then 4 else 4 + size;
              r == DecodeFrame(c, incoming[..end], max) && rest == incoming[end..]
            else
              match DecodeFrame(c, incoming, max)
              case Bad(TruncatedFrame(expected, received)) =>
                rest == [] && r == if received < 4 then Bad(TruncatedFrame(expected, received))
                                   else Bad(TruncatedFrame(expected - 4, received - 4))
              case _ => false
  {
    hide FromBigEndian;
    if HoldsFrame(incoming, max) {
      var size := FromBigEndian(incoming[..4]);
      var end := if size > max then 4 else 4 + size;
      assert incoming[..end][..4] == incoming[..4] && incoming[..end][4..] == incoming[4..end];
    }
  }

  /** Reading one frame after another. */
  function ReadMany<M>(c: Codec<M>, incoming: Bytes, n: nat, max: int): (seq<Outcome<M>>, Bytes)
    decreases n
  {
    if n == 0 then ([], incoming)
    else
      var (r, rest) := ReadOne(c, incoming, max);
      var (rs, rest') := ReadMany(c, rest, n - 1, max);
      ([r] + rs, rest')
  }

  /** The frames of any message list, read back one by one, are exactly that list. */
  lemma {:induction false} FramesReadBack<M(!new)>(c: Codec<M>, ms: seq<M>, tail: Bytes, max: int)
    requires RoundTrips(c) && Encodable(c, ms, max)
    ensures var (rs, rest) := ReadMany(c, Frames(c, ms, max) + tail, |ms|, max);
            |rs| == |ms| && rest == tail && forall i | 0 <= i < |ms| :: rs[i] == Good(ms[i])
    decreases ms
  {
    if ms == [] {
      assert Frames(c, ms, max) + tail == tail;
    } else {
      var next := Frames(c, ms[1..], max) + tail;
      assert Frames(c, ms, max) + tail == EncodeFrame(c, ms[0], max).value + next;
      FrameShape(c, ms[0], next, max);
      FramesReadBack(c, ms[1..], tail, max);
    }
  }

  /** An encoded frame is decoded to its message. */
  lemma EncodeDecode<M(!new)>(c: Codec<M>, m: M, max: int)
    requires RoundTrips(c) && EncodeFrame(c, m, max).Good?
    ensures DecodeFrame(c, EncodeFrame(c, m, max).value, max) == Good(m)
  {
    FrameShape(c, m, [], max);
    var f := EncodeFrame(c, m, max).value;
    assert f + [] == f && f[4..] == c.serialize(m);
  }
}
