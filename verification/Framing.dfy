/** The wire format of a session: length-prefixed frames written by Send and SendBatch and read back by
    the read loop. */
module Framing {
  type Byte = b: int | 0 <= b < 256
  type Bytes = seq<Byte>

  const HEADER_SIZE := 4
  const MAX_BODY := 100000
  const MAX_BATCH_SIZE := 64 * 1024 * 1024
  const SIZE_MAX := 0xFFFF_FFFF_FFFF_FFFF
  const TWO_32 := 0x1_0000_0000
  const TWO_64 := 0x1_0000_0000_0000_0000

  // ---------------------------------------------------------------- headers

  /** A 32-bit number in the host's (little endian) byte order. */
  function EncodeLength(n: nat): (h: Bytes)
    requires n < TWO_32
    ensures |h| == HEADER_SIZE
  {
    [n % 256, n / 0x100 % 256, n / 0x1_0000 % 256, n / 0x100_0000]
  }

  function DecodeLength(h: Bytes): (n: nat)
    requires |h| == HEADER_SIZE
    ensures n < TWO_32
  {
    (h[0] as int) + (h[1] as int) * 0x100 + (h[2] as int) * 0x1_0000 + (h[3] as int) * 0x100_0000
  }

  lemma LengthRoundTrip(n: nat)
    requires n < TWO_32
    ensures DecodeLength(EncodeLength(n)) == n
  {
    assert n / 0x1_0000 == n / 0x100 / 0x100;
    assert n / 0x100_0000 == n / 0x1_0000 / 0x100;
  }

  /** The least significant byte comes first, and the bytes after it are those of the length divided by 256. */
  lemma LittleEndian(n: nat)
    requires n < TWO_32
    ensures var h := EncodeLength(n);
            && h[0] == n % 256 && h[1] == n / 256 % 256 && h[2] == n / 65536 % 256 && h[3] == n / 16777216
            && n == h[0] as int + 256 * h[1] as int + 65536 * h[2] as int + 16777216 * h[3] as int
  {
    LengthRoundTrip(n);
  }

  /** The header of a body: its length truncated to 32 bits. */
  function Header(body: Bytes): (h: Bytes)
    ensures |h| == HEADER_SIZE
  {
    EncodeLength(|body| % TWO_32)
  }

  function Frame(body: Bytes): Bytes { Header(body) + body }

  /** The frames of several bodies, one after the other. */
  function Frames(bodies: seq<Bytes>): Bytes {
    if bodies == [] then [] else Frames(bodies[..|bodies| - 1]) + Frame(bodies[|bodies| - 1])
  }

  // ---------------------------------------------------------------- reading

  /** The stream starts with a complete frame of acceptable length. */
  predicate HasFrame(stream: Bytes) {
    && |stream| >= HEADER_SIZE
    && 0 < DecodeLength(stream[..HEADER_SIZE]) <= MAX_BODY
    && |stream| >= HEADER_SIZE + DecodeLength(stream[..HEADER_SIZE])
  }

  function FirstBody(stream: Bytes): Bytes
    requires HasFrame(stream)
  {
    stream[HEADER_SIZE..HEADER_SIZE + DecodeLength(stream[..HEADER_SIZE])]
  }

  function AfterFirst(stream: Bytes): Bytes
    requires HasFrame(stream)
  {
    stream[HEADER_SIZE + DecodeLength(stream[..HEADER_SIZE])..]
  }

  /** The bodies delivered from a stream: reading stops at the end, inside a truncated frame, or at a
      header of 0 or more than 100000. */
  function Delivered(stream: Bytes): seq<Bytes>
    decreases |stream|
  {
    if HasFrame(stream) then [FirstBody(stream)] + Delivered(AfterFirst(stream)) else []
  }

  /** The read loop over the bytes a peer sends before it closes the connection. */
  method ReadLoop(stream: Bytes) returns (delivered: seq<Bytes>)
    ensures delivered == Delivered(stream)
  {
    delivered := [];
    var rest := stream;
    while true
      invariant delivered + Delivered(rest) == Delivered(stream)
      decreases |rest|
    {
      if |rest| < HEADER_SIZE {
        return;
      }
      var bodyLength := DecodeLength(rest[..HEADER_SIZE]);
      if bodyLength == 0 || bodyLength > MAX_BODY {
        return;
      }
      var afterHeader := rest[HEADER_SIZE..];
      if |afterHeader| < bodyLength {
        return;
      }
      assert afterHeader[..bodyLength] == FirstBody(rest) && afterHeader[bodyLength..] == AfterFirst(rest);
      delivered := delivered + [afterHeader[..bodyLength]];
      rest := afterHeader[bodyLength..];
    }
  }

  predicate Acceptable(body: Bytes) { 1 <= |body| <= 100000 }

  predicate AllAcceptable(bodies: seq<Bytes>) { forall b :: b in bodies ==> Acceptable(b) }

  lemma FrameRead(body: Bytes, rest: Bytes)
    requires Acceptable(body)
    ensures HasFrame(Frame(body) + rest) && FirstBody(Frame(body) + rest) == body && AfterFirst(Frame(body) + rest) == rest
  {
    var stream := Frame(body) + rest;
    HeaderRead(body);
    assert stream[..HEADER_SIZE] == Header(body);
    assert stream == Header(body) + body + rest;
  }

  lemma HeaderRead(body: Bytes)
    requires |body| < TWO_32
    ensures DecodeLength(Header(body)) == |body|
  {
    HeaderIs(body);
    LengthRoundTrip(|body|);
  }

  lemma HeaderIs(body: Bytes)
    requires |body| < TWO_32
    ensures Header(body) == EncodeLength(|body|)
  {
    assert |body| % TWO_32 == |body|;
  }

  lemma FirstDelivered(body: Bytes, rest: Bytes)
    requires Acceptable(body)
    ensures Delivered(Frame(body) + rest) == [body] + Delivered(rest)
  {
    FrameRead(body, rest);
  }

  lemma LastFrame(front: seq<Bytes>, last: Bytes)
    ensures Frames(front + [last]) == Frames(front) + Frame(last)
  {
    assert (front + [last])[..|front|] == front;
  }

  /** The reader undoes the writer: bodies of 1 to 100000 bytes come back whole and in order, whatever
      bytes follow. */
  lemma {:induction false} RoundTrip(bodies: seq<Bytes>, rest: Bytes)
    requires AllAcceptable(bodies)
    ensures Delivered(Frames(bodies) + rest) == bodies + Delivered(rest)
  {
    if bodies == [] {
      assert Frames(bodies) + rest == rest;
    } else {
      var n := |bodies| - 1;
      var front, last := bodies[..n], bodies[n];
      assert bodies == front + [last];
      LastFrame(front, last);
      assert Frames(bodies) + rest == Frames(front) + (Frame(last) + rest);
      RoundTrip(front, Frame(last) + rest);
      FirstDelivered(last, rest);
      assert front + ([last] + Delivered(rest)) == bodies + Delivered(rest);
    }
  }

  lemma FramesOne(body: Bytes)
    ensures Frames([body]) == Frame(body)
  {}

  lemma {:induction false} FramesConcat(a: seq<Bytes>, b: seq<Bytes>)
    ensures Frames(a + b) == Frames(a) + Frames(b)
  {
    if b == [] {
      assert a + b == a;
    } else {
      var front, last := b[..|b| - 1], b[|b| - 1];
      assert b == front + [last] && a + b == (a + front) + [last];
      FramesConcat(a, front);
      LastFrame(front, last);
      LastFrame(a + front, last);
    }
  }

  /** Every body delivered has 1 to 100000 bytes. */
  lemma {:induction false} DeliveredAcceptable(stream: Bytes)
    ensures AllAcceptable(Delivered(stream))
    decreases |stream|
  {
    if HasFrame(stream) {
      DeliveredAcceptable(AfterFirst(stream));
    }
  }

  /** A writer that sends any bodies at all gets them all through exactly when each has 1 to 100000 bytes. */
  lemma RoundTripIff(bodies: seq<Bytes>)
    ensures Delivered(Frames(bodies)) == bodies <==> AllAcceptable(bodies)
  {
    DeliveredAcceptable(Frames(bodies));
    if AllAcceptable(bodies) {
      RoundTrip(bodies, []);
      assert Frames(bodies) + [] == Frames(bodies);
    }
  }

  /** A stream is the frames of what it delivers followed by a rest that starts with no complete frame. */
  lemma {:induction false} DeliveredIsParse(stream: Bytes) returns (rest: Bytes)
    ensures stream == Frames(Delivered(stream)) + rest && !HasFrame(rest)
    decreases |stream|
  {
    if !HasFrame(stream) {
      return stream;
    }
    rest := DeliveredIsParse(AfterFirst(stream));
    FrameOfFirst(stream);
    PrependFrame(FirstBody(stream), Delivered(AfterFirst(stream)), rest);
  }

  lemma PrependFrame(body: Bytes, bodies: seq<Bytes>, rest: Bytes)
    ensures Frame(body) + (Frames(bodies) + rest) == Frames([body] + bodies) + rest
  {
    FramesOne(body);
    FramesConcat([body], bodies);
  }

  /** The first body with its header is how the stream starts. */
  lemma FrameOfFirst(stream: Bytes)
    requires HasFrame(stream)
    ensures stream == Frame(FirstBody(stream)) + AfterFirst(stream)
  {
    var h, body := stream[..HEADER_SIZE], FirstBody(stream);
    HeaderOf(h, body);
    assert stream == h + body + AfterFirst(stream);
  }

  lemma HeaderOf(h: Bytes, body: Bytes)
    requires |h| == HEADER_SIZE && |body| == DecodeLength(h)
    ensures Header(body) == h
  {
    HeaderIs(body);
    EncodeDecode(h);
  }

  lemma EncodeDecode(h: Bytes)
    requires |h| == HEADER_SIZE
    ensures EncodeLength(DecodeLength(h)) == h
  {
    var n := DecodeLength(h);
    var b, c, d: int := h[1], h[2], h[3];
    assert n / 0x100 == b + c * 0x100 + d * 0x1_0000;
    assert n / 0x1_0000 == c + d * 0x100;
    assert n / 0x100_0000 == d;
  }

  /** That parse is the only one: no other reading of the stream is possible. */
  lemma ParseUnique(stream: Bytes, bodies: seq<Bytes>, rest: Bytes)
    requires stream == Frames(bodies) + rest && !HasFrame(rest) && AllAcceptable(bodies)
    ensures Delivered(stream) == bodies
  {
    RoundTrip(bodies, rest);
  }

  /** What is delivered from a prefix of a stream is a prefix of what is delivered from the whole. */
  lemma {:induction false} PrefixDelivery(prefix: Bytes, more: Bytes)
    ensures Delivered(prefix) <= Delivered(prefix + more)
    decreases |prefix|
  {
    var whole := prefix + more;
    if HasFrame(prefix) {
      assert whole[..HEADER_SIZE] == prefix[..HEADER_SIZE];
      assert FirstBody(whole) == FirstBody(prefix);
      assert AfterFirst(whole) == AfterFirst(prefix) + more;
      PrefixDelivery(AfterFirst(prefix), more);
    }
  }

  /** A truncated last frame is not delivered, and nothing after an invalid header is. */
  lemma NothingAfterBadFrame(bodies: seq<Bytes>, rest: Bytes)
    requires AllAcceptable(bodies)
    requires |rest| < 4 || DecodeLength(rest[..4]) == 0 || DecodeLength(rest[..4]) > 100000 ||
             |rest| < 4 + DecodeLength(rest[..4])
    ensures Delivered(Frames(bodies) + rest) == bodies
  {
    RoundTrip(bodies, rest);
  }

  // ---------------------------------------------------------------- writing

  /** The size of the frames of a batch, without any bound on it. */
  function BatchSize(packets: seq<Bytes>): nat {
    if packets == [] then 0 else BatchSize(packets[..|packets| - 1]) + HEADER_SIZE + |packets[|packets| - 1]|
  }

  lemma {:induction false} BatchSizeIsLength(packets: seq<Bytes>)
    ensures |Frames(packets)| == BatchSize(packets)
  {
    if packets != [] {
      BatchSizeIsLength(packets[..|packets| - 1]);
    }
  }

  /** A batch only grows: a prefix is no larger than the whole. */
  lemma {:induction false} BatchSizeMonotone(packets: seq<Bytes>, i: nat)
    requires i <= |packets|
    ensures BatchSize(packets[..i]) <= BatchSize(packets)
    decreases |packets|
  {
    if i < |packets| {
      var n := |packets| - 1;
      assert packets[..n][..i] == packets[..i];
      BatchSizeMonotone(packets[..n], i);
    } else {
      assert packets[..i] == packets;
    }
  }

  lemma {:induction false} SmallPackets(packets: seq<Bytes>)
    ensures forall p :: p in packets ==> |p| + HEADER_SIZE <= BatchSize(packets)
  {
    if packets != [] {
      SmallPackets(packets[..|packets| - 1]);
    }
  }

  predicate LengthsFit(packets: seq<Bytes>) { forall p :: p in packets ==> |p| < TWO_32 }

  /** A 32-bit header holds the length of every packet of a batch that fits. */
  lemma NoLengthCut(packets: seq<Bytes>)
    requires BatchSize(packets) <= MAX_BATCH_SIZE
    ensures LengthsFit(packets)
  {
    SmallPackets(packets);
  }

  lemma BatchSizeNext(packets: seq<Bytes>, i: nat)
    requires i < |packets|
    ensures BatchSize(packets[..i + 1]) == BatchSize(packets[..i]) + HEADER_SIZE + |packets[i]|
  {
    assert packets[..i + 1][..i] == packets[..i];
  }

  /** The 64-bit arithmetic of one round does not wrap, where the overflow check lets it happen. */
  lemma NoWrap(total: nat, size: nat)
    requires total <= MAX_BATCH_SIZE && size <= SIZE_MAX - HEADER_SIZE
    ensures (SIZE_MAX - HEADER_SIZE - size) % TWO_64 == SIZE_MAX - HEADER_SIZE - size
    ensures total <= SIZE_MAX - HEADER_SIZE - size ==>
              (total + (HEADER_SIZE + size) % TWO_64) % TWO_64 == total + HEADER_SIZE + size
  {}

  /** The size computation of SendBatch, in 64-bit arithmetic with its overflow check. With span sizes
      of at most 2^64 - 5 it never wraps: the batch fits exactly when its true size is at most 64 MiB. */
  method FitsBatch(packets: seq<Bytes>) returns (fits: bool)
    requires forall p :: p in packets ==> |p| <= SIZE_MAX - HEADER_SIZE
    ensures fits <==> BatchSize(packets) <= 67108864
  {
    var totalSize := 0;
    for i := 0 to |packets|
      invariant totalSize == BatchSize(packets[..i]) <= MAX_BATCH_SIZE
    {
      var size := |packets[i]|;
      assert packets[i] in packets;
      BatchSizeNext(packets, i);
      BatchSizeMonotone(packets, i + 1);
      NoWrap(totalSize, size);
      if totalSize > (SIZE_MAX - HEADER_SIZE - size) % TWO_64 {
        return false;
      }
      totalSize := (totalSize + (HEADER_SIZE + size) % TWO_64) % TWO_64;
      if totalSize > MAX_BATCH_SIZE {
        return false;
      }
    }
    assert packets[..|packets|] == packets;
    return true;
  }

  /** The loop of SendBatch that writes header and body of each packet into one buffer. */
  method Combine(packets: seq<Bytes>) returns (batchPacket: Bytes)
    ensures batchPacket == Frames(packets)
  {
    batchPacket := [];
    for i := 0 to |packets|
      invariant batchPacket == Frames(packets[..i])
    {
      assert packets[..i + 1][..i] == packets[..i];
      var bodyLength := |packets[i]| % TWO_32;
      batchPacket := batchPacket + EncodeLength(bodyLength);
      batchPacket := batchPacket + packets[i];
    }
    assert packets[..|packets|] == packets;
  }

  predicate Dropped(packets: seq<Bytes>) { packets == [] || BatchSize(packets) > MAX_BATCH_SIZE }

  /** SendBatch up to the enqueue, all or nothing: one buffer with the frames of all packets, or nothing
      when there is no packet or the frames exceed 64 MiB; and no packet that is sent has a length its
      32-bit header cannot hold. */
  method BuildBatch(packets: seq<Bytes>) returns (buffers: seq<Bytes>)
    requires forall p :: p in packets ==> |p| <= SIZE_MAX - HEADER_SIZE
    ensures if packets == [] || BatchSize(packets) > 67108864 then buffers == [] else buffers == [Frames(packets)] && LengthsFit(packets)
  {
    if packets == [] {
      return [];
    }
    var fits := FitsBatch(packets);
    if !fits {
      return [];
    }
    NoLengthCut(packets);
    var batchPacket := Combine(packets);
    return [batchPacket];
  }

  // ---------------------------------------------------------------- calls

  /** What happens on the outgoing side of a session: the two send functions, and a turn of the write
      loop that finds the waiting buffer `index`, or none. */
  datatype Call = Send(data: Bytes) | Batch(packets: seq<Bytes>) | Write(index: nat)

  /** The buffers waiting to be written, and the bytes written so far. */
  datatype Outgoing = Outgoing(queue: seq<Bytes>, wire: Bytes)

  function Without<T>(s: seq<T>, i: nat): seq<T>
    requires i < |s|
  {
    s[..i] + s[i + 1..]
  }

  function Step(o: Outgoing, call: Call): Outgoing {
    match call
    case Send(data) => o.(queue := o.queue + [Frame(data)])
    case Batch(packets) => if Dropped(packets) then o else o.(queue := o.queue + [Frames(packets)])
    case Write(i) => if i < |o.queue| then Outgoing(Without(o.queue, i), o.wire + o.queue[i]) else o
  }

  function Run(calls: seq<Call>): Outgoing {
    if calls == [] then Outgoing([], []) else Step(Run(calls[..|calls| - 1]), calls[|calls| - 1])
  }

  lemma RunNext(calls: seq<Call>, call: Call)
    ensures Run(calls + [call]) == Step(Run(calls), call)
  {
    assert (calls + [call])[..|calls|] == calls;
  }

  /** The packets a call hands over, as one element: one packet for a Send, several for a batch. */
  function Elements(call: Call): seq<seq<Bytes>> {
    match call
    case Send(data) => [[data]]
    case Batch(packets) => if packets == [] || BatchSize(packets) > 67108864 then [] else [packets]
    case Write(_) => []
  }

  function Accepted(calls: seq<Call>): seq<seq<Bytes>> {
    if calls == [] then [] else Accepted(calls[..|calls| - 1]) + Elements(calls[|calls| - 1])
  }

  /** A session's outgoing side. `calls` records what happened so far. */
  class Session {
    var writeQueue: seq<Bytes>
    var wire: Bytes
    ghost var calls: seq<Call>

    ghost predicate Valid()
      reads this
    {
      Outgoing(writeQueue, wire) == Run(calls)
    }

    constructor ()
      ensures Valid() && calls == []
    {
      writeQueue, wire, calls := [], [], [];
    }

    method Send(data: Bytes)
      requires Valid()
      modifies this`writeQueue, this`calls
      ensures Valid() && calls == old(calls) + [Call.Send(data)]
    {
      var bodyLength := |data| % TWO_32;
      var packet := EncodeLength(bodyLength);
      packet := packet + data;
      writeQueue := writeQueue + [packet];
      RunNext(calls, Call.Send(data));
      calls := calls + [Call.Send(data)];
    }

    /** One buffer for the whole batch, or none. */
    method SendBatch(packets: seq<Bytes>)
      requires Valid()
      requires forall p :: p in packets ==> |p| <= SIZE_MAX - HEADER_SIZE
      modifies this`writeQueue, this`calls
      ensures Valid() && calls == old(calls) + [Batch(packets)]
    {
      var buffers := BuildBatch(packets);
      writeQueue := writeQueue + buffers;
      RunNext(calls, Batch(packets));
      calls := calls + [Batch(packets)];
    }

    /** One turn of the write loop: some waiting buffer, if there is one, is written out whole. */
    method WriteNext() returns (ghost index: nat)
      requires Valid()
      modifies this
      ensures Valid() && calls == old(calls) + [Write(index)]
      ensures old(writeQueue) != [] ==> index < |old(writeQueue)|
    {
      var i: nat := 0;
      if writeQueue != [] {
        i :| i < |writeQueue|;
        wire := wire + writeQueue[i];
        writeQueue := writeQueue[..i] + writeQueue[i + 1..];
      }
      RunNext(calls, Write(i));
      calls := calls + [Write(i)];
      index := i;
    }
  }

  // ---------------------------------------------------------------- the whole way

  function Flatten(elements: seq<seq<Bytes>>): seq<Bytes> {
    if elements == [] then [] else Flatten(elements[..|elements| - 1]) + elements[|elements| - 1]
  }

  /** Buffer `k` holds the frames of the packets of element `k`. */
  predicate BuffersOf(buffers: seq<Bytes>, elements: seq<seq<Bytes>>) {
    |buffers| == |elements| && forall k :: 0 <= k < |buffers| ==> buffers[k] == Frames(elements[k])
  }

  /** The buffers waiting are those of some elements, and the wire holds the frames of others in order. */
  predicate Carries(o: Outgoing, waiting: seq<seq<Bytes>>, order: seq<seq<Bytes>>) {
    BuffersOf(o.queue, waiting) && o.wire == Frames(Flatten(order))
  }

  lemma FramesFlatten(order: seq<seq<Bytes>>, e: seq<Bytes>)
    ensures Frames(Flatten(order + [e])) == Frames(Flatten(order)) + Frames(e)
  {
    assert (order + [e])[..|order|] == order;
    FramesConcat(Flatten(order), e);
  }

  lemma TakeOut<T>(s: seq<T>, i: nat)
    requires i < |s|
    ensures multiset(s) == multiset(Without(s, i)) + multiset{s[i]}
  {
    assert s == s[..i] + [s[i]] + s[i + 1..];
  }

  /** A send puts its element among the waiting ones. */
  lemma EnqueueCarries(o: Outgoing, call: Call, waiting: seq<seq<Bytes>>, order: seq<seq<Bytes>>)
    requires !call.Write? && Carries(o, waiting, order)
    ensures Carries(Step(o, call), waiting + Elements(call), order)
  {
    if call.Send? {
      FramesOne(call.data);
    }
  }

  /** A write passes one element from the waiting ones to the end of those written. */
  lemma WriteCarries(o: Outgoing, i: nat, waiting: seq<seq<Bytes>>, order: seq<seq<Bytes>>)
    requires i < |o.queue| && Carries(o, waiting, order)
    ensures Carries(Step(o, Write(i)), Without(waiting, i), order + [waiting[i]])
  {
    FramesFlatten(order, waiting[i]);
  }

  lemma AcceptedNext(calls: seq<Call>)
    requires calls != []
    ensures multiset(Accepted(calls)) == multiset(Accepted(calls[..|calls| - 1])) + multiset(Elements(calls[|calls| - 1]))
  {}

  /** At any time, what the send calls handed over is exactly what waits and what was written. */
  lemma {:induction false} RunCarries(calls: seq<Call>) returns (waiting: seq<seq<Bytes>>, order: seq<seq<Bytes>>)
    ensures Carries(Run(calls), waiting, order)
    ensures multiset(waiting) + multiset(order) == multiset(Accepted(calls))
  {
    if calls == [] {
      return [], [];
    }
    var n := |calls| - 1;
    var call := calls[n];
    var w, o := RunCarries(calls[..n]);
    AcceptedNext(calls);
    if !call.Write? {
      EnqueueCarries(Run(calls[..n]), call, w, o);
      return w + Elements(call), o;
    } else if call.index < |Run(calls[..n]).queue| {
      WriteCarries(Run(calls[..n]), call.index, w, o);
      TakeOut(w, call.index);
      return Without(w, call.index), o + [w[call.index]];
    } else {
      return w, o;
    }
  }

  lemma {:induction false} FlattenIn(elements: seq<seq<Bytes>>, b: Bytes)
    ensures b in Flatten(elements) <==> exists e :: e in elements && b in e
  {
    if elements != [] {
      var n := |elements| - 1;
      FlattenIn(elements[..n], b);
      assert elements == elements[..n] + [elements[n]];
    }
  }

  /** From any calls of the send functions, interleaved in any way with the write loop taking the waiting
      buffers in any order, to the peer's read loop. The elements written are elements that were sent,
      each once, and all of them once nothing waits. The peer gets the packets of these elements whole,
      element by element in the order written, and nothing else, exactly when all of them have 1 to
      100000 bytes. */
  lemma EndToEnd(calls: seq<Call>) returns (order: seq<seq<Bytes>>)
    ensures multiset(order) <= multiset(Accepted(calls))
    ensures Run(calls).queue == [] ==> multiset(order) == multiset(Accepted(calls))
    ensures Run(calls).wire == Frames(Flatten(order))
    ensures Delivered(Run(calls).wire) == Flatten(order) <==> AllAcceptable(Flatten(order))
  {
    ghost var waiting;
    waiting, order := RunCarries(calls);
    RoundTripIff(Flatten(order));
  }

  lemma FlattenAcceptable(order: seq<seq<Bytes>>, sent: seq<seq<Bytes>>)
    requires multiset(order) <= multiset(sent) && forall e :: e in sent ==> AllAcceptable(e)
    ensures AllAcceptable(Flatten(order))
  {
    forall b | b in Flatten(order) ensures Acceptable(b) {
      FlattenIn(order, b);
      var e :| e in order && b in e;
      assert e in multiset(order) && e in multiset(sent);
      assert e in sent && AllAcceptable(e);
    }
  }

  /** The same for calls with acceptable bodies only: every packet written is delivered, and from a
      connection cut anywhere the peer gets the first of them. */
  lemma EndToEndAcceptable(calls: seq<Call>, received: Bytes) returns (order: seq<seq<Bytes>>)
    requires forall e :: e in Accepted(calls) ==> AllAcceptable(e)
    requires received <= Run(calls).wire
    ensures multiset(order) <= multiset(Accepted(calls))
    ensures Run(calls).queue == [] ==> multiset(order) == multiset(Accepted(calls))
    ensures Delivered(Run(calls).wire) == Flatten(order)
    ensures Delivered(received) <= Flatten(order)
  {
    order := EndToEnd(calls);
    FlattenAcceptable(order, Accepted(calls));
    CutDelivery(received, Run(calls).wire);
  }

  lemma CutDelivery(received: Bytes, wire: Bytes)
    requires received <= wire
    ensures Delivered(received) <= Delivered(wire)
  {
    var more := wire[|received|..];
    assert wire == received + more;
    PrefixDelivery(received, more);
  }
}
