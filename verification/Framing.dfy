/**
  ProtocolSerializer: messages as a 4-byte length in network byte order ("Data Notations"
  in RFC 1700) followed by the body. Bodies are opaque byte sequences here; JSON is a pair
  of inverse functions supplied by the caller (see Codec in module Channel).
 */
module Framing {

  type byte = b: int | 0 <= b < 256

  const MAX_MESSAGE_BYTES := 65_536
  const INT32_LIMIT := 0x8000_0000

  /** What one ReadMessageAsync gives: `default` at end of stream, an exception, or a body. */
  datatype Outcome = Ended | BadLength(length: int) | Message(body: seq<byte>)

  // ---------------------------------------------------------------- length header

  /** BinaryPrimitives.WriteInt32BigEndian, for the non-negative lengths the writer has. */
  function WriteInt32(n: nat): (h: seq<byte>)
    requires n < INT32_LIMIT
    ensures |h| == 4
  {
    [n / 256 / 256 / 256, n / 256 / 256 % 256, n / 256 % 256, n % 256]
  }

  /** The four bytes as an unsigned number, most significant byte first. */
  function Unsigned(h: seq<byte>): (u: int)
    requires |h| == 4
    ensures 0 <= u < 2 * INT32_LIMIT
  {
    var b0: int, b1: int, b2: int, b3: int := h[0], h[1], h[2], h[3];
    ((b0 * 256 + b1) * 256 + b2) * 256 + b3
  }

  /** BinaryPrimitives.ReadInt32BigEndian: two's complement. */
  function ReadInt32(h: seq<byte>): int
    requires |h| == 4
  {
    var u := Unsigned(h);
    if u < INT32_LIMIT then u else u - 2 * INT32_LIMIT
  }

  lemma HeaderRoundTrip(n: nat)
    requires n < INT32_LIMIT
    ensures ReadInt32(WriteInt32(n)) == n
  {
  }

  lemma LastByte(q: int, d: byte)
    ensures (q * 256 + d) / 256 == q && (q * 256 + d) % 256 == d
  {
  }

  /** The first byte in which the headers differ decides. */
  predicate Before(h: seq<byte>, k: seq<byte>)
    requires |h| == |k|
  {
    h != [] && (h[0] < k[0] || (h[0] == k[0] && Before(h[1..], k[1..])))
  }

  /** Most significant byte first: the order of the headers is the order of the lengths. */
  lemma HeaderOrder(m: nat, n: nat)
    requires m < INT32_LIMIT && n < INT32_LIMIT
    ensures Before(WriteInt32(m), WriteInt32(n)) <==> m < n
  {
    var h, k := WriteInt32(m), WriteInt32(n);
    var b0: int, b1: int, b2: int, b3: int := h[0], h[1], h[2], h[3];
    var c0: int, c1: int, c2: int, c3: int := k[0], k[1], k[2], k[3];
    HeaderRoundTrip(m);
    HeaderRoundTrip(n);
    assert m == ((b0 * 256 + b1) * 256 + b2) * 256 + b3;
    assert n == ((c0 * 256 + c1) * 256 + c2) * 256 + c3;
    assert h[1..] == [b1, b2, b3] && k[1..] == [c1, c2, c3];
    assert [b1, b2, b3][1..] == [b2, b3] && [c1, c2, c3][1..] == [c2, c3];
    assert [b2, b3][1..] == [b3] && [c2, c3][1..] == [c3];
    assert Before([b3], [c3]) <==> b3 < c3;
    assert Before([b2, b3], [c2, c3]) <==> b2 < c2 || (b2 == c2 && b3 < c3);
    assert Before([b1, b2, b3], [c1, c2, c3]) <==> b1 < c1 || (b1 == c1 && (b2 < c2 || (b2 == c2 && b3 < c3)));
  }

  /** Every four-byte header is determined by the number it is read as. */
  lemma HeaderInjective(h: seq<byte>, k: seq<byte>)
    requires |h| == 4 && |k| == 4 && ReadInt32(h) == ReadInt32(k)
    ensures h == k
  {
    var h0: int, k0: int := h[0], k[0];
    LastByte(h0, h[1]); LastByte(h0 * 256 + h[1], h[2]); LastByte((h0 * 256 + h[1]) * 256 + h[2], h[3]);
    LastByte(k0, k[1]); LastByte(k0 * 256 + k[1], k[2]); LastByte((k0 * 256 + k[1]) * 256 + k[2], k[3]);
    assert Unsigned(h) == Unsigned(k);
    assert h[3] == k[3] && h[2] == k[2] && h[1] == k[1] && h[0] == k[0];
  }

  // ---------------------------------------------------------------- one message

  /** What the writer puts on the stream; it does not enforce the size limit. */
  function Frame(body: seq<byte>): (f: seq<byte>)
    requires |body| < INT32_LIMIT
    ensures |f| == |body| + 4
  {
    WriteInt32(|body|) + body
  }

  /** The bytes of a written message: none of a body too large for an array to hold. */
  function Wire(body: seq<byte>): seq<byte> {
    if |body| < INT32_LIMIT then Frame(body) else []
  }

  /** What a failed write of body can have left on the stream. */
  predicate CutShort(part: seq<byte>, body: seq<byte>) {
    if |body| < INT32_LIMIT then part < Frame(body) else part == []
  }

  /** One write of body took the stream from `before` to `after`, completely or with an exception. */
  ghost predicate Sent(before: seq<byte>, after: seq<byte>, body: seq<byte>, ok: bool) {
    if ok then |body| < INT32_LIMIT && after == before + Wire(body)
    else before <= after && CutShort(after[|before|..], body)
  }

  /** The outcome of one read from a stream that holds `data` and then ends, and what is left. */
  function Parse(data: seq<byte>): (Outcome, seq<byte>) {
    if |data| < 4 then (Ended, [])
    else
      var n := ReadInt32(data[..4]);
      if n <= 0 || n > MAX_MESSAGE_BYTES then (BadLength(n), data[4..])
      else if |data| < 4 + n then (Ended, [])
      else (Message(data[4..4 + n]), data[4 + n..])
  }

  /** The length check accepts exactly the headers that encode 1..65536, out of all 2^32. */
  lemma HeaderAccepted(h: seq<byte>, rest: seq<byte>)
    requires |h| == 4
    ensures !Parse(h + rest).0.BadLength? <==>
            exists n: nat :: 1 <= n <= 65_536 && h == WriteInt32(n)
  {
    assert (h + rest)[..4] == h;
    var n := ReadInt32(h);
    if 1 <= n <= MAX_MESSAGE_BYTES {
      HeaderRoundTrip(n);
      HeaderInjective(h, WriteInt32(n));
    }
    forall k: nat | 1 <= k <= MAX_MESSAGE_BYTES && h == WriteInt32(k)
      ensures n == k
    {
      HeaderRoundTrip(k);
    }
  }

  /** A written message is read back, whatever follows it, exactly when its size is in range. */
  lemma FrameRoundTrip(body: seq<byte>, rest: seq<byte>)
    requires |body| < INT32_LIMIT
    ensures Parse(Frame(body) + rest) == (Message(body), rest) <==> 1 <= |body| <= MAX_MESSAGE_BYTES
    ensures !(1 <= |body| <= MAX_MESSAGE_BYTES) ==> Parse(Frame(body) + rest).0 == BadLength(|body|)
  {
    var data := Frame(body) + rest;
    assert data[..4] == WriteInt32(|body|);
    HeaderRoundTrip(|body|);
    assert data[4..4 + |body|] == body && data[4 + |body|..] == rest;
  }

  /** A truncated frame is never taken for a message. */
  lemma TruncatedFrame(body: seq<byte>, k: nat)
    requires |body| < INT32_LIMIT && k < |Frame(body)|
    ensures !Parse(Frame(body)[..k]).0.Message?
    ensures 1 <= |body| <= MAX_MESSAGE_BYTES ==> Parse(Frame(body)[..k]) == (Ended, [])
  {
    if k >= 4 {
      assert Frame(body)[..k][..4] == WriteInt32(|body|);
      HeaderRoundTrip(|body|);
    }
  }

  // ---------------------------------------------------------------- a whole stream

  function Frames(bodies: seq<seq<byte>>): seq<byte> {
    if bodies == [] then [] else Wire(bodies[0]) + Frames(bodies[1..])
  }

  /** The bodies that repeated reads yield, and the outcome that ends the reading. */
  function ParseAll(data: seq<byte>): (r: (seq<seq<byte>>, Outcome))
    ensures !r.1.Message?
    decreases |data|
  {
    match Parse(data)
    case (Message(body), rest) =>
      assert |rest| < |data|;
      var more := ParseAll(rest);
      ([body] + more.0, more.1)
    case (other, _) => ([], other)
  }

  ghost predicate InRange(bodies: seq<seq<byte>>) {
    forall i | 0 <= i < |bodies| :: 1 <= |bodies[i]| <= MAX_MESSAGE_BYTES
  }

  /** Reading a stream of messages yields exactly those messages and then end of stream. */
  lemma {:induction false} StreamRoundTrip(bodies: seq<seq<byte>>)
    requires InRange(bodies)
    ensures ParseAll(Frames(bodies)) == (bodies, Ended)
    decreases |bodies|
  {
    if bodies != [] {
      ParseAllCons(bodies[0], Frames(bodies[1..]));
      StreamRoundTrip(bodies[1..]);
      assert bodies == [bodies[0]] + bodies[1..];
    }
  }

  /** How many whole frames fit into the first k bytes. */
  function WholeFrames(bodies: seq<seq<byte>>, k: nat): (n: nat)
    ensures n <= |bodies|
  {
    if bodies == [] || k < |Wire(bodies[0])| then 0
    else 1 + WholeFrames(bodies[1..], k - |Wire(bodies[0])|)
  }

  /** Cutting the stream anywhere yields exactly the messages before the cut, never an error. */
  lemma {:induction false} CutStream(bodies: seq<seq<byte>>, k: nat)
    requires InRange(bodies) && k <= |Frames(bodies)|
    ensures ParseAll(Frames(bodies)[..k]) == (bodies[..WholeFrames(bodies, k)], Ended)
    decreases |bodies|
  {
    if bodies != [] {
      var f, tail := Frame(bodies[0]), Frames(bodies[1..]);
      CutConcat(f, tail, k);
      if k < |f| {
        TruncatedFrame(bodies[0], k);
      } else {
        CutStream(bodies[1..], k - |f|);
        CutAfterFirst(bodies, tail[..k - |f|], WholeFrames(bodies[1..], k - |f|));
      }
    }
  }

  lemma CutAfterFirst(bodies: seq<seq<byte>>, rest: seq<byte>, n: nat)
    requires bodies != [] && 1 <= |bodies[0]| <= MAX_MESSAGE_BYTES && n < |bodies|
    requires ParseAll(rest) == (bodies[1..][..n], Ended)
    ensures ParseAll(Frame(bodies[0]) + rest) == (bodies[..n + 1], Ended)
  {
    ParseAllCons(bodies[0], rest);
    assert bodies[..n + 1] == [bodies[0]] + bodies[1..][..n];
  }

  lemma CutConcat(f: seq<byte>, tail: seq<byte>, k: nat)
    requires k <= |f| + |tail|
    ensures (f + tail)[..k] == if k < |f| then f[..k] else f + tail[..k - |f|]
  {
  }

  lemma ParseAllCons(body: seq<byte>, rest: seq<byte>)
    requires 1 <= |body| <= MAX_MESSAGE_BYTES
    ensures ParseAll(Frame(body) + rest) == ([body] + ParseAll(rest).0, ParseAll(rest).1)
  {
    FrameRoundTrip(body, rest);
  }

  /** The reading of a stream, `done` bodies and one more read into it. */
  ghost function Continue(done: seq<seq<byte>>, last: Outcome, rest: seq<byte>): (seq<seq<byte>>, Outcome) {
    if last.Message? then (done + [last.body] + ParseAll(rest).0, ParseAll(rest).1) else (done, last)
  }

  lemma ContinueOn(done: seq<seq<byte>>, data: seq<byte>)
    ensures Continue(done, Parse(data).0, Parse(data).1) == (done + ParseAll(data).0, ParseAll(data).1)
  {
    if Parse(data).0.Message? {
      assert done + [Parse(data).0.body] + ParseAll(Parse(data).1).0 ==
             done + ([Parse(data).0.body] + ParseAll(Parse(data).1).0);
    } else {
      assert done + [] == done;
    }
  }

  // ---------------------------------------------------------------- the code

  /** The reading side of a stream: bytes still to come, then end of stream. */
  class ByteStream {
    var unread: seq<byte>

    constructor (data: seq<byte>)
      ensures unread == data
    {
      unread := data;
    }

    /** ReadAsync into the buffer from `offset`: at least one byte unless the stream has ended. */
    method Read(buffer: array<byte>, offset: nat) returns (n: nat)
      requires offset < buffer.Length
      modifies this, buffer
      ensures n <= buffer.Length - offset && n <= |old(unread)|
      ensures n == 0 <==> old(unread) == []
      ensures unread == old(unread)[n..]
      ensures buffer[..offset] == old(buffer[..offset])
      ensures buffer[offset..offset + n] == old(unread)[..n]
    {
      var most := if |unread| < buffer.Length - offset then |unread| else buffer.Length - offset;
      var some: int := *;
      n := if 1 <= some <= most then some else most;
      var chunk := unread[..n];
      forall i | 0 <= i < n {
        buffer[offset + i] := chunk[i];
      }
      unread := unread[n..];
    }

    /** Fills the buffer, however the stream splits its bytes; false at end of stream. */
    method ReadExact(buffer: array<byte>) returns (ok: bool)
      modifies this, buffer
      ensures ok <==> |old(unread)| >= buffer.Length
      ensures ok ==> buffer[..] == old(unread)[..buffer.Length] && unread == old(unread)[buffer.Length..]
      ensures !ok ==> unread == []
    {
      var offset := 0;
      while offset < buffer.Length
        invariant 0 <= offset <= buffer.Length && offset <= |old(unread)|
        invariant unread == old(unread)[offset..]
        invariant buffer[..offset] == old(unread)[..offset]
        decreases buffer.Length - offset
      {
        var n := Read(buffer, offset);
        if n == 0 {
          return false;
        }
        assert buffer[..offset + n] == buffer[..offset] + buffer[offset..offset + n];
        assert old(unread)[..offset + n] == old(unread)[..offset] + old(unread)[offset..][..n];
        offset := offset + n;
      }
      assert buffer[..] == buffer[..offset];
      return true;
    }

    method ReadMessage() returns (r: Outcome)
      modifies this
      ensures (r, unread) == Parse(old(unread))
    {
      var header := new byte[4];
      var ok := ReadExact(header);
      if !ok {
        return Ended;
      }
      assert header[..] == old(unread)[..4];
      var length := ReadInt32(header[..]);
      if length <= 0 || length > MAX_MESSAGE_BYTES {
        return BadLength(length);
      }
      var body := new byte[length];
      ok := ReadExact(body);
      if !ok {
        return Ended;
      }
      assert body[..] == old(unread)[4..4 + length] && unread == old(unread)[4 + length..];
      return Message(body[..]);
    }

    /** Repeated reads until one gives no message. */
    method ReadAll() returns (bodies: seq<seq<byte>>, last: Outcome)
      modifies this
      ensures (bodies, last) == ParseAll(old(unread))
    {
      bodies := [];
      ContinueOn([], unread);
      assert [] + ParseAll(unread).0 == ParseAll(unread).0;
      last := ReadMessage();
      while last.Message?
        invariant last.Message? ==> |unread| < |old(unread)|
        invariant ParseAll(old(unread)) == Continue(bodies, last, unread)
        decreases if last.Message? then 1 + |unread| else 0
      {
        bodies := bodies + [last.body];
        ContinueOn(bodies, unread);
        last := ReadMessage();
      }
    }
  }

  /** The writing side of a stream. */
  class ByteSink {
    var written: seq<byte>
    /** The peer stays, and nobody cancels. */
    const steady: bool

    constructor (steady: bool)
      ensures written == [] && this.steady == steady
    {
      written, this.steady := [], steady;
    }

    /**
      Header, then body; a failing stream throws after a proper prefix of the frame, and a
      body that no array can hold throws at once.
     */
    method WriteMessage(body: seq<byte>) returns (ok: bool)
      modifies this
      ensures Sent(old(written), written, body, ok)
      ensures steady ==> (ok <==> |body| < INT32_LIMIT)
    {
      if |body| >= INT32_LIMIT {
        return false;
      }
      var frame := WriteInt32(|body|) + body;
      var sent: int := *;
      if 0 <= sent < |frame| && !steady {
        written := written + frame[..sent];
        return false;
      }
      written := written + frame;
      return true;
    }
  }
}
