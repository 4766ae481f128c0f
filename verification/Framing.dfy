/**
 The length-prefixed exchange of worker/firecracker/vsock/vsock.go.

 A connection delivers its bytes in chunks of any size, empty ones included, and then ends. An end
 stands for end of file, a reset and an expired deadline alike. It takes so many writes and no more;
 the first that fails may still have sent part of its data.
 */
module Framing {
  import opened Options

  newtype byte = x: int | 0 <= x < 256

  const MAX_RESPONSE: nat := 1024 * 1024

  /** `binary.BigEndian.PutUint32` of a length converted to 32 bits. */
  function BigEndian(n: nat): (b: seq<byte>)
    ensures |b| == 4
  {
    var m := n % 0x1_0000_0000;   // v
    var h := m / 0x100;           // v >> 8
    var g := h / 0x100;           // v >> 16
    [(g / 0x100) as byte, (g % 0x100) as byte, (h % 0x100) as byte, (m % 0x100) as byte]
  }

  /** `binary.BigEndian.Uint32` */
  function Decode(b: seq<byte>): (n: nat)
    requires |b| == 4
    ensures n < 0x1_0000_0000
  {
    ((b[0] as int * 0x100 + b[1] as int) * 0x100 + b[2] as int) * 0x100 + b[3] as int
  }

  /** The prefix carries the length modulo 2^32. */
  lemma DecodeBigEndian(n: nat)
    ensures Decode(BigEndian(n)) == n % 0x1_0000_0000
  {
  }

  /** The order of a dictionary over bytes. */
  predicate Before(a: seq<byte>, b: seq<byte>) {
    b != [] && (a == [] || a[0] < b[0] || (a[0] == b[0] && Before(a[1..], b[1..])))
  }

  /** Network byte order: prefixes are ordered as their bytes are read from the wire, first byte first. */
  lemma DecodeKeepsByteOrder(a: seq<byte>, b: seq<byte>)
    requires |a| == |b| == 4
    ensures Before(a, b) <==> Decode(a) < Decode(b)
  {
    assert a == [a[0]] + a[1..] && a[1..] == [a[1]] + a[2..] && a[2..] == [a[2]] + a[3..];
    assert b == [b[0]] + b[1..] && b[1..] == [b[1]] + b[2..] && b[2..] == [b[2]] + b[3..];
    assert Before(a[3..], b[3..]) <==> a[3] < b[3];
    assert Before(a[2..], b[2..]) <==> a[2] < b[2] || (a[2] == b[2] && a[3] < b[3]);
    assert Before(a[1..], b[1..]) <==> a[1] < b[1] || (a[1] == b[1] && Before(a[2..], b[2..]));
  }

  /** A short length is three zero bytes and itself. */
  lemma ShortLength(n: nat)
    requires n < 256
    ensures BigEndian(n) == [0, 0, 0, n as byte] && Decode([0, 0, 0, n as byte]) == n
  {
  }

  function Frame(body: seq<byte>): seq<byte> {
    BigEndian(|body|) + body
  }

  // Chunked streams.

  function Flat(chunks: seq<seq<byte>>): seq<byte> {
    if chunks == [] then [] else chunks[0] + Flat(chunks[1..])
  }

  datatype Failure = WriteFailed | EndOfStream | TooLarge(length: nat)

  datatype Outcome = Ok(body: seq<byte>) | Err(error: Failure)

  /** What the reader makes of a stream, however it is cut into chunks. */
  function Parse(stream: seq<byte>): Outcome {
    if |stream| < 4 then Err(EndOfStream)
    else
      var length := Decode(stream[..4]);
      if length > MAX_RESPONSE then Err(TooLarge(length))
      else if |stream| < 4 + length then Err(EndOfStream)
      else Ok(stream[4..4 + length])
  }

  class Conn {
    var incoming: seq<seq<byte>>
    var outgoing: seq<byte>
    var writes: nat             // how many more calls of Write succeed

    constructor (incoming: seq<seq<byte>>, writes: nat)
      ensures this.incoming == incoming && outgoing == [] && this.writes == writes
    {
      this.incoming, outgoing, this.writes := incoming, [], writes;
    }

    /** `conn.Read(buf[start..])`: at most one chunk, at most what fits. -1 is the end. */
    method Read(buf: array<byte>, start: nat) returns (n: int)
      requires start <= buf.Length
      modifies this`incoming, buf
      ensures n >= -1 && (n == -1 <==> old(incoming) == [])
      ensures n == -1 ==> incoming == old(incoming) && buf[..] == old(buf[..])
      ensures n >= 0 ==> start + n <= buf.Length && Flat(old(incoming)) == buf[start..start + n] + Flat(incoming)
      ensures n >= 0 ==> buf[..start] == old(buf[..start])
      ensures n >= 0 && start < buf.Length ==> n > 0 || |incoming| < |old(incoming)|
    {
      if incoming == [] {
        return -1;
      }
      var chunk := incoming[0];
      n := if |chunk| <= buf.Length - start then |chunk| else buf.Length - start;
      forall k | 0 <= k < n {
        buf[start + k] := chunk[k];
      }
      assert buf[start..start + n] == chunk[..n];
      assert chunk == chunk[..n] + chunk[n..];
      assert incoming == [chunk] + incoming[1..];
      if n == |chunk| {
        incoming := incoming[1..];
        assert chunk[..n] == chunk;
      } else {
        assert ([chunk[n..]] + incoming[1..])[1..] == incoming[1..];
        assert chunk + Flat(incoming[1..]) == chunk[..n] + (chunk[n..] + Flat(incoming[1..]));
        incoming := [chunk[n..]] + incoming[1..];
      }
    }

    /** `io.ReadFull`: fills the buffer or fails, for every cutting into chunks. */
    method ReadFull(buf: array<byte>) returns (ok: bool)
      modifies this`incoming, buf
      ensures ok <==> |Flat(old(incoming))| >= buf.Length
      ensures ok ==> Flat(old(incoming)) == buf[..] + Flat(incoming)
    {
      var n := 0;
      while n < buf.Length
        invariant 0 <= n <= buf.Length
        invariant Flat(old(incoming)) == buf[..n] + Flat(incoming)
        decreases buf.Length - n, |incoming|
      {
        ghost var before := buf[..n];
        var k := Read(buf, n);
        if k < 0 {
          return false;
        }
        ghost var got := buf[n..n + k];
        assert buf[..n + k] == before + got;
        assert before + (got + Flat(incoming)) == (before + got) + Flat(incoming);
        n := n + k;
      }
      assert buf[..n] == buf[..];
      return true;
    }

    /** `conn.Write(data)` */
    method Write(data: seq<byte>) returns (ok: bool)
      modifies this`outgoing, this`writes
      ensures ok <==> old(writes) > 0
      ensures ok ==> outgoing == old(outgoing) + data && writes == old(writes) - 1
      ensures !ok ==> writes == 0 && old(outgoing) <= outgoing <= old(outgoing) + data
    {
      if writes > 0 {
        writes := writes - 1;
        outgoing := outgoing + data;
        return true;
      }
      var sent :| 0 <= sent <= |data|;
      outgoing := outgoing + data[..sent];
      return false;
    }

    /** Writing the request, its length first. */
    method WriteFrame(data: seq<byte>) returns (ok: bool)
      modifies this`outgoing, this`writes
      ensures ok <==> old(writes) >= 2
      ensures ok ==> outgoing == old(outgoing) + Frame(data)
      ensures old(outgoing) <= outgoing <= old(outgoing) + Frame(data)
    {
      ok := Write(BigEndian(|data|));
      if ok {
        ok := Write(data);
      }
    }

    /** The reading half of `Execute`. */
    method ReadResponse() returns (r: Outcome)
      modifies this`incoming
      ensures r == Parse(Flat(old(incoming)))
      ensures r.Ok? ==> Flat(incoming) == Flat(old(incoming))[4 + |r.body|..]
    {
      var lenBuf := new byte[4];
      var ok := ReadFull(lenBuf);
      if !ok {
        return Err(EndOfStream);
      }
      assert Flat(old(incoming))[..4] == lenBuf[..];
      var respLen := Decode(lenBuf[..]);
      if respLen > MAX_RESPONSE {
        return Err(TooLarge(respLen));
      }
      var respData := new byte[respLen];
      ghost var rest := Flat(incoming);
      assert Flat(old(incoming))[4..] == rest;
      ok := ReadFull(respData);
      if !ok {
        return Err(EndOfStream);
      }
      assert rest[..respLen] == respData[..];
      return Ok(respData[..]);
    }

    /** `Execute`, between the handshake and the decoding of the body. */
    method Execute(data: seq<byte>) returns (r: Outcome)
      modifies this
      ensures r == Err(WriteFailed) <==> old(writes) < 2
      ensures old(writes) >= 2 ==>
                outgoing == old(outgoing) + Frame(data) && r == Parse(Flat(old(incoming)))
      ensures old(writes) < 2 ==> incoming == old(incoming) && outgoing <= old(outgoing) + Frame(data)
      ensures r.Ok? ==> Flat(incoming) == Flat(old(incoming))[4 + |r.body|..]
    {
      var sent := WriteFrame(data);
      if !sent {
        return Err(WriteFailed);
      }
      r := ReadResponse();
    }
  }

  lemma ParseAfterPrefix(prefix: seq<byte>, body: seq<byte>, rest: seq<byte>)
    requires |prefix| == 4 && Decode(prefix) == |body|
    ensures Parse(prefix + body + rest) == if |body| <= MAX_RESPONSE then Ok(body) else Err(TooLarge(|body|))
  {
    var stream := prefix + body + rest;
    assert stream[..4] == prefix && stream[4..4 + |body|] == body;
  }

  /** Round trip: a framed body of up to 1 MiB is read back exactly, whatever follows it, from every
      chunking. */
  lemma RoundTrip(body: seq<byte>, rest: seq<byte>, chunks: seq<seq<byte>>)
    requires Flat(chunks) == Frame(body) + rest && |body| < 0x1_0000_0000
    ensures Parse(Flat(chunks)) == if |body| <= MAX_RESPONSE then Ok(body) else Err(TooLarge(|body|))
  {
    DecodeBigEndian(|body|);
    ParseAfterPrefix(BigEndian(|body|), body, rest);
  }

  /** On the wire a short body is three zero bytes, its length and itself, in either direction. */
  lemma ShortBodyOnTheWire(body: seq<byte>)
    requires |body| < 256
    ensures Frame(body) == [0, 0, 0, |body| as byte] + body
    ensures Parse([0, 0, 0, |body| as byte] + body) == Ok(body)
  {
    ShortLength(|body|);
    ParseAfterPrefix(BigEndian(|body|), body, []);
    assert Frame(body) + [] == Frame(body);
  }

  /** The cap is 2^20 bytes: that many are returned, one more is refused, and so is whatever is longer. */
  lemma CapIsOneMebibyte(body: seq<byte>, rest: seq<byte>)
    requires |body| < 0x1_0000_0000
    ensures Parse(Frame(body) + rest) == Ok(body) <==> |body| <= 1048576
    ensures |body| >= 1048577 ==> Parse(Frame(body) + rest) == Err(TooLarge(|body|))
  {
    assert Flat([Frame(body) + rest]) == Frame(body) + rest;
    RoundTrip(body, rest, [Frame(body) + rest]);
  }

  /** The prefix determines the body exactly when its length fits in 32 bits. */
  lemma LengthFitsIff(body: seq<byte>)
    ensures Decode(Frame(body)[..4]) == |body| <==> |body| < 0x1_0000_0000
  {
    DecodeBigEndian(|body|);
    assert Frame(body)[..4] == BigEndian(|body|);
  }

  /** The reader returns a body exactly when the body is within the cap and the stream starts with its
      frame, so that no other stream passes for it. */
  lemma ParsesExactlyFrames(stream: seq<byte>, body: seq<byte>)
    ensures Parse(stream) == Ok(body) <==> |body| <= MAX_RESPONSE && Frame(body) <= stream
  {
    if Parse(stream) == Ok(body) {
      var b := stream[..4];
      BigEndianDecode(b);
      assert stream[..4 + Decode(b)] == b + stream[4..4 + Decode(b)];
    }
    if |body| <= MAX_RESPONSE && Frame(body) <= stream {
      var rest := stream[|Frame(body)|..];
      assert stream == Frame(body) + rest && Flat([stream]) == stream;
      RoundTrip(body, rest, [stream]);
    }
  }

  lemma BigEndianDecode(b: seq<byte>)
    requires |b| == 4
    ensures BigEndian(Decode(b)) == b
  {
    var m := Decode(b);
    var h := (b[0] as int * 0x100 + b[1] as int) * 0x100 + b[2] as int;
    assert m % 0x1_0000_0000 == m && m / 0x100 == h && h / 0x100 == b[0] as int * 0x100 + b[1] as int;
  }

  lemma PrefixIsTheLength(b: seq<byte>, n: nat)
    requires |b| == 4 && n < 0x1_0000_0000
    ensures b == BigEndian(n) <==> Decode(b) == n
  {
    BigEndianDecode(b);
    DecodeBigEndian(n);
  }

  /** The reader finds a length too large exactly when that length is what the stream starts with. */
  lemma TooLargeExactlyWhen(stream: seq<byte>, n: nat)
    ensures Parse(stream) == Err(TooLarge(n)) <==>
              MAX_RESPONSE < n < 0x1_0000_0000 && BigEndian(n) <= stream
  {
    if |stream| >= 4 && n < 0x1_0000_0000 {
      PrefixIsTheLength(stream[..4], n);
    }
  }

  /** The reader fails exactly when no frame of a body within the cap starts the stream. */
  lemma FailsExactlyWhen(stream: seq<byte>)
    ensures Parse(stream).Err? <==> forall body :: Frame(body) <= stream ==> |body| > MAX_RESPONSE
  {
    if Parse(stream).Ok? {
      ParsesExactlyFrames(stream, Parse(stream).body);
    } else {
      forall body | Frame(body) <= stream ensures |body| > MAX_RESPONSE {
        ParsesExactlyFrames(stream, body);
      }
    }
  }

  /** A stream that stops inside a frame yields no body. */
  lemma TruncationIsAnError(body: seq<byte>, cut: nat)
    requires |body| < 0x1_0000_0000 && cut < |Frame(body)|
    ensures Parse(Frame(body)[..cut]).Err?
  {
    DecodeBigEndian(|body|);
    if cut >= 4 {
      assert Frame(body)[..cut][..4] == BigEndian(|body|);
    }
  }
}
