/**
  `read_packet_async`: frames one packet off the connection's byte stream.

  The stream is modelled by the bytes the peer sends before it closes the
  connection. `ReadPacket` says what one call does to a stream in those
  terms; `ReadPacketAsync` is the call itself, over a `TcpStream` object
  whose unread bytes it consumes, filling a header array and a packet array
  in place as the source does.
 */
module Reader {
  import opened Bytes
  import opened Packets

  /** Buffer sizes from this value up trip the "suspiciously big" assert. */
  const MaxBufferSize: nat := 100

  /** `PacketReadError`; the parse variants carry the reason deku gave. */
  datatype PacketReadError =
    | CantRead
    | HeaderParseError(reason: ParseError)
    | PacketParseError(reason: ParseError)

  /** What one read produces. `Abort` is a panic of the connection task: the
      buffer-size assert, or a deku error other than `Parse`. */
  datatype ReadOutcome =
    | Packet(packet: ApplicationPacket)
    | Failed(error: PacketReadError)
    | Abort

  /** A read and the number of stream bytes it consumed. */
  datatype Frame = Frame(outcome: ReadOutcome, consumed: nat)

  /** A read after which the connection cannot go on reading. */
  predicate Terminal(o: ReadOutcome)
  {
    o.Abort? || o == Failed(CantRead)
  }

  /** The buffer size field of a stream that holds a full header. */
  function BufferSize(s: seq<byte>): u32
    requires |s| >= HeaderSize
  {
    LeToU32(s[16..20])
  }

  /** One call of `read_packet_async` on a stream holding `s`. `read_exact`
      consumes whatever is left when the stream ends early. */
  function ReadPacket(s: seq<byte>): (f: Frame)
    ensures f.consumed <= |s|
    ensures !Terminal(f.outcome) ==> f.consumed >= HeaderSize
  {
    if |s| < HeaderSize then Frame(Failed(CantRead), |s|)
    else
      match DecodeHeader(s[..HeaderSize])
      case Err(Parse(reason)) => Frame(Failed(HeaderParseError(reason)), HeaderSize)
      case Err(Incomplete(_)) => Frame(Abort, HeaderSize)
      case Ok(h) => ReadBody(s, h.bufferSize)
  }

  /** The part of `read_packet_async` after the header has been decoded:
      bound the size, read the body, decode header and body together. */
  function ReadBody(s: seq<byte>, size: u32): (f: Frame)
    requires |s| >= HeaderSize
    ensures f.consumed <= |s|
    ensures !Terminal(f.outcome) ==> f.consumed >= HeaderSize
  {
    if size >= MaxBufferSize then Frame(Abort, HeaderSize)
    else if |s| < HeaderSize + size then Frame(Failed(CantRead), |s|)
    else
      var n := HeaderSize + size;
      match FromBytes(s[..n])
      case Ok((p, _)) => Frame(Packet(p), n)
      case Err(Parse(reason)) => Frame(Failed(PacketParseError(reason)), n)
      case Err(Incomplete(_)) => Frame(Abort, n)
  }

  /** A packet the reader returns is what the consumed bytes encode: its
      buffer size is the number of body bytes taken, and its encoding is a
      prefix of the bytes taken (surplus body bytes are ignored). */
  lemma ReadPacketDecodes(s: seq<byte>)
    requires ReadPacket(s).outcome.Packet?
    ensures var f := ReadPacket(s);
            && f.consumed == HeaderSize + f.outcome.packet.header.bufferSize
            && Encode(f.outcome.packet) <= s[..f.consumed]
  {
    var h := DecodeHeader(s[..HeaderSize]).value;
    DecodeHeaderPrefix(s, HeaderSize + h.bufferSize);
  }

  /** Header stage: fewer than 21 bytes is `CantRead`; a full header always
      decodes, so `HeaderParseError` is never produced. */
  lemma ReadHeaderStage(s: seq<byte>)
    ensures |s| < HeaderSize ==> ReadPacket(s) == Frame(Failed(CantRead), |s|)
    ensures !ReadPacket(s).outcome.Failed? || !ReadPacket(s).outcome.error.HeaderParseError?
  {
  }

  /** Body stage, on a full header with buffer size `n`: a size of 100 or more
      aborts before any body byte is read; otherwise exactly `21 + n` bytes are
      taken, a stream that ends first is `CantRead`, an unknown message id is
      `PacketParseError`, and a body shorter than the variant's layout reaches
      the panic arm. */
  lemma ReadBodyStage(s: seq<byte>)
    requires |s| >= HeaderSize
    ensures BufferSize(s) >= MaxBufferSize ==> ReadPacket(s) == Frame(Abort, HeaderSize)
    ensures BufferSize(s) < MaxBufferSize && |s| < HeaderSize + BufferSize(s) ==>
              ReadPacket(s) == Frame(Failed(CantRead), |s|)
    ensures BufferSize(s) < MaxBufferSize && |s| >= HeaderSize + BufferSize(s) ==>
              && ReadPacket(s).consumed == HeaderSize + BufferSize(s)
              && (s[20] % 128 >= 4 <==> ReadPacket(s).outcome == Failed(PacketParseError(UnknownVariant(s[20] % 128))))
              && (s[20] % 128 < 4 && BufferSize(s) < LayoutLength(s[20] % 128) <==> ReadPacket(s).outcome.Abort?)
  {
    var h := DecodeHeader(s[..HeaderSize]);
    assert s[..HeaderSize][16..20] == s[16..20];
    LeBytesRoundTrip(s[16..20]);
    assert h.value.bufferSize == BufferSize(s);
    if BufferSize(s) < MaxBufferSize && |s| >= HeaderSize + BufferSize(s) {
      var n := HeaderSize + BufferSize(s);
      assert s[..n][20] == s[20];
      assert |s[..n][HeaderSize..]| == BufferSize(s);
    }
  }

  /** A stream that starts with an encoded packet whose buffer size is below
      the bound and covers its body yields that packet; the `padding` the size
      declares beyond the body is consumed and ignored, the `rest` is left. */
  lemma ReadEncoded(p: ApplicationPacket, padding: seq<byte>, rest: seq<byte>)
    requires p.header.bufferSize < MaxBufferSize
    requires |padding| == p.header.bufferSize - BodyLength(p.message)
    ensures ReadPacket(Encode(p) + padding + rest) == Frame(Packet(p), HeaderSize + p.header.bufferSize)
  {
    var e := Encode(p);
    var s := e + padding + rest;
    var n := HeaderSize + p.header.bufferSize;
    assert s[..HeaderSize] == e[..HeaderSize];
    assert s[..HeaderSize][16..20] == e[16..20];
    assert s[..n] == e + padding;
    DecodeEncode(p, padding);
  }

  /** The connection's socket: the bytes the peer has sent that have not been
      read yet. The peer closes the connection after the last of them. */
  class TcpStream {
    var pending: seq<byte>

    constructor (bytes: seq<byte>)
      ensures pending == bytes
    {
      pending := bytes;
    }

    /** `read_exact` into `buf[from..to]`. At the end of the stream it has
        consumed everything left and reports `UnexpectedEof` (`ok == false`). */
    method ReadExact(buf: array<byte>, from: nat, to: nat) returns (ok: bool)
      requires from <= to <= buf.Length
      modifies this, buf
      ensures ok == (to - from <= |old(pending)|)
      ensures ok ==> buf[from..to] == old(pending)[..to - from] && pending == old(pending)[to - from..]
      ensures !ok ==> pending == []
      ensures buf[..from] == old(buf[..from]) && buf[to..] == old(buf[to..])
    {
      var i := from;
      while i < to && pending != []
        invariant from <= i <= to
        invariant i - from <= |old(pending)|
        invariant pending == old(pending)[i - from..]
        invariant buf[from..i] == old(pending)[..i - from]
        invariant buf[..from] == old(buf[..from]) && buf[to..] == old(buf[to..])
      {
        buf[i] := pending[0];
        pending := pending[1..];
        i := i + 1;
      }
      ok := i == to;
    }
  }

  /** `read_packet_async`: read the header into its own array, bound the
      buffer size, read the body into the tail of the packet array, copy the
      header into its head and decode the whole array. */
  method ReadPacketAsync(socket: TcpStream) returns (outcome: ReadOutcome)
    modifies socket
    ensures outcome == ReadPacket(old(socket.pending)).outcome
    ensures socket.pending == old(socket.pending)[ReadPacket(old(socket.pending)).consumed..]
  {
    var headerBuffer := new byte[HeaderSize];
    var ok := socket.ReadExact(headerBuffer, 0, HeaderSize);
    if !ok {
      return Failed(CantRead);
    }
    assert headerBuffer[..] == old(socket.pending)[..HeaderSize];
    var header: PacketHeader;
    match DecodeHeader(headerBuffer[..]) {
      case Ok(h) =>
        header := h;
      case Err(Parse(reason)) =>
        return Failed(HeaderParseError(reason));
      case Err(Incomplete(_)) =>
        return Abort;
    }
    if header.bufferSize >= MaxBufferSize {
      return Abort;
    }
    var size := HeaderSize + header.bufferSize;
    var packetBuffer := new byte[size];
    ghost var afterHeader := socket.pending;
    ok := socket.ReadExact(packetBuffer, HeaderSize, size);
    if !ok {
      return Failed(CantRead);
    }
    ghost var body := packetBuffer[HeaderSize..size];
    assert body == afterHeader[..size - HeaderSize];
    forall i | 0 <= i < HeaderSize {
      packetBuffer[i] := headerBuffer[i];
    }
    assert packetBuffer[..] == old(socket.pending)[..size] by {
      assert packetBuffer[..HeaderSize] == headerBuffer[..];
      assert packetBuffer[HeaderSize..size] == body;
      assert packetBuffer[..] == packetBuffer[..HeaderSize] + packetBuffer[HeaderSize..size];
      assert old(socket.pending)[..size]
          == old(socket.pending)[..HeaderSize] + old(socket.pending)[HeaderSize..size];
    }
    assert socket.pending == old(socket.pending)[size..];
    match FromBytes(packetBuffer[..]) {
      case Ok((p, _)) =>
        return Packet(p);
      case Err(Parse(reason)) =>
        return Failed(PacketParseError(reason));
      case Err(Incomplete(_)) =>
        return Abort;
    }
  }
}
