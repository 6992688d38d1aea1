/**
  The control-channel wire format of the device bridge, written out field by
  field the way the deku derives on `ApplicationPacket`, `PacketHeader`,
  `Message` and the body structs read and write it.

  Layout of one packet:
    bytes 0..16   session id
    bytes 16..20  buffer size, little-endian u32
    byte  20      bit 7: is-response flag; bits 0..6: message id
    bytes 21..    the message body (0, 54, 1 or 32 bytes by message id)
 */
module Packets {
  import opened Bytes

  /** Length of the header including the byte it shares with the message id. */
  const HeaderSize: nat := 21

  datatype PacketHeader = PacketHeader(sessionId: Bytes16, bufferSize: u32, isResponse: bool)

  datatype RegisterDevicePacket =
    RegisterDevicePacket(userId: Bytes16, cameraId: Bytes16, authKey: Bytes16, macAddress: Bytes6)

  datatype InitiateConnectionPacket = InitiateConnectionPacket(cameraId: Bytes16, authKey: Bytes16)

  datatype UnregisterDevicePacket = UnregisterDevicePacket(success: byte)

  /** The message body, selected by a 7-bit id (0x00..0x03). `EmptyPacket`
      carries no field, so `NoOperation` carries none either. */
  datatype Message =
    | NoOperation
    | RegisterDevice(register: RegisterDevicePacket)
    | UnregisterDevice(unregister: UnregisterDevicePacket)
    | InitiateConnection(initiate: InitiateConnectionPacket)

  datatype ApplicationPacket = ApplicationPacket(header: PacketHeader, message: Message)

  /** Why a deku `Parse` error was raised. */
  datatype ParseError =
    | UnknownVariant(id: int)   // the enum id matches no variant
    | TooMuchData               // `try_from` found bytes left over

  /** The two kinds of deku failure the bridge distinguishes: `Parse` and
      running out of input (`Incomplete`), which the reader treats as fatal. */
  datatype DekuError = Parse(reason: ParseError) | Incomplete(needed: nat)

  /** The id written in front of each message variant. */
  function MessageId(m: Message): (id: byte)
    ensures id < 4
  {
    match m
    case NoOperation => 0x00
    case RegisterDevice(_) => 0x01
    case UnregisterDevice(_) => 0x02
    case InitiateConnection(_) => 0x03
  }

  /** Body length of the variant selected by a known id. */
  function LayoutLength(id: int): (n: nat)
    requires 0 <= id < 4
    ensures n <= 54
    ensures n == 0 <==> id == 0
  {
    if id == 0x00 then 0
    else if id == 0x01 then 16 + 16 + 16 + 6
    else if id == 0x02 then 1
    else 16 + 16
  }

  /** Body length of a message; the encoded body always has this length. */
  function BodyLength(m: Message): (n: nat)
    ensures n <= 54
    ensures n == 0 <==> m.NoOperation?
  {
    LayoutLength(MessageId(m))
  }

  /** Bit 7 of the shared byte is the response flag, bits 0..6 the message id. */
  function FlagsByte(isResponse: bool, id: int): (b: byte)
    requires 0 <= id < 128
    ensures (b >= 128) == isResponse && b % 128 == id
  {
    (if isResponse then 128 else 0) + id
  }

  /** The body bytes of a message, fields in declaration order. */
  function EncodeBody(m: Message): (r: seq<byte>)
    ensures |r| == BodyLength(m)
  {
    match m
    case NoOperation => []
    case RegisterDevice(p) => p.userId + p.cameraId + p.authKey + p.macAddress
    case UnregisterDevice(p) => [p.success]
    case InitiateConnection(p) => p.cameraId + p.authKey
  }

  /** `ApplicationPacket::to_bytes`. The header's buffer size is written as
      given; it is not recomputed from the body. */
  function Encode(p: ApplicationPacket): (r: seq<byte>)
    ensures |r| == HeaderSize + BodyLength(p.message)
    ensures r[..16] == p.header.sessionId
    ensures LeToU32(r[16..20]) == p.header.bufferSize
    ensures (r[20] >= 128) == p.header.isResponse && r[20] % 128 == MessageId(p.message)
    ensures r[HeaderSize..] == EncodeBody(p.message)
  {
    var r := p.header.sessionId + U32ToLe(p.header.bufferSize)
      + [FlagsByte(p.header.isResponse, MessageId(p.message))] + EncodeBody(p.message);
    assert r[16..20] == U32ToLe(p.header.bufferSize);
    U32RoundTrip(p.header.bufferSize);
    r
  }

  /** `PacketHeader::from_bytes`: 16 + 4 bytes and one bit. Any bit pattern
      is a valid header, so only a short input fails. */
  function DecodeHeader(b: seq<byte>): (r: Result<PacketHeader, DekuError>)
    ensures r.Ok? <==> |b| >= HeaderSize
    ensures r.Err? ==> r.error.Incomplete?
    ensures r.Ok? ==> r.value.sessionId == b[..16] && r.value.isResponse == (b[20] >= 128)
    ensures r.Ok? ==> U32ToLe(r.value.bufferSize) == b[16..20]
  {
    if |b| < HeaderSize then Err(Incomplete(HeaderSize - |b|))
    else
      LeBytesRoundTrip(b[16..20]);
      Ok(PacketHeader(b[..16], LeToU32(b[16..20]), b[20] >= 128))
  }

  /** The header is read from the first 21 bytes alone. */
  lemma DecodeHeaderPrefix(b: seq<byte>, n: nat)
    requires HeaderSize <= n <= |b|
    ensures DecodeHeader(b[..n]) == DecodeHeader(b[..HeaderSize])
  {
    assert b[..n][..16] == b[..HeaderSize][..16];
    assert b[..n][16..20] == b[..HeaderSize][16..20];
  }

  /** The `Message` enum read after the header: the 7-bit id selects the
      variant, whose fields are then read from `body` in order. */
  function DecodeBody(id: int, body: seq<byte>): (r: Result<Message, DekuError>)
    requires 0 <= id < 128
    ensures r.Ok? <==> id < 4 && |body| >= LayoutLength(id)
    ensures id >= 4 ==> r == Err(Parse(UnknownVariant(id)))
    ensures id < 4 && r.Err? ==> r.error.Incomplete?
    ensures r.Ok? ==> MessageId(r.value) == id && EncodeBody(r.value) == body[..LayoutLength(id)]
  {
    if id >= 4 then Err(Parse(UnknownVariant(id)))
    else if |body| < LayoutLength(id) then Err(Incomplete(LayoutLength(id) - |body|))
    else if id == 0x00 then Ok(NoOperation)
    else if id == 0x01 then
      Ok(RegisterDevice(RegisterDevicePacket(body[..16], body[16..32], body[32..48], body[48..54])))
    else if id == 0x02 then Ok(UnregisterDevice(UnregisterDevicePacket(body[0])))
    else Ok(InitiateConnection(InitiateConnectionPacket(body[..16], body[16..32])))
  }

  /** `ApplicationPacket::from_bytes`: the packet and the number of bytes it
      occupies. Bytes after the selected variant's layout are left unread. */
  function FromBytes(b: seq<byte>): (r: Result<(ApplicationPacket, nat), DekuError>)
    ensures |b| < HeaderSize ==> r.Err? && r.error.Incomplete?
    ensures |b| >= HeaderSize && b[20] % 128 >= 4 ==> r == Err(Parse(UnknownVariant(b[20] % 128)))
    ensures r.Ok? ==> r.value.1 <= |b| && Encode(r.value.0) == b[..r.value.1]
    ensures r.Ok? ==> DecodeHeader(b) == Ok(r.value.0.header)
  {
    match DecodeHeader(b)
    case Err(e) => Err(e)
    case Ok(h) =>
      match DecodeBody(b[20] % 128, b[HeaderSize..])
      case Err(e) => Err(e)
      case Ok(m) =>
        var p := ApplicationPacket(h, m);
        var n := HeaderSize + BodyLength(m);
        assert Encode(p) == b[..n] by {
          assert b[..n] == b[..16] + b[16..20] + [b[20]] + b[HeaderSize..][..BodyLength(m)];
        }
        Ok((p, n))
  }

  /** `ApplicationPacket::try_from`, used by the tests: like `FromBytes`, but
      bytes left over after the packet are a parse error. */
  function TryFrom(b: seq<byte>): (r: Result<ApplicationPacket, DekuError>)
    ensures r.Ok? ==> Encode(r.value) == b
  {
    match FromBytes(b)
    case Err(e) => Err(e)
    case Ok((p, n)) => if n == |b| then Ok(p) else Err(Parse(TooMuchData))
  }

  /** Decoding an encoded packet gives it back, whatever follows it: the
      decoder reads exactly the encoded bytes and ignores the rest. */
  lemma DecodeEncode(p: ApplicationPacket, rest: seq<byte>)
    ensures FromBytes(Encode(p) + rest) == Ok((p, |Encode(p)|))
  {
    var e := Encode(p);
    var b := e + rest;
    assert b[..|e|] == e;
    assert b[HeaderSize..][..BodyLength(p.message)] == EncodeBody(p.message);
    var h := DecodeHeader(b);
    assert h.Ok?;
    LeBytesRoundTrip(b[16..20]);
    U32RoundTrip(p.header.bufferSize);
    assert h.value == p.header;
    var m := DecodeBody(b[20] % 128, b[HeaderSize..]);
    assert m.Ok?;
    EncodeBodyInjective(m.value, p.message);
  }

  /** Two messages with the same id and the same body bytes are equal. */
  lemma EncodeBodyInjective(m1: Message, m2: Message)
    requires MessageId(m1) == MessageId(m2) && EncodeBody(m1) == EncodeBody(m2)
    ensures m1 == m2
  {
    var e := EncodeBody(m1);
    match m1
    case NoOperation =>
    case RegisterDevice(p1) =>
      var p2 := m2.register;
      assert p1.userId == e[..16] == p2.userId;
      assert p1.cameraId == e[16..32] == p2.cameraId;
      assert p1.authKey == e[32..48] == p2.authKey;
      assert p1.macAddress == e[48..54] == p2.macAddress;
    case UnregisterDevice(p1) =>
      assert p1.success == e[0] == m2.unregister.success;
    case InitiateConnection(p1) =>
      var p2 := m2.initiate;
      assert p1.cameraId == e[..16] == p2.cameraId;
      assert p1.authKey == e[16..32] == p2.authKey;
  }

  /** Round trip: every packet survives `to_bytes` followed by `try_from`. */
  lemma RoundTrip(p: ApplicationPacket)
    ensures TryFrom(Encode(p)) == Ok(p)
  {
    DecodeEncode(p, []);
    assert Encode(p) + [] == Encode(p);
  }

  /** The `decode_noop_request` test: 21 zero bytes are a NoOperation
      request with an empty body. */
  lemma DecodeNoopRequest()
    ensures TryFrom(seq(21, _ => 0)) == Ok(ApplicationPacket(PacketHeader(ZeroId, 0, false), NoOperation))
  {
    var p := ApplicationPacket(PacketHeader(ZeroId, 0, false), NoOperation);
    assert Encode(p) == seq(21, _ => 0);
    RoundTrip(p);
  }

  /** Field values shared by the codec's test fixtures. */
  const Ascending: Bytes16 := [0, 1, 2, 3, 4, 5, 6, 7, 8, 9, 10, 11, 12, 13, 14, 15]
  const Descending: Bytes16 := [15, 14, 13, 12, 11, 10, 9, 8, 7, 6, 5, 4, 3, 2, 1, 0]
  const FixtureKey: Bytes16 := [16, 17, 18, 19, 20, 21, 22, 23, 24, 25, 26, 27, 29, 30, 31, 32]
  const FixtureMac: Bytes6 := [0, 1, 2, 3, 4, 5]

  /** The 75 bytes of the `decode_registration_response` test. */
  function RegistrationResponseFixture(): (b: seq<byte>)
    ensures |b| == 75
  {
    Ascending + [54, 0, 0, 0] + [0x81] + (Ascending + Descending + FixtureKey + FixtureMac)
  }

  /** The packet the `decode_registration_response` test expects. */
  function RegistrationResponse(): ApplicationPacket
  {
    ApplicationPacket(
      PacketHeader(Ascending, 54, true),
      RegisterDevice(RegisterDevicePacket(Ascending, Descending, FixtureKey, FixtureMac)))
  }

  /** The expected response encodes to the test's bytes: buffer size 54 and
      flags byte 0b1_0000001, then the four fields in declaration order. */
  lemma EncodeRegistrationResponse()
    ensures Encode(RegistrationResponse()) == RegistrationResponseFixture()
  {
    assert U32ToLe(54) == [54, 0, 0, 0];
  }

  /** The `decode_registration_response` test: a 75-byte response whose
      fields are its consecutive slices. */
  lemma DecodeRegistrationResponse()
    ensures TryFrom(RegistrationResponseFixture()) == Ok(RegistrationResponse())
    ensures var d := TryFrom(RegistrationResponseFixture()).value;
      d.header.isResponse && d.header.bufferSize == 54 && d.header.sessionId == Ascending
    ensures var d := TryFrom(RegistrationResponseFixture()).value;
      d.message.RegisterDevice? && d.message.register.userId == Ascending
      && d.message.register.cameraId == Descending && d.message.register.authKey == FixtureKey
      && d.message.register.macAddress == FixtureMac
  {
    EncodeRegistrationResponse();
    RoundTrip(RegistrationResponse());
  }

  /** The `encode_initcomm_response` test: the camera id is written before
      the auth key, the flags byte is 0b1_0000011 and the buffer size is 32. */
  lemma EncodeInitiateConnectionResponse()
    ensures Encode(ApplicationPacket(
      PacketHeader(Ascending, 32, true),
      InitiateConnection(InitiateConnectionPacket(Descending, FixtureKey))))
      == Ascending + [32, 0, 0, 0] + [0x83] + Descending + FixtureKey
  {
    assert U32ToLe(32) == [32, 0, 0, 0];
  }

  /** Position of an image chunk in its image; its id is a whole byte. */
  datatype ImageChunkType = MiddleChunk | FirstChunk | LastChunk | OnlyChunk

  datatype ImageChunk =
    ImageChunk(chunkId: u32, chunkType: ImageChunkType, sessionId: Bytes16, imageBytes: seq<byte>)

  function ChunkTypeId(t: ImageChunkType): (id: byte)
    ensures id < 4
  {
    match t
    case MiddleChunk => 0x00
    case FirstChunk => 0x01
    case LastChunk => 0x02
    case OnlyChunk => 0x03
  }

  function DecodeChunkType(id: byte): (r: Result<ImageChunkType, DekuError>)
    ensures r.Ok? <==> id < 4
    ensures r.Ok? ==> ChunkTypeId(r.value) == id
    ensures r.Err? ==> r == Err(Parse(UnknownVariant(id)))
  {
    if id == 0x00 then Ok(MiddleChunk)
    else if id == 0x01 then Ok(FirstChunk)
    else if id == 0x02 then Ok(LastChunk)
    else if id == 0x03 then Ok(OnlyChunk)
    else Err(Parse(UnknownVariant(id)))
  }

  /** `ImageChunk::to_bytes`: chunk id (little-endian), type id, session id,
      then the image bytes unframed. */
  function EncodeImageChunk(c: ImageChunk): (r: seq<byte>)
    ensures |r| == 4 + 1 + 16 + |c.imageBytes|
  {
    U32ToLe(c.chunkId) + [ChunkTypeId(c.chunkType)] + c.sessionId + c.imageBytes
  }

  /** `ImageChunk::try_from`: the image bytes are whatever follows the
      21-byte prefix (`read_all`), so nothing is ever left over. */
  function DecodeImageChunk(b: seq<byte>): (r: Result<ImageChunk, DekuError>)
    ensures r.Ok? <==> |b| >= 4 + 1 + 16 && b[4] < 4
    ensures r.Ok? ==> EncodeImageChunk(r.value) == b
  {
    if |b| < 4 + 1 then Err(Incomplete(4 + 1 - |b|))
    else
      match DecodeChunkType(b[4])
      case Err(e) => Err(e)
      case Ok(t) =>
        if |b| < 4 + 1 + 16 then Err(Incomplete(4 + 1 + 16 - |b|))
        else
          var c := ImageChunk(LeToU32(b[..4]), t, b[5..21], b[21..]);
          LeBytesRoundTrip(b[..4]);
          assert b == b[..4] + [b[4]] + b[5..21] + b[21..];
          Ok(c)
  }

  /** Every image chunk survives encoding and decoding. */
  lemma ImageChunkRoundTrip(c: ImageChunk)
    ensures DecodeImageChunk(EncodeImageChunk(c)) == Ok(c)
  {
    var b := EncodeImageChunk(c);
    assert b[..4] == U32ToLe(c.chunkId);
    assert b[5..21] == c.sessionId;
    assert b[21..] == c.imageBytes;
    U32RoundTrip(c.chunkId);
  }

  /** The `image_chunk` test: a 16384-byte zero image encodes to
      4 + 1 + 16 + 16384 bytes and decodes to the same fields. */
  lemma ImageChunkFixture()
    ensures var c := ImageChunk(5, MiddleChunk, Ascending, seq(16384, _ => 0));
            && |EncodeImageChunk(c)| == 4 + 1 + 16 + 16384
            && DecodeImageChunk(EncodeImageChunk(c)).Ok?
            && var d := DecodeImageChunk(EncodeImageChunk(c)).value;
            && d.chunkId == 5 && d.chunkType == MiddleChunk
            && d.sessionId == Ascending
            && |d.imageBytes| == 16384
  {
    ImageChunkRoundTrip(ImageChunk(5, MiddleChunk, Ascending, seq(16384, _ => 0)));
  }
}
