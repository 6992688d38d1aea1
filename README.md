# Device bridge of camera-server, modelled in Dafny

This project models the control channel of the camera server's device bridge
(`src/device_connector`). It covers four parts:
- the binary packet codec that the deku derives give `ApplicationPacket`, its
  header and its four message bodies, plus the `ImageChunk` framing;
- `read_packet_async`, which frames one packet off a TCP stream;
- `handle_connection`, the per-connection loop, and `handle_packet`, its
  dispatch;
- `handle_registration`, the two-stage device registration against the
  database.

Files and modules:
- `bytes.dfy` (`Bytes`): bytes, fixed-size arrays, little-endian `u32`.
- `packets.dfy` (`Packets`): the wire format, its decoders, and the source's
  codec tests as lemmas.
- `reader.dfy` (`Reader`): the frame reader. It has two forms:
  - `ReadPacket`, a function from the bytes the peer sends to a result and
    the number of bytes consumed;
  - `ReadPacketAsync`, a method over a `TcpStream` object. It fills a header
    array, then the tail of a packet array, and copies the header in, as the
    source does. It is proved to agree with `ReadPacket`.
- `persistence.dfy` (`Persistence`): the database the registration handler
  queries.
  - It holds a user-id set and a device table keyed by device id, with the
    fields of `model::Device`.
  - Faults are injected by operation number.
  - `Database` is the mutable object. `UserQuery`, `DeviceQuery` and
    `DeviceInsert` specify its operations on the value `Store`.
- `registration.dfy` (`Registration`): `handle_registration`.
  - `Register` is the specification.
  - `HandleRegistration` is the imperative handler with the insert retry
    loop. It rewrites the pending row's id in place.
- `connector.dfy` (`Connector`): `handle_packet` and `handle_connection`.
  - `Dispatch` and `Connection` are the specifications.
  - `HandlePacket`, `HandleRound` and `HandleConnection` are the methods.
  - Also here: the `SessionList` table and `DeviceBridge`.

Modelling conventions:
- The TCP stream is the finite sequence of bytes the peer sends before it
  closes the connection. `read_exact` consumes what is left when the stream
  ends early.
- The cancellation token is a parameter `cancelRound`: the loop round in
  which cancellation wins the `select!`, if any.
- The random id generator is the sequence of ids it will produce.
- deku's errors are `Parse(reason)` or `Incomplete(needed)`.
  - A `Parse` error becomes `HeaderParseError` or `PacketParseError`.
  - Any other deku error reaches a `panic!` in the reader. The model records
    it as the outcome `Abort`, and the connection as `Panicked`.

Behaviour of the code worth noting:
- The code never rejects a `buffer_size` that differs from the message body's
  length (src/device_connector/packets.rs:141-150). A larger size makes the
  reader consume the extra bytes and ignore them (`ReadPacketDecodes`,
  `ReadEncoded`). A smaller size reaches the panic arm (`ReadBodyStage`).
- Every 21-byte header decodes, so `HeaderParseError` is never produced
  (src/device_connector/packets.rs:105-115, `ReadHeaderStage`).
- An unknown message id is a `PacketParseError`, and the loop goes on after
  it (src/device_connector/mod.rs:113-115, `RoundOutcomes`). The connection
  is not closed.

## Model

| member | source | states |
|---|---|---|
| Bytes.LeToU32 | src/device_connector/packets.rs:15-16 | a little-endian `u32` is read least significant byte first: its low byte is the first byte |
| Bytes.U32ToLe | src/device_connector/packets.rs:15-16 | a `u32` is written as exactly 4 bytes, the low byte first |
| Bytes.U32RoundTrip | src/device_connector/packets.rs:15-16 | reading back the 4 little-endian bytes written for a `u32` gives the same value |
| Bytes.LeBytesRoundTrip | src/device_connector/packets.rs:15-16 | every 4 bytes are the little-endian encoding of the `u32` they are read as, so any bit pattern is a valid buffer size |
| Packets.MessageId | src/device_connector/packets.rs:22-33 | the four variants carry the ids 0x00..0x03 |
| Packets.LayoutLength | src/device_connector/packets.rs:35-55 | the body layout chosen by an id is at most 54 bytes, and empty exactly for the no-operation id 0x00 |
| Packets.BodyLength | src/device_connector/packets.rs:35-55 | a message body is at most 54 bytes, and empty exactly for `NoOperation` |
| Packets.FlagsByte | src/device_connector/packets.rs:17-22 | byte 20 has bit 7 set exactly for a response, and its low 7 bits are the message id |
| Packets.EncodeBody | src/device_connector/packets.rs:35-55 | a body is 0, 54, 1 or 32 bytes according to its variant |
| Packets.Encode | src/device_connector/packets.rs:6-19 | an encoded packet is 21 bytes plus its body: session id in bytes 0..16, the buffer size as given in bytes 16..20, the flags byte at 20, the body from 21 on |
| Packets.DecodeHeader | src/device_connector/packets.rs:12-19 | a header decodes exactly when 21 bytes are there; otherwise the error is an incomplete-input error; the fields are the bytes at their positions |
| Packets.DecodeHeaderPrefix | src/device_connector/packets.rs:105-141 | decoding the header of the whole packet buffer gives the header decoded from its first 21 bytes |
| Packets.DecodeBody | src/device_connector/packets.rs:21-55 | a body decodes exactly when the id is 0x00..0x03 and the bytes cover its layout; an id above 3 is an unknown-variant parse error; a short body is an incomplete-input error; a decoded body re-encodes to the bytes it was read from |
| Packets.FromBytes | src/device_connector/packets.rs:6-10 | `from_bytes`: a short buffer is an incomplete-input error; an unknown id is a parse error; a decoded packet re-encodes to exactly the bytes it took, which are a prefix of the buffer; its header is the one decoded from the buffer |
| Packets.TryFrom | src/device_connector/packets.rs:174 | `try_from` succeeds only on a buffer that is exactly the encoding of the packet it returns |
| Packets.DecodeEncode | src/device_connector/packets.rs:6-55 | decoding an encoded packet followed by any bytes gives that packet and the length of its encoding |
| Packets.EncodeBodyInjective | src/device_connector/packets.rs:35-55 | two bodies with the same id and the same bytes are the same message |
| Packets.RoundTrip | src/device_connector/packets.rs:6-55 | `try_from(to_bytes(p)) == p` for every packet |
| Packets.DecodeNoopRequest | src/device_connector/packets.rs:166-177 | 21 zero bytes decode to a NoOperation request with zero session id and buffer size |
| Packets.RegistrationResponseFixture | src/device_connector/packets.rs:181-189 | the test buffer is 75 bytes long |
| Packets.EncodeRegistrationResponse | src/device_connector/packets.rs:180-201 | the expected RegisterDevice response encodes to exactly the test's 75 bytes, with flags 0b1_0000001 and buffer size 54 |
| Packets.DecodeRegistrationResponse | src/device_connector/packets.rs:180-201 | the 75-byte test buffer decodes to a response with buffer size 54, session id 0..15 and the four RegisterDevice fields equal to their slices |
| Packets.EncodeInitiateConnectionResponse | src/device_connector/packets.rs:205-225 | the InitiateConnection response encodes to the listed bytes: camera id before auth key, flags 0b1_0000011, size bytes 32,0,0,0 |
| Packets.ChunkTypeId | src/device_connector/packets.rs:57-64 | chunk type ids are 0x00..0x03 |
| Packets.DecodeChunkType | src/device_connector/packets.rs:57-64 | a type byte decodes exactly when it is below 4, to the type with that id; any other byte is an unknown-variant parse error |
| Packets.EncodeImageChunk | src/device_connector/packets.rs:66-73 | an encoded chunk is 4 + 1 + 16 + the image length bytes long |
| Packets.DecodeImageChunk | src/device_connector/packets.rs:66-73 | a chunk decodes exactly when there are at least 21 bytes and byte 4 is a known type; the image bytes are everything after byte 21, so the decoded chunk re-encodes to the whole input |
| Packets.ImageChunkRoundTrip | src/device_connector/packets.rs:66-73 | every chunk decodes back from its encoding |
| Packets.ImageChunkFixture | src/device_connector/packets.rs:229-245 | the 16384-byte zero image encodes to 4 + 1 + 16 + 16384 bytes and decodes to chunk id 5, MiddleChunk, session id 0..15 and 16384 image bytes |
| Reader.ReadPacket | src/device_connector/packets.rs:87-154 | a read never consumes more than the stream holds, and a read that leaves the connection usable consumes at least the 21-byte header |
| Reader.ReadBody | src/device_connector/packets.rs:116-154 | the body stage consumes at most the stream, and at least the header unless it ends the connection |
| Reader.ReadPacketDecodes | src/device_connector/packets.rs:116-153 | a returned packet's buffer size is the number of body bytes consumed, and its encoding is a prefix of the consumed bytes; surplus body bytes are ignored |
| Reader.ReadHeaderStage | src/device_connector/packets.rs:88-115 | fewer than 21 bytes give `CantRead`; `HeaderParseError` is never produced |
| Reader.ReadBodyStage | src/device_connector/packets.rs:116-153 | a buffer size of 100 or more aborts after the header; otherwise exactly 21 + size bytes are consumed, a stream that ends first gives `CantRead`, an id above 3 gives `PacketParseError` (both directions), and a body shorter than its layout reaches the panic arm (both directions) |
| Reader.ReadEncoded | src/device_connector/packets.rs:87-154 | a stream that starts with an encoded packet whose size is below 100 and covers its body yields that packet and consumes 21 + size bytes |
| Reader.TcpStream.ReadExact | src/device_connector/packets.rs:89-103 | `read_exact` fills the slice with the next bytes and advances the stream, or reports end of stream after consuming everything; the array outside the slice is untouched |
| Reader.ReadPacketAsync | src/device_connector/packets.rs:87-154 | the in-place reader returns `ReadPacket`'s outcome and leaves the stream past the consumed bytes |
| Persistence.UserQuery | src/device_connector/mod.rs:168-169 | the user lookup finds the user exactly when it is in the user table (unless the query faults), and changes no table |
| Persistence.DeviceQuery | src/device_connector/mod.rs:209-210 | the device lookup returns the row stored under the id, reports not-found only for an unknown id, and changes no table |
| Persistence.DeviceInsert | src/device_connector/mod.rs:182-183 | a successful insert adds the new row under a previously free id and keeps every existing row as it was; a unique violation means the id was taken; a failed insert changes no row; users are never touched |
| Persistence.Database.FindUser | src/device_connector/mod.rs:168-169 | the user lookup returns the user, not-found, or a fault, as `UserQuery` specifies |
| Persistence.Database.FindDevice | src/device_connector/mod.rs:209-210 | the device lookup returns the row, not-found, or a fault, as `DeviceQuery` specifies |
| Persistence.Database.InsertDevice | src/device_connector/mod.rs:182-183 | the insert adds the row, or reports a unique violation on an existing id, or a fault, as `DeviceInsert` specifies |
| Registration.FirstStageDevice | src/device_connector/mod.rs:173-179 | the first-stage row sits under the drawn id, has the first-stage flag set and carries the packet's user id, auth key and MAC |
| Registration.InsertLoop | src/device_connector/mod.rs:181-196 | the retry loop never touches the user table, draws no more ids than supplied, and can only end in success, `DatabaseError` or running out of ids |
| Registration.Register | src/device_connector/mod.rs:162-226 | registration never touches the user table and draws no more ids than supplied; a second-stage packet draws no id and writes no device row |
| Registration.InsertLoopEffect | src/device_connector/mod.rs:181-196 | the retry loop draws ids in order; every id drawn before the last was taken; on success the last id was free and exactly that row is added; a failed or exhausted loop leaves the device table unchanged; the outcome is only Ok, `DatabaseError` or out of ids |
| Registration.InsertLoopFault | src/device_connector/mod.rs:181-196 | the retry loop returns `DatabaseError` exactly when its last insert faults; every earlier insert ran without a fault, and the loop runs one operation per id tried |
| Registration.InsertLoopSucceeds | src/device_connector/mod.rs:181-196 | with a free id among the draws and no fault, the retry loop ends in a successful insert |
| Registration.RegisterUnknownUser | src/device_connector/mod.rs:166-201 | `UserDoesNotExist` is returned exactly when the camera id is zero and the user is unknown, and then nothing is inserted and no id is drawn |
| Registration.RegisterUserLookupFails | src/device_connector/mod.rs:203-206 | a failing user lookup in the first stage gives `DatabaseError` and writes nothing |
| Registration.RegisterFirstStageInserts | src/device_connector/mod.rs:173-196 | a successful first stage adds exactly one row: under the first free drawn id, with the first-stage flag set and the packet's auth key, MAC and user id |
| Registration.RegisterPreservesRows | src/device_connector/mod.rs:162-226 | registration never changes the user table or an existing device row, keeps rows under their own ids, and writes only on a successful first stage |
| Registration.RegisterEventuallySucceeds | src/device_connector/mod.rs:166-196 | with an existing user, no faults and a free id among the draws, the first stage registers the device |
| Registration.RegisterSecondStage | src/device_connector/mod.rs:208-225 | a non-zero camera id writes nothing and draws nothing; an existing device gives `OtherError`, an unknown one Ok (both directions), a fault `DatabaseError` |
| Registration.IdSource.Fill | src/device_connector/mod.rs:180 | filling an id yields the next supplied id, or none when the ids are used up |
| Registration.HandleRegistration | src/device_connector/mod.rs:162-226 | the handler's outcome, database and remaining ids are those `Register` specifies |
| Connector.SessionList.constructor | src/device_connector/mod.rs:30 | the session table starts empty |
| Connector.Dispatch | src/device_connector/mod.rs:128-154 | dispatch never yields `NonEnding` and never changes the user table; any message other than a registration is answered Ok and changes nothing |
| Connector.DispatchOutcomes | src/device_connector/mod.rs:128-154 | dispatch never yields `NonEnding`; a registration gives `Ending` exactly when the registration fails and Ok exactly when it succeeds; other messages give Ok and touch no state |
| Connector.HandlePacket | src/device_connector/mod.rs:128-154 | `handle_packet` does what `Dispatch` specifies and leaves the session table untouched |
| Connector.RoundOf | src/device_connector/mod.rs:93-116 | a round goes on only after a read that leaves the stream usable; it hands the handler exactly the packet it read |
| Connector.RoundEffect | src/device_connector/mod.rs:93-107 | a round changes the database and ids exactly as dispatching its packet does |
| Connector.RoundOutcomes | src/device_connector/mod.rs:94-116 | a panic and `CantRead` end the loop; a parse error goes round again; a packet goes round again exactly when the handler returns Ok or `NonEnding` |
| Connector.ApplyAllAppend | src/device_connector/mod.rs:88-96 | handling one run of packets and then another is handling them all in order |
| Connector.Connection | src/device_connector/mod.rs:87-120 | a connection leaves at most the bytes it was given unread, never changes the user table, and ends `Cancelled` only when a cancellation was set |
| Connector.ConnectionInOrder | src/device_connector/mod.rs:88-96 | the handler receives a prefix of the stream's packets, in arrival order, each once; the unread bytes are a suffix of the stream |
| Connector.ConnectionSequential | src/device_connector/mod.rs:88-107 | the database and ids after the loop are those of dispatching the handled packets one after another |
| Connector.ConnectionCancelBound | src/device_connector/mod.rs:89-92 | cancellation in round n stops the loop after at most n - round packets |
| Connector.ConnectionRunsToEnd | src/device_connector/mod.rs:88-116 | without cancellation and registrations, every packet of the stream is handled, no table changes, and the loop ends with the stream: `Panicked` after a reader panic, otherwise peer gone |
| Connector.HandleRound | src/device_connector/mod.rs:93-116 | one loop round reads, dispatches and decides whether to stop as `RoundOf` specifies |
| Connector.HandleConnection | src/device_connector/mod.rs:87-120 | the loop's end, handled packets, unread bytes, database and ids are those `Connection` specifies; the session table is untouched |
| Connector.DeviceBridge.Init | src/device_connector/mod.rs:78-79 | `init` stores the handles of the accept task and the UDP task |
| Connector.DeviceBridge.constructor | src/device_connector/mod.rs:29-43 | a new bridge keeps its port, has a fresh empty session table, and has run `init` |

## Left out

- Socket setup and tasks in `DeviceBridge::init`: binding, `set_nonblocking`, `spawn` and the accept loop are I/O and concurrency. `DeviceBridge.Init` only records that both task handles are set.
- The cancellation token and `select!`: the race is reduced to the `cancelRound` parameter. Concurrent connections sharing the session table and the database are not modelled; each connection is a sequential run.
- The UDP task, which only logs one datagram, and the Rocket fairing, which is framework glue.
- diesel, SQLite and the `MainDatabase` pool: replaced by the `Store` value and the `Database` object. Faults are injected by operation number, and the error inside `DatabaseError` is dropped.
- `rand::thread_rng().fill`: replaced by a supplied sequence of ids. The source draws without bound. Running out of supplied ids (`OutOfIds`, `IdsExhausted`, `CandidatesExhausted`) is an outcome of the model only.
- I/O errors other than end of stream: their `panic!`s are not modelled, because the modelled stream has no such errors. Panics on non-`Parse` deku errors and the buffer-size `assert!` are the outcome `Abort`.
- The `unsafe set_len`: the packet array is allocated at its final length.
- deku's error strings: `Parse` carries a structured reason (unknown variant, too much data) instead of text.
- `ImageChunk.chunk_id` has no declared endianness. The model writes it little-endian, deku's default on the usual targets.
- All `log::` calls.
- The socket handed to `handle_packet` and `handle_registration` is never written to, so the model does not pass it.
- `Session` has no fields, and nothing reads or writes the session table.
