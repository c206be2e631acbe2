# MiIO local protocol client: a Dafny model

This project models the client side of the Xiaomi MiIO local protocol as
the Go repository implements it. It covers:

- the 32-byte packet header: magic 0x2131, length, unknown field, device
  id, timestamp, and the 16-byte checksum slot;
- the packet's encoding and parsing (`Pack`, `Unpack`, `NewPacket`,
  `ParsePacket`) and its big-endian byte helpers;
- payload encryption: AES-128 in CBC mode with PKCS#5 padding. The key is
  MD5(token) and the IV is MD5(key ‖ token). The checksum is the MD5 of the
  header, token and payload;
- the per-device session `MiIoDevice`: `Connect`, the `Hello` handshake
  with its clock offset, `Prepare`, `Send`, `Close`;
- the legacy `Device` client, with `Hello`, `Info` and `Reg`;
- the framing `ReceivePacket` applies to a reply in both clients: the magic
  check, the declared size, and the cut or zero padding to that size;
- both discovery loops. Each reads answers to a broadcast Hello into one
  reused 32-byte buffer;
- the model-string classification, with its hexadecimal token decoding.

The modules are:

- `Outcomes`: the error kinds. Go runtime panics are the error
  `Panic(kind)`.
- `Bytes`: the big-endian reads and writes, and PKCS#5.
- `Crypto`: MD5 and the AES block cipher are parameters. CBC is written
  out on top of the block cipher.
- `Packets`: packets as values (`Created`, `Unpacked`, `Parsed`) and as
  the `Packet` class.
- `Framing`: what `ReceivePacket` makes of a reply datagram.
- `Session`: the `MiIoDevice` class.
- `Legacy`: the legacy `Device` class.
- `Discovery`: the discovery listener.
- `MiioDiscovery`: the legacy discovery.
- `DeviceTypes`: the model-string classification.

Each class method is proved against a function on plain values. These are
`HelloStep`, `ConnectStep`, `CloseStep`, `SendStep`, `RequestStep`,
`Listened` and `Reported`. The lemmas then state what those functions
promise.

Three inputs are parameters rather than code:

- What the network does. Whether the dial and the write succeed, and the
  reply bytes, come in as `Exchange`, `Datagram` and `Unicast` values.
- The wall clock, as `now`: Unix seconds truncated to 32 bits.
- The JSON encoder, as `marshal`.

A ghost `Sent` log on each device class records the frames written on its
connection.

Where the code and the protocol's intent differ, the model follows the code:

- `pkcs5Unpad` checks only the last byte. A last byte of 0 is accepted and
  nothing is removed.
- A frame whose length field is below 0x20 reaches a negative-length
  slice in `Unpack`. The model gives `Panic(SliceBounds)` there. This
  happens on the raw 32-byte buffer of both discovery listeners, and the
  panic ends the listener: a malformed broadcast answer is not skipped.
  A reply read through `ReceivePacket` never gets there, because it is cut
  to its declared size first. Below 0x20 that gives `ErrReadFromBuf`, and
  a declared size below 4 panics inside `ReceivePacket` instead. In the
  legacy discovery that panic, raised by the unicast Hello, ends the
  listener too.
- Unpadding an empty decrypted payload indexes position -1. This happens
  for a data packet built with a nil payload and parsed with its token,
  and the model gives `Panic(IndexOutOfRange)`.
- The checksum of a received packet is never verified.
- `CheckDevice` recognises only the four mono bulbs, so `CreateDevice`
  never builds a repeater.

## Model

| member | source | states |
|---|---|---|
| Bytes.ReadInt8 | miio/utils.go:35-44 | A read past the end gives `ErrReadFromBuf` and leaves the offset unchanged. Otherwise it gives the byte at the offset and advances one. |
| Bytes.ReadInt16 | miio/utils.go:46-55 | A read past the end gives `ErrReadFromBuf` and value 0 at the same offset. Otherwise it succeeds and advances two. |
| Bytes.ReadInt32 | miio/utils.go:57-70 | A read past the end gives `ErrReadFromBuf` and value 0 at the same offset. Otherwise it succeeds and advances four. |
| Bytes.ReadBytes | miio/utils.go:72-81 | A short buffer gives `ErrReadFromBuf`. A negative length that passes the bounds check panics on the slice. Otherwise the result is exactly the `length` bytes at the offset, and the offset advances by `length`. |
| Bytes.ReadString | miio/utils.go:83-86 | Same error and offset as `ReadBytes`; on success, one character per byte. |
| Bytes.ReadInt16Encoding | miio/utils.go:46-55 | The value read is the big-endian number of the two bytes: re-encoding it gives those bytes back. |
| Bytes.ReadInt32Encoding | miio/utils.go:57-70 | The value read is the big-endian number of the four bytes: re-encoding it gives those bytes back. |
| Bytes.ReadBackInt16 | miio/utils.go:23-55 | Reading back what `WriteInt16` writes gives the value, with offset + 2 and no error. |
| Bytes.ReadBackInt32 | miio/utils.go:29-70 | Reading back what `WriteInt32` writes gives the value, with offset + 4 and no error. |
| Bytes.WriteInt8 | miio/utils.go:17-21 | The byte at the offset is replaced, every other byte is kept, and the next offset is returned. |
| Bytes.WriteInt16 | miio/utils.go:23-27 | The two bytes at the offset become the big-endian value, every other byte is kept, and the offset advances two. |
| Bytes.WriteInt32 | miio/utils.go:29-33 | The four bytes at the offset become the big-endian value, every other byte is kept, and the offset advances four. |
| Bytes.Pkcs5Pad | miio/packet.go:124-129 | The data is kept as a prefix. Between 1 and `blockSize` bytes follow, making the length a multiple of the block size. Each added byte holds the pad length (mod 256). |
| Bytes.Pkcs5Unpad | miio/packet.go:131-138 | Empty input panics on index -1. Otherwise it succeeds iff the last byte is below the length and at most the block size; failure is `ErrPadding`. On success it drops exactly that many trailing bytes. |
| Bytes.UnpadPad | miio/packet.go:124-138 | Unpadding the padding of non-empty data gives the data back. For empty data the whole block is pad and unpadding fails with `ErrPadding`. |
| Bytes.UnpadAcceptsZero | miio/packet.go:131-138 | A final zero byte is accepted as padding and nothing is removed. |
| Bytes.UnpadChecksOnlyLastByte | miio/packet.go:131-138 | Two inputs of the same length with the same last byte are accepted or rejected alike and cut at the same place. The other pad bytes are never checked. |
| Crypto.CbcEncrypt | miio/packet.go:235-239 | CBC encryption keeps the length of whole-block input. |
| Crypto.CbcDecrypt | miio/packet.go:218-220 | CBC decryption keeps the length of whole-block input. |
| Crypto.CbcRoundTrip | miio/packet.go:218-239 | With a block decryption that inverts encryption, CBC decryption inverts CBC encryption under the same key and IV. |
| Packets.Encrypted | miio/packet.go:225-245 | The encrypted payload is whole blocks: longer than the payload by 1 to 16 bytes. |
| Packets.Packet.constructor | miio/packet.go:86-89 | A new packet holds the given header, checksum and token, with no key or IV and no data. |
| Packets.Packet.Encrypt | miio/packet.go:225-245 | Without a key or IV it fails with `ErrCryptoNotSet` and changes nothing. Otherwise `Data` becomes the CBC encryption of the padded payload, and `Length` grows by its size modulo 2^16. |
| Packets.Packet.Decrypt | miio/packet.go:208-223 | Without a key or IV it fails with `ErrCryptoNotSet`. Otherwise the result is the unpadded CBC decryption of `Data`, or its error. |
| Packets.Packet.Open | miio/packet.go:96-119 | Key and IV become MD5(token) and MD5(key ‖ token). `Data` is replaced by its decryption exactly when that succeeds; otherwise the decryption's error is returned. |
| Packets.Packet.Pack | miio/packet.go:140-161 | The bytes are the 16 header bytes, then the checksum (the fixed one for Hello, otherwise MD5 of header, token and data, which is stored), then the data (none for Hello). |
| Packets.Packet.CalculateChecksum | miio/packet.go:163-171 | The checksum is MD5 of `buf`, the token and `Data`, in that order; a nil token adds no bytes. |
| Packets.Packet.Unpack | miio/packet.go:173-206 | Succeeds iff the buffer is a well-formed frame. On success the fields are the frame's; on failure it gives the frame's error (short buffer, wrong magic, or the slice panic). |
| Packets.NewPacket | miio/packet.go:40-83 | The new packet is the one `Created` describes, or fails with its error. |
| Packets.ParsePacket | miio/packet.go:85-122 | The parsed packet is the one `Parsed` describes, or fails with its error. |
| Packets.HelloEncoding | miio/packet.go:40-153 | The Hello packet always builds, whatever token or payload is passed. It has the sentinel unknown field, length 0x20, an all-0xFF checksum, no data and no token. Its 32 bytes are `21 31 00 20`, eight 0xFF, the timestamp, sixteen 0xFF. |
| Packets.NilTokenFails | miio/packet.go:55-57 | A data packet without a token cannot be built: `ErrTokenNil`. |
| Packets.CreatedLength | miio/packet.go:40-83 | A data packet with a token always builds. Its length is 0x20 plus the encrypted size (modulo 2^16), and the data is whole blocks, non-empty when a payload is given. A nil payload leaves no data. The wire size is 32 plus the data. |
| Packets.DataPacketChecksum | miio/packet.go:155-171 | Bytes 16 to 32 of a data packet are the MD5 of its first 16 bytes, the token and the data. |
| Packets.ReadBackHeader | miio/packet.go:173-194 | The header fields read back from the 16 bytes written by `Pack`. |
| Packets.UnpackFrame | miio/packet.go:173-206 | A frame with magic 0x2131, a 16-byte checksum and a consistent length unpacks to its header, checksum and data (no data when the length is 0x20). |
| Packets.UnpackPack | miio/packet.go:140-206 | Unpacking the bytes of a built and sealed packet gives back its header, checksum and data, as long as the length field does not wrap. |
| Packets.UnpackBadMagic | miio/packet.go:177-182 | Any other first two bytes give `ErrWrongPacket`. |
| Packets.UnpackShortBuffers | miio/packet.go:173-206 | With the right magic: fewer than 32 bytes, or a declared length beyond the buffer, gives `ErrReadFromBuf`. A declared length below 0x20 panics. |
| Packets.ParseEncode | miio/packet.go:85-122 | Parsing a data packet with its own token recovers the payload, id, timestamp, magic, key and IV. An empty payload instead fails with `ErrPadding`. |
| Packets.ParseEncodeNilPayload | miio/packet.go:131-133 | A data packet built with a nil payload panics on index -1 when parsed with its token. |
| Packets.ParseHelloFrame | miio/packet.go:85-95 | A 32-byte frame parses without a token to its own header and checksum, with no key, IV or data. |
| Packets.UnpackIgnoresChecksumBytes | miio/packet.go:195-197 | Frames that differ only in the checksum bytes unpack alike, up to that checksum. |
| Packets.ChecksumNotVerified | miio/packet.go:85-122 | Frames that differ only in the checksum parse alike, with or without a token: the checksum is never verified. |
| Framing.Buffered | device/miio_device.go:216-221 | The reader's buffer holds at most 4096 bytes, a prefix of the datagram, and the whole datagram when it fits. |
| Framing.FramedCases | device/miio_device.go:211-242 | A wrong magic gives `ErrWrongMagic`; the magic with a size below 4 panics (index out of range). Framing succeeds iff the magic is right, the size is at least 4, and either the size is exactly 4 or bytes are buffered past the header. A frame has exactly the declared size and starts with the magic and its own size. |
| Framing.FramedBytes | device/miio_device.go:233-239 | Each byte of a frame is the buffered byte at that position, or zero past the buffered bytes. |
| Framing.Completed | device/miio_device.go:233-239 | The second read succeeds iff the frame is only the header or bytes are buffered past it; the result has the declared size. |
| Framing.CopyInto | device/miio_device.go:236 | The copy moves as many bytes as there are and fit, into the positions from `at` on, and keeps every other byte. |
| Framing.ReadFrame | device/miio_device.go:218-241 | The header array, the magic and size checks and the frame give exactly `Framed` of the datagram. |
| Framing.Stamped | device/miio_device.go:233-235 | A new slice of the declared size holds the header's four bytes, then zeros. |
| Framing.Complete | device/miio_device.go:233-241 | The second read into the stamped slice gives exactly `Completed`. |
| Framing.FramedExact | device/miio_device.go:211-242 | A datagram of at most 4096 bytes with the magic and its own length as size comes back unchanged. |
| Framing.FramedPacket | device/miio_device.go:211-242 | The bytes of a packet whose header declares its own length pass through unchanged. |
| Framing.FramedIdempotent | device/miio_device.go:211-242 | Framing a frame again gives it back. |
| Framing.FramedCutsOrPads | device/miio_device.go:211-242 | A datagram longer than its declared size is cut to it; a shorter one is padded with zeros up to it. |
| Framing.FramedUnpack | device/miio_device.go:211-242 | A frame declaring less than 0x20 bytes unpacks to `ErrReadFromBuf`, never to the slice panic; a longer one unpacks with its declared length. |
| Session.MiIoDevice.constructor | device/miio_device.go:39-46 | A new device has the given id, IP and debug flag, request counter 1, no token, offset 0 and no connection. |
| Session.MiIoDevice.SendPacket | device/miio_device.go:206-209 | A write on a nil connection panics and on a closed one fails. Only a successful write on an open connection adds the frame to the log. |
| Session.MiIoDevice.ReceivePacket | device/miio_device.go:211-242 | A read on a nil connection panics and on a closed one fails. On an open connection, no datagram fails. Otherwise the result is the datagram as `Framing.Framed` frames it: a wrong magic is refused, a size below 4 panics, and the frame is cut or zero-padded to its declared size. |
| Session.MiIoDevice.Hello | device/miio_device.go:111-141 | The new state, log and result are those of `HelloStep`. The reply is parsed as `ReceivePacket` frames it. |
| Session.MiIoDevice.Connect | device/miio_device.go:64-95 | The new state, log and result are those of `ConnectStep`, whose Hello parses the framed reply. |
| Session.MiIoDevice.Close | device/miio_device.go:97-100 | The new state and result are those of `CloseStep`. |
| Session.MiIoDevice.Prepare | device/miio_device.go:143-159 | Refused with `ErrNotStarted` while the offset is 0, then with `ErrTokenUnknown` without a token. Otherwise it returns the encoded packet built from its arguments. |
| Session.MiIoDevice.Send | device/miio_device.go:161-204 | The new state, log and result are those of `SendStep`, which ends in `TransactStep`. |
| Session.MiIoDevice.Transact | device/miio_device.go:182-199 | The new state, log and result are those of `TransactStep`. A failed write, or a failed read (no datagram, a wrong magic, nothing buffered past the header), closes the session. A parse failure does not. A panic in the write or the read leaves before `Close`. |
| Session.ConnectEffects | device/miio_device.go:64-95 | With an offset held, Connect changes nothing and fails with `ErrAlreadyConnected`. Otherwise a non-empty IP replaces the address and resets the counter. Connect succeeds iff the dial, the write, the framing of the reply and its parse all succeed. On failure the offset is 0 and the id and token are kept. On success the connection is open and the offset is now minus the framed reply's timestamp (mod 2^32). Exactly the Hello frame was written. The reply's id and checksum are adopted only on first registration. |
| Session.ClockOffsetExample | device/miio_device.go:112-177 | A Hello at local time 1000 answered with device time 200 leaves the session as it was with offset 800. A Send at 1805 from that state writes one packet stamped 1005 that carries request id 1005. |
| Session.ConnectThenSendExample | device/miio_device.go:64-177 | The first `Connect` of a device, answered the same way, leaves it open with offset 800 and the announced id and checksum as id and token. The Send at 1805 then writes the packet stamped 1005 under that id and token. |
| Session.CloseResets | device/miio_device.go:97-100 | Close zeroes the offset and changes nothing else but the connection. It succeeds iff the connection was open, and then leaves it closed. |
| Session.SendEffects | device/miio_device.go:161-204 | On a session with the invariant, Send advances the counter once and keeps id, token and IP. It writes a frame iff the encoding and `Prepare` succeed and the write goes through; that frame is the packet stamped now minus the offset. A failed write, or a read whose framing fails without a panic, closes the connection, zeroes the offset and returns that error. A panic while framing changes only the counter. A framed reply is parsed with the token, and the offset ends up 0 exactly when it already was or the session was closed. |
| Session.ValidPreserved | device/miio_device.go:64-204 | Hello, Connect, Close and Send keep the invariant that a held offset means an open connection. |
| Session.SendNeverNilConnection | device/miio_device.go:144-186 | Under that invariant, Send never dereferences a nil connection. |
| Session.ParsedNeverNilDereference | miio/packet.go:85-122 | Parsing never dereferences nil. |
| Legacy.Device.constructor | miio/device.go:28-36 | A new device holds only its IP, with an open connection and an empty log. |
| Legacy.NewDevice | miio/device.go:28-36 | Nil iff the dial fails. Otherwise a new device at the IP with an open connection and nothing else set. |
| Legacy.Device.Close | miio/device.go:47-49 | The connection is closed. It succeeds iff it was open, and otherwise fails with `ErrNetwork`. |
| Legacy.Device.SendPacket | miio/device.go:51-53 | A write fails on a closed connection. Only a successful write adds the frame to the log. |
| Legacy.Device.ReceivePacket | miio/device.go:55-85 | A read on a closed connection, or a socket read error, fails. Otherwise the result is the datagram as `Framing.Framed` frames it: a wrong magic is refused, a size below 4 panics, and the frame is cut or zero-padded to its declared size. |
| Legacy.Device.PacketHello | miio/device.go:87-94 | Always the 32-byte Hello frame stamped with the current time. |
| Legacy.Device.Packet | miio/device.go:96-111 | Refused with `ErrNotStarted` while uptime or timestamp is 0, then with `ErrTokenUnknown` without a token. Otherwise it returns the encoded packet. |
| Legacy.Device.Hello | miio/requests.go:52-81 | The new fields, log and result are those of `HelloStep`. The reply is parsed as `ReceivePacket` frames it. |
| Legacy.Device.Call | miio/requests.go:89-116 | The fields are unchanged. The log and result are those of `RequestStep` for the request, whose reply is framed by `ReceivePacket`. |
| Legacy.Device.Info | miio/requests.go:83-117 | The fields are unchanged. The log and result are those of `RequestStep` for `miIO.info` with the uptime as id, the reply framed by `ReceivePacket`. |
| Legacy.Device.Reg | miio/requests.go:119-154 | The fields are unchanged. The log and result are those of `RequestStep` for `miIO.config_router` with the credentials, the reply framed by `ReceivePacket`. |
| Legacy.HelloEffects | miio/requests.go:52-81 | Hello succeeds iff the connection is open and the write, the framing of the reply and its parse succeed. On failure nothing changes. On success the id, token and uptime are the framed reply's device id, checksum and timestamp, the timestamp is now, and exactly the Hello frame was written. |
| Legacy.RequestEffects | miio/requests.go:83-117 | A request never changes the fields. It panics iff the handshake is missing (uptime or timestamp 0) or the token is unknown. The frame it writes is the packet stamped with the reconstructed device time. |
| Legacy.ParsedNeverExplicitPanic | miio/packet.go:85-122 | Parsing never raises the explicit panic, so that panic always comes from `Packet`. |
| Legacy.HelloThenRequest | miio/requests.go:75-94 | After a Hello, the reconstructed device time `elapsed` seconds later is the reply's timestamp plus `elapsed` (mod 2^32), and the request id is that timestamp. |
| Legacy.InfoBeforeHello | miio/requests.go:83-97 | `Info` on a fresh device panics without writing anything. |
| Discovery.Broadcast | discovery/discovery.go:21-33 | Each broadcast is the 32-byte Hello frame stamped with the current time. |
| Discovery.ReadInto | discovery/discovery.go:38 | A read overwrites the start of the buffer with at most 32 bytes of the datagram and keeps the rest. It returns the count. |
| Discovery.Receive | discovery/discovery.go:36-40 | After the read, the verdict is the classification of the whole buffer. |
| Discovery.Classify | discovery/discovery.go:40-42 | The listener crashes iff the parse of the buffer panics. It sees a device iff the parse succeeds with an id other than the sentinel, and that id is the one reported. |
| Discovery.Listen | discovery/discovery.go:35-49 | It emits one new device per sighting of `Listened`, in order, each with the announced id, the source IP, debug flag, counter 1, no token and no connection. It stops iff `Listened` crashes. |
| Discovery.NewDiscovery | discovery/discovery.go:15-50 | Without the listening socket it returns the error and nothing else. Otherwise it does what `Listen` does. |
| Discovery.ClassifyFullBuffer | discovery/discovery.go:40-42 | A full buffer crashes the listener iff it has the magic and a length below 0x20. It is a sighting iff it starts `21 31 00 20` and its id is not the sentinel, and the id is then bytes 8 to 12. |
| MiioDiscovery.Handled | miio/discovery.go:38-50 | A failed read goes on with the buffer unchanged; otherwise the buffer holds the read bytes. A report is made only for a sighting with a successful dial, and it carries the greeted fields: the sender's IP, a token and an open connection. |
| Discovery.TwoRepliesOneEvent | discovery/discovery.go:35-49 | A sentinel reply followed by an announcing one yields exactly one sighting, from the second sender. |
| Discovery.OneEventThenSentinel | discovery/discovery.go:35-49 | An announcing reply followed by a sentinel one yields exactly one sighting, from the first sender. |
| Discovery.StaleBytesReemit | discovery/discovery.go:36-47 | A 2-byte datagram after an announcing frame re-emits the same id with the second sender's address, because the reused buffer keeps the old bytes. |
| Discovery.ListenedBound | discovery/discovery.go:35-49 | Failed reads are skipped. There is at most one sighting per datagram, and never the sentinel id. |
| MiioDiscovery.Contact | miio/discovery.go:42-46 | It panics iff the dial fails or the unicast Hello panics (a reply declaring a size below 4). It yields a device iff the dial and the Hello succeed; the device is new and holds the Hello's fields. |
| MiioDiscovery.Serve | miio/discovery.go:38-50 | One pass of the loop does what `Handled` says: stop on a crashed buffer, a failed dial or a Hello that panics, go on with the buffer as read, or report a new device holding the greeted fields. |
| MiioDiscovery.Discovery.constructor | miio/discovery.go:13 | The reporter starts empty. |
| MiioDiscovery.Discovery.Listen | miio/discovery.go:34-53 | The reporter keeps its earlier devices, followed by one device per report of `Reported`, in order, each holding that report's fields. The loop stops iff `Reported` crashes. |
| MiioDiscovery.Discovery.Round | miio/discovery.go:38-50 | One answer: the reporter gains the reported device, if any. On a stop, what has been reported so far is all there is and the loop crashed; otherwise the reports seen so far grow by this device. |
| MiioDiscovery.NewDiscovery | miio/discovery.go:12-56 | Nil iff the socket cannot be opened. Otherwise the new discovery's reporter holds exactly the reported devices. |
| MiioDiscovery.ReportFromUnicastReply | miio/discovery.go:42-48 | A reported device is the one dialled at the sender's address. It carries the id, token and uptime of the framed unicast reply, whatever the broadcast reply said, and the time of that Hello. Only the Hello frame was written to it. |
| MiioDiscovery.OneResponder | miio/discovery.go:38-50 | For one announcing frame: a failed dial or a Hello that panics ends the loop, any other failed Hello reports nothing, and a successful one reports the greeted device. A unicast reply with the magic and a declared size below 4 panics and ends the loop. |
| MiioDiscovery.ReportedBound | miio/discovery.go:34-53 | At most one report per answer. Every reported device has a token and an open connection, and its IP is the source of some answer. |
| DeviceTypes.CheckDevice | device/device.go:40-72 | The type is `Bulb` iff the model is one of the four mono bulbs, and `NoType` otherwise. |
| DeviceTypes.HexDecode | device/device.go:78 | Decoding yields at most one byte per two characters. |
| DeviceTypes.HexDecodeEncode | device/device.go:78 | A lower-case hex encoding decodes to its bytes, whatever follows it. |
| DeviceTypes.HexDecodeStopsAtBadDigit | device/device.go:78 | The decoding error is dropped: decoding stops at the first pair with a bad digit, leaving the bytes before it. |
| DeviceTypes.CreateDevice | device/device.go:76-88 | A device is created iff the model is a mono bulb, always as a bulb, with the decoded token. The repeater branch is unreachable. |
| DeviceTypes.Name | device/device.go:16-27 | Each of the three types has its own name, and every other value gets "n/a": each name is returned iff the type is that one. |

## Left out

- main.go, miio/miot_spec.go, miio/protocol.go, device/bulb.go and device/repeater.go are not part of this model. They are callers and device-specific commands outside the protocol core.
- MD5 and AES are not modelled; they are the functions of a `Primitives` value. The only assumption about them is that AES block decryption inverts block encryption (`Sound`). `aes.NewCipher` cannot fail on a 16-byte MD5 key, so its error path is not modelled.
- Sockets are not modelled. The dial, the write, the reply of `ReceivePacket` and every `ReadFromUDP` are parameters. The read deadlines and the broadcast `WriteToUDP` are left out. When the framing in `ReceivePacket` needs more bytes than the first socket read buffered past the header, Go's reader reads the socket again (the next datagram, or the read deadline of `MiIoDevice`); the model takes that read as failed (`ErrNetwork`).
- Legacy.Device.ReceivePacket: the legacy client sets no read deadline, so a device that never answers, or a reply that needs a second datagram that never comes, blocks `Hello`, `Info`, `Reg` and the legacy discovery listener forever. The model has no blocked outcome: a missing reply (`None`) stands only for a socket read error and gives `ErrNetwork`, and the legacy listener then goes on to the next answer where Go would hang.
- The package-level `pkcs5Pad`, `pkcs5Unpad` and `ReadPacket` of miio/utils.go are not modelled separately. They repeat the `Packet` methods and `ReceivePacket`, and `Bytes.Pkcs5Pad` and `Bytes.Pkcs5Unpad` model both copies.
- Concurrency is not modelled. Both listeners are modelled over a finite sequence of datagrams rather than an endless loop. The broadcast goroutines and their sleeps are left out; the frame they send is `Discovery.Broadcast`, which serves both discovery files. The channels become a returned sequence or the `Reporter` field.
- `json.Marshal` is a parameter, so the JSON text of requests is not modelled. The same goes for the logging and the `String`/`Retain` formatting.
- The `MiIoDevice` fields that the protocol does not touch are not modelled: model, type, name and the memory statistics. The same goes for the getters `Type`, `Model`, `ID` and `IP`. The legacy `Device.Reconnect` (miio/device.go:42-45) does nothing and is not modelled.
- Each operation reads the clock once (`now`). The Go code calls `time.Now()` separately for the request id and the packet timestamp.
- The request counter `request` is an unbounded integer; Go's `int` would wrap only after 2^63 requests.
- Packets.Packet.Unpack: on failure the model does not say which header fields were already overwritten before the error.
- MiioDiscovery.Discovery.Listen: does not state that the reported devices are newly allocated (each one is, by `Contact`). Only the fields they hold are stated.
- MiioDiscovery.NewDiscovery: like `Listen`, it does not state that the reported devices are newly allocated.
