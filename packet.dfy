/** The MiIO packet codec of miio/packet.go.

    Wire layout, all integers big-endian:
      offset 0  magic 0x2131      offset 2  length (0x20 + payload)
      offset 4  unknown/stamp     offset 8  device id
      offset 12 timestamp         offset 16 16-byte checksum
      offset 32 payload (AES-128-CBC ciphertext of the padded JSON)

    A Hello packet carries the sentinel device id 0xFFFFFFFF, the sentinel
    in the stamp field too, no payload and sixteen 0xFF bytes as checksum.
    A data packet's checksum is MD5(header ‖ token ‖ ciphertext).

    `Packet` is the Go struct: `NewPacket`, `Encrypt`, `Pack` and `Unpack`
    assign its fields step by step. Each is proved against a function on
    values (`Created`, `Packed`, `Unpacked`, `Parsed`) stated over fixed
    offsets and concatenations, and the round trips are lemmas about those.
 */
module Packets {
  import opened Outcomes
  import opened Bytes
  import opened Crypto

  const HelloPacketDeviceId: uint32 := 0xFFFF_FFFF
  const MagicNumber: uint16 := 0x2131
  const HeaderLength := 0x20

  /** The 16 bytes before the checksum. */
  datatype Header = Header(magic: uint16, length: uint16, unknown1: uint32, deviceId: uint32, timestamp: uint32)

  /** A packet's fields as a value: the derived key material and token,
      the header, the checksum and the payload. */
  datatype PacketValue = PacketValue(
    iv: Option<Block>, key: Option<Block>, deviceToken: Option<seq<byte>>,
    header: Header, checkSum: seq<byte>, data: seq<byte>)

  /** What `Unpack` reads: the header, the checksum, and the payload when the
      declared length asks for one (`None` leaves `Data` as it was). */
  datatype Frame = Frame(header: Header, checkSum: seq<byte>, data: Option<seq<byte>>)

  function HeaderBytes(h: Header): (r: seq<byte>)
    ensures |r| == 16
  {
    BigEndian16(h.magic) + BigEndian16(h.length) +
    BigEndian32(h.unknown1) + BigEndian32(h.deviceId) + BigEndian32(h.timestamp)
  }

  /** The token bytes hashed into the checksum (none for a nil token). */
  function TokenBytes(token: Option<seq<byte>>): seq<byte> {
    if token.Some? then token.value else []
  }

  /** MD5 over the 16 header bytes, the token and the ciphertext. */
  function Checksum(prims: Primitives, header: seq<byte>, token: Option<seq<byte>>, data: seq<byte>): Block {
    prims.md5(header + TokenBytes(token) + data)
  }

  /** The ciphertext of a payload: padded to the AES block, then CBC-encrypted. */
  function Encrypted(prims: Primitives, key: Block, iv: Block, payload: seq<byte>): (c: seq<byte>)
    ensures |c| % BlockSize == 0 && |payload| < |c| <= |payload| + BlockSize
  {
    CbcEncrypt(prims, key, iv, Pkcs5Pad(payload, BlockSize))
  }

  /** CBC-decrypt a payload and strip its padding. A payload that is not a
      whole number of blocks makes `CryptBlocks` panic, and an empty one
      makes the unpadding index position -1. */
  function Decrypted(prims: Primitives, key: Block, iv: Block, data: seq<byte>): Result<seq<byte>> {
    if |data| % BlockSize != 0 then Err(Panic(InputNotFullBlocks))
    else Pkcs5Unpad(CbcDecrypt(prims, key, iv, data), BlockSize)
  }

  /** The packet `NewPacket` returns, or its error. */
  function Created(prims: Primitives, deviceId: uint32, token: Option<seq<byte>>,
                   timestamp: uint32, payload: Option<seq<byte>>): Result<PacketValue>
  {
    if deviceId == HelloPacketDeviceId then
      Ok(PacketValue(None, None, None,
                     Header(MagicNumber, HeaderLength, HelloPacketDeviceId, deviceId, timestamp),
                     Repeat(0xFF, 16), []))
    else if token.None? then Err(ErrTokenNil)
    else
      var key := Key(prims, token.value);
      var iv := Iv(prims, token.value);
      var data := if payload.Some? then Encrypted(prims, key, iv, payload.value) else [];
      Ok(PacketValue(Some(iv), Some(key), token,
                     Header(MagicNumber, Wrap16(HeaderLength + |data|), 0, deviceId, timestamp),
                     Repeat(0xFF, 16), data))
  }

  /** The packet after `Pack`: a data packet's checksum is recomputed. */
  function Sealed(prims: Primitives, v: PacketValue): PacketValue {
    if v.header.deviceId == HelloPacketDeviceId then v
    else v.(checkSum := Checksum(prims, HeaderBytes(v.header), v.deviceToken, v.data))
  }

  /** The bytes of a packet whose checksum is in place: header, checksum and,
      except for a Hello packet, the payload. */
  function Wire(v: PacketValue): seq<byte> {
    HeaderBytes(v.header) + v.checkSum + (if v.header.deviceId == HelloPacketDeviceId then [] else v.data)
  }

  /** `NewPacket(...).Pack()`: the bytes that go on the wire. */
  function Encode(prims: Primitives, deviceId: uint32, token: Option<seq<byte>>,
                  timestamp: uint32, payload: Option<seq<byte>>): Result<seq<byte>>
  {
    var created := Created(prims, deviceId, token, timestamp, payload);
    if created.Err? then Err(created.error) else Ok(Wire(Sealed(prims, created.value)))
  }

  /** The 32-byte Hello frame sent with the sentinel id at `timestamp`. */
  function HelloFrame(timestamp: uint32): seq<byte> {
    HeaderBytes(Header(MagicNumber, HeaderLength, HelloPacketDeviceId, HelloPacketDeviceId, timestamp))
    + Repeat(0xFF, 16)
  }

  /** What `Unpack` reads from `buf`, by fixed offsets. The declared length
      is a uint16, so `Length - 0x20 > 0` holds for every length but 0x20:
      a length below 0x20 reaches `ReadBytes` with a negative count, passes
      its bound check and panics in the slice expression. */
  function Unpacked(buf: seq<byte>): Result<Frame> {
    if |buf| < 2 then Err(ErrReadFromBuf)
    else if ReadInt16(buf, 0).value != MagicNumber then Err(ErrWrongPacket)
    else if |buf| < 32 then Err(ErrReadFromBuf)
    else
      var h := Header(MagicNumber, ReadInt16(buf, 2).value, ReadInt32(buf, 4).value,
                      ReadInt32(buf, 8).value, ReadInt32(buf, 12).value);
      if h.length == HeaderLength then Ok(Frame(h, buf[16..32], None))
      else if h.length < HeaderLength then Err(Panic(SliceBounds))
      else if |buf| < h.length then Err(ErrReadFromBuf)
      else Ok(Frame(h, buf[16..32], Some(buf[32..h.length])))
  }

  /** The packet `ParsePacket(_, token, buf)` returns: the frame as read (the
      caller's device id is overwritten by the wire value), its payload
      decrypted only when a token is given, and the checksum never verified. */
  function Parsed(prims: Primitives, token: Option<seq<byte>>, buf: seq<byte>): Result<PacketValue> {
    var frame := Unpacked(buf);
    if frame.Err? then Err(frame.error)
    else
      var f := frame.value;
      var raw := if f.data.Some? then f.data.value else [];
      if token.None? then Ok(PacketValue(None, None, None, f.header, f.checkSum, raw))
      else
        var key := Key(prims, token.value);
        var iv := Iv(prims, token.value);
        var plain := Decrypted(prims, key, iv, raw);
        if plain.Err? then Err(plain.error)
        else Ok(PacketValue(Some(iv), Some(key), token, f.header, f.checkSum, plain.value))
  }

  class Packet {
    var iv: Option<Block>
    var key: Option<Block>
    var DeviceToken: Option<seq<byte>>
    var Magic: uint16
    var Length: uint16
    var Unknown1: uint32
    var DeviceId: uint32
    var Timestamp: uint32
    var CheckSum: seq<byte>
    var Data: seq<byte>

    /** A `&Packet{...}` literal: key, iv and payload unset. */
    constructor (magic: uint16, length: uint16, unknown1: uint32, deviceId: uint32, timestamp: uint32,
                 checkSum: seq<byte>, deviceToken: Option<seq<byte>>)
      ensures Head() == Header(magic, length, unknown1, deviceId, timestamp)
      ensures CheckSum == checkSum && DeviceToken == deviceToken
      ensures key == None && iv == None && Data == []
    {
      Magic, Length, Unknown1, DeviceId, Timestamp := magic, length, unknown1, deviceId, timestamp;
      CheckSum, DeviceToken := checkSum, deviceToken;
      key, iv, Data := None, None, [];
    }

    function Head(): Header
      reads this
    {
      Header(Magic, Length, Unknown1, DeviceId, Timestamp)
    }

    function Value(): PacketValue
      reads this
    {
      PacketValue(iv, key, DeviceToken, Head(), CheckSum, Data)
    }

    /** Pads and CBC-encrypts `payload` into `Data` and adds its length to
        `Length` (modulo 2^16); fails when key or iv is unset. */
    method Encrypt(prims: Primitives, payload: seq<byte>) returns (err: Option<Error>)
      modifies this`Data, this`Length
      ensures key.None? || iv.None? ==> err == Some(ErrCryptoNotSet) && Data == old(Data) && Length == old(Length)
      ensures key.Some? && iv.Some? ==>
        err == None && Data == Encrypted(prims, key.value, iv.value, payload) &&
        Length == Wrap16(old(Length) + |Data|)
    {
      if key.None? || iv.None? {
        return Some(ErrCryptoNotSet);
      }
      var data := Pkcs5Pad(payload, BlockSize);
      var encrypted := CbcEncrypt(prims, key.value, iv.value, data);
      Data := encrypted;
      Length := Wrap16(Length + Wrap16(|encrypted|));
      err := None;
    }

    /** Decrypts `Data` with the packet's key and iv and strips the padding. */
    method Decrypt(prims: Primitives) returns (r: Result<seq<byte>>)
      ensures key.None? || iv.None? ==> r == Err(ErrCryptoNotSet)
      ensures key.Some? && iv.Some? ==> r == Decrypted(prims, key.value, iv.value, Data)
    {
      if key.None? || iv.None? {
        return Err(ErrCryptoNotSet);
      }
      if |Data| % BlockSize != 0 {
        return Err(Panic(InputNotFullBlocks));
      }
      var decrypted := CbcDecrypt(prims, key.value, iv.value, Data);
      r := Pkcs5Unpad(decrypted, BlockSize);
    }

    /** The token branch of `ParsePacket`: the key and IV derived from the
        token, and the payload decrypted in place. */
    method Open(prims: Primitives, token: seq<byte>) returns (err: Option<Error>)
      modifies this`key, this`iv, this`Data
      ensures key == Some(Key(prims, token)) && iv == Some(Iv(prims, token))
      ensures var plain := Decrypted(prims, Key(prims, token), Iv(prims, token), old(Data));
        (err.None? <==> plain.Ok?) && (err.Some? ==> err.value == plain.error) &&
        (err.None? ==> Data == plain.value)
    {
      key := Some(prims.md5(token));
      iv := Some(prims.md5(key.value + token));
      var plain := Decrypt(prims);
      if plain.Err? {
        return Some(plain.error);
      }
      Data := plain.value;
      err := None;
    }

    /** MD5 over `buf`, the token and the payload; a nil token adds nothing. */
    function CalculateChecksum(prims: Primitives, buf: seq<byte>): (r: Block)
      reads this
      ensures DeviceToken.None? ==> r == prims.md5(buf + Data)
      ensures DeviceToken.Some? ==> r == prims.md5(buf + DeviceToken.value + Data)
    {
      assert buf + [] + Data == buf + Data;
      Checksum(prims, buf, DeviceToken, Data)
    }

    /** Writes the header big-endian into a 16-byte buffer; a data packet's
        checksum is then recomputed over it, and the payload follows. */
    method Pack(prims: Primitives) returns (bytes: seq<byte>)
      modifies this`CheckSum
      ensures Value() == Sealed(prims, old(Value()))
      ensures bytes == Wire(Value())
    {
      var buf := new byte[16];
      var offset := 0;
      offset := WriteInt16(buf, offset, Magic);
      offset := WriteInt16(buf, offset, Length);
      offset := WriteInt32(buf, offset, Unknown1);
      offset := WriteInt32(buf, offset, DeviceId);
      offset := WriteInt32(buf, offset, Timestamp);
      assert buf[..] == HeaderBytes(Head());
      if DeviceId == HelloPacketDeviceId {
        return buf[..] + CheckSum;
      }
      CheckSum := CalculateChecksum(prims, buf[..]);
      bytes := buf[..] + CheckSum + Data;
    }

    /** Reads the header fields one after the other, threading the offset,
        then the checksum and, unless the declared length is exactly 0x20,
        the payload. The key material and token are left alone. */
    method Unpack(buf: seq<byte>) returns (err: Option<Error>)
      modifies this`Magic, this`Length, this`Unknown1, this`DeviceId, this`Timestamp, this`CheckSum, this`Data
      ensures err.None? <==> Unpacked(buf).Ok?
      ensures err.Some? ==> err.value == Unpacked(buf).error
      ensures err.None? ==>
        Head() == Unpacked(buf).value.header && CheckSum == Unpacked(buf).value.checkSum &&
        Data == (if Unpacked(buf).value.data.Some? then Unpacked(buf).value.data.value else old(Data))
    {
      var offset: nat := 0;
      var r16 := ReadInt16(buf, offset);
      Magic, offset := r16.value, r16.offset;
      if r16.err.Some? {
        return r16.err;
      }
      if Magic != MagicNumber {
        return Some(ErrWrongPacket);
      }
      r16 := ReadInt16(buf, offset);
      Length, offset := r16.value, r16.offset;
      if r16.err.Some? {
        return r16.err;
      }
      var r32 := ReadInt32(buf, offset);
      Unknown1, offset := r32.value, r32.offset;
      if r32.err.Some? {
        return r32.err;
      }
      r32 := ReadInt32(buf, offset);
      DeviceId, offset := r32.value, r32.offset;
      if r32.err.Some? {
        return r32.err;
      }
      r32 := ReadInt32(buf, offset);
      Timestamp, offset := r32.value, r32.offset;
      if r32.err.Some? {
        return r32.err;
      }
      var rb := ReadBytes(buf, offset, 16);
      CheckSum, offset := rb.value, rb.offset;
      if rb.err.Some? {
        return rb.err;
      }
      if Wrap16(Length - HeaderLength) > 0 {
        rb := ReadBytes(buf, offset, Length - HeaderLength);
        if rb.err == Some(Panic(SliceBounds)) {
          return rb.err;
        }
        Data, offset := rb.value, rb.offset;
        if rb.err.Some? {
          return rb.err;
        }
      }
      err := None;
    }
  }

  /** `NewPacket`: a Hello packet for the sentinel id (token and payload
      ignored); otherwise the key and iv derived from the token and the
      payload, when there is one, encrypted. */
  method NewPacket(prims: Primitives, deviceId: uint32, deviceToken: Option<seq<byte>>,
                   timestamp: uint32, payload: Option<seq<byte>>) returns (r: Result<Packet>)
    ensures r.Ok? <==> Created(prims, deviceId, deviceToken, timestamp, payload).Ok?
    ensures r.Err? ==> r.error == Created(prims, deviceId, deviceToken, timestamp, payload).error
    ensures r.Ok? ==> fresh(r.value) && r.value.Value() == Created(prims, deviceId, deviceToken, timestamp, payload).value
  {
    var packet := new Packet(MagicNumber, HeaderLength, 0, deviceId, timestamp, Repeat(0xFF, 16), None);
    if deviceId == HelloPacketDeviceId {
      packet.Unknown1 := HelloPacketDeviceId;
      return Ok(packet);
    }
    if deviceToken.None? {
      return Err(ErrTokenNil);
    }
    packet.DeviceToken := deviceToken;
    packet.key := Some(prims.md5(deviceToken.value));
    packet.iv := Some(prims.md5(packet.key.value + deviceToken.value));
    if payload.Some? {
      // key and iv were just set, so Encrypt's error path is not taken
      var err := packet.Encrypt(prims, payload.value);
    }
    return Ok(packet);
  }

  /** `ParsePacket`: unpack `buf` into a fresh packet and, when a token is
      given, derive key and iv from it and decrypt the payload. */
  method ParsePacket(prims: Primitives, deviceId: uint32, deviceToken: Option<seq<byte>>, buf: seq<byte>)
    returns (r: Result<Packet>)
    ensures r.Ok? <==> Parsed(prims, deviceToken, buf).Ok?
    ensures r.Err? ==> r.error == Parsed(prims, deviceToken, buf).error
    ensures r.Ok? ==> fresh(r.value) && r.value.Value() == Parsed(prims, deviceToken, buf).value
  {
    var packet := new Packet(0, 0, 0, deviceId, 0, [], deviceToken);
    var err := packet.Unpack(buf);
    if err.Some? {
      assert Parsed(prims, deviceToken, buf) == Err(err.value);
      return Err(err.value);
    }
    ghost var f := Unpacked(buf).value;
    ghost var raw := if f.data.Some? then f.data.value else [];
    assert packet.Head() == f.header && packet.CheckSum == f.checkSum && packet.Data == raw;
    assert packet.DeviceToken == deviceToken && packet.key == None && packet.iv == None;
    if deviceToken.Some? {
      var derr := packet.Open(prims, deviceToken.value);
      if derr.Some? {
        return Err(derr.value);
      }
    }
    return Ok(packet);
  }

  // Properties of the codec

  /** A Hello packet ignores token and payload: 32 bytes, magic 0x2131,
      length 0x20, the sentinel in the stamp and id fields, the timestamp,
      then sixteen 0xFF bytes. */
  lemma HelloEncoding(prims: Primitives, token: Option<seq<byte>>, timestamp: uint32, payload: Option<seq<byte>>)
    ensures Created(prims, HelloPacketDeviceId, token, timestamp, payload).Ok?
    ensures var v := Created(prims, HelloPacketDeviceId, token, timestamp, payload).value;
      v.header.unknown1 == HelloPacketDeviceId && v.header.length == 0x20 &&
      v.checkSum == Repeat(0xFF, 16) && v.data == [] && v.deviceToken == None
    ensures Encode(prims, HelloPacketDeviceId, token, timestamp, payload) == Ok(HelloFrame(timestamp))
    ensures var f := HelloFrame(timestamp);
      |f| == 32 && f[..4] == [0x21, 0x31, 0x00, 0x20] &&
      f[4..12] == Repeat(0xFF, 8) && f[12..16] == BigEndian32(timestamp) && f[16..] == Repeat(0xFF, 16)
  {
    var h := Header(MagicNumber, HeaderLength, HelloPacketDeviceId, HelloPacketDeviceId, timestamp);
    var f := HelloFrame(timestamp);
    assert f == BigEndian16(MagicNumber) + BigEndian16(HeaderLength) + BigEndian32(HelloPacketDeviceId)
                + BigEndian32(HelloPacketDeviceId) + BigEndian32(timestamp) + Repeat(0xFF, 16);
    assert BigEndian16(MagicNumber) == [0x21, 0x31] && BigEndian16(HeaderLength) == [0x00, 0x20];
    assert BigEndian32(HelloPacketDeviceId) == [0xFF, 0xFF, 0xFF, 0xFF];
    assert f[..4] == [0x21, 0x31, 0x00, 0x20];
    assert f[4..12] == BigEndian32(HelloPacketDeviceId) + BigEndian32(HelloPacketDeviceId);
    assert f[12..16] == BigEndian32(timestamp);
    assert f[16..] == Repeat(0xFF, 16);
    var v := Created(prims, HelloPacketDeviceId, token, timestamp, payload).value;
    assert v.header == h && Sealed(prims, v) == v;
    assert Wire(v) == HeaderBytes(h) + Repeat(0xFF, 16) + [] == f;
  }

  /** A data packet needs a token: without one there is no packet. */
  lemma NilTokenFails(prims: Primitives, deviceId: uint32, timestamp: uint32, payload: Option<seq<byte>>)
    requires deviceId != HelloPacketDeviceId
    ensures Created(prims, deviceId, None, timestamp, payload) == Err(ErrTokenNil)
    ensures Encode(prims, deviceId, None, timestamp, payload) == Err(ErrTokenNil)
  {
  }

  /** After encryption the payload is a positive multiple of 16 bytes and
      the length field counts it (modulo 2^16); with a nil payload nothing
      is encrypted and the length stays 0x20. The frame is the 32 header
      and checksum bytes followed by the payload. */
  lemma CreatedLength(prims: Primitives, deviceId: uint32, token: seq<byte>, timestamp: uint32, payload: Option<seq<byte>>)
    requires deviceId != HelloPacketDeviceId
    ensures Created(prims, deviceId, Some(token), timestamp, payload).Ok?
    ensures var v := Created(prims, deviceId, Some(token), timestamp, payload).value;
      v.header.length == Wrap16(0x20 + |v.data|) &&
      (|v.data| < 0x1_0000 - 0x20 ==> v.header.length == 0x20 + |v.data|) &&
      (payload.Some? ==> 0 < |v.data| && |v.data| % 16 == 0 && |v.data| <= |payload.value| + 16) &&
      (payload.None? ==> v.data == [] && v.header.length == 0x20) &&
      |Wire(Sealed(prims, v))| == 32 + |v.data|
  {
  }

  /** The checksum of an encoded data packet is MD5 over its first 16 bytes,
      the token, and everything after byte 32. */
  lemma DataPacketChecksum(prims: Primitives, deviceId: uint32, token: seq<byte>, timestamp: uint32, payload: Option<seq<byte>>)
    requires deviceId != HelloPacketDeviceId
    ensures Encode(prims, deviceId, Some(token), timestamp, payload).Ok?
    ensures var w := Encode(prims, deviceId, Some(token), timestamp, payload).value;
      |w| >= 32 && w[16..32] == prims.md5(w[..16] + token + w[32..])
  {
    var v := Created(prims, deviceId, Some(token), timestamp, payload).value;
    var sealed := Sealed(prims, v);
    var w := Wire(sealed);
    assert w == HeaderBytes(v.header) + sealed.checkSum + v.data;
    assert w[..16] == HeaderBytes(v.header) && w[16..32] == sealed.checkSum && w[32..] == v.data;
  }

  /** The big-endian header read back at the fixed offsets gives its fields. */
  lemma ReadBackHeader(h: Header, buf: seq<byte>)
    requires |buf| >= 16 && buf[..16] == HeaderBytes(h)
    ensures ReadInt16(buf, 0).value == h.magic && ReadInt16(buf, 2).value == h.length
    ensures ReadInt32(buf, 4).value == h.unknown1 && ReadInt32(buf, 8).value == h.deviceId
    ensures ReadInt32(buf, 12).value == h.timestamp
  {
    var hb := HeaderBytes(h);
    assert buf[0..2] == hb[0..2] == BigEndian16(h.magic);
    assert buf[2..4] == hb[2..4] == BigEndian16(h.length);
    assert buf[4..8] == hb[4..8] == BigEndian32(h.unknown1);
    assert buf[8..12] == hb[8..12] == BigEndian32(h.deviceId);
    assert buf[12..16] == hb[12..16] == BigEndian32(h.timestamp);
    ReadBackInt16(buf, 0, h.magic);
    ReadBackInt16(buf, 2, h.length);
    ReadBackInt32(buf, 4, h.unknown1);
    ReadBackInt32(buf, 8, h.deviceId);
    ReadBackInt32(buf, 12, h.timestamp);
  }

  /** Unpacking a header, a 16-byte checksum and as many payload bytes as
      the length field declares gives them all back. */
  lemma UnpackFrame(h: Header, checkSum: seq<byte>, data: seq<byte>)
    requires h.magic == MagicNumber && |checkSum| == 16 && h.length == 0x20 + |data|
    ensures Unpacked(HeaderBytes(h) + checkSum + data) == Ok(Frame(h, checkSum, if data == [] then None else Some(data)))
  {
    var buf := HeaderBytes(h) + checkSum + data;
    assert buf[..16] == HeaderBytes(h);
    ReadBackHeader(h, buf);
    assert buf[16..32] == checkSum;
    assert buf[32..h.length] == data;
  }

  /** `Unpack(Pack(p))` recovers magic, length, stamp, id, timestamp, the
      checksum `Pack` put in place, and the payload, for every packet
      `NewPacket` builds whose length field has not wrapped. */
  lemma UnpackPack(prims: Primitives, deviceId: uint32, token: Option<seq<byte>>, timestamp: uint32, payload: Option<seq<byte>>)
    requires Created(prims, deviceId, token, timestamp, payload).Ok?
    requires |Created(prims, deviceId, token, timestamp, payload).value.data| < 0x1_0000 - 0x20
    ensures var v := Sealed(prims, Created(prims, deviceId, token, timestamp, payload).value);
      Unpacked(Wire(v)) == Ok(Frame(v.header, v.checkSum, if v.data == [] then None else Some(v.data)))
  {
    var v := Sealed(prims, Created(prims, deviceId, token, timestamp, payload).value);
    if deviceId == HelloPacketDeviceId {
      UnpackFrame(v.header, v.checkSum, []);
      assert Wire(v) == HeaderBytes(v.header) + v.checkSum + [];
    } else {
      UnpackFrame(v.header, v.checkSum, v.data);
    }
  }

  /** Any buffer at least two bytes long that does not start 0x21 0x31 is rejected. */
  lemma UnpackBadMagic(buf: seq<byte>)
    requires |buf| >= 2 && buf[..2] != [0x21, 0x31]
    ensures Unpacked(buf) == Err(ErrWrongPacket)
  {
    assert BigEndian16(MagicNumber) == [0x21, 0x31];
    assert buf[0..2] == buf[..2];
  }

  /** Read failures and the panic: a buffer shorter than the 32 header and
      checksum bytes, or than a declared length above 0x20, fails to read;
      a declared length below 0x20 panics. */
  lemma UnpackShortBuffers(buf: seq<byte>)
    requires |buf| >= 2 && buf[..2] == [0x21, 0x31]
    ensures |buf| < 32 ==> Unpacked(buf) == Err(ErrReadFromBuf)
    ensures |buf| >= 32 && buf[2] as int * 0x100 + buf[3] > |buf| ==> Unpacked(buf) == Err(ErrReadFromBuf)
    ensures |buf| >= 32 && buf[2] as int * 0x100 + buf[3] < 0x20 ==> Unpacked(buf) == Err(Panic(SliceBounds))
  {
    assert buf[0] == 0x21 && buf[1] == 0x31 by { assert buf[..2][0] == buf[0] && buf[..2][1] == buf[1]; }
  }

  /** Encoding then parsing with the same token gives back every non-empty
      payload, with the id and timestamp that were encoded. An empty (but
      non-nil) payload pads to one block of sixteen 16s, which unpadding
      rejects. */
  lemma ParseEncode(prims: Primitives, deviceId: uint32, token: seq<byte>, timestamp: uint32, payload: seq<byte>)
    requires prims.Sound() && deviceId != HelloPacketDeviceId && |payload| < 0xFFD0
    ensures Encode(prims, deviceId, Some(token), timestamp, Some(payload)).Ok?
    ensures var p := Parsed(prims, Some(token), Encode(prims, deviceId, Some(token), timestamp, Some(payload)).value);
      (payload == [] ==> p == Err(ErrPadding)) &&
      (payload != [] ==>
        p.Ok? && p.value.data == payload && p.value.header.deviceId == deviceId &&
        p.value.header.timestamp == timestamp && p.value.header.magic == MagicNumber &&
        p.value.key == Some(Key(prims, token)) && p.value.iv == Some(Iv(prims, token)))
  {
    var v := Created(prims, deviceId, Some(token), timestamp, Some(payload)).value;
    var key, iv := Key(prims, token), Iv(prims, token);
    var padded := Pkcs5Pad(payload, BlockSize);
    assert v.data == CbcEncrypt(prims, key, iv, padded);
    UnpackPack(prims, deviceId, Some(token), timestamp, Some(payload));
    CbcRoundTrip(prims, key, iv, padded);
    UnpadPad(payload, BlockSize);
  }

  /** A packet built with a token but a nil payload has no ciphertext, and
      parsing it with that token panics on the empty unpadding. */
  lemma ParseEncodeNilPayload(prims: Primitives, deviceId: uint32, token: seq<byte>, timestamp: uint32)
    requires deviceId != HelloPacketDeviceId
    ensures Encode(prims, deviceId, Some(token), timestamp, None).Ok?
    ensures Parsed(prims, Some(token), Encode(prims, deviceId, Some(token), timestamp, None).value)
            == Err(Panic(IndexOutOfRange))
  {
    UnpackPack(prims, deviceId, Some(token), timestamp, None);
  }

  /** A Hello reply parses without a token to its id, timestamp and checksum. */
  lemma ParseHelloFrame(prims: Primitives, h: Header, checkSum: seq<byte>)
    requires h.magic == MagicNumber && h.length == 0x20 && |checkSum| == 16
    ensures Parsed(prims, None, HeaderBytes(h) + checkSum) == Ok(PacketValue(None, None, None, h, checkSum, []))
  {
    UnpackFrame(h, checkSum, []);
    assert HeaderBytes(h) + checkSum + [] == HeaderBytes(h) + checkSum;
  }

  /** Unpacking reads bytes 16 to 31 only as the checksum. */
  lemma UnpackIgnoresChecksumBytes(a: seq<byte>, b: seq<byte>)
    requires |a| == |b| >= 32 && a[..16] == b[..16] && a[32..] == b[32..]
    ensures Unpacked(a).Ok? == Unpacked(b).Ok?
    ensures Unpacked(a).Err? ==> Unpacked(a) == Unpacked(b)
    ensures Unpacked(a).Ok? ==> Unpacked(a).value.(checkSum := b[16..32]) == Unpacked(b).value
  {
    assert a[0..2] == a[..16][0..2] && b[0..2] == b[..16][0..2];
    assert a[2..4] == a[..16][2..4] && b[2..4] == b[..16][2..4];
    assert a[4..8] == a[..16][4..8] && b[4..8] == b[..16][4..8];
    assert a[8..12] == a[..16][8..12] && b[8..12] == b[..16][8..12];
    assert a[12..16] == a[..16][12..16] && b[12..16] == b[..16][12..16];
    forall n | 32 <= n <= |a| ensures a[32..n] == b[32..n] {
      assert a[32..n] == a[32..][..n - 32];
      assert b[32..n] == b[32..][..n - 32];
    }
  }

  /** The checksum is never verified: two buffers that differ only in bytes
      16 to 31 parse alike, except for the checksum each carries. */
  lemma ChecksumNotVerified(prims: Primitives, token: Option<seq<byte>>, a: seq<byte>, b: seq<byte>)
    requires |a| == |b| >= 32 && a[..16] == b[..16] && a[32..] == b[32..]
    ensures Parsed(prims, token, a).Ok? == Parsed(prims, token, b).Ok?
    ensures Parsed(prims, token, a).Err? ==> Parsed(prims, token, a) == Parsed(prims, token, b)
    ensures Parsed(prims, token, a).Ok? ==>
      Parsed(prims, token, a).value.(checkSum := b[16..32]) == Parsed(prims, token, b).value
  {
    UnpackIgnoresChecksumBytes(a, b);
  }
}
