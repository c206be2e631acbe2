/** The legacy device client of miio/device.go and miio/requests.go.

    A `Device` learns everything from its Hello reply: the device id, the
    token (the reply's checksum field), the device's uptime, and the local
    time of the handshake in `Timestamp`. Requests are then stamped with
    the device's clock reconstructed as `now - Timestamp + Uptime`, and
    carry the uptime as their JSON id.

    As in the session module, the socket outcomes (the read's datagram is
    framed by `ReceivePacket` as the `Framing` module describes), the clock
    and the JSON encoder are parameters, the ghost `Sent` log records the frames
    written, and each method is proved against a function on `Fields`
    values.
 */
module Legacy {
  import opened Outcomes
  import opened Bytes
  import opened Crypto
  import opened Packets
  import Framing

  /** What the network does in one exchange: whether the write goes
      through, and the datagram read back, if any. */
  datatype Exchange = Exchange(written: bool, reply: Option<seq<byte>>)

  /** The `credentials` parameters of a router configuration request. */
  datatype Credentials = Credentials(sid: string, pass: string, uid: string)

  /** The `request` struct: uptime id, method name, optional parameters. */
  datatype Request = Request(id: uint32, name: string, params: Option<Credentials>)

  /** The fields of a `Device`; `open` is false once the connection is closed. */
  datatype Fields = Fields(ip: string, id: uint32, token: Option<seq<byte>>, timestamp: uint32,
                           uptime: uint32, model: string, name: string, open: bool)

  datatype Step<T> = Step(state: Fields, sent: seq<seq<byte>>, out: T)

  /** `SendPacket`: a write on a closed connection fails. */
  function Written(open: bool, written: bool): Option<Error> {
    if open && written then None else Some(ErrNetwork)
  }

  function Wrote(open: bool, written: bool, frame: seq<byte>): seq<seq<byte>> {
    if open && written then [frame] else []
  }

  /** `ReceivePacket`: a read on a closed connection fails; on an open one
      the datagram read is framed to its declared size. No read deadline is
      set, so `None` stands for a socket error only; a device that stays
      silent would block here, which the model does not represent. */
  function Received(open: bool, reply: Option<seq<byte>>): Result<seq<byte>> {
    if open then Framing.Reply(reply) else Err(ErrNetwork)
  }

  /** `Hello`: write the Hello frame, read and parse the reply without a
      token, then take id, token and uptime from it and remember `now`. */
  function HelloStep(prims: Primitives, d: Fields, now: uint32, link: Exchange): Step<Result<PacketValue>> {
    var sent := Wrote(d.open, link.written, HelloFrame(now));
    var w := Written(d.open, link.written);
    if w.Some? then Step(d, sent, Err(w.value))
    else
      var recv := Received(d.open, link.reply);
      if recv.Err? then Step(d, sent, Err(recv.error))
      else
        var p := Parsed(prims, None, recv.value);
        if p.Err? then Step(d, sent, Err(p.error))
        else
          var h := p.value.header;
          Step(d.(id := h.deviceId, token := Some(p.value.checkSum), uptime := h.timestamp, timestamp := now),
               sent, Ok(p.value))
  }

  /** `Packet`: refused before the handshake (no uptime or no timestamp),
      then without a token; otherwise the packed packet built from the
      arguments. */
  function Packed(prims: Primitives, d: Fields, deviceId: uint32, deviceToken: Option<seq<byte>>,
                  timestamp: uint32, payload: Option<seq<byte>>): Result<seq<byte>>
  {
    if d.uptime == 0 || d.timestamp == 0 then Err(ErrNotStarted)
    else if d.token.None? then Err(ErrTokenUnknown)
    else Encode(prims, deviceId, deviceToken, timestamp, payload)
  }

  /** The device's clock as the client reconstructs it, modulo 2^32. */
  function DeviceTime(d: Fields, now: uint32): uint32 {
    Wrap32(now - d.timestamp + d.uptime)
  }

  /** The request `Info` sends. */
  function InfoRequest(d: Fields): Request {
    Request(d.uptime, "miIO.info", None)
  }

  /** The request `Reg` sends. */
  function RegRequest(d: Fields, sid: string, pass: string): Request {
    Request(d.uptime, "miIO.config_router", Some(Credentials(sid, pass, "")))
  }

  /** The exchange `Info` and `Reg` share: encode the request, pack it
      stamped with the device time (a failure here is a `panic`), write,
      read, and parse the reply with the device's token. No field changes. */
  function RequestStep(prims: Primitives, d: Fields, req: Request, now: uint32,
                       marshal: Request -> Option<seq<byte>>, link: Exchange): Step<Result<PacketValue>>
  {
    var payload := marshal(req);
    if payload.None? then Step(d, [], Err(ErrMarshal))
    else
      var frame := Packed(prims, d, d.id, d.token, DeviceTime(d, now), Some(payload.value));
      if frame.Err? then Step(d, [], Err(Panic(Explicit)))
      else
        var sent := Wrote(d.open, link.written, frame.value);
        var w := Written(d.open, link.written);
        if w.Some? then Step(d, sent, Err(w.value))
        else
          var recv := Received(d.open, link.reply);
          if recv.Err? then Step(d, sent, Err(recv.error))
          else
            var p := Parsed(prims, d.token, recv.value);
            if p.Err? then Step(d, sent, Err(p.error)) else Step(d, sent, Ok(p.value))
  }

  class Device {
    var Ip: string
    var Id: uint32
    var Token: Option<seq<byte>>
    var Timestamp: uint32
    var Uptime: uint32
    var Model: string
    var Name: string
    var open: bool
    ghost var Sent: seq<seq<byte>>

    function Snapshot(): Fields
      reads this
    {
      Fields(Ip, Id, Token, Timestamp, Uptime, Model, Name, open)
    }

    constructor (ip: string)
      ensures Snapshot() == Fields(ip, 0, None, 0, 0, "", "", true) && Sent == []
    {
      Ip, Id, Token, Timestamp, Uptime, Model, Name, open := ip, 0, None, 0, 0, "", "", true;
      Sent := [];
    }

    method Close() returns (err: Option<Error>)
      modifies this`open
      ensures !open && (err == None <==> old(open))
      ensures err.Some? ==> err.value == ErrNetwork
    {
      if !open {
        return Some(ErrNetwork);
      }
      open := false;
      err := None;
    }

    method SendPacket(buf: seq<byte>, written: bool) returns (err: Option<Error>)
      modifies this`Sent
      ensures err == Written(open, written) && Sent == old(Sent) + Wrote(open, written, buf)
    {
      if !open || !written {
        return Some(ErrNetwork);
      }
      Sent := Sent + [buf];
      err := None;
    }

    method ReceivePacket(reply: Option<seq<byte>>) returns (r: Result<seq<byte>>)
      ensures r == Received(open, reply)
    {
      if !open || reply.None? {
        return Err(ErrNetwork);
      }
      r := Framing.ReadFrame(reply.value);
    }

    /** `PacketHello` has no guard: it is always the 32-byte Hello frame. */
    method PacketHello(prims: Primitives, now: uint32) returns (r: Result<seq<byte>>)
      ensures r == Ok(HelloFrame(now)) && |r.value| == 32
    {
      var pkt := NewPacket(prims, HelloPacketDeviceId, None, now, None);
      HelloEncoding(prims, None, now, None);
      var bytes := pkt.value.Pack(prims);
      r := Ok(bytes);
    }

    /** The handshake guard looks at both `Uptime` and `Timestamp`; the token
        guard looks at `Token` while the packet is encrypted under the
        `deviceToken` argument. */
    method Packet(prims: Primitives, deviceId: uint32, deviceToken: Option<seq<byte>>,
                  timestamp: uint32, payload: Option<seq<byte>>) returns (r: Result<seq<byte>>)
      ensures Uptime == 0 || Timestamp == 0 ==> r == Err(ErrNotStarted)
      ensures Uptime != 0 && Timestamp != 0 && Token.None? ==> r == Err(ErrTokenUnknown)
      ensures Uptime != 0 && Timestamp != 0 && Token.Some? ==>
        r == Encode(prims, deviceId, deviceToken, timestamp, payload)
    {
      if Uptime == 0 || Timestamp == 0 {
        return Err(ErrNotStarted);
      }
      if Token.None? {
        return Err(ErrTokenUnknown);
      }
      var pkt := NewPacket(prims, deviceId, deviceToken, timestamp, payload);
      if pkt.Err? {
        return Err(pkt.error);
      }
      var bytes := pkt.value.Pack(prims);
      r := Ok(bytes);
    }

    method Hello(prims: Primitives, now: uint32, link: Exchange) returns (r: Result<Packets.Packet>)
      modifies this`Id, this`Token, this`Uptime, this`Timestamp, this`Sent
      ensures var step := HelloStep(prims, old(Snapshot()), now, link);
        Snapshot() == step.state && Sent == old(Sent) + step.sent &&
        (r.Ok? <==> step.out.Ok?) && (r.Err? ==> r.error == step.out.error) &&
        (r.Ok? ==> r.value.Value() == step.out.value)
    {
      var hello := PacketHello(prims, now);
      var werr := SendPacket(hello.value, link.written);
      if werr.Some? {
        return Err(werr.value);
      }
      var recv := ReceivePacket(link.reply);
      if recv.Err? {
        return Err(recv.error);
      }
      var pkt := ParsePacket(prims, 0, None, recv.value);
      if pkt.Err? {
        return Err(pkt.error);
      }
      Id := pkt.value.DeviceId;
      Token := Some(pkt.value.CheckSum);
      Uptime := pkt.value.Timestamp;
      Timestamp := now;
      r := pkt;
    }

    /** The exchange `Info` and `Reg` share. */
    method Call(prims: Primitives, req: Request, now: uint32,
                marshal: Request -> Option<seq<byte>>, link: Exchange) returns (r: Result<Packets.Packet>)
      modifies this`Sent
      ensures Snapshot() == old(Snapshot())
      ensures var step := RequestStep(prims, Snapshot(), req, now, marshal, link);
        Sent == old(Sent) + step.sent &&
        (r.Ok? <==> step.out.Ok?) && (r.Err? ==> r.error == step.out.error) &&
        (r.Ok? ==> r.value.Value() == step.out.value)
    {
      var payload := marshal(req);
      if payload.None? {
        return Err(ErrMarshal);
      }
      var p := Packet(prims, Id, Token, Wrap32(now - Timestamp + Uptime), Some(payload.value));
      if p.Err? {
        // `panic(err)`
        return Err(Panic(Explicit));
      }
      var werr := SendPacket(p.value, link.written);
      if werr.Some? {
        return Err(werr.value);
      }
      var recv := ReceivePacket(link.reply);
      if recv.Err? {
        return Err(recv.error);
      }
      var pkt := ParsePacket(prims, Id, Token, recv.value);
      if pkt.Err? {
        return Err(pkt.error);
      }
      r := Ok(pkt.value);
    }

    /** `Info`: ask for `miIO.info`, with the uptime as request id. */
    method Info(prims: Primitives, now: uint32, marshal: Request -> Option<seq<byte>>, link: Exchange)
      returns (r: Result<Packets.Packet>)
      modifies this`Sent
      ensures Snapshot() == old(Snapshot())
      ensures var step := RequestStep(prims, Snapshot(), InfoRequest(Snapshot()), now, marshal, link);
        Sent == old(Sent) + step.sent &&
        (r.Ok? <==> step.out.Ok?) && (r.Err? ==> r.error == step.out.error) &&
        (r.Ok? ==> r.value.Value() == step.out.value)
    {
      r := Call(prims, Request(Uptime, "miIO.info", None), now, marshal, link);
    }

    /** `Reg`: send the router credentials, with the uptime as request id. */
    method Reg(prims: Primitives, sid: string, pass: string, now: uint32,
               marshal: Request -> Option<seq<byte>>, link: Exchange) returns (r: Result<Packets.Packet>)
      modifies this`Sent
      ensures Snapshot() == old(Snapshot())
      ensures var step := RequestStep(prims, Snapshot(), RegRequest(Snapshot(), sid, pass), now, marshal, link);
        Sent == old(Sent) + step.sent &&
        (r.Ok? <==> step.out.Ok?) && (r.Err? ==> r.error == step.out.error) &&
        (r.Ok? ==> r.value.Value() == step.out.value)
    {
      r := Call(prims, Request(Uptime, "miIO.config_router", Some(Credentials(sid, pass, ""))), now, marshal, link);
    }
  }

  /** `NewDevice`: a device on an open connection, or nil when the dial fails. */
  method NewDevice(ip: string, dialed: bool) returns (d: Option<Device>)
    ensures d.Some? <==> dialed
    ensures d.Some? ==> fresh(d.value) && d.value.Snapshot() == Fields(ip, 0, None, 0, 0, "", "", true)
    ensures d.Some? ==> d.value.Sent == []
  {
    if !dialed {
      return None;
    }
    var device := new Device(ip);
    d := Some(device);
  }

  // Properties of the legacy client

  /** `Hello` succeeds exactly when the write, the read with its framing,
      and the parse do.
      It then takes id, token and uptime from the reply, replacing a token
      already known, and records `now`; address, model, name and connection
      stay. A failed `Hello` changes no field. */
  lemma HelloEffects(prims: Primitives, d: Fields, now: uint32, link: Exchange)
    ensures var h := HelloStep(prims, d, now, link);
      var recv := Framing.Reply(link.reply);
      (h.out.Ok? <==> d.open && link.written && recv.Ok? && Parsed(prims, None, recv.value).Ok?) &&
      (h.out.Err? ==> h.state == d) &&
      (h.out.Ok? ==>
         var reply := Parsed(prims, None, recv.value).value;
         h.state == d.(id := reply.header.deviceId, token := Some(reply.checkSum),
                       uptime := reply.header.timestamp, timestamp := now) &&
         h.sent == [HelloFrame(now)])
  {
  }

  /** `Info` and `Reg` change no field, so the request id, the uptime, is
      the same on every call. The frame they write is the packet built from
      the device's id and token, stamped with the device time; packing fails,
      and the call panics, exactly before a handshake or without a token. */
  lemma RequestEffects(prims: Primitives, d: Fields, req: Request, now: uint32,
                       marshal: Request -> Option<seq<byte>>, link: Exchange)
    requires marshal(req).Some?
    ensures var st := RequestStep(prims, d, req, now, marshal, link);
      st.state == d &&
      (st.out == Err(Panic(Explicit)) <==> d.uptime == 0 || d.timestamp == 0 || d.token.None?) &&
      (st.sent != [] ==>
         st.sent == [Encode(prims, d.id, d.token, DeviceTime(d, now), Some(marshal(req).value)).value])
  {
    var payload := marshal(req).value;
    var frame := Packed(prims, d, d.id, d.token, DeviceTime(d, now), Some(payload));
    if d.uptime != 0 && d.timestamp != 0 && d.token.Some? {
      if d.id != HelloPacketDeviceId {
        CreatedLength(prims, d.id, d.token.value, DeviceTime(d, now), Some(payload));
      }
      assert frame.Ok?;
      var recv := Received(d.open, link.reply);
      ParsedNeverExplicitPanic(prims, d.token, if recv.Ok? then recv.value else []);
    }
  }

  /** Parsing never reports the explicit `panic` of `Info` and `Reg`. */
  lemma ParsedNeverExplicitPanic(prims: Primitives, token: Option<seq<byte>>, buf: seq<byte>)
    ensures Parsed(prims, token, buf) != Err(Panic(Explicit))
  {
  }

  /** After a successful `Hello` at local time `t`, requests are stamped
      with the device's uptime advanced by the local time elapsed since:
      at `t` itself the stamp is the uptime the device reported. */
  lemma HelloThenRequest(prims: Primitives, d: Fields, t: uint32, link: Exchange, elapsed: nat)
    requires HelloStep(prims, d, t, link).out.Ok?
    ensures var h := HelloStep(prims, d, t, link);
      DeviceTime(h.state, Wrap32(t + elapsed)) == Wrap32(h.out.value.header.timestamp + elapsed) &&
      InfoRequest(h.state).id == h.out.value.header.timestamp
  {
    var h := HelloStep(prims, d, t, link);
    var u := h.out.value.header.timestamp;
    WrapShift(t + elapsed, t, u);
  }

  /** Reducing modulo 2^32 before the subtraction does not change the result. */
  lemma WrapShift(a: int, t: int, u: int)
    ensures Wrap32(Wrap32(a) - t + u) == Wrap32(a - t + u)
  {
    var m := 0x1_0000_0000;
    var q := a / m;
    assert a == q * m + Wrap32(a);
    assert Wrap32(a) - t + u == (a - t + u) - q * m;
    ModShift(a - t + u, q);
  }

  lemma ModShift(x: int, q: int)
    ensures (x - q * 0x1_0000_0000) % 0x1_0000_0000 == x % 0x1_0000_0000
  {
    var m := 0x1_0000_0000;
    var r := x % m;
    assert x == (x / m) * m + r;
    assert x - q * m == (x / m - q) * m + r;
    DivModUnique(x - q * m, m, x / m - q, r);
  }

  /** `Info` before any `Hello` panics (once its request is encoded). */
  lemma InfoBeforeHello(prims: Primitives, ip: string, now: uint32,
                        marshal: Request -> Option<seq<byte>>, link: Exchange)
    requires var d := Fields(ip, 0, None, 0, 0, "", "", true); marshal(InfoRequest(d)).Some?
    ensures var d := Fields(ip, 0, None, 0, 0, "", "", true);
      RequestStep(prims, d, InfoRequest(d), now, marshal, link) == Step(d, [], Err(Panic(Explicit)))
  {
  }
}
