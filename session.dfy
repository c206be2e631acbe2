/** The per-device session of device/miio_device.go.

    A `MiIoDevice` holds the device's token, address, id, the clock offset
    `Timestamp` (local seconds minus the device's seconds; 0 means "no
    handshake yet"), a request counter and the UDP connection. `Connect`
    dials and runs the Hello handshake, which fixes the offset and, on first
    registration, adopts the id and token the device announces; `Send`
    stamps a request with the offset, encrypts and writes it, and parses the
    reply; `Close` drops the offset.

    The socket is not modelled: the outcome of the dial, of the write and
    of the read (the datagram that `ReceivePacket` then frames, see the
    `Framing` module) are parameters, and so is the wall
    clock (`now`, the Unix time truncated to 32 bits) and the JSON encoder.
    The ghost `Sent` log records every frame written on the connection.

    Each method is proved against a function on `State` values (`HelloStep`,
    `ConnectStep`, `CloseStep`, `SendStep`), and the lemmas after the class
    state what those functions promise.
 */
module Session {
  import opened Outcomes
  import opened Bytes
  import opened Crypto
  import opened Packets
  import Framing

  /** The `conn` field: nil (never dialled, or the dial failed), open, or closed. */
  datatype Conn = NoConn | Open | Closed

  /** What the network does in one request/reply exchange: whether the
      write goes through, and the datagram the read returns, if any. */
  datatype Exchange = Exchange(written: bool, reply: Option<seq<byte>>)

  /** `miio.Request`, the JSON-RPC call; `params` is opaque to the model. */
  datatype Request<P> = Request(id: int, name: string, params: P)

  /** The fields of a `MiIoDevice` that the protocol reads or writes. */
  datatype State = State(token: Option<seq<byte>>, ip: string, id: uint32,
                         timestamp: uint32, request: int, conn: Conn)

  /** The state after an operation, the frames it wrote, and its result. */
  datatype Step<T> = Step(state: State, sent: seq<seq<byte>>, out: T)

  /** A session with a clock offset has an open connection. */
  predicate Valid(s: State) {
    s.timestamp != 0 ==> s.conn == Open
  }

  /** `SendPacket`: a write on a nil connection panics, on a closed one fails. */
  function Written(conn: Conn, written: bool): Option<Error> {
    match conn
    case NoConn => Some(Panic(NilDereference))
    case Closed => Some(ErrNetwork)
    case Open => if written then None else Some(ErrNetwork)
  }

  /** The frames a write puts on the wire: only a successful one on an open connection. */
  function Wrote(conn: Conn, written: bool, frame: seq<byte>): seq<seq<byte>> {
    if conn == Open && written then [frame] else []
  }

  /** `ReceivePacket`: setting the deadline on a nil connection panics, a
      read on a closed one fails, and on an open one the datagram read is
      framed to its declared size. */
  function Received(conn: Conn, reply: Option<seq<byte>>): Result<seq<byte>> {
    match conn
    case NoConn => Err(Panic(NilDereference))
    case Closed => Err(ErrNetwork)
    case Open => Framing.Reply(reply)
  }

  /** `Hello`: write the Hello frame stamped `now`, read the reply, parse it
      without a token, and set the offset to `now` minus the device's
      timestamp, modulo 2^32. Nothing else changes. */
  function HelloStep(prims: Primitives, s: State, now: uint32, link: Exchange): Step<Result<PacketValue>> {
    var sent := Wrote(s.conn, link.written, HelloFrame(now));
    var w := Written(s.conn, link.written);
    if w.Some? then Step(s, sent, Err(w.value))
    else
      var recv := Received(s.conn, link.reply);
      if recv.Err? then Step(s, sent, Err(recv.error))
      else
        var p := Parsed(prims, None, recv.value);
        if p.Err? then Step(s, sent, Err(p.error))
        else Step(s.(timestamp := Wrap32(now - p.value.header.timestamp)), sent, Ok(p.value))
  }

  /** `Connect(ip)`: refused while an offset is held; a non-empty `ip`
      replaces the address and restarts the request counter; then dial
      (`dialed` is its outcome) and run Hello. On first registration (the
      sentinel id and no token) the reply's id and checksum become the
      device's id and token. */
  function ConnectStep(prims: Primitives, s: State, ip: string, dialed: bool,
                       now: uint32, link: Exchange): Step<Option<Error>>
  {
    if s.timestamp > 0 then Step(s, [], Some(ErrAlreadyConnected))
    else
      var s1 := if ip != "" then s.(ip := ip, request := 1) else s;
      if !dialed then Step(s1.(conn := NoConn), [], Some(ErrNetwork))
      else
        var h := HelloStep(prims, s1.(conn := Open), now, link);
        if h.out.Err? then Step(h.state, h.sent, Some(h.out.error))
        else if h.state.id == HelloPacketDeviceId && h.state.token.None? then
          Step(h.state.(id := h.out.value.header.deviceId, token := Some(h.out.value.checkSum)), h.sent, None)
        else Step(h.state, h.sent, None)
  }

  /** `Close`: the offset is dropped first, then the connection closed
      (closing a nil connection panics, a closed one fails). */
  function CloseStep(s: State): Step<Option<Error>> {
    var s1 := s.(timestamp := 0);
    match s.conn
    case NoConn => Step(s1, [], Some(Panic(NilDereference)))
    case Open => Step(s1.(conn := Closed), [], None)
    case Closed => Step(s1, [], Some(ErrNetwork))
  }

  /** `Prepare`: refused before the handshake, then without a token;
      otherwise the packed packet. The guards look at the session, the
      packet is built from the arguments. */
  function Prepared(prims: Primitives, s: State, deviceId: uint32, deviceToken: Option<seq<byte>>,
                    timestamp: uint32, payload: Option<seq<byte>>): Result<seq<byte>>
  {
    if s.timestamp == 0 then Err(ErrNotStarted)
    else if s.token.None? then Err(ErrTokenUnknown)
    else Encode(prims, deviceId, deviceToken, timestamp, payload)
  }

  /** `Send(method, params)`, the method called as `name`: the request id and the packet timestamp are
      both `now` minus the offset, modulo 2^32; the counter advances once.
      A failed write or read closes the session; a failed encoding,
      `Prepare` or parse leaves it as it is. */
  function SendStep<P>(prims: Primitives, s: State, name: string, params: P, now: uint32,
                       marshal: Request<P> -> Option<seq<byte>>, link: Exchange): Step<Result<PacketValue>>
  {
    var stamp := Wrap32(now - s.timestamp);
    var s1 := s.(request := s.request + 1);
    var payload := marshal(Request(stamp, name, params));
    if payload.None? then Step(s1, [], Err(ErrMarshal))
    else
      var frame := Prepared(prims, s1, s1.id, s1.token, stamp, Some(payload.value));
      if frame.Err? then Step(s1, [], Err(frame.error))
      else TransactStep(prims, s1, frame.value, link)
  }

  /** The second half of `Send`: write the prepared frame, read the reply
      and parse it with the session's token. A failed write or read closes
      the session, except a panic (on a nil connection, or on a reply
      declaring fewer than 4 bytes), which leaves before `Close` is reached. */
  function TransactStep(prims: Primitives, s: State, frame: seq<byte>, link: Exchange): Step<Result<PacketValue>> {
    var sent := Wrote(s.conn, link.written, frame);
    var w := Written(s.conn, link.written);
    if w == Some(Panic(NilDereference)) then Step(s, sent, Err(w.value))
    else if w.Some? then Step(CloseStep(s).state, sent, Err(w.value))
    else
      var recv := Received(s.conn, link.reply);
      if recv.Err? && recv.error.Panic? then Step(s, sent, Err(recv.error))
      else if recv.Err? then Step(CloseStep(s).state, sent, Err(recv.error))
      else
        var p := Parsed(prims, s.token, recv.value);
        if p.Err? then Step(s, sent, Err(p.error)) else Step(s, sent, Ok(p.value))
  }

  class MiIoDevice {
    var Token: Option<seq<byte>>
    var Ip: string
    var Id: uint32
    var Timestamp: uint32
    var request: int
    var conn: Conn
    var debug: bool
    ghost var Sent: seq<seq<byte>>

    function Snapshot(): State
      reads this
    {
      State(Token, Ip, Id, Timestamp, request, conn)
    }

    /** `NewMiIoDevice`: no token, no offset, no connection, counter at 1. */
    constructor (debug: bool, id: uint32, ip: string)
      ensures Snapshot() == State(None, ip, id, 0, 1, NoConn) && this.debug == debug
      ensures Sent == [] && Valid(Snapshot())
    {
      this.debug, Id, Ip, request := debug, id, ip, 1;
      Token, Timestamp, conn := None, 0, NoConn;
      Sent := [];
    }

    method SendPacket(buf: seq<byte>, written: bool) returns (err: Option<Error>)
      modifies this`Sent
      ensures err == Written(conn, written)
      ensures Sent == old(Sent) + Wrote(conn, written, buf)
    {
      if conn == NoConn {
        return Some(Panic(NilDereference));
      }
      if conn == Closed || !written {
        return Some(ErrNetwork);
      }
      Sent := Sent + [buf];
      err := None;
    }

    method ReceivePacket(reply: Option<seq<byte>>) returns (r: Result<seq<byte>>)
      ensures r == Received(conn, reply)
    {
      if conn == NoConn {
        return Err(Panic(NilDereference));
      }
      if conn == Closed || reply.None? {
        return Err(ErrNetwork);
      }
      r := Framing.ReadFrame(reply.value);
    }

    method Hello(prims: Primitives, now: uint32, link: Exchange) returns (r: Result<Packet>)
      modifies this`Timestamp, this`Sent
      ensures var step := HelloStep(prims, old(Snapshot()), now, link);
        Snapshot() == step.state && Sent == old(Sent) + step.sent &&
        (r.Ok? <==> step.out.Ok?) && (r.Err? ==> r.error == step.out.error) &&
        (r.Ok? ==> r.value.Value() == step.out.value)
    {
      var helloPacket := NewPacket(prims, HelloPacketDeviceId, None, now, None);
      HelloEncoding(prims, None, now, None);
      var hello := helloPacket.value.Pack(prims);
      var werr := SendPacket(hello, link.written);
      if werr.Some? {
        return Err(werr.value);
      }
      var recv := ReceivePacket(link.reply);
      if recv.Err? {
        return Err(recv.error);
      }
      var pkt := ParsePacket(prims, 0, None, recv.value);
      if pkt.Err? {
        return Err(pkt.error);
      }
      Timestamp := Wrap32(now - pkt.value.Timestamp);
      r := pkt;
    }

    method Connect(prims: Primitives, ip: string, dialed: bool, now: uint32, link: Exchange)
      returns (err: Option<Error>)
      modifies this`Ip, this`request, this`conn, this`Timestamp, this`Id, this`Token, this`Sent
      ensures var step := ConnectStep(prims, old(Snapshot()), ip, dialed, now, link);
        Snapshot() == step.state && Sent == old(Sent) + step.sent && err == step.out
    {
      if Timestamp > 0 {
        return Some(ErrAlreadyConnected);
      }
      if ip != "" {
        Ip := ip;
        request := 1;
      }
      if !dialed {
        conn := NoConn;
        return Some(ErrNetwork);
      }
      conn := Open;
      var hello := Hello(prims, now, link);
      if hello.Err? {
        return Some(hello.error);
      }
      if Id == HelloPacketDeviceId && Token.None? {
        Id := hello.value.DeviceId;
        Token := Some(hello.value.CheckSum);
      }
      err := None;
    }

    method Close() returns (err: Option<Error>)
      modifies this`Timestamp, this`conn
      ensures Snapshot() == CloseStep(old(Snapshot())).state && err == CloseStep(old(Snapshot())).out
    {
      Timestamp := 0;
      if conn == NoConn {
        return Some(Panic(NilDereference));
      }
      if conn == Closed {
        return Some(ErrNetwork);
      }
      conn := Closed;
      err := None;
    }

    /** The handshake guard is checked first, then the token guard; the
        packet itself is built from the arguments, not from the session. */
    method Prepare(prims: Primitives, deviceId: uint32, deviceToken: Option<seq<byte>>,
                   timestamp: uint32, payload: Option<seq<byte>>) returns (r: Result<seq<byte>>)
      ensures Timestamp == 0 ==> r == Err(ErrNotStarted)
      ensures Timestamp != 0 && Token.None? ==> r == Err(ErrTokenUnknown)
      ensures Timestamp != 0 && Token.Some? ==> r == Encode(prims, deviceId, deviceToken, timestamp, payload)
    {
      if Timestamp == 0 {
        return Err(ErrNotStarted);
      }
      if Token.None? {
        return Err(ErrTokenUnknown);
      }
      var pkt := NewPacket(prims, deviceId, deviceToken, timestamp, payload);
      if pkt.Err? {
        return Err(pkt.error);
      }
      var bytes := pkt.value.Pack(prims);
      r := Ok(bytes);
    }

    method Send<P>(prims: Primitives, name: string, params: P, now: uint32,
                   marshal: Request<P> -> Option<seq<byte>>, link: Exchange) returns (r: Result<Packet>)
      modifies this`request, this`Timestamp, this`conn, this`Sent
      ensures var step := SendStep(prims, old(Snapshot()), name, params, now, marshal, link);
        Snapshot() == step.state && Sent == old(Sent) + step.sent &&
        (r.Ok? <==> step.out.Ok?) && (r.Err? ==> r.error == step.out.error) &&
        (r.Ok? ==> r.value.Value() == step.out.value)
    {
      var req := Request(Wrap32(now - Timestamp), name, params);
      request := request + 1;
      ghost var s1 := Snapshot();
      assert s1 == old(Snapshot()).(request := old(request) + 1);
      var payload := marshal(req);
      if payload.None? {
        return Err(ErrMarshal);
      }
      var p := Prepare(prims, Id, Token, Wrap32(now - Timestamp), Some(payload.value));
      assert p == Prepared(prims, s1, s1.id, s1.token, req.id, Some(payload.value));
      if p.Err? {
        return Err(p.error);
      }
      r := Transact(prims, p.value, link);
    }

    /** Write, read and parse for `Send`, as `TransactStep` describes. */
    method Transact(prims: Primitives, frame: seq<byte>, link: Exchange) returns (r: Result<Packet>)
      modifies this`Timestamp, this`conn, this`Sent
      ensures var step := TransactStep(prims, old(Snapshot()), frame, link);
        Snapshot() == step.state && Sent == old(Sent) + step.sent &&
        (r.Ok? <==> step.out.Ok?) && (r.Err? ==> r.error == step.out.error) &&
        (r.Ok? ==> r.value.Value() == step.out.value)
    {
      var werr := SendPacket(frame, link.written);
      if werr == Some(Panic(NilDereference)) {
        // the panic leaves Send before the Close call is reached
        return Err(werr.value);
      }
      if werr.Some? {
        var _ := Close();
        return Err(werr.value);
      }
      var recv := ReceivePacket(link.reply);
      if recv.Err? && recv.error.Panic? {
        return Err(recv.error);
      }
      if recv.Err? {
        var _ := Close();
        return Err(recv.error);
      }
      var pkt := ParsePacket(prims, Id, Token, recv.value);
      if pkt.Err? {
        return Err(pkt.error);
      }
      r := Ok(pkt.value);
    }
  }

  // Properties of the session

  /** `Connect` on a session that holds an offset changes nothing. Otherwise
      a non-empty `ip` replaces the address and restarts the counter whatever
      happens next; the call succeeds exactly when the dial, the write, the
      read with its framing, and the parse all do, and then the offset is
      `now` minus the reply's timestamp and the id and token are adopted
      from the reply only on first registration. A failed call leaves
      offset, id and token as they were. */
  lemma ConnectEffects(prims: Primitives, s: State, ip: string, dialed: bool, now: uint32, link: Exchange)
    ensures s.timestamp > 0 ==> ConnectStep(prims, s, ip, dialed, now, link) == Step(s, [], Some(ErrAlreadyConnected))
    ensures var c := ConnectStep(prims, s, ip, dialed, now, link);
      var recv := Framing.Reply(link.reply);
      s.timestamp == 0 ==>
        c.state.ip == (if ip != "" then ip else s.ip) &&
        c.state.request == (if ip != "" then 1 else s.request) &&
        (c.out == None <==> dialed && link.written && recv.Ok? && Parsed(prims, None, recv.value).Ok?) &&
        (c.out != None ==> c.state.timestamp == 0 && c.state.id == s.id && c.state.token == s.token)
    ensures var c := ConnectStep(prims, s, ip, dialed, now, link);
      s.timestamp == 0 && c.out == None ==>
        var reply := Parsed(prims, None, Framing.Reply(link.reply).value).value;
        c.state.conn == Open && c.state.timestamp == Wrap32(now - reply.header.timestamp) &&
        c.sent == [HelloFrame(now)] &&
        (s.id == HelloPacketDeviceId && s.token.None? ==>
           c.state.id == reply.header.deviceId && c.state.token == Some(reply.checkSum)) &&
        (s.id != HelloPacketDeviceId || s.token.Some? ==> c.state.id == s.id && c.state.token == s.token)
  {
    if s.timestamp == 0 && dialed {
      var s1 := if ip != "" then s.(ip := ip, request := 1) else s;
      var h := HelloStep(prims, s1.(conn := Open), now, link);
      var recv := Framing.Reply(link.reply);
      assert h.out.Ok? <==> link.written && recv.Ok? && Parsed(prims, None, recv.value).Ok?;
    }
  }

  /** A Hello reply carrying timestamp 200 received at local time 1000 gives
      the offset 800; a request sent at 1805 from the state that Hello left
      carries 1005, both as its JSON id and as the packet timestamp. */
  lemma ClockOffsetExample<P>(prims: Primitives, s: State, h: Header, checkSum: seq<byte>,
                              name: string, params: P, marshal: Request<P> -> Option<seq<byte>>)
    requires s.conn == Open && h.magic == MagicNumber && h.length == 0x20 && |checkSum| == 16
    requires h.timestamp == 200
    ensures var link := Exchange(true, Some(HeaderBytes(h) + checkSum));
      HelloStep(prims, s, 1000, link).state == s.(timestamp := 800)
    ensures var link := Exchange(true, Some(HeaderBytes(h) + checkSum));
      var s1 := HelloStep(prims, s, 1000, link).state;
      var payload := marshal(Request(1005, name, params));
      s.token.Some? && payload.Some? ==>
        SendStep(prims, s1, name, params, 1805, marshal, Exchange(true, None)).sent ==
        [Encode(prims, s.id, s.token, 1005, Some(payload.value)).value]
  {
    HelloAt1000(prims, s, h, checkSum);
    var s1 := s.(timestamp := 800);
    var payload := marshal(Request(1005, name, params));
    if payload.Some? && s.token.Some? {
      SendAt1805(prims, s1, name, params, marshal);
    }
  }

  /** The same exchange as the first `Connect` of a device: the Hello it
      runs sets the offset to 800 and adopts the announced id and the
      checksum as token, and the request sent at 1805 goes out under them. */
  lemma ConnectThenSendExample<P>(prims: Primitives, s: State, h: Header, checkSum: seq<byte>,
                                  name: string, params: P, marshal: Request<P> -> Option<seq<byte>>)
    requires s.timestamp == 0 && s.id == HelloPacketDeviceId && s.token.None?
    requires h.magic == MagicNumber && h.length == 0x20 && |checkSum| == 16 && h.timestamp == 200
    ensures var link := Exchange(true, Some(HeaderBytes(h) + checkSum));
      var c := ConnectStep(prims, s, "", true, 1000, link).state;
      c.timestamp == 800 && c.id == h.deviceId && c.token == Some(checkSum) && c.conn == Open
    ensures var link := Exchange(true, Some(HeaderBytes(h) + checkSum));
      var c := ConnectStep(prims, s, "", true, 1000, link).state;
      var payload := marshal(Request(1005, name, params));
      payload.Some? ==>
        SendStep(prims, c, name, params, 1805, marshal, Exchange(true, None)).sent ==
        [Encode(prims, h.deviceId, Some(checkSum), 1005, Some(payload.value)).value]
  {
    HelloAt1000(prims, s.(conn := Open), h, checkSum);
    var c := s.(conn := Open, timestamp := 800, id := h.deviceId, token := Some(checkSum));
    var payload := marshal(Request(1005, name, params));
    if payload.Some? {
      SendAt1805(prims, c, name, params, marshal);
    }
  }

  /** The Hello of both examples: offset 800, reply parsed as sent. */
  lemma HelloAt1000(prims: Primitives, s: State, h: Header, checkSum: seq<byte>)
    requires s.conn == Open && h.magic == MagicNumber && h.length == 0x20 && |checkSum| == 16
    requires h.timestamp == 200
    ensures var st := HelloStep(prims, s, 1000, Exchange(true, Some(HeaderBytes(h) + checkSum)));
      st.state == s.(timestamp := 800) && st.out.Ok? &&
      st.out.value.header == h && st.out.value.checkSum == checkSum
  {
    Framing.FramedPacket(h, checkSum);
    ParseHelloFrame(prims, h, checkSum);
  }

  /** The Send of both examples: with offset 800 and a token, the frame
      written at 1805 is the packet stamped 1005. */
  lemma SendAt1805<P>(prims: Primitives, s: State, name: string, params: P,
                      marshal: Request<P> -> Option<seq<byte>>)
    requires s.conn == Open && s.timestamp == 800 && s.token.Some?
    requires marshal(Request(1005, name, params)).Some?
    ensures SendStep(prims, s, name, params, 1805, marshal, Exchange(true, None)).sent ==
      [Encode(prims, s.id, s.token, 1005, Some(marshal(Request(1005, name, params)).value)).value]
  {
    var payload := marshal(Request(1005, name, params)).value;
    if s.id != HelloPacketDeviceId {
      CreatedLength(prims, s.id, s.token.value, 1005, Some(payload));
    }
  }

  /** `Close` always drops the offset and touches nothing but the offset
      and the connection; an open connection becomes closed. */
  lemma CloseResets(s: State)
    ensures CloseStep(s).state.timestamp == 0
    ensures CloseStep(s).state.(timestamp := s.timestamp, conn := s.conn) == s
    ensures s.conn == Open <==> CloseStep(s).out == None
    ensures s.conn == Open ==> CloseStep(s).state.conn == Closed
  {
  }

  /** `Send` advances the counter exactly once. What it writes, if anything,
      is the packet `Prepare` builds from the session's id and token, stamped
      `now` minus the offset, around the request whose id is that same
      value. A failed write, or a read that fails without a panic (a
      deadline, a wrong magic), closes the session; a read that panics
      leaves it as it was; every other outcome keeps the offset, and a
      framed reply is parsed with the session's token. */
  lemma SendEffects<P>(prims: Primitives, s: State, name: string, params: P, now: uint32,
                       marshal: Request<P> -> Option<seq<byte>>, link: Exchange)
    requires Valid(s)
    ensures var st := SendStep(prims, s, name, params, now, marshal, link);
      st.state.request == s.request + 1 && st.state.id == s.id && st.state.token == s.token &&
      st.state.ip == s.ip
    ensures var st := SendStep(prims, s, name, params, now, marshal, link);
      var stamp := Wrap32(now - s.timestamp);
      var payload := marshal(Request(stamp, name, params));
      st.sent != [] <==>
        payload.Some? && link.written &&
        Prepared(prims, s, s.id, s.token, stamp, Some(payload.value)).Ok?
    ensures var st := SendStep(prims, s, name, params, now, marshal, link);
      var stamp := Wrap32(now - s.timestamp);
      st.sent != [] ==>
        st.sent == [Encode(prims, s.id, s.token, stamp, Some(marshal(Request(stamp, name, params)).value)).value]
    ensures var st := SendStep(prims, s, name, params, now, marshal, link);
      var stamp := Wrap32(now - s.timestamp);
      var payload := marshal(Request(stamp, name, params));
      var reached := payload.Some? && Prepared(prims, s, s.id, s.token, stamp, Some(payload.value)).Ok?;
      var recv := Framing.Reply(link.reply);
      var closes := reached && (!link.written || (recv.Err? && !recv.error.Panic?));
      (st.state.timestamp == 0 <==> s.timestamp == 0 || closes) &&
      (closes ==> st.state.conn == Closed && st.out == Err(if link.written then recv.error else ErrNetwork)) &&
      (reached && link.written && recv.Err? && recv.error.Panic? ==>
         st.state == s.(request := s.request + 1) && st.out == Err(recv.error)) &&
      (reached && link.written && recv.Ok? ==> st.out == Parsed(prims, s.token, recv.value)) &&
      (st.state.timestamp != 0 ==> st.state.timestamp == s.timestamp && st.state.conn == Open)
  {
  }

  /** Every operation keeps the invariant that a session holding an offset
      has an open connection. */
  lemma ValidPreserved<P>(prims: Primitives, s: State, ip: string, dialed: bool, now: uint32, link: Exchange,
                          name: string, params: P, marshal: Request<P> -> Option<seq<byte>>)
    requires Valid(s)
    ensures Valid(HelloStep(prims, s, now, link).state)
    ensures Valid(ConnectStep(prims, s, ip, dialed, now, link).state)
    ensures Valid(CloseStep(s).state)
    ensures Valid(SendStep(prims, s, name, params, now, marshal, link).state)
  {
  }

  /** On a valid session `Send` never dereferences a nil connection: once
      `Prepare` passes there is an offset, hence an open connection. */
  lemma SendNeverNilConnection<P>(prims: Primitives, s: State, name: string, params: P, now: uint32,
                                  marshal: Request<P> -> Option<seq<byte>>, link: Exchange)
    requires Valid(s)
    ensures SendStep(prims, s, name, params, now, marshal, link).out != Err(Panic(NilDereference))
  {
    var recv := Framing.Reply(link.reply);
    ParsedNeverNilDereference(prims, s.token, if recv.Ok? then recv.value else []);
  }

  /** Parsing never reports a nil dereference. */
  lemma ParsedNeverNilDereference(prims: Primitives, token: Option<seq<byte>>, buf: seq<byte>)
    ensures Parsed(prims, token, buf) != Err(Panic(NilDereference))
  {
  }
}
