/** The discovery listener of discovery/discovery.go.

    Every few seconds a Hello frame with the sentinel id is broadcast; the
    listener reads each answer into one 32-byte buffer that it reuses, parses
    the whole buffer without a token, drops what does not parse and what
    carries the sentinel id, and emits one new `MiIoDevice` for every other
    frame, in arrival order.

    Because the buffer is reused, a datagram shorter than 32 bytes is parsed
    together with the tail of an earlier one, and a longer one is cut at 32
    bytes. A frame whose declared length is below 0x20 panics inside the
    parser, which ends the listener (and the process); every other failure
    is skipped.

    The received datagrams (or read failures) form a finite sequence given
    as a parameter; `Listened` is the value-level account of what the loop
    emits, and the broadcast loop, the sleeps and the channel are left out.
 */
module Discovery {
  import opened Outcomes
  import opened Bytes
  import opened Crypto
  import opened Packets
  import Session

  const BufferSize := 0x20

  /** One `ReadFromUDP`: the datagram and its source address, or a failed read. */
  datatype Datagram = Datagram(bytes: seq<byte>, source: string) | ReadFailed

  /** What the listener does with the frame in its buffer. */
  datatype Verdict = Dropped | Found(id: uint32) | Crashed

  datatype Sighting = Sighting(id: uint32, ip: string)

  /** The devices emitted, and whether the listener stopped on a panic. */
  datatype Heard = Heard(sightings: seq<Sighting>, crashed: bool)

  /** The buffer after a read: the datagram's first bytes, as many as fit,
      over what the buffer held. */
  function Filled(buffer: seq<byte>, bytes: seq<byte>): (r: seq<byte>)
    ensures |r| == |buffer|
  {
    if |bytes| >= |buffer| then bytes[..|buffer|] else bytes + buffer[|bytes|..]
  }

  /** Byte `k` of the buffer after a read comes from the datagram when it
      is long enough to reach it, and from the old buffer otherwise. */
  lemma FilledAt(buffer: seq<byte>, bytes: seq<byte>)
    ensures forall k :: 0 <= k < |buffer| ==>
      Filled(buffer, bytes)[k] == if k < |bytes| then bytes[k] else buffer[k]
  {
  }

  /** Parse the buffer without a token, which only unpacks it (see
      `Packets.Parsed`): a panic stops the listener, other failures and the
      sentinel id are dropped. */
  function Classify(buffer: seq<byte>): (v: Verdict)
    ensures v == Crashed <==> Unpacked(buffer).Err? && Unpacked(buffer).error.Panic?
    ensures v.Found? <==> Unpacked(buffer).Ok? && Unpacked(buffer).value.header.deviceId != HelloPacketDeviceId
    ensures v.Found? ==> v.id == Unpacked(buffer).value.header.deviceId && v.id != HelloPacketDeviceId
  {
    var f := Unpacked(buffer);
    if f.Err? then (if f.error.Panic? then Crashed else Dropped)
    else if f.value.header.deviceId == HelloPacketDeviceId then Dropped
    else Found(f.value.header.deviceId)
  }

  /** What the listener emits for the datagrams `ds` from a buffer holding `buffer`. */
  function Listened(buffer: seq<byte>, ds: seq<Datagram>): Heard
    decreases |ds|
  {
    if ds == [] then Heard([], false)
    else if ds[0].ReadFailed? then Listened(buffer, ds[1..])
    else
      var b := Filled(buffer, ds[0].bytes);
      var v := Classify(b);
      if v.Crashed? then Heard([], true)
      else
        var rest := Listened(b, ds[1..]);
        if v.Dropped? then rest
        else Heard([Sighting(v.id, ds[0].source)] + rest.sightings, rest.crashed)
  }

  /** `h` preceded by the devices already emitted. */
  function After(seen: seq<Sighting>, h: Heard): Heard {
    Heard(seen + h.sightings, h.crashed)
  }

  lemma AfterAppend(seen: seq<Sighting>, s: Sighting, h: Heard)
    ensures After(seen, After([s], h)) == After(seen + [s], h)
  {
    assert seen + ([s] + h.sightings) == seen + [s] + h.sightings;
  }

  /** One datagram of `Listened`, after the devices `seen` so far: what is
      left to emit once datagram `i` has been handled. */
  lemma ListenedStep(whole: Heard, seen: seq<Sighting>, buffer: seq<byte>, ds: seq<Datagram>, i: nat)
    requires i < |ds| && whole == After(seen, Listened(buffer, ds[i..]))
    ensures ds[i].ReadFailed? ==> whole == After(seen, Listened(buffer, ds[i + 1..]))
    ensures ds[i].Datagram? ==>
      var b := Filled(buffer, ds[i].bytes);
      var v := Classify(b);
      (v.Crashed? ==> whole == Heard(seen, true)) &&
      (v.Dropped? ==> whole == After(seen, Listened(b, ds[i + 1..]))) &&
      (v.Found? ==> whole == After(seen + [Sighting(v.id, ds[i].source)], Listened(b, ds[i + 1..])))
  {
    assert ds[i..][0] == ds[i] && ds[i..][1..] == ds[i + 1..];
    if ds[i].Datagram? {
      var b := Filled(buffer, ds[i].bytes);
      var v := Classify(b);
      if v.Found? {
        AfterAppend(seen, Sighting(v.id, ds[i].source), Listened(b, ds[i + 1..]));
      }
    }
  }

  /** The frame each broadcast round sends: the Hello frame stamped `now`. */
  method Broadcast(prims: Primitives, now: uint32) returns (frame: Option<seq<byte>>)
    ensures frame == Some(HelloFrame(now)) && |frame.value| == 32
  {
    var helloPacket := NewPacket(prims, HelloPacketDeviceId, None, now, None);
    HelloEncoding(prims, None, now, None);
    if helloPacket.Err? {
      return None;
    }
    var hello := helloPacket.value.Pack(prims);
    frame := Some(hello);
  }

  /** `ReadFromUDP` into the buffer: copies as much of the datagram as fits
      and leaves the rest of the buffer as it was. */
  method ReadInto(buffer: array<byte>, bytes: seq<byte>) returns (n: nat)
    modifies buffer
    ensures n == (if |bytes| < buffer.Length then |bytes| else buffer.Length)
    ensures buffer[..] == Filled(old(buffer[..]), bytes)
  {
    n := if |bytes| < buffer.Length then |bytes| else buffer.Length;
    var i := 0;
    while i < n
      invariant 0 <= i <= n
      invariant forall k :: 0 <= k < i ==> buffer[k] == bytes[k]
      invariant forall k :: i <= k < buffer.Length ==> buffer[k] == old(buffer[k])
    {
      buffer[i] := bytes[i];
      i := i + 1;
    }
    FilledAt(old(buffer[..]), bytes);
    assert forall k :: 0 <= k < buffer.Length ==> buffer[..][k] == Filled(old(buffer[..]), bytes)[k];
  }

  /** One datagram: read it into the buffer and parse the whole buffer. */
  method Receive(prims: Primitives, buffer: array<byte>, bytes: seq<byte>) returns (v: Verdict)
    modifies buffer
    ensures buffer[..] == Filled(old(buffer[..]), bytes)
    ensures v == Classify(Filled(old(buffer[..]), bytes))
  {
    var _ := ReadInto(buffer, bytes);
    var pkt := ParsePacket(prims, 0, None, buffer[..]);
    if pkt.Err? {
      return if pkt.error.Panic? then Crashed else Dropped;
    }
    if pkt.value.DeviceId == HelloPacketDeviceId {
      return Dropped;
    }
    v := Found(pkt.value.DeviceId);
  }

  /** The devices `found` are new sessions for the `sightings`, one each,
      in order: id and address from the sighting, request counter 1, no
      token, no offset, no connection. */
  ghost predicate Emits(found: seq<Session.MiIoDevice>, sightings: seq<Sighting>, debug: bool)
    reads set j | 0 <= j < |found| :: found[j]
  {
    |found| == |sightings| &&
    forall j :: 0 <= j < |found| ==>
      found[j].debug == debug &&
      found[j].Snapshot() == Session.State(None, sightings[j].ip, sightings[j].id, 0, 1, Session.NoConn)
  }

  lemma EmitsAppend(found: seq<Session.MiIoDevice>, sightings: seq<Sighting>, debug: bool,
                    device: Session.MiIoDevice, s: Sighting)
    requires Emits(found, sightings, debug)
    requires device.debug == debug && device.Snapshot() == Session.State(None, s.ip, s.id, 0, 1, Session.NoConn)
    ensures Emits(found + [device], sightings + [s], debug)
  {
  }

  /** The read loop over the datagrams `ds`. */
  method Listen(prims: Primitives, debug: bool, ds: seq<Datagram>)
    returns (found: seq<Session.MiIoDevice>, crashed: bool)
    ensures crashed == Listened(Repeat(0, BufferSize), ds).crashed
    ensures |found| == |Listened(Repeat(0, BufferSize), ds).sightings|
    ensures Emits(found, Listened(Repeat(0, BufferSize), ds).sightings, debug)
    ensures forall j :: 0 <= j < |found| ==> fresh(found[j])
  {
    var buffer := new byte[BufferSize](_ => 0);
    assert buffer[..] == Repeat(0, BufferSize);
    found, crashed := [], false;
    ghost var whole := Listened(Repeat(0, BufferSize), ds);
    ghost var seen: seq<Sighting> := [];
    assert ds[0..] == ds && [] + whole.sightings == whole.sightings;
    var i := 0;
    while i < |ds|
      invariant 0 <= i <= |ds| && buffer.Length == BufferSize && |found| == |seen|
      invariant Emits(found, seen, debug)
      invariant forall j :: 0 <= j < |found| ==> fresh(found[j])
      invariant whole == After(seen, Listened(buffer[..], ds[i..]))
    {
      ghost var before := buffer[..];
      ListenedStep(whole, seen, before, ds, i);
      if ds[i].Datagram? {
        var v := Receive(prims, buffer, ds[i].bytes);
        ghost var rest := Listened(buffer[..], ds[i + 1..]);
        assert buffer[..] == Filled(before, ds[i].bytes);
        if v.Crashed? {
          crashed := true;
          return;
        }
        if v.Found? {
          var device := new Session.MiIoDevice(debug, v.id, ds[i].source);
          var s := Sighting(v.id, ds[i].source);
          EmitsAppend(found, seen, debug, device, s);
          found := found + [device];
          seen := seen + [s];
        }
        assert whole == After(seen, rest);
      }
      i := i + 1;
    }
    assert ds[i..] == [];
    assert whole.sightings == seen + [] == seen && !whole.crashed;
  }

  /** `NewDiscovery`: fails when the listening socket cannot be opened. */
  method NewDiscovery(prims: Primitives, debug: bool, listening: bool, ds: seq<Datagram>)
    returns (err: Option<Error>, found: seq<Session.MiIoDevice>, crashed: bool)
    ensures !listening ==> err == Some(ErrNetwork) && found == [] && !crashed
    ensures listening ==> err == None
    ensures listening ==> crashed == Listened(Repeat(0, BufferSize), ds).crashed
    ensures listening ==> |found| == |Listened(Repeat(0, BufferSize), ds).sightings|
    ensures listening ==> Emits(found, Listened(Repeat(0, BufferSize), ds).sightings, debug)
    ensures forall j :: 0 <= j < |found| ==> fresh(found[j])
  {
    if !listening {
      return Some(ErrNetwork), [], false;
    }
    err := None;
    found, crashed := Listen(prims, debug, ds);
  }

  // Properties of the listener

  /** On the 32-byte buffer the verdict depends on a few bytes only: the
      listener stops exactly on the magic followed by a declared length
      below 0x20, and emits exactly for the magic, the length 0x20 and an
      id other than the sentinel, that id being bytes 8 to 11 read
      big-endian. Any other declared length does not fit the buffer. */
  lemma ClassifyFullBuffer(b: seq<byte>)
    requires |b| == BufferSize
    ensures Classify(b) == Crashed <==> b[..2] == [0x21, 0x31] && b[2] as int * 0x100 + b[3] < 0x20
    ensures Classify(b).Found? <==> b[..4] == [0x21, 0x31, 0x00, 0x20] && b[8..12] != [0xFF, 0xFF, 0xFF, 0xFF]
    ensures Classify(b).Found? ==> BigEndian32(Classify(b).id) == b[8..12]
  {
    HeaderFields(b);
    assert b[..4] == [0x21, 0x31, 0x00, 0x20] <==>
           b[..2] == [0x21, 0x31] && ReadInt16(b, 2).value == HeaderLength;
  }

  /** The header fields of a 32-byte buffer, read off its bytes. */
  lemma HeaderFields(b: seq<byte>)
    requires |b| == BufferSize
    ensures ReadInt16(b, 0).value == MagicNumber <==> b[..2] == [0x21, 0x31]
    ensures ReadInt16(b, 2).value == b[2] as int * 0x100 + b[3]
    ensures ReadInt16(b, 2).value == HeaderLength <==> b[2] == 0 && b[3] == 0x20
    ensures ReadInt32(b, 8).value == HelloPacketDeviceId <==> b[8..12] == [0xFF, 0xFF, 0xFF, 0xFF]
    ensures BigEndian32(ReadInt32(b, 8).value) == b[8..12]
  {
    assert b[..2] == [b[0], b[1]];
    var id := ReadInt32(b, 8).value;
    ReadInt32Encoding(b, 8);
    if b[8..12] == [0xFF, 0xFF, 0xFF, 0xFF] {
      assert b[8] == 0xFF && b[9] == 0xFF && b[10] == 0xFF && b[11] == 0xFF;
      assert id == ((0xFF * 0x100 + 0xFF) * 0x100 + 0xFF) * 0x100 + 0xFF;
    }
  }

  /** Two replies, one carrying the sentinel id and one a real id, give
      exactly one device: the real one, with the address it came from. */
  lemma TwoRepliesOneEvent(buffer: seq<byte>, sentinel: Header, announced: Header,
                           cs1: seq<byte>, cs2: seq<byte>, a: string, b: string)
    requires |buffer| == BufferSize && |cs1| == 16 && |cs2| == 16
    requires sentinel.magic == MagicNumber && sentinel.length == 0x20 && sentinel.deviceId == HelloPacketDeviceId
    requires announced.magic == MagicNumber && announced.length == 0x20 && announced.deviceId != HelloPacketDeviceId
    ensures Listened(buffer, [Datagram(HeaderBytes(sentinel) + cs1, a), Datagram(HeaderBytes(announced) + cs2, b)])
            == Heard([Sighting(announced.deviceId, b)], false)
  {
    var f1, f2 := HeaderBytes(sentinel) + cs1, HeaderBytes(announced) + cs2;
    UnpackFrame(sentinel, cs1, []);
    UnpackFrame(announced, cs2, []);
    assert f1 + [] == f1 && f2 + [] == f2;
    assert Filled(buffer, f1) == f1;
    assert Filled(f1, f2) == f2;
    assert Classify(f1) == Dropped && Classify(f2) == Found(announced.deviceId);
    var ds := [Datagram(f1, a), Datagram(f2, b)];
    assert ds[1..] == [Datagram(f2, b)] && ds[1..][1..] == [];
    assert Listened(f2, []) == Heard([], false);
    assert Listened(f1, ds[1..]) == Heard([Sighting(announced.deviceId, b)], false);
  }

  /** In the other order the sighting comes from the first sender: the
      sentinel reply that follows is dropped. */
  lemma OneEventThenSentinel(buffer: seq<byte>, sentinel: Header, announced: Header,
                             cs1: seq<byte>, cs2: seq<byte>, a: string, b: string)
    requires |buffer| == BufferSize && |cs1| == 16 && |cs2| == 16
    requires sentinel.magic == MagicNumber && sentinel.length == 0x20 && sentinel.deviceId == HelloPacketDeviceId
    requires announced.magic == MagicNumber && announced.length == 0x20 && announced.deviceId != HelloPacketDeviceId
    ensures Listened(buffer, [Datagram(HeaderBytes(announced) + cs1, a), Datagram(HeaderBytes(sentinel) + cs2, b)])
            == Heard([Sighting(announced.deviceId, a)], false)
  {
    var f1, f2 := HeaderBytes(announced) + cs1, HeaderBytes(sentinel) + cs2;
    UnpackFrame(announced, cs1, []);
    UnpackFrame(sentinel, cs2, []);
    assert f1 + [] == f1 && f2 + [] == f2;
    assert Filled(buffer, f1) == f1;
    assert Filled(f1, f2) == f2;
    assert Classify(f1) == Found(announced.deviceId) && Classify(f2) == Dropped;
    var ds := [Datagram(f1, a), Datagram(f2, b)];
    assert ds[1..] == [Datagram(f2, b)] && ds[1..][1..] == [];
    assert Listened(f2, []) == Heard([], false);
    assert Listened(f1, ds[1..]) == Heard([], false);
  }

  /** The buffer is not cleared: a two-byte datagram holding just the magic,
      received after a reply, is parsed with that reply's other 30 bytes and
      announces the same device again, now at the new sender's address. */
  lemma StaleBytesReemit(buffer: seq<byte>, h: Header, cs: seq<byte>, a: string, b: string)
    requires |buffer| == BufferSize && |cs| == 16
    requires h.magic == MagicNumber && h.length == 0x20 && h.deviceId != HelloPacketDeviceId
    ensures Listened(buffer, [Datagram(HeaderBytes(h) + cs, a), Datagram([0x21, 0x31], b)])
            == Heard([Sighting(h.deviceId, a), Sighting(h.deviceId, b)], false)
  {
    var f := HeaderBytes(h) + cs;
    UnpackFrame(h, cs, []);
    assert f + [] == f;
    assert Filled(buffer, f) == f;
    assert f[..2] == BigEndian16(MagicNumber) == [0x21, 0x31];
    assert Filled(f, [0x21, 0x31]) == f;
    assert Classify(f) == Found(h.deviceId);
    var ds := [Datagram(f, a), Datagram([0x21, 0x31], b)];
    assert ds[1..] == [Datagram([0x21, 0x31], b)] && ds[1..][1..] == [];
    assert Listened(f, []) == Heard([], false);
    assert Listened(f, ds[1..]) == Heard([Sighting(h.deviceId, b)], false);
  }

  /** Read failures are skipped without touching the buffer, and at most
      one device is emitted per datagram, never one with the sentinel id. */
  lemma {:induction false} ListenedBound(buffer: seq<byte>, ds: seq<Datagram>)
    ensures Listened(buffer, [ReadFailed] + ds) == Listened(buffer, ds)
    ensures |Listened(buffer, ds).sightings| <= |ds|
    ensures forall s <- Listened(buffer, ds).sightings :: s.id != HelloPacketDeviceId
    decreases |ds|
  {
    assert ([ReadFailed] + ds)[1..] == ds;
    if ds != [] {
      var b := if ds[0].ReadFailed? then buffer else Filled(buffer, ds[0].bytes);
      ListenedBound(b, ds[1..]);
    }
  }
}
