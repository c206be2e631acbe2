/** The legacy discovery of miio/discovery.go.

    The broadcast and the read loop are those of the discovery listener
    (the same 32-byte Hello frame, the same reused 32-byte buffer parsed
    without a token, the same drops), but a responder is not reported as
    it is heard: a legacy `Device` is dialled at the source address and
    sent a unicast Hello, and only when that Hello succeeds is the device
    reported, carrying the id, token and uptime of the unicast reply.

    Each datagram comes with what the network does for the unicast Hello
    that may follow it (`Unicast`); the reporting channel is the `Reporter`
    sequence, one device appended per report.
 */
module MiioDiscovery {
  import opened Outcomes
  import opened Bytes
  import opened Crypto
  import opened Packets
  import Listener = Discovery
  import Legacy
  import Framing

  /** What happens to a responder: whether `NewDevice` can dial it, the
      local time of its Hello, and the unicast exchange. */
  datatype Unicast = Unicast(dialed: bool, now: uint32, link: Legacy.Exchange)

  /** One `ReadFromUDP` and the unicast that a report would need. */
  datatype Answer = Answer(datagram: Listener.Datagram, unicast: Unicast)

  /** The devices reported, as their fields, and whether the loop stopped on a panic. */
  datatype Reports = Reports(devices: seq<Legacy.Fields>, crashed: bool)

  /** The fields of `NewDevice(ip)`. */
  function Dialled(ip: string): Legacy.Fields {
    Legacy.Fields(ip, 0, None, 0, 0, "", "", true)
  }

  /** The unicast Hello of a new device at `ip`. */
  function Greeted(prims: Primitives, ip: string, u: Unicast): Legacy.Step<Result<PacketValue>> {
    Legacy.HelloStep(prims, Dialled(ip), u.now, u.link)
  }

  /** What the read loop does with one answer, given the bytes left in its
      buffer: go on with the buffer as the read left it, report a greeted
      device and go on, or stop on a panic. A responder whose dial fails is
      a nil `Device`, and its `Hello` panics; a `Hello` that panics on its
      reply (one declaring fewer than 4 bytes) ends the loop as well; one
      whose Hello fails otherwise is skipped. */
  datatype Event = Next(buffer: seq<byte>) | Report(fields: Legacy.Fields, buffer: seq<byte>) | Stop

  function Handled(prims: Primitives, buffer: seq<byte>, a: Answer): (r: Event)
    ensures a.datagram.ReadFailed? ==> r == Next(buffer)
    ensures a.datagram.Datagram? && !r.Stop? ==> r.buffer == Listener.Filled(buffer, a.datagram.bytes)
    ensures r.Report? ==>
      Listener.Classify(r.buffer).Found? && a.unicast.dialed &&
      r.fields == Greeted(prims, a.datagram.source, a.unicast).state &&
      r.fields.ip == a.datagram.source && r.fields.token.Some? && r.fields.open
  {
    if a.datagram.ReadFailed? then Next(buffer)
    else
      var b := Listener.Filled(buffer, a.datagram.bytes);
      var v := Listener.Classify(b);
      if v.Crashed? then Stop
      else if v.Dropped? then Next(b)
      else if !a.unicast.dialed then Stop
      else
        var h := Greeted(prims, a.datagram.source, a.unicast);
        Legacy.HelloEffects(prims, Dialled(a.datagram.source), a.unicast.now, a.unicast.link);
        if h.out.Err? && h.out.error.Panic? then Stop
        else if h.out.Err? then Next(b)
        else Report(h.state, b)
  }

  /** What the read loop reports for the answers `answers` from a buffer
      holding `buffer`. */
  function Reported(prims: Primitives, buffer: seq<byte>, answers: seq<Answer>): Reports
    decreases |answers|
  {
    if answers == [] then Reports([], false)
    else
      match Handled(prims, buffer, answers[0])
      case Stop => Reports([], true)
      case Next(b) => Reported(prims, b, answers[1..])
      case Report(f, b) =>
        var rest := Reported(prims, b, answers[1..]);
        Reports([f] + rest.devices, rest.crashed)
  }

  /** `r` preceded by the devices already reported. */
  function After(seen: seq<Legacy.Fields>, r: Reports): Reports {
    Reports(seen + r.devices, r.crashed)
  }

  /** One answer of `Reported`, after the devices `seen` so far: what is
      left to report once answer `i` has been handled. */
  lemma ReportedStep(prims: Primitives, whole: Reports, seen: seq<Legacy.Fields>, buffer: seq<byte>,
                     answers: seq<Answer>, i: nat)
    requires i < |answers| && whole == After(seen, Reported(prims, buffer, answers[i..]))
    ensures var e := Handled(prims, buffer, answers[i]);
      (e.Stop? ==> whole == Reports(seen, true)) &&
      (e.Next? ==> whole == After(seen, Reported(prims, e.buffer, answers[i + 1..]))) &&
      (e.Report? ==> whole == After(seen + [e.fields], Reported(prims, e.buffer, answers[i + 1..])))
  {
    assert answers[i..][0] == answers[i] && answers[i..][1..] == answers[i + 1..];
    var e := Handled(prims, buffer, answers[i]);
    if e.Report? {
      var r := Reported(prims, e.buffer, answers[i + 1..]);
      assert seen + ([e.fields] + r.devices) == seen + [e.fields] + r.devices;
    }
  }

  /** The devices `devices` hold the fields `fields`, one each, in order. */
  ghost predicate Shows(devices: seq<Legacy.Device>, fields: seq<Legacy.Fields>)
    reads set j | 0 <= j < |devices| :: devices[j]
  {
    |devices| == |fields| && forall j :: 0 <= j < |devices| ==> devices[j].Snapshot() == fields[j]
  }

  /** A responder at `ip`: `NewDevice`, then the unicast `Hello`. The dial
      failing leaves a nil device whose `Hello` panics, and the Hello itself
      can panic on its reply; a failed Hello leaves no device to report. */
  method Contact(prims: Primitives, ip: string, u: Unicast) returns (device: Option<Legacy.Device>, panicked: bool)
    ensures panicked <==> !u.dialed || (Greeted(prims, ip, u).out.Err? && Greeted(prims, ip, u).out.error.Panic?)
    ensures device.Some? <==> u.dialed && Greeted(prims, ip, u).out.Ok?
    ensures device.Some? ==> fresh(device.value) && device.value.Snapshot() == Greeted(prims, ip, u).state
  {
    var d := Legacy.NewDevice(ip, u.dialed);
    if d.None? {
      return None, true;
    }
    var r := d.value.Hello(prims, u.now, u.link);
    if r.Err? && r.error.Panic? {
      return None, true;
    }
    if r.Err? {
      return None, false;
    }
    return d, false;
  }

  /** One pass of the read loop: read into the buffer, parse, and contact
      an announced responder. */
  method Serve(prims: Primitives, buffer: array<byte>, a: Answer) returns (report: Option<Legacy.Device>, stop: bool)
    requires buffer.Length == Listener.BufferSize
    modifies buffer
    ensures var e := Handled(prims, old(buffer[..]), a);
      (stop <==> e.Stop?) && (!stop ==> buffer[..] == e.buffer) &&
      (report.Some? <==> e.Report?) &&
      (report.Some? ==> fresh(report.value) && report.value.Snapshot() == e.fields)
  {
    if a.datagram.ReadFailed? {
      return None, false;
    }
    var v := Listener.Receive(prims, buffer, a.datagram.bytes);
    if v.Crashed? {
      return None, true;
    }
    if v.Dropped? {
      return None, false;
    }
    report, stop := Contact(prims, a.datagram.source, a.unicast);
  }

  class Discovery {
    /** The `Reporter` channel, as the sequence of devices sent on it. */
    var Reporter: seq<Legacy.Device>

    constructor ()
      ensures Reporter == []
    {
      Reporter := [];
    }

    /** The read loop over the answers `answers`: the reports are appended to
        `Reporter`, each a new device holding the fields `Reported` gives. */
    method Listen(prims: Primitives, answers: seq<Answer>) returns (crashed: bool)
      modifies this`Reporter
      ensures crashed == Reported(prims, Repeat(0, Listener.BufferSize), answers).crashed
      ensures |Reporter| >= |old(Reporter)| && Reporter[..|old(Reporter)|] == old(Reporter)
      ensures Shows(Reporter[|old(Reporter)|..], Reported(prims, Repeat(0, Listener.BufferSize), answers).devices)
    {
      var buffer := new byte[Listener.BufferSize](_ => 0);
      assert buffer[..] == Repeat(0, Listener.BufferSize);
      crashed := false;
      ghost var whole := Reported(prims, Repeat(0, Listener.BufferSize), answers);
      ghost var start := Reporter;
      ghost var added: seq<Legacy.Device> := [];
      ghost var seen: seq<Legacy.Fields> := [];
      assert answers[0..] == answers && [] + whole.devices == whole.devices;
      var i := 0;
      while i < |answers|
        invariant 0 <= i <= |answers| && buffer.Length == Listener.BufferSize
        invariant Reporter == start + added && |added| == |seen|
        invariant forall j :: 0 <= j < |added| ==> added[j].Snapshot() == seen[j]
        invariant whole == After(seen, Reported(prims, buffer[..], answers[i..]))
      {
        var report, stop := Round(prims, buffer, answers, i, whole, seen);
        if stop {
          assert Reporter[..|start|] == start && Reporter[|start|..] == added;
          assert Shows(added, seen);
          return true;
        }
        if report.Some? {
          added := added + [report.value];
          seen := seen + [report.value.Snapshot()];
        }
        i := i + 1;
      }
      assert answers[i..] == [];
      assert whole.devices == seen + [] == seen && !whole.crashed;
      assert Reporter[..|start|] == start && Reporter[|start|..] == added;
    }

    /** One pass of the read loop, over answer `i`: `Serve`, and the report,
        if any, sent on `Reporter`. What is left to report after the devices
        `seen` moves on to the answers after `i`. */
    method Round(prims: Primitives, buffer: array<byte>, answers: seq<Answer>, i: nat,
                 ghost whole: Reports, ghost seen: seq<Legacy.Fields>)
      returns (report: Option<Legacy.Device>, stop: bool)
      requires i < |answers| && buffer.Length == Listener.BufferSize
      requires whole == After(seen, Reported(prims, buffer[..], answers[i..]))
      modifies this`Reporter, buffer
      ensures stop ==> whole == Reports(seen, true) && report.None?
      ensures Reporter == old(Reporter) + (if report.Some? then [report.value] else [])
      ensures !stop && report.None? ==> whole == After(seen, Reported(prims, buffer[..], answers[i + 1..]))
      ensures !stop && report.Some? ==>
        whole == After(seen + [report.value.Snapshot()], Reported(prims, buffer[..], answers[i + 1..]))
    {
      ReportedStep(prims, whole, seen, buffer[..], answers, i);
      report, stop := Serve(prims, buffer, answers[i]);
      if !stop && report.Some? {
        Reporter := Reporter + [report.value];
      }
    }
  }

  /** `NewDiscovery`: nil when the listening socket cannot be opened,
      otherwise a discovery whose read loop has run over `answers`. */
  method NewDiscovery(prims: Primitives, listening: bool, answers: seq<Answer>)
    returns (d: Option<Discovery>, crashed: bool)
    ensures d.None? <==> !listening
    ensures !listening ==> !crashed
    ensures listening ==> fresh(d.value) && crashed == Reported(prims, Repeat(0, Listener.BufferSize), answers).crashed
    ensures listening ==> Shows(d.value.Reporter, Reported(prims, Repeat(0, Listener.BufferSize), answers).devices)
  {
    if !listening {
      return None, false;
    }
    var discovery := new Discovery();
    crashed := discovery.Listen(prims, answers);
    assert discovery.Reporter[0..] == discovery.Reporter;
    d := Some(discovery);
  }

  // Properties of the legacy discovery

  /** A reported device is one whose unicast Hello succeeded: it is the
      device dialled at the sender's address, its id, token and uptime are
      those of the unicast reply (whatever the broadcast reply announced),
      its `Timestamp` is the local time of that Hello, and the one frame it
      has written is the Hello frame. */
  lemma ReportFromUnicastReply(prims: Primitives, ip: string, u: Unicast)
    requires Greeted(prims, ip, u).out.Ok?
    ensures var h := Greeted(prims, ip, u);
      var recv := Framing.Reply(u.link.reply);
      var reply := Parsed(prims, None, recv.value).value;
      u.link.written && recv.Ok? &&
      h.state == Legacy.Fields(ip, reply.header.deviceId, Some(reply.checkSum), u.now,
                               reply.header.timestamp, "", "", true) &&
      h.sent == [HelloFrame(u.now)]
  {
    Legacy.HelloEffects(prims, Dialled(ip), u.now, u.link);
  }

  /** The fate of a single announcing frame (magic, length 0x20, an id
      other than the sentinel): a failed dial ends the loop, and so does a
      unicast Hello that panics, as on a reply declaring fewer than 4
      bytes; a Hello that fails otherwise reports nothing, a successful one
      reports the greeted device. */
  lemma OneResponder(prims: Primitives, buffer: seq<byte>, h: Header, cs: seq<byte>, ip: string, u: Unicast)
    requires |buffer| == Listener.BufferSize && |cs| == 16
    requires h.magic == MagicNumber && h.length == 0x20 && h.deviceId != HelloPacketDeviceId
    ensures var r := Reported(prims, buffer, [Answer(Listener.Datagram(HeaderBytes(h) + cs, ip), u)]);
      var g := Greeted(prims, ip, u);
      (!u.dialed ==> r == Reports([], true)) &&
      (u.dialed && g.out.Err? && g.out.error.Panic? ==> r == Reports([], true)) &&
      (u.dialed && g.out.Err? && !g.out.error.Panic? ==> r == Reports([], false)) &&
      (u.dialed && g.out.Ok? ==> r == Reports([g.state], false))
    ensures var r := Reported(prims, buffer, [Answer(Listener.Datagram(HeaderBytes(h) + cs, ip), u)]);
      u.dialed && u.link.written && u.link.reply.Some? &&
      Framing.Magic(u.link.reply.value) == MagicNumber && Framing.Declared(u.link.reply.value) < 4 ==>
        Greeted(prims, ip, u).out == Err(Panic(IndexOutOfRange)) && r == Reports([], true)
  {
    var f := HeaderBytes(h) + cs;
    UnpackFrame(h, cs, []);
    assert f + [] == f;
    assert Listener.Filled(buffer, f) == f;
    assert Listener.Classify(f) == Listener.Found(h.deviceId);
    var answers := [Answer(Listener.Datagram(f, ip), u)];
    assert answers[1..] == [];
    if u.link.reply.Some? {
      Framing.FramedCases(u.link.reply.value);
    }
  }

  /** At most one report per answer; every reported device has a token,
      an open connection, and the address it answered from. */
  lemma {:induction false} ReportedBound(prims: Primitives, buffer: seq<byte>, answers: seq<Answer>)
    ensures |Reported(prims, buffer, answers).devices| <= |answers|
    ensures forall f <- Reported(prims, buffer, answers).devices :: f.token.Some? && f.open
    ensures forall f <- Reported(prims, buffer, answers).devices ::
      exists a <- answers :: a.datagram.Datagram? && a.datagram.source == f.ip
    decreases |answers|
  {
    if answers != [] {
      var b := if answers[0].datagram.ReadFailed? then buffer else Listener.Filled(buffer, answers[0].datagram.bytes);
      ReportedBound(prims, b, answers[1..]);
      if answers[0].datagram.Datagram? {
        Legacy.HelloEffects(prims, Dialled(answers[0].datagram.source), answers[0].unicast.now, answers[0].unicast.link);
      }
      forall f <- Reported(prims, buffer, answers).devices
        ensures exists a <- answers :: a.datagram.Datagram? && a.datagram.source == f.ip
      {
        if f !in Reported(prims, b, answers[1..]).devices {
          assert answers[0] in answers;
        } else {
          var a :| a in answers[1..] && a.datagram.Datagram? && a.datagram.source == f.ip;
          assert a in answers;
        }
      }
    }
  }
}
