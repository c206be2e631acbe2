/** What `ReceivePacket` (device/miio_device.go and miio/device.go) makes
    of the datagram that answers a request.

    A fresh `bufio.Reader` over the connection serves two reads. The first,
    into a 4-byte header, makes the reader fill its 4096-byte buffer with
    one read from the socket: the datagram, cut at 4096 bytes. The header
    gets the first four buffered bytes and keeps zeros past a shorter
    datagram. A header whose magic is not 0x2131 is refused. Then a slice
    of the declared size is made and the magic and the size are written
    into it, which panics when the size is below 4. The second read fills
    the rest of the slice from the bytes buffered after the header, as many
    as there are and fit, and the rest of the slice stays zero. When nothing
    is buffered past the header and the slice has room, that read goes to
    the socket again; the model takes it as a failed read.

    So the frame handed to the parser is the datagram cut or zero-padded
    to the size its own header declares, which keeps the parser away from
    the short-length panic of `Unpack` (`FramedUnpack`).
 */
module Framing {
  import opened Outcomes
  import opened Bytes
  import opened Packets

  /** The buffer size of a default `bufio.Reader`. */
  const ReaderSize := 4096

  /** What one read from the socket puts in the reader's buffer. */
  function Buffered(datagram: seq<byte>): (r: seq<byte>)
    ensures |r| <= ReaderSize && r <= datagram
    ensures |datagram| <= ReaderSize ==> r == datagram
  {
    if |datagram| <= ReaderSize then datagram else datagram[..ReaderSize]
  }

  /** Byte `i` of `b`, or the zero of a fresh slice past its end. */
  function ByteAt(b: seq<byte>, i: nat): byte {
    if i < |b| then b[i] else 0
  }

  /** `b` cut or zero-padded to `n` bytes: a fresh `n`-byte slice after
      `copy` from `b`. */
  function Fit(b: seq<byte>, n: nat): (r: seq<byte>)
    ensures |r| == n
  {
    if |b| >= n then b[..n] else b + Repeat(0, n - |b|)
  }

  lemma FitBytes(b: seq<byte>, n: nat)
    ensures forall i :: 0 <= i < n ==> Fit(b, n)[i] == ByteAt(b, i)
  {
  }

  /** The header the first read fills, and the two fields read from it. */
  function HeaderOf(datagram: seq<byte>): seq<byte> {
    Fit(Buffered(datagram), 4)
  }

  function Magic(datagram: seq<byte>): uint16 {
    ReadInt16(HeaderOf(datagram), 0).value
  }

  function Declared(datagram: seq<byte>): uint16 {
    ReadInt16(HeaderOf(datagram), 2).value
  }

  /** `ReceivePacket` on a read that returns `datagram`: the header read,
      the magic check, the frame of the declared size, the second read. */
  function Framed(datagram: seq<byte>): Result<seq<byte>> {
    var b := Buffered(datagram);
    var header := Fit(b, 4);
    if ReadInt16(header, 0).value != MagicNumber then Err(ErrWrongMagic)
    else
      var size := ReadInt16(header, 2).value;
      if size < 4 then Err(Panic(IndexOutOfRange)) else Completed(b, size)
  }

  /** A frame comes back exactly when the magic is right, the size is at
      least 4 and either the size is exactly 4 or bytes are buffered past
      the header; it is then as long as it says, and it says so itself. A
      wrong magic is the "wrong magic" error, a size below 4 a panic. */
  lemma FramedCases(datagram: seq<byte>)
    ensures var r := Framed(datagram);
      (Magic(datagram) != MagicNumber ==> r == Err(ErrWrongMagic)) &&
      (Magic(datagram) == MagicNumber && Declared(datagram) < 4 ==> r == Err(Panic(IndexOutOfRange))) &&
      (r.Ok? <==>
         Magic(datagram) == MagicNumber && Declared(datagram) >= 4 &&
         (Declared(datagram) == 4 || |Buffered(datagram)| > 4))
    ensures var r := Framed(datagram);
      r.Ok? ==>
        |r.value| == Declared(datagram) &&
        ReadInt16(r.value, 0).value == MagicNumber && ReadInt16(r.value, 2).value == |r.value|
  {
    var b := Buffered(datagram);
    var r := Framed(datagram);
    if r.Ok? {
      FitBytes(b, 4);
      CompletedBytes(b, Declared(datagram));
      assert r.value[..4] == HeaderOf(datagram);
    }
  }

  /** The frame holds the buffered bytes, with zeros past their end. */
  lemma FramedBytes(datagram: seq<byte>)
    requires Framed(datagram).Ok?
    ensures var f := Framed(datagram).value;
      forall i :: 0 <= i < |f| ==> f[i] == ByteAt(Buffered(datagram), i)
  {
    CompletedBytes(Buffered(datagram), Declared(datagram));
  }

  /** The second read, into a frame of `size` bytes whose first four are
      the header: nothing more to read at size 4; otherwise the bytes
      buffered after the header, if there are any. */
  function Completed(b: seq<byte>, size: nat): (r: Result<seq<byte>>)
    requires size >= 4
    ensures r.Ok? <==> size == 4 || |b| > 4
    ensures r.Ok? ==> |r.value| == size
  {
    if size == 4 then Ok(Fit(b, 4))
    else if |b| <= 4 then Err(ErrNetwork)
    else Ok(Fit(b, 4) + Fit(b[4..], size - 4))
  }

  lemma CompletedBytes(b: seq<byte>, size: nat)
    requires size >= 4
    ensures var r := Completed(b, size);
      r.Ok? ==> forall i :: 0 <= i < size ==> r.value[i] == ByteAt(b, i)
  {
    FitBytes(b, 4);
    if size > 4 && |b| > 4 {
      FitBytes(b[4..], size - 4);
    }
  }

  /** `ReceivePacket` on an open connection whose read returned `read`:
      a failed read (for `MiIoDevice`, the deadline passing; for the
      legacy client, which sets none, a socket error) is an error, a
      datagram is framed. */
  function Reply(read: Option<seq<byte>>): Result<seq<byte>> {
    if read.None? then Err(ErrNetwork) else Framed(read.value)
  }

  /** `reader.Read(dst[at:])` served from the buffered bytes `src`: copies
      as many as there are and fit, and keeps the rest of `dst`. */
  method CopyInto(dst: array<byte>, at: nat, src: seq<byte>) returns (n: nat)
    requires at <= dst.Length
    modifies dst
    ensures n == if |src| < dst.Length - at then |src| else dst.Length - at
    ensures forall k :: 0 <= k < dst.Length ==>
      dst[k] == if at <= k < at + n then src[k - at] else old(dst[k])
  {
    n := if |src| < dst.Length - at then |src| else dst.Length - at;
    var i := 0;
    while i < n
      invariant 0 <= i <= n
      invariant forall k :: 0 <= k < dst.Length ==>
        dst[k] == if at <= k < at + i then src[k - at] else old(dst[k])
    {
      dst[at + i] := src[i];
      i := i + 1;
    }
  }

  /** The body of `ReceivePacket` once the socket read has returned
      `datagram`: the header array and its two checks, then the frame. */
  method ReadFrame(datagram: seq<byte>) returns (r: Result<seq<byte>>)
    ensures r == Framed(datagram)
  {
    var buffered := Buffered(datagram);
    var header := new byte[4](_ => 0);
    var _ := CopyInto(header, 0, buffered);
    FitBytes(buffered, 4);
    assert header[..] == Fit(buffered, 4);
    var magic := ReadInt16(header[..], 0).value;
    if magic != MagicNumber {
      return Err(ErrWrongMagic);
    }
    var size := ReadInt16(header[..], 2).value;
    if size < 4 {
      // `PutUint16` on a slice shorter than the field
      return Err(Panic(IndexOutOfRange));
    }
    r := Complete(buffered, header[..], size);
  }

  /** `make([]byte, size)` with the magic and the size written in: the
      header, then zeros. */
  method Stamped(header: seq<byte>, size: uint16) returns (res: array<byte>)
    requires |header| == 4 && size >= 4 && ReadInt16(header, 2).value == size
    ensures fresh(res) && res.Length == size
    ensures forall k :: 0 <= k < size ==> res[k] == ByteAt(header, k)
  {
    res := new byte[size](_ => 0);
    ghost var zeros := res[..];
    var _ := WriteInt16(res, 0, ReadInt16(header, 0).value);
    ghost var magicWritten := res[..];
    var _ := WriteInt16(res, 2, size);
    forall k | 4 <= k < size
      ensures res[k] == 0
    {
      assert res[..][k] == magicWritten[2 + 2..][k - 4];
      assert magicWritten[k] == zeros[2..][k - 2];
    }
    ReadInt16Encoding(header, 0);
    ReadInt16Encoding(header, 2);
    assert res[..4] == header;
    assert forall k :: 0 <= k < 4 ==> res[k] == res[..4][k];
  }

  /** The frame array, and the second read into the rest of it. */
  method Complete(buffered: seq<byte>, header: seq<byte>, size: uint16) returns (r: Result<seq<byte>>)
    requires size >= 4 && header == Fit(buffered, 4)
    requires ReadInt16(header, 2).value == size
    ensures r == Completed(buffered, size)
  {
    var res := Stamped(header, size);
    FitBytes(buffered, 4);
    CompletedBytes(buffered, size);
    assert forall k :: 0 <= k < 4 ==> res[k] == ByteAt(buffered, k);
    if size > 4 {
      if |buffered| <= 4 {
        // nothing left in the reader: the read goes to the socket again
        return Err(ErrNetwork);
      }
      var _ := CopyInto(res, 4, buffered[4..]);
    }
    assert forall k :: 0 <= k < size ==> res[k] == ByteAt(buffered, k);
    assert res[..] == Completed(buffered, size).value;
    r := Ok(res[..]);
  }

  // Properties of the framing

  /** A well-formed frame that fits the reader's buffer comes back as it is. */
  lemma FramedExact(f: seq<byte>)
    requires 4 <= |f| <= ReaderSize
    requires ReadInt16(f, 0).value == MagicNumber && ReadInt16(f, 2).value == |f|
    ensures Framed(f) == Ok(f)
  {
    var h := HeaderOf(f);
    assert h[0] == f[0] && h[1] == f[1] && h[2] == f[2] && h[3] == f[3];
    assert Magic(f) == MagicNumber && Declared(f) == |f|;
    FramedCases(f);
    assert Framed(f).Ok?;
    FramedBytes(f);
    var r := Framed(f).value;
    assert forall i :: 0 <= i < |f| ==> r[i] == f[i];
    assert r == f;
  }

  /** A packet whose header declares its own length passes through as it is. */
  lemma FramedPacket(h: Header, rest: seq<byte>)
    requires h.magic == MagicNumber && h.length == 16 + |rest| <= ReaderSize
    ensures Framed(HeaderBytes(h) + rest) == Ok(HeaderBytes(h) + rest)
  {
    var f := HeaderBytes(h) + rest;
    assert f[..16] == HeaderBytes(h);
    ReadBackHeader(h, f);
    FramedExact(f);
  }

  /** Framing is idempotent: a frame `ReceivePacket` returned, read again,
      comes back unchanged (past the reader's buffer it holds only zeros). */
  lemma FramedIdempotent(datagram: seq<byte>)
    requires Framed(datagram).Ok?
    ensures Framed(Framed(datagram).value) == Framed(datagram)
  {
    FramedCases(datagram);
    var f := Framed(datagram).value;
    var h := HeaderOf(f);
    assert h[0] == f[0] && h[1] == f[1] && h[2] == f[2] && h[3] == f[3];
    assert Magic(f) == MagicNumber && Declared(f) == |f|;
    FramedCases(f);
    assert Framed(f).Ok?;
    FramedBytes(datagram);
    FramedBytes(f);
    var r := Framed(f).value;
    assert forall i :: 0 <= i < |f| ==> r[i] == ByteAt(Buffered(f), i) == f[i];
    assert r == f;
  }

  /** The declared size decides the frame: a longer datagram is cut to it,
      a shorter one is padded with zeros up to it. */
  lemma FramedCutsOrPads(datagram: seq<byte>)
    requires Framed(datagram).Ok?
    ensures var b := Buffered(datagram);
      Declared(datagram) <= |b| ==> Framed(datagram) == Ok(b[..Declared(datagram)])
    ensures var b := Buffered(datagram);
      Declared(datagram) > |b| ==> Framed(datagram) == Ok(b + Repeat(0, Declared(datagram) - |b|))
  {
    var b := Buffered(datagram);
    var r := Framed(datagram).value;
    FramedCases(datagram);
    FramedBytes(datagram);
    if Declared(datagram) <= |b| {
      assert r == b[..Declared(datagram)];
    } else {
      assert r == b + Repeat(0, Declared(datagram) - |b|);
    }
  }

  /** A frame from `ReceivePacket` declares its own length, so `Unpack`
      never reaches its short-length panic on it: a frame shorter than the
      header is a read error, and a longer one unpacks whole. */
  lemma FramedUnpack(datagram: seq<byte>)
    requires Framed(datagram).Ok?
    ensures var u := Unpacked(Framed(datagram).value);
      (Declared(datagram) < HeaderLength <==> u == Err(ErrReadFromBuf)) &&
      (Declared(datagram) >= HeaderLength ==>
         u.Ok? && u.value.header.length == Declared(datagram))
  {
    FramedCases(datagram);
  }
}
