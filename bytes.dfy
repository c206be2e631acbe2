/** The byte helpers of miio/utils.go: big-endian writes into a caller's
    buffer, big-endian reads returning `(value, offset, err)`, and the
    block padding that the source calls PKCS5 (with a 16-byte block it is
    the padding of section 6.3 of RFC 5652).
 */
module Bytes {
  import opened Outcomes

  type byte = x: int | 0 <= x < 0x100
  type uint16 = x: int | 0 <= x < 0x1_0000
  type uint32 = x: int | 0 <= x < 0x1_0000_0000

  /** Go's `uint16(a + b)` and `uint32(a - b)`: arithmetic modulo the width. */
  function Wrap16(x: int): uint16 { x % 0x1_0000 }
  function Wrap32(x: int): uint32 { x % 0x1_0000_0000 }

  /** The two bytes of `v`, most significant first. */
  function BigEndian16(v: uint16): (r: seq<byte>)
    ensures |r| == 2
  {
    [v / 0x100, v % 0x100]
  }

  /** The four bytes of `v`, most significant first. */
  function BigEndian32(v: uint32): (r: seq<byte>)
    ensures |r| == 4
  {
    [v / 0x100_0000, v / 0x1_0000 % 0x100, v / 0x100 % 0x100, v % 0x100]
  }

  /** What a `Read*` helper returns: the value, the next offset and the error. */
  datatype Read<T> = Read(value: T, offset: int, err: Option<Error>)

  function ReadInt8(buf: seq<byte>, offset: nat): (r: Read<byte>)
    ensures |buf| < offset + 1 ==> r == Read(0, offset, Some(ErrReadFromBuf))
    ensures |buf| >= offset + 1 ==> r == Read(buf[offset], offset + 1, None)
  {
    if |buf| >= offset + 1 then Read(buf[offset], offset + 1, None)
    else Read(0, offset, Some(ErrReadFromBuf))
  }

  /** Big-endian 16-bit read (`binary.BigEndian.Uint16`), failing on a short buffer. */
  function ReadInt16(buf: seq<byte>, offset: nat): (r: Read<uint16>)
    ensures |buf| < offset + 2 ==> r == Read(0, offset, Some(ErrReadFromBuf))
    ensures |buf| >= offset + 2 ==> r.err == None && r.offset == offset + 2
  {
    if |buf| >= offset + 2 then Read(buf[offset] as int * 0x100 + buf[offset + 1], offset + 2, None)
    else Read(0, offset, Some(ErrReadFromBuf))
  }

  /** Big-endian 32-bit read (`binary.BigEndian.Uint32`), failing on a short buffer. */
  function ReadInt32(buf: seq<byte>, offset: nat): (r: Read<uint32>)
    ensures |buf| < offset + 4 ==> r == Read(0, offset, Some(ErrReadFromBuf))
    ensures |buf| >= offset + 4 ==> r.err == None && r.offset == offset + 4
  {
    if |buf| >= offset + 4 then
      Read(((buf[offset] as int * 0x100 + buf[offset + 1]) * 0x100 + buf[offset + 2]) * 0x100 + buf[offset + 3],
           offset + 4, None)
    else Read(0, offset, Some(ErrReadFromBuf))
  }

  /** `buf[offset:offset+length]`. The bound check does not look at the sign
      of `length`: a negative length passes it and the slice expression panics. */
  function ReadBytes(buf: seq<byte>, offset: nat, length: int): (r: Read<seq<byte>>)
    ensures |buf| < offset + length ==> r == Read([], offset, Some(ErrReadFromBuf))
    ensures |buf| >= offset + length && length < 0 ==> r.err == Some(Panic(SliceBounds))
    ensures |buf| >= offset + length && length >= 0 ==>
      r.err == None && r.offset == offset + length && |r.value| == length &&
      buf == buf[..offset] + r.value + buf[offset + length..]
  {
    if |buf| >= offset + length then
      if length < 0 then Read([], offset, Some(Panic(SliceBounds)))
      else Read(buf[offset..offset + length], offset + length, None)
    else Read([], offset, Some(ErrReadFromBuf))
  }

  /** Go strings are byte strings; each byte becomes one character. */
  function ReadString(buf: seq<byte>, offset: nat, length: int): (r: Read<string>)
    ensures r.err == ReadBytes(buf, offset, length).err && r.offset == ReadBytes(buf, offset, length).offset
    ensures r.err == None ==>
      |r.value| == length && forall i :: 0 <= i < length ==> r.value[i] as int == buf[offset + i]
  {
    var b := ReadBytes(buf, offset, length);
    Read(seq(|b.value|, i requires 0 <= i < |b.value| => b.value[i] as char), b.offset, b.err)
  }

  /** A successful 16-bit read decodes exactly the two bytes read. */
  lemma ReadInt16Encoding(buf: seq<byte>, offset: nat)
    requires offset + 2 <= |buf|
    ensures BigEndian16(ReadInt16(buf, offset).value) == buf[offset..offset + 2]
  {
    var a: int, b: int := buf[offset], buf[offset + 1];
    DivModUnique(ReadInt16(buf, offset).value, 0x100, a, b);
  }

  /** A successful 32-bit read decodes exactly the four bytes read. */
  lemma ReadInt32Encoding(buf: seq<byte>, offset: nat)
    requires offset + 4 <= |buf|
    ensures BigEndian32(ReadInt32(buf, offset).value) == buf[offset..offset + 4]
  {
    var a: int, b: int, c: int, d: int := buf[offset], buf[offset + 1], buf[offset + 2], buf[offset + 3];
    var v := ReadInt32(buf, offset).value;
    assert v == a * 0x100_0000 + (b * 0x1_0000 + c * 0x100 + d);
    DivModUnique(v, 0x100_0000, a, b * 0x1_0000 + c * 0x100 + d);
    DivModUnique(v, 0x1_0000, a * 0x100 + b, c * 0x100 + d);
    DivModUnique(a * 0x100 + b, 0x100, a, b);
    DivModUnique(v, 0x100, a * 0x1_0000 + b * 0x100 + c, d);
    DivModUnique(a * 0x1_0000 + b * 0x100 + c, 0x100, a * 0x100 + b, c);
  }

  lemma ReadBackInt16(buf: seq<byte>, offset: nat, v: uint16)
    requires offset + 2 <= |buf| && buf[offset..offset + 2] == BigEndian16(v)
    ensures ReadInt16(buf, offset) == Read(v, offset + 2, None)
  {
    assert buf[offset] == v / 0x100 && buf[offset + 1] == v % 0x100 by {
      assert buf[offset..offset + 2][0] == buf[offset];
      assert buf[offset..offset + 2][1] == buf[offset + 1];
    }
  }

  lemma ReadBackInt32(buf: seq<byte>, offset: nat, v: uint32)
    requires offset + 4 <= |buf| && buf[offset..offset + 4] == BigEndian32(v)
    ensures ReadInt32(buf, offset) == Read(v, offset + 4, None)
  {
    var w := buf[offset..offset + 4];
    assert w[0] == buf[offset] && w[1] == buf[offset + 1] && w[2] == buf[offset + 2] && w[3] == buf[offset + 3];
    var hi := v / 0x1_0000;
    assert v == hi * 0x1_0000 + v % 0x1_0000;
    assert hi == (v / 0x100_0000) * 0x100 + hi % 0x100;
    assert v % 0x1_0000 == (v / 0x100 % 0x100) * 0x100 + v % 0x100;
  }

  /** `buf[offset] = value`, returning `offset+1`. */
  method WriteInt8(buf: array<byte>, offset: nat, value: byte) returns (next: nat)
    requires offset + 1 <= buf.Length
    modifies buf
    ensures next == offset + 1
    ensures buf[..] == old(buf[..offset]) + [value] + old(buf[offset + 1..])
  {
    buf[offset] := value;
    next := offset + 1;
  }

  /** `binary.BigEndian.PutUint16(buf[offset:], value)`, returning `offset+2`. */
  method WriteInt16(buf: array<byte>, offset: nat, value: uint16) returns (next: nat)
    requires offset + 2 <= buf.Length
    modifies buf
    ensures next == offset + 2
    ensures buf[..] == old(buf[..offset]) + BigEndian16(value) + old(buf[offset + 2..])
  {
    buf[offset] := value / 0x100;
    buf[offset + 1] := value % 0x100;
    next := offset + 2;
  }

  /** `binary.BigEndian.PutUint32(buf[offset:], value)`, returning `offset+4`. */
  method WriteInt32(buf: array<byte>, offset: nat, value: uint32) returns (next: nat)
    requires offset + 4 <= buf.Length
    modifies buf
    ensures next == offset + 4
    ensures buf[..] == old(buf[..offset]) + BigEndian32(value) + old(buf[offset + 4..])
  {
    buf[offset] := value / 0x100_0000;
    buf[offset + 1] := value / 0x1_0000 % 0x100;
    buf[offset + 2] := value / 0x100 % 0x100;
    buf[offset + 3] := value % 0x100;
    next := offset + 4;
  }

  /** `n` copies of `b` (Go's `bytes.Repeat([]byte{b}, n)`). */
  function Repeat(b: byte, n: nat): (r: seq<byte>)
    ensures |r| == n && forall i :: 0 <= i < n ==> r[i] == b
  {
    seq(n, _ => b)
  }

  /** Appends `p = blockSize - len(data) % blockSize` bytes, each `byte(p)`. */
  function Pkcs5Pad(data: seq<byte>, blockSize: int): (r: seq<byte>)
    requires blockSize > 0
    ensures |r| % blockSize == 0 && |data| < |r| <= |data| + blockSize
    ensures r[..|data|] == data
    ensures forall i :: |data| <= i < |r| ==> r[i] == (|r| - |data|) % 0x100
  {
    var padLength := blockSize - |data| % blockSize;
    PaddedLength(|data|, blockSize);
    data + Repeat(padLength % 0x100, padLength)
  }

  lemma PaddedLength(n: nat, blockSize: int)
    requires blockSize > 0
    ensures (n + (blockSize - n % blockSize)) % blockSize == 0
  {
    var q := n / blockSize;
    assert n + (blockSize - n % blockSize) == (q + 1) * blockSize + 0;
    DivModUnique(n + (blockSize - n % blockSize), blockSize, q + 1, 0);
  }

  /** Euclidean division has one quotient and remainder. */
  lemma DivModUnique(x: int, m: int, q: int, r: int)
    requires m > 0 && 0 <= r < m && x == q * m + r
    ensures x / m == q && x % m == r
  {
    var d := x / m - q;
    assert d * m == (x / m) * m - q * m;
    MulAway(d, m);
  }

  /** A non-zero multiple of `m` is at least `m` away from zero. */
  lemma MulAway(d: int, m: int)
    requires m > 0
    ensures d == 0 || d * m >= m || d * m <= -m
  {
    if d >= 1 {
      MulAtLeast(d, m);
    } else if d <= -1 {
      MulAtLeast(-d, m);
      assert (-d) * m == -(d * m);
    }
  }

  lemma {:induction false} MulAtLeast(d: int, m: int)
    requires d >= 1 && m > 0
    ensures d * m >= m
  {
    if d > 1 {
      MulAtLeast(d - 1, m);
      assert d * m == (d - 1) * m + m;
    }
  }

  /** Strips `data[len-1]` bytes unless that count is at least `len` or above
      `blockSize`; only the last byte is looked at, and a zero count is accepted.
      An empty input indexes position -1. */
  function Pkcs5Unpad(data: seq<byte>, blockSize: int): (r: Result<seq<byte>>)
    ensures data == [] ==> r == Err(Panic(IndexOutOfRange))
    ensures data != [] ==>
      (r.Ok? <==> data[|data| - 1] < |data| && data[|data| - 1] <= blockSize)
    ensures data != [] && r.Err? ==> r.error == ErrPadding
    ensures r.Ok? ==>
      |r.value| <= |data| && data == r.value + data[|r.value|..] && |data| - |r.value| == data[|data| - 1]
  {
    if data == [] then Err(Panic(IndexOutOfRange))
    else
      var paddingLen := data[|data| - 1];
      if paddingLen >= |data| || paddingLen > blockSize then Err(ErrPadding)
      else Ok(data[..|data| - paddingLen])
  }

  /** Unpadding undoes padding exactly when the payload is not empty; an empty
      payload pads to one full block whose count equals its length and is rejected. */
  lemma {:induction false} UnpadPad(data: seq<byte>, blockSize: int)
    requires 0 < blockSize < 0x100
    ensures data != [] ==> Pkcs5Unpad(Pkcs5Pad(data, blockSize), blockSize) == Ok(data)
    ensures data == [] ==> Pkcs5Unpad(Pkcs5Pad(data, blockSize), blockSize) == Err(ErrPadding)
  {
    var padded := Pkcs5Pad(data, blockSize);
    var p := blockSize - |data| % blockSize;
    assert |padded| == |data| + p;
    assert padded[|padded| - 1] == p;
    assert padded[..|padded| - p] == data;
  }

  /** A zero count in the last byte is accepted: nothing is stripped. */
  lemma UnpadAcceptsZero(data: seq<byte>, blockSize: int)
    requires data != [] && data[|data| - 1] == 0 && blockSize >= 0
    ensures Pkcs5Unpad(data, blockSize) == Ok(data)
  {
    assert data[..|data| - 0] == data;
  }

  /** Only the last byte is checked: two inputs of the same length with the
      same last byte get the same verdict and lose the same number of bytes,
      whatever the other pad bytes hold. */
  lemma UnpadChecksOnlyLastByte(a: seq<byte>, b: seq<byte>, blockSize: int)
    requires |a| == |b| > 0 && a[|a| - 1] == b[|b| - 1]
    ensures Pkcs5Unpad(a, blockSize).Ok? == Pkcs5Unpad(b, blockSize).Ok?
    ensures Pkcs5Unpad(a, blockSize).Ok? ==>
      Pkcs5Unpad(a, blockSize).value == a[..|a| - a[|a| - 1]] &&
      Pkcs5Unpad(b, blockSize).value == b[..|b| - a[|a| - 1]]
  {
  }
}
