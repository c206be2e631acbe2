/** Device-model classification of device/device.go.

    A model string reported by a device maps to one of four device types;
    only four Yeelink mono bulbs are recognised (the repeater models are
    commented out in the source), and `CreateDevice` builds a device only
    for a recognised type, with the token decoded from hexadecimal the way
    Go's `hex.DecodeString` does, its error dropped.
 */
module DeviceTypes {
  import opened Outcomes
  import opened Bytes

  /** `type Type byte`. */
  newtype Type = x: int | 0 <= x < 0x100

  const NoType: Type := 0
  const Bulb: Type := 1
  const RgbBulb: Type := 2
  const Repeater: Type := 3

  /** `Type.String`: the three real types have distinct names, and every
      other value is "n/a". */
  function Name(t: Type): (r: string)
    ensures t == Bulb <==> r == "Bulb"
    ensures t == RgbBulb <==> r == "RGB bulb"
    ensures t == Repeater <==> r == "WiFi repeater"
    ensures t !in {Bulb, RgbBulb, Repeater} <==> r == "n/a"
  {
    if t == Bulb then "Bulb"
    else if t == RgbBulb then "RGB bulb"
    else if t == Repeater then "WiFi repeater"
    else "n/a"
  }

  /** The model strings recognised as mono bulbs. */
  const BulbModels: set<string> :=
    {"yeelink.light.mono1", "yeelink.light.mono4", "yeelink.light.mono5", "yeelink.light.mono6"}

  /** `CheckDevice`: the type of a model string. */
  function CheckDevice(model: string): (t: Type)
    ensures t == Bulb <==> model in BulbModels
    ensures t != Bulb ==> t == NoType
  {
    match model
    case "yeelink.light.mono1" => Bulb
    case "yeelink.light.mono4" => Bulb
    case "yeelink.light.mono5" => Bulb
    case "yeelink.light.mono6" => Bulb
    case _ => NoType
  }

  /** The value of one hexadecimal digit, either case. */
  function HexDigit(c: char): Option<nat> {
    if '0' <= c <= '9' then Some(c as int - '0' as int)
    else if 'a' <= c <= 'f' then Some(c as int - 'a' as int + 10)
    else if 'A' <= c <= 'F' then Some(c as int - 'A' as int + 10)
    else None
  }

  /** `hex.DecodeString` with its error ignored: the bytes of the complete
      digit pairs before the first invalid digit; an odd last digit is
      dropped. */
  function HexDecode(s: string): (r: seq<byte>)
    ensures 2 * |r| <= |s|
    decreases |s|
  {
    if |s| < 2 then []
    else
      var hi, lo := HexDigit(s[0]), HexDigit(s[1]);
      if hi.None? || lo.None? || hi.value >= 16 || lo.value >= 16 then []
      else [hi.value * 16 + lo.value] + HexDecode(s[2..])
  }

  /** The lower-case digit of a value below 16, the character at that
      position of "0123456789abcdef"; it reads back as `n`. */
  function HexChar(n: nat): (c: char)
    requires n < 16
    ensures HexDigit(c) == Some(n)
  {
    if n < 10 then (n + '0' as int) as char else (n - 10 + 'a' as int) as char
  }

  /** Lower-case hexadecimal, two digits per byte (`hex.EncodeToString`). */
  function HexEncode(b: seq<byte>): (s: string)
    ensures |s| == 2 * |b|
  {
    if b == [] then []
    else [HexChar(b[0] / 16), HexChar(b[0] % 16)] + HexEncode(b[1..])
  }

  /** Decoding a leading pair of valid digits. */
  lemma HexDecodePair(x: byte, t: string)
    ensures HexDecode([HexChar(x / 16), HexChar(x % 16)] + t) == [x] + HexDecode(t)
  {
    var s := [HexChar(x / 16), HexChar(x % 16)] + t;
    assert s[2..] == t;
  }

  /** One byte of `HexDecodeEncode`, given the rest of the encoding decodes. */
  lemma HexDecodeEncodeStep(b: seq<byte>, rest: string)
    requires b != [] && HexDecode(HexEncode(b[1..]) + rest) == b[1..] + HexDecode(rest)
    ensures HexDecode(HexEncode(b) + rest) == b + HexDecode(rest)
  {
    var t := HexEncode(b[1..]) + rest;
    assert HexEncode(b) + rest == [HexChar(b[0] / 16), HexChar(b[0] % 16)] + t;
    HexDecodePair(b[0], t);
    HeadTail(b, HexDecode(rest));
  }

  lemma HeadTail(b: seq<byte>, h: seq<byte>)
    requires b != []
    ensures [b[0]] + (b[1..] + h) == b + h
  {
    assert b == [b[0]] + b[1..];
  }

  /** Decoding stops at the end of the encoding, so a well-formed token
      decodes to its bytes followed by whatever the rest decodes to. */
  lemma {:induction false} HexDecodeEncode(b: seq<byte>, rest: string)
    ensures HexDecode(HexEncode(b) + rest) == b + HexDecode(rest)
  {
    if b == [] {
      assert HexEncode(b) + rest == rest;
      assert b + HexDecode(rest) == HexDecode(rest);
    } else {
      HexDecodeEncode(b[1..], rest);
      HexDecodeEncodeStep(b, rest);
    }
  }

  /** The decoding error is dropped: a token string with a bad digit yields
      the bytes before it, silently shorter than intended. */
  lemma HexDecodeStopsAtBadDigit(b: seq<byte>, c: char, rest: string)
    requires HexDigit(c).None?
    ensures HexDecode(HexEncode(b) + [c] + rest) == b
    ensures forall d: char :: HexDecode(HexEncode(b) + [d, c] + rest) == b
  {
    HexDecodeEncode(b, [c] + rest);
    assert HexEncode(b) + [c] + rest == HexEncode(b) + ([c] + rest);
    forall d: char ensures HexDecode(HexEncode(b) + [d, c] + rest) == b {
      HexDecodeEncode(b, [d, c] + rest);
      assert HexEncode(b) + [d, c] + rest == HexEncode(b) + ([d, c] + rest);
    }
  }

  /** The device `CreateDevice` returns, as a value; bulb and repeater
      details are not part of this model. */
  datatype Created = Created(kind: Type, model: string, id: string, ip: string, token: seq<byte>)

  /** `CreateDevice`: dispatch on `CheckDevice(model)`. Only the four mono
      bulbs yield a device, always a bulb: the repeater branch is dead. The
      token is the decoded prefix of `tokenStr`. */
  function CreateDevice(debug: bool, model: string, id: string, ip: string, tokenStr: string): (r: Option<Created>)
    ensures r.Some? <==> model in BulbModels
    ensures r.Some? ==> r.value == Created(Bulb, model, id, ip, HexDecode(tokenStr))
  {
    var token := HexDecode(tokenStr);
    var t := CheckDevice(model);
    if t == Bulb then Some(Created(Bulb, model, id, ip, token))
    else if t == Repeater then Some(Created(Repeater, model, id, ip, token))
    else None
  }
}
