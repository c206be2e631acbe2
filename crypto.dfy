/** The cryptographic envelope of a data packet.

    MD5 (RFC 1321) and the AES-128 block cipher (FIPS 197) are library
    code the model does not reimplement: they are the fields of
    `Primitives`, passed to every operation that needs them, and the only
    thing assumed of them is `Sound()`: AES decryption under a key undoes
    AES encryption under that key. CBC mode (section 6.2 of NIST SP
    800-38A) is written out on top of the block cipher, so that CBC
    decryption undoing CBC encryption, and CBC keeping the length, are
    proved here rather than assumed.
 */
module Crypto {
  import opened Bytes

  const BlockSize := 16

  /** A 16-byte value: an AES block, an AES-128 key, an MD5 digest. */
  type Block = s: seq<byte> | |s| == 16 witness [0, 0, 0, 0, 0, 0, 0, 0, 0, 0, 0, 0, 0, 0, 0, 0]

  datatype Primitives = Primitives(
    md5: seq<byte> -> Block,
    aesEncrypt: (Block, Block) -> Block,  // (key, plaintext block) to ciphertext block
    aesDecrypt: (Block, Block) -> Block)  // (key, ciphertext block) to plaintext block
  {
    ghost predicate Sound() {
      forall key: Block, b: Block :: aesDecrypt(key, aesEncrypt(key, b)) == b
    }
  }

  /** The AES key of a device: `MD5(token)`. */
  function Key(prims: Primitives, token: seq<byte>): Block {
    prims.md5(token)
  }

  /** The CBC initialisation vector of a device: `MD5(MD5(token) ‖ token)`. */
  function Iv(prims: Primitives, token: seq<byte>): Block {
    prims.md5(Key(prims, token) + token)
  }

  function Pow2(n: nat): (r: nat)
    ensures r >= 1
  {
    if n == 0 then 1 else 2 * Pow2(n - 1)
  }

  /** Bitwise exclusive or of the low `width` bits of `a` and `b`. */
  function XorBits(a: nat, b: nat, width: nat): (r: nat)
    ensures r < Pow2(width)
  {
    if width == 0 then 0 else (a + b) % 2 + 2 * XorBits(a / 2, b / 2, width - 1)
  }

  lemma ParityStep(a: nat, b: nat, rest: nat)
    ensures ((a + b) % 2 + 2 * rest) % 2 == (a + b) % 2
    ensures ((a + b) % 2 + 2 * rest) / 2 == rest
    ensures (((a + b) % 2 + 2 * rest) + b) % 2 == a % 2
  {
  }

  /** Xoring twice with the same mask gives the value back. */
  lemma {:induction false} XorBitsTwice(a: nat, b: nat, width: nat)
    requires a < Pow2(width)
    ensures XorBits(XorBits(a, b, width), b, width) == a
  {
    if width > 0 {
      var rest := XorBits(a / 2, b / 2, width - 1);
      ParityStep(a, b, rest);
      XorBitsTwice(a / 2, b / 2, width - 1);
    }
  }

  function Xor(a: byte, b: byte): byte {
    assert Pow2(8) == 0x100;
    XorBits(a, b, 8)
  }

  function XorBlock(a: Block, b: Block): Block {
    seq(16, i requires 0 <= i < 16 => Xor(a[i], b[i]))
  }

  lemma XorBlockTwice(a: Block, b: Block)
    ensures XorBlock(XorBlock(a, b), b) == a
  {
    assert Pow2(8) == 0x100;
    forall i | 0 <= i < 16 ensures XorBlock(XorBlock(a, b), b)[i] == a[i] {
      XorBitsTwice(a[i], b[i], 8);
    }
  }

  /** CBC encryption: each plaintext block is xored with the previous
      ciphertext block (the iv for the first) before it is enciphered. */
  function CbcEncrypt(prims: Primitives, key: Block, iv: Block, plain: seq<byte>): (c: seq<byte>)
    requires |plain| % BlockSize == 0
    ensures |c| == |plain|
    decreases |plain|
  {
    if plain == [] then []
    else
      var c1 := prims.aesEncrypt(key, XorBlock(plain[..16], iv));
      c1 + CbcEncrypt(prims, key, c1, plain[16..])
  }

  /** CBC decryption: each deciphered block is xored with the previous
      ciphertext block (the iv for the first). */
  function CbcDecrypt(prims: Primitives, key: Block, iv: Block, cipher: seq<byte>): (p: seq<byte>)
    requires |cipher| % BlockSize == 0
    ensures |p| == |cipher|
    decreases |cipher|
  {
    if cipher == [] then []
    else
      var c1: Block := cipher[..16];
      XorBlock(prims.aesDecrypt(key, c1), iv) + CbcDecrypt(prims, key, c1, cipher[16..])
  }

  /** CBC decryption with the same key and iv recovers the plaintext. */
  lemma {:induction false} CbcRoundTrip(prims: Primitives, key: Block, iv: Block, plain: seq<byte>)
    requires prims.Sound() && |plain| % BlockSize == 0
    ensures CbcDecrypt(prims, key, iv, CbcEncrypt(prims, key, iv, plain)) == plain
    decreases |plain|
  {
    if plain != [] {
      var p1: Block := plain[..16];
      var c1 := prims.aesEncrypt(key, XorBlock(p1, iv));
      var rest := CbcEncrypt(prims, key, c1, plain[16..]);
      var c := CbcEncrypt(prims, key, iv, plain);
      assert c == c1 + rest;
      assert c[..16] == c1 && c[16..] == rest;
      XorBlockTwice(p1, iv);
      CbcRoundTrip(prims, key, c1, plain[16..]);
      assert plain == p1 + plain[16..];
    }
  }
}
