/** Bytes, little-endian integers and the byte-wise XOR of a stream cipher. */
module Bytes {

  type byte = b: int | 0 <= b < 256

  const U32_SIZE: nat := 0x1_0000_0000
  const U64_SIZE: nat := 0x1_0000_0000_0000_0000

  // ----- little-endian integers -----

  function Pow256(width: nat): (p: nat)
    ensures p > 0
  {
    if width == 0 then 1 else 256 * Pow256(width - 1)
  }

  /** The low `width` bytes of `n`, least significant first (Rust's `to_le_bytes` after an `as` cast). */
  function Le(n: nat, width: nat): (b: seq<byte>)
    ensures |b| == width
  {
    if width == 0 then [] else [n % 256] + Le(n / 256, width - 1)
  }

  function FromLe(b: seq<byte>): nat {
    if b == [] then 0 else b[0] + 256 * FromLe(b[1..])
  }

  /** Reading back gives the number whenever it fits, and only then. */
  lemma {:induction false} LeRoundTrip(n: nat, width: nat)
    ensures FromLe(Le(n, width)) == n <==> n < Pow256(width)
    ensures FromLe(Le(n, width)) < Pow256(width)
  {
    if width > 0 {
      LeRoundTrip(n / 256, width - 1);
      assert Le(n, width)[1..] == Le(n / 256, width - 1);
    }
  }

  lemma {:induction false} FromLeRoundTrip(b: seq<byte>)
    ensures Le(FromLe(b), |b|) == b
    ensures FromLe(b) < Pow256(|b|)
  {
    if b != [] {
      FromLeRoundTrip(b[1..]);
      assert b == [b[0]] + b[1..];
    }
  }

  lemma Widths()
    ensures Pow256(1) == 256 && Pow256(2) == 0x1_0000
    ensures Pow256(4) == U32_SIZE && Pow256(8) == U64_SIZE
  {
    assert Pow256(3) == 256 * Pow256(2);
    assert Pow256(5) == 256 * Pow256(4);
    assert Pow256(6) == 256 * Pow256(5);
    assert Pow256(7) == 256 * Pow256(6);
  }

  // ----- XOR with a key stream -----

  function XorBits(a: nat, b: nat, bits: nat): (x: nat) {
    if bits == 0 then 0 else (a % 2 + b % 2) % 2 + 2 * XorBits(a / 2, b / 2, bits - 1)
  }

  function Pow2(n: nat): (p: nat)
    ensures p > 0
  {
    if n == 0 then 1 else 2 * Pow2(n - 1)
  }

  lemma {:induction false} XorBitsBound(a: nat, b: nat, bits: nat)
    ensures XorBits(a, b, bits) < Pow2(bits)
  {
    if bits > 0 {
      XorBitsBound(a / 2, b / 2, bits - 1);
    }
  }

  lemma ParityOfSum(p: nat, q: nat, rest: nat)
    requires p < 2 && q < 2
    ensures ((p + q) % 2 + 2 * rest) / 2 == rest
    ensures (((p + q) % 2 + 2 * rest) % 2 + q) % 2 == p
  {
    assert p == 0 || p == 1;
    assert q == 0 || q == 1;
  }

  lemma {:induction false} XorBitsTwice(a: nat, b: nat, bits: nat)
    requires a < Pow2(bits)
    ensures XorBits(XorBits(a, b, bits), b, bits) == a
  {
    if bits > 0 {
      XorBitsTwice(a / 2, b / 2, bits - 1);
      ParityOfSum(a % 2, b % 2, XorBits(a / 2, b / 2, bits - 1));
    }
  }

  lemma Pow2Of8()
    ensures Pow2(8) == 256
  {
    assert Pow2(4) == 2 * Pow2(3);
    assert Pow2(6) == 2 * Pow2(5);
  }

  function Xor(a: byte, b: byte): byte {
    Pow2Of8();
    XorBitsBound(a, b, 8);
    XorBits(a, b, 8)
  }

  lemma XorTwice(a: byte, b: byte)
    ensures Xor(Xor(a, b), b) == a
  {
    Pow2Of8();
    XorBitsTwice(a, b, 8);
  }

  function Bit(n: nat, i: nat): nat {
    if i == 0 then n % 2 else Bit(n / 2, i - 1)
  }

  lemma {:induction false} XorBitsAt(a: nat, b: nat, bits: nat, i: nat)
    requires i < bits
    ensures Bit(XorBits(a, b, bits), i) == (Bit(a, i) + Bit(b, i)) % 2
    decreases bits
  {
    var x := XorBits(a, b, bits);
    var rest := XorBits(a / 2, b / 2, bits - 1);
    assert x % 2 == (a % 2 + b % 2) % 2 && x / 2 == rest;
    if i > 0 {
      XorBitsAt(a / 2, b / 2, bits - 1, i - 1);
    }
  }

  /** A bit of the result is set exactly if one of the two is. */
  lemma XorIsBitwise(a: byte, b: byte, i: nat)
    requires i < 8
    ensures Bit(Xor(a, b), i) == if Bit(a, i) == Bit(b, i) then 0 else 1
  {
    XorBitsAt(a, b, 8, i);
    BitIsOne(a, i);
    BitIsOne(b, i);
  }

  lemma {:induction false} BitIsOne(n: nat, i: nat)
    ensures Bit(n, i) < 2
    decreases i
  {
    if i > 0 {
      BitIsOne(n / 2, i - 1);
    }
  }

  /** `apply_keystream`: every byte is XORed with the key stream from position `pos` on. */
  function Apply(ks: nat -> byte, pos: nat, data: seq<byte>): (r: seq<byte>)
    ensures |r| == |data|
  {
    seq(|data|, i requires 0 <= i < |data| => Xor(data[i], ks(pos + i)))
  }

  /** Two applications from one position cancel: encryption and decryption agree on the stream. */
  lemma ApplyTwice(ks: nat -> byte, pos: nat, data: seq<byte>)
    ensures Apply(ks, pos, Apply(ks, pos, data)) == data
  {
    forall i | 0 <= i < |data|
      ensures Apply(ks, pos, Apply(ks, pos, data))[i] == data[i]
    {
      XorTwice(data[i], ks(pos + i));
    }
  }
}
