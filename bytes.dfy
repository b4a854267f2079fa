// Octet helpers shared by the client and firmware models: the bitwise XOR
// that both sides fold over a frame as its checksum, and an Option type.
module Bytes {

  /** An octet: the element type of Uint8Array and uint8_t buffers. */
  type byte = x: int | 0 <= x < 256

  /** An unsigned 32-bit value (uint32_t). */
  type u32 = x: int | 0 <= x < 0x1_0000_0000

  datatype Option<T> = None | Some(value: T)

  function Pow2(n: nat): (r: nat)
    ensures r >= 1
  {
    if n == 0 then 1 else 2 * Pow2(n - 1)
  }

  /** XOR of the low n bits of a and b, one bit per recursion step. */
  function XorBits(a: nat, b: nat, n: nat): (r: nat)
    ensures r < Pow2(n)
  {
    if n == 0 then 0
    else (if a % 2 == b % 2 then 0 else 1) + 2 * XorBits(a / 2, b / 2, n - 1)
  }

  /** Bitwise XOR of two octets (the `^` of TypeScript and C on 8-bit values). */
  function Xor(a: byte, b: byte): byte
  {
    XorBits(a, b, 8)
  }

  lemma {:induction false} XorBitsSelf(a: nat, n: nat)
    ensures XorBits(a, a, n) == 0
  {
    if n > 0 { XorBitsSelf(a / 2, n - 1); }
  }

  lemma {:induction false} XorBitsZero(a: nat, n: nat)
    requires a < Pow2(n)
    ensures XorBits(a, 0, n) == a
  {
    if n > 0 { XorBitsZero(a / 2, n - 1); }
  }

  lemma {:induction false} XorBitsCancel(u: nat, v: nat, x: nat, n: nat)
    requires u < Pow2(n) && v < Pow2(n)
    requires XorBits(u, x, n) == XorBits(v, x, n) || XorBits(x, u, n) == XorBits(x, v, n)
    ensures u == v
  {
    if n > 0 { XorBitsCancel(u / 2, v / 2, x / 2, n - 1); }
  }

  /** The two facts the frame checksums rely on: x ^ x == 0 and x ^ 0 == x. */
  lemma XorSelfZero(a: byte)
    ensures Xor(a, a) == 0 && Xor(a, 0) == a
  {
    XorBitsSelf(a, 8);
    XorBitsZero(a, 8);
  }

  /** XOR with a fixed octet is injective on either side. */
  lemma XorCancel(u: byte, v: byte, x: byte)
    requires Xor(u, x) == Xor(v, x) || Xor(x, u) == Xor(x, v)
    ensures u == v
  {
    XorBitsCancel(u, v, x, 8);
  }

  /**
   * XOR of all octets folded from the left starting at 0, as both
   * `data.reduce((a, b) => a ^ b, 0)` and the C accumulator loop compute it.
   */
  function XorAll(s: seq<byte>): byte
  {
    if s == [] then 0 else Xor(XorAll(s[..|s| - 1]), s[|s| - 1])
  }

  /** A sequence followed by its own XOR has XOR 0. */
  lemma XorAllWithSum(s: seq<byte>)
    ensures XorAll(s + [XorAll(s)]) == 0
  {
    assert (s + [XorAll(s)])[..|s|] == s;
    XorSelfZero(XorAll(s));
  }

  /** Two sequences that differ in exactly one position have different XORs. */
  lemma {:induction false} XorAllUpdate(s: seq<byte>, k: nat, x: byte)
    requires k < |s| && x != s[k]
    ensures XorAll(s[k := x]) != XorAll(s)
    decreases |s|
  {
    var t := s[k := x];
    var n := |s| - 1;
    if k == n {
      assert t[..n] == s[..n];
      if XorAll(t) == XorAll(s) { XorCancel(x, s[k], XorAll(s[..n])); }
    } else {
      assert t[..n] == s[..n][k := x];
      XorAllUpdate(s[..n], k, x);
      if XorAll(t) == XorAll(s) { XorCancel(XorAll(t[..n]), XorAll(s[..n]), s[n]); }
    }
  }
}
