/** Bytes as Python sees them, ints from 0 to 255, and the bitwise
    exclusive or `^` on them. */
module Bits {
  newtype Byte = x: int | 0 <= x < 256

  /** The exclusive or of the low `n` bits of `a` and `b`. */
  function XorBits(a: nat, b: nat, n: nat): (r: nat)
    ensures r < Pow2(n)
  {
    if n == 0 then 0
    else (if a % 2 == b % 2 then 0 else 1) + 2 * XorBits(a / 2, b / 2, n - 1)
  }

  function Pow2(n: nat): (r: nat)
    ensures r >= 1
  {
    if n == 0 then 1 else 2 * Pow2(n - 1)
  }

  /** Bit `i` of `x`, counting from the least significant. */
  predicate Bit(x: nat, i: nat) {
    if i == 0 then x % 2 == 1 else Bit(x / 2, i - 1)
  }

  /** Bit `i` of a byte. */
  predicate ByteBit(x: Byte, i: nat) {
    Bit(x as nat, i)
  }

  /** `a ^ b` on two bytes: each of the eight bits is set exactly when it is
      set in one operand and not the other. */
  function Xor(a: Byte, b: Byte): (r: Byte)
    ensures forall i :: 0 <= i < 8 ==> ByteBit(r, i) == (ByteBit(a, i) != ByteBit(b, i))
  {
    assert Pow2(8) == 256;
    var r := XorBits(a as nat, b as nat, 8) as Byte;
    forall i | 0 <= i < 8
      ensures ByteBit(r, i) == (ByteBit(a, i) != ByteBit(b, i))
    {
      XorBitsBit(a as nat, b as nat, 8, i);
    }
    r
  }

  lemma {:induction false} XorBitsBit(a: nat, b: nat, n: nat, i: nat)
    requires i < n
    ensures Bit(XorBits(a, b, n), i) == (Bit(a, i) != Bit(b, i))
  {
    var rest := XorBits(a / 2, b / 2, n - 1);
    var c := XorBits(a, b, n);
    assert c % 2 == (if a % 2 == b % 2 then 0 else 1) && c / 2 == rest;
    if i > 0 {
      XorBitsBit(a / 2, b / 2, n - 1, i - 1);
    }
  }

  lemma {:induction false} XorBitsInvolutive(a: nat, b: nat, n: nat)
    requires a < Pow2(n)
    ensures XorBits(XorBits(a, b, n), b, n) == a
  {
    if n > 0 {
      var rest := XorBits(a / 2, b / 2, n - 1);
      var c := XorBits(a, b, n);
      assert c % 2 == (if a % 2 == b % 2 then 0 else 1) && c / 2 == rest;
      XorBitsInvolutive(a / 2, b / 2, n - 1);
    }
  }

  /** `(a ^ b) ^ b == a`. */
  lemma XorInvolutive(a: Byte, b: Byte)
    ensures Xor(Xor(a, b), b) == a
  {
    assert Pow2(8) == 256;
    XorBitsInvolutive(a as nat, b as nat, 8);
  }
}
