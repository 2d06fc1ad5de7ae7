/** Fixed-width unsigned words, as naturals below 2^width with the wrap-around written out. */
module Words {
  import opened Bits

  type Byte = x: nat | x < 256
  type U32 = x: nat | x < 0x1_0000_0000
  type U64 = x: nat | x < 0x1_0000_0000_0000_0000

  function Xor64(a: U64, b: U64): U64 {
    Pow2Values(); XorBound(a, b, 64);
    Xor(a, b)
  }

  function And64(a: U64, b: U64): U64 {
    Pow2Values(); AndBound(a, b, 64);
    And(a, b)
  }

  function Or64(a: U64, b: U64): U64 {
    Pow2Values(); OrBound(a, b, 64);
    Or(a, b)
  }

  function Not64(a: U64): U64 { 0xFFFF_FFFF_FFFF_FFFF - a }

  function Shl64(a: U64, n: nat): U64 { a * Pow2(n) % 0x1_0000_0000_0000_0000 }

  function Shr64(a: U64, n: nat): U64 {
    ShrBound(a, n);
    Shr(a, n)
  }

  function Rotl64(v: U64, n: nat): U64
    requires n < 64
  {
    if n == 0 then v else Or64(Shl64(v, n), Shr64(v, 64 - n))
  }

  function Xor32(a: U32, b: U32): U32 {
    Pow2Values(); XorBound(a, b, 32);
    Xor(a, b)
  }

  function Or32(a: U32, b: U32): U32 {
    Pow2Values(); OrBound(a, b, 32);
    Or(a, b)
  }

  function Add32(a: U32, b: U32): U32 { (a + b) % 0x1_0000_0000 }

  function Rotl32(v: U32, n: nat): U32
    requires 0 < n < 32
  {
    ShrBound(v, 32 - n);
    Or32(v * Pow2(n) % 0x1_0000_0000, Shr(v, 32 - n))
  }

  function XorByte(a: Byte, b: Byte): Byte {
    XorBound(a, b, 8);
    Pow2Values();
    Xor(a, b)
  }

  lemma BitNot64(a: U64, i: nat)
    requires i < 64
    ensures Bit(Not64(a), i) == !Bit(a, i)
  {
    Pow2Values();
    BitComplement(a, 64, i);
  }

  lemma {:induction false} BitComplement(a: nat, k: nat, i: nat)
    requires a < Pow2(k) && i < k
    ensures Bit(Pow2(k) - 1 - a, i) == !Bit(a, i)
  {
    if i > 0 {
      assert (Pow2(k) - 1 - a) / 2 == Pow2(k - 1) - 1 - a / 2;
      BitComplement(a / 2, k - 1, i - 1);
    }
  }

  /** Rotation moves bit z - n (mod 64) to bit z. */
  lemma BitRotl64(v: U64, n: nat, z: nat)
    requires n < 64 && z < 64
    ensures Bit(Rotl64(v, n), z) == Bit(v, (z + 64 - n) % 64)
  {
    hide Bit, Or, Pow2;
    if n != 0 {
      BitOr(Shl64(v, n), Shr64(v, 64 - n), z);
      BitShl64(v, n, z);
      BitShr(v, 64 - n, z);
      if z >= n {
        Pow2Values();
        BitAbove(v, 64, z + 64 - n);
      }
    }
  }

  lemma BitShl64(v: U64, n: nat, z: nat)
    requires z < 64
    ensures Bit(Shl64(v, n), z) == (z >= n && Bit(v, z - n))
  {
    Pow2Values();
    BitMod(v * Pow2(n), 64, z);
    BitShl(v, n, z);
  }

  lemma ByteBit(x: nat, i: nat)
    ensures Bit(x % 256, i) == (i < 8 && Bit(x, i))
  {
    Pow2Values();
    BitMod(x, 8, i);
  }
}
