/** Byte strings: little- and big-endian numbers, bit strings
    (FIPS 202, appendix B.1) and XOR. */
module Bytes {
  import opened Bits
  import opened Words

  function FromLE(b: seq<Byte>): nat {
    if b == [] then 0 else b[0] + 256 * FromLE(b[1..])
  }

  /** Bit k of a byte string, bytes in order and each byte's low bit first. */
  function BytesToBits(b: seq<Byte>): (s: seq<bool>)
    ensures |s| == 8 * |b|
  {
    seq(8 * |b|, k requires 0 <= k < 8 * |b| => Bit(b[k / 8], k % 8))
  }

  lemma BytesToBitsConcat(p: seq<Byte>, q: seq<Byte>)
    ensures BytesToBits(p + q) == BytesToBits(p) + BytesToBits(q)
  {
    forall k | 0 <= k < 8 * |q| ensures BytesToBits(p + q)[8 * |p| + k] == BytesToBits(q)[k] {
      assert (8 * |p| + k) / 8 == |p| + k / 8 && (8 * |p| + k) % 8 == k % 8;
    }
  }

  lemma BytesToBitsSplit(p: seq<Byte>, n: nat)
    requires n <= |p|
    ensures BytesToBits(p)[..8 * n] == BytesToBits(p[..n])
    ensures BytesToBits(p)[8 * n..] == BytesToBits(p[n..])
  {
    BytesToBitsConcat(p[..n], p[n..]);
    assert p[..n] + p[n..] == p;
  }

  lemma {:induction false} FromLEBound(b: seq<Byte>)
    ensures FromLE(b) < Pow2(8 * |b|)
  {
    if b != [] {
      FromLEBound(b[1..]);
      Pow2Values();
      Pow2Add(8, 8 * (|b| - 1));
    }
  }

  lemma {:induction false} FromLESnoc(b: seq<Byte>, x: Byte)
    ensures FromLE(b + [x]) == FromLE(b) + x * Pow2(8 * |b|)
  {
    if b == [] {
      assert b + [x] == [x];
      assert FromLE([x]) == x + 256 * FromLE([]);
    } else {
      FromLESnoc(b[1..], x);
      assert (b + [x])[1..] == b[1..] + [x];
      Pow2Values();
      Pow2Add(8, 8 * (|b| - 1));
      Regroup256(x, Pow2(8 * (|b| - 1)));
    }
  }

  lemma Regroup256(x: nat, p: nat)
    ensures 256 * (x * p) == x * (256 * p)
  {
  }

  lemma {:induction false} FromLEBit(b: seq<Byte>, z: nat)
    requires z < 8 * |b|
    ensures Bit(FromLE(b), z) == Bit(b[z / 8], z % 8)
  {
    Pow2Values();
    BitConcat(b[0], FromLE(b[1..]), 8, z);
    if z >= 8 {
      FromLEBit(b[1..], z - 8);
      assert b[1..][(z - 8) / 8] == b[z / 8];
    }
  }

  lemma {:induction false} OrDisjoint(a: nat, b: nat, k: nat)
    requires a < Pow2(k)
    ensures Or(a, b * Pow2(k)) == a + b * Pow2(k)
    decreases k
  {
    if k == 0 {
      OrZeroLeft(b);
    } else {
      var h := b * Pow2(k - 1);
      assert b * Pow2(k) == 2 * h;
      OrDisjoint(a / 2, b, k - 1);
    }
  }

  lemma {:induction false} OrComm(x: nat, y: nat)
    ensures Or(x, y) == Or(y, x)
    decreases x + y
  {
    if x != 0 || y != 0 { OrComm(x / 2, y / 2); }
  }

  lemma {:induction false} OrZeroLeft(b: nat)
    ensures Or(0, b) == b
  {
    if b != 0 { OrZeroLeft(b / 2); }
  }

  lemma SmallMod(a: nat, m: nat)
    requires a < m
    ensures a % m == a
  {
  }

  function XorOctets(a: seq<Byte>, b: seq<Byte>): (c: seq<Byte>)
    requires |a| == |b|
    ensures |c| == |a|
  {
    seq(|a|, k requires 0 <= k < |a| => XorByte(a[k], b[k]))
  }

  // ----- big-endian numbers: int.from_bytes and int.to_bytes -----

  function FromBE(b: seq<Byte>): nat {
    if b == [] then 0 else 256 * FromBE(b[..|b| - 1]) + b[|b| - 1]
  }

  function ToBE(x: nat, n: nat): (b: seq<Byte>)
    ensures |b| == n
  {
    if n == 0 then [] else ToBE(x / 256, n - 1) + [x % 256]
  }

  lemma {:induction false} FromBEBound(b: seq<Byte>)
    ensures FromBE(b) < Pow2(8 * |b|)
  {
    if b != [] {
      FromBEBound(b[..|b| - 1]);
      Pow2Values();
      Pow2Add(8, 8 * (|b| - 1));
    }
  }

  lemma {:induction false} ToBEFromBE(b: seq<Byte>)
    ensures ToBE(FromBE(b), |b|) == b
  {
    if b != [] {
      ToBEFromBE(b[..|b| - 1]);
      DivUnique(FromBE(b), 256, FromBE(b[..|b| - 1]), b[|b| - 1]);
      assert b[..|b| - 1] + [b[|b| - 1]] == b;
    }
  }

  lemma {:induction false} FromBEToBE(x: nat, n: nat)
    requires x < Pow2(8 * n)
    ensures FromBE(ToBE(x, n)) == x
  {
    if n > 0 {
      Pow2Values();
      Pow2Add(8, 8 * (n - 1));
      assert x / 256 < Pow2(8 * (n - 1));
      FromBEToBE(x / 256, n - 1);
      var b := ToBE(x, n);
      assert b[..n - 1] == ToBE(x / 256, n - 1) && b[n - 1] == x % 256;
    }
  }

  /** XOR acts on the low byte and on the rest separately. */
  lemma XorLowByte(u: nat, v: nat, x: Byte, y: Byte)
    ensures Xor(256 * u + x, 256 * v + y) == 256 * Xor(u, v) + XorByte(x, y)
  {
    hide Bit, Xor, Pow2;
    Pow2Values();
    var k := WideEnough(256 * u + x, 256 * v + y);
    Pow2Add(8, k);
    XorBound(256 * u + x, 256 * v + y, k);
    XorBound(u, v, k);
    var l, r := Xor(256 * u + x, 256 * v + y), 256 * Xor(u, v) + XorByte(x, y);
    Pow2Mono(k, 8 + k);
    forall i: nat | i < 8 + k ensures Bit(l, i) == Bit(r, i) {
      BitXor(256 * u + x, 256 * v + y, i);
      BitConcat(x, u, 8, i);
      BitConcat(y, v, 8, i);
      BitConcat(XorByte(x, y), Xor(u, v), 8, i);
      if i < 8 { BitXor(x, y, i); } else { BitXor(u, v, i - 8); }
    }
    Extensional(l, r, 8 + k);
  }

  lemma WideEnough(a: nat, b: nat) returns (k: nat)
    ensures a < Pow2(k) && b < Pow2(k)
  {
    k := a + b;
    Pow2Exceeds(a + b);
  }

  lemma {:induction false} Pow2Exceeds(n: nat)
    ensures n < Pow2(n)
  {
    if n > 0 { Pow2Exceeds(n - 1); }
  }

  /** Masking with ones keeps the low bits. */
  lemma AndOnes(x: nat, n: nat)
    ensures And(x, Pow2(n) - 1) == x % Pow2(n)
  {
    hide And, Bit, Pow2;
    var k := x + n;
    Pow2Exceeds(k);
    Pow2Mono(n, k);
    AndBound(x, Pow2(n) - 1, k);
    forall i: nat | i < k ensures Bit(And(x, Pow2(n) - 1), i) == Bit(x % Pow2(n), i) {
      BitAnd(x, Pow2(n) - 1, i);
      BitMod(x, n, i);
      if i < n { BitOnes(n, i); } else { BitAbove(Pow2(n) - 1, n, i); }
    }
    Extensional(And(x, Pow2(n) - 1), x % Pow2(n), k);
  }

  /** XOR of two equal-length byte strings through one big-endian integer each, and back. */
  function XorBig(a: seq<Byte>, b: seq<Byte>): seq<Byte>
    requires |a| == |b|
  {
    ToBE(Xor(FromBE(a), FromBE(b)), |a|)
  }

  /** It is the byte-by-byte XOR, leading zeros included, and the conversion back to n bytes
      never overflows. */
  lemma {:induction false} XorBigIsBytewise(a: seq<Byte>, b: seq<Byte>)
    requires |a| == |b|
    ensures XorBig(a, b) == XorOctets(a, b)
    ensures Xor(FromBE(a), FromBE(b)) < Pow2(8 * |a|)
  {
    hide Xor, Pow2, XorByte;
    FromBEBound(a);
    FromBEBound(b);
    XorBound(FromBE(a), FromBE(b), 8 * |a|);
    if a == [] {
    } else {
      var n := |a| - 1;
      var u, v := FromBE(a[..n]), FromBE(b[..n]);
      XorBigIsBytewise(a[..n], b[..n]);
      XorLowByte(u, v, a[n], b[n]);
      DivUnique(Xor(FromBE(a), FromBE(b)), 256, Xor(u, v), XorByte(a[n], b[n]));
      assert XorOctets(a, b) == XorOctets(a[..n], b[..n]) + [XorByte(a[n], b[n])];
    }
  }

  lemma XorTwice(x: Byte, y: Byte)
    ensures XorByte(XorByte(x, y), y) == x
  {
    hide Bit, Xor;
    Pow2Values();
    forall i: nat | i < 8 ensures Bit(XorByte(XorByte(x, y), y), i) == Bit(x, i) {
      BitXor(XorByte(x, y), y, i);
      BitXor(x, y, i);
    }
    Extensional(XorByte(XorByte(x, y), y), x, 8);
  }

  lemma XorBack(x: Byte, y: Byte)
    ensures XorByte(x, XorByte(x, y)) == y
  {
    hide Bit, Xor;
    Pow2Values();
    forall i: nat | i < 8 ensures Bit(XorByte(x, XorByte(x, y)), i) == Bit(y, i) {
      BitXor(x, XorByte(x, y), i);
      BitXor(x, y, i);
    }
    Extensional(XorByte(x, XorByte(x, y)), y, 8);
  }

  lemma XorOctetsBack(a: seq<Byte>, k: seq<Byte>)
    requires |a| == |k|
    ensures XorOctets(a, XorOctets(a, k)) == k
  {
    hide XorByte;
    forall i | 0 <= i < |a| ensures XorOctets(a, XorOctets(a, k))[i] == k[i] { XorBack(a[i], k[i]); }
  }

  /** XOR with the same key stream twice gives the data back. */
  lemma XorOctetsTwice(a: seq<Byte>, k: seq<Byte>)
    requires |a| == |k|
    ensures XorOctets(XorOctets(a, k), k) == a
  {
    hide XorByte;
    forall i | 0 <= i < |a| ensures XorOctets(XorOctets(a, k), k)[i] == a[i] { XorTwice(a[i], k[i]); }
  }
}
