/** RFC 7914 on octet strings: Salsa20/8 (section 3), scryptBlockMix (4), scryptROMix (5)
    and scrypt (6), with PBKDF2 for one iteration. HMAC-SHA-256 is a parameter. */
module ScryptSpec {
  import opened Bits
  import opened Words
  import opened Bytes
  import opened Primitives

  // ----- sequences of blocks -----

  function Flatten<T>(blocks: seq<seq<T>>): seq<T> {
    if blocks == [] then [] else blocks[0] + Flatten(blocks[1..])
  }

  predicate AllSized<T>(blocks: seq<seq<T>>, size: nat) {
    forall i :: 0 <= i < |blocks| ==> |blocks[i]| == size
  }

  function Slice<T>(s: seq<T>, size: nat, i: nat): (b: seq<T>)
    requires size * i + size <= |s|
    ensures |b| == size
  {
    s[size * i..size * i + size]
  }

  // ----- Salsa20/8 -----

  type Words16 = x: seq<U32> | |x| == 16 witness seq(16, i => 0)

  datatype Four = Four(a: U32, b: U32, c: U32, d: U32)

  /** The Salsa20 quarter-round on (a, b, c, d). */
  function QuarterRound(a: U32, b: U32, c: U32, d: U32): Four {
    var b' := Xor32(b, Rotl32(Add32(a, d), 7));
    var c' := Xor32(c, Rotl32(Add32(b', a), 9));
    var d' := Xor32(d, Rotl32(Add32(c', b'), 13));
    var a' := Xor32(a, Rotl32(Add32(d', c'), 18));
    Four(a', b', c', d')
  }

  function ColumnRound(x: Words16): Words16 {
    var p := QuarterRound(x[0], x[4], x[8], x[12]);
    var q := QuarterRound(x[5], x[9], x[13], x[1]);
    var s := QuarterRound(x[10], x[14], x[2], x[6]);
    var t := QuarterRound(x[15], x[3], x[7], x[11]);
    [p.a, q.d, s.c, t.b,
     p.b, q.a, s.d, t.c,
     p.c, q.b, s.a, t.d,
     p.d, q.c, s.b, t.a]
  }

  function RowRound(x: Words16): Words16 {
    var p := QuarterRound(x[0], x[1], x[2], x[3]);
    var q := QuarterRound(x[5], x[6], x[7], x[4]);
    var s := QuarterRound(x[10], x[11], x[8], x[9]);
    var t := QuarterRound(x[15], x[12], x[13], x[14]);
    [p.a, p.b, p.c, p.d,
     q.d, q.a, q.b, q.c,
     s.c, s.d, s.a, s.b,
     t.b, t.c, t.d, t.a]
  }

  function DoubleRounds(x: Words16, n: nat): Words16 {
    if n == 0 then x else RowRound(ColumnRound(DoubleRounds(x, n - 1)))
  }

  const DOUBLE_ROUNDS: nat := 4

  function AddWords(x: Words16, y: Words16): Words16 {
    seq(16, i requires 0 <= i < 16 => Add32(x[i], y[i]))
  }

  function SalsaWords(x: Words16): Words16 { AddWords(x, DoubleRounds(x, DOUBLE_ROUNDS)) }

  // ----- words as octets, little-endian -----

  function WordByte(v: U32, k: nat): Byte { Shr(v, 8 * k) % 256 }

  function WordsToBytes(w: seq<U32>): (b: seq<Byte>)
    ensures |b| == 4 * |w|
  {
    seq(4 * |w|, k requires 0 <= k < 4 * |w| => WordByte(w[k / 4], k % 4))
  }

  function WordAt(b: seq<Byte>, i: nat): U32
    requires 4 * i + 4 <= |b|
  {
    FromLEBound(b[4 * i..4 * i + 4]);
    Pow2Values();
    FromLE(b[4 * i..4 * i + 4])
  }

  function BytesToWords(b: seq<Byte>): (w: seq<U32>)
    ensures |w| == |b| / 4
  {
    seq(|b| / 4, i requires 0 <= i < |b| / 4 => WordAt(b, i))
  }

  function Salsa(b: seq<Byte>): (o: seq<Byte>)
    requires |b| == 64
    ensures |o| == 64
  {
    WordsToBytes(SalsaWords(BytesToWords(b)))
  }

  // ----- scryptBlockMix -----

  /** Y[i], with Y[-1] read as X = B[2r-1]. */
  function BlockY(b: seq<Byte>, r: nat, i: int): (y: seq<Byte>)
    requires r >= 1 && |b| == 128 * r && -1 <= i < 2 * r
    ensures |y| == 64
    decreases i + 1
  {
    if i == -1 then Slice(b, 64, 2 * r - 1)
    else Salsa(XorOctets(BlockY(b, r, i - 1), Slice(b, 64, i)))
  }

  /** Position q of the output holds Y[Origin(q)]: the even ones, then the odd ones. */
  function Origin(r: nat, q: nat): nat { if q < r then 2 * q else 2 * (q - r) + 1 }

  function BlockMix(b: seq<Byte>, r: nat): (o: seq<Byte>)
    requires r >= 1 && |b| == 128 * r
    ensures |o| == 128 * r
  {
    var evens := seq(r, q requires 0 <= q < r => BlockY(b, r, 2 * q));
    var odds := seq(r, q requires 0 <= q < r => BlockY(b, r, 2 * q + 1));
    FlattenLength(evens + odds, 64);
    Flatten(evens + odds)
  }

  lemma {:induction false} FlattenLength<T>(blocks: seq<seq<T>>, size: nat)
    requires AllSized(blocks, size)
    ensures |Flatten(blocks)| == size * |blocks|
  {
    if blocks != [] { FlattenLength(blocks[1..], size); }
  }

  // ----- scryptROMix -----

  /** The last 64-octet block as one little-endian number. */
  function Integerify(b: seq<Byte>, r: nat): nat
    requires r >= 1 && |b| == 128 * r
  {
    FromLE(Slice(b, 64, 2 * r - 1))
  }

  function MixTimes(b: seq<Byte>, r: nat, i: nat): (o: seq<Byte>)
    requires r >= 1 && |b| == 128 * r
    ensures |o| == 128 * r
  {
    if i == 0 then b else BlockMix(MixTimes(b, r, i - 1), r)
  }

  /** Step 3 after i turns of its loop; V[j] is the input mixed j times. */
  function Stir(b: seq<Byte>, n: nat, r: nat, i: nat): (o: seq<Byte>)
    requires n >= 1 && r >= 1 && |b| == 128 * r
    ensures |o| == 128 * r
  {
    if i == 0 then MixTimes(b, r, n)
    else
      var x := Stir(b, n, r, i - 1);
      var j := Integerify(x, r) % n;
      BlockMix(XorOctets(x, MixTimes(b, r, j)), r)
  }

  function RoMix(b: seq<Byte>, n: nat, r: nat): (o: seq<Byte>)
    requires n >= 1 && r >= 1 && |b| == 128 * r
    ensures |o| == 128 * r
  {
    Stir(b, n, r, n)
  }

  // ----- PBKDF2 and scrypt -----

  /** INT(i): the four octets of i, most significant first. */
  function Int4(i: U32): seq<Byte> { [WordByte(i, 3), WordByte(i, 2), WordByte(i, 1), WordByte(i, 0)] }

  /** T_1 || ... || T_n. */
  function Pbkdf2Blocks(hmac: Mac, password: seq<Byte>, salt: seq<Byte>, n: nat): seq<Byte>
    requires n < 0x1_0000_0000
  {
    if n == 0 then [] else Pbkdf2Blocks(hmac, password, salt, n - 1) + hmac(password, salt + Int4(n))
  }

  lemma {:induction false} Pbkdf2Length(hmac: Mac, password: seq<Byte>, salt: seq<Byte>, n: nat)
    requires Mac32(hmac) && n < 0x1_0000_0000
    ensures |Pbkdf2Blocks(hmac, password, salt, n)| == 32 * n
  {
    if n > 0 { Pbkdf2Length(hmac, password, salt, n - 1); }
  }

  const MAX_DK: nat := 32 * 0xFFFF_FFFF   // the limit of PBKDF2 with a 32-octet hash

  ghost function Pbkdf2(hmac: Mac, password: seq<Byte>, salt: seq<Byte>, dkLen: nat): (dk: seq<Byte>)
    requires Mac32(hmac) && dkLen <= MAX_DK
    ensures |dk| == dkLen
  {
    Pbkdf2Length(hmac, password, salt, (dkLen + 31) / 32);
    Pbkdf2Blocks(hmac, password, salt, (dkLen + 31) / 32)[..dkLen]
  }

  /** Step 2 of scrypt on the first i of the p blocks. */
  function MixBlocks(b: seq<Byte>, n: nat, r: nat, i: nat): (o: seq<Byte>)
    requires n >= 1 && r >= 1 && 128 * r * i <= |b|
    ensures |o| == 128 * r * i
  {
    if i == 0 then []
    else
      assert 128 * r * i == 128 * r * (i - 1) + 128 * r;
      MixBlocks(b, n, r, i - 1) + RoMix(b[128 * r * (i - 1)..128 * r * i], n, r)
  }

  ghost function Scrypt(hmac: Mac, password: seq<Byte>, salt: seq<Byte>, n: nat, r: nat, p: nat, dkLen: nat): (dk: seq<Byte>)
    requires Mac32(hmac) && n >= 1 && r >= 1 && 128 * r * p <= MAX_DK && dkLen <= MAX_DK
    ensures |dk| == dkLen
  {
    var b := Pbkdf2(hmac, password, salt, 128 * r * p);
    Pbkdf2(hmac, password, MixBlocks(b, n, r, p), dkLen)
  }
}
