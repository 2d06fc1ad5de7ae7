/** The Swift scrypt: 32-bit words in arrays, unrolled Salsa20/8, BlockMix scattering its
    outputs, ROMix indexing by one word. Proved equal to RFC 7914 for every r, p and every N
    that divides 2^32. */
module Scrypt {
  import opened Bits
  import opened Words
  import opened Bytes
  import opened Primitives
  import opened ScryptSpec

  // ----- Salsa20/8 -----

  /** Four consecutive statements of the unrolled loop body, on the lanes they name. */
  method QuarterStatements(x: array<U32>, a: nat, b: nat, c: nat, d: nat)
    requires x.Length == 16 && a < 16 && b < 16 && c < 16 && d < 16
    requires a != b && a != c && a != d && b != c && b != d && c != d
    modifies x
    ensures Four(x[a], x[b], x[c], x[d]) == QuarterRound(old(x[a]), old(x[b]), old(x[c]), old(x[d]))
    ensures forall k :: 0 <= k < 16 && k != a && k != b && k != c && k != d ==> x[k] == old(x[k])
  {
    hide Xor32, Rotl32, Add32;
    x[b] := Xor32(x[b], Rotl32(Add32(x[a], x[d]), 7));
    x[c] := Xor32(x[c], Rotl32(Add32(x[b], x[a]), 9));
    x[d] := Xor32(x[d], Rotl32(Add32(x[c], x[b]), 13));
    x[a] := Xor32(x[a], Rotl32(Add32(x[d], x[c]), 18));
  }

  method ColumnStatements(x: array<U32>)
    requires x.Length == 16
    modifies x
    ensures x[..] == ColumnRound(old(x[..]))
  {
    hide QuarterRound;
    QuarterStatements(x, 0, 4, 8, 12);
    QuarterStatements(x, 5, 9, 13, 1);
    QuarterStatements(x, 10, 14, 2, 6);
    QuarterStatements(x, 15, 3, 7, 11);
  }

  method RowStatements(x: array<U32>)
    requires x.Length == 16
    modifies x
    ensures x[..] == RowRound(old(x[..]))
  {
    hide QuarterRound;
    QuarterStatements(x, 0, 1, 2, 3);
    QuarterStatements(x, 5, 6, 7, 4);
    QuarterStatements(x, 10, 11, 8, 9);
    QuarterStatements(x, 15, 12, 13, 14);
  }

  method Salsa20_8(input: seq<U32>) returns (out: seq<U32>)
    requires |input| == 16
    ensures out == SalsaWords(input)
  {
    hide ColumnRound, RowRound, Add32;
    var x := new U32[16](i requires 0 <= i < 16 => input[i]);
    assert x[..] == input;
    for round := 0 to DOUBLE_ROUNDS
      invariant x[..] == DoubleRounds(input, round)
    {
      ColumnStatements(x);
      RowStatements(x);
    }
    var sum := new U32[16](i requires 0 <= i < 16 => input[i]);
    for i := 0 to 16
      invariant x[..] == DoubleRounds(input, DOUBLE_ROUNDS)
      invariant forall k :: 0 <= k < i ==> sum[k] == Add32(input[k], x[k])
    {
      sum[i] := Add32(input[i], x[i]);
    }
    out := sum[..];
  }

  // ----- BlockMix on words -----

  function XorWords(a: seq<U32>, b: seq<U32>): (c: seq<U32>)
    requires |a| == |b|
    ensures |c| == |a|
  {
    seq(|a|, i requires 0 <= i < |a| => Xor32(a[i], b[i]))
  }

  function WordsY(b: seq<U32>, r: nat, i: int): (y: seq<U32>)
    requires r >= 1 && |b| == 32 * r && -1 <= i < 2 * r
    ensures |y| == 16
    decreases i + 1
  {
    if i == -1 then Slice(b, 16, 2 * r - 1)
    else SalsaWords(XorWords(WordsY(b, r, i - 1), Slice(b, 16, i)))
  }

  ghost function BlockMixWords(b: seq<U32>, r: nat): (y: seq<U32>)
    requires r >= 1 && |b| == 32 * r
    ensures |y| == 32 * r
  {
    var blocks := ShuffledY(b, r);
    FlattenLength(blocks, 16);
    Flatten(blocks)
  }

  ghost function ShuffledY(b: seq<U32>, r: nat): (blocks: seq<seq<U32>>)
    requires r >= 1 && |b| == 32 * r
    ensures |blocks| == 2 * r && AllSized(blocks, 16)
  {
    seq(r, q requires 0 <= q < r => WordsY(b, r, 2 * q)) + seq(r, q requires 0 <= q < r => WordsY(b, r, 2 * q + 1))
  }

  function DestBlock(r: nat, i: nat): nat { if i % 2 == 0 then i / 2 else r + i / 2 }

  /** The destination map is a bijection on 0 .. 2r-1, inverse to the even-then-odd order. */
  lemma DestIsBijection(r: nat, i: nat)
    requires i < 2 * r
    ensures DestBlock(r, i) < 2 * r && Origin(r, DestBlock(r, i)) == i
    ensures Origin(r, i) < 2 * r && DestBlock(r, Origin(r, i)) == i
  {
  }

  lemma {:induction false} FlattenAt<T>(blocks: seq<seq<T>>, size: nat, q: nat, j: nat)
    requires AllSized(blocks, size) && q < |blocks| && j < size
    ensures size * q + j < |Flatten(blocks)| && Flatten(blocks)[size * q + j] == blocks[q][j]
  {
    FlattenLength(blocks[1..], size);
    if q > 0 {
      FlattenAt(blocks[1..], size, q - 1, j);
      assert size * q + j == size + (size * (q - 1) + j) by { assert size * q == size + size * (q - 1); }
    }
  }

  lemma BlockMixAt(b: seq<U32>, r: nat, k: nat)
    requires r >= 1 && |b| == 32 * r && k < 32 * r
    ensures Origin(r, k / 16) < 2 * r
    ensures BlockMixWords(b, r)[k] == WordsY(b, r, Origin(r, k / 16))[k % 16]
  {
    hide WordsY;
    DestIsBijection(r, k / 16);
    FlattenAt(ShuffledY(b, r), 16, k / 16, k % 16);
    assert k == 16 * (k / 16) + k % 16;
  }

  method PutBlock(y: array<U32>, dest: nat, x: seq<U32>)
    requires 16 * dest + 16 <= y.Length && |x| == 16
    modifies y
    ensures forall k :: 0 <= k < y.Length ==> y[k] == if k / 16 == dest then x[k % 16] else old(y[k])
  {
    for j := 0 to 16
      invariant forall k :: 0 <= k < y.Length ==>
                  y[k] == if k / 16 == dest && k % 16 < j then x[k % 16] else old(y[k])
    {
      y[dest * 16 + j] := x[j];
    }
  }

  method XorBlocks(x: seq<U32>, b: seq<U32>) returns (t: seq<U32>)
    requires |x| == |b|
    ensures t == XorWords(x, b)
  {
    var a := new U32[|x|](_ => 0);
    for j := 0 to |x|
      invariant forall k :: 0 <= k < j ==> a[k] == Xor32(x[k], b[k])
    {
      a[j] := Xor32(x[j], b[j]);
    }
    t := a[..];
  }

  method BlockMixCode(b: seq<U32>, r: nat) returns (out: seq<U32>)
    requires r >= 1 && |b| == 32 * r
    ensures out == BlockMixWords(b, r)
  {
    hide SalsaWords, XorWords, BlockMixWords;
    var x := b[(2 * r - 1) * 16..2 * r * 16];
    var y := new U32[32 * r](_ => 0);
    for i := 0 to 2 * r
      invariant x == WordsY(b, r, i - 1)
      invariant forall k :: 0 <= k < 32 * r && Origin(r, k / 16) < i ==>
                  y[k] == WordsY(b, r, Origin(r, k / 16))[k % 16]
    {
      var t := XorBlocks(x, b[i * 16..i * 16 + 16]);
      assert b[i * 16..i * 16 + 16] == Slice(b, 16, i);
      x := Salsa20_8(t);
      var dest := if i % 2 == 0 then i / 2 else r + i / 2;
      PutBlock(y, dest, x);
      forall q | 0 <= q < 2 * r ensures q == dest <==> Origin(r, q) == i { DestIsBijection(r, q); }
    }
    forall k | 0 <= k < 32 * r ensures y[k] == BlockMixWords(b, r)[k] { BlockMixAt(b, r, k); }
    out := y[..];
  }

  // ----- words and octets agree -----

  lemma WordByteBit(v: U32, k: nat, z: nat)
    requires k < 4 && z < 8
    ensures Bit(WordByte(v, k), z) == Bit(v, 8 * k + z)
  {
    hide Bit, Shr;
    ByteBit(Shr(v, 8 * k), z);
    BitShr(v, 8 * k, z);
  }

  function FourBytes(v: U32): seq<Byte> { [WordByte(v, 0), WordByte(v, 1), WordByte(v, 2), WordByte(v, 3)] }

  lemma FourBytesOfWord(v: U32)
    ensures FromLE(FourBytes(v)) == v
  {
    hide Bit, WordByte, FromLE;
    var b := FourBytes(v);
    Pow2Values();
    FromLEBound(b);
    forall z: nat | z < 32 ensures Bit(FromLE(b), z) == Bit(v, z) {
      FromLEBit(b, z);
      WordByteBit(v, z / 8, z % 8);
      assert b[z / 8] == WordByte(v, z / 8);
    }
    Extensional(FromLE(b), v, 32);
  }

  lemma WordsToBytesAt(w: seq<U32>, i: nat)
    requires i < |w|
    ensures WordsToBytes(w)[4 * i..4 * i + 4] == FourBytes(w[i])
  {
    hide WordByte;
    forall k | 0 <= k < 4 ensures WordsToBytes(w)[4 * i + k] == WordByte(w[i], k) {
      assert (4 * i + k) / 4 == i && (4 * i + k) % 4 == k;
    }
  }

  /** The two conversions undo each other. */
  lemma WordsRoundTrip(w: seq<U32>)
    ensures BytesToWords(WordsToBytes(w)) == w
  {
    hide FourBytes, WordsToBytes, FromLE;
    forall i | 0 <= i < |w| ensures WordAt(WordsToBytes(w), i) == w[i] {
      WordsToBytesAt(w, i);
      FourBytesOfWord(w[i]);
    }
  }

  lemma WordByteXor(a: U32, b: U32, k: nat)
    requires k < 4
    ensures WordByte(Xor32(a, b), k) == XorByte(WordByte(a, k), WordByte(b, k))
  {
    hide Bit, WordByte, Xor;
    var l, r := WordByte(Xor32(a, b), k), XorByte(WordByte(a, k), WordByte(b, k));
    Pow2Values();
    forall z: nat | z < 8 ensures Bit(l, z) == Bit(r, z) {
      WordByteBit(Xor32(a, b), k, z);
      WordByteBit(a, k, z);
      WordByteBit(b, k, z);
      BitXor(a, b, 8 * k + z);
      BitXor(WordByte(a, k), WordByte(b, k), z);
    }
    Extensional(l, r, 8);
  }

  lemma WordsToBytesXor(a: seq<U32>, b: seq<U32>)
    requires |a| == |b|
    ensures WordsToBytes(XorWords(a, b)) == XorOctets(WordsToBytes(a), WordsToBytes(b))
  {
    hide WordByte, Xor32, XorByte;
    forall k | 0 <= k < 4 * |a|
      ensures WordsToBytes(XorWords(a, b))[k] == XorOctets(WordsToBytes(a), WordsToBytes(b))[k]
    {
      WordByteXor(a[k / 4], b[k / 4], k % 4);
    }
  }

  lemma WordsToBytesConcat(a: seq<U32>, b: seq<U32>)
    ensures WordsToBytes(a + b) == WordsToBytes(a) + WordsToBytes(b)
  {
    hide WordByte;
    forall k | 0 <= k < 4 * |b| ensures WordsToBytes(a + b)[4 * |a| + k] == WordsToBytes(b)[k] {
      assert (4 * |a| + k) / 4 == |a| + k / 4 && (4 * |a| + k) % 4 == k % 4;
    }
  }

  lemma WordsToBytesRange(w: seq<U32>, lo: nat, hi: nat)
    requires lo <= hi <= |w|
    ensures WordsToBytes(w)[4 * lo..4 * hi] == WordsToBytes(w[lo..hi])
  {
    hide WordByte;
    forall k | 0 <= k < 4 * (hi - lo) ensures WordsToBytes(w)[4 * lo + k] == WordsToBytes(w[lo..hi])[k] {
      assert (4 * lo + k) / 4 == lo + k / 4 && (4 * lo + k) % 4 == k % 4;
    }
  }

  lemma {:induction false} WordsToBytesFlatten(w: seq<seq<U32>>, b: seq<seq<Byte>>)
    requires |w| == |b| && forall i :: 0 <= i < |w| ==> WordsToBytes(w[i]) == b[i]
    ensures WordsToBytes(Flatten(w)) == Flatten(b)
  {
    hide WordsToBytes;
    if w == [] {
      assert WordsToBytes([]) == [];
    } else {
      WordsToBytesFlatten(w[1..], b[1..]);
      WordsToBytesConcat(w[0], Flatten(w[1..]));
    }
  }

  lemma {:induction false} WordsYRefines(b: seq<U32>, r: nat, i: int)
    requires r >= 1 && |b| == 32 * r && -1 <= i < 2 * r
    ensures WordsToBytes(WordsY(b, r, i)) == BlockY(WordsToBytes(b), r, i)
    decreases i + 1
  {
    hide WordsToBytes, SalsaWords, XorWords, XorOctets;
    var k := if i == -1 then 2 * r - 1 else i;
    WordsToBytesRange(b, 16 * k, 16 * k + 16);
    assert Slice(WordsToBytes(b), 64, k) == WordsToBytes(Slice(b, 16, k));
    if i >= 0 {
      WordsYRefines(b, r, i - 1);
      var t := XorWords(WordsY(b, r, i - 1), Slice(b, 16, i));
      WordsToBytesXor(WordsY(b, r, i - 1), Slice(b, 16, i));
      WordsRoundTrip(t);
    }
  }

  lemma BlockMixRefines(b: seq<U32>, r: nat)
    requires r >= 1 && |b| == 32 * r
    ensures WordsToBytes(BlockMixWords(b, r)) == BlockMix(WordsToBytes(b), r)
  {
    hide WordsToBytes, WordsY, BlockY;
    var o := WordsToBytes(b);
    var blocks := seq(r, q requires 0 <= q < r => BlockY(o, r, 2 * q)) + seq(r, q requires 0 <= q < r => BlockY(o, r, 2 * q + 1));
    forall q | 0 <= q < 2 * r ensures WordsToBytes(ShuffledY(b, r)[q]) == blocks[q] {
      WordsYRefines(b, r, if q < r then 2 * q else 2 * (q - r) + 1);
    }
    WordsToBytesFlatten(ShuffledY(b, r), blocks);
  }

  // ----- ROMix -----

  ghost function MixWords(b: seq<U32>, r: nat, i: nat): (x: seq<U32>)
    requires r >= 1 && |b| == 32 * r
    ensures |x| == 32 * r
  {
    if i == 0 then b else BlockMixWords(MixWords(b, r, i - 1), r)
  }

  /** The index the code takes: the first word of the last block, modulo n. */
  function WordIndex(x: seq<U32>, n: nat, r: nat): nat
    requires n >= 1 && r >= 1 && |x| == 32 * r
  {
    x[(2 * r - 1) * 16] % n
  }

  ghost function StirWords(b: seq<U32>, n: nat, r: nat, i: nat): (x: seq<U32>)
    requires n >= 1 && r >= 1 && |b| == 32 * r
    ensures |x| == 32 * r
  {
    if i == 0 then MixWords(b, r, n)
    else
      var x := StirWords(b, n, r, i - 1);
      BlockMixWords(XorWords(x, MixWords(b, r, WordIndex(x, n, r))), r)
  }

  method RoMixCode(block: seq<U32>, n: nat, r: nat) returns (x: seq<U32>)
    requires n >= 1 && r >= 1 && |block| == 32 * r
    ensures x == StirWords(block, n, r, n)
  {
    hide BlockMixWords, XorWords;
    x := block;
    var v: seq<seq<U32>> := [];
    for i := 0 to n
      invariant |v| == i && x == MixWords(block, r, i)
      invariant forall k :: 0 <= k < i ==> v[k] == MixWords(block, r, k)
    {
      v := v + [x];
      x := BlockMixCode(x, r);
    }
    for i := 0 to n
      invariant x == StirWords(block, n, r, i)
      invariant |v| == n && forall k :: 0 <= k < n ==> v[k] == MixWords(block, r, k)
    {
      var j := x[(2 * r - 1) * 16] % n;
      var t := XorBlocks(x, v[j]);
      x := BlockMixCode(t, r);
    }
  }

  ghost predicate DividesWordSize(n: nat) { n >= 1 && 0x1_0000_0000 % n == 0 }

  /** For n dividing 2^32 one word is as good as the whole number. */
  lemma IndexIsIntegerify(x: seq<U32>, n: nat, r: nat)
    requires DividesWordSize(n) && r >= 1 && |x| == 32 * r
    ensures WordIndex(x, n, r) == Integerify(WordsToBytes(x), r) % n
  {
    hide WordsToBytes, FromLE;
    var last := x[16 * (2 * r - 1)..16 * (2 * r - 1) + 16];
    WordsToBytesRange(x, 16 * (2 * r - 1), 16 * (2 * r - 1) + 16);
    assert Slice(WordsToBytes(x), 64, 2 * r - 1) == WordsToBytes(last);
    FirstWordLow(last);
    var whole := FromLE(WordsToBytes(last));
    ModOfMod(whole, 0x1_0000_0000, n);
  }

  /** The number a nonempty word string stands for is its first word plus a multiple of 2^32. */
  lemma FirstWordLow(w: seq<U32>)
    requires w != []
    ensures FromLE(WordsToBytes(w)) == w[0] + 0x1_0000_0000 * FromLE(WordsToBytes(w[1..]))
    ensures FromLE(WordsToBytes(w)) % 0x1_0000_0000 == w[0]
  {
    hide FromLE, FourBytes, WordsToBytes;
    var rest := WordsToBytes(w[1..]);
    var head := WordsToBytes([w[0]]);
    WordsToBytesConcat([w[0]], w[1..]);
    assert [w[0]] + w[1..] == w;
    WordsToBytesAt([w[0]], 0);
    assert head[0..4] == head;
    FourBytesOfWord(w[0]);
    FromLEConcat4(head, rest);
    DivUnique(w[0] + 0x1_0000_0000 * FromLE(rest), 0x1_0000_0000, FromLE(rest), w[0]);
  }

  lemma FromLEConcat4(a: seq<Byte>, b: seq<Byte>)
    requires |a| == 4
    ensures FromLE(a + b) == FromLE(a) + 0x1_0000_0000 * FromLE(b)
  {
    var s := a + b;
    assert s[1..][1..][1..][1..] == b;
    assert FromLE(s) == s[0] + 256 * FromLE(s[1..]);
    assert FromLE(s[1..]) == s[1] + 256 * FromLE(s[1..][1..]);
    assert FromLE(s[1..][1..]) == s[2] + 256 * FromLE(s[1..][1..][1..]);
    assert FromLE(s[1..][1..][1..]) == s[3] + 256 * FromLE(b);
    assert FromLE(a) == a[0] + 256 * FromLE(a[1..]);
    assert FromLE(a[1..]) == a[1] + 256 * FromLE(a[1..][1..]);
    assert FromLE(a[1..][1..]) == a[2] + 256 * FromLE(a[1..][1..][1..]);
    assert FromLE(a[1..][1..][1..]) == a[3] + 256 * FromLE([]);
  }

  lemma ModOfMod(x: nat, m: nat, n: nat)
    requires n >= 1 && m >= 1 && m % n == 0
    ensures x % m % n == x % n
  {
    var q, k, r := x / m, m / n, x % m;
    ModOfModParts(x, m, n, q, k, r, r / n, r % n);
  }

  lemma ModOfModParts(x: nat, m: nat, n: nat, q: nat, k: nat, r: nat, a: nat, b: nat)
    requires n >= 1 && m == n * k && x == m * q + r && r == n * a + b && b < n
    ensures x % n == b
  {
    assert x == n * (k * q + a) + b by {
      assert n * (k * q) == n * k * q;
    }
    DivUnique(x, n, k * q + a, b);
  }

  /** For any other n there is a block on which the code and the standard pick different
      indices. */
  lemma OtherSizesDiffer(n: nat) returns (x: seq<U32>)
    requires n >= 1 && !DividesWordSize(n)
    ensures |x| == 32 && WordIndex(x, n, 1) != Integerify(WordsToBytes(x), 1) % n
  {
    var zeros := seq(16, i => 0);
    var last := [0, 1] + seq(14, i => 0);
    x := zeros + last;
    assert x[16..32] == last;
    WordsToBytesRange(x, 16, 32);
    assert Slice(WordsToBytes(x), 64, 1) == WordsToBytes(last);
    FirstWordLow(last);
    var tail := last[1..];
    FirstWordLow(tail);
    ZeroWords(tail[1..]);
    assert FromLE(WordsToBytes(last)) == 0x1_0000_0000;
  }

  lemma ZeroWords(w: seq<U32>)
    requires forall i :: 0 <= i < |w| ==> w[i] == 0
    ensures FromLE(WordsToBytes(w)) == 0
    decreases |w|
  {
    if w == [] {
      assert WordsToBytes(w) == [];
    } else {
      FirstWordLow(w);
      ZeroWords(w[1..]);
    }
  }

  lemma {:induction false} MixRefines(b: seq<U32>, r: nat, i: nat)
    requires r >= 1 && |b| == 32 * r
    ensures WordsToBytes(MixWords(b, r, i)) == MixTimes(WordsToBytes(b), r, i)
  {
    hide WordsToBytes, BlockMixWords, BlockMix;
    if i > 0 {
      MixRefines(b, r, i - 1);
      BlockMixRefines(MixWords(b, r, i - 1), r);
    }
  }

  lemma {:induction false} StirRefines(b: seq<U32>, n: nat, r: nat, i: nat)
    requires DividesWordSize(n) && r >= 1 && |b| == 32 * r
    ensures WordsToBytes(StirWords(b, n, r, i)) == Stir(WordsToBytes(b), n, r, i)
  {
    hide WordsToBytes, BlockMixWords, BlockMix, XorWords, XorOctets, WordIndex, Integerify;
    if i == 0 {
      MixRefines(b, r, n);
    } else {
      StirRefines(b, n, r, i - 1);
      var x := StirWords(b, n, r, i - 1);
      IndexIsIntegerify(x, n, r);
      var j := WordIndex(x, n, r);
      MixRefines(b, r, j);
      WordsToBytesXor(x, MixWords(b, r, j));
      BlockMixRefines(XorWords(x, MixWords(b, r, j)), r);
    }
  }

  // ----- PBKDF2 and derive -----

  /** The 32-bit block counter of the code is incremented once more after the last block. */
  const CODE_MAX_DK: nat := 32 * 0xFFFF_FFFE

  method Pbkdf2C1(hmac: Mac, password: seq<Byte>, salt: seq<Byte>, dkLen: nat) returns (out: seq<Byte>)
    requires Mac32(hmac) && dkLen <= CODE_MAX_DK
    ensures out == Pbkdf2(hmac, password, salt, dkLen)
  {
    hide Int4;
    var all := [];
    var i: U32 := 1;
    while |all| < dkLen
      invariant 1 <= i <= (dkLen + 31) / 32 + 1
      invariant |all| == 32 * (i - 1) && all == Pbkdf2Blocks(hmac, password, salt, i - 1)
      decreases dkLen - |all|
    {
      all := all + hmac(password, salt + Int4(i));
      i := i + 1;
    }
    out := all[..dkLen];
  }

  /** The octets of blocks already mixed, followed by one more. */
  lemma MixBlocksStep(b: seq<Byte>, n: nat, r: nat, i: nat, block: seq<U32>)
    requires DividesWordSize(n) && r >= 1 && 128 * r * (i + 1) <= |b| && |block| == 32 * r
    requires 128 * r * i <= 128 * r * (i + 1) && b[128 * r * i..128 * r * (i + 1)] == WordsToBytes(block)
    ensures MixBlocks(b, n, r, i + 1)
            == MixBlocks(b, n, r, i) + WordsToBytes(StirWords(block, n, r, n))
  {
    hide WordsToBytes, StirWords, Stir;
    StirRefines(block, n, r, n);
  }

  method PutRange(words: array<U32>, start: nat, mixed: seq<U32>)
    requires start + |mixed| <= words.Length
    modifies words
    ensures words[..start] == old(words[..start])
    ensures words[start..start + |mixed|] == mixed
    ensures words[start + |mixed|..] == old(words[start + |mixed|..])
  {
    for k := 0 to |mixed|
      invariant words[..start] == old(words[..start])
      invariant forall q :: 0 <= q < k ==> words[start + q] == mixed[q]
      invariant words[start + |mixed|..] == old(words[start + |mixed|..])
    {
      words[start + k] := mixed[k];
    }
  }

  /** The p blocks mixed in place, one after the other. */
  method MixInPlace(words: array<U32>, n: nat, r: nat, p: nat)
    requires DividesWordSize(n) && r >= 1 && words.Length == 32 * r * p
    modifies words
    ensures 128 * r * p == 4 * words.Length
    ensures WordsToBytes(words[..]) == MixBlocks(WordsToBytes(old(words[..])), n, r, p)
  {
    hide WordsToBytes, StirWords, MixBlocks;
    var blockWords := 32 * r;
    ghost var w0 := words[..];
    ghost var b := WordsToBytes(w0);
    Scale(r, p, 0);
    ZeroBlocks(b, n, r);
    var start := 0;
    for i := 0 to p
      invariant start == 32 * r * i && 128 * r * i == 4 * start && start <= words.Length
      invariant WordsToBytes(words[..start]) == MixBlocks(b, n, r, i)
      invariant words[start..] == w0[start..]
    {
      Scale(r, p, i + 1);
      ghost var next := start + blockWords;
      var block := words[start..start + blockWords];
      assert block == w0[start..next];
      WordsToBytesRange(w0, start, next);
      var mixed := RoMixCode(block, n, r);
      MixBlocksStep(b, n, r, i, block);
      PutRange(words, start, mixed);
      assert words[..next] == words[..start] + mixed;
      WordsToBytesConcat(words[..start], mixed);
      start := start + blockWords;
    }
    assert words[..start] == words[..];
  }

  lemma ZeroBlocks(b: seq<Byte>, n: nat, r: nat)
    requires n >= 1 && r >= 1
    ensures WordsToBytes([]) == MixBlocks(b, n, r, 0)
  {
  }

  lemma Scale(r: nat, p: nat, i: nat)
    requires i <= p
    ensures 32 * r * (i + 1) == 32 * r * i + 32 * r
    ensures 32 * r * i <= 32 * r * p && 128 * r * i == 4 * (32 * r * i) && 128 * r * p == 4 * (32 * r * p)
    ensures i >= 1 ==> 32 * r * i == 32 * r * (i - 1) + 32 * r
  {
    MulMono(32 * r, i, p);
  }

  /** The whole key derivation is scrypt of RFC 7914. */
  method Derive(hmac: Mac, password: seq<Byte>, salt: seq<Byte>, n: nat, r: nat, p: nat, dkLen: nat) returns (dk: seq<Byte>)
    requires Mac32(hmac) && DividesWordSize(n) && r >= 1
    requires 128 * r * p <= CODE_MAX_DK && dkLen <= CODE_MAX_DK
    ensures dk == ScryptSpec.Scrypt(hmac, password, salt, n, r, p, dkLen)
  {
    hide BytesToWords, WordsToBytes, MixBlocks, Mac32, Pbkdf2Blocks;
    var seed := Pbkdf2C1(hmac, password, salt, 128 * r * p);
    Scale(r, p, p);
    BytesRoundTrip(seed, 32 * r * p);
    var words := BytesToWordsLE(seed);
    MixInPlace(words, n, r, p);
    var mixed := WordsToBytesLE(words[..]);
    dk := Pbkdf2C1(hmac, password, mixed, dkLen);
  }

  // ----- the two conversion loops -----

  /** b0 | b1 << 8 | b2 << 16 | b3 << 24. */
  function OrShifted(b0: nat, b1: nat, b2: nat, b3: nat): nat {
    Or(Or(Or(b0, b1 * 0x100), b2 * 0x1_0000), b3 * 0x100_0000)
  }

  lemma OrShiftedIsWord(b: seq<Byte>, i: nat)
    requires 4 * i + 4 <= |b|
    ensures OrShifted(b[4 * i], b[4 * i + 1], b[4 * i + 2], b[4 * i + 3]) == WordAt(b, i)
  {
    hide Or, Pow2;
    Pow2Values();
    assert Pow2(8) == 0x100 && Pow2(16) == 0x1_0000 && Pow2(24) == 0x100_0000;
    var b0: nat, b1: nat, b2: nat, b3: nat := b[4 * i], b[4 * i + 1], b[4 * i + 2], b[4 * i + 3];
    OrDisjoint(b0, b1, 8);
    OrDisjoint(b0 + b1 * 0x100, b2, 16);
    OrDisjoint(b0 + b1 * 0x100 + b2 * 0x1_0000, b3, 24);
    LittleEndianFour(b[4 * i..4 * i + 4]);
  }

  lemma LittleEndianFour(b: seq<Byte>)
    requires |b| == 4
    ensures var b0: nat, b1: nat, b2: nat, b3: nat := b[0], b[1], b[2], b[3];
            FromLE(b) == b0 + 0x100 * b1 + 0x1_0000 * b2 + 0x100_0000 * b3
  {
    var b3: nat, b2: nat, b1: nat := b[3], b[2], b[1];
    assert b[1..][1..] == b[2..] && b[2..][1..] == b[3..] && b[3..][1..] == [];
    assert FromLE(b[3..]) == b3 && FromLE(b[2..]) == b2 + 256 * b3;
    assert FromLE(b[1..]) == b1 + 256 * FromLE(b[2..]);
  }

  method BytesToWordsLE(b: seq<Byte>) returns (w: array<U32>)
    ensures fresh(w) && w[..] == BytesToWords(b)
  {
    hide OrShifted, WordAt;
    w := new U32[|b| / 4](_ => 0);
    for i := 0 to w.Length
      invariant forall k :: 0 <= k < i ==> w[k] == WordAt(b, k)
    {
      OrShiftedIsWord(b, i);
      w[i] := OrShifted(b[4 * i], b[4 * i + 1], b[4 * i + 2], b[4 * i + 3]);
    }
  }

  /** v >> 8k & 0xff. */
  function MaskedByte(v: U32, k: nat): nat { And(Shr(v, 8 * k), 0xFF) }

  lemma MaskedIsByte(v: U32, k: nat)
    ensures MaskedByte(v, k) == WordByte(v, k)
  {
    hide And, Shr;
    Pow2Values();
    AndOnes(Shr(v, 8 * k), 8);
  }

  method WordsToBytesLE(w: seq<U32>) returns (b: seq<Byte>)
    ensures b == WordsToBytes(w)
  {
    hide MaskedByte, WordByte, WordsToBytes;
    b := [];
    NoWords();
    for i := 0 to |w|
      invariant b == WordsToBytes(w[..i])
    {
      var v := w[i];
      MaskedIsByte(v, 0);
      MaskedIsByte(v, 1);
      MaskedIsByte(v, 2);
      MaskedIsByte(v, 3);
      assert w[..i + 1] == w[..i] + [v];
      WordsToBytesConcat(w[..i], [v]);
      OneWord(v);
      b := b + [MaskedByte(v, 0), MaskedByte(v, 1), MaskedByte(v, 2), MaskedByte(v, 3)];
    }
    assert w[..|w|] == w;
  }

  lemma NoWords()
    ensures WordsToBytes([]) == []
  {
  }

  lemma OneWord(v: U32)
    ensures WordsToBytes([v]) == [WordByte(v, 0), WordByte(v, 1), WordByte(v, 2), WordByte(v, 3)]
  {
    hide WordByte;
  }

  lemma BytesRoundTrip(b: seq<Byte>, k: nat)
    requires |b| == 4 * k
    ensures |BytesToWords(b)| == k && WordsToBytes(BytesToWords(b)) == b
  {
    var w := BytesToWords(b);
    forall i | 0 <= i < |b| ensures WordsToBytes(w)[i] == b[i] {
      ByteOfWordAt(b, i / 4, i % 4);
      assert i == 4 * (i / 4) + i % 4;
    }
  }

  lemma ByteOfWordAt(b: seq<Byte>, i: nat, k: nat)
    requires 4 * i + 4 <= |b| && k < 4
    ensures WordByte(WordAt(b, i), k) == b[4 * i + k]
  {
    hide Bit, WordByte, FromLE;
    var four := b[4 * i..4 * i + 4];
    Pow2Values();
    forall z: nat | z < 8 ensures Bit(WordByte(WordAt(b, i), k), z) == Bit(b[4 * i + k], z) {
      WordByteBit(WordAt(b, i), k, z);
      FromLEBit(four, 8 * k + z);
      assert (8 * k + z) / 8 == k && (8 * k + z) % 8 == z;
    }
    Extensional(WordByte(WordAt(b, i), k), b[4 * i + k], 8);
  }

  /** The code's index is the standard's for every block of every size. */
  ghost predicate IndexAlwaysRight(n: nat)
    requires n >= 1
  {
    forall x: seq<U32>, r: nat :: r >= 1 && |x| == 32 * r ==>
      WordIndex(x, n, r) == Integerify(WordsToBytes(x), r) % n
  }

  /** Taking one word for the whole 512-bit number is right exactly when n divides 2^32. */
  lemma WordIndexExact(n: nat)
    requires n >= 1
    ensures IndexAlwaysRight(n) <==> DividesWordSize(n)
  {
    if DividesWordSize(n) {
      forall x: seq<U32>, r: nat | r >= 1 && |x| == 32 * r
        ensures WordIndex(x, n, r) == Integerify(WordsToBytes(x), r) % n
      {
        IndexIsIntegerify(x, n, r);
      }
    } else {
      var x := OtherSizesDiffer(n);
    }
  }
}
