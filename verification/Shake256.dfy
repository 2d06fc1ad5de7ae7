/** The Swift SHAKE-256: lanes in an array updated in place, whole blocks absorbed as they
    come, padding written into the last block, bytes squeezed lane by lane. `Digest` is
    proved equal to SHAKE256 of FIPS 202 for every input and every output length. */
module Shake256 {
  import opened Bits
  import opened Words
  import opened Bytes
  import opened Keccak
  import opened KeccakLanes
  import opened KeccakConstants

  const RATE_BYTES: nat := 136

  // ----- Keccak-f in place -----

  lemma IotaBits(a: Lanes, ir: nat)
    requires ir < NR
    ensures BitsOf(IotaLanes(a, ir)) == Iota(BitsOf(a), ir)
  {
    forall i | 0 <= i < 1600 ensures BitsOf(IotaLanes(a, ir))[i] == Iota(BitsOf(a), ir)[i] {
      Coordinates(i);
      BitOfLane(a, i / 64 % 5, i / 320, i % 64);
      if i < 64 {
        BitXor(a[0], RoundConstant(ir), i % 64);
        RoundConstantBits(ir, i % 64);
      }
    }
  }

  lemma RoundBits(a: Lanes, ir: nat)
    requires ir < NR
    ensures BitsOf(RoundLanes(a, ir)) == Rnd(BitsOf(a), ir)
  {
    var t := ThetaLanes(a);
    var b := RhoPiLanes(t);
    ThetaBits(a);
    RhoPiBits(t);
    ChiBits(b);
    IotaBits(ChiLanes(b), ir);
  }

  /** The lane permutation is the bit permutation of the standard. */
  lemma {:induction false} RoundsBits(a: Lanes, n: nat)
    requires n <= NR
    ensures BitsOf(RoundsLanes(a, n)) == Rounds(BitsOf(a), n)
  {
    hide BitsOf, RoundLanes, Rnd;
    if n > 0 {
      RoundsBits(a, n - 1);
      RoundBits(RoundsLanes(a, n - 1), n - 1);
    }
  }

  lemma KeccakFBits(a: Lanes)
    ensures BitsOf(KeccakFLanes(a)) == KeccakF(BitsOf(a))
  {
    RoundsBits(a, NR);
  }

  method ThetaEffects(a: array<U64>) returns (d: array<U64>)
    requires a.Length == 25
    ensures fresh(d) && d.Length == 5
    ensures forall k :: 0 <= k < 5 ==> d[k] == ThetaEffect(a[..], k)
  {
    var c := new U64[5](_ => 0);
    for x := 0 to 5
      invariant forall k :: 0 <= k < x ==> c[k] == ColumnParity(a[..], k)
    {
      c[x] := Xor64(Xor64(Xor64(Xor64(a[x], a[x + 5]), a[x + 10]), a[x + 15]), a[x + 20]);
    }
    d := new U64[5](_ => 0);
    for x := 0 to 5
      invariant forall k :: 0 <= k < 5 ==> c[k] == ColumnParity(a[..], k)
      invariant forall k :: 0 <= k < x ==> d[k] == ThetaEffect(a[..], k)
    {
      d[x] := Xor64(c[(x + 4) % 5], Rotl64(c[(x + 1) % 5], 1));
    }
  }

  method XorColumn(a: array<U64>, x: nat, e: U64)
    requires a.Length == 25 && x < 5
    modifies a
    ensures forall k :: 0 <= k < 25 ==> a[k] == if k % 5 == x then Xor64(old(a[k]), e) else old(a[k])
  {
    for y := 0 to 5
      invariant forall k :: 0 <= k < 25 ==>
                  a[k] == if k % 5 == x && k / 5 < y then Xor64(old(a[k]), e) else old(a[k])
    {
      LanePlace(x, y);
      a[x + 5 * y] := Xor64(a[x + 5 * y], e);
    }
  }

  method ThetaInPlace(a: array<U64>)
    requires a.Length == 25
    modifies a
    ensures a[..] == ThetaLanes(old(a[..]))
  {
    hide ThetaEffect, Xor64;
    ghost var a0: Lanes := a[..];
    var d := ThetaEffects(a);
    for x := 0 to 5
      invariant forall k :: 0 <= k < 5 ==> d[k] == ThetaEffect(a0, k)
      invariant forall k :: 0 <= k < 25 ==> a[k] == if k % 5 < x then ThetaLane(a0, k) else a0[k]
    {
      XorColumn(a, x, d[x]);
    }
  }

  method ScatterColumn(a: array<U64>, b: array<U64>, x: nat)
    requires a.Length == 25 && b.Length == 25 && a != b && x < 5
    modifies b
    ensures forall k :: 0 <= k < 25 ==>
              Source(k) < 25 && b[k] == if Source(k) % 5 == x then RhoLane(a[..], Source(k)) else old(b[k])
  {
    hide RhoTable, Rotl64;
    forall k | 0 <= k < 25 ensures Source(k) < 25 { SourceThenDest(k); }
    for y := 0 to 5
      invariant forall k :: 0 <= k < 25 ==>
                  b[k] == if Source(k) % 5 == x && Source(k) / 5 < y then RhoLane(a[..], Source(k)) else old(b[k])
    {
      LanePlace(x, y);
      ScatterTarget(x, y);
      b[y + 5 * ((2 * x + 3 * y) % 5)] := Rotl64(a[x + 5 * y], RhoTable(x + 5 * y));
    }
  }

  /** rho and pi: every lane of b is written exactly once. */
  method RhoPi(a: array<U64>) returns (b: array<U64>)
    requires a.Length == 25
    ensures fresh(b) && b.Length == 25
    ensures b[..] == RhoPiLanes(a[..])
  {
    hide RhoLane, Source;
    b := new U64[25](_ => 0);
    for x := 0 to 5
      invariant forall k :: 0 <= k < 25 && Source(k) % 5 < x ==>
                  Source(k) < 25 && b[k] == RhoLane(a[..], Source(k))
    {
      ScatterColumn(a, b, x);
    }
    forall k | 0 <= k < 25 ensures Source(k) % 5 < 5 && Source(k) < 25 { SourceThenDest(k); }
  }

  /** Only the target of (x, y) is fed from lane (x, y). */
  lemma ScatterTarget(x: nat, y: nat)
    requires x < 5 && y < 5
    ensures Dest(x, y) < 25 && Source(Dest(x, y)) == x + 5 * y
    ensures forall k :: 0 <= k < 25 && Source(k) % 5 == x && Source(k) / 5 == y ==> k == Dest(x, y)
  {
    DestThenSource(x, y);
    forall k | 0 <= k < 25 && Source(k) % 5 == x && Source(k) / 5 == y ensures k == Dest(x, y) {
      SourceThenDest(k);
    }
  }

  method ChiInto(a: array<U64>, b: array<U64>)
    requires a.Length == 25 && b.Length == 25 && a != b
    modifies a
    ensures a[..] == ChiLanes(b[..])
  {
    ghost var b0: Lanes := b[..];
    for x := 0 to 5
      invariant b[..] == b0
      invariant forall k :: 0 <= k < 25 && k % 5 < x ==> a[k] == ChiLane(b0, k % 5, k / 5)
    {
      for y := 0 to 5
        invariant b[..] == b0
        invariant forall k :: 0 <= k < 25 && (k % 5 < x || (k % 5 == x && k / 5 < y)) ==>
                    a[k] == ChiLane(b0, k % 5, k / 5)
      {
        LanePlace(x, y);
        a[x + 5 * y] := Xor64(b[x + 5 * y], And64(Not64(b[(x + 1) % 5 + 5 * y]), b[(x + 2) % 5 + 5 * y]));
      }
    }
  }

  method RoundInPlace(a: array<U64>, round: nat)
    requires a.Length == 25 && round < NR
    modifies a
    ensures a[..] == RoundLanes(old(a[..]), round)
  {
    ThetaInPlace(a);
    var b := RhoPi(a);
    ChiInto(a, b);
    a[0] := Xor64(a[0], RoundConstant(round));
  }

  method KeccakFInPlace(a: array<U64>)
    requires a.Length == 25
    modifies a
    ensures a[..] == KeccakFLanes(old(a[..]))
  {
    hide RoundLanes;
    ghost var a0: Lanes := a[..];
    for round := 0 to NR
      invariant a[..] == RoundsLanes(a0, round)
    {
      RoundInPlace(a, round);
    }
  }

  // ----- absorbing -----

  method LoadLane(block: seq<Byte>, at: nat) returns (lane: U64)
    requires at + 8 <= |block|
    ensures lane == FromLE(block[at..at + 8])
  {
    lane := 0;
    for j := 0 to 8
      invariant lane == FromLE(block[at..at + j])
    {
      OrByteAppends(block[at..at + j], block[at + j], lane);
      lane := OrByte(lane, block[at + j], j);
      assert block[at..at + j + 1] == block[at..at + j] + [block[at + j]];
    }
  }

  /** lane | byte << 8j, with j bytes already in lane. */
  function OrByte(lane: U64, b: Byte, j: nat): U64 { Or64(lane, Shl64(b, 8 * j)) }

  lemma OrByteAppends(low: seq<Byte>, b: Byte, lane: U64)
    requires |low| < 8 && lane == FromLE(low)
    ensures OrByte(lane, b, |low|) == FromLE(low + [b])
  {
    hide FromLE, Or, Pow2;
    var k := 8 * |low|;
    FromLESnoc(low, b);
    FromLEBound(low);
    FromLEBound(low + [b]);
    Pow2Values();
    Pow2Mono(k + 8, 64);
    SmallMod(b * Pow2(k), 0x1_0000_0000_0000_0000);
    OrDisjoint(lane, b, k);
  }

  function XorLanes(s: Lanes, block: seq<Byte>, n: nat): Lanes
    requires |block| == RATE_BYTES && n <= 17
  {
    seq(25, i requires 0 <= i < 25 => if i < n then XorLane(s[i], block, i) else s[i])
  }

  function XorLane(lane: U64, block: seq<Byte>, i: nat): U64
    requires |block| == RATE_BYTES && i < 17
  {
    FromLEBound(block[8 * i..8 * i + 8]);
    Pow2Values();
    Xor64(lane, FromLE(block[8 * i..8 * i + 8]))
  }

  method AbsorbBlock(state: array<U64>, block: seq<Byte>)
    requires state.Length == 25 && |block| == RATE_BYTES
    modifies state
    ensures state[..] == XorLanes(old(state[..]), block, 17)
  {
    ghost var s0: Lanes := state[..];
    for i := 0 to 17
      invariant state[..] == XorLanes(s0, block, i)
    {
      var lane := LoadLane(block, i * 8);
      state[i] := Xor64(state[i], lane);
    }
  }

  /** Absorbing a block of bytes is XORing its bit string into the first 1088 bits. */
  lemma AbsorbBits(s: Lanes, block: seq<Byte>)
    requires |block| == RATE_BYTES
    ensures BitsOf(XorLanes(s, block, 17)) == XorBlock(BitsOf(s), BytesToBits(block))
  {
    forall k | 0 <= k < 1600
      ensures BitsOf(XorLanes(s, block, 17))[k] == XorBlock(BitsOf(s), BytesToBits(block))[k]
    {
      var i, z := k / 64, k % 64;
      if i < 17 {
        var w := block[8 * i..8 * i + 8];
        XorLaneBit(s[i], block, i, z);
        FromLEBit(w, z);
        assert k / 8 == 8 * i + z / 8 && k % 8 == z % 8;
      }
    }
  }

  lemma XorLaneBit(lane: U64, block: seq<Byte>, i: nat, z: nat)
    requires |block| == RATE_BYTES && i < 17
    ensures Bit(XorLane(lane, block, i), z) == (Bit(lane, z) != Bit(FromLE(block[8 * i..8 * i + 8]), z))
  {
    BitXor(lane, FromLE(block[8 * i..8 * i + 8]), z);
  }

  /** Whole blocks of p absorbed one after the other. */
  ghost function AbsorbLanes(s: Lanes, p: seq<Byte>): Lanes
    decreases |p|
  {
    if |p| < RATE_BYTES then s
    else AbsorbLanes(KeccakFLanes(XorLanes(s, p[..RATE_BYTES], 17)), p[RATE_BYTES..])
  }

  lemma {:induction false} AbsorbLanesBits(s: Lanes, p: seq<Byte>)
    ensures BitsOf(AbsorbLanes(s, p)) == Absorb(BitsOf(s), BytesToBits(p))
    decreases |p|
  {
    hide KeccakFLanes, KeccakF;
    if |p| >= RATE_BYTES {
      var block, rest := p[..RATE_BYTES], p[RATE_BYTES..];
      var x := XorLanes(s, block, 17);
      BytesToBitsSplit(p, RATE_BYTES);
      AbsorbBits(s, block);
      KeccakFBits(x);
      AbsorbLanesBits(KeccakFLanes(x), rest);
    }
  }

  // ----- padding -----

  /** The last block: the remaining bytes, 0x1F, zeros, and 0x80 ORed into the last byte. */
  function FinalBlock(rem: seq<Byte>): (block: seq<Byte>)
    requires |rem| < RATE_BYTES
    ensures |block| == RATE_BYTES
  {
    var filled := rem + [0x1F] + seq(RATE_BYTES - 1 - |rem|, i => 0);
    filled[RATE_BYTES - 1 := OrTop(filled[RATE_BYTES - 1])]
  }

  function OrTop(b: Byte): Byte {
    Pow2Values();
    OrBound(b, 0x80, 8);
    Or(b, 0x80)
  }

  lemma FinalBit(rem: seq<Byte>, i: nat, z: nat)
    requires |rem| < RATE_BYTES && i < RATE_BYTES && z < 8
    ensures Bit(FinalBlock(rem)[i], z) ==
            if i < |rem| then Bit(rem[i], z)
            else (i == |rem| && z < 5) || (i == RATE_BYTES - 1 && z == 7)
  {
    hide Bit, Or, Pow2;
    PadByteBits(z);
    BitZero(z);
    if i == RATE_BYTES - 1 { BitOr((rem + [0x1F] + seq(RATE_BYTES - 1 - |rem|, k => 0))[i], 0x80, z); }
  }

  lemma PadByteBits(z: nat)
    requires z < 8
    ensures Bit(0x1F, z) == (z < 5) && Bit(0x80, z) == (z == 7)
  {
    hide Bit;
    assert Pow2(5) - 1 == 0x1F && Pow2(7) == 0x80;
    BitOnes(5, z);
    BitPow2(7, z);
  }

  /** The bytes 0x1F and 0x80 are the suffix 1111 and pad10*1 of the standard, also when
      both fall on one byte. */
  lemma PaddingIsStandard(m: seq<Byte>, rem: seq<Byte>)
    requires |rem| == |m| % RATE_BYTES
    ensures BytesToBits(FinalBlock(rem))
            == BytesToBits(rem) + [true, true, true, true] + Pad101(RATE, 8 * |m| + 4)
  {
    var p := 8 * (RATE_BYTES - |rem|);
    PadZerosIs(|m|, |m| / RATE_BYTES, |rem|);
    var rhs := BytesToBits(rem) + [true, true, true, true] + Pad101(RATE, 8 * |m| + 4);
    assert |rhs| == RATE;
    forall k | 0 <= k < RATE ensures BytesToBits(FinalBlock(rem))[k] == rhs[k] {
      FinalBit(rem, k / 8, k % 8);
    }
  }

  lemma PadZerosIs(n: nat, q: nat, r: nat)
    requires n == RATE_BYTES * q + r && r < RATE_BYTES
    ensures PadZeros(RATE, 8 * n + 4) == RATE - 8 * r - 6
  {
    var j := PadZeros(RATE, 8 * n + 4);
    var t := (8 * n + 4 + 2 + j) / RATE;
    assert 8 * n + 6 + j == RATE * t;
    assert 8 * n == RATE * q + 8 * r;
    assert 8 * r + 6 + j == RATE * (t - q);
  }

  /** The message as the code absorbs it: whole blocks, then the padded rest. */
  function Padded(m: seq<Byte>): seq<Byte> {
    var n := |m| - |m| % RATE_BYTES;
    m[..n] + FinalBlock(m[n..])
  }

  lemma PaddedBits(m: seq<Byte>)
    ensures BytesToBits(Padded(m))
            == BytesToBits(m) + [true, true, true, true] + Pad101(RATE, |BytesToBits(m) + [true, true, true, true]|)
  {
    var n := |m| - |m| % RATE_BYTES;
    var rem := m[n..];
    PaddingIsStandard(m, rem);
    BytesToBitsConcat(m[..n], rem);
    BytesToBitsConcat(m[..n], FinalBlock(rem));
    assert m[..n] + rem == m;
    AssocFour(BytesToBits(m[..n]), BytesToBits(rem), [true, true, true, true], Pad101(RATE, 8 * |m| + 4));
  }

  lemma AssocFour<T>(a: seq<T>, b: seq<T>, c: seq<T>, d: seq<T>)
    ensures a + (b + c + d) == (a + b) + c + d
  {
  }

  // ----- squeezing -----

  function StateByte(s: Lanes, k: nat): Byte
    requires k < 200
  {
    Shr64(s[k / 8], 8 * (k % 8)) % 256
  }

  function StateBytes(s: Lanes, n: nat): (b: seq<Byte>)
    requires n <= 200
    ensures |b| == n
  {
    seq(n, k requires 0 <= k < n => StateByte(s, k))
  }

  lemma StateBytesBits(s: Lanes, n: nat)
    requires n <= 200
    ensures BytesToBits(StateBytes(s, n)) == BitsOf(s)[..8 * n]
  {
    hide Bit, StateByte, BitsOf;
    forall k | 0 <= k < 8 * n ensures BytesToBits(StateBytes(s, n))[k] == BitsOf(s)[k] {
      StateBit(s, k / 8, k % 8);
      assert k == 8 * (k / 8) + k % 8;
    }
  }

  lemma StateBit(s: Lanes, b: nat, z: nat)
    requires b < 200 && z < 8
    ensures Bit(StateByte(s, b), z) == BitsOf(s)[8 * b + z]
  {
    hide Bit, BitsOf, Pow2;
    var i, t := b / 8, b % 8;
    ByteBit(Shr64(s[i], 8 * t), z);
    BitShr(s[i], 8 * t, z);
    LaneBit(s, i, 8 * t + z);
    assert 8 * b + z == 64 * i + (8 * t + z);
  }

  lemma LaneBit(s: Lanes, i: nat, z: nat)
    requires i < 25 && z < 64
    ensures BitsOf(s)[64 * i + z] == Bit(s[i], z)
  {
    hide Bit;
    assert (64 * i + z) / 64 == i && (64 * i + z) % 64 == z;
  }

  ghost function SqueezeBytes(s: Lanes, n: nat): (b: seq<Byte>)
    ensures |b| == n
    decreases n
  {
    if n <= RATE_BYTES then StateBytes(s, n)
    else StateBytes(s, RATE_BYTES) + SqueezeBytes(KeccakFLanes(s), n - RATE_BYTES)
  }

  lemma {:induction false} SqueezeBytesBits(s: Lanes, n: nat)
    ensures BytesToBits(SqueezeBytes(s, n)) == Squeeze(BitsOf(s), 8 * n)
    decreases n
  {
    hide KeccakFLanes, KeccakF, BitsOf, BytesToBits, StateBytes;
    if n <= RATE_BYTES {
      StateBytesBits(s, n);
    } else {
      var head, tail := StateBytes(s, RATE_BYTES), SqueezeBytes(KeccakFLanes(s), n - RATE_BYTES);
      StateBytesBits(s, RATE_BYTES);
      KeccakFBits(s);
      SqueezeBytesBits(KeccakFLanes(s), n - RATE_BYTES);
      BytesToBitsConcat(head, tail);
      assert SqueezeBytes(s, n) == head + tail;
    }
  }

  function LaneByte(v: U64, t: nat): Byte { Shr64(v, 8 * t) % 256 }

  function LaneBytes(v: U64, k: nat): (b: seq<Byte>)
    requires k <= 8
    ensures |b| == k
  {
    seq(k, t requires 0 <= t < k => LaneByte(v, t))
  }

  lemma StateBytesLane(s: Lanes, i: nat, k: nat)
    requires i < 25 && k <= 8
    ensures StateBytes(s, 8 * i + k) == StateBytes(s, 8 * i) + LaneBytes(s[i], k)
  {
    forall t | 0 <= t < k ensures StateByte(s, 8 * i + t) == LaneByte(s[i], t) {
      assert (8 * i + t) / 8 == i && (8 * i + t) % 8 == t;
    }
  }

  /** The inner loop: up to eight bytes of one lane, low byte first, stopping at n in all. */
  method EmitLane(v: U64, out0: seq<Byte>, n: nat) returns (out: seq<Byte>)
    requires |out0| <= n
    ensures out == out0 + LaneBytes(v, if n - |out0| < 8 then n - |out0| else 8)
  {
    out := out0;
    var lane := v;
    var j := 0;
    while j < 8
      invariant 0 <= j <= 8 && |out| == |out0| + j <= n
      invariant lane == Shr64(v, 8 * j)
      invariant out == out0 + LaneBytes(v, j)
    {
      if |out| >= n { break; }
      out := out + [lane % 256];
      ShrShr(v, 8 * j, 8);
      lane := Shr64(lane, 8);
      j := j + 1;
    }
  }

  /** The outer loop over the lanes of the rate. */
  method EmitBlock(state: array<U64>, out0: seq<Byte>, n: nat) returns (out: seq<Byte>)
    requires state.Length == 25 && |out0| < n
    ensures out == out0 + StateBytes(state[..], if n - |out0| < RATE_BYTES then n - |out0| else RATE_BYTES)
  {
    hide StateBytes, LaneBytes;
    out := out0;
    assert StateBytes(state[..], 0) == [];
    var i := 0;
    while i < 17
      invariant 0 <= i <= 17 && |out| == |out0| + 8 * i <= n
      invariant i < 17 ==> |out| < n
      invariant out == out0 + StateBytes(state[..], 8 * i)
    {
      StateBytesLane(state[..], i, if n - |out| < 8 then n - |out| else 8);
      out := EmitLane(state[i], out, n);
      if |out| >= n { break; }
      i := i + 1;
    }
  }

  /** The message blocks absorbed, and the bytes left over. */
  method AbsorbWhole(input: seq<Byte>, state: array<U64>, ghost tail: seq<Byte>) returns (offset: nat)
    requires state.Length == 25 && |tail| == RATE_BYTES
    modifies state
    ensures offset == |input| - |input| % RATE_BYTES
    ensures AbsorbLanes(state[..], tail) == AbsorbLanes(old(state[..]), input[..offset] + tail)
  {
    hide KeccakFLanes, XorLanes;
    ghost var zero: Lanes := state[..];
    ghost var n := |input| - |input| % RATE_BYTES;
    offset := 0;
    while offset + RATE_BYTES <= |input|
      invariant offset % RATE_BYTES == 0 && offset <= n
      invariant AbsorbLanes(state[..], input[offset..n] + tail) == AbsorbLanes(zero, input[..n] + tail)
    {
      var block := input[offset..offset + RATE_BYTES];
      AbsorbStep(state[..], block, input[offset + RATE_BYTES..n] + tail);
      assert block + (input[offset + RATE_BYTES..n] + tail) == input[offset..n] + tail;
      AbsorbBlock(state, block);
      KeccakFInPlace(state);
      offset := offset + RATE_BYTES;
    }
    assert offset == n && input[offset..n] + tail == tail;
  }

  method AbsorbAll(input: seq<Byte>) returns (state: array<U64>)
    ensures fresh(state) && state.Length == 25
    ensures BitsOf(state[..]) == Absorb(Zeros(1600), BytesToBits(Padded(input)))
  {
    hide KeccakFLanes, KeccakF, XorLanes, BitsOf, FinalBlock;
    state := new U64[25](_ => 0);
    ghost var zero: Lanes := state[..];
    ghost var tail := FinalBlock(input[|input| - |input| % RATE_BYTES..]);
    var offset := AbsorbWhole(input, state, tail);
    var last := LastBlock(input[offset..]);
    AbsorbStep(state[..], last, []);
    assert last + [] == tail;
    AbsorbBlock(state, last);
    KeccakFInPlace(state);
    AbsorbLanesBits(zero, Padded(input));
    ZeroBits(zero);
  }

  lemma AbsorbStep(s: Lanes, block: seq<Byte>, rest: seq<Byte>)
    requires |block| == RATE_BYTES
    ensures AbsorbLanes(s, block + rest) == AbsorbLanes(KeccakFLanes(XorLanes(s, block, 17)), rest)
  {
    hide KeccakFLanes, KeccakF;
    assert (block + rest)[..RATE_BYTES] == block && (block + rest)[RATE_BYTES..] == rest;
  }

  /** The remaining bytes, the domain byte, zeros up to the rate, and the final bit. */
  method LastBlock(rem: seq<Byte>) returns (last: seq<Byte>)
    requires |rem| < RATE_BYTES
    ensures last == FinalBlock(rem)
  {
    last := rem + [0x1F];
    while |last| < RATE_BYTES
      invariant |rem| < |last| <= RATE_BYTES
      invariant last == rem + [0x1F] + seq(|last| - |rem| - 1, i => 0)
    {
      last := last + [0];
    }
    last := last[RATE_BYTES - 1 := OrTop(last[RATE_BYTES - 1])];
  }

  lemma ZeroBits(zero: Lanes)
    requires forall i :: 0 <= i < 25 ==> zero[i] == 0
    ensures BitsOf(zero) == Zeros(1600)
  {
    forall k | 0 <= k < 1600 ensures BitsOf(zero)[k] == Zeros(1600)[k] { BitZero(k % 64); }
  }

  method SqueezeAll(state: array<U64>, n: nat) returns (out: seq<Byte>)
    requires state.Length == 25
    modifies state
    ensures out == SqueezeBytes(old(state[..]), n)
  {
    hide KeccakFLanes, KeccakF;
    ghost var s0: Lanes := state[..];
    out := [];
    while |out| < n
      invariant |out| <= n
      invariant out + SqueezeBytes(state[..], n - |out|) == SqueezeBytes(s0, n)
      decreases n - |out|
    {
      ghost var before := out;
      out := EmitBlock(state, out, n);
      SqueezeStep(state[..], before, out, n);
      if |out| < n { KeccakFInPlace(state); }
    }
  }

  lemma SqueezeStep(s: Lanes, before: seq<Byte>, out: seq<Byte>, n: nat)
    requires |before| < n
    requires out == before + StateBytes(s, if n - |before| < RATE_BYTES then n - |before| else RATE_BYTES)
    ensures |out| < n ==>
              out + SqueezeBytes(KeccakFLanes(s), n - |out|) == before + SqueezeBytes(s, n - |before|)
    ensures |out| == n ==> out == before + SqueezeBytes(s, n - |before|)
  {
    hide KeccakFLanes, KeccakF;
  }

  /** The whole digest is SHAKE256 of the standard, for every input and output length. */
  method Digest(input: seq<Byte>, outputLength: nat) returns (out: seq<Byte>)
    ensures |out| == outputLength
    ensures BytesToBits(out) == Keccak.Shake256(BytesToBits(input), 8 * outputLength)
  {
    hide KeccakFLanes, KeccakF;
    var state := AbsorbAll(input);
    ghost var s0: Lanes := state[..];
    out := SqueezeAll(state, outputLength);
    SqueezeBytesBits(s0, outputLength);
    PaddedBits(input);
  }
}
