/** FIPS 202 on bit strings: the step mappings of section 3.2, Keccak-f[1600] of 3.3, the
    sponge of section 4 with pad10*1 of 5.1, and SHAKE256 of 6.2. Nothing here knows of
    lanes stored as machine words. */
module Keccak {
  import opened Bits

  /** A 1600-bit state; bit A[x, y, z] is at 64(5y + x) + z (section 3.1.2). */
  type BitState = s: seq<bool> | |s| == 1600 witness seq(1600, i => false)

  const RATE: nat := 1088
  const NR: nat := 24   // rounds of Keccak-f[1600]

  predicate A(s: BitState, x: nat, y: nat, z: nat)
    requires x < 5 && y < 5 && z < 64
  {
    s[64 * (5 * y + x) + z]
  }

  predicate X2(a: bool, b: bool) { a != b }

  // theta (3.2.1)

  predicate ThetaC(s: BitState, x: nat, z: nat)
    requires x < 5 && z < 64
  {
    X2(X2(X2(X2(A(s, x, 0, z), A(s, x, 1, z)), A(s, x, 2, z)), A(s, x, 3, z)), A(s, x, 4, z))
  }

  predicate ThetaD(s: BitState, x: nat, z: nat)
    requires x < 5 && z < 64
  {
    X2(ThetaC(s, (x + 4) % 5, z), ThetaC(s, (x + 1) % 5, (z + 63) % 64))
  }

  predicate ThetaAt(s: BitState, x: nat, y: nat, z: nat)
    requires x < 5 && y < 5 && z < 64
  {
    X2(A(s, x, y, z), ThetaD(s, x, z))
  }

  function Theta(s: BitState): BitState {
    seq(1600, i requires 0 <= i < 1600 => ThetaAt(s, i / 64 % 5, i / 320, i % 64))
  }

  // rho (3.2.2): the offset of lane (x, y) is (t+1)(t+2)/2 for the step t at which the
  // walk (1,0) -> (y, 2x+3y) -> ... visits it

  function Walk(t: nat): (p: (nat, nat))
    ensures p.0 < 5 && p.1 < 5
  {
    if t == 0 then (1, 0) else (Walk(t - 1).1, (2 * Walk(t - 1).0 + 3 * Walk(t - 1).1) % 5)
  }

  function VisitFrom(x: nat, y: nat, t: nat): nat
    decreases 24 - t
  {
    if t >= 24 || Walk(t) == (x, y) then t else VisitFrom(x, y, t + 1)
  }

  function RhoOffset(x: nat, y: nat): nat {
    if (x, y) == (0, 0) then 0
    else var t := VisitFrom(x, y, 0); (t + 1) * (t + 2) / 2
  }

  predicate RhoAt(s: BitState, x: nat, y: nat, z: nat)
    requires x < 5 && y < 5 && z < 64
  {
    A(s, x, y, (z + 64 - RhoOffset(x, y) % 64) % 64)
  }

  function Rho(s: BitState): BitState {
    seq(1600, i requires 0 <= i < 1600 => RhoAt(s, i / 64 % 5, i / 320, i % 64))
  }

  // pi (3.2.3)

  predicate PiAt(s: BitState, x: nat, y: nat, z: nat)
    requires x < 5 && y < 5 && z < 64
  {
    A(s, (x + 3 * y) % 5, x, z)
  }

  function Pi(s: BitState): BitState {
    seq(1600, i requires 0 <= i < 1600 => PiAt(s, i / 64 % 5, i / 320, i % 64))
  }

  // chi (3.2.4)

  predicate ChiAt(s: BitState, x: nat, y: nat, z: nat)
    requires x < 5 && y < 5 && z < 64
  {
    X2(A(s, x, y, z), X2(A(s, (x + 1) % 5, y, z), true) && A(s, (x + 2) % 5, y, z))
  }

  function Chi(s: BitState): BitState {
    seq(1600, i requires 0 <= i < 1600 => ChiAt(s, i / 64 % 5, i / 320, i % 64))
  }

  // iota (3.2.5)

  datatype Lfsr = Lfsr(r0: bool, r1: bool, r2: bool, r3: bool, r4: bool, r5: bool, r6: bool, r7: bool)

  /** One turn of the loop of algorithm 5. */
  function LfsrStep(r: Lfsr): Lfsr {
    Lfsr(r.r7, r.r0, r.r1, r.r2, X2(r.r3, r.r7), X2(r.r4, r.r7), X2(r.r5, r.r7), r.r6)
  }

  function LfsrAfter(n: nat): Lfsr {
    if n == 0 then Lfsr(true, false, false, false, false, false, false, false)
    else LfsrStep(LfsrAfter(n - 1))
  }

  predicate Rc(t: nat) { LfsrAfter(t % 255).r0 }

  /** Bit z of the round constant of round ir: rc(j + 7 ir) at the places 2^j - 1. */
  predicate RoundConstantBit(ir: nat, z: nat) {
    if z == 0 then Rc(7 * ir)
    else if z == 1 then Rc(1 + 7 * ir)
    else if z == 3 then Rc(2 + 7 * ir)
    else if z == 7 then Rc(3 + 7 * ir)
    else if z == 15 then Rc(4 + 7 * ir)
    else if z == 31 then Rc(5 + 7 * ir)
    else if z == 63 then Rc(6 + 7 * ir)
    else false
  }

  predicate IotaAt(s: BitState, ir: nat, x: nat, y: nat, z: nat)
    requires x < 5 && y < 5 && z < 64
  {
    if x == 0 && y == 0 then X2(A(s, x, y, z), RoundConstantBit(ir, z)) else A(s, x, y, z)
  }

  function Iota(s: BitState, ir: nat): BitState {
    seq(1600, i requires 0 <= i < 1600 => IotaAt(s, ir, i / 64 % 5, i / 320, i % 64))
  }

  function Rnd(s: BitState, ir: nat): BitState { Iota(Chi(Pi(Rho(Theta(s)))), ir) }

  /** Rounds 0 .. n-1. */
  function Rounds(s: BitState, n: nat): BitState {
    if n == 0 then s else Rnd(Rounds(s, n - 1), n - 1)
  }

  function KeccakF(s: BitState): BitState { Rounds(s, NR) }

  // ----- sponge -----

  function Zeros(n: nat): (z: seq<bool>)
    ensures |z| == n
  {
    seq(n, i => false)
  }

  /** The number j = (-m - 2) mod x of zeros in pad10*1. */
  function PadZeros(x: nat, m: nat): (j: nat)
    requires x > 0
    ensures (m + 2 + j) % x == 0
  {
    var low: int := 0 - m - 2;
    var q, j := low / x, low % x;
    assert low == x * q + j;
    PadTotal(x, m, q, j);
    j
  }

  lemma PadTotal(x: nat, m: nat, q: int, j: nat)
    requires x > 0 && j < x && 0 - m - 2 == x * q + j
    ensures (m + 2 + j) % x == 0
  {
    if q >= 0 { MulMono(x, 0, q); }
    assert m + 2 + j == x * (-q) by { assert x * (-q) == -(x * q); }
    DivUnique(m + 2 + j, x, -q, 0);
  }

  function Pad101(x: nat, m: nat): (p: seq<bool>)
    requires x > 0
    ensures (m + |p|) % x == 0
  {
    [true] + Zeros(PadZeros(x, m)) + [true]
  }

  /** S xor (P || 0^c). */
  function XorBlock(s: BitState, p: seq<bool>): BitState
    requires |p| == RATE
  {
    seq(1600, i requires 0 <= i < 1600 => if i < RATE then X2(s[i], p[i]) else s[i])
  }

  function Absorb(s: BitState, p: seq<bool>): BitState
    decreases |p|
  {
    if |p| < RATE then s else Absorb(KeccakF(XorBlock(s, p[..RATE])), p[RATE..])
  }

  function Squeeze(s: BitState, d: nat): (z: seq<bool>)
    ensures |z| == d
    decreases d
  {
    if d <= RATE then s[..d] else s[..RATE] + Squeeze(KeccakF(s), d - RATE)
  }

  function Sponge(n: seq<bool>, d: nat): (z: seq<bool>)
    ensures |z| == d
  {
    Squeeze(Absorb(Zeros(1600), n + Pad101(RATE, |n|)), d)
  }

  function Shake256(m: seq<bool>, d: nat): (z: seq<bool>)
    ensures |z| == d
  {
    Sponge(m + [true, true, true, true], d)
  }

  /** A shorter digest is a prefix of a longer one. */
  lemma ShorterIsPrefix(m: seq<bool>, d: nat, e: nat)
    requires d <= e
    ensures Shake256(m, d) == Shake256(m, e)[..d]
  {
    var n := m + [true, true, true, true];
    SqueezePrefix(Absorb(Zeros(1600), n + Pad101(RATE, |n|)), d, e);
  }

  lemma {:induction false} SqueezePrefix(s: BitState, d: nat, e: nat)
    requires d <= e
    ensures Squeeze(s, d) == Squeeze(s, e)[..d]
    decreases d
  {
    if d > RATE { SqueezePrefix(KeccakF(s), d - RATE, e - RATE); }
  }
}
