/** Keccak-f[1600] as the Swift code runs it, on 25 lanes of 64 bits in an array, proved
    to be the bit-level permutation of module Keccak. */
module KeccakLanes {
  import opened Bits
  import opened Words
  import opened Keccak

  type Lanes = a: seq<U64> | |a| == 25 witness seq(25, i => 0)

  /** The table of round constants. */
  function RoundConstant(round: nat): U64
    requires round < 24
  {
    match round
    case 0 => 0x0000000000000001
    case 1 => 0x0000000000008082
    case 2 => 0x800000000000808A
    case 3 => 0x8000000080008000
    case 4 => 0x000000000000808B
    case 5 => 0x0000000080000001
    case 6 => 0x8000000080008081
    case 7 => 0x8000000000008009
    case 8 => 0x000000000000008A
    case 9 => 0x0000000000000088
    case 10 => 0x0000000080008009
    case 11 => 0x000000008000000A
    case 12 => 0x000000008000808B
    case 13 => 0x800000000000008B
    case 14 => 0x8000000000008089
    case 15 => 0x8000000000008003
    case 16 => 0x8000000000008002
    case 17 => 0x8000000000000080
    case 18 => 0x000000000000800A
    case 19 => 0x800000008000000A
    case 20 => 0x8000000080008081
    case 21 => 0x8000000000008080
    case 22 => 0x0000000080000001
    case _ => 0x8000000080008008
  }

  /** The table of rotation offsets, lane (x, y) at x + 5y. */
  function RhoTable(i: nat): nat
    requires i < 25
    ensures RhoTable(i) < 64
  {
    match i
    case 0 => 0  case 1 => 1  case 2 => 62  case 3 => 28  case 4 => 27
    case 5 => 36  case 6 => 44  case 7 => 6  case 8 => 55  case 9 => 20
    case 10 => 3  case 11 => 10  case 12 => 43  case 13 => 25  case 14 => 39
    case 15 => 41  case 16 => 45  case 17 => 15  case 18 => 21  case 19 => 8
    case 20 => 18  case 21 => 2  case 22 => 61  case 23 => 56  case _ => 14
  }

  /** The bit string a lane array stands for. */
  function BitsOf(a: Lanes): BitState {
    seq(1600, i requires 0 <= i < 1600 => Bit(a[i / 64], i % 64))
  }

  lemma BitOfLane(a: Lanes, x: nat, y: nat, z: nat)
    requires x < 5 && y < 5 && z < 64
    ensures A(BitsOf(a), x, y, z) == Bit(a[x + 5 * y], z)
  {
    var i := 64 * (5 * y + x) + z;
    assert i / 64 == 5 * y + x && i % 64 == z;
  }

  lemma Coordinates(i: nat)
    requires i < 1600
    ensures i / 64 % 5 < 5 && i / 320 < 5 && i / 64 == i / 64 % 5 + 5 * (i / 320)
  {
  }

  // ----- the steps on lanes -----

  function ColumnParity(a: Lanes, x: nat): U64
    requires x < 5
  {
    Xor64(Xor64(Xor64(Xor64(a[x], a[x + 5]), a[x + 10]), a[x + 15]), a[x + 20])
  }

  function ThetaEffect(a: Lanes, x: nat): U64
    requires x < 5
  {
    Xor64(ColumnParity(a, (x + 4) % 5), Rotl64(ColumnParity(a, (x + 1) % 5), 1))
  }

  function ThetaLane(a: Lanes, i: nat): U64
    requires i < 25
  {
    Xor64(a[i], ThetaEffect(a, i % 5))
  }

  function ThetaLanes(a: Lanes): Lanes { seq(25, i requires 0 <= i < 25 => ThetaLane(a, i)) }

  /** Where rho-and-pi puts lane (x, y), and which lane it takes place i from. */
  function Dest(x: nat, y: nat): nat { y + 5 * ((2 * x + 3 * y) % 5) }

  function Source(i: nat): nat { (i % 5 + 3 * (i / 5)) % 5 + 5 * (i % 5) }

  /** The scatter is a bijection on the 25 lanes: every lane of b is written exactly once. */
  lemma DestBijective(x: nat, y: nat, i: nat)
    requires x < 5 && y < 5 && i < 25
    ensures Dest(x, y) < 25 && Source(i) < 25
    ensures Source(Dest(x, y)) == x + 5 * y
    ensures Dest(Source(i) % 5, Source(i) / 5) == i
  {
    DestThenSource(x, y);
    SourceThenDest(i);
  }

  /** x + 5y encodes the pair (x, y). */
  lemma LanePlace(x: nat, y: nat)
    requires x < 5 && y < 5
    ensures (x + 5 * y) % 5 == x && (x + 5 * y) / 5 == y && x + 5 * y < 25
  {
  }

  lemma DestThenSource(x: nat, y: nat)
    requires x < 5 && y < 5
    ensures Dest(x, y) < 25 && Source(Dest(x, y)) == x + 5 * y
  {
    var q, m := (2 * x + 3 * y) / 5, (2 * x + 3 * y) % 5;
    LanePlace(y, m);
    ModPlus(x, x + 2 * y - 3 * q);
    assert y + 3 * m == x + 5 * (x + 2 * y - 3 * q);
  }

  lemma SourceThenDest(i: nat)
    requires i < 25
    ensures Source(i) < 25 && Dest(Source(i) % 5, Source(i) / 5) == i
  {
    var x, y := i % 5, i / 5;
    var q, s := (x + 3 * y) / 5, (x + 3 * y) % 5;
    LanePlace(s, x);
    ModPlus(y, x + y - 2 * q);
    assert 2 * s + 3 * x == y + 5 * (x + y - 2 * q);
  }

  lemma ModPlus(y: nat, k: int)
    requires y < 5
    ensures (y + 5 * k) % 5 == y
  {
  }

  function RhoLane(a: Lanes, i: nat): U64
    requires i < 25
  {
    Rotl64(a[i], RhoTable(i))
  }

  function RhoPiLanes(a: Lanes): Lanes { seq(25, i requires 0 <= i < 25 => RhoLane(a, Source(i))) }

  function ChiLane(b: Lanes, x: nat, y: nat): U64
    requires x < 5 && y < 5
  {
    Xor64(b[x + 5 * y], And64(Not64(b[(x + 1) % 5 + 5 * y]), b[(x + 2) % 5 + 5 * y]))
  }

  function ChiLanes(b: Lanes): Lanes { seq(25, i requires 0 <= i < 25 => ChiLane(b, i % 5, i / 5)) }

  function IotaLanes(a: Lanes, round: nat): Lanes
    requires round < 24
  {
    a[0 := Xor64(a[0], RoundConstant(round))]
  }

  function RoundLanes(a: Lanes, round: nat): Lanes
    requires round < 24
  {
    IotaLanes(ChiLanes(RhoPiLanes(ThetaLanes(a))), round)
  }

  function RoundsLanes(a: Lanes, n: nat): Lanes
    requires n <= NR
  {
    if n == 0 then a else RoundLanes(RoundsLanes(a, n - 1), n - 1)
  }

  function KeccakFLanes(a: Lanes): Lanes { RoundsLanes(a, NR) }

  // ----- each step is the step of the standard -----

  lemma ThetaBits(a: Lanes)
    ensures BitsOf(ThetaLanes(a)) == Theta(BitsOf(a))
  {
    hide ThetaLane, ThetaAt, Bit;
    forall i | 0 <= i < 1600 ensures BitsOf(ThetaLanes(a))[i] == Theta(BitsOf(a))[i] {
      Coordinates(i);
      ThetaBit(a, i / 64 % 5, i / 320, i % 64);
    }
  }

  lemma ColumnBit(a: Lanes, x: nat, z: nat)
    requires x < 5 && z < 64
    ensures Bit(ColumnParity(a, x), z) == ThetaC(BitsOf(a), x, z)
  {
    var p1 := Xor64(a[x], a[x + 5]);
    var p2 := Xor64(p1, a[x + 10]);
    var p3 := Xor64(p2, a[x + 15]);
    BitXor(a[x], a[x + 5], z);
    BitXor(p1, a[x + 10], z);
    BitXor(p2, a[x + 15], z);
    BitXor(p3, a[x + 20], z);
    BitOfLane(a, x, 0, z);
    BitOfLane(a, x, 1, z);
    BitOfLane(a, x, 2, z);
    BitOfLane(a, x, 3, z);
    BitOfLane(a, x, 4, z);
  }

  lemma ThetaBit(a: Lanes, x: nat, y: nat, z: nat)
    requires x < 5 && y < 5 && z < 64
    ensures Bit(ThetaLanes(a)[x + 5 * y], z) == ThetaAt(BitsOf(a), x, y, z)
  {
    var c1, c4 := ColumnParity(a, (x + 1) % 5), ColumnParity(a, (x + 4) % 5);
    BitXor(a[x + 5 * y], ThetaEffect(a, x), z);
    BitXor(c4, Rotl64(c1, 1), z);
    BitRotl64(c1, 1, z);
    ColumnBit(a, (x + 4) % 5, z);
    ColumnBit(a, (x + 1) % 5, (z + 63) % 64);
    BitOfLane(a, x, y, z);
    LanePlace(x, y);
  }

  /** The table of rotation offsets is the walk of section 3.2.2 modulo the lane size. */
  lemma RhoOffsets(x: nat, y: nat)
    requires x < 5 && y < 5
    ensures RhoTable(x + 5 * y) == RhoOffset(x, y) % 64
  {
    hide Walk, VisitFrom;
    WalkStart();
    if (x, y) != (0, 0) {
      var t := FirstVisit(x, y);
      RhoAtVisit(t);
    }
  }

  lemma RhoAtVisit(t: nat)
    requires t < 24
    ensures RhoTable(Walk(t).0 + 5 * Walk(t).1) == (t + 1) * (t + 2) / 2 % 64
  {
    if t < 8 { RhoEarly(t); } else if t < 16 { RhoMiddle(t); } else { RhoLate(t); }
  }

  lemma RhoEarly(t: nat)
    requires 0 <= t < 8
    ensures RhoTable(Walk(t).0 + 5 * Walk(t).1) == (t + 1) * (t + 2) / 2 % 64
  {
    hide Walk;
    WalkStart();
    if t == 0 {
      assert RhoTable(1 + 5 * 0) == 1 % 64;
    } else if t == 1 {
      assert RhoTable(0 + 5 * 2) == 3 % 64;
    } else if t == 2 {
      assert RhoTable(2 + 5 * 1) == 6 % 64;
    } else if t == 3 {
      assert RhoTable(1 + 5 * 2) == 10 % 64;
    } else if t == 4 {
      assert RhoTable(2 + 5 * 3) == 15 % 64;
    } else if t == 5 {
      assert RhoTable(3 + 5 * 3) == 21 % 64;
    } else if t == 6 {
      assert RhoTable(3 + 5 * 0) == 28 % 64;
    } else {
      assert RhoTable(0 + 5 * 1) == 36 % 64;
    }
  }

  lemma RhoMiddle(t: nat)
    requires 8 <= t < 16
    ensures RhoTable(Walk(t).0 + 5 * Walk(t).1) == (t + 1) * (t + 2) / 2 % 64
  {
    hide Walk;
    WalkStart();
    if t == 8 {
      assert RhoTable(1 + 5 * 3) == 45 % 64;
    } else if t == 9 {
      assert RhoTable(3 + 5 * 1) == 55 % 64;
    } else if t == 10 {
      assert RhoTable(1 + 5 * 4) == 66 % 64;
    } else if t == 11 {
      assert RhoTable(4 + 5 * 4) == 78 % 64;
    } else if t == 12 {
      assert RhoTable(4 + 5 * 0) == 91 % 64;
    } else if t == 13 {
      assert RhoTable(0 + 5 * 3) == 105 % 64;
    } else if t == 14 {
      assert RhoTable(3 + 5 * 4) == 120 % 64;
    } else {
      assert RhoTable(4 + 5 * 3) == 136 % 64;
    }
  }

  lemma RhoLate(t: nat)
    requires 16 <= t < 24
    ensures RhoTable(Walk(t).0 + 5 * Walk(t).1) == (t + 1) * (t + 2) / 2 % 64
  {
    hide Walk;
    WalkStart();
    if t == 16 {
      assert RhoTable(3 + 5 * 2) == 153 % 64;
    } else if t == 17 {
      assert RhoTable(2 + 5 * 2) == 171 % 64;
    } else if t == 18 {
      assert RhoTable(2 + 5 * 0) == 190 % 64;
    } else if t == 19 {
      assert RhoTable(0 + 5 * 4) == 210 % 64;
    } else if t == 20 {
      assert RhoTable(4 + 5 * 2) == 231 % 64;
    } else if t == 21 {
      assert RhoTable(2 + 5 * 4) == 253 % 64;
    } else if t == 22 {
      assert RhoTable(4 + 5 * 1) == 276 % 64;
    } else {
      assert RhoTable(1 + 5 * 1) == 300 % 64;
    }
  }

  lemma WalkStart()
    ensures Walk(0) == (1, 0) && Walk(1) == (0, 2) && Walk(2) == (2, 1) && Walk(3) == (1, 2)
    ensures Walk(4) == (2, 3) && Walk(5) == (3, 3) && Walk(6) == (3, 0) && Walk(7) == (0, 1)
    ensures Walk(8) == (1, 3) && Walk(9) == (3, 1) && Walk(10) == (1, 4) && Walk(11) == (4, 4)
    ensures Walk(12) == (4, 0) && Walk(13) == (0, 3) && Walk(14) == (3, 4) && Walk(15) == (4, 3)
    ensures Walk(16) == (3, 2) && Walk(17) == (2, 2) && Walk(18) == (2, 0) && Walk(19) == (0, 4)
    ensures Walk(20) == (4, 2) && Walk(21) == (2, 4) && Walk(22) == (4, 1) && Walk(23) == (1, 1)
  {
  }

  function VisitTime(x: nat, y: nat): nat
    requires x < 5 && y < 5
  {
    match x + 5 * y
    case 0 => 24  case 1 => 0  case 2 => 18  case 3 => 6  case 4 => 12
    case 5 => 7  case 6 => 23  case 7 => 2  case 8 => 9  case 9 => 22
    case 10 => 1  case 11 => 3  case 12 => 17  case 13 => 16  case 14 => 20
    case 15 => 13  case 16 => 8  case 17 => 4  case 18 => 5  case 19 => 15
    case 20 => 19  case 21 => 10  case 22 => 21  case 23 => 14  case _ => 11
  }

  lemma FirstVisit(x: nat, y: nat) returns (t: nat)
    requires x < 5 && y < 5 && (x, y) != (0, 0)
    ensures t == VisitFrom(x, y, 0) && t < 24 && Walk(t) == (x, y)
  {
    t := VisitTime(x, y);
    WalkStart();
    assert t < 24 && Walk(t) == (x, y);
    NoEarlierVisit(x, y, t);
    VisitFromReaches(x, y, 0, t);
  }

  lemma NoEarlierVisit(x: nat, y: nat, t: nat)
    requires x < 5 && y < 5 && (x, y) != (0, 0) && t == VisitTime(x, y)
    ensures forall u: nat :: u < t ==> Walk(u) != (x, y)
  {
    hide Walk;
    forall u: nat | u < t ensures Walk(u) != (x, y) { VisitedThen(u); }
  }

  lemma VisitedThen(u: nat)
    requires u < 24
    ensures VisitTime(Walk(u).0, Walk(u).1) == u
  {
    hide Walk;
    WalkStart();
  }

  lemma {:induction false} VisitFromReaches(x: nat, y: nat, u: nat, t: nat)
    requires u <= t < 24 && Walk(t) == (x, y) && forall v: nat :: u <= v < t ==> Walk(v) != (x, y)
    ensures VisitFrom(x, y, u) == t
    decreases t - u
  {
    if u < t { VisitFromReaches(x, y, u + 1, t); }
  }

  lemma RhoPiBits(a: Lanes)
    ensures BitsOf(RhoPiLanes(a)) == Pi(Rho(BitsOf(a)))
  {
    hide RhoLane, PiAt, Bit;
    forall i | 0 <= i < 1600 ensures BitsOf(RhoPiLanes(a))[i] == Pi(Rho(BitsOf(a)))[i] {
      Coordinates(i);
      RhoPiBit(a, i / 64 % 5, i / 320, i % 64);
    }
  }

  lemma RhoPiBit(a: Lanes, x: nat, y: nat, z: nat)
    requires x < 5 && y < 5 && z < 64
    ensures Bit(RhoPiLanes(a)[x + 5 * y], z) == PiAt(Rho(BitsOf(a)), x, y, z)
  {
    var u := (x + 3 * y) % 5;
    LanePlace(x, y);
    LanePlace(u, x);
    assert Source(x + 5 * y) == u + 5 * x;
    RhoBit(a, u, x, z);
    RhoElement(BitsOf(a), u, x, z);
    RhoPiElement(a, x, y);
  }

  lemma RhoPiElement(a: Lanes, x: nat, y: nat)
    requires x < 5 && y < 5
    ensures RhoPiLanes(a)[x + 5 * y] == RhoLane(a, (x + 3 * y) % 5 + 5 * x)
  {
    SourceAt(x, y);
    var i := x + 5 * y;
    assert RhoPiLanes(a)[i] == RhoLane(a, Source(i));
  }

  lemma SourceAt(x: nat, y: nat)
    requires x < 5 && y < 5
    ensures Source(x + 5 * y) == (x + 3 * y) % 5 + 5 * x
  {
    LanePlace(x, y);
  }

  lemma RhoElement(s: BitState, x: nat, y: nat, z: nat)
    requires x < 5 && y < 5 && z < 64
    ensures A(Rho(s), x, y, z) == RhoAt(s, x, y, z)
  {
    StepAt(x, y, z);
  }

  lemma RhoBit(a: Lanes, x: nat, y: nat, z: nat)
    requires x < 5 && y < 5 && z < 64
    ensures Bit(RhoLane(a, x + 5 * y), z) == RhoAt(BitsOf(a), x, y, z)
  {
    RhoOffsets(x, y);
    LanePlace(x, y);
    var n := RhoTable(x + 5 * y);
    BitRotl64(a[x + 5 * y], n, z);
    BitOfLane(a, x, y, (z + 64 - n) % 64);
  }

  lemma StepAt(x: nat, y: nat, z: nat)
    requires x < 5 && y < 5 && z < 64
    ensures var i := 64 * (5 * y + x) + z;
            i < 1600 && i / 64 % 5 == x && i / 320 == y && i % 64 == z
  {
    var i := 64 * (5 * y + x) + z;
    assert i / 64 == 5 * y + x && i % 64 == z;
  }

  lemma ChiBits(b: Lanes)
    ensures BitsOf(ChiLanes(b)) == Chi(BitsOf(b))
  {
    hide ChiLane, ChiAt, Bit;
    forall i | 0 <= i < 1600 ensures BitsOf(ChiLanes(b))[i] == Chi(BitsOf(b))[i] {
      Coordinates(i);
      ChiBit(b, i / 64 % 5, i / 320, i % 64);
    }
  }

  lemma ChiBit(b: Lanes, x: nat, y: nat, z: nat)
    requires x < 5 && y < 5 && z < 64
    ensures Bit(ChiLanes(b)[x + 5 * y], z) == ChiAt(BitsOf(b), x, y, z)
  {
    var k := x + 5 * y;
    LanePlace(x, y);
    var b1, b2 := b[(x + 1) % 5 + 5 * y], b[(x + 2) % 5 + 5 * y];
    BitXor(b[k], And64(Not64(b1), b2), z);
    BitAnd(Not64(b1), b2, z);
    BitNot64(b1, z);
    BitOfLane(b, x, y, z);
    BitOfLane(b, (x + 1) % 5, y, z);
    BitOfLane(b, (x + 2) % 5, y, z);
  }
}
