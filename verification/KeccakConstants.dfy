/** The table of round constants is the output of the linear feedback shift register of
    FIPS 202, algorithm 5. */
module KeccakConstants {
  import opened Bits
  import opened Words
  import opened Keccak
  import opened KeccakLanes

  const T := true
  const F := false

  function One(b: bool): nat { if b then 1 else 0 }

  /** The seven bits rc(7 ir), ..., rc(6 + 7 ir) of one round. */
  datatype Seven = Seven(c0: bool, c1: bool, c2: bool, c3: bool, c4: bool, c5: bool, c6: bool)

  /** The word whose bit 2^j - 1 is bit j of c. */
  function Spread(c: Seven): nat {
    One(c.c0) + 2 * (One(c.c1) + 4 * (One(c.c2) + 16 * (One(c.c3) + 256 * SpreadHigh(c))))
  }

  function SpreadHigh(c: Seven): nat {
    One(c.c4) + 0x1_0000 * (One(c.c5) + 0x1_0000_0000 * One(c.c6))
  }

  /** A low digit below 2, then g - 1 zero bits, then rest. */
  lemma BitNest(b: bool, g: nat, rest: nat, z: nat)
    requires g >= 1
    ensures Bit(One(b) + Pow2(g) * rest, z) ==
            if z == 0 then b else if z < g then false else Bit(rest, z - g)
  {
    assert Pow2(g) == 2 * Pow2(g - 1);
    BitConcat(One(b), rest, g, z);
    BitDigit(b, z);
  }

  lemma BitDigit(b: bool, z: nat)
    ensures Bit(One(b), z) == (z == 0 && b)
  {
    if z > 0 { BitZero(z - 1); }
  }

  lemma SpreadHighBit(c: Seven, z: nat)
    requires z < 49
    ensures Bit(SpreadHigh(c), z) == if z == 0 then c.c4 else if z == 16 then c.c5 else if z == 48 then c.c6 else false
  {
    hide Bit, One;
    Pow2Values();
    var n6 := One(c.c6);
    var n5 := One(c.c5) + 0x1_0000_0000 * n6;
    BitNest(c.c4, 16, n5, z);
    if z >= 16 { BitNest(c.c5, 32, n6, z - 16); }
    if z >= 48 { BitDigit(c.c6, z - 48); }
  }

  function SpreadMiddle(c: Seven): nat { One(c.c2) + 16 * (One(c.c3) + 256 * SpreadHigh(c)) }

  lemma SpreadMiddleBit(c: Seven, z: nat)
    requires z < 61
    ensures Bit(SpreadMiddle(c), z) ==
            if z == 0 then c.c2 else if z == 4 then c.c3 else if z < 12 then false else Bit(SpreadHigh(c), z - 12)
  {
    hide Bit, One, SpreadHigh;
    Pow2Values();
    assert Pow2(4) == 16;
    var n4 := SpreadHigh(c);
    BitNest(c.c2, 4, One(c.c3) + 256 * n4, z);
    if z >= 4 { BitNest(c.c3, 8, n4, z - 4); }
  }

  lemma SpreadBit(c: Seven, z: nat)
    requires z < 64
    ensures Bit(Spread(c), z) ==
            if z == 0 then c.c0 else if z == 1 then c.c1 else if z == 3 then c.c2 else if z == 7 then c.c3
            else if z == 15 then c.c4 else if z == 31 then c.c5 else if z == 63 then c.c6 else false
  {
    hide Bit, One, SpreadHigh;
    assert Pow2(1) == 2 && Pow2(2) == 4;
    var n2 := SpreadMiddle(c);
    BitNest(c.c0, 1, One(c.c1) + 4 * n2, z);
    if z >= 1 { BitNest(c.c1, 2, n2, z - 1); }
    if z >= 3 { SpreadMiddleBit(c, z - 3); }
    if z >= 15 { SpreadHighBit(c, z - 15); }
  }

  /** Seven turns of the register and the bits it shows. */
  function After7(r: Lfsr): Lfsr {
    LfsrStep(LfsrStep(LfsrStep(LfsrStep(LfsrStep(LfsrStep(LfsrStep(r)))))))
  }

  function Shown7(r: Lfsr): Seven {
    var r1 := LfsrStep(r);
    var r2 := LfsrStep(r1);
    var r3 := LfsrStep(r2);
    var r4 := LfsrStep(r3);
    var r5 := LfsrStep(r4);
    var r6 := LfsrStep(r5);
    Seven(r.r0, r1.r0, r2.r0, r3.r0, r4.r0, r5.r0, r6.r0)
  }

  function RcBits(ir: nat): Seven {
    Seven(Rc(7 * ir), Rc(1 + 7 * ir), Rc(2 + 7 * ir), Rc(3 + 7 * ir), Rc(4 + 7 * ir), Rc(5 + 7 * ir), Rc(6 + 7 * ir))
  }

  lemma Turn(n: nat, r: Lfsr)
    requires n < 254 && LfsrAfter(n) == r
    ensures Rc(n) == r.r0 && LfsrAfter(n + 1) == LfsrStep(r)
  {
    assert n % 255 == n;
  }

  lemma Turn7(n: nat, r: Lfsr) returns (c: Seven)
    requires n + 7 < 254 && LfsrAfter(n) == r
    ensures c == Shown7(r) && LfsrAfter(n + 7) == After7(r)
    ensures c == Seven(Rc(n), Rc(1 + n), Rc(2 + n), Rc(3 + n), Rc(4 + n), Rc(5 + n), Rc(6 + n))
  {
    c := Shown7(r);
    var r1 := LfsrStep(r);
    var r2 := LfsrStep(r1);
    var r3 := LfsrStep(r2);
    var r4 := LfsrStep(r3);
    var r5 := LfsrStep(r4);
    var r6 := LfsrStep(r5);
    Turn(n, r);
    Turn(n + 1, r1);
    Turn(n + 2, r2);
    Turn(n + 3, r3);
    Turn(n + 4, r4);
    Turn(n + 5, r5);
    Turn(n + 6, r6);
  }

  /** The register before each round. */
  function Register(ir: nat): Lfsr
    requires ir < 24
  {
    match ir
    case 0 => Lfsr(T, F, F, F, F, F, F, F)
    case 1 => Lfsr(F, F, F, F, F, F, F, T)
    case 2 => Lfsr(F, F, F, T, T, F, T, T)
    case 3 => Lfsr(F, T, F, T, T, F, F, F)
    case 4 => Lfsr(T, T, T, T, T, F, T, T)
    case 5 => Lfsr(T, F, F, T, F, F, F, F)
    case 6 => Lfsr(T, F, T, F, T, T, F, F)
    case 7 => Lfsr(T, T, T, T, F, F, T, F)
    case 8 => Lfsr(F, T, F, T, F, F, T, T)
    case 9 => Lfsr(F, F, F, F, T, T, T, F)
    case 10 => Lfsr(T, F, F, F, F, F, T, F)
    case 11 => Lfsr(F, F, T, T, F, T, T, T)
    case 12 => Lfsr(T, F, T, F, T, F, T, T)
    case 13 => Lfsr(T, F, T, T, F, F, T, T)
    case 14 => Lfsr(T, T, F, F, F, T, T, F)
    case 15 => Lfsr(T, T, F, T, F, T, F, T)
    case 16 => Lfsr(F, T, F, T, F, T, F, T)
    case 17 => Lfsr(F, T, F, T, F, T, F, F)
    case 18 => Lfsr(F, T, F, F, T, T, T, T)
    case 19 => Lfsr(F, F, F, T, F, T, T, T)
    case 20 => Lfsr(T, T, T, F, T, T, F, F)
    case 21 => Lfsr(F, T, T, T, T, T, F, F)
    case 22 => Lfsr(T, T, F, T, F, F, F, F)
    case _ => Lfsr(F, F, T, F, F, F, T, F)
  }

  /** The table is consistent from one round to the next. */
  lemma TableStep(ir: nat)
    requires ir < 24
    ensures Spread(Shown7(Register(ir))) == RoundConstant(ir)
    ensures ir < 23 ==> After7(Register(ir)) == Register(ir + 1)
  {
    if ir < 6 { TableStep0(ir); } else if ir < 12 { TableStep6(ir); }
    else if ir < 18 { TableStep12(ir); } else { TableStep18(ir); }
  }

  lemma TableStep0(ir: nat)
    requires 0 <= ir < 6
    ensures Spread(Shown7(Register(ir))) == RoundConstant(ir)
    ensures ir < 23 ==> After7(Register(ir)) == Register(ir + 1)
  {
    if ir == 0 {
    } else if ir == 1 {
    } else if ir == 2 {
    } else if ir == 3 {
    } else if ir == 4 {
    } else {
      assert ir == 5;
    }
  }

  lemma TableStep6(ir: nat)
    requires 6 <= ir < 12
    ensures Spread(Shown7(Register(ir))) == RoundConstant(ir)
    ensures ir < 23 ==> After7(Register(ir)) == Register(ir + 1)
  {
    if ir == 6 {
    } else if ir == 7 {
    } else if ir == 8 {
    } else if ir == 9 {
    } else if ir == 10 {
    } else {
      assert ir == 11;
    }
  }

  lemma TableStep12(ir: nat)
    requires 12 <= ir < 18
    ensures Spread(Shown7(Register(ir))) == RoundConstant(ir)
    ensures ir < 23 ==> After7(Register(ir)) == Register(ir + 1)
  {
    if ir == 12 {
    } else if ir == 13 {
    } else if ir == 14 {
    } else if ir == 15 {
    } else if ir == 16 {
    } else {
      assert ir == 17;
    }
  }

  lemma TableStep18(ir: nat)
    requires 18 <= ir < 24
    ensures Spread(Shown7(Register(ir))) == RoundConstant(ir)
    ensures ir < 23 ==> After7(Register(ir)) == Register(ir + 1)
  {
    if ir == 18 {
    } else if ir == 19 {
    } else if ir == 20 {
    } else if ir == 21 {
    } else if ir == 22 {
    } else {
      assert ir == 23;
    }
  }

  /** r is the register before round ir, and its bits spread to the round's constant. */
  ghost predicate RegisterAt(ir: nat, r: Lfsr)
  {
    LfsrAfter(7 * ir) == r
  }

  lemma NextRegister(ir: nat, r: Lfsr, next: Lfsr)
    requires ir < 24 && RegisterAt(ir, r) && After7(r) == next
    ensures RegisterAt(ir + 1, next) && RcBits(ir) == Shown7(r)
  {
    var c := Turn7(7 * ir, r);
  }

  lemma {:induction false} RegisterIs(ir: nat)
    requires ir < 24
    ensures RegisterAt(ir, Register(ir))
  {
    if ir == 0 {
      assert LfsrAfter(0) == Lfsr(T, F, F, F, F, F, F, F);
    } else {
      RegisterIs(ir - 1);
      RegisterAdvance(ir - 1, Register(ir - 1), Register(ir));
    }
  }

  lemma RegisterAdvance(ir: nat, r: Lfsr, next: Lfsr)
    requires ir < 23 && r == Register(ir) && next == Register(ir + 1) && RegisterAt(ir, r)
    ensures RegisterAt(ir + 1, next)
  {
    TableStep(ir);
    NextRegister(ir, r, next);
  }

  lemma RoundConstantTable(ir: nat)
    requires ir < 24
    ensures RoundConstant(ir) == Spread(RcBits(ir))
  {
    RegisterIs(ir);
    TableStep(ir);
    var r := Register(ir);
    NextRegister(ir, r, After7(r));
  }

  /** Bit z of the round-ir constant is the bit algorithm 5 puts there. */
  lemma RoundConstantBits(ir: nat, z: nat)
    requires ir < 24 && z < 64
    ensures Bit(RoundConstant(ir), z) == RoundConstantBit(ir, z)
  {
    RoundConstantTable(ir);
    SpreadBit(RcBits(ir), z);
  }
}
