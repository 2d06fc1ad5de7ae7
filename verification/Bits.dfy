/** Bit-level reasoning about natural numbers: the model of Python's unbounded
    integers under `<<`, `|`, `&`, `^`, and of Swift's fixed-width words once an
    explicit `% Pow2(width)` is written. */
module Bits {

  function Pow2(n: nat): (r: nat)
    ensures r >= 1
  {
    if n == 0 then 1 else 2 * Pow2(n - 1)
  }

  /** The bit of weight 2^i in x. */
  predicate Bit(x: nat, i: nat)
  {
    if i == 0 then x % 2 == 1 else Bit(x / 2, i - 1)
  }

  /** x >> k, one place at a time. */
  function Shr(x: nat, k: nat): nat {
    if k == 0 then x else Shr(x / 2, k - 1)
  }

  function Or(x: nat, y: nat): nat
    decreases x + y
  {
    if x == 0 && y == 0 then 0
    else 2 * Or(x / 2, y / 2) + (if x % 2 == 1 || y % 2 == 1 then 1 else 0)
  }

  function And(x: nat, y: nat): nat
    decreases x + y
  {
    if x == 0 && y == 0 then 0
    else 2 * And(x / 2, y / 2) + (if x % 2 == 1 && y % 2 == 1 then 1 else 0)
  }

  function Xor(x: nat, y: nat): nat
    decreases x + y
  {
    if x == 0 && y == 0 then 0
    else 2 * Xor(x / 2, y / 2) + (if x % 2 != y % 2 then 1 else 0)
  }

  lemma {:induction false} BitOr(x: nat, y: nat, i: nat)
    ensures Bit(Or(x, y), i) == (Bit(x, i) || Bit(y, i))
    decreases i
  {
    if x == 0 && y == 0 {
      BitZero(i);
    } else if i > 0 {
      BitOr(x / 2, y / 2, i - 1);
    }
  }

  lemma {:induction false} BitAnd(x: nat, y: nat, i: nat)
    ensures Bit(And(x, y), i) == (Bit(x, i) && Bit(y, i))
    decreases i
  {
    if x == 0 && y == 0 {
      BitZero(i);
    } else if i > 0 {
      BitAnd(x / 2, y / 2, i - 1);
    }
  }

  lemma {:induction false} BitXor(x: nat, y: nat, i: nat)
    ensures Bit(Xor(x, y), i) == (Bit(x, i) != Bit(y, i))
    decreases i
  {
    if x == 0 && y == 0 {
      BitZero(i);
    } else if i > 0 {
      BitXor(x / 2, y / 2, i - 1);
    }
  }

  lemma {:induction false} BitZero(i: nat)
    ensures !Bit(0, i)
  {
    if i > 0 { BitZero(i - 1); }
  }

  lemma {:induction false} BitShl(x: nat, k: nat, i: nat)
    ensures Bit(x * Pow2(k), i) == (i >= k && Bit(x, i - k))
  {
    if k > 0 {
      var y := x * Pow2(k - 1);
      assert x * Pow2(k) == 2 * y;
      if i > 0 { BitShl(x, k - 1, i - 1); }
    }
  }

  lemma {:induction false} BitShr(x: nat, k: nat, i: nat)
    ensures Bit(Shr(x, k), i) == Bit(x, i + k)
  {
    if k > 0 { BitShr(x / 2, k - 1, i); }
  }

  lemma {:induction false} ShrBound(x: nat, k: nat)
    ensures Shr(x, k) <= x
  {
    if k > 0 { ShrBound(x / 2, k - 1); }
  }

  lemma {:induction false} ShrShr(x: nat, j: nat, k: nat)
    ensures Shr(Shr(x, j), k) == Shr(x, j + k)
  {
    if j > 0 { ShrShr(x / 2, j - 1, k); }
  }

  /** a written below b: the bits of a, then those of b. */
  lemma {:induction false} BitConcat(a: nat, b: nat, k: nat, i: nat)
    requires a < Pow2(k)
    ensures Bit(a + b * Pow2(k), i) == if i < k then Bit(a, i) else Bit(b, i - k)
  {
    if k > 0 {
      var x, h := a + b * Pow2(k), b * Pow2(k - 1);
      assert b * Pow2(k) == 2 * h;
      assert x / 2 == a / 2 + h && x % 2 == a % 2;
      if i > 0 { BitConcat(a / 2, b, k - 1, i - 1); }
    }
  }

  lemma {:induction false} BitMod(x: nat, k: nat, i: nat)
    ensures Bit(x % Pow2(k), i) == (i < k && Bit(x, i))
  {
    if k == 0 {
      BitZero(i);
    } else {
      var m, r := x % Pow2(k), x / 2 % Pow2(k - 1);
      ModStep(x, Pow2(k - 1));
      assert m == 2 * r + x % 2;
      assert m / 2 == r && m % 2 == x % 2;
      if i > 0 { BitMod(x / 2, k - 1, i - 1); }
    }
  }

  lemma {:induction false} BitAbove(x: nat, k: nat, i: nat)
    requires x < Pow2(k) && k <= i
    ensures !Bit(x, i)
  {
    if k == 0 { BitZero(i); } else { BitAbove(x / 2, k - 1, i - 1); }
  }

  lemma {:induction false} BitPow2(k: nat, i: nat)
    ensures Bit(Pow2(k), i) == (i == k)
  {
    if k == 0 {
      if i > 0 { BitZero(i - 1); }
    } else if i > 0 {
      BitPow2(k - 1, i - 1);
    }
  }

  lemma {:induction false} BitOnes(k: nat, i: nat)
    ensures Bit(Pow2(k) - 1, i) == (i < k)
  {
    if k == 0 {
      BitZero(i);
    } else {
      assert (Pow2(k) - 1) / 2 == Pow2(k - 1) - 1;
      if i > 0 { BitOnes(k - 1, i - 1); }
    }
  }

  /** A number below 2^k is determined by its k low bits. */
  lemma {:induction false} Extensional(x: nat, y: nat, k: nat)
    requires x < Pow2(k) && y < Pow2(k)
    requires forall i: nat :: i < k ==> Bit(x, i) == Bit(y, i)
    ensures x == y
  {
    if k > 0 {
      forall i: nat | i < k - 1
        ensures Bit(x / 2, i) == Bit(y / 2, i)
      {
        assert Bit(x, i + 1) == Bit(y, i + 1);
      }
      Extensional(x / 2, y / 2, k - 1);
      assert Bit(x, 0) == Bit(y, 0);
    }
  }

  /** `x & (1 << i)` is truthy exactly when bit i of x is set. */
  lemma {:induction false} AndPow2Test(x: nat, i: nat)
    ensures And(x, Pow2(i)) != 0 <==> Bit(x, i)
  {
    if i == 0 {
      if x != 0 || Pow2(0) != 0 { AndZero(x / 2); }
    } else {
      AndPow2Test(x / 2, i - 1);
    }
  }

  lemma {:induction false} AndZero(x: nat)
    ensures And(x, 0) == 0
  {
    if x != 0 { AndZero(x / 2); }
  }

  lemma {:induction false} XorBound(x: nat, y: nat, k: nat)
    requires x < Pow2(k) && y < Pow2(k)
    ensures Xor(x, y) < Pow2(k)
  {
    if k > 0 && !(x == 0 && y == 0) { XorBound(x / 2, y / 2, k - 1); }
  }

  lemma {:induction false} OrBound(x: nat, y: nat, k: nat)
    requires x < Pow2(k) && y < Pow2(k)
    ensures Or(x, y) < Pow2(k)
  {
    if k > 0 && !(x == 0 && y == 0) { OrBound(x / 2, y / 2, k - 1); }
  }

  lemma {:induction false} AndBound(x: nat, y: nat, k: nat)
    requires x < Pow2(k)
    ensures And(x, y) < Pow2(k)
  {
    if k == 0 {
      AndZeroLeft(y);
    } else if !(x == 0 && y == 0) {
      AndBound(x / 2, y / 2, k - 1);
    }
  }

  lemma {:induction false} AndZeroLeft(y: nat)
    ensures And(0, y) == 0
  {
    if y != 0 { AndZeroLeft(y / 2); }
  }

  lemma {:induction false} Pow2Add(a: nat, b: nat)
    ensures Pow2(a + b) == Pow2(a) * Pow2(b)
  {
    if a > 0 {
      Pow2Add(a - 1, b);
      assert Pow2(a + b) == 2 * Pow2(a - 1 + b);
    }
  }

  lemma {:induction false} Pow2Mono(a: nat, b: nat)
    requires a <= b
    ensures Pow2(a) <= Pow2(b) && (a < b ==> Pow2(a) < Pow2(b))
  {
    if a < b { Pow2Mono(a, b - 1); }
  }

  lemma Pow2Values()
    ensures Pow2(8) == 256 && Pow2(16) == 0x1_0000 && Pow2(24) == 0x100_0000
    ensures Pow2(32) == 0x1_0000_0000 && Pow2(64) == 0x1_0000_0000_0000_0000
  {
    assert Pow2(8) == 256;
    Pow2Add(8, 8);
    Pow2Add(16, 8);
    Pow2Add(16, 16);
    Pow2Add(32, 32);
  }

  // ----- division facts the solver needs spelled out -----

  lemma MulMono(a: nat, x: int, y: int)
    requires x <= y
    ensures a * x <= a * y
  {
    assert a * (y - x) >= 0;
  }

  lemma DivUnique(x: nat, d: nat, q: nat, r: nat)
    requires d > 0 && r < d && x == d * q + r
    ensures x / d == q && x % d == r
  {
    var q', r' := x / d, x % d;
    assert x == d * q' + r';
    if q' < q {
      MulMono(d, q' + 1, q);
    } else if q < q' {
      MulMono(d, q + 1, q');
    }
  }

  lemma ModStep(x: nat, m: nat)
    requires m > 0
    ensures x % (2 * m) == 2 * (x / 2 % m) + x % 2
  {
    var h := x / 2;
    assert h == m * (h / m) + h % m;
    assert x == 2 * h + x % 2;
    assert x == 2 * m * (h / m) + (2 * (h % m) + x % 2) by {
      assert 2 * (m * (h / m)) == 2 * m * (h / m);
    }
    DivUnique(x, 2 * m, h / m, 2 * (h % m) + x % 2);
  }
}
