/** IPv4 networks as Python's ipaddress computes with them: masks, membership, overlap. */
module Cidr {
  import opened Bits

  type Addr = x: nat | x < 0x1_0000_0000
  type PrefixLen = n: nat | n <= 32

  datatype Net = Net(base: Addr, len: PrefixLen)

  /** The netmask: `len` ones, then zeros. */
  function Mask(len: PrefixLen): nat { (Pow2(len) - 1) * Pow2(32 - len) }

  /** `a in n`. */
  predicate In(a: Addr, n: Net) { And(a, Mask(n.len)) == n.base }

  /** No host bits are set, as ip_network(…, strict=False) leaves it. */
  predicate Proper(n: Net) { n.base == Shr(n.base, 32 - n.len) * Pow2(32 - n.len) }

  /** ip_network(…, strict=False): host bits are dropped. */
  function NetworkOf(a: Addr, len: PrefixLen): (n: Net)
    ensures n.len == len && Proper(n)
  {
    MaskClearsHostBits(a, len);
    ShlShr(Shr(a, 32 - len), 32 - len);
    ShrShlBound(a, 32 - len);
    Net(Shr(a, 32 - len) * Pow2(32 - len), len)
  }

  function Broadcast(n: Net): (b: Addr)
    requires Proper(n)
  {
    BroadcastBound(n);
    n.base + Pow2(32 - n.len) - 1
  }

  /** `n.overlaps(m)`: an end of one lies in the other. */
  predicate Overlaps(n: Net, m: Net)
    requires Proper(n) && Proper(m)
  {
    In(m.base, n) || In(Broadcast(m), n) || In(n.base, m) || In(Broadcast(n), m)
  }

  // ----- membership is agreement on the prefix -----

  lemma MaskClearsHostBits(a: Addr, len: PrefixLen)
    ensures And(a, Mask(len)) == Shr(a, 32 - len) * Pow2(32 - len)
  {
    hide Bit, And, Shr, Pow2;
    var k := 32 - len;
    Pow2Values();
    Pow2Add(len, k);
    ShrShlBound(a, k);
    AndBound(a, Mask(len), 32);
    forall i: nat | i < 32 ensures Bit(And(a, Mask(len)), i) == Bit(Shr(a, k) * Pow2(k), i) {
      BitAnd(a, Mask(len), i);
      BitShl(Pow2(len) - 1, k, i);
      BitShl(Shr(a, k), k, i);
      if i >= k {
        BitOnes(len, i - k);
        BitShr(a, k, i - k);
      }
    }
    Extensional(And(a, Mask(len)), Shr(a, k) * Pow2(k), 32);
  }

  lemma {:induction false} ShlShr(x: nat, k: nat)
    ensures Shr(x * Pow2(k), k) == x
  {
    ShlAddShr(x, 0, k);
  }

  lemma {:induction false} ShlAddShr(x: nat, r: nat, k: nat)
    requires r < Pow2(k)
    ensures Shr(x * Pow2(k) + r, k) == x
  {
    if k > 0 {
      var y := x * Pow2(k - 1);
      assert x * Pow2(k) == 2 * y;
      assert (2 * y + r) / 2 == y + r / 2;
      ShlAddShr(x, r / 2, k - 1);
    }
  }

  lemma {:induction false} ShrShlBound(x: nat, k: nat)
    ensures x - Pow2(k) < Shr(x, k) * Pow2(k) <= x
  {
    if k > 0 {
      ShrShlBound(x / 2, k - 1);
      var y := Shr(x / 2, k - 1) * Pow2(k - 1);
      assert Shr(x, k) * Pow2(k) == 2 * y;
    }
  }

  lemma InIsPrefix(a: Addr, n: Net)
    requires Proper(n)
    ensures In(a, n) <==> Shr(a, 32 - n.len) == Shr(n.base, 32 - n.len)
  {
    hide And, Shr, Pow2, Mask;
    MaskClearsHostBits(a, n.len);
    ShlShr(Shr(a, 32 - n.len), 32 - n.len);
  }

  /** A network holds exactly the addresses from its base to its broadcast address. */
  lemma InIsRange(a: Addr, n: Net)
    requires Proper(n)
    ensures In(a, n) <==> n.base <= a <= Broadcast(n)
  {
    hide And, Shr, Pow2, Mask;
    var k := 32 - n.len;
    InIsPrefix(a, n);
    ShrShlBound(a, k);
    if n.base <= a <= Broadcast(n) { ShlAddShr(Shr(n.base, k), a - n.base, k); }
  }

  lemma BroadcastBound(n: Net)
    requires Proper(n)
    ensures n.base + Pow2(32 - n.len) <= 0x1_0000_0000
  {
    hide Shr, Pow2;
    var q, k := Shr(n.base, 32 - n.len), 32 - n.len;
    Pow2Values();
    Pow2Add(n.len, k);
    if Pow2(n.len) <= q { MulMono(Pow2(k), Pow2(n.len), q); }
    MulMono(Pow2(k), q + 1, Pow2(n.len));
  }

  /** Two networks that share an address are nested. */
  lemma SharedMeansNested(a: Addr, n: Net, m: Net)
    requires Proper(n) && Proper(m) && In(a, n) && In(a, m) && n.len >= m.len
    ensures In(n.base, m)
    ensures forall x: Addr :: In(x, n) ==> In(x, m)
  {
    hide And, Shr, Pow2, Mask, In, Proper;
    var j, d := 32 - n.len, n.len - m.len;
    InIsPrefix(a, n);
    InIsPrefix(a, m);
    ShrShr(a, j, d);
    ShrShr(n.base, j, d);
    InIsPrefix(n.base, m);
    forall x: Addr | In(x, n) ensures In(x, m) {
      InIsPrefix(x, n);
      InIsPrefix(x, m);
      ShrShr(x, j, d);
    }
  }

  lemma EndsAreInside(n: Net)
    requires Proper(n)
    ensures In(n.base, n) && In(Broadcast(n), n)
  {
    hide And, Shr, Pow2, Mask, In;
    assert Pow2(32 - n.len) >= 1;
    InIsRange(n.base, n);
    InIsRange(Broadcast(n), n);
  }

  /** The four-way test is exactly having an address in common. */
  lemma OverlapsExactly(n: Net, m: Net)
    requires Proper(n) && Proper(m)
    ensures Overlaps(n, m) <==> exists a: Addr :: In(a, n) && In(a, m)
  {
    hide In, Proper;
    EndsAreInside(n);
    EndsAreInside(m);
    if a: Addr :| In(a, n) && In(a, m) {
      if n.len >= m.len { SharedMeansNested(a, n, m); } else { SharedMeansNested(a, m, n); }
    }
  }

  /** The overlay network 100.64.0.0/10: addresses 100.64.0.0 to 100.127.255.255. */
  const OVERLAY_BASE: Addr := 0x6440_0000
  const OVERLAY_LEN: PrefixLen := 10

  function Overlay(): (n: Net)
    ensures Proper(n)
  {
    NetworkOf(OVERLAY_BASE, OVERLAY_LEN)
  }

  /** A network whose base is q blocks of size p. */
  lemma AlignedRange(q: nat, p: nat, base: Addr, len: PrefixLen, a: Addr)
    requires p == Pow2(32 - len) && base == q * p
    ensures In(a, NetworkOf(base, len)) <==> base <= a < base + p
  {
    hide And, Shr, Pow2, Mask, In;
    ShlShr(q, 32 - len);
    InIsRange(a, NetworkOf(base, len));
  }

  lemma OverlayRange(a: Addr)
    ensures In(a, Overlay()) <==> 0x6440_0000 <= a < 0x6480_0000
  {
    hide And, Shr, Mask, In;
    Pow2Add(8, 8);
    Pow2Add(16, 6);
    assert Pow2(8) == 256 && Pow2(6) == 64;
    AlignedRange(0x191, 0x40_0000, OVERLAY_BASE, OVERLAY_LEN, a);
  }
}
