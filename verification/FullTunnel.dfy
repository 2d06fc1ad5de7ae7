/** netroute.py: sending everything through the tunnel except the mesh's own transport.
    Commands act on a longest-prefix-match table; adding a prefix that is already there
    fails and changes nothing, and failures are ignored, as `_run` ignores them. */
module FullTunnel {
  import opened Cidr
  import opened Routing
  import Bits
  import opened Wrappers

  datatype Hop = Phys | Tun | Other(id: nat)

  type Fib = map<Net, Hop>

  function Host(a: Addr): Net { Net(a, 32) }

  /** 0.0.0.0/1 and 128.0.0.0/1. */
  predicate IsSplit(n: Net) { n == LOW || n == HIGH }

  const LOW := Net(0, 1)
  const HIGH := Net(0x8000_0000, 1)

  /** Longest-prefix match in the kernel's table. */
  ghost predicate GoesTo(t: Fib, a: Addr, hop: Hop) {
    exists n :: n in t && In(a, n) && t[n] == hop && forall m :: m in t && In(a, m) ==> m.len <= n.len
  }

  predicate At(t: Fib, n: Net, hop: Hop) { n in t && t[n] == hop }

  ghost predicate TunnelPresent(t: Fib, base: Fib) {
    exists s :: IsSplit(s) && s !in base && At(t, s, Tun)
  }

  /** Every pinned address leaves by the physical gateway, or by the host route that another
      program had put there first. */
  ghost predicate Direct(t: Fib, pins: set<Text>, base: Fib) {
    forall a: Addr :: V4(a) in pins ==> GoesTo(t, a, Phys) || (Host(a) in base && GoesTo(t, a, base[Host(a)]))
  }

  ghost predicate PinsAt(t: Fib, pins: set<Text>, base: Fib) {
    forall a: Addr :: V4(a) in pins ==> At(t, Host(a), Phys) || (Host(a) in base && At(t, Host(a), base[Host(a)]))
  }

  lemma HostHolds(a: Addr, b: Addr)
    ensures In(a, Host(b)) <==> a == b
  {
    hide In;
    InIsPrefix(a, Host(b));
  }

  lemma PinsGoDirect(t: Fib, pins: set<Text>, base: Fib)
    requires PinsAt(t, pins, base)
    ensures Direct(t, pins, base)
  {
    hide In;
    forall a: Addr | V4(a) in pins
      ensures GoesTo(t, a, Phys) || (Host(a) in base && GoesTo(t, a, base[Host(a)]))
    {
      HostHolds(a, a);
      var h := Host(a);
      assert h in t && In(a, h) && forall m :: m in t && In(a, m) ==> m.len <= h.len;
    }
  }

  // ----- the kernel's table and its commands -----

  datatype Command = AddRoute(n: Net, hop: Hop) | DelRoute(n: Net)

  function Apply(t: Fib, c: Command): Fib {
    match c
    case AddRoute(n, hop) => Added(t, n, hop)
    case DelRoute(n) => t - {n}
  }

  function Added(t: Fib, n: Net, hop: Hop): Fib { if n in t then t else t[n := hop] }

  function Replay(t: Fib, log: seq<Command>): Fib {
    if log == [] then t else Apply(Replay(t, log[..|log| - 1]), log[|log| - 1])
  }

  /** The prefixes that commands have named. */
  function Nets(log: seq<Command>): set<Net> { set c | c in log :: c.n }

  lemma ReplaySnoc(t: Fib, log: seq<Command>, c: Command)
    ensures Replay(t, log + [c]) == Apply(Replay(t, log), c)
    ensures Nets(log + [c]) == Nets(log) + {c.n}
  {
    assert (log + [c])[..|log|] == log;
  }

  /** The table and every command it has been given: no change goes unrecorded. */
  class Kernel {
    var fib: Fib
    ghost const start: Fib
    ghost var log: seq<Command>

    ghost predicate Valid()
      reads this
    {
      fib == Replay(start, log)
    }

    constructor (fib: Fib)
      ensures Valid() && this.fib == start == fib && log == []
    {
      this.fib, start, log := fib, fib, [];
    }

    method Add(n: Net, hop: Hop)
      requires Valid()
      modifies this
      ensures Valid() && fib == Added(old(fib), n, hop) && log == old(log) + [AddRoute(n, hop)]
    {
      ReplaySnoc(start, log, AddRoute(n, hop));
      if n !in fib { fib := fib[n := hop]; }
      log := log + [AddRoute(n, hop)];
    }

    method Del(n: Net)
      requires Valid()
      modifies this
      ensures Valid() && fib == old(fib) - {n} && log == old(log) + [DelRoute(n)]
    {
      ReplaySnoc(start, log, DelRoute(n));
      fib := fib - {n};
      log := log + [DelRoute(n)];
    }
  }

  /** The prefixes the bookkeeping claims. */
  predicate Owned(n: Net, pinned: set<Text>, lan: set<Net>, split: bool) {
    (n.len == 32 && V4(n.base) in pinned) || n in lan || (split && IsSplit(n))
  }

  /** What the commands have left of the table: foreign routes that no command touched, and
      nothing else that the bookkeeping does not claim. */
  ghost predicate Mirrors(t: Fib, base: Fib, touched: set<Net>, pinned: set<Text>, lan: set<Net>, split: bool) {
    && (forall n :: n !in touched ==> (n in t <==> n in base))
    && (forall n :: n !in touched && n in base && n in t ==> t[n] == base[n])
    && (forall n :: n in touched && n in t ==> Owned(n, pinned, lan, split))
    && (forall n :: Owned(n, pinned, lan, split) ==> n in touched)
  }

  /** What the bookkeeping claims is there, where no foreign route was in the way. */
  ghost predicate Present(t: Fib, base: Fib, pinned: set<Text>, lan: set<Net>, split: bool) {
    && PinsAt(t, pinned, base)
    && (forall n :: n in lan && 1 < n.len < 32 && n !in base ==> At(t, n, Phys))
    && (forall s :: split && IsSplit(s) && s !in base && s !in lan ==> At(t, s, Tun))
    && (forall n :: n in t && !(split && IsSplit(n)) ==> t[n] == Phys || (n in base && t[n] == base[n]))
  }

  ghost predicate Books(t: Fib, base: Fib, touched: set<Net>, pinned: set<Text>, lan: set<Net>, split: bool) {
    Mirrors(t, base, touched, pinned, lan, split) && Present(t, base, pinned, lan, split)
  }

  /** No pinned address goes into the tunnel in this table. */
  ghost predicate LoopFree(t: Fib, pins: set<Text>, base: Fib) { TunnelPresent(t, base) ==> Direct(t, pins, base) }

  /** It was so after every command from a point of the log on. */
  ghost predicate Protects(start: Fib, log: seq<Command>, from: nat, pins: set<Text>) {
    forall i :: from < i <= |log| ==> LoopFree(Replay(start, log[..i]), pins, start)
  }

  lemma ProtectsSnoc(start: Fib, log: seq<Command>, c: Command, from: nat, pins: set<Text>)
    requires from <= |log| && Protects(start, log, from, pins) && LoopFree(Replay(start, log + [c]), pins, start)
    ensures Protects(start, log + [c], from, pins)
  {
    hide LoopFree, Replay;
    var more := log + [c];
    forall i | from < i <= |more| ensures LoopFree(Replay(start, more[..i]), pins, start) {
      if i <= |log| { assert more[..i] == log[..i]; } else { assert more[..i] == more; }
    }
  }

  lemma BooksLoopFree(t: Fib, base: Fib, touched: set<Net>, pinned: set<Text>, lan: set<Net>, split: bool, pins: set<Text>)
    requires Books(t, base, touched, pinned, lan, split) && pins <= pinned
    ensures LoopFree(t, pins, base)
  {
    hide Mirrors, PinsAt, GoesTo;
    PinsGoDirect(t, pinned, base);
  }

  // ----- what each command keeps -----

  lemma PinKeeps(t: Fib, base: Fib, touched: set<Net>, pinned: set<Text>, lan: set<Net>, split: bool, a: Addr)
    requires Books(t, base, touched, pinned, lan, split)
    ensures Books(Added(t, Host(a), Phys), base, touched + {Host(a)}, pinned + {V4(a)}, lan, split)
  {
    var h := Host(a);
    if h in t { assert !IsSplit(h); }
  }

  lemma UnpinKeeps(t: Fib, base: Fib, touched: set<Net>, pinned: set<Text>, lan: set<Net>, split: bool, a: Addr)
    requires Books(t, base, touched, pinned, lan, split) && V4(a) in pinned
    ensures Books(t - {Host(a)}, base, touched + {Host(a)}, pinned - {V4(a)}, lan, split)
  {
    assert Owned(Host(a), pinned, lan, split);
    assert forall n: Net :: n.len == 32 && n.base == a ==> n == Host(a);
  }

  /** Text that is not an address changes no route. */
  lemma NoRouteKeeps(t: Fib, base: Fib, touched: set<Net>, pinned: set<Text>, pinned': set<Text>, lan: set<Net>, split: bool)
    requires Books(t, base, touched, pinned, lan, split)
    requires forall a: Addr :: V4(a) in pinned <==> V4(a) in pinned'
    ensures Books(t, base, touched, pinned', lan, split)
  {
  }

  lemma LanKeeps(t: Fib, base: Fib, touched: set<Net>, pinned: set<Text>, lan: set<Net>, split: bool, n: Net)
    requires Books(t, base, touched, pinned, lan, split)
    ensures Books(Added(t, n, Phys), base, touched + {n}, pinned, lan + {n}, split)
  {
  }

  lemma SplitKeeps(t: Fib, base: Fib, touched: set<Net>, pinned: set<Text>, lan: set<Net>, split: bool)
    requires Books(t, base, touched, pinned, lan, split)
    ensures Books(Added(Added(t, LOW, Tun), HIGH, Tun), base, touched + {LOW} + {HIGH}, pinned, lan, true)
    ensures PinsAt(Added(t, LOW, Tun), pinned, base)
  {
  }

  lemma UnsplitKeeps(t: Fib, base: Fib, touched: set<Net>, pinned: set<Text>, lan: set<Net>)
    requires Books(t, base, touched, pinned, lan, true)
    ensures Books(t - {LOW} - {HIGH}, base, touched + {LOW} + {HIGH}, pinned, lan, false)
    ensures PinsAt(t - {LOW}, pinned, base)
  {
  }

  lemma UnlanKeeps(t: Fib, base: Fib, touched: set<Net>, lan: set<Net>, n: Net)
    requires Books(t, base, touched, {}, lan, false) && n in lan
    ensures Books(t - {n}, base, touched + {n}, {}, lan - {n}, false)
  {
  }

  /** Without the split default, no half of it points into the tunnel. */
  lemma IdleLoopFree(t: Fib, base: Fib, touched: set<Net>, pinned: set<Text>, lan: set<Net>, pins: set<Text>)
    requires Books(t, base, touched, pinned, lan, false)
    ensures LoopFree(t, pins, base)
  {
  }

  /** The commands of one re-pinning. */
  predicate IsSync(c: Command, was: set<Text>, now: set<Text>) {
    match c
    case AddRoute(n, hop) => n.len == 32 && hop == Phys && V4(n.base) in now && V4(n.base) !in was
    case DelRoute(n) => n.len == 32 && V4(n.base) in was && V4(n.base) !in now
  }

  /** The commands after a point of the log are exactly those of a re-pinning. */
  ghost predicate Resynced(log: seq<Command>, from: nat, was: set<Text>, now: set<Text>)
    requires from <= |log|
  {
    forall c :: c in log[from..] <==> IsSync(c, was, now)
  }

  lemma AfterSnoc(log: seq<Command>, from: nat, c: Command)
    requires from <= |log|
    ensures forall x :: x in (log + [c])[from..] <==> x in log[from..] || x == c
  {
    assert (log + [c])[from..] == log[from..] + [c];
  }

  lemma ResyncedAdd(log: seq<Command>, from: nat, was: set<Text>, now: set<Text>, ip: Text)
    requires from <= |log| && Resynced(log, from, was, now) && ip !in was && ip !in now
    ensures Resynced(log + if ip.V4? then [AddRoute(Host(ip.a), Phys)] else [], from, was, now + {ip})
  {
    if ip.V4? { AfterSnoc(log, from, AddRoute(Host(ip.a), Phys)); } else { assert log + [] == log; }
  }

  lemma ResyncedDel(log: seq<Command>, from: nat, was: set<Text>, now: set<Text>, ip: Text)
    requires from <= |log| && Resynced(log, from, was, now) && ip in was && ip in now
    ensures Resynced(log + if ip.V4? then [DelRoute(Host(ip.a))] else [], from, was, now - {ip})
  {
    if ip.V4? { AfterSnoc(log, from, DelRoute(Host(ip.a))); } else { assert log + [] == log; }
  }

  lemma StartProtected(start: Fib, log: seq<Command>, pins: set<Text>)
    ensures Protects(start, log, |log|, pins)
    ensures forall was :: Resynced(log, |log|, was, was)
  {
  }

  /** At most one command later, with the bookkeeping in order. */
  lemma StepProtected(r: FullTunnelRoutes, log: seq<Command>, from: nat, pins: set<Text>)
    requires r.Valid() && pins <= r.pinned && from <= |log| && Protects(r.kernel.start, log, from, pins)
    requires log <= r.kernel.log && |r.kernel.log| <= |log| + 1
    ensures Protects(r.kernel.start, r.kernel.log, from, pins)
  {
    hide Books, LoopFree, Replay, Protects;
    BooksLoopFree(r.kernel.fib, r.kernel.start, Nets(r.kernel.log), r.pinned, r.lan, r.split, pins);
    if |r.kernel.log| > |log| {
      assert r.kernel.log == log + [r.kernel.log[|log|]];
      ProtectsSnoc(r.kernel.start, log, r.kernel.log[|log|], from, pins);
    } else {
      assert r.kernel.log == log;
    }
  }

  class FullTunnelRoutes {
    const kernel: Kernel
    var pinned: set<Text>
    var lan: set<Net>
    var split: bool

    ghost predicate Valid()
      reads this, kernel
    {
      kernel.Valid() && Books(kernel.fib, kernel.start, Nets(kernel.log), pinned, lan, split)
    }

    constructor (kernel: Kernel)
      requires kernel.Valid() && kernel.log == []
      ensures Valid() && this.kernel == kernel && pinned == {} && lan == {} && !split
    {
      this.kernel, pinned, lan, split := kernel, {}, {}, false;
    }

    method Pin(ip: Text)
      requires Valid()
      modifies this`pinned, kernel
      ensures Valid() && pinned == old(pinned) + {ip}
      ensures kernel.log == old(kernel.log) + if ip.V4? then [AddRoute(Host(ip.a), Phys)] else []
    {
      hide Books, Replay, Nets;
      if ip.V4? {
        PinKeeps(kernel.fib, kernel.start, Nets(kernel.log), pinned, lan, split, ip.a);
        ReplaySnoc(kernel.start, kernel.log, AddRoute(Host(ip.a), Phys));
        kernel.Add(Host(ip.a), Phys);
      } else {
        NoRouteKeeps(kernel.fib, kernel.start, Nets(kernel.log), pinned, pinned + {ip}, lan, split);
      }
      pinned := pinned + {ip};
    }

    method Unpin(ip: Text)
      requires Valid() && ip in pinned
      modifies this`pinned, kernel
      ensures Valid() && pinned == old(pinned) - {ip}
      ensures kernel.log == old(kernel.log) + if ip.V4? then [DelRoute(Host(ip.a))] else []
    {
      hide Books, Replay, Nets;
      if ip.V4? {
        UnpinKeeps(kernel.fib, kernel.start, Nets(kernel.log), pinned, lan, split, ip.a);
        ReplaySnoc(kernel.start, kernel.log, DelRoute(Host(ip.a)));
        kernel.Del(Host(ip.a));
      } else {
        NoRouteKeeps(kernel.fib, kernel.start, Nets(kernel.log), pinned, pinned - {ip}, lan, split);
      }
      pinned := pinned - {ip};
    }

    /** Exactly `desired` bypasses the tunnel afterwards; the commands are exactly
        additions for the new addresses and deletions for those that went; and what was and
        stays desired is protected at every step between. */
    method SyncPins(desired: set<Text>)
      requires Valid()
      modifies this`pinned, kernel
      ensures Valid() && pinned == desired - {Word("")}
      ensures old(kernel.log) <= kernel.log && Resynced(kernel.log, |old(kernel.log)|, old(pinned), pinned)
      ensures Protects(kernel.start, kernel.log, |old(kernel.log)|, old(pinned) * pinned)
    {
      hide Valid, Books, Protects, LoopFree, Resynced;
      var wanted := desired - {Word("")};
      ghost var from, core := |kernel.log|, pinned * wanted;
      StartProtected(kernel.start, kernel.log, core);
      var todo := wanted - pinned;
      while todo != {}
        invariant Valid() && old(kernel.log) <= kernel.log
        invariant forall ip :: ip in todo ==> ip in wanted && ip !in pinned
        invariant forall ip :: ip in pinned <==> ip in old(pinned) || (ip in wanted && ip !in todo)
        invariant Resynced(kernel.log, from, old(pinned), pinned)
        invariant Protects(kernel.start, kernel.log, from, core)
        decreases |todo|
      {
        var ip :| ip in todo;
        ghost var log, was := kernel.log, pinned;
        Pin(ip);
        todo := todo - {ip};
        StepProtected(this, log, from, core);
        ResyncedAdd(log, from, old(pinned), was, ip);
      }
      todo := pinned - wanted;
      while todo != {}
        invariant Valid() && old(kernel.log) <= kernel.log
        invariant forall ip :: ip in todo ==> ip !in wanted && ip in old(pinned)
        invariant forall ip :: ip in pinned <==> ip in wanted || ip in todo
        invariant Resynced(kernel.log, from, old(pinned), pinned)
        invariant Protects(kernel.start, kernel.log, from, core)
        decreases |todo|
      {
        var ip :| ip in todo;
        ghost var log, was := kernel.log, pinned;
        Unpin(ip);
        todo := todo - {ip};
        StepProtected(this, log, from, core);
        ResyncedDel(log, from, old(pinned), was, ip);
      }
    }

    method AddLan(cidr: Net)
      requires Valid() && cidr !in lan
      modifies this`lan, kernel
      ensures Valid() && lan == old(lan) + {cidr} && kernel.log == old(kernel.log) + [AddRoute(cidr, Phys)]
    {
      hide Books, Replay, Nets;
      LanKeeps(kernel.fib, kernel.start, Nets(kernel.log), pinned, lan, split, cidr);
      ReplaySnoc(kernel.start, kernel.log, AddRoute(cidr, Phys));
      kernel.Add(cidr, Phys);
      lan := lan + {cidr};
    }

    /** Each route that is not there yet is added, and nothing else is done. */
    method InstallLanRoutes(cidrs: seq<Net>)
      requires Valid()
      modifies this`lan, kernel
      ensures Valid() && old(kernel.log) <= kernel.log
      ensures forall n :: n in lan <==> n in old(lan) || n in cidrs
      ensures forall c :: c in kernel.log[|old(kernel.log)|..] <==> c.AddRoute? && c.hop == Phys && c.n in cidrs && c.n !in old(lan)
      ensures Protects(kernel.start, kernel.log, |old(kernel.log)|, pinned)
    {
      hide Valid, Books, Protects, LoopFree;
      ghost var from := |kernel.log|;
      StartProtected(kernel.start, kernel.log, pinned);
      for i := 0 to |cidrs|
        invariant Valid() && old(kernel.log) <= kernel.log
        invariant forall n :: n in lan <==> n in old(lan) || n in cidrs[..i]
        invariant forall c :: c in kernel.log[from..] <==> c.AddRoute? && c.hop == Phys && c.n in cidrs[..i] && c.n !in old(lan)
        invariant Protects(kernel.start, kernel.log, from, pinned)
      {
        assert cidrs[..i + 1] == cidrs[..i] + [cidrs[i]];
        if cidrs[i] !in lan {
          ghost var log := kernel.log;
          AddLan(cidrs[i]);
          StepProtected(this, log, from, pinned);
          AfterSnoc(log, from, AddRoute(cidrs[i], Phys));
        }
      }
      assert cidrs[..|cidrs|] == cidrs;
    }

    /** The two halves are added, and at no step, the one between them included, is a pinned
        address in the tunnel. */
    method InstallSplitDefault()
      requires Valid()
      modifies this`split, kernel
      ensures Valid() && split
      ensures kernel.log == old(kernel.log) + [AddRoute(LOW, Tun), AddRoute(HIGH, Tun)]
      ensures Protects(kernel.start, kernel.log, |old(kernel.log)|, pinned)
    {
      hide Books, PinsAt, Direct, Protects, Replay, Nets;
      ghost var from, start, log := |kernel.log|, kernel.start, kernel.log;
      StartProtected(start, log, pinned);
      SplitKeeps(kernel.fib, start, Nets(log), pinned, lan, split);
      ReplaySnoc(start, log, AddRoute(LOW, Tun));
      kernel.Add(LOW, Tun);
      PinsGoDirect(kernel.fib, pinned, start);
      ProtectsSnoc(start, log, AddRoute(LOW, Tun), from, pinned);
      log := kernel.log;
      ReplaySnoc(start, log, AddRoute(HIGH, Tun));
      kernel.Add(HIGH, Tun);
      split := true;
      StepProtected(this, log, from, pinned);
      assert kernel.log == old(kernel.log) + [AddRoute(LOW, Tun), AddRoute(HIGH, Tun)];
    }

    method RemoveSplit()
      requires Valid() && split
      modifies this`split, kernel
      ensures Valid() && !split
      ensures kernel.log == old(kernel.log) + [DelRoute(LOW), DelRoute(HIGH)]
      ensures Protects(kernel.start, kernel.log, |old(kernel.log)|, pinned)
    {
      hide Books, PinsAt, Direct, Protects, Replay, Nets;
      ghost var from, start, log := |kernel.log|, kernel.start, kernel.log;
      StartProtected(start, log, pinned);
      UnsplitKeeps(kernel.fib, start, Nets(log), pinned, lan);
      ReplaySnoc(start, log, DelRoute(LOW));
      kernel.Del(LOW);
      PinsGoDirect(kernel.fib, pinned, start);
      ProtectsSnoc(start, log, DelRoute(LOW), from, pinned);
      log := kernel.log;
      ReplaySnoc(start, log, DelRoute(HIGH));
      kernel.Del(HIGH);
      split := false;
      StepProtected(this, log, from, pinned);
      assert kernel.log == old(kernel.log) + [DelRoute(LOW), DelRoute(HIGH)];
    }

    /** Without the split default the tunnel takes nothing, so the pins can go. */
    method RemovePins()
      requires Valid() && !split
      modifies this`pinned, kernel
      ensures Valid() && pinned == {} && old(kernel.log) <= kernel.log
      ensures forall c :: c in kernel.log[|old(kernel.log)|..] <==> c.DelRoute? && c.n.len == 32 && V4(c.n.base) in old(pinned)
      ensures Protects(kernel.start, kernel.log, |old(kernel.log)|, old(pinned))
    {
      hide Books, Protects, LoopFree, Replay, Nets;
      ghost var from, start := |kernel.log|, kernel.start;
      StartProtected(start, kernel.log, pinned);
      var todo := pinned;
      while todo != {}
        invariant kernel.Valid() && old(kernel.log) <= kernel.log
        invariant pinned == old(pinned) && lan == old(lan) && !split
        invariant Books(kernel.fib, start, Nets(kernel.log), todo, lan, false)
        invariant forall ip :: ip in todo ==> ip in pinned
        invariant forall c :: c in kernel.log[from..] <==> c.DelRoute? && c.n.len == 32 && V4(c.n.base) in pinned && V4(c.n.base) !in todo
        invariant Protects(start, kernel.log, from, pinned)
        decreases |todo|
      {
        var ip :| ip in todo;
        ghost var log := kernel.log;
        if ip.V4? {
          UnpinKeeps(kernel.fib, start, Nets(log), todo, lan, false, ip.a);
          ReplaySnoc(start, log, DelRoute(Host(ip.a)));
          kernel.Del(Host(ip.a));
          IdleLoopFree(kernel.fib, start, Nets(kernel.log), todo - {ip}, lan, pinned);
          ProtectsSnoc(start, log, DelRoute(Host(ip.a)), from, pinned);
          AfterSnoc(log, from, DelRoute(Host(ip.a)));
        } else {
          NoRouteKeeps(kernel.fib, start, Nets(log), todo, todo - {ip}, lan, false);
        }
        todo := todo - {ip};
      }
      pinned := {};
    }

    method RemoveLan(ghost pins: set<Text>)
      requires Valid() && !split && pinned == {}
      modifies this`lan, kernel
      ensures Valid() && lan == {} && old(kernel.log) <= kernel.log
      ensures forall c :: c in kernel.log[|old(kernel.log)|..] <==> c.DelRoute? && c.n in old(lan)
      ensures Protects(kernel.start, kernel.log, |old(kernel.log)|, pins)
    {
      hide Books, Protects, LoopFree, Replay, Nets;
      ghost var from, start := |kernel.log|, kernel.start;
      StartProtected(start, kernel.log, pins);
      var todo := lan;
      while todo != {}
        invariant kernel.Valid() && old(kernel.log) <= kernel.log
        invariant pinned == {} && lan == old(lan) && !split
        invariant Books(kernel.fib, start, Nets(kernel.log), {}, todo, false)
        invariant forall n :: n in todo ==> n in lan
        invariant forall c :: c in kernel.log[from..] <==> c.DelRoute? && c.n in lan && c.n !in todo
        invariant Protects(start, kernel.log, from, pins)
        decreases |todo|
      {
        var n :| n in todo;
        ghost var log := kernel.log;
        UnlanKeeps(kernel.fib, start, Nets(log), todo, n);
        ReplaySnoc(start, log, DelRoute(n));
        kernel.Del(n);
        IdleLoopFree(kernel.fib, start, Nets(kernel.log), {}, todo - {n}, pins);
        ProtectsSnoc(start, log, DelRoute(n), from, pins);
        AfterSnoc(log, from, DelRoute(n));
        todo := todo - {n};
      }
      lan := {};
    }

    /** The commands delete exactly what the bookkeeping claims, the pinned addresses are
        protected to the end, and what remains is the first table less every prefix that was
        ever commanded: the first table is back exactly when it held none of them. */
    method Teardown()
      requires Valid()
      modifies this`pinned, this`lan, this`split, kernel
      ensures Valid() && pinned == {} && lan == {} && !split && old(kernel.log) <= kernel.log
      ensures forall c :: c in kernel.log[|old(kernel.log)|..] <==> c.DelRoute? && Owned(c.n, old(pinned), old(lan), old(split))
      ensures Protects(kernel.start, kernel.log, |old(kernel.log)|, old(pinned))
      ensures kernel.fib == kernel.start - Nets(kernel.log)
      ensures kernel.fib == kernel.start <==> Nets(kernel.log) !! kernel.start.Keys
    {
      hide Books, Protects, LoopFree, Replay, Nets;
      ghost var start, log0 := kernel.start, kernel.log;
      StartProtected(start, log0, pinned);
      if split { RemoveSplit(); }
      ghost var log1 := kernel.log;
      RemovePins();
      ghost var log2 := kernel.log;
      assert log2[..|log1|] == log1 && log1[..|log0|] == log0;
      ProtectsJoin(start, log2, |log0|, |log1|, old(pinned));
      RemoveLan(old(pinned));
      assert kernel.log[..|log2|] == log2;
      ProtectsJoin(start, kernel.log, |log0|, |log2|, old(pinned));
      assert kernel.log[|log0|..] == log1[|log0|..] + log2[|log1|..] + kernel.log[|log2|..];
      EmptyBooks(kernel.fib, start, Nets(kernel.log));
    }
  }

  lemma ProtectsJoin(start: Fib, log: seq<Command>, from: nat, mid: nat, pins: set<Text>)
    requires from <= mid <= |log| && Protects(start, log[..mid], from, pins) && Protects(start, log, mid, pins)
    ensures Protects(start, log, from, pins)
  {
    hide LoopFree, Replay;
    forall i | from < i <= |log| ensures LoopFree(Replay(start, log[..i]), pins, start) {
      if i <= mid { assert log[..mid][..i] == log[..i]; }
    }
  }

  lemma EmptyBooks(t: Fib, base: Fib, touched: set<Net>)
    requires Books(t, base, touched, {}, {}, false)
    ensures t == base - touched
    ensures t == base <==> touched !! base.Keys
  {
    hide PinsAt;
    assert forall n :: !Owned(n, {}, {}, false);
    assert forall n :: n in t <==> n in base && n !in touched;
  }

  /** With both halves of the default on the tunnel, an address that no pin, LAN route or
      foreign route covers goes into the tunnel. */
  lemma RestGoesToTunnel(r: FullTunnelRoutes, a: Addr)
    requires r.Valid() && r.split
    requires forall s :: IsSplit(s) ==> s !in r.kernel.start && s !in r.lan
    requires V4(a) !in r.pinned
    requires forall n :: n in r.lan || n in r.kernel.start ==> !In(a, n) || n.len == 0
    ensures GoesTo(r.kernel.fib, a, Tun)
  {
    hide In, Nets, Replay, PinsAt;
    var s := if a < 0x8000_0000 then Net(0, 1) else Net(0x8000_0000, 1);
    HalfHolds(a);
    assert At(r.kernel.fib, s, Tun);
    forall m | m in r.kernel.fib && In(a, m) ensures m.len <= s.len {
      if m in Nets(r.kernel.log) && m.len == 32 && V4(m.base) in r.pinned { HostHolds(a, m.base); }
    }
  }

  lemma HalfHolds(a: Addr)
    ensures In(a, if a < 0x8000_0000 then Net(0, 1) else Net(0x8000_0000, 1))
  {
    hide Bits.And, Bits.Shr, In, Mask;
    Bits.Pow2Values();
    assert Bits.Pow2(31) == 0x8000_0000;
    Cidr.ShlShr(0, 31);
    Cidr.ShlShr(1, 31);
    InIsRange(a, if a < 0x8000_0000 then Net(0, 1) else Net(0x8000_0000, 1));
  }

  /** LAN routes win over the tunnel for the addresses nothing more specific covers. */
  lemma LanStaysLocal(r: FullTunnelRoutes, n: Net, a: Addr)
    requires r.Valid() && n in r.lan && 1 < n.len < 32 && n !in r.kernel.start && In(a, n)
    requires forall m :: m in r.kernel.fib && In(a, m) ==> m.len <= n.len
    ensures GoesTo(r.kernel.fib, a, Phys)
  {
    hide In, Nets, Replay, PinsAt;
    assert At(r.kernel.fib, n, Phys);
  }

  // ----- a whole session -----

  /** The set a session wants pinned from its k-th synchronization on. */
  function Wanted(transport: set<Text>, updates: seq<set<Text>>, k: nat): set<Text>
    requires k <= |updates|
  {
    (if k == 0 then transport else updates[k - 1]) - {Word("")}
  }

  ghost function Hosts(ips: set<Text>): set<Net> { set ip | ip in ips && ip.V4? :: Host(ip.a) }

  ghost function EverPinned(transport: set<Text>, updates: seq<set<Text>>, k: nat): set<Net>
    requires k <= |updates|
  {
    Hosts(Wanted(transport, updates, k)) + if k == 0 then {} else EverPinned(transport, updates, k - 1)
  }

  /** Every prefix a session uses. */
  ghost function Prefixes(transport: set<Text>, lan: seq<Net>, updates: seq<set<Text>>): set<Net> {
    EverPinned(transport, updates, |updates|) + (set n | n in lan) + {LOW, HIGH}
  }

  // ----- the stages of a session, told by its commands -----

  predicate IsSetUp(c: Command, lan: seq<Net>) {
    c.AddRoute? && ((c.hop == Phys && c.n in lan) || (c.hop == Tun && IsSplit(c.n)))
  }

  /** First synchronization up to `pinned`, then LAN routes and split default up to `ready`. */
  ghost predicate SetUp(start: Fib, log: seq<Command>, pinned: nat, ready: nat, wanted: set<Text>, lan: seq<Net>) {
    && pinned <= ready <= |log|
    && Resynced(log[..pinned], 0, {}, wanted)
    && (forall c :: c in log[pinned..ready] <==> IsSetUp(c, lan))
    && Protects(start, log[..ready], pinned, wanted)
  }

  /** One later synchronization: its commands, and what it protects at every step. */
  ghost predicate Update(start: Fib, log: seq<Command>, from: nat, to: nat, was: set<Text>, now: set<Text>) {
    && from <= to <= |log|
    && Resynced(log[..to], from, was, now)
    && Protects(start, log[..to], from, was * now)
  }

  /** The log is the set-up and k updates; marks[0] is the end of the first synchronization,
      marks[i + 1] that of update i, with the set-up as number 0. */
  ghost predicate Stages(start: Fib, log: seq<Command>, marks: seq<nat>, transport: set<Text>, lan: seq<Net>,
                         updates: seq<set<Text>>, k: nat)
    requires k <= |updates|
  {
    && |marks| == k + 2 && marks[k + 1] == |log|
    && SetUp(start, log, marks[0], marks[1], Wanted(transport, updates, 0), lan)
    && (forall j :: 0 <= j < k ==>
          Update(start, log, marks[j + 1], marks[j + 2], Wanted(transport, updates, j), Wanted(transport, updates, j + 1)))
  }

  lemma StagesGrow(start: Fib, log: seq<Command>, more: seq<Command>, marks: seq<nat>, transport: set<Text>, lan: seq<Net>,
                   updates: seq<set<Text>>, k: nat)
    requires k < |updates| && Stages(start, log, marks, transport, lan, updates, k) && log <= more
    requires Update(start, more, |log|, |more|, Wanted(transport, updates, k), Wanted(transport, updates, k + 1))
    ensures Stages(start, more, marks + [|more|], transport, lan, updates, k + 1)
  {
    hide Resynced, Protects, Wanted;
    var ends := marks + [|more|];
    assert more[..marks[0]] == log[..marks[0]] && more[marks[0]..marks[1]] == log[marks[0]..marks[1]] && more[..marks[1]] == log[..marks[1]];
    forall j | 0 <= j < k + 1
      ensures Update(start, more, ends[j + 1], ends[j + 2], Wanted(transport, updates, j), Wanted(transport, updates, j + 1))
    {
      if j < k {
        assert Update(start, log, marks[j + 1], marks[j + 2], Wanted(transport, updates, j), Wanted(transport, updates, j + 1));
        assert more[..marks[j + 2]] == log[..marks[j + 2]];
      }
    }
  }

  lemma NetsConcat(a: seq<Command>, b: seq<Command>)
    ensures Nets(a + b) == Nets(a) + Nets(b)
  {
  }

  /** A re-pinning names the hosts of the sets it goes between. */
  lemma ResyncedNets(log: seq<Command>, from: nat, was: set<Text>, now: set<Text>)
    requires from <= |log| && Resynced(log, from, was, now)
    ensures Nets(log[from..]) <= Hosts(was) + Hosts(now)
    ensures Hosts(now) <= Hosts(was) + Nets(log[from..])
  {
    forall n | n in Nets(log[from..]) ensures n in Hosts(was) + Hosts(now) {
      var c :| c in log[from..] && c.n == n;
      assert IsSync(c, was, now) && n == Host(n.base);
      assert V4(n.base) in was || V4(n.base) in now;
    }
    forall n | n in Hosts(now) ensures n in Hosts(was) + Nets(log[from..]) {
      var ip :| ip in now && ip.V4? && n == Host(ip.a);
      if ip !in was { assert IsSync(AddRoute(n, Phys), was, now); } else { assert n in Hosts(was); }
    }
  }

  lemma NetsGrow(log: seq<Command>, from: nat, was: set<Text>, now: set<Text>)
    requires from <= |log| && Resynced(log, from, was, now) && Hosts(was) <= Nets(log[..from])
    ensures Nets(log) == Nets(log[..from]) + Hosts(now)
  {
    hide Resynced, Nets, Hosts;
    ResyncedNets(log, from, was, now);
    NetsConcat(log[..from], log[from..]);
    assert log == log[..from] + log[from..];
  }

  lemma Nothing(start: Fib)
    ensures Replay(start, []) == start && Nets([]) == {} && Hosts({}) == {}
  {
  }

  lemma SetUpDone(start: Fib, log: seq<Command>, mid: seq<Command>, end: seq<Command>, w: set<Text>, lan: seq<Net>)
    requires log <= mid && end == mid + [AddRoute(LOW, Tun), AddRoute(HIGH, Tun)] && Resynced(log, 0, {}, w)
    requires forall c :: c in mid[|log|..] <==> c.AddRoute? && c.hop == Phys && c.n in lan
    requires Protects(start, mid, |log|, w) && Protects(start, end, |mid|, w)
    ensures SetUp(start, end, |log|, |end|, w, lan)
    ensures Nets(end) == Nets(log) + (set n | n in lan) + {LOW, HIGH}
  {
    hide Protects, Resynced, Nets;
    assert end[..|log|] == log && end[..|mid|] == mid && end[..|end|] == end;
    ProtectsJoin(start, end, |log|, |mid|, w);
    assert end[|log|..|end|] == mid[|log|..] + [AddRoute(LOW, Tun), AddRoute(HIGH, Tun)];
    assert mid == log + mid[|log|..];
    NetsConcat(log, mid[|log|..]);
    NetsConcat(mid, [AddRoute(LOW, Tun), AddRoute(HIGH, Tun)]);
    SetUpNets(mid[|log|..], lan);
  }

  lemma SetUpNets(cmds: seq<Command>, lan: seq<Net>)
    requires forall c :: c in cmds <==> c.AddRoute? && c.hop == Phys && c.n in lan
    ensures Nets(cmds) == set n | n in lan
    ensures Nets([AddRoute(LOW, Tun), AddRoute(HIGH, Tun)]) == {LOW, HIGH}
  {
    forall n | n in lan ensures n in Nets(cmds) { assert AddRoute(n, Phys) in cmds; }
    var two := [AddRoute(LOW, Tun), AddRoute(HIGH, Tun)];
    assert two[0] in two && two[1] in two;
  }

  lemma StagesStart(start: Fib, log: seq<Command>, marks: seq<nat>, transport: set<Text>, lan: seq<Net>, updates: seq<set<Text>>)
    requires |marks| == 2 && marks[1] == |log| && SetUp(start, log, marks[0], marks[1], Wanted(transport, updates, 0), lan)
    ensures Stages(start, log, marks, transport, lan, updates, 0)
  {
  }

  lemma StagesEnd(start: Fib, log: seq<Command>, marks: seq<nat>, transport: set<Text>, lan: seq<Net>, updates: seq<set<Text>>)
    requires Stages(start, log, marks, transport, lan, updates, |updates|)
    ensures |marks| == |updates| + 2 && marks[|updates| + 1] == |log|
  {
  }

  lemma UpdateDone(start: Fib, log: seq<Command>, more: seq<Command>, was: set<Text>, now: set<Text>)
    requires log <= more && Resynced(more, |log|, was, now) && Protects(start, more, |log|, was * now)
    ensures Update(start, more, |log|, |more|, was, now)
    ensures more[..|log|] == log
  {
    assert more[..|more|] == more;
  }

  /** The teardown names nothing new. */
  lemma RemovalNets(log: seq<Command>, from: nat, pinned: set<Text>, lan: set<Net>)
    requires from <= |log| && Hosts(pinned) + lan + {LOW, HIGH} <= Nets(log[..from])
    requires forall c :: c in log[from..] ==> Owned(c.n, pinned, lan, true)
    ensures Nets(log) == Nets(log[..from])
  {
    NetsConcat(log[..from], log[from..]);
    assert log == log[..from] + log[from..];
    forall c | c in log[from..] ensures c.n in Nets(log[..from]) {
      if c.n.len == 32 && V4(c.n.base) in pinned { assert c.n == Host(c.n.base) && V4(c.n.base).V4? && c.n in Hosts(pinned); }
    }
  }

  /** Set up, re-pin any number of times, tear down. The commands are those of the stages and
      no others. At every step the addresses that stay wanted are protected from the tunnel.
      And the table ends as the first one less every prefix of the inputs: it is the first one
      again exactly when that held none of them. */
  method Session(kernel: Kernel, transport: set<Text>, lan: seq<Net>, updates: seq<set<Text>>)
    returns (r: FullTunnelRoutes, ghost marks: seq<nat>)
    requires kernel.Valid() && kernel.log == []
    modifies kernel
    ensures fresh(r) && r.kernel == kernel && kernel.Valid()
    ensures |marks| == |updates| + 2 && marks[|updates| + 1] <= |kernel.log|
    ensures Stages(kernel.start, kernel.log[..marks[|updates| + 1]], marks, transport, lan, updates, |updates|)
    ensures var last := Wanted(transport, updates, |updates|);
            && (forall c :: c in kernel.log[marks[|updates| + 1]..] <==> c.DelRoute? && Owned(c.n, last, set n | n in lan, true))
            && Protects(kernel.start, kernel.log, marks[|updates| + 1], last)
    ensures kernel.fib == old(kernel.fib) - Prefixes(transport, lan, updates)
    ensures kernel.fib == old(kernel.fib) <==> Prefixes(transport, lan, updates) !! old(kernel.fib).Keys
  {
    hide Books, Protects, LoopFree, Resynced, Stages, SetUp, Replay, Nets, Hosts;
    ghost var start := kernel.start;
    Nothing(start);
    r := new FullTunnelRoutes(kernel);
    r.SyncPins(transport);
    ghost var pinnedAt, w := |kernel.log|, r.pinned;
    NetsGrow(kernel.log, 0, {}, w);
    ghost var log := kernel.log;
    r.InstallLanRoutes(lan);
    ghost var log1 := kernel.log;
    r.InstallSplitDefault();
    SetUpDone(start, log, log1, kernel.log, w, lan);
    marks := [pinnedAt, |kernel.log|];
    StagesStart(start, kernel.log, marks, transport, lan, updates);
    for i := 0 to |updates|
      invariant r.Valid() && r.kernel == kernel && kernel.Valid() && r.split
      invariant r.pinned == Wanted(transport, updates, i) && (forall n :: n in r.lan <==> n in lan)
      invariant Stages(start, kernel.log, marks, transport, lan, updates, i)
      invariant Nets(kernel.log) == EverPinned(transport, updates, i) + (set n | n in lan) + {LOW, HIGH}
    {
      log := kernel.log;
      r.SyncPins(updates[i]);
      UpdateDone(start, log, kernel.log, Wanted(transport, updates, i), r.pinned);
      NetsGrow(kernel.log, |log|, Wanted(transport, updates, i), r.pinned);
      StagesGrow(start, log, kernel.log, marks, transport, lan, updates, i);
      marks := marks + [|kernel.log|];
    }
    log := kernel.log;
    StagesEnd(start, log, marks, transport, lan, updates);
    r.Teardown();
    assert kernel.log[..|log|] == log;
    RemovalNets(kernel.log, |log|, Wanted(transport, updates, |updates|), set n | n in lan);
  }

  /** Re-pinning from the node's own list: afterwards the coordinator, the advertised
      endpoints of every peer it talks to, and every direct endpoint in use have a host route,
      by the physical gateway unless another program had put one there first; and that route
      is the one the kernel takes. */
  method PinTransport(node: Router, conns: map<Key, Conn>, r: FullTunnelRoutes)
    requires KeysDistinct(node.peers) && r.Valid()
    modifies r`pinned, r.kernel
    ensures r.Valid() && old(r.kernel.log) <= r.kernel.log
    ensures forall a: Addr :: MustBypass(node.coord, node.exitNode, node.peers, conns, V4(a)) ==> HostRouted(r.kernel.fib, a, r.kernel.start)
  {
    hide MustBypass, GoesTo, Books, Protects;
    var ips := node.TransportIps(conns);
    r.SyncPins(ips);
    PinnedHostRouted(r);
  }

  /** The host route of a decides, and it is the gateway's or a foreign one. */
  ghost predicate HostRouted(t: Fib, a: Addr, base: Fib) {
    && Host(a) in t && GoesTo(t, a, t[Host(a)])
    && (t[Host(a)] == Phys || (Host(a) in base && t[Host(a)] == base[Host(a)]))
  }

  lemma PinnedHostRouted(r: FullTunnelRoutes)
    requires r.Valid()
    ensures forall a: Addr :: V4(a) in r.pinned ==> HostRouted(r.kernel.fib, a, r.kernel.start)
  {
    hide In, Nets, Replay;
    var t := r.kernel.fib;
    forall a: Addr | V4(a) in r.pinned ensures HostRouted(t, a, r.kernel.start) {
      HostHolds(a, a);
      var h := Host(a);
      assert At(t, h, Phys) || (h in r.kernel.start && At(t, h, r.kernel.start[h]));
      assert h in t && In(a, h) && forall m :: m in t && In(a, m) ==> m.len <= h.len;
    }
  }
}
