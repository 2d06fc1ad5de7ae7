/** relay.py: the blind rendezvous relay as the interleaving of its handlers. One step is the
    code a handler runs between two awaits. */
module Relay {
  import opened Words
  import opened Wrappers

  type Conn = nat                    // one accepted connection, and its handler
  type Ip = nat
  type Id = seq<Byte>                // an 8-byte device id

  const MAX_CONNS_PER_IP: nat := 5
  const MAX_HOSTS: nat := 10_000
  const READ_LIMIT: nat := 65_536

  const ROLE_HOST: Byte := 72        // 'H'
  const ROLE_CLIENT: Byte := 67      // 'C'
  const REGISTERED: Byte := 82       // 'R'
  const PAIRED: Byte := 80           // 'P'
  const OCCUPIED: Byte := 68         // 'D'
  const NO_HOST: Byte := 78          // 'N'

  // ----- the two dictionaries -----

  function CountOf(conns: map<Ip, nat>, ip: Ip): nat { if ip in conns then conns[ip] else 0 }

  predicate MayEnter(conns: map<Ip, nat>, ip: Ip) { CountOf(conns, ip) < MAX_CONNS_PER_IP }

  /** The head of `handle`. */
  function Entered(conns: map<Ip, nat>, ip: Ip): map<Ip, nat> {
    if MayEnter(conns, ip) then conns[ip := CountOf(conns, ip) + 1] else conns
  }

  /** The `finally` of `handle`. */
  function Left(conns: map<Ip, nat>, ip: Ip): map<Ip, nat> {
    if CountOf(conns, ip) <= 1 then conns - {ip} else conns[ip := conns[ip] - 1]
  }

  datatype Verdict = Full | Occupied | Registered

  /** May connection c at ip register rid? */
  function Judge(hosts: map<Id, Conn>, rid: Id, ip: Ip, oldIp: Ip, oldClosing: bool): Verdict {
    if |hosts| >= MAX_HOSTS && rid !in hosts then Full
    else if rid in hosts && !oldClosing && oldIp != ip then Occupied
    else Registered
  }

  /** What a registration decides: the verdict, the table after it, and whose link it closes. */
  datatype Registration = Registration(verdict: Verdict, hosts: map<Id, Conn>, evicted: Option<Conn>)

  function RegistrationOf(hosts: map<Id, Conn>, c: Conn, rid: Id, ip: Ip, oldIp: Ip, oldClosing: bool): Registration {
    var v := Judge(hosts, rid, ip, oldIp, oldClosing);
    if v != Registered then Registration(v, hosts, None)
    else Registration(v, hosts[rid := c], if rid in hosts && hosts[rid] != c then Some(hosts[rid]) else None)
  }

  /** The relay's globals, changed by the handlers between awaits. */
  class Tables {
    var hosts: map<Id, Conn>
    var conns: map<Ip, nat>

    constructor ()
      ensures hosts == map[] && conns == map[]
    {
      hosts, conns := map[], map[];
    }

    method Enter(ip: Ip) returns (ok: bool)
      modifies this`conns
      ensures ok == MayEnter(old(conns), ip) && conns == Entered(old(conns), ip)
    {
      var n := if ip in conns then conns[ip] else 0;
      if n >= MAX_CONNS_PER_IP { return false; }
      conns := conns[ip := n + 1];
      ok := true;
    }

    method Leave(ip: Ip)
      requires ip in conns && conns[ip] > 0
      modifies this`conns
      ensures conns == Left(old(conns), ip)
    {
      conns := conns[ip := conns[ip] - 1];
      if conns[ip] == 0 { conns := conns - {ip}; }
    }

    /** The host branch up to the first await; `evicted` is the connection it closes. */
    method Register(c: Conn, rid: Id, ip: Ip, ips: map<Conn, Ip>, closing: set<Conn>)
      returns (v: Verdict, evicted: Option<Conn>)
      requires forall r :: r in hosts ==> hosts[r] in ips
      requires c in ips && ips[c] == ip
      modifies this`hosts
      ensures Registration(v, hosts, evicted)
              == RegistrationOf(old(hosts), c, rid, ip, if rid in old(hosts) then ips[old(hosts)[rid]] else ip,
                                rid in old(hosts) && old(hosts)[rid] in closing)
    {
      evicted := None;
      if |hosts| >= MAX_HOSTS && rid !in hosts { return Full, None; }
      if rid in hosts {
        var prior := hosts[rid];
        if prior != c {
          if prior !in closing && ips[prior] != ip { return Occupied, None; }
          evicted := Some(prior);
        }
      }
      hosts := hosts[rid := c];
      v := Registered;
    }

    /** `hosts.pop(rid, None)`. */
    method Pop(rid: Id) returns (peer: Option<Conn>)
      modifies this`hosts
      ensures peer == if rid in old(hosts) then Some(old(hosts)[rid]) else None
      ensures hosts == old(hosts) - {rid}
    {
      peer := if rid in hosts then Some(hosts[rid]) else None;
      hosts := hosts - {rid};
    }
  }

  // ----- handlers -----

  datatype Pipe = Reading | Draining | Ended

  datatype Pc =
    | AwaitHeader
    | Refused                        // 'D' or 'N' written, draining
    | Registering(rid: Id)           // 'R' written, draining
    | Holding(rid: Id)               // asleep, waiting to be paired
    | PairHost                       // 'P' written to the host, draining
    | PairClient                     // 'P' written to the client, draining
    | Bridging(up: Pipe, down: Pipe) // client to host, host to client
    | Finished

  /** `out` is what the relay has written to the connection, `pos` how much of what it sends
      after the header has been read. A client's handler remembers its host. */
  datatype Link = Link(ip: Ip, pc: Pc, out: seq<Byte>, pos: nat, host: Option<Conn>)

  datatype State = State(hosts: map<Id, Conn>, conns: map<Ip, nat>, links: map<Conn, Link>, closing: set<Conn>)

  /** What each peer will ever send after its header. */
  type Inputs = Conn -> seq<Byte>

  datatype Step =
    | Accept(c: Conn, ip: Ip)
    | NoHeader(c: Conn)                       // timeout, end of stream or error
    | Header(c: Conn, role: Byte, rid: Id)
    | Drained(c: Conn)
    | DrainFailed(c: Conn)
    | Wake(c: Conn)
    | Copy(c: Conn, up: bool, n: nat)         // a pipe reads n bytes and writes them
    | CopyDrained(c: Conn, up: bool)
    | PipeEnds(c: Conn, up: bool)             // end of stream, or an error
    | Lost(c: Conn)                           // the transport starts closing by itself

  const START: State := State(map[], map[], map[], {})

  function At(s: State, c: Conn): Pc { if c in s.links then s.links[c].pc else Finished }

  function SetPc(s: State, c: Conn, pc: Pc): State
    requires c in s.links
  {
    s.(links := s.links[c := s.links[c].(pc := pc)])
  }

  function Write(s: State, c: Conn, data: seq<Byte>): State {
    if c in s.links then s.(links := s.links[c := s.links[c].(out := s.links[c].out + data)]) else s
  }

  function Close(s: State, c: Conn): State { s.(closing := s.closing + {c}) }

  /** The handler returns: `handle`'s finally block. */
  function Finish(s: State, c: Conn): State
    requires c in s.links
  {
    SetPc(s, c, Finished).(conns := Left(s.conns, s.links[c].ip))
  }

  /** The loop condition of a registered host, and its clean-up. */
  function Hold(s: State, c: Conn, rid: Id): State
    requires c in s.links
  {
    var own := rid in s.hosts && s.hosts[rid] == c;
    if c !in s.closing && own then SetPc(s, c, Holding(rid))
    else Finish(if own then s.(hosts := s.hosts - {rid}) else s, c)
  }

  function OnAccept(s: State, c: Conn, ip: Ip): State {
    if CountOf(s.conns, ip) >= MAX_CONNS_PER_IP
    then Close(s.(links := s.links[c := Link(ip, Finished, [], 0, None)]), c)
    else s.(links := s.links[c := Link(ip, AwaitHeader, [], 0, None)], conns := s.conns[ip := CountOf(s.conns, ip) + 1])
  }

  function OnHost(s: State, c: Conn, rid: Id): State
    requires c in s.links
  {
    var known := rid in s.hosts;
    var prior := if known then s.hosts[rid] else c;
    var oldIp := if prior in s.links then s.links[prior].ip else s.links[c].ip;
    match Judge(s.hosts, rid, s.links[c].ip, oldIp, prior in s.closing)
    case Full => Finish(Close(s, c), c)
    case Occupied => SetPc(Write(s, c, [OCCUPIED]), c, Refused)
    case Registered =>
      var t := if known && prior != c then Close(s, prior) else s;
      SetPc(Write(t.(hosts := t.hosts[rid := c]), c, [REGISTERED]), c, Registering(rid))
  }

  function OnClient(s: State, c: Conn, rid: Id): State
    requires c in s.links
  {
    if rid !in s.hosts then SetPc(Write(s, c, [NO_HOST]), c, Refused)
    else
      var h := s.hosts[rid];
      var t := Write(s.(hosts := s.hosts - {rid}), h, [PAIRED]);
      t.(links := t.links[c := t.links[c].(pc := PairHost, host := Some(h))])
  }

  function OnDrained(s: State, c: Conn): State
    requires c in s.links
  {
    match s.links[c].pc
    case Refused => Finish(Close(s, c), c)
    case Registering(rid) => Hold(s, c, rid)
    case PairHost => SetPc(Write(s, c, [PAIRED]), c, PairClient)
    case PairClient => SetPc(s, c, Bridging(Reading, Reading))
    case _ => s
  }

  /** A failed 'R' pops whatever the id maps to by then; a failed 'P' closes both ends. */
  function OnDrainFailed(s: State, c: Conn): State
    requires c in s.links
  {
    match s.links[c].pc
    case Refused => Finish(Close(s, c), c)
    case Registering(rid) => Finish(Close(s.(hosts := s.hosts - {rid}), c), c)
    case PairHost => Finish(Close(if s.links[c].host.Some? then Close(s, s.links[c].host.value) else s, c), c)
    case PairClient => Finish(Close(if s.links[c].host.Some? then Close(s, s.links[c].host.value) else s, c), c)
    case _ => s
  }

  function PipeOf(pc: Pc, up: bool): Pipe
    requires pc.Bridging?
  {
    if up then pc.up else pc.down
  }

  function SetPipe(pc: Pc, up: bool, p: Pipe): Pc
    requires pc.Bridging?
  {
    if up then pc.(up := p) else pc.(down := p)
  }

  function OnCopy(s: State, input: Inputs, c: Conn, up: bool, n: nat): State
    requires c in s.links && s.links[c].pc.Bridging? && s.links[c].host.Some? && s.links[c].host.value in s.links
    requires var src := if up then c else s.links[c].host.value;
             s.links[src].pos + n <= |input(src)|
  {
    var h := s.links[c].host.value;
    var src, dst := if up then c else h, if up then h else c;
    var data := input(src)[s.links[src].pos..s.links[src].pos + n];
    var t := s.(links := s.links[src := s.links[src].(pos := s.links[src].pos + n)]);
    SetPc(Write(t, dst, data), c, SetPipe(s.links[c].pc, up, Draining))
  }

  function OnPipeEnds(s: State, c: Conn, up: bool): State
    requires c in s.links && s.links[c].pc.Bridging? && s.links[c].host.Some?
  {
    var t := Close(s, if up then s.links[c].host.value else c);
    var pc := SetPipe(s.links[c].pc, up, Ended);
    if pc.up.Ended? && pc.down.Ended? then Finish(t, c) else SetPc(t, c, pc)
  }

  predicate Enabled(s: State, input: Inputs, a: Step) {
    match a
    case Accept(c, ip) => c !in s.links
    case NoHeader(c) => At(s, c).AwaitHeader?
    case Header(c, role, rid) => At(s, c).AwaitHeader?
    case Drained(c) => At(s, c).Refused? || At(s, c).Registering? || At(s, c).PairHost? || At(s, c).PairClient?
    case DrainFailed(c) => At(s, c).Refused? || At(s, c).Registering? || At(s, c).PairHost? || At(s, c).PairClient?
    case Wake(c) => At(s, c).Holding?
    case Copy(c, up, n) =>
      && At(s, c).Bridging? && PipeOf(At(s, c), up) == Reading && s.links[c].host.Some? && 0 < n <= READ_LIMIT
      && var src := if up then c else s.links[c].host.value;
         src in s.links && s.links[c].host.value in s.links && s.links[src].pos + n <= |input(src)|
    case CopyDrained(c, up) => At(s, c).Bridging? && PipeOf(At(s, c), up) == Draining
    case PipeEnds(c, up) => At(s, c).Bridging? && PipeOf(At(s, c), up) != Ended && s.links[c].host.Some?
    case Lost(c) => c in s.links
  }

  function Next(s: State, input: Inputs, a: Step): State
    requires Enabled(s, input, a)
  {
    match a
    case Accept(c, ip) => OnAccept(s, c, ip)
    case NoHeader(c) => Finish(Close(s, c), c)
    case Header(c, role, rid) =>
      if role == ROLE_HOST then OnHost(s, c, rid)
      else if role == ROLE_CLIENT then OnClient(s, c, rid)
      else Finish(Close(s, c), c)
    case Drained(c) => OnDrained(s, c)
    case DrainFailed(c) => OnDrainFailed(s, c)
    case Wake(c) => Hold(s, c, s.links[c].pc.rid)
    case Copy(c, up, n) => OnCopy(s, input, c, up, n)
    case CopyDrained(c, up) => SetPc(s, c, SetPipe(s.links[c].pc, up, Reading))
    case PipeEnds(c, up) => OnPipeEnds(s, c, up)
    case Lost(c) => Close(s, c)
  }

  /** A run: steps that are not possible where they stand do not happen. */
  function Run(input: Inputs, steps: seq<Step>): State {
    if steps == [] then START
    else
      var s := Run(input, steps[..|steps| - 1]);
      if Enabled(s, input, steps[|steps| - 1]) then Next(s, input, steps[|steps| - 1]) else s
  }

  // ----- what every step keeps -----

  ghost function Running(s: State, ip: Ip): set<Conn> {
    set c | c in s.links && s.links[c].ip == ip && s.links[c].pc != Finished
  }

  /** The counter of each address is the number of its running handlers; no zero entries. */
  ghost predicate CountsExact(s: State) {
    forall ip :: CountOf(s.conns, ip) == |Running(s, ip)| <= MAX_CONNS_PER_IP && (ip in s.conns ==> s.conns[ip] > 0)
  }

  predicate IsHost(pc: Pc) { pc.Registering? || pc.Holding? }

  type Links = map<Conn, Link>

  /** Nobody's host. */
  ghost predicate Unpaired(links: Links, h: Conn) { forall c :: c in links ==> links[c].host != Some(h) }

  /** An entry belongs to a host registered under that id and never paired. */
  ghost predicate EntryOk(hosts: map<Id, Conn>, links: Links, rid: Id)
    requires rid in hosts
  {
    var h := hosts[rid];
    && h in links && IsHost(links[h].pc) && links[h].pc.rid == rid
    && links[h].out == [REGISTERED] && links[h].pos == 0 && links[h].host == None && Unpaired(links, h)
  }

  /** A client c and its host h: each has been written its control bytes and then exactly what
      was read from the other. */
  ghost predicate Bridged(links: Links, input: Inputs, c: Conn, h: Conn)
    requires c in links
  {
    && c != h && h in links && links[h].host == None && (IsHost(links[h].pc) || links[h].pc.Finished?)
    && links[c].pos <= |input(c)| && links[h].pos <= |input(h)|
    && links[h].out == [REGISTERED, PAIRED] + input(c)[..links[c].pos]
    && (if links[c].out == [] then links[c].pos == 0 && links[h].pos == 0 && (links[c].pc.PairHost? || links[c].pc.Finished?)
        else !links[c].pc.PairHost? && links[c].out == [PAIRED] + input(h)[..links[h].pos])
  }

  ghost predicate LinkOk(links: Links, input: Inputs, c: Conn)
    requires c in links
  {
    var l := links[c];
    && (l.pc.AwaitHeader? ==> l.out == [] && l.pos == 0 && l.host == None && Unpaired(links, c))
    && (l.pc.PairHost? || l.pc.PairClient? || l.pc.Bridging? ==> l.host.Some?)
    && (l.host.Some? ==> Bridged(links, input, c, l.host.value) && !l.pc.Refused? && !IsHost(l.pc))
    && (l.host.Some? ==> forall d :: d in links && links[d].host == l.host ==> d == c)
  }

  ghost predicate Good(hosts: map<Id, Conn>, links: Links, input: Inputs) {
    (forall rid :: rid in hosts ==> EntryOk(hosts, links, rid)) && (forall c :: c in links ==> LinkOk(links, input, c))
  }

  ghost predicate Inv(s: State, input: Inputs) {
    |s.hosts| <= MAX_HOSTS && CountsExact(s) && Good(s.hosts, s.links, input)
  }

  // ----- counters -----

  /** The same handlers, on the same addresses, are running. */
  ghost predicate Alike(s: State, t: State) {
    && t.conns == s.conns && t.links.Keys == s.links.Keys
    && (forall c :: c in s.links ==> t.links[c].ip == s.links[c].ip && (t.links[c].pc == Finished <==> s.links[c].pc == Finished))
  }

  lemma AlikeCounts(s: State, t: State)
    requires CountsExact(s) && Alike(s, t)
    ensures CountsExact(t)
  {
    forall ip ensures CountOf(t.conns, ip) == |Running(t, ip)| <= MAX_CONNS_PER_IP && (ip in t.conns ==> t.conns[ip] > 0) {
      assert Running(t, ip) == Running(s, ip);
    }
  }

  lemma FinishCounts(s: State, c: Conn)
    requires CountsExact(s) && c in s.links && s.links[c].pc != Finished
    ensures CountsExact(Finish(s, c))
  {
    var t := Finish(s, c);
    var here := s.links[c].ip;
    forall ip ensures CountOf(t.conns, ip) == |Running(t, ip)| <= MAX_CONNS_PER_IP && (ip in t.conns ==> t.conns[ip] > 0) {
      if ip == here {
        assert Running(t, ip) == Running(s, ip) - {c};
        assert c in Running(s, ip);
      } else {
        assert Running(t, ip) == Running(s, ip);
      }
    }
  }

  lemma AcceptCounts(s: State, c: Conn, here: Ip)
    requires CountsExact(s) && c !in s.links
    ensures CountsExact(OnAccept(s, c, here))
  {
    hide Running, OnAccept;
    var t := OnAccept(s, c, here);
    AcceptRunning(s, c, here);
    AcceptConns(s, c, here);
    forall ip ensures CountOf(t.conns, ip) == |Running(t, ip)| <= MAX_CONNS_PER_IP && (ip in t.conns ==> t.conns[ip] > 0) {
      if ip == here && CountOf(s.conns, ip) < MAX_CONNS_PER_IP { assert |Running(t, ip)| == |Running(s, ip)| + 1; }
    }
  }

  lemma AcceptConns(s: State, c: Conn, here: Ip)
    ensures OnAccept(s, c, here).conns
            == if CountOf(s.conns, here) >= MAX_CONNS_PER_IP then s.conns else s.conns[here := CountOf(s.conns, here) + 1]
  {
  }

  lemma AcceptRunning(s: State, c: Conn, here: Ip)
    requires c !in s.links
    ensures CountOf(s.conns, here) < MAX_CONNS_PER_IP ==>
              Running(OnAccept(s, c, here), here) == Running(s, here) + {c} && c !in Running(s, here)
    ensures CountOf(s.conns, here) >= MAX_CONNS_PER_IP ==> Running(OnAccept(s, c, here), here) == Running(s, here)
    ensures forall ip :: ip != here ==> Running(OnAccept(s, c, here), ip) == Running(s, ip)
  {
    hide CountOf;
    var t := OnAccept(s, c, here);
    forall ip | ip != here ensures Running(t, ip) == Running(s, ip) {
      assert forall d :: d in Running(t, ip) <==> d in Running(s, ip);
    }
    assert forall d :: d != c ==> (d in Running(t, here) <==> d in Running(s, here));
  }

  lemma HoldCounts(s: State, c: Conn, rid: Id)
    requires CountsExact(s) && c in s.links && s.links[c].pc != Finished
    ensures CountsExact(Hold(s, c, rid))
  {
    hide CountsExact, Finish;
    var own := rid in s.hosts && s.hosts[rid] == c;
    if c !in s.closing && own {
      AlikeCounts(s, SetPc(s, c, Holding(rid)));
    } else {
      var t := if own then s.(hosts := s.hosts - {rid}) else s;
      AlikeCounts(s, t);
      FinishCounts(t, c);
    }
  }

  lemma OnHostCounts(s: State, c: Conn, rid: Id)
    requires CountsExact(s) && c in s.links && s.links[c].pc.AwaitHeader?
    ensures CountsExact(OnHost(s, c, rid))
  {
    hide CountsExact, Finish, Judge;
    if OnHost(s, c, rid) == Finish(Close(s, c), c) {
      AlikeCounts(s, Close(s, c));
      FinishCounts(Close(s, c), c);
    } else {
      AlikeCounts(s, OnHost(s, c, rid));
    }
  }

  lemma DrainFailedCounts(s: State, c: Conn)
    requires CountsExact(s) && c in s.links && s.links[c].pc != Finished
    ensures CountsExact(OnDrainFailed(s, c))
  {
    hide CountsExact, Finish;
    var l := s.links[c];
    var t :=
      match l.pc
      case Registering(rid) => Close(s.(hosts := s.hosts - {rid}), c)
      case PairHost => Close(if l.host.Some? then Close(s, l.host.value) else s, c)
      case PairClient => Close(if l.host.Some? then Close(s, l.host.value) else s, c)
      case _ => Close(s, c);
    AlikeCounts(s, t);
    FinishCounts(t, c);
  }

  lemma PipeEndsCounts(s: State, c: Conn, up: bool)
    requires CountsExact(s) && c in s.links && s.links[c].pc.Bridging? && s.links[c].host.Some?
    ensures CountsExact(OnPipeEnds(s, c, up))
  {
    hide CountsExact, Finish;
    var t := Close(s, if up then s.links[c].host.value else c);
    AlikeCounts(s, t);
    FinishCounts(t, c);
    var pc := SetPipe(s.links[c].pc, up, Ended);
    AlikeCounts(s, SetPc(t, c, pc));
  }

  lemma CloseCounts(s: State, c: Conn)
    requires CountsExact(s) && c in s.links && s.links[c].pc != Finished
    ensures CountsExact(Finish(Close(s, c), c))
  {
    hide CountsExact, Finish;
    AlikeCounts(s, Close(s, c));
    FinishCounts(Close(s, c), c);
  }

  lemma OnClientCounts(s: State, c: Conn, rid: Id)
    requires CountsExact(s) && c in s.links && s.links[c].pc.AwaitHeader?
    ensures CountsExact(OnClient(s, c, rid))
  {
    hide CountsExact;
    AlikeCounts(s, OnClient(s, c, rid));
  }

  lemma DrainedCounts(s: State, c: Conn)
    requires CountsExact(s) && c in s.links && s.links[c].pc != Finished
    ensures CountsExact(OnDrained(s, c))
  {
    hide CountsExact, Finish, Hold;
    var pc := s.links[c].pc;
    if pc.Refused? {
      CloseCounts(s, c);
    } else if pc.Registering? {
      HoldCounts(s, c, pc.rid);
    } else {
      AlikeCounts(s, OnDrained(s, c));
    }
  }

  lemma CopyCounts(s: State, input: Inputs, c: Conn, up: bool, n: nat)
    requires CountsExact(s) && Enabled(s, input, Copy(c, up, n))
    ensures CountsExact(OnCopy(s, input, c, up, n))
  {
    hide CountsExact;
    AlikeCounts(s, OnCopy(s, input, c, up, n));
  }

  lemma NextKeepsCounts(s: State, input: Inputs, a: Step)
    requires CountsExact(s) && Enabled(s, input, a)
    ensures CountsExact(Next(s, input, a))
  {
    hide CountsExact, Finish, Hold, OnHost, OnClient, OnDrained, OnDrainFailed, OnPipeEnds, OnAccept, OnCopy;
    match a
    case Accept(c, ip) => AcceptCounts(s, c, ip);
    case NoHeader(c) => CloseCounts(s, c);
    case Header(c, role, rid) =>
      CloseCounts(s, c);
      OnHostCounts(s, c, rid);
      OnClientCounts(s, c, rid);
    case Drained(c) => DrainedCounts(s, c);
    case DrainFailed(c) => DrainFailedCounts(s, c);
    case Wake(c) => HoldCounts(s, c, s.links[c].pc.rid);
    case Copy(c, up, n) => CopyCounts(s, input, c, up, n);
    case CopyDrained(c, up) => AlikeCounts(s, Next(s, input, a));
    case PipeEnds(c, up) => PipeEndsCounts(s, c, up);
    case Lost(c) => AlikeCounts(s, Close(s, c));
  }

  // ----- entries, pairs and bytes -----

  lemma PopKeeps(hosts: map<Id, Conn>, links: Links, input: Inputs, rid: Id)
    requires Good(hosts, links, input)
    ensures Good(hosts - {rid}, links, input)
    ensures |hosts - {rid}| <= |hosts|
  {
    hide LinkOk;
    var less := hosts - {rid};
    forall r | r in less ensures EntryOk(less, links, r) { assert EntryOk(hosts, links, r); }
    if rid in hosts { assert less.Keys == hosts.Keys - {rid}; } else { assert less == hosts; }
  }

  lemma AcceptKeeps(hosts: map<Id, Conn>, links: Links, input: Inputs, c: Conn, l: Link)
    requires Good(hosts, links, input) && c !in links
    requires l.out == [] && l.pos == 0 && l.host == None && (l.pc.AwaitHeader? || l.pc.Finished?)
    ensures Good(hosts, links[c := l], input)
  {
    var after := links[c := l];
    forall d | d in after ensures LinkOk(after, input, d) { if d != c { assert LinkOk(links, input, d); } }
    forall r | r in hosts ensures EntryOk(hosts, after, r) { assert EntryOk(hosts, links, r); }
  }

  /** A handler that is nobody's entry returns. */
  lemma FinishKeeps(hosts: map<Id, Conn>, links: Links, input: Inputs, c: Conn)
    requires Good(hosts, links, input) && c in links && forall r :: r in hosts ==> hosts[r] != c
    ensures Good(hosts, links[c := links[c].(pc := Finished)], input)
  {
    var after := links[c := links[c].(pc := Finished)];
    forall d | d in after ensures LinkOk(after, input, d) { assert LinkOk(links, input, d) && LinkOk(links, input, c); }
    forall r | r in hosts ensures EntryOk(hosts, after, r) { assert EntryOk(hosts, links, r); }
  }

  lemma RefuseKeeps(hosts: map<Id, Conn>, links: Links, input: Inputs, c: Conn, data: seq<Byte>)
    requires Good(hosts, links, input) && c in links && links[c].pc.AwaitHeader?
    ensures Good(hosts, links[c := links[c].(out := data, pc := Refused)], input)
  {
    var after := links[c := links[c].(out := data, pc := Refused)];
    forall d | d in after ensures LinkOk(after, input, d) { assert LinkOk(links, input, d) && LinkOk(links, input, c); }
    forall r | r in hosts ensures EntryOk(hosts, after, r) { assert EntryOk(hosts, links, r); }
  }

  lemma RegisterKeeps(hosts: map<Id, Conn>, links: Links, input: Inputs, c: Conn, rid: Id)
    requires Good(hosts, links, input) && c in links && links[c].pc.AwaitHeader?
    ensures Good(hosts[rid := c], links[c := links[c].(out := [REGISTERED], pc := Registering(rid))], input)
  {
    var after := links[c := links[c].(out := [REGISTERED], pc := Registering(rid))];
    assert LinkOk(links, input, c);
    forall d | d in after ensures LinkOk(after, input, d) { assert LinkOk(links, input, d); }
    var more := hosts[rid := c];
    forall r | r in more ensures EntryOk(more, after, r) {
      if r != rid { assert EntryOk(hosts, links, r); }
    }
  }

  lemma HoldingKeeps(hosts: map<Id, Conn>, links: Links, input: Inputs, c: Conn, rid: Id)
    requires Good(hosts, links, input) && c in links && IsHost(links[c].pc) && links[c].pc.rid == rid
    ensures Good(hosts, links[c := links[c].(pc := Holding(rid))], input)
  {
    var after := links[c := links[c].(pc := Holding(rid))];
    forall d | d in after ensures LinkOk(after, input, d) { assert LinkOk(links, input, d) && LinkOk(links, input, c); }
    forall r | r in hosts ensures EntryOk(hosts, after, r) { assert EntryOk(hosts, links, r); }
  }

  /** A client takes a host out of the table. */
  lemma PairKeeps(hosts: map<Id, Conn>, links: Links, input: Inputs, c: Conn, rid: Id)
    requires Good(hosts, links, input) && c in links && links[c].pc.AwaitHeader? && rid in hosts
    ensures var h := hosts[rid];
            && h in links && h != c
            && Good(hosts - {rid}, links[h := links[h].(out := links[h].out + [PAIRED])][c := links[c].(pc := PairHost, host := Some(h))], input)
  {
    var h := hosts[rid];
    assert EntryOk(hosts, links, rid) && LinkOk(links, input, c);
    assert h != c;
    var after := links[h := links[h].(out := links[h].out + [PAIRED])][c := links[c].(pc := PairHost, host := Some(h))];
    assert after[h].out == [REGISTERED, PAIRED] + input(c)[..0];
    forall d | d in after ensures LinkOk(after, input, d) { assert LinkOk(links, input, d); }
    forall r | r in hosts - {rid} ensures EntryOk(hosts - {rid}, after, r) { assert EntryOk(hosts, links, r); }
  }

  lemma GreetKeeps(hosts: map<Id, Conn>, links: Links, input: Inputs, c: Conn)
    requires Good(hosts, links, input) && c in links && links[c].pc.PairHost?
    ensures Good(hosts, links[c := links[c].(out := links[c].out + [PAIRED], pc := PairClient)], input)
  {
    var after := links[c := links[c].(out := links[c].out + [PAIRED], pc := PairClient)];
    assert LinkOk(links, input, c);
    var h := links[c].host.value;
    assert after[c].out == [PAIRED] + input(h)[..0];
    forall d | d in after ensures LinkOk(after, input, d) { assert LinkOk(links, input, d); }
    forall r | r in hosts ensures EntryOk(hosts, after, r) { assert EntryOk(hosts, links, r); }
  }

  lemma PipesKeep(hosts: map<Id, Conn>, links: Links, input: Inputs, c: Conn, pc: Pc)
    requires Good(hosts, links, input) && c in links && (links[c].pc.PairClient? || links[c].pc.Bridging?) && pc.Bridging?
    ensures Good(hosts, links[c := links[c].(pc := pc)], input)
  {
    var after := links[c := links[c].(pc := pc)];
    assert LinkOk(links, input, c);
    forall d | d in after ensures LinkOk(after, input, d) { assert LinkOk(links, input, d); }
    forall r | r in hosts ensures EntryOk(hosts, after, r) { assert EntryOk(hosts, links, r); }
  }

  lemma CopyKeeps(s: State, input: Inputs, c: Conn, up: bool, n: nat)
    requires Good(s.hosts, s.links, input) && Enabled(s, input, Copy(c, up, n))
    ensures OnCopy(s, input, c, up, n).hosts == s.hosts
    ensures Good(s.hosts, OnCopy(s, input, c, up, n).links, input)
  {
    hide LinkOk, EntryOk;
    var links, after := s.links, OnCopy(s, input, c, up, n).links;
    var h := links[c].host.value;
    CopyPair(s, input, c, up, n);
    forall d | d in after ensures LinkOk(after, input, d) { CopyOther(links, after, input, c, h, d); }
    forall r | r in s.hosts ensures EntryOk(s.hosts, after, r) {
      assert EntryOk(s.hosts, links, r);
      CopyEntry(s.hosts, links, after, input, c, h, r);
    }
  }

  /** The two ends of the copy. */
  lemma CopyPair(s: State, input: Inputs, c: Conn, up: bool, n: nat)
    requires c in s.links && LinkOk(s.links, input, c) && Enabled(s, input, Copy(c, up, n))
    ensures var after, h := OnCopy(s, input, c, up, n).links, s.links[c].host.value;
            && OnCopy(s, input, c, up, n).hosts == s.hosts
            && after.Keys == s.links.Keys && c != h && h in s.links
            && after[c].pc.Bridging? && after[c].host == Some(h) && after[h].host == None && after[h].pc == s.links[h].pc
            && (forall d :: d in s.links && d != c && d != h ==> after[d] == s.links[d])
            && Bridged(after, input, c, h)
  {
    hide CountsExact, Finish, Unpaired, Write, SetPc;
    var links, h := s.links, s.links[c].host.value;
    CopyLinks(s, input, c, up, n);
    if up {
      Extend([REGISTERED, PAIRED], input(c), links[c].pos, n);
    } else {
      Extend([PAIRED], input(h), links[h].pos, n);
    }
  }

  lemma Extend(pre: seq<Byte>, src: seq<Byte>, p: nat, n: nat)
    requires p + n <= |src|
    ensures pre + src[..p] + src[p..p + n] == pre + src[..p + n]
  {
    assert src[..p] + src[p..p + n] == src[..p + n];
  }

  lemma CopyLinks(s: State, input: Inputs, c: Conn, up: bool, n: nat)
    requires Enabled(s, input, Copy(c, up, n)) && c in s.links && s.links[c].host != Some(c)
    ensures var after, h := OnCopy(s, input, c, up, n).links, s.links[c].host.value;
            var src, dst := if up then c else h, if up then h else c;
            var p := s.links[src].pos;
            && OnCopy(s, input, c, up, n).hosts == s.hosts && after.Keys == s.links.Keys
            && after[src].pos == p + n && after[src].out == s.links[src].out
            && after[dst].pos == s.links[dst].pos && after[dst].out == s.links[dst].out + input(src)[p..p + n]
            && after[c].pc.Bridging? && after[c].host == Some(h) && after[h].host == s.links[h].host && after[h].pc == s.links[h].pc
            && (forall d :: d in s.links && d != c && d != h ==> after[d] == s.links[d])
  {
  }

  lemma CopyOther(links: Links, after: Links, input: Inputs, c: Conn, h: Conn, d: Conn)
    requires forall d :: d in links ==> LinkOk(links, input, d)
    requires after.Keys == links.Keys && c in links && h in links && links[c].host == Some(h) && d in links && c != h
    requires links[c].pc.Bridging? && after[c].pc.Bridging? && after[c].host == Some(h) && after[h].host == None && after[h].pc == links[h].pc
    requires forall d :: d in links && d != c && d != h ==> after[d] == links[d]
    requires Bridged(after, input, c, h)
    ensures LinkOk(after, input, d)
  {
    assert LinkOk(links, input, c) && LinkOk(links, input, d);
  }

  lemma CopyEntry(hosts: map<Id, Conn>, links: Links, after: Links, input: Inputs, c: Conn, h: Conn, r: Id)
    requires r in hosts && EntryOk(hosts, links, r)
    requires after.Keys == links.Keys && c in links && h in links && links[c].host == Some(h) && c != h
    requires after[c].host == Some(h) && after[h].host == None
    requires forall d :: d in links && d != c && d != h ==> after[d] == links[d]
    ensures EntryOk(hosts, after, r)
  {
  }

  // ----- every run -----

  lemma HoldKeeps(s: State, input: Inputs, c: Conn, rid: Id)
    requires Inv(s, input) && c in s.links && IsHost(s.links[c].pc) && s.links[c].pc.rid == rid
    ensures Inv(Hold(s, c, rid), input)
  {
    hide CountsExact, LinkOk;
    HoldCounts(s, c, rid);
    var own := rid in s.hosts && s.hosts[rid] == c;
    if c !in s.closing && own {
      HoldingKeeps(s.hosts, s.links, input, c, rid);
    } else {
      var hosts := if own then s.hosts - {rid} else s.hosts;
      PopKeeps(s.hosts, s.links, input, rid);
      OwnEntryOnly(s.hosts, s.links, c, rid);
      FinishKeeps(hosts, s.links, input, c);
    }
  }

  /** A host is in the table at most under its own id. */
  lemma OwnEntryOnly(hosts: map<Id, Conn>, links: Links, c: Conn, rid: Id)
    requires c in links && IsHost(links[c].pc) && links[c].pc.rid == rid
    requires forall r :: r in hosts ==> EntryOk(hosts, links, r)
    ensures forall r :: r in hosts && hosts[r] == c ==> r == rid
  {
  }

  /** Only a registered host is in the table. */
  lemma NoEntry(hosts: map<Id, Conn>, links: Links, c: Conn)
    requires c in links && !IsHost(links[c].pc)
    requires forall r :: r in hosts ==> EntryOk(hosts, links, r)
    ensures forall r :: r in hosts ==> hosts[r] != c
  {
  }

  lemma EndKeeps(s: State, t: State, input: Inputs, c: Conn)
    requires Inv(s, input) && c in s.links && !IsHost(s.links[c].pc)
    requires t.hosts == s.hosts && t.links == s.links
    ensures Good(Finish(t, c).hosts, Finish(t, c).links, input)
  {
    hide CountsExact, LinkOk;
    NoEntry(s.hosts, s.links, c);
    FinishKeeps(s.hosts, s.links, input, c);
  }

  /** Writing to a connection and then moving its handler is one update. */
  lemma WriteAndMove(s: State, c: Conn, data: seq<Byte>, pc: Pc)
    requires c in s.links
    ensures SetPc(Write(s, c, data), c, pc).links == s.links[c := s.links[c].(out := s.links[c].out + data, pc := pc)]
    ensures SetPc(Write(s, c, data), c, pc).hosts == s.hosts
  {
  }

  lemma OnHostKeeps(s: State, input: Inputs, c: Conn, rid: Id)
    requires Inv(s, input) && c in s.links && s.links[c].pc.AwaitHeader?
    ensures Inv(OnHost(s, c, rid), input)
  {
    hide CountsExact, Good, Finish;
    OnHostCounts(s, c, rid);
    EndKeeps(s, Close(s, c), input, c);
    FreshOut(s.hosts, s.links, input, c);
    RefuseKeeps(s.hosts, s.links, input, c, [OCCUPIED]);
    RegisterKeeps(s.hosts, s.links, input, c, rid);
    FinishHosts(Close(s, c), c);
    assert [] + [OCCUPIED] == [OCCUPIED] && [] + [REGISTERED] == [REGISTERED];
    WriteAndMove(s, c, [OCCUPIED], Refused);
    WriteAndMove(s, c, [REGISTERED], Registering(rid));
    var t := OnHost(s, c, rid);
    assert t.links == s.links[c := s.links[c].(out := [OCCUPIED], pc := Refused)]
           || t.links == s.links[c := s.links[c].(out := [REGISTERED], pc := Registering(rid))] || t == Finish(Close(s, c), c);
    if rid in s.hosts { assert s.hosts[rid := c].Keys == s.hosts.Keys; } else { assert s.hosts[rid := c].Keys == s.hosts.Keys + {rid}; }
  }

  lemma FinishHosts(s: State, c: Conn)
    requires c in s.links
    ensures Finish(s, c).hosts == s.hosts
  {
  }

  lemma FreshOut(hosts: map<Id, Conn>, links: Links, input: Inputs, c: Conn)
    requires Good(hosts, links, input) && c in links && links[c].pc.AwaitHeader?
    ensures links[c].out == []
  {
    assert LinkOk(links, input, c);
  }

  lemma OnClientKeeps(s: State, input: Inputs, c: Conn, rid: Id)
    requires Inv(s, input) && c in s.links && s.links[c].pc.AwaitHeader?
    ensures Inv(OnClient(s, c, rid), input)
  {
    hide CountsExact, Good;
    OnClientCounts(s, c, rid);
    FreshOut(s.hosts, s.links, input, c);
    assert [] + [NO_HOST] == [NO_HOST];
    if rid in s.hosts {
      PairKeeps(s.hosts, s.links, input, c, rid);
      assert s.hosts.Keys == (s.hosts - {rid}).Keys + {rid};
    } else {
      RefuseKeeps(s.hosts, s.links, input, c, [NO_HOST]);
      WriteAndMove(s, c, [NO_HOST], Refused);
    }
  }

  lemma OnDrainedKeeps(s: State, input: Inputs, c: Conn)
    requires Inv(s, input) && Enabled(s, input, Drained(c))
    ensures Inv(OnDrained(s, c), input)
  {
    hide CountsExact, Good, Finish;
    DrainedCounts(s, c);
    var pc := s.links[c].pc;
    if pc.Refused? {
      EndKeeps(s, Close(s, c), input, c);
      FinishHosts(Close(s, c), c);
    } else if pc.Registering? {
      HoldKeeps(s, input, c, pc.rid);
    } else if pc.PairHost? {
      GreetKeeps(s.hosts, s.links, input, c);
      WriteAndMove(s, c, [PAIRED], PairClient);
    } else {
      PipesKeep(s.hosts, s.links, input, c, Bridging(Reading, Reading));
    }
  }

  lemma OnDrainFailedKeeps(s: State, input: Inputs, c: Conn)
    requires Inv(s, input) && Enabled(s, input, DrainFailed(c))
    ensures Inv(OnDrainFailed(s, c), input)
  {
    hide CountsExact, Good, Finish;
    DrainFailedCounts(s, c);
    var pc := s.links[c].pc;
    if pc.Registering? {
      FailedRegistrationKeeps(s.hosts, s.links, input, c);
      var t := Close(s.(hosts := s.hosts - {pc.rid}), c);
      FinishParts(t, c);
      assert OnDrainFailed(s, c) == Finish(t, c);
    } else {
      EndKeeps(s, s, input, c);
      FinishParts(s, c);
      var t := OnDrainFailed(s, c);
      FinishParts(Close(s, c), c);
      if s.links[c].host.Some? { FinishParts(Close(Close(s, s.links[c].host.value), c), c); }
      assert t.hosts == s.hosts && t.links == s.links[c := s.links[c].(pc := Finished)];
    }
  }

  lemma FinishParts(s: State, c: Conn)
    requires c in s.links
    ensures Finish(s, c).hosts == s.hosts && Finish(s, c).links == s.links[c := s.links[c].(pc := Finished)]
  {
  }

  lemma FailedRegistrationKeeps(hosts: map<Id, Conn>, links: Links, input: Inputs, c: Conn)
    requires Good(hosts, links, input) && c in links && links[c].pc.Registering?
    ensures Good(hosts - {links[c].pc.rid}, links[c := links[c].(pc := Finished)], input)
    ensures |hosts - {links[c].pc.rid}| <= |hosts|
  {
    hide LinkOk;
    PopKeeps(hosts, links, input, links[c].pc.rid);
    OwnEntryOnly(hosts, links, c, links[c].pc.rid);
    FinishKeeps(hosts - {links[c].pc.rid}, links, input, c);
  }

  lemma OnPipeEndsKeeps(s: State, input: Inputs, c: Conn, up: bool)
    requires Inv(s, input) && Enabled(s, input, PipeEnds(c, up))
    ensures Inv(OnPipeEnds(s, c, up), input)
  {
    hide CountsExact, Good;
    PipeEndsCounts(s, c, up);
    EndKeeps(s, s, input, c);
    PipesKeep(s.hosts, s.links, input, c, SetPipe(s.links[c].pc, up, Ended));
  }

  lemma NextKeepsInv(s: State, input: Inputs, a: Step)
    requires Inv(s, input) && Enabled(s, input, a)
    ensures Inv(Next(s, input, a), input)
  {
    hide CountsExact, Good, OnHost, OnClient, OnDrained, OnDrainFailed, OnPipeEnds, OnCopy, Hold, Finish;
    NextKeepsCounts(s, input, a);
    match a
    case Accept(c, ip) =>
      AcceptKeeps(s.hosts, s.links, input, c, Link(ip, AwaitHeader, [], 0, None));
      AcceptKeeps(s.hosts, s.links, input, c, Link(ip, Finished, [], 0, None));
    case NoHeader(c) =>
      EndKeeps(s, Close(s, c), input, c);
      FinishHosts(Close(s, c), c);
    case Header(c, role, rid) =>
      EndKeeps(s, Close(s, c), input, c);
      FinishHosts(Close(s, c), c);
      OnHostKeeps(s, input, c, rid);
      OnClientKeeps(s, input, c, rid);
    case Drained(c) => OnDrainedKeeps(s, input, c);
    case DrainFailed(c) => OnDrainFailedKeeps(s, input, c);
    case Wake(c) => HoldKeeps(s, input, c, s.links[c].pc.rid);
    case Copy(c, up, n) => CopyKeeps(s, input, c, up, n);
    case CopyDrained(c, up) => PipesKeep(s.hosts, s.links, input, c, SetPipe(s.links[c].pc, up, Reading));
    case PipeEnds(c, up) => OnPipeEndsKeeps(s, input, c, up);
    case Lost(c) =>
  }

  lemma {:induction false} RunKeepsInv(input: Inputs, steps: seq<Step>)
    ensures Inv(Run(input, steps), input)
  {
    hide Enabled, Next, Good, CountsExact;
    if steps == [] {
      StartOk(input);
    } else {
      var n := |steps| - 1;
      RunKeepsInv(input, steps[..n]);
      if Enabled(Run(input, steps[..n]), input, steps[n]) { NextKeepsInv(Run(input, steps[..n]), input, steps[n]); }
    }
  }

  lemma StartOk(input: Inputs)
    ensures Inv(START, input)
  {
    forall ip ensures Running(START, ip) == {} {}
  }

  // ----- what every run promises -----

  /** The table is bounded, and every address's count is its running handlers: at most five,
      with an entry exactly when there are any. */
  lemma LimitsHold(input: Inputs, steps: seq<Step>, ip: Ip)
    ensures |Run(input, steps).hosts| <= MAX_HOSTS
    ensures CountOf(Run(input, steps).conns, ip) == |Running(Run(input, steps), ip)| <= MAX_CONNS_PER_IP
    ensures ip in Run(input, steps).conns <==> Running(Run(input, steps), ip) != {}
  {
    hide Run, Running, Good;
    RunKeepsInv(input, steps);
    var s := Run(input, steps);
    if Running(s, ip) == {} { assert |Running(s, ip)| == 0; }
    if ip !in s.conns { assert |Running(s, ip)| == 0; }
  }

  /** A registration is bridged to at most one client, and a paired or finished host is not
      in the table. */
  lemma OneClientPerHost(input: Inputs, steps: seq<Step>, c: Conn, d: Conn)
    requires var links := Run(input, steps).links;
             c in links && d in links && links[c].host.Some? && links[d].host == links[c].host
    ensures c == d
    ensures forall rid :: rid in Run(input, steps).hosts ==> Some(Run(input, steps).hosts[rid]) != Run(input, steps).links[c].host
  {
    hide Run, CountsExact;
    RunKeepsInv(input, steps);
    var s := Run(input, steps);
    assert LinkOk(s.links, input, c);
    forall rid | rid in s.hosts ensures Some(s.hosts[rid]) != s.links[c].host { assert EntryOk(s.hosts, s.links, rid); }
  }

  /** The host of a pair is written exactly 'R', 'P' and then all that has been read from its
      client, which is a prefix of what the client sends; the client nothing, or 'P' and then
      all that has been read from the host. */
  lemma BytesGoToThePartnerOnly(input: Inputs, steps: seq<Step>, c: Conn)
    requires c in Run(input, steps).links && Run(input, steps).links[c].host.Some?
    ensures var links := Run(input, steps).links;
            var h := links[c].host.value;
            && h in links && h != c && links[c].pos <= |input(c)| && links[h].pos <= |input(h)|
            && links[h].out == [REGISTERED, PAIRED] + input(c)[..links[c].pos]
            && (links[c].out == [PAIRED] + input(h)[..links[h].pos] || (links[c].out == [] && links[h].pos == 0))
  {
    hide Run, CountsExact;
    RunKeepsInv(input, steps);
    assert LinkOk(Run(input, steps).links, input, c);
  }

  /** An unpaired registered host has been written 'R' and nothing of what it sends has been read. */
  lemma WaitingHostUntouched(input: Inputs, steps: seq<Step>, rid: Id)
    requires rid in Run(input, steps).hosts
    ensures var s := Run(input, steps);
            var h := s.hosts[rid];
            h in s.links && s.links[h].out == [REGISTERED] && s.links[h].pos == 0
  {
    hide Run, CountsExact;
    RunKeepsInv(input, steps);
    assert EntryOk(Run(input, steps).hosts, Run(input, steps).links, rid);
  }

  // ----- what each connection is answered -----

  /** The step at which c's header was taken. */
  ghost function TakenAt(input: Inputs, steps: seq<Step>, c: Conn): (k: Option<nat>)
    ensures k.Some? ==> k.value < |steps| && steps[k.value].Header? && steps[k.value].c == c
  {
    if steps == [] then None
    else
      var n := |steps| - 1;
      if steps[n].Header? && steps[n].c == c && Enabled(Run(input, steps[..n]), input, steps[n]) then Some(n)
      else TakenAt(input, steps[..n], c)
  }

  /** What the connection c must have been written by state t, if its header was taken in s. */
  ghost predicate Answered(s: State, t: State, c: Conn, role: Byte, rid: Id)
    requires c in t.links
  {
    var l := t.links[c];
    if role == ROLE_CLIENT then
      if rid in s.hosts then l.host == Some(s.hosts[rid]) else l.host == None && l.out == [NO_HOST]
    else
      && l.host == None
      && if role != ROLE_HOST || (rid !in s.hosts && |s.hosts| >= 10_000) then l.out == []
         else if HeldElsewhere(s, c, rid) then l.out == [OCCUPIED]
         else [REGISTERED] <= l.out && (Unpaired(t.links, c) ==> l.out == [REGISTERED])
  }

  /** A host that is still open and came from another address has the id. */
  ghost predicate HeldElsewhere(s: State, c: Conn, rid: Id) {
    && rid in s.hosts && s.hosts[rid] !in s.closing
    && c in s.links && s.hosts[rid] in s.links && s.links[s.hosts[rid]].ip != s.links[c].ip
  }

  /** How a step that does not take c's header changes c. */
  ghost predicate Later(s: State, t: State, c: Conn)
    requires c in s.links
  {
    && c in t.links && t.links[c].host == s.links[c].host
    && (!s.links[c].pc.AwaitHeader? ==> !t.links[c].pc.AwaitHeader?)
    && (Unpaired(t.links, c) ==> Unpaired(s.links, c))
    && (t.links[c].out != s.links[c].out ==>
          s.links[c].host.Some? || (!Unpaired(t.links, c) && [REGISTERED] <= s.links[c].out <= t.links[c].out))
  }

  lemma LaterStays(s: State, t: State, u: State, c: Conn, role: Byte, rid: Id)
    requires c in t.links && Answered(s, t, c, role, rid) && Later(t, u, c)
    ensures c in u.links && Answered(s, u, c, role, rid)
  {
    hide HeldElsewhere, Unpaired;
    if u.links[c].out != t.links[c].out && t.links[c].host.None? {
      assert t.links[c].out[0] == REGISTERED && u.links[c].out[0] == REGISTERED;
    }
  }

  /** Only c has changed, and neither its bytes nor its host. */
  lemma MoveLater(s: State, t: State, x: Conn, c: Conn)
    requires c in s.links && x in s.links && x in t.links && t.links == s.links[x := t.links[x]]
    requires t.links[x].out == s.links[x].out && t.links[x].host == s.links[x].host && !t.links[x].pc.AwaitHeader?
    ensures Later(s, t, c)
  {
    assert forall d :: d in s.links ==> t.links[d].host == s.links[d].host;
  }

  lemma AcceptLater(s: State, x: Conn, ip: Ip, c: Conn)
    requires c in s.links && x !in s.links
    ensures Later(s, OnAccept(s, x, ip), c)
  {
    var t := OnAccept(s, x, ip);
    if Unpaired(t.links, c) { assert forall d :: d in s.links ==> t.links[d].host == s.links[d].host; }
  }

  lemma HostLater(s: State, input: Inputs, x: Conn, rid: Id, c: Conn)
    requires Inv(s, input) && c in s.links && x in s.links && x != c && s.links[x].pc.AwaitHeader?
    ensures Later(s, OnHost(s, x, rid), c)
  {
    hide CountsExact, Good, Finish, Judge;
    FinishParts(Close(s, x), x);
    var t := OnHost(s, x, rid);
    assert t.links == s.links[x := t.links[x]] && t.links[x].host == s.links[x].host;
    assert forall d :: d in s.links ==> t.links[d].host == s.links[d].host;
  }

  lemma ClientLater(s: State, input: Inputs, x: Conn, rid: Id, c: Conn)
    requires Inv(s, input) && c in s.links && x in s.links && x != c && s.links[x].pc.AwaitHeader?
    ensures Later(s, OnClient(s, x, rid), c)
  {
    hide CountsExact, Bridged;
    var t := OnClient(s, x, rid);
    assert LinkOk(s.links, input, x);
    if rid in s.hosts {
      assert EntryOk(s.hosts, s.links, rid);
      var h := s.hosts[rid];
      assert t.links[x].host == Some(h);
      assert forall d :: d in s.links && d != x ==> t.links[d].host == s.links[d].host;
    } else {
      assert forall d :: d in s.links ==> t.links[d].host == s.links[d].host;
    }
  }

  lemma CopyLater(s: State, input: Inputs, x: Conn, up: bool, n: nat, c: Conn)
    requires Inv(s, input) && c in s.links && Enabled(s, input, Copy(x, up, n))
    ensures Later(s, OnCopy(s, input, x, up, n), c)
  {
    hide CountsExact, EntryOk;
    assert LinkOk(s.links, input, x) && LinkOk(s.links, input, c);
    CopyLinks(s, input, x, up, n);
    var t, h := OnCopy(s, input, x, up, n), s.links[x].host.value;
    assert forall d :: d in s.links ==> t.links[d].host == s.links[d].host;
    assert t.links[x].host == Some(h);
    if c == h && up { assert !Unpaired(t.links, c) && s.links[h].out[0] == REGISTERED; }
  }

  lemma DrainedLater(s: State, input: Inputs, x: Conn, c: Conn)
    requires Inv(s, input) && c in s.links && Enabled(s, input, Drained(x))
    ensures Later(s, OnDrained(s, x), c)
  {
    hide CountsExact, Good, Finish, Hold;
    var pc := s.links[x].pc;
    if pc.PairHost? {
      var t := OnDrained(s, x);
      assert LinkOk(s.links, input, x) by { assert Good(s.hosts, s.links, input); OneLink(s.hosts, s.links, input, x); }
      assert forall d :: d in s.links ==> t.links[d].host == s.links[d].host;
    } else if pc.Registering? {
      HoldLater(s, x, pc.rid, c);
    } else {
      FinishParts(Close(s, x), x);
      MoveLater(s, OnDrained(s, x), x, c);
    }
  }

  lemma OneLink(hosts: map<Id, Conn>, links: Links, input: Inputs, c: Conn)
    requires Good(hosts, links, input) && c in links
    ensures LinkOk(links, input, c)
  {
  }

  lemma HoldLater(s: State, x: Conn, rid: Id, c: Conn)
    requires c in s.links && x in s.links
    ensures Later(s, Hold(s, x, rid), c)
  {
    hide Finish;
    var own := rid in s.hosts && s.hosts[rid] == x;
    FinishParts(if own then s.(hosts := s.hosts - {rid}) else s, x);
    MoveLater(s, Hold(s, x, rid), x, c);
  }

  lemma DrainFailedLater(s: State, input: Inputs, x: Conn, c: Conn)
    requires c in s.links && Enabled(s, input, DrainFailed(x))
    ensures Later(s, OnDrainFailed(s, x), c)
  {
    MoveLater(s, OnDrainFailed(s, x), x, c);
  }

  lemma PipeEndsLater(s: State, input: Inputs, x: Conn, up: bool, c: Conn)
    requires c in s.links && Enabled(s, input, PipeEnds(x, up))
    ensures Later(s, OnPipeEnds(s, x, up), c)
  {
    MoveLater(s, OnPipeEnds(s, x, up), x, c);
  }

  lemma NextLater(s: State, input: Inputs, a: Step, c: Conn)
    requires Inv(s, input) && Enabled(s, input, a) && c in s.links && !(a.Header? && a.c == c)
    ensures Later(s, Next(s, input, a), c)
  {
    hide Inv, Later, OnHost, OnClient, OnDrained, OnDrainFailed, OnPipeEnds, OnCopy, OnAccept, Hold, Finish;
    match a
    case Accept(x, ip) => AcceptLater(s, x, ip, c);
    case NoHeader(x) =>
      FinishParts(Close(s, x), x);
      MoveLater(s, Next(s, input, a), x, c);
    case Header(x, role, rid) =>
      FinishParts(Close(s, x), x);
      MoveLater(s, Finish(Close(s, x), x), x, c);
      HostLater(s, input, x, rid, c);
      ClientLater(s, input, x, rid, c);
    case Drained(x) => DrainedLater(s, input, x, c);
    case DrainFailed(x) => DrainFailedLater(s, input, x, c);
    case Wake(x) => HoldLater(s, x, s.links[x].pc.rid, c);
    case Copy(x, up, n) => CopyLater(s, input, x, up, n, c);
    case CopyDrained(x, up) => MoveLater(s, Next(s, input, a), x, c);
    case PipeEnds(x, up) => PipeEndsLater(s, input, x, up, c);
    case Lost(x) => LostLater(s, x, c);
  }

  lemma LostLater(s: State, x: Conn, c: Conn)
    requires c in s.links
    ensures Later(s, Close(s, x), c)
  {
  }

  /** The answer given in the step that takes the header. */
  lemma HeaderAnswered(s: State, input: Inputs, c: Conn, role: Byte, rid: Id)
    requires Inv(s, input) && Enabled(s, input, Header(c, role, rid))
    ensures var t := Next(s, input, Header(c, role, rid));
            c in t.links && !t.links[c].pc.AwaitHeader? && Answered(s, t, c, role, rid)
  {
    hide CountsExact, EntryOk, Finish;
    assert LinkOk(s.links, input, c);
    FinishParts(Close(s, c), c);
    if role == ROLE_CLIENT {
      assert [] + [NO_HOST] == [NO_HOST];
      if rid in s.hosts { assert s.hosts[rid] != c by { HostIsNot(s, input, c, rid); } }
    } else if role == ROLE_HOST {
      assert [] + [OCCUPIED] == [OCCUPIED] && [] + [REGISTERED] == [REGISTERED];
      if rid in s.hosts { HostIsNot(s, input, c, rid); }
    }
  }

  lemma HostIsNot(s: State, input: Inputs, c: Conn, rid: Id)
    requires Inv(s, input) && c in s.links && s.links[c].pc.AwaitHeader? && rid in s.hosts
    ensures s.hosts[rid] != c && s.hosts[rid] in s.links
  {
    assert EntryOk(s.hosts, s.links, rid);
  }

  /** In every run each connection has been written exactly what its header called for when it
      was taken: a client of an unknown id 'N' and nothing more, a client of a known one is
      bridged to that host; a newcomer 'D' when a live host of another address has the id,
      nothing when the table is full, otherwise 'R', and nothing more until a client meets it. */
  lemma {:induction false} AnsweredExactly(input: Inputs, steps: seq<Step>, c: Conn)
    requires c in Run(input, steps).links
    ensures var t, k := Run(input, steps), TakenAt(input, steps, c);
            if k.None? then t.links[c].out == [] && t.links[c].host == None && Unpaired(t.links, c)
            else Answered(Run(input, steps[..k.value]), t, c, steps[k.value].role, steps[k.value].rid)
  {
    hide Inv, Answered, Unpaired;
    AnsweredSoFar(input, steps, c);
    RunKeepsInv(input, steps);
    if Run(input, steps).links[c].out == [] { EmptyUnmet(Run(input, steps), input, c); }
  }

  /** So far: the connections that have not been answered, and those that have. */
  ghost predicate SoFar(input: Inputs, steps: seq<Step>, t: State, k: Option<nat>, c: Conn)
    requires k.Some? ==> k.value < |steps| && steps[k.value].Header?
  {
    if c !in t.links then k.None?
    else if k.None? then t.links[c].out == [] && t.links[c].host == None
    else !t.links[c].pc.AwaitHeader? && Answered(Run(input, steps[..k.value]), t, c, steps[k.value].role, steps[k.value].rid)
  }

  lemma {:induction false} AnsweredSoFar(input: Inputs, steps: seq<Step>, c: Conn)
    ensures SoFar(input, steps, Run(input, steps), TakenAt(input, steps, c), c)
  {
    hide Enabled, Next, Inv, Answered;
    if steps != [] {
      var n := |steps| - 1;
      var s, a := Run(input, steps[..n]), steps[n];
      AnsweredSoFar(input, steps[..n], c);
      RunKeepsInv(input, steps[..n]);
      var k := TakenAt(input, steps[..n], c);
      if k.Some? { assert steps[..n][..k.value] == steps[..k.value]; }
      if Enabled(s, input, a) {
        if a.Header? && a.c == c {
          HeaderAnswered(s, input, c, a.role, a.rid);
        } else if c in s.links {
          NextLater(s, input, a, c);
          LaterFresh(s, Next(s, input, a), c);
          if k.Some? { LaterStays(Run(input, steps[..k.value]), s, Next(s, input, a), c, steps[k.value].role, steps[k.value].rid); }
        } else {
          OnlyAcceptAdds(s, input, a, c);
        }
      }
    }
  }

  lemma LaterFresh(s: State, t: State, c: Conn)
    requires c in s.links && Later(s, t, c)
    ensures c in t.links && (!s.links[c].pc.AwaitHeader? ==> !t.links[c].pc.AwaitHeader?)
    ensures s.links[c].out == [] && s.links[c].host == None ==> t.links[c].out == [] && t.links[c].host == None
  {
    hide Unpaired;
  }

  lemma OnlyAcceptAdds(s: State, input: Inputs, a: Step, c: Conn)
    requires Enabled(s, input, a) && c !in s.links
    ensures c in Next(s, input, a).links ==> Next(s, input, a).links[c].out == [] && Next(s, input, a).links[c].host == None
  {
    hide Judge, Left;
  }

  lemma EmptyUnmet(s: State, input: Inputs, c: Conn)
    requires Inv(s, input) && c in s.links && s.links[c].out == []
    ensures Unpaired(s.links, c)
  {
    hide CountsExact, EntryOk;
    forall d | d in s.links ensures s.links[d].host != Some(c) { assert LinkOk(s.links, input, d); }
  }

  /** In every run a connection is let in exactly when fewer than five handlers run for its
      address; otherwise it is closed at once, unread. */
  lemma AdmittedExactly(input: Inputs, steps: seq<Step>, c: Conn, ip: Ip)
    requires c !in Run(input, steps).links
    ensures var s := Run(input, steps);
            var t := OnAccept(s, c, ip);
            && c in t.links
            && if |Running(s, ip)| < 5 then t.links[c].pc.AwaitHeader? && t.closing == s.closing
               else t.links[c].pc.Finished? && t.closing == s.closing + {c}
  {
    hide Run, Running, Good;
    RunKeepsInv(input, steps);
  }

  /** Whoever is registered under an id that had a host closes that host. */
  lemma EvictedIsClosed(input: Inputs, steps: seq<Step>, c: Conn, rid: Id)
    requires rid in Run(input, steps).hosts && Enabled(Run(input, steps), input, Header(c, ROLE_HOST, rid))
    ensures var s := Run(input, steps);
            var t := Next(s, input, Header(c, ROLE_HOST, rid));
            && s.hosts[rid] != c && rid in t.hosts
            && (t.hosts[rid] == c ==> s.hosts[rid] in t.closing) && (t.hosts[rid] != c ==> t.hosts == s.hosts)
  {
    hide Run, Inv, Judge;
    RunKeepsInv(input, steps);
    HostIsNot(Run(input, steps), input, c, rid);
    FinishHosts(Close(Run(input, steps), c), c);
  }

  // ----- nothing is left open -----

  /** A finished or ended direction has closed what it wrote to; a connection that was neither
      bridged nor registered is closed when its handler returns. */
  ghost predicate Shut(s: State, c: Conn)
    requires c in s.links
  {
    var l := s.links[c];
    && (l.pc.Bridging? && l.host.Some? ==> (l.pc.up.Ended? ==> l.host.value in s.closing) && (l.pc.down.Ended? ==> c in s.closing))
    && (l.pc.Finished? && l.host.Some? ==> c in s.closing && l.host.value in s.closing)
    && (l.pc.Finished? && l.host.None? && !([REGISTERED] <= l.out) ==> c in s.closing)
    && (IsHost(l.pc) ==> [REGISTERED] <= l.out)
  }

  ghost predicate AllShut(s: State) { forall c :: c in s.links ==> Shut(s, c) }

  /** A step of another handler. */
  ghost predicate Bystander(s: State, t: State, c: Conn)
    requires c in s.links
  {
    && c in t.links && t.links[c].pc == s.links[c].pc && t.links[c].host == s.links[c].host
    && s.links[c].out <= t.links[c].out && s.closing <= t.closing
  }

  lemma BystanderShut(s: State, t: State, x: Conn)
    requires AllShut(s) && t.links.Keys <= s.links.Keys + {x}
    requires forall c :: c in s.links && c != x ==> Bystander(s, t, c)
    requires x in t.links ==> Shut(t, x)
    ensures AllShut(t)
  {
    forall c | c in t.links ensures Shut(t, c) {
      if c != x {
        assert Bystander(s, t, c) && Shut(s, c);
        if [REGISTERED] <= s.links[c].out { assert t.links[c].out[0] == REGISTERED; }
      }
    }
  }

  lemma OnHostShut(s: State, input: Inputs, c: Conn, rid: Id)
    requires Inv(s, input) && AllShut(s) && c in s.links && s.links[c].pc.AwaitHeader?
    ensures AllShut(OnHost(s, c, rid))
  {
    hide CountsExact, EntryOk, Judge, Finish, AllShut, Bridged, Unpaired;
    assert LinkOk(s.links, input, c);
    FinishParts(Close(s, c), c);
    FinishClosing(Close(s, c), c);
    BystanderShut(s, OnHost(s, c, rid), c);
  }

  lemma FinishClosing(s: State, c: Conn)
    requires c in s.links
    ensures Finish(s, c).closing == s.closing
  {
  }

  lemma OnClientShut(s: State, input: Inputs, c: Conn, rid: Id)
    requires Inv(s, input) && AllShut(s) && c in s.links && s.links[c].pc.AwaitHeader?
    ensures AllShut(OnClient(s, c, rid))
  {
    hide CountsExact, AllShut, Bridged;
    assert LinkOk(s.links, input, c);
    if rid in s.hosts { assert EntryOk(s.hosts, s.links, rid); }
    BystanderShut(s, OnClient(s, c, rid), c);
  }

  lemma HoldShut(s: State, input: Inputs, c: Conn, rid: Id)
    requires Inv(s, input) && AllShut(s) && c in s.links && IsHost(s.links[c].pc)
    ensures AllShut(Hold(s, c, rid))
  {
    hide CountsExact, EntryOk, Finish, AllShut;
    assert Shut(s, c) by { OneShut(s, c); }
    assert LinkOk(s.links, input, c);
    var own := rid in s.hosts && s.hosts[rid] == c;
    FinishParts(if own then s.(hosts := s.hosts - {rid}) else s, c);
    FinishClosing(if own then s.(hosts := s.hosts - {rid}) else s, c);
    BystanderShut(s, Hold(s, c, rid), c);
  }
  lemma OneShut(s: State, c: Conn)
    requires AllShut(s) && c in s.links
    ensures Shut(s, c)
  {
  }

  lemma OnDrainedShut(s: State, input: Inputs, c: Conn)
    requires Inv(s, input) && AllShut(s) && Enabled(s, input, Drained(c))
    ensures AllShut(OnDrained(s, c))
  {
    hide CountsExact, EntryOk, Finish, Hold, AllShut;
    assert LinkOk(s.links, input, c);
    FinishParts(Close(s, c), c);
    FinishClosing(Close(s, c), c);
    if s.links[c].pc.Registering? { HoldShut(s, input, c, s.links[c].pc.rid); } else { BystanderShut(s, OnDrained(s, c), c); }
  }

  lemma OnDrainFailedShut(s: State, input: Inputs, c: Conn)
    requires Inv(s, input) && AllShut(s) && Enabled(s, input, DrainFailed(c))
    ensures AllShut(OnDrainFailed(s, c))
  {
    hide CountsExact, EntryOk, AllShut, OnDrainFailed, Bridged, Unpaired;
    assert LinkOk(s.links, input, c);
    OneShut(s, c);
    FailParts(s, input, c);
    BystanderShut(s, OnDrainFailed(s, c), c);
  }

  lemma FailParts(s: State, input: Inputs, c: Conn)
    requires Enabled(s, input, DrainFailed(c))
    ensures var t := OnDrainFailed(s, c);
            && t.links == s.links[c := s.links[c].(pc := Finished)] && s.closing <= t.closing && c in t.closing
            && ((s.links[c].pc.PairHost? || s.links[c].pc.PairClient?) && s.links[c].host.Some? ==> s.links[c].host.value in t.closing)
  {
    hide Left;
  }

  lemma OnCopyShut(s: State, input: Inputs, c: Conn, up: bool, n: nat)
    requires Inv(s, input) && AllShut(s) && Enabled(s, input, Copy(c, up, n))
    ensures AllShut(OnCopy(s, input, c, up, n))
  {
    hide CountsExact, EntryOk, AllShut;
    assert LinkOk(s.links, input, c);
    OneShut(s, c);
    BystanderShut(s, OnCopy(s, input, c, up, n), c);
  }

  lemma OnPipeEndsShut(s: State, c: Conn, up: bool)
    requires AllShut(s) && c in s.links && s.links[c].pc.Bridging? && s.links[c].host.Some?
    ensures AllShut(OnPipeEnds(s, c, up))
  {
    hide AllShut;
    OneShut(s, c);
    BystanderShut(s, OnPipeEnds(s, c, up), c);
  }

  lemma NextShut(s: State, input: Inputs, a: Step)
    requires Inv(s, input) && AllShut(s) && Enabled(s, input, a)
    ensures AllShut(Next(s, input, a))
  {
    hide Inv, AllShut, OnHost, OnClient, OnDrained, OnDrainFailed, OnPipeEnds, OnCopy, Hold, Finish;
    match a
    case Header(c, role, rid) =>
      CloseShut(s, input, c);
      OnHostShut(s, input, c, rid);
      OnClientShut(s, input, c, rid);
    case NoHeader(c) => CloseShut(s, input, c);
    case Drained(c) => OnDrainedShut(s, input, c);
    case DrainFailed(c) => OnDrainFailedShut(s, input, c);
    case Wake(c) => HoldShut(s, input, c, s.links[c].pc.rid);
    case Copy(c, up, n) => OnCopyShut(s, input, c, up, n);
    case CopyDrained(c, up) =>
      OneShut(s, c);
      BystanderShut(s, Next(s, input, a), c);
    case PipeEnds(c, up) => OnPipeEndsShut(s, c, up);
    case Accept(c, ip) => BystanderShut(s, OnAccept(s, c, ip), c);
    case Lost(c) =>
      OneShut(s, c);
      BystanderShut(s, Close(s, c), c);
  }

  lemma CloseShut(s: State, input: Inputs, c: Conn)
    requires Inv(s, input) && AllShut(s) && c in s.links && s.links[c].pc.AwaitHeader?
    ensures AllShut(Finish(Close(s, c), c))
  {
    hide AllShut, Finish, CountsExact, EntryOk;
    assert LinkOk(s.links, input, c);
    FinishParts(Close(s, c), c);
    FinishClosing(Close(s, c), c);
    BystanderShut(s, Finish(Close(s, c), c), c);
  }

  /** In every run: when one direction of a bridge ends, the connection it fed is closed; when a
      client's handler returns, it and its host are closed; and whoever was refused, timed out
      or turned away is closed. */
  lemma {:induction false} EverythingShut(input: Inputs, steps: seq<Step>, c: Conn)
    requires c in Run(input, steps).links
    ensures Shut(Run(input, steps), c)
  {
    RunShut(input, steps);
    OneShut(Run(input, steps), c);
  }

  lemma {:induction false} RunShut(input: Inputs, steps: seq<Step>)
    ensures AllShut(Run(input, steps))
  {
    hide Enabled, Next, Inv;
    if steps != [] {
      var n := |steps| - 1;
      RunShut(input, steps[..n]);
      RunKeepsInv(input, steps[..n]);
      if Enabled(Run(input, steps[..n]), input, steps[n]) { NextShut(Run(input, steps[..n]), input, steps[n]); }
    }
  }

  // ----- the dictionaries of the steps are those of the class -----

  /** Accepting, leaving, registering and pairing change the two dictionaries exactly as the
      methods of Tables do, and a registration closes whom it evicts. */
  lemma StepsUseTables(s: State, c: Conn, ip: Ip, rid: Id)
    requires c in s.links && forall r :: r in s.hosts ==> s.hosts[r] in s.links
    ensures OnAccept(s, c, ip).conns == Entered(s.conns, ip) && OnAccept(s, c, ip).hosts == s.hosts
    ensures (At(OnAccept(s, c, ip), c) == AwaitHeader) == MayEnter(s.conns, ip)
    ensures Finish(s, c).conns == Left(s.conns, s.links[c].ip) && Finish(s, c).hosts == s.hosts
    ensures var r := RegistrationOf(s.hosts, c, rid, s.links[c].ip,
                                    if rid in s.hosts then s.links[s.hosts[rid]].ip else s.links[c].ip,
                                    rid in s.hosts && s.hosts[rid] in s.closing);
            var t := OnHost(s, c, rid);
            && t.hosts == r.hosts
            && (r.verdict == Registered ==> t.closing == s.closing + if r.evicted.Some? then {r.evicted.value} else {})
            && (At(t, c) == Registering(rid) <==> r.verdict == Registered)
            && (At(t, c) == Refused <==> r.verdict == Occupied)
    ensures OnClient(s, c, rid).hosts == s.hosts - {rid}
  {
    hide Judge, Left, Finish;
    LeaveUses(s, c);
    RegisterUses(s, c, rid);
  }

  lemma LeaveUses(s: State, c: Conn)
    requires c in s.links
    ensures Finish(s, c).conns == Left(s.conns, s.links[c].ip) && Finish(s, c).hosts == s.hosts && At(Finish(s, c), c) == Finished
  {
    hide Left;
  }

  lemma RegisterUses(s: State, c: Conn, rid: Id)
    requires c in s.links && forall r :: r in s.hosts ==> s.hosts[r] in s.links
    ensures var r := RegistrationOf(s.hosts, c, rid, s.links[c].ip,
                                    if rid in s.hosts then s.links[s.hosts[rid]].ip else s.links[c].ip,
                                    rid in s.hosts && s.hosts[rid] in s.closing);
            var t := OnHost(s, c, rid);
            && t.hosts == r.hosts
            && (r.verdict == Registered ==> t.closing == s.closing + if r.evicted.Some? then {r.evicted.value} else {})
            && (At(t, c) == Registering(rid) <==> r.verdict == Registered)
            && (At(t, c) == Refused <==> r.verdict == Occupied)
  {
    hide Left, Judge, Finish;
    LeaveUses(Close(s, c), c);
    if rid !in s.hosts { FreeVerdict(s, c, rid); }
  }

  /** Without an entry the closing flag does not matter. */
  lemma FreeVerdict(s: State, c: Conn, rid: Id)
    requires rid !in s.hosts
    ensures forall x, y, b, d :: Judge(s.hosts, rid, x, y, b) == Judge(s.hosts, rid, x, y, d)
  {
  }


  // ----- who can take a host out of the table -----

  /** The steps that end the registration of h under rid. */
  predicate Displaces(s: State, a: Step, rid: Id, h: Conn)
    requires h in s.links
  {
    match a
    case Header(c, role, r) =>
      r == rid && (role == ROLE_CLIENT
                   || (role == ROLE_HOST && c in s.links && (h in s.closing || s.links[h].ip == s.links[c].ip)))
    case Drained(c) => c == h && h in s.closing && At(s, c).Registering?
    case Wake(c) => c == h && h in s.closing
    case DrainFailed(c) => At(s, c) == Registering(rid)      // not only h's own
    case _ => false
  }

  /** A registration lasts through every step but these; in particular a live host is not
      displaced by a registration from another address. */
  lemma DisplacedExactly(s: State, input: Inputs, a: Step, rid: Id)
    requires Inv(s, input) && Enabled(s, input, a) && rid in s.hosts && s.hosts[rid] in s.links
    ensures Stays(s, Next(s, input, a), rid) <==> !Displaces(s, a, rid, s.hosts[rid])
  {
    hide CountsExact, LinkOk, OnHost, OnClient, OnDrained, OnDrainFailed, OnCopy, OnPipeEnds, Hold, Finish;
    assert EntryOk(s.hosts, s.links, rid);
    match a {
      case NoHeader(c) => FinishParts(Close(s, c), c);
      case Header(c, role, r) =>
        HeaderDisplaces(s, c, role, r, rid);
        FinishParts(Close(s, c), c);
      case Wake(c) => HoldDisplaces(s, c, rid);
      case Drained(c) => DrainedDisplaces(s, c, rid);
      case DrainFailed(c) => DrainFailedDisplaces(s, c, rid);
      case Copy(c, up, n) => CopyKeeps(s, input, c, up, n);
      case PipeEnds(c, up) => PipeEndsHosts(s, c, up);
      case _ =>
    }
  }

  ghost predicate Stays(s: State, t: State, rid: Id)
    requires rid in s.hosts
  {
    rid in t.hosts && t.hosts[rid] == s.hosts[rid]
  }

  lemma HeaderDisplaces(s: State, c: Conn, role: Byte, r: Id, rid: Id)
    requires rid in s.hosts && EntryOk(s.hosts, s.links, rid) && c in s.links && s.links[c].pc.AwaitHeader?
    ensures role == ROLE_HOST ==> (Stays(s, OnHost(s, c, r), rid) <==> !Displaces(s, Header(c, role, r), rid, s.hosts[rid]))
    ensures role == ROLE_CLIENT ==> (Stays(s, OnClient(s, c, r), rid) <==> !Displaces(s, Header(c, role, r), rid, s.hosts[rid]))
  {
    hide Finish;
    FinishParts(Close(s, c), c);
  }

  lemma HoldDisplaces(s: State, c: Conn, rid: Id)
    requires rid in s.hosts && EntryOk(s.hosts, s.links, rid) && c in s.links && IsHost(s.links[c].pc)
    ensures Stays(s, Hold(s, c, s.links[c].pc.rid), rid) <==> !(c == s.hosts[rid] && c in s.closing)
  {
  }

  lemma DrainedDisplaces(s: State, c: Conn, rid: Id)
    requires rid in s.hosts && EntryOk(s.hosts, s.links, rid) && c in s.links
    ensures Stays(s, OnDrained(s, c), rid) <==> !(c == s.hosts[rid] && c in s.closing && s.links[c].pc.Registering?)
  {
    hide Hold, Finish;
    FinishParts(Close(s, c), c);
    if s.links[c].pc.Registering? { HoldDisplaces(s, c, rid); }
  }

  lemma DrainFailedDisplaces(s: State, c: Conn, rid: Id)
    requires rid in s.hosts && EntryOk(s.hosts, s.links, rid) && c in s.links && Enabled(s, _ => [], DrainFailed(c))
    ensures Stays(s, OnDrainFailed(s, c), rid) <==> s.links[c].pc != Registering(rid)
  {
  }

  lemma PipeEndsHosts(s: State, c: Conn, up: bool)
    requires c in s.links && s.links[c].pc.Bridging? && s.links[c].host.Some?
    ensures OnPipeEnds(s, c, up).hosts == s.hosts
  {
  }

  lemma RunSnoc(input: Inputs, steps: seq<Step>, a: Step)
    requires Enabled(Run(input, steps), input, a)
    ensures Run(input, steps + [a]) == Next(Run(input, steps), input, a)
  {
    hide Enabled, Next;
    assert (steps + [a])[..|steps|] == steps;
  }

  lemma StartRun(input: Inputs)
    ensures Run(input, []) == START
  {
  }

  /** A host at address 10, lost while its 'R' drains, and its successor from address 20. */
  function TwoHosts(rid: Id): State {
    State(map[rid := 2], map[10 := 1, 20 := 1],
          map[1 := Link(10, Registering(rid), [REGISTERED], 0, None), 2 := Link(20, Registering(rid), [REGISTERED], 0, None)], {1})
  }

  lemma TwoHostsArise(rid: Id, input: Inputs)
    ensures Run(input, [Accept(1, 10), Accept(2, 20), Header(1, ROLE_HOST, rid), Lost(1), Header(2, ROLE_HOST, rid)]) == TwoHosts(rid)
  {
    hide Run, OnHost, OnClient, OnDrained, OnDrainFailed, OnCopy, OnPipeEnds, Hold, Finish, Judge, TwoHosts;
    var after := Link(10, AwaitHeader, [], 0, None);
    var l2 := after.(ip := 20);
    var a := [Accept(1, 10)];
    StartRun(input);
    RunSnoc(input, [], a[0]);
    assert [] + a == a;
    RunSnoc(input, a, Accept(2, 20));
    var b := a + [Accept(2, 20)];
    var sb := State(map[], map[10 := 1, 20 := 1], map[1 := after, 2 := l2], {});
    assert Run(input, b) == sb;
    RunSnoc(input, b, Header(1, ROLE_HOST, rid));
    var c := b + [Header(1, ROLE_HOST, rid)];
    var sc := State(map[rid := 1], sb.conns, map[1 := after.(pc := Registering(rid), out := [REGISTERED]), 2 := l2], {});
    FirstHost(rid, sb, sc);
    RunSnoc(input, c, Lost(1));
    var d := c + [Lost(1)];
    var sd := sc.(closing := {1});
    assert Run(input, d) == sd;
    RunSnoc(input, d, Header(2, ROLE_HOST, rid));
    SecondHost(rid, sd);
    assert d + [Header(2, ROLE_HOST, rid)] == [Accept(1, 10), Accept(2, 20), Header(1, ROLE_HOST, rid), Lost(1), Header(2, ROLE_HOST, rid)];
  }

  lemma FirstHost(rid: Id, s: State, t: State)
    requires s.hosts == map[] && 1 in s.links && s.closing == {} && s.links[1].out == []
    requires t == State(map[rid := 1], s.conns, s.links[1 := s.links[1].(pc := Registering(rid), out := [REGISTERED])], {})
    ensures OnHost(s, 1, rid) == t
  {
    assert [] + [REGISTERED] == [REGISTERED];
  }

  lemma SecondHost(rid: Id, s: State)
    requires s == State(map[rid := 1], map[10 := 1, 20 := 1],
                        map[1 := Link(10, Registering(rid), [REGISTERED], 0, None), 2 := Link(20, AwaitHeader, [], 0, None)], {1})
    ensures OnHost(s, 2, rid) == TwoHosts(rid)
  {
    assert [] + [REGISTERED] == [REGISTERED];
  }

  /** Another handler's failed 'R' takes a live host out of the table. */
  lemma StaleFailureDropsLiveHost(rid: Id, input: Inputs) returns (steps: seq<Step>)
    ensures var s := Run(input, steps);
            && rid in s.hosts && s.hosts[rid] == 2 && 2 !in s.closing && Enabled(s, input, DrainFailed(1))
            && rid !in Next(s, input, DrainFailed(1)).hosts
  {
    hide Run;
    steps := [Accept(1, 10), Accept(2, 20), Header(1, ROLE_HOST, rid), Lost(1), Header(2, ROLE_HOST, rid)];
    TwoHostsArise(rid, input);
  }
}
