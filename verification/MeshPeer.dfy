/** State for talking to one peer, and the lock-protected blocks that change it.
    Each block is a function on the value `Conn`; class PeerConn runs the same blocks
    on fields and is proved to compute those functions. The protocol model in MeshNet
    interleaves the functions. */
module MeshPeer {
  import opened Bits
  import opened MeshKeys
  import opened MeshSession
  import opened Wrappers

  const QUEUE_LIMIT: nat := 32

  const MESH_PING: nat := 1
  const MESH_PONG: nat := 2
  const MESH_IP: nat := 3
  const MESH_KEEPALIVE: nat := 4
  const MESH_KEEPALIVE_ACK: nat := 5

  datatype Transport = Connecting | Direct | Derp

  /** How a message arrived: over UDP from an observed address, or through the relay. */
  datatype Via = Udp(addr: nat) | Relayed

  datatype Conn = Conn(
    session: Option<Sess>,
    localIndex: nat,
    remoteIndex: nat,
    endpoint: Option<nat>,
    transport: Transport,
    eph: Option<KeyId>,
    respEph: Option<KeyId>,
    initiated: bool,
    queued: seq<Plain>)

  function NewConn(index: nat): Conn {
    Conn(None, index, 0, None, Connecting, None, None, false, [])
  }

  /** The smaller static public key initiates. */
  predicate AmInitiator(me: Node, peer: Node) { me < peer }

  function BindTransport(c: Conn, via: Via): Conn {
    if via.Udp? then c.(transport := Direct, endpoint := Some(via.addr)) else c.(transport := Derp)
  }

  function UpgradeIfUdp(c: Conn, via: Via): Conn {
    if via.Udp? then c.(transport := Direct, endpoint := Some(via.addr)) else c
  }

  /** What a handshake block leaves behind: the connection, the payloads the calling
      thread must now transmit in order, and the ephemeral to answer with. */
  datatype HsResult = HsResult(conn: Conn, flushed: seq<Plain>, reply: Option<KeyId>)

  function HandleInit(c: Conn, me: Node, peer: Node, peerEph: KeyId, peerIndex: nat, via: Via, newEph: KeyId): HsResult {
    if c.session.None? then
      var c1 := c.(session := Some(NewSess(Derive(me, peer, newEph, peerEph, false))),
                   remoteIndex := peerIndex, respEph := Some(newEph), queued := []);
      HsResult(BindTransport(c1, via), c.queued, Some(newEph))
    else
      HsResult(UpgradeIfUdp(c, via), [], c.respEph)
  }

  function HandleResp(c: Conn, me: Node, peer: Node, peerEph: KeyId, peerIndex: nat, via: Via): HsResult {
    if c.session.Some? then HsResult(UpgradeIfUdp(c, via), [], None)
    else if c.eph.None? then HsResult(c, [], None)
    else
      var c1 := c.(session := Some(NewSess(Derive(me, peer, c.eph.value, peerEph, true))),
                   remoteIndex := peerIndex, queued := []);
      HsResult(BindTransport(c1, via), c.queued, None)
  }

  /** What the lock block of `send` decided. */
  datatype Outcome = Ready | Queued | Refused

  function OfferOutcome(c: Conn): Outcome {
    if c.session.Some? then Ready else if |c.queued| < QUEUE_LIMIT then Queued else Refused
  }

  function Offer(c: Conn, plain: Plain): Conn {
    if OfferOutcome(c) == Queued then c.(queued := c.queued + [plain]) else c
  }

  /** The worker's first block: the ephemeral its INIT messages will carry. */
  function BeginWorker(c: Conn, me: Node, peer: Node, newEph: KeyId): Conn {
    if AmInitiator(me, peer) && c.eph.None? then c.(eph := Some(newEph)) else c
  }

  function RearmWorker(c: Conn): Conn {
    c.(initiated := false, eph := if c.session.None? then None else c.eph)
  }

  function FailOver(c: Conn): Conn {
    c.(transport := Derp, initiated := false, eph := None)
  }

  // ----- decrypted payloads -----

  datatype Upcall = Nothing | IpPacket(body: seq<nat>) | Message(mtype: nat, body: seq<nat>)

  function Surface(plain: Plain): Upcall {
    if plain.mtype == MESH_KEEPALIVE || plain.mtype == MESH_KEEPALIVE_ACK then Nothing
    else if plain.mtype == MESH_IP then IpPacket(plain.body)
    else Message(plain.mtype, plain.body)
  }

  /** The message the receiver sends back by itself, if any. */
  function AutoReply(plain: Plain): Option<(nat, seq<nat>)> {
    if plain.mtype == MESH_KEEPALIVE then Some((MESH_KEEPALIVE_ACK, []))
    else if plain.mtype == MESH_PING then Some((MESH_PONG, plain.body))
    else None
  }

  /** Types 4 and 5 stay below the application, type 3 goes to the tunnel, all others are
      messages; the body is handed on as it is. */
  lemma SurfaceExactly(plain: Plain)
    ensures Surface(plain) == Nothing <==> plain.mtype == 4 || plain.mtype == 5
    ensures Surface(plain).IpPacket? <==> plain.mtype == 3
    ensures Surface(plain).IpPacket? ==> Surface(plain).body == plain.body
    ensures Surface(plain).Message? ==> Surface(plain).mtype == plain.mtype && Surface(plain).body == plain.body
  {
  }

  /** A PING comes back to its sender's application as a PONG with the same body, a keepalive
      comes back as something no application sees, and no answer is answered again. */
  lemma AnswersEnd(plain: Plain, id: nat)
    ensures AutoReply(plain).Some? <==> plain.mtype == MESH_PING || plain.mtype == MESH_KEEPALIVE
    ensures AutoReply(plain).Some? ==>
              var back := Plain(id, AutoReply(plain).value.0, AutoReply(plain).value.1);
              && AutoReply(back) == None
              && Surface(back) == (if plain.mtype == MESH_PING then Message(MESH_PONG, plain.body) else Nothing)
  {
  }

  datatype Hop = ToEndpoint(index: nat, addr: nat) | ToRelay

  // ----- the object -----

  class PeerConn {
    const me: Node
    const peer: Node
    const localIndex: nat
    var session: Session?
    var remoteIndex: nat
    var endpoint: Option<nat>
    var transport: Transport
    var eph: Option<KeyId>
    var respEph: Option<KeyId>
    var initiated: bool
    var queued: seq<Plain>

    ghost predicate Valid()
      reads this, session
    {
      session != null ==> session.Valid()
    }

    function View(): Conn
      reads this, session
    {
      Conn(if session == null then None else Some(session.View()),
           localIndex, remoteIndex, endpoint, transport, eph, respEph, initiated, queued)
    }

    constructor (me: Node, peer: Node, index: nat)
      ensures Valid() && View() == NewConn(index) && this.me == me && this.peer == peer
    {
      this.me, this.peer, localIndex := me, peer, index;
      session, remoteIndex, endpoint, transport := null, 0, None, Connecting;
      eph, respEph, initiated, queued := None, None, false, [];
    }

    method BindTransportTo(via: Via)
      requires Valid()
      modifies this`transport, this`endpoint
      ensures Valid() && View() == BindTransport(old(View()), via)
    {
      if via.Udp? {
        transport := Direct;
        endpoint := Some(via.addr);
      } else {
        transport := Derp;
      }
    }

    method Upgrade(via: Via)
      requires Valid()
      modifies this`transport, this`endpoint
      ensures Valid() && View() == UpgradeIfUdp(old(View()), via)
    {
      if via.Udp? {
        endpoint := Some(via.addr);
        transport := Direct;
      }
    }

    method Flush() returns (q: seq<Plain>)
      requires Valid()
      modifies this`queued
      ensures Valid() && q == old(queued) && View() == old(View()).(queued := [])
    {
      q, queued := queued, [];
    }

    /** The INIT branch of the handshake handler. `newEph` is the key generated there. */
    method OnInit(peerEph: KeyId, peerIndex: nat, via: Via, newEph: KeyId)
      returns (flushed: seq<Plain>, reply: Option<KeyId>)
      requires Valid()
      modifies this
      ensures Valid() && HsResult(View(), flushed, reply) == HandleInit(old(View()), me, peer, peerEph, peerIndex, via, newEph)
      ensures old(session) != null ==> session == old(session)
      // the answer is the ephemeral of the session's keys, the first time and every time after
      ensures reply == if old(session) == null then Some(newEph) else old(respEph)
      ensures reply == respEph
    {
      if session == null {
        var kp := Derive(me, peer, newEph, peerEph, false);
        session := new Session(kp.tx, kp.rx);
        remoteIndex := peerIndex;
        respEph := Some(newEph);
        BindTransportTo(via);
        flushed := Flush();
      } else {
        Upgrade(via);
        flushed := [];
      }
      reply := respEph;
    }

    method OnResp(peerEph: KeyId, peerIndex: nat, via: Via) returns (flushed: seq<Plain>)
      requires Valid()
      modifies this
      ensures Valid() && HsResult(View(), flushed, None) == HandleResp(old(View()), me, peer, peerEph, peerIndex, via)
      ensures old(session) != null ==> session == old(session)
    {
      if session == null {
        if eph.None? { return []; }
        var kp := Derive(me, peer, eph.value, peerEph, true);
        session := new Session(kp.tx, kp.rx);
        remoteIndex := peerIndex;
        BindTransportTo(via);
        flushed := Flush();
      } else {
        Upgrade(via);
        flushed := [];
      }
    }

    /** The lock block of `send`: true means the caller transmits data itself. */
    method OfferPayload(data: Plain) returns (ready: bool)
      requires Valid()
      modifies this`queued
      ensures Valid() && View() == Offer(old(View()), data)
      ensures ready <==> OfferOutcome(old(View())) == Ready
    {
      ready := session != null;
      if !ready && |queued| < QUEUE_LIMIT {
        queued := queued + [data];
      }
    }

    method TransmitPayload(data: Plain) returns (pkt: Packet, hop: Hop)
      requires Valid() && session != null
      modifies session`txCtr
      ensures Valid() && pkt == SealNext(old(session.View()), data)
      ensures View() == old(View()).(session := Some(old(session.View()).(txCtr := old(session.txCtr) + 1)))
      ensures hop.ToEndpoint? <==> transport == Direct && endpoint.Some?
      ensures hop.ToEndpoint? ==> hop.index == remoteIndex && Some(hop.addr) == endpoint
    {
      pkt := session.Encrypt(data);
      if transport == Direct && endpoint.Some? {
        hop := ToEndpoint(remoteIndex, endpoint.value);
      } else {
        hop := ToRelay;
      }
    }

    method RecvData(pkt: Packet) returns (up: Upcall, reply: Option<(nat, seq<nat>)>)
      requires Valid() && session != null
      modifies session
      ensures Valid() && View() == old(View()).(session := Some(AfterOpen(old(session.View()), pkt)))
      ensures var o := Open(old(session.View()), pkt);
              && (up == if o.Opened? then Surface(o.plain) else Nothing)
              && (reply == if o.Opened? then AutoReply(o.plain) else None)
    {
      var o := session.Decrypt(pkt);
      if !o.Opened? { return Nothing, None; }
      var mtype, payload := o.plain.mtype, o.plain.body;
      if mtype == MESH_KEEPALIVE { return Nothing, Some((MESH_KEEPALIVE_ACK, [])); }
      if mtype == MESH_KEEPALIVE_ACK { return Nothing, None; }
      if mtype == MESH_IP { return IpPacket(payload), None; }
      reply := if mtype == MESH_PING then Some((MESH_PONG, payload)) else None;
      up := Message(mtype, payload);
    }

    /** Start (once) a connect worker. */
    method ClaimConnect() returns (spawn: bool)
      requires Valid()
      modifies this`initiated
      ensures Valid() && View() == old(View()).(initiated := true) && spawn == !old(initiated)
    {
      if initiated { return false; }
      initiated := true;
      spawn := true;
    }

    method WorkerBegins(newEph: KeyId) returns (initEph: Option<KeyId>)
      requires Valid()
      modifies this`eph
      ensures Valid() && View() == BeginWorker(old(View()), me, peer, newEph)
      ensures initEph == if AmInitiator(me, peer) then View().eph else None
    {
      if AmInitiator(me, peer) {
        if eph.None? { eph := Some(newEph); }
        initEph := eph;
      } else {
        initEph := None;
      }
    }

    method WorkerRearms()
      requires Valid()
      modifies this`initiated, this`eph
      ensures Valid() && View() == RearmWorker(old(View()))
    {
      initiated := false;
      if session == null { eph := None; }
    }

    method FailsOver()
      requires Valid()
      modifies this`transport, this`initiated, this`eph
      ensures Valid() && View() == FailOver(old(View()))
    {
      transport := Derp;
      initiated := false;
      eph := None;
    }
  }
}
