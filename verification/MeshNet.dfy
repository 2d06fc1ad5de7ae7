/** The mesh data plane as a state machine. Any number of nodes; every label of `Next`
    is one atomic block of one thread, so a run is an arbitrary list of labels. The
    network keeps every packet ever sent and may present any of them, to any node, any
    number of times, under any header; handshake packets may even be made up. */
module MeshNet {
  import opened MeshKeys
  import opened MeshSession
  import opened MeshPeer
  import opened Wrappers

  /** One direction of a node pair: what `me` keeps about `peer`. */
  datatype LinkId = LinkId(me: Node, peer: Node)

  function Back(c: LinkId): LinkId { LinkId(c.peer, c.me) }

  datatype Stage = Init | Resp

  datatype HsMsg = HsMsg(src: Node, dst: Node, stage: Stage, eph: KeyId, index: nat)

  /** A connect worker thread, by the point it has reached. */
  datatype Worker = Starting | Looping(init: Option<KeyId>) | GivingUp

  /** A packet accepted by a session: its position on the wire, counter and plaintext. */
  datatype Got = Got(at: nat, ctr: nat, plain: Plain)

  datatype Link = Link(
    conn: Conn,
    flushing: seq<Plain>,         // flushed payloads a handshake thread still has to transmit
    hand: set<Plain>,             // payloads held by `send` callers that saw a session
    workers: seq<Worker>,
    got: seq<Got>,                // accepted packets, oldest first
    died: bool,                   // a connect worker was killed by an exception
    dropped: set<KeyId>,          // ephemerals discarded by workers that gave up without a session
    tookInit: Option<KeyId>,      // ephemeral carried by the first INIT taken
    heldAtResp: Option<KeyId>)    // own ephemeral at the moment RESP was taken

  /** A call of `send`, its lock block's decision included; its position is the payload id. */
  datatype Call = Call(link: LinkId, mtype: nat, body: seq<nat>, outcome: Outcome)

  datatype Fate = Waiting | InHand | Dropped | Lost | OnWire(k: nat)

  datatype State = State(
    links: map<LinkId, Link>,
    byIndex: map<(Node, nat), Node>,
    wire: seq<Cipher>,            // every data ciphertext ever produced, oldest first
    hs: seq<HsMsg>,               // every handshake message ever produced, oldest first
    calls: seq<Call>,
    fate: seq<Fate>,
    nextEph: nat)

  const START := State(map[], map[], [], [], [], [], 0)

  datatype Label =
    | GetConn(c: LinkId, index: nat)
    | Send(c: LinkId, mtype: nat, body: seq<nat>)
    | Transmit(c: LinkId, plain: Plain)
    | FlushNext(c: LinkId)
    | FlushRaises(c: LinkId)
    | Handshake(c: LinkId, stage: Stage, eph: KeyId, index: nat, via: Via)
    | ReceiveUdp(n: Node, index: nat, ctr: nat, at: Option<nat>)
    | ReceiveRelayed(c: LinkId, ctr: nat, at: Option<nat>)
    | EnsureConnecting(c: LinkId)
    | WorkerBegins(c: LinkId, w: nat)
    | WorkerSprays(c: LinkId, w: nat)
    | WorkerSeesDirect(c: LinkId, w: nat)
    | WorkerTimesOut(c: LinkId, w: nat)
    | WorkerRearms(c: LinkId, w: nat)
    | WorkerRaises(c: LinkId, w: nat)
    | FailsOver(c: LinkId)

  // ----- one function per block -----

  function Put(s: State, c: LinkId, l: Link): State { s.(links := s.links[c := l]) }

  function DoGetConn(s: State, c: LinkId, index: nat): State {
    if c in s.links || c.me == c.peer then s
    else
      s.(links := s.links[c := Link(NewConn(index), [], {}, [], [], false, {}, None, None)],
         byIndex := s.byIndex[(c.me, index) := c.peer])
  }

  function DoSend(s: State, c: LinkId, mtype: nat, body: seq<nat>): State {
    if c !in s.links then s
    else
      var l := s.links[c];
      var plain := Plain(|s.calls|, mtype, body);
      var out := OfferOutcome(l.conn);
      s.(links := s.links[c := l.(conn := Offer(l.conn, plain),
                                  hand := if out == Ready then l.hand + {plain} else l.hand)],
         calls := s.calls + [Call(c, mtype, body, out)],
         fate := s.fate + [match out case Ready => InHand case Queued => Waiting case Refused => Dropped])
  }

  function SetFate(fate: seq<Fate>, id: nat, f: Fate): seq<Fate> {
    if id < |fate| then fate[id := f] else fate
  }

  /** Encrypt plain on link c and put the ciphertext on the wire. l is the link after the
      calling thread let go of plain. */
  function Seal(s: State, c: LinkId, l: Link, sess: Sess, plain: Plain): State {
    var pkt := SealNext(sess, plain);
    var l' := l.(conn := l.conn.(session := Some(sess.(txCtr := sess.txCtr + 1))));
    if pkt.Short? then s.(links := s.links[c := l'], fate := SetFate(s.fate, plain.id, Lost))
    else
      s.(links := s.links[c := l'], wire := s.wire + [pkt.body],
         fate := SetFate(s.fate, plain.id, OnWire(|s.wire|)))
  }

  function DoTransmit(s: State, c: LinkId, plain: Plain): State {
    if c in s.links && plain in s.links[c].hand && s.links[c].conn.session.Some? then
      var l := s.links[c];
      Seal(s, c, l.(hand := l.hand - {plain}), l.conn.session.value, plain)
    else s
  }

  function DoFlush(s: State, c: LinkId): State {
    if c in s.links && s.links[c].flushing != [] && s.links[c].conn.session.Some? then
      var l := s.links[c];
      Seal(s, c, l.(flushing := l.flushing[1..]), l.conn.session.value, l.flushing[0])
    else s
  }

  /** An exception in the flushing thread loses what it still held, one payload per label. */
  function DoFlushRaises(s: State, c: LinkId): State {
    if c in s.links && s.links[c].flushing != [] then
      var l := s.links[c];
      s.(links := s.links[c := l.(flushing := l.flushing[1..])],
         fate := SetFate(s.fate, l.flushing[0].id, Lost))
    else s
  }

  function DoInit(s: State, c: LinkId, eph: KeyId, index: nat, via: Via): State {
    if c !in s.links then s
    else
      var l := s.links[c];
      var r := HandleInit(l.conn, c.me, c.peer, eph, index, via, Eph(s.nextEph));
      var l' := l.(conn := r.conn, flushing := l.flushing + r.flushed,
                   tookInit := if l.conn.session.None? then Some(eph) else l.tookInit);
      s.(links := s.links[c := l'], nextEph := s.nextEph + 1,
         hs := if r.reply.None? then s.hs
               else s.hs + [HsMsg(c.me, c.peer, Resp, r.reply.value, l.conn.localIndex)])
  }

  function DoResp(s: State, c: LinkId, eph: KeyId, index: nat, via: Via): State {
    if c !in s.links then s
    else
      var l := s.links[c];
      var r := HandleResp(l.conn, c.me, c.peer, eph, index, via);
      Put(s, c, l.(conn := r.conn, flushing := l.flushing + r.flushed,
                   heldAtResp := if l.conn.session.None? then l.conn.eph else l.heldAtResp))
  }

  function PacketOf(s: State, ctr: nat, at: Option<nat>): Packet {
    Packet(ctr, if at.Some? && at.value < |s.wire| then s.wire[at.value] else Garbage)
  }

  function DoReceive(s: State, c: LinkId, ctr: nat, at: Option<nat>): State {
    if c in s.links && s.links[c].conn.session.Some? then
      var l := s.links[c];
      var sess := l.conn.session.value;
      var pkt := PacketOf(s, ctr, at);
      var o := Open(sess, pkt);
      Put(s, c, l.(conn := l.conn.(session := Some(AfterOpen(sess, pkt))),
                   got := if o.Opened? && at.Some? then l.got + [Got(at.value, ctr, o.plain)] else l.got))
    else s
  }

  function DoConnect(s: State, c: LinkId): State {
    if c in s.links && !s.links[c].conn.initiated then
      var l := s.links[c];
      Put(s, c, l.(conn := l.conn.(initiated := true), workers := l.workers + [Starting]))
    else s
  }

  predicate WorkerAt(s: State, c: LinkId, w: nat) {
    c in s.links && w < |s.links[c].workers|
  }

  function DropWorker(ws: seq<Worker>, w: nat): seq<Worker>
    requires w < |ws|
  {
    ws[..w] + ws[w + 1..]
  }

  function DoWorkerBegins(s: State, c: LinkId, w: nat): State {
    if WorkerAt(s, c, w) && s.links[c].workers[w] == Starting then
      var l := s.links[c];
      var conn := BeginWorker(l.conn, c.me, c.peer, Eph(s.nextEph));
      var init := if AmInitiator(c.me, c.peer) then conn.eph else None;
      Put(s, c, l.(conn := conn, workers := l.workers[w := Looping(init)])).(nextEph := s.nextEph + 1)
    else s
  }

  function DoWorkerSprays(s: State, c: LinkId, w: nat): State {
    if WorkerAt(s, c, w) && s.links[c].workers[w].Looping? && s.links[c].workers[w].init.Some? then
      var l := s.links[c];
      s.(hs := s.hs + [HsMsg(c.me, c.peer, Init, l.workers[w].init.value, l.conn.localIndex)])
    else s
  }

  /** A looping worker that finds the path direct returns at once. */
  function DoWorkerSeesDirect(s: State, c: LinkId, w: nat): State {
    if WorkerAt(s, c, w) && s.links[c].workers[w].Looping? && s.links[c].conn.transport == Direct then
      var l := s.links[c];
      Put(s, c, l.(workers := DropWorker(l.workers, w)))
    else s
  }

  /** Out of time: the worker leaves its loop and tests the transport once more. */
  function DoWorkerTimesOut(s: State, c: LinkId, w: nat): State {
    if WorkerAt(s, c, w) && s.links[c].workers[w].Looping? then
      var l := s.links[c];
      Put(s, c, l.(workers := if l.conn.transport == Direct then DropWorker(l.workers, w)
                              else l.workers[w := GivingUp]))
    else s
  }

  function DoWorkerRearms(s: State, c: LinkId, w: nat): State {
    if WorkerAt(s, c, w) && s.links[c].workers[w] == GivingUp then
      var l := s.links[c];
      Put(s, c, l.(conn := RearmWorker(l.conn), workers := DropWorker(l.workers, w),
                   dropped := if l.conn.session.None? && l.conn.eph.Some? then l.dropped + {l.conn.eph.value} else l.dropped))
    else s
  }

  function DoWorkerRaises(s: State, c: LinkId, w: nat): State {
    if WorkerAt(s, c, w) then
      var l := s.links[c];
      Put(s, c, l.(workers := DropWorker(l.workers, w), died := true))
    else s
  }

  /** The keepalive loop finds a direct path silent. */
  function DoFailsOver(s: State, c: LinkId): State {
    if c in s.links && s.links[c].conn.session.Some? && s.links[c].conn.transport == Direct then
      Put(s, c, s.links[c].(conn := FailOver(s.links[c].conn)))
    else s
  }

  /** A label whose block cannot run in s leaves s as it is. */
  function Next(s: State, l: Label): State {
    match l
    case GetConn(c, index) => DoGetConn(s, c, index)
    case Send(c, mtype, body) => DoSend(s, c, mtype, body)
    case Transmit(c, plain) => DoTransmit(s, c, plain)
    case FlushNext(c) => DoFlush(s, c)
    case FlushRaises(c) => DoFlushRaises(s, c)
    case Handshake(c, Init, eph, index, via) => DoInit(s, c, eph, index, via)
    case Handshake(c, Resp, eph, index, via) => DoResp(s, c, eph, index, via)
    case ReceiveUdp(n, index, ctr, at) =>
      if (n, index) in s.byIndex then DoReceive(s, LinkId(n, s.byIndex[(n, index)]), ctr, at) else s
    case ReceiveRelayed(c, ctr, at) => DoReceive(s, c, ctr, at)
    case EnsureConnecting(c) => DoConnect(s, c)
    case WorkerBegins(c, w) => DoWorkerBegins(s, c, w)
    case WorkerSprays(c, w) => DoWorkerSprays(s, c, w)
    case WorkerSeesDirect(c, w) => DoWorkerSeesDirect(s, c, w)
    case WorkerTimesOut(c, w) => DoWorkerTimesOut(s, c, w)
    case WorkerRearms(c, w) => DoWorkerRearms(s, c, w)
    case WorkerRaises(c, w) => DoWorkerRaises(s, c, w)
    case FailsOver(c) => DoFailsOver(s, c)
  }

  function Run(labels: seq<Label>): State {
    if labels == [] then START else Next(Run(labels[..|labels| - 1]), labels[|labels| - 1])
  }

  lemma RunStep(labels: seq<Label>, l: Label)
    ensures Run(labels + [l]) == Next(Run(labels), l)
  {
    hide Next;
    assert (labels + [l])[..|labels|] == labels;
  }
}
