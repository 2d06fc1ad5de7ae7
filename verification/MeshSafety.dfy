/** What every run of the mesh keeps, forged handshakes included: at-most-once and
    authentic delivery, one session per link for ever, no counter encrypted twice under a
    key, an exact account of every payload, and connect workers that never leave a link
    stuck. */
module MeshSafety {
  import opened MeshKeys
  import opened MeshSession
  import opened MeshPeer
  import opened MeshNet
  import opened Wrappers

  // ----- the invariant -----

  /** Payload p belongs to a call of `send` on link c that ended as out, and now has fate f. */
  ghost predicate Owns(s: State, c: LinkId, p: Plain, out: Outcome, f: Fate) {
    p.id < |s.calls| && p.id < |s.fate| && s.calls[p.id] == Call(c, p.mtype, p.body, out) && s.fate[p.id] == f
  }

  ghost predicate Increasing(q: seq<Plain>) {
    forall i, j :: 0 <= i < j < |q| ==> q[i].id < q[j].id
  }

  ghost predicate HeldInOrder(s: State, c: LinkId, q: seq<Plain>) {
    Increasing(q) && forall i :: 0 <= i < |q| ==> Owns(s, c, q[i], Queued, Waiting)
  }

  ghost function Ctrs(got: seq<Got>): set<nat> { set i | 0 <= i < |got| :: got[i].ctr }

  ghost predicate GotOk(s: State, keys: KeyPair, g: Got) {
    g.at < |s.wire| && s.wire[g.at] == Sealed(keys.rx, g.ctr, g.plain)
  }

  ghost predicate SessionOk(s: State, c: LinkId, l: Link, sess: Sess) {
    && Sender(sess.keys.tx) == Static(c.me) && Receiver(sess.keys.tx) == Static(c.peer)
    && Sender(sess.keys.rx) == Static(c.peer) && Receiver(sess.keys.rx) == Static(c.me)
    && (forall i :: 0 <= i < |l.got| ==> GotOk(s, sess.keys, l.got[i]))
    && (forall i, j :: 0 <= i < j < |l.got| ==> l.got[i].ctr != l.got[j].ctr)
    && Represents(sess.window, Ctrs(l.got))
  }

  /** Without a session nothing is being transmitted; with one, nothing is queued. */
  ghost predicate PhaseOk(l: Link) {
    if l.conn.session.Some? then l.conn.queued == []
    else l.flushing == [] && l.hand == {} && l.got == [] && l.conn.transport != Direct
  }

  ghost predicate Restartable(l: Link) {
    l.conn.transport != Direct && l.conn.initiated ==> l.workers != [] || l.died
  }

  ghost predicate HeldOk(s: State, c: LinkId, l: Link) {
    && |l.conn.queued| <= QUEUE_LIMIT
    && HeldInOrder(s, c, l.conn.queued)
    && HeldInOrder(s, c, l.flushing)
    && (forall p :: p in l.hand ==> Owns(s, c, p, Ready, InHand))
  }

  ghost predicate LinkOk(s: State, c: LinkId) {
    c in s.links ==>
      var l := s.links[c];
      && c.me != c.peer
      && PhaseOk(l)
      && Restartable(l)
      && HeldOk(s, c, l)
      && (l.conn.session.Some? ==> SessionOk(s, c, l, l.conn.session.value))
  }

  /** Ciphertext k was made by link c, under c's session, from a call of `send` on c. */
  ghost predicate MadeBy(s: State, k: nat, c: LinkId)
    requires k < |s.wire|
  {
    var w := s.wire[k];
    && w.Sealed?
    && c in s.links && s.links[c].conn.session.Some?
    && s.links[c].conn.session.value.keys.tx == w.key
    && w.nonce < s.links[c].conn.session.value.txCtr && w.nonce < CTR_LIMIT
    && w.plain.id < |s.calls| && s.calls[w.plain.id].outcome != Refused
    && Owns(s, c, w.plain, s.calls[w.plain.id].outcome, OnWire(k))
  }

  ghost predicate WireOk(s: State, k: nat)
    requires k < |s.wire|
  {
    exists c :: MadeBy(s, k, c)
  }

  ghost predicate CameFromQueue(s: State, k: nat)
    requires k < |s.wire|
  {
    s.wire[k].Sealed? && s.wire[k].plain.id < |s.calls| && s.calls[s.wire[k].plain.id].outcome == Queued
  }

  /** Under one key counters only grow, and payloads that were queued leave in the order
      they were queued. */
  ghost predicate WireOrdered(s: State) {
    forall j, k :: 0 <= j < k < |s.wire| && s.wire[j].Sealed? && s.wire[k].Sealed? && s.wire[j].key == s.wire[k].key ==>
      && s.wire[j].nonce < s.wire[k].nonce
      && (CameFromQueue(s, j) && CameFromQueue(s, k) ==> s.wire[j].plain.id < s.wire[k].plain.id)
  }

  /** Queued payloads of link c already on the wire precede all of c's flush in progress. */
  ghost predicate FlushLast(s: State, c: LinkId) {
    c in s.links ==>
      forall k, i :: 0 <= k < |s.wire| && 0 <= i < |s.links[c].flushing| && MadeBy(s, k, c) && CameFromQueue(s, k) ==>
        s.wire[k].plain.id < s.links[c].flushing[i].id
  }

  ghost predicate FateOk(s: State, id: nat)
    requires id < |s.calls| == |s.fate|
  {
    var call := s.calls[id];
    var plain := Plain(id, call.mtype, call.body);
    && call.link in s.links
    && var l := s.links[call.link];
    && (match s.fate[id]
        case Waiting => plain in l.conn.queued || plain in l.flushing
        case InHand => plain in l.hand
        case Dropped => true
        case Lost => call.outcome == Queued || (l.conn.session.Some? && l.conn.session.value.txCtr >= CTR_LIMIT)
        case OnWire(k) => k < |s.wire| && s.wire[k].Sealed? && s.wire[k].plain == plain)
    && (s.fate[id] == Dropped <==> call.outcome == Refused)
  }

  ghost predicate Inv(s: State) {
    && |s.calls| == |s.fate|
    && (forall c :: LinkOk(s, c))
    && (forall k :: 0 <= k < |s.wire| ==> WireOk(s, k))
    && WireOrdered(s)
    && (forall c :: FlushLast(s, c))
    && (forall id :: 0 <= id < |s.calls| ==> FateOk(s, id))
  }

  // ----- frames -----

  /** s' differs from s, as far as other links can see, only by what link c did: calls and
      wire may have grown, fates changed only for c's payloads. */
  ghost predicate OnlyLink(s: State, s': State, c: LinkId) {
    && |s.calls| == |s.fate| && |s'.calls| == |s'.fate|
    && s.calls <= s'.calls && s.wire <= s'.wire
    && (forall d :: d != c ==> (d in s.links <==> d in s'.links))
    && (forall d :: d != c && d in s.links ==> s'.links[d] == s.links[d])
    && (c in s.links ==> c in s'.links)
    && (forall id :: 0 <= id < |s.calls| && s.calls[id].link != c ==> s'.fate[id] == s.fate[id])
  }

  lemma OtherLinkOk(s: State, s': State, c: LinkId, d: LinkId)
    requires OnlyLink(s, s', c) && d != c && LinkOk(s, d)
    ensures LinkOk(s', d)
  {
    if d in s'.links {
      var l := s.links[d];
      assert s'.links[d] == l;
      forall i | 0 <= i < |l.conn.queued| ensures Owns(s', d, l.conn.queued[i], Queued, Waiting) {
        assert Owns(s, d, l.conn.queued[i], Queued, Waiting);
      }
      forall i | 0 <= i < |l.flushing| ensures Owns(s', d, l.flushing[i], Queued, Waiting) {
        assert Owns(s, d, l.flushing[i], Queued, Waiting);
      }
      if l.conn.session.Some? {
        assert SessionOk(s, d, l, l.conn.session.value);
        assert SessionOk(s', d, l, l.conn.session.value);
      }
    }
  }

  /** c keeps its session, apart from a counter that may have grown. */
  ghost predicate KeepsKeys(s: State, s': State, c: LinkId) {
    c in s.links && s.links[c].conn.session.Some? ==>
      && c in s'.links && s'.links[c].conn.session.Some?
      && s'.links[c].conn.session.value.keys == s.links[c].conn.session.value.keys
      && s'.links[c].conn.session.value.txCtr >= s.links[c].conn.session.value.txCtr
  }

  ghost predicate KeepsWireFates(s: State, s': State) {
    |s'.fate| >= |s.fate| && forall id :: 0 <= id < |s.fate| && s.fate[id].OnWire? ==> s'.fate[id] == s.fate[id]
  }

  lemma OldWireOk(s: State, s': State, c: LinkId, k: nat, d: LinkId)
    requires OnlyLink(s, s', c) && KeepsKeys(s, s', c) && KeepsWireFates(s, s')
    requires k < |s.wire| && MadeBy(s, k, d)
    ensures MadeBy(s', k, d)
  {
    assert s'.wire[k] == s.wire[k];
  }

  /** The old wire entries keep their maker and cannot acquire another. */
  lemma MakerUnique(s: State, k: nat, c: LinkId, d: LinkId)
    requires k < |s.wire| && MadeBy(s, k, c) && MadeBy(s, k, d)
    ensures c == d
  {
  }

  lemma OldWire(s: State, s': State, c: LinkId)
    requires Inv(s) && OnlyLink(s, s', c) && KeepsKeys(s, s', c) && KeepsWireFates(s, s')
    ensures forall k :: 0 <= k < |s.wire| ==> WireOk(s', k)
    ensures forall k, d :: 0 <= k < |s.wire| ==> (MadeBy(s', k, d) <==> MadeBy(s, k, d))
    ensures forall k :: 0 <= k < |s.wire| ==> (CameFromQueue(s', k) <==> CameFromQueue(s, k))
  {
    forall k, d | 0 <= k < |s.wire|
      ensures MadeBy(s', k, d) <==> MadeBy(s, k, d)
    {
      OldMaker(s, s', c, k);
      var d0 :| MadeBy(s, k, d0) && MadeBy(s', k, d0);
      if MadeBy(s', k, d) { MakerUnique(s', k, d0, d); }
      if MadeBy(s, k, d) { MakerUnique(s, k, d0, d); }
    }
    forall k | 0 <= k < |s.wire|
      ensures WireOk(s', k) && (CameFromQueue(s', k) <==> CameFromQueue(s, k))
    {
      OldMaker(s, s', c, k);
    }
  }

  lemma OldMaker(s: State, s': State, c: LinkId, k: nat)
    requires Inv(s) && OnlyLink(s, s', c) && KeepsKeys(s, s', c) && KeepsWireFates(s, s')
    requires k < |s.wire|
    ensures exists d :: MadeBy(s, k, d) && MadeBy(s', k, d)
    ensures CameFromQueue(s', k) <==> CameFromQueue(s, k)
  {
    assert WireOk(s, k);
    var d :| MadeBy(s, k, d);
    OldWireOk(s, s', c, k, d);
  }

  lemma OtherFateOk(s: State, s': State, c: LinkId, id: nat)
    requires Inv(s) && OnlyLink(s, s', c)
    requires id < |s.calls| && s.calls[id].link != c
    ensures FateOk(s', id)
  {
    assert FateOk(s, id);
    assert s'.calls[id] == s.calls[id];
  }

  // ----- a step of one link that puts nothing on the wire -----

  /** The flush of c has lost entries at most. */
  ghost predicate FlushShrinks(s: State, s': State, c: LinkId) {
    c in s'.links ==> forall p :: p in s'.links[c].flushing ==> c in s.links && p in s.links[c].flushing
  }

  lemma OneLinkKeepsInv(s: State, s': State, c: LinkId)
    requires Inv(s) && OnlyLink(s, s', c) && KeepsKeys(s, s', c) && KeepsWireFates(s, s') && s'.wire == s.wire
    requires LinkOk(s', c) && FlushShrinks(s, s', c)
    requires forall id :: 0 <= id < |s'.calls| && (id >= |s.calls| || s'.calls[id].link == c) ==> FateOk(s', id)
    ensures Inv(s')
  {
    hide LinkOk, FateOk, WireOk, WireOrdered, FlushLast, MadeBy, Represents;
    OldWire(s, s', c);
    SameOrder(s, s');
    forall d ensures LinkOk(s', d) { if d != c { OtherLinkOk(s, s', c, d); } }
    forall d ensures FlushLast(s', d) { SameFlush(s, s', c, d); }
    forall id | 0 <= id < |s'.calls| ensures FateOk(s', id) {
      if id < |s.calls| && s.calls[id].link != c { OtherFateOk(s, s', c, id); }
    }
  }

  lemma SameOrder(s: State, s': State)
    requires WireOrdered(s) && s'.wire == s.wire
    requires forall k :: 0 <= k < |s.wire| ==> (CameFromQueue(s', k) <==> CameFromQueue(s, k))
    ensures WireOrdered(s')
  {
    hide CameFromQueue;
  }

  lemma SameFlush(s: State, s': State, c: LinkId, d: LinkId)
    requires FlushLast(s, d) && OnlyLink(s, s', c) && s'.wire == s.wire && FlushShrinks(s, s', c)
    requires forall k, x :: 0 <= k < |s.wire| ==> (MadeBy(s', k, x) <==> MadeBy(s, k, x))
    requires forall k :: 0 <= k < |s.wire| ==> (CameFromQueue(s', k) <==> CameFromQueue(s, k))
    ensures FlushLast(s', d)
  {
    hide MadeBy;
    if d in s'.links {
      var q := s'.links[d].flushing;
      forall k, i | 0 <= k < |s'.wire| && 0 <= i < |q| && MadeBy(s', k, d) && CameFromQueue(s', k)
        ensures s'.wire[k].plain.id < q[i].id
      {
        assert q[i] in q && MadeBy(s, k, d) && CameFromQueue(s, k);
        var j :| 0 <= j < |s.links[d].flushing| && s.links[d].flushing[j] == q[i];
      }
    }
  }

  // ----- steps that leave payloads, counters and sessions alone -----

  /** Same payloads, session and received packets; the rest of the link may differ. */
  ghost predicate SameTraffic(l: Link, l': Link) {
    && l'.conn.session == l.conn.session && l'.conn.queued == l.conn.queued
    && l'.flushing == l.flushing && l'.hand == l.hand && l'.got == l.got
  }

  lemma Bookkeeping(s: State, s': State, c: LinkId)
    requires Inv(s) && c in s.links
    requires c in s'.links && s'.links == s.links[c := s'.links[c]]
    requires s'.calls == s.calls && s'.fate == s.fate && s'.wire == s.wire
    requires SameTraffic(s.links[c], s'.links[c])
    requires Restartable(s'.links[c])
    requires s'.links[c].conn.transport == Direct ==> s'.links[c].conn.session.Some?
    ensures Inv(s')
  {
    hide WireOk, WireOrdered, FlushLast, MadeBy, Represents;
    var l, l' := s.links[c], s'.links[c];
    assert LinkOk(s, c);
    OwnsSame(s, s');
    assert HeldOk(s', c, l') by { assert HeldInOrder(s', c, l.conn.queued) && HeldInOrder(s', c, l.flushing); }
    if l.conn.session.Some? {
      assert SessionOk(s, c, l, l.conn.session.value);
      assert SessionOk(s', c, l', l.conn.session.value);
    }
    forall id | 0 <= id < |s'.calls| ensures FateOk(s', id) { assert FateOk(s, id); }
    OneLinkKeepsInv(s, s', c);
  }

  lemma OwnsSame(s: State, s': State)
    requires s'.calls == s.calls && s'.fate == s.fate
    ensures forall c, p, out, f :: Owns(s, c, p, out, f) <==> Owns(s', c, p, out, f)
  {
  }

  // ----- receive -----

  lemma ReceiveKeepsInv(s: State, c: LinkId, ctr: nat, at: Option<nat>)
    requires Inv(s)
    ensures Inv(DoReceive(s, c, ctr, at))
  {
    hide Represents, Judge, Advance, WireOk, WireOrdered, FlushLast, MadeBy, SessionOk;
    var s' := DoReceive(s, c, ctr, at);
    if c in s.links && s.links[c].conn.session.Some? {
      var l := s.links[c];
      var sess := l.conn.session.value;
      var pkt := PacketOf(s, ctr, at);
      ReceivedLink(s, c, ctr, at);
      forall id | 0 <= id < |s'.calls| ensures FateOk(s', id) { assert FateOk(s, id); }
      OneLinkKeepsInv(s, s', c);
    }
  }

  /** The link that received keeps what it holds, and its window stands for what it got. */
  lemma ReceivedLink(s: State, c: LinkId, ctr: nat, at: Option<nat>)
    requires LinkOk(s, c) && c in s.links && s.links[c].conn.session.Some?
    ensures LinkOk(DoReceive(s, c, ctr, at), c)
  {
    hide Represents, Judge, Advance, SessionOk;
    var s' := DoReceive(s, c, ctr, at);
    ReceivedSession(s, c, ctr, at);
    OwnsSame(s, s');
    assert HeldInOrder(s', c, s'.links[c].conn.queued) && HeldInOrder(s', c, s'.links[c].flushing);
  }

  lemma ReceivedSession(s: State, c: LinkId, ctr: nat, at: Option<nat>)
    requires LinkOk(s, c) && c in s.links && s.links[c].conn.session.Some?
    ensures var s' := DoReceive(s, c, ctr, at);
            SessionOk(s', c, s'.links[c], s'.links[c].conn.session.value)
  {
    var s' := DoReceive(s, c, ctr, at);
    var l, l' := s.links[c], s'.links[c];
    var sess := l.conn.session.value;
    var pkt := PacketOf(s, ctr, at);
    assert SessionOk(s, c, l, sess);
    JudgeRefines(sess.window, Ctrs(l.got), ctr);
    if Open(sess, pkt).Opened? {
      AdvanceRefines(sess.window, Ctrs(l.got), ctr);
      assert at.Some? && s.wire[at.value] == Sealed(sess.keys.rx, ctr, pkt.body.plain);
      var g := Got(at.value, ctr, pkt.body.plain);
      assert l'.got == l.got + [g];
      CtrsSnoc(l.got, g);
      forall i | 0 <= i < |l.got| ensures l.got[i].ctr != ctr {
        assert l.got[i].ctr in Ctrs(l.got);
      }
      forall i | 0 <= i < |l'.got| ensures GotOk(s', sess.keys, l'.got[i]) {
        if i < |l.got| { assert GotOk(s, sess.keys, l.got[i]); }
      }
    } else {
      assert l'.got == l.got;
      forall i | 0 <= i < |l'.got| ensures GotOk(s', sess.keys, l'.got[i]) {
        assert GotOk(s, sess.keys, l.got[i]);
      }
    }
  }

  lemma CtrsSnoc(got: seq<Got>, g: Got)
    ensures Ctrs(got + [g]) == Ctrs(got) + {g.ctr}
  {
    var all := got + [g];
    forall x | x in Ctrs(got) + {g.ctr} ensures x in Ctrs(all) {
      if x == g.ctr {
        assert all[|got|].ctr == x;
      } else {
        var i :| 0 <= i < |got| && got[i].ctr == x;
        assert all[i].ctr == x;
      }
    }
  }

  // ----- a new link -----

  lemma GetConnKeepsInv(s: State, c: LinkId, index: nat)
    requires Inv(s)
    ensures Inv(DoGetConn(s, c, index))
  {
    var s' := DoGetConn(s, c, index);
    if s' != s {
      assert OnlyLink(s, s', c);
      OldWire(s, s', c);
      forall d ensures LinkOk(s', d) {
        assert LinkOk(s, d);
        if d != c { OtherLinkOk(s, s', c, d); }
      }
      forall d ensures FlushLast(s', d) { assert FlushLast(s, d); }
      forall id | 0 <= id < |s'.calls| ensures FateOk(s', id) { assert FateOk(s, id); }
    }
  }

  // ----- send -----

  lemma SendKeepsInv(s: State, c: LinkId, mtype: nat, body: seq<nat>)
    requires Inv(s)
    ensures Inv(DoSend(s, c, mtype, body))
  {
    hide WireOk, WireOrdered, FlushLast, MadeBy, SessionOk, HeldOk, Represents;
    var s' := DoSend(s, c, mtype, body);
    if c in s.links {
      SentLink(s, c, mtype, body);
      forall id | 0 <= id < |s'.calls| ensures FateOk(s', id) { if id < |s.calls| { assert FateOk(s, id); } }
      OneLinkKeepsInv(s, s', c);
    }
  }

  lemma SentLink(s: State, c: LinkId, mtype: nat, body: seq<nat>)
    requires |s.calls| == |s.fate| && LinkOk(s, c) && c in s.links
    ensures LinkOk(DoSend(s, c, mtype, body), c)
  {
    hide Represents, HeldOk;
    var s' := DoSend(s, c, mtype, body);
    var l, l' := s.links[c], s'.links[c];
    SendHeld(s, c, mtype, body);
    if l.conn.session.Some? {
      assert SessionOk(s, c, l, l.conn.session.value);
      assert SessionOk(s', c, l', l.conn.session.value);
    }
  }

  lemma SendHeld(s: State, c: LinkId, mtype: nat, body: seq<nat>)
    requires |s.calls| == |s.fate| && LinkOk(s, c) && c in s.links
    ensures var s' := DoSend(s, c, mtype, body); HeldOk(s', c, s'.links[c])
  {
    var s' := DoSend(s, c, mtype, body);
    var l, l' := s.links[c], s'.links[c];
    forall p, out, f | Owns(s, c, p, out, f) ensures Owns(s', c, p, out, f) {}
    assert HeldInOrder(s, c, l.conn.queued) && HeldInOrder(s, c, l.flushing);
    forall i | 0 <= i < |l.conn.queued| ensures l.conn.queued[i].id < |s.calls| {
      assert Owns(s, c, l.conn.queued[i], Queued, Waiting);
    }
  }

  // ----- transmit -----

  ghost predicate SameExceptHeld(l0: Link, l: Link) {
    l == l0.(flushing := l.flushing, hand := l.hand)
  }

  /** l is l0 without plain, which was either the head of the flush or in a caller's hand. */
  ghost predicate Released(l0: Link, l: Link, plain: Plain, out: Outcome) {
    || (out == Queued && l0.flushing != [] && plain == l0.flushing[0] && l.flushing == l0.flushing[1..] && l.hand == l0.hand)
    || (out == Ready && plain in l0.hand && l.hand == l0.hand - {plain} && l.flushing == l0.flushing)
  }

  /** Link c is about to encrypt plain under sess, having let go of it. */
  ghost predicate Sealing(s: State, c: LinkId, l: Link, sess: Sess, plain: Plain, out: Outcome, f: Fate) {
    && Inv(s) && c in s.links
    && s.links[c].conn.session == Some(sess)
    && SameExceptHeld(s.links[c], l) && Released(s.links[c], l, plain, out)
    && Owns(s, c, plain, out, f)
    && ((out == Queued && f == Waiting) || (out == Ready && f == InHand))
  }

  /** The payload leaves some holding place of link c for the wire (or, past the last
      counter, is lost). */
  lemma SealKeepsInv(s: State, c: LinkId, l: Link, sess: Sess, plain: Plain, out: Outcome, f: Fate)
    requires Sealing(s, c, l, sess, plain, out, f)
    ensures Inv(Seal(s, c, l, sess, plain))
  {
    var s' := Seal(s, c, l, sess, plain);
    assert LinkOk(s, c);
    assert OnlyLink(s, s', c);
    SealWire(s, c, l, sess, plain, out, f);
    forall d ensures LinkOk(s', d) {
      assert LinkOk(s, d);
      if d != c { OtherLinkOk(s, s', c, d); } else { SealLink(s, c, l, sess, plain, out, f); }
    }
    forall d ensures FlushLast(s', d) { SealFlushLast(s, c, l, sess, plain, out, f, d); }
    forall id | 0 <= id < |s'.calls| ensures FateOk(s', id) {
      SealFate(s, c, l, sess, plain, out, f, id);
    }
  }

  lemma SealFate(s: State, c: LinkId, l: Link, sess: Sess, plain: Plain, out: Outcome, f: Fate, id: nat)
    requires Sealing(s, c, l, sess, plain, out, f) && id < |s.calls|
    ensures FateOk(Seal(s, c, l, sess, plain), id)
  {
    hide LinkOk, WireOk, Represents, Judge, Advance;
    var s' := Seal(s, c, l, sess, plain);
    assert FateOk(s, id);
    if s.calls[id].link != c {
      OtherFateOk(s, s', c, id);
    } else if id != plain.id {
      var p := Plain(id, s.calls[id].mtype, s.calls[id].body);
      if p in s.links[c].flushing {
        var i :| 0 <= i < |s.links[c].flushing| && s.links[c].flushing[i] == p;
        if l.flushing != s.links[c].flushing { assert l.flushing[i - 1] == p; }
      }
    }
  }

  lemma SealWire(s: State, c: LinkId, l: Link, sess: Sess, plain: Plain, out: Outcome, f: Fate)
    requires Sealing(s, c, l, sess, plain, out, f)
    ensures var s' := Seal(s, c, l, sess, plain);
            && WireOrdered(s')
            && (forall k :: 0 <= k < |s'.wire| ==> WireOk(s', k))
            && (|s'.wire| > |s.wire| ==> MadeBy(s', |s.wire|, c))
  {
    hide LinkOk, FateOk, Represents, Judge, Advance;
    var s' := Seal(s, c, l, sess, plain);
    assert OnlyLink(s, s', c) && KeepsKeys(s, s', c) && KeepsWireFates(s, s');
    OldWire(s, s', c);
    if |s'.wire| > |s.wire| {
      var k := |s.wire|;
      assert MadeBy(s', k, c);
      forall j | 0 <= j < k && s.wire[j].Sealed? && s.wire[j].key == sess.keys.tx
        ensures s.wire[j].nonce < sess.txCtr
        ensures CameFromQueue(s', j) && CameFromQueue(s', k) ==> s.wire[j].plain.id < plain.id
      {
        SameKeySameLink(s, c, j);
        assert FlushLast(s, c) && LinkOk(s, c);
        if CameFromQueue(s', j) && CameFromQueue(s', k) {
          assert plain == s.links[c].flushing[0];
        }
      }
    }
  }

  /** Only link c encrypts under c's transmit key. */
  lemma SameKeySameLink(s: State, c: LinkId, j: nat)
    requires Inv(s) && c in s.links && s.links[c].conn.session.Some?
    requires j < |s.wire| && s.wire[j].Sealed? && s.wire[j].key == s.links[c].conn.session.value.keys.tx
    ensures MadeBy(s, j, c)
  {
    assert WireOk(s, j);
    var d :| MadeBy(s, j, d);
    assert LinkOk(s, c) && LinkOk(s, d);
    assert SessionOk(s, c, s.links[c], s.links[c].conn.session.value);
    assert SessionOk(s, d, s.links[d], s.links[d].conn.session.value);
    assert Static(c.me) == Static(d.me) && Static(c.peer) == Static(d.peer);
  }

  lemma SealLink(s: State, c: LinkId, l: Link, sess: Sess, plain: Plain, out: Outcome, f: Fate)
    requires Sealing(s, c, l, sess, plain, out, f)
    ensures LinkOk(Seal(s, c, l, sess, plain), c)
  {
    var s' := Seal(s, c, l, sess, plain);
    var l0, l' := s.links[c], s'.links[c];
    assert LinkOk(s, c);
    SealHeld(s, c, l, sess, plain, out, f);
    assert SessionOk(s, c, l0, sess);
    assert SessionOk(s', c, l', l'.conn.session.value);
  }

  lemma SealHeld(s: State, c: LinkId, l: Link, sess: Sess, plain: Plain, out: Outcome, f: Fate)
    requires Sealing(s, c, l, sess, plain, out, f)
    ensures var s' := Seal(s, c, l, sess, plain); HeldOk(s', c, s'.links[c])
  {
    var s' := Seal(s, c, l, sess, plain);
    var l0 := s.links[c];
    assert LinkOk(s, c) && HeldOk(s, c, l0);
    if out == Queued {
      FlushTail(s, s', c, l0.flushing);
    } else {
      OthersHeld(s, s', c, l0.flushing, plain);
    }
    forall p | p in l.hand ensures Owns(s', c, p, Ready, InHand) {
      assert Owns(s, c, p, Ready, InHand);
    }
  }

  /** Settling the fate of a payload outside a held queue leaves the queue held. */
  lemma OthersHeld(s: State, s': State, c: LinkId, q: seq<Plain>, plain: Plain)
    requires HeldInOrder(s, c, q) && Owns(s, c, plain, Ready, InHand)
    requires s'.calls == s.calls && SettledOnly(s, s', plain.id)
    ensures HeldInOrder(s', c, q)
  {
    forall i | 0 <= i < |q| ensures Owns(s', c, q[i], Queued, Waiting) {
      assert Owns(s, c, q[i], Queued, Waiting);
    }
  }

  ghost predicate SettledOnly(s: State, s': State, id: nat) {
    |s'.fate| == |s.fate| && forall i :: 0 <= i < |s.fate| && i != id ==> s'.fate[i] == s.fate[i]
  }

  /** The payload that was sealed out of the flush precedes what is left of it. */
  lemma SealedFirst(s: State, c: LinkId, l: Link, sess: Sess, plain: Plain, out: Outcome, f: Fate)
    requires Sealing(s, c, l, sess, plain, out, f) && out == Queued
    ensures l.flushing == s.links[c].flushing[1..] && forall i :: 0 <= i < |l.flushing| ==> plain.id < l.flushing[i].id
  {
    hide SessionOk, FateOk, WireOk, WireOrdered, FlushLast, Represents;
    assert LinkOk(s, c) && HeldInOrder(s, c, s.links[c].flushing);
  }

  /** What was on the wire before stays before every flush. */
  lemma SealFlushOld(s: State, c: LinkId, l: Link, sess: Sess, plain: Plain, out: Outcome, f: Fate, d: LinkId, k: nat, i: nat)
    requires Sealing(s, c, l, sess, plain, out, f) && d in s.links && k < |s.wire|
    requires var s' := Seal(s, c, l, sess, plain);
             i < |s'.links[d].flushing| && MadeBy(s', k, d) && CameFromQueue(s', k)
    ensures s.wire[k].plain.id < Seal(s, c, l, sess, plain).links[d].flushing[i].id
  {
    hide LinkOk, FateOk, WireOrdered, Represents, Judge, Advance;
    var s' := Seal(s, c, l, sess, plain);
    assert OnlyLink(s, s', c) && KeepsKeys(s, s', c) && KeepsWireFates(s, s');
    OldMaker(s, s', c, k);
    assert FlushLast(s, d);
    var l0, l' := s.links[d], s'.links[d];
    var i0 := if l'.flushing == l0.flushing then i else i + 1;
    assert l'.flushing[i] == l0.flushing[i0];
    assert MadeBy(s, k, d) && CameFromQueue(s, k);
  }

  lemma SealFlushLast(s: State, c: LinkId, l: Link, sess: Sess, plain: Plain, out: Outcome, f: Fate, d: LinkId)
    requires Sealing(s, c, l, sess, plain, out, f)
    ensures FlushLast(Seal(s, c, l, sess, plain), d)
  {
    hide LinkOk, FateOk, WireOrdered, WireOk, Represents, Judge, Advance;
    var s' := Seal(s, c, l, sess, plain);
    if d in s'.links {
      forall k, i | 0 <= k < |s'.wire| && 0 <= i < |s'.links[d].flushing| && MadeBy(s', k, d) && CameFromQueue(s', k)
        ensures s'.wire[k].plain.id < s'.links[d].flushing[i].id
      {
        if k < |s.wire| {
          SealFlushOld(s, c, l, sess, plain, out, f, d, k, i);
        } else {
          SealWire(s, c, l, sess, plain, out, f);
          SealedBy(s, c, l, sess, plain, out, f, d);
          SealedFirst(s, c, l, sess, plain, out, f);
        }
      }
    }
  }

  /** The new packet was made by link c. */
  lemma SealedBy(s: State, c: LinkId, l: Link, sess: Sess, plain: Plain, out: Outcome, f: Fate, d: LinkId)
    requires Sealing(s, c, l, sess, plain, out, f) && |Seal(s, c, l, sess, plain).wire| > |s.wire|
    requires MadeBy(Seal(s, c, l, sess, plain), |s.wire|, c) && MadeBy(Seal(s, c, l, sess, plain), |s.wire|, d)
    ensures d == c && (CameFromQueue(Seal(s, c, l, sess, plain), |s.wire|) ==> out == Queued)
  {
    hide LinkOk, FateOk, WireOrdered, WireOk, FlushLast, Represents, Judge, Advance;
    MakerUnique(Seal(s, c, l, sess, plain), |s.wire|, c, d);
  }

  lemma TransmitKeepsInv(s: State, c: LinkId, plain: Plain)
    requires Inv(s)
    ensures Inv(DoTransmit(s, c, plain))
  {
    if c in s.links && plain in s.links[c].hand && s.links[c].conn.session.Some? {
      var l := s.links[c];
      assert LinkOk(s, c);
      assert Owns(s, c, plain, Ready, InHand);
      SealKeepsInv(s, c, l.(hand := l.hand - {plain}), l.conn.session.value, plain, Ready, InHand);
    }
  }

  lemma FlushKeepsInv(s: State, c: LinkId)
    requires Inv(s)
    ensures Inv(DoFlush(s, c))
  {
    if c in s.links && s.links[c].flushing != [] && s.links[c].conn.session.Some? {
      var l := s.links[c];
      assert LinkOk(s, c);
      assert HeldInOrder(s, c, l.flushing);
      assert Owns(s, c, l.flushing[0], Queued, Waiting);
      SealKeepsInv(s, c, l.(flushing := l.flushing[1..]), l.conn.session.value, l.flushing[0], Queued, Waiting);
    }
  }

  lemma FlushRaisesKeepsInv(s: State, c: LinkId)
    requires Inv(s)
    ensures Inv(DoFlushRaises(s, c))
  {
    hide WireOk, WireOrdered, FlushLast, MadeBy, SessionOk, Represents, FateOk;
    var s' := DoFlushRaises(s, c);
    if c in s.links && s.links[c].flushing != [] {
      assert LinkOk(s, c);
      assert HeldInOrder(s, c, s.links[c].flushing) && Owns(s, c, s.links[c].flushing[0], Queued, Waiting);
      FlushRaisesLink(s, c);
      forall id | 0 <= id < |s'.calls| ensures FateOk(s', id) { FlushRaisesFate(s, c, id); }
      OneLinkKeepsInv(s, s', c);
    }
  }

  lemma FlushRaisesLink(s: State, c: LinkId)
    requires Inv(s) && c in s.links && s.links[c].flushing != []
    ensures LinkOk(DoFlushRaises(s, c), c)
  {
    var s' := DoFlushRaises(s, c);
    var l0, l' := s.links[c], s'.links[c];
    assert LinkOk(s, c) && HeldOk(s, c, l0);
    assert Owns(s, c, l0.flushing[0], Queued, Waiting);
    FlushTail(s, s', c, l0.flushing);
    forall p | p in l'.hand ensures Owns(s', c, p, Ready, InHand) {
      assert Owns(s, c, p, Ready, InHand);
    }
    if l0.conn.session.Some? {
      assert SessionOk(s, c, l0, l0.conn.session.value);
      assert SessionOk(s', c, l', l0.conn.session.value);
    }
  }

  lemma FlushRaisesFate(s: State, c: LinkId, id: nat)
    requires Inv(s) && c in s.links && s.links[c].flushing != [] && id < |s.calls|
    ensures FateOk(DoFlushRaises(s, c), id)
  {
    var s' := DoFlushRaises(s, c);
    var q := s.links[c].flushing;
    assert FateOk(s, id) && LinkOk(s, c);
    assert Owns(s, c, q[0], Queued, Waiting);
    var p := Plain(id, s.calls[id].mtype, s.calls[id].body);
    if s.calls[id].link == c && p in q && id != q[0].id {
      var i :| 0 <= i < |q| && q[i] == p;
      assert q[1..][i - 1] == p;
    }
  }

  /** Changing the fate of the head leaves the tail of a held queue held. */
  lemma FlushTail(s: State, s': State, c: LinkId, q: seq<Plain>)
    requires q != [] && HeldInOrder(s, c, q)
    requires s'.calls == s.calls && SettledOnly(s, s', q[0].id)
    ensures HeldInOrder(s', c, q[1..])
  {
    forall i | 0 <= i < |q[1..]| ensures Owns(s', c, q[1..][i], Queued, Waiting) {
      assert Owns(s, c, q[i + 1], Queued, Waiting) && q[0].id < q[i + 1].id;
    }
  }

  // ----- handshake -----

  /** A handshake block that found no session and set one, turning the queue into a flush. */
  ghost predicate Establishes(l: Link, l': Link, keys: KeyPair) {
    && l.conn.session.None?
    && l'.conn.session == Some(NewSess(keys))
    && l'.conn.queued == [] && l'.flushing == l.flushing + l.conn.queued
    && l'.hand == l.hand && l'.got == l.got && l'.workers == l.workers && l'.died == l.died
    && l'.conn.initiated == l.conn.initiated
  }

  lemma EstablishKeepsInv(s: State, s': State, c: LinkId, me: bool, myEph: KeyId, peerEph: KeyId)
    requires Inv(s) && c in s.links && c in s'.links && s'.links == s.links[c := s'.links[c]]
    requires s'.calls == s.calls && s'.fate == s.fate && s'.wire == s.wire
    requires Establishes(s.links[c], s'.links[c], Derive(c.me, c.peer, myEph, peerEph, me))
    ensures Inv(s')
  {
    hide Represents, Judge, Advance, Derive, SessionOk, WireOrdered, MadeBy;
    assert LinkOk(s, c);
    assert OnlyLink(s, s', c) && KeepsKeys(s, s', c) && KeepsWireFates(s, s');
    OldWire(s, s', c);
    OwnsSame(s, s');
    SameOrder(s, s');
    forall d ensures LinkOk(s', d) {
      assert LinkOk(s, d);
      if d != c { OtherLinkOk(s, s', c, d); } else { EstablishedLink(s, s', c, me, myEph, peerEph); }
    }
    forall d ensures FlushLast(s', d) { EstablishedFlush(s, s', c, d); }
    forall id | 0 <= id < |s'.calls| ensures FateOk(s', id) { assert FateOk(s, id); }
  }

  lemma EstablishedLink(s: State, s': State, c: LinkId, me: bool, myEph: KeyId, peerEph: KeyId)
    requires Inv(s) && c in s.links && c in s'.links && s'.calls == s.calls && s'.fate == s.fate && s'.wire == s.wire
    requires Establishes(s.links[c], s'.links[c], Derive(c.me, c.peer, myEph, peerEph, me))
    ensures LinkOk(s', c)
  {
    hide Represents, Judge, Advance, Derive, MadeBy, WireOrdered, FlushLast, FateOk, WireOk;
    var l, l' := s.links[c], s'.links[c];
    assert LinkOk(s, c);
    OwnsSame(s, s');
    assert l'.flushing == l.conn.queued;
    assert HeldInOrder(s', c, l'.flushing);
    DerivedKeysNameBothEnds(c.me, c.peer, myEph, peerEph, me);
    EmptyWindowRepresents();
    assert Ctrs(l'.got) == {};
  }

  lemma EstablishedFlush(s: State, s': State, c: LinkId, d: LinkId)
    requires Inv(s) && c in s.links && c in s'.links && s'.links == s.links[c := s'.links[c]] && s'.wire == s.wire && s'.calls == s.calls
    requires s.links[c].conn.session.None?
    requires forall k, x :: 0 <= k < |s.wire| ==> (MadeBy(s', k, x) <==> MadeBy(s, k, x))
    ensures FlushLast(s', d)
  {
    hide LinkOk, FateOk, WireOk, WireOrdered, Represents, Judge, Advance;
    assert FlushLast(s, d);
    assert forall k :: 0 <= k < |s.wire| ==> !MadeBy(s, k, c);
    assert forall k :: 0 <= k < |s.wire| ==> (CameFromQueue(s', k) <==> CameFromQueue(s, k));
  }

  lemma InitKeepsInv(s: State, c: LinkId, eph: KeyId, index: nat, via: Via)
    requires Inv(s)
    ensures Inv(DoInit(s, c, eph, index, via))
  {
    var s' := DoInit(s, c, eph, index, via);
    if c in s.links {
      assert LinkOk(s, c);
      var l := s.links[c];
      if l.conn.session.None? {
        EstablishKeepsInv(s, s', c, false, Eph(s.nextEph), eph);
      } else {
        assert s'.links[c].flushing == l.flushing;
        Bookkeeping(s, s', c);
      }
    }
  }

  lemma RespKeepsInv(s: State, c: LinkId, eph: KeyId, index: nat, via: Via)
    requires Inv(s)
    ensures Inv(DoResp(s, c, eph, index, via))
  {
    var s' := DoResp(s, c, eph, index, via);
    if c in s.links {
      assert LinkOk(s, c);
      var l := s.links[c];
      if l.conn.session.None? && l.conn.eph.Some? {
        EstablishKeepsInv(s, s', c, true, l.conn.eph.value, eph);
      } else {
        assert s'.links[c].flushing == l.flushing;
        Bookkeeping(s, s', c);
      }
    }
  }

  // ----- connect workers and failover -----

  lemma ThreadsKeepInv(s: State, l: Label)
    requires Inv(s)
    requires || l.EnsureConnecting? || l.WorkerBegins? || l.WorkerSprays? || l.WorkerSeesDirect?
             || l.WorkerTimesOut? || l.WorkerRearms? || l.WorkerRaises? || l.FailsOver?
    ensures Inv(Next(s, l))
  {
    hide Represents, Judge, Advance, Derive, FateOk, WireOk, FlushLast, WireOrdered, SessionOk, HeldOk;
    var s' := Next(s, l);
    if s' != s {
      assert LinkOk(s, l.c);
      Bookkeeping(s, s', l.c);
    }
  }

  lemma NextKeepsInv(s: State, l: Label)
    requires Inv(s)
    ensures Inv(Next(s, l))
  {
    match l
    case GetConn(c, index) => GetConnKeepsInv(s, c, index);
    case Send(c, mtype, body) => SendKeepsInv(s, c, mtype, body);
    case Transmit(c, plain) => TransmitKeepsInv(s, c, plain);
    case FlushNext(c) => FlushKeepsInv(s, c);
    case FlushRaises(c) => FlushRaisesKeepsInv(s, c);
    case Handshake(c, Init, eph, index, via) => InitKeepsInv(s, c, eph, index, via);
    case Handshake(c, Resp, eph, index, via) => RespKeepsInv(s, c, eph, index, via);
    case ReceiveUdp(n, index, ctr, at) =>
      if (n, index) in s.byIndex { ReceiveKeepsInv(s, LinkId(n, s.byIndex[(n, index)]), ctr, at); }
    case ReceiveRelayed(c, ctr, at) => ReceiveKeepsInv(s, c, ctr, at);
    case _ => ThreadsKeepInv(s, l);
  }

  lemma {:induction false} RunKeepsInv(labels: seq<Label>)
    ensures Inv(Run(labels))
  {
    if labels == [] {
    } else {
      RunKeepsInv(labels[..|labels| - 1]);
      NextKeepsInv(Run(labels[..|labels| - 1]), labels[|labels| - 1]);
    }
  }
}
