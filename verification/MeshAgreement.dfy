/** Key agreement. In an honest run the network delivers to a node only handshake messages
    the peer really produced for it (late, twice, out of order or never), and fresh demux
    indices do not collide. */
module MeshAgreement {
  import opened MeshKeys
  import opened MeshSession
  import opened MeshPeer
  import opened MeshNet
  import opened MeshSafety
  import opened Wrappers

  ghost predicate HonestLabel(s: State, l: Label) {
    match l
    case Handshake(c, stage, eph, index, _) => HsMsg(c.peer, c.me, stage, eph, index) in s.hs
    case GetConn(c, index) => index != 0 && (c.me, index) !in s.byIndex
    case _ => true
  }

  ghost predicate HonestRun(labels: seq<Label>) {
    labels == [] ||
      (HonestRun(labels[..|labels| - 1]) && HonestLabel(Run(labels[..|labels| - 1]), labels[|labels| - 1]))
  }

  // ----- the invariant of honest runs -----

  ghost predicate ResponderOk(s: State, c: LinkId, l: Link) {
    && l.conn.eph.None? && l.heldAtResp.None?
    && (forall i :: 0 <= i < |l.workers| ==> l.workers[i].Looping? ==> l.workers[i].init.None?)
    && l.conn.respEph.Some? == l.conn.session.Some? == l.tookInit.Some?
    && (l.conn.session.Some? ==>
          l.conn.session.value.keys == Derive(c.me, c.peer, l.conn.respEph.value, l.tookInit.value, false))
  }

  ghost predicate InitiatorOk(s: State, c: LinkId, l: Link) {
    && l.conn.respEph.None? && l.tookInit.None? && l.conn.session.Some? == l.heldAtResp.Some?
    && (l.conn.session.Some? ==>
          && Back(c) in s.links && s.links[Back(c)].conn.respEph.Some?
          && l.conn.session.value.keys
             == Derive(c.me, c.peer, l.heldAtResp.value, s.links[Back(c)].conn.respEph.value, true))
  }

  /** e is the initiator's present ephemeral or one it has discarded. */
  predicate Made(l: Link, e: KeyId) { e in l.dropped || l.conn.eph == Some(e) }

  /** Every ephemeral the initiator has sent, and the one the responder took, is the one it
      holds or one it discarded; what it held at RESP was not discarded. */
  ghost predicate OneEphemeral(s: State, c: LinkId, l: Link) {
    && (forall e :: Made(l, e) ==> e.Eph? && e.num < s.nextEph)
    && if l.conn.session.None? then
         && (forall i :: 0 <= i < |l.workers| ==> l.workers[i].Looping? ==>
               l.workers[i].init.Some? && Made(l, l.workers[i].init.value))
         && (forall m :: m in s.hs && m.src == c.me && m.dst == c.peer && m.stage == Init ==> Made(l, m.eph))
         && (Back(c) in s.links && s.links[Back(c)].tookInit.Some? ==> Made(l, s.links[Back(c)].tookInit.value))
         && (l.conn.eph.Some? ==> l.conn.eph.value !in l.dropped)
       else
         && l.heldAtResp.Some? && l.heldAtResp.value !in l.dropped
         && Back(c) in s.links && s.links[Back(c)].tookInit.Some?
         && (s.links[Back(c)].tookInit.value in l.dropped || s.links[Back(c)].tookInit == l.heldAtResp)
  }

  ghost predicate PairOk(s: State, c: LinkId) {
    c in s.links ==>
      var l := s.links[c];
      && c.me != c.peer
      && (if c.me < c.peer then InitiatorOk(s, c, l) && OneEphemeral(s, c, l) else ResponderOk(s, c, l))
      && (l.conn.session.Some? ==>
            Back(c) in s.links && l.conn.remoteIndex == s.links[Back(c)].conn.localIndex)
      && (c.me, l.conn.localIndex) in s.byIndex && s.byIndex[(c.me, l.conn.localIndex)] == c.peer
  }

  ghost predicate MsgOk(s: State, m: HsMsg) {
    m in s.hs ==>
      var c := LinkId(m.src, m.dst);
      && c in s.links && m.index == s.links[c].conn.localIndex
      && (if m.stage == Init then m.src < m.dst
          else m.src > m.dst && s.links[c].conn.respEph == Some(m.eph))
  }

  ghost predicate HonestInv(s: State) {
    && (forall c :: PairOk(s, c))
    && (forall m :: MsgOk(s, m))
  }

  // ----- preservation -----

  /** Nothing an honest invariant looks at has changed on link d. */
  ghost predicate SameHandshake(l: Link, l': Link) {
    && l'.conn.eph == l.conn.eph && l'.conn.respEph == l.conn.respEph
    && l'.conn.localIndex == l.conn.localIndex && l'.conn.remoteIndex == l.conn.remoteIndex
    && l'.conn.session.Some? == l.conn.session.Some?
    && (l.conn.session.Some? ==> l'.conn.session.value.keys == l.conn.session.value.keys)
    && l'.dropped == l.dropped && l'.tookInit == l.tookInit && l'.heldAtResp == l.heldAtResp
    && (forall i :: 0 <= i < |l'.workers| ==> l'.workers[i].Looping? ==> l'.workers[i] in l.workers)
  }

  /** A step on link c that the other side does not notice. */
  ghost predicate Quiet(s: State, s': State, c: LinkId) {
    && c in s.links && c in s'.links && s'.links == s.links[c := s'.links[c]]
    && SameHandshake(s.links[c], s'.links[c]) && s'.hs == s.hs && s'.byIndex == s.byIndex && s'.nextEph == s.nextEph
  }

  lemma QuietStep(s: State, s': State, c: LinkId)
    requires HonestInv(s) && Quiet(s, s', c)
    ensures HonestInv(s')
  {
    hide Derive, Judge, Advance, SealNext;
    forall d ensures PairOk(s', d) {
      assert PairOk(s, d) && PairOk(s, c);
    }
    forall m ensures MsgOk(s', m) { assert MsgOk(s, m); }
  }

  lemma GetConnHonest(s: State, c: LinkId, index: nat)
    requires HonestInv(s) && HonestLabel(s, GetConn(c, index))
    ensures HonestInv(DoGetConn(s, c, index))
  {
    var s' := DoGetConn(s, c, index);
    if s' != s {
      forall m | m in s.hs ensures LinkId(m.src, m.dst) in s.links { assert MsgOk(s, m); }
      forall d ensures PairOk(s', d) {
        assert PairOk(s, d) && PairOk(s, Back(d));
      }
      forall m ensures MsgOk(s', m) { assert MsgOk(s, m); }
    }
  }

  lemma InitHonest(s: State, c: LinkId, eph: KeyId, index: nat, via: Via)
    requires HonestInv(s) && HsMsg(c.peer, c.me, Init, eph, index) in s.hs
    ensures HonestInv(DoInit(s, c, eph, index, via))
  {
    hide Derive, Judge, Advance, SealNext;
    var s' := DoInit(s, c, eph, index, via);
    assert MsgOk(s, HsMsg(c.peer, c.me, Init, eph, index));
    if c in s.links {
      assert PairOk(s, c);
      forall d ensures PairOk(s', d) {
        assert PairOk(s, d);
        if d == Back(c) { InitAtPeer(s, c, eph, index, via); }
      }
      forall m ensures MsgOk(s', m) { assert MsgOk(s, m); }
    }
  }

  /** The initiator's link when its INIT is taken by the responder. */
  lemma InitAtPeer(s: State, c: LinkId, eph: KeyId, index: nat, via: Via)
    requires HonestInv(s) && HsMsg(c.peer, c.me, Init, eph, index) in s.hs && c in s.links
    ensures PairOk(DoInit(s, c, eph, index, via), Back(c))
  {
    hide Derive, Judge, Advance, SealNext;
    var s' := DoInit(s, c, eph, index, via);
    var m := HsMsg(c.peer, c.me, Init, eph, index);
    assert MsgOk(s, m) && PairOk(s, c) && PairOk(s, Back(c));
    assert Back(Back(c)) == c;
    var l := s.links[Back(c)];
    assert s'.links[Back(c)] == l;
    assert InitiatorOk(s', Back(c), l);
    assert OneEphemeral(s', Back(c), l);
  }

  lemma RespHonest(s: State, c: LinkId, eph: KeyId, index: nat, via: Via)
    requires HonestInv(s) && HsMsg(c.peer, c.me, Resp, eph, index) in s.hs
    ensures HonestInv(DoResp(s, c, eph, index, via))
  {
    hide Derive, Judge, Advance, SealNext, OneEphemeral, InitiatorOk, ResponderOk, HandleResp;
    var s' := DoResp(s, c, eph, index, via);
    if c in s.links {
      forall d ensures PairOk(s', d) { RespPair(s, c, eph, index, via, d); }
      forall m ensures MsgOk(s', m) {
        assert MsgOk(s, m);
        RespKeepsIndex(s.links[c].conn, c.me, c.peer, eph, index, via);
      }
    }
  }

  lemma RespKeepsIndex(conn: Conn, me: Node, peer: Node, eph: KeyId, index: nat, via: Via)
    ensures var r := HandleResp(conn, me, peer, eph, index, via).conn;
            r.localIndex == conn.localIndex && r.respEph == conn.respEph
  {
    hide Derive;
  }

  lemma RespPair(s: State, c: LinkId, eph: KeyId, index: nat, via: Via, d: LinkId)
    requires HonestInv(s) && HsMsg(c.peer, c.me, Resp, eph, index) in s.hs && c in s.links
    ensures PairOk(DoResp(s, c, eph, index, via), d)
  {
    hide Derive, Judge, Advance, SealNext;
    assert MsgOk(s, HsMsg(c.peer, c.me, Resp, eph, index));
    assert PairOk(s, c) && PairOk(s, Back(c)) && PairOk(s, d);
    assert Back(Back(c)) == c;
  }

  lemma WorkerBeginsHonest(s: State, c: LinkId, w: nat)
    requires HonestInv(s)
    ensures HonestInv(DoWorkerBegins(s, c, w))
  {
    hide Derive, Judge, Advance, SealNext;
    var s' := DoWorkerBegins(s, c, w);
    assert PairOk(s, c) && PairOk(s, Back(c));
    if s' != s {
      forall d ensures PairOk(s', d) {
        assert PairOk(s, d);
        if d == c && c.me < c.peer { BeginKeepsOne(s, c, w); }
      }
      forall m ensures MsgOk(s', m) { assert MsgOk(s, m); }
    }
  }

  lemma BeginKeepsOne(s: State, c: LinkId, w: nat)
    requires HonestInv(s) && c.me < c.peer && WorkerAt(s, c, w) && s.links[c].workers[w] == Starting
    ensures var s' := DoWorkerBegins(s, c, w); OneEphemeral(s', c, s'.links[c])
  {
    hide Derive, Judge, Advance, SealNext;
    assert PairOk(s, c);
    assert OneEphemeral(s, c, s.links[c]);
  }

  lemma WorkerSpraysHonest(s: State, c: LinkId, w: nat)
    requires HonestInv(s)
    ensures HonestInv(DoWorkerSprays(s, c, w))
  {
    var s' := DoWorkerSprays(s, c, w);
    assert PairOk(s, c);
    if s' != s {
      forall d ensures PairOk(s', d) { assert PairOk(s, d); }
      forall m ensures MsgOk(s', m) { assert MsgOk(s, m); }
    }
  }

  lemma WorkerRearmsHonest(s: State, c: LinkId, w: nat)
    requires HonestInv(s)
    ensures HonestInv(DoWorkerRearms(s, c, w))
  {
    hide Derive, Judge, Advance, SealNext, OneEphemeral, InitiatorOk, ResponderOk;
    var s' := DoWorkerRearms(s, c, w);
    assert PairOk(s, c);
    if s' != s {
      forall d ensures PairOk(s', d) { RearmPair(s, c, w, d); }
      forall m ensures MsgOk(s', m) { assert MsgOk(s, m); }
    }
  }

  lemma RearmPair(s: State, c: LinkId, w: nat, d: LinkId)
    requires HonestInv(s) && PairOk(s, c) && PairOk(s, d)
    ensures PairOk(DoWorkerRearms(s, c, w), d)
  {
    hide Derive, Judge, Advance, SealNext, MsgOk, HonestInv;
  }

  lemma FailsOverHonest(s: State, c: LinkId)
    requires HonestInv(s)
    ensures HonestInv(DoFailsOver(s, c))
  {
    var s' := DoFailsOver(s, c);
    assert PairOk(s, c);
    if s' != s {
      forall d ensures PairOk(s', d) { assert PairOk(s, d); }
      forall m ensures MsgOk(s', m) { assert MsgOk(s, m); }
    }
  }

  lemma TrafficQuiet(s: State, l: Label)
    requires l.Send? || l.Transmit? || l.FlushNext? || l.FlushRaises?
    ensures Next(s, l) == s || Quiet(s, Next(s, l), l.c)
  {
    hide SealNext;
  }

  lemma ReceiveQuiet(s: State, c: LinkId, ctr: nat, at: Option<nat>)
    ensures DoReceive(s, c, ctr, at) == s || Quiet(s, DoReceive(s, c, ctr, at), c)
  {
    hide Judge, Advance;
  }

  lemma WorkerQuiet(s: State, l: Label)
    requires l.EnsureConnecting? || l.WorkerSeesDirect? || l.WorkerTimesOut? || l.WorkerRaises?
    ensures Next(s, l) == s || Quiet(s, Next(s, l), l.c)
  {
  }

  lemma TrafficLabels(s: State, l: Label)
    requires HonestInv(s)
    requires l.Send? || l.Transmit? || l.FlushNext? || l.FlushRaises?
    ensures HonestInv(Next(s, l))
  {
    hide HonestInv, Quiet, Next;
    TrafficQuiet(s, l);
    if Next(s, l) != s { QuietStep(s, Next(s, l), l.c); }
  }

  lemma ReceiveHonest(s: State, c: LinkId, ctr: nat, at: Option<nat>)
    requires HonestInv(s)
    ensures HonestInv(DoReceive(s, c, ctr, at))
  {
    hide HonestInv, Quiet, DoReceive;
    ReceiveQuiet(s, c, ctr, at);
    if DoReceive(s, c, ctr, at) != s { QuietStep(s, DoReceive(s, c, ctr, at), c); }
  }

  lemma WorkerLabels(s: State, l: Label)
    requires HonestInv(s)
    requires l.EnsureConnecting? || l.WorkerSeesDirect? || l.WorkerTimesOut? || l.WorkerRaises?
    ensures HonestInv(Next(s, l))
  {
    hide HonestInv, Quiet, Next;
    WorkerQuiet(s, l);
    if Next(s, l) != s { QuietStep(s, Next(s, l), l.c); }
  }

  lemma NextHonest(s: State, l: Label)
    requires HonestInv(s) && HonestLabel(s, l)
    ensures HonestInv(Next(s, l))
  {
    match l
    case GetConn(c, index) => GetConnHonest(s, c, index);
    case Handshake(c, Init, eph, index, via) => InitHonest(s, c, eph, index, via);
    case Handshake(c, Resp, eph, index, via) => RespHonest(s, c, eph, index, via);
    case WorkerBegins(c, w) => WorkerBeginsHonest(s, c, w);
    case WorkerSprays(c, w) => WorkerSpraysHonest(s, c, w);
    case WorkerRearms(c, w) => WorkerRearmsHonest(s, c, w);
    case FailsOver(c) => FailsOverHonest(s, c);
    case ReceiveUdp(n, index, ctr, at) =>
      if (n, index) in s.byIndex { ReceiveHonest(s, LinkId(n, s.byIndex[(n, index)]), ctr, at); }
    case ReceiveRelayed(c, ctr, at) => ReceiveHonest(s, c, ctr, at);
    case Send(_, _, _) => TrafficLabels(s, l);
    case Transmit(_, _) => TrafficLabels(s, l);
    case FlushNext(_) => TrafficLabels(s, l);
    case FlushRaises(_) => TrafficLabels(s, l);
    case _ => WorkerLabels(s, l);
  }

  lemma {:induction false} HonestRunKeepsInv(labels: seq<Label>)
    requires HonestRun(labels)
    ensures HonestInv(Run(labels))
  {
    if labels != [] {
      var init := labels[..|labels| - 1];
      HonestRunKeepsInv(init);
      NextHonest(Run(init), labels[|labels| - 1]);
    }
  }

  // ----- agreement -----

  ghost predicate BothUp(s: State, c: LinkId) {
    && c in s.links && Back(c) in s.links
    && s.links[c].conn.session.Some? && s.links[Back(c)].conn.session.Some?
  }

  ghost predicate KeysMatch(s: State, c: LinkId)
    requires BothUp(s, c)
  {
    CrossMatch(s.links[c].conn.session.value.keys, s.links[Back(c)].conn.session.value.keys)
  }

  /** When both sides of a pair have a session, their keys cross-match if and only if the
      ephemeral the initiator held when it took RESP is the one carried by the first INIT
      the responder took. */
  lemma AgreementExactly(labels: seq<Label>, c: LinkId)
    requires HonestRun(labels) && BothUp(Run(labels), c) && AmInitiator(c.me, c.peer)
    ensures var s := Run(labels);
            && s.links[c].heldAtResp.Some? && s.links[Back(c)].tookInit.Some?
            && (KeysMatch(s, c) <==> s.links[c].heldAtResp == s.links[Back(c)].tookInit)
  {
    var s := Run(labels);
    HonestRunKeepsInv(labels);
    assert PairOk(s, c) && PairOk(s, Back(c));
    var ei, x := s.links[c].heldAtResp.value, s.links[Back(c)].tookInit.value;
    var er := s.links[Back(c)].conn.respEph.value;
    CrossMatchExactly(c.me, c.peer, ei, er, true, c.peer, c.me, er, x, false);
  }

  /** They match exactly when the initiator did not discard that ephemeral in between: other
      ephemerals it discarded, and any loss, repetition and crossing, do no harm. */
  lemma AgreementUnlessDiscarded(labels: seq<Label>, c: LinkId)
    requires HonestRun(labels) && BothUp(Run(labels), c) && AmInitiator(c.me, c.peer)
    ensures var s := Run(labels);
            && s.links[Back(c)].tookInit.Some?
            && (KeysMatch(s, c) <==> s.links[Back(c)].tookInit.value !in s.links[c].dropped)
  {
    AgreementExactly(labels, c);
    HonestRunKeepsInv(labels);
    assert PairOk(Run(labels), c);
    assert OneEphemeral(Run(labels), c, Run(labels).links[c]);
  }

  /** Only one role per pair ever sends INIT, so simultaneous connects cannot make two
      sessions; and the initiator's session implies the responder's. */
  lemma GlareHarmless(labels: seq<Label>, c: LinkId)
    requires HonestRun(labels) && AmInitiator(c.me, c.peer)
    ensures var s := Run(labels);
            && (forall m :: m in s.hs && m.src == c.peer && m.dst == c.me ==> m.stage == Resp)
            && (c in s.links && s.links[c].conn.session.Some? ==> BothUp(s, c))
  {
    var s := Run(labels);
    HonestRunKeepsInv(labels);
    forall m | m in s.hs && m.src == c.peer && m.dst == c.me ensures m.stage == Resp {
      assert MsgOk(s, m);
    }
    assert PairOk(s, c) && PairOk(s, Back(c));
  }

  /** Each side stamps the other's demux index on its datagrams, and that index leads the
      receiving node back to the link for this very peer. */
  lemma IndicesAgree(labels: seq<Label>, c: LinkId)
    requires HonestRun(labels) && c in Run(labels).links && Run(labels).links[c].conn.session.Some?
    ensures var s := Run(labels);
            var index := s.links[c].conn.remoteIndex;
            && Back(c) in s.links && index == s.links[Back(c)].conn.localIndex
            && (c.peer, index) in s.byIndex && LinkId(c.peer, s.byIndex[(c.peer, index)]) == Back(c)
  {
    HonestRunKeepsInv(labels);
    assert PairOk(Run(labels), c) && PairOk(Run(labels), Back(c));
  }

  /** With matching keys, a datagram that link c encrypted and stamped is handed to the peer
      exactly when its counter is new and not 1024 or more behind: the peer's link then
      gains precisely that payload, and otherwise nothing. */
  lemma MatchingKeysDeliver(labels: seq<Label>, c: LinkId, k: nat)
    requires HonestRun(labels) && BothUp(Run(labels), c) && KeysMatch(Run(labels), c)
    requires k < |Run(labels).wire| && MadeBy(Run(labels), k, c)
    ensures var s := Run(labels);
            var w := s.wire[k];
            var s' := Next(s, ReceiveUdp(c.peer, s.links[c].conn.remoteIndex, w.nonce, Some(k)));
            var got, got' := s.links[Back(c)].got, s'.links[Back(c)].got;
            var ctrs := Ctrs(got);
            if w.nonce !in ctrs && (forall x :: x in ctrs ==> x - w.nonce < 1024)
            then got' == got + [Got(k, w.nonce, w.plain)]
            else got' == got
  {
    hide Run, Represents, Judge, Advance, Derive, FateOk, WireOrdered, FlushLast, HeldOk;
    var s := Run(labels);
    IndicesAgree(labels, c);
    RunKeepsInv(labels);
    var b := Back(c);
    assert LinkOk(s, b) && SessionOk(s, b, s.links[b], s.links[b].conn.session.value);
    JudgeExact(s.links[b].conn.session.value.window, Ctrs(s.links[b].got), s.wire[k].nonce);
  }

  // ----- every INIT is answered -----

  /** The responder's side of every pair, and its answers so far: one ephemeral for them all. */
  ghost predicate Answering(s: State) {
    && (forall c :: c in s.links && c.me > c.peer ==> ResponderOk(s, c, s.links[c]))
    && (forall k :: 0 <= k < |s.hs| ==> AnswerOk(s, s.hs[k]))
  }

  ghost predicate AnswerOk(s: State, m: HsMsg) {
    m.stage == Resp && m.src > m.dst ==>
      var c := LinkId(m.src, m.dst);
      c in s.links && s.links[c].conn.respEph == Some(m.eph) && s.links[c].conn.localIndex == m.index
  }

  /** A step that leaves responders alone and answers nothing. */
  lemma AnsweringKept(s: State, s': State)
    requires Answering(s) && s'.hs == s.hs && s.links.Keys <= s'.links.Keys
    requires forall c :: c in s'.links && c.me > c.peer ==>
               ResponderOk(s', c, s'.links[c])
               && (c in s.links ==> s'.links[c].conn.localIndex == s.links[c].conn.localIndex
                                    && (s.links[c].conn.respEph.Some? ==> s'.links[c].conn.respEph == s.links[c].conn.respEph))
    ensures Answering(s')
  {
    hide ResponderOk;
    forall k | 0 <= k < |s'.hs| ensures AnswerOk(s', s'.hs[k]) { assert AnswerOk(s, s.hs[k]); }
  }

  lemma InitAnswering(s: State, c: LinkId, eph: KeyId, index: nat, via: Via)
    requires Answering(s)
    ensures Answering(DoInit(s, c, eph, index, via))
  {
    hide Derive;
    var s' := DoInit(s, c, eph, index, via);
    forall k | 0 <= k < |s'.hs| ensures AnswerOk(s', s'.hs[k]) {
      if k < |s.hs| { assert AnswerOk(s, s.hs[k]); }
    }
  }

  lemma SpraysAnswering(s: State, c: LinkId, w: nat)
    requires Answering(s)
    ensures Answering(DoWorkerSprays(s, c, w))
  {
    hide Derive;
    var s' := DoWorkerSprays(s, c, w);
    forall k | 0 <= k < |s'.hs| ensures AnswerOk(s', s'.hs[k]) {
      if k < |s.hs| { assert AnswerOk(s, s.hs[k]); }
    }
  }

  lemma NextAnswering(s: State, l: Label)
    requires Answering(s)
    ensures Answering(Next(s, l))
  {
    hide Answering, Quiet, Derive, DoInit, DoResp, DoWorkerSprays, DoWorkerBegins, DoWorkerRearms, DoFailsOver, DoGetConn, DoReceive;
    match l
    case GetConn(c, index) => GetConnAnswering(s, c, index);
    case Handshake(c, Init, eph, index, via) => InitAnswering(s, c, eph, index, via);
    case Handshake(c, Resp, eph, index, via) => RespAnswering(s, c, eph, index, via);
    case WorkerBegins(c, w) => BeginsAnswering(s, c, w);
    case WorkerSprays(c, w) => SpraysAnswering(s, c, w);
    case WorkerRearms(c, w) => RearmsAnswering(s, c, w);
    case FailsOver(c) => FailsOverAnswering(s, c);
    case ReceiveUdp(n, index, ctr, at) =>
      if (n, index) in s.byIndex {
        var c := LinkId(n, s.byIndex[(n, index)]);
        ReceiveQuiet(s, c, ctr, at);
        QuietAnswering(s, DoReceive(s, c, ctr, at), c);
      }
    case ReceiveRelayed(c, ctr, at) =>
      ReceiveQuiet(s, c, ctr, at);
      QuietAnswering(s, DoReceive(s, c, ctr, at), c);
    case _ =>
      if l.Send? || l.Transmit? || l.FlushNext? || l.FlushRaises? { TrafficQuiet(s, l); } else { WorkerQuiet(s, l); }
      QuietAnswering(s, Next(s, l), l.c);
  }

  lemma RespAnswering(s: State, c: LinkId, eph: KeyId, index: nat, via: Via)
    requires Answering(s)
    ensures Answering(DoResp(s, c, eph, index, via))
  {
    hide Derive;
    AnsweringKept(s, DoResp(s, c, eph, index, via));
  }

  lemma QuietAnswering(s: State, s': State, c: LinkId)
    requires Answering(s) && (s' == s || Quiet(s, s', c))
    ensures Answering(s')
  {
    hide Derive;
    if s' != s { AnsweringKept(s, s'); }
  }

  lemma GetConnAnswering(s: State, c: LinkId, index: nat)
    requires Answering(s)
    ensures Answering(DoGetConn(s, c, index))
  {
    hide Derive;
    AnsweringKept(s, DoGetConn(s, c, index));
  }

  lemma BeginsAnswering(s: State, c: LinkId, w: nat)
    requires Answering(s)
    ensures Answering(DoWorkerBegins(s, c, w))
  {
    hide Derive;
    AnsweringKept(s, DoWorkerBegins(s, c, w));
  }

  lemma RearmsAnswering(s: State, c: LinkId, w: nat)
    requires Answering(s)
    ensures Answering(DoWorkerRearms(s, c, w))
  {
    hide Derive;
    AnsweringKept(s, DoWorkerRearms(s, c, w));
  }

  lemma FailsOverAnswering(s: State, c: LinkId)
    requires Answering(s)
    ensures Answering(DoFailsOver(s, c))
  {
    hide Derive;
    AnsweringKept(s, DoFailsOver(s, c));
  }

  lemma {:induction false} RunAnswering(labels: seq<Label>)
    ensures Answering(Run(labels))
  {
    hide Answering, Next;
    if labels == [] {
      assert Answering(START) by { StartAnswering(); }
    } else {
      var init := labels[..|labels| - 1];
      RunAnswering(init);
      NextAnswering(Run(init), labels[|labels| - 1]);
    }
  }

  lemma StartAnswering()
    ensures Answering(START)
  {
  }

  /** In every run, forged handshakes included, whatever INIT the larger key takes, the first or
      a later one, it answers in that very step with its index and the ephemeral its session
      keys were derived from; an INIT that finds a session changes neither. */
  lemma InitAnswered(labels: seq<Label>, c: LinkId, eph: KeyId, index: nat, via: Via)
    requires c in Run(labels).links && AmInitiator(c.peer, c.me)
    ensures var s, s' := Run(labels), Run(labels + [Handshake(c, Init, eph, index, via)]);
            && c in s'.links
            && var conn, l' := s.links[c].conn, s'.links[c];
               && l'.conn.session.Some? && l'.conn.respEph.Some? && l'.tookInit.Some?
               && s'.hs == s.hs + [HsMsg(c.me, c.peer, Resp, l'.conn.respEph.value, conn.localIndex)]
               && l'.conn.session.value.keys == Derive(c.me, c.peer, l'.conn.respEph.value, l'.tookInit.value, false)
               && (if conn.session.None? then l'.tookInit == Some(eph) && l'.conn.respEph == Some(Eph(s.nextEph))
                   else l'.conn.session == conn.session && l'.conn.respEph == conn.respEph && l'.tookInit == s.links[c].tookInit)
  {
    hide Run, Derive;
    RunStep(labels, Handshake(c, Init, eph, index, via));
    RunAnswering(labels);
    assert ResponderOk(Run(labels), c, Run(labels).links[c]);
  }

  /** All its answers in a run are the same message. */
  lemma AnswersAgree(labels: seq<Label>, i: nat, j: nat)
    requires var hs := Run(labels).hs;
             && i < |hs| && j < |hs| && hs[i].stage == Resp && hs[j].stage == Resp
             && hs[i].src == hs[j].src && hs[i].dst == hs[j].dst && AmInitiator(hs[i].dst, hs[i].src)
    ensures Run(labels).hs[i] == Run(labels).hs[j]
  {
    RunAnswering(labels);
    assert AnswerOk(Run(labels), Run(labels).hs[i]) && AnswerOk(Run(labels), Run(labels).hs[j]);
  }

  /** So losing answers does no lasting harm: in an honest run, an initiator that still waits
      with an ephemeral gets its session from one more INIT and the answer to it. */
  lemma RetransmissionCompletes(labels: seq<Label>, c: LinkId, eph: KeyId, index: nat, there: Via, back: Via) returns (more: seq<Label>)
    requires HonestRun(labels) && AmInitiator(c.me, c.peer) && HsMsg(c.me, c.peer, Init, eph, index) in Run(labels).hs
    requires c in Run(labels).links && Back(c) in Run(labels).links
    requires Run(labels).links[c].conn.session.None? && Run(labels).links[c].conn.eph.Some?
    ensures |more| == 2 && more[0] == Handshake(Back(c), Init, eph, index, there)
    ensures var hs := Run(labels + [more[0]]).hs;
            |hs| > 0 && var m := hs[|hs| - 1]; more[1] == Handshake(c, Resp, m.eph, m.index, back)
    ensures HonestRun(labels + more) && BothUp(Run(labels + more), c)
  {
    hide Run, Derive, HonestRun;
    var b := Back(c);
    var first := Handshake(b, Init, eph, index, there);
    InitAnswered(labels, b, eph, index, there);
    RunSnoc(labels, first);
    var s1 := Run(labels + [first]);
    var m := s1.hs[|s1.hs| - 1];
    var second := Handshake(c, Resp, m.eph, m.index, back);
    more := [first, second];
    RunSnoc(labels + [first], second);
    assert labels + more == labels + [first] + [second];
    assert m in s1.hs;
  }

  // ----- the mismatch the condition excludes -----

  lemma RunSnoc(labels: seq<Label>, l: Label)
    ensures Run(labels + [l]) == Next(Run(labels), l)
    ensures HonestRun(labels + [l]) <==> HonestRun(labels) && HonestLabel(Run(labels), l)
  {
    assert (labels + [l])[..|labels + [l]| - 1] == labels;
  }

  /** Discarding is what breaks agreement: the worker gives up while RESP is under way, a
      second worker makes a new ephemeral, and RESP is then taken with it. The run is
      honest, both sides end with a session, and the keys do not match. */
  lemma MismatchAfterDiscard() returns (labels: seq<Label>)
    ensures var c := LinkId(0, 1);
            && HonestRun(labels) && BothUp(Run(labels), c) && AmInitiator(c.me, c.peer)
            && Run(labels).links[c].dropped == {Eph(0)} && !KeysMatch(Run(labels), c)
  {
    labels := SecondEphemeral();
    labels := Push(labels, Handshake(LinkId(0, 1), Resp, Eph(1), 8, Relayed));
    assert Back(LinkId(0, 1)) == LinkId(1, 0);
    AgreementExactly(labels, LinkId(0, 1));
  }

  /** Node 0 has discarded the ephemeral of its INIT and made another. */
  lemma SecondEphemeral() returns (labels: seq<Label>)
    ensures HonestRun(labels)
    ensures var s := Run(labels);
            && LinkId(0, 1) in s.links && LinkId(1, 0) in s.links
            && s.links[LinkId(0, 1)].dropped == {Eph(0)}
            && s.links[LinkId(0, 1)].conn == NewConn(7).(eph := Some(Eph(2)), initiated := true)
            && s.links[LinkId(1, 0)].conn.session.Some? && s.links[LinkId(1, 0)].tookInit == Some(Eph(0))
            && HsMsg(1, 0, Resp, Eph(1), 8) in s.hs
  {
    var c := LinkId(0, 1);
    labels := GaveUp();
    labels := Push(labels, EnsureConnecting(c));
    assert Run(labels).links[c].workers == [Starting];
    labels := Push(labels, WorkerBegins(c, 0));
  }

  lemma GaveUp() returns (labels: seq<Label>)
    ensures HonestRun(labels)
    ensures var s := Run(labels);
            && LinkId(0, 1) in s.links && LinkId(1, 0) in s.links
            && s.links[LinkId(0, 1)].dropped == {Eph(0)} && s.links[LinkId(0, 1)].workers == []
            && s.links[LinkId(0, 1)].conn == NewConn(7)
            && s.links[LinkId(1, 0)].conn.session.Some? && s.links[LinkId(1, 0)].tookInit == Some(Eph(0))
            && HsMsg(1, 0, Resp, Eph(1), 8) in s.hs && s.nextEph == 2
  {
    var c := LinkId(0, 1);
    labels := InitTaken();
    labels := Push(labels, WorkerTimesOut(c, 0));
    assert Run(labels).links[c].workers == [GivingUp];
    labels := Push(labels, WorkerRearms(c, 0));
  }

  /** The first half of that run: node 1 has taken node 0's INIT and its RESP is under way. */
  lemma InitTaken() returns (labels: seq<Label>)
    ensures HonestRun(labels)
    ensures var s := Run(labels);
            && LinkId(0, 1) in s.links && LinkId(1, 0) in s.links
            && s.links[LinkId(0, 1)].workers == [Looping(Some(Eph(0)))] && s.links[LinkId(0, 1)].dropped == {}
            && s.links[LinkId(0, 1)].conn == NewConn(7).(eph := Some(Eph(0)), initiated := true)
            && s.links[LinkId(1, 0)].conn.session.Some? && s.links[LinkId(1, 0)].tookInit == Some(Eph(0))
            && HsMsg(1, 0, Resp, Eph(1), 8) in s.hs && s.nextEph == 2
  {
    var d := LinkId(1, 0);
    labels := InitSent();
    labels := Push(labels, Handshake(d, Init, Eph(0), 7, Relayed));
  }

  lemma InitSent() returns (labels: seq<Label>)
    ensures HonestRun(labels)
    ensures var s := Run(labels);
            && LinkId(0, 1) in s.links && LinkId(1, 0) in s.links
            && s.links[LinkId(0, 1)].workers == [Looping(Some(Eph(0)))] && s.links[LinkId(0, 1)].dropped == {}
            && s.links[LinkId(0, 1)].conn == NewConn(7).(eph := Some(Eph(0)), initiated := true)
            && s.links[LinkId(1, 0)].conn == NewConn(8)
            && HsMsg(0, 1, Init, Eph(0), 7) in s.hs && s.nextEph == 1
  {
    var c := LinkId(0, 1);
    labels := TwoLinks();
    labels := Push(labels, EnsureConnecting(c));
    assert Run(labels).links[c].workers == [Starting];
    labels := Push(labels, WorkerBegins(c, 0));
    assert Run(labels).links[c].workers == [Looping(Some(Eph(0)))];
    labels := Push(labels, WorkerSprays(c, 0));
  }

  lemma TwoLinks() returns (labels: seq<Label>)
    ensures HonestRun(labels)
    ensures var s := Run(labels);
            && LinkId(0, 1) in s.links && LinkId(1, 0) in s.links
            && s.links[LinkId(0, 1)].workers == [] && s.links[LinkId(0, 1)].dropped == {}
            && s.links[LinkId(0, 1)].conn == NewConn(7) && s.links[LinkId(1, 0)].conn == NewConn(8)
            && s.nextEph == 0
  {
    labels := Push([], GetConn(LinkId(0, 1), 7));
    labels := Push(labels, GetConn(LinkId(1, 0), 8));
  }

  lemma Push(labels: seq<Label>, l: Label) returns (more: seq<Label>)
    requires HonestRun(labels) && HonestLabel(Run(labels), l)
    ensures more == labels + [l] && HonestRun(more) && Run(more) == Next(Run(labels), l)
  {
    RunSnoc(labels, l);
    more := labels + [l];
  }
}
