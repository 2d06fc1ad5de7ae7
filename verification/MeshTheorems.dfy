/** The promises of the mesh data plane over whole runs. Every statement is about
    Run(labels) for an arbitrary list of labels: any interleaving of threads on any number
    of nodes, any loss, duplication and reordering, handshake packets of any content. */
module MeshTheorems {
  import opened MeshKeys
  import opened MeshSession
  import opened MeshPeer
  import opened MeshNet
  import opened MeshSafety
  import opened Wrappers

  /** A payload given to `send` once is accepted at most once, by one session only: two
      acceptances of the same payload anywhere in the mesh are the same event. */
  lemma DeliveredAtMostOnce(labels: seq<Label>, c: LinkId, i: nat, d: LinkId, j: nat)
    requires var s := Run(labels);
             && c in s.links && i < |s.links[c].got| && d in s.links && j < |s.links[d].got|
             && s.links[c].got[i].plain.id == s.links[d].got[j].plain.id
    ensures c == d && i == j
  {
    RunKeepsInv(labels);
    AcceptedOnce(Run(labels), c, i, d, j);
  }

  lemma AcceptedOnce(s: State, c: LinkId, i: nat, d: LinkId, j: nat)
    requires Inv(s) && c in s.links && i < |s.links[c].got| && d in s.links && j < |s.links[d].got|
    requires s.links[c].got[i].plain.id == s.links[d].got[j].plain.id
    ensures c == d && i == j
  {
    var cl, g := GotOrigin(s, c, i);
    var dl, h := GotOrigin(s, d, j);
    SamePosition(s, g.at, cl, h.at, dl);
    MakerUnique(s, g.at, cl, dl);
    assert c == Back(cl) && d == Back(dl);
    assert LinkOk(s, c) && SessionOk(s, c, s.links[c], s.links[c].conn.session.value);
  }

  lemma SamePosition(s: State, j: nat, c: LinkId, k: nat, d: LinkId)
    requires j < |s.wire| && k < |s.wire| && MadeBy(s, j, c) && MadeBy(s, k, d)
    requires s.wire[j].plain.id == s.wire[k].plain.id
    ensures j == k
  {
    assert s.fate[s.wire[j].plain.id] == OnWire(j) && s.fate[s.wire[k].plain.id] == OnWire(k);
  }

  /** The accepted packet came from the matching link of the peer. */
  lemma GotOrigin(s: State, c: LinkId, i: nat) returns (d: LinkId, g: Got)
    requires Inv(s) && c in s.links && i < |s.links[c].got|
    ensures g == s.links[c].got[i] && g.at < |s.wire| && d == Back(c) && MadeBy(s, g.at, d)
    ensures s.wire[g.at].plain == g.plain && s.wire[g.at].nonce == g.ctr
    ensures s.links[c].conn.session.Some? && s.wire[g.at].key == s.links[c].conn.session.value.keys.rx
  {
    g := s.links[c].got[i];
    assert LinkOk(s, c);
    var sess := s.links[c].conn.session.value;
    assert SessionOk(s, c, s.links[c], sess) && GotOk(s, sess.keys, g);
    assert WireOk(s, g.at);
    d :| MadeBy(s, g.at, d);
    assert LinkOk(s, d) && SessionOk(s, d, s.links[d], s.links[d].conn.session.value);
    assert Static(d.me) == Static(c.peer) && Static(d.peer) == Static(c.me);
  }

  /** Whatever a node takes as coming from a peer is the exact content of one call of
      `send` that the peer made towards this node, and was not turned away. */
  lemma DeliveredAuthentic(labels: seq<Label>, c: LinkId, i: nat)
    requires c in Run(labels).links && i < |Run(labels).links[c].got|
    ensures var s := Run(labels);
            var p := s.links[c].got[i].plain;
            && p.id < |s.calls|
            && s.calls[p.id].link == Back(c) && s.calls[p.id].mtype == p.mtype && s.calls[p.id].body == p.body
            && s.calls[p.id].outcome != Refused
  {
    RunKeepsInv(labels);
    var d, g := GotOrigin(Run(labels), c, i);
  }

  /** What link c handed to the application, in order. */
  function HandedUp(got: seq<Got>): seq<(nat, Upcall)> {
    if got == [] then []
    else
      var last := got[|got| - 1].plain;
      HandedUp(got[..|got| - 1]) + (if Surface(last) == Nothing then [] else [(last.id, Surface(last))])
  }

  /** Each call of `send` reaches the peer's callback at most once, and what the callback
      gets is what `send` was given. */
  lemma CallbackAtMostOnceAndAuthentic(labels: seq<Label>, c: LinkId, i: nat, j: nat)
    requires c in Run(labels).links
    requires var up := HandedUp(Run(labels).links[c].got); i < |up| && j < |up|
    ensures var s := Run(labels);
            var up := HandedUp(s.links[c].got);
            && (up[i].0 == up[j].0 ==> i == j)
            && up[i].0 < |s.calls| && s.calls[up[i].0].link == Back(c)
            && up[i].1 == Surface(Plain(up[i].0, s.calls[up[i].0].mtype, s.calls[up[i].0].body))
  {
    var got := Run(labels).links[c].got;
    var a, b := HandedUpFrom(got, i, j);
    DeliveredAuthentic(labels, c, a);
    if HandedUp(got)[i].0 == HandedUp(got)[j].0 { DeliveredAtMostOnce(labels, c, a, c, b); }
  }

  /** Callback number i stems from accepted packet a, number j from b, in the same order. */
  lemma {:induction false} HandedUpFrom(got: seq<Got>, i: nat, j: nat) returns (a: nat, b: nat)
    requires i < |HandedUp(got)| && j < |HandedUp(got)|
    ensures a < |got| && HandedUp(got)[i] == (got[a].plain.id, Surface(got[a].plain))
    ensures b < |got| && HandedUp(got)[j] == (got[b].plain.id, Surface(got[b].plain))
    ensures (i < j <==> a < b) && (i == j <==> a == b)
  {
    var init := got[..|got| - 1];
    var n := |HandedUp(init)|;
    if i < n && j < n {
      a, b := HandedUpFrom(init, i, j);
    } else if i < n {
      a, b := HandedUpFrom(init, i, i);
      b := |init|;
    } else if j < n {
      a, b := HandedUpFrom(init, j, j);
      a := |init|;
    } else {
      a, b := |init|, |init|;
    }
  }

  /** No key ever encrypts two payloads under one counter. */
  lemma CounterNeverReused(labels: seq<Label>, j: nat, k: nat)
    requires j < k < |Run(labels).wire|
    ensures var w := Run(labels).wire;
            && w[j].Sealed? && w[k].Sealed?
            && (w[j].key, w[j].nonce) != (w[k].key, w[k].nonce)
  {
    hide Run, LinkOk, FlushLast, FateOk, CameFromQueue;
    RunKeepsInv(labels);
    var s := Run(labels);
    assert WireOk(s, j) && WireOk(s, k);
  }

  // ----- one session per link -----

  lemma NextKeepsSession(s: State, l: Label, c: LinkId)
    requires c in s.links && s.links[c].conn.session.Some?
    ensures KeepsKeys(s, Next(s, l), c)
  {
    hide Judge, Advance, SealNext, Derive;
  }

  /** Once set, a link's session keys never change again and its counter never goes back,
      whatever handshakes, upgrades and failovers follow. */
  lemma {:induction false} SessionNeverReplaced(before: seq<Label>, after: seq<Label>, c: LinkId)
    requires c in Run(before).links && Run(before).links[c].conn.session.Some?
    ensures KeepsKeys(Run(before), Run(before + after), c)
  {
    hide Run, Next;
    if after == [] {
      assert before + after == before;
    } else {
      var n := |after| - 1;
      SessionNeverReplaced(before, after[..n], c);
      RunStep(before + after[..n], after[n]);
      assert before + after == before + after[..n] + [after[n]];
      NextKeepsSession(Run(before + after[..n]), after[n], c);
    }
  }

  /** A link with a session has an empty queue, and no queue exceeds 32 payloads. */
  lemma QueueOnlyBeforeSession(labels: seq<Label>, c: LinkId)
    requires c in Run(labels).links
    ensures var conn := Run(labels).links[c].conn;
            |conn.queued| <= 32 && (conn.session.Some? ==> conn.queued == [])
  {
    RunKeepsInv(labels);
    assert LinkOk(Run(labels), c);
  }

  // ----- where a payload is -----

  ghost predicate Waits(s: State, id: nat)
    requires id < |s.calls|
  {
    exists c :: c in s.links && exists p ::
      (p in s.links[c].conn.queued || p in s.links[c].flushing) && p.id == id
  }

  ghost predicate InThread(s: State, id: nat) {
    exists c :: c in s.links && exists p :: p in s.links[c].hand && p.id == id
  }

  ghost predicate CarriedAt(s: State, k: int, id: nat) {
    0 <= k < |s.wire| && s.wire[k].Sealed? && s.wire[k].plain.id == id
  }

  ghost predicate Encrypted(s: State, id: nat) {
    exists k :: CarriedAt(s, k, id)
  }

  ghost function Count(b: bool): nat { if b then 1 else 0 }

  /** Every payload ever passed to `send` is in exactly one place: waiting (queued or in a
      flush), in the hands of its own `send` call, encrypted, turned away by a full queue,
      or lost; and it is encrypted at most once. */
  lemma EveryPayloadAccountedFor(labels: seq<Label>, id: nat)
    requires id < |Run(labels).calls|
    ensures var s := Run(labels);
            && id < |s.fate|
            && Count(Waits(s, id)) + Count(InThread(s, id)) + Count(Encrypted(s, id))
               + Count(s.calls[id].outcome == Refused) + Count(s.fate[id] == Lost) == 1
            && (forall j, k :: CarriedAt(s, j, id) && CarriedAt(s, k, id) ==> j == k)
  {
    var s := Run(labels);
    RunKeepsInv(labels);
    assert FateOk(s, id);
    var f := s.fate[id];
    WaitsIff(s, id);
    InThreadIff(s, id);
    EncryptedIff(s, id);
    forall k | CarriedAt(s, k, id)
      ensures f == OnWire(k)
    {
      assert WireOk(s, k);
    }
  }

  lemma WaitsIff(s: State, id: nat)
    requires Inv(s) && id < |s.calls|
    ensures Waits(s, id) <==> s.fate[id] == Waiting
  {
    assert FateOk(s, id);
    if Waits(s, id) {
      var c :| c in s.links && exists p ::
        (p in s.links[c].conn.queued || p in s.links[c].flushing) && p.id == id;
      var p :| (p in s.links[c].conn.queued || p in s.links[c].flushing) && p.id == id;
      assert LinkOk(s, c) && HeldOk(s, c, s.links[c]);
      assert Owns(s, c, p, Queued, Waiting);
    }
    if s.fate[id] == Waiting {
      var call := s.calls[id];
      assert call.link in s.links && Plain(id, call.mtype, call.body).id == id;
    }
  }

  lemma InThreadIff(s: State, id: nat)
    requires Inv(s) && id < |s.calls|
    ensures InThread(s, id) <==> s.fate[id] == InHand
  {
    assert FateOk(s, id);
    if InThread(s, id) {
      var c :| c in s.links && exists p :: p in s.links[c].hand && p.id == id;
      var p :| p in s.links[c].hand && p.id == id;
      assert LinkOk(s, c) && HeldOk(s, c, s.links[c]);
      assert Owns(s, c, p, Ready, InHand);
    }
    if s.fate[id] == InHand {
      var call := s.calls[id];
      assert call.link in s.links && Plain(id, call.mtype, call.body) in s.links[call.link].hand;
    }
  }

  lemma EncryptedIff(s: State, id: nat)
    requires Inv(s) && id < |s.calls|
    ensures Encrypted(s, id) <==> s.fate[id].OnWire?
  {
    assert FateOk(s, id);
    if s.fate[id].OnWire? { assert CarriedAt(s, s.fate[id].k, id); }
    if Encrypted(s, id) {
      var k :| CarriedAt(s, k, id);
      assert WireOk(s, k);
    }
  }

  /** `send` turns a payload away exactly when there is no session and 32 are waiting. */
  lemma RefusedExactlyWhenFull(labels: seq<Label>, c: LinkId, mtype: nat, body: seq<nat>)
    requires c in Run(labels).links
    ensures var s := Run(labels);
            var s' := Run(labels + [Send(c, mtype, body)]);
            && s'.calls == s.calls + [Call(c, mtype, body, s'.calls[|s.calls|].outcome)]
            && (s'.calls[|s.calls|].outcome == Refused <==>
                  s.links[c].conn.session.None? && |s.links[c].conn.queued| == 32)
  {
    QueueOnlyBeforeSession(labels, c);
    assert (labels + [Send(c, mtype, body)])[..|labels|] == labels;
  }

  /** Payloads that were queued on a link are encrypted in the order they were queued: if a
      later one is on the wire, an earlier one is not still waiting, and if both are, the
      earlier has the smaller counter under the same key. */
  lemma QueueFlushedInOrder(labels: seq<Label>, i: nat, j: nat)
    requires var s := Run(labels);
             && i < j < |s.calls| && s.calls[i].link == s.calls[j].link
             && s.calls[i].outcome == Queued && s.calls[j].outcome == Queued
             && j < |s.fate| && s.fate[j].OnWire?
    ensures var s := Run(labels);
            && !s.fate[i].Waiting?
            && (s.fate[i].OnWire? ==>
                  && s.fate[i].k < |s.wire| && s.fate[j].k < |s.wire|
                  && s.wire[s.fate[i].k].Sealed? && s.wire[s.fate[j].k].Sealed?
                  && s.wire[s.fate[i].k].key == s.wire[s.fate[j].k].key
                  && s.wire[s.fate[i].k].nonce < s.wire[s.fate[j].k].nonce)
  {
    hide Run, LinkOk, FlushLast, WireOk;
    var s := Run(labels);
    RunKeepsInv(labels);
    assert FateOk(s, i) && FateOk(s, j);
    QueuedOnWire(s, j);
    if s.fate[i].OnWire? { QueuedOnWire(s, i); }
    NotOvertaken(s, i, j);
  }

  /** A queued payload on the wire was put there by its own link. */
  lemma QueuedOnWire(s: State, j: nat)
    requires Inv(s) && j < |s.calls| && s.fate[j].OnWire? && s.calls[j].outcome == Queued
    ensures var k := s.fate[j].k;
            k < |s.wire| && MadeBy(s, k, s.calls[j].link) && CameFromQueue(s, k) && s.wire[k].plain.id == j
  {
    assert FateOk(s, j);
    assert WireOk(s, s.fate[j].k);
  }

  lemma NotOvertaken(s: State, i: nat, j: nat)
    requires Inv(s) && i < j < |s.calls| && s.calls[i].link == s.calls[j].link
    requires s.calls[j].outcome == Queued && s.fate[j].OnWire?
    ensures !s.fate[i].Waiting?
  {
    var c := s.calls[i].link;
    QueuedOnWire(s, j);
    assert LinkOk(s, c) && FlushLast(s, c);
    forall x | 0 <= x < |s.links[c].flushing| ensures s.links[c].flushing[x].id != i {
      assert s.wire[s.fate[j].k].plain.id < s.links[c].flushing[x].id;
    }
    assert FateOk(s, i);
  }

  /** A payload is lost only when an exception cut short the flush that held it, or the
      8-byte counter ran out. */
  lemma {:induction false} LostNeedsException(labels: seq<Label>, id: nat)
    requires id < |Run(labels).fate| && Run(labels).fate[id] == Lost
    ensures var s := Run(labels);
            && id < |s.calls|
            && (FlushRaises(s.calls[id].link) in labels
                || (s.calls[id].link in s.links && s.links[s.calls[id].link].conn.session.Some?
                    && s.links[s.calls[id].link].conn.session.value.txCtr >= CTR_LIMIT))
  {
    RunKeepsInv(labels);
    if labels != [] {
      var init, l := labels[..|labels| - 1], labels[|labels| - 1];
      var s, s' := Run(init), Run(labels);
      RunKeepsInv(init);
      assert s' == Next(s, l);
      if id < |s.fate| && s.fate[id] == Lost {
        LostNeedsException(init, id);
        var c := s.calls[id].link;
        if !(FlushRaises(c) in init) { NextKeepsSession(s, l, c); }
        CallsGrow(s, l);
      } else {
        LosingStep(s, l, id);
        assert l in labels;
      }
    }
  }

  lemma CallsGrow(s: State, l: Label)
    ensures s.calls <= Next(s, l).calls
  {
  }

  lemma LosingStep(s: State, l: Label, id: nat)
    requires Inv(s) && id < |Next(s, l).fate| && Next(s, l).fate[id] == Lost
    requires !(id < |s.fate| && s.fate[id] == Lost)
    ensures var s' := Next(s, l);
            && id < |s'.calls|
            && var c := s'.calls[id].link;
               l == FlushRaises(c) || (c in s'.links && s'.links[c].conn.session.Some?
                                       && s'.links[c].conn.session.value.txCtr >= CTR_LIMIT)
  {
    if l.FlushRaises? || l.FlushNext? {
      assert LinkOk(s, l.c) && HeldOk(s, l.c, s.links[l.c]);
      assert Owns(s, l.c, s.links[l.c].flushing[0], Queued, Waiting);
    } else if l.Transmit? {
      assert LinkOk(s, l.c) && HeldOk(s, l.c, s.links[l.c]);
      assert Owns(s, l.c, l.plain, Ready, InHand);
    }
  }

  // ----- connect workers -----

  /** The path is not direct, a worker is believed to be running, and none is. */
  ghost predicate Stuck(s: State, c: LinkId) {
    && c in s.links
    && s.links[c].conn.transport != Direct && s.links[c].conn.initiated && s.links[c].workers == []
  }

  lemma {:induction false} DiedNeedsException(labels: seq<Label>, c: LinkId)
    requires c in Run(labels).links && Run(labels).links[c].died
    ensures exists w :: WorkerRaises(c, w) in labels
  {
    if labels != [] {
      var init, l := labels[..|labels| - 1], labels[|labels| - 1];
      if c in Run(init).links && Run(init).links[c].died {
        DiedNeedsException(init, c);
      } else {
        DyingStep(Run(init), l, c);
        assert l in labels && l == WorkerRaises(c, l.w);
      }
    }
  }

  lemma DyingStep(s: State, l: Label, c: LinkId)
    requires c in Next(s, l).links && Next(s, l).links[c].died
    requires !(c in s.links && s.links[c].died)
    ensures l.WorkerRaises? && l.c == c
  {
  }

  /** Unless an exception killed one of its workers, a link whose path is not direct has a
      live worker or can be given one: the next EnsureConnecting starts it. */
  lemma NeverStuck(labels: seq<Label>, c: LinkId)
    requires c in Run(labels).links
    requires forall w :: WorkerRaises(c, w) !in labels
    ensures !Stuck(Run(labels), c)
    ensures var s := Run(labels);
            s.links[c].conn.transport != Direct ==>
              s.links[c].workers != [] || DoConnect(s, c).links[c].workers == [Starting]
  {
    RunKeepsInv(labels);
    assert LinkOk(Run(labels), c);
    if Run(labels).links[c].died { DiedNeedsException(labels, c); }
  }

  /** A worker killed by an exception leaves its link stuck exactly when it was the only one,
      the path is not direct, and the claim is still set. */
  lemma KilledWorkerExactly(s: State, c: LinkId, w: nat)
    requires WorkerAt(s, c, w)
    ensures Stuck(Next(s, WorkerRaises(c, w)), c) <==>
            s.links[c].conn.transport != Direct && s.links[c].conn.initiated && |s.links[c].workers| == 1
  {
    hide Judge, Advance, Derive;
  }

  /** The handshake messages that establish a direct path: any INIT over UDP, and a RESP over
      UDP when there is a session or an ephemeral to make one with. */
  predicate Revives(s: State, l: Label, c: LinkId)
    requires c in s.links
  {
    && l.Handshake? && l.c == c && l.via.Udp?
    && (l.stage == Init || s.links[c].conn.session.Some? || s.links[c].conn.eph.Some?)
  }

  /** The label that lets a link's worker give up, or its keepalive loop fail over. */
  predicate Quits(s: State, l: Label, c: LinkId)
    requires c in s.links
  {
    l.WorkerRearms? && l.c == c && l.w < |s.links[c].workers| && s.links[c].workers[l.w] == GivingUp
  }

  predicate Fails(s: State, l: Label, c: LinkId)
    requires c in s.links
  {
    l == FailsOver(c) && s.links[c].conn.session.Some? && s.links[c].conn.transport == Direct
  }

  /** What can become of a link's ephemeral, of its claim and of its direct path. The ephemeral
      is made once by the initiator's worker; giving up discards it when there is no session,
      failing over always. The claim is set by connecting and taken back by those two. The path
      becomes direct by a handshake over UDP and stays so until it fails over. */
  ghost predicate FieldsMove(s: State, l: Label, c: LinkId, s': State)
    requires c in s.links
  {
    && c in s'.links
    && var conn, conn' := s.links[c].conn, s'.links[c].conn;
       && conn'.eph == (if Fails(s, l, c) || (Quits(s, l, c) && conn.session.None?) then None
                        else if l.WorkerBegins? && l.c == c && WorkerAt(s, c, l.w) && s.links[c].workers[l.w] == Starting
                                && AmInitiator(c.me, c.peer) && conn.eph.None? then Some(Eph(s.nextEph))
                        else conn.eph)
       && conn'.initiated == (l == EnsureConnecting(c) || (conn.initiated && !Quits(s, l, c) && !Fails(s, l, c)))
       && (conn'.transport == Direct <==> Revives(s, l, c) || (conn.transport == Direct && !Fails(s, l, c)))
  }

  lemma FieldsMoveExactly(labels: seq<Label>, l: Label, c: LinkId)
    requires c in Run(labels).links
    ensures FieldsMove(Run(labels), l, c, Run(labels + [l]))
  {
    hide Run, Next, FieldsMove;
    RunStep(labels, l);
    ConnectingExactly(labels, c);
    if l.Handshake? {
      HandshakeFields(Run(labels), l, c);
    } else if IsTraffic(l) {
      TrafficFields(Run(labels), l, c);
    } else {
      WorkerFields(Run(labels), l, c);
    }
  }

  predicate IsTraffic(l: Label) { l.Send? || l.Transmit? || l.FlushNext? || l.FlushRaises? || l.ReceiveUdp? || l.ReceiveRelayed? }

  lemma HandshakeFields(s: State, l: Label, c: LinkId)
    requires c in s.links && l.Handshake? && (s.links[c].conn.transport == Direct ==> s.links[c].conn.session.Some?)
    ensures FieldsMove(s, l, c, Next(s, l))
  {
    hide Derive;
  }

  lemma TrafficFields(s: State, l: Label, c: LinkId)
    requires c in s.links && IsTraffic(l)
    ensures FieldsMove(s, l, c, Next(s, l))
  {
    hide Judge, Advance, SealNext, WorkerAt;
  }

  lemma WorkerFields(s: State, l: Label, c: LinkId)
    requires c in s.links && !l.Handshake? && !IsTraffic(l)
    ensures FieldsMove(s, l, c, Next(s, l))
  {
    hide DoInit, DoResp, DoReceive;
  }

  /** In every run a link is connecting exactly as long as it has no session. */
  lemma {:induction false} ConnectingExactly(labels: seq<Label>, c: LinkId)
    requires c in Run(labels).links
    ensures Run(labels).links[c].conn.transport == Connecting <==> Run(labels).links[c].conn.session.None?
  {
    hide Next;
    var init, l := labels[..|labels| - 1], labels[|labels| - 1];
    if c in Run(init).links { ConnectingExactly(init, c); }
    if IsTraffic(l) { TrafficConnecting(Run(init), l, c); } else { OtherConnecting(Run(init), l, c); }
  }

  lemma TrafficConnecting(s: State, l: Label, c: LinkId)
    requires c in Next(s, l).links && IsTraffic(l)
    ensures c in s.links
    ensures Next(s, l).links[c].conn.transport == s.links[c].conn.transport
    ensures Next(s, l).links[c].conn.session.None? <==> s.links[c].conn.session.None?
  {
    hide Judge, Advance, SealNext;
  }

  lemma OtherConnecting(s: State, l: Label, c: LinkId)
    requires c in Next(s, l).links && !IsTraffic(l)
    requires c in s.links ==> (s.links[c].conn.transport == Connecting <==> s.links[c].conn.session.None?)
    ensures Next(s, l).links[c].conn.transport == Connecting <==> Next(s, l).links[c].conn.session.None?
  {
    hide Derive, DoReceive;
  }

  /** The address from which the last such handshake came. */
  ghost function SeenAt(labels: seq<Label>, c: LinkId): Option<nat> {
    if labels == [] then None
    else
      var init, l := labels[..|labels| - 1], labels[|labels| - 1];
      if c in Run(init).links && Revives(Run(init), l, c) then Some(l.via.addr) else SeenAt(init, c)
  }

  /** In every run the endpoint is the address the last such handshake was seen to come from,
      and a direct path has one. */
  lemma {:induction false} EndpointIsLastSeen(labels: seq<Label>, c: LinkId)
    ensures c !in Run(labels).links ==> SeenAt(labels, c) == None
    ensures c in Run(labels).links ==>
              && Run(labels).links[c].conn.endpoint == SeenAt(labels, c)
              && (Run(labels).links[c].conn.transport == Direct ==> SeenAt(labels, c).Some?)
  {
    hide Next, Revives;
    if labels != [] {
      var init, l := labels[..|labels| - 1], labels[|labels| - 1];
      EndpointIsLastSeen(init, c);
      EndpointStep(Run(init), l, c);
    }
  }

  ghost predicate EndpointMoves(s: State, l: Label, c: LinkId, s': State) {
    && (c !in s'.links ==> c !in s.links)
    && (c in s'.links ==>
          var conn := s'.links[c].conn;
          if c !in s.links then conn.endpoint == None && conn.transport != Direct
          else if Revives(s, l, c) then conn.endpoint == Some(l.via.addr) && conn.transport == Direct
          else conn.endpoint == s.links[c].conn.endpoint
               && (conn.transport == Direct ==> s.links[c].conn.transport == Direct))
  }

  lemma EndpointStep(s: State, l: Label, c: LinkId)
    ensures EndpointMoves(s, l, c, Next(s, l))
  {
    hide Next, EndpointMoves;
    if l.Handshake? { HandshakeEndpoint(s, l, c); } else { OtherEndpoint(s, l, c); }
  }

  lemma HandshakeEndpoint(s: State, l: Label, c: LinkId)
    requires l.Handshake?
    ensures EndpointMoves(s, l, c, Next(s, l))
  {
    hide Derive;
  }

  lemma OtherEndpoint(s: State, l: Label, c: LinkId)
    requires !l.Handshake?
    ensures EndpointMoves(s, l, c, Next(s, l))
  {
    hide Judge, Advance, SealNext, DoInit, DoResp;
  }

  /** A stuck link stays stuck under every step but those. */
  lemma StuckUntilRevived(s: State, l: Label, c: LinkId)
    requires Stuck(s, c)
    ensures !Stuck(Next(s, l), c) <==> Revives(s, l, c)
  {
    hide Judge, Advance, Derive, SealNext;
  }

  /** An initiator whose worker is sending its INIT. */
  function Looped(c: LinkId, index: nat): seq<Label> { [GetConn(c, index), EnsureConnecting(c), WorkerBegins(c, 0)] }

  lemma LoopedState(c: LinkId, index: nat)
    requires AmInitiator(c.me, c.peer)
    ensures var s := Run(Looped(c, index));
            && c in s.links && s.links[c].workers == [Looping(Some(Eph(0)))]
            && s.links[c].conn == NewConn(index).(eph := Some(Eph(0)), initiated := true)
  {
    var l1, l2, l3 := [GetConn(c, index)], [GetConn(c, index), EnsureConnecting(c)], Looped(c, index);
    assert l1[..0] == [] && l2[..1] == l1 && l3[..2] == l2;
    assert Run(l1) == DoGetConn(START, c, index);
    assert Run(l2) == DoConnect(Run(l1), c);
    assert Run(l2).links[c].workers == [Starting];
    assert Run(l3) == DoWorkerBegins(Run(l2), c, 0);
  }

  /** The premise of NeverStuck is needed. The initiator's looping worker relays its INIT with
      nothing around the call; if that raises, nothing this node does by itself ends it: not
      the next attempt to connect, and not the keepalive loop. */
  lemma StuckAfterException(c: LinkId, index: nat)
    requires AmInitiator(c.me, c.peer)
    ensures var s := Next(Run(Looped(c, index)), WorkerRaises(c, 0));
            Stuck(s, c) && Next(s, EnsureConnecting(c)) == s && Next(s, FailsOver(c)) == s
  {
    hide Run, Looped;
    LoopedState(c, index);
    KilledWorkerExactly(Run(Looped(c, index)), c, 0);
  }
}
