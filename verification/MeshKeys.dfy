/** Symbolic key agreement of the mesh handshake. A Diffie-Hellman value is the
    unordered pair of the keys that made it, and HKDF is a free constructor. */
module MeshKeys {

  /** A mesh node is named by its static public key, read as a number so that the
      byte-wise comparison of two 32-byte keys is `<`. */
  type Node = nat

  datatype KeyId = Static(node: Node) | Eph(num: nat)

  datatype Shared = Shared(pair: set<KeyId>)

  function DH(a: KeyId, b: KeyId): Shared { Shared({a, b}) }

  datatype Transcript = Transcript(iStatic: KeyId, rStatic: KeyId, iEph: KeyId, rEph: KeyId)

  datatype Material = Hkdf(ee: Shared, se: Shared, es: Shared, transcript: Transcript)

  /** The two 32-byte halves of the HKDF output. */
  datatype Half = First | Second

  datatype Key = Key(material: Material, half: Half)

  datatype KeyPair = KeyPair(tx: Key, rx: Key)

  function Derive(me: Node, peer: Node, myEph: KeyId, peerEph: KeyId, initiator: bool): KeyPair
  {
    var ee := DH(myEph, peerEph);
    var se := if initiator then DH(Static(me), peerEph) else DH(myEph, Static(peer));
    var es := if initiator then DH(myEph, Static(peer)) else DH(Static(me), peerEph);
    var transcript :=
      if initiator then Transcript(Static(me), Static(peer), myEph, peerEph)
      else Transcript(Static(peer), Static(me), peerEph, myEph);
    var material := Hkdf(ee, se, es, transcript);
    if initiator then KeyPair(Key(material, First), Key(material, Second))
    else KeyPair(Key(material, Second), Key(material, First))
  }

  /** The node that encrypts under k, read off the transcript inside it. */
  function Sender(k: Key): KeyId {
    if k.half == First then k.material.transcript.iStatic else k.material.transcript.rStatic
  }

  function Receiver(k: Key): KeyId {
    if k.half == First then k.material.transcript.rStatic else k.material.transcript.iStatic
  }

  ghost predicate CrossMatch(a: KeyPair, b: KeyPair) { a.tx == b.rx && a.rx == b.tx }

  /** Keys name the two identities: whichever role derived them and whatever
      ephemeral the peer claimed, tx is from me to peer and rx from peer to me. */
  lemma DerivedKeysNameBothEnds(me: Node, peer: Node, myEph: KeyId, peerEph: KeyId, initiator: bool)
    ensures var kp := Derive(me, peer, myEph, peerEph, initiator);
            && Sender(kp.tx) == Static(me) && Receiver(kp.tx) == Static(peer)
            && Sender(kp.rx) == Static(peer) && Receiver(kp.rx) == Static(me)
            && kp.tx != kp.rx
  {
  }

  /** Two derivations cross-match exactly when the roles are opposite, each named
      the other as its peer, and both used the same two ephemerals. */
  lemma CrossMatchExactly(n1: Node, p1: Node, e1: KeyId, x1: KeyId, init1: bool,
                          n2: Node, p2: Node, e2: KeyId, x2: KeyId, init2: bool)
    ensures CrossMatch(Derive(n1, p1, e1, x1, init1), Derive(n2, p2, e2, x2, init2))
            <==> init1 != init2 && n1 == p2 && p1 == n2 && e1 == x2 && x1 == e2
  {
    if init1 != init2 && n1 == p2 && p1 == n2 && e1 == x2 && x1 == e2 {
      assert {e1, x1} == {e2, x2};
      assert {Static(n1), x1} == {e2, Static(p2)};
      assert {e1, Static(p1)} == {Static(n2), x2};
    }
  }

  /** A Diffie-Hellman value can be computed from secret keys that include one of its two. */
  ghost predicate CanCompute(secrets: set<KeyId>, s: Shared) {
    exists k :: k in secrets && k in s.pair
  }

  ghost predicate CanDerive(secrets: set<KeyId>, m: Material) {
    CanCompute(secrets, m.ee) && CanCompute(secrets, m.se) && CanCompute(secrets, m.es)
  }

  /** Mutual authentication of the triple DH: a holder of secrets derives the session
      material exactly when it holds one side's ephemeral together with that side's
      static key, or both ephemerals. */
  lemma OnlyParticipantsDerive(me: Node, peer: Node, myEph: KeyId, peerEph: KeyId, initiator: bool,
                               secrets: set<KeyId>)
    ensures CanDerive(secrets, Derive(me, peer, myEph, peerEph, initiator).tx.material)
            <==> || (myEph in secrets && Static(me) in secrets)
                 || (peerEph in secrets && Static(peer) in secrets)
                 || (myEph in secrets && peerEph in secrets)
  {
    var m := Derive(me, peer, myEph, peerEph, initiator).tx.material;
    PairTest(secrets, myEph, peerEph);
    PairTest(secrets, Static(me), peerEph);
    PairTest(secrets, myEph, Static(peer));
  }

  lemma PairTest(secrets: set<KeyId>, a: KeyId, b: KeyId)
    ensures CanCompute(secrets, DH(a, b)) <==> a in secrets || b in secrets
  {
    assert a in DH(a, b).pair && b in DH(a, b).pair;
  }
}
