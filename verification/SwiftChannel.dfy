/** The Swift port of the channel: the same wire format from different code. Its cipher runs
    the hand-written SHAKE-256 and XORs byte by byte; its counters are 64-bit and trap. */
module SwiftChannel {
  import opened Bits
  import opened Words
  import opened Bytes
  import opened Primitives
  import opened RateLimit
  import opened SecureChannel
  import Keccak
  import Shake256
  import opened Wrappers

  /** An XOF that is SHAKE-256 of FIPS 202, as `hashlib.shake_256` is. */
  ghost predicate IsShake256(xof: Xof) {
    forall m, n: nat :: |xof(m, n)| == n && BytesToBits(xof(m, n)) == Keccak.Shake256(BytesToBits(m), 8 * n)
  }

  lemma BitsDetermineBytes(a: seq<Byte>, b: seq<Byte>)
    requires |a| == |b| && BytesToBits(a) == BytesToBits(b)
    ensures a == b
  {
    hide Bit;
    Pow2Values();
    forall k | 0 <= k < |a| ensures a[k] == b[k] {
      forall i: nat | i < 8 ensures Bit(a[k], i) == Bit(b[k], i) {
        var z := 8 * k + i;
        assert z / 8 == k && z % 8 == i;
        assert BytesToBits(a)[z] == BytesToBits(b)[z];
      }
      Extensional(a[k], b[k], 8);
    }
  }

  class SwiftCipher {
    const key: seq<Byte>
    var counter: U64

    constructor (key: seq<Byte>)
      ensures this.key == key && counter == 0
    {
      this.key, counter := key, 0;
    }

    /** The Python cipher's result at the same counter. None is the overflow trap. */
    method Crypt(data: seq<Byte>, ghost xof: Xof) returns (r: Option<seq<Byte>>)
      requires IsShake256(xof)
      modifies this
      ensures XofSized(xof)
      ensures data == [] || old(counter) + 1 < CTR_LIMIT ==>
                r == Some(CryptBytes(xof, key, old(counter), data)) && counter == NextCtr(old(counter), data)
      ensures data != [] && old(counter) + 1 == CTR_LIMIT ==> r == None && counter == old(counter)
    {
      hide Keccak.Shake256, BytesToBits, XorByte;
      if data == [] { return Some([]); }
      var ks := Shake256.Digest(key + ToBE(counter, 8), |data|);
      BitsDetermineBytes(ks, xof(key + ToBE(counter, 8), |data|));
      if counter + 1 == CTR_LIMIT { return None; }
      counter := counter + 1;
      var out := new Byte[|data|](_ => 0);
      for i := 0 to |data|
        invariant counter == old(counter) + 1
        invariant forall k :: 0 <= k < i ==> out[k] == XorByte(data[k], ks[k])
      {
        out[i] := XorByte(data[i], ks[i]);
      }
      assert out[..] == XorOctets(data, ks);
      r := Some(out[..]);
    }
  }

  /** The length header put together by shifts and ORs. */
  function ShiftedLength(b: seq<Byte>): nat
    requires |b| == 4
  {
    var b0: nat, b1: nat, b2: nat, b3: nat := b[0], b[1], b[2], b[3];
    Or(Or(Or(b0 * 0x100_0000, b1 * 0x1_0000), b2 * 0x100), b3)
  }

  lemma ShiftedLengthIsBigEndian(b: seq<Byte>)
    requires |b| == 4
    ensures ShiftedLength(b) == FromBE(b)
  {
    hide Or, Pow2;
    Pow2Values();
    var b0: nat, b1: nat, b2: nat, b3: nat := b[0], b[1], b[2], b[3];
    var x := b0 * 0x100 + b1;
    var y := x * 0x100 + b2;
    OrComm(b0 * 0x100_0000, b1 * 0x1_0000);
    OrDisjoint(b1 * 0x1_0000, b0, 24);
    OrComm(x * 0x1_0000, b2 * 0x100);
    OrDisjoint(b2 * 0x100, x, 16);
    OrComm(y * 0x100, b3);
    OrDisjoint(b3, y, 8);
    BigEndianFour(b);
  }

  lemma BigEndianFour(b: seq<Byte>)
    requires |b| == 4
    ensures var b0: nat, b1: nat, b2: nat, b3: nat := b[0], b[1], b[2], b[3];
            FromBE(b) == 0x100_0000 * b0 + 0x1_0000 * b1 + 0x100 * b2 + b3
  {
    var b0: nat, b1: nat, b2: nat, b3: nat := b[0], b[1], b[2], b[3];
    assert b[..3][..2] == b[..2] && b[..2][..1] == b[..1] && b[..1][..0] == [];
    assert FromBE(b[..1]) == b0 && FromBE(b[..2]) == 256 * b0 + b1;
    assert FromBE(b[..3]) == 256 * FromBE(b[..2]) + b2;
  }

  class SwiftDuplex {
    const sock: Socket
    const hmac: Mac
    const enc: SwiftCipher
    const dec: SwiftCipher
    const macSend: seq<Byte>
    const macRecv: seq<Byte>
    var sseq: U64
    var rseq: U64
    ghost const xof: Xof                   // SHAKE-256, as a function
    ghost var sentPlain: seq<seq<Byte>>
    ghost var received: seq<seq<Byte>>

    ghost predicate Valid()
      reads this, sock, enc, dec
    {
      && enc != dec && Mac32(hmac) && IsShake256(xof) && XofSized(xof)
      && sock.pos <= |sock.incoming|
      && sseq == |sentPlain| && enc.counter == NonEmpty(sentPlain)
      && rseq == |received| && dec.counter == NonEmpty(received)
    }

    constructor (sock: Socket, hmac: Mac, enc: seq<Byte>, dec: seq<Byte>, macSend: seq<Byte>, macRecv: seq<Byte>, ghost xof: Xof)
      requires Mac32(hmac) && IsShake256(xof) && sock.pos <= |sock.incoming|
      ensures Valid() && sentPlain == [] && received == [] && this.sock == sock && this.hmac == hmac && this.xof == xof
      ensures this.macSend == macSend && this.macRecv == macRecv && fresh(this.enc) && fresh(this.dec)
      ensures this.enc.key == enc && this.dec.key == dec
    {
      this.sock, this.hmac, this.macSend, this.macRecv, this.xof := sock, hmac, macSend, macRecv, xof;
      this.enc := new SwiftCipher(enc);
      this.dec := new SwiftCipher(dec);
      sseq, rseq, sentPlain, received := 0, 0, [], [];
    }

    /** On success the wire grows by exactly the frame the Python sender would write. */
    method Send(plaintext: seq<Byte>) returns (ok: bool)
      requires Valid()
      modifies this`sseq, this`sentPlain, enc, sock`outgoing
      ensures ok ==> Valid() && sentPlain == old(sentPlain) + [plaintext]
      ensures ok ==>
                && sock.outgoing == old(sock.outgoing)
                   + FrameOf(hmac, macSend, old(sseq), Sealed(xof, enc.key, sentPlain, old(sseq)))
      ensures !ok ==>
                || sock.outgoing == old(sock.outgoing)
                || (sentPlain == old(sentPlain) + [plaintext]
                    && exists k: nat :: k <= |FrameOf(hmac, macSend, old(sseq), Sealed(xof, enc.key, sentPlain, old(sseq)))|
                         && sock.outgoing == old(sock.outgoing) + FrameOf(hmac, macSend, old(sseq), Sealed(xof, enc.key, sentPlain, old(sseq)))[..k])
    {
      hide CryptBytes, ToBE, IsShake256, Mac32, XofSized, NonEmpty, NextCtr;
      NonEmptyBound(sentPlain);
      ghost var q := sseq;
      var ct := enc.Crypt(plaintext, xof);
      if ct.None? { return false; }
      var mac := hmac(macSend, ToBE(sseq, 8) + ct.value);
      if sseq + 1 == CTR_LIMIT { return false; }
      sseq := sseq + 1;
      SentOne(sentPlain, plaintext);
      sentPlain := sentPlain + [plaintext];
      if |ct.value| >= LEN_LIMIT { return false; }
      assert ct.value == Sealed(xof, enc.key, sentPlain, q);
      ghost var frame := FrameOf(hmac, macSend, q, ct.value);
      ok := SendRaw(sock, ToBE(|ct.value|, 4) + mac + ct.value);
      if !ok {
        ghost var k :| 0 <= k < |frame| && sock.outgoing == old(sock.outgoing) + frame[..k];
      }
    }

    method Recv() returns (r: Received)
      requires Valid()
      modifies this`rseq, this`received, dec, sock`pos, sock`timeouts
      ensures Valid() && old(sock.pos) <= sock.pos
      ensures sock.timeouts == old(sock.timeouts) + if r.Interrupted? then 1 else 0
      ensures !r.Plain? ==> received == old(received)
      ensures r.Plain? ==> received == old(received) + [r.data]
      ensures r.Plain? ==> Delivers(sock.incoming, hmac, macRecv, xof, dec.key, old(received), old(sock.pos), sock.pos, r.data)
      ensures forall ct :: (|ct| <= MAX_FRAME && old(rseq) + 1 < CTR_LIMIT
                            && FrameAt(sock.incoming, old(sock.pos), hmac(macRecv, ToBE(old(rseq), 8) + ct), ct)) ==>
                  r.Interrupted? || (r.Plain? && sock.pos == old(sock.pos) + 36 + |ct|)
      // the outcome is the Python receiver's, but for the last number, which traps
      ensures r.Interrupted?
              || match OutcomeAhead(sock.incoming, old(sock.pos), old(rseq), hmac, macRecv)
                 case Refusal(why) => r == why
                 case Delivery(end) => if old(rseq) + 1 == CTR_LIMIT then r == Exhausted else r.Plain? && sock.pos == end
    {
      hide FrameAhead, CryptBytes, ToBE, IsShake256, Mac32, XofSized, NonEmpty, FrameAt;
      NonEmptyBound(received);
      var f := ReadSwiftFrame(sock);
      match f {
        case Failed(why) => return why;
        case Raw(mac, ct) =>
          if mac != hmac(macRecv, ToBE(rseq, 8) + ct) { return BadMac; }
          if rseq + 1 == CTR_LIMIT { return Exhausted; }
          rseq := rseq + 1;
          var pt := dec.Crypt(ct, xof);
          NonEmptySnoc(received, pt.value);
          received := received + [pt.value];
          r := Plain(pt.value);
      }
    }
  }

  /** The next frame, its length by shifts and ORs. */
  method ReadSwiftFrame(sock: Socket) returns (f: RawFrame)
    requires sock.pos <= |sock.incoming|
    modifies sock`pos, sock`timeouts
    ensures old(sock.pos) <= sock.pos <= |sock.incoming|
    ensures sock.timeouts == old(sock.timeouts) + if f == Failed(Interrupted) then 1 else 0
    ensures f.Failed? ==> f.why.Disconnected? || f.why.Interrupted? || f.why.TooLarge?
    ensures f.Raw? ==>
              && sock.pos == old(sock.pos) + 36 + |f.ct| && |f.ct| <= MAX_FRAME && |f.mac| == 32
              && sock.incoming[old(sock.pos) + 4..old(sock.pos) + 36] == f.mac
              && sock.incoming[old(sock.pos) + 36..sock.pos] == f.ct
    ensures forall mac, ct :: FrameAt(sock.incoming, old(sock.pos), mac, ct) && |ct| <= MAX_FRAME ==>
              f == Raw(mac, ct) || f == Failed(Interrupted)
    ensures f == Failed(Interrupted) || f == FrameAhead(sock.incoming, old(sock.pos))
  {
    hide FromBE, ToBE, ShiftedLength;
    var header := ReadExactly(sock, 4);
    if !header.Bytes? { return Failed(if header.Eof? then Disconnected else Interrupted); }
    var length := ShiftedLength(header.b);
    ShiftedLengthIsBigEndian(header.b);
    LengthHeader(header.b);
    if length > MAX_FRAME { return Failed(TooLarge); }
    var mac := ReadExactly(sock, 32);
    if !mac.Bytes? { return Failed(if mac.Eof? then Disconnected else Interrupted); }
    var body := ReadExactly(sock, length);
    if !body.Bytes? { return Failed(if body.Eof? then Disconnected else Interrupted); }
    f := Raw(mac.b, body.b);
  }

  /** Send every plaintext in turn; on success the wire holds the frames Python would write. */
  method SwiftSendRun(ch: SwiftDuplex, plains: seq<seq<Byte>>) returns (ok: bool)
    requires ch.Valid() && ch.sentPlain == [] && ch.sock.outgoing == []
    modifies ch`sseq, ch`sentPlain, ch.enc, ch.sock`outgoing
    ensures XofSized(ch.xof)
    ensures ok ==> ch.sentPlain == plains
    ensures ok ==> ch.sock.outgoing == Frames(ch.xof, ch.hmac, ch.enc.key, ch.macSend, plains, |plains|)
  {
    hide CryptBytes, ToBE, IsShake256, NonEmpty;
    for i := 0 to |plains|
      invariant ch.Valid() && ch.sentPlain == plains[..i]
      invariant ch.sock.outgoing == Frames(ch.xof, ch.hmac, ch.enc.key, ch.macSend, plains, i)
    {
      var sent := ch.Send(plains[i]);
      if !sent { return false; }
      assert plains[..i] + [plains[i]] == plains[..i + 1];
      assert plains[..i + 1][..i] == plains[..i];
    }
    assert plains[..|plains|] == plains;
    ok := true;
  }

  ghost predicate SwiftIntact(ch: SwiftDuplex, plains: seq<seq<Byte>>)
    requires XofSized(ch.xof)
  {
    IntactStream(ch.sock.incoming, ch.hmac, ch.macRecv, ch.xof, ch.dec.key, plains)
  }

  ghost function SwiftPos(ch: SwiftDuplex, plains: seq<seq<Byte>>, n: nat): (p: nat)
    requires XofSized(ch.xof) && n <= |plains|
    ensures n == 0 ==> p == 0
  {
    |Frames(ch.xof, ch.hmac, ch.dec.key, ch.macRecv, plains, n)|
  }

  lemma SwiftIntactNext(ch: SwiftDuplex, plains: seq<seq<Byte>>, n: nat)
    requires XofSized(ch.xof) && Mac32(ch.hmac) && SwiftIntact(ch, plains) && n < |plains|
    ensures var ct := Sealed(ch.xof, ch.dec.key, plains, n);
            && |ct| <= MAX_FRAME
            && FrameAt(ch.sock.incoming, SwiftPos(ch, plains, n), ch.hmac(ch.macRecv, ToBE(n, 8) + ct), ct)
            && SwiftPos(ch, plains, n + 1) == SwiftPos(ch, plains, n) + 36 + |ct|
  {
    hide Frames, FrameAt, ToBE, CryptBytes;
    FrameInStream(ch.xof, ch.hmac, ch.dec.key, ch.macRecv, plains, n, |plains|);
  }

  /** One `recv` of a Swift receiver that has so far got a prefix. */
  method SwiftReceiveNext(ch: SwiftDuplex, ghost plains: seq<seq<Byte>>) returns (r: Received)
    requires ch.Valid() && ch.received <= plains
    requires Unforged(ch.sock.incoming, ch.hmac, ch.macRecv, ch.xof, ch.dec.key, plains)
    modifies ch`rseq, ch`received, ch.dec, ch.sock`pos, ch.sock`timeouts
    ensures ch.Valid() && ch.received <= plains
    ensures ch.sock.timeouts == old(ch.sock.timeouts) + if r.Interrupted? then 1 else 0
    ensures ch.received == if r.Plain? then old(ch.received) + [r.data] else old(ch.received)
    ensures SwiftIntact(ch, plains) && |plains| < CTR_LIMIT && |old(ch.received)| < |plains|
            && old(ch.sock.pos) == SwiftPos(ch, plains, |old(ch.received)|) ==>
              r.Interrupted? || (r.Plain? && ch.sock.pos == SwiftPos(ch, plains, |old(ch.received)| + 1))
  {
    hide CryptBytes, Frames, FrameAt, NonEmpty, ToBE, SwiftIntact, SwiftPos, Sealed, Mac32, Unforged, Delivers, IsShake256;
    ghost var n, p, before := |ch.received|, ch.sock.pos, ch.received;
    if SwiftIntact(ch, plains) && n < |plains| { SwiftIntactNext(ch, plains, n); }
    r := ch.Recv();
    if r.Plain? {
      GotNext(ch.sock.incoming, ch.hmac, ch.macRecv, ch.xof, ch.dec.key, plains, before, p, ch.sock.pos, r.data);
    }
  }

  /** Receive n times, or until something is thrown. A prefix comes out; and all of it when
      the stream is intact and the socket never times out. */
  method SwiftReceiveRun(ch: SwiftDuplex, n: nat, ghost plains: seq<seq<Byte>>) returns (results: seq<Received>)
    requires ch.Valid() && ch.received == [] && ch.sock.pos == 0
    requires Unforged(ch.sock.incoming, ch.hmac, ch.macRecv, ch.xof, ch.dec.key, plains)
    modifies ch`rseq, ch`received, ch.dec, ch.sock`pos, ch.sock`timeouts
    ensures ch.Valid() && |results| <= n && ch.received == Outs(results) && Outs(results) <= plains
    ensures forall i :: 0 <= i < |results| - 1 ==> results[i].Plain?
    ensures |results| < n ==> results != [] && !results[|results| - 1].Plain?
    ensures ch.sock.timeouts == old(ch.sock.timeouts) + LateCount(results)
    ensures SwiftIntact(ch, plains) && n == |plains| < CTR_LIMIT && ch.sock.timeouts == old(ch.sock.timeouts) ==> Outs(results) == plains
  {
    hide Frames, Unforged, CryptBytes, SwiftIntact, SwiftPos, Outs, LateCount, NonEmpty, IsShake256;
    results := [];
    NoResults();
    for i := 0 to n
      invariant ch.Valid() && |results| == i == |ch.received| && ch.received == Outs(results) && Outs(results) <= plains
      invariant forall k :: 0 <= k < i ==> results[k].Plain?
      invariant ch.sock.timeouts == old(ch.sock.timeouts) + LateCount(results) && LateCount(results) == 0
      invariant SwiftIntact(ch, plains) && |plains| < CTR_LIMIT ==> ch.sock.pos == SwiftPos(ch, plains, i)
    {
      var r := SwiftReceiveNext(ch, plains);
      OutsSnoc(results, r);
      results := results + [r];
      if !r.Plain? { return; }
    }
  }

  lemma NoResults()
    ensures Outs([]) == [] && LateCount([]) == 0
  {
  }

  // ----- either sender to either receiver -----

  /** One direction of a connection, from either implementation to either: the receiver is
      fed what the sender wrote. The premises are that nobody forges a MAC over that wire, that
      the plaintexts fit, and, for the Python receiver, that no second holds more checks than
      its limit. Then what arrives is a prefix, and all of it unless the socket timed out. */
  method Deliver(swiftSends: bool, swiftReceives: bool, xof: Xof, hmac: Mac, key: seq<Byte>, mkey: seq<Byte>, back: seq<Byte>,
                 mback: seq<Byte>, plains: seq<seq<Byte>>, maxFps: nat, now: real, times: seq<real>)
    returns (sent: bool, results: seq<Received>, ghost late: nat)
    requires Mac32(hmac) && IsShake256(xof) && XofSized(xof)
    requires Unforged(Frames(xof, hmac, key, mkey, plains, |plains|), hmac, mkey, xof, key, plains)
    requires |plains| < CTR_LIMIT && forall i :: 0 <= i < |plains| ==> |plains[i]| <= MAX_FRAME
    requires |times| == |plains| && Ordered(times) && forall i :: 0 <= i < |times| ==> now <= times[i]
    requires forall lo, hi :: 0 <= lo < hi <= |times| && WithinSecond(times, lo, hi) ==> hi - lo <= maxFps
    ensures late == LateCount(results)
    ensures sent ==> Outs(results) <= plains && (late == 0 ==> Outs(results) == plains)
  {
    hide Frames, Unforged, CryptBytes, NonEmpty, IsShake256, Mac32, PassedAt, Outs, LateCount;
    results, late := [], 0;
    NoResults();
    var out := new Socket([]);
    if swiftSends {
      var ch := new SwiftDuplex(out, hmac, key, back, mkey, mback, xof);
      sent := SwiftSendRun(ch, plains);
    } else {
      var ch := new Channel(out, xof, hmac, key, back, mkey, mback, maxFps, now);
      sent := SendRun(ch, plains);
    }
    if !sent { return; }
    var sock := new Socket(out.outgoing);
    if swiftReceives {
      var ch := new SwiftDuplex(sock, hmac, back, key, mback, mkey, xof);
      results := SwiftReceiveRun(ch, |plains|, plains);
    } else {
      var ch := new Channel(sock, xof, hmac, back, key, mback, mkey, maxFps, now);
      NeverLimited(RateLimit.Window(0, now), maxFps, times);
      results := ReceiveRun(ch, times, plains);
    }
    late := sock.timeouts;
  }

  lemma NeverLimited(w0: RateLimit.Window, max: nat, times: seq<real>)
    requires Ordered(times) && w0.count == 0 && forall i :: 0 <= i < |times| ==> w0.start <= times[i]
    requires forall lo, hi :: 0 <= lo < hi <= |times| && WithinSecond(times, lo, hi) ==> hi - lo <= max
    ensures forall k :: 0 <= k < |times| ==> PassedAt(w0, max, times, k)
  {
    hide PassedAt;
    forall k | 0 <= k < |times| ensures PassedAt(w0, max, times, k) { NoneRejectedWhenSlow(w0, max, times, k); }
  }
}
