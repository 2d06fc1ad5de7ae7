/** The framed, encrypted, MACed channel of remote_desktop.py: the stream cipher whose
    counter skips empty frames, the sequence numbers that do not, and `send`/`recv` over a
    socket that delivers and accepts bytes in arbitrary chunks. */
module SecureChannel {
  import opened Bits
  import opened Words
  import opened Bytes
  import opened Primitives
  import opened RateLimit
  import opened Wrappers

  const MAX_FRAME: nat := 4 * 1024 * 1024
  const CTR_LIMIT: nat := 0x1_0000_0000_0000_0000   // counters are packed into 8 bytes
  const LEN_LIMIT: nat := 0x1_0000_0000             // lengths into 4

  // ----- the cipher -----

  function Keystream(xof: Xof, key: seq<Byte>, ctr: nat, n: nat): seq<Byte> { xof(key + ToBE(ctr, 8), n) }

  ghost function CryptBytes(xof: Xof, key: seq<Byte>, ctr: nat, data: seq<Byte>): (r: seq<Byte>)
    requires XofSized(xof)
    ensures |r| == |data|
  {
    if data == [] then [] else XorOctets(data, Keystream(xof, key, ctr, |data|))
  }

  function NextCtr(ctr: nat, data: seq<Byte>): nat { if data == [] then ctr else ctr + 1 }

  /** Decrypting at the counter of encryption gives the plaintext back. */
  lemma CryptUndoesCrypt(xof: Xof, key: seq<Byte>, ctr: nat, data: seq<Byte>)
    requires XofSized(xof)
    ensures CryptBytes(xof, key, ctr, CryptBytes(xof, key, ctr, data)) == data
  {
    if data != [] { XorOctetsTwice(data, Keystream(xof, key, ctr, |data|)); }
  }

  /** The XOF is asked about one input, the key and then the counter as eight big-endian bytes,
      and its answer decides the result. */
  lemma AsksExactly(a: Xof, b: Xof, key: seq<Byte>, ctr: nat, data: seq<Byte>, m: seq<Byte>)
    requires XofSized(a) && XofSized(b) && ctr < CTR_LIMIT && data != []
    requires |m| == |key| + 8 && m[..|key|] == key && FromBE(m[|key|..]) == ctr
    ensures CryptBytes(a, key, ctr, data) == CryptBytes(b, key, ctr, data) <==> a(m, |data|) == b(m, |data|)
  {
    hide FromBE, ToBE, XorOctets;
    ToBEFromBE(m[|key|..]);
    assert m == key + ToBE(ctr, 8);
    XorOctetsTwice(data, a(m, |data|));
    XorOctetsTwice(data, b(m, |data|));
    XorOctetsBack(data, a(m, |data|));
    XorOctetsBack(data, b(m, |data|));
  }

  class XofCipher {
    const xof: Xof
    const key: seq<Byte>
    var ctr: nat

    constructor (xof: Xof, key: seq<Byte>)
      ensures this.xof == xof && this.key == key && ctr == 0
    {
      this.xof, this.key, ctr := xof, key, 0;
    }

    /** None when the counter no longer packs into 8 bytes. */
    method Crypt(data: seq<Byte>) returns (r: Option<seq<Byte>>)
      requires XofSized(xof)
      modifies this
      ensures data == [] || old(ctr) < CTR_LIMIT ==>
                r == Some(CryptBytes(xof, key, old(ctr), data)) && ctr == NextCtr(old(ctr), data)
      ensures data != [] && old(ctr) >= CTR_LIMIT ==> r == None && ctr == old(ctr)
    {
      if data == [] { return Some([]); }
      if ctr >= CTR_LIMIT { return None; }
      var ks := xof(key + ToBE(ctr, 8), |data|);
      ctr := ctr + 1;
      XorBigIsBytewise(data, ks);
      r := Some(XorBig(data, ks));
    }
  }

  // ----- what a sender's plaintexts look like on the wire -----

  /** How many of the plaintexts are not empty: the cipher counter after them. */
  function NonEmpty(plains: seq<seq<Byte>>): nat {
    if plains == [] then 0 else NextCtr(NonEmpty(plains[..|plains| - 1]), plains[|plains| - 1])
  }

  ghost function Sealed(xof: Xof, key: seq<Byte>, plains: seq<seq<Byte>>, q: nat): (ct: seq<Byte>)
    requires XofSized(xof) && q < |plains|
    ensures |ct| == |plains[q]|
  {
    CryptBytes(xof, key, NonEmpty(plains[..q]), plains[q])
  }

  ghost function FrameOf(hmac: Mac, mkey: seq<Byte>, q: nat, ct: seq<Byte>): seq<Byte> {
    ToBE(|ct|, 4) + hmac(mkey, ToBE(q, 8) + ct) + ct
  }

  /** A frame, read from the front: four big-endian bytes of length, 32 of MAC, the ciphertext;
      and the MAC is that of the sequence number as eight big-endian bytes and the ciphertext. */
  lemma FrameExactly(hmac: Mac, mkey: seq<Byte>, q: nat, ct: seq<Byte>, m: seq<Byte>, f: seq<Byte>)
    requires Mac32(hmac) && q < CTR_LIMIT && |ct| < LEN_LIMIT
    requires |m| == 8 + |ct| && FromBE(m[..8]) == q && m[8..] == ct
    ensures f == FrameOf(hmac, mkey, q, ct) <==>
            |f| == 36 + |ct| && FromBE(f[..4]) == |ct| && f[4..36] == hmac(mkey, m) && f[36..] == ct
  {
    hide FromBE, ToBE;
    Pow2Values();
    ToBEFromBE(m[..8]);
    assert m == ToBE(q, 8) + ct;
    FromBEToBE(|ct|, 4);
    var g := FrameOf(hmac, mkey, q, ct);
    assert g[..4] == ToBE(|ct|, 4) && g[4..36] == hmac(mkey, m) && g[36..] == ct;
    if |f| == 36 + |ct| && FromBE(f[..4]) == |ct| {
      ToBEFromBE(f[..4]);
      assert f == f[..4] + f[4..36] + f[36..];
    }
  }

  ghost function Frames(xof: Xof, hmac: Mac, key: seq<Byte>, mkey: seq<Byte>, plains: seq<seq<Byte>>, n: nat): seq<Byte>
    requires XofSized(xof) && n <= |plains|
  {
    if n == 0 then []
    else Frames(xof, hmac, key, mkey, plains, n - 1) + FrameOf(hmac, mkey, n - 1, Sealed(xof, key, plains, n - 1))
  }

  /** Between two plaintexts the cipher counter grows by the non-empty ones. */
  lemma {:induction false} NonEmptyGrows(plains: seq<seq<Byte>>, i: nat, j: nat)
    requires i < j <= |plains|
    ensures NonEmpty(plains[..i]) <= NonEmpty(plains[..j])
    ensures plains[i] != [] ==> NonEmpty(plains[..i]) < NonEmpty(plains[..j])
  {
    assert plains[..j][..j - 1] == plains[..j - 1];
    if i < j - 1 { NonEmptyGrows(plains, i, j - 1); }
  }

  /** The keystreams of two different (key, counter) pairs are independent: whatever two
      ciphertexts of the right lengths one names, some XOF gives exactly these. */
  lemma PadsIndependent(k1: seq<Byte>, c1: nat, p1: seq<Byte>, k2: seq<Byte>, c2: nat, p2: seq<Byte>, ct1: seq<Byte>, ct2: seq<Byte>)
    returns (xof: Xof)
    requires |k1| == |k2| && c1 < CTR_LIMIT && c2 < CTR_LIMIT && (k1 != k2 || c1 != c2)
    requires |ct1| == |p1| && |ct2| == |p2|
    ensures XofSized(xof) && CryptBytes(xof, k1, c1, p1) == ct1 && CryptBytes(xof, k2, c2, p2) == ct2
  {
    hide FromBE, ToBE, XorOctets;
    var m1, m2 := k1 + ToBE(c1, 8), k2 + ToBE(c2, 8);
    assert m1[..|k1|] == k1 && m2[..|k1|] == k2 && m1[|k1|..] == ToBE(c1, 8) && m2[|k1|..] == ToBE(c2, 8);
    Pow2Values();
    FromBEToBE(c1, 8);
    FromBEToBE(c2, 8);
    assert m1 != m2;
    var pad1, pad2 := XorOctets(p1, ct1), XorOctets(p2, ct2);
    xof := (m: seq<Byte>, n: nat) => if m == m1 && n == |pad1| then pad1 else if m == m2 && n == |pad2| then pad2 else Ones(n);
    XorOctetsBack(p1, ct1);
    XorOctetsBack(p2, ct2);
  }

  /** No part of the keystream is used twice: two non-empty plaintexts of one sender are
      sealed with independent keystreams, as are those of the two directions. */
  lemma NoTwoTimePad(key: seq<Byte>, plains: seq<seq<Byte>>, i: nat, j: nat, ct1: seq<Byte>, ct2: seq<Byte>) returns (xof: Xof)
    requires i < j < |plains| && plains[i] != [] && plains[j] != [] && NonEmpty(plains[..j]) < CTR_LIMIT
    requires |ct1| == |plains[i]| && |ct2| == |plains[j]|
    ensures XofSized(xof) && Sealed(xof, key, plains, i) == ct1 && Sealed(xof, key, plains, j) == ct2
  {
    hide CryptBytes, NonEmpty;
    NonEmptyGrows(plains, i, j);
    xof := PadsIndependent(key, NonEmpty(plains[..i]), plains[i], key, NonEmpty(plains[..j]), plains[j], ct1, ct2);
  }

  // ----- socket -----

  datatype Chunk = Data(bytes: seq<Byte>) | TimedOut

  /** One end of a connection. The peer's bytes are `incoming`; the first `pos` of them have
      been received. */
  class Socket {
    const incoming: seq<Byte>
    var pos: nat
    var outgoing: seq<Byte>
    ghost var timeouts: nat              // how often `recv` has timed out

    constructor (incoming: seq<Byte>)
      ensures this.incoming == incoming && pos == 0 && outgoing == [] && timeouts == 0
    {
      this.incoming, pos, outgoing, timeouts := incoming, 0, [], 0;
    }

    /** At most n bytes, at least one unless the stream has ended; or a timeout. */
    method Recv(n: nat) returns (c: Chunk)
      requires pos <= |incoming| && n > 0
      modifies this`pos, this`timeouts
      ensures old(pos) <= pos <= |incoming|
      ensures c.TimedOut? ==> pos == old(pos)
      ensures timeouts == old(timeouts) + if c.TimedOut? then 1 else 0
      ensures c.Data? ==> c.bytes == incoming[old(pos)..pos] && |c.bytes| <= n
      ensures c.Data? ==> (c.bytes == [] <==> old(pos) == |incoming|)
    {
      var late: bool := *;
      if late {
        timeouts := timeouts + 1;
        return TimedOut;
      }
      if pos == |incoming| { return Data([]); }
      var k: nat :| 1 <= k <= n && pos + k <= |incoming|;
      c := Data(incoming[pos..pos + k]);
      pos := pos + k;
    }

    /** How many of the offered bytes were taken; 0 once the connection is gone. */
    method Send(data: seq<Byte>) returns (n: nat)
      modifies this`outgoing
      ensures n <= |data| && outgoing == old(outgoing) + data[..n]
    {
      n :| 0 <= n <= |data|;
      outgoing := outgoing + data[..n];
    }
  }

  datatype Read = Bytes(b: seq<Byte>) | Eof | Late

  /** Read exactly n bytes, however the socket cuts them. */
  method ReadExactly(sock: Socket, n: nat) returns (r: Read)
    requires sock.pos <= |sock.incoming|
    modifies sock`pos, sock`timeouts
    ensures old(sock.pos) <= sock.pos <= |sock.incoming|
    ensures sock.timeouts == old(sock.timeouts) + if r.Late? then 1 else 0
    ensures r.Bytes? ==> sock.pos == old(sock.pos) + n && r.b == sock.incoming[old(sock.pos)..sock.pos]
    ensures r.Eof? ==> old(sock.pos) + n > |sock.incoming|
  {
    var got := [];
    while |got| < n
      invariant old(sock.pos) <= sock.pos <= |sock.incoming|
      invariant |got| <= n && sock.pos == old(sock.pos) + |got|
      invariant got == sock.incoming[old(sock.pos)..sock.pos] && sock.timeouts == old(sock.timeouts)
      decreases n - |got|
    {
      var c := sock.Recv(n - |got|);
      if c.TimedOut? { return Late; }
      if c.bytes == [] { return Eof; }
      got := got + c.bytes;
    }
    r := Bytes(got);
  }

  method SendRaw(sock: Socket, data: seq<Byte>) returns (ok: bool)
    modifies sock`outgoing
    ensures ok ==> sock.outgoing == old(sock.outgoing) + data
    ensures !ok ==> exists k :: 0 <= k < |data| && sock.outgoing == old(sock.outgoing) + data[..k]
  {
    var sent := 0;
    while sent < |data|
      invariant sent <= |data| && sock.outgoing == old(sock.outgoing) + data[..sent]
    {
      var n := sock.Send(data[sent..]);
      if n == 0 { return false; }
      sent := sent + n;
    }
    ok := true;
  }

  // ----- the channel -----

  datatype Received =
    | Plain(data: seq<Byte>)
    | RateLimited | Disconnected | Interrupted | TooLarge | BadMac | Exhausted

  /** A frame of the stream at p, authentic under sequence number q. */
  ghost predicate AuthenticAt(stream: seq<Byte>, hmac: Mac, mkey: seq<Byte>, q: nat, p: nat, ct: seq<Byte>) {
    && p + 36 + |ct| <= |stream|
    && stream[p + 36..p + 36 + |ct|] == ct
    && stream[p + 4..p + 36] == hmac(mkey, ToBE(q, 8) + ct)
  }

  /** After `received`, the stream from p to end is one authentic frame, and data its plaintext. */
  ghost predicate Delivers(stream: seq<Byte>, hmac: Mac, mkey: seq<Byte>, xof: Xof, key: seq<Byte>, received: seq<seq<Byte>>,
                           p: nat, end: nat, data: seq<Byte>)
    requires XofSized(xof)
  {
    && p + 36 <= end <= |stream|
    && AuthenticAt(stream, hmac, mkey, |received|, p, stream[p + 36..end])
    && data == CryptBytes(xof, key, NonEmpty(received), stream[p + 36..end])
  }

  class Channel {
    const sock: Socket
    const hmac: Mac
    const enc: XofCipher
    const dec: XofCipher
    const macSend: seq<Byte>
    const macRecv: seq<Byte>
    const limiter: RateLimiter
    var sendSeq: nat
    var recvSeq: nat
    ghost var sentPlain: seq<seq<Byte>>    // every plaintext `send` has sealed
    ghost var received: seq<seq<Byte>>     // every plaintext `recv` has returned

    /** Both sequence numbers count frames; both cipher counters count non-empty frames. */
    ghost predicate Valid()
      reads this, sock, enc, dec
    {
      && enc != dec && Mac32(hmac) && XofSized(enc.xof) && XofSized(dec.xof)
      && sock.pos <= |sock.incoming|
      && sendSeq == |sentPlain| && enc.ctr <= sendSeq + 1
      && (sendSeq < CTR_LIMIT ==> enc.ctr == NonEmpty(sentPlain))
      && recvSeq == |received| && recvSeq <= CTR_LIMIT && dec.ctr == NonEmpty(received)
    }

    /** The frame of the latest plaintext sealed. */
    ghost function LastFrame(): seq<Byte>
      reads this
      requires XofSized(enc.xof) && sendSeq == |sentPlain| && sendSeq > 0
    {
      FrameOf(hmac, macSend, sendSeq - 1, Sealed(enc.xof, enc.key, sentPlain, sendSeq - 1))
    }

    constructor (sock: Socket, xof: Xof, hmac: Mac, enc: seq<Byte>, dec: seq<Byte>, macSend: seq<Byte>, macRecv: seq<Byte>,
                 maxFps: nat, now: real)
      requires Mac32(hmac) && XofSized(xof) && sock.pos <= |sock.incoming|
      ensures Valid() && sentPlain == [] && received == [] && this.sock == sock && this.hmac == hmac
      ensures this.macSend == macSend && this.macRecv == macRecv && fresh(this.enc) && fresh(this.dec) && fresh(limiter)
      ensures this.enc.key == enc && this.dec.key == dec && this.enc.xof == xof && this.dec.xof == xof
      ensures limiter.max == maxFps && limiter.View() == RateLimit.Window(0, now)
    {
      this.sock, this.hmac, this.macSend, this.macRecv := sock, hmac, macSend, macRecv;
      this.enc := new XofCipher(xof, enc);
      this.dec := new XofCipher(xof, dec);
      limiter := new RateLimiter(maxFps, now);
      sendSeq, recvSeq, sentPlain, received := 0, 0, [], [];
    }

    method Send(plaintext: seq<Byte>) returns (ok: bool)
      requires Valid()
      modifies this`sendSeq, this`sentPlain, enc, sock`outgoing
      ensures Valid()
      ensures old(sendSeq) < CTR_LIMIT ==> sentPlain == old(sentPlain) + [plaintext]
      ensures old(sendSeq) >= CTR_LIMIT ==> !ok && sentPlain == old(sentPlain) && sock.outgoing == old(sock.outgoing)
      ensures ok ==> old(sendSeq) < CTR_LIMIT && sock.outgoing == old(sock.outgoing) + LastFrame()
      ensures !ok && old(sendSeq) < CTR_LIMIT ==>
                (exists k: nat :: k <= |LastFrame()| && sock.outgoing == old(sock.outgoing) + LastFrame()[..k])
    {
      hide CryptBytes, NonEmpty, ToBE, Mac32, XofSized, FrameOf, NextCtr;
      NonEmptyBound(sentPlain);
      CounterAfter(enc.ctr, plaintext);
      var c := enc.Crypt(plaintext);
      if c.None? || sendSeq >= CTR_LIMIT { return false; }
      var ct := c.value;
      var mac := hmac(macSend, ToBE(sendSeq, 8) + ct);
      ghost var frame := FrameOf(hmac, macSend, sendSeq, ct);
      FrameParts(hmac, macSend, sendSeq, ct);
      SentOne(sentPlain, plaintext);
      sendSeq := sendSeq + 1;
      sentPlain := sentPlain + [plaintext];
      assert frame == LastFrame();
      if |ct| >= LEN_LIMIT {
        assert sock.outgoing == old(sock.outgoing) + frame[..0];
        return false;
      }
      ok := SendRaw(sock, ToBE(|ct|, 4) + mac + ct);
      if !ok {
        ghost var k :| 0 <= k < |frame| && sock.outgoing == old(sock.outgoing) + frame[..k];
        assert k <= |LastFrame()| && sock.outgoing == old(sock.outgoing) + LastFrame()[..k];
      }
    }

    method Recv(now: real) returns (r: Received)
      requires Valid()
      modifies this`recvSeq, this`received, dec, sock`pos, sock`timeouts, limiter
      ensures Valid() && old(sock.pos) <= sock.pos
      ensures sock.timeouts == old(sock.timeouts) + if r.Interrupted? then 1 else 0
      ensures !r.Plain? ==> received == old(received)
      ensures r.Plain? ==> received == old(received) + [r.data] && old(recvSeq) < CTR_LIMIT
      ensures r.Plain? ==> Delivers(sock.incoming, hmac, macRecv, dec.xof, dec.key, old(received), old(sock.pos), sock.pos, r.data)
      ensures limiter.View() == Checked(old(limiter.View()), now)
      ensures r.RateLimited? <==> !Passes(old(limiter.View()), limiter.max, now)
      // with a whole authentic frame next in the stream, only time can keep it from the caller
      ensures forall ct :: (|ct| <= MAX_FRAME && old(recvSeq) < CTR_LIMIT
                            && FrameAt(sock.incoming, old(sock.pos), hmac(macRecv, ToBE(old(recvSeq), 8) + ct), ct)) ==>
                  r.RateLimited? || r.Interrupted? || (r.Plain? && sock.pos == old(sock.pos) + 36 + |ct|)
      // and whatever the bytes are, only time can keep what they call for from happening
      ensures r.RateLimited? || r.Interrupted?
              || match OutcomeAhead(sock.incoming, old(sock.pos), old(recvSeq), hmac, macRecv)
                 case Refusal(why) => r == why
                 case Delivery(end) => r.Plain? && sock.pos == end
    {
      hide FrameAhead, FrameAt, CryptBytes, NonEmpty, ToBE, Checked, Passes, Mac32;
      var pass := limiter.Check(now);
      if !pass { return RateLimited; }
      var f := ReadFrame(sock);
      match f {
        case Failed(why) => return why;
        case Raw(mac, ct) =>
          if recvSeq >= CTR_LIMIT { return Exhausted; }
          if mac != hmac(macRecv, ToBE(recvSeq, 8) + ct) { return BadMac; }
          recvSeq := recvSeq + 1;
          NonEmptyBound(received);
          var pt := dec.Crypt(ct);
          NonEmptySnoc(received, pt.value);
          received := received + [pt.value];
          r := Plain(pt.value);
      }
    }
  }

  datatype RawFrame = Raw(mac: seq<Byte>, ct: seq<Byte>) | Failed(why: Received)

  /** A whole frame with this MAC and ciphertext stands at p. */
  ghost predicate FrameAt(stream: seq<Byte>, p: nat, mac: seq<Byte>, ct: seq<Byte>) {
    && |mac| == 32 && p + 36 + |ct| <= |stream|
    && stream[p..p + 4] == ToBE(|ct|, 4)
    && stream[p + 4..p + 36] == mac
    && stream[p + 36..p + 36 + |ct|] == ct
  }

  /** What stands at p: the stream ends before a frame does, or the frame is too large, or a
      frame's MAC and ciphertext. */
  ghost function FrameAhead(stream: seq<Byte>, p: nat): RawFrame
    requires p <= |stream|
  {
    if |stream| - p < 4 then Failed(Disconnected)
    else if FromBE(stream[p..p + 4]) > MAX_FRAME then Failed(TooLarge)
    else
      var n := FromBE(stream[p..p + 4]);
      if |stream| - p < 36 + n then Failed(Disconnected) else Raw(stream[p + 4..p + 36], stream[p + 36..p + 36 + n])
  }

  /** What a receiver that expects number q makes of the bytes at p. */
  ghost function OutcomeAhead(stream: seq<Byte>, p: nat, q: nat, hmac: Mac, mkey: seq<Byte>): Outcome
    requires p <= |stream|
  {
    match FrameAhead(stream, p)
    case Failed(why) => Refusal(why)
    case Raw(mac, ct) =>
      if q >= CTR_LIMIT then Refusal(Exhausted)
      else if mac != hmac(mkey, ToBE(q, 8) + ct) then Refusal(BadMac)
      else Delivery(p + 36 + |ct|)
  }

  datatype Outcome = Refusal(why: Received) | Delivery(end: nat)

  /** Length, MAC and ciphertext of the next frame. */
  method ReadFrame(sock: Socket) returns (f: RawFrame)
    requires sock.pos <= |sock.incoming|
    modifies sock`pos, sock`timeouts
    ensures old(sock.pos) <= sock.pos <= |sock.incoming|
    ensures sock.timeouts == old(sock.timeouts) + if f == Failed(Interrupted) then 1 else 0
    ensures f.Failed? ==> f.why.Disconnected? || f.why.Interrupted? || f.why.TooLarge?
    ensures f.Raw? ==>
              && sock.pos == old(sock.pos) + 36 + |f.ct| && |f.ct| <= MAX_FRAME && |f.mac| == 32
              && sock.incoming[old(sock.pos) + 4..old(sock.pos) + 36] == f.mac
              && sock.incoming[old(sock.pos) + 36..sock.pos] == f.ct
    ensures forall mac, ct :: FrameAt(sock.incoming, old(sock.pos), mac, ct) && |ct| <= MAX_FRAME ==>
              f == Raw(mac, ct) || f == Failed(Interrupted)
    ensures f == Failed(Interrupted) || f == FrameAhead(sock.incoming, old(sock.pos))
  {
    ghost var p := sock.pos;
    var header := ReadExactly(sock, 4);
    if !header.Bytes? { return Failed(if header.Eof? then Disconnected else Interrupted); }
    var length := FromBE(header.b);
    LengthHeader(header.b);
    if length > MAX_FRAME { return Failed(TooLarge); }
    var mac := ReadExactly(sock, 32);
    if !mac.Bytes? { return Failed(if mac.Eof? then Disconnected else Interrupted); }
    var body := ReadExactly(sock, length);
    if !body.Bytes? { return Failed(if body.Eof? then Disconnected else Interrupted); }
    f := Raw(mac.b, body.b);
  }

  /** Reading back a four-byte length. */
  lemma LengthHeader(b: seq<Byte>)
    requires |b| == 4
    ensures FromBE(b) < LEN_LIMIT
    ensures forall n: nat :: n < LEN_LIMIT && b == ToBE(n, 4) ==> FromBE(b) == n
  {
    hide FromBE, ToBE, Pow2;
    Pow2Values();
    FromBEBound(b);
    forall n: nat | n < LEN_LIMIT && b == ToBE(n, 4) ensures FromBE(b) == n { FromBEToBE(n, 4); }
  }

  lemma {:induction false} NonEmptyBound(plains: seq<seq<Byte>>)
    ensures NonEmpty(plains) <= |plains|
  {
    if plains != [] { NonEmptyBound(plains[..|plains| - 1]); }
  }

  lemma NonEmptySnoc(plains: seq<seq<Byte>>, p: seq<Byte>)
    ensures NonEmpty(plains + [p]) == NextCtr(NonEmpty(plains), p)
  {
    assert (plains + [p])[..|plains|] == plains;
  }

  lemma FrameParts(hmac: Mac, mkey: seq<Byte>, q: nat, ct: seq<Byte>)
    ensures FrameOf(hmac, mkey, q, ct) == ToBE(|ct|, 4) + hmac(mkey, ToBE(q, 8) + ct) + ct
  {
  }

  lemma CounterAfter(ctr: nat, data: seq<Byte>)
    ensures ctr <= NextCtr(ctr, data) <= ctr + 1 && (data == [] ==> NextCtr(ctr, data) == ctr)
  {
  }

  lemma SentOne(plains: seq<seq<Byte>>, p: seq<Byte>)
    ensures NonEmpty(plains + [p]) == NextCtr(NonEmpty(plains), p)
    ensures (plains + [p])[..|plains|] == plains
  {
    NonEmptySnoc(plains, p);
  }

  // ----- whole runs -----

  /** Ideal MAC: whatever the stream holds, a frame that verifies under one of the 2^64
      sequence numbers is the frame sealed under that number. */
  ghost predicate Unforged(stream: seq<Byte>, hmac: Mac, mkey: seq<Byte>, xof: Xof, key: seq<Byte>, plains: seq<seq<Byte>>)
    requires XofSized(xof)
  {
    forall q: nat, p: nat, ct: seq<Byte> :: q < CTR_LIMIT && AuthenticAt(stream, hmac, mkey, q, p, ct) ==>
      q < |plains| && ct == Sealed(xof, key, plains, q)
  }

  /** Both counters in step: decrypting the next sealed frame gives the next plaintext. */
  lemma NextPlaintext(xof: Xof, key: seq<Byte>, plains: seq<seq<Byte>>, n: nat)
    requires XofSized(xof) && n < |plains|
    ensures CryptBytes(xof, key, NonEmpty(plains[..n]), Sealed(xof, key, plains, n)) == plains[n]
  {
    CryptUndoesCrypt(xof, key, NonEmpty(plains[..n]), plains[n]);
  }

  /** Frame n of a stream of frames starts where the first n end. */
  lemma {:induction false} FrameInStream(xof: Xof, hmac: Mac, key: seq<Byte>, mkey: seq<Byte>, plains: seq<seq<Byte>>, n: nat, total: nat)
    requires XofSized(xof) && Mac32(hmac) && n < total <= |plains|
    ensures var stream := Frames(xof, hmac, key, mkey, plains, total);
            var p := |Frames(xof, hmac, key, mkey, plains, n)|;
            var ct := Sealed(xof, key, plains, n);
            && FrameAt(stream, p, hmac(mkey, ToBE(n, 8) + ct), ct)
            && |Frames(xof, hmac, key, mkey, plains, n + 1)| == p + 36 + |ct|
            && |Frames(xof, hmac, key, mkey, plains, n + 1)| <= |stream|
    decreases total
  {
    hide Sealed, ToBE, FrameAt, Frames, FrameOf;
    var ct := Sealed(xof, key, plains, n);
    var mac := hmac(mkey, ToBE(n, 8) + ct);
    var before := Frames(xof, hmac, key, mkey, plains, n);
    FramesStep(xof, hmac, key, mkey, plains, n);
    FrameParts(hmac, mkey, n, ct);
    if total > n + 1 {
      FrameInStream(xof, hmac, key, mkey, plains, n, total - 1);
      FramesStep(xof, hmac, key, mkey, plains, total - 1);
      FrameAtPrefix(Frames(xof, hmac, key, mkey, plains, total - 1),
                    FrameOf(hmac, mkey, total - 1, Sealed(xof, key, plains, total - 1)), |before|, mac, ct);
    } else {
      FrameAtEnd(before, mac, ct);
    }
  }

  lemma FramesStep(xof: Xof, hmac: Mac, key: seq<Byte>, mkey: seq<Byte>, plains: seq<seq<Byte>>, n: nat)
    requires XofSized(xof) && n < |plains|
    ensures Frames(xof, hmac, key, mkey, plains, n + 1)
            == Frames(xof, hmac, key, mkey, plains, n) + FrameOf(hmac, mkey, n, Sealed(xof, key, plains, n))
  {
    hide Sealed, FrameOf;
  }

  lemma FrameAtEnd(s: seq<Byte>, mac: seq<Byte>, ct: seq<Byte>)
    requires |mac| == 32
    ensures FrameAt(s + (ToBE(|ct|, 4) + mac + ct), |s|, mac, ct)
  {
    hide ToBE;
    ThreeParts(s, ToBE(|ct|, 4), mac, ct);
  }

  lemma ThreeParts(s: seq<Byte>, a: seq<Byte>, b: seq<Byte>, c: seq<Byte>)
    ensures var t := s + (a + b + c);
            var i := |s| + |a|;
            && t[|s|..i] == a && t[i..i + |b|] == b && t[i + |b|..i + |b| + |c|] == c
  {
  }

  lemma FrameAtPrefix(s: seq<Byte>, t: seq<Byte>, p: nat, mac: seq<Byte>, ct: seq<Byte>)
    requires FrameAt(s, p, mac, ct)
    ensures FrameAt(s + t, p, mac, ct)
  {
    hide ToBE;
    var u := s + t;
    assert u[p..p + 4] == s[p..p + 4] && u[p + 4..p + 36] == s[p + 4..p + 36];
    assert u[p + 36..p + 36 + |ct|] == s[p + 36..p + 36 + |ct|];
  }

  /** A stream that is the sender's frames and nothing else, each within the receiver's limit. */
  ghost predicate IntactStream(stream: seq<Byte>, hmac: Mac, mkey: seq<Byte>, xof: Xof, key: seq<Byte>, plains: seq<seq<Byte>>)
    requires XofSized(xof)
  {
    && stream == Frames(xof, hmac, key, mkey, plains, |plains|)
    && (forall i :: 0 <= i < |plains| ==> |plains[i]| <= MAX_FRAME)
    && |plains| <= CTR_LIMIT
  }

  /** The premises under which nothing but time keeps frames from the receiver. */
  ghost predicate Intact(ch: Channel, plains: seq<seq<Byte>>)
    requires XofSized(ch.dec.xof)
  {
    IntactStream(ch.sock.incoming, ch.hmac, ch.macRecv, ch.dec.xof, ch.dec.key, plains)
  }

  /** The stream position after n intact frames. */
  ghost function PosAfter(ch: Channel, plains: seq<seq<Byte>>, n: nat): (p: nat)
    requires XofSized(ch.dec.xof) && n <= |plains|
    ensures n == 0 ==> p == 0
  {
    |Frames(ch.dec.xof, ch.hmac, ch.dec.key, ch.macRecv, plains, n)|
  }

  /** What stands next in an intact stream. */
  lemma IntactNext(ch: Channel, plains: seq<seq<Byte>>, n: nat)
    requires XofSized(ch.dec.xof) && Mac32(ch.hmac) && Intact(ch, plains) && n < |plains|
    ensures var ct := Sealed(ch.dec.xof, ch.dec.key, plains, n);
            && |ct| <= MAX_FRAME && n < CTR_LIMIT
            && FrameAt(ch.sock.incoming, PosAfter(ch, plains, n), ch.hmac(ch.macRecv, ToBE(n, 8) + ct), ct)
            && PosAfter(ch, plains, n + 1) == PosAfter(ch, plains, n) + 36 + |ct|
  {
    hide Frames, FrameAt, ToBE, CryptBytes;
    FrameInStream(ch.dec.xof, ch.hmac, ch.dec.key, ch.macRecv, plains, n, |plains|);
  }

  /** One `recv` of a receiver that has so far got a prefix. */
  method ReceiveNext(ch: Channel, now: real, ghost plains: seq<seq<Byte>>) returns (r: Received)
    requires ch.Valid() && ch.received <= plains
    requires Unforged(ch.sock.incoming, ch.hmac, ch.macRecv, ch.dec.xof, ch.dec.key, plains)
    modifies ch`recvSeq, ch`received, ch.dec, ch.sock`pos, ch.sock`timeouts, ch.limiter
    ensures ch.Valid() && ch.received <= plains
    ensures ch.sock.timeouts == old(ch.sock.timeouts) + if r.Interrupted? then 1 else 0
    ensures ch.limiter.View() == Checked(old(ch.limiter.View()), now)
    ensures r.RateLimited? <==> !Passes(old(ch.limiter.View()), ch.limiter.max, now)
    ensures ch.received == if r.Plain? then old(ch.received) + [r.data] else old(ch.received)
    ensures Intact(ch, plains) && |old(ch.received)| < |plains|
            && old(ch.sock.pos) == PosAfter(ch, plains, |old(ch.received)|) ==>
              r.RateLimited? || r.Interrupted?
              || (r.Plain? && ch.sock.pos == PosAfter(ch, plains, |old(ch.received)| + 1))
  {
    hide CryptBytes, Frames, FrameAt, NonEmpty, ToBE, Checked, Passes, Intact, PosAfter, Sealed, Mac32, RateLimiter.View, Unforged, Delivers;
    ghost var n, p, before := |ch.received|, ch.sock.pos, ch.received;
    if Intact(ch, plains) && n < |plains| { IntactNext(ch, plains, n); }
    r := ch.Recv(now);
    if r.Plain? {
      GotNext(ch.sock.incoming, ch.hmac, ch.macRecv, ch.dec.xof, ch.dec.key, plains, before, p, ch.sock.pos, r.data);
    }
  }

  /** What is delivered after a prefix of the plaintexts is the next one. */
  lemma GotNext(stream: seq<Byte>, hmac: Mac, mkey: seq<Byte>, xof: Xof, key: seq<Byte>, plains: seq<seq<Byte>>,
                received: seq<seq<Byte>>, p: nat, end: nat, data: seq<Byte>)
    requires XofSized(xof) && Unforged(stream, hmac, mkey, xof, key, plains)
    requires received <= plains && |received| < CTR_LIMIT && Delivers(stream, hmac, mkey, xof, key, received, p, end, data)
    ensures |received| < |plains| && data == plains[|received|] && received + [data] <= plains
  {
    hide AuthenticAt, CryptBytes, NonEmpty, Sealed;
    var n := |received|;
    assert AuthenticAt(stream, hmac, mkey, n, p, stream[p + 36..end]);
    assert received == plains[..n];
    NextPlaintext(xof, key, plains, n);
    assert received + [data] == plains[..n + 1];
  }

  /** The plaintexts among some results of `recv`. */
  function Outs(results: seq<Received>): seq<seq<Byte>> {
    if results == [] then []
    else
      var last := results[|results| - 1];
      Outs(results[..|results| - 1]) + (if last.Plain? then [last.data] else [])
  }

  function LateCount(results: seq<Received>): nat {
    if results == [] then 0
    else LateCount(results[..|results| - 1]) + if results[|results| - 1].Interrupted? then 1 else 0
  }

  /** No call was limited or interrupted. */
  predicate Smooth(results: seq<Received>) {
    results == [] ||
      (Smooth(results[..|results| - 1]) && !results[|results| - 1].RateLimited? && !results[|results| - 1].Interrupted?)
  }

  lemma {:induction false} SmoothWhen(results: seq<Received>)
    requires LateCount(results) == 0 && forall i :: 0 <= i < |results| ==> !results[i].RateLimited?
    ensures Smooth(results)
  {
    if results != [] { SmoothWhen(results[..|results| - 1]); }
  }

  lemma OutsSnoc(results: seq<Received>, r: Received)
    ensures Smooth(results + [r]) <==> Smooth(results) && !r.RateLimited? && !r.Interrupted?
    ensures Outs(results + [r]) == Outs(results) + if r.Plain? then [r.data] else []
    ensures LateCount(results + [r]) == LateCount(results) + if r.Interrupted? then 1 else 0
  {
    assert (results + [r])[..|results|] == results;
  }

  /** Call `recv` once for every given time, whatever each call returns. What comes out is a
      prefix of what the sender sealed. A call is limited exactly when the limiter says so, and
      interrupted exactly when the socket timed out; and when the stream is intact and neither
      happens, the plaintexts are all there. */
  method ReceiveRun(ch: Channel, times: seq<real>, ghost plains: seq<seq<Byte>>) returns (results: seq<Received>)
    requires ch.Valid() && ch.received == [] && ch.sock.pos == 0
    requires Unforged(ch.sock.incoming, ch.hmac, ch.macRecv, ch.dec.xof, ch.dec.key, plains)
    modifies ch`recvSeq, ch`received, ch.dec, ch.sock`pos, ch.sock`timeouts, ch.limiter
    ensures ch.Valid() && |results| == |times| && ch.received == Outs(results)
    ensures Outs(results) <= plains
    ensures forall i :: 0 <= i < |times| ==> (results[i].RateLimited? <==> !PassedAt(old(ch.limiter.View()), ch.limiter.max, times, i))
    ensures ch.sock.timeouts == old(ch.sock.timeouts) + LateCount(results)
    ensures Intact(ch, plains) && |times| >= |plains| && ch.sock.timeouts == old(ch.sock.timeouts)
            && (forall i :: 0 <= i < |times| ==> PassedAt(old(ch.limiter.View()), ch.limiter.max, times, i)) ==>
              Outs(results) == plains
  {
    hide Frames, Unforged, CryptBytes, Intact, PosAfter, Checked, Passes, Outs, LateCount, NonEmpty, Smooth, RateLimit.After, PassedAt;
    results := [];
    ghost var w0 := ch.limiter.View();
    NothingYet(w0, times);
    for i := 0 to |times|
      invariant ch.Valid() && |results| == i && ch.received == Outs(results) && Outs(results) <= plains
      invariant ch.limiter.View() == RateLimit.After(w0, times, i)
      invariant forall k :: 0 <= k < i ==> (results[k].RateLimited? <==> !PassedAt(w0, ch.limiter.max, times, k))
      invariant ch.sock.timeouts == old(ch.sock.timeouts) + LateCount(results)
      invariant Intact(ch, plains) && Smooth(results) ==> |ch.received| == if i < |plains| then i else |plains|
      invariant Intact(ch, plains) && Smooth(results) && |ch.received| < |plains| ==> ch.sock.pos == PosAfter(ch, plains, |ch.received|)
    {
      var r := ReceiveNext(ch, times[i], plains);
      OutsSnoc(results, r);
      results := results + [r];
      AfterStep(w0, ch.limiter.max, times, i);
    }
    if LateCount(results) == 0 && forall k :: 0 <= k < |results| ==> !results[k].RateLimited? { SmoothWhen(results); }
  }

  lemma NothingYet(w0: Window, times: seq<real>)
    ensures Outs([]) == [] && LateCount([]) == 0 && Smooth([]) && RateLimit.After(w0, times, 0) == w0
  {
  }

  lemma AfterStep(w0: Window, max: nat, times: seq<real>, i: nat)
    requires i < |times|
    ensures RateLimit.After(w0, times, i + 1) == Checked(RateLimit.After(w0, times, i), times[i])
    ensures PassedAt(w0, max, times, i) <==> Passes(RateLimit.After(w0, times, i), max, times[i])
  {
  }

  /** The premises meet: any plaintext of fewer than 32 bytes, under a MAC that only the sealed
      frame satisfies, gives a stream that is intact and unforged. */
  lemma PremisesMeet(xof: Xof, key: seq<Byte>, mkey: seq<Byte>, plain: seq<Byte>) returns (hmac: Mac, stream: seq<Byte>)
    requires XofSized(xof) && |plain| < 32
    ensures Mac32(hmac) && IntactStream(stream, hmac, mkey, xof, key, [plain])
    ensures Unforged(stream, hmac, mkey, xof, key, [plain])
    ensures AuthenticAt(stream, hmac, mkey, 0, 0, Sealed(xof, key, [plain], 0))
  {
    hide ToBE, Sealed, AuthenticAt;
    var ct := Sealed(xof, key, [plain], 0);
    var m0 := ToBE(0, 8) + ct;
    hmac := (k: seq<Byte>, m: seq<Byte>) => if m == m0 then Ones(32) else Twos(32);
    stream := Frames(xof, hmac, key, mkey, [plain], 1);
    OneFrame(xof, hmac, key, mkey, plain);
    AuthenticFirst(stream, hmac, mkey, ct);
    forall q: nat, p: nat, c: seq<Byte> | q < CTR_LIMIT && AuthenticAt(stream, hmac, mkey, q, p, c)
      ensures q == 0 && c == ct
    {
      OnlySealed(stream, hmac, mkey, ct, q, p, c);
    }
  }

  function Ones(n: nat): (s: seq<Byte>)
    ensures |s| == n && forall i :: 0 <= i < n ==> s[i] == 1
  {
    seq(n, _ => 1)
  }

  function Twos(n: nat): (s: seq<Byte>)
    ensures |s| == n && forall i :: 0 <= i < n ==> s[i] == 2
  {
    seq(n, _ => 2)
  }

  lemma OneFrame(xof: Xof, hmac: Mac, key: seq<Byte>, mkey: seq<Byte>, plain: seq<Byte>)
    requires XofSized(xof)
    ensures Frames(xof, hmac, key, mkey, [plain], 1) == FrameOf(hmac, mkey, 0, Sealed(xof, key, [plain], 0))
  {
    hide Sealed, FrameOf;
    var one: nat := 1;
    assert Frames(xof, hmac, key, mkey, [plain], one - 1) == [];
  }

  lemma AuthenticFirst(stream: seq<Byte>, hmac: Mac, mkey: seq<Byte>, ct: seq<Byte>)
    requires Mac32(hmac) && stream == FrameOf(hmac, mkey, 0, ct)
    ensures AuthenticAt(stream, hmac, mkey, 0, 0, ct)
  {
    hide ToBE;
    ThreeParts([], ToBE(|ct|, 4), hmac(mkey, ToBE(0, 8) + ct), ct);
    assert stream == [] + (ToBE(|ct|, 4) + hmac(mkey, ToBE(0, 8) + ct) + ct);
  }

  lemma OnlySealed(stream: seq<Byte>, hmac: Mac, mkey: seq<Byte>, ct: seq<Byte>, q: nat, p: nat, c: seq<Byte>)
    requires |ct| < 32 && q < CTR_LIMIT && stream == FrameOf(hmac, mkey, 0, ct) && AuthenticAt(stream, hmac, mkey, q, p, c)
    requires hmac(mkey, ToBE(0, 8) + ct) == Ones(32)
    requires forall m :: m != ToBE(0, 8) + ct ==> hmac(mkey, m) == Twos(32)
    ensures q == 0 && c == ct
  {
    hide ToBE, Ones, Twos;
    var m := ToBE(q, 8) + c;
    ThreeParts([], ToBE(|ct|, 4), Ones(32), ct);
    assert stream == [] + (ToBE(|ct|, 4) + Ones(32) + ct);
    assert stream[p + 4..p + 36][0] == stream[p + 4];
    assert stream[p + 4] == stream[4..36][p] == 1;
    assert m == ToBE(0, 8) + ct;
    assert m[..8] == ToBE(q, 8) && m[..8] == ToBE(0, 8) && m[8..] == c && m[8..] == ct;
    Pow2Values();
    FromBEToBE(q, 8);
    FromBEToBE(0, 8);
  }

  /** Send every plaintext in turn; on success the wire holds exactly their frames. */
  method SendRun(ch: Channel, plains: seq<seq<Byte>>) returns (ok: bool)
    requires ch.Valid() && ch.sentPlain == [] && ch.sock.outgoing == []
    modifies ch`sendSeq, ch`sentPlain, ch.enc, ch.sock`outgoing
    ensures ok ==> ch.sentPlain == plains
    ensures ok ==> ch.sock.outgoing == Frames(ch.enc.xof, ch.hmac, ch.enc.key, ch.macSend, plains, |plains|)
  {
    for i := 0 to |plains|
      invariant ch.Valid() && ch.sentPlain == plains[..i]
      invariant ch.sock.outgoing == Frames(ch.enc.xof, ch.hmac, ch.enc.key, ch.macSend, plains, i)
    {
      var sent := ch.Send(plains[i]);
      if !sent { return false; }
      assert plains[..i] + [plains[i]] == plains[..i + 1];
      assert plains[..i + 1][..i] == plains[..i];
    }
    assert plains[..|plains|] == plains;
    ok := true;
  }
}
