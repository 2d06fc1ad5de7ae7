/** The directional AEAD channel of the mesh data plane: outgoing counters and the
    1024-bit sliding replay window. */
module MeshSession {
  import opened Bits
  import opened MeshKeys

  const WINDOW: nat := 1024
  const CTR_LIMIT: nat := 0x1_0000_0000_0000_0000   // counters travel in 8 bytes

  /** One payload handed to `send`: `id` identifies the call, the rest is its bytes. */
  datatype Plain = Plain(id: nat, mtype: nat, body: seq<nat>)

  /** A ChaCha20-Poly1305 ciphertext as ideal AEAD sees it; Garbage is any byte
      string that no holder of a session key produced. */
  datatype Cipher = Sealed(key: Key, nonce: nat, plain: Plain) | Garbage

  /** A datagram body: too short for its header, or header and ciphertext. */
  datatype Packet = Short | Packet(ctr: nat, body: Cipher)

  datatype Opened = Opened(plain: Plain) | TooShort | Unauthentic | Stale | Replayed

  // ----- the window -----

  datatype Window = Window(rxMax: int, rxBits: nat)

  const EMPTY_WINDOW := Window(-1, 0)

  datatype Verdict = Accept | TooOld | Seen

  function Judge(w: Window, ctr: nat): Verdict {
    if ctr > w.rxMax then Accept
    else if w.rxMax - ctr >= WINDOW then TooOld
    else if And(w.rxBits, Pow2(w.rxMax - ctr)) != 0 then Seen
    else Accept
  }

  /** The window after an authentic packet with counter ctr. */
  function Advance(w: Window, ctr: nat): Window {
    if Judge(w, ctr) != Accept then w
    else if ctr > w.rxMax then
      Window(ctr, And(Or(w.rxBits * Pow2(ctr - w.rxMax), 1), Pow2(WINDOW) - 1))
    else
      Window(w.rxMax, Or(w.rxBits, Pow2(w.rxMax - ctr)))
  }

  /** m is the largest element of s, or -1 when s is empty. */
  ghost predicate IsMax(s: set<nat>, m: int) {
    (m == -1 || m in s) && (forall c :: c in s ==> c <= m) && m >= -1
  }

  /** The bitmask stands for the set of accepted counters: bit i is set exactly
      when i < 1024 and counter rxMax - i was accepted. */
  ghost predicate Represents(w: Window, accepted: set<nat>) {
    && IsMax(accepted, w.rxMax)
    && w.rxBits < Pow2(WINDOW)
    && forall i: nat :: Bit(w.rxBits, i) <==> i < WINDOW && i <= w.rxMax && w.rxMax - i in accepted
  }

  lemma EmptyWindowRepresents()
    ensures Represents(EMPTY_WINDOW, {})
  {
    forall i: nat ensures !Bit(0, i) { BitZero(i); }
  }

  lemma JudgeRefines(w: Window, accepted: set<nat>, ctr: nat)
    requires Represents(w, accepted)
    ensures Judge(w, ctr) == Accept <==>
            ctr > w.rxMax || (ctr !in accepted && w.rxMax - ctr < WINDOW)
    ensures Judge(w, ctr) == Seen ==> ctr in accepted
    ensures Judge(w, ctr) == TooOld <==> w.rxMax - ctr >= WINDOW
  {
    hide Pow2;
    if ctr <= w.rxMax {
      AndPow2Test(w.rxBits, w.rxMax - ctr);
      assert Bit(w.rxBits, w.rxMax - ctr) <==>
             w.rxMax - ctr < WINDOW && w.rxMax - (w.rxMax - ctr) in accepted;
    }
  }

  /** The window accepts exactly the new counters less than 1024 behind every accepted one. */
  lemma JudgeExact(w: Window, accepted: set<nat>, ctr: nat)
    requires Represents(w, accepted)
    ensures Judge(w, ctr) == Accept <==>
            ctr !in accepted && forall c :: c in accepted ==> c - ctr < WINDOW
  {
    hide Judge;
    JudgeRefines(w, accepted, ctr);
  }

  lemma MaskBit(x: nat, i: nat)
    ensures And(x, Pow2(WINDOW) - 1) < Pow2(WINDOW)
    ensures Bit(And(x, Pow2(WINDOW) - 1), i) == (i < WINDOW && Bit(x, i))
  {
    hide Pow2;
    var mask := Pow2(WINDOW) - 1;
    AndCommutes(x, mask);
    AndBound(mask, x, WINDOW);
    BitAnd(x, mask, i);
    BitOnes(WINDOW, i);
  }

  lemma {:induction false} AndCommutes(x: nat, y: nat)
    ensures And(x, y) == And(y, x)
    decreases x + y
  {
    if !(x == 0 && y == 0) { AndCommutes(x / 2, y / 2); }
  }

  lemma BitOne(i: nat)
    ensures Bit(1, i) == (i == 0)
  {
    if i > 0 { BitZero(i - 1); }
  }

  /** Accepting a counter adds exactly it to the set the window stands for. */
  lemma AdvanceRefines(w: Window, accepted: set<nat>, ctr: nat)
    requires Represents(w, accepted) && Judge(w, ctr) == Accept
    ensures Represents(Advance(w, ctr), accepted + {ctr})
  {
    hide Pow2, Or, And, Bit;
    if ctr > w.rxMax {
      AdvanceAbove(w, accepted, ctr);
    } else {
      AdvanceWithin(w, accepted, ctr);
    }
  }

  lemma AdvanceAbove(w: Window, accepted: set<nat>, ctr: nat)
    requires Represents(w, accepted) && ctr > w.rxMax
    ensures Represents(Advance(w, ctr), accepted + {ctr})
  {
    hide Pow2, Or, And, Bit;
    var shift := ctr - w.rxMax;
    var moved := Or(w.rxBits * Pow2(shift), 1);
    var bits := And(moved, Pow2(WINDOW) - 1);
    MaskBit(moved, 0);
    forall i: nat
      ensures Bit(bits, i) <==> i < WINDOW && i <= ctr && ctr - i in accepted + {ctr}
    {
      MaskBit(moved, i);
      BitOr(w.rxBits * Pow2(shift), 1, i);
      BitShl(w.rxBits, shift, i);
      BitOne(i);
      if i >= shift {
        assert Bit(w.rxBits, i - shift) <==>
               i - shift < WINDOW && i - shift <= w.rxMax && w.rxMax - (i - shift) in accepted;
      }
    }
  }

  lemma AdvanceWithin(w: Window, accepted: set<nat>, ctr: nat)
    requires Represents(w, accepted) && Judge(w, ctr) == Accept && ctr <= w.rxMax
    ensures Represents(Advance(w, ctr), accepted + {ctr})
  {
    hide Pow2, Or, And, Bit;
    var offset := w.rxMax - ctr;
    Pow2Mono(offset, WINDOW);
    OrBound(w.rxBits, Pow2(offset), WINDOW);
    forall i: nat
      ensures Bit(Or(w.rxBits, Pow2(offset)), i) <==>
              i < WINDOW && i <= w.rxMax && w.rxMax - i in accepted + {ctr}
    {
      BitOr(w.rxBits, Pow2(offset), i);
      BitPow2(offset, i);
    }
  }

  // ----- whole runs of authentic packets -----

  function WindowAfter(ctrs: seq<nat>): Window {
    if ctrs == [] then EMPTY_WINDOW else Advance(WindowAfter(ctrs[..|ctrs| - 1]), ctrs[|ctrs| - 1])
  }

  predicate AcceptedAt(ctrs: seq<nat>, k: nat)
    requires k < |ctrs|
  {
    Judge(WindowAfter(ctrs[..k]), ctrs[k]) == Accept
  }

  ghost function AcceptedSet(ctrs: seq<nat>): set<nat> {
    set k | 0 <= k < |ctrs| && AcceptedAt(ctrs, k) :: ctrs[k]
  }

  /** The window bitmask refines the plain set of accepted counters, for every
      sequence of authentic packets. */
  lemma {:induction false} WindowRefinesSet(ctrs: seq<nat>)
    ensures Represents(WindowAfter(ctrs), AcceptedSet(ctrs))
  {
    hide Judge, Represents;
    if ctrs == [] {
      EmptyWindowRepresents();
      assert AcceptedSet(ctrs) == {};
    } else {
      var init, last := ctrs[..|ctrs| - 1], ctrs[|ctrs| - 1];
      WindowRefinesSet(init);
      forall k | 0 <= k < |init| ensures AcceptedAt(ctrs, k) == AcceptedAt(init, k) {
        assert ctrs[..k] == init[..k];
      }
      assert ctrs[..|init|] == init && WindowAfter(ctrs) == Advance(WindowAfter(init), last);
      if AcceptedAt(ctrs, |init|) {
        AdvanceRefines(WindowAfter(init), AcceptedSet(init), last);
        assert AcceptedSet(ctrs) == AcceptedSet(init) + {last} by {
          AcceptedSetSnoc(ctrs);
        }
      } else {
        AcceptedSetSnoc(ctrs);
        assert AcceptedSet(ctrs) == AcceptedSet(init);
      }
    }
  }

  lemma AcceptedSetSnoc(ctrs: seq<nat>)
    requires ctrs != []
    ensures var init := ctrs[..|ctrs| - 1];
            AcceptedSet(ctrs) == AcceptedSet(init)
              + (if AcceptedAt(ctrs, |init|) then {ctrs[|init|]} else {})
  {
    var init := ctrs[..|ctrs| - 1];
    forall k | 0 <= k < |init| ensures AcceptedAt(ctrs, k) == AcceptedAt(init, k) {
      assert ctrs[..k] == init[..k];
    }
    forall c ensures c in AcceptedSet(ctrs) <==>
                     c in AcceptedSet(init) || (AcceptedAt(ctrs, |init|) && c == ctrs[|init|])
    {
      AcceptedSnocElement(ctrs, c);
    }
  }

  lemma AcceptedSnocElement(ctrs: seq<nat>, c: nat)
    requires ctrs != []
    requires forall k :: 0 <= k < |ctrs| - 1 ==> AcceptedAt(ctrs, k) == AcceptedAt(ctrs[..|ctrs| - 1], k)
    ensures var init := ctrs[..|ctrs| - 1];
            c in AcceptedSet(ctrs) <==> c in AcceptedSet(init) || (AcceptedAt(ctrs, |init|) && c == ctrs[|init|])
  {
    hide Judge, WindowAfter;
    var init := ctrs[..|ctrs| - 1];
    if c in AcceptedSet(ctrs) {
      var k :| 0 <= k < |ctrs| && AcceptedAt(ctrs, k) && ctrs[k] == c;
      if k < |init| { assert AcceptedAt(init, k) && init[k] == c; }
    }
    if c in AcceptedSet(init) {
      var k :| 0 <= k < |init| && AcceptedAt(init, k) && init[k] == c;
      assert AcceptedAt(ctrs, k) && ctrs[k] == c;
    }
  }

  /** The k-th authentic packet is accepted exactly when its counter is above every
      counter accepted so far, or was not accepted and is less than 1024 behind the
      largest accepted one. */
  lemma AcceptanceExact(ctrs: seq<nat>, k: nat)
    requires k < |ctrs|
    ensures var acc := AcceptedSet(ctrs[..k]);
            AcceptedAt(ctrs, k) <==>
              || (forall c :: c in acc ==> c < ctrs[k])
              || (ctrs[k] !in acc && forall c :: c in acc ==> c < ctrs[k] + 1024)
  {
    WindowRefinesSet(ctrs[..k]);
    JudgeRefines(WindowAfter(ctrs[..k]), AcceptedSet(ctrs[..k]), ctrs[k]);
  }

  /** No counter is accepted twice. */
  lemma AcceptedAtMostOnce(ctrs: seq<nat>, j: nat, k: nat)
    requires j < k < |ctrs| && ctrs[j] == ctrs[k] && AcceptedAt(ctrs, j)
    ensures !AcceptedAt(ctrs, k)
  {
    var before := ctrs[..k];
    assert before[..j] == ctrs[..j];
    assert AcceptedAt(before, j) && before[j] in AcceptedSet(before);
    AcceptanceExact(ctrs, k);
  }

  // ----- the session object -----

  /** The value of a session: what the protocol model carries. */
  datatype Sess = Sess(keys: KeyPair, txCtr: nat, window: Window)

  function NewSess(keys: KeyPair): Sess { Sess(keys, 0, EMPTY_WINDOW) }

  /** The packet `encrypt` returns; none once the counter no longer packs into 8 bytes. */
  function SealNext(s: Sess, plain: Plain): Packet {
    if s.txCtr < CTR_LIMIT then Packet(s.txCtr, Sealed(s.keys.tx, s.txCtr, plain)) else Short
  }

  predicate Authentic(keys: KeyPair, pkt: Packet) {
    pkt.Packet? && pkt.body.Sealed? && pkt.body.key == keys.rx && pkt.body.nonce == pkt.ctr
  }

  function Open(s: Sess, pkt: Packet): Opened {
    if pkt.Short? then TooShort
    else if !Authentic(s.keys, pkt) then Unauthentic
    else match Judge(s.window, pkt.ctr)
      case Accept => Opened(pkt.body.plain)
      case TooOld => Stale
      case Seen => Replayed
  }

  function AfterOpen(s: Sess, pkt: Packet): Sess {
    if Authentic(s.keys, pkt) then s.(window := Advance(s.window, pkt.ctr)) else s
  }

  class Session {
    const keys: KeyPair
    var txCtr: nat
    var rxMax: int
    var rxBits: nat
    ghost var accepted: set<nat>   // every counter decrypt has accepted

    ghost predicate Valid()
      reads this
    {
      Represents(Window(rxMax, rxBits), accepted)
    }

    function View(): Sess
      reads this
    {
      Sess(keys, txCtr, Window(rxMax, rxBits))
    }

    constructor (txKey: Key, rxKey: Key)
      ensures Valid() && accepted == {} && View() == NewSess(KeyPair(txKey, rxKey))
    {
      keys := KeyPair(txKey, rxKey);
      txCtr, rxMax, rxBits := 0, -1, 0;
      accepted := {};
      new;
      EmptyWindowRepresents();
    }

    method Encrypt(plain: Plain) returns (pkt: Packet)
      requires Valid()
      modifies this`txCtr
      ensures Valid() && accepted == old(accepted)
      ensures pkt == SealNext(old(View()), plain)
      ensures View() == old(View()).(txCtr := old(txCtr) + 1)
    {
      var ctr := txCtr;
      txCtr := txCtr + 1;
      if ctr >= CTR_LIMIT { return Short; }
      pkt := Packet(ctr, Sealed(keys.tx, ctr, plain));
    }

    method Decrypt(pkt: Packet) returns (r: Opened)
      requires Valid()
      modifies this`rxMax, this`rxBits, this`accepted
      ensures Valid()
      ensures r == Open(old(View()), pkt) && View() == AfterOpen(old(View()), pkt)
      ensures r.Opened? ==> pkt.ctr !in old(accepted) && accepted == old(accepted) + {pkt.ctr}
      ensures !r.Opened? ==> accepted == old(accepted)
    {
      hide Pow2, Or, And;
      if pkt.Short? { return TooShort; }
      if !Authentic(keys, pkt) { return Unauthentic; }
      var ctr := pkt.ctr;
      ghost var w := Window(rxMax, rxBits);
      JudgeRefines(w, accepted, ctr);
      if Judge(w, ctr) == Accept { AdvanceRefines(w, accepted, ctr); }
      if ctr > rxMax {
        var shift := ctr - rxMax;
        rxBits := And(Or(rxBits * Pow2(shift), 1), Pow2(WINDOW) - 1);
        rxMax := ctr;
      } else {
        var offset := rxMax - ctr;
        if offset >= WINDOW { return Stale; }
        var bit := Pow2(offset);
        if And(rxBits, bit) != 0 { return Replayed; }
        rxBits := Or(rxBits, bit);
      }
      accepted := accepted + {ctr};
      r := Opened(pkt.body.plain);
    }
  }
}
