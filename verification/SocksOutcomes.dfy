/** How streams of the SOCKS multiplexer begin and end: an app is told of success only when the
    gateway holds its stream, of failure with the gateway's own code, and a stream that ends on
    one side is closed on the other. */
module SocksOutcomes {
  import opened Words
  import opened Wrappers
  import opened SocksMux

  predicate IsCode(rep: Byte) { rep == 1 || rep == 2 || rep == 4 || rep == 5 }

  function TakenUp(s: State): seq<Frame>
    requires s.up.taken <= |s.up.frames|
  {
    s.up.frames[..s.up.taken]
  }

  function TakenDown(s: State): seq<Frame>
    requires s.down.taken <= |s.down.frames|
  {
    s.down.frames[..s.down.taken]
  }

  /** What the invariant of the multiplexer says about stream sid. */
  ghost predicate Known(s: State, sid: Sid) {
    && s.up.taken <= |s.up.frames| && s.down.taken <= |s.down.frames|
    && (Has(s, false, sid) ==> Has(s, true, sid) && !Str(s, true, sid).pc.Opening?)
    && (sid in s.client.table ==> Has(s, true, sid)) && (sid in s.gateway.table ==> Ready(s, false, sid))
    && s.next !in s.client.streams && s.next !in s.gateway.streams
    && (Ok(sid) in s.down.frames ==> Ready(s, false, sid))
    && (forall d :: Data(sid, d) in s.down.frames || Data(sid, d) in s.up.frames ==> Ready(s, false, sid))
    && (Open(sid) in s.up.frames[s.up.taken..] ==> !Has(s, false, sid) && Open(sid) !in TakenUp(s))
    && (Has(s, true, sid) ==>
          var st := Str(s, true, sid);
          && (st.ready || st.pc.Greeted? || (st.connected && st.err.None?) ==> Ready(s, false, sid))
          && (st.pc.Opening? || st.pc.Waiting? ==> st.reply == [] && !st.ready)
          && (st.pc.Pumping? || st.pc.Holding? ==> st.ready) && !st.pc.Registered?
          && (st.ready || st.pc.Greeted? ==> st.reply == REPLY_OK))
    && (Has(s, false, sid) ==>
          var st := Str(s, false, sid);
          (st.pc.Dialing? ==> !st.ready) && (st.pc.Pumping? || st.pc.Holding? || st.pc.Registered? ==> st.ready))
  }

  lemma InvKnown(s: State, sid: Sid)
    requires Inv(s)
    ensures Known(s, sid)
  {
    hide FlowOk, DataOf, ReplyFail;
    NextIsNew(s);
    if Open(sid) in s.up.frames[s.up.taken..] { OpensUnique(s, sid); }
    if Ok(sid) in s.down.frames { FrameDown(s, Ok(sid)); }
    forall d | Data(sid, d) in s.down.frames || Data(sid, d) in s.up.frames ensures Ready(s, false, sid) {
      if Data(sid, d) in s.down.frames { FrameDown(s, Data(sid, d)); } else { FrameUp(s, Data(sid, d)); assert ClientOk(s, sid); }
    }
    if Has(s, true, sid) { assert ClientOk(s, sid); }
    if Has(s, false, sid) { assert GatewayOk(s.gateway.streams[sid]); }
  }

  lemma FrameDown(s: State, f: Frame)
    requires FramesOk(s) && f in s.down.frames
    ensures DownOk(s, f)
  {
  }

  lemma FrameUp(s: State, f: Frame)
    requires FramesOk(s) && f in s.up.frames
    ensures UpOk(s, f)
  {
  }

  lemma OpensUnique(s: State, sid: Sid)
    requires OpensOk(s) && s.up.taken <= |s.up.frames| && Open(sid) in s.up.frames[s.up.taken..]
    ensures !Has(s, false, sid) && Open(sid) !in TakenUp(s)
  {
  }

  // ----- what the app is told -----

  /** A reply is written to one app at most once, in part or whole: that it took too long, or
      what the gateway's answer says. */
  ghost predicate Told(taken: seq<Frame>, sid: Sid, reply: Chars, late: bool) {
    || reply == []
    || (late && reply <= ReplyFail(4))
    || (!late && exists rep :: Err(sid, rep) in taken && reply <= ReplyFail(rep))
    || (!late && Ok(sid) in taken && reply <= REPLY_OK)
  }

  ghost predicate ClientTold(taken: seq<Frame>, sid: Sid, st: Stream) {
    && (st.err.Some? ==> Err(sid, st.err.value) in taken)
    && (st.connected && st.err.None? ==> Ok(sid) in taken)
    && (st.pc.Opening? || st.pc.Waiting? ==> !st.late)
    && Told(taken, sid, st.reply, st.late)
  }

  /** An ERR carries one of the gateway's codes, answers an OPEN, and its stream never is. */
  ghost predicate ErrOk(s: State, sid: Sid, rep: Byte)
    requires s.up.taken <= |s.up.frames|
  {
    && IsCode(rep) && Open(sid) in TakenUp(s)
    && (Has(s, false, sid) ==> Str(s, false, sid).pc.Finished? && !Str(s, false, sid).ready)
  }

  predicate ErrSaid(s: State, sid: Sid, rep: Byte) {
    Err(sid, rep) in s.down.frames || s.gateway.reader == Say(Err(sid, rep))
  }

  ghost predicate Answers(s: State, sid: Sid)
    requires s.up.taken <= |s.up.frames| && s.down.taken <= |s.down.frames|
  {
    && (forall rep :: ErrSaid(s, sid, rep) ==> ErrOk(s, sid, rep))
    && (Has(s, false, sid) ==>
          && Open(sid) in TakenUp(s)
          && (Str(s, false, sid).pc.Refusing? ==> IsCode(Str(s, false, sid).pc.rep) && !Str(s, false, sid).ready))
    && (Has(s, true, sid) ==> ClientTold(TakenDown(s), sid, Str(s, true, sid)))
  }

  /** Nothing of what Answers looks at has changed for the worse. */
  ghost predicate SameAnswers(s: State, t: State, sid: Sid)
    requires s.up.taken <= |s.up.frames| && s.down.taken <= |s.down.frames|
  {
    && t.up.taken <= |t.up.frames| && t.down.taken <= |t.down.frames|
    && TakenUp(s) <= TakenUp(t) && TakenDown(s) <= TakenDown(t)
    && (forall rep :: ErrSaid(t, sid, rep) ==> ErrSaid(s, sid, rep))
    && (Has(t, false, sid) <==> Has(s, false, sid)) && (Has(t, true, sid) <==> Has(s, true, sid))
    && (Has(s, false, sid) ==>
          && Str(t, false, sid).ready == Str(s, false, sid).ready
          && (Str(t, false, sid).pc.Refusing? ==> Str(t, false, sid).pc == Str(s, false, sid).pc)
          && (Str(s, false, sid).pc.Finished? ==> Str(t, false, sid).pc.Finished?))
    && (Has(s, true, sid) ==>
          var st, st' := Str(s, true, sid), Str(t, true, sid);
          && st'.err == st.err && st'.connected == st.connected && st'.late == st.late && st'.reply == st.reply
          && (st'.pc.Opening? || st'.pc.Waiting? ==> st.pc.Opening? || st.pc.Waiting?))
  }

  lemma PrefixHolds(a: seq<Frame>, b: seq<Frame>)
    requires a <= b
    ensures forall f :: f in a ==> f in b
  {
  }

  lemma SameAnswersKeep(s: State, t: State, sid: Sid)
    requires s.up.taken <= |s.up.frames| && s.down.taken <= |s.down.frames|
    requires Answers(s, sid) && SameAnswers(s, t, sid)
    ensures Answers(t, sid)
  {
    hide ReplyFail, ErrSaid;
    PrefixHolds(TakenUp(s), TakenUp(t));
    PrefixHolds(TakenDown(s), TakenDown(t));
    forall rep | ErrSaid(t, sid, rep) ensures ErrOk(t, sid, rep) { assert ErrOk(s, sid, rep); }
  }

  lemma PutTaken(p: Pipe, f: Frame)
    requires p.taken <= |p.frames|
    ensures Put(p, f).taken == p.taken && p.frames <= Put(p, f).frames && Put(p, f).frames[..p.taken] == p.frames[..p.taken]
    ensures forall g :: g in Put(p, f).frames ==> g in p.frames || g == f
  {
  }

  /** Steps that answer nothing. */
  lemma PumpAnswers(s: State, a: Step, sid: Sid)
    requires Known(s, sid) && Answers(s, sid) && Enabled(s, a)
    requires a.SendOpen? || a.SetReady? || a.SayOk? || a.PumpRead? || a.PumpSend? || a.PumpEnd?
    ensures Answers(Next(s, a), sid)
  {
    hide Answers;
    SameAnswersKeep(s, Next(s, a), sid);
  }

  lemma RemoveAnswers(s: State, a: Step, sid: Sid)
    requires Known(s, sid) && Answers(s, sid) && Enabled(s, a)
    requires a.Remove?
    ensures Answers(Next(s, a), sid)
  {
    hide Answers;
    SameAnswersKeep(s, Next(s, a), sid);
  }

  lemma HaltAnswers(s: State, a: Step, sid: Sid)
    requires Known(s, sid) && Answers(s, sid) && Enabled(s, a)
    requires a.SayOther? || a.Break? || a.Stop? || a.SayClose? || a.UdpAlloc?
    ensures Answers(Next(s, a), sid)
  {
    hide Answers;
    SameAnswersKeep(s, Next(s, a), sid);
  }

  lemma ReaderAnswers(s: State, a: Step, sid: Sid)
    requires Known(s, sid) && Answers(s, sid) && Enabled(s, a)
    requires a.Delivered? || a.NeverReady? || a.DropStream? || a.ReaderSays?
    ensures Answers(Next(s, a), sid)
  {
    hide Answers;
    SameAnswersKeep(s, Next(s, a), sid);
  }

  lemma DialAnswers(s: State, a: Step, sid: Sid)
    requires Known(s, sid) && Answers(s, sid) && Enabled(s, a)
    requires a.DialFailed? || a.Dialed? || a.SayErr?
    ensures Answers(Next(s, a), sid)
  {
    hide ClientTold;
    var t := Next(s, a);
    assert TakenUp(t) == TakenUp(s) && TakenDown(t) == TakenDown(s);
    forall rep | ErrSaid(t, sid, rep) ensures ErrOk(t, sid, rep) {
      if ErrSaid(s, sid, rep) { assert ErrOk(s, sid, rep); }
    }
  }

  lemma ReplyAnswers(s: State, a: Step, sid: Sid)
    requires Known(s, sid) && Answers(s, sid) && Enabled(s, a)
    requires a.Connect? || a.Timeout? || a.Answer?
    ensures Answers(Next(s, a), sid)
  {
    hide ReplyFail;
    var t := Next(s, a);
    assert TakenUp(t) == TakenUp(s) && TakenDown(t) == TakenDown(s);
    forall rep | ErrSaid(t, sid, rep) ensures ErrOk(t, sid, rep) { assert ErrSaid(s, sid, rep) && ErrOk(s, sid, rep); }
    ReplyLength(4);
    if a.Answer? && a.sid == sid && Str(s, true, sid).err.Some? { ReplyLength(Str(s, true, sid).err.value); }
  }

  lemma TakenMore(p: Pipe)
    requires p.taken < |p.frames|
    ensures p.frames[..p.taken + 1] == p.frames[..p.taken] + [p.frames[p.taken]]
    ensures p.frames[p.taken] in p.frames && p.frames[p.taken] in p.frames[p.taken..]
  {
    assert p.frames[p.taken..][0] == p.frames[p.taken];
  }

  lemma ClientTakes(s: State, good: bool, sid: Sid)
    requires Known(s, sid) && Answers(s, sid) && Enabled(s, Take(true, good))
    ensures Answers(Next(s, Take(true, good)), sid)
  {
    hide ErrOk, ClientTold, ClientFrame, ErrSaid;
    var t := Next(s, Take(true, good));
    TakenMore(s.down);
    var a := s.(down := s.down.(taken := s.down.taken + 1));
    ClientFrameTold(s, a, s.down.frames[s.down.taken], sid);
    assert TakenDown(t) == TakenDown(s) + [s.down.frames[s.down.taken]];
    TakesErr(s, t, sid);
  }

  /** A frame changes no more than the answer of its stream, and that as it says. */
  lemma ClientFrameTold(s: State, a: State, f: Frame, sid: Sid)
    requires Has(s, true, sid) ==> s.down.taken <= |s.down.frames| && ClientTold(TakenDown(s), sid, Str(s, true, sid))
    requires s.down.taken < |s.down.frames| && s.down.frames[..s.down.taken + 1] == s.down.frames[..s.down.taken] + [f]
    requires a == s.(down := s.down.(taken := s.down.taken + 1))
    ensures var t := ClientFrame(a, f);
            && t.up == s.up && t.gateway == s.gateway && t.down == a.down
            && (Has(t, true, sid) <==> Has(s, true, sid))
            && (Has(t, true, sid) ==> ClientTold(TakenDown(a), sid, Str(t, true, sid)))
  {
    hide Told;
    if Has(s, true, sid) { TakesTold(TakenDown(s), TakenDown(a), sid, Str(s, true, sid).reply, Str(s, true, sid).late); }
  }

  lemma TakesErr(s: State, t: State, sid: Sid)
    requires s.up.taken <= |s.up.frames| && s.down.taken <= |s.down.frames| && Answers(s, sid)
    requires t.up == s.up && t.gateway == s.gateway && t.down.frames == s.down.frames
    ensures forall rep :: ErrSaid(t, sid, rep) ==> ErrOk(t, sid, rep)
  {
    forall rep | ErrSaid(t, sid, rep) ensures ErrOk(t, sid, rep) { assert ErrSaid(s, sid, rep) && ErrOk(s, sid, rep); }
  }

  lemma TakesTold(a: seq<Frame>, b: seq<Frame>, sid: Sid, reply: Chars, late: bool)
    requires Told(a, sid, reply, late) && a <= b
    ensures Told(b, sid, reply, late)
  {
    hide ReplyFail;
    PrefixHolds(a, b);
  }

  lemma GatewayTakes(s: State, good: bool, sid: Sid)
    requires Known(s, sid) && Answers(s, sid) && Enabled(s, Take(false, good))
    ensures Answers(Next(s, Take(false, good)), sid)
  {
    hide ReplyFail, ClientTold;
    var t := Next(s, Take(false, good));
    TakenMore(s.up);
    assert TakenUp(t) == TakenUp(s) + [s.up.frames[s.up.taken]] && TakenDown(t) == TakenDown(s);
    forall rep | ErrSaid(t, sid, rep) ensures ErrOk(t, sid, rep) { if ErrSaid(s, sid, rep) { assert ErrOk(s, sid, rep); } }
  }

  lemma NextAnswers(s: State, a: Step, sid: Sid)
    requires Known(s, sid) && Answers(s, sid) && Enabled(s, a)
    ensures var t := Next(s, a);
            t.up.taken <= |t.up.frames| && t.down.taken <= |t.down.frames| ==> Answers(t, sid)
  {
    hide Answers, Known, Enabled;
    match a {
      case Take(cl, good) => if cl { ClientTakes(s, good, sid); } else { GatewayTakes(s, good, sid); }
      case Connect => ReplyAnswers(s, a, sid);
      case Timeout(_, _) => ReplyAnswers(s, a, sid);
      case Answer(_, _) => ReplyAnswers(s, a, sid);
      case DialFailed(_, _) => DialAnswers(s, a, sid);
      case Dialed(_) => DialAnswers(s, a, sid);
      case SayErr(_) => DialAnswers(s, a, sid);
      case Delivered(_, _) => ReaderAnswers(s, a, sid);
      case NeverReady => ReaderAnswers(s, a, sid);
      case DropStream(_) => ReaderAnswers(s, a, sid);
      case ReaderSays(_) => ReaderAnswers(s, a, sid);
      case SayClose(_, _) => HaltAnswers(s, a, sid);
      case Remove(_, _) => RemoveAnswers(s, a, sid);
      case SayOther(_) => HaltAnswers(s, a, sid);
      case Break(_) => HaltAnswers(s, a, sid);
      case Stop(_) => HaltAnswers(s, a, sid);
      case UdpAlloc => HaltAnswers(s, a, sid);
      case _ => PumpAnswers(s, a, sid);
    }
  }

  lemma {:induction false} RunAnswers(steps: seq<Step>, sid: Sid)
    requires Run(steps).allocs < SID_LIMIT
    ensures Inv(Run(steps)) && Known(Run(steps), sid) && Answers(Run(steps), sid)
  {
    hide Inv, Enabled, Next, Known, Answers;
    RunKeepsInv(steps);
    InvKnown(Run(steps), sid);
    if steps == [] {
      StartAnswers(sid);
    } else {
      var n := |steps| - 1;
      var s := Run(steps[..n]);
      if Enabled(s, steps[n]) { AllocsGrow(s, steps[n]); }
      RunAnswers(steps[..n], sid);
      if Enabled(s, steps[n]) {
        NextAnswers(s, steps[n], sid);
        KnownBounds(Run(steps), sid);
      }
    }
  }

  lemma KnownBounds(s: State, sid: Sid)
    requires Known(s, sid)
    ensures s.up.taken <= |s.up.frames| && s.down.taken <= |s.down.frames|
  {
  }

  lemma StartAnswers(sid: Sid)
    ensures Answers(START, sid)
  {
  }

  /** What a reply begins with tells what became of the stream: after 05 00 the gateway has
      registered it and said so; after 05 and a code, either the answer took too long and the
      code is 4, or the gateway never registers it and has said this very code. */
  lemma ReplyTellsOutcome(steps: seq<Step>, sid: Sid)
    requires Run(steps).allocs < SID_LIMIT && Has(Run(steps), true, sid)
    requires |Str(Run(steps), true, sid).reply| >= 2
    ensures var s := Run(steps);
            var st := Str(s, true, sid);
            && s.down.taken <= |s.down.frames| && st.reply[0] == 5
            && if st.reply[1] == 0 then
                 !st.late && Ok(sid) in TakenDown(s) && Ready(s, false, sid) && st.reply <= [5, 0, 0, 1, 0, 0, 0, 0, 0, 0]
               else if st.late then st.reply <= [5, 4, 0, 1, 0, 0, 0, 0, 0, 0]
               else
                 && st.reply <= [5, st.reply[1], 0, 1, 0, 0, 0, 0, 0, 0] && IsCode(st.reply[1])
                 && Err(sid, st.reply[1]) in TakenDown(s) && !Ready(s, false, sid)
  {
    hide Run, Inv;
    RunAnswers(steps, sid);
    var s := Run(steps);
    PrefixHolds(TakenDown(s), s.down.frames);
    var reply := Str(s, true, sid).reply;
    SecondByte(reply);
    if rep :| Err(sid, rep) in TakenDown(s) && reply <= ReplyFail(rep) {
      assert ErrSaid(s, sid, rep) && ErrOk(s, sid, rep);
    }
  }

  lemma SecondByte(reply: Chars)
    requires |reply| >= 2
    ensures forall rep :: reply <= ReplyFail(rep) ==> reply[0] == 5 && reply[1] == rep
    ensures reply <= REPLY_OK ==> reply[0] == 5 && reply[1] == 0
  {
  }

  /** What the app of stream sid has been written after method negotiation. */
  function AppSees(s: State, sid: Sid): Chars
    requires Has(s, true, sid)
  {
    Str(s, true, sid).reply + Str(s, true, sid).out
  }

  /** The app sees (the beginning of) one of three things: that its stream took too long; a
      refusal with the code the gateway sent for this stream, which it never registers; or, for
      a stream that the gateway has registered and confirmed, the success reply and then what
      the gateway read for that very stream. */
  ghost predicate SeesItsOwn(s: State, sid: Sid)
    requires Has(s, true, sid) && s.down.taken <= |s.down.frames|
  {
    var sees, late := AppSees(s, sid), Str(s, true, sid).late;
    || sees == []
    || (late && sees <= ReplyFail(4))
    || (!late && exists rep: Byte :: IsCode(rep) && Err(sid, rep) in TakenDown(s) && !Ready(s, false, sid) && sees <= ReplyFail(rep))
    || (!late && Ok(sid) in TakenDown(s) && Ready(s, false, sid)
        && (sees <= REPLY_OK || exists n: nat :: n <= |Str(s, false, sid).read| && sees == REPLY_OK + Str(s, false, sid).read[..n]))
  }

  lemma AppSeesItsStream(steps: seq<Step>, sid: Sid)
    requires Run(steps).allocs < SID_LIMIT && Has(Run(steps), true, sid)
    ensures Run(steps).down.taken <= |Run(steps).down.frames| && SeesItsOwn(Run(steps), sid)
  {
    hide Run, Inv, SeesItsOwn, Answers;
    RunAnswers(steps, sid);
    if Str(Run(steps), true, sid).ready { ReadySees(Run(steps), sid); } else { WaitingSees(Run(steps), sid); }
  }

  lemma ReadySees(s: State, sid: Sid)
    requires Inv(s) && Known(s, sid) && Answers(s, sid) && Has(s, true, sid) && Str(s, true, sid).ready
    ensures SeesItsOwn(s, sid)
  {
    hide Inv, Answers, Told, ReplyFail;
    OutcomeKnown(s, sid);
    OutIsSent(s, true, sid);
    var out := Str(s, true, sid).out;
    var n := |out|;
    assert out == Str(s, false, sid).read[..n];
  }

  lemma WaitingSees(s: State, sid: Sid)
    requires Inv(s) && Known(s, sid) && Answers(s, sid) && Has(s, true, sid) && !Str(s, true, sid).ready
    ensures SeesItsOwn(s, sid)
  {
    hide Inv, ReplyFail;
    OutcomeKnown(s, sid);
    var st := Str(s, true, sid);
    assert st.reply + [] == st.reply;
    if rep :| !st.late && Err(sid, rep) in TakenDown(s) && st.reply <= ReplyFail(rep) { assert ErrSaid(s, sid, rep) && ErrOk(s, sid, rep); }
  }

  lemma OutcomeKnown(s: State, sid: Sid)
    requires Inv(s) && Known(s, sid) && Answers(s, sid) && Has(s, true, sid)
    ensures var st := Str(s, true, sid);
            && (st.ready ==> st.reply == REPLY_OK && Ready(s, false, sid) && Ok(sid) in TakenDown(s) && !st.late)
            && (!st.ready ==> st.out == [])
            && (forall f :: f in TakenDown(s) ==> f in s.down.frames) && (Ok(sid) in s.down.frames ==> Ready(s, false, sid))
  {
    hide FlowOk, FramesOk, OpensOk, IdsOk;
    PrefixHolds(TakenDown(s), s.down.frames);
    var st := Str(s, true, sid);
    assert ClientOk(s, sid);
    ErrsMean(s, sid);
    if st.ready { FailsDiffer(st.reply); }
  }

  lemma ErrsMean(s: State, sid: Sid)
    requires Known(s, sid) && Answers(s, sid)
    ensures forall rep :: Err(sid, rep) in TakenDown(s) ==> !Ready(s, false, sid)
  {
    PrefixHolds(TakenDown(s), s.down.frames);
    forall rep | Err(sid, rep) in TakenDown(s) ensures !Ready(s, false, sid) { assert ErrSaid(s, sid, rep) && ErrOk(s, sid, rep); }
  }

  lemma FailsDiffer(reply: Chars)
    requires reply == REPLY_OK
    ensures reply != [] && !(reply <= ReplyFail(4))
  {
    assert reply[1] == 0 && ReplyFail(4)[1] == 4;
  }

  /** The step that accounts for a refusal with this code. Code 1 is also for an address that does
      not decode and for a gateway that is full or has stopped. */
  ghost predicate Accounted(steps: seq<Step>, sid: Sid, rep: Byte) {
    || rep == 1
    || (rep == 2 && DialFailed(sid, Denied) in steps)
    || (rep == 4 && DialFailed(sid, NoSuchHost) in steps)
    || (rep == 5 && DialFailed(sid, ConnectionRefused) in steps)
  }

  predicate OfReader(a: Step) {
    a.Take? || a.Delivered? || a.NeverReady? || a.DropStream? || a.ReaderSays? || a.SayOther? || a.Break? || a.Stop?
  }

  ghost predicate Refuses(s: State, sid: Sid, rep: Byte) {
    ErrSaid(s, sid, rep) || (Has(s, false, sid) && Str(s, false, sid).pc == Refusing(rep))
  }

  /** The gateway's code tells why there is no stream. */
  lemma {:induction false} CodeTellsWhy(steps: seq<Step>, sid: Sid, rep: Byte)
    requires Refuses(Run(steps), sid, rep)
    ensures Accounted(steps, sid, rep)
  {
    hide Enabled, Next, Refuses;
    if steps == [] {
      NoneRefused(sid, rep);
    } else {
      var n := |steps| - 1;
      var s := Run(steps[..n]);
      if Refuses(s, sid, rep) {
        CodeTellsWhy(steps[..n], sid, rep);
      } else {
        RefusalStep(s, steps[n], sid, rep);
      }
    }
  }

  lemma NoneRefused(sid: Sid, rep: Byte)
    ensures !Refuses(START, sid, rep)
  {
  }

  lemma RefusalStep(s: State, a: Step, sid: Sid, rep: Byte)
    requires Enabled(s, a) && Refuses(Next(s, a), sid, rep) && !Refuses(s, sid, rep)
    ensures Accounted([a], sid, rep)
  {
    hide Enabled, Next, Refuses;
    if OfReader(a) {
      ReaderRefuses(s, a, sid, rep);
    } else {
      HandlerRefuses(s, a, sid, rep);
    }
  }

  lemma ReaderRefuses(s: State, a: Step, sid: Sid, rep: Byte)
    requires Enabled(s, a) && Refuses(Next(s, a), sid, rep) && !Refuses(s, sid, rep)
    requires OfReader(a)
    ensures rep == 1
  {
  }

  lemma HandlerRefuses(s: State, a: Step, sid: Sid, rep: Byte)
    requires Enabled(s, a) && Refuses(Next(s, a), sid, rep) && !Refuses(s, sid, rep)
    requires !OfReader(a)
    ensures Accounted([a], sid, rep)
  {
    hide ReplyFail;
  }

  // ----- how streams end -----

  ghost predicate AboutClient(r: Reader, sid: Sid) { (r.Deliver? && r.sid == sid) || r == Drop(sid) || r == Say(Shut(sid)) }

  /** CLOSE is said only of streams that were opened. */
  ghost predicate ShutKnown(s: State, sid: Sid) {
    && (Shut(sid) in s.up.frames || AboutClient(s.client.reader, sid) ==> Ready(s, false, sid))
    && (Has(s, true, sid) && (Str(s, true, sid).pc.GreetFailed? || Str(s, true, sid).pc.Closing? || Str(s, true, sid).pc.Ending?) ==> Ready(s, false, sid))
    && (Shut(sid) in s.down.frames || AboutClient(s.gateway.reader, sid) ==> Has(s, true, sid))
  }

  /** A CLOSE that was taken has taken its stream out. */
  ghost predicate Obeyed(s: State, sid: Sid)
    requires s.up.taken <= |s.up.frames| && s.down.taken <= |s.down.frames|
  {
    (Shut(sid) in TakenUp(s) ==> sid !in s.gateway.table) && (Shut(sid) in TakenDown(s) ==> sid !in s.client.table)
  }

  /** A handler that has finished leaves nothing in the table, and what is out of it is closed. */
  ghost predicate Gone(s: State, cl: bool, sid: Sid) {
    Has(s, cl, sid) ==>
      && (Str(s, cl, sid).pc.Finished? || Str(s, cl, sid).pc.Closing? ==> sid !in Of(s, cl).table)
      && (sid !in Of(s, cl).table && (cl || Str(s, cl, sid).ready) ==> !Str(s, cl, sid).open)
  }

  /** A client's handler that is done has said CLOSE, or its direction has stopped, or it waited
      too long or was told that there is no stream. */
  ghost predicate ClientParted(s: State, sid: Sid)
    requires s.down.taken <= |s.down.frames|
  {
    Has(s, true, sid) && (Str(s, true, sid).pc.Removing? || Str(s, true, sid).pc.Finished?) ==>
      Str(s, true, sid).late || Shut(sid) in s.up.frames || !s.up.open || exists rep :: Err(sid, rep) in TakenDown(s)
  }

  /** A gateway's handler that is done with a stream has said CLOSE, or its direction has stopped. */
  ghost predicate GatewayParted(s: State, sid: Sid) {
    Ready(s, false, sid) && (Str(s, false, sid).pc.Removing? || Str(s, false, sid).pc.Finished?) ==>
      Shut(sid) in s.down.frames || !s.down.open
  }

  ghost predicate Parted(s: State, sid: Sid)
    requires s.down.taken <= |s.down.frames|
  {
    ClientParted(s, sid) && GatewayParted(s, sid)
  }

  /** The frame that a step of one side sends. */
  function Says(s: State, a: Step, cl: bool): Option<Frame>
    requires Enabled(s, a)
  {
    match a
    case SendOpen(sid) => if cl then Some(Open(sid)) else None
    case SayErr(sid) => if cl then None else Some(Err(sid, Str(s, false, sid).pc.rep))
    case SayOk(sid) => if cl then None else Some(Ok(sid))
    case PumpSend(side, sid) => if side == cl then Some(Data(sid, Str(s, cl, sid).pc.bytes)) else None
    case SayClose(side, sid) => if side == cl then Some(Shut(sid)) else None
    case ReaderSays(side) => if side == cl then Some(Of(s, cl).reader.frame) else None
    case SayOther(side) => if side == cl then Some(Other) else None
    case _ => None
  }

  function Out(s: State, cl: bool): Pipe { if cl then s.up else s.down }

  /** A step adds at most what it says to what was sent, and at most the next frame to what
      was taken. */
  ghost predicate Flows(s: State, a: Step, t: State, cl: bool)
    requires Enabled(s, a)
  {
    var p, q := Out(s, cl), Out(t, cl);
    && (q.frames == p.frames || (Says(s, a, cl).Some? && q.frames == p.frames + [Says(s, a, cl).value]))
    && (Says(s, a, cl).Some? && p.open ==> q.frames == p.frames + [Says(s, a, cl).value])
    && (q.open ==> p.open)
    && q.taken == (if a.Take? && a.cl != cl then p.taken + 1 else p.taken)
  }

  lemma StepFlows(s: State, a: Step, cl: bool)
    requires Enabled(s, a)
    ensures Flows(s, a, Next(s, a), cl)
  {
    hide Flows, Next, Enabled;
    if a.Take? || a.Stop? || a.Break? { MuteFlows(s, a, cl); } else { VocalFlows(s, a, cl); }
  }

  lemma MuteFlows(s: State, a: Step, cl: bool)
    requires Enabled(s, a) && (a.Take? || a.Stop? || a.Break?)
    ensures Flows(s, a, Next(s, a), cl)
  {
  }

  lemma VocalFlows(s: State, a: Step, cl: bool)
    requires Enabled(s, a) && !(a.Take? || a.Stop? || a.Break?)
    ensures Flows(s, a, Next(s, a), cl)
  {
    hide ReplyFail;
  }

  // ----- the life of one stream -----

  /** A step that moves stream sid's handler on one side from st to st'. */
  ghost predicate Moves(s: State, a: Step, t: State, cl: bool, sid: Sid, st: Stream, st': Stream)
    requires Enabled(s, a)
  {
    match st'.pc
    case Opening => st.pc.Opening?
    case Waiting => st.pc.Opening?
    case Greeted => cl && st.pc.Waiting?
    case GreetFailed => cl && st.pc.Waiting? && st.connected && st.err.None?
    case Dialing => false
    case Refusing(_) => st.pc.Dialing?
    case Registered => !cl && st.pc.Dialing?
    case Pumping => st.ready || st'.ready
    case Holding(_) => st.pc.Pumping?
    case Ending => st.pc.Pumping?
    case Removing => (st.pc.Ending? && Says(s, a, cl) == Some(Shut(sid))) || (cl && st.pc.Waiting? && (st'.late || st.err.Some?))
    case Closing => st.pc.GreetFailed? && sid !in Of(t, cl).table
    case Finished =>
      || (st.pc.Removing? && sid !in Of(t, cl).table)
      || (st.pc.Closing? && Says(s, a, cl) == Some(Shut(sid)))
      || (!cl && st.pc.Refusing?)
  }

  /** What a step does to an existing stream: its handler stays or moves on; it enters the table
      only when the gateway registers it; whoever leaves the table is closed; nothing opens,
      and nobody stops being ready or late. */
  ghost predicate Lives(s: State, a: Step, t: State, cl: bool, sid: Sid)
    requires Enabled(s, a) && Has(s, cl, sid)
  {
    && Has(t, cl, sid)
    && var st, st' := Str(s, cl, sid), Str(t, cl, sid);
       && (st'.pc == st.pc || Moves(s, a, t, cl, sid, st, st'))
       && (sid in Of(t, cl).table ==> sid in Of(s, cl).table || (!cl && st.pc.Dialing? && st'.ready))
       && (sid in Of(s, cl).table && sid !in Of(t, cl).table ==> !st'.open)
       && (st'.open ==> st.open) && (st.ready ==> st'.ready) && (st.late ==> st'.late)
       && (st'.ready && !st.ready ==> if cl then st'.pc.Pumping? else sid in Of(t, cl).table)
  }

  /** A stream comes to a side's list when its app connects, or its OPEN is taken. */
  ghost predicate Arrives(s: State, t: State, cl: bool, sid: Sid)
    requires Has(t, cl, sid)
  {
    && Str(t, cl, sid) == NewStream(if cl then Opening else SocksMux.Dialing)
    && (if cl then sid == s.next && sid in t.client.table else sid !in t.gateway.table)
  }

  /** A reader turns to stream sid only for data that came for it, and its CLOSE takes it out. */
  ghost predicate Reads(s: State, a: Step, t: State, cl: bool, sid: Sid)
    requires Enabled(s, a)
  {
    && (AboutClient(Of(t, cl).reader, sid) ==>
          AboutClient(Of(s, cl).reader, sid) || (sid in Of(s, cl).table && exists d :: Data(sid, d) in Out(s, !cl).frames))
    && (a.Take? && a.cl == cl && Out(s, !cl).taken < |Out(s, !cl).frames| && Out(s, !cl).frames[Out(s, !cl).taken] == Shut(sid) ==>
          sid !in Of(t, cl).table)
  }

  ghost predicate Lived(s: State, a: Step, t: State, cl: bool, sid: Sid)
    requires Enabled(s, a)
  {
    && (if Has(s, cl, sid) then Lives(s, a, t, cl, sid) else Has(t, cl, sid) ==> Arrives(s, t, cl, sid))
    && (!Has(s, cl, sid) && !Has(t, cl, sid) ==> sid !in Of(t, cl).table)
  }

  ghost predicate Effect(s: State, a: Step, t: State, cl: bool, sid: Sid)
    requires Enabled(s, a)
  {
    Lived(s, a, t, cl, sid) && Reads(s, a, t, cl, sid) && Flows(s, a, t, cl)
  }

  lemma StepEffect(s: State, a: Step, cl: bool, sid: Sid)
    requires Known(s, sid) && Enabled(s, a)
    ensures Effect(s, a, Next(s, a), cl, sid)
  {
    hide Lived, Reads, Flows, Known, Next, Enabled;
    StepFlows(s, a, cl);
    match a {
      case Take(_, _) => TakeReads(s, a, cl, sid);
      case _ => StepReads(s, a, cl, sid);
    }
    match a {
      case Take(taker, _) => if taker { ClientTakeLife(s, a, cl, sid); } else { GatewayTakeLife(s, a, cl, sid); }
      case Stop(_) => HaltLife(s, a, cl, sid);
      case Break(_) => HaltLife(s, a, cl, sid);
      case SayOther(_) => HaltLife(s, a, cl, sid);
      case Delivered(_, _) => ReaderLife(s, a, cl, sid);
      case NeverReady => ReaderLife(s, a, cl, sid);
      case DropStream(_) => ReaderLife(s, a, cl, sid);
      case ReaderSays(_) => ReaderLife(s, a, cl, sid);
      case SayClose(_, _) => EndLife(s, a, cl, sid);
      case Remove(_, _) => RemoveLife(s, a, cl, sid);
      case PumpRead(_, _, _) => PumpLife(s, a, cl, sid);
      case PumpSend(_, _) => PumpLife(s, a, cl, sid);
      case PumpEnd(_, _) => PumpLife(s, a, cl, sid);
      case DialFailed(_, _) => DialLife(s, a, cl, sid);
      case Dialed(_) => DialedLife(s, a, cl, sid);
      case SayErr(_) => DialLife(s, a, cl, sid);
      case SayOk(_) => DialLife(s, a, cl, sid);
      case _ => ConnectLife(s, a, cl, sid);
    }
  }

  lemma ConnectLife(s: State, a: Step, cl: bool, sid: Sid)
    requires Known(s, sid) && Enabled(s, a) && (a.Connect? || a.SendOpen? || a.Timeout? || a.Answer? || a.SetReady? || a.UdpAlloc?)
    ensures Lived(s, a, Next(s, a), cl, sid)
  {
    hide ReplyFail;
  }

  lemma DialLife(s: State, a: Step, cl: bool, sid: Sid)
    requires Known(s, sid) && Enabled(s, a) && (a.DialFailed? || a.SayErr? || a.SayOk?)
    ensures Lived(s, a, Next(s, a), cl, sid)
  {
  }

  lemma DialedLife(s: State, a: Step, cl: bool, sid: Sid)
    requires Known(s, sid) && Enabled(s, a) && a.Dialed?
    ensures Lived(s, a, Next(s, a), cl, sid)
  {
  }

  lemma RemoveLife(s: State, a: Step, cl: bool, sid: Sid)
    requires Known(s, sid) && Enabled(s, a) && a.Remove?
    ensures Lived(s, a, Next(s, a), cl, sid)
  {
  }

  lemma PumpLife(s: State, a: Step, cl: bool, sid: Sid)
    requires Known(s, sid) && Enabled(s, a) && (a.PumpRead? || a.PumpSend? || a.PumpEnd?)
    ensures Lived(s, a, Next(s, a), cl, sid)
  {
  }

  lemma EndLife(s: State, a: Step, cl: bool, sid: Sid)
    requires Known(s, sid) && Enabled(s, a) && a.SayClose?
    ensures Lived(s, a, Next(s, a), cl, sid)
  {
  }

  lemma ReaderLife(s: State, a: Step, cl: bool, sid: Sid)
    requires Known(s, sid) && Enabled(s, a) && (a.Delivered? || a.NeverReady? || a.DropStream? || a.ReaderSays?)
    ensures Lived(s, a, Next(s, a), cl, sid)
  {
  }

  lemma HaltLife(s: State, a: Step, cl: bool, sid: Sid)
    requires Known(s, sid) && Enabled(s, a) && (a.Stop? || a.Break? || a.SayOther?)
    ensures Lived(s, a, Next(s, a), cl, sid)
  {
  }

  lemma ClientTakeLife(s: State, a: Step, cl: bool, sid: Sid)
    requires Known(s, sid) && Enabled(s, a) && (a.Take? && a.cl)
    ensures Lived(s, a, Next(s, a), cl, sid)
  {
    TakenMore(s.down);
  }

  lemma GatewayTakeLife(s: State, a: Step, cl: bool, sid: Sid)
    requires Known(s, sid) && Enabled(s, a) && (a.Take? && !a.cl)
    ensures Lived(s, a, Next(s, a), cl, sid)
  {
    TakenMore(s.up);
  }

  lemma TakeReads(s: State, a: Step, cl: bool, sid: Sid)
    requires Known(s, sid) && Enabled(s, a) && a.Take?
    ensures Reads(s, a, Next(s, a), cl, sid)
  {
    if a.cl { TakenMore(s.down); } else { TakenMore(s.up); }
  }

  lemma StepReads(s: State, a: Step, cl: bool, sid: Sid)
    requires Enabled(s, a) && !a.Take?
    ensures Reads(s, a, Next(s, a), cl, sid)
  {
  }

  lemma FlowsTaken(s: State, a: Step, t: State)
    requires Enabled(s, a) && Flows(s, a, t, true) && Flows(s, a, t, false)
    requires s.up.taken <= |s.up.frames| && s.down.taken <= |s.down.frames|
    requires t.up.taken <= |t.up.frames| && t.down.taken <= |t.down.frames|
    ensures forall f :: f in TakenUp(s) ==> f in s.up.frames && f in TakenUp(t)
    ensures forall f :: f in TakenDown(s) ==> f in s.down.frames && f in TakenDown(t)
    ensures forall f :: f in TakenUp(t) ==> f in TakenUp(s) || (a.Take? && !a.cl && f == s.up.frames[s.up.taken])
    ensures forall f :: f in TakenDown(t) ==> f in TakenDown(s) || (a.Take? && a.cl && f == s.down.frames[s.down.taken])
  {
    TakenPrefix(s.up, t.up);
    TakenPrefix(s.down, t.down);
  }

  lemma TakenPrefix(p: Pipe, q: Pipe)
    requires p.taken <= |p.frames| && q.taken <= |q.frames| && p.taken <= q.taken <= p.taken + 1
    requires q.frames == p.frames || (exists f :: q.frames == p.frames + [f])
    requires q.taken == p.taken + 1 ==> q.frames == p.frames
    ensures forall f :: f in p.frames[..p.taken] ==> f in p.frames && f in q.frames[..q.taken]
    ensures forall f :: f in q.frames[..q.taken] ==> f in p.frames[..p.taken] || (q.taken == p.taken + 1 && f == p.frames[p.taken])
  {
    if q.taken == p.taken + 1 { TakenMore(p); } else { assert q.frames[..q.taken] == p.frames[..p.taken]; }
  }

  lemma NextShutKnown(s: State, a: Step, t: State, sid: Sid)
    requires Known(s, sid) && ShutKnown(s, sid) && Enabled(s, a) && Effect(s, a, t, true, sid) && Effect(s, a, t, false, sid)
    ensures ShutKnown(t, sid)
  {
  }

  lemma NextObeyed(s: State, a: Step, t: State, sid: Sid)
    requires Known(s, sid) && ShutKnown(s, sid) && Obeyed(s, sid) && Enabled(s, a) && Known(t, sid)
    requires Effect(s, a, t, true, sid) && Effect(s, a, t, false, sid)
    ensures Obeyed(t, sid)
  {
    hide Moves, Arrives;
    FlowsTaken(s, a, t);
  }

  lemma NextGone(s: State, a: Step, t: State, cl: bool, sid: Sid)
    requires Known(s, sid) && Answers(s, sid) && Gone(s, cl, sid) && Enabled(s, a) && Lived(s, a, t, cl, sid)
    ensures Gone(t, cl, sid)
  {
    hide ClientTold, ErrOk, Says;
  }

  lemma NextParted(s: State, a: Step, t: State, sid: Sid)
    requires Known(s, sid) && Answers(s, sid) && Parted(s, sid) && Enabled(s, a) && Known(t, sid)
    requires Effect(s, a, t, true, sid) && Effect(s, a, t, false, sid)
    ensures Parted(t, sid)
  {
    hide Answers, Effect, Known, ClientParted, GatewayParted;
    KnownBounds(s, sid);
    KnownBounds(t, sid);
    ClientParts(s, a, t, sid);
    GatewayParts(s, a, t, sid);
  }

  lemma ClientParts(s: State, a: Step, t: State, sid: Sid)
    requires Known(s, sid) && Answers(s, sid) && ClientParted(s, sid) && Enabled(s, a) && Known(t, sid)
    requires Effect(s, a, t, true, sid) && Effect(s, a, t, false, sid)
    ensures ClientParted(t, sid)
  {
    hide Reads, Told;
    FlowsTaken(s, a, t);
  }

  lemma GatewayParts(s: State, a: Step, t: State, sid: Sid)
    requires Known(s, sid) && Answers(s, sid) && GatewayParted(s, sid) && Enabled(s, a) && Known(t, sid)
    requires Effect(s, a, t, true, sid) && Effect(s, a, t, false, sid)
    ensures GatewayParted(t, sid)
  {
    hide Reads, ClientTold;
  }

  // ----- every run -----

  ghost predicate Ends(s: State, sid: Sid)
    requires s.up.taken <= |s.up.frames| && s.down.taken <= |s.down.frames|
  {
    ShutKnown(s, sid) && Obeyed(s, sid) && Gone(s, true, sid) && Gone(s, false, sid) && Parted(s, sid)
  }

  lemma NextEnds(s: State, a: Step, sid: Sid)
    requires Known(s, sid) && Answers(s, sid) && Ends(s, sid) && Enabled(s, a) && Known(Next(s, a), sid)
    ensures Ends(Next(s, a), sid)
  {
    hide Known, Answers, Enabled, Next, ShutKnown, Obeyed, Gone, Parted, Lived, Reads, Flows;
    var t := Next(s, a);
    StepEffect(s, a, true, sid);
    StepEffect(s, a, false, sid);
    KnownBounds(t, sid);
    NextShutKnown(s, a, t, sid);
    NextObeyed(s, a, t, sid);
    NextGone(s, a, t, true, sid);
    NextGone(s, a, t, false, sid);
    NextParted(s, a, t, sid);
  }

  lemma {:induction false} RunEnds(steps: seq<Step>, sid: Sid)
    requires Run(steps).allocs < SID_LIMIT
    ensures Inv(Run(steps)) && Known(Run(steps), sid) && Answers(Run(steps), sid) && Ends(Run(steps), sid)
  {
    hide Inv, Enabled, Next, Known, Answers, Ends;
    RunAnswers(steps, sid);
    KnownBounds(Run(steps), sid);
    if steps == [] {
      StartEnds(sid);
    } else {
      var n := |steps| - 1;
      var s := Run(steps[..n]);
      if Enabled(s, steps[n]) { AllocsGrow(s, steps[n]); }
      RunEnds(steps[..n], sid);
      if Enabled(s, steps[n]) { NextEnds(s, steps[n], sid); }
    }
  }

  lemma StartEnds(sid: Sid)
    ensures Ends(START, sid)
  {
  }

  /** Whoever has finished with a stream has told the other side, unless that direction has
      stopped for good or, on the client, the stream was refused or its answer late. */
  lemma EndIsTold(steps: seq<Step>, sid: Sid)
    requires Run(steps).allocs < SID_LIMIT
    ensures var s := Run(steps);
            && s.down.taken <= |s.down.frames|
            && (Has(s, true, sid) && Str(s, true, sid).pc.Finished? ==>
                  Shut(sid) in s.up.frames || !s.up.open || Str(s, true, sid).late || exists rep :: Err(sid, rep) in TakenDown(s))
            && (Ready(s, false, sid) && Str(s, false, sid).pc.Finished? ==> Shut(sid) in s.down.frames || !s.down.open)
  {
    hide Run, Inv, Known, Answers, ShutKnown, Obeyed, Gone;
    RunEnds(steps, sid);
    KnownBounds(Run(steps), sid);
  }

  /** A CLOSE that was taken, or a handler that has finished, leaves no entry and no open socket. */
  lemma EndsClosed(steps: seq<Step>, sid: Sid)
    requires Run(steps).allocs < SID_LIMIT
    ensures var s := Run(steps);
            && s.up.taken <= |s.up.frames| && s.down.taken <= |s.down.frames|
            && (Shut(sid) in TakenUp(s) ==> sid !in s.gateway.table && Ready(s, false, sid) && !Str(s, false, sid).open)
            && (Shut(sid) in TakenDown(s) ==> sid !in s.client.table && Has(s, true, sid) && !Str(s, true, sid).open)
            && (Has(s, true, sid) && Str(s, true, sid).pc.Finished? ==> sid !in s.client.table && !Str(s, true, sid).open)
            && (Ready(s, false, sid) && Str(s, false, sid).pc.Finished? ==> sid !in s.gateway.table && !Str(s, false, sid).open)
  {
    hide Run, Inv, Answers, Parted;
    RunEnds(steps, sid);
    var s := Run(steps);
    PrefixHolds(TakenUp(s), s.up.frames);
    PrefixHolds(TakenDown(s), s.down.frames);
  }

  lemma RunPush(steps: seq<Step>, a: Step) returns (more: seq<Step>)
    requires Enabled(Run(steps), a)
    ensures more == steps + [a] && Run(more) == Next(Run(steps), a)
  {
    hide Enabled, Next;
    more := steps + [a];
    assert more[..|steps|] == steps;
  }

  /** A late answer is the exception in EndIsTold: the client has given up and said nothing, and
      the gateway, connected since, keeps the stream. */
  lemma LateStreamStays() returns (steps: seq<Step>)
    ensures var s := Run(steps);
            && s.up.open && s.down.open && s.allocs == 1
            && Has(s, true, 1) && Str(s, true, 1).pc.Finished? && 1 !in s.client.table
            && s.up.frames == [Open(1)] && s.down.taken == |s.down.frames| && s.client.reader == Idle
            && 1 in s.gateway.table && Has(s, false, 1) && Str(s, false, 1).pc.Pumping? && Str(s, false, 1).open
  {
    steps := GivenUp();
    hide Run;
    steps := RunPush(steps, SocksMux.Dialed(1));
    steps := RunPush(steps, SayOk(1));
    steps := RunPush(steps, Take(true, true));
  }

  lemma GivenUp() returns (steps: seq<Step>)
    ensures var s := Run(steps);
            && s.up.open && s.down == Pipe([], 0, true) && s.allocs == 1 && s.up.frames == [Open(1)]
            && s.client.streams.Keys == {1} && Str(s, true, 1).pc.Finished? && s.client.table == {} && s.client.reader == Idle
            && s.gateway == Side(map[1 := NewStream(SocksMux.Dialing)], {}, Idle, false)
  {
    steps := Asked();
    hide Run, ReplyFail;
    steps := RunPush(steps, Timeout(1, 10));
    steps := RunPush(steps, Remove(true, 1));
  }

  /** One stream: on the client, on the gateway if its OPEN was taken, and the OPEN. */
  function OneStream(pc: Pc, sent: bool, taken: bool): State {
    State(2, 1, Side(map[1 := NewStream(pc)], {1}, Idle, false),
          Side(if taken then map[1 := NewStream(SocksMux.Dialing)] else map[], {}, Idle, false),
          Pipe(if sent then [Open(1)] else [], if taken then 1 else 0, true), Pipe([], 0, true))
  }

  lemma Asked() returns (steps: seq<Step>)
    ensures Run(steps) == OneStream(Waiting, true, true)
  {
    steps := [];
    assert Run([]) == START;
    hide Run, Next, Enabled, OneStream;
    AskingSteps();
    steps := RunPush(steps, Connect);
    steps := RunPush(steps, SendOpen(1));
    steps := RunPush(steps, Take(false, true));
  }

  lemma AskingSteps()
    ensures Enabled(START, Connect) && Next(START, Connect) == OneStream(Opening, false, false)
    ensures var s := OneStream(Opening, false, false);
            Enabled(s, SendOpen(1)) && Next(s, SendOpen(1)) == OneStream(Waiting, true, false)
    ensures var s := OneStream(Waiting, true, false);
            Enabled(s, Take(false, true)) && Next(s, Take(false, true)) == OneStream(Waiting, true, true)
  {
    assert [] + [Open(1)] == [Open(1)];
  }

  // ----- limits and stopping -----

  /** An app gets a stream, and the gateway registers one, exactly when its side has not stopped
      and has fewer than 256; otherwise the gateway refuses with code 1. */
  lemma AddsExactly(s: State, sid: Sid)
    requires IdsOk(s)
    ensures s.next in OnConnect(s).client.table <==> !s.client.done && |s.client.table| < 256
    ensures OnConnect(s).client.table == s.client.table + {s.next} || OnConnect(s) == s
    ensures Has(s, false, sid) && Str(s, false, sid).pc.Dialing? ==>
              if !s.gateway.done && |s.gateway.table| < 256
              then OnDialed(s, sid).gateway.table == s.gateway.table + {sid} && Str(OnDialed(s, sid), false, sid).pc == Registered
              else OnDialed(s, sid).gateway.table == s.gateway.table && Str(OnDialed(s, sid), false, sid).pc == Refusing(1)
  {
    NextIsNew(s);
  }

  /** A side that has stopped holds no stream and sends nothing any more, in the rest of every run. */
  lemma {:induction false} StoppedIsSilent(steps: seq<Step>, cl: bool)
    requires Of(Run(steps), cl).done
    ensures Of(Run(steps), cl).table == {} && !Out(Run(steps), cl).open
  {
    hide Enabled, Next;
    if steps != [] {
      var n := |steps| - 1;
      var s := Run(steps[..n]);
      if Of(s, cl).done { StoppedIsSilent(steps[..n], cl); }
      if Enabled(s, steps[n]) { StopStep(s, steps[n], cl); }
    }
  }

  /** What stopping has done, and what no step takes back. */
  ghost predicate StaysStopped(s: State, t: State, cl: bool) {
    && (Of(t, cl).done ==> Of(t, cl).table == {} && !Out(t, cl).open)
    && (Of(s, cl).done ==> Of(t, cl).done && Out(t, cl).frames == Out(s, cl).frames)
  }

  lemma StopStep(s: State, a: Step, cl: bool)
    requires Enabled(s, a) && (Of(s, cl).done ==> Of(s, cl).table == {} && !Out(s, cl).open)
    ensures StaysStopped(s, Next(s, a), cl)
  {
    hide Enabled, Next;
    if OfReader(a) {
      ReaderStops(s, a, cl);
    } else {
      HandlerStops(s, a, cl);
    }
  }

  lemma ReaderStops(s: State, a: Step, cl: bool)
    requires Enabled(s, a) && (Of(s, cl).done ==> Of(s, cl).table == {} && !Out(s, cl).open)
    requires OfReader(a)
    ensures StaysStopped(s, Next(s, a), cl)
  {
  }

  lemma HandlerStops(s: State, a: Step, cl: bool)
    requires Enabled(s, a) && (Of(s, cl).done ==> Of(s, cl).table == {} && !Out(s, cl).open)
    requires !OfReader(a)
    ensures StaysStopped(s, Next(s, a), cl)
  {
    hide ReplyFail;
  }
}
