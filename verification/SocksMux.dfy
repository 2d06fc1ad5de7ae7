/** remote_desktop.py's SOCKS multiplexer: many TCP streams over one channel, as the
    interleaving of the handler threads and the single reader thread of each side. The
    channel is a FIFO in each direction that may stop for good; a step is what a thread does
    between two accesses to shared state. */
module SocksMux {
  import opened Words
  import Bits
  import opened Wrappers

  type Sid = nat
  type Chars = seq<Byte>

  const MAX_STREAMS: nat := 256
  const CHUNK: nat := 60 * 1024
  const SID_LIMIT: nat := 0xFFFF_FFFF

  const REPLY_OK: Chars := [5, 0, 0, 1, 0, 0, 0, 0, 0, 0]

  function ReplyFail(rep: Byte): Chars { [5, rep, 0, 1, 0, 0, 0, 0, 0, 0] }

  datatype Frame =
    | Open(sid: Sid)
    | Ok(sid: Sid)
    | Err(sid: Sid, rep: Byte)
    | Data(sid: Sid, bytes: Chars)
    | Shut(sid: Sid)
    | Other                            // datagrams and keepalives

  /** The thread serving one stream. On the client: send OPEN, wait, reply, pump. On the
      gateway: dial, register, answer, pump. */
  datatype Pc =
    | Opening                          // client: in the table, OPEN not yet sent
    | Waiting                          // client: OPEN sent
    | Greeted                          // client: success reply written
    | GreetFailed                      // client: writing it failed; remove, then CLOSE
    | Dialing                          // gateway: connecting out
    | Refusing(rep: Byte)              // gateway: ERR to send
    | Registered                       // gateway: in the table, OK to send
    | Pumping                          // reading the local socket
    | Holding(bytes: Chars)            // about to send what it read
    | Ending                           // CLOSE to send, then remove
    | Removing                         // remove and finish
    | Closing                          // removed, CLOSE to send
    | Finished

  /** `ready`: on the client the event set after the success reply; on the gateway, that the
      stream has been registered. `late`: the client stopped waiting for the answer. `reply` and
      `out` are what was written to the socket, `read` what the pump read from it. */
  datatype Stream = Stream(pc: Pc, connected: bool, err: Option<Byte>, ready: bool, late: bool, open: bool,
                           reply: Chars, out: Chars, read: Chars)

  /** Why the gateway does not open a stream, and the code it says so with. */
  datatype DialError = Denied | ConnectionRefused | NoSuchHost | Failed

  function Code(why: DialError): Byte {
    match why
    case Denied => 2
    case ConnectionRefused => 5
    case NoSuchHost => 4
    case Failed => 1
  }

  datatype Reader = Idle | Deliver(sid: Sid, bytes: Chars) | Drop(sid: Sid) | Say(frame: Frame)

  /** `done`: stopped. */
  datatype Side = Side(streams: map<Sid, Stream>, table: set<Sid>, reader: Reader, done: bool)

  datatype Pipe = Pipe(frames: seq<Frame>, taken: nat, open: bool)

  /** `up` carries client frames to the gateway, `down` gateway frames to the client. */
  datatype State = State(next: Sid, allocs: nat, client: Side, gateway: Side, up: Pipe, down: Pipe)

  datatype Step =
    | Connect                                       // a local connection asks for a stream
    | UdpAlloc                                      // a datagram association takes an id
    | SendOpen(sid: Sid)
    | Timeout(sid: Sid, k: nat)                     // no answer: k bytes of a failure reply
    | Answer(sid: Sid, k: nat)                      // answered: k bytes of the reply
    | SetReady(sid: Sid)
    | DialFailed(sid: Sid, why: DialError)
    | Dialed(sid: Sid)
    | SayErr(sid: Sid)
    | SayOk(sid: Sid)
    | PumpRead(cl: bool, sid: Sid, bytes: Chars)
    | PumpSend(cl: bool, sid: Sid)
    | PumpEnd(cl: bool, sid: Sid)
    | SayClose(cl: bool, sid: Sid)
    | Remove(cl: bool, sid: Sid)
    | Take(cl: bool, good: bool)                    // the reader takes the next frame
    | Delivered(cl: bool, k: nat)                   // the reader writes k bytes to a socket
    | NeverReady                                    // the client's reader gives up on a stream
    | DropStream(cl: bool)
    | ReaderSays(cl: bool)
    | SayOther(cl: bool)
    | Break(cl: bool)                               // a send fails
    | Stop(cl: bool)

  // ----- identifiers -----

  /** `(next + 1) & 0xFFFFFFFF or 1`. */
  function Following(next: Sid): Sid {
    var n := (next + 1) % 0x1_0000_0000;
    if n == 0 then 1 else n
  }

  /** The n-th identifier handed out. */
  function NthSid(n: nat): Sid { if n == 0 then 1 else Following(NthSid(n - 1)) }

  /** Identifiers repeat with period 2^32 - 1: within one period no two are equal. */
  lemma {:induction false} SidsRepeatExactly(n: nat)
    ensures NthSid(n) == 1 + n % SID_LIMIT
  {
    if n > 0 {
      SidsRepeatExactly(n - 1);
      NextResidue(n - 1);
    }
  }

  lemma NextResidue(m: nat)
    ensures Following(1 + m % SID_LIMIT) == 1 + (m + 1) % SID_LIMIT
  {
    var q, r := m / SID_LIMIT, m % SID_LIMIT;
    assert m == SID_LIMIT * q + r;
    if r + 1 == SID_LIMIT {
      Bits.DivUnique(m + 1, SID_LIMIT, q + 1, 0);
    } else {
      Bits.DivUnique(m + 1, SID_LIMIT, q, r + 1);
    }
  }

  // ----- state changes -----

  const START: State :=
    State(1, 0, Side(map[], {}, Idle, false), Side(map[], {}, Idle, false), Pipe([], 0, true), Pipe([], 0, true))

  function Of(s: State, cl: bool): Side { if cl then s.client else s.gateway }

  function With(s: State, cl: bool, side: Side): State { if cl then s.(client := side) else s.(gateway := side) }

  function SetStream(s: State, cl: bool, sid: Sid, st: Stream): State {
    With(s, cl, Of(s, cl).(streams := Of(s, cl).streams[sid := st]))
  }

  function SetReader(s: State, cl: bool, r: Reader): State { With(s, cl, Of(s, cl).(reader := r)) }

  function Put(p: Pipe, f: Frame): Pipe { if p.open then p.(frames := p.frames + [f]) else p }

  /** Nothing is sent once a send has failed. */
  function Send(s: State, cl: bool, f: Frame): State {
    if cl then s.(up := Put(s.up, f)) else s.(down := Put(s.down, f))
  }

  /** `_remove`: out of the table, socket closed. */
  function Drop1(s: State, cl: bool, sid: Sid): State {
    var side := Of(s, cl);
    if sid in side.table && sid in side.streams
    then With(s, cl, side.(table := side.table - {sid}, streams := side.streams[sid := side.streams[sid].(open := false)]))
    else s
  }

  function NewStream(pc: Pc): Stream { Stream(pc, false, None, false, false, true, [], [], []) }

  /** A side that is neither stopped nor full. */
  predicate MayAdd(side: Side) { !side.done && |side.table| < MAX_STREAMS }

  function OnConnect(s: State): State {
    if !MayAdd(s.client) then s
    else
      var side := s.client;
      s.(next := Following(s.next), allocs := s.allocs + 1,
         client := side.(streams := side.streams[s.next := NewStream(Opening)], table := side.table + {s.next}))
  }

  predicate Has(s: State, cl: bool, sid: Sid) { sid in Of(s, cl).streams }

  function Str(s: State, cl: bool, sid: Sid): Stream
    requires Has(s, cl, sid)
  {
    Of(s, cl).streams[sid]
  }

  function SetPc(s: State, cl: bool, sid: Sid, pc: Pc): State
    requires Has(s, cl, sid)
  {
    SetStream(s, cl, sid, Str(s, cl, sid).(pc := pc))
  }

  function Reply(s: State, sid: Sid, reply: Chars, pc: Pc): State
    requires Has(s, true, sid)
  {
    SetStream(s, true, sid, Str(s, true, sid).(reply := reply, pc := pc))
  }

  function OnAnswer(s: State, sid: Sid, k: nat): State
    requires Has(s, true, sid) && k <= 10
  {
    var st := Str(s, true, sid);
    if st.err.Some? then Reply(s, sid, ReplyFail(st.err.value)[..k], Removing)
    else Reply(s, sid, REPLY_OK[..k], if k == 10 then Greeted else GreetFailed)
  }

  function OnDialed(s: State, sid: Sid): State
    requires Has(s, false, sid)
  {
    if !MayAdd(s.gateway) then SetPc(s, false, sid, Refusing(Code(Failed)))
    else
      var side := s.gateway;
      s.(gateway := side.(streams := side.streams[sid := side.streams[sid].(pc := Registered, ready := true)], table := side.table + {sid}))
  }

  /** `_SocksMux.dispatch`. */
  function ClientFrame(s: State, f: Frame): State {
    match f
    case Ok(sid) =>
      if sid in s.client.table && Has(s, true, sid) then SetStream(s, true, sid, Str(s, true, sid).(connected := true)) else s
    case Err(sid, rep) =>
      if sid in s.client.table && Has(s, true, sid) then SetStream(s, true, sid, Str(s, true, sid).(connected := true, err := Some(rep))) else s
    case Data(sid, d) => if sid in s.client.table then SetReader(s, true, Deliver(sid, d)) else s
    case Shut(sid) => Drop1(s, true, sid)
    case _ => s
  }

  /** `_GatewayMux.dispatch`; `good`: the address of an OPEN decodes. */
  function GatewayFrame(s: State, f: Frame, good: bool): State {
    match f
    case Open(sid) => if good then SetStream(s, false, sid, NewStream(Dialing)) else SetReader(s, false, Say(Err(sid, Code(Failed))))
    case Data(sid, d) => if sid in s.gateway.table then SetReader(s, false, Deliver(sid, d)) else s
    case Shut(sid) => Drop1(s, false, sid)
    case _ => s
  }

  function OnTake(s: State, cl: bool, good: bool): State
    requires if cl then s.down.taken < |s.down.frames| else s.up.taken < |s.up.frames|
  {
    if cl then ClientFrame(s.(down := s.down.(taken := s.down.taken + 1)), s.down.frames[s.down.taken])
    else GatewayFrame(s.(up := s.up.(taken := s.up.taken + 1)), s.up.frames[s.up.taken], good)
  }

  function OnDelivered(s: State, cl: bool, k: nat): State
    requires Of(s, cl).reader.Deliver? && Has(s, cl, Of(s, cl).reader.sid) && k <= |Of(s, cl).reader.bytes|
  {
    var r := Of(s, cl).reader;
    var st := Str(s, cl, r.sid);
    var t := SetStream(s, cl, r.sid, st.(out := st.out + r.bytes[..k]));
    SetReader(t, cl, if k == |r.bytes| then Idle else Drop(r.sid))
  }

  function OnRemove(s: State, cl: bool, sid: Sid): State
    requires Has(s, cl, sid)
  {
    var t := Drop1(s, cl, sid);
    SetPc(t, cl, sid, if Str(s, cl, sid).pc.GreetFailed? then Closing else Finished)
  }

  function OnSayClose(s: State, cl: bool, sid: Sid): State
    requires Has(s, cl, sid)
  {
    SetPc(Send(s, cl, Shut(sid)), cl, sid, if Str(s, cl, sid).pc.Ending? then Removing else Finished)
  }

  /** `stop`: every stream out, every socket closed, the channel closed. */
  function OnStop(s: State, cl: bool): State {
    var side := Of(s, cl);
    var shut := map sid | sid in side.streams :: side.streams[sid].(open := side.streams[sid].open && sid !in side.table);
    var t := With(s, cl, side.(table := {}, streams := shut, done := true));
    if cl then t.(up := t.up.(open := false)) else t.(down := t.down.(open := false))
  }

  predicate Enabled(s: State, a: Step) {
    match a
    case Connect => true
    case UdpAlloc => true
    case SendOpen(sid) => Has(s, true, sid) && Str(s, true, sid).pc.Opening?
    case Timeout(sid, k) => Has(s, true, sid) && Str(s, true, sid).pc.Waiting? && k <= 10
    case Answer(sid, k) => Has(s, true, sid) && Str(s, true, sid).pc.Waiting? && Str(s, true, sid).connected && k <= 10
    case SetReady(sid) => Has(s, true, sid) && Str(s, true, sid).pc.Greeted?
    case DialFailed(sid, why) => Has(s, false, sid) && Str(s, false, sid).pc.Dialing?
    case Dialed(sid) => Has(s, false, sid) && Str(s, false, sid).pc.Dialing?
    case SayErr(sid) => Has(s, false, sid) && Str(s, false, sid).pc.Refusing?
    case SayOk(sid) => Has(s, false, sid) && Str(s, false, sid).pc.Registered?
    case PumpRead(cl, sid, bytes) => Has(s, cl, sid) && Str(s, cl, sid).pc.Pumping? && Str(s, cl, sid).open && 0 < |bytes| <= CHUNK
    case PumpSend(cl, sid) => Has(s, cl, sid) && Str(s, cl, sid).pc.Holding?
    case PumpEnd(cl, sid) => Has(s, cl, sid) && Str(s, cl, sid).pc.Pumping?
    case SayClose(cl, sid) => Has(s, cl, sid) && (Str(s, cl, sid).pc.Ending? || Str(s, cl, sid).pc.Closing?)
    case Remove(cl, sid) => Has(s, cl, sid) && (Str(s, cl, sid).pc.Removing? || Str(s, cl, sid).pc.GreetFailed?)
    case Take(cl, good) => Of(s, cl).reader.Idle? && (if cl then s.down.taken < |s.down.frames| else s.up.taken < |s.up.frames|)
    case Delivered(cl, k) =>
      && Of(s, cl).reader.Deliver? && Has(s, cl, Of(s, cl).reader.sid) && k <= |Of(s, cl).reader.bytes|
      && Str(s, cl, Of(s, cl).reader.sid).ready
      && (!Str(s, cl, Of(s, cl).reader.sid).open ==> k == 0)
    case NeverReady => s.client.reader.Deliver? && !(Has(s, true, s.client.reader.sid) && Str(s, true, s.client.reader.sid).ready)
    case DropStream(cl) => Of(s, cl).reader.Drop?
    case ReaderSays(cl) => Of(s, cl).reader.Say?
    case SayOther(cl) => true
    case Break(cl) => true
    case Stop(cl) => true
  }

  function Next(s: State, a: Step): State
    requires Enabled(s, a)
  {
    match a
    case Connect => OnConnect(s)
    case UdpAlloc => s.(next := Following(s.next), allocs := s.allocs + 1)
    case SendOpen(sid) => SetPc(Send(s, true, Open(sid)), true, sid, Waiting)
    case Timeout(sid, k) => SetStream(s, true, sid, Str(s, true, sid).(reply := ReplyFail(4)[..k], late := true, pc := Removing))
    case Answer(sid, k) => OnAnswer(s, sid, k)
    case SetReady(sid) => SetStream(s, true, sid, Str(s, true, sid).(ready := true, pc := Pumping))
    case DialFailed(sid, why) => SetPc(s, false, sid, Refusing(Code(why)))
    case Dialed(sid) => OnDialed(s, sid)
    case SayErr(sid) => SetPc(Send(s, false, Err(sid, Str(s, false, sid).pc.rep)), false, sid, Finished)
    case SayOk(sid) => SetPc(Send(s, false, Ok(sid)), false, sid, Pumping)
    case PumpRead(cl, sid, bytes) => SetStream(s, cl, sid, Str(s, cl, sid).(pc := Holding(bytes), read := Str(s, cl, sid).read + bytes))
    case PumpSend(cl, sid) => SetPc(Send(s, cl, Data(sid, Str(s, cl, sid).pc.bytes)), cl, sid, Pumping)
    case PumpEnd(cl, sid) => SetPc(s, cl, sid, Ending)
    case SayClose(cl, sid) => OnSayClose(s, cl, sid)
    case Remove(cl, sid) => OnRemove(s, cl, sid)
    case Take(cl, good) => OnTake(s, cl, good)
    case Delivered(cl, k) => OnDelivered(s, cl, k)
    case NeverReady => SetReader(s, true, Drop(s.client.reader.sid))
    case DropStream(cl) => var sid := Of(s, cl).reader.sid; SetReader(Drop1(s, cl, sid), cl, Say(Shut(sid)))
    case ReaderSays(cl) => SetReader(Send(s, cl, Of(s, cl).reader.frame), cl, Idle)
    case SayOther(cl) => Send(s, cl, Other)
    case Break(cl) => if cl then s.(up := s.up.(open := false)) else s.(down := s.down.(open := false))
    case Stop(cl) => OnStop(s, cl)
  }

  function Run(steps: seq<Step>): State {
    if steps == [] then START
    else
      var s := Run(steps[..|steps| - 1]);
      if Enabled(s, steps[|steps| - 1]) then Next(s, steps[|steps| - 1]) else s
  }

  // ----- what every step keeps -----

  /** The data bytes for one stream among some frames, in order. */
  function DataOf(frames: seq<Frame>, sid: Sid): Chars {
    if frames == [] then []
    else
      var f := frames[|frames| - 1];
      DataOf(frames[..|frames| - 1], sid) + (if f.Data? && f.sid == sid then f.bytes else [])
  }

  predicate Ready(s: State, cl: bool, sid: Sid) { Has(s, cl, sid) && Str(s, cl, sid).ready }

  /** Identifiers are fresh, tables bounded. */
  ghost predicate IdsOk(s: State) {
    && s.next == s.allocs + 1 && s.allocs < SID_LIMIT
    && (forall sid :: sid in s.client.streams ==> 1 <= sid < s.next)
    && s.client.table <= s.client.streams.Keys && s.gateway.table <= s.gateway.streams.Keys
    && |s.client.table| <= MAX_STREAMS && |s.gateway.table| <= MAX_STREAMS
    && (forall sid :: sid in s.gateway.streams ==> sid in s.client.streams && !s.client.streams[sid].pc.Opening?)
    && (forall sid :: sid in s.gateway.table ==> s.gateway.streams[sid].ready)
    && s.up.taken <= |s.up.frames| && s.down.taken <= |s.down.frames|
    && ReaderOk(s.client) && ReaderOk(s.gateway)
  }

  predicate ReaderOk(side: Side) {
    match side.reader
    case Idle => true
    case Deliver(sid, bytes) => sid in side.streams
    case Drop(sid) => sid in side.streams
    case Say(f) => f.Err? || f.Shut?
  }

  /** A frame from the client: OPEN was sent by that stream's handler, DATA by its pump. */
  ghost predicate UpOk(s: State, f: Frame) {
    match f
    case Open(sid) => Has(s, true, sid) && !Str(s, true, sid).pc.Opening?
    case Data(sid, d) => Ready(s, true, sid)
    case _ => true
  }

  ghost predicate DownOk(s: State, f: Frame) {
    match f
    case Ok(sid) => Ready(s, false, sid)
    case Data(sid, d) => Ready(s, false, sid)
    case _ => true
  }

  ghost predicate FramesOk(s: State) {
    && (forall i :: 0 <= i < |s.up.frames| ==> UpOk(s, s.up.frames[i]))
    && (forall i :: 0 <= i < |s.down.frames| ==> DownOk(s, s.down.frames[i]))
  }

  /** Each stream is opened once, and not yet on the gateway while its OPEN is on the way. */
  ghost predicate OpensOk(s: State) {
    && (forall i, j :: 0 <= i < j < |s.up.frames| && s.up.frames[i].Open? ==> s.up.frames[i] != s.up.frames[j])
    && (forall i :: s.up.taken <= i < |s.up.frames| && s.up.frames[i].Open? ==> s.up.frames[i].sid !in s.gateway.streams)
  }

  ghost predicate ReplyOk(st: Stream) {
    && (!st.ready ==> st.out == [] && st.read == [])
    && (st.ready || st.pc.Greeted? ==> st.reply == REPLY_OK)
    && (st.reply <= REPLY_OK || exists rep: Byte :: st.reply <= ReplyFail(rep))
  }

  predicate PumpsOnlyWhenReady(st: Stream) { st.pc.Pumping? || st.pc.Holding? || st.pc.Registered? ==> st.ready }

  /** A client handler that got an OK, and the pumps, have a registered stream behind them. */
  ghost predicate ClientOk(s: State, sid: Sid)
    requires sid in s.client.streams
  {
    var st := s.client.streams[sid];
    && ReplyOk(st) && PumpsOnlyWhenReady(st) && !st.pc.Registered?
    && (st.pc.Opening? || st.pc.Waiting? ==> !st.ready && st.reply == [])
    && ((st.connected && st.err.None?) || st.ready || st.pc.Greeted? ==> Ready(s, false, sid))
  }

  ghost predicate GatewayOk(st: Stream) {
    PumpsOnlyWhenReady(st) && (!st.ready ==> st.out == [] && st.read == []) && (st.pc.Dialing? ==> !st.ready)
  }

  ghost predicate StreamsOk(s: State) {
    && (forall sid :: sid in s.client.streams ==> ClientOk(s, sid))
    && (forall sid :: sid in s.gateway.streams ==> GatewayOk(s.gateway.streams[sid]))
  }

  function Held(st: Stream): Chars { if st.pc.Holding? then st.pc.bytes else [] }

  /** What was sent for a stream is what its pump read, less what it still holds; a prefix
      once the direction has stopped. */
  ghost predicate Sent(st: Stream, p: Pipe, sid: Sid) {
    if p.open then DataOf(p.frames, sid) + Held(st) == st.read else DataOf(p.frames, sid) <= st.read
  }

  /** What was written to a stream's socket is the data taken for it, until the stream leaves
      the table or a write falls short; then a prefix of it. */
  ghost predicate Received(st: Stream, r: Reader, inTable: bool, taken: Chars, sid: Sid) {
    if r.Deliver? && r.sid == sid then st.out + r.bytes == taken
    else if inTable && !(r.Drop? && r.sid == sid) then st.out == taken
    else st.out <= taken
  }

  ghost predicate FlowOk(from: Side, to: Side, p: Pipe)
    requires p.taken <= |p.frames|
  {
    && (forall sid :: sid in from.streams ==> Sent(from.streams[sid], p, sid))
    && (forall sid :: sid in to.streams ==>
          Received(to.streams[sid], to.reader, sid in to.table, DataOf(p.frames[..p.taken], sid), sid))
  }

  ghost predicate Inv(s: State) {
    && IdsOk(s) && FramesOk(s) && OpensOk(s) && StreamsOk(s)
    && FlowOk(s.client, s.gateway, s.up) && FlowOk(s.gateway, s.client, s.down)
  }

  // ----- data of a stream among frames -----

  lemma DataSnoc(frames: seq<Frame>, f: Frame, sid: Sid)
    ensures DataOf(frames + [f], sid) == DataOf(frames, sid) + (if f.Data? && f.sid == sid then f.bytes else [])
  {
    assert (frames + [f])[..|frames|] == frames;
  }

  lemma {:induction false} NoData(frames: seq<Frame>, sid: Sid)
    requires forall i :: 0 <= i < |frames| && frames[i].Data? ==> frames[i].sid != sid
    ensures DataOf(frames, sid) == []
  {
    if frames != [] { NoData(frames[..|frames| - 1], sid); }
  }

  lemma {:induction false} DataPrefix(frames: seq<Frame>, n: nat, sid: Sid)
    requires n <= |frames|
    ensures DataOf(frames[..n], sid) <= DataOf(frames, sid)
  {
    if n < |frames| {
      DataPrefix(frames[..|frames| - 1], n, sid);
      assert frames[..|frames| - 1][..n] == frames[..n];
    } else {
      assert frames[..n] == frames;
    }
  }

  lemma TakenStep(p: Pipe, sid: Sid)
    requires p.taken < |p.frames|
    ensures DataOf(p.frames[..p.taken + 1], sid) ==
            DataOf(p.frames[..p.taken], sid) + (if p.frames[p.taken].Data? && p.frames[p.taken].sid == sid then p.frames[p.taken].bytes else [])
  {
    assert p.frames[..p.taken + 1] == p.frames[..p.taken] + [p.frames[p.taken]];
    DataSnoc(p.frames[..p.taken], p.frames[p.taken], sid);
  }

  // ----- changes one step is made of -----

  ghost predicate SameFlow(prior: Stream, st: Stream) {
    st.out == prior.out && st.read == prior.read && Held(st) == Held(prior)
  }

  /** A stream record changes, but not the bytes. */
  lemma StreamChange(s: State, cl: bool, sid: Sid, st: Stream)
    requires Inv(s) && Has(s, cl, sid) && SameFlow(Str(s, cl, sid), st)
    requires (Str(s, cl, sid).ready ==> st.ready) && (st.pc.Opening? ==> Str(s, cl, sid).pc.Opening?)
    requires cl ==> ClientOk(SetStream(s, cl, sid, st), sid)
    requires !cl ==> GatewayOk(st)
    ensures Inv(SetStream(s, cl, sid, st))
  {
    hide FlowOk, ReplyOk, FramesOk, GatewayOk, ClientOk, IdsOk, OpensOk, StreamsOk, Grows;
    var t := SetStream(s, cl, sid, st);
    Bounds(s);
    StreamGrows(s, cl, sid, st);
    FramesStay(s, t);
    ClientsStay(s, t, cl, sid);
    StreamFlow(s, cl, sid, st);
    IdsStay(s, t);
    PumpReadOpens(s, t);
  }

  lemma Bounds(s: State)
    requires IdsOk(s)
    ensures s.up.taken <= |s.up.frames| && s.down.taken <= |s.down.frames|
    ensures s.client.table <= s.client.streams.Keys && s.gateway.table <= s.gateway.streams.Keys
  {
  }

  lemma StreamGrows(s: State, cl: bool, sid: Sid, st: Stream)
    requires Has(s, cl, sid) && (Str(s, cl, sid).ready ==> st.ready) && (st.pc.Opening? ==> Str(s, cl, sid).pc.Opening?)
    ensures Grows(s, SetStream(s, cl, sid, st))
  {
  }

  /** The other client streams keep what they rely on. */
  lemma ClientsStay(s: State, t: State, cl: bool, sid: Sid)
    requires StreamsOk(s) && Grows(s, t)
    requires forall x :: x in t.client.streams && (cl ==> x != sid) ==> x in s.client.streams && t.client.streams[x] == s.client.streams[x]
    requires forall x :: x in t.gateway.streams && (!cl ==> x != sid) ==> x in s.gateway.streams && t.gateway.streams[x] == s.gateway.streams[x]
    requires cl && sid in t.client.streams ==> ClientOk(t, sid)
    requires !cl && sid in t.gateway.streams ==> GatewayOk(t.gateway.streams[sid])
    ensures StreamsOk(t)
  {
    hide ReplyOk, GatewayOk;
    forall x | x in t.client.streams ensures ClientOk(t, x) {
      if !cl || x != sid { assert ClientOk(s, x); }
    }
  }

  lemma StreamFlow(s: State, cl: bool, sid: Sid, st: Stream)
    requires s.up.taken <= |s.up.frames| && s.down.taken <= |s.down.frames|
    requires FlowOk(s.client, s.gateway, s.up) && FlowOk(s.gateway, s.client, s.down)
    requires Has(s, cl, sid) && SameFlow(Str(s, cl, sid), st)
    ensures var t := SetStream(s, cl, sid, st);
            FlowOk(t.client, t.gateway, t.up) && FlowOk(t.gateway, t.client, t.down)
  {
    hide DataOf;
  }

  /** Nothing a frame relies on is taken back. */
  ghost predicate Grows(s: State, t: State) {
    && (forall cl, sid :: Ready(s, cl, sid) ==> Ready(t, cl, sid))
    && (forall sid :: Has(s, true, sid) && !Str(s, true, sid).pc.Opening? ==> Has(t, true, sid) && !Str(t, true, sid).pc.Opening?)
  }

  lemma FramesStay(s: State, t: State)
    requires FramesOk(s) && t.up.frames == s.up.frames && t.down.frames == s.down.frames && Grows(s, t)
    ensures FramesOk(t)
  {
    forall i | 0 <= i < |t.up.frames| ensures UpOk(t, t.up.frames[i]) { assert UpOk(s, s.up.frames[i]); }
    forall i | 0 <= i < |t.down.frames| ensures DownOk(t, t.down.frames[i]) { assert DownOk(s, s.down.frames[i]); }
  }

  /** What the clients rely on depends only on the stream records. */
  lemma SameStreams(s: State, t: State)
    requires StreamsOk(s) && t.client.streams == s.client.streams && t.gateway.streams == s.gateway.streams
    ensures StreamsOk(t) && Grows(s, t)
  {
    hide ReplyOk;
    forall x | x in t.client.streams ensures ClientOk(t, x) { assert ClientOk(s, x); }
  }

  lemma TableRemove(s: State, cl: bool, sid: Sid)
    requires Inv(s)
    ensures Inv(With(s, cl, Of(s, cl).(table := Of(s, cl).table - {sid})))
  {
    hide DataOf, StreamsOk, FramesOk, Grows, IdsOk, FlowOk, OpensOk;
    var t := With(s, cl, Of(s, cl).(table := Of(s, cl).table - {sid}));
    SameStreams(s, t);
    FramesStay(s, t);
    Smaller(Of(s, cl).table, sid);
    IdsStay(s, t);
    PumpReadOpens(s, t);
    TableRemoveFlow(s, cl, sid);
  }

  lemma TableRemoveFlow(s: State, cl: bool, sid: Sid)
    requires s.up.taken <= |s.up.frames| && s.down.taken <= |s.down.frames|
    requires FlowOk(s.client, s.gateway, s.up) && FlowOk(s.gateway, s.client, s.down)
    ensures var t := With(s, cl, Of(s, cl).(table := Of(s, cl).table - {sid}));
            FlowOk(t.client, t.gateway, t.up) && FlowOk(t.gateway, t.client, t.down)
  {
    hide DataOf;
  }

  lemma Smaller(a: set<Sid>, x: Sid)
    ensures |a - {x}| <= |a|
  {
    if x in a { assert a == (a - {x}) + {x}; } else { assert a - {x} == a; }
  }

  lemma Larger(a: set<Sid>, x: Sid)
    ensures |a + {x}| <= |a| + 1
  {
    if x in a { assert a + {x} == a; }
  }

  lemma ReaderChange(s: State, cl: bool, r: Reader)
    requires Inv(s) && !r.Deliver? && ReaderOk(Of(s, cl).(reader := r))
    requires Of(s, cl).reader.Drop? && r != Of(s, cl).reader ==> Of(s, cl).reader.sid !in Of(s, cl).table
    requires Of(s, cl).reader.Deliver? ==> r == Drop(Of(s, cl).reader.sid)
    ensures Inv(SetReader(s, cl, r))
  {
    hide DataOf, StreamsOk, FramesOk, Grows;
    var t := SetReader(s, cl, r);
    SameStreams(s, t);
    FramesStay(s, t);
  }

  /** A frame that carries no stream data and opens nothing. */
  lemma SendPlain(s: State, cl: bool, f: Frame)
    requires Inv(s) && !f.Data? && !f.Open? && (!cl && f.Ok? ==> Ready(s, false, f.sid))
    ensures Inv(Send(s, cl, f))
  {
    hide DataOf, StreamsOk, FramesOk, Grows, OpensOk, FlowOk;
    var t := Send(s, cl, f);
    SameStreams(s, t);
    SendFrames(s, cl, f);
    PlainFlow(s.client, s.gateway, s.up, f);
    PlainFlow(s.gateway, s.client, s.down, f);
    PlainOpens(s, cl, f);
  }

  lemma SendFrames(s: State, cl: bool, f: Frame)
    requires FramesOk(s) && (if cl then UpOk(s, f) else DownOk(s, f))
    ensures FramesOk(Send(s, cl, f))
  {
    var t := Send(s, cl, f);
    forall i | 0 <= i < |t.up.frames| ensures UpOk(t, t.up.frames[i]) { if i < |s.up.frames| { assert UpOk(s, s.up.frames[i]); } }
    forall i | 0 <= i < |t.down.frames| ensures DownOk(t, t.down.frames[i]) { if i < |s.down.frames| { assert DownOk(s, s.down.frames[i]); } }
  }

  lemma PlainFlow(from: Side, to: Side, p: Pipe, f: Frame)
    requires p.taken <= |p.frames| && FlowOk(from, to, p) && !f.Data?
    ensures FlowOk(from, to, Put(p, f))
  {
    hide DataOf;
    forall x ensures DataOf(p.frames + [f], x) == DataOf(p.frames, x) { DataSnoc(p.frames, f, x); }
    assert (p.frames + [f])[..p.taken] == p.frames[..p.taken];
  }

  lemma PlainOpens(s: State, cl: bool, f: Frame)
    requires OpensOk(s) && !f.Open?
    ensures OpensOk(Send(s, cl, f))
  {
  }

  /** Removing a stream: out of the table, then its socket closed. */
  lemma Drop1Keeps(s: State, cl: bool, sid: Sid)
    requires Inv(s)
    ensures Inv(Drop1(s, cl, sid)) && sid !in Of(Drop1(s, cl, sid), cl).table
    ensures forall x :: Has(s, cl, x) <==> Has(Drop1(s, cl, sid), cl, x)
    ensures Has(s, cl, sid) ==> Str(Drop1(s, cl, sid), cl, sid) == Str(s, cl, sid).(open := Str(Drop1(s, cl, sid), cl, sid).open)
    ensures Of(Drop1(s, cl, sid), cl).reader == Of(s, cl).reader
  {
    hide FlowOk, FramesOk, OpensOk, ReplyOk, GatewayOk;
    if sid in Of(s, cl).table {
      var t := With(s, cl, Of(s, cl).(table := Of(s, cl).table - {sid}));
      TableRemove(s, cl, sid);
      var st := Str(t, cl, sid).(open := false);
      OpenIrrelevant(t, cl, sid, false);
      StreamChange(t, cl, sid, st);
      assert Drop1(s, cl, sid) == SetStream(t, cl, sid, st);
    }
  }

  lemma OpenIrrelevant(s: State, cl: bool, sid: Sid, open: bool)
    requires StreamsOk(s) && Has(s, cl, sid)
    ensures var st := Str(s, cl, sid).(open := open);
            (cl ==> ClientOk(SetStream(s, cl, sid, st), sid)) && (!cl ==> GatewayOk(st))
  {
    hide ReplyFail;
    if cl { assert ClientOk(s, sid); }
  }

  lemma BreakKeeps(s: State, cl: bool)
    requires Inv(s)
    ensures Inv(Next(s, Break(cl)))
  {
    hide DataOf, StreamsOk, FramesOk, Grows;
    var t := Next(s, Break(cl));
    SameStreams(s, t);
    FramesStay(s, t);
    forall d: Chars, h: Chars ensures d <= d + h {}
    BreakFlow(s.client, s.gateway, s.up);
    BreakFlow(s.gateway, s.client, s.down);
  }

  lemma BreakFlow(from: Side, to: Side, p: Pipe)
    requires p.taken <= |p.frames| && FlowOk(from, to, p)
    ensures FlowOk(from, to, p.(open := false))
  {
    hide DataOf, Received;
  }

  lemma StopKeeps(s: State, cl: bool)
    requires Inv(s)
    ensures Inv(OnStop(s, cl))
  {
    hide DataOf, StreamsOk, FramesOk, Grows, FlowOk;
    var t := OnStop(s, cl);
    StopStreams(s, cl);
    FramesStay(s, t);
    StopFlow(s, cl);
  }

  lemma StopStreams(s: State, cl: bool)
    requires StreamsOk(s)
    ensures StreamsOk(OnStop(s, cl)) && Grows(s, OnStop(s, cl))
  {
    hide ReplyFail;
    var t := OnStop(s, cl);
    forall x | x in t.client.streams ensures ClientOk(t, x) { assert ClientOk(s, x); }
    forall x | x in t.gateway.streams ensures GatewayOk(t.gateway.streams[x]) { assert GatewayOk(s.gateway.streams[x]); }
  }

  lemma StopFlow(s: State, cl: bool)
    requires s.up.taken <= |s.up.frames| && s.down.taken <= |s.down.frames|
    requires FlowOk(s.client, s.gateway, s.up) && FlowOk(s.gateway, s.client, s.down)
    ensures var t := OnStop(s, cl);
            FlowOk(t.client, t.gateway, t.up) && FlowOk(t.gateway, t.client, t.down)
  {
    hide DataOf;
  }

  // ----- the pumps -----

  lemma PumpReadKeeps(s: State, cl: bool, sid: Sid, bytes: Chars)
    requires Inv(s) && Enabled(s, PumpRead(cl, sid, bytes))
    ensures Inv(Next(s, PumpRead(cl, sid, bytes)))
  {
    hide FlowOk, FramesOk, OpensOk, StreamsOk, ClientOk, GatewayOk, IdsOk, Grows;
    var st := Str(s, cl, sid).(pc := Holding(bytes), read := Str(s, cl, sid).read + bytes);
    var t := SetStream(s, cl, sid, st);
    StreamGrows(s, cl, sid, st);
    FramesStay(s, t);
    Bounds(s);
    PumpReadStream(s, cl, sid, bytes);
    ClientsStay(s, t, cl, sid);
    PumpReadFlow(s, cl, sid, bytes);
    PumpReadOpens(s, t);
    IdsStay(s, t);
  }

  /** The bookkeeping stands when streams stay and frames are only added. */
  lemma IdsStay(s: State, t: State)
    requires IdsOk(s) && Grows(s, t) && t.next == s.next && t.allocs == s.allocs
    requires t.client.streams.Keys == s.client.streams.Keys && t.gateway.streams.Keys == s.gateway.streams.Keys
    requires t.client.table <= s.client.table && t.gateway.table <= s.gateway.table
    requires |t.client.table| <= |s.client.table| && |t.gateway.table| <= |s.gateway.table|
    requires t.up.taken == s.up.taken && t.down.taken == s.down.taken
    requires |t.up.frames| >= |s.up.frames| && |t.down.frames| >= |s.down.frames|
    requires t.client.reader == s.client.reader && t.gateway.reader == s.gateway.reader
    ensures IdsOk(t)
  {
    forall sid | sid in t.gateway.streams ensures sid in t.client.streams && !t.client.streams[sid].pc.Opening? {
      assert sid in s.gateway.streams && Has(s, true, sid) && !Str(s, true, sid).pc.Opening?;
    }
    forall sid | sid in t.gateway.table ensures t.gateway.streams[sid].ready { assert Ready(s, false, sid); }
  }

  lemma PumpReadOpens(s: State, t: State)
    requires OpensOk(s) && t.up == s.up && t.gateway.streams.Keys == s.gateway.streams.Keys
    ensures OpensOk(t)
  {
  }

  lemma PumpReadStream(s: State, cl: bool, sid: Sid, bytes: Chars)
    requires StreamsOk(s) && Has(s, cl, sid) && Str(s, cl, sid).pc.Pumping?
    ensures var st := Str(s, cl, sid).(pc := Holding(bytes), read := Str(s, cl, sid).read + bytes);
            (cl ==> ClientOk(SetStream(s, cl, sid, st), sid)) && (!cl ==> GatewayOk(st))
  {
    hide ReplyFail;
    if cl { assert ClientOk(s, sid); } else { assert GatewayOk(s.gateway.streams[sid]); }
  }

  lemma PumpReadFlow(s: State, cl: bool, sid: Sid, bytes: Chars)
    requires s.up.taken <= |s.up.frames| && s.down.taken <= |s.down.frames|
    requires FlowOk(s.client, s.gateway, s.up) && FlowOk(s.gateway, s.client, s.down)
    requires Has(s, cl, sid) && Str(s, cl, sid).pc.Pumping?
    ensures var t := SetStream(s, cl, sid, Str(s, cl, sid).(pc := Holding(bytes), read := Str(s, cl, sid).read + bytes));
            FlowOk(t.client, t.gateway, t.up) && FlowOk(t.gateway, t.client, t.down)
  {
    hide DataOf;
    var st := Str(s, cl, sid);
    var p := if cl then s.up else s.down;
    assert Sent(st, p, sid);
    assert DataOf(p.frames, sid) + [] == DataOf(p.frames, sid);
  }

  lemma PumpSendKeeps(s: State, cl: bool, sid: Sid)
    requires Inv(s) && Enabled(s, PumpSend(cl, sid))
    ensures Inv(Next(s, PumpSend(cl, sid)))
  {
    hide FlowOk, FramesOk, OpensOk, StreamsOk, ClientOk, GatewayOk, IdsOk, Grows;
    var st := Str(s, cl, sid);
    var f := Data(sid, st.pc.bytes);
    var t := SetStream(s, cl, sid, st.(pc := Pumping));
    StreamGrows(s, cl, sid, st.(pc := Pumping));
    FramesStay(s, t);
    Bounds(s);
    PumpSendStream(s, cl, sid);
    ClientsStay(s, t, cl, sid);
    PumpReadOpens(s, t);
    PumpSendFlow(s, cl, sid);
    HoldingReady(s, cl, sid);
    SendFrames(t, cl, f);
    PlainOpens(t, cl, f);
    SendStreams(t, cl, f);
    IdsStay(s, t);
    SendIds(t, cl, f);
  }

  lemma SendIds(s: State, cl: bool, f: Frame)
    requires IdsOk(s)
    ensures IdsOk(Send(s, cl, f))
  {
  }

  lemma SendStreams(s: State, cl: bool, f: Frame)
    requires StreamsOk(s)
    ensures StreamsOk(Send(s, cl, f))
  {
    hide ReplyOk;
    SameStreams(s, Send(s, cl, f));
  }

  lemma HoldingReady(s: State, cl: bool, sid: Sid)
    requires StreamsOk(s) && Has(s, cl, sid) && Str(s, cl, sid).pc.Holding?
    ensures Str(s, cl, sid).ready
  {
    hide ReplyOk;
    if cl { assert ClientOk(s, sid); } else { assert GatewayOk(s.gateway.streams[sid]); }
  }

  lemma PumpSendStream(s: State, cl: bool, sid: Sid)
    requires StreamsOk(s) && Has(s, cl, sid) && Str(s, cl, sid).pc.Holding?
    ensures var st := Str(s, cl, sid).(pc := Pumping);
            (cl ==> ClientOk(SetStream(s, cl, sid, st), sid)) && (!cl ==> GatewayOk(st))
  {
    hide ReplyFail;
    if cl { assert ClientOk(s, sid); } else { assert GatewayOk(s.gateway.streams[sid]); }
  }

  lemma PumpSendFlow(s: State, cl: bool, sid: Sid)
    requires s.up.taken <= |s.up.frames| && s.down.taken <= |s.down.frames|
    requires FlowOk(s.client, s.gateway, s.up) && FlowOk(s.gateway, s.client, s.down)
    requires Has(s, cl, sid) && Str(s, cl, sid).pc.Holding?
    ensures var t := Next(s, PumpSend(cl, sid));
            FlowOk(t.client, t.gateway, t.up) && FlowOk(t.gateway, t.client, t.down)
  {
    hide FlowOk, Put;
    var t := Next(s, PumpSend(cl, sid));
    if cl {
      PumpSendFrom(s.client, s.gateway, s.up, sid);
      FlowTo(s.gateway, s.client, t.client, s.down);
    } else {
      PumpSendFrom(s.gateway, s.client, s.down, sid);
      FlowTo(s.client, s.gateway, t.gateway, s.up);
    }
  }

  lemma PumpSendFrom(from: Side, to: Side, p: Pipe, sid: Sid)
    requires p.taken <= |p.frames| && FlowOk(from, to, p) && sid in from.streams && from.streams[sid].pc.Holding?
    ensures var st := from.streams[sid];
            FlowOk(from.(streams := from.streams[sid := st.(pc := Pumping)]), to, Put(p, Data(sid, st.pc.bytes)))
  {
    hide DataOf, Received;
    var f := Data(sid, from.streams[sid].pc.bytes);
    var q := Put(p, f);
    forall x ensures DataOf(p.frames + [f], x) == DataOf(p.frames, x) + (if x == sid then f.bytes else []) { DataSnoc(p.frames, f, x); }
    assert (p.frames + [f])[..p.taken] == p.frames[..p.taken];
    var after := from.streams[sid := from.streams[sid].(pc := Pumping)];
    forall x | x in after ensures Sent(after[x], q, x) {
      assert Sent(from.streams[x], p, x);
      assert DataOf(q.frames, x) + [] == DataOf(q.frames, x) && DataOf(p.frames, x) + [] == DataOf(p.frames, x);
    }
  }

  /** The receiving end of a direction, with the same written bytes. */
  lemma FlowTo(from: Side, to: Side, after: Side, p: Pipe)
    requires p.taken <= |p.frames| && FlowOk(from, to, p)
    requires after.table == to.table && after.reader == to.reader && after.streams.Keys == to.streams.Keys
    requires forall x :: x in to.streams ==> after.streams[x].out == to.streams[x].out
    ensures FlowOk(from, after, p)
  {
    hide DataOf;
  }

  lemma SendOpenKeeps(s: State, sid: Sid)
    requires Inv(s) && Enabled(s, SendOpen(sid))
    ensures Inv(Next(s, SendOpen(sid)))
  {
    hide FlowOk, FramesOk, ReplyOk, Grows;
    var st := Str(s, true, sid).(pc := Waiting);
    var t := SetStream(s, true, sid, st);
    OpeningStream(s, sid);
    StreamChange(s, true, sid, st);
    var f := Open(sid);
    OpensFresh(s, sid);
    SendFrames(t, true, f);
    PlainFlow(t.client, t.gateway, t.up, f);
    SendStreams(t, true, f);
  }

  lemma OpeningStream(s: State, sid: Sid)
    requires StreamsOk(s) && Has(s, true, sid) && Str(s, true, sid).pc.Opening?
    ensures ClientOk(SetStream(s, true, sid, Str(s, true, sid).(pc := Waiting)), sid)
  {
    hide ReplyFail;
    assert ClientOk(s, sid);
  }

  /** The OPEN of a stream whose handler has not sent it is nowhere. */
  lemma OpensFresh(s: State, sid: Sid)
    requires IdsOk(s) && FramesOk(s) && OpensOk(s) && Has(s, true, sid) && Str(s, true, sid).pc.Opening?
    ensures OpensOk(Send(SetStream(s, true, sid, Str(s, true, sid).(pc := Waiting)), true, Open(sid)))
  {
    forall i | 0 <= i < |s.up.frames| && s.up.frames[i].Open? ensures s.up.frames[i].sid != sid { assert UpOk(s, s.up.frames[i]); }
  }

  // ----- new streams -----

  lemma ConnectKeeps(s: State)
    requires Inv(s) && s.allocs + 1 < SID_LIMIT
    ensures Inv(OnConnect(s))
  {
    hide FlowOk, FramesOk, OpensOk, StreamsOk, Grows;
    if MayAdd(s.client) {
      var t := OnConnect(s);
      ConnectIds(s);
      ConnectStreams(s);
      FramesStay(s, t);
      PumpReadOpens(s, t);
      ConnectFlow(s);
    }
  }

  lemma ConnectIds(s: State)
    requires IdsOk(s) && s.allocs + 1 < SID_LIMIT && MayAdd(s.client)
    ensures IdsOk(OnConnect(s))
  {
    assert s.next !in s.client.table;
    assert |s.client.table + {s.next}| == |s.client.table| + 1;
  }

  lemma ConnectStreams(s: State)
    requires IdsOk(s) && StreamsOk(s) && MayAdd(s.client)
    ensures StreamsOk(OnConnect(s)) && Grows(s, OnConnect(s))
  {
    hide ReplyOk, GatewayOk, IdsOk;
    var t := OnConnect(s);
    NewReplyOk();
    NextIsNew(s);
    forall x | x in t.client.streams ensures ClientOk(t, x) {
      if x != s.next { assert ClientOk(s, x); }
    }
  }

  lemma NewReplyOk()
    ensures ReplyOk(NewStream(Opening))
  {
  }

  lemma NextIsNew(s: State)
    requires IdsOk(s)
    ensures s.next !in s.client.streams && s.next !in s.gateway.streams && s.next !in s.client.table
    ensures s.up.taken <= |s.up.frames| && s.down.taken <= |s.down.frames|
    ensures s.client.reader.Deliver? || s.client.reader.Drop? ==> s.client.reader.sid != s.next
  {
  }

  lemma ConnectFlow(s: State)
    requires IdsOk(s) && FramesOk(s) && FlowOk(s.client, s.gateway, s.up) && FlowOk(s.gateway, s.client, s.down)
    requires MayAdd(s.client)
    ensures var t := OnConnect(s);
            FlowOk(t.client, t.gateway, t.up) && FlowOk(t.gateway, t.client, t.down)
  {
    hide DataOf, IdsOk, FlowOk;
    var sid := s.next;
    NextIsNew(s);
    forall i | 0 <= i < |s.up.frames| && s.up.frames[i].Data? ensures s.up.frames[i].sid != sid { assert UpOk(s, s.up.frames[i]); }
    forall i | 0 <= i < |s.down.frames| && s.down.frames[i].Data? ensures s.down.frames[i].sid != sid { assert DownOk(s, s.down.frames[i]); }
    NoData(s.up.frames, sid);
    NoData(s.down.frames[..s.down.taken], sid);
    NewStreamFlow(s.client, s.gateway, s.up, s.down, sid);
  }

  lemma NewStreamFlow(side: Side, other: Side, p: Pipe, q: Pipe, sid: Sid)
    requires p.taken <= |p.frames| && q.taken <= |q.frames| && FlowOk(side, other, p) && FlowOk(other, side, q)
    requires sid !in side.streams && DataOf(p.frames, sid) == [] && DataOf(q.frames[..q.taken], sid) == []
    requires side.reader.Deliver? || side.reader.Drop? ==> side.reader.sid != sid
    ensures var after := side.(streams := side.streams[sid := NewStream(Opening)], table := side.table + {sid});
            FlowOk(after, other, p) && FlowOk(other, after, q)
  {
    hide DataOf;
  }

  lemma UdpAllocKeeps(s: State)
    requires Inv(s) && s.allocs + 1 < SID_LIMIT
    ensures Inv(Next(s, UdpAlloc))
  {
    hide FlowOk, FramesOk, StreamsOk, Grows;
    SameStreams(s, Next(s, UdpAlloc));
    FramesStay(s, Next(s, UdpAlloc));
  }

  /** No data is on its way to a stream the gateway has not registered. */
  lemma NoEarlyData(s: State, sid: Sid)
    requires FramesOk(s) && StreamsOk(s) && !Ready(s, false, sid)
    ensures forall i :: 0 <= i < |s.up.frames| && s.up.frames[i].Data? ==> s.up.frames[i].sid != sid
    ensures forall i :: 0 <= i < |s.down.frames| && s.down.frames[i].Data? ==> s.down.frames[i].sid != sid
  {
    hide ReplyOk;
    forall i | 0 <= i < |s.up.frames| && s.up.frames[i].Data? ensures s.up.frames[i].sid != sid {
      assert UpOk(s, s.up.frames[i]);
      assert ClientOk(s, s.up.frames[i].sid);
    }
    forall i | 0 <= i < |s.down.frames| && s.down.frames[i].Data? ensures s.down.frames[i].sid != sid { assert DownOk(s, s.down.frames[i]); }
  }

  lemma DialedKeeps(s: State, sid: Sid)
    requires Inv(s) && Enabled(s, Dialed(sid)) && MayAdd(s.gateway)
    ensures Inv(OnDialed(s, sid))
  {
    hide FlowOk, FramesOk, OpensOk, ReplyOk, Grows;
    var t := OnDialed(s, sid);
    var st := Str(s, false, sid).(pc := Registered, ready := true);
    DialedIds(s, sid);
    StreamGrows(s, false, sid, st);
    SameGrowth(s, SetStream(s, false, sid, st), t);
    FramesStay(s, t);
    assert GatewayOk(s.gateway.streams[sid]);
    ClientsStay(s, t, false, sid);
    PumpReadOpens(s, t);
    DialedFlow(s, sid);
  }

  lemma SameGrowth(s: State, t: State, u: State)
    requires Grows(s, t) && u.client.streams == t.client.streams && u.gateway.streams == t.gateway.streams
    ensures Grows(s, u)
  {
  }

  lemma DialedIds(s: State, sid: Sid)
    requires IdsOk(s) && Has(s, false, sid) && MayAdd(s.gateway)
    ensures IdsOk(OnDialed(s, sid))
  {
    Larger(s.gateway.table, sid);
  }

  lemma DialedFlow(s: State, sid: Sid)
    requires IdsOk(s) && FramesOk(s) && StreamsOk(s) && FlowOk(s.client, s.gateway, s.up) && FlowOk(s.gateway, s.client, s.down)
    requires Has(s, false, sid) && Str(s, false, sid).pc.Dialing? && MayAdd(s.gateway)
    ensures var t := OnDialed(s, sid);
            FlowOk(t.client, t.gateway, t.up) && FlowOk(t.gateway, t.client, t.down)
  {
    hide DataOf, ReplyOk, FramesOk;
    assert GatewayOk(s.gateway.streams[sid]);
    NoEarlyData(s, sid);
    NoData(s.up.frames[..s.up.taken], sid);
    assert Received(s.gateway.streams[sid], s.gateway.reader, sid in s.gateway.table, DataOf(s.up.frames[..s.up.taken], sid), sid);
  }

  // ----- the readers -----

  function Advanced(s: State, cl: bool): State {
    if cl then s.(down := s.down.(taken := s.down.taken + 1)) else s.(up := s.up.(taken := s.up.taken + 1))
  }

  predicate CanTake(s: State, cl: bool) {
    Of(s, cl).reader.Idle? && (if cl then s.down.taken < |s.down.frames| else s.up.taken < |s.up.frames|)
  }

  function NextFrame(s: State, cl: bool): Frame
    requires CanTake(s, cl)
  {
    if cl then s.down.frames[s.down.taken] else s.up.frames[s.up.taken]
  }

  /** A frame is taken that delivers nothing. */
  lemma AdvanceKeeps(s: State, cl: bool)
    requires Inv(s) && CanTake(s, cl)
    requires NextFrame(s, cl).Data? ==> NextFrame(s, cl).sid !in Of(s, cl).table
    ensures Inv(Advanced(s, cl))
  {
    hide FlowOk, FramesOk, StreamsOk, Grows;
    SameStreams(s, Advanced(s, cl));
    FramesStay(s, Advanced(s, cl));
    if cl { AdvanceFlow(s.gateway, s.client, s.down); } else { AdvanceFlow(s.client, s.gateway, s.up); }
  }

  lemma AdvanceFlow(from: Side, to: Side, p: Pipe)
    requires p.taken < |p.frames| && FlowOk(from, to, p) && to.reader.Idle?
    requires p.frames[p.taken].Data? ==> p.frames[p.taken].sid !in to.table
    ensures FlowOk(from, to, p.(taken := p.taken + 1))
  {
    hide DataOf, Sent;
    var q := p.(taken := p.taken + 1);
    assert forall x :: x in from.streams ==> Sent(from.streams[x], q, x) by { SentIgnoresTaken(from, p, q); }
    forall x | x in to.streams
      ensures Received(to.streams[x], to.reader, x in to.table, DataOf(q.frames[..q.taken], x), x)
    {
      TakenStep(p, x);
      assert Received(to.streams[x], to.reader, x in to.table, DataOf(p.frames[..p.taken], x), x);
    }
  }

  lemma SentIgnoresTaken(from: Side, p: Pipe, q: Pipe)
    requires q.frames == p.frames && q.open == p.open
    requires forall x :: x in from.streams ==> Sent(from.streams[x], p, x)
    ensures forall x :: x in from.streams ==> Sent(from.streams[x], q, x)
  {
  }

  /** A data frame for a stream in the table. */
  lemma DeliverKeeps(s: State, cl: bool)
    requires Inv(s) && CanTake(s, cl)
    requires NextFrame(s, cl).Data? && NextFrame(s, cl).sid in Of(s, cl).table
    ensures var f := NextFrame(s, cl);
            Inv(SetReader(Advanced(s, cl), cl, Deliver(f.sid, f.bytes)))
  {
    hide FlowOk, FramesOk, StreamsOk, Grows;
    var f := NextFrame(s, cl);
    var t := SetReader(Advanced(s, cl), cl, Deliver(f.sid, f.bytes));
    SameStreams(s, t);
    FramesStay(s, t);
    if cl {
      DeliverFlow(s.gateway, s.client, s.down);
      FromReader(s.client, s.gateway, s.up, Deliver(f.sid, f.bytes));
    } else {
      DeliverFlow(s.client, s.gateway, s.up);
      FromReader(s.gateway, s.client, s.down, Deliver(f.sid, f.bytes));
    }
  }

  lemma FromReader(from: Side, to: Side, p: Pipe, r: Reader)
    requires p.taken <= |p.frames| && FlowOk(from, to, p)
    ensures FlowOk(from.(reader := r), to, p)
  {
    hide DataOf, Received, Sent;
  }

  lemma DeliverFlow(from: Side, to: Side, p: Pipe)
    requires p.taken < |p.frames| && FlowOk(from, to, p) && to.reader.Idle?
    requires p.frames[p.taken].Data? && p.frames[p.taken].sid in to.table
    ensures var f := p.frames[p.taken];
            FlowOk(from, to.(reader := Deliver(f.sid, f.bytes)), p.(taken := p.taken + 1))
  {
    hide DataOf, Sent;
    var f := p.frames[p.taken];
    var q := p.(taken := p.taken + 1);
    SentIgnoresTaken(from, p, q);
    forall x | x in to.streams
      ensures Received(to.streams[x], Deliver(f.sid, f.bytes), x in to.table, DataOf(q.frames[..q.taken], x), x)
    {
      TakenStep(p, x);
      assert Received(to.streams[x], to.reader, x in to.table, DataOf(p.frames[..p.taken], x), x);
    }
  }

  /** The gateway starts a thread for a new stream. */
  lemma OpenKeeps(s: State)
    requires Inv(s) && CanTake(s, false) && NextFrame(s, false).Open?
    ensures Inv(SetStream(Advanced(s, false), false, NextFrame(s, false).sid, NewStream(Dialing)))
  {
    hide FlowOk, FramesOk, ReplyOk, Grows;
    var sid := NextFrame(s, false).sid;
    var a := Advanced(s, false);
    var t := SetStream(a, false, sid, NewStream(Dialing));
    AdvanceKeeps(s, false);
    OpenIsNew(s);
    NewGrows(a, sid);
    FramesStay(a, t);
    ClientsStay(a, t, false, sid);
    OpenFlow(a, sid);
  }

  lemma OpenIsNew(s: State)
    requires IdsOk(s) && FramesOk(s) && OpensOk(s) && CanTake(s, false) && NextFrame(s, false).Open?
    ensures var sid := NextFrame(s, false).sid;
            && sid !in s.gateway.streams && Has(s, true, sid) && !Str(s, true, sid).pc.Opening?
            && OpensOk(SetStream(Advanced(s, false), false, sid, NewStream(Dialing)))
  {
    assert UpOk(s, s.up.frames[s.up.taken]);
  }

  lemma NewGrows(s: State, sid: Sid)
    requires sid !in s.gateway.streams
    ensures Grows(s, SetStream(s, false, sid, NewStream(Dialing)))
  {
  }

  lemma OpenFlow(s: State, sid: Sid)
    requires IdsOk(s) && FramesOk(s) && StreamsOk(s) && FlowOk(s.client, s.gateway, s.up) && FlowOk(s.gateway, s.client, s.down)
    requires sid !in s.gateway.streams && s.gateway.reader.Idle?
    ensures var t := SetStream(s, false, sid, NewStream(Dialing));
            FlowOk(t.client, t.gateway, t.up) && FlowOk(t.gateway, t.client, t.down)
  {
    hide DataOf, ReplyOk, FramesOk;
    NoEarlyData(s, sid);
    NoData(s.up.frames[..s.up.taken], sid);
    NoData(s.down.frames, sid);
  }

  lemma DeliveredKeeps(s: State, cl: bool, k: nat)
    requires Inv(s) && Enabled(s, Delivered(cl, k))
    ensures Inv(OnDelivered(s, cl, k))
  {
    hide FlowOk, FramesOk, StreamsOk, Grows, ClientOk, GatewayOk, OpensOk;
    var t := OnDelivered(s, cl, k);
    var r := Of(s, cl).reader;
    var st := Str(s, cl, r.sid).(out := Str(s, cl, r.sid).out + r.bytes[..k]);
    DeliveredStream(s, cl, r.sid, st);
    StreamGrows(s, cl, r.sid, st);
    SameGrowth(s, SetStream(s, cl, r.sid, st), t);
    FramesStay(s, t);
    ClientsStay(s, SetStream(s, cl, r.sid, st), cl, r.sid);
    SameStreams(SetStream(s, cl, r.sid, st), t);
    PumpReadOpens(s, t);
    if cl { DeliveredFlow(s.client, s.gateway, s.up, s.down, k); } else { DeliveredFlow(s.gateway, s.client, s.down, s.up, k); }
  }

  lemma DeliveredStream(s: State, cl: bool, sid: Sid, st: Stream)
    requires StreamsOk(s) && Has(s, cl, sid) && Str(s, cl, sid).ready && st == Str(s, cl, sid).(out := st.out)
    ensures (cl ==> ClientOk(SetStream(s, cl, sid, st), sid)) && (!cl ==> GatewayOk(st))
  {
    hide ReplyFail;
    if cl { assert ClientOk(s, sid); } else { assert GatewayOk(s.gateway.streams[sid]); }
  }

  /** `side` writes k bytes of what it is delivering; p is its outgoing direction, q the incoming. */
  lemma DeliveredFlow(side: Side, other: Side, p: Pipe, q: Pipe, k: nat)
    requires p.taken <= |p.frames| && q.taken <= |q.frames|
    requires FlowOk(side, other, p) && FlowOk(other, side, q)
    requires side.reader.Deliver? && side.reader.sid in side.streams && k <= |side.reader.bytes|
    ensures var r := side.reader;
            var st := side.streams[r.sid].(out := side.streams[r.sid].out + r.bytes[..k]);
            var after := side.(streams := side.streams[r.sid := st], reader := if k == |r.bytes| then Idle else Drop(r.sid));
            FlowOk(after, other, p) && FlowOk(other, after, q)
  {
    hide DataOf;
    var r := side.reader;
    var prior := side.streams[r.sid].out;
    assert r.bytes == r.bytes[..k] + r.bytes[k..];
    assert prior + r.bytes == prior + r.bytes[..k] + r.bytes[k..];
    assert prior + r.bytes[..k] <= prior + r.bytes;
    if k == |r.bytes| { assert r.bytes[..k] == r.bytes; }
  }

  // ----- every step -----

  /** Moving a handler to a state that sends nothing of its own. */
  predicate Inert(pc: Pc) { pc.Refusing? || pc.Ending? || pc.Removing? || pc.Closing? || pc.Finished? }

  lemma InertPc(s: State, cl: bool, sid: Sid, pc: Pc)
    requires Inv(s) && Has(s, cl, sid) && Inert(pc) && !Str(s, cl, sid).pc.Holding?
    ensures Inv(SetPc(s, cl, sid, pc))
  {
    hide FlowOk, FramesOk, OpensOk, IdsOk, ReplyFail;
    if cl { assert ClientOk(s, sid); } else { assert GatewayOk(s.gateway.streams[sid]); }
    StreamChange(s, cl, sid, Str(s, cl, sid).(pc := pc));
  }

  lemma TimeoutKeeps(s: State, sid: Sid, k: nat)
    requires Inv(s) && Enabled(s, Timeout(sid, k))
    ensures Inv(Next(s, Timeout(sid, k)))
  {
    hide FlowOk, FramesOk, OpensOk, IdsOk, ReplyFail;
    assert ClientOk(s, sid);
    ReplyLength(4);
    StreamChange(s, true, sid, Str(s, true, sid).(reply := ReplyFail(4)[..k], late := true, pc := Removing));
  }

  lemma ReplyLength(rep: Byte)
    ensures |ReplyFail(rep)| == |REPLY_OK| == 10
  {
  }

  lemma AnswerKeeps(s: State, sid: Sid, k: nat)
    requires Inv(s) && Enabled(s, Answer(sid, k))
    ensures Inv(OnAnswer(s, sid, k))
  {
    hide FlowOk, FramesOk, OpensOk, IdsOk, ReplyFail;
    assert ClientOk(s, sid);
    var st := Str(s, true, sid);
    if st.err.Some? {
      ReplyLength(st.err.value);
      StreamChange(s, true, sid, st.(reply := ReplyFail(st.err.value)[..k], pc := Removing));
    } else {
      ReplyLength(0);
      if k == 10 { assert REPLY_OK[..k] == REPLY_OK; }
      StreamChange(s, true, sid, st.(reply := REPLY_OK[..k], pc := if k == 10 then Greeted else GreetFailed));
    }
  }

  lemma SetReadyKeeps(s: State, sid: Sid)
    requires Inv(s) && Enabled(s, SetReady(sid))
    ensures Inv(Next(s, SetReady(sid)))
  {
    hide FlowOk, FramesOk, OpensOk, IdsOk, ReplyFail;
    assert ClientOk(s, sid);
    StreamChange(s, true, sid, Str(s, true, sid).(ready := true, pc := Pumping));
  }

  lemma SayOkKeeps(s: State, sid: Sid)
    requires Inv(s) && Enabled(s, SayOk(sid))
    ensures Inv(Next(s, SayOk(sid)))
  {
    hide FlowOk, FramesOk, OpensOk, IdsOk, ReplyOk;
    assert GatewayOk(s.gateway.streams[sid]);
    SendPlain(s, false, Ok(sid));
    StreamChange(Send(s, false, Ok(sid)), false, sid, Str(s, false, sid).(pc := Pumping));
  }

  lemma ClientFrameKeeps(s: State)
    requires Inv(s) && CanTake(s, true)
    ensures Inv(ClientFrame(Advanced(s, true), NextFrame(s, true)))
  {
    hide FlowOk, FramesOk, OpensOk, IdsOk, StreamsOk, ClientOk;
    var f := NextFrame(s, true);
    var a := Advanced(s, true);
    if f.Data? && f.sid in s.client.table {
      DeliverKeeps(s, true);
    } else {
      AdvanceKeeps(s, true);
      if f.Shut? { Drop1Keeps(a, true, f.sid); }
      if f.Ok? && f.sid in s.client.table && Has(a, true, f.sid) { AnsweredOk(s); }
      if f.Err? && f.sid in s.client.table && Has(a, true, f.sid) { AnsweredErr(a, f.sid, f.rep); }
    }
  }

  lemma AnsweredOk(s: State)
    requires Inv(s) && CanTake(s, true) && NextFrame(s, true).Ok?
    requires Inv(Advanced(s, true)) && Has(s, true, NextFrame(s, true).sid)
    ensures var a, sid := Advanced(s, true), NextFrame(s, true).sid;
            Inv(SetStream(a, true, sid, Str(a, true, sid).(connected := true)))
  {
    hide FlowOk, OpensOk, IdsOk, ReplyFail;
    var a, sid := Advanced(s, true), NextFrame(s, true).sid;
    assert DownOk(s, s.down.frames[s.down.taken]);
    assert ClientOk(a, sid);
    StreamChange(a, true, sid, Str(a, true, sid).(connected := true));
  }

  lemma AnsweredErr(s: State, sid: Sid, rep: Byte)
    requires Inv(s) && Has(s, true, sid)
    ensures Inv(SetStream(s, true, sid, Str(s, true, sid).(connected := true, err := Some(rep))))
  {
    hide FlowOk, OpensOk, IdsOk, FramesOk;
    assert ClientOk(s, sid);
    StreamChange(s, true, sid, Str(s, true, sid).(connected := true, err := Some(rep)));
  }

  lemma GatewayFrameKeeps(s: State, good: bool)
    requires Inv(s) && CanTake(s, false)
    ensures Inv(GatewayFrame(Advanced(s, false), NextFrame(s, false), good))
  {
    hide FlowOk, FramesOk, OpensOk, IdsOk, StreamsOk;
    var f := NextFrame(s, false);
    var a := Advanced(s, false);
    if f.Data? && f.sid in s.gateway.table {
      DeliverKeeps(s, false);
    } else {
      AdvanceKeeps(s, false);
      if f.Shut? { Drop1Keeps(a, false, f.sid); }
      if f.Open? && good { OpenKeeps(s); }
      if f.Open? && !good { ReaderChange(a, false, Say(Err(f.sid, Code(Failed)))); }
    }
  }

  lemma StreamStepKeeps(s: State, a: Step)
    requires Inv(s) && Enabled(s, a)
    requires a.DialFailed? || a.Dialed? || a.SayErr? || a.PumpEnd? || a.SayClose? || a.Remove?
    ensures Inv(Next(s, a))
  {
    hide FlowOk, FramesOk, OpensOk, IdsOk, StreamsOk;
    match a {
      case DialFailed(sid, why) => InertPc(s, false, sid, Refusing(Code(why)));
      case Dialed(sid) =>
        if MayAdd(s.gateway) { DialedKeeps(s, sid); } else { InertPc(s, false, sid, Refusing(Code(Failed))); }
      case SayErr(sid) =>
        SendPlain(s, false, Err(sid, Str(s, false, sid).pc.rep));
        InertPc(Send(s, false, Err(sid, Str(s, false, sid).pc.rep)), false, sid, Finished);
      case PumpEnd(cl, sid) => InertPc(s, cl, sid, Ending);
      case SayClose(cl, sid) =>
        SendPlain(s, cl, Shut(sid));
        InertPc(Send(s, cl, Shut(sid)), cl, sid, if Str(s, cl, sid).pc.Ending? then Removing else Finished);
      case Remove(cl, sid) =>
        Drop1Keeps(s, cl, sid);
        InertPc(Drop1(s, cl, sid), cl, sid, if Str(s, cl, sid).pc.GreetFailed? then Closing else Finished);
    }
  }

  lemma ReaderStepKeeps(s: State, a: Step)
    requires Inv(s) && Enabled(s, a)
    requires a.NeverReady? || a.DropStream? || a.ReaderSays? || a.SayOther?
    ensures Inv(Next(s, a))
  {
    hide FlowOk, FramesOk, OpensOk, StreamsOk;
    match a {
      case NeverReady => ReaderChange(s, true, Drop(s.client.reader.sid));
      case DropStream(cl) =>
        var sid := Of(s, cl).reader.sid;
        Drop1Keeps(s, cl, sid);
        ReaderChange(Drop1(s, cl, sid), cl, Say(Shut(sid)));
      case ReaderSays(cl) =>
        SendPlain(s, cl, Of(s, cl).reader.frame);
        ReaderChange(Send(s, cl, Of(s, cl).reader.frame), cl, Idle);
      case SayOther(cl) => SendPlain(s, cl, Other);
    }
  }

  lemma NextKeepsInv(s: State, a: Step)
    requires Inv(s) && Enabled(s, a) && Next(s, a).allocs < SID_LIMIT
    ensures Inv(Next(s, a))
  {
    hide Inv;
    match a {
      case Connect => if MayAdd(s.client) { ConnectKeeps(s); }
      case UdpAlloc => UdpAllocKeeps(s);
      case SendOpen(sid) => SendOpenKeeps(s, sid);
      case Timeout(sid, k) => TimeoutKeeps(s, sid, k);
      case Answer(sid, k) => AnswerKeeps(s, sid, k);
      case SetReady(sid) => SetReadyKeeps(s, sid);
      case SayOk(sid) => SayOkKeeps(s, sid);
      case PumpRead(cl, sid, bytes) => PumpReadKeeps(s, cl, sid, bytes);
      case PumpSend(cl, sid) => PumpSendKeeps(s, cl, sid);
      case Take(cl, good) => if cl { ClientFrameKeeps(s); } else { GatewayFrameKeeps(s, good); }
      case Delivered(cl, k) => DeliveredKeeps(s, cl, k);
      case Break(cl) => BreakKeeps(s, cl);
      case Stop(cl) => StopKeeps(s, cl);
      case NeverReady => ReaderStepKeeps(s, a);
      case DropStream(cl) => ReaderStepKeeps(s, a);
      case ReaderSays(cl) => ReaderStepKeeps(s, a);
      case SayOther(cl) => ReaderStepKeeps(s, a);
      case _ => StreamStepKeeps(s, a);
    }
  }

  lemma AllocsGrow(s: State, a: Step)
    requires Enabled(s, a)
    ensures Next(s, a).allocs >= s.allocs
  {
  }

  lemma {:induction false} RunKeepsInv(steps: seq<Step>)
    requires Run(steps).allocs < SID_LIMIT
    ensures Inv(Run(steps))
  {
    hide Inv, Enabled, Next;
    if steps == [] {
      StartOk();
    } else {
      var n := |steps| - 1;
      var s := Run(steps[..n]);
      if Enabled(s, steps[n]) { AllocsGrow(s, steps[n]); }
      RunKeepsInv(steps[..n]);
      if Enabled(s, steps[n]) { NextKeepsInv(s, steps[n]); }
    }
  }

  lemma StartOk()
    ensures Inv(START)
  {
  }

  // ----- what every run promises -----

  /** The remote of stream sid is written a prefix of what its app sent after the reply. */
  lemma RemoteSeesItsStream(steps: seq<Step>, sid: Sid)
    requires Run(steps).allocs < SID_LIMIT && Has(Run(steps), false, sid)
    ensures Has(Run(steps), true, sid) && Str(Run(steps), false, sid).out <= Str(Run(steps), true, sid).read
  {
    hide Run, FramesOk, OpensOk, StreamsOk, DataOf;
    RunKeepsInv(steps);
    OutIsSent(Run(steps), false, sid);
  }

  lemma OutIsSent(s: State, cl: bool, sid: Sid)
    requires Inv(s) && Has(s, cl, sid) && Has(s, !cl, sid)
    ensures Str(s, cl, sid).out <= Str(s, !cl, sid).read
  {
    hide DataOf, FramesOk, OpensOk, StreamsOk;
    var p := if cl then s.down else s.up;
    DataPrefix(p.frames, p.taken, sid);
    if cl {
      assert Sent(s.gateway.streams[sid], p, sid);
      assert Received(s.client.streams[sid], s.client.reader, sid in s.client.table, DataOf(p.frames[..p.taken], sid), sid);
    } else {
      assert Sent(s.client.streams[sid], p, sid);
      assert Received(s.gateway.streams[sid], s.gateway.reader, sid in s.gateway.table, DataOf(p.frames[..p.taken], sid), sid);
    }
  }

  /** At most 256 live streams on either side, all with different identifiers. */
  lemma TablesBounded(steps: seq<Step>)
    requires Run(steps).allocs < SID_LIMIT
    ensures |Run(steps).client.table| <= 256 && |Run(steps).gateway.table| <= 256
  {
    hide Run, FramesOk, OpensOk, StreamsOk, FlowOk;
    RunKeepsInv(steps);
  }
}
