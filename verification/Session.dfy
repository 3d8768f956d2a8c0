/** One client session as a transition system.

    The io thread runs completed handlers one at a time from a first-in first-out queue. Everything a
    handler starts is outstanding until the environment completes it: the one socket read, the keepalive
    interval wait, the wait for a keepalive reply. `Authenticate` is a blocking call, so a bind is split
    there: D-Bus calls, arriving bytes and expiring timers go on while the io thread waits for the answer.
    `DeliverSm` runs on the D-Bus thread beside all this, in two steps, a state check and a send.

    What the session does is recorded in a trace, each entry with the time and the session state at that
    moment. `Step` is the meaning of the methods of class SmppSession. */
module Session {
  import opened Pdu
  import opened MessageIds
  import Limiter

  datatype SessionState = Open | BoundTx | BoundRx | BoundTrx | Unbound

  /** What the session is created with. Zero disables the keepalive, and the limiter. */
  datatype Config = Config(uuid: Bytes, interval: nat, timeout: nat, rate: nat)

  // ---------------------------------------------------------------- what is recorded

  type WholePacket = p: Packet | p.WellFormed() witness Packet(Header(HEADER_SIZE, 0, 0, 0), [])

  /** Who asked for a delivery: the `nth` message routed by session `from`. */
  datatype Origin = Origin(from: Bytes, nth: nat)
  datatype Message = Message(src: Bytes, dst: Bytes, msg: Bytes, origin: Origin)

  /** The PDU builder allocates with a 32-bit size, so no larger call can be served. */
  type Delivery = m: Message | FitsPdu(m.src, m.dst, m.msg) witness Message([], [], [], Origin([], 0))

  datatype Why = Reply | KeepAlive | Delivering(call: Delivery, checked: SessionState)

  datatype Reason =
    | SocketClosed | InvalidLength | BodyRead | AuthFailed | UnbindRequest | Requested | EnquireTimeout

  /** What `Authenticate` came back with: an answer, or a failed call. */
  datatype AuthResult = AuthAnswer(ok: bool, code: u32) | AuthError {
    predicate Approves() { AuthAnswer? && ok }
  }

  datatype Act =
    | Dispatched(pdu: WholePacket)
    | Sent(pdu: WholePacket, why: Why)
    | AuthCall(systemId: Bytes, password: Bytes)
    | Authenticated(command: u32, result: AuthResult)
    | Throttled(admitted: bool)
    | Routed(src: Bytes, dst: Bytes, msg: Bytes, id: Bytes)
    | Details(systemId: Bytes, shown: SessionState)
    | Exited(reason: Reason)

  datatype Entry = Entry(at: real, state: SessionState, act: Act)

  /** Oldest entry innermost. */
  datatype Trace = Empty | Then(before: Trace, entry: Entry)

  // ---------------------------------------------------------------- the state

  type HeaderBytes = b: Bytes | |b| == HEADER_SIZE witness seq(HEADER_SIZE, i => 0)

  type LongHeader = h: Header | h.length > HEADER_SIZE witness Header(17, 0, 0, 0)
  type BindHeader = h: Header | IsBind(h.id) witness Header(HEADER_SIZE, BIND_TRANSMITTER, 0, 0)

  /** A completed operation whose handler waits for the io thread. */
  datatype Handler =
    | HeaderDone(buf: HeaderBytes) | HeaderFailed
    | BodyDone(pdu: WholePacket) | BodyFailed(header: LongHeader)
    | IntervalFired | IntervalCancelled
    | ReplyFired | ReplyCancelled
    | DisconnectPosted

  datatype Reading = NoRead | ReadingHeader | ReadingBody(header: LongHeader)
  datatype Wait = NoWait | Until(due: real)
  datatype IoThread = Ready | Authenticating(header: BindHeader, systemId: Bytes)
  datatype InFlight = InFlight(call: Delivery, checked: SessionState)

  /** The descriptor is open exactly while the state is not `Unbound`: do_disconnect changes both. */
  datatype Session = Session(
    state: SessionState,
    systemId: Bytes,
    elSeq: u32, elPending: bool, interval: Wait, reply: Wait,
    msgSeq: u32, deliverSeq: u32,
    bucket: Limiter.Bucket,
    reading: Reading, input: Bytes, unread: Bytes,
    ready: seq<Handler>, io: IoThread, inFlight: seq<InFlight>,
    now: real,
    trace: Trace)

  /** A session that has been created and started at time `now`. */
  function Started(c: Config, now: real): Session {
    Session(Open, [], 0, false, if c.interval > 0 then Until(now + c.interval as real) else NoWait, NoWait,
            0, 0x2000_0000, Limiter.After(c.rate, now, Limiter.NoCalls),
            ReadingHeader, [], [], [], Ready, [], now, Empty)
  }

  // ---------------------------------------------------------------- small steps

  function Wrapped(n: nat): u32 { n % 0x1_0000_0000 }

  function Emit(s: Session, a: Act): Session {
    s.(trace := Then(s.trace, Entry(s.now, s.state, a)))
  }

  function Answer(s: Session, id: u32, status: u32, sequence: u32, text: Bytes): Session
    requires |text| <= CSTR_MAX
  {
    Emit(s, Sent(Response(id, status, sequence, text), Reply))
  }

  function Push(s: Session, h: Handler): Session { s.(ready := s.ready + [h]) }

  function Disconnect(s: Session, reason: Reason): Session {
    if s.state == Unbound then s else Emit(s.(state := Unbound), Exited(reason))
  }

  function ReadHeader(s: Session): Session { s.(reading := ReadingHeader) }

  // ---------------------------------------------------------------- keepalive

  /** Setting a new expiry cancels a wait that is still outstanding. */
  function ScheduleEnquireLink(c: Config, s: Session): Session {
    var s1 := if s.interval.Until? then Push(s, IntervalCancelled) else s;
    s1.(interval := Until(s.now + c.interval as real))
  }

  function CancelReplyWait(s: Session): Session {
    if s.reply.Until? then Push(s, ReplyCancelled).(reply := NoWait) else s
  }

  function ArmReplyWait(c: Config, s: Session): Session {
    CancelReplyWait(s).(reply := Until(s.now + c.timeout as real))
  }

  function NextEnquireSeq(last: u32): u32 {
    if last == 0 then 0x1000_0000 else Wrapped(last + 1)
  }

  function OnInterval(c: Config, s: Session): Session {
    if s.elPending || s.state == Unbound then s
    else
      var q := NextEnquireSeq(s.elSeq);
      var s1 := s.(elSeq := q, elPending := true);
      ArmReplyWait(c, Emit(s1, Sent(Response(ENQUIRE_LINK, ESME_ROK, q, []), KeepAlive)))
  }

  function OnReplyTimeout(s: Session): Session {
    if s.elPending then Disconnect(s, EnquireTimeout) else s
  }

  function HandleEnquireLinkResp(c: Config, s: Session, h: Header): Session {
    if h.sequence == s.elSeq && s.elPending then
      ScheduleEnquireLink(c, CancelReplyWait(s.(elPending := false)))
    else s
  }

  // ---------------------------------------------------------------- requests

  predicate IsBind(id: u32) {
    id == BIND_TRANSMITTER || id == BIND_RECEIVER || id == BIND_TRANSCEIVER
  }

  function BoundState(id: u32): SessionState
    requires IsBind(id)
  {
    if id == BIND_TRANSMITTER then BoundTx else if id == BIND_RECEIVER then BoundRx else BoundTrx
  }

  /** The call of `Authenticate` a bind makes: its first two strings are the system id and the password. */
  function BindCall(body: Bytes): Act {
    var (systemId, rest) := TakeCstr(body);
    AuthCall(systemId, TakeCstr(rest).0)
  }

  /** The part of handle_bind before the call to `Authenticate`. */
  function HandleBind(s: Session, p: WholePacket): Session
    requires IsBind(p.header.id)
  {
    if s.state != Open then
      Answer(s, ResponseId(p.header.id), ESME_RALYBND, p.header.sequence, [])
    else
      Emit(s, BindCall(p.body)).(io := Authenticating(p.header, TakeCstr(p.body).0))
  }

  const SERVER_NAME: Bytes := [115, 109, 112, 112, 45, 115, 101, 114, 118, 101, 114]

  /** The part of handle_bind after it. The state is written without being checked again. */
  function FinishBind(s: Session, h: BindHeader, systemId: Bytes, r: AuthResult): Session {
    var s1 := Emit(s.(io := Ready), Authenticated(h.id, r));
    if !r.Approves() then
      var code := if r.AuthAnswer? then r.code else ESME_RINVSYSID;
      Disconnect(Answer(s1, ResponseId(h.id), code, h.sequence, []), AuthFailed)
    else
      var s2 := s1.(systemId := systemId, state := BoundState(h.id));
      Emit(Answer(s2, ResponseId(h.id), ESME_ROK, h.sequence, SERVER_NAME), Details(systemId, s2.state))
  }

  function HandleUnbind(s: Session, h: Header): Session {
    Disconnect(Answer(s, UNBIND_RESP, ESME_ROK, h.sequence, []), UnbindRequest)
  }

  /** A submit_sm that passed the state check and the limiter: numbered, answered and routed. */
  function Accept(c: Config, s: Session, p: WholePacket): Session {
    var sm := ParseSubmitSm(p.body);
    var s1 := s.(msgSeq := Wrapped(s.msgSeq + 1));
    var id := MessageId(c.uuid, s1.msgSeq);
    Emit(Answer(s1, SUBMIT_SM_RESP, ESME_ROK, p.header.sequence, id),
         Routed(sm.source.addr, sm.dest.addr, sm.shortMessage, id))
  }

  function HandleSubmitSm(c: Config, s: Session, p: WholePacket): Session {
    if s.state != BoundTx && s.state != BoundTrx then
      Answer(s, SUBMIT_SM_RESP, ESME_RINVBNDSTS, p.header.sequence, [])
    else
      var (bucket, ok) := Limiter.Check(c.rate, s.bucket, s.now);
      var s1 := Emit(s.(bucket := bucket), Throttled(ok));
      if ok then Accept(c, s1, p)
      else Answer(s1, SUBMIT_SM_RESP, ESME_RTHROTTLED, p.header.sequence, [])
  }

  function Dispatch(c: Config, s0: Session, p: WholePacket): Session {
    var s := Emit(s0, Dispatched(p));
    var id := p.header.id;
    if IsBind(id) then HandleBind(s, p)
    else if id == UNBIND then HandleUnbind(s, p.header)
    else if id == ENQUIRE_LINK then Answer(s, ENQUIRE_LINK_RESP, ESME_ROK, p.header.sequence, [])
    else if id == SUBMIT_SM then HandleSubmitSm(c, s, p)
    else if id == ENQUIRE_LINK_RESP then HandleEnquireLinkResp(c, s, p.header)
    else if id == DELIVER_SM_RESP then s
    else Answer(s, GENERIC_NACK, ESME_RINVCMDID, p.header.sequence, [])
  }

  /** After a dispatch the next header is read, once the io thread is free again. */
  function Received(c: Config, s: Session, p: WholePacket): Session {
    var s1 := Dispatch(c, s, p);
    if s1.io.Ready? then ReadHeader(s1) else s1
  }

  function OnHeader(c: Config, s: Session, buf: HeaderBytes): Session {
    var h := DecodeHeader(buf);
    if h.length < HEADER_SIZE then Disconnect(s, InvalidLength)
    else if h.length == HEADER_SIZE then Received(c, s, Packet(h, []))
    else s.(reading := ReadingBody(h))
  }

  function RunHandler(c: Config, s: Session, h: Handler): Session {
    match h
    case HeaderDone(buf) => OnHeader(c, s, buf)
    case HeaderFailed => Disconnect(s, SocketClosed)
    case BodyDone(p) => Received(c, s, p)
    case BodyFailed(_) => Disconnect(s, BodyRead)
    case IntervalFired => OnInterval(c, s)
    case IntervalCancelled => s
    case ReplyFired => OnReplyTimeout(s)
    case ReplyCancelled => s
    case DisconnectPosted => Disconnect(s, Requested)
  }

  // ---------------------------------------------------------------- D-Bus calls

  /** The name a state goes by in the server's table. */
  function StateName(st: SessionState): string {
    match st
    case Open => "OPEN"
    case BoundTx => "BOUND_TX"
    case BoundRx => "BOUND_RX"
    case BoundTrx => "BOUND_TRX"
    case Unbound => "UNBOUND"
  }

  predicate Receiving(st: SessionState) { st == BoundRx || st == BoundTrx }

  /** DeliverSm up to the release of the state lock. A call in any other state fails. */
  function CheckDelivery(s: Session, call: Delivery): Session {
    if Receiving(s.state) then s.(inFlight := s.inFlight + [InFlight(call, s.state)]) else s
  }

  /** The rest of DeliverSm. */
  function SendDelivery(s: Session, k: nat): Session
    requires k < |s.inFlight|
  {
    var f := s.inFlight[k];
    var pdu := Deliver(s.deliverSeq, Address(0, 0, f.call.src), Address(0, 0, f.call.dst), f.call.msg);
    Emit(s.(deliverSeq := Wrapped(s.deliverSeq + 1), inFlight := s.inFlight[..k] + s.inFlight[k + 1..]),
         Sent(pdu, Delivering(f.call, f.checked)))
  }

  // ---------------------------------------------------------------- transitions

  datatype Event =
    | Tick(now: real)
    | Arrive(chunk: Bytes)
    | ReadDone
    | ReadFailed
    | IntervalExpires
    | ReplyExpires
    | RunNext
    | AuthReturns(result: AuthResult)
    | PostDisconnect
    | DeliverCheck(call: Delivery)
    | DeliverSend(k: nat)

  function ReadSize(r: Reading): nat {
    if r.ReadingBody? then r.header.length - HEADER_SIZE else HEADER_SIZE
  }

  predicate Enabled(s: Session, e: Event) {
    match e
    case Tick(now) => now >= s.now
    case Arrive(_) => true
    case ReadDone =>
      s.state != Unbound && !s.reading.NoRead? && |s.unread| >= ReadSize(s.reading)
    case ReadFailed => !s.reading.NoRead?
    case IntervalExpires => s.interval.Until? && s.now >= s.interval.due
    case ReplyExpires => s.reply.Until? && s.now >= s.reply.due
    case RunNext => s.io.Ready? && s.ready != []
    case AuthReturns(_) => s.io.Authenticating?
    case PostDisconnect => true
    case DeliverCheck(_) => true
    case DeliverSend(k) => k < |s.inFlight|
  }

  function CompleteRead(s: Session): Session
    requires Enabled(s, ReadDone)
  {
    var n := ReadSize(s.reading);
    var got := s.unread[..n];
    var h := if s.reading.ReadingHeader? then HeaderDone(got) else BodyDone(Packet(s.reading.header, got));
    Push(s.(reading := NoRead, unread := s.unread[n..]), h)
  }

  function FailRead(s: Session): Session
    requires Enabled(s, ReadFailed)
  {
    Push(s.(reading := NoRead), if s.reading.ReadingHeader? then HeaderFailed else BodyFailed(s.reading.header))
  }

  function Step(c: Config, s: Session, e: Event): Session
    requires Enabled(s, e)
  {
    match e
    case Tick(now) => s.(now := now)
    case Arrive(chunk) => s.(input := s.input + chunk, unread := s.unread + chunk)
    case ReadDone => CompleteRead(s)
    case ReadFailed => FailRead(s)
    case IntervalExpires => Push(s.(interval := NoWait), IntervalFired)
    case ReplyExpires => Push(s.(reply := NoWait), ReplyFired)
    case RunNext => RunHandler(c, s.(ready := s.ready[1..]), s.ready[0])
    case AuthReturns(r) => ReadHeader(FinishBind(s, s.io.header, s.io.systemId, r))
    case PostDisconnect => Push(s, DisconnectPosted)
    case DeliverCheck(call) => CheckDelivery(s, call)
    case DeliverSend(k) => SendDelivery(s, k)
  }

  // ---------------------------------------------------------------- runs

  /** A run is the events so far, oldest innermost. */
  datatype Run = Begin(start: real) | Next(prev: Run, event: Event)

  predicate Valid(c: Config, r: Run)
    decreases r, 0
  {
    match r
    case Begin(_) => true
    case Next(p, e) => Valid(c, p) && Enabled(Exec(c, p), e)
  }

  /** The session after a run. */
  function Exec(c: Config, r: Run): Session
    requires Valid(c, r)
    decreases r, 1
  {
    match r
    case Begin(t) => Started(c, t)
    case Next(p, e) => Step(c, Exec(c, p), e)
  }

  function StartTime(r: Run): real {
    match r
    case Begin(t) => t
    case Next(p, _) => StartTime(p)
  }

  /** `a` is `r` or what it was some events ago. */
  predicate Earlier(a: Run, r: Run) {
    a == r || (r.Next? && Earlier(a, r.prev))
  }
}
