/** What a bind entitles a client to, read off the trace by the kinds of bind alone: which submissions are put to the
    limiter, which deliveries are taken, and what ends the service. */
module SessionService {
  import opened Pdu
  import opened Session
  import opened MessageIds
  import opened SessionOrder
  import opened SessionSubmits
  import SessionKeepalive
  import Limiter

  /** One bind was approved, it was of one of these kinds, and the session is not over. */
  predicate InService(t: Trace, kinds: set<u32>) {
    Exits(t) == 0 && |ApprovedBinds(t)| == 1 && ApprovedBinds(t)[0] in kinds
  }

  predicate MaySubmit(t: Trace) { InService(t, {BIND_TRANSMITTER, BIND_TRANSCEIVER}) }

  predicate MayReceive(t: Trace) { InService(t, {BIND_RECEIVER, BIND_TRANSCEIVER}) }

  lemma StateServes(s: Session)
    requires Ordered(s)
    ensures (s.state == BoundTx || s.state == BoundTrx) <==> MaySubmit(s.trace)
    ensures Receiving(s.state) <==> MayReceive(s.trace)
  {
  }

  // ---------------------------------------------------------------- submissions

  /** The SUBMIT_SM requests that arrived while the client might submit, in order. */
  function DueSubmits(t: Trace): seq<Packet> {
    match t
    case Empty => []
    case Then(b, e) =>
      if e.act.Dispatched? && e.act.pdu.header.id == SUBMIT_SM && MaySubmit(b) then DueSubmits(b) + [e.act.pdu]
      else DueSubmits(b)
  }

  /** The requests that were put to the limiter. */
  function MeteredSubmits(t: Trace): seq<Packet> {
    match t
    case Empty => []
    case Then(b, e) => if e.act.Throttled? then MeteredSubmits(b) + [LastRequest(b)] else MeteredSubmits(b)
  }

  /** The requests that it let through. */
  function AdmittedSubmits(t: Trace): seq<Packet> {
    match t
    case Empty => []
    case Then(b, e) => if e.act == Throttled(true) then AdmittedSubmits(b) + [LastRequest(b)] else AdmittedSubmits(b)
  }

  predicate IsThrottle(a: Act) {
    a.Sent? && a.pdu.header.id == SUBMIT_SM_RESP && a.pdu.header.status == ESME_RTHROTTLED
  }

  predicate NoneThrottled(t: Trace) {
    t.Then? ==> NoneThrottled(t.before) && !IsThrottle(t.entry.act)
  }

  /** The state in which the last PDU was dispatched. */
  function LastState(t: Trace): SessionState {
    match t
    case Empty => Open
    case Then(b, e) => if e.act.Dispatched? then e.state else LastState(b)
  }

  /** A request is answered before the connection is closed, unless it was handled after that. A message is routed, and
      a bind reported to the server, right after it was answered ESME_ROK. */
  predicate InTurn(t: Trace) {
    t.Then? ==>
      var b, e := t.before, t.entry;
      && InTurn(b)
      && (e.act.Sent? && e.act.why.Reply? && e.state == Unbound ==> LastState(b) == Unbound)
      && (e.act.Routed? ==> b.Then? && IsOk(b.entry.act))
      && (e.act.Details? ==> b.Then? && b.entry.act.Sent? && b.entry.act.pdu.header.status == ESME_ROK)
  }

  predicate Served(c: Config, s: Session) {
    && InTurn(s.trace)
    && MeteredSubmits(s.trace) == DueSubmits(s.trace)
    && AcceptedRequests(s.trace) == AdmittedSubmits(s.trace)
    && (c.rate == 0 ==> AdmittedSubmits(s.trace) == MeteredSubmits(s.trace) && NoneThrottled(s.trace))
  }

  /** `t` has dealt with no submission since `s`. */
  predicate SameService(s: Session, t: Session) {
    && MeteredSubmits(t.trace) == MeteredSubmits(s.trace) && DueSubmits(t.trace) == DueSubmits(s.trace)
    && AcceptedRequests(t.trace) == AcceptedRequests(s.trace) && AdmittedSubmits(t.trace) == AdmittedSubmits(s.trace)
    && (NoneThrottled(s.trace) ==> NoneThrottled(t.trace)) && (InTurn(s.trace) ==> InTurn(t.trace))
  }

  /** The session can still answer what was dispatched last. */
  predicate Timely(s: Session) { s.state == Unbound ==> LastState(s.trace) == Unbound }

  lemma SameServed(c: Config, s: Session, t: Session)
    requires Served(c, s) && SameService(s, t)
    ensures Served(c, t)
  {
  }

  lemma EmitSame(s: Session, a: Act)
    requires !a.Throttled? && !IsOk(a) && !IsThrottle(a) && !(a.Dispatched? && a.pdu.header.id == SUBMIT_SM)
    requires !a.Routed? && !a.Details? && (a.Sent? && a.why.Reply? ==> Timely(s))
    ensures SameService(s, Emit(s, a))
  {
    hide MaySubmit;
    hide LastRequest;
  }

  lemma AnswerSame(s: Session, id: u32, status: u32, sequence: u32, text: Bytes)
    requires |text| <= CSTR_MAX && !(id == SUBMIT_SM_RESP && status in {ESME_ROK, ESME_RTHROTTLED}) && Timely(s)
    ensures SameService(s, Answer(s, id, status, sequence, text))
  {
    EmitSame(s, Sent(Response(id, status, sequence, text), Reply));
  }

  lemma DisconnectSame(s: Session, reason: Reason)
    ensures SameService(s, Disconnect(s, reason))
  {
    EmitSame(s.(state := Unbound), Exited(reason));
  }

  /** An admitted submission is accepted. */
  lemma AcceptServed(c: Config, s: Session, p: WholePacket)
    requires LastRequest(s.trace) == p && Timely(s)
    ensures var t := Accept(c, s, p).trace;
            && MeteredSubmits(t) == MeteredSubmits(s.trace) && DueSubmits(t) == DueSubmits(s.trace)
            && AdmittedSubmits(t) == AdmittedSubmits(s.trace)
            && AcceptedRequests(t) == AcceptedRequests(s.trace) + [p]
            && (NoneThrottled(s.trace) ==> NoneThrottled(t)) && (InTurn(s.trace) ==> InTurn(t))
  {
    hide ParseSubmitSm;
    hide MessageId;
    hide MaySubmit;
  }

  lemma RefusalSame(s: Session, p: WholePacket)
    requires Timely(s)
    ensures var t := Answer(s, SUBMIT_SM_RESP, ESME_RTHROTTLED, p.header.sequence, []).trace;
            && MeteredSubmits(t) == MeteredSubmits(s.trace) && DueSubmits(t) == DueSubmits(s.trace)
            && AdmittedSubmits(t) == AdmittedSubmits(s.trace) && AcceptedRequests(t) == AcceptedRequests(s.trace)
            && (InTurn(s.trace) ==> InTurn(t))
  {
    hide MaySubmit;
  }

  /** Where a submission stands when the limiter has spoken. */
  lemma AskedServed(s: Session, p: WholePacket, bucket: Limiter.Bucket, ok: bool)
    requires p.header.id == SUBMIT_SM && MaySubmit(s.trace)
    ensures var t := Emit(Emit(s, Dispatched(p)).(bucket := bucket), Throttled(ok)).trace;
            && LastRequest(t) == p && LastState(t) == s.state
            && DueSubmits(t) == DueSubmits(s.trace) + [p] && MeteredSubmits(t) == MeteredSubmits(s.trace) + [p]
            && AdmittedSubmits(t) == AdmittedSubmits(s.trace) + (if ok then [p] else [])
            && AcceptedRequests(t) == AcceptedRequests(s.trace)
            && (NoneThrottled(s.trace) ==> NoneThrottled(t)) && (InTurn(s.trace) ==> InTurn(t))
  {
    hide MaySubmit;
    var t := Emit(Emit(s, Dispatched(p)).(bucket := bucket), Throttled(ok)).trace;
    assert AcceptedRequests(t.before) == AcceptedRequests(s.trace) && DueSubmits(t.before) == DueSubmits(s.trace) + [p];
    assert MeteredSubmits(t.before) == MeteredSubmits(s.trace) && AdmittedSubmits(t.before) == AdmittedSubmits(s.trace);
    assert (NoneThrottled(s.trace) ==> NoneThrottled(t.before)) && (InTurn(s.trace) ==> InTurn(t.before));
  }

  /** A submission the bind does not allow is refused and goes no further. */
  lemma UnaskedServed(s: Session, p: WholePacket)
    requires p.header.id == SUBMIT_SM && !MaySubmit(s.trace)
    ensures SameService(s, Emit(s, Dispatched(p)))
  {
    hide MaySubmit;
  }

  /** A submission is put to the limiter exactly when the bind allows it. */
  lemma SubmitServed(c: Config, s: Session, p: WholePacket)
    requires Served(c, s) && Ordered(s) && p.header.id == SUBMIT_SM
    ensures Served(c, HandleSubmitSm(c, Emit(s, Dispatched(p)), p))
  {
    hide Accept;
    hide Answer;
    hide MaySubmit;
    hide Ordered;
    hide Limiter.Refill;
    hide MeteredSubmits;
    hide DueSubmits;
    hide AdmittedSubmits;
    hide AcceptedRequests;
    hide NoneThrottled;
    hide InTurn;
    StateServes(s);
    var s1 := Emit(s, Dispatched(p));
    if s.state != BoundTx && s.state != BoundTrx {
      UnaskedServed(s, p);
      AnswerSame(s1, SUBMIT_SM_RESP, ESME_RINVBNDSTS, p.header.sequence, []);
    } else {
      var (bucket, ok) := Limiter.Check(c.rate, s.bucket, s.now);
      AskedServed(s, p, bucket, ok);
      var s2 := Emit(s1.(bucket := bucket), Throttled(ok));
      if ok {
        AcceptServed(c, s2, p);
      } else {
        RefusalSame(s2, p);
      }
    }
  }

  lemma DispatchServed(c: Config, s: Session, p: WholePacket)
    requires Served(c, s) && Ordered(s)
    ensures Served(c, Dispatch(c, s, p))
  {
    hide Served;
    hide Ordered;
    hide HandleSubmitSm;
    if p.header.id == SUBMIT_SM {
      SubmitServed(c, s, p);
    } else {
      DispatchSame(c, s, p);
      SameServed(c, s, Dispatch(c, s, p));
    }
  }

  lemma DispatchSame(c: Config, s: Session, p: WholePacket)
    requires p.header.id != SUBMIT_SM
    ensures SameService(s, Dispatch(c, s, p))
  {
    hide HandleSubmitSm;
    hide Disconnect;
    hide Answer;
    hide TakeCstr;
    hide MeteredSubmits;
    hide DueSubmits;
    hide AdmittedSubmits;
    hide AcceptedRequests;
    hide NoneThrottled;
    hide InTurn;
    EmitSame(s, Dispatched(p));
    var s1, h := Emit(s, Dispatched(p)), p.header;
    if IsBind(h.id) {
      EmitSame(s1, BindCall(p.body));
      AnswerSame(s1, ResponseId(h.id), ESME_RALYBND, h.sequence, []);
    } else if h.id == UNBIND {
      AnswerSame(s1, UNBIND_RESP, ESME_ROK, h.sequence, []);
      DisconnectSame(Answer(s1, UNBIND_RESP, ESME_ROK, h.sequence, []), UnbindRequest);
    } else if h.id == ENQUIRE_LINK {
      AnswerSame(s1, ENQUIRE_LINK_RESP, ESME_ROK, h.sequence, []);
    } else if h.id != ENQUIRE_LINK_RESP && h.id != DELIVER_SM_RESP {
      AnswerSame(s1, GENERIC_NACK, ESME_RINVCMDID, h.sequence, []);
    }
  }

  lemma DetailsSame(s: Session, h: BindHeader, systemId: Bytes)
    ensures var t := Answer(s, ResponseId(h.id), ESME_ROK, h.sequence, SERVER_NAME);
            SameService(t, Emit(t, Details(systemId, s.state)))
  {
    hide MaySubmit;
    hide LastRequest;
  }

  lemma FinishBindSame(s: Session, h: BindHeader, systemId: Bytes, r: AuthResult)
    requires s.state != Unbound
    ensures SameService(s, FinishBind(s, h, systemId, r))
  {
    hide Answer;
    hide Disconnect;
    hide MeteredSubmits;
    hide DueSubmits;
    hide AdmittedSubmits;
    hide AcceptedRequests;
    hide NoneThrottled;
    hide InTurn;
    var ok := r.Approves();
    EmitSame(s.(io := Ready), Authenticated(h.id, r));
    var s1 := Emit(s.(io := Ready), Authenticated(h.id, r));
    if ok {
      var s2 := s1.(systemId := systemId, state := BoundState(h.id));
      AnswerSame(s2, ResponseId(h.id), ESME_ROK, h.sequence, SERVER_NAME);
      DetailsSame(s2, h, systemId);
    } else {
      var code := if r.AuthAnswer? then r.code else ESME_RINVSYSID;
      AnswerSame(s1, ResponseId(h.id), code, h.sequence, []);
      DisconnectSame(Answer(s1, ResponseId(h.id), code, h.sequence, []), AuthFailed);
    }
  }

  lemma IntervalSame(c: Config, s: Session)
    ensures SameService(s, OnInterval(c, s))
  {
    hide Response;
    hide NextEnquireSeq;
    var q := NextEnquireSeq(s.elSeq);
    IntervalAct(q);
    EmitSame(s.(elSeq := q, elPending := true), Sent(Response(ENQUIRE_LINK, ESME_ROK, q, []), KeepAlive));
  }

  lemma IntervalAct(q: u32)
    ensures Response(ENQUIRE_LINK, ESME_ROK, q, []).header.id == ENQUIRE_LINK
  {
  }

  lemma HandlerServed(c: Config, s: Session, h: Handler)
    requires Served(c, s) && Ordered(s)
    ensures Served(c, RunHandler(c, s, h))
  {
    hide Dispatch;
    hide Disconnect;
    hide DecodeHeader;
    hide OnInterval;
    hide Ordered;
    hide MeteredSubmits;
    hide DueSubmits;
    hide AdmittedSubmits;
    hide AcceptedRequests;
    hide NoneThrottled;
    hide InTurn;
    match h
    case HeaderDone(buf) =>
      if DecodeHeader(buf).length == HEADER_SIZE {
        DispatchServed(c, s, Packet(DecodeHeader(buf), []));
      }
      DisconnectSame(s, InvalidLength);
    case HeaderFailed => DisconnectSame(s, SocketClosed);
    case BodyDone(p) => DispatchServed(c, s, p);
    case BodyFailed(_) => DisconnectSame(s, BodyRead);
    case IntervalFired => IntervalSame(c, s);
    case ReplyFired => DisconnectSame(s, EnquireTimeout);
    case DisconnectPosted => DisconnectSame(s, Requested);
    case _ =>
  }

  lemma SendSame(s: Session, k: nat)
    requires k < |s.inFlight|
    ensures SameService(s, SendDelivery(s, k))
  {
    hide DeliverBody;
    hide MaySubmit;
    hide LastRequest;
  }

  lemma StepServed(c: Config, s: Session, e: Event)
    requires Served(c, s) && Ordered(s) && Enabled(s, e)
    ensures Served(c, Step(c, s, e))
  {
    hide RunHandler;
    hide FinishBind;
    hide SendDelivery;
    hide MeteredSubmits;
    hide DueSubmits;
    hide AdmittedSubmits;
    hide AcceptedRequests;
    hide NoneThrottled;
    hide InTurn;
    match e
    case RunNext => HandlerServed(c, s.(ready := s.ready[1..]), s.ready[0]);
    case AuthReturns(r) => FinishBindSame(s, s.io.header, s.io.systemId, r);
    case DeliverSend(k) => SendSame(s, k);
    case _ =>
  }

  lemma {:induction false} RunServed(c: Config, r: Run)
    requires Valid(c, r)
    ensures Served(c, Exec(c, r))
  {
    hide Step;
    hide Enabled;
    hide Ordered;
    if r.Next? {
      RunServed(c, r.prev);
      RunOrdered(c, r.prev);
      StepServed(c, Exec(c, r.prev), r.event);
    }
  }

  /** In every run requests are answered, routed and reported in turn. */
  lemma EverythingInTurn(c: Config, r: Run)
    requires Valid(c, r)
    ensures InTurn(Exec(c, r).trace)
  {
    RunServed(c, r);
  }

  /** In every run the submissions put to the limiter are those that arrived after a bind as transmitter or transceiver
      had been approved and before the end, and those it lets through are the ones answered ESME_ROK. */
  lemma SubmitsServed(c: Config, r: Run)
    requires Valid(c, r)
    ensures var t := Exec(c, r).trace;
            MeteredSubmits(t) == DueSubmits(t) && AcceptedRequests(t) == AdmittedSubmits(t)
  {
    RunServed(c, r);
  }

  /** Without a limit, in every run, every one of them is accepted and routed, and none is throttled. */
  lemma UnlimitedServed(c: Config, r: Run)
    requires Valid(c, r) && c.rate == 0 && NulFree(c.uuid)
    ensures var t := Exec(c, r).trace;
            && AcceptedRequests(t) == DueSubmits(t) && |Routes(t)| == |DueSubmits(t)|
            && NoneThrottled(t)
  {
    hide Step;
    hide MeteredSubmits;
    hide DueSubmits;
    hide AdmittedSubmits;
    hide AcceptedRequests;
    hide Routes;
    hide ToldIds;
    hide Wanted;
    RunServed(c, r);
    SubmitsAccounted(c, r);
  }

  // ---------------------------------------------------------------- deliveries

  /** In every run a delivery is taken exactly after a bind as receiver or transceiver, until the end. */
  lemma DeliveryTakenExactly(c: Config, r: Run, call: Delivery)
    requires Valid(c, r)
    ensures var s := Exec(c, r);
            var t := Step(c, s, DeliverCheck(call));
            if MayReceive(s.trace) then t == s.(inFlight := s.inFlight + [InFlight(call, s.state)]) else t == s
  {
    RunOrdered(c, r);
    StateServes(Exec(c, r));
  }

  // ---------------------------------------------------------------- the end

  /** What ends a session: a refused or failed authentication, an UNBIND, a header that is too short, a read that fails,
      an enquiry left unanswered when its timer has fired, and a Disconnect. */
  predicate IsLast(s: Session, e: Event)
    requires Enabled(s, e)
  {
    match e
    case AuthReturns(r) => r.AuthError? || !r.ok
    case RunNext =>
      (match s.ready[0]
       case HeaderDone(buf) =>
         DecodeHeader(buf).length < HEADER_SIZE
         || (DecodeHeader(buf).length == HEADER_SIZE && DecodeHeader(buf).id == UNBIND)
       case HeaderFailed => true
       case BodyDone(p) => p.header.id == UNBIND
       case BodyFailed(_) => true
       case ReplyFired => SessionKeepalive.Unanswered(s.trace).Asked?
       case DisconnectPosted => true
       case _ => false)
    case _ => false
  }

  lemma SubmitGoesOn(c: Config, s: Session, p: WholePacket)
    ensures var t := HandleSubmitSm(c, s, p); t.state == s.state && t.ready == s.ready
  {
    hide ParseSubmitSm;
    hide MessageId;
    hide Limiter.Check;
    hide Response;
  }

  lemma DispatchEnds(c: Config, s: Session, p: WholePacket)
    ensures Dispatch(c, s, p).state == if p.header.id == UNBIND then Unbound else s.state
    ensures s.ready <= Dispatch(c, s, p).ready
  {
    hide HandleSubmitSm;
    hide Response;
    hide TakeCstr;
    SubmitGoesOn(c, Emit(s, Dispatched(p)), p);
  }

  lemma HandlerEnds(c: Config, s: Session)
    requires Enabled(s, RunNext) && s.state != Unbound && SessionKeepalive.Asking(s)
    ensures Step(c, s, RunNext).state == if IsLast(s, RunNext) then Unbound else s.state
  {
    hide Dispatch;
    hide DecodeHeader;
    hide Response;
    hide SessionKeepalive.Unanswered;
    var t := s.(ready := s.ready[1..]);
    match s.ready[0]
    case HeaderDone(buf) =>
      if DecodeHeader(buf).length == HEADER_SIZE {
        DispatchEnds(c, t, Packet(DecodeHeader(buf), []));
      }
    case BodyDone(p) => DispatchEnds(c, t, p);
    case _ =>
  }

  lemma StepEnds(c: Config, s: Session, e: Event)
    requires Enabled(s, e) && s.state != Unbound && SessionKeepalive.Asking(s)
    ensures var t := Step(c, s, e);
            && (t.state == Unbound <==> IsLast(s, e))
            && (t.state == s.state || t.state == Unbound || (e.AuthReturns? && e.result.Approves()))
  {
    hide RunHandler;
    hide Response;
    hide Deliver;
    hide SessionKeepalive.Unanswered;
    if e.RunNext? {
      HandlerEnds(c, s);
    }
  }

  /** In every run a live session ends with the next step exactly when that is one of those, and only an approved bind
      changes its state otherwise. */
  lemma EndsExactly(c: Config, r: Run, e: Event)
    requires Valid(c, r) && Enabled(Exec(c, r), e) && Exec(c, r).state != Unbound
    ensures var s, t := Exec(c, r), Step(c, Exec(c, r), e);
            && (t.state == Unbound <==> IsLast(s, e))
            && (t.state == s.state || t.state == Unbound || (e.AuthReturns? && e.result.Approves()))
  {
    hide Step;
    hide Enabled;
    hide IsLast;
    hide SessionKeepalive.Asking;
    SessionKeepalive.RunKeeps(c, r);
    StepEnds(c, Exec(c, r), e);
  }

  /** Handlers only add to the queue. */
  lemma HandlerAppends(c: Config, s: Session, h: Handler)
    ensures s.ready <= RunHandler(c, s, h).ready
  {
    hide Dispatch;
    hide DecodeHeader;
    hide Response;
    match h
    case HeaderDone(buf) =>
      if DecodeHeader(buf).length == HEADER_SIZE {
        DispatchEnds(c, s, Packet(DecodeHeader(buf), []));
      }
    case BodyDone(p) => DispatchEnds(c, s, p);
    case _ =>
  }

  lemma StepAppends(c: Config, s: Session, e: Event)
    requires Enabled(s, e)
    ensures (if e.RunNext? then s.ready[1..] else s.ready) <= Step(c, s, e).ready
  {
    hide RunHandler;
    hide Response;
    hide Deliver;
    if e.RunNext? {
      HandlerAppends(c, s.(ready := s.ready[1..]), s.ready[0]);
    }
  }

  lemma DisconnectKept(c: Config, r: Run, e: Event)
    requires Valid(c, r) && Enabled(Exec(c, r), e)
    requires Exec(c, r).state == Unbound || DisconnectPosted in Exec(c, r).ready
    ensures Step(c, Exec(c, r), e).state == Unbound || DisconnectPosted in Step(c, Exec(c, r), e).ready
  {
    hide Step;
    hide Exec;
    hide Ordered;
    var s := Exec(c, r);
    RunOrdered(c, r);
    StepOrdered(c, s, e);
    StepAppends(c, s, e);
    if s.state != Unbound {
      EndsExactly(c, r, e);
    }
  }

  /** A Disconnect that was asked for is not lost: it waits in the queue until the session is over. */
  lemma {:induction false} DisconnectNotLost(c: Config, a: Run, r: Run)
    requires Valid(c, r) && Earlier(Next(a, PostDisconnect), r)
    ensures Exec(c, r).state == Unbound || DisconnectPosted in Exec(c, r).ready
  {
    if r == Next(a, PostDisconnect) {
      var q := Exec(c, r).ready;
      assert q[|q| - 1] == DisconnectPosted;
    } else {
      hide Step;
      DisconnectNotLost(c, a, r.prev);
      DisconnectKept(c, r.prev, r.event);
    }
  }
}
