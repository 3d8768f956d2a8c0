/** Accepted messages: how submit_sm responses, RouteMessage calls, message ids and the limiter agree. */
module SessionSubmits {
  import opened Pdu
  import opened Session
  import opened MessageIds
  import Limiter

  datatype Route = Route(src: Bytes, dst: Bytes, msg: Bytes, id: Bytes)

  /** The RouteMessage calls, in order. */
  function Routes(t: Trace): seq<Route> {
    match t
    case Empty => []
    case Then(b, e) =>
      if e.act.Routed? then Routes(b) + [Route(e.act.src, e.act.dst, e.act.msg, e.act.id)] else Routes(b)
  }

  /** The PDU dispatched last. */
  function LastRequest(t: Trace): Packet {
    match t
    case Empty => Packet(Header(0, 0, 0, 0), [])
    case Then(b, e) => if e.act.Dispatched? then e.act.pdu else LastRequest(b)
  }

  predicate IsOk(a: Act) {
    a.Sent? && a.pdu.header.id == SUBMIT_SM_RESP && a.pdu.header.status == ESME_ROK
  }

  /** The SUBMIT_SM requests that were answered ESME_ROK, in order. */
  function AcceptedRequests(t: Trace): seq<Packet> {
    match t
    case Empty => []
    case Then(b, e) => if IsOk(e.act) then AcceptedRequests(b) + [LastRequest(b)] else AcceptedRequests(b)
  }

  /** The message ids the client was told, read from the response bodies. */
  function ToldIds(t: Trace): seq<Bytes> {
    match t
    case Empty => []
    case Then(b, e) => if IsOk(e.act) then ToldIds(b) + [TakeCstr(e.act.pdu.body).0] else ToldIds(b)
  }

  /** What a request asks to have routed, with the id given to it. */
  function Wanted(p: Packet, id: Bytes): Route {
    var sm := ParseSubmitSm(p.body);
    Route(sm.source.addr, sm.dest.addr, sm.shortMessage, id)
  }

  /** Acceptance happens only while the session may transmit, and answers a SUBMIT_SM with its own number
      and nothing but the message id. */
  predicate WellPlaced(t: Trace) {
    t.Then? ==>
      && WellPlaced(t.before)
      && (IsOk(t.entry.act) || t.entry.act.Routed? || t.entry.act.Throttled? ==>
            t.entry.state == BoundTx || t.entry.state == BoundTrx)
      && (IsOk(t.entry.act) ==>
            && LastRequest(t.before).header.id == SUBMIT_SM
            && LastRequest(t.before).header.sequence == t.entry.act.pdu.header.sequence
            && TakeCstr(t.entry.act.pdu.body).1 == [])
  }

  predicate Accounted(c: Config, s: Session) {
    var rs, qs, ids := Routes(s.trace), AcceptedRequests(s.trace), ToldIds(s.trace);
    && |rs| == |qs| == |ids|
    && (forall k | 0 <= k < |rs| :: ids[k] == NthId(c.uuid, k) && rs[k] == Wanted(qs[k], ids[k]))
    && s.msgSeq == Wrapped(|rs|)
    && WellPlaced(s.trace)
  }

  /** `t` has accepted nothing since `s`. */
  predicate SameAccounts(s: Session, t: Session) {
    && Routes(t.trace) == Routes(s.trace) && AcceptedRequests(t.trace) == AcceptedRequests(s.trace)
    && ToldIds(t.trace) == ToldIds(s.trace) && t.msgSeq == s.msgSeq
    && (WellPlaced(s.trace) ==> WellPlaced(t.trace))
  }

  /** `t` has accepted at most one message since `s`. */
  predicate Grown(s: Session, t: Session) {
    && Routes(s.trace) <= Routes(t.trace) && |Routes(t.trace)| <= |Routes(s.trace)| + 1
    && AcceptedRequests(s.trace) <= AcceptedRequests(t.trace)
  }

  predicate Unrelated(a: Act) {
    !IsOk(a) && !a.Routed? && !a.Throttled?
  }

  lemma EmitSame(s: Session, a: Act)
    requires Unrelated(a)
    ensures SameAccounts(s, Emit(s, a))
    ensures !a.Dispatched? ==> LastRequest(Emit(s, a).trace) == LastRequest(s.trace)
  {
    hide TakeCstr;
  }

  lemma AnswerSame(s: Session, id: u32, status: u32, sequence: u32, text: Bytes)
    requires |text| <= CSTR_MAX && !(id == SUBMIT_SM_RESP && status == ESME_ROK)
    ensures SameAccounts(s, Answer(s, id, status, sequence, text))
  {
    EmitSame(s, Sent(Response(id, status, sequence, text), Reply));
  }

  /** The response half of an acceptance. */
  lemma OkRecorded(c: Config, s: Session, p: WholePacket, n: u32)
    requires NulFree(c.uuid) && LastRequest(s.trace) == p && p.header.id == SUBMIT_SM
    requires WellPlaced(s.trace) && (s.state == BoundTx || s.state == BoundTrx)
    ensures var t := Answer(s, SUBMIT_SM_RESP, ESME_ROK, p.header.sequence, MessageId(c.uuid, n)).trace;
            && ToldIds(t) == ToldIds(s.trace) + [MessageId(c.uuid, n)]
            && AcceptedRequests(t) == AcceptedRequests(s.trace) + [p]
            && Routes(t) == Routes(s.trace) && WellPlaced(t)
  {
    hide TakeCstr;
    hide MessageId;
    IdReadBack(c.uuid, n, p.header.sequence);
  }

  /** The routing half. */
  lemma RouteRecorded(s: Session, r: Route)
    requires WellPlaced(s.trace) && (s.state == BoundTx || s.state == BoundTrx)
    ensures var t := Emit(s, Routed(r.src, r.dst, r.msg, r.id)).trace;
            && Routes(t) == Routes(s.trace) + [r] && ToldIds(t) == ToldIds(s.trace)
            && AcceptedRequests(t) == AcceptedRequests(s.trace) && WellPlaced(t)
  {
    hide TakeCstr;
  }

  /** Recording an acceptance: the response and the routing call, one after the other. */
  lemma AcceptAccounted(c: Config, s: Session, p: WholePacket)
    requires Accounted(c, s) && NulFree(c.uuid)
    requires LastRequest(s.trace) == p && p.header.id == SUBMIT_SM && (s.state == BoundTx || s.state == BoundTrx)
    ensures Accounted(c, Accept(c, s, p)) && Grown(s, Accept(c, s, p))
  {
    hide ParseSubmitSm;
    hide MessageId;
    hide Routes;
    hide ToldIds;
    hide AcceptedRequests;
    hide WellPlaced;
    hide Response;
    hide Wrapped;
    var s1 := s.(msgSeq := Wrapped(s.msgSeq + 1));
    var id := MessageId(c.uuid, s1.msgSeq);
    NextId(c.uuid, |Routes(s.trace)|, s.msgSeq);
    OkRecorded(c, s1, p, s1.msgSeq);
    RouteRecorded(Answer(s1, SUBMIT_SM_RESP, ESME_ROK, p.header.sequence, id), Wanted(p, id));
  }

  lemma NextId(uuid: Bytes, n: nat, counter: u32)
    requires counter == Wrapped(n)
    ensures MessageId(uuid, Wrapped(counter + 1)) == NthId(uuid, n) && Wrapped(counter + 1) == Wrapped(n + 1)
  {
    hide MessageId;
  }

  lemma SubmitAccounted(c: Config, s: Session, p: WholePacket)
    requires Accounted(c, s) && NulFree(c.uuid) && LastRequest(s.trace) == p && p.header.id == SUBMIT_SM
    ensures Accounted(c, HandleSubmitSm(c, s, p)) && Grown(s, HandleSubmitSm(c, s, p))
  {
    hide Limiter.Check;
    hide Accept;
    hide Answer;
    if s.state != BoundTx && s.state != BoundTrx {
      AnswerSame(s, SUBMIT_SM_RESP, ESME_RINVBNDSTS, p.header.sequence, []);
    } else {
      var (bucket, ok) := Limiter.Check(c.rate, s.bucket, s.now);
      var s1 := Emit(s.(bucket := bucket), Throttled(ok));
      assert Accounted(c, s1);
      if ok {
        AcceptAccounted(c, s1, p);
      } else {
        AnswerSame(s1, SUBMIT_SM_RESP, ESME_RTHROTTLED, p.header.sequence, []);
      }
    }
  }

  lemma DispatchAccounted(c: Config, s: Session, p: WholePacket)
    requires Accounted(c, s) && NulFree(c.uuid)
    ensures Accounted(c, Dispatch(c, s, p)) && Grown(s, Dispatch(c, s, p))
  {
    hide HandleSubmitSm;
    hide Answer;
    hide TakeCstr;
    hide Wanted;
    hide NthId;
    EmitSame(s, Dispatched(p));
    var s1, h := Emit(s, Dispatched(p)), p.header;
    if IsBind(h.id) {
      EmitSame(s1, BindCall(p.body));
      AnswerSame(s1, ResponseId(h.id), ESME_RALYBND, h.sequence, []);
    } else if h.id == UNBIND {
      AnswerSame(s1, UNBIND_RESP, ESME_ROK, h.sequence, []);
    } else if h.id == ENQUIRE_LINK {
      AnswerSame(s1, ENQUIRE_LINK_RESP, ESME_ROK, h.sequence, []);
    } else if h.id == SUBMIT_SM {
      SubmitAccounted(c, s1, p);
    } else if h.id != ENQUIRE_LINK_RESP && h.id != DELIVER_SM_RESP {
      AnswerSame(s1, GENERIC_NACK, ESME_RINVCMDID, h.sequence, []);
    }
  }

  lemma FinishBindSame(s: Session, h: BindHeader, systemId: Bytes, r: AuthResult)
    ensures SameAccounts(s, FinishBind(s, h, systemId, r))
  {
    hide Answer;
    hide TakeCstr;
    var ok := r.Approves();
    EmitSame(s.(io := Ready), Authenticated(h.id, r));
    var s1 := Emit(s.(io := Ready), Authenticated(h.id, r));
    if ok {
      var s2 := s1.(systemId := systemId, state := BoundState(h.id));
      AnswerSame(s2, ResponseId(h.id), ESME_ROK, h.sequence, SERVER_NAME);
    } else {
      AnswerSame(s1, ResponseId(h.id), if r.AuthAnswer? then r.code else ESME_RINVSYSID, h.sequence, []);
    }
  }

  lemma DisconnectSame(s: Session, reason: Reason)
    ensures SameAccounts(s, Disconnect(s, reason))
  {
    hide TakeCstr;
  }

  lemma IntervalSame(c: Config, s: Session)
    ensures SameAccounts(s, OnInterval(c, s))
  {
    hide TakeCstr;
  }

  lemma HandlerAccounted(c: Config, s: Session, h: Handler)
    requires Accounted(c, s) && NulFree(c.uuid)
    ensures Accounted(c, RunHandler(c, s, h)) && Grown(s, RunHandler(c, s, h))
  {
    hide Dispatch;
    hide DecodeHeader;
    hide Disconnect;
    hide OnInterval;
    hide Wanted;
    hide NthId;
    match h
    case HeaderDone(buf) =>
      if DecodeHeader(buf).length == HEADER_SIZE {
        DispatchAccounted(c, s, Packet(DecodeHeader(buf), []));
      }
      DisconnectSame(s, InvalidLength);
    case HeaderFailed => DisconnectSame(s, SocketClosed);
    case BodyDone(p) => DispatchAccounted(c, s, p);
    case BodyFailed(_) => DisconnectSame(s, BodyRead);
    case IntervalFired => IntervalSame(c, s);
    case ReplyFired => DisconnectSame(s, EnquireTimeout);
    case DisconnectPosted => DisconnectSame(s, Requested);
    case _ =>
  }

  lemma StepAccounted(c: Config, s: Session, e: Event)
    requires Accounted(c, s) && NulFree(c.uuid) && Enabled(s, e)
    ensures Accounted(c, Step(c, s, e)) && Grown(s, Step(c, s, e))
  {
    hide RunHandler;
    hide FinishBind;
    hide DeliverBody;
    hide TakeCstr;
    hide Wanted;
    hide NthId;
    match e
    case RunNext => HandlerAccounted(c, s.(ready := s.ready[1..]), s.ready[0]);
    case AuthReturns(r) => FinishBindSame(s, s.io.header, s.io.systemId, r);
    case _ =>
  }

  lemma {:induction false} RunAccounted(c: Config, r: Run)
    requires Valid(c, r) && NulFree(c.uuid)
    ensures Accounted(c, Exec(c, r))
  {
    if r.Next? {
      RunAccounted(c, r.prev);
      StepAccounted(c, Exec(c, r.prev), r.event);
    }
  }

  /** In every run: the k-th RouteMessage call carries what the k-th accepted SUBMIT_SM asked for, under the id the
      client was told, which is the k-th id of the session; there are as many of the one as of the others. */
  lemma SubmitsAccounted(c: Config, r: Run)
    requires Valid(c, r) && NulFree(c.uuid)
    ensures var t := Exec(c, r).trace;
            && |Routes(t)| == |AcceptedRequests(t)| == |ToldIds(t)|
            && (forall k | 0 <= k < |Routes(t)| ::
                  Routes(t)[k] == Wanted(AcceptedRequests(t)[k], ToldIds(t)[k]) && ToldIds(t)[k] == NthId(c.uuid, k))
  {
    hide Step;
    hide Wanted;
    RunAccounted(c, r);
  }

  /** No two of a session's first 2^32 messages are routed under the same id. */
  lemma RoutedIdsDistinct(c: Config, r: Run, j: nat, k: nat)
    requires Valid(c, r) && NulFree(c.uuid) && j < k < |Routes(Exec(c, r).trace)| && k < 0x1_0000_0000
    ensures Routes(Exec(c, r).trace)[j].id != Routes(Exec(c, r).trace)[k].id
  {
    hide ParseSubmitSm;
    hide NthId;
    hide Routes;
    hide AcceptedRequests;
    hide ToldIds;
    hide Step;
    SubmitsAccounted(c, r);
    var t := Exec(c, r).trace;
    assert Routes(t)[j].id == NthId(c.uuid, j) && Routes(t)[k].id == NthId(c.uuid, k);
    IdsDistinct(c.uuid, j, k);
  }

  /** What was accepted was a SUBMIT_SM. */
  lemma {:induction false} AcceptedAreSubmits(t: Trace)
    requires WellPlaced(t)
    ensures forall k | 0 <= k < |AcceptedRequests(t)| :: AcceptedRequests(t)[k].header.id == SUBMIT_SM
  {
    if t.Then? {
      AcceptedAreSubmits(t.before);
    }
  }

  /** Messages are accepted only while the session may transmit. */
  lemma AcceptedWhileBound(c: Config, r: Run)
    requires Valid(c, r) && NulFree(c.uuid)
    ensures WellPlaced(Exec(c, r).trace)
  {
    RunAccounted(c, r);
  }
}
