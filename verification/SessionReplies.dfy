/** Requests and responses: every dispatched PDU is answered in turn, with its own sequence number. */
module SessionReplies {
  import opened Pdu
  import opened Session
  import opened MessageIds
  import Limiter

  datatype ReplyMark = ReplyMark(id: u32, sequence: u32)

  /** What a PDU is to be answered with: the response to a request the session knows, a GENERIC_NACK for an
      unknown id, and nothing for a response. */
  function Owed(h: Header): seq<ReplyMark> {
    if h.id == ENQUIRE_LINK_RESP || h.id == DELIVER_SM_RESP then []
    else if h.id in {BIND_TRANSMITTER, BIND_RECEIVER, BIND_TRANSCEIVER, UNBIND, ENQUIRE_LINK, SUBMIT_SM}
    then [ReplyMark(h.id + 0x8000_0000, h.sequence)]
    else [ReplyMark(GENERIC_NACK, h.sequence)]
  }

  /** What the PDUs dispatched so far are owed, in order. */
  function AllOwed(t: Trace): seq<ReplyMark> {
    match t
    case Empty => []
    case Then(b, e) => if e.act.Dispatched? then AllOwed(b) + Owed(e.act.pdu.header) else AllOwed(b)
  }

  /** The responses sent so far: every PDU sent whose id has the response bit. */
  function Replies(t: Trace): seq<ReplyMark> {
    match t
    case Empty => []
    case Then(b, e) =>
      if e.act.Sent? && e.act.pdu.header.id >= 0x8000_0000
      then Replies(b) + [ReplyMark(e.act.pdu.header.id, e.act.pdu.header.sequence)]
      else Replies(b)
  }

  /** Only a bind that waits for `Authenticate` is still owed its response. */
  function Awaited(io: IoThread): seq<ReplyMark> {
    match io
    case Ready => []
    case Authenticating(h, _) => [ReplyMark(ResponseId(h.id), h.sequence)]
  }

  predicate Answered(s: Session) {
    AllOwed(s.trace) == Replies(s.trace) + Awaited(s.io)
  }

  /** Neither a dispatch nor a response. */
  predicate Silent(a: Act) {
    !a.Dispatched? && !(a.Sent? && a.pdu.header.id >= 0x8000_0000)
  }

  lemma EmitSilent(s: Session, a: Act)
    requires Silent(a)
    ensures var t := Emit(s, a).trace; AllOwed(t) == AllOwed(s.trace) && Replies(t) == Replies(s.trace)
  {
  }

  lemma DisconnectSilent(s: Session, reason: Reason)
    ensures var t := Disconnect(s, reason);
            AllOwed(t.trace) == AllOwed(s.trace) && Replies(t.trace) == Replies(s.trace) && t.io == s.io
  {
  }

  lemma AnswerReplies(s: Session, id: u32, status: u32, sequence: u32, text: Bytes)
    requires |text| <= CSTR_MAX && id >= 0x8000_0000
    ensures var t := Answer(s, id, status, sequence, text);
            && AllOwed(t.trace) == AllOwed(s.trace) && t.io == s.io
            && Replies(t.trace) == Replies(s.trace) + [ReplyMark(id, sequence)]
  {
  }

  lemma SubmitReplies(c: Config, s: Session, p: WholePacket)
    ensures var t := HandleSubmitSm(c, s, p);
            && AllOwed(t.trace) == AllOwed(s.trace) && t.io == s.io
            && Replies(t.trace) == Replies(s.trace) + [ReplyMark(SUBMIT_SM_RESP, p.header.sequence)]
  {
    hide ParseSubmitSm;
    hide MessageId;
    hide Limiter.Check;
    hide Answer;
    var q := p.header.sequence;
    if s.state != BoundTx && s.state != BoundTrx {
      AnswerReplies(s, SUBMIT_SM_RESP, ESME_RINVBNDSTS, q, []);
    } else {
      var (bucket, ok) := Limiter.Check(c.rate, s.bucket, s.now);
      EmitSilent(s.(bucket := bucket), Throttled(ok));
      var s1 := Emit(s.(bucket := bucket), Throttled(ok));
      if ok {
        var s2 := s1.(msgSeq := Wrapped(s1.msgSeq + 1));
        AnswerReplies(s2, SUBMIT_SM_RESP, ESME_ROK, q, MessageId(c.uuid, s2.msgSeq));
      } else {
        AnswerReplies(s1, SUBMIT_SM_RESP, ESME_RTHROTTLED, q, []);
      }
    }
  }

  lemma DispatchAnswered(c: Config, s: Session, p: WholePacket)
    requires Answered(s) && s.io.Ready?
    ensures Answered(Dispatch(c, s, p))
  {
    hide HandleSubmitSm;
    hide Answer;
    hide TakeCstr;
    hide Disconnect;
    var s1, h := Emit(s, Dispatched(p)), p.header;
    assert AllOwed(s1.trace) == Replies(s1.trace) + Owed(h);
    if IsBind(h.id) {
      EmitSilent(s1, BindCall(p.body));
      AnswerReplies(s1, ResponseId(h.id), ESME_RALYBND, h.sequence, []);
    } else if h.id == UNBIND {
      AnswerReplies(s1, UNBIND_RESP, ESME_ROK, h.sequence, []);
      DisconnectSilent(Answer(s1, UNBIND_RESP, ESME_ROK, h.sequence, []), UnbindRequest);
    } else if h.id == ENQUIRE_LINK {
      AnswerReplies(s1, ENQUIRE_LINK_RESP, ESME_ROK, h.sequence, []);
    } else if h.id == SUBMIT_SM {
      SubmitReplies(c, s1, p);
    } else if h.id != ENQUIRE_LINK_RESP && h.id != DELIVER_SM_RESP {
      AnswerReplies(s1, GENERIC_NACK, ESME_RINVCMDID, h.sequence, []);
    }
  }

  lemma FinishBindAnswered(s: Session, r: AuthResult)
    requires Answered(s) && s.io.Authenticating?
    ensures Answered(FinishBind(s, s.io.header, s.io.systemId, r))
  {
    hide Answer;
    hide Disconnect;
    var h := s.io.header;
    var ok := r.Approves();
    EmitSilent(s.(io := Ready), Authenticated(h.id, r));
    var s1 := Emit(s.(io := Ready), Authenticated(h.id, r));
    if ok {
      var s2 := s1.(systemId := s.io.systemId, state := BoundState(h.id));
      AnswerReplies(s2, ResponseId(h.id), ESME_ROK, h.sequence, SERVER_NAME);
      EmitSilent(Answer(s2, ResponseId(h.id), ESME_ROK, h.sequence, SERVER_NAME), Details(s.io.systemId, s2.state));
    } else {
      var code := if r.AuthAnswer? then r.code else ESME_RINVSYSID;
      AnswerReplies(s1, ResponseId(h.id), code, h.sequence, []);
      DisconnectSilent(Answer(s1, ResponseId(h.id), code, h.sequence, []), AuthFailed);
    }
  }

  lemma HandlerAnswered(c: Config, s: Session, h: Handler)
    requires Answered(s) && s.io.Ready?
    ensures Answered(RunHandler(c, s, h))
  {
    hide Dispatch;
    hide DecodeHeader;
    hide Disconnect;
    match h
    case HeaderDone(buf) =>
      if DecodeHeader(buf).length == HEADER_SIZE {
        DispatchAnswered(c, s, Packet(DecodeHeader(buf), []));
      }
      DisconnectSilent(s, InvalidLength);
    case HeaderFailed => DisconnectSilent(s, SocketClosed);
    case BodyDone(p) => DispatchAnswered(c, s, p);
    case BodyFailed(_) => DisconnectSilent(s, BodyRead);
    case ReplyFired => DisconnectSilent(s, EnquireTimeout);
    case DisconnectPosted => DisconnectSilent(s, Requested);
    case _ =>
  }

  lemma StepAnswered(c: Config, s: Session, e: Event)
    requires Answered(s) && Enabled(s, e)
    ensures Answered(Step(c, s, e))
  {
    hide RunHandler;
    hide FinishBind;
    match e
    case RunNext => HandlerAnswered(c, s.(ready := s.ready[1..]), s.ready[0]);
    case AuthReturns(r) => FinishBindAnswered(s, r);
    case _ =>
  }

  /** In every run the responses sent are, in order, exactly what the dispatched PDUs are owed; only a bind
      that waits for `Authenticate` is still to be answered. */
  lemma {:induction false} EveryRequestAnswered(c: Config, r: Run)
    requires Valid(c, r)
    ensures AllOwed(Exec(c, r).trace) == Replies(Exec(c, r).trace) + Awaited(Exec(c, r).io)
  {
    if r.Next? {
      EveryRequestAnswered(c, r.prev);
      StepAnswered(c, Exec(c, r.prev), r.event);
    }
  }
}
