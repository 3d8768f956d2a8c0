/** The keepalive: an interval wait, then an ENQUIRE_LINK and a wait for its reply, and so on. */
module SessionKeepalive {
  import opened Pdu
  import opened Session
  import opened Queue
  import opened MessageIds
  import Limiter
  import SessionOrder

  datatype Enquiry = Nothing | Asked(sequence: u32, at: real)

  predicate IsReplyTo(p: Packet, q: Enquiry) {
    q.Asked? && p.header.id == ENQUIRE_LINK_RESP && p.header.sequence == q.sequence
  }

  /** The server's unanswered ENQUIRE_LINK, read off the trace alone: asked, and no reply dispatched since. */
  function Unanswered(t: Trace): Enquiry {
    match t
    case Empty => Nothing
    case Then(b, e) =>
      if e.act.Sent? && e.act.why.KeepAlive? then Asked(e.act.pdu.header.sequence, e.at)
      else if e.act.Dispatched? && IsReplyTo(e.act.pdu, Unanswered(b)) then Nothing
      else Unanswered(b)
  }

  /** Since when the session has not been asking: the latest reply that ended an enquiry, or the start. */
  function QuietSince(start: real, t: Trace): real {
    match t
    case Empty => start
    case Then(b, e) => if e.act.Dispatched? && IsReplyTo(e.act.pdu, Unanswered(b)) then e.at else QuietSince(start, b)
  }

  /** A new ENQUIRE_LINK is sent only with the keepalive on and none unanswered, and a whole interval after the last one
      was answered; the session gives up only when one has been unanswered for the whole timeout. */
  predicate Disciplined(c: Config, start: real, t: Trace) {
    match t
    case Empty => true
    case Then(b, e) =>
      && Disciplined(c, start, b)
      && (e.act.Sent? && e.act.why.KeepAlive? ==>
            c.interval > 0 && Unanswered(b).Nothing? && e.at >= QuietSince(start, b) + c.interval as real)
      && (e.act == Exited(EnquireTimeout) ==>
            Unanswered(b).Asked? && e.at >= Unanswered(b).at + c.timeout as real)
  }

  /** While live: exactly one of the two waits is outstanding, running or fired, and `elPending` tells which.
      A reply timeout that fired in vain may still be queued, but only ahead of the next interval. */
  predicate OneWait(c: Config, start: real, s: Session) {
    if s.elPending then
      && s.interval.NoWait? && Count(s.ready, IntervalKind) == 0
      && Count(s.ready, ReplyKind) == (if s.reply.Until? then 0 else 1)
      && Unanswered(s.trace).Asked?
      && (if s.reply.Until? then s.reply.due == Unanswered(s.trace).at + c.timeout as real
          else s.now >= Unanswered(s.trace).at + c.timeout as real)
    else
      && s.reply.NoWait? && RepliesFirst(s.ready)
      && Count(s.ready, IntervalKind) == (if s.interval.Until? then 0 else 1)
      && (if s.interval.Until? then s.interval.due == QuietSince(start, s.trace) + c.interval as real
          else s.now >= QuietSince(start, s.trace) + c.interval as real)
  }

  predicate Asking(s: Session) {
    match Unanswered(s.trace)
    case Nothing => !s.elPending
    case Asked(q, _) => s.elPending && q == s.elSeq
  }

  predicate KeptAlive(c: Config, start: real, s: Session) {
    && Asking(s)
    && Disciplined(c, start, s.trace)
    && (c.interval > 0 && s.state != Unbound ==> OneWait(c, start, s))
    && (c.interval == 0 ==> !s.elPending && s.interval.NoWait? && Count(s.ready, IntervalKind) == 0)
  }

  predicate Bystander(a: Act) {
    && !(a.Dispatched? && a.pdu.header.id == ENQUIRE_LINK_RESP)
    && !(a.Sent? && a.why.KeepAlive?)
    && a != Exited(EnquireTimeout)
  }

  lemma EmitKeeps(c: Config, start: real, s: Session, a: Act)
    requires KeptAlive(c, start, s) && Bystander(a)
    ensures KeptAlive(c, start, Emit(s, a))
  {
  }

  lemma DisconnectKeeps(c: Config, start: real, s: Session, reason: Reason)
    requires KeptAlive(c, start, s) && reason != EnquireTimeout
    ensures KeptAlive(c, start, Disconnect(s, reason))
  {
    if s.state != Unbound {
      EmitKeeps(c, start, s.(state := Unbound), Exited(reason));
    }
  }

  lemma PushKeeps(c: Config, start: real, s: Session, h: Handler)
    requires KeptAlive(c, start, s) && !h.IntervalFired? && !h.ReplyFired?
    ensures KeptAlive(c, start, Push(s, h))
  {
    CountPush(s.ready, h, IntervalKind);
    CountPush(s.ready, h, ReplyKind);
    if !s.elPending && c.interval > 0 && s.state != Unbound {
      RepliesFirstPush(s.ready, h);
    }
  }

  lemma AnswerKeeps(c: Config, start: real, s: Session, id: u32, status: u32, sequence: u32, text: Bytes)
    requires KeptAlive(c, start, s) && |text| <= CSTR_MAX
    ensures KeptAlive(c, start, Answer(s, id, status, sequence, text))
  {
    EmitKeeps(c, start, s, Sent(Response(id, status, sequence, text), Reply));
  }

  lemma SubmitKeeps(c: Config, start: real, s: Session, p: WholePacket)
    requires KeptAlive(c, start, s)
    ensures KeptAlive(c, start, HandleSubmitSm(c, s, p))
  {
    hide ParseSubmitSm;
    hide MessageId;
    hide Limiter.Check;
    hide KeptAlive;
    if s.state != BoundTx && s.state != BoundTrx {
      AnswerKeeps(c, start, s, SUBMIT_SM_RESP, ESME_RINVBNDSTS, p.header.sequence, []);
    } else {
      var (bucket, ok) := Limiter.Check(c.rate, s.bucket, s.now);
      var s0 := s.(bucket := bucket);
      BucketKeeps(c, start, s, bucket);
      EmitKeeps(c, start, s0, Throttled(ok));
      var s1 := Emit(s0, Throttled(ok));
      if ok {
        AcceptKeeps(c, start, s1, p);
      } else {
        AnswerKeeps(c, start, s1, SUBMIT_SM_RESP, ESME_RTHROTTLED, p.header.sequence, []);
      }
    }
  }

  lemma BucketKeeps(c: Config, start: real, s: Session, bucket: Limiter.Bucket)
    requires KeptAlive(c, start, s)
    ensures KeptAlive(c, start, s.(bucket := bucket))
  {
  }

  lemma AcceptKeeps(c: Config, start: real, s: Session, p: WholePacket)
    requires KeptAlive(c, start, s)
    ensures KeptAlive(c, start, Accept(c, s, p))
  {
    hide ParseSubmitSm;
    hide MessageId;
    var s1 := s.(msgSeq := Wrapped(s.msgSeq + 1));
    var sm, id := ParseSubmitSm(p.body), MessageId(c.uuid, s1.msgSeq);
    AnswerKeeps(c, start, s1, SUBMIT_SM_RESP, ESME_ROK, p.header.sequence, id);
    EmitKeeps(c, start, Answer(s1, SUBMIT_SM_RESP, ESME_ROK, p.header.sequence, id),
              Routed(sm.source.addr, sm.dest.addr, sm.shortMessage, id));
  }

  /** A reply that matches ends the enquiry and starts the next interval; any other changes nothing. */
  lemma EnquireRespKeeps(c: Config, start: real, s: Session, p: WholePacket)
    requires KeptAlive(c, start, s) && p.header.id == ENQUIRE_LINK_RESP
    ensures KeptAlive(c, start, HandleEnquireLinkResp(c, Emit(s, Dispatched(p)), p.header))
  {
    if p.header.sequence == s.elSeq && s.elPending {
      CountPush(s.ready, ReplyCancelled, IntervalKind);
      if s.state != Unbound {
        RepliesFirstIfLive(c, start, s);
      }
    }
  }

  lemma RepliesFirstIfLive(c: Config, start: real, s: Session)
    requires KeptAlive(c, start, s) && s.elPending && s.state != Unbound
    ensures RepliesFirst(s.ready) && RepliesFirst(s.ready + [ReplyCancelled])
  {
    RepliesFirstWithout(s.ready);
    RepliesFirstPush(s.ready, ReplyCancelled);
  }

  /** The interval timer asks, unless an answer is still awaited or the session is over. */
  lemma IntervalKeeps(c: Config, start: real, s: Session)
    requires KeptAlive(c, start, s) && s.ready != [] && s.ready[0].IntervalFired?
    ensures KeptAlive(c, start, OnInterval(c, s.(ready := s.ready[1..])))
  {
  }

  /** The reply timer gives up only on an enquiry that is unanswered and due. */
  lemma ReplyKeeps(c: Config, start: real, s: Session)
    requires KeptAlive(c, start, s) && s.ready != [] && s.ready[0].ReplyFired?
    ensures KeptAlive(c, start, OnReplyTimeout(s.(ready := s.ready[1..])))
  {
  }

  lemma PopKeeps(c: Config, start: real, s: Session)
    requires KeptAlive(c, start, s) && s.ready != [] && !s.ready[0].IntervalFired? && !s.ready[0].ReplyFired?
    ensures KeptAlive(c, start, s.(ready := s.ready[1..]))
  {
  }

  lemma DispatchKeeps(c: Config, start: real, s: Session, p: WholePacket)
    requires KeptAlive(c, start, s)
    ensures KeptAlive(c, start, Dispatch(c, s, p))
  {
    hide HandleSubmitSm;
    hide HandleEnquireLinkResp;
    hide TakeCstr;
    hide Answer;
    if p.header.id == ENQUIRE_LINK_RESP {
      EnquireRespKeeps(c, start, s, p);
    } else {
      EmitKeeps(c, start, s, Dispatched(p));
      var s1, h := Emit(s, Dispatched(p)), p.header;
      if IsBind(h.id) {
        EmitKeeps(c, start, s1, BindCall(p.body));
        AnswerKeeps(c, start, s1, ResponseId(h.id), ESME_RALYBND, h.sequence, []);
      } else if h.id == UNBIND {
        AnswerKeeps(c, start, s1, UNBIND_RESP, ESME_ROK, h.sequence, []);
        DisconnectKeeps(c, start, Answer(s1, UNBIND_RESP, ESME_ROK, h.sequence, []), UnbindRequest);
      } else if h.id == ENQUIRE_LINK {
        AnswerKeeps(c, start, s1, ENQUIRE_LINK_RESP, ESME_ROK, h.sequence, []);
      } else if h.id == SUBMIT_SM {
        SubmitKeeps(c, start, s1, p);
      } else {
        AnswerKeeps(c, start, s1, GENERIC_NACK, ESME_RINVCMDID, h.sequence, []);
      }
    }
  }

  lemma FinishBindKeeps(c: Config, start: real, s: Session, h: BindHeader, systemId: Bytes, r: AuthResult)
    requires KeptAlive(c, start, s) && s.state != Unbound
    ensures KeptAlive(c, start, FinishBind(s, h, systemId, r))
  {
    hide Answer;
    var ok := r.Approves();
    EmitKeeps(c, start, s.(io := Ready), Authenticated(h.id, r));
    var s1 := Emit(s.(io := Ready), Authenticated(h.id, r));
    if ok {
      var s2 := s1.(systemId := systemId, state := BoundState(h.id));
      AnswerKeeps(c, start, s2, ResponseId(h.id), ESME_ROK, h.sequence, SERVER_NAME);
      EmitKeeps(c, start, Answer(s2, ResponseId(h.id), ESME_ROK, h.sequence, SERVER_NAME), Details(systemId, s2.state));
    } else {
      var code := if r.AuthAnswer? then r.code else ESME_RINVSYSID;
      AnswerKeeps(c, start, s1, ResponseId(h.id), code, h.sequence, []);
      DisconnectKeeps(c, start, Answer(s1, ResponseId(h.id), code, h.sequence, []), AuthFailed);
    }
  }

  lemma HandlerKeeps(c: Config, start: real, s: Session)
    requires KeptAlive(c, start, s) && s.ready != []
    ensures KeptAlive(c, start, RunHandler(c, s.(ready := s.ready[1..]), s.ready[0]))
  {
    hide Dispatch;
    hide DecodeHeader;
    hide Disconnect;
    var h, t := s.ready[0], s.(ready := s.ready[1..]);
    if h.IntervalFired? {
      IntervalKeeps(c, start, s);
    } else if h.ReplyFired? {
      ReplyKeeps(c, start, s);
    } else {
      PopKeeps(c, start, s);
      match h
      case HeaderDone(buf) =>
        if DecodeHeader(buf).length == HEADER_SIZE {
          DispatchKeeps(c, start, t, Packet(DecodeHeader(buf), []));
        }
        DisconnectKeeps(c, start, t, InvalidLength);
      case HeaderFailed => DisconnectKeeps(c, start, t, SocketClosed);
      case BodyDone(p) => DispatchKeeps(c, start, t, p);
      case BodyFailed(_) => DisconnectKeeps(c, start, t, BodyRead);
      case DisconnectPosted => DisconnectKeeps(c, start, t, Requested);
      case _ =>
    }
  }

  lemma IntervalExpiryKeeps(c: Config, start: real, s: Session)
    requires KeptAlive(c, start, s) && Enabled(s, IntervalExpires)
    ensures KeptAlive(c, start, Step(c, s, IntervalExpires))
  {
    CountPush(s.ready, IntervalFired, IntervalKind);
    CountPush(s.ready, IntervalFired, ReplyKind);
    if c.interval > 0 && s.state != Unbound {
      RepliesFirstPush(s.ready, IntervalFired);
    }
  }

  lemma ReplyExpiryKeeps(c: Config, start: real, s: Session)
    requires KeptAlive(c, start, s) && Enabled(s, ReplyExpires)
    ensures KeptAlive(c, start, Step(c, s, ReplyExpires))
  {
    CountPush(s.ready, ReplyFired, IntervalKind);
    CountPush(s.ready, ReplyFired, ReplyKind);
  }

  lemma StepKeeps(c: Config, start: real, s: Session, e: Event)
    requires KeptAlive(c, start, s) && Enabled(s, e) && (s.io.Authenticating? ==> s.state != Unbound)
    ensures KeptAlive(c, start, Step(c, s, e))
  {
    hide RunHandler;
    hide FinishBind;
    hide Deliver;
    match e
    case ReadDone => PushKeeps(c, start, s, CompleteRead(s).ready[|s.ready|]);
    case ReadFailed => PushKeeps(c, start, s, FailRead(s).ready[|s.ready|]);
    case IntervalExpires => IntervalExpiryKeeps(c, start, s);
    case ReplyExpires => ReplyExpiryKeeps(c, start, s);
    case RunNext => HandlerKeeps(c, start, s);
    case AuthReturns(r) => FinishBindKeeps(c, start, s, s.io.header, s.io.systemId, r);
    case PostDisconnect => PushKeeps(c, start, s, DisconnectPosted);
    case DeliverSend(k) =>
      var t := Step(c, s, e);
      EmitKeeps(c, start, s.(deliverSeq := t.deliverSeq, inFlight := t.inFlight), t.trace.entry.act);
    case _ =>
  }

  // ---------------------------------------------------------------- over whole runs

  lemma {:induction false} RunKeeps(c: Config, r: Run)
    requires Valid(c, r)
    ensures KeptAlive(c, StartTime(r), Exec(c, r))
  {
    if r.Next? {
      RunKeeps(c, r.prev);
      SessionOrder.RunOrdered(c, r.prev);
      StepKeeps(c, StartTime(r), Exec(c, r.prev), r.event);
    }
  }

  /** With the keepalive on, a live session always has exactly one of its two waits outstanding. */
  lemma OneWaitOutstanding(c: Config, r: Run)
    requires Valid(c, r) && c.interval > 0 && Exec(c, r).state != Unbound
    ensures OneWait(c, StartTime(r), Exec(c, r))
    ensures Exec(c, r).elPending <==> Unanswered(Exec(c, r).trace).Asked?
  {
    RunKeeps(c, r);
  }

  /** In every run: at most one ENQUIRE_LINK is unanswered at a time, each is sent a whole interval after the last
      answer (or the start), and no session is ended by the keepalive unless one has stayed unanswered for the whole
      timeout. */
  lemma NeverGivesUpEarly(c: Config, r: Run)
    requires Valid(c, r)
    ensures Disciplined(c, StartTime(r), Exec(c, r).trace)
  {
    RunKeeps(c, r);
  }

  /** A reply timer that has fired ends the session exactly when no reply was handled before it, however long
      the timer handler had already been queued. */
  lemma GivesUpExactly(c: Config, r: Run)
    requires Valid(c, r)
    requires var s := Exec(c, r);
             s.state != Unbound && s.io.Ready? && s.ready != [] && s.ready[0].ReplyFired?
    ensures Step(c, Exec(c, r), RunNext).state == Unbound <==> Unanswered(Exec(c, r).trace).Asked?
  {
    RunKeeps(c, r);
  }
}
