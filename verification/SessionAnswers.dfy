/** What the responses say: their status and body, and what a bind leads to, read off the trace. */
module SessionAnswers {
  import opened Pdu
  import opened Session
  import opened MessageIds
  import opened SessionSubmits
  import Limiter
  import SessionOrder

  // ---------------------------------------------------------------- reading the trace

  datatype Verdict = NoVerdict | AuthVerdict(result: AuthResult) | LimitVerdict(admitted: bool)

  /** What was decided about the request dispatched last. */
  function VerdictOf(t: Trace): Verdict {
    match t
    case Empty => NoVerdict
    case Then(b, e) =>
      match e.act
      case Dispatched(_) => NoVerdict
      case Authenticated(_, r) => AuthVerdict(r)
      case Throttled(ok) => LimitVerdict(ok)
      case _ => VerdictOf(b)
  }

  datatype AuthRequest = NotAsked | Asked(systemId: Bytes, password: Bytes)

  /** What `Authenticate` was asked about the request dispatched last. */
  function AuthRequestOf(t: Trace): AuthRequest {
    match t
    case Empty => NotAsked
    case Then(b, e) =>
      match e.act
      case Dispatched(_) => NotAsked
      case AuthCall(sid, pass) => Asked(sid, pass)
      case _ => AuthRequestOf(b)
  }

  function StatusOwed(id: u32, v: Verdict): u32 {
    if IsBind(id) then
      match v
      case AuthVerdict(AuthAnswer(ok, code)) => if ok then ESME_ROK else code
      case AuthVerdict(AuthError) => ESME_RINVSYSID
      case _ => ESME_RALYBND
    else if id == SUBMIT_SM then
      match v
      case LimitVerdict(ok) => if ok then ESME_ROK else ESME_RTHROTTLED
      case _ => ESME_RINVBNDSTS
    else if id == UNBIND || id == ENQUIRE_LINK then ESME_ROK
    else ESME_RINVCMDID
  }

  predicate Transmitting(st: SessionState) { st == BoundTx || st == BoundTrx }

  /** A response to `request`, sent in state `st` after verdict `v`. */
  predicate RightAnswer(request: Packet, v: Verdict, st: SessionState, answer: Packet) {
    var id := request.header.id;
    && answer.header.status == StatusOwed(id, v)
    && (IsBind(id) && !v.AuthVerdict? ==> st != Open)
    && (id == SUBMIT_SM ==> (v.LimitVerdict? <==> Transmitting(st)))
    && (!(id == SUBMIT_SM && v == LimitVerdict(true)) ==>
          answer.body == if IsBind(id) && v.AuthVerdict? && v.result.Approves() then SERVER_NAME + [0] else [])
  }

  /** Every response fits the request dispatched last, and `Authenticate` was asked about exactly that request. */
  predicate AnswersRight(t: Trace) {
    t.Then? ==>
      var b, e := t.before, t.entry;
      && AnswersRight(b)
      && (e.act.Sent? && e.act.why.Reply? ==> RightAnswer(LastRequest(b), VerdictOf(b), e.state, e.act.pdu))
      && (e.act.AuthCall? ==>
            && IsBind(LastRequest(b).header.id) && e.state == Open
            && Asked(e.act.systemId, e.act.password) == CredentialsOf(LastRequest(b)))
      && (e.act.Authenticated? ==>
            && IsBind(LastRequest(b).header.id) && e.act.command == LastRequest(b).header.id && e.state == Open
            && AuthRequestOf(b) == CredentialsOf(LastRequest(b)))
  }

  /** The system id and password a bind carries: its first two C-octet strings. */
  function CredentialsOf(p: Packet): AuthRequest {
    Asked(TakeCstr(p.body).0, TakeCstr(TakeCstr(p.body).1).0)
  }

  /** What a well-formed bind body asks about, whatever follows the two strings. */
  lemma CredentialsRead(h: Header, systemId: Bytes, password: Bytes, rest: Bytes)
    requires NulFree(systemId) && |systemId| < CSTR_MAX && NulFree(password) && |password| < CSTR_MAX
    ensures CredentialsOf(Packet(h, systemId + [0] + (password + [0] + rest))) == Asked(systemId, password)
  {
    hide TakeCstr;
    TakeTerminated(systemId, password + [0] + rest);
    TakeTerminated(password, rest);
  }

  datatype Notice = Notice(systemId: Bytes, shown: SessionState)

  /** What the server was told about the session. */
  function Notices(t: Trace): seq<Notice> {
    match t
    case Empty => []
    case Then(b, e) => if e.act.Details? then Notices(b) + [Notice(e.act.systemId, e.act.shown)] else Notices(b)
  }

  /** What the approved binds make true. */
  function NoticesDue(t: Trace): seq<Notice> {
    match t
    case Empty => []
    case Then(b, e) =>
      if e.act.Authenticated? && e.act.result.Approves() && IsBind(LastRequest(b).header.id)
      then NoticesDue(b) + [Notice(TakeCstr(LastRequest(b).body).0, BoundState(LastRequest(b).header.id))]
      else NoticesDue(b)
  }

  // ---------------------------------------------------------------- the invariant

  predicate Waiting(s: Session) {
    s.io.Authenticating? ==>
      var p := LastRequest(s.trace);
      && s.state == Open && s.io.header == p.header && s.io.systemId == TakeCstr(p.body).0
      && AuthRequestOf(s.trace) == CredentialsOf(p)
  }

  predicate Named(s: Session) {
    SessionOrder.IsBound(s.state) ==>
      Notices(s.trace) != [] && Notices(s.trace)[|Notices(s.trace)| - 1] == Notice(s.systemId, s.state)
  }

  predicate Truthful(s: Session) {
    && AnswersRight(s.trace)
    && Notices(s.trace) == NoticesDue(s.trace)
    && Waiting(s)
    && Named(s)
  }

  /** `t` has told the server nothing since `s`. */
  predicate SameNotices(s: Session, t: Session) {
    Notices(t.trace) == Notices(s.trace)
  }

  /** Acts the readings above pass over. */
  predicate Neutral(a: Act) {
    a.Routed? || a.Exited? || (a.Sent? && !a.why.Reply?)
  }

  lemma EmitNeutral(s: Session, a: Act)
    requires Neutral(a)
    ensures var t := Emit(s, a).trace;
            && LastRequest(t) == LastRequest(s.trace) && VerdictOf(t) == VerdictOf(s.trace)
            && AuthRequestOf(t) == AuthRequestOf(s.trace)
            && Notices(t) == Notices(s.trace) && NoticesDue(t) == NoticesDue(s.trace)
            && (AnswersRight(s.trace) ==> AnswersRight(t))
  {
    hide TakeCstr;
    hide RightAnswer;
  }

  /** A response that fits keeps everything true. */
  lemma AnswerTruthful(s: Session, id: u32, status: u32, sequence: u32, text: Bytes)
    requires |text| <= CSTR_MAX && AnswersRight(s.trace)
    requires RightAnswer(LastRequest(s.trace), VerdictOf(s.trace), s.state, Response(id, status, sequence, text))
    ensures var t := Answer(s, id, status, sequence, text).trace;
            && LastRequest(t) == LastRequest(s.trace) && VerdictOf(t) == VerdictOf(s.trace)
            && Notices(t) == Notices(s.trace) && NoticesDue(t) == NoticesDue(s.trace)
            && AnswersRight(t)
  {
    hide TakeCstr;
    hide RightAnswer;
  }

  lemma DisconnectTruthful(s: Session, reason: Reason)
    requires Truthful(s) && s.io.Ready?
    ensures Truthful(Disconnect(s, reason)) && SameNotices(s, Disconnect(s, reason))
  {
    hide TakeCstr;
    hide RightAnswer;
    EmitNeutral(s.(state := Unbound), Exited(reason));
  }

  /** The request that has just been dispatched: nothing decided yet. */
  lemma DispatchedTruthful(s: Session, p: WholePacket)
    requires Truthful(s) && s.io.Ready?
    ensures var t := Emit(s, Dispatched(p));
            Truthful(t) && SameNotices(s, t) && LastRequest(t.trace) == p && VerdictOf(t.trace) == NoVerdict
  {
    hide TakeCstr;
    hide RightAnswer;
  }

  lemma ReplyTruthful(s: Session, id: u32, status: u32, sequence: u32, text: Bytes)
    requires |text| <= CSTR_MAX && Truthful(s) && s.io.Ready?
    requires RightAnswer(LastRequest(s.trace), VerdictOf(s.trace), s.state, Response(id, status, sequence, text))
    ensures var t := Answer(s, id, status, sequence, text); Truthful(t) && SameNotices(s, t) && t.io.Ready?
  {
    hide TakeCstr;
    hide RightAnswer;
    hide Response;
    AnswerTruthful(s, id, status, sequence, text);
  }

  lemma ThrottledTruthful(s: Session, bucket: Limiter.Bucket, ok: bool)
    requires Truthful(s) && s.io.Ready?
    ensures var t := Emit(s.(bucket := bucket), Throttled(ok));
            && Truthful(t) && SameNotices(s, t)
            && LastRequest(t.trace) == LastRequest(s.trace) && VerdictOf(t.trace) == LimitVerdict(ok)
  {
    hide TakeCstr;
    hide RightAnswer;
  }

  /** What a submission is owed: refused outside the transmitting states, and else as the limiter says. */
  lemma SubmitRight(p: Packet, v: Verdict, st: SessionState, sequence: u32, text: Bytes)
    requires |text| <= CSTR_MAX && p.header.id == SUBMIT_SM && !v.AuthVerdict?
    requires (v.LimitVerdict? <==> Transmitting(st)) && (v == LimitVerdict(true) || text == [])
    ensures RightAnswer(p, v, st, Response(SUBMIT_SM_RESP, StatusOwed(SUBMIT_SM, v), sequence, text))
  {
  }

  lemma NumberTruthful(s: Session, n: u32)
    requires Truthful(s)
    ensures Truthful(s.(msgSeq := n))
  {
    hide AnswersRight;
    hide Notices;
    hide NoticesDue;
  }

  lemma RoutedTruthful(s: Session, a: Act)
    requires Truthful(s) && s.io.Ready? && a.Routed?
    ensures Truthful(Emit(s, a)) && SameNotices(s, Emit(s, a))
  {
    hide AnswersRight;
    hide Notices;
    hide NoticesDue;
    EmitNeutral(s, a);
  }

  lemma AcceptTruthful(c: Config, s: Session, p: WholePacket)
    requires Truthful(s) && s.io.Ready? && LastRequest(s.trace) == p && VerdictOf(s.trace) == LimitVerdict(true)
    requires p.header.id == SUBMIT_SM && Transmitting(s.state)
    ensures var t := Accept(c, s, p); Truthful(t) && SameNotices(s, t) && t.io.Ready?
  {
    hide ParseSubmitSm;
    hide MessageId;
    hide RightAnswer;
    hide Truthful;
    hide Answer;
    var s1 := s.(msgSeq := Wrapped(s.msgSeq + 1));
    var id, sm := MessageId(c.uuid, s1.msgSeq), ParseSubmitSm(p.body);
    NumberTruthful(s, s1.msgSeq);
    SubmitRight(p, LimitVerdict(true), s.state, p.header.sequence, id);
    ReplyTruthful(s1, SUBMIT_SM_RESP, ESME_ROK, p.header.sequence, id);
    RoutedTruthful(Answer(s1, SUBMIT_SM_RESP, ESME_ROK, p.header.sequence, id),
                   Routed(sm.source.addr, sm.dest.addr, sm.shortMessage, id));
  }

  lemma SubmitTruthful(c: Config, s: Session, p: WholePacket)
    requires Truthful(s) && s.io.Ready? && LastRequest(s.trace) == p && VerdictOf(s.trace) == NoVerdict
    requires p.header.id == SUBMIT_SM
    ensures var t := HandleSubmitSm(c, s, p); Truthful(t) && SameNotices(s, t) && t.io.Ready?
  {
    hide Limiter.Check;
    hide Truthful;
    hide RightAnswer;
    hide Accept;
    hide Answer;
    if !Transmitting(s.state) {
      SubmitRight(p, NoVerdict, s.state, p.header.sequence, []);
      ReplyTruthful(s, SUBMIT_SM_RESP, ESME_RINVBNDSTS, p.header.sequence, []);
    } else {
      var (bucket, ok) := Limiter.Check(c.rate, s.bucket, s.now);
      ThrottledTruthful(s, bucket, ok);
      var s1 := Emit(s.(bucket := bucket), Throttled(ok));
      if ok {
        AcceptTruthful(c, s1, p);
      } else {
        SubmitRight(p, LimitVerdict(false), s.state, p.header.sequence, []);
        ReplyTruthful(s1, SUBMIT_SM_RESP, ESME_RTHROTTLED, p.header.sequence, []);
      }
    }
  }

  lemma BindTruthful(s: Session, p: WholePacket)
    requires Truthful(s) && s.io.Ready? && LastRequest(s.trace) == p && VerdictOf(s.trace) == NoVerdict
    requires IsBind(p.header.id)
    ensures Truthful(HandleBind(s, p)) && SameNotices(s, HandleBind(s, p))
  {
    hide TakeCstr;
    if s.state != Open {
      AnswerTruthful(s, ResponseId(p.header.id), ESME_RALYBND, p.header.sequence, []);
    }
  }

  lemma DispatchTruthful(c: Config, s: Session, p: WholePacket)
    requires Truthful(s) && s.io.Ready?
    ensures Truthful(Dispatch(c, s, p)) && SameNotices(s, Dispatch(c, s, p))
  {
    hide HandleSubmitSm;
    hide HandleBind;
    hide Disconnect;
    hide Answer;
    DispatchedTruthful(s, p);
    var s1, h := Emit(s, Dispatched(p)), p.header;
    if IsBind(h.id) {
      BindTruthful(s1, p);
    } else if h.id == UNBIND {
      PlainTruthful(s1, UNBIND_RESP, ESME_ROK);
      DisconnectTruthful(Answer(s1, UNBIND_RESP, ESME_ROK, h.sequence, []), UnbindRequest);
    } else if h.id == ENQUIRE_LINK {
      PlainTruthful(s1, ENQUIRE_LINK_RESP, ESME_ROK);
    } else if h.id == SUBMIT_SM {
      SubmitTruthful(c, s1, p);
    } else if h.id != ENQUIRE_LINK_RESP && h.id != DELIVER_SM_RESP {
      PlainTruthful(s1, GENERIC_NACK, ESME_RINVCMDID);
    }
  }

  /** A response without a body to a request that needs no decision. */
  lemma PlainTruthful(s: Session, id: u32, status: u32)
    requires Truthful(s) && s.io.Ready? && VerdictOf(s.trace) == NoVerdict
    requires var q := LastRequest(s.trace).header.id; !IsBind(q) && q != SUBMIT_SM && status == StatusOwed(q, NoVerdict)
    ensures var t := Answer(s, id, status, LastRequest(s.trace).header.sequence, []);
            Truthful(t) && SameNotices(s, t) && t.io.Ready?
  {
    hide Truthful;
    ReplyTruthful(s, id, status, LastRequest(s.trace).header.sequence, []);
  }

  lemma FinishBindTruthful(s: Session, r: AuthResult)
    requires Truthful(s) && s.io.Authenticating?
    ensures var t := FinishBind(s, s.io.header, s.io.systemId, r);
            Truthful(t) && Notices(s.trace) <= Notices(t.trace)
  {
    hide TakeCstr;
    var h := s.io.header;
    var s1 := Emit(s.(io := Ready), Authenticated(h.id, r));
    assert AnswersRight(s1.trace) && VerdictOf(s1.trace) == AuthVerdict(r);
    if r.Approves() {
      var s2 := s1.(systemId := s.io.systemId, state := BoundState(h.id));
      AnswerTruthful(s2, ResponseId(h.id), ESME_ROK, h.sequence, SERVER_NAME);
    } else {
      var code := if r.AuthAnswer? then r.code else ESME_RINVSYSID;
      AnswerTruthful(s1, ResponseId(h.id), code, h.sequence, []);
      DisconnectTruthful(Answer(s1, ResponseId(h.id), code, h.sequence, []), AuthFailed);
    }
  }

  lemma IntervalTruthful(c: Config, s: Session)
    requires Truthful(s)
    ensures Truthful(OnInterval(c, s)) && SameNotices(s, OnInterval(c, s))
  {
    hide TakeCstr;
    hide RightAnswer;
    var q := NextEnquireSeq(s.elSeq);
    EmitNeutral(s.(elSeq := q, elPending := true), Sent(Response(ENQUIRE_LINK, ESME_ROK, q, []), KeepAlive));
  }

  lemma HandlerTruthful(c: Config, s: Session, h: Handler)
    requires Truthful(s) && s.io.Ready?
    ensures Truthful(RunHandler(c, s, h)) && SameNotices(s, RunHandler(c, s, h))
  {
    hide Dispatch;
    hide DecodeHeader;
    hide Disconnect;
    hide OnInterval;
    hide TakeCstr;
    hide RightAnswer;
    match h
    case HeaderDone(buf) =>
      if DecodeHeader(buf).length == HEADER_SIZE {
        DispatchTruthful(c, s, Packet(DecodeHeader(buf), []));
      }
      DisconnectTruthful(s, InvalidLength);
    case HeaderFailed => DisconnectTruthful(s, SocketClosed);
    case BodyDone(p) => DispatchTruthful(c, s, p);
    case BodyFailed(_) => DisconnectTruthful(s, BodyRead);
    case IntervalFired => IntervalTruthful(c, s);
    case ReplyFired => DisconnectTruthful(s, EnquireTimeout);
    case DisconnectPosted => DisconnectTruthful(s, Requested);
    case _ =>
  }

  lemma StepTruthful(c: Config, s: Session, e: Event)
    requires Truthful(s) && Enabled(s, e)
    ensures Truthful(Step(c, s, e)) && Notices(s.trace) <= Notices(Step(c, s, e).trace)
  {
    hide RunHandler;
    hide FinishBind;
    hide Deliver;
    hide TakeCstr;
    hide RightAnswer;
    match e
    case RunNext => HandlerTruthful(c, s.(ready := s.ready[1..]), s.ready[0]);
    case AuthReturns(r) => FinishBindTruthful(s, r);
    case DeliverSend(k) =>
      var t := Step(c, s, e);
      EmitNeutral(s.(deliverSeq := t.deliverSeq, inFlight := t.inFlight), t.trace.entry.act);
    case _ =>
  }

  // ---------------------------------------------------------------- over whole runs

  lemma {:induction false} RunTruthful(c: Config, r: Run)
    requires Valid(c, r)
    ensures Truthful(Exec(c, r))
  {
    if r.Next? {
      RunTruthful(c, r.prev);
      StepTruthful(c, Exec(c, r.prev), r.event);
    }
  }

  /** In every run each response carries the status its request, the session state and the verdict on it call for, and
      `Authenticate` is only ever asked, in the open state, about the credentials of the bind it decides. */
  lemma ResponsesRight(c: Config, r: Run)
    requires Valid(c, r)
    ensures AnswersRight(Exec(c, r).trace)
  {
    RunTruthful(c, r);
  }

  /** What a notice says about the session that sent it: it was bound so, by an approved bind, and still is unless it
      is over. */
  lemma NoticeHolds(s: Session, n: nat)
    requires Truthful(s) && SessionOrder.Ordered(s) && n < |Notices(s.trace)|
    ensures var binds, notice := SessionOrder.ApprovedBinds(s.trace), Notices(s.trace)[n];
            && |Notices(s.trace)| == |binds| == 1
            && SessionOrder.Suits(notice.shown, binds[0])
            && (s.state == Unbound || notice == Notice(s.systemId, s.state))
  {
    hide TakeCstr;
    hide RightAnswer;
    NoticesMatchBinds(s.trace);
  }

  /** The server is told of every approved bind and of nothing else, under the system id the bind carried; a bound
      session is known to it by its own system id and state. */
  lemma ServerToldOfBinds(c: Config, r: Run)
    requires Valid(c, r)
    ensures Notices(Exec(c, r).trace) == NoticesDue(Exec(c, r).trace)
    ensures var told, binds := Notices(Exec(c, r).trace), SessionOrder.ApprovedBinds(Exec(c, r).trace);
            |told| == |binds| && forall n | 0 <= n < |told| :: SessionOrder.Suits(told[n].shown, binds[n])
    ensures SessionOrder.IsBound(Exec(c, r).state) ==>
              Notices(Exec(c, r).trace) == [Notice(Exec(c, r).systemId, Exec(c, r).state)]
  {
    hide TakeCstr;
    hide Step;
    RunTruthful(c, r);
    SessionOrder.RunOrdered(c, r);
    NoticesMatchBinds(Exec(c, r).trace);
  }

  /** The notices due are the approved binds, one by one. */
  lemma {:induction false} NoticesMatchBinds(t: Trace)
    requires AnswersRight(t)
    ensures var binds := SessionOrder.ApprovedBinds(t);
            && |NoticesDue(t)| == |binds|
            && (forall n | 0 <= n < |binds| :: SessionOrder.Suits(NoticesDue(t)[n].shown, binds[n]))
  {
    hide TakeCstr;
    hide RightAnswer;
    if t.Then? {
      NoticesMatchBinds(t.before);
    }
  }
}
