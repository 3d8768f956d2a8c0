/** The order of session states, in every interleaving of the io thread with the D-Bus thread. */
module SessionOrder {
  import opened Pdu
  import opened Session
  import opened MessageIds
  import Limiter

  predicate IsBound(st: SessionState) { st == BoundTx || st == BoundRx || st == BoundTrx }

  /** The state that each kind of bind asks for. */
  predicate Suits(st: SessionState, id: u32) {
    || (st == BoundTx && id == BIND_TRANSMITTER)
    || (st == BoundRx && id == BIND_RECEIVER)
    || (st == BoundTrx && id == BIND_TRANSCEIVER)
  }

  /** The only ways a state may change: open to bound, anything to unbound. */
  predicate Follows(a: SessionState, b: SessionState) {
    a == b || b == Unbound || (a == Open && IsBound(b))
  }

  /** How often the exit signal was emitted. */
  function Exits(t: Trace): nat {
    match t
    case Empty => 0
    case Then(b, e) => Exits(b) + if e.act.Exited? then 1 else 0
  }

  /** The binds that `Authenticate` approved. */
  function ApprovedBinds(t: Trace): seq<u32> {
    match t
    case Empty => []
    case Then(b, e) =>
      if e.act.Authenticated? && e.act.result.Approves() then ApprovedBinds(b) + [e.act.command] else ApprovedBinds(b)
  }

  /** Every DELIVER_SM went out in the receiving state that was checked for it, or after the end. */
  predicate DeliveriesChecked(t: Trace) {
    match t
    case Empty => true
    case Then(b, e) =>
      && DeliveriesChecked(b)
      && (e.act.Sent? && e.act.why.Delivering? ==>
            Receiving(e.act.why.checked) && (e.state == e.act.why.checked || e.state == Unbound))
  }

  /** Binds approved so far, and what they say about the state. */
  predicate BindsMatch(st: SessionState, binds: seq<u32>) {
    && |binds| <= 1
    && (st == Open ==> binds == [])
    && (IsBound(st) ==> |binds| == 1 && Suits(st, binds[0]))
  }

  predicate CheckedCalls(s: Session) {
    forall k | 0 <= k < |s.inFlight| ::
      Receiving(s.inFlight[k].checked) && (s.state == s.inFlight[k].checked || s.state == Unbound)
  }

  predicate Ordered(s: Session) {
    && (s.io.Authenticating? ==> s.state == Open)
    && Exits(s.trace) == (if s.state == Unbound then 1 else 0)
    && BindsMatch(s.state, ApprovedBinds(s.trace))
    && DeliveriesChecked(s.trace)
    && CheckedCalls(s)
  }

  /** Recording anything but an exit, an approval or a delivery keeps the order. */
  lemma EmitOrdered(s: Session, a: Act)
    requires Ordered(s)
    requires !a.Exited? && !(a.Authenticated? && a.result.Approves()) && !(a.Sent? && a.why.Delivering?)
    ensures Ordered(Emit(s, a))
  {
  }

  lemma AnswerOrdered(s: Session, id: u32, status: u32, sequence: u32, text: Bytes)
    requires Ordered(s) && |text| <= CSTR_MAX
    ensures var t := Answer(s, id, status, sequence, text); Ordered(t) && t.state == s.state && t.io == s.io
  {
    hide Response;
    EmitOrdered(s, Sent(Response(id, status, sequence, text), Reply));
  }

  lemma DisconnectOrdered(s: Session, reason: Reason)
    requires Ordered(s) && s.io.Ready?
    ensures Ordered(Disconnect(s, reason)) && Disconnect(s, reason).state == Unbound
  {
  }

  lemma SubmitOrdered(c: Config, s: Session, p: WholePacket)
    requires Ordered(s)
    ensures Ordered(HandleSubmitSm(c, s, p)) && HandleSubmitSm(c, s, p).state == s.state
  {
    hide ParseSubmitSm;
    hide MessageId;
    hide Limiter.Check;
    hide Answer;
    hide Exits;
    hide ApprovedBinds;
    hide DeliveriesChecked;
    if s.state != BoundTx && s.state != BoundTrx {
      AnswerOrdered(s, SUBMIT_SM_RESP, ESME_RINVBNDSTS, p.header.sequence, []);
    } else {
      var (bucket, ok) := Limiter.Check(c.rate, s.bucket, s.now);
      var s1 := Emit(s.(bucket := bucket), Throttled(ok));
      EmitOrdered(s.(bucket := bucket), Throttled(ok));
      if ok {
        var s2 := s1.(msgSeq := Wrapped(s1.msgSeq + 1));
        var id, sm := MessageId(c.uuid, s2.msgSeq), ParseSubmitSm(p.body);
        AnswerOrdered(s2, SUBMIT_SM_RESP, ESME_ROK, p.header.sequence, id);
        EmitOrdered(Answer(s2, SUBMIT_SM_RESP, ESME_ROK, p.header.sequence, id),
                    Routed(sm.source.addr, sm.dest.addr, sm.shortMessage, id));
      } else {
        AnswerOrdered(s1, SUBMIT_SM_RESP, ESME_RTHROTTLED, p.header.sequence, []);
      }
    }
  }

  lemma DispatchOrdered(c: Config, s: Session, p: WholePacket)
    requires Ordered(s) && s.io.Ready?
    ensures Ordered(Dispatch(c, s, p)) && Follows(s.state, Dispatch(c, s, p).state)
  {
    hide HandleSubmitSm;
    hide Disconnect;
    hide Answer;
    hide TakeCstr;
    hide Exits;
    hide ApprovedBinds;
    hide DeliveriesChecked;
    var s1, h := Emit(s, Dispatched(p)), p.header;
    EmitOrdered(s, Dispatched(p));
    if IsBind(h.id) {
      EmitOrdered(s1, BindCall(p.body));
      AnswerOrdered(s1, ResponseId(h.id), ESME_RALYBND, h.sequence, []);
    } else if h.id == UNBIND {
      AnswerOrdered(s1, UNBIND_RESP, ESME_ROK, h.sequence, []);
      DisconnectOrdered(Answer(s1, UNBIND_RESP, ESME_ROK, h.sequence, []), UnbindRequest);
    } else if h.id == ENQUIRE_LINK {
      AnswerOrdered(s1, ENQUIRE_LINK_RESP, ESME_ROK, h.sequence, []);
    } else if h.id == SUBMIT_SM {
      SubmitOrdered(c, s1, p);
    } else if h.id != ENQUIRE_LINK_RESP && h.id != DELIVER_SM_RESP {
      AnswerOrdered(s1, GENERIC_NACK, ESME_RINVCMDID, h.sequence, []);
    }
  }

  lemma FinishBindOrdered(s: Session, r: AuthResult)
    requires Ordered(s) && s.io.Authenticating?
    ensures var t := FinishBind(s, s.io.header, s.io.systemId, r);
            Ordered(t) && Follows(s.state, t.state)
  {
    hide Answer;
    hide Disconnect;
    var h := s.io.header;
    var ok := r.Approves();
    var s1 := Emit(s.(io := Ready), Authenticated(h.id, r));
    assert ApprovedBinds(s1.trace) == if ok then [h.id] else [];
    if ok {
      var s2 := s1.(systemId := s.io.systemId, state := BoundState(h.id));
      AnswerOrdered(s2, ResponseId(h.id), ESME_ROK, h.sequence, SERVER_NAME);
      EmitOrdered(Answer(s2, ResponseId(h.id), ESME_ROK, h.sequence, SERVER_NAME), Details(s.io.systemId, s2.state));
    } else {
      var code := if r.AuthAnswer? then r.code else ESME_RINVSYSID;
      AnswerOrdered(s1, ResponseId(h.id), code, h.sequence, []);
      DisconnectOrdered(Answer(s1, ResponseId(h.id), code, h.sequence, []), AuthFailed);
    }
  }

  lemma HandlerOrdered(c: Config, s: Session, h: Handler)
    requires Ordered(s) && s.io.Ready?
    ensures Ordered(RunHandler(c, s, h)) && Follows(s.state, RunHandler(c, s, h).state)
  {
    hide Dispatch;
    hide DecodeHeader;
    hide Response;
    match h
    case HeaderDone(buf) =>
      if DecodeHeader(buf).length == HEADER_SIZE {
        DispatchOrdered(c, s, Packet(DecodeHeader(buf), []));
      }
    case BodyDone(p) => DispatchOrdered(c, s, p);
    case _ =>
  }

  lemma StepOrdered(c: Config, s: Session, e: Event)
    requires Ordered(s) && Enabled(s, e)
    ensures Ordered(Step(c, s, e)) && Follows(s.state, Step(c, s, e).state)
  {
    hide RunHandler;
    hide FinishBind;
    hide Deliver;
    match e
    case RunNext => HandlerOrdered(c, s.(ready := s.ready[1..]), s.ready[0]);
    case AuthReturns(r) => FinishBindOrdered(s, r);
    case _ =>
  }

  // ---------------------------------------------------------------- over whole runs

  lemma {:induction false} RunOrdered(c: Config, r: Run)
    requires Valid(c, r)
    ensures Ordered(Exec(c, r))
  {
    if r.Next? {
      RunOrdered(c, r.prev);
      StepOrdered(c, Exec(c, r.prev), r.event);
    }
  }

  lemma {:induction false} ValidEarlier(c: Config, a: Run, r: Run)
    requires Valid(c, r) && Earlier(a, r)
    ensures Valid(c, a)
  {
    if a != r {
      ValidEarlier(c, a, r.prev);
    }
  }

  /** Between any two points of any run the state moves only from open to one bound state to unbound;
      once unbound it stays so. */
  lemma {:induction false} StatesFollow(c: Config, a: Run, r: Run)
    requires Valid(c, r) && Earlier(a, r)
    ensures Valid(c, a)
    ensures Follows(Exec(c, a).state, Exec(c, r).state)
    ensures Exec(c, a).state == Unbound ==> Exec(c, r).state == Unbound
    ensures IsBound(Exec(c, a).state) && IsBound(Exec(c, r).state) ==> Exec(c, a).state == Exec(c, r).state
  {
    hide Step;
    hide Enabled;
    hide Ordered;
    ValidEarlier(c, a, r);
    if a != r {
      StatesFollow(c, a, r.prev);
      RunOrdered(c, r.prev);
      StepOrdered(c, Exec(c, r.prev), r.event);
    }
  }

  /** A session is bound only after `Authenticate` approved a bind of that kind, and only one is ever approved. A
      session that is not over is bound as soon as one has been. */
  lemma BoundByApproval(c: Config, r: Run)
    requires Valid(c, r)
    ensures var s, binds := Exec(c, r), ApprovedBinds(Exec(c, r).trace);
            && |binds| <= 1
            && (s.state == Open <==> s.state != Unbound && binds == [])
            && (IsBound(s.state) <==> s.state != Unbound && |binds| == 1 && Suits(s.state, binds[0]))
  {
    RunOrdered(c, r);
  }

  /** The exit signal is emitted exactly once in a run that reaches `Unbound`, and never in one that does not. */
  lemma ExitOnce(c: Config, r: Run)
    requires Valid(c, r)
    ensures Exits(Exec(c, r).trace) == if Exec(c, r).state == Unbound then 1 else 0
  {
    RunOrdered(c, r);
  }

  /** Whatever the interleaving, a DELIVER_SM is sent in the receiving state that was checked or in `Unbound`. */
  lemma DeliveriesInState(c: Config, r: Run)
    requires Valid(c, r)
    ensures DeliveriesChecked(Exec(c, r).trace)
  {
    RunOrdered(c, r);
  }
}
