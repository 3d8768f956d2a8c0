/** The limiter inside a running session: what it admits is what the session routes. */
module SessionMeter {
  import opened Pdu
  import opened Session
  import opened MessageIds
  import Limiter
  import SessionSubmits

  /** The times at which the limiter was asked. */
  function Calls(t: Trace): Limiter.Calls {
    match t
    case Empty => Limiter.NoCalls
    case Then(b, e) => if e.act.Throttled? then Limiter.Call(Calls(b), e.at) else Calls(b)
  }

  /** Every verdict is the bucket's verdict on the calls up to it. */
  predicate Verdicts(c: Config, start: real, t: Trace) {
    t.Then? ==>
      && Verdicts(c, start, t.before)
      && (t.entry.act.Throttled? ==> t.entry.act.admitted == Limiter.Admits(c.rate, start, Calls(t)))
  }

  /** How many messages were routed between two instants, both included. */
  function RoutedBetween(t: Trace, a: real, b: real): nat {
    match t
    case Empty => 0
    case Then(before, e) =>
      RoutedBetween(before, a, b) + if e.act.Routed? && a <= e.at <= b then 1 else 0
  }

  predicate Metered(c: Config, start: real, s: Session, a: real, b: real) {
    && s.bucket == Limiter.After(c.rate, start, Calls(s.trace))
    && Limiter.Timed(start, Calls(s.trace)) && Limiter.Latest(start, Calls(s.trace)) <= s.now
    && Verdicts(c, start, s.trace)
    && RoutedBetween(s.trace, a, b) == Limiter.AdmittedBetween(c.rate, start, Calls(s.trace), a, b)
  }

  /** `t` has neither asked the limiter nor routed since `s`. */
  ghost predicate SameMeter(s: Session, t: Session) {
    && t.bucket == s.bucket && t.now == s.now && Calls(t.trace) == Calls(s.trace)
    && (forall c, start :: Verdicts(c, start, s.trace) ==> Verdicts(c, start, t.trace))
    && (forall a, b :: RoutedBetween(t.trace, a, b) == RoutedBetween(s.trace, a, b))
  }

  lemma EmitSame(s: Session, a: Act)
    requires !a.Throttled? && !a.Routed?
    ensures SameMeter(s, Emit(s, a))
  {
    hide Limiter.Admits;
  }

  lemma AnswerSame(s: Session, id: u32, status: u32, sequence: u32, text: Bytes)
    requires |text| <= CSTR_MAX
    ensures SameMeter(s, Answer(s, id, status, sequence, text))
  {
    EmitSame(s, Sent(Response(id, status, sequence, text), Reply));
  }

  /** Asking the limiter: an admission is owed a routing. */
  lemma ThrottledMetered(c: Config, start: real, s: Session, a: real, b: real)
    requires Metered(c, start, s, a, b)
    ensures var (bucket, ok) := Limiter.Check(c.rate, s.bucket, s.now);
            var t := Emit(s.(bucket := bucket), Throttled(ok));
            var owed := if ok && a <= s.now <= b then 1 else 0;
            && t.bucket == Limiter.After(c.rate, start, Calls(t.trace))
            && Limiter.Timed(start, Calls(t.trace)) && Limiter.Latest(start, Calls(t.trace)) <= t.now
            && Verdicts(c, start, t.trace)
            && RoutedBetween(t.trace, a, b) + owed
               == Limiter.AdmittedBetween(c.rate, start, Calls(t.trace), a, b)
  {
    hide Limiter.Check;
    var (bucket, ok) := Limiter.Check(c.rate, s.bucket, s.now);
    var t := Emit(s.(bucket := bucket), Throttled(ok));
    assert Calls(t.trace) == Limiter.Call(Calls(s.trace), s.now);
  }

  /** Accepting is routing, once. */
  lemma AcceptRoutes(c: Config, s: Session, p: WholePacket, start: real, a: real, b: real)
    ensures var t := Accept(c, s, p);
            && t.bucket == s.bucket && t.now == s.now && Calls(t.trace) == Calls(s.trace)
            && (Verdicts(c, start, s.trace) ==> Verdicts(c, start, t.trace))
            && RoutedBetween(t.trace, a, b) == RoutedBetween(s.trace, a, b) + if a <= s.now <= b then 1 else 0
  {
    hide ParseSubmitSm;
    hide MessageId;
    hide Limiter.Admits;
    hide Answer;
    var s1 := s.(msgSeq := Wrapped(s.msgSeq + 1));
    AnswerSame(s1, SUBMIT_SM_RESP, ESME_ROK, p.header.sequence, MessageId(c.uuid, s1.msgSeq));
  }

  lemma SubmitMetered(c: Config, start: real, s: Session, p: WholePacket, a: real, b: real)
    requires Metered(c, start, s, a, b)
    ensures Metered(c, start, HandleSubmitSm(c, s, p), a, b)
  {
    hide Limiter.Check;
    hide Limiter.After;
    hide Limiter.AdmittedBetween;
    hide Accept;
    hide Answer;
    if s.state != BoundTx && s.state != BoundTrx {
      AnswerSame(s, SUBMIT_SM_RESP, ESME_RINVBNDSTS, p.header.sequence, []);
    } else {
      hide Calls;
      hide Verdicts;
      hide RoutedBetween;
      var (bucket, ok) := Limiter.Check(c.rate, s.bucket, s.now);
      var s1 := Emit(s.(bucket := bucket), Throttled(ok));
      ThrottledMetered(c, start, s, a, b);
      if ok {
        AcceptRoutes(c, s1, p, start, a, b);
      } else {
        AnswerSame(s1, SUBMIT_SM_RESP, ESME_RTHROTTLED, p.header.sequence, []);
      }
    }
  }

  lemma DispatchMetered(c: Config, start: real, s: Session, p: WholePacket, a: real, b: real)
    requires Metered(c, start, s, a, b)
    ensures Metered(c, start, Dispatch(c, s, p), a, b)
  {
    hide HandleSubmitSm;
    hide Answer;
    hide TakeCstr;
    hide Limiter.Check;
    EmitSame(s, Dispatched(p));
    var s1, h := Emit(s, Dispatched(p)), p.header;
    if IsBind(h.id) {
      EmitSame(s1, BindCall(p.body));
      AnswerSame(s1, ResponseId(h.id), ESME_RALYBND, h.sequence, []);
    } else if h.id == UNBIND {
      AnswerSame(s1, UNBIND_RESP, ESME_ROK, h.sequence, []);
    } else if h.id == ENQUIRE_LINK {
      AnswerSame(s1, ENQUIRE_LINK_RESP, ESME_ROK, h.sequence, []);
    } else if h.id == SUBMIT_SM {
      SubmitMetered(c, start, s1, p, a, b);
    } else if h.id != ENQUIRE_LINK_RESP && h.id != DELIVER_SM_RESP {
      AnswerSame(s1, GENERIC_NACK, ESME_RINVCMDID, h.sequence, []);
    }
  }

  lemma FinishBindSame(s: Session, h: BindHeader, systemId: Bytes, r: AuthResult)
    ensures SameMeter(s, FinishBind(s, h, systemId, r))
  {
    hide Answer;
    hide Limiter.Admits;
    var ok := r.Approves();
    EmitSame(s.(io := Ready), Authenticated(h.id, r));
    var s1 := Emit(s.(io := Ready), Authenticated(h.id, r));
    if ok {
      var s2 := s1.(systemId := systemId, state := BoundState(h.id));
      AnswerSame(s2, ResponseId(h.id), ESME_ROK, h.sequence, SERVER_NAME);
    } else {
      AnswerSame(s1, ResponseId(h.id), if r.AuthAnswer? then r.code else ESME_RINVSYSID, h.sequence, []);
    }
  }

  lemma HandlerMetered(c: Config, start: real, s: Session, h: Handler, a: real, b: real)
    requires Metered(c, start, s, a, b)
    ensures Metered(c, start, RunHandler(c, s, h), a, b)
  {
    hide Dispatch;
    hide DecodeHeader;
    hide Limiter.Check;
    match h
    case HeaderDone(buf) =>
      if DecodeHeader(buf).length == HEADER_SIZE {
        DispatchMetered(c, start, s, Packet(DecodeHeader(buf), []), a, b);
      }
    case BodyDone(p) => DispatchMetered(c, start, s, p, a, b);
    case _ =>
  }

  lemma StepMetered(c: Config, start: real, s: Session, e: Event, a: real, b: real)
    requires Metered(c, start, s, a, b) && Enabled(s, e)
    ensures Metered(c, start, Step(c, s, e), a, b)
  {
    hide RunHandler;
    hide FinishBind;
    hide Deliver;
    hide Limiter.Check;
    match e
    case RunNext => HandlerMetered(c, start, s.(ready := s.ready[1..]), s.ready[0], a, b);
    case AuthReturns(r) => FinishBindSame(s, s.io.header, s.io.systemId, r);
    case _ =>
  }

  lemma {:induction false} RunMetered(c: Config, r: Run, a: real, b: real)
    requires Valid(c, r)
    ensures Metered(c, StartTime(r), Exec(c, r), a, b)
  {
    if r.Next? {
      RunMetered(c, r.prev, a, b);
      StepMetered(c, StartTime(r), Exec(c, r.prev), r.event, a, b);
    }
  }

  /** In every run, between any two instants, a limited session routes at most rate + rate * elapsed messages. */
  lemma RoutedWithinRate(c: Config, r: Run, a: real, b: real)
    requires Valid(c, r) && c.rate > 0 && a <= b
    ensures RoutedBetween(Exec(c, r).trace, a, b) as real <= c.rate as real + Limiter.Credit(c.rate, b - a)
  {
    hide Step;
    RunMetered(c, r, a, b);
    Limiter.RateBound(c.rate, StartTime(r), Calls(Exec(c, r).trace), a, b);
  }

  /** Every call up to the latest one lies between the start and the present. */
  lemma {:induction false} AdmittedAll(rate: nat, start: real, calls: Limiter.Calls, now: real)
    requires Limiter.Timed(start, calls) && Limiter.Latest(start, calls) <= now
    ensures Limiter.AdmittedBetween(rate, start, calls, start, now) == Limiter.Admitted(rate, start, calls)
    ensures start <= Limiter.Latest(start, calls)
  {
    hide Limiter.Admits;
    if calls.Call? {
      AdmittedAll(rate, start, calls.prev, now);
    }
  }

  lemma {:induction false} RoutedAtMostAll(t: Trace, a: real, b: real)
    ensures RoutedBetween(t, a, b) <= |SessionSubmits.Routes(t)|
  {
    if t.Then? {
      RoutedAtMostAll(t.before, a, b);
    }
  }

  /** And no schedule that respects that bound would have admitted more submissions, of those the session put to its
      limiter, than the session has routed. */
  lemma RoutingOptimal(c: Config, r: Run, d: Limiter.Schedule)
    requires Valid(c, r) && c.rate > 0 && Limiter.Obeys(c.rate, d, Calls(Exec(c, r).trace))
    ensures Limiter.Taken(d, Calls(Exec(c, r).trace)) <= |SessionSubmits.Routes(Exec(c, r).trace)|
    ensures Verdicts(c, StartTime(r), Exec(c, r).trace)
  {
    hide Step;
    var s, start := Exec(c, r), StartTime(r);
    RunMetered(c, r, start, s.now);
    Limiter.BucketOptimal(c.rate, start, d, Calls(s.trace));
    AdmittedAll(c.rate, start, Calls(s.trace), s.now);
    RoutedAtMostAll(s.trace, start, s.now);
  }
}
