/** After the end: what a session still has queued and outstanding runs out. */
module SessionDrain {
  import opened Pdu
  import opened Session
  import opened MessageIds
  import Limiter
  import SessionOrder

  /** A good read that was already queued may still dispatch a PDU, which may start a read and a wait. */
  function Weight(h: Handler): nat {
    if h.HeaderDone? || h.BodyDone? then 5 else 1
  }

  function Load(q: seq<Handler>): nat {
    if q == [] then 0 else Load(q[1..]) + Weight(q[0])
  }

  lemma {:induction false} LoadPush(q: seq<Handler>, h: Handler)
    ensures Load(q + [h]) == Load(q) + Weight(h)
  {
    if q == [] {
      assert q + [h] == [h];
    } else {
      LoadPush(q[1..], h);
      assert (q + [h])[1..] == q[1..] + [h];
    }
  }

  /** Everything queued, and everything outstanding that will be queued once it completes. */
  function Measure(s: Session): nat {
    Load(s.ready)
    + (if s.reading.NoRead? then 0 else 2)
    + (if s.interval.NoWait? then 0 else 2)
    + (if s.reply.NoWait? then 0 else 2)
  }

  /** The session's own steps, as against time, the peer and D-Bus. */
  predicate IsOwn(e: Event) {
    !e.Tick? && !e.Arrive? && !IsBus(e)
  }

  predicate IsBus(e: Event) {
    e.PostDisconnect? || e.DeliverCheck? || e.DeliverSend?
  }

  lemma EnquireRespLoad(c: Config, s: Session, h: Header)
    ensures Measure(HandleEnquireLinkResp(c, s, h)) <= Measure(s) + 2
  {
    LoadPush(s.ready, ReplyCancelled);
    LoadPush(s.ready + [ReplyCancelled], IntervalCancelled);
    LoadPush(s.ready, IntervalCancelled);
  }

  lemma SubmitLoad(c: Config, s: Session, p: WholePacket)
    ensures var t := HandleSubmitSm(c, s, p);
            t.ready == s.ready && t.reading == s.reading && t.interval == s.interval && t.reply == s.reply
            && t.io == s.io && t.state == s.state
  {
    hide ParseSubmitSm;
    hide MessageId;
    hide Limiter.Check;
  }

  lemma DispatchLoad(c: Config, s: Session, p: WholePacket)
    requires s.state == Unbound && s.io.Ready?
    ensures var t := Dispatch(c, s, p);
            Measure(t) <= Measure(s) + 2 && t.reading == s.reading && t.state == Unbound && t.io.Ready?
  {
    hide HandleSubmitSm;
    hide Response;
    SubmitLoad(c, Emit(s, Dispatched(p)), p);
    EnquireRespLoad(c, Emit(s, Dispatched(p)), p.header);
  }

  lemma HandlerLoad(c: Config, s: Session, h: Handler)
    requires s.state == Unbound && s.io.Ready?
    ensures var t := RunHandler(c, s, h);
            Measure(t) < Measure(s) + Weight(h) && t.state == Unbound && t.io.Ready?
  {
    hide Dispatch;
    hide DecodeHeader;
    hide Load;
    match h
    case HeaderDone(buf) =>
      if DecodeHeader(buf).length == HEADER_SIZE {
        DispatchLoad(c, s, Packet(DecodeHeader(buf), []));
      }
    case BodyDone(p) => DispatchLoad(c, s, p);
    case _ =>
  }

  /** Once unbound, each of the session's own steps lowers the measure, and time and the peer leave it alone. */
  lemma StepDrains(c: Config, s: Session, e: Event)
    requires s.state == Unbound && s.io.Ready? && Enabled(s, e) && !IsBus(e)
    ensures Step(c, s, e).state == Unbound && Step(c, s, e).io.Ready?
    ensures Measure(Step(c, s, e)) + (if IsOwn(e) then 1 else 0) <= Measure(s)
  {
    hide RunHandler;
    match e
    case ReadFailed => LoadPush(s.ready, FailRead(s).ready[|s.ready|]);
    case IntervalExpires => LoadPush(s.ready, IntervalFired);
    case ReplyExpires => LoadPush(s.ready, ReplyFired);
    case RunNext => HandlerLoad(c, s.(ready := s.ready[1..]), s.ready[0]);
    case _ =>
  }

  // ---------------------------------------------------------------- over whole runs

  /** How many own steps the run took after `a`. */
  function OwnSince(a: Run, r: Run): nat
    requires Earlier(a, r)
  {
    if a == r then 0 else OwnSince(a, r.prev) + if IsOwn(r.event) then 1 else 0
  }

  predicate NoBusSince(a: Run, r: Run)
    requires Earlier(a, r)
  {
    a == r || (NoBusSince(a, r.prev) && !IsBus(r.event))
  }

  /** From any point where the session is over, and without further D-Bus calls, it takes at most `Measure`
      more steps of its own, however time passes and whatever the peer sends. */
  lemma {:induction false} Drains(c: Config, a: Run, r: Run)
    requires Valid(c, a) && Valid(c, r) && Earlier(a, r) && NoBusSince(a, r)
    requires Exec(c, a).state == Unbound
    ensures OwnSince(a, r) + Measure(Exec(c, r)) <= Measure(Exec(c, a))
    ensures Exec(c, r).state == Unbound && Exec(c, r).io.Ready?
  {
    if a == r {
      SessionOrder.RunOrdered(c, a);
    } else {
      Drains(c, a, r.prev);
      StepDrains(c, Exec(c, r.prev), r.event);
    }
  }

  /** When the measure is spent, nothing is queued or outstanding: no own step is possible any more. */
  lemma Drained(c: Config, r: Run, e: Event)
    requires Valid(c, r) && Exec(c, r).state == Unbound && IsOwn(e)
    requires Measure(Exec(c, r)) == 0
    ensures !Enabled(Exec(c, r), e)
  {
    SessionOrder.RunOrdered(c, r);
  }

  /** Until then some own step is possible, at once or once its timer is due: no session that is over is stuck. */
  lemma NeverStuck(s: Session) returns (e: Event, at: real)
    requires s.state == Unbound && s.io.Ready? && Measure(s) > 0
    ensures at >= s.now && IsOwn(e) && Enabled(s.(now := at), e)
  {
    at := s.now;
    if s.ready != [] {
      e := RunNext;
    } else if !s.reading.NoRead? {
      e := ReadFailed;
    } else if s.interval.Until? {
      e, at := IntervalExpires, if s.interval.due > at then s.interval.due else at;
    } else {
      e, at := ReplyExpires, if s.reply.due > at then s.reply.due else at;
    }
  }

  /** So every run in which the session is over can be continued, by time and its own steps alone, to one in which
      nothing is queued or outstanding. */
  lemma {:induction false} CanFinish(c: Config, r: Run) returns (end: Run)
    requires Valid(c, r) && Exec(c, r).state == Unbound
    ensures Earlier(r, end) && NoBusSince(r, end) && Valid(c, end)
    ensures Exec(c, end).state == Unbound && Measure(Exec(c, end)) == 0
    decreases Measure(Exec(c, r))
  {
    SessionOrder.RunOrdered(c, r);
    if Measure(Exec(c, r)) == 0 {
      end := r;
    } else {
      var e, at := NeverStuck(Exec(c, r));
      var ticked := Next(r, Tick(at));
      var next := Next(ticked, e);
      StepDrains(c, Exec(c, r), Tick(at));
      StepDrains(c, Exec(c, ticked), e);
      end := CanFinish(c, next);
      EarlierTrans(r, next, end);
    }
  }

  lemma {:induction false} EarlierTrans(a: Run, m: Run, r: Run)
    requires Earlier(a, m) && Earlier(m, r) && NoBusSince(a, m) && NoBusSince(m, r)
    ensures Earlier(a, r) && NoBusSince(a, r)
  {
    if m != r {
      EarlierTrans(a, m, r.prev);
    }
  }
}
