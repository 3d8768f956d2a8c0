/** The sequence numbers of what the server itself starts: keepalive requests and deliveries. */
module SessionSequences {
  import opened Pdu
  import opened Session
  import opened MessageIds
  import Limiter

  function EnquireSeqs(t: Trace): seq<u32> {
    match t
    case Empty => []
    case Then(b, e) =>
      if e.act.Sent? && e.act.pdu.header.id == ENQUIRE_LINK then EnquireSeqs(b) + [e.act.pdu.header.sequence]
      else EnquireSeqs(b)
  }

  datatype Done = Done(call: Delivery, pdu: Packet)

  /** The deliveries sent, in order. */
  function Deliveries(t: Trace): seq<Done> {
    match t
    case Empty => []
    case Then(b, e) =>
      if e.act.Sent? && e.act.why.Delivering? then Deliveries(b) + [Done(e.act.why.call, e.act.pdu)]
      else Deliveries(b)
  }

  /** The k-th keepalive number of a session, counting from 0. */
  function EnquireSeq(k: nat): u32 {
    if k == 0 then 0x1000_0000 else NextEnquireSeq(EnquireSeq(k - 1))
  }

  function DeliverSeq(k: nat): u32 { Wrapped(0x2000_0000 + k) }

  /** The DELIVER_SM that the k-th delivery is to be. */
  function DeliveryPdu(call: Delivery, k: nat): Packet {
    Deliver(DeliverSeq(k), Address(0, 0, call.src), Address(0, 0, call.dst), call.msg)
  }

  /** What a PDU was sent for shows in its id: DELIVER_SM for a delivery, ENQUIRE_LINK for the keepalive, and the
      response bit for a reply. What the server starts has status ESME_ROK, and an ENQUIRE_LINK has no body. */
  predicate IdsFit(t: Trace) {
    t.Then? ==>
      && IdsFit(t.before)
      && (t.entry.act.Sent? ==>
            var id, why := t.entry.act.pdu.header.id, t.entry.act.why;
            && (id == DELIVER_SM <==> why.Delivering?)
            && (id == ENQUIRE_LINK <==> why.KeepAlive?)
            && (id >= 0x8000_0000 <==> why.Reply?)
            && (!why.Reply? ==> t.entry.act.pdu.header.status == ESME_ROK)
            && (why.KeepAlive? ==> t.entry.act.pdu.body == []))
  }

  predicate Numbered(s: Session) {
    var es, ds := EnquireSeqs(s.trace), Deliveries(s.trace);
    && (forall k | 0 <= k < |es| :: es[k] == EnquireSeq(k))
    && s.elSeq == (if es == [] then 0 else EnquireSeq(|es| - 1))
    && (forall k | 0 <= k < |ds| :: ds[k].pdu == DeliveryPdu(ds[k].call, k))
    && s.deliverSeq == DeliverSeq(|ds|)
    && IdsFit(s.trace)
  }

  /** `t` has started nothing since `s`. */
  predicate SameNumbers(s: Session, t: Session) {
    && t.elSeq == s.elSeq && t.deliverSeq == s.deliverSeq
    && EnquireSeqs(t.trace) == EnquireSeqs(s.trace) && Deliveries(t.trace) == Deliveries(s.trace)
    && t.inFlight == s.inFlight
    && (IdsFit(s.trace) ==> IdsFit(t.trace))
  }

  lemma EmitSame(s: Session, a: Act)
    requires a.Sent? ==> a.pdu.header.id >= 0x8000_0000 && a.why.Reply?
    ensures SameNumbers(s, Emit(s, a))
  {
  }

  lemma AnswerSame(s: Session, id: u32, status: u32, sequence: u32, text: Bytes)
    requires |text| <= CSTR_MAX && id >= 0x8000_0000
    ensures SameNumbers(s, Answer(s, id, status, sequence, text))
  {
  }

  lemma SubmitSame(c: Config, s: Session, p: WholePacket)
    ensures SameNumbers(s, HandleSubmitSm(c, s, p))
  {
    hide ParseSubmitSm;
    hide MessageId;
    hide Limiter.Check;
    hide Answer;
    var q := p.header.sequence;
    if s.state != BoundTx && s.state != BoundTrx {
      AnswerSame(s, SUBMIT_SM_RESP, ESME_RINVBNDSTS, q, []);
    } else {
      var (bucket, ok) := Limiter.Check(c.rate, s.bucket, s.now);
      EmitSame(s.(bucket := bucket), Throttled(ok));
      var s1 := Emit(s.(bucket := bucket), Throttled(ok));
      if ok {
        var s2 := s1.(msgSeq := Wrapped(s1.msgSeq + 1));
        AnswerSame(s2, SUBMIT_SM_RESP, ESME_ROK, q, MessageId(c.uuid, s2.msgSeq));
      } else {
        AnswerSame(s1, SUBMIT_SM_RESP, ESME_RTHROTTLED, q, []);
      }
    }
  }

  lemma DispatchSame(c: Config, s: Session, p: WholePacket)
    ensures SameNumbers(s, Dispatch(c, s, p))
  {
    hide HandleSubmitSm;
    hide Answer;
    hide TakeCstr;
    EmitSame(s, Dispatched(p));
    var s1, h := Emit(s, Dispatched(p)), p.header;
    if IsBind(h.id) {
      EmitSame(s1, BindCall(p.body));
      AnswerSame(s1, ResponseId(h.id), ESME_RALYBND, h.sequence, []);
    } else if h.id == UNBIND {
      AnswerSame(s1, UNBIND_RESP, ESME_ROK, h.sequence, []);
    } else if h.id == ENQUIRE_LINK {
      AnswerSame(s1, ENQUIRE_LINK_RESP, ESME_ROK, h.sequence, []);
    } else if h.id == SUBMIT_SM {
      SubmitSame(c, s1, p);
    } else if h.id != ENQUIRE_LINK_RESP && h.id != DELIVER_SM_RESP {
      AnswerSame(s1, GENERIC_NACK, ESME_RINVCMDID, h.sequence, []);
    }
  }

  lemma FinishBindSame(s: Session, h: BindHeader, systemId: Bytes, r: AuthResult)
    ensures SameNumbers(s, FinishBind(s, h, systemId, r))
  {
    hide Answer;
    var ok := r.Approves();
    EmitSame(s.(io := Ready), Authenticated(h.id, r));
    var s1 := Emit(s.(io := Ready), Authenticated(h.id, r));
    if ok {
      var s2 := s1.(systemId := systemId, state := BoundState(h.id));
      AnswerSame(s2, ResponseId(h.id), ESME_ROK, h.sequence, SERVER_NAME);
    } else {
      AnswerSame(s1, ResponseId(h.id), if r.AuthAnswer? then r.code else ESME_RINVSYSID, h.sequence, []);
    }
  }

  lemma DisconnectSame(s: Session, reason: Reason)
    ensures SameNumbers(s, Disconnect(s, reason))
  {
  }

  lemma SameNumbered(s: Session, t: Session)
    requires Numbered(s) && SameNumbers(s, t)
    ensures Numbered(t)
  {
  }

  lemma EnquireSeqNext(n: nat)
    ensures NextEnquireSeq(if n == 0 then 0 else EnquireSeq(n - 1)) == EnquireSeq(n)
  {
  }

  /** The keepalive starts requests, but no delivery. */
  lemma IntervalNumbered(c: Config, s: Session)
    requires Numbered(s)
    ensures var t := OnInterval(c, s);
            Numbered(t) && Deliveries(t.trace) == Deliveries(s.trace) && t.inFlight == s.inFlight
  {
    hide NextEnquireSeq;
    hide EnquireSeq;
    hide DeliverSeq;
    hide DeliveryPdu;
    EnquireSeqNext(|EnquireSeqs(s.trace)|);
  }

  /** No other handler starts anything. */
  lemma HandlerSame(c: Config, s: Session, h: Handler)
    requires !h.IntervalFired?
    ensures SameNumbers(s, RunHandler(c, s, h))
  {
    hide Dispatch;
    hide Disconnect;
    hide DecodeHeader;
    hide OnInterval;
    match h
    case HeaderDone(buf) =>
      if DecodeHeader(buf).length == HEADER_SIZE {
        DispatchSame(c, s, Packet(DecodeHeader(buf), []));
      }
      DisconnectSame(s, InvalidLength);
    case HeaderFailed => DisconnectSame(s, SocketClosed);
    case BodyDone(p) => DispatchSame(c, s, p);
    case BodyFailed(_) => DisconnectSame(s, BodyRead);
    case ReplyFired => DisconnectSame(s, EnquireTimeout);
    case DisconnectPosted => DisconnectSame(s, Requested);
    case _ =>
  }

  lemma HandlerNumbered(c: Config, s: Session, h: Handler)
    requires Numbered(s)
    ensures Numbered(RunHandler(c, s, h))
    ensures Deliveries(RunHandler(c, s, h).trace) == Deliveries(s.trace) && RunHandler(c, s, h).inFlight == s.inFlight
  {
    hide Numbered;
    if h.IntervalFired? {
      hide OnInterval;
      IntervalNumbered(c, s);
    } else {
      hide RunHandler;
      HandlerSame(c, s, h);
      SameNumbered(s, RunHandler(c, s, h));
    }
  }

  lemma DeliverSeqNext(n: nat)
    ensures Wrapped(DeliverSeq(n) + 1) == DeliverSeq(n + 1)
  {
  }

  lemma SendNumbered(s: Session, k: nat)
    requires Numbered(s) && k < |s.inFlight|
    ensures Numbered(SendDelivery(s, k))
  {
    hide DeliverBody;
    hide Wrapped;
    hide DeliverSeq;
    DeliverSeqNext(|Deliveries(s.trace)|);
    var t := SendDelivery(s, k);
    var n := |Deliveries(s.trace)|;
    assert Deliveries(t.trace) == Deliveries(s.trace) + [Done(s.inFlight[k].call, DeliveryPdu(s.inFlight[k].call, n))];
  }

  lemma StepNumbered(c: Config, s: Session, e: Event)
    requires Numbered(s) && Enabled(s, e)
    ensures Numbered(Step(c, s, e))
    ensures !e.DeliverSend? ==> Deliveries(Step(c, s, e).trace) == Deliveries(s.trace)
    ensures !e.DeliverSend? && !e.DeliverCheck? ==> Step(c, s, e).inFlight == s.inFlight
  {
    hide RunHandler;
    hide FinishBind;
    hide SendDelivery;
    hide Deliver;
    match e
    case RunNext => HandlerNumbered(c, s.(ready := s.ready[1..]), s.ready[0]);
    case AuthReturns(r) => FinishBindSame(s, s.io.header, s.io.systemId, r);
    case DeliverSend(k) => SendNumbered(s, k);
    case _ =>
  }

  lemma {:induction false} RunNumbered(c: Config, r: Run)
    requires Valid(c, r)
    ensures Numbered(Exec(c, r))
  {
    if r.Next? {
      RunNumbered(c, r.prev);
      StepNumbered(c, Exec(c, r.prev), r.event);
    }
  }

  const ENQUIRE_PERIOD := 0xF000_0001

  lemma PeriodNext(k: nat)
    ensures (k + 1) % ENQUIRE_PERIOD
            == if k % ENQUIRE_PERIOD == 0xF000_0000 then 0 else k % ENQUIRE_PERIOD + 1
  {
  }

  /** The keepalive numbers count up from 0x10000000 to 0xFFFFFFFF; then comes one 0, and they start over. */
  lemma {:induction false} EnquireSeqValue(k: nat)
    ensures EnquireSeq(k)
            == if k % ENQUIRE_PERIOD == 0xF000_0000 then 0 else 0x1000_0000 + k % ENQUIRE_PERIOD
  {
    if k != 0 {
      EnquireSeqValue(k - 1);
      PeriodNext(k - 1);
    }
  }

  lemma EnquireSeqFirst(k: nat)
    requires k < 0xF000_0000
    ensures EnquireSeq(k) == 0x1000_0000 + k
  {
    hide EnquireSeq;
    EnquireSeqValue(k);
  }

  function DeliverSeqs(t: Trace): (ds: seq<u32>)
    ensures |ds| == |Deliveries(t)|
    ensures forall k | 0 <= k < |ds| :: ds[k] == Deliveries(t)[k].pdu.header.sequence
  {
    seq(|Deliveries(t)|, k requires 0 <= k < |Deliveries(t)| => Deliveries(t)[k].pdu.header.sequence)
  }

  /** In any run with at most 2^28 keepalive requests and at most 0x60000000 deliveries, overlapping or not, all
      server-started sequence numbers are distinct and within the 1..0x7FFFFFFF of section 5.1.4 of SMPP v3.4. */
  lemma SequencesDistinct(c: Config, r: Run)
    requires Valid(c, r)
    requires |EnquireSeqs(Exec(c, r).trace)| <= 0x1000_0000 && |DeliverSeqs(Exec(c, r).trace)| <= 0x6000_0000
    ensures var all := EnquireSeqs(Exec(c, r).trace) + DeliverSeqs(Exec(c, r).trace);
            && (forall j, k | 0 <= j < k < |all| :: all[j] != all[k])
            && (forall k | 0 <= k < |all| :: 1 <= all[k] <= 0x7FFF_FFFF)
  {
    hide Step;
    hide EnquireSeq;
    RunNumbered(c, r);
    var es, ds := EnquireSeqs(Exec(c, r).trace), DeliverSeqs(Exec(c, r).trace);
    forall k | 0 <= k < |es| ensures es[k] == 0x1000_0000 + k {
      EnquireSeqFirst(k);
    }
    forall k | 0 <= k < |ds| ensures ds[k] == 0x2000_0000 + k {
      assert Deliveries(Exec(c, r).trace)[k].pdu == DeliveryPdu(Deliveries(Exec(c, r).trace)[k].call, k);
    }
  }

  /** In every run the id of each PDU sent fits what it was sent for, so the deliveries are exactly the PDUs with id
      DELIVER_SM. */
  lemma SentIdsFit(c: Config, r: Run)
    requires Valid(c, r)
    ensures IdsFit(Exec(c, r).trace)
    ensures |Deliveries(Exec(c, r).trace)| == CountId(Exec(c, r).trace, DELIVER_SM)
  {
    RunNumbered(c, r);
    DeliveriesById(Exec(c, r).trace);
  }

  /** How many PDUs with an id were sent. */
  function CountId(t: Trace, id: u32): nat {
    match t
    case Empty => 0
    case Then(b, e) => CountId(b, id) + if e.act.Sent? && e.act.pdu.header.id == id then 1 else 0
  }

  lemma {:induction false} DeliveriesById(t: Trace)
    requires IdsFit(t)
    ensures |Deliveries(t)| == CountId(t, DELIVER_SM)
  {
    if t.Then? {
      DeliveriesById(t.before);
    }
  }

  /** The bounds are tight: one keepalive request more would repeat the first delivery's number, and one
      delivery more would leave the range. */
  lemma BoundsTight()
    ensures EnquireSeq(0x1000_0000) == DeliverSeq(0) && DeliverSeq(0x6000_0000) > 0x7FFF_FFFF
  {
    hide EnquireSeq;
    EnquireSeqFirst(0x1000_0000);
  }
}
