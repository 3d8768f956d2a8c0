/** The session object: the handlers that change its fields, each proved to make the move that module Session
    gives it. The queue, the outstanding read and the two waits stand for what the session has handed to asio. */
module SmppSessionObject {
  import opened Pdu
  import opened PduBuffers
  import opened MessageIds
  import opened Session
  import Moves = Session
  import Limiter

  /** The buffers a trace has handed to the socket. */
  function Written(t: Trace): seq<Bytes> {
    match t
    case Empty => []
    case Then(b, e) => if e.act.Sent? then Written(b) + [Wire(e.act.pdu)] else Written(b)
  }

  class SmppSession {
    const uuid: Bytes
    const elIntervalSec: nat
    const elTimeoutSec: nat
    const maxSubmitPerSec: nat

    var state: SessionState
    var systemId: Bytes
    var elSeq: u32
    var elPending: bool
    var elTimer: Wait
    var elTimeoutTimer: Wait
    var msgSeq: u32
    var deliverSeq: u32
    var tbTokens: real
    var tbLastRefill: real
    var reading: Reading
    var unread: Bytes
    var ready: seq<Handler>
    var io: IoThread
    var inFlight: seq<InFlight>
    var clock: real
    var written: seq<Bytes>
    ghost var input: Bytes
    ghost var trace: Trace

    ghost function Cfg(): Config { Config(uuid, elIntervalSec, elTimeoutSec, maxSubmitPerSec) }

    /** The fields as one value. */
    ghost function View(): Session
      reads this
    {
      Session(state, systemId, elSeq, elPending, elTimer, elTimeoutTimer, msgSeq, deliverSeq,
              Limiter.Bucket(tbTokens, tbLastRefill), reading, input, unread, ready, io, inFlight, clock, trace)
    }

    /** The bytes written are the wire forms of the PDUs recorded as sent. */
    ghost predicate Consistent()
      reads this
    {
      written == Written(trace)
    }

    constructor (uuid: Bytes, interval: nat, timeout: nat, rate: nat, now: real)
      ensures Cfg() == Config(uuid, interval, timeout, rate)
      ensures View() == Started(Cfg(), now) && Consistent()
    {
      this.uuid, elIntervalSec, elTimeoutSec, maxSubmitPerSec := uuid, interval, timeout, rate;
      state, systemId, elSeq, elPending := Open, [], 0, false;
      elTimer, elTimeoutTimer := NoWait, NoWait;
      msgSeq, deliverSeq, tbTokens, tbLastRefill := 0, 0x2000_0000, rate as real, now;
      reading, unread, ready, io, inFlight, clock, written := NoRead, [], [], Ready, [], now, [];
      input, trace := [], Empty;
      new;
      ReadHeader();
      if elIntervalSec > 0 {
        ScheduleEnquireLink();
      }
    }

    ghost method Record(a: Act)
      requires !a.Sent? && Consistent()
      modifies this`trace
      ensures View() == Emit(old(View()), a) && Consistent()
    {
      trace := Then(trace, Entry(clock, state, a));
    }

    method SendPdu(pdu: Bytes, ghost p: WholePacket, ghost why: Why)
      requires pdu == Wire(p) && Consistent()
      modifies this`trace, this`written
      ensures View() == Emit(old(View()), Sent(p, why)) && Consistent()
    {
      written := written + [pdu];
      trace := Then(trace, Entry(clock, state, Sent(p, why)));
    }

    method SendResponse(id: u32, status: u32, sequence: u32, text: Bytes)
      requires |text| <= CSTR_MAX && Consistent()
      modifies this`trace, this`written
      ensures View() == Answer(old(View()), id, status, sequence, text) && Consistent()
    {
      var pdu := MakeResponse(id, status, sequence, text);
      SendPdu(pdu, Response(id, status, sequence, text), Reply);
    }

    method ReadHeader()
      modifies this`reading
      ensures View() == Moves.ReadHeader(old(View()))
    {
      reading := ReadingHeader;
    }

    method DoDisconnect(reason: Reason)
      requires Consistent()
      modifies this
      ensures View() == Disconnect(old(View()), reason) && Consistent()
    {
      if state == Unbound { return; }
      state := Unbound;
      Record(Exited(reason));
    }

    // -------------------------------------------------------------- keepalive

    method ScheduleEnquireLink()
      modifies this`ready, this`elTimer
      ensures View() == Moves.ScheduleEnquireLink(Cfg(), old(View()))
    {
      if elTimer.Until? {
        ready := ready + [IntervalCancelled];
      }
      elTimer := Until(clock + elIntervalSec as real);
    }

    method CancelTimeoutTimer()
      modifies this`ready, this`elTimeoutTimer
      ensures View() == CancelReplyWait(old(View()))
    {
      if elTimeoutTimer.Until? {
        ready := ready + [ReplyCancelled];
        elTimeoutTimer := NoWait;
      }
    }

    method ArmEnquireLinkTimeout()
      modifies this`ready, this`elTimeoutTimer
      ensures View() == ArmReplyWait(Cfg(), old(View()))
    {
      CancelTimeoutTimer();
      elTimeoutTimer := Until(clock + elTimeoutSec as real);
    }

    method OnEnquireLinkTimer()
      requires Consistent()
      modifies this
      ensures View() == OnInterval(Cfg(), old(View())) && Consistent()
    {
      hide Response;
      hide Wire;
      hide Written;
      if elPending || state == Unbound { return; }
      elSeq := if elSeq == 0 then 0x1000_0000 else (elSeq + 1) % 0x1_0000_0000;
      elPending := true;
      var pdu := MakeResponse(ENQUIRE_LINK, ESME_ROK, elSeq, []);
      SendPdu(pdu, Response(ENQUIRE_LINK, ESME_ROK, elSeq, []), KeepAlive);
      ArmEnquireLinkTimeout();
    }

    method OnEnquireLinkTimeout()
      requires Consistent()
      modifies this
      ensures View() == OnReplyTimeout(old(View())) && Consistent()
    {
      if !elPending { return; }
      DoDisconnect(EnquireTimeout);
    }

    method HandleEnquireLinkResp(h: Header)
      requires Consistent()
      modifies this
      ensures View() == Moves.HandleEnquireLinkResp(Cfg(), old(View()), h) && Consistent()
    {
      if h.sequence == elSeq && elPending {
        elPending := false;
        CancelTimeoutTimer();
        ScheduleEnquireLink();
      }
    }

    // -------------------------------------------------------------- requests

    /** True when the request may go ahead. */
    method ThrottleCheck() returns (ok: bool)
      requires Consistent()
      modifies this`tbTokens, this`tbLastRefill
      ensures var r := Limiter.Check(maxSubmitPerSec, old(View()).bucket, clock);
              View() == old(View()).(bucket := r.0) && ok == r.1
      ensures Consistent()
    {
      if maxSubmitPerSec == 0 { return true; }
      var elapsed := clock - tbLastRefill;
      tbLastRefill := clock;
      tbTokens := tbTokens + elapsed * maxSubmitPerSec as real;
      if tbTokens > maxSubmitPerSec as real {
        tbTokens := maxSubmitPerSec as real;
      }
      if tbTokens >= 1.0 {
        tbTokens := tbTokens - 1.0;
        return true;
      }
      return false;
    }

    method NextMessageId() returns (id: Bytes)
      modifies this`msgSeq
      ensures View() == old(View()).(msgSeq := Wrapped(old(msgSeq) + 1))
      ensures id == MessageId(uuid, msgSeq)
    {
      msgSeq := (msgSeq + 1) % 0x1_0000_0000;
      id := Prefix(uuid) + Hex(msgSeq, DIGITS);
    }

    /** A request that passed both checks: parsed, numbered, answered and routed. */
    method AcceptSubmitSm(p: WholePacket)
      requires Consistent()
      modifies this
      ensures View() == Accept(Cfg(), old(View()), p) && Consistent()
    {
      hide ParseSubmitSm;
      hide MessageId;
      hide Written;
      hide Answer;
      var sm, _ := ReadSubmitSm(p.body);
      var id := NextMessageId();
      SendResponse(SUBMIT_SM_RESP, ESME_ROK, p.header.sequence, id);
      Record(Routed(sm.source.addr, sm.dest.addr, sm.shortMessage, id));
    }

    method HandleSubmitSm(p: WholePacket)
      requires Consistent()
      modifies this
      ensures View() == Moves.HandleSubmitSm(Cfg(), old(View()), p) && Consistent()
    {
      hide Limiter.Check;
      hide Accept;
      hide Written;
      hide Answer;
      var status := if state == BoundTx || state == BoundTrx then ESME_ROK else ESME_RINVBNDSTS;
      if status == ESME_ROK {
        var ok := ThrottleCheck();
        Record(Throttled(ok));
        if !ok {
          status := ESME_RTHROTTLED;
        }
      }
      if status == ESME_ROK {
        AcceptSubmitSm(p);
      } else {
        SendResponse(SUBMIT_SM_RESP, status, p.header.sequence, []);
      }
    }

    /** Up to the call of `Authenticate`. */
    method HandleBind(p: WholePacket)
      requires Consistent() && IsBind(p.header.id)
      modifies this
      ensures View() == Moves.HandleBind(old(View()), p) && Consistent()
    {
      hide TakeCstr;
      hide Written;
      hide Answer;
      if state != Open {
        SendResponse(ResponseId(p.header.id), ESME_RALYBND, p.header.sequence, []);
        return;
      }
      var sid, off := ReadCstr(p.body, 0);
      var pass, _ := ReadCstr(p.body, off);
      assert p.body[0..] == p.body;
      Record(AuthCall(sid, pass));
      io := Authenticating(p.header, sid);
    }

    /** From its return on. */
    method FinishBind(h: BindHeader, sid: Bytes, r: AuthResult)
      requires Consistent()
      modifies this
      ensures View() == Moves.FinishBind(old(View()), h, sid, r) && Consistent()
    {
      hide Answer;
      hide Disconnect;
      hide Written;
      hide Emit;
      io := Ready;
      var ok := r.Approves();
      Record(Authenticated(h.id, r));
      ghost var recorded := View();
      assert recorded == Emit(old(View()).(io := Ready), Authenticated(h.id, r));
      if !ok {
        var code := if r.AuthAnswer? then r.code else ESME_RINVSYSID;
        SendResponse(ResponseId(h.id), code, h.sequence, []);
        DoDisconnect(AuthFailed);
        return;
      }
      systemId, state := sid, BoundState(h.id);
      assert View() == recorded.(systemId := sid, state := BoundState(h.id));
      SendResponse(ResponseId(h.id), ESME_ROK, h.sequence, SERVER_NAME);
      Record(Details(sid, state));
    }

    method HandleUnbind(h: Header)
      requires Consistent()
      modifies this
      ensures View() == Moves.HandleUnbind(old(View()), h) && Consistent()
    {
      SendResponse(UNBIND_RESP, ESME_ROK, h.sequence, []);
      DoDisconnect(UnbindRequest);
    }

    method Dispatch(p: WholePacket)
      requires Consistent()
      modifies this
      ensures View() == Moves.Dispatch(Cfg(), old(View()), p) && Consistent()
    {
      hide Moves.HandleSubmitSm;
      hide Moves.HandleBind;
      hide Moves.HandleUnbind;
      hide Moves.HandleEnquireLinkResp;
      Record(Dispatched(p));
      var id := p.header.id;
      if IsBind(id) {
        HandleBind(p);
      } else if id == UNBIND {
        HandleUnbind(p.header);
      } else if id == ENQUIRE_LINK {
        SendResponse(ENQUIRE_LINK_RESP, ESME_ROK, p.header.sequence, []);
      } else if id == SUBMIT_SM {
        HandleSubmitSm(p);
      } else if id == ENQUIRE_LINK_RESP {
        HandleEnquireLinkResp(p.header);
      } else if id == DELIVER_SM_RESP {
      } else {
        SendResponse(GENERIC_NACK, ESME_RINVCMDID, p.header.sequence, []);
      }
    }

    // -------------------------------------------------------------- reading

    method OnBody(p: WholePacket)
      requires Consistent()
      modifies this
      ensures View() == Received(Cfg(), old(View()), p) && Consistent()
    {
      hide Moves.Dispatch;
      Dispatch(p);
      if io.Ready? {
        ReadHeader();
      }
    }

    method ReadBody(h: Header)
      requires Consistent() && h.length >= HEADER_SIZE
      modifies this
      ensures Consistent()
      ensures View() == if h.length == HEADER_SIZE then Received(Cfg(), old(View()), Packet(h, []))
                        else old(View()).(reading := ReadingBody(h))
    {
      hide Received;
      if h.length == HEADER_SIZE {
        OnBody(Packet(h, []));
        return;
      }
      reading := ReadingBody(h);
    }

    method OnHeader(buf: HeaderBytes)
      requires Consistent()
      modifies this
      ensures View() == Moves.OnHeader(Cfg(), old(View()), buf) && Consistent()
    {
      hide Received;
      hide DecodeHeader;
      var h := DecodeHeader(buf);
      if h.length < HEADER_SIZE {
        DoDisconnect(InvalidLength);
        return;
      }
      ReadBody(h);
    }

    /** The io thread takes the next completed handler and runs it. */
    method RunNext()
      requires Consistent() && Enabled(View(), Event.RunNext)
      modifies this
      ensures View() == Step(Cfg(), old(View()), Event.RunNext) && Consistent()
    {
      hide Moves.OnHeader;
      hide Received;
      hide OnInterval;
      var h := ready[0];
      ready := ready[1..];
      match h
      case HeaderDone(buf) => OnHeader(buf);
      case HeaderFailed => DoDisconnect(SocketClosed);
      case BodyDone(p) => OnBody(p);
      case BodyFailed(_) => DoDisconnect(BodyRead);
      case IntervalFired => OnEnquireLinkTimer();
      case IntervalCancelled =>
      case ReplyFired => OnEnquireLinkTimeout();
      case ReplyCancelled =>
      case DisconnectPosted => DoDisconnect(Requested);
    }

    /** The io thread resumes after `Authenticate`. */
    method AuthenticateReturned(r: AuthResult)
      requires Consistent() && Enabled(View(), AuthReturns(r))
      modifies this
      ensures View() == Step(Cfg(), old(View()), AuthReturns(r)) && Consistent()
    {
      hide Moves.FinishBind;
      FinishBind(io.header, io.systemId, r);
      ReadHeader();
    }

    // -------------------------------------------------------------- D-Bus calls

    /** `Disconnect` only posts to the io thread. */
    method PostDisconnect()
      modifies this`ready
      ensures View() == Step(Cfg(), old(View()), Event.PostDisconnect)
    {
      ready := ready + [DisconnectPosted];
    }

    /** The first half of DeliverSm: the state check under the lock. False stands for the error it throws. */
    method DeliverSmCheck(call: Delivery) returns (ok: bool)
      modifies this`inFlight
      ensures View() == Step(Cfg(), old(View()), DeliverCheck(call))
      ensures ok == Receiving(state)
    {
      ok := state == BoundRx || state == BoundTrx;
      if ok {
        inFlight := inFlight + [InFlight(call, state)];
      }
    }

    method NextDeliverSeq() returns (number: u32)
      modifies this`deliverSeq
      ensures number == old(deliverSeq)
      ensures View() == old(View()).(deliverSeq := Wrapped(old(deliverSeq) + 1))
    {
      number := deliverSeq;
      deliverSeq := (deliverSeq + 1) % 0x1_0000_0000;
    }

    /** The second half: number the PDU and send it. */
    method DeliverSmSend(k: nat) returns (number: u32)
      requires Consistent() && k < |inFlight|
      modifies this
      ensures View() == Step(Cfg(), old(View()), DeliverSend(k)) && Consistent()
      ensures number == old(deliverSeq)
    {
      hide Deliver;
      hide Wire;
      hide Written;
      var f := inFlight[k];
      inFlight := inFlight[..k] + inFlight[k + 1..];
      number := NextDeliverSeq();
      var src, dst := Address(0, 0, f.call.src), Address(0, 0, f.call.dst);
      var pdu := MakeDeliverSm(number, src, dst, f.call.msg);
      SendPdu(pdu, Deliver(number, src, dst, f.call.msg), Delivering(f.call, f.checked));
    }
  }
}
