/** The framed reader: exact reads of a header and then of a body, whatever pieces the bytes arrive in. */
module SessionFraming {
  import opened Pdu
  import opened Framing
  import opened Session
  import opened Queue
  import opened MessageIds
  import Limiter
  import Framer

  /** The PDUs dispatched so far, in order. */
  function Pdus(t: Trace): seq<WholePacket> {
    match t
    case Empty => []
    case Then(b, e) => if e.act.Dispatched? then Pdus(b) + [e.act.pdu] else Pdus(b)
  }

  /** Their bytes. */
  function PduBytes(t: Trace): Bytes {
    match t
    case Empty => []
    case Then(b, e) => if e.act.Dispatched? then PduBytes(b) + Wire(e.act.pdu) else PduBytes(b)
  }

  // ---------------------------------------------------------------- bytes in hand

  /** Bytes taken from the socket for a PDU that is not dispatched yet. */
  function HandOf(h: Handler): Bytes {
    match h
    case HeaderDone(buf) => buf
    case BodyDone(p) => Wire(p)
    case BodyFailed(header) => EncodeHeader(header)
    case _ => []
  }

  function Hand(q: seq<Handler>): Bytes {
    if q == [] then [] else HandOf(q[0]) + Hand(q[1..])
  }

  function ReadingHand(r: Reading): Bytes {
    if r.ReadingBody? then EncodeHeader(r.header) else []
  }

  lemma {:induction false} HandPush(q: seq<Handler>, h: Handler)
    ensures Hand(q + [h]) == Hand(q) + HandOf(h)
  {
    hide HandOf;
    if q == [] {
      assert q + [h] == [h];
    } else {
      HandPush(q[1..], h);
      assert (q + [h])[1..] == q[1..] + [h];
    }
  }

  lemma {:induction false} HandNone(q: seq<Handler>)
    requires Count(q, ReadKind) == 0
    ensures Hand(q) == []
  {
    if q != [] {
      HandNone(q[1..]);
    }
  }

  // ---------------------------------------------------------------- the invariant

  /** How many reads are under way: outstanding, completed but not handled, or dispatched and waiting for
      `Authenticate` before the next one starts. */
  function Reads(s: Session): nat {
    Count(s.ready, ReadKind)
    + (if s.reading.NoRead? then 0 else 1)
    + (if s.io.Ready? then 0 else 1)
  }

  /** Bytes that have arrived but belong to no dispatched PDU yet. */
  function Unframed(s: Session): Bytes {
    Hand(s.ready) + ReadingHand(s.reading) + s.unread
  }

  /** A live session is always reading. Nothing is lost or invented as long as a read is under way, and what has been
      dispatched stays a prefix of the input when the last one has failed. */
  predicate Framed(s: Session) {
    && Reads(s) <= 1
    && (s.state != Unbound ==> Reads(s) == 1)
    && (Reads(s) == 1 ==> s.input == PduBytes(s.trace) + Unframed(s))
    && PduBytes(s.trace) <= s.input
  }

  /** `t` differs from `s` in nothing the reader is concerned with. */
  predicate SameReader(s: Session, t: Session) {
    && t.reading == s.reading && t.unread == s.unread && t.input == s.input && t.ready == s.ready && t.io == s.io
    && PduBytes(t.trace) == PduBytes(s.trace)
    && (t.state != Unbound ==> s.state != Unbound)
  }

  lemma EmitSame(s: Session, a: Act)
    requires !a.Dispatched?
    ensures SameReader(s, Emit(s, a))
  {
  }

  lemma SubmitSame(c: Config, s: Session, p: WholePacket)
    ensures SameReader(s, HandleSubmitSm(c, s, p))
  {
    hide ParseSubmitSm;
    hide MessageId;
    hide Limiter.Check;
    hide Response;
    if s.state == BoundTx || s.state == BoundTrx {
      var (bucket, ok) := Limiter.Check(c.rate, s.bucket, s.now);
      var s1 := Emit(s.(bucket := bucket), Throttled(ok));
      EmitSame(s.(bucket := bucket), Throttled(ok));
      if ok {
        var s2 := s1.(msgSeq := Wrapped(s1.msgSeq + 1));
        EmitSame(s2, Sent(Response(SUBMIT_SM_RESP, ESME_ROK, p.header.sequence, MessageId(c.uuid, s2.msgSeq)), Reply));
      }
    }
  }

  /** A dispatch adds exactly its PDU to what has been dispatched. */
  lemma DispatchFrames(c: Config, s: Session, p: WholePacket)
    requires s.io.Ready?
    ensures var t := Dispatch(c, s, p);
            && t.reading == s.reading && t.unread == s.unread && t.input == s.input
            && Count(t.ready, ReadKind) == Count(s.ready, ReadKind) && Hand(t.ready) == Hand(s.ready)
            && PduBytes(t.trace) == PduBytes(s.trace) + Wire(p)
            && (t.state != Unbound ==> s.state != Unbound)
  {
    hide HandleSubmitSm;
    hide HandleEnquireLinkResp;
    hide Response;
    hide TakeCstr;
    hide Wire;
    hide Hand;
    hide Count;
    var s1 := Emit(s, Dispatched(p));
    assert PduBytes(s1.trace) == PduBytes(s.trace) + Wire(p);
    if p.header.id == SUBMIT_SM {
      SubmitSame(c, s1, p);
    } else if p.header.id == ENQUIRE_LINK_RESP {
      EnquireRespFrames(c, s1, p.header);
    } else if IsBind(p.header.id) {
      EmitSame(s1, BindCall(p.body));
    } else if p.header.id == UNBIND {
      EmitSame(s1, Sent(Response(UNBIND_RESP, ESME_ROK, p.header.sequence, []), Reply));
    }
  }

  lemma EnquireRespFrames(c: Config, s: Session, h: Header)
    ensures var t := HandleEnquireLinkResp(c, s, h);
            && t.reading == s.reading && t.unread == s.unread && t.input == s.input && t.trace == s.trace
            && Count(t.ready, ReadKind) == Count(s.ready, ReadKind) && Hand(t.ready) == Hand(s.ready)
            && t.state == s.state && t.io == s.io
  {
    hide Hand;
    hide Count;
    PushFrames(s.ready, ReplyCancelled);
    PushFrames(s.ready + [ReplyCancelled], IntervalCancelled);
    PushFrames(s.ready, IntervalCancelled);
  }

  lemma PushFrames(q: seq<Handler>, h: Handler)
    requires KindOf(h) != ReadKind
    ensures Count(q + [h], ReadKind) == Count(q, ReadKind) && Hand(q + [h]) == Hand(q)
  {
    CountPush(q, h, ReadKind);
    HandPush(q, h);
  }

  /** Dispatching the PDU in hand puts its bytes with those already dispatched. */
  lemma ReceivedFramed(c: Config, s: Session, p: WholePacket)
    requires s.io.Ready? && s.reading.NoRead? && Count(s.ready, ReadKind) == 0
    requires s.input == PduBytes(s.trace) + (Wire(p) + s.unread)
    ensures Framed(Received(c, s, p))
  {
    hide Dispatch;
    hide Wire;
    DispatchFrames(c, s, p);
    HandNone(s.ready);
    Assoc(PduBytes(s.trace), Wire(p), s.unread);
    assert [] + [] + s.unread == s.unread;
  }

  lemma HeaderFramed(c: Config, s: Session, buf: HeaderBytes)
    requires s.io.Ready? && s.reading.NoRead? && Count(s.ready, ReadKind) == 0
    requires s.input == PduBytes(s.trace) + (buf + s.unread)
    ensures Framed(OnHeader(c, s, buf))
  {
    hide Received;
    hide DecodeHeader;
    hide EncodeHeader;
    hide PduBytes;
    var h := DecodeHeader(buf);
    EncodeDecodedHeader(buf);
    HandNone(s.ready);
    if h.length == HEADER_SIZE {
      assert Wire(Packet(h, [])) == buf;
      ReceivedFramed(c, s, Packet(h, []));
    } else if h.length < HEADER_SIZE {
      DisconnectFramed(s, InvalidLength);
    } else {
      assert [] + EncodeHeader(h) + s.unread == buf + s.unread;
    }
  }

  lemma DisconnectFramed(s: Session, reason: Reason)
    requires Reads(s) == 0 && PduBytes(s.trace) <= s.input
    ensures Framed(Disconnect(s, reason))
  {
  }

  /** Taking a handler off the queue: when it is the read, no other is under way. */
  lemma PopReads(s: Session)
    requires Framed(s) && s.ready != []
    ensures Count(s.ready[1..], ReadKind) <= 1
    ensures KindOf(s.ready[0]) == ReadKind ==>
              && s.reading.NoRead? && s.io.Ready? && Count(s.ready[1..], ReadKind) == 0
              && s.input == PduBytes(s.trace) + (HandOf(s.ready[0]) + s.unread)
    ensures KindOf(s.ready[0]) != ReadKind ==> Framed(s.(ready := s.ready[1..]))
  {
    hide HandOf;
    hide PduBytes;
    if KindOf(s.ready[0]) == ReadKind {
      HandNone(s.ready[1..]);
      assert HandOf(s.ready[0]) + [] + [] + s.unread == HandOf(s.ready[0]) + s.unread;
    } else {
      OtherHand(s.ready[0]);
      assert [] + Hand(s.ready[1..]) == Hand(s.ready[1..]);
    }
  }

  lemma OtherHand(h: Handler)
    requires KindOf(h) != ReadKind
    ensures HandOf(h) == []
  {
  }

  lemma SameFramed(s: Session, t: Session)
    requires Framed(s) && SameReader(s, t)
    ensures Framed(t)
  {
  }

  /** The keepalive and the posted disconnect leave the reader alone. */
  lemma OtherHandlerFramed(c: Config, s: Session, h: Handler)
    requires Framed(s) && KindOf(h) != ReadKind
    ensures Framed(RunHandler(c, s, h))
  {
    hide Response;
    hide Hand;
    hide Count;
    if h.IntervalFired? && !s.elPending && s.state != Unbound {
      var q := NextEnquireSeq(s.elSeq);
      var a := Sent(Response(ENQUIRE_LINK, ESME_ROK, q, []), KeepAlive);
      EmitSame(s.(elSeq := q, elPending := true), a);
      PushFrames(s.ready, ReplyCancelled);
    } else if h.ReplyFired? {
      SameFramed(s, Disconnect(s, EnquireTimeout));
    } else if h.DisconnectPosted? {
      SameFramed(s, Disconnect(s, Requested));
    }
  }

  lemma HandlerFramed(c: Config, s: Session)
    requires Framed(s) && s.ready != [] && s.io.Ready?
    ensures Framed(RunHandler(c, s.(ready := s.ready[1..]), s.ready[0]))
  {
    hide Received;
    hide OnHeader;
    hide OnInterval;
    hide Hand;
    hide PduBytes;
    hide Wire;
    PopReads(s);
    var h, t := s.ready[0], s.(ready := s.ready[1..]);
    match h
    case HeaderDone(buf) => HeaderFramed(c, t, buf);
    case HeaderFailed => DisconnectFramed(t, SocketClosed);
    case BodyDone(p) => ReceivedFramed(c, t, p);
    case BodyFailed(_) => DisconnectFramed(t, BodyRead);
    case _ => OtherHandlerFramed(c, t, h);
  }

  lemma FinishBindSame(s: Session, h: BindHeader, systemId: Bytes, r: AuthResult)
    ensures SameReader(s.(io := Ready), FinishBind(s, h, systemId, r).(state := s.state))
  {
    hide Response;
    var ok := r.Approves();
    EmitSame(s.(io := Ready), Authenticated(h.id, r));
    var s1 := Emit(s.(io := Ready), Authenticated(h.id, r));
    if ok {
      var s2 := s1.(systemId := systemId, state := BoundState(h.id));
      EmitSame(s2, Sent(Response(ResponseId(h.id), ESME_ROK, h.sequence, SERVER_NAME), Reply));
    } else {
      var code := if r.AuthAnswer? then r.code else ESME_RINVSYSID;
      EmitSame(s1, Sent(Response(ResponseId(h.id), code, h.sequence, []), Reply));
    }
  }

  /** A completed read moves bytes from the socket into hand, and no others. */
  lemma ReadMoves(s: Session)
    requires Enabled(s, ReadDone)
    ensures var t := CompleteRead(s);
            HandOf(t.ready[|s.ready|]) + t.unread == ReadingHand(s.reading) + s.unread
  {
    hide EncodeHeader;
    var n := ReadSize(s.reading);
    assert s.unread == s.unread[..n] + s.unread[n..];
    if s.reading.ReadingBody? {
      Assoc(EncodeHeader(s.reading.header), s.unread[..n], s.unread[n..]);
    }
  }

  lemma ReadDoneFramed(s: Session)
    requires Framed(s) && Enabled(s, ReadDone)
    ensures Framed(CompleteRead(s))
  {
    hide HandOf;
    hide ReadingHand;
    hide PduBytes;
    var t := CompleteRead(s);
    var h := t.ready[|s.ready|];
    ReadMoves(s);
    HandNone(s.ready);
    CountPush(s.ready, h, ReadKind);
    HandPush(s.ready, h);
    assert ReadingHand(NoRead) == [] by { NoReadingHand(); }
    assert [] + HandOf(h) + [] + t.unread == HandOf(h) + t.unread;
    assert [] + ReadingHand(s.reading) + s.unread == ReadingHand(s.reading) + s.unread;
  }

  lemma NoReadingHand()
    ensures ReadingHand(NoRead) == []
  {
  }

  lemma ReadFailedFramed(s: Session)
    requires Framed(s) && Enabled(s, ReadFailed)
    ensures Framed(FailRead(s))
  {
    hide EncodeHeader;
    hide PduBytes;
    var h := FailRead(s).ready[|s.ready|];
    HandNone(s.ready);
    CountPush(s.ready, h, ReadKind);
    HandPush(s.ready, h);
    assert [] + HandOf(h) == HandOf(h);
    assert HandOf(h) + [] + s.unread == [] + ReadingHand(s.reading) + s.unread;
  }

  lemma StepFramed(c: Config, s: Session, e: Event)
    requires Framed(s) && Enabled(s, e)
    ensures Framed(Step(c, s, e))
  {
    hide RunHandler;
    hide FinishBind;
    hide CompleteRead;
    hide FailRead;
    hide Deliver;
    hide Hand;
    hide Count;
    match e
    case Arrive(chunk) =>
      Assoc(Hand(s.ready) + ReadingHand(s.reading), s.unread, chunk);
      Assoc(PduBytes(s.trace), Hand(s.ready) + ReadingHand(s.reading) + s.unread, chunk);
    case ReadDone => ReadDoneFramed(s);
    case ReadFailed => ReadFailedFramed(s);
    case IntervalExpires => PushFrames(s.ready, IntervalFired);
    case ReplyExpires => PushFrames(s.ready, ReplyFired);
    case RunNext => HandlerFramed(c, s);
    case AuthReturns(r) => FinishBindSame(s, s.io.header, s.io.systemId, r);
    case PostDisconnect => PushFrames(s.ready, DisconnectPosted);
    case DeliverSend(k) =>
      var t := Step(c, s, e);
      EmitSame(s.(deliverSeq := t.deliverSeq, inFlight := t.inFlight), t.trace.entry.act);
    case _ =>
  }

  // ---------------------------------------------------------------- over whole runs

  lemma {:induction false} RunFramed(c: Config, r: Run)
    requires Valid(c, r)
    ensures Framed(Exec(c, r))
  {
    if r.Next? {
      RunFramed(c, r.prev);
      StepFramed(c, Exec(c, r.prev), r.event);
    }
  }

  lemma {:induction false} PdusJoin(t: Trace)
    ensures Join(Pdus(t)) == PduBytes(t)
  {
    hide Wire;
    if t.Then? {
      PdusJoin(t.before);
      if t.entry.act.Dispatched? {
        var ps := Pdus(t);
        assert ps[..|ps| - 1] == Pdus(t.before);
      }
    }
  }

  /** In every run the dispatched PDUs are the first ones of the input. While the session is live exactly one read is
      under way, and while one is nothing is lost or invented: the dispatched PDUs joined, then the unframed bytes,
      are the input. */
  lemma FramingLossless(c: Config, r: Run)
    requires Valid(c, r)
    ensures var s := Exec(c, r);
            && Pdus(s.trace) <= Cut(s.input)
            && (s.state != Unbound ==> Reads(s) == 1)
            && (Reads(s) == 1 ==>
                  && Join(Pdus(s.trace)) + Unframed(s) == s.input
                  && Pdus(s.trace) + Cut(Unframed(s)) == Cut(s.input))
  {
    hide Step;
    hide Cut;
    hide Join;
    hide Unframed;
    var s := Exec(c, r);
    RunFramed(c, r);
    PdusJoin(s.trace);
    var rest := s.input[|PduBytes(s.trace)|..];
    CutJoin(Pdus(s.trace), rest);
    assert s.input == PduBytes(s.trace) + rest;
    CutJoin(Pdus(s.trace), Unframed(s));
  }

  /** The dispatched PDUs depend on the bytes alone, not on the pieces they arrived in, whether or not the session has
      ended. */
  lemma ChunkIndependent(c: Config, r: Run, c': Config, r': Run)
    requires Valid(c, r) && Valid(c', r')
    requires Exec(c, r).input == Exec(c', r').input
    ensures var ps, ps' := Pdus(Exec(c, r).trace), Pdus(Exec(c', r').trace);
            ps <= ps' || ps' <= ps
  {
    hide Step;
    hide Cut;
    hide Unframed;
    hide Join;
    FramingLossless(c, r);
    FramingLossless(c', r');
    var ps, ps' := Pdus(Exec(c, r).trace), Pdus(Exec(c', r').trace);
    var all := Cut(Exec(c, r).input);
    assert ps == all[..|ps|] && ps' == all[..|ps'|];
  }

  /** The bytes a waiting reader has not framed are the last ones of its input. */
  lemma WaitingUnframed(s: Session)
    requires Framed(s) && s.state != Unbound && s.io.Ready?
    requires Count(s.ready, ReadKind) == 0 && !Enabled(s, ReadDone)
    ensures Cut(Unframed(s)) == [] && Remainder(Unframed(s)) == Unframed(s)
  {
    hide Cut;
    hide Remainder;
    hide PduBytes;
    HandNone(s.ready);
    WaitingCuts(s.reading, s.unread);
    assert Unframed(s) == ReadingHand(s.reading) + s.unread;
  }

  /** A live session with no completed read waiting and no read that could complete has dispatched every PDU of
      its input. */
  lemma CaughtUp(c: Config, r: Run)
    requires Valid(c, r)
    requires var s := Exec(c, r);
             s.state != Unbound && s.io.Ready? && Count(s.ready, ReadKind) == 0 && !Enabled(s, ReadDone)
    ensures Pdus(Exec(c, r).trace) == Cut(Exec(c, r).input)
    ensures Unframed(Exec(c, r)) == Remainder(Exec(c, r).input)
  {
    hide Step;
    hide Cut;
    hide Remainder;
    hide Join;
    var s := Exec(c, r);
    hide Unframed;
    FramingLossless(c, r);
    RunFramed(c, r);
    WaitingUnframed(s);
    CutJoin(Pdus(s.trace), Unframed(s));
  }

  lemma WaitingCuts(r: Reading, unread: Bytes)
    requires !r.NoRead? && |unread| < ReadSize(r)
    ensures Cut(ReadingHand(r) + unread) == [] && Remainder(ReadingHand(r) + unread) == ReadingHand(r) + unread
  {
    hide EncodeHeader;
    hide DecodeHeader;
    if r.ReadingBody? {
      DecodeEncodedHeader(r.header, unread);
    }
  }

  /** The streaming framer, fed the same bytes in any chunks, releases the PDUs the session dispatches. */
  lemma FramerAgrees(c: Config, r: Run, chunks: seq<Bytes>)
    requires Valid(c, r)
    requires var s := Exec(c, r);
             s.state != Unbound && s.io.Ready? && Count(s.ready, ReadKind) == 0 && !Enabled(s, ReadDone)
    requires Framer.Flatten(chunks) == Exec(c, r).input
    ensures var (ps, last, _) := Framer.DriveAll(chunks);
            ps + Framer.Held(last) == Pdus(Exec(c, r).trace)
  {
    CaughtUp(c, r);
    Framer.FramerCutsStream(chunks);
  }

  // ---------------------------------------------------------------- what was sent

  function SentPdus(t: Trace): seq<WholePacket> {
    match t
    case Empty => []
    case Then(b, e) => if e.act.Sent? then SentPdus(b) + [e.act.pdu] else SentPdus(b)
  }

  /** A peer that cuts the concatenation of everything the session sends gets back exactly those PDUs. */
  lemma SentCutsBack(c: Config, r: Run)
    requires Valid(c, r)
    ensures Cut(Join(SentPdus(Exec(c, r).trace))) == SentPdus(Exec(c, r).trace)
  {
    var ps := SentPdus(Exec(c, r).trace);
    CutJoin(ps, []);
    assert Join(ps) + [] == Join(ps);
  }
}
