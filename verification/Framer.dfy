/** The server's streaming framer: bytes arrive in chunks of any size, and a PDU is handed over when its
    length field is satisfied. */
module Framer {
  import opened Pdu
  import opened Framing

  datatype FramerState = WaitingHeader | WaitingBody | PduComplete

  /** The framer's fields. */
  datatype View = View(state: FramerState, full: Bytes, header: Header)

  const NO_HEADER := Header(0, 0, 0, 0)
  const FRESH := View(WaitingHeader, [], NO_HEADER)

  /** What holds in every state: the buffer never outgrows what the state is waiting for. */
  predicate Sized(v: View) {
    match v.state
    case WaitingHeader =>
      |v.full| < HEADER_SIZE || (|v.full| == HEADER_SIZE && DecodeHeader(v.full).length < HEADER_SIZE)
    case WaitingBody =>
      && |v.full| >= HEADER_SIZE && v.header == DecodeHeader(v.full)
      && (|v.full| < v.header.length || |v.full| == v.header.length == HEADER_SIZE)
    case PduComplete => |v.full| >= HEADER_SIZE && v.header == DecodeHeader(v.full) && |v.full| == v.header.length
  }

  /** bytes_needed: the invariant is what keeps this difference of unsigned sizes from wrapping. */
  function Needed(v: View): (n: int)
    ensures Sized(v) ==> n >= 0
  {
    match v.state
    case WaitingHeader => HEADER_SIZE - |v.full|
    case WaitingBody => v.header.length - |v.full|
    case PduComplete => 0
  }

  function Consumed(v: View, data: Bytes): nat
    requires Sized(v)
  {
    if |data| <= Needed(v) then |data| else Needed(v)
  }

  /** One call of feed_bytes: the new fields and the verdict. */
  function Feed(v: View, data: Bytes): (r: (View, bool))
    requires Sized(v)
    ensures Sized(r.0)
    ensures r.1 <==> v.state == WaitingBody && r.0.state == PduComplete
    ensures r.0.full == v.full + data[..Consumed(v, data)]
  {
    if data == [] then assert v.full + [] == v.full; (v, false)
    else
      var full := v.full + data[..Consumed(v, data)];
      match v.state
      case WaitingHeader =>
        if |full| < HEADER_SIZE then (v.(full := full), false)
        else
          var h := DecodeHeader(full);
          (View(if h.length >= HEADER_SIZE then WaitingBody else WaitingHeader, full, h), false)
      case WaitingBody =>
        assert DecodeHeader(full) == DecodeHeader(v.full);
        if |full| >= v.header.length then (v.(full := full, state := PduComplete), true)
        else (v.(full := full), false)
      case PduComplete => (v.(full := full), false)
  }

  function AsPacket(full: Bytes): Packet
    requires |full| >= HEADER_SIZE
  {
    Packet(DecodeHeader(full), full[HEADER_SIZE..])
  }

  /** A driver that offers unconsumed bytes again and resets after each complete PDU: the PDUs released,
      the framer afterwards, and the bytes it will not take (only behind an invalid header). */
  function Drive(v: View, data: Bytes): (r: (seq<Packet>, View, Bytes))
    requires Sized(v) && v.state != PduComplete
    ensures Sized(r.1) && r.1.state != PduComplete
    decreases |data|, if v.state == WaitingBody then 1 else 0
  {
    if data == [] then ([], v, [])
    else
      var n := Consumed(v, data);
      var (next, complete) := Feed(v, data);
      if complete then
        var (ps, last, left) := Drive(FRESH, data[n..]);
        ([AsPacket(next.full)] + ps, last, left)
      else if n == 0 then ([], next, data)
      else Drive(next, data[n..])
  }

  /** A header-only PDU that is whole but not yet released. */
  function Held(v: View): seq<Packet>
    requires Sized(v)
  {
    if v.state == WaitingBody && |v.full| == v.header.length then [AsPacket(v.full)] else []
  }

  /** Nothing can be cut from what the framer is still holding, except a held header-only PDU. */
  lemma HoldingCut(v: View)
    requires Sized(v) && v.state != PduComplete
    ensures Cut(v.full) == Held(v)
  {
    if HasPacket(v.full) {
      assert v.full[DecodeHeader(v.full).length..] == [];
    }
  }

  lemma CompleteWire(v: View)
    requires Sized(v) && v.state == PduComplete
    ensures AsPacket(v.full).WellFormed() && Wire(AsPacket(v.full)) == v.full
  {
    hide DecodeHeader;
    hide EncodeHeader;
    EncodeDecodedHeader(v.full[..HEADER_SIZE]);
    HeaderOf(v.full);
    assert v.full == v.full[..HEADER_SIZE] + v.full[HEADER_SIZE..];
  }

  lemma HeaderOf(full: Bytes)
    requires |full| >= HEADER_SIZE
    ensures DecodeHeader(full[..HEADER_SIZE]) == DecodeHeader(full)
  {
  }

  /** A complete PDU is the first one of the stream, and cutting goes on behind it. */
  lemma CompletePacket(v: View, rest: Bytes)
    requires Sized(v) && v.state == PduComplete
    ensures Cut(v.full + rest) == [AsPacket(v.full)] + Cut(rest)
    ensures Remainder(v.full + rest) == Remainder(rest)
  {
    hide Cut;
    hide Remainder;
    hide DecodeHeader;
    hide Wire;
    CompleteWire(v);
    CutOne(AsPacket(v.full), rest);
  }

  /** Behind an invalid header nothing is cut. */
  lemma StuckCut(v: View, data: Bytes)
    requires Sized(v) && v.state == WaitingHeader && |v.full| == HEADER_SIZE
    ensures Cut(v.full + data) == [] && Remainder(v.full + data) == v.full + data
  {
    assert DecodeHeader(v.full + data) == DecodeHeader(v.full);
  }

  /** A feed moves bytes from the chunk to the framer, and no others; only behind an invalid header does it take none
      and report nothing. */
  lemma FeedMoves(v: View, data: Bytes)
    requires Sized(v) && v.state != PduComplete && data != []
    ensures var (next, complete) := Feed(v, data);
            var n := Consumed(v, data);
            && v.full + data == next.full + data[n..]
            && (complete <==> next.state == PduComplete)
            && (!complete && n == 0 ==>
                  v.state == next.state == WaitingHeader && next.full == v.full && |v.full| == HEADER_SIZE)
  {
    hide DecodeHeader;
    var n := Consumed(v, data);
    assert data == data[..n] + data[n..];
    Assoc(v.full, data[..n], data[n..]);
    assert v.full + [] == v.full;
  }

  /** `Drive` taken apart, one feed at a time. */
  lemma DriveStep(v: View, data: Bytes)
    requires Sized(v) && v.state != PduComplete && data != []
    ensures var n := Consumed(v, data);
            var (next, complete) := Feed(v, data);
            var (ps, last, left) := Drive(v, data);
            if complete then
              var (more, end, rest) := Drive(FRESH, data[n..]);
              (ps, last, left) == ([AsPacket(next.full)] + more, end, rest)
            else if n == 0 then (ps, last, left) == ([], next, data)
            else (ps, last, left) == Drive(next, data[n..])
  {
    hide Feed;
    hide DecodeHeader;
  }

  lemma {:induction false} DriveCuts(v: View, data: Bytes)
    requires Sized(v) && v.state != PduComplete
    ensures var (ps, last, left) := Drive(v, data);
            && Cut(v.full + data) == ps + Cut(last.full + left)
            && Remainder(v.full + data) == Remainder(last.full + left)
            && Cut(last.full + left) == Held(last)
    decreases |data|, if v.state == WaitingBody then 1 else 0
  {
    hide Feed;
    hide Cut;
    hide Remainder;
    hide DecodeHeader;
    if data == [] {
      assert v.full + data == v.full;
      HoldingCut(v);
    } else {
      hide Drive;
      var n := Consumed(v, data);
      var (next, complete) := Feed(v, data);
      FeedMoves(v, data);
      DriveStep(v, data);
      if complete {
        DriveCuts(FRESH, data[n..]);
        assert [] + data[n..] == data[n..];
        CompletePacket(next, data[n..]);
        var (more, end, rest) := Drive(FRESH, data[n..]);
        Assoc([AsPacket(next.full)], more, Cut(end.full + rest));
      } else if n == 0 {
        StuckCut(v, data);
      } else {
        DriveCuts(next, data[n..]);
      }
    }
  }

  function Flatten(chunks: seq<Bytes>): Bytes {
    if chunks == [] then [] else Flatten(chunks[..|chunks| - 1]) + chunks[|chunks| - 1]
  }

  /** A whole session of the driver, one chunk after another. */
  function DriveAll(chunks: seq<Bytes>): (r: (seq<Packet>, View, Bytes))
    ensures Sized(r.1) && r.1.state != PduComplete
  {
    if chunks == [] then ([], FRESH, [])
    else
      var (done, v, left) := DriveAll(chunks[..|chunks| - 1]);
      var (ps, last, rest) := Drive(v, left + chunks[|chunks| - 1]);
      (done + ps, last, rest)
  }

  /** One more chunk keeps the PDUs released so far, and what is still held, in step with the stream. */
  lemma DriveExtends(stream: Bytes, done: seq<Packet>, v: View, left: Bytes, chunk: Bytes)
    requires Sized(v) && v.state != PduComplete
    requires Cut(stream) == done + Cut(v.full + left) && Remainder(stream) == Remainder(v.full + left)
    ensures var (ps, last, rest) := Drive(v, left + chunk);
            && Cut(stream + chunk) == done + ps + Cut(last.full + rest)
            && Remainder(stream + chunk) == Remainder(last.full + rest)
            && Cut(last.full + rest) == Held(last)
  {
    hide HasPacket;
    hide First;
    hide Feed;
    hide Cut;
    hide Remainder;
    var (ps, last, rest) := Drive(v, left + chunk);
    DriveCuts(v, left + chunk);
    CutExtend(stream, chunk);
    CutExtend(v.full + left, chunk);
    Assoc(v.full, left, chunk);
    Assoc(done, Cut(v.full + left), Cut(Remainder(stream) + chunk));
    Assoc(done, ps, Cut(last.full + rest));
  }

  /** For every chunking, the PDUs released and the one that may be held are the PDUs of the stream, and
      what the framer and the driver still hold is its remainder. */
  lemma {:induction false} FramerCutsStream(chunks: seq<Bytes>)
    ensures var (ps, last, left) := DriveAll(chunks);
            && Cut(Flatten(chunks)) == ps + Cut(last.full + left)
            && Cut(last.full + left) == Held(last)
            && Remainder(Flatten(chunks)) == Remainder(last.full + left)
  {
    if chunks != [] {
      var init, chunk := chunks[..|chunks| - 1], chunks[|chunks| - 1];
      FramerCutsStream(init);
      var (done, v, left) := DriveAll(init);
      DriveExtends(Flatten(init), done, v, left, chunk);
    }
  }

  /** Two chunkings of one stream release the same PDUs, but for a header-only PDU one of them holds. */
  lemma ChunkingIrrelevant(a: seq<Bytes>, b: seq<Bytes>)
    requires Flatten(a) == Flatten(b)
    ensures DriveAll(a).0 + Held(DriveAll(a).1) == DriveAll(b).0 + Held(DriveAll(b).1)
  {
    FramerCutsStream(a);
    FramerCutsStream(b);
  }

  /** Nothing to feed, or nothing more to take before the reset: the framer stays as it is and reports nothing. */
  lemma FeedStays(v: View, data: Bytes)
    requires Sized(v) && (data == [] || v.state == PduComplete)
    ensures Feed(v, data) == (v, false)
  {
    assert v.full + data[..0] == v.full;
  }

  /** A held PDU is released by the next non-empty feed, which takes none of its bytes. */
  lemma HeldReleased(v: View, data: Bytes)
    requires Sized(v) && Held(v) != [] && data != []
    ensures Consumed(v, data) == 0 && Feed(v, data).1
    ensures Held(v) <= Drive(v, data).0
  {
    assert v.full + data[..0] == v.full;
  }

  /** The framer object. */
  class SmppPduFramer {
    var state: FramerState
    var fullPdu: Bytes
    var commandLength: u32
    var commandId: u32
    var commandStatus: u32
    var sequenceNumber: u32

    ghost function Fields(): View
      reads this
    {
      View(state, fullPdu, Header(commandLength, commandId, commandStatus, sequenceNumber))
    }

    constructor ()
      ensures Fields() == FRESH && Sized(Fields())
    {
      state, fullPdu := WaitingHeader, [];
      commandLength, commandId, commandStatus, sequenceNumber := 0, 0, 0, 0;
    }

    method Reset()
      modifies this
      ensures Fields() == FRESH && Sized(Fields())
    {
      state, fullPdu := WaitingHeader, [];
      commandLength, commandId, commandStatus, sequenceNumber := 0, 0, 0, 0;
    }

    method BytesNeeded() returns (n: nat)
      requires Sized(Fields())
      ensures n == Needed(Fields())
    {
      match state
      case WaitingHeader => n := HEADER_SIZE - |fullPdu|;
      case WaitingBody => n := commandLength - |fullPdu|;
      case PduComplete => n := 0;
    }

    method ParseHeader()
      modifies this
      ensures state == old(state) && fullPdu == old(fullPdu)
      ensures Fields().header == if |fullPdu| < HEADER_SIZE then old(Fields().header) else DecodeHeader(fullPdu)
    {
      if |fullPdu| < HEADER_SIZE { return; }
      commandLength := ReadU32(fullPdu, 0);
      commandId := ReadU32(fullPdu, 4);
      commandStatus := ReadU32(fullPdu, 8);
      sequenceNumber := ReadU32(fullPdu, 12);
    }

    method FeedBytes(data: Bytes) returns (complete: bool)
      requires Sized(Fields())
      modifies this
      ensures Sized(Fields())
      ensures (Fields(), complete) == Feed(old(Fields()), data)
    {
      if |data| == 0 { return false; }
      var toRead := BytesNeeded();
      var canRead := if |data| <= toRead then |data| else toRead;
      fullPdu := fullPdu + data[..canRead];
      match state {
        case WaitingHeader =>
          if |fullPdu| >= HEADER_SIZE {
            ParseHeader();
            if commandLength >= HEADER_SIZE {
              state := WaitingBody;
            } else {
              return false;
            }
          }
        case WaitingBody =>
          if |fullPdu| >= commandLength {
            state := PduComplete;
            return true;
          }
        case PduComplete =>
      }
      return false;
    }
  }
}
