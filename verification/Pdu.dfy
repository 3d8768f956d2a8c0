/** The SMPP v3.4 wire format as the client handler reads and writes it: big-endian words, the
    16-byte header of section 3.2, C-octet strings, the submit_sm body of section 4.4.1 and the
    deliver_sm body of section 4.6.1. This module holds the meaning of each operation as a function
    on byte sequences; module PduBuffers holds the loops that fill and scan buffers.
 */
module Pdu {

  type byte = x: int | 0 <= x < 0x100
  type u32 = x: int | 0 <= x < 0x1_0000_0000
  type Bytes = seq<byte>

  // Command ids, as the client handler defines them (its BIND_RECEIVER is 3, not 1).
  const BIND_TRANSMITTER: u32 := 0x0000_0002
  const BIND_RECEIVER: u32 := 0x0000_0003
  const SUBMIT_SM: u32 := 0x0000_0004
  const SUBMIT_SM_RESP: u32 := 0x8000_0004
  const DELIVER_SM: u32 := 0x0000_0005
  const DELIVER_SM_RESP: u32 := 0x8000_0005
  const UNBIND: u32 := 0x0000_0006
  const UNBIND_RESP: u32 := 0x8000_0006
  const BIND_TRANSCEIVER: u32 := 0x0000_0009
  const ENQUIRE_LINK: u32 := 0x0000_0015
  const ENQUIRE_LINK_RESP: u32 := 0x8000_0015
  const GENERIC_NACK: u32 := 0x8000_0000

  // Status codes.
  const ESME_ROK: u32 := 0x00
  const ESME_RINVCMDID: u32 := 0x03
  const ESME_RINVBNDSTS: u32 := 0x04
  const ESME_RALYBND: u32 := 0x05
  const ESME_RINVSYSID: u32 := 0x0F
  const ESME_RTHROTTLED: u32 := 0x58

  const HEADER_SIZE := 16
  const CSTR_MAX := 65

  /** Setting bit 31, which turns a request id into its response id. */
  function ResponseId(id: u32): u32 {
    if id >= 0x8000_0000 then id else id + 0x8000_0000
  }

  // ---------------------------------------------------------------- words

  function Be32(v: u32): Bytes {
    [v / 0x100_0000, v / 0x1_0000 % 0x100, v / 0x100 % 0x100, v % 0x100]
  }

  function ReadU32(b: Bytes, at: nat): u32
    requires at + 4 <= |b|
  {
    b[at] as int * 0x100_0000 + b[at + 1] as int * 0x1_0000 + b[at + 2] as int * 0x100 + b[at + 3] as int
  }

  lemma DivDiv(v: nat)
    ensures v / 0x1_0000 == v / 0x100 / 0x100 && v / 0x100_0000 == v / 0x1_0000 / 0x100
  {
  }

  lemma LastByte(high: nat, low: byte)
    ensures (high * 0x100 + low) / 0x100 == high && (high * 0x100 + low) % 0x100 == low
  {
  }

  lemma ReadWritten(v: u32)
    ensures ReadU32(Be32(v), 0) == v
  {
    DivDiv(v);
  }

  lemma WriteRead(b: Bytes)
    requires |b| == 4
    ensures Be32(ReadU32(b, 0)) == b
  {
    var x := b[0] as int * 0x100 + b[1];
    var y := x * 0x100 + b[2];
    LastByte(b[0], b[1]);
    LastByte(x, b[2]);
    LastByte(y, b[3]);
    DivDiv(y * 0x100 + b[3]);
  }

  lemma WordRoundTrip(v: u32, b: Bytes)
    requires |b| == 4
    ensures |Be32(v)| == 4 && ReadU32(Be32(v), 0) == v
    ensures Be32(ReadU32(b, 0)) == b
  {
    ReadWritten(v);
    WriteRead(b);
  }

  // ---------------------------------------------------------------- headers and packets

  datatype Header = Header(length: u32, id: u32, status: u32, sequence: u32)

  /** A PDU taken apart. It is well formed when its length field counts header and body. */
  datatype Packet = Packet(header: Header, body: Bytes) {
    predicate WellFormed() { header.length == HEADER_SIZE + |body| }
  }

  function EncodeHeader(h: Header): (b: Bytes)
    ensures |b| == HEADER_SIZE
  {
    Be32(h.length) + Be32(h.id) + Be32(h.status) + Be32(h.sequence)
  }

  function DecodeHeader(b: Bytes): Header
    requires |b| >= HEADER_SIZE
  {
    Header(ReadU32(b, 0), ReadU32(b, 4), ReadU32(b, 8), ReadU32(b, 12))
  }

  function Wire(p: Packet): (b: Bytes)
    ensures |b| == HEADER_SIZE + |p.body|
  {
    EncodeHeader(p.header) + p.body
  }

  lemma ReadWithin(b: Bytes, w: Bytes, at: nat)
    requires at + 4 <= |b| && b[at..at + 4] == w
    ensures ReadU32(b, at) == ReadU32(w, 0)
  {
    assert b[at] == w[0] && b[at + 1] == w[1] && b[at + 2] == w[2] && b[at + 3] == w[3];
  }

  /** Encoding then decoding gives the header back, whatever follows it in the buffer. */
  lemma DecodeEncodedHeader(h: Header, rest: Bytes)
    ensures DecodeHeader(EncodeHeader(h) + rest) == h
  {
    var b := EncodeHeader(h) + rest;
    var parts := [h.length, h.id, h.status, h.sequence];
    forall k | 0 <= k < 4 ensures ReadU32(b, 4 * k) == parts[k] {
      assert b[4 * k..4 * k + 4] == Be32(parts[k]);
      ReadWithin(b, Be32(parts[k]), 4 * k);
      WordRoundTrip(parts[k], Be32(parts[k]));
    }
    assert ReadU32(b, 4 * 0) == h.length && ReadU32(b, 4 * 1) == h.id;
    assert ReadU32(b, 4 * 2) == h.status && ReadU32(b, 4 * 3) == h.sequence;
  }

  /** Decoding then encoding gives the sixteen bytes back. */
  lemma EncodeDecodedHeader(b: Bytes)
    requires |b| == HEADER_SIZE
    ensures EncodeHeader(DecodeHeader(b)) == b
  {
    forall k | 0 <= k < 4 ensures Be32(ReadU32(b, 4 * k)) == b[4 * k..4 * k + 4] {
      ReadWithin(b, b[4 * k..4 * k + 4], 4 * k);
      WordRoundTrip(0, b[4 * k..4 * k + 4]);
    }
    assert Be32(ReadU32(b, 4 * 0)) == b[0..4] && Be32(ReadU32(b, 4 * 1)) == b[4..8];
    assert Be32(ReadU32(b, 4 * 2)) == b[8..12] && Be32(ReadU32(b, 4 * 3)) == b[12..16];
    assert b == b[0..4] + b[4..8] + b[8..12] + b[12..16];
  }

  /** Two packets with the same bytes on the wire are the same packet. */
  lemma WireInjective(p: Packet, q: Packet)
    requires Wire(p) == Wire(q)
    ensures p == q
  {
    DecodeEncodedHeader(p.header, p.body);
    DecodeEncodedHeader(q.header, q.body);
    assert Wire(p)[HEADER_SIZE..] == p.body && Wire(q)[HEADER_SIZE..] == q.body;
  }

  // ---------------------------------------------------------------- field readers

  // The C++ readers advance an offset into the body; here each reader returns the unread suffix.

  predicate NulFree(s: Bytes) { forall i | 0 <= i < |s| :: s[i] != 0 }

  /** How many bytes of `rest` come before a NUL, the end, or the cap. */
  function Scan(rest: Bytes, cap: nat): (n: nat)
    ensures n <= cap && n <= |rest|
    decreases cap
  {
    if cap == 0 || rest == [] || rest[0] == 0 then 0 else Scan(rest[1..], cap - 1) + 1
  }

  /** The scan stops at the first NUL, and at nothing else short of the cap and the end. */
  lemma {:induction false} ScanMeaning(rest: Bytes, cap: nat)
    ensures var n := Scan(rest, cap);
            NulFree(rest[..n]) && (n < cap && n < |rest| ==> rest[n] == 0)
    decreases cap
  {
    if cap != 0 && rest != [] && rest[0] != 0 {
      ScanMeaning(rest[1..], cap - 1);
      var n := Scan(rest[1..], cap - 1);
      assert rest[..n + 1] == [rest[0]] + rest[1..][..n];
    }
  }

  /** A C-octet string of at most 65 characters. The terminator is consumed only when the scan stops
      before the cap, so a 65-character string leaves its NUL unread. */
  function TakeCstr(rest: Bytes): (Bytes, Bytes) {
    var n := Scan(rest, CSTR_MAX);
    (rest[..n], if n < CSTR_MAX && n < |rest| then rest[n + 1..] else rest[n..])
  }

  function TakeByte(rest: Bytes): (byte, Bytes) {
    if rest == [] then (0, []) else (rest[0], rest[1..])
  }

  /** The one-byte length and as much of the message as is there. */
  function TakeMessage(rest: Bytes): (m: Bytes)
    ensures |m| <= 255
  {
    if rest == [] then []
    else if rest[0] <= |rest| - 1 then rest[1..1 + rest[0]] else rest[1..]
  }

  /** A scan is decided by the first NUL: nothing else stops it early. */
  lemma {:induction false} ScanStops(s: Bytes, rest: Bytes, cap: nat)
    requires NulFree(s) && |s| <= cap
    requires |s| < cap ==> rest == [] || rest[0] == 0
    ensures Scan(s + rest, cap) == |s|
  {
    if s == [] {
      assert s + rest == rest;
    } else {
      assert (s + rest)[1..] == s[1..] + rest;
      ScanStops(s[1..], rest, cap - 1);
    }
  }

  /** What was written as a terminated string of at most 64 bytes is read back, and the suffix with it. */
  lemma TakeTerminated(s: Bytes, rest: Bytes)
    requires NulFree(s) && |s| < CSTR_MAX
    ensures TakeCstr(s + [0] + rest) == (s, rest)
  {
    ScanStops(s, [0] + rest, CSTR_MAX);
    assert s + [0] + rest == s + ([0] + rest);
    assert (s + ([0] + rest))[..|s|] == s;
    assert (s + ([0] + rest))[|s| + 1..] == rest;
  }

  /** A 65-byte string is read back too, but whatever follows it stays in the suffix: a terminator, or none. */
  lemma TakeOverlong(s: Bytes, rest: Bytes)
    requires NulFree(s) && |s| == CSTR_MAX
    ensures TakeCstr(s + rest) == (s, rest)
  {
    ScanStops(s, rest, CSTR_MAX);
    assert (s + rest)[..|s|] == s;
    assert (s + rest)[|s|..] == rest;
  }

  // ---------------------------------------------------------------- submit_sm

  datatype Address = Address(ton: byte, npi: byte, addr: Bytes)

  /** The fields between the addresses and the message. */
  datatype Options = Options(
    esmClass: byte, protocolId: byte, priorityFlag: byte,
    scheduleDeliveryTime: Bytes,
    validityPeriod: Bytes,
    registeredDelivery: byte, replaceIfPresent: byte, dataCoding: byte, defaultMsgId: byte)

  datatype SubmitSm = SubmitSm(
    serviceType: Bytes,
    source: Address,
    dest: Address,
    options: Options,
    shortMessage: Bytes)

  function TakeAddress(rest: Bytes): (Address, Bytes) {
    var (ton, r1) := TakeByte(rest);
    var (npi, r2) := TakeByte(r1);
    var (addr, r3) := TakeCstr(r2);
    (Address(ton, npi, addr), r3)
  }

  function TakeThree(rest: Bytes): ((byte, byte, byte), Bytes) {
    var (a, r1) := TakeByte(rest);
    var (b, r2) := TakeByte(r1);
    var (c, r3) := TakeByte(r2);
    ((a, b, c), r3)
  }

  function TakeOptions(rest: Bytes): (Options, Bytes) {
    var ((esm, protocol, priority), r1) := TakeThree(rest);
    var (schedule, r2) := TakeCstr(r1);
    var (validity, r3) := TakeCstr(r2);
    var ((registered, replace, coding), r4) := TakeThree(r3);
    var (default, r5) := TakeByte(r4);
    (Options(esm, protocol, priority, schedule, validity, registered, replace, coding, default), r5)
  }

  function ParseSubmitSm(body: Bytes): SubmitSm {
    var (service, r1) := TakeCstr(body);
    var (source, r2) := TakeAddress(r1);
    var (dest, r3) := TakeAddress(r2);
    var (options, r4) := TakeOptions(r3);
    SubmitSm(service, source, dest, options, TakeMessage(r4))
  }

  /** What every parse gives: NUL-free strings of at most 65 bytes and a message of at most 255. */
  lemma ParsedSizes(body: Bytes)
    ensures var sm := ParseSubmitSm(body);
            && NulFree(sm.source.addr) && |sm.source.addr| <= CSTR_MAX
            && NulFree(sm.dest.addr) && |sm.dest.addr| <= CSTR_MAX
            && |sm.shortMessage| <= 255
  {
    var (_, r1) := TakeCstr(body);
    var (_, r2) := TakeAddress(r1);
    var s, d := TakeByte(TakeByte(r1).1).1, TakeByte(TakeByte(r2).1).1;
    ScanMeaning(s, CSTR_MAX);
    ScanMeaning(d, CSTR_MAX);
  }

  // ---------------------------------------------------------------- truncated bodies

  /** `b` is what a truncated body may show in place of `full`. */
  predicate ByteOrZero(b: byte, full: byte) { b == full || b == 0 }

  lemma {:induction false} ScanPrefix(a: Bytes, b: Bytes, cap: nat)
    requires a <= b
    ensures Scan(a, cap) == if Scan(b, cap) <= |a| then Scan(b, cap) else |a|
    decreases cap
  {
    if cap != 0 && a != [] && a[0] != 0 {
      ScanPrefix(a[1..], b[1..], cap - 1);
    }
  }

  lemma TakeCstrPrefix(a: Bytes, b: Bytes)
    requires a <= b
    ensures TakeCstr(a).0 <= TakeCstr(b).0 && TakeCstr(a).1 <= TakeCstr(b).1
  {
    ScanPrefix(a, b, CSTR_MAX);
  }

  predicate AddressTruncates(a: Address, full: Address) {
    ByteOrZero(a.ton, full.ton) && ByteOrZero(a.npi, full.npi) && a.addr <= full.addr
  }

  lemma TakeBytePrefix(a: Bytes, b: Bytes)
    requires a <= b
    ensures ByteOrZero(TakeByte(a).0, TakeByte(b).0) && TakeByte(a).1 <= TakeByte(b).1
  {
  }

  lemma TakeAddressPrefix(a: Bytes, b: Bytes)
    requires a <= b
    ensures AddressTruncates(TakeAddress(a).0, TakeAddress(b).0)
    ensures TakeAddress(a).1 <= TakeAddress(b).1
  {
    hide TakeByte;
    hide TakeCstr;
    TakeBytePrefix(a, b);
    TakeBytePrefix(TakeByte(a).1, TakeByte(b).1);
    TakeCstrPrefix(TakeByte(TakeByte(a).1).1, TakeByte(TakeByte(b).1).1);
  }

  predicate OptionsTruncate(o: Options, full: Options) {
    && ByteOrZero(o.esmClass, full.esmClass)
    && ByteOrZero(o.protocolId, full.protocolId)
    && ByteOrZero(o.priorityFlag, full.priorityFlag)
    && o.scheduleDeliveryTime <= full.scheduleDeliveryTime
    && o.validityPeriod <= full.validityPeriod
    && ByteOrZero(o.registeredDelivery, full.registeredDelivery)
    && ByteOrZero(o.replaceIfPresent, full.replaceIfPresent)
    && ByteOrZero(o.dataCoding, full.dataCoding)
    && ByteOrZero(o.defaultMsgId, full.defaultMsgId)
  }

  lemma TakeThreePrefix(a: Bytes, b: Bytes)
    requires a <= b
    ensures var (x, y) := (TakeThree(a).0, TakeThree(b).0);
            ByteOrZero(x.0, y.0) && ByteOrZero(x.1, y.1) && ByteOrZero(x.2, y.2)
    ensures TakeThree(a).1 <= TakeThree(b).1
  {
    hide TakeByte;
    TakeBytePrefix(a, b);
    TakeBytePrefix(TakeByte(a).1, TakeByte(b).1);
    TakeBytePrefix(TakeByte(TakeByte(a).1).1, TakeByte(TakeByte(b).1).1);
  }

  lemma TakeOptionsPrefix(a: Bytes, b: Bytes)
    requires a <= b
    ensures OptionsTruncate(TakeOptions(a).0, TakeOptions(b).0)
    ensures TakeOptions(a).1 <= TakeOptions(b).1
  {
    hide TakeCstr;
    hide TakeThree;
    TakeThreePrefix(a, b);
    var a1, b1 := TakeThree(a).1, TakeThree(b).1;
    TakeCstrPrefix(a1, b1);
    var a2, b2 := TakeCstr(a1).1, TakeCstr(b1).1;
    TakeCstrPrefix(a2, b2);
    var a3, b3 := TakeCstr(a2).1, TakeCstr(b2).1;
    TakeThreePrefix(a3, b3);
  }

  predicate Truncates(sm: SubmitSm, full: SubmitSm) {
    && sm.serviceType <= full.serviceType
    && AddressTruncates(sm.source, full.source)
    && AddressTruncates(sm.dest, full.dest)
    && OptionsTruncate(sm.options, full.options)
    && sm.shortMessage <= full.shortMessage
  }

  lemma TakeMessagePrefix(a: Bytes, b: Bytes)
    requires a <= b
    ensures TakeMessage(a) <= TakeMessage(b)
  {
  }

  /** Cutting a body short never invents data: every field is a prefix of, or zero in place of, the
      field the whole body gives. */
  lemma TruncationMonotone(body: Bytes, k: nat)
    requires k <= |body|
    ensures Truncates(ParseSubmitSm(body[..k]), ParseSubmitSm(body))
  {
    hide TakeCstr;
    hide TakeAddress;
    hide TakeOptions;
    hide TakeMessage;
    var a, b := body[..k], body;
    TakeCstrPrefix(a, b);
    var a1, b1 := TakeCstr(a).1, TakeCstr(b).1;
    TakeAddressPrefix(a1, b1);
    var a2, b2 := TakeAddress(a1).1, TakeAddress(b1).1;
    TakeAddressPrefix(a2, b2);
    var a3, b3 := TakeAddress(a2).1, TakeAddress(b2).1;
    TakeOptionsPrefix(a3, b3);
    TakeMessagePrefix(TakeOptions(a3).1, TakeOptions(b3).1);
  }

  // ---------------------------------------------------------------- encoders

  /** A header-only response, or one that carries a single C-octet string. */
  function Response(id: u32, status: u32, sequence: u32, text: Bytes): (p: Packet)
    requires |text| + 17 < 0x1_0000_0000
    ensures p.WellFormed()
  {
    var body := if text == [] then [] else text + [0];
    Packet(Header(HEADER_SIZE + |body|, id, status, sequence), body)
  }

  /** As much of a message as its one-byte length field admits to. */
  function Counted(msg: Bytes): (m: Bytes)
    ensures |msg| <= 255 ==> m == msg
  {
    msg[..|msg| % 0x100]
  }

  function DeliverTail(msg: Bytes): Bytes {
    [0, 0, 0] + [0] + [0] + [0, 0, 0] + [0] + [|msg| % 0x100] + msg
  }

  function DeliverBody(source: Address, dest: Address, msg: Bytes): Bytes {
    [0]
    + ([source.ton, source.npi] + (source.addr + [0]
    + ([dest.ton, dest.npi] + (dest.addr + [0]
    + DeliverTail(msg)))))
  }

  /** The length field and the allocation are 32-bit, so this is what the builder needs of its caller. */
  predicate FitsPdu(src: Bytes, dst: Bytes, msg: Bytes) {
    HEADER_SIZE + 17 + |src| + |dst| + |msg| < 0x1_0000_0000
  }

  function Deliver(sequence: u32, source: Address, dest: Address, msg: Bytes): (p: Packet)
    requires FitsPdu(source.addr, dest.addr, msg)
    ensures p.WellFormed()
  {
    var body := DeliverBody(source, dest, msg);
    Packet(Header(HEADER_SIZE + |body|, DELIVER_SM, ESME_ROK, sequence), body)
  }

  // ---------------------------------------------------------------- the codec inverse

  const NO_OPTIONS := Options(0, 0, 0, [], [], 0, 0, 0, 0)

  lemma TakeEmptyCstr(rest: Bytes)
    ensures TakeCstr([0] + rest) == ([], rest)
  {
    TakeTerminated([], rest);
    assert [] + [0] + rest == [0] + rest;
  }

  lemma TakeZeros(rest: Bytes)
    ensures TakeThree([0, 0, 0] + rest) == ((0, 0, 0), rest)
  {
    var r := [0, 0, 0] + rest;
    assert r[1..][1..][1..] == rest;
  }

  /** Nine zero bytes are read as no options at all, whatever follows. */
  lemma TakeNoOptions(rest: Bytes)
    ensures TakeOptions([0, 0, 0] + ([0] + ([0] + ([0, 0, 0] + ([0] + rest))))) == (NO_OPTIONS, rest)
  {
    TakeZeros([0] + ([0] + ([0, 0, 0] + ([0] + rest))));
    TakeEmptyCstr([0] + ([0, 0, 0] + ([0] + rest)));
    TakeEmptyCstr([0, 0, 0] + ([0] + rest));
    TakeZeros([0] + rest);
    assert ([0] + rest)[1..] == rest;
  }

  /** The options of a deliver_sm are all zero, and the message is cut at its one-byte length. */
  lemma TakeDeliverTail(msg: Bytes, tail: Bytes)
    ensures var (o, r) := TakeOptions(DeliverTail(msg) + tail);
            o == NO_OPTIONS && TakeMessage(r) == Counted(msg)
  {
    hide TakeOptions;
    var end := [|msg| % 0x100] + msg + tail;
    assert DeliverTail(msg) + tail == [0, 0, 0] + ([0] + ([0] + ([0, 0, 0] + ([0] + end))));
    TakeNoOptions(end);
    assert end[1..1 + |msg| % 0x100] == msg[..|msg| % 0x100];
  }

  lemma TakeTerminatedAddress(a: Address, rest: Bytes)
    requires NulFree(a.addr) && |a.addr| < CSTR_MAX
    ensures TakeAddress([a.ton, a.npi] + (a.addr + [0] + rest)) == (a, rest)
  {
    var r := [a.ton, a.npi] + (a.addr + [0] + rest);
    assert r[1..][1..] == a.addr + [0] + rest;
    TakeTerminated(a.addr, rest);
  }

  lemma TakeOverlongAddress(a: Address, rest: Bytes)
    requires NulFree(a.addr) && |a.addr| == CSTR_MAX
    ensures TakeAddress([a.ton, a.npi] + (a.addr + rest)) == (a, rest)
  {
    var r := [a.ton, a.npi] + (a.addr + rest);
    assert r[1..][1..] == a.addr + rest;
    TakeOverlong(a.addr, rest);
  }

  /** Where the parser stands after the empty service type and after each address. */
  lemma DeliverLayout(source: Address, dest: Address, msg: Bytes, tail: Bytes)
    ensures var r3 := DeliverTail(msg) + tail;
            var r2 := [dest.ton, dest.npi] + (dest.addr + [0] + r3);
            TakeCstr(DeliverBody(source, dest, msg) + tail)
            == ([], [source.ton, source.npi] + (source.addr + [0] + r2))
  {
    var r3 := DeliverTail(msg) + tail;
    var r2 := [dest.ton, dest.npi] + (dest.addr + [0] + r3);
    var r1 := [source.ton, source.npi] + (source.addr + [0] + r2);
    assert DeliverBody(source, dest, msg) + tail == [0] + r1;
    TakeEmptyCstr(r1);
  }

  lemma ParseSteps(body: Bytes, r1: Bytes, source: Address, r2: Bytes, dest: Address, r3: Bytes)
    requires TakeCstr(body).1 == r1 && TakeAddress(r1) == (source, r2) && TakeAddress(r2) == (dest, r3)
    ensures ParseSubmitSm(body)
            == SubmitSm(TakeCstr(body).0, source, dest, TakeOptions(r3).0, TakeMessage(TakeOptions(r3).1))
  {
  }

  /** For NUL-free addresses of at most 64 bytes the parser inverts the deliver_sm builder, up to the
      one-byte message length, and ignores whatever follows the body. */
  lemma DeliverRoundTrip(source: Address, dest: Address, msg: Bytes, tail: Bytes)
    requires NulFree(source.addr) && |source.addr| < CSTR_MAX
    requires NulFree(dest.addr) && |dest.addr| < CSTR_MAX
    ensures ParseSubmitSm(DeliverBody(source, dest, msg) + tail)
            == SubmitSm([], source, dest, NO_OPTIONS, Counted(msg))
  {
    hide DeliverBody;
    hide TakeCstr;
    hide TakeAddress;
    hide TakeOptions;
    hide TakeMessage;
    var body, r3 := DeliverBody(source, dest, msg) + tail, DeliverTail(msg) + tail;
    var r2 := [dest.ton, dest.npi] + (dest.addr + [0] + r3);
    DeliverLayout(source, dest, msg, tail);
    TakeTerminatedAddress(source, r2);
    TakeTerminatedAddress(dest, r3);
    ParseSteps(body, TakeCstr(body).1, source, r2, dest, r3);
    TakeDeliverTail(msg, tail);
  }

  /** The tail as it looks to a parser that is one byte behind: the message is lost. */
  lemma TakeShiftedTail(msg: Bytes)
    ensures TakeMessage(TakeOptions([0] + DeliverTail(msg)).1) == []
  {
    var end := [0] + ([|msg| % 0x100] + msg);
    assert [0] + DeliverTail(msg) == [0, 0, 0] + ([0] + ([0] + ([0, 0, 0] + ([0] + end))));
    TakeNoOptions(end);
  }

  lemma OverlongDest(source: Address, dest: Address, msg: Bytes)
    requires NulFree(source.addr) && |source.addr| < CSTR_MAX
    requires NulFree(dest.addr) && |dest.addr| == CSTR_MAX
    ensures var sm := ParseSubmitSm(DeliverBody(source, dest, msg));
            sm.source == source && sm.dest == dest && sm.shortMessage == []
  {
    hide TakeCstr;
    hide TakeAddress;
    hide TakeOptions;
    hide TakeMessage;
    hide DeliverBody;
    var body, r3 := DeliverBody(source, dest, msg), DeliverTail(msg);
    var r2 := [dest.ton, dest.npi] + (dest.addr + [0] + r3);
    DeliverLayout(source, dest, msg, []);
    assert r3 + [] == r3 && body + [] == body;
    TakeTerminatedAddress(source, r2);
    assert dest.addr + [0] + r3 == dest.addr + ([0] + r3);
    TakeOverlongAddress(dest, [0] + r3);
    ParseSteps(body, TakeCstr(body).1, source, r2, dest, [0] + r3);
    TakeShiftedTail(msg);
  }

  /** An address as it looks to a parser that is one byte behind: empty. */
  lemma TakeShiftedAddress(rest: Bytes)
    ensures TakeAddress([0] + ([0, 0] + rest)) == (Address(0, 0, []), rest)
  {
    hide TakeCstr;
    var r := [0] + ([0, 0] + rest);
    assert r[1..][1..] == [0] + rest;
    TakeEmptyCstr(rest);
  }

  lemma OverlongSource(source: Address, dst: Bytes, msg: Bytes)
    requires NulFree(source.addr) && |source.addr| == CSTR_MAX
    ensures var sm := ParseSubmitSm(DeliverBody(source, Address(0, 0, dst), msg));
            sm.source == source && sm.dest.addr == [] && (dst == [] ==> sm.shortMessage == [])
  {
    hide TakeCstr;
    hide TakeAddress;
    hide TakeOptions;
    hide TakeMessage;
    hide DeliverBody;
    var body, r3 := DeliverBody(source, Address(0, 0, dst), msg), DeliverTail(msg);
    var r2 := [0, 0] + (dst + [0] + r3);
    DeliverLayout(source, Address(0, 0, dst), msg, []);
    assert r3 + [] == r3 && body + [] == body;
    assert source.addr + [0] + r2 == source.addr + ([0] + r2);
    TakeOverlongAddress(source, [0] + r2);
    TakeShiftedAddress(dst + [0] + r3);
    ParseSteps(body, TakeCstr(body).1, source, [0] + r2, Address(0, 0, []), dst + [0] + r3);
    if dst == [] {
      assert dst + [0] + r3 == [0] + DeliverTail(msg);
      TakeShiftedTail(msg);
    }
  }

  /** Whether a message that a submit_sm parse produced survives being delivered and parsed again. */
  predicate Survives(src: Bytes, dst: Bytes, msg: Bytes) {
    && (|src| < CSTR_MAX || (dst == [] && msg == []))
    && (|dst| < CSTR_MAX || msg == [])
  }

  /** Delivering what was parsed and parsing it again gives the same addresses and message exactly when
      `Survives` holds: a 65-byte address leaves its terminator unread and shifts everything after it. */
  lemma RedeliveryExact(body: Bytes)
    ensures var sm := ParseSubmitSm(body);
            var back := ParseSubmitSm(DeliverBody(Address(0, 0, sm.source.addr),
                                                  Address(0, 0, sm.dest.addr), sm.shortMessage));
            (&& back.source.addr == sm.source.addr
             && back.dest.addr == sm.dest.addr
             && back.shortMessage == sm.shortMessage)
            <==> Survives(sm.source.addr, sm.dest.addr, sm.shortMessage)
  {
    hide ParseSubmitSm;
    hide DeliverBody;
    ParsedSizes(body);
    var sm := ParseSubmitSm(body);
    var src, dst, msg := sm.source.addr, sm.dest.addr, sm.shortMessage;
    if |src| == CSTR_MAX {
      OverlongSource(Address(0, 0, src), dst, msg);
    } else if |dst| == CSTR_MAX {
      OverlongDest(Address(0, 0, src), Address(0, 0, dst), msg);
    } else {
      DeliverRoundTrip(Address(0, 0, src), Address(0, 0, dst), msg, []);
      var b := DeliverBody(Address(0, 0, src), Address(0, 0, dst), msg);
      assert b + [] == b;
    }
  }

  const LONG_SOURCE: Bytes := seq(65, _ => 65)

  /** A submit_sm body: the 65-byte source address is followed directly by the destination, "B"; the message is "C". */
  const OVERLONG_SUBMIT: Bytes :=
    [0] + [0, 0] + LONG_SOURCE + [0, 0, 66, 0] + [0, 0, 0, 0, 0, 0, 0, 0, 0] + [1, 67]

  lemma OverlongSubmitParses()
    ensures var sm := ParseSubmitSm(OVERLONG_SUBMIT);
            sm.source.addr == LONG_SOURCE && sm.dest.addr == [66] && sm.shortMessage == [67]
  {
    hide TakeCstr;
    hide TakeAddress;
    hide TakeOptions;
    hide TakeMessage;
    var r3 := DeliverTail([67]);
    var r2 := [0, 0] + ([66] + [0] + r3);
    var r1 := [0, 0] + (LONG_SOURCE + r2);
    assert OVERLONG_SUBMIT == [0] + r1;
    TakeEmptyCstr(r1);
    TakeOverlongAddress(Address(0, 0, LONG_SOURCE), r2);
    TakeTerminatedAddress(Address(0, 0, [66]), r3);
    ParseSteps(OVERLONG_SUBMIT, r1, Address(0, 0, LONG_SOURCE), r2, Address(0, 0, [66]), r3);
    TakeDeliverTail([67], []);
    assert r3 + [] == r3;
  }

  /** What that body asks for is delivered so that it parses with no destination at all. */
  lemma OverlongSourceExample()
    ensures var sm := ParseSubmitSm(OVERLONG_SUBMIT);
            var back := ParseSubmitSm(DeliverBody(Address(0, 0, sm.source.addr),
                                                  Address(0, 0, sm.dest.addr), sm.shortMessage));
            && sm.dest.addr == [66] && !Survives(sm.source.addr, sm.dest.addr, sm.shortMessage)
            && back.source.addr == sm.source.addr && back.dest.addr == []
  {
    hide ParseSubmitSm;
    OverlongSubmitParses();
    OverlongSource(Address(0, 0, LONG_SOURCE), [66], [67]);
  }
}
