/** The codec's loops: scanning a body with an advancing offset and filling a PDU buffer in place. Each
    is proved against the functions of module Pdu. */
module PduBuffers {
  import opened Pdu

  method WriteU32(p: array<byte>, at: nat, v: u32)
    requires at + 4 <= p.Length
    modifies p
    ensures p[..] == old(p[..at]) + Be32(v) + old(p[at + 4..])
  {
    p[at] := v / 0x100_0000;
    p[at + 1] := v / 0x1_0000 % 0x100;
    p[at + 2] := v / 0x100 % 0x100;
    p[at + 3] := v % 0x100;
  }

  /** Where a scan of `buf` from `off` ends, and what it leaves. */
  lemma ScanEnds(buf: Bytes, off: nat, at: nat)
    requires off <= at <= |buf| && NulFree(buf[off..at]) && at - off <= CSTR_MAX
    requires at - off < CSTR_MAX ==> at == |buf| || buf[at] == 0
    ensures TakeCstr(buf[off..])
            == (buf[off..at], if at - off < CSTR_MAX && at < |buf| then buf[at + 1..] else buf[at..])
  {
    hide Scan;
    assert buf[off..] == buf[off..at] + buf[at..];
    ScanStops(buf[off..at], buf[at..], CSTR_MAX);
  }

  /** The scanned string and the suffix left after it, as `TakeCstr` has them; an offset past the end
      reads nothing. */
  method ReadCstr(buf: Bytes, off: nat) returns (s: Bytes, next: nat)
    ensures off <= |buf| ==> off <= next <= |buf| && (s, buf[next..]) == TakeCstr(buf[off..])
    ensures off > |buf| ==> s == [] && next == off
  {
    hide TakeCstr;
    s, next := [], off;
    while next < |buf| && |s| < CSTR_MAX
      invariant next == off + |s| && |s| <= CSTR_MAX && (off <= |buf| ==> next <= |buf|)
      invariant off > |buf| ==> s == []
      invariant off <= |buf| ==> buf[off..next] == s && NulFree(s)
    {
      var c := buf[next];
      next := next + 1;
      if c == 0 {
        ScanEnds(buf, off, next - 1);
        return;
      }
      s := s + [c];
    }
    if off <= |buf| {
      ScanEnds(buf, off, next);
    }
  }

  method ReadByte(buf: Bytes, off: nat) returns (b: byte, next: nat)
    requires off <= |buf|
    ensures off <= next <= |buf| && (b, buf[next..]) == TakeByte(buf[off..])
  {
    b, next := 0, off;
    if off < |buf| {
      b, next := buf[off], off + 1;
    }
  }

  method ReadAddress(buf: Bytes, off: nat) returns (a: Address, next: nat)
    requires off <= |buf|
    ensures off <= next <= |buf| && (a, buf[next..]) == TakeAddress(buf[off..])
  {
    var ton, npi, addr;
    ton, next := ReadByte(buf, off);
    npi, next := ReadByte(buf, next);
    addr, next := ReadCstr(buf, next);
    a := Address(ton, npi, addr);
  }

  method ReadThree(buf: Bytes, off: nat) returns (a: byte, b: byte, c: byte, next: nat)
    requires off <= |buf|
    ensures off <= next <= |buf| && ((a, b, c), buf[next..]) == TakeThree(buf[off..])
  {
    a, next := ReadByte(buf, off);
    b, next := ReadByte(buf, next);
    c, next := ReadByte(buf, next);
  }

  method ReadOptions(buf: Bytes, off: nat) returns (o: Options, next: nat)
    requires off <= |buf|
    ensures off <= next <= |buf| && (o, buf[next..]) == TakeOptions(buf[off..])
  {
    var esm, protocol, priority, schedule, validity, registered, replace, coding, default;
    esm, protocol, priority, next := ReadThree(buf, off);
    schedule, next := ReadCstr(buf, next);
    validity, next := ReadCstr(buf, next);
    registered, replace, coding, next := ReadThree(buf, next);
    default, next := ReadByte(buf, next);
    o := Options(esm, protocol, priority, schedule, validity, registered, replace, coding, default);
  }

  method ReadMessage(buf: Bytes, off: nat) returns (message: Bytes, next: nat)
    requires off <= |buf|
    ensures off <= next <= |buf| && message == TakeMessage(buf[off..])
  {
    message, next := [], off;
    if off < |buf| {
      var length: nat := buf[off];
      next := off + 1;
      var available := if length <= |buf| - next then length else |buf| - next;
      message := buf[next..next + available];
      next := next + available;
    }
  }

  /** The field-by-field parser: total on every body, with its offset never past the end. */
  method ReadSubmitSm(body: Bytes) returns (sm: SubmitSm, off: nat)
    ensures sm == ParseSubmitSm(body)
    ensures off <= |body|
  {
    var service, source, dest, options, message;
    service, off := ReadCstr(body, 0);
    ghost var r1 := body[off..];
    assert body[0..] == body;
    source, off := ReadAddress(body, off);
    ghost var r2 := body[off..];
    dest, off := ReadAddress(body, off);
    ParseSteps(body, r1, source, r2, dest, body[off..]);
    options, off := ReadOptions(body, off);
    message, off := ReadMessage(body, off);
    sm := SubmitSm(service, source, dest, options, message);
  }

  method WriteHeader(p: array<byte>, header: Header)
    requires p.Length >= HEADER_SIZE
    modifies p
    ensures p[..] == EncodeHeader(header) + old(p[HEADER_SIZE..])
  {
    hide Be32;
    ghost var was := p[..];
    WriteU32(p, 0, header.length);
    WriteU32(p, 4, header.id);
    assert p[..] == Be32(header.length) + Be32(header.id) + was[8..];
    WriteU32(p, 8, header.status);
    assert p[..] == Be32(header.length) + Be32(header.id) + Be32(header.status) + was[12..];
    WriteU32(p, 12, header.sequence);
    assert p[..] == EncodeHeader(header) + was[16..];
  }

  /** Allocates the PDU, writes the four header words and copies the body behind them. */
  method Assemble(header: Header, body: Bytes) returns (pdu: Bytes)
    requires header.length == HEADER_SIZE + |body|
    ensures pdu == Wire(Packet(header, body))
  {
    hide EncodeHeader;
    var p := new byte[header.length](_ => 0);
    WriteHeader(p, header);
    for i := 0 to |body|
      invariant p[..HEADER_SIZE + i] == EncodeHeader(header) + body[..i]
    {
      p[HEADER_SIZE + i] := body[i];
      assert p[..HEADER_SIZE + i + 1] == p[..HEADER_SIZE + i] + [body[i]];
      assert body[..i + 1] == body[..i] + [body[i]];
    }
    assert p[..] == p[..HEADER_SIZE + |body|] && body[..|body|] == body;
    pdu := p[..];
  }

  /** The bytes sent are the wire form of `Response`. */
  method MakeResponse(id: u32, status: u32, sequence: u32, text: Bytes) returns (pdu: Bytes)
    requires |text| + 17 < 0x1_0000_0000
    ensures pdu == Wire(Response(id, status, sequence, text))
  {
    var size := if text == [] then 0 else |text| + 1;
    pdu := Assemble(Header(HEADER_SIZE + size, id, status, sequence), if text == [] then [] else text + [0]);
  }

  method Append(body: Bytes, s: Bytes) returns (r: Bytes)
    ensures r == body + s
  {
    r := body;
    for i := 0 to |s|
      invariant r == body + s[..i]
    {
      r := r + [s[i]];
    }
  }

  /** The deliver_sm body field by field, without nesting. */
  lemma DeliverBodyFlat(source: Address, dest: Address, msg: Bytes)
    ensures DeliverBody(source, dest, msg)
            == [0, source.ton, source.npi] + source.addr + [0, dest.ton, dest.npi] + dest.addr
               + [0, 0, 0, 0, 0, 0, 0, 0, 0, 0, |msg| % 0x100] + msg
  {
  }

  /** The bytes sent are the wire form of `Deliver`. */
  method MakeDeliverSm(sequence: u32, source: Address, dest: Address, msg: Bytes) returns (pdu: Bytes)
    requires FitsPdu(source.addr, dest.addr, msg)
    ensures pdu == Wire(Deliver(sequence, source, dest, msg))
  {
    hide DeliverBody;
    var body: Bytes := [0, source.ton, source.npi];
    body := Append(body, source.addr);
    body := body + [0, dest.ton, dest.npi];
    body := Append(body, dest.addr);
    body := body + [0, 0, 0, 0, 0, 0, 0, 0, 0, 0, |msg| % 0x100];
    body := Append(body, msg);
    DeliverBodyFlat(source, dest, msg);
    pdu := Assemble(Header(HEADER_SIZE + |body|, DELIVER_SM, ESME_ROK, sequence), body);
  }
}
