/** The layout of a submit_sm body, written from section 4.4.1 of SMPP v3.4, and of the words and headers around it,
    from section 3.2: what the parser and the builder have to agree with. */
module SubmitLayout {
  import opened Pdu

  // ---------------------------------------------------------------- words and headers

  /** Big-endian words sort as their numbers do: the first byte in which they differ decides. */
  lemma BigEndianOrder(a: u32, b: u32) returns (k: nat)
    requires a < b
    ensures k < 4 && Be32(a)[..k] == Be32(b)[..k] && Be32(a)[k] < Be32(b)[k]
  {
    DivDiv(a);
    DivDiv(b);
    k := if a / 0x100_0000 != b / 0x100_0000 then 0
         else if a / 0x1_0000 != b / 0x1_0000 then 1
         else if a / 0x100 != b / 0x100 then 2
         else 3;
    WordRoundTrip(a, Be32(a));
    WordRoundTrip(b, Be32(b));
  }

  /** A PDU on the wire: length, id, status and sequence number, then the body. */
  lemma WireLayout(h: Header, body: Bytes)
    requires h.length == HEADER_SIZE + |body|
    ensures var b := Wire(Packet(h, body));
            && b[0..4] == Be32(|b|) && b[4..8] == Be32(h.id)
            && b[8..12] == Be32(h.status) && b[12..16] == Be32(h.sequence) && b[16..] == body
  {
  }

  // ---------------------------------------------------------------- the body

  function AddressBytes(a: Address): Bytes {
    [a.ton, a.npi] + (a.addr + [0])
  }

  function OptionBytes(o: Options): Bytes {
    [o.esmClass, o.protocolId, o.priorityFlag]
    + (o.scheduleDeliveryTime + [0]
    + (o.validityPeriod + [0]
    + ([o.registeredDelivery, o.replaceIfPresent, o.dataCoding]
    + [o.defaultMsgId])))
  }

  /** Everything before the message. */
  function Front(sm: SubmitSm): Bytes
    requires |sm.shortMessage| <= 255
  {
    sm.serviceType + [0]
    + (AddressBytes(sm.source)
    + (AddressBytes(sm.dest)
    + (OptionBytes(sm.options)
    + [|sm.shortMessage|])))
  }

  function SubmitBody(sm: SubmitSm): Bytes
    requires |sm.shortMessage| <= 255
  {
    Front(sm) + sm.shortMessage
  }

  /** A string that fits its field with its terminator. */
  predicate Fits(s: Bytes) { NulFree(s) && |s| < CSTR_MAX }

  predicate Encodable(sm: SubmitSm) {
    && Fits(sm.serviceType) && Fits(sm.source.addr) && Fits(sm.dest.addr)
    && Fits(sm.options.scheduleDeliveryTime) && Fits(sm.options.validityPeriod)
    && |sm.shortMessage| <= 255
  }

  lemma TakeAddressBytes(a: Address, rest: Bytes)
    requires Fits(a.addr)
    ensures TakeAddress(AddressBytes(a) + rest) == (a, rest)
  {
    hide TakeAddress;
    TakeTerminatedAddress(a, rest);
    assert AddressBytes(a) + rest == [a.ton, a.npi] + (a.addr + [0] + rest);
  }

  lemma TakeThreeBytes(a: byte, b: byte, c: byte, rest: Bytes)
    ensures TakeThree([a, b, c] + rest) == ((a, b, c), rest)
  {
    var r := [a, b, c] + rest;
    assert r[1..][1..][1..] == rest;
  }

  /** Any option bytes are read back, each into its own field. */
  lemma TakeOptionBytes(o: Options, rest: Bytes)
    requires Fits(o.scheduleDeliveryTime) && Fits(o.validityPeriod)
    ensures TakeOptions(OptionBytes(o) + rest) == (o, rest)
  {
    hide TakeThree;
    hide TakeCstr;
    var r4 := [o.defaultMsgId] + rest;
    var r3 := [o.registeredDelivery, o.replaceIfPresent, o.dataCoding] + r4;
    var r2 := o.validityPeriod + [0] + r3;
    var r1 := o.scheduleDeliveryTime + [0] + r2;
    assert OptionBytes(o) + rest == [o.esmClass, o.protocolId, o.priorityFlag] + r1;
    TakeThreeBytes(o.esmClass, o.protocolId, o.priorityFlag, r1);
    TakeTerminated(o.scheduleDeliveryTime, r2);
    TakeTerminated(o.validityPeriod, r3);
    TakeThreeBytes(o.registeredDelivery, o.replaceIfPresent, o.dataCoding, r4);
    assert r4[1..] == rest;
  }

  /** What the parser makes of a body whose message has been cut short, or is followed by something else. */
  lemma FrontParses(sm: SubmitSm, rest: Bytes)
    requires Encodable(sm)
    ensures ParseSubmitSm(Front(sm) + rest) == sm.(shortMessage := TakeMessage([|sm.shortMessage|] + rest))
  {
    hide TakeCstr;
    hide TakeAddress;
    hide TakeOptions;
    hide TakeMessage;
    hide AddressBytes;
    hide OptionBytes;
    var r4 := [|sm.shortMessage|] + rest;
    var r3 := OptionBytes(sm.options) + r4;
    var r2 := AddressBytes(sm.dest) + r3;
    var r1 := AddressBytes(sm.source) + r2;
    assert Front(sm) + rest == sm.serviceType + [0] + r1;
    TakeTerminated(sm.serviceType, r1);
    TakeAddressBytes(sm.source, r2);
    TakeAddressBytes(sm.dest, r3);
    TakeOptionBytes(sm.options, r4);
    ParseSteps(Front(sm) + rest, r1, sm.source, r2, sm.dest, r3);
  }

  /** The parser inverts the layout: every field, with any option bytes, whatever follows the body. */
  lemma SubmitRoundTrip(sm: SubmitSm, tail: Bytes)
    requires Encodable(sm)
    ensures ParseSubmitSm(SubmitBody(sm) + tail) == sm
  {
    hide ParseSubmitSm;
    hide Front;
    var m := sm.shortMessage;
    assert SubmitBody(sm) + tail == Front(sm) + (m + tail);
    FrontParses(sm, m + tail);
    assert ([|m|] + (m + tail))[1..1 + |m|] == m;
  }

  /** A body cut short within its message loses exactly the rest of the message. */
  lemma CutMessage(sm: SubmitSm, k: nat)
    requires Encodable(sm) && k <= |sm.shortMessage|
    ensures ParseSubmitSm(Front(sm) + sm.shortMessage[..k]) == sm.(shortMessage := sm.shortMessage[..k])
  {
    hide ParseSubmitSm;
    hide Front;
    var m := sm.shortMessage[..k];
    FrontParses(sm, m);
    assert ([|sm.shortMessage|] + m)[1..] == m;
    if k == |sm.shortMessage| {
      assert ([|sm.shortMessage|] + m)[1..1 + k] == m;
    }
  }

  /** A string that the body ends in without a terminator is read whole. */
  lemma TakeUnterminated(s: Bytes)
    requires NulFree(s) && |s| <= CSTR_MAX
    ensures TakeCstr(s) == (s, [])
  {
    ScanStops(s, [], CSTR_MAX);
    assert s + [] == s;
  }

  /** What the deliver_sm builder writes is the same layout, with no service type and no options. */
  lemma DeliverIsLayout(source: Address, dest: Address, msg: Bytes)
    requires |msg| <= 255
    ensures DeliverBody(source, dest, msg) == SubmitBody(SubmitSm([], source, dest, NO_OPTIONS, msg))
  {
    assert DeliverTail(msg) == OptionBytes(NO_OPTIONS) + [|msg|] + msg;
  }

  /** A UCS-2 message: data_coding 8 behind two empty strings, and the message is "hi". */
  lemma DataCodingExample()
    ensures var body := [0] + [0, 0, 65, 0] + [0, 0, 66, 0] + [0, 0, 0, 0, 0, 0, 0, 8, 0] + [2, 104, 105];
            ParseSubmitSm(body).options.dataCoding == 8 && ParseSubmitSm(body).shortMessage == [104, 105]
  {
    hide ParseSubmitSm;
    var sm := SubmitSm([], Address(0, 0, [65]), Address(0, 0, [66]), NO_OPTIONS.(dataCoding := 8), [104, 105]);
    var body: Bytes := [0] + [0, 0, 65, 0] + [0, 0, 66, 0] + [0, 0, 0, 0, 0, 0, 0, 8, 0] + [2, 104, 105];
    assert SubmitBody(sm) + [] == body;
    SubmitRoundTrip(sm, []);
  }
}
