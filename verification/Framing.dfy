/** The reference for framing: how a byte stream is cut into PDUs, and what joining PDUs gives. The
    session's reader and the streaming framer are both proved against `Cut`. */
module Framing {
  import opened Pdu

  /** The stream starts with a whole PDU whose length field is at least a header. */
  predicate HasPacket(s: Bytes) {
    |s| >= HEADER_SIZE && HEADER_SIZE <= DecodeHeader(s).length <= |s|
  }

  function First(s: Bytes): (p: Packet)
    requires HasPacket(s)
    ensures p.WellFormed()
  {
    Packet(DecodeHeader(s), s[HEADER_SIZE..DecodeHeader(s).length])
  }

  function Cut(s: Bytes): seq<Packet>
    decreases |s|
  {
    if HasPacket(s) then [First(s)] + Cut(s[DecodeHeader(s).length..]) else []
  }

  /** What is left when no further PDU can be cut: an incomplete one, or one with a bad length. */
  function Remainder(s: Bytes): Bytes
    decreases |s|
  {
    if HasPacket(s) then Remainder(s[DecodeHeader(s).length..]) else s
  }

  function Join(ps: seq<Packet>): Bytes {
    if ps == [] then [] else Join(ps[..|ps| - 1]) + Wire(ps[|ps| - 1])
  }

  lemma FirstWire(s: Bytes)
    requires HasPacket(s)
    ensures s == Wire(First(s)) + s[DecodeHeader(s).length..]
  {
    var n := DecodeHeader(s).length;
    var h := s[..HEADER_SIZE];
    assert DecodeHeader(h) == DecodeHeader(s);
    EncodeDecodedHeader(h);
    assert s == h + s[HEADER_SIZE..n] + s[n..];
  }

  lemma CutOne(p: Packet, rest: Bytes)
    requires p.WellFormed()
    ensures HasPacket(Wire(p) + rest)
    ensures Cut(Wire(p) + rest) == [p] + Cut(rest) && Remainder(Wire(p) + rest) == Remainder(rest)
  {
    var s := Wire(p) + rest;
    assert s == EncodeHeader(p.header) + (p.body + rest);
    DecodeEncodedHeader(p.header, p.body + rest);
    assert s[HEADER_SIZE..p.header.length] == p.body;
    assert s[p.header.length..] == rest;
  }

  /** Cutting loses nothing: the PDUs joined, then the remainder, are the stream. */
  lemma {:induction false} JoinCut(s: Bytes)
    ensures Join(Cut(s)) + Remainder(s) == s
    ensures forall p | p in Cut(s) :: p.WellFormed()
    decreases |s|
  {
    if HasPacket(s) {
      var rest := s[DecodeHeader(s).length..];
      JoinCut(rest);
      FirstWire(s);
      JoinFirst(First(s), Cut(rest));
      assert Join(Cut(s)) + Remainder(s) == Wire(First(s)) + (Join(Cut(rest)) + Remainder(rest));
    }
  }

  lemma {:induction false} JoinFirst(p: Packet, ps: seq<Packet>)
    ensures Join([p] + ps) == Wire(p) + Join(ps)
  {
    hide Wire;
    var all := [p] + ps;
    if ps == [] {
      assert all[..0] == [];
    } else {
      assert all[..|all| - 1] == [p] + ps[..|ps| - 1];
      JoinFirst(p, ps[..|ps| - 1]);
    }
  }

  lemma Assoc<T>(a: seq<T>, b: seq<T>, c: seq<T>)
    ensures a + b + c == a + (b + c)
  {
  }

  /** Joining loses nothing: a stream of well-formed PDUs is cut back into exactly those PDUs, whatever
      follows them. */
  lemma {:induction false} CutJoin(ps: seq<Packet>, rest: Bytes)
    requires forall p | p in ps :: p.WellFormed()
    ensures Cut(Join(ps) + rest) == ps + Cut(rest)
    ensures Remainder(Join(ps) + rest) == Remainder(rest)
  {
    hide Cut;
    hide Remainder;
    hide Wire;
    if ps == [] {
      assert Join(ps) + rest == rest;
    } else {
      var init, last := ps[..|ps| - 1], ps[|ps| - 1];
      Assoc(Join(init), Wire(last), rest);
      CutJoin(init, Wire(last) + rest);
      CutOne(last, rest);
      assert ps == init + [last];
      Assoc(init, [last], Cut(rest));
    }
  }

  /** More input only adds PDUs: those already cut stay, and cutting goes on from the remainder. */
  lemma CutExtend(s: Bytes, more: Bytes)
    ensures Cut(s + more) == Cut(s) + Cut(Remainder(s) + more)
    ensures Remainder(s + more) == Remainder(Remainder(s) + more)
  {
    hide Cut;
    hide Remainder;
    hide Join;
    JoinCut(s);
    Assoc(Join(Cut(s)), Remainder(s), more);
    CutJoin(Cut(s), Remainder(s) + more);
  }

  /** A remainder holds no further PDU. */
  lemma {:induction false} RemainderCuts(s: Bytes)
    ensures Cut(Remainder(s)) == [] && Remainder(Remainder(s)) == Remainder(s)
    decreases |s|
  {
    if HasPacket(s) {
      RemainderCuts(s[DecodeHeader(s).length..]);
    }
  }

  /** Cutting is the only way to frame a stream: whole PDUs followed by bytes that start no further one make up the
      stream exactly when they are its cut and its remainder. */
  lemma CutUnique(s: Bytes, ps: seq<Packet>, rest: Bytes)
    requires forall p | p in ps :: p.WellFormed()
    ensures s == Join(ps) + rest && !HasPacket(rest) <==> ps == Cut(s) && rest == Remainder(s)
  {
    JoinCut(s);
    RemainderCuts(s);
    CutJoin(ps, rest);
  }
}
