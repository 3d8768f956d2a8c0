/** What the server's table says against what the sessions are: a session is listed as a receiver only if it was bound
    as one, so a message is lost on its way only for want of a receiver or because its receiver has ended. */
module Listing {
  import opened Pdu
  import opened Session
  import opened SessionOrder
  import opened SessionAnswers
  import opened Conservation
  import Routing

  // ---------------------------------------------------------------- the invariant

  /** A session sent the server this system id and state. */
  predicate Told(t: Trace, info: Routing.SessionInfo) {
    exists n | 0 <= n < |Notices(t)| ::
      Notices(t)[n].systemId == info.systemId && StateName(Notices(t)[n].shown) == info.state
  }

  predicate EntryTrue(nodes: map<Bytes, Node>, e: Routing.Entry) {
    e.info.state == StateName(Open) || (e.uuid in nodes && Told(nodes[e.uuid].session.trace, e.info))
  }

  /** A message is offered only to a session that receives, or did until it ended. */
  predicate OfferGood(nodes: map<Bytes, Node>, stage: Stage) {
    stage.Offered? ==>
      && stage.target in nodes
      && (Receiving(nodes[stage.target].session.state) || nodes[stage.target].session.state == Unbound)
  }

  predicate NodeTrue(u: Bytes, n: Node) {
    u != [] && Ordered(n.session) && Truthful(n.session)
  }

  ghost predicate Honest(s: System) {
    && (forall u | u in s.nodes :: NodeTrue(u, s.nodes[u]))
    && Routing.InOrder(s.table)
    && (forall k | 0 <= k < |s.table| :: EntryTrue(s.nodes, s.table[k]))
    && (forall o | o in s.calls :: OfferGood(s.nodes, s.calls[o].stage))
  }

  // ---------------------------------------------------------------- sessions moving on

  /** What a session that moves on keeps: its notices, and its state unless it binds or ends. */
  predicate MovesOn(s: Session, t: Session) {
    Follows(s.state, t.state) && Notices(s.trace) <= Notices(t.trace)
  }

  lemma NodeMovesOn(u: Bytes, n: Node, e: Event)
    requires NodeTrue(u, n) && Enabled(n.session, e)
    ensures NodeTrue(u, Stepped(n, e)) && MovesOn(n.session, Stepped(n, e).session)
  {
    hide Step;
    hide Enabled;
    hide Ordered;
    hide Truthful;
    StepOrdered(n.config, n.session, e);
    StepTruthful(n.config, n.session, e);
  }

  /** Replacing a session by one it moves on to keeps the table and the offers true. */
  lemma EntryFrame(nodes: map<Bytes, Node>, u: Bytes, n: Node, e: Routing.Entry)
    requires EntryTrue(nodes, e) && (u in nodes ==> MovesOn(nodes[u].session, n.session))
    ensures EntryTrue(nodes[u := n], e)
  {
    hide Notices;
    if e.info.state != StateName(Open) && e.uuid == u {
      var before, after := Notices(nodes[u].session.trace), Notices(n.session.trace);
      var k :| 0 <= k < |before| && before[k].systemId == e.info.systemId && StateName(before[k].shown) == e.info.state;
      assert after[k] == before[k];
    }
  }

  lemma OfferFrame(nodes: map<Bytes, Node>, u: Bytes, n: Node, stage: Stage)
    requires OfferGood(nodes, stage) && (u in nodes ==> MovesOn(nodes[u].session, n.session))
    ensures OfferGood(nodes[u := n], stage)
  {
  }

  /** A session put in place, new or moved on. */
  lemma PlacedHonest(s: System, u: Bytes, n: Node)
    requires Honest(s) && NodeTrue(u, n) && (u in s.nodes ==> MovesOn(s.nodes[u].session, n.session))
    ensures Honest(s.(nodes := s.nodes[u := n]))
  {
    hide EntryTrue;
    hide OfferGood;
    hide NodeTrue;
    hide MovesOn;
    forall k | 0 <= k < |s.table| ensures EntryTrue(s.nodes[u := n], s.table[k]) {
      EntryFrame(s.nodes, u, n, s.table[k]);
    }
    forall o | o in s.calls ensures OfferGood(s.nodes[u := n], s.calls[o].stage) {
      OfferFrame(s.nodes, u, n, s.calls[o].stage);
    }
  }

  // ---------------------------------------------------------------- the table changing

  lemma RegisterHonest(s: System, u: Bytes, ip: string)
    requires Honest(s)
    ensures Honest(Do(s, Register(u, ip)))
  {
    hide NodeTrue;
    hide OfferGood;
    hide Told;
    var info := Routing.SessionInfo(ip, [], StateName(Open));
    var t := Routing.Put(s.table, u, info);
    Routing.PutInOrder(s.table, u, info);
    forall k | 0 <= k < |t| ensures EntryTrue(s.nodes, t[k]) {
      Routing.PutEntries(s.table, u, info, t[k]);
      assert t[k] in t;
      if t[k] in s.table {
        var j :| 0 <= j < |s.table| && s.table[j] == t[k];
        assert EntryTrue(s.nodes, s.table[j]);
      }
    }
  }

  lemma NotifyHonest(s: System, u: Bytes, n: nat)
    requires Honest(s) && Possible(s, Notify(u, n))
    ensures Honest(Do(s, Notify(u, n)))
  {
    hide NodeTrue;
    hide OfferGood;
    var notice := Notices(s.nodes[u].session.trace)[n];
    var t := Routing.Update(s.table, u, notice.systemId, StateName(notice.shown));
    Routing.UpdateInOrder(s.table, u, notice.systemId, StateName(notice.shown));
    forall k | 0 <= k < |t| ensures EntryTrue(s.nodes, t[k]) {
      if t[k] != s.table[k] {
        assert Told(s.nodes[u].session.trace, t[k].info);
      }
    }
  }

  // ---------------------------------------------------------------- receivers

  lemma NamesDiffer(a: SessionState, b: SessionState)
    requires StateName(a) == StateName(b)
    ensures a == b
  {
    assert |StateName(Open)| == 4 && |StateName(Unbound)| == 7 && |StateName(BoundTrx)| == 9;
    assert StateName(BoundTx)[6] == 'T' && StateName(BoundRx)[6] == 'R';
  }

  /** The entry is named as a session in one of the two receiving states. */
  predicate NamedReceiver(e: Routing.Entry) {
    e.info.state == StateName(BoundRx) || e.info.state == StateName(BoundTrx)
  }

  /** An entry listed as a receiver belongs to a session that an approved bind made one, under the listed system id; it
      still is one unless it has ended. */
  lemma ReceiverHolds(s: System, k: nat)
    requires Honest(s) && k < |s.table| && NamedReceiver(s.table[k])
    ensures var e := s.table[k];
            && e.uuid != [] && e.uuid in s.nodes
            && var n := s.nodes[e.uuid].session;
               && ApprovedBinds(n.trace)
                  == [if e.info.state == StateName(BoundRx) then BIND_RECEIVER else BIND_TRANSCEIVER]
               && (n.state == Unbound
                   || (Receiving(n.state) && StateName(n.state) == e.info.state && n.systemId == e.info.systemId))
  {
    hide Ordered;
    hide Truthful;
    hide Notices;
    var e := s.table[k];
    assert EntryTrue(s.nodes, e);
    assert |StateName(Open)| == 4;
    var n := s.nodes[e.uuid].session;
    assert NodeTrue(e.uuid, s.nodes[e.uuid]);
    var i :| 0 <= i < |Notices(n.trace)| && Notices(n.trace)[i].systemId == e.info.systemId
      && StateName(Notices(n.trace)[i].shown) == e.info.state;
    NoticeHolds(n, i);
    var shown := Notices(n.trace)[i].shown;
    if e.info.state == StateName(BoundRx) {
      NamesDiffer(shown, BoundRx);
    } else {
      NamesDiffer(shown, BoundTrx);
    }
  }

  /** The server finds a target exactly when some session is listed as a receiver. */
  lemma ChosenReceives(s: System)
    requires Honest(s)
    ensures Routing.Choose(s.table).To? <==> exists e | e in s.table :: NamedReceiver(e)
    ensures var target := Routing.Choose(s.table);
            target.To? ==> OfferGood(s.nodes, Offered(target.uuid))
  {
    hide EntryTrue;
    hide NodeTrue;
    hide Routing.Choose;
    forall e | e in s.table && NamedReceiver(e) ensures e.uuid != [] {
      var k :| 0 <= k < |s.table| && s.table[k] == e;
      ReceiverHolds(s, k);
    }
    Routing.ChoosesExactly(s.table);
    if Routing.Choose(s.table).To? {
      Routing.ChosenIsFirst(s.table);
      var k :| 0 <= k < |s.table| && s.table[k].uuid == Routing.Choose(s.table).uuid
        && s.table[k].info.state in Routing.RECEIVER_STATES;
      ReceiverHolds(s, k);
    }
  }

  // ---------------------------------------------------------------- every move

  lemma MovedHonest(s: System, o: Origin, stage: Stage)
    requires Honest(s) && o in s.calls && OfferGood(s.nodes, stage)
    ensures Honest(Moved(s, o, stage))
  {
    hide EntryTrue;
    hide NodeTrue;
    hide OfferGood;
  }

  /** A call newly announced has not been offered to anybody. */
  lemma AnnouncedHonest(s: System, u: Bytes, before: Session, after: Session)
    requires Honest(s)
    ensures Honest(s.(calls := Announce(s.calls, u, before, after)))
  {
    hide EntryTrue;
    hide NodeTrue;
  }

  lemma NewHonest(s: System, u: Bytes, c: Config, now: real)
    requires Honest(s) && Possible(s, Launch(u, c, now))
    ensures Honest(Do(s, Launch(u, c, now)))
  {
    assert NodeTrue(u, Node(c, Started(c, now)));
    PlacedHonest(s, u, Node(c, Started(c, now)));
  }

  lemma StepHonest(s: System, u: Bytes, e: Event)
    requires Honest(s) && u in s.nodes && Enabled(s.nodes[u].session, e)
    ensures Honest(s.(nodes := s.nodes[u := Stepped(s.nodes[u], e)]))
  {
    hide Step;
    hide Enabled;
    hide EntryTrue;
    hide OfferGood;
    assert NodeTrue(u, s.nodes[u]);
    NodeMovesOn(u, s.nodes[u], e);
    PlacedHonest(s, u, Stepped(s.nodes[u], e));
  }

  lemma MoveHonest(s: System, m: Move)
    requires Honest(s) && Possible(s, m)
    ensures Honest(Do(s, m))
  {
    hide Honest;
    hide Step;
    hide Announce;
    hide Routing.Choose;
    match m
    case Launch(u, c, now) => NewHonest(s, u, c, now);
    case Local(u, e) =>
      StepHonest(s, u, e);
      AnnouncedHonest(s.(nodes := s.nodes[u := Stepped(s.nodes[u], e)]), u, s.nodes[u].session,
                      Stepped(s.nodes[u], e).session);
    case Register(u, ip) => RegisterHonest(s, u, ip);
    case Notify(u, n) => NotifyHonest(s, u, n);
    case Serve(o) =>
      var target := Routing.Choose(s.table);
      ChosenReceives(s);
      MovedHonest(s, o, if target.To? then Offered(target.uuid) else Lost);
    case Fail(o) => MovedHonest(s, o, Lost);
    case Check(o) =>
      var u := s.calls[o].stage.target;
      var e: Event := DeliverCheck(s.calls[o].message);
      StepHonest(s, u, e);
      MovedHonest(s.(nodes := s.nodes[u := Stepped(s.nodes[u], e)]), o,
                  if Receiving(s.nodes[u].session.state) then Taken(u) else Lost);
    case Send(u, k) => StepHonest(s, u, DeliverSend(k));
  }

  // ---------------------------------------------------------------- over whole histories

  lemma {:induction false} HistoryHonest(h: History)
    requires Lawful(h)
    ensures Honest(State(h))
  {
    hide Do;
    hide Possible;
    hide Honest;
    if h.Later? {
      HistoryHonest(h.before);
      MoveHonest(State(h.before), h.move);
    } else {
      EmptyHonest();
    }
  }

  lemma EmptyHonest()
    ensures Honest(State(Boot))
  {
  }

  /** In every history, a session listed as a receiver was made one by an approved bind, under the listed system id, and
      still is one unless it has ended; however late or often the server was told. */
  lemma ListedWereBound(h: History, k: nat)
    requires Lawful(h) && k < |State(h).table| && NamedReceiver(State(h).table[k])
    ensures var e := State(h).table[k];
            && e.uuid in State(h).nodes
            && var n := State(h).nodes[e.uuid].session;
               && ApprovedBinds(n.trace)
                  == [if e.info.state == StateName(BoundRx) then BIND_RECEIVER else BIND_TRANSCEIVER]
               && (n.state == Unbound || (StateName(n.state) == e.info.state && n.systemId == e.info.systemId))
  {
    hide Do;
    hide Possible;
    HistoryHonest(h);
    ReceiverHolds(State(h), k);
  }

  /** The server gives up on a message exactly when no session is listed as a receiver. */
  lemma UnroutedExactly(h: History, o: Origin)
    requires Lawful(h) && Possible(State(h), Serve(o))
    ensures Do(State(h), Serve(o)).calls[o].stage == Lost
            <==> !exists e | e in State(h).table :: NamedReceiver(e)
  {
    hide Routing.Choose;
    HistoryHonest(h);
    ChosenReceives(State(h));
  }

  /** The converse: once the server has been told by a registered session, it lists it in the state its approved bind
      asked for, and under its own system id. */
  lemma ToldIsListed(h: History, u: Bytes, n: nat, k: nat)
    requires Lawful(h) && Possible(State(h), Notify(u, n)) && k < |State(h).table| && State(h).table[k].uuid == u
    ensures var s, t := State(h).nodes[u].session, Do(State(h), Notify(u, n)).table;
            && k < |t| && t[k].uuid == u
            && (t[k].info.state == StateName(BoundTx) <==> ApprovedBinds(s.trace) == [BIND_TRANSMITTER])
            && (t[k].info.state == StateName(BoundRx) <==> ApprovedBinds(s.trace) == [BIND_RECEIVER])
            && (t[k].info.state == StateName(BoundTrx) <==> ApprovedBinds(s.trace) == [BIND_TRANSCEIVER])
            && (s.state == Unbound || (t[k].info.state == StateName(s.state) && t[k].info.systemId == s.systemId))
  {
    hide Ordered;
    hide Truthful;
    hide Notices;
    HistoryHonest(h);
    var s := State(h);
    assert NodeTrue(u, s.nodes[u]);
    NoticeHolds(s.nodes[u].session, n);
    Routing.OneEntry(s.table, k, Routing.Find(s.table, u));
    assert |StateName(BoundTrx)| == 9 && StateName(BoundTx)[6] == 'T' && StateName(BoundRx)[6] == 'R';
  }

  /** So a message that is served while such a receiver is listed is offered to somebody. */
  lemma ToldIsServed(h: History, u: Bytes, n: nat, k: nat, o: Origin)
    requires Lawful(h) && Possible(State(h), Notify(u, n)) && k < |State(h).table| && State(h).table[k].uuid == u
    requires ApprovedBinds(State(h).nodes[u].session.trace) in {[BIND_RECEIVER], [BIND_TRANSCEIVER]}
    requires Possible(State(h), Serve(o))
    ensures var t := Do(State(h), Notify(u, n));
            Possible(t, Serve(o)) && Do(t, Serve(o)).calls[o].stage.Offered?
  {
    hide Routing.Choose;
    ToldIsListed(h, u, n, k);
    var later := Later(h, Notify(u, n));
    assert State(later).table[k] in State(later).table;
    UnroutedExactly(later, o);
  }

  /** A message that has been offered can always be put to its target, and is then refused exactly when the target has
      ended; otherwise it is taken. */
  lemma RefusedExactly(h: History, o: Origin)
    requires Lawful(h) && o in State(h).calls && State(h).calls[o].stage.Offered?
    ensures Possible(State(h), Check(o))
    ensures var target := State(h).calls[o].stage.target;
            Do(State(h), Check(o)).calls[o].stage
            == if State(h).nodes[target].session.state == Unbound then Lost else Taken(target)
  {
    hide Step;
    HistoryHonest(h);
    CallsAreAccepted(h, o);
    assert OfferGood(State(h).nodes, State(h).calls[o].stage);
  }
}
