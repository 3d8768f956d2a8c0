/** Messages across processes: every session, the server's routing table and the D-Bus calls between them.

    A session that accepts a message calls RouteMessage; the server picks a receiver and calls its DeliverSm;
    the receiver checks its state and sends a DELIVER_SM. The server learns of a session when it registers it and of
    its state from the session's own notices, which may arrive late, more than once or never. Any call may fail on
    its way. */
module Conservation {
  import opened Pdu
  import opened Session
  import opened SessionSubmits
  import opened SessionSequences
  import SessionAnswers
  import Routing

  /** Where a RouteMessage call has got to. */
  datatype Stage = Calling | Offered(target: Bytes) | Taken(target: Bytes) | Lost
  datatype Call = Call(message: Message, stage: Stage)

  datatype Node = Node(config: Config, session: Session)

  datatype System = System(
    nodes: map<Bytes, Node>,
    table: seq<Routing.Entry>,
    calls: map<Origin, Call>)

  datatype Move =
    | Launch(uuid: Bytes, config: Config, now: real)
    | Local(uuid: Bytes, event: Event)
    | Register(uuid: Bytes, ip: string)
    | Notify(uuid: Bytes, n: nat)
    | Serve(origin: Origin)
    | Fail(origin: Origin)
    | Check(origin: Origin)
    | Send(uuid: Bytes, k: nat)

  /** The D-Bus call that a session's step has just made, if it made one. */
  function Announce(calls: map<Origin, Call>, uuid: Bytes, before: Session, after: Session): map<Origin, Call> {
    var n := |Routes(before.trace)|;
    if n < |Routes(after.trace)| then
      var r := Routes(after.trace)[n];
      calls[Origin(uuid, n) := Call(Message(r.src, r.dst, r.msg, Origin(uuid, n)), Calling)]
    else calls
  }

  predicate Possible(s: System, m: Move) {
    match m
    case Launch(u, c, _) => u !in s.nodes && c.uuid == u && u != [] && NulFree(u)
    case Local(u, e) => u in s.nodes && !e.DeliverCheck? && !e.DeliverSend? && Enabled(s.nodes[u].session, e)
    case Register(_, _) => true
    case Notify(u, n) => u in s.nodes && n < |SessionAnswers.Notices(s.nodes[u].session.trace)|
    case Serve(o) => o in s.calls && s.calls[o].stage.Calling?
    case Fail(o) => o in s.calls && (s.calls[o].stage.Calling? || s.calls[o].stage.Offered?)
    case Check(o) =>
      && o in s.calls && s.calls[o].stage.Offered? && s.calls[o].stage.target in s.nodes
      && FitsPdu(s.calls[o].message.src, s.calls[o].message.dst, s.calls[o].message.msg)
    case Send(u, k) => u in s.nodes && k < |s.nodes[u].session.inFlight|
  }

  function Stepped(n: Node, e: Event): Node
    requires Enabled(n.session, e)
  {
    n.(session := Step(n.config, n.session, e))
  }

  function Moved(s: System, o: Origin, stage: Stage): System
    requires o in s.calls
  {
    s.(calls := s.calls[o := s.calls[o].(stage := stage)])
  }

  function Do(s: System, m: Move): System
    requires Possible(s, m)
  {
    match m
    case Launch(u, c, now) => s.(nodes := s.nodes[u := Node(c, Started(c, now))])
    case Local(u, e) =>
      var n := Stepped(s.nodes[u], e);
      s.(nodes := s.nodes[u := n], calls := Announce(s.calls, u, s.nodes[u].session, n.session))
    case Register(u, ip) => s.(table := Routing.Put(s.table, u, Routing.SessionInfo(ip, [], StateName(Open))))
    case Notify(u, n) =>
      var notice := SessionAnswers.Notices(s.nodes[u].session.trace)[n];
      s.(table := Routing.Update(s.table, u, notice.systemId, StateName(notice.shown)))
    case Serve(o) =>
      var target := Routing.Choose(s.table);
      Moved(s, o, if target.To? then Offered(target.uuid) else Lost)
    case Fail(o) => Moved(s, o, Lost)
    case Check(o) =>
      var u := s.calls[o].stage.target;
      var taken := Receiving(s.nodes[u].session.state);
      Moved(s.(nodes := s.nodes[u := Stepped(s.nodes[u], DeliverCheck(s.calls[o].message))]), o,
            if taken then Taken(u) else Lost)
    case Send(u, k) => s.(nodes := s.nodes[u := Stepped(s.nodes[u], DeliverSend(k))])
  }

  // ---------------------------------------------------------------- the invariant

  predicate NodeFine(u: Bytes, n: Node) {
    n.config.uuid == u && NulFree(u) && Accounted(n.config, n.session) && Numbered(n.session)
  }

  /** The calls of a session are its routes, each with the message routed. */
  predicate CallsMatch(calls: map<Origin, Call>, u: Bytes, rs: seq<Route>) {
    forall n: nat | n < |rs| ::
      && Origin(u, n) in calls
      && calls[Origin(u, n)].message == Message(rs[n].src, rs[n].dst, rs[n].msg, Origin(u, n))
  }

  /** A delivery a session has under way or done is a call it took, with the message unchanged. */
  predicate Took(calls: map<Origin, Call>, u: Bytes, m: Message) {
    m.origin in calls && calls[m.origin] == Call(m, Taken(u))
  }

  predicate DeliveriesTaken(calls: map<Origin, Call>, u: Bytes, s: Session) {
    && (forall k | 0 <= k < |s.inFlight| :: Took(calls, u, s.inFlight[k].call))
    && (forall k | 0 <= k < |Deliveries(s.trace)| :: Took(calls, u, Deliveries(s.trace)[k].call))
  }

  /** No call is under way or done twice. */
  predicate DeliveriesOnce(s: Session) {
    var q, d := s.inFlight, Deliveries(s.trace);
    && (forall i, j | 0 <= i < j < |q| :: q[i].call.origin != q[j].call.origin)
    && (forall i, j | 0 <= i < j < |d| :: d[i].call.origin != d[j].call.origin)
    && (forall i, j | 0 <= i < |q| && 0 <= j < |d| :: q[i].call.origin != d[j].call.origin)
  }

  predicate NodeSound(calls: map<Origin, Call>, u: Bytes, n: Node) {
    && NodeFine(u, n)
    && CallsMatch(calls, u, Routes(n.session.trace))
    && DeliveriesTaken(calls, u, n.session)
    && DeliveriesOnce(n.session)
  }

  ghost predicate Sound(s: System) {
    && (forall u | u in s.nodes :: NodeSound(s.calls, u, s.nodes[u]))
    && (forall o | o in s.calls :: o.from in s.nodes && o.nth < |Routes(s.nodes[o.from].session.trace)|)
  }

  // ---------------------------------------------------------------- each move keeps it

  /** Calls are never forgotten, their messages never change, and a call once taken stays taken. */
  predicate Extends(calls: map<Origin, Call>, later: map<Origin, Call>) {
    forall o | o in calls ::
      && o in later && later[o].message == calls[o].message
      && (calls[o].stage.Taken? ==> later[o] == calls[o])
  }

  lemma NodeFrame(calls: map<Origin, Call>, later: map<Origin, Call>, u: Bytes, n: Node)
    requires NodeSound(calls, u, n) && Extends(calls, later)
    ensures NodeSound(later, u, n)
  {
    hide NodeFine;
    hide Routes;
    hide Deliveries;
  }

  lemma NewNodeSound(calls: map<Origin, Call>, u: Bytes, c: Config, now: real)
    requires c.uuid == u && NulFree(u)
    ensures NodeSound(calls, u, Node(c, Started(c, now)))
  {
  }

  /** A step of the session itself adds at most the call it announces, and touches no delivery. */
  lemma LocalNodeSound(calls: map<Origin, Call>, u: Bytes, n: Node, e: Event)
    requires NodeSound(calls, u, n) && Enabled(n.session, e) && !e.DeliverCheck? && !e.DeliverSend?
    requires Origin(u, |Routes(n.session.trace)|) !in calls
    ensures var after := Stepped(n, e);
            var later := Announce(calls, u, n.session, after.session);
            && NodeSound(later, u, after) && Extends(calls, later)
            && Routes(n.session.trace) <= Routes(after.session.trace)
            && (forall o | o in later && o !in calls :: o.from == u && o.nth < |Routes(after.session.trace)|)
  {
    hide Step;
    hide Enabled;
    hide Accounted;
    hide Numbered;
    hide Routes;
    hide Deliveries;
    StepAccounted(n.config, n.session, e);
    StepNumbered(n.config, n.session, e);
  }

  lemma LocalSound(s: System, u: Bytes, e: Event)
    requires Sound(s) && Possible(s, Local(u, e))
    ensures Sound(Do(s, Local(u, e)))
  {
    hide Step;
    hide Enabled;
    hide NodeSound;
    hide Routes;
    hide Announce;
    var t := Do(s, Local(u, e));
    assert NodeSound(s.calls, u, s.nodes[u]);
    LocalNodeSound(s.calls, u, s.nodes[u], e);
    forall w | w in t.nodes && w != u ensures NodeSound(t.calls, w, t.nodes[w]) {
      NodeFrame(s.calls, t.calls, w, s.nodes[w]);
    }
  }

  lemma LaunchSound(s: System, u: Bytes, c: Config, now: real)
    requires Sound(s) && Possible(s, Launch(u, c, now))
    ensures Sound(Do(s, Launch(u, c, now)))
  {
    hide NodeSound;
    hide Started;
    NewNodeSound(s.calls, u, c, now);
  }

  /** Changing the stage of a call that nobody has taken disturbs no delivery. */
  lemma MovedSound(s: System, o: Origin, stage: Stage)
    requires Sound(s) && o in s.calls && !s.calls[o].stage.Taken?
    ensures Sound(Moved(s, o, stage))
  {
    hide NodeSound;
    var t := Moved(s, o, stage);
    forall w | w in t.nodes ensures NodeSound(t.calls, w, t.nodes[w]) {
      NodeFrame(s.calls, t.calls, w, s.nodes[w]);
    }
  }

  /** A call that nobody has taken is neither under way nor done anywhere. */
  lemma Untaken(calls: map<Origin, Call>, u: Bytes, n: Node, o: Origin)
    requires NodeSound(calls, u, n) && o in calls && !calls[o].stage.Taken?
    ensures forall k | 0 <= k < |n.session.inFlight| :: n.session.inFlight[k].call.origin != o
    ensures forall k | 0 <= k < |Deliveries(n.session.trace)| :: Deliveries(n.session.trace)[k].call.origin != o
  {
    hide NodeFine;
    hide Routes;
    hide Deliveries;
  }

  /** The receiver's check: the call is taken when the session may receive, and is lost otherwise. */
  lemma CheckNodeSound(calls: map<Origin, Call>, u: Bytes, n: Node, o: Origin)
    requires NodeSound(calls, u, n) && o in calls && calls[o].stage == Offered(u) && calls[o].message.origin == o
    requires FitsPdu(calls[o].message.src, calls[o].message.dst, calls[o].message.msg)
    ensures var after := Stepped(n, DeliverCheck(calls[o].message));
            var stage := if Receiving(n.session.state) then Taken(u) else Lost;
            && NodeSound(calls[o := calls[o].(stage := stage)], u, after)
            && Routes(after.session.trace) == Routes(n.session.trace)
  {
    hide Accounted;
    hide Numbered;
    hide Routes;
    hide Deliveries;
    var e: Event := DeliverCheck(calls[o].message);
    StepAccounted(n.config, n.session, e);
    StepNumbered(n.config, n.session, e);
    Untaken(calls, u, n, o);
  }

  /** Sending moves one delivery from under way to done, and no other. */
  lemma SendMoves(n: Session, k: nat)
    requires k < |n.inFlight|
    ensures var t := SendDelivery(n, k);
            && (forall j | 0 <= j < |t.inFlight| :: t.inFlight[j] == n.inFlight[if j < k then j else j + 1])
            && |t.inFlight| == |n.inFlight| - 1
            && |Deliveries(t.trace)| == |Deliveries(n.trace)| + 1
            && (forall j | 0 <= j < |Deliveries(n.trace)| :: Deliveries(t.trace)[j] == Deliveries(n.trace)[j])
            && Deliveries(t.trace)[|Deliveries(n.trace)|].call == n.inFlight[k].call
            && Routes(t.trace) == Routes(n.trace)
  {
    hide Deliver;
  }

  lemma SendNodeSound(calls: map<Origin, Call>, u: Bytes, n: Node, k: nat)
    requires NodeSound(calls, u, n) && k < |n.session.inFlight|
    ensures var after := Stepped(n, DeliverSend(k));
            NodeSound(calls, u, after) && Routes(after.session.trace) == Routes(n.session.trace)
  {
    hide Accounted;
    hide Numbered;
    hide Deliveries;
    hide Routes;
    hide SendDelivery;
    StepAccounted(n.config, n.session, DeliverSend(k));
    StepNumbered(n.config, n.session, DeliverSend(k));
    SendMoves(n.session, k);
  }

  lemma MoveSound(s: System, m: Move)
    requires Sound(s) && Possible(s, m)
    ensures Sound(Do(s, m))
  {
    hide NodeSound;
    hide Step;
    hide Enabled;
    hide Started;
    hide Routes;
    match m
    case Launch(u, c, now) => LaunchSound(s, u, c, now);
    case Local(u, e) => LocalSound(s, u, e);
    case Register(_, _) =>
    case Notify(_, _) =>
    case Serve(o) =>
      var target := Routing.Choose(s.table);
      MovedSound(s, o, if target.To? then Offered(target.uuid) else Lost);
    case Fail(o) => MovedSound(s, o, Lost);
    case Check(o) => CheckSound(s, o);
    case Send(u, k) => SendSound(s, u, k);
  }

  lemma CheckSound(s: System, o: Origin)
    requires Sound(s) && Possible(s, Check(o))
    ensures Sound(Do(s, Check(o)))
  {
    hide NodeSound;
    hide Step;
    hide Routes;
    var u, t := s.calls[o].stage.target, Do(s, Check(o));
    assert NodeSound(s.calls, u, s.nodes[u]);
    OriginKept(s, o);
    CheckNodeSound(s.calls, u, s.nodes[u], o);
    forall w | w in t.nodes && w != u ensures NodeSound(t.calls, w, t.nodes[w]) {
      NodeFrame(s.calls, t.calls, w, s.nodes[w]);
    }
  }

  lemma OriginKept(s: System, o: Origin)
    requires Sound(s) && o in s.calls
    ensures s.calls[o].message.origin == o
  {
    hide NodeFine;
    assert NodeSound(s.calls, o.from, s.nodes[o.from]);
    assert Origin(o.from, o.nth) == o;
  }

  lemma SendSound(s: System, u: Bytes, k: nat)
    requires Sound(s) && Possible(s, Send(u, k))
    ensures Sound(Do(s, Send(u, k)))
  {
    hide NodeSound;
    hide Step;
    hide Routes;
    assert NodeSound(s.calls, u, s.nodes[u]);
    SendNodeSound(s.calls, u, s.nodes[u], k);
  }

  // ---------------------------------------------------------------- over whole histories

  /** Moves so far, oldest innermost. */
  datatype History = Boot | Later(before: History, move: Move)

  predicate Lawful(h: History)
    decreases h, 0
  {
    match h
    case Boot => true
    case Later(b, m) => Lawful(b) && Possible(State(b), m)
  }

  function State(h: History): System
    requires Lawful(h)
    decreases h, 1
  {
    match h
    case Boot => System(map[], [], map[])
    case Later(b, m) => Do(State(b), m)
  }

  lemma {:induction false} HistorySound(h: History)
    requires Lawful(h)
    ensures Sound(State(h))
  {
    if h.Later? {
      HistorySound(h.before);
      MoveSound(State(h.before), h.move);
    }
  }

  // ---------------------------------------------------------------- nothing taken is dropped

  /** The session has the delivery of a call under way or done. */
  predicate Keeps(s: Session, o: Origin) {
    || (exists k | 0 <= k < |s.inFlight| :: s.inFlight[k].call.origin == o)
    || (exists k | 0 <= k < |Deliveries(s.trace)| :: Deliveries(s.trace)[k].call.origin == o)
  }

  predicate KeptIn(nodes: map<Bytes, Node>, o: Origin, stage: Stage) {
    stage.Taken? ==> stage.target in nodes && Keeps(nodes[stage.target].session, o)
  }

  ghost predicate Kept(s: System) {
    forall o | o in s.calls :: KeptIn(s.nodes, o, s.calls[o].stage)
  }

  lemma LocalKeeps(n: Node, e: Event, o: Origin)
    requires Numbered(n.session) && Enabled(n.session, e) && !e.DeliverCheck? && !e.DeliverSend?
    requires Keeps(n.session, o)
    ensures Keeps(Stepped(n, e).session, o)
  {
    hide Step;
    hide Enabled;
    hide Numbered;
    hide Deliveries;
    StepNumbered(n.config, n.session, e);
  }

  lemma CheckKeeps(n: Node, call: Delivery, o: Origin)
    requires Keeps(n.session, o) || (o == call.origin && Receiving(n.session.state))
    ensures Keeps(Stepped(n, DeliverCheck(call)).session, o)
  {
    hide Deliveries;
    var t := Stepped(n, DeliverCheck(call)).session;
    if Receiving(n.session.state) {
      assert t.inFlight[|n.session.inFlight|].call == call;
      assert forall k | 0 <= k < |n.session.inFlight| :: t.inFlight[k] == n.session.inFlight[k];
    }
  }

  lemma SendKeeps(n: Node, k: nat, o: Origin)
    requires k < |n.session.inFlight| && Keeps(n.session, o)
    ensures Keeps(Stepped(n, DeliverSend(k)).session, o)
  {
    hide Deliveries;
    hide SendDelivery;
    var s, t := n.session, Stepped(n, DeliverSend(k)).session;
    SendMoves(s, k);
    if j :| 0 <= j < |s.inFlight| && s.inFlight[j].call.origin == o {
      if j == k {
        assert Deliveries(t.trace)[|Deliveries(s.trace)|].call.origin == o;
      } else {
        assert t.inFlight[if j < k then j else j - 1] == s.inFlight[j];
      }
    } else {
      var j :| 0 <= j < |Deliveries(s.trace)| && Deliveries(s.trace)[j].call.origin == o;
      assert Deliveries(t.trace)[j].call.origin == o;
    }
  }

  /** A step of one session, whatever it is, keeps what that session has taken. */
  lemma NodeKept(s: System, u: Bytes, n: Node)
    requires Kept(s) && (u in s.nodes ==> forall o | Keeps(s.nodes[u].session, o) :: Keeps(n.session, o))
    ensures Kept(s.(nodes := s.nodes[u := n]))
  {
    hide Keeps;
    forall o | o in s.calls ensures KeptIn(s.nodes[u := n], o, s.calls[o].stage) {
      assert KeptIn(s.nodes, o, s.calls[o].stage);
    }
  }

  lemma LocalKept(s: System, u: Bytes, e: Event)
    requires Sound(s) && Kept(s) && Possible(s, Local(u, e))
    ensures Kept(Do(s, Local(u, e)))
  {
    hide Accounted;
    hide Numbered;
    hide Step;
    hide Enabled;
    hide Keeps;
    hide Routes;
    assert NodeSound(s.calls, u, s.nodes[u]);
    var n := Stepped(s.nodes[u], e);
    forall o | Keeps(s.nodes[u].session, o) ensures Keeps(n.session, o) {
      LocalKeeps(s.nodes[u], e, o);
    }
    NodeKept(s, u, n);
  }

  lemma CheckKept(s: System, o: Origin)
    requires Sound(s) && Kept(s) && Possible(s, Check(o))
    ensures Kept(Do(s, Check(o)))
  {
    hide NodeSound;
    hide Step;
    hide Keeps;
    hide Routes;
    OriginKept(s, o);
    var u, call := s.calls[o].stage.target, s.calls[o].message;
    var n := Stepped(s.nodes[u], DeliverCheck(call));
    forall o' | Keeps(s.nodes[u].session, o') ensures Keeps(n.session, o') {
      CheckKeeps(s.nodes[u], call, o');
    }
    if Receiving(s.nodes[u].session.state) {
      CheckKeeps(s.nodes[u], call, o);
    }
    NodeKept(s, u, n);
  }

  lemma SendKept(s: System, u: Bytes, k: nat)
    requires Kept(s) && Possible(s, Send(u, k))
    ensures Kept(Do(s, Send(u, k)))
  {
    hide Step;
    hide Keeps;
    var n := Stepped(s.nodes[u], DeliverSend(k));
    forall o | Keeps(s.nodes[u].session, o) ensures Keeps(n.session, o) {
      SendKeeps(s.nodes[u], k, o);
    }
    NodeKept(s, u, n);
  }

  lemma MoveKept(s: System, m: Move)
    requires Sound(s) && Kept(s) && Possible(s, m)
    ensures Kept(Do(s, m))
  {
    hide NodeSound;
    hide Step;
    hide Enabled;
    hide Keeps;
    hide Routes;
    match m
    case Launch(u, c, now) => NodeKept(s, u, Node(c, Started(c, now)));
    case Local(u, e) => LocalKept(s, u, e);
    case Check(o) => CheckKept(s, o);
    case Send(u, k) => SendKept(s, u, k);
    case _ =>
  }

  lemma {:induction false} HistoryKept(h: History)
    requires Lawful(h)
    ensures Kept(State(h))
  {
    hide Do;
    hide Possible;
    hide Sound;
    hide Kept;
    if h.Later? {
      HistorySound(h.before);
      HistoryKept(h.before);
      MoveKept(State(h.before), h.move);
    } else {
      NoneKept();
    }
  }

  lemma NoneKept()
    ensures Kept(State(Boot))
  {
  }

  /** In every history a message is taken by a session exactly when that session has its delivery under way or done: it
      is neither dropped nor taken twice. */
  lemma TakenExactly(h: History, o: Origin, u: Bytes)
    requires Lawful(h)
    ensures (o in State(h).calls && State(h).calls[o].stage == Taken(u))
            <==> (u in State(h).nodes && Keeps(State(h).nodes[u].session, o))
    ensures u in State(h).nodes ==> DeliveriesOnce(State(h).nodes[u].session)
  {
    hide Do;
    hide Possible;
    hide NodeFine;
    hide Deliveries;
    hide Routes;
    HistorySound(h);
    HistoryKept(h);
    var s := State(h);
    if o in s.calls {
      assert KeptIn(s.nodes, o, s.calls[o].stage);
    }
    if u in s.nodes {
      assert NodeSound(s.calls, u, s.nodes[u]);
    }
  }

  /** Every DELIVER_SM any session sends (those are exactly its deliveries) stems from one SUBMIT_SM that another (or
      the same) session answered ESME_ROK, and carries what that request asked for; parsed again it gives the same
      addresses and message exactly when `Survives` holds of them. */
  lemma DeliveredWasSubmitted(h: History, u: Bytes, k: nat)
    requires Lawful(h) && u in State(h).nodes && k < |Deliveries(State(h).nodes[u].session.trace)|
    ensures var d := Deliveries(State(h).nodes[u].session.trace)[k];
            var o := d.call.origin;
            && IdsFit(State(h).nodes[u].session.trace) && d.pdu.header.id == DELIVER_SM
            && o.from in State(h).nodes
            && var t := State(h).nodes[o.from].session.trace;
               && o.nth < |AcceptedRequests(t)| && AcceptedRequests(t)[o.nth].header.id == SUBMIT_SM
               && var sm := ParseSubmitSm(AcceptedRequests(t)[o.nth].body);
                  var back := ParseSubmitSm(d.pdu.body);
                  && (d.call.src, d.call.dst, d.call.msg) == (sm.source.addr, sm.dest.addr, sm.shortMessage)
                  && ((back.source.addr, back.dest.addr, back.shortMessage) == (d.call.src, d.call.dst, d.call.msg)
                      <==> Survives(d.call.src, d.call.dst, d.call.msg))
  {
    hide Step;
    hide Do;
    hide ParseSubmitSm;
    hide DeliverBody;
    HistorySound(h);
    var s := State(h);
    var n := s.nodes[u];
    assert NodeSound(s.calls, u, n);
    var d := Deliveries(n.session.trace)[k];
    var o := d.call.origin;
    assert Took(s.calls, u, d.call);
    var from := s.nodes[o.from];
    assert NodeSound(s.calls, o.from, from);
    assert Origin(o.from, o.nth) == o;
    assert d.pdu == DeliveryPdu(d.call, k);
    AcceptedAreSubmits(from.session.trace);
    RedeliveryExact(AcceptedRequests(from.session.trace)[o.nth].body);
  }

  /** No accepted message is delivered twice, by one session or by two. */
  lemma DeliveredAtMostOnce(h: History, u: Bytes, j: nat, w: Bytes, k: nat)
    requires Lawful(h) && u in State(h).nodes && w in State(h).nodes
    requires j < |Deliveries(State(h).nodes[u].session.trace)| && k < |Deliveries(State(h).nodes[w].session.trace)|
    requires Deliveries(State(h).nodes[u].session.trace)[j].call.origin
             == Deliveries(State(h).nodes[w].session.trace)[k].call.origin
    ensures u == w && j == k
  {
    hide Step;
    hide Do;
    hide NodeFine;
    hide Deliveries;
    HistorySound(h);
    var s := State(h);
    assert NodeSound(s.calls, u, s.nodes[u]) && NodeSound(s.calls, w, s.nodes[w]);
    assert Took(s.calls, u, Deliveries(s.nodes[u].session.trace)[j].call);
    assert Took(s.calls, w, Deliveries(s.nodes[w].session.trace)[k].call);
  }

  /** Only accepted messages are ever offered to a receiver, and every one of them fits a PDU, so the size limit of
      the deliver_sm builder is never in the way. */
  lemma CallsAreAccepted(h: History, o: Origin)
    requires Lawful(h) && o in State(h).calls
    ensures o.from in State(h).nodes && o.nth < |AcceptedRequests(State(h).nodes[o.from].session.trace)|
    ensures var m := State(h).calls[o].message; FitsPdu(m.src, m.dst, m.msg)
  {
    hide Step;
    hide Do;
    hide ParseSubmitSm;
    HistorySound(h);
    var s := State(h);
    var from := s.nodes[o.from];
    assert NodeSound(s.calls, o.from, from);
    assert Origin(o.from, o.nth) == o;
    ParsedSizes(AcceptedRequests(from.session.trace)[o.nth].body);
  }
}
