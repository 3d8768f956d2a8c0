/** The server's session table and what it decides from it: which receiver a routed message goes to, and which
    sessions a DisconnectAll reaches. The table is an ordered map, so it is kept as entries in uuid order. */
module Routing {
  import opened Pdu

  datatype SessionInfo = SessionInfo(clientIp: string, systemId: Bytes, state: string)
  datatype Entry = Entry(uuid: Bytes, info: SessionInfo)

  // ---------------------------------------------------------------- uuid order

  predicate Less(a: Bytes, b: Bytes) {
    b != [] && (a == [] || a[0] < b[0] || (a[0] == b[0] && Less(a[1..], b[1..])))
  }

  lemma {:induction false} LessTotal(a: Bytes, b: Bytes)
    ensures Less(a, b) || a == b || Less(b, a)
    ensures !(Less(a, b) && Less(b, a)) && !Less(a, a)
  {
    if a != [] && b != [] {
      LessTotal(a[1..], b[1..]);
      LessTotal(a[1..], a[1..]);
      assert a == [a[0]] + a[1..] && b == [b[0]] + b[1..];
    } else if a != [] {
      LessTotal(a[1..], a[1..]);
    }
  }

  lemma {:induction false} LessTrans(a: Bytes, b: Bytes, c: Bytes)
    requires Less(a, b) && Less(b, c)
    ensures Less(a, c)
  {
    if a != [] && a[0] == b[0] == c[0] {
      LessTrans(a[1..], b[1..], c[1..]);
    }
  }

  predicate InOrder(t: seq<Entry>) {
    forall i, j | 0 <= i < j < |t| :: Less(t[i].uuid, t[j].uuid)
  }

  /** An ordered table holds at most one entry for a uuid. */
  lemma OneEntry(t: seq<Entry>, j: nat, k: nat)
    requires InOrder(t) && j < |t| && k < |t| && t[j].uuid == t[k].uuid
    ensures j == k
  {
    LessTotal(t[j].uuid, t[k].uuid);
  }

  lemma {:induction false} DifferenceDecides(a: Bytes, b: Bytes, k: nat)
    requires k < |a| && k < |b| && a[..k] == b[..k] && a[k] < b[k]
    ensures Less(a, b)
    decreases k
  {
    if k != 0 {
      assert a[..k][0] == b[..k][0];
      assert a[1..][..k - 1] == a[..k][1..] && b[1..][..k - 1] == b[..k][1..];
      DifferenceDecides(a[1..], b[1..], k - 1);
    }
  }

  lemma {:induction false} PrefixFirst(a: Bytes, b: Bytes)
    requires a < b
    ensures Less(a, b)
  {
    if a != [] {
      PrefixFirst(a[1..], b[1..]);
    }
  }

  lemma {:induction false} LessDiffers(a: Bytes, b: Bytes) returns (k: nat)
    requires Less(a, b)
    ensures k <= |a| && k < |b| && a[..k] == b[..k] && (k == |a| || a[k] < b[k])
  {
    k := 0;
    if a != [] && a[0] == b[0] {
      k := LessDiffers(a[1..], b[1..]);
      k := k + 1;
      assert a[..k] == [a[0]] + a[1..][..k - 1] && b[..k] == [b[0]] + b[1..][..k - 1];
    }
  }

  /** The order is that of the first byte in which two uuids differ, and a proper prefix comes first. */
  lemma LessExactly(a: Bytes, b: Bytes)
    ensures Less(a, b) <==> a < b || exists k | 0 <= k < |a| && k < |b| :: a[..k] == b[..k] && a[k] < b[k]
  {
    hide Less;
    if Less(a, b) {
      var k := LessDiffers(a, b);
    }
    if a < b {
      PrefixFirst(a, b);
    }
    if k :| 0 <= k < |a| && k < |b| && a[..k] == b[..k] && a[k] < b[k] {
      DifferenceDecides(a, b, k);
    }
  }

  // ---------------------------------------------------------------- changing the table

  /** Assignment at a key. */
  function Put(t: seq<Entry>, uuid: Bytes, info: SessionInfo): seq<Entry> {
    if t == [] || Less(uuid, t[0].uuid) then [Entry(uuid, info)] + t
    else if t[0].uuid == uuid then [Entry(uuid, info)] + t[1..]
    else [t[0]] + Put(t[1..], uuid, info)
  }

  lemma {:induction false} PutEntries(t: seq<Entry>, uuid: Bytes, info: SessionInfo, e: Entry)
    requires InOrder(t)
    ensures e in Put(t, uuid, info) <==> e == Entry(uuid, info) || (e in t && e.uuid != uuid)
  {
    LessTotal(uuid, uuid);
    if t != [] {
      LessTotal(uuid, t[0].uuid);
      if Less(uuid, t[0].uuid) {
        forall k | 0 <= k < |t| ensures t[k].uuid != uuid {
          if k != 0 { LessTrans(uuid, t[0].uuid, t[k].uuid); }
        }
      } else if t[0].uuid == uuid {
        forall k | 1 <= k < |t| ensures t[k].uuid != uuid {
          LessTotal(t[0].uuid, t[k].uuid);
        }
        assert t == [t[0]] + t[1..];
      } else {
        PutEntries(t[1..], uuid, info, e);
        assert t == [t[0]] + t[1..];
      }
    }
  }

  /** Assignment keeps the order. */
  lemma {:induction false} PutInOrder(t: seq<Entry>, uuid: Bytes, info: SessionInfo)
    requires InOrder(t)
    ensures InOrder(Put(t, uuid, info))
  {
    if t != [] {
      LessTotal(uuid, t[0].uuid);
      var p := Put(t, uuid, info);
      if Less(uuid, t[0].uuid) {
        forall k | 0 <= k < |t| ensures Less(uuid, t[k].uuid) {
          if k != 0 { LessTrans(uuid, t[0].uuid, t[k].uuid); }
        }
      } else if t[0].uuid != uuid {
        PutInOrder(t[1..], uuid, info);
        var q := Put(t[1..], uuid, info);
        forall k | 0 <= k < |q| ensures Less(t[0].uuid, q[k].uuid) {
          PutEntries(t[1..], uuid, info, q[k]);
          assert q[k] in q;
          if q[k] in t[1..] {
            var i :| 0 <= i < |t[1..]| && t[1..][i] == q[k];
            assert t[i + 1] == q[k];
          }
        }
      }
    }
  }

  function Find(t: seq<Entry>, uuid: Bytes): (k: nat)
    ensures k <= |t| && (k < |t| ==> t[k].uuid == uuid)
    ensures forall i | 0 <= i < k :: t[i].uuid != uuid
  {
    if t == [] || t[0].uuid == uuid then 0
    else
      var k := Find(t[1..], uuid);
      assert forall i | 1 <= i < k + 1 :: t[i] == t[1..][i - 1];
      k + 1
  }

  /** An update keeps the order. */
  lemma UpdateInOrder(t: seq<Entry>, uuid: Bytes, systemId: Bytes, state: string)
    requires InOrder(t)
    ensures InOrder(Update(t, uuid, systemId, state))
  {
  }

  /** Only a session the table knows is updated, and only in its system id and state. */
  function Update(t: seq<Entry>, uuid: Bytes, systemId: Bytes, state: string): seq<Entry> {
    var k := Find(t, uuid);
    if k < |t| then t[k := Entry(uuid, SessionInfo(t[k].info.clientIp, systemId, state))] else t
  }

  /** An update changes the system id and state of its own session, never its IP, and no other entry. */
  lemma UpdateExactly(t: seq<Entry>, uuid: Bytes, systemId: Bytes, state: string, e: Entry)
    requires InOrder(t)
    ensures e in Update(t, uuid, systemId, state) <==>
            if e.uuid != uuid then e in t
            else exists k | 0 <= k < |t| ::
                   t[k].uuid == uuid && e == Entry(uuid, SessionInfo(t[k].info.clientIp, systemId, state))
  {
    var k, p := Find(t, uuid), Update(t, uuid, systemId, state);
    if k < |t| {
      forall j | 0 <= j < |t| && t[j].uuid == uuid ensures j == k {
        OneEntry(t, j, k);
      }
      assert p[k] in p;
      if e in t && e.uuid != uuid {
        var j :| 0 <= j < |t| && t[j] == e;
        assert p[j] == e;
      }
    }
  }

  // ---------------------------------------------------------------- choosing a receiver

  predicate IsReceiver(e: Entry) { e.info.state == "BOUND_RX" || e.info.state == "BOUND_TRX" }

  datatype Target = NoTarget | To(uuid: Bytes)

  /** The uuid to call DeliverSm on. An empty uuid is taken for "none found". */
  function Choose(t: seq<Entry>): Target {
    if t == [] then NoTarget
    else if IsReceiver(t[0]) then if t[0].uuid == [] then NoTarget else To(t[0].uuid)
    else Choose(t[1..])
  }

  /** The names of the states in which a session receives. */
  const RECEIVER_STATES := {"BOUND_RX", "BOUND_TRX"}

  /** A chosen target is a receiver, and no receiver has a smaller uuid. */
  lemma {:induction false} ChosenIsFirst(t: seq<Entry>)
    requires InOrder(t) && Choose(t).To?
    ensures exists k | 0 <= k < |t| ::
              && t[k].uuid == Choose(t).uuid && t[k].info.state in RECEIVER_STATES
              && forall j | 0 <= j < |t| && t[j].info.state in RECEIVER_STATES ::
                   j == k || Less(t[k].uuid, t[j].uuid)
  {
    if IsReceiver(t[0]) {
      assert t[0].uuid == Choose(t).uuid;
    } else {
      ChosenIsFirst(t[1..]);
      var k :| 0 <= k < |t[1..]| && t[1..][k].uuid == Choose(t).uuid && t[1..][k].info.state in RECEIVER_STATES
        && forall j | 0 <= j < |t[1..]| && t[1..][j].info.state in RECEIVER_STATES ::
             j == k || Less(t[1..][k].uuid, t[1..][j].uuid);
      forall j | 0 <= j < |t| && t[j].info.state in RECEIVER_STATES
        ensures j == k + 1 || Less(t[k + 1].uuid, t[j].uuid)
      {
        assert t[j] == t[1..][j - 1];
      }
      assert t[k + 1].uuid == Choose(t).uuid;
    }
  }

  /** A message is sent to somebody exactly when there is a receiver and none has the empty uuid, which sorts
      first and is read as "none found". */
  lemma {:induction false} ChoosesExactly(t: seq<Entry>)
    requires InOrder(t)
    ensures Choose(t).To? <==>
            && (exists e | e in t :: e.info.state in RECEIVER_STATES)
            && !(exists e | e in t :: e.info.state in RECEIVER_STATES && e.uuid == [])
  {
    if t != [] {
      assert t == [t[0]] + t[1..];
      assert t[0] in t;
      ChoosesExactly(t[1..]);
      if IsReceiver(t[0]) {
        forall e | e in t && e.uuid == [] ensures e == t[0] {
          var k :| 0 <= k < |t| && t[k] == e;
          assert k == 0;
        }
      } else {
        forall e | e in t && e.info.state in RECEIVER_STATES ensures e in t[1..] {}
      }
    }
  }

  /** A receiver with the empty uuid hides itself and every other. */
  lemma EmptyUuidExample()
    ensures var rx := SessionInfo("10.0.0.1", [65], "BOUND_RX");
            InOrder([Entry([], rx), Entry([1], rx)]) && Choose([Entry([], rx), Entry([1], rx)]) == NoTarget
  {
  }

  // ---------------------------------------------------------------- disconnecting an IP

  function Targets(t: seq<Entry>, ip: string): seq<Bytes> {
    if t == [] then []
    else
      var rest := Targets(t[..|t| - 1], ip);
      var last := t[|t| - 1];
      if last.info.clientIp == ip then rest + [last.uuid] else rest
  }

  /** DisconnectAll reaches every session of the IP, each once, and no other. */
  lemma {:induction false} TargetsExactly(t: seq<Entry>, ip: string, u: Bytes)
    requires InOrder(t)
    ensures multiset(Targets(t, ip))[u] == if exists e | e in t :: e.uuid == u && e.info.clientIp == ip then 1 else 0
  {
    if t != [] {
      var init, last := t[..|t| - 1], t[|t| - 1];
      assert t == init + [last];
      TargetsExactly(init, ip, u);
      forall e | e in init && e.uuid == last.uuid ensures false {
        var k :| 0 <= k < |init| && init[k] == e;
        OneEntry(t, k, |t| - 1);
      }
    }
  }
}

/** The server object. */
module ServerObject {
  import opened Pdu
  import opened Wrappers
  import opened Registry
  import opened RegistryObject
  import opened Routing

  class SmppServerService {
    const registry: ConnectionRegistry
    var sessions: seq<Entry>
    /** The SessionStarted signals emitted: uuid and client IP. */
    var started: seq<(Bytes, string)>

    constructor (registry: ConnectionRegistry)
      ensures this.registry == registry && sessions == [] && started == [] && InOrder(sessions)
    {
      this.registry, sessions, started := registry, [], [];
    }

    /** A session enters the table, and its start is signalled, exactly when the registry takes its socket. */
    method RegisterSession(uuid: Bytes, fd: int, clientIp: string)
      requires InOrder(sessions)
      modifies this, registry
      ensures InOrder(sessions)
      ensures var r := Registry.Add(old(registry.Fields()), uuid, fd, clientIp);
              && registry.Fields() == r.0
              && sessions == (if r.1 then Put(old(sessions), uuid, SessionInfo(clientIp, [], "OPEN"))
                              else old(sessions))
              && started == if r.1 then old(started) + [(uuid, clientIp)] else old(started)
    {
      var ok := registry.Add(uuid, fd, clientIp);
      if !ok { return; }
      PutInOrder(sessions, uuid, SessionInfo(clientIp, [], "OPEN"));
      sessions := Put(sessions, uuid, SessionInfo(clientIp, [], "OPEN"));
      started := started + [(uuid, clientIp)];
    }

    /** None stands for the error thrown on an unknown uuid. */
    method GetSocket(uuid: Bytes) returns (fd: Option<int>)
      modifies registry
      ensures (registry.Fields(), fd) == Claim(old(registry.Fields()), uuid)
    {
      fd := registry.ClaimFd(uuid);
    }

    method UpdateSessionDetails(uuid: Bytes, systemId: Bytes, state: string)
      requires InOrder(sessions)
      modifies this
      ensures sessions == Update(old(sessions), uuid, systemId, state) && InOrder(sessions)
      ensures started == old(started)
    {
      var k := Find(sessions, uuid);
      if k < |sessions| {
        sessions := sessions[k := Entry(uuid, SessionInfo(sessions[k].info.clientIp, systemId, state))];
      }
    }

    /** The uuid RouteMessage will call, by one pass over the table. */
    method FindReceiver() returns (target: Target)
      ensures target == Choose(sessions)
      ensures forall k | 0 <= k < |sessions| && sessions[k].info.state in RECEIVER_STATES
                && (forall j | 0 <= j < k :: sessions[j].info.state !in RECEIVER_STATES) ::
                target == if sessions[k].uuid == [] then NoTarget else To(sessions[k].uuid)
      ensures (forall k | 0 <= k < |sessions| :: sessions[k].info.state !in RECEIVER_STATES) ==> target == NoTarget
    {
      var targetUuid: Bytes := [];
      for i := 0 to |sessions|
        invariant forall j | 0 <= j < i :: sessions[j].info.state !in RECEIVER_STATES
        invariant Choose(sessions) == Choose(sessions[i..])
        invariant targetUuid == []
      {
        if sessions[i].info.state == "BOUND_RX" || sessions[i].info.state == "BOUND_TRX" {
          targetUuid := sessions[i].uuid;
          return if targetUuid == [] then NoTarget else To(targetUuid);
        }
        assert sessions[i..][1..] == sessions[i + 1..];
      }
      return NoTarget;
    }

    method DisconnectTargets(ip: string) returns (targets: seq<Bytes>)
      ensures targets == Targets(sessions, ip)
    {
      targets := [];
      for i := 0 to |sessions|
        invariant targets == Targets(sessions[..i], ip)
      {
        assert sessions[..i + 1][..i] == sessions[..i];
        if sessions[i].info.clientIp == ip {
          targets := targets + [sessions[i].uuid];
        }
      }
      assert sessions[..|sessions|] == sessions;
    }
  }
}
