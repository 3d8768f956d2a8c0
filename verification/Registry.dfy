/** The connection registry: unclaimed sockets by session uuid, and a cached count of them for each IP. */
module Registry {
  import opened Pdu
  import opened Wrappers

  datatype SessionEntry = SessionEntry(fd: int, clientIp: string)

  /** The registry's fields. */
  datatype Table = Table(maxPerIp: nat, sessions: map<Bytes, SessionEntry>, ipCounts: map<string, nat>)

  function CountOf(t: Table, ip: string): nat {
    if ip in t.ipCounts then t.ipCounts[ip] else 0
  }

  /** The sessions that really come from an IP. */
  function From(sessions: map<Bytes, SessionEntry>, ip: string): set<Bytes> {
    set u | u in sessions && sessions[u].clientIp == ip
  }

  /** The cache agrees with the sessions. */
  ghost predicate Agrees(t: Table) {
    forall ip :: CountOf(t, ip) == |From(t.sessions, ip)|
  }

  // ---------------------------------------------------------------- operations

  /** A rejected connection still leaves a zero entry in the cache. */
  function Add(t: Table, uuid: Bytes, fd: int, ip: string): (Table, bool) {
    var n := CountOf(t, ip);
    if n >= t.maxPerIp then (t.(ipCounts := t.ipCounts[ip := n]), false)
    else (t.(sessions := t.sessions[uuid := SessionEntry(fd, ip)], ipCounts := t.ipCounts[ip := n + 1]), true)
  }

  /** Dropping an entry, with the guard that keeps the unsigned counter from wrapping. */
  function Drop(t: Table, uuid: Bytes): Table
    requires uuid in t.sessions
  {
    var ip := t.sessions[uuid].clientIp;
    var n := CountOf(t, ip);
    t.(sessions := t.sessions - {uuid}, ipCounts := t.ipCounts[ip := if n > 0 then n - 1 else n])
  }

  function Claim(t: Table, uuid: Bytes): (Table, Option<int>) {
    if uuid in t.sessions then (Drop(t, uuid), Some(t.sessions[uuid].fd)) else (t, None)
  }

  function Remove(t: Table, uuid: Bytes): Table {
    if uuid in t.sessions then Drop(t, uuid) else t
  }

  // ---------------------------------------------------------------- agreement, call by call

  /** Dropping keeps the cache right, and its guard never bites. */
  lemma DropAgrees(t: Table, uuid: Bytes)
    requires Agrees(t) && uuid in t.sessions
    ensures Agrees(Drop(t, uuid)) && CountOf(t, t.sessions[uuid].clientIp) > 0
    ensures forall ip :: CountOf(Drop(t, uuid), ip) <= CountOf(t, ip)
  {
    var ip := t.sessions[uuid].clientIp;
    assert uuid in From(t.sessions, ip);
    forall i ensures CountOf(Drop(t, uuid), i) == |From(Drop(t, uuid).sessions, i)| {
      if i == ip {
        assert From(Drop(t, uuid).sessions, i) == From(t.sessions, i) - {uuid};
      } else {
        assert From(Drop(t, uuid).sessions, i) == From(t.sessions, i);
      }
    }
  }

  lemma AddRejectedAgrees(t: Table, uuid: Bytes, fd: int, ip: string)
    requires Agrees(t) && CountOf(t, ip) >= t.maxPerIp
    ensures Agrees(Add(t, uuid, fd, ip).0)
  {
    var t' := Add(t, uuid, fd, ip).0;
    assert forall i :: CountOf(t', i) == CountOf(t, i);
  }

  lemma FromFresh(sessions: map<Bytes, SessionEntry>, uuid: Bytes, s: SessionEntry, ip: string)
    requires uuid !in sessions
    ensures uuid !in From(sessions, ip)
    ensures From(sessions[uuid := s], ip) == From(sessions, ip) + if s.clientIp == ip then {uuid} else {}
  {
  }

  lemma AddFreshAgrees(t: Table, uuid: Bytes, fd: int, ip: string)
    requires Agrees(t) && CountOf(t, ip) < t.maxPerIp && uuid !in t.sessions
    ensures Agrees(Add(t, uuid, fd, ip).0)
  {
    hide From;
    var t' := Add(t, uuid, fd, ip).0;
    forall i ensures CountOf(t', i) == |From(t'.sessions, i)| {
      FromFresh(t.sessions, uuid, SessionEntry(fd, ip), i);
    }
  }

  /** A reused uuid replaces an entry without taking it off any count. */
  lemma AddReusedDrifts(t: Table, uuid: Bytes, fd: int, ip: string)
    requires Agrees(t) && CountOf(t, ip) < t.maxPerIp && uuid in t.sessions
    ensures !Agrees(Add(t, uuid, fd, ip).0)
  {
    var t' := Add(t, uuid, fd, ip).0;
    var was := t.sessions[uuid].clientIp;
    assert uuid in From(t.sessions, was);
    if was == ip {
      assert From(t'.sessions, ip) == From(t.sessions, ip);
      assert CountOf(t', ip) != |From(t'.sessions, ip)|;
    } else {
      assert From(t'.sessions, was) == From(t.sessions, was) - {uuid};
      assert CountOf(t', was) != |From(t'.sessions, was)|;
    }
  }

  /** Adding keeps the cache right exactly when the connection is rejected or its uuid is new. */
  lemma AddAgreesExactly(t: Table, uuid: Bytes, fd: int, ip: string)
    requires Agrees(t)
    ensures Agrees(Add(t, uuid, fd, ip).0) <==> CountOf(t, ip) >= t.maxPerIp || uuid !in t.sessions
  {
    hide Add;
    hide Agrees;
    if CountOf(t, ip) >= t.maxPerIp {
      AddRejectedAgrees(t, uuid, fd, ip);
    } else if uuid !in t.sessions {
      AddFreshAgrees(t, uuid, fd, ip);
    } else {
      AddReusedDrifts(t, uuid, fd, ip);
    }
  }

  // ---------------------------------------------------------------- runs

  datatype Op =
    | DoAdd(uuid: Bytes, fd: int, ip: string)
    | DoClaim(uuid: Bytes)
    | DoRemove(uuid: Bytes)
    | DoSetMax(max: nat)

  /** Operations so far, oldest innermost. */
  datatype History = Fresh(maxPerIp: nat) | After(before: History, op: Op)

  function Result(h: History): Table {
    match h
    case Fresh(m) => Table(m, map[], map[])
    case After(b, DoAdd(u, fd, ip)) => Add(Result(b), u, fd, ip).0
    case After(b, DoClaim(u)) => Claim(Result(b), u).0
    case After(b, DoRemove(u)) => Remove(Result(b), u)
    case After(b, DoSetMax(m)) => Result(b).(maxPerIp := m)
  }

  /** The operation is a connection accepted under a uuid that is still held. */
  predicate Reuses(t: Table, op: Op) {
    op.DoAdd? && CountOf(t, op.ip) < t.maxPerIp && op.uuid in t.sessions
  }

  /** No operation so far was one. */
  predicate FreshUuids(h: History) {
    h.After? ==> FreshUuids(h.before) && !Reuses(Result(h.before), h.op)
  }

  /** The largest limit ever in force. */
  function LargestLimit(h: History): nat {
    match h
    case Fresh(m) => m
    case After(b, DoSetMax(m)) => if m > LargestLimit(b) then m else LargestLimit(b)
    case After(b, _) => LargestLimit(b)
  }

  /** No count ever falls below the real number of sessions. */
  ghost predicate Covers(t: Table) {
    forall ip :: CountOf(t, ip) >= |From(t.sessions, ip)|
  }

  /** How far the count of an IP is above the real number. */
  function Excess(t: Table, ip: string): int {
    CountOf(t, ip) - |From(t.sessions, ip)|
  }

  lemma DropExcess(t: Table, uuid: Bytes, ip: string)
    requires Covers(t) && uuid in t.sessions
    ensures Excess(Drop(t, uuid), ip) == Excess(t, ip)
  {
    var was, t' := t.sessions[uuid].clientIp, Drop(t, uuid);
    assert uuid in From(t.sessions, was);
    if ip == was {
      assert From(t'.sessions, ip) == From(t.sessions, ip) - {uuid};
      assert CountOf(t, ip) >= 1;
    } else {
      assert From(t'.sessions, ip) == From(t.sessions, ip);
    }
  }

  /** Adding raises the excess only under a uuid that is held, and never lowers it. */
  lemma AddExcess(t: Table, uuid: Bytes, fd: int, ip: string, i: string)
    ensures var (t', ok) := Add(t, uuid, fd, ip);
            && Excess(t', i) >= Excess(t, i)
            && (!ok || uuid !in t.sessions ==> Excess(t', i) == Excess(t, i))
            && (ok && uuid in t.sessions && i == t.sessions[uuid].clientIp ==> Excess(t', i) > Excess(t, i))
  {
    var (t', ok) := Add(t, uuid, fd, ip);
    if ok {
      if i == ip {
        assert From(t'.sessions, i) == From(t.sessions, i) + {uuid};
      } else {
        assert From(t'.sessions, i) == From(t.sessions, i) - {uuid};
      }
    }
  }

  /** Operation by operation, no excess ever falls. */
  lemma ExcessGrows(h: History, ip: string)
    requires h.After? && Covers(Result(h.before))
    ensures Excess(Result(h), ip) >= Excess(Result(h.before), ip)
  {
    hide Excess;
    hide Add;
    hide Drop;
    var t := Result(h.before);
    match h.op
    case DoAdd(u, fd, i) => AddExcess(t, u, fd, i, ip);
    case DoClaim(u) => if u in t.sessions { DropExcess(t, u, ip); }
    case DoRemove(u) => if u in t.sessions { DropExcess(t, u, ip); }
    case DoSetMax(m) => LimitExcess(t, m, ip);
  }

  lemma LimitExcess(t: Table, m: nat, ip: string)
    ensures Excess(t.(maxPerIp := m), ip) == Excess(t, ip)
  {
  }

  lemma {:induction false} AlwaysCovers(h: History)
    ensures Covers(Result(h))
  {
    if h.After? {
      AlwaysCovers(h.before);
      forall ip ensures CountOf(Result(h), ip) >= |From(Result(h).sessions, ip)| {
        ExcessGrows(h, ip);
        assert Excess(Result(h.before), ip) >= 0;
      }
    } else {
      forall ip ensures CountOf(Result(h), ip) >= |From(Result(h).sessions, ip)| {
        assert From(Result(h).sessions, ip) == {};
      }
    }
  }

  /** One step of the exact statement below. */
  lemma StepAgrees(h: History)
    requires h.After?
    ensures Agrees(Result(h)) <==> Agrees(Result(h.before)) && !Reuses(Result(h.before), h.op)
  {
    var t := Result(h.before);
    AlwaysCovers(h.before);
    AlwaysCovers(h);
    if Agrees(t) {
      match h.op
      case DoAdd(u, fd, ip) => AddAgreesExactly(t, u, fd, ip);
      case DoClaim(u) => if u in t.sessions { DropAgrees(t, u); }
      case DoRemove(u) => if u in t.sessions { DropAgrees(t, u); }
      case DoSetMax(m) => assert forall ip :: CountOf(Result(h), ip) == CountOf(t, ip);
    } else {
      var ip :| CountOf(t, ip) != |From(t.sessions, ip)|;
      ExcessGrows(h, ip);
      assert Excess(t, ip) > 0;
      assert CountOf(Result(h), ip) != |From(Result(h).sessions, ip)|;
    }
  }

  /** After any operations the counts agree with the sessions exactly when no accepted connection came under a uuid
      still held; whether or not they agree, no IP has more sessions than the largest limit ever in force. */
  lemma {:induction false} RegistryAgrees(h: History)
    ensures Agrees(Result(h)) <==> FreshUuids(h)
    ensures forall ip :: |From(Result(h).sessions, ip)| <= CountOf(Result(h), ip) <= LargestLimit(h)
    ensures Result(h).maxPerIp <= LargestLimit(h)
  {
    AlwaysCovers(h);
    match h
    case Fresh(_) =>
      forall ip ensures CountOf(Result(h), ip) == |From(Result(h).sessions, ip)| {
        assert From(Result(h).sessions, ip) == {};
      }
    case After(b, op) =>
      RegistryAgrees(b);
      StepAgrees(h);
      forall ip ensures CountOf(Result(h), ip) <= LargestLimit(h) {
        CountsLimited(h, ip);
      }
  }

  lemma CountsLimited(h: History, ip: string)
    requires h.After? && CountOf(Result(h.before), ip) <= LargestLimit(h.before)
    requires Result(h.before).maxPerIp <= LargestLimit(h.before)
    ensures CountOf(Result(h), ip) <= LargestLimit(h)
  {
  }

  /** One uuid added twice counts two connections where there is one. */
  lemma ReusedUuidExample()
    ensures var h := After(After(Fresh(5), DoAdd([1], 3, "10.0.0.1")), DoAdd([1], 4, "10.0.0.1"));
            CountOf(Result(h), "10.0.0.1") == 2 && |From(Result(h).sessions, "10.0.0.1")| == 1
  {
    var h := After(After(Fresh(5), DoAdd([1], 3, "10.0.0.1")), DoAdd([1], 4, "10.0.0.1"));
    assert From(Result(h).sessions, "10.0.0.1") == {[1]};
  }

  // ---------------------------------------------------------------- where the sockets go

  datatype Socket = Socket(uuid: Bytes, fd: int)

  function Added(h: History): multiset<Socket> {
    match h
    case Fresh(_) => multiset{}
    case After(b, DoAdd(u, fd, ip)) =>
      if Add(Result(b), u, fd, ip).1 then Added(b) + multiset{Socket(u, fd)} else Added(b)
    case After(b, _) => Added(b)
  }

  /** What claim_fd handed out. */
  function Claimed(h: History): multiset<Socket> {
    match h
    case Fresh(_) => multiset{}
    case After(b, DoClaim(u)) =>
      var r := Claim(Result(b), u).1;
      if r.Some? then Claimed(b) + multiset{Socket(u, r.value)} else Claimed(b)
    case After(b, _) => Claimed(b)
  }

  function Removed(h: History): multiset<Socket> {
    match h
    case Fresh(_) => multiset{}
    case After(b, DoRemove(u)) =>
      if u in Result(b).sessions then Removed(b) + multiset{Socket(u, Result(b).sessions[u].fd)} else Removed(b)
    case After(b, _) => Removed(b)
  }

  function Held(sessions: map<Bytes, SessionEntry>): set<Socket> {
    set u | u in sessions :: Socket(u, sessions[u].fd)
  }

  lemma HeldInsert(m: map<Bytes, SessionEntry>, u: Bytes, e: SessionEntry)
    requires u !in m
    ensures multiset(Held(m[u := e])) == multiset(Held(m)) + multiset{Socket(u, e.fd)}
  {
    var s := Socket(u, e.fd);
    assert s !in Held(m);
    assert Held(m[u := e]) == Held(m) + {s} by {
      forall x | x in Held(m) + {s} ensures x in Held(m[u := e]) {
        assert x.uuid in m[u := e] && x == Socket(x.uuid, m[u := e][x.uuid].fd);
      }
    }
  }

  lemma HeldDelete(m: map<Bytes, SessionEntry>, u: Bytes)
    requires u in m
    ensures multiset(Held(m)) == multiset(Held(m - {u})) + multiset{Socket(u, m[u].fd)}
  {
    HeldInsert(m - {u}, u, m[u]);
    assert (m - {u})[u := m[u]] == m;
  }

  /** The sockets an accepted connection pushed out of the table by reusing their uuid; nobody can claim them. */
  function Replaced(h: History): multiset<Socket> {
    match h
    case Fresh(_) => multiset{}
    case After(b, op) =>
      if Reuses(Result(b), op) then Replaced(b) + multiset{Socket(op.uuid, Result(b).sessions[op.uuid].fd)}
      else Replaced(b)
  }

  predicate Conserved(h: History) {
    Added(h) == Claimed(h) + Removed(h) + Replaced(h) + multiset(Held(Result(h).sessions))
  }

  /** The socket assignment at a uuid pushes out, if any. */
  function Pushed(m: map<Bytes, SessionEntry>, u: Bytes): multiset<Socket> {
    if u in m then multiset{Socket(u, m[u].fd)} else multiset{}
  }

  lemma HeldPut(m: map<Bytes, SessionEntry>, u: Bytes, e: SessionEntry)
    ensures multiset(Held(m[u := e])) + Pushed(m, u) == multiset(Held(m)) + multiset{Socket(u, e.fd)}
  {
    hide Held;
    HeldInsert(m - {u}, u, e);
    assert (m - {u})[u := e] == m[u := e];
    if u in m {
      HeldDelete(m, u);
    } else {
      assert m - {u} == m;
    }
  }

  lemma Balance(gone: multiset<Socket>, replaced: multiset<Socket>, held: multiset<Socket>,
                pushed: multiset<Socket>, added: multiset<Socket>, held': multiset<Socket>)
    requires held' + pushed == held + added
    ensures gone + replaced + held + added == gone + (replaced + pushed) + held'
  {
    assert gone + replaced + held + added == gone + replaced + (held + added);
    assert gone + replaced + (held' + pushed) == gone + (replaced + pushed) + held';
  }

  /** What an accepted connection changes. */
  lemma AcceptedAdd(b: History, u: Bytes, fd: int, ip: string)
    requires Add(Result(b), u, fd, ip).1
    ensures var h, m := After(b, DoAdd(u, fd, ip)), Result(b).sessions;
            && Claimed(h) == Claimed(b) && Removed(h) == Removed(b)
            && Added(h) == Added(b) + multiset{Socket(u, fd)} && Replaced(h) == Replaced(b) + Pushed(m, u)
            && Result(h).sessions == m[u := SessionEntry(fd, ip)]
  {
  }

  lemma AddConserves(b: History, u: Bytes, fd: int, ip: string)
    requires Conserved(b)
    ensures Conserved(After(b, DoAdd(u, fd, ip)))
  {
    hide Held;
    var h, m := After(b, DoAdd(u, fd, ip)), Result(b).sessions;
    if Add(Result(b), u, fd, ip).1 {
      hide Added;
      hide Claimed;
      hide Removed;
      hide Replaced;
      hide Result;
      AcceptedAdd(b, u, fd, ip);
      HeldPut(m, u, SessionEntry(fd, ip));
      Balance(Claimed(b) + Removed(b), Replaced(b), multiset(Held(m)), Pushed(m, u), multiset{Socket(u, fd)},
              multiset(Held(m[u := SessionEntry(fd, ip)])));
    }
  }

  lemma ClaimConserves(b: History, u: Bytes)
    requires Conserved(b)
    ensures Conserved(After(b, DoClaim(u)))
  {
    if u in Result(b).sessions {
      HeldDelete(Result(b).sessions, u);
    }
  }

  lemma RemoveConserves(b: History, u: Bytes)
    requires Conserved(b)
    ensures Conserved(After(b, DoRemove(u)))
  {
    if u in Result(b).sessions {
      HeldDelete(Result(b).sessions, u);
    }
  }

  /** Conservation, whatever the operations: every socket added is held, was claimed under its own uuid, was removed,
      or was replaced, and only one of these. */
  lemma {:induction false} SocketsConserved(h: History)
    ensures Conserved(h)
  {
    match h
    case Fresh(_) =>
    case After(b, op) =>
      SocketsConserved(b);
      match op {
        case DoAdd(u, fd, ip) => AddConserves(b, u, fd, ip);
        case DoClaim(u) => ClaimConserves(b, u);
        case DoRemove(u) => RemoveConserves(b, u);
        case DoSetMax(_) =>
      }
  }

  /** A socket is replaced, and so lost, in some history exactly when a held uuid was reused. */
  lemma {:induction false} NoneReplacedExactly(h: History)
    ensures Replaced(h) == multiset{} <==> FreshUuids(h)
  {
    if h.After? {
      NoneReplacedExactly(h.before);
      if Reuses(Result(h.before), h.op) {
        assert Socket(h.op.uuid, Result(h.before).sessions[h.op.uuid].fd) in Replaced(h);
      }
    }
  }

  // ---------------------------------------------------------------- the cache is only a cache

  /** The registry without its cache: it counts the sessions of an IP afresh at every connection. */
  datatype Plain = Plain(limit: nat, held: map<Bytes, SessionEntry>)

  function Recounted(h: History): Plain {
    match h
    case Fresh(m) => Plain(m, map[])
    case After(b, DoAdd(u, fd, ip)) =>
      var p := Recounted(b);
      if |From(p.held, ip)| < p.limit then p.(held := p.held[u := SessionEntry(fd, ip)]) else p
    case After(b, DoClaim(u)) => Recounted(b).(held := Recounted(b).held - {u})
    case After(b, DoRemove(u)) => Recounted(b).(held := Recounted(b).held - {u})
    case After(b, DoSetMax(m)) => Recounted(b).(limit := m)
  }

  /** As long as no connection is accepted under a uuid still held, the registry does what it would do without its
      cache: it holds the same sessions, accepts exactly when the IP has fewer sessions than the limit, and hands out
      the socket of a held uuid and no other. */
  lemma {:induction false} CacheRefines(h: History)
    requires FreshUuids(h)
    ensures Plain(Result(h).maxPerIp, Result(h).sessions) == Recounted(h)
    ensures forall u, fd, ip ::
              Add(Result(h), u, fd, ip).1 <==> |From(Recounted(h).held, ip)| < Recounted(h).limit
    ensures forall u ::
              Claim(Result(h), u).1
              == if u in Recounted(h).held then Some(Recounted(h).held[u].fd) else None
  {
    hide From;
    RegistryAgrees(h);
    match h
    case Fresh(_) =>
    case After(b, op) =>
      CacheRefines(b);
      match op {
        case DoAdd(u, fd, ip) =>
          assert Add(Result(b), u, fd, ip).1 <==> |From(Recounted(b).held, ip)| < Recounted(b).limit;
        case DoClaim(u) => DropAbsent(Result(b).sessions, u);
        case DoRemove(u) => DropAbsent(Result(b).sessions, u);
        case DoSetMax(_) =>
      }
  }

  lemma DropAbsent(m: map<Bytes, SessionEntry>, u: Bytes)
    ensures u !in m ==> m - {u} == m
  {
  }

  // ---------------------------------------------------------------- sockets handed out

  /** A socket is handed out at most as often as it was added, and one added once is not held any more then. */
  lemma HandedOutOnce(h: History, s: Socket)
    ensures Claimed(h)[s] <= Added(h)[s]
    ensures Added(h)[s] == 1 && s in Claimed(h) ==> Claimed(h)[s] == 1 && s !in Held(Result(h).sessions)
  {
    SocketsConserved(h);
    assert Added(h)[s]
        == Claimed(h)[s] + Removed(h)[s] + Replaced(h)[s] + multiset(Held(Result(h).sessions))[s];
  }
}

/** The registry object. */
module RegistryObject {
  import opened Pdu
  import opened Wrappers
  import opened Registry
  import Tables = Registry

  class ConnectionRegistry {
    var max: nat
    var sessions: map<Bytes, SessionEntry>
    var ipCounts: map<string, nat>

    ghost function Fields(): Table
      reads this
    {
      Table(max, sessions, ipCounts)
    }

    constructor (maxPerIp: nat)
      ensures Fields() == Result(Fresh(maxPerIp))
    {
      max, sessions, ipCounts := maxPerIp, map[], map[];
    }

    method Add(uuid: Bytes, fd: int, clientIp: string) returns (ok: bool)
      modifies this
      ensures (Fields(), ok) == Tables.Add(old(Fields()), uuid, fd, clientIp)
    {
      var cnt := if clientIp in ipCounts then ipCounts[clientIp] else 0;
      ipCounts := ipCounts[clientIp := cnt];
      if cnt >= max { return false; }
      sessions := sessions[uuid := SessionEntry(fd, clientIp)];
      ipCounts := ipCounts[clientIp := cnt + 1];
      assert ipCounts == old(ipCounts)[clientIp := cnt + 1];
      return true;
    }

    method ClaimFd(uuid: Bytes) returns (fd: Option<int>)
      modifies this
      ensures (Fields(), fd) == Claim(old(Fields()), uuid)
    {
      if uuid !in sessions { return None; }
      fd := Some(sessions[uuid].fd);
      Erase(uuid);
    }

    method Remove(uuid: Bytes)
      modifies this
      ensures Fields() == Tables.Remove(old(Fields()), uuid)
    {
      if uuid !in sessions { return; }
      Erase(uuid);
    }

    method Erase(uuid: Bytes)
      requires uuid in sessions
      modifies this
      ensures Fields() == Drop(old(Fields()), uuid)
    {
      var ip := sessions[uuid].clientIp;
      var cnt := if ip in ipCounts then ipCounts[ip] else 0;
      ipCounts := ipCounts[ip := if cnt > 0 then cnt - 1 else cnt];
      sessions := sessions - {uuid};
    }

    method Count(ip: string) returns (n: nat)
      ensures n == CountOf(Fields(), ip)
    {
      n := if ip in ipCounts then ipCounts[ip] else 0;
    }

    method SetMaxPerIp(m: nat)
      modifies this`max
      ensures Fields() == old(Fields()).(maxPerIp := m)
    {
      max := m;
    }
  }
}
