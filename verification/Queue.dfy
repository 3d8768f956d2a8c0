/** Counting in the queue of completed handlers. */
module Queue {
  import opened Session

  datatype Kind = ReadKind | IntervalKind | ReplyKind | OtherKind

  function KindOf(h: Handler): Kind {
    match h
    case HeaderDone(_) => ReadKind
    case HeaderFailed => ReadKind
    case BodyDone(_) => ReadKind
    case BodyFailed(_) => ReadKind
    case IntervalFired => IntervalKind
    case ReplyFired => ReplyKind
    case _ => OtherKind
  }

  function Count(q: seq<Handler>, k: Kind): nat {
    if q == [] then 0 else Count(q[1..], k) + if KindOf(q[0]) == k then 1 else 0
  }

  lemma {:induction false} CountPush(q: seq<Handler>, h: Handler, k: Kind)
    ensures Count(q + [h], k) == Count(q, k) + if KindOf(h) == k then 1 else 0
  {
    if q == [] {
      assert q + [h] == [h];
    } else {
      CountPush(q[1..], h, k);
      assert (q + [h])[1..] == q[1..] + [h];
    }
  }

  /** No reply timeout waits behind an interval timer. */
  predicate RepliesFirst(q: seq<Handler>) {
    q == [] || (if q[0].IntervalFired? then Count(q[1..], ReplyKind) == 0 else RepliesFirst(q[1..]))
  }

  lemma {:induction false} RepliesFirstPush(q: seq<Handler>, h: Handler)
    requires RepliesFirst(q)
    requires h.ReplyFired? ==> Count(q, IntervalKind) == 0
    ensures RepliesFirst(q + [h])
  {
    if q == [] {
      assert q + [h] == [h];
    } else {
      assert (q + [h])[1..] == q[1..] + [h];
      if q[0].IntervalFired? {
        CountPush(q[1..], h, ReplyKind);
      } else {
        RepliesFirstPush(q[1..], h);
      }
    }
  }

  lemma {:induction false} RepliesFirstWithout(q: seq<Handler>)
    requires Count(q, IntervalKind) == 0
    ensures RepliesFirst(q)
  {
    if q != [] {
      RepliesFirstWithout(q[1..]);
    }
  }
}
