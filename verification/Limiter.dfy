/** The token bucket that limits submit_sm, with times and tokens as reals.

    The bucket holds at most `rate` tokens, gains `rate` a second and pays one for each admitted call. The
    independent reading of it is a sliding-window bound: every window of calls may admit at most
    rate + rate * (length of the window). The theorems say that the bucket is exactly the greedy schedule
    under that bound, and that no schedule under it has ever admitted more. */
module Limiter {

  datatype Bucket = Bucket(tokens: real, last: real)

  /** What `seconds` are worth in tokens. */
  function Credit(rate: nat, seconds: real): real {
    seconds * rate as real
  }

  function Refill(rate: nat, b: Bucket, now: real): real {
    var t := b.tokens + Credit(rate, now - b.last);
    if t > rate as real then rate as real else t
  }

  /** One call of throttle_check: the bucket afterwards and the verdict. Rate 0 means unlimited. */
  function Check(rate: nat, b: Bucket, now: real): (Bucket, bool) {
    if rate == 0 then (b, true)
    else
      var t := Refill(rate, b, now);
      if t >= 1.0 then (Bucket(t - 1.0, now), true) else (Bucket(t, now), false)
  }

  /** The times of the calls made so far, oldest innermost. */
  datatype Calls = NoCalls | Call(prev: Calls, at: real)

  /** The clock never runs backwards, and starts at `start`. */
  predicate Timed(start: real, c: Calls) {
    match c
    case NoCalls => true
    case Call(p, at) => Timed(start, p) && at >= Latest(start, p)
  }

  function Latest(start: real, c: Calls): real {
    if c.NoCalls? then start else c.at
  }

  /** The bucket after the calls, starting full at `start`. */
  function After(rate: nat, start: real, c: Calls): Bucket {
    match c
    case NoCalls => Bucket(rate as real, start)
    case Call(p, at) => Check(rate, After(rate, start, p), at).0
  }

  /** Whether the bucket admits the latest call. */
  predicate Admits(rate: nat, start: real, c: Calls)
    requires c.Call?
  {
    Check(rate, After(rate, start, c.prev), c.at).1
  }

  /** How many of the calls the bucket admits. */
  function Admitted(rate: nat, start: real, c: Calls): nat {
    match c
    case NoCalls => 0
    case Call(p, _) => Admitted(rate, start, p) + if Admits(rate, start, c) then 1 else 0
  }

  /** `w` is `c` or what it was some calls ago. */
  predicate Within(w: Calls, c: Calls) {
    w == c || (c.Call? && Within(w, c.prev))
  }

  /** How many calls a window may admit when it starts at call `w` and ends at call `c`. */
  function Allowance(rate: nat, w: Calls, c: Calls): real
    requires w.Call? && c.Call?
  {
    rate as real + Credit(rate, c.at - w.at)
  }

  // ---------------------------------------------------------------- the bucket level

  lemma CreditSplit(rate: nat, a: real, b: real, c: real)
    ensures Credit(rate, c - a) == Credit(rate, b - a) + Credit(rate, c - b)
  {
  }

  lemma CreditGrows(rate: nat, x: real, y: real)
    requires x <= y
    ensures Credit(rate, x) <= Credit(rate, y)
    ensures Credit(rate, 0.0) == 0.0
  {
    assert (y - x) * rate as real >= 0.0;
  }

  /** The refilled bucket never holds more than any window ending here has left to give... */
  lemma {:induction false} LevelBound(rate: nat, start: real, c: Calls, w: Calls)
    requires rate > 0 && Timed(start, c) && c.Call? && w.Call? && Within(w, c)
    ensures Refill(rate, After(rate, start, c.prev), c.at)
            <= Allowance(rate, w, c) - (Admitted(rate, start, c.prev) - Admitted(rate, start, w.prev)) as real
    decreases c
  {
    hide Credit;
    CreditGrows(rate, 0.0, 0.0);
    if w != c {
      LevelBound(rate, start, c.prev, w);
      CreditSplit(rate, w.at, c.prev.at, c.at);
    }
  }

  /** ...and exactly what one of them has left. */
  lemma {:induction false} LevelReached(rate: nat, start: real, c: Calls) returns (w: Calls)
    requires rate > 0 && Timed(start, c) && c.Call?
    ensures w.Call? && Within(w, c)
    ensures Refill(rate, After(rate, start, c.prev), c.at)
            == Allowance(rate, w, c) - (Admitted(rate, start, c.prev) - Admitted(rate, start, w.prev)) as real
    decreases c
  {
    hide Credit;
    CreditGrows(rate, 0.0, 0.0);
    var b := After(rate, start, c.prev);
    if c.prev.NoCalls? {
      CreditGrows(rate, 0.0, c.at - b.last);
      w := c;
    } else if Refill(rate, b, c.at) == rate as real {
      w := c;
    } else {
      w := LevelReached(rate, start, c.prev);
      CreditSplit(rate, w.at, c.prev.at, c.at);
      WithinPrev(w, c);
    }
  }

  lemma WithinPrev(w: Calls, c: Calls)
    requires c.Call? && Within(w, c.prev)
    ensures Within(w, c)
  {
  }

  // ---------------------------------------------------------------- exactness

  /** A call is admitted exactly when admitting it keeps every window that ends with it within bounds. */
  lemma AdmitsExactly(rate: nat, start: real, c: Calls)
    requires rate > 0 && Timed(start, c) && c.Call?
    ensures Admits(rate, start, c) <==>
            forall w: Calls | w.Call? && Within(w, c) ::
              (Admitted(rate, start, c.prev) - Admitted(rate, start, w.prev) + 1) as real <= Allowance(rate, w, c)
  {
    var level := Refill(rate, After(rate, start, c.prev), c.at);
    forall w: Calls | w.Call? && Within(w, c)
      ensures level <= Allowance(rate, w, c) - (Admitted(rate, start, c.prev) - Admitted(rate, start, w.prev)) as real
    {
      LevelBound(rate, start, c, w);
    }
    var tight := LevelReached(rate, start, c);
  }

  /** Every window of admitted calls respects the bound. */
  lemma {:induction false} WindowsRespected(rate: nat, start: real, c: Calls, w: Calls)
    requires rate > 0 && Timed(start, c) && c.Call? && w.Call? && Within(w, c)
    ensures (Admitted(rate, start, c) - Admitted(rate, start, w.prev)) as real <= Allowance(rate, w, c)
    decreases c
  {
    hide Credit;
    CreditGrows(rate, 0.0, 0.0);
    if Admits(rate, start, c) {
      AdmitsExactly(rate, start, c);
    } else if w == c {
    } else {
      WindowsRespected(rate, start, c.prev, w);
      Later(start, c);
      CreditSplit(rate, w.at, c.prev.at, c.at);
      CreditGrows(rate, 0.0, c.at - c.prev.at);
    }
  }

  lemma Later(start: real, c: Calls)
    requires Timed(start, c) && c.Call? && c.prev.Call?
    ensures c.at >= c.prev.at
  {
  }

  // ---------------------------------------------------------------- optimality

  /** Any way at all of deciding calls: the verdict on the latest call may depend on everything so far. */
  type Schedule = Calls -> bool

  function Taken(d: Schedule, c: Calls): nat {
    match c
    case NoCalls => 0
    case Call(p, _) => Taken(d, p) + if d(c) then 1 else 0
  }

  /** A schedule obeys the bound when every window of its admitted calls does. */
  ghost predicate Obeys(rate: nat, d: Schedule, c: Calls) {
    forall w: Calls, x: Calls | w.Call? && x.Call? && Within(w, x) && Within(x, c) ::
      (Taken(d, x) - Taken(d, w.prev)) as real <= Allowance(rate, w, x)
  }

  lemma {:induction false} WithinTrans(w: Calls, x: Calls, c: Calls)
    requires Within(w, x) && Within(x, c)
    ensures Within(w, c)
    decreases c
  {
    if x != c {
      WithinTrans(w, x, c.prev);
    }
  }

  lemma ObeysPrev(rate: nat, d: Schedule, c: Calls, x: Calls)
    requires Obeys(rate, d, c) && Within(x, c)
    ensures Obeys(rate, d, x)
  {
    forall w: Calls, y: Calls | w.Call? && y.Call? && Within(w, y) && Within(y, x)
      ensures (Taken(d, y) - Taken(d, w.prev)) as real <= Allowance(rate, w, y)
    {
      WithinTrans(y, x, c);
    }
  }

  /** At every point of every run, no schedule that obeys the bound has admitted more calls than the bucket. */
  lemma {:induction false} BucketOptimal(rate: nat, start: real, d: Schedule, c: Calls)
    requires rate > 0 && Timed(start, c) && Obeys(rate, d, c)
    ensures Taken(d, c) <= Admitted(rate, start, c)
    decreases c
  {
    hide Credit;
    if c.Call? {
      assert Within(c.prev, c);
      ObeysPrev(rate, d, c, c.prev);
      BucketOptimal(rate, start, d, c.prev);
      if d(c) && !Admits(rate, start, c) {
        var w := LevelReached(rate, start, c);
        assert (Taken(d, c) - Taken(d, w.prev)) as real <= Allowance(rate, w, c);
        WithinTrans(w.prev, w, c);
        TimedWithin(start, w.prev, c);
        ObeysPrev(rate, d, c, w.prev);
        SmallerPrefix(w, c);
        BucketOptimal(rate, start, d, w.prev);
      }
    }
  }

  lemma {:induction false} SmallerPrefix(w: Calls, c: Calls)
    requires w.Call? && Within(w, c)
    ensures w.prev < c
    decreases c
  {
    if w != c {
      SmallerPrefix(w, c.prev);
    }
  }

  lemma {:induction false} TimedWithin(start: real, w: Calls, c: Calls)
    requires Timed(start, c) && Within(w, c)
    ensures Timed(start, w)
    decreases c
  {
    if w != c {
      TimedWithin(start, w, c.prev);
    }
  }

  // ---------------------------------------------------------------- between two instants

  /** How many calls between the instants `a` and `b`, both included, the bucket admits. */
  function AdmittedBetween(rate: nat, start: real, c: Calls, a: real, b: real): nat {
    match c
    case NoCalls => 0
    case Call(p, at) =>
      AdmittedBetween(rate, start, p, a, b) + if a <= at <= b && Admits(rate, start, c) then 1 else 0
  }

  /** Before the instant `a` nothing counts. */
  lemma {:induction false} NoneBefore(rate: nat, start: real, c: Calls, a: real, b: real)
    requires Timed(start, c) && (c.Call? ==> c.at < a)
    ensures AdmittedBetween(rate, start, c, a, b) == 0
    decreases c
  {
    if c.Call? && c.prev.Call? {
      Later(start, c);
    }
    if c.Call? {
      NoneBefore(rate, start, c.prev, a, b);
    }
  }

  /** The calls from the instant `a` on are a window: those after some call `w`. */
  lemma {:induction false} WindowFrom(rate: nat, start: real, c: Calls, a: real, b: real) returns (w: Calls)
    requires Timed(start, c) && c.Call? && a <= c.at <= b
    ensures w.Call? && Within(w, c) && w.at >= a
    ensures AdmittedBetween(rate, start, c, a, b) == Admitted(rate, start, c) - Admitted(rate, start, w.prev)
    decreases c
  {
    if c.prev.Call? && c.prev.at >= a {
      w := WindowFrom(rate, start, c.prev, a, b);
      WithinPrev(w, c);
    } else {
      w := c;
      NoneBefore(rate, start, c.prev, a, b);
    }
  }

  /** Between any two instants at most rate + rate * elapsed calls are admitted. */
  lemma {:induction false} RateBound(rate: nat, start: real, c: Calls, a: real, b: real)
    requires rate > 0 && Timed(start, c) && a <= b
    ensures AdmittedBetween(rate, start, c, a, b) as real <= rate as real + Credit(rate, b - a)
    decreases c
  {
    hide Credit;
    CreditGrows(rate, 0.0, b - a);
    if c.Call? {
      if c.at > b || c.at < a {
        RateBound(rate, start, c.prev, a, b);
      } else {
        var w := WindowFrom(rate, start, c, a, b);
        WindowsRespected(rate, start, c, w);
        CreditGrows(rate, c.at - w.at, b - a);
      }
    }
  }
}
