/** The store-backed rate limiter: a counter key that is incremented atomically and
    given its expiry by the call that creates it. */
module FixedWindow {
  import opened Numbers

  /** The counter key, absent once its deadline has passed. */
  datatype Key = Absent | Present(count: nat, deadline: int)

  /** A store may keep a key through the tick of its deadline or drop it then. */
  datatype Store = Store(keepsDeadlineTick: bool)

  predicate Alive(st: Store, now: int, deadline: int) {
    now < deadline || (st.keepsDeadlineTick && now == deadline)
  }

  function Current(st: Store, k: Key, now: int): Key {
    if k.Present? && Alive(st, now, k.deadline) then k else Absent
  }

  /** INCR: an absent key counts from 0. */
  function CountAfter(st: Store, k: Key, now: int): nat {
    match Current(st, k, now)
    case Absent => 1
    case Present(c, _) => c + 1
  }

  /** The script: INCR, then EXPIRE when the count is 1. An expiry of 0 drops the key. */
  function Incremented(st: Store, k: Key, now: int, ttl: nat): Key {
    var count := CountAfter(st, k, now);
    if count == 1 then (if ttl == 0 then Absent else Present(1, now + ttl)) else Present(count, k.deadline)
  }

  class RateLimiter {
    const store: Store
    var key: Key

    constructor (store: Store)
      ensures this.store == store && key == Absent
    {
      this.store := store;
      key := Absent;
    }

    method IncrWithTtl(now: int, ttl: nat) returns (count: nat)
      modifies this
      ensures count == CountAfter(store, old(key), now)
      ensures key == Incremented(store, old(key), now, ttl)
    {
      if key.Present? && !Alive(store, now, key.deadline) {
        key := Absent;
      }
      count := if key.Present? then key.count + 1 else 1;
      if count == 1 {
        key := if ttl == 0 then Absent else Present(1, now + ttl);
      } else {
        key := key.(count := count);
      }
    }

    method IncrCheck(now: int, ttl: nat, limit: nat) returns (count: nat, exceeded: bool)
      modifies this
      ensures count == CountAfter(store, old(key), now) && exceeded == (count > limit)
      ensures key == Incremented(store, old(key), now, ttl)
    {
      count := IncrWithTtl(now, ttl);
      exceeded := count > limit;
    }
  }

  // ---------------------------------------------------------------------
  // Runs of calls with one time to live and no reset
  // ---------------------------------------------------------------------

  ghost predicate ClockAdvances(times: seq<int>) {
    forall i, j :: 0 <= i < j < |times| ==> times[i] <= times[j]
  }

  function KeyAfter(st: Store, times: seq<int>, ttl: nat): Key {
    if times == [] then Absent else Incremented(st, KeyAfter(st, times[..|times| - 1], ttl), times[|times| - 1], ttl)
  }

  /** The call is within the limit. */
  predicate Admitted(st: Store, times: seq<int>, ttl: nat, limit: nat)
    requires times != []
  {
    CountAfter(st, KeyAfter(st, times[..|times| - 1], ttl), times[|times| - 1]) <= limit
  }

  /** The admitted calls made within [t1, t2]. */
  function AdmittedWithin(st: Store, times: seq<int>, ttl: nat, limit: nat, t1: int, t2: int): nat {
    if times == [] then 0
    else
      AdmittedWithin(st, times[..|times| - 1], ttl, limit, t1, t2)
        + if t1 <= times[|times| - 1] <= t2 && Admitted(st, times, ttl, limit) then 1 else 0
  }

  /** The count is the number of calls since the window opened: the last `count`
      calls all fall in the window, and the first of them opened it. */
  lemma {:induction false} CountIsCallsSinceOpening(st: Store, times: seq<int>, ttl: nat)
    requires ClockAdvances(times) && times != [] && ttl > 0
    ensures var k := KeyAfter(st, times, ttl);
      k.Present? && 1 <= k.count <= |times|
      && times[|times| - k.count] + ttl == k.deadline
      && (forall i :: |times| - k.count <= i < |times| ==> Alive(st, times[i], k.deadline))
      && (k.count < |times| ==>
            !Alive(st, times[|times| - k.count], KeyAfter(st, times[..|times| - k.count], ttl).deadline))
  {
    var n := |times| - 1;
    if n > 0 {
      CountIsCallsSinceOpening(st, times[..n], ttl);
      var before, k := KeyAfter(st, times[..n], ttl), KeyAfter(st, times, ttl);
      assert times[..n][..n - before.count] == times[..n - before.count];
      if k.count == 1 {
        assert times[..|times| - k.count] == times[..n];
      } else {
        assert |times| - k.count == n - before.count;
      }
    } else {
      assert times[..0] == [];
    }
  }

  /** A store that keeps a key through its deadline puts two openings more than
      the time to live apart, so that one interval never holds both. */
  function Slack(st: Store, limit: nat): (n: nat)
    ensures n <= limit
  {
    if st.keepsDeadlineTick && limit > 0 then 1 else 0
  }

  /** The most calls any interval no longer than the window admits. */
  function MostAdmitted(st: Store, limit: nat): (n: nat)
    ensures n <= 2 * limit
  {
    2 * limit - Slack(st, limit)
  }

  /** Of the `count` calls since the window opened, at most `limit` are admitted,
      and within [t1, t2] at most `limit` more from the window before. */
  ghost predicate WindowBound(st: Store, times: seq<int>, ttl: nat, limit: nat, t1: int, t2: int) {
    var k, admitted := KeyAfter(st, times, ttl), AdmittedWithin(st, times, ttl, limit, t1, t2);
    times != [] ==>
      && k.Present?
      && k.deadline - ttl <= times[|times| - 1]
      && Alive(st, times[|times| - 1], k.deadline)
      && (times[|times| - 1] < t1 ==> admitted == 0)
      && (k.deadline - ttl <= t1 ==> admitted <= MinInt(k.count, limit))
      && (k.deadline - ttl < t1 ==> admitted <= MinInt(k.count, limit) - MinInt(1, limit))
      && (k.deadline - ttl <= t2 ==> admitted <= limit - Slack(st, limit) + MinInt(k.count, limit))
      && admitted <= MostAdmitted(st, limit)
  }

  lemma {:induction false} WindowBoundKept(st: Store, times: seq<int>, ttl: nat, limit: nat, t1: int, t2: int)
    requires ClockAdvances(times) && ttl > 0 && t1 <= t2 <= t1 + ttl
    ensures WindowBound(st, times, ttl, limit, t1, t2)
  {
    if times != [] {
      var n := |times| - 1;
      WindowBoundKept(st, times[..n], ttl, limit, t1, t2);
      if n > 0 {
        assert times[..n][n - 1] == times[n - 1];
      }
    }
  }

  /** Two windows admit at most twice the limit over any interval no longer than
      the window, one less if a key outlives the tick of its deadline. */
  lemma AtMostTwiceTheLimit(st: Store, times: seq<int>, ttl: nat, limit: nat, t1: int, t2: int)
    requires ClockAdvances(times) && ttl > 0 && t1 <= t2 <= t1 + ttl
    ensures AdmittedWithin(st, times, ttl, limit, t1, t2) <= MostAdmitted(st, limit)
  {
    WindowBoundKept(st, times, ttl, limit, t1, t2);
  }

  /** n calls at one tick. */
  function Repeated(t: int, n: nat): (times: seq<int>)
    ensures |times| == n && forall i :: 0 <= i < n ==> times[i] == t
  {
    seq(n, _ => t)
  }

  /** One window opened early and used up late, the next used up as it opens. */
  function WorstRun(st: Store, ttl: nat, limit: nat): seq<int>
    requires limit > 0
  {
    (FirstWindow(st, limit) + [ttl + Late(st)]) + Repeated(ttl + Late(st), limit - 1)
  }

  /** The tick of a window's last calls, and how far past its deadline the next opens. */
  function Late(st: Store): int {
    if st.keepsDeadlineTick then 1 else 0
  }

  function FirstWindow(st: Store, limit: nat): seq<int>
    requires limit > 0
  {
    [0] + Repeated(Late(st), limit - 1)
  }

  /** Further calls at one tick of a window that has room are all admitted. */
  lemma {:induction false} RepeatsAdmitted(st: Store, times: seq<int>, t: int, n: nat, ttl: nat, limit: nat,
                                           t1: int, t2: int)
    requires var k := KeyAfter(st, times, ttl);
      k.Present? && k.count >= 1 && Alive(st, t, k.deadline) && k.count + n <= limit
    requires t1 <= t <= t2
    ensures var k := KeyAfter(st, times, ttl);
      KeyAfter(st, times + Repeated(t, n), ttl) == Present(k.count + n, k.deadline)
    ensures AdmittedWithin(st, times + Repeated(t, n), ttl, limit, t1, t2)
         == AdmittedWithin(st, times, ttl, limit, t1, t2) + n
  {
    if n == 0 {
      assert times + Repeated(t, 0) == times;
    } else {
      assert (times + Repeated(t, n))[..|times| + n - 1] == times + Repeated(t, n - 1);
      RepeatsAdmitted(st, times, t, n - 1, ttl, limit, t1, t2);
    }
  }

  /** A call that finds no live window opens one. */
  lemma OpensWindow(st: Store, times: seq<int>, t: int, ttl: nat, limit: nat, t1: int, t2: int)
    requires ttl > 0 && limit > 0 && Current(st, KeyAfter(st, times, ttl), t) == Absent
    ensures KeyAfter(st, times + [t], ttl) == Present(1, t + ttl)
    ensures AdmittedWithin(st, times + [t], ttl, limit, t1, t2)
         == AdmittedWithin(st, times, ttl, limit, t1, t2) + if t1 <= t <= t2 then 1 else 0
  {
    assert (times + [t])[..|times|] == times;
  }

  /** The bound is reached: no smaller one holds for all runs. */
  lemma MostIsAdmitted(st: Store, ttl: nat, limit: nat)
    requires ttl > 0 && limit > 0
    ensures ClockAdvances(WorstRun(st, ttl, limit))
    ensures AdmittedWithin(st, WorstRun(st, ttl, limit), ttl, limit, Late(st), ttl + Late(st))
         == MostAdmitted(st, limit)
  {
    var first, t := FirstWindow(st, limit), ttl + Late(st);
    WorstRunAdvances(st, ttl, limit);
    FirstWindowAdmits(st, ttl, limit);
    OpensWindow(st, first, t, ttl, limit, Late(st), t);
    RepeatsAdmitted(st, first + [t], t, limit - 1, ttl, limit, Late(st), t);
  }

  lemma WorstRunAdvances(st: Store, ttl: nat, limit: nat)
    requires ttl > 0 && limit > 0
    ensures ClockAdvances(WorstRun(st, ttl, limit))
  {}

  lemma FirstCallOpens(st: Store, ttl: nat, limit: nat)
    requires ttl > 0 && limit > 0
    ensures KeyAfter(st, [0], ttl) == Present(1, ttl)
    ensures AdmittedWithin(st, [0], ttl, limit, Late(st), ttl + Late(st)) == 1 - Late(st)
  {
    assert [] + [0] == [0];
    OpensWindow(st, [], 0, ttl, limit, Late(st), ttl + Late(st));
  }

  lemma FirstWindowAdmits(st: Store, ttl: nat, limit: nat)
    requires ttl > 0 && limit > 0
    ensures KeyAfter(st, FirstWindow(st, limit), ttl) == Present(limit, ttl)
    ensures AdmittedWithin(st, FirstWindow(st, limit), ttl, limit, Late(st), ttl + Late(st)) == limit - Late(st)
  {
    FirstCallOpens(st, ttl, limit);
    RepeatsAdmitted(st, [0], Late(st), limit - 1, ttl, limit, Late(st), ttl + Late(st));
  }

  lemma {:induction false} BurstAllAdmitted(st: Store, n: nat, limit: nat)
    requires limit > 0
    ensures KeyAfter(st, Repeated(0, n), 0) == Absent
    ensures AdmittedWithin(st, Repeated(0, n), 0, limit, 0, 0) == n
  {
    if n > 0 {
      assert Repeated(0, n)[..n - 1] == Repeated(0, n - 1);
      BurstAllAdmitted(st, n - 1, limit);
    }
  }

  lemma {:induction false} ZeroLimitAdmitsNone(st: Store, times: seq<int>, ttl: nat, t1: int, t2: int)
    ensures AdmittedWithin(st, times, ttl, 0, t1, t2) == 0
  {
    if times != [] {
      ZeroLimitAdmitsNone(st, times[..|times| - 1], ttl, t1, t2);
    }
  }

  /** No interval no longer than the window admits more calls, in any run. */
  ghost predicate BoundedBy(st: Store, ttl: nat, limit: nat, bound: nat) {
    forall times, t1, t2 :: ClockAdvances(times) && t1 <= t2 <= t1 + ttl ==>
      AdmittedWithin(st, times, ttl, limit, t1, t2) <= bound
  }

  lemma BoundHolds(st: Store, ttl: nat, limit: nat)
    requires ttl > 0 || limit == 0
    ensures BoundedBy(st, ttl, limit, MostAdmitted(st, limit))
  {
    forall times, t1, t2 | ClockAdvances(times) && t1 <= t2 <= t1 + ttl
      ensures AdmittedWithin(st, times, ttl, limit, t1, t2) <= MostAdmitted(st, limit)
    {
      if limit == 0 {
        ZeroLimitAdmitsNone(st, times, ttl, t1, t2);
      } else {
        AtMostTwiceTheLimit(st, times, ttl, limit, t1, t2);
      }
    }
  }

  /** The limiter limits at all exactly when the window has a positive length or
      nothing is allowed: with a time to live of 0 every call is the first of its
      own window, and one tick admits any number of them. */
  lemma LimitsExactly(st: Store, ttl: nat, limit: nat)
    ensures (exists bound :: BoundedBy(st, ttl, limit, bound)) <==> ttl > 0 || limit == 0
  {
    if ttl > 0 || limit == 0 {
      BoundHolds(st, ttl, limit);
    } else {
      forall bound: nat ensures !BoundedBy(st, ttl, limit, bound) {
        BurstAllAdmitted(st, bound + 1, limit);
        assert ClockAdvances(Repeated(0, bound + 1));
      }
    }
  }

  /** And then twice the limit, or one less, is the least bound. */
  lemma LeastBound(st: Store, ttl: nat, limit: nat, bound: nat)
    requires ttl > 0 || limit == 0
    ensures BoundedBy(st, ttl, limit, bound) <==> bound >= MostAdmitted(st, limit)
  {
    BoundHolds(st, ttl, limit);
    if limit > 0 {
      MostIsAdmitted(st, ttl, limit);
    }
  }
}
