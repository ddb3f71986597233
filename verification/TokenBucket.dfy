/** The exchange rate limiter: a token bucket shared by any number of callers, each
    pass of whose loop runs under both locks. */
module TokenBucket {
  import opened Numbers

  /** The bucket's fixed parameters: capacity and refill per second. */
  datatype Limits = Limits(maxTokens: real, refillRate: real)

  datatype Bucket = Bucket(tokens: real, lastUpdate: real)

  /** One pass of some caller's loop. */
  datatype Attempt = Attempt(now: real, amount: real)

  function Refilled(l: Limits, b: Bucket, now: real): real {
    Min(b.tokens + Line(l.refillRate, now - b.lastUpdate, 0.0), l.maxTokens)
  }

  predicate Granted(l: Limits, b: Bucket, a: Attempt) {
    Refilled(l, b, a.now) >= a.amount
  }

  function Next(l: Limits, b: Bucket, a: Attempt): Bucket {
    Bucket(if Granted(l, b, a) then Refilled(l, b, a.now) - a.amount else Refilled(l, b, a.now), a.now)
  }

  /** How long a refused caller sleeps. Without a positive refill rate the
      quotient is infinite or negative, and turning it into a duration panics. */
  function WaitTime(l: Limits, b: Bucket, a: Attempt): Option<real> {
    if l.refillRate > 0.0 then Some((a.amount - Refilled(l, b, a.now)) / l.refillRate) else None
  }

  class RateLimiter {
    const limits: Limits
    var tokens: real
    var lastUpdate: real

    constructor (limits: Limits, now: real)
      ensures this.limits == limits && State() == Bucket(limits.maxTokens, now)
    {
      this.limits := limits;
      tokens, lastUpdate := limits.maxTokens, now;
    }

    function State(): Bucket
      reads this
    {
      Bucket(tokens, lastUpdate)
    }

    /** One pass of the loop: refill, then take the tokens or say how long to wait. */
    method Try(amount: real, now: real) returns (granted: bool, wait: Option<real>)
      modifies this
      ensures granted == Granted(limits, old(State()), Attempt(now, amount))
      ensures State() == Next(limits, old(State()), Attempt(now, amount))
      ensures !granted ==> wait == WaitTime(limits, old(State()), Attempt(now, amount))
    {
      var elapsed := now - lastUpdate;
      tokens := Min(tokens + Line(limits.refillRate, elapsed, 0.0), limits.maxTokens);
      lastUpdate := now;
      if tokens >= amount {
        tokens := tokens - amount;
        return true, None;
      }
      granted := false;
      wait := if limits.refillRate > 0.0 then Some((amount - tokens) / limits.refillRate) else None;
    }

    /** The whole call when nobody else uses the bucket: it returns from its first
        pass if the amount is there, and from its second one otherwise, however
        much the sleep overshoots. */
    method AcquireAlone(amount: real, start: real, overshoot: real) returns (passes: nat)
      requires overshoot >= 0.0
      requires Granted(limits, State(), Attempt(start, amount))
        || (limits.refillRate > 0.0 && amount <= limits.maxTokens)
      modifies this
      ensures passes == if Granted(limits, old(State()), Attempt(start, amount)) then 1 else 2
    {
      var now := start;
      passes := 0;
      while true
        invariant passes <= 1
        invariant passes == 0 ==> now == start && State() == old(State())
        invariant passes == 1 ==> Granted(limits, State(), Attempt(now, amount))
        invariant passes == 1 ==> !Granted(limits, old(State()), Attempt(start, amount))
        decreases 2 - passes
      {
        ghost var before := State();
        var granted, wait := Try(amount, now);
        passes := passes + 1;
        if granted {
          return;
        }
        SleepSuffices(limits, before, Attempt(now, amount), overshoot);
        now := now + wait.value + overshoot;
      }
    }
  }

  lemma ScaledQuotient(x: real, k: real, extra: real)
    requires k > 0.0 && extra >= 0.0
    ensures Line(k, x / k + extra, 0.0) >= x
  {
    var q := x / k;
    assert x == q * k;
    assert k * extra >= 0.0;
    assert k * (q + extra) == k * q + k * extra;
  }

  lemma SleepSuffices(l: Limits, b: Bucket, a: Attempt, overshoot: real)
    requires l.refillRate > 0.0 && a.amount <= l.maxTokens && overshoot >= 0.0 && !Granted(l, b, a)
    ensures Granted(l, Next(l, b, a), Attempt(a.now + WaitTime(l, b, a).value + overshoot, a.amount))
  {
    ScaledQuotient(a.amount - Refilled(l, b, a.now), l.refillRate, overshoot);
    assert a.now + WaitTime(l, b, a).value + overshoot - a.now == WaitTime(l, b, a).value + overshoot;
  }

  /** After the sleep a refused caller asked for, and with nobody else taking
      tokens, the amount is granted exactly when the bucket can hold it; a larger
      amount is refused in every state. */
  lemma SleepSufficesExactly(l: Limits, b: Bucket, a: Attempt, overshoot: real)
    requires l.refillRate > 0.0 && overshoot >= 0.0 && !Granted(l, b, a)
    ensures Granted(l, Next(l, b, a), Attempt(a.now + WaitTime(l, b, a).value + overshoot, a.amount))
      <==> a.amount <= l.maxTokens
    ensures a.amount > l.maxTokens ==> forall c: Bucket, now: real :: !Granted(l, c, Attempt(now, a.amount))
  {
    if a.amount <= l.maxTokens {
      SleepSuffices(l, b, a, overshoot);
    }
  }

  // ---------------------------------------------------------------------
  // Runs
  // ---------------------------------------------------------------------

  ghost predicate Sound(l: Limits, created: real, run: seq<Attempt>) {
    && l.maxTokens >= 0.0 && l.refillRate >= 0.0
    && (forall i :: 0 <= i < |run| ==> run[i].amount >= 0.0 && created <= run[i].now)
    && (forall i, j :: 0 <= i < j < |run| ==> run[i].now <= run[j].now)
  }

  function After(l: Limits, created: real, run: seq<Attempt>): Bucket {
    if run == [] then Bucket(l.maxTokens, created)
    else Next(l, After(l, created, run[..|run| - 1]), run[|run| - 1])
  }

  lemma RefillNonNegative(k: real, x: real)
    requires k >= 0.0 && x >= 0.0
    ensures Line(k, x, 0.0) >= 0.0
  {}

  /** In every interleaving the tokens stay between 0 and the capacity. */
  lemma {:induction false} TokensInRange(l: Limits, created: real, run: seq<Attempt>)
    requires Sound(l, created, run)
    ensures 0.0 <= After(l, created, run).tokens <= l.maxTokens
    ensures After(l, created, run).lastUpdate == if run == [] then created else run[|run| - 1].now
  {
    if run != [] {
      var n := |run| - 1;
      TokensInRange(l, created, run[..n]);
      RefillNonNegative(l.refillRate, run[n].now - After(l, created, run[..n]).lastUpdate);
    }
  }

  /** The total granted to attempts made within [t1, t2]. */
  function GrantedWithin(l: Limits, created: real, run: seq<Attempt>, t1: real, t2: real): real {
    if run == [] then 0.0
    else
      var n := |run| - 1;
      GrantedWithin(l, created, run[..n], t1, t2)
        + if t1 <= run[n].now <= t2 && Granted(l, After(l, created, run[..n]), run[n]) then run[n].amount else 0.0
  }

  lemma RefillAdds(k: real, x: real, y: real)
    ensures Line(k, x, 0.0) + Line(k, y, 0.0) == Line(k, x + y, 0.0)
  {
    Distributes(k, x, y);
  }

  lemma RefillGrows(k: real, x: real, y: real)
    requires k >= 0.0 && x <= y
    ensures Line(k, x, 0.0) <= Line(k, y, 0.0)
  {
    RefillAdds(k, x, y - x);
    RefillNonNegative(k, y - x);
  }

  /** Granted plus left is at most the capacity plus what the interval refilled. */
  lemma {:induction false} GrantedPlusLeft(l: Limits, created: real, run: seq<Attempt>, t1: real, t2: real)
    requires Sound(l, created, run) && t1 <= t2
    ensures run != [] && run[|run| - 1].now < t1 ==> GrantedWithin(l, created, run, t1, t2) == 0.0
    ensures run != [] && t1 <= run[|run| - 1].now <= t2 ==>
      GrantedWithin(l, created, run, t1, t2) + After(l, created, run).tokens
        <= l.maxTokens + Line(l.refillRate, run[|run| - 1].now - t1, 0.0)
    ensures GrantedWithin(l, created, run, t1, t2) <= l.maxTokens + Line(l.refillRate, t2 - t1, 0.0)
  {
    RefillNonNegative(l.refillRate, t2 - t1);
    if run != [] {
      var n := |run| - 1;
      var past := run[..n];
      GrantedPlusLeft(l, created, past, t1, t2);
      TokensInRange(l, created, past);
      TokensInRange(l, created, run);
      if t1 <= run[n].now <= t2 {
        RefillNonNegative(l.refillRate, run[n].now - t1);
        RefillGrows(l.refillRate, run[n].now - t1, t2 - t1);
        if past != [] && t1 <= past[n - 1].now {
          RefillAdds(l.refillRate, past[n - 1].now - t1, run[n].now - past[n - 1].now);
        }
      }
    }
  }

  /** Over every interval of every run, the total granted is at most the capacity
      plus the refill of the interval, whoever the callers are. */
  lemma GrantedIsBounded(l: Limits, created: real, run: seq<Attempt>, t1: real, t2: real)
    requires Sound(l, created, run) && t1 <= t2
    ensures GrantedWithin(l, created, run, t1, t2) <= l.maxTokens + Line(l.refillRate, t2 - t1, 0.0)
  {
    GrantedPlusLeft(l, created, run, t1, t2);
  }

  // ---------------------------------------------------------------------
  // The bound is reached
  // ---------------------------------------------------------------------

  /** x and n equal steps further. */
  function StepsFrom(x: real, step: real, n: nat): real {
    if n == 0 then x else StepsFrom(x, step, n - 1) + step
  }

  lemma {:induction false} StepsSpan(x: real, step: real, n: nat)
    ensures StepsFrom(x, step, n) == x + Line(n as real, step, 0.0)
  {
    if n > 0 {
      StepsSpan(x, step, n - 1);
      assert n as real == (n - 1) as real + 1.0;
      assert (n as real) * step == ((n - 1) as real) * step + step;
    }
  }

  /** The bucket is emptied as soon as it exists, and then of q at every step. */
  function DrainingRun(l: Limits, start: real, step: real, q: real, n: nat): (run: seq<Attempt>)
    ensures |run| == n + 1 && run[n].now == StepsFrom(start, step, n)
  {
    if n == 0 then [Attempt(start, l.maxTokens)]
    else DrainingRun(l, start, step, q, n - 1) + [Attempt(StepsFrom(start, step, n), q)]
  }

  lemma {:induction false} DrainingIsSound(l: Limits, start: real, step: real, q: real, n: nat)
    requires l.maxTokens >= 0.0 && l.refillRate >= 0.0 && step >= 0.0 && q >= 0.0
    ensures Sound(l, start, DrainingRun(l, start, step, q, n))
    ensures forall i :: 0 <= i < n + 1 ==> DrainingRun(l, start, step, q, n)[i].now <= StepsFrom(start, step, n)
  {
    if n > 0 {
      DrainingIsSound(l, start, step, q, n - 1);
    }
  }

  /** What one step refills, and the bucket can hold. */
  predicate Refills(l: Limits, step: real, q: real) {
    q == Line(l.refillRate, step, 0.0) && q <= l.maxTokens
  }

  /** Taking a whole refill empties the bucket again. */
  lemma DrainsRefill(l: Limits, last: real, step: real, q: real)
    requires Refills(l, step, q)
    ensures Granted(l, Bucket(0.0, last), Attempt(last + step, q))
    ensures Next(l, Bucket(0.0, last), Attempt(last + step, q)) == Bucket(0.0, last + step)
  {
    assert last + step - last == step;
  }

  lemma OneMoreAttempt(l: Limits, created: real, run: seq<Attempt>, a: Attempt, t1: real, t2: real)
    requires t1 <= a.now <= t2 && Granted(l, After(l, created, run), a)
    ensures After(l, created, run + [a]) == Next(l, After(l, created, run), a)
    ensures GrantedWithin(l, created, run + [a], t1, t2) == GrantedWithin(l, created, run, t1, t2) + a.amount
  {
    assert (run + [a])[..|run|] == run;
  }

  lemma FirstDrains(l: Limits, start: real, end: real)
    requires start <= end
    ensures var run := [Attempt(start, l.maxTokens)];
      After(l, start, run) == Bucket(0.0, start) && GrantedWithin(l, start, run, start, end) == l.maxTokens
  {
    assert start - start == 0.0 && Line(l.refillRate, 0.0, 0.0) == 0.0;
    OneMoreAttempt(l, start, [], Attempt(start, l.maxTokens), start, end);
    assert [] + [Attempt(start, l.maxTokens)] == [Attempt(start, l.maxTokens)];
  }

  /** Every attempt of the run is granted, and leaves the bucket empty. */
  lemma {:induction false} DrainingGrantsAll(l: Limits, start: real, step: real, q: real, n: nat, end: real)
    requires step >= 0.0 && Refills(l, step, q) && StepsFrom(start, step, n) <= end
    ensures start <= StepsFrom(start, step, n)
    ensures After(l, start, DrainingRun(l, start, step, q, n)) == Bucket(0.0, StepsFrom(start, step, n))
    ensures GrantedWithin(l, start, DrainingRun(l, start, step, q, n), start, end) == StepsFrom(l.maxTokens, q, n)
  {
    if n == 0 {
      FirstDrains(l, start, end);
    } else {
      var run, last := DrainingRun(l, start, step, q, n - 1), StepsFrom(start, step, n - 1);
      DrainingGrantsAll(l, start, step, q, n - 1, end);
      DrainsRefill(l, last, step, q);
      OneMoreAttempt(l, start, run, Attempt(last + step, q), start, end);
    }
  }

  lemma QuotientFits(x: real, d: real)
    requires x >= 0.0 && d > 0.0
    ensures x / d >= 0.0 && (x / d) * d == x
  {}

  /** A number of steps so large that the bucket holds what one of them refills. */
  lemma StepsFit(l: Limits, span: real) returns (n: nat, step: real, q: real)
    requires l.maxTokens > 0.0 && l.refillRate >= 0.0 && span >= 0.0
    ensures step >= 0.0 && q >= 0.0 && Refills(l, step, q)
    ensures Line(n as real, step, 0.0) == span && Line(n as real, q, 0.0) == Line(l.refillRate, span, 0.0)
  {
    RefillNonNegative(l.refillRate, span);
    var refill := Line(l.refillRate, span, 0.0);
    QuotientFits(refill, l.maxTokens);
    n := (refill / l.maxTokens).Floor + 1;
    QuotientFits(span, n as real);
    QuotientFits(refill, n as real);
    step, q := span / (n as real), refill / (n as real);
    Rescaled(l.refillRate, span, n as real);
    AtMostShare(refill, l.maxTokens, n as real);
  }

  lemma Rescaled(k: real, span: real, m: real)
    requires m > 0.0
    ensures Line(k, span, 0.0) / m == Line(k, span / m, 0.0)
  {
    assert k * (span / m) == (k * span) / m;
  }

  lemma AtMostShare(x: real, capacity: real, m: real)
    requires capacity > 0.0 && m > 0.0 && x / capacity <= m
    ensures x / m <= capacity
  {
    assert (x / capacity) * capacity == x;
    assert (x / capacity) * capacity <= m * capacity;
    assert x <= m * capacity;
    assert (x / m) * m == x;
  }

  ghost predicate Reaches(l: Limits, run: seq<Attempt>, t1: real, t2: real) {
    Sound(l, t1, run) && GrantedWithin(l, t1, run, t1, t2) == l.maxTokens + Line(l.refillRate, t2 - t1, 0.0)
  }

  /** The bound is the least one: some run reaches it over every interval, exactly
      when the bucket can hold anything or the interval refills nothing. */
  lemma BoundIsReachedExactly(l: Limits, t1: real, t2: real)
    requires l.maxTokens >= 0.0 && l.refillRate >= 0.0 && t1 <= t2
    ensures (exists run :: Reaches(l, run, t1, t2)) <==> l.maxTokens > 0.0 || Line(l.refillRate, t2 - t1, 0.0) == 0.0
  {
    if l.maxTokens > 0.0 {
      var n, step, q := StepsFit(l, t2 - t1);
      StepsSpan(t1, step, n);
      StepsSpan(l.maxTokens, q, n);
      DrainingIsSound(l, t1, step, q, n);
      DrainingGrantsAll(l, t1, step, q, n, t2);
      assert Reaches(l, DrainingRun(l, t1, step, q, n), t1, t2);
    } else {
      forall run | Sound(l, t1, run) ensures GrantedWithin(l, t1, run, t1, t2) == 0.0 {
        NothingWithoutCapacity(l, t1, run, t1, t2);
      }
      assert Line(l.refillRate, t2 - t1, 0.0) == 0.0 ==> Reaches(l, [], t1, t2);
    }
  }

  lemma {:induction false} NothingWithoutCapacity(l: Limits, created: real, run: seq<Attempt>, t1: real, t2: real)
    requires l.maxTokens == 0.0 && Sound(l, created, run)
    ensures GrantedWithin(l, created, run, t1, t2) == 0.0
  {
    if run != [] {
      NothingWithoutCapacity(l, created, run[..|run| - 1], t1, t2);
    }
  }
}
