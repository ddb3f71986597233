/** The consume -> retry -> dead-letter -> commit protocol, with asynchronous
    commits in flight, commits that are lost, and crashes at any point followed by
    a restart from the broker's committed offset. */
module KafkaConsumer {
  import opened Numbers

  const U64_MAX: nat := 0xFFFF_FFFF_FFFF_FFFF

  // ---------------------------------------------------------------------
  // Retry policy
  // ---------------------------------------------------------------------

  datatype RetryPolicy = RetryPolicy(maxRetries: nat, initialBackoffMs: nat, maxBackoffMs: nat)

  datatype Config = Config(retry: RetryPolicy, dlqAttached: bool, haltOnFailure: bool)

  function Shift(n: nat): (f: nat)
    ensures f >= 1
  {
    if n == 0 then 1 else 2 * Shift(n - 1)
  }

  /** `initial.saturating_mul(1 << attempt.min(10)).min(max)` */
  function BackoffMs(p: RetryPolicy, attempt: nat): (ms: nat)
    ensures ms <= p.maxBackoffMs
  {
    MinInt(MinInt(p.initialBackoffMs * Shift(MinInt(attempt, 10)), U64_MAX), p.maxBackoffMs)
  }

  lemma {:induction false} ShiftMonotone(m: nat, n: nat)
    requires m <= n
    ensures Shift(m) <= Shift(n)
  {
    if m < n {
      ShiftMonotone(m, n - 1);
    }
  }

  lemma ProductMonotone(k: nat, x: nat, y: nat)
    requires x <= y
    ensures k * x <= k * y
  {}

  /** Later attempts never wait less. */
  lemma BackoffMonotone(p: RetryPolicy, a: nat, b: nat)
    requires a <= b
    ensures BackoffMs(p, a) <= BackoffMs(p, b)
  {
    ShiftMonotone(MinInt(a, 10), MinInt(b, 10));
    ProductMonotone(p.initialBackoffMs, Shift(MinInt(a, 10)), Shift(MinInt(b, 10)));
  }

  /** Two 64-bit settings. */
  predicate FitsU64(p: RetryPolicy) {
    p.initialBackoffMs <= U64_MAX && p.maxBackoffMs <= U64_MAX
  }

  /** The waits: the initial one, doubled at each of the first ten retries, never
      above the cap, and unchanged from then on. */
  lemma BackoffDoubles(p: RetryPolicy, attempt: nat)
    requires FitsU64(p)
    ensures BackoffMs(p, 0) == MinInt(p.initialBackoffMs, p.maxBackoffMs)
    ensures attempt < 10 ==> BackoffMs(p, attempt + 1) == MinInt(2 * BackoffMs(p, attempt), p.maxBackoffMs)
    ensures attempt >= 10 ==> BackoffMs(p, attempt + 1) == BackoffMs(p, attempt)
  {
    assert Shift(0) == 1 && p.initialBackoffMs * 1 == p.initialBackoffMs;
    if attempt < 10 {
      DoubledProduct(p.initialBackoffMs, Shift(attempt));
    }
  }

  lemma DoubledProduct(k: nat, f: nat)
    ensures k * (2 * f) == 2 * (k * f) && k * f >= 0
  {}

  function TotalBackoff(p: RetryPolicy, attempts: nat): nat {
    if attempts == 0 then 0 else TotalBackoff(p, attempts - 1) + BackoffMs(p, attempts - 1)
  }

  lemma {:induction false} TotalBackoffBounded(p: RetryPolicy, attempts: nat)
    ensures TotalBackoff(p, attempts) <= attempts * p.maxBackoffMs
  {
    if attempts > 0 {
      TotalBackoffBounded(p, attempts - 1);
      assert attempts * p.maxBackoffMs == (attempts - 1) * p.maxBackoffMs + p.maxBackoffMs;
    }
  }

  /** k waits that never meet the cap. */
  ghost predicate Uncapped(p: RetryPolicy, k: nat) {
    k <= 11 && FitsU64(p) && (k > 0 ==> p.initialBackoffMs * Shift(k - 1) <= p.maxBackoffMs)
  }

  lemma OneWaitLess(p: RetryPolicy, k: nat)
    requires k > 0 && Uncapped(p, k)
    ensures Uncapped(p, k - 1) && BackoffMs(p, k - 1) == p.initialBackoffMs * Shift(k - 1)
  {
    if k > 1 {
      DoubledProduct(p.initialBackoffMs, Shift(k - 2));
    }
  }

  lemma OneMoreWait(i: nat, f: nat)
    ensures i * (f - 1) + i * f == i * (2 * f - 1)
  {}

  /** Waits that never meet the cap add up to the initial one times 2^k - 1. */
  lemma {:induction false} UncappedTotal(p: RetryPolicy, k: nat)
    requires Uncapped(p, k)
    ensures TotalBackoff(p, k) == p.initialBackoffMs * (Shift(k) - 1)
  {
    if k > 0 {
      OneWaitLess(p, k);
      UncappedTotal(p, k - 1);
      OneMoreWait(p.initialBackoffMs, Shift(k - 1));
    }
  }

  // ---------------------------------------------------------------------
  // One delivery
  // ---------------------------------------------------------------------

  /** One delivery of a message and the outcomes of its handler calls. */
  datatype Delivery = Delivery(partition: nat, offset: nat, outcomes: seq<bool>)

  ghost predicate AllFailed(outcomes: seq<bool>) {
    forall i :: 0 <= i < |outcomes| ==> !outcomes[i]
  }

  /** The last call returned Ok and every call before it failed. */
  ghost predicate Succeeded(outcomes: seq<bool>, maxRetries: nat) {
    && 1 <= |outcomes| <= maxRetries + 1
    && outcomes[|outcomes| - 1]
    && AllFailed(outcomes[..|outcomes| - 1])
  }

  /** The handler failed exactly maxRetries + 1 times. */
  ghost predicate Exhausted(outcomes: seq<bool>, maxRetries: nat) {
    |outcomes| == maxRetries + 1 && AllFailed(outcomes)
  }

  /** The calls the retry loop makes against a handler that would answer `script`. */
  function Attempts(script: seq<bool>): (n: nat)
    ensures n <= |script|
    ensures AllFailed(script[..n]) || (n > 0 && script[n - 1] && AllFailed(script[..n - 1]))
    ensures AllFailed(script[..n]) ==> n == |script|
  {
    if script == [] then 0
    else if script[0] then 1
    else
      var n := Attempts(script[1..]);
      assert script[..n + 1] == [script[0]] + script[1..][..n];
      assert n > 0 ==> script[..n] == [script[0]] + script[1..][..n - 1];
      n + 1
  }

  lemma {:induction false} AttemptsStopsAtFirstOk(script: seq<bool>, k: nat)
    requires k < |script| && script[k] && AllFailed(script[..k])
    ensures Attempts(script) == k + 1
  {
    if k > 0 {
      assert !script[..k][0];
      assert script[1..][..k - 1] == script[..k][1..];
      AttemptsStopsAtFirstOk(script[1..], k - 1);
    }
  }

  lemma {:induction false} AttemptsAllFailed(script: seq<bool>)
    requires AllFailed(script)
    ensures Attempts(script) == |script|
  {
    if script != [] {
      AttemptsAllFailed(script[1..]);
    }
  }

  lemma ScriptOutcome(script: seq<bool>, maxRetries: nat)
    requires |script| == maxRetries + 1
    ensures var n := Attempts(script);
      n > 0
      && (script[n - 1] ==> Succeeded(script[..n], maxRetries))
      && (!script[n - 1] ==> Exhausted(script[..n], maxRetries))
  {
    var n := Attempts(script);
    assert n > 0 ==> script[..n][n - 1] == script[n - 1] && script[..n][..n - 1] == script[..n - 1];
  }

  /** The attempt the loop returns at is the last one the script allows. */
  lemma LastAttempt(script: seq<bool>, k: nat, maxRetries: nat)
    requires |script| == maxRetries + 1 && k <= maxRetries && AllFailed(script[..k])
    requires script[k] || k == maxRetries
    ensures Attempts(script) == k + 1
    ensures script[k] ==> Succeeded(script[..k + 1], maxRetries)
    ensures !script[k] ==> Exhausted(script[..k + 1], maxRetries)
  {
    if script[k] {
      AttemptsStopsAtFirstOk(script, k);
      assert script[..k + 1][..k] == script[..k];
    } else {
      assert script == script[..k] + [script[k]];
      AttemptsAllFailed(script);
    }
  }

  lemma UncappedSleep(p: RetryPolicy, k: nat)
    ensures Uncapped(p, k) ==> TotalBackoff(p, k) == p.initialBackoffMs * (Shift(k) - 1)
  {
    if Uncapped(p, k) {
      UncappedTotal(p, k);
    }
  }

  /** The retry loop. The statement after the loop is never reached. */
  method RunWithRetry(retry: RetryPolicy, script: seq<bool>) returns (ok: bool, attempts: nat, sleptMs: nat)
    requires |script| == retry.maxRetries + 1
    ensures attempts == Attempts(script) >= 1
    ensures ok == script[attempts - 1]
    ensures ok ==> Succeeded(script[..attempts], retry.maxRetries)
    ensures !ok ==> Exhausted(script[..attempts], retry.maxRetries)
    ensures sleptMs == TotalBackoff(retry, attempts - 1)
    ensures Uncapped(retry, attempts - 1) ==> sleptMs == retry.initialBackoffMs * (Shift(attempts - 1) - 1)
  {
    var max := retry.maxRetries;
    sleptMs := 0;
    for attempt := 0 to max + 1
      invariant AllFailed(script[..attempt])
      invariant sleptMs == TotalBackoff(retry, attempt)
      invariant attempt <= max
    {
      if script[attempt] {
        LastAttempt(script, attempt, max);
        UncappedSleep(retry, attempt);
        return true, attempt + 1, sleptMs;
      } else if attempt < max {
        sleptMs := sleptMs + BackoffMs(retry, attempt);
      } else {
        LastAttempt(script, attempt, max);
        UncappedSleep(retry, attempt);
        return false, attempt + 1, sleptMs;
      }
    }
    assert false;
  }

  lemma SleepBound(p: RetryPolicy, sleeps: nat)
    requires sleeps <= p.maxRetries
    ensures TotalBackoff(p, sleeps) <= p.maxRetries * p.maxBackoffMs
  {
    TotalBackoffBounded(p, sleeps);
    ProductMonotone(p.maxBackoffMs, sleeps, p.maxRetries);
  }

  /** A delivery sleeps at most maxRetries * maxBackoffMs. */
  lemma SleepIsBounded(retry: RetryPolicy, script: seq<bool>)
    requires |script| == retry.maxRetries + 1
    ensures var sleeps := Attempts(script) - 1;
      sleeps >= 0 && TotalBackoff(retry, sleeps) <= retry.maxRetries * retry.maxBackoffMs
  {
    SleepBound(retry, Attempts(script) - 1);
  }

  // ---------------------------------------------------------------------
  // The system: broker, network and consumer
  // ---------------------------------------------------------------------

  /** A record of the log: the offset `offset` of partition `partition`. */
  datatype Position = Position(partition: nat, offset: nat)

  datatype Sys = Sys(
    records: set<Position>,
    ends: map<nat, nat>,
    committed: map<nat, nat>,
    inFlight: set<Position>,
    fetch: map<nat, nat>,
    deliveries: seq<Delivery>,
    dlq: seq<Position>,
    running: bool)

  function Get(m: map<nat, nat>, p: nat): nat {
    if p in m then m[p] else 0
  }

  const START := Sys({}, map[], map[], {}, map[], [], [], true)

  /** What became of a dead-letter publish. */
  datatype Publish = Acknowledged | LandedUnacknowledged | Lost

  datatype Event =
    | Produce(record: Position)
    | RecvError
    | Deliver(message: Position, script: seq<bool>, publish: Publish, commitAccepted: bool)
    | CrashDuring(message: Position, tried: seq<bool>, landed: bool)
    | ApplyCommit(commit: Position)
    | LoseCommit(commit: Position)
    | Restart

  /** The next record the consumer fetches from its partition: offsets may have gaps. */
  ghost predicate IsNext(s: Sys, m: Position) {
    && m in s.records
    && Get(s.fetch, m.partition) <= m.offset
    && forall r :: r in s.records && r.partition == m.partition && Get(s.fetch, m.partition) <= r.offset ==>
      m.offset <= r.offset
  }

  ghost predicate Enabled(cfg: Config, s: Sys, e: Event) {
    match e
    case Produce(r) => Get(s.ends, r.partition) <= r.offset
    case RecvError => s.running
    case Deliver(m, script, _, _) => s.running && IsNext(s, m) && |script| == cfg.retry.maxRetries + 1
    case CrashDuring(m, tried, landed) =>
      && s.running && IsNext(s, m)
      && |tried| <= cfg.retry.maxRetries + 1
      && (|tried| > 0 ==> AllFailed(tried[..|tried| - 1]))
      && (landed ==> cfg.dlqAttached && Exhausted(tried, cfg.retry.maxRetries))
    case ApplyCommit(c) => c in s.inFlight
    case LoseCommit(c) => c in s.inFlight
    case Restart => true
  }

  /** `commit_offset`: enqueue offset + 1, or stop the loop on an error. */
  function Commit(s: Sys, m: Position, accepted: bool): Sys {
    if accepted then s.(inFlight := s.inFlight + {Position(m.partition, m.offset + 1)}) else s.(running := false)
  }

  /** The `Err` arm of the loop: dead-letter, then commit past the message
      unless the publish failed and that is configured to be fatal. */
  function Poisoned(cfg: Config, s: Sys, m: Position, publish: Publish, accepted: bool): Sys {
    var s1 := if cfg.dlqAttached && publish != Lost then s.(dlq := s.dlq + [m]) else s;
    if cfg.dlqAttached && publish != Acknowledged && cfg.haltOnFailure then s1.(running := false)
    else Commit(s1, m, accepted)
  }

  /** The message is fetched and its delivery recorded. */
  function Fetched(s: Sys, m: Position, outcomes: seq<bool>): Sys {
    s.(fetch := s.fetch[m.partition := m.offset + 1],
       deliveries := s.deliveries + [Delivery(m.partition, m.offset, outcomes)])
  }

  function Step(cfg: Config, s: Sys, e: Event): Sys {
    match e
    case Produce(r) => s.(records := s.records + {r}, ends := s.ends[r.partition := r.offset + 1])
    case RecvError => s
    case Deliver(m, script, publish, accepted) =>
      var n := Attempts(script);
      var s1 := Fetched(s, m, script[..n]);
      if n > 0 && script[n - 1] then Commit(s1, m, accepted) else Poisoned(cfg, s1, m, publish, accepted)
    case CrashDuring(m, tried, landed) =>
      var s1 := Fetched(s, m, tried);
      s1.(dlq := if landed then s1.dlq + [m] else s1.dlq, running := false)
    case ApplyCommit(c) => s.(committed := s.committed[c.partition := c.offset], inFlight := s.inFlight - {c})
    case LoseCommit(c) => s.(inFlight := s.inFlight - {c})
    case Restart => s.(fetch := s.committed, running := true)
  }

  function RunOf(cfg: Config, events: seq<Event>): Sys {
    if events == [] then START else Step(cfg, RunOf(cfg, events[..|events| - 1]), events[|events| - 1])
  }

  ghost predicate Legal(cfg: Config, events: seq<Event>) {
    events != [] ==>
      Legal(cfg, events[..|events| - 1]) && Enabled(cfg, RunOf(cfg, events[..|events| - 1]), events[|events| - 1])
  }

  // ---------------------------------------------------------------------
  // At least once
  // ---------------------------------------------------------------------

  ghost predicate HandledOk(cfg: Config, s: Sys, r: Position) {
    exists i :: 0 <= i < |s.deliveries| && s.deliveries[i].partition == r.partition
      && s.deliveries[i].offset == r.offset
      && Succeeded(s.deliveries[i].outcomes, cfg.retry.maxRetries)
  }

  ghost predicate GivenUp(cfg: Config, s: Sys, r: Position) {
    exists i :: 0 <= i < |s.deliveries| && s.deliveries[i].partition == r.partition
      && s.deliveries[i].offset == r.offset
      && Exhausted(s.deliveries[i].outcomes, cfg.retry.maxRetries)
  }

  /** The message was handled, or it failed every attempt of one delivery and,
      where failures must reach the dead-letter queue, it did. */
  ghost predicate Settled(cfg: Config, s: Sys, r: Position) {
    HandledOk(cfg, s, r) || (GivenUp(cfg, s, r) && (cfg.dlqAttached && cfg.haltOnFailure ==> r in s.dlq))
  }

  ghost predicate SettledBelow(cfg: Config, s: Sys, p: nat, bound: nat) {
    && bound <= Get(s.ends, p)
    && forall r :: r in s.records && r.partition == p && r.offset < bound ==> Settled(cfg, s, r)
  }

  ghost predicate Inv(cfg: Config, s: Sys) {
    && (forall r :: r in s.records ==> r.offset < Get(s.ends, r.partition))
    && (forall p: nat :: SettledBelow(cfg, s, p, Get(s.committed, p)))
    && (forall c :: c in s.inFlight ==> SettledBelow(cfg, s, c.partition, c.offset))
    && (s.running ==> forall p: nat :: SettledBelow(cfg, s, p, Get(s.fetch, p)))
    && (forall r :: r in s.dlq ==> GivenUp(cfg, s, r))
  }

  /** Histories only grow. */
  ghost predicate Extends(s: Sys, t: Sys) {
    && s.records <= t.records
    && s.deliveries <= t.deliveries
    && s.dlq <= t.dlq
    && forall p: nat :: Get(s.ends, p) <= Get(t.ends, p)
  }

  lemma EvidenceKept(cfg: Config, s: Sys, t: Sys, r: Position)
    requires Extends(s, t)
    ensures HandledOk(cfg, s, r) ==> HandledOk(cfg, t, r)
    ensures GivenUp(cfg, s, r) ==> GivenUp(cfg, t, r)
    ensures Settled(cfg, s, r) ==> Settled(cfg, t, r)
  {
    if HandledOk(cfg, s, r) {
      var i :| 0 <= i < |s.deliveries| && s.deliveries[i].partition == r.partition && s.deliveries[i].offset == r.offset
        && Succeeded(s.deliveries[i].outcomes, cfg.retry.maxRetries);
      assert t.deliveries[i] == s.deliveries[i];
    }
    if GivenUp(cfg, s, r) {
      var i :| 0 <= i < |s.deliveries| && s.deliveries[i].partition == r.partition && s.deliveries[i].offset == r.offset
        && Exhausted(s.deliveries[i].outcomes, cfg.retry.maxRetries);
      assert t.deliveries[i] == s.deliveries[i];
    }
  }

  /** A settled prefix stays settled, as long as new records come after it. */
  lemma SettledBelowKept(cfg: Config, s: Sys, t: Sys, p: nat, bound: nat)
    requires SettledBelow(cfg, s, p, bound) && Extends(s, t)
    requires forall r :: r in t.records && r !in s.records ==> Get(s.ends, r.partition) <= r.offset
    ensures SettledBelow(cfg, t, p, bound)
  {
    forall r | r in t.records && r.partition == p && r.offset < bound ensures Settled(cfg, t, r) {
      assert r in s.records;
      EvidenceKept(cfg, s, t, r);
    }
  }

  lemma ProduceKeepsInv(cfg: Config, s: Sys, r: Position)
    requires Inv(cfg, s) && Enabled(cfg, s, Produce(r))
    ensures Inv(cfg, Step(cfg, s, Produce(r)))
  {
    CarryOver(cfg, s, Step(cfg, s, Produce(r)));
  }

  /** The parts of the invariant that follow from the histories having grown. */
  lemma CarryOver(cfg: Config, s: Sys, t: Sys)
    requires Inv(cfg, s) && Extends(s, t)
    requires forall r :: r in t.records && r !in s.records ==> Get(s.ends, r.partition) <= r.offset
    ensures forall p: nat :: SettledBelow(cfg, t, p, Get(s.committed, p))
    ensures forall c :: c in s.inFlight ==> SettledBelow(cfg, t, c.partition, c.offset)
    ensures s.running ==> forall p: nat :: SettledBelow(cfg, t, p, Get(s.fetch, p))
    ensures forall r :: r in s.dlq ==> GivenUp(cfg, t, r)
  {
    forall p: nat ensures SettledBelow(cfg, t, p, Get(s.committed, p)) {
      SettledBelowKept(cfg, s, t, p, Get(s.committed, p));
    }
    forall c | c in s.inFlight ensures SettledBelow(cfg, t, c.partition, c.offset) {
      SettledBelowKept(cfg, s, t, c.partition, c.offset);
    }
    if s.running {
      forall p: nat ensures SettledBelow(cfg, t, p, Get(s.fetch, p)) {
        SettledBelowKept(cfg, s, t, p, Get(s.fetch, p));
      }
    }
    forall r | r in s.dlq ensures GivenUp(cfg, t, r) {
      EvidenceKept(cfg, s, t, r);
    }
  }

  /** Once the next message is settled, so is everything up to and including it. */
  lemma NextSettles(cfg: Config, s: Sys, t: Sys, m: Position)
    requires Inv(cfg, s) && s.running && IsNext(s, m) && Extends(s, t) && t.records == s.records && t.ends == s.ends
    requires Settled(cfg, t, m)
    ensures SettledBelow(cfg, t, m.partition, m.offset + 1)
  {
    SettledBelowKept(cfg, s, t, m.partition, Get(s.fetch, m.partition));
    forall r | r in t.records && r.partition == m.partition && r.offset < m.offset + 1 ensures Settled(cfg, t, r) {
      if r.offset >= Get(s.fetch, m.partition) {
        assert m.offset <= r.offset;
        assert r == m;
      }
    }
  }

  lemma DeliveryEvidence(cfg: Config, s: Sys, m: Position, outcomes: seq<bool>)
    ensures var t := Fetched(s, m, outcomes);
      (Succeeded(outcomes, cfg.retry.maxRetries) ==> HandledOk(cfg, t, m))
      && (Exhausted(outcomes, cfg.retry.maxRetries) ==> GivenUp(cfg, t, m))
  {
    var t := Fetched(s, m, outcomes);
    assert t.deliveries[|s.deliveries|] == Delivery(m.partition, m.offset, outcomes);
  }

  /** A delivery that lets the loop go on has settled its message. */
  lemma DeliverSettles(cfg: Config, s: Sys, e: Event)
    requires e.Deliver? && |e.script| == cfg.retry.maxRetries + 1
    ensures var t := Step(cfg, s, e);
      (t.running && s.running ==> Settled(cfg, t, e.message))
      && (t.dlq != s.dlq ==> t.dlq == s.dlq + [e.message] && GivenUp(cfg, t, e.message))
      && Extends(s, t)
  {
    var m, n := e.message, Attempts(e.script);
    var f, t := Fetched(s, m, e.script[..n]), Step(cfg, s, e);
    ScriptOutcome(e.script, cfg.retry.maxRetries);
    DeliveryEvidence(cfg, s, m, e.script[..n]);
    EvidenceKept(cfg, f, t, m);
  }

  /** Fetching the next message keeps the invariant, provided the message is
      settled if the loop goes on, and only then committed. */
  lemma AdvanceKeepsInv(cfg: Config, s: Sys, t: Sys, m: Position)
    requires Inv(cfg, s) && s.running && IsNext(s, m) && Extends(s, t)
    requires t.records == s.records && t.ends == s.ends && t.committed == s.committed
    requires t.fetch == s.fetch[m.partition := m.offset + 1]
    requires t.running ==> Settled(cfg, t, m)
    requires t.inFlight == s.inFlight || (t.running && t.inFlight == s.inFlight + {Position(m.partition, m.offset + 1)})
    requires t.dlq == s.dlq || (t.dlq == s.dlq + [m] && GivenUp(cfg, t, m))
    ensures Inv(cfg, t)
  {
    CarryOver(cfg, s, t);
    if t.running {
      NextSettles(cfg, s, t, m);
      forall p: nat ensures SettledBelow(cfg, t, p, Get(t.fetch, p)) {
        assert p != m.partition ==> Get(t.fetch, p) == Get(s.fetch, p);
      }
    }
  }

  /** One iteration of the loop keeps the invariant, whatever the handler, the
      dead-letter producer and the commit answer. */
  lemma DeliverKeepsInv(cfg: Config, s: Sys, e: Event)
    requires Inv(cfg, s) && e.Deliver? && Enabled(cfg, s, e)
    ensures Inv(cfg, Step(cfg, s, e))
  {
    DeliverSettles(cfg, s, e);
    AdvanceKeepsInv(cfg, s, Step(cfg, s, e), e.message);
  }

  lemma CrashKeepsInv(cfg: Config, s: Sys, e: Event)
    requires Inv(cfg, s) && e.CrashDuring? && Enabled(cfg, s, e)
    ensures Inv(cfg, Step(cfg, s, e))
  {
    var f, t := Fetched(s, e.message, e.tried), Step(cfg, s, e);
    DeliveryEvidence(cfg, s, e.message, e.tried);
    EvidenceKept(cfg, f, t, e.message);
    AdvanceKeepsInv(cfg, s, t, e.message);
  }

  lemma ApplyKeepsInv(cfg: Config, s: Sys, e: Event)
    requires Inv(cfg, s) && e.ApplyCommit? && Enabled(cfg, s, e)
    ensures Inv(cfg, Step(cfg, s, e))
  {
    var c, t := e.commit, Step(cfg, s, e);
    CarryOver(cfg, s, t);
    forall p: nat ensures SettledBelow(cfg, t, p, Get(t.committed, p)) {
      assert p != c.partition ==> Get(t.committed, p) == Get(s.committed, p);
    }
  }

  lemma StepKeepsInv(cfg: Config, s: Sys, e: Event)
    requires Inv(cfg, s) && Enabled(cfg, s, e)
    ensures Inv(cfg, Step(cfg, s, e))
  {
    match e
    case Produce(r) => ProduceKeepsInv(cfg, s, r);
    case RecvError =>
    case Deliver(_, _, _, _) => DeliverKeepsInv(cfg, s, e);
    case CrashDuring(_, _, _) => CrashKeepsInv(cfg, s, e);
    case ApplyCommit(_) => ApplyKeepsInv(cfg, s, e);
    case LoseCommit(_) => CarryOver(cfg, s, Step(cfg, s, e));
    case Restart => CarryOver(cfg, s, Step(cfg, s, e));
  }

  lemma {:induction false} RunKeepsInv(cfg: Config, events: seq<Event>)
    requires Legal(cfg, events)
    ensures Inv(cfg, RunOf(cfg, events))
  {
    if events != [] {
      RunKeepsInv(cfg, events[..|events| - 1]);
      StepKeepsInv(cfg, RunOf(cfg, events[..|events| - 1]), events[|events| - 1]);
    }
  }

  /** At least once: in every run, every record below a partition's committed
      offset had its handler return Ok, or fail exactly maxRetries + 1 times in
      one delivery; with a dead-letter queue whose failures are fatal, such a
      record is in the queue. Only given-up records ever enter the queue. */
  lemma AtLeastOnce(cfg: Config, events: seq<Event>, r: Position)
    requires Legal(cfg, events)
    ensures var s := RunOf(cfg, events);
      (r in s.records && r.offset < Get(s.committed, r.partition) ==>
         HandledOk(cfg, s, r) || (GivenUp(cfg, s, r) && (cfg.dlqAttached && cfg.haltOnFailure ==> r in s.dlq)))
      && (r in s.dlq ==> GivenUp(cfg, s, r))
  {
    RunKeepsInv(cfg, events);
    assert SettledBelow(cfg, RunOf(cfg, events), r.partition, Get(RunOf(cfg, events).committed, r.partition));
  }

  // ---------------------------------------------------------------------
  // When nothing is lost silently
  // ---------------------------------------------------------------------

  /** Every committed record was handled or is in the dead-letter queue. */
  ghost predicate NothingLost(cfg: Config, s: Sys) {
    forall r :: r in s.records && r.offset < Get(s.committed, r.partition) ==> HandledOk(cfg, s, r) || r in s.dlq
  }

  ghost predicate NeverLoses(cfg: Config) {
    forall events :: Legal(cfg, events) ==> NothingLost(cfg, RunOf(cfg, events))
  }

  function Failures(n: nat): (script: seq<bool>)
    ensures |script| == n && AllFailed(script)
  {
    seq(n, _ => false)
  }

  /** A run that commits past a message nobody handled or kept. */
  function LosingRun(cfg: Config): seq<Event> {
    [Produce(Position(0, 0)),
     Deliver(Position(0, 0), Failures(cfg.retry.maxRetries + 1), Lost, true),
     ApplyCommit(Position(0, 1))]
  }

  /** A handler that never returns Ok exhausts its attempts. */
  lemma FailedDelivery(cfg: Config, s: Sys, m: Position, publish: Publish)
    ensures var fails := Failures(cfg.retry.maxRetries + 1);
      Step(cfg, s, Deliver(m, fails, publish, true)) == Poisoned(cfg, Fetched(s, m, fails), m, publish, true)
  {
    var fails := Failures(cfg.retry.maxRetries + 1);
    AttemptsAllFailed(fails);
    assert fails[..|fails|] == fails;
  }

  lemma LosingRunLoses(cfg: Config)
    requires !(cfg.dlqAttached && cfg.haltOnFailure)
    ensures Legal(cfg, LosingRun(cfg)) && !NothingLost(cfg, RunOf(cfg, LosingRun(cfg)))
  {
    var es, fails := LosingRun(cfg), Failures(cfg.retry.maxRetries + 1);
    FailedDelivery(cfg, Step(cfg, START, es[0]), Position(0, 0), Lost);
    RunOfThree(cfg, es[0], es[1], es[2]);
    assert es == [es[0], es[1], es[2]];
    var s1 := Step(cfg, START, es[0]);
    var s2 := Step(cfg, s1, es[1]);
    var s3 := Step(cfg, s2, es[2]);
    assert s2.inFlight == {Position(0, 1)} && s2.deliveries == [Delivery(0, 0, fails)];
    assert Position(0, 0) in s3.records && Get(s3.committed, 0) == 1;
    assert !HandledOk(cfg, s3, Position(0, 0));
  }

  lemma RunOfThree(cfg: Config, a: Event, b: Event, c: Event)
    ensures var s1 := Step(cfg, START, a);
      var s2 := Step(cfg, s1, b);
      RunOf(cfg, [a, b, c]) == Step(cfg, s2, c)
      && (Enabled(cfg, START, a) && Enabled(cfg, s1, b) && Enabled(cfg, s2, c) ==> Legal(cfg, [a, b, c]))
  {
    RunSnoc(cfg, [], a);
    RunSnoc(cfg, [a], b);
    RunSnoc(cfg, [a, b], c);
    assert [] + [a] == [a] && [a] + [b] == [a, b] && [a, b] + [c] == [a, b, c];
  }

  lemma RunSnoc(cfg: Config, events: seq<Event>, e: Event)
    ensures RunOf(cfg, events + [e]) == Step(cfg, RunOf(cfg, events), e)
    ensures Legal(cfg, events + [e]) <==> Legal(cfg, events) && Enabled(cfg, RunOf(cfg, events), e)
  {
    assert (events + [e])[..|events|] == events;
  }

  /** The consumer never commits past an unhandled message that is not in the
      dead-letter queue exactly when a queue is attached and its failures are fatal. */
  lemma NeverLosesExactly(cfg: Config)
    ensures NeverLoses(cfg) <==> cfg.dlqAttached && cfg.haltOnFailure
  {
    if cfg.dlqAttached && cfg.haltOnFailure {
      forall events | Legal(cfg, events) ensures NothingLost(cfg, RunOf(cfg, events)) {
        var s := RunOf(cfg, events);
        forall r | r in s.records && r.offset < Get(s.committed, r.partition)
          ensures HandledOk(cfg, s, r) || r in s.dlq
        {
          AtLeastOnce(cfg, events, r);
        }
      }
    } else {
      LosingRunLoses(cfg);
    }
  }

  // ---------------------------------------------------------------------
  // Redelivery
  // ---------------------------------------------------------------------

  /** Deliveries of a partition come in increasing offset order. */
  ghost predicate InOrder(ds: seq<Delivery>) {
    forall i, j :: 0 <= i < j < |ds| && ds[i].partition == ds[j].partition ==> ds[i].offset < ds[j].offset
  }

  ghost predicate BehindFetch(s: Sys) {
    forall i :: 0 <= i < |s.deliveries| ==> s.deliveries[i].offset < Get(s.fetch, s.deliveries[i].partition)
  }

  /** Within one incarnation of the process no message is delivered twice. */
  lemma {:induction false} NoRedeliveryWithoutRestart(cfg: Config, events: seq<Event>)
    requires Legal(cfg, events) && forall i :: 0 <= i < |events| ==> !events[i].Restart?
    ensures InOrder(RunOf(cfg, events).deliveries) && BehindFetch(RunOf(cfg, events))
  {
    if events != [] {
      var n := |events| - 1;
      NoRedeliveryWithoutRestart(cfg, events[..n]);
      StepKeepsOrder(cfg, RunOf(cfg, events[..n]), events[n]);
    }
  }

  lemma FetchedKeepsOrder(s: Sys, m: Position, outcomes: seq<bool>)
    requires IsNext(s, m) && InOrder(s.deliveries) && BehindFetch(s)
    ensures InOrder(Fetched(s, m, outcomes).deliveries) && BehindFetch(Fetched(s, m, outcomes))
  {}

  lemma StepKeepsOrder(cfg: Config, s: Sys, e: Event)
    requires Enabled(cfg, s, e) && !e.Restart? && InOrder(s.deliveries) && BehindFetch(s)
    ensures InOrder(Step(cfg, s, e).deliveries) && BehindFetch(Step(cfg, s, e))
  {
    var t := Step(cfg, s, e);
    if e.Deliver? || e.CrashDuring? {
      var outcomes := if e.Deliver? then e.script[..Attempts(e.script)] else e.tried;
      var f := Fetched(s, e.message, outcomes);
      FetchedKeepsOrder(s, e.message, outcomes);
      assert t.deliveries == f.deliveries && t.fetch == f.fetch;
    } else {
      assert t.deliveries == s.deliveries && t.fetch == s.fetch;
    }
  }

  /** A message whose commit was accepted can still be delivered again: the
      commit is only in flight when the process dies. */
  lemma AcceptedCommitCanBeLost(cfg: Config)
    ensures exists events :: Legal(cfg, events) && !InOrder(RunOf(cfg, events).deliveries)
  {
    var m, ok := Position(0, 0), [true] + Failures(cfg.retry.maxRetries);
    var a, b := Produce(m), Deliver(m, ok, Lost, true);
    RunOfThree(cfg, a, b, Restart);
    RunSnoc(cfg, [a, b, Restart], b);
    var s := RunOf(cfg, [a, b, Restart]);
    assert s.records == {m} && s.fetch == map[] && s.running && |s.deliveries| == 1;
    var t := Step(cfg, s, b);
    assert t.deliveries[0].offset == t.deliveries[1].offset == 0;
    assert !InOrder(t.deliveries);
  }

  ghost predicate Calm(events: seq<Event>) {
    forall i :: 0 <= i < |events| ==> !events[i].Restart?
  }

  /** The message is among the deliveries from index `from` on. */
  ghost predicate DeliveredFrom(s: Sys, r: Position, from: nat) {
    exists j :: from <= j < |s.deliveries| && s.deliveries[j].partition == r.partition
      && s.deliveries[j].offset == r.offset
  }

  /** After a restart and no other, the continuation delivers the message. */
  ghost predicate DeliversAfterRestart(cfg: Config, events: seq<Event>, more: seq<Event>, r: Position) {
    var run := (events + [Restart]) + more;
    Legal(cfg, run) && Calm(more) && DeliveredFrom(RunOf(cfg, run), r, |RunOf(cfg, events).deliveries|)
  }

  /** After any run, a message delivered before can be delivered again after a
      restart exactly when its offset is not below the broker's committed one,
      whether or not its own commit was accepted. */
  lemma RedeliveryExactly(cfg: Config, events: seq<Event>, r: Position)
    requires Legal(cfg, events) && DeliveredFrom(RunOf(cfg, events), r, 0)
    ensures (exists more :: DeliversAfterRestart(cfg, events, more, r))
      <==> r.offset >= Get(RunOf(cfg, events).committed, r.partition)
  {
    var s, restarted := RunOf(cfg, events), events + [Restart];
    RunSnoc(cfg, events, Restart);
    if r.offset >= Get(s.committed, r.partition) {
      DeliveredAreRecords(cfg, events);
      var more := Reach(cfg, restarted, r);
      assert DeliversAfterRestart(cfg, events, more, r);
    }
    if more :| DeliversAfterRestart(cfg, events, more, r) {
      NewDeliveriesPastFetch(cfg, restarted, more);
    }
  }

  /** What a step adds: at most one delivery, of the next message. */
  lemma StepOutcome(cfg: Config, s: Sys, e: Event)
    requires Enabled(cfg, s, e)
    ensures var t := Step(cfg, s, e);
      && s.records <= t.records
      && (e.Deliver? || e.CrashDuring? ==>
            && |t.deliveries| == |s.deliveries| + 1 && s.deliveries <= t.deliveries
            && t.deliveries[|s.deliveries|].partition == e.message.partition
            && t.deliveries[|s.deliveries|].offset == e.message.offset
            && e.message in s.records && Get(s.fetch, e.message.partition) <= e.message.offset
            && t.fetch == s.fetch[e.message.partition := e.message.offset + 1])
      && (!e.Deliver? && !e.CrashDuring? ==> t.deliveries == s.deliveries && (e.Restart? || t.fetch == s.fetch))
  {
    if e.Deliver? || e.CrashDuring? {
      var outcomes := if e.Deliver? then e.script[..Attempts(e.script)] else e.tried;
      assert Step(cfg, s, e).deliveries == Fetched(s, e.message, outcomes).deliveries;
    }
  }

  ghost predicate RecordsOnly(s: Sys) {
    forall i :: 0 <= i < |s.deliveries| ==> Position(s.deliveries[i].partition, s.deliveries[i].offset) in s.records
  }

  lemma {:induction false} DeliveredAreRecords(cfg: Config, events: seq<Event>)
    requires Legal(cfg, events)
    ensures RecordsOnly(RunOf(cfg, events))
  {
    if events != [] {
      var n := |events| - 1;
      DeliveredAreRecords(cfg, events[..n]);
      StepKeepsRecordsOnly(cfg, RunOf(cfg, events[..n]), events[n]);
    }
  }

  lemma StepKeepsRecordsOnly(cfg: Config, s: Sys, e: Event)
    requires Enabled(cfg, s, e) && RecordsOnly(s)
    ensures RecordsOnly(Step(cfg, s, e))
  {
    var t := Step(cfg, s, e);
    StepOutcome(cfg, s, e);
    forall i | 0 <= i < |t.deliveries|
      ensures Position(t.deliveries[i].partition, t.deliveries[i].offset) in t.records
    {
      if i < |s.deliveries| {
        assert t.deliveries[i] == s.deliveries[i];
      }
    }
  }

  /** What t has delivered since s lies at or past the fetch positions of s. */
  ghost predicate PastFetch(s: Sys, t: Sys) {
    && s.deliveries <= t.deliveries
    && (forall p: nat :: Get(s.fetch, p) <= Get(t.fetch, p))
    && forall j :: |s.deliveries| <= j < |t.deliveries| ==>
      Get(s.fetch, t.deliveries[j].partition) <= t.deliveries[j].offset
  }

  lemma StepKeepsPastFetch(cfg: Config, s: Sys, t: Sys, e: Event)
    requires PastFetch(s, t) && Enabled(cfg, t, e) && !e.Restart?
    ensures PastFetch(s, Step(cfg, t, e))
  {
    var u := Step(cfg, t, e);
    StepOutcome(cfg, t, e);
    forall j | |s.deliveries| <= j < |u.deliveries|
      ensures Get(s.fetch, u.deliveries[j].partition) <= u.deliveries[j].offset
    {
      if j < |t.deliveries| {
        assert u.deliveries[j] == t.deliveries[j];
      }
    }
  }

  lemma {:induction false} NewDeliveriesPastFetch(cfg: Config, run: seq<Event>, more: seq<Event>)
    requires Legal(cfg, run + more) && Calm(more)
    ensures PastFetch(RunOf(cfg, run), RunOf(cfg, run + more))
  {
    if more == [] {
      assert run + more == run;
    } else {
      var n := |more| - 1;
      assert run + more == (run + more[..n]) + [more[n]];
      RunSnoc(cfg, run + more[..n], more[n]);
      NewDeliveriesPastFetch(cfg, run, more[..n]);
      StepKeepsPastFetch(cfg, RunOf(cfg, run), RunOf(cfg, run + more[..n]), more[n]);
    }
  }

  /** Some record of the partition is the next one, no later than r. */
  lemma {:induction false} NextUpTo(s: Sys, r: Position) returns (m: Position)
    requires r in s.records && Get(s.fetch, r.partition) <= r.offset
    ensures IsNext(s, m) && m.partition == r.partition && m.offset <= r.offset
    decreases r.offset
  {
    if r' :| r' in s.records && r'.partition == r.partition && Get(s.fetch, r.partition) <= r'.offset < r.offset {
      m := NextUpTo(s, r');
    } else {
      m := r;
    }
  }

  /** A delivery whose handler returns Ok at once. */
  function Success(cfg: Config, m: Position): Event {
    Deliver(m, [true] + Failures(cfg.retry.maxRetries), Lost, true)
  }

  lemma SuccessStep(cfg: Config, s: Sys, m: Position)
    requires s.running && IsNext(s, m)
    ensures var t := Step(cfg, s, Success(cfg, m));
      && Enabled(cfg, s, Success(cfg, m)) && t.running && t.records == s.records
      && Get(t.fetch, m.partition) == m.offset + 1
      && |t.deliveries| == |s.deliveries| + 1
      && t.deliveries[|s.deliveries|].partition == m.partition && t.deliveries[|s.deliveries|].offset == m.offset
  {
    StepOutcome(cfg, s, Success(cfg, m));
  }

  lemma PrefixMoves(run: seq<Event>, e: Event, rest: seq<Event>)
    ensures run + ([e] + rest) == (run + [e]) + rest
    ensures Calm(rest) && !e.Restart? ==> Calm([e] + rest)
  {}

  /** A running consumer whose handler succeeds reaches every record ahead of it. */
  lemma {:induction false} Reach(cfg: Config, run: seq<Event>, r: Position) returns (more: seq<Event>)
    requires Legal(cfg, run) && RunOf(cfg, run).running
    requires r in RunOf(cfg, run).records && Get(RunOf(cfg, run).fetch, r.partition) <= r.offset
    ensures Legal(cfg, run + more) && Calm(more)
    ensures |RunOf(cfg, run + more).deliveries| > |RunOf(cfg, run).deliveries|
    ensures DeliveredFrom(RunOf(cfg, run + more), r, |RunOf(cfg, run).deliveries|)
    decreases r.offset - Get(RunOf(cfg, run).fetch, r.partition)
  {
    var s := RunOf(cfg, run);
    var m := NextUpTo(s, r);
    var e := Success(cfg, m);
    SuccessStep(cfg, s, m);
    RunSnoc(cfg, run, e);
    if m == r {
      more := [e];
    } else {
      var rest := Reach(cfg, run + [e], r);
      more := [e] + rest;
      PrefixMoves(run, e, rest);
    }
  }

  /** In every configuration some run commits past a message whose handler never
      returned Ok: a dead letter that was acknowledged is committed past too. */
  lemma CommittedWithoutOk(cfg: Config)
    ensures exists events, r :: Legal(cfg, events) && var s := RunOf(cfg, events);
      r in s.records && r.offset < Get(s.committed, r.partition) && !HandledOk(cfg, s, r)
  {
    var m, fails := Position(0, 0), Failures(cfg.retry.maxRetries + 1);
    var a, b, c := Produce(m), Deliver(m, fails, Acknowledged, true), ApplyCommit(Position(0, 1));
    var s1 := Step(cfg, START, a);
    FailedDelivery(cfg, s1, m, Acknowledged);
    var s2 := Step(cfg, s1, b);
    assert s2.inFlight == {Position(0, 1)} && s2.deliveries == [Delivery(0, 0, fails)];
    RunOfThree(cfg, a, b, c);
    var s3 := RunOf(cfg, [a, b, c]);
    assert m in s3.records && m.offset < Get(s3.committed, m.partition) && !HandledOk(cfg, s3, m);
  }

  // ---------------------------------------------------------------------
  // The consumer loop itself
  // ---------------------------------------------------------------------

  class Consumer {
    const config: Config
    var records: set<Position>
    var ends: map<nat, nat>
    var committed: map<nat, nat>
    var inFlight: set<Position>
    var fetch: map<nat, nat>
    var deliveries: seq<Delivery>
    var dlq: seq<Position>
    var running: bool

    constructor (config: Config)
      ensures this.config == config && State() == START
    {
      this.config := config;
      records, ends, committed, inFlight, fetch := {}, map[], map[], {}, map[];
      deliveries, dlq, running := [], [], true;
    }

    ghost function State(): Sys
      reads this
    {
      Sys(records, ends, committed, inFlight, fetch, deliveries, dlq, running)
    }

    method CommitOffset(m: Position, accepted: bool)
      modifies this
      ensures State() == Commit(old(State()), m, accepted)
    {
      if accepted {
        inFlight := inFlight + {Position(m.partition, m.offset + 1)};
      } else {
        running := false;
      }
    }

    /** One pass of the loop over a received message. */
    method ProcessMessage(m: Position, script: seq<bool>, publish: Publish, commitAccepted: bool)
      requires running && IsNext(State(), m) && |script| == config.retry.maxRetries + 1
      modifies this
      ensures State() == Step(config, old(State()), Deliver(m, script, publish, commitAccepted))
    {
      fetch := fetch[m.partition := m.offset + 1];
      var ok, attempts, _ := RunWithRetry(config.retry, script);
      deliveries := deliveries + [Delivery(m.partition, m.offset, script[..attempts])];
      assert State() == Fetched(old(State()), m, script[..attempts]);
      if ok {
        CommitOffset(m, commitAccepted);
      } else {
        GiveUp(m, publish, commitAccepted);
      }
    }

    /** The `Err` arm: dead-letter, then commit past the poison message. */
    method GiveUp(m: Position, publish: Publish, commitAccepted: bool)
      modifies this
      ensures State() == Poisoned(config, old(State()), m, publish, commitAccepted)
    {
      if config.dlqAttached {
        if publish != Lost {
          dlq := dlq + [m];
        }
        if publish != Acknowledged {
          if config.haltOnFailure {
            running := false;
            return;
          }
        }
      }
      CommitOffset(m, commitAccepted);
    }

    /** What one `recv` brings: a message, or an error that is only logged. */
    method Receive(input: Event)
      requires running && (input.RecvError? || input.Deliver?) && Enabled(config, State(), input)
      modifies this
      ensures State() == Step(config, old(State()), input)
    {
      match input {
        case Deliver(m, script, publish, commitAccepted) =>
          ProcessMessage(m, script, publish, commitAccepted);
        case RecvError =>
      }
    }

    /** The loop, over what the broker and the handler do: it ends early only
        when a commit or a fatal dead-letter publish fails. */
    method Run(inputs: seq<Event>) returns (consumed: nat)
      requires running
      requires forall i :: 0 <= i < |inputs| ==> inputs[i].RecvError? || inputs[i].Deliver?
      requires AllEnabled(config, State(), inputs)
      modifies this
      ensures consumed <= |inputs|
      ensures State() == StepAll(config, old(State()), inputs[..consumed])
      ensures running ==> consumed == |inputs|
    {
      consumed := 0;
      assert inputs[..0] == [];
      while consumed < |inputs| && running
        invariant consumed <= |inputs|
        invariant State() == StepAll(config, old(State()), inputs[..consumed])
      {
        StepAllOneMore(config, old(State()), inputs, consumed);
        Receive(inputs[consumed]);
        consumed := consumed + 1;
      }
    }
  }

  function StepAll(cfg: Config, s: Sys, events: seq<Event>): Sys {
    if events == [] then s else Step(cfg, StepAll(cfg, s, events[..|events| - 1]), events[|events| - 1])
  }

  lemma StepAllOneMore(cfg: Config, s: Sys, events: seq<Event>, k: nat)
    requires k < |events|
    ensures StepAll(cfg, s, events[..k + 1]) == Step(cfg, StepAll(cfg, s, events[..k]), events[k])
  {
    assert events[..k + 1][..k] == events[..k];
  }

  /** Each input is one the consumer can receive at its turn, as long as it runs. */
  ghost predicate AllEnabled(cfg: Config, s: Sys, events: seq<Event>) {
    forall k :: 0 <= k < |events| && StepAll(cfg, s, events[..k]).running ==>
      Enabled(cfg, StepAll(cfg, s, events[..k]), events[k])
  }
}
