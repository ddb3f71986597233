/** The router's duplicate filter: a map from order id to the time it was last
    let through, swept of expired entries only when it has grown large. */
module OrderDedup {

  const SWEEP_SIZE: nat := 10_000

  datatype Call = Call(id: string, now: int)

  predicate Live(ts: int, now: int, ttl: nat) {
    now - ts <= ttl
  }

  /** `retain` of the entries still within the time to live. */
  function Swept(entries: map<string, int>, now: int, ttl: nat): map<string, int> {
    if |entries| < SWEEP_SIZE then entries
    else map k | k in entries && Live(entries[k], now, ttl) :: entries[k]
  }

  /** Whether the id was let through recently. */
  predicate Seen(entries: map<string, int>, c: Call, ttl: nat) {
    c.id in entries && Live(entries[c.id], c.now, ttl)
  }

  function Next(entries: map<string, int>, c: Call, ttl: nat): map<string, int> {
    var kept := Swept(entries, c.now, ttl);
    if Seen(kept, c, ttl) then kept else kept[c.id := c.now]
  }

  class DedupCache {
    const ttl: nat
    var entries: map<string, int>

    constructor (ttl: nat)
      ensures this.ttl == ttl && entries == map[]
    {
      this.ttl := ttl;
      entries := map[];
    }

    method SeenRecentlyOrInsert(c: Call) returns (seen: bool)
      modifies this
      ensures seen == Seen(Swept(old(entries), c.now, ttl), c, ttl)
      ensures entries == Next(old(entries), c, ttl)
    {
      CleanupIfNeeded(c.now);
      if c.id in entries {
        if c.now - entries[c.id] <= ttl {
          return true;
        }
      }
      entries := entries[c.id := c.now];
      return false;
    }

    method CleanupIfNeeded(now: int)
      modifies this
      ensures entries == Swept(old(entries), now, ttl)
    {
      if |entries| < SWEEP_SIZE {
        return;
      }
      entries := map k | k in entries && now - entries[k] <= ttl :: entries[k];
    }
  }

  // ---------------------------------------------------------------------
  // Whole runs
  // ---------------------------------------------------------------------

  function EntriesAfter(calls: seq<Call>, ttl: nat): map<string, int> {
    if calls == [] then map[] else Next(EntriesAfter(calls[..|calls| - 1], ttl), calls[|calls| - 1], ttl)
  }

  /** The answer to a call after a run of earlier ones. */
  predicate Rejected(earlier: seq<Call>, c: Call, ttl: nat) {
    Seen(Swept(EntriesAfter(earlier, ttl), c.now, ttl), c, ttl)
  }

  /** The map that is never swept. */
  function FullAfter(calls: seq<Call>, ttl: nat): map<string, int> {
    if calls == [] then map[]
    else
      var full, c := FullAfter(calls[..|calls| - 1], ttl), calls[|calls| - 1];
      if Seen(full, c, ttl) then full else full[c.id := c.now]
  }

  ghost predicate ClockAdvances(calls: seq<Call>) {
    forall i, j :: 0 <= i < j < |calls| ==> calls[i].now <= calls[j].now
  }

  /** What the cache lacks of the full map is expired at every later time. */
  ghost predicate LacksOnlyExpired(entries: map<string, int>, full: map<string, int>, now: int, ttl: nat) {
    && (forall k :: k in entries ==> k in full && full[k] == entries[k])
    && (forall k :: k in full && k !in entries ==> !Live(full[k], now, ttl))
  }

  lemma SweepLacksOnlyExpired(entries: map<string, int>, full: map<string, int>, before: int, now: int, ttl: nat)
    requires LacksOnlyExpired(entries, full, before, ttl) && before <= now
    ensures LacksOnlyExpired(Swept(entries, now, ttl), full, now, ttl)
  {}

  lemma {:induction false} CacheLacksOnlyExpired(calls: seq<Call>, now: int, ttl: nat)
    requires ClockAdvances(calls) && (calls != [] ==> calls[|calls| - 1].now <= now)
    ensures LacksOnlyExpired(EntriesAfter(calls, ttl), FullAfter(calls, ttl), now, ttl)
  {
    if calls != [] {
      var n := |calls| - 1;
      CacheLacksOnlyExpired(calls[..n], calls[n].now, ttl);
      SweepLacksOnlyExpired(EntriesAfter(calls[..n], ttl), FullAfter(calls[..n], ttl), calls[n].now, calls[n].now, ttl);
    }
  }

  /** Sweeping is invisible: every call is answered as by the map that never
      forgets, at any size of the cache. */
  lemma SweepingIsInvisible(earlier: seq<Call>, c: Call, ttl: nat)
    requires ClockAdvances(earlier + [c])
    ensures Rejected(earlier, c, ttl) <==> Seen(FullAfter(earlier, ttl), c, ttl)
  {
    var all := earlier + [c];
    assert forall i :: 0 <= i < |earlier| ==> all[i] == earlier[i];
    assert all[|earlier|] == c;
    CacheLacksOnlyExpired(earlier, c.now, ttl);
    SweepLacksOnlyExpired(EntriesAfter(earlier, ttl), FullAfter(earlier, ttl), c.now, c.now, ttl);
  }

  ghost predicate AcceptedAt(calls: seq<Call>, i: nat, ttl: nat)
    requires i < |calls|
  {
    !Rejected(calls[..i], calls[i], ttl)
  }

  /** The full map holds, for every id, the time of its latest accepted call. */
  lemma {:induction false} FullMapIsLatest(calls: seq<Call>, ttl: nat, id: string)
    requires ClockAdvances(calls)
    ensures id in FullAfter(calls, ttl) ==>
      exists i :: 0 <= i < |calls| && calls[i].id == id && AcceptedAt(calls, i, ttl)
        && calls[i].now == FullAfter(calls, ttl)[id]
    ensures forall i :: 0 <= i < |calls| && calls[i].id == id && AcceptedAt(calls, i, ttl) ==>
      id in FullAfter(calls, ttl) && calls[i].now <= FullAfter(calls, ttl)[id]
  {
    if calls != [] {
      var n := |calls| - 1;
      var past := calls[..n];
      FullMapIsLatest(past, ttl, id);
      assert past + [calls[n]] == calls;
      SweepingIsInvisible(past, calls[n], ttl);
      forall i | 0 <= i < n ensures AcceptedAt(past, i, ttl) == AcceptedAt(calls, i, ttl) {
        assert past[..i] == calls[..i];
      }
      if id in FullAfter(calls, ttl) && !(calls[n].id == id && AcceptedAt(calls, n, ttl)) {
        assert id in FullAfter(past, ttl) && FullAfter(calls, ttl)[id] == FullAfter(past, ttl)[id];
        var i :| 0 <= i < |past| && past[i].id == id && AcceptedAt(past, i, ttl)
          && past[i].now == FullAfter(past, ttl)[id];
        assert calls[i].id == id && AcceptedAt(calls, i, ttl);
      }
    }
  }

  /** A call is rejected exactly when an earlier call for the id was accepted no
      more than the time to live before it. */
  lemma RejectedExactly(calls: seq<Call>, j: nat, ttl: nat)
    requires ClockAdvances(calls) && j < |calls|
    ensures !AcceptedAt(calls, j, ttl) <==>
      exists i :: 0 <= i < j && calls[i].id == calls[j].id && AcceptedAt(calls, i, ttl)
        && calls[j].now - calls[i].now <= ttl
  {
    var past := calls[..j];
    assert past + [calls[j]] == calls[..j + 1];
    SweepingIsInvisible(past, calls[j], ttl);
    FullMapIsLatest(past, ttl, calls[j].id);
    forall i | 0 <= i < j ensures AcceptedAt(past, i, ttl) == AcceptedAt(calls, i, ttl) {
      assert past[..i] == calls[..i];
    }
    if !AcceptedAt(calls, j, ttl) {
      var i :| 0 <= i < |past| && past[i].id == calls[j].id && AcceptedAt(past, i, ttl)
        && past[i].now == FullAfter(past, ttl)[calls[j].id];
      assert calls[i].id == calls[j].id && AcceptedAt(calls, i, ttl);
    }
  }

  /** So two accepted calls for one id are always more than the time to live apart. */
  lemma AcceptedCallsApart(calls: seq<Call>, i: nat, j: nat, ttl: nat)
    requires ClockAdvances(calls) && i < j < |calls| && calls[i].id == calls[j].id
    requires AcceptedAt(calls, i, ttl) && AcceptedAt(calls, j, ttl)
    ensures calls[j].now - calls[i].now > ttl
  {
    RejectedExactly(calls, j, ttl);
  }
}
