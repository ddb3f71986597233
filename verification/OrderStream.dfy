/** The receive loop over a stream of order commands: the duplicate filter decides
    which of them reach the tables, and with that whether row and trades agree. */
module OrderStream {
  import opened OrderStore
  import OrderDedup
  import opened OrderRouter

  /** A command received at `now`, and what handling it does if it is let through. */
  datatype Receipt = Receipt(now: int, handled: Handled)

  datatype State = State(entries: map<string, int>, db: Db)

  function IdOf(r: Receipt): string {
    r.handled.order.clientOrderId
  }

  function CallOf(r: Receipt): OrderDedup.Call {
    OrderDedup.Call(IdOf(r), r.now)
  }

  /** The receive step. */
  function Received(parse: Parser, s: State, r: Receipt, ttl: nat): State
    requires ValidHandled(parse, r.handled)
  {
    if IdOf(r) == "" then s
    else
      var kept := OrderDedup.Swept(s.entries, r.now, ttl);
      State(OrderDedup.Next(s.entries, CallOf(r), ttl),
        if OrderDedup.Seen(kept, CallOf(r), ttl) then s.db else AfterHandled(parse, s.db, r.handled))
  }

  ghost predicate ValidStream(parse: Parser, stream: seq<Receipt>) {
    forall i :: 0 <= i < |stream| ==> ValidHandled(parse, stream[i].handled)
  }

  function StateAfter(parse: Parser, db: Db, stream: seq<Receipt>, ttl: nat): State
    requires ValidStream(parse, stream)
  {
    if stream == [] then State(map[], db)
    else Received(parse, StateAfter(parse, db, stream[..|stream| - 1], ttl), stream[|stream| - 1], ttl)
  }

  /** The calls that reach the filter. */
  function CallsOf(stream: seq<Receipt>): seq<OrderDedup.Call> {
    if stream == [] then []
    else
      var n := |stream| - 1;
      if IdOf(stream[n]) == "" then CallsOf(stream[..n]) else CallsOf(stream[..n]) + [CallOf(stream[n])]
  }

  predicate LetThrough(earlier: seq<Receipt>, r: Receipt, ttl: nat) {
    IdOf(r) != "" && !OrderDedup.Rejected(CallsOf(earlier), CallOf(r), ttl)
  }

  /** The commands that are handled, in order. */
  function HandledOf(stream: seq<Receipt>, ttl: nat): seq<Handled> {
    if stream == [] then []
    else
      var n := |stream| - 1;
      if LetThrough(stream[..n], stream[n], ttl) then HandledOf(stream[..n], ttl) + [stream[n].handled]
      else HandledOf(stream[..n], ttl)
  }

  lemma {:induction false} HandledAreValid(parse: Parser, stream: seq<Receipt>, ttl: nat)
    requires ValidStream(parse, stream)
    ensures ValidRun(parse, HandledOf(stream, ttl))
  {
    if stream != [] {
      HandledAreValid(parse, stream[..|stream| - 1], ttl);
    }
  }

  /** The tables after a stream are those after a run of the commands let through. */
  lemma {:induction false} StreamIsRun(parse: Parser, db: Db, stream: seq<Receipt>, ttl: nat)
    requires ValidStream(parse, stream)
    ensures ValidRun(parse, HandledOf(stream, ttl))
    ensures StateAfter(parse, db, stream, ttl).entries == OrderDedup.EntriesAfter(CallsOf(stream), ttl)
    ensures StateAfter(parse, db, stream, ttl).db == AfterRun(parse, db, HandledOf(stream, ttl))
  {
    HandledAreValid(parse, stream, ttl);
    if stream != [] {
      var n := |stream| - 1;
      StreamIsRun(parse, db, stream[..n], ttl);
      EntriesOfOneMore(CallsOf(stream[..n]), CallOf(stream[n]), ttl);
      if LetThrough(stream[..n], stream[n], ttl) {
        RunOfOneMore(parse, db, HandledOf(stream[..n], ttl), stream[n].handled);
      }
    }
  }

  lemma EntriesOfOneMore(calls: seq<OrderDedup.Call>, c: OrderDedup.Call, ttl: nat)
    ensures OrderDedup.EntriesAfter(calls + [c], ttl) == OrderDedup.Next(OrderDedup.EntriesAfter(calls, ttl), c, ttl)
  {
    assert (calls + [c])[..|calls|] == calls;
  }

  // ---------------------------------------------------------------------
  // One id
  // ---------------------------------------------------------------------

  ghost predicate Mentions(parse: Parser, r: Receipt, id: nat) {
    Names(parse, r.handled, id)
  }

  ghost predicate Unmentioned(parse: Parser, stream: seq<Receipt>, id: nat) {
    forall i :: 0 <= i < |stream| ==> !Mentions(parse, stream[i], id)
  }

  /** Every receipt of the order after the first carries the same text and comes
      within the time to live of it. */
  ghost predicate Remembered(parse: Parser, first: Receipt, later: seq<Receipt>, id: nat, ttl: nat) {
    forall j :: 0 <= j < |later| && Mentions(parse, later[j], id) ==>
      IdOf(later[j]) == IdOf(first) && later[j].now - first.now <= ttl
  }

  ghost predicate TimesAdvance(stream: seq<Receipt>) {
    forall i, j :: 0 <= i < j < |stream| ==> stream[i].now <= stream[j].now
  }

  lemma {:induction false} CallTimesAdvance(stream: seq<Receipt>)
    requires TimesAdvance(stream)
    ensures OrderDedup.ClockAdvances(CallsOf(stream))
    ensures forall i :: 0 <= i < |CallsOf(stream)| ==> CallsOf(stream)[i].now <= stream[|stream| - 1].now
  {
    if stream != [] {
      var n := |stream| - 1;
      CallTimesAdvance(stream[..n]);
      assert n > 0 ==> stream[..n][n - 1].now <= stream[n].now;
    }
  }

  /** A first receipt is let through. */
  lemma FirstIsLetThrough(parse: Parser, earlier: seq<Receipt>, first: Receipt, id: nat, ttl: nat)
    requires TimesAdvance(earlier + [first]) && IdOf(first) != ""
    requires Mentions(parse, first, id) && Unmentioned(parse, earlier, id)
    ensures LetThrough(earlier, first, ttl)
  {
    var calls := CallsOf(earlier);
    CallsAdvance(earlier, first);
    OrderDedup.SweepingIsInvisible(calls, CallOf(first), ttl);
    OrderDedup.FullMapIsLatest(calls, ttl, IdOf(first));
    NoEarlierCall(parse, earlier, first, id);
  }

  lemma {:induction false} NoEarlierCall(parse: Parser, earlier: seq<Receipt>, first: Receipt, id: nat)
    requires Mentions(parse, first, id) && Unmentioned(parse, earlier, id)
    ensures forall i :: 0 <= i < |CallsOf(earlier)| ==> CallsOf(earlier)[i].id != IdOf(first)
  {
    if earlier != [] {
      var n := |earlier| - 1;
      NoEarlierCall(parse, earlier[..n], first, id);
      assert !Mentions(parse, earlier[n], id);
    }
  }

  lemma CallsAdvance(earlier: seq<Receipt>, r: Receipt)
    requires TimesAdvance(earlier + [r]) && IdOf(r) != ""
    ensures OrderDedup.ClockAdvances(CallsOf(earlier)) && OrderDedup.ClockAdvances(CallsOf(earlier) + [CallOf(r)])
  {
    assert (earlier + [r])[..|earlier|] == earlier;
    CallTimesAdvance(earlier + [r]);
    var all := CallsOf(earlier) + [CallOf(r)];
    assert all == CallsOf(earlier + [r]);
    assert forall i :: 0 <= i < |CallsOf(earlier)| ==> CallsOf(earlier)[i] == all[i];
  }

  lemma {:induction false} CallsOfConcat(a: seq<Receipt>, b: seq<Receipt>)
    ensures CallsOf(a + b) == CallsOf(a) + CallsOf(b)
  {
    if b == [] {
      assert a + b == a;
    } else {
      var n := |b| - 1;
      assert (a + b)[..|a| + n] == a + b[..n];
      CallsOfConcat(a, b[..n]);
    }
  }

  /** While it is remembered, a repeated receipt is not let through. */
  lemma RepeatIsStopped(earlier: seq<Receipt>, first: Receipt, later: seq<Receipt>, r: Receipt, ttl: nat)
    requires TimesAdvance(((earlier + [first]) + later) + [r])
    requires IdOf(r) == IdOf(first) && r.now - first.now <= ttl && LetThrough(earlier, first, ttl)
    ensures !LetThrough((earlier + [first]) + later, r, ttl)
  {
    var before := (earlier + [first]) + later;
    var calls, k := CallsOf(before), |CallsOf(earlier)|;
    CallsAdvance(before, r);
    CallsOfConcat(earlier + [first], later);
    CallsOfConcat(earlier, [first]);
    assert [first][..0] == [];
    assert CallsOf([first]) == [CallOf(first)];
    assert calls[..k] == CallsOf(earlier) && calls[k] == CallOf(first);
    OrderDedup.SweepingIsInvisible(calls, CallOf(r), ttl);
    OrderDedup.FullMapIsLatest(calls, ttl, IdOf(r));
    assert OrderDedup.AcceptedAt(calls, k, ttl);
  }

  /** After the first, no receipt of the order is handled. */
  lemma {:induction false} LaterAreUnnamed(parse: Parser, earlier: seq<Receipt>, first: Receipt, later: seq<Receipt>,
                                           id: nat, ttl: nat)
    returns (rest: seq<Handled>)
    requires TimesAdvance((earlier + [first]) + later) && IdOf(first) != "" && LetThrough(earlier, first, ttl)
    requires Remembered(parse, first, later, id, ttl)
    ensures HandledOf((earlier + [first]) + later, ttl) == (HandledOf(earlier, ttl) + [first.handled]) + rest
    ensures Unnamed(parse, rest, id)
  {
    var stream := (earlier + [first]) + later;
    if later == [] {
      assert stream == earlier + [first] && stream[..|earlier|] == earlier;
      rest := [];
    } else {
      var n := |later| - 1;
      var before := (earlier + [first]) + later[..n];
      assert stream == before + [later[n]] && stream[..|before|] == before;
      TimesOfPrefix(before, later[n]);
      var rest' := LaterAreUnnamed(parse, earlier, first, later[..n], id, ttl);
      if Mentions(parse, later[n], id) {
        RepeatIsStopped(earlier, first, later[..n], later[n], ttl);
      }
      rest := if LetThrough(before, later[n], ttl) then rest' + [later[n].handled] else rest';
    }
  }

  lemma TimesOfPrefix(before: seq<Receipt>, r: Receipt)
    requires TimesAdvance(before + [r])
    ensures TimesAdvance(before)
  {
    assert forall i :: 0 <= i < |before| ==> before[i] == (before + [r])[i];
  }

  lemma {:induction false} EarlierAreUnnamed(parse: Parser, earlier: seq<Receipt>, id: nat, ttl: nat)
    requires Unmentioned(parse, earlier, id)
    ensures Unnamed(parse, HandledOf(earlier, ttl), id)
  {
    if earlier != [] {
      EarlierAreUnnamed(parse, earlier[..|earlier| - 1], id, ttl);
    }
  }

  /** Row and trades of an order agree after every stream in which each repeated
      receipt of it carries the same text and comes within the time to live of
      the first, whatever else is received and whatever fails. */
  lemma RememberedOrderAgrees(parse: Parser, db: Db, earlier: seq<Receipt>, first: Receipt, later: seq<Receipt>,
                              id: nat, ttl: nat)
    requires var stream := (earlier + [first]) + later; ValidStream(parse, stream) && TimesAdvance(stream)
    requires CommitsFreeKeys(db.trades, first.handled) && id !in db.orders && TradedQty(db.trades, id) == 0.0
    requires IdOf(first) != "" && Mentions(parse, first, id) && Unmentioned(parse, earlier, id)
    requires Remembered(parse, first, later, id, ttl)
    ensures OrderSettles(StateAfter(parse, db, (earlier + [first]) + later, ttl).db, id, first.handled)
  {
    var stream := (earlier + [first]) + later;
    assert forall i :: 0 <= i < |earlier + [first]| ==> (earlier + [first])[i] == stream[i];
    FirstIsLetThrough(parse, earlier, first, id, ttl);
    EarlierAreUnnamed(parse, earlier, id, ttl);
    var rest := LaterAreUnnamed(parse, earlier, first, later, id, ttl);
    StreamIsRun(parse, db, stream, ttl);
    OrderHandledOnceAgrees(parse, db, HandledOf(earlier, ttl), first.handled, rest, id);
  }
}
