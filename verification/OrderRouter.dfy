/** The paper execution path: an order command becomes simulated reports, which are
    persisted one by one behind the duplicate filter. */
module OrderRouter {
  import opened Numbers
  import opened OrderStore
  import opened OrderDedup

  // ---------------------------------------------------------------------
  // Reports
  // ---------------------------------------------------------------------

  function BaseReport(order: OrderCommand, now: int): ExecutionReport {
    ExecutionReport(STATUS_NEW, 0.0, 0.0, 0.0, 0.0, now, "")
  }

  function ChoosePrice(order: OrderCommand): real {
    if order.price > 0.0 then order.price else 62000.0
  }

  function PartialQty(order: OrderCommand): real {
    Max(order.qty * 0.4, 0.0001)
  }

  function Fill(order: OrderCommand, status: int, qty: real, cumulative: real, suffix: string,
                now: int): ExecutionReport {
    BaseReport(order, now).(status := status, lastFilledQty := qty, lastFilledPrice := ChoosePrice(order),
      cumulativeFilledQty := cumulative, avgPrice := ChoosePrice(order), fillId := order.clientOrderId + suffix)
  }

  /** The clock readings of the (up to) three reports of one order. */
  datatype Clock = Clock(t0: int, t1: int, t2: int)

  function BuildReports(order: OrderCommand, c: Clock): seq<ExecutionReport> {
    if order.qty <= 0.0 then [BaseReport(order, c.t0).(status := STATUS_REJECTED)]
    else
      var ack := BaseReport(order, c.t0).(fillId := "ack-" + order.clientOrderId);
      var partialQty := PartialQty(order);
      if partialQty < order.qty then
        [ack,
         Fill(order, STATUS_PARTIALLY_FILLED, partialQty, partialQty, "-p1", c.t1),
         Fill(order, STATUS_FILLED, order.qty - partialQty, order.qty, "-p2", c.t2)]
      else
        [ack, Fill(order, STATUS_FILLED, order.qty, order.qty, "-f1", c.t1)]
  }

  /** The reports of one command: a cancel, or the simulated life of an order. */
  function Reports(order: OrderCommand, c: Clock): (rs: seq<ExecutionReport>)
    ensures |rs| >= 1
  {
    if order.action == ACTION_CANCEL then [BaseReport(order, c.t0).(status := STATUS_CANCELED)]
    else BuildReports(order, c)
  }

  function FilledQty(rs: seq<ExecutionReport>): real {
    if rs == [] then 0.0
    else FilledQty(rs[..|rs| - 1]) + if Fills(rs[|rs| - 1]) then rs[|rs| - 1].lastFilledQty else 0.0
  }

  lemma FilledQtySnoc(rs: seq<ExecutionReport>, r: ExecutionReport)
    ensures FilledQty(rs + [r]) == FilledQty(rs) + if Fills(r) then r.lastFilledQty else 0.0
  {
    assert (rs + [r])[..|rs|] == rs;
  }

  /** The reports split the order exactly: every report's cumulative quantity is
      the sum of the fills so far, every fill is positive, and the last report of
      an accepted order is FILLED for the whole quantity. */
  lemma ReportsConserveQty(order: OrderCommand, c: Clock)
    ensures var rs := Reports(order, c);
      (forall k :: 0 <= k < |rs| ==> rs[k].cumulativeFilledQty == FilledQty(rs[..k + 1]))
      && (forall k :: 0 <= k < |rs| && IsFillLike(rs[k]) ==> Fills(rs[k]))
      && (order.action != ACTION_CANCEL && order.qty > 0.0 ==>
            rs[|rs| - 1].status == STATUS_FILLED && FilledQty(rs) == order.qty)
  {
    var rs := Reports(order, c);
    forall k | 0 <= k < |rs| ensures rs[k].cumulativeFilledQty == FilledQty(rs[..k + 1]) {
      CumulativeIsSum(order, c, k);
    }
    assert rs[..|rs|] == rs;
  }

  lemma {:induction false} CumulativeIsSum(order: OrderCommand, c: Clock, k: nat)
    requires k < |Reports(order, c)|
    ensures Reports(order, c)[k].cumulativeFilledQty == FilledQty(Reports(order, c)[..k + 1])
  {
    var rs := Reports(order, c);
    assert rs[..k + 1] == rs[..k] + [rs[k]];
    FilledQtySnoc(rs[..k], rs[k]);
    if k == 0 {
      assert rs[..0] == [];
    } else {
      CumulativeIsSum(order, c, k - 1);
    }
  }

  /** No two reports of an order share a fill id. */
  lemma FillIdsDistinct(order: OrderCommand, c: Clock, i: nat, j: nat)
    requires i < j < |Reports(order, c)|
    ensures Reports(order, c)[i].fillId != Reports(order, c)[j].fillId
  {
    var id, rs := order.clientOrderId, Reports(order, c);
    assert |"ack-" + id| == |id| + 4 && |id + "-p1"| == |id + "-p2"| == |id + "-f1"| == |id| + 3;
    assert (id + "-p1")[|id| + 2] == '1' && (id + "-p2")[|id| + 2] == '2';
  }

  // ---------------------------------------------------------------------
  // Handling one order
  // ---------------------------------------------------------------------

  /** The tables once the given reports of an order have been committed. */
  function AfterReports(db: Db, id: nat, order: OrderCommand, rs: seq<ExecutionReport>): Db {
    if rs == [] then db
    else Persisted(AfterReports(db, id, order, rs[..|rs| - 1]), id, order, rs[|rs| - 1])
  }

  /** One handled command: the first `committed` of its reports reached the tables. */
  datatype Handled = Handled(order: OrderCommand, clock: Clock, committed: nat)

  predicate ValidHandled(parse: Parser, h: Handled) {
    h.committed <= |Reports(h.order, h.clock)| && (h.committed > 0 ==> parse(h.order.clientOrderId).Some?)
  }

  function AfterHandled(parse: Parser, db: Db, h: Handled): Db
    requires ValidHandled(parse, h)
  {
    if h.committed == 0 then db
    else AfterReports(db, parse(h.order.clientOrderId).value, h.order, Reports(h.order, h.clock)[..h.committed])
  }

  lemma OneMoreReport(parse: Parser, db: Db, order: OrderCommand, c: Clock, k: nat)
    requires k < |Reports(order, c)| && parse(order.clientOrderId).Some?
    ensures AfterHandled(parse, db, Handled(order, c, k + 1))
         == Persisted(AfterHandled(parse, db, Handled(order, c, k)), parse(order.clientOrderId).value, order,
           Reports(order, c)[k])
  {
    var rs, id := Reports(order, c), parse(order.clientOrderId).value;
    assert rs[..0] == [] && rs[..k + 1][..k] == rs[..k];
    assert AfterReports(db, id, order, rs[..k + 1])
      == Persisted(AfterReports(db, id, order, rs[..k]), id, order, rs[k]);
    assert AfterHandled(parse, db, Handled(order, c, k)) == AfterReports(db, id, order, rs[..k]);
  }

  class Router {
    const writer: DbWriter
    const dedup: DedupCache

    constructor (writer: DbWriter, dedup: DedupCache)
      ensures this.writer == writer && this.dedup == dedup
    {
      this.writer, this.dedup := writer, dedup;
    }

    /** Persists the reports in order until one fails; `failAt` gives, for each
        report, the statement that fails (0 for none), and a publish that fails
        after the commit stops the loop too. */
    method HandleOrder(order: OrderCommand, c: Clock, failAt: seq<nat>, publishFails: seq<bool>)
      returns (committed: nat)
      requires |failAt| == |publishFails| == |Reports(order, c)|
      modifies writer
      ensures ValidHandled(writer.parse, Handled(order, c, committed))
      ensures writer.State() == AfterHandled(writer.parse, old(writer.State()), Handled(order, c, committed))
      ensures writer.parse(order.clientOrderId).Some?
        && (forall i :: 0 <= i < |failAt| ==> failAt[i] == 0 && !publishFails[i])
        ==> committed == |Reports(order, c)|
    {
      var reports := Reports(order, c);
      committed := 0;
      while committed < |reports|
        invariant ValidHandled(writer.parse, Handled(order, c, committed))
        invariant writer.State() == AfterHandled(writer.parse, old(writer.State()), Handled(order, c, committed))
      {
        var ok := writer.PersistExecution(order, reports[committed], failAt[committed]);
        if !ok {
          return;
        }
        OneMoreReport(writer.parse, old(writer.State()), order, c, committed);
        committed := committed + 1;
        if publishFails[committed - 1] {
          return;
        }
      }
    }

    /** The receive step: unnamed and recently seen commands are skipped. */
    method Receive(order: OrderCommand, now: int, c: Clock, failAt: seq<nat>, publishFails: seq<bool>)
      returns (handled: bool, committed: nat)
      requires |failAt| == |publishFails| == |Reports(order, c)|
      modifies writer, dedup
      ensures handled == (order.clientOrderId != ""
        && !Seen(Swept(old(dedup.entries), now, dedup.ttl), Call(order.clientOrderId, now), dedup.ttl))
      ensures dedup.entries == if order.clientOrderId == "" then old(dedup.entries)
        else OrderDedup.Next(old(dedup.entries), Call(order.clientOrderId, now), dedup.ttl)
      ensures !handled ==> writer.State() == old(writer.State())
      ensures handled ==> ValidHandled(writer.parse, Handled(order, c, committed))
      ensures handled ==>
        writer.State() == AfterHandled(writer.parse, old(writer.State()), Handled(order, c, committed))
    {
      committed := 0;
      if order.clientOrderId == "" {
        return false, 0;
      }
      var seen := dedup.SeenRecentlyOrInsert(Call(order.clientOrderId, now));
      if seen {
        return false, 0;
      }
      handled := true;
      committed := HandleOrder(order, c, failAt, publishFails);
    }
  }

  // ---------------------------------------------------------------------
  // Runs
  // ---------------------------------------------------------------------

  ghost predicate ValidRun(parse: Parser, hs: seq<Handled>) {
    forall i :: 0 <= i < |hs| ==> ValidHandled(parse, hs[i])
  }

  function AfterRun(parse: Parser, db: Db, hs: seq<Handled>): Db
    requires ValidRun(parse, hs)
  {
    if hs == [] then db else AfterHandled(parse, AfterRun(parse, db, hs[..|hs| - 1]), hs[|hs| - 1])
  }

  // ---------------------------------------------------------------------
  // The keys of the fills
  // ---------------------------------------------------------------------

  /** No fill among the reports k to n of an order finds its key taken. */
  ghost predicate KeysFree(trades: seq<TradeRow>, order: OrderCommand, c: Clock, k: nat, n: nat) {
    forall j :: k <= j < n && j < |Reports(order, c)| && Fills(Reports(order, c)[j]) ==>
      !KeyTaken(trades, Reports(order, c)[j].fillId, Reports(order, c)[j].eventTime)
  }

  ghost predicate CommitsFreeKeys(trades: seq<TradeRow>, h: Handled) {
    KeysFree(trades, h.order, h.clock, 0, h.committed)
  }

  predicate SameKey(r: ExecutionReport, s: ExecutionReport) {
    r.fillId == s.fillId && r.eventTime == s.eventTime
  }

  /** No committed fill of one handled order has the key of one of the other. */
  ghost predicate KeysApart(g: Handled, h: Handled) {
    var gs, hs := Reports(g.order, g.clock), Reports(h.order, h.clock);
    forall a, b ::
      0 <= a < g.committed && a < |gs| && Fills(gs[a]) && 0 <= b < h.committed && b < |hs| && Fills(hs[b]) ==>
        !SameKey(gs[a], hs[b])
  }

  /** No two committed fills of a run share a key, nor does one find it stored. */
  ghost predicate KeysNeverMeet(trades: seq<TradeRow>, hs: seq<Handled>) {
    && (forall i :: 0 <= i < |hs| ==> CommitsFreeKeys(trades, hs[i]))
    && (forall i, j :: 0 <= i < j < |hs| ==> KeysApart(hs[i], hs[j]))
  }

  /** Fill ids carry the text of the order id: of orders with different texts no
      keys meet, whatever the clock does. */
  lemma TextsKeepKeysApart(g: Handled, h: Handled)
    requires g.order.clientOrderId != h.order.clientOrderId
    ensures KeysApart(g, h)
  {
    var gs, hs := Reports(g.order, g.clock), Reports(h.order, h.clock);
    forall a, b | 0 <= a < |gs| && 0 <= b < |hs| && Fills(gs[a]) && Fills(hs[b]) ensures gs[a].fillId != hs[b].fillId {
      FillIdNamesOrder(g.order, g.clock, a);
      FillIdNamesOrder(h.order, h.clock, b);
    }
  }

  lemma FillIdNamesOrder(order: OrderCommand, c: Clock, k: nat)
    requires k < |Reports(order, c)| && Fills(Reports(order, c)[k])
    ensures var id := Reports(order, c)[k].fillId;
      |id| == |order.clientOrderId| + 3 && id[..|id| - 3] == order.clientOrderId
  {
    var text := order.clientOrderId;
    assert (text + "-p1")[..|text|] == (text + "-p2")[..|text|] == (text + "-f1")[..|text|] == text;
  }

  /** The readings of d come after those of c, and each clock only moves forward. */
  predicate TicksLater(c: Clock, d: Clock) {
    c.t0 <= c.t1 <= c.t2 < d.t0 <= d.t1 <= d.t2
  }

  /** Of orders handled one after the other no keys meet, even of one text, when
      the clock has moved on in between. */
  lemma TicksKeepKeysApart(g: Handled, h: Handled)
    requires TicksLater(g.clock, h.clock)
    ensures KeysApart(g, h)
  {}

  lemma InsertedKeys(trades: seq<TradeRow>, id: nat, order: OrderCommand, r: ExecutionReport, fillId: string, time: int)
    ensures KeyTaken(InsertedTrades(trades, id, order, r), fillId, time)
      <==> KeyTaken(trades, fillId, time) || (r.fillId == fillId && r.eventTime == time)
  {
    if r.fillId == fillId && r.eventTime == time && !KeyTaken(trades, fillId, time) {
      assert (trades + [TradeOf(id, order, r)])[|trades|] == TradeOf(id, order, r);
    }
    if KeyTaken(trades, fillId, time) && !KeyTaken(trades, r.fillId, r.eventTime) {
      var i :| 0 <= i < |trades| && trades[i].fillId == fillId && trades[i].tradeTime == time;
      assert (trades + [TradeOf(id, order, r)])[i] == trades[i];
    }
  }

  /** Committing one report leaves the keys of the order's later fills free. */
  lemma CommitLeavesFree(db: Db, id: nat, order: OrderCommand, c: Clock, k: nat, n: nat)
    requires k < n && k < |Reports(order, c)| && KeysFree(db.trades, order, c, k, n)
    ensures KeysFree(Persisted(db, id, order, Reports(order, c)[k]).trades, order, c, k + 1, n)
  {
    var rs := Reports(order, c);
    forall j | k + 1 <= j < n && j < |rs| && Fills(rs[j])
      ensures !KeyTaken(Persisted(db, id, order, rs[k]).trades, rs[j].fillId, rs[j].eventTime)
    {
      FillIdsDistinct(order, c, k, j);
      InsertedKeys(db.trades, id, order, rs[k], rs[j].fillId, rs[j].eventTime);
    }
  }

  lemma {:induction false} ReportsLeaveFree(db: Db, id: nat, g: Handled, k: nat, h: Handled)
    requires k <= g.committed && k <= |Reports(g.order, g.clock)| && KeysApart(g, h) && CommitsFreeKeys(db.trades, h)
    ensures CommitsFreeKeys(AfterReports(db, id, g.order, Reports(g.order, g.clock)[..k]).trades, h)
  {
    var gs, hs := Reports(g.order, g.clock), Reports(h.order, h.clock);
    if k == 0 {
      assert gs[..0] == [];
    } else {
      assert gs[..k][..k - 1] == gs[..k - 1];
      ReportsLeaveFree(db, id, g, k - 1, h);
      var s := AfterReports(db, id, g.order, gs[..k - 1]);
      forall j | 0 <= j < h.committed && j < |hs| && Fills(hs[j])
        ensures !KeyTaken(Persisted(s, id, g.order, gs[k - 1]).trades, hs[j].fillId, hs[j].eventTime)
      {
        InsertedKeys(s.trades, id, g.order, gs[k - 1], hs[j].fillId, hs[j].eventTime);
        assert Fills(gs[k - 1]) ==> !SameKey(gs[k - 1], hs[j]);
      }
    }
  }

  lemma {:induction false} RunLeavesFree(parse: Parser, db: Db, hs: seq<Handled>, h: Handled)
    requires ValidRun(parse, hs) && CommitsFreeKeys(db.trades, h)
    requires forall i :: 0 <= i < |hs| ==> KeysApart(hs[i], h)
    ensures CommitsFreeKeys(AfterRun(parse, db, hs).trades, h)
  {
    if hs != [] {
      var g := hs[|hs| - 1];
      RunLeavesFree(parse, db, hs[..|hs| - 1], h);
      if g.committed > 0 {
        ReportsLeaveFree(AfterRun(parse, db, hs[..|hs| - 1]), parse(g.order.clientOrderId).value, g, g.committed, h);
      }
    }
  }

  // ---------------------------------------------------------------------
  // What a commit keeps
  // ---------------------------------------------------------------------

  /** The row of the order whose first k reports are committed. */
  ghost predicate RowCurrent(db: Db, id: nat, order: OrderCommand, c: Clock, k: nat)
    requires k <= |Reports(order, c)|
  {
    k > 0 ==>
      && id in db.orders
      && db.orders[id].filledQty == FilledQty(Reports(order, c)[..k])
      && db.orders[id].status == MapStatus(Reports(order, c)[k - 1].status)
  }

  /** What every commit of an order's reports keeps, of which n are committed. */
  ghost predicate OrderInv(before: Db, db: Db, id: nat, order: OrderCommand, c: Clock, k: nat, n: nat)
    requires k <= |Reports(order, c)|
  {
    && KeysFree(db.trades, order, c, k, n)
    && RowCurrent(db, id, order, c, k)
    && TradedQty(db.trades, id) == TradedQty(before.trades, id) + FilledQty(Reports(order, c)[..k])
    && AgreementKept(before, db, order)
  }

  ghost predicate AgreementKept(before: Db, db: Db, order: OrderCommand) {
    order.side in {BUY, SELL} && PositionsAgree(before) ==> PositionsAgree(db)
  }

  lemma CommitKeepsAgreement(before: Db, db: Db, id: nat, order: OrderCommand, r: ExecutionReport)
    requires AgreementKept(before, db, order) && (Fills(r) ==> !KeyTaken(db.trades, r.fillId, r.eventTime))
    ensures AgreementKept(before, Persisted(db, id, order, r), order)
  {
    if order.side in {BUY, SELL} && PositionsAgree(before) {
      AgreementKeptExactly(db, id, order, r);
    }
  }

  lemma {:induction false} ReportsKeepInv(before: Db, id: nat, order: OrderCommand, c: Clock, k: nat, n: nat)
    requires k <= n <= |Reports(order, c)| && KeysFree(before.trades, order, c, 0, n)
    ensures OrderInv(before, AfterReports(before, id, order, Reports(order, c)[..k]), id, order, c, k, n)
  {
    var rs := Reports(order, c);
    if k == 0 {
      assert rs[..0] == [];
    } else {
      assert rs[..k][..k - 1] == rs[..k - 1] && rs[..k] == rs[..k - 1] + [rs[k - 1]];
      ReportsKeepInv(before, id, order, c, k - 1, n);
      CommitKeepsInv(before, AfterReports(before, id, order, rs[..k - 1]), id, order, c, k - 1, n);
    }
  }

  lemma CommitTradesQty(db: Db, id: nat, order: OrderCommand, r: ExecutionReport, other: nat)
    requires other == id && Fills(r) ==> !KeyTaken(db.trades, r.fillId, r.eventTime)
    ensures TradedQty(Persisted(db, id, order, r).trades, other)
         == TradedQty(db.trades, other) + if Fills(r) && other == id then r.lastFilledQty else 0.0
  {
    TradedQtySnoc(db.trades, TradeOf(id, order, r), other);
  }

  lemma CommitSetsRow(db: Db, id: nat, order: OrderCommand, c: Clock, k: nat)
    requires k < |Reports(order, c)|
    ensures RowCurrent(Persisted(db, id, order, Reports(order, c)[k]), id, order, c, k + 1)
  {
    CumulativeIsSum(order, c, k);
  }

  lemma CommitAddsQty(db: Db, id: nat, order: OrderCommand, c: Clock, k: nat)
    requires k < |Reports(order, c)|
    requires var r := Reports(order, c)[k]; Fills(r) ==> !KeyTaken(db.trades, r.fillId, r.eventTime)
    ensures TradedQty(Persisted(db, id, order, Reports(order, c)[k]).trades, id) - TradedQty(db.trades, id)
         == FilledQty(Reports(order, c)[..k + 1]) - FilledQty(Reports(order, c)[..k])
  {
    var rs := Reports(order, c);
    CommitTradesQty(db, id, order, rs[k], id);
    assert rs[..k + 1] == rs[..k] + [rs[k]];
    FilledQtySnoc(rs[..k], rs[k]);
  }

  lemma CommitKeepsInv(before: Db, db: Db, id: nat, order: OrderCommand, c: Clock, k: nat, n: nat)
    requires k < n <= |Reports(order, c)| && OrderInv(before, db, id, order, c, k, n)
    ensures OrderInv(before, Persisted(db, id, order, Reports(order, c)[k]), id, order, c, k + 1, n)
  {
    CommitLeavesFree(db, id, order, c, k, n);
    CommitSetsRow(db, id, order, c, k);
    CommitAddsQty(db, id, order, c, k);
    CommitKeepsAgreement(before, db, id, order, Reports(order, c)[k]);
  }

  lemma HandledKeeps(parse: Parser, db: Db, h: Handled)
    requires ValidHandled(parse, h) && CommitsFreeKeys(db.trades, h)
    ensures h.order.side in {BUY, SELL} && PositionsAgree(db) ==> PositionsAgree(AfterHandled(parse, db, h))
  {
    if h.committed > 0 {
      ReportsKeepInv(db, parse(h.order.clientOrderId).value, h.order, h.clock, h.committed, h.committed);
    }
  }

  /** Order-store agreement, positions: at every committed step of any run with
      sides BUY or SELL in which no fill finds its key taken, every position equals
      the signed sum of its account's trades. */
  lemma {:induction false} PositionsAlwaysAgree(parse: Parser, db: Db, hs: seq<Handled>)
    requires ValidRun(parse, hs) && KeysNeverMeet(db.trades, hs) && PositionsAgree(db)
    requires forall i :: 0 <= i < |hs| ==> hs[i].order.side in {BUY, SELL}
    ensures PositionsAgree(AfterRun(parse, db, hs))
  {
    if hs != [] {
      var n := |hs| - 1;
      PositionsAlwaysAgree(parse, db, hs[..n]);
      RunLeavesFree(parse, db, hs[..n], hs[n]);
      HandledKeeps(parse, AfterRun(parse, db, hs[..n]), hs[n]);
    }
  }

  /** The condition holds from empty tables when a text that is handled again is
      handled again only after the clock has moved on; other texts need no clock. */
  lemma KeysNeverMeetWhen(hs: seq<Handled>)
    requires forall i, j :: 0 <= i < j < |hs| ==>
      hs[i].order.clientOrderId != hs[j].order.clientOrderId || TicksLater(hs[i].clock, hs[j].clock)
    ensures KeysNeverMeet([], hs)
  {
    forall i, j | 0 <= i < j < |hs| ensures KeysApart(hs[i], hs[j]) {
      if hs[i].order.clientOrderId != hs[j].order.clientOrderId {
        TextsKeepKeysApart(hs[i], hs[j]);
      } else {
        TicksKeepKeysApart(hs[i], hs[j]);
      }
    }
  }

  // ---------------------------------------------------------------------
  // One order in a run
  // ---------------------------------------------------------------------

  ghost predicate Names(parse: Parser, h: Handled, id: nat) {
    parse(h.order.clientOrderId) == Some(id)
  }

  /** The order row and the trades of one order. */
  ghost predicate OrderAgrees(db: Db, id: nat) {
    if id in db.orders then db.orders[id].filledQty == TradedQty(db.trades, id) else TradedQty(db.trades, id) == 0.0
  }

  ghost predicate Unnamed(parse: Parser, hs: seq<Handled>, id: nat) {
    forall i :: 0 <= i < |hs| ==> !Names(parse, hs[i], id)
  }

  /** An order keeps its row and its trades. */
  ghost predicate OrderKept(before: Db, db: Db, id: nat) {
    && TradedQty(db.trades, id) == TradedQty(before.trades, id)
    && (id in db.orders <==> id in before.orders)
    && (id in db.orders ==> db.orders[id] == before.orders[id])
  }

  lemma {:induction false} ReportsKeepOther(db: Db, id: nat, order: OrderCommand, rs: seq<ExecutionReport>, other: nat)
    requires other != id
    ensures OrderKept(db, AfterReports(db, id, order, rs), other)
  {
    if rs != [] {
      var n := |rs| - 1;
      ReportsKeepOther(db, id, order, rs[..n], other);
      CommitTradesQty(AfterReports(db, id, order, rs[..n]), id, order, rs[n], other);
    }
  }

  lemma {:induction false} RunKeepsUnnamedOrder(parse: Parser, db: Db, hs: seq<Handled>, id: nat)
    requires ValidRun(parse, hs) && Unnamed(parse, hs, id)
    ensures OrderKept(db, AfterRun(parse, db, hs), id)
  {
    if hs != [] {
      var h := hs[|hs| - 1];
      RunKeepsUnnamedOrder(parse, db, hs[..|hs| - 1], id);
      assert !Names(parse, h, id);
      if h.committed > 0 {
        ReportsKeepOther(AfterRun(parse, db, hs[..|hs| - 1]), parse(h.order.clientOrderId).value, h.order,
          Reports(h.order, h.clock)[..h.committed], id);
      }
    }
  }

  /** What is promised of an order handled once: its row and its trades agree, and
      once all reports are committed the row is FILLED for the ordered quantity. */
  ghost predicate OrderSettles(db: Db, id: nat, h: Handled) {
    && OrderAgrees(db, id)
    && (h.committed == |Reports(h.order, h.clock)| && h.order.action != ACTION_CANCEL && h.order.qty > 0.0 ==>
          id in db.orders && db.orders[id].filledQty == h.order.qty && db.orders[id].status == "FILLED")
  }

  /** Order-store agreement, orders: for an order handled once, the filled quantity
      of its row equals the sum of its trades at every committed step, and once all
      its reports are committed the row is FILLED for the ordered quantity, whatever
      the clock shows. */
  lemma OrderHandledOnceAgrees(parse: Parser, db: Db, before: seq<Handled>, h: Handled, later: seq<Handled>, id: nat)
    requires ValidRun(parse, (before + [h]) + later) && CommitsFreeKeys(db.trades, h)
    requires id !in db.orders && TradedQty(db.trades, id) == 0.0
    requires Names(parse, h, id) && Unnamed(parse, before, id) && Unnamed(parse, later, id)
    ensures OrderSettles(AfterRun(parse, db, (before + [h]) + later), id, h)
  {
    RunParts(parse, before + [h], later);
    SettledByThen(parse, db, before, h, id);
    RunKeepsUnnamedOrder(parse, AfterRun(parse, db, before + [h]), later, id);
    RunSplits(parse, db, before + [h], later);
  }

  lemma RunParts(parse: Parser, a: seq<Handled>, b: seq<Handled>)
    requires ValidRun(parse, a + b)
    ensures ValidRun(parse, a) && ValidRun(parse, b)
  {
    assert forall i :: 0 <= i < |a| ==> a[i] == (a + b)[i];
    assert forall i :: 0 <= i < |b| ==> b[i] == (a + b)[|a| + i];
  }

  /** When the order is the last of the run so far. */
  lemma SettledByThen(parse: Parser, db: Db, before: seq<Handled>, h: Handled, id: nat)
    requires ValidRun(parse, before + [h]) && CommitsFreeKeys(db.trades, h)
    requires id !in db.orders && TradedQty(db.trades, id) == 0.0
    requires Names(parse, h, id) && Unnamed(parse, before, id)
    ensures OrderSettles(AfterRun(parse, db, before + [h]), id, h)
  {
    RunOfOneMore(parse, db, before, h);
    RunKeepsUnnamedOrder(parse, db, before, id);
    forall i | 0 <= i < |before| ensures KeysApart(before[i], h) {
      assert !Names(parse, before[i], id);
      TextsKeepKeysApart(before[i], h);
    }
    RunLeavesFree(parse, db, before, h);
    HandledOnce(parse, AfterRun(parse, db, before), h, id);
  }

  lemma {:induction false} RunSplits(parse: Parser, db: Db, a: seq<Handled>, b: seq<Handled>)
    requires ValidRun(parse, a) && ValidRun(parse, b) && ValidRun(parse, a + b)
    ensures AfterRun(parse, db, a + b) == AfterRun(parse, AfterRun(parse, db, a), b)
  {
    if b == [] {
      assert a + b == a;
    } else {
      var n := |b| - 1;
      assert a + b == (a + b[..n]) + [b[n]] && b == b[..n] + [b[n]];
      RunOfOneMore(parse, db, a + b[..n], b[n]);
      RunOfOneMore(parse, AfterRun(parse, db, a), b[..n], b[n]);
      RunSplits(parse, db, a, b[..n]);
    }
  }

  lemma RunOfOneMore(parse: Parser, db: Db, hs: seq<Handled>, h: Handled)
    requires ValidRun(parse, hs + [h])
    ensures ValidRun(parse, hs) && ValidHandled(parse, h)
    ensures AfterRun(parse, db, hs + [h]) == AfterHandled(parse, AfterRun(parse, db, hs), h)
  {
    assert (hs + [h])[..|hs|] == hs;
    assert forall i :: 0 <= i < |hs| ==> hs[i] == (hs + [h])[i];
    assert h == (hs + [h])[|hs|];
  }

  lemma HandledOnce(parse: Parser, db: Db, h: Handled, id: nat)
    requires ValidHandled(parse, h) && CommitsFreeKeys(db.trades, h)
    requires Names(parse, h, id) && id !in db.orders && TradedQty(db.trades, id) == 0.0
    ensures OrderSettles(AfterHandled(parse, db, h), id, h)
  {
    var rs := Reports(h.order, h.clock);
    ReportsConserveQty(h.order, h.clock);
    assert rs[..|rs|] == rs;
    if h.committed > 0 {
      ReportsKeepInv(db, id, h.order, h.clock, h.committed, h.committed);
    }
  }

  /** Handled twice — after the filter has forgotten it, after a restart, or under
      another spelling of the same id — an order leaves its row at one quantity and
      its trades at two: the two agree again exactly when nothing was filled. */
  lemma HandledTwiceAgreesExactly(parse: Parser, db: Db, g: Handled, h: Handled, id: nat)
    requires ValidHandled(parse, g) && ValidHandled(parse, h) && h.committed > 0
    requires CommitsFreeKeys(db.trades, g) && CommitsFreeKeys(db.trades, h) && KeysApart(g, h)
    requires Names(parse, g, id) && Names(parse, h, id) && id !in db.orders && TradedQty(db.trades, id) == 0.0
    ensures OrderAgrees(AfterHandled(parse, AfterHandled(parse, db, g), h), id)
      <==> FilledQty(Reports(g.order, g.clock)[..g.committed]) == 0.0
  {
    var s := AfterHandled(parse, db, g);
    if g.committed > 0 {
      ReportsKeepInv(db, id, g.order, g.clock, g.committed, g.committed);
      ReportsLeaveFree(db, id, g, g.committed, h);
    } else {
      assert Reports(g.order, g.clock)[..0] == [];
    }
    ReportsKeepInv(s, id, h.order, h.clock, h.committed, h.committed);
  }
}
