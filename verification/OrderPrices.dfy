/** What a handled order writes into the tables, row by row: the split of its
    quantity, the price of its fills, its order row and its position. */
module OrderPrices {
  import opened Numbers
  import opened OrderStore
  import opened OrderRouter

  // ---------------------------------------------------------------------
  // The rows of an order handled to the end
  // ---------------------------------------------------------------------

  /** All reports of a command are committed. */
  predicate Completed(h: Handled) {
    h.committed == |Reports(h.order, h.clock)|
  }

  predicate Fillable(order: OrderCommand) {
    order.action != 2 && order.qty > 0.0
  }

  /** A row of the trade table for one fill of an order. */
  function FillRow(id: nat, order: OrderCommand, qty: real, price: real, time: int, suffix: string): TradeRow {
    TradeRow(id, order.accountId, order.symbol, if order.side == 2 then "SELL" else "BUY", qty, price, time,
      order.clientOrderId + suffix)
  }

  /** The rows that the fills among some reports add. */
  function RowsOf(id: nat, order: OrderCommand, rs: seq<ExecutionReport>): seq<TradeRow> {
    if rs == [] then []
    else
      var r := rs[|rs| - 1];
      RowsOf(id, order, rs[..|rs| - 1]) + if Fills(r) then [TradeOf(id, order, r)] else []
  }

  /** Fills that find their keys free each add their row, in order. */
  lemma {:induction false} ReportsAddRows(db: Db, id: nat, order: OrderCommand, c: Clock, k: nat, n: nat)
    requires k <= n <= |Reports(order, c)| && KeysFree(db.trades, order, c, 0, n)
    ensures AfterReports(db, id, order, Reports(order, c)[..k]).trades
         == db.trades + RowsOf(id, order, Reports(order, c)[..k])
  {
    var rs := Reports(order, c);
    if k == 0 {
      assert rs[..0] == [];
    } else {
      assert rs[..k][..k - 1] == rs[..k - 1];
      ReportsAddRows(db, id, order, c, k - 1, n);
      ReportsKeepInv(db, id, order, c, k - 1, n);
    }
  }

  lemma RowsSnoc(id: nat, order: OrderCommand, rs: seq<ExecutionReport>, r: ExecutionReport)
    ensures RowsOf(id, order, rs + [r]) == RowsOf(id, order, rs) + if Fills(r) then [TradeOf(id, order, r)] else []
  {
    assert (rs + [r])[..|rs|] == rs;
  }

  lemma RowsOfFew(id: nat, order: OrderCommand, a: ExecutionReport, b: ExecutionReport, c: ExecutionReport)
    requires !Fills(a) && Fills(b) && Fills(c)
    ensures RowsOf(id, order, [a, b]) == [TradeOf(id, order, b)]
    ensures RowsOf(id, order, [a, b, c]) == [TradeOf(id, order, b), TradeOf(id, order, c)]
  {
    RowsSnoc(id, order, [], a);
    RowsSnoc(id, order, [a], b);
    RowsSnoc(id, order, [a, b], c);
    assert [] + [a] == [a] && [a] + [b] == [a, b] && [a, b] + [c] == [a, b, c];
  }

  lemma RowsOfReports(id: nat, order: OrderCommand, c: Clock)
    requires Fillable(order)
    ensures var price := if order.price > 0.0 then order.price else 62000.0;
      var first := if order.qty * 0.4 > 0.0001 then order.qty * 0.4 else 0.0001;
      RowsOf(id, order, Reports(order, c))
        == if first < order.qty then
             [FillRow(id, order, first, price, c.t1, "-p1"), FillRow(id, order, order.qty - first, price, c.t2, "-p2")]
           else [FillRow(id, order, order.qty, price, c.t1, "-f1")]
  {
    var rs := Reports(order, c);
    RowsOfFew(id, order, rs[0], rs[1], rs[|rs| - 1]);
    assert rs == if |rs| == 3 then [rs[0], rs[1], rs[2]] else [rs[0], rs[1]];
  }

  /** The trades of an order handled to the end: two fills, the first of them of
      two fifths of the quantity but at least 0.0001, or one if that is not less
      than the whole; at the order's own price, or at 62000 if it names none. */
  lemma CompletedTrades(parse: Parser, db: Db, h: Handled, id: nat)
    requires ValidHandled(parse, h) && Completed(h) && Fillable(h.order) && Names(parse, h, id)
    requires CommitsFreeKeys(db.trades, h)
    ensures var price := if h.order.price > 0.0 then h.order.price else 62000.0;
      var first := if h.order.qty * 0.4 > 0.0001 then h.order.qty * 0.4 else 0.0001;
      AfterHandled(parse, db, h).trades == db.trades
        + if first < h.order.qty then
            [FillRow(id, h.order, first, price, h.clock.t1, "-p1"),
             FillRow(id, h.order, h.order.qty - first, price, h.clock.t2, "-p2")]
          else [FillRow(id, h.order, h.order.qty, price, h.clock.t1, "-f1")]
  {
    var rs := Reports(h.order, h.clock);
    assert rs[..|rs|] == rs;
    ReportsAddRows(db, id, h.order, h.clock, |rs|, |rs|);
    RowsOfReports(id, h.order, h.clock);
  }

  // ---------------------------------------------------------------------
  // The order row and the position
  // ---------------------------------------------------------------------

  /** The order row of an order handled to the end: FILLED for its quantity at
      that price, with what an earlier row of the id says about it kept. */
  lemma CompletedRow(parse: Parser, db: Db, h: Handled, id: nat)
    requires ValidHandled(parse, h) && Completed(h) && Fillable(h.order) && Names(parse, h, id)
    ensures var order, t := h.order, AfterHandled(parse, db, h);
      var price := if order.price > 0.0 then order.price else 62000.0;
      var fresh' := OrderRow(order.accountId, order.symbol, if order.side == 2 then "SELL" else "BUY", order.qty,
        "FILLED", order.qty, Some(price));
      && id in t.orders
      && t.orders[id] == (if id in db.orders then db.orders[id] else fresh')
           .(status := "FILLED", filledQty := order.qty, avgPrice := Some(price))
  {
    var rs := Reports(h.order, h.clock);
    assert rs[..|rs|] == rs;
    LastReportSetsRow(db, id, h.order, rs);
  }

  /** On the way there the row reads NEW for nothing, and PARTIALLY_FILLED for the
      first fill. */
  lemma HalfwayRow(parse: Parser, db: Db, h: Handled, id: nat)
    requires ValidHandled(parse, h) && 0 < h.committed && !Completed(h) && Fillable(h.order) && Names(parse, h, id)
    ensures var t := AfterHandled(parse, db, h);
      var price := if h.order.price > 0.0 then h.order.price else 62000.0;
      var first := if h.order.qty * 0.4 > 0.0001 then h.order.qty * 0.4 else 0.0001;
      && id in t.orders
      && if h.committed == 1 then
           t.orders[id].status == "NEW" && t.orders[id].filledQty == 0.0 && t.orders[id].avgPrice == None
         else
           (t.orders[id].status == "PARTIALLY_FILLED" && t.orders[id].filledQty == first
            && t.orders[id].avgPrice == Some(price))
  {
    LastReportSetsRow(db, id, h.order, Reports(h.order, h.clock)[..h.committed]);
  }

  /** The last report overwrites status and quantities of the row. */
  lemma {:induction false} LastReportSetsRow(db: Db, id: nat, order: OrderCommand, rs: seq<ExecutionReport>)
    requires rs != []
    ensures var t, r := AfterReports(db, id, order, rs), rs[|rs| - 1];
      && id in t.orders
      && t.orders[id] == (if id in db.orders then db.orders[id]
                          else OrderRow(order.accountId, order.symbol, MapSide(order.side), order.qty, "", 0.0, None))
           .(status := MapStatus(r.status), filledQty := r.cumulativeFilledQty, avgPrice := NullIfZero(r.avgPrice))
  {
    if |rs| > 1 {
      LastReportSetsRow(db, id, order, rs[..|rs| - 1]);
    } else {
      assert rs[..0] == [];
    }
  }

  /** The signed quantity a report moves a position by. */
  function Moved(order: OrderCommand, qty: real): real {
    if order.side == 1 then qty else -qty
  }

  /** From db to t a quantity q was filled: the order's position has moved by it
      and has the fills' price as entry price; every other position is as it was. */
  ghost predicate MovedBy(db: Db, t: Db, order: OrderCommand, q: real, a: Account) {
    if a == AccountOf(order) && q > 0.0 then
      a in t.positions && t.positions[a] == PositionRow(PositionQty(db, a) + Moved(order, q), Some(ChoosePrice(order)))
    else (a in t.positions <==> a in db.positions) && (a in t.positions ==> t.positions[a] == db.positions[a])
  }

  lemma OneMove(db: Db, t: Db, id: nat, order: OrderCommand, r: ExecutionReport, q: real, a: Account)
    requires q >= 0.0 && MovedBy(db, t, order, q, a) && (Fills(r) ==> r.avgPrice == ChoosePrice(order) > 0.0)
    ensures MovedBy(db, Persisted(t, id, order, r), order, q + if Fills(r) then r.lastFilledQty else 0.0, a)
  {}

  lemma {:induction false} ReportsMovePosition(db: Db, id: nat, order: OrderCommand, c: Clock, k: nat, a: Account)
    requires k <= |Reports(order, c)|
    ensures var rs := Reports(order, c)[..k];
      MovedBy(db, AfterReports(db, id, order, rs), order, FilledQty(rs), a)
  {
    var rs := Reports(order, c);
    if k == 0 {
      assert rs[..0] == [];
    } else {
      assert rs[..k][..k - 1] == rs[..k - 1] && rs[..k] == rs[..k - 1] + [rs[k - 1]];
      ReportsMovePosition(db, id, order, c, k - 1, a);
      FilledQtySnoc(rs[..k - 1], rs[k - 1]);
      FilledSoFar(order, c, k - 1);
      OneMove(db, AfterReports(db, id, order, rs[..k - 1]), id, order, rs[k - 1], FilledQty(rs[..k - 1]), a);
    }
  }

  lemma {:induction false} FilledSoFar(order: OrderCommand, c: Clock, k: nat)
    requires k <= |Reports(order, c)|
    ensures FilledQty(Reports(order, c)[..k]) >= 0.0
  {
    var rs := Reports(order, c);
    if k == 0 {
      assert rs[..0] == [];
    } else {
      assert rs[..k] == rs[..k - 1] + [rs[k - 1]];
      FilledQtySnoc(rs[..k - 1], rs[k - 1]);
      FilledSoFar(order, c, k - 1);
    }
  }

  /** The position of an order handled to the end has moved by its quantity, up
      for BUY and down otherwise, and has the price of its fills as entry price;
      every other position is as it was. */
  lemma CompletedPosition(parse: Parser, db: Db, h: Handled, id: nat, a: Account)
    requires ValidHandled(parse, h) && Completed(h) && Fillable(h.order) && Names(parse, h, id)
    ensures var order, t := h.order, AfterHandled(parse, db, h);
      var price := if order.price > 0.0 then order.price else 62000.0;
      if a == Account(order.accountId, order.symbol) then
        a in t.positions
        && t.positions[a] == PositionRow(PositionQty(db, a) + (if order.side == 1 then order.qty else -order.qty),
          Some(price))
      else (a in t.positions <==> a in db.positions) && (a in t.positions ==> t.positions[a] == db.positions[a])
  {
    var rs := Reports(h.order, h.clock);
    assert rs[..|rs|] == rs;
    ReportsConserveQty(h.order, h.clock);
    ReportsMovePosition(db, id, h.order, h.clock, |rs|, a);
  }

  /** A cancel, and an order without a positive quantity, trade nothing: they only
      put their status and a filled quantity of 0 on the order row. */
  lemma NothingTraded(parse: Parser, db: Db, h: Handled, id: nat)
    requires ValidHandled(parse, h) && Completed(h) && !Fillable(h.order) && Names(parse, h, id)
    ensures var t := AfterHandled(parse, db, h);
      && t.trades == db.trades && t.positions == db.positions && id in t.orders
      && t.orders[id].status == (if h.order.action == 2 then "CANCELED" else "REJECTED")
      && t.orders[id].filledQty == 0.0 && t.orders[id].avgPrice == None
  {
    var rs := Reports(h.order, h.clock);
    assert rs == [rs[0]] && rs[..1] == rs && rs[..0] == [];
    assert AfterReports(db, id, h.order, rs) == Persisted(AfterReports(db, id, h.order, rs[..0]), id, h.order, rs[0]);
  }

  // ---------------------------------------------------------------------
  // Prices over whole runs
  // ---------------------------------------------------------------------

  /** The row is a fill of the handled order, at the order's own price or at 62000
      if it names none. */
  ghost predicate FillOf(parse: Parser, row: TradeRow, h: Handled) {
    && Names(parse, h, row.order) && h.order.qty >= row.qty > 0.0
    && row.accountId == h.order.accountId && row.symbol == h.order.symbol
    && row.side == (if h.order.side == 2 then "SELL" else "BUY")
    && row.price == (if h.order.price > 0.0 then h.order.price else 62000.0)
  }

  lemma {:induction false} RowsAreFills(parse: Parser, id: nat, h: Handled, k: nat)
    requires k <= |Reports(h.order, h.clock)| && Names(parse, h, id)
    ensures forall row :: row in RowsOf(id, h.order, Reports(h.order, h.clock)[..k]) ==> FillOf(parse, row, h)
  {
    var rs := Reports(h.order, h.clock);
    if k == 0 {
      assert rs[..0] == [];
    } else {
      assert rs[..k] == rs[..k - 1] + [rs[k - 1]];
      RowsSnoc(id, h.order, rs[..k - 1], rs[k - 1]);
      RowsAreFills(parse, id, h, k - 1);
    }
  }

  /** Fills of one order add no other rows, whether or not their keys are free. */
  lemma {:induction false} RowsAmong(db: Db, id: nat, order: OrderCommand, rs: seq<ExecutionReport>)
    ensures db.trades <= AfterReports(db, id, order, rs).trades
    ensures forall row :: row in AfterReports(db, id, order, rs).trades ==>
      row in db.trades || row in RowsOf(id, order, rs)
  {
    if rs != [] {
      RowsAmong(db, id, order, rs[..|rs| - 1]);
    }
  }

  ghost predicate Explained(parse: Parser, row: TradeRow, hs: seq<Handled>) {
    exists i :: 0 <= i < |hs| && FillOf(parse, row, hs[i])
  }

  /** After any run, every trade was stored before or is a fill of an order the run
      handled, on its account and side and at its price. */
  lemma {:induction false} TradesExplained(parse: Parser, db: Db, hs: seq<Handled>)
    requires ValidRun(parse, hs)
    ensures forall row :: row in AfterRun(parse, db, hs).trades ==> row in db.trades || Explained(parse, row, hs)
  {
    if hs != [] {
      var h, before := hs[|hs| - 1], AfterRun(parse, db, hs[..|hs| - 1]);
      TradesExplained(parse, db, hs[..|hs| - 1]);
      if h.committed > 0 {
        var id := parse(h.order.clientOrderId).value;
        RowsAmong(before, id, h.order, Reports(h.order, h.clock)[..h.committed]);
        RowsAreFills(parse, id, h, h.committed);
      }
      forall row | row in AfterRun(parse, db, hs).trades ensures row in db.trades || Explained(parse, row, hs) {
        if row in before.trades {
          if Explained(parse, row, hs[..|hs| - 1]) {
            var i :| 0 <= i < |hs| - 1 && FillOf(parse, row, hs[..|hs| - 1][i]);
            assert FillOf(parse, row, hs[i]);
          }
        } else {
          assert FillOf(parse, row, hs[|hs| - 1]);
        }
      }
    }
  }

  function Cost(qty: real, price: real): real {
    qty * price
  }

  lemma CostAdds(x: real, y: real, price: real)
    ensures Cost(x + y, price) == Cost(x, price) + Cost(y, price)
  {}

  /** What one order's trades cost. */
  function TradedValue(trades: seq<TradeRow>, id: nat): real {
    if trades == [] then 0.0
    else
      var t := trades[|trades| - 1];
      TradedValue(trades[..|trades| - 1], id) + if t.order == id then Cost(t.qty, t.price) else 0.0
  }

  lemma {:induction false} ValueAtOnePrice(trades: seq<TradeRow>, id: nat, price: real)
    requires forall row :: row in trades && row.order == id ==> row.price == price
    ensures TradedValue(trades, id) == Cost(TradedQty(trades, id), price)
  {
    if trades != [] {
      var n := |trades| - 1;
      assert trades[n] in trades;
      ValueAtOnePrice(trades[..n], id, price);
      CostAdds(TradedQty(trades[..n], id), trades[n].qty, price);
    }
  }

  /** In any run in which an order is handled once, its trades cost its traded
      quantity at its price; handled to the end, the row's average price is the
      quantity-weighted price of its trades, which cost its whole quantity. */
  lemma HandledOnceValue(parse: Parser, db: Db, before: seq<Handled>, h: Handled, later: seq<Handled>, id: nat)
    requires ValidRun(parse, (before + [h]) + later) && CommitsFreeKeys(db.trades, h)
    requires id !in db.orders && forall row :: row in db.trades ==> row.order != id
    requires Names(parse, h, id) && Unnamed(parse, before, id) && Unnamed(parse, later, id)
    ensures var t := AfterRun(parse, db, (before + [h]) + later);
      var price := if h.order.price > 0.0 then h.order.price else 62000.0;
      && TradedValue(t.trades, id) == Cost(TradedQty(t.trades, id), price)
      && (Completed(h) && Fillable(h.order) ==>
            (id in t.orders && t.orders[id].avgPrice == Some(price)
             && TradedValue(t.trades, id) == Cost(h.order.qty, price)))
  {
    var run := (before + [h]) + later;
    var price := if h.order.price > 0.0 then h.order.price else 62000.0;
    var t := AfterRun(parse, db, run);
    TradesExplained(parse, db, run);
    forall row | row in t.trades && row.order == id ensures row.price == price {
      var i :| 0 <= i < |run| && FillOf(parse, row, run[i]);
      OnlyOneNames(parse, before, h, later, id, i);
    }
    ValueAtOnePrice(t.trades, id, price);
    NoTradesNoQty(db.trades, id);
    OrderHandledOnceAgrees(parse, db, before, h, later, id);
    if Completed(h) && Fillable(h.order) {
      RowAtTheEnd(parse, db, before, h, later, id);
    }
  }

  lemma OnlyOneNames(parse: Parser, before: seq<Handled>, h: Handled, later: seq<Handled>, id: nat, i: nat)
    requires Unnamed(parse, before, id) && Unnamed(parse, later, id)
    requires var run := (before + [h]) + later; i < |run| && Names(parse, run[i], id)
    ensures ((before + [h]) + later)[i] == h
  {}

  lemma {:induction false} NoTradesNoQty(trades: seq<TradeRow>, id: nat)
    requires forall row :: row in trades ==> row.order != id
    ensures TradedQty(trades, id) == 0.0
  {
    if trades != [] {
      assert trades[|trades| - 1] in trades;
      NoTradesNoQty(trades[..|trades| - 1], id);
    }
  }

  lemma RowAtTheEnd(parse: Parser, db: Db, before: seq<Handled>, h: Handled, later: seq<Handled>, id: nat)
    requires ValidRun(parse, (before + [h]) + later) && Names(parse, h, id) && Unnamed(parse, later, id)
    requires Completed(h) && Fillable(h.order)
    ensures var t := AfterRun(parse, db, (before + [h]) + later);
      id in t.orders && t.orders[id].avgPrice == Some(if h.order.price > 0.0 then h.order.price else 62000.0)
  {
    RunParts(parse, before + [h], later);
    RunOfOneMore(parse, db, before, h);
    CompletedRow(parse, AfterRun(parse, db, before), h, id);
    RunKeepsUnnamedOrder(parse, AfterRun(parse, db, before + [h]), later, id);
    RunSplits(parse, db, before + [h], later);
  }
}
