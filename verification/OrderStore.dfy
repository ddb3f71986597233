/** The execution store: the order, trade and position tables, and one execution
    report persisted as one transaction. */
module OrderStore {
  import opened Numbers

  const BUY: int := 1
  const SELL: int := 2

  const STATUS_NEW: int := 1
  const STATUS_PARTIALLY_FILLED: int := 2
  const STATUS_FILLED: int := 3
  const STATUS_CANCELED: int := 4
  const STATUS_REJECTED: int := 5

  const ACTION_CANCEL: int := 2

  datatype OrderCommand = OrderCommand(
    accountId: string,
    symbol: string,
    clientOrderId: string,
    side: int,
    qty: real,
    price: real,
    action: int)

  /** The fields of a report that reach the tables; the event time is in the
      resolution the trade table keeps. */
  datatype ExecutionReport = ExecutionReport(
    status: int,
    lastFilledQty: real,
    lastFilledPrice: real,
    cumulativeFilledQty: real,
    avgPrice: real,
    eventTime: int,
    fillId: string)

  datatype OrderRow = OrderRow(
    accountId: string,
    symbol: string,
    side: string,
    qty: real,
    status: string,
    filledQty: real,
    avgPrice: Option<real>)

  datatype TradeRow = TradeRow(
    order: nat,
    accountId: string,
    symbol: string,
    side: string,
    qty: real,
    price: real,
    tradeTime: int,
    fillId: string)

  datatype PositionRow = PositionRow(qty: real, entryPrice: Option<real>)

  datatype Account = Account(id: string, symbol: string)

  datatype Db = Db(orders: map<nat, OrderRow>, trades: seq<TradeRow>, positions: map<Account, PositionRow>)

  /** How order ids read as UUIDs: several texts may denote one. */
  type Parser = string -> Option<nat>

  // ---------------------------------------------------------------------
  // Row values
  // ---------------------------------------------------------------------

  function MapSide(side: int): string {
    if side == SELL then "SELL" else "BUY"
  }

  function MapStatus(status: int): string {
    if status == STATUS_PARTIALLY_FILLED then "PARTIALLY_FILLED"
    else if status == STATUS_FILLED then "FILLED"
    else if status == STATUS_REJECTED then "REJECTED"
    else if status == STATUS_CANCELED then "CANCELED"
    else if status == 6 then "EXPIRED"
    else "NEW"
  }

  predicate IsFillLike(r: ExecutionReport) {
    r.status == STATUS_PARTIALLY_FILLED || r.status == STATUS_FILLED
  }

  predicate Fills(r: ExecutionReport) {
    IsFillLike(r) && r.lastFilledQty > 0.0
  }

  /** `NULLIF(x, 0)` */
  function NullIfZero(x: real): Option<real> {
    if x == 0.0 then None else Some(x)
  }

  function QtyDelta(order: OrderCommand, r: ExecutionReport): real {
    if order.side == BUY then r.lastFilledQty else -r.lastFilledQty
  }

  function AccountOf(order: OrderCommand): Account {
    Account(order.accountId, order.symbol)
  }

  /** The unique key of the trade table is taken. */
  predicate KeyTaken(trades: seq<TradeRow>, fillId: string, tradeTime: int) {
    exists i :: 0 <= i < |trades| && trades[i].fillId == fillId && trades[i].tradeTime == tradeTime
  }

  // ---------------------------------------------------------------------
  // The statements of the transaction
  // ---------------------------------------------------------------------

  function UpsertedOrders(orders: map<nat, OrderRow>, id: nat, order: OrderCommand,
                          r: ExecutionReport): map<nat, OrderRow> {
    if id in orders then
      orders[id := orders[id].(status := MapStatus(r.status), filledQty := r.cumulativeFilledQty,
        avgPrice := NullIfZero(r.avgPrice))]
    else
      orders[id := OrderRow(order.accountId, order.symbol, MapSide(order.side), order.qty, MapStatus(r.status),
        r.cumulativeFilledQty, NullIfZero(r.avgPrice))]
  }

  function TradeOf(id: nat, order: OrderCommand, r: ExecutionReport): TradeRow {
    TradeRow(id, order.accountId, order.symbol, MapSide(order.side), r.lastFilledQty, r.lastFilledPrice, r.eventTime,
      r.fillId)
  }

  /** `ON CONFLICT (fill_id, trade_time) DO NOTHING` */
  function InsertedTrades(trades: seq<TradeRow>, id: nat, order: OrderCommand, r: ExecutionReport): seq<TradeRow> {
    if KeyTaken(trades, r.fillId, r.eventTime) then trades else trades + [TradeOf(id, order, r)]
  }

  function UpdatedPositions(positions: map<Account, PositionRow>, order: OrderCommand,
                            r: ExecutionReport): map<Account, PositionRow> {
    var a, delta, entry := AccountOf(order), QtyDelta(order, r), NullIfZero(r.avgPrice);
    if a in positions then
      positions[a := PositionRow(positions[a].qty + delta, if entry.Some? then entry else positions[a].entryPrice)]
    else positions[a := PositionRow(delta, entry)]
  }

  /** The whole transaction, for an order id that reads as `id`. */
  function Persisted(db: Db, id: nat, order: OrderCommand, r: ExecutionReport): Db {
    var orders := UpsertedOrders(db.orders, id, order, r);
    if Fills(r) then
      Db(orders, InsertedTrades(db.trades, id, order, r), UpdatedPositions(db.positions, order, r))
    else db.(orders := orders)
  }

  class DbWriter {
    const parse: Parser
    var orders: map<nat, OrderRow>
    var trades: seq<TradeRow>
    var positions: map<Account, PositionRow>

    constructor (parse: Parser, db: Db)
      ensures this.parse == parse && State() == db
    {
      this.parse := parse;
      orders, trades, positions := db.orders, db.trades, db.positions;
    }

    function State(): Db
      reads this
    {
      Db(orders, trades, positions)
    }

    method UpsertOrder(id: nat, order: OrderCommand, r: ExecutionReport)
      modifies this`orders
      ensures orders == UpsertedOrders(old(orders), id, order, r)
    {
      if id in orders {
        orders := orders[id := orders[id].(status := MapStatus(r.status), filledQty := r.cumulativeFilledQty,
          avgPrice := NullIfZero(r.avgPrice))];
      } else {
        orders := orders[id := OrderRow(order.accountId, order.symbol, MapSide(order.side), order.qty,
          MapStatus(r.status), r.cumulativeFilledQty, NullIfZero(r.avgPrice))];
      }
    }

    method InsertFillIdempotent(id: nat, order: OrderCommand, r: ExecutionReport)
      modifies this`trades
      ensures trades == InsertedTrades(old(trades), id, order, r)
    {
      if !KeyTaken(trades, r.fillId, r.eventTime) {
        trades := trades + [TradeOf(id, order, r)];
      }
    }

    method UpdatePosition(order: OrderCommand, r: ExecutionReport)
      modifies this`positions
      ensures positions == UpdatedPositions(old(positions), order, r)
    {
      var a := Account(order.accountId, order.symbol);
      var delta := if order.side == BUY then r.lastFilledQty else -r.lastFilledQty;
      var entry := NullIfZero(r.avgPrice);
      if a in positions {
        positions := positions[a := PositionRow(positions[a].qty + delta,
          if entry.Some? then entry else positions[a].entryPrice)];
      } else {
        positions := positions[a := PositionRow(delta, entry)];
      }
    }

    /** All statements or none: `failAt` is the statement the database fails at, if
        any (1 upsert, 2 fill, 3 position, 4 commit). */
    method PersistExecution(order: OrderCommand, r: ExecutionReport, failAt: nat) returns (ok: bool)
      modifies this
      ensures ok ==> parse(order.clientOrderId).Some?
      ensures ok ==> State() == Persisted(old(State()), parse(order.clientOrderId).value, order, r)
      ensures !ok ==> State() == old(State())
      ensures parse(order.clientOrderId).Some? && (failAt == 0 || failAt > 4) ==> ok
    {
      var id := parse(order.clientOrderId);
      if id.None? || failAt == 1 {
        return false;
      }
      var savedOrders, savedTrades, savedPositions := orders, trades, positions;
      UpsertOrder(id.value, order, r);
      var failed := false;
      if IsFillLike(r) && r.lastFilledQty > 0.0 {
        InsertFillIdempotent(id.value, order, r);
        UpdatePosition(order, r);
        failed := failAt == 2 || failAt == 3;
      }
      if failed || failAt == 4 {
        orders, trades, positions := savedOrders, savedTrades, savedPositions;
        return false;
      }
      return true;
    }
  }

  // ---------------------------------------------------------------------
  // Agreement of positions and trades
  // ---------------------------------------------------------------------

  function SignedQty(t: TradeRow): real {
    if t.side == "SELL" then -t.qty else t.qty
  }

  /** The net quantity of one account and symbol in the trade table. */
  function NetQty(trades: seq<TradeRow>, a: Account): real {
    if trades == [] then 0.0
    else
      var t := trades[|trades| - 1];
      NetQty(trades[..|trades| - 1], a) + if t.accountId == a.id && t.symbol == a.symbol then SignedQty(t) else 0.0
  }

  function PositionQty(db: Db, a: Account): real {
    if a in db.positions then db.positions[a].qty else 0.0
  }

  /** Every position equals the signed sum of its trades. */
  ghost predicate PositionsAgree(db: Db) {
    forall a :: PositionQty(db, a) == NetQty(db.trades, a)
  }

  lemma NetQtySnoc(trades: seq<TradeRow>, t: TradeRow, a: Account)
    ensures NetQty(trades + [t], a)
         == NetQty(trades, a) + if t.accountId == a.id && t.symbol == a.symbol then SignedQty(t) else 0.0
  {
    assert (trades + [t])[..|trades|] == trades;
  }

  lemma PersistedQty(db: Db, id: nat, order: OrderCommand, r: ExecutionReport, a: Account)
    ensures var t := Persisted(db, id, order, r);
      PositionQty(t, a) == PositionQty(db, a) + (if Fills(r) && a == AccountOf(order) then QtyDelta(order, r) else 0.0)
      && NetQty(t.trades, a) == NetQty(db.trades, a)
         + (if Fills(r) && !KeyTaken(db.trades, r.fillId, r.eventTime) && a == AccountOf(order)
            then SignedQty(TradeOf(id, order, r)) else 0.0)
  {
    PersistedPosition(db, id, order, r, a);
    if Fills(r) {
      InsertedNetQty(db.trades, id, order, r, a);
    }
  }

  lemma PersistedPosition(db: Db, id: nat, order: OrderCommand, r: ExecutionReport, a: Account)
    ensures PositionQty(Persisted(db, id, order, r), a)
         == PositionQty(db, a) + if Fills(r) && a == AccountOf(order) then QtyDelta(order, r) else 0.0
  {}

  lemma InsertedNetQty(trades: seq<TradeRow>, id: nat, order: OrderCommand, r: ExecutionReport, a: Account)
    ensures NetQty(InsertedTrades(trades, id, order, r), a)
         == NetQty(trades, a) + if !KeyTaken(trades, r.fillId, r.eventTime) && a == AccountOf(order)
                                then SignedQty(TradeOf(id, order, r)) else 0.0
  {
    NetQtySnoc(trades, TradeOf(id, order, r), a);
  }

  /** From tables that agree, a persisted report leaves tables that agree exactly
      when it fills nothing, or the side is BUY or SELL and its fill key is new:
      the position moves even when the trade is skipped as a duplicate, and for
      any other side the trade reads BUY while the position goes down. */
  lemma AgreementKeptExactly(db: Db, id: nat, order: OrderCommand, r: ExecutionReport)
    requires PositionsAgree(db)
    ensures PositionsAgree(Persisted(db, id, order, r)) <==>
      (Fills(r) ==> order.side in {BUY, SELL} && !KeyTaken(db.trades, r.fillId, r.eventTime))
  {
    var t := Persisted(db, id, order, r);
    forall a ensures PositionQty(t, a) - NetQty(t.trades, a)
      == (if Fills(r) && a == AccountOf(order) then QtyDelta(order, r) else 0.0)
       - (if Fills(r) && !KeyTaken(db.trades, r.fillId, r.eventTime) && a == AccountOf(order)
          then SignedQty(TradeOf(id, order, r)) else 0.0)
    {
      PersistedQty(db, id, order, r, a);
    }
    var a := AccountOf(order);
    assert PositionQty(t, a) == NetQty(t.trades, a) <==>
      (Fills(r) ==> order.side in {BUY, SELL} && !KeyTaken(db.trades, r.fillId, r.eventTime));
  }

  // ---------------------------------------------------------------------
  // Trades of one order
  // ---------------------------------------------------------------------

  /** The quantity traded for one order. */
  function TradedQty(trades: seq<TradeRow>, id: nat): real {
    if trades == [] then 0.0
    else
      var t := trades[|trades| - 1];
      TradedQty(trades[..|trades| - 1], id) + if t.order == id then t.qty else 0.0
  }

  lemma TradedQtySnoc(trades: seq<TradeRow>, t: TradeRow, id: nat)
    ensures TradedQty(trades + [t], id) == TradedQty(trades, id) + if t.order == id then t.qty else 0.0
  {
    assert (trades + [t])[..|trades|] == trades;
  }
}
