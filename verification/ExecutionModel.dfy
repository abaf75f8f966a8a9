/**
 Data of the execution layer: intents, orders, the rows of the durable ledger and
 the action log whose replay is the ledger database.

 Symbols and exchange names are taken upper-cased, prices and quantities are reals,
 and the SHA-256 client order id is the injective constructor `Entry` applied to the
 fields that the source hashes.
 */
module ExecutionModel {
  import opened Optional

  datatype Mode = Paper | Testnet | Shadow | Live
  datatype Action = Long | Short | OtherAction
  datatype Side = Buy | Sell
  datatype OrderType = Market | StopMarket | TakeProfit | OtherType
  datatype OrderStatus =
    | New | Submitting | Acknowledged | PartiallyFilled | Filled
    | CancelPending | Canceled | Cancelled | Rejected | Expired | Unknown

  type Symbol = string

  /** The fields hashed by deterministic_client_order_id. */
  datatype Key = Key(
    exchange: string, mode: Mode, symbol: Symbol, action: Action,
    entry: real, stopLoss: real,
    tp1: Option<real>, tp2: Option<real>, tp3: Option<real>,
    quantity: real, leverage: real)

  /** "apex-<digest>", "<parent>-sl" and "<parent>-tp<index>". */
  datatype OrderId = Entry(key: Key) | Stop(parent: OrderId) | Target(parent: OrderId, index: nat)

  datatype Intent = Intent(
    symbol: Symbol, action: Action, entry: real, stopLoss: real,
    tp1: Option<real>, tp2: Option<real>, tp3: Option<real>,
    quantity: real, leverage: real, approved: bool, paperOnly: bool)

  datatype Order = Order(
    id: OrderId, exchangeId: Option<string>, symbol: Symbol, side: Side, orderType: OrderType,
    quantity: real, price: Option<real>, stopPrice: Option<real>,
    reduceOnly: bool, closePosition: bool, leverage: real, status: OrderStatus,
    filled: real, averagePrice: Option<real>,
    exchange: string, mode: Mode, parent: Option<OrderId>)

  datatype Position = Position(symbol: Symbol, side: Action, quantity: real, averagePrice: Option<real>, open: bool)

  /** The fill id hashes order id, quantity, price and time, so those four fields identify a fill. */
  datatype Fill = Fill(orderId: OrderId, symbol: Symbol, side: Side, quantity: real, price: real, time: real)

  datatype Exn = TimeoutExn | ConnectionExn | TransportExn | ValueExn | KeyExn | RuntimeExn | OtherExn

  /** What a call that may raise gives back. */
  datatype Reply<+T> = Ok(value: T) | Raise(exn: Exn)

  function KeyOf(intent: Intent, exchange: string, mode: Mode): Key {
    Key(exchange, mode, intent.symbol, intent.action, intent.entry, intent.stopLoss,
        intent.tp1, intent.tp2, intent.tp3, intent.quantity, intent.leverage)
  }

  function EntryIdOf(intent: Intent, exchange: string, mode: Mode): OrderId {
    Entry(KeyOf(intent, exchange, mode))
  }

  /** OrderRequest.from_intent; the order constructor raises unless the quantity is positive. */
  function FromIntent(intent: Intent, exchange: string, mode: Mode): Reply<Order> {
    if intent.quantity <= 0.0 then Raise(ValueExn)
    else
      Ok(Order(EntryIdOf(intent, exchange, mode), None, intent.symbol,
               if intent.action.Long? then Buy else Sell, Market,
               intent.quantity, Some(intent.entry), None, false, false, intent.leverage, New,
               0.0, None, exchange, mode, None))
  }

  predicate Live?(status: OrderStatus) {
    status.New? || status.Acknowledged? || status.PartiallyFilled?
  }

  // ---------------------------------------------------------------- ledger rows

  datatype ReconStatus = Match | Okay | Unclear | Discrepancy
  datatype KillState = Killed | Reset
  datatype Recovery = Ready | Recovering
  datatype IntentStatus =
    | Created | Persisted | Queued | Recovered | Processing | Approved
    | StatusRejected | StatusUnknown | StatusExpired | StatusFailed
    | StatusDuplicate | StatusReconciled | StatusSubmitted

  /** `payload` is None when the stored JSON does not decode into an intent. */
  datatype IntentRow = IntentRow(status: IntentStatus, createdAt: real, payload: Option<Intent>)

  datatype Db = Db(
    orders: map<OrderId, Order>,
    intents: map<OrderId, IntentRow>,
    fills: seq<Fill>,
    positions: map<Symbol, Position>,
    protections: map<OrderId, Order>,
    recon: seq<(Symbol, ReconStatus)>,
    kills: seq<KillState>)

  const EMPTY_DB: Db := Db(map[], map[], [], map[], map[], [], [])

  /** One committed transaction, or one call of adapter.submit_order. */
  datatype Event =
    | PutOrder(order: Order)
    | PutIntent(id: OrderId, row: IntentRow)
    | SetIntentStatus(id: OrderId, status: IntentStatus)
    | PutFill(fill: Fill, position: Position, recon: ReconStatus)
    | PutProtection(order: Order)
    | PutRecon(symbol: Symbol, recon: ReconStatus)
    | PutKill(state: KillState)
    | Submit(order: Order)

  function Apply(db: Db, event: Event): Db {
    match event
    case PutOrder(o) => db.(orders := db.orders[o.id := o])
    case PutIntent(id, row) =>
      // on conflict only status and payload are overwritten
      var created := if id in db.intents then db.intents[id].createdAt else row.createdAt;
      db.(intents := db.intents[id := row.(createdAt := created)])
    case SetIntentStatus(id, status) =>
      if id in db.intents then db.(intents := db.intents[id := db.intents[id].(status := status)]) else db
    case PutFill(fill, position, recon) =>
      db.(fills := if KnownFill(db.fills, fill) then db.fills else db.fills + [fill],
          positions := db.positions[position.symbol := position],
          recon := db.recon + [(position.symbol, recon)])
    case PutProtection(o) => db.(protections := db.protections[o.id := o])
    case PutRecon(symbol, status) => db.(recon := db.recon + [(symbol, status)])
    case PutKill(state) => db.(kills := db.kills + [state])
    case Submit(_) => db
  }

  /** The UNIQUE fill_id is already taken, so INSERT OR IGNORE drops the row. */
  predicate KnownFill(fills: seq<Fill>, fill: Fill) {
    exists g | g in fills ::
      g.orderId == fill.orderId && g.quantity == fill.quantity && g.price == fill.price && g.time == fill.time
  }

  /** The database after the transactions of `log`: what a restart finds on disk. */
  function Replay(log: seq<Event>): Db {
    if log == [] then EMPTY_DB else Apply(Replay(log[..|log| - 1]), log[|log| - 1])
  }

  lemma ReplayAppend(log: seq<Event>, event: Event)
    ensures Replay(log + [event]) == Apply(Replay(log), event)
  {
    assert (log + [event])[..|log|] == log;
  }

  function Fills(fills: seq<Fill>, id: OrderId): real {
    if fills == [] then 0.0
    else Fills(fills[..|fills| - 1], id) + (if fills[|fills| - 1].orderId == id then fills[|fills| - 1].quantity
                                            else 0.0)
  }

  function SymbolFills(fills: seq<Fill>, symbol: Symbol): real {
    if fills == [] then 0.0
    else SymbolFills(fills[..|fills| - 1], symbol) + (if fills[|fills| - 1].symbol == symbol
                                                      then fills[|fills| - 1].quantity else 0.0)
  }

  predicate IsKilled(db: Db) { db.kills != [] && db.kills[|db.kills| - 1].Killed? }

  predicate Good(status: ReconStatus) { status.Match? || status.Okay? }

  /** The latest reconciliation row, if any, is MATCH or OK. */
  predicate LatestGood(db: Db) { db.recon == [] || Good(db.recon[|db.recon| - 1].1) }

  predicate Negligible(gap: real) { -TOLERANCE <= gap <= TOLERANCE }

  /** _validate_derived_state passes: every open position equals the summed fills of its symbol. */
  predicate DerivedStateValid(db: Db) {
    forall symbol | symbol in db.positions && db.positions[symbol].open ::
      Negligible(db.positions[symbol].quantity - SymbolFills(db.fills, symbol))
  }

  const TOLERANCE: real := 0.000000001
}
