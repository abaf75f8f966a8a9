/**
 The coordinator as functions on its whole state. The methods of class
 `Coordinator` are proved equal to these functions, and the statements over runs
 are proved about them.
 */
module CoordinatorSpec {
  import opened Optional
  import opened ExecutionModel
  import opened ExecutionAdapter

  datatype Config = Config(
    mode: Mode, liveEnabled: bool, hasApiKey: bool, hasApiSecret: bool,
    globalKill: bool, exchangeKill: bool, symbolKills: set<Symbol>,
    maxOrderNotional: real, maxPositionNotional: real, maxLeverage: real, staleAfter: real)

  predicate AllowsSubmission(cfg: Config) {
    cfg.mode.Live? ==> cfg.liveEnabled && cfg.hasApiKey && cfg.hasApiSecret
  }

  datatype Status = OutRejected | OutDuplicate | OutReconciled | OutUnknown | OutSubmitted

  datatype Reason =
    | NoReason | RecoveryRequired | KillSwitch | RiskNotApproved | LiveNotEnabled | ModeDisabled
    | StaleIntent | InvalidLevels | OrderNotionalLimit | PositionNotionalLimit | LeverageLimit
    | DuplicateIntent | AmbiguousRetry | ExchangeUnavailable | AccountInvalid | InsufficientBalance
    | TimeoutReconciled | SubmissionUnknown | ExchangeRejected
    | DirectEntry | InvalidOrder | DuplicateOrder | SubmissionReconciled | ProtectionRejected

  datatype Outcome = Outcome(status: Status, order: Option<Order>, reason: Reason) | Raised(exn: Exn)

  function Refused(reason: Reason): Outcome { Outcome(OutRejected, None, reason) }

  /**
   One process over one ledger database. `log` is the history of commits and of
   submissions; `memory` is the ledger's _recovery_state field, `requests` and
   `recovery` are fields of the coordinator. Only `db` survives a crash.
   */
  datatype Node = Node(
    cfg: Config, db: Db, log: seq<Event>, memory: Recovery,
    requests: set<OrderId>, recovery: Recovery, adapter: Adapter, transportError: bool)
  {
    /** Commit one transaction. Only record_reconciliation also updates `memory`. */
    function Put(event: Event): Node {
      this.(db := Apply(db, event), log := log + [event],
            memory := if event.PutRecon? then (if Good(event.recon) then Ready else Recovering) else memory)
    }

    /** The ledger property recovery_state. */
    function LedgerRecovery(): Recovery {
      if db.recon == [] then Ready else if LatestGood(db) then memory else Recovering
    }

    function Refresh(): Node { this.(recovery := LedgerRecovery()) }

    /** Record an UNKNOWN reconciliation and stop taking entries. */
    function Suspect(symbol: Symbol): Node { Put(PutRecon(symbol, Unclear)).(recovery := Recovering) }
  }

  /** A fresh process on the database left behind by `log`. */
  function Boot(cfg: Config, log: seq<Event>, adapter: Adapter): Node {
    var node := Node(cfg, Replay(log), log, Ready, {}, Ready, adapter, false);
    node.Refresh()
  }

  /** Call adapter.submit_order. */
  function Send(s: Node, order: Order): (Node, Reply<Order>) {
    var (a, reply) := SubmitOrder(s.adapter, order);
    (s.(adapter := a, log := s.log + [Submit(order)]), reply)
  }

  predicate Transient(exn: Exn) { exn.TimeoutExn? || exn.ConnectionExn? || exn.TransportExn? }

  /** ExecutionTransportError is a RuntimeError. */
  predicate Caught(exn: Exn) { !exn.OtherExn? }

  /** `average_fill_price or price`: a zero average counts as absent. */
  function FillPrice(order: Order): Option<real> {
    if order.averagePrice.Some? && order.averagePrice.value != 0.0 then order.averagePrice else order.price
  }

  // ---------------------------------------------------------------- submit_intent

  /** The checks made before the order is built, in order; None when all pass. */
  function StaticRefusal(s: Node, intent: Intent, asOf: Option<real>, now: real): Option<Reason> {
    var notional := intent.quantity * intent.entry;
    if s.recovery.Recovering? then Some(RecoveryRequired)
    else if IsKilled(s.db) then Some(KillSwitch)
    else if !intent.approved then Some(RiskNotApproved)
    else if s.cfg.mode.Live? && !AllowsSubmission(s.cfg) then Some(LiveNotEnabled)
    else if s.cfg.globalKill || s.cfg.exchangeKill || intent.symbol in s.cfg.symbolKills then Some(KillSwitch)
    else if asOf.Some? && now - asOf.value > s.cfg.staleAfter then Some(StaleIntent)
    else if intent.quantity <= 0.0 || intent.entry <= 0.0 || intent.stopLoss <= 0.0 then Some(InvalidLevels)
    else if s.cfg.maxOrderNotional > 0.0 && notional > s.cfg.maxOrderNotional then Some(OrderNotionalLimit)
    else if s.cfg.maxPositionNotional > 0.0 && notional > s.cfg.maxPositionNotional then Some(PositionNotionalLimit)
    else if intent.leverage > s.cfg.maxLeverage then Some(LeverageLimit)
    else None
  }

  function AccountRefusal(cfg: Config, intent: Intent, balance: Balance): Option<Reason> {
    var needed := intent.quantity * intent.entry / (if intent.leverage > 1.0 then intent.leverage else 1.0);
    match balance
    case Missing => Some(AccountInvalid)
    case Finite(amount) =>
      if amount < 0.0 then Some(AccountInvalid) else if amount < needed then Some(InsufficientBalance) else None
    case NegInf => Some(AccountInvalid)
    case PosInf => if cfg.mode.Paper? || cfg.mode.Shadow? then None else Some(AccountInvalid)
    case NotANumber => if cfg.mode.Paper? || cfg.mode.Shadow? then None else Some(AccountInvalid)
  }

  function SubmitIntent(s: Node, intent: Intent, asOf: Option<real>, now: real): (Node, Outcome) {
    var refusal := StaticRefusal(s, intent, asOf, now);
    if refusal.Some? then (s, Refused(refusal.value))
    else
      var order := FromIntent(intent, s.adapter.exchange, s.cfg.mode);
      if order.Raise? then (s, Raised(order.exn)) else Admit(s, intent, order.value, now)
  }

  /** Duplicate detection, then the exchange and account checks. */
  function Admit(s: Node, intent: Intent, order: Order, now: real): (Node, Outcome) {
    if order.id in s.requests || order.id in s.db.orders then
      var (a, found) := Lookup(s.adapter, order.id);
      var t := s.(adapter := a);
      match found
      case Raise(e) => (t, Raised(e))
      case Ok(Some(existing)) => (t, Outcome(OutDuplicate, Some(existing), DuplicateIntent))
      case Ok(None) =>
        if order.id in s.requests then (t, Refused(AmbiguousRetry))
        else (t.Suspect(order.symbol), Refused(RecoveryRequired))
    else
      var (a, health) := Health(s.adapter);
      if health.Raise? then (s.(adapter := a), Raised(health.exn))
      else if !health.value then (s.(adapter := a), Refused(ExchangeUnavailable))
      else
        var (b, account) := Account(a);
        var t := s.(adapter := b);
        if account.Raise? then (t, if Transient(account.exn) then Refused(ExchangeUnavailable) else Raised(account.exn))
        else
          var refusal := AccountRefusal(s.cfg, intent, account.value);
          if refusal.Some? then (t, Refused(refusal.value)) else Transmit(t, intent, order, now)
  }

  /** Write the order and intent rows ahead of the submission itself. */
  function WriteAhead(s: Node, intent: Intent, order: Order, now: real): Node {
    s.(requests := s.requests + {order.id})
     .Put(PutOrder(order))
     .Put(PutIntent(order.id, IntentRow(Approved, now, Some(intent))))
  }

  function Transmit(s: Node, intent: Intent, order: Order, now: real): (Node, Outcome) {
    var (t, reply) := Send(WriteAhead(s, intent, order, now), order);
    match reply
    case Ok(submitted) => Settle(t.Put(PutOrder(submitted)), intent, order, submitted, now)
    case Raise(e) =>
      if !Transient(e) && !e.ValueExn? then (t, Raised(e))
      else ResolveTimeout(t.(transportError := e.TransportExn?), order)
  }

  /** The submission raised: ask once whether the exchange knows the order. */
  function ResolveTimeout(s: Node, order: Order): (Node, Outcome) {
    var (a, found) := Lookup(s.adapter, order.id);
    var t := s.(adapter := a);
    if found.Raise? && !Transient(found.exn) then (t, Raised(found.exn))
    else if found.Ok? && found.value.Some? then
      (t.Put(PutRecon(order.symbol, Match)).Refresh(), Outcome(OutReconciled, found.value, TimeoutReconciled))
    else (t.Put(PutRecon(order.symbol, Unclear)).Refresh(), Outcome(OutUnknown, None, SubmissionUnknown))
  }

  function Settle(s: Node, intent: Intent, order: Order, submitted: Order, now: real): (Node, Outcome) {
    if submitted.status.Rejected? then (s, Outcome(OutRejected, Some(submitted), ExchangeRejected))
    else if submitted.status.Unknown?
            then (s.Suspect(order.symbol), Outcome(OutUnknown, Some(submitted), SubmissionUnknown))
    else
      var (t, delta) := ConfirmFill(s, submitted, now);
      if delta.Raise? then (t, Raised(delta.exn))
      else if submitted.status.PartiallyFilled? || (submitted.status.Filled? && s.cfg.mode.Paper?) then
        var (u, synced) := Synchronize(t, intent, submitted, now);
        if synced.Raise? then (u, Raised(synced.exn))
        else if !synced.value then (u, Outcome(OutUnknown, Some(submitted), RecoveryRequired))
        else (u, Outcome(OutSubmitted, Some(submitted), NoReason))
      else (t, Outcome(OutSubmitted, Some(submitted), NoReason))
  }

  // ---------------------------------------------------------------- process_confirmed_fill

  function ConfirmFill(s: Node, order: Order, now: real): (Node, Reply<real>) {
    var previous := Fills(s.db.fills, order.id);
    var delta := order.filled - previous;
    var price := FillPrice(order);
    if order.reduceOnly || order.filled <= 0.0 || delta == 0.0 then (s, Ok(0.0))
    else if delta < 0.0 || price.None? then (s.Suspect(order.symbol), Ok(0.0))
    else if price.value <= 0.0 || |order.symbol| == 0 then (s, Raise(ValueExn))
    else
      (BookFill(s, order, delta, price.value, now), Ok(delta))
  }

  /** One transaction: the fill, the position at the cumulative quantity, the reconciliation row. */
  function BookFill(s: Node, order: Order, delta: real, price: real, now: real): Node {
    var fill := Fill(order.id, order.symbol, order.side, delta, price, now);
    var position := Position(order.symbol, if order.side.Buy? then Long else Short, order.filled, Some(price), true);
    s.Put(PutFill(fill, position, if order.status.Filled? then Match else Unclear)).Refresh()
  }

  // ---------------------------------------------------------------- protection

  function Child(intent: Intent, entry: OrderId, id: OrderId, orderType: OrderType, quantity: real,
                 price: Option<real>, trigger: real, exchange: string, mode: Mode): Order
  {
    Order(id, None, intent.symbol, if intent.action.Long? then Sell else Buy, orderType, quantity, price, Some(trigger),
          true, false, intent.leverage, New, 0.0, None, exchange, mode, Some(entry))
  }

  function TargetOf(intent: Intent, index: nat): Option<real>
    requires 1 <= index <= 3
  {
    if index == 1 then intent.tp1 else if index == 2 then intent.tp2 else intent.tp3
  }

  /** The take-profit children of index 1 to `upTo`; a trigger price must be positive. */
  function TargetChildren(intent: Intent, entry: OrderId, quantity: real, exchange: string, mode: Mode,
                          upTo: nat): Reply<seq<Order>>
    requires upTo <= 3
  {
    if upTo == 0 then Ok([])
    else
      var before := TargetChildren(intent, entry, quantity, exchange, mode, upTo - 1);
      var target := TargetOf(intent, upTo);
      if before.Raise? || target.None? then before
      else if target.value <= 0.0 then Raise(ValueExn)
      else Ok(before.value + [Child(intent, entry, Target(entry, upTo), TakeProfit, quantity, target, target.value,
                                    exchange, mode)])
  }

  /** create_plan without its first element, the entry. */
  function Plan(intent: Intent, exchange: string, mode: Mode, quantity: real): Reply<seq<Order>> {
    if !intent.approved
      || (intent.action.Long? && intent.stopLoss >= intent.entry)
      || (intent.action.Short? && intent.stopLoss <= intent.entry)
      || quantity <= 0.0 || quantity > intent.quantity || intent.stopLoss <= 0.0 then Raise(ValueExn)
    else
      var entry := EntryIdOf(intent, exchange, mode);
      var targets := TargetChildren(intent, entry, quantity, exchange, mode, 3);
      if targets.Raise? then targets
      else Ok([Child(intent, entry, Stop(entry), StopMarket, quantity, None, intent.stopLoss, exchange,
                     mode)] + targets.value)
  }

  predicate LiveChild(order: Order, entry: OrderId) {
    order.parent == Some(entry) && order.reduceOnly && Live?(order.status)
  }

  /** ProtectionManager.verify */
  predicate Verified(entry: OrderId, filled: real, orders: seq<Order>) {
    && (exists o | o in orders :: LiveChild(o, entry) && o.stopPrice.Some?)
    && (exists o | o in orders :: LiveChild(o, entry) && o.orderType.TakeProfit?)
    && (forall o | o in orders && LiveChild(o, entry) :: o.quantity >= filled)
  }

  function Synchronize(s: Node, intent: Intent, entry: Order, now: real): (Node, Reply<bool>) {
    var quantity := Fills(s.db.fills, entry.id);
    if quantity <= 0.0 then (s, Ok(true))
    else
      var (t, done) := Protect(s, intent, entry, quantity, now);
      match done
      case Ok(_) => (t, Ok(true))
      case Raise(e) => if Caught(e) then (t.Suspect(entry.symbol), Ok(false)) else (t, Raise(e))
  }

  /** The try block of synchronize_protection. */
  function Protect(s: Node, intent: Intent, entry: Order, quantity: real, now: real): (Node, Reply<()>) {
    var plan := Plan(intent, s.adapter.exchange, s.cfg.mode, quantity);
    if plan.Raise? then (s, Raise(plan.exn))
    else
      var (t, remote) := Place(s, plan.value, quantity, now);
      if remote.Raise? then (t, Raise(remote.exn))
      else if !Verified(EntryIdOf(intent, s.adapter.exchange, s.cfg.mode), quantity, remote.value)
              then (t, Raise(RuntimeExn))
      else (t.Put(PutRecon(entry.symbol, Match)).Refresh(), Ok(()))
  }

  /** Place the children of `plan` in order; what the exchange confirmed for each. */
  function Place(s: Node, plan: seq<Order>, quantity: real, now: real): (Node, Reply<seq<Order>>) {
    if plan == [] then (s, Ok([]))
    else
      var (t, before) := Place(s, plan[..|plan| - 1], quantity, now);
      if before.Raise? then (t, before)
      else
        var (u, child) := PlaceChild(t, plan[|plan| - 1], quantity, now);
        if child.Raise? then (u, Raise(child.exn)) else (u, Ok(before.value + [child.value]))
  }

  function PlaceChild(s: Node, desired: Order, quantity: real, now: real): (Node, Reply<Order>) {
    var (t, existing) := ObtainChild(s, desired, quantity, now);
    if existing.Raise? then (t, Raise(existing.exn))
    else if existing.value.None? || !Live?(existing.value.value.status) || existing.value.value.quantity < quantity
            then (t, Raise(RuntimeExn))
    else (t.Put(PutProtection(existing.value.value)), Ok(existing.value.value))
  }

  /** Look the child up, amend it when too small, submit it when absent. */
  function ObtainChild(s: Node, desired: Order, quantity: real, now: real): (Node, Reply<Option<Order>>) {
    var (a, found) := Lookup(s.adapter, desired.id);
    var t := s.(adapter := a);
    if found.Raise? then (t, found)
    else if found.value.None? then
      var (u, outcome) := SubmitRequest(t, desired, now);
      (u, if outcome.Raised? then Raise(outcome.exn) else Ok(outcome.order))
    else if found.value.value.quantity < quantity then
      var (b, amended) := Amend(a, desired);
      (s.(adapter := b), if amended.Raise? then Raise(amended.exn) else Ok(Some(amended.value)))
    else (t, found)
  }

  function SubmitRequest(s: Node, order: Order, now: real): (Node, Outcome) {
    if !order.reduceOnly then (s, Refused(DirectEntry))
    else if !AllowsSubmission(s.cfg) then (s, Refused(ModeDisabled))
    else if order.leverage > s.cfg.maxLeverage || order.quantity <= 0.0 then (s, Refused(InvalidOrder))
    else if order.id in s.requests then
      var (a, found) := Lookup(s.adapter, order.id);
      (s.(adapter := a), if found.Raise? then Raised(found.exn) else Outcome(OutDuplicate, found.value, DuplicateOrder))
    else
      var (a, health) := Health(s.adapter);
      if health.Raise? then (s.(adapter := a), Raised(health.exn))
      else if !health.value then (s.(adapter := a), Refused(ExchangeUnavailable))
      else
        var (t, reply) := Send(s.(adapter := a, requests := s.requests + {order.id}).Put(PutOrder(order)), order);
        match reply
        case Ok(submitted) => SettleRequest(t.Put(PutOrder(submitted)), order, submitted)
        case Raise(e) =>
          if !Transient(e) && !e.ValueExn? then (t, Raised(e))
          else ResolveRequest(t.(transportError := e.TransportExn?), order)
  }

  function SettleRequest(s: Node, order: Order, submitted: Order): (Node, Outcome) {
    if submitted.status.Rejected? then (s, Outcome(OutRejected, Some(submitted), ProtectionRejected))
    else if submitted.status.Unknown?
            then (s.Suspect(order.symbol), Outcome(OutUnknown, Some(submitted), ProtectionRejected))
    else (s, Outcome(OutSubmitted, Some(submitted), NoReason))
  }

  function ResolveRequest(s: Node, order: Order): (Node, Outcome) {
    var (a, found) := Lookup(s.adapter, order.id);
    var t := s.(adapter := a);
    if found.Raise? && !Transient(found.exn) then (t, Raised(found.exn))
    else if found.Ok? && found.value.Some? then (t, Outcome(OutReconciled, found.value, SubmissionReconciled))
    else (t.Suspect(order.symbol), Outcome(OutUnknown, None, SubmissionUnknown))
  }

  // ---------------------------------------------------------------- recover and reconcile

  function Recover(s: Node, intent: Intent, orderId: Option<OrderId>, now: real): (Node, Reply<bool>) {
    if orderId.None? && intent.quantity <= 0.0 then (s, Raise(ValueExn))
    else
      var id := if orderId.Some? then orderId.value else EntryIdOf(intent, s.adapter.exchange, s.cfg.mode);
      var (t, done) := Rebuild(s, intent, id, now);
      match done
      case Ok(_) => (t, done)
      case Raise(e) => if Caught(e) then (t.Suspect(intent.symbol), Ok(false)) else (t, done)
  }

  /** The try block of recover. */
  function Rebuild(s: Node, intent: Intent, id: OrderId, now: real): (Node, Reply<bool>) {
    var (a, found) := Lookup(s.adapter, id);
    var t := s.(adapter := a);
    if found.Raise? then (t, Raise(found.exn))
    else if found.value.None? || found.value.value.status.Unknown? then (t, Raise(RuntimeExn))
    else
      var remote := found.value.value;
      var (u, delta) := ConfirmFill(t.Put(PutOrder(remote)), remote, now);
      if delta.Raise? then (u, Raise(delta.exn))
      else if remote.filled > 0.0 then
        var (v, synced) := Synchronize(u, intent, remote, now);
        if synced.Raise? || !synced.value then (v, synced) else ComparePosition(v, remote)
      else ComparePosition(u, remote)
  }

  function ComparePosition(s: Node, remote: Order): (Node, Reply<bool>) {
    var (a, positions) := Positions(s.adapter);
    var t := s.(adapter := a);
    if positions.Raise? then (t, Raise(positions.exn))
    else
      var held := FindPosition(positions.value, remote.symbol);
      if held.None? || held.value.quantity != Fills(s.db.fills, remote.id) then (t, Raise(RuntimeExn))
      else
        var u := t.Put(PutRecon(remote.symbol, Match)).Refresh();
        (u, Ok(u.recovery.Ready?))
  }

  const UNKNOWN_SYMBOL: Symbol := "UNKNOWN"

  function ReconcileWith(s: Node, expected: Option<Position>): (Node, Reply<ReconResult>) {
    var (a, result) := Reconcile(s.adapter, expected);
    var t := s.(adapter := a);
    if result.Raise? then (t, result)
    else
      var symbol := if expected.Some? then expected.value.symbol
                    else if result.value.actual.Some? then result.value.actual.value else UNKNOWN_SYMBOL;
      (t.Put(PutRecon(symbol, result.value.status)).Refresh(), result)
  }
}
