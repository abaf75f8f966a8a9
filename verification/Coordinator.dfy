/** ExecutionCoordinator and ProtectionManager, step by step, over the ledger and adapter objects. */
module CoordinatorObject {
  import opened Optional
  import opened ExecutionModel
  import opened ExecutionAdapter
  import opened CoordinatorSpec
  import opened LedgerState
  import opened Exchange

  /** ProtectionManager.create_plan for the children of the entry. */
  method CreatePlan(intent: Intent, exchange: string, mode: Mode, quantity: real) returns (plan: Reply<seq<Order>>)
    ensures plan == Plan(intent, exchange, mode, quantity)
  {
    if !intent.approved {
      return Raise(ValueExn);
    }
    if intent.action == Long && !(intent.stopLoss < intent.entry) {
      return Raise(ValueExn);
    }
    if intent.action == Short && !(intent.stopLoss > intent.entry) {
      return Raise(ValueExn);
    }
    if quantity <= 0.0 || quantity > intent.quantity {
      return Raise(ValueExn);
    }
    var entry := EntryIdOf(intent, exchange, mode);
    var side := if intent.action == Long then Sell else Buy;
    if intent.stopLoss <= 0.0 {
      return Raise(ValueExn);
    }
    var stop := Order(Stop(entry), None, intent.symbol, side, StopMarket, quantity, None, Some(intent.stopLoss),
                      true, false, intent.leverage, New, 0.0, None, exchange, mode, Some(entry));
    var orders := [stop];
    var index := 1;
    while index <= 3
      invariant 1 <= index <= 4
      invariant TargetChildren(intent, entry, quantity, exchange, mode, index - 1).Ok?
      invariant orders == [stop] + TargetChildren(intent, entry, quantity, exchange, mode, index - 1).value
    {
      var target := TargetOf(intent, index);
      if target.Some? {
        if target.value <= 0.0 {
          RaisedTargetStays(intent, entry, quantity, exchange, mode, index, 3);
          return Raise(ValueExn);
        }
        orders := orders + [Order(Target(entry, index), None, intent.symbol, side, TakeProfit, quantity, target, target,
                                  true, false, intent.leverage, New, 0.0, None, exchange, mode, Some(entry))];
      }
      index := index + 1;
    }
    return Ok(orders);
  }

  lemma {:induction false} RaisedTargetStays(intent: Intent, entry: OrderId, quantity: real, exchange: string,
                                             mode: Mode, i: nat, j: nat)
    requires i <= j <= 3
    requires TargetChildren(intent, entry, quantity, exchange, mode, i).Raise?
    ensures TargetChildren(intent, entry, quantity, exchange, mode, j) ==
              TargetChildren(intent, entry, quantity, exchange, mode, i)
  {
    if i < j {
      RaisedTargetStays(intent, entry, quantity, exchange, mode, i, j - 1);
    }
  }

  /** ProtectionManager.verify */
  method Verify(entry: OrderId, filled: real, orders: seq<Order>) returns (verified: bool)
    ensures verified == Verified(entry, filled, orders)
  {
    var stop, target, enough := false, false, true;
    var i := 0;
    while i < |orders|
      invariant 0 <= i <= |orders|
      invariant stop == exists o | o in orders[..i] :: LiveChild(o, entry) && o.stopPrice.Some?
      invariant target == exists o | o in orders[..i] :: LiveChild(o, entry) && o.orderType.TakeProfit?
      invariant enough == forall o | o in orders[..i] && LiveChild(o, entry) :: o.quantity >= filled
    {
      var order := orders[i];
      assert orders[..i + 1] == orders[..i] + [order];
      if order.parent == Some(entry) && order.reduceOnly
         && (order.status == New || order.status == Acknowledged || order.status == PartiallyFilled) {
        if order.stopPrice != None {
          stop := true;
        }
        if order.orderType == TakeProfit {
          target := true;
        }
        if order.quantity < filled {
          enough := false;
        }
      }
      i := i + 1;
    }
    assert orders[..i] == orders;
    return stop && target && enough;
  }

  class Coordinator {
    const cfg: Config
    const ledger: Ledger
    const adapter: ExchangeAdapter
    var requests: set<OrderId>
    var recovery: Recovery
    var transportError: bool

    ghost function State(): Node
      reads this, ledger, adapter
    {
      Node(cfg, ledger.db, ledger.log, ledger.memory, requests, recovery, adapter.State(), transportError)
    }

    ghost predicate Valid()
      reads this, ledger, adapter
    {
      ledger.Valid()
    }

    constructor (cfg: Config, ledger: Ledger, adapter: ExchangeAdapter)
      requires ledger.Valid() && ledger.memory == Ready
      ensures Valid() && this.ledger == ledger && this.adapter == adapter
      ensures State() == Boot(cfg, ledger.log, adapter.State())
    {
      this.cfg := cfg;
      this.ledger := ledger;
      this.adapter := adapter;
      requests := {};
      transportError := false;
      new;
      recovery := ledger.RecoveryState();
    }

    /** adapter.submit_order, noted in the ghost log. */
    method Send(order: Order) returns (reply: Reply<Order>)
      requires Valid()
      modifies ledger`log, adapter
      ensures Valid() && (State(), reply) == CoordinatorSpec.Send(old(State()), order)
    {
      reply := adapter.SubmitOrder(order);
      ReplayAppend(ledger.log, Submit(order));
      ledger.log := ledger.log + [Submit(order)];
    }

    method SubmitIntent(intent: Intent, asOf: Option<real>, now: real) returns (outcome: Outcome)
      requires Valid()
      modifies this, ledger, adapter
      ensures Valid() && (State(), outcome) == CoordinatorSpec.SubmitIntent(old(State()), intent, asOf, now)
    {
      hide CoordinatorSpec.Admit, IsKilled, Replay;
      if recovery == Recovering {
        return Refused(RecoveryRequired);
      }
      var killed := ledger.KillSwitchState();
      if killed {
        return Refused(KillSwitch);
      }
      if !intent.approved {
        return Refused(RiskNotApproved);
      }
      if cfg.mode == Live && !AllowsSubmission(cfg) {
        return Refused(LiveNotEnabled);
      }
      if !AllowsSubmission(cfg) {
        return Refused(ModeDisabled);
      }
      if cfg.globalKill || cfg.exchangeKill || intent.symbol in cfg.symbolKills {
        return Refused(KillSwitch);
      }
      if asOf.Some? && now - asOf.value > cfg.staleAfter {
        return Refused(StaleIntent);
      }
      if intent.quantity <= 0.0 || intent.entry <= 0.0 || intent.stopLoss <= 0.0 {
        return Refused(InvalidLevels);
      }
      var notional := intent.quantity * intent.entry;
      if cfg.maxOrderNotional > 0.0 && notional > cfg.maxOrderNotional {
        return Refused(OrderNotionalLimit);
      }
      if cfg.maxPositionNotional > 0.0 && notional > cfg.maxPositionNotional {
        return Refused(PositionNotionalLimit);
      }
      if intent.leverage > cfg.maxLeverage {
        return Refused(LeverageLimit);
      }
      var built := FromIntent(intent, adapter.exchange, cfg.mode);
      outcome := Admit(intent, built.value, now);
    }

    /** Duplicates, exchange health and account balance. */
    method Admit(intent: Intent, order: Order, now: real) returns (outcome: Outcome)
      requires Valid()
      modifies this, ledger, adapter
      ensures Valid() && (State(), outcome) == CoordinatorSpec.Admit(old(State()), intent, order, now)
    {
      hide ExchangeAdapter.State, Replay, Apply;
      if order.id in requests {
        var existing := adapter.GetOrder(order.id);
        if existing.Raise? {
          return Raised(existing.exn);
        }
        if existing.value.Some? {
          return Outcome(OutDuplicate, existing.value, DuplicateIntent);
        }
        return Refused(AmbiguousRetry);
      }
      if order.id in ledger.db.orders {
        var existing := adapter.GetOrder(order.id);
        if existing.Raise? {
          return Raised(existing.exn);
        }
        if existing.value.Some? {
          return Outcome(OutDuplicate, existing.value, DuplicateIntent);
        }
        ledger.RecordReconciliation(order.symbol, Unclear);
        recovery := Recovering;
        return Refused(RecoveryRequired);
      }
      var healthy := adapter.HealthCheck();
      if healthy.Raise? {
        return Raised(healthy.exn);
      }
      if !healthy.value {
        return Refused(ExchangeUnavailable);
      }
      var account := adapter.GetAccountState();
      if account.Raise? {
        return if Transient(account.exn) then Refused(ExchangeUnavailable) else Raised(account.exn);
      }
      var refusal := CheckBalance(intent, account.value);
      if refusal.Some? {
        return Refused(refusal.value);
      }
      outcome := Transmit(intent, order, now);
    }

    method CheckBalance(intent: Intent, balance: Balance) returns (refusal: Option<Reason>)
      ensures refusal == AccountRefusal(cfg, intent, balance)
    {
      if balance == Missing {
        return Some(AccountInvalid);
      }
      if (!balance.Finite? && cfg.mode != Paper && cfg.mode != Shadow) || balance == NegInf
      || (balance.Finite? && balance.amount < 0.0) {
        return Some(AccountInvalid);
      }
      var divisor := if intent.leverage > 1.0 then intent.leverage else 1.0;
      if balance.Finite? && balance.amount < intent.quantity * intent.entry / divisor {
        return Some(InsufficientBalance);
      }
      return None;
    }

    /** Write ahead, submit, then act on the answer. */
    method Transmit(intent: Intent, order: Order, now: real) returns (outcome: Outcome)
      requires Valid()
      modifies this, ledger, adapter
      ensures Valid() && (State(), outcome) == CoordinatorSpec.Transmit(old(State()), intent, order, now)
    {
      hide Replay, Apply, CoordinatorSpec.Settle, CoordinatorSpec.ResolveTimeout, CoordinatorSpec.Send;
      requests := requests + {order.id};
      ledger.PersistIntentOrderTransition(intent, order, now);
      var submitted := Send(order);
      if submitted.Raise? {
        if !Transient(submitted.exn) && submitted.exn != ValueExn {
          return Raised(submitted.exn);
        }
        transportError := submitted.exn == TransportExn;
        outcome := ResolveTimeout(order);
        return;
      }
      ledger.PersistOrder(submitted.value);
      outcome := Settle(intent, order, submitted.value, now);
    }

    method ResolveTimeout(order: Order) returns (outcome: Outcome)
      requires Valid()
      modifies this, ledger, adapter
      ensures Valid() && (State(), outcome) == CoordinatorSpec.ResolveTimeout(old(State()), order)
    {
      hide Replay, Apply;
      var existing := adapter.GetOrder(order.id);
      if existing.Raise? && !Transient(existing.exn) {
        return Raised(existing.exn);
      }
      if existing.Ok? && existing.value.Some? {
        ledger.RecordReconciliation(order.symbol, Match);
        recovery := ledger.RecoveryState();
        return Outcome(OutReconciled, existing.value, TimeoutReconciled);
      }
      ledger.RecordReconciliation(order.symbol, Unclear);
      recovery := ledger.RecoveryState();
      return Outcome(OutUnknown, None, SubmissionUnknown);
    }

    method Settle(intent: Intent, order: Order, submitted: Order, now: real) returns (outcome: Outcome)
      requires Valid()
      modifies this, ledger, adapter
      ensures Valid() && (State(), outcome) == CoordinatorSpec.Settle(old(State()), intent, order, submitted, now)
    {
      hide Replay, Apply, ConfirmFill, Synchronize;
      if submitted.status == Rejected {
        return Outcome(OutRejected, Some(submitted), ExchangeRejected);
      }
      if submitted.status == Unknown {
        ledger.RecordReconciliation(order.symbol, Unclear);
        recovery := Recovering;
        return Outcome(OutUnknown, Some(submitted), SubmissionUnknown);
      }
      var delta := ProcessConfirmedFill(submitted, now);
      if delta.Raise? {
        return Raised(delta.exn);
      }
      if submitted.status == PartiallyFilled || (submitted.status == Filled && cfg.mode == Paper) {
        var protection := SynchronizeProtection(intent, submitted, now);
        if protection.Raise? {
          return Raised(protection.exn);
        }
        if !protection.value {
          return Outcome(OutUnknown, Some(submitted), RecoveryRequired);
        }
      }
      return Outcome(OutSubmitted, Some(submitted), NoReason);
    }

    method ProcessConfirmedFill(order: Order, now: real) returns (delta: Reply<real>)
      requires Valid()
      modifies this, ledger, adapter
      ensures Valid() && (State(), delta) == ConfirmFill(old(State()), order, now)
    {
      hide Replay, Apply;
      if order.reduceOnly || order.filled <= 0.0 {
        return Ok(0.0);
      }
      var previous := ledger.FilledQuantity(order.id);
      var change := order.filled - previous;
      if change < 0.0 {
        ledger.RecordReconciliation(order.symbol, Unclear);
        recovery := Recovering;
        return Ok(0.0);
      }
      if change == 0.0 {
        return Ok(0.0);
      }
      var price := if order.averagePrice.Some? && order.averagePrice.value != 0.0 then order.averagePrice
                   else order.price;
      if price == None {
        ledger.RecordReconciliation(order.symbol, Unclear);
        recovery := Recovering;
        return Ok(0.0);
      }
      if |order.symbol| == 0 || price.value <= 0.0 {
        return Raise(ValueExn);
      }
      BookFill(order, previous + change, change, price.value, now);
      return Ok(change);
    }

    method BookFill(order: Order, total: real, change: real, price: real, now: real)
      requires Valid() && total == order.filled
      modifies this, ledger, adapter
      ensures Valid() && State() == CoordinatorSpec.BookFill(old(State()), order, change, price, now)
    {
      hide Replay, Apply, LatestGood;
      var fill := Fill(order.id, order.symbol, order.side, change, price, now);
      var position := Position(order.symbol, if order.side == Buy then Long else Short, total, Some(price), true);
      ledger.RecordConfirmedFill(fill, position, if order.status == Filled then Match else Unclear);
      recovery := ledger.RecoveryState();
    }

    method SynchronizeProtection(intent: Intent, entry: Order, now: real) returns (done: Reply<bool>)
      requires Valid()
      modifies this, ledger, adapter
      ensures Valid() && (State(), done) == Synchronize(old(State()), intent, entry, now)
    {
      var quantity := ledger.FilledQuantity(entry.id);
      if quantity <= 0.0 {
        return Ok(true);
      }
      var protected := Protect(intent, entry, quantity, now);
      if protected.Ok? {
        return Ok(true);
      }
      if protected.exn == OtherExn {
        return Raise(OtherExn);
      }
      ledger.RecordReconciliation(entry.symbol, Unclear);
      recovery := Recovering;
      return Ok(false);
    }

    method Protect(intent: Intent, entry: Order, quantity: real, now: real) returns (done: Reply<()>)
      requires Valid()
      modifies this, ledger, adapter
      ensures Valid() && (State(), done) == CoordinatorSpec.Protect(old(State()), intent, entry, quantity, now)
    {
      hide Replay, Plan, Verified, CoordinatorSpec.PlaceChild;
      var plan := CreatePlan(intent, adapter.exchange, cfg.mode, quantity);
      if plan.Raise? {
        return Raise(plan.exn);
      }
      var remote: seq<Order> := [];
      var i := 0;
      ghost var start := State();
      while i < |plan.value|
        invariant 0 <= i <= |plan.value| && Valid()
        invariant (State(), Ok(remote)) == Place(start, plan.value[..i], quantity, now)
      {
        assert plan.value[..i + 1][..i] == plan.value[..i];
        var child := PlaceChild(plan.value[i], quantity, now);
        if child.Raise? {
          FailedPlaceStays(start, plan.value, i + 1, quantity, now);
          return Raise(child.exn);
        }
        remote := remote + [child.value];
        i := i + 1;
      }
      assert plan.value[..i] == plan.value;
      var verified := Verify(EntryIdOf(intent, adapter.exchange, cfg.mode), quantity, remote);
      if !verified {
        return Raise(RuntimeExn);
      }
      ledger.RecordReconciliation(entry.symbol, Match);
      recovery := ledger.RecoveryState();
      return Ok(());
    }

    method PlaceChild(desired: Order, quantity: real, now: real) returns (child: Reply<Order>)
      requires Valid()
      modifies this, ledger, adapter
      ensures Valid() && (State(), child) == CoordinatorSpec.PlaceChild(old(State()), desired, quantity, now)
    {
      hide Replay, Apply, SubmitRequest, Lookup, Amend;
      var existing := adapter.GetOrder(desired.id);
      if existing.Raise? {
        return Raise(existing.exn);
      }
      var confirmed := existing.value;
      if confirmed.Some? && confirmed.value.quantity < quantity {
        var amended := adapter.AmendOrder(desired);
        if amended.Raise? {
          return Raise(amended.exn);
        }
        confirmed := Some(amended.value);
      } else if confirmed == None {
        var outcome := SubmitOrderRequest(desired, now);
        if outcome.Raised? {
          return Raise(outcome.exn);
        }
        confirmed := outcome.order;
      }
      if confirmed == None
         || (confirmed.value.status != New && confirmed.value.status != Acknowledged
             && confirmed.value.status != PartiallyFilled)
         || confirmed.value.quantity < quantity {
        return Raise(RuntimeExn);
      }
      ledger.RecordProtection(confirmed.value);
      return Ok(confirmed.value);
    }

    method SubmitOrderRequest(order: Order, now: real) returns (outcome: Outcome)
      requires Valid()
      modifies this, ledger, adapter
      ensures Valid() && (State(), outcome) == SubmitRequest(old(State()), order, now)
    {
      hide Replay, Apply;
      if !order.reduceOnly {
        return Refused(DirectEntry);
      }
      if !AllowsSubmission(cfg) {
        return Refused(ModeDisabled);
      }
      if order.leverage > cfg.maxLeverage || order.quantity <= 0.0 {
        return Refused(InvalidOrder);
      }
      if order.id in requests {
        var existing := adapter.GetOrder(order.id);
        if existing.Raise? {
          return Raised(existing.exn);
        }
        return Outcome(OutDuplicate, existing.value, DuplicateOrder);
      }
      var healthy := adapter.HealthCheck();
      if healthy.Raise? {
        return Raised(healthy.exn);
      }
      if !healthy.value {
        return Refused(ExchangeUnavailable);
      }
      requests := requests + {order.id};
      ledger.PersistOrder(order);
      var submitted := Send(order);
      if submitted.Raise? {
        if !Transient(submitted.exn) && submitted.exn != ValueExn {
          return Raised(submitted.exn);
        }
        transportError := submitted.exn == TransportExn;
        outcome := ResolveRequest(order);
        return;
      }
      ledger.PersistOrder(submitted.value);
      if submitted.value.status == Rejected {
        return Outcome(OutRejected, Some(submitted.value), ProtectionRejected);
      }
      if submitted.value.status == Unknown {
        ledger.RecordReconciliation(order.symbol, Unclear);
        recovery := Recovering;
        return Outcome(OutUnknown, Some(submitted.value), ProtectionRejected);
      }
      return Outcome(OutSubmitted, Some(submitted.value), NoReason);
    }

    method ResolveRequest(order: Order) returns (outcome: Outcome)
      requires Valid()
      modifies this, ledger, adapter
      ensures Valid() && (State(), outcome) == CoordinatorSpec.ResolveRequest(old(State()), order)
    {
      hide Replay, Apply;
      var existing := adapter.GetOrder(order.id);
      if existing.Raise? && !Transient(existing.exn) {
        return Raised(existing.exn);
      }
      if existing.Ok? && existing.value.Some? {
        return Outcome(OutReconciled, existing.value, SubmissionReconciled);
      }
      ledger.RecordReconciliation(order.symbol, Unclear);
      recovery := Recovering;
      return Outcome(OutUnknown, None, SubmissionUnknown);
    }

    method Recover(intent: Intent, orderId: Option<OrderId>, now: real) returns (done: Reply<bool>)
      requires Valid()
      modifies this, ledger, adapter
      ensures Valid() && (State(), done) == CoordinatorSpec.Recover(old(State()), intent, orderId, now)
    {
      hide Replay, Apply, CoordinatorSpec.Rebuild;
      if orderId == None && intent.quantity <= 0.0 {
        return Raise(ValueExn);
      }
      var id := if orderId.Some? then orderId.value else EntryIdOf(intent, adapter.exchange, cfg.mode);
      done := Rebuild(intent, id, now);
      if done.Raise? && done.exn != OtherExn {
        ledger.RecordReconciliation(intent.symbol, Unclear);
        recovery := Recovering;
        return Ok(false);
      }
    }

    method Rebuild(intent: Intent, id: OrderId, now: real) returns (done: Reply<bool>)
      requires Valid()
      modifies this, ledger, adapter
      ensures Valid() && (State(), done) == CoordinatorSpec.Rebuild(old(State()), intent, id, now)
    {
      hide Replay, Apply, ConfirmFill, Synchronize, CoordinatorSpec.ComparePosition, Lookup;
      var found := adapter.GetOrder(id);
      if found.Raise? {
        return Raise(found.exn);
      }
      if found.value == None || found.value.value.status == Unknown {
        return Raise(RuntimeExn);
      }
      var remote := found.value.value;
      ledger.PersistOrder(remote);
      var delta := ProcessConfirmedFill(remote, now);
      if delta.Raise? {
        return Raise(delta.exn);
      }
      if remote.filled > 0.0 {
        var synced := SynchronizeProtection(intent, remote, now);
        if synced.Raise? || !synced.value {
          return synced;
        }
      }
      done := ComparePosition(remote);
    }

    method ComparePosition(remote: Order) returns (done: Reply<bool>)
      requires Valid()
      modifies this, ledger, adapter
      ensures Valid() && (State(), done) == CoordinatorSpec.ComparePosition(old(State()), remote)
    {
      var positions := adapter.GetPositions();
      if positions.Raise? {
        return Raise(positions.exn);
      }
      var held := FindPosition(positions.value, remote.symbol);
      var local := ledger.FilledQuantity(remote.id);
      if held == None || held.value.quantity != local {
        return Raise(RuntimeExn);
      }
      ledger.RecordReconciliation(remote.symbol, Match);
      recovery := ledger.RecoveryState();
      return Ok(recovery == Ready);
    }

    method Reconcile(expected: Option<Position>) returns (result: Reply<ReconResult>)
      requires Valid()
      modifies this, ledger, adapter
      ensures Valid() && (State(), result) == ReconcileWith(old(State()), expected)
    {
      hide Replay, Apply, ExecutionAdapter.Reconcile;
      result := adapter.Reconcile(expected);
      if result.Raise? {
        return;
      }
      var symbol := UNKNOWN_SYMBOL;
      if expected.Some? {
        symbol := expected.value.symbol;
      } else if result.value.actual.Some? {
        symbol := result.value.actual.value;
      }
      ledger.RecordReconciliation(symbol, result.value.status);
      recovery := ledger.RecoveryState();
    }
  }

  /** Once a child fails, the rest of the plan is not placed. */
  lemma {:induction false} FailedPlaceStays(s: Node, plan: seq<Order>, i: nat, quantity: real, now: real)
    requires i <= |plan| && Place(s, plan[..i], quantity, now).1.Raise?
    ensures Place(s, plan, quantity, now) == Place(s, plan[..i], quantity, now)
    decreases |plan|
  {
    if i < |plan| {
      assert plan[..|plan| - 1][..i] == plan[..i];
      FailedPlaceStays(s, plan[..|plan| - 1], i, quantity, now);
    } else {
      assert plan[..i] == plan;
    }
  }
}
