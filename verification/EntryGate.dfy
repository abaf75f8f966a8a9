/**
 When submit_intent hands an entry to the exchange, what it hands over, and what it makes of the
 answer: stated in the fields of the configuration, the intent, the balance and the reply.
 */
module EntryGate {
  import opened Arithmetic
  import opened Optional
  import opened ExecutionModel
  import opened ExecutionAdapter
  import opened CoordinatorSpec
  import opened ExecutionSafety
  import opened CommandReports

  // ---------------------------------------------------------------- the order

  /** The entry order of an intent: a market order for its quantity, under the id of all its fields. */
  lemma OrderExactly(intent: Intent, exchange: string, mode: Mode)
    ensures FromIntent(intent, exchange, mode) ==
            if intent.quantity <= 0.0 then Raise(ValueExn)
            else
              Ok(Order(Entry(Key(exchange, mode, intent.symbol, intent.action, intent.entry, intent.stopLoss,
                                 intent.tp1, intent.tp2, intent.tp3, intent.quantity, intent.leverage)),
                       None, intent.symbol, if intent.action == Long then Buy else Sell, Market, intent.quantity,
                       Some(intent.entry), None, false, false, intent.leverage, New, 0.0, None, exchange, mode, None))
  {}

  // ---------------------------------------------------------------- the refusals

  /** What has to hold before the exchange is asked anything. */
  lemma StaticExactly(s: Node, intent: Intent, asOf: Option<real>, now: real)
    ensures StaticRefusal(s, intent, asOf, now).None? <==>
            && s.recovery == Ready && (s.db.kills == [] || s.db.kills[|s.db.kills| - 1] != Killed) && intent.approved
            && (s.cfg.mode == Live ==> s.cfg.liveEnabled && s.cfg.hasApiKey && s.cfg.hasApiSecret)
            && !s.cfg.globalKill && !s.cfg.exchangeKill && intent.symbol !in s.cfg.symbolKills
            && (asOf.None? || now - asOf.value <= s.cfg.staleAfter)
            && intent.quantity > 0.0 && intent.entry > 0.0 && intent.stopLoss > 0.0
            && (s.cfg.maxOrderNotional <= 0.0 || intent.quantity * intent.entry <= s.cfg.maxOrderNotional)
            && (s.cfg.maxPositionNotional <= 0.0 || intent.quantity * intent.entry <= s.cfg.maxPositionNotional)
            && intent.leverage <= s.cfg.maxLeverage
  {}

  /** A refusal gives a reason that is true. */
  lemma ReasonsAreTrue(s: Node, intent: Intent, asOf: Option<real>, now: real)
    ensures var reason := StaticRefusal(s, intent, asOf, now);
      && (reason == Some(RecoveryRequired) <==> s.recovery == Recovering)
      && (reason == Some(KillSwitch) ==>
          || (s.db.kills != [] && s.db.kills[|s.db.kills| - 1] == Killed)
          || s.cfg.globalKill || s.cfg.exchangeKill || intent.symbol in s.cfg.symbolKills)
      && (reason == Some(RiskNotApproved) ==> !intent.approved)
      && (reason == Some(LiveNotEnabled) ==>
          s.cfg.mode == Live && !(s.cfg.liveEnabled && s.cfg.hasApiKey && s.cfg.hasApiSecret))
      && (reason == Some(StaleIntent) ==> asOf.Some? && now - asOf.value > s.cfg.staleAfter)
      && (reason == Some(InvalidLevels) ==> intent.quantity <= 0.0 || intent.entry <= 0.0 || intent.stopLoss <= 0.0)
      && (reason == Some(OrderNotionalLimit) ==> intent.quantity * intent.entry > s.cfg.maxOrderNotional > 0.0)
      && (reason == Some(PositionNotionalLimit) ==> intent.quantity * intent.entry > s.cfg.maxPositionNotional > 0.0)
      && (reason == Some(LeverageLimit) ==> intent.leverage > s.cfg.maxLeverage)
  {}

  /**
   The balance covers the notional divided by the leverage, which counts as at least 1. A balance that is not a
   finite number passes only in PAPER and SHADOW, and only if it is not negative.
   */
  predicate Covers(cfg: Config, intent: Intent, balance: Balance) {
    match balance
    case Finite(amount) => 0.0 <= amount && intent.quantity * intent.entry <= amount * Max(intent.leverage, 1.0)
    case PosInf => cfg.mode == Paper || cfg.mode == Shadow
    case NotANumber => cfg.mode == Paper || cfg.mode == Shadow
    case NegInf => false
    case Missing => false
  }

  lemma BalanceExactly(cfg: Config, intent: Intent, balance: Balance)
    ensures AccountRefusal(cfg, intent, balance).None? <==> Covers(cfg, intent, balance)
    ensures AccountRefusal(cfg, intent, balance).Some? ==>
            AccountRefusal(cfg, intent, balance).value ==
            if balance.Finite? && balance.amount >= 0.0 then InsufficientBalance else AccountInvalid
  {
    var notional, divisor := intent.quantity * intent.entry, Max(intent.leverage, 1.0);
    var needed := notional / divisor;
    assert needed * divisor == notional;
    if balance.Finite? {
      Scaled(balance.amount, needed, divisor);
    }
  }

  lemma Scaled(x: real, y: real, divisor: real)
    requires divisor > 0.0
    ensures x < y <==> x * divisor < y * divisor
  {
    if x < y { assert (y - x) * divisor > 0.0; } else { assert (x - y) * divisor >= 0.0; }
  }

  // ---------------------------------------------------------------- the submission

  /** What the log gains when an entry is sent: its order row, its intent row, and the call. */
  function Sent(intent: Intent, order: Order, now: real): seq<Event> {
    [PutOrder(order), PutIntent(order.id, IntentRow(Approved, now, Some(intent))), Submit(order)]
  }

  lemma AheadLog(s: Node, intent: Intent, order: Order, now: real)
    ensures Send(WriteAhead(s, intent, order, now), order).0.log == s.log + Sent(intent, order, now)
  {
    hide Apply, SubmitOrder;
  }

  lemma RequestGrows(s: Node, order: Order, now: real)
    ensures s.log <= SubmitRequest(s, order, now).0.log
  {
    hide Apply, Health, Lookup, SubmitOrder, LatestGood;
  }

  lemma {:induction false} PlaceLogGrows(s: Node, plan: seq<Order>, quantity: real, now: real)
    ensures s.log <= Place(s, plan, quantity, now).0.log
  {
    if plan != [] {
      var before := Place(s, plan[..|plan| - 1], quantity, now).0;
      PlaceLogGrows(s, plan[..|plan| - 1], quantity, now);
      RequestGrows(before.(adapter := Lookup(before.adapter, plan[|plan| - 1].id).0), plan[|plan| - 1], now);
      hide Apply, SubmitRequest, Lookup, Amend;
    }
  }

  lemma SynchronizeLogGrows(s: Node, intent: Intent, entry: Order, now: real)
    ensures s.log <= Synchronize(s, intent, entry, now).0.log
  {
    var quantity := Fills(s.db.fills, entry.id);
    var plan := Plan(intent, s.adapter.exchange, s.cfg.mode, quantity);
    if plan.Ok? { PlaceLogGrows(s, plan.value, quantity, now); }
    hide Apply, Place, Plan, Verified, Fills, LatestGood;
  }

  lemma SettleLogGrows(s: Node, intent: Intent, order: Order, submitted: Order, now: real)
    ensures s.log <= Settle(s, intent, order, submitted, now).0.log
  {
    var t := ConfirmFill(s, submitted, now).0;
    assert s.log <= t.log by { hide Apply, Fills, LatestGood; }
    SynchronizeLogGrows(t, intent, submitted, now);
    hide Apply, ConfirmFill, Synchronize;
  }

  lemma TransmitSends(s: Node, intent: Intent, order: Order, now: real)
    ensures s.log + Sent(intent, order, now) <= Transmit(s, intent, order, now).0.log
  {
    AheadLog(s, intent, order, now);
    hide WriteAhead, Send, Settle, ResolveTimeout, Apply;
    var (t, reply) := Send(WriteAhead(s, intent, order, now), order);
    match reply
    case Ok(submitted) => SettleLogGrows(t.Put(PutOrder(submitted)), intent, order, submitted, now);
    case Raise(e) => TimeoutGrows(t.(transportError := e.TransportExn?), order);
  }

  lemma TimeoutGrows(s: Node, order: Order)
    ensures s.log <= ResolveTimeout(s, order).0.log
  {
    hide Apply, Lookup, LatestGood;
  }

  /** Health and account state, as the exchange gives them one after the other. */
  function Asked(a: Adapter): (Reply<bool>, Reply<Balance>) {
    var (b, health) := Health(a);
    (health, Account(b).1)
  }

  /** Under an id that is in neither the request set nor the order table. */
  lemma AdmitSends(s: Node, intent: Intent, order: Order, now: real)
    requires order.id !in s.requests && order.id !in s.db.orders
    ensures var (t, (health, account)) := (Admit(s, intent, order, now).0, Asked(s.adapter));
      if health == Ok(true) && account.Ok? && Covers(s.cfg, intent, account.value)
      then s.log + Sent(intent, order, now) <= t.log
      else t == s.(adapter := t.adapter)
  {
    var account := Asked(s.adapter).1;
    if account.Ok? { BalanceExactly(s.cfg, intent, account.value); }
    hide Transmit, AccountRefusal, Covers, Health, Account;
    TransmitSends(s.(adapter := Account(Health(s.adapter).0).0), intent, order, now);
  }

  /** An entry with this id is handed to the exchange between the two states. */
  ghost predicate SendsEntry(s: Node, t: Node, id: OrderId) {
    exists j: nat :: |s.log| <= j < |t.log| && t.log[j].Submit? && !t.log[j].order.reduceOnly && t.log[j].order.id == id
  }

  lemma SubmitSends(s: Node, intent: Intent, asOf: Option<real>, now: real)
    requires EntryIdOf(intent, s.adapter.exchange, s.cfg.mode) !in s.requests
    requires EntryIdOf(intent, s.adapter.exchange, s.cfg.mode) !in s.db.orders
    ensures var (t, id) := (SubmitIntent(s, intent, asOf, now).0, EntryIdOf(intent, s.adapter.exchange, s.cfg.mode));
      var ((health, account), order) := (Asked(s.adapter), FromIntent(intent, s.adapter.exchange, s.cfg.mode));
      if StaticRefusal(s, intent, asOf, now).None? && health == Ok(true) && account.Ok?
         && Covers(s.cfg, intent, account.value)
      then order.Ok? && s.log + Sent(intent, order.value, now) <= t.log && SendsEntry(s, t, id)
      else t == s.(adapter := t.adapter) && !SendsEntry(s, t, id)
  {
    hide Admit, Asked, Covers, IsKilled;
    var t := SubmitIntent(s, intent, asOf, now).0;
    var order := FromIntent(intent, s.adapter.exchange, s.cfg.mode);
    if StaticRefusal(s, intent, asOf, now).None? {
      AdmitSends(s, intent, order.value, now);
      if s.log + Sent(intent, order.value, now) <= t.log {
        assert t.log[|s.log| + 2] == (s.log + Sent(intent, order.value, now))[|s.log| + 2] == Submit(order.value);
      }
    }
    hide StaticRefusal;
  }

  /**
   For an id that is in neither the request set nor the order table, submit_intent hands its entry to the
   exchange if and only if: the gate is READY, the ledger is not killed and the intent approved; LIVE is
   enabled and has its keys; no kill switch applies; the intent is not stale; its levels are positive, its
   notional within each positive limit and its leverage within its limit; the exchange is healthy, and the
   balance that the exchange shows covers it. Otherwise nothing at all is written.
   */
  lemma EntrySentExactly(s: Node, intent: Intent, asOf: Option<real>, now: real)
    requires EntryIdOf(intent, s.adapter.exchange, s.cfg.mode) !in s.requests
    requires EntryIdOf(intent, s.adapter.exchange, s.cfg.mode) !in s.db.orders
    ensures var (t, id) := (SubmitIntent(s, intent, asOf, now).0, EntryIdOf(intent, s.adapter.exchange, s.cfg.mode));
      var (health, account) := Asked(s.adapter);
      && (SendsEntry(s, t, id) <==>
            && s.recovery == Ready && (s.db.kills == [] || s.db.kills[|s.db.kills| - 1] != Killed) && intent.approved
            && (s.cfg.mode == Live ==> s.cfg.liveEnabled && s.cfg.hasApiKey && s.cfg.hasApiSecret)
            && !s.cfg.globalKill && !s.cfg.exchangeKill && intent.symbol !in s.cfg.symbolKills
            && (asOf.None? || now - asOf.value <= s.cfg.staleAfter)
            && intent.quantity > 0.0 && intent.entry > 0.0 && intent.stopLoss > 0.0
            && (s.cfg.maxOrderNotional <= 0.0 || intent.quantity * intent.entry <= s.cfg.maxOrderNotional)
            && (s.cfg.maxPositionNotional <= 0.0 || intent.quantity * intent.entry <= s.cfg.maxPositionNotional)
            && intent.leverage <= s.cfg.maxLeverage
            && health == Ok(true) && account.Ok?
            && match account.value
               case Finite(amount) =>
                 0.0 <= amount && intent.quantity * intent.entry <= amount * Max(intent.leverage, 1.0)
               case PosInf => s.cfg.mode == Paper || s.cfg.mode == Shadow
               case NotANumber => s.cfg.mode == Paper || s.cfg.mode == Shadow
               case NegInf => false
               case Missing => false)
      && (!SendsEntry(s, t, id) ==> t == s.(adapter := t.adapter))
      && (SendsEntry(s, t, id) ==>
          && FromIntent(intent, s.adapter.exchange, s.cfg.mode).Ok?
          && s.log + Sent(intent, FromIntent(intent, s.adapter.exchange, s.cfg.mode).value, now) <= t.log)
  {
    hide SubmitIntent, Admit, StaticRefusal, Asked, IsKilled, SendsEntry;
    StaticExactly(s, intent, asOf, now);
    SubmitSends(s, intent, asOf, now);
  }

  /** The two balance refusals, when everything before them has passed. */
  lemma BalanceRefusals(s: Node, intent: Intent, asOf: Option<real>, now: real)
    requires StaticRefusal(s, intent, asOf, now).None? && Asked(s.adapter).0 == Ok(true) && Asked(s.adapter).1.Ok?
    requires EntryIdOf(intent, s.adapter.exchange, s.cfg.mode) !in s.requests
    requires EntryIdOf(intent, s.adapter.exchange, s.cfg.mode) !in s.db.orders
    ensures var (outcome, balance) := (SubmitIntent(s, intent, asOf, now).1, Asked(s.adapter).1.value);
      && (balance.Finite? && 0.0 <= balance.amount
          && balance.amount * Max(intent.leverage, 1.0) < intent.quantity * intent.entry ==>
            outcome == Outcome(OutRejected, None, InsufficientBalance))
      && (balance.Missing? || balance.NegInf? || (balance.Finite? && balance.amount < 0.0)
          || (!balance.Finite? && (s.cfg.mode == Live || s.cfg.mode == Testnet)) ==>
            outcome == Outcome(OutRejected, None, AccountInvalid))
  {
    StaticExactly(s, intent, asOf, now);
    hide StaticRefusal, Health, Account, Admit;
    AdmitRefuses(s, intent, FromIntent(intent, s.adapter.exchange, s.cfg.mode).value, now);
    BalanceExactly(s.cfg, intent, Asked(s.adapter).1.value);
    hide AccountRefusal, Asked;
  }

  lemma AdmitRefuses(s: Node, intent: Intent, order: Order, now: real)
    requires order.id !in s.requests && order.id !in s.db.orders
    requires Asked(s.adapter).0 == Ok(true) && Asked(s.adapter).1.Ok?
    ensures var refusal := AccountRefusal(s.cfg, intent, Asked(s.adapter).1.value);
            refusal.Some? ==> Admit(s, intent, order, now).1 == Outcome(OutRejected, None, refusal.value)
  {
    hide Transmit, AccountRefusal, Health, Account;
  }

  /**
   An id that is in the request set or in the order table is looked up and never sent: found, it is a
   DUPLICATE; not found, the intent is refused, and if only the table knows the id the gate closes.
   */
  lemma KnownIdExactly(s: Node, intent: Intent, asOf: Option<real>, now: real)
    requires StaticRefusal(s, intent, asOf, now).None?
    ensures var (t, outcome) := SubmitIntent(s, intent, asOf, now);
      var id := EntryIdOf(intent, s.adapter.exchange, s.cfg.mode);
      var (a, found) := Lookup(s.adapter, id);
      id in s.requests || id in s.db.orders ==>
        if found.Raise? then t == s.(adapter := a) && outcome == Raised(found.exn)
        else if found.value.Some? then
          t == s.(adapter := a) && outcome == Outcome(OutDuplicate, found.value, DuplicateIntent)
        else if id in s.requests then t == s.(adapter := a) && outcome == Outcome(OutRejected, None, AmbiguousRetry)
        else
          && outcome == Outcome(OutRejected, None, RecoveryRequired) && t.recovery == Recovering
          && t.log == s.log + [PutRecon(intent.symbol, Unclear)]
  {
    StaticExactly(s, intent, asOf, now);
    hide Transmit, AccountRefusal, StaticRefusal, Lookup, Apply;
  }

  // ---------------------------------------------------------------- the answer

  /**
   What the reply of the exchange makes of a sent entry. A rejected order is REJECTED, one of unknown status
   UNKNOWN. Timeouts, lost connections, transport errors and ValueErrors are resolved by one lookup: found is
   RECONCILED, not found or failing in a transient way UNKNOWN. Everything else that is raised is raised on.
   */
  lemma ReplyDecides(s: Node, intent: Intent, order: Order, now: real)
    ensures var (t, outcome) := Transmit(s, intent, order, now);
      var (a, reply) := SubmitOrder(s.adapter, order);
      var found := Lookup(a, order.id).1;
      match reply
      case Ok(submitted) =>
        && (submitted.status == Rejected ==> outcome == Outcome(OutRejected, Some(submitted), ExchangeRejected))
        && (submitted.status == Unknown ==> outcome == Outcome(OutUnknown, Some(submitted), SubmissionUnknown))
        && (submitted.status != Rejected && submitted.status != Unknown ==>
            || outcome == Outcome(OutSubmitted, Some(submitted), NoReason)
            || outcome == Outcome(OutUnknown, Some(submitted), RecoveryRequired) || outcome.Raised?)
      case Raise(e) =>
        if e == KeyExn || e == RuntimeExn || e == OtherExn then outcome == Raised(e)
        else if found.Ok? && found.value.Some? then outcome == Outcome(OutReconciled, found.value, TimeoutReconciled)
        else if found.Ok? || found.exn == TimeoutExn || found.exn == ConnectionExn || found.exn == TransportExn then
          outcome == Outcome(OutUnknown, None, SubmissionUnknown)
        else outcome == Raised(found.exn)
  {
    var (t, reply) := Send(WriteAhead(s, intent, order, now), order);
    assert (t.adapter, reply) == SubmitOrder(s.adapter, order) by { hide SubmitOrder, Apply; }
    hide WriteAhead, Send, SubmitOrder, Lookup, Apply, ConfirmFill, Synchronize, LatestGood;
  }
}
