/**
 Raw requests in paper runs: which of them disturb the protection of an entry, and a run in
 which one does.
 */
module StrayOrders {
  import opened Optional
  import opened ExecutionModel
  import opened ExecutionAdapter
  import opened CoordinatorSpec
  import opened ExecutionSafety
  import opened PaperProtection
  import opened PaperRuns
  import opened Risk

  /** A step: what a raw request that is taken does to a calm book is read off the request. */
  lemma RequestCalmExactly(s: Node, order: Order, now: real)
    requires PaperInv(s, true) && SubmitRequest(s, order, now).0.adapter != s.adapter
    ensures PaperInv(SubmitRequest(s, order, now).0, true) <==> Calm(order)
  {
    RequestPaper(s, order, now) by { PaperInvIsInv(s, true); BookIsPaper(s.adapter, true); }
    hide SubmitRequest, Calm;
    if Calm(order) { RequestKeepsPaper(s, order, now, true); }
    var t := SubmitRequest(s, order, now).0;
    if PaperInv(t, true) { InTheBook(t.adapter, order.id); }
  }

  lemma InTheBook(a: Adapter, id: OrderId)
    requires BookFits(a, true)
    ensures a.PaperBook? && (id in a.orders ==> Calm(a.orders[id]))
  {}

  // ---------------------------------------------------------------- a run with a larger stop

  /** A healthy paper process that takes orders. */
  predicate Willing(s: Node) {
    s.adapter.PaperBook? && s.adapter.healthy && s.cfg.mode.Paper? && AllowsSubmission(s.cfg)
  }

  lemma FreshRequestRests(s: Node, order: Order, now: real)
    requires Willing(s) && order.reduceOnly && order.mode.Paper? && Live?(order.status)
    requires order.quantity > 0.0 && order.leverage <= s.cfg.maxLeverage
    requires order.id !in s.requests && order.id !in s.adapter.orders
    ensures var (t, outcome) := SubmitRequest(s, order, now);
      && outcome.Outcome? && outcome.order == Some(order)
      && Willing(t) && t.adapter == s.adapter.(orders := s.adapter.orders[order.id := order])
      && t.requests == s.requests + {order.id} && t.cfg == s.cfg && t.recovery == s.recovery
      && t.db == s.db.(orders := s.db.orders[order.id := order])
  {}

  /** A planned child is confirmed: the order under its id when large enough, else itself. */
  lemma ChildIsConfirmed(s: Node, desired: Order, quantity: real, now: real)
    requires Willing(s) && desired.reduceOnly && desired.mode.Paper? && desired.status.New?
    requires desired.quantity == quantity > 0.0 && desired.leverage <= s.cfg.maxLeverage
    requires if desired.id in s.adapter.orders
             then s.adapter.orders[desired.id].quantity >= quantity && Live?(s.adapter.orders[desired.id].status)
             else desired.id !in s.requests
    ensures var (t, child) := PlaceChild(s, desired, quantity, now);
      && child == Ok(Settles(s.adapter, desired, quantity)) && Willing(t) && t.cfg == s.cfg
      && (desired.id in s.adapter.orders ==> t.adapter == s.adapter && t.requests == s.requests)
  {
    if desired.id !in s.adapter.orders {
      FreshRequestRests(s.(adapter := Lookup(s.adapter, desired.id).0), desired, now);
    }
    hide SubmitRequest, Apply;
  }

  lemma TwoChildrenConfirmed(s: Node, stop: Order, target: Order, quantity: real, now: real)
    requires Willing(s) && stop.id != target.id && stop.id in s.adapter.orders && target.id !in s.adapter.orders
             && target.id !in s.requests
    requires s.adapter.orders[stop.id].quantity >= quantity > 0.0 && Live?(s.adapter.orders[stop.id].status)
    requires stop.reduceOnly && stop.mode.Paper? && stop.status.New? && stop.quantity == quantity
             && stop.leverage <= s.cfg.maxLeverage
    requires target.reduceOnly && target.mode.Paper? && target.status.New? && target.quantity == quantity
             && target.leverage <= s.cfg.maxLeverage
    ensures Place(s, [stop, target], quantity, now).1 == Ok([s.adapter.orders[stop.id], target])
  {
    ChildIsConfirmed(s, stop, quantity, now);
    var t := PlaceChild(s, stop, quantity, now).0;
    ChildIsConfirmed(t, target, quantity, now);
    hide PlaceChild, Willing;
    assert [stop, target][..1] == [stop] && [stop][..0] == [];
    assert [] + [s.adapter.orders[stop.id]] == [s.adapter.orders[stop.id]];
    assert [s.adapter.orders[stop.id]] + [target] == [s.adapter.orders[stop.id], target];
    assert Place(s, [], quantity, now) == (s, Ok([]));
    assert Place(s, [stop], quantity, now) == (t, Ok([s.adapter.orders[stop.id]]));
  }

  /** The intent has one target, and passes the checks that precede the exchange. */
  ghost predicate Accepted(s: Node, intent: Intent, now: real) {
    && StaticRefusal(s, intent, None, now).None? && |intent.symbol| > 0
    && intent.tp1.Some? && intent.tp1.value > 0.0 && intent.tp2.None? && intent.tp3.None?
    && (intent.action.Long? ==> intent.stopLoss < intent.entry)
    && (intent.action.Short? ==> intent.stopLoss > intent.entry)
  }

  lemma OneTargetPlan(intent: Intent, exchange: string)
    requires intent.approved && intent.quantity > 0.0 && intent.stopLoss > 0.0
    requires intent.tp1.Some? && intent.tp1.value > 0.0 && intent.tp2.None? && intent.tp3.None?
    requires (intent.action.Long? ==> intent.stopLoss < intent.entry)
             && (intent.action.Short? ==> intent.stopLoss > intent.entry)
    ensures var entry := EntryIdOf(intent, exchange, Mode.Paper);
      Plan(intent, exchange, Mode.Paper, intent.quantity) ==
        Ok([Child(intent, entry, Stop(entry), StopMarket, intent.quantity, None, intent.stopLoss, exchange, Mode.Paper),
            Child(intent, entry, Target(entry, 1), TakeProfit, intent.quantity, intent.tp1, intent.tp1.value, exchange,
                  Mode.Paper)])
  {
    var entry, quantity := EntryIdOf(intent, exchange, Mode.Paper), intent.quantity;
    var target := Child(intent, entry, Target(entry, 1), TakeProfit, quantity, intent.tp1, intent.tp1.value, exchange,
                        Mode.Paper);
    var stop := Child(intent, entry, Stop(entry), StopMarket, quantity, None, intent.stopLoss, exchange, Mode.Paper);
    assert [] + [target] == [target] && [stop] + [target] == [stop, target];
    assert TargetChildren(intent, entry, quantity, exchange, Mode.Paper, 0) == Ok([]);
    assert TargetChildren(intent, entry, quantity, exchange, Mode.Paper, 1) == Ok([target]);
    assert TargetChildren(intent, entry, quantity, exchange, Mode.Paper, 2) == Ok([target]);
    assert TargetChildren(intent, entry, quantity, exchange, Mode.Paper, 3) == Ok([target]);
    hide TargetChildren, Child;
  }

  /** Under the stop's id rests a live child of the entry with a trigger price, at least as large as the entry. */
  predicate StandsForStop(o: Order, entry: OrderId, quantity: real) {
    o.id == Stop(entry) && LiveChild(o, entry) && o.stopPrice.Some? && o.quantity >= quantity
  }

  lemma SynchronizeAccepts(s: Node, intent: Intent, entry: Order, stray: Order, now: real)
    requires Willing(s) && intent.approved && intent.quantity > 0.0 && intent.stopLoss > 0.0
             && intent.leverage <= s.cfg.maxLeverage
    requires intent.tp1.Some? && intent.tp1.value > 0.0 && intent.tp2.None? && intent.tp3.None?
    requires (intent.action.Long? ==> intent.stopLoss < intent.entry)
             && (intent.action.Short? ==> intent.stopLoss > intent.entry)
    requires Fills(s.db.fills, entry.id) == intent.quantity
    requires var id := EntryIdOf(intent, s.adapter.exchange, Mode.Paper);
      && StandsForStop(stray, id, intent.quantity) && Stop(id) in s.adapter.orders
      && s.adapter.orders[Stop(id)] == stray
      && Target(id, 1) !in s.adapter.orders && Target(id, 1) !in s.requests
    ensures Synchronize(s, intent, entry, now).1 == Ok(true)
  {
    var id := EntryIdOf(intent, s.adapter.exchange, Mode.Paper);
    OneTargetPlan(intent, s.adapter.exchange);
    var plan := Plan(intent, s.adapter.exchange, s.cfg.mode, intent.quantity).value;
    TwoChildrenConfirmed(s, plan[0], plan[1], intent.quantity, now);
    var remote := [stray, plan[1]];
    assert Verified(id, intent.quantity, remote) by {
      assert stray in remote && LiveChild(stray, id) && plan[1] in remote && LiveChild(plan[1], id);
    }
    hide Plan, Place, Verified, Fills, Replay, Apply;
  }

  lemma ReachesTheExchange(s: Node, intent: Intent, order: Order, now: real)
    requires Willing(s) && s.adapter.balance.PosInf? && StaticRefusal(s, intent, None, now).None?
    requires FromIntent(intent, s.adapter.exchange, s.cfg.mode) == Ok(order) && order.id !in s.requests
             && order.id !in s.db.orders
    ensures SubmitIntent(s, intent, None, now) == Transmit(s, intent, order, now)
  {
    hide Transmit, StaticRefusal;
  }

  lemma IsFilledAtOnce(s: Node, intent: Intent, order: Order, now: real)
    requires Willing(s) && order.mode.Paper? && !order.reduceOnly && order.id !in s.adapter.orders
    ensures var filled := order.(status := Filled, filled := order.quantity, averagePrice := order.price);
      var u := Send(WriteAhead(s, intent, order, now), order).0.Put(PutOrder(filled));
      && Transmit(s, intent, order, now) == Settle(u, intent, order, filled, now)
      && Willing(u) && u.adapter.orders == s.adapter.orders[order.id := filled]
      && u.adapter.exchange == s.adapter.exchange
      && u.cfg == s.cfg && u.requests == s.requests + {order.id} && u.db.fills == s.db.fills
  {
    hide Settle, Replay;
  }

  lemma SubmitAccepts(s: Node, intent: Intent, stray: Order, now: real)
    requires Willing(s) && s.adapter.balance.PosInf? && Accepted(s, intent, now) && s.db.fills == []
    requires var id := EntryIdOf(intent, s.adapter.exchange, Mode.Paper);
      && StandsForStop(stray, id, intent.quantity) && s.adapter.orders == map[Stop(id) := stray]
      && s.requests == {Stop(id)}
      && id !in s.db.orders
    ensures var outcome := SubmitIntent(s, intent, None, now).1; outcome.Outcome? && outcome.status.OutSubmitted?
  {
    hide Transmit, WriteAhead, Send, SubmitIntent, SubmitOrder, Settle, Apply, Replay;
    var order := FromIntent(intent, s.adapter.exchange, s.cfg.mode).value;
    var filled := order.(status := Filled, filled := order.quantity, averagePrice := order.price);
    ReachesTheExchange(s, intent, order, now);
    IsFilledAtOnce(s, intent, order, now);
    var u := Send(WriteAhead(s, intent, order, now), order).0.Put(PutOrder(filled));
    FilledAccepts(u, intent, order, filled, stray, now);
  }

  lemma FilledAccepts(s: Node, intent: Intent, order: Order, submitted: Order, stray: Order, now: real)
    requires Willing(s) && s.db.fills == [] && |intent.symbol| > 0 && submitted.symbol == intent.symbol
             && !submitted.reduceOnly
    requires intent.approved && intent.quantity > 0.0 && intent.stopLoss > 0.0 && intent.leverage <= s.cfg.maxLeverage
             && intent.entry > 0.0
    requires intent.tp1.Some? && intent.tp1.value > 0.0 && intent.tp2.None? && intent.tp3.None?
    requires (intent.action.Long? ==> intent.stopLoss < intent.entry)
             && (intent.action.Short? ==> intent.stopLoss > intent.entry)
    requires submitted.status.Filled? && submitted.filled == intent.quantity
             && submitted.averagePrice == Some(intent.entry)
    requires var id := EntryIdOf(intent, s.adapter.exchange, Mode.Paper);
      && submitted.id == id && StandsForStop(stray, id, intent.quantity) && Stop(id) in s.adapter.orders
      && s.adapter.orders[Stop(id)] == stray
      && Target(id, 1) !in s.adapter.orders && Target(id, 1) !in s.requests
    ensures var outcome := Settle(s, intent, order, submitted, now).1; outcome.Outcome? && outcome.status.OutSubmitted?
  {
    BooksAll(s, submitted, now);
    var t := ConfirmFill(s, submitted, now).0;
    hide ConfirmFill;
    SynchronizeAccepts(t, intent, submitted, stray, now);
    hide Synchronize;
  }

  lemma OneFill(fill: Fill)
    ensures Fills([], fill.orderId) == 0.0 && Fills([] + [fill], fill.orderId) == fill.quantity && !KnownFill([], fill)
  {
    assert [fill][..0] == [];
  }

  lemma BooksAll(s: Node, order: Order, now: real)
    requires s.db.fills == [] && |order.symbol| > 0 && !order.reduceOnly && order.filled > 0.0
    requires order.averagePrice.Some? && order.averagePrice.value > 0.0
    ensures var (t, delta) := ConfirmFill(s, order, now);
      delta.Ok? && t.adapter == s.adapter && t.cfg == s.cfg && t.requests == s.requests
      && Fills(t.db.fills, order.id) == order.filled
  {
    hide Replay, Fills, KnownFill;
    OneFill(Fill(order.id, order.symbol, order.side, order.filled, order.averagePrice.value, now));
  }

  /**
   From an empty paper process, one raw request for a stop larger than the entry, and then the
   intent itself: it is SUBMITTED, filled and booked, and its stop is not for the filled quantity.
   */
  lemma LargerStopSlipsIn(cfg: Config, exchange: string, risk: RiskConfig, capacity: nat, intent: Intent, stray: Order,
                          now: real)
    requires cfg.mode.Paper? && AllowsSubmission(cfg) && ValidConfig(risk)
    requires stray.mode.Paper? && stray.quantity > intent.quantity && stray.leverage <= cfg.maxLeverage
    requires StandsForStop(stray, EntryIdOf(intent, exchange, Mode.Paper), intent.quantity)
    ensures var start := PaperStart(cfg, exchange, PosInf, true, risk, capacity);
      var s := Run(start, [DoRequest(stray, now)]).node;
      var (t, outcome) := SubmitIntent(s, intent, None, now);
      Accepted(start.node, intent, now) ==>
        && outcome.Outcome? && outcome.status.OutSubmitted? && FilledAndBooked(t, intent)
        && !Protected(t.adapter, EntryIdOf(intent, exchange, Mode.Paper))
  {
    var start := PaperStart(cfg, exchange, PosInf, true, risk, capacity);
    if Accepted(start.node, intent, now) {
      assert Replay([]) == EMPTY_DB && [DoRequest(stray, now)][..0] == [] && Run(start, []) == start;
      RunOne(start, DoRequest(stray, now));
      FreshRequestRests(start.node, stray, now);
      var s := SubmitRequest(start.node, stray, now).0;
      assert Run(start, [DoRequest(stray, now)]).node == s;
      assert AllInPaper(start, [DoRequest(stray, now)], false);
      PaperSubmissionsExactly(cfg, exchange, PosInf, true, risk, capacity, [DoRequest(stray, now)], intent, None, now,
                              false);
      hide Run, SubmitRequest, SubmitIntent, FilledAndBooked, Protected, AllInPaper;
      SubmitAccepts(s, intent, stray, now);
      NotFree(s.adapter, stray);
    }
  }

  lemma NotFree(a: Adapter, stray: Order)
    requires a.PaperBook? && stray.id.Stop? && stray.id.parent.Entry? && stray.id in a.orders
             && a.orders[stray.id] == stray
    requires stray.quantity > stray.id.parent.key.quantity
    ensures !Undisturbed(a, stray.id.parent)
  {}
}
