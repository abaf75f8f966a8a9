/**
 Which answers of the exchange decide whether confirmed protection contains a stop order.
 verify() asks for a trigger price, which take-profit orders carry too.
 */
module ProtectionAnswers {
  import opened Optional
  import opened ExecutionModel
  import opened ExecutionAdapter
  import opened CoordinatorSpec

  // ---------------------------------------------------------------- the plan

  /** The planned target of a price. */
  function Planned(intent: Intent, entry: OrderId, index: nat, price: Option<real>, quantity: real, exchange: string,
                   mode: Mode): seq<Order>
  {
    if price.None? then []
    else [Order(Target(entry, index), None, intent.symbol, if intent.action == Long then Sell else Buy, TakeProfit,
                quantity, price, price, true, false, intent.leverage, New, 0.0, None, exchange, mode, Some(entry))]
  }

  /**
   The plan of an entry exists exactly when the intent is approved, its stop is positive and on the losing
   side, the quantity is positive and within the intent, and every target is positive. It is a reduce-only
   stop on the other side at the stop price, then one take-profit for every target price, all for the quantity.
   */
  lemma PlanExactly(intent: Intent, exchange: string, mode: Mode, quantity: real)
    ensures var (plan, entry) := (Plan(intent, exchange, mode, quantity), EntryIdOf(intent, exchange, mode));
      && (plan.Ok? <==>
            && intent.approved && intent.stopLoss > 0.0 && 0.0 < quantity <= intent.quantity
            && (intent.action == Long ==> intent.stopLoss < intent.entry)
            && (intent.action == Short ==> intent.stopLoss > intent.entry)
            && (intent.tp1.Some? ==> intent.tp1.value > 0.0) && (intent.tp2.Some? ==> intent.tp2.value > 0.0)
            && (intent.tp3.Some? ==> intent.tp3.value > 0.0))
      && (plan.Raise? ==> plan.exn == ValueExn)
      && (plan.Ok? ==>
          plan.value ==
            [Order(Stop(entry), None, intent.symbol, if intent.action == Long then Sell else Buy, StopMarket, quantity,
                   None, Some(intent.stopLoss), true, false, intent.leverage, New, 0.0, None, exchange, mode,
                   Some(entry))]
            + Planned(intent, entry, 1, intent.tp1, quantity, exchange, mode)
            + Planned(intent, entry, 2, intent.tp2, quantity, exchange, mode)
            + Planned(intent, entry, 3, intent.tp3, quantity, exchange, mode))
  {
    var entry := EntryIdOf(intent, exchange, mode);
    assert TargetChildren(intent, entry, quantity, exchange, mode, 0) == Ok([]);
    TargetsOne(intent, entry, quantity, exchange, mode, 1);
    TargetsOne(intent, entry, quantity, exchange, mode, 2);
    TargetsOne(intent, entry, quantity, exchange, mode, 3);
    hide TargetChildren, Planned;
  }

  lemma TargetsOne(intent: Intent, entry: OrderId, quantity: real, exchange: string, mode: Mode, k: nat)
    requires 1 <= k <= 3
    ensures var before := TargetChildren(intent, entry, quantity, exchange, mode, k - 1);
      var after := TargetChildren(intent, entry, quantity, exchange, mode, k);
      var price := if k == 1 then intent.tp1 else if k == 2 then intent.tp2 else intent.tp3;
      && (after.Ok? <==> before.Ok? && (price.Some? ==> price.value > 0.0))
      && (after.Ok? ==> after.value == before.value + Planned(intent, entry, k, price, quantity, exchange, mode))
      && (before.Raise? ==> after == before) && (before.Ok? && after.Raise? ==> after.exn == ValueExn)
  {}

  // ---------------------------------------------------------------- confirmation

  predicate Resting(status: OrderStatus) { status == New || status == Acknowledged || status == PartiallyFilled }

  /**
   Protection is confirmed exactly when there is a plan, every child could be placed, and among what the exchange
   confirmed the resting reduce-only children of this entry include one with a trigger price and one take-profit,
   and none is smaller than the quantity; then, and only then, a MATCH row is written.
   */
  lemma ConfirmedExactly(s: Node, intent: Intent, entry: Order, quantity: real, now: real)
    ensures var (plan, id) := (Plan(intent, s.adapter.exchange, s.cfg.mode, quantity),
                               EntryIdOf(intent, s.adapter.exchange, s.cfg.mode));
      var (t, done) := Protect(s, intent, entry, quantity, now);
      && (done.Ok? <==>
            && plan.Ok?
            && var remote := Place(s, plan.value, quantity, now).1;
              && remote.Ok?
              && (exists o | o in remote.value ::
                    o.parent == Some(id) && o.reduceOnly && Resting(o.status) && o.stopPrice.Some?)
              && (exists o | o in remote.value ::
                    o.parent == Some(id) && o.reduceOnly && Resting(o.status) && o.orderType == TakeProfit)
              && (forall o | o in remote.value ::
                    o.parent == Some(id) && o.reduceOnly && Resting(o.status) ==> o.quantity >= quantity))
      && (done.Ok? ==> t.log == Place(s, plan.value, quantity, now).0.log + [PutRecon(entry.symbol, Match)])
  {
    hide Plan, Place, Apply, LatestGood;
  }

  /**
   synchronize_protection: nothing to do without fills, True once protection is confirmed; anything that goes wrong
   closes the gate with an UNKNOWN row and answers False, except an error of a kind that it does not catch.
   */
  lemma SynchronizedExactly(s: Node, intent: Intent, entry: Order, now: real)
    ensures var ((t, done), quantity) := (Synchronize(s, intent, entry, now), Fills(s.db.fills, entry.id));
      if quantity <= 0.0 then t == s && done == Ok(true)
      else
        var (p, confirmed) := Protect(s, intent, entry, quantity, now);
        if confirmed.Ok? then t == p && done == Ok(true)
        else if confirmed.exn == OtherExn then t == p && done == Raise(OtherExn)
        else done == Ok(false) && t.recovery == Recovering && t.log == p.log + [PutRecon(entry.symbol, Unclear)]
  {
    hide Protect, Apply, Fills;
  }

  /**
   A child counts as placed exactly when what was obtained for it is resting and no smaller than the quantity;
   then it is recorded as protection.
   */
  lemma PlacedExactly(s: Node, desired: Order, quantity: real, now: real)
    ensures var ((t, child), (u, obtained)) := (PlaceChild(s, desired, quantity, now),
                                                ObtainChild(s, desired, quantity, now));
      if obtained.Ok? && obtained.value.Some? && Resting(obtained.value.value.status)
         && obtained.value.value.quantity >= quantity
      then
        && child == Ok(obtained.value.value) && t.log == u.log + [PutProtection(obtained.value.value)]
        && t.adapter == u.adapter
      else child.Raise? && t == u
  {
    var obtained := ObtainChild(s, desired, quantity, now).1;
    assert obtained.Ok? || obtained.Raise?;
    hide ObtainChild, Apply;
  }

  /**
   What is obtained: the order that the exchange shows under the id when it is large enough; the amended one when
   it is too small; and when it shows none, what the raw request comes back with.
   */
  lemma ObtainedExactly(s: Node, desired: Order, quantity: real, now: real)
    ensures var ((t, child), (a, found)) := (ObtainChild(s, desired, quantity, now), Lookup(s.adapter, desired.id));
      if found.Raise? then child == found && t == s.(adapter := a)
      else if found.value.None? then
        var (u, outcome) := SubmitRequest(s.(adapter := a), desired, now);
        t == u && child == if outcome.Raised? then Raise(outcome.exn) else Ok(outcome.order)
      else if found.value.value.quantity >= quantity then child == found && t == s.(adapter := a)
      else
        var (b, amended) := Amend(a, desired);
        t == s.(adapter := b) && child == if amended.Ok? then Ok(Some(amended.value)) else Raise(amended.exn)
  {
    hide SubmitRequest, Lookup, Amend;
  }

  // ---------------------------------------------------------------- the answers

  /** A live STOP_MARKET child of the entry. */
  predicate RealStop(order: Order, entry: OrderId) { LiveChild(order, entry) && order.orderType.StopMarket? }

  /** The exchange's last word on a raw request: its reply, or what it finds when asked again. */
  function RequestAnswer(s: Node, order: Order): Option<Order> {
    if order.id in s.requests then Given(Lookup(s.adapter, order.id).1)
    else
      var (b, reply) := SubmitOrder(Health(s.adapter).0, order);
      match reply
      case Ok(submitted) => Some(submitted)
      case Raise(_) => Given(Lookup(b, order.id).1)
  }

  function Given(reply: Reply<Option<Order>>): Option<Order> { if reply.Ok? then reply.value else None }

  /** The exchange's last word on one planned child: the order it finds, the amended one, or the submitted one. */
  function ChildAnswer(s: Node, desired: Order, quantity: real): Option<Order> {
    var (a, found) := Lookup(s.adapter, desired.id);
    if found.Raise? then None
    else
      match found.value
      case None => RequestAnswer(s.(adapter := a), desired)
      case Some(order) =>
        if order.quantity >= quantity then Some(order)
        else
          var amended := Amend(a, desired).1;
          if amended.Ok? then Some(amended.value) else None
  }

  lemma RequestIsAnswered(s: Node, order: Order, now: real)
    ensures var outcome := SubmitRequest(s, order, now).1;
      outcome.Outcome? && outcome.order.Some? ==> RequestAnswer(s, order) == outcome.order
  {
    hide Replay, Apply;
  }

  lemma ChildIsAnswered(s: Node, desired: Order, quantity: real, now: real)
    ensures var child := PlaceChild(s, desired, quantity, now).1;
      child.Ok? ==> ChildAnswer(s, desired, quantity) == Some(child.value)
  {
    RequestIsAnswered(s.(adapter := Lookup(s.adapter, desired.id).0), desired, now);
    hide Replay, Apply, RequestAnswer;
  }

  /** The exchange's last word on child i of a plan, asked after the children before it. */
  function AnswerAt(s: Node, plan: seq<Order>, quantity: real, now: real, i: nat): Option<Order>
    requires i < |plan|
  {
    ChildAnswer(Place(s, plan[..i], quantity, now).0, plan[i], quantity)
  }

  lemma {:induction false} EveryChildIsAnswered(s: Node, plan: seq<Order>, quantity: real, now: real)
    ensures var remote := Place(s, plan, quantity, now).1;
      remote.Ok? ==>
        && |remote.value| == |plan|
        && forall i: nat | i < |plan| :: AnswerAt(s, plan, quantity, now, i) == Some(remote.value[i])
  {
    hide PlaceChild, ChildAnswer;
    if plan != [] {
      var shorter := plan[..|plan| - 1];
      EveryChildIsAnswered(s, shorter, quantity, now);
      ChildIsAnswered(Place(s, shorter, quantity, now).0, plan[|plan| - 1], quantity, now);
      forall i: nat | i < |shorter|
        ensures AnswerAt(s, plan, quantity, now, i) == AnswerAt(s, shorter, quantity, now, i)
      {
        assert plan[..i] == shorter[..i];
      }
    }
  }

  /** The orders that protection of `quantity` was confirmed with, when it was. */
  function Confirmation(s: Node, intent: Intent, quantity: real, now: real): seq<Order> {
    var plan := Plan(intent, s.adapter.exchange, s.cfg.mode, quantity);
    if plan.Raise? then []
    else
      var remote := Place(s, plan.value, quantity, now).1;
      if remote.Ok? then remote.value else []
  }

  /**
   When protection is confirmed, by whatever exchange, every child was answered for. A live stop
   order is among the confirmed ones exactly when one of the answers is one; and as long as no
   answer for a target is a stop, exactly when the answer for the stop's own id is.
   */
  lemma StopConfirmedExactly(s: Node, intent: Intent, entry: Order, quantity: real, now: real)
    requires Protect(s, intent, entry, quantity, now).1.Ok?
    ensures var plan := Plan(intent, s.adapter.exchange, s.cfg.mode, quantity);
      var confirmed := Confirmation(s, intent, quantity, now);
      var id := EntryIdOf(intent, s.adapter.exchange, s.cfg.mode);
      && plan.Ok? && |plan.value| > 0 && plan.value[0].id == Stop(id) && |confirmed| == |plan.value|
      && Verified(id, quantity, confirmed)
      && (forall i: nat | i < |confirmed| :: AnswerAt(s, plan.value, quantity, now, i) == Some(confirmed[i]))
      && ((exists o | o in confirmed :: RealStop(o, id)) <==>
            exists i: nat | i < |confirmed| ::
              AnswerAt(s, plan.value, quantity, now, i).Some?
              && RealStop(AnswerAt(s, plan.value, quantity, now, i).value, id))
      && ((forall i: nat | 0 < i < |confirmed| :: !RealStop(confirmed[i], id)) ==>
            ((exists o | o in confirmed :: RealStop(o, id)) <==>
               ChildAnswer(s, plan.value[0], quantity).Some?
               && RealStop(ChildAnswer(s, plan.value[0], quantity).value, id)))
  {
    var plan := Plan(intent, s.adapter.exchange, s.cfg.mode, quantity);
    var id := EntryIdOf(intent, s.adapter.exchange, s.cfg.mode);
    assert plan.Ok? && plan.value[0].id == Stop(id) by {
      PlanStartsWithStop(intent, s.adapter.exchange, s.cfg.mode, quantity);
    }
    EveryChildIsAnswered(s, plan.value, quantity, now);
    var confirmed := Confirmation(s, intent, quantity, now);
    assert AnswerAt(s, plan.value, quantity, now, 0) == ChildAnswer(s, plan.value[0], quantity) by {
      assert plan.value[..0] == [] && Place(s, [], quantity, now).0 == s;
    }
    hide Plan, Place, ChildAnswer, Verified, RealStop, AnswerAt;
    forall o | o in confirmed && RealStop(o, id)
      ensures exists i: nat | i < |confirmed| ::
                AnswerAt(s, plan.value, quantity, now, i).Some?
                && RealStop(AnswerAt(s, plan.value, quantity, now, i).value, id)
    {
      var i: nat :| i < |confirmed| && confirmed[i] == o;
      assert AnswerAt(s, plan.value, quantity, now, i) == Some(o);
    }
    if |confirmed| > 0 { assert confirmed[0] in confirmed; }
  }

  lemma PlanStartsWithStop(intent: Intent, exchange: string, mode: Mode, quantity: real)
    ensures var plan := Plan(intent, exchange, mode, quantity);
      plan.Ok? ==> |plan.value| > 0 && plan.value[0].id == Stop(EntryIdOf(intent, exchange, mode))
  {
    hide TargetChildren;
  }

  // ---------------------------------------------------------------- an exchange without the stop

  /** Whatever it is asked for, the exchange shows the same take-profit child. */
  ghost predicate ShowsOnly(a: Adapter, order: Order) {
    a.Scripted? && forall n: nat :: a.script(n).lookup == Ok(Some(order))
  }

  predicate LiveTarget(order: Order, entry: OrderId, quantity: real) {
    LiveChild(order, entry) && order.orderType.TakeProfit? && order.stopPrice.Some? && order.quantity >= quantity
  }

  lemma {:induction false} PlaceShowsOnly(s: Node, plan: seq<Order>, quantity: real, now: real, order: Order,
                                          entry: OrderId)
    requires ShowsOnly(s.adapter, order) && LiveTarget(order, entry, quantity)
    ensures var (t, remote) := Place(s, plan, quantity, now);
      ShowsOnly(t.adapter, order) && remote.Ok? && |remote.value| == |plan|
      && forall o | o in remote.value :: o == order
  {
    if plan != [] {
      var shorter := plan[..|plan| - 1];
      PlaceShowsOnly(s, shorter, quantity, now, order, entry);
      var (t, before) := Place(s, shorter, quantity, now);
      assert t.adapter.script(t.adapter.calls).lookup == Ok(Some(order));
      hide SubmitRequest, Replay, Apply;
    }
  }

  /** Protection of any filled quantity is then confirmed, with no stop order at all. */
  lemma ConfirmedWithoutStop(s: Node, intent: Intent, entry: Order, quantity: real, now: real, order: Order)
    requires ShowsOnly(s.adapter, order)
             && LiveTarget(order, EntryIdOf(intent, s.adapter.exchange, s.cfg.mode), quantity)
    requires Plan(intent, s.adapter.exchange, s.cfg.mode, quantity).Ok?
    ensures Protect(s, intent, entry, quantity, now).1.Ok? && Confirmation(s, intent, quantity, now) != []
    ensures forall o | o in Confirmation(s, intent, quantity, now) :: !o.orderType.StopMarket?
  {
    var id := EntryIdOf(intent, s.adapter.exchange, s.cfg.mode);
    var plan := Plan(intent, s.adapter.exchange, s.cfg.mode, quantity).value;
    PlanStartsWithStop(intent, s.adapter.exchange, s.cfg.mode, quantity);
    PlaceShowsOnly(s, plan, quantity, now, order, id);
    var remote := Place(s, plan, quantity, now).1.value;
    assert remote[0] in remote;
    hide Plan, Place, Replay, Apply;
  }
}
