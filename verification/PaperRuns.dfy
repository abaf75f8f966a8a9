/**
 Runs in PAPER mode against the in-memory paper exchange: an entry reported SUBMITTED is
 filled and booked in full, and protected in full exactly when no raw request has put a
 disturbing order under the ids of its children.
 */
module PaperRuns {
  import opened Optional
  import opened ExecutionModel
  import opened ExecutionAdapter
  import opened CoordinatorSpec
  import opened ConsumerSpec
  import opened ExecutionSafety
  import opened PaperProtection
  import opened Risk

  // ---------------------------------------------------------------- the plan of an entry

  lemma TargetFits(intent: Intent, entry: OrderId, quantity: real, exchange: string, k: nat)
    requires 1 <= k <= 3 && entry == EntryIdOf(intent, exchange, Mode.Paper) && 0.0 < quantity <= intent.quantity
    requires TargetOf(intent, k).Some? && TargetOf(intent, k).value > 0.0
    ensures var target := TargetOf(intent, k);
      var child := Child(intent, entry, Target(entry, k), TakeProfit, quantity, target, target.value, exchange,
                         Mode.Paper);
      && child.id == Target(entry, k) && Planned(child, quantity) && target == KeyTarget(entry.key, k)
      && (quantity == intent.quantity ==> Proper(child))
  {
    assert TargetOf(intent, k) == KeyTarget(entry.key, k);
  }

  lemma {:induction false} TargetsFit(intent: Intent, entry: OrderId, quantity: real, exchange: string, upTo: nat)
    requires upTo <= 3 && entry == EntryIdOf(intent, exchange, Mode.Paper) && 0.0 < quantity <= intent.quantity
    requires TargetChildren(intent, entry, quantity, exchange, Mode.Paper, upTo).Ok?
    ensures var targets := TargetChildren(intent, entry, quantity, exchange, Mode.Paper, upTo).value;
      && (forall i | 0 <= i < |targets| ::
            && Planned(targets[i], quantity) && targets[i].id.Target? && targets[i].id.parent == entry
            && 1 <= targets[i].id.index <= upTo && KeyTarget(entry.key, targets[i].id.index).Some?
            && (quantity == intent.quantity ==> Proper(targets[i])))
      && (forall i, j | 0 <= i < j < |targets| :: targets[i].id.index < targets[j].id.index)
  {
    hide Planned, Proper;
    if upTo > 0 {
      TargetsFit(intent, entry, quantity, exchange, upTo - 1);
      if TargetOf(intent, upTo).Some? { TargetFits(intent, entry, quantity, exchange, upTo); }
      hide Child;
    }
  }

  lemma {:induction false} TargetsCover(intent: Intent, entry: OrderId, quantity: real, exchange: string, upTo: nat,
                                        k: nat)
    requires 1 <= k <= upTo <= 3 && entry == EntryIdOf(intent, exchange, Mode.Paper)
    requires TargetChildren(intent, entry, quantity, exchange, Mode.Paper, upTo).Ok? && KeyTarget(entry.key, k).Some?
    ensures var targets := TargetChildren(intent, entry, quantity, exchange, Mode.Paper, upTo).value;
      exists i :: 0 <= i < |targets| && targets[i].id == Target(entry, k)
  {
    var before := TargetChildren(intent, entry, quantity, exchange, Mode.Paper, upTo - 1).value;
    var targets := TargetChildren(intent, entry, quantity, exchange, Mode.Paper, upTo).value;
    if k == upTo {
      assert TargetOf(intent, upTo) == KeyTarget(entry.key, upTo);
      assert targets[|before|].id == Target(entry, k);
    } else {
      TargetsCover(intent, entry, quantity, exchange, upTo - 1, k);
      var i :| 0 <= i < |before| && before[i].id == Target(entry, k);
      assert targets[i].id == Target(entry, k);
    }
  }

  /** The children of `entry` in a plan: the stop first, then one target for every target price. */
  ghost predicate PlanOf(plan: seq<Order>, entry: OrderId, quantity: real)
    requires entry.Entry?
  {
    && PlanFits(plan, quantity) && plan != [] && plan[0].id == Stop(entry)
    && (forall i | 0 < i < |plan| ::
          plan[i].id.Target? && plan[i].id.parent == entry && KeyTarget(entry.key, plan[i].id.index).Some?)
    && (forall k | KeyTarget(entry.key, k).Some? :: exists i :: 0 < i < |plan| && plan[i].id == Target(entry, k))
    && (quantity == entry.key.quantity ==> forall i | 0 <= i < |plan| :: Proper(plan[i]))
  }

  lemma StopFits(intent: Intent, entry: OrderId, quantity: real, exchange: string)
    requires entry == EntryIdOf(intent, exchange, Mode.Paper)
    ensures var stop := Child(intent, entry, Stop(entry), StopMarket, quantity, None, intent.stopLoss, exchange,
                              Mode.Paper);
      && (quantity == intent.quantity ==> Proper(stop)) && (quantity <= intent.quantity ==> Planned(stop, quantity))
  {}

  /**
   Every planned child is a fresh reduce-only child for the quantity, and the planned ids are those of the entry's
   prices.
   */
  lemma PlanShape(intent: Intent, exchange: string, quantity: real)
    requires Plan(intent, exchange, Mode.Paper, quantity).Ok?
    ensures PlanOf(Plan(intent, exchange, Mode.Paper, quantity).value, EntryIdOf(intent, exchange, Mode.Paper),
                   quantity)
  {
    hide Planned, Proper, TargetChildren;
    var entry := EntryIdOf(intent, exchange, Mode.Paper);
    TargetsFit(intent, entry, quantity, exchange, 3);
    StopFits(intent, entry, quantity, exchange);
    var plan := Plan(intent, exchange, Mode.Paper, quantity).value;
    var targets := TargetChildren(intent, entry, quantity, exchange, Mode.Paper, 3).value;
    assert plan == [plan[0]] + targets && plan[0].id == Stop(entry);
    assert Planned(plan[0], quantity) && (quantity == intent.quantity ==> Proper(plan[0]));
    hide Plan, KeyTarget;
    assert forall i | 0 < i < |plan| :: plan[i] == targets[i - 1];
    assert DistinctIds(plan);
    forall k | KeyTarget(entry.key, k).Some? ensures exists i :: 0 < i < |plan| && plan[i].id == Target(entry, k) {
      assert 1 <= k <= 3 by { PricesAreThree(entry.key, k); }
      TargetsCover(intent, entry, quantity, exchange, 3, k);
      var i :| 0 <= i < |targets| && targets[i].id == Target(entry, k);
      assert plan[i + 1].id == Target(entry, k);
    }
  }

  lemma PricesAreThree(key: Key, k: nat)
    requires KeyTarget(key, k).Some?
    ensures 1 <= k <= 3
  {}

  // ---------------------------------------------------------------- protected and undisturbed

  ghost predicate Rests(a: Adapter, id: OrderId)
  {
    a.PaperBook? && id in a.orders && a.orders[id].id == id && Proper(a.orders[id])
  }

  /** The stop and at least one target of the entry rest in the book, live and for its whole quantity. */
  ghost predicate Protected(a: Adapter, entry: OrderId)
    requires entry.Entry?
  {
    Rests(a, Stop(entry)) && exists k: nat :: KeyTarget(entry.key, k).Some? && Rests(a, Target(entry, k))
  }

  /** Nothing that would be taken for the child rests under its id. */
  ghost predicate Free(a: Adapter, id: OrderId) { a.PaperBook? && (id in a.orders ==> Calm(a.orders[id])) }

  ghost predicate Undisturbed(a: Adapter, entry: OrderId)
    requires entry.Entry?
  {
    Free(a, Stop(entry)) && exists k: nat :: KeyTarget(entry.key, k).Some? && Free(a, Target(entry, k))
  }

  /** A planned child rests properly afterwards exactly when its id was free before. */
  lemma ChildRestsExactly(a: Adapter, b: Adapter, child: Order, calm: bool)
    requires BookFits(a, calm) && b.PaperBook? && ChildId(child.id) && Proper(child)
    requires child.id in b.orders && b.orders[child.id] == Settles(a, child, child.id.parent.key.quantity)
    ensures Rests(b, child.id) <==> Free(a, child.id)
  {}

  lemma ProtectedExactly(a: Adapter, b: Adapter, entry: OrderId, plan: seq<Order>, remote: seq<Order>, calm: bool)
    requires entry.Entry? && BookFits(a, calm) && PlanOf(plan, entry, entry.key.quantity)
             && Placed(a, b, plan, remote, entry.key.quantity)
    ensures Protected(b, entry) <==> Undisturbed(a, entry)
  {
    forall i | 0 <= i < |plan| ensures Rests(b, plan[i].id) <==> Free(a, plan[i].id) {
      assert Proper(plan[i]);
      ChildRestsExactly(a, b, plan[i], calm);
    }
    hide Rests, Free, Proper, Settles, BookFits, PlanFits;
    assert plan[0].id == Stop(entry);
    forall k: nat | KeyTarget(entry.key, k).Some? ensures Rests(b, Target(entry, k)) <==> Free(a, Target(entry, k)) {
      var i :| 0 < i < |plan| && plan[i].id == Target(entry, k);
    }
  }

  /** In a calm book verify() itself shows that the plan has a target. */
  lemma CalmIsUndisturbed(a: Adapter, entry: OrderId, plan: seq<Order>, remote: seq<Order>)
    requires entry.Entry? && BookFits(a, true) && PlanOf(plan, entry, entry.key.quantity) && |remote| == |plan|
    requires forall i | 0 <= i < |plan| :: remote[i] == Settles(a, plan[i], entry.key.quantity)
    requires Verified(entry, entry.key.quantity, remote)
    ensures Undisturbed(a, entry)
  {
    var target :| target in remote && LiveChild(target, entry) && target.orderType.TakeProfit?;
    var i :| 0 <= i < |remote| && remote[i] == target;
    assert Proper(plan[i]);
    assert Proper(remote[i]) && remote[i].id == plan[i].id;
    assert Free(a, Target(entry, plan[i].id.index));
  }

  lemma SynchronizeOutcome(s: Node, intent: Intent, entry: Order, now: real)
    ensures var quantity := Fills(s.db.fills, entry.id);
      var plan := Plan(intent, s.adapter.exchange, s.cfg.mode, quantity);
      var (t, done) := Synchronize(s, intent, entry, now);
      if quantity <= 0.0 || plan.Raise? then t.adapter == s.adapter && (quantity > 0.0 ==> done != Ok(true))
      else
        var (u, remote) := Place(s, plan.value, quantity, now);
        && t.adapter == u.adapter
        && (done == Ok(true) ==>
            remote.Ok? && Verified(EntryIdOf(intent, s.adapter.exchange, s.cfg.mode), quantity, remote.value))
  {
    hide Replay, Apply, Plan, PlaceChild, Verified;
  }

  /**
   Confirmed protection of a whole entry: in place exactly when its ids were undisturbed, and always so in a calm
   book.
   */
  lemma SynchronizePaper(s: Node, intent: Intent, entry: Order, now: real, calm: bool)
    requires PaperInv(s, calm)
    ensures var (t, done) := Synchronize(s, intent, entry, now);
      var id := EntryIdOf(intent, s.adapter.exchange, Mode.Paper);
      && PaperInv(t, calm) && Silent(s, t) && SameEntries(s.adapter, t.adapter)
      && t.adapter.exchange == s.adapter.exchange
      && (done == Ok(true) && Fills(s.db.fills, entry.id) == intent.quantity > 0.0 ==>
          && (Protected(t.adapter, id) <==> Undisturbed(s.adapter, id))
          && (calm ==> Undisturbed(s.adapter, id)))
  {
    PaperInvIsInv(s, calm);
    assert s.cfg.mode.Paper?;
    SynchronizeKeeps(s, intent, entry, now);
    SynchronizeOutcome(s, intent, entry, now);
    var quantity := Fills(s.db.fills, entry.id);
    var plan := Plan(intent, s.adapter.exchange, s.cfg.mode, quantity);
    var id := EntryIdOf(intent, s.adapter.exchange, s.cfg.mode);
    hide PaperInv, Inv, AlwaysRowed, Silent, Verified, Plan, Place, Synchronize, BookFits, Protected, Undisturbed,
         Placed, Elsewhere;
    var v := Synchronize(s, intent, entry, now).0;
    if quantity > 0.0 && plan.Ok? {
      PlanShape(intent, s.adapter.exchange, quantity);
      hide PlanFits;
      PlacePaper(s, plan.value, quantity, now, calm);
      var (t, remote) := Place(s, plan.value, quantity, now);
      if remote.Ok? && Verified(id, quantity, remote.value) && quantity == intent.quantity {
        ProtectedExactly(s.adapter, t.adapter, id, plan.value, remote.value, calm);
        if calm { PlacedIsCalm(s.adapter, t.adapter, id, plan.value, remote.value); }
      }
      SameBook(s, t, v, calm);
    } else {
      SameBook(s, s, v, calm);
    }
  }

  lemma PlacedIsCalm(a: Adapter, b: Adapter, entry: OrderId, plan: seq<Order>, remote: seq<Order>)
    requires entry.Entry? && BookFits(a, true) && PlanOf(plan, entry, entry.key.quantity)
             && Placed(a, b, plan, remote, entry.key.quantity)
    requires Verified(entry, entry.key.quantity, remote)
    ensures Undisturbed(a, entry)
  {
    hide BookFits, Settles, Verified, Undisturbed, PlanOf;
    CalmIsUndisturbed(a, entry, plan, remote);
  }

  /** A silent step that leaves the book where it was. */
  lemma SameBook(s: Node, t: Node, v: Node, calm: bool)
    requires PaperInv(s, calm) && PaperInv(t, calm) && Silent(s, v) && v.adapter == t.adapter
    requires SameEntries(s.adapter, t.adapter) || s == t
    ensures PaperInv(v, calm) && SameEntries(s.adapter, v.adapter)
  {
    PaperInvIsInv(t, calm);
    hide Safe, VenueLog, Inv, AlwaysRowed, BookFits;
    assert SameEntries(s.adapter, v.adapter) by {
      if s == t {
        PaperInvIsInv(s, calm);
        assert s.adapter.PaperBook? by { BookIsPaper(s.adapter, calm); }
      }
    }
    hide Silent;
    SilentPaper(s, v, calm);
  }

  lemma BookIsPaper(a: Adapter, calm: bool)
    requires BookFits(a, calm)
    ensures a.PaperBook?
  {}

  // ---------------------------------------------------------------- submit_intent

  lemma {:induction false} NoFillsYet(fills: seq<Fill>, id: OrderId)
    requires forall f | f in fills :: f.orderId != id
    ensures Fills(fills, id) == 0.0
  {
    if fills != [] {
      NoFillsYet(fills[..|fills| - 1], id);
    }
  }

  lemma ConfirmFillPaper(s: Node, order: Order, now: real, calm: bool)
    requires PaperInv(s, calm) && (!order.reduceOnly && order.filled > 0.0 ==> order.id in s.db.orders)
    ensures PaperInv(ConfirmFill(s, order, now).0, calm) && ConfirmFill(s, order, now).0.adapter == s.adapter
  {
    hide Safe, VenueLog, LatestGood, Good, IsKilled, BookFits;
    ConfirmFillKeeps(s, order, now);
    var t := ConfirmFill(s, order, now).0;
    assert s.log[..|s.log|] == s.log;
    if t.log != s.log {
      assert t.log == s.log + [t.log[|s.log|]];
      AlwaysRowedAppend(s.log, t.log[|s.log|]);
    }
  }

  /** A filled paper entry that the ledger has never seen is booked at its full quantity. */
  lemma FreshFill(s: Node, order: Order, now: real)
    requires order.status.Filled? && !order.reduceOnly && order.filled == order.quantity > 0.0
    requires forall f | f in s.db.fills :: f.orderId != order.id
    ensures var (t, delta) := ConfirmFill(s, order, now);
      delta.Raise? || FillPrice(order).None? || Fills(t.db.fills, order.id) == order.quantity
  {
    NoFillsYet(s.db.fills, order.id);
    if FillPrice(order).Some? {
      var fill := Fill(order.id, order.symbol, order.side, order.filled, FillPrice(order).value, now);
      assert !KnownFill(s.db.fills, fill);
      assert (s.db.fills + [fill])[..|s.db.fills|] == s.db.fills;
    }
  }

  /** The entry is FILLED in full and the ledger has booked exactly its quantity. */
  ghost predicate FilledAndBooked(t: Node, intent: Intent) {
    var id := EntryIdOf(intent, t.adapter.exchange, Mode.Paper);
    && t.adapter.PaperBook? && id in t.adapter.orders
    && t.adapter.orders[id].status.Filled?
    && t.adapter.orders[id].filled == t.adapter.orders[id].quantity == intent.quantity
    && Fills(t.db.fills, id) == intent.quantity
  }

  /** What SUBMITTED means for an entry submitted from `s`. */
  ghost predicate SubmittedMeans(s: Adapter, t: Node, intent: Intent, calm: bool) {
    var id := EntryIdOf(intent, s.exchange, Mode.Paper);
    && t.adapter.exchange == s.exchange && FilledAndBooked(t, intent)
    && (Protected(t.adapter, id) <==> Undisturbed(s, id))
    && (calm ==> Undisturbed(s, id))
  }

  lemma SettlePaper(s: Node, intent: Intent, order: Order, submitted: Order, now: real, calm: bool)
    requires PaperInv(s, calm) && submitted.id in s.db.orders && submitted.id == order.id && !submitted.reduceOnly
    requires intent.quantity > 0.0 && order.id == EntryIdOf(intent, s.adapter.exchange, Mode.Paper)
    requires order.id in s.adapter.orders && s.adapter.orders[order.id] == submitted && FillPrice(submitted).Some?
    requires forall f | f in s.db.fills :: f.orderId != order.id
    ensures var (t, outcome) := Settle(s, intent, order, submitted, now);
      && PaperInv(t, calm)
      && (outcome.Outcome? && outcome.status.OutSubmitted? ==> SubmittedMeans(s.adapter, t, intent, calm))
  {
    PaperInvIsInv(s, calm);
    assert s.cfg.mode.Paper?;
    assert EntryFits(submitted);
    ConfirmFillPaper(s, submitted, now, calm);
    FreshFill(s, submitted, now);
    var (t, delta) := ConfirmFill(s, submitted, now);
    SynchronizePaper(t, intent, submitted, now, calm);
    hide PaperInv, Inv, BookFits, ConfirmFill, FillPrice, Synchronize, Protected, Undisturbed, Replay, Apply;
    var u := Synchronize(t, intent, submitted, now).0;
    assert u.adapter.orders[order.id] == submitted;
  }

  /** Only the entry itself has come into the book, so its children are as free as before. */
  lemma SameDisturbance(a: Adapter, b: Adapter, order: Order)
    requires a.PaperBook? && b.PaperBook? && order.id.Entry? && b.orders == a.orders[order.id := order]
    ensures Undisturbed(b, order.id) <==> Undisturbed(a, order.id)
  {
    hide Calm;
    assert Free(b, Stop(order.id)) <==> Free(a, Stop(order.id));
    forall k: nat ensures Free(b, Target(order.id, k)) <==> Free(a, Target(order.id, k)) {}
    hide Free;
  }

  lemma TransmitPaper(s: Node, intent: Intent, order: Order, now: real, calm: bool)
    requires PaperInv(s, calm) && s.recovery.Ready? && !IsKilled(s.db) && order.id !in s.db.orders
    requires intent.quantity > 0.0 && intent.entry > 0.0
    requires FromIntent(intent, s.adapter.exchange, Mode.Paper) == Ok(order)
    ensures var (t, outcome) := Transmit(s, intent, order, now);
      && PaperInv(t, calm)
      && (outcome.Outcome? && outcome.status.OutSubmitted? ==> SubmittedMeans(s.adapter, t, intent, calm))
  {
    WriteAheadPaper(s, intent, order, now, calm);
    var ahead := WriteAhead(s, intent, order, now);
    assert order.id !in s.adapter.orders;
    SubmitEntryPaper(ahead, order, calm);
    hide PaperInv, Replay, Apply, Settle, Inv, WriteAhead, Protected, Undisturbed, FilledAndBooked;
    var (t, reply) := Send(ahead, order);
    var u := t.Put(PutOrder(reply.value));
    SettlePaper(u, intent, order, reply.value, now, calm);
    SameDisturbance(s.adapter, u.adapter, reply.value);
  }

  lemma WriteAheadPaper(s: Node, intent: Intent, order: Order, now: real, calm: bool)
    requires PaperInv(s, calm) && order.id !in s.db.orders
             && order.id == EntryIdOf(intent, s.adapter.exchange, Mode.Paper)
    ensures var t := WriteAhead(s, intent, order, now);
      && PaperInv(t, calm) && order.id in t.db.orders && t.adapter == s.adapter && t.recovery == s.recovery
      && LatestGood(t.db) == LatestGood(s.db) && IsKilled(t.db) == IsKilled(s.db)
      && (forall f | f in t.db.fills :: f.orderId != order.id)
      && forall j: nat | IsSubmit(t.log, j) :: t.log[j].order.id != order.id
  {
    WriteAheadKeeps(s, intent, order, now);
    assert s.log[..|s.log|] == s.log && FillsHaveRows(Replay(s.log[..|s.log|]));
    PaperInvIsInv(s, calm);
    hide Safe, VenueLog, Replay, AlwaysRowed, BookFits;
    SilentPaper(s, WriteAhead(s, intent, order, now), calm);
  }

  /** The paper exchange fills a new entry at once, in full and at the entry price. */
  lemma SubmitEntryPaper(s: Node, order: Order, calm: bool)
    requires PaperInv(s, calm) && order.id.Entry? && order.id in s.db.orders && order.id !in s.adapter.orders
    requires !order.reduceOnly && order.mode.Paper? && order.quantity == order.id.key.quantity && order.price.Some?
             && order.price.value != 0.0
    requires LatestGood(s.db) && !IsKilled(s.db)
    requires forall j: nat | IsSubmit(s.log, j) :: s.log[j].order.id != order.id
    ensures var (t, reply) := Send(s, order);
      && reply.Ok? && reply.value.id == order.id && !reply.value.reduceOnly && FillPrice(reply.value).Some?
      && var u := t.Put(PutOrder(reply.value));
        && PaperInv(u, calm) && u.adapter.exchange == s.adapter.exchange && u.db.fills == s.db.fills
        && s.adapter.PaperBook? && u.adapter.PaperBook? && u.adapter.orders == s.adapter.orders[order.id := reply.value]
        && order.id in u.db.orders
  {
    SendKeeps(s, order);
    var (t, reply) := Send(s, order);
    RowKeeps(t, PutOrder(reply.value));
    var u := t.Put(PutOrder(reply.value));
    SilentTransitive(s, t, u);
    FilledEntryFits(s.adapter, reply.value, calm);
    hide Replay, Apply, Safe, VenueLog, AlwaysRowed, BookFits, Silent, Inv;
    assert BookFits(u.adapter, calm);
    SilentPaper(s, u, calm);
  }

  lemma FilledEntryFits(a: Adapter, order: Order, calm: bool)
    requires BookFits(a, calm) && order.id.Entry? && EntryFits(order)
    ensures forall b: Adapter | b.PaperBook? && b.orders == a.orders[order.id := order] :: BookFits(b, calm)
  {}

  /**
   In PAPER mode a SUBMITTED outcome means: the entry is FILLED in full and the ledger has
   booked exactly its quantity. The stop at the intent's stop price and at least one target rest
   for exactly that quantity if and only if, before the submission, no order that is larger than
   the entry, or as large but not the planned one, rested under the stop's id or under all target ids.
   */
  lemma SubmittedExactly(s: Node, intent: Intent, asOf: Option<real>, now: real, calm: bool)
    requires PaperInv(s, calm)
    ensures var (t, outcome) := SubmitIntent(s, intent, asOf, now);
      && PaperInv(t, calm)
      && (outcome.Outcome? && outcome.status.OutSubmitted? ==> SubmittedMeans(s.adapter, t, intent, calm))
  {
    PaperInvIsInv(s, calm);
    assert s.cfg.mode.Paper?;
    assert s.adapter.PaperBook? by { BookIsPaper(s.adapter, calm); }
    SubmitReaches(s, intent, asOf, now);
    hide SubmitIntent, PaperInv, Inv, BookFits, Replay, Transmit, SubmittedMeans;
    if StaticRefusal(s, intent, asOf, now).None? {
      var order := FromIntent(intent, s.adapter.exchange, s.cfg.mode).value;
      if order.id in s.requests || order.id in s.db.orders {
        ReconKeeps(s, order.symbol, Unclear);
        SameBook(s, s, s.Suspect(order.symbol), calm);
      } else {
        TransmitPaper(s, intent, order, now, calm);
      }
    }
  }

  /** On the paper book only Transmit can answer SUBMITTED. */
  lemma SubmitReaches(s: Node, intent: Intent, asOf: Option<real>, now: real)
    requires s.adapter.PaperBook?
    ensures var ((t, outcome), order) := (SubmitIntent(s, intent, asOf, now),
                                          FromIntent(intent, s.adapter.exchange, s.cfg.mode));
      if StaticRefusal(s, intent, asOf, now).Some? || order.Raise?
      then t == s && !(outcome.Outcome? && outcome.status.OutSubmitted?)
      else
        || ((t == s || t == s.Suspect(order.value.symbol)) && !(outcome.Outcome? && outcome.status.OutSubmitted?))
        || (order.value.id !in s.requests && order.value.id !in s.db.orders
            && (t, outcome) == Transmit(s, intent, order.value, now))
  {
    hide StaticRefusal, FromIntent, AccountRefusal, Transmit, Replay, Apply;
  }

  // ---------------------------------------------------------------- every command keeps the paper invariant
  lemma QuietPaper(s: Node, v: Node, calm: bool)
    requires PaperInv(s, calm) && Silent(s, v) && v.adapter == s.adapter
    ensures PaperInv(v, calm)
  {
    hide PaperInv, Silent;
    SameBook(s, s, v, calm);
  }

  lemma RebuildReaches(s: Node, intent: Intent, id: OrderId, now: real)
    requires Lookup(s.adapter, id).0 == s.adapter
    ensures var (r, found) := (Rebuild(s, intent, id, now).0, Lookup(s.adapter, id).1);
      if !(found.Ok? && found.value.Some?) then r == s
      else
        var remote := found.value.value;
        var u := ConfirmFill(s.Put(PutOrder(remote)), remote, now).0;
        var v := Synchronize(u, intent, remote, now).0;
        r == s || r == u || r == v || r == ComparePosition(u, remote).0 || r == ComparePosition(v, remote).0
  {
    hide Lookup, ConfirmFill, Synchronize, ComparePosition, Replay, Apply;
  }

  lemma RebuildPaper(s: Node, intent: Intent, id: OrderId, now: real, calm: bool)
    requires PaperInv(s, calm)
    ensures PaperInv(Rebuild(s, intent, id, now).0, calm)
  {
    PaperInvIsInv(s, calm);
    var (a, found) := Lookup(s.adapter, id);
    assert s.adapter.PaperBook? && a == s.adapter by { BookIsPaper(s.adapter, calm); }
    RebuildReaches(s, intent, id, now);
    hide Rebuild, Lookup, PaperInv, Inv, BookFits, Replay, Apply, ConfirmFill, Synchronize, ComparePosition,
         Undisturbed, Protected;
    if found.Ok? && found.value.Some? {
      var remote := found.value.value;
      RowKeeps(s, PutOrder(remote));
      var r := s.Put(PutOrder(remote));
      QuietPaper(s, r, calm);
      ConfirmFillPaper(r, remote, now, calm);
      var u := ConfirmFill(r, remote, now).0;
      hide Silent;
      SynchronizePaper(u, intent, remote, now, calm);
      ComparePositionPaper(u, remote, calm);
      ComparePositionPaper(Synchronize(u, intent, remote, now).0, remote, calm);
    }
  }

  lemma ComparePositionPaper(s: Node, remote: Order, calm: bool)
    requires PaperInv(s, calm)
    ensures PaperInv(ComparePosition(s, remote).0, calm)
  {
    PaperInvIsInv(s, calm);
    ComparePositionKeeps(s, remote);
    assert ComparePosition(s, remote).0.adapter == s.adapter by { BookIsPaper(s.adapter, calm); }
    hide PaperInv, Inv, Silent, ComparePosition;
    QuietPaper(s, ComparePosition(s, remote).0, calm);
  }

  lemma RecoverReaches(s: Node, intent: Intent, orderId: Option<OrderId>, id: OrderId, now: real)
    requires id == if orderId.Some? then orderId.value else EntryIdOf(intent, s.adapter.exchange, s.cfg.mode)
    ensures var (r, t) := (Recover(s, intent, orderId, now).0, Rebuild(s, intent, id, now).0);
      if orderId.None? && intent.quantity <= 0.0 then r == s else r == t || r == t.Suspect(intent.symbol)
  {
    hide Rebuild, Replay, Apply;
  }

  lemma RecoverPaper(s: Node, intent: Intent, orderId: Option<OrderId>, now: real, calm: bool)
    requires PaperInv(s, calm)
    ensures PaperInv(Recover(s, intent, orderId, now).0, calm)
  {
    var id := if orderId.Some? then orderId.value else EntryIdOf(intent, s.adapter.exchange, s.cfg.mode);
    RecoverReaches(s, intent, orderId, id, now);
    hide Recover, PaperInv, Inv, Silent, Rebuild, Replay;
    if orderId.Some? || intent.quantity > 0.0 {
      RebuildPaper(s, intent, id, now, calm);
      var t := Rebuild(s, intent, id, now).0;
      PaperInvIsInv(t, calm);
      ReconKeeps(t, intent.symbol, Unclear);
      QuietPaper(t, t.Suspect(intent.symbol), calm);
    }
  }

  /**
   The commands of a paper run, raw requests included, with fills reported from the paper book
   itself. With `calm`, raw requests are calm too. A crash loses the book, which lives in the
   same process.
   */
  ghost predicate InPaper(s: Node, command: Command, calm: bool) {
    match command
    case DoConfirm(order, _) => s.adapter.PaperBook? && order.id in s.adapter.orders
                                && s.adapter.orders[order.id] == order
    case DoRequest(order, _) => calm ==> Calm(order)
    case Rebuilt(cfg, adapter) => cfg.mode.Paper? && adapter == s.adapter
    case Crash(during, _, cfg, adapter) => InPaper(s, during, calm) && cfg.mode.Paper? && adapter.PaperBook?
                                           && adapter.orders == map[]
    case _ => true
  }

  lemma PrefixRowed(log: seq<Event>, k: nat)
    requires AlwaysRowed(log) && k <= |log|
    ensures AlwaysRowed(log[..k])
  {
    forall j: nat | j <= k
      ensures FillsHaveRows(Replay(log[..k][..j]))
    {
      assert log[..k][..j] == log[..j];
    }
  }

  lemma ConsumePaper(w: World, calm: bool)
    requires WorldInv(w) && PaperInv(w.node, calm)
    ensures PaperInv(Consume(w).node, calm)
  {
    hide PaperInv, SetStatus, SubmitIntent, WorldInv, SubmittedMeans;
    if w.running && !w.dead && w.queue != [] && w.queue[0].intent.quantity > 0.0 {
      var item := w.queue[0];
      var id := EntryIdOf(item.intent, w.node.adapter.exchange, w.node.cfg.mode);
      SetStatusPaper(w.node, id, Processing, calm);
      var s := SetStatus(w.node, id, Processing);
      SubmittedExactly(s, item.intent, item.asOf, item.now, calm);
      var (t, outcome) := SubmitIntent(s, item.intent, item.asOf, item.now);
      if outcome.Outcome? {
        SetStatusPaper(t, id, StatusOf(outcome), calm);
      }
    }
  }

  lemma SetStatusPaper(s: Node, id: OrderId, status: IntentStatus, calm: bool)
    requires PaperInv(s, calm)
    ensures PaperInv(SetStatus(s, id, status), calm)
  {
    PaperInvIsInv(s, calm);
    SetStatusKeeps(s, id, status);
    assert SetStatus(s, id, status).adapter == s.adapter;
    hide PaperInv, Silent, SetStatus, Inv;
    QuietPaper(s, SetStatus(s, id, status), calm);
  }

  lemma KillPaper(s: Node, state: KillState, calm: bool)
    requires PaperInv(s, calm)
    ensures PaperInv(s.Put(PutKill(state)), calm)
  {
    PutContinues(s, PutKill(state));
    KillStaysRowed(s.log, state);
    hide BookFits, AlwaysRowed, Safe, VenueLog, Replay;
  }

  lemma KillStaysRowed(log: seq<Event>, state: KillState)
    requires AlwaysRowed(log)
    ensures AlwaysRowed(log + [PutKill(state)])
  {
    assert log[..|log|] == log;
    OtherRowsKeepFills(Replay(log), PutKill(state));
    hide Replay, Apply, FillsHaveRows;
    AlwaysRowedAppend(log, PutKill(state));
  }

  lemma {:induction false} StartPaper(w: World, rows: seq<OrderId>, clock: real, calm: bool)
    requires WorldInv(w) && PaperInv(w.node, calm) && forall id | id in rows :: id in w.node.db.intents
    ensures PaperInv(RecoverRows(w, rows, clock).node, calm)
  {
    hide Verdict, SetStatus, PaperInv, WorldInv, Silent;
    if rows != [] {
      var shorter := rows[..|rows| - 1];
      StartPaper(w, shorter, clock, calm);
      RecoverRowsKeep(w, shorter, clock);
      var v := RecoverRows(w, shorter, clock);
      SetStatusPaper(v.node, rows[|rows| - 1], Verdict(v, rows[|rows| - 1], clock), calm);
    }
  }

  lemma AcceptPaper(w: World, intent: Intent, asOf: Option<real>, now: real, calm: bool)
    requires WorldInv(w) && PaperInv(w.node, calm)
    ensures PaperInv(Accept(w, intent, asOf, now).0.node, calm)
  {
    AcceptKeeps(w, intent, asOf, now);
    AcceptAdapter(w, intent, asOf, now);
    hide PaperInv, Silent, Accept, WorldInv;
    QuietPaper(w.node, Accept(w, intent, asOf, now).0.node, calm);
  }

  lemma AcceptAdapter(w: World, intent: Intent, asOf: Option<real>, now: real)
    ensures Accept(w, intent, asOf, now).0.node.adapter == w.node.adapter
  {
    hide Replay, Apply;
  }

  lemma ReconcilePaper(s: Node, expected: Option<Position>, calm: bool)
    requires PaperInv(s, calm)
    ensures PaperInv(ReconcileWith(s, expected).0, calm)
  {
    PaperInvIsInv(s, calm);
    ReconcileKeeps(s, expected);
    assert ReconcileWith(s, expected).0.adapter == s.adapter by { BookIsPaper(s.adapter, calm); }
    hide PaperInv, Silent, ReconcileWith, Inv;
    QuietPaper(s, ReconcileWith(s, expected).0, calm);
  }

  lemma StartedPaper(w: World, command: Command, calm: bool)
    requires WorldInv(w) && PaperInv(w.node, calm) && command.DoStart?
    ensures PaperInv(Exec(w, command).node, calm)
  {
    hide PaperInv, RecoverRows;
    if Listing(w.node.db, command.rows) {
      StartPaper(w.(running := true, failed := false, dead := false), command.rows, command.clock, calm);
    }
  }

  lemma RestartPaper(w: World, command: Command, calm: bool)
    requires ValidConfig(w.risk) && WorldInv(Exec(w, command)) && PaperInv(w.node, calm)
             && InPaper(w.node, command, calm)
    requires command.Rebuilt?
             || (command.Crash? && PaperInv(Exec(w, command.during).node, calm)
                 && w.node.log <= Exec(w, command.during).node.log)
    ensures PaperInv(Exec(w, command).node, calm)
  {
    hide Safe, VenueLog, Replay, AlwaysRowed;
    if command.Crash? {
      var log := Exec(w, command.during).node.log;
      PrefixRowed(log, if |w.node.log| <= command.kept <= |log| then command.kept else |log|);
    }
  }

  lemma {:induction false} ExecPaper(w: World, command: Command, calm: bool)
    requires WorldInv(w) && PaperInv(w.node, calm) && InPaper(w.node, command, calm)
    ensures PaperInv(Exec(w, command).node, calm)
    decreases command
  {
    ExecKeeps(w, command);
    hide PaperInv, WorldInv, Calm, SubmitIntent, ConfirmFill, Synchronize, Recover, ReconcileWith, SubmitRequest,
         Accept, Consume, RecoverRows, Node.Put, Protected, Undisturbed, SubmittedMeans, Silent;
    if command.Crash? || command.Rebuilt? {
      if command.Crash? {
        ExecPaper(w, command.during, calm);
        ExecKeeps(w, command.during);
      }
      hide Exec, InPaper;
      RestartPaper(w, command, calm);
    } else if command.DoStart? {
      StartedPaper(w, command, calm);
      hide Exec;
    } else {
      match command
      case DoSubmit(intent, asOf, now) => SubmittedExactly(w.node, intent, asOf, now, calm);
      case DoConfirm(order, now) =>
        ReportedHasRow(w.node, order, calm);
        ConfirmFillPaper(w.node, order, now, calm);
      case DoSynchronize(intent, order, now) => SynchronizePaper(w.node, intent, order, now, calm);
      case DoRecover(intent, id, now) => RecoverPaper(w.node, intent, id, now, calm);
      case DoReconcile(expected) => ReconcilePaper(w.node, expected, calm);
      case DoRequest(order, now) => RequestKeepsPaper(w.node, order, now, calm);
      case DoEvaluate(_) => KillPaper(w.node, Killed, calm);
      case DoKill => KillPaper(w.node, Killed, calm);
      case DoReset(_, _) => KillPaper(w.node, ExecutionModel.Reset, calm);
      case DoAccept(intent, asOf, now) => AcceptPaper(w, intent, asOf, now, calm);
      case DoConsume => ConsumePaper(w, calm);
    }
  }

  lemma ReportedHasRow(s: Node, order: Order, calm: bool)
    requires PaperInv(s, calm) && order.id in s.adapter.orders && s.adapter.orders[order.id] == order
    ensures !order.reduceOnly ==> order.id in s.db.orders
  {}

  ghost predicate AllInPaper(w: World, commands: seq<Command>, calm: bool)
    requires ValidConfig(w.risk)
  {
    commands != [] ==>
      && AllInPaper(w, commands[..|commands| - 1], calm)
      && InPaper(Run(w, commands[..|commands| - 1]).node, commands[|commands| - 1], calm)
  }

  lemma {:induction false} RunPaper(w: World, commands: seq<Command>, calm: bool)
    requires WorldInv(w) && PaperInv(w.node, calm) && AllInPaper(w, commands, calm)
    ensures PaperInv(Run(w, commands).node, calm)
  {
    hide PaperInv, WorldInv, Exec, InPaper;
    if commands != [] {
      var before := commands[..|commands| - 1];
      RunPaper(w, before, calm);
      RunKeeps(w, before);
      ExecPaper(Run(w, before), commands[|commands| - 1], calm);
    }
  }

  function PaperStart(cfg: Config, exchange: string, balance: Balance, healthy: bool, risk: RiskConfig,
                      capacity: nat): World {
    Initial(cfg, PaperBook(exchange, balance, healthy, map[], []), risk, capacity)
  }

  /**
   From an empty ledger and an empty paper book, after any paper run with restarts, crashes and
   raw requests of every kind, a submission that returns SUBMITTED leaves its entry filled and
   booked in full, and protected in full exactly when its ids were undisturbed.
   */
  lemma PaperSubmissionsExactly(cfg: Config, exchange: string, balance: Balance, healthy: bool, risk: RiskConfig,
                                capacity: nat,
                                commands: seq<Command>, intent: Intent, asOf: Option<real>, now: real, calm: bool)
    requires cfg.mode.Paper? && ValidConfig(risk)
    requires AllInPaper(PaperStart(cfg, exchange, balance, healthy, risk, capacity), commands, calm)
    ensures var s := Run(PaperStart(cfg, exchange, balance, healthy, risk, capacity), commands).node;
      var (t, outcome) := SubmitIntent(s, intent, asOf, now);
      outcome.Outcome? && outcome.status.OutSubmitted? ==> SubmittedMeans(s.adapter, t, intent, calm)
  {
    var w := PaperStart(cfg, exchange, balance, healthy, risk, capacity);
    InitialRun(cfg, w.node.adapter, risk, capacity, []);
    assert PaperInv(w.node, calm);
    hide PaperInv, SubmittedMeans, SubmitIntent, InPaper;
    RunPaper(w, commands, calm);
    hide Run, AllInPaper, PaperStart;
    SubmittedExactly(Run(w, commands).node, intent, asOf, now, calm);
  }

  /** In runs whose raw requests are calm, SUBMITTED means filled, booked and protected in full. */
  lemma PaperSubmissionsAreProtected(cfg: Config, exchange: string, balance: Balance, healthy: bool, risk: RiskConfig,
                                     capacity: nat,
                                     commands: seq<Command>, intent: Intent, asOf: Option<real>, now: real)
    requires cfg.mode.Paper? && ValidConfig(risk)
    requires AllInPaper(PaperStart(cfg, exchange, balance, healthy, risk, capacity), commands, true)
    ensures var s := Run(PaperStart(cfg, exchange, balance, healthy, risk, capacity), commands).node;
      var (t, outcome) := SubmitIntent(s, intent, asOf, now);
      outcome.Outcome? && outcome.status.OutSubmitted? ==>
        FilledAndBooked(t, intent) && Protected(t.adapter, EntryIdOf(intent, s.adapter.exchange, Mode.Paper))
  {
    hide Run, PaperStart, AllInPaper, SubmitIntent, FilledAndBooked, Protected, Undisturbed;
    PaperSubmissionsExactly(cfg, exchange, balance, healthy, risk, capacity, commands, intent, asOf, now, true);
  }
}
