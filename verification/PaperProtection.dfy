/**
 What rests in the paper book: entries filled in full, and protection children that are the
 planned ones unless a raw request has put something else under their ids beforehand.
 */
module PaperProtection {
  import opened Optional
  import opened ExecutionModel
  import opened ExecutionAdapter
  import opened CoordinatorSpec
  import opened ExecutionSafety

  // ---------------------------------------------------------------- children of an entry

  function KeyTarget(key: Key, index: nat): Option<real> {
    if index == 1 then key.tp1 else if index == 2 then key.tp2 else if index == 3 then key.tp3 else None
  }

  /** The ids under which an entry is protected. */
  predicate ChildId(id: OrderId) {
    !id.Entry? && id.parent.Entry? && (id.Target? ==> KeyTarget(id.parent.key, id.index).Some?)
  }

  /** A live reduce-only child for exactly the whole entry, triggered where the intent says. */
  predicate Proper(o: Order) {
    && ChildId(o.id) && LiveChild(o, o.id.parent) && o.quantity == o.id.parent.key.quantity
    && (o.side.Sell? <==> o.id.parent.key.action.Long?)
    && (if o.id.Stop? then o.orderType.StopMarket? && o.stopPrice == Some(o.id.parent.key.stopLoss)
        else o.orderType.TakeProfit? && o.stopPrice == KeyTarget(o.id.parent.key, o.id.index))
  }

  /** An order that does not stand in the way of the child planned under its id. */
  predicate Calm(o: Order) {
    ChildId(o.id) ==> o.quantity < o.id.parent.key.quantity || Proper(o)
  }

  // ---------------------------------------------------------------- the book

  predicate EntryFits(o: Order)
    requires o.id.Entry?
  {
    !o.reduceOnly ==> o.status.Filled? && o.filled == o.quantity == o.id.key.quantity
  }

  /** Only entries are not reduce-only, and they are filled in full; with `calm`, every order is. */
  ghost predicate BookFits(a: Adapter, calm: bool) {
    && a.PaperBook?
    && forall id | id in a.orders ::
         var o := a.orders[id];
         && o.id == id && (!o.reduceOnly ==> id.Entry?) && (id.Entry? ==> EntryFits(o)) && (calm ==> Calm(o))
  }

  /** Entries in the paper book stay as they are. */
  ghost predicate SameEntries(a: Adapter, b: Adapter) {
    a.PaperBook? && b.PaperBook?
    && forall id: OrderId | id.Entry? ::
         (id in a.orders <==> id in b.orders) && (id in a.orders ==> a.orders[id] == b.orders[id])
  }

  ghost predicate FillsHaveRows(db: Db) { forall f | f in db.fills :: f.orderId in db.orders }

  ghost predicate AlwaysRowed(log: seq<Event>) { forall k: nat | k <= |log| :: FillsHaveRows(Replay(log[..k])) }

  ghost predicate PaperInv(s: Node, calm: bool) {
    && Inv(s) && s.cfg.mode.Paper? && BookFits(s.adapter, calm) && AlwaysRowed(s.log)
    && forall id | id in s.adapter.orders && id.Entry? :: id in s.db.orders
  }

  lemma PaperInvIsInv(s: Node, calm: bool)
    requires PaperInv(s, calm)
    ensures Inv(s) && BookFits(s.adapter, calm)
  {}

  lemma AlwaysRowedAppend(log: seq<Event>, event: Event)
    requires AlwaysRowed(log) && FillsHaveRows(Apply(Replay(log), event))
    ensures AlwaysRowed(log + [event])
  {
    hide Replay, Apply;
    ReplayAppend(log, event);
    forall k: nat | k <= |log| + 1
      ensures FillsHaveRows(Replay((log + [event])[..k]))
    {
      assert (log + [event])[..k] == if k <= |log| then log[..k] else log + [event];
    }
  }

  lemma OtherRowsKeepFills(db: Db, event: Event)
    requires FillsHaveRows(db) && !event.PutFill?
    ensures FillsHaveRows(Apply(db, event))
  {}

  lemma {:induction false} SilentStaysRowed(log: seq<Event>, longer: seq<Event>)
    requires AlwaysRowed(log) && log <= longer
    requires forall i | |log| <= i < |longer| :: !longer[i].PutFill?
    ensures AlwaysRowed(longer)
    decreases |longer|
  {
    if log != longer {
      var shorter := longer[..|longer| - 1];
      SilentStaysRowed(log, shorter);
      assert shorter[..|shorter|] == shorter;
      assert longer == shorter + [longer[|longer| - 1]];
      OtherRowsKeepFills(Replay(shorter), longer[|longer| - 1]);
      hide Replay, Apply, FillsHaveRows;
      AlwaysRowedAppend(shorter, longer[|longer| - 1]);
    }
  }

  lemma SilentPaper(s: Node, t: Node, calm: bool)
    requires PaperInv(s, calm) && Silent(s, t) && BookFits(t.adapter, calm)
    requires forall id | id in t.adapter.orders && id.Entry? :: id in s.adapter.orders || id in t.db.orders
    ensures PaperInv(t, calm)
  {
    hide Safe, VenueLog, BookFits;
    SilentStaysRowed(s.log, t.log);
    RowsStay(t.log, |s.log|);
    assert t.log[..|s.log|] == s.log;
  }

  // ---------------------------------------------------------------- raw requests

  /** A request that is not refused is put into the book as it is, unless its id is taken. */
  lemma RequestPaper(s: Node, order: Order, now: real)
    requires s.adapter.PaperBook?
    ensures var (t, outcome) := SubmitRequest(s, order, now);
      && (t.adapter == s.adapter || (order.reduceOnly && order.id !in s.adapter.orders
            && t.adapter == s.adapter.(orders := s.adapter.orders[order.id := order]) && order.id in t.db.orders))
      && (outcome.Outcome? && outcome.order.Some? && order.id !in s.adapter.orders ==>
          t.adapter == s.adapter.(orders := s.adapter.orders[order.id := order]) && outcome.order.value == order)
  {
    hide Replay, Good, LatestGood, AllowsSubmission;
    if order.reduceOnly && order.id !in s.requests {
      var (t, reply) := Send(s.(requests := s.requests + {order.id}).Put(PutOrder(order)), order);
      match reply
      case Ok(submitted) => SettledRequest(t.Put(PutOrder(submitted)), order, submitted);
      case Raise(e) => ResolvedRequest(t.(transportError := e.TransportExn?), order);
      hide SettleRequest, ResolveRequest;
    }
  }

  lemma SettledRequest(s: Node, order: Order, submitted: Order)
    ensures var (t, outcome) := SettleRequest(s, order, submitted);
      t.adapter == s.adapter && t.db.orders == s.db.orders && outcome.Outcome? && outcome.order == Some(submitted)
  {
    hide Replay;
  }

  lemma ResolvedRequest(s: Node, order: Order)
    requires s.adapter.PaperBook?
    ensures var (t, outcome) := ResolveRequest(s, order);
      && t.adapter == s.adapter && t.db.orders == s.db.orders
      && (outcome.Outcome? && outcome.order.Some? ==>
          order.id in s.adapter.orders && outcome.order.value == s.adapter.orders[order.id])
  {
    hide Replay;
  }

  lemma PutOrderFits(a: Adapter, order: Order, calm: bool)
    requires BookFits(a, calm) && order.reduceOnly && (calm ==> Calm(order))
    ensures BookFits(a.(orders := a.orders[order.id := order]), calm)
  {
    hide Calm;
  }

  /** A raw request keeps what is known of the book, and the book calm exactly while it is calm itself. */
  lemma RequestKeepsPaper(s: Node, order: Order, now: real, calm: bool)
    requires PaperInv(s, calm) && (calm && order.id !in s.adapter.orders ==> Calm(order))
    ensures PaperInv(SubmitRequest(s, order, now).0, calm)
  {
    PaperInvIsInv(s, calm);
    SubmitRequestKeeps(s, order, now);
    RequestPaper(s, order, now);
    var t := SubmitRequest(s, order, now).0;
    hide SubmitRequest, Calm, Safe, VenueLog, AlwaysRowed, Silent;
    if t.adapter != s.adapter { PutOrderFits(s.adapter, order, calm); }
    SilentPaper(s, t, calm);
  }

  // ---------------------------------------------------------------- placing a child

  /** What create_plan builds: a fresh reduce-only child order. */
  predicate Planned(o: Order, quantity: real) {
    !o.id.Entry? && o.reduceOnly && o.mode.Paper? && o.status.New? && o.quantity == quantity && Calm(o)
  }

  /** What ends up under the id of a planned child: an order at least as large that was there, or the child itself. */
  function Settles(a: Adapter, desired: Order, quantity: real): Order
    requires a.PaperBook?
  {
    if desired.id in a.orders && a.orders[desired.id].quantity >= quantity then a.orders[desired.id] else desired
  }

  lemma ObtainChildPaper(s: Node, desired: Order, quantity: real, now: real)
    requires s.adapter.PaperBook? && Planned(desired, quantity)
    ensures var (t, child) := ObtainChild(s, desired, quantity, now);
      && (t.adapter == s.adapter
          || (t.adapter == s.adapter.(orders := s.adapter.orders[desired.id := desired])
              && Settles(s.adapter, desired, quantity) == desired))
      && (child.Ok? && child.value.Some? ==>
          && child.value.value == Settles(s.adapter, desired, quantity)
          && t.adapter == s.adapter.(orders := s.adapter.orders[desired.id := child.value.value]))
  {
    hide SubmitRequest, Calm;
    var r := s.(adapter := Lookup(s.adapter, desired.id).0);
    assert r == s;
    if desired.id !in s.adapter.orders {
      RequestPaper(s, desired, now);
      var (u, outcome) := SubmitRequest(s, desired, now);
      match outcome
      case Raised(_) =>
      case Outcome(_, order, _) =>
        assert order.Some? ==>
               order.value == desired && u.adapter == s.adapter.(orders := s.adapter.orders[desired.id := desired]);
    } else {
      assert s.adapter.orders[desired.id := s.adapter.orders[desired.id]] == s.adapter.orders;
    }
  }

  lemma PlaceChildOutcome(s: Node, desired: Order, quantity: real, now: real)
    ensures var (t, child) := PlaceChild(s, desired, quantity, now);
      var (u, existing) := ObtainChild(s, desired, quantity, now);
      && t.adapter == u.adapter
      && (child.Ok? ==> existing.Ok? && existing.value == Some(child.value) && child.value.quantity >= quantity)
  {
    hide SubmitRequest, Replay, Apply;
  }

  lemma PlaceChildPaper(s: Node, desired: Order, quantity: real, now: real, calm: bool)
    requires PaperInv(s, calm) && Planned(desired, quantity)
    ensures var (t, child) := PlaceChild(s, desired, quantity, now);
      && PaperInv(t, calm) && Silent(s, t) && SameEntries(s.adapter, t.adapter)
      && t.adapter.exchange == s.adapter.exchange
      && (forall id | id != desired.id ::
            (id in t.adapter.orders <==> id in s.adapter.orders)
            && (id in s.adapter.orders ==> t.adapter.orders[id] == s.adapter.orders[id]))
      && (child.Ok? ==> child.value == Settles(s.adapter, desired, quantity)
                        && desired.id in t.adapter.orders && t.adapter.orders[desired.id] == child.value)
  {
    PaperInvIsInv(s, calm);
    ObtainChildPaper(s, desired, quantity, now);
    PlaceChildOutcome(s, desired, quantity, now);
    PlaceChildKeeps(s, desired, quantity, now);
    PutOrderFits(s.adapter, desired, calm);
    var t := PlaceChild(s, desired, quantity, now).0;
    hide Inv, Safe, VenueLog, AlwaysRowed, ObtainChild, PlaceChild, Silent, Calm, EntryFits;
    assert BookFits(t.adapter, calm);
    hide BookFits, Settles;
    SilentPaper(s, t, calm);
  }

  predicate DistinctIds(plan: seq<Order>) { forall i, j | 0 <= i < j < |plan| :: plan[i].id != plan[j].id }

  ghost predicate PlanFits(plan: seq<Order>, quantity: real) {
    DistinctIds(plan) && forall i | 0 <= i < |plan| :: Planned(plan[i], quantity)
  }

  /** The book at the ids of a plan, and nowhere else, holds what each child settles to. */
  ghost predicate Placed(a: Adapter, b: Adapter, plan: seq<Order>, remote: seq<Order>, quantity: real) {
    && a.PaperBook? && b.PaperBook? && |remote| == |plan|
    && forall i | 0 <= i < |plan| ::
         && remote[i] == Settles(a, plan[i], quantity)
         && plan[i].id in b.orders && b.orders[plan[i].id] == remote[i]
  }

  function IdsOf(plan: seq<Order>): set<OrderId> { set o | o in plan :: o.id }

  ghost predicate Elsewhere(a: Adapter, b: Adapter, plan: seq<Order>) {
    && a.PaperBook? && b.PaperBook?
    && forall id | id !in IdsOf(plan) ::
         (id in b.orders <==> id in a.orders) && (id in a.orders ==> b.orders[id] == a.orders[id])
  }

  lemma NothingPlaced(a: Adapter, quantity: real)
    requires a.PaperBook?
    ensures Elsewhere(a, a, []) && Placed(a, a, [], [], quantity) && SameEntries(a, a)
  {}

  lemma EntriesThrough(a: Adapter, b: Adapter, c: Adapter)
    requires SameEntries(a, b) && SameEntries(b, c)
    ensures SameEntries(a, c)
  {}

  lemma {:induction false} PlacePaper(s: Node, plan: seq<Order>, quantity: real, now: real, calm: bool)
    requires PaperInv(s, calm) && PlanFits(plan, quantity)
    ensures var (t, remote) := Place(s, plan, quantity, now);
      && PaperInv(t, calm) && Silent(s, t) && SameEntries(s.adapter, t.adapter)
      && t.adapter.exchange == s.adapter.exchange
      && Elsewhere(s.adapter, t.adapter, plan)
      && (remote.Ok? ==> Placed(s.adapter, t.adapter, plan, remote.value, quantity))
  {
    PaperInvIsInv(s, calm);
    assert s.adapter.PaperBook?;
    hide PaperInv, Inv, PlaceChild, Silent, Planned, Placed, Elsewhere, Settles, SameEntries;
    PlaceKeeps(s, plan, quantity, now);
    if plan != [] {
      var shorter, last := plan[..|plan| - 1], plan[|plan| - 1];
      PlacePaper(s, shorter, quantity, now, calm);
      var (t, before) := Place(s, shorter, quantity, now);
      PlaceChildPaper(t, last, quantity, now, calm);
      var (u, child) := PlaceChild(t, last, quantity, now);
      hide Place;
      EntriesThrough(s.adapter, t.adapter, u.adapter);
      PlacedOneMore(s.adapter, t.adapter, u.adapter, plan, before, child, quantity);
    } else {
      NothingPlaced(s.adapter, quantity);
    }
  }

  lemma PlacedOneMore(a: Adapter, b: Adapter, c: Adapter, plan: seq<Order>, before: Reply<seq<Order>>,
                      child: Reply<Order>, quantity: real)
    requires plan != [] && DistinctIds(plan) && b.PaperBook? && c.PaperBook?
    requires var shorter := plan[..|plan| - 1];
      Elsewhere(a, b, shorter) && (before.Ok? ==> Placed(a, b, shorter, before.value, quantity))
    requires var last := plan[|plan| - 1];
      && (forall id | id != last.id ::
            (id in c.orders <==> id in b.orders) && (id in b.orders ==> c.orders[id] == b.orders[id]))
      && (child.Ok? ==>
          child.value == Settles(b, last, quantity) && last.id in c.orders && c.orders[last.id] == child.value)
    ensures Elsewhere(a, b, plan) && Elsewhere(a, c, plan)
    ensures before.Ok? && child.Ok? ==> Placed(a, c, plan, before.value + [child.value], quantity)
  {
    var shorter, last := plan[..|plan| - 1], plan[|plan| - 1];
    assert forall i | 0 <= i < |shorter| :: plan[i] == shorter[i];
    assert plan == shorter + [last];
    assert IdsOf(plan) == IdsOf(shorter) + {last.id};
    assert last.id !in IdsOf(shorter);
    assert Settles(b, last, quantity) == Settles(a, last, quantity);
    hide Settles;
  }
}
