/**
 One report of a fill, and the fill rows of a log: a report moves the ledger total to the
 larger of the two exactly when its fill id is free, and in every reachable log the totals are
 the largest quantities written exactly while no row was written under a taken id.
 */
module FillRows {
  import opened Arithmetic
  import opened ExecutionModel
  import opened CoordinatorSpec
  import opened ExecutionSafety

  lemma {:induction false} FillsAppend(fills: seq<Fill>, fill: Fill, id: OrderId, symbol: Symbol)
    ensures Fills(fills + [fill], id) == Fills(fills, id) + (if fill.orderId == id then fill.quantity else 0.0)
    ensures SymbolFills(fills + [fill], symbol) ==
              SymbolFills(fills, symbol) + (if fill.symbol == symbol then fill.quantity else 0.0)
  {
    assert (fills + [fill])[..|fills|] == fills;
  }

  // ---------------------------------------------------------------- one report

  /** The report is one that books a fill: an entry, ahead of the ledger, at a known positive price. */
  predicate Bookable(order: Order) {
    !order.reduceOnly && order.filled > 0.0 && FillPrice(order).Some? && FillPrice(order).value > 0.0
    && |order.symbol| > 0
  }

  function FillOf(s: Node, order: Order, now: real): Fill
    requires FillPrice(order).Some?
  {
    Fill(order.id, order.symbol, order.side, order.filled - Fills(s.db.fills, order.id), FillPrice(order).value, now)
  }

  /**
   What one report does, in its own fields: nothing when there is nothing new, a closed gate when it runs
   backwards or has no price, an error when the price or the symbol cannot be stored, and otherwise one
   transaction with the increment as fill, the whole quantity as position, and MATCH only if it is FILLED.
   */
  lemma ReportedExactly(s: Node, order: Order, now: real)
    ensures var ((t, delta), booked) := (ConfirmFill(s, order, now), Fills(s.db.fills, order.id));
      var price := if order.averagePrice.Some? && order.averagePrice.value != 0.0 then order.averagePrice
                   else order.price;
      if order.reduceOnly || order.filled <= 0.0 || order.filled == booked then t == s && delta == Ok(0.0)
      else if order.filled < booked || price.None? then
        delta == Ok(0.0) && t.recovery == Recovering && t.log == s.log + [PutRecon(order.symbol, Unclear)]
      else if price.value <= 0.0 || order.symbol == "" then t == s && delta == Raise(ValueExn)
      else
        && delta == Ok(order.filled - booked)
        && t.log == s.log + [PutFill(Fill(order.id, order.symbol, order.side, order.filled - booked, price.value, now),
                                     Position(order.symbol, if order.side == Buy then Long else Short, order.filled,
                                              price, true),
                                     if order.status == Filled then Match else Unclear)]
  {
    hide Apply, Fills, LatestGood;
  }

  /**
   One report moves the ledger total of its order to the maximum of the two, and leaves
   every other order alone, exactly when it is not ahead or its fill id is not taken.
   */
  lemma ReportExact(s: Node, order: Order, now: real, other: OrderId)
    requires Bookable(order)
    ensures var fills := ConfirmFill(s, order, now).0.db.fills;
      && (Fills(fills, order.id) == Max(Fills(s.db.fills, order.id), order.filled)
          <==> !(order.filled > Fills(s.db.fills, order.id) && KnownFill(s.db.fills, FillOf(s, order, now))))
      && (other != order.id ==> Fills(fills, other) == Fills(s.db.fills, other))
  {
    var fill := FillOf(s, order, now);
    FillsAppend(s.db.fills, fill, order.id, order.symbol);
    FillsAppend(s.db.fills, fill, other, order.symbol);
  }

  /** A report that books nothing leaves the fills alone; a regression stops further entries. */
  lemma UnbookableReport(s: Node, order: Order, now: real)
    ensures var t := ConfirmFill(s, order, now).0;
      && (!Bookable(order) || order.filled <= Fills(s.db.fills, order.id) ==>
          t.db.fills == s.db.fills && t.db.positions == s.db.positions)
      && (!order.reduceOnly && 0.0 < order.filled < Fills(s.db.fills, order.id) ==>
          t.recovery.Recovering? && !LatestGood(t.db))
  {
  }

  /** What a report ahead of the ledger writes: the position always, the fill only if its id is free. */
  lemma BookedReport(s: Node, order: Order, now: real)
    requires Bookable(order) && order.filled > Fills(s.db.fills, order.id)
    ensures var (t, fill) := (ConfirmFill(s, order, now).0, FillOf(s, order, now));
      && t.db.fills == (if KnownFill(s.db.fills, fill) then s.db.fills else s.db.fills + [fill])
      && t.db.positions == s.db.positions[order.symbol :=
                                            Position(order.symbol, if order.side.Buy? then Long else Short,
                                                     order.filled, FillPrice(order), true)]
  {
    hide Replay, Fills;
  }

  /** Two reports with the same step, price and time: the position moves on and the fill history does not. */
  lemma CollidingFillsDiverge(s: Node, first: Order, step: real, now: real)
    requires s.db.fills == [] && step > TOLERANCE && Bookable(first) && first.filled == step && first.averagePrice.Some?
    ensures var t := ConfirmFill(ConfirmFill(s, first, now).0, first.(filled := 2.0 * step), now).0;
      && Fills(t.db.fills, first.id) == step && SymbolFills(t.db.fills, first.symbol) == step
      && first.symbol in t.db.positions && t.db.positions[first.symbol].quantity == 2.0 * step
      && !DerivedStateValid(t.db)
  {
    var second := first.(filled := 2.0 * step);
    var fill := FillOf(s, first, now);
    assert Fills([], first.id) == 0.0 && SymbolFills([], first.symbol) == 0.0;
    BookedReport(s, first, now);
    var t := ConfirmFill(s, first, now).0;
    FillsAppend([], fill, first.id, first.symbol);
    assert [] + [fill] == [fill] && t.db.fills == [fill];
    assert FillPrice(second) == FillPrice(first);
    assert KnownFill(t.db.fills, FillOf(t, second, now)) by { assert fill in t.db.fills; }
    BookedReport(t, second, now);
    hide ConfirmFill, FillOf;
    var u := ConfirmFill(t, second, now).0;
    assert u.db.positions[first.symbol].quantity - SymbolFills(u.db.fills, first.symbol) == step;
  }

  /**
   The MATCH row of a complete fill reopens the gate for the next process; the running one
   reopens exactly when it has no unknown outcome to remember.
   */
  lemma MatchReopensAfterRestart(s: Node, order: Order, now: real)
    requires s.db == Replay(s.log)
    requires Bookable(order) && order.filled > Fills(s.db.fills, order.id) && order.status.Filled?
    ensures var t := ConfirmFill(s, order, now).0;
      && LatestGood(t.db) && Boot(t.cfg, t.log, t.adapter).recovery.Ready?
      && (t.recovery.Ready? <==> s.memory.Ready?)
  {
    var fill := FillOf(s, order, now);
    var position := Position(order.symbol, if order.side.Buy? then Long else Short,
                             order.filled, FillPrice(order), true);
    ReplayAppend(s.log, PutFill(fill, position, Match));
    hide Replay, Fills, KnownFill;
  }

  // ---------------------------------------------------------------- one report and the derived state

  /** What the position row of the report's symbol will be off by. */
  function NewGap(s: Node, order: Order, now: real): real
    requires FillPrice(order).Some?
  {
    if KnownFill(s.db.fills, FillOf(s, order, now)) then order.filled - SymbolFills(s.db.fills, order.symbol)
    else Fills(s.db.fills, order.id) - SymbolFills(s.db.fills, order.symbol)
  }

  ghost predicate OtherRowsValid(db: Db, symbol: Symbol) {
    forall other | other in db.positions && other != symbol && db.positions[other].open ::
      Negligible(db.positions[other].quantity - SymbolFills(db.fills, other))
  }

  /**
   A report ahead of the ledger leaves the derived state valid exactly when the other rows were
   valid and what is booked on its symbol beside its own order is within tolerance; with a
   colliding fill id, its whole quantity against the symbol's fills.
   */
  lemma ReportKeepsDerivedState(s: Node, order: Order, now: real)
    requires Bookable(order) && order.filled > Fills(s.db.fills, order.id)
    ensures var t := ConfirmFill(s, order, now).0;
      && order.symbol in t.db.positions
      && t.db.positions[order.symbol].quantity - SymbolFills(t.db.fills, order.symbol) == NewGap(s, order, now)
      && (DerivedStateValid(t.db) <==> OtherRowsValid(s.db, order.symbol) && Negligible(NewGap(s, order, now)))
  {
    var t, fill := ConfirmFill(s, order, now).0, FillOf(s, order, now);
    BookedReport(s, order, now);
    hide ConfirmFill, Fills, SymbolFills, KnownFill;
    forall symbol ensures SymbolFills(t.db.fills, symbol) ==
        SymbolFills(s.db.fills, symbol) + (if symbol == order.symbol && !KnownFill(s.db.fills, fill) then fill.quantity
                                           else 0.0)
    {
      FillsAppend(s.db.fills, fill, order.id, symbol);
    }
  }

  /** A second entry order on a symbol overwrites the position quantity, and the derived state no longer holds. */
  lemma SecondOrderDiverges(s: Node, first: Order, second: Order, t0: real, t1: real)
    requires s.db.fills == [] && Bookable(first) && Bookable(second) && first.filled > TOLERANCE
    requires first.id != second.id && first.symbol == second.symbol
    ensures !DerivedStateValid(ConfirmFill(ConfirmFill(s, first, t0).0, second, t1).0.db)
  {
    assert Fills([], first.id) == 0.0 && SymbolFills([], first.symbol) == 0.0 && Fills([], second.id) == 0.0;
    BookedReport(s, first, t0);
    var t, fill := ConfirmFill(s, first, t0).0, FillOf(s, first, t0);
    FillsAppend([], fill, second.id, first.symbol);
    assert [] + [fill] == [fill] && t.db.fills == [fill];
    assert !KnownFill(t.db.fills, FillOf(t, second, t1));
    ReportKeepsDerivedState(t, second, t1);
    hide ConfirmFill;
  }

  // ---------------------------------------------------------------- fill rows in a log

  /** A fill row is written under a free fill id. */
  predicate NewRow(db: Db, event: Event) { event.PutFill? ==> !KnownFill(db.fills, event.fill) }

  ghost predicate FreshRows(log: seq<Event>) {
    forall i: nat | i < |log| :: NewRow(Replay(log[..i]), log[i])
  }

  lemma FreshPrefix(log: seq<Event>, k: nat)
    requires FreshRows(log) && k <= |log|
    ensures FreshRows(log[..k])
  {
    hide NewRow, Replay;
    forall i: nat | i < k ensures NewRow(Replay(log[..k][..i]), log[..k][i]) {
      assert log[..k][..i] == log[..i];
    }
  }

  lemma FreshAppend(log: seq<Event>, event: Event)
    requires FreshRows(log) && NewRow(Replay(log), event)
    ensures FreshRows(log + [event])
  {
    hide NewRow, Replay;
    forall i: nat | i <= |log| ensures NewRow(Replay((log + [event])[..i]), (log + [event])[i]) {
      assert (log + [event])[..i] == if i < |log| then log[..i] else log;
    }
  }

  ghost predicate NoFillSince(log: seq<Event>, n: nat) { forall i | n <= i < |log| :: !log[i].PutFill? }

  lemma SilentStaysFresh(log: seq<Event>, longer: seq<Event>)
    requires FreshRows(log) && log <= longer && NoFillSince(longer, |log|)
    ensures FreshRows(longer)
  {
    hide Replay;
    forall i: nat | i < |longer| ensures NewRow(Replay(longer[..i]), longer[i]) {
      if i < |log| { assert longer[..i] == log[..i] && longer[i] == log[i]; }
    }
  }

  /** The largest position quantity among the fill rows of an order. */
  function LargestRow(log: seq<Event>, id: OrderId): real {
    if log == [] then 0.0
    else
      var before, last := LargestRow(log[..|log| - 1], id), log[|log| - 1];
      if last.PutFill? && last.fill.orderId == id then Max(before, last.position.quantity) else before
  }

  /** A row raises the total to the position's quantity when its id is free, and leaves it below when it is taken. */
  lemma RowRaises(db: Db, event: Event, id: OrderId)
    requires Increment(db, event)
    ensures var (before, after) := (Fills(db.fills, id), Fills(Apply(db, event).fills, id));
      if event.PutFill? && event.fill.orderId == id
      then before < event.position.quantity && after == if NewRow(db, event) then event.position.quantity else before
      else after == before
  {
    if event.PutFill? { FillsAppend(db.fills, event.fill, id, event.fill.symbol); }
    hide Fills, KnownFill;
  }

  lemma NothingHeld(id: OrderId)
    ensures Fills(Replay([]).fills, id) == 0.0
  {}

  lemma LastRow(log: seq<Event>)
    requires Safe(log) && log != []
    ensures Safe(log[..|log| - 1]) && Increment(Replay(log[..|log| - 1]), log[|log| - 1])
    ensures Replay(log) == Apply(Replay(log[..|log| - 1]), log[|log| - 1])
    ensures FreshRows(log) ==> FreshRows(log[..|log| - 1]) && NewRow(Replay(log[..|log| - 1]), log[|log| - 1])
  {
    hide Increment, NewRow, Replay, Apply;
    SafePrefix(log, |log| - 1);
    SafeHere(log, |log| - 1);
    if FreshRows(log) { FreshPrefix(log, |log| - 1); }
    assert log == log[..|log| - 1] + [log[|log| - 1]];
    ReplayAppend(log[..|log| - 1], log[|log| - 1]);
  }

  /**
   What the fills of an order add up to is at most the largest quantity written for it, and all of it when ids are
   free.
   */
  lemma {:induction false} RowsHoldMaximum(log: seq<Event>, id: OrderId)
    requires Safe(log)
    ensures Fills(Replay(log).fills, id) <= LargestRow(log, id)
    ensures FreshRows(log) ==> Fills(Replay(log).fills, id) == LargestRow(log, id)
  {
    hide Replay, FreshRows, Apply, Fills, NewRow, Safe, Increment;
    if log == [] {
      NothingHeld(id);
    } else {
      var before, last := log[..|log| - 1], log[|log| - 1];
      LastRow(log);
      RowsHoldMaximum(before, id);
      RowRaises(Replay(before), last, id);
    }
  }

  /** At every event the total of every order is the largest quantity written for it. */
  ghost predicate HoldsMaximum(log: seq<Event>) {
    forall k: nat, id | k <= |log| :: Fills(Replay(log[..k]).fills, id) == LargestRow(log[..k], id)
  }

  /** ... so the rows before an event were written under free ids, and so was its own. */
  lemma MaximumMeansFree(log: seq<Event>, i: nat)
    requires Safe(log) && i < |log| && HoldsMaximum(log)
    ensures NewRow(Replay(log[..i]), log[i])
  {
    hide Fills, KnownFill, Increment, Replay, Apply, Safe;
    SafePrefix(log, i + 1);
    LastRow(log[..i + 1]);
    assert log[..i + 1][..i] == log[..i];
    if log[i].PutFill? {
      var id := log[i].fill.orderId;
      RowRaises(Replay(log[..i]), log[i], id);
      assert Fills(Replay(log[..i + 1]).fills, id) == LargestRow(log[..i + 1], id);
      hide FreshRows, HoldsMaximum;
    }
  }

  /** The totals are the largest quantities written exactly when no fill row was written under a taken id. */
  lemma MaximumExactly(log: seq<Event>)
    requires Safe(log)
    ensures HoldsMaximum(log) <==> FreshRows(log)
  {
    hide Fills, NewRow, Increment, Replay, LargestRow;
    if FreshRows(log) {
      forall k: nat, id | k <= |log| ensures Fills(Replay(log[..k]).fills, id) == LargestRow(log[..k], id) {
        SafePrefix(log, k);
        FreshPrefix(log, k);
        RowsHoldMaximum(log[..k], id);
      }
    }
    if HoldsMaximum(log) {
      forall i: nat | i < |log| ensures NewRow(Replay(log[..i]), log[i]) { MaximumMeansFree(log, i); }
    }
  }

  lemma QuietApply(db: Db, event: Event)
    requires !event.PutFill?
    ensures Apply(db, event).fills == db.fills
  {}

  lemma QuietLast(log: seq<Event>)
    requires log != [] && !log[|log| - 1].PutFill?
    ensures Replay(log).fills == Replay(log[..|log| - 1]).fills
  {
    hide Replay, Apply;
    assert log == log[..|log| - 1] + [log[|log| - 1]];
    ReplayAppend(log[..|log| - 1], log[|log| - 1]);
    QuietApply(Replay(log[..|log| - 1]), log[|log| - 1]);
  }

  lemma {:induction false} QuietLog(log: seq<Event>, k: nat)
    requires k <= |log| && NoFillSince(log, k)
    ensures Replay(log).fills == Replay(log[..k]).fills
    decreases |log|
  {
    hide Replay;
    if k < |log| {
      assert log[..|log| - 1][..k] == log[..k];
      QuietLast(log);
      QuietLog(log[..|log| - 1], k);
    } else {
      assert log[..k] == log;
    }
  }

  lemma {:induction false} QuietRows(log: seq<Event>, k: nat, id: OrderId)
    requires k <= |log| && NoFillSince(log, k)
    ensures LargestRow(log, id) == LargestRow(log[..k], id)
    decreases |log|
  {
    if k < |log| {
      assert log[..|log| - 1][..k] == log[..k];
      QuietRows(log[..|log| - 1], k, id);
    } else {
      assert log[..k] == log;
    }
  }
}
