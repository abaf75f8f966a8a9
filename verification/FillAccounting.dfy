/**
 Fills against reports: at every crash point of every run the ledger total of an order is the
 running maximum of the cumulative quantities reported for it exactly while no fill id was
 taken, and the derived state is valid exactly while no symbol carries fills of two orders.
 */
module FillAccounting {
  import opened Optional
  import opened ExecutionModel
  import opened ExecutionAdapter
  import opened CoordinatorSpec
  import opened ConsumerSpec
  import opened ExecutionSafety
  import opened Risk
  import opened FillRows
  import opened CommandReports

  // ---------------------------------------------------------------- the running maximum

  lemma InitialIsKept(cfg: Config, adapter: Adapter, risk: RiskConfig, capacity: nat, clock: Option<real>)
    requires ValidConfig(risk)
    ensures var w := Initial(cfg, adapter, risk, capacity); WorldInv(w) && Kept(w.node, clock) && w.node.log == []
  {
    InitialRun(cfg, adapter, risk, capacity, []);
    assert Replay([]) == EMPTY_DB;
  }

  /**
   Over every run of every command - submissions, recoveries, consumer turns, repeated,
   reordered and regressing reports, restarts and crashes - the largest quantity written for an
   order is the largest cumulative quantity that the exchange reported for it, and at every crash
   point the ledger totals are exactly these if and only if no fill row was written under a taken id.
   */
  lemma RunningMaximum(cfg: Config, adapter: Adapter, risk: RiskConfig, capacity: nat, commands: seq<Command>,
                       id: OrderId, k: nat)
    requires ValidConfig(risk)
    ensures var w := Initial(cfg, adapter, risk, capacity);
      var log := Run(w, commands).node.log;
      && LargestRow(log, id) == LargestReport(w, commands, id, 0.0)
      && (k <= |log| ==>
          && Fills(Replay(log[..k]).fills, id) <= LargestRow(log[..k], id)
          && (HoldsMaximum(log[..k]) <==> FreshRows(log[..k])))
  {
    var w := Initial(cfg, adapter, risk, capacity);
    InitialIsKept(cfg, adapter, risk, capacity, None);
    NoClockTicks(w, commands);
    assert LargestRow([], id) == 0.0;
    hide Initial;
    RunBooks(w, commands, None, id);
    RunKeeps(w, commands);
    hide Run, Replay, LargestReport, Ticking, ClockAfter, LargestRow, Fills, HoldsMaximum, FreshRows;
    var log := Run(w, commands).node.log;
    if k <= |log| {
      SafePrefix(log, k);
      RowsHoldMaximum(log[..k], id);
      MaximumExactly(log[..k]);
    }
  }

  /** While reports carry increasing times no id is taken, so the ledger total is the largest quantity reported. */
  lemma TickingHoldsMaximum(cfg: Config, adapter: Adapter, risk: RiskConfig, capacity: nat, commands: seq<Command>,
                            start: real, id: OrderId)
    requires ValidConfig(risk) && Ticking(Initial(cfg, adapter, risk, capacity), commands, Some(start))
    ensures var w := Initial(cfg, adapter, risk, capacity);
      var log := Run(w, commands).node.log;
      FreshRows(log) && HoldsMaximum(log) && Fills(Replay(log).fills, id) == LargestReport(w, commands, id, 0.0)
  {
    var w := Initial(cfg, adapter, risk, capacity);
    InitialIsKept(cfg, adapter, risk, capacity, Some(start));
    assert LargestRow([], id) == 0.0;
    hide Initial;
    RunBooks(w, commands, Some(start), id);
    RunKeeps(w, commands);
    TickKeepsClock(w, commands, start);
    hide Run, Replay, LargestReport, Ticking, ClockAfter, LargestRow, Fills, HoldsMaximum, FreshRows;
    var log := Run(w, commands).node.log;
    RowsHoldMaximum(log, id);
    MaximumExactly(log);
  }

  lemma {:induction false} TickKeepsClock(w: World, commands: seq<Command>, start: real)
    requires ValidConfig(w.risk)
    ensures ClockAfter(w, commands, Some(start)).Some?
  {
    hide Run, ReportOf;
    if commands != [] { TickKeepsClock(w, commands[..|commands| - 1], start); }
  }

  // ---------------------------------------------------------------- the derived state

  /** The order of the latest fill row on a symbol. */
  function LastOrder(log: seq<Event>, symbol: Symbol): Option<OrderId> {
    if log == [] then None
    else
      var last := log[|log| - 1];
      if last.PutFill? && last.fill.symbol == symbol then Some(last.fill.orderId)
      else LastOrder(log[..|log| - 1], symbol)
  }

  /** No order was reported under two symbols. */
  ghost predicate OneSymbolPerOrder(fills: seq<Fill>) {
    forall f, g | f in fills && g in fills && f.orderId == g.orderId :: f.symbol == g.symbol
  }

  ghost predicate OneOrderPerSymbol(fills: seq<Fill>) {
    forall f, g | f in fills && g in fills && f.symbol == g.symbol :: f.orderId == g.orderId
  }

  /** What other orders have booked on a symbol. */
  function OthersOn(fills: seq<Fill>, symbol: Symbol, id: OrderId): real {
    if fills == [] then 0.0
    else
      var last := fills[|fills| - 1];
      OthersOn(fills[..|fills| - 1], symbol, id) + (if last.symbol == symbol && last.orderId != id then last.quantity
                                                    else 0.0)
  }

  lemma {:induction false} SymbolSplits(fills: seq<Fill>, symbol: Symbol, id: OrderId)
    requires forall f | f in fills && f.orderId == id :: f.symbol == symbol
    ensures SymbolFills(fills, symbol) == Fills(fills, id) + OthersOn(fills, symbol, id)
  {
    if fills != [] {
      assert fills[|fills| - 1] in fills;
      SymbolSplits(fills[..|fills| - 1], symbol, id);
    }
  }

  lemma {:induction false} OthersAreNatural(fills: seq<Fill>, symbol: Symbol, id: OrderId)
    requires forall f | f in fills :: f.quantity > 0.0
    ensures OthersOn(fills, symbol, id) >= 0.0
    ensures (forall f | f in fills && f.symbol == symbol :: f.orderId == id) ==> OthersOn(fills, symbol, id) == 0.0
  {
    if fills != [] {
      assert fills[|fills| - 1] in fills;
      OthersAreNatural(fills[..|fills| - 1], symbol, id);
    }
  }

  /** The position row of a symbol holds the total of the order that filled last on it. */
  ghost predicate FollowsLast(log: seq<Event>, db: Db, symbol: Symbol) {
    var last := LastOrder(log, symbol);
    && (last.Some? <==> symbol in db.positions)
    && (last.Some? ==>
        && db.positions[symbol].open && db.positions[symbol].quantity == Fills(db.fills, last.value)
        && exists f :: f in db.fills && f.symbol == symbol && f.orderId == last.value)
  }

  lemma {:induction false} RowsFollowLast(log: seq<Event>, symbol: Symbol)
    requires Safe(log) && FreshRows(log) && OneSymbolPerOrder(Replay(log).fills)
    ensures FollowsLast(log, Replay(log), symbol)
    ensures forall f | f in Replay(log).fills :: f.quantity > 0.0
  {
    if log != [] {
      var before, last := log[..|log| - 1], log[|log| - 1];
      LastRow(log);
      assert log == before + [last];
      ApplyKeepsRows(Replay(before), last);
      RowsFollowLast(before, symbol);
      RowFollows(before, last, Replay(before), symbol);
    }
  }

  lemma RowFollows(log: seq<Event>, event: Event, db: Db, symbol: Symbol)
    requires Increment(db, event) && NewRow(db, event) && FollowsLast(log, db, symbol)
             && OneSymbolPerOrder(Apply(db, event).fills)
    requires forall f | f in db.fills :: f.quantity > 0.0
    ensures FollowsLast(log + [event], Apply(db, event), symbol)
    ensures forall f | f in Apply(db, event).fills :: f.quantity > 0.0
  {
    hide Fills, KnownFill, Replay;
    assert (log + [event])[..|log|] == log;
    if event.PutFill? { FillFollows(log, event, db, symbol); }
    hide FollowsLast;
    if !event.PutFill? { OtherFollows(log, event, db, symbol); }
  }

  lemma OtherFollows(log: seq<Event>, event: Event, db: Db, symbol: Symbol)
    requires !event.PutFill? && FollowsLast(log, db, symbol)
    ensures FollowsLast(log + [event], Apply(db, event), symbol)
  {
    hide Fills, Replay;
    assert (log + [event])[..|log|] == log;
    QuietApply(db, event);
  }

  lemma FillFollows(log: seq<Event>, event: Event, db: Db, symbol: Symbol)
    requires event.PutFill? && Increment(db, event) && NewRow(db, event)
    requires FollowsLast(log, db, symbol) && OneSymbolPerOrder(Apply(db, event).fills)
    ensures FollowsLast(log + [event], Apply(db, event), symbol)
  {
    hide Fills, KnownFill, Replay;
    assert (log + [event])[..|log|] == log;
    assert event.fill in Apply(db, event).fills;
    FillsAppend(db.fills, event.fill, event.fill.orderId, symbol);
    if LastOrder(log, symbol).Some? {
      var id := LastOrder(log, symbol).value;
      FillsAppend(db.fills, event.fill, id, symbol);
      var f :| f in db.fills && f.symbol == symbol && f.orderId == id;
      assert f in Apply(db, event).fills;
    }
  }

  /**
   At every crash point of every run in which no fill id was taken and no order changes its
   symbol, _validate_derived_state passes exactly when on each symbol the orders before the
   last one have booked no more than the tolerance.
   */
  lemma DerivedStateExactly(cfg: Config, adapter: Adapter, risk: RiskConfig, capacity: nat, commands: seq<Command>,
                            k: nat)
    requires ValidConfig(risk)
    requires var log := Run(Initial(cfg, adapter, risk, capacity), commands).node.log;
      FreshRows(log) && OneSymbolPerOrder(Replay(log).fills)
    ensures var log := Run(Initial(cfg, adapter, risk, capacity), commands).node.log;
      k <= |log| ==>
        var db := Replay(log[..k]);
        && (forall symbol | symbol in db.positions :: LastOrder(log[..k], symbol).Some?)
        && (DerivedStateValid(db) <==>
              forall symbol | symbol in db.positions ::
                                OthersOn(db.fills, symbol, LastOrder(log[..k], symbol).value) <= TOLERANCE)
  {
    var w := Initial(cfg, adapter, risk, capacity);
    InitialRun(cfg, adapter, risk, capacity, commands);
    hide Initial, Run, Replay, FreshRows, Safe;
    var log := Run(w, commands).node.log;
    if k <= |log| {
      FreshPrefix(log, k);
      SafePrefix(log, k);
      RowsStay(log, k);
      LogIsExact(log[..k]);
    }
  }

  lemma LogIsExact(log: seq<Event>)
    requires Safe(log) && FreshRows(log) && OneSymbolPerOrder(Replay(log).fills)
    ensures var db := Replay(log);
      && (forall symbol | symbol in db.positions :: LastOrder(log, symbol).Some?)
      && (DerivedStateValid(db) <==>
            forall symbol | symbol in db.positions ::
                              OthersOn(db.fills, symbol, LastOrder(log, symbol).value) <= TOLERANCE)
  {
    var db := Replay(log);
    forall symbol | symbol in db.positions
      ensures LastOrder(log, symbol).Some? && db.positions[symbol].open
      ensures var others := OthersOn(db.fills, symbol, LastOrder(log, symbol).value);
              others >= 0.0 && db.positions[symbol].quantity - SymbolFills(db.fills, symbol) == -others
    {
      RowsFollowLast(log, symbol);
      hide Replay, FreshRows, Fills, SymbolFills, OthersOn;
      var id := LastOrder(log, symbol).value;
      var f :| f in db.fills && f.symbol == symbol && f.orderId == id;
      SymbolSplits(db.fills, symbol, id);
      OthersAreNatural(db.fills, symbol, id);
    }
    hide Replay, FreshRows, SymbolFills, OthersOn, LastOrder;
  }

  /**
   With one entry order per symbol and a ticking clock, every database at every crash point passes
   _validate_derived_state.
   */
  lemma DerivedStateAlwaysValid(cfg: Config, adapter: Adapter, risk: RiskConfig, capacity: nat, commands: seq<Command>,
                                start: real, k: nat)
    requires ValidConfig(risk) && Ticking(Initial(cfg, adapter, risk, capacity), commands, Some(start))
    requires var fills := Replay(Run(Initial(cfg, adapter, risk, capacity), commands).node.log).fills;
      OneSymbolPerOrder(fills) && OneOrderPerSymbol(fills)
    ensures var log := Run(Initial(cfg, adapter, risk, capacity), commands).node.log;
      k <= |log| ==> DerivedStateValid(Replay(log[..k]))
  {
    var w := Initial(cfg, adapter, risk, capacity);
    TickingHoldsMaximum(cfg, adapter, risk, capacity, commands, start,
                        Entry(Key("", Mode.Paper, "", Long, 0.0, 0.0, None, None, None, 0.0, 0.0)));
    DerivedStateExactly(cfg, adapter, risk, capacity, commands, k);
    InitialRun(cfg, adapter, risk, capacity, commands);
    hide Initial, Run, Replay, Ticking, LargestReport, DerivedStateValid, HoldsMaximum, FreshRows, Safe;
    var log := Run(w, commands).node.log;
    if k <= |log| {
      FreshPrefix(log, k);
      SafePrefix(log, k);
      RowsStay(log, k);
      var db := Replay(log[..k]);
      forall symbol | symbol in db.positions
        ensures OthersOn(db.fills, symbol, LastOrder(log[..k], symbol).value) <= TOLERANCE
      {
        RowsFollowLast(log[..k], symbol);
        OthersAreNatural(db.fills, symbol, LastOrder(log[..k], symbol).value);
      }
    }
  }
}
