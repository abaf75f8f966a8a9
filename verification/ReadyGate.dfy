/**
 What a READY gate says about protection, and what it does not: a SUBMITTED entry was protected
 exactly when the exchange's answer was a partial fill, or a complete one in PAPER; everywhere
 else a complete fill leaves the gate READY over an unprotected position.
 */
module ReadyGate {
  import opened Optional
  import opened ExecutionModel
  import opened ExecutionAdapter
  import opened CoordinatorSpec
  import opened ExecutionSafety
  import opened FillRows
  import opened CommandReports
  import opened Risk

  // ---------------------------------------------------------------- what SUBMITTED leaves behind

  /** From `t`, where the fill was booked, to `r` protection was confirmed for all that is booked. */
  ghost predicate ProtectionConfirmed(t: Node, r: Node, intent: Intent, entry: Order, now: real) {
    var quantity := Fills(t.db.fills, entry.id);
    var (p, done) := Protect(t, intent, entry, quantity, now);
    quantity > 0.0 && done.Ok? && r == p
  }

  /** The answers that submit_intent protects. */
  predicate Protects(submitted: Order, mode: Mode) {
    submitted.status.PartiallyFilled? || (submitted.status.Filled? && mode.Paper?)
  }

  lemma ProtectWrites(s: Node, intent: Intent, entry: Order, quantity: real, now: real)
    requires Inv(s)
    ensures var (t, done) := Protect(s, intent, entry, quantity, now); done.Ok? ==> |s.log| < |t.log|
  {
    var plan := Plan(intent, s.adapter.exchange, s.cfg.mode, quantity);
    if plan.Ok? { PlaceKeeps(s, plan.value, quantity, now); }
    hide Inv, Plan, Place, Verified, Replay, Apply, StaysAtVenue, Core;
  }

  lemma SynchronizeConfirms(s: Node, intent: Intent, entry: Order, now: real)
    ensures var (t, done) := Synchronize(s, intent, entry, now);
      && (done == Ok(true) && Fills(s.db.fills, entry.id) > 0.0 ==> ProtectionConfirmed(s, t, intent, entry, now))
      && (Fills(s.db.fills, entry.id) > 0.0 && Protect(s, intent, entry, Fills(s.db.fills, entry.id), now).1.Ok? ==>
          done == Ok(true))
      && (Fills(s.db.fills, entry.id) <= 0.0 ==> done == Ok(true))
  {
    hide Protect, Fills;
  }

  lemma SettleSubmits(s: Node, intent: Intent, order: Order, submitted: Order, now: real)
    ensures var (r, outcome) := Settle(s, intent, order, submitted, now);
      var booked := ConfirmFill(s, submitted, now).0;
      outcome.Outcome? && outcome.status.OutSubmitted? ==>
        if Protects(submitted, s.cfg.mode) then Synchronize(booked, intent, submitted, now) == (r, Ok(true))
        else r == booked
  {
    ConfirmKeepsConfig(s, submitted, now);
    hide ConfirmFill, Synchronize, Replay, Apply;
  }

  lemma ConfirmKeepsConfig(s: Node, order: Order, now: real)
    ensures ConfirmFill(s, order, now).0.cfg == s.cfg && ConfirmFill(s, order, now).0.adapter == s.adapter
  {
    hide Replay, Apply, Fills;
  }

  lemma SettledProtectedExactly(s: Node, intent: Intent, order: Order, submitted: Order, now: real)
    requires Inv(s)
    ensures var (r, outcome) := Settle(s, intent, order, submitted, now);
      var booked := ConfirmFill(s, submitted, now).0;
      outcome.Outcome? && outcome.status.OutSubmitted? ==>
        && r.db.fills == booked.db.fills && r.db.positions == booked.db.positions
        && (Fills(r.db.fills, submitted.id) > 0.0 ==>
              (ProtectionConfirmed(booked, r, intent, submitted, now) <==> Protects(submitted, s.cfg.mode)))
        && (!Protects(submitted, s.cfg.mode) ==> r == booked)
  {
    var booked := ConfirmFill(s, submitted, now).0;
    ConfirmFillKeeps(s, submitted, now);
    SynchronizeKeeps(booked, intent, submitted, now);
    SynchronizeConfirms(booked, intent, submitted, now);
    ProtectWrites(booked, intent, submitted, Fills(booked.db.fills, submitted.id), now);
    SettleSubmits(s, intent, order, submitted, now);
    hide Settle, Inv, Fills, Protect, Synchronize, ConfirmFill, Replay, Apply, Continues, Protects;
  }

  /** The node on which the exchange's answer to a new entry is settled. */
  function AtAnswer(s: Node, intent: Intent, order: Order, submitted: Order, now: real): Node {
    var ready := s.(adapter := Account(Health(s.adapter).0).0);
    Send(WriteAhead(ready, intent, order, now), order).0.Put(PutOrder(submitted))
  }

  lemma SubmittedIsSettled(s: Node, intent: Intent, asOf: Option<real>, now: real)
    requires Inv(s)
    ensures var ((r, outcome), order) := (SubmitIntent(s, intent, asOf, now),
                                          FromIntent(intent, s.adapter.exchange, s.cfg.mode));
      outcome.Outcome? && outcome.status.OutSubmitted? ==>
        && order.Ok? && outcome.order.Some? && s.recovery.Ready?
        && var t := AtAnswer(s, intent, order.value, outcome.order.value, now);
          && (r, outcome) == Settle(t, intent, order.value, outcome.order.value, now)
          && Inv(t) && t.cfg == s.cfg && t.memory == s.memory
          && t.db.fills == s.db.fills && t.db.positions == s.db.positions && t.db.protections == s.db.protections
  {
    var order := FromIntent(intent, s.adapter.exchange, s.cfg.mode);
    if StaticRefusal(s, intent, asOf, now).None? && order.Ok? {
      AdmittedIsSettled(s, intent, order.value, now);
    }
    hide Inv, Settle, Admit, AtAnswer;
  }

  lemma AdmittedIsSettled(s: Node, intent: Intent, order: Order, now: real)
    requires Inv(s) && s.recovery.Ready? && !IsKilled(s.db)
    requires order.id == EntryIdOf(intent, s.adapter.exchange, s.cfg.mode)
    ensures var (r, outcome) := Admit(s, intent, order, now);
      outcome.Outcome? && outcome.status.OutSubmitted? ==>
        && outcome.order.Some?
        && var t := AtAnswer(s, intent, order, outcome.order.value, now);
          && (r, outcome) == Settle(t, intent, order, outcome.order.value, now)
          && Inv(t) && t.cfg == s.cfg && t.memory == s.memory
          && t.db.fills == s.db.fills && t.db.positions == s.db.positions && t.db.protections == s.db.protections
  {
    if order.id !in s.requests && order.id !in s.db.orders {
      var ready := s.(adapter := Account(Health(s.adapter).0).0);
      AheadIsSilent(ready, intent, order, now);
      AheadKeepsMemory(ready, intent, order, now);
      var reply := Send(WriteAhead(ready, intent, order, now), order).1;
      hide Inv, WriteAhead, Replay, Apply, Send, Continues, ResolveTimeout;
      if reply.Ok? { SettledOrder(AtAnswer(s, intent, order, reply.value, now), intent, order, reply.value, now); }
    }
    hide Settle, AccountRefusal;
  }

  lemma AheadKeepsMemory(s: Node, intent: Intent, order: Order, now: real)
    ensures var t := Send(WriteAhead(s, intent, order, now), order).0;
      t.memory == s.memory && t.db.protections == s.db.protections && t.cfg == s.cfg
  {
    hide Replay, SubmitOrder;
  }

  lemma SettledOrder(s: Node, intent: Intent, order: Order, submitted: Order, now: real)
    ensures var outcome := Settle(s, intent, order, submitted, now).1;
      outcome.Outcome? ==> outcome.order == Some(submitted)
  {
    hide ConfirmFill, Synchronize, Replay, Apply;
  }

  /**
   For every exchange and mode: a SUBMITTED answer with fills booked had its protection confirmed,
   for exactly the booked quantity, if and only if the exchange's answer was a partial fill, or a
   complete fill in PAPER. Otherwise nothing was asked or written beyond the fill.
   */
  lemma SubmittedProtectedExactly(s: Node, intent: Intent, asOf: Option<real>, now: real)
    requires Inv(s)
    ensures var ((r, outcome), order) := (SubmitIntent(s, intent, asOf, now),
                                          FromIntent(intent, s.adapter.exchange, s.cfg.mode));
      outcome.Outcome? && outcome.status.OutSubmitted? ==>
        && order.Ok? && outcome.order.Some?
        && var submitted := outcome.order.value;
          var booked := ConfirmFill(AtAnswer(s, intent, order.value, submitted, now), submitted, now).0;
          && r.db.fills == booked.db.fills
          && (Fills(r.db.fills, submitted.id) > 0.0 ==>
                (ProtectionConfirmed(booked, r, intent, submitted, now) <==>
                   submitted.status == PartiallyFilled || (submitted.status == Filled && s.cfg.mode == Paper)))
          && (submitted.status != PartiallyFilled && !(submitted.status == Filled && s.cfg.mode == Paper) ==>
              r == booked)
  {
    SubmittedIsSettled(s, intent, asOf, now);
    var order := FromIntent(intent, s.adapter.exchange, s.cfg.mode);
    var outcome := SubmitIntent(s, intent, asOf, now).1;
    hide SubmitIntent, Inv, AtAnswer, Settle, ConfirmFill, Fills, ProtectionConfirmed, Bookable;
    if outcome.Outcome? && outcome.status.OutSubmitted? {
      var t := AtAnswer(s, intent, order.value, outcome.order.value, now);
      SettledProtectedExactly(t, intent, order.value, outcome.order.value, now);
    }
  }

  /**
   Outside PAPER a complete fill is SUBMITTED with the gate READY on a MATCH row, the position
   open, and no protection asked for or recorded.
   */
  lemma CompleteFillIsUnprotected(s: Node, intent: Intent, asOf: Option<real>, now: real)
    requires Inv(s) && !s.cfg.mode.Paper?
    ensures var ((r, outcome), order) := (SubmitIntent(s, intent, asOf, now),
                                          FromIntent(intent, s.adapter.exchange, s.cfg.mode));
      outcome.Outcome? && outcome.status.OutSubmitted? ==>
        && order.Ok? && outcome.order.Some?
        && var submitted := outcome.order.value;
          submitted.status.Filled? && Bookable(submitted) && submitted.filled > Fills(s.db.fills, submitted.id) ==>
            && r.recovery.Ready? && LatestGood(r.db)
            && submitted.symbol in r.db.positions && r.db.positions[submitted.symbol].open
            && r.db.positions[submitted.symbol].quantity == submitted.filled
            && r.db.protections == s.db.protections
            && r.adapter == AtAnswer(s, intent, order.value, submitted, now).adapter
  {
    SubmittedIsSettled(s, intent, asOf, now);
    var order := FromIntent(intent, s.adapter.exchange, s.cfg.mode);
    var outcome := SubmitIntent(s, intent, asOf, now).1;
    assert s.recovery.Ready? ==> s.memory.Ready?;
    hide SubmitIntent, Inv, AtAnswer, Bookable;
    if outcome.Outcome? && outcome.status.OutSubmitted? {
      var submitted := outcome.order.value;
      if submitted.status.Filled? && Bookable(submitted) && submitted.filled > Fills(s.db.fills, submitted.id) {
        FilledLeavesReady(AtAnswer(s, intent, order.value, submitted, now), intent, order.value, submitted, now);
      }
    }
    hide Settle;
  }

  lemma FilledLeavesReady(s: Node, intent: Intent, order: Order, submitted: Order, now: real)
    requires !s.cfg.mode.Paper? && s.memory.Ready?
    requires submitted.status.Filled? && Bookable(submitted) && submitted.filled > Fills(s.db.fills, submitted.id)
    ensures var (r, outcome) := Settle(s, intent, order, submitted, now);
      && outcome == Outcome(OutSubmitted, Some(submitted), NoReason)
      && r.recovery.Ready? && LatestGood(r.db) && r.adapter == s.adapter && r.db.protections == s.db.protections
      && submitted.symbol in r.db.positions && r.db.positions[submitted.symbol].open
      && r.db.positions[submitted.symbol].quantity == submitted.filled
  {
    BookedReport(s, submitted, now);
    hide Fills, KnownFill, Replay, Synchronize;
  }

  /** An exchange that is healthy, shows this balance, and fills what it is sent as `submitted`. */
  function Filling(exchange: string, balance: Balance, submitted: Order): Adapter {
    var silent := Answer(Ok(true), Ok(balance), Ok(submitted), Raise(OtherExn), Raise(OtherExn), Raise(OtherExn),
                         Raise(OtherExn));
    Scripted(exchange, (call: nat) => silent, 0)
  }

  function FilledCopy(order: Order): Order
  {
    order.(status := Filled, filled := order.quantity, averagePrice := order.price)
  }

  /**
   The run: outside PAPER, from an empty ledger, any intent that passes the checks is filled at
   once. It is SUBMITTED, the gate is READY, its position is open, and no stop or target was ever
   sent or recorded.
   */
  lemma FilledRunIsUnprotected(cfg: Config, exchange: string, balance: Balance, risk: RiskConfig, capacity: nat,
                               intent: Intent, order: Order, asOf: Option<real>, now: real)
    requires !cfg.mode.Paper? && ValidConfig(risk) && |intent.symbol| > 0
    requires FromIntent(intent, exchange, cfg.mode) == Ok(order) && AccountRefusal(cfg, intent, balance).None?
    requires StaticRefusal(Initial(cfg, Filling(exchange, balance, FilledCopy(order)), risk, capacity).node, intent,
                           asOf, now).None?
    ensures var start := Initial(cfg, Filling(exchange, balance, FilledCopy(order)), risk, capacity);
      var s := Run(start, [DoSubmit(intent, asOf, now)]).node;
      && SubmitIntent(start.node, intent, asOf, now).1 == Outcome(OutSubmitted, Some(FilledCopy(order)), NoReason)
      && s.recovery.Ready? && LatestGood(s.db)
      && intent.symbol in s.db.positions && s.db.positions[intent.symbol].open
      && s.db.positions[intent.symbol].quantity == intent.quantity
      && s.db.protections == map[] && forall j: nat | IsSubmit(s.log, j) :: s.log[j].order == order
  {
    var start := Initial(cfg, Filling(exchange, balance, FilledCopy(order)), risk, capacity);
    assert Replay([]) == EMPTY_DB;
    RunOne(start, DoSubmit(intent, asOf, now));
    FilledAtOnce(start.node, intent, order, balance, asOf, now);
    hide Run, SubmitIntent, Initial, Replay, StaticRefusal;
  }

  lemma FilledAtOnce(s: Node, intent: Intent, order: Order, balance: Balance, asOf: Option<real>, now: real)
    requires s.adapter == Filling(s.adapter.exchange, balance, FilledCopy(order)) && !s.cfg.mode.Paper?
    requires s.requests == {} && s.db == EMPTY_DB && s.log == [] && s.memory.Ready? && |intent.symbol| > 0
    requires FromIntent(intent, s.adapter.exchange, s.cfg.mode) == Ok(order)
    requires StaticRefusal(s, intent, asOf, now).None? && AccountRefusal(s.cfg, intent, balance).None?
    ensures var (r, outcome) := SubmitIntent(s, intent, asOf, now);
      && outcome == Outcome(OutSubmitted, Some(FilledCopy(order)), NoReason)
      && r.recovery.Ready? && LatestGood(r.db)
      && intent.symbol in r.db.positions && r.db.positions[intent.symbol].open
      && r.db.positions[intent.symbol].quantity == intent.quantity
      && r.db.protections == map[] && forall j: nat | IsSubmit(r.log, j) :: r.log[j].order == order
  {
    var t := AtAnswer(s, intent, order, FilledCopy(order), now);
    assert intent.entry > 0.0 && intent.quantity > 0.0;
    assert SubmitIntent(s, intent, asOf, now) == Settle(t, intent, order, FilledCopy(order), now) by {
      hide Settle, Replay, StaticRefusal, AccountRefusal;
    }
    assert Fills([], order.id) == 0.0;
    assert t.db.fills == [] && t.db.protections == map[] && t.memory.Ready? && t.cfg == s.cfg by { hide Replay; }
    FilledLeavesReady(t, intent, order, FilledCopy(order), now);
    FillWritesNoSubmission(t, intent, order, FilledCopy(order), now);
    assert forall j: nat | IsSubmit(t.log, j) :: t.log[j].order == order by { hide Replay, Apply; }
    hide SubmitIntent, Settle, AtAnswer, Filling, StaticRefusal, AccountRefusal, Replay;
  }

  lemma FillWritesNoSubmission(s: Node, intent: Intent, order: Order, submitted: Order, now: real)
    requires !s.cfg.mode.Paper? && submitted.status.Filled?
    ensures var r := Settle(s, intent, order, submitted, now).0;
      s.log <= r.log && forall j | |s.log| <= j < |r.log| :: !r.log[j].Submit?
  {
    hide Replay, Apply, Fills, Synchronize;
  }

  // ---------------------------------------------------------------- the other ways to READY

  /** reconcile() opens the gate exactly on a good status, whatever protection there is. */
  lemma ReconcileOpensExactly(s: Node, expected: Option<Position>)
    ensures var (t, result) := ReconcileWith(s, expected);
      && (result.Ok? ==> (t.recovery.Ready? <==> result.value.status == Match || result.value.status == Okay))
      && (result.Raise? ==> t.recovery == s.recovery && t.log == s.log)
      && (result.Ok? ==>
          var symbol := if expected.Some? then expected.value.symbol
                        else if result.value.actual.Some? then result.value.actual.value else "UNKNOWN";
          t.log == s.log + [PutRecon(symbol, result.value.status)])
      && t.db.protections == s.db.protections && t.db.positions == s.db.positions && t.db.fills == s.db.fills
  {
    hide Replay, Reconcile;
  }

  /**
   After a timeout the gate stays open exactly when the order is found, filled or not, or the question itself fails
   hard.
   */
  lemma TimeoutOpensExactly(s: Node, order: Order)
    ensures var (t, outcome) := ResolveTimeout(s, order);
      var found := Lookup(s.adapter, order.id).1;
      && (outcome.Outcome? && outcome.status.OutReconciled? <==> found.Ok? && found.value.Some?)
      && (outcome.Outcome? ==> (t.recovery.Ready? <==> outcome.status.OutReconciled?))
      && (outcome.Raised? ==> t.recovery == s.recovery)
      && t.db.protections == s.db.protections && t.db.positions == s.db.positions && t.db.fills == s.db.fills
  {
    hide Replay, Lookup;
  }

  /** A restart opens the gate exactly when there is no reconciliation row or the latest is MATCH or OK. */
  lemma RestartOpensExactly(cfg: Config, log: seq<Event>, adapter: Adapter)
    ensures var (s, recon) := (Boot(cfg, log, adapter), Replay(log).recon);
      && s.db == Replay(log) && s.log == log && s.requests == {}
      && (s.recovery == Ready <==> recon == [] || recon[|recon| - 1].1 == Match || recon[|recon| - 1].1 == Okay)
  {
    hide Replay;
  }

  /** recover() answers False, with the gate closed, to every failure it catches, and raises the others. */
  lemma RecoverFailsExactly(s: Node, intent: Intent, orderId: Option<OrderId>, now: real)
    ensures var (t, done) := Recover(s, intent, orderId, now);
      var id := if orderId.Some? then orderId.value else EntryIdOf(intent, s.adapter.exchange, s.cfg.mode);
      var (u, rebuilt) := Rebuild(s, intent, id, now);
      if orderId.None? && intent.quantity <= 0.0 then t == s && done == Raise(ValueExn)
      else if rebuilt.Ok? then t == u && done == rebuilt
      else if rebuilt.exn == OtherExn then t == u && done == Raise(OtherExn)
      else done == Ok(false) && t.recovery == Recovering && t.log == u.log + [PutRecon(intent.symbol, Unclear)]
  {
    hide Rebuild, Apply;
  }

  // ---------------------------------------------------------------- what a successful recovery means

  /** What recover() asks for: the order, its fill booked, its protection, and the exchange's position. */
  ghost predicate Reconciled(s: Node, intent: Intent, id: OrderId, now: real) {
    var (a, found) := Lookup(s.adapter, id);
    && found.Ok? && found.value.Some? && !found.value.value.status.Unknown?
    && var remote := found.value.value;
      var (u, delta) := ConfirmFill(s.(adapter := a).Put(PutOrder(remote)), remote, now);
      var total := Fills(u.db.fills, remote.id);
      var v := if remote.filled > 0.0 then Synchronize(u, intent, remote, now).0 else u;
      && delta.Ok?
      && (remote.filled > 0.0 && total > 0.0 ==> ProtectionConfirmed(u, v, intent, remote, now))
      && HeldExactly(v, remote, total)
  }

  /** The exchange shows a position on the order's symbol of exactly this quantity. */
  ghost predicate HeldExactly(s: Node, remote: Order, total: real) {
    var positions := Positions(s.adapter).1;
    positions.Ok? && exists i :: FirstOf(positions.value, i, remote.symbol) && positions.value[i].quantity == total
  }

  /** Position i is the first one on the symbol. */
  predicate FirstOf(positions: seq<Position>, i: int, symbol: Symbol) {
    0 <= i < |positions| && positions[i].symbol == symbol && forall j | 0 <= j < i :: positions[j].symbol != symbol
  }

  lemma {:induction false} FoundIsFirst(positions: seq<Position>, symbol: Symbol)
    ensures var found := FindPosition(positions, symbol);
      if found.Some? then exists i :: FirstOf(positions, i, symbol) && positions[i] == found.value
      else forall p | p in positions :: p.symbol != symbol
  {
    if positions != [] {
      var rest := positions[1..];
      assert forall j | 0 <= j < |rest| :: rest[j] == positions[j + 1];
      FoundIsFirst(rest, symbol);
      if positions[0].symbol == symbol {
        assert FirstOf(positions, 0, symbol);
      } else if FindPosition(rest, symbol).Some? {
        var i :| FirstOf(rest, i, symbol) && rest[i] == FindPosition(rest, symbol).value;
        assert FirstOf(positions, i + 1, symbol);
      }
    }
  }

  lemma ComparesExactly(s: Node, remote: Order)
    ensures ComparePosition(s, remote).1 == Ok(true) <==> HeldExactly(s, remote, Fills(s.db.fills, remote.id))
    ensures ComparePosition(s, remote).1 != Ok(false)
  {
    var positions := Positions(s.adapter).1;
    if positions.Ok? {
      FoundIsFirst(positions.value, remote.symbol);
      assert forall i | FirstOf(positions.value, i, remote.symbol) :: positions.value[i] in positions.value;
      assert forall i, j | FirstOf(positions.value, i, remote.symbol) && FirstOf(positions.value, j, remote.symbol) ::
               i == j;
    }
    hide Replay, Positions, FindPosition, Fills;
  }

  /**
   recover() answers True if and only if the exchange knows the order, its fill could be booked,
   protection was confirmed for everything booked of it, and the exchange's position on its symbol
   equals what the ledger has booked.
   */
  lemma RecoversExactly(s: Node, intent: Intent, orderId: Option<OrderId>, now: real)
    requires Inv(s)
    ensures var id := if orderId.Some? then orderId.value else EntryIdOf(intent, s.adapter.exchange, s.cfg.mode);
      Recover(s, intent, orderId, now).1 == Ok(true) <==>
      (orderId.Some? || intent.quantity > 0.0) && Reconciled(s, intent, id, now)
  {
    var id := if orderId.Some? then orderId.value else EntryIdOf(intent, s.adapter.exchange, s.cfg.mode);
    RebuildsExactly(s, intent, id, now);
    hide Rebuild, Reconciled, Inv;
  }

  lemma RebuildsExactly(s: Node, intent: Intent, id: OrderId, now: real)
    requires Inv(s)
    ensures Rebuild(s, intent, id, now).1 == Ok(true) <==> Reconciled(s, intent, id, now)
  {
    hide Lookup, ConfirmFill, Synchronize, ComparePosition, Replay, Apply, ProtectionConfirmed, HeldExactly, Fills,
         Safe;
    var (a, found) := Lookup(s.adapter, id);
    assert Inv(s.(adapter := a));
    hide Inv;
    if found.Ok? && found.value.Some? {
      RemoteExactly(s.(adapter := a), intent, found.value.value, now);
    }
  }

  lemma RemoteExactly(s: Node, intent: Intent, remote: Order, now: real)
    requires Inv(s)
    ensures var u := ConfirmFill(s.Put(PutOrder(remote)), remote, now).0;
      var total := Fills(u.db.fills, remote.id);
      var (v, synced) := Synchronize(u, intent, remote, now);
      && (synced == Ok(true) <==> (total > 0.0 ==> ProtectionConfirmed(u, v, intent, remote, now)))
      && (ComparePosition(v, remote).1 == Ok(true) <==> HeldExactly(v, remote, total))
      && (ComparePosition(u, remote).1 == Ok(true) <==> HeldExactly(u, remote, total))
  {
    var r := s.Put(PutOrder(remote));
    RowKeeps(s, PutOrder(remote));
    ConfirmFillKeeps(r, remote, now);
    hide Replay, Apply, ConfirmFill, Continues;
    var u := ConfirmFill(r, remote, now).0;
    SynchronizeConfirms(u, intent, remote, now);
    SynchronizeKeeps(u, intent, remote, now);
    ComparesExactly(u, remote);
    ComparesExactly(Synchronize(u, intent, remote, now).0, remote);
    hide Inv, Synchronize, Protect, ComparePosition, Fills, HeldExactly;
  }
}
