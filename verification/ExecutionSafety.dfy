/**
 What holds in every run of the process, with crashes between any two commits.
 The safety statements are about the log, hold of each of its prefixes, and so
 survive cutting the log anywhere.
 */
module ExecutionSafety {
  import opened Optional
  import opened ExecutionModel
  import opened ExecutionAdapter
  import opened CoordinatorSpec
  import opened ConsumerSpec
  import opened Risk

  // ---------------------------------------------------------------- safe logs

  predicate IsSubmit(log: seq<Event>, i: nat) { i < |log| && log[i].Submit? }

  predicate IsEntry(log: seq<Event>, i: nat) { IsSubmit(log, i) && !log[i].order.reduceOnly }

  /** A fill row books the increment of its position over what the ledger held. */
  ghost predicate Increment(db: Db, event: Event) {
    event.PutFill? ==>
      && event.fill.quantity > 0.0
      && event.fill.quantity == event.position.quantity - Fills(db.fills, event.fill.orderId)
      && event.position.symbol == event.fill.symbol && event.position.open
  }

  /**
   Every submission was written ahead; an entry is submitted only when the ledger is
   reconciled and not killed, and no order with its id was submitted before.
   */
  ghost predicate SafeNext(log: seq<Event>, event: Event) {
    var db := Replay(log);
    && Increment(db, event)
    && (event.Submit? ==> event.order.id in db.orders)
    && (event.Submit? && !event.order.reduceOnly ==>
        && LatestGood(db) && !IsKilled(db)
        && forall j: nat | IsSubmit(log, j) :: log[j].order.id != event.order.id)
  }

  ghost predicate Safe(log: seq<Event>) {
    log != [] ==> Safe(log[..|log| - 1]) && SafeNext(log[..|log| - 1], log[|log| - 1])
  }

  /** Every event of a safe log was a safe one to add. */
  lemma {:induction false} SafeHere(log: seq<Event>, i: nat)
    requires Safe(log) && i < |log|
    ensures SafeNext(log[..i], log[i])
    decreases |log|
  {
    hide SafeNext;
    if i < |log| - 1 {
      assert log[..|log| - 1][..i] == log[..i];
      SafeHere(log[..|log| - 1], i);
    }
  }

  lemma {:induction false} SafePrefix(log: seq<Event>, k: nat)
    requires Safe(log) && k <= |log|
    ensures Safe(log[..k])
    decreases |log|
  {
    hide SafeNext;
    if k < |log| {
      assert log[..|log| - 1][..k] == log[..k];
      SafePrefix(log[..|log| - 1], k);
    } else {
      assert log[..k] == log;
    }
  }

  lemma SafeAppend(log: seq<Event>, event: Event)
    requires Safe(log) && SafeNext(log, event)
    ensures Safe(log + [event])
  {
    hide SafeNext;
    assert (log + [event])[..|log|] == log;
  }

  lemma ApplyKeepsRows(db: Db, event: Event)
    ensures db.orders.Keys <= Apply(db, event).orders.Keys && db.intents.Keys <= Apply(db, event).intents.Keys
    ensures db.kills <= Apply(db, event).kills && db.fills <= Apply(db, event).fills
  {
  }

  /** Rows of the order, intent, fill and kill-switch tables are never deleted. */
  lemma {:induction false} RowsStay(log: seq<Event>, i: nat)
    requires i <= |log|
    ensures var early, late := Replay(log[..i]), Replay(log);
      && early.orders.Keys <= late.orders.Keys && early.intents.Keys <= late.intents.Keys
      && early.kills <= late.kills && early.fills <= late.fills
    decreases |log|
  {
    hide Apply;
    if i < |log| {
      var shorter := log[..|log| - 1];
      assert shorter[..i] == log[..i];
      RowsStay(shorter, i);
      ApplyKeepsRows(Replay(shorter), log[|log| - 1]);
    } else {
      assert log[..i] == log;
    }
  }

  /** Ids already submitted have an order row. */
  lemma SubmittedHaveRows(log: seq<Event>, j: nat)
    requires Safe(log) && IsSubmit(log, j)
    ensures log[j].order.id in Replay(log).orders
  {
    SafeHere(log, j);
    RowsStay(log, j);
  }

  // ---------------------------------------------------------------- venues

  /** An intent row is stored under the entry id of its payload at this exchange and mode. */
  predicate VenueRow(event: Event, exchange: string, mode: Mode) {
    event.PutIntent? && event.row.payload.Some? ==> event.id == EntryIdOf(event.row.payload.value, exchange, mode)
  }

  ghost predicate VenueLog(log: seq<Event>, exchange: string, mode: Mode) {
    forall event | event in log :: VenueRow(event, exchange, mode)
  }

  lemma VenueAppend(log: seq<Event>, event: Event, exchange: string, mode: Mode)
    requires VenueLog(log, exchange, mode) && VenueRow(event, exchange, mode)
    ensures VenueLog(log + [event], exchange, mode)
  {}

  /** The intent rows that a step writes are those of the venue it runs at. */
  ghost predicate StaysAtVenue(s: Node, t: Node) {
    VenueLog(s.log, s.adapter.exchange, s.cfg.mode) ==> VenueLog(t.log, s.adapter.exchange, s.cfg.mode)
  }

  // ---------------------------------------------------------------- one process

  ghost predicate Core(s: Node) { s.db == Replay(s.log) && Safe(s.log) }

  /** The coordinator is READY only on a good latest row, and with nothing unresolved in memory. */
  ghost predicate Inv(s: Node) { Core(s) && (s.recovery.Ready? ==> LatestGood(s.db) && s.memory.Ready?) }

  /** `t` continues `s`: the log only grows and stays safe. */
  ghost predicate Continues(s: Node, t: Node) {
    s.log <= t.log && Core(t) && t.cfg == s.cfg && SameExchange(s.adapter, t.adapter) && StaysAtVenue(s, t)
  }

  /** The step keeps the invariant and writes no kill row. */
  ghost predicate Keeps(s: Node, t: Node) {
    Continues(s, t) && Inv(t) && t.db.kills == s.db.kills
  }

  /** ... and it books no fill. */
  ghost predicate Silent(s: Node, t: Node) {
    && Keeps(s, t) && t.db.fills == s.db.fills && t.db.positions == s.db.positions
    && forall i | |s.log| <= i < |t.log| :: !t.log[i].PutFill?
  }

  lemma SilentTransitive(s: Node, t: Node, u: Node)
    requires Silent(s, t) && Silent(t, u)
    ensures Silent(s, u)
  {
  }

  lemma PutContinues(s: Node, event: Event)
    requires Core(s) && !event.Submit? && VenueRow(event, s.adapter.exchange, s.cfg.mode) && Increment(s.db, event)
    ensures Continues(s, s.Put(event))
  {
    if VenueLog(s.log, s.adapter.exchange, s.cfg.mode) { VenueAppend(s.log, event, s.adapter.exchange, s.cfg.mode); }
    hide VenueLog;
    ReplayAppend(s.log, event);
    SafeAppend(s.log, event);
  }

  /** Order, intent and protection rows do not bear on the recovery gate. */
  lemma RowKeeps(s: Node, event: Event)
    requires Inv(s) && (event.PutOrder? || event.PutIntent? || event.SetIntentStatus? || event.PutProtection?)
    requires VenueRow(event, s.adapter.exchange, s.cfg.mode)
    ensures var t := s.Put(event);
      && Silent(s, t) && t.recovery == s.recovery && t.requests == s.requests && t.db.recon == s.db.recon
      && t.adapter == s.adapter && t.log == s.log + [event] && s.db.orders.Keys <= t.db.orders.Keys
      && (event.PutOrder? ==> event.order.id in t.db.orders)
  {
    PutContinues(s, event);
  }

  lemma ReconKeeps(s: Node, symbol: Symbol, status: ReconStatus)
    requires Inv(s)
    ensures Silent(s, s.Put(PutRecon(symbol, status)).Refresh()) && Silent(s, s.Suspect(symbol))
  {
    hide SameExchange, Safe, VenueLog, Replay;
    PutContinues(s, PutRecon(symbol, status));
    PutContinues(s, PutRecon(symbol, Unclear));
  }

  lemma SendKeeps(s: Node, order: Order)
    requires Inv(s) && order.id in s.db.orders
    requires !order.reduceOnly ==>
      && LatestGood(s.db) && !IsKilled(s.db)
      && forall j: nat | IsSubmit(s.log, j) :: s.log[j].order.id != order.id
    ensures Silent(s, Send(s, order).0)
  {
    SubmitIsSafe(s, order);
    if VenueLog(s.log, s.adapter.exchange, s.cfg.mode) {
      VenueAppend(s.log, Submit(order), s.adapter.exchange, s.cfg.mode);
    }
    hide VenueLog, Safe, Replay, Good, LatestGood, IsKilled, SubmitOrder;
  }

  lemma SubmitIsSafe(s: Node, order: Order)
    requires Core(s) && order.id in s.db.orders
    requires !order.reduceOnly ==>
      && LatestGood(s.db) && !IsKilled(s.db)
      && forall j: nat | IsSubmit(s.log, j) :: s.log[j].order.id != order.id
    ensures Safe(s.log + [Submit(order)]) && Replay(s.log + [Submit(order)]) == s.db
  {
    hide Safe, Replay, Good;
    ReplayAppend(s.log, Submit(order));
    SafeAppend(s.log, Submit(order));
  }

  lemma ConfirmFillKeeps(s: Node, order: Order, now: real)
    requires Inv(s)
    ensures Keeps(s, ConfirmFill(s, order, now).0)
  {
    hide Safe, VenueLog, Replay;
    ReconKeeps(s, order.symbol, Unclear);
    var delta := order.filled - Fills(s.db.fills, order.id);
    if FillPrice(order).Some? && delta > 0.0 {
      BookFillKeeps(s, order, delta, FillPrice(order).value, now);
    }
  }

  lemma BookFillKeeps(s: Node, order: Order, delta: real, price: real, now: real)
    requires Inv(s) && delta == order.filled - Fills(s.db.fills, order.id) > 0.0
    ensures Keeps(s, BookFill(s, order, delta, price, now))
  {
    var fill := Fill(order.id, order.symbol, order.side, delta, price, now);
    var position := Position(order.symbol, if order.side.Buy? then Long else Short, order.filled, Some(price), true);
    PutContinues(s, PutFill(fill, position, if order.status.Filled? then Match else Unclear));
  }

  lemma SettleRequestKeeps(s: Node, order: Order, submitted: Order)
    requires Inv(s)
    ensures Silent(s, SettleRequest(s.Put(PutOrder(submitted)), order, submitted).0)
  {
    hide Safe, VenueLog, Replay, Apply;
    RowKeeps(s, PutOrder(submitted));
    ReconKeeps(s.Put(PutOrder(submitted)), order.symbol, Unclear);
  }

  lemma ResolveRequestKeeps(s: Node, order: Order)
    requires Inv(s)
    ensures Silent(s, ResolveRequest(s, order).0)
  {
    hide Safe, VenueLog, Replay, Apply;
    ReconKeeps(s.(adapter := Lookup(s.adapter, order.id).0), order.symbol, Unclear);
  }

  /** From the submission of a reduce-only order on. */
  lemma TransmitRequestKeeps(s: Node, order: Order)
    requires Inv(s) && order.reduceOnly && order.id in s.db.orders
    ensures var (t, reply) := Send(s, order);
      && Silent(s, t)
      && (reply.Ok? ==> Silent(s, SettleRequest(t.Put(PutOrder(reply.value)), order, reply.value).0))
      && (reply.Raise? ==> Silent(s, ResolveRequest(t.(transportError := reply.exn.TransportExn?), order).0))
  {
    hide Replay, Apply, Lookup, Health, Account, SubmitOrder, Safe, VenueLog, LatestGood;
    SendKeeps(s, order);
    hide Safe, VenueLog, Replay, Send, Apply, SettleRequest, ResolveRequest, LatestGood;
    var (t, reply) := Send(s, order);
    match reply
    case Ok(submitted) => SettleRequestKeeps(t, order, submitted);
    case Raise(e) => ResolveRequestKeeps(t.(transportError := e.TransportExn?), order);
  }

  lemma SubmitRequestKeeps(s: Node, order: Order, now: real)
    requires Inv(s)
    ensures Silent(s, SubmitRequest(s, order, now).0)
  {
    hide Safe, VenueLog, Replay, Send, SettleRequest, ResolveRequest, Apply, Health, Lookup, LatestGood,
         AllowsSubmission;
    if order.reduceOnly && order.id !in s.requests {
      var r := s.(adapter := Health(s.adapter).0, requests := s.requests + {order.id});
      var ahead := r.Put(PutOrder(order));
      RowKeeps(r, PutOrder(order));
      assert Silent(s, ahead);
      TransmitRequestKeeps(ahead, order);
      var (t, reply) := Send(ahead, order);
      SilentTransitive(s, ahead, t);
      match reply
      case Ok(submitted) => SilentTransitive(s, ahead, SettleRequest(t.Put(PutOrder(submitted)), order, submitted).0);
      case Raise(e) => SilentTransitive(s, ahead, ResolveRequest(t.(transportError := e.TransportExn?), order).0);
    }
  }

  lemma PlaceChildKeeps(s: Node, desired: Order, quantity: real, now: real)
    requires Inv(s)
    ensures Silent(s, PlaceChild(s, desired, quantity, now).0)
  {
    ObtainChildKeeps(s, desired, quantity, now);
    hide Safe, VenueLog, Replay, ObtainChild, Apply;
    var (t, existing) := ObtainChild(s, desired, quantity, now);
    if existing.Ok? && existing.value.Some? {
      RowKeeps(t, PutProtection(existing.value.value));
    }
  }

  lemma ObtainChildKeeps(s: Node, desired: Order, quantity: real, now: real)
    requires Inv(s)
    ensures Silent(s, ObtainChild(s, desired, quantity, now).0)
  {
    hide Safe, VenueLog, Replay, SubmitRequest;
    SubmitRequestKeeps(s.(adapter := Lookup(s.adapter, desired.id).0), desired, now);
  }

  lemma {:induction false} PlaceKeeps(s: Node, plan: seq<Order>, quantity: real, now: real)
    requires Inv(s)
    ensures Silent(s, Place(s, plan, quantity, now).0)
  {
    hide Safe, VenueLog, Replay, PlaceChild;
    if plan != [] {
      PlaceKeeps(s, plan[..|plan| - 1], quantity, now);
      PlaceChildKeeps(Place(s, plan[..|plan| - 1], quantity, now).0, plan[|plan| - 1], quantity, now);
    }
  }

  lemma ProtectKeeps(s: Node, intent: Intent, entry: Order, quantity: real, now: real)
    requires Inv(s)
    ensures Silent(s, Protect(s, intent, entry, quantity, now).0)
  {
    hide Safe, VenueLog, Replay, Plan, Place, Verified;
    var plan := Plan(intent, s.adapter.exchange, s.cfg.mode, quantity);
    if plan.Ok? {
      PlaceKeeps(s, plan.value, quantity, now);
      ReconKeeps(Place(s, plan.value, quantity, now).0, entry.symbol, Match);
    }
  }

  lemma SynchronizeKeeps(s: Node, intent: Intent, entry: Order, now: real)
    requires Inv(s)
    ensures Silent(s, Synchronize(s, intent, entry, now).0)
  {
    hide Safe, VenueLog, Replay, Protect;
    var quantity := Fills(s.db.fills, entry.id);
    ProtectKeeps(s, intent, entry, quantity, now);
    ReconKeeps(Protect(s, intent, entry, quantity, now).0, entry.symbol, Unclear);
  }

  lemma SettleKeeps(s: Node, intent: Intent, order: Order, submitted: Order, now: real)
    requires Inv(s)
    ensures Keeps(s, Settle(s, intent, order, submitted, now).0)
  {
    hide ConfirmFill, Synchronize, Safe, VenueLog, Replay;
    ReconKeeps(s, order.symbol, Unclear);
    ConfirmFillKeeps(s, submitted, now);
    SynchronizeKeeps(ConfirmFill(s, submitted, now).0, intent, submitted, now);
  }

  lemma ResolveTimeoutKeeps(s: Node, order: Order)
    requires Inv(s)
    ensures Silent(s, ResolveTimeout(s, order).0)
  {
    hide Safe, VenueLog, Replay;
    var t := s.(adapter := Lookup(s.adapter, order.id).0);
    ReconKeeps(t, order.symbol, Match);
    ReconKeeps(t, order.symbol, Unclear);
  }

  /** After the write-ahead the order has a row, and still no submission carries its id. */
  lemma WriteAheadKeeps(s: Node, intent: Intent, order: Order, now: real)
    requires Inv(s) && order.id !in s.db.orders && order.id == EntryIdOf(intent, s.adapter.exchange, s.cfg.mode)
    ensures var t := WriteAhead(s, intent, order, now);
      && Silent(s, t) && order.id in t.db.orders && t.recovery == s.recovery
      && forall j: nat | IsSubmit(t.log, j) :: t.log[j].order.id != order.id
  {
    hide Safe, VenueLog, Replay, Apply;
    var r := s.(requests := s.requests + {order.id});
    RowKeeps(r, PutOrder(order));
    RowKeeps(r.Put(PutOrder(order)), PutIntent(order.id, IntentRow(Approved, now, Some(intent))));
    var ahead := WriteAhead(s, intent, order, now);
    forall j: nat | IsSubmit(ahead.log, j)
      ensures ahead.log[j].order.id != order.id
    {
      assert ahead.log == s.log + [PutOrder(order)] + [PutIntent(order.id, IntentRow(Approved, now, Some(intent)))];
      assert IsSubmit(s.log, j);
      SubmittedHaveRows(s.log, j);
    }
  }

  lemma TransmitKeeps(s: Node, intent: Intent, order: Order, now: real)
    requires Inv(s) && s.recovery.Ready? && !IsKilled(s.db) && order.id !in s.db.orders
    requires order.id == EntryIdOf(intent, s.adapter.exchange, s.cfg.mode)
    ensures Keeps(s, Transmit(s, intent, order, now).0)
  {
    hide Replay, Apply, Safe, VenueLog;
    WriteAheadKeeps(s, intent, order, now);
    hide Safe, VenueLog, Replay, WriteAhead, Settle, ResolveTimeout, Apply;
    var ahead := WriteAhead(s, intent, order, now);
    SendKeeps(ahead, order);
    var (t, reply) := Send(ahead, order);
    hide Send;
    match reply
    case Ok(submitted) =>
      RowKeeps(t, PutOrder(submitted));
      SettleKeeps(t.Put(PutOrder(submitted)), intent, order, submitted, now);
    case Raise(e) => ResolveTimeoutKeeps(t.(transportError := e.TransportExn?), order);
  }

  lemma AdmitKeeps(s: Node, intent: Intent, order: Order, now: real)
    requires Inv(s) && s.recovery.Ready? && !IsKilled(s.db)
    requires order.id == EntryIdOf(intent, s.adapter.exchange, s.cfg.mode)
    ensures Keeps(s, Admit(s, intent, order, now).0)
  {
    hide Safe, VenueLog, Replay, Transmit, AccountRefusal;
    if order.id in s.requests || order.id in s.db.orders {
      ReconKeeps(s.(adapter := Lookup(s.adapter, order.id).0), order.symbol, Unclear);
    } else {
      TransmitKeeps(s.(adapter := Account(Health(s.adapter).0).0), intent, order, now);
    }
  }

  lemma SubmitIntentKeeps(s: Node, intent: Intent, asOf: Option<real>, now: real)
    requires Inv(s)
    ensures Keeps(s, SubmitIntent(s, intent, asOf, now).0)
  {
    hide Safe, VenueLog, Replay, Admit;
    if StaticRefusal(s, intent, asOf, now).None? {
      AdmitKeeps(s, intent, FromIntent(intent, s.adapter.exchange, s.cfg.mode).value, now);
    }
  }

  lemma ComparePositionKeeps(s: Node, remote: Order)
    requires Inv(s)
    ensures Silent(s, ComparePosition(s, remote).0)
  {
    hide Safe, VenueLog, Replay;
    ReconKeeps(s.(adapter := Positions(s.adapter).0), remote.symbol, Match);
  }

  lemma RebuildKeeps(s: Node, intent: Intent, id: OrderId, now: real)
    requires Inv(s)
    ensures Keeps(s, Rebuild(s, intent, id, now).0)
  {
    hide Safe, VenueLog, Replay, ConfirmFill, Synchronize, ComparePosition, Apply;
    var (a, found) := Lookup(s.adapter, id);
    if found.Ok? && found.value.Some? {
      var remote := found.value.value;
      RowKeeps(s.(adapter := a), PutOrder(remote));
      var r := s.(adapter := a).Put(PutOrder(remote));
      ConfirmFillKeeps(r, remote, now);
      var u := ConfirmFill(r, remote, now).0;
      SynchronizeKeeps(u, intent, remote, now);
      ComparePositionKeeps(u, remote);
      ComparePositionKeeps(Synchronize(u, intent, remote, now).0, remote);
    }
  }

  lemma RecoverKeeps(s: Node, intent: Intent, orderId: Option<OrderId>, now: real)
    requires Inv(s)
    ensures Keeps(s, Recover(s, intent, orderId, now).0)
  {
    hide Safe, VenueLog, Replay, Rebuild;
    if orderId.Some? || intent.quantity > 0.0 {
      var id := if orderId.Some? then orderId.value else EntryIdOf(intent, s.adapter.exchange, s.cfg.mode);
      RebuildKeeps(s, intent, id, now);
      ReconKeeps(Rebuild(s, intent, id, now).0, intent.symbol, Unclear);
    }
  }

  lemma ReconcileKeeps(s: Node, expected: Option<Position>)
    requires Inv(s)
    ensures Silent(s, ReconcileWith(s, expected).0)
  {
    hide Safe, VenueLog, Replay;
    var (a, result) := Reconcile(s.adapter, expected);
    if result.Ok? {
      var symbol := if expected.Some? then expected.value.symbol
                    else if result.value.actual.Some? then result.value.actual.value else UNKNOWN_SYMBOL;
      ReconKeeps(s.(adapter := a), symbol, result.value.status);
    }
  }

  // ---------------------------------------------------------------- runs of the whole process

  datatype Command =
    | DoSubmit(intent: Intent, asOf: Option<real>, now: real)
    | DoConfirm(order: Order, now: real)
    | DoSynchronize(intent: Intent, order: Order, now: real)
    | DoRecover(intent: Intent, id: Option<OrderId>, now: real)
    | DoReconcile(expected: Option<Position>)
    | DoRequest(order: Order, now: real)
    | DoEvaluate(inputs: Inputs)
    | DoKill
    | DoReset(confirm: bool, blank: bool)
    | DoAccept(intent: Intent, asOf: Option<real>, now: real)
    | DoConsume
    | DoStart(rows: seq<OrderId>, clock: real)
    | Rebuilt(cfg: Config, adapter: Adapter)
    | Crash(during: Command, kept: nat, cfg: Config, adapter: Adapter)

  /**
   Execute one command. `Crash` runs a command, keeps the log only up to some event
   that the command reached, and boots a new process, with any configuration and any
   exchange behaviour from then on. `Rebuilt` is a restart between two commands.
   */
  function Exec(w: World, command: Command): World
    requires ValidConfig(w.risk)
    ensures Exec(w, command).risk == w.risk
  {
    match command
    case DoSubmit(intent, asOf, now) => w.(node := SubmitIntent(w.node, intent, asOf, now).0)
    case DoConfirm(order, now) => w.(node := ConfirmFill(w.node, order, now).0)
    case DoSynchronize(intent, order, now) => w.(node := Synchronize(w.node, intent, order, now).0)
    case DoRecover(intent, id, now) => w.(node := Recover(w.node, intent, id, now).0)
    case DoReconcile(expected) => w.(node := ReconcileWith(w.node, expected).0)
    case DoRequest(order, now) => w.(node := SubmitRequest(w.node, order, now).0)
    case DoEvaluate(inputs) =>
      if inputs.drawdown >= w.risk.killDrawdown then w.(killed := true, node := w.node.Put(PutKill(Killed))) else w
    case DoKill => w.(killed := true, node := w.node.Put(PutKill(Killed)))
    case DoReset(confirm, blank) => if confirm && !blank
                                    then w.(killed := false, node := w.node.Put(PutKill(ExecutionModel.Reset))) else w
    case DoAccept(intent, asOf, now) => Accept(w, intent, asOf, now).0
    case DoConsume => Consume(w)
    case DoStart(rows, clock) => if Listing(w.node.db, rows) then Start(w, rows, clock) else w
    case Rebuilt(cfg, adapter) => BootWorld(cfg, w.node.log, adapter, w.risk, w.capacity)
    case Crash(during, kept, cfg, adapter) =>
      var log := Exec(w, during).node.log;
      var first := if |w.node.log| <= kept <= |log| then kept else |log|;
      BootWorld(cfg, log[..first], adapter, w.risk, w.capacity)
  }

  function Run(w: World, commands: seq<Command>): World
    requires ValidConfig(w.risk)
    ensures Run(w, commands).risk == w.risk
  {
    if commands == [] then w else Exec(Run(w, commands[..|commands| - 1]), commands[|commands| - 1])
  }

  /** The gate of a process is killed exactly when its ledger says so. */
  ghost predicate WorldInv(w: World) { Inv(w.node) && ValidConfig(w.risk) && w.killed == IsKilled(w.node.db) }

  lemma BootInv(cfg: Config, log: seq<Event>, adapter: Adapter, risk: RiskConfig, capacity: nat)
    requires Safe(log) && ValidConfig(risk)
    ensures WorldInv(BootWorld(cfg, log, adapter, risk, capacity))
  {
  }

  lemma SetStatusKeeps(s: Node, id: OrderId, status: IntentStatus)
    requires Inv(s)
    ensures Silent(s, SetStatus(s, id, status))
  {
    if id in s.db.intents {
      RowKeeps(s, SetIntentStatus(id, status));
    }
  }

  lemma ConsumeKeeps(w: World)
    requires WorldInv(w)
    ensures WorldInv(Consume(w)) && Keeps(w.node, Consume(w).node)
  {
    hide Safe, VenueLog, Replay, SetStatus, SubmitIntent;
    if w.running && !w.dead && w.queue != [] && w.queue[0].intent.quantity > 0.0 {
      var item := w.queue[0];
      var id := EntryIdOf(item.intent, w.node.adapter.exchange, w.node.cfg.mode);
      SetStatusKeeps(w.node, id, Processing);
      var s := SetStatus(w.node, id, Processing);
      SubmitIntentKeeps(s, item.intent, item.asOf, item.now);
      var (t, outcome) := SubmitIntent(s, item.intent, item.asOf, item.now);
      if outcome.Outcome? {
        SetStatusKeeps(t, id, StatusOf(outcome));
      }
    }
  }

  lemma AcceptKeeps(w: World, intent: Intent, asOf: Option<real>, now: real)
    requires WorldInv(w)
    ensures WorldInv(Accept(w, intent, asOf, now).0) && Silent(w.node, Accept(w, intent, asOf, now).0.node)
  {
    hide Safe, VenueLog, Replay, SetStatus, Apply, SameExchange;
    var id := EntryIdOf(intent, w.node.adapter.exchange, w.node.cfg.mode);
    var row := PutIntent(id, IntentRow(Persisted, now, Some(intent)));
    RowKeeps(w.node, row);
    SetStatusKeeps(w.node.Put(row), id, Queued);
  }

  lemma RecoverRowKeeps(w: World, id: OrderId, clock: real)
    requires WorldInv(w) && id in w.node.db.intents
    ensures WorldInv(RecoverRow(w, id, clock)) && Silent(w.node, RecoverRow(w, id, clock).node)
  {
    hide Safe, VenueLog, Replay, SetStatus, Verdict;
    SetStatusKeeps(w.node, id, Verdict(w, id, clock));
  }

  lemma {:induction false} RecoverRowsKeep(w: World, rows: seq<OrderId>, clock: real)
    requires WorldInv(w) && forall id | id in rows :: id in w.node.db.intents
    ensures WorldInv(RecoverRows(w, rows, clock)) && Silent(w.node, RecoverRows(w, rows, clock).node)
  {
    hide Safe, VenueLog, Replay, RecoverRow;
    if rows != [] {
      RecoverRowsKeep(w, rows[..|rows| - 1], clock);
      RecoverRowKeeps(RecoverRows(w, rows[..|rows| - 1], clock), rows[|rows| - 1], clock);
    }
  }

  lemma KillKeeps(w: World, state: KillState)
    requires WorldInv(w)
    ensures WorldInv(w.(killed := state.Killed?, node := w.node.Put(PutKill(state))))
    ensures Continues(w.node, w.node.Put(PutKill(state)))
  {
    hide Good, Safe, VenueLog, Replay, SameExchange;
    PutContinues(w.node, PutKill(state));
  }

  predicate Steers(command: Command) { command.DoEvaluate? || command.DoKill? || command.DoReset? }

  /** Commands that go straight to the coordinator. */
  predicate Coordinates(command: Command) {
    || command.DoSubmit? || command.DoConfirm? || command.DoSynchronize? || command.DoRecover? || command.DoReconcile?
    || command.DoRequest?
  }

  lemma CoordinatorStepKeeps(w: World, command: Command)
    requires WorldInv(w) && Coordinates(command)
    ensures Keeps(w.node, Exec(w, command).node) && Exec(w, command) == w.(node := Exec(w, command).node)
  {
    hide Safe, VenueLog, Replay, SubmitIntent, ConfirmFill, Synchronize, Recover, ReconcileWith, SubmitRequest;
    match command
    case DoSubmit(intent, asOf, now) => SubmitIntentKeeps(w.node, intent, asOf, now);
    case DoConfirm(order, now) => ConfirmFillKeeps(w.node, order, now);
    case DoSynchronize(intent, order, now) => SynchronizeKeeps(w.node, intent, order, now);
    case DoRecover(intent, id, now) => RecoverKeeps(w.node, intent, id, now);
    case DoReconcile(expected) => ReconcileKeeps(w.node, expected);
    case DoRequest(order, now) => SubmitRequestKeeps(w.node, order, now);
  }

  lemma ConsumerStepKeeps(w: World, command: Command)
    requires WorldInv(w) && (command.DoAccept? || command.DoConsume? || command.DoStart?)
    ensures WorldInv(Exec(w, command)) && Keeps(w.node, Exec(w, command).node)
  {
    hide Safe, VenueLog, Replay, Accept, Consume, RecoverRows;
    match command
    case DoAccept(intent, asOf, now) => AcceptKeeps(w, intent, asOf, now);
    case DoConsume => ConsumeKeeps(w);
    case DoStart(rows, clock) =>
      if Listing(w.node.db, rows) {
        RecoverRowsKeep(w.(running := true, failed := false, dead := false), rows, clock);
      }
  }

  lemma GateStepKeeps(w: World, command: Command)
    requires WorldInv(w) && Steers(command)
    ensures WorldInv(Exec(w, command)) && w.node.log <= Exec(w, command).node.log
  {
    hide Safe, VenueLog, Replay, WorldInv;
    KillKeeps(w, Killed);
    KillKeeps(w, ExecutionModel.Reset);
  }

  lemma {:induction false} ExecKeeps(w: World, command: Command)
    requires WorldInv(w)
    ensures WorldInv(Exec(w, command)) && w.node.log <= Exec(w, command).node.log
    ensures !Steers(command) && !command.Crash? && !command.Rebuilt? ==> Keeps(w.node, Exec(w, command).node)
    decreases command
  {
    hide Replay, VenueLog, SubmitIntent, ConfirmFill, Synchronize, Recover, SubmitRequest, Accept, Consume, RecoverRows;
    if Coordinates(command) {
      CoordinatorStepKeeps(w, command);
      hide Exec;
    } else if Steers(command) {
      GateStepKeeps(w, command);
    } else if command.Crash? {
      ExecKeeps(w, command.during);
      var log := Exec(w, command.during).node.log;
      var first := if |w.node.log| <= command.kept <= |log| then command.kept else |log|;
      SafePrefix(log, first);
      BootInv(command.cfg, log[..first], command.adapter, w.risk, w.capacity);
      hide Safe, VenueLog, Replay;
    } else if command.Rebuilt? {
      BootInv(command.cfg, w.node.log, command.adapter, w.risk, w.capacity);
      hide Safe, VenueLog, Replay;
    } else {
      ConsumerStepKeeps(w, command);
      hide Exec;
    }
  }

  lemma {:induction false} RunKeeps(w: World, commands: seq<Command>)
    requires WorldInv(w)
    ensures WorldInv(Run(w, commands))
  {
    if commands != [] {
      RunKeeps(w, commands[..|commands| - 1]);
      ExecKeeps(Run(w, commands[..|commands| - 1]), commands[|commands| - 1]);
    }
  }

  lemma RunOne(w: World, command: Command)
    requires ValidConfig(w.risk)
    ensures Run(w, [command]) == Exec(w, command)
  {
    hide Exec;
    assert [command][..0] == [] && Run(w, []) == w;
  }

  lemma RunTwo(w: World, a: Command, b: Command)
    requires ValidConfig(w.risk)
    ensures Run(w, [a, b]) == Exec(Exec(w, a), b)
  {
    hide Exec;
    RunOne(w, a);
    assert [a, b][..1] == [a];
  }

  /** A process on an empty database. */
  function Initial(cfg: Config, adapter: Adapter, risk: RiskConfig, capacity: nat): World {
    BootWorld(cfg, [], adapter, risk, capacity)
  }

  lemma InitialRun(cfg: Config, adapter: Adapter, risk: RiskConfig, capacity: nat, commands: seq<Command>)
    requires ValidConfig(risk)
    ensures WorldInv(Run(Initial(cfg, adapter, risk, capacity), commands))
  {
    assert Safe([]);
    BootInv(cfg, [], adapter, risk, capacity);
    RunKeeps(Initial(cfg, adapter, risk, capacity), commands);
  }

  // ---------------------------------------------------------------- the theorems

  /**
   Whatever the exchange answers and wherever the process crashes, an entry order id is
   handed to adapter.submit_order at most once, and only after its row is on disk.
   */
  lemma EntrySubmittedAtMostOnce(cfg: Config, adapter: Adapter, risk: RiskConfig, capacity: nat,
                                 commands: seq<Command>, i: nat, j: nat)
    requires ValidConfig(risk)
    ensures var log := Run(Initial(cfg, adapter, risk, capacity), commands).node.log;
      && (i < j && IsEntry(log, i) && IsEntry(log, j) ==> log[i].order.id != log[j].order.id)
      && (IsSubmit(log, i) ==> log[i].order.id in Replay(log[..i]).orders)
  {
    InitialRun(cfg, adapter, risk, capacity, commands);
    var log := Run(Initial(cfg, adapter, risk, capacity), commands).node.log;
    if i < |log| { SafeHere(log, i); }
    if j < |log| { SafeHere(log, j); }
    if i < j && IsSubmit(log, i) && j < |log| { assert IsSubmit(log[..j], i) && log[..j][i] == log[i]; }
  }

  predicate WritesRecon(event: Event, good: bool) {
    (event.PutRecon? || event.PutFill?) && Good(event.recon) == good
  }

  /** The latest row after one more event. */
  lemma LatestRow(db: Db, event: Event)
    ensures if event.PutRecon? || event.PutFill? then LatestGood(Apply(db, event)) == WritesRecon(event, true)
            else LatestGood(Apply(db, event)) == LatestGood(db)
    ensures if event.PutKill? then IsKilled(Apply(db, event)) == event.state.Killed?
            else IsKilled(Apply(db, event)) == IsKilled(db)
  {}

  /** A bad latest row stays the latest until some row is written; so goodness needs a later good row. */
  lemma {:induction false} GoodRowSince(log: seq<Event>, n: nat, j: nat)
    requires n <= j <= |log| && !LatestGood(Replay(log[..n])) && LatestGood(Replay(log[..j]))
    ensures exists k: nat :: n <= k < j && WritesRecon(log[k], true)
    decreases j
  {
    if n < j {
      assert log[..j] == log[..j - 1] + [log[j - 1]];
      ReplayAppend(log[..j - 1], log[j - 1]);
      LatestRow(Replay(log[..j - 1]), log[j - 1]);
      hide Replay, Apply, LatestGood;
      if log[j - 1].PutRecon? || log[j - 1].PutFill? {
        assert WritesRecon(log[j - 1], true);
      } else {
        GoodRowSince(log, n, j - 1);
      }
    }
  }

  lemma GoodRowBetween(log: seq<Event>, i: nat, j: nat)
    requires i < j <= |log| && WritesRecon(log[i], false) && LatestGood(Replay(log[..j]))
    ensures exists k: nat :: i < k < j && WritesRecon(log[k], true)
  {
    assert log[..i + 1] == log[..i] + [log[i]];
    ReplayAppend(log[..i], log[i]);
    LatestRow(Replay(log[..i]), log[i]);
    hide Replay, Apply, LatestGood;
    GoodRowSince(log, i + 1, j);
  }

  // ---------------------------------------------------------------- unknown outcomes

  /** The gate is closed, in this process and for the next one. */
  ghost predicate Closed(s: Node) { s.recovery.Recovering? && !LatestGood(s.db) }

  lemma SynchronizeCloses(s: Node, intent: Intent, entry: Order, now: real)
    ensures Synchronize(s, intent, entry, now).1 == Ok(false) ==> Closed(Synchronize(s, intent, entry, now).0)
  {
    hide Replay, Protect;
  }

  lemma SettleCloses(s: Node, intent: Intent, order: Order, submitted: Order, now: real)
    ensures var (t, outcome) := Settle(s, intent, order, submitted, now);
      outcome.Outcome? && outcome.status.OutUnknown? ==> Closed(t)
  {
    SynchronizeCloses(ConfirmFill(s, submitted, now).0, intent, submitted, now);
    hide Replay, ConfirmFill, Synchronize;
  }

  lemma ResolveTimeoutCloses(s: Node, order: Order)
    ensures var (t, outcome) := ResolveTimeout(s, order); outcome.Outcome? && outcome.status.OutUnknown? ==> Closed(t)
  {
    hide Replay, Lookup;
  }

  lemma TransmitCloses(s: Node, intent: Intent, order: Order, now: real)
    ensures var (t, outcome) := Transmit(s, intent, order, now);
      outcome.Outcome? && outcome.status.OutUnknown? ==> Closed(t)
  {
    var (t, reply) := Send(WriteAhead(s, intent, order, now), order);
    match reply
    case Ok(submitted) =>
      SettleCloses(t.Put(PutOrder(submitted)), intent, order, submitted, now);
      hide Replay, Apply, WriteAhead, Settle;
    case Raise(e) =>
      ResolveTimeoutCloses(t.(transportError := e.TransportExn?), order);
      hide Replay, Apply, WriteAhead, ResolveTimeout;
  }

  /** An UNKNOWN outcome, or a failed recovery, leaves the gate closed. */
  lemma UnknownClosesTheGate(s: Node, intent: Intent, asOf: Option<real>, now: real)
    ensures var (t, outcome) := SubmitIntent(s, intent, asOf, now);
      outcome.Outcome? && outcome.status.OutUnknown? ==> Closed(t)
  {
    hide Replay, Transmit, AccountRefusal, Apply;
    var order := FromIntent(intent, s.adapter.exchange, s.cfg.mode);
    if order.Ok? { TransmitCloses(s.(adapter := Account(Health(s.adapter).0).0), intent, order.value, now); }
  }

  lemma RequestCloses(s: Node, order: Order, now: real)
    ensures var (t, outcome) := SubmitRequest(s, order, now);
      outcome.Outcome? && outcome.status.OutUnknown? ==> Closed(t)
  {
    hide Replay, Lookup, SubmitOrder, Health;
  }

  lemma ComparisonReopens(s: Node, remote: Order)
    ensures var (t, done) := ComparePosition(s, remote);
      done.Ok? ==> done.value && t.recovery.Ready? && LatestGood(t.db)
  {
    hide Replay, Positions, Fills;
  }

  /** recover() answers True with the gate open on a MATCH row, and False with the gate closed. */
  lemma RecoveryMeaning(s: Node, intent: Intent, orderId: Option<OrderId>, now: real)
    ensures var (t, done) := Recover(s, intent, orderId, now);
      done.Ok? ==> if done.value then t.recovery.Ready? && LatestGood(t.db) else Closed(t)
  {
    var id := if orderId.Some? then orderId.value else EntryIdOf(intent, s.adapter.exchange, s.cfg.mode);
    RebuildMeaning(s, intent, id, now);
    hide Replay, Rebuild;
  }

  lemma RebuildMeaning(s: Node, intent: Intent, id: OrderId, now: real)
    ensures var (t, done) := Rebuild(s, intent, id, now);
      done.Ok? ==> if done.value then t.recovery.Ready? && LatestGood(t.db) else Closed(t)
  {
    hide Replay, Apply, ConfirmFill, Synchronize, ComparePosition, Lookup, LatestGood;
    var (a, found) := Lookup(s.adapter, id);
    if found.Ok? && found.value.Some? {
      var remote := found.value.value;
      var u := ConfirmFill(s.(adapter := a).Put(PutOrder(remote)), remote, now).0;
      SynchronizeCloses(u, intent, remote, now);
      ComparisonReopens(Synchronize(u, intent, remote, now).0, remote);
      ComparisonReopens(u, remote);
    }
  }

  lemma {:induction false} LogGrows(w: World, commands: seq<Command>)
    requires WorldInv(w)
    ensures w.node.log <= Run(w, commands).node.log
  {
    if commands != [] {
      var before := commands[..|commands| - 1];
      LogGrows(w, before);
      RunKeeps(w, before);
      ExecKeeps(Run(w, before), commands[|commands| - 1]);
    }
  }

  /**
   After submit_intent has answered UNKNOWN, whatever follows, restarts and crashes included, no
   entry reaches the exchange before a MATCH or OK row has been written.
   */
  lemma NothingSentAfterUnknown(w: World, intent: Intent, asOf: Option<real>, now: real, commands: seq<Command>, j: nat)
    requires WorldInv(w)
    requires var outcome := SubmitIntent(w.node, intent, asOf, now).1; outcome.Outcome? && outcome.status.OutUnknown?
    ensures var v := Exec(w, DoSubmit(intent, asOf, now));
      var log := Run(v, commands).node.log;
      |v.node.log| <= j < |log| && IsEntry(log, j) ==>
      exists k: nat :: |v.node.log| <= k < j && WritesRecon(log[k], true)
  {
    var v := Exec(w, DoSubmit(intent, asOf, now));
    assert v.node == SubmitIntent(w.node, intent, asOf, now).0;
    UnknownClosesTheGate(w.node, intent, asOf, now);
    ExecKeeps(w, DoSubmit(intent, asOf, now));
    LogGrows(v, commands);
    RunKeeps(v, commands);
    hide Exec, SubmitIntent, Run, Replay;
    var log := Run(v, commands).node.log;
    if |v.node.log| <= j < |log| && IsEntry(log, j) {
      SafeHere(log, j);
      assert log[..|v.node.log|] == v.node.log;
      GoodRowSince(log, |v.node.log|, j);
    }
  }

  /**
   The recovery gate. A READY coordinator has a MATCH or OK (or no) latest reconciliation;
   after an unresolved reconciliation row no entry is submitted before a MATCH or OK row,
   across crashes and restarts.
   */
  lemma RecoveryGate(cfg: Config, adapter: Adapter, risk: RiskConfig, capacity: nat, commands: seq<Command>, i: nat,
                     j: nat)
    requires ValidConfig(risk)
    ensures var node := Run(Initial(cfg, adapter, risk, capacity), commands).node;
      && (node.recovery.Ready? ==> LatestGood(node.db))
      && (i < j < |node.log| && WritesRecon(node.log[i], false) && IsEntry(node.log, j) ==>
          exists k: nat :: i < k < j && WritesRecon(node.log[k], true))
  {
    InitialRun(cfg, adapter, risk, capacity, commands);
    var log := Run(Initial(cfg, adapter, risk, capacity), commands).node.log;
    if i < j < |log| && WritesRecon(log[i], false) && IsEntry(log, j) {
      SafeHere(log, j);
      GoodRowBetween(log, i, j);
    }
  }

  lemma {:induction false} ResetBetween(log: seq<Event>, i: nat, j: nat)
    requires i < j <= |log| && log[i] == PutKill(Killed) && !IsKilled(Replay(log[..j]))
    ensures exists k: nat :: i < k < j && log[k] == PutKill(ExecutionModel.Reset)
    decreases j
  {
    assert log[..j] == log[..j - 1] + [log[j - 1]];
    ReplayAppend(log[..j - 1], log[j - 1]);
    LatestRow(Replay(log[..j - 1]), log[j - 1]);
    hide Replay, Apply, IsKilled;
    if log[j - 1].PutKill? {
      assert log[j - 1] == PutKill(ExecutionModel.Reset);
    } else {
      ResetBetween(log, i, j - 1);
    }
  }

  /** After a KILLED row no entry is submitted before a RESET row. */
  lemma KilledLedgerSubmitsNothing(cfg: Config, adapter: Adapter, risk: RiskConfig, capacity: nat,
                                   commands: seq<Command>, i: nat, j: nat)
    requires ValidConfig(risk)
    ensures var log := Run(Initial(cfg, adapter, risk, capacity), commands).node.log;
      i < j < |log| && log[i] == PutKill(Killed) && IsEntry(log, j) ==>
        exists k: nat :: i < k < j && log[k] == PutKill(ExecutionModel.Reset)
  {
    InitialRun(cfg, adapter, risk, capacity, commands);
    var log := Run(Initial(cfg, adapter, risk, capacity), commands).node.log;
    if i < j < |log| && log[i] == PutKill(Killed) && IsEntry(log, j) {
      SafeHere(log, j);
      ResetBetween(log, i, j);
    }
  }

  /** No command of the run is a confirmed reset with a reason, even one cut short by a crash. */
  predicate NoReset(command: Command) {
    match command
    case DoReset(confirm, blank) => !confirm || blank
    case Crash(during, _, _, _) => NoReset(during)
    case _ => true
  }

  lemma NoNewKillRow(log: seq<Event>, n: nat, k: nat)
    requires n <= k <= |log| && IsKilled(Replay(log[..n])) && Replay(log).kills == Replay(log[..n]).kills
    ensures IsKilled(Replay(log[..k]))
  {
    hide Replay, IsKilled;
    assert log[..k][..n] == log[..n];
    RowsStay(log, k);
    RowsStay(log[..k], n);
    SameBetween(Replay(log[..n]), Replay(log[..k]), Replay(log));
  }

  lemma SameBetween(a: Db, b: Db, c: Db)
    requires a.kills <= b.kills <= c.kills && c.kills == a.kills
    ensures IsKilled(a) == IsKilled(b)
  {
    assert b.kills == a.kills;
  }

  /** A killed process that is not reset leaves a killed ledger at every event it reaches. */
  lemma {:induction false} KilledAtEveryEvent(w: World, command: Command, k: nat)
    requires WorldInv(w) && w.killed && NoReset(command)
    requires |w.node.log| <= k <= |Exec(w, command).node.log|
    ensures IsKilled(Replay(Exec(w, command).node.log[..k]))
    decreases command
  {
    hide Safe, VenueLog, Replay;
    ExecKeeps(w, command);
    var log := Exec(w, command).node.log;
    assert log[..|w.node.log|] == w.node.log && log[..|log|] == log;
    if command.Crash? {
      KilledAtEveryEvent(w, command.during, k);
      assert log[..k] == Exec(w, command.during).node.log[..k];
    } else if Steers(command) || command.Rebuilt? {
      assert k == |w.node.log| || k == |log|;
      assert IsKilled(Exec(w, command).node.db);
    } else {
      hide Exec;
      NoNewKillRow(log, |w.node.log|, k);
    }
  }

  /**
   The latch. Once the gate of a process is killed, then after any commands without a
   confirmed reset, crashes included, the gate is still killed, no evaluation is approved,
   and every submission is refused without reaching the exchange.
   */
  lemma {:induction false} KillLatch(w: World, commands: seq<Command>, inputs: Inputs, intent: Intent,
                                     asOf: Option<real>, now: real)
    requires WorldInv(w) && w.killed && ValidInputs(inputs)
    requires forall command | command in commands :: NoReset(command)
    ensures var v := Run(w, commands);
      && v.killed
      && !Evaluation(v.risk, v.killed, inputs).approved
      && SubmitIntent(v.node, intent, asOf, now).0 == v.node
      && SubmitIntent(v.node, intent, asOf, now).1.Outcome?
      && SubmitIntent(v.node, intent, asOf, now).1.status.OutRejected?
  {
    hide Replay, Apply;
    if commands == [] {
      ApprovalMeaning(w.risk, w.killed, inputs);
    } else {
      var before := commands[..|commands| - 1];
      KillLatch(w, before, inputs, intent, asOf, now);
      RunKeeps(w, before);
      var u := Run(w, before);
      var command := commands[|commands| - 1];
      ExecKeeps(u, command);
      KilledAtEveryEvent(u, command, |Exec(u, command).node.log|);
      var log := Exec(u, command).node.log;
      assert log[..|log|] == log;
      ApprovalMeaning(w.risk, true, inputs);
    }
  }

  /**
   Gates share the ledger but no flag: over a killed ledger another gate approves exactly when its
   own flag is clear and the input is otherwise admissible. What it approves is still refused, unsent.
   */
  lemma SecondGateApproves(s: Node, c: RiskConfig, flag: bool, inputs: Inputs, intent: Intent, asOf: Option<real>,
                           now: real)
    requires IsKilled(s.db) && ValidConfig(c) && ValidInputs(inputs)
    ensures Evaluation(c, flag, inputs).approved
       <==> !flag && Admissible(c, false, inputs) && RawSize(c, inputs) >= Sizing(c, inputs).minQuantity
    ensures SubmitIntent(s, intent, asOf, now).0 == s && SubmitIntent(s, intent, asOf, now).1.Outcome?
         && SubmitIntent(s, intent, asOf, now).1.status.OutRejected?
  {
    ApprovalMeaning(c, flag, inputs);
    hide Evaluation, RawSize, Sizing, Replay, Admit;
  }

  lemma Drawdown(w: World, inputs: Inputs)
    requires ValidConfig(w.risk) && inputs.drawdown >= w.risk.killDrawdown
    ensures Exec(w, DoEvaluate(inputs)).killed
  {}

  /** The latch closes: an evaluation that sees the drawdown limit kills the process. */
  lemma DrawdownKills(w: World, inputs: Inputs)
    requires WorldInv(w) && inputs.drawdown >= w.risk.killDrawdown
    ensures Exec(w, DoEvaluate(inputs)).killed && WorldInv(Exec(w, DoEvaluate(inputs)))
  {
    assert ValidConfig(w.risk);
    hide Safe, VenueLog, Replay, WorldInv, Exec;
    GateStepKeeps(w, DoEvaluate(inputs));
    assert Exec(w, DoEvaluate(inputs)).killed by { Drawdown(w, inputs); }
  }
}
