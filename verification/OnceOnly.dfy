/**
 How often an id is handed to adapter.submit_order: once in a process, entries and children
 alike, because the request set remembers it. The set does not outlive the process, so a child
 is sent again after a restart whenever the exchange does not show it.
 */
module OnceOnly {
  import opened Optional
  import opened ExecutionModel
  import opened ExecutionAdapter
  import opened CoordinatorSpec
  import opened ConsumerSpec
  import opened ExecutionSafety
  import opened FillRows
  import opened Risk

  // ---------------------------------------------------------------- within a process

  /** Everything submitted from event `n` on is in the request set, and no id was submitted twice. */
  ghost predicate Once(s: Node, n: nat) {
    && n <= |s.log|
    && (forall j: nat | n <= j && IsSubmit(s.log, j) :: s.log[j].order.id in s.requests)
    && (forall i: nat, j: nat | n <= i < j && IsSubmit(s.log, i) && IsSubmit(s.log, j) ::
          s.log[i].order.id != s.log[j].order.id)
  }

  /** A step that submits nothing and forgets no request. */
  ghost predicate Unsent(s: Node, t: Node) {
    && s.log <= t.log && s.requests == t.requests
    && forall j | |s.log| <= j < |t.log| :: !t.log[j].Submit?
  }

  lemma UnsentOnce(s: Node, t: Node, n: nat)
    requires Once(s, n) && Unsent(s, t)
    ensures Once(t, n)
  {
    forall j: nat | n <= j && IsSubmit(t.log, j) ensures IsSubmit(s.log, j) && s.log[j] == t.log[j] {}
  }

  /** A submission under an id that was not in the request set and is now. */
  lemma SendOnce(s: Node, order: Order, n: nat)
    requires Once(s.(requests := s.requests - {order.id}), n) && order.id in s.requests
    ensures Once(Send(s, order).0, n)
  {
    var t := Send(s, order).0;
    forall j: nat | n <= j && IsSubmit(t.log, j) && j < |s.log| ensures IsSubmit(s.log, j) && s.log[j] == t.log[j] {}
  }

  lemma ConfirmUnsent(s: Node, order: Order, now: real)
    ensures Unsent(s, ConfirmFill(s, order, now).0)
  {
    hide Apply, Fills;
  }

  lemma RequestOnce(s: Node, order: Order, now: real, n: nat)
    requires Once(s, n)
    ensures Once(SubmitRequest(s, order, now).0, n)
  {
    hide Apply, Once, LatestGood;
    var (a, health) := Health(s.adapter);
    if order.id !in s.requests {
      var ready := s.(adapter := a, requests := s.requests + {order.id}).Put(PutOrder(order));
      RequestReadies(s, ready, order, n);
      SendOnce(ready, order, n);
      var (t, reply) := Send(ready, order);
      AfterRequest(t, order, n);
    }
    hide Send, SettleRequest, ResolveRequest;
    forall b: Adapter ensures Once(s.(adapter := b), n) { UnsentOnce(s, s.(adapter := b), n); }
  }

  lemma RequestReadies(s: Node, t: Node, order: Order, n: nat)
    requires Once(s, n) && order.id !in s.requests && t.requests == s.requests + {order.id}
    requires exists event: Event :: !event.Submit? && t.log == s.log + [event]
    ensures Once(t.(requests := t.requests - {order.id}), n)
  {
    UnsentOnce(s, t.(requests := t.requests - {order.id}), n);
  }

  lemma AfterRequest(t: Node, order: Order, n: nat)
    requires Once(t, n)
    ensures forall submitted: Order :: Once(SettleRequest(t.Put(PutOrder(submitted)), order, submitted).0, n)
    ensures forall raised: bool :: Once(ResolveRequest(t.(transportError := raised), order).0, n)
  {
    hide Apply, Once;
    forall submitted: Order ensures Once(SettleRequest(t.Put(PutOrder(submitted)), order, submitted).0, n) {
      UnsentOnce(t, SettleRequest(t.Put(PutOrder(submitted)), order, submitted).0, n);
    }
    forall raised: bool ensures Once(ResolveRequest(t.(transportError := raised), order).0, n) {
      UnsentOnce(t, ResolveRequest(t.(transportError := raised), order).0, n);
    }
  }

  lemma ChildOnce(s: Node, desired: Order, quantity: real, now: real, n: nat)
    requires Once(s, n)
    ensures Once(ObtainChild(s, desired, quantity, now).0, n) && Once(PlaceChild(s, desired, quantity, now).0, n)
  {
    hide Apply, Once, SubmitRequest;
    forall b: Adapter ensures Once(s.(adapter := b), n) { UnsentOnce(s, s.(adapter := b), n); }
    RequestOnce(s.(adapter := Lookup(s.adapter, desired.id).0), desired, now, n);
    var (t, existing) := ObtainChild(s, desired, quantity, now);
    hide ObtainChild;
    if existing.Ok? && existing.value.Some? { UnsentOnce(t, t.Put(PutProtection(existing.value.value)), n); }
  }

  lemma {:induction false} PlaceOnce(s: Node, plan: seq<Order>, quantity: real, now: real, n: nat)
    requires Once(s, n)
    ensures Once(Place(s, plan, quantity, now).0, n)
  {
    hide Once, PlaceChild;
    if plan != [] {
      PlaceOnce(s, plan[..|plan| - 1], quantity, now, n);
      ChildOnce(Place(s, plan[..|plan| - 1], quantity, now).0, plan[|plan| - 1], quantity, now, n);
    }
  }

  lemma SynchronizeOnce(s: Node, intent: Intent, entry: Order, now: real, n: nat)
    requires Once(s, n)
    ensures Once(Synchronize(s, intent, entry, now).0, n)
  {
    hide Once, Place, Plan, Verified, Apply, Fills;
    var quantity := Fills(s.db.fills, entry.id);
    var plan := Plan(intent, s.adapter.exchange, s.cfg.mode, quantity);
    if plan.Ok? {
      PlaceOnce(s, plan.value, quantity, now, n);
      var t := Place(s, plan.value, quantity, now).0;
      UnsentOnce(t, t.Put(PutRecon(entry.symbol, Match)).Refresh(), n);
    }
    var u := Protect(s, intent, entry, quantity, now).0;
    assert Once(u, n);
    hide Protect;
    UnsentOnce(u, u.Suspect(entry.symbol), n);
  }

  lemma SettleOnce(s: Node, intent: Intent, order: Order, submitted: Order, now: real, n: nat)
    requires Once(s, n)
    ensures Once(Settle(s, intent, order, submitted, now).0, n)
  {
    var t := ConfirmFill(s, submitted, now).0;
    ConfirmUnsent(s, submitted, now);
    UnsentOnce(s, t, n);
    SynchronizeOnce(t, intent, submitted, now, n);
    UnsentOnce(s, s.Suspect(order.symbol), n);
    hide Once, ConfirmFill, Synchronize, Apply;
  }

  lemma TransmitOnce(s: Node, intent: Intent, order: Order, now: real, n: nat)
    requires Once(s, n) && order.id !in s.requests
    ensures Once(Transmit(s, intent, order, now).0, n)
  {
    var ahead := WriteAhead(s, intent, order, now);
    UnsentOnce(s, ahead.(requests := ahead.requests - {order.id}), n) by { hide Apply; }
    hide WriteAhead, Apply, Settle, ResolveTimeout, Once;
    SendOnce(ahead, order, n) by { assert order.id in WriteAhead(s, intent, order, now).requests; }
    var (t, reply) := Send(ahead, order);
    hide Send;
    match reply
    case Ok(submitted) =>
      UnsentOnce(t, t.Put(PutOrder(submitted)), n);
      SettleOnce(t.Put(PutOrder(submitted)), intent, order, submitted, now, n);
    case Raise(e) => TimeoutOnce(t.(transportError := e.TransportExn?), t, order, n);
  }

  lemma TimeoutOnce(s: Node, t: Node, order: Order, n: nat)
    requires Once(t, n) && s == t.(transportError := s.transportError)
    ensures Once(ResolveTimeout(s, order).0, n)
  {
    UnsentOnce(t, ResolveTimeout(s, order).0, n) by { hide Apply; }
  }

  lemma SubmitOnce(s: Node, intent: Intent, asOf: Option<real>, now: real, n: nat)
    requires Once(s, n)
    ensures Once(SubmitIntent(s, intent, asOf, now).0, n)
  {
    hide Once, Transmit, StaticRefusal, AccountRefusal, Apply;
    forall b: Adapter ensures Once(s.(adapter := b), n) { UnsentOnce(s, s.(adapter := b), n); }
    var order := FromIntent(intent, s.adapter.exchange, s.cfg.mode);
    if order.Ok? {
      var looked := s.(adapter := Lookup(s.adapter, order.value.id).0);
      UnsentOnce(looked, looked.Suspect(order.value.symbol), n);
      if order.value.id !in s.requests {
        TransmitOnce(s.(adapter := Account(Health(s.adapter).0).0), intent, order.value, now, n);
      }
    }
  }

  lemma CompareOnce(s: Node, remote: Order, n: nat)
    requires Once(s, n)
    ensures Once(ComparePosition(s, remote).0, n)
  {
    UnsentOnce(s, ComparePosition(s, remote).0, n) by { hide Apply, Fills; }
  }

  lemma RecoverOnce(s: Node, intent: Intent, orderId: Option<OrderId>, now: real, n: nat)
    requires Once(s, n)
    ensures Once(Recover(s, intent, orderId, now).0, n)
  {
    var id := if orderId.Some? then orderId.value else EntryIdOf(intent, s.adapter.exchange, s.cfg.mode);
    RebuildOnce(s, intent, id, now, n);
    var t := Rebuild(s, intent, id, now).0;
    hide Rebuild, Once, Apply;
    UnsentOnce(t, t.Suspect(intent.symbol), n);
  }

  lemma RebuildOnce(s: Node, intent: Intent, id: OrderId, now: real, n: nat)
    requires Once(s, n)
    ensures Once(Rebuild(s, intent, id, now).0, n)
  {
    hide Once, Apply, ConfirmFill, Synchronize, ComparePosition;
    var (a, found) := Lookup(s.adapter, id);
    UnsentOnce(s, s.(adapter := a), n);
    if found.Ok? && found.value.Some? {
      var remote := found.value.value;
      var r := s.(adapter := a).Put(PutOrder(remote));
      UnsentOnce(s, r, n);
      ConfirmUnsent(r, remote, now);
      var u := ConfirmFill(r, remote, now).0;
      UnsentOnce(r, u, n);
      SynchronizeOnce(u, intent, remote, now, n);
      CompareOnce(u, remote, n);
      CompareOnce(Synchronize(u, intent, remote, now).0, remote, n);
    }
  }

  lemma StatusUnsent(s: Node, id: OrderId, status: IntentStatus)
    ensures Unsent(s, SetStatus(s, id, status))
  {
    hide Apply;
  }

  lemma {:induction false} RowsUnsent(w: World, rows: seq<OrderId>, clock: real)
    requires forall id | id in rows :: id in w.node.db.intents
    ensures Unsent(w.node, RecoverRows(w, rows, clock).node)
  {
    if rows != [] {
      var v, id := RecoverRows(w, rows[..|rows| - 1], clock), rows[|rows| - 1];
      RowsUnsent(w, rows[..|rows| - 1], clock);
      hide RecoverRows, SetStatus;
      StatusUnsent(v.node, id, Verdict(v, id, clock));
      hide Verdict;
    }
  }

  lemma ConsumeOnce(w: World, n: nat)
    requires Once(w.node, n)
    ensures Once(Consume(w).node, n)
  {
    hide Once, SetStatus, SubmitIntent;
    if w.queue != [] {
      var item := w.queue[0];
      var id := EntryIdOf(item.intent, w.node.adapter.exchange, w.node.cfg.mode);
      StatusUnsent(w.node, id, Processing);
      var s := SetStatus(w.node, id, Processing);
      UnsentOnce(w.node, s, n);
      SubmitOnce(s, item.intent, item.asOf, item.now, n);
      var (t, outcome) := SubmitIntent(s, item.intent, item.asOf, item.now);
      if outcome.Outcome? {
        StatusUnsent(t, id, StatusOf(outcome));
        UnsentOnce(t, SetStatus(t, id, StatusOf(outcome)), n);
      }
    }
  }

  lemma AcceptUnsent(w: World, intent: Intent, asOf: Option<real>, now: real)
    ensures Unsent(w.node, Accept(w, intent, asOf, now).0.node)
  {
    var id := EntryIdOf(intent, w.node.adapter.exchange, w.node.cfg.mode);
    StatusUnsent(w.node.Put(PutIntent(id, IntentRow(Persisted, now, Some(intent)))), id, Queued);
    hide Apply, SetStatus;
  }

  /** The process goes on: no restart, with or without a crash. */
  predicate SameProcess(command: Command) { !command.Rebuilt? && !command.Crash? }

  lemma ExecOnce(w: World, command: Command, n: nat)
    requires ValidConfig(w.risk) && Once(w.node, n) && SameProcess(command)
    ensures Once(Exec(w, command).node, n)
  {
    hide Once, Apply, SubmitIntent, ConfirmFill, Synchronize, Recover, SubmitRequest, Consume, Accept, RecoverRows,
         Reconcile;
    match command
    case DoSubmit(intent, asOf, now) => SubmitOnce(w.node, intent, asOf, now, n);
    case DoConfirm(order, now) =>
      ConfirmUnsent(w.node, order, now);
      UnsentOnce(w.node, ConfirmFill(w.node, order, now).0, n);
    case DoSynchronize(intent, order, now) => SynchronizeOnce(w.node, intent, order, now, n);
    case DoRecover(intent, id, now) => RecoverOnce(w.node, intent, id, now, n);
    case DoReconcile(expected) => UnsentOnce(w.node, ReconcileWith(w.node, expected).0, n);
    case DoRequest(order, now) => RequestOnce(w.node, order, now, n);
    case DoEvaluate(inputs) => UnsentOnce(w.node, w.node.Put(PutKill(Killed)), n);
    case DoKill => UnsentOnce(w.node, w.node.Put(PutKill(Killed)), n);
    case DoReset(_, _) => UnsentOnce(w.node, w.node.Put(PutKill(ExecutionModel.Reset)), n);
    case DoAccept(intent, asOf, now) =>
      AcceptUnsent(w, intent, asOf, now);
      UnsentOnce(w.node, Accept(w, intent, asOf, now).0.node, n);
    case DoConsume => ConsumeOnce(w, n);
    case DoStart(rows, clock) =>
      if Listing(w.node.db, rows) {
        var started := w.(running := true, failed := false, dead := false);
        RowsUnsent(started, rows, clock);
        UnsentOnce(w.node, RecoverRows(started, rows, clock).node, n);
      }
  }

  lemma {:induction false} RunOnce(w: World, commands: seq<Command>, n: nat)
    requires ValidConfig(w.risk) && Once(w.node, n) && forall command | command in commands :: SameProcess(command)
    ensures Once(Run(w, commands).node, n)
  {
    hide Once, Exec;
    if commands != [] {
      RunOnce(w, commands[..|commands| - 1], n);
      ExecOnce(Run(w, commands[..|commands| - 1]), commands[|commands| - 1], n);
    }
  }

  /**
   On any database, with any exchange, a process hands every id to adapter.submit_order at most
   once from its start on, children and entries alike.
   */
  lemma OncePerProcess(cfg: Config, log: seq<Event>, adapter: Adapter, risk: RiskConfig, capacity: nat,
                       commands: seq<Command>, i: nat, j: nat)
    requires ValidConfig(risk) && forall command | command in commands :: SameProcess(command)
    requires |log| <= i < j
    ensures var end := Run(BootWorld(cfg, log, adapter, risk, capacity), commands).node.log;
      IsSubmit(end, i) && IsSubmit(end, j) ==> end[i].order.id != end[j].order.id
  {
    RunOnce(BootWorld(cfg, log, adapter, risk, capacity), commands, |log|);
  }

  // ---------------------------------------------------------------- when a child is sent

  ghost predicate Sends(s: Node, t: Node, id: OrderId) {
    exists j: nat :: |s.log| <= j && IsSubmit(t.log, j) && t.log[j].order.id == id
  }

  /** The checks of a raw request that ask nobody. */
  predicate Requestable(cfg: Config, order: Order) {
    order.reduceOnly && AllowsSubmission(cfg) && order.leverage <= cfg.maxLeverage && order.quantity > 0.0
  }

  /**
   A child is sent exactly when the exchange answers that it does not know it, this process has not
   asked for it, and the exchange is healthy. The order row on disk plays no part.
   */
  lemma ChildSentExactly(s: Node, desired: Order, quantity: real, now: real)
    ensures var (a, found) := Lookup(s.adapter, desired.id);
      Sends(s, ObtainChild(s, desired, quantity, now).0, desired.id) <==>
        && found == Ok(None) && desired.reduceOnly && desired.quantity > 0.0 && desired.leverage <= s.cfg.maxLeverage
        && (s.cfg.mode == Live ==> s.cfg.liveEnabled && s.cfg.hasApiKey && s.cfg.hasApiSecret)
        && desired.id !in s.requests && Health(a).1 == Ok(true)
  {
    RequestSentExactly(s.(adapter := Lookup(s.adapter, desired.id).0), desired, now);
    hide SubmitRequest, Health, Amend;
  }

  lemma RequestSentExactly(s: Node, order: Order, now: real)
    ensures Sends(s, SubmitRequest(s, order, now).0, order.id) <==>
      && order.reduceOnly && order.quantity > 0.0 && order.leverage <= s.cfg.maxLeverage
      && (s.cfg.mode == Live ==> s.cfg.liveEnabled && s.cfg.hasApiKey && s.cfg.hasApiSecret)
      && order.id !in s.requests && Health(s.adapter).1 == Ok(true)
  {
    var ready := s.(adapter := Health(s.adapter).0, requests := s.requests + {order.id}).Put(PutOrder(order));
    var (t, reply) := Send(ready, order);
    assert |s.log| + 1 < |t.log| && IsSubmit(t.log, |s.log| + 1) && t.log[|s.log| + 1].order == order by { hide Apply; }
    match reply
    case Ok(submitted) =>
      assert t.log <= SettleRequest(t.Put(PutOrder(submitted)), order, submitted).0.log by { hide Apply; }
    case Raise(e) =>
      assert t.log <= ResolveRequest(t.(transportError := e.TransportExn?), order).0.log by { hide Apply, Lookup; }
    hide Send, SettleRequest, ResolveRequest, Apply, Health, Lookup;
    var u := SubmitRequest(s, order, now).0;
    if t.log <= u.log { assert IsSubmit(u.log, |s.log| + 1) && u.log[|s.log| + 1] == t.log[|s.log| + 1]; }
  }

  /**
   What the reply of the exchange makes of a request that is sent. REJECTED and UNKNOWN orders are reported as
   such; after a timeout, a lost connection, a transport error or a ValueError one lookup decides.
   */
  lemma RequestDecides(s: Node, order: Order, now: real)
    requires Requestable(s.cfg, order) && order.id !in s.requests && Health(s.adapter).1 == Ok(true)
    ensures var outcome := SubmitRequest(s, order, now).1;
      var (a, reply) := SubmitOrder(Health(s.adapter).0, order);
      var found := Lookup(a, order.id).1;
      match reply
      case Ok(submitted) =>
        outcome == if submitted.status == Rejected then Outcome(OutRejected, Some(submitted), ProtectionRejected)
                   else if submitted.status == Unknown then Outcome(OutUnknown, Some(submitted), ProtectionRejected)
                   else Outcome(OutSubmitted, Some(submitted), NoReason)
      case Raise(e) =>
        if e == KeyExn || e == RuntimeExn || e == OtherExn then outcome == Raised(e)
        else if found.Ok? && found.value.Some? then outcome == Outcome(OutReconciled, found.value, SubmissionReconciled)
        else if found.Ok? || found.exn == TimeoutExn || found.exn == ConnectionExn || found.exn == TransportExn then
          outcome == Outcome(OutUnknown, None, SubmissionUnknown)
        else outcome == Raised(found.exn)
  {
    hide Apply, LatestGood, Lookup, SubmitOrder, Health;
  }

  /** A request that is not sent says why: checks first, then the request set, then the exchange. */
  lemma RequestRefusedExactly(s: Node, order: Order, now: real)
    ensures var (t, outcome) := SubmitRequest(s, order, now);
      && (!order.reduceOnly ==> t == s && outcome == Outcome(OutRejected, None, DirectEntry))
      && (order.reduceOnly && s.cfg.mode == Live && !(s.cfg.liveEnabled && s.cfg.hasApiKey && s.cfg.hasApiSecret) ==>
          t == s && outcome == Outcome(OutRejected, None, ModeDisabled))
      && (order.reduceOnly && AllowsSubmission(s.cfg) && (order.leverage > s.cfg.maxLeverage || order.quantity <= 0.0)
          ==> t == s && outcome == Outcome(OutRejected, None, InvalidOrder))
      && (Requestable(s.cfg, order) && order.id in s.requests ==>
          var (a, found) := Lookup(s.adapter, order.id);
          t == s.(adapter := a)
          && outcome == if found.Ok? then Outcome(OutDuplicate, found.value, DuplicateOrder) else Raised(found.exn))
      && (Requestable(s.cfg, order) && order.id !in s.requests && Health(s.adapter).1 == Ok(false) ==>
          t == s.(adapter := Health(s.adapter).0) && outcome == Outcome(OutRejected, None, ExchangeUnavailable))
  {
    hide Apply, LatestGood, Lookup, Health, SubmitOrder, SettleRequest, ResolveRequest;
  }

  // ---------------------------------------------------------------- across a restart

  /** A healthy exchange that never shows an order it was sent. */
  ghost predicate ShowsNothing(a: Adapter) {
    a.Scripted? && forall call: nat :: a.script(call).lookup == Ok(None) && a.script(call).health == Ok(true)
  }

  /** The synchronization of a booked entry has a stop to place, and may place it. */
  predicate PlacesStop(s: Node, intent: Intent, entry: Order) {
    var plan := Plan(intent, s.adapter.exchange, s.cfg.mode, Fills(s.db.fills, entry.id));
    Fills(s.db.fills, entry.id) > 0.0 && plan.Ok? && plan.value != [] && Requestable(s.cfg, plan.value[0])
  }

  lemma {:induction false} PlaceGrows(s: Node, plan: seq<Order>, k: nat, quantity: real, now: real)
    requires Inv(s) && k <= |plan|
    ensures Inv(Place(s, plan[..k], quantity, now).0)
    ensures Place(s, plan[..k], quantity, now).0.log <= Place(s, plan, quantity, now).0.log
    decreases |plan|
  {
    PlaceKeeps(s, plan[..k], quantity, now);
    PlaceKeeps(s, plan, quantity, now);
    hide PlaceChild, Safe, Replay, StaysAtVenue;
    if k < |plan| {
      var shorter := plan[..|plan| - 1];
      assert shorter[..k] == plan[..k];
      PlaceGrows(s, shorter, k, quantity, now);
      PlaceKeeps(s, shorter, quantity, now);
      PlaceChildKeeps(Place(s, shorter, quantity, now).0, plan[|plan| - 1], quantity, now);
    } else {
      assert plan[..k] == plan;
    }
  }

  lemma StopIsSent(s: Node, intent: Intent, entry: Order, now: real)
    requires Inv(s) && ShowsNothing(s.adapter) && PlacesStop(s, intent, entry)
    requires Stop(EntryIdOf(intent, s.adapter.exchange, s.cfg.mode)) !in s.requests
    ensures Sends(s, Synchronize(s, intent, entry, now).0, Stop(EntryIdOf(intent, s.adapter.exchange, s.cfg.mode)))
  {
    var quantity := Fills(s.db.fills, entry.id);
    var plan := Plan(intent, s.adapter.exchange, s.cfg.mode, quantity).value;
    var stop := plan[0];
    assert stop.id == Stop(EntryIdOf(intent, s.adapter.exchange, s.cfg.mode)) by { hide TargetChildren; }
    FirstChildIsSent(s, stop, quantity, now);
    PlaceGrows(s, plan, 1, quantity, now);
    assert plan[..1] == [stop];
    var first := Place(s, [stop], quantity, now).0;
    SynchronizeGrows(s, intent, entry, now);
    hide Plan, Place, Synchronize, Inv, Requestable, Fills;
    var j: nat :| |s.log| <= j && IsSubmit(first.log, j) && first.log[j].order.id == stop.id;
    var t := Synchronize(s, intent, entry, now).0;
    assert IsSubmit(t.log, j) && t.log[j] == first.log[j];
  }

  lemma FirstChildIsSent(s: Node, stop: Order, quantity: real, now: real)
    requires ShowsNothing(s.adapter) && Requestable(s.cfg, stop) && stop.id !in s.requests
    ensures Sends(s, Place(s, [stop], quantity, now).0, stop.id)
  {
    ChildSentExactly(s, stop, quantity, now);
    var t := ObtainChild(s, stop, quantity, now).0;
    assert t.log <= PlaceChild(s, stop, quantity, now).0.log by { hide ObtainChild, Apply; }
    assert [stop][..0] == [] && Place(s, [], quantity, now) == (s, Ok([]));
    assert Place(s, [stop], quantity, now).0 == PlaceChild(s, stop, quantity, now).0 by { hide PlaceChild; }
    hide Place, PlaceChild, ObtainChild, Requestable;
    var j: nat :| |s.log| <= j && IsSubmit(t.log, j) && t.log[j].order.id == stop.id;
    assert IsSubmit(Place(s, [stop], quantity, now).0.log, j);
  }

  lemma SynchronizeGrows(s: Node, intent: Intent, entry: Order, now: real)
    requires PlacesStop(s, intent, entry)
    ensures var quantity := Fills(s.db.fills, entry.id);
      Place(s, Plan(intent, s.adapter.exchange, s.cfg.mode, quantity).value, quantity, now).0.log <=
        Synchronize(s, intent, entry, now).0.log
  {
    hide Plan, Place, Verified, Apply, Fills, Requestable;
  }

  ghost predicate Twice(log: seq<Event>, id: OrderId) {
    exists i: nat, j: nat :: i < j && IsSubmit(log, i) && IsSubmit(log, j) && log[i].order.id == log[j].order.id == id
  }

  lemma SentTwice(r: Node, s: Node, t: Node, id: OrderId)
    requires Sends(r, s, id) && Sends(s, t, id) && s.log <= t.log
    ensures Twice(t.log, id)
  {
    var i: nat :| |r.log| <= i && IsSubmit(s.log, i) && s.log[i].order.id == id;
    var j: nat :| |s.log| <= j && IsSubmit(t.log, j) && t.log[j].order.id == id;
    assert i < j && IsSubmit(t.log, i) && t.log[i] == s.log[i];
  }

  /** A process that boots on a log cut anywhere in a synchronization finds the same fills. */
  lemma CutKeepsFills(s: Node, intent: Intent, entry: Order, now: real, first: nat, adapter: Adapter)
    requires Inv(s) && |s.log| <= first <= |Synchronize(s, intent, entry, now).0.log|
    ensures var boot := Boot(s.cfg, Synchronize(s, intent, entry, now).0.log[..first], adapter);
      Inv(boot) && boot.db.fills == s.db.fills && boot.cfg == s.cfg && boot.adapter == adapter && boot.requests == {}
  {
    SynchronizeKeeps(s, intent, entry, now);
    var log := Synchronize(s, intent, entry, now).0.log;
    SafePrefix(log, first);
    assert log[..first][..|s.log|] == s.log;
    hide Synchronize, Safe, Replay, StaysAtVenue;
    QuietLog(log[..first], |s.log|);
  }

  lemma SynchronizedTwice(s: Node, boot: Node, intent: Intent, entry: Order, now: real, id: OrderId)
    requires Inv(boot) && boot.requests == {} && boot.db.fills == s.db.fills && boot.cfg == s.cfg
    requires boot.adapter.exchange == s.adapter.exchange && ShowsNothing(boot.adapter) && PlacesStop(s, intent, entry)
    requires id == Stop(EntryIdOf(intent, s.adapter.exchange, s.cfg.mode)) && Sends(s, boot, id)
    ensures Twice(Synchronize(boot, intent, entry, now).0.log, id)
  {
    assert PlacesStop(boot, intent, entry) by { hide Plan, Fills, Requestable; }
    hide PlacesStop, Fills, ShowsNothing;
    StopIsSent(boot, intent, entry, now);
    SynchronizeKeeps(boot, intent, entry, now);
    hide Synchronize, Inv, Sends, Twice, Safe, Replay, StaysAtVenue;
    SentTwice(s, boot, Synchronize(boot, intent, entry, now).0, id);
  }

  /**
   An exchange that never shows an order: from any reachable process, a crash anywhere in the
   synchronization after the stop went out, a restart, and the next synchronization sends it
   again, although its order row has been on disk since before the first time.
   */
  lemma StopSentTwice(w: World, intent: Intent, entry: Order, t0: real, t1: real, kept: nat, adapter: Adapter)
    requires WorldInv(w) && ShowsNothing(w.node.adapter) && PlacesStop(w.node, intent, entry)
    requires Stop(EntryIdOf(intent, w.node.adapter.exchange, w.node.cfg.mode)) !in w.node.requests
    requires adapter.exchange == w.node.adapter.exchange && ShowsNothing(adapter)
    ensures var id := Stop(EntryIdOf(intent, w.node.adapter.exchange, w.node.cfg.mode));
      var crashed := Exec(w, Crash(DoSynchronize(intent, entry, t0), kept, w.node.cfg, adapter));
      && (Sends(w.node, crashed.node, id) ==> Twice(Exec(crashed, DoSynchronize(intent, entry, t1)).node.log, id))
      && (kept == |Exec(w, DoSynchronize(intent, entry, t0)).node.log| ==> Sends(w.node, crashed.node, id))
  {
    var s, t := w.node, Synchronize(w.node, intent, entry, t0).0;
    var first := if |s.log| <= kept <= |t.log| then kept else |t.log|;
    var id := Stop(EntryIdOf(intent, s.adapter.exchange, s.cfg.mode));
    SynchronizeKeeps(s, intent, entry, t0);
    CutSynchronization(w, intent, entry, t0, t1, kept, adapter);
    hide Exec, Synchronize, Replay, PlacesStop, ShowsNothing, Safe, StaysAtVenue;
    CutKeepsFills(s, intent, entry, t0, first, adapter);
    StopIsSent(s, intent, entry, t0);
    var boot := Boot(s.cfg, t.log[..first], adapter);
    assert boot.log == t.log[..first];
    hide Inv, Boot, Continues, Sends, Twice;
    if Sends(s, boot, id) { SynchronizedTwice(s, boot, intent, entry, t1, id); }
    if first == |t.log| { SameLogSends(s, t, boot, id); }
  }

  lemma SameLogSends(s: Node, t: Node, u: Node, id: OrderId)
    requires t.log == u.log && Sends(s, t, id)
    ensures Sends(s, u, id)
  {}

  lemma CutSynchronization(w: World, intent: Intent, entry: Order, t0: real, t1: real, kept: nat, adapter: Adapter)
    requires WorldInv(w)
    ensures var t := Synchronize(w.node, intent, entry, t0).0;
      var first := if |w.node.log| <= kept <= |t.log| then kept else |t.log|;
      var crashed := Exec(w, Crash(DoSynchronize(intent, entry, t0), kept, w.node.cfg, adapter));
      && Exec(w, DoSynchronize(intent, entry, t0)).node == t
      && crashed.node == Boot(w.node.cfg, t.log[..first], adapter)
      && Exec(crashed, DoSynchronize(intent, entry, t1)).node == Synchronize(crashed.node, intent, entry, t1).0
  {
    hide Synchronize, Replay, Inv, SubmitIntent, Consume, Accept, Recover, SubmitRequest, ReconcileWith, ConfirmFill;
  }

  /**
   The same from an empty ledger: a fill is reported, and its protection synchronized, cut off, and synchronized
   again.
   */
  lemma StopSentTwiceFromEmpty(cfg: Config, a: Adapter, b: Adapter, risk: RiskConfig, capacity: nat,
                               intent: Intent, entry: Order, t0: real, t1: real, t2: real)
    requires ValidConfig(risk) && ShowsNothing(a) && ShowsNothing(b) && a.exchange == b.exchange
    requires Bookable(entry) && entry.id == EntryIdOf(intent, a.exchange, cfg.mode)
    requires var plan := Plan(intent, a.exchange, cfg.mode, entry.filled);
      plan.Ok? && plan.value != [] && Requestable(cfg, plan.value[0])
    ensures var w := Run(Initial(cfg, a, risk, capacity), [DoConfirm(entry, t0)]);
      var kept := |Exec(w, DoSynchronize(intent, entry, t1)).node.log|;
      Twice(Run(w, [Crash(DoSynchronize(intent, entry, t1), kept, cfg, b), DoSynchronize(intent, entry, t2)]).node.log,
            Stop(entry.id))
  {
    var start := Initial(cfg, a, risk, capacity);
    InitialRun(cfg, a, risk, capacity, [DoConfirm(entry, t0)]);
    RunOne(start, DoConfirm(entry, t0));
    var w := Run(start, [DoConfirm(entry, t0)]);
    assert w.node == ConfirmFill(start.node, entry, t0).0;
    ReportedFromEmpty(start.node, entry, t0);
    assert start.node.requests == {} && start.node.cfg == cfg && start.node.adapter == a && start.node.db == EMPTY_DB;
    hide Initial, ConfirmFill, ShowsNothing, Plan, Fills, Bookable, Requestable;
    assert PlacesStop(w.node, intent, entry);
    var kept := |Exec(w, DoSynchronize(intent, entry, t1)).node.log|;
    hide Run, PlacesStop;
    StopSentTwice(w, intent, entry, t1, t2, kept, b);
    var crash := Crash(DoSynchronize(intent, entry, t1), kept, cfg, b);
    RunOne(w, crash);
    RunTwo(w, crash, DoSynchronize(intent, entry, t2));
    hide Exec, Twice, Sends;
  }

  lemma ReportedFromEmpty(s: Node, entry: Order, now: real)
    requires s.db == EMPTY_DB && Bookable(entry)
    ensures var t := ConfirmFill(s, entry, now).0;
      Fills(t.db.fills, entry.id) == entry.filled && t.requests == s.requests && t.cfg == s.cfg
      && t.adapter == s.adapter
  {
    assert Fills([], entry.id) == 0.0;
    BookedReport(s, entry, now);
    var fill := FillOf(s, entry, now);
    FillsAppend([], fill, entry.id, entry.symbol);
    assert !KnownFill([], fill) && [] + [fill] == [fill];
    hide Replay, Fills, KnownFill;
  }
}
