/**
 What every command of the process reports, read off the exchange's answers, and that it
 books exactly that: by at most one fill row, which a crash cuts off or keeps.
 */
module CommandReports {
  import opened Arithmetic
  import opened Optional
  import opened ExecutionModel
  import opened ExecutionAdapter
  import opened CoordinatorSpec
  import opened ConsumerSpec
  import opened ExecutionSafety
  import opened Risk
  import opened FillRows

  // ---------------------------------------------------------------- what a command reports

  /** A bookable cumulative quantity that reached process_confirmed_fill, with its time. */
  datatype Report = Nothing | Report(order: Order, at: real)

  function Confirmed(order: Order, now: real): Report {
    if Bookable(order) then Report(order, now) else Nothing
  }

  /** The exchange's answer to the submission of an entry, when the intent gets that far. */
  function Answered(s: Node, intent: Intent, asOf: Option<real>, now: real): Option<Order> {
    var order := FromIntent(intent, s.adapter.exchange, s.cfg.mode);
    if StaticRefusal(s, intent, asOf, now).Some? || order.Raise?
       || order.value.id in s.requests || order.value.id in s.db.orders then None
    else
      var (a, health) := Health(s.adapter);
      var (b, account) := Account(a);
      if health.Raise? || !health.value || account.Raise? || AccountRefusal(s.cfg, intent, account.value).Some?
      then None
      else AnswerTo(b, order.value)
  }

  function AnswerTo(a: Adapter, order: Order): Option<Order> {
    var reply := SubmitOrder(a, order).1;
    if reply.Ok? then Some(reply.value) else None
  }

  function SubmitReport(s: Node, intent: Intent, asOf: Option<real>, now: real): Report {
    AnswerReport(Answered(s, intent, asOf, now), now)
  }

  function AnswerReport(answer: Option<Order>, now: real): Report {
    if answer.None? || answer.value.status.Rejected? || answer.value.status.Unknown? then Nothing
    else Confirmed(answer.value, now)
  }

  /** The exchange's answer to recover()'s question for the order. */
  function RecoverReport(s: Node, intent: Intent, orderId: Option<OrderId>, now: real): Report {
    if orderId.None? && intent.quantity <= 0.0 then Nothing
    else RebuildReport(s, if orderId.Some? then orderId.value
                       else EntryIdOf(intent, s.adapter.exchange, s.cfg.mode), now)
  }

  function RebuildReport(s: Node, asked: OrderId, now: real): Report {
    var found := Lookup(s.adapter, asked).1;
    if found.Ok? && found.value.Some? && !found.value.value.status.Unknown? then Confirmed(found.value.value, now)
    else Nothing
  }

  /** The consumer has an intent to hand to the coordinator. */
  predicate TakesTurn(w: World) { w.running && !w.dead && w.queue != [] && w.queue[0].intent.quantity > 0.0 }

  /** The report of a command; one that a crash cut off before its fill row was written does not count. */
  function ReportOf(w: World, command: Command): Report
    requires ValidConfig(w.risk)
  {
    match command
    case DoSubmit(intent, asOf, now) => SubmitReport(w.node, intent, asOf, now)
    case DoConfirm(order, now) => Confirmed(order, now)
    case DoRecover(intent, id, now) => RecoverReport(w.node, intent, id, now)
    case DoConsume =>
      if !TakesTurn(w) then Nothing
      else
        var item := w.queue[0];
        var id := EntryIdOf(item.intent, w.node.adapter.exchange, w.node.cfg.mode);
        SubmitReport(SetStatus(w.node, id, Processing), item.intent, item.asOf, item.now)
    case Crash(during, kept, _, _) =>
      var log := Exec(w, during).node.log;
      var first := if |w.node.log| <= kept <= |log| then kept else |log|;
      if exists i | |w.node.log| <= i < first :: log[i].PutFill? then ReportOf(w, during) else Nothing
    case _ => Nothing
  }

  /** The report a command makes, whether or not a crash cuts it off. */
  function Made(w: World, command: Command): Report
    requires ValidConfig(w.risk)
  {
    if command.Crash? then Made(w, command.during) else ReportOf(w, command)
  }

  /** A clock of None asks nothing of the times. */
  predicate Later(clock: Option<real>, at: real) { clock.Some? ==> clock.value < at }

  function Tick(report: Report, clock: Option<real>): Option<real> {
    if report.Report? && clock.Some? then Some(report.at) else clock
  }

  function Raised(total: real, report: Report, id: OrderId): real {
    if report.Report? && report.order.id == id then Max(total, report.order.filled) else total
  }

  function ClockAfter(w: World, commands: seq<Command>, start: Option<real>): Option<real>
    requires ValidConfig(w.risk)
  {
    if commands == [] then start
    else
      var before := commands[..|commands| - 1];
      Tick(ReportOf(Run(w, before), commands[|commands| - 1]), ClockAfter(w, before, start))
  }

  /** Every report of the run carries a later time than those that were booked before. */
  predicate Ticking(w: World, commands: seq<Command>, start: Option<real>)
    requires ValidConfig(w.risk)
  {
    commands != [] ==>
      var before := commands[..|commands| - 1];
      var report := Made(Run(w, before), commands[|commands| - 1]);
      Ticking(w, before, start) && (report.Report? ==> Later(ClockAfter(w, before, start), report.at))
  }

  function LargestReport(w: World, commands: seq<Command>, id: OrderId, start: real): real
    requires ValidConfig(w.risk)
  {
    if commands == [] then start
    else
      var before := commands[..|commands| - 1];
      Raised(LargestReport(w, before, id, start), ReportOf(Run(w, before), commands[|commands| - 1]), id)
  }

  // ---------------------------------------------------------------- every command books its report

  predicate Before(fills: seq<Fill>, clock: real) { forall f | f in fills :: f.time <= clock }

  ghost predicate Kept(s: Node, clock: Option<real>) {
    Inv(s) && (clock.Some? ==> FreshRows(s.log) && Before(s.db.fills, clock.value))
  }

  ghost predicate OneFillSince(log: seq<Event>, n: nat) {
    forall i, j | n <= i < |log| && n <= j < |log| && log[i].PutFill? && log[j].PutFill? :: i == j
  }

  /** From `s` to `t` the largest quantity written for `id` rises to the report, by at most one fill row. */
  ghost predicate Books(s: Node, t: Node, report: Report, clock: Option<real>, id: OrderId) {
    && Kept(t, Tick(report, clock)) && LargestRow(t.log, id) == Raised(LargestRow(s.log, id), report, id)
    && s.log <= t.log && OneFillSince(t.log, |s.log|)
  }

  lemma KeptIsInv(s: Node, clock: Option<real>)
    requires Kept(s, clock)
    ensures Inv(s)
  {}

  lemma SilentKept(s: Node, t: Node, clock: Option<real>)
    requires Kept(s, clock) && Silent(s, t)
    ensures Kept(t, clock)
  {
    if clock.Some? { SilentStaysFresh(s.log, t.log); }
    hide FreshRows, StaysAtVenue, Safe, Replay;
  }

  /** A call that only moves the exchange on, or sets a field that is not stored. */
  lemma SameRecords(s: Node, t: Node, clock: Option<real>, id: OrderId)
    requires Kept(s, clock) && t.log == s.log && t.db == s.db && t.recovery == s.recovery && t.memory == s.memory
    ensures Kept(t, clock) && Books(s, t, Nothing, clock, id)
  {
    hide FreshRows, LargestRow, Safe, Replay;
  }

  lemma SilentRows(s: Node, t: Node, id: OrderId)
    requires Silent(s, t)
    ensures s.log <= t.log && NoFillSince(t.log, |s.log|) && LargestRow(t.log, id) == LargestRow(s.log, id)
  {
    hide Safe, Replay, StaysAtVenue, LargestRow;
    assert t.log[..|s.log|] == s.log;
    QuietRows(t.log, |s.log|, id);
  }

  lemma SilentBooks(s: Node, t: Node, clock: Option<real>, id: OrderId)
    requires Kept(s, clock) && Silent(s, t)
    ensures Kept(t, clock) && Books(s, t, Nothing, clock, id)
  {
    SilentKept(s, t, clock);
    SilentRows(s, t, id);
    hide FreshRows, Inv, Silent, LargestRow, Kept;
  }

  /** A silent step before or after a booking step is part of it. */
  lemma SilentThenBooks(s: Node, t: Node, u: Node, report: Report, clock: Option<real>, id: OrderId)
    requires Kept(s, clock) && Silent(s, t) && Books(t, u, report, clock, id)
    ensures Books(s, u, report, clock, id)
  {
    SilentRows(s, t, id);
    hide FreshRows, Inv, Silent, LargestRow, Kept;
    assert u.log[..|t.log|] == t.log;
  }

  lemma BooksThenSilent(s: Node, t: Node, u: Node, report: Report, clock: Option<real>, id: OrderId)
    requires Books(s, t, report, clock, id) && Silent(t, u)
    ensures Books(s, u, report, clock, id)
  {
    SilentKept(t, u, Tick(report, clock));
    SilentRows(t, u, id);
    hide FreshRows, Inv, Silent, LargestRow, Kept;
    assert u.log[..|t.log|] == t.log;
  }

  lemma BooksIsInv(s: Node, t: Node, report: Report, clock: Option<real>, id: OrderId)
    requires Books(s, t, report, clock, id)
    ensures Inv(t)
  {}

  lemma ConfirmBooks(s: Node, order: Order, now: real, clock: Option<real>, id: OrderId)
    requires Kept(s, clock) && (Bookable(order) ==> Later(clock, now))
    ensures Books(s, ConfirmFill(s, order, now).0, Confirmed(order, now), clock, id)
  {
    ConfirmFillKeeps(s, order, now);
    if Bookable(order) && order.filled > Fills(s.db.fills, order.id) {
      WritesOne(s, order, now);
      var t := ConfirmFill(s, order, now).0;
      hide ConfirmFill, Inv, Kept, Books, KnownFill, Fills, Replay;
      RowBooks(s, t, t.log[|s.log|], order, now, clock, id);
    } else {
      var t := ConfirmFill(s, order, now).0;
      ReconKeeps(s, order.symbol, Unclear);
      assert t == s || t == s.Suspect(order.symbol);
      RowsHoldMaximum(s.log, order.id);
      hide ConfirmFill, FreshRows, Inv, StaysAtVenue, LargestRow, Fills, Replay;
      if t == s { SameRecords(s, t, clock, id); } else { SilentBooks(s, t, clock, id); }
      LateReport(s, t, order, now, clock, id);
    }
  }

  /** A report that is not ahead of the ledger raises nothing. */
  lemma LateReport(s: Node, t: Node, order: Order, now: real, clock: Option<real>, id: OrderId)
    requires Books(s, t, Nothing, clock, id)
             && (Bookable(order) ==> Later(clock, now) && order.filled <= LargestRow(s.log, order.id))
    ensures Books(s, t, Confirmed(order, now), clock, id)
  {
    hide FreshRows, Inv, LargestRow;
  }

  /** One row for `order`, at a later time and with its whole quantity as position. */
  lemma RowBooks(s: Node, t: Node, event: Event, order: Order, now: real, clock: Option<real>, id: OrderId)
    requires Kept(s, clock) && Later(clock, now) && Inv(t)
    requires event.PutFill? && event.fill.time == now && event.fill.orderId == order.id
             && event.position.quantity == order.filled
    requires t.log == s.log + [event]
             && t.db.fills == (if KnownFill(s.db.fills, event.fill) then s.db.fills else s.db.fills + [event.fill])
    ensures Books(s, t, Report(order, now), clock, id)
  {
    RowsAppend(s.log, event, id);
    if clock.Some? { AheadIsFresh(s, t, event, clock.value, now); }
    hide FreshRows, Before, Inv, LargestRow, KnownFill;
  }

  lemma RowsAppend(log: seq<Event>, event: Event, id: OrderId)
    ensures LargestRow(log + [event], id) ==
            if event.PutFill? && event.fill.orderId == id then Max(LargestRow(log, id), event.position.quantity)
            else LargestRow(log, id)
  {
    assert (log + [event])[..|log|] == log;
  }

  /** A row of a later time has a free id. */
  lemma AheadIsFresh(s: Node, t: Node, event: Event, clock: real, now: real)
    requires Kept(s, Some(clock)) && clock < now && event.PutFill? && event.fill.time == now
    requires t.log == s.log + [event]
             && t.db.fills == (if KnownFill(s.db.fills, event.fill) then s.db.fills else s.db.fills + [event.fill])
    ensures FreshRows(t.log) && Before(t.db.fills, now)
  {
    hide Safe, VenueLog, Replay;
    assert !KnownFill(s.db.fills, event.fill);
    FreshAppend(s.log, event);
    hide FreshRows, KnownFill;
  }

  /** A report ahead of the ledger writes one row. */
  lemma WritesOne(s: Node, order: Order, now: real)
    requires Bookable(order) && order.filled > Fills(s.db.fills, order.id)
    ensures var (t, fill) := (ConfirmFill(s, order, now).0, FillOf(s, order, now));
      var position := Position(order.symbol, if order.side.Buy? then Long else Short,
                               order.filled, FillPrice(order), true);
      && t.log == s.log + [PutFill(fill, position, if order.status.Filled? then Match else Unclear)]
      && t.db.fills == (if KnownFill(s.db.fills, fill) then s.db.fills else s.db.fills + [fill])
  {
    BookedReport(s, order, now);
    hide Replay, Fills, KnownFill, Apply;
  }

  lemma SettleReaches(s: Node, intent: Intent, order: Order, submitted: Order, now: real)
    ensures var (t, r) := (ConfirmFill(s, submitted, now).0, Settle(s, intent, order, submitted, now).0);
      if submitted.status.Rejected? || submitted.status.Unknown? then r == s || r == s.Suspect(order.symbol)
      else r == t || r == Synchronize(t, intent, submitted, now).0
  {
    hide ConfirmFill, Synchronize, Replay;
  }

  lemma SettleBooks(s: Node, intent: Intent, order: Order, submitted: Order, now: real, clock: Option<real>,
                    id: OrderId)
    requires Kept(s, clock) && (AnswerReport(Some(submitted), now).Report? ==> Later(clock, now))
    ensures Books(s, Settle(s, intent, order, submitted, now).0, AnswerReport(Some(submitted), now), clock, id)
  {
    SettleReaches(s, intent, order, submitted, now);
    hide Settle, Kept, Books, Silent, Inv, Bookable, Replay, ConfirmFill, Synchronize;
    if submitted.status.Rejected? || submitted.status.Unknown? {
      SuspectBooks(s, s, order.symbol, clock, id);
      SameRecords(s, s, clock, id);
    } else {
      ConfirmBooks(s, submitted, now, clock, id);
      var t := ConfirmFill(s, submitted, now).0;
      BooksIsInv(s, t, Confirmed(submitted, now), clock, id);
      SynchronizeKeeps(t, intent, submitted, now);
      hide Confirmed;
      BooksThenSilent(s, t, Synchronize(t, intent, submitted, now).0, Confirmed(submitted, now), clock, id);
    }
  }

  lemma TransmitBooks(s: Node, intent: Intent, order: Order, now: real, clock: Option<real>, id: OrderId)
    requires Kept(s, clock) && s.recovery.Ready? && !IsKilled(s.db) && order.id !in s.db.orders
    requires order.id == EntryIdOf(intent, s.adapter.exchange, s.cfg.mode)
    requires AnswerReport(AnswerTo(s.adapter, order), now).Report? ==> Later(clock, now)
    ensures Books(s, Transmit(s, intent, order, now).0, AnswerReport(AnswerTo(s.adapter, order), now), clock, id)
  {
    KeptIsInv(s, clock);
    AheadIsSilent(s, intent, order, now);
    var (t, reply) := Send(WriteAhead(s, intent, order, now), order);
    hide Kept, Books, Silent, Inv, Replay, Apply, WriteAhead, Settle, ResolveTimeout, SubmitOrder, Send;
    match reply
    case Ok(submitted) =>
      var u := t.Put(PutOrder(submitted));
      SilentKept(s, u, clock);
      SettleBooks(u, intent, order, submitted, now, clock, id);
      hide AnswerReport;
      SilentThenBooks(s, u, Settle(u, intent, order, submitted, now).0, AnswerReport(Some(submitted), now), clock, id);
    case Raise(e) =>
      var u := t.(transportError := e.TransportExn?);
      SilentBooks(s, t, clock, id);
      TimeoutBooks(s, t, u, order, clock, id);
      TimeoutBooks(s, t, t, order, clock, id);
  }

  lemma TimeoutBooks(s: Node, t: Node, u: Node, order: Order, clock: Option<real>, id: OrderId)
    requires Kept(s, clock) && Silent(s, t) && u == t.(transportError := u.transportError)
    ensures Books(s, ResolveTimeout(u, order).0, Nothing, clock, id)
  {
    hide Safe, Replay, VenueLog, FreshRows, Fills;
    SilentBooks(s, t, clock, id);
    assert Silent(s, u);
    KeptIsInv(t, clock);
    assert Inv(u);
    ResolveTimeoutKeeps(u, order);
    hide Inv, Kept, ResolveTimeout;
    SilentTransitive(s, u, ResolveTimeout(u, order).0);
    hide Silent, Books;
    SilentBooks(s, ResolveTimeout(u, order).0, clock, id);
  }

  /** Up to and including the submission, and the storing of its answer, nothing is booked. */
  lemma AheadIsSilent(s: Node, intent: Intent, order: Order, now: real)
    requires Inv(s) && s.recovery.Ready? && !IsKilled(s.db) && order.id !in s.db.orders
    requires order.id == EntryIdOf(intent, s.adapter.exchange, s.cfg.mode)
    ensures var (t, reply) := Send(WriteAhead(s, intent, order, now), order);
      && reply == SubmitOrder(s.adapter, order).1 && Silent(s, t)
      && (reply.Ok? ==> Silent(s, t.Put(PutOrder(reply.value))))
  {
    WriteAheadKeeps(s, intent, order, now);
    var ahead := WriteAhead(s, intent, order, now);
    assert ahead.adapter == s.adapter && LatestGood(ahead.db) && !IsKilled(ahead.db);
    hide Replay, Apply, Safe, VenueLog, WriteAhead, LatestGood;
    SendKeeps(ahead, order);
    var (t, reply) := Send(ahead, order);
    assert reply == SubmitOrder(s.adapter, order).1;
    hide Send, SubmitOrder;
    SilentTransitive(s, ahead, t);
    if reply.Ok? {
      RowKeeps(t, PutOrder(reply.value));
      SilentTransitive(s, t, t.Put(PutOrder(reply.value)));
    }
  }

  lemma AdmitBooks(s: Node, intent: Intent, order: Order, asOf: Option<real>, now: real, clock: Option<real>,
                   id: OrderId)
    requires Kept(s, clock) && StaticRefusal(s, intent, asOf, now).None?
    requires FromIntent(intent, s.adapter.exchange, s.cfg.mode) == Ok(order)
    requires SubmitReport(s, intent, asOf, now).Report? ==> Later(clock, now)
    ensures Books(s, Admit(s, intent, order, now).0, SubmitReport(s, intent, asOf, now), clock, id)
  {
    assert s.recovery.Ready? && !IsKilled(s.db);
    hide StaticRefusal, AccountRefusal, IsKilled;
    if order.id in s.requests || order.id in s.db.orders {
      var u := s.(adapter := Lookup(s.adapter, order.id).0);
      SameRecords(s, u, clock, id);
      SuspectBooks(s, u, order.symbol, clock, id);
      hide Kept, Books, Lookup;
    } else {
      var (a, health) := Health(s.adapter);
      var (b, account) := Account(a);
      SameRecords(s, s.(adapter := a), clock, id);
      var t := s.(adapter := b);
      SameRecords(s, t, clock, id);
      hide Kept, Transmit, AnswerReport, AnswerTo, Health, Account;
      if health.Ok? && health.value && account.Ok? && AccountRefusal(s.cfg, intent, account.value).None? {
        TransmitBooks(t, intent, order, now, clock, id);
        assert Books(s, Transmit(t, intent, order, now).0, SubmitReport(s, intent, asOf, now), clock, id);
      }
      hide Books;
    }
  }

  lemma SuspectBooks(s: Node, u: Node, symbol: Symbol, clock: Option<real>, id: OrderId)
    requires Kept(s, clock) && u == s.(adapter := u.adapter)
    ensures Books(s, u.Suspect(symbol), Nothing, clock, id)
  {
    SameRecords(s, u, clock, id);
    KeptIsInv(u, clock);
    ReconKeeps(u, symbol, Unclear);
    SilentBooks(u, u.Suspect(symbol), clock, id);
    hide Kept, Silent, Inv;
  }

  lemma SubmitBooks(s: Node, intent: Intent, asOf: Option<real>, now: real, clock: Option<real>, id: OrderId)
    requires Kept(s, clock) && (SubmitReport(s, intent, asOf, now).Report? ==> Later(clock, now))
    ensures Books(s, SubmitIntent(s, intent, asOf, now).0, SubmitReport(s, intent, asOf, now), clock, id)
  {
    SameRecords(s, s, clock, id);
    var order := FromIntent(intent, s.adapter.exchange, s.cfg.mode);
    if StaticRefusal(s, intent, asOf, now).None? && order.Ok? {
      AdmitBooks(s, intent, order.value, asOf, now, clock, id);
      hide Books, Kept, Admit, SubmitReport, StaticRefusal;
    } else {
      assert Answered(s, intent, asOf, now).None?;
      hide Books, Kept, Admit, StaticRefusal, Answered;
    }
  }

  lemma RecoverBooks(s: Node, intent: Intent, orderId: Option<OrderId>, now: real, clock: Option<real>, id: OrderId)
    requires Kept(s, clock) && (RecoverReport(s, intent, orderId, now).Report? ==> Later(clock, now))
    ensures Books(s, Recover(s, intent, orderId, now).0, RecoverReport(s, intent, orderId, now), clock, id)
  {
    if orderId.None? && intent.quantity <= 0.0 {
      SameRecords(s, s, clock, id);
      hide Books, Kept;
    } else {
      var asked := if orderId.Some? then orderId.value else EntryIdOf(intent, s.adapter.exchange, s.cfg.mode);
      RebuildBooks(s, intent, asked, now, clock, id);
      var t, report := Rebuild(s, intent, asked, now).0, RebuildReport(s, asked, now);
      BooksIsInv(s, t, report, clock, id);
      ReconKeeps(t, intent.symbol, Unclear);
      hide Books, Kept, Silent, Inv, Rebuild, RebuildReport;
      BooksThenSilent(s, t, t.Suspect(intent.symbol), report, clock, id);
    }
  }

  lemma RebuildBooks(s: Node, intent: Intent, asked: OrderId, now: real, clock: Option<real>, id: OrderId)
    requires Kept(s, clock) && (RebuildReport(s, asked, now).Report? ==> Later(clock, now))
    ensures Books(s, Rebuild(s, intent, asked, now).0, RebuildReport(s, asked, now), clock, id)
  {
    hide Kept, Books, ConfirmFill, Synchronize, ComparePosition, Confirmed, Apply;
    var (a, found) := Lookup(s.adapter, asked);
    var t := s.(adapter := a);
    SameRecords(s, t, clock, id);
    if found.Ok? && found.value.Some? && !found.value.value.status.Unknown? {
      RemoteBooks(s, t, intent, found.value.value, now, clock, id);
    }
    hide Lookup;
  }

  /** What recover() does with an order that the exchange knows. */
  lemma RemoteBooks(s: Node, t: Node, intent: Intent, remote: Order, now: real, clock: Option<real>, id: OrderId)
    requires Kept(s, clock) && t == s.(adapter := t.adapter) && (Confirmed(remote, now).Report? ==> Later(clock, now))
    ensures var u := ConfirmFill(t.Put(PutOrder(remote)), remote, now).0;
      var v := Synchronize(u, intent, remote, now).0;
      && Books(s, u, Confirmed(remote, now), clock, id) && Books(s, v, Confirmed(remote, now), clock, id)
      && Books(s, ComparePosition(u, remote).0, Confirmed(remote, now), clock, id)
      && Books(s, ComparePosition(v, remote).0, Confirmed(remote, now), clock, id)
  {
    SameRecords(s, t, clock, id);
    KeptIsInv(t, clock);
    RowKeeps(t, PutOrder(remote));
    var r, report := t.Put(PutOrder(remote)), Confirmed(remote, now);
    SilentKept(t, r, clock);
    ConfirmBooks(r, remote, now, clock, id);
    var u := ConfirmFill(r, remote, now).0;
    SilentThenBooks(t, r, u, report, clock, id);
    assert Books(s, u, report, clock, id);
    hide Kept, Books, Silent, ConfirmFill, Confirmed, Synchronize, ComparePosition, Apply, Replay;
    BooksIsInv(s, u, report, clock, id);
    hide Inv;
    SynchronizeKeeps(u, intent, remote, now);
    var v := Synchronize(u, intent, remote, now).0;
    BooksThenSilent(s, u, v, report, clock, id);
    BooksIsInv(s, v, report, clock, id);
    ComparePositionKeeps(u, remote);
    BooksThenSilent(s, u, ComparePosition(u, remote).0, report, clock, id);
    ComparePositionKeeps(v, remote);
    BooksThenSilent(s, v, ComparePosition(v, remote).0, report, clock, id);
  }

  lemma TurnReaches(w: World)
    ensures if !TakesTurn(w) then Consume(w).node == w.node
      else
        var item := w.queue[0];
        var key := EntryIdOf(item.intent, w.node.adapter.exchange, w.node.cfg.mode);
        var (t, outcome) := SubmitIntent(SetStatus(w.node, key, Processing), item.intent, item.asOf, item.now);
        Consume(w).node == if outcome.Outcome? then SetStatus(t, key, StatusOf(outcome)) else t
  {
    hide SetStatus, SubmitIntent;
    if TakesTurn(w) {
      var item := w.queue[0];
      var key := EntryIdOf(item.intent, w.node.adapter.exchange, w.node.cfg.mode);
      var outcome := SubmitIntent(SetStatus(w.node, key, Processing), item.intent, item.asOf, item.now).1;
      assert outcome.Outcome? || outcome.Raised?;
    }
  }

  lemma ConsumeBooks(w: World, clock: Option<real>, id: OrderId)
    requires WorldInv(w) && Kept(w.node, clock)
    requires ReportOf(w, DoConsume).Report? ==> Later(clock, ReportOf(w, DoConsume).at)
    ensures Books(w.node, Consume(w).node, ReportOf(w, DoConsume), clock, id)
  {
    hide Consume, Books, Kept, SubmitIntent, SubmitReport, Inv, SetStatus, Replay, Exec, FreshRows, LargestRow,
         IsKilled;
    SameRecords(w.node, w.node, clock, id);
    TurnReaches(w);
    if TakesTurn(w) {
      var item := w.queue[0];
      var key := EntryIdOf(item.intent, w.node.adapter.exchange, w.node.cfg.mode);
      var s := SetStatus(w.node, key, Processing);
      ReportedNow(s, item.intent, item.asOf, item.now);
      StatusTurnBooks(w.node, item, key, clock, id);
    }
  }

  /** The turn between its two status rows. */
  lemma StatusTurnBooks(r: Node, item: Item, key: OrderId, clock: Option<real>, id: OrderId)
    requires Inv(r) && Kept(r, clock)
    requires var report := SubmitReport(SetStatus(r, key, Processing), item.intent, item.asOf, item.now);
      report.Report? ==> Later(clock, item.now)
    ensures var s := SetStatus(r, key, Processing);
      var (report, (t, outcome)) := (SubmitReport(s, item.intent, item.asOf, item.now),
                                     SubmitIntent(s, item.intent, item.asOf, item.now));
      Books(r, t, report, clock, id)
      && (outcome.Outcome? ==> Books(r, SetStatus(t, key, StatusOf(outcome)), report, clock, id))
  {
    hide Books, Kept, Silent, SubmitIntent, SubmitReport, Inv, SetStatus;
    SetStatusKeeps(r, key, Processing);
    var s := SetStatus(r, key, Processing);
    var report := SubmitReport(s, item.intent, item.asOf, item.now);
    TurnBooks(r, s, item, report, clock, id);
    var (t, outcome) := SubmitIntent(s, item.intent, item.asOf, item.now);
    BooksIsInv(r, t, report, clock, id);
    if outcome.Outcome? {
      SetStatusKeeps(t, key, StatusOf(outcome));
      BooksThenSilent(r, t, SetStatus(t, key, StatusOf(outcome)), report, clock, id);
    }
  }

  lemma ReportedNow(s: Node, intent: Intent, asOf: Option<real>, now: real)
    ensures var report := SubmitReport(s, intent, asOf, now); report.Report? ==> report.at == now
  {
    hide Answered;
  }

  lemma TurnBooks(r: Node, s: Node, item: Item, report: Report, clock: Option<real>, id: OrderId)
    requires Kept(r, clock) && Silent(r, s) && report == SubmitReport(s, item.intent, item.asOf, item.now)
    requires report.Report? ==> Later(clock, item.now)
    ensures Books(r, SubmitIntent(s, item.intent, item.asOf, item.now).0, report, clock, id)
  {
    SilentKept(r, s, clock);
    SubmitBooks(s, item.intent, item.asOf, item.now, clock, id);
    hide Books, Kept, Silent, SubmitIntent, SubmitReport;
    SilentThenBooks(r, s, SubmitIntent(s, item.intent, item.asOf, item.now).0, report, clock, id);
  }

  /** Commands that report nothing and write no gate row. */
  predicate Quiet(command: Command) {
    command.DoSynchronize? || command.DoReconcile? || command.DoRequest? || command.DoAccept? || command.DoStart?
  }

  lemma QuietCommand(w: World, command: Command)
    requires WorldInv(w) && Quiet(command)
    ensures Silent(w.node, Exec(w, command).node) || Exec(w, command).node == w.node
  {
    hide Safe, Silent, VenueLog, Synchronize, ReconcileWith, SubmitRequest, Accept, RecoverRows;
    match command
    case DoSynchronize(intent, order, now) => SynchronizeKeeps(w.node, intent, order, now);
    case DoReconcile(expected) => ReconcileKeeps(w.node, expected);
    case DoRequest(order, now) => SubmitRequestKeeps(w.node, order, now);
    case DoAccept(intent, asOf, now) => AcceptKeeps(w, intent, asOf, now);
    case DoStart(rows, at) =>
      if Listing(w.node.db, rows) {
        RecoverRowsKeep(w.(running := true, failed := false, dead := false), rows, at);
      }
  }

  lemma NothingBooked(s: Node, t: Node, clock: Option<real>, id: OrderId)
    requires Kept(s, clock) && (t == s || Silent(s, t))
    ensures Books(s, t, Nothing, clock, id)
  {
    if t == s { SameRecords(s, t, clock, id); } else { SilentBooks(s, t, clock, id); }
    hide Kept, Silent, Books;
  }

  lemma GateReaches(w: World, command: Command)
    requires WorldInv(w) && Steers(command)
    ensures var t := Exec(w, command).node;
      t == w.node || t == w.node.Put(PutKill(Killed)) || t == w.node.Put(PutKill(ExecutionModel.Reset))
  {
    hide Safe, VenueLog, Replay, Apply, WorldInv;
  }

  lemma KillBooks(s: Node, t: Node, state: KillState, clock: Option<real>, id: OrderId)
    requires Kept(s, clock) && Inv(t) && t == s.Put(PutKill(state))
    ensures Books(s, t, Nothing, clock, id)
  {
    hide Inv, Replay;
    assert t.log[..|s.log|] == s.log && NoFillSince(t.log, |s.log|);
    if clock.Some? { SilentStaysFresh(s.log, t.log); }
    QuietRows(t.log, |s.log|, id);
    hide FreshRows, LargestRow;
  }

  lemma GateBooks(w: World, command: Command, clock: Option<real>, id: OrderId)
    requires WorldInv(w) && Kept(w.node, clock) && Steers(command)
    ensures Books(w.node, Exec(w, command).node, Nothing, clock, id)
  {
    GateReaches(w, command);
    GateStepKeeps(w, command);
    var t := Exec(w, command).node;
    assert Inv(t) by { assert WorldInv(Exec(w, command)); }
    hide Exec, WorldInv, Inv, Kept, Books, Replay;
    if t == w.node {
      SameRecords(w.node, t, clock, id);
    } else {
      KillBooks(w.node, t, if t == w.node.Put(PutKill(Killed)) then Killed else ExecutionModel.Reset, clock, id);
    }
  }

  /** What a crash leaves of the command that it cuts off. */
  lemma CrashCuts(w: World, command: Command)
    requires WorldInv(w) && command.Crash?
    ensures var (s, mid, t) := (w.node, Exec(w, command.during).node, Exec(w, command).node);
      var first := if |s.log| <= command.kept <= |mid.log| then command.kept else |mid.log|;
      && Inv(t) && s.log <= mid.log && t.log == mid.log[..first] && |s.log| <= first
      && ReportOf(w, command) == if exists i | |s.log| <= i < first ::
           mid.log[i].PutFill? then ReportOf(w, command.during) else Nothing
  {
    hide Safe, Replay, VenueLog, LatestGood, SubmitIntent, ConfirmFill, Synchronize, Recover, SubmitRequest, Consume;
    ExecKeeps(w, command.during);
    ExecKeeps(w, command);
    assert WorldInv(Exec(w, command));
  }

  /** A cut in front of the fill row loses the report, a cut behind it keeps the report. */
  lemma CutBooks(s: Node, mid: Node, t: Node, first: nat, full: Report, clock: Option<real>, id: OrderId)
    requires Kept(s, clock) && Books(s, mid, full, clock, id) && Inv(t)
    requires |s.log| <= first <= |mid.log| && t.log == mid.log[..first]
    ensures Books(s, t, if exists i | |s.log| <= i < first :: mid.log[i].PutFill? then full else Nothing, clock, id)
  {
    if exists i | |s.log| <= i < first :: mid.log[i].PutFill? {
      CutBehind(s, mid, t, first, full, clock, id);
    } else {
      CutInFront(s, mid, t, first, full, clock, id);
    }
    hide Books, Kept, Inv;
  }

  lemma CutBehind(s: Node, mid: Node, t: Node, first: nat, report: Report, clock: Option<real>, id: OrderId)
    requires Books(s, mid, report, clock, id) && Inv(t)
    requires |s.log| <= first <= |mid.log| && t.log == mid.log[..first]
    requires exists i | |s.log| <= i < first :: mid.log[i].PutFill?
    ensures Books(s, t, report, clock, id)
  {
    hide Raised, Safe, VenueLog, LargestRow, Replay;
    if clock.Some? { FreshPrefix(mid.log, first); }
    hide FreshRows;
    KeptRowStays(s, mid, first, id);
    assert t.db.fills == mid.db.fills;
  }

  lemma CutInFront(s: Node, mid: Node, t: Node, first: nat, full: Report, clock: Option<real>, id: OrderId)
    requires Kept(s, clock) && Books(s, mid, full, clock, id) && Inv(t)
    requires |s.log| <= first <= |mid.log| && t.log == mid.log[..first]
    requires forall i | |s.log| <= i < first :: !mid.log[i].PutFill?
    ensures Books(s, t, Nothing, clock, id)
  {
    hide Safe, VenueLog, LargestRow, Replay;
    if clock.Some? { FreshPrefix(mid.log, first); }
    hide FreshRows;
    assert s.log == t.log[..|s.log|] && NoFillSince(t.log, |s.log|);
    QuietLog(t.log, |s.log|);
    QuietRows(t.log, |s.log|, id);
    assert t.db.fills == s.db.fills;
  }

  lemma KeptRowStays(s: Node, mid: Node, first: nat, id: OrderId)
    requires |s.log| <= first <= |mid.log| && OneFillSince(mid.log, |s.log|)
    requires exists i | |s.log| <= i < first :: mid.log[i].PutFill?
    ensures Replay(mid.log).fills == Replay(mid.log[..first]).fills
            && LargestRow(mid.log, id) == LargestRow(mid.log[..first], id)
  {
    var i :| |s.log| <= i < first && mid.log[i].PutFill?;
    assert NoFillSince(mid.log, first);
    QuietLog(mid.log, first);
    QuietRows(mid.log, first, id);
  }

  lemma {:induction false} ExecBooks(w: World, command: Command, clock: Option<real>, id: OrderId)
    requires WorldInv(w) && Kept(w.node, clock) && (Made(w, command).Report? ==> Later(clock, Made(w, command).at))
    ensures Books(w.node, Exec(w, command).node, ReportOf(w, command), clock, id)
    decreases command
  {
    if command.Crash? {
      assert Made(w, command) == Made(w, command.during);
      hide Kept, Books, WorldInv, Inv, Made;
      ExecBooks(w, command.during, clock, id);
      CrashCuts(w, command);
      hide ReportOf, Exec;
      var mid, t := Exec(w, command.during).node, Exec(w, command).node;
      CutBooks(w.node, mid, t, |t.log|, ReportOf(w, command.during), clock, id);
    } else {
      hide Kept, Books, WorldInv, Exec, ReportOf;
      StepBooks(w, command, clock, id);
    }
  }

  lemma StepBooks(w: World, command: Command, clock: Option<real>, id: OrderId)
    requires WorldInv(w) && Kept(w.node, clock) && !command.Crash?
    requires ReportOf(w, command).Report? ==> Later(clock, ReportOf(w, command).at)
    ensures Books(w.node, Exec(w, command).node, ReportOf(w, command), clock, id)
  {
    assert ValidConfig(w.risk);
    hide Kept, Books, WorldInv;
    if Quiet(command) {
      QuietCommand(w, command);
      hide Exec, Silent;
      NothingBooked(w.node, Exec(w, command).node, clock, id);
    } else if Steers(command) {
      GateBooks(w, command, clock, id);
      hide Exec;
    } else if command.DoConsume? {
      ConsumeBooks(w, clock, id);
      hide Consume, ReportOf;
    } else {
      DirectBooks(w, command, clock, id);
      hide Exec, ReportOf;
    }
  }

  lemma DirectBooks(w: World, command: Command, clock: Option<real>, id: OrderId)
    requires WorldInv(w) && Kept(w.node, clock)
             && (ReportOf(w, command).Report? ==> Later(clock, ReportOf(w, command).at))
    requires command.DoSubmit? || command.DoConfirm? || command.DoRecover? || command.Rebuilt?
    ensures Books(w.node, Exec(w, command).node, ReportOf(w, command), clock, id)
  {
    if command.Rebuilt? { ExecKeeps(w, command); }
    hide Books, SubmitReport, RecoverReport, SubmitIntent, ConfirmFill, Recover, Bookable, FreshRows, Replay, Safe,
         VenueLog;
    match command
    case DoSubmit(intent, asOf, now) =>
      ReportedNow(w.node, intent, asOf, now);
      SubmitBooks(w.node, intent, asOf, now, clock, id);
    case DoConfirm(order, now) => ConfirmBooks(w.node, order, now, clock, id);
    case DoRecover(intent, asked, now) =>
      RecoveredNow(w.node, intent, asked, now);
      RecoverBooks(w.node, intent, asked, now, clock, id);
    case Rebuilt(cfg, adapter) => RebootBooks(w, command, clock, id);
  }

  lemma RecoveredNow(s: Node, intent: Intent, orderId: Option<OrderId>, now: real)
    ensures var report := RecoverReport(s, intent, orderId, now); report.Report? ==> report.at == now
  {}

  lemma RebootBooks(w: World, command: Command, clock: Option<real>, id: OrderId)
    requires WorldInv(w) && Kept(w.node, clock) && command.Rebuilt? && WorldInv(Exec(w, command))
    ensures Books(w.node, Exec(w, command).node, Nothing, clock, id)
  {
    hide FreshRows, Replay, Safe, LargestRow;
  }

  lemma {:induction false} RunBooks(w: World, commands: seq<Command>, start: Option<real>, id: OrderId)
    requires WorldInv(w) && Kept(w.node, start) && Ticking(w, commands, start)
    ensures Kept(Run(w, commands).node, ClockAfter(w, commands, start))
    ensures LargestRow(Run(w, commands).node.log, id) == LargestReport(w, commands, id, LargestRow(w.node.log, id))
  {
    hide Kept, WorldInv, Exec, ReportOf, Made, LargestRow, Raised;
    if commands != [] {
      var before, command := commands[..|commands| - 1], commands[|commands| - 1];
      RunBooks(w, before, start, id);
      RunKeeps(w, before);
      ExecBooks(Run(w, before), command, ClockAfter(w, before, start), id);
    }
  }

  lemma {:induction false} NoClockTicks(w: World, commands: seq<Command>)
    requires ValidConfig(w.risk)
    ensures Ticking(w, commands, None) && ClockAfter(w, commands, None) == None
  {
    hide Run, ReportOf, Made;
    if commands != [] { NoClockTicks(w, commands[..|commands| - 1]); }
  }
}
