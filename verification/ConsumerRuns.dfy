/** No accepted intent is lost: durable acceptance, and what the recovery pass does with every row. */
module ConsumerRuns {
  import opened Optional
  import opened ExecutionModel
  import opened ExecutionAdapter
  import opened CoordinatorSpec
  import opened ConsumerSpec
  import opened ExecutionSafety
  import opened Risk

  // ---------------------------------------------------------------- one step of the consumer

  /**
   submit(): refused without a trace while stopped, unapproved or seen before; otherwise the row is PERSISTED
   first, and only with room in the queue is the intent queued, remembered, and its row QUEUED.
   */
  lemma AcceptExactly(w: World, intent: Intent, asOf: Option<real>, now: real)
    ensures var (v, reply) := Accept(w, intent, asOf, now);
      var id := EntryIdOf(intent, w.node.adapter.exchange, w.node.cfg.mode);
      var row := PutIntent(id, IntentRow(Persisted, now, Some(intent)));
      if !w.running || !intent.approved || (intent.quantity > 0.0 && id in w.seen) then v == w && reply == Ok(false)
      else if intent.quantity <= 0.0 then v == w && reply == Raise(ValueExn)
      else if |w.queue| >= w.capacity then
        reply == Ok(false) && v == w.(node := v.node) && v.node.log == w.node.log + [row]
      else
        && reply == Ok(true) && v.node.log == w.node.log + [row, SetIntentStatus(id, Queued)]
        && v == w.(node := v.node, queue := w.queue + [Item(intent, asOf, now)], seen := w.seen + {id})
  {
    hide Replay;
  }

  /**
   One turn: the row goes to PROCESSING, the intent to submit_intent, and the answer back into the row. What
   submit_intent raises stops the consumer; an intent whose id cannot be formed ends its task.
   */
  lemma TurnExactly(w: World)
    ensures var v := Consume(w);
      if !w.running || w.dead || w.queue == [] then v == w
      else if w.queue[0].intent.quantity <= 0.0 then v == w.(queue := w.queue[1..], dead := true)
      else
        var item := w.queue[0];
        var id := EntryIdOf(item.intent, w.node.adapter.exchange, w.node.cfg.mode);
        var s := if id in w.node.db.intents then w.node.Put(SetIntentStatus(id, Processing)) else w.node;
        var (t, outcome) := SubmitIntent(s, item.intent, item.asOf, item.now);
        if outcome.Raised? then v == w.(node := t, queue := w.queue[1..], failed := true, running := false)
        else
          var final := match outcome.status
                       case OutRejected => StatusRejected
                       case OutDuplicate => StatusDuplicate
                       case OutReconciled => StatusReconciled
                       case OutUnknown => StatusUnknown
                       case OutSubmitted => StatusSubmitted;
          && v == w.(node := v.node, queue := w.queue[1..], outcomes := w.outcomes + [outcome])
          && v.node == if id in t.db.intents then t.Put(SetIntentStatus(id, final)) else t
  {
    hide Replay, Apply, SubmitIntent;
  }

  /** What the recovery pass makes of one listed row. */
  lemma RowDecidedExactly(w: World, id: OrderId, clock: real)
    requires id in w.node.db.intents
    ensures var (v, row) := (RecoverRow(w, id, clock), w.node.db.intents[id]);
      var status :=
        if id in w.node.db.orders then StatusUnknown
        else if row.payload.None? then StatusFailed
        else if !row.payload.value.approved then StatusRejected
        else if row.createdAt > 0.0 && w.node.cfg.staleAfter > 0.0 && clock - row.createdAt > w.node.cfg.staleAfter
        then StatusExpired
        else if |w.queue| >= w.capacity then StatusFailed else Recovered;
      && v.node.db.intents == w.node.db.intents[id := row.(status := status)]
      && v.node.log == w.node.log + [SetIntentStatus(id, status)]
      && v == w.(node := v.node,
                 queue := if status == Recovered then w.queue + [Item(row.payload.value, None, row.createdAt)]
                          else w.queue,
                 seen := if status == Recovered then w.seen + {id} else w.seen)
  {
    StatusWritten(w.node, id, Verdict(w, id, clock));
    hide Replay, Apply, SetStatus;
  }

  lemma StatusWritten(s: Node, id: OrderId, status: IntentStatus)
    requires id in s.db.intents
    ensures var t := SetStatus(s, id, status);
      t.db.intents == s.db.intents[id := s.db.intents[id].(status := status)]
      && t.log == s.log + [SetIntentStatus(id, status)]
  {
    hide Replay;
  }

  /** The rows that a start lists: every one that is not final, oldest first, each once. */
  lemma ListedExactly(db: Db, rows: seq<OrderId>, id: OrderId)
    requires Listing(db, rows)
    ensures id in rows <==>
            id in db.intents && db.intents[id].status in [Created, Persisted, Queued, Recovered, Processing, Approved]
    ensures forall i, j | 0 <= i < j < |rows| ::
              rows[i] != rows[j] && rows[i] in db.intents && rows[j] in db.intents
              && db.intents[rows[i]].createdAt <= db.intents[rows[j]].createdAt
  {
    forall i | 0 <= i < |rows| ensures rows[i] in db.intents { assert rows[i] in rows; }
  }

  // ---------------------------------------------------------------- acceptance is durable

  lemma AcceptedHasRow(w: World, intent: Intent, asOf: Option<real>, now: real)
    requires Accept(w, intent, asOf, now).1 == Ok(true)
    ensures var id := EntryIdOf(intent, w.node.adapter.exchange, w.node.cfg.mode);
      id in Accept(w, intent, asOf, now).0.node.db.intents
  {
    hide Replay;
  }

  /** An intent whose submit returned True keeps its row through everything that follows, crashes included. */
  lemma AcceptedNeverLost(w: World, intent: Intent, asOf: Option<real>, now: real, commands: seq<Command>)
    requires WorldInv(w) && Accept(w, intent, asOf, now).1 == Ok(true)
    ensures WorldInv(Accept(w, intent, asOf, now).0)
    ensures var id := EntryIdOf(intent, w.node.adapter.exchange, w.node.cfg.mode);
      id in Run(Accept(w, intent, asOf, now).0, commands).node.db.intents
  {
    AcceptKeeps(w, intent, asOf, now);
    AcceptedHasRow(w, intent, asOf, now);
    hide Accept, Replay, Apply, Safe;
    var v := Accept(w, intent, asOf, now).0;
    var id := EntryIdOf(intent, w.node.adapter.exchange, w.node.cfg.mode);
    LogGrows(v, commands);
    RunKeeps(v, commands);
    var log := Run(v, commands).node.log;
    RowsStay(log, |v.node.log|);
    assert log[..|v.node.log|] == v.node.log;
  }

  // ---------------------------------------------------------------- the recovery pass

  /** An approved, fresh intent that was never handed to the exchange. */
  predicate Eligible(w: World, id: OrderId, clock: real)
    requires id in w.node.db.intents
  {
    var row := w.node.db.intents[id];
    && id !in w.node.db.orders && row.payload.Some? && row.payload.value.approved
    && !(row.createdAt > 0.0 && w.node.cfg.staleAfter > 0.0 && clock - row.createdAt > w.node.cfg.staleAfter)
  }

  function EligibleRows(w: World, rows: seq<OrderId>, clock: real): (r: seq<OrderId>)
    requires forall id | id in rows :: id in w.node.db.intents
    ensures forall id :: id in r <==> id in rows && Eligible(w, id, clock)
  {
    if rows == [] then []
    else
      var before := EligibleRows(w, rows[..|rows| - 1], clock);
      if Eligible(w, rows[|rows| - 1], clock) then before + [rows[|rows| - 1]] else before
  }

  predicate Distinct(ids: seq<OrderId>) { forall i, j | 0 <= i < j < |ids| :: ids[i] != ids[j] }

  lemma DistinctAppend(ids: seq<OrderId>, id: OrderId)
    requires Distinct(ids) && id !in ids
    ensures Distinct(ids + [id])
  {
  }

  lemma {:induction false} EligibleRowsDistinct(w: World, rows: seq<OrderId>, clock: real)
    requires (forall id | id in rows :: id in w.node.db.intents) && Distinct(rows)
    ensures Distinct(EligibleRows(w, rows, clock))
  {
    if rows != [] {
      var shorter, last := rows[..|rows| - 1], rows[|rows| - 1];
      EligibleRowsDistinct(w, shorter, clock);
      assert last !in shorter;
      DistinctAppend(EligibleRows(w, shorter, clock), last);
    }
  }

  function Items(db: Db, ids: seq<OrderId>): seq<Item>
    requires forall id | id in ids :: id in db.intents && db.intents[id].payload.Some?
  {
    if ids == [] then []
    else
      var id := ids[|ids| - 1];
      Items(db, ids[..|ids| - 1]) + [Item(db.intents[id].payload.value, None, db.intents[id].createdAt)]
  }

  function FirstOf(ids: seq<OrderId>, capacity: nat): seq<OrderId> {
    if |ids| <= capacity then ids else ids[..capacity]
  }

  /** The status that the pass must leave on a row: decided by the old database alone. */
  function Expected(w: World, rows: seq<OrderId>, id: OrderId, clock: real): IntentStatus
    requires forall id | id in rows :: id in w.node.db.intents
    requires id in rows
  {
    var row := w.node.db.intents[id];
    if id in Taken(w, rows, clock) then Recovered
    else if id in w.node.db.orders then StatusUnknown
    else if row.payload.None? then StatusFailed
    else if !row.payload.value.approved then StatusRejected
    else if Eligible(w, id, clock) then StatusFailed
    else StatusExpired
  }

  function Taken(w: World, rows: seq<OrderId>, clock: real): (taken: seq<OrderId>)
    requires forall id | id in rows :: id in w.node.db.intents
    ensures forall id | id in taken :: id in rows && Eligible(w, id, clock)
  {
    FirstOf(EligibleRows(w, rows, clock), w.capacity)
  }

  /** The queue holds the first eligible rows, in order. */
  ghost predicate QueuePassed(w: World, v: World, rows: seq<OrderId>, clock: real)
    requires forall id | id in rows :: id in w.node.db.intents
  {
    && v.queue == Items(w.node.db, Taken(w, rows, clock))
    && (forall id :: id in v.seen <==> id in Taken(w, rows, clock))
    && v.node.db.orders == w.node.db.orders && v.node.cfg == w.node.cfg && v.capacity == w.capacity
  }

  /** Every row of the pass got its status; every other row is as it was. */
  ghost predicate RowsPassed(w: World, v: World, rows: seq<OrderId>, clock: real)
    requires forall id | id in rows :: id in w.node.db.intents
  {
    && v.node.db.intents.Keys == w.node.db.intents.Keys
    && (forall id | id in rows ::
          v.node.db.intents[id] == w.node.db.intents[id].(status := Expected(w, rows, id, clock)))
    && (forall id | id in w.node.db.intents && id !in rows :: v.node.db.intents[id] == w.node.db.intents[id])
  }

  /** What a pass over `rows` leaves behind. */
  ghost predicate Passed(w: World, v: World, rows: seq<OrderId>, clock: real)
    requires forall id | id in rows :: id in w.node.db.intents
  {
    QueuePassed(w, v, rows, clock) && RowsPassed(w, v, rows, clock)
  }

  lemma {:induction false} ItemsLength(db: Db, ids: seq<OrderId>)
    requires forall id | id in ids :: id in db.intents && db.intents[id].payload.Some?
    ensures |Items(db, ids)| == |ids|
  {
    if ids != [] {
      ItemsLength(db, ids[..|ids| - 1]);
    }
  }

  lemma NothingToPass(w: World, clock: real)
    requires w.queue == [] && w.seen == {}
    ensures Passed(w, w, [], clock)
  {}

  lemma {:induction false} RecoveryPass(w: World, rows: seq<OrderId>, clock: real)
    requires w.queue == [] && w.seen == {}
    requires forall id | id in rows :: id in w.node.db.intents
    requires Distinct(rows)
    ensures Passed(w, RecoverRows(w, rows, clock), rows, clock)
  {
    hide Passed, RecoverRow;
    if rows == [] {
      NothingToPass(w, clock);
    } else {
      var shorter, id := rows[..|rows| - 1], rows[|rows| - 1];
      RecoveryPass(w, shorter, clock);
      PassOne(w, RecoverRows(w, shorter, clock), shorter, id, clock);
      assert rows == shorter + [id];
    }
  }

  lemma SetStatusEffect(s: Node, id: OrderId, status: IntentStatus)
    requires id in s.db.intents
    ensures var t := SetStatus(s, id, status);
      && t.db.orders == s.db.orders && t.cfg == s.cfg
      && t.db.intents == s.db.intents[id := s.db.intents[id].(status := status)]
  {
    hide Replay;
  }

  lemma RecoverRowEffect(v: World, id: OrderId, clock: real)
    requires id in v.node.db.intents
    ensures var u, row, status := RecoverRow(v, id, clock), v.node.db.intents[id], Verdict(v, id, clock);
      && u.node.db.orders == v.node.db.orders && u.node.cfg == v.node.cfg && u.capacity == v.capacity
      && u.node.db.intents == v.node.db.intents[id := row.(status := status)]
      && (status.Recovered? <==> Eligible(v, id, clock) && |v.queue| < v.capacity)
      && (status.Recovered? ==>
          u.queue == v.queue + [Item(row.payload.value, None, row.createdAt)] && u.seen == v.seen + {id})
      && (!status.Recovered? ==> u.queue == v.queue && u.seen == v.seen)
  {
    SetStatusEffect(v.node, id, Verdict(v, id, clock));
    hide SetStatus, Replay, Apply;
  }

  lemma TakenOne(w: World, rows: seq<OrderId>, id: OrderId, clock: real)
    requires forall other | other in rows :: other in w.node.db.intents
    requires id in w.node.db.intents
    ensures var taken := Taken(w, rows, clock);
      && Taken(w, rows + [id], clock) == (if Eligible(w, id, clock) && |taken| < w.capacity then taken + [id]
                                          else taken)
      && |Items(w.node.db, taken)| == |taken|
  {
    assert (rows + [id])[..|rows|] == rows;
    ItemsLength(w.node.db, Taken(w, rows, clock));
  }

  lemma PassOne(w: World, v: World, rows: seq<OrderId>, id: OrderId, clock: real)
    requires forall other | other in rows :: other in w.node.db.intents
    requires id in w.node.db.intents && id !in rows && Passed(w, v, rows, clock)
    ensures Passed(w, RecoverRow(v, id, clock), rows + [id], clock)
  {
    assert id in v.node.db.intents && v.node.db.intents[id] == w.node.db.intents[id];
    QueueOne(w, v, rows, id, clock);
    RowsOne(w, v, rows, id, clock);
    hide QueuePassed, RowsPassed, RecoverRow;
  }

  lemma ItemsAppend(db: Db, ids: seq<OrderId>, id: OrderId)
    requires forall other | other in ids + [id] :: other in db.intents && db.intents[other].payload.Some?
    ensures Items(db, ids + [id])
         == Items(db, ids) + [Item(db.intents[id].payload.value, None, db.intents[id].createdAt)]
  {
    assert (ids + [id])[..|ids|] == ids;
  }

  lemma QueueOne(w: World, v: World, rows: seq<OrderId>, id: OrderId, clock: real)
    requires forall other | other in rows :: other in w.node.db.intents
    requires id in w.node.db.intents && id in v.node.db.intents && v.node.db.intents[id] == w.node.db.intents[id]
    requires QueuePassed(w, v, rows, clock)
    ensures QueuePassed(w, RecoverRow(v, id, clock), rows + [id], clock)
  {
    RecoverRowEffect(v, id, clock);
    TakenOne(w, rows, id, clock);
    assert Eligible(v, id, clock) == Eligible(w, id, clock);
    hide RecoverRow, Taken, Verdict, Items, Eligible;
    hide Replay, Apply, LatestGood, Good, IsKilled, WorldInv;
    var taken, u := Taken(w, rows, clock), RecoverRow(v, id, clock);
    assert |v.queue| == |taken|;
    if Eligible(w, id, clock) && |taken| < w.capacity {
      assert Taken(w, rows + [id], clock) == taken + [id];
      ItemsAppend(w.node.db, taken, id);
      assert u.queue == Items(w.node.db, taken + [id]);
      assert forall other :: other in u.seen <==> other in taken + [id];
    } else {
      assert Taken(w, rows + [id], clock) == taken;
      assert u.queue == v.queue && u.seen == v.seen;
    }
  }

  lemma RowsOne(w: World, v: World, rows: seq<OrderId>, id: OrderId, clock: real)
    requires forall other | other in rows :: other in w.node.db.intents
    requires id in w.node.db.intents && id !in rows && Passed(w, v, rows, clock)
    ensures RowsPassed(w, RecoverRow(v, id, clock), rows + [id], clock)
  {
    hide Replay, Apply, LatestGood, Good, IsKilled;
    RecoverRowEffect(v, id, clock);
    TakenOne(w, rows, id, clock);
    hide RecoverRow, Taken;
    var longer := rows + [id];
    var u := RecoverRow(v, id, clock);
    assert Verdict(v, id, clock) == Expected(w, longer, id, clock);
    hide Verdict;
    forall other | other in longer
      ensures u.node.db.intents[other] == w.node.db.intents[other].(status := Expected(w, longer, other, clock))
    {
      if other != id {
        assert other in rows && Expected(w, longer, other, clock) == Expected(w, rows, other, clock);
      }
    }
  }

  /** Rows are stored under the id of their own payload. */
  predicate Keyed(db: Db, exchange: string, mode: Mode) {
    forall id | id in db.intents && db.intents[id].payload.Some? ::
                  EntryIdOf(db.intents[id].payload.value, exchange, mode) == id
  }

  lemma {:induction false} ItemAt(db: Db, ids: seq<OrderId>, i: nat)
    requires forall id | id in ids :: id in db.intents && db.intents[id].payload.Some?
    requires i < |ids|
    ensures |Items(db, ids)| == |ids| && Items(db, ids)[i].intent == db.intents[ids[i]].payload.value
  {
    ItemsLength(db, ids);
    if i < |ids| - 1 {
      ItemsLength(db, ids[..|ids| - 1]);
      ItemAt(db, ids[..|ids| - 1], i);
    } else {
      ItemsLength(db, ids[..|ids| - 1]);
    }
  }

  /** Every recoverable row of `db` is queued or has a final status. */
  ghost predicate Settled(db: Db, v: World) {
    && v.node.db.intents.Keys == db.intents.Keys
    && forall id | id in db.intents && Recoverable(db.intents[id].status) ::
         var after := v.node.db.intents[id].status;
         && (after.Recovered? <==> id in v.seen)
         && (after.Recovered? || after.StatusUnknown? || after.StatusRejected? || after.StatusExpired?
             || after.StatusFailed?)
         && (after.StatusUnknown? <==> id in db.orders)
  }

  /** The queued intents have different entry ids at this venue, and none of them an order row. */
  ghost predicate QueueIsClean(v: World, exchange: string, mode: Mode) {
    && (forall i, j | 0 <= i < j < |v.queue| ::
          EntryIdOf(v.queue[i].intent, exchange, mode) != EntryIdOf(v.queue[j].intent, exchange, mode))
    && (forall i | 0 <= i < |v.queue| :: EntryIdOf(v.queue[i].intent, exchange, mode) !in v.node.db.orders)
  }

  /**
   A fresh consumer's recovery pass leaves no recoverable row undecided: the first
   eligible rows are queued as RECOVERED, in order, and every other recoverable row is
   UNKNOWN (it has an order row), REJECTED, EXPIRED or FAILED. Where rows are stored under
   the ids of this venue, the queued intents have different ids.
   */
  lemma StartDecidesEveryRow(cfg: Config, log: seq<Event>, adapter: Adapter, risk: RiskConfig, capacity: nat,
                             rows: seq<OrderId>, clock: real)
    requires Listing(Replay(log), rows)
    ensures var w := BootWorld(cfg, log, adapter, risk, capacity);
      var v := Start(w, rows, clock);
      && v.running && |v.queue| <= capacity && Passed(w, v, rows, clock) && Settled(w.node.db, v)
      && (forall id | id in v.seen :: id !in v.node.db.orders)
      && (Keyed(w.node.db, adapter.exchange, cfg.mode) ==> QueueIsClean(v, adapter.exchange, cfg.mode))
  {
    hide Replay;
    var w := BootWorld(cfg, log, adapter, risk, capacity);
    var started := w.(running := true, failed := false, dead := false);
    RecoveryPass(started, rows, clock);
    RecoverRowsRuns(started, rows, clock);
    hide RecoverRows;
    var v := RecoverRows(started, rows, clock);
    SamePass(w, started, v, rows, clock);
    PassIsDecisive(w, v, rows, clock);
    hide Passed, QueueIsClean, Settled;
    if Keyed(w.node.db, adapter.exchange, cfg.mode) { PassQueueIsClean(w, v, rows, clock, adapter.exchange, cfg.mode); }
  }

  lemma SamePass(w: World, u: World, v: World, rows: seq<OrderId>, clock: real)
    requires u.node == w.node && u.capacity == w.capacity && forall id | id in rows :: id in w.node.db.intents
    requires Passed(u, v, rows, clock)
    ensures Passed(w, v, rows, clock)
  {
    SameRows(w, u, rows, clock);
    hide EligibleRows;
    assert Taken(w, rows, clock) == Taken(u, rows, clock);
    hide Taken;
    assert forall id | id in rows :: Expected(w, rows, id, clock) == Expected(u, rows, id, clock);
  }

  lemma PassIsDecisive(w: World, v: World, rows: seq<OrderId>, clock: real)
    requires Listing(w.node.db, rows) && Passed(w, v, rows, clock)
    ensures |v.queue| <= w.capacity && Settled(w.node.db, v) && forall id | id in v.seen :: id !in v.node.db.orders
  {
    var taken := Taken(w, rows, clock);
    assert |taken| <= w.capacity;
    hide Taken;
    ItemsLength(w.node.db, taken);
  }

  lemma PassQueueIsClean(w: World, v: World, rows: seq<OrderId>, clock: real, exchange: string, mode: Mode)
    requires Listing(w.node.db, rows) && Keyed(w.node.db, exchange, mode) && Passed(w, v, rows, clock)
    ensures QueueIsClean(v, exchange, mode)
  {
    EligibleRowsDistinct(w, rows, clock);
    var taken := Taken(w, rows, clock);
    assert Distinct(taken);
    hide Taken;
    ItemsLength(w.node.db, taken);
    forall i | 0 <= i < |v.queue|
      ensures EntryIdOf(v.queue[i].intent, exchange, mode) == taken[i] && taken[i] !in v.node.db.orders
    {
      ItemAt(w.node.db, taken, i);
      assert taken[i] in taken;
    }
  }

  lemma {:induction false} RecoverRowsRuns(w: World, rows: seq<OrderId>, clock: real)
    requires forall id | id in rows :: id in w.node.db.intents
    ensures RecoverRows(w, rows, clock).running == w.running
  {
    if rows != [] {
      RecoverRowsRuns(w, rows[..|rows| - 1], clock);
    }
  }

  lemma {:induction false} SameRows(w: World, u: World, rows: seq<OrderId>, clock: real)
    requires u.node == w.node && forall id | id in rows :: id in w.node.db.intents
    ensures EligibleRows(u, rows, clock) == EligibleRows(w, rows, clock)
  {
    if rows != [] {
      SameRows(w, u, rows[..|rows| - 1], clock);
    }
  }

  /**
   End to end: after submit returned True, any commands and crashes, and a restart with any
   configuration, exchange and capacity, the recovery pass finds the intent's row; if it was
   still recoverable the pass queues it or gives it a final status.
   */
  lemma AcceptedIsDecidedAfterRestart(w: World, intent: Intent, asOf: Option<real>, now: real, commands: seq<Command>,
                                      cfg: Config, adapter: Adapter, capacity: nat, rows: seq<OrderId>, clock: real)
    requires WorldInv(w) && Accept(w, intent, asOf, now).1 == Ok(true)
    requires Listing(Run(Accept(w, intent, asOf, now).0, commands).node.db, rows)
    ensures var s := Run(Accept(w, intent, asOf, now).0, commands).node;
      var id := EntryIdOf(intent, w.node.adapter.exchange, w.node.cfg.mode);
      var boot := BootWorld(cfg, s.log, adapter, w.risk, capacity);
      && id in s.db.intents && boot.node.db == s.db
      && var v := Start(boot, rows, clock);
        && id in v.node.db.intents
        && (id in v.seen || !Recoverable(v.node.db.intents[id].status))
  {
    hide Listing, Start, BootWorld;
    AcceptedNeverLost(w, intent, asOf, now, commands);
    RunKeeps(Accept(w, intent, asOf, now).0, commands);
    var s := Run(Accept(w, intent, asOf, now).0, commands).node;
    hide Run, Accept, Safe, VenueLog, Replay;
    DecidedAfterRestart(cfg, s.log, adapter, w.risk, capacity, rows, clock,
                        EntryIdOf(intent, w.node.adapter.exchange, w.node.cfg.mode));
  }

  /** A restart finds every row of the log, and queues it or gives it a final status. */
  lemma DecidedAfterRestart(cfg: Config, log: seq<Event>, adapter: Adapter, risk: RiskConfig, capacity: nat,
                            rows: seq<OrderId>, clock: real, id: OrderId)
    requires Listing(Replay(log), rows) && id in Replay(log).intents
    ensures var boot := BootWorld(cfg, log, adapter, risk, capacity);
      && boot.node.db == Replay(log)
      && var v := Start(boot, rows, clock);
        id in v.node.db.intents && (id in v.seen || !Recoverable(v.node.db.intents[id].status))
  {
    StartDecidesEveryRow(cfg, log, adapter, risk, capacity, rows, clock);
    hide Passed, QueueIsClean, Replay, RecoverRows;
    var boot := BootWorld(cfg, log, adapter, risk, capacity);
    if !Recoverable(boot.node.db.intents[id].status) { UntouchedRow(boot, Start(boot, rows, clock), rows, id, clock); }
  }

  /** The pass leaves rows with a final status as they are. */
  lemma UntouchedRow(w: World, v: World, rows: seq<OrderId>, id: OrderId, clock: real)
    requires Listing(w.node.db, rows) && Passed(w, v, rows, clock)
    requires id in w.node.db.intents && !Recoverable(w.node.db.intents[id].status)
    ensures id in v.node.db.intents && v.node.db.intents[id] == w.node.db.intents[id]
  {}

  // ---------------------------------------------------------------- rows stay at their venue

  /** Commands whose restarts keep the exchange and the mode. */
  predicate KeepsVenue(command: Command, exchange: string, mode: Mode) {
    match command
    case Rebuilt(cfg, adapter) => adapter.exchange == exchange && cfg.mode == mode
    case Crash(during, _, cfg, adapter) => adapter.exchange == exchange && cfg.mode == mode
                                           && KeepsVenue(during, exchange, mode)
    case _ => true
  }

  ghost predicate AtVenue(w: World, exchange: string, mode: Mode) {
    w.node.adapter.exchange == exchange && w.node.cfg.mode == mode && VenueLog(w.node.log, exchange, mode)
  }

  lemma {:induction false} ExecAtVenue(w: World, command: Command, exchange: string, mode: Mode)
    requires WorldInv(w) && AtVenue(w, exchange, mode) && KeepsVenue(command, exchange, mode)
    ensures AtVenue(Exec(w, command), exchange, mode)
    decreases command
  {
    hide Safe, VenueLog, Replay;
    if command.Crash? {
      ExecAtVenue(w, command.during, exchange, mode);
      ExecKeeps(w, command.during);
      var log := Exec(w, command.during).node.log;
      VenuePrefix(log, if |w.node.log| <= command.kept <= |log| then command.kept else |log|, exchange, mode);
    } else if command.Rebuilt? {
    } else if Steers(command) {
      KillKeeps(w, Killed);
      KillKeeps(w, ExecutionModel.Reset);
      hide WorldInv;
    } else {
      ExecKeeps(w, command);
      hide Exec;
    }
  }

  lemma VenuePrefix(log: seq<Event>, k: nat, exchange: string, mode: Mode)
    requires VenueLog(log, exchange, mode) && k <= |log|
    ensures VenueLog(log[..k], exchange, mode)
  {}

  lemma {:induction false} RunAtVenue(w: World, commands: seq<Command>, exchange: string, mode: Mode)
    requires WorldInv(w) && AtVenue(w, exchange, mode)
             && forall command | command in commands :: KeepsVenue(command, exchange, mode)
    ensures AtVenue(Run(w, commands), exchange, mode)
  {
    hide AtVenue, WorldInv, Exec;
    if commands != [] {
      var before := commands[..|commands| - 1];
      RunAtVenue(w, before, exchange, mode);
      RunKeeps(w, before);
      ExecAtVenue(Run(w, before), commands[|commands| - 1], exchange, mode);
    }
  }

  /** What is stored is keyed by the venue that stored it. */
  lemma {:induction false} VenueLogIsKeyed(log: seq<Event>, exchange: string, mode: Mode)
    requires VenueLog(log, exchange, mode)
    ensures Keyed(Replay(log), exchange, mode)
  {
    if log != [] {
      var before, event := log[..|log| - 1], log[|log| - 1];
      VenuePrefix(log, |log| - 1, exchange, mode);
      VenueLogIsKeyed(before, exchange, mode);
      assert event in log;
      assert VenueRow(event, exchange, mode);
      hide VenueLog;
    }
  }

  /** From an empty ledger, through any run at one exchange and mode, a restart there queues different ids. */
  lemma RestartQueuesDistinctIds(cfg: Config, adapter: Adapter, risk: RiskConfig, capacity: nat, commands: seq<Command>,
                                 again: Config, exchange: Adapter, room: nat, rows: seq<OrderId>, clock: real)
    requires ValidConfig(risk) && again.mode == cfg.mode && exchange.exchange == adapter.exchange
    requires forall command | command in commands :: KeepsVenue(command, adapter.exchange, cfg.mode)
    requires Listing(Replay(Run(Initial(cfg, adapter, risk, capacity), commands).node.log), rows)
    ensures var log := Run(Initial(cfg, adapter, risk, capacity), commands).node.log;
      QueueIsClean(Start(BootWorld(again, log, exchange, risk, room), rows, clock), adapter.exchange, cfg.mode)
  {
    var w := Initial(cfg, adapter, risk, capacity);
    InitialRun(cfg, adapter, risk, capacity, []);
    RunAtVenue(w, commands, adapter.exchange, cfg.mode);
    hide Run, QueueIsClean, Passed, Settled;
    var log := Run(w, commands).node.log;
    VenueLogIsKeyed(log, adapter.exchange, cfg.mode);
    hide Replay, VenueLog, Keyed;
    StartDecidesEveryRow(again, log, exchange, risk, room, rows, clock);
  }

  // ---------------------------------------------------------------- refused for lack of room

  lemma FullQueueRefuses(w: World, intent: Intent, asOf: Option<real>, now: real)
    requires w.running && |w.queue| >= w.capacity && intent.approved && intent.quantity > 0.0
    requires EntryIdOf(intent, w.node.adapter.exchange, w.node.cfg.mode) !in w.seen
    ensures var id := EntryIdOf(intent, w.node.adapter.exchange, w.node.cfg.mode);
      var event := PutIntent(id, IntentRow(Persisted, now, Some(intent)));
      && Accept(w, intent, asOf, now) == (w.(node := w.node.Put(event)), Ok(false))
      && Accept(w, intent, asOf, now).0.node.log == w.node.log + [event]
      && Apply(w.node.db, event).orders == w.node.db.orders
      && Apply(w.node.db, event).intents ==
           w.node.db.intents[id := IntentRow(Persisted, if id in w.node.db.intents then w.node.db.intents[id].createdAt
                                             else now, Some(intent))]
  {
    hide Replay;
  }

  /** How many eligible rows are listed in front of `id`. */
  function AheadOf(w: World, rows: seq<OrderId>, id: OrderId, clock: real): nat
    requires forall other | other in rows :: other in w.node.db.intents
  {
    if rows == [] then 0
    else if rows[|rows| - 1] == id then |EligibleRows(w, rows[..|rows| - 1], clock)|
    else AheadOf(w, rows[..|rows| - 1], id, clock)
  }

  lemma {:induction false} TakenExactly(w: World, rows: seq<OrderId>, id: OrderId, clock: real)
    requires (forall other | other in rows :: other in w.node.db.intents) && Distinct(rows) && id in rows
    ensures id in Taken(w, rows, clock) <==> Eligible(w, id, clock) && AheadOf(w, rows, id, clock) < w.capacity
  {
    var shorter, last := rows[..|rows| - 1], rows[|rows| - 1];
    assert rows == shorter + [last];
    TakenOne(w, shorter, last, clock);
    if last == id {
      assert |Taken(w, shorter, clock)| < w.capacity <==> |EligibleRows(w, shorter, clock)| < w.capacity;
      assert id !in Taken(w, shorter, clock);
    } else {
      assert forall i | 0 <= i < |shorter| :: shorter[i] == rows[i];
      assert Distinct(shorter) && id in shorter;
      TakenExactly(w, shorter, id, clock);
    }
  }

  /**
   A refusal for lack of room is not final. The next start, with whatever configuration,
   exchange and capacity, queues the intent exactly when its id has no order row, the row is
   not stale, and fewer eligible rows than the capacity are listed in front of it.
   */
  lemma FullQueueRefusalIsRecovered(w: World, intent: Intent, asOf: Option<real>, now: real,
                                    cfg: Config, adapter: Adapter, capacity: nat, rows: seq<OrderId>, clock: real)
    requires WorldInv(w) && w.running && |w.queue| >= w.capacity && intent.approved && intent.quantity > 0.0
    requires EntryIdOf(intent, w.node.adapter.exchange, w.node.cfg.mode) !in w.seen
    requires Listing(Replay(Accept(w, intent, asOf, now).0.node.log), rows)
    ensures var id := EntryIdOf(intent, w.node.adapter.exchange, w.node.cfg.mode);
      var boot := BootWorld(cfg, Accept(w, intent, asOf, now).0.node.log, adapter, w.risk, capacity);
      var created := if id in w.node.db.intents then w.node.db.intents[id].createdAt else now;
      && Accept(w, intent, asOf, now).1 == Ok(false) && id in rows
      && (id in Start(boot, rows, clock).seen <==>
          && id !in w.node.db.orders
          && !(created > 0.0 && cfg.staleAfter > 0.0 && clock - created > cfg.staleAfter)
          && AheadOf(boot, rows, id, clock) < capacity)
  {
    var id := EntryIdOf(intent, w.node.adapter.exchange, w.node.cfg.mode);
    var log := Accept(w, intent, asOf, now).0.node.log;
    var boot := BootWorld(cfg, log, adapter, w.risk, capacity);
    FullQueueRefuses(w, intent, asOf, now);
    ReplayAppend(w.node.log, PutIntent(id, IntentRow(Persisted, now, Some(intent))));
    assert boot.node.db == Accept(w, intent, asOf, now).0.node.db;
    StartDecidesEveryRow(cfg, log, adapter, w.risk, capacity, rows, clock);
    hide Accept, Replay, Apply, Safe, VenueLog, Settled, QueueIsClean, RowsPassed;
    TakenExactly(boot, rows, id, clock);
  }

  /**
   A run that gets there: the queue holds one intent, the next is refused, the first is consumed
   (its stop is not positive, so it is rejected), and a restart queues the refused one.
   */
  lemma RefusedThenQueued(cfg: Config, adapter: Adapter, risk: RiskConfig, first: Intent, second: Intent, t: real,
                          now: real, clock: real)
    requires ValidConfig(risk) && first.approved && first.quantity > 0.0 && first.stopLoss <= 0.0
    requires second.approved && second.quantity > 0.0 && second.stopLoss != first.stopLoss
    requires !(now > 0.0 && cfg.staleAfter > 0.0 && clock - now > cfg.staleAfter)
    ensures var id := EntryIdOf(second, adapter.exchange, cfg.mode);
      var full := Run(Initial(cfg, adapter, risk, 1), [DoStart([], t), DoAccept(first, None, t)]);
      var w := Run(full, [DoAccept(second, None, now), DoConsume]);
      var boot := BootWorld(cfg, w.node.log, adapter, risk, 1);
      && |full.queue| == full.capacity && Accept(full, second, None, now).1 == Ok(false)
      && Listing(boot.node.db, [id]) && Start(boot, [id], clock).queue == [Item(second, None, now)]
  {
    var full := Run(Initial(cfg, adapter, risk, 1), [DoStart([], t), DoAccept(first, None, t)]);
    var w := Run(full, [DoAccept(second, None, now), DoConsume]);
    var id := EntryIdOf(second, adapter.exchange, cfg.mode);
    hide Exec, Accept, Start, BootWorld;
    OneQueued(cfg, adapter, risk, first, t);
    InitialRun(cfg, adapter, risk, 1, [DoStart([], t), DoAccept(first, None, t)]);
    RefusedThenConsumed(full, first, second, t, now);
    RunKeeps(full, [DoAccept(second, None, now), DoConsume]);
    hide Run, Initial, Safe, VenueLog, Replay;
    RestartQueues(cfg, w.node.log, adapter, risk, first, second, t, now, clock);
  }

  /** On a ledger with a rejected row and a persisted one, a start with room for one queues the persisted one. */
  lemma RestartQueues(cfg: Config, log: seq<Event>, adapter: Adapter, risk: RiskConfig,
                      first: Intent, second: Intent, t: real, now: real, clock: real)
    requires second.approved && first.stopLoss != second.stopLoss
    requires !(now > 0.0 && cfg.staleAfter > 0.0 && clock - now > cfg.staleAfter)
    requires var (a, b) := (EntryIdOf(first, adapter.exchange, cfg.mode),
                            EntryIdOf(second, adapter.exchange, cfg.mode));
      && Replay(log).orders == map[]
      && Replay(log).intents == map[a := IntentRow(StatusRejected, t, Some(first)),
                                    b := IntentRow(Persisted, now, Some(second))]
    ensures var id := EntryIdOf(second, adapter.exchange, cfg.mode);
      var boot := BootWorld(cfg, log, adapter, risk, 1);
      Listing(boot.node.db, [id]) && Start(boot, [id], clock).queue == [Item(second, None, now)]
  {
    hide Replay;
    var id := EntryIdOf(second, adapter.exchange, cfg.mode);
    var boot := BootWorld(cfg, log, adapter, risk, 1);
    var started := boot.(running := true, failed := false, dead := false);
    OneRowPass(started, id, clock);
    RecoverRowEffect(started, id, clock);
    hide RecoverRow, RecoverRows;
  }

  lemma FreshStart(cfg: Config, adapter: Adapter, risk: RiskConfig, t: real)
    requires ValidConfig(risk)
    ensures var start := Initial(cfg, adapter, risk, 1);
      && Exec(start, DoStart([], t)) == start.(running := true, failed := false, dead := false)
      && start.node.db == EMPTY_DB && start.node.recovery.Ready?
  {
    hide Accept, Consume, SubmitIntent, ConfirmFill, Synchronize, SubmitRequest, Recover, RecoverRow;
    var start := Initial(cfg, adapter, risk, 1);
    assert Replay([]) == EMPTY_DB;
    assert RecoverRows(start.(running := true, failed := false, dead := false), [], t) ==
             start.(running := true, failed := false, dead := false);
  }

  lemma FirstAccepted(w: World, intent: Intent, t: real)
    requires w.running && w.capacity == 1 && w.queue == [] && w.seen == {} && w.node.db.intents == map[]
    requires intent.approved && intent.quantity > 0.0
    ensures var id := EntryIdOf(intent, w.node.adapter.exchange, w.node.cfg.mode);
      var (v, accepted) := Accept(w, intent, None, t);
      && v == w.(node := v.node, queue := [Item(intent, None, t)], seen := {id})
      && v.node.cfg == w.node.cfg && v.node.adapter == w.node.adapter && v.node.recovery == w.node.recovery
      && v.node.db.orders == w.node.db.orders && v.node.db.intents == map[id := IntentRow(Queued, t, Some(intent))]
  {
    hide Replay;
  }

  /** The fresh process is running and has its one place taken. */
  lemma OneQueued(cfg: Config, adapter: Adapter, risk: RiskConfig, intent: Intent, t: real)
    requires ValidConfig(risk) && intent.approved && intent.quantity > 0.0
    ensures var w := Run(Initial(cfg, adapter, risk, 1), [DoStart([], t), DoAccept(intent, None, t)]);
      var id := EntryIdOf(intent, adapter.exchange, cfg.mode);
      && w.running && !w.dead && w.capacity == 1 && w.queue == [Item(intent, None, t)] && w.seen == {id}
      && w.risk == risk
      && w.node.cfg == cfg && w.node.adapter == adapter && w.node.recovery.Ready?
      && w.node.db.orders == map[] && w.node.db.intents == map[id := IntentRow(Queued, t, Some(intent))]
  {
    hide Replay, Run, Start, Accept, Consume, SubmitIntent, ConfirmFill, Synchronize, SubmitRequest, Recover;
    var start := Initial(cfg, adapter, risk, 1);
    RunTwo(start, DoStart([], t), DoAccept(intent, None, t));
    FreshStart(cfg, adapter, risk, t);
    FirstAccepted(start.(running := true, failed := false, dead := false), intent, t);
  }

  lemma RefusedThenConsumed(w: World, first: Intent, second: Intent, t: real, now: real)
    requires ValidConfig(w.risk) && w.running && !w.dead && w.capacity == 1 && w.queue == [Item(first, None, t)]
    requires w.node.recovery.Ready? && w.node.db.orders == map[]
    requires first.quantity > 0.0 && first.stopLoss <= 0.0 && second.approved && second.quantity > 0.0
             && first.stopLoss != second.stopLoss
    requires var id := EntryIdOf(first, w.node.adapter.exchange, w.node.cfg.mode);
      w.seen == {id} && w.node.db.intents == map[id := IntentRow(Queued, t, Some(first))]
    ensures Accept(w, second, None, now).1 == Ok(false)
    ensures var v := Run(w, [DoAccept(second, None, now), DoConsume]);
      var (a, b) := (EntryIdOf(first, w.node.adapter.exchange, w.node.cfg.mode),
                     EntryIdOf(second, w.node.adapter.exchange, w.node.cfg.mode));
      && v.node.db.orders == map[]
      && v.node.db.intents == map[a := IntentRow(StatusRejected, t, Some(first)),
                                  b := IntentRow(Persisted, now, Some(second))]
  {
    hide Replay, Run, Accept, Consume, Start, SubmitIntent, ConfirmFill, Synchronize, SubmitRequest, Recover;
    RunTwo(w, DoAccept(second, None, now), DoConsume);
    FullQueueRefuses(w, second, None, now);
    var u := Accept(w, second, None, now).0;
    ConsumedIsRejected(u, first, t);
  }

  lemma BadStopIsRejected(s: Node, intent: Intent, now: real)
    requires intent.stopLoss <= 0.0
    ensures var (t, outcome) := SubmitIntent(s, intent, None, now);
      t == s && outcome.Outcome? && outcome.status.OutRejected?
  {
    hide Replay, Admit;
  }

  lemma ConsumedIsRejected(w: World, intent: Intent, t: real)
    requires w.running && !w.dead && w.queue == [Item(intent, None, t)] && intent.quantity > 0.0
             && intent.stopLoss <= 0.0
    requires EntryIdOf(intent, w.node.adapter.exchange, w.node.cfg.mode) in w.node.db.intents
    ensures var v := Consume(w);
      var id := EntryIdOf(intent, w.node.adapter.exchange, w.node.cfg.mode);
      && v.node.db.orders == w.node.db.orders
      && v.node.db.intents == w.node.db.intents[id := w.node.db.intents[id].(status := StatusRejected)]
  {
    var id := EntryIdOf(intent, w.node.adapter.exchange, w.node.cfg.mode);
    SetStatusEffect(w.node, id, Processing);
    var s := SetStatus(w.node, id, Processing);
    BadStopIsRejected(s, intent, t);
    SetStatusEffect(s, id, StatusRejected);
    hide SetStatus, SubmitIntent, Replay;
  }

  lemma OneRowPass(w: World, id: OrderId, clock: real)
    requires id in w.node.db.intents
    ensures RecoverRows(w, [id], clock) == RecoverRow(w, id, clock)
  {
    hide RecoverRow;
    assert [id][..0] == [];
    assert RecoverRows(w, [], clock) == w;
  }
}
