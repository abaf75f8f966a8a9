/**
 The queue consumer in front of the coordinator, and the whole process around one
 ledger database: coordinator, risk gate and consumer.
 */
module ConsumerSpec {
  import opened Optional
  import opened ExecutionModel
  import opened ExecutionAdapter
  import opened CoordinatorSpec
  import opened Risk

  datatype Item = Item(intent: Intent, asOf: Option<real>, now: real)

  /** `killed` is the gate's flag; `dead` means the consumer task ended in an uncaught exception. */
  datatype World = World(
    node: Node, risk: RiskConfig, killed: bool,
    capacity: nat, queue: seq<Item>, seen: set<OrderId>, running: bool, failed: bool, dead: bool,
    outcomes: seq<Outcome>)

  function BootWorld(cfg: Config, log: seq<Event>, adapter: Adapter, risk: RiskConfig, capacity: nat): World {
    var node := Boot(cfg, log, adapter);
    World(node, risk, IsKilled(node.db), capacity, [], {}, false, false, false, [])
  }

  function SetStatus(s: Node, id: OrderId, status: IntentStatus): Node {
    if id in s.db.intents then s.Put(SetIntentStatus(id, status)) else s
  }

  function StatusOf(outcome: Outcome): IntentStatus
    requires outcome.Outcome?
  {
    match outcome.status
    case OutRejected => StatusRejected
    case OutDuplicate => StatusDuplicate
    case OutReconciled => StatusReconciled
    case OutUnknown => StatusUnknown
    case OutSubmitted => StatusSubmitted
  }

  /** ExecutionConsumer.submit: the row is committed before the intent is queued. */
  function Accept(w: World, intent: Intent, asOf: Option<real>, now: real): (World, Reply<bool>) {
    var id := EntryIdOf(intent, w.node.adapter.exchange, w.node.cfg.mode);
    if !w.running || !intent.approved then (w, Ok(false))
    else if intent.quantity <= 0.0 then (w, Raise(ValueExn))
    else if id in w.seen then (w, Ok(false))
    else
      var persisted := w.node.Put(PutIntent(id, IntentRow(Persisted, now, Some(intent))));
      if |w.queue| >= w.capacity then (w.(node := persisted), Ok(false))
      else (w.(node := SetStatus(persisted, id, Queued), queue := w.queue + [Item(intent, asOf, now)],
               seen := w.seen + {id}), Ok(true))
  }

  /** One turn of the consumer loop. */
  function Consume(w: World): World {
    if !w.running || w.dead || w.queue == [] then w
    else
      var item := w.queue[0];
      var v := w.(queue := w.queue[1..]);
      if item.intent.quantity <= 0.0 then v.(dead := true)
      else
        var id := EntryIdOf(item.intent, w.node.adapter.exchange, w.node.cfg.mode);
        var (t, outcome) := SubmitIntent(SetStatus(w.node, id, Processing), item.intent, item.asOf, item.now);
        if outcome.Raised? then v.(node := t, failed := true, running := false)
        else v.(node := SetStatus(t, id, StatusOf(outcome)), outcomes := w.outcomes + [outcome])
  }

  predicate Recoverable(status: IntentStatus) {
    status.Created? || status.Persisted? || status.Queued? || status.Recovered? || status.Processing?
    || status.Approved?
  }

  /** `rows` is what SELECT ... WHERE status IN (...) ORDER BY created_at returns. */
  predicate Listing(db: Db, rows: seq<OrderId>) {
    && (forall i, j | 0 <= i < j < |rows| :: rows[i] != rows[j])
    && (forall id | id in rows :: id in db.intents && Recoverable(db.intents[id].status))
    && (forall id | id in db.intents && Recoverable(db.intents[id].status) :: id in rows)
    && (forall i, j | 0 <= i < j < |rows| :: db.intents[rows[i]].createdAt <= db.intents[rows[j]].createdAt)
  }

  /** What the recovery pass decides about one row. */
  function Verdict(w: World, id: OrderId, clock: real): IntentStatus
    requires id in w.node.db.intents
  {
    var row := w.node.db.intents[id];
    if id in w.node.db.orders then StatusUnknown
    else if row.payload.None? then StatusFailed
    else if !row.payload.value.approved then StatusRejected
    else if row.createdAt > 0.0 && w.node.cfg.staleAfter > 0.0 && clock - row.createdAt > w.node.cfg.staleAfter
            then StatusExpired
    else if |w.queue| >= w.capacity then StatusFailed
    else Recovered
  }

  function RecoverRow(w: World, id: OrderId, clock: real): (v: World)
    requires id in w.node.db.intents
    ensures v.node.db.intents.Keys == w.node.db.intents.Keys && v.risk == w.risk
  {
    var row := w.node.db.intents[id];
    var status := Verdict(w, id, clock);
    var marked := w.(node := SetStatus(w.node, id, status));
    if status.Recovered?
    then marked.(queue := w.queue + [Item(row.payload.value, None, row.createdAt)], seen := w.seen + {id})
    else marked
  }

  function RecoverRows(w: World, rows: seq<OrderId>, clock: real): (v: World)
    requires forall id | id in rows :: id in w.node.db.intents
    ensures v.node.db.intents.Keys == w.node.db.intents.Keys && v.risk == w.risk
  {
    if rows == [] then w
    else
      var v := RecoverRows(w, rows[..|rows| - 1], clock);
      RecoverRow(v, rows[|rows| - 1], clock)
  }

  function Start(w: World, rows: seq<OrderId>, clock: real): World
    requires Listing(w.node.db, rows)
  {
    if w.running then w else RecoverRows(w.(running := true, failed := false, dead := false), rows, clock)
  }
}
