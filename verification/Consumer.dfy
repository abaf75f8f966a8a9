/** ExecutionConsumer, step by step, over the coordinator object. */
module ConsumerObject {
  import opened Optional
  import opened ExecutionModel
  import opened CoordinatorSpec
  import opened ConsumerSpec
  import opened Risk
  import opened CoordinatorObject

  class ExecutionConsumer {
    const coordinator: Coordinator
    const capacity: nat
    var queue: seq<Item>
    var seen: set<OrderId>
    var running: bool
    var failed: bool
    var dead: bool
    var outcomes: seq<Outcome>

    ghost predicate Valid()
      reads this, coordinator, coordinator.ledger, coordinator.adapter
    {
      coordinator.Valid()
    }

    /** The gate is not an object of the consumer, so its two fields are parameters. */
    ghost function State(risk: RiskConfig, killed: bool): World
      reads this, coordinator, coordinator.ledger, coordinator.adapter
    {
      World(coordinator.State(), risk, killed, capacity, queue, seen, running, failed, dead, outcomes)
    }

    constructor (coordinator: Coordinator, capacity: nat)
      requires coordinator.Valid() && capacity > 0
      ensures Valid() && this.coordinator == coordinator && this.capacity == capacity
      ensures queue == [] && seen == {} && !running && !failed && !dead && outcomes == []
    {
      this.coordinator := coordinator;
      this.capacity := capacity;
      queue := [];
      seen := {};
      running := false;
      failed := false;
      dead := false;
      outcomes := [];
    }

    /** __init__, with null where the source raises ValueError. */
    static method Create(coordinator: Coordinator, maxQueueSize: int) returns (consumer: ExecutionConsumer?)
      requires coordinator.Valid()
      ensures consumer == null <==> maxQueueSize <= 0
      ensures consumer != null ==> fresh(consumer) && consumer.Valid() && consumer.coordinator == coordinator
      ensures consumer != null ==>
              consumer.capacity == maxQueueSize && consumer.queue == [] && consumer.seen == {} && !consumer.running
    {
      if maxQueueSize <= 0 {
        return null;
      }
      consumer := new ExecutionConsumer(coordinator, maxQueueSize);
    }

    /** update_intent_status on the ledger behind the coordinator. */
    method Mark(id: OrderId, status: IntentStatus)
      requires Valid()
      modifies coordinator.ledger
      ensures Valid() && coordinator.State() == SetStatus(old(coordinator.State()), id, status)
    {
      hide Replay, Apply;
      coordinator.ledger.UpdateIntentStatus(id, status);
    }

    method Submit(intent: Intent, asOf: Option<real>, now: real, ghost risk: RiskConfig, ghost killed: bool)
      returns (accepted: Reply<bool>)
      requires Valid()
      modifies this, coordinator.ledger
      ensures Valid() && (State(risk, killed), accepted) == Accept(old(State(risk, killed)), intent, asOf, now)
    {
      hide Replay, Apply;
      if !running || !intent.approved {
        return Ok(false);
      }
      if intent.quantity <= 0.0 {
        return Raise(ValueExn);
      }
      var id := EntryIdOf(intent, coordinator.adapter.exchange, coordinator.cfg.mode);
      if id in seen {
        return Ok(false);
      }
      coordinator.ledger.PersistIntent(intent, id, Persisted, now);
      if |queue| >= capacity {
        return Ok(false);
      }
      queue := queue + [Item(intent, asOf, now)];
      seen := seen + {id};
      Mark(id, Queued);
      return Ok(true);
    }

    method ConsumeOne(ghost risk: RiskConfig, ghost killed: bool)
      requires Valid()
      modifies this, coordinator, coordinator.ledger, coordinator.adapter
      ensures Valid() && State(risk, killed) == Consume(old(State(risk, killed)))
    {
      hide Replay, Apply, SubmitIntent, SetStatus;
      if !running || dead || |queue| == 0 {
        return;
      }
      var item := queue[0];
      queue := queue[1..];
      if item.intent.quantity <= 0.0 {
        dead := true;
        return;
      }
      var id := EntryIdOf(item.intent, coordinator.adapter.exchange, coordinator.cfg.mode);
      Mark(id, Processing);
      var outcome := coordinator.SubmitIntent(item.intent, item.asOf, item.now);
      if outcome.Raised? {
        failed := true;
        running := false;
        return;
      }
      outcomes := outcomes + [outcome];
      Mark(id, StatusOf(outcome));
    }

    /** start(): False when already running. `rows` is the result of load_intents. */
    method Start(rows: seq<OrderId>, clock: real, ghost risk: RiskConfig, ghost killed: bool) returns (started: bool)
      requires Valid() && Listing(coordinator.ledger.db, rows)
      modifies this, coordinator.ledger
      ensures Valid() && started == !old(running)
      ensures State(risk, killed) == ConsumerSpec.Start(old(State(risk, killed)), rows, clock)
    {
      hide Replay, Apply;
      if running {
        return false;
      }
      running := true;
      failed := false;
      dead := false;
      ghost var w := State(risk, killed);
      var i := 0;
      while i < |rows|
        invariant 0 <= i <= |rows| && Valid()
        invariant State(risk, killed) == RecoverRows(w, rows[..i], clock)
      {
        assert rows[..i + 1][..i] == rows[..i];
        RecoverPersistedIntent(rows[i], clock, risk, killed);
        i := i + 1;
      }
      assert rows[..i] == rows;
      return true;
    }

    /** The decision about one row; nothing is written yet. */
    method Decide(id: OrderId, clock: real, ghost risk: RiskConfig, ghost killed: bool) returns (status: IntentStatus)
      requires Valid() && id in coordinator.ledger.db.intents
      ensures status == Verdict(State(risk, killed), id, clock)
    {
      hide Replay, Apply;
      var row := coordinator.ledger.db.intents[id];
      if id in coordinator.ledger.db.orders {
        return StatusUnknown;
      }
      if row.payload == None {
        return StatusFailed;
      }
      if !row.payload.value.approved {
        return StatusRejected;
      }
      var staleAfter := coordinator.cfg.staleAfter;
      if row.createdAt > 0.0 && staleAfter > 0.0 && clock - row.createdAt > staleAfter {
        return StatusExpired;
      }
      if |queue| >= capacity {
        return StatusFailed;
      }
      return Recovered;
    }

    method RecoverPersistedIntent(id: OrderId, clock: real, ghost risk: RiskConfig, ghost killed: bool)
      requires Valid() && id in coordinator.ledger.db.intents
      modifies this, coordinator.ledger
      ensures Valid() && State(risk, killed) == RecoverRow(old(State(risk, killed)), id, clock)
    {
      hide Replay, Apply, Verdict, SetStatus;
      var status := Decide(id, clock, risk, killed);
      var row := coordinator.ledger.db.intents[id];
      Mark(id, status);
      if status == Recovered {
        assert row.payload.Some? by { RecoveredHasPayload(old(State(risk, killed)), id, clock); }
        queue := queue + [Item(row.payload.value, None, row.createdAt)];
        seen := seen + {id};
      }
    }
  }

  lemma RecoveredHasPayload(w: World, id: OrderId, clock: real)
    requires id in w.node.db.intents && Verdict(w, id, clock).Recovered?
    ensures w.node.db.intents[id].payload.Some?
  {}
}
