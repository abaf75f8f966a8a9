/**
 ExecutionLedger over a database. Every method commits one transaction (`atomic` is
 all-or-nothing), and the ghost `log` lists them in order.
 */
module LedgerState {
  import opened Optional
  import opened ExecutionModel

  class Ledger {
    var db: Db
    var memory: Recovery
    ghost var log: seq<Event>

    ghost predicate Valid()
      reads this
    {
      db == Replay(log)
    }

    /** Open the database that the transactions of `history` left on disk. */
    constructor (db: Db, ghost history: seq<Event>)
      requires db == Replay(history)
      ensures Valid() && this.db == db && memory == Ready && log == history
    {
      this.db := db;
      memory := Ready;
      log := history;
    }

    method PersistOrder(order: Order)
      requires Valid()
      modifies this
      ensures Valid() && log == old(log) + [PutOrder(order)] && memory == old(memory)
      ensures db == Apply(old(db), PutOrder(order)) == old(db).(orders := old(db).orders[order.id := order])
    {
      ReplayAppend(log, PutOrder(order));
      db := db.(orders := db.orders[order.id := order]);
      log := log + [PutOrder(order)];
    }

    /** Insert, or on conflict overwrite only the status and the payload. */
    method PersistIntent(intent: Intent, id: OrderId, status: IntentStatus, createdAt: real)
      requires Valid()
      modifies this
      ensures Valid() && memory == old(memory)
      ensures log == old(log) + [PutIntent(id, IntentRow(status, createdAt, Some(intent)))]
      ensures db == Apply(old(db), PutIntent(id, IntentRow(status, createdAt, Some(intent))))
      ensures db == old(db).(intents := db.intents) && db.intents.Keys == old(db).intents.Keys + {id}
      ensures db.intents[id] == IntentRow(status, if id in old(db).intents then old(db).intents[id].createdAt
                                          else createdAt, Some(intent))
      ensures forall other | other in old(db).intents && other != id :: db.intents[other] == old(db).intents[other]
    {
      ReplayAppend(log, PutIntent(id, IntentRow(status, createdAt, Some(intent))));
      if id in db.intents {
        db := db.(intents := db.intents[id := db.intents[id].(status := status, payload := Some(intent))]);
      } else {
        db := db.(intents := db.intents[id := IntentRow(status, createdAt, Some(intent))]);
      }
      log := log + [PutIntent(id, IntentRow(status, createdAt, Some(intent)))];
    }

    /** Two transactions: the order row commits before the intent row. */
    method PersistIntentOrderTransition(intent: Intent, order: Order, createdAt: real)
      requires Valid()
      modifies this
      ensures Valid() && memory == old(memory)
      ensures log == old(log) + [PutOrder(order)] + [PutIntent(order.id, IntentRow(Approved, createdAt, Some(intent)))]
      ensures db == Apply(Apply(old(db), PutOrder(order)),
                          PutIntent(order.id, IntentRow(Approved, createdAt, Some(intent))))
    {
      PersistOrder(order);
      PersistIntent(intent, order.id, Approved, createdAt);
    }

    /** Nothing is written when the row does not exist. */
    method UpdateIntentStatus(id: OrderId, status: IntentStatus)
      requires Valid()
      modifies this
      ensures Valid() && memory == old(memory)
      ensures log == if id in old(db).intents then old(log) + [SetIntentStatus(id, status)] else old(log)
      ensures db == Apply(old(db), SetIntentStatus(id, status))
      ensures db == if id in old(db).intents
                    then old(db).(intents := old(db).intents[id := old(db).intents[id].(status := status)])
                    else old(db)
    {
      if id in db.intents {
        ReplayAppend(log, SetIntentStatus(id, status));
        db := db.(intents := db.intents[id := db.intents[id].(status := status)]);
        log := log + [SetIntentStatus(id, status)];
      }
    }

    method RecordProtection(order: Order)
      requires Valid()
      modifies this
      ensures Valid() && log == old(log) + [PutProtection(order)] && memory == old(memory)
      ensures db == Apply(old(db), PutProtection(order))
           == old(db).(protections := old(db).protections[order.id := order])
    {
      ReplayAppend(log, PutProtection(order));
      db := db.(protections := db.protections[order.id := order]);
      log := log + [PutProtection(order)];
    }

    method RecordReconciliation(symbol: Symbol, status: ReconStatus)
      requires Valid()
      modifies this
      ensures Valid() && log == old(log) + [PutRecon(symbol, status)]
      ensures memory == if status == Match || status == Okay then Ready else Recovering
      ensures db == Apply(old(db), PutRecon(symbol, status)) == old(db).(recon := old(db).recon + [(symbol, status)])
    {
      ReplayAppend(log, PutRecon(symbol, status));
      memory := if status.Match? || status.Okay? then Ready else Recovering;
      db := db.(recon := db.recon + [(symbol, status)]);
      log := log + [PutRecon(symbol, status)];
    }

    /** One transaction over three tables. It does not touch `memory`. */
    method RecordConfirmedFill(fill: Fill, position: Position, status: ReconStatus)
      requires Valid()
      modifies this
      ensures Valid() && log == old(log) + [PutFill(fill, position, status)] && memory == old(memory)
      ensures db == Apply(old(db), PutFill(fill, position, status))
      ensures var known := exists f | f in old(db).fills ::
                f.orderId == fill.orderId && f.quantity == fill.quantity && f.price == fill.price
                && f.time == fill.time;
              db == old(db).(fills := if known then old(db).fills else old(db).fills + [fill],
                             positions := old(db).positions[position.symbol := position],
                             recon := old(db).recon + [(position.symbol, status)])
    {
      ReplayAppend(log, PutFill(fill, position, status));
      var rows := db.fills;
      if !KnownFill(rows, fill) {
        rows := rows + [fill];
      }
      db := db.(fills := rows,
                positions := db.positions[position.symbol := position],
                recon := db.recon + [(position.symbol, status)]);
      log := log + [PutFill(fill, position, status)];
    }

    method RecordKillSwitch(state: KillState)
      requires Valid()
      modifies this
      ensures Valid() && log == old(log) + [PutKill(state)] && memory == old(memory)
      ensures db == Apply(old(db), PutKill(state)) == old(db).(kills := old(db).kills + [state])
    {
      ReplayAppend(log, PutKill(state));
      db := db.(kills := db.kills + [state]);
      log := log + [PutKill(state)];
    }

    method RecoveryState() returns (state: Recovery)
      ensures state.Ready? <==> db.recon == [] || (LatestGood(db) && memory.Ready?)
      ensures state == Ready <==>
              db.recon == [] || (db.recon[|db.recon| - 1].1 in [Match, Okay] && memory == Ready)
    {
      if db.recon == [] {
        return Ready;
      }
      var latest := db.recon[|db.recon| - 1].1;
      if !(latest.Match? || latest.Okay?) {
        return Recovering;
      }
      return memory;
    }

    method KillSwitchState() returns (killed: bool)
      ensures killed == IsKilled(db) == (db.kills != [] && db.kills[|db.kills| - 1] == Killed)
    {
      if |db.kills| == 0 {
        return false;
      }
      return db.kills[|db.kills| - 1] == Killed;
    }

    method FilledQuantity(id: OrderId) returns (total: real)
      ensures total == Fills(db.fills, id)
    {
      total := 0.0;
      var i := 0;
      while i < |db.fills|
        invariant 0 <= i <= |db.fills|
        invariant total == Fills(db.fills[..i], id)
      {
        assert db.fills[..i + 1][..i] == db.fills[..i];
        if db.fills[i].orderId == id {
          total := total + db.fills[i].quantity;
        }
        i := i + 1;
      }
      assert db.fills[..i] == db.fills;
    }

    /** False where the source raises ValueError. */
    method ValidateDerivedState() returns (valid: bool)
      ensures valid == DerivedStateValid(db)
      ensures valid <==> forall symbol | symbol in db.positions && db.positions[symbol].open ::
                -0.000000001 <= db.positions[symbol].quantity - SymbolFills(db.fills, symbol) <= 0.000000001
    {
      var todo := db.positions.Keys;
      while todo != {}
        invariant todo <= db.positions.Keys
        invariant forall symbol | symbol in db.positions && symbol !in todo && db.positions[symbol].open ::
          -TOLERANCE <= db.positions[symbol].quantity - SymbolFills(db.fills, symbol) <= TOLERANCE
        decreases todo
      {
        var symbol :| symbol in todo;
        if db.positions[symbol].open {
          var total := SumSymbol(symbol);
          var gap := db.positions[symbol].quantity - total;
          if gap > TOLERANCE || -gap > TOLERANCE {
            return false;
          }
        }
        todo := todo - {symbol};
      }
      return true;
    }

    /** SELECT COALESCE(SUM(quantity), 0) FROM fills WHERE symbol = ? */
    method SumSymbol(symbol: Symbol) returns (total: real)
      ensures total == SymbolFills(db.fills, symbol)
    {
      total := 0.0;
      var i := 0;
      while i < |db.fills|
        invariant 0 <= i <= |db.fills|
        invariant total == SymbolFills(db.fills[..i], symbol)
      {
        assert db.fills[..i + 1][..i] == db.fills[..i];
        if db.fills[i].symbol == symbol {
          total := total + db.fills[i].quantity;
        }
        i := i + 1;
      }
      assert db.fills[..i] == db.fills;
    }
  }
}
