/** The adapter object: an arbitrary exchange, or the paper exchange held in memory. */
module Exchange {
  import opened Optional
  import opened ExecutionModel
  import opened ExecutionAdapter

  class ExchangeAdapter {
    const exchange: string
    const scripted: bool
    const script: nat -> Answer
    const balance: Balance
    const healthy: bool
    var calls: nat
    var orders: map<OrderId, Order>
    var positions: seq<Position>

    ghost function State(): Adapter
      reads this
    {
      if scripted then Scripted(exchange, script, calls) else PaperBook(exchange, balance, healthy, orders, positions)
    }

    constructor Remote(exchange: string, script: nat -> Answer)
      ensures State() == Scripted(exchange, script, 0)
    {
      this.exchange := exchange;
      scripted := true;
      this.script := script;
      balance := Missing;
      healthy := false;
      calls := 0;
      orders := map[];
      positions := [];
    }

    constructor Book(exchange: string, balance: Balance, healthy: bool)
      ensures State() == PaperBook(exchange, balance, healthy, map[], [])
    {
      this.exchange := exchange;
      scripted := false;
      script := NoScript;
      this.balance := balance;
      this.healthy := healthy;
      calls := 0;
      orders := map[];
      positions := [];
    }

    /** PaperExecutionAdapter.submit_order, or the exchange's answer. */
    method SubmitOrder(order: Order) returns (reply: Reply<Order>)
      modifies this
      ensures (State(), reply) == ExecutionAdapter.SubmitOrder(old(State()), order)
    {
      if scripted {
        calls := calls + 1;
        return script(calls - 1).submit;
      }
      if order.mode != Paper {
        return Raise(ValueExn);
      }
      if order.id in orders {
        return Ok(orders[order.id]);
      }
      if order.reduceOnly {
        orders := orders[order.id := order];
        return Ok(order);
      }
      var accepted := order.(status := Filled, filled := order.quantity, averagePrice := order.price);
      orders := orders[order.id := accepted];
      positions := [Position(order.symbol, if order.side == Buy then Long else Short,
                             order.quantity, order.price, true)];
      return Ok(accepted);
    }

    method AmendOrder(order: Order) returns (reply: Reply<Order>)
      modifies this
      ensures (State(), reply) == Amend(old(State()), order)
    {
      if scripted {
        calls := calls + 1;
        return script(calls - 1).amend;
      }
      if order.id !in orders {
        return Raise(KeyExn);
      }
      orders := orders[order.id := order];
      return Ok(order);
    }

    method GetOrder(id: OrderId) returns (reply: Reply<Option<Order>>)
      modifies this
      ensures (State(), reply) == Lookup(old(State()), id)
    {
      if scripted {
        calls := calls + 1;
        return script(calls - 1).lookup;
      }
      return Ok(if id in orders then Some(orders[id]) else None);
    }

    method HealthCheck() returns (reply: Reply<bool>)
      modifies this
      ensures (State(), reply) == Health(old(State()))
    {
      if scripted {
        calls := calls + 1;
        return script(calls - 1).health;
      }
      return Ok(healthy);
    }

    method GetAccountState() returns (reply: Reply<Balance>)
      modifies this
      ensures (State(), reply) == Account(old(State()))
    {
      if scripted {
        calls := calls + 1;
        return script(calls - 1).account;
      }
      return Ok(balance);
    }

    method GetPositions() returns (reply: Reply<seq<Position>>)
      modifies this
      ensures (State(), reply) == Positions(old(State()))
    {
      if scripted {
        calls := calls + 1;
        return script(calls - 1).positions;
      }
      return Ok(positions);
    }

    method Reconcile(expected: Option<Position>) returns (reply: Reply<ReconResult>)
      modifies this
      ensures (State(), reply) == ExecutionAdapter.Reconcile(old(State()), expected)
    {
      if scripted {
        calls := calls + 1;
        return script(calls - 1).recon;
      }
      return Ok(ReconcilePositions(expected, positions));
    }
  }

  /** Never asked: a paper adapter does not read its script. */
  function NoScript(call: nat): Answer {
    Answer(Raise(OtherExn), Raise(OtherExn), Raise(OtherExn), Raise(OtherExn), Raise(OtherExn), Raise(OtherExn),
           Raise(OtherExn))
  }
}
