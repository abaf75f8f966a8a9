/**
 The exchange side. A `Scripted` adapter answers its n-th call from an arbitrary
 function, so a statement about all scripts holds for every exchange, including
 one that reacts to what it is sent. `PaperBook` is the in-memory paper exchange.
 */
module ExecutionAdapter {
  import opened Optional
  import opened ExecutionModel

  /** The float stored under "available_balance". */
  datatype Balance = Missing | Finite(amount: real) | PosInf | NegInf | NotANumber

  datatype ReconResult = ReconResult(status: ReconStatus, actual: Option<Symbol>)

  datatype Answer = Answer(
    health: Reply<bool>, account: Reply<Balance>, submit: Reply<Order>, amend: Reply<Order>,
    lookup: Reply<Option<Order>>, positions: Reply<seq<Position>>, recon: Reply<ReconResult>)

  datatype Adapter =
    | Scripted(exchange: string, script: nat -> Answer, calls: nat)
    | PaperBook(exchange: string, balance: Balance, healthy: bool,
                orders: map<OrderId, Order>, positions: seq<Position>)

  /** A call moves the exchange on but does not replace it. */
  ghost predicate SameExchange(a: Adapter, b: Adapter) {
    a.exchange == b.exchange && a.Scripted? == b.Scripted? && (a.Scripted? ==> a.script == b.script)
  }

  function Next(a: Adapter): Adapter
    requires a.Scripted?
  {
    a.(calls := a.calls + 1)
  }

  function Health(a: Adapter): (r: (Adapter, Reply<bool>))
    ensures SameExchange(a, r.0)
  {
    if a.Scripted? then (Next(a), a.script(a.calls).health) else (a, Ok(a.healthy))
  }

  function Account(a: Adapter): (r: (Adapter, Reply<Balance>))
    ensures SameExchange(a, r.0)
  {
    if a.Scripted? then (Next(a), a.script(a.calls).account) else (a, Ok(a.balance))
  }

  function Lookup(a: Adapter, id: OrderId): (r: (Adapter, Reply<Option<Order>>))
    ensures SameExchange(a, r.0)
  {
    if a.Scripted? then (Next(a), a.script(a.calls).lookup)
    else (a, Ok(if id in a.orders then Some(a.orders[id]) else None))
  }

  function Amend(a: Adapter, order: Order): (r: (Adapter, Reply<Order>))
    ensures SameExchange(a, r.0)
  {
    if a.Scripted? then (Next(a), a.script(a.calls).amend)
    else if order.id !in a.orders then (a, Raise(KeyExn))
    else (a.(orders := a.orders[order.id := order]), Ok(order))
  }

  function Positions(a: Adapter): (r: (Adapter, Reply<seq<Position>>))
    ensures SameExchange(a, r.0)
  {
    if a.Scripted? then (Next(a), a.script(a.calls).positions) else (a, Ok(a.positions))
  }

  function Reconcile(a: Adapter, expected: Option<Position>): (r: (Adapter, Reply<ReconResult>))
    ensures SameExchange(a, r.0)
  {
    if a.Scripted? then (Next(a), a.script(a.calls).recon) else (a, Ok(ReconcilePositions(expected, a.positions)))
  }

  /** PaperExecutionAdapter.submit_order: entries fill at once and in full, children rest. */
  function PaperSubmit(a: Adapter, order: Order): (Adapter, Reply<Order>)
    requires a.PaperBook?
  {
    if !order.mode.Paper? then (a, Raise(ValueExn))
    else if order.id in a.orders then (a, Ok(a.orders[order.id]))
    else if order.reduceOnly then (a.(orders := a.orders[order.id := order]), Ok(order))
    else
      var accepted := order.(status := Filled, filled := order.quantity, averagePrice := order.price);
      (a.(orders := a.orders[order.id := accepted],
          positions := [Position(order.symbol, if order.side.Buy? then Long else Short,
                                 order.quantity, order.price, true)]),
       Ok(accepted))
  }

  function SubmitOrder(a: Adapter, order: Order): (r: (Adapter, Reply<Order>))
    ensures SameExchange(a, r.0)
  {
    if a.Scripted? then (Next(a), a.script(a.calls).submit) else PaperSubmit(a, order)
  }

  // ---------------------------------------------------------------- reconcile_positions

  function FindPosition(positions: seq<Position>, symbol: Symbol): Option<Position> {
    if positions == [] then None
    else if positions[0].symbol == symbol then Some(positions[0])
    else FindPosition(positions[1..], symbol)
  }

  /** The dictionary of the source keeps the last position of a symbol. */
  function LastPosition(positions: seq<Position>, symbol: Symbol): Option<Position> {
    if positions == [] then None
    else if positions[|positions| - 1].symbol == symbol then Some(positions[|positions| - 1])
    else LastPosition(positions[..|positions| - 1], symbol)
  }

  function ReconcilePositions(expected: Option<Position>, actual: seq<Position>): ReconResult {
    match expected
    case None =>
      ReconResult(if actual == [] then Match else Discrepancy, if actual == [] then None else Some(actual[0].symbol))
    case Some(e) =>
      var found := LastPosition(actual, e.symbol);
      var clean :=
        && found.Some?
        && e.side == found.value.side
        && Negligible(e.quantity - found.value.quantity)
        && (e.averagePrice.Some? && found.value.averagePrice.Some? ==>
            Negligible(e.averagePrice.value - found.value.averagePrice.value))
        && forall p | p in actual :: p.symbol == e.symbol;
      ReconResult(if clean then Match else Discrepancy, if found.Some? then Some(e.symbol) else None)
  }

  // ---------------------------------------------------------------- the answers, one by one

  /**
   A scripted exchange answers every call with the next entry of its script. The paper book answers from what it
   holds: it looks up and replaces by id, refuses other modes, gives back a known order, rests reduce-only orders,
   and fills an entry at once, in full and at its price, as its only position.
   */
  lemma CallsExactly(a: Adapter, id: OrderId, order: Order, expected: Option<Position>)
    ensures a.Scripted? ==>
            var (next, answer) := (Scripted(a.exchange, a.script, a.calls + 1), a.script(a.calls));
            && Health(a) == (next, answer.health) && Account(a) == (next, answer.account)
            && Lookup(a, id) == (next, answer.lookup) && Amend(a, order) == (next, answer.amend)
            && Positions(a) == (next, answer.positions) && Reconcile(a, expected) == (next, answer.recon)
            && SubmitOrder(a, order) == (next, answer.submit)
    ensures a.PaperBook? ==>
            && Health(a) == (a, Ok(a.healthy)) && Account(a) == (a, Ok(a.balance))
            && Lookup(a, id) == (a, Ok(if id in a.orders then Some(a.orders[id]) else None))
            && Amend(a, order) == (if order.id in a.orders then (a.(orders := a.orders[order.id := order]), Ok(order))
                                   else (a, Raise(KeyExn)))
            && Positions(a) == (a, Ok(a.positions))
            && Reconcile(a, expected) == (a, Ok(ReconcilePositions(expected, a.positions)))
            && SubmitOrder(a, order) ==
                 if order.mode != Paper then (a, Raise(ValueExn))
                 else if order.id in a.orders then (a, Ok(a.orders[order.id]))
                 else if order.reduceOnly then (a.(orders := a.orders[order.id := order]), Ok(order))
                 else
                   var filled := order.(status := Filled, filled := order.quantity, averagePrice := order.price);
                   (a.(orders := a.orders[order.id := filled],
                       positions := [Position(order.symbol, if order.side == Buy then Long else Short, order.quantity,
                                              order.price, true)]),
                    Ok(filled))
  {}

  /** Position k is the last one of its symbol. */
  predicate LastOf(positions: seq<Position>, k: int, symbol: Symbol) {
    0 <= k < |positions| && positions[k].symbol == symbol
    && forall j | k < j < |positions| :: positions[j].symbol != symbol
  }

  lemma {:induction false} LastIsFound(positions: seq<Position>, symbol: Symbol)
    ensures var found := LastPosition(positions, symbol);
            && (forall k | LastOf(positions, k, symbol) :: found == Some(positions[k]))
            && (found.None? <==> forall p | p in positions :: p.symbol != symbol)
            && (found.Some? ==> exists k :: LastOf(positions, k, symbol))
  {
    if positions != [] {
      var before, last := positions[..|positions| - 1], positions[|positions| - 1];
      LastIsFound(before, symbol);
      assert positions == before + [last];
      if last.symbol == symbol {
        assert LastOf(positions, |before|, symbol);
      } else {
        assert forall k :: LastOf(positions, k, symbol) <==> LastOf(before, k, symbol);
      }
    }
  }

  /**
   Positions MATCH exactly when none is expected and none is there, or when every position is on the expected symbol
   and the last one has the expected side, its quantity within 1e-9, and its price within 1e-9 if both are known.
   */
  lemma ReconciledExactly(expected: Option<Position>, actual: seq<Position>)
    ensures var r := ReconcilePositions(expected, actual);
      && (r.status == Match || r.status == Discrepancy)
      && (r.status == Match <==>
            if expected.None? then actual == []
            else
              && (forall p | p in actual :: p.symbol == expected.value.symbol)
              && actual != [] && actual[|actual| - 1].side == expected.value.side
              && -0.000000001 <= expected.value.quantity - actual[|actual| - 1].quantity <= 0.000000001
              && (expected.value.averagePrice.Some? && actual[|actual| - 1].averagePrice.Some? ==>
                  -0.000000001 <= expected.value.averagePrice.value - actual[|actual| - 1].averagePrice.value
                    <= 0.000000001))
      && (r.actual == if expected.None? then (if actual == [] then None else Some(actual[0].symbol))
                      else if exists p :: p in actual && p.symbol == expected.value.symbol
                      then Some(expected.value.symbol) else None)
  {
    if expected.Some? {
      LastIsFound(actual, expected.value.symbol);
      if actual != [] { assert actual[|actual| - 1] in actual; }
      if forall p | p in actual :: p.symbol == expected.value.symbol {
        assert actual != [] ==> LastOf(actual, |actual| - 1, expected.value.symbol);
      }
    }
  }
}
