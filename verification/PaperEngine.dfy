/** PaperExecutionEngine: profit and loss over every run of a simulated position. */
module PaperEngine {
  import opened Arithmetic
  import opened Optional
  import opened ExecutionModel
  import opened Risk

  datatype PaperStatus = Open | ClosedStop | ClosedTarget | Tp1Partial | Closed

  datatype PaperPosition = PaperPosition(
    symbol: Symbol, side: Action, entry: real, quantity: real, stopLoss: real,
    tp1: Option<real>, tp2: Option<real>, remaining: real, realized: real, unrealized: real, status: PaperStatus)

  /** x * y, as a symbol that proofs can leave unopened. */
  function Times(x: real, y: real): real { x * y }

  lemma TimesMonotone(x: real, y: real, z: real)
    requires x >= y && z >= 0.0
    ensures Times(x, z) >= Times(y, z) && Times(z, x) >= Times(z, y)
  {}

  lemma TimesAntitone(x: real, a: real, b: real)
    requires x <= 0.0 && a <= b
    ensures Times(x, a) >= Times(x, b)
  {}

  lemma TimesSplit(x: real, a: real, b: real)
    ensures Times(x, a) + Times(x, b) == Times(x, a + b)
  {}

  /** The gain of one unit bought (or, unless LONG, sold) at `entry` and closed at `price`. */
  function Move(side: Action, entry: real, price: real): real {
    if side.Long? then price - entry else entry - price
  }

  predicate Reaches(side: Action, price: real, target: Option<real>) {
    target.Some? && (if side.Long? then price >= target.value else price <= target.value)
  }

  predicate Stopped(p: PaperPosition, price: real) {
    if p.side.Long? then price <= p.stopLoss else price >= p.stopLoss
  }

  predicate Profitable(side: Action, entry: real, target: Option<real>) {
    target.Some? ==> if side.Long? then target.value > entry else target.value < entry
  }

  /** open() accepts the intent at this entry price. */
  predicate Opens(intent: Intent, entry: real) {
    && intent.paperOnly && intent.approved
    && entry > 0.0 && intent.quantity > 0.0 && intent.stopLoss > 0.0
    && (intent.action.Long? ==> intent.stopLoss < entry)
    && (intent.action.Short? ==> intent.stopLoss > entry)
    && Profitable(intent.action, entry, intent.tp1) && Profitable(intent.action, entry, intent.tp2)
    && Profitable(intent.action, entry, intent.tp3)
  }

  function Slipped(side: Action, entry: real, slippage: real): real {
    if side.Long? then Times(entry, 1.0 + slippage) else Times(entry, 1.0 - slippage)
  }

  function OpenedAt(intent: Intent, entry: real, feeRate: real, slippage: real): PaperPosition {
    var paid := Slipped(intent.action, entry, slippage);
    PaperPosition(intent.symbol, intent.action, paid, intent.quantity, intent.stopLoss, intent.tp1, intent.tp2,
                  intent.quantity, -Fee(paid, intent.quantity, feeRate), 0.0, Open)
  }

  function Fee(entry: real, quantity: real, feeRate: real): real { Times(Times(entry, quantity), feeRate) }

  datatype Lot = Lot(price: real, quantity: real)

  datatype Event = Update(price: real) | Trail(stop: real) | CloseAt(price: real)

  /** What one event closes: everything at the stop, everything at the market beyond tp2, half at tp1. */
  function Closes(p: PaperPosition, event: Event): seq<Lot> {
    match event
    case Update(price) =>
      if Stopped(p, price) then [Lot(p.stopLoss, p.remaining)]
      else if Reaches(p.side, price, p.tp2) then [Lot(price, p.remaining)]
      else if Reaches(p.side, price, p.tp1) then [Lot(p.tp1.value, p.remaining / 2.0)]
      else []
    case Trail(_) => []
    case CloseAt(price) => [Lot(price, p.remaining)]
  }

  /** trail() accepts the stop: the position is OPEN and the stop moves with the trade. */
  predicate Trails(p: PaperPosition, stop: real) {
    p.status.Open? && !(p.side.Long? && stop <= p.stopLoss) && !(p.side.Short? && stop >= p.stopLoss)
  }

  /** One event; a refused trail changes nothing. */
  function Step(p: PaperPosition, event: Event): PaperPosition {
    var lots := Closes(p, event);
    var remaining := p.remaining - Quantity(lots);
    var realized := p.realized + Gain(p.side, p.entry, lots);
    match event
    case Update(price) =>
      var status := if Stopped(p, price) then ClosedStop
                    else if Reaches(p.side, price, p.tp2) then ClosedTarget
                    else if Reaches(p.side, price, p.tp1) then Tp1Partial else Open;
      p.(remaining := remaining, realized := realized, status := status,
         unrealized := if remaining != 0.0 then Times(Move(p.side, p.entry, price), p.remaining) else 0.0)
    case Trail(stop) => if Trails(p, stop) then p.(stopLoss := stop) else p
    case CloseAt(price) => p.(remaining := 0.0, realized := realized, unrealized := 0.0, status := Closed)
  }

  function Quantity(lots: seq<Lot>): real {
    if lots == [] then 0.0 else Quantity(lots[..|lots| - 1]) + lots[|lots| - 1].quantity
  }

  /** The signed sum over closed lots. */
  function Gain(side: Action, entry: real, lots: seq<Lot>): real {
    if lots == [] then 0.0
    else Gain(side, entry, lots[..|lots| - 1]) + Times(Move(side, entry, lots[|lots| - 1].price),
                                                       lots[|lots| - 1].quantity)
  }

  function Run(p: PaperPosition, events: seq<Event>): PaperPosition {
    if events == [] then p else Step(Run(p, events[..|events| - 1]), events[|events| - 1])
  }

  function Lots(p: PaperPosition, events: seq<Event>): seq<Lot> {
    if events == [] then []
    else Lots(p, events[..|events| - 1]) + Closes(Run(p, events[..|events| - 1]), events[|events| - 1])
  }

  // ---------------------------------------------------------------- the object

  class PaperExecutionEngine {
    const feeRate: real
    const slippage: real
    var position: Option<PaperPosition>
    var realizedPnl: real

    constructor (feeRate: real, slippage: real)
      requires feeRate >= 0.0 && slippage >= 0.0
      ensures this.feeRate == feeRate && this.slippage == slippage && position == None && realizedPnl == 0.0
    {
      this.feeRate := feeRate;
      this.slippage := slippage;
      position := None;
      realizedPnl := 0.0;
    }

    /** __init__, with null where the source raises ValueError. */
    static method Create(feeRate: real, slippage: real) returns (engine: PaperExecutionEngine?)
      ensures engine == null <==> feeRate < 0.0 || slippage < 0.0
      ensures engine != null ==>
              fresh(engine) && engine.feeRate == feeRate && engine.slippage == slippage && engine.position == None
    {
      if feeRate < 0.0 || slippage < 0.0 {
        return null;
      }
      engine := new PaperExecutionEngine(feeRate, slippage);
    }

    /** False where the source raises ValueError; then nothing changes. */
    method OpenPosition(intent: Intent, price: Option<real>) returns (done: bool)
      modifies this
      ensures var entry := if price.Some? then price.value else intent.entry;
        && done == (Opens(intent, entry) && !(old(position).Some? && old(position).value.status.Open?))
        && (done ==>
            position == Some(OpenedAt(intent, entry, feeRate, slippage)) && realizedPnl == position.value.realized)
      ensures !done ==> position == old(position) && realizedPnl == old(realizedPnl)
    {
      if !intent.paperOnly {
        return false;
      }
      if !intent.approved {
        return false;
      }
      if position.Some? && position.value.status == Open {
        return false;
      }
      var entry := if price.Some? then price.value else intent.entry;
      if entry <= 0.0 || intent.quantity <= 0.0 || intent.stopLoss <= 0.0 {
        return false;
      }
      if intent.action == Long && intent.stopLoss >= entry {
        return false;
      }
      if intent.action == Short && intent.stopLoss <= entry {
        return false;
      }
      var targets := [intent.tp1, intent.tp2, intent.tp3];
      var i := 0;
      while i < 3
        invariant 0 <= i <= 3
        invariant forall k | 0 <= k < i :: Profitable(intent.action, entry, targets[k])
      {
        if targets[i].Some?
        && (if intent.action == Long then targets[i].value <= entry else targets[i].value >= entry) {
          assert !Profitable(intent.action, entry, targets[i]);
          return false;
        }
        i := i + 1;
      }
      assert Profitable(intent.action, entry, targets[0]) && Profitable(intent.action, entry, targets[1])
        && Profitable(intent.action, entry, targets[2]);
      ghost var asked := entry;
      if intent.action == Long {
        entry := Times(entry, 1.0 + slippage);
      } else {
        entry := Times(entry, 1.0 - slippage);
      }
      assert entry == Slipped(intent.action, asked, slippage);
      var fee := Fee(entry, intent.quantity, feeRate);
      position := Some(PaperPosition(intent.symbol, intent.action, entry, intent.quantity, intent.stopLoss,
                                     intent.tp1, intent.tp2, intent.quantity, -fee, 0.0, Open));
      realizedPnl := -fee;
      assert position == Some(OpenedAt(intent, asked, feeRate, slippage));
      return true;
    }

    method UpdatePrice(price: real) returns (done: bool)
      modifies this
      ensures done == old(position).Some?
      ensures done ==>
              position == Some(Step(old(position).value, Update(price))) && realizedPnl == position.value.realized
      ensures !done ==> position == old(position) && realizedPnl == old(realizedPnl)
    {
      if position == None {
        return false;
      }
      var p := position.value;
      var move := if p.side == Long then price - p.entry else p.entry - price;
      var unrealized := Times(move, p.remaining);
      var hitStop := if p.side == Long then price <= p.stopLoss else price >= p.stopLoss;
      var hitTp2 := p.tp2.Some? && (if p.side == Long then price >= p.tp2.value else price <= p.tp2.value);
      var hitTp1 := p.tp1.Some? && (if p.side == Long then price >= p.tp1.value else price <= p.tp1.value);
      var status := Open;
      var remaining := p.remaining;
      var realized := p.realized;
      UpdateEffect(p, price);
      hide Times, Step;
      assert move == Move(p.side, p.entry, price) && hitStop == Stopped(p, price);
      if hitStop {
        var stopMove := if p.side == Long then p.stopLoss - p.entry else p.entry - p.stopLoss;
        assert stopMove == Move(p.side, p.entry, p.stopLoss);
        realized := realized + Times(stopMove, remaining);
        remaining := 0.0;
        status := ClosedStop;
      } else if hitTp2 {
        realized := realized + unrealized;
        remaining := 0.0;
        status := ClosedTarget;
      } else if hitTp1 {
        var partial := p.remaining / 2.0;
        var targetMove := if p.side == Long then p.tp1.value - p.entry else p.entry - p.tp1.value;
        assert targetMove == Move(p.side, p.entry, p.tp1.value);
        realized := realized + Times(targetMove, partial);
        remaining := remaining - partial;
        status := Tp1Partial;
      }
      realizedPnl := realized;
      position := Some(PaperPosition(p.symbol, p.side, p.entry, p.quantity, p.stopLoss, p.tp1, p.tp2,
                                     remaining, realized, if remaining != 0.0 then unrealized else 0.0, status));
      assert position.value.remaining == Step(p, Update(price)).remaining;
      assert position.value.realized == Step(p, Update(price)).realized;
      assert position.value.unrealized == Step(p, Update(price)).unrealized;
      assert position.value.status == Step(p, Update(price)).status;
      return true;
    }

    method TrailStop(stop: real) returns (done: bool)
      modifies this
      ensures done == (old(position).Some? && Trails(old(position).value, stop))
      ensures old(position).Some? ==> position == Some(Step(old(position).value, Trail(stop)))
      ensures old(position).None? ==> position == None
      ensures realizedPnl == old(realizedPnl)
    {
      if position == None || position.value.status != Open {
        return false;
      }
      var p := position.value;
      if p.side == Long && stop <= p.stopLoss {
        return false;
      }
      if p.side == Short && stop >= p.stopLoss {
        return false;
      }
      position := Some(p.(stopLoss := stop));
      return true;
    }

    method Close(price: real) returns (done: bool)
      modifies this
      ensures done == old(position).Some?
      ensures done ==>
              position == Some(Step(old(position).value, CloseAt(price))) && realizedPnl == position.value.realized
      ensures !done ==> position == old(position) && realizedPnl == old(realizedPnl)
    {
      if position == None {
        return false;
      }
      var p := position.value;
      SingleLot(p.side, p.entry, price, p.remaining);
      var pnl := Times(if p.side == Long then price - p.entry else p.entry - price, p.remaining);
      realizedPnl := p.realized + pnl;
      position := Some(PaperPosition(p.symbol, p.side, p.entry, p.quantity, p.stopLoss, p.tp1, p.tp2, 0.0, realizedPnl,
                                     0.0, Closed));
      return true;
    }
  }

  /** What one price update does, case by case. */
  lemma UpdateEffect(p: PaperPosition, price: real)
    ensures var q, move := Step(p, Update(price)), Times(Move(p.side, p.entry, price), p.remaining);
      if Stopped(p, price) then
        q == p.(remaining := 0.0, realized := p.realized + Times(Move(p.side, p.entry, p.stopLoss), p.remaining),
                unrealized := 0.0, status := ClosedStop)
      else if Reaches(p.side, price, p.tp2) then
        q == p.(remaining := 0.0, realized := p.realized + move, unrealized := 0.0, status := ClosedTarget)
      else if Reaches(p.side, price, p.tp1) then
        var half := p.remaining / 2.0;
        q == p.(remaining := p.remaining - half,
                realized := p.realized + Times(Move(p.side, p.entry, p.tp1.value), half),
                unrealized := if p.remaining - half != 0.0 then move else 0.0, status := Tp1Partial)
      else q == p.(unrealized := if p.remaining != 0.0 then move else 0.0, status := Open)
  {
    var lots := Closes(p, Update(price));
    if lots != [] {
      SingleLot(p.side, p.entry, lots[0].price, lots[0].quantity);
    }
  }

  lemma SingleLot(side: Action, entry: real, price: real, quantity: real)
    ensures Quantity([Lot(price, quantity)]) == quantity
    ensures Gain(side, entry, [Lot(price, quantity)]) == Times(Move(side, entry, price), quantity)
  {
    var lots := [Lot(price, quantity)];
    assert lots[..0] == [];
  }

  lemma {:induction false} LotsAppend(side: Action, entry: real, lots: seq<Lot>, more: seq<Lot>)
    requires |more| <= 1
    ensures Quantity(lots + more) == Quantity(lots) + Quantity(more)
    ensures Gain(side, entry, lots + more) == Gain(side, entry, lots) + Gain(side, entry, more)
  {
    if more == [] {
      assert lots + more == lots;
    } else {
      assert (lots + more)[..|lots|] == lots && more[..0] == [];
    }
  }

  // ---------------------------------------------------------------- every operation, in prices

  /** What open() accepts, and the position it leaves: the entry slipped against the trade, its fee already lost. */
  lemma OpenedExactly(intent: Intent, entry: real, feeRate: real, slippage: real)
    ensures Opens(intent, entry) <==>
            && intent.paperOnly && intent.approved && entry > 0.0 && intent.quantity > 0.0 && intent.stopLoss > 0.0
            && (intent.action == Long ==> intent.stopLoss < entry)
            && (intent.action == Short ==> intent.stopLoss > entry)
            && forall target | target in [intent.tp1, intent.tp2, intent.tp3] && target.Some? ::
                 if intent.action == Long then target.value > entry else target.value < entry
    ensures var p := OpenedAt(intent, entry, feeRate, slippage);
      && p.entry == (if intent.action == Long then entry + entry * slippage else entry - entry * slippage)
      && p.realized == -(p.entry * intent.quantity * feeRate) && p.unrealized == 0.0
      && p.quantity == p.remaining == intent.quantity && p.status == Open
      && p.symbol == intent.symbol && p.side == intent.action && p.stopLoss == intent.stopLoss
      && p.tp1 == intent.tp1 && p.tp2 == intent.tp2
  {
    var targets := [intent.tp1, intent.tp2, intent.tp3];
    assert targets[0] in targets && targets[1] in targets && targets[2] in targets;
    assert forall target | target in targets :: target == targets[0] || target == targets[1] || target == targets[2];
    assert entry * (1.0 + slippage) == entry + entry * slippage;
    assert entry * (1.0 - slippage) == entry - entry * slippage;
  }

  /**
   One price on a LONG position. At or below the stop everything goes at the stop. Above it, at or over
   the second target everything goes at the price; below that, at or over the first target half goes at
   that target; and between the stop and the targets nothing does.
   */
  lemma LongUpdateExactly(p: PaperPosition, price: real)
    requires p.side == Long
    ensures var (q, lots) := (Step(p, Update(price)), Closes(p, Update(price)));
      var (gain, half) := ((price - p.entry) * p.remaining, p.remaining / 2.0);
      var (first, second) := (p.tp1.Some? && price >= p.tp1.value, p.tp2.Some? && price >= p.tp2.value);
      && (lots == [] <==> p.stopLoss < price && !first && !second)
      && (price <= p.stopLoss ==>
          && lots == [Lot(p.stopLoss, p.remaining)]
          && q == p.(remaining := 0.0, realized := p.realized + (p.stopLoss - p.entry) * p.remaining,
                     unrealized := 0.0, status := ClosedStop))
      && (p.stopLoss < price && second ==>
          && lots == [Lot(price, p.remaining)]
          && q == p.(remaining := 0.0, realized := p.realized + gain, unrealized := 0.0, status := ClosedTarget))
      && (p.stopLoss < price && !second && first ==>
          && lots == [Lot(p.tp1.value, half)]
          && q == p.(remaining := half, realized := p.realized + (p.tp1.value - p.entry) * half,
                     unrealized := if half != 0.0 then gain else 0.0, status := Tp1Partial))
      && (lots == [] ==> q == p.(unrealized := if p.remaining != 0.0 then gain else 0.0, status := Open))
  {
    UpdateEffect(p, price);
  }

  /** The mirror image on a SHORT position. */
  lemma ShortUpdateExactly(p: PaperPosition, price: real)
    requires p.side != Long
    ensures var (q, lots) := (Step(p, Update(price)), Closes(p, Update(price)));
      var (gain, half) := ((p.entry - price) * p.remaining, p.remaining / 2.0);
      var (first, second) := (p.tp1.Some? && price <= p.tp1.value, p.tp2.Some? && price <= p.tp2.value);
      && (lots == [] <==> price < p.stopLoss && !first && !second)
      && (price >= p.stopLoss ==>
          && lots == [Lot(p.stopLoss, p.remaining)]
          && q == p.(remaining := 0.0, realized := p.realized + (p.entry - p.stopLoss) * p.remaining,
                     unrealized := 0.0, status := ClosedStop))
      && (price < p.stopLoss && second ==>
          && lots == [Lot(price, p.remaining)]
          && q == p.(remaining := 0.0, realized := p.realized + gain, unrealized := 0.0, status := ClosedTarget))
      && (price < p.stopLoss && !second && first ==>
          && lots == [Lot(p.tp1.value, half)]
          && q == p.(remaining := half, realized := p.realized + (p.entry - p.tp1.value) * half,
                     unrealized := if half != 0.0 then gain else 0.0, status := Tp1Partial))
      && (lots == [] ==> q == p.(unrealized := if p.remaining != 0.0 then gain else 0.0, status := Open))
  {
    UpdateEffect(p, price);
  }

  /** A stop is trailed only on an OPEN position and only with the trade; close() sells what remains. */
  lemma TrailAndCloseExactly(p: PaperPosition, stop: real, price: real)
    ensures Step(p, Trail(stop)) ==
            if p.status == Open && (p.side == Long ==> stop > p.stopLoss) && (p.side == Short ==> stop < p.stopLoss)
            then p.(stopLoss := stop) else p
    ensures Trails(p, stop) <==>
            p.status == Open && (p.side == Long ==> stop > p.stopLoss) && (p.side == Short ==> stop < p.stopLoss)
    ensures Step(p, CloseAt(price)) ==
            p.(remaining := 0.0, unrealized := 0.0, status := Closed,
               realized := p.realized + (if p.side == Long then price - p.entry else p.entry - price) * p.remaining)
  {
    SingleLot(p.side, p.entry, price, p.remaining);
  }

  /** The lot was closed at the stop that event k hit, or at the price that close() was given. */
  ghost predicate AtStopOrMarket(p: PaperPosition, events: seq<Event>, lot: Lot) {
    exists k: nat :: k < |events|
      && match events[k]
         case Update(price) =>
           var stop := Run(p, events[..k]).stopLoss;
           lot.price == stop && (if p.side == Long then price <= stop else price >= stop)
         case Trail(_) => false
         case CloseAt(price) => lot.price == price
  }

  /** At or beyond one of the targets, seen from the entry. */
  predicate BeyondTarget(p: PaperPosition, price: real) {
    || (p.tp1.Some? && if p.side == Long then price >= p.tp1.value else price <= p.tp1.value)
    || (p.tp2.Some? && if p.side == Long then price >= p.tp2.value else price <= p.tp2.value)
  }

  /** Over every run, a lot that was not closed at a stop or by close() went at or beyond one of the targets. */
  lemma {:induction false} LotsAreAtStopOrTarget(p: PaperPosition, events: seq<Event>, lot: Lot)
    requires p.remaining >= 0.0 && lot in Lots(p, events)
    ensures AtStopOrMarket(p, events, lot) || BeyondTarget(p, lot.price)
  {
    var before, event := events[..|events| - 1], events[|events| - 1];
    if lot in Lots(p, before) {
      LotsAreAtStopOrTarget(p, before, lot);
      if AtStopOrMarket(p, before, lot) { StillAtStop(p, before, events, lot); }
    } else {
      var q := Run(p, before);
      Conservation(p, before);
      if event.Update? {
        if q.side == Long { LongUpdateExactly(q, event.price); } else { ShortUpdateExactly(q, event.price); }
      }
      hide Run, Step, Gain, Quantity;
      var k := |before|;
      assert events[..k] == before && events[k] == event;
    }
  }

  lemma StillAtStop(p: PaperPosition, events: seq<Event>, longer: seq<Event>, lot: Lot)
    requires AtStopOrMarket(p, events, lot) && events <= longer
    ensures AtStopOrMarket(p, longer, lot)
  {
    forall k: nat | k < |events| ensures longer[..k] == events[..k] && longer[k] == events[k] {}
  }

  // ---------------------------------------------------------------- conservation

  /** One event closes at most one lot, no larger than what remains, and books exactly its gain. */
  lemma StepEffect(p: PaperPosition, event: Event)
    requires p.remaining >= 0.0
    ensures var q, lots := Step(p, event), Closes(p, event);
      && |lots| <= 1 && 0.0 <= Quantity(lots) <= p.remaining
      && q.remaining == p.remaining - Quantity(lots) && q.realized == p.realized + Gain(p.side, p.entry, lots)
      && q.entry == p.entry && q.side == p.side && q.quantity == p.quantity && q.tp1 == p.tp1 && q.tp2 == p.tp2
      && (lots == [] ==> Quantity(lots) == 0.0 && Gain(p.side, p.entry, lots) == 0.0)
      && (lots != [] ==>
          lots[0].quantity == Quantity(lots)
          && Gain(p.side, p.entry, lots) == Times(Move(p.side, p.entry, lots[0].price), lots[0].quantity))
  {
    var lots := Closes(p, event);
    if lots != [] {
      SingleLot(p.side, p.entry, lots[0].price, lots[0].quantity);
    }
  }

  /**
   Over every run, closed lots and the remaining quantity add up to what remained at the
   start, the remaining quantity never grows and never goes negative, and realized P&L is
   its starting value plus the signed sum over the closed lots.
   */
  lemma {:induction false} Conservation(p: PaperPosition, events: seq<Event>)
    requires p.remaining >= 0.0
    ensures var q, lots := Run(p, events), Lots(p, events);
      && Quantity(lots) + q.remaining == p.remaining
      && 0.0 <= q.remaining <= p.remaining
      && q.realized == p.realized + Gain(p.side, p.entry, lots)
      && q.entry == p.entry && q.side == p.side && q.quantity == p.quantity && q.tp1 == p.tp1 && q.tp2 == p.tp2
  {
    if events != [] {
      var before := events[..|events| - 1];
      var event := events[|events| - 1];
      Conservation(p, before);
      var q := Run(p, before);
      StepEffect(q, event);
      LotsAppend(p.side, p.entry, Lots(p, before), Closes(q, event));
    }
  }

  /** At every event of a run the remaining quantity only shrinks. */
  lemma RemainingShrinks(p: PaperPosition, events: seq<Event>, event: Event)
    requires p.remaining >= 0.0
    ensures 0.0 <= Run(p, events + [event]).remaining <= Run(p, events).remaining
  {
    Conservation(p, events);
    Conservation(Run(p, events), [event]);
    assert [event][..0] == [];
    assert (events + [event])[..|events|] == events;
  }

  /** Once nothing remains, nothing remains and realized P&L is frozen. */
  lemma {:induction false} FrozenWhenFlat(p: PaperPosition, events: seq<Event>)
    requires p.remaining == 0.0
    ensures Run(p, events).remaining == 0.0 && Run(p, events).realized == p.realized
  {
    if events != [] {
      var before := events[..|events| - 1];
      FrozenWhenFlat(p, before);
      StepEffect(Run(p, before), events[|events| - 1]);
    }
  }

  // ---------------------------------------------------------------- the loss bound

  /** The loss of one unit when the position is stopped at once: the entry fee and the way to the stop. */
  function UnitLoss(p: PaperPosition, feeRate: real): real {
    Times(p.entry, feeRate) - Move(p.side, p.entry, p.stopLoss)
  }

  /** The loss of the whole position when it is stopped at once. */
  function WorstLoss(p: PaperPosition, feeRate: real): real { Times(p.quantity, UnitLoss(p, feeRate)) }

  predicate NoClose(events: seq<Event>) { forall event | event in events :: !event.CloseAt? }

  /** What a position keeps of its origin `p` under updates and trails: no exit is worse than the first stop. */
  predicate Bounded(p: PaperPosition, q: PaperPosition) {
    && !p.side.OtherAction? && q.side == p.side && q.entry == p.entry && q.tp1 == p.tp1 && q.tp2 == p.tp2
    && Move(p.side, p.entry, q.stopLoss) >= Move(p.side, p.entry, p.stopLoss)
    && (q.tp1.Some? ==> Move(p.side, p.entry, q.tp1.value) >= Move(p.side, p.entry, p.stopLoss))
    && (q.tp2.Some? ==> Move(p.side, p.entry, q.tp2.value) >= Move(p.side, p.entry, p.stopLoss))
  }

  /** What was realized so far is at least what the closed quantity would have made at `move` a unit. */
  predicate Floored(p: PaperPosition, q: PaperPosition, move: real) {
    q.realized >= p.realized + Times(move, p.remaining - q.remaining)
  }

  /** A position as open() leaves it. */
  predicate Fresh(p: PaperPosition, feeRate: real) {
    && Bounded(p, p) && p.remaining == p.quantity > 0.0 && Move(p.side, p.entry, p.stopLoss) < 0.0
    && p.realized == -Fee(p.entry, p.quantity, feeRate)
  }

  /** Every lot closed without close() gains at least what the initial stop would. */
  lemma {:induction false} NoWorseThanTheStop(p: PaperPosition, events: seq<Event>)
    requires p.remaining >= 0.0 && Bounded(p, p) && NoClose(events)
    ensures var q := Run(p, events);
      && Bounded(p, q) && 0.0 <= q.remaining <= p.remaining
      && Floored(p, q, Move(p.side, p.entry, p.stopLoss))
  {
    if events == [] {
      assert Floored(p, p, Move(p.side, p.entry, p.stopLoss));
    } else {
      var before := events[..|events| - 1];
      var event := events[|events| - 1];
      assert forall e | e in before :: e in events;
      NoWorseThanTheStop(p, before);
      var q := Run(p, before);
      StepEffect(q, event);
      StepBounded(p, q, event);
      hide Step, Closes, Bounded, Floored, Times;
      LoseNoMore(p, q, event, Move(p.side, p.entry, p.stopLoss));
    }
  }

  lemma StepBounded(p: PaperPosition, q: PaperPosition, event: Event)
    requires Bounded(p, q) && !event.CloseAt?
    ensures Bounded(p, Step(q, event))
    ensures forall lot | lot in Closes(q, event) ::
              Move(p.side, p.entry, lot.price) >= Move(p.side, p.entry, p.stopLoss)
  {
    hide Times;
  }

  lemma LoseNoMore(p: PaperPosition, q: PaperPosition, event: Event, move: real)
    requires q.remaining >= 0.0 && q.side == p.side && q.entry == p.entry
    requires Floored(p, q, move)
    requires forall lot | lot in Closes(q, event) :: Move(p.side, p.entry, lot.price) >= move
    ensures Floored(p, Step(q, event), move)
  {
    StepEffect(q, event);
    var t, lots := Step(q, event), Closes(q, event);
    hide Step, Closes, Gain, Quantity, Times;
    if lots != [] {
      var closed := lots[0].quantity;
      assert lots[0] in lots;
      TimesMonotone(Move(p.side, p.entry, lots[0].price), move, closed);
      TimesSplit(move, p.remaining - q.remaining, closed);
      assert p.remaining - q.remaining + closed == p.remaining - t.remaining;
    }
  }

  lemma OpenedIsFresh(intent: Intent, entry: real, feeRate: real, slippage: real)
    requires Opens(intent, entry) && !intent.action.OtherAction? && feeRate >= 0.0 && slippage >= 0.0
    ensures Fresh(OpenedAt(intent, entry, feeRate, slippage), feeRate)
  {
    TimesMonotone(1.0 + slippage, 1.0, entry);
    TimesMonotone(1.0, 1.0 - slippage, entry);
    assert Times(entry, 1.0) == entry;
    hide Times;
  }

  /**
   The exact loss bound: realized P&L stays above -budget in every state that updates and
   trailing stops can reach if and only if the quantity times the unit loss fits the budget.
   */
  lemma LossBoundExact(intent: Intent, entry: real, feeRate: real, slippage: real, budget: real)
    requires Opens(intent, entry) && !intent.action.OtherAction? && feeRate >= 0.0 && slippage >= 0.0
    ensures var p := OpenedAt(intent, entry, feeRate, slippage);
      (forall events | NoClose(events) :: Run(p, events).realized >= -budget) <==> WorstLoss(p, feeRate) <= budget
  {
    OpenedIsFresh(intent, entry, feeRate, slippage);
    var p := OpenedAt(intent, entry, feeRate, slippage);
    hide Run, WorstLoss, Fresh, OpenedAt, Opens;
    forall events | NoClose(events)
      ensures Run(p, events).realized >= -WorstLoss(p, feeRate)
    {
      NeverBelowTheStop(p, feeRate, events);
    }
    assert NoClose([Update(p.stopLoss)]);
    StoppedAtOnce(p, feeRate);
  }

  lemma NeverBelowTheStop(p: PaperPosition, feeRate: real, events: seq<Event>)
    requires Fresh(p, feeRate) && NoClose(events)
    ensures Run(p, events).realized >= -WorstLoss(p, feeRate)
  {
    var move := Move(p.side, p.entry, p.stopLoss);
    NoWorseThanTheStop(p, events);
    WorstCase(p.entry, p.quantity, feeRate, move);
    var q := Run(p, events);
    hide Run, Bounded, NoClose, Times;
    TimesAntitone(move, p.remaining - q.remaining, p.remaining);
  }

  /** The stop is reached at once: the bound is met with equality. */
  lemma StoppedAtOnce(p: PaperPosition, feeRate: real)
    requires Fresh(p, feeRate)
    ensures Run(p, [Update(p.stopLoss)]).realized == -WorstLoss(p, feeRate)
  {
    assert [Update(p.stopLoss)][..0] == [];
    UpdateEffect(p, p.stopLoss);
    WorstCase(p.entry, p.quantity, feeRate, Move(p.side, p.entry, p.stopLoss));
    hide Times, Step;
  }

  lemma WorstCase(entry: real, quantity: real, feeRate: real, move: real)
    ensures Times(quantity, Times(entry, feeRate) - move) == Fee(entry, quantity, feeRate) - Times(move, quantity)
  {
    assert quantity * (entry * feeRate) == (entry * quantity) * feeRate;
  }

  // ---------------------------------------------------------------- sized by the gate

  /** Fees and slippage in the simulator against what the gate allows for them. */
  lemma CostsCovered(entry: real, fee: real, slip: real)
    requires entry > 0.0 && fee >= 0.0 && 0.0 <= slip <= 1.0
    ensures Times(Times(entry, 1.0 + slip), fee) <= 2.0 * Times(entry, fee)
    ensures Times(Times(entry, 1.0 - slip), fee) <= 2.0 * Times(entry, fee)
    ensures Times(entry, 1.0 + slip) == entry + Times(entry, slip)
            && Times(entry, 1.0 - slip) == entry - Times(entry, slip)
  {
    var base, extra := entry * fee, entry * slip;
    assert extra >= 0.0 && extra <= entry by { TimesMonotone(1.0, slip, entry); TimesMonotone(slip, 0.0, entry); }
    TimesMonotone(entry, extra, fee);
    TimesMonotone(extra, 0.0, fee);
    assert (entry + extra) * fee == base + extra * fee && (entry - extra) * fee == base - extra * fee;
  }

  lemma GateAllowance(c: RiskConfig, entry: real)
    ensures entry * (2.0 * c.feePct / 100.0 + c.slippagePct / 100.0) ==
              2.0 * Times(entry, c.feePct / 100.0) + Times(entry, c.slippagePct / 100.0)
  {
    var fee, slip := c.feePct / 100.0, c.slippagePct / 100.0;
    assert 2.0 * c.feePct / 100.0 == 2.0 * fee;
    assert entry * (2.0 * fee + slip) == 2.0 * (entry * fee) + entry * slip;
  }

  /** The unit loss in the simulator is within the unit risk that the gate sized for. */
  lemma UnitLossWithinUnitRisk(c: RiskConfig, intent: Intent, entry: real)
    requires ValidConfig(c) && Opens(intent, entry) && !intent.action.OtherAction? && c.slippagePct <= 100.0
    ensures var p := OpenedAt(intent, entry, c.feePct / 100.0, c.slippagePct / 100.0);
      UnitLoss(p, c.feePct / 100.0) <= UnitRisk(c, entry, intent.stopLoss)
  {
    var fee, slip := c.feePct / 100.0, c.slippagePct / 100.0;
    CostsCovered(entry, fee, slip);
    GateAllowance(c, entry);
    hide Times;
    var p := OpenedAt(intent, entry, fee, slip);
    assert Move(p.side, p.entry, p.stopLoss) == -(Abs(entry - intent.stopLoss) + Times(entry, slip));
  }

  lemma SizedLoss(size: real, loss: real, risk: real, multiplier: real, budget: real)
    requires size >= 0.0 && loss <= risk && multiplier >= 1.0 && risk >= 0.0 && size * (risk * multiplier) <= budget
    ensures Times(size, loss) <= budget
  {
    TimesMonotone(multiplier, 1.0, risk);
    TimesMonotone(risk * multiplier, loss, size);
  }

  lemma BudgetOf(intent: Intent, fee: real, slip: real, risk: real, multiplier: real, budget: real, events: seq<Event>)
    requires Opens(intent, intent.entry) && !intent.action.OtherAction? && fee >= 0.0 && slip >= 0.0 && NoClose(events)
    requires risk >= 0.0 && multiplier >= 1.0 && intent.quantity * (risk * multiplier) <= budget
    requires UnitLoss(OpenedAt(intent, intent.entry, fee, slip), fee) <= risk
    ensures Run(OpenedAt(intent, intent.entry, fee, slip), events).realized >= -budget
  {
    LossBoundExact(intent, intent.entry, fee, slip, budget);
    SizedLoss(intent.quantity, UnitLoss(OpenedAt(intent, intent.entry, fee, slip), fee), risk, multiplier, budget);
    hide Run, UnitLoss, Times, Opens;
  }

  /**
   The loss budget, end to end. A position sized by the gate and opened at its entry with
   the same fee and slippage never loses more than risk_usd, the configured percentage of the
   account, whatever prices and trailing stops follow, provided slippage is at most 100% and the
   contract multiplier at least 1.
   */
  lemma LossBudget(c: RiskConfig, killed: bool, i: Inputs, intent: Intent, events: seq<Event>)
    requires ValidConfig(c) && ValidInputs(i) && c.slippagePct <= 100.0 && Sizing(c, i).multiplier >= 1.0
    requires Evaluation(c, killed, i).approved && NoClose(events)
    requires intent.action == i.action && intent.entry == i.entry && Some(intent.stopLoss) == i.stopLoss
    requires intent.quantity == Evaluation(c, killed, i).size && Opens(intent, intent.entry)
    ensures var p := OpenedAt(intent, intent.entry, c.feePct / 100.0, c.slippagePct / 100.0);
      && Run(p, events).realized >= -Evaluation(c, killed, i).riskUsd
      && Run(p, events).realized * 100.0 >= -(c.accountSize * c.riskPct)
  {
    hide Run, OpenedAt, Evaluation, Sizing, NoClose, Opens, ValidConfig;
    SizeExactly(c, killed, i);
    LossWithinRisk(c, killed, i, intent, events);
  }

  lemma LossWithinRisk(c: RiskConfig, killed: bool, i: Inputs, intent: Intent, events: seq<Event>)
    requires ValidConfig(c) && ValidInputs(i) && c.slippagePct <= 100.0 && Sizing(c, i).multiplier >= 1.0
    requires Evaluation(c, killed, i).approved && NoClose(events)
    requires intent.action == i.action && intent.entry == i.entry && Some(intent.stopLoss) == i.stopLoss
    requires intent.quantity == Evaluation(c, killed, i).size && Opens(intent, intent.entry)
    ensures Run(OpenedAt(intent, intent.entry, c.feePct / 100.0, c.slippagePct / 100.0), events).realized >=
              -Evaluation(c, killed, i).riskUsd
  {
    hide Run, OpenedAt, UnitRisk, UnitCost, UnitLoss, Evaluation, RiskUsd, RawSize, Sizing, NoClose, Opens;
    ApprovalMeaning(c, killed, i);
    UnitLossWithinUnitRisk(c, intent, intent.entry);
    UnitRiskPositive(c, i.entry, intent.stopLoss, Sizing(c, i).multiplier);
    CostIsRisk(c, i);
    BudgetOf(intent, c.feePct / 100.0, c.slippagePct / 100.0, UnitRisk(c, i.entry, intent.stopLoss),
             Sizing(c, i).multiplier, Evaluation(c, killed, i).riskUsd, events);
  }

  lemma CostIsRisk(c: RiskConfig, i: Inputs)
    requires ValidConfig(c) && ValidInputs(i) && i.stopLoss.Some? && i.entry > 0.0 && i.entry != i.stopLoss.value
    ensures UnitCost(c, i) == UnitRisk(c, i.entry, i.stopLoss.value) * Sizing(c, i).multiplier
  {
    hide UnitRisk;
  }

  const PLAIN: RiskConfig := RiskConfig(1000.0, 1.0, 5.0, 2, 3.0, 75.0, 0.0, 0.0, 1.0, 0.0, 0.0, 100.0, 1)
  const LONG_AT_100: Inputs := Inputs(Long, 80.0, 100.0, Some(90.0), 1.0, 0, 0, 0.0, "OK", None, None, None, false)

  function IntentOf(i: Inputs, quantity: real): Intent
    requires i.stopLoss.Some?
  {
    Intent("BTC", i.action, i.entry, i.stopLoss.value, None, None, None, quantity, i.leverage, true, true)
  }

  /**
   With a contract multiplier below 1, no costs and no rounding, every stopped position loses more than the budget.
   */
  lemma SmallMultiplierOverruns(c: RiskConfig, killed: bool, i: Inputs, intent: Intent)
    requires ValidConfig(c) && c.feePct == c.slippagePct == c.step == 0.0 && c.multiplier < 1.0 && i.metadata.None?
    ensures var r := Evaluation(c, killed, i);
      r.approved && intent.action == i.action && intent.entry == i.entry && Some(intent.stopLoss) == i.stopLoss
        && intent.quantity == r.size && Opens(intent, intent.entry)
      ==> Run(OpenedAt(intent, intent.entry, 0.0, 0.0), [Update(intent.stopLoss)]).realized < -r.riskUsd
  {
    ApprovalMeaning(c, killed, i);
    if Evaluation(c, killed, i).approved && intent.action == i.action && intent.entry == i.entry
    && Some(intent.stopLoss) == i.stopLoss
       && intent.quantity == Evaluation(c, killed, i).size && Opens(intent, intent.entry) {
      SizedOverruns(c, i, intent);
    }
    hide Run, Evaluation, RawSize, OpenedAt;
  }

  lemma SizedOverruns(c: RiskConfig, i: Inputs, intent: Intent)
    requires ValidConfig(c) && c.feePct == c.slippagePct == c.step == 0.0 && c.multiplier < 1.0 && i.metadata.None?
    requires i.entry > 0.0 && Some(intent.stopLoss) == i.stopLoss && i.entry != intent.stopLoss
             && intent.entry == i.entry
    ensures intent.quantity == RawSize(c, i) && Opens(intent, intent.entry) && !intent.action.OtherAction? ==>
              Run(OpenedAt(intent, intent.entry, 0.0, 0.0), [Update(intent.stopLoss)]).realized < -RiskUsd(c)
  {
    if intent.quantity == RawSize(c, i) && Opens(intent, intent.entry) && !intent.action.OtherAction? {
      var risk, size, distance := RiskUsd(c), RawSize(c, i), Abs(i.entry - intent.stopLoss);
      assert UnitCost(c, i) == distance * c.multiplier;
      Outgrows(size, distance, c.multiplier, risk);
      var p := OpenedAt(intent, intent.entry, 0.0, 0.0);
      OpenedIsFresh(intent, intent.entry, 0.0, 0.0);
      StoppedAtOnce(p, 0.0);
      assert UnitLoss(p, 0.0) == distance;
      hide Run, RawSize, Step;
    }
  }

  lemma Outgrows(size: real, distance: real, multiplier: real, risk: real)
    requires 0.0 < multiplier < 1.0 && risk > 0.0 && size * (distance * multiplier) == risk
    ensures Times(size, distance) > risk
  {
    var loss := size * distance;
    assert loss * multiplier == risk;
    assert risk * (1.0 - multiplier) > 0.0;
    if loss <= risk {
      TimesMonotone(risk, loss, multiplier);
    }
  }

  /** With slippage above 100% the entry fee alone can outgrow what the gate allowed for. */
  lemma LargeSlippageOverruns()
    ensures var c := PLAIN.(slippagePct := 300.0, feePct := 10.0);
      var r := Evaluation(c, false, LONG_AT_100);
      var p := OpenedAt(IntentOf(LONG_AT_100, r.size), 100.0, 0.1, 3.0);
      r.approved && Opens(IntentOf(LONG_AT_100, r.size), 100.0) && Run(p, [Update(90.0)]).realized < -r.riskUsd
  {
    var c := PLAIN.(slippagePct := 300.0, feePct := 10.0);
    ApprovalMeaning(c, false, LONG_AT_100);
    assert UnitCost(c, LONG_AT_100) == 330.0;
    var size := RawSize(c, LONG_AT_100);
    assert size * 330.0 == 10.0;
    var p := OpenedAt(IntentOf(LONG_AT_100, size), 100.0, 0.1, 3.0);
    assert [Update(90.0)][..0] == [];
    UpdateEffect(p, 90.0);
  }
}
