/** RiskGate: the rejection list, position sizing and the latched kill switch. */
module Risk {
  import opened Arithmetic
  import opened Optional
  import opened ExecutionModel
  import opened LedgerState

  datatype RiskConfig = RiskConfig(
    accountSize: real, riskPct: real, maxLeverage: real, maxPositions: int, killDrawdown: real,
    minConfidence: real, feePct: real, slippagePct: real, multiplier: real,
    step: real, minQuantity: real, maxSpreadPct: real, maxCorrelated: int)

  /** ExchangeMetadata, which overrides the four sizing parameters of the configuration. */
  datatype Metadata = Metadata(step: real, minQuantity: real, maxQuantity: Option<real>, multiplier: real)

  datatype Inputs = Inputs(
    action: Action, confidence: real, entry: real, stopLoss: Option<real>, leverage: real,
    openPositions: int, correlated: int, drawdown: real, quality: string,
    spread: Option<real>, liquidity: Option<real>, metadata: Option<Metadata>, highVolatility: bool)

  datatype Rejection =
    | BadQuality | HighVolatility | WideSpread | NoLiquidity | KillActive | NotExecutable | LowConfidence
    | BadEntry | StopRequired | LongStopAbove | ShortStopBelow | BadLeverage | LeverageTooHigh
    | PositionLimit | CorrelationLimit | DrawdownKill | BelowMinimum

  datatype RiskResult = RiskResult(approved: bool, riskUsd: real, size: real, leverage: real,
                                   rejections: seq<Rejection>)

  /** _validate_config and the checks of ExchangeMetadata.__post_init__. */
  predicate ValidConfig(c: RiskConfig) {
    && c.accountSize > 0.0 && c.riskPct > 0.0 && c.maxLeverage > 0.0 && c.multiplier > 0.0
    && c.maxPositions >= 0 && c.maxCorrelated >= 0 && c.killDrawdown >= 0.0
    && c.feePct >= 0.0 && c.slippagePct >= 0.0 && c.step >= 0.0 && c.minQuantity >= 0.0
  }

  predicate ValidMetadata(m: Metadata) {
    && m.step > 0.0 && m.minQuantity >= 0.0 && m.multiplier > 0.0
    && (m.maxQuantity.Some? ==> m.maxQuantity.value >= m.minQuantity)
  }

  predicate ValidInputs(i: Inputs) { i.metadata.Some? ==> ValidMetadata(i.metadata.value) }

  // ---------------------------------------------------------------- what an approval means

  predicate GoodQuality(quality: string) { quality == "OK" || quality == "DATA_VALID" }

  /** Every condition the gate asks for, apart from the minimum quantity. */
  predicate Admissible(c: RiskConfig, killed: bool, i: Inputs) {
    && !killed && i.drawdown < c.killDrawdown
    && GoodQuality(i.quality) && !i.highVolatility
    && (i.spread.Some? ==> i.spread.value <= c.maxSpreadPct)
    && (i.liquidity.Some? ==> i.liquidity.value > 0.0)
    && !i.action.OtherAction? && i.confidence >= c.minConfidence
    && i.entry > 0.0 && i.stopLoss.Some?
    && (if i.action.Long? then i.stopLoss.value < i.entry else i.stopLoss.value > i.entry)
    && 0.0 < i.leverage <= c.maxLeverage
    && i.openPositions < c.maxPositions && i.correlated < c.maxCorrelated
  }

  function RiskUsd(c: RiskConfig): (usd: real)
    requires ValidConfig(c)
    ensures usd > 0.0
  {
    ProductPositive(c.accountSize, c.riskPct);
    c.accountSize * c.riskPct / 100.0
  }

  function Sizing(c: RiskConfig, i: Inputs): Metadata {
    if i.metadata.Some? then i.metadata.value else Metadata(c.step, c.minQuantity, None, c.multiplier)
  }

  /** The cost-inclusive loss per unit: the stop distance, two fees and one slippage. */
  function UnitRisk(c: RiskConfig, entry: real, stop: real): real {
    Abs(entry - stop) + entry * (2.0 * c.feePct / 100.0 + c.slippagePct / 100.0)
  }

  /** x / y, with the defining property kept at hand. */
  function Quotient(x: real, y: real): (q: real)
    requires x > 0.0 && y > 0.0
    ensures q > 0.0 && q * y == x
  {
    x / y
  }

  function UnitCost(c: RiskConfig, i: Inputs): (cost: real)
    requires ValidConfig(c) && ValidInputs(i) && i.stopLoss.Some? && i.entry > 0.0 && i.entry != i.stopLoss.value
    ensures cost > 0.0
  {
    UnitRiskPositive(c, i.entry, i.stopLoss.value, Sizing(c, i).multiplier);
    UnitRisk(c, i.entry, i.stopLoss.value) * Sizing(c, i).multiplier
  }

  function Cap(x: real, maximum: Option<real>): real {
    if maximum.Some? && x > maximum.value then maximum.value else x
  }

  /** The size before the minimum is checked, floored to the step and capped at the maximum. */
  function RawSize(c: RiskConfig, i: Inputs): real
    requires ValidConfig(c) && ValidInputs(i) && i.stopLoss.Some? && i.entry > 0.0 && i.entry != i.stopLoss.value
  {
    Cap(FloorTo(Quotient(RiskUsd(c), UnitCost(c, i)), Sizing(c, i).step), Sizing(c, i).maxQuantity)
  }

  function Steps(count: int, step: real): real { count as real * step }

  /** floor(x / step) * step, or x itself when no step is configured. */
  function FloorTo(x: real, step: real): real
    requires x > 0.0 && step >= 0.0
  {
    if step > 0.0 then Steps(Quotient(x, step).Floor, step) else x
  }

  lemma FloorBounds(x: real, q: real, k: real, step: real)
    requires 0.0 <= k <= q <= k + 1.0 && step > 0.0 && q * step == x
    ensures 0.0 <= k * step <= x <= k * step + step
  {
    MonotoneProduct(k, q, step);
    MonotoneProduct(q - k, 1.0, step);
    assert (q - k) * step == q * step - k * step;
  }

  lemma FloorToBounds(x: real, step: real)
    requires x > 0.0 && step >= 0.0
    ensures 0.0 <= FloorTo(x, step) <= x <= FloorTo(x, step) + step
  {
    if step > 0.0 {
      var q := Quotient(x, step);
      FloorBounds(x, q, q.Floor as real, step);
    }
  }

  lemma UnitRiskPositive(c: RiskConfig, entry: real, stop: real, multiplier: real)
    requires ValidConfig(c) && entry > 0.0 && entry != stop && multiplier > 0.0
    ensures UnitRisk(c, entry, stop) > 0.0 && UnitRisk(c, entry, stop) * multiplier > 0.0
  {
    var cost := 2.0 * c.feePct / 100.0 + c.slippagePct / 100.0;
    assert cost >= 0.0 && entry * cost >= 0.0;
  }

  /**
   An approved size never risks more than the budget, respects the minimum and the
   maximum, and is the largest multiple of the step that does (unless capped).
   */
  lemma SizeWithinBudget(c: RiskConfig, i: Inputs)
    requires ValidConfig(c) && ValidInputs(i) && i.stopLoss.Some? && i.entry > 0.0 && i.entry != i.stopLoss.value
    ensures var m, size := Sizing(c, i), RawSize(c, i);
      && 0.0 <= size
      && size * UnitCost(c, i) <= RiskUsd(c)
      && (m.maxQuantity.Some? ==> size <= m.maxQuantity.value)
      && (m.maxQuantity.None? || size != m.maxQuantity.value ==>
          && (m.step > 0.0 ==> exists k: int :: size == Steps(k, m.step))
          && (size + m.step) * UnitCost(c, i) >= RiskUsd(c))
  {
    var m, size, cost := Sizing(c, i), RawSize(c, i), UnitCost(c, i);
    var ideal := Quotient(RiskUsd(c), cost);
    FloorToBounds(ideal, m.step);
    MonotoneProduct(size, ideal, cost);
    if m.maxQuantity.None? || size != m.maxQuantity.value {
      MonotoneProduct(ideal, size + m.step, cost);
      assert m.step > 0.0 ==> size == Steps(Quotient(ideal, m.step).Floor, m.step);
    }
  }

  lemma ProductPositive(x: real, y: real)
    requires x > 0.0 && y > 0.0
    ensures x * y > 0.0
  {}

  lemma ProductNonNegative(x: real, y: real)
    requires x >= 0.0 && y >= 0.0
    ensures x * y >= 0.0
  {}

  lemma MonotoneProduct(x: real, y: real, z: real)
    requires x <= y && z >= 0.0
    ensures x * z <= y * z
  {}

  // ---------------------------------------------------------------- the gate

  class RiskGate {
    const config: RiskConfig
    const ledger: Ledger?
    var killed: bool
    var audit: seq<KillState>

    ghost predicate Valid()
      reads this, ledger
    {
      ValidConfig(config) && (ledger != null ==> ledger.Valid())
    }

    /** A gate rebuilt on a killed ledger starts killed. */
    constructor (config: RiskConfig, ledger: Ledger?)
      requires ValidConfig(config) && (ledger != null ==> ledger.Valid())
      ensures Valid() && this.config == config && this.ledger == ledger && audit == []
      ensures killed == (ledger != null && IsKilled(ledger.db))
    {
      this.config := config;
      this.ledger := ledger;
      killed := false;
      audit := [];
      new;
      if ledger != null {
        var state := ledger.KillSwitchState();
        if state {
          killed := true;
        }
      }
    }

    /** __init__, with null where the source raises ValueError. */
    static method Create(config: RiskConfig, ledger: Ledger?) returns (gate: RiskGate?)
      requires ledger != null ==> ledger.Valid()
      ensures gate == null <==> !ValidConfig(config)
      ensures gate != null ==> fresh(gate) && gate.Valid() && gate.config == config && gate.ledger == ledger
      ensures gate != null ==> gate.killed == (ledger != null && IsKilled(ledger.db))
    {
      if !ValidConfig(config) {
        return null;
      }
      gate := new RiskGate(config, ledger);
    }

    method Kill()
      requires Valid()
      modifies this, ledger
      ensures Valid() && killed && audit == old(audit) + [Killed]
      ensures ledger != null ==>
              ledger.log == old(ledger.log) + [PutKill(Killed)] && ledger.memory == old(ledger.memory)
      ensures ledger != null ==> ledger.db == Apply(old(ledger.db), PutKill(Killed))
    {
      killed := true;
      audit := audit + [Killed];
      if ledger != null {
        ledger.RecordKillSwitch(Killed);
      }
    }

    /** False where the source raises ValueError; then nothing changes. */
    method Reset(confirm: bool, reasonBlank: bool) returns (done: bool)
      requires Valid()
      modifies this, ledger
      ensures Valid() && done == (confirm && !reasonBlank)
      ensures !done ==> killed == old(killed) && audit == old(audit)
      ensures done ==> !killed && audit == old(audit) + [ExecutionModel.Reset]
      ensures ledger != null ==> ledger.memory == old(ledger.memory)
      ensures ledger != null ==>
              ledger.log == if done then old(ledger.log) + [PutKill(ExecutionModel.Reset)] else old(ledger.log)
      ensures ledger != null ==>
              ledger.db == if done then Apply(old(ledger.db), PutKill(ExecutionModel.Reset)) else old(ledger.db)
    {
      if !confirm || reasonBlank {
        return false;
      }
      killed := false;
      audit := audit + [ExecutionModel.Reset];
      if ledger != null {
        ledger.RecordKillSwitch(ExecutionModel.Reset);
      }
      return true;
    }

    method MarketChecks(i: Inputs) returns (rejected: seq<Rejection>)
      ensures rejected == MarketRejections(config, killed, i)
    {
      rejected := [];
      if !GoodQuality(i.quality) { rejected := rejected + [BadQuality]; }
      if i.highVolatility { rejected := rejected + [HighVolatility]; }
      if i.spread.Some? && i.spread.value > config.maxSpreadPct { rejected := rejected + [WideSpread]; }
      if i.liquidity.Some? && i.liquidity.value <= 0.0 { rejected := rejected + [NoLiquidity]; }
      if killed { rejected := rejected + [KillActive]; }
      if i.action == OtherAction { rejected := rejected + [NotExecutable]; }
      if i.confidence < config.minConfidence { rejected := rejected + [LowConfidence]; }
    }

    method OrderChecks(i: Inputs, before: seq<Rejection>) returns (rejected: seq<Rejection>)
      ensures rejected == OrderRejections(config, i, before)
    {
      rejected := before;
      if i.entry <= 0.0 { rejected := rejected + [BadEntry]; }
      if i.stopLoss.None? {
        rejected := rejected + [StopRequired];
      } else {
        if i.action == Long && i.stopLoss.value >= i.entry { rejected := rejected + [LongStopAbove]; }
        if i.action == Short && i.stopLoss.value <= i.entry { rejected := rejected + [ShortStopBelow]; }
      }
      if i.leverage <= 0.0 {
        rejected := rejected + [BadLeverage];
      } else if i.leverage > config.maxLeverage {
        rejected := rejected + [LeverageTooHigh];
      }
    }

    method Size(i: Inputs) returns (size: real)
      requires Valid() && ValidInputs(i) && i.stopLoss.Some? && i.entry > 0.0 && i.entry != i.stopLoss.value
      ensures size == RawSize(config, i)
    {
      var m := Sizing(config, i);
      UnitRiskPositive(config, i.entry, i.stopLoss.value, m.multiplier);
      var distance := Abs(i.entry - i.stopLoss.value);
      distance := distance + i.entry * (2.0 * config.feePct / 100.0 + config.slippagePct / 100.0);
      assert distance * m.multiplier == UnitCost(config, i);
      size := Quotient(RiskUsd(config), distance * m.multiplier);
      if m.step > 0.0 {
        size := Steps(Quotient(size, m.step).Floor, m.step);
      }
      if m.maxQuantity.Some? && size > m.maxQuantity.value {
        size := m.maxQuantity.value;
      }
    }

    /** Seeing the drawdown limit latches the switch, whatever else is wrong. */
    method Evaluate(i: Inputs) returns (result: RiskResult)
      requires Valid() && ValidInputs(i)
      modifies this, ledger
      ensures Valid() && result == Evaluation(config, old(killed), i)
      ensures killed == (old(killed) || i.drawdown >= config.killDrawdown)
      ensures audit == if i.drawdown >= config.killDrawdown then old(audit) + [Killed] else old(audit)
      ensures ledger != null ==> ledger.memory == old(ledger.memory)
      ensures ledger != null ==>
        ledger.log == if i.drawdown >= config.killDrawdown then old(ledger.log) + [PutKill(Killed)] else old(ledger.log)
    {
      var rejected := MarketChecks(i);
      rejected := OrderChecks(i, rejected);
      if i.openPositions >= config.maxPositions { rejected := rejected + [PositionLimit]; }
      if i.correlated >= config.maxCorrelated { rejected := rejected + [CorrelationLimit]; }
      if i.drawdown >= config.killDrawdown {
        Kill();
        rejected := rejected + [DrawdownKill];
      }
      assert rejected == BaseRejections(config, old(killed), i);
      NoRejectionMeansAdmissible(config, old(killed), i);
      var size := 0.0;
      if rejected == [] {
        size := Size(i);
        if size < Sizing(config, i).minQuantity {
          rejected := rejected + [BelowMinimum];
          size := 0.0;
        }
      }
      return RiskResult(rejected == [], RiskUsd(config), size, i.leverage, rejected);
    }
  }

  // ---------------------------------------------------------------- the specification of evaluate

  function Note(so_far: seq<Rejection>, condition: bool, rejection: Rejection): (r: seq<Rejection>)
    ensures r == [] <==> so_far == [] && !condition
    ensures forall x :: x in r <==> x in so_far || (condition && x == rejection)
  {
    if condition then so_far + [rejection] else so_far
  }

  function MarketRejections(c: RiskConfig, killed: bool, i: Inputs): seq<Rejection> {
    var r := Note([], !GoodQuality(i.quality), BadQuality);
    var r := Note(r, i.highVolatility, HighVolatility);
    var r := Note(r, i.spread.Some? && i.spread.value > c.maxSpreadPct, WideSpread);
    var r := Note(r, i.liquidity.Some? && i.liquidity.value <= 0.0, NoLiquidity);
    var r := Note(r, killed, KillActive);
    var r := Note(r, i.action.OtherAction?, NotExecutable);
    Note(r, i.confidence < c.minConfidence, LowConfidence)
  }

  function OrderRejections(c: RiskConfig, i: Inputs, before: seq<Rejection>): seq<Rejection> {
    var r := Note(before, i.entry <= 0.0, BadEntry);
    var r := Note(r, i.stopLoss.None?, StopRequired);
    var r := Note(r, i.stopLoss.Some? && i.action.Long? && i.stopLoss.value >= i.entry, LongStopAbove);
    var r := Note(r, i.stopLoss.Some? && i.action.Short? && i.stopLoss.value <= i.entry, ShortStopBelow);
    var r := Note(r, i.leverage <= 0.0, BadLeverage);
    Note(r, i.leverage > 0.0 && i.leverage > c.maxLeverage, LeverageTooHigh)
  }

  function BaseRejections(c: RiskConfig, killed: bool, i: Inputs): seq<Rejection> {
    var r := OrderRejections(c, i, MarketRejections(c, killed, i));
    var r := Note(r, i.openPositions >= c.maxPositions, PositionLimit);
    var r := Note(r, i.correlated >= c.maxCorrelated, CorrelationLimit);
    Note(r, i.drawdown >= c.killDrawdown, DrawdownKill)
  }

  /** An empty rejection list is exactly the conjunction of the gate's conditions. */
  lemma NoRejectionMeansAdmissible(c: RiskConfig, killed: bool, i: Inputs)
    requires ValidConfig(c)
    ensures BaseRejections(c, killed, i) == [] <==> Admissible(c, killed, i)
  {
    var market := MarketRejections(c, killed, i);
    var order := OrderRejections(c, i, market);
    assert market == [] <==>
      GoodQuality(i.quality) && !i.highVolatility && (i.spread.Some? ==> i.spread.value <= c.maxSpreadPct)
      && (i.liquidity.Some? ==> i.liquidity.value > 0.0) && !killed && !i.action.OtherAction?
      && i.confidence >= c.minConfidence;
    assert order == [] <==>
      market == [] && i.entry > 0.0 && i.stopLoss.Some? && 0.0 < i.leverage <= c.maxLeverage
      && !(i.action.Long? && i.stopLoss.value >= i.entry) && !(i.action.Short? && i.stopLoss.value <= i.entry);
  }

  function Evaluation(c: RiskConfig, killed: bool, i: Inputs): RiskResult
    requires ValidConfig(c) && ValidInputs(i)
  {
    NoRejectionMeansAdmissible(c, killed, i);
    var base := BaseRejections(c, killed, i);
    if base != [] then RiskResult(false, RiskUsd(c), 0.0, i.leverage, base)
    else
      var size := RawSize(c, i);
      if size < Sizing(c, i).minQuantity then RiskResult(false, RiskUsd(c), 0.0, i.leverage, [BelowMinimum])
      else RiskResult(true, RiskUsd(c), size, i.leverage, [])
  }

  /** An evaluation is approved exactly when every condition holds and the size reaches the minimum. */
  lemma ApprovalMeaning(c: RiskConfig, killed: bool, i: Inputs)
    requires ValidConfig(c) && ValidInputs(i)
    ensures var r := Evaluation(c, killed, i);
      && (r.approved <==> Admissible(c, killed, i) && RawSize(c, i) >= Sizing(c, i).minQuantity)
      && (r.approved <==> r.rejections == [])
      && r.size == (if r.approved then RawSize(c, i) else 0.0) && r.riskUsd == RiskUsd(c)
      && r.leverage == i.leverage
      && (r.approved ==> 0.0 <= r.size && r.size * UnitCost(c, i) <= r.riskUsd)
  {
    NoRejectionMeansAdmissible(c, killed, i);
    if Admissible(c, killed, i) {
      SizeWithinBudget(c, i);
    }
  }

  // ---------------------------------------------------------------- the gate in numbers

  /** What one unit of the contract costs, stopped at once, in account currency. */
  lemma UnitCostExactly(c: RiskConfig, i: Inputs)
    requires ValidConfig(c) && ValidInputs(i) && i.stopLoss.Some? && i.entry > 0.0 && i.entry != i.stopLoss.value
    ensures var multiplier := if i.metadata.Some? then i.metadata.value.multiplier else c.multiplier;
            UnitCost(c, i) == (Abs(i.entry - i.stopLoss.value) + i.entry * (2.0 * c.feePct + c.slippagePct) / 100.0)
                              * multiplier
  {
    assert i.entry * (2.0 * c.feePct / 100.0 + c.slippagePct / 100.0)
        == i.entry * (2.0 * c.feePct + c.slippagePct) / 100.0;
  }

  /**
   The numbers of an evaluation. The risk is the configured percentage of the account. An approved size lies
   between minimum and maximum and costs at most the risk when stopped: distance to the stop, two fees and one
   slippage, times the multiplier. Unless the maximum caps it, it is a multiple of the step, and one step
   more would use up the risk.
   */
  lemma SizeExactly(c: RiskConfig, killed: bool, i: Inputs)
    requires ValidConfig(c) && ValidInputs(i)
    ensures var r := Evaluation(c, killed, i);
      && r.riskUsd * 100.0 == c.accountSize * c.riskPct && r.leverage == i.leverage
      && (!r.approved ==> r.size == 0.0)
      && (r.approved ==> i.stopLoss.Some?)
    ensures var r := Evaluation(c, killed, i);
      var m := if i.metadata.Some? then i.metadata.value else Metadata(c.step, c.minQuantity, None, c.multiplier);
      r.approved ==>
        var cost := (Abs(i.entry - i.stopLoss.value) + i.entry * (2.0 * c.feePct + c.slippagePct) / 100.0)
                    * m.multiplier;
        && m.minQuantity <= r.size && (m.maxQuantity.Some? ==> r.size <= m.maxQuantity.value)
        && 0.0 <= r.size * cost * 100.0 <= c.accountSize * c.riskPct
        && (m.maxQuantity.None? || r.size < m.maxQuantity.value ==>
            && (r.size + m.step) * cost * 100.0 >= c.accountSize * c.riskPct
            && (m.step > 0.0 ==> exists k: int :: r.size == Steps(k, m.step)))
  {
    hide Evaluation, UnitCost, RawSize, UnitRisk;
    ApprovalMeaning(c, killed, i);
    if Evaluation(c, killed, i).approved {
      SizeWithinBudget(c, i);
      UnitCostExactly(c, i);
      ProductNonNegative(RawSize(c, i), UnitCost(c, i));
    }
  }

  lemma StrictProduct(x: real, y: real, z: real)
    requires x < y && z > 0.0
    ensures x * z < y * z
  {}

  lemma CountBelow(q: real, k: int, step: real)
    requires step > 0.0 && k as real * step <= q * step
    ensures k <= q.Floor
  {
    if k as real > q { StrictProduct(q, k as real, step); }
  }

  /** As many steps as fit the budget are at most the floor of the quotient. */
  lemma StepsBelow(x: real, k: int, step: real, cost: real, budget: real)
    requires x > 0.0 && step > 0.0 && cost > 0.0 && x * cost == budget && Steps(k, step) * cost <= budget
    ensures Steps(k, step) <= FloorTo(x, step)
  {
    var q, taken := Quotient(x, step), Steps(k, step);
    if taken > x { StrictProduct(x, taken, cost); }
    CountBelow(q, k, step);
    MonotoneProduct(k as real, q.Floor as real, step);
  }

  lemma FloorReaches(x: real, step: real, minimum: real, cost: real, budget: real)
    requires x > 0.0 && step > 0.0 && cost > 0.0 && x * cost == budget
    ensures FloorTo(x, step) >= minimum <==>
            exists k: int :: Steps(k, step) >= minimum && Steps(k, step) * cost <= budget
  {
    if FloorTo(x, step) >= minimum {
      var k := Quotient(x, step).Floor;
      FloorToBounds(x, step);
      MonotoneProduct(FloorTo(x, step), x, cost);
      assert Steps(k, step) == FloorTo(x, step);
    }
    forall k: int | Steps(k, step) >= minimum && Steps(k, step) * cost <= budget
      ensures FloorTo(x, step) >= minimum
    {
      StepsBelow(x, k, step, cost, budget);
    }
    hide Steps, FloorTo;
  }

  /** The size reaches the minimum exactly when some quantity on the grid does within the risk. */
  lemma MinimumExactly(c: RiskConfig, i: Inputs)
    requires ValidConfig(c) && ValidInputs(i) && i.stopLoss.Some? && i.entry > 0.0 && i.entry != i.stopLoss.value
    ensures var m := Sizing(c, i);
      RawSize(c, i) >= m.minQuantity <==>
        if m.step > 0.0
        then exists k: int :: Steps(k, m.step) >= m.minQuantity && Steps(k, m.step) * UnitCost(c, i) <= RiskUsd(c)
        else m.minQuantity * UnitCost(c, i) <= RiskUsd(c)
  {
    var m, cost := Sizing(c, i), UnitCost(c, i);
    var ideal := Quotient(RiskUsd(c), cost);
    if m.step > 0.0 {
      FloorReaches(ideal, m.step, m.minQuantity, cost, RiskUsd(c));
    } else if ideal >= m.minQuantity {
      MonotoneProduct(m.minQuantity, ideal, cost);
    } else {
      StrictProduct(ideal, m.minQuantity, cost);
    }
    assert RawSize(c, i) == Cap(FloorTo(ideal, m.step), m.maxQuantity);
    hide Quotient, UnitCost, Steps;
  }

  /** The same in numbers. */
  lemma SizedExactly(c: RiskConfig, i: Inputs)
    requires ValidConfig(c) && ValidInputs(i) && i.stopLoss.Some? && i.entry > 0.0 && i.entry != i.stopLoss.value
    ensures var m := if i.metadata.Some? then i.metadata.value else Metadata(c.step, c.minQuantity, None, c.multiplier);
      var cost := (Abs(i.entry - i.stopLoss.value) + i.entry * (2.0 * c.feePct + c.slippagePct) / 100.0) * m.multiplier;
      RawSize(c, i) >= Sizing(c, i).minQuantity <==>
        if m.step > 0.0
        then exists k: int :: Steps(k, m.step) >= m.minQuantity
               && Steps(k, m.step) * cost <= c.accountSize * c.riskPct / 100.0
        else m.minQuantity * cost <= c.accountSize * c.riskPct / 100.0
  {
    hide UnitCost, RawSize, Steps;
    UnitCostExactly(c, i);
    MinimumExactly(c, i);
  }

  /**
   An evaluation is approved exactly when every condition of the gate holds and some quantity on the step grid
   is at least the minimum and, stopped at once, costs at most the configured percentage of the account.
   */
  lemma ApprovedExactly(c: RiskConfig, killed: bool, i: Inputs)
    requires ValidConfig(c) && ValidInputs(i)
    ensures var m := if i.metadata.Some? then i.metadata.value else Metadata(c.step, c.minQuantity, None, c.multiplier);
      Evaluation(c, killed, i).approved <==>
        && !killed && i.drawdown < c.killDrawdown
        && (i.quality == "OK" || i.quality == "DATA_VALID") && !i.highVolatility
        && (i.spread.None? || i.spread.value <= c.maxSpreadPct) && (i.liquidity.None? || i.liquidity.value > 0.0)
        && i.confidence >= c.minConfidence && 0.0 < i.leverage <= c.maxLeverage
        && i.openPositions < c.maxPositions && i.correlated < c.maxCorrelated
        && i.entry > 0.0 && i.stopLoss.Some?
        && ((i.action == Long && i.stopLoss.value < i.entry) || (i.action == Short && i.stopLoss.value > i.entry))
        && var cost := (Abs(i.entry - i.stopLoss.value) + i.entry * (2.0 * c.feePct + c.slippagePct) / 100.0)
                       * m.multiplier;
          if m.step > 0.0
          then exists k: int :: Steps(k, m.step) >= m.minQuantity
                 && Steps(k, m.step) * cost <= c.accountSize * c.riskPct / 100.0
          else m.minQuantity * cost <= c.accountSize * c.riskPct / 100.0
  {
    hide Evaluation, UnitCost, RawSize, Steps;
    ApprovalMeaning(c, killed, i);
    if Admissible(c, killed, i) {
      SizedExactly(c, i);
    }
  }

  lemma MarketReasons(c: RiskConfig, killed: bool, i: Inputs, x: Rejection)
    ensures x in MarketRejections(c, killed, i) <==>
            match x
            case BadQuality => i.quality != "OK" && i.quality != "DATA_VALID"
            case HighVolatility => i.highVolatility
            case WideSpread => i.spread.Some? && i.spread.value > c.maxSpreadPct
            case NoLiquidity => i.liquidity.Some? && i.liquidity.value <= 0.0
            case KillActive => killed
            case NotExecutable => i.action == OtherAction
            case LowConfidence => i.confidence < c.minConfidence
            case _ => false
  {
    hide Note;
  }

  lemma OrderReasons(c: RiskConfig, i: Inputs, before: seq<Rejection>, x: Rejection)
    ensures x in OrderRejections(c, i, before) <==>
            || x in before
            || match x
               case BadEntry => i.entry <= 0.0
               case StopRequired => i.stopLoss.None?
               case LongStopAbove => i.action == Long && i.stopLoss.Some? && i.stopLoss.value >= i.entry
               case ShortStopBelow => i.action == Short && i.stopLoss.Some? && i.stopLoss.value <= i.entry
               case BadLeverage => i.leverage <= 0.0
               case LeverageTooHigh => i.leverage > 0.0 && i.leverage > c.maxLeverage
               case _ => false
  {
    hide Note;
  }

  lemma BaseReasons(c: RiskConfig, killed: bool, i: Inputs, x: Rejection)
    ensures x in BaseRejections(c, killed, i) <==>
            || x in MarketRejections(c, killed, i) || x in OrderRejections(c, i, [])
            || (x == PositionLimit && i.openPositions >= c.maxPositions)
            || (x == CorrelationLimit && i.correlated >= c.maxCorrelated)
            || (x == DrawdownKill && i.drawdown >= c.killDrawdown)
  {
    OrderReasons(c, i, MarketRejections(c, killed, i), x);
    OrderReasons(c, i, [], x);
    hide Note, MarketRejections, OrderRejections;
  }

  /** Every reason is given exactly when its own condition holds, whatever else is wrong. */
  lemma RejectionsExactly(c: RiskConfig, killed: bool, i: Inputs, x: Rejection)
    requires ValidConfig(c) && ValidInputs(i)
    ensures var r := Evaluation(c, killed, i);
      x in r.rejections <==>
        match x
        case BadQuality => i.quality != "OK" && i.quality != "DATA_VALID"
        case HighVolatility => i.highVolatility
        case WideSpread => i.spread.Some? && i.spread.value > c.maxSpreadPct
        case NoLiquidity => i.liquidity.Some? && i.liquidity.value <= 0.0
        case KillActive => killed
        case NotExecutable => i.action == OtherAction
        case LowConfidence => i.confidence < c.minConfidence
        case BadEntry => i.entry <= 0.0
        case StopRequired => i.stopLoss.None?
        case LongStopAbove => i.action == Long && i.stopLoss.Some? && i.stopLoss.value >= i.entry
        case ShortStopBelow => i.action == Short && i.stopLoss.Some? && i.stopLoss.value <= i.entry
        case BadLeverage => i.leverage <= 0.0
        case LeverageTooHigh => i.leverage > c.maxLeverage
        case PositionLimit => i.openPositions >= c.maxPositions
        case CorrelationLimit => i.correlated >= c.maxCorrelated
        case DrawdownKill => i.drawdown >= c.killDrawdown
        case BelowMinimum => r.rejections == [BelowMinimum]
  {
    hide BaseRejections, MarketRejections, OrderRejections, RawSize;
    NoRejectionMeansAdmissible(c, killed, i);
    BaseReasons(c, killed, i, x);
    MarketReasons(c, killed, i, x);
    OrderReasons(c, i, [], x);
  }
}
