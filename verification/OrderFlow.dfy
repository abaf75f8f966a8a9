/** OrderFlowEngine: every trade id is remembered once, with the values it was first seen with. */
module OrderFlow {
  import opened Arithmetic
  import opened Optional
  import opened Sums

  datatype Side = Buy | Sell

  /**
   A trade as given. `id` is what _trade_id makes of it; `side` is None when it is neither BUY
   nor SELL, `time` and `quantity` are None when they are not finite.
   */
  datatype Trade = Trade(id: string, time: Option<real>, side: Option<Side>, quantity: Option<real>,
                         symbol: Option<string>)

  datatype Record = Record(time: real, side: Side, quantity: real, symbol: Option<string>)

  type Store = map<string, Record>

  /** _remember takes the trade. */
  predicate Usable(t: Trade) { t.side.Some? && t.time.Some? && t.quantity.Some? && t.quantity.value >= 0.0 }

  function RecordOf(t: Trade): Record
    requires Usable(t)
  {
    Record(t.time.value, t.side.value, t.quantity.value, t.symbol)
  }

  /** setdefault */
  function Remember(store: Store, t: Trade): Store {
    if Usable(t) && t.id !in store then store[t.id := RecordOf(t)] else store
  }

  /** The trades of one call that the cutoff and the symbol let through. */
  predicate Selected(t: Trade, asOf: Option<real>, symbol: Option<string>) {
    && (asOf.Some? ==> t.time.Some? && t.time.value <= asOf.value)
    && (symbol.Some? && t.symbol.Some? ==> t.symbol == symbol)
  }

  function RememberAll(store: Store, trades: seq<Trade>, asOf: Option<real>, symbol: Option<string>): Store {
    if trades == [] then store
    else
      var before, last := RememberAll(store, trades[..|trades| - 1], asOf, symbol), trades[|trades| - 1];
      if Selected(last, asOf, symbol) then Remember(before, last) else before
  }

  /** The ids of one call. */
  function Current(trades: seq<Trade>, asOf: Option<real>, symbol: Option<string>): set<string> {
    set t | t in trades && Selected(t, asOf, symbol) && Usable(t) :: t.id
  }

  function Signed(r: Record): real { if r.side.Buy? then r.quantity else -r.quantity }

  function Bought(r: Record): real { if r.side.Buy? then r.quantity else 0.0 }

  function Sold(r: Record): real { if r.side.Sell? then r.quantity else 0.0 }

  // ---------------------------------------------------------------- sums over stored trades

  /** What each stored trade contributes. */
  function Amounts(store: Store, f: Record -> real): (amounts: map<string, real>)
    ensures amounts.Keys == store.Keys
  {
    map id | id in store :: f(store[id])
  }

  /** Volume bought minus volume sold over everything stored. */
  ghost function Net(store: Store): real { Sum(Amounts(store, Signed), store.Keys) }

  /** The stored trades that a cutoff and a symbol count. */
  function Counted(store: Store, asOf: Option<real>, symbol: Option<string>): set<string> {
    set id | id in store && (asOf.None? || store[id].time <= asOf.value)
             && (symbol.None? || store[id].symbol.None? || store[id].symbol == symbol)
  }

  // ---------------------------------------------------------------- the engine

  datatype Bias = Bullish | Bearish | Neutral
  datatype Aggression = NoTrades | Weak | Moderate | Strong

  /** `ratio` is None for infinity. */
  datatype Snapshot = Snapshot(
    bought: real, sold: real, delta: real, cumulative: real, ratio: Option<real>, bias: Bias,
    aggression: Aggression, absorption: bool, count: nat, imbalance: real)

  /** Half of the volume one way is strong, a fifth is moderate. */
  function Grade(delta: real, total: real): Aggression {
    if total == 0.0 then NoTrades
    else if 2.0 * Abs(delta) >= total then Strong
    else if 5.0 * Abs(delta) >= total then Moderate else Weak
  }

  /** What a snapshot derives from its two volumes. */
  ghost predicate Graded(r: Snapshot, bookImbalance: real) {
    && r.bought >= 0.0 && r.sold >= 0.0 && -1.0 <= r.imbalance <= 1.0
    && r.imbalance * (r.bought + r.sold) == r.delta
    && (if r.ratio.Some? then r.ratio.value * r.sold == r.bought else r.sold == 0.0 < r.bought)
    && r.bias == (if r.delta > 0.0 then Bullish else if r.delta < 0.0 then Bearish else Neutral)
    && r.aggression == Grade(r.delta, r.bought + r.sold)
    && (r.absorption <==> r.aggression.Strong? && -0.1 < bookImbalance < 0.1)
  }

  /** The quotients that analyze() forms, without their divisions. */
  lemma SharesOf(bought: real, sold: real)
    requires bought >= 0.0 && sold >= 0.0
    ensures var delta, total := bought - sold, bought + sold;
            && (total > 0.0 ==>
                && -1.0 <= delta / total <= 1.0 && (delta / total) * total == delta
                && (Abs(delta) / total >= 0.5 <==> 2.0 * Abs(delta) >= total)
                && (Abs(delta) / total >= 0.2 <==> 5.0 * Abs(delta) >= total))
            && (sold > 0.0 ==> (bought / sold) * sold == bought)
  {
    var delta, total := bought - sold, bought + sold;
    if sold > 0.0 { QuotientBounds(bought, sold, 0.0); }
    if total > 0.0 {
      QuotientBounds(delta, total, -1.0);
      QuotientBounds(delta, total, 1.0);
      QuotientBounds(Abs(delta), total, 0.5);
      QuotientBounds(Abs(delta), total, 0.2);
    }
  }

  lemma QuotientBounds(x: real, y: real, bound: real)
    requires y > 0.0
    ensures x / y >= bound <==> x >= bound * y
    ensures x / y <= bound <==> x <= bound * y
    ensures (x / y) * y == x
  {
    var q := x / y;
    assert q * y == x;
    if q > bound { assert (q - bound) * y > 0.0; } else if q < bound { assert (bound - q) * y > 0.0; }
  }

  class OrderFlowEngine {
    var trades: Store

    ghost predicate Valid()
      reads this
    {
      forall id | id in trades :: trades[id].quantity >= 0.0
    }

    constructor ()
      ensures Valid() && trades == map[]
    {
      trades := map[];
    }

    method RememberTrade(t: Trade) returns (id: Option<string>)
      requires Valid()
      modifies this
      ensures Valid() && trades == Remember(old(trades), t)
      ensures id == if Usable(t) then Some(t.id) else None
    {
      if t.side.None? {
        return None;
      }
      if t.time.None? || t.quantity.None? || t.quantity.value < 0.0 {
        return None;
      }
      if t.id !in trades {
        trades := trades[t.id := Record(t.time.value, t.side.value, t.quantity.value, t.symbol)];
      }
      return Some(t.id);
    }

    method Analyze(given: seq<Trade>, bookImbalance: real, asOf: Option<real>,
                   symbol: Option<string>) returns (r: Snapshot)
      requires Valid()
      modifies this
      ensures Valid() && trades == RememberAll(old(trades), given, asOf, symbol)
      ensures Current(given, asOf, symbol) <= trades.Keys
      ensures r.bought == Sum(Amounts(trades, Bought), Current(given, asOf, symbol))
      ensures r.sold == Sum(Amounts(trades, Sold), Current(given, asOf, symbol))
      ensures r.delta == r.bought - r.sold && r.count == |Current(given, asOf, symbol)|
      ensures Counted(trades, asOf, symbol) <= trades.Keys
      ensures r.cumulative == Sum(Amounts(trades, Signed), Counted(trades, asOf, symbol))
      ensures Graded(r, bookImbalance)
    {
      hide RememberAll, Current, Sum, Graded;
      var ids := Ingest(given, asOf, symbol);
      var bought, sold := Volumes(ids);
      var cumulative := Cumulative(asOf, symbol);
      r := Summarise(bought, sold, cumulative, |ids|, bookImbalance);
    }

    method Ingest(given: seq<Trade>, asOf: Option<real>, symbol: Option<string>) returns (ids: set<string>)
      requires Valid()
      modifies this
      ensures Valid() && trades == RememberAll(old(trades), given, asOf, symbol)
      ensures ids == Current(given, asOf, symbol) && ids <= trades.Keys
    {
      hide Current, Remember;
      assert Current([], asOf, symbol) == {} by { NothingCurrent(asOf, symbol); }
      ids := {};
      for k := 0 to |given|
        invariant Valid() && trades == RememberAll(old(trades), given[..k], asOf, symbol)
        invariant ids == Current(given[..k], asOf, symbol) && ids <= trades.Keys
      {
        assert given[..k + 1] == given[..k] + [given[k]];
        var t := given[k];
        RememberAppend(old(trades), given[..k], t, asOf, symbol);
        CurrentAppend(given[..k], t, asOf, symbol);
        if (asOf.None? || (t.time.Some? && t.time.value <= asOf.value))
        && (symbol.None? || t.symbol.None? || t.symbol == symbol) {
          var id := RememberTrade(t);
          if id.Some? {
            ids := ids + {id.value};
          }
        }
      }
      assert given[..|given|] == given;
    }

    method Volumes(ids: set<string>) returns (bought: real, sold: real)
      requires Valid() && ids <= trades.Keys
      ensures bought >= 0.0 && sold >= 0.0
      ensures bought == Sum(Amounts(trades, Bought), ids) && sold == Sum(Amounts(trades, Sold), ids)
    {
      SumNonNegative(Amounts(trades, Bought), ids);
      SumNonNegative(Amounts(trades, Sold), ids);
      bought, sold := 0.0, 0.0;
      var rest := ids;
      while rest != {}
        invariant rest <= ids
        invariant bought + Sum(Amounts(trades, Bought), rest) == Sum(Amounts(trades, Bought), ids)
        invariant sold + Sum(Amounts(trades, Sold), rest) == Sum(Amounts(trades, Sold), ids)
        decreases rest
      {
        ghost var some := Pick(rest);
        var id :| id in rest;
        SumTake(Amounts(trades, Bought), rest, id);
        SumTake(Amounts(trades, Sold), rest, id);
        if trades[id].side == Buy {
          bought := bought + trades[id].quantity;
        } else {
          sold := sold + trades[id].quantity;
        }
        rest := rest - {id};
      }
    }

    method Cumulative(asOf: Option<real>, symbol: Option<string>) returns (cumulative: real)
      ensures cumulative == Sum(Amounts(trades, Signed), Counted(trades, asOf, symbol))
    {
      cumulative := 0.0;
      var rest := Counted(trades, asOf, symbol);
      while rest != {}
        invariant rest <= Counted(trades, asOf, symbol)
        invariant cumulative + Sum(Amounts(trades, Signed), rest) ==
                    Sum(Amounts(trades, Signed), Counted(trades, asOf, symbol))
        decreases rest
      {
        ghost var some := Pick(rest);
        var id :| id in rest;
        SumTake(Amounts(trades, Signed), rest, id);
        cumulative := cumulative + (if trades[id].side == Buy then trades[id].quantity else -trades[id].quantity);
        rest := rest - {id};
      }
    }
  }

  method Summarise(bought: real, sold: real, cumulative: real, count: nat, bookImbalance: real) returns (r: Snapshot)
    requires bought >= 0.0 && sold >= 0.0
    ensures r.bought == bought && r.sold == sold && r.cumulative == cumulative && r.count == count
    ensures r.delta == bought - sold && Graded(r, bookImbalance)
  {
    var delta := bought - sold;
    var ratio := if sold > 0.0 then Some(bought / sold) else if bought > 0.0 then None else Some(0.0);
    var bias := if delta > 0.0 then Bullish else if delta < 0.0 then Bearish else Neutral;
    var total := bought + sold;
    var imbalance := if total != 0.0 then delta / total else 0.0;
    SharesOf(bought, sold);
    var aggression :=
      if total == 0.0 then NoTrades
      else if Abs(delta) / total >= 0.5 then Strong
      else if Abs(delta) / total >= 0.2 then Moderate else Weak;
    r := Snapshot(bought, sold, delta, cumulative, ratio, bias, aggression,
                  aggression == Strong && Abs(bookImbalance) < 0.1, count, imbalance);
  }

  lemma NothingCurrent(asOf: Option<real>, symbol: Option<string>)
    ensures Current([], asOf, symbol) == {}
  {}

  lemma RememberAppend(store: Store, trades: seq<Trade>, t: Trade, asOf: Option<real>, symbol: Option<string>)
    ensures var before := RememberAll(store, trades, asOf, symbol);
            && RememberAll(store, trades + [t], asOf, symbol) ==
                 (if Selected(t, asOf, symbol) then Remember(before, t) else before)
            && before.Keys <= Remember(before, t).Keys && (Usable(t) ==> t.id in Remember(before, t))
  {
    assert (trades + [t])[..|trades|] == trades;
  }

  lemma CurrentAppend(trades: seq<Trade>, t: Trade, asOf: Option<real>, symbol: Option<string>)
    ensures Current(trades + [t], asOf, symbol) ==
            Current(trades, asOf, symbol) + (if Selected(t, asOf, symbol) && Usable(t) then {t.id} else {})
  {}

  // ---------------------------------------------------------------- what one call counts

  /** The current ids are exactly those of usable trades not later than the cutoff and of no other symbol. */
  lemma CurrentExactly(given: seq<Trade>, asOf: Option<real>, symbol: Option<string>, id: string)
    ensures id in Current(given, asOf, symbol) <==>
            exists t :: t in given && t.id == id
              && t.side.Some? && t.time.Some? && t.quantity.Some? && t.quantity.value >= 0.0
              && (asOf.None? || t.time.value <= asOf.value)
              && (symbol.None? || t.symbol.None? || t.symbol.value == symbol.value)
  {
    forall t | t in given && t.id == id && Usable(t)
      ensures Selected(t, asOf, symbol) ==> t.id in Current(given, asOf, symbol)
    {}
  }

  /** The quantities of the stored trades. */
  function Quantities(store: Store): (quantities: map<string, real>)
    ensures quantities.Keys == store.Keys
  {
    map id | id in store :: store[id].quantity
  }

  lemma {:induction false} SumOfSome(store: Store, f: Record -> real, ids: set<string>, some: set<string>)
    requires some <= ids <= store.Keys
    requires forall id | id in ids :: f(store[id]) == if id in some then store[id].quantity else 0.0
    ensures Sum(Amounts(store, f), ids) == Sum(Quantities(store), some)
    decreases ids
  {
    if ids != {} {
      var id := Pick(ids);
      SumTake(Amounts(store, f), ids, id);
      if id in some { SumTake(Quantities(store), some, id); } else { assert some - {id} == some; }
      SumOfSome(store, f, ids - {id}, some - {id});
    }
    hide Sum;
  }

  lemma {:induction false} SumOfDifference(store: Store, ids: set<string>)
    requires ids <= store.Keys
    ensures Sum(Amounts(store, Signed), ids) == Sum(Amounts(store, Bought), ids) - Sum(Amounts(store, Sold), ids)
    decreases ids
  {
    if ids != {} {
      var id := Pick(ids);
      SumTake(Amounts(store, Signed), ids, id);
      SumTake(Amounts(store, Bought), ids, id);
      SumTake(Amounts(store, Sold), ids, id);
      SumOfDifference(store, ids - {id});
    }
  }

  /** The volumes are the quantities bought and sold, and the signed volume is their difference. */
  lemma VolumesBySide(store: Store, ids: set<string>)
    requires ids <= store.Keys
    ensures Sum(Amounts(store, Bought), ids) == Sum(Quantities(store), set id | id in ids && store[id].side == Buy)
    ensures Sum(Amounts(store, Sold), ids) == Sum(Quantities(store), set id | id in ids && store[id].side == Sell)
    ensures Sum(Amounts(store, Signed), ids) ==
              Sum(Quantities(store), set id | id in ids && store[id].side == Buy)
              - Sum(Quantities(store), set id | id in ids && store[id].side == Sell)
  {
    SumOfSome(store, Bought, ids, set id | id in ids && store[id].side == Buy);
    SumOfSome(store, Sold, ids, set id | id in ids && store[id].side == Sell);
    SumOfDifference(store, ids);
  }

  /** The grades of a snapshot, in terms of what was bought and sold. */
  lemma GradesExactly(r: Snapshot, bookImbalance: real)
    requires Graded(r, bookImbalance) && r.delta == r.bought - r.sold
    ensures (r.bias == Bullish <==> r.bought > r.sold) && (r.bias == Bearish <==> r.bought < r.sold)
    ensures r.aggression == NoTrades <==> r.bought + r.sold == 0.0
    ensures r.aggression == Strong <==>
            r.bought + r.sold > 0.0 && (r.bought >= 3.0 * r.sold || r.sold >= 3.0 * r.bought)
    ensures r.aggression == Weak <==>
            r.bought + r.sold > 0.0 && 2.0 * r.bought < 3.0 * r.sold && 2.0 * r.sold < 3.0 * r.bought
    ensures r.absorption <==> r.aggression == Strong && -0.1 < bookImbalance < 0.1
    ensures r.ratio.None? <==> r.sold == 0.0 && r.bought > 0.0
    ensures r.ratio.Some? ==> r.ratio.value * r.sold == r.bought
    ensures r.imbalance * (r.bought + r.sold) == r.bought - r.sold
  {
    var total := r.bought + r.sold;
    if total == 0.0 { assert r.imbalance * total == 0.0; }
  }

  lemma {:induction false} RememberPast(store: Store, given: seq<Trade>, moment: real, symbol: Option<string>)
    ensures RememberAll(store, given, Some(moment), symbol) == RememberAll(store, UpTo(given, moment), None, symbol)
  {
    if given != [] {
      var before, last := given[..|given| - 1], given[|given| - 1];
      RememberPast(store, before, moment, symbol);
      RememberAppend(store, UpTo(before, moment), last, None, symbol);
    }
  }

  /**
   No look-ahead within a call: a call with a cutoff stores and counts exactly what a call without one
   does on the trades up to the cutoff, so the volumes and the count are the same.
   */
  lemma NoLookAhead(store: Store, given: seq<Trade>, moment: real, symbol: Option<string>)
    ensures var (ids, past) := (Current(given, Some(moment), symbol), UpTo(given, moment));
      var (after, pastIds) := (RememberAll(store, given, Some(moment), symbol), Current(past, None, symbol));
      && after == RememberAll(store, past, None, symbol) && ids == pastIds && ids <= after.Keys
      && Sum(Amounts(after, Bought), ids) == Sum(Amounts(RememberAll(store, past, None, symbol), Bought), pastIds)
      && Sum(Amounts(after, Sold), ids) == Sum(Amounts(RememberAll(store, past, None, symbol), Sold), pastIds)
      && (forall t | t in given && t.time.Some? && t.time.value > moment :: t !in past)
  {
    var (ids, past) := (Current(given, Some(moment), symbol), UpTo(given, moment));
    RememberPast(store, given, moment, symbol);
    forall id ensures id in ids <==> id in Current(past, None, symbol) {
      CurrentExactly(given, Some(moment), symbol, id);
      CurrentExactly(past, None, symbol, id);
      forall t ensures t in past <==> t in given && !(t.time.Some? && t.time.value > moment) {
        InUpTo(given, moment, t);
      }
      hide Current, UpTo;
    }
    forall t ensures t in past <==> t in given && !(t.time.Some? && t.time.value > moment) { InUpTo(given, moment, t); }
    assert ids == Current(past, None, symbol);
    CurrentIsStored(store, given, Some(moment), symbol);
    hide RememberAll, Current, UpTo;
  }

  lemma {:induction false} CurrentIsStored(store: Store, given: seq<Trade>, asOf: Option<real>, symbol: Option<string>)
    ensures Current(given, asOf, symbol) <= RememberAll(store, given, asOf, symbol).Keys
  {
    if given == [] {
      NothingCurrent(asOf, symbol);
    } else {
      var before, last := given[..|given| - 1], given[|given| - 1];
      assert given == before + [last];
      CurrentIsStored(store, before, asOf, symbol);
      RememberAppend(store, before, last, asOf, symbol);
      CurrentAppend(before, last, asOf, symbol);
      hide Current, Remember;
    }
  }

  // ---------------------------------------------------------------- runs of calls

  datatype Call = Call(trades: seq<Trade>, asOf: Option<real>, symbol: Option<string>)

  /** The store after some calls of analyze on a fresh engine. */
  function After(calls: seq<Call>): Store {
    if calls == [] then map[]
    else
      var last := calls[|calls| - 1];
      RememberAll(After(calls[..|calls| - 1]), last.trades, last.asOf, last.symbol)
  }

  /** The trades that a cutoff and a symbol let through. */
  function Through(trades: seq<Trade>, asOf: Option<real>, symbol: Option<string>): seq<Trade> {
    if trades == [] then []
    else
      var before, last := Through(trades[..|trades| - 1], asOf, symbol), trades[|trades| - 1];
      if Selected(last, asOf, symbol) then before + [last] else before
  }

  /** Everything that the calls let through, in order of arrival. */
  function Given(calls: seq<Call>): seq<Trade> {
    if calls == [] then []
    else
      var last := calls[|calls| - 1];
      Given(calls[..|calls| - 1]) + Through(last.trades, last.asOf, last.symbol)
  }

  lemma {:induction false} ThroughExactly(trades: seq<Trade>, asOf: Option<real>, symbol: Option<string>, t: Trade)
    ensures t in Through(trades, asOf, symbol) <==>
            t in trades && (asOf.None? || (t.time.Some? && t.time.value <= asOf.value))
            && (symbol.None? || t.symbol.None? || t.symbol.value == symbol.value)
  {
    if trades != [] {
      ThroughExactly(trades[..|trades| - 1], asOf, symbol, t);
      assert trades == trades[..|trades| - 1] + [trades[|trades| - 1]];
    }
  }

  /** What the calls let through: each trade that some call was given, not past its cutoff and of no other symbol. */
  lemma {:induction false} GivenExactly(calls: seq<Call>, t: Trade)
    ensures t in Given(calls) <==>
            exists call :: call in calls && t in call.trades
              && (call.asOf.None? || (t.time.Some? && t.time.value <= call.asOf.value))
              && (call.symbol.None? || t.symbol.None? || t.symbol.value == call.symbol.value)
  {
    if calls != [] {
      var before, last := calls[..|calls| - 1], calls[|calls| - 1];
      GivenExactly(before, t);
      ThroughExactly(last.trades, last.asOf, last.symbol, t);
      assert calls == before + [last];
      hide Through;
    }
  }

  /** The first usable trade with an id. */
  function FirstSeen(trades: seq<Trade>, id: string): Option<Record> {
    if trades == [] then None
    else
      var before, last := FirstSeen(trades[..|trades| - 1], id), trades[|trades| - 1];
      if before.Some? then before else if Usable(last) && last.id == id then Some(RecordOf(last)) else None
  }

  function Found(store: Store, id: string): Option<Record> { if id in store then Some(store[id]) else None }

  lemma {:induction false} FirstSeenOfConcat(a: seq<Trade>, b: seq<Trade>, id: string)
    ensures FirstSeen(a + b, id) == if FirstSeen(a, id).Some? then FirstSeen(a, id) else FirstSeen(b, id)
  {
    if b == [] {
      assert a + b == a;
    } else {
      FirstSeenOfConcat(a, b[..|b| - 1], id);
      assert (a + b)[..|a + b| - 1] == a + b[..|b| - 1];
    }
  }

  lemma {:induction false} RememberedFirst(store: Store, trades: seq<Trade>, asOf: Option<real>,
                                           symbol: Option<string>, id: string)
    ensures Found(RememberAll(store, trades, asOf, symbol), id)
         == if id in store then Some(store[id]) else FirstSeen(Through(trades, asOf, symbol), id)
  {
    if trades != [] {
      var before, last := Through(trades[..|trades| - 1], asOf, symbol), trades[|trades| - 1];
      RememberedFirst(store, trades[..|trades| - 1], asOf, symbol, id);
      assert (before + [last])[..|before|] == before;
    }
  }

  lemma {:induction false} StoredFirst(calls: seq<Call>, id: string)
    ensures Found(After(calls), id) == FirstSeen(Given(calls), id)
  {
    if calls != [] {
      var before, last := calls[..|calls| - 1], calls[|calls| - 1];
      StoredFirst(before, id);
      RememberedFirst(After(before), last.trades, last.asOf, last.symbol, id);
      FirstSeenOfConcat(Given(before), Through(last.trades, last.asOf, last.symbol), id);
    }
  }

  /** The ids of the usable trades. */
  function Ids(trades: seq<Trade>): set<string> { set t | t in trades && Usable(t) :: t.id }

  /** One record per distinct id, with its first-seen values. */
  function Distinct(trades: seq<Trade>): Store {
    map id | id in Ids(trades) && FirstSeen(trades, id).Some? :: FirstSeen(trades, id).value
  }

  lemma {:induction false} SeenExactly(trades: seq<Trade>, id: string)
    ensures FirstSeen(trades, id).Some? <==> id in Ids(trades)
    ensures FirstSeen(trades, id).Some? ==>
            exists t :: t in trades && Usable(t) && t.id == id && RecordOf(t) == FirstSeen(trades, id).value
  {
    if trades != [] {
      SeenExactly(trades[..|trades| - 1], id);
      assert trades == trades[..|trades| - 1] + [trades[|trades| - 1]];
    }
  }

  /**
   However the calls overlap and whatever their cutoffs and symbols, the store holds exactly one
   record per distinct id that was let through, with the values it was first let through with;
   the cumulative delta at a cutoff is the net volume over the counted ones.
   */
  lemma EachTradeCountsOnce(calls: seq<Call>, asOf: Option<real>, symbol: Option<string>)
    ensures After(calls) == Distinct(Given(calls)) && After(calls).Keys == Ids(Given(calls))
    ensures Counted(After(calls), asOf, symbol) <= After(calls).Keys
    ensures Sum(Amounts(After(calls), Signed), Counted(After(calls), asOf, symbol))
         == Sum(Amounts(Distinct(Given(calls)), Signed), Counted(Distinct(Given(calls)), asOf, symbol))
    ensures asOf.None? && symbol.None? ==> Counted(After(calls), asOf, symbol) == After(calls).Keys
  {
    var store, distinct := After(calls), Distinct(Given(calls));
    forall id ensures Found(store, id) == Found(distinct, id) && (id in store <==> id in Ids(Given(calls))) {
      StoredFirst(calls, id);
      SeenExactly(Given(calls), id);
    }
    assert store.Keys == distinct.Keys;
    forall id | id in store ensures store[id] == distinct[id] {
      assert Found(store, id) == Found(distinct, id);
    }
  }

  /** The first trade with this id that has a side, a time and a non-negative quantity. */
  ghost predicate FirstUse(trades: seq<Trade>, k: nat, id: string) {
    && k < |trades| && Complete(trades[k], id)
    && forall j | 0 <= j < k :: !Complete(trades[j], id)
  }

  predicate Complete(t: Trade, id: string) {
    t.id == id && t.side.Some? && t.time.Some? && t.quantity.Some? && t.quantity.value >= 0.0
  }

  lemma {:induction false} FirstUseExactly(trades: seq<Trade>, id: string)
    ensures FirstSeen(trades, id).Some? <==> exists k: nat :: FirstUse(trades, k, id)
    ensures forall k: nat | FirstUse(trades, k, id) ::
              var t := trades[k];
              FirstSeen(trades, id) == Some(Record(t.time.value, t.side.value, t.quantity.value, t.symbol))
  {
    if trades != [] {
      var before, last := trades[..|trades| - 1], trades[|trades| - 1];
      FirstUseExactly(before, id);
      assert forall k: nat | k < |before| :: FirstUse(before, k, id) <==> FirstUse(trades, k, id);
      if FirstSeen(before, id).Some? {
        var k: nat :| FirstUse(before, k, id);
        assert FirstUse(trades, k, id);
      } else if Complete(last, id) {
        assert forall j | 0 <= j < |before| && Complete(before[j], id) :: exists k: nat :: FirstUse(before, k, id) by {
          forall j: nat | j < |before| && Complete(before[j], id) ensures exists k: nat :: FirstUse(before, k, id) {
            LeastUse(before, j, id);
          }
        }
        assert FirstUse(trades, |before|, id);
      }
    }
  }

  lemma {:induction false} LeastUse(trades: seq<Trade>, j: nat, id: string)
    requires j < |trades| && Complete(trades[j], id)
    ensures exists k: nat :: FirstUse(trades, k, id)
  {
    if i: nat :| i < j && Complete(trades[i], id) {
      LeastUse(trades, i, id);
    } else {
      assert FirstUse(trades, j, id);
    }
  }

  /**
   The store after any calls: one record for each id with a usable trade let through, with the values of
   the first such trade; the cumulative delta at a cutoff counts it exactly when its own time and symbol fit.
   */
  lemma StoredExactly(calls: seq<Call>, asOf: Option<real>, symbol: Option<string>, id: string)
    ensures id in After(calls) <==> exists k: nat :: FirstUse(Given(calls), k, id)
    ensures forall k: nat | FirstUse(Given(calls), k, id) ::
      var t := Given(calls)[k];
      && id in After(calls) && After(calls)[id] == Record(t.time.value, t.side.value, t.quantity.value, t.symbol)
      && (id in Counted(After(calls), asOf, symbol) <==>
            (asOf.None? || t.time.value <= asOf.value)
            && (symbol.None? || t.symbol.None? || t.symbol.value == symbol.value))
  {
    StoredFirst(calls, id);
    FirstUseExactly(Given(calls), id);
    hide After, Given, FirstSeen, FirstUse;
  }

  /** Repeats agree: two usable trades with one id carry the same values. */
  ghost predicate Agreeing(trades: seq<Trade>) {
    forall a, b | a in trades && b in trades && Usable(a) && Usable(b) && a.id == b.id :: RecordOf(a) == RecordOf(b)
  }

  /** When repeats agree, neither order nor repetition nor the division into calls matters. */
  lemma OrderDoesNotMatter(calls: seq<Call>, others: seq<Call>)
    requires Agreeing(Given(calls)) && forall t :: t in Given(calls) <==> t in Given(others)
    ensures After(calls) == After(others) && Net(After(calls)) == Net(After(others))
  {
    SameDistinct(Given(calls), Given(others));
    EachTradeCountsOnce(calls, None, None);
    EachTradeCountsOnce(others, None, None);
  }

  lemma SameDistinct(a: seq<Trade>, b: seq<Trade>)
    requires Agreeing(a) && forall t :: t in a <==> t in b
    ensures Distinct(a) == Distinct(b)
  {
    forall id ensures FirstSeen(a, id) == FirstSeen(b, id) {
      SeenExactly(a, id);
      SeenExactly(b, id);
    }
    assert Ids(a) == Ids(b);
  }

  /** What has happened up to a moment. */
  function UpTo(trades: seq<Trade>, moment: real): seq<Trade> {
    if trades == [] then []
    else
      var before, last := UpTo(trades[..|trades| - 1], moment), trades[|trades| - 1];
      if last.time.Some? && last.time.value > moment then before else before + [last]
  }

  lemma {:induction false} InUpTo(trades: seq<Trade>, moment: real, t: Trade)
    ensures t in UpTo(trades, moment) <==> t in trades && !(t.time.Some? && t.time.value > moment)
  {
    if trades != [] {
      InUpTo(trades[..|trades| - 1], moment, t);
      assert trades == trades[..|trades| - 1] + [trades[|trades| - 1]];
    }
  }

  /** When repeats agree, what was first seen of an id is what the past shows of it, if it shows it at all. */
  lemma PastShowsTheSame(trades: seq<Trade>, moment: real, id: string)
    requires Agreeing(trades)
    ensures var (past, first) := (UpTo(trades, moment), FirstSeen(trades, id));
      && (id in Ids(past) <==> first.Some? && first.value.time <= moment)
      && (id in Ids(past) ==> FirstSeen(past, id) == first)
  {
    var past := UpTo(trades, moment);
    forall t
      ensures t in past <==> t in trades && !(t.time.Some? && t.time.value > moment)
    {
      InUpTo(trades, moment, t);
    }
    SeenExactly(trades, id);
    SeenExactly(past, id);
    hide FirstSeen, UpTo;
    if FirstSeen(trades, id).Some? {
      var t :| t in trades && Usable(t) && t.id == id && RecordOf(t) == FirstSeen(trades, id).value;
      assert t in past <==> FirstSeen(trades, id).value.time <= moment;
    }
  }

  /**
   No look-ahead: when repeats agree, the cumulative delta at a cutoff is the net volume over
   what had happened by then, although later trades are in the store already.
   */
  lemma FutureTradesDoNotCount(calls: seq<Call>, moment: real)
    requires Agreeing(Given(calls))
    ensures var past := Distinct(UpTo(Given(calls), moment));
      && Counted(After(calls), Some(moment), None) == past.Keys
      && past.Keys <= After(calls).Keys && (forall id | id in past :: After(calls)[id] == past[id])
      && Sum(Amounts(After(calls), Signed), past.Keys) == Net(past)
  {
    var (store, past) := (After(calls), Distinct(UpTo(Given(calls), moment)));
    forall id
      ensures id in past <==> id in Counted(store, Some(moment), None)
      ensures id in past ==> id in store && store[id] == past[id]
    {
      StoredFirst(calls, id);
      PastShowsTheSame(Given(calls), moment, id);
      SeenExactly(UpTo(Given(calls), moment), id);
      hide FirstSeen, Given, After, UpTo, Ids;
    }
    hide Given, After, UpTo, Distinct;
    SumElsewhere(Amounts(store, Signed), Amounts(past, Signed), past.Keys);
  }

  /** When repeats disagree the order decides: whichever trade came first is the one that is counted. */
  lemma DisagreementMatters(a: Trade, b: Trade)
    requires Usable(a) && Usable(b) && a.id == b.id
    ensures Net(After([Call([a, b], None, None)])) == Signed(RecordOf(a))
    ensures Net(After([Call([b, a], None, None)])) == Signed(RecordOf(b))
  {
    OnlyTheFirst(a, b);
    OnlyTheFirst(b, a);
  }

  lemma OnlyTheFirst(a: Trade, b: Trade)
    requires Usable(a) && Usable(b) && a.id == b.id
    ensures Net(After([Call([a, b], None, None)])) == Signed(RecordOf(a))
  {
    var calls := [Call([a, b], None, None)];
    assert [a, b][..1] == [a] && [a][..0] == [] && calls[..0] == [];
    assert RememberAll(map[], [a], None, None) == map[a.id := RecordOf(a)];
    assert RememberAll(map[], [a, b], None, None) == map[a.id := RecordOf(a)];
    var store := After(calls);
    assert After(calls[..0]) == map[];
    assert store == RememberAll(map[], [a, b], None, None);
    assert store == map[a.id := RecordOf(a)];
    SumTake(Amounts(store, Signed), store.Keys, a.id);
    assert store.Keys - {a.id} == {};
  }
}
