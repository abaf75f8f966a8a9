/** Fair-value gaps: detection, and the early-exit fill scan against its closed form. */
module Gaps {
  import opened Arithmetic
  import opened Optional
  import opened CandleView

  datatype Direction = Bullish | Bearish

  /** `fill` is fill_pct; filled and invalidated are both fill >= 1. */
  datatype Gap = Gap(direction: Direction, lower: real, upper: real, index: nat, created: Option<real>,
                     symbol: Option<string>, fill: real, filled: bool)

  predicate Proper(gap: Gap) { gap.lower < gap.upper }

  function Size(gap: Gap): real { gap.upper - gap.lower }

  /** Large enough relative to its lower edge. */
  predicate Notable(gap: Gap, minPct: real) { Size(gap) / Max(Abs(gap.lower), TINY) >= minPct }

  // ---------------------------------------------------------------- detection

  /** The gap left around candle i by its two neighbours. */
  function At(c: seq<Candle>, i: nat, minPct: real, symbol: Option<string>): seq<Gap>
    requires 1 <= i && i + 1 < |c|
  {
    var left, right := c[i - 1], c[i + 1];
    var named := if symbol.Some? then symbol else right.symbol;
    if left.high < right.low then
      var gap := Gap(Bullish, left.high, right.low, i, right.time, named, 0.0, false);
      if Notable(gap, minPct) then [gap] else []
    else if left.low > right.high then
      var gap := Gap(Bearish, right.high, left.low, i, right.time, named, 0.0, false);
      if Notable(gap, minPct) then [gap] else []
    else []
  }

  function Below(c: seq<Candle>, m: nat, minPct: real, symbol: Option<string>): seq<Gap>
    requires m < |c|
  {
    if m <= 1 then [] else Below(c, m - 1, minPct, symbol) + At(c, m - 1, minPct, symbol)
  }

  function Detected(c: seq<Candle>, minPct: real, symbol: Option<string>): seq<Gap> {
    if |c| < 3 then [] else Below(c, |c| - 1, minPct, symbol)
  }

  lemma {:induction false} BelowIsStable(c: seq<Candle>, longer: seq<Candle>, m: nat, minPct: real,
                                         symbol: Option<string>)
    requires c <= longer && m < |c|
    ensures Below(c, m, minPct, symbol) == Below(longer, m, minPct, symbol)
  {
    if m > 1 { BelowIsStable(c, longer, m - 1, minPct, symbol); }
  }

  lemma {:induction false} BelowGrows(c: seq<Candle>, m: nat, n: nat, minPct: real, symbol: Option<string>)
    requires m <= n < |c|
    ensures Below(c, m, minPct, symbol) <= Below(c, n, minPct, symbol)
  {
    if m < n { BelowGrows(c, m, n - 1, minPct, symbol); }
  }

  /** Gaps found on a prefix are a prefix of those found on the extension. */
  lemma GapsNeverRepaint(c: seq<Candle>, longer: seq<Candle>, minPct: real, symbol: Option<string>)
    requires c <= longer
    ensures Detected(c, minPct, symbol) <= Detected(longer, minPct, symbol)
  {
    hide At, Below;
    if |c| >= 3 {
      BelowIsStable(c, longer, |c| - 1, minPct, symbol);
      BelowGrows(longer, |c| - 1, |longer| - 1, minPct, symbol);
    }
  }

  lemma CutoffShowsPrefix(candles: seq<Candle>, a: real, later: Option<real>, symbol: Option<string>, minPct: real)
    requires TimeOrdered(candles) && (later.Some? ==> a <= later.value)
    ensures Detected(Visible(candles, Some(a), symbol), minPct, symbol) <=
              Detected(Visible(candles, later, symbol), minPct, symbol)
  {
    EarlierCutoffShowsPrefix(candles, a, later, symbol);
    GapsNeverRepaint(Visible(candles, Some(a), symbol), Visible(candles, later, symbol), minPct, symbol);
  }

  lemma {:induction false} DetectedAreProper(c: seq<Candle>, m: nat, minPct: real, symbol: Option<string>)
    requires m < |c|
    ensures forall gap | gap in Below(c, m, minPct, symbol) ::
              && Proper(gap) && Notable(gap, minPct) && 1 <= gap.index < m
              && (gap.direction.Bullish? ==> gap.lower == c[gap.index - 1].high && gap.upper == c[gap.index + 1].low)
              && (gap.direction.Bearish? ==> gap.lower == c[gap.index + 1].high && gap.upper == c[gap.index - 1].low)
  {
    if m > 1 { DetectedAreProper(c, m - 1, minPct, symbol); }
  }

  lemma NotableExactly(gap: Gap, minPct: real)
    ensures Notable(gap, minPct) <==> gap.upper - gap.lower >= minPct * Max(Abs(gap.lower), TINY)
  {
    var size, reference := gap.upper - gap.lower, Max(Abs(gap.lower), TINY);
    var q := size / reference;
    assert q * reference == size;
    if q >= minPct { assert (q - minPct) * reference >= 0.0; } else { assert (minPct - q) * reference > 0.0; }
  }

  lemma {:induction false} BelowExactly(c: seq<Candle>, m: nat, minPct: real, symbol: Option<string>, gap: Gap)
    requires m < |c|
    ensures gap in Below(c, m, minPct, symbol) <==>
            1 <= gap.index < m && gap in At(c, gap.index, minPct, symbol)
  {
    hide Notable;
    if m > 1 { BelowExactly(c, m - 1, minPct, symbol, gap); }
  }

  /**
   Every gap between the two neighbours of a candle is reported, and nothing else: up when the left high
   is below the right low, otherwise down when the left low is above the right high, and in both cases
   only if it is large enough for its lower edge.
   */
  lemma DetectedExactly(c: seq<Candle>, minPct: real, symbol: Option<string>, gap: Gap)
    ensures gap in Detected(c, minPct, symbol) <==>
            && 1 <= gap.index && gap.index + 1 < |c|
            && var (left, right) := (c[gap.index - 1], c[gap.index + 1]);
              && (if left.high < right.low
                  then gap.direction == Bullish && gap.lower == left.high && gap.upper == right.low
                  else gap.direction == Bearish && gap.lower == right.high && gap.upper == left.low)
              && gap.lower < gap.upper && gap.upper - gap.lower >= minPct * Max(Abs(gap.lower), TINY)
              && gap.created == right.time && gap.symbol == (if symbol.Some? then symbol else right.symbol)
              && gap.fill == 0.0 && !gap.filled
  {
    NotableExactly(gap, minPct);
    if |c| >= 3 { BelowExactly(c, |c| - 1, minPct, symbol, gap); }
    hide Notable, Below;
  }

  // ---------------------------------------------------------------- fills

  /** The candles that the fill scan looks at: everything shown from raw index `from`. */
  function Later(candles: seq<Candle>, from: nat, asOf: Option<real>): seq<Candle> {
    if from >= |candles| then [] else Visible(candles[from..], asOf, None)
  }

  /** How deep the price has come back into the gap, in price. */
  function Depth(gap: Gap, c: Candle): real {
    if gap.direction.Bullish? then gap.upper - c.low else c.high - gap.lower
  }

  function Deepest(gap: Gap, later: seq<Candle>): real
    requires later != []
  {
    var last := Depth(gap, later[|later| - 1]);
    if |later| == 1 then last else Max(Deepest(gap, later[..|later| - 1]), last)
  }

  function Clamp(x: real): real { if x < 0.0 then 0.0 else if x > 1.0 then 1.0 else x }

  /** clamp((upper - lowest later low) / size), or its mirror image. */
  function ClosedForm(gap: Gap, later: seq<Candle>): real
    requires Proper(gap)
  {
    if later == [] then 0.0 else Clamp(Deepest(gap, later) / Size(gap))
  }

  lemma {:induction false} DeepestIsGreatest(gap: Gap, later: seq<Candle>)
    requires later != []
    ensures forall c | c in later :: Depth(gap, c) <= Deepest(gap, later)
    ensures exists c :: c in later && Depth(gap, c) == Deepest(gap, later)
  {
    var last := later[|later| - 1];
    assert last in later;
    if |later| > 1 {
      DeepestIsGreatest(gap, later[..|later| - 1]);
      assert later == later[..|later| - 1] + [last];
    }
  }

  lemma DivideMonotone(a: real, b: real, size: real)
    requires a <= b && size > 0.0
    ensures a / size <= b / size
  {}

  lemma DivideSign(a: real, size: real)
    requires size > 0.0
    ensures (a / size >= 1.0 <==> a >= size) && (a / size > 0.0 <==> a > 0.0)
  {}

  /** The fill does not depend on the order of the candles, and more candles never lower it. */
  lemma FillGrows(gap: Gap, some: seq<Candle>, more: seq<Candle>)
    requires Proper(gap) && forall c | c in some :: c in more
    ensures ClosedForm(gap, some) <= ClosedForm(gap, more)
    ensures ClosedForm(gap, some) >= 1.0 ==> ClosedForm(gap, more) >= 1.0
  {
    if some != [] {
      assert some[0] in more;
      DeepestIsGreatest(gap, some);
      DeepestIsGreatest(gap, more);
      DivideMonotone(Deepest(gap, some), Deepest(gap, more), Size(gap));
    }
  }

  /** Filled means exactly that some later candle has reached the far edge. */
  lemma FilledExactly(gap: Gap, later: seq<Candle>)
    requires Proper(gap)
    ensures ClosedForm(gap, later) >= 1.0 <==>
            exists c :: c in later && (if gap.direction.Bullish? then c.low <= gap.lower else c.high >= gap.upper)
  {
    if later != [] {
      DeepestIsGreatest(gap, later);
      DivideSign(Deepest(gap, later), Size(gap));
      var c :| c in later && Depth(gap, c) == Deepest(gap, later);
    }
  }

  /**
   The fill times the size of the gap is how far the deepest later candle came back into it: nothing when
   none did, everything when one crossed it, and otherwise reached by one candle and exceeded by none.
   */
  lemma FillIsDeepest(gap: Gap, later: seq<Candle>)
    requires Proper(gap)
    ensures var covered := ClosedForm(gap, later) * (gap.upper - gap.lower);
            && 0.0 <= covered <= gap.upper - gap.lower
            && (forall c | c in later && covered < gap.upper - gap.lower ::
                  (if gap.direction.Bullish? then gap.upper - c.low else c.high - gap.lower) <= covered)
            && (covered > 0.0 ==>
                exists c :: c in later
                  && (if gap.direction.Bullish? then gap.upper - c.low else c.high - gap.lower) >= covered)
  {
    hide Deepest, Clamp;
    if later != [] {
      DeepestIsGreatest(gap, later);
      ClampedBack(Deepest(gap, later), Size(gap));
      assert forall c :: Depth(gap, c) == if gap.direction.Bullish? then gap.upper - c.low else c.high - gap.lower;
    }
  }

  lemma ClampedBack(depth: real, size: real)
    requires size > 0.0
    ensures Clamp(depth / size) * size == if depth < 0.0 then 0.0 else if depth > size then size else depth
  {
    DivideSign(depth, size);
    assert (depth / size) * size == depth;
    if depth < 0.0 { assert depth / size <= 0.0; } else if depth == 0.0 { assert depth / size == 0.0; }
  }

  /** What the fill scan looks at: every confirmed candle from raw index `from` that the cutoff admits. */
  lemma ScannedExactly(candles: seq<Candle>, from: nat, asOf: Option<real>, c: Candle)
    ensures c in Later(candles, from, asOf) <==>
            exists k :: from <= k < |candles| && candles[k] == c && c.confirmed
              && (asOf.None? || c.time.None? || c.time.value <= asOf.value)
  {
    if from < |candles| {
      InVisible(candles[from..], asOf, c);
      if c in candles[from..] {
        var i :| 0 <= i < |candles[from..]| && candles[from..][i] == c;
        assert candles[from + i] == c;
      }
      forall k | from <= k < |candles| && candles[k] == c ensures c in candles[from..] {
        assert candles[from..][k - from] == c;
      }
    }
  }

  /** A later look, at more candles and a later cutoff, sees at least as much filled. */
  lemma FillsOnlyGrow(gap: Gap, candles: seq<Candle>, longer: seq<Candle>, from: nat, a: Option<real>, b: Option<real>)
    requires Proper(gap) && candles <= longer && (b.Some? ==> a.Some? && a.value <= b.value)
    ensures ClosedForm(gap, Later(candles, from, a)) <= ClosedForm(gap, Later(longer, from, b))
  {
    forall c | c in Later(candles, from, a) ensures c in Later(longer, from, b) {
      InVisible(candles[from..], a, c);
      assert c in longer[from..] by {
        var i :| 0 <= i < |candles[from..]| && candles[from..][i] == c;
        assert longer[from..][i] == c;
      }
      InVisible(longer[from..], b, c);
    }
    FillGrows(gap, Later(candles, from, a), Later(longer, from, b));
  }

  lemma {:induction false} InVisible(candles: seq<Candle>, asOf: Option<real>, c: Candle)
    ensures c in Visible(candles, asOf, None) <==> c in candles && Shown(c, asOf, None)
  {
    if candles != [] {
      InVisible(candles[..|candles| - 1], asOf, c);
      assert candles == candles[..|candles| - 1] + [candles[|candles| - 1]];
    }
  }

  // ---------------------------------------------------------------- indices

  lemma {:induction false} VisibleIsShorter(candles: seq<Candle>, asOf: Option<real>, symbol: Option<string>)
    ensures |Visible(candles, asOf, symbol)| <= |candles|
    ensures |Visible(candles, asOf, symbol)| == |candles| <==> forall c | c in candles :: Shown(c, asOf, symbol)
    ensures |Visible(candles, asOf, symbol)| == |candles| ==> Visible(candles, asOf, symbol) == candles
  {
    if candles != [] {
      VisibleIsShorter(candles[..|candles| - 1], asOf, symbol);
      assert candles == candles[..|candles| - 1] + [candles[|candles| - 1]];
      assert candles[|candles| - 1] in candles;
    }
  }

  /** Every candle that the scan reads is one that detection shows. */
  ghost predicate SymbolHidesNothing(candles: seq<Candle>, asOf: Option<real>, symbol: Option<string>) {
    forall c | c in candles && Shown(c, asOf, None) :: Shown(c, asOf, symbol)
  }

  lemma {:induction false} SymbolShowsLess(candles: seq<Candle>, asOf: Option<real>, symbol: Option<string>)
    ensures |Visible(candles, asOf, symbol)| <= |Visible(candles, asOf, None)|
    ensures |Visible(candles, asOf, symbol)| == |Visible(candles, asOf, None)| <==>
            SymbolHidesNothing(candles, asOf, symbol)
    ensures SymbolHidesNothing(candles, asOf, symbol) ==> Visible(candles, asOf, symbol) == Visible(candles, asOf, None)
  {
    if candles != [] {
      SymbolShowsLess(candles[..|candles| - 1], asOf, symbol);
      assert candles == candles[..|candles| - 1] + [candles[|candles| - 1]];
      assert candles[|candles| - 1] in candles;
    }
  }

  /**
   A gap's index counts the candles that detection shows, the scan counts all candles and does not
   look at symbols: it reads exactly the shown candles behind the gap when, and only when, no
   hidden candle stands up to where it starts and none from there on is hidden by its symbol.
   */
  lemma ScanStartsBehindTheGap(candles: seq<Candle>, asOf: Option<real>, symbol: Option<string>, from: nat)
    requires from <= |Visible(candles, asOf, symbol)|
    ensures from <= |candles|
    ensures Later(candles, from, asOf) == Visible(candles, asOf, symbol)[from..]
       <==>
         && (forall c | c in candles[..from] :: Shown(c, asOf, symbol))
         && SymbolHidesNothing(candles[from..], asOf, symbol)
  {
    hide Visible, Shown, SymbolHidesNothing;
    VisibleIsShorter(candles, asOf, symbol);
    VisibleIsShorter(candles[..from], asOf, symbol);
    assert candles == candles[..from] + candles[from..];
    VisibleOfConcat(candles[..from], candles[from..], asOf, symbol);
    SymbolShowsLess(candles[from..], asOf, symbol);
    if from == |candles| {
      assert candles[from..] == [];
      NothingShown([], asOf, None);
    }
  }

  /** analyze() filters once and hands the same list to both, so its scan starts behind every gap. */
  lemma AnalyzeScansBehindTheGap(candles: seq<Candle>, asOf: Option<real>, symbol: Option<string>, minPct: real)
    ensures var shown := Visible(candles, asOf, symbol);
      && Visible(shown, None, symbol) == shown
      && forall gap | gap in Detected(Visible(shown, None, symbol), minPct, symbol) ::
           gap.index + 2 <= |shown| && Later(shown, gap.index + 2, None) == shown[gap.index + 2..]
  {
    var shown := Visible(candles, asOf, symbol);
    ShownStays(candles, asOf, symbol);
    hide Visible, Shown, SymbolHidesNothing, Later, At, Below;
    forall gap | gap in Detected(shown, minPct, symbol)
      ensures gap.index + 2 <= |shown| && Later(shown, gap.index + 2, None) == shown[gap.index + 2..]
    {
      DetectedInside(shown, |shown| - 1, minPct, symbol, gap);
      ScanOfShown(shown, gap.index + 2, symbol);
    }
  }

  lemma ShownStays(candles: seq<Candle>, asOf: Option<real>, symbol: Option<string>)
    ensures var shown := Visible(candles, asOf, symbol);
      Visible(shown, None, symbol) == shown && forall c | c in shown :: Shown(c, None, symbol)
  {
    var shown := Visible(candles, asOf, symbol);
    forall c | c in shown ensures Shown(c, None, symbol) { ShownIsShown(candles, asOf, symbol, c); }
    hide Visible, Shown;
    VisibleIsShorter(shown, None, symbol);
  }

  lemma ScanOfShown(shown: seq<Candle>, from: nat, symbol: Option<string>)
    requires from <= |shown| && Visible(shown, None, symbol) == shown && forall c | c in shown :: Shown(c, None, symbol)
    ensures Later(shown, from, None) == shown[from..]
  {
    hide Visible, Later;
    assert SymbolHidesNothing(shown[from..], None, symbol);
    ScanStartsBehindTheGap(shown, None, symbol, from);
  }

  lemma {:induction false} ShownIsShown(candles: seq<Candle>, asOf: Option<real>, symbol: Option<string>, c: Candle)
    requires c in Visible(candles, asOf, symbol)
    ensures Shown(c, asOf, symbol)
  {
    var before, last := candles[..|candles| - 1], candles[|candles| - 1];
    if c in Visible(before, asOf, symbol) { ShownIsShown(before, asOf, symbol, c); }
  }

  lemma {:induction false} DetectedInside(c: seq<Candle>, m: nat, minPct: real, symbol: Option<string>, gap: Gap)
    requires m < |c| && gap in Below(c, m, minPct, symbol)
    ensures 1 <= gap.index < m
  {
    if m > 1 && gap in Below(c, m - 1, minPct, symbol) { DetectedInside(c, m - 1, minPct, symbol, gap); }
  }

  lemma OneGap(left: Candle, middle: Candle, right: Candle, minPct: real)
    requires left.high < right.low
             && Notable(Gap(Bullish, left.high, right.low, 1, right.time, right.symbol, 0.0, false), minPct)
    ensures Detected([left, middle, right], minPct, None) ==
              [Gap(Bullish, left.high, right.low, 1, right.time, right.symbol, 0.0, false)]
  {
    var c := [left, middle, right];
    assert At(c, 1, minPct, None) == [Gap(Bullish, left.high, right.low, 1, right.time, right.symbol, 0.0, false)];
    assert Below(c, 1, minPct, None) == [];
  }

  lemma ScanOf(candles: seq<Candle>, from: nat, asOf: Option<real>)
    ensures Later(candles, from, asOf) == if from >= |candles| then [] else Visible(candles[from..], asOf, None)
  {}

  /**
   With two unconfirmed candles in front, a fresh gap counts as filled by the middle candle of the three that made
   it.
   */
  lemma HiddenCandlesFillAGap(h0: Candle, h1: Candle, left: Candle, middle: Candle, right: Candle, minPct: real)
    requires !h0.confirmed && !h1.confirmed && left.confirmed && middle.confirmed && right.confirmed
    requires left.high < right.low && middle.low <= left.high
    requires Notable(Gap(Bullish, left.high, right.low, 1, right.time, right.symbol, 0.0, false), minPct)
    ensures var raw, c := [h0, h1, left, middle, right], [left, middle, right];
            var gap := Gap(Bullish, left.high, right.low, 1, right.time, right.symbol, 0.0, false);
            && Visible(raw, None, None) == c && Detected(c, minPct, None) == [gap]
            && ClosedForm(gap, Later(raw, gap.index + 2, None)) >= 1.0 && Later(c, gap.index + 2, None) == []
  {
    var raw, c := [h0, h1, left, middle, right], [left, middle, right];
    var gap := Gap(Bullish, left.high, right.low, 1, right.time, right.symbol, 0.0, false);
    hide Visible, ClosedForm, Detected, Later, Notable;
    OneGap(left, middle, right, minPct);
    RawScan(h0, h1, left, middle, right);
    FilledExactly(gap, [middle, right]);
  }

  lemma RawScan(h0: Candle, h1: Candle, left: Candle, middle: Candle, right: Candle)
    requires !h0.confirmed && !h1.confirmed && left.confirmed && middle.confirmed && right.confirmed
    ensures var raw, c := [h0, h1, left, middle, right], [left, middle, right];
      && Visible(raw, None, None) == c && Later(raw, 3, None) == [middle, right] && Later(c, 3, None) == []
  {
    var raw, c := [h0, h1, left, middle, right], [left, middle, right];
    hide Visible, Later;
    ScanOf(raw, 3, None);
    ScanOf(c, 3, None);
    assert raw == [h0, h1] + c && raw[3..] == [middle, right];
    VisibleOfConcat([h0, h1], c, None, None);
    NothingShown([h0, h1], None, None);
    VisibleIsShorter(c, None, None);
    VisibleIsShorter([middle, right], None, None);
  }

  // ---------------------------------------------------------------- the engine

  class FairValueGapEngine {
    const minPct: real

    constructor (minPct: real)
      requires minPct >= 0.0
      ensures this.minPct == minPct
    {
      this.minPct := minPct;
    }

    method DetectFvgs(candles: seq<Candle>, asOf: Option<real>, symbol: Option<string>) returns (gaps: seq<Gap>)
      ensures gaps == Detected(Visible(candles, asOf, symbol), minPct, symbol)
    {
      var c := VisibleCandles(candles, asOf, symbol);
      gaps := [];
      if |c| < 3 {
        return;
      }
      for i := 1 to |c| - 1
        invariant gaps == Below(c, i, minPct, symbol)
      {
        var left, right := c[i - 1], c[i + 1];
        var named := if symbol.Some? then symbol else right.symbol;
        if left.high < right.low {
          var size := right.low - left.high;
          if size / Max(Abs(left.high), TINY) >= minPct {
            gaps := gaps + [Gap(Bullish, left.high, right.low, i, right.time, named, 0.0, false)];
          }
        } else if left.low > right.high {
          var size := left.low - right.high;
          if size / Max(Abs(right.high), TINY) >= minPct {
            gaps := gaps + [Gap(Bearish, right.high, left.low, i, right.time, named, 0.0, false)];
          }
        }
      }
    }

    /** One pass over the candles behind each gap, stopping at the first that closes it. */
    method UpdateFvgFills(candles: seq<Candle>, gaps: seq<Gap>, asOf: Option<real>) returns (updated: seq<Gap>)
      requires forall gap | gap in gaps :: Proper(gap)
      ensures |updated| == |gaps|
      ensures forall k | 0 <= k < |gaps| ::
                var fill := ClosedForm(gaps[k], Later(candles, gaps[k].index + 2, asOf));
                updated[k] == gaps[k].(fill := fill, filled := fill >= 1.0)
    {
      updated := [];
      for k := 0 to |gaps|
        invariant |updated| == k
        invariant forall n | 0 <= n < k ::
                    var fill := ClosedForm(gaps[n], Later(candles, gaps[n].index + 2, asOf));
                    updated[n] == gaps[n].(fill := fill, filled := fill >= 1.0)
      {
        var fill := Scan(gaps[k], candles, asOf);
        updated := updated + [gaps[k].(fill := fill, filled := fill >= 1.0)];
      }
    }

    method Scan(gap: Gap, candles: seq<Candle>, asOf: Option<real>) returns (fill: real)
      requires Proper(gap)
      ensures fill == ClosedForm(gap, Later(candles, gap.index + 2, asOf))
    {
      fill := 0.0;
      var from := gap.index + 2;
      if from >= |candles| {
        return;
      }
      ghost var tail := candles[from..];
      for i := from to |candles|
        invariant fill == ClosedForm(gap, Visible(tail[..i - from], asOf, None)) < 1.0
      {
        var c := candles[i];
        assert tail[i - from] == c && tail[..i - from + 1][..i - from] == tail[..i - from];
        ghost var seen := Visible(tail[..i - from], asOf, None);
        if !c.confirmed || (asOf.Some? && c.time.Some? && c.time.value > asOf.value) {
          continue;
        }
        assert Visible(tail[..i - from + 1], asOf, None) == seen + [c];
        OneMore(gap, seen, c);
        if gap.direction.Bullish? {
          if c.low <= gap.lower {
            ClosedForGood(gap, tail, i - from, asOf);
            return 1.0;
          }
          if c.low < gap.upper {
            fill := Max(fill, Min(1.0, (gap.upper - c.low) / Size(gap)));
          }
        } else {
          if c.high >= gap.upper {
            ClosedForGood(gap, tail, i - from, asOf);
            return 1.0;
          }
          if c.high > gap.lower {
            fill := Max(fill, Min(1.0, (c.high - gap.lower) / Size(gap)));
          }
        }
      }
      assert tail[..|tail|] == tail;
    }
  }

  /** What one more candle does to the closed form. */
  lemma OneMore(gap: Gap, seen: seq<Candle>, c: Candle)
    requires Proper(gap)
    ensures ClosedForm(gap, seen + [c]) == Max(ClosedForm(gap, seen), Clamp(Depth(gap, c) / Size(gap)))
    ensures Depth(gap, c) < Size(gap) ==> Depth(gap, c) / Size(gap) < 1.0
    ensures Depth(gap, c) <= 0.0 ==> Depth(gap, c) / Size(gap) <= 0.0
    ensures Depth(gap, c) > 0.0 ==> Depth(gap, c) / Size(gap) > 0.0
  {
    DivideSign(Depth(gap, c), Size(gap));
    assert (seen + [c])[..|seen|] == seen;
    if seen != [] {
      var before, depth := Deepest(gap, seen), Depth(gap, c);
      if before <= depth { DivideMonotone(before, depth, Size(gap)); }
      else { DivideMonotone(depth, before, Size(gap)); }
    }
  }

  /** Once a candle has closed the gap, the rest of the scan could not change the answer. */
  lemma ClosedForGood(gap: Gap, tail: seq<Candle>, k: nat, asOf: Option<real>)
    requires Proper(gap) && k < |tail| && Shown(tail[k], asOf, None) && Depth(gap, tail[k]) >= Size(gap)
    ensures ClosedForm(gap, Visible(tail, asOf, None)) == 1.0
  {
    InVisible(tail, asOf, tail[k]);
    FilledExactly(gap, Visible(tail, asOf, None));
  }
}
