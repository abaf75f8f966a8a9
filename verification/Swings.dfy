/** MarketStructureEngine.detect_swings: confirmed swings never repaint and are spaced out. */
module Swings {
  import opened Optional
  import opened CandleView

  datatype Kind = High | Low
  datatype Swing = Swing(index: nat, price: real, kind: Kind)

  /** Strictly above the s candles before, at least as high as the s candles after. */
  ghost predicate IsHigh(c: seq<Candle>, s: nat, i: int) {
    && s <= i && i + s < |c|
    && (forall j | i - s <= j < i :: c[j].high < c[i].high)
    && (forall j | i < j <= i + s :: c[j].high <= c[i].high)
  }

  ghost predicate IsLow(c: seq<Candle>, s: nat, i: int) {
    && s <= i && i + s < |c|
    && (forall j | i - s <= j < i :: c[j].low > c[i].low)
    && (forall j | i < j <= i + s :: c[j].low >= c[i].low)
  }

  ghost function At(c: seq<Candle>, s: nat, i: nat): seq<Swing> {
    (if IsHigh(c, s, i) then [Swing(i, c[i].high, High)] else []) +
    (if IsLow(c, s, i) then [Swing(i, c[i].low, Low)] else [])
  }

  /** The swings at indices below m, in index order, HIGH before LOW. */
  ghost function Below(c: seq<Candle>, s: nat, m: nat): seq<Swing> {
    if m == 0 then [] else Below(c, s, m - 1) + At(c, s, m - 1)
  }

  ghost function Detected(c: seq<Candle>, s: nat): seq<Swing> { Below(c, s, |c|) }

  ghost predicate IsSwing(c: seq<Candle>, s: nat, swing: Swing) {
    if swing.kind.High? then IsHigh(c, s, swing.index) && swing.price == c[swing.index].high
    else IsLow(c, s, swing.index) && swing.price == c[swing.index].low
  }

  /** Exactly the swings, no more and no fewer. */
  lemma {:induction false} ExactlyTheSwings(c: seq<Candle>, s: nat, m: nat, swing: Swing)
    ensures swing in Below(c, s, m) <==> swing.index < m && IsSwing(c, s, swing)
  {
    if m > 0 { ExactlyTheSwings(c, s, m - 1, swing); }
  }

  /**
   A swing is reported exactly at an index with `s` candles on both sides, at its high (low), when that is
   strictly above (below) those of the candles before it and not below (above) any after it.
   */
  lemma DetectedExactly(c: seq<Candle>, s: nat, swing: Swing)
    ensures swing in Detected(c, s) <==> IsSwing(c, s, swing)
    ensures swing in Detected(c, s) <==>
            && s <= swing.index && swing.index + s < |c|
            && (if swing.kind.High?
                then swing.price == c[swing.index].high
                     && (forall j | swing.index - s <= j < swing.index :: c[j].high < swing.price)
                     && (forall j | swing.index < j <= swing.index + s :: c[j].high <= swing.price)
                else swing.price == c[swing.index].low
                     && (forall j | swing.index - s <= j < swing.index :: c[j].low > swing.price)
                     && (forall j | swing.index < j <= swing.index + s :: c[j].low >= swing.price))
  {
    ExactlyTheSwings(c, s, |c|, swing);
  }

  /** More candles never change whether an index whose right side is complete is a swing. */
  lemma SettledIndex(c: seq<Candle>, longer: seq<Candle>, s: nat, i: nat)
    requires c <= longer && i + s < |c|
    ensures At(c, s, i) == At(longer, s, i)
  {
    assert IsHigh(c, s, i) <==> IsHigh(longer, s, i);
    assert IsLow(c, s, i) <==> IsLow(longer, s, i);
  }

  lemma {:induction false} SettledBelow(c: seq<Candle>, longer: seq<Candle>, s: nat, m: nat)
    requires c <= longer && m <= |c|
    ensures Below(c, s, m) == Below(longer, s, if m + s <= |c| then m else if s <= |c| then |c| - s else 0)
  {
    if m > 0 {
      SettledBelow(c, longer, s, m - 1);
      if m + s <= |c| { SettledIndex(c, longer, s, m - 1); }
    }
  }

  lemma {:induction false} BelowGrows(c: seq<Candle>, s: nat, m: nat, n: nat)
    requires m <= n
    ensures Below(c, s, m) <= Below(c, s, n)
  {
    if m < n { BelowGrows(c, s, m, n - 1); }
  }

  lemma SettledSwing(c: seq<Candle>, longer: seq<Candle>, s: nat, swing: Swing)
    requires c <= longer && swing.index + s < |c|
    ensures IsSwing(c, s, swing) <==> IsSwing(longer, s, swing)
  {}

  /** Appending candles keeps every swing found so far, in place, and adds only swings settled since. */
  lemma SwingsNeverRepaint(c: seq<Candle>, longer: seq<Candle>, s: nat)
    requires c <= longer
    ensures Detected(c, s) <= Detected(longer, s)
    ensures forall swing :: swing in Detected(c, s) <==> swing in Detected(longer, s) && swing.index + s < |c|
  {
    hide At, Below, IsSwing;
    SettledBelow(c, longer, s, |c|);
    BelowGrows(longer, s, if s <= |c| then |c| - s else 0, |longer|);
    forall swing ensures swing in Detected(c, s) <==> swing in Detected(longer, s) && swing.index + s < |c| {
      DetectedExactly(c, s, swing);
      DetectedExactly(longer, s, swing);
      if swing.index + s < |c| { SettledSwing(c, longer, s, swing); } else { Unsettled(c, s, swing); }
    }
  }

  lemma Unsettled(c: seq<Candle>, s: nat, swing: Swing)
    requires swing.index + s >= |c|
    ensures !IsSwing(c, s, swing)
  {}

  /** On time-ordered candles the swings at an earlier cutoff are a prefix of those at a later one, or at none. */
  lemma CutoffShowsPrefix(candles: seq<Candle>, a: real, later: Option<real>, symbol: Option<string>, s: nat)
    requires TimeOrdered(candles) && (later.Some? ==> a <= later.value)
    ensures Detected(Visible(candles, Some(a), symbol), s) <= Detected(Visible(candles, later, symbol), s)
  {
    EarlierCutoffShowsPrefix(candles, a, later, symbol);
    SwingsNeverRepaint(Visible(candles, Some(a), symbol), Visible(candles, later, symbol), s);
  }

  /** Two different swings of one kind are more than s candles apart. */
  lemma SwingsAreSpaced(c: seq<Candle>, s: nat, first: Swing, second: Swing)
    requires first in Detected(c, s) && second in Detected(c, s)
    requires first.kind == second.kind && first != second
    ensures first.index + s < second.index || second.index + s < first.index
  {
    DetectedExactly(c, s, first);
    DetectedExactly(c, s, second);
  }

  class MarketStructureEngine {
    const strength: nat

    constructor (strength: nat)
      requires strength >= 1
      ensures this.strength == strength
    {
      this.strength := strength;
    }

    method DetectSwings(candles: seq<Candle>, asOf: Option<real>, symbol: Option<string>) returns (swings: seq<Swing>)
      requires strength >= 1
      ensures swings == Detected(Visible(candles, asOf, symbol), strength)
    {
      var c := VisibleCandles(candles, asOf, symbol);
      var s, n := strength, |c|;
      if n < 2 * s + 1 {
        NoRoom(c, s, n);
        return [];
      }
      swings := [];
      NoRoom(c, s, s);
      for i := s to n - s
        invariant swings == Below(c, s, i)
      {
        var found := SwingsAt(c, i);
        swings := swings + found;
      }
      NoRoomAbove(c, s, n);
      // the swings are in index order already, so the final stable sort keeps them
    }

    method SwingsAt(c: seq<Candle>, i: nat) returns (found: seq<Swing>)
      requires 1 <= strength <= i && i + strength < |c|
      ensures found == At(c, strength, i)
    {
      hide IsHigh, IsLow;
      var s := strength;
      var leftHigh, leftLow := HighAndLow(c[i - s..i]);
      var rightHigh, rightLow := HighAndLow(c[i + 1..i + s + 1]);
      WindowHigh(c, s, i, leftHigh, rightHigh);
      WindowLow(c, s, i, leftLow, rightLow);
      found := [];
      if c[i].high > leftHigh && c[i].high >= rightHigh {
        found := found + [Swing(i, c[i].high, High)];
      }
      if c[i].low < leftLow && c[i].low <= rightLow {
        found := found + [Swing(i, c[i].low, Low)];
      }
    }
  }

  ghost predicate Top(window: seq<Candle>, high: real) {
    (forall c | c in window :: c.high <= high) && (exists c :: c in window && c.high == high)
  }

  ghost predicate Bottom(window: seq<Candle>, low: real) {
    (forall c | c in window :: c.low >= low) && (exists c :: c in window && c.low == low)
  }

  method HighAndLow(window: seq<Candle>) returns (high: real, low: real)
    requires window != []
    ensures Top(window, high) && Bottom(window, low)
  {
    high, low := window[0].high, window[0].low;
    for i := 1 to |window|
      invariant Top(window[..i], high) && Bottom(window[..i], low)
    {
      assert window[..i + 1] == window[..i] + [window[i]];
      assert window[i] in window[..i + 1];
      if window[i].high > high { high := window[i].high; }
      if window[i].low < low { low := window[i].low; }
    }
    assert window[..|window|] == window;
  }

  lemma WindowHigh(c: seq<Candle>, s: nat, i: nat, left: real, right: real)
    requires 1 <= s <= i && i + s < |c| && Top(c[i - s..i], left) && Top(c[i + 1..i + s + 1], right)
    ensures IsHigh(c, s, i) <==> c[i].high > left && c[i].high >= right
  {
    var l, r := c[i - s..i], c[i + 1..i + s + 1];
    assert forall j | i - s <= j < i :: c[j] == l[j - (i - s)];
    assert forall j | i < j <= i + s :: c[j] == r[j - (i + 1)];
  }

  lemma WindowLow(c: seq<Candle>, s: nat, i: nat, left: real, right: real)
    requires 1 <= s <= i && i + s < |c| && Bottom(c[i - s..i], left) && Bottom(c[i + 1..i + s + 1], right)
    ensures IsLow(c, s, i) <==> c[i].low < left && c[i].low <= right
  {
    var l, r := c[i - s..i], c[i + 1..i + s + 1];
    assert forall j | i - s <= j < i :: c[j] == l[j - (i - s)];
    assert forall j | i < j <= i + s :: c[j] == r[j - (i + 1)];
  }

  lemma {:induction false} NoRoom(c: seq<Candle>, s: nat, m: nat)
    requires m <= s || |c| < 2 * s + 1
    ensures Below(c, s, m) == []
  {
    if m > 0 { NoRoom(c, s, m - 1); }
  }

  lemma {:induction false} NoRoomAbove(c: seq<Candle>, s: nat, m: nat)
    requires s <= |c| && |c| - s <= m <= |c|
    ensures Below(c, s, m) == Below(c, s, |c| - s)
  {
    if m > |c| - s { NoRoomAbove(c, s, m - 1); }
  }
}
