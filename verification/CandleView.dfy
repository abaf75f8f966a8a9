/** The candles that the structure and gap engines look at. */
module CandleView {
  import opened Optional

  datatype Candle = Candle(time: Option<real>, confirmed: bool, symbol: Option<string>, high: real, low: real)

  predicate Shown(c: Candle, asOf: Option<real>, symbol: Option<string>) {
    && c.confirmed
    && (symbol.Some? && c.symbol.Some? ==> c.symbol == symbol)
    && (asOf.Some? && c.time.Some? ==> c.time.value <= asOf.value)
  }

  function Visible(candles: seq<Candle>, asOf: Option<real>, symbol: Option<string>): seq<Candle> {
    if candles == [] then []
    else
      var before, last := Visible(candles[..|candles| - 1], asOf, symbol), candles[|candles| - 1];
      if Shown(last, asOf, symbol) then before + [last] else before
  }

  lemma {:induction false} VisibleOfConcat(a: seq<Candle>, b: seq<Candle>, asOf: Option<real>, symbol: Option<string>)
    ensures Visible(a + b, asOf, symbol) == Visible(a, asOf, symbol) + Visible(b, asOf, symbol)
  {
    if b == [] {
      assert a + b == a;
    } else {
      VisibleOfConcat(a, b[..|b| - 1], asOf, symbol);
      assert (a + b)[..|a + b| - 1] == a + b[..|b| - 1];
    }
  }

  /**
   A candle is shown as often as it is given when it is confirmed, not later than the cutoff and not of
   another symbol, and otherwise not at all. With `VisibleOfConcat` this fixes the view, order included.
   */
  lemma {:induction false} VisibleExactly(candles: seq<Candle>, asOf: Option<real>, symbol: Option<string>, c: Candle)
    ensures multiset(Visible(candles, asOf, symbol))[c] ==
              if c.confirmed && (asOf.None? || c.time.None? || c.time.value <= asOf.value)
                 && (symbol.None? || c.symbol.None? || c.symbol.value == symbol.value)
              then multiset(candles)[c] else 0
  {
    if candles != [] {
      var before, last := candles[..|candles| - 1], candles[|candles| - 1];
      VisibleExactly(before, asOf, symbol, c);
      assert candles == before + [last];
    }
  }

  ghost predicate TimeOrdered(candles: seq<Candle>) {
    && (forall c | c in candles :: c.time.Some?)
    && (forall i, j | 0 <= i < j < |candles| :: candles[i].time.value <= candles[j].time.value)
  }

  lemma {:induction false} NothingShown(candles: seq<Candle>, asOf: Option<real>, symbol: Option<string>)
    requires forall c | c in candles :: !Shown(c, asOf, symbol)
    ensures Visible(candles, asOf, symbol) == []
  {
    if candles != [] {
      assert candles[|candles| - 1] in candles;
      NothingShown(candles[..|candles| - 1], asOf, symbol);
    }
  }

  /** On time-ordered candles an earlier cutoff shows a prefix of what a later cutoff, or none, shows. */
  lemma {:induction false} EarlierCutoffShowsPrefix(candles: seq<Candle>, a: real, later: Option<real>,
                                                    symbol: Option<string>)
    requires TimeOrdered(candles) && (later.Some? ==> a <= later.value)
    ensures Visible(candles, Some(a), symbol) <= Visible(candles, later, symbol)
  {
    if candles != [] {
      var before, last := candles[..|candles| - 1], candles[|candles| - 1];
      assert last in candles;
      forall c | c in before ensures c.time.Some? { assert c in candles; }
      EarlierCutoffShowsPrefix(before, a, later, symbol);
      if Shown(last, Some(a), symbol) {
        // everything before is within the cutoff too, so the two views agree up to here
        SameBefore(before, a, later, symbol, last.time.value);
      }
    }
  }

  lemma {:induction false} SameBefore(candles: seq<Candle>, a: real, later: Option<real>, symbol: Option<string>,
                                      bound: real)
    requires (later.Some? ==> a <= later.value) && bound <= a
    requires forall c | c in candles :: c.time.Some? && c.time.value <= bound
    ensures Visible(candles, Some(a), symbol) == Visible(candles, later, symbol)
  {
    if candles != [] {
      assert candles[|candles| - 1] in candles;
      SameBefore(candles[..|candles| - 1], a, later, symbol, bound);
    }
  }

  method VisibleCandles(candles: seq<Candle>, asOf: Option<real>, symbol: Option<string>) returns (visible: seq<Candle>)
    ensures visible == Visible(candles, asOf, symbol)
  {
    visible := [];
    for i := 0 to |candles|
      invariant visible == Visible(candles[..i], asOf, symbol)
    {
      assert candles[..i + 1][..i] == candles[..i];
      var c := candles[i];
      if c.confirmed && (symbol.None? || c.symbol.None? || c.symbol == symbol)
         && (asOf.None? || c.time.None? || c.time.value <= asOf.value) {
        visible := visible + [c];
      }
    }
    assert candles[..|candles|] == candles;
  }
}
