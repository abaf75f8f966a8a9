/** The calculator object: visible candles, bins, and the greedy loop. */
module ValueAreaCalculator {
  import opened Optional
  import opened Extremes
  import opened Sums
  import opened VolumeProfile

  /** `Raised` is the ValueError of a negative volume; levels are bin indices. */
  datatype Outcome = Raised | Incomplete | Malformed | Profile(poc: int, vah: int, val: int, hvn: int, lvn: int)

  datatype Trouble = Fine | Broken | Negative

  /** The first candle that stops the calculation, in time order. */
  function Check(visible: seq<Candle>): Trouble {
    if visible == [] then Fine
    else
      var before, last := Check(visible[..|visible| - 1]), visible[|visible| - 1];
      if !before.Fine? then before
      else if last.bar.None? then Broken
      else if last.bar.value.volume < 0.0 then Negative
      else Fine
  }

  lemma {:induction false} FineIsWellFormed(visible: seq<Candle>)
    ensures Check(visible).Fine? <==> WellFormed(visible)
  {
    if visible != [] {
      FineIsWellFormed(visible[..|visible| - 1]);
      assert visible[|visible| - 1] in visible;
      assert visible == visible[..|visible| - 1] + [visible[|visible| - 1]];
    }
  }

  /** Candle k stops the calculation: it is malformed or of negative volume, and none before it is. */
  ghost predicate Stops(visible: seq<Candle>, k: nat) {
    && k < |visible| && (visible[k].bar.None? || visible[k].bar.value.volume < 0.0)
    && forall j | 0 <= j < k :: visible[j].bar.Some? && visible[j].bar.value.volume >= 0.0
  }

  lemma StopsOfMore(visible: seq<Candle>)
    requires visible != []
    ensures var n: nat := |visible| - 1;
      && (forall k: nat | k < n :: visible[..n][k] == visible[k] && (Stops(visible[..n], k) <==> Stops(visible, k)))
      && (Check(visible[..n]) == Fine ==>
            (Stops(visible, n) <==> visible[n].bar.None? || visible[n].bar.value.volume < 0.0))
      && (Check(visible[..n]) != Fine ==> !Stops(visible, n))
  {
    var n: nat := |visible| - 1;
    FineIsWellFormed(visible[..n]);
    hide Check;
    assert forall k: nat | k < n :: visible[..n][k] == visible[k];
    if Check(visible[..n]) == Fine { assert forall k: nat | k < n :: visible[..n][k] in visible[..n]; }
  }

  lemma StopsInside(visible: seq<Candle>)
    ensures forall k: nat | Stops(visible, k) :: k < |visible|
  {}

  /** The first bad candle decides: malformed data, or the error of a negative volume. */
  lemma {:induction false} CheckExactly(visible: seq<Candle>)
    ensures Check(visible) == Broken <==> exists k: nat :: Stops(visible, k) && visible[k].bar.None?
    ensures Check(visible) == Negative <==> exists k: nat :: Stops(visible, k) && visible[k].bar.Some?
    ensures Check(visible) == Fine <==> forall c | c in visible :: c.bar.Some? && c.bar.value.volume >= 0.0
  {
    FineIsWellFormed(visible);
    StopsInside(visible);
    hide Stops;
    if visible != [] {
      CheckExactly(visible[..|visible| - 1]);
      StopsInside(visible[..|visible| - 1]);
      StopsOfMore(visible);
    }
  }

  /** The lowest of the heaviest bins. */
  ghost predicate IsPoc(bins: Bins, poc: int) {
    poc in bins && forall b | b in bins :: bins[b] < bins[poc] || (bins[b] == bins[poc] && b >= poc)
  }

  /** The lowest of the lightest bins. */
  ghost predicate IsLightest(bins: Bins, low: int) {
    low in bins && forall b | b in bins :: bins[b] > bins[low] || (bins[b] == bins[low] && b >= low)
  }

  predicate ValidConfig(lookback: int, binSize: real, pct: real) { lookback >= 1 && binSize > 0.0 && 0.0 < pct <= 1.0 }

  lemma NothingToBin(size: real, pct: real)
    requires size > 0.0
    ensures Check([]).Fine? && WellFormed([]) && Answers(Binned([], size), pct, Incomplete)
  {}

  class VolumeProfileCalculator {
    const lookback: nat
    const binSize: real
    const pct: real

    predicate Valid() { ValidConfig(lookback, binSize, pct) }

    constructor (lookback: nat, binSize: real, pct: real)
      requires ValidConfig(lookback, binSize, pct)
      ensures Valid() && this.lookback == lookback && this.binSize == binSize && this.pct == pct
    {
      this.lookback, this.binSize, this.pct := lookback, binSize, pct;
    }

    method Calculate(candles: seq<Candle>, asOf: Option<real>) returns (r: Outcome)
      requires Valid()
      ensures var visible := Recent(Visible(candles, asOf), lookback);
              match Check(visible)
              case Negative => r == Raised
              case Broken => r == Malformed
              case Fine => WellFormed(visible) && Answers(Binned(visible, binSize), pct, r)
    {
      hide Visible, Recent, Check, WellFormed, Binned, Answers;
      var visible := VisibleConfirmed(candles, asOf);
      visible := Recent(visible, lookback);
      if visible == [] {
        NothingToBin(binSize, pct);
        return Incomplete;
      }
      var trouble, bins := FillBins(visible, binSize);
      if trouble == Broken {
        return Malformed;
      }
      if trouble == Negative {
        return Raised;
      }
      r := Summarise(bins, pct);
    }
  }

  function Target(total: real, pct: real): real { total * pct }

  /** What calculate() says about the bins: nothing without volume, else the levels. */
  ghost predicate Answers(bins: Bins, pct: real, r: Outcome) {
    if Total(bins) <= 0.0 then r == Incomplete
    else
      && r.Profile? && IsPoc(bins, r.poc) && r.hvn == r.poc && IsLightest(bins, r.lvn)
      && (r.val, r.vah) == ValueArea(bins, r.poc, Target(Total(bins), pct))
  }

  method Summarise(bins: Bins, pct: real) returns (r: Outcome)
    ensures Answers(bins, pct, r)
  {
    hide ValueArea, IsPoc, IsLightest, Target;
    var total := SumOfValues(bins);
    if bins == map[] || total <= 0.0 {
      assert bins == map[] ==> total == 0.0;
      return Incomplete;
    }
    var poc := HeaviestBin(bins);
    assert poc in bins by { PocIsABin(bins, poc); }
    var val, vah := GrowArea(bins, poc, Target(total, pct));
    var hvn := HeaviestBin(bins);
    PocIsUnique(bins, poc, hvn);
    var lvn := LightestBin(bins);
    return Profile(poc, vah, val, hvn, lvn);
  }

  lemma PocIsABin(bins: Bins, poc: int)
    requires IsPoc(bins, poc)
    ensures poc in bins
  {}

  lemma PocIsUnique(bins: Bins, poc: int, other: int)
    requires IsPoc(bins, poc) && IsPoc(bins, other)
    ensures poc == other
  {
    assert poc in bins && other in bins;
  }

  lemma NothingLatest(asOf: Option<real>)
    ensures Latest([], asOf) == map[]
  {}

  lemma OneMoreCandle(candles: seq<Candle>, c: Candle, asOf: Option<real>)
    ensures Latest(candles + [c], asOf) ==
            if c.time.Some? && (asOf.None? || c.time.value <= asOf.value) && c.confirmed
            then Latest(candles, asOf)[c.time.value := c] else Latest(candles, asOf)
  {
    assert (candles + [c])[..|candles|] == candles;
  }

  method VisibleConfirmed(candles: seq<Candle>, asOf: Option<real>) returns (visible: seq<Candle>)
    ensures visible == Visible(candles, asOf)
  {
    hide Latest;
    NothingLatest(asOf);
    var byTime: map<real, Candle> := map[];
    for i := 0 to |candles|
      invariant byTime == Latest(candles[..i], asOf)
    {
      OneMoreCandle(candles[..i], candles[i], asOf);
      assert candles[..i + 1] == candles[..i] + [candles[i]];
      if candles[i].time.Some? && (asOf.None? || candles[i].time.value <= asOf.value) && candles[i].confirmed {
        byTime := byTime[candles[i].time.value := candles[i]];
      }
    }
    assert candles[..|candles|] == candles;
    visible := [];
    var rest := byTime;
    while rest != map[]
      invariant visible + Ordered(rest) == Ordered(byTime)
      decreases |rest|
    {
      var first := MinKey(rest);
      assert first in rest && (rest - {first}).Keys == rest.Keys - {first};
      visible := visible + [rest[first]];
      rest := rest - {first};
    }
  }

  method FillBins(visible: seq<Candle>, size: real) returns (trouble: Trouble, bins: Bins)
    requires size > 0.0
    ensures trouble == Check(visible)
    ensures trouble.Fine? ==> WellFormed(visible) && bins == Binned(visible, size)
  {
    bins := map[];
    for i := 0 to |visible|
      invariant Check(visible[..i]).Fine? && WellFormed(visible[..i]) && bins == Binned(visible[..i], size)
    {
      assert visible[..i + 1][..i] == visible[..i] && visible[..i + 1][i] == visible[i];
      FineIsWellFormed(visible[..i + 1]);
      if visible[i].bar.None? {
        FirstTrouble(visible, i + 1);
        return Broken, bins;
      }
      var bar := visible[i].bar.value;
      if bar.volume < 0.0 {
        FirstTrouble(visible, i + 1);
        return Negative, bins;
      }
      var b := BinOf(bar, size);
      bins := bins[b := (if b in bins then bins[b] else 0.0) + bar.volume];
    }
    assert visible[..|visible|] == visible;
    return Fine, bins;
  }

  lemma {:induction false} FirstTrouble(visible: seq<Candle>, n: nat)
    requires n <= |visible| && !Check(visible[..n]).Fine?
    ensures Check(visible) == Check(visible[..n])
    decreases |visible|
  {
    if n < |visible| {
      assert visible[..|visible| - 1][..n] == visible[..n];
      FirstTrouble(visible[..|visible| - 1], n);
    } else {
      assert visible[..n] == visible;
    }
  }

  method SumOfValues(bins: Bins) returns (total: real)
    ensures total == Total(bins)
  {
    total := 0.0;
    var rest := bins.Keys;
    while rest != {}
      invariant rest <= bins.Keys
      invariant total + Sum(bins, rest) == Total(bins)
      decreases rest
    {
      ghost var some := Pick(rest);
      var b :| b in rest;
      SumTake(bins, rest, b);
      total := total + bins[b];
      rest := rest - {b};
    }
  }

  /** max(sorted(bins), key=(volume, -price)) */
  method HeaviestBin(bins: Bins) returns (poc: int)
    requires bins != map[]
    ensures IsPoc(bins, poc)
  {
    var rest := bins.Keys;
    ghost var some := Pick(rest);
    poc :| poc in rest;
    while rest != {}
      invariant rest <= bins.Keys && poc in bins
      invariant forall b | b in bins :: b in rest || bins[b] < bins[poc] || (bins[b] == bins[poc] && b >= poc)
      decreases rest
    {
      ghost var some := Pick(rest);
      var b :| b in rest;
      if bins[b] > bins[poc] || (bins[b] == bins[poc] && b < poc) {
        poc := b;
      }
      rest := rest - {b};
    }
  }

  /** min(sorted(bins), key=(volume, price)) */
  method LightestBin(bins: Bins) returns (low: int)
    requires bins != map[]
    ensures IsLightest(bins, low)
  {
    var rest := bins.Keys;
    ghost var some := Pick(rest);
    low :| low in rest;
    while rest != {}
      invariant rest <= bins.Keys && low in bins
      invariant forall b | b in bins :: b in rest || bins[b] > bins[low] || (bins[b] == bins[low] && b >= low)
      decreases rest
    {
      ghost var some := Pick(rest);
      var b :| b in rest;
      if bins[b] < bins[low] || (bins[b] == bins[low] && b < low) {
        low := b;
      }
      rest := rest - {b};
    }
  }

  method Bounds(bins: Bins) returns (least: int, greatest: int)
    requires bins != map[]
    ensures least in bins && greatest in bins && forall b | b in bins :: least <= b <= greatest
  {
    var rest := bins.Keys;
    ghost var some := Pick(rest);
    least :| least in rest;
    greatest := least;
    while rest != {}
      invariant rest <= bins.Keys && least in bins && greatest in bins
      invariant forall b | b in bins :: b in rest || least <= b <= greatest
      invariant least <= greatest
      decreases rest
    {
      ghost var some := Pick(rest);
      var b :| b in rest;
      least, greatest := if b < least then b else least, if b > greatest then b else greatest;
      rest := rest - {b};
    }
  }

  /** The greedy loop; `val` and `vah` are min(included) and max(included). */
  method GrowArea(bins: Bins, poc: int, target: real) returns (val: int, vah: int)
    requires poc in bins
    ensures (val, vah) == ValueArea(bins, poc, target)
  {
    var least, greatest := Bounds(bins);
    var included := {poc};
    val, vah := poc, poc;
    var covered := bins[poc];
    while covered < target && (val > least || vah < greatest)
      invariant included <= bins.Keys && included == Interval(val, vah) && Run(bins, val, vah)
      invariant ValueArea(bins, poc, target) == Grow(bins, target, val, vah, covered)
      decreases bins.Keys - included
    {
      var below, above := val - 1 in bins && val - 1 !in included, vah + 1 in bins && vah + 1 !in included;
      if !below && !above {
        break;
      }
      var selected := if below && (!above || bins[val - 1] >= bins[vah + 1]) then val - 1 else vah + 1;
      assert selected in bins.Keys - included;
      included := included + {selected};
      covered := covered + bins[selected];
      val, vah := if selected < val then selected else val, if selected > vah then selected else vah;
    }
  }

  /** What a returned value area is worth, in terms of the candles. */
  lemma ProfileMeaning(visible: seq<Candle>, size: real, pct: real, r: Outcome)
    requires size > 0.0 && 0.0 < pct <= 1.0 && WellFormed(visible)
    requires r.Profile? && Answers(Binned(visible, size), pct, r)
    ensures var bins, target := Binned(visible, size), Volume(visible) * pct;
            && r.val <= r.poc <= r.vah && Run(bins, r.val, r.vah)
            && (forall b | r.val <= b <= r.vah :: Band(visible, size, b) != {})
            && (Covered(bins, r.val, r.vah) >= target || (r.val - 1 !in bins && r.vah + 1 !in bins))
            && (GapFree(bins) ==> Covered(bins, r.val, r.vah) >= target)
            && (GapFree(bins) && SinglePeaked(bins, r.poc) ==> Smallest(bins, target, Interval(r.val, r.vah)))
            && Greedy(bins, target, r.poc, r.val, r.vah)
  {
    hide ValueArea, Sum, Binned, Volume, GapFree, SinglePeaked, Smallest, Covered, Greedy, Band;
    var bins := Binned(visible, size);
    var target := Target(Total(bins), pct);
    BinsHoldEveryVolume(visible, size);
    PocIsABin(bins, r.poc);
    TargetWithinTotal(Total(bins), pct);
    AreaOf(bins, target, r.poc);
    AreaIsGreedy(bins, target, r.poc);
    assert ValueArea(bins, r.poc, target) == (r.val, r.vah) && target == Volume(visible) * pct;
    forall b | r.val <= b <= r.vah ensures Band(visible, size, b) != {} { BinsExactly(visible, size, b); }
    if GapFree(bins) {
      GapFreeMeetsTarget(bins, target, r.poc);
      if SinglePeaked(bins, r.poc) { SinglePeakIsOptimal(bins, target, r.poc); }
    }
  }

  /**
   The levels, in terms of the candles: without volume there are none; the point of control is the lowest
   price band that holds the most volume, and the low-volume node the lowest that holds the least.
   */
  lemma LevelsExactly(visible: seq<Candle>, size: real, pct: real, r: Outcome)
    requires size > 0.0 && WellFormed(visible) && Answers(Binned(visible, size), pct, r)
    ensures r == Incomplete <==> Volume(visible) <= 0.0
    ensures r.Profile? <==> Volume(visible) > 0.0
    ensures r.Profile? ==>
            && r.hvn == r.poc && Band(visible, size, r.poc) != {} && Band(visible, size, r.lvn) != {}
            && forall b | Band(visible, size, b) != {} ::
                 var (here, most) := (BandVolume(visible, size, b), BandVolume(visible, size, r.poc));
                 var least := BandVolume(visible, size, r.lvn);
                 least <= here <= most && (here == most ==> b >= r.poc) && (here == least ==> b >= r.lvn)
  {
    hide ValueArea, Binned, Volume, Band, BandVolume;
    BinsHoldEveryVolume(visible, size);
    forall b
      ensures b in Binned(visible, size) <==> Band(visible, size, b) != {}
      ensures b in Binned(visible, size) ==> Binned(visible, size)[b] == BandVolume(visible, size, b)
    {
      BinsExactly(visible, size, b);
    }
  }

  lemma TargetWithinTotal(total: real, pct: real)
    requires total > 0.0 && 0.0 < pct <= 1.0
    ensures 0.0 < Target(total, pct) <= total
  {
    assert total * (1.0 - pct) >= 0.0;
  }
}
