/**
 VolumeProfileCalculator: candles are put into price bins and a value area is grown greedily
 from the heaviest bin. A bin is named by its index, price == index * binSize.
 */
module VolumeProfile {
  import opened Optional
  import opened Extremes
  import opened Sums

  /** `bar` is None when a field is missing or does not convert. */
  datatype Candle = Candle(time: Option<real>, confirmed: bool, bar: Option<Bar>)
  datatype Bar = Bar(high: real, low: real, close: real, volume: real)

  type Bins = map<int, real>

  // ---------------------------------------------------------------- visible candles

  predicate Shown(c: Candle, asOf: Option<real>) {
    c.time.Some? && c.confirmed && (asOf.Some? ==> c.time.value <= asOf.value)
  }

  /** One candle per time, the last one given. */
  function Latest(candles: seq<Candle>, asOf: Option<real>): map<real, Candle> {
    if candles == [] then map[]
    else
      var before, last := Latest(candles[..|candles| - 1], asOf), candles[|candles| - 1];
      if Shown(last, asOf) then before[last.time.value := last] else before
  }

  /** The values of a map in the order of their keys. */
  function Ordered<V>(m: map<real, V>): (values: seq<V>)
    ensures |values| == |m|
    decreases |m|
  {
    if m == map[] then []
    else
      var first := MinKey(m);
      assert first in m && (m - {first}).Keys == m.Keys - {first};
      [m[first]] + Ordered(m - {first})
  }

  function Visible(candles: seq<Candle>, asOf: Option<real>): seq<Candle> { Ordered(Latest(candles, asOf)) }

  /** Candles that are unconfirmed or past the cutoff have no influence, wherever they stand. */
  function Only(candles: seq<Candle>, asOf: Option<real>): seq<Candle> {
    if candles == [] then []
    else Only(candles[..|candles| - 1], asOf) + (if Shown(candles[|candles| - 1], asOf) then [candles[|candles| - 1]]
                                                 else [])
  }

  lemma {:induction false} HiddenCandlesDoNotCount(candles: seq<Candle>, asOf: Option<real>)
    ensures Latest(candles, asOf) == Latest(Only(candles, asOf), asOf)
  {
    if candles != [] {
      var last := candles[|candles| - 1];
      var before := Only(candles[..|candles| - 1], asOf);
      HiddenCandlesDoNotCount(candles[..|candles| - 1], asOf);
      if Shown(last, asOf) {
        assert (before + [last])[..|before|] == before;
      } else {
        assert before + [] == before;
      }
    }
  }

  ghost predicate ByTime(m: map<real, Candle>) { forall t | t in m :: m[t].time == Some(t) }

  ghost predicate Increasing(s: seq<Candle>) {
    && (forall c | c in s :: c.time.Some?)
    && (forall i, j | 0 <= i < j < |s| :: s[i].time.value < s[j].time.value)
  }

  /** `s` holds the values of `m` and nothing else. */
  ghost predicate Holds(s: seq<Candle>, m: map<real, Candle>) {
    && (forall c | c in s :: c.time.Some? && c.time.value in m && m[c.time.value] == c)
    && (forall t | t in m :: m[t] in s)
  }

  lemma {:induction false} LatestByTime(candles: seq<Candle>, asOf: Option<real>)
    ensures ByTime(Latest(candles, asOf))
    ensures forall t | t in Latest(candles, asOf) ::
              Latest(candles, asOf)[t] in candles && Shown(Latest(candles, asOf)[t], asOf)
  {
    if candles != [] { LatestByTime(candles[..|candles| - 1], asOf); }
  }

  lemma ConsHolds(m: map<real, Candle>, first: real, rest: seq<Candle>)
    requires ByTime(m) && IsMin(m.Keys, first) && Holds(rest, m - {first}) && Increasing(rest)
    ensures Holds([m[first]] + rest, m) && Increasing([m[first]] + rest)
  {
    assert m[first].time == Some(first);
    assert forall t | t in m :: t == first || t in m - {first};
    forall c | c in rest ensures first < c.time.value {
      assert c.time.value in m - {first};
    }
    forall t | t in m ensures m[t] in [m[first]] + rest {
      if t != first { assert (m - {first})[t] in rest; }
    }
  }

  lemma {:induction false} OrderedByTime(m: map<real, Candle>)
    requires ByTime(m)
    ensures Holds(Ordered(m), m) && Increasing(Ordered(m))
    decreases |m|
  {
    if m != map[] {
      var first := MinKey(m);
      assert first in m && (m - {first}).Keys == m.Keys - {first};
      OrderedByTime(m - {first});
      ConsHolds(m, first, Ordered(m - {first}));
    }
  }

  /** One candle per time, in strictly increasing order, none past the cutoff, and no shown time left out. */
  lemma VisibleInOrder(candles: seq<Candle>, asOf: Option<real>)
    ensures Increasing(Visible(candles, asOf))
    ensures forall c | c in Visible(candles, asOf) :: c in candles && Shown(c, asOf)
    ensures forall c | c in candles && Shown(c, asOf) :: exists v :: v in Visible(candles, asOf) && v.time == c.time
  {
    hide Latest, Increasing;
    var m := Latest(candles, asOf);
    LatestByTime(candles, asOf);
    OrderedByTime(m);
    assert Visible(candles, asOf) == Ordered(m);
    forall c | c in Visible(candles, asOf) ensures c in candles && Shown(c, asOf) {
      assert m[c.time.value] == c;
    }
    forall c | c in candles && Shown(c, asOf) ensures exists v :: v in Visible(candles, asOf) && v.time == c.time {
      EveryShownTime(candles, asOf, c);
      assert m[c.time.value] in Visible(candles, asOf);
    }
  }

  lemma {:induction false} EveryShownTime(candles: seq<Candle>, asOf: Option<real>, c: Candle)
    requires c in candles && Shown(c, asOf)
    ensures c.time.value in Latest(candles, asOf)
  {
    if c != candles[|candles| - 1] { EveryShownTime(candles[..|candles| - 1], asOf, c); }
  }

  lemma {:induction false} LatestExactly(candles: seq<Candle>, asOf: Option<real>, c: Candle)
    ensures c.time.Some? && c.time.value in Latest(candles, asOf) && Latest(candles, asOf)[c.time.value] == c <==>
            exists k: nat :: LastOfItsTime(candles, asOf, c, k)
  {
    if candles != [] {
      var before, last := candles[..|candles| - 1], candles[|candles| - 1];
      LatestExactly(before, asOf, c);
      if exists k: nat :: LastOfItsTime(before, asOf, c, k) {
        var k: nat :| LastOfItsTime(before, asOf, c, k);
        assert before[k] == candles[k];
        assert (Shown(last, asOf) && last.time == c.time) || LastOfItsTime(candles, asOf, c, k);
      }
      if last == c && Shown(c, asOf) { assert LastOfItsTime(candles, asOf, c, |before|); }
      forall k: nat | LastOfItsTime(candles, asOf, c, k) && k < |before| ensures LastOfItsTime(before, asOf, c, k) {
        assert forall j | k < j < |before| :: before[j] == candles[j];
      }
    }
  }

  /** Candle k is `c`, confirmed and up to the cutoff, and no later one of the list that is has its time. */
  ghost predicate LastOfItsTime(candles: seq<Candle>, asOf: Option<real>, c: Candle, k: nat) {
    && k < |candles| && candles[k] == c
    && c.time.Some? && c.confirmed && (asOf.None? || c.time.value <= asOf.value)
    && forall j | k < j < |candles| :: candles[j].confirmed ==> candles[j].time != c.time
  }

  /** The visible candles are the last confirmed ones given for each time up to the cutoff, no more and no fewer. */
  lemma VisibleExactly(candles: seq<Candle>, asOf: Option<real>, c: Candle)
    ensures c in Visible(candles, asOf) <==> exists k: nat :: LastOfItsTime(candles, asOf, c, k)
  {
    LatestExactly(candles, asOf, c);
    LatestByTime(candles, asOf);
    OrderedByTime(Latest(candles, asOf));
    hide Latest, Ordered, LastOfItsTime;
  }

  /** The lookback keeps the end of the list. */
  lemma RecentAreTheLast<V>(s: seq<V>, n: nat)
    ensures |Recent(s, n)| == (if |s| < n then |s| else n) && s == s[..|s| - |Recent(s, n)|] + Recent(s, n)
  {}

  function Recent<V>(s: seq<V>, n: nat): seq<V> { if |s| <= n then s else s[|s| - n..] }

  // ---------------------------------------------------------------- bins

  predicate WellFormed(visible: seq<Candle>) {
    forall c | c in visible :: c.bar.Some? && c.bar.value.volume >= 0.0
  }

  function BinOf(bar: Bar, size: real): int
    requires size > 0.0
  {
    ((bar.high + bar.low + bar.close) / 3.0 / size).Floor
  }

  function Add(bins: Bins, b: int, volume: real): Bins {
    bins[b := (if b in bins then bins[b] else 0.0) + volume]
  }

  function Binned(visible: seq<Candle>, size: real): Bins
    requires size > 0.0 && WellFormed(visible)
  {
    if visible == [] then map[]
    else
      var last := visible[|visible| - 1];
      assert last in visible;
      Add(Binned(visible[..|visible| - 1], size), BinOf(last.bar.value, size), last.bar.value.volume)
  }

  ghost function Total(bins: Bins): real { Sum(bins, bins.Keys) }

  function Volume(visible: seq<Candle>): real
    requires WellFormed(visible)
  {
    if visible == [] then 0.0
    else
      assert visible[|visible| - 1] in visible;
      Volume(visible[..|visible| - 1]) + visible[|visible| - 1].bar.value.volume
  }

  /** Binning neither loses nor invents volume. */
  lemma {:induction false} BinsHoldEveryVolume(visible: seq<Candle>, size: real)
    requires size > 0.0 && WellFormed(visible)
    ensures Total(Binned(visible, size)) == Volume(visible) && NonNegative(Binned(visible, size))
  {
    if visible != [] {
      var last := visible[|visible| - 1];
      assert last in visible;
      var before := Binned(visible[..|visible| - 1], size);
      var b := BinOf(last.bar.value, size);
      var bins := Add(before, b, last.bar.value.volume);
      BinsHoldEveryVolume(visible[..|visible| - 1], size);
      SumTake(bins, bins.Keys, b);
      SumElsewhere(before, bins, bins.Keys - {b});
      if b in before {
        SumTake(before, before.Keys, b);
        assert bins.Keys == before.Keys;
      } else {
        assert bins.Keys - {b} == before.Keys;
      }
    }
  }

  /** What each candle trades. */
  function Volumes(visible: seq<Candle>): (volumes: map<nat, real>)
    requires WellFormed(visible)
    ensures forall k: nat :: k in volumes <==> k < |visible|
  {
    map k: nat | k < |visible| :: (assert visible[k] in visible; visible[k].bar.value.volume)
  }

  /** The candles whose typical price lies in the band of bin b, from b * size up to (b + 1) * size. */
  function Band(visible: seq<Candle>, size: real, b: int): (band: set<nat>)
    requires WellFormed(visible)
    ensures band <= Volumes(visible).Keys
  {
    set k: nat | k < |visible| &&
      (assert visible[k] in visible; var bar := visible[k].bar.value;
       b as real * size * 3.0 <= bar.high + bar.low + bar.close < (b as real + 1.0) * size * 3.0)
  }

  ghost function BandVolume(visible: seq<Candle>, size: real, b: int): real
    requires WellFormed(visible)
  {
    Sum(Volumes(visible), Band(visible, size, b))
  }

  lemma BinOfExactly(bar: Bar, size: real, b: int)
    requires size > 0.0
    ensures BinOf(bar, size) == b <==>
            b as real * size * 3.0 <= bar.high + bar.low + bar.close < (b as real + 1.0) * size * 3.0
  {
    var typical := (bar.high + bar.low + bar.close) / 3.0;
    var q, here, next := typical / size, b as real, b as real + 1.0;
    FloorExactly(q, b);
    Ordering(here, q, size, here * size, typical);
    Ordering(next, q, size, next * size, typical);
  }

  lemma FloorExactly(q: real, b: int)
    ensures q.Floor == b <==> b as real <= q < b as real + 1.0
  {}

  lemma Ordering(x: real, y: real, size: real, sizedX: real, sizedY: real)
    requires size > 0.0 && sizedX == x * size && sizedY == y * size
    ensures x <= y <==> sizedX <= sizedY
  {
    if x <= y { assert (y - x) * size >= 0.0; } else { assert (x - y) * size > 0.0; }
  }

  /**
   A bin exists exactly when some candle has its typical price in the band, and it holds exactly the volume
   of the candles that do.
   */
  lemma {:induction false} BinsExactly(visible: seq<Candle>, size: real, b: int)
    requires size > 0.0 && WellFormed(visible)
    ensures var bins := Binned(visible, size);
            && (b in bins <==> Band(visible, size, b) != {})
            && (b in bins ==> bins[b] == BandVolume(visible, size, b))
  {
    if visible != [] {
      var before, last := visible[..|visible| - 1], visible[|visible| - 1];
      assert last in visible;
      BinsExactly(before, size, b);
      BandGrows(visible, size, b);
    }
  }

  lemma BandOfMore(visible: seq<Candle>, size: real, b: int)
    requires size > 0.0 && WellFormed(visible) && visible != []
    ensures var (before, last) := (visible[..|visible| - 1], visible[|visible| - 1]);
      && last in visible && WellFormed(before)
      && Band(visible, size, b) ==
           Band(before, size, b) + (if BinOf(last.bar.value, size) == b then {|visible| - 1} else {})
      && forall k: nat | k < |before| :: Volumes(before)[k] == Volumes(visible)[k]
  {
    hide BinOf;
    var n: nat := |visible| - 1;
    var before, last := visible[..n], visible[n];
    assert last in visible && forall k | 0 <= k < n :: before[k] == visible[k];
    BinOfExactly(last.bar.value, size, b);
    assert n in Band(visible, size, b) <==> BinOf(last.bar.value, size) == b;
  }

  lemma BandGrows(visible: seq<Candle>, size: real, b: int)
    requires size > 0.0 && WellFormed(visible) && visible != []
    ensures var (before, last) := (visible[..|visible| - 1], visible[|visible| - 1]);
      && last in visible && WellFormed(before)
      && (BinOf(last.bar.value, size) == b ==>
          && Band(visible, size, b) != {}
          && BandVolume(visible, size, b) == BandVolume(before, size, b) + last.bar.value.volume)
      && (BinOf(last.bar.value, size) != b ==>
          && Band(visible, size, b) == Band(before, size, b)
          && BandVolume(visible, size, b) == BandVolume(before, size, b))
      && (Band(before, size, b) == {} ==> BandVolume(before, size, b) == 0.0)
  {
    hide BinOf, Band;
    var n: nat := |visible| - 1;
    var before, last := visible[..n], visible[n];
    BandOfMore(visible, size, b);
    SumElsewhere(Volumes(before), Volumes(visible), Band(before, size, b));
    assert Volumes(visible)[n] == last.bar.value.volume;
    if BinOf(last.bar.value, size) == b {
      assert n !in Band(before, size, b) && Band(visible, size, b) == Band(before, size, b) + {n};
      SumPut(Volumes(visible), Band(before, size, b), n);
    }
  }

  // ---------------------------------------------------------------- the value area

  /** The next bin beside the run lo..hi: the heavier neighbour, the lower one on a tie. */
  function Next(bins: Bins, lo: int, hi: int): Option<int> {
    if lo - 1 in bins && (hi + 1 in bins ==> bins[lo - 1] >= bins[hi + 1]) then Some(lo - 1)
    else if hi + 1 in bins then Some(hi + 1)
    else None
  }

  function Interval(lo: int, hi: int): (run: set<int>)
    ensures forall i :: i in run <==> lo <= i <= hi
    decreases hi - lo
  {
    if lo > hi then {} else Interval(lo, hi - 1) + {hi}
  }

  /** lo..hi is an unbroken run of occupied bins. */
  predicate Run(bins: Bins, lo: int, hi: int) {
    lo <= hi && forall i | lo <= i <= hi :: i in bins
  }

  function Grow(bins: Bins, target: real, lo: int, hi: int, covered: real): ((int, int))
    requires Run(bins, lo, hi)
    decreases bins.Keys - Interval(lo, hi)
  {
    var next := Next(bins, lo, hi);
    if covered >= target || next.None? then (lo, hi)
    else
      assert next.value in bins.Keys - Interval(lo, hi);
      if next.value < lo then Grow(bins, target, lo - 1, hi, covered + bins[lo - 1])
      else Grow(bins, target, lo, hi + 1, covered + bins[hi + 1])
  }

  /** The value area around the point of control. */
  function ValueArea(bins: Bins, poc: int, target: real): (int, int)
    requires poc in bins
  {
    Grow(bins, target, poc, poc, bins[poc])
  }

  ghost function Covered(bins: Bins, lo: int, hi: int): real
    requires Run(bins, lo, hi)
  {
    Sum(bins, Interval(lo, hi))
  }

  lemma CoveredGrows(bins: Bins, lo: int, hi: int)
    requires Run(bins, lo, hi)
    ensures lo - 1 in bins ==>
            Run(bins, lo - 1, hi) && Covered(bins, lo - 1, hi) == Covered(bins, lo, hi) + bins[lo - 1]
    ensures hi + 1 in bins ==>
            Run(bins, lo, hi + 1) && Covered(bins, lo, hi + 1) == Covered(bins, lo, hi) + bins[hi + 1]
  {
    if lo - 1 in bins {
      assert Interval(lo - 1, hi) == Interval(lo, hi) + {lo - 1};
      SumPut(bins, Interval(lo, hi), lo - 1);
    }
    if hi + 1 in bins {
      assert Interval(lo, hi + 1) == Interval(lo, hi) + {hi + 1};
      SumPut(bins, Interval(lo, hi), hi + 1);
    }
  }

  /** The run was still short of the target before its last bin, which lies at one end. */
  ghost predicate Needed(bins: Bins, target: real, poc: int, lo: int, hi: int)
    requires Run(bins, lo, hi)
  {
    lo == hi == poc || (lo < poc && Covered(bins, lo, hi) - bins[lo] < target)
    || (hi > poc && Covered(bins, lo, hi) - bins[hi] < target)
  }

  /** A run that is still short of the target needs the bin it takes next. */
  lemma NeededGrows(bins: Bins, target: real, poc: int, lo: int, hi: int)
    requires Run(bins, lo, hi) && lo <= poc <= hi && Covered(bins, lo, hi) < target
    ensures lo - 1 in bins ==> Run(bins, lo - 1, hi) && Needed(bins, target, poc, lo - 1, hi)
    ensures hi + 1 in bins ==> Run(bins, lo, hi + 1) && Needed(bins, target, poc, lo, hi + 1)
  {
    CoveredGrows(bins, lo, hi);
    hide Covered;
  }

  /**
   The value area is an unbroken run around the point of control; it reaches the target or has
   no occupied neighbour left, and it would not have reached it without one of its end bins.
   */
  lemma {:induction false} GrownRun(bins: Bins, target: real, poc: int, lo: int, hi: int)
    requires Run(bins, lo, hi) && lo <= poc <= hi && Needed(bins, target, poc, lo, hi)
    ensures var (low, high) := Grow(bins, target, lo, hi, Covered(bins, lo, hi));
            && low <= lo && hi <= high && Run(bins, low, high)
            && (Covered(bins, low, high) >= target || (low - 1 !in bins && high + 1 !in bins))
            && Needed(bins, target, poc, low, high)
    decreases bins.Keys - Interval(lo, hi)
  {
    hide Covered, Needed;
    var next := Next(bins, lo, hi);
    if Covered(bins, lo, hi) < target && next.Some? {
      CoveredGrows(bins, lo, hi);
      NeededGrows(bins, target, poc, lo, hi);
      assert next.value in bins.Keys - Interval(lo, hi);
      if next.value < lo { GrownRun(bins, target, poc, lo - 1, hi); } else { GrownRun(bins, target, poc, lo, hi + 1); }
    }
  }

  lemma AreaOf(bins: Bins, target: real, poc: int)
    requires poc in bins
    ensures var (lo, hi) := ValueArea(bins, poc, target);
            && lo <= poc <= hi && Run(bins, lo, hi)
            && (Covered(bins, lo, hi) >= target || (lo - 1 !in bins && hi + 1 !in bins))
            && Needed(bins, target, poc, lo, hi)
    ensures Run(bins, poc, poc) && Covered(bins, poc, poc) == bins[poc]
  {
    assert Interval(poc, poc) == {poc};
    SumTake(bins, {poc}, poc);
    assert {poc} - {poc} == {};
    GrownRun(bins, target, poc, poc, poc);
  }

  // ---------------------------------------------------------------- the greedy choices

  /** Bin x below the point of control was taken with the run at x + 1..h, no lighter than the bin above it. */
  ghost predicate TakenBelow(bins: Bins, target: real, poc: int, hi: int, x: int, h: int) {
    && poc <= h <= hi && x in bins && Run(bins, x + 1, h) && Covered(bins, x + 1, h) < target
    && (h + 1 in bins ==> bins[x] >= bins[h + 1])
  }

  /** Bin y above the point of control was taken with the run at l..y - 1, strictly heavier than the bin below it. */
  ghost predicate TakenAbove(bins: Bins, target: real, poc: int, lo: int, y: int, l: int) {
    && lo <= l <= poc && y in bins && Run(bins, l, y - 1) && Covered(bins, l, y - 1) < target
    && (l - 1 in bins ==> bins[y] > bins[l - 1])
  }

  ghost predicate RightBelow(bins: Bins, target: real, poc: int, hi: int, x: int) {
    exists h :: TakenBelow(bins, target, poc, hi, x, h)
  }

  ghost predicate RightAbove(bins: Bins, target: real, poc: int, lo: int, y: int) {
    exists l :: TakenAbove(bins, target, poc, lo, y, l)
  }

  ghost predicate Greedy(bins: Bins, target: real, poc: int, lo: int, hi: int) {
    && (forall x | lo <= x < poc :: RightBelow(bins, target, poc, hi, x))
    && (forall y | poc < y <= hi :: RightAbove(bins, target, poc, lo, y))
  }

  lemma GreedyGrows(bins: Bins, target: real, poc: int, lo: int, hi: int)
    requires Run(bins, lo, hi) && lo <= poc <= hi && Greedy(bins, target, poc, lo, hi)
    requires Covered(bins, lo, hi) < target && Next(bins, lo, hi).Some?
    ensures var next := Next(bins, lo, hi).value;
            if next < lo then Greedy(bins, target, poc, lo - 1, hi) else Greedy(bins, target, poc, lo, hi + 1)
  {
    hide Covered;
    var next := Next(bins, lo, hi).value;
    var (a, b) := if next < lo then (lo - 1, hi) else (lo, hi + 1);
    forall x | a <= x < poc ensures RightBelow(bins, target, poc, b, x) {
      if x < lo {
        assert TakenBelow(bins, target, poc, b, x, hi);
      } else {
        assert RightBelow(bins, target, poc, hi, x);
        var h :| TakenBelow(bins, target, poc, hi, x, h);
        assert TakenBelow(bins, target, poc, b, x, h);
      }
    }
    forall y | poc < y <= b ensures RightAbove(bins, target, poc, a, y) {
      if y > hi {
        assert TakenAbove(bins, target, poc, a, y, lo);
      } else {
        assert RightAbove(bins, target, poc, lo, y);
        var l :| TakenAbove(bins, target, poc, lo, y, l);
        assert TakenAbove(bins, target, poc, a, y, l);
      }
    }
  }

  lemma {:induction false} GrownIsGreedy(bins: Bins, target: real, poc: int, lo: int, hi: int)
    requires Run(bins, lo, hi) && lo <= poc <= hi && Greedy(bins, target, poc, lo, hi)
    ensures var (low, high) := Grow(bins, target, lo, hi, Covered(bins, lo, hi)); Greedy(bins, target, poc, low, high)
    decreases bins.Keys - Interval(lo, hi)
  {
    hide Covered, Greedy;
    var next := Next(bins, lo, hi);
    if Covered(bins, lo, hi) < target && next.Some? {
      CoveredGrows(bins, lo, hi);
      GreedyGrows(bins, target, poc, lo, hi);
      assert next.value in bins.Keys - Interval(lo, hi);
      if next.value < lo { GrownIsGreedy(bins, target, poc, lo - 1, hi); }
      else { GrownIsGreedy(bins, target, poc, lo, hi + 1); }
    }
  }

  /**
   Every bin of the value area was the right one to take: the run so far missed the target, and on the other
   side stood no heavier bin, and for a bin above the point of control no equal one either.
   */
  lemma AreaIsGreedy(bins: Bins, target: real, poc: int)
    requires poc in bins
    ensures var (lo, hi) := ValueArea(bins, poc, target); Greedy(bins, target, poc, lo, hi)
  {
    AreaOf(bins, target, poc);
    GrownIsGreedy(bins, target, poc, poc, poc);
  }

  /** a..b is the whole unbroken block of occupied bins around the point of control. */
  ghost predicate Block(bins: Bins, poc: int, a: int, b: int) {
    Run(bins, a, b) && a <= poc <= b && a - 1 !in bins && b + 1 !in bins
  }

  lemma RunWithinBlock(bins: Bins, poc: int, a: int, b: int, lo: int, hi: int)
    requires Block(bins, poc, a, b) && Run(bins, lo, hi) && lo <= poc <= hi
    ensures a <= lo && hi <= b
  {}

  /** The target is met exactly when the block of occupied bins around the point of control holds it. */
  lemma TargetMetExactly(bins: Bins, target: real, poc: int, a: int, b: int)
    requires NonNegative(bins) && poc in bins && Block(bins, poc, a, b)
    ensures var (lo, hi) := ValueArea(bins, poc, target);
            Run(bins, lo, hi) && (Covered(bins, lo, hi) >= target <==> Covered(bins, a, b) >= target)
  {
    AreaOf(bins, target, poc);
    var (lo, hi) := ValueArea(bins, poc, target);
    RunWithinBlock(bins, poc, a, b, lo, hi);
    SumSubset(bins, Interval(lo, hi), Interval(a, b));
  }

  ghost predicate GapFree(bins: Bins) {
    forall i, j, k | i in bins && k in bins && i <= j <= k :: j in bins
  }

  lemma GapFreeMeetsTarget(bins: Bins, target: real, poc: int)
    requires NonNegative(bins) && GapFree(bins) && poc in bins && target <= Total(bins)
    ensures var (lo, hi) := ValueArea(bins, poc, target); Run(bins, lo, hi) && Covered(bins, lo, hi) >= target
  {
    AreaOf(bins, target, poc);
    var (lo, hi) := ValueArea(bins, poc, target);
    if lo - 1 !in bins && hi + 1 !in bins {
      forall k | k in bins ensures lo <= k <= hi {
        assert k < lo ==> lo - 1 in bins;
        assert k > hi ==> hi + 1 in bins;
      }
      assert Interval(lo, hi) == bins.Keys;
    }
  }

  /** With a hole in the profile the value area can stop short of its target. */
  lemma GapLosesTarget(volume: real)
    requires volume > 0.0
    ensures var bins := map[0 := volume, 2 := volume];
            Run(bins, 0, 0) && ValueArea(bins, 0, 0.7 * Total(bins)) == (0, 0)
            && Covered(bins, 0, 0) < 0.7 * Total(bins)
  {
    var bins := map[0 := volume, 2 := volume];
    AreaOf(bins, 0.7 * Total(bins), 0);
    SumTake(bins, bins.Keys, 0);
    SumTake(bins, {2}, 2);
    assert bins.Keys - {0} == {2} && {2} - {2} == {};
  }

  // ---------------------------------------------------------------- single-peaked profiles

  /** Volumes fall away, not necessarily strictly, on both sides of the point of control. */
  ghost predicate SinglePeaked(bins: Bins, poc: int) {
    && (forall i, j | i in bins && j in bins && i <= j <= poc :: bins[i] <= bins[j])
    && (forall i, j | i in bins && j in bins && poc <= i <= j :: bins[i] >= bins[j])
  }

  ghost predicate Heaviest(bins: Bins, chosen: set<int>)
    requires chosen <= bins.Keys
  {
    forall i, j | i in chosen && j in bins && j !in chosen :: bins[i] >= bins[j]
  }

  /** Adding the heavier neighbour keeps every bin outside the run at most as heavy as every bin inside. */
  lemma NextKeepsHeaviest(bins: Bins, poc: int, lo: int, hi: int)
    requires Run(bins, lo, hi) && lo <= poc <= hi && GapFree(bins) && SinglePeaked(bins, poc)
    requires Heaviest(bins, Interval(lo, hi)) && Next(bins, lo, hi).Some?
    ensures var next := Next(bins, lo, hi).value;
            next in bins && Heaviest(bins, Interval(lo, hi) + {next})
  {
    var next := Next(bins, lo, hi).value;
    forall j | j in bins && j !in Interval(lo, hi) + {next} ensures bins[next] >= bins[j] {
      if j < lo {
        assert lo - 1 in bins;
        assert bins[j] <= bins[lo - 1];
      } else {
        assert hi + 1 in bins;
        assert bins[j] <= bins[hi + 1];
      }
    }
  }

  ghost predicate Smallest(bins: Bins, target: real, chosen: set<int>)
    requires chosen <= bins.Keys
  {
    forall other: set<int> | other <= bins.Keys && Sum(bins, other) >= target :: |other| >= |chosen|
  }

  /** Bins at least as heavy as all others hold at least as much as any set that is no larger. */
  lemma {:induction false} HeaviestHoldMost(bins: Bins, chosen: set<int>, other: set<int>)
    requires NonNegative(bins) && chosen <= bins.Keys && other <= bins.Keys
    requires Heaviest(bins, chosen) && |other| <= |chosen|
    ensures Sum(bins, other) <= Sum(bins, chosen)
  {
    var common := chosen * other;
    assert other == common + (other - chosen) && chosen == common + (chosen - other);
    assert |other| == |common| + |other - chosen| && |chosen| == |common| + |chosen - other|;
    SumSplit(bins, common, other - chosen);
    SumSplit(bins, common, chosen - other);
    Exchange(bins, chosen - other, other - chosen);
  }

  lemma {:induction false} Exchange(bins: Bins, heavy: set<int>, light: set<int>)
    requires NonNegative(bins) && heavy <= bins.Keys && light <= bins.Keys && |light| <= |heavy|
    requires forall i, j | i in heavy && j in light :: bins[i] >= bins[j]
    ensures Sum(bins, light) <= Sum(bins, heavy)
    decreases |light|
  {
    if light == {} {
      SumNonNegative(bins, heavy);
    } else {
      var j := Pick(light);
      var i := Pick(heavy);
      SumTake(bins, light, j);
      SumTake(bins, heavy, i);
      Exchange(bins, heavy - {i}, light - {j});
    }
  }

  /** A larger run is still smallest when the run before it held less than the target and was heaviest. */
  lemma OneMoreIsSmallest(bins: Bins, target: real, chosen: set<int>, next: int)
    requires NonNegative(bins) && chosen <= bins.Keys && Heaviest(bins, chosen) && Sum(bins, chosen) < target
    requires next in bins && next !in chosen
    ensures Smallest(bins, target, chosen + {next})
  {
    assert |chosen + {next}| == |chosen| + 1;
    forall other: set<int> | other <= bins.Keys && Sum(bins, other) >= target ensures |other| >= |chosen + {next}| {
      if |other| <= |chosen| { HeaviestHoldMost(bins, chosen, other); }
    }
  }

  lemma NextRunIsOptimal(bins: Bins, target: real, poc: int, lo: int, hi: int)
    requires NonNegative(bins) && GapFree(bins) && SinglePeaked(bins, poc)
    requires Run(bins, lo, hi) && lo <= poc <= hi && Heaviest(bins, Interval(lo, hi))
    requires Covered(bins, lo, hi) < target && Next(bins, lo, hi).Some?
    ensures var next := Next(bins, lo, hi).value;
            var (a, b) := if next < lo then (lo - 1, hi) else (lo, hi + 1);
            && next in bins.Keys - Interval(lo, hi)
            && Run(bins, a, b) && Covered(bins, a, b) == Covered(bins, lo, hi) + bins[next]
            && Interval(lo, hi) < Interval(a, b)
            && Heaviest(bins, Interval(a, b)) && Smallest(bins, target, Interval(a, b))
  {
    hide GapFree, SinglePeaked, Heaviest, Smallest, NonNegative, Sum, Interval, Run;
    var next := Next(bins, lo, hi).value;
    var (a, b) := if next < lo then (lo - 1, hi) else (lo, hi + 1);
    CoveredGrows(bins, lo, hi);
    assert Interval(a, b) == Interval(lo, hi) + {next};
    NextKeepsHeaviest(bins, poc, lo, hi);
    assert Covered(bins, lo, hi) == Sum(bins, Interval(lo, hi));
    OneMoreIsSmallest(bins, target, Interval(lo, hi), next);
    assert next !in Interval(lo, hi) && next in Interval(a, b);
  }

  lemma {:induction false} GrownIsOptimal(bins: Bins, target: real, poc: int, lo: int, hi: int)
    requires NonNegative(bins) && GapFree(bins) && SinglePeaked(bins, poc)
    requires Run(bins, lo, hi) && lo <= poc <= hi
    requires Heaviest(bins, Interval(lo, hi)) && Smallest(bins, target, Interval(lo, hi))
    ensures var (low, high) := Grow(bins, target, lo, hi, Covered(bins, lo, hi));
            Run(bins, low, high) && Heaviest(bins, Interval(low, high)) && Smallest(bins, target, Interval(low, high))
    decreases bins.Keys - Interval(lo, hi)
  {
    hide GapFree, SinglePeaked, Heaviest, Smallest, NonNegative, Covered;
    var next := Next(bins, lo, hi);
    if Covered(bins, lo, hi) < target && next.Some? {
      NextRunIsOptimal(bins, target, poc, lo, hi);
      if next.value < lo { GrownIsOptimal(bins, target, poc, lo - 1, hi); }
      else { GrownIsOptimal(bins, target, poc, lo, hi + 1); }
    }
  }

  /**
   On a gap-free, single-peaked profile the value area meets its target, no bin inside is
   lighter than a bin outside, and no smaller set of bins, contiguous or not, holds the target.
   */
  lemma SinglePeakIsOptimal(bins: Bins, target: real, poc: int)
    requires NonNegative(bins) && GapFree(bins) && poc in bins && SinglePeaked(bins, poc)
    requires 0.0 < target <= Total(bins)
    ensures var (lo, hi) := ValueArea(bins, poc, target);
            && Run(bins, lo, hi) && Covered(bins, lo, hi) >= target
            && Heaviest(bins, Interval(lo, hi)) && Smallest(bins, target, Interval(lo, hi))
  {
    GapFreeMeetsTarget(bins, target, poc);
    AreaOf(bins, target, poc);
    assert Interval(poc, poc) == {poc};
    assert Smallest(bins, target, {poc}) by {
      forall other: set<int> | other <= bins.Keys && Sum(bins, other) >= target ensures |other| >= 1 {
        assert other != {};
      }
    }
    GrownIsOptimal(bins, target, poc, poc, poc);
  }
}
