/** Greedy clustering of highs (and of lows) into liquidity pools. */
module Pools {
  import opened Arithmetic
  import opened Sums

  datatype Touch = Touch(index: nat, price: real)

  /** A group is never empty: its first touch is its head, the price the others were compared with. */
  datatype Group = Group(head: Touch, rest: seq<Touch>) {
    function Count(): nat { 1 + |rest| }

    function Get(i: nat): Touch
      requires i < Count()
    {
      if i == 0 then head else rest[i - 1]
    }

    function Last(): Touch { Get(Count() - 1) }

    function Plus(t: Touch): Group { Group(head, rest + [t]) }
  }

  function Reference(a: real, b: real): (r: real)
    ensures r > 0.0
  {
    Max(Max(Abs(a), Abs(b)), TINY)
  }

  predicate Near(a: real, b: real, tolerance: real) { Abs(a - b) / Reference(a, b) <= tolerance }

  lemma NearIsSymmetric(a: real, b: real, tolerance: real)
    ensures Near(a, b, tolerance) <==> Near(b, a, tolerance)
  {
    assert Reference(a, b) == Reference(b, a) && Abs(a - b) == Abs(b - a);
  }

  /** The touch joins the first group whose head it is near, or opens a group of its own. */
  function Assign(groups: seq<Group>, t: Touch, tolerance: real): seq<Group> {
    if groups == [] then [Group(t, [])]
    else if Near(t.price, groups[0].head.price, tolerance) then [groups[0].Plus(t)] + groups[1..]
    else [groups[0]] + Assign(groups[1..], t, tolerance)
  }

  /** The groups of all the prices, taken in order. */
  function Clusters(prices: seq<real>, tolerance: real): seq<Group> {
    if prices == [] then []
    else Assign(Clusters(prices[..|prices| - 1], tolerance), Touch(|prices| - 1, prices[|prices| - 1]), tolerance)
  }

  // ---------------------------------------------------------------- what one assignment does

  /** Group k takes the touch: the first with a near head, or a new last one. */
  ghost predicate Takes(groups: seq<Group>, t: Touch, tolerance: real, k: nat) {
    && k <= |groups|
    && (forall i | 0 <= i < k :: !Near(t.price, groups[i].head.price, tolerance))
    && (k < |groups| ==> Near(t.price, groups[k].head.price, tolerance))
  }

  function Placed(groups: seq<Group>, t: Touch, k: nat): seq<Group>
    requires k <= |groups|
  {
    if k < |groups| then groups[k := groups[k].Plus(t)] else groups + [Group(t, [])]
  }

  /** Every place in the new groups is an old place, except the end of group k. */
  lemma PlacedAt(groups: seq<Group>, t: Touch, k: nat, h: nat, i: nat)
    requires k <= |groups| && h < |Placed(groups, t, k)| && i < Placed(groups, t, k)[h].Count()
    ensures var next := Placed(groups, t, k);
            if h == k && i == next[k].Count() - 1 then next[h].Get(i) == t && (k == |groups| ==> i == 0)
            else h < |groups| && i < groups[h].Count() && next[h].Get(i) == groups[h].Get(i)
    ensures h < |groups| ==> Placed(groups, t, k)[h].head == groups[h].head
  {}

  lemma {:induction false} AssignTakes(groups: seq<Group>, t: Touch, tolerance: real) returns (k: nat)
    ensures Takes(groups, t, tolerance, k) && Assign(groups, t, tolerance) == Placed(groups, t, k)
  {
    hide Near;
    if groups == [] {
      k := 0;
    } else if Near(t.price, groups[0].head.price, tolerance) {
      k := 0;
      assert [groups[0].Plus(t)] + groups[1..] == Placed(groups, t, 0);
    } else {
      var rest := groups[1..];
      var j := AssignTakes(rest, t, tolerance);
      k := j + 1;
      assert [groups[0]] + Placed(rest, t, j) == Placed(groups, t, k);
    }
  }

  // ---------------------------------------------------------------- the clustering

  /** In a group: ascending touches of the prices, each near the head and near no earlier head. */
  ghost predicate Sound(groups: seq<Group>, prices: seq<real>, tolerance: real) {
    && (forall k, i | 0 <= k < |groups| && 0 <= i < groups[k].Count() :: Fits(groups, prices, tolerance, k, i))
    && (forall k, i, j | 0 <= k < |groups| && 0 <= i < j < groups[k].Count() ::
          groups[k].Get(i).index < groups[k].Get(j).index)
  }

  ghost predicate Fits(groups: seq<Group>, prices: seq<real>, tolerance: real, k: int, i: int)
    requires 0 <= k < |groups| && 0 <= i < groups[k].Count()
  {
    var t := groups[k].Get(i);
    && t.index < |prices| && t.price == prices[t.index]
    && (i > 0 ==> Near(t.price, groups[k].head.price, tolerance))
    && (forall h | 0 <= h < k :: !Near(t.price, groups[h].head.price, tolerance))
  }

  /** Index `index` stands at place i of group k. */
  ghost predicate At(groups: seq<Group>, index: nat, k: nat, i: nat) {
    k < |groups| && i < groups[k].Count() && groups[k].Get(i).index == index
  }

  ghost predicate Somewhere(groups: seq<Group>, index: nat) { exists k, i :: At(groups, index, k, i) }

  /** Every index below n stands in exactly one place. */
  ghost predicate Partition(groups: seq<Group>, n: nat) {
    && (forall index: nat | index < n :: Somewhere(groups, index))
    && (forall index, k, i, h, j | At(groups, index, k, i) && At(groups, index, h, j) :: k == h && i == j)
  }

  lemma {:induction false} ClustersAreSound(prices: seq<real>, tolerance: real)
    ensures Sound(Clusters(prices, tolerance), prices, tolerance)
  {
    hide Sound, Assign;
    if prices == [] {
      NoGroupsAreSound(tolerance);
    } else {
      var before := prices[..|prices| - 1];
      ClustersAreSound(before, tolerance);
      AssignIsSound(Clusters(before, tolerance), before, prices[|prices| - 1], tolerance);
      assert before + [prices[|prices| - 1]] == prices;
    }
  }

  lemma NoGroupsAreSound(tolerance: real)
    ensures Sound([], [], tolerance)
  {}

  lemma AssignIsSound(groups: seq<Group>, prices: seq<real>, price: real, tolerance: real)
    requires Sound(groups, prices, tolerance)
    ensures Sound(Assign(groups, Touch(|prices|, price), tolerance), prices + [price], tolerance)
  {
    hide Near, Assign, Placed;
    var t := Touch(|prices|, price);
    var k := AssignTakes(groups, t, tolerance);
    var next := Placed(groups, t, k);
    forall h, i | 0 <= h < |next| && 0 <= i < next[h].Count()
      ensures Fits(next, prices + [price], tolerance, h, i)
    {
      PlacedAt(groups, t, k, h, i);
      if h < |groups| && i < groups[h].Count() { assert Fits(groups, prices, tolerance, h, i); }
      forall g | 0 <= g < h ensures g < |groups| && next[g].head == groups[g].head {
        PlacedHeads(groups, t, k, g);
      }
    }
    forall h, i, j | 0 <= h < |next| && 0 <= i < j < next[h].Count()
      ensures next[h].Get(i).index < next[h].Get(j).index
    {
      PlacedAt(groups, t, k, h, i);
      PlacedAt(groups, t, k, h, j);
      if h < |groups| && i < groups[h].Count() { assert Fits(groups, prices, tolerance, h, i); }
    }
  }

  lemma PlacedHeads(groups: seq<Group>, t: Touch, k: nat, g: nat)
    requires k <= |groups| && g + 1 < |Placed(groups, t, k)|
    ensures g < |groups| && Placed(groups, t, k)[g].head == groups[g].head
  {}

  lemma {:induction false} ClustersArePartition(prices: seq<real>, tolerance: real)
    ensures Partition(Clusters(prices, tolerance), |prices|)
  {
    hide Partition, Sound, Assign;
    if prices == [] {
      NoGroupsArePartition();
    } else {
      var before := prices[..|prices| - 1];
      ClustersArePartition(before, tolerance);
      ClustersAreSound(before, tolerance);
      AssignIsPartition(Clusters(before, tolerance), before, prices[|prices| - 1], tolerance);
    }
  }

  lemma NoGroupsArePartition()
    ensures Partition([], 0)
  {}

  lemma AssignIsPartition(groups: seq<Group>, prices: seq<real>, price: real, tolerance: real)
    requires Sound(groups, prices, tolerance) && Partition(groups, |prices|)
    ensures Partition(Assign(groups, Touch(|prices|, price), tolerance), |prices| + 1)
  {
    hide Near, Assign, Placed, At;
    var t := Touch(|prices|, price);
    var k := AssignTakes(groups, t, tolerance);
    var next := Placed(groups, t, k);
    NewPlace(groups, t, k);
    forall index: nat | index <= |prices| ensures Somewhere(next, index) {
      if index < |prices| {
        assert Somewhere(groups, index);
        var h, i :| At(groups, index, h, i);
        OldPlaceStays(groups, t, k, index, h, i);
      }
    }
    forall h, j | 0 <= h < |groups| && 0 <= j < groups[h].Count() ensures groups[h].Get(j).index < |prices| {
      assert Fits(groups, prices, tolerance, h, j);
    }
    forall index, a, i, b, j | At(next, index, a, i) && At(next, index, b, j) ensures a == b && i == j {
      OldPlace(groups, |prices|, t, k, index, a, i);
      OldPlace(groups, |prices|, t, k, index, b, j);
    }
  }

  lemma OldPlaceStays(groups: seq<Group>, t: Touch, k: nat, index: nat, h: nat, i: nat)
    requires k <= |groups| && At(groups, index, h, i)
    ensures At(Placed(groups, t, k), index, h, i)
  {}

  lemma NewPlace(groups: seq<Group>, t: Touch, k: nat)
    requires k <= |groups|
    ensures Somewhere(Placed(groups, t, k), t.index)
  {
    assert At(Placed(groups, t, k), t.index, k, Placed(groups, t, k)[k].Count() - 1);
  }

  /** A place in the new groups is an old place or the end of group k. */
  lemma OldPlace(groups: seq<Group>, n: nat, t: Touch, k: nat, index: nat, a: nat, i: nat)
    requires k <= |groups| && t.index == n && At(Placed(groups, t, k), index, a, i)
    requires forall h, j | 0 <= h < |groups| && 0 <= j < groups[h].Count() :: groups[h].Get(j).index < n
    ensures if index == n then a == k && i == Placed(groups, t, k)[k].Count() - 1 else At(groups, index, a, i)
  {
    PlacedAt(groups, t, k, a, i);
  }

  /** Heads are pairwise not near, whichever way round they are compared. */
  lemma HeadsAreApart(prices: seq<real>, tolerance: real, h: nat, k: nat)
    requires h < |Clusters(prices, tolerance)| && k < |Clusters(prices, tolerance)| && h != k
    ensures var groups := Clusters(prices, tolerance); !Near(groups[h].head.price, groups[k].head.price, tolerance)
  {
    var groups := Clusters(prices, tolerance);
    hide Near, Clusters;
    ClustersAreSound(prices, tolerance);
    assert Fits(groups, prices, tolerance, h, 0) && Fits(groups, prices, tolerance, k, 0);
    NearIsSymmetric(groups[h].head.price, groups[k].head.price, tolerance);
  }

  // ---------------------------------------------------------------- appending candles

  ghost predicate Grown(group: Group, later: Group) { group.head == later.head && group.rest <= later.rest }

  /** Groups stay in place and only grow at their ends; new groups come last. */
  ghost predicate Extends(groups: seq<Group>, later: seq<Group>) {
    |groups| <= |later| && forall k | 0 <= k < |groups| :: Grown(groups[k], later[k])
  }

  lemma {:induction false} ClustersExtend(prices: seq<real>, longer: seq<real>, tolerance: real)
    requires prices <= longer
    ensures Extends(Clusters(prices, tolerance), Clusters(longer, tolerance))
    decreases |longer|
  {
    hide Assign;
    if prices != longer {
      var before := longer[..|longer| - 1];
      ClustersExtend(prices, before, tolerance);
      AssignExtends(Clusters(before, tolerance), Touch(|longer| - 1, longer[|longer| - 1]), tolerance);
    }
  }

  lemma AssignExtends(groups: seq<Group>, t: Touch, tolerance: real)
    ensures Extends(groups, Assign(groups, t, tolerance))
  {
    hide Near, Assign;
    var k := AssignTakes(groups, t, tolerance);
  }

  // ---------------------------------------------------------------- pools

  /** `price` is the mean of the touches. */
  datatype Pool = Pool(price: real, first: nat, last: nat, touches: nat)

  function Total(touches: seq<Touch>): real {
    if touches == [] then 0.0 else Total(touches[..|touches| - 1]) + touches[|touches| - 1].price
  }

  function PoolOf(group: Group): Pool {
    Pool((group.head.price + Total(group.rest)) / group.Count() as real, group.head.index, group.Last().index,
         group.Count())
  }

  function PoolsOf(groups: seq<Group>, minTouches: nat): seq<Pool> {
    if groups == [] then []
    else
      var group := groups[|groups| - 1];
      PoolsOf(groups[..|groups| - 1], minTouches) + (if group.Count() < minTouches then [] else [PoolOf(group)])
  }

  function Detected(prices: seq<real>, tolerance: real, minTouches: nat): seq<Pool> {
    PoolsOf(Clusters(prices, tolerance), minTouches)
  }

  ghost predicate MakesPool(group: Group, minTouches: nat, pool: Pool)
  {
    group.Count() >= minTouches && PoolOf(group) == pool
  }

  lemma {:induction false} PoolsComeFromGroups(groups: seq<Group>, minTouches: nat, pool: Pool)
    ensures pool in PoolsOf(groups, minTouches) <==> exists g :: g in groups && MakesPool(g, minTouches, pool)
  {
    hide PoolOf;
    if groups != [] {
      var before, group := groups[..|groups| - 1], groups[|groups| - 1];
      PoolsComeFromGroups(before, minTouches, pool);
      assert groups == before + [group];
      assert forall g | g in groups :: g in before || g == group;
      assert pool in (if group.Count() < minTouches then [] else [PoolOf(group)]) <==>
             MakesPool(group, minTouches, pool);
    }
  }

  /** Appending candles never removes a pool: it keeps its first index and can only gain touches, at the end. */
  lemma PoolsOnlyGrow(prices: seq<real>, longer: seq<real>, tolerance: real, minTouches: nat, pool: Pool)
    requires prices <= longer && pool in Detected(prices, tolerance, minTouches)
    ensures exists grown :: grown in Detected(longer, tolerance, minTouches)
              && grown.first == pool.first && grown.touches >= pool.touches && grown.last >= pool.last
              && (grown.touches == pool.touches ==> grown == pool)
  {
    hide Near, Clusters, Total;
    var groups, later := Clusters(prices, tolerance), Clusters(longer, tolerance);
    ClustersExtend(prices, longer, tolerance);
    PoolsComeFromGroups(groups, minTouches, pool);
    var g :| g in groups && MakesPool(g, minTouches, pool);
    var k :| 0 <= k < |groups| && groups[k] == g;
    assert Grown(g, later[k]);
    ClustersAreSound(longer, tolerance);
    PoolGrows(g, later[k], later, k, longer, tolerance);
    PoolsComeFromGroups(later, minTouches, PoolOf(later[k]));
    assert MakesPool(later[k], minTouches, PoolOf(later[k]));
  }

  lemma PoolGrows(group: Group, grown: Group, groups: seq<Group>, k: nat, prices: seq<real>, tolerance: real)
    requires Grown(group, grown) && Sound(groups, prices, tolerance) && k < |groups| && groups[k] == grown
    ensures PoolOf(grown).first == PoolOf(group).first && PoolOf(grown).touches >= PoolOf(group).touches
    ensures PoolOf(grown).last >= PoolOf(group).last
    ensures PoolOf(grown).touches == PoolOf(group).touches ==> grown == group
  {
    hide Near;
    assert grown.Get(group.Count() - 1) == group.Last();
    if group.Count() == grown.Count() { assert group.rest == grown.rest; }
  }

  /** Distinct pools start at distinct candles, so "the same pool later" is well defined. */
  lemma PoolsHaveTheirOwnStart(prices: seq<real>, tolerance: real, minTouches: nat, a: Pool, b: Pool)
    requires a in Detected(prices, tolerance, minTouches) && b in Detected(prices, tolerance, minTouches)
             && a.first == b.first
    ensures a == b
  {
    hide Clusters, Total;
    var groups := Clusters(prices, tolerance);
    PoolsComeFromGroups(groups, minTouches, a);
    PoolsComeFromGroups(groups, minTouches, b);
    ClustersArePartition(prices, tolerance);
    var g :| g in groups && MakesPool(g, minTouches, a);
    var k :| 0 <= k < |groups| && groups[k] == g;
    var f :| f in groups && MakesPool(f, minTouches, b);
    var h :| 0 <= h < |groups| && groups[h] == f;
    assert At(groups, a.first, k, 0) && At(groups, a.first, h, 0);
  }

  // ---------------------------------------------------------------- pools without groups

  /** Two prices differ by at most the tolerance, relative to the larger one. */
  predicate Close(a: real, b: real, tolerance: real) { Abs(a - b) <= tolerance * Max(Max(Abs(a), Abs(b)), TINY) }

  lemma NearExactly(a: real, b: real, tolerance: real)
    ensures Near(a, b, tolerance) <==> Close(a, b, tolerance)
  {
    var reference := Reference(a, b);
    var q := Abs(a - b) / reference;
    assert q * reference == Abs(a - b);
    if q <= tolerance { assert (tolerance - q) * reference >= 0.0; }
    else { assert (q - tolerance) * reference > 0.0; }
  }

  /** The price at `index` is close to none of the leading prices before it. */
  predicate Leads(prices: seq<real>, tolerance: real, index: nat)
    decreases index
  {
    index < |prices|
    && forall g: nat | g < index :: Leads(prices, tolerance, g) ==> !Close(prices[index], prices[g], tolerance)
  }

  /**
   The indices that belong to the leading price at `lead`: itself, and later close ones that no earlier lead takes.
   */
  function Members(prices: seq<real>, tolerance: real, lead: nat): (members: set<nat>)
    requires lead < |prices|
    ensures forall i | i in members :: lead <= i < |prices|
  {
    set i: nat | lead <= i < |prices| && (i == lead || Close(prices[i], prices[lead], tolerance))
                 && forall g: nat | g < lead :: Leads(prices, tolerance, g) ==> !Close(prices[i], prices[g], tolerance)
  }

  /** Heads stand in the order of their indices. */
  ghost predicate HeadsAscend(groups: seq<Group>, n: nat) {
    && (forall h, k | 0 <= h < k < |groups| :: groups[h].head.index < groups[k].head.index)
    && (forall k | 0 <= k < |groups| :: groups[k].head.index < n)
  }

  lemma {:induction false} ClustersAscend(prices: seq<real>, tolerance: real)
    ensures HeadsAscend(Clusters(prices, tolerance), |prices|)
  {
    hide Near, Assign, Placed;
    if prices != [] {
      var before := prices[..|prices| - 1];
      ClustersAscend(before, tolerance);
      var groups, t := Clusters(before, tolerance), Touch(|before|, prices[|before|]);
      var k := AssignTakes(groups, t, tolerance);
      PlacedAscend(groups, t, k);
    }
  }

  lemma PlacedAscend(groups: seq<Group>, t: Touch, k: nat)
    requires k <= |groups| && HeadsAscend(groups, t.index)
    ensures HeadsAscend(Placed(groups, t, k), t.index + 1)
  {}

  /** The heads of the groups are the leading prices. */
  lemma {:induction false} HeadsLead(prices: seq<real>, tolerance: real, index: nat)
    requires index < |prices|
    ensures Leads(prices, tolerance, index) <==> exists k: nat :: At(Clusters(prices, tolerance), index, k, 0)
    decreases index
  {
    var groups := Clusters(prices, tolerance);
    hide Clusters, Near, Close;
    ClustersAreSound(prices, tolerance);
    ClustersArePartition(prices, tolerance);
    ClustersAscend(prices, tolerance);
    assert Somewhere(groups, index);
    var k: nat, i: nat :| At(groups, index, k, i);
    assert Fits(groups, prices, tolerance, k, i) && Fits(groups, prices, tolerance, k, 0);
    forall g: nat | g < index
      ensures Leads(prices, tolerance, g) <==> exists h: nat :: At(groups, g, h, 0)
    {
      HeadsLead(prices, tolerance, g);
    }
    if i == 0 {
      forall g: nat | g < index && Leads(prices, tolerance, g) ensures !Close(prices[index], prices[g], tolerance) {
        var h: nat :| At(groups, g, h, 0);
        assert h < k;
        assert Fits(groups, prices, tolerance, h, 0);
        NearExactly(prices[index], prices[g], tolerance);
      }
    } else {
      var lead := groups[k].head.index;
      assert At(groups, lead, k, 0) && lead < index;
      NearExactly(prices[index], prices[lead], tolerance);
    }
  }

  /** What the clusters are known to be. */
  ghost predicate Clustered(groups: seq<Group>, prices: seq<real>, tolerance: real) {
    groups == Clusters(prices, tolerance) && Sound(groups, prices, tolerance) && Partition(groups, |prices|)
    && HeadsAscend(groups, |prices|)
  }

  lemma HeadLeads(groups: seq<Group>, prices: seq<real>, tolerance: real, h: nat)
    requires Clustered(groups, prices, tolerance) && h < |groups|
    ensures var lead := groups[h].head.index;
            lead < |prices| && groups[h].head.price == prices[lead] && Leads(prices, tolerance, lead)
  {
    hide Clusters, Near, Leads, Partition;
    assert Fits(groups, prices, tolerance, h, 0);
    HeadsLead(prices, tolerance, groups[h].head.index);
    assert At(Clusters(prices, tolerance), groups[h].head.index, h, 0);
  }

  lemma PlacedIsMember(groups: seq<Group>, prices: seq<real>, tolerance: real, k: nat, i: nat)
    requires Clustered(groups, prices, tolerance) && k < |groups| && i < groups[k].Count()
    ensures var lead := groups[k].head.index;
            lead < |prices| && groups[k].Get(i).index in Members(prices, tolerance, lead)
  {
    hide Clusters, Near, Close, Leads, Partition;
    var lead, index := groups[k].head.index, groups[k].Get(i).index;
    assert Fits(groups, prices, tolerance, k, 0) && Fits(groups, prices, tolerance, k, i);
    if i > 0 {
      assert groups[k].Get(0).index < index;
      NearExactly(prices[index], prices[lead], tolerance);
    }
    forall g: nat | g < lead && Leads(prices, tolerance, g) ensures !Close(prices[index], prices[g], tolerance) {
      HeadsLead(prices, tolerance, g);
      var h: nat :| At(groups, g, h, 0);
      assert h < k && Fits(groups, prices, tolerance, h, 0);
      NearExactly(prices[index], prices[g], tolerance);
    }
  }

  lemma MemberIsPlaced(groups: seq<Group>, prices: seq<real>, tolerance: real, k: nat, index: nat) returns (i: nat)
    requires Clustered(groups, prices, tolerance) && k < |groups| && groups[k].head.index < |prices|
    requires index in Members(prices, tolerance, groups[k].head.index)
    ensures At(groups, index, k, i)
  {
    hide Clusters, Near, Close, Leads;
    var lead := groups[k].head.index;
    assert Somewhere(groups, index);
    var h: nat, j: nat :| At(groups, index, h, j);
    i := j;
    assert Fits(groups, prices, tolerance, h, j) && Fits(groups, prices, tolerance, h, 0);
    HeadLeads(groups, prices, tolerance, h);
    HeadLeads(groups, prices, tolerance, k);
    NearExactly(prices[index], groups[h].head.price, tolerance);
    NearExactly(prices[index], groups[k].head.price, tolerance);
    assert At(groups, lead, k, 0);
    assert groups[h].head.index <= index && (j > 0 ==> groups[h].head.index < index);
  }

  ghost function Indices(group: Group): set<nat> { set i: nat | i < group.Count() :: group.Get(i).index }

  /** Every price under its index. */
  function ByIndex(prices: seq<real>): (byIndex: map<nat, real>)
    ensures forall i: nat :: i in byIndex <==> i < |prices|
  {
    map i: nat | i < |prices| :: prices[i]
  }

  ghost predicate AscendingTouches(group: Group, prices: seq<real>) {
    && (forall i: nat | i < group.Count() ::
          group.Get(i).index < |prices| && group.Get(i).price == prices[group.Get(i).index])
    && (forall i: nat, j: nat | i < j < group.Count() :: group.Get(i).index < group.Get(j).index)
  }

  lemma ShorterGroup(group: Group, prices: seq<real>)
    requires AscendingTouches(group, prices) && group.rest != []
    ensures var n: nat := |group.rest|;
      var (shorter, last) := (Group(group.head, group.rest[..n - 1]), group.rest[n - 1]);
      && AscendingTouches(shorter, prices) && shorter.Last().index < last.index < |prices|
      && last.price == prices[last.index] && Indices(group) == Indices(shorter) + {last.index}
      && group.Last() == last && Total(group.rest) == Total(shorter.rest) + last.price
  {
    var n: nat := |group.rest|;
    var shorter, last := Group(group.head, group.rest[..n - 1]), group.rest[n - 1];
    assert forall i: nat | i < n :: shorter.Get(i) == group.Get(i);
    assert group.Get(n) == last && group.Get(n - 1) == shorter.Last();
  }

  lemma AddTouch(indices: set<nat>, index: nat, below: nat, prices: seq<real>)
    requires indices <= ByIndex(prices).Keys && below < index < |prices| && forall i | i in indices :: i <= below
    ensures indices + {index} <= ByIndex(prices).Keys && |indices + {index}| == |indices| + 1
    ensures Sum(ByIndex(prices), indices + {index}) == Sum(ByIndex(prices), indices) + prices[index]
    ensures forall i | i in indices + {index} :: i <= index
  {
    assert index !in indices;
    SumPut(ByIndex(prices), indices, index);
  }

  lemma {:induction false} GroupSums(group: Group, prices: seq<real>)
    requires AscendingTouches(group, prices)
    ensures Indices(group) <= ByIndex(prices).Keys && |Indices(group)| == group.Count()
    ensures Sum(ByIndex(prices), Indices(group)) == group.head.price + Total(group.rest)
    ensures forall index | index in Indices(group) :: index <= group.Last().index
    ensures group.Last().index in Indices(group)
    decreases |group.rest|
  {
    hide AscendingTouches, Indices, Sum, Total;
    var n: nat := |group.rest|;
    if n == 0 {
      OneTouch(group, prices);
    } else {
      var shorter, last := Group(group.head, group.rest[..n - 1]), group.rest[n - 1];
      ShorterGroup(group, prices);
      GroupSums(shorter, prices);
      AddTouch(Indices(shorter), last.index, shorter.Last().index, prices);
    }
  }

  lemma OneTouch(group: Group, prices: seq<real>)
    requires AscendingTouches(group, prices) && group.rest == []
    ensures Indices(group) == {group.head.index} && group.Last() == group.head && group.head.index < |prices|
    ensures Sum(ByIndex(prices), {group.head.index}) == group.head.price && Total([]) == 0.0
  {
    assert group.Get(0) == group.head;
    assert {group.head.index} - {group.head.index} == {};
    SumTake(ByIndex(prices), {group.head.index}, group.head.index);
  }

  /** A pool of the leading price at `lead`: the mean, the first, the last and the number of its members. */
  ghost predicate PoolAt(prices: seq<real>, tolerance: real, minTouches: nat, lead: nat, pool: Pool) {
    lead < |prices| && Leads(prices, tolerance, lead)
    && var members := Members(prices, tolerance, lead);
      && members <= ByIndex(prices).Keys && |members| >= minTouches
      && pool.first == lead && pool.last in members && (forall i | i in members :: i <= pool.last)
      && pool.touches == |members| && pool.price * |members| as real == Sum(ByIndex(prices), members)
  }

  lemma GroupAscends(groups: seq<Group>, prices: seq<real>, tolerance: real, k: nat)
    requires Clustered(groups, prices, tolerance) && k < |groups|
    ensures AscendingTouches(groups[k], prices)
  {
    hide Clusters, Near, Partition, HeadsAscend;
    var group := groups[k];
    forall i: nat | i < group.Count()
      ensures group.Get(i).index < |prices| && group.Get(i).price == prices[group.Get(i).index]
    {
      assert Fits(groups, prices, tolerance, k, i);
    }
  }

  lemma GroupIsMembers(groups: seq<Group>, prices: seq<real>, tolerance: real, k: nat)
    requires Clustered(groups, prices, tolerance) && k < |groups| && groups[k].head.index < |prices|
    ensures Indices(groups[k]) == Members(prices, tolerance, groups[k].head.index)
  {
    hide Clustered, Members;
    var group := groups[k];
    forall index: nat ensures index in Indices(group) <==> index in Members(prices, tolerance, group.head.index) {
      if index in Indices(group) {
        var i: nat :| i < group.Count() && group.Get(i).index == index;
        PlacedIsMember(groups, prices, tolerance, k, i);
      }
      if index in Members(prices, tolerance, group.head.index) {
        var i := MemberIsPlaced(groups, prices, tolerance, k, index);
      }
    }
  }

  lemma GroupMakesPool(groups: seq<Group>, prices: seq<real>, tolerance: real, minTouches: nat, k: nat, pool: Pool)
    requires Clustered(groups, prices, tolerance) && k < |groups|
    ensures MakesPool(groups[k], minTouches, pool) <==>
            PoolAt(prices, tolerance, minTouches, groups[k].head.index, pool)
  {
    hide Clustered, Leads, Members, Indices, AscendingTouches, Total, Sum;
    var group := groups[k];
    HeadLeads(groups, prices, tolerance, k);
    GroupAscends(groups, prices, tolerance, k);
    GroupIsMembers(groups, prices, tolerance, k);
    GroupSums(group, prices);
    MeanOf(pool.price, group.head.price + Total(group.rest), group.Count());
  }

  lemma MeanOf(mean: real, sum: real, count: nat)
    requires count > 0
    ensures mean == sum / count as real <==> mean * count as real == sum
  {
    var n := count as real;
    assert (sum / n) * n == sum && (mean * n) / n == mean;
  }

  /**
   The pools, without groups: a price leads when it is close to no earlier leading price, its members are the
   prices from it on that are close to it and to no earlier leading one, and every lead with enough members is
   a pool, with the mean of their prices, the last of their indices and their number.
   */
  lemma DetectedExactly(prices: seq<real>, tolerance: real, minTouches: nat, pool: Pool)
    ensures pool in Detected(prices, tolerance, minTouches) <==>
            exists lead: nat :: PoolAt(prices, tolerance, minTouches, lead, pool)
  {
    var groups := Clusters(prices, tolerance);
    ClustersAreSound(prices, tolerance);
    ClustersArePartition(prices, tolerance);
    ClustersAscend(prices, tolerance);
    PoolsComeFromGroups(groups, minTouches, pool);
    hide Clusters, Sound, Partition, HeadsAscend, MakesPool, PoolAt;
    forall k: nat | k < |groups|
      ensures MakesPool(groups[k], minTouches, pool) <==>
              PoolAt(prices, tolerance, minTouches, groups[k].head.index, pool)
    {
      GroupMakesPool(groups, prices, tolerance, minTouches, k, pool);
    }
    forall lead: nat | PoolAt(prices, tolerance, minTouches, lead, pool)
      ensures exists k: nat :: k < |groups| && groups[k].head.index == lead
    {
      LeadOfPool(prices, tolerance, minTouches, lead, pool);
      HeadsLead(prices, tolerance, lead);
      var k: nat :| At(groups, lead, k, 0);
    }
  }

  lemma LeadOfPool(prices: seq<real>, tolerance: real, minTouches: nat, lead: nat, pool: Pool)
    requires PoolAt(prices, tolerance, minTouches, lead, pool)
    ensures lead < |prices| && Leads(prices, tolerance, lead)
  {
    hide Leads, Members;
  }

  // ---------------------------------------------------------------- the engine

  datatype Candle = Candle(high: real, low: real)

  function Highs(candles: seq<Candle>): seq<real> { seq(|candles|, i requires 0 <= i < |candles| => candles[i].high) }
  function Lows(candles: seq<Candle>): seq<real> { seq(|candles|, i requires 0 <= i < |candles| => candles[i].low) }

  class LiquidityEngine {
    const tolerance: real
    const minTouches: nat

    constructor (tolerance: real, minTouches: nat)
      requires tolerance > 0.0 && minTouches >= 2
      ensures this.tolerance == tolerance && this.minTouches == minTouches
    {
      this.tolerance, this.minTouches := tolerance, minTouches;
    }

    method DetectPools(candles: seq<Candle>) returns (buySide: seq<Pool>, sellSide: seq<Pool>)
      ensures buySide == Detected(Highs(candles), tolerance, minTouches)
      ensures sellSide == Detected(Lows(candles), tolerance, minTouches)
    {
      hide Assign, Near;
      var highGroups: seq<Group>, lowGroups: seq<Group> := [], [];
      for index := 0 to |candles|
        invariant highGroups == Clusters(Highs(candles[..index]), tolerance)
        invariant lowGroups == Clusters(Lows(candles[..index]), tolerance)
      {
        var candle := candles[index];
        assert Highs(candles[..index + 1])[..index] == Highs(candles[..index]);
        assert Lows(candles[..index + 1])[..index] == Lows(candles[..index]);
        highGroups := Match(highGroups, Touch(index, candle.high));
        lowGroups := Match(lowGroups, Touch(index, candle.low));
      }
      assert candles[..|candles|] == candles;
      buySide := Collect(highGroups);
      sellSide := Collect(lowGroups);
    }

    /** The inner loop over groups, with its flag and its break. */
    method Match(groups: seq<Group>, t: Touch) returns (next: seq<Group>)
      ensures next == Assign(groups, t, tolerance)
    {
      hide Near;
      next := groups;
      var matched := false;
      var k := 0;
      while k < |groups|
        invariant 0 <= k <= |groups| && !matched && next == groups
        invariant groups[..k] + Assign(groups[k..], t, tolerance) == Assign(groups, t, tolerance)
      {
        if Near(t.price, groups[k].head.price, tolerance) {
          next := next[k := next[k].Plus(t)];
          matched := true;
          assert next == groups[..k] + Assign(groups[k..], t, tolerance);
          break;
        }
        assert groups[k..][1..] == groups[k + 1..];
        assert groups[..k + 1] == groups[..k] + [groups[k]];
        k := k + 1;
      }
      if !matched {
        next := next + [Group(t, [])];
      }
    }

    method Collect(groups: seq<Group>) returns (pools: seq<Pool>)
      ensures pools == PoolsOf(groups, minTouches)
    {
      pools := [];
      for k := 0 to |groups|
        invariant pools == PoolsOf(groups[..k], minTouches)
      {
        assert groups[..k + 1][..k] == groups[..k];
        if groups[k].Count() < minTouches {
          continue;
        }
        var sum := groups[k].head.price;
        for i := 0 to |groups[k].rest|
          invariant sum == groups[k].head.price + Total(groups[k].rest[..i])
        {
          assert groups[k].rest[..i + 1][..i] == groups[k].rest[..i];
          sum := sum + groups[k].rest[i].price;
        }
        assert groups[k].rest[..|groups[k].rest|] == groups[k].rest;
        pools := pools + [Pool(sum / groups[k].Count() as real, groups[k].head.index, groups[k].Last().index,
                               groups[k].Count())];
      }
      assert groups[..|groups|] == groups;
    }
  }
}
