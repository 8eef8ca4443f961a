/** Greedy clustering of sorted prices around a running mean. */
module Clustering {
  import opened Common
  import opened Numbers
  import opened Sorting
  import opened Sums

  type Group = g: seq<real> | |g| > 0 witness [0.0]

  function Self(p: real): real {
    p
  }

  ghost predicate Ascending(ps: seq<real>) {
    forall i, j :: 0 <= i < j < |ps| ==> ps[i] <= ps[j]
  }

  ghost predicate Positive(ps: seq<real>) {
    forall i :: 0 <= i < |ps| ==> ps[i] > 0.0
  }

  predicate Joins(p: real, centre: real, tolerancePct: real)
    requires centre != 0.0
  {
    Abs(p - centre) / centre * 100.0 <= tolerancePct
  }

  /** The groups of a sorted list; None when a running mean is zero and the division raises. */
  function Groups(ps: seq<real>, tol: real): (gs: Option<seq<Group>>)
    ensures gs.Some? && ps != [] ==> gs.value != []
  {
    if ps == [] then Some([])
    else if |ps| == 1 then Some([[ps[0]]])
    else
      match Groups(Front(ps), tol)
      case None => None
      case Some(gs) => Place(gs, Last(ps), tol)
  }

  /** One more price: into the last group, or into a new one. */
  function Place(gs: seq<Group>, p: real, tol: real): (r: Option<seq<Group>>)
    requires gs != []
    ensures r.Some? ==> r.value != []
  {
    var centre := Mean(Last(gs));
    if centre == 0.0 then None
    else if Joins(p, centre, tol) then Some(Front(gs) + [Last(gs) + [p]])
    else Some(gs + [[p]])
  }

  function Means(gs: seq<Group>): (ms: seq<real>)
    ensures |ms| == |gs| && forall i :: 0 <= i < |gs| ==> ms[i] == Mean(gs[i])
  {
    seq(|gs|, i requires 0 <= i < |gs| => Mean(gs[i]))
  }

  function Clustered(prices: seq<real>, tol: real): Option<seq<real>> {
    match Groups(SortBy(prices, Self), tol)
    case None => None
    case Some(gs) => Some(Means(gs))
  }

  method Cluster(prices: seq<real>, tolerancePct: real) returns (levels: Option<seq<real>>)
    ensures levels == Clustered(prices, tolerancePct)
  {
    hide Groups, Joins, Sum, SortBy, Place, Abs;
    GroupsStart(SortBy(prices, Self), tolerancePct);
    if prices == [] {
      assert SortBy(prices, Self) == [] by {
        SameLength(prices);
      }
      assert Means([]) == [];
      return Some([]);
    }
    var sorted := SortBy(prices, Self);
    SameLength(prices);
    var clusters: seq<Group> := [[sorted[0]]];
    for n := 1 to |sorted|
      invariant clusters != [] && Groups(sorted[..n], tolerancePct) == Some(clusters)
    {
      GroupsNext(sorted, n, tolerancePct);
      var p, centre := sorted[n], Sum(Last(clusters)) / |Last(clusters)| as real;
      PlaceCases(clusters, p, tolerancePct);
      if centre == 0.0 {
        GroupsRaise(sorted, n + 1, tolerancePct);
        return None;
      }
      if Abs(p - centre) / centre * 100.0 <= tolerancePct {
        clusters := Front(clusters) + [Last(clusters) + [p]];
      } else {
        clusters := clusters + [[p]];
      }
    }
    assert sorted[..|sorted|] == sorted;
    var means: seq<real> := [];
    for i := 0 to |clusters|
      invariant means == Means(clusters)[..i]
    {
      means := means + [Sum(clusters[i]) / |clusters[i]| as real];
    }
    assert means == Means(clusters);
    levels := Some(means);
  }

  lemma SameLength(prices: seq<real>)
    ensures |SortBy(prices, Self)| == |prices|
  {
    var ps := SortBy(prices, Self);
    assert |ps| == |multiset(ps)| == |multiset(prices)| == |prices|;
  }

  lemma GroupsStart(ps: seq<real>, tol: real)
    ensures Groups([], tol) == Some([])
    ensures ps != [] ==> Groups(ps[..1], tol) == Some([[ps[0]]])
  {
  }

  lemma PlaceCases(gs: seq<Group>, p: real, tol: real)
    requires gs != []
    ensures var centre := Sum(Last(gs)) / |Last(gs)| as real;
            Place(gs, p, tol) ==
            if centre == 0.0 then None
            else if Abs(p - centre) / centre * 100.0 <= tol then Some(Front(gs) + [Last(gs) + [p]])
            else Some(gs + [[p]])
  {
  }

  lemma GroupsNext(ps: seq<real>, n: nat, tol: real)
    requires 1 <= n < |ps| && Groups(ps[..n], tol).Some?
    ensures Groups(ps[..n + 1], tol) == Place(Groups(ps[..n], tol).value, ps[n], tol)
  {
    assert ps[..n + 1] == ps[..n] + [ps[n]];
    AppendFrontLast(ps[..n], ps[n]);
  }

  lemma {:induction false} GroupsRaise(ps: seq<real>, n: nat, tol: real)
    requires n <= |ps| && Groups(ps[..n], tol).None?
    ensures Groups(ps, tol).None?
    decreases |ps|
  {
    if n == |ps| {
      assert ps[..n] == ps;
    } else {
      assert Front(ps)[..n] == ps[..n];
      GroupsRaise(Front(ps), n, tol);
    }
  }

  // ---- What a clustering is, independently of how it is computed ----

  function Flatten(gs: seq<Group>): seq<real> {
    if gs == [] then [] else Flatten(Front(gs)) + Last(gs)
  }

  /** Every price but the first of its group was within tolerance of the mean of those before it. */
  ghost predicate Cohesive(g: Group, tol: real) {
    forall k :: 0 < k < |g| ==> Mean(g[..k]) != 0.0 && Joins(g[k], Mean(g[..k]), tol)
  }

  /** The first price of a later group was out of tolerance of the finished group before it. */
  ghost predicate Apart(g: Group, h: Group, tol: real) {
    Mean(g) != 0.0 && !Joins(h[0], Mean(g), tol)
  }

  ghost predicate Greedy(gs: seq<Group>, tol: real) {
    && (forall i :: 0 <= i < |gs| ==> Cohesive(gs[i], tol))
    && (forall i :: 0 <= i < |gs| - 1 ==> Apart(gs[i], gs[i + 1], tol))
  }

  lemma FlattenSnoc(gs: seq<Group>, g: Group)
    ensures Flatten(gs + [g]) == Flatten(gs) + g
  {
    assert Front(gs + [g]) == gs;
  }

  lemma CohesiveSnoc(g: Group, p: real, tol: real)
    requires Cohesive(g, tol) && Mean(g) != 0.0 && Joins(p, Mean(g), tol)
    ensures Cohesive(g + [p], tol)
  {
    forall k | 0 < k < |g + [p]|
      ensures Mean((g + [p])[..k]) != 0.0 && Joins((g + [p])[k], Mean((g + [p])[..k]), tol)
    {
      if k < |g| {
        assert (g + [p])[..k] == g[..k];
      } else {
        assert (g + [p])[..k] == g;
      }
    }
  }

  lemma PlaceGreedy(gs: seq<Group>, p: real, tol: real)
    requires gs != [] && Greedy(gs, tol) && Place(gs, p, tol).Some?
    ensures Greedy(Place(gs, p, tol).value, tol)
    ensures Flatten(Place(gs, p, tol).value) == Flatten(gs) + [p]
  {
    var g := Last(gs);
    FrontLast(gs);
    FlattenSnoc(Front(gs), g);
    if Joins(p, Mean(g), tol) {
      CohesiveSnoc(g, p, tol);
      FlattenSnoc(Front(gs), g + [p]);
      var hs := Front(gs) + [g + [p]];
      forall i | 0 <= i < |hs| - 1
        ensures Apart(hs[i], hs[i + 1], tol)
      {
        assert Apart(gs[i], gs[i + 1], tol);
      }
    } else {
      FlattenSnoc(gs, [p]);
      assert Cohesive([p], tol);
    }
  }

  /** The groups partition the list into contiguous greedy runs. */
  lemma {:induction false} GroupsPartition(ps: seq<real>, tol: real)
    requires Groups(ps, tol).Some?
    ensures Flatten(Groups(ps, tol).value) == ps && Greedy(Groups(ps, tol).value, tol)
  {
    if |ps| == 1 {
      assert Flatten([[ps[0]]]) == Flatten([]) + [ps[0]] by {
        assert Front([[ps[0]]]) == [];
      }
    } else if ps != [] {
      GroupsPartition(Front(ps), tol);
      PlaceGreedy(Groups(Front(ps), tol).value, Last(ps), tol);
    }
  }

  lemma {:induction false} FlattenLonger(gs: seq<Group>)
    ensures |Flatten(gs)| >= |gs|
  {
    if gs != [] {
      FlattenLonger(Front(gs));
    }
  }

  lemma CohesiveFront(g: Group, tol: real)
    requires |g| > 1 && Cohesive(g, tol)
    ensures Cohesive(Front(g), tol)
    ensures Mean(Front(g)) != 0.0 && Joins(Last(g), Mean(Front(g)), tol)
  {
    hide Mean, Joins;
    var f: Group := Front(g);
    assert g[..|g| - 1] == f;
    forall k | 0 < k < |f|
      ensures Mean(f[..k]) != 0.0 && Joins(f[k], Mean(f[..k]), tol)
    {
      assert f[..k] == g[..k];
    }
  }

  /** Without its last price, a greedy partition is one of the shorter list. */
  lemma DropLast(gs: seq<Group>, tol: real) returns (hs: seq<Group>)
    requires gs != [] && Greedy(gs, tol) && |Flatten(gs)| > 1
    ensures Flatten(hs) == Front(Flatten(gs)) && Greedy(hs, tol)
    ensures hs != [] && Place(hs, Last(Flatten(gs)), tol) == Some(gs)
  {
    hide Mean, Joins, Cohesive;
    var g := Last(gs);
    FrontLast(gs);
    FlattenSnoc(Front(gs), g);
    if |g| == 1 {
      hs := Front(gs);
      assert g == [g[0]];
      assert Flatten(gs) == Flatten(hs) + [g[0]];
      assert hs != [];
      assert Apart(gs[|gs| - 2], gs[|gs| - 1], tol);
      FrontGreedy(gs, tol);
    } else {
      hs := Shorten(gs, tol);
    }
  }

  lemma FrontGreedy(gs: seq<Group>, tol: real)
    requires gs != [] && Greedy(gs, tol)
    ensures Greedy(Front(gs), tol)
  {
    hide Apart, Cohesive;
    var hs := Front(gs);
    forall i | 0 <= i < |hs| - 1
      ensures Apart(hs[i], hs[i + 1], tol)
    {
      assert Apart(gs[i], gs[i + 1], tol);
    }
  }

  lemma Shorten(gs: seq<Group>, tol: real) returns (hs: seq<Group>)
    requires gs != [] && Greedy(gs, tol) && |Last(gs)| > 1
    ensures Flatten(hs) == Front(Flatten(gs)) && Greedy(hs, tol)
    ensures hs != [] && Flatten(gs) != [] && Place(hs, Last(Flatten(gs)), tol) == Some(gs)
  {
    hide Mean, Joins, Cohesive, Flatten;
    var g := Last(gs);
    FrontLast(gs);
    FrontLast(g);
    FlattenSnoc(Front(gs), g);
    var f: Group := Front(g);
    hs := Front(gs) + [f];
    FlattenSnoc(Front(gs), f);
    assert Flatten(gs) == Flatten(hs) + [Last(g)];
    assert Cohesive(gs[|gs| - 1], tol);
    CohesiveFront(g, tol);
    forall i | 0 <= i < |hs| - 1
      ensures Apart(hs[i], hs[i + 1], tol)
    {
      assert Apart(gs[i], gs[i + 1], tol);
    }
    assert Front(hs) == Front(gs);
  }

  /** There is only one greedy partition, and it is the computed one. */
  lemma {:induction false} GreedyIsUnique(gs: seq<Group>, tol: real)
    requires Greedy(gs, tol)
    ensures Groups(Flatten(gs), tol) == Some(gs)
    decreases |Flatten(gs)|
  {
    hide Mean, Joins, Place, Greedy;
    if gs != [] {
      FrontLast(gs);
      FlattenSnoc(Front(gs), Last(gs));
      if |Flatten(gs)| == 1 {
        FlattenLonger(Front(gs));
        assert Front(gs) == [];
        assert gs == [Last(gs)] && Last(gs) == [Last(gs)[0]];
        assert Flatten([]) == [];
        assert Last(gs) == Flatten(gs);
      } else {
        var hs := DropLast(gs, tol);
        GreedyIsUnique(hs, tol);
      }
    }
  }

  // ---- Positive prices, non-negative tolerance ----

  lemma JoinsAsProduct(p: real, centre: real, tol: real)
    requires centre > 0.0 && p >= centre
    ensures Joins(p, centre, tol) <==> (p - centre) * 100.0 <= tol * centre
  {
    DivideTimes(p - centre, centre);
    ScaleOrder((p - centre) / centre * 100.0, tol, centre);
    assert (p - centre) / centre * 100.0 * centre == (p - centre) / centre * centre * 100.0;
  }

  /** Every group holds ascending positive prices, and groups do not overlap. */
  ghost predicate Ordered(gs: seq<Group>) {
    && (forall i :: 0 <= i < |gs| ==> Ascending(gs[i]) && gs[i][0] > 0.0)
    && (forall i :: 0 <= i < |gs| - 1 ==> Last(gs[i]) <= gs[i + 1][0])
  }

  /** A mean of ascending prices lies between the first and the last of them. */
  lemma MeanInside(g: Group)
    requires Ascending(g)
    ensures g[0] <= Mean(g) <= Last(g)
  {
    MeanBounds(g, g[0], Last(g));
  }

  /** On ascending positive prices the division never raises. */
  lemma {:induction false} GroupsOrdered(ps: seq<real>, tol: real)
    requires Ascending(ps) && Positive(ps)
    ensures Groups(ps, tol).Some? && Ordered(Groups(ps, tol).value)
    ensures ps != [] ==> Last(Last(Groups(ps, tol).value)) == Last(ps)
  {
    if |ps| > 1 {
      GroupsOrdered(Front(ps), tol);
      var gs, p := Groups(Front(ps), tol).value, Last(ps);
      MeanInside(Last(gs));
      assert Last(Front(ps)) <= p;
      PlaceOrdered(gs, p, tol);
    }
  }

  lemma PlaceOrdered(gs: seq<Group>, p: real, tol: real)
    requires gs != [] && Ordered(gs) && Last(Last(gs)) <= p && Mean(Last(gs)) != 0.0
    ensures Ordered(Place(gs, p, tol).value) && Last(Last(Place(gs, p, tol).value)) == p
  {
    var g, hs := Last(gs), Place(gs, p, tol).value;
    assert Ascending(g) && g[0] > 0.0;
    assert Ascending(g + [p]) by {
      assert forall i :: 0 <= i < |g| ==> g[i] <= Last(g);
    }
    if Joins(p, Mean(g), tol) {
      forall i | 0 <= i < |hs| - 1
        ensures Last(hs[i]) <= hs[i + 1][0]
      {
        assert Last(gs[i]) <= gs[i + 1][0];
      }
    } else {
      assert Ascending([p]);
      forall i | 0 <= i < |hs| - 1
        ensures Last(hs[i]) <= hs[i + 1][0]
      {
        assert i < |gs| - 1 ==> Last(gs[i]) <= gs[i + 1][0];
      }
    }
  }

  /** More than the tolerance apart, relative to the lower price. */
  ghost predicate Separated(ps: seq<real>, tol: real) {
    forall i, j :: 0 <= i < j < |ps| ==> (ps[j] - ps[i]) * 100.0 > tol * ps[i]
  }

  lemma NeighboursApart(gs: seq<Group>, tol: real, i: nat)
    requires Ordered(gs) && Greedy(gs, tol) && i < |gs| - 1
    ensures Mean(gs[i]) > 0.0
    ensures (Mean(gs[i + 1]) - Mean(gs[i])) * 100.0 > tol * Mean(gs[i])
  {
    hide Mean, Joins, Cohesive;
    assert Ascending(gs[i]) && Ascending(gs[i + 1]);
    MeanInside(gs[i]);
    MeanInside(gs[i + 1]);
    assert Apart(gs[i], gs[i + 1], tol);
    JoinsAsProduct(gs[i + 1][0], Mean(gs[i]), tol);
  }

  lemma {:induction false} MeansApart(gs: seq<Group>, tol: real, i: nat, j: nat)
    requires Ordered(gs) && Greedy(gs, tol) && tol >= 0.0 && i < j < |gs|
    ensures 0.0 < Mean(gs[i]) < Mean(gs[j])
    ensures (Mean(gs[j]) - Mean(gs[i])) * 100.0 > tol * Mean(gs[i])
    decreases j
  {
    hide Mean, Greedy, Ordered;
    NeighboursApart(gs, tol, j - 1);
    NonNegative(tol, Mean(gs[j - 1]));
    if i < j - 1 {
      MeansApart(gs, tol, i, j - 1);
    }
  }

  lemma NonNegative(x: real, y: real)
    requires x >= 0.0 && y >= 0.0
    ensures x * y >= 0.0
  {
  }

  /** Clustering positive prices gives strictly increasing levels more than the tolerance apart. */
  lemma {:induction false} LevelsSeparated(prices: seq<real>, tol: real)
    requires Positive(prices) && tol >= 0.0
    ensures Clustered(prices, tol).Some?
    ensures var ls := Clustered(prices, tol).value;
            Positive(ls) && Separated(ls, tol) && forall i, j :: 0 <= i < j < |ls| ==> ls[i] < ls[j]
  {
    hide *;
    var gs := SortedGroups(prices, tol);
    MeansSeparated(gs, tol);
    ClusteredIsMeans(prices, tol, gs);
  }

  lemma ClusteredIsMeans(prices: seq<real>, tol: real, gs: seq<Group>)
    requires Groups(SortBy(prices, Self), tol) == Some(gs)
    ensures Clustered(prices, tol) == Some(Means(gs))
  {
  }

  lemma MeansSeparated(gs: seq<Group>, tol: real)
    requires Ordered(gs) && Greedy(gs, tol) && tol >= 0.0
    ensures var ls := Means(gs);
            Positive(ls) && Separated(ls, tol) && forall i, j :: 0 <= i < j < |ls| ==> ls[i] < ls[j]
  {
    hide Mean, Greedy, Means;
    var ls := Means(gs);
    forall i | 0 <= i < |ls|
      ensures ls[i] > 0.0
    {
      MeanInside(gs[i]);
    }
    hide Ordered;
    forall i, j | 0 <= i < j < |ls|
      ensures ls[i] < ls[j] && (ls[j] - ls[i]) * 100.0 > tol * ls[i]
    {
      MeansApart(gs, tol, i, j);
    }
  }

  lemma SortedPrices(prices: seq<real>)
    requires Positive(prices)
    ensures var ps := SortBy(prices, Self); Ascending(ps) && Positive(ps) && |ps| == |prices|
  {
    var ps := SortBy(prices, Self);
    SortBySorted(prices, Self);
    forall i, j | 0 <= i < j < |ps|
      ensures ps[i] <= ps[j]
    {
      assert Self(ps[i]) <= Self(ps[j]);
    }
    assert |ps| == |multiset(ps)| == |multiset(prices)| == |prices|;
    forall i | 0 <= i < |ps|
      ensures ps[i] > 0.0
    {
      assert ps[i] in multiset(ps);
      assert ps[i] in prices;
    }
  }

  lemma SortedGroups(prices: seq<real>, tol: real) returns (gs: seq<Group>)
    requires Positive(prices)
    ensures Groups(SortBy(prices, Self), tol) == Some(gs)
    ensures Ordered(gs) && Greedy(gs, tol) && multiset(Flatten(gs)) == multiset(prices)
  {
    var ps := SortBy(prices, Self);
    SortedPrices(prices);
    GroupsOrdered(ps, tol);
    GroupsPartition(ps, tol);
    gs := Groups(ps, tol).value;
  }

  /** Each level lies within the prices of its own group, and every price is in exactly one group. */
  lemma {:induction false} LevelsInsideGroups(prices: seq<real>, tol: real) returns (gs: seq<Group>)
    requires Positive(prices)
    ensures Clustered(prices, tol) == Some(Means(gs)) && multiset(Flatten(gs)) == multiset(prices)
    ensures forall i :: 0 <= i < |gs| ==> Ascending(gs[i]) && gs[i][0] <= Mean(gs[i]) <= Last(gs[i])
    ensures forall i :: 0 <= i < |gs| ==> gs[i][0] in prices && Last(gs[i]) in prices
  {
    gs := SortedGroups(prices, tol);
    forall i | 0 <= i < |gs|
      ensures gs[i][0] <= Mean(gs[i]) <= Last(gs[i]) && gs[i][0] in prices && Last(gs[i]) in prices
    {
      MeanInside(gs[i]);
      InFlatten(gs, i, gs[i][0]);
      InFlatten(gs, i, Last(gs[i]));
      assert gs[i][0] in multiset(prices) && Last(gs[i]) in multiset(prices);
    }
  }

  lemma {:induction false} InFlatten(gs: seq<Group>, i: nat, p: real)
    requires i < |gs| && p in gs[i]
    ensures p in Flatten(gs)
    ensures p in multiset(Flatten(gs))
  {
    if i < |gs| - 1 {
      InFlatten(Front(gs), i, p);
      assert p in Flatten(Front(gs));
    }
  }

  function Singletons(ps: seq<real>): (gs: seq<Group>)
    ensures |gs| == |ps| && forall i :: 0 <= i < |ps| ==> gs[i] == [ps[i]]
  {
    seq(|ps|, i requires 0 <= i < |ps| => [ps[i]])
  }

  lemma {:induction false} FlattenSingletons(ps: seq<real>)
    ensures Flatten(Singletons(ps)) == ps
  {
    if ps != [] {
      FlattenSingletons(Front(ps));
      assert Front(Singletons(ps)) == Singletons(Front(ps));
      FrontLast(ps);
    }
  }

  /** Increasing separated positive prices are their own clustering. */
  lemma SeparatedIsFixed(ps: seq<real>, tol: real)
    requires Positive(ps) && Separated(ps, tol) && Ascending(ps)
    ensures Clustered(ps, tol) == Some(ps)
  {
    hide Mean, Sum, Groups, Joins, Flatten, SortBy;
    assert SortedBy(ps, Self);
    SortByFixed(ps, Self);
    var gs := Singletons(ps);
    FlattenSingletons(ps);
    forall i | 0 <= i < |gs| - 1
      ensures Apart(gs[i], gs[i + 1], tol)
    {
      MeanOfOne(ps[i]);
      JoinsAsProduct(ps[i + 1], ps[i], tol);
    }
    assert forall i :: 0 <= i < |gs| ==> Cohesive(gs[i], tol);
    GreedyIsUnique(gs, tol);
    forall i | 0 <= i < |ps|
      ensures Means(gs)[i] == ps[i]
    {
      MeanOfOne(ps[i]);
    }
    assert Means(gs) == ps;
  }

  /** Clustering is idempotent. */
  lemma {:induction false} ClusteringIdempotent(prices: seq<real>, tol: real)
    requires Positive(prices) && tol >= 0.0
    ensures Clustered(prices, tol).Some?
    ensures Clustered(Clustered(prices, tol).value, tol) == Clustered(prices, tol)
  {
    LevelsSeparated(prices, tol);
    SeparatedIsFixed(Clustered(prices, tol).value, tol);
  }

  /** The lists clustering leaves alone are exactly the increasing, separated ones. */
  lemma {:induction false} FixedIffSeparated(ps: seq<real>, tol: real)
    requires Positive(ps) && tol >= 0.0
    ensures Clustered(ps, tol) == Some(ps) <==> Ascending(ps) && Separated(ps, tol)
  {
    LevelsSeparated(ps, tol);
    if Ascending(ps) && Separated(ps, tol) {
      SeparatedIsFixed(ps, tol);
    }
  }
}
