/** Yen's K-shortest enumeration over the eligible view (src/search.cpp, EnumerateCandidatePaths). */
module Yen {
  import opened Wrappers
  import opened Counting
  import opened Sorting
  import opened View
  import opened Order
  import opened Queue
  import opened Expanded
  import opened Search
  import opened Effort
  import opened PathCosts
  import opened Ranking
  import opened BanSets
  import opened YenSpec
  import opened YenProof

  datatype Failure = NoStructuralPath | CostOverflow | WorkBudgetExhausted

  datatype Listing = Listing(limited: bool, failure: Failure, paths: seq<Ranked>)

  /** A simple path in a view of this size always has a representable hop count. */
  predicate HopsFit(v: View) {
    v.NodeCount() <= MAX_HOP_COUNT + 1
  }

  method ContainsRawPath(paths: seq<Ranked>, candidate: RawPath) returns (b: bool)
    ensures b <==> exists k :: 0 <= k < |paths| && paths[k].path == candidate
  {
    for k := 0 to |paths|
      invariant forall l :: 0 <= l < k ==> paths[l].path != candidate
    {
      if paths[k].path == candidate {
        return true;
      }
    }
    b := false;
  }

  /** Nodes before hop j of prev, and the entries taken by accepted paths with the same node root. */
  method BuildSpurBans(accepted: seq<Ranked>, prev: RawPath, j: nat) returns (bans: Bans)
    requires j < |prev.adjacency| && |prev.nodes| == |prev.adjacency| + 1
    requires forall i :: 0 <= i < |accepted| ==> |accepted[i].path.nodes| == |accepted[i].path.adjacency| + 1
    ensures SpurBans(accepted, prev, j, bans)
  {
    var banned := new BanSet();
    for i := 0 to j
      invariant banned.Valid() && banned.Contents().entries == {} && fresh(banned)
      invariant forall u :: u in banned.Contents().nodes <==> u in prev.nodes[..i]
    {
      banned.AddNode(prev.nodes[i]);
    }
    for i := 0 to |accepted|
      invariant banned.Valid() && fresh(banned) && forall u :: u in banned.Contents().nodes <==> u in prev.nodes[..j]
      invariant forall a :: a in banned.Contents().entries <==> BannedAt(accepted[..i], prev.nodes[..j + 1], a)
    {
      var candidate := accepted[i].path;
      BannedStep(accepted, i, prev.nodes[..j + 1]);
      if |candidate.nodes| > j + 1 && prev.nodes[..j + 1] == candidate.nodes[..j + 1] {
        banned.AddEntry(candidate.adjacency[j]);
      }
    }
    assert accepted[..|accepted|] == accepted;
    bans := banned.Contents();
  }

  lemma BannedStep(accepted: seq<Ranked>, i: nat, root: seq<nat>)
    requires i < |accepted|
    ensures forall a :: BannedAt(accepted[..i + 1], root, a) <==> BannedAt(accepted[..i], root, a) || TakesAt(accepted[i].path, root, a)
  {
    forall a: nat
      ensures BannedAt(accepted[..i + 1], root, a) <==> BannedAt(accepted[..i], root, a) || TakesAt(accepted[i].path, root, a)
    {
      if BannedAt(accepted[..i], root, a) {
        BannedByMore(accepted[..i], accepted[..i + 1], root, a);
      }
      if TakesAt(accepted[i].path, root, a) {
        assert accepted[..i + 1][i] == accepted[i];
      }
      if BannedAt(accepted[..i + 1], root, a) {
        var k :| 0 <= k < i + 1 && TakesAt(accepted[..i + 1][k].path, root, a);
        if k < i { assert accepted[..i][k] == accepted[..i + 1][k]; }
      }
    }
  }

  ghost predicate AllOk(z: Query, rs: seq<Ranked>) {
    forall i :: 0 <= i < |rs| ==> Ok(z, rs[i])
  }

  lemma AllOkShapes(z: Query, rs: seq<Ranked>)
    requires AllOk(z, rs)
    ensures forall i :: 0 <= i < |rs| ==> Route(z, rs[i].path) && |rs[i].path.nodes| == |rs[i].path.adjacency| + 1
  {
    hide Distinct;
  }

  lemma RouteHopsFit(z: Query, t: RawPath)
    requires z.Valid() && HopsFit(z.view) && Route(z, t)
    ensures t.Hops() <= MAX_HOP_COUNT
  {
    hide Query.Valid;
    SimpleHopBound(z.view, t);
  }

  lemma SpurQuestion(z: Query, prev: RawPath, j: nat)
    requires z.Valid() && Route(z, prev) && j < prev.Hops()
    ensures |prev.nodes| == prev.Hops() + 1 && prev.nodes[j] != z.destination && prev.nodes[j] < z.view.NodeCount()
    ensures z.maxHops != NO_HOP_BOUND ==> j < z.maxHops
    ensures SpurBound(z.maxHops, j) != 0
    ensures z.destination < z.view.NodeCount()
  {
    assert prev.nodes[j] != prev.nodes[prev.Hops()];
  }

  lemma SpurAnswerOk(z: Query, accepted: seq<Ranked>, prev: RawPath, j: nat, bans: Bans, found: bool, g: RawPath)
    requires z.Valid() && Route(z, prev) && j < prev.Hops() && SpurBans(accepted, prev, j, bans)
    requires Answer(z.view, prev.nodes[j], z.destination, SpurBound(z.maxHops, j), bans, found, g)
    ensures found ==> SpurAnswer(z, accepted, prev, j, bans, g)
    ensures found ==> forall h :: Eligible(z.view, prev.nodes[j], z.destination, SpurBound(z.maxHops, j), bans, h) ==> NotAfter(z.view, g, h)
    ensures !found ==> forall h :: !Eligible(z.view, prev.nodes[j], z.destination, SpurBound(z.maxHops, j), bans, h)
  {
    SpurQuestion(z, prev, j);
    assert z.maxHops <= NO_HOP_BOUND;
    hide Query.Valid, Eligible, SpurBans, Distinct, NotAfter, IsWalk;
  }

  /** One spur search: at hop j of the last accepted path. */
  method SpurHop(z: Query, accepted: seq<Ranked>, pending0: seq<Ranked>, j: nat, budget: WorkBudget)
    returns (limited: bool, pending: seq<Ranked>)
    requires z.Valid() && |accepted| > 0 && AllOk(z, accepted) && AllOk(z, pending0) && j < Last(accepted).Hops()
    requires HopsFit(z.view) ==> Round(z, accepted, pending0) && CoverPath(z, accepted, pending0, Last(accepted), j)
    requires budget.Honest()
    modifies budget
    ensures budget.Honest()
    ensures limited ==> budget.exhausted || budget.stateSpaceExceeded
    ensures limited ==> Short(z.view, 1, 1, old(FundsOf(budget)))
    ensures !limited ==> Left(z.view, 1, 1, FundsOf(budget), old(FundsOf(budget)))
    ensures !limited ==> AllOk(z, pending)
    ensures !limited && HopsFit(z.view) ==> Round(z, accepted, pending) && CoverPath(z, accepted, pending, Last(accepted), j + 1)
  {
    hide Short, Left, Query.Valid, View.Valid, AllOk, Round, CoverPath, SpurBans, Answer, SpurAnswer, Eligible, Route, Ok, NotAfter, Total, Fresh;
    limited, pending := false, pending0;
    AllOkShapes(z, accepted);
    var prev := accepted[|accepted| - 1].path;
    SpurQuestion(z, prev, j);
    ViewValid(z);
    var bans := BuildSpurBans(accepted, prev, j);
    SpurPaid(z.view, FundsOf(budget));
    var spent := budget.SpendSpur();
    if !spent {
      limited := true;
      return;
    }
    ghost var after := FundsOf(budget);
    var spurBound := if z.maxHops == NO_HOP_BOUND then NO_HOP_BOUND else z.maxHops - j;
    BoundFits(z);
    var spur := ShortestPath(z.view, prev.nodes[j], z.destination, spurBound, bans, budget);
    if spur.resourceLimit {
      ShortThen(z.view, 0, 1, 1, 0, after, old(FundsOf(budget)));
    } else {
      LeftThen(z.view, 0, 1, 1, 0, FundsOf(budget), after, old(FundsOf(budget)));
    }
    if spur.resourceLimit {
      limited := true;
      return;
    }
    SpurAnswerOk(z, accepted, prev, j, bans, spur.found, spur.path);
    if !spur.found {
      if HopsFit(z.view) {
        NothingCovers(z, accepted, pending, j, bans);
      }
      return;
    }
    var g := spur.path;
    TotalIsRoute(z, accepted, prev, j, bans, g);
    var total := RawPath(prev.nodes[..j + 1] + g.nodes[1..], prev.adjacency[..j] + g.adjacency);
    TotalBuilt(prev, j, g, total);
    RouteNodes(z, total);
    var simple := AllDistinct(total.nodes);
    assert simple;
    forall i | 0 <= i < |accepted| ensures accepted[i].path != total {
      TotalIsNew(z, accepted, prev, j, bans, g, i);
    }
    var inAccepted := ContainsRawPath(accepted, total);
    var inPending := ContainsRawPath(pending, total);
    if inAccepted || inPending {
      if HopsFit(z.view) {
        var k :| 0 <= k < |pending| && pending[k].path == total;
        FreshCovers(z, accepted, pending, j, bans, g, total, k);
      }
      return;
    }
    var cost := ComputeRawPathCost(z.view, total);
    if cost.None? {
      if HopsFit(z.view) {
        RouteHopsFit(z, total);
        TooExpensive(z, accepted, pending, j, bans, g, total);
      }
      return;
    }
    var t := Ranked(total, cost.value);
    OkIntro(z, t);
    pending := pending + [t];
    AllOkAppend(z, pending0, t);
    if HopsFit(z.view) {
      FreshIntro(z, accepted, j, bans, g, t);
      AddFresh(z, accepted, pending0, j, bans, g, t);
      SubAppend(pending0, t);
      CoverPathMore(z, accepted, pending0, pending, Last(accepted), j);
      FreshCovers(z, accepted, pending, j, bans, g, total, |pending| - 1);
    }
  }

  lemma BoundFits(z: Query)
    requires z.Valid()
    ensures z.maxHops <= NO_HOP_BOUND
  {
  }

  lemma RouteNodes(z: Query, t: RawPath)
    requires Route(z, t)
    ensures Distinct(t.nodes) && IsWalk(z.view, t) && t.nodes[0] == z.source
  {
  }

  lemma TotalBuilt(prev: RawPath, j: nat, g: RawPath, total: RawPath)
    requires |prev.nodes| == |prev.adjacency| + 1 && j <= |prev.adjacency| && |g.nodes| > 0
    requires total == RawPath(prev.nodes[..j + 1] + g.nodes[1..], prev.adjacency[..j] + g.adjacency)
    ensures total == Total(prev, j, g)
  {
  }

  lemma OkIntro(z: Query, t: Ranked)
    requires Route(z, t.path) && t.cost.total == Cost(z.view, t.path.adjacency) && t.cost.hops == t.path.Hops()
    requires t.cost.total <= MAX_COST
    ensures Ok(z, t)
  {
    hide Distinct;
  }

  lemma AllOkAppend(z: Query, rs: seq<Ranked>, t: Ranked)
    requires AllOk(z, rs) && Ok(z, t)
    ensures AllOk(z, rs + [t])
  {
    hide Ok;
  }

  lemma FreshIntro(z: Query, accepted: seq<Ranked>, j: nat, bans: Bans, g: RawPath, t: Ranked)
    requires |accepted| > 0 && SpurAnswer(z, accepted, Last(accepted), j, bans, g)
    requires forall h :: Eligible(z.view, Last(accepted).nodes[j], z.destination, SpurBound(z.maxHops, j), bans, h) ==> NotAfter(z.view, g, h)
    requires Ok(z, t) && |g.nodes| > 0 && |Last(accepted).nodes| == Last(accepted).Hops() + 1 && t.path == Total(Last(accepted), j, g)
    ensures Fresh(z, accepted, j, bans, g, t)
  {
    hide Ok, Eligible, SpurAnswer, NotAfter, Total;
  }

  lemma SubAppend(rs: seq<Ranked>, t: Ranked)
    ensures Sub(rs, rs + [t])
  {
    forall k | 0 <= k < |rs| ensures rs[k] in rs + [t] {
      assert (rs + [t])[k] == rs[k];
    }
  }

  lemma SpurPaid(v: View, f: Funds)
    ensures f.spurs == 0 ==> Short(v, 1, 1, f)
    ensures f.spurs > 0 ==> Left(v, 0, 1, Funds(f.states, f.pushes, f.spurs - 1), f)
  {
  }

  /** A spur search at every hop of the last accepted path. */
  method SpurHops(z: Query, accepted: seq<Ranked>, pending0: seq<Ranked>, budget: WorkBudget) returns (limited: bool, pending: seq<Ranked>)
    requires z.Valid() && |accepted| > 0 && AllOk(z, accepted) && AllOk(z, pending0)
    requires HopsFit(z.view) ==> Round(z, accepted, pending0)
    requires budget.Honest()
    modifies budget
    ensures budget.Honest()
    ensures limited ==> budget.exhausted || budget.stateSpaceExceeded
    ensures limited ==> Short(z.view, z.view.NodeCount(), z.view.NodeCount(), old(FundsOf(budget)))
    ensures !limited ==> Left(z.view, z.view.NodeCount(), z.view.NodeCount(), FundsOf(budget), old(FundsOf(budget)))
    ensures !limited ==> AllOk(z, pending)
    ensures !limited && HopsFit(z.view) ==> Round(z, accepted, pending) && CoverPath(z, accepted, pending, Last(accepted), Last(accepted).Hops())
  {
    hide Query.Valid, View.Valid, AllOk, Round, CoverPath, Short, Left;
    AllOkShapes(z, accepted);
    RouteNodes(z, Last(accepted));
    RouteShort(z, Last(accepted));
    NothingSpent(z.view, FundsOf(budget));
    ghost var start, n := FundsOf(budget), z.view.NodeCount();
    limited, pending := false, pending0;
    var hopCount := Last(accepted).Hops();
    StartCover(z, accepted, pending);
    for j := 0 to hopCount
      invariant AllOk(z, pending) && budget.Honest() && !limited && Left(z.view, j, j, FundsOf(budget), start)
      invariant HopsFit(z.view) ==> Round(z, accepted, pending) && CoverPath(z, accepted, pending, Last(accepted), j)
    {
      ghost var between := FundsOf(budget);
      limited, pending := SpurHop(z, accepted, pending, j, budget);
      if limited {
        ShortThen(z.view, j, j, 1, 1, between, start);
        ShortMore(z.view, j + 1, j + 1, n, n, start);
        return;
      }
      LeftThen(z.view, j, j, 1, 1, FundsOf(budget), between, start);
    }
    LeftLess(z.view, hopCount, hopCount, n, n, FundsOf(budget), start);
  }

  lemma RouteShort(z: Query, p: RawPath)
    requires Route(z, p)
    ensures p.Hops() < z.view.NodeCount()
  {
    SimpleHopBound(z.view, p);
  }

  /** The least pending path; the first one in list order on a tie. */
  method BestPending(z: Query, pending: seq<Ranked>) returns (best: nat)
    requires z.Valid() && |pending| > 0 && AllOk(z, pending)
    ensures best < |pending|
    ensures forall k :: 0 <= k < |pending| ==> NotAfter(z.view, pending[best].path, pending[k].path)
  {
    hide Query.Valid, View.Valid, Route, WellRanked, Before;
    ViewValid(z);
    best := 0;
    for i := 1 to |pending|
      invariant best < |pending|
      invariant forall k :: 0 <= k < i ==> NotAfter(z.view, pending[best].path, pending[k].path)
    {
      assert Ok(z, pending[i]) && Ok(z, pending[best]);
      var earlier := RankedBefore(z.view, z.source, pending[i], pending[best]);
      BeforeTotal(z.view, pending[i].path, pending[best].path);
      if earlier {
        forall k | 0 <= k < i ensures NotAfter(z.view, pending[i].path, pending[k].path) {
          NotAfterTransitive(z.view, pending[i].path, pending[best].path, pending[k].path);
        }
        best := i;
      }
    }
  }

  method YenPaths(z: Query, wanted: nat, budget: WorkBudget) returns (r: Listing)
    requires z.Valid()
    requires budget.Honest()
    modifies budget
    ensures budget.Honest()
    ensures r.limited ==> r.paths == [] && (budget.exhausted || budget.stateSpaceExceeded)
    ensures r.limited ==> Short(z.view, Searches(z.view, wanted), Searches(z.view, wanted), old(FundsOf(budget)))
    ensures AllOk(z, r.paths) && |r.paths| <= (if wanted > 1 then wanted else 1)
    ensures !r.limited && HopsFit(z.view) && r.paths == [] ==> forall q :: Route(z, q) ==> Cost(z.view, q.adjacency) >= MAX_COST
    ensures !r.limited && HopsFit(z.view) && r.paths != [] ==> FirstRoutes(z, r.paths, wanted)
    ensures HopsFit(z.view) ==> Grown(z, r.paths) && AlwaysFirst(z, r.paths)
  {
    hide Short, Left, Searches, Query.Valid, View.Valid, AllOk, Round, CoverPath, Cover, Answer, Ok, FirstRoutes, Without, Route, AlwaysFirst, Grown;
    NoneGrown(z);
    ViewValid(z);
    BoundFits(z);
    ghost var start, nodes := FundsOf(budget), z.view.NodeCount();
    SearchCount(z.view, wanted, 1);
    var first := ShortestPath(z.view, z.source, z.destination, z.maxHops, NO_BANS, budget);
    if first.resourceLimit {
      NoneOk(z);
      ShortMore(z.view, 1, 0, Searches(z.view, wanted), Searches(z.view, wanted), start);
      return Listing(true, WorkBudgetExhausted, []);
    }
    if !first.found {
      NoneOk(z);
      NoRoutes(z, first.path);
      return Listing(false, if first.costOverflow then CostOverflow else NoStructuralPath, []);
    }
    FirstIsRoute(z, first.path);
    RouteNodes(z, first.path);
    var firstCost := ComputeRawPathCost(z.view, first.path);
    if firstCost.None? {
      NoneOk(z);
      if HopsFit(z.view) {
        RouteHopsFit(z, first.path);
      }
      return Listing(false, CostOverflow, []);
    }
    var accepted := [Ranked(first.path, firstCost.value)];
    var pending: seq<Ranked> := [];
    NoneOk(z);
    OkIntro(z, accepted[0]);
    AllOkAppend(z, [], accepted[0]);
    assert [] + [accepted[0]] == accepted;
    StartRound(z, accepted[0]);
    FullIsFirst(z, accepted, pending, 1);
    StillFirst(z, [], accepted[0]);
    LeftLess(z.view, 1, 0, 1, 1, FundsOf(budget), start);
    while |accepted| < wanted
      invariant 0 < |accepted| <= (if wanted > 1 then wanted else 1)
      invariant AllOk(z, accepted) && AllOk(z, pending)
      invariant budget.Honest() && Left(z.view, Searches(z.view, |accepted|), Searches(z.view, |accepted|), FundsOf(budget), start)
      invariant HopsFit(z.view) ==> Round(z, accepted, pending) && AlwaysFirst(z, accepted)
      decreases wanted - |accepted|
    {
      var limited;
      ghost var between, used := FundsOf(budget), Searches(z.view, |accepted|);
      limited, pending := SpurHops(z, accepted, pending, budget);
      SearchCount(z.view, wanted, |accepted|);
      if limited {
        NoneOk(z);
        ShortThen(z.view, used, used, nodes, nodes, between, start);
        ShortMore(z.view, used + nodes, used + nodes, Searches(z.view, wanted), Searches(z.view, wanted), start);
        return Listing(true, WorkBudgetExhausted, []);
      }
      LeftThen(z.view, used, used, nodes, nodes, FundsOf(budget), between, start);
      if HopsFit(z.view) {
        RoundDone(z, accepted, pending);
      }
      if |pending| == 0 {
        if HopsFit(z.view) {
          ExhaustedIsFirst(z, accepted, wanted);
          RoundGrown(z, accepted, pending);
        }
        return Listing(false, NoStructuralPath, accepted);
      }
      var best := BestPending(z, pending);
      if HopsFit(z.view) {
        NextRound(z, accepted, pending, best);
        FullIsFirst(z, accepted + [pending[best]], Without(pending, best), |accepted| + 1);
        StillFirst(z, accepted, pending[best]);
      }
      MoveOk(z, accepted, pending, best);
      accepted := accepted + [pending[best]];
      pending := Without(pending, best);
      assert Searches(z.view, |accepted|) == used + nodes;
    }
    if HopsFit(z.view) {
      FullIsFirst(z, accepted, pending, wanted);
      RoundGrown(z, accepted, pending);
    }
    r := Listing(false, NoStructuralPath, accepted);
  }

  /** One search for the first path, and one per node for every further one. */
  function Searches(v: View, k: nat): nat {
    if k <= 1 then 1 else Searches(v, k - 1) + v.NodeCount()
  }

  lemma {:induction false} SearchCount(v: View, wanted: nat, k: nat)
    requires 1 <= k && (k < wanted || k == 1)
    ensures Searches(v, 1) == 1 <= Searches(v, wanted) && Searches(v, k + 1) == Searches(v, k) + v.NodeCount()
    ensures k < wanted ==> Searches(v, k + 1) <= Searches(v, wanted)
    decreases wanted
  {
    if wanted > 1 {
      if k + 1 < wanted {
        SearchCount(v, wanted - 1, k);
      } else {
        SearchCount(v, wanted - 1, 1);
      }
    }
  }

  lemma NoneOk(z: Query)
    ensures AllOk(z, [])
  {
  }

  lemma NoneGrown(z: Query)
    ensures Grown(z, []) && AlwaysFirst(z, [])
  {
  }

  lemma RoundGrown(z: Query, accepted: seq<Ranked>, pending: seq<Ranked>)
    requires Round(z, accepted, pending)
    ensures Grown(z, accepted)
  {
    hide Grown, Ok, Cover, Justified;
  }

  lemma StillFirst(z: Query, rs: seq<Ranked>, t: Ranked)
    requires AlwaysFirst(z, rs) && FirstRoutes(z, rs + [t], |rs| + 1)
    ensures AlwaysFirst(z, rs + [t])
  {
    hide FirstRoutes;
    var more := rs + [t];
    forall i | 0 < i <= |more| ensures FirstRoutes(z, more[..i], i) {
      if i <= |rs| {
        assert more[..i] == rs[..i];
      } else {
        assert more[..i] == more;
      }
    }
  }

  lemma NoRoutes(z: Query, p: RawPath)
    requires z.Valid() && Answer(z.view, z.source, z.destination, z.maxHops, NO_BANS, false, p)
    ensures forall q :: Route(z, q) ==> Cost(z.view, q.adjacency) >= MAX_COST
  {
    ViewValid(z);
    hide Query.Valid, View.Valid;
    forall q | Route(z, q) ensures Cost(z.view, q.adjacency) >= MAX_COST {
      assert z.maxHops == 0 ==> q.Hops() == 0;
      assert Cost(z.view, q.adjacency) < MAX_COST ==> Eligible(z.view, z.source, z.destination, z.maxHops, NO_BANS, q);
    }
  }

  lemma FirstIsRoute(z: Query, p: RawPath)
    requires z.Valid() && Answer(z.view, z.source, z.destination, z.maxHops, NO_BANS, true, p)
    ensures Route(z, p) && Cost(z.view, p.adjacency) < MAX_COST
  {
    hide View.Valid;
  }

  lemma StartRound(z: Query, first: Ranked)
    requires z.Valid() && Ok(z, first) && Answer(z.view, z.source, z.destination, z.maxHops, NO_BANS, true, first.path)
    ensures Round(z, [first], [])
  {
    FirstIsRoute(z, first.path);
    hide Query.Valid, Round, Ok, NotAfter, Eligible, Route;
    if z.source == z.destination {
      FirstRoundSame(z, first);
    } else {
      FirstRound(z, first);
    }
  }

  lemma StartCover(z: Query, accepted: seq<Ranked>, pending: seq<Ranked>)
    requires |accepted| > 0
    ensures CoverPath(z, accepted, pending, Last(accepted), 0)
  {
  }

  lemma MoveOk(z: Query, accepted: seq<Ranked>, pending: seq<Ranked>, best: nat)
    requires AllOk(z, accepted) && AllOk(z, pending) && best < |pending|
    ensures AllOk(z, accepted + [pending[best]]) && AllOk(z, Without(pending, best))
  {
    hide Ok;
  }
}
