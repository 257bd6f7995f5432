/** Why one round of Yen's enumeration keeps its invariants. */
module YenProof {
  import opened Counting
  import opened View
  import opened Order
  import opened Ranking
  import opened PathCosts
  import opened YenSpec

  // ----- the spur search

  /** Bans of the spur search at hop j of prev. */
  ghost predicate SpurBans(accepted: seq<Ranked>, prev: RawPath, j: nat, bans: Bans)
    requires j < |prev.nodes|
  {
    && (forall u :: u in bans.nodes <==> u in prev.nodes[..j])
    && (forall a :: a in bans.entries <==> BannedAt(accepted, prev.nodes[..j + 1], a))
  }

  function SpurBound(maxHops: nat, j: nat): nat {
    if maxHops == NO_HOP_BOUND then NO_HOP_BOUND else if maxHops < j then 0 else maxHops - j
  }

  lemma SliceUnique(v: View, u: nat, w: nat, a: nat)
    requires v.Valid() && v.InSlice(u, a) && v.InSlice(w, a)
    ensures u == w
  {
  }

  lemma BannedInSlice(z: Query, accepted: seq<Ranked>, root: seq<nat>, a: nat)
    requires BannedAt(accepted, root, a) && forall i :: 0 <= i < |accepted| ==> Route(z, accepted[i].path)
    ensures z.view.InSlice(root[|root| - 1], a)
  {
    var i :| 0 <= i < |accepted| && TakesAt(accepted[i].path, root, a);
    var p := accepted[i].path;
    assert Route(z, p);
    assert p.nodes[|root| - 1] == p.nodes[..|root|][|root| - 1];
  }

  lemma SpurTailOpen(z: Query, accepted: seq<Ranked>, prev: RawPath, j: nat, q: RawPath, bans: Bans, k: nat)
    requires z.Valid() && Route(z, prev) && j < prev.Hops() && (forall i :: 0 <= i < |accepted| ==> Route(z, accepted[i].path))
    requires Route(z, q) && SharesRoot(prev, q, j) && j <= k < q.Hops()
    requires !BannedAt(accepted, prev.nodes[..j + 1], q.adjacency[j])
    requires SpurBans(accepted, prev, j, bans)
    ensures Open(z.view, bans, q.adjacency[k])
  {
    hide Query.Valid;
    RootNodes(z.view, prev, q, j);
    assert z.view.InSlice(q.nodes[k], q.adjacency[k]) && z.view.To(q.adjacency[k]) == q.nodes[k + 1];
    assert q.nodes[j] == q.nodes[..j + 1][j] == prev.nodes[..j + 1][j];
    if k > j && q.adjacency[k] in bans.entries {
      BannedInSlice(z, accepted, prev.nodes[..j + 1], q.adjacency[k]);
      ViewValid(z);
      SliceUnique(z.view, q.nodes[j], q.nodes[k], q.adjacency[k]);
    }
    forall i | 0 <= i < j ensures prev.nodes[..j][i] == q.nodes[i] {
      assert q.nodes[i] == q.nodes[..j + 1][i] == prev.nodes[..j + 1][i];
    }
  }

  lemma ViewValid(z: Query)
    requires z.Valid()
    ensures z.view.Valid() && z.source < z.view.NodeCount() && z.destination < z.view.NodeCount()
  {
  }

  /** The tail of a served route answers the question the spur search asks. */
  lemma SpurTailEligible(z: Query, accepted: seq<Ranked>, prev: RawPath, j: nat, q: RawPath, bans: Bans)
    requires z.Valid() && Route(z, prev) && (forall i :: 0 <= i < |accepted| ==> Route(z, accepted[i].path))
    requires j < prev.Hops() && Route(z, q) && SharesRoot(prev, q, j) && j < q.Hops()
    requires !BannedAt(accepted, prev.nodes[..j + 1], q.adjacency[j]) && TailCost(z.view, q, j) < MAX_COST
    requires SpurBans(accepted, prev, j, bans)
    ensures Eligible(z.view, prev.nodes[j], z.destination, SpurBound(z.maxHops, j), bans, Suffix(q, j))
  {
    hide Query.Valid, View.Valid, Distinct, SpurBans;
    var tail := Suffix(q, j);
    SuffixWalk(z.view, q, j);
    RootNodes(z.view, prev, q, j);
    assert prev.nodes[j] == prev.nodes[..j + 1][j] == q.nodes[..j + 1][j] == q.nodes[j];
    forall k | 0 <= k < |tail.adjacency| ensures Open(z.view, bans, tail.adjacency[k]) {
      SpurTailOpen(z, accepted, prev, j, q, bans, j + k);
    }
  }

  function Total(prev: RawPath, j: nat, g: RawPath): RawPath
    requires |prev.nodes| == |prev.adjacency| + 1 && j <= |prev.adjacency| && |g.nodes| > 0
  {
    Join(Prefix(prev, j), g)
  }

  /** The answer g of a spur search at hop j of prev. */
  ghost predicate SpurAnswer(z: Query, accepted: seq<Ranked>, prev: RawPath, j: nat, bans: Bans, g: RawPath) {
    && Route(z, prev) && z.maxHops <= NO_HOP_BOUND && j < prev.Hops() && SpurBans(accepted, prev, j, bans)
    && Eligible(z.view, prev.nodes[j], z.destination, SpurBound(z.maxHops, j), bans, g) && Simple(g)
  }

  lemma SpurShape(z: Query, accepted: seq<Ranked>, prev: RawPath, j: nat, bans: Bans, g: RawPath)
    requires SpurAnswer(z, accepted, prev, j, bans, g)
    ensures |prev.nodes| == prev.Hops() + 1 && |g.nodes| == g.Hops() + 1 && g.Hops() > 0
    ensures g.nodes[0] == prev.nodes[j] && g.adjacency[0] !in bans.entries
    ensures forall k :: 1 <= k < |g.nodes| ==> g.nodes[k] !in prev.nodes[..j]
  {
    assert Open(z.view, bans, g.adjacency[0]) by {
      assert prev.nodes[j] != prev.nodes[prev.Hops()];
    }
    forall k | 1 <= k < |g.nodes| ensures g.nodes[k] !in prev.nodes[..j] {
      assert Open(z.view, bans, g.adjacency[k - 1]);
    }
  }

  lemma TotalShape(z: Query, accepted: seq<Ranked>, prev: RawPath, j: nat, bans: Bans, g: RawPath)
    requires SpurAnswer(z, accepted, prev, j, bans, g)
    ensures |prev.nodes| == prev.Hops() + 1 && |g.nodes| == g.Hops() + 1
    ensures var t := Total(prev, j, g);
      && WalkFrom(z.view, z.source, z.destination, t) && WithinHops(z.maxHops, t.Hops())
      && SharesRoot(prev, t, j) && j < t.Hops() && t.adjacency[j] == g.adjacency[0]
      && Suffix(t, j) == g
      && Cost(z.view, t.adjacency) == Cost(z.view, prev.adjacency[..j]) + Cost(z.view, g.adjacency)
      && TailCost(z.view, t, j) == Cost(z.view, g.adjacency)
  {
    hide Avoids, Distinct, SpurBans, IsWalk, Cost, Join, SharesRoot;
    SpurShape(z, accepted, prev, j, bans, g);
    PrefixWalk(z.view, prev, j);
    TotalParts(prev, j, g);
    CostConcat(z.view, prev.adjacency[..j], g.adjacency);
    JoinWalk(z.view, z.source, prev.nodes[j], z.destination, Prefix(prev, j), g);
  }

  lemma TotalParts(prev: RawPath, j: nat, g: RawPath)
    requires |prev.nodes| == prev.Hops() + 1 && j <= prev.Hops() && |g.nodes| == g.Hops() + 1 && g.Hops() > 0
    requires g.nodes[0] == prev.nodes[j]
    ensures var t := Total(prev, j, g);
      && t.adjacency == prev.adjacency[..j] + g.adjacency && t.Hops() == j + g.Hops() && |t.nodes| == t.Hops() + 1
      && SharesRoot(prev, t, j) && t.adjacency[j] == g.adjacency[0] && t.adjacency[j..] == g.adjacency && Suffix(t, j) == g
  {
    var t := Total(prev, j, g);
    assert t.adjacency[j..] == g.adjacency && t.adjacency[..j] == prev.adjacency[..j];
    assert t.nodes[j..] == [prev.nodes[j]] + g.nodes[1..] == g.nodes;
  }

  lemma TotalSimple(z: Query, accepted: seq<Ranked>, prev: RawPath, j: nat, bans: Bans, g: RawPath)
    requires SpurAnswer(z, accepted, prev, j, bans, g)
    ensures |prev.nodes| == prev.Hops() + 1 && |g.nodes| == g.Hops() + 1
    ensures Simple(Total(prev, j, g))
  {
    SpurShape(z, accepted, prev, j, bans, g);
    hide Avoids, IsWalk, SpurBans;
    var t := Total(prev, j, g);
    forall a, b | 0 <= a < b < |t.nodes| ensures t.nodes[a] != t.nodes[b] {
      if b <= j {
        assert t.nodes[a] == prev.nodes[a] && t.nodes[b] == prev.nodes[b];
      } else if a < j {
        assert t.nodes[a] == prev.nodes[..j][a] && t.nodes[b] == g.nodes[b - j];
      } else {
        assert t.nodes[a] == g.nodes[a - j] && t.nodes[b] == g.nodes[b - j];
      }
    }
  }

  lemma TotalIsRoute(z: Query, accepted: seq<Ranked>, prev: RawPath, j: nat, bans: Bans, g: RawPath)
    requires SpurAnswer(z, accepted, prev, j, bans, g)
    ensures |prev.nodes| == prev.Hops() + 1 && |g.nodes| == g.Hops() + 1
    ensures Route(z, Total(prev, j, g))
  {
    TotalShape(z, accepted, prev, j, bans, g);
    TotalSimple(z, accepted, prev, j, bans, g);
  }

  /** Of two routes with one root, the one with the earlier tail comes first. */
  lemma RootedOrder(z: Query, t: RawPath, q: RawPath, j: nat)
    requires Route(z, t) && Route(z, q) && SharesRoot(t, q, j)
    requires NotAfter(z.view, Suffix(t, j), Suffix(q, j))
    ensures NotAfter(z.view, t, q)
  {
    RootNodes(z.view, t, q, j);
    SuffixWalk(z.view, t, j);
    SuffixWalk(z.view, q, j);
    assert t.nodes[j] == t.nodes[..j + 1][j] == q.nodes[..j + 1][j] == q.nodes[j];
    hide IsWalk, Distinct, NotAfter;
    NotAfterJoin(z.view, Prefix(t, j), Suffix(t, j), Suffix(q, j));
  }

  lemma RouteOk(z: Query, accepted: seq<Ranked>)
    requires forall i :: 0 <= i < |accepted| ==> Ok(z, accepted[i])
    ensures forall i :: 0 <= i < |accepted| ==> Route(z, accepted[i].path)
  {
    hide Route, WellRanked;
  }

  /** A spur search that finds nothing has nothing to cover. */
  lemma NothingServed(z: Query, accepted: seq<Ranked>, prev: RawPath, j: nat, bans: Bans)
    requires z.Valid() && Route(z, prev) && (forall i :: 0 <= i < |accepted| ==> Route(z, accepted[i].path))
    requires j < prev.Hops() && SpurBans(accepted, prev, j, bans)
    requires forall g :: !Eligible(z.view, prev.nodes[j], z.destination, SpurBound(z.maxHops, j), bans, g)
    ensures forall q :: !Served(z, accepted, prev, j, q)
  {
    hide Query.Valid, Route, SharesRoot, Eligible, SpurBans;
    forall q ensures !Served(z, accepted, prev, j, q) {
      if Served(z, accepted, prev, j, q) {
        SpurTailEligible(z, accepted, prev, j, q, bans);
      }
    }
  }

  /** The path built from the spur search's answer covers everything prev serves at hop j. */
  lemma TotalCovers(z: Query, accepted: seq<Ranked>, prev: RawPath, j: nat, bans: Bans, g: RawPath, q: RawPath)
    requires z.Valid() && (forall i :: 0 <= i < |accepted| ==> Route(z, accepted[i].path))
    requires SpurAnswer(z, accepted, prev, j, bans, g)
    requires forall h :: Eligible(z.view, prev.nodes[j], z.destination, SpurBound(z.maxHops, j), bans, h) ==> NotAfter(z.view, g, h)
    requires Served(z, accepted, prev, j, q)
    ensures |prev.nodes| == prev.Hops() + 1 && |g.nodes| == g.Hops() + 1
    ensures Covers(z.view, Total(prev, j, g), j, q) && Cost(z.view, Total(prev, j, g).adjacency) <= MAX_COST
  {
    TotalShape(z, accepted, prev, j, bans, g);
    TotalIsRoute(z, accepted, prev, j, bans, g);
    hide Query.Valid, Route, Eligible, SpurBans, Total, NotAfter;
    SpurTailEligible(z, accepted, prev, j, q, bans);
    RootedOrder(z, Total(prev, j, g), q, j);
    NotAfterCost(z.view, Total(prev, j, g), q);
  }

  lemma NotAfterCost(v: View, p: RawPath, q: RawPath)
    requires NotAfter(v, p, q)
    ensures Cost(v, p.adjacency) <= Cost(v, q.adjacency)
  {
  }

  /** ... and is the least route with its first j + 1 hops. */
  lemma TotalIsLeast(z: Query, accepted: seq<Ranked>, prev: RawPath, j: nat, bans: Bans, g: RawPath)
    requires z.Valid() && (forall i :: 0 <= i < |accepted| ==> Route(z, accepted[i].path))
    requires SpurAnswer(z, accepted, prev, j, bans, g)
    requires forall h :: Eligible(z.view, prev.nodes[j], z.destination, SpurBound(z.maxHops, j), bans, h) ==> NotAfter(z.view, g, h)
    ensures |prev.nodes| == prev.Hops() + 1 && |g.nodes| == g.Hops() + 1
    ensures Least(z, Total(prev, j, g), j + 1)
  {
    SpurShape(z, accepted, prev, j, bans, g);
    TotalShape(z, accepted, prev, j, bans, g);
    TotalIsRoute(z, accepted, prev, j, bans, g);
    var t := Total(prev, j, g);
    assert SpurBans(accepted, prev, j, bans) && Cost(z.view, g.adjacency) < MAX_COST;
    assert !BannedAt(accepted, prev.nodes[..j + 1], t.adjacency[j]);
    hide Query.Valid, Eligible, SpurBans, Total, NotAfter, WalkFrom, Distinct;
    forall q | Route(z, q) && SharesRoot(t, q, j + 1) ensures NotAfter(z.view, t, q) {
      SharesShorter(t, q, j + 1, j);
      SharesTransitive(prev, t, q, j);
      assert q.adjacency[j] == q.adjacency[..j + 1][j] == t.adjacency[..j + 1][j];
      if TailCost(z.view, q, j) < MAX_COST {
        SpurTailEligible(z, accepted, prev, j, q, bans);
        RootedOrder(z, t, q, j);
      } else {
        CostSplit(z.view, q.adjacency, j);
        CheaperNotAfter(z.view, t, q);
      }
    }
  }

  lemma CheaperNotAfter(v: View, p: RawPath, q: RawPath)
    requires Cost(v, p.adjacency) < Cost(v, q.adjacency)
    ensures NotAfter(v, p, q)
  {
  }

  /** The new path takes an entry no accepted path with the same node root takes, so it is new. */
  lemma TotalIsNew(z: Query, accepted: seq<Ranked>, prev: RawPath, j: nat, bans: Bans, g: RawPath, i: nat)
    requires SpurAnswer(z, accepted, prev, j, bans, g) && i < |accepted| && Route(z, accepted[i].path)
    ensures |prev.nodes| == prev.Hops() + 1 && |g.nodes| == g.Hops() + 1
    ensures accepted[i].path != Total(prev, j, g)
  {
    SpurShape(z, accepted, prev, j, bans, g);
    TotalShape(z, accepted, prev, j, bans, g);
    var t := Total(prev, j, g);
    RootNodes(z.view, prev, t, j);
    if accepted[i].path == t {
      assert TakesAt(accepted[i].path, prev.nodes[..j + 1], g.adjacency[0]);
    }
  }

  // ----- order

  ghost predicate Sub(p: seq<Ranked>, q: seq<Ranked>) {
    forall k :: 0 <= k < |p| ==> p[k] in q
  }

  lemma CoveredMore(z: Query, p: seq<Ranked>, q: seq<Ranked>, j: nat, r: RawPath)
    requires Sub(p, q) && Covered(z, p, j, r)
    ensures Covered(z, q, j, r)
  {
    hide Covers;
    var k :| 0 <= k < |p| && Covers(z.view, p[k].path, j, r);
    assert p[k] in q;
    var l :| 0 <= l < |q| && q[l] == p[k];
    assert Covers(z.view, q[l].path, j, r);
  }

  lemma ServedByFewer(z: Query, accepted: seq<Ranked>, more: seq<Ranked>, x: RawPath, j: nat, q: RawPath)
    requires accepted <= more && Served(z, more, x, j, q)
    ensures Served(z, accepted, x, j, q)
  {
    hide Route, SharesRoot, BannedAt;
    if BannedAt(accepted, x.nodes[..j + 1], q.adjacency[j]) {
      BannedByMore(accepted, more, x.nodes[..j + 1], q.adjacency[j]);
    }
  }

  lemma BannedByMore(accepted: seq<Ranked>, more: seq<Ranked>, root: seq<nat>, a: nat)
    requires accepted <= more && BannedAt(accepted, root, a)
    ensures BannedAt(more, root, a)
  {
    var i :| 0 <= i < |accepted| && TakesAt(accepted[i].path, root, a);
    assert accepted[i] == more[i];
  }

  /** The state while the spur hops of the last accepted path are processed. */
  ghost predicate Round(z: Query, accepted: seq<Ranked>, pending: seq<Ranked>) {
    && |accepted| > 0
    && (forall i :: 0 <= i < |accepted| ==> Ok(z, accepted[i]))
    && (forall k :: 0 <= k < |pending| ==> Ok(z, pending[k]))
    && Ascending(z.view, accepted)
    && (forall k :: 0 <= k < |pending| ==> Before(z.view, Last(accepted), pending[k].path))
    && Grown(z, accepted)
    && (forall k :: 0 <= k < |pending| ==> Justified(z, accepted, pending[k].path))
    && (forall i, k :: 0 <= i < k < |pending| ==> pending[i].path != pending[k].path)
    && Cover(z, accepted, pending + [accepted[|accepted| - 1]], |accepted| - 1)
  }

  function Last(accepted: seq<Ranked>): RawPath
    requires |accepted| > 0
  {
    accepted[|accepted| - 1].path
  }

  /** Whatever is served at some hop by an accepted path, the last one included, comes after the last one. */
  lemma ServedAfterLast(z: Query, accepted: seq<Ranked>, pending: seq<Ranked>, i: nat, j: nat, q: RawPath)
    requires Round(z, accepted, pending) && i < |accepted| && Served(z, accepted, accepted[i].path, j, q)
    ensures Before(z.view, Last(accepted), q)
  {
    hide Ok, Ascending, Served, Justified, Before;
    RouteOk(z, accepted);
    assert Justified(z, accepted[..|accepted| - 1], accepted[|accepted| - 1].path);
    if i < |accepted| - 1 {
      CoveredAfterLast(z, accepted, pending, i, j, q);
    } else if Least(z, Last(accepted), 0) {
      LeastAllBefore(z, accepted, j, q);
    } else {
      JustifiedCases(z, accepted[..|accepted| - 1], Last(accepted));
      var a: nat, b: nat :| Deviates(z, accepted[..|accepted| - 1], Last(accepted), a, b);
      if b < j {
        DeviationBefore(z, accepted, a, b, j, q);
      } else {
        ServedEarlier(z, accepted, a, b, j, q);
        CoveredAfterLast(z, accepted, pending, a, j, q);
      }
    }
  }

  lemma JustifiedCases(z: Query, accepted: seq<Ranked>, c: RawPath)
    requires Justified(z, accepted, c)
    ensures Least(z, c, 0) || exists i: nat, j: nat :: Deviates(z, accepted, c, i, j)
  {
  }

  /** A served route differs from every accepted path. */
  lemma ServedIsNew(z: Query, accepted: seq<Ranked>, i: nat, j: nat, q: RawPath, k: nat)
    requires i < |accepted| && k < |accepted| && Route(z, accepted[i].path) && Served(z, accepted, accepted[i].path, j, q)
    ensures accepted[k].path != q
  {
    RootNodes(z.view, accepted[i].path, q, j);
    assert TakesAt(q, accepted[i].path.nodes[..j + 1], q.adjacency[j]);
  }

  lemma CoveredAfterLast(z: Query, accepted: seq<Ranked>, pending: seq<Ranked>, i: nat, j: nat, q: RawPath)
    requires Round(z, accepted, pending) && i < |accepted| - 1 && Served(z, accepted, accepted[i].path, j, q)
    ensures Before(z.view, Last(accepted), q)
  {
    hide Round, Route, Served, Before, SharesRoot;
    RoundFacts(z, accepted, pending);
    RoundOrder(z, accepted, pending);
    var n := |accepted| - 1;
    ServedIsNew(z, accepted, i, j, q, n);
    assert Covered(z, pending + [accepted[n]], j, q);
    var k :| 0 <= k < |pending| + 1 && Covers(z.view, (pending + [accepted[n]])[k].path, j, q);
    var c := (pending + [accepted[n]])[k].path;
    assert NotAfter(z.view, Last(accepted), c) by {
      if k < |pending| { assert c == pending[k].path; }
    }
    NotAfterTransitive(z.view, Last(accepted), c, q);
  }

  lemma RoundOrder(z: Query, accepted: seq<Ranked>, pending: seq<Ranked>)
    requires Round(z, accepted, pending)
    ensures |accepted| > 0 && forall k :: 0 <= k < |pending| ==> Before(z.view, Last(accepted), pending[k].path)
  {
    hide Ok, Ascending, Grown, Cover, Before, Justified;
  }

  lemma LeastAllBefore(z: Query, accepted: seq<Ranked>, j: nat, q: RawPath)
    requires |accepted| > 0 && Route(z, Last(accepted)) && Least(z, Last(accepted), 0)
    requires Served(z, accepted, Last(accepted), j, q)
    ensures Before(z.view, Last(accepted), q)
  {
    ServedIsNew(z, accepted, |accepted| - 1, j, q, |accepted| - 1);
    SharesShorter(Last(accepted), q, j, 0);
  }

  lemma DeviationBefore(z: Query, accepted: seq<Ranked>, a: nat, b: nat, j: nat, q: RawPath)
    requires |accepted| > 0 && Route(z, Last(accepted)) && b < j
    requires Deviates(z, accepted[..|accepted| - 1], Last(accepted), a, b)
    requires Served(z, accepted, Last(accepted), j, q)
    ensures Before(z.view, Last(accepted), q)
  {
    ServedIsNew(z, accepted, |accepted| - 1, j, q, |accepted| - 1);
    SharesShorter(Last(accepted), q, j, b + 1);
  }

  lemma ServedEarlier(z: Query, accepted: seq<Ranked>, a: nat, b: nat, j: nat, q: RawPath)
    requires |accepted| > 0 && (forall i :: 0 <= i < |accepted| ==> Route(z, accepted[i].path)) && j <= b
    requires Deviates(z, accepted[..|accepted| - 1], Last(accepted), a, b)
    requires Served(z, accepted, Last(accepted), j, q)
    ensures a < |accepted| - 1 && Served(z, accepted, accepted[a].path, j, q)
  {
    hide Least, BannedAt, Distinct;
    var x := accepted[a].path;
    assert accepted[..|accepted| - 1][a] == accepted[a];
    assert Route(z, x);
    SharesShorter(x, Last(accepted), b, j);
    SharesTransitive(x, Last(accepted), q, j);
    RootNodes(z.view, x, Last(accepted), j);
  }

  // ----- one round

  /** The path a successful spur search adds. */
  ghost predicate Fresh(z: Query, accepted: seq<Ranked>, j: nat, bans: Bans, g: RawPath, t: Ranked) {
    && |accepted| > 0 && SpurAnswer(z, accepted, Last(accepted), j, bans, g)
    && (forall h :: Eligible(z.view, Last(accepted).nodes[j], z.destination, SpurBound(z.maxHops, j), bans, h) ==> NotAfter(z.view, g, h))
    && Ok(z, t) && |g.nodes| > 0 && |Last(accepted).nodes| == Last(accepted).Hops() + 1 && t.path == Total(Last(accepted), j, g)
  }

  lemma FreshServed(z: Query, accepted: seq<Ranked>, j: nat, bans: Bans, g: RawPath, t: Ranked)
    requires Fresh(z, accepted, j, bans, g, t)
    ensures Served(z, accepted, Last(accepted), j, t.path)
  {
    hide Distinct, IsWalk, Total, WithinHops;
    SpurShape(z, accepted, Last(accepted), j, bans, g);
    TotalShape(z, accepted, Last(accepted), j, bans, g);
    TotalIsRoute(z, accepted, Last(accepted), j, bans, g);
  }

  lemma FreshDeviates(z: Query, accepted: seq<Ranked>, j: nat, bans: Bans, g: RawPath, t: Ranked)
    requires z.Valid() && Fresh(z, accepted, j, bans, g, t) && (forall i :: 0 <= i < |accepted| ==> Route(z, accepted[i].path))
    ensures Justified(z, accepted, t.path)
  {
    hide Distinct, IsWalk, Total, WithinHops, Least, Query.Valid, Ok, Eligible;
    TotalShape(z, accepted, Last(accepted), j, bans, g);
    TotalIsLeast(z, accepted, Last(accepted), j, bans, g);
    SpurShape(z, accepted, Last(accepted), j, bans, g);
    assert accepted[..|accepted|] == accepted;
    assert Deviates(z, accepted, t.path, |accepted| - 1, j);
  }

  lemma CoverMore(z: Query, accepted: seq<Ranked>, p: seq<Ranked>, q: seq<Ranked>, count: nat)
    requires Sub(p, q) && Cover(z, accepted, p, count)
    ensures Cover(z, accepted, q, count)
  {
    hide Sub, Served, Covered;
    forall i, j, r | 0 <= i < count <= |accepted| && Served(z, accepted, accepted[i].path, j, r) ensures Covered(z, q, j, r) {
      CoveredMore(z, p, q, j, r);
    }
  }

  lemma CoverPathMore(z: Query, accepted: seq<Ranked>, p: seq<Ranked>, q: seq<Ranked>, x: RawPath, upto: nat)
    requires Sub(p, q) && CoverPath(z, accepted, p, x, upto)
    ensures CoverPath(z, accepted, q, x, upto)
  {
    hide Sub, Served, Covered;
    forall j, r | 0 <= j < upto && Served(z, accepted, x, j, r) ensures Covered(z, q, j, r) {
      CoveredMore(z, p, q, j, r);
    }
  }

  lemma AddFresh(z: Query, accepted: seq<Ranked>, pending: seq<Ranked>, j: nat, bans: Bans, g: RawPath, t: Ranked)
    requires z.Valid() && Round(z, accepted, pending) && Fresh(z, accepted, j, bans, g, t)
    requires forall k :: 0 <= k < |pending| ==> pending[k].path != t.path
    ensures Round(z, accepted, pending + [t])
  {
    RouteOk(z, accepted);
    FreshServed(z, accepted, j, bans, g, t);
    FreshDeviates(z, accepted, j, bans, g, t);
    ServedAfterLast(z, accepted, pending, |accepted| - 1, j, t.path);
    assert Ok(z, t);
    hide Query.Valid, Ok, Fresh, Served, Justified, Before, Cover, Ascending;
    var x := accepted[|accepted| - 1];
    assert Sub(pending + [x], pending + [t] + [x]) by {
      forall k | 0 <= k < |pending + [x]| ensures (pending + [x])[k] in pending + [t] + [x] {
      }
    }
    CoverMore(z, accepted, pending + [x], pending + [t] + [x], |accepted| - 1);
  }

  lemma FreshCovers(z: Query, accepted: seq<Ranked>, pending: seq<Ranked>, j: nat, bans: Bans, g: RawPath, t: RawPath, k: nat)
    requires z.Valid() && |accepted| > 0 && (forall i :: 0 <= i < |accepted| ==> Route(z, accepted[i].path))
    requires SpurAnswer(z, accepted, Last(accepted), j, bans, g)
    requires forall h :: Eligible(z.view, Last(accepted).nodes[j], z.destination, SpurBound(z.maxHops, j), bans, h) ==> NotAfter(z.view, g, h)
    requires |g.nodes| > 0 && |Last(accepted).nodes| == Last(accepted).Hops() + 1 && t == Total(Last(accepted), j, g)
    requires k < |pending| && pending[k].path == t
    requires CoverPath(z, accepted, pending, Last(accepted), j)
    ensures CoverPath(z, accepted, pending, Last(accepted), j + 1)
  {
    hide Query.Valid, Route, Eligible, Served, Covers, Total, SpurAnswer, NotAfter;
    forall i, r | 0 <= i < j + 1 && Served(z, accepted, Last(accepted), i, r) ensures Covered(z, pending, i, r) {
      if i == j {
        TotalCovers(z, accepted, Last(accepted), j, bans, g, r);
      }
    }
  }

  /** A spur path too expensive to be kept covers nothing that could be kept. */
  lemma TooExpensive(z: Query, accepted: seq<Ranked>, pending: seq<Ranked>, j: nat, bans: Bans, g: RawPath, t: RawPath)
    requires z.Valid() && |accepted| > 0 && (forall i :: 0 <= i < |accepted| ==> Route(z, accepted[i].path))
    requires SpurAnswer(z, accepted, Last(accepted), j, bans, g)
    requires forall h :: Eligible(z.view, Last(accepted).nodes[j], z.destination, SpurBound(z.maxHops, j), bans, h) ==> NotAfter(z.view, g, h)
    requires |g.nodes| > 0 && |Last(accepted).nodes| == Last(accepted).Hops() + 1 && t == Total(Last(accepted), j, g)
    requires Cost(z.view, t.adjacency) > MAX_COST
    requires CoverPath(z, accepted, pending, Last(accepted), j)
    ensures CoverPath(z, accepted, pending, Last(accepted), j + 1)
  {
    hide Query.Valid, Route, Eligible, Served, Covers, Total, SpurAnswer, NotAfter;
    forall i, r | 0 <= i < j + 1 && Served(z, accepted, Last(accepted), i, r) ensures Covered(z, pending, i, r) {
      if i == j {
        TotalCovers(z, accepted, Last(accepted), j, bans, g, r);
      }
    }
  }

  lemma NothingCovers(z: Query, accepted: seq<Ranked>, pending: seq<Ranked>, j: nat, bans: Bans)
    requires z.Valid() && |accepted| > 0 && (forall i :: 0 <= i < |accepted| ==> Route(z, accepted[i].path))
    requires j < Last(accepted).Hops() && |Last(accepted).nodes| == Last(accepted).Hops() + 1 && SpurBans(accepted, Last(accepted), j, bans)
    requires forall g :: !Eligible(z.view, Last(accepted).nodes[j], z.destination, SpurBound(z.maxHops, j), bans, g)
    requires CoverPath(z, accepted, pending, Last(accepted), j)
    ensures CoverPath(z, accepted, pending, Last(accepted), j + 1)
  {
    hide Query.Valid, Eligible, Served, SpurBans, Covered;
    assert Route(z, Last(accepted));
    hide Route;
    NothingServed(z, accepted, Last(accepted), j, bans);
  }

  /** After all spur hops, whatever was covered by the last accepted path alone is covered by a pending one. */
  lemma RoundDone(z: Query, accepted: seq<Ranked>, pending: seq<Ranked>)
    requires Round(z, accepted, pending) && CoverPath(z, accepted, pending, Last(accepted), Last(accepted).Hops())
    ensures Cover(z, accepted, pending, |accepted|)
  {
    hide Round, Route, Served, Covered, CoverPath;
    RoundFacts(z, accepted, pending);
    var n := |accepted| - 1;
    forall i, j, q | 0 <= i < |accepted| && Served(z, accepted, accepted[i].path, j, q) ensures Covered(z, pending, j, q) {
      if i == n {
        ServedByLast(z, accepted, pending, j, q);
      } else {
        assert Covered(z, pending + [accepted[n]], j, q);
        Recover(z, accepted, pending, i, j, q);
      }
    }
  }

  lemma RoundFacts(z: Query, accepted: seq<Ranked>, pending: seq<Ranked>)
    requires Round(z, accepted, pending)
    ensures |accepted| > 0 && (forall k :: 0 <= k < |accepted| ==> Route(z, accepted[k].path))
    ensures Cover(z, accepted, pending + [accepted[|accepted| - 1]], |accepted| - 1)
  {
    hide Ascending, Justified, Before, Cover;
    RouteOk(z, accepted);
  }

  lemma ServedByLast(z: Query, accepted: seq<Ranked>, pending: seq<Ranked>, j: nat, q: RawPath)
    requires |accepted| > 0 && Served(z, accepted, Last(accepted), j, q)
    requires CoverPath(z, accepted, pending, Last(accepted), Last(accepted).Hops())
    ensures Covered(z, pending, j, q)
  {
    hide Covered, Route, SharesRoot, BannedAt;
  }

  lemma Recover(z: Query, accepted: seq<Ranked>, pending: seq<Ranked>, i: nat, j: nat, q: RawPath)
    requires |accepted| > 0 && (forall k :: 0 <= k < |accepted| ==> Route(z, accepted[k].path))
    requires i < |accepted| && Served(z, accepted, accepted[i].path, j, q)
    requires Covered(z, pending + [accepted[|accepted| - 1]], j, q)
    requires CoverPath(z, accepted, pending, Last(accepted), Last(accepted).Hops())
    ensures Covered(z, pending, j, q)
  {
    hide Distinct, BannedAt, NotAfter, Cost;
    var all := pending + [accepted[|accepted| - 1]];
    var k :| 0 <= k < |all| && Covers(z.view, all[k].path, j, q);
    if k < |pending| {
      assert all[k] == pending[k];
    } else {
      var x := Last(accepted);
      assert all[k].path == x && Route(z, x);
      RouteLeaves(z, x, q, j);
      RootNodes(z.view, x, q, j);
      RootNodes(z.view, accepted[i].path, q, j);
      assert Served(z, accepted, x, j, q);
    }
  }

  function Without(rs: seq<Ranked>, b: nat): seq<Ranked>
    requires b < |rs|
  {
    rs[..b] + rs[b + 1..]
  }

  lemma WithoutMembers(rs: seq<Ranked>, b: nat)
    requires b < |rs|
    ensures forall k :: 0 <= k < |Without(rs, b)| ==> Without(rs, b)[k] == rs[if k < b then k else k + 1]
    ensures Sub(rs, Without(rs, b) + [rs[b]])
  {
    var w := Without(rs, b);
    forall k | 0 <= k < |rs| ensures rs[k] in w + [rs[b]] {
      if k < b { assert (w + [rs[b]])[k] == rs[k]; } else if k > b { assert (w + [rs[b]])[k - 1] == rs[k]; } else { assert (w + [rs[b]])[|w|] == rs[b]; }
    }
  }

  lemma JustifiedByMore(z: Query, accepted: seq<Ranked>, more: seq<Ranked>, c: RawPath)
    requires accepted <= more && Justified(z, accepted, c)
    ensures Justified(z, more, c)
  {
    hide Least, SharesRoot, BannedAt;
    if !Least(z, c, 0) {
      var i: nat, j: nat :| Deviates(z, accepted, c, i, j);
      assert accepted[i] == more[i];
      assert accepted[..i + 1] == more[..i + 1];
      assert Deviates(z, more, c, i, j);
    }
  }

  /** Moving the least pending path to the accepted ones starts the next round. */
  lemma NextRound(z: Query, accepted: seq<Ranked>, pending: seq<Ranked>, b: nat)
    requires Round(z, accepted, pending) && Cover(z, accepted, pending, |accepted|) && b < |pending|
    requires forall k :: 0 <= k < |pending| ==> NotAfter(z.view, pending[b].path, pending[k].path)
    ensures Round(z, accepted + [pending[b]], Without(pending, b))
  {
    hide Ok, Served, Covered, Justified, Before, Cover, Without;
    var more := accepted + [pending[b]];
    forall i | 0 <= i < |more| ensures Justified(z, more[..i], more[i].path) {
      if i < |accepted| {
        assert more[..i] == accepted[..i];
      } else {
        assert more[..i] == accepted;
      }
    }
    WithoutMembers(pending, b);
    assert |Without(pending, b)| == |pending| - 1 by { WithoutSize(pending, b); }
    assert more[..|more| - 1] == accepted;
    forall i, k | 0 <= i < k < |more| ensures Before(z.view, more[i].path, more[k].path) {
      if k == |accepted| && i < |accepted| - 1 {
        BeforeTransitive(z.view, more[i].path, Last(accepted), more[k].path);
      }
    }
    forall k | 0 <= k < |Without(pending, b)| ensures Justified(z, more, Without(pending, b)[k].path) {
      JustifiedByMore(z, accepted, more, Without(pending, b)[k].path);
    }
    forall k | 0 <= k < |Without(pending, b)| ensures Before(z.view, Last(more), Without(pending, b)[k].path) {
      var l := if k < b then k else k + 1;
      assert NotAfter(z.view, pending[b].path, pending[l].path);
      assert pending[b].path != pending[l].path;
    }
    CoverNext(z, accepted, pending, b);
  }

  lemma WithoutSize(rs: seq<Ranked>, b: nat)
    requires b < |rs|
    ensures |Without(rs, b)| == |rs| - 1
  {
  }

  lemma CoverNext(z: Query, accepted: seq<Ranked>, pending: seq<Ranked>, b: nat)
    requires Cover(z, accepted, pending, |accepted|) && b < |pending|
    ensures Cover(z, accepted + [pending[b]], Without(pending, b) + [pending[b]], |accepted|)
  {
    hide Served, Covered, Without, Sub;
    var more := accepted + [pending[b]];
    WithoutMembers(pending, b);
    forall i, j, q | 0 <= i < |accepted| && Served(z, more, more[i].path, j, q)
      ensures Covered(z, Without(pending, b) + [pending[b]], j, q)
    {
      assert more[i] == accepted[i];
      ServedByFewer(z, accepted, more, accepted[i].path, j, q);
      CoveredMore(z, pending, Without(pending, b) + [pending[b]], j, q);
    }
  }

  // ----- the end of the enumeration

  /** A missed route that is not shadowed is served where it leaves the accepted paths. */
  lemma {:induction false} MissedIsServed(z: Query, accepted: seq<Ranked>, q: RawPath, i: nat, j: nat) returns (a: nat, b: nat)
    requires forall k :: 0 <= k < |accepted| ==> Route(z, accepted[k].path)
    requires Missed(z, accepted, q) && !Shadowed(z, accepted, q)
    requires i < |accepted| && SharesRoot(accepted[i].path, q, j)
    ensures a < |accepted| && Served(z, accepted, accepted[a].path, b, q)
    decreases q.Hops() - j
  {
    hide BannedAt, Distinct;
    if k :| 0 <= k < |accepted| && SharesRoot(accepted[k].path, q, j + 1) {
      a, b := MissedIsServed(z, accepted, q, k, j + 1);
    } else {
      a, b := i, j;
      assert Route(z, accepted[i].path);
      RoutesPart(z, accepted[i].path, q, j);
      assert !ShadowedAt(z, accepted, q, i, j);
      CostSplit(z.view, q.adjacency, j);
    }
  }

  /** In every round, a missed route that is not shadowed comes after all accepted paths. */
  lemma MissedAfterLast(z: Query, accepted: seq<Ranked>, pending: seq<Ranked>, q: RawPath)
    requires Round(z, accepted, pending) && Missed(z, accepted, q) && !Shadowed(z, accepted, q)
    ensures Before(z.view, Last(accepted), q)
  {
    hide Round, Route, Served, Missed, Shadowed, Before;
    RoundFacts(z, accepted, pending);
    assert SharesRoot(accepted[0].path, q, 0);
    var a, b := MissedIsServed(z, accepted, q, 0, 0);
    ServedAfterLast(z, accepted, pending, a, b, q);
  }

  lemma FullIsFirst(z: Query, accepted: seq<Ranked>, pending: seq<Ranked>, wanted: nat)
    requires Round(z, accepted, pending) && |accepted| >= wanted
    ensures FirstRoutes(z, accepted, wanted)
  {
    assert Ascending(z.view, accepted) && forall i :: 0 <= i < |accepted| ==> Ok(z, accepted[i]);
    assert |accepted| > 0;
    hide Round, Ok, Missed, Shadowed, Before, Ascending;
    forall q | Missed(z, accepted, q) && !Shadowed(z, accepted, q) ensures Before(z.view, Last(accepted), q) {
      MissedAfterLast(z, accepted, pending, q);
    }
  }

  lemma ExhaustedIsFirst(z: Query, accepted: seq<Ranked>, wanted: nat)
    requires Round(z, accepted, []) && Cover(z, accepted, [], |accepted|)
    ensures FirstRoutes(z, accepted, wanted)
    ensures forall i, j, q :: 0 <= i < |accepted| ==> !Served(z, accepted, accepted[i].path, j, q)
    ensures forall q :: Route(z, q) && Cost(z.view, q.adjacency) < MAX_COST ==> (Missed(z, accepted, q) <==> Shadowed(z, accepted, q))
  {
    assert Ascending(z.view, accepted) && forall i :: 0 <= i < |accepted| ==> Ok(z, accepted[i]);
    assert |accepted| > 0;
    RoundFacts(z, accepted, []);
    hide Round, Ok, Missed, Shadowed, Before, Ascending, Served, Route;
    forall q | Route(z, q) && Cost(z.view, q.adjacency) < MAX_COST && Shadowed(z, accepted, q) ensures Missed(z, accepted, q) {
      ShadowedIsMissed(z, accepted, q);
      MissedIntro(z, accepted, q);
    }
    assert forall i, j, q :: 0 <= i < |accepted| ==> !Served(z, accepted, accepted[i].path, j, q) by {
      forall i, j: nat, q | 0 <= i < |accepted| ensures !Served(z, accepted, accepted[i].path, j, q) {
        assert !Covered(z, [], j, q);
      }
    }
    forall q | Missed(z, accepted, q) ensures Shadowed(z, accepted, q) {
      if !Shadowed(z, accepted, q) {
        assert SharesRoot(accepted[0].path, q, 0);
        var a, b := MissedIsServed(z, accepted, q, 0, 0);
      }
    }
  }

  lemma MissedIntro(z: Query, rs: seq<Ranked>, q: RawPath)
    requires Route(z, q) && Cost(z.view, q.adjacency) < MAX_COST && forall k :: 0 <= k < |rs| ==> rs[k].path != q
    ensures Missed(z, rs, q)
  {
    hide Route;
  }

  lemma FirstRound(z: Query, first: Ranked)
    requires z.Valid() && Ok(z, first)
    requires forall q :: Eligible(z.view, z.source, z.destination, z.maxHops, NO_BANS, q) ==> NotAfter(z.view, first.path, q)
    requires Cost(z.view, first.path.adjacency) < MAX_COST
    ensures Round(z, [first], [])
  {
    hide Query.Valid;
    forall q | Route(z, q) ensures NotAfter(z.view, first.path, q) {
      if Cost(z.view, q.adjacency) < MAX_COST {
        assert Eligible(z.view, z.source, z.destination, z.maxHops, NO_BANS, q);
      } else {
        CheaperNotAfter(z.view, first.path, q);
      }
    }
  }

  /** With source and destination equal the only route has no hops. */
  lemma FirstRoundSame(z: Query, first: Ranked)
    requires z.Valid() && Ok(z, first) && z.source == z.destination && first.path == RawPath([z.source], [])
    ensures Round(z, [first], [])
  {
    hide Query.Valid;
    forall q | Route(z, q) ensures NotAfter(z.view, first.path, q) {
      assert q.nodes[0] == q.nodes[q.Hops()];
      assert q.nodes == [z.source] && q.adjacency == [];
    }
  }
}
