/** Work budgets a caller can choose before the call: sizes of the snapshot are enough to know. */
module Sizing {
  import opened Counting
  import opened ResourceLimits
  import opened View
  import opened Effort
  import opened YenSpec
  import opened Yen
  import opened Fabric
  import opened Eligibility
  import opened ViewBuild
  import opened Candidates
  import opened Planning
  import Enumeration
  import Transit

  /** At least as many searches as the request can take. */
  ghost function SearchesEnough(s: Snapshot, d: Demand, limits: Limits): nat {
    if d.stages == [] then 1 + Enumeration.Wanted(OptionsOf(d, limits)) * |s.nodes| else Transit.AllSearches(d.stages)
  }

  /** The limits leave every search of this request all the work this snapshot can cause. */
  ghost predicate WellFunded(s: Snapshot, d: Demand, limits: Limits) {
    var n, work := SearchesEnough(s, d, limits), |s.nodes| * |s.edges|;
    && limits.maxSearchStates >= |s.nodes| * |s.nodes|
    && limits.maxExpandedStates >= n * work && limits.maxQueueEntries >= n * (work + 1) && limits.maxSpurSearches >= n
    && (d.stages != [] ==> Transit.Admitted(d.stages, limits))
  }

  /** A view has no more nodes and entries than its snapshot has nodes and edges. */
  lemma ViewSize(s: Snapshot, r: Rules, v: View)
    requires s.Valid() && v.Valid() && Exact(s, r, v)
    ensures |v.nodeIds| <= |s.nodes| && |v.adjacency| <= |s.edges|
  {
    hide Snapshot.Valid, View.Valid, NodeEligible, EdgeEligible, StandsFor, Placed;
    NodesOfView(s, r, v);
    EligibleListed(s, r);
    var places := seq(|v.nodeIds|, u requires 0 <= u < |v.nodeIds| => PlaceOf(s.nodes, v.nodeIds[u]));
    forall t, u | 0 <= t < u < |places| ensures places[t] != places[u] {
      assert v.nodeIds[t] != v.nodeIds[u];
    }
    DistinctBounded(places, |s.nodes|);
    EntriesFit(s, r, v);
  }

  ghost function PlaceOf(ids: seq<nat>, id: nat): (i: nat)
    ensures id in ids ==> i < |ids| && ids[i] == id
  {
    if i: nat :| i < |ids| && ids[i] == id then i else 0
  }

  lemma EntriesFit(s: Snapshot, r: Rules, v: View)
    requires s.Valid() && v.Valid() && Exact(s, r, v)
    ensures |v.adjacency| <= |s.edges|
  {
    hide Snapshot.Valid, NodeEligible, EdgeEligible, StandsFor, Placed, NodesIndexed;
    var edges: seq<nat> := [];
    for a := 0 to |v.adjacency|
      invariant |edges| == a && forall k :: 0 <= k < a ==> edges[k] < |s.edges| && s.edges[edges[k]].id == v.adjacency[k].link
    {
      var u := SliceOf(v, a);
      var i := EntryEdge(s, r, v, u, a);
      StandsForLink(s, r, v.nodeIds, u, v.adjacency[a], i);
      edges := edges + [i];
    }
    forall x, y | 0 <= x < y < |edges| ensures edges[x] != edges[y] {
      assert v.adjacency[x].link != v.adjacency[y].link;
    }
    DistinctBounded(edges, |s.edges|);
  }

  /** Every entry lies in some slice. */
  lemma SliceOf(v: View, a: nat) returns (u: nat)
    requires v.Valid() && a < |v.adjacency|
    ensures v.InSlice(u, a)
  {
    u := 0;
    while v.offsets[u + 1] <= a
      invariant u < |v.nodeIds| && v.offsets[u] <= a
      decreases |v.nodeIds| - u
    {
      u := u + 1;
    }
  }

  /** With such limits no call ends for want of budget. */
  lemma WellFundedIsEnough(z: Query, s: Snapshot, r: Rules, d: Demand, limits: Limits)
    requires Ready(z, s, r, d) && z.view.maxSearchStates == limits.maxSearchStates && WellFunded(s, d, limits)
    ensures !Underfunded(z, d, limits)
  {
    hide Snapshot.Valid, Exact, Transit.Admitted;
    ReadyFacts(z, s, r, d);
    QueryFacts(z);
    ViewSize(s, r, z.view);
    hide Query.Valid, View.Valid;
    var v, n := z.view, SearchesEnough(s, d, limits);
    var funds := Funds(limits.maxExpandedStates, limits.maxQueueEntries, limits.maxSpurSearches);
    Product(|v.nodeIds|, |s.nodes|, |v.nodeIds|, |s.nodes|);
    Product(|v.nodeIds|, |s.nodes|, |v.adjacency|, |s.edges|);
    Product(n, n, SearchWork(v), |s.nodes| * |s.edges|);
    Product(n, n, SearchWork(v) + 1, |s.nodes| * |s.edges| + 1);
    assert Affords(v, n, n, funds) && !TooManyStates(v);
    if d.stages == [] {
      var k := Enumeration.Wanted(OptionsOf(d, limits));
      SearchesFit(v, k, |s.nodes|);
      AffordsLess(v, Searches(v, k), Searches(v, k), n, n, funds);
    } else {
      AffordsLess(v, n, 0, n, n, funds);
    }
  }

  lemma Product(x: nat, y: nat, p: nat, q: nat)
    requires x <= y && p <= q
    ensures x * p <= y * q
  {
  }

  lemma {:induction false} SearchesFit(v: View, k: nat, n: nat)
    requires v.NodeCount() <= n
    ensures Searches(v, k) <= 1 + k * n
  {
    if k > 1 {
      SearchesFit(v, k - 1, n);
      assert k * n == (k - 1) * n + n;
    }
  }
}
