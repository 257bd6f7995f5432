/** Three nodes in a row: what planning answers there, run for a request without a hop bound and for
    one with a required transit node and a member limit. */
module Corridor {
  import opened Values
  import opened Wrappers
  import opened Counting
  import opened ResourceLimits
  import opened View
  import opened Order
  import opened PathCosts
  import opened MixedRadix
  import opened YenSpec
  import opened Search
  import opened Domains
  import opened Fabric
  import opened Eligibility
  import opened ViewBuild
  import opened Candidates
  import opened TransitSpec
  import opened TransitLaws
  import opened Planning
  import opened Sizing
  import Enumeration
  import Transit

  /** Nothing is forbidden and no operational proof is asked for. */
  const OPEN_RULES := Rules(1, [], [], [], [], [], [], false, CostModel(1, 0, 0), [], false, false, false, false, false)

  const LINKS := [Edge(1, 1, 2, 11, 12, 1, 1, 0, 0), Edge(2, 2, 3, 13, 14, 1, 1, 0, 0)]

  function Row(domains: DomainView): Snapshot {
    Snapshot([1, 2, 3], LINKS, [], [], [], domains, [])
  }

  const ROW := Row(DomainView([], true))

  /** Both links belong to one failure domain. */
  const SHARED := Row(DomainView([Member(ForLink(1), 7), Member(ForLink(2), 7)], true))

  const ACROSS := Demand(1, 3, None, [], 1, None, true)

  /** By the middle node, and no failure domain more than once. */
  const GUARDED := Demand(1, 3, None, [Stage(EXACT, [2])], 1, Some(Enumeration.MemberLimit(1, true)), true)

  /** To stay where one is, by the node where one is, without a hop. */
  const STAYING := Demand(1, 1, Some(0), [Stage(EXACT, [1])], 1, None, true)

  const STAY := CandidatePath(1, 1, 1, [1], [])

  const TWO_HOPS := CandidatePath(1, 3, 1, [1, 2, 3],
    [Hop(1, 1, 2, 11, 12, 1, 1, 0, 0, LinkState.Unknown, false), Hop(2, 2, 3, 13, 14, 1, 1, 0, 0, LinkState.Unknown, false)])

  const TWO_HOP_CANDIDATE := Candidate(TWO_HOPS, PathCost(2, 0, 0, 0, 2, 2, 0, 0))

  lemma NothingForbidden(s: Snapshot, subject: nat)
    ensures DomainsAllowed(s, OPEN_RULES, subject)
  {
  }

  lemma NodeOpen(domains: DomainView, i: nat)
    requires i < 3
    ensures NodeEligible(Row(domains), OPEN_RULES, Row(domains).nodes[i]) && Row(domains).nodes[i] == i + 1
  {
    hide DomainsAllowed;
    NothingForbidden(Row(domains), ForNode(Row(domains).nodes[i]));
    assert Row(domains).nodes[i] in Row(domains).nodes;
  }

  lemma EdgeOpen(domains: DomainView, i: nat)
    requires i < 2
    ensures EdgeEligible(Row(domains), OPEN_RULES, LINKS[i]) && Row(domains).LinkStateOf(LINKS[i].id) == LinkState.Unknown
  {
    hide NodeEligible, DomainsAllowed, RequirementKept;
    var s, e := Row(domains), LINKS[i];
    NodeOpen(domains, i);
    NodeOpen(domains, i + 1);
    NothingForbidden(s, ForLink(e.id));
    NothingForbidden(s, ForPort(e.fromPort));
    NothingForbidden(s, ForPort(e.toPort));
    assert e.from == s.nodes[i] && e.to == s.nodes[i + 1];
  }

  lemma TwoHopsLawful(domains: DomainView)
    ensures LawfulPath(Row(domains), OPEN_RULES, TWO_HOPS) && WellFormed(TWO_HOPS) && Distinct(TWO_HOPS.nodes)
    ensures PriceOf(OPEN_RULES, TWO_HOPS) == TWO_HOP_CANDIDATE.cost
  {
    hide NodeEligible, EdgeEligible, Snapshot.LinkStateOf;
    var s := Row(domains);
    NodeOpen(domains, 0);
    NodeOpen(domains, 1);
    NodeOpen(domains, 2);
    EdgeOpen(domains, 0);
    EdgeOpen(domains, 1);
    assert LawfulAs(s, OPEN_RULES, TWO_HOPS.hops[0], s.edges[0]) && LawfulAs(s, OPEN_RULES, TWO_HOPS.hops[1], s.edges[1]);
    assert HopFits(TWO_HOPS, 0) && HopFits(TWO_HOPS, 1);
    PriceOfTwo();
  }

  lemma PriceOfTwo()
    ensures PriceOf(OPEN_RULES, TWO_HOPS) == TWO_HOP_CANDIDATE.cost
  {
    var hop := HopCostInput(0, false, false);
    assert InputsOf(OPEN_RULES, TWO_HOPS) == [hop, hop];
    assert [hop, hop][..1] == [hop] && [hop][..0] == [];
    assert StaticSum([hop]) == DegradedCount([hop]) == BreachCount([hop]) == 0;
  }

  /** A lawful hop of the row is one of the two links. */
  lemma HopIs(domains: DomainView, h: Hop)
    requires Lawful(Row(domains), OPEN_RULES, h)
    ensures h == TWO_HOPS.hops[0] || h == TWO_HOPS.hops[1]
  {
    hide EdgeEligible, Snapshot.LinkStateOf;
    EdgeOpen(domains, 0);
    EdgeOpen(domains, 1);
    var i: nat :| i < |LINKS| && LawfulAs(Row(domains), OPEN_RULES, h, LINKS[i]);
  }

  /** There is one path across. */
  lemma OnlyPath(domains: DomainView, p: CandidatePath)
    requires WellFormed(p) && Distinct(p.nodes) && LawfulPath(Row(domains), OPEN_RULES, p) && p.source == 1 && p.destination == 3 && p.layer == 1
    ensures p == TWO_HOPS
  {
    hide NodeEligible, Lawful;
    forall i | 0 <= i < |p.hops| ensures p.hops[i] == TWO_HOPS.hops[0] || p.hops[i] == TWO_HOPS.hops[1] {
      HopIs(domains, p.hops[i]);
    }
    assert HopFits(p, 0) && p.hops[0] == TWO_HOPS.hops[0];
    assert HopFits(p, 1) && p.hops[1] == TWO_HOPS.hops[1];
    assert forall i :: 0 <= i < |p.hops| ==> HopFits(p, i);
    assert p.nodes == TWO_HOPS.nodes && p.hops == TWO_HOPS.hops;
  }

  lemma RowValid(domains: DomainView)
    requires domains.Valid()
    ensures Row(domains).Valid()
  {
    hide DomainView.Valid;
  }

  /** The row is planned without a finding that stops it. */
  lemma RowBuilds(domains: DomainView, maxNodes: nat)
    requires maxNodes >= 3
    ensures FatalOf(Row(domains), OPEN_RULES, maxNodes, 1, 3).None?
  {
    hide NodeEligible;
    NodeOpen(domains, 0);
    NodeOpen(domains, 2);
    assert EligibleNodes(Row(domains), OPEN_RULES) <= {1, 2, 3};
    SizeOfSubset(EligibleNodes(Row(domains), OPEN_RULES), {1, 2, 3});
  }

  lemma SizeOfSubset(x: set<id16>, y: set<id16>)
    requires x <= y
    ensures |x| <= |y|
  {
    assert y == x + (y - x);
  }

  lemma OneAcross(domains: DomainView, d: Demand, candidates: seq<Candidate>)
    requires d.source == 1 && d.destination == 3 && |candidates| <= 1
    requires forall i :: 0 <= i < |candidates| ==> Acceptable(Row(domains), OPEN_RULES, d, candidates[i])
    ensures candidates != [] ==> candidates == [TWO_HOP_CANDIDATE]
  {
    hide Requested, PriceOf, LawfulPath, WellFormed, Distinct, CostSound;
    TwoHopsLawful(domains);
    if candidates != [] {
      RequestedFacts(Row(domains), OPEN_RULES, d, candidates[0].path);
      OnlyPath(domains, candidates[0].path);
      assert candidates[0].cost == PriceOf(OPEN_RULES, TWO_HOPS);
    }
  }

  lemma RowHasNoParallels()
    ensures NoParallelEdges(ROW, OPEN_RULES)
  {
    hide EdgeEligible;
  }

  /** Planning across the row without a hop bound returns the two-hop candidate, whatever hop
      maximum is configured. */
  method PlanAcross(limits: Limits) returns (candidates: seq<Candidate>)
    requires WellFunded(ROW, ACROSS, limits) && 3 <= limits.maxNodes <= MAX_HOP_COUNT + 1
    ensures candidates == [TWO_HOP_CANDIDATE]
  {
    hide Snapshot.Valid, Acceptable, NothingBetter, WellFunded, NoParallelEdges, FatalOf, Ready, Underfunded, EndsKept;
    RowValid(ROW.domains);
    RowBuilds(ROW.domains, limits.maxNodes);
    RowHasNoParallels();
    var fatal, ending;
    ghost var z, listed;
    candidates, fatal, ending, z, listed := PlanCandidates(ROW, OPEN_RULES, ACROSS, limits);
    WellFundedIsEnough(z, ROW, OPEN_RULES, ACROSS, limits);
    OneAcross(ROW.domains, ACROSS, candidates);
    NotEmpty(candidates, limits);
  }

  lemma NotEmpty(candidates: seq<Candidate>, limits: Limits)
    requires NothingBetter(ROW, OPEN_RULES, ACROSS, limits, candidates)
    ensures candidates != []
  {
    hide LawfulPath, WellFormed, Distinct, PriceOf, RanksLast;
    TwoHopsLawful(ROW.domains);
    assert candidates == [] ==> NotAmong(candidates, TWO_HOPS);
    assert Requested(ROW, OPEN_RULES, ACROSS, TWO_HOPS);
  }

  /** The view is the row: from each node there is one way on. */
  ghost predicate Chain(v: View, row: RawPath) {
    && IsWalk(v, row) && Simple(row) && row.Hops() == 2
    && (forall u: nat, a: nat, j: nat :: v.InSlice(u, a) && j <= 2 && u == row.nodes[j] ==> j < 2 && a == row.adjacency[j])
    && forall j :: 0 <= j < 2 ==> v.Increment(row.adjacency[j]) == 1
  }

  lemma ChainOf(domains: DomainView, v: View) returns (row: RawPath)
    requires Row(domains).Valid() && v.Valid() && Exact(Row(domains), OPEN_RULES, v) && v.costModel == OPEN_RULES.costModel
    ensures Chain(v, row) && Depicts(v, row, TWO_HOPS)
  {
    hide Snapshot.Valid, View.Valid, Exact, NodeEligible, EdgeEligible, LawfulPath, StandsFor, WellFormed, PriceOf;
    var s := Row(domains);
    TwoHopsLawful(domains);
    row := RawOf(s, OPEN_RULES, v, TWO_HOPS);
    forall u: nat, a: nat, j: nat | v.InSlice(u, a) && j <= 2 && u == row.nodes[j] ensures j < 2 && a == row.adjacency[j] {
      var i := EntryEdge(s, OPEN_RULES, v, u, a);
      StandsForLink(s, OPEN_RULES, v.nodeIds, u, v.adjacency[a], i);
      assert s.edges[i].from == TWO_HOPS.nodes[j] && i == j;
      LinkOnce(s, OPEN_RULES, v, a, row.adjacency[j]);
    }
    forall j | 0 <= j < 2 ensures v.Increment(row.adjacency[j]) == 1 {
      var i := EntryEdge(s, OPEN_RULES, v, row.nodes[j], row.adjacency[j]);
      StandsForLink(s, OPEN_RULES, v.nodeIds, row.nodes[j], v.adjacency[row.adjacency[j]], i);
      Resolved(v, row.adjacency[j]);
    }
  }

  lemma Resolved(v: View, a: nat)
    requires v.Valid() && a < |v.adjacency| && v.costModel == OPEN_RULES.costModel
    ensures v.Increment(a) == 1 + v.adjacency[a].staticCost
  {
    assert v.CostResolved(a);
  }

  function Part(row: RawPath, j: nat, k: nat): RawPath
    requires j <= k < |row.nodes| == |row.adjacency| + 1
  {
    RawPath(row.nodes[j..k + 1], row.adjacency[j..k])
  }

  /** Walks along the row are parts of the row. */
  lemma WalkOnChain(v: View, row: RawPath, j: nat, g: RawPath)
    requires Chain(v, row) && j <= 2 && IsWalk(v, g) && g.nodes[0] == row.nodes[j]
    ensures j + g.Hops() <= 2 && g == Part(row, j, j + g.Hops())
  {
    for i := 0 to |g.adjacency|
      invariant j + i <= 2 && g.nodes[i] == row.nodes[j + i]
      invariant forall k :: 0 <= k <= i ==> g.nodes[k] == row.nodes[j + k]
      invariant forall k :: 0 <= k < i ==> g.adjacency[k] == row.adjacency[j + k]
    {
      assert v.InSlice(g.nodes[i], g.adjacency[i]);
      assert v.InSlice(row.nodes[j + i], row.adjacency[j + i]);
    }
  }

  /** One step along the row is the answer of the search for it. */
  lemma StepAnswers(v: View, row: RawPath, j: nat, bans: Bans)
    requires Chain(v, row) && j < 2 && bans.entries == {} && row.nodes[j + 1] !in bans.nodes
    ensures Answer(v, row.nodes[j], row.nodes[j + 1], NO_HOP_BOUND, bans, true, Part(row, j, j + 1))
  {
    var s, d, p := row.nodes[j], row.nodes[j + 1], Part(row, j, j + 1);
    assert p.nodes == [s, d] && p.adjacency == [row.adjacency[j]] && p.adjacency[..0] == [];
    assert v.InSlice(s, row.adjacency[j]) && v.To(row.adjacency[j]) == d;
    assert Cost(v, p.adjacency) == 1;
    assert Eligible(v, s, d, NO_HOP_BOUND, bans, p) && Simple(p);
    forall q | Eligible(v, s, d, NO_HOP_BOUND, bans, q) ensures q == p {
      WalkOnChain(v, row, j, q);
      assert q.nodes[q.Hops()] == row.nodes[j + q.Hops()];
    }
  }

  /** The combination of the middle node completes. */
  lemma MiddleCompletes(z: Query, row: RawPath)
    requires z.Valid() && Chain(z.view, row) && Depicts(z.view, row, TWO_HOPS) && z.maxHops == NO_HOP_BOUND && z.source == row.nodes[0] && z.destination == row.nodes[2]
    ensures Outcome(z, [2]) == Some(row)
  {
    hide Query.Valid, Chain, StagedPath, Completed;
    ChainFacts(z.view, row);
    FirstLeg(z, row);
    LastLeg(z, row);
  }

  lemma FirstLeg(z: Query, row: RawPath)
    requires z.Valid() && Chain(z.view, row) && Depicts(z.view, row, TWO_HOPS) && z.maxHops == NO_HOP_BOUND && z.source == row.nodes[0] && |row.nodes| == 3 && |row.adjacency| == 2
    ensures StagedPath(z, [2]) == Some(Part(row, 0, 1))
  {
    hide Query.Valid, Answer, Chain, NextLeg, IsWalk, Elements;
    ChainFacts(z.view, row);
    var p, q := RawPath([z.source], []), Part(row, 0, 1);
    var bans := Bans(Elements(p.nodes) - {End(p)}, {});
    assert forall x: nat :: x in Elements(p.nodes) ==> x == z.source;
    assert row.nodes[0] != row.nodes[1];
    StepAnswers(z.view, row, 0, bans);
    LegIs(z, p, row.nodes[1], true, q);
    assert Join(p, q) == q && [2][..0] == [];
  }

  lemma LastLeg(z: Query, row: RawPath)
    requires z.Valid() && Chain(z.view, row) && z.maxHops == NO_HOP_BOUND && z.destination == row.nodes[2] && |row.nodes| == 3 && |row.adjacency| == 2
    ensures Completed(z, Part(row, 0, 1)) == Some(row)
  {
    hide Query.Valid, Answer, Chain, Completed, IsWalk, Elements;
    ChainFacts(z.view, row);
    var q := Part(row, 0, 1);
    StepAnswers(z.view, row, 1, Bans(Elements(q.nodes) - {End(q), z.destination}, {}));
    FinalIs(z, q, true, Part(row, 1, 2));
    assert Join(q, Part(row, 1, 2)) == row;
  }

  lemma ChainFacts(v: View, row: RawPath)
    requires Chain(v, row)
    ensures IsWalk(v, row) && Simple(row) && row.Hops() == 2 && Cost(v, row.adjacency) == 2
  {
    var a, b := row.adjacency[0], row.adjacency[1];
    assert row.adjacency == [a, b] && [a, b][..1] == [a] && [a][..0] == [];
    assert Cost(v, [a]) == 1;
  }

  /** Both hops are in domain 7, of which the request allows one. */
  lemma SharedTwice()
    ensures !LimitKept(SHARED, GUARDED.memberLimit.value, TWO_HOPS)
  {
    var members := SHARED.domains.members;
    assert members[..1] == [Member(ForLink(1), 7)] && members[..1][..0] == [];
    assert Select(members[..1], ForLink(1)) == [7] && Select(members, ForLink(1)) == [7] && Select(members, ForLink(2)) == [7];
    assert LinksIn(SHARED, TWO_HOPS, 7) == {0, 1};
  }

  /** Required transit leaves the member limit out: the one answer across the row breaks it. */
  method PlanGuarded(limits: Limits) returns (candidates: seq<Candidate>)
    requires WellFunded(SHARED, GUARDED, limits) && 3 <= limits.maxNodes <= MAX_HOP_COUNT + 1
    ensures candidates == [TWO_HOP_CANDIDATE] && !LimitKept(SHARED, GUARDED.memberLimit.value, candidates[0].path)
  {
    hide Snapshot.Valid, Acceptable, FatalOf, Ready, Underfunded, EndsKept, TransitResult, LimitKept, Transit.Admitted;
    RowValid(SHARED.domains);
    RowBuilds(SHARED.domains, limits.maxNodes);
    SharedTwice();
    var fatal, ending;
    ghost var z, listed;
    candidates, fatal, ending, z, listed := PlanCandidates(SHARED, OPEN_RULES, GUARDED, limits);
    WellFundedIsEnough(z, SHARED, OPEN_RULES, GUARDED, limits);
    OneAcross(SHARED.domains, GUARDED, candidates);
    SomeTransit(z, candidates);
  }

  lemma SomeTransit(z: Query, candidates: seq<Candidate>)
    requires Ready(z, SHARED, OPEN_RULES, GUARDED) && TransitResult(z, GUARDED.stages, candidates)
    ensures candidates != []
  {
    hide Query.Valid, View.Valid, Snapshot.Valid, Exact, Outcome, Chain;
    ReadyFacts(z, SHARED, OPEN_RULES, GUARDED);
    var row := ChainOf(SHARED.domains, z.view);
    SameIndex(SHARED, OPEN_RULES, z.view, row.nodes[0], z.source);
    SameIndex(SHARED, OPEN_RULES, z.view, row.nodes[2], z.destination);
    ChainFacts(z.view, row);
    MiddleCompletes(z, row);
    assert Sizes(GUARDED.stages) == [1];
    assert Selects(Sizes(GUARDED.stages), [0]) && Chosen(GUARDED.stages, [0]) == [2];
    OutcomeLaw(z, [2], row);
    assert StagedFor(z, GUARDED.stages, [0], row);
  }

  /** A stage is refused once the hop bound is spent, even where the path already is at that node: the
      path without hops meets all of this request, and planning returns nothing. */
  method PlanStaying(limits: Limits) returns (candidates: seq<Candidate>)
    requires WellFunded(ROW, STAYING, limits) && 3 <= limits.maxNodes <= MAX_HOP_COUNT + 1
    ensures candidates == [] && Requested(ROW, OPEN_RULES, STAYING, STAY)
  {
    hide Snapshot.Valid, Acceptable, FatalOf, Ready, Underfunded, EndsKept, TransitResult, Transit.Admitted, Requested;
    RowValid(ROW.domains);
    StayRequested();
    StayBuilds(limits.maxNodes);
    var fatal, ending;
    ghost var z, listed;
    candidates, fatal, ending, z, listed := PlanCandidates(ROW, OPEN_RULES, STAYING, limits);
    WellFundedIsEnough(z, ROW, OPEN_RULES, STAYING, limits);
    StayUnmet(z, candidates);
  }

  lemma StayBuilds(maxNodes: nat)
    requires maxNodes >= 3
    ensures FatalOf(ROW, OPEN_RULES, maxNodes, 1, 1).None?
  {
    hide NodeEligible;
    NodeOpen(ROW.domains, 0);
    assert EligibleNodes(ROW, OPEN_RULES) <= {1, 2, 3};
    SizeOfSubset(EligibleNodes(ROW, OPEN_RULES), {1, 2, 3});
  }

  lemma StayRequested()
    ensures Requested(ROW, OPEN_RULES, STAYING, STAY)
  {
    hide NodeEligible;
    NodeOpen(ROW.domains, 0);
    assert Sizes(STAYING.stages) == [1] && Selects([1], [0]) && Chosen(STAYING.stages, [0]) == [1];
    assert ComesBy(STAY.nodes, Chosen(STAYING.stages, [0]), [0]);
  }

  lemma StayUnmet(z: Query, candidates: seq<Candidate>)
    requires Ready(z, ROW, OPEN_RULES, STAYING) && TransitResult(z, STAYING.stages, candidates)
    ensures candidates == []
  {
    hide Query.Valid, Snapshot.Valid, Exact, CompletedTo, Shows;
    if candidates != [] {
      var raw: RawPath :| StagedAnswer(z, STAYING.stages, true, raw) && Shows(z.view, raw, candidates[0]);
      var selection :| StagedFor(z, STAYING.stages, selection, raw);
      NothingStaged(z, Chosen(STAYING.stages, selection), raw);
    }
  }

  lemma NothingStaged(z: Query, ids: seq<nat>, r: RawPath)
    requires z.maxHops == 0 && |ids| == 1
    ensures !StagedRoute(z, ids, r)
  {
    hide CompletedTo, BestOnward;
    forall p ensures !Staged(z, ids, p) {
      assert ids[..0] == [] && forall q :: Staged(z, [], q) ==> q.Hops() == 0;
    }
  }
}
