/** The path part of a planning call, end to end: view, enumeration, candidates (src/planner.cpp, Plan). */
module Planning {
  import opened Values
  import opened Wrappers
  import opened Counting
  import opened ResourceLimits
  import opened View
  import opened Order
  import opened Queue
  import opened Effort
  import opened PathCosts
  import opened Ranking
  import opened YenSpec
  import opened Yen
  import opened Domains
  import opened Fabric
  import opened Eligibility
  import opened ViewBuild
  import opened Candidates
  import opened MixedRadix
  import opened TransitSpec
  import opened TransitLaws
  import Enumeration
  import Transit

  datatype Demand = Demand(
    source: id16, destination: id16, maxHops: Option<nat>, stages: seq<Stage>,
    maxCandidates: nat, memberLimit: Option<Enumeration.MemberLimit>, zeroHopAllowed: bool)

  function HopBound(d: Demand): nat {
    match d.maxHops case Some(n) => n case None => NO_HOP_BOUND
  }

  /** The links of a path that belong to failure domain d. */
  ghost function LinksIn(s: Snapshot, p: CandidatePath, d: nat): set<nat> {
    set i | 0 <= i < |p.hops| && d in s.domains.DomainsOf(ForLink(p.hops[i].link))
  }

  /** No failure domain is on more links than the limit allows; unknown memberships fail when closed. */
  ghost predicate LimitKept(s: Snapshot, limit: Enumeration.MemberLimit, p: CandidatePath) {
    && (limit.failClosed ==> forall i :: 0 <= i < |p.hops| ==> s.domains.Known(ForLink(p.hops[i].link)))
    && forall d: nat :: |LinksIn(s, p, d)| <= limit.limit
  }

  ghost predicate ComesBy(nodes: seq<nat>, ids: seq<nat>, at: seq<nat>) {
    && |at| == |ids| && (forall k :: 0 <= k < |at| ==> at[k] < |nodes| && nodes[at[k]] == ids[k])
    && forall k, l :: 0 <= k < l < |at| ==> at[k] <= at[l]
  }

  /** The path comes by one alternative of every stage, in order. */
  ghost predicate StagesMet(stages: seq<Stage>, p: CandidatePath) {
    exists selection, at: seq<nat> :: Selects(Sizes(stages), selection) && ComesBy(p.nodes, Chosen(stages, selection), at)
  }

  /** Every hard constraint on a path but one: with required transit the member limit is not applied. */
  ghost predicate Requested(s: Snapshot, r: Rules, d: Demand, p: CandidatePath) {
    && WellFormed(p) && Distinct(p.nodes)
    && p.source == d.source && p.destination == d.destination && p.layer == r.layer
    && (d.maxHops.Some? ==> |p.hops| <= d.maxHops.value)
    && LawfulPath(s, r, p)
    && (if d.stages == [] then d.memberLimit.Some? ==> LimitKept(s, d.memberLimit.value, p) else StagesMet(d.stages, p))
  }

  /** What a requester may rely on for every candidate. */
  ghost predicate Acceptable(s: Snapshot, r: Rules, d: Demand, c: Candidate) {
    Requested(s, r, d, c.path) && c.cost == PriceOf(r, c.path) && c.cost.total <= MAX_COST && c.cost.hops <= MAX_HOP_COUNT
  }

  ghost predicate Shows(v: View, raw: RawPath, c: Candidate) {
    Depicts(v, raw, c.path) && c.cost.total == Cost(v, raw.adjacency) && c.cost.hops == raw.Hops()
  }

  function OptionsOf(d: Demand, limits: Limits): Enumeration.Options {
    var ceiling := if d.memberLimit.Some? && limits.maxEnumerationCandidates > d.maxCandidates then limits.maxEnumerationCandidates else d.maxCandidates;
    Enumeration.Options(d.maxCandidates, ceiling, d.memberLimit)
  }

  /** What the raw paths must meet beyond being routes. */
  ghost predicate Fits(z: Query, s: Snapshot, d: Demand, q: RawPath) {
    if d.stages == [] then Enumeration.Acceptable(z.view, s.domains, d.memberLimit, q)
    else exists selection :: Selects(Sizes(d.stages), selection) && Visits(z.view, Chosen(d.stages, selection), q)
  }

  ghost predicate AllFit(z: Query, s: Snapshot, d: Demand, paths: seq<RawPath>) {
    forall i :: 0 <= i < |paths| ==> Route(z, paths[i]) && Cost(z.view, paths[i].adjacency) <= MAX_COST && Fits(z, s, d, paths[i])
  }

  ghost predicate InOrder(z: Query, paths: seq<RawPath>) {
    forall i, j :: 0 <= i < j < |paths| ==> Before(z.view, paths[i], paths[j])
  }

  /** Enough routes looked at: as many as are asked for, and with a member limit as many as may be tried. */
  ghost predicate Enough(d: Demand, limits: Limits, n: nat) {
    n >= d.maxCandidates && (d.memberLimit.Some? ==> n >= limits.maxEnumerationCandidates)
  }

  /** Not more than that. */
  ghost predicate NotMore(d: Demand, limits: Limits, n: nat) {
    n <= 1 || n <= d.maxCandidates || (d.memberLimit.Some? && n <= limits.maxEnumerationCandidates)
  }

  /** The demand without its member limit. */
  ghost function Unlimited(d: Demand): Demand {
    d.(memberLimit := None)
  }

  /** Without transit: the paths are the first fitting ones of the routes looked at. */
  ghost predicate Picked(z: Query, s: Snapshot, d: Demand, limits: Limits, listed: seq<RawPath>, paths: seq<RawPath>, truncated: bool) {
    && AllFit(z, s, Unlimited(d), listed) && InOrder(z, listed) && NotMore(d, limits, |listed|)
    && (forall i :: 0 <= i < |paths| ==> paths[i] in listed)
    && (forall q :: q in listed && Fits(z, s, d, q) && q !in paths ==> |paths| >= d.maxCandidates && Enumeration.BeforeAll(z.view, paths, q))
    && (d.memberLimit.None? ==> |paths| >= d.maxCandidates || |paths| == |listed|)
    && (truncated <==> d.memberLimit.Some? && |paths| < d.maxCandidates && |listed| > 0 && Enough(d, limits, |listed|))
  }

  /** And enough was looked at: a route that was not comes after all that were. */
  ghost predicate Rest(z: Query, d: Demand, limits: Limits, listed: seq<RawPath>) {
    forall q :: Route(z, q) && Cost(z.view, q.adjacency) < MAX_COST && q !in listed ==> Enough(d, limits, |listed|) && Enumeration.BeforeAll(z.view, listed, q)
  }

  /** How a planning call ended: out of budget, cut short by the enumeration ceiling. */
  datatype Ending = Ending(limited: bool, truncated: bool)

  /** The work budget a request can need. */
  ghost predicate Underfunded(z: Query, d: Demand, limits: Limits) {
    var funds := Funds(limits.maxExpandedStates, limits.maxQueueEntries, limits.maxSpurSearches);
    if d.stages == [] then var n := Searches(z.view, Enumeration.Wanted(OptionsOf(d, limits))); Short(z.view, n, n, funds)
    else !Transit.Admitted(d.stages, limits) || Short(z.view, Transit.AllSearches(d.stages), 0, funds)
  }

  method EnumerateRaw(z: Query, s: Snapshot, d: Demand, limits: Limits) returns (paths: seq<RawPath>, ending: Ending, ghost listed: seq<RawPath>)
    requires z.Valid() && s.Valid() && z.maxHops == HopBound(d)
    ensures |paths| <= d.maxCandidates || |paths| <= 1
    ensures AllFit(z, s, d, paths)
    ensures HopsFit(z.view) ==> InOrder(z, paths)
    ensures ending.limited ==> paths == [] && Underfunded(z, d, limits)
    ensures ending.truncated ==> d.memberLimit.Some? && |paths| < d.maxCandidates
    ensures d.stages == [] && !ending.limited && HopsFit(z.view) ==> Picked(z, s, d, limits, listed, paths, ending.truncated)
    ensures d.stages == [] && !ending.limited && HopsFit(z.view) && NoMeeting(z) ==> Rest(z, d, limits, listed)
    ensures d.stages != [] && d.maxCandidates <= 1 && Transit.Admitted(d.stages, limits) && !ending.limited ==>
      StagedAnswer(z, d.stages, paths != [], if paths == [] then Transit.NO_PATH else paths[0])
  {
    hide Query.Valid, View.Valid, Route, Before, Enumeration.Acceptable, Enumeration.NothingElse, Enumeration.Delivered, Enumeration.KeepsFirst, FirstRoutes, Visits, Transit.TransitAnswer, StagedAnswer, NoMeeting, Short, Searches, Transit.Admitted, Transit.AllSearches, Rest, Picked, AllFit;
    listed := [];
    var budget := new WorkBudget(limits.maxExpandedStates, limits.maxQueueEntries, limits.maxSpurSearches);
    if d.stages != [] {
      var t := Transit.TransitPath(z, d.stages, limits, d.maxCandidates, budget);
      paths := if t.ok then [t.path] else [];
      TransitFits(z, s, d, paths);
      AnswerPath(z, d.stages, t.ok, t.path, Transit.NO_PATH);
      return paths, Ending(t.resourceLimit, false), [];
    }
    SnapshotDomains(s);
    var e;
    ghost var ranked;
    e, ranked := Enumeration.Enumerate(z, s.domains, OptionsOf(d, limits), budget);
    paths := e.paths;
    DeliveredFits(z, s, d, OptionsOf(d, limits), paths);
    listed := PathsOf(ranked);
    if !e.resourceLimit && HopsFit(z.view) {
      ListedIsPicked(z, s, d, limits, ranked, e);
      if NoMeeting(z) {
        ListedIsRest(z, d, limits, ranked);
      }
    }
    ending := Ending(e.resourceLimit, e.truncated);
  }

  lemma SnapshotDomains(s: Snapshot)
    requires s.Valid()
    ensures s.domains.Valid()
  {
  }

  /** An answer that nothing was found holds whatever the unused path is. */
  lemma AnswerPath(z: Query, stages: seq<Stage>, found: bool, p: RawPath, q: RawPath)
    ensures StagedAnswer(z, stages, found, p) ==> StagedAnswer(z, stages, found, if found then p else q)
  {
    hide StagedFor;
  }

  lemma TransitFits(z: Query, s: Snapshot, d: Demand, paths: seq<RawPath>)
    requires d.stages != [] && |paths| <= 1
    requires forall i :: 0 <= i < |paths| ==> Route(z, paths[i]) && Cost(z.view, paths[i].adjacency) <= MAX_COST
    requires forall i :: 0 <= i < |paths| ==> exists selection :: Selects(Sizes(d.stages), selection) && Visits(z.view, Chosen(d.stages, selection), paths[i])
    ensures AllFit(z, s, d, paths)
  {
    hide Route, Visits;
  }

  lemma DeliveredFits(z: Query, s: Snapshot, d: Demand, o: Enumeration.Options, paths: seq<RawPath>)
    requires d.stages == [] && o.maxCandidates == d.maxCandidates && o.memberLimit == d.memberLimit && Enumeration.Delivered(z, s.domains, o, paths)
    ensures AllFit(z, s, d, paths) && |paths| <= d.maxCandidates && (HopsFit(z.view) ==> InOrder(z, paths))
  {
    hide Route, Before, Enumeration.Acceptable;
  }

  ghost function PathsOf(ranked: seq<Ranked>): (paths: seq<RawPath>)
    ensures |paths| == |ranked| && forall i :: 0 <= i < |paths| ==> paths[i] == ranked[i].path
  {
    seq(|ranked|, i requires 0 <= i < |ranked| => ranked[i].path)
  }

  /** How many routes are tried: K, or with a member limit the larger of K and the configured maximum. */
  lemma TriedIs(d: Demand, limits: Limits, n: nat)
    ensures n >= Enumeration.Wanted(OptionsOf(d, limits)) <==> Enough(d, limits, n)
    ensures n <= 1 || n <= Enumeration.Wanted(OptionsOf(d, limits)) ==> NotMore(d, limits, n)
  {
  }

  lemma ListedIsPicked(z: Query, s: Snapshot, d: Demand, limits: Limits, ranked: seq<Ranked>, e: Enumeration.Result)
    requires z.Valid() && d.stages == [] && HopsFit(z.view)
    requires ranked != [] ==> FirstRoutes(z, ranked, Enumeration.Wanted(OptionsOf(d, limits))) && Enumeration.KeepsFirst(z, s.domains, OptionsOf(d, limits), ranked, e.paths)
    requires ranked == [] ==> e.paths == []
    requires |ranked| <= 1 || |ranked| <= Enumeration.Wanted(OptionsOf(d, limits))
    requires e.truncated <==> d.memberLimit.Some? && |e.paths| < d.maxCandidates && ranked != [] && |ranked| >= Enumeration.Wanted(OptionsOf(d, limits))
    requires d.memberLimit.None? ==> |e.paths| >= d.maxCandidates || |e.paths| == |ranked|
    ensures Picked(z, s, d, limits, PathsOf(ranked), e.paths, e.truncated)
  {
    TriedIs(d, limits, |ranked|);
    hide Query.Valid, Route, Enumeration.Acceptable, FirstRoutes, Enough, NotMore, Before, Enumeration.BeforeAll;
    var listed := PathsOf(ranked);
    if ranked != [] {
      ListedFit(z, s, d, ranked, Enumeration.Wanted(OptionsOf(d, limits)));
      forall i | 0 <= i < |e.paths| ensures e.paths[i] in listed {
        assert Enumeration.IsListed(ranked, e.paths[i]);
        var k :| 0 <= k < |ranked| && ranked[k].path == e.paths[i];
        assert listed[k] == e.paths[i];
      }
    }
  }

  lemma ListedFit(z: Query, s: Snapshot, d: Demand, ranked: seq<Ranked>, wanted: nat)
    requires z.Valid() && d.stages == [] && FirstRoutes(z, ranked, wanted)
    ensures AllFit(z, s, Unlimited(d), PathsOf(ranked)) && InOrder(z, PathsOf(ranked))
  {
    hide Query.Valid, Route, Before, Missed, Shadowed, Ok;
    forall i | 0 <= i < |ranked| ensures Route(z, ranked[i].path) && Cost(z.view, ranked[i].path.adjacency) <= MAX_COST && Fits(z, s, Unlimited(d), ranked[i].path) {
      Enumeration.OkRoute(z, ranked[i]);
      Enumeration.RouteInRange(z, ranked[i].path);
    }
  }

  lemma ListedIsRest(z: Query, d: Demand, limits: Limits, ranked: seq<Ranked>)
    requires NoMeeting(z) && d.stages == []
    requires ranked != [] ==> FirstRoutes(z, ranked, Enumeration.Wanted(OptionsOf(d, limits)))
    requires ranked == [] ==> forall q :: Route(z, q) ==> Cost(z.view, q.adjacency) >= MAX_COST
    ensures Rest(z, d, limits, PathsOf(ranked))
  {
    TriedIs(d, limits, |ranked|);
    hide NoMeeting, Route, FirstRoutes, Before, Enough, NotMore;
    var listed := PathsOf(ranked);
    forall q | Route(z, q) && Cost(z.view, q.adjacency) < MAX_COST && q !in listed ensures Enough(d, limits, |listed|) && Enumeration.BeforeAll(z.view, listed, q) {
      forall k | 0 <= k < |ranked| ensures ranked[k].path != q {
        assert listed[k] in listed;
      }
      Enumeration.UnlistedAfter(z, ranked, Enumeration.Wanted(OptionsOf(d, limits)), q);
    }
  }

  /** The candidate loop with its re-checks; on a view of at most 65536 nodes they never fail. */
  method BuildCandidates(z: Query, s: Snapshot, r: Rules, d: Demand, paths: seq<RawPath>) returns (candidates: seq<Candidate>)
    requires Ready(z, s, r, d) && AllFit(z, s, d, paths)
    ensures forall i :: 0 <= i < |candidates| ==> Acceptable(s, r, d, candidates[i])
    ensures HopsFit(z.view) ==> |candidates| == |paths| && forall i :: 0 <= i < |paths| ==> Shows(z.view, paths[i], candidates[i])
    ensures |candidates| <= |paths|
  {
    hide Ready, Acceptable, Shows, Route, HopsFit, Fits;
    candidates := [];
    for i := 0 to |paths|
      invariant forall k :: 0 <= k < |candidates| ==> Acceptable(s, r, d, candidates[k])
      invariant HopsFit(z.view) ==> |candidates| == i && forall k :: 0 <= k < i ==> Shows(z.view, paths[k], candidates[k])
      invariant |candidates| <= i
    {
      var candidate := BuildCandidate(z, s, r, d, paths[i]);
      if candidate.None? {
        continue;
      }
      candidates := candidates + [candidate.value];
    }
  }

  /** The view is the one built for this request. */
  ghost predicate Ready(z: Query, s: Snapshot, r: Rules, d: Demand) {
    && z.Valid() && s.Valid() && Exact(s, r, z.view) && z.view.costModel == r.costModel
    && z.maxHops == HopBound(d) && (d.maxHops.Some? ==> d.maxHops.value < NO_HOP_BOUND)
    && z.source < |z.view.nodeIds| && z.view.nodeIds[z.source] == d.source && z.destination < |z.view.nodeIds| && z.view.nodeIds[z.destination] == d.destination
  }

  /** One raw path, re-checked. */
  method BuildCandidate(z: Query, s: Snapshot, r: Rules, d: Demand, raw: RawPath) returns (c: Option<Candidate>)
    requires Ready(z, s, r, d) && Route(z, raw) && Cost(z.view, raw.adjacency) <= MAX_COST && Fits(z, s, d, raw)
    ensures c.Some? ==> Acceptable(s, r, d, c.value) && Shows(z.view, raw, c.value)
    ensures HopsFit(z.view) ==> c.Some?
  {
    hide Query.Valid, View.Valid, Snapshot.Valid, Exact, Acceptable, Shows, Route, Simple, IsWalk, HopsFit, WellFormed, LawfulPath, Depicts, Distinct, Fits, Itemised, PriceOf;
    QueryFacts(z);
    RouteFacts(z, raw);
    var path := BuildCandidatePath(s, r, z.view, raw);
    var cost := ComputeRawPathCost(z.view, raw);
    var wellFormed := IsWellFormed(path);
    var simple := IsSimple(path);
    if cost.None? || !wellFormed || !simple {
      return None;
    }
    PriceIsCost(s, r, z.view, raw, path);
    FitsIsRequested(z, s, r, d, raw, path);
    Assess(z, s, r, d, raw, Candidate(path, cost.value));
    c := Some(Candidate(path, cost.value));
  }

  lemma QueryFacts(z: Query)
    requires z.Valid()
    ensures z.view.Valid() && z.source < |z.view.nodeIds| && z.destination < |z.view.nodeIds|
  {
  }

  lemma RouteFacts(z: Query, p: RawPath)
    requires z.Valid() && Route(z, p)
    ensures HopsFit(z.view) ==> p.Hops() <= MAX_HOP_COUNT
    ensures IsWalk(z.view, p) && Simple(p) && |p.nodes| == p.Hops() + 1 && p.nodes[0] == z.source && p.nodes[p.Hops()] == z.destination
  {
    hide Query.Valid;
    if HopsFit(z.view) {
      RouteHopsFit(z, p);
    }
  }

  lemma Assess(z: Query, s: Snapshot, r: Rules, d: Demand, raw: RawPath, c: Candidate)
    requires Requested(s, r, d, c.path) && Depicts(z.view, raw, c.path) && c.cost == PriceOf(r, c.path) && c.cost.total <= MAX_COST && c.cost.hops <= MAX_HOP_COUNT
    requires c.cost.total == Cost(z.view, raw.adjacency) && c.cost.hops == raw.Hops()
    ensures Acceptable(s, r, d, c) && Shows(z.view, raw, c)
  {
    hide Requested, Depicts, PriceOf;
  }

  /** A route that fits is shown by a path that is requested, and the other way round. */
  lemma FitsIsRequested(z: Query, s: Snapshot, r: Rules, d: Demand, raw: RawPath, p: CandidatePath)
    requires Ready(z, s, r, d) && IsWalk(z.view, raw) && Depicts(z.view, raw, p) && LawfulPath(s, r, p) && WellFormed(p) && p.layer == r.layer
    requires p.source == z.view.nodeIds[raw.nodes[0]] && p.destination == z.view.nodeIds[raw.nodes[raw.Hops()]]
    ensures Requested(s, r, d, p) <==> Route(z, raw) && Fits(z, s, d, raw)
  {
    hide Query.Valid, Snapshot.Valid, View.Valid, Exact, LawfulPath, WellFormed, Enumeration.Acceptable, Visits, LimitKept, StagesMet, HopBound;
    ReadyFacts(z, s, r, d);
    SimpleBoth(s, r, z.view, raw, p);
    SameIndex(s, r, z.view, raw.nodes[0], z.source);
    SameIndex(s, r, z.view, raw.nodes[raw.Hops()], z.destination);
    BoundKept(d, raw.Hops());
    DepictsHops(z.view, raw, p);
    if d.stages == [] {
      LimitIsCompliance(z, s, d, raw, p);
    } else {
      StagesAreVisits(z, d.stages, raw, p);
    }
  }

  lemma BoundKept(d: Demand, hops: nat)
    requires d.maxHops.Some? ==> d.maxHops.value < NO_HOP_BOUND
    ensures WithinHops(HopBound(d), hops) <==> (d.maxHops.Some? ==> hops <= d.maxHops.value)
  {
  }

  lemma LimitIsCompliance(z: Query, s: Snapshot, d: Demand, raw: RawPath, p: CandidatePath)
    requires z.view.Valid() && IsWalk(z.view, raw) && Depicts(z.view, raw, p)
    ensures Enumeration.Acceptable(z.view, s.domains, d.memberLimit, raw) <==> (d.memberLimit.Some? ==> LimitKept(s, d.memberLimit.value, p))
  {
    hide View.Valid, IsWalk;
    WalkEntriesInRange(z.view, raw);
    forall x: nat ensures LinksIn(s, p, x) == HopsIn(z.view, s.domains, raw.adjacency, x) {
    }
  }

  lemma StagesAreVisits(z: Query, stages: seq<Stage>, raw: RawPath, p: CandidatePath)
    requires Depicts(z.view, raw, p)
    ensures StagesMet(stages, p) <==> exists selection :: Selects(Sizes(stages), selection) && Visits(z.view, Chosen(stages, selection), raw)
  {
    forall ids: seq<nat>, at: seq<nat> ensures ComesBy(p.nodes, ids, at) <==> VisitsAt(z.view, ids, raw, at) {
      VisitsIsComesBy(z.view, raw, p, ids, at);
    }
    hide ComesBy, VisitsAt, Selects, Depicts;
  }

  lemma VisitsIsComesBy(v: View, raw: RawPath, p: CandidatePath, ids: seq<nat>, at: seq<nat>)
    requires Depicts(v, raw, p)
    ensures ComesBy(p.nodes, ids, at) <==> VisitsAt(v, ids, raw, at)
  {
  }

  /** Candidates are listed in ranking order, so sorting, removing repetitions and ranking by
      position change nothing. */
  lemma RankingOrder(z: Query, s: Snapshot, r: Rules, x: RawPath, y: RawPath, p: Candidate, q: Candidate)
    requires z.Valid() && s.Valid() && Exact(s, r, z.view) && Route(z, x) && Route(z, y)
    requires Shows(z.view, x, p) && Shows(z.view, y, q)
    ensures RanksFirst(p, q) <==> Before(z.view, x, y)
    ensures p.path == q.path <==> x == y && p.path == q.path
    ensures Before(z.view, x, y) ==> p.path != q.path
  {
    hide Query.Valid, View.Valid, Snapshot.Valid, Exact, Route, Before, CanonicalOrdering, IsWalk, Simple, Depicts, HopsFit;
    QueryFacts(z);
    RouteFacts(z, x);
    RouteFacts(z, y);
    DepictsHops(z.view, x, p.path);
    DepictsHops(z.view, y, q.path);
    RanksAreCanonical(s, r, z.view, x, y, p, q);
    if p.path == q.path {
      DepictsOnce(s, r, z.view, x, y, p.path);
      if Before(z.view, x, y) {
        BeforeAsymmetric(z.view, x, y);
      }
    }
  }

  lemma DepictsHops(v: View, raw: RawPath, p: CandidatePath)
    requires Depicts(v, raw, p)
    ensures |p.hops| == raw.Hops()
  {
  }

  /** No two eligible edges join the same ordered pair of nodes. */
  ghost predicate NoParallelEdges(s: Snapshot, r: Rules) {
    forall i, j :: 0 <= i < j < |s.edges| && EdgeEligible(s, r, s.edges[i]) && EdgeEligible(s, r, s.edges[j]) ==>
      s.edges[i].from != s.edges[j].from || s.edges[i].to != s.edges[j].to
  }

  lemma NoParallelEntries(s: Snapshot, r: Rules, v: View)
    requires s.Valid() && v.Valid() && Exact(s, r, v) && NoParallelEdges(s, r)
    ensures v.NoParallel()
  {
    hide Snapshot.Valid, View.Valid, Exact, EdgeEligible, StandsFor, View.InSlice;
    forall u: nat, a: nat, b: nat | v.InSlice(u, a) && v.InSlice(u, b) && v.To(a) == v.To(b) ensures a == b {
      SliceFacts(v, u, a);
      SliceFacts(v, u, b);
      var i := EntryEdge(s, r, v, u, a);
      var j := EntryEdge(s, r, v, u, b);
      StandsForLink(s, r, v.nodeIds, u, v.adjacency[a], i);
      StandsForLink(s, r, v.nodeIds, u, v.adjacency[b], j);
      LinkOnce(s, r, v, a, b);
    }
    SlicesAreNatural(v);
  }

  lemma LinkOnce(s: Snapshot, r: Rules, v: View, a: nat, b: nat)
    requires Exact(s, r, v) && a < |v.adjacency| && b < |v.adjacency| && v.adjacency[a].link == v.adjacency[b].link
    ensures a == b
  {
    hide StandsFor, Placed, EdgeEligible, NodesIndexed;
  }

  lemma SlicesAreNatural(v: View)
    requires v.Valid()
    requires forall u: nat, a: nat, b: nat :: v.InSlice(u, a) && v.InSlice(u, b) && v.To(a) == v.To(b) ==> a == b
    ensures v.NoParallel()
  {
  }

  ghost predicate NotAmong(candidates: seq<Candidate>, p: CandidatePath) {
    forall i :: 0 <= i < |candidates| ==> candidates[i].path != p
  }

  ghost predicate RanksLast(candidates: seq<Candidate>, c: Candidate) {
    forall i :: 0 <= i < |candidates| ==> RanksFirst(candidates[i], c)
  }

  /** In ranking order, no path twice. */
  ghost predicate InRank(candidates: seq<Candidate>) {
    forall i, j :: 0 <= i < j < |candidates| ==> RanksFirst(candidates[i], candidates[j]) && candidates[i].path != candidates[j].path
  }

  /** Without transit: the candidates are the first requested ones of the paths looked at, and
      nothing but the member limit keeps any of these out. */
  ghost predicate FirstOf(s: Snapshot, r: Rules, d: Demand, limits: Limits, listed: seq<Candidate>, candidates: seq<Candidate>, truncated: bool) {
    && (forall i :: 0 <= i < |listed| ==> Acceptable(s, r, Unlimited(d), listed[i])) && InRank(listed) && NotMore(d, limits, |listed|)
    && (forall i :: 0 <= i < |candidates| ==> candidates[i] in listed)
    && (forall c :: c in listed && Requested(s, r, d, c.path) && c !in candidates ==> |candidates| >= d.maxCandidates && RanksLast(candidates, c))
    && (d.memberLimit.None? ==> |candidates| >= d.maxCandidates || |candidates| == |listed|)
    && (truncated <==> d.memberLimit.Some? && |candidates| < d.maxCandidates && |listed| > 0 && Enough(d, limits, |listed|))
  }

  /** A path that was not looked at, member limit or not, ranks after all that were, and these were enough. */
  ghost predicate NothingUnlisted(s: Snapshot, r: Rules, d: Demand, limits: Limits, listed: seq<Candidate>) {
    forall p :: Requested(s, r, Unlimited(d), p) && PriceOf(r, p).total < MAX_COST && NotAmong(listed, p) ==>
      Enough(d, limits, |listed|) && RanksLast(listed, Candidate(p, PriceOf(r, p)))
  }

  /** At least K paths, and as many as may be tried, rank before p and meet all of the request but the
      member limit. */
  ghost predicate Crowded(s: Snapshot, r: Rules, d: Demand, limits: Limits, p: CandidatePath) {
    exists crowd: seq<Candidate> :: RanksLast(crowd, Candidate(p, PriceOf(r, p))) && |crowd| >= d.maxCandidates && |crowd| >= limits.maxEnumerationCandidates
      && InRank(crowd) && forall i :: 0 <= i < |crowd| ==> Acceptable(s, r, Unlimited(d), crowd[i])
  }

  /** A requested path that is not returned ranks after all that are.  The list is full then, or,
      with a member limit, the path has a crowd before it. */
  ghost predicate NothingBetter(s: Snapshot, r: Rules, d: Demand, limits: Limits, candidates: seq<Candidate>) {
    forall p :: Requested(s, r, d, p) && PriceOf(r, p).total < MAX_COST && NotAmong(candidates, p) ==>
      RanksLast(candidates, Candidate(p, PriceOf(r, p))) && (|candidates| >= d.maxCandidates || (d.memberLimit.Some? && Crowded(s, r, d, limits, p)))
  }

  lemma RequestedUnlimited(s: Snapshot, r: Rules, d: Demand, p: CandidatePath)
    requires d.stages == [] && Requested(s, r, d, p)
    ensures Requested(s, r, Unlimited(d), p)
  {
    hide WellFormed, LawfulPath, Distinct, LimitKept, StagesMet;
  }

  lemma ReadyUnlimited(z: Query, s: Snapshot, r: Rules, d: Demand)
    ensures Ready(z, s, r, d) <==> Ready(z, s, r, Unlimited(d))
  {
    hide Query.Valid, Snapshot.Valid, Exact;
  }

  /** What was looked at and what was not leave nothing better. */
  lemma ListedLeavesNothing(s: Snapshot, r: Rules, d: Demand, limits: Limits, listed: seq<Candidate>, candidates: seq<Candidate>, truncated: bool)
    requires d.stages == [] && FirstOf(s, r, d, limits, listed, candidates, truncated) && NothingUnlisted(s, r, d, limits, listed)
    ensures NothingBetter(s, r, d, limits, candidates)
  {
    hide Requested, RanksFirst, PriceOf, InRank, NotMore;
    forall p | Requested(s, r, d, p) && PriceOf(r, p).total < MAX_COST && NotAmong(candidates, p)
      ensures RanksLast(candidates, Candidate(p, PriceOf(r, p))) && (|candidates| >= d.maxCandidates || (d.memberLimit.Some? && Crowded(s, r, d, limits, p)))
    {
      RequestedUnlimited(s, r, d, p);
      var c := Candidate(p, PriceOf(r, p));
      if k :| 0 <= k < |listed| && listed[k].path == p {
        assert listed[k] == c && c !in candidates;
      } else {
        assert RanksLast(listed, c);
      }
    }
  }

  /** The candidate that shows a route looked at. */
  lemma ShowOne(z: Query, s: Snapshot, r: Rules, d: Demand, raw: RawPath) returns (c: Candidate)
    requires Ready(z, s, r, d) && HopsFit(z.view) && Route(z, raw) && Cost(z.view, raw.adjacency) <= MAX_COST && Fits(z, s, d, raw)
    ensures Acceptable(s, r, d, c) && Shows(z.view, raw, c)
  {
    ReadyFacts(z, s, r, d);
    RouteFacts(z, raw);
    ReadyModel(z, s, r, d);
    hide Ready, Query.Valid, View.Valid, Snapshot.Valid, Exact, Requested, WellFormed, LawfulPath, PriceOf, Itemised, Fits, Route, IsWalk, Distinct, Simple, Depicts, HopsFit, Acceptable, Shows;
    var p := ShowPath(s, r, z.view, raw);
    FitsIsRequested(z, s, r, d, raw, p);
    PriceIsCost(s, r, z.view, raw, p);
    PriceHops(r, p);
    DepictsHops(z.view, raw, p);
    c := Candidate(p, PriceOf(r, p));
    Assess(z, s, r, d, raw, c);
  }

  lemma ReadyModel(z: Query, s: Snapshot, r: Rules, d: Demand)
    requires Ready(z, s, r, d)
    ensures z.view.costModel == r.costModel
  {
    hide Query.Valid, Snapshot.Valid, Exact;
  }

  lemma ShowAll(z: Query, s: Snapshot, r: Rules, d: Demand, paths: seq<RawPath>) returns (listed: seq<Candidate>)
    requires Ready(z, s, r, d) && HopsFit(z.view) && AllFit(z, s, d, paths)
    ensures |listed| == |paths| && forall i :: 0 <= i < |paths| ==> Shows(z.view, paths[i], listed[i]) && Acceptable(s, r, d, listed[i])
  {
    hide Ready, HopsFit, Route, Fits, Shows, Acceptable;
    listed := [];
    for i := 0 to |paths|
      invariant |listed| == i && forall k :: 0 <= k < i ==> Shows(z.view, paths[k], listed[k]) && Acceptable(s, r, d, listed[k])
    {
      var c := ShowOne(z, s, r, d, paths[i]);
      listed := listed + [c];
    }
  }

  /** What is picked of the routes looked at is shown by what is first of the paths they show. */
  lemma PickedIsFirst(z: Query, s: Snapshot, r: Rules, d: Demand, limits: Limits, raws: seq<RawPath>, paths: seq<RawPath>, listed: seq<Candidate>, candidates: seq<Candidate>, truncated: bool)
    requires Ready(z, s, r, d) && d.stages == [] && Picked(z, s, d, limits, raws, paths, truncated) && AllFit(z, s, d, paths)
    requires |candidates| == |paths| && forall i :: 0 <= i < |paths| ==> Shows(z.view, paths[i], candidates[i]) && Acceptable(s, r, d, candidates[i])
    requires |listed| == |raws| && forall i :: 0 <= i < |raws| ==> Shows(z.view, raws[i], listed[i]) && Acceptable(s, r, Unlimited(d), listed[i])
    ensures FirstOf(s, r, d, limits, listed, candidates, truncated)
  {
    ReadyUnlimited(z, s, r, d);
    hide Ready, Requested, Fits, Shows, Route, RanksFirst, Before, Acceptable, PriceOf, Enough, NotMore;
    Ordered(z, s, r, Unlimited(d), raws, listed);
    forall i, k | 0 <= i < |paths| && 0 <= k < |raws| && paths[i] == raws[k] ensures candidates[i] == listed[k] {
      SameCandidate(z, s, r, d, raws[k], listed[k], candidates[i]);
    }
    forall i | 0 <= i < |candidates| ensures candidates[i] in listed {
      var k :| 0 <= k < |raws| && raws[k] == paths[i];
      assert candidates[i] == listed[k];
    }
    forall c | c in listed && Requested(s, r, d, c.path) && c !in candidates ensures |candidates| >= d.maxCandidates && RanksLast(candidates, c) {
      var k :| 0 <= k < |listed| && listed[k] == c;
      RequestedFits(z, s, r, d, raws[k], c);
      assert raws[k] in raws && forall i :: 0 <= i < |paths| ==> paths[i] != raws[k];
      assert Enumeration.BeforeAll(z.view, paths, raws[k]);
      forall i | 0 <= i < |candidates| ensures RanksFirst(candidates[i], c) {
        ReadyFacts(z, s, r, d);
        RankingOrder(z, s, r, paths[i], raws[k], candidates[i], c);
      }
    }
  }

  lemma SameCandidate(z: Query, s: Snapshot, r: Rules, d: Demand, raw: RawPath, x: Candidate, y: Candidate)
    requires Ready(z, s, r, d) && d.stages == [] && Shows(z.view, raw, x) && Shows(z.view, raw, y)
    requires Acceptable(s, r, Unlimited(d), x) && Acceptable(s, r, d, y)
    ensures x == y
  {
    ReadyUnlimited(z, s, r, d);
    hide Ready, Requested, Shows, PriceOf;
    RequestedUnlimited(s, r, d, y.path);
    SamePath(z, s, r, Unlimited(d), raw, x, y);
  }

  lemma RequestedFits(z: Query, s: Snapshot, r: Rules, d: Demand, raw: RawPath, c: Candidate)
    requires Ready(z, s, r, d) && Route(z, raw) && Shows(z.view, raw, c) && Requested(s, r, d, c.path)
    ensures Fits(z, s, d, raw)
  {
    ReadyFacts(z, s, r, d);
    ReadyEnds(z, s, r, d);
    RequestedFacts(s, r, d, c.path);
    RouteFacts(z, raw);
    hide Ready, Query.Valid, View.Valid, Snapshot.Valid, Exact, Requested, WellFormed, LawfulPath, Distinct, Simple, IsWalk, Fits, Route, Depicts;
    FitsIsRequested(z, s, r, d, raw, c.path);
  }

  lemma ReadyEnds(z: Query, s: Snapshot, r: Rules, d: Demand)
    requires Ready(z, s, r, d)
    ensures z.source < |z.view.nodeIds| && z.view.nodeIds[z.source] == d.source && z.destination < |z.view.nodeIds| && z.view.nodeIds[z.destination] == d.destination
  {
    hide Query.Valid, Snapshot.Valid, Exact;
  }

  /** What is complete for routes is complete for the paths they show. */
  lemma RestIsListed(z: Query, s: Snapshot, r: Rules, d: Demand, limits: Limits, raws: seq<RawPath>, listed: seq<Candidate>)
    requires Ready(z, s, r, d) && d.stages == [] && AllFit(z, s, Unlimited(d), raws) && Rest(z, d, limits, raws)
    requires |listed| == |raws| && forall i :: 0 <= i < |raws| ==> Shows(z.view, raws[i], listed[i]) && Acceptable(s, r, Unlimited(d), listed[i])
    ensures NothingUnlisted(s, r, d, limits, listed)
  {
    ReadyUnlimited(z, s, r, d);
    hide Ready, Requested, Fits, Shows, Route, RanksFirst, Before, Acceptable, PriceOf, Enough;
    forall p | Requested(s, r, Unlimited(d), p) && PriceOf(r, p).total < MAX_COST && NotAmong(listed, p)
      ensures Enough(d, limits, |listed|) && RanksLast(listed, Candidate(p, PriceOf(r, p)))
    {
      var q := RequestedRoute(z, s, r, Unlimited(d), p);
      forall i | 0 <= i < |raws| ensures raws[i] != q {
        ShownOnce(z, s, r, Unlimited(d), raws[i], q, listed[i], p);
      }
      assert Enumeration.BeforeAll(z.view, raws, q);
      forall i | 0 <= i < |listed| ensures RanksFirst(listed[i], Candidate(p, PriceOf(r, p))) {
        ReadyFacts(z, s, r, d);
        RankingOrder(z, s, r, raws[i], q, listed[i], Candidate(p, PriceOf(r, p)));
      }
    }
  }

  lemma ReadyFacts(z: Query, s: Snapshot, r: Rules, d: Demand)
    requires Ready(z, s, r, d)
    ensures z.Valid() && z.view.Valid() && s.Valid() && Exact(s, r, z.view)
  {
    hide View.Valid, Snapshot.Valid, Exact;
  }

  lemma ShownOnce(z: Query, s: Snapshot, r: Rules, d: Demand, raw: RawPath, q: RawPath, c: Candidate, p: CandidatePath)
    requires Ready(z, s, r, d) && Shows(z.view, raw, c) && Acceptable(s, r, d, c) && Requested(s, r, d, p) && Depicts(z.view, q, p) && c.path != p
    ensures raw != q
  {
    hide Query.Valid, View.Valid, Snapshot.Valid, Exact, LimitKept, StagesMet, PriceOf, EdgeEligible, Distinct, NodeEligible;
    if raw == q {
      ShownPathsEqual(s, r, z.view, raw, c.path, p);
    }
  }

  /** A raw path is shown by one lawful candidate path only. */
  lemma ShownPathsEqual(s: Snapshot, r: Rules, v: View, raw: RawPath, x: CandidatePath, y: CandidatePath)
    requires s.Valid() && Depicts(v, raw, x) && Depicts(v, raw, y) && WellFormed(x) && WellFormed(y) && x.layer == y.layer
    requires (forall i :: 0 <= i < |x.hops| ==> Lawful(s, r, x.hops[i])) && forall i :: 0 <= i < |y.hops| ==> Lawful(s, r, y.hops[i])
    ensures x == y
  {
    hide Snapshot.Valid, Lawful;
    assert x.nodes == y.nodes;
    forall i | 0 <= i < |x.hops| ensures x.hops[i] == y.hops[i] {
      LawfulHopOnce(s, r, x.hops[i], y.hops[i]);
    }
    assert x.hops == y.hops;
  }

  lemma LawfulHopOnce(s: Snapshot, r: Rules, x: Hop, y: Hop)
    requires s.Valid() && Lawful(s, r, x) && Lawful(s, r, y) && x.link == y.link
    ensures x == y
  {
    hide Snapshot.Valid, EdgeEligible, Snapshot.LinkStateOf;
    var i: nat :| i < |s.edges| && LawfulAs(s, r, x, s.edges[i]);
    var j: nat :| j < |s.edges| && LawfulAs(s, r, y, s.edges[j]);
    SameId(s, i, j);
  }

  /** Every requested path is shown by a fitting route of the view, at its price. */
  lemma RequestedRoute(z: Query, s: Snapshot, r: Rules, d: Demand, p: CandidatePath) returns (q: RawPath)
    requires Ready(z, s, r, d) && Requested(s, r, d, p)
    ensures Route(z, q) && Fits(z, s, d, q) && Depicts(z.view, q, p)
    ensures Cost(z.view, q.adjacency) == PriceOf(r, p).total && Shows(z.view, q, Candidate(p, PriceOf(r, p)))
  {
    ReadyFacts(z, s, r, d);
    RequestedFacts(s, r, d, p);
    hide Query.Valid, View.Valid, Snapshot.Valid, Exact, Requested, WellFormed, LawfulPath, PriceOf, Itemised, Fits, Route, IsWalk, Distinct, Simple, Depicts;
    q := RawOf(s, r, z.view, p);
    FitsIsRequested(z, s, r, d, q, p);
    PriceIsCost(s, r, z.view, q, p);
    PriceHops(r, p);
    DepictsHops(z.view, q, p);
  }

  lemma RequestedFacts(s: Snapshot, r: Rules, d: Demand, p: CandidatePath)
    requires Requested(s, r, d, p)
    ensures WellFormed(p) && Distinct(p.nodes) && LawfulPath(s, r, p) && p.source == d.source && p.destination == d.destination && p.layer == r.layer
  {
    hide WellFormed, LawfulPath, Distinct, LimitKept, StagesMet;
  }

  /** A price in range adds up in its fields. */
  lemma PriceSound(r: Rules, p: CandidatePath)
    requires PriceOf(r, p).total <= MAX_COST && PriceOf(r, p).hops <= MAX_HOP_COUNT
    ensures CostSound(PriceOf(r, p))
  {
    CountsBounded(InputsOf(r, p));
  }

  lemma PriceHops(r: Rules, p: CandidatePath)
    ensures PriceOf(r, p).hops == |p.hops|
  {
  }

  method PlanCandidates(s: Snapshot, r: Rules, d: Demand, limits: Limits)
    returns (candidates: seq<Candidate>, fatal: Option<Fatal>, ending: Ending, ghost z: Query, ghost listed: seq<Candidate>)
    requires s.Valid() && r.costModel.hopCost <= MAX_COST
    requires d.maxHops.Some? ==> d.maxHops.value < NO_HOP_BOUND
    ensures fatal == FatalOf(s, r, limits.maxNodes, d.source, d.destination)
    ensures fatal.Some? ==> candidates == []
    ensures fatal.None? ==> EndsKept(s, r, d.source, d.destination) && Ready(z, s, r, d) && z.view.maxSearchStates == limits.maxSearchStates
    ensures forall i :: 0 <= i < |candidates| ==> Acceptable(s, r, d, candidates[i])
    ensures |candidates| <= d.maxCandidates || |candidates| <= 1
    ensures limits.maxNodes <= MAX_HOP_COUNT + 1 ==> InRank(candidates)
    ensures ending.limited ==> candidates == [] && fatal.None? && Underfunded(z, d, limits)
    ensures ending.truncated ==> d.memberLimit.Some? && |candidates| < d.maxCandidates
    ensures limits.maxNodes <= MAX_HOP_COUNT + 1 && fatal.None? && !ending.limited && d.stages == [] && (d.source != d.destination || d.zeroHopAllowed) ==>
      FirstOf(s, r, d, limits, listed, candidates, ending.truncated) && (NoParallelEdges(s, r) ==> NothingUnlisted(s, r, d, limits, listed) && NothingBetter(s, r, d, limits, candidates))
    ensures limits.maxNodes <= MAX_HOP_COUNT + 1 && fatal.None? && !ending.limited && d.stages != [] && d.maxCandidates <= 1 && Transit.Admitted(d.stages, limits) ==>
      TransitResult(z, d.stages, candidates)
    ensures d.stages == [] && d.source == d.destination && !d.zeroHopAllowed ==> candidates == []
  {
    hide Query.Valid, Snapshot.Valid, View.Valid, Exact, Ready, Route, Before, Acceptable, Shows, RanksFirst, EndsKept, NodeEligible, FatalOf, EligibleNodes, AllFit, InOrder, Rest, Picked, FirstOf, NothingUnlisted, NoMeeting, NoParallelEdges, NothingBetter, Underfunded, StagedAnswer, Transit.Admitted, Fits, TransitResult;
    ending := Ending(false, false);
    z, listed := Query(NO_VIEW, 0, 0, 0), [];
    var build := BuildPlanningView(s, r, limits.maxNodes, limits.maxSearchStates, d.source, d.destination);
    if build.fatal.Some? {
      return [], build.fatal, ending, z, [];
    }
    fatal := None;
    var query := Query(build.view, build.source.value, build.destination.value, HopBound(d));
    z := query;
    QueryIs(z);
    ReadyIs(z, s, r, d);
    SameIndex(s, r, z.view, z.source, z.destination);
    var paths;
    ghost var raws;
    if query.source == query.destination && d.stages == [] {
      if !d.zeroHopAllowed {
        return [], None, ending, z, [];
      }
      paths := [RawPath([query.source], [])];
      raws := paths;
      ZeroHop(z, s, d, limits);
    } else {
      paths, ending, raws := EnumerateRaw(query, s, d, limits);
    }
    candidates := BuildCandidates(query, s, r, d, paths);
    if limits.maxNodes <= MAX_HOP_COUNT + 1 {
      Ordered(z, s, r, d, paths, candidates);
      if !ending.limited && d.stages == [] {
        listed := ListedOf(z, s, r, d, limits, raws, paths, candidates, ending.truncated);
      }
      if !ending.limited && d.stages != [] && d.maxCandidates <= 1 && Transit.Admitted(d.stages, limits) {
        TransitShown(z, d.stages, paths, candidates);
      }
    }
  }

  /** The paths looked at, shown. */
  lemma ListedOf(z: Query, s: Snapshot, r: Rules, d: Demand, limits: Limits, raws: seq<RawPath>, paths: seq<RawPath>, candidates: seq<Candidate>, truncated: bool)
    returns (listed: seq<Candidate>)
    requires Ready(z, s, r, d) && d.stages == [] && HopsFit(z.view) && Picked(z, s, d, limits, raws, paths, truncated) && AllFit(z, s, d, paths)
    requires NoMeeting(z) ==> Rest(z, d, limits, raws)
    requires |candidates| == |paths| && forall i :: 0 <= i < |paths| ==> Shows(z.view, paths[i], candidates[i]) && Acceptable(s, r, d, candidates[i])
    ensures FirstOf(s, r, d, limits, listed, candidates, truncated)
    ensures NoParallelEdges(s, r) ==> NothingUnlisted(s, r, d, limits, listed) && NothingBetter(s, r, d, limits, candidates)
  {
    ReadyUnlimited(z, s, r, d);
    PickedFit(z, s, d, limits, raws, paths, truncated);
    hide Ready, HopsFit, Picked, AllFit, Rest, Shows, Acceptable, FirstOf, NothingUnlisted, NothingBetter, NoMeeting, NoParallelEdges, View.NoParallel;
    listed := ShowAll(z, s, r, Unlimited(d), raws);
    PickedIsFirst(z, s, r, d, limits, raws, paths, listed, candidates, truncated);
    if NoParallelEdges(s, r) {
      ReadyFacts(z, s, r, d);
      NoParallelEntries(s, r, z.view);
      NoParallelNoMeeting(z);
      RestIsListed(z, s, r, d, limits, raws, listed);
      ListedLeavesNothing(s, r, d, limits, listed, candidates, truncated);
    }
  }

  lemma PickedFit(z: Query, s: Snapshot, d: Demand, limits: Limits, raws: seq<RawPath>, paths: seq<RawPath>, truncated: bool)
    requires Picked(z, s, d, limits, raws, paths, truncated)
    ensures AllFit(z, s, Unlimited(d), raws)
  {
    hide AllFit, Fits, InOrder;
  }

  /** The transit answer, shown. */
  ghost predicate TransitResult(z: Query, stages: seq<Stage>, candidates: seq<Candidate>) {
    if candidates == [] then StagedAnswer(z, stages, false, Transit.NO_PATH)
    else exists raw: RawPath :: StagedAnswer(z, stages, true, raw) && Shows(z.view, raw, candidates[0])
  }

  /** With required transit the member limit plays no part: the answer is the same under any other. */
  lemma LimitPlaysNoPart(z: Query, s: Snapshot, r: Rules, d: Demand, e: Demand, x: seq<Candidate>, y: seq<Candidate>)
    requires d.stages != [] && e == d.(memberLimit := e.memberLimit) && Ready(z, s, r, d)
    requires |x| <= 1 && TransitResult(z, d.stages, x) && forall i :: 0 <= i < |x| ==> Acceptable(s, r, d, x[i])
    requires |y| <= 1 && TransitResult(z, e.stages, y) && forall i :: 0 <= i < |y| ==> Acceptable(s, r, e, y[i])
    ensures x == y
  {
    hide Ready, Shows, PriceOf, StagedAnswer, WellFormed, LawfulPath, Distinct, StagesMet, LimitKept;
    var p := if x == [] then Transit.NO_PATH else var raw: RawPath :| StagedAnswer(z, d.stages, true, raw) && Shows(z.view, raw, x[0]); raw;
    var q := if y == [] then Transit.NO_PATH else var raw: RawPath :| StagedAnswer(z, e.stages, true, raw) && Shows(z.view, raw, y[0]); raw;
    StagedAnswerUnique(z, d.stages, x != [], p, y != [], q);
    if x != [] {
      SamePath(z, s, r, d, p, x[0], y[0]);
    }
  }

  lemma SamePath(z: Query, s: Snapshot, r: Rules, d: Demand, raw: RawPath, x: Candidate, y: Candidate)
    requires Ready(z, s, r, d) && Shows(z.view, raw, x) && Shows(z.view, raw, y) && Acceptable(s, r, d, x)
    requires Requested(s, r, d, y.path) && y.cost == PriceOf(r, y.path)
    ensures x == y
  {
    hide Ready, Requested, PriceOf, Depicts;
    if x.path != y.path {
      ShownOnce(z, s, r, d, raw, raw, x, y.path);
    }
  }

  lemma TransitShown(z: Query, stages: seq<Stage>, paths: seq<RawPath>, candidates: seq<Candidate>)
    requires |candidates| == |paths| && forall i :: 0 <= i < |paths| ==> Shows(z.view, paths[i], candidates[i])
    requires StagedAnswer(z, stages, paths != [], if paths == [] then Transit.NO_PATH else paths[0])
    ensures TransitResult(z, stages, candidates)
  {
    hide StagedAnswer, Shows;
    if paths != [] {
      assert StagedAnswer(z, stages, true, paths[0]) && Shows(z.view, paths[0], candidates[0]);
    }
  }

  lemma Ordered(z: Query, s: Snapshot, r: Rules, d: Demand, paths: seq<RawPath>, candidates: seq<Candidate>)
    requires Ready(z, s, r, d) && AllFit(z, s, d, paths) && InOrder(z, paths)
    requires |candidates| == |paths| && forall i :: 0 <= i < |paths| ==> Shows(z.view, paths[i], candidates[i])
    ensures InRank(candidates)
  {
    hide Ready, Route, Before, Shows, RanksFirst, Fits;
    ReadyFacts(z, s, r, d);
    forall i, j | 0 <= i < j < |candidates| ensures RanksFirst(candidates[i], candidates[j]) && candidates[i].path != candidates[j].path {
      RankingOrder(z, s, r, paths[i], paths[j], candidates[i], candidates[j]);
    }
  }

  lemma QueryIs(z: Query)
    requires z.view.Valid() && z.source < z.view.NodeCount() && z.destination < z.view.NodeCount() && z.maxHops <= NO_HOP_BOUND
    ensures z.Valid()
  {
  }

  lemma ReadyIs(z: Query, s: Snapshot, r: Rules, d: Demand)
    requires z.Valid() && s.Valid() && Exact(s, r, z.view) && z.view.costModel == r.costModel
    requires z.maxHops == HopBound(d) && (d.maxHops.Some? ==> d.maxHops.value < NO_HOP_BOUND)
    requires z.source < |z.view.nodeIds| && z.view.nodeIds[z.source] == d.source && z.destination < |z.view.nodeIds| && z.view.nodeIds[z.destination] == d.destination
    ensures Ready(z, s, r, d)
  {
    hide Query.Valid, Snapshot.Valid, Exact;
  }

  /** From a node to itself there is one route, the one without hops. */
  lemma ZeroHop(z: Query, s: Snapshot, d: Demand, limits: Limits)
    requires z.Valid() && z.source == z.destination && d.stages == []
    ensures var zero := [RawPath([z.source], [])]; AllFit(z, s, d, zero) && InOrder(z, zero) && Picked(z, s, d, limits, zero, zero, false) && Rest(z, d, limits, zero)
  {
    hide View.Valid;
    var p := RawPath([z.source], []);
    NoLinks(z, s, d, p);
    NoLinks(z, s, Unlimited(d), p);
    forall q | Route(z, q) ensures q == p {
      assert q.nodes[0] == q.nodes[q.Hops()] && q.Hops() == 0;
      assert q.nodes == [z.source];
    }
  }

  lemma NoLinks(z: Query, s: Snapshot, d: Demand, p: RawPath)
    requires p.adjacency == [] && d.stages == []
    ensures Fits(z, s, d, p)
  {
    if d.memberLimit.Some? {
      EmptyCompliant(z.view, s.domains, [], d.memberLimit.value.limit, d.memberLimit.value.failClosed);
    }
  }
}
