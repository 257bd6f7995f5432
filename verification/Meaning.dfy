/** What the fields of a decoded request mean for the paths planned for it (src/request.cpp;
    src/planning_view.cpp; README.md sections 4 and 5).  Everything is said of the request and of
    the published snapshot; nothing here goes through the rules a view is built by. */
module RequestMeaning {
  import opened Wrappers
  import opened Values
  import opened Counting
  import opened ResourceLimits
  import opened View
  import opened PathCosts
  import opened MixedRadix
  import opened Domains
  import opened Fabric
  import opened Eligibility
  import opened ViewBuild
  import opened Candidates
  import opened TransitSpec
  import opened RequestCodec
  import opened Planning
  import opened Intake
  import Enumeration

  /** The subject publishes a value of the capability that compares as asked. */
  ghost predicate Serves(s: Snapshot, subject: nat, q: Requirement) {
    var published := Find<nat>(s.capabilities, CapabilityKey(subject, q.capability));
    && published.Some?
    && (q.comparator == 1 ==> published.value >= q.value)
    && (q.comparator == 2 ==> published.value <= q.value)
    && (q.comparator == 3 ==> published.value == q.value)
  }

  /** No failure domain or risk class the request avoids is published for the subject; where membership
      is not published completely, the request does not fail closed or avoids none. */
  ghost predicate Avoids(s: Snapshot, x: PlanningRequest, subject: nat) {
    && (forall d: nat :: Member(subject, d) in s.domains.members ==> d !in x.constraints.forbidden.domains)
    && (forall d: nat, class_: nat :: Member(subject, d) in s.domains.members && Find(s.domainClasses, d) == Some(class_) ==> class_ !in x.constraints.forbidden.classes)
    && (s.domains.complete || (exists d: nat :: Member(subject, d) in s.domains.members) || !x.constraints.bounds.failClosed
        || (x.constraints.forbidden.domains == [] && x.constraints.forbidden.classes == []))
  }

  ghost predicate NodePermitted(s: Snapshot, x: PlanningRequest, id: id16) {
    && id in s.nodes && id !in x.constraints.forbidden.nodes && Avoids(s, x, ForNode(id))
    && forall q :: q in x.constraints.requirements && q.scope == 1 ==> Serves(s, ForNode(id), q)
  }

  /** Links that are down, faulted or retired are never used; others only as the policy says. */
  ghost predicate LinkPermitted(s: Snapshot, x: PlanningRequest, link: id16) {
    var state := Find(s.linkStates, link);
    && state != Some(LinkState.Down) && state != Some(LinkState.Faulted) && state != Some(LinkState.Retired)
    && (state == Some(LinkState.Degraded) ==> x.policy.flags.allowDegraded)
    && (state == Some(LinkState.RevalidationRequired) ==> x.mode == 2)
    && (state == Some(LinkState.Unknown) || state == None ==> x.mode == 2 || !x.policy.flags.requireProof)
  }

  ghost predicate PortPermitted(s: Snapshot, x: PlanningRequest, port: id16) {
    var state := Find(s.portStates, port);
    && port !in x.constraints.forbidden.ports && Avoids(s, x, ForPort(port))
    && state != Some(PortState.AdminDisabled) && state != Some(PortState.Retired) && state != Some(PortState.Superseded)
    && (state == Some(PortState.Draining) ==> x.policy.flags.allowDraining || x.mode == 2)
    && (state == Some(PortState.Maintenance) ==> x.policy.flags.allowMaintenance || x.mode == 2)
    && (state == Some(PortState.RevalidationRequired) ==> x.mode == 2)
    && (state == Some(PortState.Unknown) || state == None ==> x.mode == 2 || !x.policy.flags.requireProof)
    && forall q :: q in x.constraints.requirements && q.scope == 3 ==> Serves(s, ForPort(port), q)
  }

  /** The penalties of a hop over the edge. */
  ghost function PenaltyOf(s: Snapshot, x: PlanningRequest, e: Edge): nat {
    (if Find(s.linkStates, e.id) == Some(LinkState.Degraded) then x.policy.costs.degradedPenalty else 0) +
    (if x.policy.localityScope != [] && e.to !in x.policy.localityScope then x.policy.costs.localityPenalty else 0)
  }

  ghost predicate EdgePermitted(s: Snapshot, x: PlanningRequest, e: Edge) {
    && e.layer == x.constraints.layer && e.id !in x.constraints.forbidden.links
    && NodePermitted(s, x, e.from) && NodePermitted(s, x, e.to)
    && LinkPermitted(s, x, e.id) && Avoids(s, x, ForLink(e.id)) && PortPermitted(s, x, e.fromPort) && PortPermitted(s, x, e.toPort)
    && (forall q :: q in x.constraints.requirements && q.scope == 2 ==> Serves(s, ForLink(e.id), q))
    && e.staticCost + PenaltyOf(s, x, e) <= MAX_COST
  }

  lemma ServesIsSatisfied(s: Snapshot, subject: nat, q: Requirement)
    ensures Serves(s, subject, q) <==> Satisfied(s, subject, q)
  {
    hide Find, CapabilityKey;
  }

  lemma AvoidsIsAllowed(s: Snapshot, x: PlanningRequest, subject: nat)
    requires s.Valid()
    ensures Avoids(s, x, subject) <==> DomainsAllowed(s, RulesOf(x), subject)
  {
    MembersSorted(s);
    SelectAscending(s.domains.members, subject);
    hide Snapshot.Valid, Find, Select;
    assert s.domains.DomainsOf(subject) != [] <==> exists d: nat :: Member(subject, d) in s.domains.members by {
      if s.domains.DomainsOf(subject) != [] {
        assert s.domains.DomainsOf(subject)[0] in s.domains.DomainsOf(subject);
      }
    }
  }

  lemma MembersSorted(s: Snapshot)
    requires s.Valid()
    ensures forall i, j :: 0 <= i < j < |s.domains.members| ==> MemberLess(s.domains.members[i], s.domains.members[j])
  {
  }

  /** Exactly the permitted nodes are eligible. */
  lemma NodeMeaning(s: Snapshot, x: PlanningRequest, id: id16)
    requires s.Valid()
    ensures NodeEligible(s, RulesOf(x), id) <==> NodePermitted(s, x, id)
  {
    hide Snapshot.Valid, Satisfied, Serves, Avoids, DomainsAllowed;
    AvoidsIsAllowed(s, x, ForNode(id));
    forall q ensures Serves(s, ForNode(id), q) <==> Satisfied(s, ForNode(id), q) {
      ServesIsSatisfied(s, ForNode(id), q);
    }
    var qs := x.constraints.requirements;
    assert forall k :: 0 <= k < |qs| ==> qs[k] in qs;
  }

  lemma PortMeaning(s: Snapshot, x: PlanningRequest, port: id16)
    requires s.Valid()
    ensures PortPermitted(s, x, port) <==>
      && port !in x.constraints.forbidden.ports && PortUsable(RulesOf(x), s.PortStateOf(port)) && DomainsAllowed(s, RulesOf(x), ForPort(port))
      && forall k :: 0 <= k < |x.constraints.requirements| && x.constraints.requirements[k].scope == EVERY_PORT ==> Satisfied(s, ForPort(port), x.constraints.requirements[k])
  {
    hide Snapshot.Valid, Satisfied, Serves, Avoids, DomainsAllowed, Find;
    AvoidsIsAllowed(s, x, ForPort(port));
    forall q ensures Serves(s, ForPort(port), q) <==> Satisfied(s, ForPort(port), q) {
      ServesIsSatisfied(s, ForPort(port), q);
    }
    var qs := x.constraints.requirements;
    assert forall k :: 0 <= k < |qs| ==> qs[k] in qs;
  }

  lemma LinkMeaning(s: Snapshot, x: PlanningRequest, e: Edge)
    ensures LinkPermitted(s, x, e.id) <==> LinkUsable(RulesOf(x), s.LinkStateOf(e.id))
    ensures TraversalCost(s, RulesOf(x), e) == e.staticCost + PenaltyOf(s, x, e)
  {
    hide Find;
  }

  /** Exactly the permitted edges are eligible. */
  lemma EdgeMeaning(s: Snapshot, x: PlanningRequest, e: Edge)
    requires s.Valid()
    ensures EdgeEligible(s, RulesOf(x), e) <==> EdgePermitted(s, x, e)
  {
    NodeMeaning(s, x, e.from);
    NodeMeaning(s, x, e.to);
    LinkMeaning(s, x, e);
    PortMeaning(s, x, e.fromPort);
    PortMeaning(s, x, e.toPort);
    AvoidsIsAllowed(s, x, ForLink(e.id));
    hide Snapshot.Valid, Satisfied, Serves, Avoids, DomainsAllowed, NodeEligible, NodePermitted, LinkPermitted, PortPermitted, LinkUsable, PortUsable, Snapshot.LinkStateOf, Snapshot.PortStateOf, TraversalCost, PenaltyOf;
    forall q ensures Serves(s, ForLink(e.id), q) <==> Satisfied(s, ForLink(e.id), q) {
      ServesIsSatisfied(s, ForLink(e.id), q);
    }
    var qs := x.constraints.requirements;
    assert forall k :: 0 <= k < |qs| ==> qs[k] in qs;
  }

  /** The hop is a permitted edge, field by field, with its published state. */
  ghost predicate HopStandsFor(s: Snapshot, h: Hop, e: Edge) {
    && h.link == e.id && h.from == e.from && h.to == e.to && h.fromPort == e.fromPort && h.toPort == e.toPort
    && h.layer == e.layer && h.relationship == e.relationship && h.structuralGeneration == e.structuralGeneration && h.staticCost == e.staticCost
    && h.linkState == (match Find(s.linkStates, e.id) case Some(state) => state case None => LinkState.Unknown)
    && (h.degraded <==> Find(s.linkStates, e.id) == Some(LinkState.Degraded))
  }

  ghost predicate HopPermitted(s: Snapshot, x: PlanningRequest, h: Hop) {
    exists i: nat :: i < |s.edges| && EdgePermitted(s, x, s.edges[i]) && HopStandsFor(s, h, s.edges[i])
  }

  lemma HopMeaning(s: Snapshot, x: PlanningRequest, h: Hop)
    requires s.Valid()
    ensures Lawful(s, RulesOf(x), h) <==> HopPermitted(s, x, h)
  {
    hide Snapshot.Valid, EdgeEligible, EdgePermitted, Find;
    forall i: nat | i < |s.edges| ensures LawfulAs(s, RulesOf(x), h, s.edges[i]) <==> EdgePermitted(s, x, s.edges[i]) && HopStandsFor(s, h, s.edges[i]) {
      EdgeMeaning(s, x, s.edges[i]);
    }
  }

  /** The links of a path that a failure domain is published for. */
  ghost function LinksUnder(s: Snapshot, p: CandidatePath, d: nat): set<nat> {
    set i | 0 <= i < |p.hops| && Member(ForLink(p.hops[i].link), d) in s.domains.members
  }

  ghost predicate MembersWithin(s: Snapshot, p: CandidatePath, limit: nat, failClosed: bool) {
    && (forall d: nat :: |LinksUnder(s, p, d)| <= limit)
    && (failClosed && !s.domains.complete ==> forall i :: 0 <= i < |p.hops| ==> Placed(s, p.hops[i].link))
  }

  /** Some failure domain is published for the link. */
  ghost predicate Placed(s: Snapshot, link: id16) {
    exists d: nat :: Member(ForLink(link), d) in s.domains.members
  }

  /** The path comes by one of the alternatives of every stage, in order. */
  ghost predicate ComesByStages(p: CandidatePath, stages: seq<Stage>) {
    exists at: seq<nat> :: PassesStages(p, stages, at)
  }

  ghost predicate PassesStages(p: CandidatePath, stages: seq<Stage>, at: seq<nat>) {
    && |at| == |stages| && (forall k :: 0 <= k < |at| ==> at[k] < |p.nodes| && p.nodes[at[k]] in stages[k].alternatives)
    && forall k, l :: 0 <= k < l < |at| ==> at[k] <= at[l]
  }

  /** What a request asks of a path, field by field. */
  ghost predicate PathMeets(s: Snapshot, x: PlanningRequest, source: id16, destination: id16, p: CandidatePath) {
    && WellFormed(p) && Distinct(p.nodes)
    && p.source == source && p.destination == destination && p.layer == x.constraints.layer
    && (forall n :: n in p.nodes ==> NodePermitted(s, x, n)) && (forall h :: h in p.hops ==> HopPermitted(s, x, h))
    && (x.constraints.bounds.maxHops.Some? ==> |p.hops| <= x.constraints.bounds.maxHops.value)
    && (x.constraints.stages != [] ==> ComesByStages(p, x.constraints.stages))
    && (x.constraints.stages == [] && x.constraints.bounds.maxMembers.Some? ==> MembersWithin(s, p, x.constraints.bounds.maxMembers.value, x.constraints.bounds.failClosed))
  }

  lemma LimitMeaning(s: Snapshot, p: CandidatePath, limit: Enumeration.MemberLimit)
    requires s.Valid()
    ensures LimitKept(s, limit, p) <==> MembersWithin(s, p, limit.limit, limit.failClosed)
  {
    MembersSorted(s);
    hide Snapshot.Valid, Select;
    forall i | 0 <= i < |p.hops|
      ensures forall d: nat :: d in s.domains.DomainsOf(ForLink(p.hops[i].link)) <==> Member(ForLink(p.hops[i].link), d) in s.domains.members
      ensures s.domains.Known(ForLink(p.hops[i].link)) <==> s.domains.complete || Placed(s, p.hops[i].link)
    {
      SelectAscending(s.domains.members, ForLink(p.hops[i].link));
      if s.domains.DomainsOf(ForLink(p.hops[i].link)) != [] {
        assert s.domains.DomainsOf(ForLink(p.hops[i].link))[0] in s.domains.DomainsOf(ForLink(p.hops[i].link));
      }
    }
    forall d: nat ensures LinksIn(s, p, d) == LinksUnder(s, p, d) {
    }
    assert (forall d: nat :: |LinksIn(s, p, d)| <= limit.limit) <==> forall d: nat :: |LinksUnder(s, p, d)| <= limit.limit;
  }

  lemma StagesMeaning(p: CandidatePath, stages: seq<Stage>)
    ensures StagesMet(stages, p) <==> ComesByStages(p, stages)
  {
    if StagesMet(stages, p) {
      var selection, at: seq<nat> :| Selects(Sizes(stages), selection) && ComesBy(p.nodes, Chosen(stages, selection), at);
      assert PassesStages(p, stages, at);
    }
    if ComesByStages(p, stages) {
      var at: seq<nat> :| PassesStages(p, stages, at);
      var selection := SelectionAt(p, stages, at);
      assert ComesBy(p.nodes, Chosen(stages, selection), at);
    }
  }

  lemma SelectionAt(p: CandidatePath, stages: seq<Stage>, at: seq<nat>) returns (selection: seq<nat>)
    requires PassesStages(p, stages, at)
    ensures Selects(Sizes(stages), selection) && forall k :: 0 <= k < |stages| ==> stages[k].alternatives[selection[k]] == p.nodes[at[k]]
  {
    selection := [];
    for k := 0 to |stages|
      invariant |selection| == k && forall l :: 0 <= l < k ==> selection[l] < |stages[l].alternatives| && stages[l].alternatives[selection[l]] == p.nodes[at[l]]
    {
      var i :| 0 <= i < |stages[k].alternatives| && stages[k].alternatives[i] == p.nodes[at[k]];
      selection := selection + [i];
    }
  }

  /** Exactly these paths are requested. */
  lemma RequestMeans(s: Snapshot, x: PlanningRequest, source: id16, destination: id16, p: CandidatePath)
    requires s.Valid()
    ensures Requested(s, RulesOf(x), DemandOf(x, source, destination), p) <==> PathMeets(s, x, source, destination, p)
  {
    StagesMeaning(p, x.constraints.stages);
    if x.constraints.bounds.maxMembers.Some? {
      LimitMeaning(s, p, Enumeration.MemberLimit(x.constraints.bounds.maxMembers.value, x.constraints.bounds.failClosed));
    }
    LawfulMeaning(s, x, p);
    hide Snapshot.Valid, WellFormed, Distinct, LawfulPath, NodePermitted, HopPermitted, StagesMet, ComesByStages, LimitKept, MembersWithin;
  }

  lemma LawfulMeaning(s: Snapshot, x: PlanningRequest, p: CandidatePath)
    requires s.Valid()
    ensures LawfulPath(s, RulesOf(x), p) <==> (forall n :: n in p.nodes ==> NodePermitted(s, x, n)) && (forall h :: h in p.hops ==> HopPermitted(s, x, h))
  {
    hide Snapshot.Valid, NodeEligible, Lawful, NodePermitted, HopPermitted;
    forall i | 0 <= i < |p.nodes| ensures p.nodes[i] in p.nodes && (NodeEligible(s, RulesOf(x), p.nodes[i]) <==> NodePermitted(s, x, p.nodes[i])) {
      NodeMeaning(s, x, p.nodes[i]);
    }
    forall i | 0 <= i < |p.hops| ensures p.hops[i] in p.hops && (Lawful(s, RulesOf(x), p.hops[i]) <==> HopPermitted(s, x, p.hops[i])) {
      HopMeaning(s, x, p.hops[i]);
    }
  }

  ghost function StaticCostOf(hops: seq<Hop>): nat {
    if hops == [] then 0 else StaticCostOf(hops[..|hops| - 1]) + hops[|hops| - 1].staticCost
  }

  ghost function DegradedHops(p: CandidatePath): set<nat> {
    set i: nat | i < |p.hops| && p.hops[i].degraded
  }

  ghost function HopsOutside(x: PlanningRequest, p: CandidatePath): set<nat> {
    set i: nat | i < |p.hops| && x.policy.localityScope != [] && p.hops[i].to !in x.policy.localityScope
  }

  /** What a request charges for a path, part by part. */
  ghost predicate CostMeets(x: PlanningRequest, p: CandidatePath, c: PathCost) {
    var costs, degraded, outside := x.policy.costs, |DegradedHops(p)|, |HopsOutside(x, p)|;
    && c.hops == |p.hops| && c.degradedHops == degraded && c.localityBreaches == outside
    && c.hopsCost == |p.hops| * costs.hopCost && c.staticCost == StaticCostOf(p.hops)
    && c.degradedPenalty == degraded * costs.degradedPenalty && c.localityPenalty == outside * costs.localityPenalty
    && c.total == c.hopsCost + c.staticCost + c.degradedPenalty + c.localityPenalty
  }

  lemma {:induction false} DegradedCountIs(hops: seq<HopCostInput>)
    ensures DegradedCount(hops) == |set i: nat | i < |hops| && hops[i].degraded|
  {
    if hops != [] {
      var n := |hops| - 1;
      DegradedCountIs(hops[..n]);
      var front := set i: nat | i < n && hops[..n][i].degraded;
      assert (set i: nat | i < |hops| && hops[i].degraded) == front + if hops[n].degraded then {n} else {};
    }
  }

  lemma {:induction false} BreachCountIs(hops: seq<HopCostInput>)
    ensures BreachCount(hops) == |set i: nat | i < |hops| && hops[i].outsideLocality|
  {
    if hops != [] {
      var n := |hops| - 1;
      BreachCountIs(hops[..n]);
      var front := set i: nat | i < n && hops[..n][i].outsideLocality;
      assert (set i: nat | i < |hops| && hops[i].outsideLocality) == front + if hops[n].outsideLocality then {n} else {};
    }
  }

  lemma {:induction false} StaticSumIs(inputs: seq<HopCostInput>, hops: seq<Hop>)
    requires |inputs| == |hops| && forall i :: 0 <= i < |hops| ==> inputs[i].staticCost == hops[i].staticCost
    ensures StaticSum(inputs) == StaticCostOf(hops)
  {
    if hops != [] {
      StaticSumIs(inputs[..|hops| - 1], hops[..|hops| - 1]);
    }
  }

  /** The price of a path is what the request charges for it, and nothing else is. */
  lemma PriceMeans(x: PlanningRequest, p: CandidatePath, c: PathCost)
    ensures c == PriceOf(RulesOf(x), p) <==> CostMeets(x, p, c)
  {
    var inputs := InputsOf(RulesOf(x), p);
    DegradedCountIs(inputs);
    BreachCountIs(inputs);
    StaticSumIs(inputs, p.hops);
    assert (set i: nat | i < |inputs| && inputs[i].degraded) == DegradedHops(p);
    assert (set i: nat | i < |inputs| && inputs[i].outsideLocality) == HopsOutside(x, p);
  }

  /** The ends serve what is asked of the source and of the destination. */
  ghost predicate EndsServe(s: Snapshot, x: PlanningRequest, source: id16, destination: id16) {
    forall q :: q in x.constraints.requirements ==> (q.scope == 4 ==> Serves(s, ForNode(source), q)) && (q.scope == 5 ==> Serves(s, ForNode(destination), q))
  }

  lemma EndsMean(s: Snapshot, x: PlanningRequest, source: id16, destination: id16)
    ensures EndsKept(s, RulesOf(x), source, destination) <==> EndsServe(s, x, source, destination)
  {
    hide Satisfied, Serves;
    var qs := x.constraints.requirements;
    forall q ensures (Serves(s, ForNode(source), q) <==> Satisfied(s, ForNode(source), q)) && (Serves(s, ForNode(destination), q) <==> Satisfied(s, ForNode(destination), q)) {
      ServesIsSatisfied(s, ForNode(source), q);
      ServesIsSatisfied(s, ForNode(destination), q);
    }
    assert forall k :: 0 <= k < |qs| ==> qs[k] in qs;
  }

  /** Every candidate that answers a request meets it field by field, at the price the request sets. */
  lemma AnswerMeans(f: Captured, x: PlanningRequest, source: id16, destination: id16, c: Candidate)
    requires f.snapshot.Valid() && Answers(Some(f), Some(x), source, destination, c)
    ensures PathMeets(f.snapshot, x, source, destination, c.path) && CostMeets(x, c.path, c.cost) && c.cost.total <= MAX_COST
  {
    hide Snapshot.Valid, Requested, PriceOf, PathMeets, CostMeets;
    RequestMeans(f.snapshot, x, source, destination, c.path);
    PriceMeans(x, c.path, c.cost);
  }

  /** The request without its member limit. */
  ghost function WithoutLimit(x: PlanningRequest): PlanningRequest {
    x.(constraints := x.constraints.(bounds := x.constraints.bounds.(maxMembers := None)))
  }

  /** At least max_candidates paths, and as many as may be enumerated, rank before p and meet the
      request but for its member limit. */
  ghost predicate ManyBefore(s: Snapshot, x: PlanningRequest, source: id16, destination: id16, limits: Limits, c: Candidate) {
    exists crowd: seq<Candidate> :: RanksLast(crowd, c) && |crowd| >= x.maxCandidates && |crowd| >= limits.maxEnumerationCandidates && InRank(crowd)
      && forall i :: 0 <= i < |crowd| ==> PathMeets(s, WithoutLimit(x), source, destination, crowd[i].path) && CostMeets(x, crowd[i].path, crowd[i].cost)
  }

  /** What is not returned, although it meets the request, ranks after everything that is, and there is
      a reason: the list is full, or too many paths had to be tried before it. */
  lemma OthersRankAfter(s: Snapshot, x: PlanningRequest, source: id16, destination: id16, limits: Limits, candidates: seq<Candidate>, c: Candidate)
    requires s.Valid() && x.constraints.stages == [] && NothingBetter(s, RulesOf(x), DemandOf(x, source, destination), limits, candidates)
    requires PathMeets(s, x, source, destination, c.path) && CostMeets(x, c.path, c.cost) && c.cost.total < MAX_COST && NotAmong(candidates, c.path)
    ensures RanksLast(candidates, c)
    ensures |candidates| >= x.maxCandidates || (x.constraints.bounds.maxMembers.Some? && ManyBefore(s, x, source, destination, limits, c))
  {
    RequestMeans(s, x, source, destination, c.path);
    PriceMeans(x, c.path, c.cost);
    var d := DemandOf(x, source, destination);
    assert Unlimited(d) == DemandOf(WithoutLimit(x), source, destination) && RulesOf(WithoutLimit(x)) == RulesOf(x);
    hide Snapshot.Valid, Requested, PriceOf, PathMeets, CostMeets, InRank, RanksFirst;
    if |candidates| < x.maxCandidates {
      var crowd: seq<Candidate> :| RanksLast(crowd, c) && |crowd| >= d.maxCandidates && |crowd| >= limits.maxEnumerationCandidates && InRank(crowd)
        && forall i :: 0 <= i < |crowd| ==> Planning.Acceptable(s, RulesOf(x), Unlimited(d), crowd[i]);
      forall i | 0 <= i < |crowd| ensures PathMeets(s, WithoutLimit(x), source, destination, crowd[i].path) && CostMeets(x, crowd[i].path, crowd[i].cost) {
        RequestMeans(s, WithoutLimit(x), source, destination, crowd[i].path);
        PriceMeans(x, crowd[i].path, crowd[i].cost);
      }
    }
  }
}
