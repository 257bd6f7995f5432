/** From the bytes of a request to its candidates: decoding, the gates a request passes before it is
    planned, and what its constraints mean for the answer (src/proto.cpp, DecodePlanningRequestPayload;
    src/planner.cpp, Plan and ResolveEndpoint). */
module Intake {
  import opened Wrappers
  import opened Values
  import opened ResourceLimits
  import opened Counting
  import opened View
  import opened Bytes
  import opened PathCosts
  import opened MixedRadix
  import opened TransitSpec
  import opened YenSpec
  import opened Fabric
  import opened Eligibility
  import opened ViewBuild
  import opened Candidates
  import opened Planning
  import opened RequestCodec
  import Enumeration
  import Transit

  const DIAGNOSTIC: PlanningMode := 2

  datatype Binding = Binding(class_: EndpointClass, node: id16, generation: u64)

  /** What the runtime captures under its lock: the published snapshot with its identity,
      generations and endpoint bindings. */
  datatype Captured = Captured(snapshot: Snapshot, id: id16, generations: Generations, endpoints: seq<Record<Binding>>) {
    /** What the snapshot builder checks. */
    ghost predicate Valid() {
      snapshot.Valid() && Sorted(endpoints) && forall i :: 0 <= i < |endpoints| ==> endpoints[i].value.node in snapshot.nodes
    }
  }

  datatype Refusal = InvalidRequest | ScopeInsufficient | CoordinatorEpochMismatch | SnapshotNotAvailable
    | FabricEpochMismatch | TopologyMismatch | SnapshotMismatch
    | UnknownEndpoint(source: bool) | EndpointClassMismatch(source: bool) | EndpointGenerationMismatch(source: bool)

  /** The request's constraints and policy, as view construction reads them. */
  function RulesOf(x: PlanningRequest): Rules {
    var c, p := x.constraints, x.policy;
    Rules(c.layer, c.forbidden.nodes, c.forbidden.links, c.forbidden.ports, c.forbidden.domains, c.forbidden.classes, c.requirements, c.bounds.failClosed,
          CostModel(p.costs.hopCost, p.costs.degradedPenalty, p.costs.localityPenalty), p.localityScope,
          p.flags.allowDegraded, p.flags.allowDraining, p.flags.allowMaintenance, p.flags.requireProof, x.mode == DIAGNOSTIC)
  }

  /** What is asked for between the two resolved nodes. */
  function DemandOf(x: PlanningRequest, source: id16, destination: id16): Demand {
    var b := x.constraints.bounds;
    Demand(source, destination, match b.maxHops { case Some(n) => Some(n) case None => None }, x.constraints.stages, x.maxCandidates,
           match b.maxMembers { case Some(n) => Some(Enumeration.MemberLimit(n, b.failClosed)) case None => None }, x.policy.flags.allowZeroHop)
  }

  /** The endpoint is published with this class and generation, on this node. */
  ghost predicate BoundTo(f: Captured, e: Endpoint, node: id16) {
    Find(f.endpoints, e.id) == Some(Binding(e.class_, node, e.generation)) && node in f.snapshot.nodes
  }

  /** Why an endpoint is not resolved. */
  ghost function EndpointRefusal(f: Captured, e: Endpoint, source: bool): Option<Refusal> {
    match Find(f.endpoints, e.id)
    case None => Some(UnknownEndpoint(source))
    case Some(binding) =>
      if binding.class_ != e.class_ then Some(EndpointClassMismatch(source))
      else if binding.generation != e.generation then Some(EndpointGenerationMismatch(source))
      else None
  }

  method ResolveEndpoint(f: Captured, e: Endpoint, source: bool) returns (refusal: Option<Refusal>, node: id16)
    requires f.Valid()
    ensures refusal.None? <==> exists n: id16 :: BoundTo(f, e, n)
    ensures refusal.None? ==> BoundTo(f, e, node)
    ensures refusal == EndpointRefusal(f, e, source)
  {
    hide Snapshot.Valid, Find;
    var binding := Lookup(f.endpoints, e.id);
    if binding.None? {
      return Some(UnknownEndpoint(source)), 0;
    }
    var found := binding.value;
    if found.class_ != e.class_ {
      return Some(EndpointClassMismatch(source)), 0;
    }
    if found.generation != e.generation {
      return Some(EndpointGenerationMismatch(source)), 0;
    }
    PublishedNode(f, e.id);
    assert BoundTo(f, e, found.node);
    var i := FindNode(f.snapshot, found.node);
    refusal, node := if i.None? then Some(UnknownEndpoint(source)) else None, found.node;
  }

  lemma PublishedNode(f: Captured, id: id16)
    requires f.Valid()
    ensures Find(f.endpoints, id).Some? ==> Find(f.endpoints, id).value.node in f.snapshot.nodes
    ensures forall i, j :: 0 <= i < j < |f.snapshot.nodes| ==> f.snapshot.nodes[i] < f.snapshot.nodes[j]
  {
  }

  ghost predicate Authorized(x: PlanningRequest, epoch: u64) {
    && (x.authority.enforceScope ==> x.authority.scopeMask % 2 == 1)
    && (x.authority.epochBound ==> x.authority.coordinatorEpoch == epoch)
  }

  ghost predicate Expected(x: PlanningRequest, f: Captured) {
    && (x.expectations.expectEpoch ==> x.expectations.expectedEpoch == f.generations.epoch)
    && (x.expectations.expectTopology ==> x.expectations.expectedTopology == f.generations.topology)
    && (x.expectations.expectSnapshot ==> x.expectations.expectedSnapshot == f.id)
  }

  /** The request is planned against this snapshot, between these nodes. */
  ghost predicate Admitted(x: PlanningRequest, epoch: u64, f: Option<Captured>, limits: Limits, source: id16, destination: id16) {
    && RequestValid(x, limits) && Authorized(x, epoch)
    && f.Some? && Expected(x, f.value) && BoundTo(f.value, x.source, source) && BoundTo(f.value, x.destination, destination)
  }

  /** Why a request is refused: the first of these reasons that holds. */
  ghost function RefusalOf(x: PlanningRequest, epoch: u64, f: Option<Captured>, limits: Limits): Option<Refusal> {
    if !RequestValid(x, limits) then Some(InvalidRequest)
    else if x.authority.enforceScope && x.authority.scopeMask % 2 == 0 then Some(ScopeInsufficient)
    else if x.authority.epochBound && x.authority.coordinatorEpoch != epoch then Some(CoordinatorEpochMismatch)
    else match f
      case None => Some(SnapshotNotAvailable)
      case Some(captured) =>
        if x.expectations.expectEpoch && x.expectations.expectedEpoch != captured.generations.epoch then Some(FabricEpochMismatch)
        else if x.expectations.expectTopology && x.expectations.expectedTopology != captured.generations.topology then Some(TopologyMismatch)
        else if x.expectations.expectSnapshot && x.expectations.expectedSnapshot != captured.id then Some(SnapshotMismatch)
        else if EndpointRefusal(captured, x.source, true).Some? then EndpointRefusal(captured, x.source, true)
        else EndpointRefusal(captured, x.destination, false)
  }

  method Admit(x: PlanningRequest, epoch: u64, f: Option<Captured>, limits: Limits) returns (refusal: Option<Refusal>, source: id16, destination: id16)
    requires f.Some? ==> f.value.Valid()
    ensures refusal.None? <==> exists from: id16, to: id16 :: Admitted(x, epoch, f, limits, from, to)
    ensures refusal.None? ==> f.Some? && Admitted(x, epoch, f, limits, source, destination)
    ensures refusal == RefusalOf(x, epoch, f, limits)
  {
    hide RequestValid, Captured.Valid, BoundTo, EndpointRefusal;
    source, destination := 0, 0;
    var valid := ValidateRequest(x, limits);
    if !valid {
      return Some(InvalidRequest), 0, 0;
    }
    if x.authority.enforceScope && x.authority.scopeMask % 2 != 1 {
      return Some(ScopeInsufficient), 0, 0;
    }
    if x.authority.epochBound && x.authority.coordinatorEpoch != epoch {
      return Some(CoordinatorEpochMismatch), 0, 0;
    }
    if f.None? {
      return Some(SnapshotNotAvailable), 0, 0;
    }
    var e := x.expectations;
    if e.expectEpoch && e.expectedEpoch != f.value.generations.epoch {
      return Some(FabricEpochMismatch), 0, 0;
    }
    if e.expectTopology && e.expectedTopology != f.value.generations.topology {
      return Some(TopologyMismatch), 0, 0;
    }
    if e.expectSnapshot && e.expectedSnapshot != f.value.id {
      return Some(SnapshotMismatch), 0, 0;
    }
    refusal, source := ResolveEndpoint(f.value, x.source, true);
    if refusal.Some? {
      return;
    }
    refusal, destination := ResolveEndpoint(f.value, x.destination, false);
    assert refusal.None? ==> Admitted(x, epoch, f, limits, source, destination);
  }

  /** No required transit, nothing excluded by being where one already is, and no parallel eligible links. */
  ghost predicate Listable(s: Snapshot, x: PlanningRequest, source: id16, destination: id16) {
    x.constraints.stages == [] && (source != destination || x.policy.flags.allowZeroHop) && NoParallelEdges(s, RulesOf(x))
  }

  /** A request as it arrives, planned. */
  method PlanPayload(bytes: seq<byte>, epoch: u64, f: Option<Captured>, limits: Limits)
    returns (request: Option<PlanningRequest>, refusal: Option<Refusal>, fatal: Option<Fatal>, ending: Ending, candidates: seq<Candidate>, ghost source: id16, ghost destination: id16)
    requires f.Some? ==> f.value.Valid()
    ensures forall x :: request == Some(x) <==> RequestValid(x, limits) && bytes == Payload(x)
    ensures request.None? ==> candidates == []
    ensures request.Some? ==> refusal == RefusalOf(request.value, epoch, f, limits)
    ensures request.Some? ==> (refusal.None? <==> exists from: id16, to: id16 :: Admitted(request.value, epoch, f, limits, from, to))
    ensures refusal.Some? ==> candidates == []
    ensures request.Some? && refusal.None? ==> Admitted(request.value, epoch, f, limits, source, destination)
    ensures forall i :: 0 <= i < |candidates| ==> Answers(f, request, source, destination, candidates[i])
    ensures candidates != [] ==> f.Some? && request.Some? && EndsKept(f.value.snapshot, RulesOf(request.value), source, destination)
    ensures request.Some? ==> |candidates| <= request.value.maxCandidates
    ensures limits.maxNodes <= MAX_HOP_COUNT + 1 ==> InRank(candidates)
    ensures request.Some? && refusal.None? && request.value.constraints.stages == [] && source == destination && !request.value.policy.flags.allowZeroHop ==> candidates == []
    ensures request.Some? && refusal.None? && fatal.None? && !ending.limited && limits.maxNodes <= MAX_HOP_COUNT + 1 && Listable(f.value.snapshot, request.value, source, destination) ==>
      NothingBetter(f.value.snapshot, RulesOf(request.value), DemandOf(request.value, source, destination), limits, candidates)
  {
    hide RequestValid, Payload, Captured.Valid, Snapshot.Valid, Admitted, Planning.Acceptable, RanksFirst, FatalOf, EndsKept, Ready, Underfunded, NothingBetter, FirstOf, NothingUnlisted, TransitResult, NoParallelEdges;
    refusal, fatal, ending, candidates, source, destination := None, None, Ending(false, false), [], 0, 0;
    var status;
    status, request := DecodePlanningRequestPayload(bytes, limits);
    if request.None? {
      return;
    }
    var x := request.value;
    var from, to;
    refusal, from, to := Admit(x, epoch, f, limits);
    if refusal.Some? {
      return;
    }
    source, destination := from, to;
    AdmittedFacts(x, epoch, f, limits, from, to);
    ghost var z, listed;
    candidates, fatal, ending, z, listed := PlanCandidates(f.value.snapshot, RulesOf(x), DemandOf(x, from, to), limits);
  }

  /** The candidate is one the decoded request asked for. */
  ghost predicate Answers(f: Option<Captured>, request: Option<PlanningRequest>, source: id16, destination: id16, c: Candidate) {
    f.Some? && request.Some? && Planning.Acceptable(f.value.snapshot, RulesOf(request.value), DemandOf(request.value, source, destination), c)
  }

  lemma AdmittedFacts(x: PlanningRequest, epoch: u64, f: Option<Captured>, limits: Limits, source: id16, destination: id16)
    requires f.Some? && f.value.Valid() && Admitted(x, epoch, f, limits, source, destination)
    ensures f.value.snapshot.Valid() && 1 <= x.maxCandidates <= limits.maxCandidatesPerRequest
    ensures RulesOf(x).costModel.hopCost <= MAX_COST && DemandOf(x, source, destination).maxCandidates == x.maxCandidates
    ensures var d := DemandOf(x, source, destination); d.maxHops.Some? ==> d.maxHops.value < NO_HOP_BOUND && d.maxHops.value <= limits.maxHops
  {
    hide PolicyValid, Snapshot.Valid, ForbiddenValid;
  }

  /** What a request forbids by name is on no candidate. */
  lemma ForbiddenStaysOut(f: Captured, x: PlanningRequest, source: id16, destination: id16, c: Candidate)
    requires Answers(Some(f), Some(x), source, destination, c)
    ensures forall i :: 0 <= i < |c.path.nodes| ==> c.path.nodes[i] !in x.constraints.forbidden.nodes
    ensures forall i :: 0 <= i < |c.path.hops| ==> HopAllowed(x, c.path.hops[i])
  {
    hide PriceOf, CostSound, WellFormed, Distinct, LimitKept, StagesMet, DomainsAllowed, Satisfied, Lawful;
    var r := RulesOf(x);
    forall i | 0 <= i < |c.path.hops| ensures HopAllowed(x, c.path.hops[i]) {
      LawfulAllowed(f.snapshot, x, c.path.hops[i]);
    }
  }

  ghost predicate HopAllowed(x: PlanningRequest, h: Hop) {
    && h.link !in x.constraints.forbidden.links && h.fromPort !in x.constraints.forbidden.ports && h.toPort !in x.constraints.forbidden.ports
    && h.layer == x.constraints.layer && (h.degraded ==> x.policy.flags.allowDegraded)
  }

  lemma LawfulAllowed(s: Snapshot, x: PlanningRequest, h: Hop)
    requires Lawful(s, RulesOf(x), h)
    ensures HopAllowed(x, h)
  {
    hide NodeEligible, DomainsAllowed, RequirementKept;
    var i: nat :| i < |s.edges| && LawfulAs(s, RulesOf(x), h, s.edges[i]);
  }

  /** Valid stages have alternatives, so only their number can refuse required transit. */
  lemma StagesAdmitted(x: PlanningRequest, limits: Limits)
    requires ConstraintSetValid(x.constraints, limits)
    ensures Transit.Admitted(x.constraints.stages, limits) <==>
      Product(Sizes(x.constraints.stages)) <= limits.maxTransitCombinations && Transit.Sum(Sizes(x.constraints.stages)) <= limits.maxTransitAlternatives
  {
    hide ForbiddenValid;
    forall i | 0 <= i < |x.constraints.stages| ensures |x.constraints.stages[i].alternatives| > 0 {
      assert StageValid(x.constraints.stages[i], limits);
    }
  }
}
