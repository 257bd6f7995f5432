/** Plans saved and loaded again: what planning guarantees is what the store's decoder checks, but
    for the hop maximum (src/store.cpp, ToStoredRecord and FromStoredRecord; src/result.cpp, MakePathPlan). */
module SavedPlans {
  import opened Wrappers
  import opened Values
  import opened ResourceLimits
  import opened View
  import opened Counting
  import opened PathCosts
  import opened Fabric
  import opened Eligibility
  import opened ViewBuild
  import opened Candidates
  import opened Planning
  import opened Sizing
  import opened Bytes
  import opened Wire
  import opened Sha256Spec
  import opened PlanStore
  import opened Corridor

  /** A plan; its candidates are ranked by position. */
  datatype Plan = Plan(issue: Issue, basis: Basis, span: Span, evidence: Evidence, candidates: seq<Candidate>)

  function StoredPath(p: CandidatePath): PathRecord {
    PathRecord(p.source, p.destination, p.layer, seq(|p.hops|, i requires 0 <= i < |p.hops| =>
      var h := p.hops[i];
      HopRecord(HopEnds(h.link, h.from, h.to, h.fromPort, h.toPort), h.layer, h.relationship, h.structuralGeneration, h.staticCost)))
  }

  function StoredCost(c: PathCost): CostRecord
    requires CostSound(c)
  {
    CostRecord(c.total, c.hopsCost, c.staticCost, c.degradedPenalty, c.localityPenalty, c.hops, c.degradedHops, c.localityBreaches)
  }

  function RestoredCost(c: CostRecord): PathCost {
    PathCost(c.hopsCost, c.staticCost, c.degradedPenalty, c.localityPenalty, c.total, c.hops, c.degradedHops, c.localityBreaches)
  }

  /** What the fields of a plan can hold. */
  ghost predicate Fitting(p: Plan) {
    |p.candidates| <= MAX_CANDIDATE_RANK && forall i :: 0 <= i < |p.candidates| ==> CostSound(p.candidates[i].cost) && |p.candidates[i].path.hops| <= MAX_HOP_COUNT
  }

  function StoredEntry(c: Candidate, rank: u32): Entry
    requires CostSound(c.cost)
  {
    Entry(StoredPath(c.path), StoredCost(c.cost), rank)
  }

  /** The record of a plan, before its digest is made. */
  function Undigested(p: Plan): StoredPlan
    requires Fitting(p)
  {
    StoredPlan(p.issue, p.basis, p.span, p.evidence, 0, seq(|p.candidates|, i requires 0 <= i < |p.candidates| => StoredEntry(p.candidates[i], i + 1)))
  }

  ghost function RecordOf(p: Plan): StoredPlan
    requires Fitting(p)
  {
    Undigested(p).(digest := SemanticDigest(Undigested(p)))
  }

  method ToStoredRecord(p: Plan) returns (x: StoredPlan)
    requires Fitting(p)
    ensures x == RecordOf(p)
  {
    hide SemanticDigest, StoredCost;
    var digest := ComputeSemanticDigest(Undigested(p));
    x := Undigested(p).(digest := digest);
  }

  function FromStoredRecord(x: StoredPlan): Plan {
    Plan(x.issue, x.basis, x.span, x.evidence,
      seq(|x.entries|, i requires 0 <= i < |x.entries| => Candidate(Restored(x.entries[i].path), RestoredCost(x.entries[i].cost))))
  }

  /** Observed link state and degraded flag are not stored. */
  ghost function Forget(p: CandidatePath): CandidatePath {
    p.(hops := seq(|p.hops|, i requires 0 <= i < |p.hops| => p.hops[i].(linkState := LinkState.Unknown, degraded := false)))
  }

  ghost function Forgotten(p: Plan): Plan {
    p.(candidates := seq(|p.candidates|, i requires 0 <= i < |p.candidates| => p.candidates[i].(path := Forget(p.candidates[i].path))))
  }

  ghost function AllForgotten(plans: seq<Plan>): seq<Plan> {
    seq(|plans|, i requires 0 <= i < |plans| => Forgotten(plans[i]))
  }

  /** A well-formed path comes back from its stored form up to observed state. */
  lemma StoredPathRestores(p: CandidatePath)
    requires WellFormed(p)
    ensures Restored(StoredPath(p)) == Forget(p)
  {
    var r, f := Restored(StoredPath(p)), Forget(p);
    forall i | 0 <= i < |p.nodes| ensures r.nodes[i] == p.nodes[i] {
      assert i > 0 ==> HopFits(p, i - 1);
    }
    assert r.nodes == f.nodes && r.hops == f.hops;
  }

  /** Forgetting observed state keeps a path well formed. */
  lemma ForgetWellFormed(p: CandidatePath)
    requires WellFormed(p)
    ensures WellFormed(Forget(p)) && Forget(p).nodes == p.nodes
  {
    forall i | 0 <= i < |p.hops| ensures HopFits(Forget(p), i) {
      assert HopFits(p, i);
    }
  }

  /** A plan comes back from its record up to observed state. */
  lemma RecordRestores(p: Plan)
    requires Fitting(p) && forall i :: 0 <= i < |p.candidates| ==> WellFormed(p.candidates[i].path)
    ensures FromStoredRecord(RecordOf(p)) == Forgotten(p)
  {
    hide WellFormed, Restored, StoredPath, Forget, SemanticDigest;
    var back := FromStoredRecord(RecordOf(p));
    forall i | 0 <= i < |p.candidates| ensures back.candidates[i] == Forgotten(p).candidates[i] {
      StoredPathRestores(p.candidates[i].path);
    }
    assert back.candidates == Forgotten(p).candidates;
  }

  /** What a plan was made from. */
  datatype Origin = Origin(snapshot: Snapshot, rules: Rules, demand: Demand)

  /** The snapshot builder lets in no edge newer than the topology. */
  ghost predicate Settled(s: Snapshot, topology: u64) {
    s.Valid() && forall i :: 0 <= i < |s.edges| ==> s.edges[i].structuralGeneration <= topology
  }

  ghost predicate Identified(p: Plan) {
    OkIssue(p.issue) && OkBasis(p.basis) && OkSpan(p.span) && OkEvidence(p.evidence)
  }

  /** The candidates are what planning answers: acceptable and in ranking order. */
  ghost predicate Planned(o: Origin, p: Plan, limits: Limits) {
    && Settled(o.snapshot, p.evidence.generations.topology) && Identified(p)
    && |p.candidates| <= limits.maxCandidatesPerRequest
    && (forall i :: 0 <= i < |p.candidates| ==> Acceptable(o.snapshot, o.rules, o.demand, p.candidates[i]))
    && forall i, j :: 0 <= i < j < |p.candidates| ==> RanksFirst(p.candidates[i], p.candidates[j])
  }

  ghost predicate HopsWithin(p: Plan, maxHops: nat) {
    forall i :: 0 <= i < |p.candidates| ==> |p.candidates[i].path.hops| <= maxHops
  }

  /** No two candidates of the plan share a path identity. */
  ghost predicate PathIdsDiffer(p: Plan) {
    forall i, j :: 0 <= i < j < |p.candidates| ==> PathId(StoredPath(p.candidates[i].path)) != PathId(StoredPath(p.candidates[j].path))
  }

  lemma HopStores(s: Snapshot, r: Rules, h: Hop, topology: u64)
    requires Settled(s, topology) && Lawful(s, r, h)
    ensures h.structuralGeneration <= topology && h.link != 0 && h.from != 0 && h.to != 0 && h.fromPort != 0 && h.toPort != 0
  {
    NodesNonNil(s);
    hide Snapshot.Valid, EdgeEligible;
    var i: nat :| i < |s.edges| && LawfulAs(s, r, h, s.edges[i]);
    EdgeNonNil(s, i);
  }

  lemma NodesNonNil(s: Snapshot)
    requires s.Valid()
    ensures forall i :: 0 <= i < |s.nodes| ==> s.nodes[i] > 0
  {
  }

  lemma EdgeNonNil(s: Snapshot, i: nat)
    requires s.Valid() && i < |s.edges|
    ensures s.edges[i].id > 0 && s.edges[i].fromPort > 0 && s.edges[i].toPort > 0 && s.edges[i].from in s.nodes && s.edges[i].to in s.nodes
  {
  }

  /** What the decoder asks of a path is what planning promises, but for the hop maximum. */
  lemma PathLoads(s: Snapshot, r: Rules, p: CandidatePath, topology: u64, limits: Limits)
    requires Settled(s, topology) && WellFormed(p) && Distinct(p.nodes) && forall i :: 0 <= i < |p.hops| ==> Lawful(s, r, p.hops[i])
    ensures OkPath(StoredPath(p), limits) <==> |p.hops| <= limits.maxHops
    ensures forall k :: 0 <= k < |p.hops| ==> p.hops[k].structuralGeneration <= topology
  {
    hide Settled, Lawful, Distinct;
    StoredPathRestores(p);
    ForgetWellFormed(p);
    WellFormedEnds(p);
    hide Restored, WellFormed, Forget;
    forall k | 0 <= k < |p.hops| ensures OkHopRecord(StoredPath(p).hops[k]) && p.hops[k].structuralGeneration <= topology {
      HopStores(s, r, p.hops[k], topology);
    }
  }

  lemma WellFormedEnds(p: CandidatePath)
    requires WellFormed(p)
    ensures p.source != 0 && p.destination != 0
  {
  }

  lemma CandidateLoads(o: Origin, c: Candidate, topology: u64, rank: u32, limits: Limits)
    requires Settled(o.snapshot, topology) && Acceptable(o.snapshot, o.rules, o.demand, c)
    ensures CostSound(c.cost) && WellFormed(c.path) && c.cost.hops == |c.path.hops| <= MAX_HOP_COUNT
    ensures OkEntry(StoredEntry(c, rank), limits) <==> |c.path.hops| <= limits.maxHops
    ensures forall k :: 0 <= k < |c.path.hops| ==> c.path.hops[k].structuralGeneration <= topology
  {
    hide Settled, Requested, OkPath, StoredPath, WellFormed;
    RequestedFacts(o.snapshot, o.rules, o.demand, c.path);
    PriceHops(o.rules, c.path);
    PriceSound(o.rules, c.path);
    hide PriceOf, Distinct;
    PathLoads(o.snapshot, o.rules, c.path, topology, limits);
  }

  lemma PlannedFits(o: Origin, p: Plan, limits: Limits)
    requires Planned(o, p, limits) && limits.maxCandidatesPerRequest <= MAX_CANDIDATE_RANK
    ensures Fitting(p) && forall i :: 0 <= i < |p.candidates| ==> WellFormed(p.candidates[i].path)
  {
    hide Settled, Acceptable, RanksFirst, OkEntry, WellFormed, CostSound, StoredEntry, Identified;
    forall i | 0 <= i < |p.candidates| ensures CostSound(p.candidates[i].cost) && |p.candidates[i].path.hops| <= MAX_HOP_COUNT && WellFormed(p.candidates[i].path) {
      CandidateLoads(o, p.candidates[i], p.evidence.generations.topology, 0, limits);
    }
  }

  /** A planned record passes all the decoder's checks exactly when no candidate is longer than the
      configured maximum, which planning without a requested hop bound does not keep to, and no
      two candidates share an identity. */
  lemma PlannedRecordLoads(o: Origin, p: Plan, limits: Limits)
    requires Planned(o, p, limits) && limits.maxCandidatesPerRequest <= MAX_CANDIDATE_RANK && Fitting(p)
    ensures OkStoredPlan(RecordOf(p), limits) && RecordSound(RecordOf(p)) <==> HopsWithin(p, limits.maxHops) && PathIdsDiffer(p)
  {
    hide Settled, Acceptable, SemanticDigest, OkEntry, OkIssue, OkBasis, OkSpan, OkEvidence, RanksFirst, PathId, StoredPath, WellFormed;
    var x := RecordOf(p);
    DigestKept(p);
    forall i | 0 <= i < |p.candidates| ensures EntryFits(x, i) && (OkEntry(x.entries[i], limits) <==> |p.candidates[i].path.hops| <= limits.maxHops) {
      CandidateLoads(o, p.candidates[i], p.evidence.generations.topology, i + 1, limits);
      HopsStored(p.candidates[i].path);
    }
    forall i | 1 <= i < |p.candidates| ensures x.entries[i - 1].cost.total <= x.entries[i].cost.total {
      TotalsOrdered(p.candidates[i - 1], p.candidates[i]);
    }
    assert IdsDiffer(x.entries) <==> PathIdsDiffer(p);
  }

  /** The digest does not cover itself. */
  lemma DigestKept(p: Plan)
    requires Fitting(p)
    ensures RecordOf(p).digest == SemanticDigest(RecordOf(p))
  {
    hide Hash, PutList, PutEvidence, DigestOf, Undigested;
    assert PutSemantic(RecordOf(p), []) == PutSemantic(Undigested(p), []);
  }

  lemma HopsStored(p: CandidatePath)
    ensures |StoredPath(p).hops| == |p.hops|
    ensures forall k :: 0 <= k < |p.hops| ==> StoredPath(p).hops[k].structuralGeneration == p.hops[k].structuralGeneration
  {
  }

  lemma TotalsOrdered(c: Candidate, e: Candidate)
    requires RanksFirst(c, e)
    ensures c.cost.total <= e.cost.total
  {
    hide CanonicalOrdering;
  }

  ghost predicate AllPlanned(origins: seq<Origin>, plans: seq<Plan>, limits: Limits) {
    |origins| == |plans| && forall i :: 0 <= i < |plans| ==> Planned(origins[i], plans[i], limits)
  }

  ghost predicate AllFitting(plans: seq<Plan>) {
    forall i :: 0 <= i < |plans| ==> Fitting(plans[i])
  }

  ghost function RecordsOf(plans: seq<Plan>): seq<StoredPlan>
    requires AllFitting(plans)
  {
    seq(|plans|, i requires 0 <= i < |plans| => RecordOf(plans[i]))
  }

  /** What loads of a set of plans. */
  ghost predicate Loadable(plans: seq<Plan>, limits: Limits) {
    && (forall i :: 0 <= i < |plans| ==> HopsWithin(plans[i], limits.maxHops) && PathIdsDiffer(plans[i]))
    && forall i, j :: 0 <= i < j < |plans| ==> plans[i].issue.plan != plans[j].issue.plan
  }

  lemma PlannedStoreLoads(origins: seq<Origin>, plans: seq<Plan>, limits: Limits)
    requires AllPlanned(origins, plans, limits) && limits.maxCandidatesPerRequest <= MAX_CANDIDATE_RANK && |plans| <= limits.maxPersistedPlans
    ensures AllFitting(plans) && Encodable(RecordsOf(plans), limits)
    ensures StoreOk(RecordsOf(plans), limits) <==> Loadable(plans, limits)
  {
    hide Settled, Acceptable, OkStoredPlan, RecordSound, HopsWithin, PathIdsDiffer, SemanticDigest, RanksFirst, Fitting;
    forall i | 0 <= i < |plans| ensures Fitting(plans[i]) {
      PlannedFits(origins[i], plans[i], limits);
    }
    var records := RecordsOf(plans);
    forall i | 0 <= i < |plans| ensures OkStoredPlan(records[i], limits) && RecordSound(records[i]) <==> HopsWithin(plans[i], limits.maxHops) && PathIdsDiffer(plans[i]) {
      PlannedRecordLoads(origins[i], plans[i], limits);
    }
    assert PlansDiffer(records) <==> forall i, j :: 0 <= i < j < |plans| ==> plans[i].issue.plan != plans[j].issue.plan;
  }

  /** Planned, saved and loaded: the same plans come back up to observed link state, exactly when
      the configured hop maximum is kept, no plan is saved twice and no path identities collide;
      otherwise nothing comes back. */
  method SaveAndRestore(plans: seq<Plan>, ghost origins: seq<Origin>, limits: Limits, publishSequence: u64) returns (saved: bool, restored: Option<seq<Plan>>)
    requires AllPlanned(origins, plans, limits) && Coherent(limits) && |plans| <= limits.maxPersistedPlans
    ensures AllFitting(plans) && (saved <==> |Payload(publishSequence, RecordsOf(plans))| <= PayloadCeiling(limits))
    ensures restored == if saved && Loadable(plans, limits) then Some(AllForgotten(plans)) else None
  {
    hide Planned, Fitting, Payload, PayloadCeiling, StoreOk, Encodable, Loadable, Forgotten, RecordOf;
    PlannedStoreLoads(origins, plans, limits);
    var records: seq<StoredPlan> := [];
    for i := 0 to |plans|
      invariant |records| == i && forall k :: 0 <= k < i ==> records[k] == RecordOf(plans[k])
    {
      var x := ToStoredRecord(plans[i]);
      records := records + [x];
    }
    assert records == RecordsOf(plans);
    var loaded;
    saved, loaded := SaveAndLoad(records, limits, publishSequence);
    restored := None;
    if loaded.Some? {
      restored := Some(seq(|loaded.value|, i requires 0 <= i < |loaded.value| => FromStoredRecord(loaded.value[i])));
    }
    forall i | 0 <= i < |plans| ensures FromStoredRecord(RecordOf(plans[i])) == Forgotten(plans[i]) {
      PlannedFits(origins[i], plans[i], limits);
      RecordRestores(plans[i]);
    }
    assert restored.Some? ==> restored.value == AllForgotten(plans);
  }

  /** A hop bound in the request, which validation keeps to the configured maximum, is enough for
      the maximum to be kept; so only plans made without one can be lost. */
  lemma BoundedPlansKeepMaximum(o: Origin, p: Plan, limits: Limits)
    requires Planned(o, p, limits) && o.demand.maxHops.Some? && o.demand.maxHops.value <= limits.maxHops
    ensures HopsWithin(p, limits.maxHops)
  {
    hide Settled, WellFormed, LawfulPath, RanksFirst, PriceOf, CostSound, Distinct, LimitKept, StagesMet, Identified;
  }

  /** One request planned, saved and loaded. */
  method PlanSaveRestore(s: Snapshot, r: Rules, d: Demand, limits: Limits, issue: Issue, basis: Basis, span: Span, evidence: Evidence, publishSequence: u64)
    returns (plan: Plan, saved: bool, restored: Option<seq<Plan>>)
    requires Coherent(limits) && limits.maxPersistedPlans > 0 && limits.maxNodes <= MAX_HOP_COUNT + 1
    requires Settled(s, evidence.generations.topology) && r.costModel.hopCost <= MAX_COST
    requires (d.maxHops.Some? ==> d.maxHops.value < NO_HOP_BOUND) && 1 <= d.maxCandidates <= limits.maxCandidatesPerRequest
    requires OkIssue(issue) && OkBasis(basis) && OkSpan(span) && OkEvidence(evidence)
    ensures Planned(Origin(s, r, d), plan, limits)
    ensures restored == if saved && HopsWithin(plan, limits.maxHops) && PathIdsDiffer(plan) then Some([Forgotten(plan)]) else None
  {
    hide Coherent, Snapshot.Valid, Ready, FatalOf, EndsKept, Acceptable, RanksFirst, NothingBetter, FirstOf, NothingUnlisted, TransitResult, Underfunded, NoParallelEdges, Payload, PayloadCeiling, Forgotten, HopsWithin, PathIdsDiffer, OkIssue, OkBasis, OkSpan, OkEvidence;
    var candidates, fatal, ending;
    ghost var z, listed;
    candidates, fatal, ending, z, listed := PlanCandidates(s, r, d, limits);
    plan := Plan(issue, basis, span, evidence, candidates);
    saved, restored := SaveAndRestore([plan], [Origin(s, r, d)], limits, publishSequence);
    OneLoadable(plan, limits);
    assert AllForgotten([plan]) == [Forgotten(plan)];
  }

  lemma OneLoadable(p: Plan, limits: Limits)
    ensures Loadable([p], limits) <==> HopsWithin(p, limits.maxHops) && PathIdsDiffer(p)
  {
    hide HopsWithin, PathIdsDiffer;
    assert [p][0] == p;
  }

  /** The decoder refuses an image with one plan twice, which the encoder makes all the same. */
  lemma SavedTwiceNeverLoads(image: seq<byte>, publishSequence: u64, x: StoredPlan, limits: Limits)
    requires IsImage(image, publishSequence, [x, x]) && 2 <= limits.maxPersistedPlans && OkStoredPlan(x, limits)
    ensures Encodable([x, x], limits) && ParseImage(image, limits) == None
  {
    hide OkBasis, OkSpan, OkEvidence, OkEntry, RecordSound, IsImage, ParseImage;
    assert [x, x][0].issue.plan == [x, x][1].issue.plan;
    RefusesTheRest(image, publishSequence, [x, x], limits);
  }

  /** The decoder refuses an image with a path longer than the configured maximum. */
  lemma LongNeverLoads(image: seq<byte>, publishSequence: u64, records: seq<StoredPlan>, i: nat, k: nat, limits: Limits)
    requires IsImage(image, publishSequence, records) && i < |records| && k < |records[i].entries| && |records[i].entries[k].path.hops| > limits.maxHops
    ensures ParseImage(image, limits) == None
  {
    hide IsImage, ParseImage, RecordSound, Restored, WellFormed, Distinct;
    RefusesTheRest(image, publishSequence, records, limits);
  }

  /** Planned across the row without a hop bound and saved, the plan is lost: a maximum of one hop
      is configured, and the two-hop candidate is returned and encoded all the same. */
  method PlannedBeyondMaximum(limits: Limits, issue: Issue, basis: Basis, span: Span, evidence: Evidence, publishSequence: u64)
    returns (plan: Plan, saved: bool, restored: Option<seq<Plan>>)
    requires Coherent(limits) && limits.maxHops == 1 && limits.maxPersistedPlans > 0
    requires WellFunded(ROW, ACROSS, limits) && 3 <= limits.maxNodes <= MAX_HOP_COUNT + 1
    requires OkIssue(issue) && OkBasis(basis) && OkSpan(span) && OkEvidence(evidence)
    ensures plan == Plan(issue, basis, span, evidence, [TWO_HOP_CANDIDATE])
    ensures saved <==> limits.maxFrameBytes < LARGEST_FRAME
    ensures restored == None
  {
    hide Coherent, Planned, Payload, PayloadCeiling, Loadable, WellFunded, OkIssue, OkBasis, OkSpan, OkEvidence;
    var candidates := PlanAcross(limits);
    plan := Plan(issue, basis, span, evidence, candidates);
    ghost var origin := Origin(ROW, OPEN_RULES, ACROSS);
    RowPlanned(plan, limits);
    saved, restored := SaveAndRestore([plan], [origin], limits, publishSequence);
    TooLong(plan, limits);
    SmallPayload(plan, publishSequence, limits);
  }

  lemma RowPlanned(p: Plan, limits: Limits)
    requires Coherent(limits) && Identified(p) && p.candidates == [TWO_HOP_CANDIDATE]
    ensures Planned(Origin(ROW, OPEN_RULES, ACROSS), p, limits)
  {
    hide Identified, LawfulPath, WellFormed, PriceOf, Snapshot.Valid;
    RowValid(ROW.domains);
    TwoHopsLawful(ROW.domains);
    assert Requested(ROW, OPEN_RULES, ACROSS, TWO_HOPS);
  }

  lemma TooLong(p: Plan, limits: Limits)
    requires limits.maxHops == 1 && p.candidates == [TWO_HOP_CANDIDATE]
    ensures !Loadable([p], limits)
  {
    hide PathIdsDiffer;
    assert |p.candidates[0].path.hops| == 2 && [p][0] == p;
    assert !HopsWithin(p, 1);
  }

  /** One plan with one candidate of two hops fits every ceiling but the one that wrapped to 0. */
  lemma SmallPayload(p: Plan, publishSequence: u64, limits: Limits)
    requires Coherent(limits) && AllFitting([p]) && |p.candidates| == 1 && |p.candidates[0].path.hops| == 2
    ensures |Payload(publishSequence, RecordsOf([p]))| <= PayloadCeiling(limits) <==> limits.maxFrameBytes < LARGEST_FRAME
  {
    hide *;
    SmallestFrame(limits);
    PayloadSize(p, publishSequence);
  }

  lemma PayloadSize(p: Plan, publishSequence: u64)
    requires AllFitting([p]) && |p.candidates| == 1 && |p.candidates[0].path.hops| == 2
    ensures |Payload(publishSequence, RecordsOf([p]))| == 552
  {
    hide *;
    var x := OneEntry(p);
    RecordSize(x);
    OneRecord(publishSequence, x);
  }

  lemma OneEntry(p: Plan) returns (x: StoredPlan)
    requires AllFitting([p]) && |p.candidates| == 1
    ensures RecordsOf([p]) == [x] && |x.entries| == 1 && |x.entries[0].path.hops| == |p.candidates[0].path.hops|
  {
    hide SemanticDigest, StoredCost, CostSound;
    assert [p][0] == p;
    x := RecordOf(p);
  }

  lemma SmallestFrame(limits: Limits)
    requires Coherent(limits)
    ensures limits.maxFrameBytes < LARGEST_FRAME ==> PayloadCeiling(limits) >= 1024
    ensures limits.maxFrameBytes >= LARGEST_FRAME ==> PayloadCeiling(limits) == 0
  {
  }

  lemma OneRecord(publishSequence: u64, x: StoredPlan)
    ensures |Payload(publishSequence, [x])| == 9 + |PutStoredPlan(x, [])|
  {
    hide PutStoredPlan;
    assert [x][1..] == [];
    assert PutMany(PutStoredPlan, [], []) == [];
    assert Var(1) == [1];
  }

  lemma RecordSize(x: StoredPlan)
    requires |x.entries| == 1 && |x.entries[0].path.hops| == 2
    ensures |PutStoredPlan(x, [])| == 543
  {
    hide PutList, PutIssue, PutBasis, PutSpan, PutEvidence;
    var list := PutList(PutEntry, x.entries, []);
    assert x.entries == [x.entries[0]];
    ListSize(x.entries[0], []);
    var digest := PutId32(x.digest, list);
    EvidenceSize(x.evidence, digest);
    SpanSize(x.span, PutEvidence(x.evidence, digest));
    BasisSize(x.basis, PutSpan(x.span, PutEvidence(x.evidence, digest)));
    IssueSize(x.issue, PutBasis(x.basis, PutSpan(x.span, PutEvidence(x.evidence, digest))));
  }

  lemma ListSize(x: Entry, tail: seq<byte>)
    requires |x.path.hops| == 2
    ensures |PutList(PutEntry, [x], tail)| == 298 + |tail|
  {
    hide PutEntry;
    assert [x][1..] == [];
    assert PutMany(PutEntry, [], tail) == tail;
    assert PutMany(PutEntry, [x], tail) == PutEntry(x, tail);
    assert Var(1) == [1];
    EntrySize(x, tail);
  }

  lemma EntrySize(x: Entry, tail: seq<byte>)
    requires |x.path.hops| == 2
    ensures |PutEntry(x, tail)| == 297 + |tail|
  {
    hide PutHopRecord, PutMany, PutCost;
    var rest := PutCost(x.cost, PutU32(x.rank, tail));
    CostSize(x.cost, PutU32(x.rank, tail));
    HopsSize(x.path.hops, rest);
    assert Var(2) == [2];
    assert |PutList(PutHopRecord, x.path.hops, rest)| == 201 + |rest|;
  }

  lemma IssueSize(x: Issue, tail: seq<byte>)
    ensures |PutIssue(x, tail)| == 52 + |tail|
  {
  }

  lemma BasisSize(x: Basis, tail: seq<byte>)
    ensures |PutBasis(x, tail)| == 32 + |tail|
  {
  }

  lemma SpanSize(x: Span, tail: seq<byte>)
    ensures |PutSpan(x, tail)| == 37 + |tail|
  {
  }

  lemma CostSize(x: CostRecord, tail: seq<byte>)
    ensures |PutCost(x, tail)| == 52 + |tail|
  {
  }
}
