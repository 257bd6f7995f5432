/** The planning-request payload (src/proto.cpp, EncodePlanningRequestPayload and
    DecodePlanningRequestPayload; src/request.cpp, ValidateRequest).  Every section has what it
    adds to the stream (Put), what the reader makes of it (Get), both round trips, and the two
    methods that write and read it. */
module RequestCodec {
  import opened Wrappers
  import opened Values
  import opened ResourceLimits
  import opened Sorting
  import opened Counting
  import opened Bytes
  import opened Wire

  datatype Endpoint = Endpoint(id: id16, class_: EndpointClass, generation: u64)

  datatype Forbidden = Forbidden(nodes: seq<id16>, links: seq<id16>, ports: seq<id16>, domains: seq<id8>, classes: seq<id8>)

  datatype Bounds = Bounds(maxHops: Option<HopCount>, maxMembers: Option<u32>, failClosed: bool)

  datatype ConstraintSet = ConstraintSet(id: id16, generation: u64, layer: PathLayer, forbidden: Forbidden, stages: seq<Stage>, requirements: seq<Requirement>, bounds: Bounds)

  datatype Costs = Costs(hopCost: u64, degradedPenalty: u64, localityPenalty: u64)

  datatype Flags = Flags(allowDegraded: bool, allowDraining: bool, allowMaintenance: bool, requireProof: bool, allowZeroHop: bool)

  datatype Policy = Policy(generation: u64, costs: Costs, flags: Flags, localityScope: seq<id16>, authorityValidation: AuthorityMode)

  datatype Authority = Authority(scopeMask: u32, publisher: id8, workerBoot: id8, coordinatorEpoch: u64, attempt: id8, epochBound: bool, enforceScope: bool)

  datatype Expectations = Expectations(expectEpoch: bool, expectedEpoch: u64, expectTopology: bool, expectedTopology: u64, expectSnapshot: bool, expectedSnapshot: id16)

  datatype PlanningRequest = PlanningRequest(id: id16, source: Endpoint, destination: Endpoint, constraints: ConstraintSet, policy: Policy, maxCandidates: u32, mode: PlanningMode, authority: Authority, expectations: Expectations)

  /** An endpoint reference. */
  function PutEndpoint(x: Endpoint, tail: seq<byte>): seq<byte> {
    PutId16(x.id, PutU32(x.class_, PutU64(x.generation, tail)))
  }

  function GetEndpoint(s: seq<byte>): Parse<Endpoint> {
    var id :- GetId16(s);
    var class_ :- GetEnum(id.rest, 5);
    var generation :- GetU64(class_.rest);
    Good(Endpoint(id.value, class_.value, generation.value), generation.rest)
  }

  ghost predicate OkEndpoint(x: Endpoint) {
    x.id != 0
  }

  lemma EndpointRound(x: Endpoint, tail: seq<byte>)
    requires OkEndpoint(x)
    ensures GetEndpoint(PutEndpoint(x, tail)) == Good(x, tail)
  {
    hide PutId16, PutU32, PutU64, GetAny16, GetU32, GetU64;
    FieldsRound();
  }

  lemma EndpointBack(s: seq<byte>)
    requires GetEndpoint(s).Good?
    ensures s == PutEndpoint(GetEndpoint(s).value, GetEndpoint(s).rest)
  {
    hide PutId16, PutU32, PutU64, GetAny16, GetU32, GetU64;
    FieldsBack();
  }

  method ReadEndpoint(r: ByteReader) returns (x: Option<Endpoint>)
    requires r.Valid() && !r.failed
    modifies r
    ensures r.Valid() && (x.Some? ==> !r.failed) && Follows(GetEndpoint(old(r.Rest())), x, r.Rest())
  {
    hide GetAny16, GetU32, GetU64, GetId16, GetEnum;
    var id :- ReadId16(r);
    var class_ :- ReadEnum(r, 5);
    var generation :- ReadU64(r);
    x := Some(Endpoint(id, class_, generation));
  }

  method WriteEndpoint(w: ByteWriter, x: Endpoint)
    requires w.Valid()
    modifies w
    ensures w.Valid() && forall t: seq<byte> :: Sent(old(w.data), old(w.overflowed), PutEndpoint(x, t), w.data, w.overflowed, t, w.ceiling)
  {
    hide PutId16, PutU32, PutU64;
    WriteId16(w, x.id);
    WriteU32(w, x.class_);
    WriteU64(w, x.generation);
  }

  /** One transit stage. */
  function PutStage(x: Stage, tail: seq<byte>): seq<byte> {
    PutU32(x.kind, PutList(PutId16, x.alternatives, tail))
  }

  function GetStage(s: seq<byte>, limits: Limits): Parse<Stage> {
    var kind :- GetEnum(s, 2);
    var alternatives :- GetList(GetId16, kind.rest, limits.maxMembersInAnySet);
    Good(Stage(kind.value, alternatives.value), alternatives.rest)
  }

  ghost predicate OkStage(x: Stage, limits: Limits) {
    NonNil(x.alternatives) && |x.alternatives| <= limits.maxMembersInAnySet
  }

  lemma StageRound(x: Stage, tail: seq<byte>, limits: Limits)
    requires OkStage(x, limits)
    ensures GetStage(PutStage(x, tail), limits) == Good(x, tail)
  {
    hide PutU32, PutList, GetU32, GetList;
    FieldsRound();
    Ids16Round(x.alternatives, limits.maxMembersInAnySet);
  }

  lemma StageBack(s: seq<byte>, limits: Limits)
    requires GetStage(s, limits).Good?
    ensures s == PutStage(GetStage(s, limits).value, GetStage(s, limits).rest)
  {
    hide PutU32, PutList, GetU32, GetList;
    FieldsBack();
    Ids16Back();
  }

  method ReadStage(r: ByteReader, limits: Limits) returns (x: Option<Stage>)
    requires r.Valid() && !r.failed
    modifies r
    ensures r.Valid() && (x.Some? ==> !r.failed) && Follows(GetStage(old(r.Rest()), limits), x, r.Rest())
  {
    hide GetU32, GetList, GetEnum;
    var kind :- ReadEnum(r, 2);
    var alternatives :- ReadIds16(r, limits.maxMembersInAnySet);
    x := Some(Stage(kind, alternatives));
  }

  method WriteStage(w: ByteWriter, x: Stage)
    requires w.Valid()
    modifies w
    ensures w.Valid() && forall t: seq<byte> :: Sent(old(w.data), old(w.overflowed), PutStage(x, t), w.data, w.overflowed, t, w.ceiling)
  {
    hide PutU32, PutList;
    WriteU32(w, x.kind);
    WriteIds16(w, x.alternatives);
  }

  /** One capability requirement. */
  function PutRequirement(x: Requirement, tail: seq<byte>): seq<byte> {
    PutId8(x.capability, PutU32(x.scope, PutU32(x.comparator, PutU64(x.value, tail))))
  }

  function GetRequirement(s: seq<byte>): Parse<Requirement> {
    var capability :- GetId8(s);
    var scope :- GetEnum(capability.rest, 5);
    var comparator :- GetEnum(scope.rest, 3);
    var value :- GetU64(comparator.rest);
    Good(Requirement(capability.value, scope.value, comparator.value, value.value), value.rest)
  }

  ghost predicate OkRequirement(x: Requirement) {
    x.capability != 0
  }

  lemma RequirementRound(x: Requirement, tail: seq<byte>)
    requires OkRequirement(x)
    ensures GetRequirement(PutRequirement(x, tail)) == Good(x, tail)
  {
    hide PutId8, PutU32, PutU64, GetAny8, GetU32, GetU64;
    FieldsRound();
  }

  lemma RequirementBack(s: seq<byte>)
    requires GetRequirement(s).Good?
    ensures s == PutRequirement(GetRequirement(s).value, GetRequirement(s).rest)
  {
    hide PutId8, PutU32, PutU64, GetAny8, GetU32, GetU64;
    FieldsBack();
  }

  method ReadRequirement(r: ByteReader) returns (x: Option<Requirement>)
    requires r.Valid() && !r.failed
    modifies r
    ensures r.Valid() && (x.Some? ==> !r.failed) && Follows(GetRequirement(old(r.Rest())), x, r.Rest())
  {
    hide GetAny8, GetU32, GetU64, GetId8, GetEnum;
    var capability :- ReadId8(r);
    var scope :- ReadEnum(r, 5);
    var comparator :- ReadEnum(r, 3);
    var value :- ReadU64(r);
    x := Some(Requirement(capability, scope, comparator, value));
  }

  method WriteRequirement(w: ByteWriter, x: Requirement)
    requires w.Valid()
    modifies w
    ensures w.Valid() && forall t: seq<byte> :: Sent(old(w.data), old(w.overflowed), PutRequirement(x, t), w.data, w.overflowed, t, w.ceiling)
  {
    hide PutId8, PutU32, PutU64;
    WriteId8(w, x.capability);
    WriteU32(w, x.scope);
    WriteU32(w, x.comparator);
    WriteU64(w, x.value);
  }

  /** The forbidden identities. */
  function PutForbidden(x: Forbidden, tail: seq<byte>): seq<byte> {
    PutList(PutId16, x.nodes, PutList(PutId16, x.links, PutList(PutId16, x.ports, PutList(PutId8, x.domains, PutList(PutId8, x.classes, tail)))))
  }

  function GetForbidden(s: seq<byte>, limits: Limits): Parse<Forbidden> {
    var nodes :- GetList(GetId16, s, limits.maxForbiddenIds);
    var links :- GetList(GetId16, nodes.rest, limits.maxForbiddenIds);
    var ports :- GetList(GetId16, links.rest, limits.maxForbiddenIds);
    var domains :- GetList(GetId8, ports.rest, limits.maxForbiddenIds);
    var classes :- GetList(GetId8, domains.rest, limits.maxForbiddenDomainClasses);
    Good(Forbidden(nodes.value, links.value, ports.value, domains.value, classes.value), classes.rest)
  }

  ghost predicate OkForbidden(x: Forbidden, limits: Limits) {
    && NonNil(x.nodes) && |x.nodes| <= limits.maxForbiddenIds
    && NonNil(x.links) && |x.links| <= limits.maxForbiddenIds
    && NonNil(x.ports) && |x.ports| <= limits.maxForbiddenIds
    && NonNil(x.domains) && |x.domains| <= limits.maxForbiddenIds
    && NonNil(x.classes) && |x.classes| <= limits.maxForbiddenDomainClasses
  }

  lemma ForbiddenRound(x: Forbidden, tail: seq<byte>, limits: Limits)
    requires OkForbidden(x, limits)
    ensures GetForbidden(PutForbidden(x, tail), limits) == Good(x, tail)
  {
    hide PutList, GetList;
    FieldsRound();
    Ids16Round(x.nodes, limits.maxForbiddenIds);
    Ids16Round(x.links, limits.maxForbiddenIds);
    Ids16Round(x.ports, limits.maxForbiddenIds);
    Ids8Round(x.domains, limits.maxForbiddenIds);
    Ids8Round(x.classes, limits.maxForbiddenDomainClasses);
  }

  lemma ForbiddenBack(s: seq<byte>, limits: Limits)
    requires GetForbidden(s, limits).Good?
    ensures s == PutForbidden(GetForbidden(s, limits).value, GetForbidden(s, limits).rest)
  {
    hide PutList, GetList;
    FieldsBack();
    Ids16Back();
    Ids8Back();
  }

  method ReadForbidden(r: ByteReader, limits: Limits) returns (x: Option<Forbidden>)
    requires r.Valid() && !r.failed
    modifies r
    ensures r.Valid() && (x.Some? ==> !r.failed) && Follows(GetForbidden(old(r.Rest()), limits), x, r.Rest())
  {
    hide GetList;
    var nodes :- ReadIds16(r, limits.maxForbiddenIds);
    var links :- ReadIds16(r, limits.maxForbiddenIds);
    var ports :- ReadIds16(r, limits.maxForbiddenIds);
    var domains :- ReadIds8(r, limits.maxForbiddenIds);
    var classes :- ReadIds8(r, limits.maxForbiddenDomainClasses);
    x := Some(Forbidden(nodes, links, ports, domains, classes));
  }

  method WriteForbidden(w: ByteWriter, x: Forbidden)
    requires w.Valid()
    modifies w
    ensures w.Valid() && forall t: seq<byte> :: Sent(old(w.data), old(w.overflowed), PutForbidden(x, t), w.data, w.overflowed, t, w.ceiling)
  {
    hide PutList;
    WriteIds16(w, x.nodes);
    WriteIds16(w, x.links);
    WriteIds16(w, x.ports);
    WriteIds8(w, x.domains);
    WriteIds8(w, x.classes);
  }

  /** The optional bounds. */
  function PutBounds(x: Bounds, tail: seq<byte>): seq<byte> {
    PutHops(x.maxHops, PutMembers(x.maxMembers, PutBool(x.failClosed, tail)))
  }

  function GetBounds(s: seq<byte>): Parse<Bounds> {
    var maxHops :- GetHops(s);
    var maxMembers :- GetMembers(maxHops.rest);
    var failClosed :- GetBool(maxMembers.rest);
    Good(Bounds(maxHops.value, maxMembers.value, failClosed.value), failClosed.rest)
  }

  lemma BoundsRound(x: Bounds, tail: seq<byte>)
    ensures GetBounds(PutBounds(x, tail)) == Good(x, tail)
  {
    hide PutHops, PutMembers, PutBool, GetHops, GetMembers, GetBool;
    FieldsRound();
    HopsRound(x.maxHops);
    MembersRound(x.maxMembers);
  }

  lemma BoundsBack(s: seq<byte>)
    requires GetBounds(s).Good?
    ensures s == PutBounds(GetBounds(s).value, GetBounds(s).rest)
  {
    hide PutHops, PutMembers, PutBool, GetHops, GetMembers, GetBool;
    FieldsBack();
    HopsBack();
    MembersBack();
  }

  method ReadBounds(r: ByteReader) returns (x: Option<Bounds>)
    requires r.Valid() && !r.failed
    modifies r
    ensures r.Valid() && (x.Some? ==> !r.failed) && Follows(GetBounds(old(r.Rest())), x, r.Rest())
  {
    hide GetHops, GetMembers, GetBool;
    var maxHops :- ReadHops(r);
    var maxMembers :- ReadMembers(r);
    var failClosed :- ReadBool(r);
    x := Some(Bounds(maxHops, maxMembers, failClosed));
  }

  method WriteBounds(w: ByteWriter, x: Bounds)
    requires w.Valid()
    modifies w
    ensures w.Valid() && forall t: seq<byte> :: Sent(old(w.data), old(w.overflowed), PutBounds(x, t), w.data, w.overflowed, t, w.ceiling)
  {
    hide PutHops, PutMembers, PutBool;
    WriteHops(w, x.maxHops);
    WriteMembers(w, x.maxMembers);
    WriteBool(w, x.failClosed);
  }

  /** The hard constraints. */
  function PutConstraintSet(x: ConstraintSet, tail: seq<byte>): seq<byte> {
    PutId16(x.id, PutU64(x.generation, PutU32(x.layer, PutForbidden(x.forbidden, PutList(PutStage, x.stages, PutList(PutRequirement, x.requirements, PutBounds(x.bounds, tail)))))))
  }

  function GetConstraintSet(s: seq<byte>, limits: Limits): Parse<ConstraintSet> {
    var id :- GetId16(s);
    var generation :- GetU64(id.rest);
    var layer :- GetEnum(generation.rest, 4);
    var forbidden :- GetForbidden(layer.rest, limits);
    var stages :- GetStages(forbidden.rest, limits);
    var requirements :- GetRequirements(stages.rest, limits);
    var bounds :- GetBounds(requirements.rest);
    Good(ConstraintSet(id.value, generation.value, layer.value, forbidden.value, stages.value, requirements.value, bounds.value), bounds.rest)
  }

  ghost predicate OkConstraintSet(x: ConstraintSet, limits: Limits) {
    && x.id != 0
    && OkForbidden(x.forbidden, limits)
    && (|x.stages| <= limits.maxRequiredIds && forall i :: 0 <= i < |x.stages| ==> OkStage(x.stages[i], limits))
    && (|x.requirements| <= limits.maxCapabilityRequirements && forall i :: 0 <= i < |x.requirements| ==> x.requirements[i].capability != 0)
  }

  lemma ConstraintSetRound(x: ConstraintSet, tail: seq<byte>, limits: Limits)
    requires OkConstraintSet(x, limits)
    ensures GetConstraintSet(PutConstraintSet(x, tail), limits) == Good(x, tail)
  {
    hide PutId16, PutU64, PutU32, PutForbidden, PutList, PutBounds, GetAny16, GetU64, GetU32, GetForbidden, GetStages, GetRequirements, GetBounds;
    FieldsRound();
    ForbiddenRound(x.forbidden, PutList(PutStage, x.stages, PutList(PutRequirement, x.requirements, PutBounds(x.bounds, tail))), limits);
    StagesRound(x.stages, limits);
    RequirementsRound(x.requirements, limits);
    BoundsRound(x.bounds, tail);
  }

  lemma ConstraintSetBack(s: seq<byte>, limits: Limits)
    requires GetConstraintSet(s, limits).Good?
    ensures s == PutConstraintSet(GetConstraintSet(s, limits).value, GetConstraintSet(s, limits).rest)
  {
    hide PutId16, PutU64, PutU32, PutForbidden, PutList, PutBounds, GetAny16, GetU64, GetU32, GetForbidden, GetStages, GetRequirements, GetBounds;
    FieldsBack();
    StagesBack(limits);
    RequirementsBack(limits);
    var id := GetId16(s);
    var generation := GetU64(id.rest);
    var layer := GetEnum(generation.rest, 4);
    var forbidden := GetForbidden(layer.rest, limits);
    ForbiddenBack(layer.rest, limits);
    var stages := GetStages(forbidden.rest, limits);
    var requirements := GetRequirements(stages.rest, limits);
    var bounds := GetBounds(requirements.rest);
    BoundsBack(requirements.rest);
  }

  method ReadConstraintSet(r: ByteReader, limits: Limits) returns (x: Option<ConstraintSet>)
    requires r.Valid() && !r.failed
    modifies r
    ensures r.Valid() && (x.Some? ==> !r.failed) && Follows(GetConstraintSet(old(r.Rest()), limits), x, r.Rest())
  {
    hide GetAny16, GetU64, GetU32, GetForbidden, GetStages, GetRequirements, GetBounds, GetId16, GetEnum;
    var id :- ReadId16(r);
    var generation :- ReadU64(r);
    var layer :- ReadEnum(r, 4);
    var forbidden :- ReadForbidden(r, limits);
    var stages :- ReadStages(r, limits);
    var requirements :- ReadRequirements(r, limits);
    var bounds :- ReadBounds(r);
    x := Some(ConstraintSet(id, generation, layer, forbidden, stages, requirements, bounds));
  }

  method WriteConstraintSet(w: ByteWriter, x: ConstraintSet)
    requires w.Valid()
    modifies w
    ensures w.Valid() && forall t: seq<byte> :: Sent(old(w.data), old(w.overflowed), PutConstraintSet(x, t), w.data, w.overflowed, t, w.ceiling)
  {
    hide PutId16, PutU64, PutU32, PutForbidden, PutList, PutBounds;
    WriteId16(w, x.id);
    WriteU64(w, x.generation);
    WriteU32(w, x.layer);
    WriteForbidden(w, x.forbidden);
    WriteStages(w, x.stages);
    WriteRequirements(w, x.requirements);
    WriteBounds(w, x.bounds);
  }

  /** The cost model. */
  function PutCosts(x: Costs, tail: seq<byte>): seq<byte> {
    PutU64(x.hopCost, PutU64(x.degradedPenalty, PutU64(x.localityPenalty, tail)))
  }

  function GetCosts(s: seq<byte>): Parse<Costs> {
    var hopCost :- GetU64(s);
    var degradedPenalty :- GetU64(hopCost.rest);
    var localityPenalty :- GetU64(degradedPenalty.rest);
    Good(Costs(hopCost.value, degradedPenalty.value, localityPenalty.value), localityPenalty.rest)
  }

  lemma CostsRound(x: Costs, tail: seq<byte>)
    ensures GetCosts(PutCosts(x, tail)) == Good(x, tail)
  {
    hide PutU64, GetU64;
    FieldsRound();
  }

  lemma CostsBack(s: seq<byte>)
    requires GetCosts(s).Good?
    ensures s == PutCosts(GetCosts(s).value, GetCosts(s).rest)
  {
    hide PutU64, GetU64;
    FieldsBack();
  }

  method ReadCosts(r: ByteReader) returns (x: Option<Costs>)
    requires r.Valid() && !r.failed
    modifies r
    ensures r.Valid() && (x.Some? ==> !r.failed) && Follows(GetCosts(old(r.Rest())), x, r.Rest())
  {
    hide GetU64;
    var hopCost :- ReadU64(r);
    var degradedPenalty :- ReadU64(r);
    var localityPenalty :- ReadU64(r);
    x := Some(Costs(hopCost, degradedPenalty, localityPenalty));
  }

  method WriteCosts(w: ByteWriter, x: Costs)
    requires w.Valid()
    modifies w
    ensures w.Valid() && forall t: seq<byte> :: Sent(old(w.data), old(w.overflowed), PutCosts(x, t), w.data, w.overflowed, t, w.ceiling)
  {
    hide PutU64;
    WriteU64(w, x.hopCost);
    WriteU64(w, x.degradedPenalty);
    WriteU64(w, x.localityPenalty);
  }

  /** The policy flags. */
  function PutFlags(x: Flags, tail: seq<byte>): seq<byte> {
    PutBool(x.allowDegraded, PutBool(x.allowDraining, PutBool(x.allowMaintenance, PutBool(x.requireProof, PutBool(x.allowZeroHop, tail)))))
  }

  function GetFlags(s: seq<byte>): Parse<Flags> {
    var allowDegraded :- GetBool(s);
    var allowDraining :- GetBool(allowDegraded.rest);
    var allowMaintenance :- GetBool(allowDraining.rest);
    var requireProof :- GetBool(allowMaintenance.rest);
    var allowZeroHop :- GetBool(requireProof.rest);
    Good(Flags(allowDegraded.value, allowDraining.value, allowMaintenance.value, requireProof.value, allowZeroHop.value), allowZeroHop.rest)
  }

  lemma FlagsRound(x: Flags, tail: seq<byte>)
    ensures GetFlags(PutFlags(x, tail)) == Good(x, tail)
  {
    hide PutBool, GetBool;
    FieldsRound();
  }

  lemma FlagsBack(s: seq<byte>)
    requires GetFlags(s).Good?
    ensures s == PutFlags(GetFlags(s).value, GetFlags(s).rest)
  {
    hide PutBool, GetBool;
    FieldsBack();
  }

  method ReadFlags(r: ByteReader) returns (x: Option<Flags>)
    requires r.Valid() && !r.failed
    modifies r
    ensures r.Valid() && (x.Some? ==> !r.failed) && Follows(GetFlags(old(r.Rest())), x, r.Rest())
  {
    hide GetBool;
    var allowDegraded :- ReadBool(r);
    var allowDraining :- ReadBool(r);
    var allowMaintenance :- ReadBool(r);
    var requireProof :- ReadBool(r);
    var allowZeroHop :- ReadBool(r);
    x := Some(Flags(allowDegraded, allowDraining, allowMaintenance, requireProof, allowZeroHop));
  }

  method WriteFlags(w: ByteWriter, x: Flags)
    requires w.Valid()
    modifies w
    ensures w.Valid() && forall t: seq<byte> :: Sent(old(w.data), old(w.overflowed), PutFlags(x, t), w.data, w.overflowed, t, w.ceiling)
  {
    hide PutBool;
    WriteBool(w, x.allowDegraded);
    WriteBool(w, x.allowDraining);
    WriteBool(w, x.allowMaintenance);
    WriteBool(w, x.requireProof);
    WriteBool(w, x.allowZeroHop);
  }

  /** The planning policy. */
  function PutPolicy(x: Policy, tail: seq<byte>): seq<byte> {
    PutU64(x.generation, PutCosts(x.costs, PutFlags(x.flags, PutList(PutId16, x.localityScope, PutU32(x.authorityValidation, tail)))))
  }

  function GetPolicy(s: seq<byte>, limits: Limits): Parse<Policy> {
    var generation :- GetU64(s);
    var costs :- GetCosts(generation.rest);
    var flags :- GetFlags(costs.rest);
    var localityScope :- GetList(GetId16, flags.rest, limits.maxForbiddenIds);
    var authorityValidation :- GetEnum(localityScope.rest, 3);
    Good(Policy(generation.value, costs.value, flags.value, localityScope.value, authorityValidation.value), authorityValidation.rest)
  }

  ghost predicate OkPolicy(x: Policy, limits: Limits) {
    NonNil(x.localityScope) && |x.localityScope| <= limits.maxForbiddenIds
  }

  lemma PolicyRound(x: Policy, tail: seq<byte>, limits: Limits)
    requires OkPolicy(x, limits)
    ensures GetPolicy(PutPolicy(x, tail), limits) == Good(x, tail)
  {
    hide PutU64, PutCosts, PutFlags, PutList, PutU32, GetU64, GetCosts, GetFlags, GetList, GetU32;
    FieldsRound();
    CostsRound(x.costs, PutFlags(x.flags, PutList(PutId16, x.localityScope, PutU32(x.authorityValidation, tail))));
    FlagsRound(x.flags, PutList(PutId16, x.localityScope, PutU32(x.authorityValidation, tail)));
    Ids16Round(x.localityScope, limits.maxForbiddenIds);
  }

  lemma PolicyBack(s: seq<byte>, limits: Limits)
    requires GetPolicy(s, limits).Good?
    ensures s == PutPolicy(GetPolicy(s, limits).value, GetPolicy(s, limits).rest)
  {
    hide PutU64, PutCosts, PutFlags, PutList, PutU32, GetU64, GetCosts, GetFlags, GetList, GetU32;
    FieldsBack();
    Ids16Back();
    var generation := GetU64(s);
    var costs := GetCosts(generation.rest);
    CostsBack(generation.rest);
    var flags := GetFlags(costs.rest);
    FlagsBack(costs.rest);
    var localityScope := GetList(GetId16, flags.rest, limits.maxForbiddenIds);
    var authorityValidation := GetEnum(localityScope.rest, 3);
  }

  method ReadPolicy(r: ByteReader, limits: Limits) returns (x: Option<Policy>)
    requires r.Valid() && !r.failed
    modifies r
    ensures r.Valid() && (x.Some? ==> !r.failed) && Follows(GetPolicy(old(r.Rest()), limits), x, r.Rest())
  {
    hide GetU64, GetCosts, GetFlags, GetList, GetU32, GetEnum;
    var generation :- ReadU64(r);
    var costs :- ReadCosts(r);
    var flags :- ReadFlags(r);
    var localityScope :- ReadIds16(r, limits.maxForbiddenIds);
    var authorityValidation :- ReadEnum(r, 3);
    x := Some(Policy(generation, costs, flags, localityScope, authorityValidation));
  }

  method WritePolicy(w: ByteWriter, x: Policy)
    requires w.Valid()
    modifies w
    ensures w.Valid() && forall t: seq<byte> :: Sent(old(w.data), old(w.overflowed), PutPolicy(x, t), w.data, w.overflowed, t, w.ceiling)
  {
    hide PutU64, PutCosts, PutFlags, PutList, PutU32;
    WriteU64(w, x.generation);
    WriteCosts(w, x.costs);
    WriteFlags(w, x.flags);
    WriteIds16(w, x.localityScope);
    WriteU32(w, x.authorityValidation);
  }

  /** The caller's authority; its identities may be nil. */
  function PutAuthority(x: Authority, tail: seq<byte>): seq<byte> {
    PutU32(x.scopeMask, PutId8(x.publisher, PutId8(x.workerBoot, PutU64(x.coordinatorEpoch, PutId8(x.attempt, PutBool(x.epochBound, PutBool(x.enforceScope, tail)))))))
  }

  function GetAuthority(s: seq<byte>): Parse<Authority> {
    var scopeMask :- GetU32(s);
    var publisher :- GetAny8(scopeMask.rest);
    var workerBoot :- GetAny8(publisher.rest);
    var coordinatorEpoch :- GetU64(workerBoot.rest);
    var attempt :- GetAny8(coordinatorEpoch.rest);
    var epochBound :- GetBool(attempt.rest);
    var enforceScope :- GetBool(epochBound.rest);
    Good(Authority(scopeMask.value, publisher.value, workerBoot.value, coordinatorEpoch.value, attempt.value, epochBound.value, enforceScope.value), enforceScope.rest)
  }

  lemma AuthorityRound(x: Authority, tail: seq<byte>)
    ensures GetAuthority(PutAuthority(x, tail)) == Good(x, tail)
  {
    hide PutU32, PutId8, PutU64, PutBool, GetU32, GetAny8, GetU64, GetBool;
    FieldsRound();
  }

  lemma AuthorityBack(s: seq<byte>)
    requires GetAuthority(s).Good?
    ensures s == PutAuthority(GetAuthority(s).value, GetAuthority(s).rest)
  {
    hide PutU32, PutId8, PutU64, PutBool, GetU32, GetAny8, GetU64, GetBool;
    FieldsBack();
  }

  method ReadAuthority(r: ByteReader) returns (x: Option<Authority>)
    requires r.Valid() && !r.failed
    modifies r
    ensures r.Valid() && (x.Some? ==> !r.failed) && Follows(GetAuthority(old(r.Rest())), x, r.Rest())
  {
    hide GetU32, GetAny8, GetU64, GetBool;
    var scopeMask :- ReadU32(r);
    var publisher :- ReadAny8(r);
    var workerBoot :- ReadAny8(r);
    var coordinatorEpoch :- ReadU64(r);
    var attempt :- ReadAny8(r);
    var epochBound :- ReadBool(r);
    var enforceScope :- ReadBool(r);
    x := Some(Authority(scopeMask, publisher, workerBoot, coordinatorEpoch, attempt, epochBound, enforceScope));
  }

  method WriteAuthority(w: ByteWriter, x: Authority)
    requires w.Valid()
    modifies w
    ensures w.Valid() && forall t: seq<byte> :: Sent(old(w.data), old(w.overflowed), PutAuthority(x, t), w.data, w.overflowed, t, w.ceiling)
  {
    hide PutU32, PutId8, PutU64, PutBool;
    WriteU32(w, x.scopeMask);
    WriteId8(w, x.publisher);
    WriteId8(w, x.workerBoot);
    WriteU64(w, x.coordinatorEpoch);
    WriteId8(w, x.attempt);
    WriteBool(w, x.epochBound);
    WriteBool(w, x.enforceScope);
  }

  /** What the caller expects to be current. */
  function PutExpectations(x: Expectations, tail: seq<byte>): seq<byte> {
    PutBool(x.expectEpoch, PutU64(x.expectedEpoch, PutBool(x.expectTopology, PutU64(x.expectedTopology, PutBool(x.expectSnapshot, PutId16(x.expectedSnapshot, tail))))))
  }

  function GetExpectations(s: seq<byte>): Parse<Expectations> {
    var expectEpoch :- GetBool(s);
    var expectedEpoch :- GetU64(expectEpoch.rest);
    var expectTopology :- GetBool(expectedEpoch.rest);
    var expectedTopology :- GetU64(expectTopology.rest);
    var expectSnapshot :- GetBool(expectedTopology.rest);
    var expectedSnapshot :- GetAny16(expectSnapshot.rest);
    Good(Expectations(expectEpoch.value, expectedEpoch.value, expectTopology.value, expectedTopology.value, expectSnapshot.value, expectedSnapshot.value), expectedSnapshot.rest)
  }

  lemma ExpectationsRound(x: Expectations, tail: seq<byte>)
    ensures GetExpectations(PutExpectations(x, tail)) == Good(x, tail)
  {
    hide PutBool, PutU64, PutId16, GetBool, GetU64, GetAny16;
    FieldsRound();
  }

  lemma ExpectationsBack(s: seq<byte>)
    requires GetExpectations(s).Good?
    ensures s == PutExpectations(GetExpectations(s).value, GetExpectations(s).rest)
  {
    hide PutBool, PutU64, PutId16, GetBool, GetU64, GetAny16;
    FieldsBack();
  }

  method ReadExpectations(r: ByteReader) returns (x: Option<Expectations>)
    requires r.Valid() && !r.failed
    modifies r
    ensures r.Valid() && (x.Some? ==> !r.failed) && Follows(GetExpectations(old(r.Rest())), x, r.Rest())
  {
    hide GetBool, GetU64, GetAny16;
    var expectEpoch :- ReadBool(r);
    var expectedEpoch :- ReadU64(r);
    var expectTopology :- ReadBool(r);
    var expectedTopology :- ReadU64(r);
    var expectSnapshot :- ReadBool(r);
    var expectedSnapshot :- ReadAny16(r);
    x := Some(Expectations(expectEpoch, expectedEpoch, expectTopology, expectedTopology, expectSnapshot, expectedSnapshot));
  }

  method WriteExpectations(w: ByteWriter, x: Expectations)
    requires w.Valid()
    modifies w
    ensures w.Valid() && forall t: seq<byte> :: Sent(old(w.data), old(w.overflowed), PutExpectations(x, t), w.data, w.overflowed, t, w.ceiling)
  {
    hide PutBool, PutU64, PutId16;
    WriteBool(w, x.expectEpoch);
    WriteU64(w, x.expectedEpoch);
    WriteBool(w, x.expectTopology);
    WriteU64(w, x.expectedTopology);
    WriteBool(w, x.expectSnapshot);
    WriteId16(w, x.expectedSnapshot);
  }

  /** A planning request. */
  function PutPlanningRequest(x: PlanningRequest, tail: seq<byte>): seq<byte> {
    PutId16(x.id, PutEndpoint(x.source, PutEndpoint(x.destination, PutConstraintSet(x.constraints, PutPolicy(x.policy, PutU32(x.maxCandidates, PutU32(x.mode, PutAuthority(x.authority, PutExpectations(x.expectations, tail)))))))))
  }

  function GetPlanningRequest(s: seq<byte>, limits: Limits): Parse<PlanningRequest> {
    var id :- GetId16(s);
    var source :- GetEndpoint(id.rest);
    var destination :- GetEndpoint(source.rest);
    var constraints :- GetConstraintSet(destination.rest, limits);
    var policy :- GetPolicy(constraints.rest, limits);
    var maxCandidates :- GetU32(policy.rest);
    var mode :- GetEnum(maxCandidates.rest, 2);
    var authority :- GetAuthority(mode.rest);
    var expectations :- GetExpectations(authority.rest);
    Good(PlanningRequest(id.value, source.value, destination.value, constraints.value, policy.value, maxCandidates.value, mode.value, authority.value, expectations.value), expectations.rest)
  }

  ghost predicate OkPlanningRequest(x: PlanningRequest, limits: Limits) {
    && x.id != 0
    && OkEndpoint(x.source)
    && OkEndpoint(x.destination)
    && OkConstraintSet(x.constraints, limits)
    && OkPolicy(x.policy, limits)
  }

  lemma PlanningRequestRound(x: PlanningRequest, tail: seq<byte>, limits: Limits)
    requires OkPlanningRequest(x, limits)
    ensures GetPlanningRequest(PutPlanningRequest(x, tail), limits) == Good(x, tail)
  {
    hide PutId16, PutEndpoint, PutConstraintSet, PutPolicy, PutU32, PutAuthority, PutExpectations, GetAny16, GetEndpoint, GetConstraintSet, GetPolicy, GetU32, GetAuthority, GetExpectations;
    FieldsRound();
    EndpointRound(x.source, PutEndpoint(x.destination, PutConstraintSet(x.constraints, PutPolicy(x.policy, PutU32(x.maxCandidates, PutU32(x.mode, PutAuthority(x.authority, PutExpectations(x.expectations, tail))))))));
    EndpointRound(x.destination, PutConstraintSet(x.constraints, PutPolicy(x.policy, PutU32(x.maxCandidates, PutU32(x.mode, PutAuthority(x.authority, PutExpectations(x.expectations, tail)))))));
    ConstraintSetRound(x.constraints, PutPolicy(x.policy, PutU32(x.maxCandidates, PutU32(x.mode, PutAuthority(x.authority, PutExpectations(x.expectations, tail))))), limits);
    PolicyRound(x.policy, PutU32(x.maxCandidates, PutU32(x.mode, PutAuthority(x.authority, PutExpectations(x.expectations, tail)))), limits);
    AuthorityRound(x.authority, PutExpectations(x.expectations, tail));
    ExpectationsRound(x.expectations, tail);
  }

  lemma PlanningRequestBack(s: seq<byte>, limits: Limits)
    requires GetPlanningRequest(s, limits).Good?
    ensures s == PutPlanningRequest(GetPlanningRequest(s, limits).value, GetPlanningRequest(s, limits).rest)
  {
    hide PutId16, PutEndpoint, PutConstraintSet, PutPolicy, PutU32, PutAuthority, PutExpectations, GetAny16, GetEndpoint, GetConstraintSet, GetPolicy, GetU32, GetAuthority, GetExpectations;
    FieldsBack();
    var id := GetId16(s);
    var source := GetEndpoint(id.rest);
    EndpointBack(id.rest);
    var destination := GetEndpoint(source.rest);
    EndpointBack(source.rest);
    var constraints := GetConstraintSet(destination.rest, limits);
    ConstraintSetBack(destination.rest, limits);
    var policy := GetPolicy(constraints.rest, limits);
    PolicyBack(constraints.rest, limits);
    var maxCandidates := GetU32(policy.rest);
    var mode := GetEnum(maxCandidates.rest, 2);
    var authority := GetAuthority(mode.rest);
    AuthorityBack(mode.rest);
    var expectations := GetExpectations(authority.rest);
    ExpectationsBack(authority.rest);
  }

  method ReadPlanningRequest(r: ByteReader, limits: Limits) returns (x: Option<PlanningRequest>)
    requires r.Valid() && !r.failed
    modifies r
    ensures r.Valid() && (x.Some? ==> !r.failed) && Follows(GetPlanningRequest(old(r.Rest()), limits), x, r.Rest())
  {
    hide GetAny16, GetEndpoint, GetConstraintSet, GetPolicy, GetU32, GetAuthority, GetExpectations, GetId16, GetEnum;
    var id :- ReadId16(r);
    var source :- ReadEndpoint(r);
    var destination :- ReadEndpoint(r);
    var constraints :- ReadConstraintSet(r, limits);
    var policy :- ReadPolicy(r, limits);
    var maxCandidates :- ReadU32(r);
    var mode :- ReadEnum(r, 2);
    var authority :- ReadAuthority(r);
    var expectations :- ReadExpectations(r);
    x := Some(PlanningRequest(id, source, destination, constraints, policy, maxCandidates, mode, authority, expectations));
  }

  method WritePlanningRequest(w: ByteWriter, x: PlanningRequest)
    requires w.Valid()
    modifies w
    ensures w.Valid() && forall t: seq<byte> :: Sent(old(w.data), old(w.overflowed), PutPlanningRequest(x, t), w.data, w.overflowed, t, w.ceiling)
  {
    hide PutId16, PutEndpoint, PutConstraintSet, PutPolicy, PutU32, PutAuthority, PutExpectations;
    WriteId16(w, x.id);
    WriteEndpoint(w, x.source);
    WriteEndpoint(w, x.destination);
    WriteConstraintSet(w, x.constraints);
    WritePolicy(w, x.policy);
    WriteU32(w, x.maxCandidates);
    WriteU32(w, x.mode);
    WriteAuthority(w, x.authority);
    WriteExpectations(w, x.expectations);
  }

  ghost predicate NonNil(ids: seq<nat>) {
    forall i :: 0 <= i < |ids| ==> ids[i] != 0
  }

  lemma Ids16Round(ids: seq<id16>, limit: u32)
    requires NonNil(ids) && |ids| <= limit
    ensures forall t: seq<byte> :: GetList(GetId16, PutList(PutId16, ids, t), limit) == Good(ids, t)
  {
    hide GetList, PutList, GetAny16, PutId16;
    FieldsRound();
    forall t: seq<byte> ensures GetList(GetId16, PutList(PutId16, ids, t), limit) == Good(ids, t) {
      ListRound(PutId16, GetId16, ids, t, limit);
    }
  }

  lemma Ids8Round(ids: seq<id8>, limit: u32)
    requires NonNil(ids) && |ids| <= limit
    ensures forall t: seq<byte> :: GetList(GetId8, PutList(PutId8, ids, t), limit) == Good(ids, t)
  {
    hide GetList, PutList, GetAny8, PutId8;
    FieldsRound();
    forall t: seq<byte> ensures GetList(GetId8, PutList(PutId8, ids, t), limit) == Good(ids, t) {
      ListRound(PutId8, GetId8, ids, t, limit);
    }
  }

  lemma Ids16Back()
    ensures forall s: seq<byte>, limit: nat :: GetList(GetId16, s, limit).Good? ==>
      s == PutList(PutId16, GetList(GetId16, s, limit).value, GetList(GetId16, s, limit).rest)
  {
    hide GetList, PutList, GetAny16, PutId16;
    FieldsBack();
    forall s: seq<byte>, limit: nat | GetList(GetId16, s, limit).Good?
      ensures s == PutList(PutId16, GetList(GetId16, s, limit).value, GetList(GetId16, s, limit).rest)
    {
      ListBack(PutId16, GetId16, s, limit);
    }
  }

  lemma Ids8Back()
    ensures forall s: seq<byte>, limit: nat :: GetList(GetId8, s, limit).Good? ==>
      s == PutList(PutId8, GetList(GetId8, s, limit).value, GetList(GetId8, s, limit).rest)
  {
    hide GetList, PutList, GetAny8, PutId8;
    FieldsBack();
    forall s: seq<byte>, limit: nat | GetList(GetId8, s, limit).Good?
      ensures s == PutList(PutId8, GetList(GetId8, s, limit).value, GetList(GetId8, s, limit).rest)
    {
      ListBack(PutId8, GetId8, s, limit);
    }
  }

  /** An optional hop bound: a flag, then the bound. */
  function PutHops(x: Option<HopCount>, tail: seq<byte>): seq<byte> {
    match x
    case None => PutBool(false, tail)
    case Some(n) => PutBool(true, PutU32(n, tail))
  }

  function GetHops(s: seq<byte>): Parse<Option<HopCount>> {
    var flag :- GetBool(s);
    if !flag.value then Good(None, flag.rest) else
      var n :- GetU32(flag.rest);
      if n.value > 65535 then Bad else Good(Some(n.value), n.rest)
  }

  /** An optional failure-domain member limit. */
  function PutMembers(x: Option<u32>, tail: seq<byte>): seq<byte> {
    match x
    case None => PutBool(false, tail)
    case Some(n) => PutBool(true, PutU32(n, tail))
  }

  function GetMembers(s: seq<byte>): Parse<Option<u32>> {
    var flag :- GetBool(s);
    if !flag.value then Good(None, flag.rest) else
      var n :- GetU32(flag.rest);
      Good(Some(n.value), n.rest)
  }

  lemma HopsRound(x: Option<HopCount>)
    ensures forall t: seq<byte> :: GetHops(PutHops(x, t)) == Good(x, t)
  {
    hide GetBool, GetU32, PutBool, PutU32;
    FieldsRound();
  }

  lemma MembersRound(x: Option<u32>)
    ensures forall t: seq<byte> :: GetMembers(PutMembers(x, t)) == Good(x, t)
  {
    hide GetBool, GetU32, PutBool, PutU32;
    FieldsRound();
  }

  lemma HopsBack()
    ensures forall s: seq<byte> :: GetHops(s).Good? ==> s == PutHops(GetHops(s).value, GetHops(s).rest)
  {
    hide GetBool, GetU32, PutBool, PutU32;
    FieldsBack();
  }

  lemma MembersBack()
    ensures forall s: seq<byte> :: GetMembers(s).Good? ==> s == PutMembers(GetMembers(s).value, GetMembers(s).rest)
  {
    hide GetBool, GetU32, PutBool, PutU32;
    FieldsBack();
  }

  method ReadHops(r: ByteReader) returns (x: Option<Option<HopCount>>)
    requires r.Valid() && !r.failed
    modifies r
    ensures r.Valid() && (x.Some? ==> !r.failed) && Follows(GetHops(old(r.Rest())), x, r.Rest())
  {
    hide GetBool, GetU32;
    var flag :- ReadBool(r);
    if !flag {
      return Some(None);
    }
    var n :- ReadU32(r);
    if n > 65535 {
      return None;
    }
    x := Some(Some(n));
  }

  method ReadMembers(r: ByteReader) returns (x: Option<Option<u32>>)
    requires r.Valid() && !r.failed
    modifies r
    ensures r.Valid() && (x.Some? ==> !r.failed) && Follows(GetMembers(old(r.Rest())), x, r.Rest())
  {
    hide GetBool, GetU32;
    var flag :- ReadBool(r);
    if !flag {
      return Some(None);
    }
    var n :- ReadU32(r);
    x := Some(Some(n));
  }

  method WriteHops(w: ByteWriter, x: Option<HopCount>)
    requires w.Valid()
    modifies w
    ensures w.Valid() && forall t: seq<byte> :: Sent(old(w.data), old(w.overflowed), PutHops(x, t), w.data, w.overflowed, t, w.ceiling)
  {
    hide PutBool, PutU32;
    WriteBool(w, x.Some?);
    if x.Some? {
      WriteU32(w, x.value);
    }
  }

  method WriteMembers(w: ByteWriter, x: Option<u32>)
    requires w.Valid()
    modifies w
    ensures w.Valid() && forall t: seq<byte> :: Sent(old(w.data), old(w.overflowed), PutMembers(x, t), w.data, w.overflowed, t, w.ceiling)
  {
    hide PutBool, PutU32;
    WriteBool(w, x.Some?);
    if x.Some? {
      WriteU32(w, x.value);
    }
  }

  function StageReader(limits: Limits): seq<byte> -> Parse<Stage> {
    s => GetStage(s, limits)
  }

  function GetStages(s: seq<byte>, limits: Limits): Parse<seq<Stage>> {
    GetList(StageReader(limits), s, limits.maxRequiredIds)
  }

  function GetRequirements(s: seq<byte>, limits: Limits): Parse<seq<Requirement>> {
    GetList(GetRequirement, s, limits.maxCapabilityRequirements)
  }

  lemma StagesRound(xs: seq<Stage>, limits: Limits)
    requires |xs| <= limits.maxRequiredIds && forall i :: 0 <= i < |xs| ==> OkStage(xs[i], limits)
    ensures forall t: seq<byte> :: GetStages(PutList(PutStage, xs, t), limits) == Good(xs, t)
  {
    hide GetList, PutList, GetStage, PutStage, OkStage;
    forall i | 0 <= i < |xs| ensures ReadsBack(PutStage, StageReader(limits), xs[i]) {
      forall t: seq<byte> ensures StageReader(limits)(PutStage(xs[i], t)) == Good(xs[i], t) {
        StageRound(xs[i], t, limits);
      }
    }
    forall t: seq<byte> ensures GetStages(PutList(PutStage, xs, t), limits) == Good(xs, t) {
      ListRound(PutStage, StageReader(limits), xs, t, limits.maxRequiredIds);
    }
  }

  lemma StagesBack(limits: Limits)
    ensures forall s: seq<byte> :: GetStages(s, limits).Good? ==> s == PutList(PutStage, GetStages(s, limits).value, GetStages(s, limits).rest)
  {
    hide GetList, PutList, GetStage, PutStage;
    forall s: seq<byte> | StageReader(limits)(s).Good? ensures s == PutStage(StageReader(limits)(s).value, StageReader(limits)(s).rest) {
      StageBack(s, limits);
    }
    assert WritesBack(PutStage, StageReader(limits));
    forall s: seq<byte> | GetStages(s, limits).Good? ensures s == PutList(PutStage, GetStages(s, limits).value, GetStages(s, limits).rest) {
      ListBack(PutStage, StageReader(limits), s, limits.maxRequiredIds);
    }
  }

  lemma RequirementsRound(xs: seq<Requirement>, limits: Limits)
    requires |xs| <= limits.maxCapabilityRequirements && forall i :: 0 <= i < |xs| ==> xs[i].capability != 0
    ensures forall t: seq<byte> :: GetRequirements(PutList(PutRequirement, xs, t), limits) == Good(xs, t)
  {
    hide GetList, PutList, GetRequirement, PutRequirement;
    forall i | 0 <= i < |xs| ensures ReadsBack(PutRequirement, GetRequirement, xs[i]) {
      forall t: seq<byte> ensures GetRequirement(PutRequirement(xs[i], t)) == Good(xs[i], t) {
        RequirementRound(xs[i], t);
      }
    }
    forall t: seq<byte> ensures GetRequirements(PutList(PutRequirement, xs, t), limits) == Good(xs, t) {
      ListRound(PutRequirement, GetRequirement, xs, t, limits.maxCapabilityRequirements);
    }
  }

  lemma RequirementsBack(limits: Limits)
    ensures forall s: seq<byte> :: GetRequirements(s, limits).Good? ==>
      s == PutList(PutRequirement, GetRequirements(s, limits).value, GetRequirements(s, limits).rest)
  {
    hide GetList, PutList, GetRequirement, PutRequirement;
    forall s: seq<byte> | GetRequirement(s).Good? ensures s == PutRequirement(GetRequirement(s).value, GetRequirement(s).rest) {
      RequirementBack(s);
    }
    assert WritesBack(PutRequirement, GetRequirement);
    forall s: seq<byte> | GetRequirements(s, limits).Good?
      ensures s == PutList(PutRequirement, GetRequirements(s, limits).value, GetRequirements(s, limits).rest)
    {
      ListBack(PutRequirement, GetRequirement, s, limits.maxCapabilityRequirements);
    }
  }

  method ReadStages(r: ByteReader, limits: Limits) returns (xs: Option<seq<Stage>>)
    requires r.Valid() && !r.failed
    modifies r
    ensures r.Valid() && (xs.Some? ==> !r.failed) && Follows(GetStages(old(r.Rest()), limits), xs, r.Rest())
  {
    hide GetStage, GetCount, GetMany;
    var count :- ReadCount(r, limits.maxRequiredIds);
    ghost var s, get := r.Rest(), StageReader(limits);
    var out: seq<Stage> := [];
    NothingLeft(get, s, count);
    for i := 0 to count
      invariant r.Valid() && !r.failed && GetMany(get, s, count) == Collected(out, GetMany(get, r.Rest(), count - i))
    {
      CollectedStep(get, out, r.Rest(), count - i);
      var x :- ReadStage(r, limits);
      out := out + [x];
    }
    NoneLeft(get, out, r.Rest());
    xs := Some(out);
  }

  method ReadRequirements(r: ByteReader, limits: Limits) returns (xs: Option<seq<Requirement>>)
    requires r.Valid() && !r.failed
    modifies r
    ensures r.Valid() && (xs.Some? ==> !r.failed) && Follows(GetRequirements(old(r.Rest()), limits), xs, r.Rest())
  {
    hide GetRequirement, GetCount, GetMany;
    var count :- ReadCount(r, limits.maxCapabilityRequirements);
    ghost var s := r.Rest();
    var out: seq<Requirement> := [];
    NothingLeft(GetRequirement, s, count);
    for i := 0 to count
      invariant r.Valid() && !r.failed && GetMany(GetRequirement, s, count) == Collected(out, GetMany(GetRequirement, r.Rest(), count - i))
    {
      CollectedStep(GetRequirement, out, r.Rest(), count - i);
      var x :- ReadRequirement(r);
      out := out + [x];
    }
    NoneLeft(GetRequirement, out, r.Rest());
    xs := Some(out);
  }

  method WriteStages(w: ByteWriter, xs: seq<Stage>)
    requires w.Valid()
    modifies w
    ensures w.Valid() && forall t: seq<byte> :: Sent(old(w.data), old(w.overflowed), PutList(PutStage, xs, t), w.data, w.overflowed, t, w.ceiling)
  {
    hide PutStage, PutCount, PutMany;
    ghost var d0, o0 := w.data, w.overflowed;
    WriteCount(w, |xs|);
    assert xs[0..] == xs;
    for i := 0 to |xs|
      invariant w.Valid()
      invariant forall t: seq<byte> :: Sent(d0, o0, PutList(PutStage, xs, t), w.data, w.overflowed, PutMany(PutStage, xs[i..], t), w.ceiling)
    {
      ManyStep(PutStage, xs, i);
      WriteStage(w, xs[i]);
    }
    ManyEnd(PutStage, xs);
  }

  method WriteRequirements(w: ByteWriter, xs: seq<Requirement>)
    requires w.Valid()
    modifies w
    ensures w.Valid() && forall t: seq<byte> :: Sent(old(w.data), old(w.overflowed), PutList(PutRequirement, xs, t), w.data, w.overflowed, t, w.ceiling)
  {
    hide PutRequirement, PutCount, PutMany;
    ghost var d0, o0 := w.data, w.overflowed;
    WriteCount(w, |xs|);
    assert xs[0..] == xs;
    for i := 0 to |xs|
      invariant w.Valid()
      invariant forall t: seq<byte> :: Sent(d0, o0, PutList(PutRequirement, xs, t), w.data, w.overflowed, PutMany(PutRequirement, xs[i..], t), w.ceiling)
    {
      ManyStep(PutRequirement, xs, i);
      WriteRequirement(w, xs[i]);
    }
    ManyEnd(PutRequirement, xs);
  }

  /** What a request must meet, by section. */
  ghost predicate StageValid(x: Stage, limits: Limits) {
    && x.alternatives != [] && (x.kind == EXACT ==> |x.alternatives| == 1) && |x.alternatives| <= limits.maxMembersInAnySet
    && NonNil(x.alternatives) && Distinct(x.alternatives)
  }

  ghost predicate ForbiddenValid(x: Forbidden, limits: Limits) {
    && |x.nodes| <= limits.maxForbiddenIds && |x.links| <= limits.maxForbiddenIds && |x.ports| <= limits.maxForbiddenIds
    && |x.domains| <= limits.maxForbiddenIds && |x.classes| <= limits.maxForbiddenDomainClasses
    && NonNil(x.nodes) && NonNil(x.links) && NonNil(x.ports) && NonNil(x.domains) && NonNil(x.classes)
    && Distinct(x.nodes) && Distinct(x.links) && Distinct(x.ports) && Distinct(x.domains) && Distinct(x.classes)
  }

  function EntryCount(x: ConstraintSet): nat {
    |x.forbidden.nodes| + |x.forbidden.links| + |x.forbidden.ports| + |x.forbidden.domains| + |x.forbidden.classes| +
    |x.stages| + |x.requirements|
  }

  ghost predicate ConstraintSetValid(x: ConstraintSet, limits: Limits) {
    && x.id != 0
    && |x.forbidden.nodes| + |x.forbidden.links| + |x.forbidden.ports| + |x.forbidden.domains| + |x.forbidden.classes| + |x.stages| + |x.requirements| <= limits.maxConstraintsTotal
    && ForbiddenValid(x.forbidden, limits)
    && |x.stages| <= limits.maxRequiredIds && |x.requirements| <= limits.maxCapabilityRequirements
    && (forall i :: 0 <= i < |x.stages| ==> StageValid(x.stages[i], limits))
    && (forall i :: 0 <= i < |x.requirements| ==> x.requirements[i].capability != 0)
    && (x.bounds.maxHops.Some? ==> x.bounds.maxHops.value <= limits.maxHops)
    && x.bounds.maxMembers != Some(0)
  }

  ghost predicate PolicyValid(x: Policy, limits: Limits) {
    && |x.localityScope| <= limits.maxForbiddenIds && NonNil(x.localityScope) && Distinct(x.localityScope)
    && (x.costs.localityPenalty != 0 ==> x.localityScope != [])
  }

  ghost predicate RequestValid(x: PlanningRequest, limits: Limits) {
    && x.id != 0 && x.source.id != 0 && x.destination.id != 0
    && 1 <= x.maxCandidates <= limits.maxCandidatesPerRequest
    && ConstraintSetValid(x.constraints, limits) && PolicyValid(x.policy, limits)
    && (x.expectations.expectTopology ==> x.expectations.expectedTopology != 0)
    && (x.expectations.expectSnapshot ==> x.expectations.expectedSnapshot != 0)
  }

  method AllNonNil(ids: seq<nat>) returns (b: bool)
    ensures b <==> NonNil(ids)
  {
    for i := 0 to |ids|
      invariant forall k :: 0 <= k < i ==> ids[k] != 0
    {
      if ids[i] == 0 {
        return false;
      }
    }
    b := true;
  }

  method ValidateForbidden(x: Forbidden, limits: Limits) returns (b: bool)
    ensures b <==> ForbiddenValid(x, limits)
  {
    hide NonNil, Distinct;
    if |x.nodes| > limits.maxForbiddenIds || |x.links| > limits.maxForbiddenIds || |x.ports| > limits.maxForbiddenIds ||
       |x.domains| > limits.maxForbiddenIds || |x.classes| > limits.maxForbiddenDomainClasses {
      return false;
    }
    var n1 := AllNonNil(x.nodes);
    var n2 := AllNonNil(x.links);
    var n3 := AllNonNil(x.ports);
    var n4 := AllNonNil(x.domains);
    var n5 := AllNonNil(x.classes);
    if !(n1 && n2 && n3 && n4 && n5) {
      return false;
    }
    var d1 := AllDistinct(x.nodes);
    var d2 := AllDistinct(x.links);
    var d3 := AllDistinct(x.ports);
    var d4 := AllDistinct(x.domains);
    var d5 := AllDistinct(x.classes);
    b := d1 && d2 && d3 && d4 && d5;
  }

  method ValidateStage(x: Stage, limits: Limits) returns (b: bool)
    ensures b <==> StageValid(x, limits)
  {
    hide NonNil, Distinct;
    if |x.alternatives| == 0 || (x.kind == EXACT && |x.alternatives| != 1) || |x.alternatives| > limits.maxMembersInAnySet {
      return false;
    }
    var named := AllNonNil(x.alternatives);
    if !named {
      return false;
    }
    b := AllDistinct(x.alternatives);
  }

  method ValidateConstraintSet(x: ConstraintSet, limits: Limits) returns (b: bool)
    ensures b <==> ConstraintSetValid(x, limits)
  {
    hide ForbiddenValid, StageValid;
    if x.id == 0 || EntryCount(x) > limits.maxConstraintsTotal {
      return false;
    }
    var forbidden := ValidateForbidden(x.forbidden, limits);
    if !forbidden {
      return false;
    }
    if |x.stages| > limits.maxRequiredIds || |x.requirements| > limits.maxCapabilityRequirements {
      return false;
    }
    for i := 0 to |x.stages|
      invariant forall k :: 0 <= k < i ==> StageValid(x.stages[k], limits)
    {
      var stage := ValidateStage(x.stages[i], limits);
      if !stage {
        return false;
      }
    }
    for i := 0 to |x.requirements|
      invariant forall k :: 0 <= k < i ==> x.requirements[k].capability != 0
    {
      if x.requirements[i].capability == 0 {
        return false;
      }
    }
    if x.bounds.maxHops.Some? && x.bounds.maxHops.value > limits.maxHops {
      return false;
    }
    b := !(x.bounds.maxMembers.Some? && x.bounds.maxMembers.value == 0);
  }

  method ValidatePolicy(x: Policy, limits: Limits) returns (b: bool)
    ensures b <==> PolicyValid(x, limits)
  {
    hide NonNil, Distinct;
    if |x.localityScope| > limits.maxForbiddenIds {
      return false;
    }
    var named := AllNonNil(x.localityScope);
    if !named {
      return false;
    }
    var distinct := AllDistinct(x.localityScope);
    if !distinct {
      return false;
    }
    b := !(x.costs.localityPenalty != 0 && |x.localityScope| == 0);
  }

  method ValidateRequest(x: PlanningRequest, limits: Limits) returns (b: bool)
    ensures b <==> RequestValid(x, limits)
  {
    hide ConstraintSetValid, PolicyValid;
    if x.id == 0 || x.source.id == 0 || x.destination.id == 0 {
      return false;
    }
    if x.maxCandidates == 0 || x.maxCandidates > limits.maxCandidatesPerRequest {
      return false;
    }
    var constraints := ValidateConstraintSet(x.constraints, limits);
    if !constraints {
      return false;
    }
    var policy := ValidatePolicy(x.policy, limits);
    if !policy {
      return false;
    }
    if x.expectations.expectTopology && x.expectations.expectedTopology == 0 {
      return false;
    }
    b := !(x.expectations.expectSnapshot && x.expectations.expectedSnapshot == 0);
  }

  /** The canonical payload of a request. */
  function Payload(x: PlanningRequest): seq<byte> {
    PutPlanningRequest(x, [])
  }

  method EncodePlanningRequestPayload(x: PlanningRequest, ceiling: nat) returns (bytes: Option<seq<byte>>)
    ensures bytes == if |Payload(x)| <= ceiling then Some(Payload(x)) else None
  {
    hide PutPlanningRequest;
    var w := new ByteWriter(ceiling);
    WritePlanningRequest(w, x);
    assert Sent([], false, Payload(x), w.data, w.overflowed, [], ceiling);
    assert [] + Payload(x) == Payload(x) && w.data + [] == w.data;
    if w.overflowed {
      return None;
    }
    bytes := Some(w.data);
  }

  datatype WireStatus = Ok | Malformed | TrailingBytes

  method DecodePlanningRequestPayload(bytes: seq<byte>, limits: Limits) returns (status: WireStatus, request: Option<PlanningRequest>)
    ensures status == Ok <==> request.Some?
    ensures forall x :: request == Some(x) <==> RequestValid(x, limits) && bytes == Payload(x)
    ensures forall x, rest :: RequestValid(x, limits) && rest != [] && bytes == PutPlanningRequest(x, rest) ==> status == TrailingBytes
  {
    hide GetPlanningRequest, PutPlanningRequest, RequestValid, OkPlanningRequest;
    forall x, rest | RequestValid(x, limits) && bytes == PutPlanningRequest(x, rest) ensures GetPlanningRequest(bytes, limits) == Good(x, rest) {
      ValidIsOk(x, limits);
      PlanningRequestRound(x, rest, limits);
    }
    var r := new ByteReader(bytes);
    PayloadExact(bytes, limits);
    var decoded := ReadPlanningRequest(r, limits);
    if decoded.None? {
      return Malformed, None;
    }
    if decoded.value.expectations.expectSnapshot && decoded.value.expectations.expectedSnapshot == 0 {
      NilSnapshot(decoded.value, limits);
      return Malformed, None;
    }
    var end := r.AtEnd();
    if !end {
      return TrailingBytes, None;
    }
    var valid := ValidateRequest(decoded.value, limits);
    if !valid {
      return Malformed, None;
    }
    status, request := Ok, decoded;
  }

  lemma NilSnapshot(x: PlanningRequest, limits: Limits)
    requires x.expectations.expectSnapshot && x.expectations.expectedSnapshot == 0
    ensures !RequestValid(x, limits)
  {
    hide ConstraintSetValid, PolicyValid;
  }

  lemma ValidIsOk(x: PlanningRequest, limits: Limits)
    requires RequestValid(x, limits)
    ensures OkPlanningRequest(x, limits)
  {
    hide Distinct, NonNil;
    forall i | 0 <= i < |x.constraints.stages| ensures OkStage(x.constraints.stages[i], limits) {
      assert StageValid(x.constraints.stages[i], limits);
    }
  }

  /** A valid request parses back from its payload, and nothing else parses as it. */
  lemma PayloadExact(bytes: seq<byte>, limits: Limits)
    ensures forall x :: RequestValid(x, limits) ==> (bytes == Payload(x) <==> GetPlanningRequest(bytes, limits) == Good(x, []))
  {
    hide GetPlanningRequest, PutPlanningRequest, RequestValid, OkPlanningRequest;
    forall x | RequestValid(x, limits) ensures bytes == Payload(x) <==> GetPlanningRequest(bytes, limits) == Good(x, []) {
      ValidIsOk(x, limits);
      PlanningRequestRound(x, [], limits);
      if GetPlanningRequest(bytes, limits) == Good(x, []) {
        PlanningRequestBack(bytes, limits);
      }
    }
  }

  /** Different valid requests have different payloads. */
  lemma PayloadInjective(x: PlanningRequest, y: PlanningRequest, limits: Limits)
    requires RequestValid(x, limits) && RequestValid(y, limits) && Payload(x) == Payload(y)
    ensures x == y
  {
    hide GetPlanningRequest, PutPlanningRequest, RequestValid;
    PayloadExact(Payload(x), limits);
  }
}
