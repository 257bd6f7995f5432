/** Known images: one request and one saved plan, every field of which has its own value, in bytes
    (src/proto.cpp, EncodePlanningRequestPayload; src/store.cpp, EncodePlanStore; src/path.cpp,
    CandidatePath::Encode; src/result.cpp, EncodeSemantic). */
module Images {
  import opened Wrappers
  import opened Values
  import opened Bytes
  import opened Wire
  import opened Sha256Spec
  import opened PathCosts
  import opened Fabric
  import opened Candidates
  import opened PlanStore
  import opened SavedPlans
  import Codec = RequestCodec

  // ----- the bytes of one field

  /** A flag or a short count. */
  ghost function C(n: byte): seq<byte> { [n] }

  /** Four bytes, the least significant first. */
  ghost function W(n: byte): seq<byte> { [n, 0, 0, 0] }

  /** Eight bytes, the least significant first. */
  ghost function D(n: byte): seq<byte> { [n, 0, 0, 0, 0, 0, 0, 0] }

  /** An identity of eight bytes, the most significant first. */
  ghost function J(n: byte): seq<byte> { [0, 0, 0, 0, 0, 0, 0, n] }

  /** An identity of sixteen bytes. */
  ghost function I(n: byte): seq<byte> { [0, 0, 0, 0, 0, 0, 0, 0, 0, 0, 0, 0, 0, 0, 0, n] }

  /** Small numbers are these bytes. */
  lemma Small()
    ensures forall n: byte, t: seq<byte> :: PutU32(n, t) == W(n) + t && PutU64(n, t) == D(n) + t
    ensures forall n: byte, t: seq<byte> :: PutId8(n, t) == J(n) + t && PutId16(n, t) == I(n) + t
    ensures forall t: seq<byte> :: PutBool(true, t) == C(1) + t && PutBool(false, t) == C(0) + t
    ensures forall n: byte, t: seq<byte> :: n < 128 ==> PutCount(n, t) == C(n) + t
  {
    forall n: byte ensures Le(4, n) == W(n) && Le(8, n) == D(n) && Be(8, n) == J(n) && Be(16, n) == I(n) {
      ZeroBytes();
      assert n / 256 == 0 && n % 256 == n;
    }
  }

  lemma ZeroBytes()
    ensures Le(3, 0) == [0, 0, 0] && Le(7, 0) == [0, 0, 0, 0, 0, 0, 0] && Be(7, 0) == [0, 0, 0, 0, 0, 0, 0]
    ensures Be(15, 0) == [0, 0, 0, 0, 0, 0, 0, 0, 0, 0, 0, 0, 0, 0, 0]
  {
  }

  /** And in general byte i of a number is its i-th digit to the base 256. */
  lemma {:induction false} DigitAt(k: nat, n: nat, i: nat)
    requires i < k
    ensures Le(k, n)[i] == n / Pow(i) % 256 && Be(k, n)[k - 1 - i] == n / Pow(i) % 256
  {
    if i > 0 {
      DigitAt(k - 1, n / 256, i - 1);
      DivideTwice(n, Pow(i - 1));
    }
  }

  lemma DivideTwice(n: nat, p: nat)
    requires p > 0
    ensures n / 256 / p == n / (256 * p)
  {
    var q, r, s := n / 256 / p, n / 256 % p, n % 256;
    assert n == 256 * (q * p + r) + s;
    assert 256 * (q * p + r) + s == (256 * p) * q + (256 * r + s);
    QuotientIs(n, 256 * p, q, 256 * r + s);
  }

  lemma QuotientIs(n: nat, d: nat, q: nat, r: nat)
    requires n == d * q + r && r < d
    ensures n / d == q
  {
    var k := n / d;
    assert n == d * k + n % d;
    Scale(d, k + 1, q);
    Scale(d, q + 1, k);
  }

  lemma Scale(d: nat, x: nat, y: nat)
    ensures x <= y ==> d * x <= d * y
  {
  }

  // ----- a request

  lemma EndpointImage(x: Codec.Endpoint, id: byte, class_: byte, generation: byte, tail: seq<byte>)
    requires 1 <= class_ <= 5 && x == Codec.Endpoint(id, class_, generation)
    ensures Codec.PutEndpoint(x, tail) == I(id) + W(class_) + D(generation) + tail
  {
    Small();
    hide PutId16, PutU32, PutU64;
  }

  lemma IdsImage(ids: seq<id16>, tail: seq<byte>)
    ensures |ids| == 0 ==> PutList(PutId16, ids, tail) == C(0) + tail
    ensures |ids| == 1 && ids[0] < 256 ==> PutList(PutId16, ids, tail) == C(1) + I(ids[0]) + tail
    ensures |ids| == 2 && ids[0] < 256 && ids[1] < 256 ==> PutList(PutId16, ids, tail) == C(2) + I(ids[0]) + I(ids[1]) + tail
  {
    Small();
    hide PutId16, PutCount;
    if |ids| > 0 {
      assert PutMany(PutId16, ids, tail) == PutId16(ids[0], PutMany(PutId16, ids[1..], tail));
    }
    if |ids| > 1 {
      assert PutMany(PutId16, ids[1..], tail) == PutId16(ids[1], PutMany(PutId16, ids[1..][1..], tail));
    }
  }

  lemma ShortIdImage(ids: seq<id8>, tail: seq<byte>)
    requires |ids| == 1 && ids[0] < 256
    ensures PutList(PutId8, ids, tail) == C(1) + J(ids[0]) + tail
  {
    Small();
    hide PutId8, PutCount;
    assert PutMany(PutId8, ids, tail) == PutId8(ids[0], PutMany(PutId8, ids[1..], tail));
  }

  const SOURCE := Codec.Endpoint(2, 3, 4)
  const DESTINATION := Codec.Endpoint(5, 1, 6)
  const FORBIDDEN := Codec.Forbidden([9, 10], [11], [], [12], [13])
  const STAGES := [Stage(2, [14, 15])]
  const REQUIREMENTS := [Requirement(16, 4, 3, 17)]
  const BOUNDS := Codec.Bounds(Some(18), None, true)
  const CONSTRAINTS := Codec.ConstraintSet(7, 8, 2, FORBIDDEN, STAGES, REQUIREMENTS, BOUNDS)
  const POLICY := Codec.Policy(19, Codec.Costs(20, 21, 22), Codec.Flags(true, false, false, true, false), [23], 3)
  const AUTHORITY := Codec.Authority(24, 25, 26, 27, 28, true, false)
  const EXPECTATIONS := Codec.Expectations(true, 29, false, 30, true, 31)

  lemma ForbiddenImage(x: Codec.Forbidden, tail: seq<byte>)
    requires x == FORBIDDEN
    ensures Codec.PutForbidden(x, tail) == C(2) + I(9) + I(10) + C(1) + I(11) + C(0) + C(1) + J(12) + C(1) + J(13) + tail
  {
    hide PutList, PutId16, PutId8;
    ShortIdImage(x.classes, tail);
    var t4 := PutList(PutId8, x.classes, tail);
    ShortIdImage(x.domains, t4);
    var t3 := PutList(PutId8, x.domains, t4);
    IdsImage(x.ports, t3);
    var t2 := PutList(PutId16, x.ports, t3);
    IdsImage(x.links, t2);
    IdsImage(x.nodes, PutList(PutId16, x.links, t2));
  }

  lemma StageImage(x: Stage, tail: seq<byte>)
    requires x == STAGES[0]
    ensures Codec.PutStage(x, tail) == W(2) + (C(2) + I(14) + I(15)) + tail
  {
    Small();
    IdsImage(x.alternatives, tail);
    hide PutList, PutU32, C, I, W;
  }

  lemma StagesImage(xs: seq<Stage>, tail: seq<byte>)
    requires xs == STAGES
    ensures PutList(Codec.PutStage, xs, tail) == C(1) + (W(2) + (C(2) + I(14) + I(15))) + tail
  {
    Small();
    StageImage(xs[0], tail);
    hide Codec.PutStage, PutCount, C, I, W;
    assert PutMany(Codec.PutStage, xs, tail) == Codec.PutStage(xs[0], PutMany(Codec.PutStage, xs[1..], tail)) && xs[1..] == [];
  }

  lemma RequirementsImage(xs: seq<Requirement>, tail: seq<byte>)
    requires xs == REQUIREMENTS
    ensures PutList(Codec.PutRequirement, xs, tail) == C(1) + J(16) + W(4) + W(3) + D(17) + tail
  {
    Small();
    hide PutId8, PutCount, PutU32, PutU64;
    assert PutMany(Codec.PutRequirement, xs, tail) == Codec.PutRequirement(xs[0], PutMany(Codec.PutRequirement, xs[1..], tail)) && xs[1..] == [];
  }

  /** A maximum is a flag and, where there is one, its value. */
  lemma BoundsImage(x: Codec.Bounds, tail: seq<byte>)
    requires x == BOUNDS
    ensures Codec.PutBounds(x, tail) == C(1) + W(18) + C(0) + C(1) + tail
  {
    Small();
    hide PutU32, PutBool;
  }

  lemma MembersImage(x: Option<u32>, n: byte, tail: seq<byte>)
    requires x == Some(n)
    ensures Codec.PutMembers(x, tail) == C(1) + W(n) + tail && Codec.PutHops(None, tail) == C(0) + tail
  {
    Small();
    hide PutU32, PutBool;
  }

  lemma ConstraintsImage(x: Codec.ConstraintSet, tail: seq<byte>)
    requires x == CONSTRAINTS
    ensures Codec.PutConstraintSet(x, tail) == I(7) + D(8) + W(2)
      + (C(2) + I(9) + I(10) + C(1) + I(11) + C(0) + C(1) + J(12) + C(1) + J(13))
      + (C(1) + (W(2) + (C(2) + I(14) + I(15)))) + (C(1) + J(16) + W(4) + W(3) + D(17)) + (C(1) + W(18) + C(0) + C(1)) + tail
  {
    Small();
    hide PutId16, PutU32, PutU64, PutList, Codec.PutForbidden, Codec.PutBounds, C, I, J, W, D;
    BoundsImage(x.bounds, tail);
    var t2 := Codec.PutBounds(x.bounds, tail);
    RequirementsImage(x.requirements, t2);
    var t1 := PutList(Codec.PutRequirement, x.requirements, t2);
    StagesImage(x.stages, t1);
    ForbiddenImage(x.forbidden, PutList(Codec.PutStage, x.stages, t1));
  }

  lemma CostsImage(x: Codec.Costs, tail: seq<byte>)
    requires x == POLICY.costs
    ensures Codec.PutCosts(x, tail) == D(20) + D(21) + D(22) + tail
  {
    Small();
    hide PutU64, D;
  }

  ghost function Bit(b: bool): seq<byte> { [if b then 1 else 0] }

  lemma Bits()
    ensures Bit(true) == C(1) && Bit(false) == C(0)
  {
  }

  lemma FlagsImage(x: Codec.Flags, tail: seq<byte>)
    ensures Codec.PutFlags(x, tail) == Bit(x.allowDegraded) + Bit(x.allowDraining) + Bit(x.allowMaintenance) + Bit(x.requireProof) + Bit(x.allowZeroHop) + tail
  {
    Small();
    hide PutBool;
  }

  lemma PolicyImage(x: Codec.Policy, tail: seq<byte>)
    requires x == POLICY
    ensures Codec.PutPolicy(x, tail) == D(19) + (D(20) + D(21) + D(22)) + (C(1) + C(0) + C(0) + C(1) + C(0)) + (C(1) + I(23)) + W(3) + tail
  {
    Small();
    Bits();
    hide PutU32, PutU64, PutList, Codec.PutCosts, Codec.PutFlags, C, I, W, D, Bit;
    IdsImage(x.localityScope, PutU32(x.authorityValidation, tail));
    var t2 := PutList(PutId16, x.localityScope, PutU32(x.authorityValidation, tail));
    FlagsImage(x.flags, t2);
    CostsImage(x.costs, Codec.PutFlags(x.flags, t2));
  }

  lemma AuthorityImage(x: Codec.Authority, tail: seq<byte>)
    requires x == AUTHORITY.(epochBound := x.epochBound, enforceScope := x.enforceScope)
    ensures Codec.PutAuthority(x, tail) == W(24) + J(25) + J(26) + D(27) + J(28) + Bit(x.epochBound) + Bit(x.enforceScope) + tail
  {
    Small();
    hide PutId8, PutU32, PutU64, PutBool, J, W, D;
  }

  lemma ExpectationsImage(x: Codec.Expectations, tail: seq<byte>)
    requires x == EXPECTATIONS.(expectEpoch := x.expectEpoch, expectTopology := x.expectTopology, expectSnapshot := x.expectSnapshot)
    ensures Codec.PutExpectations(x, tail) == Bit(x.expectEpoch) + D(29) + Bit(x.expectTopology) + D(30) + Bit(x.expectSnapshot) + I(31) + tail
  {
    Small();
    hide PutId16, PutU64, PutBool, I, D;
  }

  ghost function SourceBytes(): seq<byte> { I(2) + W(3) + D(4) }

  ghost function DestinationBytes(): seq<byte> { I(5) + W(1) + D(6) }

  ghost function ConstraintsBytes(): seq<byte> {
    I(7) + D(8) + W(2)
      + (C(2) + I(9) + I(10) + C(1) + I(11) + C(0) + C(1) + J(12) + C(1) + J(13))
      + (C(1) + (W(2) + (C(2) + I(14) + I(15)))) + (C(1) + J(16) + W(4) + W(3) + D(17)) + (C(1) + W(18) + C(0) + C(1))
  }

  ghost function PolicyBytes(): seq<byte> {
    D(19) + (D(20) + D(21) + D(22)) + (C(1) + C(0) + C(0) + C(1) + C(0)) + (C(1) + I(23)) + W(3)
  }

  ghost function AuthorityBytes(): seq<byte> { W(24) + J(25) + J(26) + D(27) + J(28) + C(1) + C(0) }

  ghost function ExpectationsBytes(): seq<byte> { C(1) + D(29) + C(0) + D(30) + C(1) + I(31) }

  /** The request in bytes. */
  lemma RequestImage(x: Codec.PlanningRequest)
    requires x == Codec.PlanningRequest(1, SOURCE, DESTINATION, CONSTRAINTS, POLICY, 32, 2, AUTHORITY, EXPECTATIONS)
    ensures Codec.Payload(x) == I(1) + SourceBytes() + DestinationBytes() + ConstraintsBytes() + PolicyBytes() + W(32) + W(2) + AuthorityBytes() + ExpectationsBytes()
  {
    Small();
    Bits();
    hide PutId16, PutU32, Codec.PutEndpoint, Codec.PutConstraintSet, Codec.PutPolicy, Codec.PutAuthority, Codec.PutExpectations, C, I, J, W, D, Bit;
    ExpectationsImage(x.expectations, []);
    var t6 := Codec.PutExpectations(x.expectations, []);
    assert t6 == ExpectationsBytes();
    AuthorityImage(x.authority, t6);
    var t4 := PutU32(x.maxCandidates, PutU32(x.mode, Codec.PutAuthority(x.authority, t6)));
    PolicyImage(x.policy, t4);
    var t3 := Codec.PutPolicy(x.policy, t4);
    ConstraintsImage(x.constraints, t3);
    var t2 := Codec.PutConstraintSet(x.constraints, t3);
    EndpointImage(x.destination, 5, 1, 6, t2);
    EndpointImage(x.source, 2, 3, 4, Codec.PutEndpoint(x.destination, t2));
    hide SourceBytes, DestinationBytes, ConstraintsBytes, PolicyBytes, AuthorityBytes, ExpectationsBytes;
    Regroup(I(1), SourceBytes(), DestinationBytes(), ConstraintsBytes(), PolicyBytes(), W(32), W(2), AuthorityBytes(), ExpectationsBytes());
  }

  lemma Regroup(a: seq<byte>, b: seq<byte>, c: seq<byte>, d: seq<byte>, e: seq<byte>, f: seq<byte>, g: seq<byte>, h: seq<byte>, i: seq<byte>)
    ensures a + (b + (c + (d + (e + (f + (g + (h + i))))))) == a + b + c + d + e + f + g + h + i
  {
    assert a + b + c + d + e + f + g + h + i == a + b + c + d + e + f + g + (h + i);
    assert a + b + c + d + e + f + g + (h + i) == a + b + c + d + e + f + (g + (h + i));
    assert a + b + c + d + e + f + (g + (h + i)) == a + b + c + d + e + (f + (g + (h + i)));
    assert a + b + c + d + e + (f + (g + (h + i))) == a + b + c + d + (e + (f + (g + (h + i))));
  }

  // ----- a saved plan

  const HOP := HopRecord(HopEnds(40, 41, 42, 43, 44), 3, 2, 45, 46)
  const PATH := PathRecord(47, 48, 4, [HOP])
  const COST := CostRecord(50, 11, 12, 13, 14, 55, 54, 53)
  const PRICED := PathCost(hopsCost := 11, staticCost := 12, degradedPenalty := 13, localityPenalty := 14, total := 50, hops := 55, degradedHops := 54, localityBreaches := 53)
  const ISSUE := Issue(60, 61, 62, 63, 5)
  const BASIS := Basis(64, 65, 66)
  const SPAN := Span(67, 68, 4, true)
  const GENERATIONS := Generations(70, 71, 72, 73, 74, 75, 76, 77)
  const EVIDENCE := Evidence(78, GENERATIONS, 2, 79)

  /** What is planned is saved under these fields; link state and degraded flag are not saved. */
  lemma SavedAs(p: Plan, nodes: seq<id16>, state: LinkState, degraded: bool)
    requires p == Plan(ISSUE, BASIS, SPAN, EVIDENCE, [Candidate(
      CandidatePath(47, 48, 4, nodes, [Hop(40, 41, 42, 43, 44, 3, 2, 45, 46, state, degraded)]), PRICED)])
    ensures Fitting(p) && Undigested(p) == StoredPlan(ISSUE, BASIS, SPAN, EVIDENCE, 0, [Entry(PATH, COST, 1)])
  {
    var c := p.candidates[0];
    assert StoredPath(c.path).hops == PATH.hops;
    assert Undigested(p).entries == [Entry(PATH, COST, 1)];
  }

  lemma HopImage(x: HopRecord, tail: seq<byte>)
    requires x == HOP
    ensures PutHopRecord(x, tail) == (I(40) + I(41) + I(42) + I(43) + I(44)) + W(3) + W(2) + D(45) + W(46) + tail
  {
    Small();
    EndsImage(x.ends, PutU32(x.layer, PutU32(x.relationship, PutU64(x.structuralGeneration, PutU32(x.staticCost, tail)))));
    hide PutHopEnds, PutU32, PutU64, I, W, D;
  }

  lemma EndsImage(x: HopEnds, tail: seq<byte>)
    requires x == HOP.ends
    ensures PutHopEnds(x, tail) == I(40) + I(41) + I(42) + I(43) + I(44) + tail
  {
    Small();
    hide PutId16, I;
  }

  ghost function HopBytes(): seq<byte> { (I(40) + I(41) + I(42) + I(43) + I(44)) + W(3) + W(2) + D(45) + W(46) }

  /** A path begins with the version of its encoding. */
  lemma PathImage(x: PathRecord, tail: seq<byte>)
    requires x == PATH
    ensures PutPath(x, tail) == W(1) + (I(47) + (I(48) + (W(4) + (C(1) + (HopBytes() + tail)))))
  {
    Small();
    HopsImage(x.hops, tail);
    hide PutList, PutId16, PutU32, C, I, W, D, HopBytes;
  }

  lemma HopsImage(xs: seq<HopRecord>, tail: seq<byte>)
    requires xs == PATH.hops
    ensures PutList(PutHopRecord, xs, tail) == C(1) + (HopBytes() + tail)
  {
    Small();
    HopImage(xs[0], tail);
    assert PutHopRecord(xs[0], tail) == HopBytes() + tail;
    hide PutHopRecord, PutCount, C, HopBytes;
    assert PutMany(PutHopRecord, xs, tail) == PutHopRecord(xs[0], PutMany(PutHopRecord, xs[1..], tail)) && xs[1..] == [];
  }

  lemma CostImage(x: CostRecord, tail: seq<byte>)
    requires x == COST
    ensures PutCost(x, tail) == (D(50) + D(11) + D(12) + D(13)) + (D(14) + W(55) + W(54) + W(53)) + tail
  {
    Small();
    hide PutU32, PutU64, W, D;
    assert PutU64(x.localityPenalty, PutU32(x.hops, PutU32(x.degradedHops, PutU32(x.localityBreaches, tail)))) == (D(14) + W(55) + W(54) + W(53)) + tail;
  }

  lemma IssueImage(x: Issue, tail: seq<byte>)
    requires x == ISSUE
    ensures PutIssue(x, tail) == I(60) + I(61) + D(62) + D(63) + W(5) + tail
  {
    Small();
    hide PutId16, PutU32, PutU64, I, W, D;
  }

  lemma BasisImage(x: Basis, tail: seq<byte>)
    requires x == BASIS
    ensures PutBasis(x, tail) == I(64) + D(65) + D(66) + tail
  {
    Small();
    hide PutId16, PutU64, I, D;
  }

  lemma SpanImage(x: Span, tail: seq<byte>)
    requires x == SPAN
    ensures PutSpan(x, tail) == I(67) + I(68) + W(4) + C(1) + tail
  {
    Small();
    hide PutId16, PutU32, PutBool, I, W, C;
  }

  ghost function GenerationsBytes(): seq<byte> { (D(70) + D(71) + D(72) + D(73)) + (D(74) + D(75) + D(76) + D(77)) }

  ghost function EvidenceBytes(): seq<byte> { I(78) + GenerationsBytes() + W(2) + D(79) }

  lemma EvidenceImage(x: Evidence, tail: seq<byte>)
    requires x == EVIDENCE
    ensures PutEvidence(x, tail) == EvidenceBytes() + tail
  {
    Small();
    GenerationsImage(x.generations, PutU32(x.source, PutU64(x.publishSequence, tail)));
    hide PutGenerations, GenerationsBytes, PutId16, PutU32, PutU64, I, W, D;
    Group(I(78), GenerationsBytes(), W(2), D(79), tail);
  }

  lemma Group(a: seq<byte>, b: seq<byte>, c: seq<byte>, d: seq<byte>, e: seq<byte>)
    ensures a + (b + (c + (d + e))) == a + b + c + d + e
  {
  }

  lemma FourWords(a: byte, b: byte, c: byte, d: byte, tail: seq<byte>)
    ensures PutU64(a, PutU64(b, PutU64(c, PutU64(d, tail)))) == (D(a) + D(b) + D(c) + D(d)) + tail
  {
    Small();
    hide PutU64, D;
    Group(D(a), D(b), D(c), D(d), tail);
  }

  lemma GenerationsImage(x: Generations, tail: seq<byte>)
    requires x == GENERATIONS
    ensures PutGenerations(x, tail) == GenerationsBytes() + tail
  {
    var front, back := D(70) + D(71) + D(72) + D(73), D(74) + D(75) + D(76) + D(77);
    FourWords(74, 75, 76, 77, tail);
    FourWords(70, 71, 72, 73, back + tail);
    hide PutU64, D;
    assert front + back + tail == front + (back + tail);
  }

  /** An entry is the path, its cost, its rank; a record what it was issued for and on what basis, its
      span, its evidence, its digest, and its entries. */
  lemma RecordImage(x: StoredPlan, tail: seq<byte>)
    requires x == StoredPlan(ISSUE, BASIS, SPAN, EVIDENCE, x.digest, [Entry(PATH, COST, 58)])
    ensures PutStoredPlan(x, tail) ==
      (I(60) + I(61) + D(62) + D(63) + W(5)) + ((I(64) + D(65) + D(66)) + ((I(67) + I(68) + W(4) + C(1)) +
      (EvidenceBytes() +
      (Be(32, x.digest) + (C(1) + (W(1) + (I(47) + (I(48) + (W(4) + (C(1) + (HopBytes() +
      (((D(50) + D(11) + D(12) + D(13)) + (D(14) + W(55) + W(54) + W(53))) + (W(58) + tail)))))))))))))
  {
    Small();
    hide PutIssue, PutBasis, PutSpan, PutEvidence, PutPath, PutCost, PutU32, PutCount, Be, HopBytes, C, I, W, D;
    var e := x.entries[0];
    assert PutMany(PutEntry, x.entries, tail) == PutEntry(e, PutMany(PutEntry, x.entries[1..], tail)) && x.entries[1..] == [];
    CostImage(e.cost, PutU32(e.rank, tail));
    PathImage(e.path, PutCost(e.cost, PutU32(e.rank, tail)));
    var t4 := PutId32(x.digest, PutList(PutEntry, x.entries, tail));
    EvidenceImage(x.evidence, t4);
    SpanImage(x.span, PutEvidence(x.evidence, t4));
    BasisImage(x.basis, PutSpan(x.span, PutEvidence(x.evidence, t4)));
    IssueImage(x.issue, PutBasis(x.basis, PutSpan(x.span, PutEvidence(x.evidence, t4))));
  }

  /** The header: the letters PPLNPLAN, three versions, the number of records and the payload's length. */
  lemma HeaderImage(count: u64, length: u64)
    ensures PutHeader(HeaderOf(count, length), []) == [0x50, 0x50, 0x4C, 0x4E, 0x50, 0x4C, 0x41, 0x4E] + (W(1) + (W(1) + (W(1) + (Le(8, count) + Le(8, length)))))
  {
    Small();
    Letters();
    hide Be, Le, PutU32, W;
    assert Le(8, length) + [] == Le(8, length);
  }

  lemma Letters()
    ensures Be(8, 0x50504C4E504C414E) == [0x50, 0x50, 0x4C, 0x4E, 0x50, 0x4C, 0x41, 0x4E]
  {
    assert Be(4, 0x50504C4E) == [0x50, 0x50, 0x4C, 0x4E];
    assert Be(5, 0x50504C4E50) == Be(4, 0x50504C4E) + [0x50];
    assert Be(6, 0x50504C4E504C) == Be(5, 0x50504C4E50) + [0x4C];
    assert Be(7, 0x50504C4E504C41) == Be(6, 0x50504C4E504C) + [0x41];
    assert Be(8, 0x50504C4E504C414E) == Be(7, 0x50504C4E504C41) + [0x4E];
  }

  /** What the digest of a plan covers, in this order. */
  lemma SemanticImage(x: StoredPlan)
    requires x == StoredPlan(ISSUE, BASIS, SPAN, EVIDENCE, x.digest, [Entry(PATH, COST, 58)])
    ensures PutSemantic(x, []) ==
      ((W(1) + W(1) + I(60) + I(67)) + (I(68) + W(4) + W(5) + C(1))) +
      (EvidenceBytes() +
      ((D(66) + I(64) + D(65)) + (C(1) + ((Be(16, PathId(PATH)) + D(50) + W(55) + D(12)) + (D(13) + D(14) + W(58))))))
  {
    Small();
    var e := x.entries[0];
    var entries := PutList(PutSemanticEntry, x.entries, []);
    EntriesImage(x.entries);
    var t2 := PutU64(x.basis.policyGeneration, PutId16(x.basis.constraintSet, PutU64(x.basis.constraintGeneration, entries)));
    EvidenceImage(x.evidence, t2);
    SemanticFront(x, PutEvidence(x.evidence, t2));
    SemanticBasis(x, entries);
    hide PutEvidence, PutList, PutId16, PutU32, PutU64, PutBool, Be, PathId, C, I, W, D;
  }

  lemma SemanticFront(x: StoredPlan, tail: seq<byte>)
    requires x.issue == ISSUE && x.span == SPAN
    ensures PutU32(1, PutU32(1, PutId16(x.issue.request, PutId16(x.span.source, PutId16(x.span.destination, PutU32(x.span.layer, PutU32(x.issue.status, PutBool(x.span.diagnostic, tail)))))))) ==
      ((W(1) + W(1) + I(60) + I(67)) + (I(68) + W(4) + W(5) + C(1))) + tail
  {
    Small();
    hide PutId16, PutU32, PutBool, C, I, W;
    var rest := (I(68) + W(4) + W(5) + C(1)) + tail;
    Group(I(68), W(4), W(5), C(1), tail);
    Group(W(1), W(1), I(60), I(67), rest);
    assert (W(1) + W(1) + I(60) + I(67)) + (I(68) + W(4) + W(5) + C(1)) + tail == (W(1) + W(1) + I(60) + I(67)) + rest;
  }

  lemma SemanticBasis(x: StoredPlan, tail: seq<byte>)
    requires x.basis == BASIS
    ensures PutU64(x.basis.policyGeneration, PutId16(x.basis.constraintSet, PutU64(x.basis.constraintGeneration, tail))) == (D(66) + I(64) + D(65)) + tail
  {
    Small();
    hide PutId16, PutU64, I, D;
  }

  lemma EntriesImage(xs: seq<Entry>)
    requires xs == [Entry(PATH, COST, 58)]
    ensures PutList(PutSemanticEntry, xs, []) == C(1) + ((Be(16, PathId(PATH)) + D(50) + W(55) + D(12)) + (D(13) + D(14) + W(58)))
  {
    Small();
    hide PutU32, PutU64, PutCount, Be, PathId, C, W, D;
    assert PutMany(PutSemanticEntry, xs, []) == PutSemanticEntry(xs[0], PutMany(PutSemanticEntry, xs[1..], [])) && xs[1..] == [];
  }
}
