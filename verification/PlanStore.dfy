/** The plan store (src/store.cpp, EncodePlanStore and DecodePlanStore; src/path.cpp,
    CandidatePath::Encode; src/result.cpp, EncodeSemantic). */
module PlanStore {
  import opened Wrappers
  import opened Values
  import opened ResourceLimits
  import opened View
  import opened Counting
  import opened Sorting
  import opened PathCosts
  import opened Fabric
  import opened Candidates
  import opened Bytes
  import opened Wire
  import opened Sha256Spec
  import opened Sha256Stream

  const MAGIC: id8 := 0x50504C4E504C414E
  const PERSISTED_FORMAT_VERSION: u32 := 1
  const PLANNING_RULE_VERSION: u32 := 1
  const PATH_ENCODING_VERSION: u32 := 1
  const PLAN_DIGEST_SCHEME_VERSION: u32 := 1

  datatype HopEnds = HopEnds(link: id16, from: id16, to: id16, fromPort: id16, toPort: id16)

  datatype HopRecord = HopRecord(ends: HopEnds, layer: PathLayer, relationship: Relationship, structuralGeneration: u64, staticCost: u32)

  datatype PathRecord = PathRecord(source: id16, destination: id16, layer: PathLayer, hops: seq<HopRecord>)

  datatype CostRecord = CostRecord(total: u64, hopsCost: u64, staticCost: u64, degradedPenalty: u64, localityPenalty: u64, hops: u32, degradedHops: u32, localityBreaches: u32)

  datatype Entry = Entry(path: PathRecord, cost: CostRecord, rank: u32)

  datatype Issue = Issue(request: id16, plan: id16, generation: u64, publishSequence: u64, status: PlanStatus)

  datatype Basis = Basis(constraintSet: id16, constraintGeneration: u64, policyGeneration: u64)

  datatype Span = Span(source: id16, destination: id16, layer: PathLayer, diagnostic: bool)

  datatype StoredPlan = StoredPlan(issue: Issue, basis: Basis, span: Span, evidence: Evidence, digest: id32, entries: seq<Entry>)

  datatype Header = Header(magic: id8, formatVersion: u32, ruleVersion: u32, encodingVersion: u32, recordCount: u64, payloadLength: u64)

  /** What a stored hop joins. */
  function PutHopEnds(x: HopEnds, tail: seq<byte>): seq<byte> {
    PutId16(x.link, PutId16(x.from, PutId16(x.to, PutId16(x.fromPort, PutId16(x.toPort, tail)))))
  }

  ghost function GetHopEnds(s: seq<byte>): Parse<HopEnds> {
    var link :- GetId16(s);
    var from :- GetId16(link.rest);
    var to :- GetId16(from.rest);
    var fromPort :- GetId16(to.rest);
    var toPort :- GetId16(fromPort.rest);
    Good(HopEnds(link.value, from.value, to.value, fromPort.value, toPort.value), toPort.rest)
  }

  ghost predicate OkHopEnds(x: HopEnds) {
    && x.link != 0
    && x.from != 0
    && x.to != 0
    && x.fromPort != 0
    && x.toPort != 0
  }

  lemma HopEndsRound(x: HopEnds, tail: seq<byte>)
    requires OkHopEnds(x)
    ensures GetHopEnds(PutHopEnds(x, tail)) == Good(x, tail)
  {
    hide PutId16, GetAny16;
    FieldsRound();
  }

  lemma HopEndsBack(s: seq<byte>)
    requires GetHopEnds(s).Good?
    ensures s == PutHopEnds(GetHopEnds(s).value, GetHopEnds(s).rest)
  {
    hide PutId16, GetAny16;
    FieldsBack();
  }

  method ReadHopEnds(r: ByteReader) returns (x: Option<HopEnds>)
    requires r.Valid() && !r.failed
    modifies r
    ensures r.Valid() && (x.Some? ==> !r.failed) && Follows(GetHopEnds(old(r.Rest())), x, r.Rest())
  {
    hide GetAny16, GetId16;
    var link :- ReadId16(r);
    var from :- ReadId16(r);
    var to :- ReadId16(r);
    var fromPort :- ReadId16(r);
    var toPort :- ReadId16(r);
    x := Some(HopEnds(link, from, to, fromPort, toPort));
  }

  method WriteHopEnds(w: ByteWriter, x: HopEnds)
    requires w.Valid()
    modifies w
    ensures w.Valid() && forall t: seq<byte> :: Sent(old(w.data), old(w.overflowed), PutHopEnds(x, t), w.data, w.overflowed, t, w.ceiling)
  {
    hide PutId16;
    WriteId16(w, x.link);
    WriteId16(w, x.from);
    WriteId16(w, x.to);
    WriteId16(w, x.fromPort);
    WriteId16(w, x.toPort);
  }

  lemma HopEndsSame(x: HopEnds, y: HopEnds, t: seq<byte>, u: seq<byte>)
    requires PutHopEnds(x, t) == PutHopEnds(y, u)
    ensures x == y && t == u
  {
    hide PutId16;
    FieldsSame();
  }

  /** One hop of a stored path. */
  function PutHopRecord(x: HopRecord, tail: seq<byte>): seq<byte> {
    PutHopEnds(x.ends, PutU32(x.layer, PutU32(x.relationship, PutU64(x.structuralGeneration, PutU32(x.staticCost, tail)))))
  }

  ghost function GetHopRecord(s: seq<byte>): Parse<HopRecord> {
    var ends :- GetHopEnds(s);
    var layer :- GetEnum(ends.rest, 4);
    var relationship :- GetEnum(layer.rest, 4);
    var structuralGeneration :- GetU64(relationship.rest);
    var staticCost :- GetU32(structuralGeneration.rest);
    Good(HopRecord(ends.value, layer.value, relationship.value, structuralGeneration.value, staticCost.value), staticCost.rest)
  }

  ghost predicate OkHopRecord(x: HopRecord) {
    OkHopEnds(x.ends)
  }

  lemma HopRecordRound(x: HopRecord, tail: seq<byte>)
    requires OkHopRecord(x)
    ensures GetHopRecord(PutHopRecord(x, tail)) == Good(x, tail)
  {
    hide PutHopEnds, PutU32, PutU64, GetHopEnds, GetU32, GetU64;
    FieldsRound();
    HopEndsRound(x.ends, PutU32(x.layer, PutU32(x.relationship, PutU64(x.structuralGeneration, PutU32(x.staticCost, tail)))));
  }

  lemma HopRecordBack(s: seq<byte>)
    requires GetHopRecord(s).Good?
    ensures s == PutHopRecord(GetHopRecord(s).value, GetHopRecord(s).rest)
  {
    hide PutHopEnds, PutU32, PutU64, GetHopEnds, GetU32, GetU64;
    FieldsBack();
    var ends := GetHopEnds(s);
    HopEndsBack(s);
    var layer := GetEnum(ends.rest, 4);
    var relationship := GetEnum(layer.rest, 4);
    var structuralGeneration := GetU64(relationship.rest);
    var staticCost := GetU32(structuralGeneration.rest);
  }

  method ReadHopRecord(r: ByteReader) returns (x: Option<HopRecord>)
    requires r.Valid() && !r.failed
    modifies r
    ensures r.Valid() && (x.Some? ==> !r.failed) && Follows(GetHopRecord(old(r.Rest())), x, r.Rest())
  {
    hide GetHopEnds, GetU32, GetU64, GetEnum;
    var ends :- ReadHopEnds(r);
    var layer :- ReadEnum(r, 4);
    var relationship :- ReadEnum(r, 4);
    var structuralGeneration :- ReadU64(r);
    var staticCost :- ReadU32(r);
    x := Some(HopRecord(ends, layer, relationship, structuralGeneration, staticCost));
  }

  method WriteHopRecord(w: ByteWriter, x: HopRecord)
    requires w.Valid()
    modifies w
    ensures w.Valid() && forall t: seq<byte> :: Sent(old(w.data), old(w.overflowed), PutHopRecord(x, t), w.data, w.overflowed, t, w.ceiling)
  {
    hide PutHopEnds, PutU32, PutU64;
    WriteHopEnds(w, x.ends);
    WriteU32(w, x.layer);
    WriteU32(w, x.relationship);
    WriteU64(w, x.structuralGeneration);
    WriteU32(w, x.staticCost);
  }

  lemma HopRecordSame(x: HopRecord, y: HopRecord, t: seq<byte>, u: seq<byte>)
    requires PutHopRecord(x, t) == PutHopRecord(y, u)
    ensures x == y && t == u
  {
    hide PutHopEnds, PutU32, PutU64;
    FieldsSame();
    forall a: HopEnds, b: HopEnds, v: seq<byte>, w: seq<byte> | PutHopEnds(a, v) == PutHopEnds(b, w) ensures a == b && v == w {
      HopEndsSame(a, b, v, w);
    }
  }

  ghost function GetHopRecordList(s: seq<byte>, limits: Limits): Parse<seq<HopRecord>> {
    GetList(GetHopRecord, s, limits.maxHops)
  }

  lemma HopRecordListRound(xs: seq<HopRecord>, limits: Limits)
    requires |xs| <= limits.maxHops && forall i :: 0 <= i < |xs| ==> OkHopRecord(xs[i])
    ensures forall t: seq<byte> :: GetHopRecordList(PutList(PutHopRecord, xs, t), limits) == Good(xs, t)
  {
    hide GetList, PutList, GetHopRecord, PutHopRecord, OkHopRecord;
    forall i | 0 <= i < |xs| ensures ReadsBack(PutHopRecord, GetHopRecord, xs[i]) {
      forall t: seq<byte> ensures GetHopRecord(PutHopRecord(xs[i], t)) == Good(xs[i], t) {
        HopRecordRound(xs[i], t);
      }
    }
    forall t: seq<byte> ensures GetHopRecordList(PutList(PutHopRecord, xs, t), limits) == Good(xs, t) {
      ListRound(PutHopRecord, GetHopRecord, xs, t, limits.maxHops);
    }
  }

  lemma HopRecordListBack(limits: Limits)
    ensures forall s: seq<byte> :: GetHopRecordList(s, limits).Good? ==> s == PutList(PutHopRecord, GetHopRecordList(s, limits).value, GetHopRecordList(s, limits).rest)
  {
    hide GetList, PutList, GetHopRecord, PutHopRecord;
    forall s: seq<byte> | GetHopRecord(s).Good? ensures s == PutHopRecord(GetHopRecord(s).value, GetHopRecord(s).rest) {
      HopRecordBack(s);
    }
    assert WritesBack(PutHopRecord, GetHopRecord);
    forall s: seq<byte> | GetHopRecordList(s, limits).Good? ensures s == PutList(PutHopRecord, GetHopRecordList(s, limits).value, GetHopRecordList(s, limits).rest) {
      ListBack(PutHopRecord, GetHopRecord, s, limits.maxHops);
    }
  }

  method ReadHopRecordList(r: ByteReader, limits: Limits) returns (xs: Option<seq<HopRecord>>)
    requires r.Valid() && !r.failed
    modifies r
    ensures r.Valid() && (xs.Some? ==> !r.failed) && Follows(GetHopRecordList(old(r.Rest()), limits), xs, r.Rest())
  {
    hide GetHopRecord, GetCount, GetMany;
    var count :- ReadCount(r, limits.maxHops);
    ghost var s, get := r.Rest(), GetHopRecord;
    var out: seq<HopRecord> := [];
    NothingLeft(get, s, count);
    for i := 0 to count
      invariant r.Valid() && !r.failed && GetMany(get, s, count) == Collected(out, GetMany(get, r.Rest(), count - i))
    {
      CollectedStep(get, out, r.Rest(), count - i);
      var x :- ReadHopRecord(r);
      out := out + [x];
    }
    NoneLeft(get, out, r.Rest());
    xs := Some(out);
  }

  method WriteHopRecordList(w: ByteWriter, xs: seq<HopRecord>)
    requires w.Valid()
    modifies w
    ensures w.Valid() && forall t: seq<byte> :: Sent(old(w.data), old(w.overflowed), PutList(PutHopRecord, xs, t), w.data, w.overflowed, t, w.ceiling)
  {
    hide PutHopRecord, PutCount, PutMany;
    ghost var d0, o0 := w.data, w.overflowed;
    WriteCount(w, |xs|);
    assert xs[0..] == xs;
    for i := 0 to |xs|
      invariant w.Valid()
      invariant forall t: seq<byte> :: Sent(d0, o0, PutList(PutHopRecord, xs, t), w.data, w.overflowed, PutMany(PutHopRecord, xs[i..], t), w.ceiling)
    {
      ManyStep(PutHopRecord, xs, i);
      WriteHopRecord(w, xs[i]);
    }
    ManyEnd(PutHopRecord, xs);
  }

  lemma HopRecordListSame(xs: seq<HopRecord>, ys: seq<HopRecord>, t: seq<byte>, u: seq<byte>)
    requires PutList(PutHopRecord, xs, t) == PutList(PutHopRecord, ys, u)
    ensures xs == ys && t == u
  {
    hide PutList, PutHopRecord;
    forall a: HopRecord, b: HopRecord, v: seq<byte>, w: seq<byte> | PutHopRecord(a, v) == PutHopRecord(b, w) ensures a == b && v == w {
      HopRecordSame(a, b, v, w);
    }
    ListSame(PutHopRecord, xs, ys, t, u);
  }

  /** A stored path. */
  function PutPathRecord(x: PathRecord, tail: seq<byte>): seq<byte> {
    PutId16(x.source, PutId16(x.destination, PutU32(x.layer, PutList(PutHopRecord, x.hops, tail))))
  }

  ghost function GetPathRecord(s: seq<byte>, limits: Limits): Parse<PathRecord> {
    var source :- GetId16(s);
    var destination :- GetId16(source.rest);
    var layer :- GetEnum(destination.rest, 4);
    var hops :- GetHopRecordList(layer.rest, limits);
    Good(PathRecord(source.value, destination.value, layer.value, hops.value), hops.rest)
  }

  ghost predicate OkPathRecord(x: PathRecord, limits: Limits) {
    && x.source != 0
    && x.destination != 0
    && (|x.hops| <= limits.maxHops && forall i :: 0 <= i < |x.hops| ==> OkHopRecord(x.hops[i]))
  }

  lemma PathRecordRound(x: PathRecord, tail: seq<byte>, limits: Limits)
    requires OkPathRecord(x, limits)
    ensures GetPathRecord(PutPathRecord(x, tail), limits) == Good(x, tail)
  {
    hide PutId16, PutU32, PutList, GetAny16, GetU32, GetHopRecordList;
    FieldsRound();
    HopRecordListRound(x.hops, limits);
  }

  lemma PathRecordBack(s: seq<byte>, limits: Limits)
    requires GetPathRecord(s, limits).Good?
    ensures s == PutPathRecord(GetPathRecord(s, limits).value, GetPathRecord(s, limits).rest)
  {
    hide PutId16, PutU32, PutList, GetAny16, GetU32, GetHopRecordList;
    FieldsBack();
    HopRecordListBack(limits);
  }

  method ReadPathRecord(r: ByteReader, limits: Limits) returns (x: Option<PathRecord>)
    requires r.Valid() && !r.failed
    modifies r
    ensures r.Valid() && (x.Some? ==> !r.failed) && Follows(GetPathRecord(old(r.Rest()), limits), x, r.Rest())
  {
    hide GetAny16, GetU32, GetHopRecordList, GetId16, GetEnum;
    var source :- ReadId16(r);
    var destination :- ReadId16(r);
    var layer :- ReadEnum(r, 4);
    var hops :- ReadHopRecordList(r, limits);
    x := Some(PathRecord(source, destination, layer, hops));
  }

  method WritePathRecord(w: ByteWriter, x: PathRecord)
    requires w.Valid()
    modifies w
    ensures w.Valid() && forall t: seq<byte> :: Sent(old(w.data), old(w.overflowed), PutPathRecord(x, t), w.data, w.overflowed, t, w.ceiling)
  {
    hide PutId16, PutU32, PutList;
    WriteId16(w, x.source);
    WriteId16(w, x.destination);
    WriteU32(w, x.layer);
    WriteHopRecordList(w, x.hops);
  }

  lemma PathRecordSame(x: PathRecord, y: PathRecord, t: seq<byte>, u: seq<byte>)
    requires PutPathRecord(x, t) == PutPathRecord(y, u)
    ensures x == y && t == u
  {
    hide PutId16, PutU32, PutList;
    FieldsSame();
    forall a: seq<HopRecord>, b: seq<HopRecord>, v: seq<byte>, w: seq<byte> | PutList(PutHopRecord, a, v) == PutList(PutHopRecord, b, w) ensures a == b && v == w {
      HopRecordListSame(a, b, v, w);
    }
  }

  /** The path a stored path stands for; link state and degraded flag are not stored. */
  function Restored(x: PathRecord): CandidatePath {
    CandidatePath(x.source, x.destination, x.layer,
      [x.source] + seq(|x.hops|, i requires 0 <= i < |x.hops| => x.hops[i].ends.to),
      seq(|x.hops|, i requires 0 <= i < |x.hops| =>
        var h := x.hops[i];
        Hop(h.ends.link, h.ends.from, h.ends.to, h.ends.fromPort, h.ends.toPort, h.layer, h.relationship, h.structuralGeneration, h.staticCost, LinkState.Unknown, false)))
  }

  ghost predicate OkPath(x: PathRecord, limits: Limits) {
    OkPathRecord(x, limits) && WellFormed(Restored(x)) && Distinct(Restored(x).nodes)
  }

  /** The path encoding starts with its version; a decoded path must be well formed and simple. */
  function PutPath(x: PathRecord, tail: seq<byte>): seq<byte> {
    PutU32(PATH_ENCODING_VERSION, PutPathRecord(x, tail))
  }

  ghost function GetPath(s: seq<byte>, limits: Limits): Parse<PathRecord> {
    var version :- GetU32(s);
    if version.value != PATH_ENCODING_VERSION then Bad else
      var path :- GetPathRecord(version.rest, limits);
      if !WellFormed(Restored(path.value)) || !Distinct(Restored(path.value).nodes) then Bad else path
  }

  lemma PathRound(x: PathRecord, tail: seq<byte>, limits: Limits)
    requires OkPath(x, limits)
    ensures GetPath(PutPath(x, tail), limits) == Good(x, tail)
  {
    hide PutU32, GetU32, PutPathRecord, GetPathRecord, WellFormed, Distinct, OkPathRecord;
    FieldsRound();
    PathRecordRound(x, tail, limits);
  }

  lemma PathBack(s: seq<byte>, limits: Limits)
    requires GetPath(s, limits).Good?
    ensures s == PutPath(GetPath(s, limits).value, GetPath(s, limits).rest)
  {
    hide PutU32, GetU32, PutPathRecord, GetPathRecord, WellFormed, Distinct;
    FieldsBack();
    PathRecordBack(GetU32(s).rest, limits);
  }

  method ReadPath(r: ByteReader, limits: Limits) returns (x: Option<PathRecord>)
    requires r.Valid() && !r.failed
    modifies r
    ensures r.Valid() && (x.Some? ==> !r.failed) && Follows(GetPath(old(r.Rest()), limits), x, r.Rest())
  {
    hide GetU32, GetPathRecord, WellFormed, Distinct;
    var version :- ReadU32(r);
    if version != PATH_ENCODING_VERSION {
      return None;
    }
    var path :- ReadPathRecord(r, limits);
    var wellFormed := IsWellFormed(Restored(path));
    if !wellFormed {
      return None;
    }
    var simple := IsSimple(Restored(path));
    if !simple {
      return None;
    }
    x := Some(path);
  }

  method WritePath(w: ByteWriter, x: PathRecord)
    requires w.Valid()
    modifies w
    ensures w.Valid() && forall t: seq<byte> :: Sent(old(w.data), old(w.overflowed), PutPath(x, t), w.data, w.overflowed, t, w.ceiling)
  {
    hide PutU32, PutPathRecord;
    WriteU32(w, PATH_ENCODING_VERSION);
    WritePathRecord(w, x);
  }

  lemma PathSame(x: PathRecord, y: PathRecord, t: seq<byte>, u: seq<byte>)
    requires PutPath(x, t) == PutPath(y, u)
    ensures x == y && t == u
  {
    hide PutU32, PutPathRecord;
    FieldsSame();
    PathRecordSame(x, y, t, u);
  }

  /** A stored cost. */
  function PutCostRecord(x: CostRecord, tail: seq<byte>): seq<byte> {
    PutU64(x.total, PutU64(x.hopsCost, PutU64(x.staticCost, PutU64(x.degradedPenalty, PutU64(x.localityPenalty, PutU32(x.hops, PutU32(x.degradedHops, PutU32(x.localityBreaches, tail))))))))
  }

  ghost function GetCostRecord(s: seq<byte>): Parse<CostRecord> {
    var total :- GetU64(s);
    var hopsCost :- GetU64(total.rest);
    var staticCost :- GetU64(hopsCost.rest);
    var degradedPenalty :- GetU64(staticCost.rest);
    var localityPenalty :- GetU64(degradedPenalty.rest);
    var hops :- GetU32(localityPenalty.rest);
    var degradedHops :- GetU32(hops.rest);
    var localityBreaches :- GetU32(degradedHops.rest);
    Good(CostRecord(total.value, hopsCost.value, staticCost.value, degradedPenalty.value, localityPenalty.value, hops.value, degradedHops.value, localityBreaches.value), localityBreaches.rest)
  }

  lemma CostRecordRound(x: CostRecord, tail: seq<byte>)
    ensures GetCostRecord(PutCostRecord(x, tail)) == Good(x, tail)
  {
    hide PutU64, PutU32, GetU64, GetU32;
    FieldsRound();
  }

  lemma CostRecordBack(s: seq<byte>)
    requires GetCostRecord(s).Good?
    ensures s == PutCostRecord(GetCostRecord(s).value, GetCostRecord(s).rest)
  {
    hide PutU64, PutU32, GetU64, GetU32;
    FieldsBack();
  }

  method ReadCostRecord(r: ByteReader) returns (x: Option<CostRecord>)
    requires r.Valid() && !r.failed
    modifies r
    ensures r.Valid() && (x.Some? ==> !r.failed) && Follows(GetCostRecord(old(r.Rest())), x, r.Rest())
  {
    hide GetU64, GetU32;
    var total :- ReadU64(r);
    var hopsCost :- ReadU64(r);
    var staticCost :- ReadU64(r);
    var degradedPenalty :- ReadU64(r);
    var localityPenalty :- ReadU64(r);
    var hops :- ReadU32(r);
    var degradedHops :- ReadU32(r);
    var localityBreaches :- ReadU32(r);
    x := Some(CostRecord(total, hopsCost, staticCost, degradedPenalty, localityPenalty, hops, degradedHops, localityBreaches));
  }

  method WriteCostRecord(w: ByteWriter, x: CostRecord)
    requires w.Valid()
    modifies w
    ensures w.Valid() && forall t: seq<byte> :: Sent(old(w.data), old(w.overflowed), PutCostRecord(x, t), w.data, w.overflowed, t, w.ceiling)
  {
    hide PutU64, PutU32;
    WriteU64(w, x.total);
    WriteU64(w, x.hopsCost);
    WriteU64(w, x.staticCost);
    WriteU64(w, x.degradedPenalty);
    WriteU64(w, x.localityPenalty);
    WriteU32(w, x.hops);
    WriteU32(w, x.degradedHops);
    WriteU32(w, x.localityBreaches);
  }

  lemma CostRecordSame(x: CostRecord, y: CostRecord, t: seq<byte>, u: seq<byte>)
    requires PutCostRecord(x, t) == PutCostRecord(y, u)
    ensures x == y && t == u
  {
    hide PutU64, PutU32;
    FieldsSame();
  }

  /** A cost is the checked sum of its parts, and counts no more penalties than hops. */
  ghost predicate OkCost(x: CostRecord) {
    && x.hops <= MAX_HOP_COUNT
    && x.hopsCost + x.staticCost + x.degradedPenalty + x.localityPenalty == x.total
    && x.degradedHops <= x.hops && x.localityBreaches <= x.hops
  }

  function PutCost(x: CostRecord, tail: seq<byte>): seq<byte> {
    PutCostRecord(x, tail)
  }

  ghost function GetCost(s: seq<byte>): Parse<CostRecord> {
    var cost :- GetCostRecord(s);
    if !OkCost(cost.value) then Bad else cost
  }

  lemma CostRound(x: CostRecord, tail: seq<byte>)
    requires OkCost(x)
    ensures GetCost(PutCost(x, tail)) == Good(x, tail)
  {
    hide PutCostRecord, GetCostRecord;
    CostRecordRound(x, tail);
  }

  lemma CostBack(s: seq<byte>)
    requires GetCost(s).Good?
    ensures s == PutCost(GetCost(s).value, GetCost(s).rest)
  {
    hide PutCostRecord, GetCostRecord;
    CostRecordBack(s);
  }

  method ReadCost(r: ByteReader) returns (x: Option<CostRecord>)
    requires r.Valid() && !r.failed
    modifies r
    ensures r.Valid() && (x.Some? ==> !r.failed) && Follows(GetCost(old(r.Rest())), x, r.Rest())
    ensures x.Some? ==> x.value.total == x.value.hopsCost + x.value.staticCost + x.value.degradedPenalty + x.value.localityPenalty
  {
    hide GetCostRecord;
    var cost :- ReadCostRecord(r);
    if cost.hops > MAX_HOP_COUNT {
      return None;
    }
    var sum := CheckedAdd(cost.hopsCost, cost.staticCost);
    if sum.Some? {
      sum := CheckedAdd(sum.value, cost.degradedPenalty);
    }
    if sum.Some? {
      sum := CheckedAdd(sum.value, cost.localityPenalty);
    }
    if sum.None? || sum.value != cost.total {
      return None;
    }
    if cost.degradedHops > cost.hops || cost.localityBreaches > cost.hops {
      return None;
    }
    x := Some(cost);
  }

  method WriteCost(w: ByteWriter, x: CostRecord)
    requires w.Valid()
    modifies w
    ensures w.Valid() && forall t: seq<byte> :: Sent(old(w.data), old(w.overflowed), PutCost(x, t), w.data, w.overflowed, t, w.ceiling)
  {
    hide PutCostRecord;
    WriteCostRecord(w, x);
  }

  lemma CostSame(x: CostRecord, y: CostRecord, t: seq<byte>, u: seq<byte>)
    requires PutCost(x, t) == PutCost(y, u)
    ensures x == y && t == u
  {
    hide PutCostRecord;
    CostRecordSame(x, y, t, u);
  }

  /** The generations a plan was made at. */
  function PutGenerations(x: Generations, tail: seq<byte>): seq<byte> {
    PutU64(x.topology, PutU64(x.linkState, PutU64(x.ports, PutU64(x.capabilities, PutU64(x.failureDomains, PutU64(x.epoch, PutU64(x.policy, PutU64(x.constraints, tail))))))))
  }

  ghost function GetGenerations(s: seq<byte>): Parse<Generations> {
    var topology :- GetU64(s);
    var linkState :- GetU64(topology.rest);
    var ports :- GetU64(linkState.rest);
    var capabilities :- GetU64(ports.rest);
    var failureDomains :- GetU64(capabilities.rest);
    var epoch :- GetU64(failureDomains.rest);
    var policy :- GetU64(epoch.rest);
    var constraints :- GetU64(policy.rest);
    Good(Generations(topology.value, linkState.value, ports.value, capabilities.value, failureDomains.value, epoch.value, policy.value, constraints.value), constraints.rest)
  }

  lemma GenerationsRound(x: Generations, tail: seq<byte>)
    ensures GetGenerations(PutGenerations(x, tail)) == Good(x, tail)
  {
    hide PutU64, GetU64;
    FieldsRound();
  }

  lemma GenerationsBack(s: seq<byte>)
    requires GetGenerations(s).Good?
    ensures s == PutGenerations(GetGenerations(s).value, GetGenerations(s).rest)
  {
    hide PutU64, GetU64;
    FieldsBack();
  }

  method ReadGenerations(r: ByteReader) returns (x: Option<Generations>)
    requires r.Valid() && !r.failed
    modifies r
    ensures r.Valid() && (x.Some? ==> !r.failed) && Follows(GetGenerations(old(r.Rest())), x, r.Rest())
  {
    hide GetU64;
    var topology :- ReadU64(r);
    var linkState :- ReadU64(r);
    var ports :- ReadU64(r);
    var capabilities :- ReadU64(r);
    var failureDomains :- ReadU64(r);
    var epoch :- ReadU64(r);
    var policy :- ReadU64(r);
    var constraints :- ReadU64(r);
    x := Some(Generations(topology, linkState, ports, capabilities, failureDomains, epoch, policy, constraints));
  }

  method WriteGenerations(w: ByteWriter, x: Generations)
    requires w.Valid()
    modifies w
    ensures w.Valid() && forall t: seq<byte> :: Sent(old(w.data), old(w.overflowed), PutGenerations(x, t), w.data, w.overflowed, t, w.ceiling)
  {
    hide PutU64;
    WriteU64(w, x.topology);
    WriteU64(w, x.linkState);
    WriteU64(w, x.ports);
    WriteU64(w, x.capabilities);
    WriteU64(w, x.failureDomains);
    WriteU64(w, x.epoch);
    WriteU64(w, x.policy);
    WriteU64(w, x.constraints);
  }

  lemma GenerationsSame(x: Generations, y: Generations, t: seq<byte>, u: seq<byte>)
    requires PutGenerations(x, t) == PutGenerations(y, u)
    ensures x == y && t == u
  {
    hide PutU64;
    FieldsSame();
  }

  /** The evidence of a plan. */
  function PutEvidence(x: Evidence, tail: seq<byte>): seq<byte> {
    PutId16(x.snapshot, PutGenerations(x.generations, PutU32(x.source, PutU64(x.publishSequence, tail))))
  }

  ghost function GetEvidence(s: seq<byte>): Parse<Evidence> {
    var snapshot :- GetId16(s);
    var generations :- GetGenerations(snapshot.rest);
    var source :- GetEnum(generations.rest, 3);
    var publishSequence :- GetU64(source.rest);
    Good(Evidence(snapshot.value, generations.value, source.value, publishSequence.value), publishSequence.rest)
  }

  ghost predicate OkEvidence(x: Evidence) {
    x.snapshot != 0
  }

  lemma EvidenceRound(x: Evidence, tail: seq<byte>)
    requires OkEvidence(x)
    ensures GetEvidence(PutEvidence(x, tail)) == Good(x, tail)
  {
    hide PutId16, PutGenerations, PutU32, PutU64, GetAny16, GetGenerations, GetU32, GetU64;
    FieldsRound();
    GenerationsRound(x.generations, PutU32(x.source, PutU64(x.publishSequence, tail)));
  }

  lemma EvidenceBack(s: seq<byte>)
    requires GetEvidence(s).Good?
    ensures s == PutEvidence(GetEvidence(s).value, GetEvidence(s).rest)
  {
    hide PutId16, PutGenerations, PutU32, PutU64, GetAny16, GetGenerations, GetU32, GetU64;
    FieldsBack();
    var snapshot := GetId16(s);
    var generations := GetGenerations(snapshot.rest);
    GenerationsBack(snapshot.rest);
    var source := GetEnum(generations.rest, 3);
    var publishSequence := GetU64(source.rest);
  }

  method ReadEvidence(r: ByteReader) returns (x: Option<Evidence>)
    requires r.Valid() && !r.failed
    modifies r
    ensures r.Valid() && (x.Some? ==> !r.failed) && Follows(GetEvidence(old(r.Rest())), x, r.Rest())
  {
    hide GetAny16, GetGenerations, GetU32, GetU64, GetId16, GetEnum;
    var snapshot :- ReadId16(r);
    var generations :- ReadGenerations(r);
    var source :- ReadEnum(r, 3);
    var publishSequence :- ReadU64(r);
    x := Some(Evidence(snapshot, generations, source, publishSequence));
  }

  method WriteEvidence(w: ByteWriter, x: Evidence)
    requires w.Valid()
    modifies w
    ensures w.Valid() && forall t: seq<byte> :: Sent(old(w.data), old(w.overflowed), PutEvidence(x, t), w.data, w.overflowed, t, w.ceiling)
  {
    hide PutId16, PutGenerations, PutU32, PutU64;
    WriteId16(w, x.snapshot);
    WriteGenerations(w, x.generations);
    WriteU32(w, x.source);
    WriteU64(w, x.publishSequence);
  }

  lemma EvidenceSame(x: Evidence, y: Evidence, t: seq<byte>, u: seq<byte>)
    requires PutEvidence(x, t) == PutEvidence(y, u)
    ensures x == y && t == u
  {
    hide PutId16, PutGenerations, PutU32, PutU64;
    FieldsSame();
    forall a: Generations, b: Generations, v: seq<byte>, w: seq<byte> | PutGenerations(a, v) == PutGenerations(b, w) ensures a == b && v == w {
      GenerationsSame(a, b, v, w);
    }
  }

  /** One ranked candidate. */
  function PutEntry(x: Entry, tail: seq<byte>): seq<byte> {
    PutPath(x.path, PutCost(x.cost, PutU32(x.rank, tail)))
  }

  ghost function GetEntry(s: seq<byte>, limits: Limits): Parse<Entry> {
    var path :- GetPath(s, limits);
    var cost :- GetCost(path.rest);
    var rank :- GetU32(cost.rest);
    Good(Entry(path.value, cost.value, rank.value), rank.rest)
  }

  ghost predicate OkEntry(x: Entry, limits: Limits) {
    && OkPath(x.path, limits)
    && OkCost(x.cost)
  }

  lemma EntryRound(x: Entry, tail: seq<byte>, limits: Limits)
    requires OkEntry(x, limits)
    ensures GetEntry(PutEntry(x, tail), limits) == Good(x, tail)
  {
    hide PutPath, PutCost, PutU32, GetPath, GetCost, GetU32;
    FieldsRound();
    PathRound(x.path, PutCost(x.cost, PutU32(x.rank, tail)), limits);
    CostRound(x.cost, PutU32(x.rank, tail));
  }

  lemma EntryBack(s: seq<byte>, limits: Limits)
    requires GetEntry(s, limits).Good?
    ensures s == PutEntry(GetEntry(s, limits).value, GetEntry(s, limits).rest)
  {
    hide PutPath, PutCost, PutU32, GetPath, GetCost, GetU32;
    FieldsBack();
    var path := GetPath(s, limits);
    PathBack(s, limits);
    var cost := GetCost(path.rest);
    CostBack(path.rest);
    var rank := GetU32(cost.rest);
  }

  method ReadEntry(r: ByteReader, limits: Limits) returns (x: Option<Entry>)
    requires r.Valid() && !r.failed
    modifies r
    ensures r.Valid() && (x.Some? ==> !r.failed) && Follows(GetEntry(old(r.Rest()), limits), x, r.Rest())
  {
    hide GetPath, GetCost, GetU32;
    var path :- ReadPath(r, limits);
    var cost :- ReadCost(r);
    var rank :- ReadU32(r);
    x := Some(Entry(path, cost, rank));
  }

  method WriteEntry(w: ByteWriter, x: Entry)
    requires w.Valid()
    modifies w
    ensures w.Valid() && forall t: seq<byte> :: Sent(old(w.data), old(w.overflowed), PutEntry(x, t), w.data, w.overflowed, t, w.ceiling)
  {
    hide PutPath, PutCost, PutU32;
    WritePath(w, x.path);
    WriteCost(w, x.cost);
    WriteU32(w, x.rank);
  }

  lemma EntrySame(x: Entry, y: Entry, t: seq<byte>, u: seq<byte>)
    requires PutEntry(x, t) == PutEntry(y, u)
    ensures x == y && t == u
  {
    hide PutPath, PutCost, PutU32;
    FieldsSame();
    forall a: PathRecord, b: PathRecord, v: seq<byte>, w: seq<byte> | PutPath(a, v) == PutPath(b, w) ensures a == b && v == w {
      PathSame(a, b, v, w);
    }
    forall a: CostRecord, b: CostRecord, v: seq<byte>, w: seq<byte> | PutCost(a, v) == PutCost(b, w) ensures a == b && v == w {
      CostSame(a, b, v, w);
    }
  }

  ghost function EntryReader(limits: Limits): seq<byte> -> Parse<Entry> {
    s => GetEntry(s, limits)
  }

  ghost function GetEntryList(s: seq<byte>, limits: Limits): Parse<seq<Entry>> {
    GetList(EntryReader(limits), s, limits.maxCandidatesPerRequest)
  }

  lemma EntryListRound(xs: seq<Entry>, limits: Limits)
    requires |xs| <= limits.maxCandidatesPerRequest && forall i :: 0 <= i < |xs| ==> OkEntry(xs[i], limits)
    ensures forall t: seq<byte> :: GetEntryList(PutList(PutEntry, xs, t), limits) == Good(xs, t)
  {
    hide GetList, PutList, GetEntry, PutEntry, OkEntry;
    forall i | 0 <= i < |xs| ensures ReadsBack(PutEntry, EntryReader(limits), xs[i]) {
      forall t: seq<byte> ensures EntryReader(limits)(PutEntry(xs[i], t)) == Good(xs[i], t) {
        EntryRound(xs[i], t, limits);
      }
    }
    forall t: seq<byte> ensures GetEntryList(PutList(PutEntry, xs, t), limits) == Good(xs, t) {
      ListRound(PutEntry, EntryReader(limits), xs, t, limits.maxCandidatesPerRequest);
    }
  }

  lemma EntryListBack(limits: Limits)
    ensures forall s: seq<byte> :: GetEntryList(s, limits).Good? ==> s == PutList(PutEntry, GetEntryList(s, limits).value, GetEntryList(s, limits).rest)
  {
    hide GetList, PutList, GetEntry, PutEntry;
    forall s: seq<byte> | EntryReader(limits)(s).Good? ensures s == PutEntry(EntryReader(limits)(s).value, EntryReader(limits)(s).rest) {
      EntryBack(s, limits);
    }
    assert WritesBack(PutEntry, EntryReader(limits));
    forall s: seq<byte> | GetEntryList(s, limits).Good? ensures s == PutList(PutEntry, GetEntryList(s, limits).value, GetEntryList(s, limits).rest) {
      ListBack(PutEntry, EntryReader(limits), s, limits.maxCandidatesPerRequest);
    }
  }

  method ReadEntryList(r: ByteReader, limits: Limits) returns (xs: Option<seq<Entry>>)
    requires r.Valid() && !r.failed
    modifies r
    ensures r.Valid() && (xs.Some? ==> !r.failed) && Follows(GetEntryList(old(r.Rest()), limits), xs, r.Rest())
  {
    hide GetEntry, GetCount, GetMany;
    var count :- ReadCount(r, limits.maxCandidatesPerRequest);
    ghost var s, get := r.Rest(), EntryReader(limits);
    var out: seq<Entry> := [];
    NothingLeft(get, s, count);
    for i := 0 to count
      invariant r.Valid() && !r.failed && GetMany(get, s, count) == Collected(out, GetMany(get, r.Rest(), count - i))
    {
      CollectedStep(get, out, r.Rest(), count - i);
      var x :- ReadEntry(r, limits);
      out := out + [x];
    }
    NoneLeft(get, out, r.Rest());
    xs := Some(out);
  }

  method WriteEntryList(w: ByteWriter, xs: seq<Entry>)
    requires w.Valid()
    modifies w
    ensures w.Valid() && forall t: seq<byte> :: Sent(old(w.data), old(w.overflowed), PutList(PutEntry, xs, t), w.data, w.overflowed, t, w.ceiling)
  {
    hide PutEntry, PutCount, PutMany;
    ghost var d0, o0 := w.data, w.overflowed;
    WriteCount(w, |xs|);
    assert xs[0..] == xs;
    for i := 0 to |xs|
      invariant w.Valid()
      invariant forall t: seq<byte> :: Sent(d0, o0, PutList(PutEntry, xs, t), w.data, w.overflowed, PutMany(PutEntry, xs[i..], t), w.ceiling)
    {
      ManyStep(PutEntry, xs, i);
      WriteEntry(w, xs[i]);
    }
    ManyEnd(PutEntry, xs);
  }

  lemma EntryListSame(xs: seq<Entry>, ys: seq<Entry>, t: seq<byte>, u: seq<byte>)
    requires PutList(PutEntry, xs, t) == PutList(PutEntry, ys, u)
    ensures xs == ys && t == u
  {
    hide PutList, PutEntry;
    forall a: Entry, b: Entry, v: seq<byte>, w: seq<byte> | PutEntry(a, v) == PutEntry(b, w) ensures a == b && v == w {
      EntrySame(a, b, v, w);
    }
    ListSame(PutEntry, xs, ys, t, u);
  }

  /** What was asked and answered. */
  function PutIssue(x: Issue, tail: seq<byte>): seq<byte> {
    PutId16(x.request, PutId16(x.plan, PutU64(x.generation, PutU64(x.publishSequence, PutU32(x.status, tail)))))
  }

  ghost function GetIssue(s: seq<byte>): Parse<Issue> {
    var request :- GetId16(s);
    var plan :- GetId16(request.rest);
    var generation :- GetU64(plan.rest);
    var publishSequence :- GetU64(generation.rest);
    var status :- GetEnum(publishSequence.rest, 15);
    Good(Issue(request.value, plan.value, generation.value, publishSequence.value, status.value), status.rest)
  }

  ghost predicate OkIssue(x: Issue) {
    && x.request != 0
    && x.plan != 0
  }

  lemma IssueRound(x: Issue, tail: seq<byte>)
    requires OkIssue(x)
    ensures GetIssue(PutIssue(x, tail)) == Good(x, tail)
  {
    hide PutId16, PutU64, PutU32, GetAny16, GetU64, GetU32;
    FieldsRound();
  }

  lemma IssueBack(s: seq<byte>)
    requires GetIssue(s).Good?
    ensures s == PutIssue(GetIssue(s).value, GetIssue(s).rest)
  {
    hide PutId16, PutU64, PutU32, GetAny16, GetU64, GetU32;
    FieldsBack();
  }

  method ReadIssue(r: ByteReader) returns (x: Option<Issue>)
    requires r.Valid() && !r.failed
    modifies r
    ensures r.Valid() && (x.Some? ==> !r.failed) && Follows(GetIssue(old(r.Rest())), x, r.Rest())
  {
    hide GetAny16, GetU64, GetU32, GetId16, GetEnum;
    var request :- ReadId16(r);
    var plan :- ReadId16(r);
    var generation :- ReadU64(r);
    var publishSequence :- ReadU64(r);
    var status :- ReadEnum(r, 15);
    x := Some(Issue(request, plan, generation, publishSequence, status));
  }

  method WriteIssue(w: ByteWriter, x: Issue)
    requires w.Valid()
    modifies w
    ensures w.Valid() && forall t: seq<byte> :: Sent(old(w.data), old(w.overflowed), PutIssue(x, t), w.data, w.overflowed, t, w.ceiling)
  {
    hide PutId16, PutU64, PutU32;
    WriteId16(w, x.request);
    WriteId16(w, x.plan);
    WriteU64(w, x.generation);
    WriteU64(w, x.publishSequence);
    WriteU32(w, x.status);
  }

  lemma IssueSame(x: Issue, y: Issue, t: seq<byte>, u: seq<byte>)
    requires PutIssue(x, t) == PutIssue(y, u)
    ensures x == y && t == u
  {
    hide PutId16, PutU64, PutU32;
    FieldsSame();
  }

  /** What it was asked under. */
  function PutBasis(x: Basis, tail: seq<byte>): seq<byte> {
    PutId16(x.constraintSet, PutU64(x.constraintGeneration, PutU64(x.policyGeneration, tail)))
  }

  ghost function GetBasis(s: seq<byte>): Parse<Basis> {
    var constraintSet :- GetId16(s);
    var constraintGeneration :- GetU64(constraintSet.rest);
    var policyGeneration :- GetU64(constraintGeneration.rest);
    Good(Basis(constraintSet.value, constraintGeneration.value, policyGeneration.value), policyGeneration.rest)
  }

  ghost predicate OkBasis(x: Basis) {
    x.constraintSet != 0
  }

  lemma BasisRound(x: Basis, tail: seq<byte>)
    requires OkBasis(x)
    ensures GetBasis(PutBasis(x, tail)) == Good(x, tail)
  {
    hide PutId16, PutU64, GetAny16, GetU64;
    FieldsRound();
  }

  lemma BasisBack(s: seq<byte>)
    requires GetBasis(s).Good?
    ensures s == PutBasis(GetBasis(s).value, GetBasis(s).rest)
  {
    hide PutId16, PutU64, GetAny16, GetU64;
    FieldsBack();
  }

  method ReadBasis(r: ByteReader) returns (x: Option<Basis>)
    requires r.Valid() && !r.failed
    modifies r
    ensures r.Valid() && (x.Some? ==> !r.failed) && Follows(GetBasis(old(r.Rest())), x, r.Rest())
  {
    hide GetAny16, GetU64, GetId16;
    var constraintSet :- ReadId16(r);
    var constraintGeneration :- ReadU64(r);
    var policyGeneration :- ReadU64(r);
    x := Some(Basis(constraintSet, constraintGeneration, policyGeneration));
  }

  method WriteBasis(w: ByteWriter, x: Basis)
    requires w.Valid()
    modifies w
    ensures w.Valid() && forall t: seq<byte> :: Sent(old(w.data), old(w.overflowed), PutBasis(x, t), w.data, w.overflowed, t, w.ceiling)
  {
    hide PutId16, PutU64;
    WriteId16(w, x.constraintSet);
    WriteU64(w, x.constraintGeneration);
    WriteU64(w, x.policyGeneration);
  }

  lemma BasisSame(x: Basis, y: Basis, t: seq<byte>, u: seq<byte>)
    requires PutBasis(x, t) == PutBasis(y, u)
    ensures x == y && t == u
  {
    hide PutId16, PutU64;
    FieldsSame();
  }

  /** What it joins. */
  function PutSpan(x: Span, tail: seq<byte>): seq<byte> {
    PutId16(x.source, PutId16(x.destination, PutU32(x.layer, PutBool(x.diagnostic, tail))))
  }

  ghost function GetSpan(s: seq<byte>): Parse<Span> {
    var source :- GetId16(s);
    var destination :- GetId16(source.rest);
    var layer :- GetEnum(destination.rest, 4);
    var diagnostic :- GetBool(layer.rest);
    Good(Span(source.value, destination.value, layer.value, diagnostic.value), diagnostic.rest)
  }

  ghost predicate OkSpan(x: Span) {
    && x.source != 0
    && x.destination != 0
  }

  lemma SpanRound(x: Span, tail: seq<byte>)
    requires OkSpan(x)
    ensures GetSpan(PutSpan(x, tail)) == Good(x, tail)
  {
    hide PutId16, PutU32, PutBool, GetAny16, GetU32, GetBool;
    FieldsRound();
  }

  lemma SpanBack(s: seq<byte>)
    requires GetSpan(s).Good?
    ensures s == PutSpan(GetSpan(s).value, GetSpan(s).rest)
  {
    hide PutId16, PutU32, PutBool, GetAny16, GetU32, GetBool;
    FieldsBack();
  }

  method ReadSpan(r: ByteReader) returns (x: Option<Span>)
    requires r.Valid() && !r.failed
    modifies r
    ensures r.Valid() && (x.Some? ==> !r.failed) && Follows(GetSpan(old(r.Rest())), x, r.Rest())
  {
    hide GetAny16, GetU32, GetBool, GetId16, GetEnum;
    var source :- ReadId16(r);
    var destination :- ReadId16(r);
    var layer :- ReadEnum(r, 4);
    var diagnostic :- ReadBool(r);
    x := Some(Span(source, destination, layer, diagnostic));
  }

  method WriteSpan(w: ByteWriter, x: Span)
    requires w.Valid()
    modifies w
    ensures w.Valid() && forall t: seq<byte> :: Sent(old(w.data), old(w.overflowed), PutSpan(x, t), w.data, w.overflowed, t, w.ceiling)
  {
    hide PutId16, PutU32, PutBool;
    WriteId16(w, x.source);
    WriteId16(w, x.destination);
    WriteU32(w, x.layer);
    WriteBool(w, x.diagnostic);
  }

  lemma SpanSame(x: Span, y: Span, t: seq<byte>, u: seq<byte>)
    requires PutSpan(x, t) == PutSpan(y, u)
    ensures x == y && t == u
  {
    hide PutId16, PutU32, PutBool;
    FieldsSame();
  }

  /** One stored plan. */
  function PutStoredPlan(x: StoredPlan, tail: seq<byte>): seq<byte> {
    PutIssue(x.issue, PutBasis(x.basis, PutSpan(x.span, PutEvidence(x.evidence, PutId32(x.digest, PutList(PutEntry, x.entries, tail))))))
  }

  ghost function GetStoredPlan(s: seq<byte>, limits: Limits): Parse<StoredPlan> {
    var issue :- GetIssue(s);
    var basis :- GetBasis(issue.rest);
    var span :- GetSpan(basis.rest);
    var evidence :- GetEvidence(span.rest);
    var digest :- GetAny32(evidence.rest);
    var entries :- GetEntryList(digest.rest, limits);
    Good(StoredPlan(issue.value, basis.value, span.value, evidence.value, digest.value, entries.value), entries.rest)
  }

  ghost predicate OkStoredPlan(x: StoredPlan, limits: Limits) {
    && OkIssue(x.issue)
    && OkBasis(x.basis)
    && OkSpan(x.span)
    && OkEvidence(x.evidence)
    && (|x.entries| <= limits.maxCandidatesPerRequest && forall i :: 0 <= i < |x.entries| ==> OkEntry(x.entries[i], limits))
  }

  lemma StoredPlanRound(x: StoredPlan, tail: seq<byte>, limits: Limits)
    requires OkStoredPlan(x, limits)
    ensures GetStoredPlan(PutStoredPlan(x, tail), limits) == Good(x, tail)
  {
    hide PutIssue, PutBasis, PutSpan, PutEvidence, PutId32, PutList, GetIssue, GetBasis, GetSpan, GetEvidence, GetAny32, GetEntryList;
    FieldsRound();
    IssueRound(x.issue, PutBasis(x.basis, PutSpan(x.span, PutEvidence(x.evidence, PutId32(x.digest, PutList(PutEntry, x.entries, tail))))));
    BasisRound(x.basis, PutSpan(x.span, PutEvidence(x.evidence, PutId32(x.digest, PutList(PutEntry, x.entries, tail)))));
    SpanRound(x.span, PutEvidence(x.evidence, PutId32(x.digest, PutList(PutEntry, x.entries, tail))));
    EvidenceRound(x.evidence, PutId32(x.digest, PutList(PutEntry, x.entries, tail)));
    EntryListRound(x.entries, limits);
  }

  lemma StoredPlanBack(s: seq<byte>, limits: Limits)
    requires GetStoredPlan(s, limits).Good?
    ensures s == PutStoredPlan(GetStoredPlan(s, limits).value, GetStoredPlan(s, limits).rest)
  {
    hide PutIssue, PutBasis, PutSpan, PutEvidence, PutId32, PutList, GetIssue, GetBasis, GetSpan, GetEvidence, GetAny32, GetEntryList;
    FieldsBack();
    EntryListBack(limits);
    var issue := GetIssue(s);
    IssueBack(s);
    var basis := GetBasis(issue.rest);
    BasisBack(issue.rest);
    var span := GetSpan(basis.rest);
    SpanBack(basis.rest);
    var evidence := GetEvidence(span.rest);
    EvidenceBack(span.rest);
    var digest := GetAny32(evidence.rest);
    var entries := GetEntryList(digest.rest, limits);
  }

  method ReadStoredPlan(r: ByteReader, limits: Limits) returns (x: Option<StoredPlan>)
    requires r.Valid() && !r.failed
    modifies r
    ensures r.Valid() && (x.Some? ==> !r.failed) && Follows(GetStoredPlan(old(r.Rest()), limits), x, r.Rest())
  {
    hide GetIssue, GetBasis, GetSpan, GetEvidence, GetAny32, GetEntryList;
    var issue :- ReadIssue(r);
    var basis :- ReadBasis(r);
    var span :- ReadSpan(r);
    var evidence :- ReadEvidence(r);
    var digest :- ReadAny32(r);
    var entries :- ReadEntryList(r, limits);
    x := Some(StoredPlan(issue, basis, span, evidence, digest, entries));
  }

  method WriteStoredPlan(w: ByteWriter, x: StoredPlan)
    requires w.Valid()
    modifies w
    ensures w.Valid() && forall t: seq<byte> :: Sent(old(w.data), old(w.overflowed), PutStoredPlan(x, t), w.data, w.overflowed, t, w.ceiling)
  {
    hide PutIssue, PutBasis, PutSpan, PutEvidence, PutId32, PutList;
    WriteIssue(w, x.issue);
    WriteBasis(w, x.basis);
    WriteSpan(w, x.span);
    WriteEvidence(w, x.evidence);
    WriteId32(w, x.digest);
    WriteEntryList(w, x.entries);
  }

  lemma StoredPlanSame(x: StoredPlan, y: StoredPlan, t: seq<byte>, u: seq<byte>)
    requires PutStoredPlan(x, t) == PutStoredPlan(y, u)
    ensures x == y && t == u
  {
    hide PutIssue, PutBasis, PutSpan, PutEvidence, PutId32, PutList;
    FieldsSame();
    forall a: Issue, b: Issue, v: seq<byte>, w: seq<byte> | PutIssue(a, v) == PutIssue(b, w) ensures a == b && v == w {
      IssueSame(a, b, v, w);
    }
    forall a: Basis, b: Basis, v: seq<byte>, w: seq<byte> | PutBasis(a, v) == PutBasis(b, w) ensures a == b && v == w {
      BasisSame(a, b, v, w);
    }
    forall a: Span, b: Span, v: seq<byte>, w: seq<byte> | PutSpan(a, v) == PutSpan(b, w) ensures a == b && v == w {
      SpanSame(a, b, v, w);
    }
    forall a: Evidence, b: Evidence, v: seq<byte>, w: seq<byte> | PutEvidence(a, v) == PutEvidence(b, w) ensures a == b && v == w {
      EvidenceSame(a, b, v, w);
    }
    forall a: seq<Entry>, b: seq<Entry>, v: seq<byte>, w: seq<byte> | PutList(PutEntry, a, v) == PutList(PutEntry, b, w) ensures a == b && v == w {
      EntryListSame(a, b, v, w);
    }
  }

  ghost function StoredPlanReader(limits: Limits): seq<byte> -> Parse<StoredPlan> {
    s => GetStoredPlan(s, limits)
  }

  ghost function GetStoredPlanList(s: seq<byte>, limits: Limits): Parse<seq<StoredPlan>> {
    GetList(StoredPlanReader(limits), s, limits.maxPersistedPlans)
  }

  lemma StoredPlanListRound(xs: seq<StoredPlan>, limits: Limits)
    requires |xs| <= limits.maxPersistedPlans && forall i :: 0 <= i < |xs| ==> OkStoredPlan(xs[i], limits)
    ensures forall t: seq<byte> :: GetStoredPlanList(PutList(PutStoredPlan, xs, t), limits) == Good(xs, t)
  {
    hide GetList, PutList, GetStoredPlan, PutStoredPlan, OkStoredPlan;
    forall i | 0 <= i < |xs| ensures ReadsBack(PutStoredPlan, StoredPlanReader(limits), xs[i]) {
      forall t: seq<byte> ensures StoredPlanReader(limits)(PutStoredPlan(xs[i], t)) == Good(xs[i], t) {
        StoredPlanRound(xs[i], t, limits);
      }
    }
    forall t: seq<byte> ensures GetStoredPlanList(PutList(PutStoredPlan, xs, t), limits) == Good(xs, t) {
      ListRound(PutStoredPlan, StoredPlanReader(limits), xs, t, limits.maxPersistedPlans);
    }
  }

  lemma StoredPlanListBack(limits: Limits)
    ensures forall s: seq<byte> :: GetStoredPlanList(s, limits).Good? ==> s == PutList(PutStoredPlan, GetStoredPlanList(s, limits).value, GetStoredPlanList(s, limits).rest)
  {
    hide GetList, PutList, GetStoredPlan, PutStoredPlan;
    forall s: seq<byte> | StoredPlanReader(limits)(s).Good? ensures s == PutStoredPlan(StoredPlanReader(limits)(s).value, StoredPlanReader(limits)(s).rest) {
      StoredPlanBack(s, limits);
    }
    assert WritesBack(PutStoredPlan, StoredPlanReader(limits));
    forall s: seq<byte> | GetStoredPlanList(s, limits).Good? ensures s == PutList(PutStoredPlan, GetStoredPlanList(s, limits).value, GetStoredPlanList(s, limits).rest) {
      ListBack(PutStoredPlan, StoredPlanReader(limits), s, limits.maxPersistedPlans);
    }
  }

  method ReadStoredPlanList(r: ByteReader, limits: Limits) returns (xs: Option<seq<StoredPlan>>)
    requires r.Valid() && !r.failed
    modifies r
    ensures r.Valid() && (xs.Some? ==> !r.failed) && Follows(GetStoredPlanList(old(r.Rest()), limits), xs, r.Rest())
  {
    hide GetStoredPlan, GetCount, GetMany;
    var count :- ReadCount(r, limits.maxPersistedPlans);
    ghost var s, get := r.Rest(), StoredPlanReader(limits);
    var out: seq<StoredPlan> := [];
    NothingLeft(get, s, count);
    for i := 0 to count
      invariant r.Valid() && !r.failed && GetMany(get, s, count) == Collected(out, GetMany(get, r.Rest(), count - i))
    {
      CollectedStep(get, out, r.Rest(), count - i);
      var x :- ReadStoredPlan(r, limits);
      out := out + [x];
    }
    NoneLeft(get, out, r.Rest());
    xs := Some(out);
  }

  method WriteStoredPlanList(w: ByteWriter, xs: seq<StoredPlan>)
    requires w.Valid()
    modifies w
    ensures w.Valid() && forall t: seq<byte> :: Sent(old(w.data), old(w.overflowed), PutList(PutStoredPlan, xs, t), w.data, w.overflowed, t, w.ceiling)
  {
    hide PutStoredPlan, PutCount, PutMany;
    ghost var d0, o0 := w.data, w.overflowed;
    WriteCount(w, |xs|);
    assert xs[0..] == xs;
    for i := 0 to |xs|
      invariant w.Valid()
      invariant forall t: seq<byte> :: Sent(d0, o0, PutList(PutStoredPlan, xs, t), w.data, w.overflowed, PutMany(PutStoredPlan, xs[i..], t), w.ceiling)
    {
      ManyStep(PutStoredPlan, xs, i);
      WriteStoredPlan(w, xs[i]);
    }
    ManyEnd(PutStoredPlan, xs);
  }

  lemma StoredPlanListSame(xs: seq<StoredPlan>, ys: seq<StoredPlan>, t: seq<byte>, u: seq<byte>)
    requires PutList(PutStoredPlan, xs, t) == PutList(PutStoredPlan, ys, u)
    ensures xs == ys && t == u
  {
    hide PutList, PutStoredPlan;
    forall a: StoredPlan, b: StoredPlan, v: seq<byte>, w: seq<byte> | PutStoredPlan(a, v) == PutStoredPlan(b, w) ensures a == b && v == w {
      StoredPlanSame(a, b, v, w);
    }
    ListSame(PutStoredPlan, xs, ys, t, u);
  }

  /** The header of a store image. */
  function PutHeader(x: Header, tail: seq<byte>): seq<byte> {
    PutId8(x.magic, PutU32(x.formatVersion, PutU32(x.ruleVersion, PutU32(x.encodingVersion, PutU64(x.recordCount, PutU64(x.payloadLength, tail))))))
  }

  ghost function GetHeader(s: seq<byte>): Parse<Header> {
    var magic :- GetAny8(s);
    var formatVersion :- GetU32(magic.rest);
    var ruleVersion :- GetU32(formatVersion.rest);
    var encodingVersion :- GetU32(ruleVersion.rest);
    var recordCount :- GetU64(encodingVersion.rest);
    var payloadLength :- GetU64(recordCount.rest);
    Good(Header(magic.value, formatVersion.value, ruleVersion.value, encodingVersion.value, recordCount.value, payloadLength.value), payloadLength.rest)
  }

  lemma HeaderRound(x: Header, tail: seq<byte>)
    ensures GetHeader(PutHeader(x, tail)) == Good(x, tail)
  {
    hide PutId8, PutU32, PutU64, GetAny8, GetU32, GetU64;
    FieldsRound();
  }

  lemma HeaderBack(s: seq<byte>)
    requires GetHeader(s).Good?
    ensures s == PutHeader(GetHeader(s).value, GetHeader(s).rest)
  {
    hide PutId8, PutU32, PutU64, GetAny8, GetU32, GetU64;
    FieldsBack();
  }

  method ReadHeader(r: ByteReader) returns (x: Option<Header>)
    requires r.Valid() && !r.failed
    modifies r
    ensures r.Valid() && (x.Some? ==> !r.failed) && Follows(GetHeader(old(r.Rest())), x, r.Rest())
  {
    hide GetAny8, GetU32, GetU64;
    var magic :- ReadAny8(r);
    var formatVersion :- ReadU32(r);
    var ruleVersion :- ReadU32(r);
    var encodingVersion :- ReadU32(r);
    var recordCount :- ReadU64(r);
    var payloadLength :- ReadU64(r);
    x := Some(Header(magic, formatVersion, ruleVersion, encodingVersion, recordCount, payloadLength));
  }

  method WriteHeader(w: ByteWriter, x: Header)
    requires w.Valid()
    modifies w
    ensures w.Valid() && forall t: seq<byte> :: Sent(old(w.data), old(w.overflowed), PutHeader(x, t), w.data, w.overflowed, t, w.ceiling)
  {
    hide PutId8, PutU32, PutU64;
    WriteId8(w, x.magic);
    WriteU32(w, x.formatVersion);
    WriteU32(w, x.ruleVersion);
    WriteU32(w, x.encodingVersion);
    WriteU64(w, x.recordCount);
    WriteU64(w, x.payloadLength);
  }

  lemma HeaderLength(x: Header, tail: seq<byte>)
    ensures |PutHeader(x, tail)| == 36 + |tail|
  {
  }

  /** The identity of a path: the front of the hash of its encoding. */
  ghost function PathId(x: PathRecord): id16 {
    HashLength(PutPath(x, []));
    IdentityOf(Hash(PutPath(x, [])))
  }

  /** The first sixteen bytes of a digest. */
  function IdentityOf(digest: seq<byte>): (r: id16)
    requires |digest| == 32
    ensures Be(16, r) == digest[..16]
  {
    Ranges();
    BeBack(digest[..16]);
    FromBe(digest[..16])
  }

  /** A digest as a number. */
  function DigestOf(digest: seq<byte>): (r: id32)
    requires |digest| == 32
    ensures Be(32, r) == digest
  {
    Ranges();
    BeBack(digest);
    FromBe(digest)
  }

  ghost function PutSemanticEntry(x: Entry, tail: seq<byte>): seq<byte> {
    PutId16(PathId(x.path), PutU64(x.cost.total, PutU32(x.cost.hops, PutU64(x.cost.staticCost, PutU64(x.cost.degradedPenalty, PutU64(x.cost.localityPenalty, PutU32(x.rank, tail)))))))
  }

  /** What the semantic digest of a plan covers. */
  ghost function PutSemantic(x: StoredPlan, tail: seq<byte>): seq<byte> {
    PutU32(PLANNING_RULE_VERSION, PutU32(PLAN_DIGEST_SCHEME_VERSION, PutId16(x.issue.request, PutId16(x.span.source, PutId16(x.span.destination,
      PutU32(x.span.layer, PutU32(x.issue.status, PutBool(x.span.diagnostic, PutEvidence(x.evidence,
        PutU64(x.basis.policyGeneration, PutId16(x.basis.constraintSet, PutU64(x.basis.constraintGeneration,
          PutList(PutSemanticEntry, x.entries, tail)))))))))))))
  }

  ghost function SemanticDigest(x: StoredPlan): id32 {
    HashLength(PutSemantic(x, []));
    DigestOf(Hash(PutSemantic(x, [])))
  }

  lemma {:induction false} HopsSize(xs: seq<HopRecord>, tail: seq<byte>)
    ensures |PutMany(PutHopRecord, xs, tail)| == 100 * |xs| + |tail|
  {
    if xs != [] {
      HopsSize(xs[1..], tail);
      HopSize(xs[0], PutMany(PutHopRecord, xs[1..], tail));
    }
  }

  lemma HopSize(x: HopRecord, tail: seq<byte>)
    ensures |PutHopRecord(x, tail)| == 100 + |tail|
  {
  }

  lemma {:induction false} VarSize(n: nat, i: nat)
    requires i <= 9 && n < GroupBound(i)
    ensures |Var(n)| <= 10 - i
    decreases n
  {
    if n >= 128 {
      VarSize(n / 128, i + 1);
    }
  }

  /** The encoding of a path always fits the space set aside for it. */
  lemma PathSize(x: PathRecord)
    requires |x.hops| < U64_RANGE
    ensures |PutPath(x, [])| <= 256 + 128 * |x.hops|
  {
    hide PutHopRecord, PutMany, Var;
    HopsSize(x.hops, []);
    VarSize(|x.hops|, 0);
  }

  lemma {:induction false} SemanticEntriesSize(xs: seq<Entry>, tail: seq<byte>)
    ensures |PutMany(PutSemanticEntry, xs, tail)| == 56 * |xs| + |tail|
  {
    if xs != [] {
      SemanticEntriesSize(xs[1..], tail);
      SemanticEntrySize(xs[0], PutMany(PutSemanticEntry, xs[1..], tail));
    }
  }

  lemma SemanticEntrySize(x: Entry, tail: seq<byte>)
    ensures |PutSemanticEntry(x, tail)| == 56 + |tail|
  {
    hide PathId;
  }

  lemma EvidenceSize(x: Evidence, tail: seq<byte>)
    ensures |PutEvidence(x, tail)| == 92 + |tail|
  {
  }

  lemma SemanticSize(x: StoredPlan)
    requires |x.entries| < U64_RANGE
    ensures |PutSemantic(x, [])| <= 4096 + 256 * |x.entries|
  {
    hide PutEvidence, PutSemanticEntry, PutMany, Var;
    var list := PutList(PutSemanticEntry, x.entries, []);
    SemanticEntriesSize(x.entries, []);
    VarSize(|x.entries|, 0);
    EvidenceSize(x.evidence, PutU64(x.basis.policyGeneration, PutId16(x.basis.constraintSet, PutU64(x.basis.constraintGeneration, list))));
  }

  method HashBytes(bytes: seq<byte>) returns (digest: seq<byte>)
    ensures digest == Hash(bytes)
  {
    hide Hash;
    digest := HashChunks([bytes]);
    assert Joined([bytes]) == bytes by {
      assert [bytes][..0] == [];
      assert [] + bytes == bytes;
    }
  }

  method ComputePathId(x: PathRecord) returns (id: id16)
    requires |x.hops| < U64_RANGE
    ensures id == PathId(x) && |Hash(PutPath(x, []))| == 32 && Be(16, id) == Hash(PutPath(x, []))[..16]
  {
    hide PutPath, Hash, IdentityOf, Be;
    var w := new ByteWriter(256 + |x.hops| * 128);
    WritePath(w, x);
    PathSize(x);
    WriterDone(w, PutPath(x, []));
    HashLength(PutPath(x, []));
    var digest := HashBytes(w.data);
    id := IdentityOf(digest);
  }

  lemma WriterDone(w: ByteWriter, stream: seq<byte>)
    requires w.Valid() && Sent([], false, stream, w.data, w.overflowed, [], w.ceiling) && |stream| <= w.ceiling
    ensures !w.overflowed && w.data == stream
  {
    assert [] + stream == stream && w.data + [] == w.data;
  }

  method WriteSemanticEntry(w: ByteWriter, x: Entry)
    requires w.Valid() && |x.path.hops| < U64_RANGE
    modifies w
    ensures w.Valid() && forall t: seq<byte> :: Sent(old(w.data), old(w.overflowed), PutSemanticEntry(x, t), w.data, w.overflowed, t, w.ceiling)
  {
    hide PutId16, PutU64, PutU32, PathId;
    var id := ComputePathId(x.path);
    WriteId16(w, id);
    WriteU64(w, x.cost.total);
    WriteU32(w, x.cost.hops);
    WriteU64(w, x.cost.staticCost);
    WriteU64(w, x.cost.degradedPenalty);
    WriteU64(w, x.cost.localityPenalty);
    WriteU32(w, x.rank);
  }

  method WriteSemanticEntries(w: ByteWriter, xs: seq<Entry>)
    requires w.Valid() && forall i :: 0 <= i < |xs| ==> |xs[i].path.hops| < U64_RANGE
    modifies w
    ensures w.Valid() && forall t: seq<byte> :: Sent(old(w.data), old(w.overflowed), PutList(PutSemanticEntry, xs, t), w.data, w.overflowed, t, w.ceiling)
  {
    hide PutSemanticEntry, PutCount, PutMany;
    ghost var d0, o0 := w.data, w.overflowed;
    WriteCount(w, |xs|);
    assert xs[0..] == xs;
    for i := 0 to |xs|
      invariant w.Valid()
      invariant forall t: seq<byte> :: Sent(d0, o0, PutList(PutSemanticEntry, xs, t), w.data, w.overflowed, PutMany(PutSemanticEntry, xs[i..], t), w.ceiling)
    {
      ManyStep(PutSemanticEntry, xs, i);
      WriteSemanticEntry(w, xs[i]);
    }
    ManyEnd(PutSemanticEntry, xs);
  }

  ghost function PutSemanticRest(x: StoredPlan, tail: seq<byte>): seq<byte> {
    PutBool(x.span.diagnostic, PutEvidence(x.evidence,
      PutU64(x.basis.policyGeneration, PutId16(x.basis.constraintSet, PutU64(x.basis.constraintGeneration,
        PutList(PutSemanticEntry, x.entries, tail))))))
  }

  method WriteSemanticRest(w: ByteWriter, x: StoredPlan)
    requires w.Valid() && forall i :: 0 <= i < |x.entries| ==> |x.entries[i].path.hops| < U64_RANGE
    modifies w
    ensures w.Valid() && forall t: seq<byte> :: Sent(old(w.data), old(w.overflowed), PutSemanticRest(x, t), w.data, w.overflowed, t, w.ceiling)
  {
    hide PutBool, PutEvidence, PutU64, PutId16, PutList;
    WriteBool(w, x.span.diagnostic);
    WriteEvidence(w, x.evidence);
    WriteU64(w, x.basis.policyGeneration);
    WriteId16(w, x.basis.constraintSet);
    WriteU64(w, x.basis.constraintGeneration);
    WriteSemanticEntries(w, x.entries);
  }

  method WriteSemantic(w: ByteWriter, x: StoredPlan)
    requires w.Valid() && forall i :: 0 <= i < |x.entries| ==> |x.entries[i].path.hops| < U64_RANGE
    modifies w
    ensures w.Valid() && forall t: seq<byte> :: Sent(old(w.data), old(w.overflowed), PutSemantic(x, t), w.data, w.overflowed, t, w.ceiling)
  {
    SemanticSplit(x);
    hide PutU32, PutId16, PutSemanticRest, PutSemantic;
    WriteU32(w, PLANNING_RULE_VERSION);
    WriteU32(w, PLAN_DIGEST_SCHEME_VERSION);
    WriteId16(w, x.issue.request);
    WriteId16(w, x.span.source);
    WriteId16(w, x.span.destination);
    WriteU32(w, x.span.layer);
    WriteU32(w, x.issue.status);
    WriteSemanticRest(w, x);
  }

  lemma SemanticSplit(x: StoredPlan)
    ensures forall t: seq<byte> :: PutSemantic(x, t) == PutU32(PLANNING_RULE_VERSION, PutU32(PLAN_DIGEST_SCHEME_VERSION, PutId16(x.issue.request, PutId16(x.span.source, PutId16(x.span.destination, PutU32(x.span.layer, PutU32(x.issue.status, PutSemanticRest(x, t))))))))
  {
    hide PutU32, PutId16, PutBool, PutEvidence, PutU64, PutList;
  }

  method ComputeSemanticDigest(x: StoredPlan) returns (digest: id32)
    requires |x.entries| < U64_RANGE && forall i :: 0 <= i < |x.entries| ==> |x.entries[i].path.hops| < U64_RANGE
    ensures digest == SemanticDigest(x) && Be(32, digest) == Hash(PutSemantic(x, []))
  {
    hide PutSemantic, Hash, DigestOf, Be;
    var w := new ByteWriter(4096 + |x.entries| * 256);
    WriteSemantic(w, x);
    SemanticSize(x);
    WriterDone(w, PutSemantic(x, []));
    HashLength(PutSemantic(x, []));
    var bytes := HashBytes(w.data);
    digest := DigestOf(bytes);
  }

  ghost predicate IdsDiffer(entries: seq<Entry>) {
    forall i, j :: 0 <= i < j < |entries| ==> PathId(entries[i].path) != PathId(entries[j].path)
  }

  ghost predicate EntryFits(x: StoredPlan, i: nat)
    requires i < |x.entries|
  {
    && x.entries[i].rank == i + 1 && x.entries[i].rank <= MAX_CANDIDATE_RANK
    && x.entries[i].cost.hops == |x.entries[i].path.hops|
    && forall k :: 0 <= k < |x.entries[i].path.hops| ==> x.entries[i].path.hops[k].structuralGeneration <= x.evidence.generations.topology
  }

  /** What a stored record must be like beyond its fields. */
  ghost predicate RecordSound(x: StoredPlan) {
    && (forall i :: 0 <= i < |x.entries| ==> EntryFits(x, i))
    && IdsDiffer(x.entries)
    && (forall i :: 1 <= i < |x.entries| ==> x.entries[i - 1].cost.total <= x.entries[i].cost.total)
    && x.digest == SemanticDigest(x)
  }

  ghost predicate PlansDiffer(records: seq<StoredPlan>) {
    forall i, j :: 0 <= i < j < |records| ==> records[i].issue.plan != records[j].issue.plan
  }

  /** The record sets a store can hold. */
  ghost predicate StoreOk(records: seq<StoredPlan>, limits: Limits) {
    && |records| <= limits.maxPersistedPlans
    && (forall i :: 0 <= i < |records| ==> OkStoredPlan(records[i], limits) && RecordSound(records[i]))
    && PlansDiffer(records)
  }

  method CheckEntry(x: StoredPlan, i: nat) returns (b: bool)
    requires i < |x.entries|
    ensures b <==> EntryFits(x, i)
  {
    var entry := x.entries[i];
    if entry.rank > MAX_CANDIDATE_RANK || entry.rank != i + 1 {
      return false;
    }
    if entry.cost.hops != |entry.path.hops| {
      return false;
    }
    for k := 0 to |entry.path.hops|
      invariant forall l :: 0 <= l < k ==> entry.path.hops[l].structuralGeneration <= x.evidence.generations.topology
    {
      if entry.path.hops[k].structuralGeneration > x.evidence.generations.topology {
        return false;
      }
    }
    b := true;
  }

  method CheckEntries(x: StoredPlan) returns (b: bool)
    requires forall i :: 0 <= i < |x.entries| ==> |x.entries[i].path.hops| < U64_RANGE
    ensures b <==> (forall i :: 0 <= i < |x.entries| ==> EntryFits(x, i)) && IdsDiffer(x.entries)
  {
    hide EntryFits, PathId;
    var seen: seq<nat> := [];
    for i := 0 to |x.entries|
      invariant forall k :: 0 <= k < i ==> EntryFits(x, k)
      invariant |seen| == i && forall k :: 0 <= k < i ==> seen[k] == PathId(x.entries[k].path)
      invariant forall j, k :: 0 <= j < k < i ==> PathId(x.entries[j].path) != PathId(x.entries[k].path)
    {
      var fits := CheckEntry(x, i);
      if !fits {
        return false;
      }
      var id := ComputePathId(x.entries[i].path);
      if id in seen {
        return false;
      }
      seen := seen + [id];
    }
    b := true;
  }

  method CheckRecord(x: StoredPlan) returns (b: bool)
    requires |x.entries| < U64_RANGE && forall i :: 0 <= i < |x.entries| ==> |x.entries[i].path.hops| < U64_RANGE
    ensures b <==> RecordSound(x)
  {
    hide EntryFits, IdsDiffer, SemanticDigest;
    b := CheckEntries(x);
    if !b {
      return;
    }
    var i := 1;
    while i < |x.entries|
      invariant i >= 1
      invariant forall k :: 1 <= k < i && k < |x.entries| ==> x.entries[k - 1].cost.total <= x.entries[k].cost.total
    {
      if x.entries[i].cost.total < x.entries[i - 1].cost.total {
        return false;
      }
      i := i + 1;
    }
    var digest := ComputeSemanticDigest(x);
    b := digest == x.digest;
  }

  method CheckRecords(records: seq<StoredPlan>) returns (b: bool)
    requires forall i :: 0 <= i < |records| ==> HopsCountable(records[i])
    ensures b <==> (forall i :: 0 <= i < |records| ==> RecordSound(records[i])) && PlansDiffer(records)
  {
    hide RecordSound;
    var seen: seq<nat> := [];
    for i := 0 to |records|
      invariant forall k :: 0 <= k < i ==> RecordSound(records[k])
      invariant |seen| == i && forall k :: 0 <= k < i ==> seen[k] == records[k].issue.plan
      invariant forall j, k :: 0 <= j < k < i ==> records[j].issue.plan != records[k].issue.plan
    {
      if records[i].issue.plan in seen {
        return false;
      }
      seen := seen + [records[i].issue.plan];
      var sound := CheckRecord(records[i]);
      if !sound {
        return false;
      }
    }
    b := true;
  }

  ghost predicate HopsCountable(x: StoredPlan) {
    |x.entries| < U64_RANGE && forall i :: 0 <= i < |x.entries| ==> |x.entries[i].path.hops| < U64_RANGE
  }

  ghost function Payload(publishSequence: u64, records: seq<StoredPlan>): seq<byte> {
    PutU64(publishSequence, PutList(PutStoredPlan, records, []))
  }

  function HeaderOf(count: u64, length: u64): Header {
    Header(MAGIC, PERSISTED_FORMAT_VERSION, PLANNING_RULE_VERSION, PATH_ENCODING_VERSION, count, length)
  }

  /** Header, digest of header and payload, payload. */
  ghost predicate IsImage(image: seq<byte>, publishSequence: u64, records: seq<StoredPlan>) {
    var payload := Payload(publishSequence, records);
    |payload| < U64_RANGE && |records| < U64_RANGE &&
    var header := PutHeader(HeaderOf(|records|, |payload|), []);
    image == header + Hash(header + payload) + payload
  }

  ghost predicate Encodable(records: seq<StoredPlan>, limits: Limits) {
    && |records| <= limits.maxPersistedPlans
    && forall i :: 0 <= i < |records| ==> records[i].issue.plan != 0 && records[i].issue.request != 0 && |records[i].entries| <= limits.maxCandidatesPerRequest
  }

  /** Sixteen frames, computed in 32 bits. */
  function PayloadCeiling(limits: Limits): u32 {
    limits.maxFrameBytes * 16 % U32_RANGE
  }

  /** The ceiling is sixteen frames exactly when the frame limit is not the largest one allowed. */
  lemma CeilingIsSixteenFrames(limits: Limits)
    requires Coherent(limits)
    ensures PayloadCeiling(limits) == 16 * limits.maxFrameBytes <==> limits.maxFrameBytes < LARGEST_FRAME
  {
  }

  /** With the largest frame limit allowed the ceiling wraps to 0 and no record set is ever encoded. */
  lemma NothingEncodesAtLargestFrame(limits: Limits, publishSequence: u64, records: seq<StoredPlan>)
    requires limits.maxFrameBytes == LARGEST_FRAME
    ensures |Payload(publishSequence, records)| > PayloadCeiling(limits)
  {
    hide PutMany, PutStoredPlan;
  }

  method EncodePlanStore(records: seq<StoredPlan>, limits: Limits, publishSequence: u64) returns (image: Option<seq<byte>>)
    ensures image.Some? <==> Coherent(limits) && Encodable(records, limits) && |Payload(publishSequence, records)| <= PayloadCeiling(limits)
    ensures image.Some? ==> IsImage(image.value, publishSequence, records)
  {
    hide PutStoredPlan, Hash, PutHeader, PutList, PutU64;
    var coherent := ValidateLimits(limits);
    if !coherent {
      return None;
    }
    if |records| > limits.maxPersistedPlans {
      return None;
    }
    for i := 0 to |records|
      invariant forall k :: 0 <= k < i ==> records[k].issue.plan != 0 && records[k].issue.request != 0 && |records[k].entries| <= limits.maxCandidatesPerRequest
    {
      if records[i].issue.plan == 0 || records[i].issue.request == 0 || |records[i].entries| > limits.maxCandidatesPerRequest {
        return None;
      }
    }
    var payload := new ByteWriter(PayloadCeiling(limits));
    WriteU64(payload, publishSequence);
    WriteStoredPlanList(payload, records);
    assert Sent([], false, Payload(publishSequence, records), payload.data, payload.overflowed, [], payload.ceiling);
    if payload.overflowed {
      assert |Payload(publishSequence, records)| > payload.ceiling;
      return None;
    }
    assert payload.data == Payload(publishSequence, records) by {
      assert [] + Payload(publishSequence, records) == Payload(publishSequence, records) && payload.data + [] == payload.data;
    }
    var header := new ByteWriter(36);
    WriteHeader(header, HeaderOf(|records|, |payload.data|));
    HeaderLength(HeaderOf(|records|, |payload.data|), []);
    WriterDone(header, PutHeader(HeaderOf(|records|, |payload.data|), []));
    var digest := HashBoth(header.data, payload.data);
    image := Some(header.data + digest + payload.data);
  }

  /** Two updates, one digest. */
  method HashBoth(x: seq<byte>, y: seq<byte>) returns (digest: seq<byte>)
    ensures digest == Hash(x + y)
  {
    hide Hash;
    digest := HashChunks([x, y]);
    assert Joined([x, y]) == x + y by {
      assert [x][..0] == [] && [] + x == x;
      assert Joined([x]) == x;
      assert [x, y][..1] == [x];
    }
  }

  /** What the strict reader makes of an image. */
  ghost function ParseImage(image: seq<byte>, limits: Limits): Option<(u64, seq<StoredPlan>)> {
    if |image| < 68 then None else
      var header := GetHeader(image[..36]);
      if header.Bad? || header.value != HeaderOf(header.value.recordCount, header.value.payloadLength)
        || header.value.recordCount > limits.maxPersistedPlans || |image| != 68 + header.value.payloadLength
        || image[36..68] != Hash(image[..36] + image[68..]) then None
      else ParsePayload(image[68..], header.value.recordCount, limits)
  }

  ghost function ParsePayload(payload: seq<byte>, count: u64, limits: Limits): Option<(u64, seq<StoredPlan>)> {
    var sequence := GetU64(payload);
    if sequence.Bad? then None else
      var records := GetStoredPlanList(sequence.rest, limits);
      if records.Bad? || |records.value| != count || records.rest != []
        || !(forall i :: 0 <= i < |records.value| ==> RecordSound(records.value[i])) || !PlansDiffer(records.value) then None
      else Some((sequence.value, records.value))
  }

  method DecodePayload(payload: seq<byte>, count: u64, limits: Limits) returns (records: Option<seq<StoredPlan>>)
    ensures match ParsePayload(payload, count, limits) case None => records == None case Some(p) => records == Some(p.1)
  {
    hide GetU64, GetStoredPlanList, RecordSound, PlansDiffer, HopsCountable;
    var r := new ByteReader(payload);
    var sequence :- ReadU64(r);
    ghost var rest := r.Rest();
    var list :- ReadStoredPlanList(r, limits);
    if |list| != count {
      return None;
    }
    ReadCountable(rest, limits);
    var sound := CheckRecords(list);
    if !sound {
      return None;
    }
    var end := r.AtEnd();
    if !end {
      return None;
    }
    records := Some(list);
  }

  /** Every record read satisfies what its own fields must. */
  lemma ReadOk(s: seq<byte>, limits: Limits)
    requires GetStoredPlanList(s, limits).Good?
    ensures |GetStoredPlanList(s, limits).value| <= limits.maxPersistedPlans
    ensures forall i :: 0 <= i < |GetStoredPlanList(s, limits).value| ==> OkStoredPlan(GetStoredPlanList(s, limits).value[i], limits)
  {
    hide GetStoredPlan, OkStoredPlan;
    forall t: seq<byte> | GetStoredPlan(t, limits).Good? ensures OkStoredPlan(GetStoredPlan(t, limits).value, limits) {
      RecordIsOk(t, limits);
    }
    ManyKeep(StoredPlanReader(limits), GetCount(s).rest, GetCount(s).value, x => OkStoredPlan(x, limits));
  }

  lemma ReadCountable(s: seq<byte>, limits: Limits)
    requires GetStoredPlanList(s, limits).Good?
    ensures forall i :: 0 <= i < |GetStoredPlanList(s, limits).value| ==> HopsCountable(GetStoredPlanList(s, limits).value[i])
  {
    hide GetStoredPlanList;
    ReadOk(s, limits);
    hide WellFormed, Distinct, Restored, OkIssue, OkBasis, OkSpan, OkEvidence, OkCost;
    var list := GetStoredPlanList(s, limits).value;
    forall i | 0 <= i < |list| ensures HopsCountable(list[i]) {
      assert OkStoredPlan(list[i], limits);
      forall k | 0 <= k < |list[i].entries| ensures |list[i].entries[k].path.hops| < U64_RANGE {
        assert OkEntry(list[i].entries[k], limits);
      }
    }
  }

  lemma {:induction false} ManyKeep<T>(get: seq<byte> -> Parse<T>, s: seq<byte>, count: nat, p: T -> bool)
    requires GetMany(get, s, count).Good? && forall t: seq<byte> :: get(t).Good? ==> p(get(t).value)
    ensures |GetMany(get, s, count).value| == count
    ensures forall i :: 0 <= i < count ==> p(GetMany(get, s, count).value[i])
    decreases count
  {
    if count > 0 {
      ManyKeep(get, get(s).rest, count - 1, p);
    }
  }

  lemma RecordIsOk(s: seq<byte>, limits: Limits)
    requires GetStoredPlan(s, limits).Good?
    ensures OkStoredPlan(GetStoredPlan(s, limits).value, limits)
  {
    hide GetEntryList, GetAny32, OkEntry;
    var issue := GetIssue(s);
    var basis := GetBasis(issue.rest);
    var span := GetSpan(basis.rest);
    var evidence := GetEvidence(span.rest);
    var digest := GetAny32(evidence.rest);
    EntriesAreOk(digest.rest, limits);
  }

  lemma EntriesAreOk(s: seq<byte>, limits: Limits)
    requires GetEntryList(s, limits).Good?
    ensures |GetEntryList(s, limits).value| <= limits.maxCandidatesPerRequest
    ensures forall i :: 0 <= i < |GetEntryList(s, limits).value| ==> OkEntry(GetEntryList(s, limits).value[i], limits)
  {
    hide GetEntry, OkEntry;
    forall t: seq<byte> | GetEntry(t, limits).Good? ensures OkEntry(GetEntry(t, limits).value, limits) {
      EntryIsOk(t, limits);
    }
    ManyKeep(EntryReader(limits), GetCount(s).rest, GetCount(s).value, x => OkEntry(x, limits));
  }

  lemma EntryIsOk(s: seq<byte>, limits: Limits)
    requires GetEntry(s, limits).Good?
    ensures OkEntry(GetEntry(s, limits).value, limits)
  {
    hide GetPathRecord, GetCostRecord, WellFormed, Distinct, OkPathRecord, GetU32;
    var version := GetU32(s);
    PathRecordIsOk(version.rest, limits);
  }

  lemma PathRecordIsOk(s: seq<byte>, limits: Limits)
    requires GetPathRecord(s, limits).Good?
    ensures OkPathRecord(GetPathRecord(s, limits).value, limits)
  {
    hide GetHopRecordList, OkHopRecord;
    var source := GetId16(s);
    var destination := GetId16(source.rest);
    var layer := GetEnum(destination.rest, 4);
    HopsAreOk(layer.rest, limits);
  }

  lemma HopsAreOk(s: seq<byte>, limits: Limits)
    requires GetHopRecordList(s, limits).Good?
    ensures |GetHopRecordList(s, limits).value| <= limits.maxHops
    ensures forall i :: 0 <= i < |GetHopRecordList(s, limits).value| ==> OkHopRecord(GetHopRecordList(s, limits).value[i])
  {
    hide GetHopRecord, OkHopRecord;
    forall t: seq<byte> | GetHopRecord(t).Good? ensures OkHopRecord(GetHopRecord(t).value) {
      HopIsOk(t);
    }
    ManyKeep(GetHopRecord, GetCount(s).rest, GetCount(s).value, x => OkHopRecord(x));
  }

  lemma HopIsOk(s: seq<byte>)
    requires GetHopRecord(s).Good?
    ensures OkHopRecord(GetHopRecord(s).value)
  {
    hide GetAny16, GetU32, GetU64;
  }

  method DecodePlanStore(image: seq<byte>, limits: Limits) returns (records: Option<seq<StoredPlan>>)
    ensures forall rs: seq<StoredPlan> :: records == Some(rs) <==> StoreOk(rs, limits) && exists ps: u64 :: IsImage(image, ps, rs)
  {
    hide GetHeader, Hash, ParsePayload, StoreOk, IsImage;
    ImageExact(image, limits);
    if |image| < 68 {
      return None;
    }
    var r := new ByteReader(image[..36]);
    var header :- ReadHeader(r);
    if header.magic != MAGIC {
      return None;
    }
    if header.formatVersion != PERSISTED_FORMAT_VERSION {
      return None;
    }
    if header.ruleVersion != PLANNING_RULE_VERSION || header.encodingVersion != PATH_ENCODING_VERSION {
      return None;
    }
    if header.recordCount > limits.maxPersistedPlans {
      return None;
    }
    if |image| < 68 + header.payloadLength {
      return None;
    }
    if |image| > 68 + header.payloadLength {
      return None;
    }
    var expected := HashBoth(image[..36], image[68..]);
    if image[36..68] != expected {
      return None;
    }
    records := DecodePayload(image[68..], header.recordCount, limits);
  }

  /** Every image of a record set a store can hold parses to it, and nothing else parses. */
  lemma ImageExact(image: seq<byte>, limits: Limits)
    ensures forall ps: u64, rs: seq<StoredPlan> :: ParseImage(image, limits) == Some((ps, rs)) <==> StoreOk(rs, limits) && IsImage(image, ps, rs)
  {
    hide ParseImage, StoreOk, IsImage;
    forall ps: u64, rs: seq<StoredPlan>
      ensures ParseImage(image, limits) == Some((ps, rs)) <==> StoreOk(rs, limits) && IsImage(image, ps, rs)
    {
      if StoreOk(rs, limits) && IsImage(image, ps, rs) {
        ImageParses(image, limits, ps, rs);
      }
      if ParseImage(image, limits) == Some((ps, rs)) {
        ParsedIsImage(image, limits, ps, rs);
      }
    }
  }

  lemma ImageParses(image: seq<byte>, limits: Limits, ps: u64, rs: seq<StoredPlan>)
    requires StoreOk(rs, limits) && IsImage(image, ps, rs)
    ensures ParseImage(image, limits) == Some((ps, rs))
  {
    hide Hash, ParsePayload, PutHeader, GetHeader, StoreOk;
    var payload := Payload(ps, rs);
    var h := HeaderOf(|rs|, |payload|);
    var header := PutHeader(h, []);
    HeaderLength(h, []);
    HashLength(header + payload);
    assert image[..36] == header && image[68..] == payload && image[36..68] == Hash(header + payload);
    HeaderRound(h, []);
    StoreCount(rs, limits);
    PayloadParses(limits, ps, rs);
  }

  lemma StoreCount(rs: seq<StoredPlan>, limits: Limits)
    requires StoreOk(rs, limits)
    ensures |rs| <= limits.maxPersistedPlans
  {
    hide OkStoredPlan, RecordSound, PlansDiffer;
  }

  lemma PayloadParses(limits: Limits, ps: u64, rs: seq<StoredPlan>)
    requires StoreOk(rs, limits)
    ensures |rs| < U64_RANGE && ParsePayload(Payload(ps, rs), |rs|, limits) == Some((ps, rs))
  {
    hide OkStoredPlan, RecordSound, PlansDiffer, GetU64, PutU64, GetStoredPlanList, PutList;
    FieldsRound();
    StoredPlanListRound(rs, limits);
  }

  lemma ParsedIsImage(image: seq<byte>, limits: Limits, ps: u64, rs: seq<StoredPlan>)
    requires ParseImage(image, limits) == Some((ps, rs))
    ensures StoreOk(rs, limits) && IsImage(image, ps, rs)
  {
    hide Hash, ParsePayload, PutHeader, GetHeader, StoreOk, Payload;
    var h := GetHeader(image[..36]);
    PayloadBack(image[68..], h.value.recordCount, limits, ps, rs);
    HeaderOnly(image[..36]);
    assert image == image[..36] + image[36..68] + image[68..];
  }

  lemma HeaderOnly(s: seq<byte>)
    requires |s| == 36 && GetHeader(s).Good?
    ensures s == PutHeader(GetHeader(s).value, [])
  {
    hide PutHeader, GetHeader;
    HeaderBack(s);
    HeaderLength(GetHeader(s).value, GetHeader(s).rest);
    assert GetHeader(s).rest == [];
  }

  lemma PayloadBack(payload: seq<byte>, count: u64, limits: Limits, ps: u64, rs: seq<StoredPlan>)
    requires ParsePayload(payload, count, limits) == Some((ps, rs))
    ensures StoreOk(rs, limits) && payload == Payload(ps, rs) && |rs| == count
  {
    hide OkStoredPlan, RecordSound, PlansDiffer, GetU64, PutU64, GetStoredPlanList, PutList;
    FieldsBack();
    var sequence := GetU64(payload);
    StoredPlanListBack(limits);
    ReadOk(sequence.rest, limits);
  }

  /** One image is not the image of two different record sets. */
  lemma ImageTells(image: seq<byte>, ps: u64, rs: seq<StoredPlan>, ps': u64, rs': seq<StoredPlan>)
    requires IsImage(image, ps, rs) && IsImage(image, ps', rs')
    ensures rs == rs'
  {
    hide Hash, PutHeader, PutList, PutU64, Payload;
    var x, y := Payload(ps, rs), Payload(ps', rs');
    ImagePayload(image, ps, rs);
    ImagePayload(image, ps', rs');
    PayloadTells(ps, rs, ps', rs');
  }

  lemma ImagePayload(image: seq<byte>, ps: u64, rs: seq<StoredPlan>)
    requires IsImage(image, ps, rs)
    ensures |image| >= 68 && image[68..] == Payload(ps, rs)
  {
    hide Hash, PutHeader, Payload;
    var payload := Payload(ps, rs);
    var header := PutHeader(HeaderOf(|rs|, |payload|), []);
    HeaderLength(HeaderOf(|rs|, |payload|), []);
    HashLength(header + payload);
  }

  lemma PayloadTells(ps: u64, rs: seq<StoredPlan>, ps': u64, rs': seq<StoredPlan>)
    requires Payload(ps, rs) == Payload(ps', rs')
    ensures rs == rs'
  {
    hide PutU64, PutList;
    FieldsSame();
    StoredPlanListSame(rs, rs', [], []);
  }

  /** A set that a store cannot hold is refused. */
  lemma RefusesTheRest(image: seq<byte>, ps: u64, records: seq<StoredPlan>, limits: Limits)
    requires IsImage(image, ps, records) && !StoreOk(records, limits)
    ensures ParseImage(image, limits) == None
  {
    hide StoreOk, IsImage, ParseImage;
    ImageExact(image, limits);
    if ParseImage(image, limits).Some? {
      var p := ParseImage(image, limits).value;
      ImageTells(image, ps, records, p.0, p.1);
    }
  }

  /** Whatever is saved loads back as it was when a store can hold it, and not at all when not. */
  method SaveAndLoad(records: seq<StoredPlan>, limits: Limits, publishSequence: u64) returns (saved: bool, loaded: Option<seq<StoredPlan>>)
    ensures saved <==> Coherent(limits) && Encodable(records, limits) && |Payload(publishSequence, records)| <= PayloadCeiling(limits)
    ensures saved && StoreOk(records, limits) ==> loaded == Some(records)
    ensures saved && !StoreOk(records, limits) ==> loaded == None
    ensures !saved ==> loaded == None
  {
    hide StoreOk, IsImage, Payload, Encodable, PayloadCeiling, Coherent;
    var image := EncodePlanStore(records, limits, publishSequence);
    saved, loaded := image.Some?, None;
    if saved {
      loaded := DecodePlanStore(image.value, limits);
      if loaded.Some? {
        ghost var ps: u64 :| IsImage(image.value, ps, loaded.value);
        ImageTells(image.value, publishSequence, records, ps, loaded.value);
      }
    }
  }
}
