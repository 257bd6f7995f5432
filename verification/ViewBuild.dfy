/** Construction of the eligible view: filter, sort, prefix sums (src/planning_view.cpp, BuildPlanningView). */
module ViewBuild {
  import opened Values
  import opened Wrappers
  import opened Counting
  import opened Sorting
  import opened View
  import opened Domains
  import opened Fabric
  import opened Eligibility

  datatype Pending = Pending(from: nat, entry: Adjacency)

  /** An adjacency entry leaving view node u stands for edge e. */
  ghost predicate Represents(s: Snapshot, r: Rules, nodeIds: seq<id16>, u: nat, x: Adjacency, e: Edge) {
    && u < |nodeIds| && nodeIds[u] == e.from && x.to < |nodeIds| && nodeIds[x.to] == e.to
    && x == Adjacency(x.to, e.id, e.staticCost, s.LinkStateOf(e.id) == LinkState.Degraded, Outside(r, e), TraversalCost(s, r, e))
  }

  ghost predicate StandsFor(s: Snapshot, r: Rules, nodeIds: seq<id16>, u: nat, x: Adjacency, i: nat) {
    i < |s.edges| && EdgeEligible(s, r, s.edges[i]) && Represents(s, r, nodeIds, u, x, s.edges[i])
  }

  /** View index order is identity order, over exactly the eligible nodes. */
  ghost predicate NodesIndexed(s: Snapshot, r: Rules, nodeIds: seq<id16>) {
    StrictlyAscending(nodeIds) && forall id: id16 :: id in nodeIds <==> NodeEligible(s, r, id)
  }

  ghost predicate SlotIs(nodeIds: seq<id16>, id: id16, slot: Option<nat>) {
    match slot
    case Some(u) => u < |nodeIds| && nodeIds[u] == id
    case None => id !in nodeIds
  }

  method IndexNodes(s: Snapshot, r: Rules) returns (nodeIds: seq<id16>, slots: seq<Option<nat>>)
    requires s.Valid()
    ensures NodesIndexed(s, r, nodeIds) && |nodeIds| <= |s.nodes| && |slots| == |s.nodes|
    ensures forall k :: 0 <= k < |s.nodes| ==> SlotIs(nodeIds, s.nodes[k], slots[k])
  {
    hide NodeEligible, Snapshot.Valid;
    nodeIds, slots := [], [];
    NodesAscending(s);
    for i := 0 to |s.nodes|
      invariant |slots| == i && |nodeIds| <= i && StrictlyAscending(nodeIds)
      invariant forall id: id16 :: id in nodeIds <==> id in s.nodes[..i] && NodeEligible(s, r, id)
      invariant forall k :: 0 <= k < i ==> SlotIs(nodeIds, s.nodes[k], slots[k])
    {
      var failure := EvaluateNode(s, r, s.nodes[i]);
      forall k | 0 <= k < |nodeIds| ensures nodeIds[k] < s.nodes[i] {
        assert nodeIds[k] in s.nodes[..i];
      }
      assert s.nodes[..i + 1] == s.nodes[..i] + [s.nodes[i]];
      if failure.None? {
        slots := slots + [Some(|nodeIds|)];
        nodeIds := nodeIds + [s.nodes[i]];
      } else {
        slots := slots + [None];
      }
    }
    assert s.nodes[..|s.nodes|] == s.nodes;
    EligibleListed(s, r);
  }

  lemma NodesAscending(s: Snapshot)
    requires s.Valid()
    ensures StrictlyAscending(s.nodes)
  {
  }

  lemma EligibleListed(s: Snapshot, r: Rules)
    ensures forall id: id16 :: NodeEligible(s, r, id) ==> id in s.nodes
  {
    hide DomainsAllowed, Satisfied;
  }

  /** The position of an identity among the eligible nodes, through the snapshot's own index. */
  method SlotOf(s: Snapshot, r: Rules, nodeIds: seq<id16>, slots: seq<Option<nat>>, id: id16) returns (slot: Option<nat>)
    requires s.Valid() && NodesIndexed(s, r, nodeIds) && |slots| == |s.nodes|
    requires forall k :: 0 <= k < |s.nodes| ==> SlotIs(nodeIds, s.nodes[k], slots[k])
    ensures SlotIs(nodeIds, id, slot)
  {
    hide NodeEligible;
    var k := FindNode(s, id);
    if k.None? {
      EligibleListed(s, r);
      return None;
    }
    slot := slots[k.value];
  }

  /** The pending entries are the eligible edges among the first n, in edge order. */
  ghost predicate Collected(s: Snapshot, r: Rules, nodeIds: seq<id16>, n: nat, pending: seq<Pending>) {
    && n <= |s.edges|
    && (forall k :: 0 <= k < |pending| ==> FromSome(s, r, nodeIds, n, pending[k]))
    && (forall i: nat :: i < n && EdgeEligible(s, r, s.edges[i]) ==> InSome(s, r, nodeIds, pending, i))
    && (forall j, k :: 0 <= j < k < |pending| ==> pending[j].entry.link < pending[k].entry.link)
  }

  ghost predicate FromSome(s: Snapshot, r: Rules, nodeIds: seq<id16>, n: nat, p: Pending) {
    exists i: nat :: i < n && StandsFor(s, r, nodeIds, p.from, p.entry, i)
  }

  ghost predicate InSome(s: Snapshot, r: Rules, nodeIds: seq<id16>, pending: seq<Pending>, i: nat) {
    exists k: nat :: k < |pending| && StandsFor(s, r, nodeIds, pending[k].from, pending[k].entry, i)
  }

  lemma CollectStep(s: Snapshot, r: Rules, nodeIds: seq<id16>, n: nat, pending: seq<Pending>, p: Option<Pending>)
    requires s.Valid() && n < |s.edges| && Collected(s, r, nodeIds, n, pending)
    requires p.Some? <==> EdgeEligible(s, r, s.edges[n])
    requires p.Some? ==> Represents(s, r, nodeIds, p.value.from, p.value.entry, s.edges[n])
    ensures Collected(s, r, nodeIds, n + 1, if p.Some? then pending + [p.value] else pending)
  {
    hide EdgeEligible, Represents, Snapshot.Valid, FromSome, InSome;
    FromStep(s, r, nodeIds, n, pending);
    InStep(s, r, nodeIds, n, pending, p);
    if p.Some? {
      assert StandsFor(s, r, nodeIds, p.value.from, p.value.entry, n);
      NewFrom(s, r, nodeIds, n, p.value);
      LinkStep(s, r, nodeIds, n, pending, p.value);
    }
  }

  lemma NewFrom(s: Snapshot, r: Rules, nodeIds: seq<id16>, n: nat, p: Pending)
    requires StandsFor(s, r, nodeIds, p.from, p.entry, n)
    ensures FromSome(s, r, nodeIds, n + 1, p)
  {
    hide EdgeEligible, Represents;
  }

  lemma FromStep(s: Snapshot, r: Rules, nodeIds: seq<id16>, n: nat, pending: seq<Pending>)
    requires forall k :: 0 <= k < |pending| ==> FromSome(s, r, nodeIds, n, pending[k])
    ensures forall k :: 0 <= k < |pending| ==> FromSome(s, r, nodeIds, n + 1, pending[k])
  {
    hide StandsFor;
    forall k | 0 <= k < |pending| ensures FromSome(s, r, nodeIds, n + 1, pending[k]) {
      assert FromSome(s, r, nodeIds, n, pending[k]);
    }
  }

  lemma InStep(s: Snapshot, r: Rules, nodeIds: seq<id16>, n: nat, pending: seq<Pending>, p: Option<Pending>)
    requires n < |s.edges| && (p.Some? <==> EdgeEligible(s, r, s.edges[n]))
    requires p.Some? ==> StandsFor(s, r, nodeIds, p.value.from, p.value.entry, n)
    requires forall i: nat :: i < n && EdgeEligible(s, r, s.edges[i]) ==> InSome(s, r, nodeIds, pending, i)
    ensures forall i: nat :: i < n + 1 && EdgeEligible(s, r, s.edges[i]) ==> InSome(s, r, nodeIds, if p.Some? then pending + [p.value] else pending, i)
  {
    hide StandsFor, EdgeEligible;
    var more := if p.Some? then pending + [p.value] else pending;
    forall i: nat | i < n + 1 && EdgeEligible(s, r, s.edges[i]) ensures InSome(s, r, nodeIds, more, i) {
      if i < n {
        assert InSome(s, r, nodeIds, pending, i);
        var k: nat :| k < |pending| && StandsFor(s, r, nodeIds, pending[k].from, pending[k].entry, i);
        assert more[k] == pending[k];
      } else {
        assert more[|pending|] == p.value;
      }
    }
  }

  lemma LinkStep(s: Snapshot, r: Rules, nodeIds: seq<id16>, n: nat, pending: seq<Pending>, p: Pending)
    requires s.Valid() && n < |s.edges| && StandsFor(s, r, nodeIds, p.from, p.entry, n)
    requires forall k :: 0 <= k < |pending| ==> FromSome(s, r, nodeIds, n, pending[k])
    ensures forall k :: 0 <= k < |pending| ==> pending[k].entry.link < p.entry.link
  {
    hide EdgeEligible, Snapshot.Valid, Represents;
    LinkOrder(s);
    RepresentsLink(s, r, nodeIds, p.from, p.entry, s.edges[n]);
    forall k | 0 <= k < |pending| ensures pending[k].entry.link < p.entry.link {
      assert FromSome(s, r, nodeIds, n, pending[k]);
      var i: nat :| i < n && StandsFor(s, r, nodeIds, pending[k].from, pending[k].entry, i);
      RepresentsLink(s, r, nodeIds, pending[k].from, pending[k].entry, s.edges[i]);
    }
  }

  lemma LinkOrder(s: Snapshot)
    requires s.Valid()
    ensures forall i, j :: 0 <= i < j < |s.edges| ==> s.edges[i].id < s.edges[j].id
  {
  }

  lemma RepresentsLink(s: Snapshot, r: Rules, nodeIds: seq<id16>, u: nat, x: Adjacency, e: Edge)
    requires Represents(s, r, nodeIds, u, x, e)
    ensures x.link == e.id
  {
  }

  lemma EdgeFacts(s: Snapshot, i: nat)
    requires s.Valid() && i < |s.edges|
    ensures s.edges[i].from in s.nodes && s.edges[i].to in s.nodes && s.edges[i].staticCost <= MAX_COST
  {
  }

  method CollectEdges(s: Snapshot, r: Rules, nodeIds: seq<id16>, slots: seq<Option<nat>>) returns (pending: seq<Pending>)
    requires s.Valid() && NodesIndexed(s, r, nodeIds) && |slots| == |s.nodes|
    requires forall k :: 0 <= k < |s.nodes| ==> SlotIs(nodeIds, s.nodes[k], slots[k])
    ensures Collected(s, r, nodeIds, |s.edges|, pending)
  {
    hide NodeEligible, EdgeEligible, Snapshot.Valid, Collected, TraversalCost, Outside, Snapshot.LinkStateOf;
    pending := [];
    NoneCollected(s, r, nodeIds);
    for i := 0 to |s.edges|
      invariant Collected(s, r, nodeIds, i, pending)
    {
      var e := s.edges[i];
      EdgeFacts(s, i);
      var from := SlotOf(s, r, nodeIds, slots, e.from);
      var to := SlotOf(s, r, nodeIds, slots, e.to);
      var priced := EvaluateEdge(s, r, e, from.Some? && to.Some?);
      EdgeEnds(s, r, e);
      ghost var p: Option<Pending> := None;
      ghost var before := pending;
      if priced.Some? {
        var one := Pending(from.value, Adjacency(to.value, e.id, e.staticCost, priced.value.degraded, priced.value.outside, priced.value.cost));
        p := Some(one);
        pending := pending + [one];
      }
      CollectStep(s, r, nodeIds, i, before, p);
    }
  }

  lemma EdgeEnds(s: Snapshot, r: Rules, e: Edge)
    ensures EdgeEligible(s, r, e) ==> NodeEligible(s, r, e.from) && NodeEligible(s, r, e.to)
  {
    hide NodeEligible, DomainsAllowed, RequirementKept;
  }

  lemma NoneCollected(s: Snapshot, r: Rules, nodeIds: seq<id16>)
    ensures Collected(s, r, nodeIds, 0, [])
  {
  }

  /** The order of the pending entries: source index, destination identity, link identity. */
  predicate Less(nodeIds: seq<id16>, x: Pending, y: Pending)
    requires x.entry.to < |nodeIds| && y.entry.to < |nodeIds|
  {
    if x.from != y.from then x.from < y.from
    else if nodeIds[x.entry.to] != nodeIds[y.entry.to] then nodeIds[x.entry.to] < nodeIds[y.entry.to]
    else x.entry.link < y.entry.link
  }

  ghost predicate InRange(nodeIds: seq<id16>, s: seq<Pending>) {
    forall k :: 0 <= k < |s| ==> s[k].entry.to < |nodeIds|
  }

  ghost predicate Ordered(nodeIds: seq<id16>, s: seq<Pending>) {
    InRange(nodeIds, s) && forall j, k :: 0 <= j < k < |s| ==> Less(nodeIds, s[j], s[k])
  }

  function Insert(nodeIds: seq<id16>, x: Pending, s: seq<Pending>): (r: seq<Pending>)
    requires x.entry.to < |nodeIds| && InRange(nodeIds, s)
    ensures InRange(nodeIds, r) && |r| == |s| + 1
  {
    if s == [] || Less(nodeIds, x, s[0]) then [x] + s else [s[0]] + Insert(nodeIds, x, s[1..])
  }

  /** std::sort with the comparison above. */
  function SortPending(nodeIds: seq<id16>, s: seq<Pending>): (r: seq<Pending>)
    requires InRange(nodeIds, s)
    ensures InRange(nodeIds, r) && |r| == |s|
  {
    if s == [] then [] else Insert(nodeIds, s[0], SortPending(nodeIds, s[1..]))
  }

  lemma {:induction false} InsertKeeps(nodeIds: seq<id16>, x: Pending, s: seq<Pending>)
    requires x.entry.to < |nodeIds| && InRange(nodeIds, s)
    ensures multiset(Insert(nodeIds, x, s)) == multiset(s) + multiset{x}
  {
    if s != [] && !Less(nodeIds, x, s[0]) {
      InsertKeeps(nodeIds, x, s[1..]);
      assert s == [s[0]] + s[1..];
    }
  }

  lemma {:induction false} SortKeeps(nodeIds: seq<id16>, s: seq<Pending>)
    requires InRange(nodeIds, s)
    ensures multiset(SortPending(nodeIds, s)) == multiset(s)
  {
    if s != [] {
      SortKeeps(nodeIds, s[1..]);
      InsertKeeps(nodeIds, s[0], SortPending(nodeIds, s[1..]));
      assert s == [s[0]] + s[1..];
    }
  }

  lemma {:induction false} InsertOrdered(nodeIds: seq<id16>, x: Pending, s: seq<Pending>)
    requires x.entry.to < |nodeIds| && Ordered(nodeIds, s) && forall k :: 0 <= k < |s| ==> s[k].entry.link != x.entry.link
    ensures Ordered(nodeIds, Insert(nodeIds, x, s))
  {
    if s != [] && !Less(nodeIds, x, s[0]) {
      InsertOrdered(nodeIds, x, s[1..]);
      InsertKeeps(nodeIds, x, s[1..]);
      var t := Insert(nodeIds, x, s[1..]);
      assert s[0].entry.link != x.entry.link && Less(nodeIds, s[0], x);
      forall k | 0 <= k < |t| ensures Less(nodeIds, s[0], t[k]) {
        assert t[k] in multiset(t);
        assert t[k] == x || t[k] in s[1..];
      }
    }
  }

  lemma {:induction false} SortOrdered(nodeIds: seq<id16>, s: seq<Pending>)
    requires InRange(nodeIds, s) && forall j, k :: 0 <= j < k < |s| ==> s[j].entry.link < s[k].entry.link
    ensures Ordered(nodeIds, SortPending(nodeIds, s))
  {
    if s != [] {
      SortOrdered(nodeIds, s[1..]);
      SortKeeps(nodeIds, s[1..]);
      var t := SortPending(nodeIds, s[1..]);
      forall k | 0 <= k < |t| ensures t[k].entry.link != s[0].entry.link {
        assert t[k] in multiset(t);
        assert t[k] in s[1..];
      }
      InsertOrdered(nodeIds, s[0], t);
    }
  }

  /** Entries leaving node u. */
  function CountAt(s: seq<Pending>, u: nat): nat {
    if s == [] then 0 else CountAt(s[..|s| - 1], u) + (if s[|s| - 1].from == u then 1 else 0)
  }

  /** Entries leaving nodes below u. */
  ghost function CountBelow(s: seq<Pending>, u: nat): nat {
    if s == [] then 0 else CountBelow(s[..|s| - 1], u) + (if s[|s| - 1].from < u then 1 else 0)
  }

  lemma {:induction false} CountBelowStep(s: seq<Pending>, u: nat)
    ensures CountBelow(s, 0) == 0 && CountBelow(s, u + 1) == CountBelow(s, u) + CountAt(s, u) <= |s|
  {
    if s != [] {
      CountBelowStep(s[..|s| - 1], u);
    }
  }

  /** In a list ordered by source, the entries below u are its first CountBelow(u) entries. */
  lemma {:induction false} Boundary(s: seq<Pending>, u: nat)
    requires forall j, k :: 0 <= j < k < |s| ==> s[j].from <= s[k].from
    ensures CountBelow(s, u) <= |s|
    ensures forall a :: 0 <= a < |s| ==> (a < CountBelow(s, u) <==> s[a].from < u)
  {
    if s != [] {
      var n := |s| - 1;
      Boundary(s[..n], u);
      assert forall a :: 0 <= a < n ==> s[..n][a] == s[a];
    }
  }

  /** Counts per source node, then prefix sums, in place. */
  method CountOffsets(n: nat, pending: seq<Pending>) returns (offsets: array<nat>)
    requires forall k :: 0 <= k < |pending| ==> pending[k].from < n
    ensures offsets.Length == n + 1 && forall u: nat :: u <= n ==> offsets[u] == CountBelow(pending, u)
  {
    offsets := new nat[n + 1](i => 0);
    for k := 0 to |pending|
      invariant offsets[0] == 0 && forall u :: 0 <= u < n ==> offsets[u + 1] == CountAt(pending[..k], u)
    {
      assert pending[..k + 1][..k] == pending[..k];
      offsets[pending[k].from + 1] := offsets[pending[k].from + 1] + 1;
    }
    assert pending[..|pending|] == pending;
    CountBelowStep(pending, 0);
    for i := 0 to n
      invariant forall u: nat :: u <= i ==> offsets[u] == CountBelow(pending, u)
      invariant forall u :: i <= u < n ==> offsets[u + 1] == CountAt(pending, u)
    {
      CountBelowStep(pending, i);
      offsets[i + 1] := offsets[i + 1] + offsets[i];
    }
  }

  /** The view holds exactly the eligible edges, each in the slice of its source node, each once. */
  ghost predicate Exact(s: Snapshot, r: Rules, v: View) {
    && NodesIndexed(s, r, v.nodeIds)
    && (forall u: nat, a: nat :: v.InSlice(u, a) ==> a < |v.adjacency| && exists i: nat :: StandsFor(s, r, v.nodeIds, u, v.adjacency[a], i))
    && (forall i: nat :: i < |s.edges| && EdgeEligible(s, r, s.edges[i]) ==> Placed(s, r, v, i))
    && (forall a, b :: 0 <= a < |v.adjacency| && 0 <= b < |v.adjacency| && v.adjacency[a].link == v.adjacency[b].link ==> a == b)
  }

  ghost predicate Placed(s: Snapshot, r: Rules, v: View, i: nat) {
    exists u: nat, a: nat :: v.InSlice(u, a) && a < |v.adjacency| && StandsFor(s, r, v.nodeIds, u, v.adjacency[a], i)
  }

  datatype Fatal = GraphTooLarge | SourceExcluded(code: Code) | DestinationExcluded(code: Code) | EndCapability(code: Code)

  ghost function EligibleNodes(s: Snapshot, r: Rules): set<id16> {
    set id | id in s.nodes && NodeEligible(s, r, id)
  }

  /** The code reported for an excluded end; an identity the snapshot does not know counts as forbidden. */
  ghost function ExclusionCode(s: Snapshot, r: Rules, id: id16): Code {
    if id in s.nodes && NodeFailure(s, r, id).Some? then NodeFailure(s, r, id).value else ForbiddenNode
  }

  function OnEnds(source: id16, destination: id16): Requirement -> Option<nat> {
    (q: Requirement) => if q.scope == SOURCE_NODE then Some(ForNode(source)) else if q.scope == DESTINATION_NODE then Some(ForNode(destination)) else None
  }

  /** The one finding that stops a build, if there is one. */
  ghost function FatalOf(s: Snapshot, r: Rules, maxNodes: nat, source: id16, destination: id16): Option<Fatal> {
    if |EligibleNodes(s, r)| > maxNodes then Some(GraphTooLarge)
    else if !NodeEligible(s, r, source) then Some(SourceExcluded(ExclusionCode(s, r, source)))
    else if !NodeEligible(s, r, destination) then Some(DestinationExcluded(ExclusionCode(s, r, destination)))
    else match FirstCapabilityFailure(s, r.requirements, OnEnds(source, destination))
      case Some(code) => Some(EndCapability(code))
      case None => None
  }

  datatype Build = Build(view: View, fatal: Option<Fatal>, source: Option<nat>, destination: Option<nat>)

  function Entries(pending: seq<Pending>): seq<Adjacency> {
    seq(|pending|, k requires 0 <= k < |pending| => pending[k].entry)
  }

  lemma CollectedFrom(s: Snapshot, r: Rules, nodeIds: seq<id16>, pending: seq<Pending>)
    requires Collected(s, r, nodeIds, |s.edges|, pending)
    ensures InRange(nodeIds, pending) && forall k :: 0 <= k < |pending| ==> pending[k].from < |nodeIds|
    ensures forall j, k :: 0 <= j < k < |pending| ==> pending[j].entry.link < pending[k].entry.link
  {
    hide EdgeEligible, TraversalCost;
    forall k | 0 <= k < |pending| ensures pending[k].from < |nodeIds| && pending[k].entry.to < |nodeIds| {
      assert FromSome(s, r, nodeIds, |s.edges|, pending[k]);
    }
  }

  /** The finished view: ordered entries cut at the offsets. */
  ghost predicate Cut(nodeIds: seq<id16>, sorted: seq<Pending>, v: View) {
    && v.nodeIds == nodeIds && |v.offsets| == |nodeIds| + 1 && v.adjacency == Entries(sorted)
    && (forall u: nat :: u <= |nodeIds| ==> v.offsets[u] == CountBelow(sorted, u))
    && Ordered(nodeIds, sorted)
    && forall k :: 0 <= k < |sorted| ==> sorted[k].from < |nodeIds|
  }

  /** Slice u holds exactly the entries that leave node u. */
  lemma SliceIs(nodeIds: seq<id16>, sorted: seq<Pending>, v: View, u: nat, a: nat)
    requires Cut(nodeIds, sorted, v)
    ensures v.InSlice(u, a) <==> u < |nodeIds| && a < |sorted| && sorted[a].from == u
  {
    hide CountBelow;
    assert forall j, k :: 0 <= j < k < |sorted| ==> Less(nodeIds, sorted[j], sorted[k]);
    Boundary(sorted, u);
    Boundary(sorted, u + 1);
  }

  lemma CutValid(s: Snapshot, r: Rules, nodeIds: seq<id16>, sorted: seq<Pending>, v: View)
    requires Cut(nodeIds, sorted, v) && StrictlyAscending(nodeIds) && |nodeIds| <= INFINITE_HOPS
    requires v.costModel == r.costModel && r.costModel.hopCost <= MAX_COST
    requires forall k :: 0 <= k < |sorted| ==> FromSome(s, r, nodeIds, |s.edges|, sorted[k])
    ensures v.Valid()
  {
    hide CountBelow, Less, EdgeEligible, TraversalCost;
    assert forall j, k :: 0 <= j < k < |sorted| ==> Less(nodeIds, sorted[j], sorted[k]);
    CutOffsets(nodeIds, sorted, v);
    forall u: nat, a: nat, b: nat | v.InSlice(u, a) && v.InSlice(u, b) && a < b ensures v.SliceOrdered(a, b) {
      SliceIs(nodeIds, sorted, v, u, a);
      SliceIs(nodeIds, sorted, v, u, b);
      LessIsOrdered(nodeIds, sorted[a], sorted[b]);
    }
    forall a | 0 <= a < |v.adjacency| ensures v.adjacency[a].to < |nodeIds| && v.CostResolved(a) {
      assert FromSome(s, r, nodeIds, |s.edges|, sorted[a]);
      var i: nat :| i < |s.edges| && StandsFor(s, r, nodeIds, sorted[a].from, sorted[a].entry, i);
      CostIs(s, r, nodeIds, sorted[a].from, v, a, i);
    }
  }

  lemma CostIs(s: Snapshot, r: Rules, nodeIds: seq<id16>, u: nat, v: View, a: nat, i: nat)
    requires a < |v.adjacency| && StandsFor(s, r, nodeIds, u, v.adjacency[a], i) && v.costModel == r.costModel
    ensures v.CostResolved(a)
  {
    hide NodeEligible, DomainsAllowed, RequirementKept, Snapshot.LinkStateOf, Outside;
  }

  lemma LessIsOrdered(nodeIds: seq<id16>, x: Pending, y: Pending)
    requires StrictlyAscending(nodeIds) && x.entry.to < |nodeIds| && y.entry.to < |nodeIds| && Less(nodeIds, x, y) && x.from == y.from
    ensures x.entry.to < y.entry.to || (x.entry.to == y.entry.to && x.entry.link < y.entry.link)
  {
  }

  lemma CutOffsets(nodeIds: seq<id16>, sorted: seq<Pending>, v: View)
    requires Cut(nodeIds, sorted, v)
    ensures v.offsets[0] == 0 && v.offsets[|nodeIds|] == |v.adjacency|
    ensures forall i, j :: 0 <= i <= j <= |nodeIds| ==> v.offsets[i] <= v.offsets[j]
  {
    hide CountBelow;
    assert forall j, k :: 0 <= j < k < |sorted| ==> Less(nodeIds, sorted[j], sorted[k]);
    CountBelowStep(sorted, 0);
    Boundary(sorted, |nodeIds|);
    forall i: nat, j: nat | i <= j <= |nodeIds| ensures v.offsets[i] <= v.offsets[j] {
      CountBelowMonotone(sorted, i, j);
    }
  }

  lemma {:induction false} CountBelowMonotone(s: seq<Pending>, i: nat, j: nat)
    requires i <= j
    ensures CountBelow(s, i) <= CountBelow(s, j)
  {
    if s != [] {
      CountBelowMonotone(s[..|s| - 1], i, j);
    }
  }

  lemma CutExact(s: Snapshot, r: Rules, nodeIds: seq<id16>, pending: seq<Pending>, sorted: seq<Pending>, v: View)
    requires Cut(nodeIds, sorted, v) && NodesIndexed(s, r, nodeIds) && Collected(s, r, nodeIds, |s.edges|, pending)
    requires multiset(sorted) == multiset(pending) && InRange(nodeIds, pending)
    ensures forall k :: 0 <= k < |sorted| ==> FromSome(s, r, nodeIds, |s.edges|, sorted[k])
    ensures Exact(s, r, v)
  {
    hide EdgeEligible, CountBelow, Cut, NodesIndexed, FromSome, InSome, Placed, StandsFor, View.InSlice;
    CutFacts(nodeIds, sorted, v);
    forall k | 0 <= k < |sorted| ensures FromSome(s, r, nodeIds, |s.edges|, sorted[k]) {
      SortedFrom(pending, sorted, k);
    }
    forall u: nat, a: nat | v.InSlice(u, a) ensures a < |v.adjacency| && exists i: nat :: StandsFor(s, r, v.nodeIds, u, v.adjacency[a], i) {
      SliceIs(nodeIds, sorted, v, u, a);
      FromSomeEdge(s, r, nodeIds, sorted[a]);
    }
    forall i: nat | i < |s.edges| && EdgeEligible(s, r, s.edges[i]) ensures Placed(s, r, v, i) {
      PlaceEdge(s, r, nodeIds, pending, sorted, v, i);
    }
    SortedOnce(pending, sorted);
  }

  lemma CutFacts(nodeIds: seq<id16>, sorted: seq<Pending>, v: View)
    requires Cut(nodeIds, sorted, v)
    ensures v.nodeIds == nodeIds && |v.adjacency| == |sorted| && forall k :: 0 <= k < |sorted| ==> v.adjacency[k] == sorted[k].entry && sorted[k].from < |nodeIds|
  {
  }

  lemma SortedFrom(pending: seq<Pending>, sorted: seq<Pending>, k: nat)
    requires multiset(sorted) == multiset(pending) && k < |sorted|
    ensures exists j :: 0 <= j < |pending| && pending[j] == sorted[k]
  {
    assert sorted[k] in multiset(sorted);
    assert sorted[k] in pending;
  }

  lemma FromSomeEdge(s: Snapshot, r: Rules, nodeIds: seq<id16>, p: Pending)
    requires FromSome(s, r, nodeIds, |s.edges|, p)
    ensures exists i: nat :: StandsFor(s, r, nodeIds, p.from, p.entry, i)
  {
    hide StandsFor;
  }

  lemma PlaceEdge(s: Snapshot, r: Rules, nodeIds: seq<id16>, pending: seq<Pending>, sorted: seq<Pending>, v: View, i: nat)
    requires Cut(nodeIds, sorted, v) && InSome(s, r, nodeIds, pending, i) && multiset(sorted) == multiset(pending)
    ensures Placed(s, r, v, i)
  {
    hide StandsFor, Cut, View.InSlice;
    CutFacts(nodeIds, sorted, v);
    var k: nat :| k < |pending| && StandsFor(s, r, nodeIds, pending[k].from, pending[k].entry, i);
    SortedFrom(sorted, pending, k);
    var a: nat :| a < |sorted| && sorted[a] == pending[k];
    SliceIs(nodeIds, sorted, v, sorted[a].from, a);
    assert v.InSlice(sorted[a].from, a);
  }

  /** Sorting entries with distinct links leaves the links distinct. */
  lemma {:induction false} SortedOnce(pending: seq<Pending>, sorted: seq<Pending>)
    requires multiset(sorted) == multiset(pending)
    requires forall j, k :: 0 <= j < k < |pending| ==> pending[j].entry.link < pending[k].entry.link
    ensures forall a, b :: 0 <= a < |sorted| && 0 <= b < |sorted| && sorted[a].entry.link == sorted[b].entry.link ==> a == b
  {
    forall a, b | 0 <= a < b < |sorted| ensures sorted[a].entry.link != sorted[b].entry.link {
      assert sorted[a] in multiset(sorted) && sorted[b] in multiset(sorted);
      var j :| 0 <= j < |pending| && pending[j] == sorted[a];
      var k :| 0 <= k < |pending| && pending[k] == sorted[b];
      if j == k {
        CountTwice(sorted, a, b);
        CountOnce(pending, j);
      }
    }
  }

  lemma CountTwice(s: seq<Pending>, a: nat, b: nat)
    requires a < b < |s| && s[a] == s[b]
    ensures multiset(s)[s[a]] >= 2
  {
    assert s == s[..b] + s[b..];
    assert s[a] in s[..b] && s[a] in s[b..] by {
      assert s[..b][a] == s[a] && s[b..][0] == s[b];
    }
    assert multiset(s) == multiset(s[..b]) + multiset(s[b..]);
  }

  lemma CountOnce(s: seq<Pending>, j: nat)
    requires j < |s| && forall i, k :: 0 <= i < k < |s| ==> s[i].entry.link < s[k].entry.link
    ensures multiset(s)[s[j]] == 1
  {
    assert s == s[..j] + [s[j]] + s[j + 1..];
    assert s[j] !in s[..j] && s[j] !in s[j + 1..];
    assert multiset(s) == multiset(s[..j]) + multiset{s[j]} + multiset(s[j + 1..]);
  }

  /** Capability requirements on the two ends. */
  method EndsSatisfied(s: Snapshot, r: Rules, source: id16, destination: id16) returns (failure: Option<Code>)
    requires s.Valid()
    ensures failure == FirstCapabilityFailure(s, r.requirements, OnEnds(source, destination))
    ensures failure.None? <==> EndsKept(s, r, source, destination)
  {
    hide Snapshot.Valid, Satisfied, ForNode, CapabilityFailure;
    assert r.requirements[0..] == r.requirements;
    for i := 0 to |r.requirements|
      invariant forall k :: 0 <= k < i ==> EndKept(s, r.requirements[k], source, destination)
      invariant FirstCapabilityFailure(s, r.requirements, OnEnds(source, destination)) == FirstCapabilityFailure(s, r.requirements[i..], OnEnds(source, destination))
    {
      assert r.requirements[i..][1..] == r.requirements[i + 1..] && r.requirements[i..][0] == r.requirements[i];
      var q := r.requirements[i];
      if q.scope != SOURCE_NODE && q.scope != DESTINATION_NODE {
        continue;
      }
      failure := CapabilitySatisfied(s, ForNode(if q.scope == SOURCE_NODE then source else destination), q);
      if failure.Some? {
        return;
      }
    }
    failure := None;
  }

  ghost predicate EndsKept(s: Snapshot, r: Rules, source: id16, destination: id16) {
    forall k :: 0 <= k < |r.requirements| ==> EndKept(s, r.requirements[k], source, destination)
  }

  ghost predicate EndKept(s: Snapshot, q: Requirement, source: id16, destination: id16) {
    (q.scope == SOURCE_NODE ==> Satisfied(s, ForNode(source), q)) && (q.scope == DESTINATION_NODE ==> Satisfied(s, ForNode(destination), q))
  }

  const NO_VIEW := View([], [0], [], CostModel(0, 0, 0), 0)

  /** The eligible nodes, counted. */
  lemma EligibleCount(s: Snapshot, r: Rules, nodeIds: seq<id16>)
    requires NodesIndexed(s, r, nodeIds)
    ensures |EligibleNodes(s, r)| == |nodeIds|
  {
    EligibleListed(s, r);
    hide NodeEligible;
    DistinctSize(nodeIds);
    assert Elements(nodeIds) == EligibleNodes(s, r);
  }

  lemma EligibleHere(s: Snapshot, r: Rules, nodeIds: seq<id16>, id: id16, slot: Option<nat>)
    requires NodesIndexed(s, r, nodeIds) && SlotIs(nodeIds, id, slot)
    ensures slot.Some? <==> NodeEligible(s, r, id)
  {
    hide NodeEligible;
    if slot.Some? {
      assert nodeIds[slot.value] in nodeIds;
    }
  }

  /** Why an end is not in the view. */
  method Exclusion(s: Snapshot, r: Rules, id: id16) returns (code: Code)
    requires s.Valid() && !NodeEligible(s, r, id)
    ensures code == ExclusionCode(s, r, id)
  {
    hide NodeEligible, NodeFailure;
    var k := FindNode(s, id);
    if k.None? {
      return ForbiddenNode;
    }
    var failure := EvaluateNode(s, r, id);
    code := failure.value;
  }

  /** A build stops with exactly the finding FatalOf names; otherwise it gives a valid view of
      exactly the eligible nodes and edges. */
  method BuildPlanningView(s: Snapshot, r: Rules, maxNodes: nat, maxSearchStates: nat, source: id16, destination: id16) returns (b: Build)
    requires s.Valid() && r.costModel.hopCost <= MAX_COST
    ensures b.fatal == FatalOf(s, r, maxNodes, source, destination)
    ensures b.fatal.None? <==> |EligibleNodes(s, r)| <= maxNodes && NodeEligible(s, r, source) && NodeEligible(s, r, destination) && EndsKept(s, r, source, destination)
    ensures b.fatal.None? ==> b.view.Valid() && Exact(s, r, b.view) && b.view.costModel == r.costModel && b.view.maxSearchStates == maxSearchStates
    ensures b.fatal.None? ==> b.view.NodeCount() == |EligibleNodes(s, r)|
    ensures b.fatal.None? ==>
      b.source.Some? && b.destination.Some? && SlotIs(b.view.nodeIds, source, b.source) && SlotIs(b.view.nodeIds, destination, b.destination)
  {
    hide Snapshot.Valid, NodeEligible, NodeFailure, Collected, Exact, View.Valid, EndsKept, Cut, FromSome, EdgeEligible, FirstCapabilityFailure, EligibleNodes;
    var nodeIds, slots := IndexNodes(s, r);
    EligibleCount(s, r, nodeIds);
    if |nodeIds| > maxNodes {
      return Build(NO_VIEW, Some(GraphTooLarge), None, None);
    }
    var from := SlotOf(s, r, nodeIds, slots, source);
    var to := SlotOf(s, r, nodeIds, slots, destination);
    EligibleHere(s, r, nodeIds, source, from);
    EligibleHere(s, r, nodeIds, destination, to);
    if from.None? {
      var code := Exclusion(s, r, source);
      return Build(NO_VIEW, Some(SourceExcluded(code)), None, None);
    }
    if to.None? {
      var code := Exclusion(s, r, destination);
      return Build(NO_VIEW, Some(DestinationExcluded(code)), None, None);
    }
    var ends := EndsSatisfied(s, r, source, destination);
    if ends.Some? {
      return Build(NO_VIEW, Some(EndCapability(ends.value)), None, None);
    }
    var pending := CollectEdges(s, r, nodeIds, slots);
    var view := CutView(s, r, nodeIds, pending, maxSearchStates);
    b := Build(view, None, from, to);
  }

  method CutView(s: Snapshot, r: Rules, nodeIds: seq<id16>, pending: seq<Pending>, maxSearchStates: nat) returns (v: View)
    requires s.Valid() && r.costModel.hopCost <= MAX_COST && NodesIndexed(s, r, nodeIds) && |nodeIds| <= |s.nodes|
    requires Collected(s, r, nodeIds, |s.edges|, pending)
    ensures v.Valid() && Exact(s, r, v) && v.costModel == r.costModel && v.nodeIds == nodeIds && v.maxSearchStates == maxSearchStates
  {
    hide NodeEligible, Collected, Exact, View.Valid, EdgeEligible, Less, CountBelow, SortPending, FromSome;
    CollectedFrom(s, r, nodeIds, pending);
    var sorted := SortPending(nodeIds, pending);
    SortKeeps(nodeIds, pending);
    SortOrdered(nodeIds, pending);
    forall k | 0 <= k < |sorted| ensures sorted[k].from < |nodeIds| {
      assert sorted[k] in multiset(sorted);
      assert sorted[k] in pending;
    }
    var offsets := CountOffsets(|nodeIds|, sorted);
    v := View(nodeIds, offsets[..], Entries(sorted), r.costModel, maxSearchStates);
    assert Cut(nodeIds, sorted, v);
    CutExact(s, r, nodeIds, pending, sorted, v);
    CutValid(s, r, nodeIds, sorted, v);
  }
}
