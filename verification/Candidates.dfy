/** From raw paths to candidates (src/search.cpp, BuildCandidatePath; src/path.cpp; the candidate
    loop of src/planner.cpp, Plan). */
module Candidates {
  import opened Values
  import opened Wrappers
  import opened Counting
  import opened Sorting
  import opened View
  import opened Order
  import opened PathCosts
  import opened Ranking
  import opened Fabric
  import opened Eligibility
  import opened ViewBuild

  datatype Hop = Hop(
    link: id16, from: id16, to: id16, fromPort: id16, toPort: id16,
    layer: PathLayer, relationship: Relationship, structuralGeneration: u64, staticCost: u32,
    linkState: LinkState, degraded: bool)

  datatype CandidatePath = CandidatePath(source: id16, destination: id16, layer: PathLayer, nodes: seq<id16>, hops: seq<Hop>)

  ghost predicate WellFormed(p: CandidatePath) {
    && p.source > 0 && p.destination > 0
    && |p.nodes| == |p.hops| + 1
    && p.nodes[0] == p.source && p.nodes[|p.hops|] == p.destination
    && forall i :: 0 <= i < |p.hops| ==> HopFits(p, i)
  }

  ghost predicate HopFits(p: CandidatePath, i: nat)
    requires i < |p.hops| && |p.nodes| == |p.hops| + 1
  {
    var hop := p.hops[i];
    hop.from == p.nodes[i] && hop.to == p.nodes[i + 1] && hop.layer == p.layer && hop.link > 0 && hop.fromPort > 0 && hop.toPort > 0
  }

  method IsWellFormed(p: CandidatePath) returns (b: bool)
    ensures b <==> WellFormed(p)
  {
    if p.source == 0 || p.destination == 0 {
      return false;
    }
    if |p.nodes| != |p.hops| + 1 {
      return false;
    }
    if |p.nodes| == 0 {
      return false;
    }
    if p.nodes[0] != p.source || p.nodes[|p.nodes| - 1] != p.destination {
      return false;
    }
    for i := 0 to |p.hops|
      invariant forall k :: 0 <= k < i ==> HopFits(p, k)
    {
      assert WellFormed(p) ==> HopFits(p, i);
      var hop := p.hops[i];
      if hop.from != p.nodes[i] || hop.to != p.nodes[i + 1] {
        return false;
      }
      if hop.layer != p.layer {
        return false;
      }
      if hop.link == 0 || hop.fromPort == 0 || hop.toPort == 0 {
        return false;
      }
    }
    b := true;
  }

  method IsSimple(p: CandidatePath) returns (b: bool)
    ensures b <==> Distinct(p.nodes)
  {
    if |p.nodes| < 2 {
      return true;
    }
    b := AllDistinct(p.nodes);
  }

  function HopOf(s: Snapshot, e: Edge, state: LinkState, degraded: bool): Hop {
    Hop(e.id, e.from, e.to, e.fromPort, e.toPort, e.layer, e.relationship, e.structuralGeneration, e.staticCost, state, degraded)
  }

  /** The hop is an eligible edge of the fabric, with its observed state. */
  ghost predicate Lawful(s: Snapshot, r: Rules, hop: Hop) {
    exists i: nat :: i < |s.edges| && LawfulAs(s, r, hop, s.edges[i])
  }

  ghost predicate LawfulAs(s: Snapshot, r: Rules, hop: Hop, e: Edge) {
    EdgeEligible(s, r, e) && hop == HopOf(s, e, s.LinkStateOf(e.id), s.LinkStateOf(e.id) == LinkState.Degraded)
  }

  /** The candidate path shows the raw path by identities. */
  ghost predicate Depicts(v: View, raw: RawPath, p: CandidatePath) {
    && |p.nodes| == |raw.nodes| && |p.hops| == |raw.adjacency|
    && (forall i :: 0 <= i < |raw.nodes| ==> raw.nodes[i] < |v.nodeIds| && p.nodes[i] == v.nodeIds[raw.nodes[i]])
    && (forall i :: 0 <= i < |raw.adjacency| ==> raw.adjacency[i] < |v.adjacency| && p.hops[i].link == v.adjacency[raw.adjacency[i]].link)
  }

  ghost predicate LawfulPath(s: Snapshot, r: Rules, p: CandidatePath) {
    (forall i :: 0 <= i < |p.nodes| ==> NodeEligible(s, r, p.nodes[i])) && forall i :: 0 <= i < |p.hops| ==> Lawful(s, r, p.hops[i])
  }

  method FindEdge(s: Snapshot, link: id16) returns (i: nat)
    requires s.Valid() && exists k :: 0 <= k < |s.edges| && s.edges[k].id == link
    ensures i < |s.edges| && s.edges[i].id == link
  {
    ghost var k :| 0 <= k < |s.edges| && s.edges[k].id == link;
    LinkOrder(s);
    hide Snapshot.Valid;
    var low, high := 0, |s.edges|;
    while low < high
      invariant 0 <= low <= high <= |s.edges|
      invariant forall x :: 0 <= x < low ==> s.edges[x].id < link
      invariant forall x :: high <= x < |s.edges| ==> s.edges[x].id >= link
    {
      var mid := low + (high - low) / 2;
      if s.edges[mid].id < link {
        low := mid + 1;
      } else {
        high := mid;
      }
    }
    i := low;
  }

  /** The edge behind an entry of the view. */
  lemma EntryEdge(s: Snapshot, r: Rules, v: View, u: nat, a: nat) returns (i: nat)
    requires Exact(s, r, v) && v.InSlice(u, a)
    ensures a < |v.adjacency| && StandsFor(s, r, v.nodeIds, u, v.adjacency[a], i) && s.edges[i].id == v.adjacency[a].link
  {
    hide StandsFor, EdgeEligible, NodesIndexed;
    i :| StandsFor(s, r, v.nodeIds, u, v.adjacency[a], i);
    StandsForLink(s, r, v.nodeIds, u, v.adjacency[a], i);
  }

  lemma StandsForLink(s: Snapshot, r: Rules, nodeIds: seq<id16>, u: nat, x: Adjacency, i: nat)
    requires StandsFor(s, r, nodeIds, u, x, i)
    ensures i < |s.edges| && x.link == s.edges[i].id && u < |nodeIds| && nodeIds[u] == s.edges[i].from && x.to < |nodeIds| && nodeIds[x.to] == s.edges[i].to
    ensures EdgeEligible(s, r, s.edges[i]) && x.degraded == (s.LinkStateOf(x.link) == LinkState.Degraded)
    ensures s.edges[i].layer == r.layer && x.staticCost == s.edges[i].staticCost && x.outsideLocality == Outside(r, s.edges[i])
  {
    hide NodeEligible, DomainsAllowed, RequirementKept, LinkUsable, PortUsable, Snapshot.LinkStateOf, Snapshot.PortStateOf, Outside;
  }

  lemma SameId(s: Snapshot, i: nat, j: nat)
    requires s.Valid() && i < |s.edges| && j < |s.edges| && s.edges[i].id == s.edges[j].id
    ensures i == j && s.edges[i].id > 0 && s.edges[i].fromPort > 0 && s.edges[i].toPort > 0
  {
    LinkOrder(s);
  }

  /** What a hop contributes to the cost, by identities. */
  ghost function InputOf(r: Rules, h: Hop): HopCostInput {
    HopCostInput(h.staticCost, h.degraded, r.localityScope != [] && h.to !in r.localityScope)
  }

  ghost function InputsOf(r: Rules, p: CandidatePath): (inputs: seq<HopCostInput>)
    ensures |inputs| == |p.hops|
  {
    seq(|p.hops|, i requires 0 <= i < |p.hops| => InputOf(r, p.hops[i]))
  }

  /** The itemised cost of a candidate path. */
  ghost function PriceOf(r: Rules, p: CandidatePath): PathCost {
    Itemised(InputsOf(r, p), r.costModel)
  }

  /** A lawful hop over the link of a view entry is the hop that entry stands for. */
  lemma HopOfEntry(s: Snapshot, r: Rules, v: View, u: nat, a: nat, h: Hop)
    requires s.Valid() && Exact(s, r, v) && v.InSlice(u, a) && Lawful(s, r, h)
    requires a < |v.adjacency| && h.link == v.adjacency[a].link
    ensures InputOf(r, h) == HopCostInput(v.adjacency[a].staticCost, v.adjacency[a].degraded, v.adjacency[a].outsideLocality)
  {
    hide Snapshot.Valid, Exact, EdgeEligible, StandsFor, Snapshot.LinkStateOf, Snapshot.PortStateOf;
    var k := EntryEdge(s, r, v, u, a);
    StandsForLink(s, r, v.nodeIds, u, v.adjacency[a], k);
    var i: nat :| i < |s.edges| && LawfulAs(s, r, h, s.edges[i]);
    SameId(s, i, k);
  }

  /** The price of a lawful candidate path is the itemised cost of the raw path it shows. */
  lemma PriceIsCost(s: Snapshot, r: Rules, v: View, raw: RawPath, p: CandidatePath)
    requires s.Valid() && v.Valid() && Exact(s, r, v) && IsWalk(v, raw) && Depicts(v, raw, p) && LawfulPath(s, r, p) && v.costModel == r.costModel
    ensures forall i :: 0 <= i < |raw.adjacency| ==> raw.adjacency[i] < |v.adjacency|
    ensures PriceOf(r, p) == Itemised(HopInputs(v, raw.adjacency), v.costModel) && PriceOf(r, p).total == Cost(v, raw.adjacency)
  {
    WalkEntriesInRange(v, raw);
    ItemisedIsCost(v, raw.adjacency);
    hide Snapshot.Valid, View.Valid, Exact, Lawful, NodeEligible, InputOf, Itemised;
    forall i | 0 <= i < |p.hops| ensures InputsOf(r, p)[i] == HopInputs(v, raw.adjacency)[i] {
      HopOfEntry(s, r, v, raw.nodes[i], raw.adjacency[i], p.hops[i]);
    }
    assert InputsOf(r, p) == HopInputs(v, raw.adjacency);
    TotalOf(HopInputs(v, raw.adjacency), v.costModel);
  }

  lemma TotalOf(hops: seq<HopCostInput>, model: CostModel)
    ensures Itemised(hops, model).total == ItemisedTotal(hops, model)
  {
  }

  /** Every lawful well-formed candidate path is shown by some walk of the view. */
  lemma RawOf(s: Snapshot, r: Rules, v: View, p: CandidatePath) returns (raw: RawPath)
    requires s.Valid() && v.Valid() && Exact(s, r, v) && WellFormed(p) && LawfulPath(s, r, p)
    ensures IsWalk(v, raw) && Depicts(v, raw, p)
    ensures Simple(raw) <==> Distinct(p.nodes)
    ensures raw.nodes[0] < |v.nodeIds| && v.nodeIds[raw.nodes[0]] == p.source && raw.nodes[raw.Hops()] < |v.nodeIds| && v.nodeIds[raw.nodes[raw.Hops()]] == p.destination
  {
    hide Snapshot.Valid, View.Valid, Exact, NodeEligible, Lawful, View.InSlice, View.To, Distinct;
    var nodes: seq<nat> := [];
    for i := 0 to |p.nodes|
      invariant |nodes| == i && forall k :: 0 <= k < i ==> nodes[k] < |v.nodeIds| && v.nodeIds[nodes[k]] == p.nodes[k]
    {
      var u := IndexIn(s, r, v, p.nodes[i]);
      nodes := nodes + [u];
    }
    var entries := RawEntries(s, r, v, p, nodes);
    raw := RawPath(nodes, entries);
    SimpleBoth(s, r, v, raw, p);
  }

  lemma RawEntries(s: Snapshot, r: Rules, v: View, p: CandidatePath, nodes: seq<nat>) returns (entries: seq<nat>)
    requires s.Valid() && Exact(s, r, v) && WellFormed(p) && forall i :: 0 <= i < |p.hops| ==> Lawful(s, r, p.hops[i])
    requires |nodes| == |p.nodes| && forall k :: 0 <= k < |nodes| ==> nodes[k] < |v.nodeIds| && v.nodeIds[nodes[k]] == p.nodes[k]
    ensures |entries| == |p.hops|
    ensures forall k :: 0 <= k < |entries| ==> entries[k] < |v.adjacency| && v.InSlice(nodes[k], entries[k]) && v.To(entries[k]) == nodes[k + 1] && v.adjacency[entries[k]].link == p.hops[k].link
  {
    hide Snapshot.Valid, Exact, Lawful, View.InSlice, View.To;
    entries := [];
    for i := 0 to |p.hops|
      invariant |entries| == i
      invariant forall k :: 0 <= k < i ==> entries[k] < |v.adjacency| && v.InSlice(nodes[k], entries[k]) && v.To(entries[k]) == nodes[k + 1] && v.adjacency[entries[k]].link == p.hops[k].link
    {
      assert HopFits(p, i);
      var u, a := EntryOf(s, r, v, p.hops[i]);
      SameIndex(s, r, v, u, nodes[i]);
      SameIndex(s, r, v, v.To(a), nodes[i + 1]);
      entries := entries + [a];
    }
  }

  lemma SameIndex(s: Snapshot, r: Rules, v: View, t: nat, u: nat)
    requires Exact(s, r, v) && t < |v.nodeIds| && u < |v.nodeIds|
    ensures t == u <==> v.nodeIds[t] == v.nodeIds[u]
  {
    hide StandsFor, Placed, EdgeEligible, NodeEligible;
    IndexOrder(v.nodeIds, t, u);
  }

  /** A candidate path repeats a node exactly when the raw path it shows does. */
  lemma SimpleBoth(s: Snapshot, r: Rules, v: View, raw: RawPath, p: CandidatePath)
    requires Exact(s, r, v) && Depicts(v, raw, p)
    ensures Simple(raw) <==> Distinct(p.nodes)
  {
    hide Exact;
    forall i, j | 0 <= i < j < |p.nodes| ensures raw.nodes[i] == raw.nodes[j] <==> p.nodes[i] == p.nodes[j] {
      SameIndex(s, r, v, raw.nodes[i], raw.nodes[j]);
    }
  }

  lemma IndexIn(s: Snapshot, r: Rules, v: View, id: id16) returns (u: nat)
    requires Exact(s, r, v) && NodeEligible(s, r, id)
    ensures u < |v.nodeIds| && v.nodeIds[u] == id
  {
    hide NodeEligible, StandsFor, Placed, EdgeEligible;
    assert id in v.nodeIds;
    u :| u < |v.nodeIds| && v.nodeIds[u] == id;
  }

  lemma EntryOf(s: Snapshot, r: Rules, v: View, h: Hop) returns (u: nat, a: nat)
    requires s.Valid() && Exact(s, r, v) && Lawful(s, r, h)
    ensures v.InSlice(u, a) && a < |v.adjacency| && u < |v.nodeIds| && v.nodeIds[u] == h.from
    ensures v.To(a) < |v.nodeIds| && v.nodeIds[v.To(a)] == h.to && v.adjacency[a].link == h.link
  {
    hide Snapshot.Valid, StandsFor, EdgeEligible, NodesIndexed, Snapshot.LinkStateOf, View.InSlice;
    var i: nat :| i < |s.edges| && LawfulAs(s, r, h, s.edges[i]);
    assert Placed(s, r, v, i);
    u, a :| v.InSlice(u, a) && a < |v.adjacency| && StandsFor(s, r, v.nodeIds, u, v.adjacency[a], i);
    StandsForLink(s, r, v.nodeIds, u, v.adjacency[a], i);
  }

  /** One hop of the candidate. */
  method BuildHop(s: Snapshot, r: Rules, v: View, u: nat, a: nat) returns (hop: Hop)
    requires s.Valid() && v.Valid() && Exact(s, r, v) && v.InSlice(u, a)
    ensures a < |v.adjacency| && hop.link == v.adjacency[a].link && Lawful(s, r, hop)
    ensures u < |v.nodeIds| && hop.from == v.nodeIds[u] && v.To(a) < |v.nodeIds| && hop.to == v.nodeIds[v.To(a)]
    ensures hop.layer == r.layer && hop.link > 0 && hop.fromPort > 0 && hop.toPort > 0
  {
    hide Snapshot.Valid, View.Valid, Exact, EdgeEligible, StandsFor, Find;
    ghost var k := EntryEdge(s, r, v, u, a);
    StandsForLink(s, r, v.nodeIds, u, v.adjacency[a], k);
    var entry := v.adjacency[a];
    var i := FindEdge(s, entry.link);
    SameId(s, i, k);
    StatesSorted(s);
    var state := Lookup(s.linkStates, entry.link);
    hop := HopOf(s, s.edges[i], if state.Some? then state.value else LinkState.Unknown, entry.degraded);
    assert LawfulAs(s, r, hop, s.edges[i]);
  }

  lemma StatesSorted(s: Snapshot)
    requires s.Valid()
    ensures Fabric.Sorted(s.linkStates)
  {
  }

  lemma NodesOfView(s: Snapshot, r: Rules, v: View)
    requires s.Valid() && Exact(s, r, v)
    ensures forall u :: 0 <= u < |v.nodeIds| ==> NodeEligible(s, r, v.nodeIds[u]) && v.nodeIds[u] > 0
    ensures forall t, u :: 0 <= t < |v.nodeIds| && 0 <= u < |v.nodeIds| ==> (v.nodeIds[t] < v.nodeIds[u] <==> t < u) && (v.nodeIds[t] == v.nodeIds[u] <==> t == u)
  {
    hide StandsFor, Placed, EdgeEligible, NodeEligible;
    forall u | 0 <= u < |v.nodeIds| ensures NodeEligible(s, r, v.nodeIds[u]) && v.nodeIds[u] > 0 {
      assert v.nodeIds[u] in v.nodeIds;
      EligibleListed(s, r);
    }
    forall t, u | 0 <= t < |v.nodeIds| && 0 <= u < |v.nodeIds|
      ensures (v.nodeIds[t] < v.nodeIds[u] <==> t < u) && (v.nodeIds[t] == v.nodeIds[u] <==> t == u)
    {
      IndexOrder(v.nodeIds, t, u);
    }
  }

  lemma IndexOrder(ids: seq<nat>, t: nat, u: nat)
    requires StrictlyAscending(ids) && t < |ids| && u < |ids|
    ensures (ids[t] < ids[u] <==> t < u) && (ids[t] == ids[u] <==> t == u)
  {
    if t < u {
      assert ids[t] < ids[u];
    } else if u < t {
      assert ids[u] < ids[t];
    }
  }

  /** A walk through the view becomes a well-formed candidate over eligible nodes and edges only;
      the re-check for repeated nodes passes exactly when the walk is simple. */
  method BuildCandidatePath(s: Snapshot, r: Rules, v: View, raw: RawPath) returns (p: CandidatePath)
    requires s.Valid() && v.Valid() && Exact(s, r, v) && IsWalk(v, raw)
    ensures Depicts(v, raw, p) && LawfulPath(s, r, p) && WellFormed(p) && p.layer == r.layer
    ensures p.source == v.nodeIds[raw.nodes[0]] && p.destination == v.nodeIds[raw.nodes[raw.Hops()]]
    ensures Distinct(p.nodes) <==> Simple(raw)
  {
    hide Snapshot.Valid, View.Valid, Exact, NodeEligible, Lawful;
    NodesOfView(s, r, v);
    var nodes: seq<id16> := [];
    for i := 0 to |raw.nodes|
      invariant |nodes| == i && forall k :: 0 <= k < i ==> nodes[k] == v.nodeIds[raw.nodes[k]]
    {
      nodes := nodes + [v.nodeIds[raw.nodes[i]]];
    }
    var hops: seq<Hop> := [];
    for i := 0 to |raw.adjacency|
      invariant |hops| == i
      invariant forall k :: 0 <= k < i ==> raw.adjacency[k] < |v.adjacency| && hops[k].link == v.adjacency[raw.adjacency[k]].link && Lawful(s, r, hops[k])
      invariant forall k :: 0 <= k < i ==> hops[k].from == nodes[k] && hops[k].to == nodes[k + 1]
      invariant forall k :: 0 <= k < i ==> hops[k].layer == r.layer && hops[k].link > 0 && hops[k].fromPort > 0 && hops[k].toPort > 0
    {
      var hop := BuildHop(s, r, v, raw.nodes[i], raw.adjacency[i]);
      hops := hops + [hop];
    }
    p := CandidatePath(v.nodeIds[raw.nodes[0]], v.nodeIds[raw.nodes[|raw.nodes| - 1]], r.layer, nodes, hops);
  }

  /** Every walk of the view is shown by a lawful candidate path. */
  lemma ShowPath(s: Snapshot, r: Rules, v: View, raw: RawPath) returns (p: CandidatePath)
    requires s.Valid() && v.Valid() && Exact(s, r, v) && IsWalk(v, raw)
    ensures Depicts(v, raw, p) && LawfulPath(s, r, p) && WellFormed(p) && p.layer == r.layer
    ensures p.source == v.nodeIds[raw.nodes[0]] && p.destination == v.nodeIds[raw.nodes[raw.Hops()]]
  {
    hide Snapshot.Valid, View.Valid, Exact, NodeEligible, Lawful, View.InSlice, View.To;
    NodesOfView(s, r, v);
    var nodes := seq(|raw.nodes|, i requires 0 <= i < |raw.nodes| => v.nodeIds[raw.nodes[i]]);
    var hops: seq<Hop> := [];
    for i := 0 to |raw.adjacency|
      invariant |hops| == i
      invariant forall k :: 0 <= k < i ==> raw.adjacency[k] < |v.adjacency| && hops[k].link == v.adjacency[raw.adjacency[k]].link && Lawful(s, r, hops[k])
      invariant forall k :: 0 <= k < i ==> hops[k].from == nodes[k] && hops[k].to == nodes[k + 1]
      invariant forall k :: 0 <= k < i ==> hops[k].layer == r.layer && hops[k].link > 0 && hops[k].fromPort > 0 && hops[k].toPort > 0
    {
      var hop := ShowHop(s, r, v, raw.nodes[i], raw.adjacency[i]);
      hops := hops + [hop];
    }
    p := CandidatePath(v.nodeIds[raw.nodes[0]], v.nodeIds[raw.nodes[|raw.nodes| - 1]], r.layer, nodes, hops);
  }

  lemma ShowHop(s: Snapshot, r: Rules, v: View, u: nat, a: nat) returns (hop: Hop)
    requires s.Valid() && Exact(s, r, v) && v.InSlice(u, a)
    ensures a < |v.adjacency| && hop.link == v.adjacency[a].link && Lawful(s, r, hop)
    ensures u < |v.nodeIds| && hop.from == v.nodeIds[u] && v.To(a) < |v.nodeIds| && hop.to == v.nodeIds[v.To(a)]
    ensures hop.layer == r.layer && hop.link > 0 && hop.fromPort > 0 && hop.toPort > 0
  {
    hide Snapshot.Valid, Exact, EdgeEligible, StandsFor, Snapshot.LinkStateOf;
    var k := EntryEdge(s, r, v, u, a);
    StandsForLink(s, r, v.nodeIds, u, v.adjacency[a], k);
    SameId(s, k, k);
    var e := s.edges[k];
    hop := HopOf(s, e, s.LinkStateOf(e.id), s.LinkStateOf(e.id) == LinkState.Degraded);
    assert LawfulAs(s, r, hop, e);
  }

  datatype Ordering = Less | Equal | Greater

  ghost function Links(p: CandidatePath): seq<nat> {
    seq(|p.hops|, i requires 0 <= i < |p.hops| => p.hops[i].link)
  }

  ghost function CanonicalOrdering(p: CandidatePath, q: CandidatePath): Ordering {
    if LexLess(p.nodes, q.nodes) || (p.nodes == q.nodes && LexLess(Links(p), Links(q))) then Ordering.Less
    else if p.nodes == q.nodes && Links(p) == Links(q) then Ordering.Equal
    else Ordering.Greater
  }

  method CompareSequences(x: seq<nat>, y: seq<nat>) returns (r: Ordering)
    ensures r.Less? <==> LexLess(x, y)
    ensures r.Equal? <==> x == y
  {
    var shared := if |x| < |y| then |x| else |y|;
    for i := 0 to shared
      invariant forall k :: 0 <= k < i ==> x[k] == y[k]
    {
      if x[i] != y[i] {
        if x[i] < y[i] {
          assert DiffersAt(x, y, i);
          return Ordering.Less;
        }
        assert DiffersAt(y, x, i);
        LexAsymmetric(y, x);
        return Ordering.Greater;
      }
    }
    if |x| != |y| {
      if |x| < |y| {
        assert DiffersAt(x, y, |x|);
        return Ordering.Less;
      }
      assert DiffersAt(y, x, |y|);
      LexAsymmetric(y, x);
      return Ordering.Greater;
    }
    assert x == y;
    NotLess(x);
    r := Ordering.Equal;
  }

  method CompareCanonicalPaths(p: CandidatePath, q: CandidatePath) returns (r: Ordering)
    ensures r == CanonicalOrdering(p, q)
  {
    hide LexLess;
    r := CompareSequences(p.nodes, q.nodes);
    if r.Equal? {
      NotLess(p.nodes);
      var left := seq(|p.hops|, i requires 0 <= i < |p.hops| => p.hops[i].link);
      var right := seq(|q.hops|, i requires 0 <= i < |q.hops| => q.hops[i].link);
      assert left == Links(p) && right == Links(q);
      r := CompareSequences(left, right);
    }
  }

  datatype Candidate = Candidate(path: CandidatePath, cost: PathCost)

  method RanksBefore(p: Candidate, q: Candidate) returns (b: bool)
    ensures b <==> RanksFirst(p, q)
  {
    if p.cost.total != q.cost.total {
      return p.cost.total < q.cost.total;
    }
    if p.cost.hops != q.cost.hops {
      return p.cost.hops < q.cost.hops;
    }
    var r := CompareCanonicalPaths(p.path, q.path);
    b := r.Less?;
  }

  ghost predicate RanksFirst(p: Candidate, q: Candidate) {
    p.cost.total < q.cost.total || (p.cost.total == q.cost.total &&
      (p.cost.hops < q.cost.hops || (p.cost.hops == q.cost.hops && CanonicalOrdering(p.path, q.path).Less?)))
  }

  /** Ranking candidates by identities is the canonical order of the raw paths they show. */
  lemma RanksAreCanonical(s: Snapshot, r: Rules, v: View, x: RawPath, y: RawPath, p: Candidate, q: Candidate)
    requires s.Valid() && v.Valid() && Exact(s, r, v)
    requires IsWalk(v, x) && IsWalk(v, y) && x.nodes[0] == y.nodes[0] && Depicts(v, x, p.path) && Depicts(v, y, q.path)
    requires p.cost.total == Cost(v, x.adjacency) && q.cost.total == Cost(v, y.adjacency) && p.cost.hops == x.Hops() && q.cost.hops == y.Hops()
    ensures RanksFirst(p, q) <==> Before(v, x, y)
  {
    hide Snapshot.Valid, View.Valid, Exact;
    NodesOfView(s, r, v);
    hide NodeEligible;
    SameLex(x.nodes, y.nodes, p.path.nodes, q.path.nodes);
    if x.nodes == y.nodes {
      forall i | 0 <= i < |x.adjacency| ensures (x.adjacency[i] < y.adjacency[i] <==> p.path.hops[i].link < q.path.hops[i].link)
        && (x.adjacency[i] == y.adjacency[i] <==> p.path.hops[i].link == q.path.hops[i].link)
      {
        assert v.To(x.adjacency[i]) == x.nodes[i + 1] && v.To(y.adjacency[i]) == y.nodes[i + 1];
        SameLinkSameEntry(v, x.nodes[i], x.adjacency[i], y.adjacency[i]);
        SameLinkSameEntry(v, x.nodes[i], y.adjacency[i], x.adjacency[i]);
      }
      SameLex(x.adjacency, y.adjacency, Links(p.path), Links(q.path));
    }
  }

  /** A candidate path shows one raw path only. */
  lemma DepictsOnce(s: Snapshot, r: Rules, v: View, x: RawPath, y: RawPath, p: CandidatePath)
    requires s.Valid() && v.Valid() && Exact(s, r, v)
    requires IsWalk(v, x) && IsWalk(v, y) && Depicts(v, x, p) && Depicts(v, y, p)
    ensures x == y
  {
    hide Snapshot.Valid, View.Valid, Exact, NodeEligible;
    NodesOfView(s, r, v);
    assert x.nodes == y.nodes;
    forall i | 0 <= i < |x.adjacency| ensures x.adjacency[i] == y.adjacency[i] {
      assert v.To(x.adjacency[i]) == x.nodes[i + 1] && v.To(y.adjacency[i]) == y.nodes[i + 1];
      SameLinkSameEntry(v, x.nodes[i], x.adjacency[i], y.adjacency[i]);
    }
    assert x.adjacency == y.adjacency;
  }

  /** An order-preserving renaming of entries preserves the lexicographic order. */
  lemma SameLex(x: seq<nat>, y: seq<nat>, p: seq<nat>, q: seq<nat>)
    requires |x| == |p| && |y| == |q|
    requires forall i :: 0 <= i < |x| && i < |y| ==> (x[i] < y[i] <==> p[i] < q[i]) && (x[i] == y[i] <==> p[i] == q[i])
    ensures LexLess(x, y) <==> LexLess(p, q)
    ensures x == y <==> p == q
  {
    if k: nat :| DiffersAt(x, y, k) {
      assert DiffersAt(p, q, k);
    }
    if k: nat :| DiffersAt(p, q, k) {
      assert DiffersAt(x, y, k);
    }
    if p == q {
      assert forall i :: 0 <= i < |x| ==> x[i] == y[i];
    }
    if x == y {
      assert forall i :: 0 <= i < |p| ==> p[i] == q[i];
    }
  }
}
