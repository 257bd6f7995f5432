/** Structural hop distance by breadth-first search (src/planner.cpp, StructuralHopDistance). */
module Structural {
  import opened Values
  import opened Wrappers
  import opened Counting
  import opened Sorting
  import opened View
  import opened Fabric
  import opened Eligibility
  import opened ViewBuild
  import Candidates

  const UNSEEN: nat := 0xFFFF_FFFF

  ghost predicate Graph(adj: seq<seq<nat>>) {
    |adj| < UNSEEN && forall u, k :: 0 <= u < |adj| && 0 <= k < |adj[u]| ==> adj[u][k] < |adj|
  }

  ghost predicate Walk(adj: seq<seq<nat>>, p: seq<nat>) {
    |p| > 0 && (forall i :: 0 <= i < |p| ==> p[i] < |adj|) && forall i :: 0 <= i < |p| - 1 ==> p[i + 1] in adj[p[i]]
  }

  ghost predicate WalkTo(adj: seq<seq<nat>>, s: nat, d: nat, p: seq<nat>) {
    Walk(adj, p) && p[0] == s && p[|p| - 1] == d
  }

  ghost predicate ReachedIn(adj: seq<seq<nat>>, s: nat, d: nat, hops: nat) {
    exists p: seq<nat> :: WalkTo(adj, s, d, p) && |p| == hops + 1
  }

  /** The least hop count of all walks, or none because there is no walk. */
  ghost predicate Shortest(adj: seq<seq<nat>>, s: nat, d: nat, r: Option<nat>) {
    && (r.Some? ==> ReachedIn(adj, s, d, r.value))
    && forall p: seq<nat> :: WalkTo(adj, s, d, p) ==> r.Some? && r.value <= |p| - 1
  }

  /** Queue and distances after `head` nodes and `scanned` neighbours of the next one. */
  ghost predicate Frontier(adj: seq<seq<nat>>, s: nat, dist: seq<nat>, queue: seq<nat>, head: nat, scanned: nat) {
    && Graph(adj) && s < |adj| == |dist| && head <= |queue| <= |adj|
    && Distinct(queue)
    && (forall i :: 0 <= i < |queue| ==> queue[i] < |adj| && dist[queue[i]] <= i && ReachedIn(adj, s, queue[i], dist[queue[i]]))
    && (forall i, j :: 0 <= i < j < |queue| ==> dist[queue[i]] <= dist[queue[j]])
    && (forall j :: 0 <= j < |queue| ==> dist[queue[j]] <= (if head < |queue| then dist[queue[head]] else |adj|) + 1)
    && (forall u: nat :: u < |adj| ==> (dist[u] != UNSEEN <==> u in queue))
    && |queue| > 0 && queue[0] == s && dist[s] == 0
    && Scanned(adj, dist, queue, head, scanned)
  }

  /** The neighbours looked at so far have been seen. */
  ghost predicate Scanned(adj: seq<seq<nat>>, dist: seq<nat>, queue: seq<nat>, head: nat, scanned: nat)
    requires head <= |queue| && forall i :: 0 <= i < |queue| ==> queue[i] < |adj| && queue[i] < |dist|
  {
    && (forall i, k :: 0 <= i < head && 0 <= k < |adj[queue[i]]| ==> Close(dist, queue[i], adj[queue[i]][k]))
    && (scanned > 0 ==> head < |queue| && scanned <= |adj[queue[head]]|)
    && (forall k :: 0 <= k < scanned ==> Close(dist, queue[head], adj[queue[head]][k]))
  }

  predicate Close(dist: seq<nat>, u: nat, v: nat)
    requires u < |dist|
  {
    v < |dist| && dist[v] != UNSEEN && dist[v] <= dist[u] + 1
  }

  lemma Start(adj: seq<seq<nat>>, s: nat, dist: seq<nat>)
    requires Graph(adj) && s < |adj| == |dist| && dist[s] == 0 && forall u :: 0 <= u < |adj| && u != s ==> dist[u] == UNSEEN
    ensures Frontier(adj, s, dist, [s], 0, 0)
  {
    assert WalkTo(adj, s, s, [s]);
  }

  /** Scanning a neighbour seen before changes nothing. */
  lemma SeenStep(adj: seq<seq<nat>>, s: nat, dist: seq<nat>, queue: seq<nat>, head: nat, scanned: nat)
    requires Frontier(adj, s, dist, queue, head, scanned) && head < |queue| && scanned < |adj[queue[head]]|
    requires dist[adj[queue[head]][scanned]] != UNSEEN
    ensures Frontier(adj, s, dist, queue, head, scanned + 1)
  {
    hide ReachedIn, Distinct;
    var v := adj[queue[head]][scanned];
    var j :| 0 <= j < |queue| && queue[j] == v;
    assert dist[queue[j]] <= dist[queue[head]] + 1;
  }

  /** Scanning a new neighbour puts it at the end of the queue, one hop further. */
  lemma NewStep(adj: seq<seq<nat>>, s: nat, dist: seq<nat>, queue: seq<nat>, head: nat, scanned: nat)
    requires Frontier(adj, s, dist, queue, head, scanned) && head < |queue| && scanned < |adj[queue[head]]|
    requires dist[adj[queue[head]][scanned]] == UNSEEN
    ensures var v := adj[queue[head]][scanned];
            Frontier(adj, s, dist[v := dist[queue[head]] + 1], queue + [v], head, scanned + 1)
  {
    hide ReachedIn, Distinct, Scanned;
    var u, v := queue[head], adj[queue[head]][scanned];
    var dist', queue' := dist[v := dist[u] + 1], queue + [v];
    assert v !in queue;
    NewDistinct(adj, queue, v);
    assert forall i :: 0 <= i < |queue| ==> dist'[queue[i]] == dist[queue[i]];
    OneFurther(adj, s, u, v, dist[u]);
    NewScanned(adj, dist, queue, head, scanned);
  }

  lemma NewScanned(adj: seq<seq<nat>>, dist: seq<nat>, queue: seq<nat>, head: nat, scanned: nat)
    requires Graph(adj) && |adj| == |dist| && head < |queue| && (forall i :: 0 <= i < |queue| ==> queue[i] < |adj|)
    requires Scanned(adj, dist, queue, head, scanned) && scanned < |adj[queue[head]]|
    requires adj[queue[head]][scanned] !in queue && dist[queue[head]] + 1 < UNSEEN && dist[adj[queue[head]][scanned]] == UNSEEN
    ensures var v := adj[queue[head]][scanned];
            Scanned(adj, dist[v := dist[queue[head]] + 1], queue + [v], head, scanned + 1)
  {
    var u, v := queue[head], adj[queue[head]][scanned];
    var dist', queue' := dist[v := dist[u] + 1], queue + [v];
    forall i, k | 0 <= i < head && 0 <= k < |adj[queue'[i]]| ensures Close(dist', queue'[i], adj[queue'[i]][k]) {
      assert Close(dist, queue[i], adj[queue[i]][k]);
    }
    forall k | 0 <= k < scanned + 1 ensures Close(dist', u, adj[u][k]) {
      if k < scanned {
        assert Close(dist, u, adj[u][k]);
      }
    }
  }

  lemma NewDistinct(adj: seq<seq<nat>>, queue: seq<nat>, v: nat)
    requires Distinct(queue) && v !in queue && v < |adj| && forall i :: 0 <= i < |queue| ==> queue[i] < |adj|
    ensures Distinct(queue + [v]) && |queue| + 1 <= |adj|
  {
    DistinctBounded(queue + [v], |adj|);
  }

  lemma OneFurther(adj: seq<seq<nat>>, s: nat, u: nat, v: nat, hops: nat)
    requires ReachedIn(adj, s, u, hops) && v < |adj| && u < |adj| && v in adj[u]
    ensures ReachedIn(adj, s, v, hops + 1)
  {
    var p: seq<nat> :| WalkTo(adj, s, u, p) && |p| == hops + 1;
    assert WalkTo(adj, s, v, p + [v]);
  }

  lemma HeadStep(adj: seq<seq<nat>>, s: nat, dist: seq<nat>, queue: seq<nat>, head: nat)
    requires head < |queue| && queue[head] < |adj| && Frontier(adj, s, dist, queue, head, |adj[queue[head]]|)
    ensures Frontier(adj, s, dist, queue, head + 1, 0)
  {
    hide ReachedIn, Distinct;
    if head + 1 < |queue| {
      assert dist[queue[head]] <= dist[queue[head + 1]];
    }
  }

  /** A walk no longer than the distance of the node at the head ends at a node at most that far. */
  lemma {:induction false} WalksAreLonger(adj: seq<seq<nat>>, s: nat, dist: seq<nat>, queue: seq<nat>, head: nat, p: seq<nat>, d: nat)
    requires Frontier(adj, s, dist, queue, head, 0) && WalkTo(adj, s, d, p)
    requires head < |queue| ==> |p| - 1 <= dist[queue[head]]
    ensures dist[d] <= |p| - 1 && d in queue
  {
    if |p| > 1 {
      var n := |p| - 1;
      var u := p[n - 1];
      WalksAreLonger(adj, s, dist, queue, head, p[..n], u);
      hide ReachedIn, Distinct;
      assert forall j :: head <= j < |queue| ==> dist[queue[head]] <= dist[queue[j]];
      var i :| 0 <= i < |queue| && queue[i] == u;
      assert p[n] in adj[u];
      var k :| 0 <= k < |adj[u]| && adj[u][k] == d;
      assert Close(dist, queue[i], adj[queue[i]][k]);
    }
  }

  lemma Arrived(adj: seq<seq<nat>>, s: nat, dist: seq<nat>, queue: seq<nat>, head: nat)
    requires Frontier(adj, s, dist, queue, head, 0) && head < |queue|
    ensures queue[head] < |dist| && Shortest(adj, s, queue[head], Some(dist[queue[head]]))
  {
    hide ReachedIn, WalkTo;
    var d := queue[head];
    forall p: seq<nat> | WalkTo(adj, s, d, p) ensures dist[d] <= |p| - 1 {
      if |p| - 1 <= dist[d] {
        WalksAreLonger(adj, s, dist, queue, head, p, d);
      }
    }
  }

  lemma Exhausted(adj: seq<seq<nat>>, s: nat, d: nat, dist: seq<nat>, queue: seq<nat>)
    requires Frontier(adj, s, dist, queue, |queue|, 0) && d !in queue
    ensures Shortest(adj, s, d, None)
  {
    hide ReachedIn, WalkTo, Frontier;
    forall p: seq<nat> | WalkTo(adj, s, d, p) ensures false {
      WalksAreLonger(adj, s, dist, queue, |queue|, p, d);
    }
  }

  lemma FrontierFacts(adj: seq<seq<nat>>, s: nat, dist: seq<nat>, queue: seq<nat>, head: nat, scanned: nat)
    requires Frontier(adj, s, dist, queue, head, scanned)
    ensures |dist| == |adj| && |queue| <= |adj| && head <= |queue| && forall i :: 0 <= i < |queue| ==> queue[i] < |adj|
    ensures Graph(adj)
  {
    hide ReachedIn, Distinct;
  }

  method Distance(adj: seq<seq<nat>>, s: nat, d: nat) returns (r: Option<nat>)
    requires Graph(adj) && s < |adj| && d < |adj|
    ensures Shortest(adj, s, d, r)
  {
    hide Frontier, Shortest;
    var distance := new nat[|adj|](i => UNSEEN);
    var queue := [s];
    distance[s] := 0;
    Start(adj, s, distance[..]);
    var head := 0;
    while head < |queue|
      invariant head <= |queue| <= |adj| && Frontier(adj, s, distance[..], queue, head, 0)
      invariant d !in queue[..head]
      decreases |adj| - head
    {
      FrontierFacts(adj, s, distance[..], queue, head, 0);
      var node := queue[head];
      if node == d {
        Arrived(adj, s, distance[..], queue, head);
        return Some(distance[node]);
      }
      queue := Scan(adj, s, distance, queue, head);
      HeadStep(adj, s, distance[..], queue, head);
      FrontierFacts(adj, s, distance[..], queue, head + 1, 0);
      assert queue[..head + 1] == queue[..head] + [node];
      head := head + 1;
    }
    assert queue[..head] == queue;
    Exhausted(adj, s, d, distance[..], queue);
    r := None;
  }

  /** Visits the neighbours of the node at the head of the queue. */
  method Scan(adj: seq<seq<nat>>, s: nat, distance: array<nat>, queue0: seq<nat>, head: nat) returns (queue: seq<nat>)
    requires Frontier(adj, s, distance[..], queue0, head, 0) && head < |queue0| && queue0[head] < |adj|
    modifies distance
    ensures Frontier(adj, s, distance[..], queue, head, |adj[queue0[head]]|)
    ensures |queue0| <= |queue| && queue[..|queue0|] == queue0
  {
    hide Frontier;
    queue := queue0;
    var node := queue0[head];
    for k := 0 to |adj[node]|
      invariant Frontier(adj, s, distance[..], queue, head, k)
      invariant |queue0| <= |queue| && queue[..|queue0|] == queue0 && queue[head] == node
    {
      FrontierFacts(adj, s, distance[..], queue, head, k);
      var next := adj[node][k];
      ghost var before := distance[..];
      if distance[next] == UNSEEN {
        NewStep(adj, s, before, queue, head, k);
        distance[next] := distance[node] + 1;
        assert distance[..] == before[next := before[node] + 1];
        queue := queue + [next];
      } else {
        SeenStep(adj, s, before, queue, head, k);
      }
    }
  }

  /** The edges the distance counts: right layer, no forbidden link, no forbidden end. */
  ghost predicate StructuralEdge(s: Snapshot, r: Rules, e: Edge) {
    e.layer == r.layer && e.id !in r.forbiddenLinks && e.from !in r.forbiddenNodes && e.to !in r.forbiddenNodes
  }

  ghost predicate Arc(s: Snapshot, r: Rules, n: nat, x: nat, y: nat) {
    exists i: nat :: i < n && i < |s.edges| && StructuralEdge(s, r, s.edges[i]) && s.edges[i].from == x && s.edges[i].to == y
  }

  /** A walk by node identities over structural edges. */
  ghost predicate StructuralWalk(s: Snapshot, r: Rules, source: id16, destination: id16, p: seq<nat>) {
    && |p| > 0 && p[0] == source && p[|p| - 1] == destination
    && (forall i :: 0 <= i < |p| ==> p[i] in s.nodes)
    && forall i :: 0 <= i < |p| - 1 ==> Arc(s, r, |s.edges|, p[i], p[i + 1])
  }

  /** The exact minimum hop count over structural walks, or none because there is no walk. */
  ghost predicate Minimum(s: Snapshot, r: Rules, source: id16, destination: id16, distance: Option<nat>) {
    && (distance.Some? ==> exists p: seq<nat> :: StructuralWalk(s, r, source, destination, p) && |p| == distance.value + 1)
    && forall p: seq<nat> :: StructuralWalk(s, r, source, destination, p) ==> distance.Some? && distance.value <= |p| - 1
  }

  /** The adjacency lists after the first n edges. */
  ghost predicate Lists(s: Snapshot, r: Rules, n: nat, adj: seq<seq<nat>>) {
    && |adj| == |s.nodes|
    && (forall u, k :: 0 <= u < |adj| && 0 <= k < |adj[u]| ==> adj[u][k] < |adj|)
    && forall u, v :: 0 <= u < |adj| && 0 <= v < |adj| ==> (v in adj[u] <==> Arc(s, r, n, s.nodes[u], s.nodes[v]))
  }

  lemma ListStep(s: Snapshot, r: Rules, n: nat, adj: seq<seq<nat>>, from: nat, to: nat, more: seq<seq<nat>>)
    requires s.Valid() && n < |s.edges| && Lists(s, r, n, adj) && from < |adj| && to < |adj|
    requires s.nodes[from] == s.edges[n].from && s.nodes[to] == s.edges[n].to && StructuralEdge(s, r, s.edges[n])
    requires more == adj[from := adj[from] + [to]]
    ensures Lists(s, r, n + 1, more)
  {
    NodesAscending(s);
    hide StructuralEdge, Snapshot.Valid;
    forall u, v | 0 <= u < |more| && 0 <= v < |more|
      ensures v in more[u] <==> Arc(s, r, n + 1, s.nodes[u], s.nodes[v])
    {
      ArcStep(s, r, n, s.nodes[u], s.nodes[v]);
      Candidates.IndexOrder(s.nodes, u, from);
      Candidates.IndexOrder(s.nodes, v, to);
    }
  }

  lemma ArcStep(s: Snapshot, r: Rules, n: nat, x: nat, y: nat)
    requires n < |s.edges|
    ensures Arc(s, r, n + 1, x, y) <==> Arc(s, r, n, x, y) || (StructuralEdge(s, r, s.edges[n]) && s.edges[n].from == x && s.edges[n].to == y)
  {
    hide StructuralEdge;
    if Arc(s, r, n, x, y) {
      var i: nat :| i < n && i < |s.edges| && StructuralEdge(s, r, s.edges[i]) && s.edges[i].from == x && s.edges[i].to == y;
      assert i < n + 1;
    }
  }

  lemma SkipStep(s: Snapshot, r: Rules, n: nat, adj: seq<seq<nat>>)
    requires n < |s.edges| && Lists(s, r, n, adj) && !StructuralEdge(s, r, s.edges[n])
    ensures Lists(s, r, n + 1, adj)
  {
    hide StructuralEdge, Arc;
    forall u, v | 0 <= u < |adj| && 0 <= v < |adj|
      ensures v in adj[u] <==> Arc(s, r, n + 1, s.nodes[u], s.nodes[v])
    {
      ArcStep(s, r, n, s.nodes[u], s.nodes[v]);
    }
  }

  method BuildLists(s: Snapshot, r: Rules) returns (adj: seq<seq<nat>>)
    requires s.Valid()
    ensures Lists(s, r, |s.edges|, adj)
  {
    hide Snapshot.Valid, Lists;
    NodesAscending(s);
    adj := seq(|s.nodes|, i => []);
    NoLists(s, r, adj);
    for i := 0 to |s.edges|
      invariant |adj| == |s.nodes| && Lists(s, r, i, adj)
    {
      var e := s.edges[i];
      EdgeFacts(s, i);
      var structural := IsStructural(s, r, e);
      if !structural {
        SkipStep(s, r, i, adj);
        continue;
      }
      var from := FindNode(s, e.from);
      var to := FindNode(s, e.to);
      var row: seq<nat> := adj[from.value] + [to.value];
      ListStep(s, r, i, adj, from.value, to.value, adj[from.value := row]);
      adj := adj[from.value := row];
    }
  }

  lemma NoLists(s: Snapshot, r: Rules, adj: seq<seq<nat>>)
    requires |adj| == |s.nodes| && forall u :: 0 <= u < |adj| ==> adj[u] == []
    ensures Lists(s, r, 0, adj)
  {
  }

  method IsStructural(s: Snapshot, r: Rules, e: Edge) returns (b: bool)
    ensures b <==> StructuralEdge(s, r, e)
  {
    if e.layer != r.layer {
      return false;
    }
    var link := Contains(r.forbiddenLinks, e.id);
    var from := Contains(r.forbiddenNodes, e.from);
    var to := Contains(r.forbiddenNodes, e.to);
    b := !link && !from && !to;
  }

  method StructuralHopDistance(s: Snapshot, r: Rules, source: id16, destination: id16) returns (distance: Option<nat>)
    requires s.Valid()
    ensures source in s.nodes && destination in s.nodes ==> Minimum(s, r, source, destination, distance)
    ensures source != destination && !(source in s.nodes && destination in s.nodes) ==> distance.None?
  {
    hide Snapshot.Valid, Lists, Shortest, Minimum, Graph;
    if source == destination {
      if source in s.nodes {
        ZeroDistance(s, r, source);
      }
      return Some(0);
    }
    NodesAscending(s);
    var from := FindNode(s, source);
    var to := FindNode(s, destination);
    if from.None? || to.None? {
      return None;
    }
    var adj := BuildLists(s, r);
    ListsAreGraph(s, r, adj);
    distance := Distance(adj, from.value, to.value);
    ShortestIsMinimum(s, r, adj, from.value, to.value, distance);
  }

  lemma ZeroDistance(s: Snapshot, r: Rules, source: nat)
    requires source in s.nodes
    ensures Minimum(s, r, source, source, Some(0))
  {
    assert StructuralWalk(s, r, source, source, [source]);
  }

  lemma ListsAreGraph(s: Snapshot, r: Rules, adj: seq<seq<nat>>)
    requires s.Valid() && Lists(s, r, |s.edges|, adj)
    ensures Graph(adj) && |adj| == |s.nodes|
  {
  }

  function Identities(s: Snapshot, p: seq<nat>): (q: seq<nat>)
    requires forall i :: 0 <= i < |p| ==> p[i] < |s.nodes|
    ensures |q| == |p|
  {
    seq(|p|, i requires 0 <= i < |p| => s.nodes[p[i]])
  }

  lemma WalkIsStructural(s: Snapshot, r: Rules, adj: seq<seq<nat>>, u: nat, v: nat, p: seq<nat>)
    requires Lists(s, r, |s.edges|, adj) && WalkTo(adj, u, v, p)
    ensures u < |s.nodes| && v < |s.nodes| && StructuralWalk(s, r, s.nodes[u], s.nodes[v], Identities(s, p))
  {
    hide Arc;
    var q := Identities(s, p);
    forall i | 0 <= i < |q| - 1 ensures Arc(s, r, |s.edges|, q[i], q[i + 1]) {
      assert p[i + 1] in adj[p[i]];
    }
  }

  lemma StructuralIsWalk(s: Snapshot, r: Rules, adj: seq<seq<nat>>, u: nat, v: nat, p: seq<nat>) returns (q: seq<nat>)
    requires s.Valid() && Lists(s, r, |s.edges|, adj) && u < |s.nodes| && v < |s.nodes| && StructuralWalk(s, r, s.nodes[u], s.nodes[v], p)
    ensures WalkTo(adj, u, v, q) && |q| == |p|
  {
    NodesAscending(s);
    hide Arc, Snapshot.Valid;
    q := [];
    for i := 0 to |p|
      invariant |q| == i && forall k :: 0 <= k < i ==> q[k] < |s.nodes| && s.nodes[q[k]] == p[k]
    {
      var k: nat :| k < |s.nodes| && s.nodes[k] == p[i];
      q := q + [k];
    }
    forall i | 0 <= i < |q| - 1 ensures q[i + 1] in adj[q[i]] {
      assert Arc(s, r, |s.edges|, p[i], p[i + 1]);
    }
    Candidates.IndexOrder(s.nodes, q[0], u);
    Candidates.IndexOrder(s.nodes, q[|p| - 1], v);
  }

  lemma ShortestIsMinimum(s: Snapshot, r: Rules, adj: seq<seq<nat>>, u: nat, v: nat, distance: Option<nat>)
    requires s.Valid() && Lists(s, r, |s.edges|, adj) && u < |s.nodes| && v < |s.nodes| && Shortest(adj, u, v, distance)
    ensures Minimum(s, r, s.nodes[u], s.nodes[v], distance)
  {
    hide Snapshot.Valid, Lists, StructuralWalk, WalkTo;
    if distance.Some? {
      var p: seq<nat> :| WalkTo(adj, u, v, p) && |p| == distance.value + 1;
      WalkIsStructural(s, r, adj, u, v, p);
      WalkInRange(s, r, adj, u, v, p);
      assert StructuralWalk(s, r, s.nodes[u], s.nodes[v], Identities(s, p));
    }
    forall p: seq<nat> | StructuralWalk(s, r, s.nodes[u], s.nodes[v], p) ensures distance.Some? && distance.value <= |p| - 1 {
      var q := StructuralIsWalk(s, r, adj, u, v, p);
    }
  }

  lemma WalkInRange(s: Snapshot, r: Rules, adj: seq<seq<nat>>, u: nat, v: nat, p: seq<nat>)
    requires Lists(s, r, |s.edges|, adj) && WalkTo(adj, u, v, p)
    ensures forall i :: 0 <= i < |p| ==> p[i] < |s.nodes|
  {
  }

  /** Every eligible edge is a structural edge, so no eligible path is shorter than the structural
      distance: when that exceeds the hop bound, the bound is why there is no path. */
  lemma NoEligiblePathIsShorter(s: Snapshot, r: Rules, v: View, raw: RawPath, distance: Option<nat>)
    requires s.Valid() && v.Valid() && Exact(s, r, v) && IsWalk(v, raw)
    requires Minimum(s, r, v.nodeIds[raw.nodes[0]], v.nodeIds[raw.nodes[raw.Hops()]], distance)
    ensures distance.Some? && raw.Hops() >= distance.value
  {
    hide Snapshot.Valid, View.Valid, NodeEligible, StructuralWalk;
    var ids := seq(|raw.nodes|, i requires 0 <= i < |raw.nodes| => v.nodeIds[raw.nodes[i]]);
    EligibleIsStructural(s, r, v, raw, ids);
  }

  lemma EligibleIsStructural(s: Snapshot, r: Rules, v: View, raw: RawPath, ids: seq<nat>)
    requires s.Valid() && v.Valid() && Exact(s, r, v) && IsWalk(v, raw)
    requires |ids| == |raw.nodes| && forall i :: 0 <= i < |ids| ==> ids[i] == v.nodeIds[raw.nodes[i]]
    ensures StructuralWalk(s, r, v.nodeIds[raw.nodes[0]], v.nodeIds[raw.nodes[raw.Hops()]], ids)
  {
    hide Snapshot.Valid, View.Valid, NodeEligible, Exact, Arc;
    Candidates.NodesOfView(s, r, v);
    EligibleListed(s, r);
    forall i | 0 <= i < |ids| - 1 ensures Arc(s, r, |s.edges|, ids[i], ids[i + 1]) {
      assert v.InSlice(raw.nodes[i], raw.adjacency[i]) && v.To(raw.adjacency[i]) == raw.nodes[i + 1];
      EntryIsArc(s, r, v, raw.nodes[i], raw.adjacency[i]);
    }
  }

  lemma EntryIsArc(s: Snapshot, r: Rules, v: View, u: nat, a: nat)
    requires s.Valid() && v.Valid() && Exact(s, r, v) && v.InSlice(u, a)
    ensures u < |v.nodeIds| && v.To(a) < |v.nodeIds| && Arc(s, r, |s.edges|, v.nodeIds[u], v.nodeIds[v.To(a)])
  {
    hide Snapshot.Valid, View.Valid, Exact, EdgeEligible, StandsFor;
    var i := Candidates.EntryEdge(s, r, v, u, a);
    Candidates.StandsForLink(s, r, v.nodeIds, u, v.adjacency[a], i);
    EligibleEdgeIsStructural(s, r, s.edges[i]);
    assert i < |s.edges|;
  }

  lemma EligibleEdgeIsStructural(s: Snapshot, r: Rules, e: Edge)
    requires EdgeEligible(s, r, e)
    ensures StructuralEdge(s, r, e)
  {
    hide DomainsAllowed, RequirementKept;
  }
}
