/** Ranked raw paths and their comparison by identities (src/search.cpp, RankedBefore). */
module Ranking {
  import opened View
  import opened Order
  import opened PathCosts

  datatype Ranked = Ranked(path: RawPath, cost: PathCost)

  ghost predicate WellRanked(v: View, s: nat, r: Ranked) {
    && IsWalk(v, r.path) && r.path.nodes[0] == s
    && r.cost.total == Cost(v, r.path.adjacency) && r.cost.hops == r.path.Hops()
  }

  /** Entries of one node that reach the same node over links with the same identity are one entry. */
  lemma SameLinkSameEntry(v: View, u: nat, a: nat, b: nat)
    requires v.Valid() && v.InSlice(u, a) && v.InSlice(u, b) && v.To(a) == v.To(b)
    ensures a < |v.adjacency| && b < |v.adjacency|
    ensures a < b <==> v.adjacency[a].link < v.adjacency[b].link
    ensures a == b <==> v.adjacency[a].link == v.adjacency[b].link
  {
    SliceFacts(v, u, a);
    SliceFacts(v, u, b);
    if a < b {
      assert v.SliceOrdered(a, b);
    } else if b < a {
      assert v.SliceOrdered(b, a);
    }
  }

  /** The comparison reads node and link identities; it decides the canonical order. */
  method RankedBefore(v: View, s: nat, lhs: Ranked, rhs: Ranked) returns (b: bool)
    requires v.Valid() && WellRanked(v, s, lhs) && WellRanked(v, s, rhs)
    ensures b <==> Before(v, lhs.path, rhs.path)
  {
    if lhs.cost.total != rhs.cost.total {
      return lhs.cost.total < rhs.cost.total;
    }
    if lhs.cost.hops != rhs.cost.hops {
      return lhs.cost.hops < rhs.cost.hops;
    }
    var p, q := lhs.path, rhs.path;
    var shared := if |p.nodes| < |q.nodes| then |p.nodes| else |q.nodes|;
    for i := 0 to shared
      invariant forall k :: 0 <= k < i ==> p.nodes[k] == q.nodes[k]
    {
      var left, right := v.nodeIds[p.nodes[i]], v.nodeIds[q.nodes[i]];
      if left != right {
        assert left < right <==> p.nodes[i] < q.nodes[i];
        DecidedAt(v, p.nodes, q.nodes, i);
        return left < right;
      }
    }
    assert p.nodes == q.nodes;
    if |p.nodes| != |q.nodes| {
      return |p.nodes| < |q.nodes|;
    }
    NotLess(p.nodes);
    var sharedHops := if |p.adjacency| < |q.adjacency| then |p.adjacency| else |q.adjacency|;
    for i := 0 to sharedHops
      invariant forall k :: 0 <= k < i ==> p.adjacency[k] == q.adjacency[k]
    {
      assert v.To(p.adjacency[i]) == p.nodes[i + 1] && v.To(q.adjacency[i]) == q.nodes[i + 1];
      SameLinkSameEntry(v, p.nodes[i], p.adjacency[i], q.adjacency[i]);
      var left, right := v.adjacency[p.adjacency[i]].link, v.adjacency[q.adjacency[i]].link;
      if left != right {
        DecidedAt(v, p.adjacency, q.adjacency, i);
        return left < right;
      }
    }
    assert p.adjacency == q.adjacency;
    NotLess(p.adjacency);
    b := false;
  }

  lemma DecidedAt(v: View, a: seq<nat>, b: seq<nat>, i: nat)
    requires i < |a| == |b| && (forall k :: 0 <= k < i ==> a[k] == b[k]) && a[i] != b[i]
    ensures LexLess(a, b) <==> a[i] < b[i]
    ensures a != b
  {
    if a[i] < b[i] {
      assert DiffersAt(a, b, i);
    } else {
      assert DiffersAt(b, a, i);
      LexAsymmetric(b, a);
    }
  }

  lemma NotLess(a: seq<nat>)
    ensures !LexLess(a, a)
  {
  }
}
