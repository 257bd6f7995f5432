/** The eligible view a search runs on, and the walks through it.

    Node and link identities are 16-byte strings compared bytewise; here they are the natural
    numbers those bytes spell, which are ordered the same way.  A hop count or index of the
    source is 32 bits wide, a cost 64 bits wide; every bound that matters is written out. */
module View {
  import opened Values
  import opened Wrappers
  import opened Counting

  const MAX_COST: nat := 0xFFFF_FFFF_FFFF_FFFF
  const NO_HOP_BOUND: nat := 0xFFFF_FFFF
  const INFINITE_HOPS: nat := 0xFFFF_FFFF

  /** One CSR entry: the view node it leads to, the link it traverses, and its resolved costs. */
  datatype Adjacency = Adjacency(
    to: nat,
    link: id16,
    staticCost: nat,
    degraded: bool,
    outsideLocality: bool,
    traversalCost: nat)

  datatype CostModel = CostModel(hopCost: nat, degradedPenalty: nat, localityPenalty: nat)

  datatype View = View(
    nodeIds: seq<id16>,
    offsets: seq<nat>,
    adjacency: seq<Adjacency>,
    costModel: CostModel,
    maxSearchStates: nat)
  {
    function NodeCount(): nat { |nodeIds| }

    predicate InSlice(u: nat, a: nat) {
      u + 1 < |offsets| && offsets[u] <= a < offsets[u + 1]
    }

    /** What view construction guarantees (proved of it in module ViewBuild). */
    ghost predicate Valid() {
      && |nodeIds| <= INFINITE_HOPS
      && |offsets| == |nodeIds| + 1
      && offsets[0] == 0
      && offsets[|nodeIds|] == |adjacency|
      && (forall i, j :: 0 <= i <= j <= |nodeIds| ==> offsets[i] <= offsets[j])
      && (forall i, j :: 0 <= i < j < |nodeIds| ==> nodeIds[i] < nodeIds[j])
      && (forall a :: 0 <= a < |adjacency| ==> adjacency[a].to < |nodeIds|)
      && (forall u, a, b :: InSlice(u, a) && InSlice(u, b) && a < b ==> SliceOrdered(a, b))
      && costModel.hopCost <= MAX_COST
      && (forall a :: 0 <= a < |adjacency| ==> CostResolved(a))
    }

    /** The traversal cost of an entry is its static cost plus the penalties that apply to it. */
    predicate CostResolved(a: nat)
      requires a < |adjacency|
    {
      var e := adjacency[a];
      && e.traversalCost <= MAX_COST
      && e.traversalCost == e.staticCost + (if e.degraded then costModel.degradedPenalty else 0)
                            + (if e.outsideLocality then costModel.localityPenalty else 0)
    }

    predicate SliceOrdered(a: nat, b: nat) {
      a < |adjacency| && b < |adjacency| &&
      (adjacency[a].to < adjacency[b].to ||
       (adjacency[a].to == adjacency[b].to && adjacency[a].link < adjacency[b].link))
    }

    function To(a: nat): nat {
      if a < |adjacency| then adjacency[a].to else 0
    }

    /** Exact (unbounded) increment of a hop; the searches add it with overflow checks. */
    function Increment(a: nat): nat {
      if a < |adjacency| then costModel.hopCost + adjacency[a].traversalCost else 0
    }

    /** No two adjacency entries join the same ordered pair of nodes. */
    ghost predicate NoParallel() {
      forall u, a, b :: InSlice(u, a) && InSlice(u, b) && To(a) == To(b) ==> a == b
    }
  }

  lemma SliceFacts(v: View, u: nat, a: nat)
    requires v.Valid() && v.InSlice(u, a)
    ensures a < |v.adjacency| && v.adjacency[a].to < v.NodeCount() && v.To(a) == v.adjacency[a].to
  {
    assert v.offsets[u + 1] <= v.offsets[|v.nodeIds|];
  }

  lemma SliceRange(v: View, u: nat)
    requires v.Valid() && u < v.NodeCount()
    ensures u + 1 < |v.offsets| && v.offsets[u] <= v.offsets[u + 1] <= |v.adjacency|
  {
  }

  lemma IncrementFacts(v: View, a: nat)
    requires v.Valid() && a < |v.adjacency|
    ensures v.Increment(a) == v.costModel.hopCost + v.adjacency[a].traversalCost
  {
  }

  /** A walk extended by one open entry. */
  lemma ExtendWalk(v: View, s: nat, u: nat, p: RawPath, a: nat)
    requires v.Valid() && WalkFrom(v, s, u, p) && v.InSlice(u, a)
    ensures WalkFrom(v, s, v.To(a), Extend(v, p, a))
    ensures Cost(v, Extend(v, p, a).adjacency) == Cost(v, p.adjacency) + v.Increment(a)
  {
    SliceFacts(v, u, a);
    hide View.Valid;
    CostAppend(v, p.adjacency, a);
    var q := Extend(v, p, a);
    forall i | 0 <= i < |q.adjacency| ensures v.InSlice(q.nodes[i], q.adjacency[i]) && v.To(q.adjacency[i]) == q.nodes[i + 1] {
      if i < |p.adjacency| {
        assert q.nodes[i] == p.nodes[i] && q.nodes[i + 1] == p.nodes[i + 1];
      }
    }
  }

  function Extend(v: View, g: RawPath, a: nat): RawPath {
    RawPath(g.nodes + [v.To(a)], g.adjacency + [a])
  }

  /** Checked 64-bit addition. */
  function CheckedAdd(x: nat, y: nat): Option<nat> {
    if x + y > MAX_COST then None else Some(x + y)
  }

  datatype RawPath = RawPath(nodes: seq<nat>, adjacency: seq<nat>) {
    function Hops(): nat { |adjacency| }
  }

  ghost predicate IsWalk(v: View, p: RawPath) {
    && |p.nodes| == |p.adjacency| + 1
    && (forall i :: 0 <= i < |p.nodes| ==> p.nodes[i] < v.NodeCount())
    && (forall i :: 0 <= i < |p.adjacency| ==> v.InSlice(p.nodes[i], p.adjacency[i]) && v.To(p.adjacency[i]) == p.nodes[i + 1])
  }

  ghost predicate WalkFrom(v: View, s: nat, d: nat, p: RawPath) {
    IsWalk(v, p) && p.nodes[0] == s && p.nodes[|p.adjacency|] == d
  }

  ghost predicate Simple(p: RawPath) {
    Distinct(p.nodes)
  }

  /** Exact cost of a hop sequence. */
  function Cost(v: View, hops: seq<nat>): nat {
    if hops == [] then 0 else Cost(v, hops[..|hops| - 1]) + v.Increment(hops[|hops| - 1])
  }

  lemma {:induction false} CostConcat(v: View, x: seq<nat>, y: seq<nat>)
    ensures Cost(v, x + y) == Cost(v, x) + Cost(v, y)
    decreases |y|
  {
    if y == [] {
      assert x + y == x;
    } else {
      var y' := y[..|y| - 1];
      CostConcat(v, x, y');
      assert (x + y)[..|x + y| - 1] == x + y';
    }
  }

  lemma CostSplit(v: View, x: seq<nat>, k: nat)
    requires k <= |x|
    ensures Cost(v, x) == Cost(v, x[..k]) + Cost(v, x[k..])
  {
    assert x == x[..k] + x[k..];
    CostConcat(v, x[..k], x[k..]);
  }

  lemma CostStep(v: View, x: seq<nat>, k: nat)
    requires k < |x|
    ensures Cost(v, x[..k + 1]) == Cost(v, x[..k]) + v.Increment(x[k])
  {
    assert x[..k + 1][..k] == x[..k];
  }

  lemma CostAppend(v: View, x: seq<nat>, a: nat)
    ensures Cost(v, x + [a]) == Cost(v, x) + v.Increment(a)
  {
    assert (x + [a])[..|x|] == x;
  }

  /** Nodes and adjacency entries excluded from one search. */
  datatype Bans = Bans(nodes: set<nat>, entries: set<nat>)

  const NO_BANS := Bans({}, {})

  predicate Open(v: View, bans: Bans, a: nat) {
    a !in bans.entries && v.To(a) !in bans.nodes
  }

  ghost predicate Avoids(v: View, bans: Bans, p: RawPath) {
    forall i :: 0 <= i < |p.adjacency| ==> Open(v, bans, p.adjacency[i])
  }

  predicate WithinHops(bound: nat, hops: nat) {
    bound == NO_HOP_BOUND || hops <= bound
  }

  /** The paths one search chooses from. */
  ghost predicate Eligible(v: View, s: nat, d: nat, bound: nat, bans: Bans, p: RawPath) {
    && WalkFrom(v, s, d, p)
    && Avoids(v, bans, p)
    && WithinHops(bound, p.Hops())
    && Cost(v, p.adjacency) < MAX_COST
  }

  function Prefix(p: RawPath, k: nat): (r: RawPath)
    requires |p.nodes| == |p.adjacency| + 1 && k <= |p.adjacency|
  {
    RawPath(p.nodes[..k + 1], p.adjacency[..k])
  }

  function Suffix(p: RawPath, k: nat): (r: RawPath)
    requires |p.nodes| == |p.adjacency| + 1 && k <= |p.adjacency|
  {
    RawPath(p.nodes[k..], p.adjacency[k..])
  }

  /** Concatenation of two paths that share the joining node. */
  function Join(p: RawPath, q: RawPath): (r: RawPath)
    requires |q.nodes| >= 1
  {
    RawPath(p.nodes + q.nodes[1..], p.adjacency + q.adjacency)
  }

  lemma JoinWalk(v: View, s: nat, m: nat, d: nat, p: RawPath, q: RawPath)
    requires WalkFrom(v, s, m, p) && WalkFrom(v, m, d, q)
    ensures WalkFrom(v, s, d, Join(p, q))
    ensures Cost(v, Join(p, q).adjacency) == Cost(v, p.adjacency) + Cost(v, q.adjacency)
    ensures forall k :: |p.adjacency| <= k < |Join(p, q).nodes| ==> Join(p, q).nodes[k] == q.nodes[k - |p.adjacency|]
  {
    CostConcat(v, p.adjacency, q.adjacency);
    var j := Join(p, q);
    forall k | |p.adjacency| <= k < |j.nodes|
      ensures j.nodes[k] == q.nodes[k - |p.adjacency|]
    {
      if k > |p.adjacency| {
        assert j.nodes[k] == q.nodes[1..][k - |p.nodes|];
      }
    }
    forall i | 0 <= i < |j.adjacency|
      ensures v.InSlice(j.nodes[i], j.adjacency[i]) && v.To(j.adjacency[i]) == j.nodes[i + 1]
    {
      if i >= |p.adjacency| {
        assert j.adjacency[i] == q.adjacency[i - |p.adjacency|];
      }
    }
  }

  lemma PrefixWalk(v: View, p: RawPath, k: nat)
    requires IsWalk(v, p) && k <= |p.adjacency|
    ensures WalkFrom(v, p.nodes[0], p.nodes[k], Prefix(p, k))
  {
  }

  lemma SuffixWalk(v: View, p: RawPath, k: nat)
    requires IsWalk(v, p) && k <= |p.adjacency|
    ensures WalkFrom(v, p.nodes[k], p.nodes[|p.adjacency|], Suffix(p, k))
    ensures Join(Prefix(p, k), Suffix(p, k)) == p
  {
    assert p.nodes == p.nodes[..k + 1] + p.nodes[k..][1..];
    assert p.adjacency == p.adjacency[..k] + p.adjacency[k..];
  }

  /** A walk is determined by its first node and its adjacency entries. */
  lemma {:induction false} WalkDetermined(v: View, p: RawPath, q: RawPath)
    requires IsWalk(v, p) && IsWalk(v, q)
    requires p.nodes[0] == q.nodes[0] && p.adjacency == q.adjacency
    ensures p == q
  {
    WalkNodesAgree(v, p, q, |p.adjacency|);
    assert p.nodes == p.nodes[..|p.adjacency| + 1] == q.nodes[..|p.adjacency| + 1] == q.nodes;
  }

  /** Walks agree on as many nodes as they share adjacency entries. */
  lemma {:induction false} WalkNodesAgree(v: View, p: RawPath, q: RawPath, k: nat)
    requires IsWalk(v, p) && IsWalk(v, q)
    requires k <= |p.adjacency| && k <= |q.adjacency|
    requires p.nodes[0] == q.nodes[0] && p.adjacency[..k] == q.adjacency[..k]
    ensures p.nodes[..k + 1] == q.nodes[..k + 1]
  {
    if k > 0 {
      assert p.adjacency[..k - 1] == p.adjacency[..k][..k - 1] == q.adjacency[..k][..k - 1] == q.adjacency[..k - 1];
      WalkNodesAgree(v, p, q, k - 1);
      assert p.adjacency[k - 1] == p.adjacency[..k][k - 1] == q.adjacency[..k][k - 1] == q.adjacency[k - 1];
      assert p.nodes[..k + 1] == p.nodes[..k] + [p.nodes[k]];
      assert q.nodes[..k + 1] == q.nodes[..k] + [q.nodes[k]];
    }
  }

  /** A simple walk visits at most every node once. */
  lemma SimpleHopBound(v: View, p: RawPath)
    requires IsWalk(v, p) && Simple(p)
    ensures |p.nodes| <= v.NodeCount()
  {
    DistinctBounded(p.nodes, v.NodeCount());
  }
}
