/** Layered label tables, the walks that are tight in them, and why a greedy walk over the
    adjacency order is the canonical minimum.  Row h, column u of a table is the label of node u
    at hop count h; MAX_COST stands for "no label".  Both searches reconstruct from such a table. */
module Tight {
  import opened View
  import opened Order
  import opened Counting

  type Table = seq<seq<nat>>

  ghost predicate Shaped(v: View, t: Table, rows: nat) {
    |t| == rows && forall h :: 0 <= h < |t| ==> |t[h]| == v.NodeCount()
  }

  /** Entry a leads from node u at hop h to a label that is exactly one increment larger. */
  ghost predicate TightStep(v: View, bans: Bans, t: Table, h: nat, u: nat, a: nat) {
    && h + 1 < |t| && u < |t[h]| && v.To(a) < |t[h + 1]|
    && v.InSlice(u, a) && Open(v, bans, a)
    && t[h][u] < MAX_COST
    && t[h][u] + v.Increment(a) == t[h + 1][v.To(a)] < MAX_COST
  }

  /** A tight walk leads from (h, u) to node d in row last. */
  ghost predicate Reaches(v: View, bans: Bans, t: Table, last: nat, d: nat, h: nat, u: nat)
    decreases last - h
  {
    if h >= last then h == last && u == d
    else exists a :: TightStep(v, bans, t, h, u, a) && Reaches(v, bans, t, last, d, h + 1, v.To(a))
  }

  ghost predicate TightWalk(v: View, bans: Bans, t: Table, s: nat, p: RawPath) {
    && IsWalk(v, p) && p.nodes[0] == s
    && forall i :: 0 <= i < |p.adjacency| ==> TightStep(v, bans, t, i, p.nodes[i], p.adjacency[i])
  }

  ghost predicate TightTo(v: View, bans: Bans, t: Table, s: nat, last: nat, d: nat, p: RawPath) {
    TightWalk(v, bans, t, s, p) && p.Hops() == last && p.nodes[last] == d
  }

  lemma {:induction false} TightWalkReaches(v: View, bans: Bans, t: Table, s: nat, last: nat, d: nat, p: RawPath, i: nat)
    requires TightTo(v, bans, t, s, last, d, p) && i <= last
    ensures Reaches(v, bans, t, last, d, i, p.nodes[i])
    decreases last - i
  {
    if i < last {
      TightWalkReaches(v, bans, t, s, last, d, p, i + 1);
      assert TightStep(v, bans, t, i, p.nodes[i], p.adjacency[i]);
    }
  }

  lemma {:induction false} TightWalkCost(v: View, bans: Bans, t: Table, s: nat, p: RawPath, i: nat)
    requires TightWalk(v, bans, t, s, p) && i <= p.Hops()
    requires |t| > 0 && s < |t[0]| && t[0][s] == 0
    ensures i < |t| && p.nodes[i] < |t[i]| && t[i][p.nodes[i]] == Cost(v, p.adjacency[..i])
  {
    if i > 0 {
      TightWalkCost(v, bans, t, s, p, i - 1);
      CostStep(v, p.adjacency, i - 1);
      assert TightStep(v, bans, t, i - 1, p.nodes[i - 1], p.adjacency[i - 1]);
    }
  }

  ghost predicate StrictAt(a: seq<nat>, b: seq<nat>, k: nat) {
    k < |a| && k < |b| && (forall i :: 0 <= i < k ==> a[i] == b[i]) && a[k] < b[k]
  }

  ghost predicate StrictlyLeads(a: seq<nat>, b: seq<nat>) {
    exists k: nat :: StrictAt(a, b, k)
  }

  /** However g is extended, it will not come after q. */
  ghost predicate Leads(g: RawPath, q: RawPath) {
    || StrictlyLeads(g.nodes, q.nodes)
    || (g.nodes <= q.nodes && (g.adjacency <= q.adjacency || StrictlyLeads(g.adjacency, q.adjacency)))
  }

  lemma StrictExtends(a: seq<nat>, b: seq<nat>, x: nat)
    requires StrictlyLeads(a, b)
    ensures StrictlyLeads(a + [x], b)
  {
    var k: nat :| StrictAt(a, b, k);
    assert StrictAt(a + [x], b, k);
  }

  lemma LeadsStep(v: View, bans: Bans, t: Table, s: nat, last: nat, d: nat, g: RawPath, a: nat, q: RawPath)
    requires v.Valid()
    requires TightWalk(v, bans, t, s, g) && g.Hops() < last
    requires TightTo(v, bans, t, s, last, d, q)
    requires Leads(g, q)
    requires var h := g.Hops(); var u := g.nodes[h];
      v.InSlice(u, a) &&
      forall b: nat :: v.InSlice(u, b) && TightStep(v, bans, t, h, u, b) && Reaches(v, bans, t, last, d, h + 1, v.To(b)) ==> a <= b
    ensures Leads(Extend(v, g, a), q)
  {
    if StrictlyLeads(g.nodes, q.nodes) {
      StrictExtends(g.nodes, q.nodes, v.To(a));
    } else {
      TightWalkReaches(v, bans, t, s, last, d, q, g.Hops() + 1);
      EntryAfter(v, bans, t, s, last, d, g, a, q);
      LeadsMore(g, a, v.To(a), q);
    }
  }

  /** The entry q takes is not before the least one. */
  lemma EntryAfter(v: View, bans: Bans, t: Table, s: nat, last: nat, d: nat, g: RawPath, a: nat, q: RawPath)
    requires v.Valid() && TightWalk(v, bans, t, s, g) && g.Hops() < last && TightTo(v, bans, t, s, last, d, q)
    requires g.nodes <= q.nodes && Reaches(v, bans, t, last, d, g.Hops() + 1, q.nodes[g.Hops() + 1])
    requires var h := g.Hops(); var u := g.nodes[h];
      v.InSlice(u, a) &&
      forall b: nat :: v.InSlice(u, b) && TightStep(v, bans, t, h, u, b) && Reaches(v, bans, t, last, d, h + 1, v.To(b)) ==> a <= b
    ensures |g.nodes| == |g.adjacency| + 1 && |q.nodes| == |q.adjacency| + 1 && g.Hops() < q.Hops()
    ensures a <= q.adjacency[g.Hops()] && v.To(a) <= q.nodes[g.Hops() + 1]
  {
    hide Reaches;
    var h := g.Hops();
    var u, b := g.nodes[h], q.adjacency[h];
    assert q.nodes[h] == u && v.InSlice(u, b) && v.To(b) == q.nodes[h + 1];
    assert TightStep(v, bans, t, h, u, b);
    assert a < b ==> v.SliceOrdered(a, b);
  }

  lemma LeadsMore(g: RawPath, a: nat, w: nat, q: RawPath)
    requires |g.nodes| == |g.adjacency| + 1 && |q.nodes| == |q.adjacency| + 1 && |g.adjacency| < |q.adjacency|
    requires g.nodes <= q.nodes && (g.adjacency <= q.adjacency || StrictlyLeads(g.adjacency, q.adjacency))
    requires a <= q.adjacency[|g.adjacency|] && w <= q.nodes[|g.adjacency| + 1]
    ensures Leads(RawPath(g.nodes + [w], g.adjacency + [a]), q)
  {
    var h := |g.adjacency|;
    var nodes, entries := g.nodes + [w], g.adjacency + [a];
    if w < q.nodes[h + 1] {
      assert StrictAt(nodes, q.nodes, h + 1);
    } else {
      assert nodes <= q.nodes;
      if StrictlyLeads(g.adjacency, q.adjacency) {
        StrictExtends(g.adjacency, q.adjacency, a);
      } else if a < q.adjacency[h] {
        assert StrictAt(entries, q.adjacency, h);
      } else {
        assert entries <= q.adjacency;
      }
    }
  }

  lemma LeadsEnd(v: View, p: RawPath, q: RawPath)
    requires |p.nodes| == |q.nodes| && |p.adjacency| == |q.adjacency|
    requires Cost(v, p.adjacency) == Cost(v, q.adjacency)
    requires Leads(p, q)
    ensures NotAfter(v, p, q)
  {
    if StrictlyLeads(p.nodes, q.nodes) {
      var k: nat :| StrictAt(p.nodes, q.nodes, k);
      assert DiffersAt(p.nodes, q.nodes, k);
    } else if StrictlyLeads(p.adjacency, q.adjacency) {
      var k: nat :| StrictAt(p.adjacency, q.adjacency, k);
      assert DiffersAt(p.adjacency, q.adjacency, k);
    }
  }

  /** (cost, hops) is no worse than the label of any eligible path. */
  ghost predicate BestLabel(v: View, s: nat, d: nat, bound: nat, bans: Bans, cost: nat, hops: nat) {
    forall q :: Eligible(v, s, d, bound, bans, q) ==>
      cost < Cost(v, q.adjacency) || (cost == Cost(v, q.adjacency) && hops <= q.Hops())
  }

  lemma CutCost(v: View, x: seq<nat>, i: nat, j: nat)
    requires i <= j <= |x|
    ensures Cost(v, x[..i] + x[j..]) <= Cost(v, x)
  {
    CostSplit(v, x, j);
    CostSplit(v, x[..j], i);
    assert x[..j][..i] == x[..i];
    CostConcat(v, x[..i], x[j..]);
  }

  /** Cutting out the loop between two visits of one node gives a shorter walk that costs no more. */
  lemma CutLoop(v: View, s: nat, d: nat, bans: Bans, p: RawPath, i: nat, j: nat) returns (q: RawPath)
    requires WalkFrom(v, s, d, p) && Avoids(v, bans, p)
    requires i < j < |p.nodes| && p.nodes[i] == p.nodes[j]
    ensures WalkFrom(v, s, d, q) && Avoids(v, bans, q)
    ensures q.Hops() < p.Hops() && Cost(v, q.adjacency) <= Cost(v, p.adjacency)
  {
    hide Cost, View.InSlice, View.To, Open;
    q := RawPath(p.nodes[..i] + p.nodes[j..], p.adjacency[..i] + p.adjacency[j..]);
    CutCost(v, p.adjacency, i, j);
    forall k | 0 <= k < |q.adjacency|
      ensures v.InSlice(q.nodes[k], q.adjacency[k]) && v.To(q.adjacency[k]) == q.nodes[k + 1]
      ensures Open(v, bans, q.adjacency[k])
    {
      var l := if k < i then k else k - i + j;
      assert q.adjacency[k] == p.adjacency[l];
      assert q.nodes[k] == p.nodes[l];
      assert v.InSlice(p.nodes[l], p.adjacency[l]);
      assert q.nodes[k + 1] == p.nodes[l + 1];
    }
  }

  /** The completed greedy walk is the canonical answer. */
  lemma GreedyIsCanonical(v: View, s: nat, d: nat, bound: nat, bans: Bans, t: Table, last: nat, g: RawPath)
    requires v.Valid()
    requires last < |t| && s < |t[0]| && t[0][s] == 0 && d < |t[last]| && t[last][d] < MAX_COST
    requires WithinHops(bound, last)
    requires BestLabel(v, s, d, bound, bans, t[last][d], last)
    requires forall q :: Eligible(v, s, d, bound, bans, q) && Cost(v, q.adjacency) == t[last][d] && q.Hops() == last
               ==> TightTo(v, bans, t, s, last, d, q)
    requires TightTo(v, bans, t, s, last, d, g)
    requires forall q :: TightTo(v, bans, t, s, last, d, q) ==> Leads(g, q)
    ensures CanonicalAnswer(v, s, d, bound, bans, true, g)
  {
    TightWalkCost(v, bans, t, s, g, last);
    assert g.adjacency[..last] == g.adjacency;
    forall i | 0 <= i < |g.adjacency| ensures Open(v, bans, g.adjacency[i]) {
      assert TightStep(v, bans, t, i, g.nodes[i], g.adjacency[i]);
    }
    assert Eligible(v, s, d, bound, bans, g);
    forall i, j | 0 <= i < j < |g.nodes| ensures g.nodes[i] != g.nodes[j] {
      if g.nodes[i] == g.nodes[j] {
        var q := CutLoop(v, s, d, bans, g, i, j);
        assert Eligible(v, s, d, bound, bans, q);
        assert false;
      }
    }
    forall q | Eligible(v, s, d, bound, bans, q) ensures NotAfter(v, g, q) {
      if Cost(v, q.adjacency) == t[last][d] && q.Hops() == last {
        LeadsEnd(v, g, q);
      }
    }
  }

  /** a is the first entry out of (h, u) that a tight walk to (last, d) can take. */
  ghost predicate FirstExit(v: View, bans: Bans, t: Table, last: nat, d: nat, h: nat, u: nat, a: nat) {
    && Exit(v, bans, t, last, d, h, u, a)
    && forall b :: 0 <= b < a ==> !Exit(v, bans, t, last, d, h, u, b)
  }

  ghost predicate Exit(v: View, bans: Bans, t: Table, last: nat, d: nat, h: nat, u: nat, a: nat) {
    v.InSlice(u, a) && TightStep(v, bans, t, h, u, a) && Reaches(v, bans, t, last, d, h + 1, v.To(a))
  }

  /** The walk g was extended greedily so far: nothing tight can come before it. */
  ghost predicate Greedy(v: View, bans: Bans, t: Table, s: nat, last: nat, d: nat, g: RawPath) {
    && TightWalk(v, bans, t, s, g) && g.Hops() <= last
    && Reaches(v, bans, t, last, d, g.Hops(), g.nodes[g.Hops()])
    && forall q :: TightTo(v, bans, t, s, last, d, q) ==> Leads(g, q)
  }

  lemma GreedyStart(v: View, bans: Bans, t: Table, s: nat, last: nat, d: nat)
    requires s < v.NodeCount() && Reaches(v, bans, t, last, d, 0, s)
    ensures Greedy(v, bans, t, s, last, d, RawPath([s], []))
  {
  }

  lemma GreedyStep(v: View, bans: Bans, t: Table, s: nat, last: nat, d: nat, g: RawPath, a: nat)
    requires v.Valid() && Greedy(v, bans, t, s, last, d, g) && g.Hops() < last
    requires FirstExit(v, bans, t, last, d, g.Hops(), g.nodes[g.Hops()], a)
    ensures Greedy(v, bans, t, s, last, d, Extend(v, g, a))
  {
    hide View.Valid, Leads, TightTo;
    var h := g.Hops();
    var u := g.nodes[h];
    ExtendWalk(v, s, u, g, a);
    var g' := Extend(v, g, a);
    forall i | 0 <= i < |g'.adjacency| ensures TightStep(v, bans, t, i, g'.nodes[i], g'.adjacency[i]) {
      if i < h {
        assert TightStep(v, bans, t, i, g.nodes[i], g.adjacency[i]);
      }
    }
    forall b: nat | v.InSlice(u, b) && TightStep(v, bans, t, h, u, b) && Reaches(v, bans, t, last, d, h + 1, v.To(b)) ensures a <= b {
      assert Exit(v, bans, t, last, d, h, u, b);
    }
    forall q | TightTo(v, bans, t, s, last, d, q) ensures Leads(g', q) {
      LeadsStep(v, bans, t, s, last, d, g, a, q);
    }
  }

  lemma ExitExists(v: View, bans: Bans, t: Table, last: nat, d: nat, h: nat, u: nat)
    requires Reaches(v, bans, t, last, d, h, u) && h < last
    ensures exists a :: Exit(v, bans, t, last, d, h, u, a)
  {
    var a :| TightStep(v, bans, t, h, u, a) && Reaches(v, bans, t, last, d, h + 1, v.To(a));
    assert Exit(v, bans, t, last, d, h, u, a);
  }

  lemma ReachesByExit(v: View, bans: Bans, t: Table, last: nat, d: nat, h: nat, u: nat)
    requires h < last
    ensures Reaches(v, bans, t, last, d, h, u) <==> exists a :: Exit(v, bans, t, last, d, h, u, a)
  {
    if exists a :: Exit(v, bans, t, last, d, h, u, a) {
      var a :| Exit(v, bans, t, last, d, h, u, a);
    }
    if Reaches(v, bans, t, last, d, h, u) {
      ExitExists(v, bans, t, last, d, h, u);
    }
  }

  lemma ReachesLabelled(v: View, bans: Bans, t: Table, last: nat, d: nat, h: nat, u: nat)
    requires Reaches(v, bans, t, last, d, h, u)
    requires last < |t| && d < |t[last]| && t[last][d] < MAX_COST
    ensures h <= last && u < |t[h]| && t[h][u] < MAX_COST
  {
  }
}
