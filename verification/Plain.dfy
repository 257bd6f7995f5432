/** Search when the hop bound cannot bind: Dijkstra over nodes with lexicographic (cost, hops)
    labels (src/search.cpp, PlainSearch). */
module Plain {
  import opened Wrappers
  import opened Counting
  import opened View
  import opened Order
  import opened Tight
  import opened Queue
  import opened Expanded

  /** The mutable state of the labels phase, with a ghost witness path per labelled node. */
  datatype Labelling = Labelling(dist: seq<nat>, hops: seq<nat>, settled: seq<bool>, ghost paths: seq<RawPath>)

  ghost predicate Sized(v: View, l: Labelling) {
    |l.dist| == |l.hops| == |l.settled| == |l.paths| == v.NodeCount()
  }

  predicate LabelLe(c: nat, h: nat, otherCost: nat, otherHops: nat) {
    !BetterLabel(otherCost, otherHops, c, h)
  }

  /** A labelled node has a simple open path with exactly that label, all but its last node settled. */
  ghost predicate Witnessed(v: View, s: nat, bans: Bans, l: Labelling, u: nat)
    requires Sized(v, l) && u < v.NodeCount()
  {
    var p := l.paths[u];
    && WalkFrom(v, s, u, p) && Avoids(v, bans, p) && Simple(p)
    && Cost(v, p.adjacency) == l.dist[u] && p.Hops() == l.hops[u]
    && forall i :: 0 <= i < |p.adjacency| ==> l.settled[p.nodes[i]]
  }

  ghost predicate NodeInv(v: View, s: nat, bans: Bans, l: Labelling, u: nat)
    requires Sized(v, l) && u < v.NodeCount()
  {
    && l.dist[u] <= MAX_COST
    && (l.hops[u] == INFINITE_HOPS ==> l.dist[u] == MAX_COST && !l.settled[u])
    && (l.hops[u] != INFINITE_HOPS ==> Witnessed(v, s, bans, l, u))
  }

  /** Every open entry out of u whose cost fits is reflected in the label it leads to. */
  ghost predicate EntryRelaxed(v: View, bans: Bans, l: Labelling, u: nat, a: nat)
    requires Sized(v, l) && u < v.NodeCount() && v.To(a) < v.NodeCount()
  {
    Open(v, bans, a) && l.dist[u] + v.Increment(a) <= MAX_COST ==>
      LabelLe(l.dist[v.To(a)], l.hops[v.To(a)], l.dist[u] + v.Increment(a), l.hops[u] + 1)
  }

  ghost predicate NodeRelaxed(v: View, bans: Bans, l: Labelling, u: nat, below: nat)
    requires Sized(v, l) && u < v.NodeCount()
  {
    forall a :: 0 <= a < below && v.InSlice(u, a) && v.To(a) < v.NodeCount() ==> EntryRelaxed(v, bans, l, u, a)
  }

  ghost predicate Nodes(v: View, s: nat, bans: Bans, l: Labelling) {
    && Sized(v, l) && s < v.NodeCount()
    && l.dist[s] == 0 && l.hops[s] == 0
    && forall u :: 0 <= u < v.NodeCount() ==> NodeInv(v, s, bans, l, u)
  }

  predicate Queued(l: Labelling, low: Entry, e: Entry)
    requires |l.dist| == |l.hops|
  {
    && e.node < |l.dist| && e.hops < INFINITE_HOPS && e.cost <= MAX_COST
    && LabelLe(low.cost, low.hops, e.cost, e.hops)
    && LabelLe(l.dist[e.node], l.hops[e.node], e.cost, e.hops)
  }

  /** Settled labels are final: none is above the level popped last, none queued is below it. */
  ghost predicate Levels(v: View, l: Labelling, q: seq<Entry>, low: Entry) {
    && Sized(v, l)
    && (forall u :: 0 <= u < v.NodeCount() && l.settled[u] ==> LabelLe(l.dist[u], l.hops[u], low.cost, low.hops))
    && (forall e :: e in q ==> Queued(l, low, e))
    && (forall u :: 0 <= u < v.NodeCount() && l.hops[u] != INFINITE_HOPS && !l.settled[u] ==> Entry(l.dist[u], l.hops[u], u) in q)
  }

  /** All settled nodes except one are relaxed; of that one, the entries below index a are. */
  ghost predicate Relaxations(v: View, bans: Bans, l: Labelling, node: nat, a: nat) {
    && Sized(v, l)
    && forall u :: 0 <= u < v.NodeCount() && l.settled[u] ==> NodeRelaxed(v, bans, l, u, if u == node then a else |v.adjacency|)
  }

  /** The hop bound, if any, is at least V - 1. */
  predicate CannotBind(v: View, bound: nat) {
    bound == NO_HOP_BOUND || bound + 1 >= v.NodeCount()
  }

  ghost predicate Busy(v: View, s: nat, bans: Bans, l: Labelling, q: seq<Entry>, entry: Entry, a: nat) {
    && Nodes(v, s, bans, l) && Levels(v, l, q, entry) && Relaxations(v, bans, l, entry.node, a)
    && entry.node < v.NodeCount() && l.settled[entry.node]
    && l.dist[entry.node] == entry.cost && l.hops[entry.node] == entry.hops
  }

  ghost predicate Idle(v: View, s: nat, bans: Bans, l: Labelling, q: seq<Entry>, low: Entry) {
    Nodes(v, s, bans, l) && Levels(v, l, q, low) && Relaxations(v, bans, l, v.NodeCount(), 0)
  }

  lemma BusyFacts(v: View, s: nat, bans: Bans, l: Labelling, q: seq<Entry>, entry: Entry, a: nat)
    requires v.Valid() && Busy(v, s, bans, l, q, entry, a)
    ensures Sized(v, l) && entry.node < v.NodeCount() && l.settled[entry.node]
    ensures l.dist[entry.node] == entry.cost <= MAX_COST && l.hops[entry.node] == entry.hops < v.NodeCount() < INFINITE_HOPS + 1
    ensures entry.hops + 1 == v.NodeCount() ==> forall w :: 0 <= w < v.NodeCount() ==> l.settled[w]
  {
    assert v.NodeCount() <= INFINITE_HOPS;
    hide View.Valid, Levels, Relaxations, IsWalk, Cost;
    var u := entry.node;
    assert NodeInv(v, s, bans, l, u);
    var p := l.paths[u];
    assert |p.nodes| == |p.adjacency| + 1 && forall i :: 0 <= i < |p.nodes| ==> p.nodes[i] < v.NodeCount() by {
      WalkShape(v, p);
    }
    DistinctBounded(p.nodes, v.NodeCount());
    if entry.hops + 1 == v.NodeCount() {
      forall w | 0 <= w < v.NodeCount() ensures l.settled[w] {
        assert w in p.nodes;
        var i :| 0 <= i < |p.nodes| && p.nodes[i] == w;
        if i == |p.adjacency| {
          assert w == u;
        }
      }
    }
  }

  lemma WalkShape(v: View, p: RawPath)
    requires IsWalk(v, p)
    ensures |p.nodes| == |p.adjacency| + 1 && forall i :: 0 <= i < |p.nodes| ==> p.nodes[i] < v.NodeCount()
  {
  }

  ghost function Relabelled(l: Labelling, w: nat, c: nat, h: nat, p: RawPath): (r: Labelling)
    requires |l.dist| == |l.hops| == |l.settled| == |l.paths| && w < |l.dist|
    ensures |r.dist| == |r.hops| == |r.settled| == |r.paths| == |l.dist| && r.settled == l.settled
    ensures forall u :: 0 <= u < |l.dist| ==>
      r.dist[u] == (if u == w then c else l.dist[u]) && r.hops[u] == (if u == w then h else l.hops[u])
      && r.paths[u] == (if u == w then p else l.paths[u])
  {
    Labelling(l.dist[w := c], l.hops[w := h], l.settled, l.paths[w := p])
  }

  ghost predicate Better(v: View, bans: Bans, l: Labelling, entry: Entry, a: nat)
    requires Sized(v, l)
  {
    var w, c := v.To(a), entry.cost + v.Increment(a);
    && w < v.NodeCount() && v.InSlice(entry.node, a) && Open(v, bans, a) && c <= MAX_COST
    && BetterLabel(c, entry.hops + 1, l.dist[w], l.hops[w])
  }

  lemma BetterIsUnsettled(v: View, s: nat, bans: Bans, l: Labelling, q: seq<Entry>, entry: Entry, a: nat)
    requires v.Valid() && Busy(v, s, bans, l, q, entry, a) && Better(v, bans, l, entry, a)
    ensures !l.settled[v.To(a)] && entry.hops + 1 < v.NodeCount() && v.To(a) != s
  {
    BusyFacts(v, s, bans, l, q, entry, a);
    hide View.Valid, NodeInv, Relaxations;
  }

  lemma RelabelNodes(v: View, s: nat, bans: Bans, l: Labelling, q: seq<Entry>, entry: Entry, a: nat)
    requires v.Valid() && Busy(v, s, bans, l, q, entry, a) && Better(v, bans, l, entry, a)
    ensures Nodes(v, s, bans, Relabelled(l, v.To(a), entry.cost + v.Increment(a), entry.hops + 1, Extend(v, l.paths[entry.node], a)))
  {
    hide View.Valid, Relaxations, Levels, IsWalk, Relabelled;
    BusyFacts(v, s, bans, l, q, entry, a);
    BetterIsUnsettled(v, s, bans, l, q, entry, a);
    assert NodeInv(v, s, bans, l, entry.node);
    var p, w := l.paths[entry.node], v.To(a);
    WalkShape(v, p);
    ExtendWalk(v, s, entry.node, p, a);
    var p' := Extend(v, p, a);
    var l' := Relabelled(l, w, entry.cost + v.Increment(a), entry.hops + 1, p');
    assert forall i :: 0 <= i < |p.nodes| ==> l.settled[p.nodes[i]];
    assert Simple(p');
    assert forall i :: 0 <= i < |p.nodes| ==> p'.nodes[i] == p.nodes[i];
    assert Avoids(v, bans, p');
    assert NodeInv(v, s, bans, l', w);
    forall u | 0 <= u < v.NodeCount() ensures NodeInv(v, s, bans, l', u) {
      assert NodeInv(v, s, bans, l, u);
    }
  }

  lemma RelabelLevels(v: View, s: nat, bans: Bans, l: Labelling, q: seq<Entry>, entry: Entry, a: nat, p: RawPath)
    requires v.Valid() && Busy(v, s, bans, l, q, entry, a) && Better(v, bans, l, entry, a)
    ensures var c := entry.cost + v.Increment(a);
      Levels(v, Relabelled(l, v.To(a), c, entry.hops + 1, p), q + [Entry(c, entry.hops + 1, v.To(a))], entry)
  {
    BetterIsUnsettled(v, s, bans, l, q, entry, a);
    assert v.NodeCount() <= INFINITE_HOPS;
    hide View.Valid, Relaxations, NodeInv, Relabelled;
  }

  lemma RelabelRelaxations(v: View, s: nat, bans: Bans, l: Labelling, q: seq<Entry>, entry: Entry, a: nat, p: RawPath)
    requires v.Valid() && Busy(v, s, bans, l, q, entry, a) && Better(v, bans, l, entry, a)
    ensures Relaxations(v, bans, Relabelled(l, v.To(a), entry.cost + v.Increment(a), entry.hops + 1, p), entry.node, a + 1)
  {
    BetterIsUnsettled(v, s, bans, l, q, entry, a);
    hide View.Valid, NodeInv, Levels, Relabelled;
    var w := v.To(a);
    var l' := Relabelled(l, w, entry.cost + v.Increment(a), entry.hops + 1, p);
    forall u | 0 <= u < v.NodeCount() && l'.settled[u]
      ensures NodeRelaxed(v, bans, l', u, if u == entry.node then a + 1 else |v.adjacency|)
    {
      assert NodeRelaxed(v, bans, l, u, if u == entry.node then a else |v.adjacency|);
    }
  }

  lemma RelabelBusy(v: View, s: nat, bans: Bans, l: Labelling, q: seq<Entry>, entry: Entry, a: nat)
    requires v.Valid() && Busy(v, s, bans, l, q, entry, a) && Better(v, bans, l, entry, a)
    ensures var c := entry.cost + v.Increment(a);
      Busy(v, s, bans, Relabelled(l, v.To(a), c, entry.hops + 1, Extend(v, l.paths[entry.node], a)),
           q + [Entry(c, entry.hops + 1, v.To(a))], entry, a + 1)
  {
    hide View.Valid, Nodes, Levels, Relaxations, Relabelled;
    BusyFacts(v, s, bans, l, q, entry, a);
    BetterIsUnsettled(v, s, bans, l, q, entry, a);
    RelabelNodes(v, s, bans, l, q, entry, a);
    RelabelLevels(v, s, bans, l, q, entry, a, Extend(v, l.paths[entry.node], a));
    RelabelRelaxations(v, s, bans, l, q, entry, a, Extend(v, l.paths[entry.node], a));
  }

  lemma SkipBusy(v: View, s: nat, bans: Bans, l: Labelling, q: seq<Entry>, entry: Entry, a: nat)
    requires Busy(v, s, bans, l, q, entry, a)
    requires v.To(a) < v.NodeCount() && EntryRelaxed(v, bans, l, entry.node, a)
    ensures Busy(v, s, bans, l, q, entry, a + 1)
  {
    hide View.Valid, Nodes, Levels, EntryRelaxed;
  }

  /** An entry cut off by a hop bound that cannot bind leads to a node already settled. */
  lemma BeyondBoundIsRelaxed(v: View, s: nat, bans: Bans, l: Labelling, q: seq<Entry>, entry: Entry, a: nat, bound: nat)
    requires v.Valid() && Busy(v, s, bans, l, q, entry, a) && v.To(a) < v.NodeCount()
    requires CannotBind(v, bound) && bound != NO_HOP_BOUND && entry.hops + 1 > bound
    ensures EntryRelaxed(v, bans, l, entry.node, a)
  {
    BusyFacts(v, s, bans, l, q, entry, a);
    hide View.Valid, NodeInv, Relaxations;
    assert l.settled[v.To(a)];
  }

  /** Relaxes one entry out of the node just settled. */
  method RelaxEntry(v: View, s: nat, bound: nat, bans: Bans, budget: WorkBudget, entry: Entry, a: nat, l0: Labelling, q0: seq<Entry>)
    returns (limited: bool, overflow: bool, l: Labelling, q: seq<Entry>)
    requires v.Valid() && v.InSlice(entry.node, a) && CannotBind(v, bound)
    requires Busy(v, s, bans, l0, q0, entry, a)
    requires budget.Honest()
    modifies budget
    ensures budget.Honest()
    ensures budget.spurRemaining == old(budget.spurRemaining) && budget.stateSpaceExceeded == old(budget.stateSpaceExceeded)
    ensures limited ==> budget.exhausted && (old(budget.statesRemaining) == 0 || old(budget.pushesRemaining) == 0)
    ensures !limited ==> |q| + budget.pushesRemaining == |q0| + old(budget.pushesRemaining)
    ensures !limited ==> budget.statesRemaining + 1 >= old(budget.statesRemaining) && budget.pushesRemaining + 1 >= old(budget.pushesRemaining)
    ensures !limited ==> Busy(v, s, bans, l, q, entry, a + 1) && l.settled == l0.settled
  {
    hide View.Valid, Busy, Nodes, Levels, Relaxations;
    limited, overflow, l, q := false, false, l0, q0;
    SliceFacts(v, entry.node, a);
    IncrementFacts(v, a);
    BusyFacts(v, s, bans, l, q, entry, a);
    var candidate := v.adjacency[a];
    if a in bans.entries || candidate.to in bans.nodes {
      SkipBusy(v, s, bans, l, q, entry, a);
      return;
    }
    var nextHops := l.hops[entry.node] + 1;
    if bound != NO_HOP_BOUND && nextHops > bound {
      BeyondBoundIsRelaxed(v, s, bans, l, q, entry, a, bound);
      SkipBusy(v, s, bans, l, q, entry, a);
      return;
    }
    var increment := CheckedAdd(v.costModel.hopCost, candidate.traversalCost);
    var nextCost := if increment.None? then None else CheckedAdd(entry.cost, increment.value);
    if nextCost.None? {
      overflow := true;
      SkipBusy(v, s, bans, l, q, entry, a);
      return;
    }
    var spent := budget.SpendState();
    if !spent {
      limited := true;
      return;
    }
    if !BetterLabel(nextCost.value, nextHops, l.dist[candidate.to], l.hops[candidate.to]) {
      SkipBusy(v, s, bans, l, q, entry, a);
      return;
    }
    RelabelBusy(v, s, bans, l, q, entry, a);
    l := Labelling(l.dist[candidate.to := nextCost.value], l.hops[candidate.to := nextHops], l.settled,
                   l.paths[candidate.to := Extend(v, l.paths[entry.node], a)]);
    q := q + [Entry(nextCost.value, nextHops, candidate.to)];
    spent := budget.SpendPush();
    limited := !spent;
  }

  method ExpandNode(v: View, s: nat, bound: nat, bans: Bans, budget: WorkBudget, entry: Entry, l0: Labelling, q0: seq<Entry>)
    returns (limited: bool, overflow: bool, l: Labelling, q: seq<Entry>)
    requires v.Valid() && entry.node < v.NodeCount() && CannotBind(v, bound)
    requires Busy(v, s, bans, l0, q0, entry, v.offsets[entry.node])
    requires budget.Honest()
    modifies budget
    ensures budget.Honest()
    ensures budget.spurRemaining == old(budget.spurRemaining) && budget.stateSpaceExceeded == old(budget.stateSpaceExceeded)
    ensures v.offsets[entry.node] <= v.offsets[entry.node + 1]
    ensures var work := v.offsets[entry.node + 1] - v.offsets[entry.node];
      && (limited ==> budget.exhausted && (old(budget.statesRemaining) < work || old(budget.pushesRemaining) < work))
      && (!limited ==> budget.statesRemaining + work >= old(budget.statesRemaining) && budget.pushesRemaining + work >= old(budget.pushesRemaining))
    ensures !limited ==> |q| + budget.pushesRemaining == |q0| + old(budget.pushesRemaining)
    ensures !limited ==> Busy(v, s, bans, l, q, entry, v.offsets[entry.node + 1]) && l.settled == l0.settled
  {
    hide View.Valid, Busy;
    limited, overflow, l, q := false, false, l0, q0;
    SliceRange(v, entry.node);
    var a := v.offsets[entry.node];
    while a < v.offsets[entry.node + 1]
      invariant v.offsets[entry.node] <= a <= v.offsets[entry.node + 1]
      invariant Busy(v, s, bans, l, q, entry, a) && l.settled == l0.settled
      invariant budget.statesRemaining + (a - v.offsets[entry.node]) >= old(budget.statesRemaining)
      invariant budget.pushesRemaining + (a - v.offsets[entry.node]) >= old(budget.pushesRemaining)
      invariant |q| + budget.pushesRemaining == |q0| + old(budget.pushesRemaining)
      invariant budget.spurRemaining == old(budget.spurRemaining) && budget.stateSpaceExceeded == old(budget.stateSpaceExceeded) && budget.Honest()
    {
      var over;
      limited, over, l, q := RelaxEntry(v, s, bound, bans, budget, entry, a, l, q);
      overflow := overflow || over;
      if limited {
        return;
      }
      a := a + 1;
    }
  }

  /** The labels phase is complete. */
  ghost predicate Final(v: View, s: nat, bans: Bans, l: Labelling) {
    && v.Valid() && Nodes(v, s, bans, l)
    && forall u :: 0 <= u < v.NodeCount() ==> NodeRelaxed(v, bans, l, u, |v.adjacency|)
  }

  function Settled(l: Labelling, u: nat): (r: Labelling)
    requires u < |l.settled|
    ensures r.dist == l.dist && r.hops == l.hops && r.paths == l.paths && |r.settled| == |l.settled|
    ensures forall w :: 0 <= w < |l.settled| ==> r.settled[w] == (w == u || l.settled[w])
  {
    l.(settled := l.settled[u := true])
  }

  ghost predicate Popped(q: seq<Entry>, top: Entry, rest: seq<Entry>) {
    && top in q && (forall e :: e in rest ==> e in q)
    && forall e :: e in q ==> (e == top || e in rest) && !Greater(top, e)
  }

  lemma PopStale(v: View, s: nat, bans: Bans, l: Labelling, q: seq<Entry>, low: Entry, top: Entry, rest: seq<Entry>)
    requires Idle(v, s, bans, l, q, low) && Popped(q, top, rest)
    ensures Sized(v, l) && top.node < v.NodeCount()
    ensures l.settled[top.node] || BetterLabel(l.dist[top.node], l.hops[top.node], top.cost, top.hops)
            ==> Idle(v, s, bans, l, rest, top)
  {
    hide NodeInv, NodeRelaxed;
    assert Queued(l, low, top);
  }

  lemma PopFresh(v: View, s: nat, bans: Bans, l: Labelling, q: seq<Entry>, low: Entry, top: Entry, rest: seq<Entry>, a: nat)
    requires Idle(v, s, bans, l, q, low) && Popped(q, top, rest)
    requires top.node < |l.settled| && !l.settled[top.node]
    requires top.node < |l.dist| == |l.hops| && !BetterLabel(l.dist[top.node], l.hops[top.node], top.cost, top.hops)
    requires forall b: nat :: b < a ==> !v.InSlice(top.node, b)
    ensures Busy(v, s, bans, Settled(l, top.node), rest, top, a)
  {
    hide NodeInv, NodeRelaxed, Settled;
    assert Queued(l, low, top);
    var l' := Settled(l, top.node);
    assert l.hops[top.node] == top.hops;
    SettleNodes(v, s, bans, l, top.node);
    assert Levels(v, l', rest, top);
    SettleRelaxations(v, bans, l, top.node, a);
  }

  lemma SettleNodes(v: View, s: nat, bans: Bans, l: Labelling, u: nat)
    requires Nodes(v, s, bans, l) && u < v.NodeCount() && l.hops[u] != INFINITE_HOPS
    ensures Nodes(v, s, bans, Settled(l, u))
  {
    hide IsWalk, Cost;
    var l' := Settled(l, u);
    forall w | 0 <= w < v.NodeCount() ensures NodeInv(v, s, bans, l', w) {
      assert NodeInv(v, s, bans, l, w);
      if l.hops[w] != INFINITE_HOPS {
        WalkShape(v, l.paths[w]);
      }
    }
  }

  lemma SettleRelaxations(v: View, bans: Bans, l: Labelling, u: nat, a: nat)
    requires Relaxations(v, bans, l, v.NodeCount(), 0) && u < v.NodeCount()
    requires forall b: nat :: b < a ==> !v.InSlice(u, b)
    ensures Relaxations(v, bans, Settled(l, u), u, a)
  {
    var l' := Settled(l, u);
    forall w | 0 <= w < v.NodeCount() && l'.settled[w]
      ensures NodeRelaxed(v, bans, l', w, if w == u then a else |v.adjacency|)
    {
      if w != u {
        assert NodeRelaxed(v, bans, l, w, |v.adjacency|);
      }
    }
  }

  lemma BusyIsIdle(v: View, s: nat, bans: Bans, l: Labelling, q: seq<Entry>, entry: Entry)
    requires v.Valid() && entry.node < v.NodeCount() && Busy(v, s, bans, l, q, entry, v.offsets[entry.node + 1])
    ensures Idle(v, s, bans, l, q, entry)
  {
    hide View.Valid, Nodes, Levels, EntryRelaxed;
  }

  lemma IdleIsFinal(v: View, s: nat, bans: Bans, l: Labelling, low: Entry)
    requires v.Valid() && Idle(v, s, bans, l, [], low)
    ensures Final(v, s, bans, l)
  {
    assert v.NodeCount() <= INFINITE_HOPS;
    hide View.Valid, Witnessed;
    forall u | 0 <= u < v.NodeCount() ensures NodeRelaxed(v, bans, l, u, |v.adjacency|) {
      assert NodeInv(v, s, bans, l, u);
      if l.hops[u] == INFINITE_HOPS {
        forall a | 0 <= a < |v.adjacency| && v.InSlice(u, a) && v.To(a) < v.NodeCount() ensures EntryRelaxed(v, bans, l, u, a) {
          HopsBounded(v, s, bans, l, v.To(a));
        }
      } else {
        assert l.settled[u];
      }
    }
  }

  lemma HopsBounded(v: View, s: nat, bans: Bans, l: Labelling, u: nat)
    requires v.Valid() && Nodes(v, s, bans, l) && u < v.NodeCount()
    ensures l.dist[u] <= MAX_COST && l.hops[u] <= INFINITE_HOPS
    ensures l.hops[u] != INFINITE_HOPS ==> l.hops[u] < v.NodeCount()
  {
    assert v.NodeCount() <= INFINITE_HOPS;
    hide View.Valid, IsWalk, Cost;
    assert NodeInv(v, s, bans, l, u);
    if l.hops[u] != INFINITE_HOPS {
      WalkShape(v, l.paths[u]);
      DistinctBounded(l.paths[u].nodes, v.NodeCount());
    }
  }

  lemma StartIdle(v: View, s: nat, bans: Bans, l: Labelling)
    requires v.Valid() && s < v.NodeCount() && Sized(v, l)
    requires forall u :: 0 <= u < v.NodeCount() ==>
      l.dist[u] == (if u == s then 0 else MAX_COST) && l.hops[u] == (if u == s then 0 else INFINITE_HOPS) && !l.settled[u]
    requires l.paths[s] == RawPath([s], [])
    ensures Idle(v, s, bans, l, [Entry(0, 0, s)], Entry(0, 0, s))
  {
    hide View.Valid;
    assert Witnessed(v, s, bans, l, s);
    forall u | 0 <= u < v.NodeCount() ensures NodeInv(v, s, bans, l, u) {
    }
  }

  method Labels(v: View, source: nat, bound: nat, bans: Bans, budget: WorkBudget)
    returns (limited: bool, overflow: bool, l: Labelling)
    requires v.Valid() && source < v.NodeCount() && CannotBind(v, bound)
    requires budget.Honest()
    modifies budget
    ensures budget.Honest()
    ensures budget.spurRemaining == old(budget.spurRemaining) && budget.stateSpaceExceeded == old(budget.stateSpaceExceeded)
    ensures limited ==> budget.exhausted && (old(budget.statesRemaining) < |v.adjacency| || old(budget.pushesRemaining) < |v.adjacency| + 1)
    ensures !limited ==> budget.statesRemaining + |v.adjacency| >= old(budget.statesRemaining) && budget.pushesRemaining + |v.adjacency| + 1 >= old(budget.pushesRemaining)
    ensures !limited ==> Final(v, source, bans, l)
  {
    hide View.Valid, Idle, Busy, Final, Popped;
    limited, overflow := false, false;
    var n := v.NodeCount();
    l := Labelling(seq(n, u => if u == source then 0 else MAX_COST), seq(n, u => if u == source then 0 else INFINITE_HOPS),
                   seq(n, _ => false), seq(n, _ => RawPath([source], [])));
    var q := [Entry(0, 0, source)];
    StartIdle(v, source, bans, l);
    OffsetsShape(v);
    NoWork(v, l.settled, n);
    var spent := budget.SpendPush();
    if !spent {
      limited := true;
      return;
    }
    ghost var low := Entry(0, 0, source);
    while q != []
      invariant Idle(v, source, bans, l, q, low) && |l.settled| == n
      invariant budget.statesRemaining + Work(v, l.settled, n) >= old(budget.statesRemaining)
      invariant budget.pushesRemaining + Work(v, l.settled, n) + 1 >= old(budget.pushesRemaining)
      invariant budget.spurRemaining == old(budget.spurRemaining) && budget.stateSpaceExceeded == old(budget.stateSpaceExceeded) && budget.Honest()
      decreases |q| + budget.pushesRemaining
    {
      var entry, rest := Pop(q);
      assert Popped(q, entry, rest) by { PoppedIntro(q, entry, rest); }
      PopStale(v, source, bans, l, q, low, entry, rest);
      if l.settled[entry.node] || BetterLabel(l.dist[entry.node], l.hops[entry.node], entry.cost, entry.hops) {
        low, q := entry, rest;
        continue;
      }
      SliceRange(v, entry.node);
      PopFresh(v, source, bans, l, q, low, entry, rest, v.offsets[entry.node]);
      WorkGrows(v, l.settled, Settled(l, entry.node).settled, entry.node, n);
      WorkBounded(v, Settled(l, entry.node).settled, n);
      l := Settled(l, entry.node);
      low := entry;
      var over;
      limited, over, l, q := ExpandNode(v, source, bound, bans, budget, entry, l, rest);
      overflow := overflow || over;
      if limited {
        return;
      }
      BusyIsIdle(v, source, bans, l, q, entry);
    }
    WorkBounded(v, l.settled, n);
    IdleIsFinal(v, source, bans, l, low);
  }

  lemma OffsetsShape(v: View)
    requires v.Valid()
    ensures |v.offsets| == v.NodeCount() + 1
  {
  }

  lemma PoppedIntro(q: seq<Entry>, top: Entry, rest: seq<Entry>)
    requires top in q && (forall e :: e in rest ==> e in q)
    requires forall e :: e in q ==> (e == top || e in rest) && !Greater(top, e)
    ensures Popped(q, top, rest)
  {
  }

  /** Along any open walk the labels grow at most as fast as (cost, hops). */
  lemma {:induction false} LabelAlongWalk(v: View, s: nat, bans: Bans, l: Labelling, p: RawPath, i: nat, j: nat)
    requires Final(v, s, bans, l) && IsWalk(v, p) && Avoids(v, bans, p) && i <= j <= p.Hops()
    requires Cost(v, p.adjacency[..i]) <= Cost(v, p.adjacency[..j])
    requires l.dist[p.nodes[i]] + (Cost(v, p.adjacency[..j]) - Cost(v, p.adjacency[..i])) <= MAX_COST
    ensures LabelLe(l.dist[p.nodes[j]], l.hops[p.nodes[j]],
                    l.dist[p.nodes[i]] + (Cost(v, p.adjacency[..j]) - Cost(v, p.adjacency[..i])), l.hops[p.nodes[i]] + (j - i))
  {
    hide View.Valid, NodeInv, IsWalk, Cost;
    if i < j {
      WalkShape(v, p);
      WalkEntry(v, p, j - 1);
      CostStep(v, p.adjacency, j - 1);
      CostMonotone(v, p.adjacency, i, j - 1);
      LabelAlongWalk(v, s, bans, l, p, i, j - 1);
      assert NodeRelaxed(v, bans, l, p.nodes[j - 1], |v.adjacency|);
      SliceFacts(v, p.nodes[j - 1], p.adjacency[j - 1]);
      assert EntryRelaxed(v, bans, l, p.nodes[j - 1], p.adjacency[j - 1]);
    } else {
      WalkShape(v, p);
    }
  }

  lemma WalkEntry(v: View, p: RawPath, i: nat)
    requires IsWalk(v, p) && i < p.Hops()
    ensures v.InSlice(p.nodes[i], p.adjacency[i]) && v.To(p.adjacency[i]) == p.nodes[i + 1]
  {
  }

  lemma {:induction false} CostMonotone(v: View, x: seq<nat>, i: nat, j: nat)
    requires i <= j <= |x|
    ensures Cost(v, x[..i]) <= Cost(v, x[..j])
  {
    CostSplit(v, x[..j], i);
    assert x[..j][..i] == x[..i];
  }

  lemma LabelBelowPath(v: View, s: nat, d: nat, bound: nat, bans: Bans, l: Labelling, q: RawPath)
    requires Final(v, s, bans, l) && Eligible(v, s, d, bound, bans, q)
    ensures d < v.NodeCount() && LabelLe(l.dist[d], l.hops[d], Cost(v, q.adjacency), q.Hops())
  {
    hide View.Valid, NodeInv, IsWalk, NodeRelaxed, Cost;
    WalkShape(v, q);
    CostMonotone(v, q.adjacency, 0, q.Hops());
    assert q.adjacency[..q.Hops()] == q.adjacency && q.adjacency[..0] == [];
    assert Cost(v, []) == 0 by { EmptyCost(v); }
    LabelAlongWalk(v, s, bans, l, q, 0, q.Hops());
  }

  lemma EmptyCost(v: View)
    ensures Cost(v, []) == 0
  {
  }

  /** The layered table of the lexicographic labels up to row last. */
  ghost function LayerTable(v: View, l: Labelling, last: nat): (t: Table)
    requires Sized(v, l)
    ensures |t| == last + 1 && forall h :: 0 <= h <= last ==> |t[h]| == v.NodeCount()
    ensures forall h, u :: 0 <= h <= last && 0 <= u < v.NodeCount() ==> t[h][u] == if l.hops[u] == h then l.dist[u] else MAX_COST
  {
    seq(last + 1, h => seq(v.NodeCount(), u requires 0 <= u < v.NodeCount() => if l.hops[u] == h then l.dist[u] else MAX_COST))
  }

  lemma PrefixLabelExact(v: View, s: nat, d: nat, bound: nat, bans: Bans, l: Labelling, q: RawPath, i: nat)
    requires Final(v, s, bans, l) && Eligible(v, s, d, bound, bans, q) && i <= q.Hops()
    requires d < v.NodeCount() && Cost(v, q.adjacency) == l.dist[d] && q.Hops() == l.hops[d]
    ensures q.nodes[i] < v.NodeCount() && l.dist[q.nodes[i]] == Cost(v, q.adjacency[..i]) && l.hops[q.nodes[i]] == i
  {
    hide View.Valid, NodeInv, IsWalk, NodeRelaxed, Cost;
    WalkShape(v, q);
    var n := q.Hops();
    CostMonotone(v, q.adjacency, 0, i);
    CostMonotone(v, q.adjacency, i, n);
    assert q.adjacency[..n] == q.adjacency && q.adjacency[..0] == [];
    EmptyCost(v);
    LabelAlongWalk(v, s, bans, l, q, 0, i);
    LabelAlongWalk(v, s, bans, l, q, i, n);
  }

  lemma OptimalIsTight(v: View, s: nat, d: nat, bound: nat, bans: Bans, l: Labelling, q: RawPath)
    requires Final(v, s, bans, l) && Eligible(v, s, d, bound, bans, q)
    requires d < v.NodeCount() && Cost(v, q.adjacency) == l.dist[d] && q.Hops() == l.hops[d]
    ensures TightTo(v, bans, LayerTable(v, l, q.Hops()), s, q.Hops(), d, q)
  {
    hide View.Valid, NodeInv, NodeRelaxed, LayerTable, Cost;
    var n := q.Hops();
    var t := LayerTable(v, l, n);
    assert q.adjacency[..n] == q.adjacency;
    forall i | 0 <= i < n ensures TightStep(v, bans, t, i, q.nodes[i], q.adjacency[i]) {
      PrefixLabelExact(v, s, d, bound, bans, l, q, i);
      PrefixLabelExact(v, s, d, bound, bans, l, q, i + 1);
      CostStep(v, q.adjacency, i);
      CostMonotone(v, q.adjacency, i, n);
      CostMonotone(v, q.adjacency, i + 1, n);
    }
  }

  lemma BestIsReached(v: View, s: nat, d: nat, bound: nat, bans: Bans, l: Labelling)
    requires Final(v, s, bans, l) && d < v.NodeCount() && l.dist[d] < MAX_COST && CannotBind(v, bound)
    ensures WithinHops(bound, l.hops[d]) && l.hops[d] < v.NodeCount()
    ensures BestLabel(v, s, d, bound, bans, l.dist[d], l.hops[d])
    ensures forall q :: Eligible(v, s, d, bound, bans, q) && Cost(v, q.adjacency) == l.dist[d] && q.Hops() == l.hops[d]
              ==> TightTo(v, bans, LayerTable(v, l, l.hops[d]), s, l.hops[d], d, q)
    ensures Reaches(v, bans, LayerTable(v, l, l.hops[d]), l.hops[d], d, 0, s)
  {
    HopsBounded(v, s, bans, l, d);
    assert v.NodeCount() <= INFINITE_HOPS;
    hide View.Valid, NodeRelaxed, TightTo, LayerTable, IsWalk, Cost, Reaches;
    assert NodeInv(v, s, bans, l, d);
    assert Eligible(v, s, d, bound, bans, l.paths[d]);
    forall q | Eligible(v, s, d, bound, bans, q)
      ensures l.dist[d] < Cost(v, q.adjacency) || (l.dist[d] == Cost(v, q.adjacency) && l.hops[d] <= q.Hops())
    {
      LabelBelowPath(v, s, d, bound, bans, l, q);
    }
    forall q | Eligible(v, s, d, bound, bans, q) && Cost(v, q.adjacency) == l.dist[d] && q.Hops() == l.hops[d]
      ensures TightTo(v, bans, LayerTable(v, l, l.hops[d]), s, l.hops[d], d, q)
    {
      OptimalIsTight(v, s, d, bound, bans, l, q);
    }
    var p, t, last := l.paths[d], LayerTable(v, l, l.hops[d]), l.hops[d];
    TightWalkReaches(v, bans, t, s, last, d, p, 0);
    TightStart(v, bans, t, s, last, d, p);
  }

  /** can_reach is exact for every node whose hop label is at least level. */
  ghost predicate ReachExact(v: View, bans: Bans, l: Labelling, last: nat, d: nat, level: nat, reach: seq<bool>)
    requires Sized(v, l)
  {
    && |reach| == v.NodeCount()
    && forall w :: 0 <= w < |reach| && l.hops[w] >= level ==>
         (reach[w] <==> l.hops[w] <= last && l.dist[w] < MAX_COST && Reaches(v, bans, LayerTable(v, l, last), last, d, l.hops[w], w))
  }

  /** Scans the entries out of u in index order for the first one on a tight walk to d. */
  method FirstTightEntry(v: View, bans: Bans, l: Labelling, last: nat, d: nat, u: nat, reach: seq<bool>)
    returns (r: Option<nat>)
    requires v.Valid() && Sized(v, l) && u < v.NodeCount() && d < v.NodeCount()
    requires l.hops[u] < last && l.hops[d] == last && l.dist[d] < MAX_COST && l.dist[u] < MAX_COST
    requires ReachExact(v, bans, l, last, d, l.hops[u] + 1, reach)
    ensures r.None? ==> forall a :: !Exit(v, bans, LayerTable(v, l, last), last, d, l.hops[u], u, a)
    ensures r.Some? ==> FirstExit(v, bans, LayerTable(v, l, last), last, d, l.hops[u], u, r.value) && r.value < |v.adjacency|
  {
    hide View.Valid, Reaches, LayerTable;
    SliceRange(v, u);
    var a := v.offsets[u];
    ghost var t := LayerTable(v, l, last);
    while a < v.offsets[u + 1]
      invariant v.offsets[u] <= a <= v.offsets[u + 1]
      invariant forall b :: 0 <= b < a ==> !Exit(v, bans, t, last, d, l.hops[u], u, b)
    {
      SliceFacts(v, u, a);
      IncrementFacts(v, a);
      var candidate := v.adjacency[a];
      if a !in bans.entries && candidate.to !in bans.nodes && l.hops[candidate.to] == l.hops[u] + 1 && reach[candidate.to] {
        var increment := CheckedAdd(v.costModel.hopCost, candidate.traversalCost);
        var nextCost := if increment.None? then None else CheckedAdd(l.dist[u], increment.value);
        if nextCost.Some? && nextCost.value == l.dist[candidate.to] {
          return Some(a);
        }
      }
      a := a + 1;
    }
    r := None;
  }

  predicate BucketEntry(v: View, l: Labelling, h: nat, u: nat)
    requires |l.dist| == |l.hops| == v.NodeCount()
  {
    u < v.NodeCount() && l.dist[u] != MAX_COST && l.hops[u] == h
  }

  /** The labelled nodes with at most last hops, by hop count. */
  method Buckets(v: View, l: Labelling, last: nat) returns (buckets: seq<seq<nat>>)
    requires Sized(v, l)
    ensures |buckets| == last + 1
    ensures forall h, k :: 0 <= h <= last && 0 <= k < |buckets[h]| ==> BucketEntry(v, l, h, buckets[h][k])
    ensures forall u :: 0 <= u < v.NodeCount() && l.dist[u] != MAX_COST && l.hops[u] <= last ==> u in buckets[l.hops[u]]
  {
    buckets := seq(last + 1, _ => []);
    for node := 0 to v.NodeCount()
      invariant |buckets| == last + 1
      invariant forall h, k :: 0 <= h <= last && 0 <= k < |buckets[h]| ==> BucketEntry(v, l, h, buckets[h][k])
      invariant forall u :: 0 <= u < node && l.dist[u] != MAX_COST && l.hops[u] <= last ==> u in buckets[l.hops[u]]
    {
      if l.dist[node] != MAX_COST && l.hops[node] <= last {
        var bucket: seq<nat> := buckets[l.hops[node]] + [node];
        buckets := buckets[l.hops[node] := bucket];
      }
    }
  }

  method MarkReachable(v: View, bans: Bans, l: Labelling, last: nat, d: nat) returns (reach: seq<bool>)
    requires v.Valid() && Sized(v, l) && d < v.NodeCount() && l.hops[d] == last && l.dist[d] < MAX_COST
    requires forall u :: 0 <= u < v.NodeCount() ==> l.dist[u] <= MAX_COST
    ensures ReachExact(v, bans, l, last, d, 0, reach)
  {
    hide View.Valid, LayerTable;
    var buckets := Buckets(v, l, last);
    reach := seq(v.NodeCount(), u => u == d);
    var level := last;
    hide Reaches, ReachExact;
    assert ReachExact(v, bans, l, last, d, last, reach) by { LastLevel(v, bans, l, last, d, reach); }
    while level > 0
      invariant 0 <= level <= last
      invariant ReachExact(v, bans, l, last, d, level, reach)
      invariant forall u :: 0 <= u < v.NodeCount() && l.hops[u] < level ==> |reach| == v.NodeCount() && !reach[u]
    {
      var current := level - 1;
      var before := reach;
      assert |reach| == v.NodeCount() by { ReachSize(v, bans, l, last, d, level, reach); }
      for i := 0 to |buckets[current]|
        invariant |reach| == v.NodeCount()
        invariant forall u :: 0 <= u < v.NodeCount() && l.hops[u] != current ==> reach[u] == before[u]
        invariant forall u :: 0 <= u < v.NodeCount() && l.hops[u] == current && u !in buckets[current] ==> !reach[u]
        invariant forall k :: 0 <= k < i ==> BucketEntry(v, l, current, buckets[current][k]) && (reach[buckets[current][k]] <==> Reaches(v, bans, LayerTable(v, l, last), last, d, current, buckets[current][k]))
      {
        var node := buckets[current][i];
        assert node in buckets[current] && BucketEntry(v, l, current, node);
        AboveUnchanged(v, bans, l, last, d, level, before, reach);
        var exit := FirstTightEntry(v, bans, l, last, d, node, reach);
        ReachesByExit(v, bans, LayerTable(v, l, last), last, d, current, node);
        reach := reach[node := exit.Some?];
      }
      LevelDone(v, bans, l, last, d, current, before, reach, buckets[current]);
      level := current;
    }
  }

  lemma ReachSize(v: View, bans: Bans, l: Labelling, last: nat, d: nat, level: nat, reach: seq<bool>)
    requires Sized(v, l) && ReachExact(v, bans, l, last, d, level, reach)
    ensures |reach| == v.NodeCount()
  {
  }

  lemma LastLevel(v: View, bans: Bans, l: Labelling, last: nat, d: nat, reach: seq<bool>)
    requires Sized(v, l) && d < v.NodeCount() && l.hops[d] == last && l.dist[d] < MAX_COST
    requires |reach| == v.NodeCount() && forall u :: 0 <= u < |reach| ==> reach[u] == (u == d)
    ensures ReachExact(v, bans, l, last, d, last, reach)
  {
    hide LayerTable;
  }

  lemma AboveUnchanged(v: View, bans: Bans, l: Labelling, last: nat, d: nat, level: nat, before: seq<bool>, reach: seq<bool>)
    requires Sized(v, l) && ReachExact(v, bans, l, last, d, level, before) && |reach| == |before|
    requires forall u :: 0 <= u < |reach| && l.hops[u] >= level ==> reach[u] == before[u]
    ensures ReachExact(v, bans, l, last, d, level, reach)
  {
    hide LayerTable, Reaches;
  }

  lemma LevelDone(v: View, bans: Bans, l: Labelling, last: nat, d: nat, current: nat, before: seq<bool>, reach: seq<bool>, bucket: seq<nat>)
    requires Sized(v, l) && current < last && ReachExact(v, bans, l, last, d, current + 1, before) && |reach| == |before|
    requires forall u :: 0 <= u < v.NodeCount() ==> l.dist[u] <= MAX_COST
    requires forall u :: 0 <= u < |reach| && l.hops[u] != current ==> reach[u] == before[u]
    requires forall u :: 0 <= u < v.NodeCount() && l.hops[u] == current && u !in bucket ==> !reach[u]
    requires forall u :: 0 <= u < v.NodeCount() && l.dist[u] != MAX_COST && l.hops[u] == current ==> u in bucket
    requires forall k :: 0 <= k < |bucket| ==> BucketEntry(v, l, current, bucket[k]) && (reach[bucket[k]] <==> Reaches(v, bans, LayerTable(v, l, last), last, d, current, bucket[k]))
    ensures ReachExact(v, bans, l, last, d, current, reach)
  {
    hide LayerTable, Reaches;
  }

  method GreedyWalk(v: View, bans: Bans, l: Labelling, source: nat, last: nat, d: nat, reach: seq<bool>)
    returns (g: RawPath)
    requires v.Valid() && Sized(v, l) && source < v.NodeCount() && d < v.NodeCount() && l.hops[d] == last && l.dist[d] < MAX_COST
    requires ReachExact(v, bans, l, last, d, 0, reach)
    requires Reaches(v, bans, LayerTable(v, l, last), last, d, 0, source)
    ensures Greedy(v, bans, LayerTable(v, l, last), source, last, d, g) && g.Hops() == last
  {
    hide View.Valid, Reaches, LayerTable, Greedy, ReachExact;
    g := RawPath([source], []);
    ghost var t := LayerTable(v, l, last);
    GreedyStart(v, bans, t, source, last, d);
    assert ReachExact(v, bans, l, last, d, 0, reach);
    var current := source;
    GreedyHead(v, bans, l, source, last, d, g);
    while current != d
      invariant Greedy(v, bans, t, source, last, d, g)
      invariant |g.nodes| == g.Hops() + 1 && g.Hops() <= last && current == g.nodes[g.Hops()]
      invariant current < v.NodeCount() && l.hops[current] == g.Hops() && l.dist[current] < MAX_COST
      decreases last - g.Hops()
    {
      HigherLevel(v, bans, l, last, d, l.hops[current] + 1, reach);
      GreedyUnfinished(v, bans, t, source, last, d, g);
      var exit := FirstTightEntry(v, bans, l, last, d, current, reach);
      GreedyStep(v, bans, t, source, last, d, g, exit.value);
      g := Extend(v, g, exit.value);
      current := v.adjacency[exit.value].to;
      GreedyHead(v, bans, l, source, last, d, g);
    }
  }

  lemma HigherLevel(v: View, bans: Bans, l: Labelling, last: nat, d: nat, level: nat, reach: seq<bool>)
    requires Sized(v, l) && ReachExact(v, bans, l, last, d, 0, reach)
    ensures ReachExact(v, bans, l, last, d, level, reach)
  {
    hide LayerTable, Reaches;
  }

  lemma GreedyHead(v: View, bans: Bans, l: Labelling, s: nat, last: nat, d: nat, g: RawPath)
    requires Sized(v, l) && d < v.NodeCount() && l.hops[d] == last && l.dist[d] < MAX_COST
    requires Greedy(v, bans, LayerTable(v, l, last), s, last, d, g)
    ensures |g.nodes| == g.Hops() + 1 && g.Hops() <= last
    ensures var u := g.nodes[g.Hops()]; u < v.NodeCount() && l.hops[u] == g.Hops() && l.dist[u] < MAX_COST
  {
    hide LayerTable, Leads, Reaches;
    ReachesLabelled(v, bans, LayerTable(v, l, last), last, d, g.Hops(), g.nodes[g.Hops()]);
  }

  method PlainSearch(v: View, source: nat, d: nat, bound: nat, bans: Bans, budget: WorkBudget)
    returns (outcome: SearchOutcome)
    requires v.Valid() && source < v.NodeCount() && d < v.NodeCount() && CannotBind(v, bound)
    requires budget.Honest()
    modifies budget
    ensures budget.Honest()
    ensures budget.spurRemaining == old(budget.spurRemaining) && budget.stateSpaceExceeded == old(budget.stateSpaceExceeded)
    ensures outcome.resourceLimit ==> !outcome.found && budget.exhausted && (old(budget.statesRemaining) < |v.adjacency| || old(budget.pushesRemaining) < |v.adjacency| + 1)
    ensures !outcome.resourceLimit ==> budget.statesRemaining + |v.adjacency| >= old(budget.statesRemaining) && budget.pushesRemaining + |v.adjacency| + 1 >= old(budget.pushesRemaining)
    ensures !outcome.resourceLimit ==> CanonicalAnswer(v, source, d, bound, bans, outcome.found, outcome.path)
  {
    hide View.Valid, Final, Reaches, BestLabel, TightTo, Greedy, ReachExact, CanonicalAnswer, LayerTable;
    outcome := NOTHING;
    var limited, overflow, l := Labels(v, source, bound, bans, budget);
    outcome := outcome.(costOverflow := overflow);
    if limited {
      outcome := outcome.(resourceLimit := true);
      return;
    }
    FinalShape(v, source, bans, l);
    if l.dist[d] == MAX_COST {
      NoLabelNoPath(v, source, d, bound, bans, l, outcome.path);
      return;
    }
    BestIsReached(v, source, d, bound, bans, l);
    var last := l.hops[d];
    var reach := MarkReachable(v, bans, l, last, d);
    var path := GreedyWalk(v, bans, l, source, last, d, reach);
    GreedyAnswer(v, source, d, bound, bans, LayerTable(v, l, last), last, path);
    outcome := outcome.(found := true, path := path);
  }

  lemma FinalShape(v: View, s: nat, bans: Bans, l: Labelling)
    requires Final(v, s, bans, l)
    ensures Sized(v, l) && s < v.NodeCount() && l.dist[s] == 0 && l.hops[s] == 0
    ensures forall u :: 0 <= u < v.NodeCount() ==> l.dist[u] <= MAX_COST
  {
    hide View.Valid, Witnessed, NodeRelaxed;
    forall u | 0 <= u < v.NodeCount() ensures l.dist[u] <= MAX_COST {
      assert NodeInv(v, s, bans, l, u);
    }
  }

  lemma NoLabelNoPath(v: View, s: nat, d: nat, bound: nat, bans: Bans, l: Labelling, p: RawPath)
    requires Final(v, s, bans, l) && d < v.NodeCount() && l.dist[d] == MAX_COST
    ensures CanonicalAnswer(v, s, d, bound, bans, false, p)
  {
    hide View.Valid, Final;
    forall q ensures !Eligible(v, s, d, bound, bans, q) {
      if Eligible(v, s, d, bound, bans, q) {
        LabelBelowPath(v, s, d, bound, bans, l, q);
      }
    }
  }
}
