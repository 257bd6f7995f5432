/** Hop-bounded search: Dijkstra over (hops, node) states (src/search.cpp, ExpandedSearch). */
module Expanded {
  import opened Wrappers
  import opened View
  import opened Order
  import opened Tight
  import opened Queue

  /** Some walk of exactly h hops from s to u that avoids the bans costs c. */
  ghost predicate Attained(v: View, s: nat, bans: Bans, h: nat, u: nat, c: nat) {
    exists p :: AttainedBy(v, s, bans, h, u, c, p)
  }

  ghost predicate AttainedBy(v: View, s: nat, bans: Bans, h: nat, u: nat, c: nat, p: RawPath) {
    WalkFrom(v, s, u, p) && Avoids(v, bans, p) && p.Hops() == h && Cost(v, p.adjacency) == c
  }

  lemma AttainStep(v: View, s: nat, bans: Bans, h: nat, u: nat, c: nat, a: nat)
    requires v.Valid() && Attained(v, s, bans, h, u, c) && v.InSlice(u, a) && Open(v, bans, a)
    ensures Attained(v, s, bans, h + 1, v.To(a), c + v.Increment(a))
  {
    var p :| AttainedBy(v, s, bans, h, u, c, p);
    ExtendWalk(v, s, u, p, a);
    hide View.Valid, IsWalk;
    assert AttainedBy(v, s, bans, h + 1, v.To(a), c + v.Increment(a), Extend(v, p, a));
  }

  /** All open entries out of (h, u) are relaxed. */
  ghost predicate Relaxed(v: View, bans: Bans, dist: Table, h: nat, u: nat)
    requires h + 1 < |dist| && Shaped(v, dist, |dist|) && u < v.NodeCount()
  {
    forall a :: v.InSlice(u, a) && Open(v, bans, a) && v.To(a) < v.NodeCount() ==> dist[h + 1][v.To(a)] <= dist[h][u] + v.Increment(a)
  }

  /** The labels phase is complete: every label is attained and every step out of a label relaxed. */
  ghost predicate Layers(v: View, s: nat, bound: nat, bans: Bans, dist: Table) {
    && v.Valid() && Shaped(v, dist, bound + 1) && s < v.NodeCount()
    && dist[0][s] == 0
    && (forall h, u :: 0 <= h <= bound && 0 <= u < v.NodeCount() ==> dist[h][u] <= MAX_COST)
    && (forall h, u :: 0 <= h <= bound && 0 <= u < v.NodeCount() && dist[h][u] < MAX_COST ==> Attained(v, s, bans, h, u, dist[h][u]))
    && (forall h, u :: 0 <= h < bound && 0 <= u < v.NodeCount() ==> Relaxed(v, bans, dist, h, u))
  }

  /** Along any open walk the labels grow at most as fast as the cost. */
  lemma {:induction false} LabelAlongWalk(v: View, s: nat, bound: nat, bans: Bans, dist: Table, p: RawPath, i: nat, j: nat)
    requires Layers(v, s, bound, bans, dist)
    requires IsWalk(v, p) && Avoids(v, bans, p) && i <= j <= p.Hops() <= bound
    ensures dist[j][p.nodes[j]] <= dist[i][p.nodes[i]] + (Cost(v, p.adjacency[..j]) - Cost(v, p.adjacency[..i]))
  {
    hide View.Valid, Attained;
    if i < j {
      LabelAlongWalk(v, s, bound, bans, dist, p, i, j - 1);
      CostStep(v, p.adjacency, j - 1);
      assert Relaxed(v, bans, dist, j - 1, p.nodes[j - 1]);
    }
  }

  /** An eligible path that costs as little as its label is tight. */
  lemma OptimalIsTight(v: View, s: nat, d: nat, bound: nat, bans: Bans, dist: Table, p: RawPath)
    requires Layers(v, s, bound, bans, dist) && Eligible(v, s, d, bound, bans, p) && p.Hops() <= bound
    requires Cost(v, p.adjacency) == dist[p.Hops()][d]
    ensures TightTo(v, bans, dist, s, p.Hops(), d, p)
  {
    hide View.Valid, Attained, Relaxed;
    var n := p.Hops();
    assert p.adjacency[..n] == p.adjacency;
    forall i | 0 <= i <= n ensures dist[i][p.nodes[i]] == Cost(v, p.adjacency[..i]) {
      LabelAlongWalk(v, s, bound, bans, dist, p, 0, i);
      LabelAlongWalk(v, s, bound, bans, dist, p, i, n);
      assert p.adjacency[..0] == [];
    }
    forall i | 0 <= i < n ensures TightStep(v, bans, dist, i, p.nodes[i], p.adjacency[i]) {
      CostStep(v, p.adjacency, i);
      CostSplit(v, p.adjacency, i + 1);
    }
  }

  ghost predicate QueueInv(v: View, s: nat, bound: nat, bans: Bans, dist: Table, settled: seq<seq<bool>>, q: seq<Entry>, low: nat) {
    && v.Valid() && Shaped(v, dist, bound + 1) && s < v.NodeCount()
    && |settled| == bound + 1 && (forall h :: 0 <= h <= bound ==> |settled[h]| == v.NodeCount())
    && dist[0][s] == 0
    && (forall h, u :: 0 <= h <= bound && 0 <= u < v.NodeCount() ==> dist[h][u] <= MAX_COST)
    && (forall h, u :: 0 <= h <= bound && 0 <= u < v.NodeCount() && dist[h][u] < MAX_COST ==> Attained(v, s, bans, h, u, dist[h][u]))
    && (forall e :: e in q ==> e.hops <= bound && e.node < v.NodeCount() && e.cost < MAX_COST && e.cost >= low && dist[e.hops][e.node] <= e.cost)
    && (forall h, u :: 0 <= h <= bound && 0 <= u < v.NodeCount() && settled[h][u] ==> dist[h][u] <= low && dist[h][u] < MAX_COST)
  }

  /** Every labelled state is settled, or waits in the queue under its label. */
  ghost predicate Waiting(v: View, bound: nat, dist: Table, settled: seq<seq<bool>>, q: seq<Entry>)
    requires Shaped(v, dist, bound + 1) && |settled| == bound + 1 && (forall h :: 0 <= h <= bound ==> |settled[h]| == v.NodeCount())
  {
    forall h, u :: 0 <= h <= bound && 0 <= u < v.NodeCount() && dist[h][u] < MAX_COST && !settled[h][u] ==> Entry(dist[h][u], h, u) in q
  }

  ghost predicate SettledRelaxed(v: View, bound: nat, bans: Bans, dist: Table, settled: seq<seq<bool>>, eh: nat, eu: nat)
    requires Shaped(v, dist, bound + 1) && |settled| == bound + 1 && (forall h :: 0 <= h <= bound ==> |settled[h]| == v.NodeCount())
  {
    forall h, u :: 0 <= h < bound && 0 <= u < v.NodeCount() && settled[h][u] && !(h == eh && u == eu) ==> Relaxed(v, bans, dist, h, u)
  }

  /** The invariant while the entries of the settled state (entry.hops, entry.node) are relaxed;
      those below index a already are. */
  ghost predicate Busy(v: View, s: nat, bound: nat, bans: Bans, dist: Table, settled: seq<seq<bool>>, q: seq<Entry>, entry: Entry, a: nat) {
    && QueueInv(v, s, bound, bans, dist, settled, q, entry.cost)
    && Waiting(v, bound, dist, settled, q)
    && entry.hops < bound && entry.node < v.NodeCount()
    && dist[entry.hops][entry.node] == entry.cost < MAX_COST
    && SettledRelaxed(v, bound, bans, dist, settled, entry.hops, entry.node)
    && SliceRelaxed(v, bans, dist, entry, a)
  }

  ghost predicate SliceRelaxed(v: View, bans: Bans, dist: Table, entry: Entry, a: nat)
    requires entry.hops + 1 < |dist| && |dist[entry.hops + 1]| == v.NodeCount()
  {
    forall b :: 0 <= b < a && v.InSlice(entry.node, b) && Open(v, bans, b) && v.To(b) < v.NodeCount() ==>
      dist[entry.hops + 1][v.To(b)] <= entry.cost + v.Increment(b)
  }

  function Relabel(dist: Table, h: nat, u: nat, c: nat): (r: Table)
    requires h < |dist| && u < |dist[h]|
    ensures |r| == |dist| && forall k :: 0 <= k < |dist| ==> |r[k]| == |dist[k]|
    ensures forall k, w :: 0 <= k < |dist| && 0 <= w < |dist[k]| ==> r[k][w] == if k == h && w == u then c else dist[k][w]
  {
    var row: seq<nat> := dist[h][u := c];
    dist[h := row]
  }

  lemma BusyShape(v: View, s: nat, bound: nat, bans: Bans, dist: Table, settled: seq<seq<bool>>, q: seq<Entry>, entry: Entry, a: nat)
    requires Busy(v, s, bound, bans, dist, settled, q, entry, a)
    ensures |dist| == bound + 1 && entry.hops < bound && |dist[entry.hops + 1]| == v.NodeCount()
    ensures v.To(a) < v.NodeCount() ==> dist[entry.hops + 1][v.To(a)] <= MAX_COST
    ensures Attained(v, s, bans, entry.hops, entry.node, entry.cost)
    ensures entry.cost < MAX_COST
  {
    hide View.Valid, Attained, Waiting, SettledRelaxed, SliceRelaxed;
  }

  lemma SkipBusy(v: View, s: nat, bound: nat, bans: Bans, dist: Table, settled: seq<seq<bool>>, q: seq<Entry>, entry: Entry, a: nat)
    requires Busy(v, s, bound, bans, dist, settled, q, entry, a)
    requires v.To(a) < v.NodeCount()
    requires Open(v, bans, a) ==> dist[entry.hops + 1][v.To(a)] <= entry.cost + v.Increment(a)
    ensures Busy(v, s, bound, bans, dist, settled, q, entry, a + 1)
  {
    hide View.Valid, Attained, Waiting, SettledRelaxed, QueueInv;
  }

  lemma RelabelQueue(v: View, s: nat, bound: nat, bans: Bans, dist: Table, settled: seq<seq<bool>>, q: seq<Entry>, entry: Entry, a: nat, c: nat)
    requires QueueInv(v, s, bound, bans, dist, settled, q, entry.cost)
    requires Waiting(v, bound, dist, settled, q)
    requires entry.hops < bound && v.To(a) < v.NodeCount() && entry.cost <= c < dist[entry.hops + 1][v.To(a)]
    requires Attained(v, s, bans, entry.hops + 1, v.To(a), c)
    ensures !settled[entry.hops + 1][v.To(a)]
    ensures var dist', q' := Relabel(dist, entry.hops + 1, v.To(a), c), q + [Entry(c, entry.hops + 1, v.To(a))];
      QueueInv(v, s, bound, bans, dist', settled, q', entry.cost) && Waiting(v, bound, dist', settled, q')
  {
    hide View.Valid, Attained, Relabel;
  }

  lemma RelabelRelaxed(v: View, bound: nat, bans: Bans, dist: Table, settled: seq<seq<bool>>, eh: nat, eu: nat, h: nat, w: nat, c: nat)
    requires Shaped(v, dist, bound + 1) && |settled| == bound + 1 && (forall k :: 0 <= k <= bound ==> |settled[k]| == v.NodeCount())
    requires h <= bound && w < v.NodeCount() && c < dist[h][w] && !settled[h][w]
    requires SettledRelaxed(v, bound, bans, dist, settled, eh, eu)
    ensures SettledRelaxed(v, bound, bans, Relabel(dist, h, w, c), settled, eh, eu)
  {
    hide Relabel;
    var dist' := Relabel(dist, h, w, c);
    forall k, u | 0 <= k < bound && 0 <= u < v.NodeCount() && settled[k][u] && !(k == eh && u == eu)
      ensures Relaxed(v, bans, dist', k, u)
    {
      assert Relaxed(v, bans, dist, k, u);
    }
  }

  lemma RelabelBusy(v: View, s: nat, bound: nat, bans: Bans, dist: Table, settled: seq<seq<bool>>, q: seq<Entry>, entry: Entry, a: nat, c: nat)
    requires Busy(v, s, bound, bans, dist, settled, q, entry, a)
    requires v.To(a) < v.NodeCount() && c == entry.cost + v.Increment(a) && c < dist[entry.hops + 1][v.To(a)]
    requires Attained(v, s, bans, entry.hops + 1, v.To(a), c)
    ensures Busy(v, s, bound, bans, Relabel(dist, entry.hops + 1, v.To(a), c), settled, q + [Entry(c, entry.hops + 1, v.To(a))], entry, a + 1)
  {
    hide View.Valid, Attained, Relabel;
    RelabelQueue(v, s, bound, bans, dist, settled, q, entry, a, c);
    RelabelRelaxed(v, bound, bans, dist, settled, entry.hops, entry.node, entry.hops + 1, v.To(a), c);
    hide Waiting, SettledRelaxed;
  }

  lemma BusyDone(v: View, s: nat, bound: nat, bans: Bans, dist: Table, settled: seq<seq<bool>>, q: seq<Entry>, entry: Entry, a: nat)
    requires Busy(v, s, bound, bans, dist, settled, q, entry, a)
    requires entry.node + 1 < |v.offsets| && v.offsets[entry.node + 1] <= a
    ensures QueueInv(v, s, bound, bans, dist, settled, q, entry.cost)
    ensures Waiting(v, bound, dist, settled, q)
    ensures SettledRelaxed(v, bound, bans, dist, settled, bound, 0)
  {
    hide View.Valid, Attained, Waiting;
  }

  /** Relaxes one entry out of the state just settled. */
  method RelaxEntry(v: View, s: nat, bound: nat, bans: Bans, budget: WorkBudget, entry: Entry, a: nat,
                    dist0: Table, ghost settled: seq<seq<bool>>, q0: seq<Entry>)
    returns (limited: bool, overflow: bool, dist: Table, q: seq<Entry>)
    requires v.Valid() && v.InSlice(entry.node, a)
    requires Busy(v, s, bound, bans, dist0, settled, q0, entry, a)
    requires budget.Honest()
    modifies budget
    ensures budget.Honest()
    ensures budget.spurRemaining == old(budget.spurRemaining) && budget.stateSpaceExceeded == old(budget.stateSpaceExceeded)
    ensures limited ==> budget.exhausted && (old(budget.statesRemaining) == 0 || old(budget.pushesRemaining) == 0)
    ensures !limited ==> |q| + budget.pushesRemaining == |q0| + old(budget.pushesRemaining)
    ensures !limited ==> budget.statesRemaining + 1 >= old(budget.statesRemaining) && budget.pushesRemaining + 1 >= old(budget.pushesRemaining)
    ensures !limited ==> Busy(v, s, bound, bans, dist, settled, q, entry, a + 1)
  {
    hide View.Valid, Attained, Relabel, Busy;
    limited, overflow, dist, q := false, false, dist0, q0;
    SliceFacts(v, entry.node, a);
    IncrementFacts(v, a);
    BusyShape(v, s, bound, bans, dist, settled, q, entry, a);
    var candidate := v.adjacency[a];
    if a in bans.entries || candidate.to in bans.nodes {
      SkipBusy(v, s, bound, bans, dist, settled, q, entry, a);
      return;
    }
    var increment := CheckedAdd(v.costModel.hopCost, candidate.traversalCost);
    var nextCost := if increment.None? then None else CheckedAdd(entry.cost, increment.value);
    if nextCost.None? {
      overflow := true;
      SkipBusy(v, s, bound, bans, dist, settled, q, entry, a);
      return;
    }
    var spent := budget.SpendState();
    if !spent {
      limited := true;
      return;
    }
    if dist[entry.hops + 1][candidate.to] <= nextCost.value {
      SkipBusy(v, s, bound, bans, dist, settled, q, entry, a);
      return;
    }
    AttainStep(v, s, bans, entry.hops, entry.node, entry.cost, a);
    RelabelBusy(v, s, bound, bans, dist, settled, q, entry, a, nextCost.value);
    dist := Relabel(dist, entry.hops + 1, candidate.to, nextCost.value);
    q := q + [Entry(nextCost.value, entry.hops + 1, candidate.to)];
    spent := budget.SpendPush();
    limited := !spent;
  }

  /** Relaxes every entry out of the state just settled. */
  method Expand(v: View, s: nat, bound: nat, bans: Bans, budget: WorkBudget, entry: Entry,
                dist0: Table, ghost settled: seq<seq<bool>>, q0: seq<Entry>)
    returns (limited: bool, overflow: bool, dist: Table, q: seq<Entry>)
    requires v.Valid() && entry.node < v.NodeCount()
    requires Busy(v, s, bound, bans, dist0, settled, q0, entry, v.offsets[entry.node])
    requires budget.Honest()
    modifies budget
    ensures budget.Honest()
    ensures budget.spurRemaining == old(budget.spurRemaining) && budget.stateSpaceExceeded == old(budget.stateSpaceExceeded)
    ensures v.offsets[entry.node] <= v.offsets[entry.node + 1]
    ensures var work := v.offsets[entry.node + 1] - v.offsets[entry.node];
      && (limited ==> budget.exhausted && (old(budget.statesRemaining) < work || old(budget.pushesRemaining) < work))
      && (!limited ==> budget.statesRemaining + work >= old(budget.statesRemaining) && budget.pushesRemaining + work >= old(budget.pushesRemaining))
    ensures !limited ==> |q| + budget.pushesRemaining == |q0| + old(budget.pushesRemaining)
    ensures !limited ==> Busy(v, s, bound, bans, dist, settled, q, entry, v.offsets[entry.node + 1])
  {
    hide View.Valid, Busy;
    limited, overflow, dist, q := false, false, dist0, q0;
    SliceRange(v, entry.node);
    var a := v.offsets[entry.node];
    while a < v.offsets[entry.node + 1]
      invariant v.offsets[entry.node] <= a <= v.offsets[entry.node + 1]
      invariant Busy(v, s, bound, bans, dist, settled, q, entry, a)
      invariant budget.statesRemaining + (a - v.offsets[entry.node]) >= old(budget.statesRemaining)
      invariant budget.pushesRemaining + (a - v.offsets[entry.node]) >= old(budget.pushesRemaining)
      invariant |q| + budget.pushesRemaining == |q0| + old(budget.pushesRemaining)
      invariant budget.spurRemaining == old(budget.spurRemaining) && budget.stateSpaceExceeded == old(budget.stateSpaceExceeded) && budget.Honest()
    {
      var over;
      limited, over, dist, q := RelaxEntry(v, s, bound, bans, budget, entry, a, dist, settled, q);
      overflow := overflow || over;
      if limited {
        return;
      }
      a := a + 1;
    }
  }

  lemma UnlabelledRelaxed(v: View, bound: nat, bans: Bans, dist: Table, h: nat, u: nat)
    requires Shaped(v, dist, bound + 1) && h < bound && u < v.NodeCount() && dist[h][u] >= MAX_COST
    requires forall k, w :: 0 <= k <= bound && 0 <= w < v.NodeCount() ==> dist[k][w] <= MAX_COST
    ensures Relaxed(v, bans, dist, h, u)
  {
  }

  /** What holds between two pops. */
  ghost predicate Idle(v: View, s: nat, bound: nat, bans: Bans, dist: Table, settled: seq<seq<bool>>, q: seq<Entry>, low: nat) {
    && QueueInv(v, s, bound, bans, dist, settled, q, low)
    && Waiting(v, bound, dist, settled, q)
    && SettledRelaxed(v, bound, bans, dist, settled, bound, 0)
  }

  function Settle(settled: seq<seq<bool>>, h: nat, u: nat): (r: seq<seq<bool>>)
    requires h < |settled| && u < |settled[h]|
    ensures |r| == |settled| && forall k :: 0 <= k < |settled| ==> |r[k]| == |settled[k]|
    ensures forall k, w :: 0 <= k < |settled| && 0 <= w < |settled[k]| ==> r[k][w] == ((k == h && w == u) || settled[k][w])
  {
    settled[h := settled[h][u := true]]
  }

  lemma PopIdle(v: View, s: nat, bound: nat, bans: Bans, dist: Table, settled: seq<seq<bool>>, q: seq<Entry>, low: nat, top: Entry, rest: seq<Entry>)
    requires Idle(v, s, bound, bans, dist, settled, q, low)
    requires top in q && (forall e :: e in rest ==> e in q)
    requires forall e :: e in q ==> (e == top || e in rest) && !Greater(top, e)
    ensures top.hops <= bound && top.node < v.NodeCount() && |dist| == |settled| == bound + 1
    ensures |dist[top.hops]| == |settled[top.hops]| == v.NodeCount()
    ensures settled[top.hops][top.node] || dist[top.hops][top.node] != top.cost ==> Idle(v, s, bound, bans, dist, settled, rest, top.cost)
    ensures !settled[top.hops][top.node] && dist[top.hops][top.node] == top.cost ==>
      var settled' := Settle(settled, top.hops, top.node);
      && (top.hops == bound ==> Idle(v, s, bound, bans, dist, settled', rest, top.cost))
      && (top.hops < bound ==> forall a :: (forall b: nat :: b < a ==> !v.InSlice(top.node, b)) ==> Busy(v, s, bound, bans, dist, settled', rest, top, a))
  {
    hide View.Valid, Attained, Settle, Relaxed;
  }

  lemma IdleDone(v: View, s: nat, bound: nat, bans: Bans, dist: Table, settled: seq<seq<bool>>, low: nat)
    requires Idle(v, s, bound, bans, dist, settled, [], low)
    ensures Layers(v, s, bound, bans, dist)
  {
    hide View.Valid, Attained, Relaxed;
    forall h, u | 0 <= h < bound && 0 <= u < v.NodeCount() ensures Relaxed(v, bans, dist, h, u) {
      if dist[h][u] < MAX_COST {
        assert settled[h][u];
      } else {
        UnlabelledRelaxed(v, bound, bans, dist, h, u);
      }
    }
  }

  lemma StartIdle(v: View, s: nat, bound: nat, bans: Bans, dist: Table, settled: seq<seq<bool>>)
    requires v.Valid() && s < v.NodeCount()
    requires Shaped(v, dist, bound + 1) && |settled| == bound + 1 && (forall h :: 0 <= h <= bound ==> |settled[h]| == v.NodeCount())
    requires forall h, u :: 0 <= h <= bound && 0 <= u < v.NodeCount() ==> dist[h][u] == if h == 0 && u == s then 0 else MAX_COST
    requires forall h, u :: 0 <= h <= bound && 0 <= u < v.NodeCount() ==> !settled[h][u]
    ensures Idle(v, s, bound, bans, dist, settled, [Entry(0, 0, s)], 0)
  {
    assert AttainedBy(v, s, bans, 0, s, 0, RawPath([s], []));
    hide View.Valid;
  }

  /** The entries that leave settled states of the first k rows. */
  function RowsWork(v: View, settled: seq<seq<bool>>, k: nat): nat
    requires k <= |settled| && v.NodeCount() < |v.offsets| && forall h :: 0 <= h < |settled| ==> |settled[h]| == v.NodeCount()
  {
    if k == 0 then 0 else RowsWork(v, settled, k - 1) + Work(v, settled[k - 1], v.NodeCount())
  }

  lemma {:induction false} RowsWorkBounded(v: View, settled: seq<seq<bool>>, k: nat)
    requires v.Valid() && k <= |settled| && forall h :: 0 <= h < |settled| ==> |settled[h]| == v.NodeCount()
    ensures RowsWork(v, settled, k) <= k * |v.adjacency|
  {
    if k > 0 {
      RowsWorkBounded(v, settled, k - 1);
      WorkBounded(v, settled[k - 1], v.NodeCount());
      assert k * |v.adjacency| == (k - 1) * |v.adjacency| + |v.adjacency|;
    }
  }

  lemma {:induction false} RowsWorkGrows(v: View, settled: seq<seq<bool>>, h: nat, u: nat, k: nat)
    requires v.Valid() && k <= |settled| && (forall i :: 0 <= i < |settled| ==> |settled[i]| == v.NodeCount())
    requires h < |settled| && u < v.NodeCount() && !settled[h][u]
    ensures RowsWork(v, Settle(settled, h, u), k) == RowsWork(v, settled, k) + (if h < k then v.offsets[u + 1] - v.offsets[u] else 0)
  {
    if k > 0 {
      RowsWorkGrows(v, settled, h, u, k - 1);
      var more := Settle(settled, h, u);
      if h == k - 1 {
        WorkGrows(v, settled[h], more[h], u, v.NodeCount());
      } else {
        assert more[k - 1] == settled[k - 1];
      }
    }
  }

  lemma {:induction false} NoRowsWork(v: View, settled: seq<seq<bool>>, k: nat)
    requires v.Valid() && k <= |settled| && (forall i :: 0 <= i < |settled| ==> |settled[i]| == v.NodeCount())
    requires forall h, u :: 0 <= h < |settled| && 0 <= u < v.NodeCount() ==> !settled[h][u]
    ensures RowsWork(v, settled, k) == 0
  {
    if k > 0 {
      NoRowsWork(v, settled, k - 1);
      NoWork(v, settled[k - 1], v.NodeCount());
    }
  }

  /** States and pushes left cover what the settled rows have not used up. */
  ghost predicate Paid(v: View, settled: seq<seq<bool>>, bound: nat, states: nat, pushes: nat, states0: nat, pushes0: nat) {
    && |settled| == bound + 1 && v.NodeCount() < |v.offsets| && (forall h :: 0 <= h < |settled| ==> |settled[h]| == v.NodeCount())
    && states + RowsWork(v, settled, bound) >= states0 && pushes + RowsWork(v, settled, bound) + 1 >= pushes0
  }

  lemma PaidBound(v: View, settled: seq<seq<bool>>, bound: nat, states: nat, pushes: nat, states0: nat, pushes0: nat)
    requires v.Valid() && Paid(v, settled, bound, states, pushes, states0, pushes0)
    ensures states + bound * |v.adjacency| >= states0 && pushes + bound * |v.adjacency| + 1 >= pushes0
  {
    hide RowsWork, View.Valid;
    RowsWorkBounded(v, settled, bound);
  }

  lemma PaidStart(v: View, settled: seq<seq<bool>>, bound: nat, states: nat, pushes: nat)
    requires v.Valid() && |settled| == bound + 1 && (forall h :: 0 <= h < |settled| ==> |settled[h]| == v.NodeCount()) && pushes > 0
    requires forall h, u :: 0 <= h < |settled| && 0 <= u < v.NodeCount() ==> !settled[h][u]
    ensures Paid(v, settled, bound, states, pushes - 1, states, pushes)
  {
    NoRowsWork(v, settled, bound);
  }

  /** Settling a state below the last row pays for its entries: `states` and `pushes` before, and
      whatever is left after at most that many of each. */
  lemma PaidSettle(v: View, settled: seq<seq<bool>>, bound: nat, h: nat, u: nat, states: nat, pushes: nat, states0: nat, pushes0: nat)
    requires v.Valid() && Paid(v, settled, bound, states, pushes, states0, pushes0) && h <= bound && u < v.NodeCount() && !settled[h][u]
    ensures v.offsets[u] <= v.offsets[u + 1]
    ensures h == bound ==> Paid(v, Settle(settled, h, u), bound, states, pushes, states0, pushes0)
    ensures h < bound ==> forall s: nat, p: nat ::
      s + (v.offsets[u + 1] - v.offsets[u]) >= states && p + (v.offsets[u + 1] - v.offsets[u]) >= pushes ==>
        Paid(v, Settle(settled, h, u), bound, s, p, states0, pushes0)
    ensures h < bound && states < v.offsets[u + 1] - v.offsets[u] ==> states0 < bound * |v.adjacency|
    ensures h < bound && pushes < v.offsets[u + 1] - v.offsets[u] ==> pushes0 < bound * |v.adjacency| + 1
  {
    RowsWorkGrows(v, settled, h, u, bound);
    RowsWorkBounded(v, Settle(settled, h, u), bound);
  }

  method Labels(v: View, source: nat, bound: nat, bans: Bans, budget: WorkBudget)
    returns (limited: bool, overflow: bool, dist: Table)
    requires v.Valid() && source < v.NodeCount()
    requires budget.Honest()
    modifies budget
    ensures budget.Honest()
    ensures budget.spurRemaining == old(budget.spurRemaining) && budget.stateSpaceExceeded == old(budget.stateSpaceExceeded)
    ensures limited ==> budget.exhausted && (old(budget.statesRemaining) < bound * |v.adjacency| || old(budget.pushesRemaining) < bound * |v.adjacency| + 1)
    ensures !limited ==> budget.statesRemaining + bound * |v.adjacency| >= old(budget.statesRemaining) && budget.pushesRemaining + bound * |v.adjacency| + 1 >= old(budget.pushesRemaining)
    ensures !limited ==> Layers(v, source, bound, bans, dist)
  {
    hide View.Valid, RowsWork, Attained;
    limited, overflow := false, false;
    var n := v.NodeCount();
    dist := seq(bound + 1, _ => seq(n, _ => MAX_COST));
    var settled := seq(bound + 1, _ => seq(n, _ => false));
    dist := Relabel(dist, 0, source, 0);
    var q := [Entry(0, 0, source)];
    StartIdle(v, source, bound, bans, dist, settled);
    hide Idle, Busy, Layers, Relabel, Settle, Paid;
    if budget.pushesRemaining > 0 {
      PaidStart(v, settled, bound, budget.statesRemaining, budget.pushesRemaining);
    }
    var spent := budget.SpendPush();
    if !spent {
      limited := true;
      return;
    }
    ghost var low := 0;
    while q != []
      invariant Paid(v, settled, bound, budget.statesRemaining, budget.pushesRemaining, old(budget.statesRemaining), old(budget.pushesRemaining))
      invariant Idle(v, source, bound, bans, dist, settled, q, low)
      invariant budget.spurRemaining == old(budget.spurRemaining) && budget.stateSpaceExceeded == old(budget.stateSpaceExceeded) && budget.Honest()
      decreases |q| + budget.pushesRemaining
    {
      var entry, rest := Pop(q);
      PopIdle(v, source, bound, bans, dist, settled, q, low, entry, rest);
      q := rest;
      low := entry.cost;
      if settled[entry.hops][entry.node] {
        continue;
      }
      if dist[entry.hops][entry.node] != entry.cost {
        continue;
      }
      PaidSettle(v, settled, bound, entry.hops, entry.node, budget.statesRemaining, budget.pushesRemaining, old(budget.statesRemaining), old(budget.pushesRemaining));
      settled := Settle(settled, entry.hops, entry.node);
      if entry.hops == bound {
        continue;
      }
      SliceRange(v, entry.node);
      var over;
      limited, over, dist, q := Expand(v, source, bound, bans, budget, entry, dist, settled, q);
      overflow := overflow || over;
      if limited {
        return;
      }
      ExpandedIdle(v, source, bound, bans, dist, settled, q, entry, v.offsets[entry.node + 1]);
    }
    PaidBound(v, settled, bound, budget.statesRemaining, budget.pushesRemaining, old(budget.statesRemaining), old(budget.pushesRemaining));
    IdleDone(v, source, bound, bans, dist, settled, low);
  }

  lemma ExpandedIdle(v: View, s: nat, bound: nat, bans: Bans, dist: Table, settled: seq<seq<bool>>, q: seq<Entry>, entry: Entry, a: nat)
    requires Busy(v, s, bound, bans, dist, settled, q, entry, a)
    requires entry.node + 1 < |v.offsets| && v.offsets[entry.node + 1] <= a
    ensures Idle(v, s, bound, bans, dist, settled, q, entry.cost)
  {
    BusyDone(v, s, bound, bans, dist, settled, q, entry, a);
  }

  /** One row of the can_reach table is exact. */
  ghost predicate RowExact(v: View, bans: Bans, t: Table, last: nat, d: nat, h: nat, row: seq<bool>) {
    |row| == v.NodeCount() && forall w :: 0 <= w < |row| ==> (row[w] <==> Reaches(v, bans, t, last, d, h, w))
  }

  /** Scans the entries out of (h, u) in index order for the first one on a tight walk to (last, d). */
  method FirstTightEntry(v: View, bans: Bans, dist: Table, last: nat, d: nat, h: nat, u: nat, next: seq<bool>)
    returns (r: Option<nat>)
    requires v.Valid() && u < v.NodeCount() && h < last && Shaped(v, dist, |dist|) && last < |dist|
    requires d < v.NodeCount() && dist[last][d] < MAX_COST && dist[h][u] < MAX_COST
    requires RowExact(v, bans, dist, last, d, h + 1, next)
    ensures r.None? ==> forall a :: !Exit(v, bans, dist, last, d, h, u, a)
    ensures r.Some? ==> FirstExit(v, bans, dist, last, d, h, u, r.value) && r.value < |v.adjacency|
  {
    hide View.Valid, Reaches;
    SliceRange(v, u);
    var a := v.offsets[u];
    while a < v.offsets[u + 1]
      invariant v.offsets[u] <= a <= v.offsets[u + 1]
      invariant forall b :: 0 <= b < a ==> !Exit(v, bans, dist, last, d, h, u, b)
    {
      SliceFacts(v, u, a);
      IncrementFacts(v, a);
      var candidate := v.adjacency[a];
      if a !in bans.entries && candidate.to !in bans.nodes && next[candidate.to] {
        ReachesLabelled(v, bans, dist, last, d, h + 1, candidate.to);
        var increment := CheckedAdd(v.costModel.hopCost, candidate.traversalCost);
        var nextCost := if increment.None? then None else CheckedAdd(dist[h][u], increment.value);
        if nextCost.Some? && nextCost.value == dist[h + 1][candidate.to] {
          return Some(a);
        }
      }
      a := a + 1;
    }
    r := None;
  }

  /** Backward pass: which labelled states lie on a tight walk to (last, d). */
  method MarkReachable(v: View, bans: Bans, dist: Table, last: nat, d: nat) returns (reach: seq<seq<bool>>)
    requires v.Valid() && Shaped(v, dist, |dist|) && last < |dist|
    requires d < v.NodeCount() && dist[last][d] < MAX_COST
    ensures |reach| == last + 1
    ensures forall h :: 0 <= h <= last ==> RowExact(v, bans, dist, last, d, h, reach[h])
  {
    hide View.Valid, Reaches;
    var n := v.NodeCount();
    var row := seq(n, w => w == d);
    assert RowExact(v, bans, dist, last, d, last, row) by { LastRow(v, bans, dist, last, d, row); }
    reach := seq(last + 1, _ => row);
    var level := last;
    while level > 0
      invariant 0 <= level <= last && |reach| == last + 1
      invariant forall h :: level <= h <= last ==> RowExact(v, bans, dist, last, d, h, reach[h])
    {
      var hops := level - 1;
      row := [];
      for node := 0 to n
        invariant |row| == node
        invariant forall w :: 0 <= w < node ==> (row[w] <==> Reaches(v, bans, dist, last, d, hops, w))
      {
        var reachable := false;
        if dist[hops][node] < MAX_COST {
          var exit := FirstTightEntry(v, bans, dist, last, d, hops, node, reach[level]);
          reachable := exit.Some?;
        } else if Reaches(v, bans, dist, last, d, hops, node) {
          ReachesLabelled(v, bans, dist, last, d, hops, node);
        }
        ReachesByExit(v, bans, dist, last, d, hops, node);
        row := row + [reachable];
      }
      reach := reach[hops := row];
      level := level - 1;
    }
  }

  lemma LastRow(v: View, bans: Bans, t: Table, last: nat, d: nat, row: seq<bool>)
    requires |row| == v.NodeCount() && forall w :: 0 <= w < |row| ==> row[w] == (w == d)
    ensures RowExact(v, bans, t, last, d, last, row)
  {
  }

  /** Forward pass: from the source, always the first tight entry. */
  method GreedyWalk(v: View, bans: Bans, dist: Table, source: nat, last: nat, d: nat, reach: seq<seq<bool>>)
    returns (g: RawPath)
    requires v.Valid() && Shaped(v, dist, |dist|) && last < |dist| && source < v.NodeCount()
    requires d < v.NodeCount() && dist[last][d] < MAX_COST
    requires |reach| == last + 1 && forall h :: 0 <= h <= last ==> RowExact(v, bans, dist, last, d, h, reach[h])
    requires Reaches(v, bans, dist, last, d, 0, source)
    ensures Greedy(v, bans, dist, source, last, d, g) && g.Hops() == last
  {
    g := RawPath([source], []);
    GreedyStart(v, bans, dist, source, last, d);
    hide View.Valid, Reaches, Leads;
    var current, hops := source, 0;
    while current != d || hops != last
      invariant Greedy(v, bans, dist, source, last, d, g)
      invariant hops == g.Hops() <= last && current == g.nodes[hops]
      decreases last - hops
    {
      ReachesLabelled(v, bans, dist, last, d, hops, current);
      GreedyUnfinished(v, bans, dist, source, last, d, g);
      var exit := FirstTightEntry(v, bans, dist, last, d, hops, current, reach[hops + 1]);
      GreedyStep(v, bans, dist, source, last, d, g, exit.value);
      g := Extend(v, g, exit.value);
      current := v.adjacency[exit.value].to;
      hops := hops + 1;
    }
  }

  lemma GreedyUnfinished(v: View, bans: Bans, t: Table, s: nat, last: nat, d: nat, g: RawPath)
    requires Greedy(v, bans, t, s, last, d, g)
    requires g.nodes[g.Hops()] != d || g.Hops() != last
    ensures g.Hops() < last && exists a :: Exit(v, bans, t, last, d, g.Hops(), g.nodes[g.Hops()], a)
  {
    hide Leads;
    ExitExists(v, bans, t, last, d, g.Hops(), g.nodes[g.Hops()]);
  }

  datatype SearchOutcome = SearchOutcome(found: bool, resourceLimit: bool, costOverflow: bool, path: RawPath)

  const NOTHING := SearchOutcome(false, false, false, RawPath([], []))

  /** The least label of the destination, and the fewest hops that attain it. */
  method BestDestination(dist: Table, bound: nat, d: nat) returns (bestCost: nat, bestHops: nat)
    requires |dist| == bound + 1 && bound < INFINITE_HOPS
    requires forall h :: 0 <= h <= bound ==> d < |dist[h]| && dist[h][d] <= MAX_COST
    ensures bestHops == INFINITE_HOPS ==> forall h :: 0 <= h <= bound ==> dist[h][d] == MAX_COST
    ensures bestHops != INFINITE_HOPS ==> bestHops <= bound && bestCost == dist[bestHops][d] < MAX_COST
    ensures bestHops != INFINITE_HOPS ==> forall h :: 0 <= h <= bound ==>
      bestCost < dist[h][d] || (bestCost == dist[h][d] && bestHops <= h)
  {
    bestCost, bestHops := MAX_COST, INFINITE_HOPS;
    for hops := 0 to bound + 1
      invariant bestHops == INFINITE_HOPS ==> bestCost == MAX_COST && forall h :: 0 <= h < hops ==> dist[h][d] == MAX_COST
      invariant bestHops != INFINITE_HOPS ==> bestHops < hops && bestCost == dist[bestHops][d] < MAX_COST
      invariant bestHops != INFINITE_HOPS ==> forall h :: 0 <= h < hops ==>
        bestCost < dist[h][d] || (bestCost == dist[h][d] && bestHops <= h)
    {
      var value := dist[hops][d];
      if value != MAX_COST && (value < bestCost || (value == bestCost && hops < bestHops)) {
        bestCost, bestHops := value, hops;
      }
    }
  }

  lemma LabelBelowCost(v: View, s: nat, d: nat, bound: nat, bans: Bans, dist: Table, q: RawPath)
    requires Layers(v, s, bound, bans, dist) && bound != NO_HOP_BOUND && Eligible(v, s, d, bound, bans, q)
    ensures q.Hops() <= bound && d < v.NodeCount() && dist[q.Hops()][d] <= Cost(v, q.adjacency)
  {
    hide View.Valid, Attained, Relaxed;
    LabelAlongWalk(v, s, bound, bans, dist, q, 0, q.Hops());
    assert q.adjacency[..q.Hops()] == q.adjacency && q.adjacency[..0] == [];
  }

  lemma NoLabelNoPath(v: View, s: nat, d: nat, bound: nat, bans: Bans, dist: Table)
    requires Layers(v, s, bound, bans, dist) && d < v.NodeCount() && bound != NO_HOP_BOUND
    requires forall h :: 0 <= h <= bound ==> dist[h][d] == MAX_COST
    ensures forall q :: !Eligible(v, s, d, bound, bans, q)
  {
    hide View.Valid, Layers;
    forall q | Eligible(v, s, d, bound, bans, q) ensures false {
      LabelBelowCost(v, s, d, bound, bans, dist, q);
    }
  }

  /** The facts reconstruction needs about the best destination label. */
  lemma BestIsReached(v: View, s: nat, d: nat, bound: nat, bans: Bans, dist: Table, cost: nat, last: nat)
    requires Layers(v, s, bound, bans, dist) && d < v.NodeCount() && bound != NO_HOP_BOUND
    requires last <= bound && cost == dist[last][d] < MAX_COST
    requires forall h :: 0 <= h <= bound ==> cost < dist[h][d] || (cost == dist[h][d] && last <= h)
    ensures BestLabel(v, s, d, bound, bans, cost, last)
    ensures forall q :: Eligible(v, s, d, bound, bans, q) && Cost(v, q.adjacency) == cost && q.Hops() == last
              ==> TightTo(v, bans, dist, s, last, d, q)
    ensures Reaches(v, bans, dist, last, d, 0, s)
  {
    hide View.Valid, Relaxed, TightTo;
    forall q | Eligible(v, s, d, bound, bans, q)
      ensures cost < Cost(v, q.adjacency) || (cost == Cost(v, q.adjacency) && last <= q.Hops())
    {
      LabelBelowCost(v, s, d, bound, bans, dist, q);
    }
    forall q | Eligible(v, s, d, bound, bans, q) && Cost(v, q.adjacency) == cost && q.Hops() == last
      ensures TightTo(v, bans, dist, s, last, d, q)
    {
      OptimalIsTight(v, s, d, bound, bans, dist, q);
    }
    var p :| AttainedBy(v, s, bans, last, d, cost, p);
    assert Eligible(v, s, d, bound, bans, p);
    TightWalkReaches(v, bans, dist, s, last, d, p, 0);
    TightStart(v, bans, dist, s, last, d, p);
  }

  lemma TightStart(v: View, bans: Bans, t: Table, s: nat, last: nat, d: nat, p: RawPath)
    requires TightTo(v, bans, t, s, last, d, p)
    ensures |p.nodes| > 0 && p.nodes[0] == s
  {
  }

  method ExpandedSearch(v: View, source: nat, d: nat, bound: nat, bans: Bans, budget: WorkBudget)
    returns (outcome: SearchOutcome)
    requires v.Valid() && source < v.NodeCount() && d < v.NodeCount() && bound < NO_HOP_BOUND
    requires budget.Honest()
    modifies budget
    ensures budget.Honest()
    ensures budget.spurRemaining == old(budget.spurRemaining)
    ensures outcome.resourceLimit ==> !outcome.found && (budget.exhausted || budget.stateSpaceExceeded)
    ensures budget.stateSpaceExceeded ==> old(budget.stateSpaceExceeded) || (bound + 1) * v.NodeCount() > v.maxSearchStates
    ensures outcome.resourceLimit ==> (bound + 1) * v.NodeCount() > v.maxSearchStates || old(budget.statesRemaining) < bound * |v.adjacency| || old(budget.pushesRemaining) < bound * |v.adjacency| + 1
    ensures !outcome.resourceLimit ==> budget.statesRemaining + bound * |v.adjacency| >= old(budget.statesRemaining) && budget.pushesRemaining + bound * |v.adjacency| + 1 >= old(budget.pushesRemaining)
    ensures !outcome.resourceLimit ==> CanonicalAnswer(v, source, d, bound, bans, outcome.found, outcome.path)
  {
    hide View.Valid, Layers, Reaches, BestLabel, TightTo, Greedy, RowExact, CanonicalAnswer;
    outcome := NOTHING;
    if (bound + 1) * v.NodeCount() > v.maxSearchStates {
      budget.stateSpaceExceeded := true;
      outcome := outcome.(resourceLimit := true);
      return;
    }
    var limited, overflow, dist := Labels(v, source, bound, bans, budget);
    outcome := outcome.(costOverflow := overflow);
    if limited {
      outcome := outcome.(resourceLimit := true);
      return;
    }
    LayersShape(v, source, bound, bans, dist);
    var bestCost, bestHops := BestDestination(dist, bound, d);
    if bestHops == INFINITE_HOPS {
      NoLabelNoPath(v, source, d, bound, bans, dist);
      NotFoundAnswer(v, source, d, bound, bans, outcome.path);
      return;
    }
    BestIsReached(v, source, d, bound, bans, dist, bestCost, bestHops);
    var reach := MarkReachable(v, bans, dist, bestHops, d);
    var path := GreedyWalk(v, bans, dist, source, bestHops, d, reach);
    GreedyAnswer(v, source, d, bound, bans, dist, bestHops, path);
    outcome := outcome.(found := true, path := path);
  }

  lemma LayersShape(v: View, s: nat, bound: nat, bans: Bans, dist: Table)
    requires Layers(v, s, bound, bans, dist)
    ensures Shaped(v, dist, bound + 1) && s < v.NodeCount() && dist[0][s] == 0
    ensures forall h, u :: 0 <= h <= bound && 0 <= u < v.NodeCount() ==> dist[h][u] <= MAX_COST
  {
    hide View.Valid, Attained, Relaxed;
  }

  lemma NotFoundAnswer(v: View, s: nat, d: nat, bound: nat, bans: Bans, p: RawPath)
    requires forall q :: !Eligible(v, s, d, bound, bans, q)
    ensures CanonicalAnswer(v, s, d, bound, bans, false, p)
  {
  }

  lemma GreedyAnswer(v: View, s: nat, d: nat, bound: nat, bans: Bans, t: Table, last: nat, g: RawPath)
    requires v.Valid() && Greedy(v, bans, t, s, last, d, g) && g.Hops() == last
    requires last < |t| && s < |t[0]| && t[0][s] == 0 && d < |t[last]| && t[last][d] < MAX_COST
    requires WithinHops(bound, last)
    requires BestLabel(v, s, d, bound, bans, t[last][d], last)
    requires forall q :: Eligible(v, s, d, bound, bans, q) && Cost(v, q.adjacency) == t[last][d] && q.Hops() == last
               ==> TightTo(v, bans, t, s, last, d, q)
    ensures CanonicalAnswer(v, s, d, bound, bans, true, g)
  {
    hide View.Valid, BestLabel, Leads, TightStep, Eligible;
    assert g.nodes[last] == d;
    GreedyIsCanonical(v, s, d, bound, bans, t, last, g);
  }
}
