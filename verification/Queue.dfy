/** The work budget and the priority queue both searches share. */
module Queue {
  import opened View

  /** Deterministic resource bounds; running out is reported, never retried. */
  class WorkBudget {
    var statesRemaining: nat
    var pushesRemaining: nat
    var spurRemaining: nat
    var exhausted: bool
    var stateSpaceExceeded: bool

    /** The budget is reported exhausted only when one of its counters has run out. */
    ghost predicate Honest()
      reads this
    {
      exhausted ==> statesRemaining == 0 || pushesRemaining == 0 || spurRemaining == 0
    }

    constructor (states: nat, pushes: nat, spurs: nat)
      ensures statesRemaining == states && pushesRemaining == pushes && spurRemaining == spurs
      ensures !exhausted && !stateSpaceExceeded && Honest()
    {
      statesRemaining, pushesRemaining, spurRemaining := states, pushes, spurs;
      exhausted, stateSpaceExceeded := false, false;
    }

    method SpendState() returns (ok: bool)
      requires Honest()
      modifies this`statesRemaining, this`exhausted
      ensures Honest()
      ensures ok <==> old(statesRemaining) > 0
      ensures ok ==> statesRemaining == old(statesRemaining) - 1 && exhausted == old(exhausted)
      ensures !ok ==> statesRemaining == 0 && exhausted
    {
      if statesRemaining == 0 {
        exhausted := true;
        return false;
      }
      statesRemaining := statesRemaining - 1;
      ok := true;
    }

    method SpendPush() returns (ok: bool)
      requires Honest()
      modifies this`pushesRemaining, this`exhausted
      ensures Honest()
      ensures ok <==> old(pushesRemaining) > 0
      ensures ok ==> pushesRemaining == old(pushesRemaining) - 1 && exhausted == old(exhausted)
      ensures !ok ==> pushesRemaining == 0 && exhausted
    {
      if pushesRemaining == 0 {
        exhausted := true;
        return false;
      }
      pushesRemaining := pushesRemaining - 1;
      ok := true;
    }

    method SpendSpur() returns (ok: bool)
      requires Honest()
      modifies this`spurRemaining, this`exhausted
      ensures Honest()
      ensures ok <==> old(spurRemaining) > 0
      ensures ok ==> spurRemaining == old(spurRemaining) - 1 && exhausted == old(exhausted)
      ensures !ok ==> spurRemaining == 0 && exhausted
    {
      if spurRemaining == 0 {
        exhausted := true;
        return false;
      }
      spurRemaining := spurRemaining - 1;
      ok := true;
    }
  }

  /** The entries that leave settled nodes below n: what a search has to look at for them. */
  function Work(v: View, settled: seq<bool>, n: nat): nat
    requires n <= |settled| && n < |v.offsets|
  {
    if n == 0 then 0
    else Work(v, settled, n - 1) + (if settled[n - 1] && v.offsets[n - 1] <= v.offsets[n] then v.offsets[n] - v.offsets[n - 1] else 0)
  }

  lemma {:induction false} WorkBounded(v: View, settled: seq<bool>, n: nat)
    requires v.Valid() && n <= |settled| && n <= v.NodeCount()
    ensures Work(v, settled, n) <= v.offsets[n] <= |v.adjacency|
  {
    if n > 0 {
      WorkBounded(v, settled, n - 1);
    }
  }

  /** Settling one more node adds its entries and no others. */
  lemma {:induction false} WorkGrows(v: View, settled: seq<bool>, more: seq<bool>, u: nat, n: nat)
    requires v.Valid() && n <= v.NodeCount() && n <= |settled| == |more| && u < |settled| && u < v.NodeCount()
    requires !settled[u] && more[u] && forall w :: 0 <= w < |settled| && w != u ==> more[w] == settled[w]
    ensures Work(v, more, n) == Work(v, settled, n) + (if u < n then v.offsets[u + 1] - v.offsets[u] else 0)
  {
    if n > 0 {
      WorkGrows(v, settled, more, u, n - 1);
    }
  }

  lemma {:induction false} NoWork(v: View, settled: seq<bool>, n: nat)
    requires n <= |settled| && n < |v.offsets| && forall w :: 0 <= w < |settled| ==> !settled[w]
    ensures Work(v, settled, n) == 0
  {
    if n > 0 {
      NoWork(v, settled, n - 1);
    }
  }

  datatype Entry = Entry(cost: nat, hops: nat, node: nat)

  predicate Greater(x: Entry, y: Entry) {
    if x.cost != y.cost then x.cost > y.cost
    else if x.hops != y.hops then x.hops > y.hops
    else x.node > y.node
  }

  /** Lexicographic label comparison. */
  predicate BetterLabel(cost: nat, hops: nat, otherCost: nat, otherHops: nat) {
    if cost != otherCost then cost < otherCost else hops < otherHops
  }

  /** Removes a least entry. */
  method Pop(q: seq<Entry>) returns (top: Entry, rest: seq<Entry>)
    requires q != []
    ensures multiset(q) == multiset(rest) + multiset{top}
    ensures |rest| == |q| - 1
    ensures top in q
    ensures forall e :: e in rest ==> e in q
    ensures forall e :: e in q ==> (e == top || e in rest) && !Greater(top, e)
    ensures forall e :: e in q ==>
      top.cost < e.cost || (top.cost == e.cost && (top.hops < e.hops || (top.hops == e.hops && top.node <= e.node)))
  {
    var best := 0;
    for i := 1 to |q|
      invariant best < |q|
      invariant forall k :: 0 <= k < i ==> !Greater(q[best], q[k])
    {
      if Greater(q[best], q[i]) {
        best := i;
      }
    }
    top := q[best];
    rest := q[..best] + q[best + 1..];
    assert q == q[..best] + [q[best]] + q[best + 1..];
    forall e | e in q ensures e == top || e in rest {
      var i :| 0 <= i < |q| && q[i] == e;
      if i < best { assert rest[i] == e; } else if i > best { assert rest[i - 1] == e; }
    }
  }
}
