/** Itemised path cost with checked arithmetic (src/path.cpp) and its agreement with the search. */
module PathCosts {
  import opened Wrappers
  import opened View

  const MAX_HOP_COUNT: nat := 65535

  datatype HopCostInput = HopCostInput(staticCost: nat, degraded: bool, outsideLocality: bool)

  datatype PathCost = PathCost(
    hopsCost: nat, staticCost: nat, degradedPenalty: nat, localityPenalty: nat,
    total: nat, hops: nat, degradedHops: nat, localityBreaches: nat)

  function CheckedMul(x: nat, factor: nat): (r: Option<nat>)
    ensures r == if factor * x > MAX_COST then None else Some(factor * x)
  {
    if factor != 0 && x > MAX_COST / factor then
      assert factor * x > MAX_COST by { OverflowsBeyondQuotient(x, factor); }
      None
    else
      assert factor * x <= MAX_COST by { FitsUpToQuotient(x, factor); }
      Some(factor * x)
  }

  lemma OverflowsBeyondQuotient(x: nat, f: nat)
    requires f != 0 && x > MAX_COST / f
    ensures f * x > MAX_COST
  {
    var q := MAX_COST / f;
    assert MAX_COST == q * f + MAX_COST % f;
    assert x * f >= (q + 1) * f;
  }

  lemma FitsUpToQuotient(x: nat, f: nat)
    requires f == 0 || x <= MAX_COST / f
    ensures f * x <= MAX_COST
  {
    if f != 0 {
      var q := MAX_COST / f;
      assert x * f <= q * f;
    }
  }

  function StaticSum(hops: seq<HopCostInput>): nat {
    if hops == [] then 0 else StaticSum(hops[..|hops| - 1]) + hops[|hops| - 1].staticCost
  }

  function DegradedCount(hops: seq<HopCostInput>): nat {
    if hops == [] then 0 else DegradedCount(hops[..|hops| - 1]) + (if hops[|hops| - 1].degraded then 1 else 0)
  }

  function BreachCount(hops: seq<HopCostInput>): nat {
    if hops == [] then 0 else BreachCount(hops[..|hops| - 1]) + (if hops[|hops| - 1].outsideLocality then 1 else 0)
  }

  /** Exact itemised total. */
  function ItemisedTotal(hops: seq<HopCostInput>, model: CostModel): nat {
    |hops| * model.hopCost + StaticSum(hops)
    + DegradedCount(hops) * model.degradedPenalty + BreachCount(hops) * model.localityPenalty
  }

  /** The cost of a path, item by item. */
  function Itemised(hops: seq<HopCostInput>, model: CostModel): PathCost {
    PathCost(|hops| * model.hopCost, StaticSum(hops), DegradedCount(hops) * model.degradedPenalty, BreachCount(hops) * model.localityPenalty,
             ItemisedTotal(hops, model), |hops|, DegradedCount(hops), BreachCount(hops))
  }

  lemma {:induction false} StaticSumGrows(hops: seq<HopCostInput>, k: nat)
    requires k <= |hops|
    ensures StaticSum(hops[..k]) <= StaticSum(hops)
    decreases |hops| - k
  {
    if k < |hops| {
      assert hops[..k + 1][..k] == hops[..k];
      StaticSumGrows(hops, k + 1);
    } else {
      assert hops[..k] == hops;
    }
  }

  method SumHops(hops: seq<HopCostInput>) returns (r: Option<nat>, degradedHops: nat, breaches: nat)
    ensures r == if StaticSum(hops) > MAX_COST then None else Some(StaticSum(hops))
    ensures r.Some? ==> degradedHops == DegradedCount(hops) && breaches == BreachCount(hops)
  {
    var staticCost := 0;
    degradedHops, breaches := 0, 0;
    for i := 0 to |hops|
      invariant staticCost == StaticSum(hops[..i]) && staticCost <= MAX_COST
      invariant degradedHops == DegradedCount(hops[..i])
      invariant breaches == BreachCount(hops[..i])
    {
      assert hops[..i + 1][..i] == hops[..i];
      var sum := CheckedAdd(staticCost, hops[i].staticCost);
      if sum.None? {
        StaticSumGrows(hops, i + 1);
        return None, 0, 0;
      }
      staticCost := sum.value;
      if hops[i].degraded {
        degradedHops := degradedHops + 1;
      }
      if hops[i].outsideLocality {
        breaches := breaches + 1;
      }
    }
    assert hops[..|hops|] == hops;
    r := Some(staticCost);
  }

  method AccumulatePathCost(hops: seq<HopCostInput>, model: CostModel) returns (r: Option<PathCost>)
    ensures r.None? <==> |hops| > MAX_HOP_COUNT || ItemisedTotal(hops, model) > MAX_COST
    ensures r.Some? ==> r.value == Itemised(hops, model)
  {
    if |hops| > MAX_HOP_COUNT {
      return None;
    }
    var hopsCost := CheckedMul(model.hopCost, |hops|);
    if hopsCost.None? {
      return None;
    }
    var staticCost, degradedHops, breaches := SumHops(hops);
    if staticCost.None? {
      return None;
    }
    var degraded := CheckedMul(model.degradedPenalty, degradedHops);
    if degraded.None? {
      return None;
    }
    var locality := CheckedMul(model.localityPenalty, breaches);
    if locality.None? {
      return None;
    }
    var total := CheckedAdd(0, hopsCost.value);
    if total.Some? { total := CheckedAdd(total.value, staticCost.value); }
    if total.Some? { total := CheckedAdd(total.value, degraded.value); }
    if total.Some? { total := CheckedAdd(total.value, locality.value); }
    if total.None? {
      return None;
    }
    return Some(PathCost(hopsCost.value, staticCost.value, degraded.value, locality.value,
                         total.value, |hops|, degradedHops, breaches));
  }

  function HopInputs(v: View, entries: seq<nat>): (r: seq<HopCostInput>)
    requires forall i :: 0 <= i < |entries| ==> entries[i] < |v.adjacency|
    ensures |r| == |entries|
  {
    seq(|entries|, i requires 0 <= i < |entries| =>
      var e := v.adjacency[entries[i]]; HopCostInput(e.staticCost, e.degraded, e.outsideLocality))
  }

  /** The running sum a search keeps: every increment and every addition is checked. */
  function CheckedCost(v: View, entries: seq<nat>): Option<nat>
    requires forall i :: 0 <= i < |entries| ==> entries[i] < |v.adjacency|
  {
    if entries == [] then Some(0) else
      var last := v.adjacency[entries[|entries| - 1]];
      match (CheckedCost(v, entries[..|entries| - 1]), CheckedAdd(v.costModel.hopCost, last.traversalCost))
      case (Some(sum), Some(increment)) => CheckedAdd(sum, increment)
      case _ => None
  }

  lemma {:induction false} CheckedCostExact(v: View, entries: seq<nat>)
    requires forall i :: 0 <= i < |entries| ==> entries[i] < |v.adjacency|
    ensures CheckedCost(v, entries) == if Cost(v, entries) > MAX_COST then None else Some(Cost(v, entries))
  {
    if entries != [] {
      CheckedCostExact(v, entries[..|entries| - 1]);
    }
  }

  lemma {:induction false} ItemisedIsCost(v: View, entries: seq<nat>)
    requires v.Valid()
    requires forall i :: 0 <= i < |entries| ==> entries[i] < |v.adjacency|
    ensures ItemisedTotal(HopInputs(v, entries), v.costModel) == Cost(v, entries)
  {
    if entries != [] {
      var front, a := entries[..|entries| - 1], entries[|entries| - 1];
      ItemisedIsCost(v, front);
      var hops := HopInputs(v, entries);
      assert hops[..|hops| - 1] == HopInputs(v, front);
      assert v.CostResolved(a);
      var m, d, b := v.costModel, DegradedCount(HopInputs(v, front)), BreachCount(HopInputs(v, front));
      assert (|front| + 1) * m.hopCost == |front| * m.hopCost + m.hopCost;
      assert (d + 1) * m.degradedPenalty == d * m.degradedPenalty + m.degradedPenalty;
      assert (b + 1) * m.localityPenalty == b * m.localityPenalty + m.localityPenalty;
    }
  }

  lemma {:induction false} WalkEntriesInRange(v: View, p: RawPath)
    requires v.Valid() && IsWalk(v, p)
    ensures forall i :: 0 <= i < |p.adjacency| ==> p.adjacency[i] < |v.adjacency|
  {
    forall i | 0 <= i < |p.adjacency| ensures p.adjacency[i] < |v.adjacency| {
      var u := p.nodes[i];
      assert v.InSlice(u, p.adjacency[i]);
      assert v.offsets[u + 1] <= v.offsets[|v.nodeIds|];
    }
  }

  /** The search's checked running sum and the itemised total fail together and agree otherwise. */
  lemma CostAgreement(v: View, p: RawPath)
    requires v.Valid() && IsWalk(v, p)
    ensures forall i :: 0 <= i < |p.adjacency| ==> p.adjacency[i] < |v.adjacency|
    ensures var total := ItemisedTotal(HopInputs(v, p.adjacency), v.costModel);
            CheckedCost(v, p.adjacency) == if total > MAX_COST then None else Some(total)
  {
    WalkEntriesInRange(v, p);
    CheckedCostExact(v, p.adjacency);
    ItemisedIsCost(v, p.adjacency);
  }

  /** A cost that adds up, with no more penalised hops than hops. */
  ghost predicate CostSound(c: PathCost) {
    && c.total == c.hopsCost + c.staticCost + c.degradedPenalty + c.localityPenalty <= MAX_COST
    && c.degradedHops <= c.hops && c.localityBreaches <= c.hops <= MAX_HOP_COUNT
  }

  lemma {:induction false} CountsBounded(hops: seq<HopCostInput>)
    ensures DegradedCount(hops) <= |hops| && BreachCount(hops) <= |hops|
  {
    if hops != [] {
      CountsBounded(hops[..|hops| - 1]);
    }
  }

  method ComputeRawPathCost(v: View, p: RawPath) returns (r: Option<PathCost>)
    requires v.Valid() && IsWalk(v, p)
    ensures r.None? <==> p.Hops() > MAX_HOP_COUNT || Cost(v, p.adjacency) > MAX_COST
    ensures forall i :: 0 <= i < |p.adjacency| ==> p.adjacency[i] < |v.adjacency|
    ensures r.Some? ==> r.value == Itemised(HopInputs(v, p.adjacency), v.costModel)
    ensures r.Some? ==> r.value.total == Cost(v, p.adjacency) && r.value.hops == p.Hops() && CostSound(r.value)
  {
    WalkEntriesInRange(v, p);
    var hops := [];
    for i := 0 to |p.adjacency|
      invariant |hops| == i
      invariant forall k :: 0 <= k < i ==> hops[k] == HopInputs(v, p.adjacency)[k]
    {
      var entry := v.adjacency[p.adjacency[i]];
      hops := hops + [HopCostInput(entry.staticCost, entry.degraded, entry.outsideLocality)];
    }
    assert hops == HopInputs(v, p.adjacency);
    ItemisedIsCost(v, p.adjacency);
    CountsBounded(hops);
    r := AccumulatePathCost(hops, v.costModel);
  }
}
