/** Ordered required transit: staged legs over every combination of alternatives
    (src/search.cpp, the required-transit part of EnumerateCandidatePaths). */
module TransitSpec {
  import opened Values
  import opened Wrappers
  import opened Counting
  import opened View
  import opened Order
  import opened Search
  import opened PathCosts
  import opened YenSpec
  import opened MixedRadix

  /** A stage is met by any one of its alternatives, given by node identity. */
  function Sizes(stages: seq<Stage>): seq<nat> {
    seq(|stages|, i requires 0 <= i < |stages| => |stages[i].alternatives|)
  }

  function Chosen(stages: seq<Stage>, selection: seq<nat>): seq<nat>
    requires Selects(Sizes(stages), selection)
  {
    seq(|stages|, i requires 0 <= i < |stages| => stages[i].alternatives[selection[i]])
  }

  function End(p: RawPath): nat {
    if |p.nodes| > 0 then p.nodes[|p.nodes| - 1] else 0
  }

  function Remaining(maxHops: nat, used: nat): nat
    requires maxHops == NO_HOP_BOUND || used <= maxHops
  {
    if maxHops == NO_HOP_BOUND then NO_HOP_BOUND else maxHops - used
  }

  /** The leg from the end of p to node t: the canonical path that avoids the nodes used so far. */
  ghost predicate Leg(z: Query, p: RawPath, t: nat, leg: RawPath) {
    && |leg.nodes| > 0
    && (z.maxHops == NO_HOP_BOUND || p.Hops() < z.maxHops)
    && Answer(z.view, End(p), t, Remaining(z.maxHops, p.Hops()), Bans(Elements(p.nodes) - {End(p)}, {}), true, leg)
  }

  ghost predicate LegTo(z: Query, p: RawPath, id: nat, leg: RawPath) {
    exists t: nat :: t < z.view.NodeCount() && z.view.nodeIds[t] == id && Leg(z, p, t, leg)
  }

  /** The concatenation of the legs that visit the given nodes in order, if every leg exists. */
  ghost function StagedPath(z: Query, ids: seq<nat>): Option<RawPath> {
    if ids == [] then Some(RawPath([z.source], [])) else
      match StagedPath(z, ids[..|ids| - 1])
      case None => None
      case Some(p) => NextLeg(z, p, ids[|ids| - 1])
  }

  ghost function NextLeg(z: Query, p: RawPath, id: nat): Option<RawPath> {
    if leg :| LegTo(z, p, id, leg) then Some(Join(p, leg)) else None
  }

  /** The last leg, to the destination, which it may have passed through already. */
  ghost predicate FinalLeg(z: Query, p: RawPath, leg: RawPath) {
    && |leg.nodes| > 0
    && (z.maxHops == NO_HOP_BOUND || p.Hops() < z.maxHops || (p.Hops() == z.maxHops && End(p) == z.destination))
    && Answer(z.view, End(p), z.destination, Remaining(z.maxHops, p.Hops()), Bans(Elements(p.nodes) - {End(p), z.destination}, {}), true, leg)
  }

  ghost function Completed(z: Query, p: RawPath): Option<RawPath> {
    if leg :| FinalLeg(z, p, leg) then Usable(z, Join(p, leg)) else None
  }

  ghost function Usable(z: Query, p: RawPath): Option<RawPath> {
    if Simple(p) && p.Hops() <= MAX_HOP_COUNT && Cost(z.view, p.adjacency) <= MAX_COST then Some(p) else None
  }

  /** The staged path through the given nodes, in order, to the destination, if there is one. */
  ghost function Outcome(z: Query, ids: seq<nat>): Option<RawPath> {
    match StagedPath(z, ids)
    case None => None
    case Some(p) => Completed(z, p)
  }

  /** p comes by the given nodes in order. */
  ghost predicate Visits(v: View, ids: seq<nat>, p: RawPath) {
    exists at: seq<nat> :: VisitsAt(v, ids, p, at)
  }

  ghost predicate VisitsAt(v: View, ids: seq<nat>, p: RawPath, at: seq<nat>) {
    && |at| == |ids|
    && (forall k :: 0 <= k < |at| ==> at[k] < |p.nodes| && p.nodes[at[k]] < v.NodeCount() && v.nodeIds[p.nodes[at[k]]] == ids[k])
    && (forall k, l :: 0 <= k < l < |at| ==> at[k] <= at[l])
  }

  lemma LegDetermined(z: Query, p: RawPath, t: nat, found: bool, g: RawPath, h: RawPath)
    requires z.maxHops == NO_HOP_BOUND || p.Hops() < z.maxHops
    requires Answer(z.view, End(p), t, Remaining(z.maxHops, p.Hops()), Bans(Elements(p.nodes) - {End(p)}, {}), found, g)
    requires Leg(z, p, t, h)
    ensures found && g == h
  {
    hide Answer;
    AnswerDetermined(z.view, End(p), t, Remaining(z.maxHops, p.Hops()), Bans(Elements(p.nodes) - {End(p)}, {}), found, g, true, h);
  }

  /** Node identities are distinct, so a leg to an identity is determined. */
  lemma LegIs(z: Query, p: RawPath, t: nat, found: bool, g: RawPath)
    requires z.Valid() && t < z.view.NodeCount() && (z.maxHops == NO_HOP_BOUND || p.Hops() < z.maxHops) && |g.nodes| > 0
    requires Answer(z.view, End(p), t, Remaining(z.maxHops, p.Hops()), Bans(Elements(p.nodes) - {End(p)}, {}), found, g)
    ensures NextLeg(z, p, z.view.nodeIds[t]) == if found then Some(Join(p, g)) else None
  {
    SameIdentity(z);
    hide Query.Valid, Answer, Leg;
    var id := z.view.nodeIds[t];
    if h :| LegTo(z, p, id, h) {
      var u: nat :| u < z.view.NodeCount() && z.view.nodeIds[u] == id && Leg(z, p, u, h);
    }
    forall h | LegTo(z, p, id, h) ensures found && g == h {
      var u: nat :| u < z.view.NodeCount() && z.view.nodeIds[u] == id && Leg(z, p, u, h);
      LegDetermined(z, p, t, found, g, h);
    }
    if found {
      LegHolds(z, p, t, g);
      assert LegTo(z, p, id, g);
    }
  }

  lemma LegHolds(z: Query, p: RawPath, t: nat, g: RawPath)
    requires |g.nodes| > 0 && (z.maxHops == NO_HOP_BOUND || p.Hops() < z.maxHops)
    requires Answer(z.view, End(p), t, Remaining(z.maxHops, p.Hops()), Bans(Elements(p.nodes) - {End(p)}, {}), true, g)
    ensures Leg(z, p, t, g)
  {
    hide Answer;
  }

  lemma SameIdentity(z: Query)
    requires z.Valid()
    ensures forall t: nat, u: nat :: t < z.view.NodeCount() && u < z.view.NodeCount() && t != u ==> z.view.nodeIds[t] != z.view.nodeIds[u]
  {
    forall t: nat, u: nat | t < z.view.NodeCount() && u < z.view.NodeCount() && t != u ensures z.view.nodeIds[t] != z.view.nodeIds[u] {
      assert t < u ==> z.view.nodeIds[t] < z.view.nodeIds[u];
      assert u < t ==> z.view.nodeIds[u] < z.view.nodeIds[t];
    }
  }

  lemma FinalIs(z: Query, p: RawPath, found: bool, g: RawPath)
    requires |g.nodes| > 0
    requires z.maxHops == NO_HOP_BOUND || p.Hops() < z.maxHops || (p.Hops() == z.maxHops && End(p) == z.destination)
    requires Answer(z.view, End(p), z.destination, Remaining(z.maxHops, p.Hops()), Bans(Elements(p.nodes) - {End(p), z.destination}, {}), found, g)
    ensures Completed(z, p) == if found then Usable(z, Join(p, g)) else None
  {
    hide Answer, Usable;
    forall h | FinalLeg(z, p, h) ensures found && g == h {
      AnswerDetermined(z.view, End(p), z.destination, Remaining(z.maxHops, p.Hops()), Bans(Elements(p.nodes) - {End(p), z.destination}, {}), found, g, true, h);
    }
    if found {
      assert FinalLeg(z, p, g);
    }
  }

  /** A leg that cannot be found fails the stages after it too. */
  lemma {:induction false} NoPathStays(z: Query, ids: seq<nat>, i: nat)
    requires i <= |ids| && StagedPath(z, ids[..i]).None?
    ensures StagedPath(z, ids).None?
    decreases |ids|
  {
    hide NextLeg;
    if i < |ids| {
      var n := |ids| - 1;
      assert ids[..n][..i] == ids[..i];
      NoPathStays(z, ids[..n], i);
    } else {
      assert ids[..i] == ids;
    }
  }

  /** What one found leg is: a simple walk within its hop budget that comes by no used node again. */
  lemma AnswerFacts(z: Query, s: nat, t: nat, bound: nat, bans: Bans, leg: RawPath)
    requires z.Valid() && s < z.view.NodeCount() && t < z.view.NodeCount()
    requires Answer(z.view, s, t, bound, bans, true, leg)
    ensures WalkFrom(z.view, s, t, leg) && Simple(leg) && Avoids(z.view, bans, leg)
    ensures leg.Hops() == 0 || WithinHops(bound, leg.Hops())
    ensures z.maxHops <= NO_HOP_BOUND
    ensures forall i :: 1 <= i < |leg.nodes| ==> leg.nodes[i] !in bans.nodes
  {
    hide View.Valid;
    forall i | 1 <= i < |leg.nodes| ensures leg.nodes[i] !in bans.nodes {
      assert Open(z.view, bans, leg.adjacency[i - 1]);
    }
  }

  /** A path the stages have led to so far. */
  ghost predicate Sound(z: Query, p: RawPath) {
    WalkFrom(z.view, z.source, End(p), p) && Simple(p) && WithinHops(z.maxHops, p.Hops()) && End(p) < z.view.NodeCount()
  }

  lemma LegSound(z: Query, p: RawPath, t: nat, leg: RawPath)
    requires z.Valid() && Sound(z, p) && t < z.view.NodeCount() && Leg(z, p, t, leg)
    ensures Sound(z, Join(p, leg)) && End(Join(p, leg)) == t
  {
    hide Query.Valid, View.Valid, Answer, Avoids, Distinct;
    var bans := Bans(Elements(p.nodes) - {End(p)}, {});
    AnswerFacts(z, End(p), t, Remaining(z.maxHops, p.Hops()), bans, leg);
    JoinSimple(p, leg, bans.nodes);
    JoinWalk(z.view, z.source, End(p), t, p, leg);
  }

  lemma JoinSimple(p: RawPath, leg: RawPath, banned: set<nat>)
    requires |p.nodes| > 0 && |leg.nodes| > 0 && leg.nodes[0] == End(p) && Simple(p) && Simple(leg)
    requires forall n :: n in p.nodes ==> n == End(p) || n in banned
    requires forall i :: 1 <= i < |leg.nodes| ==> leg.nodes[i] !in banned
    ensures Simple(Join(p, leg))
    ensures End(Join(p, leg)) == End(leg)
  {
    var all := Join(p, leg).nodes;
    forall i, j | 0 <= i < j < |all| ensures all[i] != all[j] {
      if j >= |p.nodes| {
        var k := j - |p.nodes| + 1;
        assert all[j] == leg.nodes[k] && leg.nodes[k] != leg.nodes[0];
        if i < |p.nodes| {
          assert all[i] == p.nodes[i] && p.nodes[i] in p.nodes;
        } else {
          assert all[i] == leg.nodes[i - |p.nodes| + 1];
        }
      } else {
        assert all[i] == p.nodes[i] && all[j] == p.nodes[j];
      }
    }
  }

  /** Staged paths are simple walks from the source that visit the chosen nodes in order. */
  lemma {:induction false} StagedSound(z: Query, ids: seq<nat>)
    requires z.Valid() && StagedPath(z, ids).Some?
    ensures Sound(z, StagedPath(z, ids).value)
    ensures Visits(z.view, ids, StagedPath(z, ids).value)
  {
    if ids == [] {
      hide View.Valid;
      assert VisitsAt(z.view, ids, RawPath([z.source], []), []);
    } else {
      hide Query.Valid, Leg, Sound;
      var n := |ids| - 1;
      StagedSound(z, ids[..n]);
      var p := StagedPath(z, ids[..n]).value;
      var leg :| LegTo(z, p, ids[n], leg) && StagedPath(z, ids) == Some(Join(p, leg));
      var t: nat :| t < z.view.NodeCount() && z.view.nodeIds[t] == ids[n] && Leg(z, p, t, leg);
      LegSound(z, p, t, leg);
      var at: seq<nat> :| VisitsAt(z.view, ids[..n], p, at);
      VisitsMore(z.view, ids[..n], p, Join(p, leg), at);
      VisitsEnd(z, ids, Join(p, leg), at);
    }
  }

  lemma VisitsMore(v: View, ids: seq<nat>, p: RawPath, q: RawPath, at: seq<nat>)
    requires VisitsAt(v, ids, p, at) && |p.nodes| <= |q.nodes| && forall i :: 0 <= i < |p.nodes| ==> q.nodes[i] == p.nodes[i]
    ensures VisitsAt(v, ids, q, at)
  {
    assert forall k :: 0 <= k < |at| ==> q.nodes[at[k]] == p.nodes[at[k]];
  }

  lemma VisitsEnd(z: Query, ids: seq<nat>, q: RawPath, at: seq<nat>)
    requires |ids| > 0 && VisitsAt(z.view, ids[..|ids| - 1], q, at)
    requires Sound(z, q) && z.view.nodeIds[End(q)] == ids[|ids| - 1]
    ensures Visits(z.view, ids, q)
  {
    var last: nat := |q.nodes| - 1;
    assert VisitsAt(z.view, ids, q, at + [last]);
  }

  /** A staged result is a route of the query that comes by the chosen nodes in order. */
  lemma OutcomeIsRoute(z: Query, ids: seq<nat>)
    requires z.Valid() && Outcome(z, ids).Some?
    ensures Route(z, Outcome(z, ids).value) && Visits(z.view, ids, Outcome(z, ids).value)
    ensures Cost(z.view, Outcome(z, ids).value.adjacency) <= MAX_COST
  {
    hide Query.Valid, View.Valid, FinalLeg, Sound, StagedPath, Visits, WalkFrom, WithinHops, Completed;
    StagedSound(z, ids);
    var p := StagedPath(z, ids).value;
    var leg := CompletedLeg(z, p);
    FinalSound(z, p, leg);
    VisitsJoin(z.view, ids, p, leg);
  }

  lemma CompletedLeg(z: Query, p: RawPath) returns (leg: RawPath)
    requires Completed(z, p).Some?
    ensures |leg.nodes| > 0 && FinalLeg(z, p, leg) && Completed(z, p) == Usable(z, Join(p, leg))
  {
    hide Answer, Usable;
    leg :| FinalLeg(z, p, leg) && Completed(z, p) == Usable(z, Join(p, leg));
  }

  lemma VisitsJoin(v: View, ids: seq<nat>, p: RawPath, leg: RawPath)
    requires Visits(v, ids, p) && |leg.nodes| > 0
    ensures Visits(v, ids, Join(p, leg))
  {
    hide VisitsAt;
    var at: seq<nat> :| VisitsAt(v, ids, p, at);
    VisitsMore(v, ids, p, Join(p, leg), at);
  }

  lemma FinalSound(z: Query, p: RawPath, leg: RawPath)
    requires z.Valid() && Sound(z, p) && FinalLeg(z, p, leg)
    ensures WalkFrom(z.view, z.source, z.destination, Join(p, leg)) && WithinHops(z.maxHops, Join(p, leg).Hops())
  {
    var bans := Bans(Elements(p.nodes) - {End(p), z.destination}, {});
    AnswerFacts(z, End(p), z.destination, Remaining(z.maxHops, p.Hops()), bans, leg);
    hide Query.Valid, Answer, Avoids;
    JoinWalk(z.view, z.source, End(p), z.destination, p, leg);
  }
}

module Transit {
  import opened Values
  import opened Wrappers
  import opened ResourceLimits
  import opened Counting
  import opened Sorting
  import opened View
  import opened Order
  import opened Queue
  import opened Expanded
  import opened Search
  import opened Effort
  import opened PathCosts
  import opened Ranking
  import opened BanSets
  import opened YenSpec
  import opened MixedRadix
  import opened TransitSpec
  import opened TransitLaws

  datatype Failure = UnsupportedRequest | MalformedIdentifier | ConstraintCountExceeded | WorkBudgetExhausted
    | RequiredNodeMissing | RequiredAnySetUnsatisfied | MaxHopsExceeded | CostOverflow

  datatype Result = Result(ok: bool, resourceLimit: bool, failure: Option<Failure>, path: RawPath)

  const NO_PATH := RawPath([], [])

  function Sum(sizes: seq<nat>): nat {
    if sizes == [] then 0 else Sum(sizes[..|sizes| - 1]) + sizes[|sizes| - 1]
  }

  ghost predicate Admitted(stages: seq<Stage>, limits: Limits) {
    AllPositive(Sizes(stages)) && Product(Sizes(stages)) <= limits.maxTransitCombinations && Sum(Sizes(stages)) <= limits.maxTransitAlternatives
  }

  /** Counts the combinations, refusing before the product could exceed the limit. */
  method CountCombinations(stages: seq<Stage>, limits: Limits) returns (failure: Option<Failure>, combinations: nat)
    ensures failure.None? <==> Admitted(stages, limits)
    ensures failure.None? ==> combinations == Product(Sizes(stages))
    ensures failure == Some(MalformedIdentifier) ==> exists i :: 0 <= i < |stages| && stages[i].alternatives == []
    ensures failure.Some? ==> failure.value in {MalformedIdentifier, ConstraintCountExceeded}
  {
    ghost var sizes := Sizes(stages);
    var alternatives := 0;
    combinations := 1;
    assert sizes[..0] == [];
    for i := 0 to |stages|
      invariant AllPositive(sizes[..i])
      invariant combinations == Product(sizes[..i]) && alternatives == Sum(sizes[..i])
      invariant i > 0 ==> combinations <= limits.maxTransitCombinations
    {
      var size := |stages[i].alternatives|;
      assert sizes[i] == size && sizes[..i + 1][..i] == sizes[..i];
      if size == 0 {
        return Some(MalformedIdentifier), 0;
      }
      alternatives := alternatives + size;
      QuotientTest(combinations, size, limits.maxTransitCombinations);
      if combinations > limits.maxTransitCombinations / size {
        if AllPositive(sizes) {
          ProductGrows(sizes, i + 1);
        }
        return Some(ConstraintCountExceeded), 0;
      }
      combinations := combinations * size;
    }
    assert sizes[..|stages|] == sizes;
    if alternatives > limits.maxTransitAlternatives {
      return Some(ConstraintCountExceeded), 0;
    }
    if combinations > limits.maxTransitCombinations {
      return Some(ConstraintCountExceeded), 0;
    }
    failure := None;
  }

  /** The position of a node identity among the eligible nodes. */
  method ViewIndex(v: View, id: nat) returns (index: Option<nat>)
    requires v.Valid()
    ensures index.None? ==> id !in v.nodeIds
    ensures index.Some? ==> index.value < v.NodeCount() && v.nodeIds[index.value] == id
  {
    var low, high := 0, |v.nodeIds|;
    while low < high
      invariant 0 <= low <= high <= |v.nodeIds|
      invariant forall i :: 0 <= i < low ==> v.nodeIds[i] < id
      invariant forall i :: high <= i < |v.nodeIds| ==> v.nodeIds[i] >= id
    {
      var mid := low + (high - low) / 2;
      if v.nodeIds[mid] < id {
        low := mid + 1;
      } else {
        high := mid;
      }
    }
    index := if low < |v.nodeIds| && v.nodeIds[low] == id then Some(low) else None;
  }

  /** Bans every node of a path except the given ones. */
  method BanUsed(p: RawPath, kept: set<nat>) returns (bans: Bans)
    ensures bans == Bans(Elements(p.nodes) - kept, {})
  {
    var banned := new BanSet();
    for i := 0 to |p.nodes|
      invariant banned.Valid() && fresh(banned) && banned.Contents().entries == {}
      invariant forall u: nat :: u in banned.Contents().nodes <==> u in p.nodes[..i] && u !in kept
    {
      assert p.nodes[..i + 1] == p.nodes[..i] + [p.nodes[i]];
      if p.nodes[i] !in kept {
        banned.AddNode(p.nodes[i]);
      }
    }
    assert p.nodes[..|p.nodes|] == p.nodes;
    bans := banned.Contents();
    assert bans.nodes == Elements(p.nodes) - kept;
  }

  datatype Progress = Reached(path: RawPath) | Blocked(why: Option<Failure>) | Limited

  /** One leg, to one alternative of one stage. */
  method NextStage(z: Query, p: RawPath, id: nat, exact: bool, budget: WorkBudget) returns (r: Progress)
    requires z.Valid() && Sound(z, p)
    requires budget.Honest()
    modifies budget
    ensures budget.Honest()
    ensures r.Limited? ==> (budget.exhausted || budget.stateSpaceExceeded) && Short(z.view, 1, 0, old(FundsOf(budget)))
    ensures !r.Limited? ==> Left(z.view, 1, 0, FundsOf(budget), old(FundsOf(budget)))
    ensures r.Reached? ==> NextLeg(z, p, id) == Some(r.path) && CarriedTo(z, p, id, r.path)
    ensures r.Blocked? ==> NextLeg(z, p, id) == None && forall q :: !CarriedTo(z, p, id, q)
  {
    hide View.Valid, Answer, Sound, WithinHops, Short, Left, CarriedTo, NextLeg;
    forall q ensures NextLeg(z, p, id) == Some(q) <==> CarriedTo(z, p, id, q) {
      NextLegLaw(z, p, id, q);
    }
    NothingSpent(z.view, FundsOf(budget));
    LeftLess(z.view, 0, 0, 1, 0, FundsOf(budget), FundsOf(budget));
    var target := ViewIndex(z.view, id);
    if target.None? {
      NowhereLeg(z, p, id);
      return Blocked(Some(RequiredNodeMissing));
    }
    SoundFacts(z, p);
    if z.maxHops != NO_HOP_BOUND && p.Hops() >= z.maxHops {
      SpentLeg(z, p, id);
      return Blocked(Some(MaxHopsExceeded));
    }
    var current := p.nodes[|p.nodes| - 1];
    var bans := BanUsed(p, {current});
    var leg := ShortestPath(z.view, current, target.value, Remaining(z.maxHops, p.Hops()), bans, budget);
    if leg.resourceLimit {
      return Limited;
    }
    ghost var g := if leg.found then leg.path else RawPath([0], []);
    if leg.found {
      AnswerFacts(z, current, target.value, Remaining(z.maxHops, p.Hops()), bans, leg.path);
      FoundHasNodes(z, current, target.value, leg.path);
    } else {
      AnyPath(z.view, current, target.value, Remaining(z.maxHops, p.Hops()), bans, leg.path, g);
    }
    LegIs(z, p, target.value, leg.found, g);
    if !leg.found {
      return Blocked(Some(if exact then RequiredNodeMissing else RequiredAnySetUnsatisfied));
    }
    r := Reached(Join(p, leg.path));
  }

  lemma NowhereLeg(z: Query, p: RawPath, id: nat)
    requires id !in z.view.nodeIds
    ensures NextLeg(z, p, id) == None
  {
    hide Leg;
  }

  lemma SpentLeg(z: Query, p: RawPath, id: nat)
    requires z.maxHops != NO_HOP_BOUND && p.Hops() >= z.maxHops
    ensures NextLeg(z, p, id) == None
  {
    hide Answer;
  }

  lemma FoundHasNodes(z: Query, s: nat, t: nat, leg: RawPath)
    requires WalkFrom(z.view, s, t, leg)
    ensures |leg.nodes| > 0 && |leg.nodes| == |leg.adjacency| + 1
  {
  }

  lemma SoundFacts(z: Query, p: RawPath)
    requires z.Valid() && Sound(z, p)
    ensures |p.nodes| > 0 && |p.nodes| == p.Hops() + 1 && End(p) < z.view.NodeCount() && z.destination < z.view.NodeCount()
    ensures z.maxHops <= NO_HOP_BOUND && (z.maxHops == NO_HOP_BOUND || p.Hops() <= z.maxHops)
    ensures z.view.Valid()
  {
  }

  /** An answer that nothing was found holds whatever the unused path is. */
  lemma AnyPath(v: View, s: nat, t: nat, bound: nat, bans: Bans, p: RawPath, q: RawPath)
    requires Answer(v, s, t, bound, bans, false, p)
    ensures Answer(v, s, t, bound, bans, false, q)
  {
  }

  /** All legs of one combination, up to its last stage. */
  method StagedLegs(z: Query, stages: seq<Stage>, selection: seq<nat>, budget: WorkBudget) returns (r: Progress)
    requires z.Valid() && Selects(Sizes(stages), selection)
    requires budget.Honest()
    modifies budget
    ensures budget.Honest()
    ensures r.Limited? ==> (budget.exhausted || budget.stateSpaceExceeded) && Short(z.view, |stages|, 0, old(FundsOf(budget)))
    ensures !r.Limited? ==> Left(z.view, |stages|, 0, FundsOf(budget), old(FundsOf(budget)))
    ensures r.Reached? ==> StagedPath(z, Chosen(stages, selection)) == Some(r.path)
    ensures r.Blocked? ==> StagedPath(z, Chosen(stages, selection)) == None
  {
    hide Query.Valid, Sound, NextLeg, StagedPath, Short, Left;
    ghost var start := FundsOf(budget);
    NothingSpent(z.view, start);
    ghost var ids := Chosen(stages, selection);
    var combined := RawPath([z.source], []);
    NoStages(z, ids[..0]);
    for i := 0 to |stages|
      invariant StagedPath(z, ids[..i]) == Some(combined) && budget.Honest() && Left(z.view, i, 0, FundsOf(budget), start)
    {
      StagedSound(z, ids[..i]);
      ghost var between := FundsOf(budget);
      var next := NextStage(z, combined, stages[i].alternatives[selection[i]], stages[i].kind == EXACT, budget);
      OneMoreStage(z, ids, i);
      if next.Limited? {
        ShortThen(z.view, i, 0, 1, 0, between, start);
        ShortMore(z.view, i + 1, 0, |stages|, 0, start);
        return Limited;
      }
      LeftThen(z.view, i, 0, 1, 0, FundsOf(budget), between, start);
      LeftLess(z.view, i + 1, 0, |stages|, 0, FundsOf(budget), start);
      match next
      case Blocked(why) =>
        NoPathStays(z, ids, i + 1);
        return Blocked(why);
      case Reached(path) =>
        combined := path;
    }
    assert ids[..|stages|] == ids;
    r := Reached(combined);
  }

  lemma NoStages(z: Query, ids: seq<nat>)
    requires ids == []
    ensures StagedPath(z, ids) == Some(RawPath([z.source], []))
  {
  }

  lemma OneMoreStage(z: Query, ids: seq<nat>, i: nat)
    requires i < |ids| && StagedPath(z, ids[..i]).Some?
    ensures StagedPath(z, ids[..i + 1]) == NextLeg(z, StagedPath(z, ids[..i]).value, ids[i])
  {
    hide NextLeg;
    assert ids[..i + 1][..i] == ids[..i];
  }

  datatype Tried = Complete(ranked: Ranked) | Fails(failure: Option<Failure>) | OutOfBudget

  /** The final leg and the checks on the whole path. */
  method Finish(z: Query, p: RawPath, budget: WorkBudget) returns (r: Tried)
    requires z.Valid() && Sound(z, p)
    requires budget.Honest()
    modifies budget
    ensures budget.Honest()
    ensures r.OutOfBudget? ==> (budget.exhausted || budget.stateSpaceExceeded) && Short(z.view, 1, 0, old(FundsOf(budget)))
    ensures !r.OutOfBudget? ==> Left(z.view, 1, 0, FundsOf(budget), old(FundsOf(budget)))
    ensures r.Complete? ==> Completed(z, p) == Some(r.ranked.path) && CompletedTo(z, p, r.ranked.path) && WellRanked(z.view, z.source, r.ranked)
    ensures r.Fails? ==> Completed(z, p) == None && forall q :: !CompletedTo(z, p, q)
  {
    hide Query.Valid, View.Valid, Answer, Sound, WithinHops, Distinct, Completed, CompletedTo, Short, Left;
    forall q ensures Completed(z, p) == Some(q) <==> CompletedTo(z, p, q) {
      CompletedLaw(z, p, q);
    }
    NothingSpent(z.view, FundsOf(budget));
    LeftLess(z.view, 0, 0, 1, 0, FundsOf(budget), FundsOf(budget));
    SoundFacts(z, p);
    var current := p.nodes[|p.nodes| - 1];
    if z.maxHops != NO_HOP_BOUND && p.Hops() >= z.maxHops && current != z.destination {
      NoHopLeft(z, p);
      return Fails(Some(MaxHopsExceeded));
    }
    var bans := BanUsed(p, {current, z.destination});
    var leg := ShortestPath(z.view, current, z.destination, Remaining(z.maxHops, p.Hops()), bans, budget);
    if leg.resourceLimit {
      return OutOfBudget;
    }
    if !leg.found {
      AnyPath(z.view, current, z.destination, Remaining(z.maxHops, p.Hops()), bans, leg.path, RawPath([0], []));
      FinalIs(z, p, false, RawPath([0], []));
      return Fails(Some(MaxHopsExceeded));
    }
    AnswerFacts(z, current, z.destination, Remaining(z.maxHops, p.Hops()), bans, leg.path);
    FoundHasNodes(z, current, z.destination, leg.path);
    FinalIs(z, p, true, leg.path);
    var total := Join(p, leg.path);
    var simple := AllDistinct(total.nodes);
    if !simple {
      return Fails(None);
    }
    SoundWalk(z, p);
    JoinWalk(z.view, z.source, current, z.destination, p, leg.path);
    var cost := ComputeRawPathCost(z.view, total);
    if cost.None? {
      return Fails(Some(CostOverflow));
    }
    r := Complete(Ranked(total, cost.value));
  }

  lemma SoundWalk(z: Query, p: RawPath)
    requires Sound(z, p)
    ensures WalkFrom(z.view, z.source, End(p), p)
  {
  }

  lemma NoHopLeft(z: Query, p: RawPath)
    requires z.maxHops != NO_HOP_BOUND && p.Hops() >= z.maxHops && End(p) != z.destination
    ensures Completed(z, p) == None
  {
    hide Answer, Usable;
  }

  method TryCombination(z: Query, stages: seq<Stage>, selection: seq<nat>, budget: WorkBudget) returns (r: Tried)
    requires z.Valid() && Selects(Sizes(stages), selection)
    requires budget.Honest()
    modifies budget
    ensures budget.Honest()
    ensures r.OutOfBudget? ==> (budget.exhausted || budget.stateSpaceExceeded) && Short(z.view, |stages| + 1, 0, old(FundsOf(budget)))
    ensures !r.OutOfBudget? ==> Left(z.view, |stages| + 1, 0, FundsOf(budget), old(FundsOf(budget)))
    ensures r.Complete? ==> Outcome(z, Chosen(stages, selection)) == Some(r.ranked.path) && WellRanked(z.view, z.source, r.ranked)
    ensures r.Fails? ==> Outcome(z, Chosen(stages, selection)) == None
  {
    hide Query.Valid, Sound, StagedPath, Completed, Short, Left;
    ghost var start := FundsOf(budget);
    var legs := StagedLegs(z, stages, selection, budget);
    if legs.Limited? {
      ShortMore(z.view, |stages|, 0, |stages| + 1, 0, start);
      return OutOfBudget;
    }
    LeftLess(z.view, |stages|, 0, |stages| + 1, 0, FundsOf(budget), start);
    if legs.Blocked? {
      return Fails(legs.why);
    }
    StagedSound(z, Chosen(stages, selection));
    ghost var between := FundsOf(budget);
    r := Finish(z, legs.path, budget);
    if r.OutOfBudget? {
      ShortThen(z.view, |stages|, 0, 1, 0, between, start);
    } else {
      LeftThen(z.view, |stages|, 0, 1, 0, FundsOf(budget), between, start);
    }
  }

  ghost function OutcomeOf(z: Query, stages: seq<Stage>, selection: seq<nat>): Option<RawPath>
    requires Selects(Sizes(stages), selection)
  {
    Outcome(z, Chosen(stages, selection))
  }

  /** best is the canonical minimum of the staged paths of the first n combinations. */
  ghost predicate BestOf(z: Query, stages: seq<Stage>, n: nat, best: Option<Ranked>)
    requires AllPositive(Sizes(stages)) && n <= Product(Sizes(stages))
  {
    && (best.Some? ==> WellRanked(z.view, z.source, best.value) && exists c: nat :: c < n && Succeeds(z, stages, c, best.value.path))
    && (forall c: nat, p :: c < n && Succeeds(z, stages, c, p) ==> best.Some? && NotAfter(z.view, best.value.path, p))
  }

  ghost predicate Succeeds(z: Query, stages: seq<Stage>, c: nat, p: RawPath)
    requires AllPositive(Sizes(stages))
  {
    var selection := Digits(Sizes(stages), c);
    Selects(Sizes(stages), selection) && OutcomeOf(z, stages, selection) == Some(p)
  }

  /** The transit answer: the canonical minimum of the staged paths of all combinations. */
  ghost predicate TransitAnswer(z: Query, stages: seq<Stage>, found: bool, path: RawPath) {
    && (found ==> exists selection :: Selects(Sizes(stages), selection) && OutcomeOf(z, stages, selection) == Some(path))
    && forall selection :: Selects(Sizes(stages), selection) && OutcomeOf(z, stages, selection).Some? ==> found && NotAfter(z.view, path, OutcomeOf(z, stages, selection).value)
  }

  /** In plain terms: the first of the staged routes. */
  lemma AnswerLaw(z: Query, stages: seq<Stage>, found: bool, path: RawPath)
    requires z.Valid() && TransitAnswer(z, stages, found, path)
    ensures StagedAnswer(z, stages, found, path)
  {
    hide Query.Valid, Outcome, StagedRoute, NotAfter, Sizes;
    forall selection, r ensures StagedFor(z, stages, selection, r) <==> Selects(Sizes(stages), selection) && OutcomeOf(z, stages, selection) == Some(r) {
      if Selects(Sizes(stages), selection) {
        OutcomeLaw(z, Chosen(stages, selection), r);
      }
    }
  }

  lemma BestOfAll(z: Query, stages: seq<Stage>, best: Option<Ranked>)
    requires AllPositive(Sizes(stages)) && BestOf(z, stages, Product(Sizes(stages)), best)
    ensures TransitAnswer(z, stages, best.Some?, if best.Some? then best.value.path else NO_PATH)
  {
    hide OutcomeOf, NotAfter, WellRanked;
    var sizes := Sizes(stages);
    forall selection | Selects(sizes, selection) && OutcomeOf(z, stages, selection).Some?
      ensures best.Some? && NotAfter(z.view, best.value.path, OutcomeOf(z, stages, selection).value)
    {
      DigitsOfNumber(sizes, selection);
      assert Succeeds(z, stages, Number(sizes, selection), OutcomeOf(z, stages, selection).value);
    }
  }

  /** One path that stands for a route, and comes by one alternative of every stage in order. */
  lemma AnswerMeetsStages(z: Query, stages: seq<Stage>, path: RawPath)
    requires z.Valid() && TransitAnswer(z, stages, true, path)
    ensures Route(z, path) && Cost(z.view, path.adjacency) <= MAX_COST
    ensures exists selection :: Selects(Sizes(stages), selection) && Visits(z.view, Chosen(stages, selection), path)
  {
    hide Query.Valid, Route, Visits, NotAfter, Outcome;
    var selection :| Selects(Sizes(stages), selection) && OutcomeOf(z, stages, selection) == Some(path);
    OutcomeIsRoute(z, Chosen(stages, selection));
  }

  lemma TransitAnswerUnique(z: Query, stages: seq<Stage>, f1: bool, p1: RawPath, f2: bool, p2: RawPath)
    requires TransitAnswer(z, stages, f1, p1) && TransitAnswer(z, stages, f2, p2)
    ensures f1 == f2 && (f1 ==> p1 == p2)
  {
    hide OutcomeOf, Before;
    if f1 && f2 && p1 != p2 {
      BeforeAsymmetric(z.view, p1, p2);
    }
  }

  lemma BestStep(z: Query, stages: seq<Stage>, n: nat, best: Option<Ranked>, selection: seq<nat>, tried: Tried, better: bool)
    requires AllPositive(Sizes(stages)) && n < Product(Sizes(stages)) && BestOf(z, stages, n, best)
    requires selection == Digits(Sizes(stages), n) && Selects(Sizes(stages), selection) && !tried.OutOfBudget?
    requires tried.Complete? ==> OutcomeOf(z, stages, selection) == Some(tried.ranked.path) && WellRanked(z.view, z.source, tried.ranked)
    requires tried.Fails? ==> OutcomeOf(z, stages, selection) == None
    requires tried.Complete? ==> (better <==> best.None? || Before(z.view, tried.ranked.path, best.value.path))
    ensures BestOf(z, stages, n + 1, if tried.Complete? && better then Some(tried.ranked) else best)
  {
    hide OutcomeOf, Before, WellRanked;
    if tried.Complete? {
      assert Succeeds(z, stages, n, tried.ranked.path);
      if best.Some? {
        BeforeTotal(z.view, tried.ranked.path, best.value.path);
      }
    }
    var r := if tried.Complete? && better then Some(tried.ranked) else best;
    forall c: nat, p | c < n + 1 && Succeeds(z, stages, c, p) ensures r.Some? && NotAfter(z.view, r.value.path, p) {
      if c < n && tried.Complete? && better {
        NotAfterTransitive(z.view, tried.ranked.path, best.value.path, p);
      }
    }
  }

  lemma NoneTried(z: Query, stages: seq<Stage>)
    requires AllPositive(Sizes(stages))
    ensures BestOf(z, stages, 0, None)
  {
  }

  /** Required transit: one path, the best over all combinations of alternatives. */
  method TransitPath(z: Query, stages: seq<Stage>, limits: Limits, maxCandidates: nat, budget: WorkBudget) returns (r: Result)
    requires z.Valid() && stages != []
    requires budget.Honest()
    modifies budget
    ensures budget.Honest()
    ensures r.ok ==> !r.resourceLimit && maxCandidates <= 1 && Admitted(stages, limits)
    ensures maxCandidates > 1 ==> r.failure == Some(UnsupportedRequest)
    ensures maxCandidates <= 1 && !Admitted(stages, limits) ==> r.failure in {Some(MalformedIdentifier), Some(ConstraintCountExceeded)}
    ensures maxCandidates <= 1 && Admitted(stages, limits) && !r.resourceLimit ==> TransitAnswer(z, stages, r.ok, r.path) && StagedAnswer(z, stages, r.ok, r.path)
    ensures Admitted(stages, limits) && r.resourceLimit ==> budget.exhausted || budget.stateSpaceExceeded
    ensures Admitted(stages, limits) && r.resourceLimit ==> Short(z.view, AllSearches(stages), 0, old(FundsOf(budget)))
    ensures r.ok ==> Route(z, r.path) && Cost(z.view, r.path.adjacency) <= MAX_COST
    ensures r.ok ==> exists selection :: Selects(Sizes(stages), selection) && Visits(z.view, Chosen(stages, selection), r.path)
  {
    hide Short, Left, Query.Valid, View.Valid, TransitAnswer, StagedAnswer, BestOf, OutcomeOf, Outcome, Route, Visits, Before, WellRanked, Product, Admitted;
    if maxCandidates > 1 {
      return Result(false, false, Some(UnsupportedRequest), NO_PATH);
    }
    var refused, combinations := CountCombinations(stages, limits);
    if refused.Some? {
      return Result(false, refused == Some(ConstraintCountExceeded), refused, NO_PATH);
    }
    AdmittedPositive(stages, limits);
    var sizes := Sizes(stages);
    var best: Option<Ranked> := None;
    var failure := Some(RequiredNodeMissing);
    NoneTried(z, stages);
    ghost var start, per := FundsOf(budget), |stages| + 1;
    NothingSpent(z.view, start);
    for combination := 0 to combinations
      invariant BestOf(z, stages, combination, best) && budget.Honest() && Left(z.view, combination * per, 0, FundsOf(budget), start)
    {
      NumberOfDigits(sizes, combination);
      var selection := Selection(sizes, combination);
      ghost var between := FundsOf(budget);
      OneMore(combination, combinations, per);
      var tried := TryCombination(z, stages, selection, budget);
      OutcomeOfIs(z, stages, selection);
      if tried.OutOfBudget? {
        ShortThen(z.view, combination * per, 0, per, 0, between, start);
        ShortMore(z.view, (combination + 1) * per, 0, combinations * per, 0, start);
        return Result(false, true, Some(WorkBudgetExhausted), NO_PATH);
      }
      LeftThen(z.view, combination * per, 0, per, 0, FundsOf(budget), between, start);
      var better := false;
      if tried.Complete? {
        better := Better(z, stages, combination, tried.ranked, best);
      } else if tried.failure.Some? {
        failure := tried.failure;
      }
      BestStep(z, stages, combination, best, selection, tried, better);
      if better {
        best := Some(tried.ranked);
      }
    }
    BestOfAll(z, stages, best);
    AnswerLaw(z, stages, best.Some?, if best.Some? then best.value.path else NO_PATH);
    if best.None? {
      return Result(false, false, failure, NO_PATH);
    }
    AnswerMeetsStages(z, stages, best.value.path);
    r := Result(true, false, None, best.value.path);
  }

  /** A leg for every stage and a last one, for every combination. */
  ghost function AllSearches(stages: seq<Stage>): nat {
    Product(Sizes(stages)) * (|stages| + 1)
  }

  lemma OneMore(i: nat, n: nat, per: nat)
    requires i < n
    ensures (i + 1) * per == i * per + per <= n * per
  {
    Distribute(i + 1, n - (i + 1), per);
  }

  lemma AdmittedPositive(stages: seq<Stage>, limits: Limits)
    requires Admitted(stages, limits)
    ensures AllPositive(Sizes(stages))
  {
  }

  lemma OutcomeOfIs(z: Query, stages: seq<Stage>, selection: seq<nat>)
    requires Selects(Sizes(stages), selection)
    ensures OutcomeOf(z, stages, selection) == Outcome(z, Chosen(stages, selection))
  {
    hide Outcome;
  }

  method Better(z: Query, stages: seq<Stage>, n: nat, ranked: Ranked, best: Option<Ranked>) returns (better: bool)
    requires z.Valid() && AllPositive(Sizes(stages)) && n <= Product(Sizes(stages)) && BestOf(z, stages, n, best)
    requires WellRanked(z.view, z.source, ranked)
    ensures better <==> best.None? || Before(z.view, ranked.path, best.value.path)
  {
    hide View.Valid, WellRanked, Before, Succeeds, Sizes, Product;
    if best.None? {
      return true;
    }
    better := RankedBefore(z.view, z.source, ranked, best.value);
  }
}
