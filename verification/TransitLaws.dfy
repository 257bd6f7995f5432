/** Required transit in plain terms: which walks may carry a staged path on, and that the first of
    them is taken (src/search.cpp, the required-transit part of EnumerateCandidatePaths).  Nothing
    here speaks of leg budgets, ban sets or searches. */
module TransitLaws {
  import opened Values
  import opened Wrappers
  import opened Counting
  import opened View
  import opened Order
  import opened Search
  import opened Least
  import opened PathCosts
  import opened YenSpec
  import opened MixedRadix
  import opened TransitSpec

  /** w carries p on to node t: it comes by no node of p again, the whole stays within the hop bound
      of the query, and its cost is one a search can return. */
  ghost predicate Onward(z: Query, p: RawPath, t: nat, w: RawPath) {
    && |p.nodes| > 0 && WalkFrom(z.view, p.nodes[|p.nodes| - 1], t, w)
    && (forall i :: 1 <= i < |w.nodes| ==> w.nodes[i] !in p.nodes)
    && (z.maxHops != NO_HOP_BOUND ==> p.Hops() + w.Hops() <= z.maxHops)
    && Cost(z.view, w.adjacency) < MAX_COST
  }

  /** The canonically first of them. */
  ghost predicate BestOnward(z: Query, p: RawPath, t: nat, leg: RawPath) {
    Onward(z, p, t, leg) && forall w :: Onward(z, p, t, w) ==> NotAfter(z.view, leg, w)
  }

  /** What carries p on to the destination is what completes it to a route of the query. */
  lemma OnwardCompletes(z: Query, p: RawPath, w: RawPath)
    requires z.Valid() && Sound(z, p) && IsWalk(z.view, w) && w.nodes[0] == End(p) && Cost(z.view, w.adjacency) < MAX_COST
    ensures Route(z, Join(p, w)) <==> Onward(z, p, z.destination, w) && Simple(w)
  {
    SoundParts(z, p);
    JoinWalk(z.view, z.source, End(p), w.nodes[w.Hops()], p, w);
    JoinedSimple(p, w);
    hide Query.Valid, Simple, Sound, IsWalk;
    var all := Join(p, w);
    assert all.nodes[all.Hops()] == w.nodes[w.Hops()];
  }

  lemma SoundParts(z: Query, p: RawPath)
    requires Sound(z, p)
    ensures WalkFrom(z.view, z.source, End(p), p) && Simple(p) && |p.nodes| == p.Hops() + 1 && p.nodes[|p.nodes| - 1] == End(p)
  {
    hide Distinct;
  }

  lemma JoinedSimple(p: RawPath, w: RawPath)
    requires |p.nodes| > 0 && |w.nodes| > 0 && w.nodes[0] == End(p) && Simple(p)
    ensures Simple(Join(p, w)) <==> Simple(w) && forall i :: 1 <= i < |w.nodes| ==> w.nodes[i] !in p.nodes
  {
    var all, n := Join(p, w).nodes, |p.nodes| - 1;
    assert forall k :: 0 <= k <= n ==> all[k] == p.nodes[k];
    assert forall k :: 0 <= k < |w.nodes| ==> all[n + k] == w.nodes[k];
    if Simple(Join(p, w)) {
      forall i, j | 0 <= i < j < |w.nodes| ensures w.nodes[i] != w.nodes[j] {
        assert all[n + i] != all[n + j];
      }
      forall i | 1 <= i < |w.nodes| ensures w.nodes[i] !in p.nodes {
        assert forall k :: 0 <= k <= n ==> all[k] != all[n + i];
      }
    } else if Simple(w) && forall i :: 1 <= i < |w.nodes| ==> w.nodes[i] !in p.nodes {
      JoinSimple(p, w, Elements(p.nodes) - {End(p)});
    }
  }

  /** One best walk only. */
  lemma BestOnwardOnce(z: Query, p: RawPath, t: nat, x: RawPath, y: RawPath)
    requires BestOnward(z, p, t, x) && BestOnward(z, p, t, y)
    ensures x == y
  {
    hide Onward, Before;
    if x != y {
      BeforeAsymmetric(z.view, x, y);
    }
  }

  /** To the node where it is, a path is carried on by the walk without hops alone. */
  lemma StayHere(z: Query, p: RawPath, w: RawPath)
    requires z.Valid() && Sound(z, p)
    ensures Onward(z, p, End(p), w) <==> w == RawPath([End(p)], [])
  {
    hide View.Valid, Distinct;
    if Onward(z, p, End(p), w) {
      assert w.nodes[w.Hops()] in p.nodes;
      assert w.Hops() == 0;
      assert w.nodes == [End(p)];
    }
  }

  /** Elsewhere, what carries it on is what a search may answer with. */
  lemma OnwardIsEligible(z: Query, p: RawPath, t: nat, bound: nat, w: RawPath)
    requires z.Valid() && Sound(z, p) && t != End(p)
    requires if z.maxHops == NO_HOP_BOUND then bound == NO_HOP_BOUND else p.Hops() + bound == z.maxHops && bound < NO_HOP_BOUND
    ensures Onward(z, p, t, w) ==> Eligible(z.view, End(p), t, bound, Bans(Elements(p.nodes) - {End(p)}, {}), w)
    ensures Eligible(z.view, End(p), t, bound, Bans(Elements(p.nodes) - {End(p)}, {}), w) && Simple(w) ==> Onward(z, p, t, w)
  {
    hide View.Valid;
    var bans := Bans(Elements(p.nodes) - {End(p)}, {});
    if Onward(z, p, t, w) {
      forall i | 0 <= i < |w.adjacency| ensures Open(z.view, bans, w.adjacency[i]) {
        assert w.nodes[i + 1] !in p.nodes;
      }
    }
    if Eligible(z.view, End(p), t, bound, bans, w) && Simple(w) {
      forall i | 1 <= i < |w.nodes| ensures w.nodes[i] !in p.nodes {
        assert Open(z.view, bans, w.adjacency[i - 1]);
        assert w.nodes[i] != w.nodes[0];
      }
    }
  }

  /** What is left of the hop bound, whichever way it is counted. */
  ghost predicate Leaves(z: Query, p: RawPath, bound: nat) {
    if z.maxHops == NO_HOP_BOUND then bound == NO_HOP_BOUND else p.Hops() + bound == z.maxHops && bound < NO_HOP_BOUND
  }

  /** The answer of a search for a leg is the first walk onward, and none only where there is none. */
  lemma AnswerIsBest(z: Query, p: RawPath, t: nat, bound: nat, found: bool, g: RawPath)
    requires z.Valid() && Sound(z, p) && t < z.view.NodeCount() && Leaves(z, p, bound)
    requires Answer(z.view, End(p), t, bound, Bans(Elements(p.nodes) - {End(p)}, {}), found, g)
    ensures found ==> BestOnward(z, p, t, g)
    ensures !found ==> forall w :: !Onward(z, p, t, w)
  {
    SoundParts(z, p);
    hide Query.Valid, View.Valid, Eligible, Onward, Before, Simple, IsWalk;
    if t == End(p) {
      forall w ensures Onward(z, p, t, w) <==> w == RawPath([End(p)], []) {
        StayHere(z, p, w);
      }
    } else {
      forall w ensures bound == 0 ==> !Onward(z, p, t, w) {
        if bound == 0 {
          NoHopsNowhere(z, p, t, w);
        }
      }
      forall w ensures Onward(z, p, t, w) ==> Eligible(z.view, End(p), t, bound, Bans(Elements(p.nodes) - {End(p)}, {}), w) {
        OnwardIsEligible(z, p, t, bound, w);
      }
      OnwardIsEligible(z, p, t, bound, g);
    }
  }

  lemma NoHopsNowhere(z: Query, p: RawPath, t: nat, w: RawPath)
    requires Sound(z, p) && t != End(p) && z.maxHops == p.Hops() && z.maxHops != NO_HOP_BOUND
    ensures !Onward(z, p, t, w)
  {
    hide Distinct;
  }

  /** And the first walk onward is the answer. */
  lemma BestIsAnswer(z: Query, p: RawPath, t: nat, bound: nat, g: RawPath)
    requires z.Valid() && Sound(z, p) && t < z.view.NodeCount() && Leaves(z, p, bound) && BestOnward(z, p, t, g)
    ensures Answer(z.view, End(p), t, bound, Bans(Elements(p.nodes) - {End(p)}, {}), true, g)
  {
    SoundParts(z, p);
    var bans := Bans(Elements(p.nodes) - {End(p)}, {});
    hide Query.Valid, View.Valid, Eligible, Onward, Before, Simple, IsWalk, CanonicalAnswer;
    if t == End(p) {
      StayHere(z, p, g);
    } else {
      if bound == 0 {
        NoHopsNowhere(z, p, t, g);
      }
      OnwardIsEligible(z, p, t, bound, g);
      EndsInRange(z, p);
      var h := AnswerExists(z.view, End(p), t, bound, bans, g);
      AnswerIsBest(z, p, t, bound, true, h);
      BestOnwardOnce(z, p, t, g, h);
    }
  }

  lemma EndsInRange(z: Query, p: RawPath)
    requires z.Valid() && Sound(z, p)
    ensures End(p) < z.view.NodeCount() && z.view.Valid()
  {
    hide View.Valid;
  }

  /** p carried on to a node of this identity: with hops to spare, along the first walk onward. */
  ghost predicate CarriedTo(z: Query, p: RawPath, id: nat, q: RawPath) {
    && (z.maxHops != NO_HOP_BOUND ==> p.Hops() < z.maxHops)
    && exists t: nat, leg :: t < z.view.NodeCount() && z.view.nodeIds[t] == id && BestOnward(z, p, t, leg) && q == Join(p, leg)
  }

  /** p carried on to the destination, within what a path may count and cost. */
  ghost predicate CompletedTo(z: Query, p: RawPath, q: RawPath) {
    && (exists leg :: BestOnward(z, p, z.destination, leg) && q == Join(p, leg))
    && q.Hops() <= MAX_HOP_COUNT && Cost(z.view, q.adjacency) <= MAX_COST
  }

  lemma RemainingLeaves(z: Query, p: RawPath)
    requires z.Valid() && Sound(z, p)
    ensures z.maxHops == NO_HOP_BOUND || p.Hops() <= z.maxHops
    ensures Leaves(z, p, Remaining(z.maxHops, p.Hops()))
  {
    hide View.Valid;
  }

  /** The leg to a stage is the first walk onward. */
  lemma NextLegLaw(z: Query, p: RawPath, id: nat, q: RawPath)
    requires z.Valid() && Sound(z, p)
    ensures NextLeg(z, p, id) == Some(q) <==> CarriedTo(z, p, id, q)
  {
    RemainingLeaves(z, p);
    hide Query.Valid, Answer, BestOnward, Sound, Leaves, Remaining;
    if NextLeg(z, p, id) == Some(q) {
      var leg :| LegTo(z, p, id, leg) && q == Join(p, leg);
      var t: nat :| t < z.view.NodeCount() && z.view.nodeIds[t] == id && Leg(z, p, t, leg);
      AnswerIsBest(z, p, t, Remaining(z.maxHops, p.Hops()), true, leg);
    }
    if CarriedTo(z, p, id, q) {
      var t: nat, leg :| t < z.view.NodeCount() && z.view.nodeIds[t] == id && BestOnward(z, p, t, leg) && q == Join(p, leg);
      BestIsAnswer(z, p, t, Remaining(z.maxHops, p.Hops()), leg);
      BestHasNodes(z, p, t, leg);
      LegIs(z, p, t, true, leg);
    }
  }

  lemma BestHasNodes(z: Query, p: RawPath, t: nat, leg: RawPath)
    requires BestOnward(z, p, t, leg)
    ensures |leg.nodes| > 0 && leg.nodes[0] == End(p) && leg.nodes[leg.Hops()] == t && |leg.nodes| == leg.Hops() + 1 && forall i :: 1 <= i < |leg.nodes| ==> leg.nodes[i] !in p.nodes
  {
  }

  /** So a stage is reached wherever any walk leads on to it, unless the hop bound is spent. */
  lemma StageReached(z: Query, p: RawPath, t: nat, w: RawPath)
    requires z.Valid() && Sound(z, p) && t < z.view.NodeCount() && Onward(z, p, t, w)
    ensures NextLeg(z, p, z.view.nodeIds[t]).Some? <==> z.maxHops == NO_HOP_BOUND || p.Hops() < z.maxHops
  {
    RemainingLeaves(z, p);
    EndsInRange(z, p);
    var bound := Remaining(z.maxHops, p.Hops());
    hide Query.Valid, Sound, Leaves, Remaining, Onward, NextLeg;
    var g := BestExists(z, p, t, bound, w);
    if z.maxHops == NO_HOP_BOUND || p.Hops() < z.maxHops {
      NextLegLaw(z, p, z.view.nodeIds[t], Join(p, g));
    } else if NextLeg(z, p, z.view.nodeIds[t]).Some? {
      NextLegLaw(z, p, z.view.nodeIds[t], NextLeg(z, p, z.view.nodeIds[t]).value);
    }
  }

  lemma BestExists(z: Query, p: RawPath, t: nat, bound: nat, w: RawPath) returns (g: RawPath)
    requires z.Valid() && Sound(z, p) && t < z.view.NodeCount() && Leaves(z, p, bound) && Onward(z, p, t, w)
    ensures BestOnward(z, p, t, g) && |g.nodes| > 0
  {
    SoundParts(z, p);
    EndsInRange(z, p);
    var bans := Bans(Elements(p.nodes) - {End(p)}, {});
    hide Query.Valid, View.Valid, Eligible, Onward, Before, Simple, IsWalk, CanonicalAnswer, BestOnward;
    if t == End(p) {
      g := RawPath([End(p)], []);
    } else {
      if bound == 0 {
        NoHopsNowhere(z, p, t, w);
      }
      OnwardIsEligible(z, p, t, bound, w);
      g := AnswerExists(z.view, End(p), t, bound, bans, w);
    }
    AnswerIsBest(z, p, t, bound, true, g);
    BestHasNodes(z, p, t, g);
  }

  /** The last leg is the first walk onward to the destination. */
  lemma CompletedLaw(z: Query, p: RawPath, q: RawPath)
    requires z.Valid() && Sound(z, p)
    ensures Completed(z, p) == Some(q) <==> CompletedTo(z, p, q)
  {
    SoundParts(z, p);
    hide Query.Valid, BestOnward, Sound, Simple, IsWalk;
    if z.destination in p.nodes && z.destination != End(p) {
      PassedBefore(z, p, q);
    } else {
      assert Elements(p.nodes) - {End(p), z.destination} == Elements(p.nodes) - {End(p)};
      if Completed(z, p) == Some(q) {
        FinalForward(z, p, q);
      }
      if CompletedTo(z, p, q) {
        FinalBackward(z, p, q);
      }
    }
  }

  /** A path that has passed the destination and gone on cannot return to it. */
  lemma PassedBefore(z: Query, p: RawPath, q: RawPath)
    requires z.Valid() && Sound(z, p) && z.destination in p.nodes && z.destination != End(p)
    ensures Completed(z, p) == None && !CompletedTo(z, p, q)
  {
    SoundParts(z, p);
    hide Query.Valid, Sound, Simple, IsWalk, Onward;
    forall leg ensures !BestOnward(z, p, z.destination, leg) {
      if BestOnward(z, p, z.destination, leg) {
        BestHasNodes(z, p, z.destination, leg);
      }
    }
    if Completed(z, p).Some? {
      var leg := CompletedLeg(z, p);
      FinalEnds(z, p, leg);
      JoinedSimple(p, leg);
    }
  }

  lemma FinalEnds(z: Query, p: RawPath, leg: RawPath)
    requires z.Valid() && Sound(z, p) && FinalLeg(z, p, leg) && z.destination != End(p)
    ensures leg.Hops() > 0 && |leg.nodes| == leg.Hops() + 1 && leg.nodes[0] == End(p) && leg.nodes[leg.Hops()] == z.destination
  {
    RemainingLeaves(z, p);
    EndsInRange(z, p);
    hide View.Valid, Answer, Sound;
    AnswerFacts(z, End(p), z.destination, Remaining(z.maxHops, p.Hops()), Bans(Elements(p.nodes) - {End(p), z.destination}, {}), leg);
  }

  lemma FinalForward(z: Query, p: RawPath, q: RawPath)
    requires z.Valid() && Sound(z, p) && Completed(z, p) == Some(q)
    requires Elements(p.nodes) - {End(p), z.destination} == Elements(p.nodes) - {End(p)}
    ensures CompletedTo(z, p, q)
  {
    RemainingLeaves(z, p);
    QueryParts(z);
    hide Query.Valid, Sound, Simple, Answer, BestOnward, Leaves, Remaining;
    var leg := CompletedLeg(z, p);
    AnswerIsBest(z, p, z.destination, Remaining(z.maxHops, p.Hops()), true, leg);
  }

  lemma QueryParts(z: Query)
    requires z.Valid()
    ensures z.destination < z.view.NodeCount() && z.view.Valid()
  {
    hide View.Valid;
  }

  lemma FinalBackward(z: Query, p: RawPath, q: RawPath)
    requires z.Valid() && Sound(z, p) && CompletedTo(z, p, q)
    requires Elements(p.nodes) - {End(p), z.destination} == Elements(p.nodes) - {End(p)}
    ensures Completed(z, p) == Some(q)
  {
    SoundParts(z, p);
    RemainingLeaves(z, p);
    QueryParts(z);
    EndsInRange(z, p);
    var bound := Remaining(z.maxHops, p.Hops());
    hide Query.Valid, View.Valid, Sound, Simple, IsWalk, Onward, Remaining, Completed;
    var leg :| BestOnward(z, p, z.destination, leg) && q == Join(p, leg);
    BestHasNodes(z, p, z.destination, leg);
    BestIsAnswer(z, p, z.destination, bound, leg);
    AnswerSimple(z.view, End(p), z.destination, bound, Bans(Elements(p.nodes) - {End(p)}, {}), leg);
    JoinedSimple(p, leg);
    if bound == 0 && End(p) != z.destination {
      NoHopsNowhere(z, p, z.destination, leg);
    }
    FinalIs(z, p, true, leg);
  }

  lemma AnswerSimple(v: View, s: nat, t: nat, bound: nat, bans: Bans, g: RawPath)
    requires Answer(v, s, t, bound, bans, true, g)
    ensures Simple(g)
  {
  }

  /** The path the stages lead to, one after the other. */
  ghost predicate Staged(z: Query, ids: seq<nat>, p: RawPath)
    decreases |ids|, 0
  {
    if ids == [] then p == RawPath([z.source], []) else StagedOn(z, ids[..|ids| - 1], ids[|ids| - 1], p)
  }

  ghost predicate StagedOn(z: Query, front: seq<nat>, last: nat, p: RawPath)
    decreases |front|, 1
  {
    exists q :: Staged(z, front, q) && CarriedTo(z, q, last, p)
  }

  /** The route that required transit makes of one choice of nodes. */
  ghost predicate StagedRoute(z: Query, ids: seq<nat>, r: RawPath) {
    exists p :: Staged(z, ids, p) && CompletedTo(z, p, r)
  }

  lemma {:induction false} StagedLaw(z: Query, ids: seq<nat>, p: RawPath)
    requires z.Valid()
    ensures StagedPath(z, ids) == Some(p) <==> Staged(z, ids, p)
  {
    if ids != [] {
      hide Query.Valid, NextLeg, CarriedTo, Sound, Staged;
      var front, last := ids[..|ids| - 1], ids[|ids| - 1];
      forall q ensures StagedPath(z, front) == Some(q) <==> Staged(z, front, q) {
        StagedLaw(z, front, q);
      }
      if StagedPath(z, front).Some? {
        StagedSound(z, front);
        NextLegLaw(z, StagedPath(z, front).value, last, p);
      }
      StagedIs(z, ids, p);
      assert StagedOn(z, front, last, p) <==> StagedPath(z, front).Some? && CarriedTo(z, StagedPath(z, front).value, last, p);
    } else {
      StagedStart(z, p);
    }
  }

  lemma StagedIs(z: Query, ids: seq<nat>, p: RawPath)
    requires ids != []
    ensures Staged(z, ids, p) <==> StagedOn(z, ids[..|ids| - 1], ids[|ids| - 1], p)
  {
    hide StagedOn;
  }

  lemma StagedStart(z: Query, p: RawPath)
    ensures Staged(z, [], p) <==> p == RawPath([z.source], [])
  {
  }

  /** The outcome of a choice is its staged route. */
  lemma OutcomeLaw(z: Query, ids: seq<nat>, r: RawPath)
    requires z.Valid()
    ensures Outcome(z, ids) == Some(r) <==> StagedRoute(z, ids, r)
  {
    hide Query.Valid, Completed, CompletedTo, Sound, StagedPath, Staged;
    forall p ensures StagedPath(z, ids) == Some(p) <==> Staged(z, ids, p) {
      StagedLaw(z, ids, p);
    }
    if StagedPath(z, ids).Some? {
      StagedSound(z, ids);
      CompletedLaw(z, StagedPath(z, ids).value, r);
    }
  }

  /** The route that required transit makes of one alternative of every stage. */
  ghost predicate StagedFor(z: Query, stages: seq<Stage>, selection: seq<nat>, r: RawPath) {
    Selects(Sizes(stages), selection) && StagedRoute(z, Chosen(stages, selection), r)
  }

  /** The first of these routes over all selections. */
  ghost predicate StagedAnswer(z: Query, stages: seq<Stage>, found: bool, path: RawPath) {
    && (found ==> exists selection :: StagedFor(z, stages, selection, path))
    && forall selection, r :: StagedFor(z, stages, selection, r) ==> found && NotAfter(z.view, path, r)
  }

  /** There is one staged answer only. */
  lemma StagedAnswerUnique(z: Query, stages: seq<Stage>, f1: bool, p1: RawPath, f2: bool, p2: RawPath)
    requires StagedAnswer(z, stages, f1, p1) && StagedAnswer(z, stages, f2, p2)
    ensures f1 == f2 && (f1 ==> p1 == p2)
  {
    hide StagedFor, Before;
    if f1 && f2 && p1 != p2 {
      BeforeAsymmetric(z.view, p1, p2);
    }
  }
}
