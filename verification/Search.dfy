/** The search entry point and its mode switch (src/search.cpp, ShortestPath). */
module Search {
  import opened View
  import opened Order
  import opened Queue
  import opened Expanded
  import opened Effort
  import Plain
  import Tight

  /** A search from a node to itself answers with the zero-hop path whatever the bans are. */
  ghost predicate Answer(v: View, s: nat, d: nat, bound: nat, bans: Bans, found: bool, path: RawPath) {
    if s == d then found && path == RawPath([s], [])
    else if s >= v.NodeCount() || d >= v.NodeCount() || bound == 0 then !found
    else CanonicalAnswer(v, s, d, bound, bans, found, path)
  }

  method ShortestPath(v: View, source: nat, d: nat, bound: nat, bans: Bans, budget: WorkBudget)
    returns (outcome: SearchOutcome)
    requires v.Valid() && bound <= NO_HOP_BOUND
    requires budget.Honest()
    modifies budget
    ensures budget.Honest()
    ensures budget.spurRemaining == old(budget.spurRemaining)
    ensures outcome.resourceLimit ==> !outcome.found && (budget.exhausted || budget.stateSpaceExceeded)
    ensures budget.stateSpaceExceeded ==> old(budget.stateSpaceExceeded) || (bound + 1) * v.NodeCount() > v.maxSearchStates
    ensures outcome.resourceLimit ==> Short(v, 1, 0, old(FundsOf(budget)))
    ensures !outcome.resourceLimit ==> Left(v, 1, 0, FundsOf(budget), old(FundsOf(budget)))
    ensures !outcome.resourceLimit ==> Answer(v, source, d, bound, bans, outcome.found, outcome.path)
  {
    hide View.Valid, CanonicalAnswer, Affords, Left, SearchWork;
    NothingSpent(v, FundsOf(budget));
    LeftLess(v, 0, 0, 1, 0, FundsOf(budget), FundsOf(budget));
    if source == d {
      return SearchOutcome(true, false, false, RawPath([source], []));
    }
    var nodeCount := v.NodeCount();
    if source >= nodeCount || d >= nodeCount {
      return NOTHING;
    }
    if bound == 0 {
      return NOTHING;
    }
    if bound == NO_HOP_BOUND {
      outcome := Plain.PlainSearch(v, source, d, NO_HOP_BOUND, bans, budget);
      BoundedWork(v, 1);
      OneSearch(v, |v.adjacency|, outcome.resourceLimit, FundsOf(budget), old(FundsOf(budget)));
      return;
    }
    var simpleBound := if nodeCount == 0 then 0 else nodeCount - 1;
    if bound < simpleBound {
      outcome := ExpandedSearch(v, source, d, bound, bans, budget);
      BoundedStates(v, bound);
      BoundedWork(v, bound);
      if !((bound + 1) * nodeCount > v.maxSearchStates) {
        OneSearch(v, bound * |v.adjacency|, outcome.resourceLimit, FundsOf(budget), old(FundsOf(budget)));
      } else if !outcome.resourceLimit {
        OneSearch(v, bound * |v.adjacency|, false, FundsOf(budget), old(FundsOf(budget)));
      }
      return;
    }
    outcome := Plain.PlainSearch(v, source, d, bound, bans, budget);
    BoundedWork(v, 1);
    OneSearch(v, |v.adjacency|, outcome.resourceLimit, FundsOf(budget), old(FundsOf(budget)));
  }

  /** The answer is a function of the question: no search mode, queue order or budget shows in it. */
  lemma AnswerDetermined(v: View, s: nat, d: nat, bound: nat, bans: Bans, f1: bool, p1: RawPath, f2: bool, p2: RawPath)
    requires Answer(v, s, d, bound, bans, f1, p1) && Answer(v, s, d, bound, bans, f2, p2)
    ensures f1 == f2 && (f1 ==> p1 == p2)
  {
    hide CanonicalAnswer;
    if s != d && s < v.NodeCount() && d < v.NodeCount() && bound != 0 {
      AnswerUnique(v, s, d, bound, bans, f1, p1, f2, p2);
    }
  }

  /** Wherever the mode switch may choose either search, both give the same answer. */
  method ModesAgree(v: View, s: nat, d: nat, bound: nat, bans: Bans, plainBudget: WorkBudget, expandedBudget: WorkBudget)
    returns (plain: SearchOutcome, expanded: SearchOutcome)
    requires v.Valid() && s < v.NodeCount() && d < v.NodeCount() && v.NodeCount() <= bound + 1 && bound < NO_HOP_BOUND
    requires plainBudget.Honest() && expandedBudget.Honest()
    modifies plainBudget, expandedBudget
    ensures !plain.resourceLimit && !expanded.resourceLimit ==> plain.found == expanded.found
    ensures !plain.resourceLimit && !expanded.resourceLimit && plain.found ==> plain.path == expanded.path
  {
    hide View.Valid, CanonicalAnswer;
    plain := Plain.PlainSearch(v, s, d, bound, bans, plainBudget);
    expanded := ExpandedSearch(v, s, d, bound, bans, expandedBudget);
    if !plain.resourceLimit && !expanded.resourceLimit {
      AnswerUnique(v, s, d, bound, bans, plain.found, plain.path, expanded.found, expanded.path);
    }
  }

  /** Every hop bound of at least V - 1, and no bound at all, ask the same question. */
  lemma SlackBoundIsNoBound(v: View, s: nat, d: nat, bound: nat, bans: Bans, found: bool, path: RawPath)
    requires v.Valid() && bound + 1 >= v.NodeCount()
    ensures CanonicalAnswer(v, s, d, bound, bans, found, path) <==> CanonicalAnswer(v, s, d, NO_HOP_BOUND, bans, found, path)
  {
    hide View.Valid, Avoids;
    forall q | Eligible(v, s, d, NO_HOP_BOUND, bans, q) && Simple(q) ensures Eligible(v, s, d, bound, bans, q) {
      SimpleHopBound(v, q);
    }
    assert forall q :: Eligible(v, s, d, bound, bans, q) ==> Eligible(v, s, d, NO_HOP_BOUND, bans, q);
    forall q | Eligible(v, s, d, NO_HOP_BOUND, bans, q)
      ensures exists r :: Eligible(v, s, d, bound, bans, r) && NotAfter(v, r, q)
    {
      var r := SimplestVersion(v, s, d, bans, q);
      assert Eligible(v, s, d, bound, bans, r);
    }
    if found && CanonicalAnswer(v, s, d, bound, bans, found, path) {
      forall q | Eligible(v, s, d, NO_HOP_BOUND, bans, q) ensures NotAfter(v, path, q) {
        var r :| Eligible(v, s, d, bound, bans, r) && NotAfter(v, r, q);
        NotAfterTransitive(v, path, r, q);
      }
    }
  }

  /** Every eligible walk contains a simple eligible path that does not come after it. */
  lemma {:induction false} SimplestVersion(v: View, s: nat, d: nat, bans: Bans, q: RawPath) returns (r: RawPath)
    requires Eligible(v, s, d, NO_HOP_BOUND, bans, q)
    ensures Eligible(v, s, d, NO_HOP_BOUND, bans, r) && Simple(r) && NotAfter(v, r, q) && r.Hops() <= q.Hops()
    decreases q.Hops()
  {
    if Simple(q) {
      r := q;
    } else {
      var i, j :| 0 <= i < j < |q.nodes| && q.nodes[i] == q.nodes[j];
      var c := Tight.CutLoop(v, s, d, bans, q, i, j);
      r := SimplestVersion(v, s, d, bans, c);
      NotAfterTransitive(v, r, c, q);
    }
  }
}
