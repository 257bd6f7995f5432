/** How much work budget is certainly enough: accounting over several searches. */
module Effort {
  import opened View
  import opened Queue

  datatype Funds = Funds(states: nat, pushes: nat, spurs: nat)

  ghost function FundsOf(budget: WorkBudget): Funds
    reads budget
  {
    Funds(budget.statesRemaining, budget.pushesRemaining, budget.spurRemaining)
  }

  /** No search on this view pays for more states; it may push one entry more. */
  function SearchWork(v: View): nat {
    v.NodeCount() * |v.adjacency|
  }

  /** The hop-expanded search could be refused for its size. */
  predicate TooManyStates(v: View) {
    v.NodeCount() * v.NodeCount() > v.maxSearchStates
  }

  /** Enough for n searches and m spurs. */
  ghost predicate Affords(v: View, n: nat, m: nat, f: Funds) {
    f.states >= n * SearchWork(v) && f.pushes >= n * (SearchWork(v) + 1) && f.spurs >= m
  }

  /** From `before` to `after` no more than n searches and m spurs were paid for. */
  ghost predicate Left(v: View, n: nat, m: nat, after: Funds, before: Funds) {
    after.states + n * SearchWork(v) >= before.states && after.pushes + n * (SearchWork(v) + 1) >= before.pushes && after.spurs + m >= before.spurs
  }

  lemma NothingSpent(v: View, f: Funds)
    ensures Left(v, 0, 0, f, f)
  {
  }

  lemma LeftThen(v: View, n: nat, m: nat, n': nat, m': nat, after: Funds, between: Funds, before: Funds)
    requires Left(v, n, m, between, before) && Left(v, n', m', after, between)
    ensures Left(v, n + n', m + m', after, before)
  {
    hide SearchWork;
    Distribute(n, n', SearchWork(v));
    Distribute(n, n', SearchWork(v) + 1);
  }

  lemma Distribute(x: nat, y: nat, k: nat)
    ensures (x + y) * k == x * k + y * k
  {
  }

  /** The funds may fall short of n searches and m spurs. */
  ghost predicate Short(v: View, n: nat, m: nat, f: Funds) {
    TooManyStates(v) || !Affords(v, n, m, f)
  }

  /** Falling short of what comes next is falling short of it all. */
  lemma ShortThen(v: View, n: nat, m: nat, n': nat, m': nat, between: Funds, before: Funds)
    requires Left(v, n, m, between, before) && Short(v, n', m', between)
    ensures Short(v, n + n', m + m', before)
  {
    hide SearchWork, TooManyStates;
    Distribute(n, n', SearchWork(v));
    Distribute(n, n', SearchWork(v) + 1);
  }

  lemma ShortMore(v: View, n: nat, m: nat, n': nat, m': nat, f: Funds)
    requires Short(v, n, m, f) && n <= n' && m <= m'
    ensures Short(v, n', m', f)
  {
    hide Affords, TooManyStates;
    if Affords(v, n', m', f) {
      AffordsLess(v, n, m, n', m', f);
    }
  }

  lemma AffordsLess(v: View, n: nat, m: nat, n': nat, m': nat, f: Funds)
    requires Affords(v, n', m', f) && n <= n' && m <= m'
    ensures Affords(v, n, m, f)
  {
    hide SearchWork;
    Distribute(n, n' - n, SearchWork(v));
    Distribute(n, n' - n, SearchWork(v) + 1);
  }

  lemma LeftLess(v: View, n: nat, m: nat, n': nat, m': nat, after: Funds, before: Funds)
    requires Left(v, n, m, after, before) && n <= n' && m <= m'
    ensures Left(v, n', m', after, before)
  {
    hide SearchWork;
    Distribute(n, n' - n, SearchWork(v));
    Distribute(n, n' - n, SearchWork(v) + 1);
  }

  /** One search, by the work its kind can need. */
  lemma OneSearch(v: View, work: nat, limited: bool, after: Funds, before: Funds)
    requires work <= SearchWork(v)
    requires limited ==> before.states < work || before.pushes < work + 1
    requires !limited ==> after.states + work >= before.states && after.pushes + work + 1 >= before.pushes && after.spurs == before.spurs
    ensures limited ==> Short(v, 1, 0, before)
    ensures !limited ==> Left(v, 1, 0, after, before)
  {
  }

  lemma BoundedWork(v: View, bound: nat)
    requires bound <= v.NodeCount()
    ensures bound * |v.adjacency| <= SearchWork(v)
  {
    Distribute(bound, v.NodeCount() - bound, |v.adjacency|);
  }

  lemma BoundedStates(v: View, bound: nat)
    requires bound + 1 <= v.NodeCount()
    ensures (bound + 1) * v.NodeCount() <= v.NodeCount() * v.NodeCount()
  {
    Distribute(bound + 1, v.NodeCount() - (bound + 1), v.NodeCount());
  }
}
