/** A view with parallel links on two consecutive hops, where the enumeration loses a path:
    links e1, e2 lead from A to B and f1, f2, f3 from B to C, and e2 is expensive. */
module LostPath {
  import opened Values
  import opened View
  import opened Order
  import opened Ranking
  import opened YenSpec
  import opened Queue
  import opened Yen

  function Link(to: nat, id: id16, staticCost: nat): Adjacency {
    Adjacency(to, id, staticCost, false, false, staticCost)
  }

  /** Entries 0 and 1 are e1 and e2, entries 2, 3 and 4 are f1, f2 and f3. */
  const PARALLEL := View([7, 8, 9], [0, 2, 5, 5],
    [Link(1, 1, 0), Link(1, 2, 10), Link(2, 3, 0), Link(2, 4, 1), Link(2, 5, 2)],
    CostModel(1, 0, 0), 1000)

  const QUESTION := Query(PARALLEL, 0, 2, NO_HOP_BOUND)

  function Over(e: nat, f: nat): RawPath {
    RawPath([0, 1, 2], [e, f])
  }

  lemma QuestionValid()
    ensures QUESTION.Valid()
  {
    var v := PARALLEL;
    forall u, a, b | v.InSlice(u, a) && v.InSlice(u, b) && a < b ensures v.SliceOrdered(a, b) {
    }
  }

  lemma OverIsRoute(e: nat, f: nat)
    requires e < 2 && 2 <= f < 5
    ensures Route(QUESTION, Over(e, f))
    ensures Cost(PARALLEL, [e, f]) == 2 + 10 * e + (f - 2)
  {
    assert [e, f][..1] == [e] && [e][..0] == [];
    assert Cost(PARALLEL, [e]) == PARALLEL.Increment(e);
  }

  lemma RouteIsOver(q: RawPath)
    requires Route(QUESTION, q)
    ensures q.Hops() == 2 && q.adjacency[0] < 2 && 2 <= q.adjacency[1] < 5
    ensures q == Over(q.adjacency[0], q.adjacency[1])
  {
    var v := PARALLEL;
    assert q.Hops() > 0 && v.InSlice(q.nodes[0], q.adjacency[0]);
    assert q.nodes[1] == 1;
    assert q.Hops() > 1 && v.InSlice(q.nodes[1], q.adjacency[1]);
    assert q.nodes[2] == 2;
    assert forall a :: !v.InSlice(2, a);
    assert q.adjacency == [q.adjacency[0], q.adjacency[1]];
    assert q.nodes == [0, 1, 2];
  }

  lemma CheaperBefore(e: nat, f: nat, e': nat, f': nat)
    requires e < 2 && 2 <= f < 5 && e' < 2 && 2 <= f' < 5 && 10 * e + f < 10 * e' + f'
    ensures Before(PARALLEL, Over(e, f), Over(e', f'))
  {
    OverIsRoute(e, f);
    OverIsRoute(e', f');
  }

  /** While e2 f1 is the last accepted path, every f is taken at the node root A, B. */
  lemma AllTaken(rs: seq<Ranked>, f: nat)
    requires FirstRoutes(QUESTION, rs, |rs|) && rs != [] && rs[|rs| - 1].path == Over(1, 2) && 2 <= f < 5
    ensures BannedAt(rs, [0, 1], f)
  {
    var q := Over(0, f);
    OverIsRoute(0, f);
    CheaperBefore(0, f, 1, 2);
    BeforeAsymmetric(PARALLEL, q, Over(1, 2));
    hide Before, Ok;
    if k :| 0 <= k < |rs| && rs[k].path == q {
      assert TakesAt(rs[k].path, [0, 1], f);
    } else {
      assert Missed(QUESTION, rs, q);
      var i: nat, j: nat :| ShadowedAt(QUESTION, rs, q, i, j);
      ShadowIsTaken(rs, q, i, j);
    }
  }

  lemma ShadowIsTaken(rs: seq<Ranked>, q: RawPath, i: nat, j: nat)
    requires ShadowedAt(QUESTION, rs, q, i, j) && (forall k :: 0 <= k < |rs| ==> Route(QUESTION, rs[k].path))
    requires Route(QUESTION, q)
    ensures j == 1 && BannedAt(rs, [0, 1], q.adjacency[1])
  {
    hide Route;
    RouteIsOver(q);
    RouteIsOver(rs[i].path);
    assert rs[i].path.nodes[..1] == [0] && rs[i].path.nodes[..2] == [0, 1];
    forall k | 0 <= k < |rs| && TakesAt(rs[k].path, [0], q.adjacency[0]) ensures SharesRoot(rs[k].path, q, 1) {
      RouteIsOver(rs[k].path);
      assert rs[k].path.adjacency[..1] == [q.adjacency[0]] == q.adjacency[..1];
    }
  }

  /** No enumeration ever lists e2 f2 or e2 f3, although they are routes of small cost: all f are
      taken at the node root A, B by the time e2 f1 is accepted. */
  lemma {:induction false} Lost(rs: seq<Ranked>, i: nat)
    requires Grown(QUESTION, rs) && AlwaysFirst(QUESTION, rs) && i < |rs|
    ensures rs[i].path != Over(1, 3) && rs[i].path != Over(1, 4)
  {
    forall k: nat | k < i ensures rs[k].path != Over(1, 3) && rs[k].path != Over(1, 4) {
      Lost(rs, k);
    }
    hide Justified, AlwaysFirst;
    assert Justified(QUESTION, rs[..i], rs[i].path);
    NeverJustified(rs, i, 3);
    NeverJustified(rs, i, 4);
  }

  lemma NeverJustified(rs: seq<Ranked>, i: nat, f: nat)
    requires AlwaysFirst(QUESTION, rs) && i < |rs| && 3 <= f < 5
    requires forall k: nat :: k < i ==> rs[k].path != Over(1, 3) && rs[k].path != Over(1, 4)
    ensures !Justified(QUESTION, rs[..i], Over(1, f))
  {
    var c := Over(1, f);
    OverIsRoute(1, 2);
    OverIsRoute(0, 2);
    CheaperBefore(1, 2, 1, f);
    CheaperBefore(0, 2, 1, f);
    NotLeast(c, 0, Over(0, 2));
    NotLeast(c, 1, Over(1, 2));
    hide Least, BannedAt, AlwaysFirst, Before, Route;
    if a: nat, b: nat :| Deviates(QUESTION, rs[..i], c, a, b) {
      OnlyAtB(rs[..i], c, a, b);
      TakenByThen(rs, i, a, f);
    }
  }

  lemma OnlyAtB(rs: seq<Ranked>, c: RawPath, a: nat, b: nat)
    requires Deviates(QUESTION, rs, c, a, b) && c.Hops() == 2 && !Least(QUESTION, c, 1)
    ensures b == 1 && a < |rs| && SharesRoot(rs[a].path, c, 1)
  {
    hide Least, BannedAt;
  }

  lemma NotLeast(c: RawPath, j: nat, q: RawPath)
    requires Route(QUESTION, q) && SharesRoot(c, q, j) && Before(PARALLEL, q, c)
    ensures !Least(QUESTION, c, j)
  {
    BeforeAsymmetric(PARALLEL, q, c);
  }

  /** The only earlier path to deviate from at B is e2 f1, and by then f is taken. */
  lemma TakenByThen(rs: seq<Ranked>, i: nat, a: nat, f: nat)
    requires AlwaysFirst(QUESTION, rs) && a < i <= |rs| && 3 <= f < 5
    requires forall k: nat :: k < i ==> rs[k].path != Over(1, 3) && rs[k].path != Over(1, 4)
    requires SharesRoot(rs[..i][a].path, Over(1, f), 1)
    ensures |rs[..i][a].path.nodes| == 3 && BannedAt(rs[..i][..a + 1], rs[..i][a].path.nodes[..2], f)
  {
    assert rs[..i][a] == rs[a] && rs[..i][..a + 1] == rs[..a + 1];
    assert FirstRoutes(QUESTION, rs[..a + 1], a + 1);
    assert rs[..a + 1][a] == rs[a] && Ok(QUESTION, rs[..a + 1][a]);
    RouteIsOver(rs[a].path);
    assert rs[a].path.adjacency[0] == rs[a].path.adjacency[..1][0] == Over(1, f).adjacency[..1][0] == 1;
    assert rs[a].path == Over(1, 2);
    AllTaken(rs[..a + 1], f);
    assert rs[a].path.nodes[..2] == [0, 1];
  }

  /** So an enumeration that is asked for all six routes misses two of them. */
  lemma LostRoutesExist(rs: seq<Ranked>)
    requires Grown(QUESTION, rs) && AlwaysFirst(QUESTION, rs)
    ensures forall f :: 3 <= f < 5 ==> Missed(QUESTION, rs, Over(1, f))
  {
    forall f | 3 <= f < 5 ensures Missed(QUESTION, rs, Over(1, f)) {
      OverIsRoute(1, f);
      forall k | 0 <= k < |rs| ensures rs[k].path != Over(1, f) {
        Lost(rs, k);
      }
    }
  }

  /** Whatever K is asked for and whatever the budget is: e2 f2 and e2 f3 are not listed. */
  method NeverListed(wanted: nat, budget: WorkBudget) returns (r: Listing)
    requires budget.Honest()
    modifies budget
    ensures forall f :: 3 <= f < 5 ==> Route(QUESTION, Over(1, f)) && Missed(QUESTION, r.paths, Over(1, f))
  {
    hide Grown, AlwaysFirst, Missed, Route, FirstRoutes, AllOk;
    QuestionValid();
    r := YenPaths(QUESTION, wanted, budget);
    LostRoutesExist(r.paths);
    OverIsRoute(1, 3);
    OverIsRoute(1, 4);
  }
}
