/** What Yen's enumeration keeps true (src/search.cpp, EnumerateCandidatePaths), stated over the
    list of accepted paths and the list of pending ones. */
module YenSpec {
  import opened View
  import opened Order
  import opened Ranking
  import opened PathCosts

  datatype Query = Query(view: View, source: nat, destination: nat, maxHops: nat) {
    ghost predicate Valid() {
      view.Valid() && source < view.NodeCount() && destination < view.NodeCount() && maxHops <= NO_HOP_BOUND
    }
  }

  /** A simple path from the source to the destination within the hop bound. */
  ghost predicate Route(z: Query, q: RawPath) {
    WalkFrom(z.view, z.source, z.destination, q) && Simple(q) && WithinHops(z.maxHops, q.Hops())
  }

  function TailCost(v: View, q: RawPath, j: nat): nat
    requires j <= q.Hops()
  {
    Cost(v, q.adjacency[j..])
  }

  ghost predicate SharesRoot(x: RawPath, q: RawPath, j: nat) {
    j <= x.Hops() && j <= q.Hops() && x.adjacency[..j] == q.adjacency[..j]
  }

  /** Entry a is taken by an accepted path that has the node root `root`: links are not compared. */
  ghost predicate BannedAt(accepted: seq<Ranked>, root: seq<nat>, a: nat) {
    exists i :: 0 <= i < |accepted| && TakesAt(accepted[i].path, root, a)
  }

  predicate TakesAt(p: RawPath, root: seq<nat>, a: nat) {
    |root| > 0 && |p.nodes| == |p.adjacency| + 1 && |p.nodes| > |root| && p.nodes[..|root|] == root && p.adjacency[|root| - 1] == a
  }

  /** Path q leaves path x at hop j over an entry that no accepted path with that node root takes. */
  ghost predicate Served(z: Query, accepted: seq<Ranked>, x: RawPath, j: nat, q: RawPath) {
    && Route(z, q) && SharesRoot(x, q, j) && j < x.Hops() && j < q.Hops()
    && |x.nodes| == x.Hops() + 1
    && !BannedAt(accepted, x.nodes[..j + 1], q.adjacency[j])
    && Cost(z.view, q.adjacency) <= MAX_COST && TailCost(z.view, q, j) < MAX_COST
  }

  ghost predicate Covers(v: View, c: RawPath, j: nat, q: RawPath) {
    SharesRoot(c, q, j) && NotAfter(v, c, q)
  }

  ghost predicate Covered(z: Query, pending: seq<Ranked>, j: nat, q: RawPath) {
    exists k :: 0 <= k < |pending| && Covers(z.view, pending[k].path, j, q)
  }

  /** Everything served by one of the first `count` accepted paths is covered. */
  ghost predicate Cover(z: Query, accepted: seq<Ranked>, pending: seq<Ranked>, count: nat) {
    forall i, j, q :: 0 <= i < count <= |accepted| && Served(z, accepted, accepted[i].path, j, q) ==> Covered(z, pending, j, q)
  }

  /** Everything the path x serves at a hop below `upto` is covered. */
  ghost predicate CoverPath(z: Query, accepted: seq<Ranked>, pending: seq<Ranked>, x: RawPath, upto: nat) {
    forall j, q :: 0 <= j < upto && Served(z, accepted, x, j, q) ==> Covered(z, pending, j, q)
  }

  /** No route that shares its first j hops with c comes before c. */
  ghost predicate Least(z: Query, c: RawPath, j: nat) {
    forall q :: Route(z, q) && SharesRoot(c, q, j) ==> NotAfter(z.view, c, q)
  }

  /** c deviates from accepted path i at hop j over an entry not taken there by the paths accepted
      up to i, and is the least route with its first j + 1 hops. */
  ghost predicate Deviates(z: Query, accepted: seq<Ranked>, c: RawPath, i: nat, j: nat) {
    && i < |accepted| && SharesRoot(accepted[i].path, c, j) && j < accepted[i].path.Hops() && j < c.Hops()
    && |accepted[i].path.nodes| == accepted[i].path.Hops() + 1
    && !BannedAt(accepted[..i + 1], accepted[i].path.nodes[..j + 1], c.adjacency[j])
    && Least(z, c, j + 1)
  }

  /** Every listed path was justified by the paths before it. */
  ghost predicate Grown(z: Query, rs: seq<Ranked>) {
    forall i :: 0 <= i < |rs| ==> Justified(z, rs[..i], rs[i].path)
  }

  /** How a path got into the enumeration: it is the least route of all, or the least of its deviation. */
  ghost predicate Justified(z: Query, accepted: seq<Ranked>, c: RawPath) {
    Least(z, c, 0) || exists i: nat, j: nat :: Deviates(z, accepted, c, i, j)
  }

  ghost predicate Ok(z: Query, r: Ranked) {
    && Route(z, r.path) && WellRanked(z.view, z.source, r) && r.cost.total <= MAX_COST
  }

  /** Canonical order, strictly. */
  ghost predicate Ascending(v: View, rs: seq<Ranked>) {
    forall i, j :: 0 <= i < j < |rs| ==> Before(v, rs[i].path, rs[j].path)
  }

  /** q leaves all accepted paths at a hop whose entry is banned only because node roots, not
      link roots, are compared: the accepted path that takes it reached the same nodes otherwise. */
  ghost predicate Shadowed(z: Query, accepted: seq<Ranked>, q: RawPath) {
    exists i: nat, j: nat :: ShadowedAt(z, accepted, q, i, j)
  }

  ghost predicate ShadowedAt(z: Query, accepted: seq<Ranked>, q: RawPath, i: nat, j: nat) {
    && i < |accepted| && SharesRoot(accepted[i].path, q, j) && j < q.Hops() && j < accepted[i].path.Hops()
    && |accepted[i].path.nodes| == accepted[i].path.Hops() + 1
    && BannedAt(accepted, accepted[i].path.nodes[..j + 1], q.adjacency[j])
    && forall k :: 0 <= k < |accepted| ==> !SharesRoot(accepted[k].path, q, j + 1)
  }

  // ----- roots

  lemma RootNodes(v: View, x: RawPath, q: RawPath, j: nat)
    requires IsWalk(v, x) && IsWalk(v, q) && x.nodes[0] == q.nodes[0] && SharesRoot(x, q, j)
    ensures x.nodes[..j + 1] == q.nodes[..j + 1]
    ensures Prefix(x, j) == Prefix(q, j)
  {
    WalkNodesAgree(v, x, q, j);
  }

  lemma SharesShorter(x: RawPath, q: RawPath, j: nat, i: nat)
    requires SharesRoot(x, q, j) && i <= j
    ensures SharesRoot(x, q, i)
  {
    assert x.adjacency[..i] == x.adjacency[..j][..i] == q.adjacency[..j][..i] == q.adjacency[..i];
  }

  lemma SharesTransitive(x: RawPath, y: RawPath, q: RawPath, j: nat)
    requires SharesRoot(x, y, j) && SharesRoot(y, q, j)
    ensures SharesRoot(x, q, j)
  {
  }

  /** A route cannot continue beyond another route it has followed to the end. */
  lemma RouteLeaves(z: Query, x: RawPath, q: RawPath, j: nat)
    requires Route(z, x) && Route(z, q) && SharesRoot(x, q, j) && (j < q.Hops() || j < x.Hops())
    ensures j < x.Hops() && j < q.Hops()
  {
    RootNodes(z.view, x, q, j);
    assert x.nodes[j] == x.nodes[..j + 1][j] == q.nodes[..j + 1][j] == q.nodes[j];
  }

  /** Two different routes part at some hop. */
  lemma {:induction false} RoutesPart(z: Query, x: RawPath, q: RawPath, j: nat)
    requires Route(z, x) && Route(z, q) && SharesRoot(x, q, j) && x != q
    ensures j < x.Hops() && j < q.Hops()
  {
    if j == x.Hops() && j == q.Hops() {
      assert x.adjacency == q.adjacency;
      WalkDetermined(z.view, x, q);
    } else {
      RouteLeaves(z, x, q, j);
    }
  }

  /** rs lists routes in canonical order without repetition, and a route it misses is shadowed,
      or comes after all of rs and rs is full. */
  ghost predicate FirstRoutes(z: Query, rs: seq<Ranked>, wanted: nat) {
    && Ascending(z.view, rs)
    && (forall i :: 0 <= i < |rs| ==> Ok(z, rs[i]))
    && forall q :: Missed(z, rs, q) ==> Shadowed(z, rs, q) || (|rs| >= wanted && |rs| > 0 && Before(z.view, rs[|rs| - 1].path, q))
  }

  /** At every moment of the enumeration the paths listed so far were the first ones. */
  ghost predicate AlwaysFirst(z: Query, rs: seq<Ranked>) {
    forall i :: 0 < i <= |rs| ==> FirstRoutes(z, rs[..i], i)
  }

  ghost predicate Missed(z: Query, rs: seq<Ranked>, q: RawPath) {
    Route(z, q) && Cost(z.view, q.adjacency) < MAX_COST && forall k :: 0 <= k < |rs| ==> rs[k].path != q
  }

  /** Over a view without parallel entries equal node roots are equal link roots. */
  lemma {:induction false} NodeRootIsLinkRoot(v: View, x: RawPath, q: RawPath, j: nat)
    requires v.NoParallel() && IsWalk(v, x) && IsWalk(v, q)
    requires j <= x.Hops() && j <= q.Hops() && x.nodes[..j + 1] == q.nodes[..j + 1]
    ensures SharesRoot(x, q, j)
  {
    forall i | 0 <= i <= j ensures x.nodes[i] == q.nodes[i] {
      assert x.nodes[i] == x.nodes[..j + 1][i] == q.nodes[..j + 1][i];
    }
    forall i | 0 <= i < j ensures x.adjacency[i] == q.adjacency[i] {
      assert v.InSlice(x.nodes[i], x.adjacency[i]) && v.InSlice(x.nodes[i], q.adjacency[i]);
      assert v.To(x.adjacency[i]) == x.nodes[i + 1] == q.nodes[i + 1] == v.To(q.adjacency[i]);
    }
  }

  /** Routes x and q share their links up to hop j and part there; y reaches the same nodes over
      other links and leaves over the entry q takes. */
  ghost predicate MeetAt(z: Query, x: RawPath, y: RawPath, q: RawPath, j: nat) {
    && Route(z, x) && Route(z, y) && Route(z, q) && j < x.Hops() && j < y.Hops() && j < q.Hops()
    && SharesRoot(x, q, j) && x.adjacency[j] != q.adjacency[j]
    && |y.nodes| == y.Hops() + 1 && |q.nodes| == q.Hops() + 1
    && y.nodes[..j + 1] == q.nodes[..j + 1] && !SharesRoot(y, q, j) && y.adjacency[j] == q.adjacency[j]
  }

  /** No three routes meet: whenever a node root can be reached over different links, every route
      that comes by it goes on over one and the same entry. */
  ghost predicate NoMeeting(z: Query) {
    forall x, y, q, j: nat :: !MeetAt(z, x, y, q, j)
  }

  /** Without parallel entries no routes meet. */
  lemma NoParallelNoMeeting(z: Query)
    requires z.view.NoParallel()
    ensures NoMeeting(z)
  {
    hide View.NoParallel;
    forall x, y, q, j: nat ensures !MeetAt(z, x, y, q, j) {
      if MeetAt(z, x, y, q, j) {
        NodeRootIsLinkRoot(z.view, y, q, j);
      }
    }
  }

  /** Only where routes meet can a route be shadowed. */
  lemma NoMeetingNoShadow(z: Query, rs: seq<Ranked>, q: RawPath)
    requires NoMeeting(z) && Route(z, q) && forall i :: 0 <= i < |rs| ==> Route(z, rs[i].path)
    ensures !Shadowed(z, rs, q)
  {
    hide NoMeeting;
    if Shadowed(z, rs, q) {
      var i: nat, j: nat :| ShadowedAt(z, rs, q, i, j);
      var k :| 0 <= k < |rs| && TakesAt(rs[k].path, rs[i].path.nodes[..j + 1], q.adjacency[j]);
      ShadowMeets(z, rs, q, i, j, k);
      NoneMeet(z, rs[i].path, rs[k].path, q, j);
    }
  }

  lemma NoneMeet(z: Query, x: RawPath, y: RawPath, q: RawPath, j: nat)
    requires NoMeeting(z)
    ensures !MeetAt(z, x, y, q, j)
  {
  }

  lemma ShadowMeets(z: Query, rs: seq<Ranked>, q: RawPath, i: nat, j: nat, k: nat)
    requires ShadowedAt(z, rs, q, i, j) && Route(z, q) && (forall l :: 0 <= l < |rs| ==> Route(z, rs[l].path))
    requires k < |rs| && TakesAt(rs[k].path, rs[i].path.nodes[..j + 1], q.adjacency[j])
    ensures MeetAt(z, rs[i].path, rs[k].path, q, j)
  {
    var x, y := rs[i].path, rs[k].path;
    assert Route(z, x) && Route(z, y);
    RootNodes(z.view, x, q, j);
    if x.adjacency[j] == q.adjacency[j] {
      ExtendRoot(x, q, j);
    }
    if SharesRoot(y, q, j) {
      ExtendRoot(y, q, j);
    }
  }

  /** A shadowed path is not listed. */
  lemma ShadowedIsMissed(z: Query, rs: seq<Ranked>, q: RawPath)
    requires Shadowed(z, rs, q)
    ensures forall k :: 0 <= k < |rs| ==> rs[k].path != q
  {
    hide BannedAt;
  }

  lemma ExtendRoot(x: RawPath, q: RawPath, j: nat)
    requires SharesRoot(x, q, j) && j < x.Hops() && j < q.Hops() && x.adjacency[j] == q.adjacency[j]
    ensures SharesRoot(x, q, j + 1)
  {
    assert x.adjacency[..j + 1] == x.adjacency[..j] + [x.adjacency[j]];
    assert q.adjacency[..j + 1] == q.adjacency[..j] + [q.adjacency[j]];
  }

  /** Where no routes meet and no route costs 2^64 - 1 or more, the enumeration is exact: it returns
      the first min(K, all) routes in canonical order, none missing, none twice. */
  lemma ExactWhereNoRoutesMeet(z: Query, rs: seq<Ranked>, wanted: nat)
    requires FirstRoutes(z, rs, wanted) && NoMeeting(z)
    requires forall q :: Route(z, q) ==> Cost(z.view, q.adjacency) < MAX_COST
    ensures forall i, j :: 0 <= i < j < |rs| ==> Before(z.view, rs[i].path, rs[j].path)
    ensures forall i :: 0 <= i < |rs| ==> Route(z, rs[i].path)
    ensures forall q :: Route(z, q) ==>
      (exists k :: 0 <= k < |rs| && rs[k].path == q) ||
      (|rs| >= wanted && forall k :: 0 <= k < |rs| ==> Before(z.view, rs[k].path, q))
  {
    hide Route, NoMeeting, Shadowed, Before;
    forall q | Route(z, q) && !exists k :: 0 <= k < |rs| && rs[k].path == q
      ensures |rs| >= wanted && forall k :: 0 <= k < |rs| ==> Before(z.view, rs[k].path, q)
    {
      NoMeetingNoShadow(z, rs, q);
      assert Missed(z, rs, q);
      forall k | 0 <= k < |rs| ensures Before(z.view, rs[k].path, q) {
        if k < |rs| - 1 {
          BeforeTransitive(z.view, rs[k].path, rs[|rs| - 1].path, q);
        }
      }
    }
  }

  /** In particular on every view without parallel entries. */
  lemma ExactWithoutParallelLinks(z: Query, rs: seq<Ranked>, wanted: nat)
    requires FirstRoutes(z, rs, wanted) && z.view.NoParallel()
    requires forall q :: Route(z, q) ==> Cost(z.view, q.adjacency) < MAX_COST
    ensures forall i, j :: 0 <= i < j < |rs| ==> Before(z.view, rs[i].path, rs[j].path)
    ensures forall i :: 0 <= i < |rs| ==> Route(z, rs[i].path)
    ensures forall q :: Route(z, q) ==>
      (exists k :: 0 <= k < |rs| && rs[k].path == q) ||
      (|rs| >= wanted && forall k :: 0 <= k < |rs| ==> Before(z.view, rs[k].path, q))
  {
    hide FirstRoutes, Route, Before, NoMeeting, View.NoParallel;
    NoParallelNoMeeting(z);
    ExactWhereNoRoutesMeet(z, rs, wanted);
  }
}
