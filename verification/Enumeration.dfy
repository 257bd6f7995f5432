/** Candidate enumeration without required transit: Yen's listing, the failure-domain filter and
    the candidate limit (src/search.cpp, EnumerateCandidatePaths). */
module Enumeration {
  import opened Wrappers
  import opened View
  import opened Order
  import opened Queue
  import opened PathCosts
  import opened Ranking
  import opened YenSpec
  import opened Yen
  import opened Effort
  import Domains

  datatype MemberLimit = MemberLimit(limit: nat, failClosed: bool)

  datatype Options = Options(maxCandidates: nat, enumerationCeiling: nat, memberLimit: Option<MemberLimit>)

  datatype Result = Result(ok: bool, failure: Failure, resourceLimit: bool, truncated: bool, paths: seq<RawPath>)

  ghost predicate EntriesInRange(v: View, entries: seq<nat>) {
    forall i :: 0 <= i < |entries| ==> entries[i] < |v.adjacency|
  }

  /** A path the member limit, if one is active, lets through. */
  ghost predicate Acceptable(v: View, dv: Domains.DomainView, limit: Option<MemberLimit>, q: RawPath) {
    EntriesInRange(v, q.adjacency) &&
    (limit.Some? ==> Domains.Compliant(v, dv, q.adjacency, limit.value.limit, limit.value.failClosed))
  }

  function Wanted(o: Options): nat {
    if o.enumerationCeiling > 0 then o.enumerationCeiling else o.maxCandidates
  }

  ghost predicate BeforeAll(v: View, paths: seq<RawPath>, q: RawPath) {
    forall i :: 0 <= i < |paths| ==> Before(v, paths[i], q)
  }

  /** What the caller is told about the paths it gets: acceptable routes, each once, in canonical order. */
  ghost predicate Delivered(z: Query, dv: Domains.DomainView, o: Options, paths: seq<RawPath>) {
    && |paths| <= o.maxCandidates
    && (forall i :: 0 <= i < |paths| ==> Route(z, paths[i]) && Cost(z.view, paths[i].adjacency) <= MAX_COST && Acceptable(z.view, dv, o.memberLimit, paths[i]))
    && (HopsFit(z.view) ==> forall i, j :: 0 <= i < j < |paths| ==> Before(z.view, paths[i], paths[j]))
  }

  /** ... and about the paths it does not get, where no routes meet: they come
      after all it gets, and there is a reason the list ends before them. */
  ghost predicate NothingElse(z: Query, dv: Domains.DomainView, o: Options, r: Result) {
    forall q :: Route(z, q) && Cost(z.view, q.adjacency) < MAX_COST && Acceptable(z.view, dv, o.memberLimit, q) && q !in r.paths ==>
      && BeforeAll(z.view, r.paths, q)
      && (|r.paths| >= o.maxCandidates || (if o.memberLimit.Some? then r.truncated else |r.paths| >= Wanted(o)))
  }

  /** The accepted paths that the filter has looked at so far, kept or not. */
  ghost predicate Filtered(z: Query, dv: Domains.DomainView, limit: Option<MemberLimit>, seen: seq<Ranked>, kept: seq<Ranked>) {
    && (forall k :: 0 <= k < |kept| ==> kept[k] in seen && Acceptable(z.view, dv, limit, kept[k].path))
    && (forall k :: 0 <= k < |seen| && Acceptable(z.view, dv, limit, seen[k].path) ==> seen[k] in kept)
    && (Ascending(z.view, seen) ==> Ascending(z.view, kept))
  }

  /** Keeps the first maxCandidates compliant paths. */
  method KeepCompliant(z: Query, dv: Domains.DomainView, accepted: seq<Ranked>, limit: MemberLimit, maxCandidates: nat)
    returns (kept: seq<Ranked>, ghost count: nat)
    requires z.Valid() && dv.Valid() && AllOk(z, accepted)
    ensures count <= |accepted| && Filtered(z, dv, Some(limit), accepted[..count], kept)
    ensures count < |accepted| ==> |kept| >= maxCandidates
    ensures |kept| <= maxCandidates || |kept| <= 1
  {
    hide Query.Valid, View.Valid, AllOk, Domains.DomainView.Valid, Acceptable, Filtered;
    kept, count := [], 0;
    NoneFiltered(z, dv, Some(limit), accepted);
    for i := 0 to |accepted|
      invariant count == i && Filtered(z, dv, Some(limit), accepted[..i], kept)
      invariant |kept| < maxCandidates || kept == []
    {
      PathInRange(z, accepted, i);
      ViewValid(z);
      var compliant := Domains.MemberLimitCompliant(z.view, dv, accepted[i].path, limit.limit, limit.failClosed);
      FilterStep(z, dv, limit, accepted, kept, i, compliant);
      if compliant {
        kept := kept + [accepted[i]];
      }
      count := i + 1;
      if |kept| >= maxCandidates {
        break;
      }
    }
  }

  lemma NoneFiltered(z: Query, dv: Domains.DomainView, limit: Option<MemberLimit>, accepted: seq<Ranked>)
    ensures Filtered(z, dv, limit, accepted[..0], [])
  {
  }

  lemma ViewValid(z: Query)
    requires z.Valid()
    ensures z.view.Valid()
  {
  }

  lemma RouteInRange(z: Query, q: RawPath)
    requires z.Valid() && Route(z, q)
    ensures EntriesInRange(z.view, q.adjacency)
  {
    ViewValid(z);
    hide Query.Valid, View.Valid;
    WalkEntriesInRange(z.view, q);
  }

  lemma PathInRange(z: Query, accepted: seq<Ranked>, i: nat)
    requires z.Valid() && AllOk(z, accepted) && i < |accepted|
    ensures Route(z, accepted[i].path) && forall k :: 0 <= k < |accepted[i].path.adjacency| ==> accepted[i].path.adjacency[k] < |z.view.adjacency|
  {
    hide Query.Valid, Route, WellRanked;
    assert Ok(z, accepted[i]);
    RouteInRange(z, accepted[i].path);
  }

  lemma FilterStep(z: Query, dv: Domains.DomainView, limit: MemberLimit, accepted: seq<Ranked>, kept: seq<Ranked>, i: nat, compliant: bool)
    requires i < |accepted| && Filtered(z, dv, Some(limit), accepted[..i], kept)
    requires EntriesInRange(z.view, accepted[i].path.adjacency)
    requires compliant <==> Domains.Compliant(z.view, dv, accepted[i].path.adjacency, limit.limit, limit.failClosed)
    ensures Filtered(z, dv, Some(limit), accepted[..i + 1], if compliant then kept + [accepted[i]] else kept)
  {
    hide Domains.Compliant, Before;
    var more := if compliant then kept + [accepted[i]] else kept;
    assert accepted[..i + 1] == accepted[..i] + [accepted[i]];
    assert Acceptable(z.view, dv, Some(limit), accepted[i].path) <==> compliant;
    if Ascending(z.view, accepted[..i + 1]) {
      assert Ascending(z.view, accepted[..i]) by {
        assert forall a, b :: 0 <= a < b < i ==> accepted[..i][a] == accepted[..i + 1][a] && accepted[..i][b] == accepted[..i + 1][b];
      }
      forall a, b | 0 <= a < b < |more| ensures Before(z.view, more[a].path, more[b].path) {
        if b == |kept| {
          var k :| 0 <= k < i && accepted[..i][k] == kept[a];
          assert accepted[..i + 1][k] == kept[a] && accepted[..i + 1][i] == more[b];
        }
      }
    }
  }

  /** The delivered paths are the first acceptable ones of the listing. */
  ghost predicate KeepsFirst(z: Query, dv: Domains.DomainView, o: Options, listed: seq<Ranked>, paths: seq<RawPath>) {
    && (forall i :: 0 <= i < |paths| ==> IsListed(listed, paths[i]))
    && forall k :: 0 <= k < |listed| && Acceptable(z.view, dv, o.memberLimit, listed[k].path) ==>
      listed[k].path in paths || (|paths| >= o.maxCandidates && BeforeAll(z.view, paths, listed[k].path))
  }

  ghost predicate IsListed(listed: seq<Ranked>, q: RawPath) {
    exists k :: 0 <= k < |listed| && listed[k].path == q
  }

  method Enumerate(z: Query, dv: Domains.DomainView, o: Options, budget: WorkBudget) returns (r: Result, ghost listed: seq<Ranked>)
    requires z.Valid() && dv.Valid()
    requires budget.Honest()
    modifies budget
    ensures budget.Honest()
    ensures r.ok <==> r.paths != []
    ensures r.truncated ==> o.memberLimit.Some? && |r.paths| < o.maxCandidates
    ensures !r.resourceLimit ==> (r.truncated <==> o.memberLimit.Some? && |r.paths| < o.maxCandidates && listed != [] && |listed| >= Wanted(o))
    ensures !r.resourceLimit && o.memberLimit.None? ==> |r.paths| >= o.maxCandidates || |r.paths| == |listed|
    ensures |listed| <= 1 || |listed| <= Wanted(o)
    ensures r.resourceLimit ==> r.paths == [] && (budget.exhausted || budget.stateSpaceExceeded)
    ensures r.resourceLimit ==> Short(z.view, Searches(z.view, Wanted(o)), Searches(z.view, Wanted(o)), old(FundsOf(budget)))
    ensures Delivered(z, dv, o, r.paths)
    ensures !r.resourceLimit && HopsFit(z.view) && listed != [] ==> FirstRoutes(z, listed, Wanted(o)) && KeepsFirst(z, dv, o, listed, r.paths)
    ensures !r.resourceLimit && HopsFit(z.view) && listed == [] ==> r.paths == [] && forall q :: Route(z, q) ==> Cost(z.view, q.adjacency) >= MAX_COST
    ensures !r.resourceLimit && HopsFit(z.view) && NoMeeting(z) ==> NothingElse(z, dv, o, r)
  {
    hide Short, Searches, Query.Valid, View.Valid, Domains.DomainView.Valid, NoMeeting, AllOk, FirstRoutes, Route, Filtered, Delivered, NothingElse, KeepsFirst, Acceptable;
    listed := [];
    var listing := YenPaths(z, Wanted(o), budget);
    if listing.limited {
      NothingDelivered(z, dv, o);
      r := Result(false, WorkBudgetExhausted, true, false, []);
      return;
    }
    var accepted := listing.paths;
    listed := accepted;
    if accepted == [] {
      NothingDelivered(z, dv, o);
      r := Result(false, listing.failure, false, false, []);
      if HopsFit(z.view) {
        NothingMissed(z, dv, o, r);
      }
      return;
    }
    var hitCeiling := |accepted| >= Wanted(o);
    var truncated := false;
    var kept := accepted;
    ghost var count := |accepted|;
    assert accepted[..|accepted|] == accepted;
    if o.memberLimit.Some? {
      kept, count := KeepCompliant(z, dv, accepted, o.memberLimit.value, o.maxCandidates);
      if |kept| < o.maxCandidates && hitCeiling {
        truncated := true;
      }
    } else {
      AllFiltered(z, dv, accepted);
    }
    ghost var all := kept;
    if |kept| > o.maxCandidates {
      kept := kept[..o.maxCandidates];
    }
    var paths := [];
    for i := 0 to |kept|
      invariant |paths| == i && forall k :: 0 <= k < i ==> paths[k] == kept[k].path
    {
      paths := paths + [kept[i].path];
    }
    r := Result(paths != [], NoStructuralPath, false, truncated, paths);
    if HopsFit(z.view) {
      FirstAscending(z, accepted, Wanted(o));
    }
    DeliveredFromFilter(z, dv, o, accepted, count, all, paths);
    if HopsFit(z.view) {
      KeptFromFilter(z, dv, o, accepted, count, all, paths);
    }
    if HopsFit(z.view) && NoMeeting(z) {
      NothingElseFromFilter(z, dv, o, accepted, count, all, r);
    }
  }

  lemma NothingDelivered(z: Query, dv: Domains.DomainView, o: Options)
    ensures Delivered(z, dv, o, [])
  {
  }

  lemma NothingMissed(z: Query, dv: Domains.DomainView, o: Options, r: Result)
    requires forall q :: Route(z, q) ==> Cost(z.view, q.adjacency) >= MAX_COST
    ensures NothingElse(z, dv, o, r)
  {
    hide Route, Acceptable;
  }

  lemma AllFiltered(z: Query, dv: Domains.DomainView, accepted: seq<Ranked>)
    requires z.Valid() && AllOk(z, accepted)
    ensures Filtered(z, dv, None, accepted, accepted)
  {
    hide Query.Valid, Ok, Route;
    forall k | 0 <= k < |accepted| ensures Acceptable(z.view, dv, None, accepted[k].path) {
      PathInRange(z, accepted, k);
    }
  }

  lemma AscendingPrefix(v: View, rs: seq<Ranked>, n: nat)
    requires n <= |rs| && Ascending(v, rs)
    ensures Ascending(v, rs[..n])
  {
  }

  lemma FirstAscending(z: Query, rs: seq<Ranked>, wanted: nat)
    requires FirstRoutes(z, rs, wanted)
    ensures Ascending(z.view, rs)
  {
    hide Ascending, Ok, Missed;
  }

  lemma DeliveredFromFilter(z: Query, dv: Domains.DomainView, o: Options, accepted: seq<Ranked>, count: nat, all: seq<Ranked>, paths: seq<RawPath>)
    requires AllOk(z, accepted) && count <= |accepted| && Filtered(z, dv, o.memberLimit, accepted[..count], all)
    requires |paths| <= |all| && |paths| <= o.maxCandidates && forall k :: 0 <= k < |paths| ==> paths[k] == all[k].path
    requires HopsFit(z.view) ==> Ascending(z.view, accepted)
    ensures Delivered(z, dv, o, paths)
  {
    hide Acceptable, Before, Ok, HopsFit;
    forall i | 0 <= i < |paths| ensures Route(z, paths[i]) && Cost(z.view, paths[i].adjacency) <= MAX_COST && Acceptable(z.view, dv, o.memberLimit, paths[i]) {
      assert all[i] in accepted[..count];
      var k :| 0 <= k < count && accepted[..count][k] == all[i];
      assert Ok(z, accepted[k]);
      OkRoute(z, accepted[k]);
    }
    if HopsFit(z.view) {
      AscendingPrefix(z.view, accepted, count);
    }
  }

  lemma OkRoute(z: Query, r: Ranked)
    requires Ok(z, r)
    ensures Route(z, r.path) && Cost(z.view, r.path.adjacency) <= MAX_COST
  {
    hide Route;
  }

  lemma KeptFromFilter(z: Query, dv: Domains.DomainView, o: Options, accepted: seq<Ranked>, count: nat, all: seq<Ranked>, paths: seq<RawPath>)
    requires FirstRoutes(z, accepted, Wanted(o))
    requires count <= |accepted| && Filtered(z, dv, o.memberLimit, accepted[..count], all)
    requires count < |accepted| ==> |all| >= o.maxCandidates
    requires |paths| == (if |all| > o.maxCandidates then o.maxCandidates else |all|) && forall k :: 0 <= k < |paths| ==> paths[k] == all[k].path
    ensures KeepsFirst(z, dv, o, accepted, paths)
  {
    hide Acceptable, Before, FirstRoutes, Filtered;
    FilteredFacts(z, dv, o.memberLimit, accepted, count, all, Wanted(o));
    forall i | 0 <= i < |paths| ensures IsListed(accepted, paths[i]) {
      assert all[i] in accepted[..count];
      var k :| 0 <= k < count && accepted[..count][k] == all[i];
      assert accepted[k].path == paths[i];
    }
    forall k | 0 <= k < |accepted| && Acceptable(z.view, dv, o.memberLimit, accepted[k].path)
      ensures accepted[k].path in paths || (|paths| >= o.maxCandidates && BeforeAll(z.view, paths, accepted[k].path))
    {
      if accepted[k].path !in paths {
        ListedLater(z, dv, o.memberLimit, accepted, count, all, paths, k);
      }
    }
  }

  lemma NothingElseFromFilter(z: Query, dv: Domains.DomainView, o: Options, accepted: seq<Ranked>, count: nat, all: seq<Ranked>, r: Result)
    requires AllOk(z, accepted) && accepted != [] && FirstRoutes(z, accepted, Wanted(o)) && NoMeeting(z)
    requires count <= |accepted| && Filtered(z, dv, o.memberLimit, accepted[..count], all)
    requires count < |accepted| ==> |all| >= o.maxCandidates && o.memberLimit.Some?
    requires o.memberLimit.None? ==> all == accepted && count == |accepted|
    requires |r.paths| == (if |all| > o.maxCandidates then o.maxCandidates else |all|) && forall k :: 0 <= k < |r.paths| ==> r.paths[k] == all[k].path
    requires o.memberLimit.Some? ==> (r.truncated <==> |all| < o.maxCandidates && |accepted| >= Wanted(o))
    ensures NothingElse(z, dv, o, r)
  {
    hide AllOk, Route, Acceptable, Before, NoMeeting, FirstRoutes, Filtered;
    FilteredFacts(z, dv, o.memberLimit, accepted, count, all, Wanted(o));
    forall q | Route(z, q) && Cost(z.view, q.adjacency) < MAX_COST && Acceptable(z.view, dv, o.memberLimit, q) && q !in r.paths
      ensures BeforeAll(z.view, r.paths, q)
      ensures |r.paths| >= o.maxCandidates || (if o.memberLimit.Some? then r.truncated else |r.paths| >= Wanted(o))
    {
      if k :| 0 <= k < |accepted| && accepted[k].path == q {
        ListedLater(z, dv, o.memberLimit, accepted, count, all, r.paths, k);
      } else {
        UnlistedLater(z, dv, o.memberLimit, accepted, count, all, r.paths, Wanted(o), q);
      }
    }
  }

  lemma FilteredFacts(z: Query, dv: Domains.DomainView, limit: Option<MemberLimit>, accepted: seq<Ranked>, count: nat, all: seq<Ranked>, wanted: nat)
    requires count <= |accepted| && Filtered(z, dv, limit, accepted[..count], all) && FirstRoutes(z, accepted, wanted)
    ensures Ascending(z.view, accepted) && Ascending(z.view, all)
    ensures forall k :: 0 <= k < |all| ==> all[k] in accepted[..count]
    ensures forall k :: 0 <= k < count && Acceptable(z.view, dv, limit, accepted[k].path) ==> accepted[k] in all
  {
    hide Acceptable, Before, Ok, Missed, Shadowed;
    AscendingPrefix(z.view, accepted, count);
    forall k | 0 <= k < count && Acceptable(z.view, dv, limit, accepted[k].path) ensures accepted[k] in all {
      assert accepted[..count][k] == accepted[k];
    }
  }

  /** A listed acceptable path that is not delivered comes after the delivered ones. */
  lemma ListedLater(z: Query, dv: Domains.DomainView, limit: Option<MemberLimit>, accepted: seq<Ranked>, count: nat, all: seq<Ranked>, paths: seq<RawPath>, k: nat)
    requires count <= |accepted| && k < |accepted| && Ascending(z.view, accepted) && Ascending(z.view, all)
    requires forall i :: 0 <= i < |all| ==> all[i] in accepted[..count]
    requires forall i :: 0 <= i < count && Acceptable(z.view, dv, limit, accepted[i].path) ==> accepted[i] in all
    requires Acceptable(z.view, dv, limit, accepted[k].path) && accepted[k].path !in paths
    requires |paths| <= |all| && forall i :: 0 <= i < |paths| ==> paths[i] == all[i].path
    ensures BeforeAll(z.view, paths, accepted[k].path)
    ensures k >= count || |paths| < |all|
  {
    hide Acceptable, Before;
    forall i | 0 <= i < |paths| ensures all[i] != accepted[k] {
      assert paths[i] in paths;
    }
    forall i | 0 <= i < |paths| ensures Before(z.view, paths[i], accepted[k].path) {
      if k >= count {
        var a :| 0 <= a < count && accepted[..count][a] == all[i];
        assert Before(z.view, accepted[a].path, accepted[k].path);
      } else {
        var b :| 0 <= b < |all| && all[b] == accepted[k];
        assert Before(z.view, all[i].path, all[b].path);
      }
    }
    if k < count {
      var b :| 0 <= b < |all| && all[b] == accepted[k];
    }
  }

  /** Where no routes meet, what is not listed comes after all that is, and the list is full. */
  lemma UnlistedAfter(z: Query, listed: seq<Ranked>, wanted: nat, q: RawPath)
    requires FirstRoutes(z, listed, wanted) && NoMeeting(z) && listed != []
    requires Route(z, q) && Cost(z.view, q.adjacency) < MAX_COST && forall k :: 0 <= k < |listed| ==> listed[k].path != q
    ensures |listed| >= wanted && forall k :: 0 <= k < |listed| ==> Before(z.view, listed[k].path, q)
  {
    hide Route, Before, NoMeeting, Shadowed, Ok;
    forall k | 0 <= k < |listed| ensures Route(z, listed[k].path) {
      OkRoute(z, listed[k]);
    }
    NoMeetingNoShadow(z, listed, q);
    assert Missed(z, listed, q);
    var last := listed[|listed| - 1].path;
    forall k | 0 <= k < |listed| ensures Before(z.view, listed[k].path, q) {
      if k < |listed| - 1 {
        assert Before(z.view, listed[k].path, last);
        BeforeTransitive(z.view, listed[k].path, last, q);
      }
    }
  }

  lemma UnlistedLater(z: Query, dv: Domains.DomainView, limit: Option<MemberLimit>, accepted: seq<Ranked>, count: nat, all: seq<Ranked>, paths: seq<RawPath>, wanted: nat, q: RawPath)
    requires FirstRoutes(z, accepted, wanted) && NoMeeting(z) && AllOk(z, accepted) && accepted != []
    requires count <= |accepted| && forall i :: 0 <= i < |all| ==> all[i] in accepted[..count]
    requires |paths| <= |all| && forall i :: 0 <= i < |paths| ==> paths[i] == all[i].path
    requires Route(z, q) && Cost(z.view, q.adjacency) < MAX_COST && forall k :: 0 <= k < |accepted| ==> accepted[k].path != q
    ensures BeforeAll(z.view, paths, q) && |accepted| >= wanted
  {
    AllOkShapes(z, accepted);
    hide AllOk, Route, Before, NoMeeting, Shadowed, Ok;
    NoMeetingNoShadow(z, accepted, q);
    assert Missed(z, accepted, q);
    var last := accepted[|accepted| - 1].path;
    assert Before(z.view, last, q);
    forall i | 0 <= i < |paths| ensures Before(z.view, paths[i], q) {
      var a :| 0 <= a < count && accepted[..count][a] == all[i];
      if a < |accepted| - 1 {
        assert Before(z.view, accepted[a].path, last);
        BeforeTransitive(z.view, accepted[a].path, last, q);
      }
    }
  }
}
