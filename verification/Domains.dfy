/** Failure-domain membership (src/graph.cpp, FailureDomainView) and the member limit on a path
    (src/search.cpp, DomainMemberLimitCompliant). */
module Domains {
  import opened Values
  import opened Counting
  import opened View

  /** A subject is a kind and a 16-byte identity, ordered by the kind first. */
  function ForNode(id: id16): nat { IDENTITY_SPACE + id }
  function ForLink(id: id16): nat { 2 * IDENTITY_SPACE + id }
  function ForPort(id: id16): nat { 3 * IDENTITY_SPACE + id }

  /** One published membership; the view holds them sorted by (subject, domain) without repetition. */
  datatype Member = Member(subject: nat, domain: nat)

  /** No two subjects share a key. */
  lemma SubjectsDiffer(x: id16, y: id16)
    ensures ForNode(x) == ForNode(y) || ForLink(x) == ForLink(y) || ForPort(x) == ForPort(y) ==> x == y
    ensures ForNode(x) != ForLink(y) && ForLink(x) != ForPort(y) && ForNode(x) != ForPort(y)
  {
  }

  datatype Membership = Membership(known: bool, domains: seq<nat>)

  predicate MemberLess(x: Member, y: Member) {
    x.subject < y.subject || (x.subject == y.subject && x.domain < y.domain)
  }

  datatype DomainView = DomainView(members: seq<Member>, complete: bool) {
    ghost predicate Valid() {
      forall i, j :: 0 <= i < j < |members| ==> MemberLess(members[i], members[j])
    }

    /** The domains published for a subject, in order. */
    function DomainsOf(subject: nat): seq<nat> {
      Select(members, subject)
    }

    predicate Known(subject: nat) {
      complete || DomainsOf(subject) != []
    }
  }

  function Select(members: seq<Member>, subject: nat): seq<nat> {
    if members == [] then []
    else
      var last := members[|members| - 1];
      Select(members[..|members| - 1], subject) + (if last.subject == subject then [last.domain] else [])
  }

  lemma {:induction false} SelectConcat(x: seq<Member>, y: seq<Member>, subject: nat)
    ensures Select(x + y, subject) == Select(x, subject) + Select(y, subject)
  {
    if y == [] {
      assert x + y == x;
    } else {
      SelectConcat(x, y[..|y| - 1], subject);
      assert (x + y)[..|x + y| - 1] == x + y[..|y| - 1];
    }
  }

  lemma {:induction false} SelectNone(members: seq<Member>, subject: nat)
    requires forall i :: 0 <= i < |members| ==> members[i].subject != subject
    ensures Select(members, subject) == []
  {
    if members != [] {
      SelectNone(members[..|members| - 1], subject);
    }
  }

  ghost predicate Ascending(domains: seq<nat>) {
    forall i, j :: 0 <= i < j < |domains| ==> domains[i] < domains[j]
  }

  lemma {:induction false} SelectAscending(members: seq<Member>, subject: nat)
    requires forall i, j :: 0 <= i < j < |members| ==> MemberLess(members[i], members[j])
    ensures Ascending(Select(members, subject)) && Distinct(Select(members, subject))
    ensures forall d: nat :: d in Select(members, subject) <==> Member(subject, d) in members
  {
    if members != [] {
      SelectAscending(members[..|members| - 1], subject);
      var last := members[|members| - 1];
      assert members == members[..|members| - 1] + [last];
      assert last !in members[..|members| - 1];
      var front := Select(members[..|members| - 1], subject);
      if last.subject == subject {
        forall k | 0 <= k < |front| ensures front[k] < last.domain {
          assert Member(subject, front[k]) in members[..|members| - 1];
        }
      }
    }
  }

  /** The first entry of this subject or a later one. */
  method LowerBound(view: DomainView, subject: nat) returns (low: nat)
    requires view.Valid()
    ensures low <= |view.members|
    ensures forall i :: 0 <= i < low ==> view.members[i].subject < subject
    ensures forall i :: low <= i < |view.members| ==> view.members[i].subject >= subject
  {
    low := 0;
    var high := |view.members|;
    while low < high
      invariant 0 <= low <= high <= |view.members|
      invariant forall i :: 0 <= i < low ==> view.members[i].subject < subject
      invariant forall i :: high <= i < |view.members| ==> view.members[i].subject >= subject
    {
      var mid := low + (high - low) / 2;
      if view.members[mid].subject < subject {
        low := mid + 1;
      } else {
        high := mid;
      }
    }
  }

  /** Lower bound by binary search, then a run of equal subjects. */
  method MembershipOf(view: DomainView, subject: nat) returns (m: Membership)
    requires view.Valid()
    ensures m.known <==> view.Known(subject)
    ensures m.domains == view.DomainsOf(subject) && Ascending(m.domains)
    ensures forall d: nat :: d in m.domains <==> Member(subject, d) in view.members
  {
    hide Ascending;
    var low := LowerBound(view, subject);
    var domains: seq<nat> := [];
    var cursor := low;
    SelectNone(view.members[..low], subject);
    while cursor < |view.members| && view.members[cursor].subject == subject
      invariant low <= cursor <= |view.members|
      invariant domains == Select(view.members[..cursor], subject)
    {
      assert view.members[..cursor + 1][..cursor] == view.members[..cursor];
      domains := domains + [view.members[cursor].domain];
      cursor := cursor + 1;
    }
    RestHasNone(view, subject, cursor);
    m := Membership(domains != [] || view.complete, domains);
    Published(view, subject);
  }

  lemma Published(view: DomainView, subject: nat)
    requires view.Valid()
    ensures Ascending(view.DomainsOf(subject))
    ensures forall d: nat :: d in view.DomainsOf(subject) <==> Member(subject, d) in view.members
  {
    SelectAscending(view.members, subject);
  }

  lemma RestHasNone(view: DomainView, subject: nat, cursor: nat)
    requires view.Valid() && cursor <= |view.members|
    requires cursor < |view.members| ==> view.members[cursor].subject > subject
    ensures view.DomainsOf(subject) == Select(view.members[..cursor], subject)
  {
    SelectNone(view.members[cursor..], subject);
    SelectConcat(view.members[..cursor], view.members[cursor..], subject);
    assert view.members == view.members[..cursor] + view.members[cursor..];
  }

  /** The hops of a path whose link belongs to domain d. */
  ghost function HopsIn(v: View, dv: DomainView, entries: seq<nat>, d: nat): set<nat>
    requires forall i :: 0 <= i < |entries| ==> entries[i] < |v.adjacency|
  {
    set i | 0 <= i < |entries| && d in dv.DomainsOf(ForLink(v.adjacency[entries[i]].link))
  }

  /** No failure domain appears on more than `limit` links; unknown membership fails when closed. */
  ghost predicate Compliant(v: View, dv: DomainView, entries: seq<nat>, limit: nat, failClosed: bool)
    requires forall i :: 0 <= i < |entries| ==> entries[i] < |v.adjacency|
  {
    && (failClosed ==> forall i :: 0 <= i < |entries| ==> dv.Known(ForLink(v.adjacency[entries[i]].link)))
    && forall d: nat :: |HopsIn(v, dv, entries, d)| <= limit
  }

  /** All memberships along a path, one after the other. */
  ghost function AllDomains(v: View, dv: DomainView, entries: seq<nat>): seq<nat>
    requires forall i :: 0 <= i < |entries| ==> entries[i] < |v.adjacency|
  {
    if entries == [] then []
    else AllDomains(v, dv, entries[..|entries| - 1]) + dv.DomainsOf(ForLink(v.adjacency[entries[|entries| - 1]].link))
  }

  lemma {:induction false} CountIsHops(v: View, dv: DomainView, entries: seq<nat>, d: nat)
    requires dv.Valid() && forall i :: 0 <= i < |entries| ==> entries[i] < |v.adjacency|
    ensures multiset(AllDomains(v, dv, entries))[d] == |HopsIn(v, dv, entries, d)|
  {
    if entries != [] {
      var n, front := |entries| - 1, entries[..|entries| - 1];
      var last := dv.DomainsOf(ForLink(v.adjacency[entries[n]].link));
      CountIsHops(v, dv, front, d);
      SelectAscending(dv.members, ForLink(v.adjacency[entries[n]].link));
      DistinctCount(last, d);
      assert multiset(AllDomains(v, dv, front) + last) == multiset(AllDomains(v, dv, front)) + multiset(last);
      HopsInStep(v, dv, entries, d);
    }
  }

  lemma HopsInStep(v: View, dv: DomainView, entries: seq<nat>, d: nat)
    requires entries != [] && forall i :: 0 <= i < |entries| ==> entries[i] < |v.adjacency|
    ensures var n := |entries| - 1;
      |HopsIn(v, dv, entries, d)| == |HopsIn(v, dv, entries[..n], d)| + (if d in dv.DomainsOf(ForLink(v.adjacency[entries[n]].link)) then 1 else 0)
  {
    hide DomainView.DomainsOf;
    var n := |entries| - 1;
    var x, y := HopsIn(v, dv, entries[..n], d), HopsIn(v, dv, entries, d);
    if d in dv.DomainsOf(ForLink(v.adjacency[entries[n]].link)) {
      assert y == x + {n};
    } else {
      assert y == x;
    }
  }

  lemma {:induction false} DistinctCount(s: seq<nat>, d: nat)
    requires Distinct(s)
    ensures multiset(s)[d] == if d in s then 1 else 0
  {
    if s != [] {
      var t: seq<nat> := s[..|s| - 1];
      DistinctCount(t, d);
      assert s == t + [s[|s| - 1]];
    }
  }

  datatype Count = Count(domain: nat, links: nat)

  /** The sorted counter vector holds exactly the counts of the multiset m. */
  ghost predicate Counts(counts: seq<Count>, m: multiset<nat>) {
    && (forall i, j :: 0 <= i < j < |counts| ==> counts[i].domain < counts[j].domain)
    && (forall i :: 0 <= i < |counts| ==> m[counts[i].domain] == counts[i].links > 0)
    && (forall d: nat :: d in m ==> Has(counts, d))
  }

  ghost predicate Has(counts: seq<Count>, d: nat) {
    exists i :: 0 <= i < |counts| && counts[i].domain == d
  }

  /** Adds one occurrence of a domain, inserting it where it belongs if it is new. */
  method Increment(counts: seq<Count>, d: nat, ghost m: multiset<nat>) returns (r: seq<Count>, links: nat)
    requires Counts(counts, m)
    ensures Counts(r, m + multiset{d}) && links == (m + multiset{d})[d]
  {
    var low, high := 0, |counts|;
    while low < high
      invariant 0 <= low <= high <= |counts|
      invariant forall i :: 0 <= i < low ==> counts[i].domain < d
      invariant forall i :: high <= i < |counts| ==> counts[i].domain >= d
    {
      var mid := low + (high - low) / 2;
      if counts[mid].domain < d {
        low := mid + 1;
      } else {
        high := mid;
      }
    }
    if low == |counts| || counts[low].domain != d {
      r := counts[..low] + [Count(d, 1)] + counts[low..];
      links := 1;
      InsertCounts(counts, d, m, low, r);
    } else {
      links := counts[low].links + 1;
      r := counts[low := Count(d, links)];
      BumpCounts(counts, d, m, low, r);
    }
  }

  lemma InsertCounts(counts: seq<Count>, d: nat, m: multiset<nat>, low: nat, r: seq<Count>)
    requires Counts(counts, m) && low <= |counts| && r == counts[..low] + [Count(d, 1)] + counts[low..]
    requires forall i :: 0 <= i < low ==> counts[i].domain < d
    requires forall i :: low <= i < |counts| ==> counts[i].domain > d
    ensures m[d] == 0 && Counts(r, m + multiset{d})
  {
    assert !Has(counts, d);
    forall x: nat | x == d || Has(counts, x) ensures Has(r, x) {
      InsertHas(counts, d, low, r, x);
    }
    InsertedCounts(counts, d, m, low, r);
  }

  lemma InsertedCounts(counts: seq<Count>, d: nat, m: multiset<nat>, low: nat, r: seq<Count>)
    requires Counts(counts, m) && low <= |counts| && |r| == |counts| + 1 && d !in m
    requires forall i :: 0 <= i < low ==> counts[i].domain < d
    requires forall i :: low <= i < |counts| ==> counts[i].domain > d
    requires forall i :: 0 <= i < low ==> r[i] == counts[i]
    requires r[low] == Count(d, 1)
    requires forall i :: low < i < |r| ==> r[i] == counts[i - 1]
    requires forall x: nat :: x == d || Has(counts, x) ==> Has(r, x)
    ensures Counts(r, m + multiset{d})
  {
    hide Has;
    var m' := m + multiset{d};
    forall i | 0 <= i < |r| ensures m'[r[i].domain] == r[i].links > 0 {
      if i < low {
        assert m[counts[i].domain] == counts[i].links && r[i] == counts[i];
        assert m'[counts[i].domain] == m[counts[i].domain];
      } else if i > low {
        assert m[counts[i - 1].domain] == counts[i - 1].links && r[i] == counts[i - 1];
        assert m'[counts[i - 1].domain] == m[counts[i - 1].domain];
      } else {
        assert r[i] == Count(d, 1) && m[d] == 0;
        assert m'[d] == 1;
      }
    }
    forall x: nat | x in m' ensures Has(r, x) {
      assert x == d || x in m;
    }
  }

  lemma InsertHas(counts: seq<Count>, d: nat, low: nat, r: seq<Count>, x: nat)
    requires low <= |counts| && r == counts[..low] + [Count(d, 1)] + counts[low..]
    ensures x == d || Has(counts, x) ==> Has(r, x)
  {
    if x == d {
      assert r[low].domain == x;
    } else if Has(counts, x) {
      var i :| 0 <= i < |counts| && counts[i].domain == x;
      assert r[if i < low then i else i + 1].domain == x;
    }
  }

  lemma BumpCounts(counts: seq<Count>, d: nat, m: multiset<nat>, low: nat, r: seq<Count>)
    requires Counts(counts, m) && low < |counts| && counts[low].domain == d && r == counts[low := Count(d, counts[low].links + 1)]
    ensures m[d] == counts[low].links && Counts(r, m + multiset{d})
  {
    forall x: nat | x in m + multiset{d} ensures Has(r, x) {
      assert x in m && Has(counts, x);
      var i :| 0 <= i < |counts| && counts[i].domain == x;
      assert r[i].domain == x;
    }
  }

  ghost predicate Within(m: multiset<nat>, limit: nat) {
    forall d: nat :: m[d] <= limit
  }

  method MemberLimitCompliant(v: View, dv: DomainView, raw: RawPath, limit: nat, failClosed: bool) returns (ok: bool)
    requires v.Valid() && dv.Valid()
    requires forall i :: 0 <= i < |raw.adjacency| ==> raw.adjacency[i] < |v.adjacency|
    ensures ok <==> Compliant(v, dv, raw.adjacency, limit, failClosed)
  {
    hide View.Valid, Counts, DomainView.DomainsOf, DomainView.Known, DomainView.Valid, Within, Compliant, AllDomains, HopsIn, ForLink;
    var entries := raw.adjacency;
    if |entries| == 0 {
      EmptyCompliant(v, dv, entries, limit, failClosed);
      return true;
    }
    var counts: seq<Count> := [];
    NoCounts(v, dv, entries, limit);
    for h := 0 to |entries|
      invariant Counts(counts, multiset(AllDomains(v, dv, entries[..h])))
      invariant Within(multiset(AllDomains(v, dv, entries[..h])), limit)
      invariant failClosed ==> forall i :: 0 <= i < h ==> dv.Known(ForLink(v.adjacency[entries[i]].link))
    {
      var membership := MembershipOf(dv, ForLink(v.adjacency[entries[h]].link));
      AllDomainsStep(v, dv, entries, h);
      if !membership.known && failClosed {
        UnknownNotCompliant(v, dv, entries, h, limit);
        return false;
      }
      var within;
      ghost var d;
      ghost var k;
      counts, within, d, k := AddDomains(counts, membership.domains, limit, AllDomains(v, dv, entries[..h]));
      if !within {
        PartExceeds(v, dv, entries, h + 1, AllDomains(v, dv, entries[..h]) + membership.domains[..k], membership.domains[k..], d, limit);
        NotCompliant(v, dv, entries, d, limit, failClosed);
        return false;
      }
    }
    assert entries[..|entries|] == entries;
    AllWithin(v, dv, entries, limit, failClosed);
    ok := true;
  }

  /** Counts the domains of one link; stops at the first count above the limit. */
  method AddDomains(counts0: seq<Count>, domains: seq<nat>, limit: nat, ghost before: seq<nat>)
    returns (counts: seq<Count>, within: bool, ghost d: nat, ghost k: nat)
    requires Counts(counts0, multiset(before)) && Within(multiset(before), limit)
    ensures within ==> Counts(counts, multiset(before + domains)) && Within(multiset(before + domains), limit)
    ensures !within ==> k <= |domains| && multiset(before + domains[..k])[d] > limit
  {
    hide Counts;
    counts, within, d, k := counts0, true, 0, 0;
    assert before + domains[..0] == before;
    for i := 0 to |domains|
      invariant Counts(counts, multiset(before + domains[..i]))
      invariant Within(multiset(before + domains[..i]), limit)
      invariant within
    {
      assert before + domains[..i + 1] == (before + domains[..i]) + [domains[i]];
      ghost var m := multiset(before + domains[..i]);
      var links;
      counts, links := Increment(counts, domains[i], m);
      assert multiset(before + domains[..i + 1]) == m + multiset{domains[i]};
      if links > limit {
        within, d, k := false, domains[i], i + 1;
        return;
      }
    }
    assert domains[..|domains|] == domains;
  }

  lemma AllDomainsStep(v: View, dv: DomainView, entries: seq<nat>, h: nat)
    requires h < |entries| && forall i :: 0 <= i < |entries| ==> entries[i] < |v.adjacency|
    ensures AllDomains(v, dv, entries[..h + 1]) == AllDomains(v, dv, entries[..h]) + dv.DomainsOf(ForLink(v.adjacency[entries[h]].link))
  {
    assert entries[..h + 1][..h] == entries[..h];
  }

  lemma UnknownNotCompliant(v: View, dv: DomainView, entries: seq<nat>, h: nat, limit: nat)
    requires h < |entries| && forall i :: 0 <= i < |entries| ==> entries[i] < |v.adjacency|
    requires !dv.Known(ForLink(v.adjacency[entries[h]].link))
    ensures !Compliant(v, dv, entries, limit, true)
  {
    hide DomainView.Known, HopsIn;
  }

  lemma NoCounts(v: View, dv: DomainView, entries: seq<nat>, limit: nat)
    requires forall i :: 0 <= i < |entries| ==> entries[i] < |v.adjacency|
    ensures Counts([], multiset(AllDomains(v, dv, entries[..0]))) && Within(multiset(AllDomains(v, dv, entries[..0])), limit)
  {
  }

  lemma EmptyCompliant(v: View, dv: DomainView, entries: seq<nat>, limit: nat, failClosed: bool)
    requires entries == []
    ensures Compliant(v, dv, entries, limit, failClosed)
  {
    forall d: nat ensures |HopsIn(v, dv, entries, d)| <= limit {
      assert HopsIn(v, dv, entries, d) == {};
    }
  }

  lemma AllWithin(v: View, dv: DomainView, entries: seq<nat>, limit: nat, failClosed: bool)
    requires dv.Valid() && forall i :: 0 <= i < |entries| ==> entries[i] < |v.adjacency|
    requires Within(multiset(AllDomains(v, dv, entries)), limit)
    requires failClosed ==> forall i :: 0 <= i < |entries| ==> dv.Known(ForLink(v.adjacency[entries[i]].link))
    ensures Compliant(v, dv, entries, limit, failClosed)
  {
    hide DomainView.Valid, DomainView.Known, HopsIn, AllDomains;
    forall d: nat ensures |HopsIn(v, dv, entries, d)| <= limit {
      CountIsHops(v, dv, entries, d);
    }
  }

  lemma {:induction false} AllDomainsGrow(v: View, dv: DomainView, entries: seq<nat>, k: nat, d: nat)
    requires k <= |entries| && forall i :: 0 <= i < |entries| ==> entries[i] < |v.adjacency|
    ensures multiset(AllDomains(v, dv, entries[..k]))[d] <= multiset(AllDomains(v, dv, entries))[d]
    decreases |entries| - k
  {
    if k < |entries| {
      assert entries[..k + 1][..k] == entries[..k];
      AllDomainsGrow(v, dv, entries, k + 1, d);
    } else {
      assert entries[..k] == entries;
    }
  }

  /** A counter above the limit stays above it for the whole path. */
  lemma PartExceeds(v: View, dv: DomainView, entries: seq<nat>, k: nat, x: seq<nat>, y: seq<nat>, d: nat, limit: nat)
    requires dv.Valid() && k <= |entries| && forall i :: 0 <= i < |entries| ==> entries[i] < |v.adjacency|
    requires AllDomains(v, dv, entries[..k]) == x + y && multiset(x)[d] > limit
    ensures |HopsIn(v, dv, entries, d)| > limit
  {
    assert multiset(x + y) == multiset(x) + multiset(y);
    AllDomainsGrow(v, dv, entries, k, d);
    CountIsHops(v, dv, entries, d);
  }

  lemma NotCompliant(v: View, dv: DomainView, entries: seq<nat>, d: nat, limit: nat, failClosed: bool)
    requires forall i :: 0 <= i < |entries| ==> entries[i] < |v.adjacency|
    requires |HopsIn(v, dv, entries, d)| > limit
    ensures !Compliant(v, dv, entries, limit, failClosed)
  {
  }
}
