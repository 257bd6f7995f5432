/** The library operations std::sort, std::unique, std::adjacent_find and std::binary_search on
    vectors of identities. */
module Sorting {
  import opened Counting

  ghost predicate Ascending(s: seq<nat>) {
    forall i, j :: 0 <= i < j < |s| ==> s[i] <= s[j]
  }

  ghost predicate StrictlyAscending(s: seq<nat>) {
    forall i, j :: 0 <= i < j < |s| ==> s[i] < s[j]
  }

  function Insert(x: nat, s: seq<nat>): seq<nat> {
    if s == [] || x <= s[0] then [x] + s else [s[0]] + Insert(x, s[1..])
  }

  lemma {:induction false} InsertContents(x: nat, s: seq<nat>)
    ensures multiset(Insert(x, s)) == multiset(s) + multiset{x}
  {
    if s != [] && x > s[0] {
      InsertContents(x, s[1..]);
      assert s == [s[0]] + s[1..];
    }
  }

  lemma {:induction false} InsertAscending(x: nat, s: seq<nat>)
    requires Ascending(s)
    ensures Ascending(Insert(x, s))
  {
    if s != [] && x > s[0] {
      var t := Insert(x, s[1..]);
      InsertAscending(x, s[1..]);
      InsertContents(x, s[1..]);
      forall y: nat | y in t ensures s[0] <= y {
        assert y in multiset(t);
        assert y == x || y in s[1..];
      }
      forall i | 0 <= i < |t| ensures s[0] <= t[i] {
        assert t[i] in t;
      }
    }
  }

  function Sort(s: seq<nat>): (r: seq<nat>)
    ensures Ascending(r) && multiset(r) == multiset(s)
  {
    if s == [] then [] else
      assert s == [s[0]] + s[1..];
      InsertContents(s[0], Sort(s[1..]));
      InsertAscending(s[0], Sort(s[1..]));
      Insert(s[0], Sort(s[1..]))
  }

  lemma SortMembers(s: seq<nat>)
    ensures |Sort(s)| == |s|
    ensures forall x: nat :: x in Sort(s) <==> x in s
  {
    var r := Sort(s);
    assert |r| == |multiset(r)| == |multiset(s)| == |s|;
    forall x: nat ensures x in r <==> x in s {
      assert x in r <==> x in multiset(r);
      assert x in s <==> x in multiset(s);
    }
  }

  /** A sequence has no repetition exactly when its multiset counts nothing twice. */
  lemma {:induction false} DistinctIffCounts(s: seq<nat>)
    ensures Distinct(s) <==> forall x: nat :: multiset(s)[x] <= 1
  {
    if s != [] {
      var t: seq<nat>, y: nat := s[..|s| - 1], s[|s| - 1];
      assert s == t + [y];
      DistinctIffCounts(t);
      assert multiset(s) == multiset(t) + multiset{y};
      if Distinct(s) {
        assert y !in t;
      }
      if forall x: nat :: multiset(s)[x] <= 1 {
        assert multiset(s)[y] <= 1;
        assert y !in t;
        forall x: nat ensures multiset(t)[x] <= 1 {
          assert multiset(s)[x] <= 1;
        }
        assert Distinct(t);
      }
    }
  }

  lemma SortedDistinct(s: seq<nat>)
    ensures Distinct(s) <==> Distinct(Sort(s))
  {
    hide Sort;
    DistinctIffCounts(s);
    DistinctIffCounts(Sort(s));
  }

  /** Sort, then look for two equal neighbours. */
  method AllDistinct(s: seq<nat>) returns (b: bool)
    ensures b <==> Distinct(s)
  {
    hide Sort;
    var sorted := Sort(s);
    SortedDistinct(s);
    var i := 1;
    while i < |sorted|
      invariant 1 <= i
      invariant forall j, k :: 0 <= j < k < i && k < |sorted| ==> sorted[j] < sorted[k]
    {
      if sorted[i - 1] == sorted[i] {
        return false;
      }
      assert sorted[i - 1] < sorted[i];
      i := i + 1;
    }
    b := true;
  }

  /** Sort, then drop repetitions. */
  method SortUnique(s: seq<nat>) returns (r: seq<nat>)
    ensures StrictlyAscending(r)
    ensures forall x: nat :: x in r <==> x in s
  {
    hide Sort;
    var sorted := Sort(s);
    SortMembers(s);
    r := [];
    for i := 0 to |sorted|
      invariant StrictlyAscending(r)
      invariant forall x: nat :: x in r <==> x in sorted[..i]
      invariant r != [] ==> i > 0 && r[|r| - 1] == sorted[i - 1]
      invariant i > 0 ==> r != []
    {
      if r == [] || r[|r| - 1] != sorted[i] {
        r := r + [sorted[i]];
      }
    }
    assert sorted[..|sorted|] == sorted;
  }

  method BinarySearch(s: seq<nat>, x: nat) returns (b: bool)
    requires Ascending(s)
    ensures b <==> x in s
  {
    var low, high := 0, |s|;
    while low < high
      invariant 0 <= low <= high <= |s|
      invariant forall i :: 0 <= i < low ==> s[i] < x
      invariant forall i :: high <= i < |s| ==> s[i] >= x
    {
      var mid := low + (high - low) / 2;
      if s[mid] < x {
        low := mid + 1;
      } else {
        high := mid;
      }
    }
    b := low < |s| && s[low] == x;
  }
}
