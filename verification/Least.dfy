/** Every question a search is asked has an answer: among eligible walks there is a first one. */
module Least {
  import opened Counting
  import opened View
  import opened Order
  import opened Search

  /** The number a sequence of digits spells. */
  ghost function Spelled(s: seq<nat>, base: nat): nat {
    if s == [] then 0 else Spelled(s[..|s| - 1], base) * base + s[|s| - 1]
  }

  lemma {:induction false} LexIsSmaller(a: seq<nat>, b: seq<nat>, base: nat)
    requires |a| == |b| && LexLess(a, b) && forall i :: 0 <= i < |a| ==> a[i] < base
    ensures Spelled(a, base) < Spelled(b, base)
  {
    var k: nat :| DiffersAt(a, b, k);
    var n := |a| - 1;
    if k == n {
      assert a[..n] == b[..n];
    } else {
      assert DiffersAt(a[..n], b[..n], k);
      LexIsSmaller(a[..n], b[..n], base);
      var x, y := Spelled(a[..n], base), Spelled(b[..n], base);
      OneDigitMore(x, y, base);
    }
  }

  lemma OneDigitMore(x: nat, y: nat, base: nat)
    requires x < y
    ensures x * base + base <= y * base
  {
    assert (x + 1) * base <= y * base;
  }

  /** The measure that falls from a walk to one that comes before it. */
  lemma BeforeIsSmaller(v: View, r: RawPath, q: RawPath)
    requires v.Valid() && IsWalk(v, r) && IsWalk(v, q) && Before(v, r, q) && Cost(v, r.adjacency) == Cost(v, q.adjacency) && r.Hops() == q.Hops()
    ensures Spelled(r.nodes, v.NodeCount()) < Spelled(q.nodes, v.NodeCount()) ||
      (r.nodes == q.nodes && Spelled(r.adjacency, |v.adjacency|) < Spelled(q.adjacency, |v.adjacency|))
  {
    forall i | 0 <= i < |r.adjacency| ensures r.adjacency[i] < |v.adjacency| {
      SliceFacts(v, r.nodes[i], r.adjacency[i]);
    }
    hide View.Valid, LexLess;
    if LexLess(r.nodes, q.nodes) {
      LexIsSmaller(r.nodes, q.nodes, v.NodeCount());
    } else {
      LexIsSmaller(r.adjacency, q.adjacency, |v.adjacency|);
    }
  }

  /** From an eligible walk down to the first one. */
  lemma {:induction false} LeastEligible(v: View, s: nat, d: nat, bound: nat, bans: Bans, q: RawPath) returns (g: RawPath)
    requires v.Valid() && Eligible(v, s, d, bound, bans, q)
    ensures Eligible(v, s, d, bound, bans, g) && forall r :: Eligible(v, s, d, bound, bans, r) ==> NotAfter(v, g, r)
    decreases Cost(v, q.adjacency), q.Hops(), Spelled(q.nodes, v.NodeCount()), Spelled(q.adjacency, |v.adjacency|)
  {
    hide View.Valid, Avoids;
    if r :| Eligible(v, s, d, bound, bans, r) && Before(v, r, q) {
      if Cost(v, r.adjacency) == Cost(v, q.adjacency) && r.Hops() == q.Hops() {
        BeforeIsSmaller(v, r, q);
      }
      g := LeastEligible(v, s, d, bound, bans, r);
    } else {
      g := q;
      forall r | Eligible(v, s, d, bound, bans, r) ensures NotAfter(v, g, r) {
        BeforeTotal(v, g, r);
      }
    }
  }

  /** Where there is an eligible walk, there is a canonical answer. */
  lemma AnswerExists(v: View, s: nat, d: nat, bound: nat, bans: Bans, q: RawPath) returns (g: RawPath)
    requires v.Valid() && Eligible(v, s, d, bound, bans, q)
    ensures CanonicalAnswer(v, s, d, bound, bans, true, g)
  {
    hide View.Valid, Avoids;
    g := LeastEligible(v, s, d, bound, bans, q);
    var r := SimplestVersion(v, s, d, bans, g);
    assert Eligible(v, s, d, bound, bans, r);
    if r != g {
      BeforeAsymmetric(v, r, g);
    }
  }
}
