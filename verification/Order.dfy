/** The canonical order: total cost, then hop count, then node sequence, then link sequence. */
module Order {
  import opened View

  ghost predicate DiffersAt(a: seq<nat>, b: seq<nat>, k: nat) {
    k <= |a| && k < |b| && (forall i :: 0 <= i < k ==> a[i] == b[i]) && (k == |a| || a[k] < b[k])
  }

  /** Strict lexicographic order; a proper prefix comes first. */
  ghost predicate LexLess(a: seq<nat>, b: seq<nat>) {
    exists k: nat :: DiffersAt(a, b, k)
  }

  lemma LexAsymmetric(a: seq<nat>, b: seq<nat>)
    requires LexLess(a, b)
    ensures !LexLess(b, a)
  {
  }

  lemma LexTransitive(a: seq<nat>, b: seq<nat>, c: seq<nat>)
    requires LexLess(a, b) && LexLess(b, c)
    ensures LexLess(a, c)
  {
    var k: nat :| DiffersAt(a, b, k);
    var l: nat :| DiffersAt(b, c, l);
    var m := if k < l then k else l;
    assert DiffersAt(a, c, m);
  }

  lemma {:induction false} LexTotal(a: seq<nat>, b: seq<nat>)
    ensures a == b || LexLess(a, b) || LexLess(b, a)
  {
    var k := 0;
    while k < |a| && k < |b| && a[k] == b[k]
      invariant k <= |a| && k <= |b| && (forall i :: 0 <= i < k ==> a[i] == b[i])
    {
      k := k + 1;
    }
    if k < |b| && (k == |a| || a[k] < b[k]) {
      assert DiffersAt(a, b, k);
    } else if k < |a| {
      assert DiffersAt(b, a, k);
    } else {
      assert a == b;
    }
  }

  lemma LexPrefix(r: seq<nat>, a: seq<nat>, b: seq<nat>)
    ensures LexLess(r + a, r + b) <==> LexLess(a, b)
  {
    if LexLess(a, b) {
      var k: nat :| DiffersAt(a, b, k);
      assert DiffersAt(r + a, r + b, |r| + k);
    }
    if LexLess(r + a, r + b) {
      var k: nat :| DiffersAt(r + a, r + b, k);
      var l := k - |r|;
      forall i | 0 <= i < l ensures a[i] == b[i] {
        assert a[i] == (r + a)[|r| + i] && b[i] == (r + b)[|r| + i];
      }
      assert DiffersAt(a, b, l);
    }
  }

  ghost predicate Before(v: View, p: RawPath, q: RawPath) {
    var cp, cq := Cost(v, p.adjacency), Cost(v, q.adjacency);
    cp < cq || (cp == cq && (p.Hops() < q.Hops() || (p.Hops() == q.Hops() &&
      (LexLess(p.nodes, q.nodes) || (p.nodes == q.nodes && LexLess(p.adjacency, q.adjacency))))))
  }

  ghost predicate NotAfter(v: View, p: RawPath, q: RawPath) {
    p == q || Before(v, p, q)
  }

  lemma BeforeAsymmetric(v: View, p: RawPath, q: RawPath)
    requires Before(v, p, q)
    ensures !Before(v, q, p) && p != q
  {
    forall a: seq<nat>, b: seq<nat> | LexLess(a, b) ensures !LexLess(b, a) && a != b {
      LexAsymmetric(a, b);
    }
  }

  lemma BeforeTransitive(v: View, p: RawPath, q: RawPath, r: RawPath)
    requires Before(v, p, q) && Before(v, q, r)
    ensures Before(v, p, r)
  {
    if LexLess(p.nodes, q.nodes) && LexLess(q.nodes, r.nodes) {
      LexTransitive(p.nodes, q.nodes, r.nodes);
    }
    if LexLess(p.adjacency, q.adjacency) && LexLess(q.adjacency, r.adjacency) {
      LexTransitive(p.adjacency, q.adjacency, r.adjacency);
    }
  }

  lemma NotAfterTransitive(v: View, p: RawPath, q: RawPath, r: RawPath)
    requires NotAfter(v, p, q) && NotAfter(v, q, r)
    ensures NotAfter(v, p, r)
    ensures p != q || q != r ==> Before(v, p, r)
  {
    if p != q && q != r {
      BeforeTransitive(v, p, q, r);
    }
  }

  lemma BeforeTotal(v: View, p: RawPath, q: RawPath)
    ensures p == q || Before(v, p, q) || Before(v, q, p)
  {
    LexTotal(p.nodes, q.nodes);
    LexTotal(p.adjacency, q.adjacency);
  }

  /** A common root can be cancelled from both sides of a comparison. */
  lemma BeforeJoin(v: View, root: RawPath, g: RawPath, h: RawPath)
    requires |g.nodes| > 0 && |h.nodes| > 0 && g.nodes[0] == h.nodes[0]
    ensures Before(v, Join(root, g), Join(root, h)) <==> Before(v, g, h)
  {
    CostConcat(v, root.adjacency, g.adjacency);
    CostConcat(v, root.adjacency, h.adjacency);
    LexPrefix(root.adjacency, g.adjacency, h.adjacency);
    LexPrefix(root.nodes, g.nodes[1..], h.nodes[1..]);
    LexPrefix([g.nodes[0]], g.nodes[1..], h.nodes[1..]);
    assert g.nodes == [g.nodes[0]] + g.nodes[1..];
    assert h.nodes == [g.nodes[0]] + h.nodes[1..];
    var jg, jh := Join(root, g), Join(root, h);
    assert jg.nodes[|root.nodes|..] == g.nodes[1..] && jh.nodes[|root.nodes|..] == h.nodes[1..];
    assert jg.adjacency[|root.adjacency|..] == g.adjacency && jh.adjacency[|root.adjacency|..] == h.adjacency;
  }

  lemma NotAfterJoin(v: View, root: RawPath, g: RawPath, h: RawPath)
    requires |g.nodes| > 0 && |h.nodes| > 0 && g.nodes[0] == h.nodes[0]
    requires NotAfter(v, g, h)
    ensures NotAfter(v, Join(root, g), Join(root, h))
    ensures g != h ==> Before(v, Join(root, g), Join(root, h))
  {
    BeforeJoin(v, root, g, h);
  }

  /** The canonical answer of a search: nothing eligible, or the one eligible path before all others. */
  ghost predicate CanonicalAnswer(v: View, s: nat, d: nat, bound: nat, bans: Bans, found: bool, path: RawPath) {
    if found then
      && Eligible(v, s, d, bound, bans, path)
      && Simple(path)
      && forall q :: Eligible(v, s, d, bound, bans, q) ==> NotAfter(v, path, q)
    else
      forall q :: !Eligible(v, s, d, bound, bans, q)
  }

  /** Two answers to the same question are the same answer. */
  lemma AnswerUnique(v: View, s: nat, d: nat, bound: nat, bans: Bans, f1: bool, p1: RawPath, f2: bool, p2: RawPath)
    requires CanonicalAnswer(v, s, d, bound, bans, f1, p1)
    requires CanonicalAnswer(v, s, d, bound, bans, f2, p2)
    ensures f1 == f2 && (f1 ==> p1 == p2)
  {
    if f1 && f2 && p1 != p2 {
      assert Before(v, p1, p2) && Before(v, p2, p1);
      BeforeAsymmetric(v, p1, p2);
    }
  }
}
