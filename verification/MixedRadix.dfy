/** Numbering of the combinations of a list of choices, most significant choice first
    (src/search.cpp, the required-transit part of EnumerateCandidatePaths). */
module MixedRadix {

  ghost predicate AllPositive(sizes: seq<nat>) {
    forall i :: 0 <= i < |sizes| ==> sizes[i] > 0
  }

  function Product(sizes: seq<nat>): nat {
    if sizes == [] then 1 else Product(sizes[..|sizes| - 1]) * sizes[|sizes| - 1]
  }

  /** One choice out of every list. */
  predicate Selects(sizes: seq<nat>, selection: seq<nat>) {
    |selection| == |sizes| && forall i :: 0 <= i < |sizes| ==> selection[i] < sizes[i]
  }

  function Number(sizes: seq<nat>, selection: seq<nat>): nat
    requires |selection| == |sizes|
  {
    if sizes == [] then 0 else
      var n := |sizes| - 1;
      Number(sizes[..n], selection[..n]) * sizes[n] + selection[n]
  }

  ghost function Digits(sizes: seq<nat>, c: nat): seq<nat>
    requires AllPositive(sizes)
  {
    if sizes == [] then [] else
      var n := |sizes| - 1;
      Digits(sizes[..n], c / sizes[n]) + [c % sizes[n]]
  }

  /** Every selection is met under its number ... */
  lemma {:induction false} DigitsOfNumber(sizes: seq<nat>, selection: seq<nat>)
    requires AllPositive(sizes) && Selects(sizes, selection)
    ensures Number(sizes, selection) < Product(sizes) && Digits(sizes, Number(sizes, selection)) == selection
  {
    if sizes != [] {
      var n := |sizes| - 1;
      var x, p, k := Number(sizes[..n], selection[..n]), Product(sizes[..n]), sizes[n];
      DigitsOfNumber(sizes[..n], selection[..n]);
      QuotientRemainder(x, k, selection[n]);
      assert (x + 1) * k <= p * k by {
        ScaleMonotone(x + 1, p, k);
      }
      assert (x + 1) * k == x * k + k;
      assert selection == selection[..n] + [selection[n]];
    }
  }

  /** ... and under no other number. */
  lemma {:induction false} NumberOfDigits(sizes: seq<nat>, c: nat)
    requires AllPositive(sizes) && c < Product(sizes)
    ensures Selects(sizes, Digits(sizes, c)) && Number(sizes, Digits(sizes, c)) == c
  {
    if sizes != [] {
      var n := |sizes| - 1;
      var p, k := Product(sizes[..n]), sizes[n];
      QuotientTest(p, k, c);
      NumberOfDigits(sizes[..n], c / k);
      var d := Digits(sizes, c);
      assert d[..n] == Digits(sizes[..n], c / k);
    }
  }

  lemma ScaleMonotone(x: nat, y: nat, k: nat)
    requires x <= y
    ensures x * k <= y * k
  {
  }

  lemma QuotientRemainder(x: nat, k: nat, r: nat)
    requires r < k
    ensures (x * k + r) / k == x && (x * k + r) % k == r
  {
    var c := x * k + r;
    QuotientTest(x, k, c);
    QuotientTest(x + 1, k, c);
    assert (x + 1) * k == x * k + k;
    assert c == c / k * k + c % k;
  }

  /** Decodes a combination number from the least significant choice upwards. */
  method Selection(sizes: seq<nat>, combination: nat) returns (selection: seq<nat>)
    requires AllPositive(sizes)
    ensures selection == Digits(sizes, combination)
  {
    selection := seq(|sizes|, i => 0);
    var remainder, index := combination, |sizes|;
    assert sizes[..|sizes|] == sizes;
    while index > 0
      invariant 0 <= index <= |sizes| == |selection|
      invariant Digits(sizes, combination) == Digits(sizes[..index], remainder) + selection[index..]
    {
      index := index - 1;
      assert sizes[..index + 1][..index] == sizes[..index];
      ghost var done := selection[index + 1..];
      var digit := remainder % sizes[index];
      selection := selection[index := digit];
      assert selection[index..] == [digit] + done;
      remainder := remainder / sizes[index];
    }
    assert sizes[..0] == [] && selection[0..] == selection;
  }

  /** A product of positive sizes does not shrink when further sizes are multiplied in. */
  lemma {:induction false} ProductGrows(sizes: seq<nat>, i: nat)
    requires AllPositive(sizes) && i <= |sizes|
    ensures 0 < Product(sizes[..i]) <= Product(sizes)
    decreases |sizes|
  {
    if i == |sizes| {
      assert sizes[..i] == sizes;
      if i > 0 {
        ProductGrows(sizes[..i - 1], i - 1);
        assert sizes[..i - 1][..i - 1] == sizes[..i - 1];
        var p, k := Product(sizes[..i - 1]), sizes[i - 1];
        ScaleMonotone(1, k, p);
        assert p * k == k * p;
      }
    } else {
      var n := |sizes| - 1;
      ProductGrows(sizes[..n], i);
      assert sizes[..n][..i] == sizes[..i];
      ScaleMonotone(1, sizes[n], Product(sizes[..n]));
      assert Product(sizes[..n]) * sizes[n] == sizes[n] * Product(sizes[..n]);
    }
  }

  /** The overflow-safe test: p * k exceeds a limit exactly when p exceeds limit / k. */
  lemma QuotientTest(p: nat, k: nat, limit: nat)
    requires k > 0
    ensures p > limit / k <==> p * k > limit
  {
    var q := limit / k;
    assert limit == q * k + limit % k;
    if p > q {
      ScaleMonotone(q + 1, p, k);
      assert (q + 1) * k == q * k + k;
    } else {
      ScaleMonotone(p, q, k);
    }
  }
}
