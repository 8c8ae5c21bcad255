/** The running product the C++ core computes in several loops
    (`Shape::num_elements`, `NumDevices`, `Array::size`), defined once as
    the product of a sequence taken from left to right. */
module Products {

  function Product(xs: seq<int>): int
  {
    if xs == [] then 1 else Product(xs[..|xs| - 1]) * xs[|xs| - 1]
  }

  /** The product of a prefix extended by one element. */
  lemma ProductSnoc(xs: seq<int>, i: nat)
    requires i < |xs|
    ensures Product(xs[..i + 1]) == Product(xs[..i]) * xs[i]
  {
    assert xs[..i + 1][..i] == xs[..i];
  }

  /** Peeling the first factor instead of the last. */
  lemma {:induction false} ProductFront(xs: seq<int>)
    requires |xs| > 0
    ensures Product(xs) == xs[0] * Product(xs[1..])
    decreases |xs|
  {
    if |xs| > 1 {
      ProductFront(xs[..|xs| - 1]);
      assert xs[..|xs| - 1][1..] == xs[1..][..|xs[1..]| - 1];
    }
  }

  /** A product is zero exactly when some factor is zero. */
  lemma {:induction false} ProductZero(xs: seq<int>)
    ensures Product(xs) == 0 <==> exists k :: 0 <= k < |xs| && xs[k] == 0
    decreases |xs|
  {
    if xs != [] {
      var init := xs[..|xs| - 1];
      ProductZero(init);
      if exists k :: 0 <= k < |xs| && xs[k] == 0 {
        var k :| 0 <= k < |xs| && xs[k] == 0;
        if k < |xs| - 1 { assert init[k] == 0; }
      } else {
        assert forall k :: 0 <= k < |init| ==> init[k] == xs[k];
      }
    }
  }

  /** Positive factors give a positive product, at least as large as any
      single factor. */
  lemma {:induction false} ProductPositive(xs: seq<int>)
    requires forall k :: 0 <= k < |xs| ==> xs[k] > 0
    ensures Product(xs) >= 1
    ensures forall k :: 0 <= k < |xs| ==> xs[k] <= Product(xs)
    decreases |xs|
  {
    if xs != [] {
      var init := xs[..|xs| - 1];
      ProductPositive(init);
      var p := Product(init);
      var last := xs[|xs| - 1];
      assert p * last >= p && p * last >= last by {
        assert p * last == p * (last - 1) + p;
        assert p * last == (p - 1) * last + last;
        assert p * (last - 1) >= 0 && (p - 1) * last >= 0;
      }
      forall k | 0 <= k < |xs| ensures xs[k] <= Product(xs) {
        if k < |xs| - 1 { assert init[k] == xs[k]; }
      }
    }
  }
}
