/** `xftcpp::Index` (xftcpp/src/index.h): a multi-dimensional integer index
    with element-wise arithmetic. `Index` is a C++ value type, so it is a
    Dafny datatype; a compound assignment `i += off` replaces the whole value
    of `i` and is modelled as rebinding `i` to the operator's result. */
module XftIndex {
  import opened Text

  /** Element-wise sum, the reference meaning of `operator+`. */
  function Plus(a: seq<int>, b: seq<int>): (r: seq<int>)
    requires |a| == |b|
    ensures |r| == |a|
    ensures forall k :: 0 <= k < |a| ==> r[k] == a[k] + b[k]
  {
    if a == [] then [] else [a[0] + b[0]] + Plus(a[1..], b[1..])
  }

  /** Element-wise difference, the reference meaning of `operator-`. */
  function Minus(a: seq<int>, b: seq<int>): (r: seq<int>)
    requires |a| == |b|
    ensures |r| == |a|
    ensures forall k :: 0 <= k < |a| ==> r[k] == a[k] - b[k]
  {
    if a == [] then [] else [a[0] - b[0]] + Minus(a[1..], b[1..])
  }

  /** Element-wise product, the reference meaning of `operator*`. */
  function Times(a: seq<int>, m: seq<int>): (r: seq<int>)
    requires |a| == |m|
    ensures |r| == |a|
    ensures forall k :: 0 <= k < |a| ==> r[k] == a[k] * m[k]
  {
    if a == [] then [] else [a[0] * m[0]] + Times(a[1..], m[1..])
  }

  /** Subtracting an offset undoes adding it, and adding undoes subtracting. */
  lemma PlusMinusInverse(a: seq<int>, off: seq<int>)
    requires |a| == |off|
    ensures Minus(Plus(a, off), off) == a
    ensures Plus(Minus(a, off), off) == a
  {
    var p, m := Plus(a, off), Minus(a, off);
    assert forall k :: 0 <= k < |a| ==> Minus(p, off)[k] == a[k];
    assert forall k :: 0 <= k < |a| ==> Plus(m, off)[k] == a[k];
  }

  /** Subtracting is adding the negated offset. */
  lemma MinusIsPlusNegated(a: seq<int>, off: seq<int>)
    requires |a| == |off|
    ensures Minus(a, off) == Plus(a, Times(off, seq(|off|, k => -1)))
  {
  }

  /** Three-element sequences are equal when their elements are. */
  lemma SameTriple(r: seq<int>, x: int, y: int, z: int)
    requires |r| == 3 && r[0] == x && r[1] == y && r[2] == z
    ensures r == [x, y, z]
  {
  }

  /** The examples of the operator comments. */
  lemma OperatorExamples()
    ensures Plus([1, 2, 3], [10, 20, 30]) == [11, 22, 33]
    ensures Minus([11, 22, 33], [10, 20, 30]) == [1, 2, 3]
    ensures Times([2, 3, 4], [10, 100, 1000]) == [20, 300, 4000]
  {
    PlusExample();
    MinusExample();
    TimesExample();
  }

  lemma PlusExample()
    ensures Plus([1, 2, 3], [10, 20, 30]) == [11, 22, 33]
  {
    SameTriple(Plus([1, 2, 3], [10, 20, 30]), 11, 22, 33);
  }

  lemma MinusExample()
    ensures Minus([11, 22, 33], [10, 20, 30]) == [1, 2, 3]
  {
    SameTriple(Minus([11, 22, 33], [10, 20, 30]), 1, 2, 3);
  }

  lemma TimesExample()
    ensures Times([2, 3, 4], [10, 100, 1000]) == [20, 300, 4000]
  {
    SameTriple(Times([2, 3, 4], [10, 100, 1000]), 20, 300, 4000);
  }

  datatype Index = Index(elements: seq<int>)
  {
    /** `Index::Zeros(n)`. */
    static function Zeros(n: nat): (r: Index)
      ensures |r.elements| == n
      ensures forall k :: 0 <= k < n ==> r.elements[k] == 0
    {
      Index(seq(n, k => 0))
    }

    function Arity(): nat { |elements| }

    /** `operator+`: copies the index and adds the offset element by element.
        Equal arity is a CHECK in the source, so it is a precondition. */
    method Add(offset: Index) returns (r: Index)
      requires Arity() == offset.Arity()
      ensures r.elements == Plus(elements, offset.elements)
    {
      var result := elements;
      var i := 0;
      while i < |elements|
        invariant 0 <= i <= |elements| && |result| == |elements|
        invariant forall k :: 0 <= k < i ==> result[k] == elements[k] + offset.elements[k]
        invariant forall k :: i <= k < |elements| ==> result[k] == elements[k]
      {
        result := result[i := result[i] + offset.elements[i]];
        i := i + 1;
      }
      r := Index(result);
    }

    /** `operator-`. */
    method Sub(offset: Index) returns (r: Index)
      requires Arity() == offset.Arity()
      ensures r.elements == Minus(elements, offset.elements)
    {
      var result := elements;
      var i := 0;
      while i < |elements|
        invariant 0 <= i <= |elements| && |result| == |elements|
        invariant forall k :: 0 <= k < i ==> result[k] == elements[k] - offset.elements[k]
        invariant forall k :: i <= k < |elements| ==> result[k] == elements[k]
      {
        result := result[i := result[i] - offset.elements[i]];
        i := i + 1;
      }
      r := Index(result);
    }

    /** `operator*` with a span of multipliers, one per element. */
    method Mul(multiplier: seq<int>) returns (r: Index)
      requires Arity() == |multiplier|
      ensures r.elements == Times(elements, multiplier)
    {
      var result := elements;
      var i := 0;
      while i < |elements|
        invariant 0 <= i <= |elements| && |result| == |elements|
        invariant forall k :: 0 <= k < i ==> result[k] == elements[k] * multiplier[k]
        invariant forall k :: i <= k < |elements| ==> result[k] == elements[k]
      {
        result := result[i := result[i] * multiplier[i]];
        i := i + 1;
      }
      r := Index(result);
    }

    /** `operator+=`: the new value of the index is `*this + offset`. */
    method AddAssign(offset: Index) returns (updated: Index)
      requires Arity() == offset.Arity()
      ensures updated.Arity() == Arity()
      ensures updated.elements == Plus(elements, offset.elements)
    {
      updated := Add(offset);
    }

    /** `operator-=`: the new value of the index is `*this - offset`. */
    method SubAssign(offset: Index) returns (updated: Index)
      requires Arity() == offset.Arity()
      ensures updated.Arity() == Arity()
      ensures updated.elements == Minus(elements, offset.elements)
    {
      updated := Sub(offset);
    }

    /** `operator*=`: the new value of the index is `*this * multiplier`. */
    method MulAssign(multiplier: seq<int>) returns (updated: Index)
      requires Arity() == |multiplier|
      ensures updated.Arity() == Arity()
      ensures updated.elements == Times(elements, multiplier)
    {
      updated := Mul(multiplier);
    }

    /** `operator==` compares the element vectors; `operator!=` is its
        negation. */
    predicate Equals(other: Index)
    {
      elements == other.elements
    }

    /** `DebugString`: the elements in decimal, separated by commas, in
        square brackets. */
    function DebugString(): string
    {
      "[" + Join(IntsToStrings(elements), ",") + "]"
    }
  }

  /** Equality of indices is element-wise equality. */
  lemma EqualsIsElementwise(a: Index, b: Index)
    ensures a.Equals(b) <==> |a.elements| == |b.elements| &&
                             forall k :: 0 <= k < |a.elements| ==> a.elements[k] == b.elements[k]
  {
    if |a.elements| == |b.elements| && forall k :: 0 <= k < |a.elements| ==> a.elements[k] == b.elements[k] {
      assert a.elements == b.elements;
    }
  }

  /** The examples of the header comment. */
  lemma DebugStringExamples()
    ensures Index([2, 3, 4]).DebugString() == "[2,3,4]"
    ensures Index([]).DebugString() == "[]"
    ensures Index([-1]).DebugString() == "[-1]"
  {
    assert IntsToStrings([2, 3, 4]) == ["2", "3", "4"];
    assert Join(["2", "3", "4"], ",") == "2,3,4";
    assert IntToString(-1) == "-" + NatToString(1) == "-1";
    assert IntsToStrings([-1]) == ["-1"];
  }

  /** The debug text determines the index: distinct indices print
      differently. */
  lemma DebugStringInjective(a: Index, b: Index)
    ensures a.DebugString() == b.DebugString() <==> a == b
  {
    if a.DebugString() == b.DebugString() {
      BracketedIntsInjective(a.elements, b.elements);
    }
  }
}
