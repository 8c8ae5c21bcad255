/** `xftcpp::IndexDomain` (xftcpp/src/index_domain.h): a box of indices given
    by an origin and a shape. A value type, so a datatype; the in-place shift
    operators `+=`/`-=` produce the same value with only the origin replaced. */
module XftIndexDomain {
  import opened XftIndex
  import opened XftShape

  datatype IndexDomain = IndexDomain(origin: Index, shape: Shape)
  {
    /** `operator+`: moves the origin by the offset and keeps the shape. */
    method Add(offset: Index) returns (r: IndexDomain)
      requires origin.Arity() == offset.Arity()
      ensures r.shape == shape
      ensures r.origin.elements == Plus(origin.elements, offset.elements)
    {
      var o := origin.Add(offset);
      r := IndexDomain(o, shape);
    }

    /** `operator-`: moves the origin back by the offset and keeps the shape. */
    method Sub(offset: Index) returns (r: IndexDomain)
      requires origin.Arity() == offset.Arity()
      ensures r.shape == shape
      ensures r.origin.elements == Minus(origin.elements, offset.elements)
    {
      var o := origin.Sub(offset);
      r := IndexDomain(o, shape);
    }

    /** `operator+=`: only the origin changes, by `origin_ += offset`. */
    method AddAssign(offset: Index) returns (updated: IndexDomain)
      requires origin.Arity() == offset.Arity()
      ensures updated == this.(origin := Index(Plus(origin.elements, offset.elements)))
    {
      var o := origin.AddAssign(offset);
      updated := this.(origin := o);
    }

    /** `operator-=`: only the origin changes, by `origin_ -= offset`. */
    method SubAssign(offset: Index) returns (updated: IndexDomain)
      requires origin.Arity() == offset.Arity()
      ensures updated == this.(origin := Index(Minus(origin.elements, offset.elements)))
    {
      var o := origin.SubAssign(offset);
      updated := this.(origin := o);
    }

    /** `operator==`: equal origins and equal shapes. */
    predicate Equals(other: IndexDomain)
    {
      origin.Equals(other.origin) && shape == other.shape
    }

    /** `operator!=` as the source writes it: some part differs. */
    predicate NotEquals(other: IndexDomain)
    {
      !origin.Equals(other.origin) || shape != other.shape
    }

    /** `DebugString`: "IndexDomain(origin=[...],shape=[...])". */
    function DebugString(): string
    {
      "IndexDomain(origin=" + origin.DebugString() + ",shape=" + shape.DebugString() + ")"
    }
  }

  /** The general constructor; its documented requirement is that origin and
      shape have the same number of dimensions. */
  function Make(origin: Index, shape: Shape): (d: IndexDomain)
    requires origin.Arity() == |shape.dims|
    ensures d.origin == origin && d.shape == shape
  {
    IndexDomain(origin, shape)
  }

  /** `IndexDomain(shape)`: a zero origin with one element per dimension. */
  function FromShape(shape: Shape): (d: IndexDomain)
    ensures d.shape == shape
    ensures d.origin.Arity() == |shape.dims|
    ensures forall k :: 0 <= k < |shape.dims| ==> d.origin.elements[k] == 0
  {
    IndexDomain(Index.Zeros(|shape.dims|), shape)
  }

  /** Equality is equality of both parts, that is of the whole value, and
      `!=` is exactly its negation. */
  lemma EqualityLaws(a: IndexDomain, b: IndexDomain)
    ensures a.Equals(b) <==> a == b
    ensures a.NotEquals(b) <==> !a.Equals(b)
  {
  }

  /** Shifting a domain forth and back by the same offset gives the domain
      back; this is what the two operators promise together. */
  lemma ShiftRoundTrip(d: IndexDomain, offset: Index)
    requires d.origin.Arity() == offset.Arity()
    ensures IndexDomain(Index(Minus(Plus(d.origin.elements, offset.elements), offset.elements)), d.shape) == d
    ensures IndexDomain(Index(Plus(Minus(d.origin.elements, offset.elements), offset.elements)), d.shape) == d
  {
    PlusMinusInverse(d.origin.elements, offset.elements);
  }

  lemma DebugStringExample()
    ensures IndexDomain(Index([2, 3]), Shape([4, 5])).DebugString() == "IndexDomain(origin=[2,3],shape=[4,5])"
  {
    assert Text.IntsToStrings([2, 3]) == ["2", "3"];
    assert Text.IntsToStrings([4, 5]) == ["4", "5"];
    Text.JoinTwo("2", "3", ",");
    Text.JoinTwo("4", "5", ",");
    assert Index([2, 3]).DebugString() == "[2,3]";
    assert Shape([4, 5]).DebugString() == "[4,5]";
  }
}
