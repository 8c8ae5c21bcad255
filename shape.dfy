/** `xftcpp::Shape`, `BoundedDynamicShapeTag` and `DynamicShape`
    (xftcpp/src/shape.h, shape.cpp). All three are immutable value types. */
module XftShape {
  import opened Wrappers
  import opened Text
  import opened Products

  /** A static shape: the size of each dimension. Equality (`operator==`)
      is equality of the dimension vectors, which is datatype equality. */
  datatype Shape = Shape(dims: seq<int>)
  {
    /** `num_elements`: a running product over the dimensions. */
    method NumElements() returns (count: int)
      ensures count == Product(dims)
    {
      count := 1;
      var i := 0;
      while i < |dims|
        invariant 0 <= i <= |dims|
        invariant count == Product(dims[..i])
      {
        ProductSnoc(dims, i);
        count := count * dims[i];
        i := i + 1;
      }
      assert dims[..|dims|] == dims;
    }

    /** `DebugString`: "[" + dims joined by "," + "]". */
    function DebugString(): string
    {
      "[" + Join(IntsToStrings(dims), ",") + "]"
    }
  }

  /** What `num_elements` computes: 1 for the empty shape, 0 exactly when
      some dimension is 0. */
  lemma NumElementsFacts(s: Shape)
    ensures s.dims == [] ==> Product(s.dims) == 1
    ensures Product(s.dims) == 0 <==> exists k :: 0 <= k < |s.dims| && s.dims[k] == 0
  {
    ProductZero(s.dims);
  }

  lemma ShapeDebugStringExamples()
    ensures Shape([2, 3]).DebugString() == "[2,3]"
    ensures Shape([]).DebugString() == "[]"
  {
    assert IntsToStrings([2, 3]) == ["2", "3"];
  }

  /** The debug text determines the shape: distinct shapes print
      differently. */
  lemma ShapeDebugStringInjective(a: Shape, b: Shape)
    ensures a.DebugString() == b.DebugString() <==> a == b
  {
    if a.DebugString() == b.DebugString() {
      BracketedIntsInjective(a.dims, b.dims);
    }
  }

  /** The flags of a bounded dynamic shape tag. The C++ constructor CHECKs
      that at least one flag is set, so a tag without one does not exist. */
  datatype TagFlags = TagFlags(dynamicDims: seq<bool>)

  type BoundedDynamicShapeTag = t: TagFlags | true in t.dynamicDims
    witness TagFlags([true])

  /** The `BoundedDynamicShapeTag` constructor: the CHECK is its
      precondition. */
  function MakeTag(dynamicDims: seq<bool>): (t: BoundedDynamicShapeTag)
    requires exists k :: 0 <= k < |dynamicDims| && dynamicDims[k]
    ensures t.dynamicDims == dynamicDims
    ensures exists k :: 0 <= k < |t.dynamicDims| && t.dynamicDims[k]
  {
    var k :| 0 <= k < |dynamicDims| && dynamicDims[k];
    assert dynamicDims[k] in dynamicDims;
    TagFlags(dynamicDims)
  }

  /** The fields of a dynamic shape: the per-dimension upper bounds and the
      tag saying which dimensions are dynamic. */
  datatype DynamicShapeFields = DynamicShapeFields(shape: Shape, tag: BoundedDynamicShapeTag)

  /** The constructor of `DynamicShape` is private and `Create` only calls it
      once the tag and shape agree in length, so every dynamic shape has that
      property. Equality compares tag and shape, as `operator==` does. */
  type DynamicShape = d: DynamicShapeFields | |d.tag.dynamicDims| == |d.shape.dims|
    witness DynamicShapeFields(Shape([0]), TagFlags([true]))

  /** `DynamicShape::Create`: fails with InvalidArgument exactly when the tag
      length differs from the rank; never truncates or pads either side. */
  function Create(shape: Shape, tag: BoundedDynamicShapeTag): (r: Result<DynamicShape>)
    ensures r.Err? <==> |tag.dynamicDims| != |shape.dims|
    ensures r.Err? ==> r.error == InvalidArgument
    ensures r.Ok? ==> r.value.shape == shape && r.value.tag == tag
  {
    if |tag.dynamicDims| != |shape.dims| then Err(InvalidArgument)
    else Ok(DynamicShapeFields(shape, tag))
  }

  /** `GetPaddedShape`: the bound shape, unchanged. */
  function GetPaddedShape(d: DynamicShape): (r: Result<Shape>)
    ensures r == Ok(d.shape)
    ensures Create(r.value, d.tag) == Ok(d)
  {
    Ok(d.shape)
  }

  /** `IsDynamicDim`: the tag flag of the dimension; `.at` throws
      `std::out_of_range` for a dimension outside the tag (a negative `int`
      converts to a huge index). */
  function IsDynamicDim(d: DynamicShape, dimension: int): (r: Result<bool>)
    ensures r.Err? <==> !(0 <= dimension < |d.shape.dims|)
    ensures r.Err? ==> r.error == OutOfRange
    ensures r.Ok? ==> r.value == d.tag.dynamicDims[dimension]
  {
    if 0 <= dimension < |d.tag.dynamicDims| then Ok(d.tag.dynamicDims[dimension])
    else Err(OutOfRange)
  }

  /** The text of one dimension of a dynamic shape: "<=" before the bound of
      a dynamic dimension, nothing before a static one. */
  function DimRep(bound: int, dynamic: bool): string
  {
    (if dynamic then "<=" else "") + IntToString(bound)
  }

  /** `DynamicShape::DebugString`: builds the per-dimension texts in a loop
      and joins them with "," inside square brackets. */
  method DynamicDebugString(d: DynamicShape) returns (s: string)
    ensures exists reps: seq<string> ::
              |reps| == |d.shape.dims| &&
              (forall k :: 0 <= k < |reps| ==> reps[k] == DimRep(d.shape.dims[k], d.tag.dynamicDims[k])) &&
              s == "[" + Join(reps, ",") + "]"
  {
    ghost var all := seq(|d.shape.dims|, k requires 0 <= k < |d.shape.dims| => DimRep(d.shape.dims[k], d.tag.dynamicDims[k]));
    var reps: seq<string> := [];
    var i := 0;
    while i < |d.shape.dims|
      invariant 0 <= i <= |d.shape.dims| && reps == all[..i]
    {
      assert all[..i + 1] == all[..i] + [all[i]];
      reps := reps + [DimRep(d.shape.dims[i], d.tag.dynamicDims[i])];
      i := i + 1;
    }
    assert reps == all;
    s := "[" + Join(reps, ",") + "]";
  }

  /** A dimension's text starts with "<=" exactly when it is dynamic: the
      text of any integer starts with a digit or a minus sign, never with
      '<'. */
  lemma DimRepMarksDynamic(bound: int, dynamic: bool)
    ensures |DimRep(bound, dynamic)| >= 1
    ensures DimRep(bound, dynamic)[0] == '<' <==> dynamic
    ensures dynamic ==> DimRep(bound, dynamic)[..2] == "<=" && DimRep(bound, dynamic)[2..] == IntToString(bound)
    ensures !dynamic ==> DimRep(bound, dynamic) == IntToString(bound)
  {
    IntToStringInjective(bound, bound);
    NatToStringRoundTrip(if bound < 0 then -bound else bound);
    if !dynamic && bound >= 0 {
      assert IsDigit(IntToString(bound)[0]);
    }
  }
}
