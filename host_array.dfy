/** The host runtime's n-dimensional array (cpp/xft/array.h): a shape,
    byte strides, an element type and a byte offset into a shared storage
    buffer.

    Sizes, strides and offsets are 64-bit `size_t` values, so every product
    and sum the source computes is reduced modulo 2^64 here. Element memory
    is a map from byte address to the value stored there; the buffer object
    is shared between an array and the views made from its storage, so a
    write through one is seen through the others. */
module XftHostArray {
  import opened Wrappers
  import opened Products
  import opened XftScalarTypes
  import opened XftAlignedMemory

  /** `Array::Order`: row-major (C) or column-major (F). */
  datatype Order = C | F

  /** The content of one element: the bits a write stored, or whatever the
      allocator left there. */
  datatype Value = Indeterminate | Bits(bits: nat)

  /** The value at a byte address. */
  function LoadFrom(cells: map<SizeT, Value>, address: SizeT): Value
  {
    if address in cells then cells[address] else Indeterminate
  }

  /** A read after a write at the same address gives the value written; a
      write leaves every other address as it was. */
  lemma StoreThenLoad(cells: map<SizeT, Value>, a: SizeT, b: SizeT, v: Value)
    ensures LoadFrom(cells[a := v], b) == if a == b then v else LoadFrom(cells, b)
  {
  }

  /** A block of element memory: freshly allocated, or the caller's memory
      that an array wraps. */
  class Memory {
    var cells: map<SizeT, Value>

    constructor ()
      ensures cells == map[]
    {
      cells := map[];
    }

    function Load(address: SizeT): (v: Value)
      reads this
      ensures address !in cells ==> v == Indeterminate
    {
      LoadFrom(cells, address)
    }

    /** Assigning through the reference `at` returns. */
    method Store(address: SizeT, v: Value)
      modifies this
      ensures cells == old(cells)[address := v]
      ensures Load(address) == v
    {
      cells := cells[address := v];
    }
  }

  /** `Storage`: the buffer, its byte size and element type, and whether the
      array runtime owns (and frees) it. */
  class Storage {
    const memory: Memory
    const sizeBytes: SizeT
    const dtype: ScalarType
    const ownsData: bool

    constructor (memory: Memory, sizeBytes: SizeT, dtype: ScalarType, ownsData: bool)
      ensures this.memory == memory && this.sizeBytes == sizeBytes
      ensures this.dtype == dtype && this.ownsData == ownsData
    {
      this.memory := memory;
      this.sizeBytes := sizeBytes;
      this.dtype := dtype;
      this.ownsData := ownsData;
    }
  }

  // ---------------------------------------------------------------------
  // Layout arithmetic
  // ---------------------------------------------------------------------

  predicate AllPositive(shape: seq<SizeT>)
  {
    forall k :: 0 <= k < |shape| ==> shape[k] > 0
  }

  /** Row-major strides: the stride of axis i is the element size times the
      product of the dimensions to its right (in `size_t`). */
  function CStrides(shape: seq<SizeT>, elementSize: SizeT): (s: seq<SizeT>)
    ensures |s| == |shape|
  {
    seq(|shape|, i requires 0 <= i < |shape| => Wrap(elementSize * Product(shape[i + 1..])))
  }

  /** Column-major strides: the stride of axis i is the element size times
      the product of the dimensions to its left (in `size_t`). */
  function FStrides(shape: seq<SizeT>, elementSize: SizeT): (s: seq<SizeT>)
    ensures |s| == |shape|
  {
    seq(|shape|, i requires 0 <= i < |shape| => Wrap(elementSize * Product(shape[..i])))
  }

  function Strides(shape: seq<SizeT>, elementSize: SizeT, order: Order): (s: seq<SizeT>)
    ensures |s| == |shape|
  {
    if order == C then CStrides(shape, elementSize) else FStrides(shape, elementSize)
  }

  /** The recurrences `calculate_strides` runs: the innermost (C) or
      outermost (F) stride is the element size, and each further stride is
      the previous one times the dimension it steps over. */
  lemma StrideRecurrences(shape: seq<SizeT>, e: SizeT)
    requires |shape| > 0
    ensures CStrides(shape, e)[|shape| - 1] == e
    ensures forall i :: 0 <= i < |shape| - 1 ==>
              CStrides(shape, e)[i] == Wrap((CStrides(shape, e)[i + 1] as int) * shape[i + 1])
    ensures FStrides(shape, e)[0] == e
    ensures forall i :: 0 < i < |shape| ==>
              FStrides(shape, e)[i] == Wrap((FStrides(shape, e)[i - 1] as int) * shape[i - 1])
  {
    assert shape[|shape|..] == [] && shape[..0] == [];
    forall i | 0 <= i < |shape| - 1
      ensures CStrides(shape, e)[i] == Wrap((CStrides(shape, e)[i + 1] as int) * shape[i + 1])
    {
      SuffixStep(shape, e, i + 1);
    }
    forall i | 0 < i < |shape|
      ensures FStrides(shape, e)[i] == Wrap((FStrides(shape, e)[i - 1] as int) * shape[i - 1])
    {
      PrefixStep(shape, e, i - 1);
    }
  }

  /** One step of the C-order loop: e * Product(shape[i..]) is the wrapped
      e * Product(shape[i + 1..]) times shape[i]. */
  lemma SuffixStep(shape: seq<SizeT>, e: SizeT, i: nat)
    requires i < |shape|
    ensures Wrap(Wrap(e * Product(shape[i + 1..])) * shape[i]) == Wrap(e * Product(shape[i..]))
  {
    var p := Product(shape[i + 1..]);
    ProductFront(shape[i..]);
    assert shape[i..][1..] == shape[i + 1..];
    assert Product(shape[i..]) == shape[i] * p;
    WrapMul(e * p, shape[i]);
    assert e * p * shape[i] == e * (shape[i] * p);
  }

  /** One step of the F-order loop: e * Product(shape[..i + 1]) is the
      wrapped e * Product(shape[..i]) times shape[i]. */
  lemma PrefixStep(shape: seq<SizeT>, e: SizeT, i: nat)
    requires i < |shape|
    ensures Wrap(Wrap(e * Product(shape[..i])) * shape[i]) == Wrap(e * Product(shape[..i + 1]))
  {
    var p := Product(shape[..i]);
    ProductSnoc(shape, i);
    WrapMul(e * p, shape[i]);
    assert e * p * shape[i] == e * (p * shape[i]);
  }

  /** `calculate_strides(shape, element_size, order)`. */
  method CalculateStrides(shape: seq<SizeT>, elementSize: SizeT, order: Order) returns (strides: seq<SizeT>)
    ensures strides == Strides(shape, elementSize, order)
  {
    strides := seq(|shape|, _ => 0);
    var stride: SizeT := elementSize;
    if order == C {
      var i := |shape| - 1;
      assert shape[|shape|..] == [];
      while i >= 0
        invariant -1 <= i < |shape| && |strides| == |shape|
        invariant stride == Wrap(elementSize * Product(shape[i + 1..]))
        invariant forall k :: i < k < |shape| ==> strides[k] == CStrides(shape, elementSize)[k]
      {
        strides := strides[i := stride];
        SuffixStep(shape, elementSize, i);
        stride := Wrap((stride as int) * shape[i]);
        i := i - 1;
      }
    } else {
      var i := 0;
      assert shape[..0] == [];
      while i < |shape|
        invariant 0 <= i <= |shape| && |strides| == |shape|
        invariant stride == Wrap(elementSize * Product(shape[..i]))
        invariant forall k :: 0 <= k < i ==> strides[k] == FStrides(shape, elementSize)[k]
      {
        strides := strides[i := stride];
        PrefixStep(shape, elementSize, i);
        stride := Wrap((stride as int) * shape[i]);
        i := i + 1;
      }
    }
  }

  /** The layouts the tests check: shape (2, 3, 4) of 4-byte elements in C
      order has strides (48, 16, 4), and shape (3, 4) in F order has strides
      (4, 12). */
  lemma StrideExamples()
    ensures CStrides([2, 3, 4], 4) == [48, 16, 4]
    ensures FStrides([3, 4], 4) == [4, 12]
  {
    var s: seq<SizeT> := [2, 3, 4];
    assert s[1..] == [3, 4] && s[2..] == [4] && s[3..] == [];
    assert Product([4]) == 4 by { assert [4][..0] == []; }
    assert Product([3, 4]) == 12 by { assert [3, 4][..1] == [3] && [3][..0] == []; }
    var t: seq<SizeT> := [3, 4];
    assert t[..0] == [] && t[..1] == [3];
    assert Product([3]) == 3 by { assert [3][..0] == []; }
  }

  /** A one-dimensional layout is the same in both orders: a single stride
      equal to the element size. */
  lemma VectorLayouts(d: SizeT, e: SizeT)
    ensures CStrides([d], e) == FStrides([d], e) == [e]
  {
    var s: seq<SizeT> := [d];
    assert s[1..] == [] && s[..0] == [];
  }

  /** A two-by-three-or-more C layout is not an F layout and vice versa:
      for shape (3, 4) of 4-byte elements, C strides (16, 4) differ from F
      strides (4, 12). */
  lemma OrdersDiffer()
    ensures CStrides([3, 4], 4) == [16, 4] && CStrides([3, 4], 4) != FStrides([3, 4], 4)
  {
    StrideExamples();
    var s: seq<SizeT> := [3, 4];
    assert s[1..] == [4] && s[2..] == [] && s[..0] == [] && s[..1] == [3];
    assert Product([4]) == 4 by { assert [4][..0] == []; }
    assert Product([3]) == 3 by { assert [3][..0] == []; }
  }

  /** The sum of idx[i] * strides[i] over all axes, accumulated from the
      first axis. */
  function Dot(idx: seq<int>, strides: seq<int>): int
    requires |idx| == |strides|
  {
    if idx == [] then 0
    else Dot(idx[..|idx| - 1], strides[..|idx| - 1]) + idx[|idx| - 1] * strides[|idx| - 1]
  }

  predicate InBounds(shape: seq<SizeT>, idx: seq<SizeT>)
  {
    |idx| == |shape| && forall k :: 0 <= k < |idx| ==> idx[k] < shape[k]
  }

  /** `calculate_offset(indices)`: a rank mismatch is an invalid argument,
      an index at or past its dimension is out of range, otherwise the byte
      offset is the strided sum (in `size_t`). */
  function OffsetOf(shape: seq<SizeT>, strides: seq<SizeT>, idx: seq<SizeT>): Result<SizeT>
    requires |strides| == |shape|
  {
    if |idx| != |shape| then Err(InvalidArgument)
    else if !InBounds(shape, idx) then Err(OutOfRange)
    else Ok(Wrap(Dot(idx, strides)))
  }

  /** The error cases of `calculate_offset`, both ways round. */
  lemma OffsetCases(shape: seq<SizeT>, strides: seq<SizeT>, idx: seq<SizeT>)
    requires |strides| == |shape|
    ensures OffsetOf(shape, strides, idx) == Err(InvalidArgument) <==> |idx| != |shape|
    ensures OffsetOf(shape, strides, idx) == Err(OutOfRange) <==>
              |idx| == |shape| && exists k :: 0 <= k < |idx| && idx[k] >= shape[k]
    ensures OffsetOf(shape, strides, idx).Ok? <==> InBounds(shape, idx)
  {
  }

  // ---------------------------------------------------------------------
  // Element count and allocation size
  // ---------------------------------------------------------------------

  /** The element count the allocating constructor's loop computes: each
      dimension in turn is rejected if zero, and the running total is
      rejected with an overflow if multiplying by the dimension would exceed
      `SIZE_MAX` (tested as `total > SIZE_MAX / dim`). */
  function CheckedCount(shape: seq<SizeT>): Result<SizeT>
    decreases |shape|
  {
    if shape == [] then Ok(1)
    else
      match CheckedCount(shape[..|shape| - 1])
      case Err(e) => Err(e)
      case Ok(total) =>
        var dim := shape[|shape| - 1];
        if dim == 0 then Err(InvalidArgument)
        else if total > SizeMax / dim then Err(Overflow)
        else
          FloorDivTest(total, dim, SizeMax);
          Ok(total * dim)
  }

  /** `t > m / d` is exactly `t * d > m` for d >= 1. */
  lemma FloorDivTest(t: nat, d: nat, m: nat)
    requires d >= 1
    ensures t > m / d <==> t * d > m
  {
    var q := m / d;
    assert m == d * q + m % d && 0 <= m % d < d;
    if t > q {
      MulAtLeast(d, t - q);
      assert t * d == d * q + d * (t - q);
    } else {
      assert t * d == d * t && d * q - d * t == d * (q - t);
      MulNonNegative(d, q - t);
    }
  }

  /** What the count loop decides: it fails whenever a dimension is zero;
      with positive dimensions it succeeds exactly when the product fits in
      `size_t` and reports an overflow otherwise; a success gives the
      product. */
  lemma {:induction false} CheckedCountCases(shape: seq<SizeT>)
    ensures CheckedCount(shape).Ok? ==> AllPositive(shape) && CheckedCount(shape).value == Product(shape)
    ensures !AllPositive(shape) ==> CheckedCount(shape).Err?
    ensures AllPositive(shape) ==> (CheckedCount(shape).Ok? <==> Product(shape) <= SizeMax)
    ensures AllPositive(shape) && CheckedCount(shape).Err? ==> CheckedCount(shape).error == Overflow
    ensures CheckedCount(shape) == Err(InvalidArgument) ==> exists k :: 0 <= k < |shape| && shape[k] == 0
    ensures CheckedCount(shape).Err? ==> CheckedCount(shape).error in {InvalidArgument, Overflow}
    decreases |shape|
  {
    if shape != [] {
      var n := |shape|;
      var init := shape[..n - 1];
      var dim := shape[n - 1];
      CheckedCountCases(init);
      assert forall k :: 0 <= k < n - 1 ==> init[k] == shape[k];
      assert AllPositive(shape) ==> AllPositive(init);
      assert Product(shape) == Product(init) * dim;
      if CheckedCount(init).Ok? && dim > 0 {
        FloorDivTest(CheckedCount(init).value, dim, SizeMax);
      }
      if AllPositive(shape) && CheckedCount(init).Err? {
        // the prefix product already exceeds SIZE_MAX, so the whole does too
        MulAtLeast(Product(init), dim);
      }
      if CheckedCount(shape) == Err(InvalidArgument) {
        if CheckedCount(init) == Err(InvalidArgument) {
          var k :| 0 <= k < n - 1 && init[k] == 0;
          assert shape[k] == 0;
        } else {
          assert shape[n - 1] == 0;
        }
      }
    }
  }

  /** The bytes the allocating constructor asks for, AS WRITTEN: the checked
      count times the element size and rounded up to the default alignment,
      all in `size_t` with no further overflow test; a zero byte count is
      refused by `Storage::create`. */
  function AllocationSizeAsWritten(shape: seq<SizeT>, dtype: ScalarType): Result<SizeT>
  {
    if shape == [] then Err(InvalidArgument)
    else
      match CheckedCount(shape)
      case Err(e) => Err(e)
      case Ok(total) =>
        var bytes := CalculateAlignedSize(total, ScalarTypeSize(dtype), DefaultAlignment);
        if bytes == 0 then Err(InvalidArgument) else Ok(bytes)
  }

  /** The byte size of the allocation with the overflow test the constructor
      evidently intends ("Array size exceeds addressable memory"): besides
      the element count, the byte count and its rounding must fit in
      `size_t`. */
  function AllocationSize(shape: seq<SizeT>, dtype: ScalarType): (r: Result<SizeT>)
    ensures r.Err? ==> r.error == InvalidArgument || r.error == Overflow
    ensures r.Err? && r.error == InvalidArgument ==>
              shape == [] || exists k :: 0 <= k < |shape| && shape[k] == 0
    ensures r.Ok? ==> shape != [] && AllPositive(shape) && r.value % DefaultAlignment == 0
    ensures r.Ok? ==> Product(shape) * ScalarTypeSize(dtype) <= r.value < Product(shape) * ScalarTypeSize(dtype) + DefaultAlignment
  {
    CheckedCountCases(shape);
    if shape == [] then Err(InvalidArgument)
    else
      match CheckedCount(shape)
      case Err(e) => Err(e)
      case Ok(total) =>
        var e := ScalarTypeSize(dtype);
        if total * e + DefaultAlignment - 1 > SizeMax then Err(Overflow)
        else
          assert IsPowerOfTwo(DefaultAlignment);
          Ok(CalculateAlignedSize(total, e, DefaultAlignment))
  }

  /** The two agree whenever the corrected test passes, so the correction
      only adds the overflow error. */
  lemma AllocationSizeRefinesAsWritten(shape: seq<SizeT>, dtype: ScalarType)
    ensures AllocationSize(shape, dtype).Ok? ==> AllocationSizeAsWritten(shape, dtype) == AllocationSize(shape, dtype)
    ensures AllocationSizeAsWritten(shape, dtype).Err? ==> AllocationSize(shape, dtype).Err?
  {
    CheckedCountCases(shape);
    if shape != [] && CheckedCount(shape).Ok? {
      var total := CheckedCount(shape).value;
      var e := ScalarTypeSize(dtype);
      MulNonNegative(total, e);
      if total * e + DefaultAlignment - 1 <= SizeMax {
        assert IsPowerOfTwo(DefaultAlignment);
        ProductAtLeastOne(shape);
        MulAtLeast(e, total);
        assert total * e == e * total;
      }
    }
  }

  /** Unwrapped row-major and column-major strides. */
  function CExact(shape: seq<SizeT>, e: int): (s: seq<int>)
    ensures |s| == |shape|
  {
    seq(|shape|, i requires 0 <= i < |shape| => e * Product(shape[i + 1..]))
  }

  function FExact(shape: seq<SizeT>, e: int): (s: seq<int>)
    ensures |s| == |shape|
  {
    seq(|shape|, i requires 0 <= i < |shape| => e * Product(shape[..i]))
  }

  /** With positive dimensions, every partial product is at most the whole
      product. */
  lemma {:induction false} PartialProducts(shape: seq<SizeT>, i: nat)
    requires AllPositive(shape) && i <= |shape|
    ensures 1 <= Product(shape[..i]) <= Product(shape)
    ensures 1 <= Product(shape[i..]) <= Product(shape)
    decreases |shape|
  {
    if i < |shape| {
      var n := |shape|;
      var init := shape[..n - 1];
      assert AllPositive(init);
      var p := Product(init);
      assert Product(shape) == p * shape[n - 1];
      if i < n {
        PartialProducts(init, i);
        assert init[..i] == shape[..i];
        MulAtLeast(p, shape[n - 1]);
      }
      SuffixProducts(shape, i);
    } else {
      assert shape[..i] == shape;
      assert shape[i..] == [];
      ProductAtLeastOne(shape);
    }
  }

  lemma {:induction false} ProductAtLeastOne(shape: seq<SizeT>)
    requires AllPositive(shape)
    ensures Product(shape) >= 1
    decreases |shape|
  {
    if shape != [] {
      var init := shape[..|shape| - 1];
      assert AllPositive(init);
      ProductAtLeastOne(init);
      MulAtLeast(Product(init), shape[|shape| - 1]);
    }
  }

  /** The product of a suffix divides into the whole through the prefix. */
  lemma {:induction false} SuffixProducts(shape: seq<SizeT>, i: nat)
    requires AllPositive(shape) && i <= |shape|
    ensures 1 <= Product(shape[i..]) <= Product(shape)
    decreases i
  {
    if i == 0 {
      assert shape[0..] == shape;
      ProductAtLeastOne(shape);
    } else {
      SuffixProducts(shape, i - 1);
      var t := shape[i - 1..];
      ProductFront(t);
      assert t[1..] == shape[i..];
      assert AllPositive(shape[i..]);
      ProductAtLeastOne(shape[i..]);
      MulAtLeast(Product(shape[i..]), shape[i - 1]);
      assert Product(t) == shape[i - 1] * Product(shape[i..]);
    }
  }

  /** When the whole byte count fits, no stride wraps. */
  lemma StridesNoWrap(shape: seq<SizeT>, e: SizeT)
    requires AllPositive(shape) && e * Product(shape) <= SizeMax
    ensures CStrides(shape, e) == CExact(shape, e)
    ensures FStrides(shape, e) == FExact(shape, e)
  {
    forall i | 0 <= i < |shape|
      ensures CStrides(shape, e)[i] == CExact(shape, e)[i] && FStrides(shape, e)[i] == FExact(shape, e)[i]
    {
      PartialProducts(shape, i);
      PartialProducts(shape, i + 1);
      MulMonotone(e, Product(shape[i + 1..]), Product(shape));
      MulMonotone(e, Product(shape[..i]), Product(shape));
    }
  }

  lemma MulMonotone(e: nat, a: int, b: int)
    requires 0 <= a <= b
    ensures 0 <= e * a <= e * b
  {
    MulNonNegative(e, a);
    MulNonNegative(e, b - a);
    assert e * b == e * a + e * (b - a);
  }

  /** Splitting off the last axis of a row-major layout: the remaining
      axes form a row-major layout of elements e * d bytes wide. */
  lemma CExactSnoc(shape: seq<SizeT>, e: int)
    requires |shape| > 0
    ensures CExact(shape, e)[..|shape| - 1] == CExact(shape[..|shape| - 1], e * shape[|shape| - 1])
    ensures CExact(shape, e)[|shape| - 1] == e
  {
    var n := |shape|;
    var init, d := shape[..n - 1], shape[n - 1];
    forall i | 0 <= i < n - 1
      ensures CExact(shape, e)[i] == CExact(init, e * d)[i]
    {
      var suf := shape[i + 1..];
      assert suf[..|suf| - 1] == init[i + 1..] && suf[|suf| - 1] == d;
      assert Product(suf) == Product(init[i + 1..]) * d;
      assert e * (Product(init[i + 1..]) * d) == (e * d) * Product(init[i + 1..]);
    }
    assert shape[n..] == [];
  }

  /** Splitting off the last axis of a column-major layout: the remaining
      axes keep their strides. */
  lemma FExactSnoc(shape: seq<SizeT>, e: int)
    requires |shape| > 0
    ensures FExact(shape, e)[..|shape| - 1] == FExact(shape[..|shape| - 1], e)
    ensures FExact(shape, e)[|shape| - 1] == e * Product(shape[..|shape| - 1])
  {
    var n := |shape|;
    var init := shape[..n - 1];
    forall i | 0 <= i < n - 1
      ensures FExact(shape, e)[i] == FExact(init, e)[i]
    {
      assert shape[..i] == init[..i];
    }
  }

  /** The arithmetic of one axis of a row-major layout: if the inner axes
      of an element e * d bytes wide stay `rest + e * d <= e * d * p`, an
      element of e bytes at position last < d of the last axis ends within
      e * (p * d). */
  lemma RowStep(rest: int, last: int, d: int, e: int, p: int)
    requires e >= 0 && 0 <= last < d && rest + e * d <= (e * d) * p
    ensures rest + last * e + e <= e * (p * d)
  {
    MulNonNegative(d - last - 1, e);
    assert (d - last - 1) * e == d * e - last * e - e;
    assert (e * d) * p == e * (p * d);
  }

  /** The arithmetic of one axis of a column-major layout with outer
      stride ep: position last < d adds at most (d - 1) * ep. */
  lemma ColumnStep(rest: int, last: int, d: int, ep: int, e: int)
    requires ep >= 0 && 0 <= last < d && rest + e <= ep
    ensures rest + last * ep + e <= ep * d
  {
    MulNonNegative(d - last - 1, ep);
    assert (d - last - 1) * ep == d * ep - last * ep - ep;
  }

  /** In a row-major layout the last in-bounds element ends exactly at
      e * Product(shape) bytes, so every element ends at or before it. */
  lemma {:induction false} RowMajorBound(shape: seq<SizeT>, idx: seq<SizeT>, e: nat)
    requires AllPositive(shape) && InBounds(shape, idx)
    ensures Dot(idx, CExact(shape, e)) + e <= e * Product(shape)
    decreases |shape|
  {
    var n := |shape|;
    if n == 0 {
      assert Product(shape) == 1;
    } else {
      var init, d := shape[..n - 1], shape[n - 1];
      var iinit, last := idx[..n - 1], idx[n - 1];
      assert AllPositive(init) && InBounds(init, iinit);
      CExactSnoc(shape, e);
      MulNonNegative(e, d);
      RowMajorBound(init, iinit, e * d);
      var rest := Dot(iinit, CExact(init, e * d));
      assert Dot(idx, CExact(shape, e)) == rest + last * e;
      assert Product(shape) == Product(init) * d;
      RowStep(rest, last, d, e, Product(init));
    }
  }

  /** The same bound for a column-major layout. */
  lemma {:induction false} ColumnMajorBound(shape: seq<SizeT>, idx: seq<SizeT>, e: nat)
    requires AllPositive(shape) && InBounds(shape, idx)
    ensures Dot(idx, FExact(shape, e)) + e <= e * Product(shape)
    decreases |shape|
  {
    var n := |shape|;
    if n == 0 {
      assert Product(shape) == 1;
    } else {
      var init, d := shape[..n - 1], shape[n - 1];
      var iinit, last := idx[..n - 1], idx[n - 1];
      assert AllPositive(init) && InBounds(init, iinit);
      FExactSnoc(shape, e);
      ColumnMajorBound(init, iinit, e);
      var p := Product(init);
      var rest := Dot(iinit, FExact(init, e));
      assert Dot(idx, FExact(shape, e)) == rest + last * (e * p);
      assert Product(shape) == p * d;
      ProductAtLeastOne(init);
      MulNonNegative(e, p);
      ColumnStep(rest, last, d, e * p, e);
      assert (e * p) * d == e * (p * d);
    }
  }

  // ---------------------------------------------------------------------
  // The array
  // ---------------------------------------------------------------------

  class Array {
    const storage: Storage
    const shape: seq<SizeT>
    const strides: seq<SizeT>
    const dtype: ScalarType
    const offset: SizeT

    /** Every constructor leaves one stride per dimension. */
    predicate Valid()
    {
      |strides| == |shape|
    }

    constructor (storage: Storage, shape: seq<SizeT>, strides: seq<SizeT>, dtype: ScalarType, offset: SizeT)
      ensures this.storage == storage && this.shape == shape && this.strides == strides
      ensures this.dtype == dtype && this.offset == offset
    {
      this.storage := storage;
      this.shape := shape;
      this.strides := strides;
      this.dtype := dtype;
      this.offset := offset;
    }

    /** `ndim`. */
    function NDim(): (n: nat)
      ensures n == |shape|
    {
      |shape|
    }

    /** `shape(axis)`: the dimension, or out of range past the last axis. */
    function ShapeAt(axis: SizeT): (r: Result<SizeT>)
      ensures r.Err? <==> axis >= |shape|
      ensures r.Err? ==> r.error == OutOfRange
      ensures r.Ok? ==> r.value == shape[axis]
    {
      if axis >= |shape| then Err(OutOfRange) else Ok(shape[axis])
    }

    /** `itemsize`. */
    function ItemSize(): (n: SizeT)
      ensures n == ScalarTypeSize(dtype)
    {
      ScalarTypeSize(dtype)
    }

    /** `size`: the product of the shape, 1 for an empty shape, wrapped in
      `size_t`. */
    function Size(): (n: SizeT)
      ensures Product(shape) <= SizeMax && AllPositive(shape) ==> n == Product(shape)
      ensures |shape| == 0 ==> n == 1
      ensures (exists k :: 0 <= k < |shape| && shape[k] == 0) ==> n == 0
    {
      ProductZero(shape);
      ProductAtLeastOne(if AllPositive(shape) then shape else []);
      Wrap(Product(shape))
    }

    /** `nbytes`: size times item size, wrapped in `size_t`. */
    function NBytes(): (n: SizeT)
      ensures Product(shape) * ScalarTypeSize(dtype) <= SizeMax && AllPositive(shape) ==>
                n == Product(shape) * ScalarTypeSize(dtype)
    {
      var p := Size();
      if AllPositive(shape) && Product(shape) * ScalarTypeSize(dtype) <= SizeMax then
        ProductAtLeastOne(shape);
        MulAtLeast(Product(shape), ScalarTypeSize(dtype));
        Wrap(p * ItemSize())
      else
        Wrap(p * ItemSize())
    }

    /** `is_contiguous`: the strides are the row-major strides of the
      shape (trivially so for an empty shape). */
    method IsContiguous() returns (b: bool)
      requires Valid()
      ensures b <==> strides == CStrides(shape, ItemSize())
    {
      if |shape| == 0 {
        return true;
      }
      var e := ItemSize();
      var expected: SizeT := e;
      var i := |shape| - 1;
      assert shape[|shape|..] == [];
      while i >= 0
        invariant -1 <= i < |shape|
        invariant expected == Wrap(e * Product(shape[i + 1..]))
        invariant forall k :: i < k < |shape| ==> strides[k] == CStrides(shape, e)[k]
      {
        if strides[i] != expected {
          assert strides[i] != CStrides(shape, e)[i];
          return false;
        }
        SuffixStep(shape, e, i);
        expected := Wrap((expected as int) * shape[i]);
        i := i - 1;
      }
      return true;
    }

    /** `is_f_contiguous`: the strides are the column-major strides of the
      shape. */
    method IsFContiguous() returns (b: bool)
      requires Valid()
      ensures b <==> strides == FStrides(shape, ItemSize())
    {
      if |shape| == 0 {
        return true;
      }
      var e := ItemSize();
      var expected: SizeT := e;
      var i := 0;
      assert shape[..0] == [];
      while i < |shape|
        invariant 0 <= i <= |shape|
        invariant expected == Wrap(e * Product(shape[..i]))
        invariant forall k :: 0 <= k < i ==> strides[k] == FStrides(shape, e)[k]
      {
        if strides[i] != expected {
          assert strides[i] != FStrides(shape, e)[i];
          return false;
        }
        PrefixStep(shape, e, i);
        expected := Wrap((expected as int) * shape[i]);
        i := i + 1;
      }
      return true;
    }

    /** `calculate_offset(indices)`. */
    method CalculateOffset(indices: seq<SizeT>) returns (r: Result<SizeT>)
      requires Valid()
      ensures r == OffsetOf(shape, strides, indices)
    {
      if |indices| != |shape| {
        return Err(InvalidArgument);
      }
      var off: SizeT := 0;
      var i := 0;
      while i < |indices|
        invariant 0 <= i <= |indices|
        invariant forall k :: 0 <= k < i ==> indices[k] < shape[k]
        invariant off == Wrap(Dot(indices[..i], strides[..i]))
      {
        if indices[i] >= shape[i] {
          return Err(OutOfRange);
        }
        assert indices[..i + 1][..i] == indices[..i] && strides[..i + 1][..i] == strides[..i];
        var term := (indices[i] as int) * strides[i];
        WrapAdd(Dot(indices[..i], strides[..i]), Wrap(term));
        WrapAdd(term, Dot(indices[..i], strides[..i]));
        off := Wrap(off + Wrap(term));
        i := i + 1;
      }
      assert indices[..i] == indices && strides[..i] == strides;
      return Ok(off);
    }

    /** The address an `at<T>` reference points to: the element type must
      be the array's (`check_dtype`), then the element's offset is added to
      the array's own offset into the storage. */
    function AddressOf(requested: ScalarType, indices: seq<SizeT>): Result<SizeT>
      requires Valid()
    {
      if requested != dtype then Err(InvalidArgument)
      else
        match OffsetOf(shape, strides, indices)
        case Err(e) => Err(e)
        case Ok(o) => Ok(Wrap(offset + o))
    }

    /** `at<T>(indices)`: the address in `storage.memory` of the element. */
    method At(requested: ScalarType, indices: seq<SizeT>) returns (r: Result<SizeT>)
      requires Valid()
      ensures r == AddressOf(requested, indices)
      ensures r.Err? <==> requested != dtype || !InBounds(shape, indices)
      ensures r.Err? && requested != dtype ==> r.error == InvalidArgument
      ensures r.Err? && requested == dtype ==>
                r.error == (if |indices| != |shape| then InvalidArgument else OutOfRange)
    {
      if requested != dtype {
        return Err(InvalidArgument);
      }
      var o := CalculateOffset(indices);
      match o
      case Err(e) => return Err(e);
      case Ok(v) => return Ok(Wrap(offset + v));
    }

    /** `at<T>(i0)`: a 1-D array only; the same element as the general
      accessor. */
    function At1(requested: ScalarType, i0: SizeT): (r: Result<SizeT>)
      requires Valid()
      ensures r == AddressOf(requested, [i0])
    {
      if requested != dtype then Err(InvalidArgument)
      else if |shape| != 1 then Err(InvalidArgument)
      else if i0 >= shape[0] then Err(OutOfRange)
      else
        DotTerms([i0], strides);
        Ok(Wrap(offset + Wrap((i0 as int) * strides[0])))
    }

    /** `at<T>(i0, i1)`: a 2-D array only; the same element as the general
      accessor. */
    function At2(requested: ScalarType, i0: SizeT, i1: SizeT): (r: Result<SizeT>)
      requires Valid()
      ensures r == AddressOf(requested, [i0, i1])
    {
      if requested != dtype then Err(InvalidArgument)
      else if |shape| != 2 then Err(InvalidArgument)
      else if i0 >= shape[0] || i1 >= shape[1] then Err(OutOfRange)
      else
        var a, b := (i0 as int) * strides[0], (i1 as int) * strides[1];
        DotTerms([i0, i1], strides);
        WrapPair(a, b);
        Ok(Wrap(offset + Wrap(Wrap(a) + Wrap(b))))
    }

    /** `at<T>(i0, i1, i2)`: a 3-D array only; the same element as the
      general accessor. */
    function At3(requested: ScalarType, i0: SizeT, i1: SizeT, i2: SizeT): (r: Result<SizeT>)
      requires Valid()
      ensures r == AddressOf(requested, [i0, i1, i2])
    {
      if requested != dtype then Err(InvalidArgument)
      else if |shape| != 3 then Err(InvalidArgument)
      else if i0 >= shape[0] || i1 >= shape[1] || i2 >= shape[2] then Err(OutOfRange)
      else
        OffsetOfThree(shape, strides, i0, i1, i2);
        Ok(Wrap(offset + ThreeTermOffset(strides, i0, i1, i2)))
    }
  }

  /** One-, two- and three-term strided sums, written out. */
  lemma DotTerms(idx: seq<SizeT>, strides: seq<SizeT>)
    requires |idx| == |strides| && 1 <= |idx| <= 3
    ensures |idx| == 1 ==> Dot(idx, strides) == (idx[0] as int) * strides[0]
    ensures |idx| == 2 ==> Dot(idx, strides) == (idx[0] as int) * strides[0] + (idx[1] as int) * strides[1]
    ensures |idx| == 3 ==>
              Dot(idx, strides) == (idx[0] as int) * strides[0] + (idx[1] as int) * strides[1] + (idx[2] as int) * strides[2]
  {
    var n := |idx|;
    assert idx[..1][..0] == [] && strides[..1][..0] == [];
    assert Dot(idx[..1], strides[..1]) == (idx[0] as int) * strides[0];
    if n >= 2 {
      assert idx[..2][..1] == idx[..1] && strides[..2][..1] == strides[..1];
      assert Dot(idx[..2], strides[..2]) == (idx[0] as int) * strides[0] + (idx[1] as int) * strides[1];
    }
    if n == 3 {
      assert idx[..3][..2] == idx[..2] && strides[..3][..2] == strides[..2];
    }
    assert idx[..n] == idx && strides[..n] == strides;
  }

  /** The offset `at<T>(i0, i1, i2)` computes: the three wrapped terms
      summed left to right. */
  function ThreeTermOffset(strides: seq<SizeT>, i0: SizeT, i1: SizeT, i2: SizeT): SizeT
    requires |strides| == 3
  {
    Wrap(Wrap(Wrap((i0 as int) * strides[0]) + Wrap((i1 as int) * strides[1])) + Wrap((i2 as int) * strides[2]))
  }

  /** That offset is the general offset of the element. */
  lemma OffsetOfThree(shape: seq<SizeT>, strides: seq<SizeT>, i0: SizeT, i1: SizeT, i2: SizeT)
    requires |shape| == 3 && |strides| == 3
    requires i0 < shape[0] && i1 < shape[1] && i2 < shape[2]
    ensures OffsetOf(shape, strides, [i0, i1, i2]) == Ok(ThreeTermOffset(strides, i0, i1, i2))
  {
    DotTerms([i0, i1, i2], strides);
    WrapTriple((i0 as int) * strides[0], (i1 as int) * strides[1], (i2 as int) * strides[2]);
    assert InBounds(shape, [i0, i1, i2]);
  }

  /** The same for three terms summed left to right. */
  lemma WrapTriple(a: int, b: int, c: int)
    ensures Wrap(Wrap(Wrap(a) + Wrap(b)) + Wrap(c)) == Wrap(a + b + c)
  {
    WrapPair(a, b);
    WrapAdd(Wrap(a) + Wrap(b), Wrap(c));
    WrapPair(a + b, c);
  }

  /** Wrapping each term of a sum first does not change the wrapped sum. */
  lemma WrapPair(a: int, b: int)
    ensures Wrap(Wrap(a) + Wrap(b)) == Wrap(a + b)
  {
    WrapAdd(a, Wrap(b));
    WrapAdd(b, a);
  }

  // ---------------------------------------------------------------------
  // Constructors
  // ---------------------------------------------------------------------

  /** The allocating constructor `Array(shape, dtype, order)`: an empty
      shape is an invalid argument; the count loop rejects a zero dimension
      and an element count past `SIZE_MAX`; a byte count past `SIZE_MAX` is
      an overflow (the corrected test, see `AllocationSize`); otherwise a
      fresh zero-offset array over a fresh owned buffer of the aligned size,
      with the strides of the requested order. */
  method NewArray(shape: seq<SizeT>, dtype: ScalarType, order: Order) returns (r: Result<Array>)
    ensures r.Err? <==> AllocationSize(shape, dtype).Err?
    ensures r.Err? ==> r.error == AllocationSize(shape, dtype).error
    ensures r.Ok? ==> fresh(r.value) && fresh(r.value.storage) && fresh(r.value.storage.memory)
    ensures r.Ok? ==> r.value.Valid() && r.value.shape == shape && r.value.dtype == dtype && r.value.offset == 0
    ensures r.Ok? ==> r.value.strides == Strides(shape, ScalarTypeSize(dtype), order)
    ensures r.Ok? ==> r.value.storage.sizeBytes == AllocationSize(shape, dtype).value
    ensures r.Ok? ==> r.value.storage.ownsData && r.value.storage.dtype == dtype
    ensures r.Ok? ==> r.value.storage.memory.cells == map[]
  {
    if |shape| == 0 {
      return Err(InvalidArgument);
    }
    var total: SizeT := 1;
    var i := 0;
    assert shape[..0] == [];
    while i < |shape|
      invariant 0 <= i <= |shape|
      invariant CheckedCount(shape[..i]) == Ok(total)
    {
      var dim := shape[i];
      assert shape[..i + 1][..i] == shape[..i];
      if dim == 0 {
        CountErrorPersists(shape, i + 1);
        return Err(InvalidArgument);
      }
      if total > SizeMax / dim {
        CountErrorPersists(shape, i + 1);
        return Err(Overflow);
      }
      FloorDivTest(total, dim, SizeMax);
      total := total * dim;
      i := i + 1;
    }
    assert shape[..i] == shape;
    var e := ScalarTypeSize(dtype);
    if total * e + DefaultAlignment - 1 > SizeMax {
      return Err(Overflow);
    }
    var sizeBytes := CalculateAlignedSize(total, e, DefaultAlignment);
    var memory := new Memory();
    var storage := new Storage(memory, sizeBytes, dtype, true);
    var strides := CalculateStrides(shape, e, order);
    var arr := new Array(storage, shape, strides, dtype, 0);
    return Ok(arr);
  }

  /** Once the count fails on a prefix it fails, with the same error, on
      the whole shape. */
  lemma {:induction false} CountErrorPersists(shape: seq<SizeT>, i: nat)
    requires i <= |shape| && CheckedCount(shape[..i]).Err?
    ensures CheckedCount(shape) == CheckedCount(shape[..i])
    decreases |shape| - i
  {
    if i < |shape| {
      assert shape[..i + 1][..i] == shape[..i];
      CountErrorPersists(shape, i + 1);
    } else {
      assert shape[..i] == shape;
    }
  }

  /** The wrapping constructor `Array(data, shape, dtype, strides)`: an
      empty shape or a null pointer is an invalid argument; the storage
      wraps the caller's memory without owning it, with the product of the
      shape times the element size (in `size_t`) as its byte size; empty
      strides stand for the row-major strides, and strides of another length
      than the shape are an invalid argument. */
  method WrapArray(data: Memory?, shape: seq<SizeT>, dtype: ScalarType, strides: seq<SizeT>) returns (r: Result<Array>)
    ensures r.Err? <==> shape == [] || data == null || (strides != [] && |strides| != |shape|)
    ensures r.Err? ==> r.error == InvalidArgument
    ensures r.Ok? ==> fresh(r.value) && fresh(r.value.storage) && r.value.storage.memory == data
    ensures r.Ok? ==> r.value.Valid() && r.value.shape == shape && r.value.dtype == dtype && r.value.offset == 0
    ensures r.Ok? ==> r.value.strides == if strides == [] then CStrides(shape, ScalarTypeSize(dtype)) else strides
    ensures r.Ok? ==> r.value.storage.sizeBytes == Wrap(Wrap(Product(shape)) * ScalarTypeSize(dtype))
    ensures r.Ok? ==> !r.value.storage.ownsData
  {
    if |shape| == 0 || data == null {
      return Err(InvalidArgument);
    }
    var e := ScalarTypeSize(dtype);
    var total := Wrap(Product(shape));
    var storage := new Storage(data, Wrap(total * e), dtype, false);
    var layout: seq<SizeT>;
    if |strides| == 0 {
      layout := CalculateStrides(shape, e, C);
    } else {
      if |strides| != |shape| {
        return Err(InvalidArgument);
      }
      layout := strides;
    }
    var arr := new Array(storage, shape, layout, dtype, 0);
    return Ok(arr);
  }

  /** The view constructor `Array(storage, shape, strides, dtype, offset)`:
      shape and strides of different lengths are an invalid argument;
      otherwise a new array over the same storage, nothing else checked. */
  method ViewArray(storage: Storage, shape: seq<SizeT>, strides: seq<SizeT>, dtype: ScalarType, offset: SizeT)
    returns (r: Result<Array>)
    ensures r.Err? <==> |shape| != |strides|
    ensures r.Err? ==> r.error == InvalidArgument
    ensures r.Ok? ==> fresh(r.value) && r.value.storage == storage && r.value.Valid()
    ensures r.Ok? ==> r.value.shape == shape && r.value.strides == strides
    ensures r.Ok? ==> r.value.dtype == dtype && r.value.offset == offset
  {
    if |shape| != |strides| {
      return Err(InvalidArgument);
    }
    var arr := new Array(storage, shape, strides, dtype, offset);
    return Ok(arr);
  }

  // ---------------------------------------------------------------------
  // What the layout guarantees
  // ---------------------------------------------------------------------

  /** Every element of a freshly allocated array lies inside its buffer:
      for each in-bounds index the element's offset plus its size is at most
      the allocated byte count, in either order. */
  lemma AllocatedElementsFit(shape: seq<SizeT>, dtype: ScalarType, order: Order, idx: seq<SizeT>)
    requires AllocationSize(shape, dtype).Ok? && InBounds(shape, idx)
    ensures OffsetOf(shape, Strides(shape, ScalarTypeSize(dtype), order), idx).Ok?
    ensures OffsetOf(shape, Strides(shape, ScalarTypeSize(dtype), order), idx).value + ScalarTypeSize(dtype)
              <= AllocationSize(shape, dtype).value
  {
    var e := ScalarTypeSize(dtype);
    var p := Product(shape);
    assert AllPositive(shape);
    assert p * e <= AllocationSize(shape, dtype).value;
    assert e * p <= SizeMax;
    StridesNoWrap(shape, e);
    if order == C {
      RowMajorBound(shape, idx, e);
    } else {
      ColumnMajorBound(shape, idx, e);
    }
    var d := Dot(idx, Strides(shape, e, order));
    DotNonNegative(idx, Strides(shape, e, order));
    assert 0 <= d && d + e <= e * p;
    assert Wrap(d) == d;
  }

  lemma {:induction false} DotNonNegative(idx: seq<SizeT>, strides: seq<SizeT>)
    requires |idx| == |strides|
    ensures Dot(idx, strides) >= 0
    decreases |idx|
  {
    if idx != [] {
      var n := |idx|;
      DotNonNegative(idx[..n - 1], strides[..n - 1]);
      MulNonNegative(idx[n - 1], strides[n - 1]);
    }
  }

  /** The element count 2^62 + 1 used below. */
  const HugeCount: SizeT := 0x4000_0000_0000_0001

  lemma HugeCountPasses()
    ensures CheckedCount([HugeCount]) == Ok(HugeCount)
  {
    var shape: seq<SizeT> := [HugeCount];
    assert shape[..0] == [];
    FloorDivTest(1, HugeCount, SizeMax);
  }

  /** Four bytes times 2^62 + 1 is 2^64 + 4, which wraps to 4 and rounds
      up to 32. */
  lemma HugeCountBytes()
    ensures CalculateAlignedSize(HugeCount, 4, DefaultAlignment) == 32
  {
    var bytes := HugeCount * 4;
    assert bytes == Modulus + 4;
    WrapShift(4, 1);
    assert Wrap(bytes) == 4;
    assert !(bytes + DefaultAlignment - 1 <= SizeMax);
    assert IsPowerOfTwo(32);
    AlignSizeIs(4, 32, 32);
  }

  lemma EighthElement()
    ensures OffsetOf([HugeCount], CStrides([HugeCount], 4), [8]) == Ok(32)
  {
    VectorLayouts(HugeCount, 4);
    var idx: seq<SizeT> := [8];
    DotTerms(idx, [4]);
  }

  /** The byte count AS WRITTEN can be far smaller than the array: for
      2^62 + 1 four-byte elements the count test passes, the byte count
      wraps to 4 and rounds to a 32-byte buffer, yet the in-bounds element 8
      starts at byte 32, past its end. The corrected size reports an
      overflow instead. */
  lemma UndersizedBufferAsWritten()
    ensures AllocationSizeAsWritten([HugeCount], Float32) == Ok(32)
    ensures InBounds([HugeCount], [8])
    ensures OffsetOf([HugeCount], CStrides([HugeCount], 4), [8]) == Ok(32)
    ensures AllocationSize([HugeCount], Float32) == Err(Overflow)
  {
    HugeCountPasses();
    HugeCountBytes();
    EighthElement();
  }
}
