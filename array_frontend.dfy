/** The Python array front end (xft/array.py): the element-access dispatch
    table, the normalisation of index keys in `Array.__getitem__` and
    `Array.__setitem__`, and the `_truncate` pretty-print helper.

    The element type of an array is the host runtime's scalar type
    (`DType.Float32` and `DType.Float64` of the `_core` binding). The C++
    getters and setters are named, not run: a successful access yields the
    core call it would make. */
module XftArrayFrontend {
  import opened Wrappers
  import opened XftScalarTypes
  import Text

  // ---------------------------------------------------------------------
  // The dispatch table
  // ---------------------------------------------------------------------

  datatype Access = Get | Set

  /** A `_core` element accessor, such as `get_float32` or
      `set_float64_2d`. */
  datatype CoreFunction = CoreFunction(access: Access, dtype: ScalarType, rank: nat)

  /** The binding's name of an accessor: `get_`/`set_`, the type name, and
      `_2d` for the two-dimensional ones. */
  function CoreName(f: CoreFunction): string
  {
    (if f.access == Get then "get_" else "set_") + ScalarTypeToString(f.dtype) +
    (if f.rank == 2 then "_2d" else "")
  }

  /** `ArrayDispatch._table`: (dtype, ndim) to (getter, setter), for both
      scalar types and one or two dimensions. */
  const Table: map<(ScalarType, int), (CoreFunction, CoreFunction)> :=
    map[(Float32, 1) := (CoreFunction(Get, Float32, 1), CoreFunction(Set, Float32, 1)),
        (Float64, 1) := (CoreFunction(Get, Float64, 1), CoreFunction(Set, Float64, 1)),
        (Float32, 2) := (CoreFunction(Get, Float32, 2), CoreFunction(Set, Float32, 2)),
        (Float64, 2) := (CoreFunction(Get, Float64, 2), CoreFunction(Set, Float64, 2))]

  /** The table holds exactly the one- and two-dimensional combinations. */
  lemma InTable(dtype: ScalarType, ndim: int)
    ensures (dtype, ndim) in Table <==> ndim == 1 || ndim == 2
  {
    assert Table.Keys == {(Float32, 1), (Float64, 1), (Float32, 2), (Float64, 2)};
  }

  /** `ArrayDispatch.get_fn`: the getter of the table entry; a missing
      entry (the `KeyError`) becomes a TypeError. */
  function GetFn(dtype: ScalarType, ndim: int): (r: Result<CoreFunction>)
    ensures r.Ok? <==> ndim == 1 || ndim == 2
    ensures r.Err? ==> r.error == TypeError
    ensures r.Ok? ==> r.value == CoreFunction(Get, dtype, ndim)
  {
    InTable(dtype, ndim);
    if (dtype, ndim) in Table then Ok(Table[(dtype, ndim)].0) else Err(TypeError)
  }

  /** `ArrayDispatch.set_fn`: the setter of the table entry, or a
      TypeError. */
  function SetFn(dtype: ScalarType, ndim: int): (r: Result<CoreFunction>)
    ensures r.Ok? <==> ndim == 1 || ndim == 2
    ensures r.Err? ==> r.error == TypeError
    ensures r.Ok? ==> r.value == CoreFunction(Set, dtype, ndim)
  {
    InTable(dtype, ndim);
    if (dtype, ndim) in Table then Ok(Table[(dtype, ndim)].1) else Err(TypeError)
  }

  /** The getter and setter of a combination are found together and are
      the matching pair: same type and rank, opposite access. */
  lemma GetAndSetAgree(dtype: ScalarType, ndim: int)
    ensures GetFn(dtype, ndim).Ok? <==> SetFn(dtype, ndim).Ok?
    ensures GetFn(dtype, ndim).Ok? ==>
      GetFn(dtype, ndim).value.access == Get && SetFn(dtype, ndim).value.access == Set &&
      GetFn(dtype, ndim).value.dtype == SetFn(dtype, ndim).value.dtype == dtype &&
      GetFn(dtype, ndim).value.rank == SetFn(dtype, ndim).value.rank == ndim
  {
  }

  /** The table entries are the binding functions the comments list, for
      example `get_float32` and `set_float64_2d`. */
  lemma CoreNames()
    ensures CoreName(GetFn(Float32, 1).value) == "get_float32"
    ensures CoreName(SetFn(Float64, 2).value) == "set_float64_2d"
  {
    assert GetFn(Float32, 1).value == CoreFunction(Get, Float32, 1);
    assert SetFn(Float64, 2).value == CoreFunction(Set, Float64, 2);
    assert "get_" + "float32" + "" == "get_float32";
    assert "set_" + "float64" + "_2d" == "set_float64_2d";
  }

  /** Distinct accessors have distinct binding names, so the table never
      hands out one function for two combinations. */
  lemma CoreNamesInjective(f: CoreFunction, g: CoreFunction)
    requires f.rank in {1, 2} && g.rank in {1, 2}
    ensures CoreName(f) == CoreName(g) <==> f == g
  {
    if CoreName(f) == CoreName(g) {
      var pf := if f.access == Get then "get_" else "set_";
      var pg := if g.access == Get then "get_" else "set_";
      assert CoreName(f)[0] == pf[0] && CoreName(g)[0] == pg[0];
      var nf := ScalarTypeToString(f.dtype);
      var ng := ScalarTypeToString(g.dtype);
      assert CoreName(f)[4..11] == nf && CoreName(g)[4..11] == ng;
      NamesInjective(f.dtype, g.dtype);
      assert |CoreName(f)| == |CoreName(g)|;
    }
  }

  // ---------------------------------------------------------------------
  // Index keys
  // ---------------------------------------------------------------------

  /** The Python objects a key can be. `bool` is a subclass of `int`, so
      `isinstance(key, int)` holds for it; any other type is `Other`. */
  datatype PyObject = PyInt(i: int) | PyBool(b: bool) | PyTuple(items: seq<PyObject>) | Other(typeName: string)

  /** The shape facts the accessors consult: the array's element type and
      its number of dimensions. */
  datatype ArrayInfo = ArrayInfo(dtype: ScalarType, ndim: nat)

  /** The key normalisation shared by `__getitem__` and `__setitem__`: an
      int becomes a 1-tuple, a tuple stays as it is, anything else is a
      TypeError; then a length other than `ndim` is an IndexError. */
  function NormalizeKey(key: PyObject, ndim: nat): (r: Result<seq<PyObject>>)
    ensures r.Err? && r.error == TypeError <==> key.Other?
    ensures r.Err? && r.error == IndexError <==>
      (key.PyTuple? && |key.items| != ndim) || ((key.PyInt? || key.PyBool?) && ndim != 1)
    ensures r.Err? ==> r.error in {TypeError, IndexError}
    ensures r.Ok? ==> |r.value| == ndim
    ensures r.Ok? && key.PyTuple? ==> r.value == key.items
    ensures r.Ok? && !key.PyTuple? ==> r.value == [key]
  {
    var t :- match key
      case PyInt(_) => Ok([key])
      case PyBool(_) => Ok([key])
      case PyTuple(items) => Ok(items)
      case Other(_) => Err(TypeError);
    if |t| != ndim then Err(IndexError) else Ok(t)
  }

  /** A normalised key, wrapped as a tuple again, normalises to itself. */
  lemma NormalizeKeyIdempotent(key: PyObject, ndim: nat)
    requires NormalizeKey(key, ndim).Ok?
    ensures NormalizeKey(PyTuple(NormalizeKey(key, ndim).value), ndim) == NormalizeKey(key, ndim)
  {
  }

  /** An int key behaves as the 1-tuple holding it. */
  lemma IntKeyIsOneTuple(i: int, ndim: nat)
    ensures NormalizeKey(PyInt(i), ndim) == NormalizeKey(PyTuple([PyInt(i)]), ndim)
  {
  }

  /** The core call an element access makes: the accessor and its
      positional index arguments. */
  datatype CoreCall = CoreCall(fn: CoreFunction, indices: seq<PyObject>)

  /** `Array.__getitem__`: normalise the key, then look up the getter. The
      key checks come first, so an unsupported rank with a well-formed key
      is a TypeError from the table, and a malformed key never reaches the
      table. */
  function GetItem(a: ArrayInfo, key: PyObject): (r: Result<CoreCall>)
    ensures r.Err? <==> NormalizeKey(key, a.ndim).Err? || !(a.ndim in {1, 2})
    ensures NormalizeKey(key, a.ndim).Err? ==> r == Err(NormalizeKey(key, a.ndim).error)
    ensures NormalizeKey(key, a.ndim).Ok? && !(a.ndim in {1, 2}) ==> r == Err(TypeError)
    ensures r.Ok? ==> r.value.fn == CoreFunction(Get, a.dtype, a.ndim) &&
                      r.value.indices == NormalizeKey(key, a.ndim).value
  {
    var indices :- NormalizeKey(key, a.ndim);
    var fn :- GetFn(a.dtype, a.ndim);
    Ok(CoreCall(fn, indices))
  }

  /** `Array.__setitem__`: the same checks in the same order, then the
      setter. The conversion `float(value)` is not modelled; the result is
      the call without its value argument. */
  function SetItem(a: ArrayInfo, key: PyObject): (r: Result<CoreCall>)
    ensures r.Err? <==> NormalizeKey(key, a.ndim).Err? || !(a.ndim in {1, 2})
    ensures r.Ok? ==> r.value.fn == CoreFunction(Set, a.dtype, a.ndim) &&
                      r.value.indices == NormalizeKey(key, a.ndim).value
  {
    var indices :- NormalizeKey(key, a.ndim);
    var fn :- SetFn(a.dtype, a.ndim);
    Ok(CoreCall(fn, indices))
  }

  /** Reading and writing accept the same keys, fail with the same error,
      and address the same element. */
  lemma GetItemSetItemAgree(a: ArrayInfo, key: PyObject)
    ensures GetItem(a, key).Ok? <==> SetItem(a, key).Ok?
    ensures GetItem(a, key).Err? ==> SetItem(a, key) == GetItem(a, key)
    ensures GetItem(a, key).Ok? ==> SetItem(a, key).value.indices == GetItem(a, key).value.indices
  {
  }

  /** The cases the docstrings describe: `arr[0, 1]` on a 2-D float32
      array calls `get_float32_2d(0, 1)`; a list key is a TypeError; a
      single index into a 2-D array is an IndexError; a 3-D array has no
      accessor. */
  lemma GetItemExamples()
    ensures GetItem(ArrayInfo(Float32, 2), PyTuple([PyInt(0), PyInt(1)]))
            == Ok(CoreCall(CoreFunction(Get, Float32, 2), [PyInt(0), PyInt(1)]))
    ensures GetItem(ArrayInfo(Float32, 2), Other("list")) == Err(TypeError)
    ensures GetItem(ArrayInfo(Float32, 2), PyInt(0)) == Err(IndexError)
    ensures GetItem(ArrayInfo(Float64, 3), PyTuple([PyInt(0), PyInt(0), PyInt(0)])) == Err(TypeError)
  {
  }

  // ---------------------------------------------------------------------
  // _truncate
  // ---------------------------------------------------------------------

  /** `items[:k]` in Python: the first k items, or all when there are
      fewer. */
  function PyHead<T>(items: seq<T>, k: nat): (r: seq<T>)
    ensures |r| == if |items| < k then |items| else k
    ensures r <= items
  {
    if |items| < k then items else items[..k]
  }

  /** `items[-k:]` in Python for k > 0: the last k items, or all when there
      are fewer. */
  function PyTail<T>(items: seq<T>, k: nat): (r: seq<T>)
    requires k > 0
    ensures |r| == if |items| < k then |items| else k
    ensures r == items[|items| - |r|..]
  {
    if |items| < k then items else items[|items| - k..]
  }

  /** `_truncate(items, max_elems)`: every item joined by ", " when there
      are at most `max_elems`; otherwise the first three, "...", and the
      last two. */
  function Truncate(items: seq<string>, maxElems: int): (s: string)
  {
    if |items| <= maxElems then Text.Join(items, ", ")
    else Text.Join(PyHead(items, 3), ", ") + ", ..., " + Text.Join(PyTail(items, 2), ", ")
  }

  /** A short list is shown whole. */
  lemma TruncateShort(items: seq<string>, maxElems: int)
    requires |items| <= maxElems
    ensures Truncate(items, maxElems) == Text.Join(items, ", ")
  {
  }

  /** A list longer than `max_elems`, when that is at least 4, is shown as
      the list made of its first three items, an ellipsis and its last two,
      so no item is shown twice. */
  lemma TruncateLong(items: seq<string>, maxElems: int)
    requires maxElems >= 4 && |items| > maxElems
    ensures Truncate(items, maxElems) ==
            Text.Join(items[..3] + ["..."] + items[|items| - 2..], ", ")
  {
    var head, tail := items[..3], items[|items| - 2..];
    assert PyHead(items, 3) == head && PyTail(items, 2) == tail;
    Text.JoinAppend(head, ["..."], ", ");
    Text.JoinAppend(head + ["..."], tail, ", ");
    assert Text.Join(["..."], ", ") == "...";
  }

  /** Seven items under the default limit 6: the first three and the last
      two, around the ellipsis. */
  lemma TruncateSeven(items: seq<string>)
    requires |items| == 7
    ensures Truncate(items, 6) ==
            items[0] + ", " + items[1] + ", " + items[2] + ", ..., " + items[5] + ", " + items[6]
  {
    var head, tail := items[..3], items[5..];
    assert PyHead(items, 3) == head && PyTail(items, 2) == tail;
    assert head == [items[0]] + [items[1], items[2]];
    Text.JoinAppend([items[0]], [items[1], items[2]], ", ");
    Text.JoinTwo(items[1], items[2], ", ");
    assert tail == [items[5], items[6]];
    Text.JoinTwo(items[5], items[6], ", ");
  }

  /** The docstring's example: seven items with the default limit 6. */
  lemma TruncateExample()
    ensures Truncate(["1", "2", "3", "4", "5", "6", "7"], 6) == "1, 2, 3, ..., 6, 7"
  {
    TruncateSeven(["1", "2", "3", "4", "5", "6", "7"]);
  }
}
