# xft core in Dafny

This project models xft's core in Dafny and proves properties of the model. xft is an array runtime that partitions arrays into shards across devices. The model covers three layers:

- **The partitioning engine (`xftcpp/src`):**
  - `ShardingParam`: mesh verification, the greedy shard walk, mesh linearisation and the global/local shape conversions;
  - the `HloSharding` wrapper logic;
  - the value types `Index`, `IndexDomain`, `Shape` and `DynamicShape`;
  - `DeviceList` with its cached addressable sublist;
  - the interned `MemoryKind`;
  - the `DType` size and code tables;
  - the reference-count state machine.
- **The host array runtime (`cpp/xft`):** strides, contiguity, offsets, checked element access, aligned sizes and the scalar-type registry.
- **The Python dtype layer (`xft/_internal/dtype.py`, `xft/array.py`):** the type-promotion lattice and its least upper bounds, x64 canonicalisation, the inexact and complex conversions, element-access dispatch, key normalisation and `_truncate`.

Each source file has one module:

| module | file | models |
|---|---|---|
| `XftShardingParam` | `sharding_param.dfy` | `xftcpp/src/sharding_params.{h,cc}` |
| `XftHloSharding` | `hlo_sharding.dfy` | `xftcpp/src/xla_shardings.cpp` |
| `XftIndex` | `index.dfy` | `xftcpp/src/index.h` |
| `XftIndexDomain` | `index_domain.dfy` | `xftcpp/src/index_domain.h` |
| `XftShape` | `shape.dfy` | `xftcpp/src/shape.{h,cpp}` |
| `XftDeviceList` | `device_list.dfy` | `xftcpp/src/device_list.cpp` |
| `XftMemory` | `memory_kind.dfy` | `xftcpp/src/memory.cpp` |
| `XftRefCount` | `ref_count.dfy` | `xftcpp/src/ref_count.h` |
| `XftDType` | `dtype_kind.dfy` | `xftcpp/src/dtype.{h,cpp}` |
| `XftHostArray` | `host_array.dfy` | `cpp/xft/array.h`, with the buffer as a map |
| `XftAlignedMemory` | `aligned_memory.dfy` | `cpp/xft/memory.h` |
| `XftScalarTypes` | `scalar_types.dfy` | `cpp/xft/scalar_types.h` |
| `XftPyDType` | `py_dtype.dfy` | `xft/_internal/dtype.py` |
| `XftArrayFrontend` | `array_frontend.dfy` | `xft/array.py` |

Three helper modules support the others:
- `Wrappers` holds the `Result` and `Option` types and the error kinds.
- `Text` formats decimal integers and joins strings.
- `Products` holds products of integer sequences.

**How the source's forms carry over**
- Code that changes state in the source is a method with `modifies` over a class, or a loop with invariants. Each is proved against a specification function. Examples: the verify walks, `PopulateDevices`, the stride loops, the lattice closure, the reference counts and the caches.
- Pure code is a function.
- C++ value types (`Index`, `IndexDomain`, `Shape`, `ShardingParam`) are datatypes. Their `operator==` is value equality. A compound assignment rebinds the variable to the result of the binary operator.
- A pointer comparison stays a reference comparison. `Device`, `DeviceList` and the reference-counted objects are classes. A `MemoryKind` is a slot in the intern pool, and its `==` compares slots, as the source compares pointers.

**Errors and widths**
- A `CHECK` or a `DCHECK` becomes a precondition. So does behaviour the C++ leaves undefined, except signed overflow.
- The `int64_t`, `int` and `unsigned` arithmetic of `xftcpp/src` is unbounded in the model. Those results are exact only when no overflow occurs (see "## Left out").
- A returned `absl::Status` error or a thrown exception becomes an `Err` of a `Result`.
- `size_t` arithmetic in `cpp/xft` is modelled modulo 2^64, and the host array's `size_t` wrap-around is written out.

**Parameters instead of inputs**
- The XLA sharding queries and per-tile geometry.
- The hash functions.
- The device name texts.

## Model

| member | source | states |
|---|---|---|
| XftAlignedMemory.AlignSizeIsLeastMultiple | cpp/xft/memory.h:15-22 | for a power-of-two alignment and a sum that does not wrap, `align_size` is a multiple of the alignment, at least the size and less than one alignment above it |
| XftAlignedMemory.AlignSizeIs | cpp/xft/memory.h:15-22 | any multiple of the alignment in [size, size + alignment) is the value `align_size` returns |
| XftAlignedMemory.AlignSizeIdempotent | cpp/xft/memory.h:18-22 | an already aligned size is returned unchanged |
| XftAlignedMemory.AlignSizeExamples | cpp/xft/memory.h:17-22 | the eight (size, alignment, result) triples of the tests, among them align_size(0, 32) == 0, align_size(33, 32) == 64 and align_size(50, 16) == 64 |
| XftAlignedMemory.AlignSizeWraps | cpp/xft/memory.h:18-22 | the size_t sum wraps: align_size(SIZE_MAX, 32) is 0 |
| XftAlignedMemory.ClearLowBits64 | cpp/xft/memory.h:21 | ANDing a size_t with `~(a - 1)` for a power of two a rounds it down to a multiple of a |
| XftAlignedMemory.AlignSizeNoWrap | cpp/xft/memory.h:21 | without wrap-around the bitwise expression is the sum ANDed with 2^64 - alignment |
| XftAlignedMemory.CalculateAlignedSize | cpp/xft/memory.h:24-30 | when neither the product nor the rounding wraps, the result is the least multiple of the alignment holding n elements of e bytes |
| XftAlignedMemory.CalculateAlignedSizeExamples | cpp/xft/memory.h:26-30 | calculate_aligned_size(10, 4, 32) == 64, (100, 4, 32) == 416 and (1000, 8, 32) == 8000 |
| XftAlignedMemory.PowerOfTwoTest | cpp/xft/memory.h:43 | for a positive alignment, `alignment & (alignment - 1) == 0` holds exactly when the alignment is a power of two |
| XftAlignedMemory.AllocAligned | cpp/xft/memory.h:36-64 | size 0 gives a null pointer whatever the alignment; an alignment below sizeof(void*) or not a power of two is invalid_argument, and only then; otherwise the block has `align_size(size, alignment)` bytes, a multiple of the alignment covering the size, or is null when posix_memalign fails |
| XftAlignedMemory.DefaultAlignmentValid | cpp/xft/memory.h:13 | DEFAULT_ALIGNMENT is 32, a power of two, and passes both alignment checks |
| XftAlignedMemory.Wrap | cpp/xft/memory.h:18-30 | reduction modulo 2^64 leaves every representable size_t value unchanged |
| XftDeviceList.AddressableOf | xftcpp/src/device_list.cpp:87-93 | the filtered list is no longer than the list, holds only addressable devices of the list, and holds every addressable device of it |
| XftDeviceList.AddressableOfAppend | xftcpp/src/device_list.cpp:87-93 | filtering distributes over concatenation, so the kept devices keep their original order |
| XftDeviceList.AddressableOfAll | xftcpp/src/device_list.cpp:66-80 | a list whose devices are all addressable filters to itself |
| XftDeviceList.FilterAddressable | xftcpp/src/device_list.cpp:87-93 | the filtering loop yields exactly the addressable devices in order |
| XftDeviceList.DeviceList.AddressableDeviceList | xftcpp/src/device_list.cpp:64-99 | the result lists exactly the addressable devices in order; with all devices addressable it is the list itself and the cache is untouched; otherwise a cached list is returned as is, and without one a fresh list is built and becomes the cache, which is written at most once |
| XftDeviceList.DeviceList.Equals | xftcpp/src/device_list.cpp:101-115 | true exactly when the two lists hold the same device objects at every position, lengths included |
| XftDeviceList.DeviceList.Hash | xftcpp/src/device_list.cpp:117-132 | the loop computes the left fold of `h ^= hash(id) + 0x9e3779b9 + (h << 6) + (h >> 2)` over the ids from h = 0, so it depends only on the ordered id sequence |
| XftDeviceList.HashIsOrderDependent | xftcpp/src/device_list.cpp:120-132 | with the identity per-id hash, ids [1, 2] and [2, 1] hash differently |
| XftDeviceList.DeviceList.ToString | xftcpp/src/device_list.cpp:148-166 | an empty list prints "DeviceList([])"; otherwise the device texts, in order, joined by ", " inside "DeviceList([" and "])" |
| XftDeviceList.GetDeviceIds | xftcpp/src/device_list.cpp:168-178 | the ids in list order, one per device |
| XftDeviceList.Ids | xftcpp/src/device_list.cpp:125-127 | one id per device, in order |
| XftDeviceList.DeviceList.constructor | xftcpp/src/device_list.cpp:61-62 | a list keeps the given devices and starts with no cached addressable list |
| XftDType.CodeInjective | xftcpp/src/dtype.h:22-78 | the enumerator values are pairwise distinct, so equal codes mean equal kinds and the code names the kind |
| XftDType.ByteSize | xftcpp/src/dtype.cpp:13-71 | a defined byte size is 1, 2, 4, 8 or 16; it is absent exactly for the sub-byte kinds and for Token, Opaque, Invalid and String |
| XftDType.BitSizeMatchesByteSize | xftcpp/src/dtype.cpp:13-139 | whenever the byte size is defined the bit size is eight times it; a kind has a bit size but no byte size exactly when it is sub-byte, and then 2 or 4 bits; only Token, Opaque, Invalid and String have no bit size |
| XftDType.DebugStringExamples | xftcpp/src/dtype.cpp:146-215 | the printed names of F32, BF16, INVALID, STRING and F8E4M3B11FNUZ |
| XftDType.DebugStringInjective | xftcpp/src/dtype.cpp:146-215 | two kinds print the same name exactly when they are the same kind, so the printed name identifies the kind |
| XftDType.ToPrimitiveType | xftcpp/src/dtype.cpp:229-282 | succeeds exactly for the kinds other than String, with the XLA code equal to the kind's enumerator value; String is an InvalidArgument error |
| XftDType.KindOfCode | xftcpp/src/dtype.cpp:288-325 | for a listed XLA code, the cast yields the kind whose enumerator value is that code |
| XftDType.FromPrimitiveType | xftcpp/src/dtype.cpp:288-331 | succeeds exactly for the listed XLA codes, with a non-string kind whose code is the input; any other code is an InvalidArgument error |
| XftDType.PrimitiveTypeRoundTrip | xftcpp/src/dtype.cpp:229-331 | the conversions invert each other in both directions, and the accepted codes are exactly the codes of the non-string kinds |
| XftHloSharding.FullyReplicatedCases | xftcpp/src/xla_shardings.cpp:204-207 | a replicated sharding is fully replicated on any device count; manual, unreduced and unknown ones never are; tiled and maximal ones are exactly when there is one device |
| XftHloSharding.HloSharding.constructor | xftcpp/src/xla_shardings.cpp:188-207 | stores devices, memory kind and XLA sharding, computes the fully-replicated flag as above, and leaves the hash unset |
| XftHloSharding.CreateHloSharding | xftcpp/src/xla_shardings.cpp:177-186 | a fresh sharding over the given devices and XLA sharding whose memory kind is canonicalised against the first device |
| XftHloSharding.CanonicalizeMemoryKindWithDevices | xftcpp/src/xla_shardings.cpp:165-169 | a set memory kind is kept; an unset one becomes the first device's default memory when it has one |
| XftHloSharding.CeilOfRatioLeast | xftcpp/src/xla_shardings.cpp:254-257 | the integer ceiling used for shard extents is the least q with q * b >= a |
| XftHloSharding.ShardShapeCases | xftcpp/src/xla_shardings.cpp:210-259 | the shard shape is the whole shape unless the sharding is tiled; a tiled one fails exactly on a tile count other than the device count or a rank other than the tiled data rank, and otherwise each shard extent times its tile count covers the extent while one fewer does not |
| XftHloSharding.ShardShapeExample | xftcpp/src/xla_shardings.cpp:245-248 | [9, 16] tiled [2, 4] over 8 devices gives shards of [5, 4] |
| XftHloSharding.HloSharding.GetShardShape | xftcpp/src/xla_shardings.cpp:210-259 | the method's result is the shard shape specified above |
| XftHloSharding.EvenShardingCases | xftcpp/src/xla_shardings.cpp:322-353 | replicated, tile-maximal, unreduced and manual shardings are even and unknown ones are not; a tiled one fails exactly on a rank mismatch and is even exactly when every data extent divides by its tile count, and then each shard extent times its tile count is the extent |
| XftHloSharding.HloSharding.ClassifyEven | xftcpp/src/xla_shardings.cpp:322-353 | the loop's classification is the even/uneven classification specified above |
| XftHloSharding.KeptIndicesMembers | xftcpp/src/xla_shardings.cpp:594-600 | the positions a device loop keeps are increasing, and a position is kept exactly when all shards are asked for or its device is addressable |
| XftHloSharding.KeptAddressable | xftcpp/src/xla_shardings.cpp:594-600 | keeping the addressable positions of the device list selects exactly the addressable devices, in order |
| XftHloSharding.IndexDomainsSlowPath | xftcpp/src/xla_shardings.cpp:105-154 | one tile domain per kept device, in device order |
| XftHloSharding.IndexDomainsCases | xftcpp/src/xla_shardings.cpp:456-603 | manual shardings are an InvalidArgument error; replicated and tile-maximal ones give the whole-shape domain once per kept device; a tiled sharding with only replicated subgroups fails exactly on a tile count other than the device count, a rank other than the tiled data rank or an error of the tile iteration |
| XftHloSharding.IndexDomainsAllShardsCount | xftcpp/src/xla_shardings.cpp:398-407 | with all shards a successful call gives one domain per device, so the CHECK_EQ in Disassemble never fires |
| XftHloSharding.FastPathAgreesWithSlowPath | xftcpp/src/xla_shardings.cpp:493-603 | when the tile iteration reports the per-device domains, a successful fast-path result equals the slow path's |
| XftHloSharding.HloSharding.IndexDomains | xftcpp/src/xla_shardings.cpp:456-603 | the method's result is the index-domain list specified above, and the device list stays valid |
| XftHloSharding.HloSharding.IndexDomainsAll | xftcpp/src/xla_shardings.cpp:450-454 | the single-argument overload asks for all shards |
| XftHloSharding.DisassembleShapes | xftcpp/src/xla_shardings.cpp:308-428 | a successful disassembly pairs each kept device with the one shard shape on the even path, or with the shape of its own domain among all shards' domains on the uneven path |
| XftHloSharding.DisassembleProperties | xftcpp/src/xla_shardings.cpp:308-428 | every piece carries the sharding's memory kind, and the pieces sit on all devices for all shards and on exactly the addressable devices, in order, otherwise |
| XftHloSharding.HloSharding.Disassemble | xftcpp/src/xla_shardings.cpp:308-428 | the method's result is the disassembly specified above |
| XftHloSharding.HloSharding.PlacePieces | xftcpp/src/xla_shardings.cpp:369-387 | the result loop pairs each kept device, in order, with its shape and a single-device sharding in this sharding's memory kind |
| XftHloSharding.HloSharding.DisassembleAll | xftcpp/src/xla_shardings.cpp:301-305 | the single-argument overload asks for all shards |
| XftHloSharding.HloSharding.DisassembleDynamic | xftcpp/src/xla_shardings.cpp:430-448 | a dynamic shape always gives an InvalidArgument error |
| XftHloSharding.SamePartitioningLaws | xftcpp/src/xla_shardings.cpp:262-282 | a sharding has the same partitioning as itself, never as a sharding of another kind, and as another HloSharding exactly when the device counts and XLA shardings are equal |
| XftHloSharding.HloSharding.WithDeviceAssignment | xftcpp/src/xla_shardings.cpp:284-299 | fails with InvalidArgument exactly when new devices of another count are given; otherwise a fresh sharding over the new or old devices with the same XLA sharding and the new or old memory kind, canonicalised |
| XftHloSharding.NonZeroHash | xftcpp/src/xla_shardings.cpp:621-627 | the cached hash is never the unset value 0, and equals the computed hash whenever that is not 0 |
| XftHloSharding.HloSharding.Hash | xftcpp/src/xla_shardings.cpp:610-644 | returns the non-zero hash of devices, memory kind and XLA sharding, and caches it |
| XftHostArray.StoreThenLoad | cpp/xft/array.h:253-258 | a read after a write through an element reference gives the value written, and other addresses keep their values |
| XftHostArray.Memory.Store | cpp/xft/array.h:253-258 | assigning through the reference `at` returns changes that one address and no other |
| XftHostArray.StrideRecurrences | cpp/xft/array.h:288-309 | the innermost (C) or outermost (F) stride is the element size, and each further stride is the previous one times the previous dimension, wrapped in size_t |
| XftHostArray.CalculateStrides | cpp/xft/array.h:288-309 | the loop's strides are the row-major or column-major strides of the shape |
| XftHostArray.StrideExamples | tests/test_array.cpp:89-97 | shape (2, 3, 4) of 4-byte elements in C order has strides (48, 16, 4), and shape (3, 4) in F order has strides (4, 12) |
| XftHostArray.VectorLayouts | tests/test_array.cpp:30-37 | a one-dimensional layout is one stride of the element size in both orders |
| XftHostArray.OrdersDiffer | tests/test_array.cpp:50-75 | for shape (3, 4) the C strides (16, 4) are not the F strides |
| XftHostArray.OffsetCases | cpp/xft/array.h:195-207 | `calculate_offset` is an invalid argument exactly on a rank mismatch, out of range exactly on an index past its dimension, and succeeds exactly for in-bounds indices |
| XftHostArray.CheckedCountCases | cpp/xft/array.h:40-51 | the count loop fails on any zero dimension and otherwise exactly when the product exceeds SIZE_MAX, with Overflow; a success is the exact product of positive dimensions |
| XftHostArray.AllocationSizeRefinesAsWritten | cpp/xft/array.h:31-61 | the corrected byte size agrees with the constructor as written whenever its extra overflow test passes, and fails whenever the code as written fails |
| XftHostArray.AllocationSize | cpp/xft/array.h:31-61 | an error is InvalidArgument for an empty shape or a zero dimension, or Overflow; a success is a multiple of the default alignment that covers count times element size by less than one alignment |
| XftHostArray.StridesNoWrap | cpp/xft/array.h:288-309 | when the whole byte count fits in size_t no stride wraps |
| XftHostArray.RowMajorBound | cpp/xft/array.h:293-299 | in a row-major layout every in-bounds element ends within count times element size bytes |
| XftHostArray.ColumnMajorBound | cpp/xft/array.h:300-306 | the same bound for a column-major layout |
| XftHostArray.Array.NDim | cpp/xft/array.h:113 | the number of dimensions |
| XftHostArray.Array.ShapeAt | cpp/xft/array.h:119-124 | the dimension of an axis, and out of range exactly past the last axis |
| XftHostArray.Array.ItemSize | cpp/xft/array.h:144 | the element type's size |
| XftHostArray.Array.Size | cpp/xft/array.h:129-132 | the product of the shape when it fits in size_t, 1 for an empty shape and 0 when a dimension is 0 |
| XftHostArray.Array.NBytes | cpp/xft/array.h:135-137 | size times item size when that fits in size_t |
| XftHostArray.Array.IsContiguous | cpp/xft/array.h:163-175 | true exactly when the strides are the row-major strides of the shape |
| XftHostArray.Array.IsFContiguous | cpp/xft/array.h:178-190 | true exactly when the strides are the column-major strides of the shape |
| XftHostArray.Array.CalculateOffset | cpp/xft/array.h:195-207 | the loop's result is the offset specified above |
| XftHostArray.Array.At | cpp/xft/array.h:253-258 | fails exactly on an element type other than the array's (InvalidArgument) or an index that is not in bounds; otherwise the element's address |
| XftHostArray.Array.At1 | cpp/xft/array.h:211-221 | the one-index accessor addresses the same element as the general accessor |
| XftHostArray.Array.At2 | cpp/xft/array.h:224-235 | the two-index accessor addresses the same element as the general accessor |
| XftHostArray.Array.At3 | cpp/xft/array.h:238-249 | the three-index accessor addresses the same element as the general accessor |
| XftHostArray.OffsetOfThree | cpp/xft/array.h:246-247 | the three wrapped terms `at(i0, i1, i2)` sums are the general offset |
| XftHostArray.NewArray | cpp/xft/array.h:31-61 | the corrected constructor, which checks the byte count and not only the element count (see "## Findings"): fails exactly when the corrected allocation size does, with its error; otherwise a fresh owning array of that byte size with the strides of the requested order and offset 0 |
| XftHostArray.CountErrorPersists | cpp/xft/array.h:42-50 | a count error on a prefix of the shape is the error of the whole loop |
| XftHostArray.WrapArray | cpp/xft/array.h:66-96 | fails with InvalidArgument exactly on an empty shape, a null pointer or strides of the wrong length; otherwise a non-owning array over the caller's memory with C strides by default and the wrapped byte count |
| XftHostArray.ViewArray | cpp/xft/array.h:99-110 | fails with InvalidArgument exactly when shape and strides differ in length; otherwise a view over the same storage with the given layout |
| XftHostArray.AllocatedElementsFit | cpp/xft/array.h:31-61 | with the corrected size, every in-bounds element of a freshly allocated array, in either order, lies inside its buffer |
| XftHostArray.UndersizedBufferAsWritten | cpp/xft/array.h:46-54 | as written, 2^62 + 1 four-byte elements pass the count test and get a 32-byte buffer although in-bounds element 8 starts at byte 32; the corrected size reports Overflow |
| XftHostArray.Storage.constructor | cpp/xft/storage.h:87-94 | a storage records its buffer, byte size, element type and ownership flag |
| XftHostArray.HugeCountPasses | cpp/xft/array.h:40-51 | the element-count guard lets the shape [2^62 + 1] through |
| XftHostArray.HugeCountBytes | cpp/xft/array.h:53-54 | four bytes per element for 2^62 + 1 elements wraps to 4 bytes, aligned up to 32 |
| XftHostArray.EighthElement | cpp/xft/array.h:195-207 | in that array the element at index 8 lies at byte offset 32, the end of the 32-byte buffer |
| XftIndex.Plus | xftcpp/src/index.h:128-135 | the element-wise sum of two indices of equal arity |
| XftIndex.Minus | xftcpp/src/index.h:145-152 | the element-wise difference of two indices of equal arity |
| XftIndex.Times | xftcpp/src/index.h:165-172 | the element-wise product with one multiplier per element |
| XftIndex.PlusMinusInverse | xftcpp/src/index.h:128-152 | subtracting an offset undoes adding it, and adding undoes subtracting |
| XftIndex.MinusIsPlusNegated | xftcpp/src/index.h:128-152 | subtracting is adding the offset times -1 |
| XftIndex.OperatorExamples | xftcpp/src/index.h:122-156 | [1,2,3] + [10,20,30] is [11,22,33], [11,22,33] - [10,20,30] is [1,2,3], and [2,3,4] times {10,100,1000} is [20,300,4000] |
| XftIndex.Index.Zeros | xftcpp/src/index.h:86-88 | n zero elements |
| XftIndex.Index.Add | xftcpp/src/index.h:128-135 | the copy-and-add loop gives the element-wise sum |
| XftIndex.Index.Sub | xftcpp/src/index.h:145-152 | the copy-and-subtract loop gives the element-wise difference |
| XftIndex.Index.Mul | xftcpp/src/index.h:165-172 | the copy-and-multiply loop gives the element-wise product |
| XftIndex.Index.AddAssign | xftcpp/src/index.h:175-177 | the new value is this plus the offset, of the same arity |
| XftIndex.Index.SubAssign | xftcpp/src/index.h:179-181 | the new value is this minus the offset, of the same arity |
| XftIndex.Index.MulAssign | xftcpp/src/index.h:183-185 | the new value is this times the multipliers, of the same arity |
| XftIndex.EqualsIsElementwise | xftcpp/src/index.h:108-114 | two indices are equal exactly when they have the same length and agree at every position |
| XftIndex.DebugStringExamples | xftcpp/src/index.h:195-199 | [2,3,4] prints as "[2,3,4]", the empty index as "[]" and [-1] as "[-1]" |
| XftIndex.DebugStringInjective | xftcpp/src/index.h:195-199 | two indices print the same text exactly when they are equal, so the bracketed, comma-separated decimal text determines the elements and the arity |
| XftIndexDomain.IndexDomain.Add | xftcpp/src/index_domain.h:148-150 | the origin moves by the offset and the shape is kept |
| XftIndexDomain.IndexDomain.Sub | xftcpp/src/index_domain.h:157-159 | the origin moves back by the offset and the shape is kept |
| XftIndexDomain.IndexDomain.AddAssign | xftcpp/src/index_domain.h:162-165 | only the origin changes, to origin plus offset |
| XftIndexDomain.IndexDomain.SubAssign | xftcpp/src/index_domain.h:167-170 | only the origin changes, to origin minus offset |
| XftIndexDomain.Make | xftcpp/src/index_domain.h:88-94 | a domain with the given origin and shape, which must have the same rank |
| XftIndexDomain.FromShape | xftcpp/src/index_domain.h:105-106 | the given shape with a zero origin of one element per dimension |
| XftIndexDomain.EqualityLaws | xftcpp/src/index_domain.h:128-134 | `==` holds exactly for equal values, and `!=` is exactly its negation |
| XftIndexDomain.ShiftRoundTrip | xftcpp/src/index_domain.h:148-159 | shifting a domain forth and back by the same offset, in either order, gives the domain back |
| XftIndexDomain.DebugStringExample | xftcpp/src/index_domain.h:176-184 | origin [2,3] and shape [4,5] print as "IndexDomain(origin=[2,3],shape=[4,5])" |
| XftMemory.SameTextSameSlot | xftcpp/src/memory.cpp:43-51 | in a pool without duplicates two kinds with equal text are the same pooled entry, so the slot comparison of `operator==` is a text comparison |
| XftMemory.MemoryKindPool.constructor | xftcpp/src/memory.cpp:36 | the process-wide pool starts empty and without duplicates |
| XftMemory.MemoryKindPool.Intern | xftcpp/src/memory.cpp:35-52 | no string gives the unset kind and leaves the pool alone; a string gives a kind whose pooled text is that string; the pool only grows, by that string exactly when it was absent, and keeps no duplicates |
| XftMemory.MemoryKindPool.ToString | xftcpp/src/memory.cpp:54-59 | the pooled text of a set kind, and "(default)" for the unset kind |
| XftMemory.CanonicalizeMemoryKind | xftcpp/src/memory.cpp:103-117 | a set kind is kept; an unset kind becomes the device's default-memory kind when there is one and stays unset otherwise |
| XftMemory.CanonicalizeIdempotent | xftcpp/src/memory.cpp:103-117 | canonicalising twice is canonicalising once when the device default is itself set or absent |
| XftMemory.MemoryId | xftcpp/src/memory.cpp:78-83 | -1 for memory without a backing PJRT space, otherwise that space's id |
| XftPyDType.PrioritiesDistinct | xft/_internal/dtype.py:74-86 | no two registered dtypes share a priority, so `__eq__` (name and priority) is identity and `<`, `>` are strict total orders |
| XftPyDType.PriorityRoundTrip | xft/_internal/dtype.py:155-193 | the priority determines the dtype: looking a dtype's priority up gives that dtype |
| XftPyDType.Classification | xft/_internal/dtype.py:196-254 | `is_float` holds exactly for the members of `floats` and `is_int` exactly for those of `ints`; `all` is bool, the integers, the floats and the complexes, and only void, float0 and string are outside it |
| XftPyDType.ParseMode | xft/_internal/dtype.py:940-954 | exactly "standard" and "strict" are promotion modes; anything else is a ValueError |
| XftPyDType.Settings.constructor | xft/_internal/dtype.py:53-54 | x64 starts enabled and the promotion mode starts as "standard" |
| XftPyDType.Settings.SetPromotionMode | xft/_internal/dtype.py:940-954 | a known name sets the mode; an unknown one is a ValueError and leaves the mode; the x64 flag is untouched |
| XftPyDType.Settings.SetX64Enabled | xft/_internal/dtype.py:960-966 | sets the x64 flag and leaves the mode |
| XftPyDType.Settings.GetPromotionMode | xft/_internal/dtype.py:956-958 | the current mode |
| XftPyDType.Settings.GetX64Enabled | xft/_internal/dtype.py:968-970 | the current x64 flag |
| XftPyDType.DefaultInt | xft/_internal/dtype.py:214-216 | int64 with x64 enabled, int32 otherwise |
| XftPyDType.DefaultUInt | xft/_internal/dtype.py:218-220 | uint64 with x64 enabled, uint32 otherwise |
| XftPyDType.DefaultFloat | xft/_internal/dtype.py:222-224 | float64 with x64 enabled, float32 otherwise |
| XftPyDType.DefaultComplex | xft/_internal/dtype.py:226-228 | complex128 with x64 enabled, complex64 otherwise |
| XftPyDType.Canonicalize | xft/_internal/dtype.py:483-492 | the identity with x64 enabled; without it no 64-bit type remains, a 64-bit type moves to a lower-priority type and every other type is kept |
| XftPyDType.CanonicalizeIdempotent | xft/_internal/dtype.py:302-307 | canonicalising twice is canonicalising once, and the four defaults are already canonical |
| XftPyDType.CheckAndCanonicalizeUserDType | xft/_internal/dtype.py:500-525 | None is a ValueError; a dtype becomes its canonical form, with the truncation warning exactly when x64 is off and the dtype is 64-bit |
| XftPyDType.ToInexact | xft/_internal/dtype.py:396-401 | floats and complexes are kept; bool and the integers become float32, except int64 and uint64, which become float64 |
| XftPyDType.ToInexactIdempotent | xft/_internal/dtype.py:340-401 | converting to inexact twice is converting once, and every dtype of `all` becomes a float or a complex |
| XftPyDType.ToComplexAsWritten | xft/_internal/dtype.py:403-408 | as written, the result is always a complex type |
| XftPyDType.ToComplexNarrowsComplex128 | xft/_internal/dtype.py:403-408 | as written, `to_complex(complex128)` is complex64, because the inexact form of complex128 is complex128, not float64 |
| XftPyDType.ToComplex | xft/_internal/dtype.py:403-408 | corrected: complex128 exactly for the double-precision types (inexact form float64 or complex128), complex64 otherwise |
| XftPyDType.ToComplexIdempotent | xft/_internal/dtype.py:403-408 | corrected, complex types are kept and converting twice is converting once |
| XftPyDType.ToComplexAgreesElsewhere | tests/test_dtype.py:164-167 | the correction agrees with the code on every type but complex128, including the expectations int32 to complex64 and float64 to complex128 of the dtype tests |
| XftPyDType.ShortNameUInt8 | xft/_internal/dtype.py:142-147 | "uint" is replaced before "int", so uint8 becomes "u8" |
| XftPyDType.ShortNameInt64 | xft/_internal/dtype.py:142-147 | int64 becomes "i64" |
| XftPyDType.ShortNameFloat32 | xft/_internal/dtype.py:142-147 | float32 becomes "f32" |
| XftPyDType.ShortNameBool | xft/_internal/dtype.py:142-147 | bool has none of the four words and is unchanged |
| XftPyDType.AbbreviateParts | xft/_internal/dtype.py:142-147 | for any text made of a lead, one of the words float, uint, int or complex (or none) and a middle, where lead and middle lack the letters f, u, i and c, followed by a suffix of at most four characters without i or c and with a u only among its last three (as in "fnuz"), the four replacements cut the word to its first letter and keep every other character |
| XftPyDType.ShortNameAbbreviatesTypeWord | xft/_internal/dtype.py:142-193 | for every dtype of the table, the name starts with its type word (after the "b" of bfloat16), and `short_name` is the name with that word cut to its first letter and every other character kept; void, bool and string, which have no type word, keep their names |
| XftPyDType.LatticeNodesAre | xft/_internal/dtype.py:694-758 | the lattice nodes are the three weak types and the dtypes of `all` |
| XftPyDType.StandardFloatSuccessors | xft/_internal/dtype.py:722-746 | in standard mode the weak float leads to the custom floats and float16 |
| XftPyDType.StrictIntSuccessors | xft/_internal/dtype.py:747-758 | in strict mode the weak int leads to exactly the integers |
| XftPyDType.StrictFloatSuccessors | xft/_internal/dtype.py:747-758 | in strict mode the weak float leads to exactly the floats |
| XftPyDType.StrictComplexSuccessors | xft/_internal/dtype.py:747-758 | in strict mode the weak complex leads to exactly the complexes |
| XftPyDType.Lattice | xft/_internal/dtype.py:694-758 | a successor map over exactly the lattice nodes |
| XftPyDType.TypePromotionLattice | xft/_internal/dtype.py:694-758 | an unknown method name is a ValueError; otherwise the lattice of that mode |
| XftPyDType.ClosureLeast | xft/_internal/dtype.py:760-779 | the set the fixed-point loop reaches is the least superset closed under successors |
| XftPyDType.SuccessorsOfAll | xft/_internal/dtype.py:769-771 | the inner loop collects the successors of every bound found so far |
| XftPyDType.NodeUpperBounds | xft/_internal/dtype.py:765-778 | a cycle through the node is a ValueError; otherwise the node's upper bounds are the closure of the node |
| XftPyDType.UpperBoundsTable | xft/_internal/dtype.py:760-779 | a table with every node's closure, unless some node lies on a cycle (ValueError) |
| XftPyDType.BoundsUnfold | xft/_internal/dtype.py:760-779 | the bounds of a node are the node and the bounds of its successors |
| XftPyDType.BoundsTransitive | xft/_internal/dtype.py:760-779 | a bound of a bound is a bound |
| XftPyDType.BoundsAbove | xft/_internal/dtype.py:773-774 | under a rank that every edge raises, every other bound ranks higher and the cycle check never fires |
| XftPyDType.LeastBound | xft/_internal/dtype.py:787-824 | no inputs is a TypeError and an input outside the lattice a ValueError; a result is a lattice node |
| XftPyDType.LeastBoundSpec | xft/_internal/dtype.py:787-824 | on antisymmetric bounds the promotion succeeds exactly when a least bound exists, returns it, and otherwise raises TypePromotionError |
| XftPyDType.LatticeAcyclic | xft/_internal/dtype.py:694-785 | neither lattice has a cycle, so building the module-level tables never raises, and two nodes bounding each other are equal |
| XftPyDType.MakeLatticeUpperBounds | xft/_internal/dtype.py:760-785 | an unknown method name is a ValueError; otherwise every lattice node maps to its upper bounds |
| XftPyDType.UpperBoundsAntisymmetric | xft/_internal/dtype.py:782-785 | two nodes that bound each other are the same node |
| XftPyDType.LeastUpperBound | xft/_internal/dtype.py:787-824 | no inputs is a TypeError and a non-lattice input a ValueError; a result is a lattice node |
| XftPyDType.LeastUpperBoundSpec | xft/_internal/dtype.py:787-824 | promoting lattice nodes succeeds exactly when a least upper bound exists and returns it; otherwise TypePromotionError, and an ambiguous result never occurs |
| XftPyDType.LeastUpperBoundOfSet | xft/_internal/dtype.py:787-806 | the result depends only on the set of inputs, not on their order or repetitions |
| XftPyDType.InputBoundingAllIsResult | xft/_internal/dtype.py:787-806 | an input that bounds all the others is the result |
| XftPyDType.ResultDType | xft/_internal/dtype.py:839-847 | weak results become the x64-dependent default int, float or complex; a dtype result is kept |
| XftPyDType.PromoteTypes | xft/_internal/dtype.py:826-847 | the least upper bound of the two, as a dtype, with its error when it fails |
| XftPyDType.PromoteSymmetric | xft/_internal/dtype.py:826-847 | promotion is symmetric |
| XftPyDType.PromoteReflexive | xft/_internal/dtype.py:826-847 | a lattice dtype promoted with itself is itself |
| XftPyDType.CanCastSafely | xft/_internal/dtype.py:926-936 | a cast between equal types, or types with the same canonical form, is safe |
| XftPyDType.CanCastSafelyIsPromotion | xft/_internal/dtype.py:926-936 | for lattice dtypes a cast is safe exactly when promoting the canonical source and target yields the canonical target |
| XftPyDType.PromoteAlongPath | xft/_internal/dtype.py:787-847 | the two ends of a successor path promote to its end |
| XftPyDType.SinkDoesNotPromote | xft/_internal/dtype.py:805-824 | a node without successors does not promote with a different node of no lower rank |
| XftPyDType.SharedSuccessorPromotes | xft/_internal/dtype.py:787-824 | two different nodes of the same rank whose only successor is j promote to j |
| XftPyDType.Float8AndBFloat16DoNotPromote | tests/test_dtype.py:371-376 | float8_e4m3fn and bfloat16 do not promote, in either mode |
| XftPyDType.Int8WithFloat32Standard | tests/test_dtype.py:342 | in standard mode int8 and float32 promote to float32 |
| XftPyDType.Int8WithFloat32Strict | xft/_internal/dtype.py:747-758 | in strict mode int8 and float32 do not promote |
| XftPyDType.Int64WithUInt64 | xft/_internal/dtype.py:722-746 | int64 and uint64 promote to the default float |
| XftPyDType.UpperBounds | xft/_internal/dtype.py:782-785 | a node's table entry contains the node, stays inside the lattice and is closed under the lattice's edges |
| XftRefCount.Step | xftcpp/src/ref_count.h:121-144 | on a live object with a positive count, AddRef adds one; DropRef destroys the object exactly when it held the last reference and otherwise subtracts one |
| XftRefCount.RunBalance | xftcpp/src/ref_count.h:121-144 | replaying AddRef/DropRef events that never drop the count to zero early ends at the initial count plus the net balance, and destroys the object exactly when that sum is zero |
| XftRefCount.Counted.constructor | xftcpp/src/ref_count.h:97 | a new object starts with one reference |
| XftRefCount.Counted.WithCount | xftcpp/src/ref_count.h:102-106 | the explicit constructor starts with the given count |
| XftRefCount.Counted.AddRef | xftcpp/src/ref_count.h:121-126 | requires a count of at least one and adds exactly one |
| XftRefCount.Counted.DropRef | xftcpp/src/ref_count.h:129-144 | requires a positive count; dropping the last reference stores 0 (in debug builds) and destroys the object, otherwise the count goes down by one |
| XftRefCount.RCReference.constructor | xftcpp/src/ref_count.h:187 | the default reference holds nothing |
| XftRefCount.RCReference.Copy | xftcpp/src/ref_count.h:197-201 | a copy shares the pointer and adds one reference to it |
| XftRefCount.RCReference.Move | xftcpp/src/ref_count.h:191-194 | a move takes the pointer, nulls the source and changes no count |
| XftRefCount.RCReference.Reset | xftcpp/src/ref_count.h:234-239 | drops the old reference, if any, and stores the new pointer without adding a reference to it |
| XftRefCount.RCReference.MoveAssign | xftcpp/src/ref_count.h:206-210 | drops the old reference, takes the source's pointer and nulls the source |
| XftRefCount.RCReference.CopyAssign | xftcpp/src/ref_count.h:215-221 | drops the old reference and shares the source's pointer with one more reference; assigning the same object keeps its count |
| XftRefCount.RCReference.Destruct | xftcpp/src/ref_count.h:224-228 | the destructor drops the reference held, if any |
| XftRefCount.RCReference.Release | xftcpp/src/ref_count.h:244-248 | gives up the pointer and nulls the reference without dropping a reference |
| XftRefCount.RCReference.Swap | xftcpp/src/ref_count.h:276-279 | exchanges the two pointers and changes no count |
| XftRefCount.FormRef | xftcpp/src/ref_count.h:335-340 | a fresh reference to the object, with one more reference counted |
| XftRefCount.TakeRef | xftcpp/src/ref_count.h:353-358 | a fresh reference that adopts the caller's reference without counting another |
| XftRefCount.MakeRef | xftcpp/src/ref_count.h:367-370 | a fresh object with count one, owned by the fresh reference returned |
| XftScalarTypes.ScalarTypeToString | cpp/xft/scalar_types.h:45-66 | each type's registered name: "float32" for Float32 and "float64" for Float64 |
| XftScalarTypes.StringToScalarType | cpp/xft/scalar_types.h:73-85 | a type exactly for a registered name, namely the type with that name; nothing otherwise |
| XftScalarTypes.NameRoundTrip | cpp/xft/scalar_types.h:45-85 | parsing a type's name gives the type back |
| XftScalarTypes.NamesInjective | cpp/xft/scalar_types.h:45-66 | two types have the same name exactly when they are the same type |
| XftScalarTypes.UnknownNames | cpp/xft/scalar_types.h:73-85 | the comparison is exact: "Float32", "float16" and "" are not recognised |
| XftScalarTypes.ScalarTypeSize | cpp/xft/scalar_types.h:91-98 | 4 bytes for Float32 and 8 for Float64 |
| XftScalarTypes.ScalarTypeName | cpp/xft/scalar_types.h:104-106 | the same text as `scalarTypeToString` |
| XftShape.Shape.NumElements | xftcpp/src/shape.cpp:50-56 | the running product is the product of the dimensions |
| XftShape.NumElementsFacts | xftcpp/src/shape.cpp:50-56 | the product is 1 for the empty shape and 0 exactly when some dimension is 0 |
| XftShape.ShapeDebugStringExamples | xftcpp/src/shape.cpp:58-60 | [2,3] prints as "[2,3]" and the empty shape as "[]" |
| XftShape.ShapeDebugStringInjective | xftcpp/src/shape.cpp:58-60 | two shapes print the same text exactly when they are equal, so the text determines the dimensions and the rank |
| XftShape.MakeTag | xftcpp/src/shape.h:109-114 | a tag keeps its flags, and one is only built when at least one flag is set |
| XftShape.Create | xftcpp/src/shape.cpp:77-98 | fails with InvalidArgument exactly when the tag length differs from the rank; otherwise the dynamic shape of that shape and tag |
| XftShape.GetPaddedShape | xftcpp/src/shape.cpp:100-108 | the stored bound shape, unchanged, from which `Create` rebuilds the same dynamic shape |
| XftShape.IsDynamicDim | xftcpp/src/shape.cpp:110-119 | the tag flag of the dimension, and out of range exactly for a dimension outside the tag |
| XftShape.DynamicDebugString | xftcpp/src/shape.cpp:128-144 | the per-dimension texts, in order, joined by "," inside square brackets |
| XftShape.DimRepMarksDynamic | xftcpp/src/shape.cpp:136-139 | a dimension's text starts with "<=" followed by its bound exactly when the dimension is dynamic, and is the bound alone otherwise |
| XftShardingParam.ElementsCard | xftcpp/src/sharding_params.cc:170-177 | the set of a list's entries has as many elements as the list exactly when the list has no duplicates |
| XftShardingParam.MinorToMajor.Verify | xftcpp/src/sharding_params.cc:162-190 | passes exactly for a well-formed mesh (equal non-zero lengths, no duplicate and no out-of-range axis in the permutation); every failure is an invalid argument |
| XftShardingParam.MinorToMajor.NumDevices | xftcpp/src/sharding_params.cc:229-235 | the running product is the product of the axis sizes |
| XftShardingParam.MinorToMajor.ToDeviceList | xftcpp/src/sharding_params.cc:201-222 | appends the mesh's device order, built from the offsets `cum_sizes[i]` = product of the sizes before axis i, to what the vector already held |
| XftShardingParam.ShardingParam.Verify | xftcpp/src/sharding_params.cc:304-384 | passes exactly when the mesh verifies and the greedy walk over the permutation places every shard count; every failure is an invalid argument |
| XftShardingParam.ShardingParam.NumDevices | xftcpp/src/sharding_params.cc:483-489 | the number of devices is the product of the mesh's axis sizes |
| XftShardingParam.ShardingParam.CanApplyTo | xftcpp/src/sharding_params.cc:395-420 | success exactly when the sharding verifies, its rank equals the tensor's and the device list has one id per mesh device |
| XftShardingParam.ShardingParam.GlobalShapeFromLocalShape | xftcpp/src/sharding_params.cc:426-448 | a rank mismatch is an invalid argument; otherwise each global extent is the shard count times the local extent |
| XftShardingParam.ShardingParam.LocalShapeFromGlobalShape | xftcpp/src/sharding_params.cc:450-477 | an extent not divisible by its shard count is an invalid argument; otherwise each local extent times the shard count is the global extent |
| XftShardingParam.EqualityAndHash | xftcpp/src/sharding_params.h:518-553 | `operator==` is equality of the values and equality of the three hashed vectors, so equal params hash alike under any hash of those vectors |
| XftShardingParam.SkipOnes | xftcpp/src/sharding_params.cc:349-352 | the first position at or after the start whose shard count is not 1, every count skipped being 1 |
| XftShardingParam.SkipUnitShards | xftcpp/src/sharding_params.cc:349-352 | the skipping loop ends where `SkipOnes` does |
| XftShardingParam.DivideOutShards | xftcpp/src/sharding_params.cc:362-367 | the consuming loop ends with the position and capacity `Consume` gives |
| XftShardingParam.WalkStep | xftcpp/src/sharding_params.cc:348-368 | one pass of the permutation loop: skip, grow the capacity by the next axis, consume |
| XftShardingParam.ConsumeStep | xftcpp/src/sharding_params.cc:363-366 | a shard count the capacity divides is consumed and divided out |
| XftShardingParam.VerifyAcceptExample | xftcpp/src/sharding_params.cc:317-330 | [2,1,3] on [1,0] over 3x2 is accepted |
| XftShardingParam.VerifyRejectExample | xftcpp/src/sharding_params.cc:332-342 | [2,2] on [0] over 2 is rejected |
| XftShardingParam.VerifyInvalidThreeAccepted | xftcpp/src/sharding_params.cc:344-383 | [1,2] on [0,1] over 3x2 is accepted by the code |
| XftShardingParam.ReplicationExample | xftcpp/src/sharding_params.h:502-505 | two shards on a mesh of six devices verify, each shard replicated on three devices |
| XftShardingParam.GlobalFromLocal | xftcpp/src/sharding_params.cc:431-445 | an error exactly on a rank mismatch; otherwise the elementwise product of the shard counts and the local shape |
| XftShardingParam.LocalFromGlobal | xftcpp/src/sharding_params.cc:466-476 | an error exactly when some extent does not divide by its shard count; otherwise a shape that times the shard counts is the global shape |
| XftShardingParam.ShapeRoundTrip | xftcpp/src/sharding_params.cc:426-477 | local to global to local gives the local shape back, and a global shape that divides evenly is rebuilt from its local shape |
| XftShardingParam.DeviceIdVector.constructor | xftcpp/src/sharding_params.cc:201-202 | a new output vector is empty |
| XftShardingParam.CumSizes | xftcpp/src/sharding_params.cc:212-218 | the offset of axis k is the product of the sizes of the axes before it |
| XftShardingParam.UptoStep | xftcpp/src/sharding_params.cc:125-134 | each pass of the loop over the expanding axis appends one id, or the ids of the remaining axes, for that position |
| XftShardingParam.PopulateDevices | xftcpp/src/sharding_params.cc:115-135 | appends exactly the recursive enumeration of the permutation from `base` |
| XftShardingParam.HornerBounds | xftcpp/src/sharding_params.cc:205-211 | the id of a mesh point lies in [0, number of devices) |
| XftShardingParam.CoordsOfId | xftcpp/src/sharding_params.cc:205-211 | every id in range is the id of a mesh point, its coordinates |
| XftShardingParam.IdOfCoords | xftcpp/src/sharding_params.cc:205-211 | a mesh point's coordinates are recovered from its id |
| XftShardingParam.HornerShift | xftcpp/src/sharding_params.cc:128-132 | a step of i along an axis adds i times that axis's offset to the id |
| XftShardingParam.PopulateFiber | xftcpp/src/sharding_params.cc:115-135 | the enumeration lists the ids of exactly the points that vary along the listed axes, each once |
| XftShardingParam.ListsEveryAxis | xftcpp/src/sharding_params.cc:170-187 | a verified permutation names every mesh axis |
| XftShardingParam.DeviceOrderIsPermutation | xftcpp/src/sharding_params.h:300-302 | for a verified mesh of positive sizes, the device list has one entry per device, each id in range, and every device exactly once |
| XftShardingParam.IdentityOrder | xftcpp/src/sharding_params.cc:115-135 | the identity permutation lists the devices in id order 0, 1, ... |
| XftShardingParam.DeviceOrderExamples | xftcpp/src/sharding_params.h:282-302 | [1,0] on 2x3 yields 0, 2, 4, 1, 3, 5 (the header's example claims 0..5) and on 2x2 yields 0, 2, 1, 3 |
| XftArrayFrontend.InTable | xft/array.py:76-81 | the table has an entry for a type and rank exactly when the rank is 1 or 2 |
| XftArrayFrontend.GetFn | xft/array.py:87-111 | the getter of the type and rank for ranks 1 and 2, and a TypeError for every other rank |
| XftArrayFrontend.SetFn | xft/array.py:113-137 | the setter of the type and rank for ranks 1 and 2, and a TypeError for every other rank |
| XftArrayFrontend.GetAndSetAgree | xft/array.py:76-137 | a getter is found exactly when a setter is, and the two are the matching pair of one type and rank |
| XftArrayFrontend.CoreNames | xft/array.py:77-80 | the (Float32, 1) getter is `get_float32` and the (Float64, 2) setter is `set_float64_2d` |
| XftArrayFrontend.CoreNamesInjective | xft/array.py:77-80 | two accessors bear the same binding name exactly when they are the same accessor |
| XftArrayFrontend.NormalizeKey | xft/array.py:399-407 | a TypeError exactly for a key that is neither an int (bools included) nor a tuple, an IndexError exactly when the number of indices differs from `ndim`; otherwise the indices, an int becoming a 1-tuple |
| XftArrayFrontend.NormalizeKeyIdempotent | xft/array.py:399-407 | a normalised key, passed again as a tuple, normalises to itself |
| XftArrayFrontend.IntKeyIsOneTuple | xft/array.py:400-401 | an int key behaves as the 1-tuple holding it |
| XftArrayFrontend.GetItem | xft/array.py:376-412 | fails exactly when the key is malformed (with its error) or the rank has no accessor (a TypeError); otherwise calls the getter of the array's type and rank with the normalised indices |
| XftArrayFrontend.SetItem | xft/array.py:415-449 | fails exactly when the key is malformed or the rank has no accessor; otherwise calls the setter of the array's type and rank with the normalised indices |
| XftArrayFrontend.GetItemSetItemAgree | xft/array.py:376-449 | reading and writing accept the same keys, fail with the same error and address the same element |
| XftArrayFrontend.GetItemExamples | xft/array.py:384-407 | `arr[0, 1]` on a 2-D float32 array calls `get_float32_2d(0, 1)`; a list key is a TypeError; one index into a 2-D array is an IndexError; a 3-D array has no getter |
| XftArrayFrontend.PyHead | xft/array.py:526 | `items[:k]`: a prefix of length min(k, n) |
| XftArrayFrontend.PyTail | xft/array.py:527 | `items[-k:]`: a suffix of length min(k, n) |
| XftArrayFrontend.TruncateShort | xft/array.py:523-525 | at most `max_elems` items are all joined by ", " |
| XftArrayFrontend.TruncateLong | xft/array.py:526-528 | more than `max_elems` (at least 4) items show as the first three, "..." and the last two, joined by ", " |
| XftArrayFrontend.TruncateSeven | xft/array.py:517-528 | seven items under the default limit show items 0, 1, 2, the ellipsis, then items 5 and 6 |
| XftArrayFrontend.TruncateExample | xft/array.py:520-521 | the docstring's seven-item example yields "1, 2, 3, ..., 6, 7" |

## Left out

**Foreign code, I/O and hashing**
- HighwayHash fingerprinting (`DeviceList::fingerprint`, `FingerprintPrinter`) is a foreign library.
- `std::hash<int>` and `llvm::hash_combine` are hash functions passed in as parameters; only their inputs are modelled.
- MLIR parsing and printing: `Parse`, `ParseV1`, `PrintV1`, `PrintInternalV1`, `PrintDims`, the stream operators and `MinorToMajor::DebugString`. These are external parser and printer integration. `CanApplyTo` sees the tensor type only as its rank.
- XLA internals: `EachTile`, `TileOffsetForDevice` and `TileLimitForDevice` call code that is not shown. Tile origins and limits are an oracle parameter, not computed. `IndexDomainsSlowPath` is stated through that oracle.
- `HloSharding::DebugString` and `PjRtMemory::ToString` and `DebugString` return texts produced by XLA or PJRT.
- PJRT and device plumbing (`xftcpp/src/array.*`, `pjrt_plugin.cpp`, `device.*`) is external. A device is reduced to its id, its addressability and its texts.
- Bindings, build files and `main.cpp` hold no core logic.

**Concurrency**
- Concurrency is modelled sequentially. This covers the relaxed-atomic race on the cached hash, the atomics and memory orders of `ref_count.h`, the debug object counters and timestamps, and the mutex around the memory-kind pool. The caches become idempotent memoisation, and the pool becomes a plain table.
- XftRefCount.RCReference.CopyAssign: self-assignment of a sole reference is excluded by precondition. The source drops the only reference before adding it back.

**Memory, floating point and Python runtime types**
- `posix_memalign`, `free_aligned`, `is_aligned` and `shared_ptr` ownership in `Storage`: raw allocation is modelled by its validation and its result size only. `Storage::create`'s `bad_alloc` is not modelled.
- Element values are opaque. Float conversion (`float(value)` in `__setitem__`), `Scalar`, `DType.min`/`max`, `bit_width`/`itemsize` and NumPy/ml_dtypes are floating-point or foreign code.
- Value-based dtype inference (`_to_xft_dtype`, `dtype()`) and `register_weak_type` work on Python runtime type objects. `result_type` and `compatible_dtypes` build on them. The all-weak branch of `_lattice_result_type` passes a keyword its callee does not accept, so it cannot succeed, and it is not modelled.
- The string dtype of the Python layer has no lattice node and is only classified.
- `Array.__repr__` is modelled only through `_truncate`.

**Other**
- `NumRef`, `IsUnique`, `Get` and bool conversion of `RCReference`, and the plain accessors of the value types, read a field and state nothing beyond it.
- Sharding variants declared only in `sharding.h` (SingleDevice, Opaque, Concrete, ConcreteEven, ShardingParamSharding) have no implementation among the files modelled. Only the shard semantics enum and a single-device result record are used.

**Where a comment and the code disagree, the code is followed**
- `LocalShapeFromGlobalShape` requires exact divisibility, not the ceiling its header describes.
- The linearisation example in `sharding_params.h` lists 0..5 for permutation [1,0] on a 2x3 mesh. The code yields 0, 2, 4, 1, 3, 5 (`XftShardingParam.DeviceOrderExamples`).
- The "Invalid 3" example in `sharding_params.h` is accepted by `verify` (`XftShardingParam.VerifyInvalidThreeAccepted`).
- `ToDeviceList` appends to its output vector. It does not clear it.
- The comment on `DynamicShape::DebugString` shows ", " between dimensions, but the code joins with ",".

**Preconditions and partial contracts**
- XftShardingParam.ShardingParam.Verify: non-zero shard counts are a precondition, because the walk computes `cum_size % dim_shards[i]`, which is undefined for zero. Negative and zero axis sizes are accepted as the code accepts them.
- XftShardingParam.DeviceOrderIsPermutation: proved only for meshes whose axis sizes are all positive. With a zero or negative axis size the device list is not a permutation of the device ids.
- XftShardingParam.ShardingParam.LocalShapeFromGlobalShape: equal ranks are a precondition, because the source indexes the global shape without a rank check.
- XftShardingParam.MinorToMajor.NumDevices: the product is unbounded. The source multiplies in `int` (sharding_params.cc:229-235), so the result is exact only when no intermediate product overflows.
- XftShardingParam.ShardingParam.NumDevices: the product is unbounded. The source multiplies in `int` (sharding_params.cc:483-489), so the result is exact only when no intermediate product overflows.
- XftShardingParam.ShardingParam.GlobalShapeFromLocalShape: each extent `dim_shard * local_shape[idx]` is unbounded. The source computes it in `int64_t` (sharding_params.cc:444), so the result is exact only when no product overflows.
- XftIndex.Index.Add: the elements are unbounded. The source adds `int64_t` elements (index.h:128-135), so the result is exact only when no sum overflows.
- XftIndex.Index.Sub: the elements are unbounded. The source subtracts `int64_t` elements (index.h:145-152), so the result is exact only when no difference overflows.
- XftIndex.Index.Mul: the elements are unbounded. The source multiplies `int64_t` elements (index.h:165-172), so the result is exact only when no product overflows.
- XftShape.Shape.NumElements: the product is unbounded. The source multiplies in `int64_t` (shape.cpp:50-56), so the result is exact only when no intermediate product overflows.
- XftRefCount.Counted.AddRef: the count is a `nat`. The source's counter is a `std::atomic<unsigned>` (ref_count.h:171), so the model is exact only below 2^32 references, where the source's count would wrap.

## Findings

| source | as written | input that shows it | evidently intended | confidence | as-written member | corrected member |
|---|---|---|---|---|---|---|
| cpp/xft/array.h:46-54 | the count test bounds the element count by SIZE_MAX, but the byte count `total_elements * element_size` is then computed in `size_t` and can wrap | shape [2^62 + 1] with float32: the count passes, 4 * (2^62 + 1) wraps to 4 and is aligned to a 32-byte buffer, yet element 8 starts at byte 32 | the constructor reports an overflow whenever the byte count exceeds SIZE_MAX, so every element lies inside the buffer | not executed | XftHostArray.AllocationSizeAsWritten, XftHostArray.UndersizedBufferAsWritten | XftHostArray.AllocationSize, XftHostArray.AllocatedElementsFit, XftHostArray.NewArray |
| xft/_internal/dtype.py:403-408 | `to_complex` returns complex128 only when the inexact form is float64, so complex128, whose inexact form is complex128, maps to complex64 | `to_complex(complex128)` yields complex64 | complex types map to themselves, so `to_complex` is idempotent and never narrows | not executed | XftPyDType.ToComplexAsWritten, XftPyDType.ToComplexNarrowsComplex128 | XftPyDType.ToComplex, XftPyDType.ToComplexIdempotent |
