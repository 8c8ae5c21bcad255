/** `xftcpp::ShardingParam` and its `MinorToMajor` device mesh
    (xftcpp/src/sharding_params.h, sharding_params.cc).

    Both are value structs, so datatypes. Their validation and the mesh
    linearisation are loops in the source and are methods here, each proved
    against a specification function; the lemmas below state what those
    functions mean. Machine integer overflow is not modelled: sizes and ids are
    unbounded integers. */
module XftShardingParam {
  import opened Wrappers
  import opened Products

  predicate Distinct(s: seq<int>)
  {
    forall i, j :: 0 <= i < j < |s| ==> s[i] != s[j]
  }

  /** The entries of a sequence as a set (the `DenseSet` the source builds). */
  function Elements(s: seq<int>): set<int>
  {
    set x | x in s
  }

  predicate EntriesBelow(s: seq<int>, n: int)
  {
    forall k :: 0 <= k < |s| ==> 0 <= s[k] < n
  }

  predicate AllNonZero(s: seq<int>)
  {
    forall k :: 0 <= k < |s| ==> s[k] != 0
  }

  predicate AllPositive(s: seq<int>)
  {
    forall k :: 0 <= k < |s| ==> s[k] > 0
  }

  /** A set built from a sequence has at most as many elements as the
      sequence, and exactly as many precisely when the sequence has no
      repeated entry: the duplicate test of `MinorToMajor::verify`. */
  lemma {:induction false} ElementsCard(s: seq<int>)
    ensures |Elements(s)| <= |s|
    ensures |Elements(s)| == |s| <==> Distinct(s)
    decreases |s|
  {
    if s != [] {
      var init := s[..|s| - 1];
      var x := s[|s| - 1];
      ElementsCard(init);
      assert s == init + [x];
      assert Elements(s) == Elements(init) + {x};
      DistinctSnoc(init, x);
      if x in init {
        assert Elements(s) == Elements(init);
      } else {
        assert x !in Elements(init);
      }
    }
  }

  /** One more entry keeps a sequence duplicate-free exactly when it is new. */
  lemma DistinctSnoc(init: seq<int>, x: int)
    ensures Distinct(init + [x]) <==> Distinct(init) && x !in init
  {
    var s := init + [x];
    if x in init {
      var i :| 0 <= i < |init| && init[i] == x;
      assert s[i] == s[|init|];
    } else if Distinct(init) {
      forall i, j | 0 <= i < j < |s| ensures s[i] != s[j] {
        assert s[i] == init[i];
        if j < |init| { assert s[j] == init[j]; }
      }
    }
    if Distinct(s) {
      forall i, j | 0 <= i < j < |init| ensures init[i] != init[j] {
        assert init[i] == s[i] && init[j] == s[j];
      }
    }
  }

  /** `ShardingParam::MinorToMajor`: `permutation[0]` names the mesh axis
      that varies fastest, `axis_sizes` the size of each mesh axis. */
  datatype MinorToMajor = MinorToMajor(permutation: seq<int>, axisSizes: seq<int>)
  {
    /** The mesh is well formed: equally many, and at least one, axes and
        permutation entries, and the permutation a duplicate-free list of
        axis numbers. */
    predicate Valid()
    {
      |permutation| == |axisSizes| && |axisSizes| > 0 &&
      Distinct(permutation) && EntriesBelow(permutation, |axisSizes|)
    }

    /** `MinorToMajor::verify`: the three checks in order, each failing with
        an invalid-argument status. */
    method Verify() returns (st: Status)
      ensures st.Pass? <==> Valid()
      ensures st.Fail? ==> st.error == InvalidArgument
    {
      if |permutation| != |axisSizes| || |axisSizes| == 0 {
        return Fail(InvalidArgument);
      }
      var permutationSet := Elements(permutation);
      ElementsCard(permutation);
      if |permutationSet| != |permutation| {
        return Fail(InvalidArgument);
      }
      var k := 0;
      while k < |permutation|
        invariant 0 <= k <= |permutation|
        invariant forall j :: 0 <= j < k ==> 0 <= permutation[j] < |axisSizes|
      {
        if permutation[k] < 0 || permutation[k] >= |axisSizes| {
          return Fail(InvalidArgument);
        }
        k := k + 1;
      }
      return Pass;
    }

    /** `MinorToMajor::NumDevices`: the running product of the axis sizes. */
    method NumDevices() returns (total: int)
      ensures total == Product(axisSizes)
    {
      total := 1;
      var i := 0;
      while i < |axisSizes|
        invariant 0 <= i <= |axisSizes|
        invariant total == Product(axisSizes[..i])
      {
        ProductSnoc(axisSizes, i);
        total := total * axisSizes[i];
        i := i + 1;
      }
      assert axisSizes[..i] == axisSizes;
    }

    /** `MinorToMajor::ToDeviceList`: builds the offsets `cum_sizes`, then
        appends the mesh's device ids to `out` in traversal order. The vector
        is appended to and never cleared. */
    method ToDeviceList(out: DeviceIdVector)
      requires |permutation| > 0 && EntriesBelow(permutation, |axisSizes|)
      modifies out
      ensures out.elems == old(out.elems) + DeviceOrder(this)
    {
      var cumSizes: seq<int> := [];
      var cumSize := 1;
      var i := 0;
      while i < |axisSizes|
        invariant 0 <= i <= |axisSizes|
        invariant cumSizes == CumSizes(axisSizes[..i])
        invariant cumSize == Product(axisSizes[..i])
      {
        assert axisSizes[..i + 1][..i] == axisSizes[..i];
        cumSizes := cumSizes + [cumSize];
        cumSize := cumSize * axisSizes[i];
        i := i + 1;
      }
      assert axisSizes[..i] == axisSizes;
      PopulateDevices(permutation, axisSizes, cumSizes, out, 0);
    }
  }

  /** `ShardingParam`: how many slices each tensor dimension is cut into,
      and the device mesh the slices are laid out on. */
  datatype ShardingParam = ShardingParam(dimShards: seq<int>, minorToMajor: MinorToMajor)
  {
    /** `ShardingParam::operator==`: equal shard counts and equal mesh (both
        vectors, as `MinorToMajor::operator==` compares them). */
    predicate Equals(other: ShardingParam)
    {
      dimShards == other.dimShards &&
      minorToMajor.permutation == other.minorToMajor.permutation &&
      minorToMajor.axisSizes == other.minorToMajor.axisSizes
    }

    /** The three vectors `hash_value` and `AbslHashValue` combine. */
    function HashInputs(): (seq<int>, seq<int>, seq<int>)
    {
      (dimShards, minorToMajor.permutation, minorToMajor.axisSizes)
    }

    /** The sharding is accepted: a well-formed mesh on which the greedy walk
        places every shard count. */
    predicate Valid()
      requires AllNonZero(dimShards)
    {
      minorToMajor.Valid() &&
      Walk(dimShards, minorToMajor.axisSizes, minorToMajor.permutation, 0, 0, 1) == |dimShards|
    }

    /** `ShardingParam::verify`: the mesh check, then the walk over the
        permutation from minor to major, which skips shard counts of 1,
        multiplies the running mesh capacity by each axis size, and divides
        out every shard count that capacity is a multiple of. A shard count
        of zero would be a division by zero, so none is allowed. */
    method Verify() returns (st: Status)
      requires AllNonZero(dimShards)
      ensures st.Pass? <==> Valid()
      ensures st.Fail? ==> st.error == InvalidArgument
    {
      st := minorToMajor.Verify();
      if st.Fail? {
        return st;
      }
      var perm := minorToMajor.permutation;
      var axis := minorToMajor.axisSizes;
      var dimIndex := 0;
      var cumSize := 1;
      ghost var goal := Walk(dimShards, axis, perm, 0, 0, 1);
      var j := 0;
      while j < |perm|
        invariant 0 <= j <= |perm| && 0 <= dimIndex <= |dimShards|
        invariant Walk(dimShards, axis, perm, j, dimIndex, cumSize) == goal
      {
        ghost var d0, c0 := dimIndex, cumSize;
        dimIndex := SkipUnitShards(dimShards, dimIndex);
        if dimIndex == |dimShards| {
          break;
        }
        cumSize := cumSize * axis[perm[j]];
        dimIndex, cumSize := DivideOutShards(dimShards, dimIndex, cumSize);
        WalkStep(dimShards, axis, perm, j, d0, c0);
        j := j + 1;
      }
      dimIndex := SkipUnitShards(dimShards, dimIndex);
      if dimIndex != |dimShards| {
        return Fail(InvalidArgument);
      }
      return Pass;
    }

    /** `ShardingParam::NumDevices`: the size of the mesh. */
    method NumDevices() returns (n: int)
      ensures n == Product(minorToMajor.axisSizes)
    {
      n := minorToMajor.NumDevices();
    }

    /** `CanApplyTo`, with the tensor type reduced to its rank: the sharding
        verifies, its rank is the tensor's, and there are as many device ids
        as mesh devices. */
    method CanApplyTo(rank: int, deviceIds: seq<int>) returns (ok: bool)
      requires AllNonZero(dimShards)
      ensures ok <==> Valid() && rank == |dimShards| && Product(minorToMajor.axisSizes) == |deviceIds|
    {
      var st := Verify();
      if st.Fail? {
        return false;
      }
      if rank != |dimShards| {
        return false;
      }
      var devicesInMesh := NumDevices();
      if devicesInMesh != |deviceIds| {
        return false;
      }
      return true;
    }

    /** `GlobalShapeFromLocalShape`. */
    method GlobalShapeFromLocalShape(local: seq<int>) returns (r: Result<seq<int>>)
      ensures r == GlobalFromLocal(dimShards, local)
    {
      if |local| != |dimShards| {
        return Err(InvalidArgument);
      }
      var global: seq<int> := [];
      var idx := 0;
      while idx < |dimShards|
        invariant 0 <= idx <= |dimShards| && |global| == idx
        invariant forall k :: 0 <= k < idx ==> global[k] == dimShards[k] * local[k]
      {
        global := global + [dimShards[idx] * local[idx]];
        idx := idx + 1;
      }
      ghost var expected := GlobalFromLocal(dimShards, local).value;
      assert forall k :: 0 <= k < |dimShards| ==> global[k] == expected[k];
      assert global == expected;
      return Ok(global);
    }

    /** `LocalShapeFromGlobalShape`: exact division only. The source reads
        `global_shape[i]` for every shard index without checking the rank,
        so equal ranks are required, and a zero shard count would divide by
        zero. */
    method LocalShapeFromGlobalShape(global: seq<int>) returns (r: Result<seq<int>>)
      requires |global| == |dimShards| && AllNonZero(dimShards)
      ensures r == LocalFromGlobal(dimShards, global)
    {
      var local: seq<int> := [];
      var i := 0;
      while i < |dimShards|
        invariant 0 <= i <= |dimShards| && |local| == i
        invariant forall k :: 0 <= k < i ==> global[k] % dimShards[k] == 0
        invariant forall k :: 0 <= k < i ==> local[k] == global[k] / dimShards[k]
      {
        if global[i] % dimShards[i] != 0 {
          return Err(InvalidArgument);
        }
        local := local + [global[i] / dimShards[i]];
        i := i + 1;
      }
      ghost var expected := LocalFromGlobal(dimShards, global).value;
      assert forall k :: 0 <= k < |dimShards| ==> local[k] * dimShards[k] == global[k] by {
        forall k | 0 <= k < |dimShards| ensures local[k] * dimShards[k] == global[k] {
          assert global[k] == dimShards[k] * (global[k] / dimShards[k]) + global[k] % dimShards[k];
        }
      }
      assert local == expected;
      return Ok(local);
    }
  }

  /** Equality is field-wise, which is equality of the values, and equal
      params feed the same three vectors to the hash. */
  lemma EqualityAndHash(p: ShardingParam, q: ShardingParam, hashOf: ((seq<int>, seq<int>, seq<int>)) -> bv64)
    ensures p.Equals(q) <==> p == q
    ensures p.Equals(q) <==> p.HashInputs() == q.HashInputs()
    ensures p.Equals(q) ==> hashOf(p.HashInputs()) == hashOf(q.HashInputs())
  {
  }

  // ---------------------------------------------------------------------
  // The greedy walk of `ShardingParam::verify`
  // ---------------------------------------------------------------------

  /** The first position at or after `di` whose shard count is not 1. */
  function SkipOnes(dims: seq<int>, di: nat): (r: nat)
    requires di <= |dims|
    ensures di <= r <= |dims|
    ensures forall k :: di <= k < r ==> dims[k] == 1
    ensures r < |dims| ==> dims[r] != 1
    decreases |dims| - di
  {
    if di < |dims| && dims[di] == 1 then SkipOnes(dims, di + 1) else di
  }

  /** Divides out shard counts from `di` on while the capacity `cum` is a
      multiple of the next one; yields the new position and capacity. */
  function Consume(dims: seq<int>, di: nat, cum: int): (r: (nat, int))
    requires di <= |dims| && AllNonZero(dims)
    ensures di <= r.0 <= |dims|
    decreases |dims| - di
  {
    if di < |dims| && cum % dims[di] == 0 then Consume(dims, di + 1, cum / dims[di]) else (di, cum)
  }

  /** The first loop in the walk of `ShardingParam::verify`: steps over
      shard counts of 1. */
  method SkipUnitShards(dims: seq<int>, di: nat) returns (r: nat)
    requires di <= |dims|
    ensures r == SkipOnes(dims, di)
  {
    r := di;
    while r < |dims| && dims[r] == 1
      invariant di <= r <= |dims|
      invariant SkipOnes(dims, r) == SkipOnes(dims, di)
    {
      r := r + 1;
    }
  }

  /** The second loop in the walk of `ShardingParam::verify`: divides the
      capacity by each following shard count while it is a multiple of it. */
  method DivideOutShards(dims: seq<int>, di: nat, cum: int) returns (r: nat, c: int)
    requires di <= |dims| && AllNonZero(dims)
    ensures (r, c) == Consume(dims, di, cum)
  {
    r, c := di, cum;
    while r < |dims| && c % dims[r] == 0
      invariant di <= r <= |dims|
      invariant Consume(dims, r, c) == Consume(dims, di, cum)
    {
      ConsumeStep(dims, r, c);
      c := c / dims[r];
      r := r + 1;
    }
  }

  /** Where the walk ends, starting at permutation entry `j`, shard position
      `di` and capacity `cum`. */
  function Walk(dims: seq<int>, axis: seq<int>, perm: seq<int>, j: nat, di: nat, cum: int): (r: nat)
    requires j <= |perm| && di <= |dims| && AllNonZero(dims) && EntriesBelow(perm, |axis|)
    ensures di <= r <= |dims|
    decreases |perm| - j
  {
    var d := SkipOnes(dims, di);
    if j == |perm| || d == |dims| then d
    else
      var c := Consume(dims, d, cum * axis[perm[j]]);
      Walk(dims, axis, perm, j + 1, c.0, c.1)
  }

  /** One step of the walk: skip the shard counts of 1, then consume with
      the capacity grown by the next axis. */
  lemma WalkStep(dims: seq<int>, axis: seq<int>, perm: seq<int>, j: nat, di: nat, cum: int)
    requires j < |perm| && di <= |dims| && AllNonZero(dims) && EntriesBelow(perm, |axis|)
    requires SkipOnes(dims, di) < |dims|
    ensures var c := Consume(dims, SkipOnes(dims, di), cum * axis[perm[j]]);
            Walk(dims, axis, perm, j, di, cum) == Walk(dims, axis, perm, j + 1, c.0, c.1)
  {
  }

  /** A shard count the capacity divides is consumed. */
  lemma ConsumeStep(dims: seq<int>, di: nat, cum: int)
    requires di < |dims| && AllNonZero(dims) && cum % dims[di] == 0
    ensures Consume(dims, di, cum) == Consume(dims, di + 1, cum / dims[di])
  {
  }

  /** The accept example worked through in the comments of
      `ShardingParam::verify`. */
  lemma VerifyAcceptExample()
    ensures ShardingParam([2, 1, 3], MinorToMajor([1, 0], [3, 2])).Valid()
  {
  }

  /** The reject example of `ShardingParam::verify`: two shards of 2 on a
      single axis of 2. */
  lemma VerifyRejectExample()
    ensures !ShardingParam([2, 2], MinorToMajor([0], [2])).Valid()
  {
  }

  /** The header's "Invalid 3" example, which the code accepts: after
      skipping the leading 1, the capacity 3 of axis 0 does not divide by 2,
      but the capacity 6 of both axes does. */
  lemma VerifyInvalidThreeAccepted()
    ensures ShardingParam([1, 2], MinorToMajor([0, 1], [3, 2])).Valid()
  {
  }

  /** A mesh of 6 devices for only 2 shards: every shard is replicated on 3
      devices. */
  lemma ReplicationExample()
    ensures ShardingParam([2], MinorToMajor([0, 1], [2, 3])).Valid()
    ensures Product([2, 3]) == 6 && Product([2]) == 2
  {
    assert [2, 3][..1] == [2];
  }

  // ---------------------------------------------------------------------
  // Shape conversions
  // ---------------------------------------------------------------------

  /** The global shape: each local extent times its shard count; a rank
      mismatch is an invalid argument. */
  function GlobalFromLocal(dims: seq<int>, local: seq<int>): (r: Result<seq<int>>)
    ensures r.Err? <==> |local| != |dims|
    ensures r.Err? ==> r.error == InvalidArgument
    ensures r.Ok? ==> |r.value| == |dims| && forall k :: 0 <= k < |dims| ==> r.value[k] == dims[k] * local[k]
  {
    if |local| != |dims| then Err(InvalidArgument)
    else Ok(seq(|dims|, k requires 0 <= k < |dims| => dims[k] * local[k]))
  }

  /** The local shape: each global extent divided exactly by its shard
      count; an extent that does not divide is an invalid argument. */
  function LocalFromGlobal(dims: seq<int>, global: seq<int>): (r: Result<seq<int>>)
    requires |global| == |dims| && AllNonZero(dims)
    ensures r.Err? <==> exists k :: 0 <= k < |dims| && global[k] % dims[k] != 0
    ensures r.Err? ==> r.error == InvalidArgument
    ensures r.Ok? ==> |r.value| == |dims| && forall k :: 0 <= k < |dims| ==> r.value[k] * dims[k] == global[k]
  {
    if exists k :: 0 <= k < |dims| && global[k] % dims[k] != 0 then Err(InvalidArgument)
    else Ok(seq(|dims|, k requires 0 <= k < |dims| => global[k] / dims[k]))
  }

  /** A multiple of a positive `d` strictly between -d and d is zero. */
  lemma SmallMultiple(d: int, t: int)
    requires d > 0 && -d < d * t < d
    ensures t == 0
  {
  }

  /** For 0 <= r < d, dividing r + d * q by d gives back q and r. */
  lemma DivModUnique(r: int, d: int, q: int)
    requires 0 <= r < d
    ensures (r + d * q) / d == q && (r + d * q) % d == r
  {
    var n := r + d * q;
    var qq, rr := n / d, n % d;
    assert n == d * qq + rr && 0 <= rr < d;
    assert d * (q - qq) == rr - r;
    SmallMultiple(d, q - qq);
  }

  /** Exact division cancels a multiplication by a non-zero count. */
  lemma MulDivCancel(x: int, d: int)
    requires d != 0
    ensures (d * x) / d == x && (d * x) % d == 0
  {
    if d > 0 {
      DivModUnique(0, d, x);
    } else {
      DivModUnique(0, -d, -x);
      assert d * x == (-d) * (-x);
      assert (d * x) / d == -((d * x) / (-d));
    }
  }

  /** A local shape scaled up and divided back is the same local shape, and
      a global shape that divides evenly is rebuilt exactly from its local
      shape. */
  lemma ShapeRoundTrip(dims: seq<int>, local: seq<int>, global: seq<int>)
    requires AllNonZero(dims) && |local| == |dims| && |global| == |dims|
    ensures LocalFromGlobal(dims, GlobalFromLocal(dims, local).value) == Ok(local)
    ensures LocalFromGlobal(dims, global).Ok? ==>
              GlobalFromLocal(dims, LocalFromGlobal(dims, global).value) == Ok(global)
  {
    var g := GlobalFromLocal(dims, local).value;
    forall k | 0 <= k < |dims| ensures g[k] % dims[k] == 0 && g[k] / dims[k] == local[k] {
      MulDivCancel(local[k], dims[k]);
    }
    var l := LocalFromGlobal(dims, g).value;
    assert l == local;
    if LocalFromGlobal(dims, global).Ok? {
      var l2 := LocalFromGlobal(dims, global).value;
      var g2 := GlobalFromLocal(dims, l2).value;
      forall k | 0 <= k < |dims| ensures g2[k] == global[k] {
        assert l2[k] * dims[k] == global[k];
      }
      assert g2 == global;
    }
  }

  // ---------------------------------------------------------------------
  // Mesh linearisation (`ToDeviceList` / `PopulateDevices`)
  // ---------------------------------------------------------------------

  /** The caller's `SmallVectorImpl<int>` that device ids are appended to. */
  class DeviceIdVector {
    var elems: seq<int>

    constructor ()
      ensures elems == []
    {
      elems := [];
    }
  }

  /** `cum_sizes`: the offset of one step along each axis. */
  function CumSizes(axis: seq<int>): (cum: seq<int>)
    ensures |cum| == |axis|
    ensures forall k :: 0 <= k < |axis| ==> cum[k] == Product(axis[..k])
  {
    if axis == [] then []
    else
      var init := axis[..|axis| - 1];
      assert forall k :: 0 <= k < |init| ==> init[..k] == axis[..k];
      CumSizes(init) + [Product(init)]
  }

  /** The ids `PopulateDevices` appends for the permutation `perm` from
      `base`: for each position `i` of the last (most major) listed axis,
      in order, the ids of the remaining axes from `base + i * cum`, or the
      single id `base + i * cum` when no axis remains. */
  function Populate(perm: seq<int>, axis: seq<int>, cum: seq<int>, base: int): seq<int>
    requires |perm| > 0 && EntriesBelow(perm, |axis|) && |cum| == |axis|
    decreases |perm|, 1, 0
  {
    var size := axis[perm[|perm| - 1]];
    Upto(perm, axis, cum, base, if size < 0 then 0 else size)
  }

  /** The ids for the first `n` positions of the last listed axis. */
  function Upto(perm: seq<int>, axis: seq<int>, cum: seq<int>, base: int, n: nat): seq<int>
    requires |perm| > 0 && EntriesBelow(perm, |axis|) && |cum| == |axis|
    decreases |perm|, 0, n
  {
    if n == 0 then []
    else Upto(perm, axis, cum, base, n - 1) + Block(perm, axis, cum, base, n - 1)
  }

  /** The ids for position `i` of the last listed axis. */
  function Block(perm: seq<int>, axis: seq<int>, cum: seq<int>, base: int, i: int): seq<int>
    requires |perm| > 0 && EntriesBelow(perm, |axis|) && |cum| == |axis|
    decreases |perm|, 0, 0
  {
    var start := base + i * cum[perm[|perm| - 1]];
    if |perm| == 1 then [start]
    else Populate(perm[..|perm| - 1], axis, cum, start)
  }

  /** One more position of the last listed axis appends its block. */
  lemma UptoStep(perm: seq<int>, axis: seq<int>, cum: seq<int>, base: int, i: nat, start: int)
    requires |perm| > 0 && EntriesBelow(perm, |axis|) && |cum| == |axis|
    requires start == base + i * cum[perm[|perm| - 1]]
    ensures |perm| == 1 ==>
      Upto(perm, axis, cum, base, i + 1) == Upto(perm, axis, cum, base, i) + [start]
    ensures |perm| > 1 ==>
      Upto(perm, axis, cum, base, i + 1) == Upto(perm, axis, cum, base, i) + Populate(perm[..|perm| - 1], axis, cum, start)
  {
  }

  /** The device order of a mesh: its ids from base 0. */
  function DeviceOrder(m: MinorToMajor): seq<int>
    requires |m.permutation| > 0 && EntriesBelow(m.permutation, |m.axisSizes|)
  {
    Populate(m.permutation, m.axisSizes, CumSizes(m.axisSizes), 0)
  }

  /** `PopulateDevices`: recursion on the permutation without its last
      entry, appending to `out` in place. */
  method PopulateDevices(perm: seq<int>, axis: seq<int>, cum: seq<int>, out: DeviceIdVector, base: int)
    requires |perm| > 0 && EntriesBelow(perm, |axis|) && |cum| == |axis|
    modifies out
    ensures out.elems == old(out.elems) + Populate(perm, axis, cum, base)
    decreases |perm|
  {
    var expandingDim := perm[|perm| - 1];
    var expandingDimSize := axis[expandingDim];
    var expandingCumDimSize := cum[expandingDim];
    ghost var n: nat := if expandingDimSize < 0 then 0 else expandingDimSize;
    ghost var init := perm[..|perm| - 1];
    assert |perm| > 1 ==> EntriesBelow(init, |axis|) by {
      forall k | 0 <= k < |init| ensures init[k] == perm[k] { }
    }
    var i := 0;
    while i < expandingDimSize
      invariant 0 <= i <= n
      invariant out.elems == old(out.elems) + Upto(perm, axis, cum, base, i)
    {
      var start := base + i * expandingCumDimSize;
      ghost var before := out.elems;
      if |perm| == 1 {
        out.elems := out.elems + [start];
      } else {
        PopulateDevices(perm[..|perm| - 1], axis, cum, out, start);
      }
      UptoStep(perm, axis, cum, base, i, start);
      i := i + 1;
    }
    assert Populate(perm, axis, cum, base) == Upto(perm, axis, cum, base, n);
  }

  // ---------------------------------------------------------------------
  // What the device order is: every mesh device exactly once
  // ---------------------------------------------------------------------

  /** The id of the mesh point with coordinates `x`: one step along axis k
      moves Product(axis[..k]) ids, so axis 0 has stride 1. */
  function Horner(axis: seq<int>, x: seq<int>): int
    requires |x| == |axis|
    decreases |axis|
  {
    if axis == [] then 0 else x[0] + axis[0] * Horner(axis[1..], x[1..])
  }

  /** `x` is a point of the mesh. */
  predicate InBox(axis: seq<int>, x: seq<int>)
  {
    |x| == |axis| && forall b :: 0 <= b < |x| ==> 0 <= x[b] < axis[b]
  }

  /** The coordinates of id `v`, by repeated division by the axis sizes. */
  function Coords(axis: seq<int>, v: int): (x: seq<int>)
    requires AllPositive(axis)
    ensures |x| == |axis|
    decreases |axis|
  {
    if axis == [] then [] else [v % axis[0]] + Coords(axis[1..], v / axis[0])
  }

  /** One more digit: 0 <= x0 + a0 * h < a0 * p for a digit x0 < a0 and
      0 <= h < p. */
  lemma DigitStep(a0: int, x0: int, h: int, p: int)
    requires 0 <= x0 < a0 && 0 <= h < p
    ensures 0 <= x0 + a0 * h < a0 * p
  {
    assert a0 * (p - 1 - h) >= 0;
    assert a0 * p == a0 * (p - 1 - h) + a0 * h + a0;
  }

  /** The ids of mesh points lie in [0, Product(axis)). */
  lemma {:induction false} HornerBounds(axis: seq<int>, x: seq<int>)
    requires AllPositive(axis) && InBox(axis, x)
    ensures 0 <= Horner(axis, x) < Product(axis)
    decreases |axis|
  {
    if axis != [] {
      var a0, h := axis[0], Horner(axis[1..], x[1..]);
      assert InBox(axis[1..], x[1..]) by {
        forall b | 0 <= b < |x[1..]| ensures 0 <= x[1..][b] < axis[1..][b] {
          assert x[1..][b] == x[b + 1] && axis[1..][b] == axis[b + 1];
        }
      }
      HornerBounds(axis[1..], x[1..]);
      ProductFront(axis);
      DigitStep(a0, x[0], h, Product(axis[1..]));
    }
  }

  /** Every id in [0, Product(axis)) is the id of the mesh point its
      coordinates name. */
  lemma {:induction false} CoordsOfId(axis: seq<int>, v: int)
    requires AllPositive(axis) && 0 <= v < Product(axis)
    ensures InBox(axis, Coords(axis, v)) && Horner(axis, Coords(axis, v)) == v
    decreases |axis|
  {
    if axis != [] {
      var a0 := axis[0];
      var q, r := v / a0, v % a0;
      assert v == a0 * q + r && 0 <= r < a0;
      ProductFront(axis);
      var p := Product(axis[1..]);
      assert 0 <= q < p;
      CoordsOfId(axis[1..], q);
      var x := Coords(axis, v);
      assert x[1..] == Coords(axis[1..], q);
      forall b | 0 <= b < |x| ensures 0 <= x[b] < axis[b] {
        if b > 0 {
          assert x[b] == x[1..][b - 1] && axis[b] == axis[1..][b - 1];
        }
      }
    }
  }

  /** Reading the id of a mesh point back gives the point: distinct points
      have distinct ids. */
  lemma {:induction false} IdOfCoords(axis: seq<int>, x: seq<int>)
    requires AllPositive(axis) && InBox(axis, x)
    ensures Coords(axis, Horner(axis, x)) == x
    decreases |axis|
  {
    if axis != [] {
      var h := Horner(axis[1..], x[1..]);
      assert InBox(axis[1..], x[1..]) by {
        forall b | 0 <= b < |x[1..]| ensures 0 <= x[1..][b] < axis[1..][b] {
          assert x[1..][b] == x[b + 1] && axis[1..][b] == axis[b + 1];
        }
      }
      DivModUnique(x[0], axis[0], h);
      IdOfCoords(axis[1..], x[1..]);
      assert x == [x[0]] + x[1..];
    }
  }

  /** Moving `i` steps along axis `e` moves the id by i * Product(axis[..e]). */
  lemma {:induction false} HornerShift(axis: seq<int>, x: seq<int>, e: nat, i: int)
    requires |x| == |axis| && e < |axis|
    ensures Horner(axis, x[e := x[e] + i]) == Horner(axis, x) + i * Product(axis[..e])
    decreases e
  {
    var y := x[e := x[e] + i];
    if e == 0 {
      assert y[1..] == x[1..];
      assert axis[..0] == [];
    } else {
      assert y[1..] == x[1..][e - 1 := x[1..][e - 1] + i];
      var p1 := Product(axis[1..][..e - 1]);
      var a0, h := axis[0], Horner(axis[1..], x[1..]);
      HornerShift(axis[1..], x[1..], e - 1, i);
      assert Horner(axis[1..], y[1..]) == h + i * p1;
      ProductFront(axis[..e]);
      assert axis[..e][1..] == axis[1..][..e - 1];
      assert Product(axis[..e]) == a0 * p1;
      assert Horner(axis, y) == x[0] + a0 * (h + i * p1);
      assert Horner(axis, x) == x[0] + a0 * h;
      ShiftDistributes(x[0], a0, h, i, p1);
    }
  }

  /** The arithmetic step of `HornerShift`. */
  lemma ShiftDistributes(x0: int, a0: int, h: int, i: int, p1: int)
    ensures x0 + a0 * (h + i * p1) == (x0 + a0 * h) + i * (a0 * p1)
  {
    assert a0 * (h + i * p1) == a0 * h + a0 * (i * p1);
    assert a0 * (i * p1) == i * (a0 * p1);
  }

  /** `y` equals `x` at every axis that `perm` does not list. */
  predicate AgreeOff(y: seq<int>, x: seq<int>, perm: seq<int>)
  {
    |y| == |x| && forall b :: 0 <= b < |x| && b !in perm ==> y[b] == x[b]
  }

  /** The common setting: positive axis sizes, their offsets, and a
      duplicate-free, non-empty list of axes. */
  predicate MeshSetting(perm: seq<int>, axis: seq<int>, cum: seq<int>)
  {
    AllPositive(axis) && |cum| == |axis| &&
    (forall k :: 0 <= k < |axis| ==> cum[k] == Product(axis[..k])) &&
    |perm| > 0 && Distinct(perm) && EntriesBelow(perm, |axis|)
  }

  /** `x` is a mesh point with coordinate 0 on every axis `perm` lists. */
  predicate Corner(perm: seq<int>, axis: seq<int>, x: seq<int>)
    requires EntriesBelow(perm, |axis|)
  {
    InBox(axis, x) && forall j :: 0 <= j < |perm| ==> x[perm[j]] == 0
  }

  /** Every id in `ids` is the id of a mesh point that agrees with `x` off
      `perm` and has coordinate in [lo, hi) on the last listed axis. */
  ghost predicate IdsIn(perm: seq<int>, axis: seq<int>, x: seq<int>, ids: seq<int>, lo: int, hi: int)
    requires AllPositive(axis) && |perm| > 0 && EntriesBelow(perm, |axis|)
  {
    forall k :: 0 <= k < |ids| ==>
      0 <= ids[k] < Product(axis) && AgreeOff(Coords(axis, ids[k]), x, perm) &&
      lo <= Coords(axis, ids[k])[perm[|perm| - 1]] < hi
  }

  /** The id of every such mesh point is in `ids`. */
  ghost predicate Covers(perm: seq<int>, axis: seq<int>, x: seq<int>, ids: seq<int>, lo: int, hi: int)
    requires |perm| > 0 && EntriesBelow(perm, |axis|)
  {
    forall y {:trigger AgreeOff(y, x, perm)} ::
      InBox(axis, y) && AgreeOff(y, x, perm) && lo <= y[perm[|perm| - 1]] < hi ==> Horner(axis, y) in ids
  }

  /** `ids` lists the ids of those points, each exactly once. */
  ghost predicate Fiber(perm: seq<int>, axis: seq<int>, x: seq<int>, ids: seq<int>, lo: int, hi: int)
    requires AllPositive(axis) && |perm| > 0 && EntriesBelow(perm, |axis|)
  {
    Distinct(ids) && IdsIn(perm, axis, x, ids, lo, hi) && Covers(perm, axis, x, ids, lo, hi)
  }

  lemma DistinctAppend(a: seq<int>, b: seq<int>)
    requires Distinct(a) && Distinct(b)
    requires forall i, j :: 0 <= i < |a| && 0 <= j < |b| ==> a[i] != b[j]
    ensures Distinct(a + b)
  {
    forall i, j | 0 <= i < j < |a + b| ensures (a + b)[i] != (a + b)[j] {
      if j < |a| {
        assert (a + b)[i] == a[i] && (a + b)[j] == a[j];
      } else if i < |a| {
        assert (a + b)[i] == a[i] && (a + b)[j] == b[j - |a|];
      } else {
        assert (a + b)[i] == b[i - |a|] && (a + b)[j] == b[j - |a|];
      }
    }
  }

  /** The points with last coordinate in [lo, mid) followed by those with
      last coordinate in [mid, hi) are those with last coordinate in
      [lo, hi), each once. */
  lemma FiberAppend(perm: seq<int>, axis: seq<int>, x: seq<int>, a: seq<int>, b: seq<int>, lo: int, mid: int, hi: int)
    requires AllPositive(axis) && |perm| > 0 && EntriesBelow(perm, |axis|)
    requires lo <= mid <= hi
    requires Fiber(perm, axis, x, a, lo, mid) && Fiber(perm, axis, x, b, mid, hi)
    ensures Fiber(perm, axis, x, a + b, lo, hi)
  {
    var e := perm[|perm| - 1];
    forall i, j | 0 <= i < |a| && 0 <= j < |b| ensures a[i] != b[j] {
      assert Coords(axis, a[i])[e] < mid <= Coords(axis, b[j])[e];
    }
    DistinctAppend(a, b);
    var l := a + b;
    forall k | 0 <= k < |l|
      ensures 0 <= l[k] < Product(axis) && AgreeOff(Coords(axis, l[k]), x, perm) && lo <= Coords(axis, l[k])[e] < hi
    {
      if k < |a| { assert l[k] == a[k]; } else { assert l[k] == b[k - |a|]; }
    }
    forall y | InBox(axis, y) && AgreeOff(y, x, perm) && lo <= y[e] < hi ensures Horner(axis, y) in l {
      if y[e] < mid {
        assert Horner(axis, y) in a;
      } else {
        assert Horner(axis, y) in b;
      }
    }
  }

  /** Populating from the id of a corner point `x` yields exactly the ids
      of the points that agree with `x` off the listed axes, each once. */
  lemma {:induction false} PopulateFiber(perm: seq<int>, axis: seq<int>, cum: seq<int>, x: seq<int>)
    requires MeshSetting(perm, axis, cum) && Corner(perm, axis, x)
    ensures Fiber(perm, axis, x, Populate(perm, axis, cum, Horner(axis, x)), 0, axis[perm[|perm| - 1]])
    decreases |perm|, 1, 0
  {
    UptoFiber(perm, axis, cum, x, axis[perm[|perm| - 1]]);
  }

  /** The first `n` blocks cover the points with coordinate below `n` on
      the last listed axis. */
  lemma {:induction false} UptoFiber(perm: seq<int>, axis: seq<int>, cum: seq<int>, x: seq<int>, n: nat)
    requires MeshSetting(perm, axis, cum) && Corner(perm, axis, x)
    requires n <= axis[perm[|perm| - 1]]
    ensures Fiber(perm, axis, x, Upto(perm, axis, cum, Horner(axis, x), n), 0, n)
    decreases |perm|, 0, n
  {
    var base := Horner(axis, x);
    if n > 0 {
      var a, b := Upto(perm, axis, cum, base, n - 1), Block(perm, axis, cum, base, n - 1);
      UptoFiber(perm, axis, cum, x, n - 1);
      BlockFiber(perm, axis, cum, x, n - 1);
      FiberAppend(perm, axis, x, a, b, 0, n - 1, n);
    } else {
      assert Covers(perm, axis, x, [], 0, 0);
    }
  }

  /** Block `i` holds exactly the ids of the points that agree with `x` off
      `perm` and have coordinate `i` on its last axis. */
  lemma {:induction false} BlockFiber(perm: seq<int>, axis: seq<int>, cum: seq<int>, x: seq<int>, i: int)
    requires MeshSetting(perm, axis, cum) && Corner(perm, axis, x)
    requires 0 <= i < axis[perm[|perm| - 1]]
    ensures Fiber(perm, axis, x, Block(perm, axis, cum, Horner(axis, x), i), i, i + 1)
    decreases |perm|, 0, 0
  {
    var e := perm[|perm| - 1];
    var xi := x[e := i];
    assert x[e] == 0;
    HornerShift(axis, x, e, i);
    var start := Horner(axis, x) + i * cum[e];
    assert start == Horner(axis, xi);
    assert InBox(axis, xi);
    if |perm| == 1 {
      assert Block(perm, axis, cum, Horner(axis, x), i) == [Horner(axis, xi)];
      SingleBlockFiber(perm, axis, x, xi, i);
    } else {
      var init := perm[..|perm| - 1];
      InitSetting(perm, axis, cum, x, xi, i);
      assert Block(perm, axis, cum, Horner(axis, x), i) == Populate(init, axis, cum, Horner(axis, xi));
      PopulateFiber(init, axis, cum, xi);
      NestedBlockFiber(perm, init, axis, x, xi, i, Populate(init, axis, cum, Horner(axis, xi)));
    }
  }

  /** Dropping the last listed axis keeps the setting, and a corner point
      moved along that axis is a corner point for the others. */
  lemma InitSetting(perm: seq<int>, axis: seq<int>, cum: seq<int>, x: seq<int>, xi: seq<int>, i: int)
    requires MeshSetting(perm, axis, cum) && Corner(perm, axis, x) && |perm| > 1
    requires 0 <= i < axis[perm[|perm| - 1]] && xi == x[perm[|perm| - 1] := i]
    ensures MeshSetting(perm[..|perm| - 1], axis, cum)
    ensures Corner(perm[..|perm| - 1], axis, xi)
    ensures perm[|perm| - 1] !in perm[..|perm| - 1]
  {
    var init := perm[..|perm| - 1];
    var e := perm[|perm| - 1];
    forall j | 0 <= j < |init| ensures init[j] != e {
      assert init[j] == perm[j];
    }
    forall j, k | 0 <= j < k < |init| ensures init[j] != init[k] {
      assert init[j] == perm[j] && init[k] == perm[k];
    }
    forall k | 0 <= k < |init| ensures 0 <= init[k] < |axis| {
      assert init[k] == perm[k];
    }
    forall j | 0 <= j < |init| ensures xi[init[j]] == 0 {
      assert init[j] == perm[j];
    }
  }

  /** With one listed axis, block `i` is the single id of `x` moved to
      coordinate `i` on that axis. */
  lemma SingleBlockFiber(perm: seq<int>, axis: seq<int>, x: seq<int>, xi: seq<int>, i: int)
    requires AllPositive(axis) && |perm| == 1 && EntriesBelow(perm, |axis|)
    requires |x| == |axis| && xi == x[perm[0] := i] && InBox(axis, xi)
    ensures Fiber(perm, axis, x, [Horner(axis, xi)], i, i + 1)
  {
    var e := perm[0];
    IdOfCoords(axis, xi);
    HornerBounds(axis, xi);
    assert AgreeOff(xi, x, perm);
    forall y | InBox(axis, y) && AgreeOff(y, x, perm) && i <= y[e] < i + 1 ensures Horner(axis, y) in [Horner(axis, xi)] {
      forall c | 0 <= c < |y| ensures y[c] == xi[c] {
        if c != e { assert c !in perm; }
      }
      assert y == xi;
    }
  }

  /** With more listed axes, block `i` is what the remaining axes populate
      from `x` moved to coordinate `i` on the last one. */
  lemma NestedBlockFiber(perm: seq<int>, init: seq<int>, axis: seq<int>, x: seq<int>, xi: seq<int>, i: int, b: seq<int>)
    requires AllPositive(axis) && |perm| > 1 && init == perm[..|perm| - 1]
    requires EntriesBelow(perm, |axis|) && EntriesBelow(init, |axis|) && perm[|perm| - 1] !in init
    requires |x| == |axis| && xi == x[perm[|perm| - 1] := i]
    requires Fiber(init, axis, xi, b, 0, axis[init[|init| - 1]])
    ensures Fiber(perm, axis, x, b, i, i + 1)
  {
    var e := perm[|perm| - 1];
    assert perm == init + [e];
    forall k | 0 <= k < |b|
      ensures 0 <= b[k] < Product(axis) && AgreeOff(Coords(axis, b[k]), x, perm) && i <= Coords(axis, b[k])[e] < i + 1
    {
      var c := Coords(axis, b[k]);
      assert AgreeOff(c, xi, init);
      forall q | 0 <= q < |x| && q !in perm ensures c[q] == x[q] {
        assert q !in init && q != e;
      }
    }
    forall y | InBox(axis, y) && AgreeOff(y, x, perm) && i <= y[e] < i + 1 ensures Horner(axis, y) in b {
      forall q | 0 <= q < |xi| && q !in init ensures y[q] == xi[q] {
        if q != e { assert q !in perm; }
      }
      assert AgreeOff(y, xi, init);
      assert 0 <= y[init[|init| - 1]] < axis[init[|init| - 1]];
    }
  }

  /** The integers in [0, n). */
  function Range(n: nat): (r: set<int>)
    ensures forall v :: v in r <==> 0 <= v < n
  {
    var ids := Iota(n);
    forall v ensures v in Elements(ids) <==> 0 <= v < n {
      if 0 <= v < n {
        assert ids[v] == v;
      }
      if v in ids {
        var k :| 0 <= k < n && ids[k] == v;
      }
    }
    Elements(ids)
  }

  lemma RangeCard(n: nat)
    ensures |Range(n)| == n
  {
    ElementsCard(Iota(n));
  }

  /** A subset has at most as many elements, and as many only if equal. */
  lemma SubsetCard(a: set<int>, b: set<int>)
    requires a <= b
    ensures |a| <= |b|
    ensures |a| == |b| ==> a == b
  {
    assert b == a + (b - a);
    assert a * (b - a) == {};
    if |a| == |b| {
      assert |b - a| == 0;
    }
  }

  /** A duplicate-free list of n axis numbers below n lists every axis. */
  lemma ListsEveryAxis(perm: seq<int>, n: nat)
    requires |perm| == n && Distinct(perm) && EntriesBelow(perm, n)
    ensures forall b :: 0 <= b < n ==> b in perm
  {
    ElementsCard(perm);
    RangeCard(n);
    assert Elements(perm) <= Range(n);
    SubsetCard(Elements(perm), Range(n));
    forall b | 0 <= b < n ensures b in perm {
      assert b in Range(n);
    }
  }

  /** The point with every coordinate 0 has id 0. */
  lemma {:induction false} HornerOrigin(axis: seq<int>, x: seq<int>)
    requires |x| == |axis| && forall b :: 0 <= b < |x| ==> x[b] == 0
    ensures Horner(axis, x) == 0
    decreases |axis|
  {
    if axis != [] {
      HornerOrigin(axis[1..], x[1..]);
    }
  }

  /** For a valid mesh with positive axis sizes, the device order lists
      every id in [0, NumDevices()) exactly once: it has Product(axis_sizes)
      entries, all distinct and all in range. */
  lemma DeviceOrderIsPermutation(m: MinorToMajor)
    requires m.Valid() && AllPositive(m.axisSizes)
    ensures |DeviceOrder(m)| == Product(m.axisSizes)
    ensures Distinct(DeviceOrder(m))
    ensures forall k :: 0 <= k < |DeviceOrder(m)| ==> 0 <= DeviceOrder(m)[k] < Product(m.axisSizes)
    ensures forall v :: 0 <= v < Product(m.axisSizes) ==> v in DeviceOrder(m)
  {
    var perm, axis := m.permutation, m.axisSizes;
    var cum := CumSizes(axis);
    var n := |axis|;
    var e := perm[|perm| - 1];
    var x := seq(n, b => 0);
    HornerOrigin(axis, x);
    assert MeshSetting(perm, axis, cum);
    assert Corner(perm, axis, x);
    PopulateFiber(perm, axis, cum, x);
    var l := DeviceOrder(m);
    assert Fiber(perm, axis, x, l, 0, axis[e]);
    ListsEveryAxis(perm, n);
    forall v | 0 <= v < Product(axis) ensures v in l {
      CoordsOfId(axis, v);
      var y := Coords(axis, v);
      assert AgreeOff(y, x, perm);
      assert 0 <= y[e] < axis[e];
    }
    ProductPositive(axis);
    assert Elements(l) == Range(Product(axis));
    ElementsCard(l);
    RangeCard(Product(axis));
  }

  /** The permutation [0, 1, ..., n-1]. */
  function Iota(n: nat): (r: seq<int>)
    ensures |r| == n && forall k :: 0 <= k < n ==> r[k] == k
  {
    seq(n, k => k)
  }

  /** With the identity list of the first m + 1 axes, populating from `base`
      yields base, base + 1, ... in order, as many as those axes have
      points. */
  lemma {:induction false} IdentityPopulate(axis: seq<int>, cum: seq<int>, m: nat, base: int)
    requires AllPositive(axis) && |cum| == |axis| && m < |axis|
    requires forall k :: 0 <= k < |axis| ==> cum[k] == Product(axis[..k])
    ensures var l := Populate(Iota(m + 1), axis, cum, base);
            |l| == Product(axis[..m + 1]) && forall t :: 0 <= t < |l| ==> l[t] == base + t
    decreases m, 1, 0
  {
    IdentityUpto(axis, cum, m, base, axis[m]);
    ProductSnoc(axis, m);
  }

  lemma {:induction false} IdentityUpto(axis: seq<int>, cum: seq<int>, m: nat, base: int, n: nat)
    requires AllPositive(axis) && |cum| == |axis| && m < |axis|
    requires forall k :: 0 <= k < |axis| ==> cum[k] == Product(axis[..k])
    ensures var l := Upto(Iota(m + 1), axis, cum, base, n);
            |l| == n * cum[m] && forall t :: 0 <= t < |l| ==> l[t] == base + t
    decreases m, 0, n
  {
    if n > 0 {
      var perm := Iota(m + 1);
      var c := cum[m];
      var start := base + (n - 1) * c;
      IdentityUpto(axis, cum, m, base, n - 1);
      var a := Upto(perm, axis, cum, base, n - 1);
      var b := Block(perm, axis, cum, base, n - 1);
      assert perm[|perm| - 1] == m;
      if m == 0 {
        assert axis[..0] == [];
        assert b == [start];
      } else {
        assert perm[..|perm| - 1] == Iota(m);
        IdentityPopulate(axis, cum, m - 1, start);
        assert b == Populate(Iota(m), axis, cum, start);
      }
      assert |b| == c && forall t :: 0 <= t < |b| ==> b[t] == start + t;
      assert (n - 1) * c + c == n * c;
      var l := a + b;
      forall t | 0 <= t < |l| ensures l[t] == base + t {
        if t >= |a| { assert l[t] == b[t - |a|]; }
      }
    }
  }

  /** The identity permutation enumerates the mesh in id order:
      0, 1, ..., N - 1. */
  lemma IdentityOrder(axis: seq<int>)
    requires AllPositive(axis) && |axis| > 0
    ensures var l := DeviceOrder(MinorToMajor(Iota(|axis|), axis));
            |l| == Product(axis) && forall t :: 0 <= t < |l| ==> l[t] == t
  {
    IdentityPopulate(axis, CumSizes(axis), |axis| - 1, 0);
    assert axis[..|axis|] == axis;
  }

  /** Two concrete orders: [1, 0] on a 2 x 2 mesh gives 0, 2, 1, 3, and on
      a 2 x 3 mesh 0, 2, 4, 1, 3, 5 (axis 1 varies fastest, one step along
      it moving two ids). */
  lemma DeviceOrderExamples()
    ensures DeviceOrder(MinorToMajor([1, 0], [2, 2])) == [0, 2, 1, 3]
    ensures DeviceOrder(MinorToMajor([1, 0], [2, 3])) == [0, 2, 4, 1, 3, 5]
  {
    assert CumSizes([2, 2]) == [1, 2];
    assert CumSizes([2, 3]) == [1, 2];
    assert [1, 0][..1] == [1];
    assert Populate([1], [2, 2], [1, 2], 0) == [0, 2];
    assert Populate([1], [2, 2], [1, 2], 1) == [1, 3];
    assert Upto([1, 0], [2, 2], [1, 2], 0, 1) == [0, 2];
    assert Upto([1], [2, 3], [1, 2], 0, 2) == [0, 2];
    assert Populate([1], [2, 3], [1, 2], 0) == [0, 2, 4];
    assert Upto([1], [2, 3], [1, 2], 1, 2) == [1, 3];
    assert Populate([1], [2, 3], [1, 2], 1) == [1, 3, 5];
    assert Upto([1, 0], [2, 3], [1, 2], 0, 1) == [0, 2, 4];
  }
}
