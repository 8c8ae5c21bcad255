/** `xftcpp::HloSharding` (xftcpp/src/xla_shardings.cpp, xla_shardings.h):
    a device list, a memory kind and an XLA sharding, with the logic this
    wrapper adds around the XLA value.

    The XLA sharding itself is an abstract record of the queries the file
    makes. XLA's tile geometry is not part of this model: what
    `TileOffsetForDevice`/`TileLimitForDevice` give for each device, and what
    `EachTile` produces, are passed in as a `TileOracle`. */
module XftHloSharding {
  import opened Wrappers
  import opened Products
  import opened XftShape
  import opened XftIndexDomain
  import opened XftMemory
  import opened XftDeviceList
  import XftShardingParam

  datatype SubgroupType = SubgroupReplicated | SubgroupOther

  /** The kinds of `xla::HloSharding`. A tiled sharding has its tile
      assignment dimensions (data dimensions first, then any replication
      dimensions), its number of tiled data dimensions and its subgroup
      types. `Maximal` places the whole array on one device. */
  datatype XlaSharding =
    | Replicated
    | Maximal(device: int)
    | Manual
    | Unreduced
    | Unknown
    | Tiled(tileDims: seq<int>, tiledDataRank: nat, subgroupTypes: seq<SubgroupType>)
  {
    predicate IsReplicated() { Replicated? }

    /** As in XLA, a replicated sharding is also tile-maximal. */
    predicate IsTileMaximal() { Replicated? || Maximal? }

    predicate IsManual() { Manual? }

    predicate IsUnreduced() { Unreduced? }

    predicate IsUnknown() { Unknown? }

    /** Tiled is what is neither tile-maximal, manual, unreduced nor
        unknown. */
    predicate IsTiled() { Tiled? }

    /** The records XLA can build: data dimensions within the tile
        assignment, and positive tile counts. */
    predicate WellFormed()
    {
      Tiled? ==> tiledDataRank <= |tileDims| && forall k :: 0 <= k < |tileDims| ==> tileDims[k] > 0
    }
  }

  /** `tile_assignment().num_elements()` of a tiled sharding: the number of
      tiles, replication included. */
  function TotalNumTiles(x: XlaSharding): (n: int)
    requires x.Tiled?
  {
    Product(x.tileDims)
  }

  /** The queries are exhaustive and exclusive except that replicated is
      also tile-maximal. */
  lemma KindsPartition(x: XlaSharding)
    ensures x.IsTiled() <==> !x.IsTileMaximal() && !x.IsManual() && !x.IsUnreduced() && !x.IsUnknown()
    ensures x.IsReplicated() ==> x.IsTileMaximal()
  {
  }

  /** `is_fully_replicated_`: XLA says replicated, or the sharding is tiled
      or tile-maximal over a single device. */
  function FullyReplicated(x: XlaSharding, numDevices: int): (r: bool)
  {
    x.IsReplicated() || ((x.IsTiled() || x.IsTileMaximal()) && numDevices == 1)
  }

  /** A replicated sharding is fully replicated on any number of devices;
      a manual, unreduced or unknown one never is; a tiled or maximal one
      is exactly when it has one device. */
  lemma FullyReplicatedCases(x: XlaSharding, numDevices: int)
    ensures x.Replicated? ==> FullyReplicated(x, numDevices)
    ensures x.Manual? || x.Unreduced? || x.Unknown? ==> !FullyReplicated(x, numDevices)
    ensures x.Tiled? || x.Maximal? ==> (FullyReplicated(x, numDevices) <==> numDevices == 1)
  {
  }

  /** `xla::CeilOfRatio` for a positive divisor. */
  function CeilOfRatio(a: int, b: int): (q: int)
    requires b > 0
  {
    -((-a) / b)
  }

  /** The ceiling is the least q with q * b >= a. */
  lemma CeilOfRatioLeast(a: int, b: int)
    requires b > 0
    ensures CeilOfRatio(a, b) * b >= a
    ensures (CeilOfRatio(a, b) - 1) * b < a
  {
    var q, m := (-a) / b, (-a) % b;
    assert -a == b * q + m && 0 <= m < b;
    assert CeilOfRatio(a, b) * b == a + m;
  }

  /** The ceiling of an exact quotient is the quotient. */
  lemma CeilOfRatioExact(a: int, b: int)
    requires b > 0 && a % b == 0
    ensures CeilOfRatio(a, b) * b == a
  {
    assert a == b * (a / b);
    XftShardingParam.DivModUnique(0, b, -(a / b));
    assert -a == 0 + b * (-(a / b));
  }

  /** `GetShardShape`: the whole shape for the shardings that do not split
      data; for a tiled sharding, an error when the tile count is not the
      device count or the ranks differ, otherwise the ceiling of each extent
      over its tile count. */
  function ShardShape(x: XlaSharding, numDevices: int, shape: Shape): (r: Result<Shape>)
    requires x.WellFormed()
    ensures r.Err? ==> r.error == InvalidArgument
  {
    if x.IsTileMaximal() || x.IsManual() || x.IsUnreduced() || x.IsUnknown() then Ok(shape)
    else if TotalNumTiles(x) != numDevices then Err(InvalidArgument)
    else if |shape.dims| != x.tiledDataRank then Err(InvalidArgument)
    else Ok(Shape(seq(|shape.dims|, i requires 0 <= i < |shape.dims| => CeilOfRatio(shape.dims[i], x.tileDims[i]))))
  }

  /** The shard shape is the whole shape unless the sharding is tiled; a
      tiled one fails exactly on a tile count other than the device count or
      a rank other than its data rank, and otherwise each shard extent times
      its tile count covers the extent while one fewer would not. */
  lemma ShardShapeCases(x: XlaSharding, numDevices: int, shape: Shape)
    requires x.WellFormed()
    ensures !x.Tiled? ==> ShardShape(x, numDevices, shape) == Ok(shape)
    ensures x.Tiled? ==>
              (ShardShape(x, numDevices, shape).Err? <==>
                 TotalNumTiles(x) != numDevices || |shape.dims| != x.tiledDataRank)
    ensures x.Tiled? && ShardShape(x, numDevices, shape).Ok? ==>
              var s := ShardShape(x, numDevices, shape).value;
              |s.dims| == |shape.dims| &&
              forall i :: 0 <= i < |shape.dims| ==>
                s.dims[i] * x.tileDims[i] >= shape.dims[i] && (s.dims[i] - 1) * x.tileDims[i] < shape.dims[i]
  {
    if x.Tiled? && ShardShape(x, numDevices, shape).Ok? {
      var s := ShardShape(x, numDevices, shape).value;
      forall i | 0 <= i < |shape.dims|
        ensures s.dims[i] * x.tileDims[i] >= shape.dims[i] && (s.dims[i] - 1) * x.tileDims[i] < shape.dims[i]
      {
        CeilOfRatioLeast(shape.dims[i], x.tileDims[i]);
      }
    }
  }

  /** The example in the source: [9, 16] tiled [2, 4] over 8 devices gives
      shards of [5, 4]. */
  lemma ShardShapeExample()
    ensures ShardShape(Tiled([2, 4], 2, []), 8, Shape([9, 16])) == Ok(Shape([5, 4]))
  {
    assert [2, 4][..1] == [2] && [2][..0] == [];
    assert Product([2]) == 2;
    assert TotalNumTiles(Tiled([2, 4], 2, [])) == 8;
    assert CeilOfRatio(9, 2) == 5 && CeilOfRatio(16, 4) == 4;
    assert ShardShape(Tiled([2, 4], 2, []), 8, Shape([9, 16])).value.dims == [5, 4];
  }

  /** The even/uneven classification of `Disassemble`. */
  function EvenSharding(x: XlaSharding, shape: Shape): (r: Result<bool>)
    requires x.WellFormed()
    ensures r.Err? ==> r.error == InvalidArgument
  {
    if x.IsReplicated() || x.IsTileMaximal() || x.IsUnreduced() then Ok(true)
    else if x.IsTiled() then
      if |shape.dims| != x.tiledDataRank then Err(InvalidArgument)
      else Ok(forall i :: 0 <= i < x.tiledDataRank ==> shape.dims[i] % x.tileDims[i] == 0)
    else if x.IsManual() then Ok(true)
    else Ok(false)
  }

  /** Replicated, tile-maximal, unreduced and manual shardings are even; an
      unknown one is not; a tiled one is even exactly when every data extent
      divides by its tile count, and fails exactly on a rank mismatch. On an
      even tiled shape every shard extent is exactly extent / tiles. */
  lemma EvenShardingCases(x: XlaSharding, numDevices: int, shape: Shape)
    requires x.WellFormed()
    ensures EvenSharding(x, shape).Err? <==> x.Tiled? && |shape.dims| != x.tiledDataRank
    ensures !x.Tiled? ==> EvenSharding(x, shape) == Ok(!x.Unknown?)
    ensures x.Tiled? && |shape.dims| == x.tiledDataRank ==>
              (EvenSharding(x, shape) == Ok(true) <==>
                 forall i :: 0 <= i < |shape.dims| ==> shape.dims[i] % x.tileDims[i] == 0)
    ensures x.Tiled? && EvenSharding(x, shape) == Ok(true) && ShardShape(x, numDevices, shape).Ok? ==>
              forall i :: 0 <= i < |shape.dims| ==>
                ShardShape(x, numDevices, shape).value.dims[i] * x.tileDims[i] == shape.dims[i]
  {
    if x.Tiled? && EvenSharding(x, shape) == Ok(true) && ShardShape(x, numDevices, shape).Ok? {
      var s := ShardShape(x, numDevices, shape).value;
      forall i | 0 <= i < |shape.dims| ensures s.dims[i] * x.tileDims[i] == shape.dims[i] {
        CeilOfRatioExact(shape.dims[i], x.tileDims[i]);
      }
    }
  }

  /** `SingleDeviceShardSemantics`. */
  datatype ShardSemantics = AddressableShards | AllShards

  /** The positions below `n` that a loop over the devices keeps: all of
      them for all shards, the addressable ones otherwise, in order. */
  function KeptIndices(devices: seq<Device>, sem: ShardSemantics, n: nat): (r: seq<nat>)
    requires n <= |devices|
    ensures |r| <= n && forall k :: 0 <= k < |r| ==> r[k] < n
  {
    if n == 0 then []
    else KeptIndices(devices, sem, n - 1) + (if sem == AllShards || devices[n - 1].addressable then [n - 1] else [])
  }

  /** The kept positions are increasing, and a position is kept exactly when
      the semantics is all shards or its device is addressable. */
  lemma {:induction false} KeptIndicesMembers(devices: seq<Device>, sem: ShardSemantics, n: nat)
    requires n <= |devices|
    ensures forall i, j :: 0 <= i < j < |KeptIndices(devices, sem, n)| ==>
              KeptIndices(devices, sem, n)[i] < KeptIndices(devices, sem, n)[j]
    ensures forall i :: 0 <= i < n ==>
              (i in KeptIndices(devices, sem, n) <==> sem == AllShards || devices[i].addressable)
    decreases n
  {
    if n > 0 {
      KeptIndicesMembers(devices, sem, n - 1);
      var r, r0 := KeptIndices(devices, sem, n), KeptIndices(devices, sem, n - 1);
      assert r == r0 + (if sem == AllShards || devices[n - 1].addressable then [n - 1] else []);
      forall i, j | 0 <= i < j < |r| ensures r[i] < r[j] {
        assert r[i] == r0[i];
        if j < |r0| {
          assert r[j] == r0[j] && r0[i] < r0[j];
        } else {
          assert r[j] == n - 1 && r0[i] < n - 1;
        }
      }
    }
  }

  /** With all shards every position is kept, in order. */
  lemma {:induction false} KeptAllShards(devices: seq<Device>, n: nat)
    requires n <= |devices|
    ensures |KeptIndices(devices, AllShards, n)| == n
    ensures forall k :: 0 <= k < n ==> KeptIndices(devices, AllShards, n)[k] == k
    decreases n
  {
    if n > 0 {
      KeptAllShards(devices, n - 1);
    }
  }

  /** The entries of `xs` at the positions `idx`. */
  function Select<T>(xs: seq<T>, idx: seq<nat>): (r: seq<T>)
    requires forall k :: 0 <= k < |idx| ==> idx[k] < |xs|
    ensures |r| == |idx| && forall k :: 0 <= k < |idx| ==> r[k] == xs[idx[k]]
  {
    seq(|idx|, k requires 0 <= k < |idx| => xs[idx[k]])
  }

  /** Selecting one more position appends its entry. */
  lemma SelectSnoc<T>(xs: seq<T>, idx: seq<nat>, j: nat)
    requires forall k :: 0 <= k < |idx| ==> idx[k] < |xs|
    requires j < |xs|
    ensures Select(xs, idx + [j]) == Select(xs, idx) + [xs[j]]
  {
    assert forall k :: 0 <= k < |idx| ==> (idx + [j])[k] == idx[k];
  }

  /** One more step of a filtering loop over the devices: the selection
      grows by the entry of that position exactly when the position is kept. */
  lemma KeptStep<T>(xs: seq<T>, devices: seq<Device>, sem: ShardSemantics, i: nat)
    requires i < |devices| && |xs| == |devices|
    ensures Select(xs, KeptIndices(devices, sem, i + 1)) ==
            Select(xs, KeptIndices(devices, sem, i)) + (if sem == AllShards || devices[i].addressable then [xs[i]] else [])
  {
    if sem == AllShards || devices[i].addressable {
      SelectSnoc(xs, KeptIndices(devices, sem, i), i);
    } else {
      assert KeptIndices(devices, sem, i + 1) == KeptIndices(devices, sem, i);
    }
  }

  /** Selecting all shards returns the sequence itself. */
  lemma KeptAll<T>(xs: seq<T>, devices: seq<Device>, n: nat)
    requires n <= |devices| && |xs| == |devices|
    ensures Select(xs, KeptIndices(devices, AllShards, n)) == xs[..n]
  {
    KeptAllShards(devices, n);
  }

  /** Selecting addressable shards of the devices returns exactly the
      addressable devices in order: the list `AddressableDeviceList`
      returns. */
  lemma {:induction false} KeptAddressable(devices: seq<Device>, n: nat)
    requires n <= |devices|
    ensures Select(devices, KeptIndices(devices, AddressableShards, n)) == AddressableOf(devices[..n])
    decreases n
  {
    if n > 0 {
      var d := devices[n - 1];
      var prev := KeptIndices(devices, AddressableShards, n - 1);
      KeptAddressable(devices, n - 1);
      assert devices[..n] == devices[..n - 1] + [d];
      AddressableOfAppend(devices[..n - 1], [d]);
      assert AddressableOf([d]) == if d.addressable then [d] else [];
      if d.addressable {
        SelectSnoc(devices, prev, n - 1);
      } else {
        assert KeptIndices(devices, AddressableShards, n) == prev;
      }
    }
  }

  /** Both selections over the devices themselves. */
  lemma KeptDevices(devices: seq<Device>, n: nat)
    requires n <= |devices|
    ensures Select(devices, KeptIndices(devices, AllShards, n)) == devices[..n]
    ensures Select(devices, KeptIndices(devices, AddressableShards, n)) == AddressableOf(devices[..n])
  {
    KeptAll(devices, devices, n);
    KeptAddressable(devices, n);
  }

  /** The filter over a whole list: all of it for all shards, and for
      addressable shards as many entries as `AddressableDeviceList` has. */
  lemma KeptLength<T>(xs: seq<T>, devices: seq<Device>, sem: ShardSemantics)
    requires |xs| == |devices|
    ensures sem == AllShards ==> Select(xs, KeptIndices(devices, sem, |devices|)) == xs
    ensures sem == AddressableShards ==> |Select(xs, KeptIndices(devices, sem, |devices|))| == |AddressableOf(devices)|
  {
    KeptDevices(devices, |devices|);
    assert devices[..|devices|] == devices;
    KeptAllShards(devices, |devices|);
  }

  /** A single-device sharding (`SingleDeviceSharding::Create`). */
  datatype SingleDeviceSharding = SingleDeviceSharding(device: Device, memoryKind: MemoryKind)

  /** What XLA's tile geometry gives for a sharding and shape: the domain
      `TileOffsetForDevice`/`TileLimitForDevice` give each device position,
      and the per-device domains `EachTile` fills (or the error it
      reports). */
  datatype TileOracle = TileOracle(perDevice: seq<IndexDomain>, eachTile: Result<seq<IndexDomain>>)

  /** One domain per device from each query. */
  predicate OracleFits(o: TileOracle, numDevices: nat)
  {
    |o.perDevice| == numDevices && (o.eachTile.Ok? ==> |o.eachTile.value| == numDevices)
  }

  /** `IndexDomainsSlowPath`: the tile domain of each kept device, in device
      order. */
  method IndexDomainsSlowPath(o: TileOracle, devices: seq<Device>, sem: ShardSemantics) returns (result: seq<IndexDomain>)
    requires |o.perDevice| == |devices|
    ensures result == Select(o.perDevice, KeptIndices(devices, sem, |devices|))
  {
    result := [];
    var deviceIdx := 0;
    while deviceIdx < |devices|
      invariant 0 <= deviceIdx <= |devices|
      invariant result == Select(o.perDevice, KeptIndices(devices, sem, deviceIdx))
    {
      KeptStep(o.perDevice, devices, sem, deviceIdx);
      if sem == AllShards || devices[deviceIdx].addressable {
        result := result + [o.perDevice[deviceIdx]];
      }
      deviceIdx := deviceIdx + 1;
    }
  }

  predicate OnlyReplicatedSubgroups(x: XlaSharding)
    requires x.Tiled?
  {
    forall k :: 0 <= k < |x.subgroupTypes| ==> x.subgroupTypes[k] == SubgroupReplicated
  }

  /** `IndexDomains(shape, semantics)`. */
  function IndexDomainsOf(x: XlaSharding, devices: seq<Device>, shape: Shape, sem: ShardSemantics, o: TileOracle): (r: Result<seq<IndexDomain>>)
    requires x.WellFormed() && OracleFits(o, |devices|)
  {
    if x.IsManual() then Err(InvalidArgument)
    else if x.IsReplicated() || x.IsTileMaximal() then
      Ok(seq(if sem == AllShards then |devices| else |AddressableOf(devices)|, _ => FromShape(shape)))
    else if !x.IsTiled() || !OnlyReplicatedSubgroups(x) then
      Ok(Select(o.perDevice, KeptIndices(devices, sem, |devices|)))
    else if TotalNumTiles(x) != |devices| then Err(InvalidArgument)
    else if |shape.dims| != x.tiledDataRank then Err(InvalidArgument)
    else if o.eachTile.Err? then Err(o.eachTile.error)
    else Ok(Select(o.eachTile.value, KeptIndices(devices, sem, |devices|)))
  }

  /** Manual shardings have no index domains; replicated and tile-maximal
      ones give the whole-shape domain once per kept device; a tiled
      sharding with only replicated subgroups fails exactly on a tile count
      other than the device count, a rank other than its data rank, or an
      error of the tile iteration. */
  lemma IndexDomainsCases(x: XlaSharding, devices: seq<Device>, shape: Shape, sem: ShardSemantics, o: TileOracle)
    requires x.WellFormed() && OracleFits(o, |devices|)
    ensures x.Manual? ==> IndexDomainsOf(x, devices, shape, sem, o) == Err(InvalidArgument)
    ensures x.IsTileMaximal() ==>
              var r := IndexDomainsOf(x, devices, shape, sem, o);
              r.Ok? && (forall k :: 0 <= k < |r.value| ==> r.value[k] == FromShape(shape)) &&
              |r.value| == (if sem == AllShards then |devices| else |AddressableOf(devices)|)
    ensures x.Tiled? && OnlyReplicatedSubgroups(x) ==>
              (IndexDomainsOf(x, devices, shape, sem, o).Err? <==>
                 TotalNumTiles(x) != |devices| || |shape.dims| != x.tiledDataRank || o.eachTile.Err?)
  {
  }

  /** With all shards there is one domain per device whenever the call
      succeeds: the `CHECK_EQ` in `Disassemble` always holds. */
  lemma IndexDomainsAllShardsCount(x: XlaSharding, devices: seq<Device>, shape: Shape, o: TileOracle)
    requires x.WellFormed() && OracleFits(o, |devices|)
    ensures IndexDomainsOf(x, devices, shape, AllShards, o).Ok? ==>
              |IndexDomainsOf(x, devices, shape, AllShards, o).value| == |devices|
  {
    KeptLength(o.perDevice, devices, AllShards);
    if o.eachTile.Ok? {
      KeptLength(o.eachTile.value, devices, AllShards);
    }
  }

  /** When the tile iteration reports the same domain for every device as
      the per-device queries, the fast path agrees with the slow path: a
      successful result is the slow path's result. */
  lemma FastPathAgreesWithSlowPath(x: XlaSharding, devices: seq<Device>, shape: Shape, sem: ShardSemantics, o: TileOracle)
    requires x.WellFormed() && OracleFits(o, |devices|)
    requires o.eachTile.Ok? ==> o.eachTile.value == o.perDevice
    requires x.Tiled? && IndexDomainsOf(x, devices, shape, sem, o).Ok?
    ensures IndexDomainsOf(x, devices, shape, sem, o) == Ok(Select(o.perDevice, KeptIndices(devices, sem, |devices|)))
  {
  }

  /** A piece of a disassembled array. */
  type Piece = (Shape, SingleDeviceSharding)

  /** One piece per device: its shape and its single-device sharding. */
  function PiecesFor(shapes: seq<Shape>, devices: seq<Device>, mk: MemoryKind): (r: seq<Piece>)
    requires |shapes| == |devices|
    ensures |r| == |devices|
    ensures forall i :: 0 <= i < |devices| ==> r[i] == (shapes[i], SingleDeviceSharding(devices[i], mk))
  {
    seq(|devices|, i requires 0 <= i < |devices| => (shapes[i], SingleDeviceSharding(devices[i], mk)))
  }

  /** The devices the pieces are placed on, in order. */
  function DevicesOf(pieces: seq<Piece>): (r: seq<Device>)
    ensures |r| == |pieces| && forall k :: 0 <= k < |pieces| ==> r[k] == pieces[k].1.device
  {
    seq(|pieces|, k requires 0 <= k < |pieces| => pieces[k].1.device)
  }

  /** `Disassemble(shape, semantics)`: classify, then either give every kept
      device the common shard shape, or give every kept device the shape of
      its own domain among the domains of all shards. */
  function DisassembleOf(x: XlaSharding, devices: seq<Device>, mk: MemoryKind, shape: Shape, sem: ShardSemantics, o: TileOracle): (r: Result<seq<Piece>>)
    requires x.WellFormed() && OracleFits(o, |devices|)
  {
    var even := EvenSharding(x, shape);
    var kept := KeptIndices(devices, sem, |devices|);
    if even.Err? then Err(even.error)
    else if even.value then
      var shard := ShardShape(x, |devices|, shape);
      if shard.Err? then Err(shard.error)
      else Ok(Select(PiecesFor(seq(|devices|, _ => shard.value), devices, mk), kept))
    else
      var doms := IndexDomainsOf(x, devices, shape, AllShards, o);
      if doms.Err? then Err(doms.error)
      else
        IndexDomainsAllShardsCount(x, devices, shape, o);
        Ok(Select(PiecesFor(seq(|devices|, i requires 0 <= i < |devices| => doms.value[i].shape), devices, mk), kept))
  }

  /** The devices of a selection of pieces are the selection of devices. */
  lemma DevicesOfSelect(shapes: seq<Shape>, devices: seq<Device>, mk: MemoryKind, idx: seq<nat>)
    requires |shapes| == |devices|
    requires forall k :: 0 <= k < |idx| ==> idx[k] < |devices|
    ensures DevicesOf(Select(PiecesFor(shapes, devices, mk), idx)) == Select(devices, idx)
  {
  }

  /** A successful disassembly is a selection, by the kept positions, of
      one piece per device; on the even path every device's shape is the
      one shard shape, on the uneven path it is the shape of that device's
      domain among the domains of all shards. */
  lemma DisassembleShapes(x: XlaSharding, devices: seq<Device>, mk: MemoryKind, shape: Shape, sem: ShardSemantics, o: TileOracle)
      returns (shapes: seq<Shape>)
    requires x.WellFormed() && OracleFits(o, |devices|)
    requires DisassembleOf(x, devices, mk, shape, sem, o).Ok?
    ensures |shapes| == |devices|
    ensures DisassembleOf(x, devices, mk, shape, sem, o).value ==
            Select(PiecesFor(shapes, devices, mk), KeptIndices(devices, sem, |devices|))
    ensures EvenSharding(x, shape) == Ok(true) ==>
              forall i :: 0 <= i < |devices| ==> shapes[i] == ShardShape(x, |devices|, shape).value
    ensures EvenSharding(x, shape) == Ok(false) ==>
              var doms := IndexDomainsOf(x, devices, shape, AllShards, o).value;
              |doms| == |devices| && forall i :: 0 <= i < |devices| ==> shapes[i] == doms[i].shape
  {
    if EvenSharding(x, shape).value {
      shapes := seq(|devices|, _ => ShardShape(x, |devices|, shape).value);
    } else {
      IndexDomainsAllShardsCount(x, devices, shape, o);
      var doms := IndexDomainsOf(x, devices, shape, AllShards, o).value;
      shapes := seq(|devices|, i requires 0 <= i < |devices| => doms[i].shape);
    }
  }

  /** Every piece of a selection carries the memory kind given. */
  lemma SelectedPiecesKind(shapes: seq<Shape>, devices: seq<Device>, mk: MemoryKind, idx: seq<nat>)
    requires |shapes| == |devices|
    requires forall k :: 0 <= k < |idx| ==> idx[k] < |devices|
    ensures var pieces := Select(PiecesFor(shapes, devices, mk), idx);
            forall k :: 0 <= k < |pieces| ==> pieces[k].1.memoryKind == mk
  {
  }

  /** A selection of one piece per device by the kept positions carries the
      memory kind given, and sits on all devices for all shards and on
      exactly the addressable devices, in order, otherwise. */
  lemma SelectedPieces(shapes: seq<Shape>, devices: seq<Device>, mk: MemoryKind, sem: ShardSemantics)
    requires |shapes| == |devices|
    ensures var pieces := Select(PiecesFor(shapes, devices, mk), KeptIndices(devices, sem, |devices|));
            forall k :: 0 <= k < |pieces| ==> pieces[k].1.memoryKind == mk
    ensures sem == AllShards ==>
              Select(PiecesFor(shapes, devices, mk), KeptIndices(devices, sem, |devices|)) == PiecesFor(shapes, devices, mk)
    ensures sem == AddressableShards ==>
              DevicesOf(Select(PiecesFor(shapes, devices, mk), KeptIndices(devices, sem, |devices|))) == AddressableOf(devices)
  {
    var pieces := PiecesFor(shapes, devices, mk);
    var kept := KeptIndices(devices, sem, |devices|);
    SelectedPiecesKind(shapes, devices, mk, kept);
    if sem == AllShards {
      KeptAll(pieces, devices, |devices|);
      assert pieces[..|devices|] == pieces;
    } else {
      KeptAddressable(devices, |devices|);
      assert devices[..|devices|] == devices;
      DevicesOfSelect(shapes, devices, mk, kept);
    }
  }

  /** What `Disassemble` promises its callers: every piece carries the
      sharding's memory kind, and the pieces sit on all devices for all
      shards and on exactly the addressable devices, in order, otherwise. */
  lemma DisassembleProperties(x: XlaSharding, devices: seq<Device>, mk: MemoryKind, shape: Shape, sem: ShardSemantics, o: TileOracle)
    requires x.WellFormed() && OracleFits(o, |devices|)
    requires DisassembleOf(x, devices, mk, shape, sem, o).Ok?
    ensures var pieces := DisassembleOf(x, devices, mk, shape, sem, o).value;
            forall k :: 0 <= k < |pieces| ==> pieces[k].1.memoryKind == mk
    ensures sem == AllShards ==> DevicesOf(DisassembleOf(x, devices, mk, shape, sem, o).value) == devices
    ensures sem == AddressableShards ==>
              DevicesOf(DisassembleOf(x, devices, mk, shape, sem, o).value) == AddressableOf(devices)
  {
    var shapes := DisassembleShapes(x, devices, mk, shape, sem, o);
    SelectedPieces(shapes, devices, mk, sem);
    if sem == AllShards {
      assert DevicesOf(PiecesFor(shapes, devices, mk)) == devices;
    }
  }

  class HloSharding {
    const devices: DeviceList
    const memoryKind: MemoryKind
    const xla: XlaSharding
    const isFullyReplicated: bool
    /** `hash_`: 0 until the hash is first computed. */
    var hash: bv64

    /** The private constructor: stores its arguments, computes
        `is_fully_replicated_`, and leaves the hash unset. */
    constructor (devices: DeviceList, memoryKind: MemoryKind, xla: XlaSharding)
      ensures this.devices == devices && this.memoryKind == memoryKind && this.xla == xla
      ensures isFullyReplicated == FullyReplicated(xla, |devices.devices|)
      ensures hash == 0
    {
      this.devices := devices;
      this.memoryKind := memoryKind;
      this.xla := xla;
      isFullyReplicated := xla.IsReplicated() || ((xla.IsTiled() || xla.IsTileMaximal()) && devices.Size() == 1);
      hash := 0;
    }

    /** `GetShardShape`. */
    method GetShardShape(shape: Shape) returns (r: Result<Shape>)
      requires xla.WellFormed()
      ensures r == ShardShape(xla, |devices.devices|, shape)
    {
      if xla.IsTileMaximal() || xla.IsManual() || xla.IsUnreduced() || xla.IsUnknown() {
        return Ok(shape);
      }
      if TotalNumTiles(xla) != devices.Size() {
        return Err(InvalidArgument);
      }
      if |shape.dims| != xla.tiledDataRank {
        return Err(InvalidArgument);
      }
      var tileShape: seq<int> := [];
      var i := 0;
      while i < |shape.dims|
        invariant 0 <= i <= |shape.dims| && |tileShape| == i
        invariant forall k :: 0 <= k < i ==> tileShape[k] == CeilOfRatio(shape.dims[k], xla.tileDims[k])
      {
        tileShape := tileShape + [CeilOfRatio(shape.dims[i], xla.tileDims[i])];
        i := i + 1;
      }
      assert Shape(tileShape) == ShardShape(xla, |devices.devices|, shape).value;
      return Ok(Shape(tileShape));
    }

    /** `HasSamePartitioning`: the same object, or another HloSharding with
        as many devices and an equal XLA sharding. */
    predicate HasSamePartitioning(other: ShardingRef)
    {
      if other.Hlo? && other.hlo == this then true
      else if |devices.devices| != other.NumDevices() then false
      else if !other.Hlo? then false
      else xla == other.hlo.xla
    }

    /** `WithDeviceAssignment`: a changed device count is an invalid
        argument; otherwise a new sharding with the given devices and memory
        kind, each defaulting to the current one, and the same XLA
        sharding. */
    method WithDeviceAssignment(newDevices: Option<DeviceList>, newMemoryKind: Option<MemoryKind>) returns (r: Result<HloSharding>)
      requires |devices.devices| > 0
      ensures r.Err? <==> newDevices.Some? && |newDevices.value.devices| != |devices.devices|
      ensures r.Err? ==> r.error == InvalidArgument
      ensures r.Ok? ==> fresh(r.value) && r.value.xla == xla && r.value.hash == 0
      ensures r.Ok? ==> r.value.devices == (if newDevices.Some? then newDevices.value else devices)
      ensures r.Ok? ==>
                r.value.memoryKind == CanonicalizeMemoryKind(if newMemoryKind.Some? then newMemoryKind.value else memoryKind,
                                                             r.value.devices.devices[0].defaultMemory)
    {
      if newDevices.Some? && |newDevices.value.devices| != |devices.devices| {
        return Err(InvalidArgument);
      }
      var d := if newDevices.Some? then newDevices.value else devices;
      var mk := if newMemoryKind.Some? then newMemoryKind.value else memoryKind;
      var h := CreateHloSharding(d, mk, xla);
      return Ok(h);
    }

    /** `IndexDomains(shape, semantics)`. The tile-count and rank checks
        already rule out a failing `GetShardShape`. */
    method IndexDomains(shape: Shape, sem: ShardSemantics, o: TileOracle) returns (r: Result<seq<IndexDomain>>)
      requires xla.WellFormed() && OracleFits(o, |devices.devices|) && devices.Valid()
      modifies devices`cache
      ensures devices.Valid()
      ensures r == IndexDomainsOf(xla, devices.devices, shape, sem, o)
    {
      var numDevices := devices.Size();
      if xla.IsManual() {
        return Err(InvalidArgument);
      }
      if xla.IsReplicated() || xla.IsTileMaximal() {
        var element := FromShape(shape);
        var count := numDevices;
        if sem == AddressableShards {
          var addressable := devices.AddressableDeviceList();
          count := addressable.Size();
        }
        return Ok(seq(count, _ => element));
      }
      if !xla.IsTiled() {
        var slow := IndexDomainsSlowPath(o, devices.devices, sem);
        return Ok(slow);
      }
      var k := 0;
      while k < |xla.subgroupTypes|
        invariant 0 <= k <= |xla.subgroupTypes|
        invariant forall j :: 0 <= j < k ==> xla.subgroupTypes[j] == SubgroupReplicated
        invariant devices.Valid()
      {
        if xla.subgroupTypes[k] != SubgroupReplicated {
          var slow := IndexDomainsSlowPath(o, devices.devices, sem);
          return Ok(slow);
        }
        k := k + 1;
      }
      if TotalNumTiles(xla) != numDevices {
        return Err(InvalidArgument);
      }
      if |shape.dims| != xla.tiledDataRank {
        return Err(InvalidArgument);
      }
      var tileShape := GetShardShape(shape);
      assert tileShape.Ok?;
      if o.eachTile.Err? {
        return Err(o.eachTile.error);
      }
      var all := o.eachTile.value;
      Reserve(sem);
      var result: seq<IndexDomain> := [];
      var deviceIdx := 0;
      while deviceIdx < numDevices
        invariant 0 <= deviceIdx <= numDevices
        invariant result == Select(all, KeptIndices(devices.devices, sem, deviceIdx))
        invariant devices.Valid()
      {
        KeptStep(all, devices.devices, sem, deviceIdx);
        if sem == AllShards || devices.devices[deviceIdx].addressable {
          result := result + [all[deviceIdx]];
        }
        deviceIdx := deviceIdx + 1;
      }
      return Ok(result);
    }

    /** `IndexDomains(shape)`: all shards. */
    method IndexDomainsAll(shape: Shape, o: TileOracle) returns (r: Result<seq<IndexDomain>>)
      requires xla.WellFormed() && OracleFits(o, |devices.devices|) && devices.Valid()
      modifies devices`cache
      ensures devices.Valid()
      ensures r == IndexDomainsOf(xla, devices.devices, shape, AllShards, o)
    {
      r := IndexDomains(shape, AllShards, o);
    }

    /** The first step of `Disassemble(shape, semantics)`: whether the
        sharding is even, which for a tiled sharding checks the rank and
        then looks for a data extent its tile count does not divide. */
    method ClassifyEven(shape: Shape) returns (r: Result<bool>)
      requires xla.WellFormed()
      ensures r == EvenSharding(xla, shape)
    {
      var isEvenSharding := false;
      if xla.IsReplicated() || xla.IsTileMaximal() || xla.IsUnreduced() {
        isEvenSharding := true;
      } else if xla.IsTiled() {
        var tiledDataRank := xla.tiledDataRank;
        if |shape.dims| != tiledDataRank {
          return Err(InvalidArgument);
        }
        isEvenSharding := true;
        var i := 0;
        while i < tiledDataRank
          invariant 0 <= i <= tiledDataRank
          invariant isEvenSharding <==> forall k :: 0 <= k < i ==> shape.dims[k] % xla.tileDims[k] == 0
        {
          if shape.dims[i] % xla.tileDims[i] != 0 {
            isEvenSharding := false;
            break;
          }
          i := i + 1;
        }
      } else if xla.IsManual() {
        isEvenSharding := true;
      }
      return Ok(isEvenSharding);
    }

    /** `Disassemble(shape, semantics)`. The slow path's `CHECK_EQ` on the
        number of domains always holds (`IndexDomainsAllShardsCount`). */
    method Disassemble(shape: Shape, sem: ShardSemantics, o: TileOracle) returns (r: Result<seq<Piece>>)
      requires xla.WellFormed() && OracleFits(o, |devices.devices|) && devices.Valid()
      modifies devices`cache
      ensures devices.Valid()
      ensures r == DisassembleOf(xla, devices.devices, memoryKind, shape, sem, o)
    {
      var even := ClassifyEven(shape);
      if even.Err? {
        return Err(even.error);
      }
      var isEvenSharding := even.value;
      var ds := devices.devices;
      if isEvenSharding {
        var shardShape := GetShardShape(shape);
        if shardShape.Err? {
          return Err(shardShape.error);
        }
        var pieces := PlacePieces(seq(|ds|, _ => shardShape.value), sem);
        return Ok(pieces);
      }
      var indexDomains := IndexDomainsAll(shape, o);
      if indexDomains.Err? {
        return Err(indexDomains.error);
      }
      var doms := indexDomains.value;
      IndexDomainsAllShardsCount(xla, ds, shape, o);
      assert |doms| == |ds|;
      var pieces := PlacePieces(seq(|doms|, i requires 0 <= i < |doms| => doms[i].shape), sem);
      return Ok(pieces);
    }

    /** `result.reserve(...)` before a filtering loop: for addressable
        shards the size comes from `AddressableDeviceList`, which may build
        and cache that list. */
    method Reserve(sem: ShardSemantics)
      requires devices.Valid()
      modifies devices`cache
      ensures devices.Valid()
    {
      if sem == AddressableShards {
        var addressable := devices.AddressableDeviceList();
      }
    }

    /** The result loop of both paths of `Disassemble`: reserves room, then
        pairs each
        kept device with its shape and a single-device sharding in this
        sharding's memory kind. */
    method PlacePieces(shapes: seq<Shape>, sem: ShardSemantics) returns (result: seq<Piece>)
      requires |shapes| == |devices.devices| && devices.Valid()
      modifies devices`cache
      ensures devices.Valid()
      ensures result == Select(PiecesFor(shapes, devices.devices, memoryKind), KeptIndices(devices.devices, sem, |devices.devices|))
    {
      var ds := devices.devices;
      Reserve(sem);
      ghost var all := PiecesFor(shapes, ds, memoryKind);
      result := [];
      var i := 0;
      while i < |ds|
        invariant 0 <= i <= |ds|
        invariant result == Select(all, KeptIndices(ds, sem, i))
        invariant devices.Valid()
      {
        KeptStep(all, ds, sem, i);
        assert all[i] == (shapes[i], SingleDeviceSharding(ds[i], memoryKind));
        if sem == AllShards || ds[i].addressable {
          result := result + [(shapes[i], SingleDeviceSharding(ds[i], memoryKind))];
        }
        i := i + 1;
      }
    }

    /** `Disassemble(shape)`: all shards. */
    method DisassembleAll(shape: Shape, o: TileOracle) returns (r: Result<seq<Piece>>)
      requires xla.WellFormed() && OracleFits(o, |devices.devices|) && devices.Valid()
      modifies devices`cache
      ensures devices.Valid()
      ensures r == DisassembleOf(xla, devices.devices, memoryKind, shape, AllShards, o)
    {
      r := Disassemble(shape, AllShards, o);
    }

    /** `Disassemble(dynamic_shape, semantics)` and its all-shards overload:
        only static shapes can be disassembled, so this always fails. */
    method DisassembleDynamic(dynamicShape: DynamicShape, sem: ShardSemantics) returns (r: Result<seq<(DynamicShape, SingleDeviceSharding)>>)
      ensures r == Err(InvalidArgument)
    {
      return Err(InvalidArgument);
    }

    /** `Hash`: the combined hash of devices, memory kind and XLA sharding
        (`hashOf`), with 0 moved to 1 so that 0 can mean "not computed",
        computed on the first call and cached. */
    method Hash(hashOf: (DeviceList, MemoryKind, XlaSharding) -> bv64) returns (h: bv64)
      requires hash == 0 || hash == NonZeroHash(hashOf(devices, memoryKind, xla))
      modifies this`hash
      ensures h == NonZeroHash(hashOf(devices, memoryKind, xla))
      ensures hash == h
    {
      h := hash;
      if h == 0 {
        h := hashOf(devices, memoryKind, xla);
        if h == 0 {
          h := 1;
        }
        hash := h;
      }
    }
  }

  /** The other operand of `HasSamePartitioning`: an HloSharding, or a
      sharding of another kind with its device count. */
  datatype ShardingRef = Hlo(hlo: HloSharding) | OtherKind(numDevices: nat)
  {
    function NumDevices(): nat
    {
      if Hlo? then |hlo.devices.devices| else numDevices
    }
  }

  /** A sharding has the same partitioning as itself; a sharding of another
      kind never has; between two distinct HloShardings it is equal device
      counts and equal XLA shardings. */
  lemma SamePartitioningLaws(a: HloSharding, other: ShardingRef)
    ensures a.HasSamePartitioning(Hlo(a))
    ensures other.OtherKind? ==> !a.HasSamePartitioning(other)
    ensures other.Hlo? && other.hlo != a ==>
              (a.HasSamePartitioning(other) <==>
                 |a.devices.devices| == |other.hlo.devices.devices| && a.xla == other.hlo.xla)
  {
  }

  /** The cached value: never 0, and the computed hash whenever that is not
      0. */
  function NonZeroHash(computed: bv64): (h: bv64)
    ensures h != 0
    ensures computed != 0 ==> h == computed
  {
    if computed == 0 then 1 else computed
  }

  /** `HloSharding::Create`: canonicalises the memory kind against the first
      device, which must exist. */
  method CreateHloSharding(devices: DeviceList, memoryKind: MemoryKind, xla: XlaSharding) returns (h: HloSharding)
    requires |devices.devices| > 0
    ensures fresh(h) && h.devices == devices && h.xla == xla && h.hash == 0
    ensures h.memoryKind == CanonicalizeMemoryKind(memoryKind, devices.devices[0].defaultMemory)
    ensures h.isFullyReplicated == FullyReplicated(xla, |devices.devices|)
  {
    var mk := CanonicalizeMemoryKindWithDevices(memoryKind, devices);
    h := new HloSharding(devices, mk, xla);
  }

  /** `CanonicalizeMemoryKindWithDevices`: canonicalised against the first
      device of a non-empty list; a set kind is kept. */
  function CanonicalizeMemoryKindWithDevices(memoryKind: MemoryKind, devices: DeviceList): (r: MemoryKind)
    requires |devices.devices| > 0
    ensures memoryKind.Pooled? ==> r == memoryKind
    ensures memoryKind.Unset? && devices.devices[0].defaultMemory.Ok? ==> r == devices.devices[0].defaultMemory.value
  {
    CanonicalizeMemoryKind(memoryKind, devices.devices[0].defaultMemory)
  }
}
