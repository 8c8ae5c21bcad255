/** `xftcpp::Device` and `xftcpp::DeviceList` (xftcpp/src/device.h,
    device_list.cpp).

    Devices are objects that lists refer to by pointer, so `Device` is a class
    and a list holds references: `DeviceList::operator==` compares those
    references position by position, which is what equality of the Dafny
    sequences of references means. */
module XftDeviceList {
  import opened Wrappers
  import opened Text
  import opened XftMemory

  /** The parts of a device the core reads: its id, whether it is backed by
      a PJRT device (`IsAddressable`), its `ToString` text and the result of
      `DefaultMemory()` (the kind of that memory, or an error). */
  class Device {
    const id: int
    const addressable: bool
    const name: string
    const defaultMemory: Result<MemoryKind>

    constructor (id: int, addressable: bool, name: string, defaultMemory: Result<MemoryKind>)
      ensures this.id == id && this.addressable == addressable
      ensures this.name == name && this.defaultMemory == defaultMemory
    {
      this.id := id;
      this.addressable := addressable;
      this.name := name;
      this.defaultMemory := defaultMemory;
    }
  }

  /** The addressable devices of a sequence, in their original order. */
  function AddressableOf(devices: seq<Device>): (r: seq<Device>)
    ensures |r| <= |devices|
    ensures forall k :: 0 <= k < |r| ==> r[k].addressable && r[k] in devices
    ensures forall d :: d in devices && d.addressable ==> d in r
  {
    if devices == [] then []
    else if devices[0].addressable then [devices[0]] + AddressableOf(devices[1..])
    else AddressableOf(devices[1..])
  }

  predicate AllAddressable(devices: seq<Device>)
  {
    forall k :: 0 <= k < |devices| ==> devices[k].addressable
  }

  /** Filtering keeps a list whose devices are all addressable unchanged. */
  lemma {:induction false} AddressableOfAll(devices: seq<Device>)
    requires AllAddressable(devices)
    ensures AddressableOf(devices) == devices
    decreases |devices|
  {
    if devices != [] {
      AddressableOfAll(devices[1..]);
    }
  }

  /** Filtering distributes over concatenation, so the order of the kept
      devices is the order in the list. */
  lemma {:induction false} AddressableOfAppend(a: seq<Device>, b: seq<Device>)
    ensures AddressableOf(a + b) == AddressableOf(a) + AddressableOf(b)
    decreases |a|
  {
    if a != [] {
      assert (a + b)[0] == a[0] && (a + b)[1..] == a[1..] + b;
      AddressableOfAppend(a[1..], b);
      if a[0].addressable {
        calc {
          AddressableOf(a + b);
          [a[0]] + AddressableOf(a[1..] + b);
          [a[0]] + (AddressableOf(a[1..]) + AddressableOf(b));
          ([a[0]] + AddressableOf(a[1..])) + AddressableOf(b);
        }
      } else {
        assert AddressableOf(a + b) == AddressableOf(a[1..] + b);
      }
    } else {
      assert a + b == b;
    }
  }

  /** The ids of a sequence of devices, in order. */
  function Ids(devices: seq<Device>): (ids: seq<int>)
    ensures |ids| == |devices|
    ensures forall k :: 0 <= k < |devices| ==> ids[k] == devices[k].id
  {
    if devices == [] then [] else [devices[0].id] + Ids(devices[1..])
  }

  /** One step of `DeviceList::hash` on 64-bit unsigned words:
      `h ^= device_hash + 0x9e3779b9 + (h << 6) + (h >> 2)`. */
  function Mix(h: bv64, deviceHash: bv64): bv64
  {
    h ^ (deviceHash + 0x9e3779b9 + (h << 6) + (h >> 2))
  }

  /** The hash of an id sequence folded from the left, starting at 0;
      `idHash` stands for `std::hash<int>`. */
  function HashOfIds(idHash: int -> bv64, ids: seq<int>): bv64
  {
    if ids == [] then 0 else Mix(HashOfIds(idHash, ids[..|ids| - 1]), idHash(ids[|ids| - 1]))
  }

  /** The hash depends on the order of the ids: with the identity as the
      per-id hash, [1, 2] and [2, 1] hash differently. */
  lemma HashIsOrderDependent()
    ensures HashOfIds(i => (i % 0x1_0000) as bv64, [1, 2]) != HashOfIds(i => (i % 0x1_0000) as bv64, [2, 1])
  {
    var f := (i: int) => (i % 0x1_0000) as bv64;
    assert [1, 2][..1] == [1] && [2, 1][..1] == [2];
    assert [1][..0] == [] && [2][..0] == [];
    assert HashOfIds(f, [1]) == Mix(0, 1);
    assert HashOfIds(f, [2]) == Mix(0, 2);
  }

  /** The filtering loop of `AddressableDeviceList`: the addressable
      devices, in order. */
  method FilterAddressable(devices: seq<Device>) returns (kept: seq<Device>)
    ensures kept == AddressableOf(devices)
  {
    kept := [];
    var i := 0;
    while i < |devices|
      invariant 0 <= i <= |devices|
      invariant kept == AddressableOf(devices[..i])
    {
      AddressableOfAppend(devices[..i], [devices[i]]);
      assert devices[..i + 1] == devices[..i] + [devices[i]];
      if devices[i].addressable {
        kept := kept + [devices[i]];
      }
      i := i + 1;
    }
    assert devices[..i] == devices;
  }

  class DeviceList {
    const devices: seq<Device>
    /** `addressable_device_list_`: the filtered list, built on first use. */
    var cache: DeviceList?

    ghost predicate Valid()
      reads this
    {
      cache != null ==> cache.devices == AddressableOf(devices) && !AllAddressable(devices)
    }

    constructor (devices: seq<Device>)
      ensures this.devices == devices && cache == null && Valid()
    {
      this.devices := devices;
      cache := null;
    }

    function Size(): nat { |devices| }

    /** `AddressableDeviceList`: the list itself when every device is
        addressable; otherwise the cached filtered list, computing and
        caching it on the first call. The cache is written at most once. */
    method AddressableDeviceList() returns (r: DeviceList)
      requires Valid()
      modifies this`cache
      ensures Valid()
      ensures r.devices == AddressableOf(devices)
      ensures AllAddressable(devices) ==> r == this && cache == old(cache)
      ensures !AllAddressable(devices) && old(cache) != null ==> r == old(cache) && cache == old(cache)
      ensures !AllAddressable(devices) && old(cache) == null ==> fresh(r) && cache == r
    {
      var allAddressable := true;
      var i := 0;
      while i < |devices|
        invariant 0 <= i <= |devices|
        invariant allAddressable <==> forall k :: 0 <= k < i ==> devices[k].addressable
      {
        if !devices[i].addressable {
          allAddressable := false;
          break;
        }
        i := i + 1;
      }
      if allAddressable {
        AddressableOfAll(devices);
        return this;
      }
      if cache != null {
        return cache;
      }
      var kept := FilterAddressable(devices);
      r := new DeviceList(kept);
      cache := r;
    }

    /** `operator==`: equal lengths and the same device object at every
        position. */
    method Equals(other: DeviceList) returns (eq: bool)
      ensures eq <==> devices == other.devices
    {
      if |devices| != |other.devices| {
        return false;
      }
      var i := 0;
      while i < |devices|
        invariant 0 <= i <= |devices|
        invariant forall k :: 0 <= k < i ==> devices[k] == other.devices[k]
      {
        if devices[i] != other.devices[i] {
          return false;
        }
        i := i + 1;
      }
      return true;
    }

    /** `hash`: folds the ids with `Mix` from h = 0. */
    method Hash(idHash: int -> bv64) returns (h: bv64)
      ensures h == HashOfIds(idHash, Ids(devices))
    {
      h := 0;
      var i := 0;
      while i < |devices|
        invariant 0 <= i <= |devices|
        invariant h == HashOfIds(idHash, Ids(devices[..i]))
      {
        assert Ids(devices[..i + 1])[..i] == Ids(devices[..i]);
        h := Mix(h, idHash(devices[i].id));
        i := i + 1;
      }
      assert devices[..i] == devices;
    }

    /** `ToString`: "DeviceList([])" for an empty list, otherwise the device
        texts joined by ", " inside "DeviceList([" and "])". */
    method ToString() returns (s: string)
      ensures |devices| == 0 ==> s == "DeviceList([])"
      ensures exists names: seq<string> ::
                |names| == |devices| &&
                (forall k :: 0 <= k < |devices| ==> names[k] == devices[k].name) &&
                s == "DeviceList([" + Join(names, ", ") + "])"
    {
      if |devices| == 0 {
        assert Join([], ", ") == "";
        return "DeviceList([])";
      }
      var names: seq<string> := [];
      var i := 0;
      while i < |devices|
        invariant 0 <= i <= |devices| && |names| == i
        invariant forall k :: 0 <= k < i ==> names[k] == devices[k].name
      {
        names := names + [devices[i].name];
        i := i + 1;
      }
      s := "DeviceList([" + Join(names, ", ") + "])";
    }
  }

  /** `GetDeviceIds`: the ids in list order. */
  method GetDeviceIds(list: DeviceList) returns (ids: seq<int>)
    ensures |ids| == |list.devices|
    ensures forall k :: 0 <= k < |ids| ==> ids[k] == list.devices[k].id
  {
    ids := [];
    var i := 0;
    while i < |list.devices|
      invariant 0 <= i <= |list.devices| && |ids| == i
      invariant forall k :: 0 <= k < i ==> ids[k] == list.devices[k].id
    {
      ids := ids + [list.devices[i].id];
      i := i + 1;
    }
  }
}
