/** `xftcpp::MemoryKind` and `PjRtMemory` (xftcpp/src/memory.cpp, memory.h).

    A set memory kind points into a process-wide pool of interned strings,
    and `operator==` compares those pointers. The pool is a class whose
    `entries` grow but never change; a `MemoryKind` is either unset or the
    slot of its pooled string, so comparing two kinds compares slots, exactly
    as the source compares pointers. */
module XftMemory {
  import opened Wrappers

  datatype MemoryKind = Unset | Pooled(slot: nat)

  predicate NoDuplicates(entries: seq<string>)
  {
    forall i, j :: 0 <= i < j < |entries| ==> entries[i] != entries[j]
  }

  /** In a pool without duplicates, the text determines the slot: two kinds
      built from equal strings are the same pooled entry. */
  lemma SameTextSameSlot(entries: seq<string>, i: nat, j: nat)
    requires NoDuplicates(entries)
    requires i < |entries| && j < |entries|
    ensures entries[i] == entries[j] <==> i == j
  {
    if i < j { assert entries[i] != entries[j]; }
    if j < i { assert entries[j] != entries[i]; }
  }

  /** The process-wide `memory_kinds_set` (guarded by a mutex in the source;
      modelled sequentially). */
  class MemoryKindPool {
    var entries: seq<string>

    ghost predicate Valid()
      reads this
    {
      NoDuplicates(entries)
    }

    /** A kind refers to this pool when it is unset or names one of its slots. */
    predicate Holds(m: MemoryKind)
      reads this
    {
      m.Pooled? ==> m.slot < |entries|
    }

    constructor ()
      ensures Valid() && entries == []
    {
      entries := [];
    }

    /** The `MemoryKind(optional<string_view>)` constructor: no string gives
        the unset kind; a string is looked up and inserted only if absent,
        and the kind refers to the pooled copy. */
    method Intern(kind: Option<string>) returns (m: MemoryKind)
      requires Valid()
      modifies this
      ensures Valid() && Holds(m)
      ensures old(entries) <= entries
      ensures kind.None? ==> m == Unset && entries == old(entries)
      ensures kind.Some? ==> m.Pooled? && entries[m.slot] == kind.value
      ensures kind.Some? && kind.value in old(entries) ==> entries == old(entries)
      ensures kind.Some? && kind.value !in old(entries) ==> entries == old(entries) + [kind.value]
    {
      if kind.None? {
        return Unset;
      }
      if kind.value in entries {
        var i :| 0 <= i < |entries| && entries[i] == kind.value;
        return Pooled(i);
      }
      entries := entries + [kind.value];
      m := Pooled(|entries| - 1);
    }

    /** `MemoryKind::ToString`: the pooled text, or "(default)" when unset. */
    function ToString(m: MemoryKind): (s: string)
      reads this
      requires Holds(m)
      ensures m.Unset? ==> s == "(default)"
      ensures m.Pooled? ==> s == entries[m.slot]
    {
      if m.Unset? then "(default)" else entries[m.slot]
    }
  }

  /** `CanonicalizeMemoryKind`: a set kind is kept; an unset kind becomes
      the kind of the device's default memory when the device has one
      (`device->DefaultMemory()` is the parameter), and stays unset
      otherwise. */
  function CanonicalizeMemoryKind(m: MemoryKind, deviceDefault: Result<MemoryKind>): (r: MemoryKind)
    ensures m.Pooled? ==> r == m
    ensures m.Unset? && deviceDefault.Ok? ==> r == deviceDefault.value
    ensures m.Unset? && deviceDefault.Err? ==> r == Unset
  {
    if m.Pooled? then m
    else if deviceDefault.Ok? then deviceDefault.value
    else Unset
  }

  /** Canonicalising twice changes nothing more when the default is itself
      canonical (set or absent). */
  lemma CanonicalizeIdempotent(m: MemoryKind, deviceDefault: Result<MemoryKind>)
    requires deviceDefault.Ok? ==> deviceDefault.value.Pooled?
    ensures CanonicalizeMemoryKind(CanonicalizeMemoryKind(m, deviceDefault), deviceDefault)
            == CanonicalizeMemoryKind(m, deviceDefault)
  {
  }

  /** A `PjRtMemory`: either backed by a PJRT memory space (with that
      space's id) or an unaddressable placeholder with no backing space. */
  datatype PjRtMemory = PjRtMemory(backingId: Option<int>, kind: MemoryKind)

  /** `PjRtMemory::Id`: -1 when there is no backing space, else its id. */
  function MemoryId(mem: PjRtMemory): (id: int)
    ensures mem.backingId.None? ==> id == -1
    ensures mem.backingId.Some? ==> id == mem.backingId.value
  {
    match mem.backingId
    case None => -1
    case Some(i) => i
  }
}
