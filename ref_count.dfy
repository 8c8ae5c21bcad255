/** `ReferenceCounted` and `RCReference` (xftcpp/src/ref_count.h), modelled
    sequentially: the atomic counter becomes a plain field and `Destroy`
    (which deletes the object) sets a `destroyed` flag. Using an object after
    it has been destroyed is undefined behaviour in the source, so every
    operation requires a live object. */
module XftRefCount {
  import opened Wrappers

  /** The abstract state of a counted object. */
  datatype RcState = Live(count: nat) | Destroyed

  datatype RcEvent = AddRefEvent | DropRefEvent

  /** One `AddRef` or `DropRef` on a live object: `AddRef` adds one;
      `DropRef` on the last reference destroys the object, otherwise it
      subtracts one. */
  function Step(s: RcState, e: RcEvent): (t: RcState)
    requires s.Live? && s.count >= 1
    ensures e == AddRefEvent ==> t == Live(s.count + 1)
    ensures e == DropRefEvent ==> (t.Destroyed? <==> s.count == 1)
    ensures e == DropRefEvent && t.Live? ==> t.count == s.count - 1
  {
    match e
    case AddRefEvent => Live(s.count + 1)
    case DropRefEvent => if s.count == 1 then Destroyed else Live(s.count - 1)
  }

  /** Net change of the count over a sequence of events. */
  function Balance(evs: seq<RcEvent>): int
  {
    if evs == [] then 0
    else Balance(evs[..|evs| - 1]) + (if evs[|evs| - 1] == AddRefEvent then 1 else -1)
  }

  /** Replaying events on a live object; `None` if an event reaches an
      object that is already destroyed. */
  function Run(s: RcState, evs: seq<RcEvent>): Option<RcState>
  {
    if evs == [] then Some(s)
    else
      match Run(s, evs[..|evs| - 1])
      case Some(Live(c)) => if c >= 1 then Some(Step(Live(c), evs[|evs| - 1])) else None
      case _ => None
  }

  /** A replay that never lets the count fall to zero before its last event
      ends with the initial count plus the balance, and the object is
      destroyed exactly when that sum is zero: every reference added is
      matched by one dropped before the object goes away. */
  lemma {:induction false} RunBalance(n: nat, evs: seq<RcEvent>)
    requires n >= 1
    requires forall j :: 0 <= j < |evs| ==> n + Balance(evs[..j]) >= 1
    ensures n + Balance(evs) >= 0
    ensures Run(Live(n), evs) == if n + Balance(evs) == 0 then Some(Destroyed) else Some(Live(n + Balance(evs)))
    decreases |evs|
  {
    if evs != [] {
      var init := evs[..|evs| - 1];
      forall j | 0 <= j < |init| ensures n + Balance(init[..j]) >= 1 {
        assert init[..j] == evs[..j];
      }
      RunBalance(n, init);
      assert evs[..|evs| - 1] == init;
      var j := |evs| - 1;
      assert n + Balance(evs[..j]) >= 1;
    }
  }

  /** `ReferenceCounted<SubClass>`. */
  class Counted {
    var count: nat
    var destroyed: bool

    function State(): RcState
      reads this
    {
      if destroyed then Destroyed else Live(count)
    }

    /** The default constructor starts with one reference. */
    constructor ()
      ensures count == 1 && !destroyed
    {
      count := 1;
      destroyed := false;
    }

    /** `explicit ReferenceCounted(unsigned)`: the given count. */
    constructor WithCount(refCount: nat)
      ensures count == refCount && !destroyed
    {
      count := refCount;
      destroyed := false;
    }

    /** `AddRef`: the count must already be at least one; adds exactly one. */
    method AddRef()
      requires !destroyed && count >= 1
      modifies this
      ensures count == old(count) + 1 && !destroyed
      ensures State() == Step(old(State()), AddRefEvent)
    {
      count := count + 1;
    }

    /** `DropRef`: the count must be positive. Dropping the last reference
        stores 0 and destroys the object; otherwise the count goes down
        by one. */
    method DropRef()
      requires !destroyed && count > 0
      modifies this
      ensures old(count) == 1 ==> destroyed && count == 0
      ensures old(count) > 1 ==> !destroyed && count == old(count) - 1
      ensures State() == Step(old(State()), DropRefEvent)
    {
      if count == 1 {
        count := 0;
        destroyed := true;
      } else {
        count := count - 1;
      }
    }

    function NumRef(): nat
      reads this
    {
      count
    }

    predicate IsUnique()
      reads this
    {
      count == 1
    }
  }

  /** `RCReference<T>`: a smart pointer that owns one reference. */
  class RCReference {
    var pointer: Counted?

    /** The default constructor holds nothing. */
    constructor ()
      ensures pointer == null
    {
      pointer := null;
    }

    /** The copy constructor shares the pointer and adds a reference. */
    constructor Copy(other: RCReference)
      requires other.pointer != null ==> !other.pointer.destroyed && other.pointer.count >= 1
      modifies other.pointer
      ensures pointer == other.pointer
      ensures other.pointer != null ==> other.pointer.count == old(other.pointer.count) + 1 && !other.pointer.destroyed
    {
      pointer := other.pointer;
      new;
      if pointer != null {
        pointer.AddRef();
      }
    }

    /** The move constructor takes the pointer and nulls the source; no
        count changes. */
    constructor Move(other: RCReference)
      modifies other
      ensures pointer == old(other.pointer) && other.pointer == null
    {
      pointer := other.pointer;
      new;
      other.pointer := null;
    }

    /** `reset(p)`: drops the reference held (if any), then stores `p`
        without adding a reference to it. */
    method Reset(p: Counted?)
      requires pointer != null ==> !pointer.destroyed && pointer.count > 0
      modifies this, pointer
      ensures pointer == p
      ensures old(pointer) != null ==> old(pointer).State() == Step(old(pointer.State()), DropRefEvent)
      ensures old(pointer) != null && p != null && p != old(pointer) ==> p.count == old(p.count)
    {
      if pointer != null {
        pointer.DropRef();
      }
      pointer := p;
    }

    /** Move assignment: `reset(other.pointer_)`, then null the source. */
    method MoveAssign(other: RCReference)
      requires pointer != null ==> !pointer.destroyed && pointer.count > 0
      modifies this, other, pointer
      ensures other.pointer == null
      ensures other != this ==> pointer == old(other.pointer)
      ensures old(pointer) != null ==> old(pointer).State() == Step(old(pointer.State()), DropRefEvent)
    {
      Reset(other.pointer);
      other.pointer := null;
    }

    /** Copy assignment: `reset(other.pointer_)`, then add a reference to the
        new pointer. Assigning a sole reference to itself would destroy the
        object before adding the reference back, so that case is excluded. */
    method CopyAssign(other: RCReference)
      requires pointer != null ==> !pointer.destroyed && pointer.count > 0
      requires other.pointer != null ==> !other.pointer.destroyed && other.pointer.count >= 1
      requires other.pointer != null && other.pointer == pointer ==> pointer.count >= 2
      modifies this, pointer, other.pointer
      ensures pointer == old(other.pointer)
      ensures pointer != null && pointer == old(pointer) ==> pointer.count == old(pointer.count) && !pointer.destroyed
      ensures pointer != null && pointer != old(pointer) ==> pointer.count == old(other.pointer.count) + 1
      ensures old(pointer) != null && old(pointer) != pointer ==>
                old(pointer).State() == Step(old(pointer.State()), DropRefEvent)
    {
      var p := other.pointer;
      Reset(p);
      if pointer != null {
        pointer.AddRef();
      }
    }

    /** The destructor drops the reference held, if any. */
    method Destruct()
      requires pointer != null ==> !pointer.destroyed && pointer.count > 0
      modifies pointer
      ensures pointer != null ==> pointer.State() == Step(old(pointer.State()), DropRefEvent)
    {
      if pointer != null {
        pointer.DropRef();
      }
    }

    /** `release`: gives up the pointer without dropping its reference. */
    method Release() returns (p: Counted?)
      modifies this
      ensures p == old(pointer) && pointer == null
    {
      p := pointer;
      pointer := null;
    }

    function Get(): Counted?
      reads this
    {
      pointer
    }

    /** `explicit operator bool`. */
    predicate IsSet()
      reads this
    {
      pointer != null
    }

    /** `swap`: exchanges the pointers; no count changes. */
    method Swap(other: RCReference)
      modifies this, other
      ensures pointer == old(other.pointer) && other.pointer == old(pointer)
    {
      pointer, other.pointer := other.pointer, pointer;
    }

    /** `operator==` compares pointer identity. */
    predicate Equals(other: RCReference)
      reads this, other
    {
      pointer == other.pointer
    }
  }

  /** `FormRef`: a reference to an existing object, adding a reference. */
  method FormRef(p: Counted) returns (r: RCReference)
    requires !p.destroyed && p.count >= 1
    modifies p
    ensures fresh(r) && r.pointer == p && p.count == old(p.count) + 1
  {
    r := new RCReference();
    r.pointer := p;
    p.AddRef();
  }

  /** `TakeRef`: adopts the reference the caller already owns. */
  method TakeRef(p: Counted?) returns (r: RCReference)
    ensures fresh(r) && r.pointer == p
  {
    r := new RCReference();
    r.pointer := p;
  }

  /** `MakeRef`: a new object, whose single initial reference the result
      owns. */
  method MakeRef() returns (r: RCReference)
    ensures fresh(r) && r.pointer != null && fresh(r.pointer)
    ensures r.pointer.count == 1 && !r.pointer.destroyed
  {
    var t := new Counted();
    r := TakeRef(t);
  }
}
