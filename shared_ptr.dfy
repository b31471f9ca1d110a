/** shared_ptr, weak_ptr and the control block under them.

    Handles are objects with the two fields of the C++ value, a stored
    address and a nullable control-block reference.  The control block keeps
    its two counters and, as ghost state, the destruction log of the managed
    object, whether the block itself has been freed, and the sets of live
    handles that hold it.  Consistent() ties the counters to those sets, and
    every handle operation is proved to move the block along Lifetime.Step. */
module SharedPointers {
  import opened Lifetime

  class ControlBlock {
    var sharedCnt: nat
    var weakCnt: nat
    const variant: Variant

    /** Every run of delete_object, in order. */
    ghost var destroyLog: seq<Disposal>
    /** Whether `delete cb` has run. */
    ghost var freed: bool
    /** The live shared_ptr and weak_ptr handles that refer to this block. */
    ghost var owners: set<SharedPtr>
    ghost var observers: set<WeakPtr>

    ghost function State(): BlockState
      reads this`sharedCnt, this`weakCnt, this`destroyLog, this`freed
    {
      BlockState(sharedCnt, weakCnt, |destroyLog|, if freed then 1 else 0)
    }

    /** The counters are the numbers of live handles. */
    ghost predicate Tally()
      reads this`sharedCnt, this`weakCnt, this`owners, this`observers
    {
      sharedCnt == |owners| && weakCnt == |observers|
    }

    /** Every handle counted here points back at this block. */
    ghost predicate PointedBack()
      reads this`owners, this`observers, owners`cb, observers`cb
    {
      (forall s :: s in owners ==> s.cb == this) &&
      (forall w :: w in observers ==> w.cb == this)
    }

    /** The object was destroyed, by this block's own hook, exactly when no
        owner is left; the block is freed exactly when no handle is left. */
    ghost predicate Lifecycle()
      reads this`sharedCnt, this`weakCnt, this`destroyLog, this`freed
    {
      destroyLog == (if sharedCnt == 0 then [Hook(variant)] else []) &&
      Inv(State())
    }

    ghost predicate Consistent()
      reads this`sharedCnt, this`weakCnt, this`destroyLog, this`freed,
            this`owners, this`observers, owners`cb, observers`cb
    {
      Tally() && PointedBack() && Lifecycle()
    }

    /** control_block(): both counters start at zero. */
    constructor (v: Variant)
      ensures variant == v
      ensures sharedCnt == 0 && weakCnt == 0
      ensures destroyLog == [] && !freed
      ensures owners == {} && observers == {}
    {
      variant := v;
      sharedCnt, weakCnt := 0, 0;
      destroyLog, freed := [], false;
      owners, observers := {}, {};
    }

    /** release_shared: the count must be positive (an assertion in the
        source); takes exactly one off and leaves the weak count alone. */
    method ReleaseShared()
      requires sharedCnt > 0
      modifies this`sharedCnt
      ensures sharedCnt == old(sharedCnt) - 1
      ensures weakCnt == old(weakCnt)
    {
      sharedCnt := sharedCnt - 1;
    }

    /** release_weak: the mirror image of ReleaseShared. */
    method ReleaseWeak()
      requires weakCnt > 0
      modifies this`weakCnt
      ensures weakCnt == old(weakCnt) - 1
      ensures sharedCnt == old(sharedCnt)
    {
      weakCnt := weakCnt - 1;
    }

    /** inc_shared / inc_weak: add exactly one, nothing else changes. */
    method IncShared()
      modifies this`sharedCnt
      ensures sharedCnt == old(sharedCnt) + 1
      ensures weakCnt == old(weakCnt)
    {
      sharedCnt := sharedCnt + 1;
    }

    method IncWeak()
      modifies this`weakCnt
      ensures weakCnt == old(weakCnt) + 1
      ensures sharedCnt == old(sharedCnt)
    {
      weakCnt := weakCnt + 1;
    }

    /** get_shared_cnt / get_weak_cnt: no modifies clause, no side effect. */
    method SharedCount() returns (n: nat)
      ensures n == sharedCnt
    {
      n := sharedCnt;
    }

    method WeakCount() returns (n: nat)
      ensures n == weakCnt
    {
      n := weakCnt;
    }

    /** delete_object: both variants assert that no owner is left; the
        separate variant calls its deleter on the adopted pointer, the
        in-place variant runs the destructor on its embedded storage. */
    method DeleteObject()
      requires sharedCnt == 0
      modifies this`destroyLog
      ensures destroyLog == old(destroyLog) + [Hook(variant)]
    {
      destroyLog := destroyLog + [Hook(variant)];
    }

    /** `delete cb`. */
    method Free()
      requires !freed
      modifies this`freed
      ensures freed
    {
      freed := true;
    }
  }

  /** The block a handle holds, as a frame. */
  function Held(c: ControlBlock?): (s: set<ControlBlock>)
    ensures c != null <==> c in s
    ensures |s| <= 1
  {
    if c == null then {} else {c}
  }

  /** The handles a block counts, as frames. */
  ghost function Owners(c: ControlBlock?): set<SharedPtr>
    reads Held(c)`owners
  {
    if c == null then {} else c.owners
  }

  ghost function Observers(c: ControlBlock?): set<WeakPtr>
    reads Held(c)`observers
  {
    if c == null then {} else c.observers
  }

  /** Replacing one member of a set by a non-member keeps its size. */
  lemma HandOver<T>(s: set<T>, from: T, to: T)
    requires from in s && to !in s
    ensures |s - {from} + {to}| == |s|
  {
  }

  /** Ghost bookkeeping only: `c` stops counting `from` and counts `to`,
      which already points at `c`. */
  ghost method Rehome(c: ControlBlock, from: SharedPtr, to: SharedPtr)
    requires c.Tally() && c.Lifecycle()
    requires from in c.owners && to !in c.owners && to.cb == c
    requires forall s :: s in c.owners && s != from ==> s.cb == c
    requires forall w :: w in c.observers ==> w.cb == c
    modifies c`owners
    ensures c.owners == old(c.owners) - {from} + {to}
    ensures c.Consistent()
  {
    HandOver(c.owners, from, to);
    c.owners := c.owners - {from} + {to};
  }

  /** Ghost bookkeeping only: `c` stops counting the observer `from` and
      counts `to`, which already points at `c`. */
  ghost method RehomeObserver(c: ControlBlock, from: WeakPtr, to: WeakPtr)
    requires c.Tally() && c.Lifecycle()
    requires from in c.observers && to !in c.observers && to.cb == c
    requires forall s :: s in c.owners ==> s.cb == c
    requires forall w :: w in c.observers && w != from ==> w.cb == c
    modifies c`observers
    ensures c.observers == old(c.observers) - {from} + {to}
    ensures c.Consistent()
  {
    HandOver(c.observers, from, to);
    c.observers := c.observers - {from} + {to};
  }

  /** The outcome of adopting a raw pointer: a new handle, or the rethrown
      allocation failure after the deleter has run on the pointer. */
  datatype Construction = Constructed(handle: SharedPtr) | Threw(cleanup: Disposal)

  class SharedPtr {
    var ptr: Address
    var cb: ControlBlock?

    /** A live handle: empty, or counted among its block's owners. */
    ghost predicate Valid()
      reads this`cb, Held(cb), Owners(cb)`cb, Observers(cb)`cb
    {
      cb != null ==> this in cb.owners && cb.Consistent()
    }

    /** shared_ptr() and shared_ptr(nullptr). */
    constructor Empty()
      ensures Valid()
      ensures ptr == Null && cb == null
    {
      ptr, cb := Null, null;
    }

    /** The success path of shared_ptr(ptr, d): a fresh separate block
        holding `p` and `d`, with this handle as its one owner. */
    constructor Adopt(p: Address, d: Deleter)
      ensures Valid()
      ensures ptr == p && cb != null && fresh(cb)
      ensures cb.variant == Separate(p, d)
      ensures cb.State() == FirstOwner
      ensures cb.owners == {this} && cb.observers == {}
    {
      ptr := p;
      var c := new ControlBlock(Separate(p, d));
      cb := c;
      new;
      c.IncShared();
      c.owners := {this};
    }

    /** The private shared_ptr(ptr, cb): takes a count already granted. */
    constructor Attach(p: Address, c: ControlBlock?)
      ensures ptr == p && cb == c
    {
      ptr, cb := p, c;
    }

    /** The aliasing constructor shared_ptr(r, p): shares r's block and
        stores `p`. */
    constructor Alias(r: SharedPtr, p: Address)
      requires r.Valid()
      modifies r.cb
      ensures Valid() && r.Valid()
      ensures ptr == p && cb == r.cb
      ensures r.cb != null ==> Step(old(r.cb.State()), Share) == Some(r.cb.State())
      ensures r.cb != null ==> r.cb.owners == old(r.cb.owners) + {this}
      ensures r.cb != null ==> r.cb.observers == old(r.cb.observers)
    {
      ptr, cb := p, r.cb;
      new;
      if cb != null {
        cb.IncShared();
        cb.owners := cb.owners + {this};
      }
    }

    /** The copy constructor: shared_ptr(r, r.ptr). */
    constructor Copy(r: SharedPtr)
      requires r.Valid()
      modifies r.cb
      ensures Valid() && r.Valid()
      ensures ptr == r.ptr && cb == r.cb
      ensures r.cb != null ==> Step(old(r.cb.State()), Share) == Some(r.cb.State())
      ensures r.cb != null ==> r.cb.owners == old(r.cb.owners) + {this}
      ensures r.cb != null ==> r.cb.observers == old(r.cb.observers)
    {
      ptr, cb := r.ptr, r.cb;
      new;
      if cb != null {
        cb.IncShared();
        cb.owners := cb.owners + {this};
      }
    }

    /** The move constructor: takes r's pair and leaves r empty; no counter
        changes, the ownership passes from r to this handle. */
    constructor Move(r: SharedPtr)
      requires r.Valid()
      modifies r, Held(r.cb)`owners
      ensures Valid() && r.Valid()
      ensures ptr == old(r.ptr) && cb == old(r.cb)
      ensures r.ptr == Null && r.cb == null
      ensures cb != null ==> cb.owners == old(r.cb.owners) - {r} + {this}
    {
      ptr, cb := r.ptr, r.cb;
      new;
      r.ptr, r.cb := Null, null;
      if cb != null {
        cb.owners := cb.owners - {r} + {this};
      }
    }

    /** ~shared_ptr: releases one shared count, runs the destruction hook when
        it reaches zero, and frees the block when both counters are zero. */
    method Destroy()
      requires Valid()
      modifies this, cb
      ensures ptr == (if old(cb) == null then old(ptr) else Null)
      ensures cb == (if old(cb) != null && old(cb).freed then null else old(cb))
      ensures old(cb) != null ==> Step(old(cb.State()), DropShared) == Some(old(cb).State())
      ensures old(cb) != null ==> old(cb).Consistent()
      ensures old(cb) != null ==> old(cb).owners == old(cb.owners) - {this}
      ensures old(cb) != null ==> old(cb).observers == old(cb.observers)
      ensures old(cb) != null ==>
                old(cb).destroyLog == old(cb.destroyLog) +
                  (if old(cb).sharedCnt == 0 then [Hook(old(cb).variant)] else [])
      ensures old(cb) != null ==>
                (old(cb).freed <==> old(cb).sharedCnt == 0 && old(cb).weakCnt == 0)
    {
      if cb != null {
        ptr := Null;
        var c := cb;
        c.ReleaseShared();
        c.owners := c.owners - {this};
        var n := c.SharedCount();
        if n == 0 {
          c.DeleteObject();
        }
        n := c.SharedCount();
        var w := c.WeakCount();
        if n == 0 && w == 0 {
          c.Free();
          cb := null;
        }
      }
    }

    /** swap: exchanges both fields; the counters do not change, only which
        handle each block counts. */
    method Swap(r: SharedPtr)
      requires Valid() && r.Valid()
      modifies this, r, Held(cb)`owners, Held(r.cb)`owners
      ensures Valid() && r.Valid()
      ensures ptr == old(r.ptr) && cb == old(r.cb)
      ensures r.ptr == old(ptr) && r.cb == old(cb)
      ensures old(cb) == old(r.cb) && cb != null ==> cb.owners == old(cb.owners)
      ensures old(cb) != old(r.cb) && old(cb) != null ==>
                old(cb).owners == old(cb.owners) - {this} + {r}
      ensures old(cb) != old(r.cb) && old(r.cb) != null ==>
                old(r.cb).owners == old(r.cb.owners) - {r} + {this}
    {
      ptr, r.ptr := r.ptr, ptr;
      if cb != r.cb {
        SwapBlocks(r);
      }
    }

    /** The second half of swap when the two handles hold different blocks:
        each block now counts the other handle. */
    method SwapBlocks(r: SharedPtr)
      requires Valid() && r.Valid() && cb != r.cb
      modifies this`cb, r`cb, Held(cb)`owners, Held(r.cb)`owners
      ensures Valid() && r.Valid()
      ensures cb == old(r.cb) && r.cb == old(cb)
      ensures old(cb) != null ==> old(cb).owners == old(cb.owners) - {this} + {r}
      ensures old(r.cb) != null ==> old(r.cb).owners == old(r.cb.owners) - {r} + {this}
    {
      var c0, c1 := cb, r.cb;
      cb, r.cb := c1, c0;
      if c0 != null {
        Rehome(c0, this, r);
      }
      if c1 != null {
        Rehome(c1, r, this);
      }
    }

    /** `tmp.swap(*this)` followed by the end of the temporary `tmp`: this
        handle takes tmp's pair, and the old pair is released by tmp's
        destructor.  Every assignment and reset ends this way. */
    method Replace(tmp: SharedPtr)
      requires Valid() && tmp.Valid() && tmp != this
      modifies this, tmp, Held(cb), Held(tmp.cb)
      ensures Valid()
      ensures ptr == old(tmp.ptr) && cb == old(tmp.cb)
      ensures old(cb) != null ==>
                Step(old(cb.State()), DropShared) == Some(old(cb).State()) &&
                old(cb).observers == old(cb.observers) && old(cb).Consistent()
      ensures old(cb) != null && old(cb) != old(tmp.cb) ==>
                old(cb).owners == old(cb.owners) - {this}
      ensures old(cb) == old(tmp.cb) && cb != null ==>
                cb.owners == old(cb.owners) - {tmp}
      ensures old(cb) != old(tmp.cb) && cb != null ==>
                cb.State() == old(tmp.cb.State()) &&
                cb.owners == old(tmp.cb.owners) - {tmp} + {this} &&
                cb.observers == old(tmp.cb.observers)
    {
      if cb == tmp.cb {
        ReplaceSameBlock(tmp);
      } else {
        ReplaceOtherBlock(tmp);
      }
    }

    /** Replace when both handles hold the same block: the block loses the
        temporary and one count. */
    method ReplaceSameBlock(tmp: SharedPtr)
      requires Valid() && tmp.Valid() && tmp != this && cb == tmp.cb
      modifies this, tmp, Held(cb)
      ensures Valid()
      ensures ptr == old(tmp.ptr) && cb == old(cb)
      ensures cb != null ==>
                Step(old(cb.State()), DropShared) == Some(cb.State()) &&
                cb.owners == old(cb.owners) - {tmp} &&
                cb.observers == old(cb.observers)
    {
      tmp.Swap(this);
      tmp.Destroy();
    }

    /** Replace when the handles hold different blocks: this handle's old
        block loses it and one count; tmp's block counts this handle in
        place of tmp. */
    method ReplaceOtherBlock(tmp: SharedPtr)
      requires Valid() && tmp.Valid() && cb != tmp.cb
      modifies this, tmp, Held(cb), Held(tmp.cb)
      ensures Valid()
      ensures ptr == old(tmp.ptr) && cb == old(tmp.cb)
      ensures old(cb) != null ==>
                Step(old(cb.State()), DropShared) == Some(old(cb).State()) &&
                old(cb).owners == old(cb.owners) - {this} &&
                old(cb).observers == old(cb.observers) && old(cb).Consistent()
      ensures cb != null ==>
                cb.State() == old(tmp.cb.State()) &&
                cb.owners == old(tmp.cb.owners) - {tmp} + {this} &&
                cb.observers == old(tmp.cb.observers)
    {
      tmp.Swap(this);
      tmp.DestroyBeside(this);
    }

    /** Destroy, when `keep` holds another block: `keep` stays valid. */
    method DestroyBeside(keep: SharedPtr)
      requires Valid() && keep.Valid() && cb != keep.cb
      modifies this, Held(cb)
      ensures keep.Valid()
      ensures old(cb) != null ==>
                Step(old(cb.State()), DropShared) == Some(old(cb).State()) &&
                old(cb).owners == old(cb.owners) - {this} &&
                old(cb).observers == old(cb.observers) && old(cb).Consistent()
    {
      Destroy();
    }

    /** Copy assignment: unless r is this handle, copy r into a temporary
        and let it replace this handle's pair. */
    method CopyAssign(r: SharedPtr)
      requires Valid() && r.Valid()
      modifies this, cb, r.cb
      ensures Valid() && r.Valid()
      ensures ptr == old(r.ptr) && cb == old(r.cb)
      ensures old(cb) == old(r.cb) && cb != null ==>
                cb.State() == old(cb.State()) && cb.owners == old(cb.owners) &&
                cb.observers == old(cb.observers)
      ensures old(cb) != old(r.cb) && cb != null ==>
                Step(old(r.cb.State()), Share) == Some(cb.State()) &&
                cb.owners == old(r.cb.owners) + {this} && cb.observers == old(r.cb.observers)
      ensures old(cb) != old(r.cb) && old(cb) != null ==>
                Step(old(cb.State()), DropShared) == Some(old(cb).State()) &&
                old(cb).owners == old(cb.owners) - {this} &&
                old(cb).observers == old(cb.observers) && old(cb).Consistent()
    {
      if this != r {
        var tmp := new SharedPtr.Copy(r);
        Replace(tmp);
      }
    }

    /** Move assignment: unless r is this handle, move r into a temporary
        and let it replace this handle's pair. */
    method MoveAssign(r: SharedPtr)
      requires Valid() && r.Valid()
      modifies this, r, cb, r.cb
      ensures Valid() && r.Valid()
      ensures ptr == old(r.ptr) && cb == old(r.cb)
      ensures this != r ==> r.ptr == Null && r.cb == null
      ensures this == r && cb != null ==>
                cb.State() == old(cb.State()) && cb.owners == old(cb.owners) &&
                cb.observers == old(cb.observers)
      ensures this != r && old(cb) == old(r.cb) && cb != null ==>
                Step(old(cb.State()), DropShared) == Some(cb.State()) &&
                cb.owners == old(cb.owners) - {r} && cb.observers == old(cb.observers)
      ensures old(cb) != old(r.cb) && cb != null ==>
                cb.State() == old(r.cb.State()) &&
                cb.owners == old(r.cb.owners) - {r} + {this} && cb.observers == old(r.cb.observers)
      ensures old(cb) != old(r.cb) && old(cb) != null ==>
                Step(old(cb.State()), DropShared) == Some(old(cb).State()) &&
                old(cb).owners == old(cb.owners) - {this} &&
                old(cb).observers == old(cb.observers) && old(cb).Consistent()
    {
      if this != r {
        var tmp := new SharedPtr.Move(r);
        Replace(tmp);
      }
    }

    /** reset(): an empty temporary replaces this handle's pair. */
    method Reset()
      requires Valid()
      modifies this, cb
      ensures Valid()
      ensures ptr == Null && cb == null
      ensures old(cb) != null ==>
                Step(old(cb.State()), DropShared) == Some(old(cb).State()) &&
                old(cb).owners == old(cb.owners) - {this} &&
                old(cb).observers == old(cb.observers) && old(cb).Consistent()
    {
      var tmp := new SharedPtr.Empty();
      Replace(tmp);
    }

    /** reset(p, d): adopt `p` into a temporary, swap it in, and destroy the
        old pair.  When the temporary's block cannot be allocated, the
        deleter runs on `p`, the failure propagates and this handle is left
        as it was. */
    method ResetWith(p: Address, d: Deleter, allocOk: bool) returns (cleanup: Option<Disposal>)
      requires Valid()
      modifies this, cb
      ensures Valid()
      ensures !allocOk ==> cleanup == Some(Deleted(d, p))
      ensures !allocOk ==> ptr == old(ptr) && cb == old(cb)
      ensures !allocOk && cb != null ==>
                cb.State() == old(cb.State()) && cb.owners == old(cb.owners) &&
                cb.observers == old(cb.observers)
      ensures allocOk ==> cleanup == None
      ensures allocOk ==> ptr == p && cb != null && fresh(cb)
      ensures allocOk ==> cb.variant == Separate(p, d) && cb.State() == FirstOwner
      ensures allocOk ==> cb.owners == {this} && cb.observers == {}
      ensures allocOk && old(cb) != null ==>
                Step(old(cb.State()), DropShared) == Some(old(cb).State()) &&
                old(cb).owners == old(cb.owners) - {this} &&
                old(cb).observers == old(cb.observers) && old(cb).Consistent()
    {
      var made := FromRaw(p, d, allocOk);
      match made
      case Threw(c) =>
        cleanup := Some(c);
      case Constructed(tmp) =>
        Replace(tmp);
        cleanup := None;
    }

    /** reset(p): as ResetWith with std::default_delete. */
    method ResetTo(p: Address, allocOk: bool) returns (cleanup: Option<Disposal>)
      requires Valid()
      modifies this, cb
      ensures Valid()
      ensures !allocOk ==> cleanup == Some(Deleted(DefaultDelete, p))
      ensures !allocOk ==> ptr == old(ptr) && cb == old(cb)
      ensures !allocOk && cb != null ==>
                cb.State() == old(cb.State()) && cb.owners == old(cb.owners) &&
                cb.observers == old(cb.observers)
      ensures allocOk ==> cleanup == None
      ensures allocOk ==> ptr == p && cb != null && fresh(cb)
      ensures allocOk ==> cb.variant == Separate(p, DefaultDelete) && cb.State() == FirstOwner
      ensures allocOk ==> cb.owners == {this} && cb.observers == {}
      ensures allocOk && old(cb) != null ==>
                Step(old(cb.State()), DropShared) == Some(old(cb).State()) &&
                old(cb).owners == old(cb.owners) - {this} &&
                old(cb).observers == old(cb.observers) && old(cb).Consistent()
    {
      cleanup := ResetWith(p, DefaultDelete, allocOk);
    }

    /** get(): the stored pointer, which may differ from the address the
        block manages (aliasing) and may be null. */
    function Get(): (p: Address)
      reads this`ptr
      ensures p == ptr
    {
      ptr
    }

    /** use_count(): the number of live shared_ptr handles that share this
        handle's block; 0 exactly when the handle is empty. */
    function UseCount(): (n: nat)
      requires Valid()
      reads this`cb, Held(cb), Owners(cb)`cb, Observers(cb)`cb
      ensures n == 0 <==> cb == null
      ensures cb != null ==> n == |cb.owners| && this in cb.owners
    {
      if cb == null then 0 else cb.sharedCnt
    }

    /** operator bool: whether the stored pointer is non-null. */
    function IsSet(): (b: bool)
      reads this`ptr
      ensures b <==> Get() != Null
    {
      Get() != Null
    }

    /** shared_ptr(ptr, d): when the separate block cannot be allocated, the
        deleter runs on `ptr` and the failure propagates; otherwise the new
        handle stores `ptr` and is the block's only owner. */
    static method FromRaw(p: Address, d: Deleter, allocOk: bool) returns (r: Construction)
      ensures r.Threw? <==> !allocOk
      ensures r.Threw? ==> r.cleanup == Deleted(d, p)
      ensures r.Constructed? ==> fresh(r.handle) && r.handle.Valid()
      ensures r.Constructed? ==> r.handle.Get() == p && r.handle.UseCount() == 1
      ensures r.Constructed? ==> fresh(r.handle.cb) && r.handle.cb.variant == Separate(p, d)
      ensures r.Constructed? ==> r.handle.cb.State() == FirstOwner
      ensures r.Constructed? ==> r.handle.cb.owners == {r.handle} && r.handle.cb.observers == {}
    {
      if !allocOk {
        r := Threw(Hook(Separate(p, d)));
      } else {
        var sp := new SharedPtr.Adopt(p, d);
        r := Constructed(sp);
      }
    }

    /** shared_ptr(ptr): FromRaw with std::default_delete. */
    static method FromRawDefault(p: Address, allocOk: bool) returns (r: Construction)
      ensures r.Threw? <==> !allocOk
      ensures r.Threw? ==> r.cleanup == Deleted(DefaultDelete, p)
      ensures r.Constructed? ==> fresh(r.handle) && r.handle.Valid()
      ensures r.Constructed? ==> r.handle.Get() == p && r.handle.UseCount() == 1
      ensures r.Constructed? ==> fresh(r.handle.cb) && r.handle.cb.variant == Separate(p, DefaultDelete)
      ensures r.Constructed? ==> r.handle.cb.State() == FirstOwner
    {
      r := FromRaw(p, DefaultDelete, allocOk);
    }
  }

  /** make_shared: one in-place block holding the object's storage, with a
      single owner that stores the storage's address.  The storage lies
      inside the new block, so its address is never null. */
  method MakeShared(storage: Address) returns (sp: SharedPtr)
    requires storage != Null
    ensures fresh(sp) && sp.Valid()
    ensures sp.Get() == storage && sp.UseCount() == 1 && sp.IsSet()
    ensures sp.cb != null && fresh(sp.cb) && sp.cb.variant == InPlace(storage)
    ensures sp.cb.State() == FirstOwner
    ensures sp.cb.owners == {sp} && sp.cb.observers == {}
  {
    var c := new ControlBlock(InPlace(storage));
    c.IncShared();
    sp := new SharedPtr.Attach(storage, c);
    c.owners := {sp};
  }

  /** operator==: compares the stored pointers only, never the blocks. */
  function Equal(a: SharedPtr, b: SharedPtr): (r: bool)
    reads a, b
    ensures r <==> a.Get() == b.Get()
  {
    a.Get() == b.Get()
  }

  /** operator!=. */
  function NotEqual(a: SharedPtr, b: SharedPtr): (r: bool)
    reads a, b
    ensures r <==> !Equal(a, b)
  {
    a.Get() != b.Get()
  }

  /** operator==(p, nullptr) and operator==(nullptr, p). */
  function IsNull(a: SharedPtr): (r: bool)
    reads a
    ensures r <==> !a.IsSet()
  {
    !a.IsSet()
  }

  /** operator!=(p, nullptr) and operator!=(nullptr, p). */
  function IsNotNull(a: SharedPtr): (r: bool)
    reads a
    ensures r <==> a.IsSet()
    ensures r <==> !IsNull(a)
  {
    a.IsSet()
  }

  class WeakPtr {
    var ptr: Address
    var cb: ControlBlock?

    /** A live handle: empty, or counted among its block's observers. */
    ghost predicate Valid()
      reads this`cb, Held(cb), Owners(cb)`cb, Observers(cb)`cb
    {
      cb != null ==> this in cb.observers && cb.Consistent()
    }

    /** weak_ptr(). */
    constructor Empty()
      ensures Valid()
      ensures ptr == Null && cb == null
    {
      ptr, cb := Null, null;
    }

    /** The copy constructor: observes r's block too. */
    constructor Copy(r: WeakPtr)
      requires r.Valid()
      modifies r.cb
      ensures Valid() && r.Valid()
      ensures ptr == r.ptr && cb == r.cb
      ensures r.cb != null ==> Step(old(r.cb.State()), Observe) == Some(r.cb.State())
      ensures r.cb != null ==> r.cb.observers == old(r.cb.observers) + {this}
      ensures r.cb != null ==> r.cb.owners == old(r.cb.owners)
    {
      ptr, cb := r.ptr, r.cb;
      new;
      if cb != null {
        cb.IncWeak();
        cb.observers := cb.observers + {this};
      }
    }

    /** weak_ptr(const shared_ptr&): observes the block r owns. */
    constructor FromShared(r: SharedPtr)
      requires r.Valid()
      modifies r.cb
      ensures Valid() && r.Valid()
      ensures ptr == r.ptr && cb == r.cb
      ensures r.cb != null ==> Step(old(r.cb.State()), Observe) == Some(r.cb.State())
      ensures r.cb != null ==> r.cb.observers == old(r.cb.observers) + {this}
      ensures r.cb != null ==> r.cb.owners == old(r.cb.owners)
    {
      ptr, cb := r.ptr, r.cb;
      new;
      if cb != null {
        cb.IncWeak();
        cb.observers := cb.observers + {this};
      }
    }

    /** The move constructor: takes r's pair and leaves r empty; no counter
        changes. */
    constructor Move(r: WeakPtr)
      requires r.Valid()
      modifies r, Held(r.cb)`observers
      ensures Valid() && r.Valid()
      ensures ptr == old(r.ptr) && cb == old(r.cb)
      ensures r.ptr == Null && r.cb == null
      ensures cb != null ==> cb.observers == old(r.cb.observers) - {r} + {this}
    {
      ptr, cb := r.ptr, r.cb;
      new;
      r.ptr, r.cb := Null, null;
      if cb != null {
        cb.observers := cb.observers - {r} + {this};
      }
    }

    /** ~weak_ptr: releases one weak count and frees the block when both
        counters are zero; it never touches the managed object. */
    method Destroy()
      requires Valid()
      modifies this, cb
      ensures ptr == (if old(cb) == null then old(ptr) else Null)
      ensures cb == (if old(cb) != null && old(cb).freed then null else old(cb))
      ensures old(cb) != null ==> Step(old(cb.State()), DropWeak) == Some(old(cb).State())
      ensures old(cb) != null ==> old(cb).Consistent()
      ensures old(cb) != null ==> old(cb).observers == old(cb.observers) - {this}
      ensures old(cb) != null ==> old(cb).owners == old(cb.owners)
      ensures old(cb) != null ==> old(cb).destroyLog == old(cb.destroyLog)
      ensures old(cb) != null ==>
                (old(cb).freed <==> old(cb).sharedCnt == 0 && old(cb).weakCnt == 0)
    {
      if cb != null {
        ptr := Null;
        var c := cb;
        c.ReleaseWeak();
        c.observers := c.observers - {this};
        var n := c.SharedCount();
        var w := c.WeakCount();
        if n == 0 && w == 0 {
          c.Free();
          cb := null;
        }
      }
    }

    /** swap: exchanges both fields; no counter changes. */
    method Swap(r: WeakPtr)
      requires Valid() && r.Valid()
      modifies this, r, Held(cb)`observers, Held(r.cb)`observers
      ensures Valid() && r.Valid()
      ensures ptr == old(r.ptr) && cb == old(r.cb)
      ensures r.ptr == old(ptr) && r.cb == old(cb)
      ensures old(cb) == old(r.cb) && cb != null ==> cb.observers == old(cb.observers)
      ensures old(cb) != old(r.cb) && old(cb) != null ==>
                old(cb).observers == old(cb.observers) - {this} + {r}
      ensures old(cb) != old(r.cb) && old(r.cb) != null ==>
                old(r.cb).observers == old(r.cb.observers) - {r} + {this}
    {
      ptr, r.ptr := r.ptr, ptr;
      if cb != r.cb {
        SwapBlocks(r);
      }
    }

    /** The second half of swap when the two handles observe different
        blocks. */
    method SwapBlocks(r: WeakPtr)
      requires Valid() && r.Valid() && cb != r.cb
      modifies this`cb, r`cb, Held(cb)`observers, Held(r.cb)`observers
      ensures Valid() && r.Valid()
      ensures cb == old(r.cb) && r.cb == old(cb)
      ensures old(cb) != null ==> old(cb).observers == old(cb.observers) - {this} + {r}
      ensures old(r.cb) != null ==> old(r.cb).observers == old(r.cb.observers) - {r} + {this}
    {
      var c0, c1 := cb, r.cb;
      cb, r.cb := c1, c0;
      if c0 != null {
        RehomeObserver(c0, this, r);
      }
      if c1 != null {
        RehomeObserver(c1, r, this);
      }
    }

    /** `tmp.swap(*this)` followed by the end of the temporary `tmp`. */
    method Replace(tmp: WeakPtr)
      requires Valid() && tmp.Valid() && tmp != this
      modifies this, tmp, Held(cb), Held(tmp.cb)
      ensures Valid()
      ensures ptr == old(tmp.ptr) && cb == old(tmp.cb)
      ensures old(cb) != null ==>
                Step(old(cb.State()), DropWeak) == Some(old(cb).State()) &&
                old(cb).owners == old(cb.owners) && old(cb).Consistent()
      ensures old(cb) != null && old(cb) != old(tmp.cb) ==>
                old(cb).observers == old(cb.observers) - {this}
      ensures old(cb) == old(tmp.cb) && cb != null ==>
                cb.observers == old(cb.observers) - {tmp}
      ensures old(cb) != old(tmp.cb) && cb != null ==>
                cb.State() == old(tmp.cb.State()) &&
                cb.observers == old(tmp.cb.observers) - {tmp} + {this} &&
                cb.owners == old(tmp.cb.owners)
    {
      if cb == tmp.cb {
        ReplaceSameBlock(tmp);
      } else {
        ReplaceOtherBlock(tmp);
      }
    }

    /** Replace when both handles hold the same block: the block loses the
        temporary and one count. */
    method ReplaceSameBlock(tmp: WeakPtr)
      requires Valid() && tmp.Valid() && tmp != this && cb == tmp.cb
      modifies this, tmp, Held(cb)
      ensures Valid()
      ensures ptr == old(tmp.ptr) && cb == old(cb)
      ensures cb != null ==>
                Step(old(cb.State()), DropWeak) == Some(cb.State()) &&
                cb.observers == old(cb.observers) - {tmp} &&
                cb.owners == old(cb.owners)
    {
      tmp.Swap(this);
      tmp.Destroy();
    }

    /** Replace when the handles hold different blocks: this handle's old
        block loses it and one count; tmp's block counts this handle in
        place of tmp. */
    method ReplaceOtherBlock(tmp: WeakPtr)
      requires Valid() && tmp.Valid() && cb != tmp.cb
      modifies this, tmp, Held(cb), Held(tmp.cb)
      ensures Valid()
      ensures ptr == old(tmp.ptr) && cb == old(tmp.cb)
      ensures old(cb) != null ==>
                Step(old(cb.State()), DropWeak) == Some(old(cb).State()) &&
                old(cb).observers == old(cb.observers) - {this} &&
                old(cb).owners == old(cb.owners) && old(cb).Consistent()
      ensures cb != null ==>
                cb.State() == old(tmp.cb.State()) &&
                cb.observers == old(tmp.cb.observers) - {tmp} + {this} &&
                cb.owners == old(tmp.cb.owners)
    {
      tmp.Swap(this);
      tmp.DestroyBeside(this);
    }

    /** Destroy, when `keep` holds another block: `keep` stays valid. */
    method DestroyBeside(keep: WeakPtr)
      requires Valid() && keep.Valid() && cb != keep.cb
      modifies this, Held(cb)
      ensures keep.Valid()
      ensures old(cb) != null ==>
                Step(old(cb.State()), DropWeak) == Some(old(cb).State()) &&
                old(cb).observers == old(cb.observers) - {this} &&
                old(cb).owners == old(cb.owners) && old(cb).Consistent()
    {
      Destroy();
    }

    /** Copy assignment: unless r is this handle, copy r into a temporary
        and let it replace this handle's pair. */
    method CopyAssign(r: WeakPtr)
      requires Valid() && r.Valid()
      modifies this, cb, r.cb
      ensures Valid() && r.Valid()
      ensures ptr == old(r.ptr) && cb == old(r.cb)
      ensures old(cb) == old(r.cb) && cb != null ==>
                cb.State() == old(cb.State()) && cb.observers == old(cb.observers) &&
                cb.owners == old(cb.owners)
      ensures old(cb) != old(r.cb) && cb != null ==>
                Step(old(r.cb.State()), Observe) == Some(cb.State()) &&
                cb.observers == old(r.cb.observers) + {this} && cb.owners == old(r.cb.owners)
      ensures old(cb) != old(r.cb) && old(cb) != null ==>
                Step(old(cb.State()), DropWeak) == Some(old(cb).State()) &&
                old(cb).observers == old(cb.observers) - {this} &&
                old(cb).owners == old(cb.owners) && old(cb).Consistent()
    {
      if this != r {
        var tmp := new WeakPtr.Copy(r);
        Replace(tmp);
      }
    }

    /** operator=(const shared_ptr&): observe r's block in a temporary and
        let it replace this handle's pair.  The source has no self check
        here; none is needed, a shared_ptr is never this handle. */
    method AssignShared(r: SharedPtr)
      requires Valid() && r.Valid()
      modifies this, cb, r.cb
      ensures Valid() && r.Valid()
      ensures ptr == old(r.ptr) && cb == old(r.cb)
      ensures old(cb) == old(r.cb) && cb != null ==>
                cb.State() == old(cb.State()) && cb.observers == old(cb.observers) &&
                cb.owners == old(cb.owners)
      ensures old(cb) != old(r.cb) && cb != null ==>
                Step(old(r.cb.State()), Observe) == Some(cb.State()) &&
                cb.observers == old(r.cb.observers) + {this} && cb.owners == old(r.cb.owners)
      ensures old(cb) != old(r.cb) && old(cb) != null ==>
                Step(old(cb.State()), DropWeak) == Some(old(cb).State()) &&
                old(cb).observers == old(cb.observers) - {this} &&
                old(cb).owners == old(cb.owners) && old(cb).Consistent()
    {
      var tmp := new WeakPtr.FromShared(r);
      Replace(tmp);
    }

    /** Move assignment: unless r is this handle, move r into a temporary
        and let it replace this handle's pair. */
    method MoveAssign(r: WeakPtr)
      requires Valid() && r.Valid()
      modifies this, r, cb, r.cb
      ensures Valid() && r.Valid()
      ensures ptr == old(r.ptr) && cb == old(r.cb)
      ensures this != r ==> r.ptr == Null && r.cb == null
      ensures this == r && cb != null ==>
                cb.State() == old(cb.State()) && cb.observers == old(cb.observers) &&
                cb.owners == old(cb.owners)
      ensures this != r && old(cb) == old(r.cb) && cb != null ==>
                Step(old(cb.State()), DropWeak) == Some(cb.State()) &&
                cb.observers == old(cb.observers) - {r} && cb.owners == old(cb.owners)
      ensures old(cb) != old(r.cb) && cb != null ==>
                cb.State() == old(r.cb.State()) &&
                cb.observers == old(r.cb.observers) - {r} + {this} && cb.owners == old(r.cb.owners)
      ensures old(cb) != old(r.cb) && old(cb) != null ==>
                Step(old(cb.State()), DropWeak) == Some(old(cb).State()) &&
                old(cb).observers == old(cb.observers) - {this} &&
                old(cb).owners == old(cb.owners) && old(cb).Consistent()
    {
      if this != r {
        var tmp := new WeakPtr.Move(r);
        Replace(tmp);
      }
    }

    /** reset(): an empty temporary replaces this handle's pair. */
    method Reset()
      requires Valid()
      modifies this, cb
      ensures Valid()
      ensures ptr == Null && cb == null
      ensures old(cb) != null ==>
                Step(old(cb.State()), DropWeak) == Some(old(cb).State()) &&
                old(cb).observers == old(cb.observers) - {this} &&
                old(cb).owners == old(cb.owners) && old(cb).Consistent()
    {
      var tmp := new WeakPtr.Empty();
      Replace(tmp);
    }

    /** lock(): an empty shared_ptr when this handle is empty or the object
        is already gone; otherwise a new owner of the same pair, which adds
        exactly one shared count. */
    method Lock() returns (sp: SharedPtr)
      requires Valid()
      modifies Held(cb)`sharedCnt, Held(cb)`owners
      ensures fresh(sp) && sp.Valid() && Valid()
      ensures cb == null ==> sp.ptr == Null && sp.cb == null
      ensures cb != null ==> Step(old(cb.State()), Event.Lock) == Some(cb.State())
      ensures cb != null && old(cb.sharedCnt) == 0 ==>
                sp.ptr == Null && sp.cb == null && cb.owners == old(cb.owners)
      ensures cb != null && old(cb.sharedCnt) > 0 ==>
                sp.ptr == ptr && sp.cb == cb && cb.owners == old(cb.owners) + {sp}
    {
      if cb == null {
        sp := new SharedPtr.Empty();
        return;
      }
      var n := cb.SharedCount();
      if n == 0 {
        sp := new SharedPtr.Empty();
      } else {
        cb.IncShared();
        sp := new SharedPtr.Attach(ptr, cb);
        cb.owners := cb.owners + {sp};
      }
    }
  }
}
