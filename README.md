# shared_ptr / weak_ptr reference counting in Dafny

This project models the reference-counting core of a small C++
`shared_ptr`/`weak_ptr` library and proves its lifetime properties.

A control block holds two counters: `shared_cnt` counts the owning
`shared_ptr` handles and `weak_cnt` counts the observing `weak_ptr` handles.
The block comes in two variants:

- `cb_separate` adopts a raw pointer and its deleter;
- `cb_inplace`, made by `make_shared`, embeds the object's storage.

Each handle holds a pair: a stored pointer and a nullable reference to a
control block. The counters change only in the handles' constructors,
destructors, assignments, resets and `lock()`. When the last owner goes, the
block's destruction hook (`delete_object`) runs. When both counters are zero,
the block itself is deleted.

The project has two modules.

- `Lifetime` (lifetime.dfy) describes one control block's life on values. A
  `BlockState` records:
  - the two counters;
  - how many times the object has been destroyed;
  - how many times the block has been freed.

  `Step` gives the effect of one event: `Share`, `Observe`, `DropShared`,
  `DropWeak` or `Lock`. The lemmas about event sequences prove four things:
  - the object is destroyed at most once, and exactly when the shared counter
    is zero;
  - the block is freed at most once, and only when both counters are zero;
  - nothing happens to a block after it is freed;
  - once the shared counter is zero it never rises again, so the object is
    never resurrected.
- `SharedPointers` (shared_ptr.dfy) holds the imperative classes:
  - `ControlBlock`, whose fields are updated in place;
  - `SharedPtr` and `WeakPtr`, with `ptr` and `cb` fields;
  - `MakeShared` and the equality operators.

  Each block also keeps ghost state:
  - the log of its destruction hook's runs;
  - a flag saying whether it has been freed;
  - the sets of live handles that hold it.

  `Consistent()` states four facts: each counter equals the size of its
  handle set, every counted handle points back at the block, the log holds
  the block's own hook exactly when the shared counter is zero, and the
  `Lifetime` invariant holds. Every handle operation keeps `Valid()` on the
  handles it touches. Every operation that changes a counter is proved to
  move the block by exactly one `Lifetime.Step`, the reference definition of
  the protocol.

Addresses are natural numbers, and 0 is `nullptr`. A deleter is either
`std::default_delete` or a custom callable identified by a number. The
control block's allocation can fail. This outcome is not decided by the
model: it is a boolean parameter (`allocOk`) of the operations that allocate
a `cb_separate`.

## Model

| member | source | states |
|---|---|---|
| Lifetime.Hook | shared_ptr.h:28-53 | `cb_separate` disposes by calling its own deleter on its own pointer. `cb_inplace` destroys its own embedded storage. |
| Lifetime.Step | shared_ptr.h:88-375 | One event of a block: copy and aliasing construction (`Share`, h:88-101), weak construction (`Observe`, h:279-300), the two destructors (`DropShared`, h:116-128; `DropWeak`, h:347-356) and `lock` (`Lock`, h:368-375). An event is impossible on a freed block. The shared counter rises only while it is positive, so there is no resurrection. The destroyed and freed tallies never decrease. Only `DropShared` destroys. `Share`, `Observe` and `Lock` never free. |
| Lifetime.StepKeepsInv | shared_ptr.h:116-128 | Every possible event keeps two facts: destroyed once exactly when the shared counter is zero, and freed once exactly when both counters are zero. |
| Lifetime.RunKeepsInv | shared_ptr.h:116-128 | Every sequence of possible events keeps that invariant. The proof is by induction over the sequence. |
| Lifetime.ExactlyOnce | shared_ptr.h:116-128 | After any history that starts from one owner, the object is destroyed at most once, and exactly when no owner is left. The block is freed at most once, and exactly when neither owners nor observers are left. |
| Lifetime.DestroyedOnLastRelease | shared_ptr.h:119-126 | Only the release of the last owner destroys the object. Only the release that leaves both counters at zero frees the block, whether it comes from a `shared_ptr` or from the last `weak_ptr`. |
| Lifetime.NoResurrection | shared_ptr.h:368-375 | Once the shared counter is zero, no later sequence of events raises it or destroys the object again. In particular every later `lock()` fails. |
| Lifetime.FreedIsFinal | shared_ptr.h:123-126 | No event can happen to a freed block. |
| SharedPointers.ControlBlock.constructor | shared_ptr.cpp:5-6 | A new block starts with both counters at zero. No handle is counted, nothing is destroyed, and the block is not freed. |
| SharedPointers.ControlBlock.ReleaseShared | shared_ptr.cpp:8-11 | Requires a positive shared counter. Takes exactly one off it and leaves the weak counter unchanged. |
| SharedPointers.ControlBlock.ReleaseWeak | shared_ptr.cpp:13-16 | Requires a positive weak counter. Takes exactly one off it and leaves the shared counter unchanged. |
| SharedPointers.ControlBlock.IncShared | shared_ptr.cpp:18-20 | Adds exactly one to the shared counter. Nothing else changes. |
| SharedPointers.ControlBlock.IncWeak | shared_ptr.cpp:22-24 | Adds exactly one to the weak counter. Nothing else changes. |
| SharedPointers.ControlBlock.SharedCount | shared_ptr.cpp:26-28 | Returns the shared counter and modifies nothing. |
| SharedPointers.ControlBlock.WeakCount | shared_ptr.cpp:30-32 | Returns the weak counter and modifies nothing. |
| SharedPointers.ControlBlock.DeleteObject | shared_ptr.h:33-36 | Requires a zero shared counter, as the source's assertion does. Appends exactly this block's hook to the destruction log. |
| SharedPointers.ControlBlock.Free | shared_ptr.h:123-126 | `delete cb` happens only to a block that is not yet freed. |
| SharedPointers.SharedPtr.Empty | shared_ptr.h:68-72 | The default and `nullptr` constructors give an empty, valid handle. |
| SharedPointers.SharedPtr.Adopt | shared_ptr.h:78-85 | On success the handle stores `p`. Its fresh separate block holds `p` and `d`, has one owner (this handle) and is in the state FirstOwner. |
| SharedPointers.SharedPtr.Attach | shared_ptr.h:229-231 | The private constructor sets both fields to what it is given and touches no counter. |
| SharedPointers.SharedPtr.Alias | shared_ptr.h:88-94 | The handle stores `p` and shares r's block. A non-null block takes one `Share` step and counts this handle as an owner. The observers are unchanged. |
| SharedPointers.SharedPtr.Copy | shared_ptr.h:96-101 | The handle takes r's pair. The block takes one `Share` step and gains this handle as an owner. The weak side is unchanged. |
| SharedPointers.SharedPtr.Move | shared_ptr.h:103-114 | The handle takes r's original pair and r becomes (null, null). No counter changes: the block now counts this handle in place of r. |
| SharedPointers.SharedPtr.Destroy | shared_ptr.h:116-128 | The block takes one `DropShared` step and stops counting this handle. The hook runs exactly when the shared counter reaches zero. The block is freed, and `cb` nulled, exactly when both counters are zero. |
| SharedPointers.SharedPtr.Swap | shared_ptr.h:170-174 | Both fields are exchanged. No counter changes; each block counts the other handle, and a block shared by both handles is untouched. |
| SharedPointers.SharedPtr.SwapBlocks | shared_ptr.h:170-174 | When the blocks differ, the `cb` fields are exchanged and each block re-counts the handle that now holds it. |
| SharedPointers.SharedPtr.Replace | shared_ptr.h:130-168 | `tmp.swap(*this)` followed by the end of the temporary. This handle takes tmp's pair. Its old block takes exactly one `DropShared` step and stays consistent. |
| SharedPointers.SharedPtr.ReplaceSameBlock | shared_ptr.h:130-135 | When both handles hold one block, the block takes exactly one `DropShared` step and stops counting the temporary. |
| SharedPointers.SharedPtr.ReplaceOtherBlock | shared_ptr.h:130-135 | When the blocks differ, the old block takes one `DropShared` step and stops counting this handle. The temporary's block keeps its counters and counts this handle in place of the temporary. |
| SharedPointers.SharedPtr.DestroyBeside | shared_ptr.h:116-128 | The destructor of a handle leaves valid any other handle on another block. Its own block takes one `DropShared` step. |
| SharedPointers.SharedPtr.CopyAssign | shared_ptr.h:130-141 | This handle becomes r's pair. Assignment within one block, self-assignment included, leaves that block's state and handle sets unchanged. Otherwise r's block takes one `Share` step and the old block takes one `DropShared` step. |
| SharedPointers.SharedPtr.MoveAssign | shared_ptr.h:143-154 | This handle takes r's pair, and r becomes empty unless it is this handle. Self move-assignment changes nothing. Within one block that block takes one `DropShared` step. Otherwise r's block keeps its counters and the old block takes one `DropShared` step. |
| SharedPointers.SharedPtr.Reset | shared_ptr.h:156-158 | The handle becomes empty and its old block takes one `DropShared` step. |
| SharedPointers.SharedPtr.ResetWith | shared_ptr.h:165-168 | On allocation failure the deleter has run on `p` and the error propagates, with the handle and its block unchanged. Otherwise the handle is the sole owner of a fresh block holding `p` and `d`, and its old block takes one `DropShared` step. |
| SharedPointers.SharedPtr.ResetTo | shared_ptr.h:160-163 | As ResetWith, with `std::default_delete`. |
| SharedPointers.SharedPtr.Get | shared_ptr.h:176-178 | Returns the stored pointer. |
| SharedPointers.SharedPtr.UseCount | shared_ptr.h:188-190 | Returns 0 exactly for an empty handle. Otherwise returns the number of live owners of the block, this handle among them. |
| SharedPointers.SharedPtr.IsSet | shared_ptr.h:192-194 | `operator bool` holds exactly when the stored pointer is non-null. |
| SharedPointers.SharedPtr.FromRaw | shared_ptr.h:78-85 | Fails exactly when allocation fails, and then reports that the deleter ran on `p`. Otherwise gives a fresh valid handle with `get() == p` and `use_count() == 1`. |
| SharedPointers.SharedPtr.FromRawDefault | shared_ptr.h:74-76 | As FromRaw, with `std::default_delete`. |
| SharedPointers.MakeShared | shared_ptr.h:234-239 | Gives a fresh valid handle to a fresh in-place block, storing the embedded storage's address, with `use_count() == 1`. The storage is part of a live allocation (h:55-57), so its address is never null and the handle is always set. |
| SharedPointers.Equal | shared_ptr.h:241-245 | `==` compares the stored pointers only. |
| SharedPointers.NotEqual | shared_ptr.h:247-251 | `!=` is the negation of `==`. |
| SharedPointers.IsNull | shared_ptr.h:253-261 | Comparing with `nullptr` by `==` is `!p`. |
| SharedPointers.IsNotNull | shared_ptr.h:263-271 | Comparing with `nullptr` by `!=` is `bool(p)`, the negation of IsNull. |
| SharedPointers.WeakPtr.Empty | shared_ptr.h:276-277 | The default constructor gives an empty, valid handle. |
| SharedPointers.WeakPtr.Copy | shared_ptr.h:279-292 | The handle takes r's pair. A non-null block takes one `Observe` step and gains this handle as an observer. The owners are unchanged. |
| SharedPointers.WeakPtr.FromShared | shared_ptr.h:294-300 | The handle takes the shared_ptr's pair. Its block takes one `Observe` step. The shared side is unchanged. |
| SharedPointers.WeakPtr.Move | shared_ptr.h:302-313 | The handle takes r's pair and r becomes (null, null). No counter changes. |
| SharedPointers.WeakPtr.Destroy | shared_ptr.h:347-356 | The block takes one `DropWeak` step. The destruction log is untouched. The block is freed exactly when both counters are zero. |
| SharedPointers.WeakPtr.Swap | shared_ptr.h:362-366 | Both fields are exchanged and no counter changes. |
| SharedPointers.WeakPtr.SwapBlocks | shared_ptr.h:362-366 | When the blocks differ, the `cb` fields are exchanged and each block re-counts the handle that now holds it. |
| SharedPointers.WeakPtr.Replace | shared_ptr.h:315-360 | `tmp.swap(*this)` followed by the end of the temporary. The old block takes exactly one `DropWeak` step. |
| SharedPointers.WeakPtr.ReplaceSameBlock | shared_ptr.h:315-320 | When both handles observe one block, the block takes exactly one `DropWeak` step and stops counting the temporary. |
| SharedPointers.WeakPtr.ReplaceOtherBlock | shared_ptr.h:315-320 | When the blocks differ, the old block takes one `DropWeak` step. The temporary's block keeps its counters and counts this handle in place of the temporary. |
| SharedPointers.WeakPtr.DestroyBeside | shared_ptr.h:347-356 | The weak destructor leaves valid any other handle on another block. Its own block takes one `DropWeak` step. |
| SharedPointers.WeakPtr.CopyAssign | shared_ptr.h:315-326 | This handle becomes r's pair. Within one block, self-assignment included, the block's state and handle sets are unchanged. Otherwise r's block takes one `Observe` step and the old block takes one `DropWeak` step. |
| SharedPointers.WeakPtr.AssignShared | shared_ptr.h:328-332 | This handle becomes the shared_ptr's pair. Within one block the block's state and handle sets are unchanged. Otherwise the shared_ptr's block takes one `Observe` step and the old block takes one `DropWeak` step. |
| SharedPointers.WeakPtr.MoveAssign | shared_ptr.h:334-345 | This handle takes r's pair, r becomes empty unless it is this handle, and self move-assignment changes nothing. |
| SharedPointers.WeakPtr.Reset | shared_ptr.h:358-360 | The handle becomes empty and its old block takes one `DropWeak` step. |
| SharedPointers.WeakPtr.Lock | shared_ptr.h:368-375 | An empty handle, or a block whose shared counter is zero, gives an empty shared_ptr and changes nothing. Otherwise the block takes one `Lock` step, adding exactly one owner, and the new shared_ptr holds the same pair. |

## Left out

- Thread safety: the counters are plain non-atomic fields, so the model is sequential.
- Memory layout and object construction are not modelled: placement `new`, `aligned_storage`, `reinterpret_cast`, and running the constructor, destructor or deleter. Destruction is the abstract `Disposal` entry that the block's hook appends to a ghost log, and `delete cb` is a ghost flag.
- Type conversions: only the same-type operations are modelled. Of the converting templates, only the `shared_ptr` constructors from `shared_ptr<Y>` (h:88-94, h:99-101, h:109-114) can be instantiated with a `Y` other than `T`, and they act on the counters as the same-type ones do. The other converting members do not compile when `Y` is not `T`. The `shared_ptr<Y>` assignments (h:139, h:152) and the `weak_ptr<Y>` and `shared_ptr<Y>` assignments of `weak_ptr` (h:324, h:330) pass `*this` to a `swap` of the other type. The `weak_ptr` constructors from `weak_ptr<Y>` and `shared_ptr<Y>` (h:288, h:296, h:310), and the move assignment built on them (h:343), read private fields that their friend declarations (h:227, h:381-382) do not open to them. With `Y` equal to `T` they are the modelled same-type operations.
- Dereference: `operator*` and `operator->` are not modelled. They read the stored pointer and have no state of their own.
- The friend comparisons with `std::shared_ptr` (shared_ptr.h:207-218) are not modelled; they concern a foreign library type.
- Exceptions: the only failure modelled is the allocation of a `cb_separate`. It is an `allocOk` parameter, so the allocator is a caller-chosen outcome. `MakeShared` has no failure path: allocation failure or a throwing constructor inside `make_shared` are not modelled.
- SharedPointers.ControlBlock.IncShared: the 64-bit wrap-around of `size_t` is not modelled. The counters are unbounded naturals, because reaching the limit would need 2^64 live handles.
- Re-entrant destruction is not modelled. The destruction hook is an abstract event that runs no user code. So a managed object whose destructor drops handles to its own block (for example the last `weak_ptr` to itself) is outside the model. In that case the source does not free the block exactly once. The weak destructor frees the block inside `delete_object` (h:121, h:351-353). The `shared_ptr` destructor then reads the freed block (h:123) and deletes it a second time (h:124).
- Handles are objects with identity, as in C++, but the end of a handle's lifetime is the explicit `Destroy` call. Scope-based destruction order is the caller's business.
