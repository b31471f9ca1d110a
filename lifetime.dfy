/** The reference-counting protocol of one control block, stated on values.

    A control block's life is a sequence of events, each performed by some
    handle that refers to it: a shared_ptr copy or aliasing construction
    (Share), a weak_ptr made from a shared_ptr or copied from another weak_ptr
    (Observe), the destructor of a non-empty shared_ptr (DropShared) or
    weak_ptr (DropWeak), and weak_ptr::lock (Lock).  Step says what each
    event does to the two counters and to the two "exactly once" events,
    destruction of the managed object and freeing of the block.  The classes
    in module SharedPointers are proved to follow Step. */
module Lifetime {

  /** An abstract address; Null plays the role of nullptr. */
  type Address = nat
  const Null: Address := 0

  datatype Option<T> = None | Some(value: T)

  /** The cleanup policy of a block that adopted a raw pointer:
      std::default_delete or a caller-supplied callable, told apart by an id. */
  datatype Deleter = DefaultDelete | Custom(id: nat)

  /** The two control-block variants: cb_separate holds the adopted pointer and
      its deleter; cb_inplace embeds the object's storage. */
  datatype Variant =
    | Separate(owned: Address, deleter: Deleter)
    | InPlace(storage: Address)

  /** What delete_object did to the managed object. */
  datatype Disposal =
    | Deleted(deleter: Deleter, target: Address)
    | DestroyedInPlace(storage: Address)

  /** The destruction hook of each variant: cb_separate calls its deleter on the
      pointer it owns, cb_inplace runs the destructor on its embedded storage. */
  function Hook(v: Variant): (d: Disposal)
    ensures v.Separate? <==> d.Deleted?
    ensures v.Separate? ==> d.deleter == v.deleter && d.target == v.owned
    ensures v.InPlace? ==> d.storage == v.storage
  {
    match v
    case Separate(p, del) => Deleted(del, p)
    case InPlace(s) => DestroyedInPlace(s)
  }

  /** The abstract state of one block: its two counters, how many times the
      managed object has been destroyed and how many times the block has been
      freed. */
  datatype BlockState = BlockState(shared: nat, weak: nat, destroyed: nat, freed: nat)

  datatype Event = Share | Observe | DropShared | DropWeak | Lock

  /** The state right after a raw-pointer adoption or make_shared:
      one shared owner, no weak observer. */
  const FirstOwner := BlockState(1, 0, 0, 0)

  /** The invariant every reachable state keeps: the object has been destroyed
      (once) exactly when no shared owner is left, and the block has been freed
      (once) exactly when neither owners nor observers are left. */
  ghost predicate Inv(s: BlockState) {
    s.destroyed == (if s.shared == 0 then 1 else 0) &&
    s.freed == (if s.shared == 0 && s.weak == 0 then 1 else 0)
  }

  /** One event.  None means the event cannot take place: the block is already
      freed, there is no live handle of the kind that performs it, or it would
      release a counter that is already zero (an assertion failure in
      release_shared/release_weak). */
  function Step(s: BlockState, e: Event): (r: Option<BlockState>)
    ensures r.Some? ==> s.freed == 0
    ensures r.Some? && r.value.shared > s.shared ==> s.shared > 0
    ensures r.Some? ==> r.value.destroyed >= s.destroyed && r.value.freed >= s.freed
    ensures r.Some? && e != DropShared ==> r.value.destroyed == s.destroyed
    ensures r.Some? && e in {Share, Observe, Lock} ==> r.value.freed == s.freed
  {
    if s.freed > 0 then None
    else match e
      case Share =>
        // copy or aliasing construction from a live shared_ptr
        if s.shared == 0 then None
        else Some(s.(shared := s.shared + 1))
      case Observe =>
        // weak_ptr built from a live shared_ptr or copied from a weak_ptr
        if s.shared == 0 && s.weak == 0 then None
        else Some(s.(weak := s.weak + 1))
      case DropShared =>
        // ~shared_ptr: release_shared, then delete_object at zero,
        // then free the block if both counters are zero
        if s.shared == 0 then None
        else
          var n := s.shared - 1;
          Some(BlockState(n, s.weak,
                          s.destroyed + (if n == 0 then 1 else 0),
                          s.freed + (if n == 0 && s.weak == 0 then 1 else 0)))
      case DropWeak =>
        // ~weak_ptr: release_weak, then free the block if both counters are zero
        if s.weak == 0 then None
        else
          var n := s.weak - 1;
          Some(BlockState(s.shared, n, s.destroyed,
                          s.freed + (if s.shared == 0 && n == 0 then 1 else 0)))
      case Lock =>
        // weak_ptr::lock: promotes only while the shared counter is nonzero
        if s.weak == 0 then None
        else if s.shared == 0 then Some(s)
        else Some(s.(shared := s.shared + 1))
  }

  /** A sequence of events, stopping at the first one that cannot take place. */
  function Run(s: BlockState, es: seq<Event>): Option<BlockState>
    decreases |es|
  {
    if es == [] then Some(s)
    else match Step(s, es[0])
      case None => None
      case Some(t) => Run(t, es[1..])
  }

  /** Step keeps the invariant. */
  lemma StepKeepsInv(s: BlockState, e: Event)
    requires Inv(s)
    requires Step(s, e).Some?
    ensures Inv(Step(s, e).value)
  {
  }

  /** Any sequence of events keeps the invariant. */
  lemma {:induction false} RunKeepsInv(s: BlockState, es: seq<Event>)
    requires Inv(s)
    requires Run(s, es).Some?
    ensures Inv(Run(s, es).value)
    decreases |es|
  {
    if es != [] {
      StepKeepsInv(s, es[0]);
      RunKeepsInv(Step(s, es[0]).value, es[1..]);
    }
  }

  /** Whatever the handles do after the first owner is created, the object is
      destroyed at most once and exactly when the shared counter is zero, and
      the block is freed at most once and only when both counters are zero. */
  lemma ExactlyOnce(es: seq<Event>)
    requires Run(FirstOwner, es).Some?
    ensures Run(FirstOwner, es).value.destroyed <= 1
    ensures Run(FirstOwner, es).value.freed <= 1
    ensures Run(FirstOwner, es).value.destroyed == 1 <==> Run(FirstOwner, es).value.shared == 0
    ensures Run(FirstOwner, es).value.freed == 1 <==>
              Run(FirstOwner, es).value.shared == 0 && Run(FirstOwner, es).value.weak == 0
  {
    RunKeepsInv(FirstOwner, es);
  }

  /** Only the release of the last shared owner destroys the object; only the
      release that leaves both counters at zero frees the block. */
  lemma DestroyedOnLastRelease(s: BlockState, e: Event)
    requires Inv(s)
    requires Step(s, e).Some?
    ensures Step(s, e).value.destroyed != s.destroyed <==>
              e == DropShared && s.shared == 1
    ensures Step(s, e).value.freed != s.freed <==>
              (e == DropShared && s.shared == 1 && s.weak == 0) ||
              (e == DropWeak && s.shared == 0 && s.weak == 1)
  {
  }

  /** Once the shared counter has reached zero it stays there: no later event
      destroys the object again, and every later lock fails. */
  lemma {:induction false} NoResurrection(s: BlockState, es: seq<Event>)
    requires Inv(s)
    requires s.shared == 0
    requires Run(s, es).Some?
    ensures Run(s, es).value.shared == 0
    ensures Run(s, es).value.destroyed == s.destroyed
    decreases |es|
  {
    if es != [] {
      var t := Step(s, es[0]).value;
      StepKeepsInv(s, es[0]);
      NoResurrection(t, es[1..]);
    }
  }

  /** Nothing at all can happen to a freed block. */
  lemma FreedIsFinal(s: BlockState, es: seq<Event>)
    requires s.freed > 0
    requires es != []
    ensures Run(s, es) == None
  {
  }
}
