/**
 * The counter protocol of an intrusive_ptr_target, as a pure state machine.
 *
 * A target carries two counters: `refcount` (strong owners) and `weakcount`
 * (weak owners, plus one implicit unit held collectively by the strong side
 * while refcount > 0). The ghost-like fields `released` and `freed` count how
 * many times `release_resources()` and the deallocation (`delete`) ran on the
 * object, so that "at most once" can be stated.
 *
 * Every atomic read-modify-write of the source becomes one sequential update.
 * Each step returns the new counts and, where the source has a
 * CORETEN_ENFORCE, an Outcome that is Violation exactly when the check fails.
 */
module Counters {

  /** Result of a step guarded by CORETEN_ENFORCE. */
  datatype Outcome = Ok | Violation(message: string)

  /** Result of a step that produces a value unless CORETEN_ENFORCE fails. */
  datatype Result<T> = Success(value: T) | Failure(message: string)

  datatype Counts = Counts(refcount: nat, weakcount: nat, released: nat, freed: nat)

  /** Lifecycle phases of a target. */
  datatype Phase =
    | Unmanaged          // constructed, never handed to make()
    | Alive              // refcount > 0
    | ResourcesReleased  // refcount == 0, release_resources() ran, memory still there
    | Deallocated        // memory freed

  function PhaseOf(c: Counts): Phase
  {
    if c.freed > 0 then Deallocated
    else if c.refcount > 0 then Alive
    else if c.released > 0 then ResourcesReleased
    else Unmanaged
  }

  /** The lifecycle invariant every reachable target satisfies. */
  predicate Inv(c: Counts)
  {
    && c.released <= 1 && c.freed <= 1
    // the strong side holds one implicit weak unit; nothing is torn down while alive
    && (c.refcount > 0 ==> c.weakcount >= 1 && c.released == 0 && c.freed == 0)
    // memory is freed only after release_resources(); a freed target reads weak 0 or 1
    && (c.freed == 1 ==> c.released == 1 && c.refcount == 0 && c.weakcount <= 1)
    // between the two phases the memory is kept by at least one weak unit
    && (c.released == 1 && c.freed == 0 ==> c.weakcount >= 1)
    // a target never given to make() has no owners at all
    && (c.refcount == 0 && c.released == 0 ==> c.weakcount == 0 && c.freed == 0)
  }

  /** The target owns a strong unit on behalf of some handle. */
  predicate StrongOwned(c: Counts)
  {
    c.refcount >= 1
  }

  /**
   * A weak handle may exist: weakcount counts it on top of the implicit unit
   * when refcount > 0 (the condition weak_intrusive_ptr::reclaim enforces),
   * and the memory has not been freed.
   */
  predicate WeakOwned(c: Counts)
  {
    c.freed == 0 && (c.weakcount > 1 || (c.refcount == 0 && c.weakcount > 0))
  }

  /** What the intrusive_ptr_target destructor checks. */
  predicate TeardownAllowed(c: Counts)
  {
    c.refcount == 0 && (c.weakcount == 0 || c.weakcount == 1)
  }

  /** Counters of a freshly constructed target (both start at zero). */
  function Constructed(): (c: Counts)
    ensures PhaseOf(c) == Unmanaged && Inv(c)
  {
    Counts(0, 0, 0, 0)
  }

  /**
   * intrusive_ptr::make: the pointee's constructor left the counters at
   * (ctorRefcount, ctorWeakcount); make refuses anything but (0, 0) and then
   * seeds them to (1, 1).
   */
  function Make(ctorRefcount: nat, ctorWeakcount: nat): (r: Result<Counts>)
    ensures r.Success? <==> ctorRefcount == 0 && ctorWeakcount == 0
    ensures r.Success? ==> Inv(r.value) && PhaseOf(r.value) == Alive
                           && r.value.refcount == 1 && r.value.weakcount == 1
                           && r.value.released == 0 && r.value.freed == 0
  {
    if ctorRefcount == 0 && ctorWeakcount == 0 then Success(Counts(1, 1, 0, 0))
    else Failure("intrusive_ptr: Newly-created target had non-zero refcounts.")
  }

  /** `delete target_`: the destructor checks the counters, the memory goes. */
  function Teardown(c: Counts): (r: (Counts, Outcome))
    ensures r.0.refcount == c.refcount && r.0.weakcount == c.weakcount
    ensures r.0.released == c.released && r.0.freed == c.freed + 1
    ensures r.1.Ok? <==> TeardownAllowed(c)
  {
    (c.(freed := c.freed + 1),
     if TeardownAllowed(c) then Ok
     else Violation("Attempted to destroy an intrusive_ptr_target that still has references to it"))
  }

  /** intrusive_ptr::retain_ on a non-null target. */
  function StrongRetain(c: Counts): (r: (Counts, Outcome))
    ensures r.0.refcount == c.refcount + 1
    ensures r.0.weakcount == c.weakcount && r.0.released == c.released && r.0.freed == c.freed
    ensures r.1.Ok? <==> c.refcount != 0
  {
    var n := c.refcount + 1;
    (c.(refcount := n),
     if n != 1 then Ok else Violation("intrusive_ptr: Cannot increase refcount after it reached zero."))
  }

  /**
   * intrusive_ptr::reset_ on a non-null target: drop a strong unit; at zero,
   * run release_resources() and then give up the implicit weak unit. When the
   * weak count reads 1 the object is deleted without decrementing it.
   */
  function StrongReset(c: Counts): (r: (Counts, Outcome))
    requires c.refcount >= 1 && c.weakcount >= 1
    ensures r.0.refcount == c.refcount - 1
    ensures r.0.released == c.released + (if c.refcount == 1 then 1 else 0)
    ensures r.0.freed == c.freed + (if c.refcount == 1 && c.weakcount == 1 then 1 else 0)
    ensures r.0.weakcount == (if c.refcount == 1 && c.weakcount > 1 then c.weakcount - 1 else c.weakcount)
    ensures r.1 == Ok
  {
    var rc := c.refcount - 1;
    if rc != 0 then (c.(refcount := rc), Ok)
    else
      var c1 := c.(refcount := 0, released := c.released + 1);
      var c2 := if c1.weakcount == 1 then c1 else c1.(weakcount := c1.weakcount - 1);
      if c1.weakcount == 1 || c2.weakcount == 0 then Teardown(c2) else (c2, Ok)
  }

  /** weak_intrusive_ptr::retain_ on a non-null target. */
  function WeakRetain(c: Counts): (r: (Counts, Outcome))
    ensures r.0.weakcount == c.weakcount + 1
    ensures r.0.refcount == c.refcount && r.0.released == c.released && r.0.freed == c.freed
    ensures r.1.Ok? <==> c.weakcount != 0
  {
    var n := c.weakcount + 1;
    (c.(weakcount := n),
     if n != 1 then Ok else Violation("weak_intrusive_ptr: Cannot increase weakcount after it reached zero."))
  }

  /** weak_intrusive_ptr::reset_ on a non-null target. It never runs release_resources(). */
  function WeakReset(c: Counts): (r: (Counts, Outcome))
    requires c.weakcount >= 1
    ensures r.0.weakcount == c.weakcount - 1
    ensures r.0.refcount == c.refcount && r.0.released == c.released
    ensures r.0.freed == c.freed + (if c.weakcount == 1 then 1 else 0)
    ensures r.1.Ok? <==> c.weakcount > 1 || c.refcount == 0
  {
    var c1 := c.(weakcount := c.weakcount - 1);
    if c1.weakcount == 0 then Teardown(c1) else (c1, Ok)
  }

  /**
   * weak_intrusive_ptr::lock on a non-null target, with the compare-and-swap
   * loop succeeding on its first pass: fails (false) on an expired target,
   * otherwise adds one strong unit.
   */
  function TryLock(c: Counts): (r: (Counts, bool))
    ensures r.1 <==> c.refcount > 0
    ensures r.0.refcount == (if c.refcount > 0 then c.refcount + 1 else 0)
    ensures r.0.weakcount == c.weakcount && r.0.released == c.released && r.0.freed == c.freed
  {
    if c.refcount == 0 then (c, false) else (c.(refcount := c.refcount + 1), true)
  }

  /** The check of intrusive_ptr::unsafe_reclaim_from_nonowning on a non-null target. */
  predicate NonOwningReclaimAllowed(c: Counts)
  {
    c.refcount > 0
  }

  /** The check of weak_intrusive_ptr::reclaim on a non-null target. */
  predicate WeakReclaimAllowed(c: Counts)
  {
    c.weakcount > 1 || (c.refcount == 0 && c.weakcount > 0)
  }

  /** raw::intrusive_ptr::incref: unlike retain_, no check of the old value. */
  function RawStrongIncref(c: Counts): (r: Counts)
    ensures r.refcount == c.refcount + 1
    ensures r.weakcount == c.weakcount && r.released == c.released && r.freed == c.freed
  {
    c.(refcount := c.refcount + 1)
  }

  /** raw::weak_intrusive_ptr::incref: no check of the old value either. */
  function RawWeakIncref(c: Counts): (r: Counts)
    ensures r.weakcount == c.weakcount + 1
    ensures r.refcount == c.refcount && r.released == c.released && r.freed == c.freed
  {
    c.(weakcount := c.weakcount + 1)
  }

  // ---------------------------------------------------------------------
  // Each step keeps the lifecycle invariant when its caller holds what the
  // protocol says it holds.
  // ---------------------------------------------------------------------

  lemma StrongRetainKeepsInv(c: Counts)
    requires Inv(c) && StrongOwned(c)
    ensures Inv(StrongRetain(c).0) && StrongRetain(c).1 == Ok
    ensures PhaseOf(StrongRetain(c).0) == Alive
  {
  }

  /** A strong copy of a torn-down target is refused: no resurrection through retain_. */
  lemma StrongRetainRefusesExpired(c: Counts)
    requires Inv(c) && PhaseOf(c) == ResourcesReleased
    ensures StrongRetain(c).1.Violation?
  {
  }

  /**
   * Dropping a strong unit keeps the invariant and the destructor check
   * never fires; release_resources() runs exactly on the transition to zero,
   * and the memory is freed only if no weak handle remains.
   */
  lemma StrongResetKeepsInv(c: Counts)
    requires Inv(c) && StrongOwned(c)
    ensures c.weakcount >= 1
    ensures Inv(StrongReset(c).0) && StrongReset(c).1 == Ok
    ensures c.refcount > 1 ==> PhaseOf(StrongReset(c).0) == Alive
    ensures c.refcount == 1 && c.weakcount == 1 ==> PhaseOf(StrongReset(c).0) == Deallocated
    ensures c.refcount == 1 && c.weakcount > 1 ==> PhaseOf(StrongReset(c).0) == ResourcesReleased
  {
  }

  lemma WeakRetainKeepsInv(c: Counts)
    requires Inv(c) && (StrongOwned(c) || WeakOwned(c))
    ensures Inv(WeakRetain(c).0) && WeakRetain(c).1 == Ok
    ensures WeakOwned(WeakRetain(c).0)
    ensures PhaseOf(WeakRetain(c).0) == PhaseOf(c)
  {
  }

  /** Dropping a weak unit keeps the invariant, never tears down logical state, and frees only at weak zero. */
  lemma WeakResetKeepsInv(c: Counts)
    requires Inv(c) && WeakOwned(c)
    ensures c.weakcount >= 1
    ensures Inv(WeakReset(c).0) && WeakReset(c).1 == Ok
    ensures WeakReset(c).0.released == c.released
    ensures PhaseOf(WeakReset(c).0) == (if c.weakcount == 1 then Deallocated else PhaseOf(c))
  {
  }

  lemma TryLockKeepsInv(c: Counts)
    requires Inv(c) && WeakOwned(c)
    ensures Inv(TryLock(c).0)
    ensures TryLock(c).1 <==> PhaseOf(c) == Alive
    ensures TryLock(c).1 ==> StrongOwned(TryLock(c).0) && WeakOwned(TryLock(c).0)
    ensures !TryLock(c).1 ==> TryLock(c).0 == c
  {
  }

  /**
   * The raw strong incref does not refuse an expired target the way retain_
   * does: applied after release_resources() ran it breaks the invariant,
   * resurrecting an object whose resources are gone.
   */
  lemma RawStrongIncrefResurrects(c: Counts)
    requires Inv(c) && PhaseOf(c) == ResourcesReleased
    ensures !Inv(RawStrongIncref(c))
    ensures RawStrongIncref(c).refcount == StrongRetain(c).0.refcount
  {
  }

  /** On a strong owner the raw incref is the same step as retain_. */
  lemma RawStrongIncrefOnOwner(c: Counts)
    requires Inv(c) && StrongOwned(c)
    ensures RawStrongIncref(c) == StrongRetain(c).0 && Inv(RawStrongIncref(c))
  {
  }

  /** The raw weak incref keeps the invariant on a weak owner. */
  lemma RawWeakIncrefOnOwner(c: Counts)
    requires Inv(c) && (StrongOwned(c) || WeakOwned(c))
    ensures RawWeakIncref(c) == WeakRetain(c).0 && Inv(RawWeakIncref(c))
  {
  }
}
