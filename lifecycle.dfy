/**
 * Whole-object lifecycle: the counters of one target together with the
 * number of strong and weak owners that hold units on it (handles, or bare
 * addresses obtained through release()). An event is one handle operation
 * that changes the counters. From make() on, any sequence of events whose
 * every event is performed by an existing owner keeps the counters equal to
 * the owner counts, never trips a CORETEN_ENFORCE, runs release_resources()
 * exactly once when the last strong owner goes, and frees the memory exactly
 * once when the last owner of either kind goes.
 */
module Lifecycle {
  import opened Counters

  datatype Owners = Owners(counts: Counts, strong: nat, weak: nat)

  datatype Event =
    | CopyStrong   // intrusive_ptr copy: retain_
    | DropStrong   // intrusive_ptr destructor or reset(): reset_
    | DeriveWeak   // weak_intrusive_ptr built from an intrusive_ptr
    | CopyWeak     // weak_intrusive_ptr copy: retain_
    | DropWeak     // weak_intrusive_ptr destructor or reset(): reset_
    | LockWeak     // weak_intrusive_ptr::lock, keeping the strong handle on success

  /** The counters say exactly how many owners there are. */
  predicate Consistent(o: Owners)
  {
    && Inv(o.counts)
    && (o.counts.freed == 0 ==>
          o.counts.refcount == o.strong
          && o.counts.weakcount == o.weak + (if o.strong > 0 then 1 else 0))
    && (o.counts.freed > 0 ==> o.strong == 0 && o.weak == 0)
  }

  /** Consistent, and the object came out of make(): no strong owner left means torn down. */
  predicate Managed(o: Owners)
  {
    Consistent(o) && (o.strong == 0 ==> o.counts.released == 1)
  }

  /** An event needs an owner of the right kind to perform it. */
  predicate Enabled(o: Owners, e: Event)
  {
    match e
    case CopyStrong => o.strong >= 1
    case DropStrong => o.strong >= 1
    case DeriveWeak => o.strong >= 1
    case CopyWeak => o.weak >= 1
    case DropWeak => o.weak >= 1
    case LockWeak => o.weak >= 1
  }

  /** The state right after a successful make(). */
  function Made(): (o: Owners)
    ensures Managed(o) && PhaseOf(o.counts) == Alive
  {
    Owners(Make(0, 0).value, 1, 0)
  }

  /** One event; every enabled event keeps the owners consistent and passes its checks. */
  function Step(o: Owners, e: Event): (r: (Owners, Outcome))
    requires Consistent(o) && Enabled(o, e)
    ensures Consistent(r.0) && r.1 == Ok
    ensures r.0.counts.released >= o.counts.released && r.0.counts.freed >= o.counts.freed
  {
    match e
    case CopyStrong =>
      var s := StrongRetain(o.counts);
      (Owners(s.0, o.strong + 1, o.weak), s.1)
    case DropStrong =>
      var s := StrongReset(o.counts);
      (Owners(s.0, o.strong - 1, o.weak), s.1)
    case DeriveWeak =>
      var s := WeakRetain(o.counts);
      (Owners(s.0, o.strong, o.weak + 1), s.1)
    case CopyWeak =>
      var s := WeakRetain(o.counts);
      (Owners(s.0, o.strong, o.weak + 1), s.1)
    case DropWeak =>
      var s := WeakReset(o.counts);
      (Owners(s.0, o.strong, o.weak - 1), s.1)
    case LockWeak =>
      var s := TryLock(o.counts);
      (Owners(s.0, o.strong + (if s.1 then 1 else 0), o.weak), Ok)
  }

  /** Every event of the sequence is performed by an existing owner. */
  predicate Admissible(o: Owners, es: seq<Event>)
    requires Consistent(o)
    decreases |es|
  {
    es == [] || (Enabled(o, es[0]) && Admissible(Step(o, es[0]).0, es[1..]))
  }

  function Run(o: Owners, es: seq<Event>): Owners
    requires Consistent(o) && Admissible(o, es)
    decreases |es|
  {
    if es == [] then o else Run(Step(o, es[0]).0, es[1..])
  }

  lemma StepKeepsManaged(o: Owners, e: Event)
    requires Managed(o) && Enabled(o, e)
    ensures Managed(Step(o, e).0)
  {
  }

  lemma {:induction false} RunKeepsManaged(o: Owners, es: seq<Event>)
    requires Managed(o) && Admissible(o, es)
    ensures Managed(Run(o, es))
    decreases |es|
  {
    if es != [] {
      StepKeepsManaged(o, es[0]);
      RunKeepsManaged(Step(o, es[0]).0, es[1..]);
    }
  }

  /**
   * From make(), after any admissible sequence of handle operations:
   * use_count() equals the number of strong owners, release_resources() has
   * run once if and only if no strong owner is left, and the memory has
   * been freed once if and only if no owner of either kind is left.
   */
  lemma {:induction false} LifecycleFromMake(es: seq<Event>)
    requires Admissible(Made(), es)
    ensures Run(Made(), es).counts.refcount == Run(Made(), es).strong
    ensures Run(Made(), es).counts.released == (if Run(Made(), es).strong == 0 then 1 else 0)
    ensures Run(Made(), es).counts.freed ==
            (if Run(Made(), es).strong == 0 && Run(Made(), es).weak == 0 then 1 else 0)
  {
    RunKeepsManaged(Made(), es);
  }

  /**
   * Once the strong count has reached zero no sequence of operations brings
   * it back: lock() keeps failing and release_resources() never runs again.
   */
  lemma {:induction false} NoResurrection(o: Owners, es: seq<Event>)
    requires Consistent(o) && Admissible(o, es) && o.counts.refcount == 0
    ensures Run(o, es).counts.refcount == 0 && Run(o, es).strong == 0
    ensures Run(o, es).counts.released == o.counts.released
    decreases |es|
  {
    if es != [] {
      NoResurrection(Step(o, es[0]).0, es[1..]);
    }
  }

  /** Neither teardown counter ever goes back. */
  lemma {:induction false} RunMonotone(o: Owners, es: seq<Event>)
    requires Consistent(o) && Admissible(o, es)
    ensures Run(o, es).counts.released >= o.counts.released
    ensures Run(o, es).counts.freed >= o.counts.freed
    decreases |es|
  {
    if es != [] {
      RunMonotone(Step(o, es[0]).0, es[1..]);
    }
  }
}
