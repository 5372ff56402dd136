# Intrusive reference counting (coreten `intrusive_ptr`) in Dafny

This project models the intrusive reference-counting primitive of
`hazel/coreten/core/intrusive_ptr.h`: an `intrusive_ptr_target` carries a strong
counter and a weak counter inside the object; `intrusive_ptr` is the strong
handle, `weak_intrusive_ptr` the weak one, and the `raw::` helpers do the same
work on bare addresses. The strong side collectively holds one implicit weak
unit. The strong count reaching zero runs `release_resources()` and then gives
up that implicit unit; the memory is deleted only when the weak side is
exhausted. The lifecycle is Alive, then ResourcesReleased, then Deallocated.

Files:

- `counters.dfy` (module `Counters`): the counter protocol as a pure state
  machine over `Counts(refcount, weakcount, released, freed)`. `released` and
  `freed` count how often `release_resources()` and `delete` ran. There is one
  function per counter-changing step of the source. `Inv` is the lifecycle
  invariant, and lemmas prove that each step keeps it.
- `lifecycle.dfy` (module `Lifecycle`): one object plus the number of strong
  and weak owners holding units on it. Induction over event sequences shows
  what holds from `make()` on:
  - the counts always equal the owners;
  - no `CORETEN_ENFORCE` fires;
  - `release_resources()` runs exactly once, when the last strong owner goes;
  - the memory is freed exactly once, when the last owner of either kind goes;
  - nothing resurrects an expired object.
- `intrusive.dfy` (module `IntrusivePtr`): classes `Target`, `StrongPtr` and
  `WeakPtr`, whose fields the methods update in place. Each counter-changing
  method states its new counters as the matching `Counters` step applied to the
  old ones. `Valid()` says that a non-null handle's target satisfies the
  invariant and holds at least one unit of the handle's kind; which handle owns
  which unit is counted only in `Lifecycle`.
  This file also has the address comparisons.
- `raw.dfy` (module `Raw`): the `raw::` helpers, built as in the source from
  `reclaim`, the wrapper operation and `release`.
- `scenarios.dfy` (module `Scenarios`): client code that uses only the
  contracts. It covers weak-outlives-strong, and release/reclaim followed by
  comparison.

Modelling choices:

- Each atomic read-modify-write is one sequential update. The
  `compare_exchange_weak` loop of `lock()` is kept as a loop, and its invariant
  shows that it succeeds on its first pass.
- A `CORETEN_ENFORCE` failure is an `Outcome.Violation` (or a `Result.Failure`).
  `Make`, the `Retain` methods, the checks of `StrongPtr.UnsafeReclaimFromNonowning` and `WeakPtr.Reclaim`, `Target.Delete` and the
  raw weak `decref`, `lock` and `use_count` return one. Where a handle's
  `Valid()` precondition rules the failure out (the copy constructors, the
  weak-from-strong constructor and both `Reset` methods), the model asserts
  `Ok`. This is how the destructor check at lines 146-153 is proved never to
  fire under the protocol.
- The null type's singleton is Dafny's `null`, at address 0. Heap addresses are
  a positive `Address` supplied to `Make`, because the allocator is not
  modelled.

Where the source does not compile as written, the model follows its evident
intent:

- The target declares `__refcount`/`__weakcount`, but the handles use
  `refcount_`/`weakcount_`. The model has one counter pair per target.
- `assign_ptr` is defined, but `assign_ptr_` is called.
- The default null type's `singleton()` is private.

Three details of the code are kept as written:

- When the weak count reads 1 in the strong `reset_`, the object is deleted
  without decrementing, so a freed target reads weak 1 (`Counters.StrongReset`).
- `raw::intrusive_ptr::incref` has no from-zero check
  (`Counters.RawStrongIncrefResurrects`).
- `make` (lines 408-415) checks that the constructor left both counters at 0
  and then stores 1 and 1; it does not check the stored values afterwards
  (`Counters.Make`).

## Model

| member | source | states |
|---|---|---|
| Counters.Constructed | hazel/coreten/core/intrusive_ptr.h:162 | a freshly constructed target has both counters at 0, is Unmanaged and satisfies the invariant |
| Counters.Make | hazel/coreten/core/intrusive_ptr.h:401-418 | make succeeds iff the constructor left both counters at 0; then refcount 1, weakcount 1, Alive, invariant holds |
| Counters.Teardown | hazel/coreten/core/intrusive_ptr.h:146-153 | deletion frees once more and leaves counters and release count alone; the destructor check passes iff refcount 0 and weakcount 0 or 1 |
| Counters.StrongRetain | hazel/coreten/core/intrusive_ptr.h:261-269 | a strong copy adds exactly 1 to refcount, leaves weakcount alone, and fails iff refcount was 0 |
| Counters.StrongReset | hazel/coreten/core/intrusive_ptr.h:271-284 | dropping a strong unit decrements refcount; release_resources runs iff it reaches 0; memory is freed iff it reaches 0 with weakcount 1, which is left undecremented; otherwise the implicit weak unit is given up; the outcome is always Ok |
| Counters.WeakRetain | hazel/coreten/core/intrusive_ptr.h:526-534 | a weak copy adds exactly 1 to weakcount, leaves refcount alone, and fails iff weakcount was 0 |
| Counters.WeakReset | hazel/coreten/core/intrusive_ptr.h:536-541 | dropping a weak unit decrements weakcount, never runs release_resources, and frees iff weakcount reaches 0; the destructor check passes iff a weak unit remains or refcount is 0 |
| Counters.TryLock | hazel/coreten/core/intrusive_ptr.h:656-676 | lock succeeds iff refcount > 0, then adds exactly 1; on failure refcount stays 0; weakcount untouched |
| Counters.RawStrongIncref | hazel/coreten/core/intrusive_ptr.h:751-755 | the raw strong incref adds 1 to refcount and nothing else |
| Counters.RawWeakIncref | hazel/coreten/core/intrusive_ptr.h:787-789 | the raw weak incref adds 1 to weakcount and nothing else |
| Counters.StrongRetainKeepsInv | hazel/coreten/core/intrusive_ptr.h:261-269 | copying a strong owner keeps the invariant and never fails |
| Counters.StrongRetainRefusesExpired | hazel/coreten/core/intrusive_ptr.h:264-267 | copying from a target whose resources were released is refused |
| Counters.StrongResetKeepsInv | hazel/coreten/core/intrusive_ptr.h:271-284 | dropping a strong owner keeps the invariant, passes the destructor check, and moves Alive to Alive, ResourcesReleased or Deallocated by the counts |
| Counters.WeakRetainKeepsInv | hazel/coreten/core/intrusive_ptr.h:526-534 | deriving or copying a weak handle keeps the invariant, never fails, and leaves the phase alone |
| Counters.WeakResetKeepsInv | hazel/coreten/core/intrusive_ptr.h:536-541 | dropping a weak owner keeps the invariant, never releases resources, and deallocates iff it held the last weak unit |
| Counters.TryLockKeepsInv | hazel/coreten/core/intrusive_ptr.h:660-676 | lock keeps the invariant, succeeds iff the target is Alive, and changes nothing on failure |
| Counters.RawStrongIncrefResurrects | hazel/coreten/core/intrusive_ptr.h:751-755 | on an expired target the raw incref breaks the invariant, raising refcount just as retain_ does before it reports the violation (see StrongRetainRefusesExpired) |
| Counters.RawStrongIncrefOnOwner | hazel/coreten/core/intrusive_ptr.h:751-755 | on a strong owner the raw incref equals retain_ and keeps the invariant |
| Counters.RawWeakIncrefOnOwner | hazel/coreten/core/intrusive_ptr.h:787-789 | on an owner the raw weak incref equals weak retain_ and keeps the invariant |
| Lifecycle.Made | hazel/coreten/core/intrusive_ptr.h:401-418 | right after make there is one strong owner, the object is Alive and consistent |
| Lifecycle.Step | hazel/coreten/core/intrusive_ptr.h:261-284 | every handle operation done by an existing owner keeps counters equal to owners and passes every check |
| Lifecycle.StepKeepsManaged | hazel/coreten/core/intrusive_ptr.h:271-284 | one operation keeps the rule that no strong owner means resources released |
| Lifecycle.RunKeepsManaged | hazel/coreten/core/intrusive_ptr.h:261-284 | any admissible sequence of handle operations keeps the owner accounting |
| Lifecycle.LifecycleFromMake | hazel/coreten/core/intrusive_ptr.h:271-284 | from make: use_count equals strong owners; release_resources ran once iff no strong owner remains; memory freed once iff no owner remains |
| Lifecycle.NoResurrection | hazel/coreten/core/intrusive_ptr.h:667-671 | once refcount is 0 no operation raises it again and release_resources never runs again |
| Lifecycle.RunMonotone | hazel/coreten/core/intrusive_ptr.h:271-284 | the release and free counts never decrease |
| IntrusivePtr.Target.constructor | hazel/coreten/core/intrusive_ptr.h:162 | a new target has the given address and counters, nothing released or freed; with no references taken in a derived constructor it is exactly the `Counters.Constructed` state |
| IntrusivePtr.Target.ReleaseResources | hazel/coreten/core/intrusive_ptr.h:176-187 | the hook records one more run and changes no counter |
| IntrusivePtr.Target.Delete | hazel/coreten/core/intrusive_ptr.h:129-160 | deletion is the Teardown step, whose check result is returned |
| IntrusivePtr.Target.IncrementRefcount | hazel/coreten/core/intrusive_ptr.h:211-213 | refcount grows by 1 and the new value is returned |
| IntrusivePtr.Target.IncrementWeakcount | hazel/coreten/core/intrusive_ptr.h:217-219 | weakcount grows by 1 and the new value is returned |
| IntrusivePtr.Target.DecrementRefcount | hazel/coreten/core/intrusive_ptr.h:223-225 | refcount shrinks by 1 and the new value is returned |
| IntrusivePtr.Target.DecrementWeakcount | hazel/coreten/core/intrusive_ptr.h:227-229 | weakcount shrinks by 1 and the new value is returned |
| IntrusivePtr.Target.CompareExchangeRefcount | hazel/coreten/core/intrusive_ptr.h:672 | the swap succeeds iff refcount equals the expected value, then stores the desired one; the observed value is returned |
| IntrusivePtr.AddressOf | hazel/coreten/core/intrusive_ptr.h:194-197 | address 0 is exactly the null singleton |
| IntrusivePtr.StrongPtr.Null | hazel/coreten/core/intrusive_ptr.h:308 | the default handle is null and valid |
| IntrusivePtr.StrongPtr.Adopt | hazel/coreten/core/intrusive_ptr.h:291 | the DontIncreaseRefcount constructor wraps the address and touches no counter |
| IntrusivePtr.StrongPtr.Make | hazel/coreten/core/intrusive_ptr.h:401-418 | make fails unless the new target's counters are 0; otherwise it gives a non-null handle to a fresh target at (1, 1) |
| IntrusivePtr.StrongPtr.Reclaim | hazel/coreten/core/intrusive_ptr.h:393-395 | reclaim gives a handle to the same address with no counter change |
| IntrusivePtr.StrongPtr.Retain | hazel/coreten/core/intrusive_ptr.h:261-269 | retain_ does the StrongRetain step on a non-null target and nothing on null |
| IntrusivePtr.StrongPtr.Copy | hazel/coreten/core/intrusive_ptr.h:323-325 | a copy shares the target, adds 1 to refcount only, and both handles stay valid |
| IntrusivePtr.StrongPtr.Move | hazel/coreten/core/intrusive_ptr.h:310-312 | a move takes the address, leaves the source null, changes no counter |
| IntrusivePtr.StrongPtr.Reset | hazel/coreten/core/intrusive_ptr.h:271-284 | drop leaves the handle null and does the StrongReset step; the target stays valid and the destructor check passes |
| IntrusivePtr.StrongPtr.Swap | hazel/coreten/core/intrusive_ptr.h:353-357 | swap exchanges the addresses only and keeps both handles valid |
| IntrusivePtr.StrongPtr.Release | hazel/coreten/core/intrusive_ptr.h:383-387 | release returns the address and leaves the handle null, counters untouched |
| IntrusivePtr.StrongPtr.UnsafeReclaimFromNonowning | hazel/coreten/core/intrusive_ptr.h:422-432 | fails iff a non-null target has refcount 0; otherwise a handle to it with one more strong unit |
| IntrusivePtr.StrongPtr.Defined | hazel/coreten/core/intrusive_ptr.h:345-362 | a handle is defined iff its address is not the null singleton |
| IntrusivePtr.StrongPtr.UseCount | hazel/coreten/core/intrusive_ptr.h:364-368 | 0 for null, else the refcount; a valid handle reports > 0 iff it is non-null |
| IntrusivePtr.StrongPtr.WeakUseCount | hazel/coreten/core/intrusive_ptr.h:370-374 | 0 for null, else the weakcount, at least 1 on a valid handle |
| IntrusivePtr.StrongPtr.Unique | hazel/coreten/core/intrusive_ptr.h:376-378 | unique iff non-null with refcount 1 |
| IntrusivePtr.StrongPtr.CopyAssign | hazel/coreten/core/intrusive_ptr.h:450-461 | takes rhs's target with one more strong unit and drops the old one; self-assignment changes no count |
| IntrusivePtr.StrongPtr.MoveAssign | hazel/coreten/core/intrusive_ptr.h:437-449 | takes rhs's target, leaves rhs null, drops the old unit; self-move changes nothing |
| IntrusivePtr.StrongLess | hazel/coreten/core/intrusive_ptr.h:489-492 | `operator<` on strong handles compares the handles' addresses: true only when rhs is non-null and the targets differ, and null sorts before every non-null handle |
| IntrusivePtr.StrongEq | hazel/coreten/core/intrusive_ptr.h:494-497 | `operator==` on strong handles compares the handles' addresses: handles on the same target are equal, and null equals only null (distinct targets sharing an address also compare equal; see "## Left out" on addresses) |
| IntrusivePtr.StrongNe | hazel/coreten/core/intrusive_ptr.h:499-502 | `operator!=` on strong handles is the negation of `==`, so unequal handles have different targets |
| IntrusivePtr.StrongComparisonsConsistent | hazel/coreten/core/intrusive_ptr.h:489-502 | == and < compare addresses, != negates ==, < is a strict total order consistent with == |
| IntrusivePtr.WeakPtr.Wrap | hazel/coreten/core/intrusive_ptr.h:543 | the private constructor wraps the address and touches no counter |
| IntrusivePtr.WeakPtr.Retain | hazel/coreten/core/intrusive_ptr.h:526-534 | retain_ does the WeakRetain step on a non-null target and nothing on null |
| IntrusivePtr.WeakPtr.FromStrong | hazel/coreten/core/intrusive_ptr.h:549-551 | a weak handle from a strong one adds 1 to weakcount only; both stay valid |
| IntrusivePtr.WeakPtr.Copy | hazel/coreten/core/intrusive_ptr.h:566-568 | a weak copy adds 1 to weakcount only; both stay valid |
| IntrusivePtr.WeakPtr.Move | hazel/coreten/core/intrusive_ptr.h:553-555 | a move takes the address, leaves the source null, changes no counter |
| IntrusivePtr.WeakPtr.Reset | hazel/coreten/core/intrusive_ptr.h:536-541 | drop leaves the handle null and does the WeakReset step; the target stays valid |
| IntrusivePtr.WeakPtr.Swap | hazel/coreten/core/intrusive_ptr.h:622-626 | swap exchanges the addresses only and keeps both handles valid |
| IntrusivePtr.WeakPtr.Release | hazel/coreten/core/intrusive_ptr.h:682-686 | release returns the address and leaves the handle null |
| IntrusivePtr.WeakPtr.Reclaim | hazel/coreten/core/intrusive_ptr.h:692-703 | reclaim succeeds iff null or weakcount > 1 or (refcount 0 and weakcount > 0), then wraps the same address |
| IntrusivePtr.WeakPtr.UseCount | hazel/coreten/core/intrusive_ptr.h:646-649 | 0 for null, else the STRONG count |
| IntrusivePtr.WeakPtr.WeakUseCount | hazel/coreten/core/intrusive_ptr.h:651-654 | 0 for null, else the weakcount, at least 1 on a valid handle |
| IntrusivePtr.WeakPtr.Expired | hazel/coreten/core/intrusive_ptr.h:656-658 | expired iff null or refcount 0; on a valid handle iff the target is in phase ResourcesReleased |
| IntrusivePtr.WeakPtr.Lock | hazel/coreten/core/intrusive_ptr.h:660-676 | null when expired with nothing changed; otherwise exactly one more strong unit and a valid strong handle to the same target |
| IntrusivePtr.WeakPtr.CopyAssign | hazel/coreten/core/intrusive_ptr.h:598-616 | takes rhs's target with one more weak unit and drops the old one; self-assignment changes no count |
| IntrusivePtr.WeakPtr.AssignFromStrong | hazel/coreten/core/intrusive_ptr.h:602-606 | observes the strong handle's target with one more weak unit and drops the old weak unit |
| IntrusivePtr.WeakPtr.MoveAssign | hazel/coreten/core/intrusive_ptr.h:583-596 | takes rhs's target, leaves rhs null, drops the old weak unit; self-move changes nothing |
| IntrusivePtr.WeakLess | hazel/coreten/core/intrusive_ptr.h:720-723 | `operator<` on weak handles compares the handles' addresses: true only when rhs is non-null and the targets differ, and null sorts before every non-null handle |
| IntrusivePtr.WeakEq | hazel/coreten/core/intrusive_ptr.h:725-728 | `operator==` on weak handles compares the handles' addresses: handles on the same target are equal, and null equals only null (distinct targets sharing an address also compare equal; see "## Left out" on addresses) |
| IntrusivePtr.WeakNe | hazel/coreten/core/intrusive_ptr.h:730-733 | `operator!=` on weak handles is the negation of `==`, so unequal handles have different targets |
| IntrusivePtr.WeakComparisonsConsistent | hazel/coreten/core/intrusive_ptr.h:720-733 | == and < compare addresses, != negates ==, < is a strict total order consistent with == |
| Raw.StrongIncref | hazel/coreten/core/intrusive_ptr.h:751-755 | adds 1 to refcount without a from-zero check; keeps validity on a strong owner |
| Raw.StrongDecref | hazel/coreten/core/intrusive_ptr.h:758-763 | performs exactly the strong handle's drop step on the address |
| Raw.MakeWeak | hazel/coreten/core/intrusive_ptr.h:766-773 | returns the same address with one more weak unit and an unchanged strong count |
| Raw.StrongUseCount | hazel/coreten/core/intrusive_ptr.h:775-780 | 0 for null, else the refcount, at least 1 for a strong owner |
| Raw.WeakIncref | hazel/coreten/core/intrusive_ptr.h:787-789 | adds 1 to weakcount without a check; keeps validity on an owner |
| Raw.WeakDecref | hazel/coreten/core/intrusive_ptr.h:791-796 | fails iff weak reclaim's check fails; otherwise performs the weak handle's drop step |
| Raw.Lock | hazel/coreten/core/intrusive_ptr.h:798-804 | after the reclaim check, a strong address to the same object iff it is alive, with exactly one more strong unit |
| Raw.WeakUseCount | hazel/coreten/core/intrusive_ptr.h:807-812 | after the reclaim check, 0 for null, else the STRONG count |

## Left out

- Memory orderings and thread interleavings: each atomic is one sequential
  update. `compare_exchange_weak` never fails spuriously, so `lock()`'s loop
  succeeds on its first pass.
- In the strong `reset_`, the branch where the weak decrement reaches zero
  after a load that did not read 1 exists only under concurrency. It is kept
  in the code path but cannot be taken sequentially.
- Unit ownership per handle: a handle's `Valid()` only says its target holds a
  unit of that kind, so two handles reclaimed from one released address are
  both `Valid()`. That every unit is owned by exactly one handle is tracked
  only by `Lifecycle.Owners`' strong and weak owner counts; the classes rely on
  callers for it, which is why the two `MoveAssign` methods require a second
  unit when both handles already share the target.
- Counters are unbounded naturals, so `size_t` overflow after 2^64 references
  is not modelled.
- Counters.StrongReset: requires refcount >= 1 and weakcount >= 1, because
  every handle that drops owns a unit. The unsigned wrap-around of a decrement
  from 0 is not modelled.
- Counters.WeakReset: requires weakcount >= 1, for the same reason.
- Templated cross-type conversion constructors and assignments, and
  `detail::assign_ptr`, which only they use: a single pointee type is modelled.
  `static_assert`s and pragmas are type-level or compiler machinery.
- The private incrementing constructor `intrusive_ptr(Target*)` (lines
  296-303) is called nowhere in the file.
- The `std::hash` specialisations delegate to the standard pointer hash. Only
  the address they hash is modelled, as `AddressOf`.
- IntrusivePtr.StrongPtr.Make: when the counter check fails, C++ unwinds and
  destroys the temporary handle, whose `reset_` acts on the rejected target.
  The model returns a null handle and leaves the rejected target alone.
- `release_resources()` is a user hook; only the fact that it runs is recorded.
- Accessors without behaviour (`get`, `operator*`, `operator->`,
  `_unsafe_get_target`) are a plain field read (`Get`).
- Addresses are chosen by the caller of `Make`. That distinct live objects
  have distinct addresses is not stated, because the allocator is not modelled.
  As a result `StrongEq` and `WeakEq` can hold for two distinct targets made
  at the same address, where in C++ two live objects never compare equal.
- The tensor code, macros, string utilities, enumerations, formatting and
  packaging of the repository are not part of this model.
