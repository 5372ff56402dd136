/**
 * The intrusive reference-counted pointers of intrusive_ptr.h: the target
 * that carries the counters, the strong handle intrusive_ptr and the weak
 * handle weak_intrusive_ptr. A single pointee type is modelled and `null`
 * plays the default null type's singleton (address 0).
 *
 * Every method that changes counters states the new counters as the matching
 * step of module Counters applied to the old ones; the invariants of those
 * steps are proved there.
 */
module IntrusivePtr {
  import opened Counters

  /** Heap addresses of live objects; the null singleton sits at 0. */
  type Address = n: nat | n > 0 witness 1

  /** intrusive_ptr_target: the two counters live inside the object. */
  class Target {
    var refcount: nat
    var weakcount: nat
    const address: Address
    /** How many times release_resources() ran on this object. */
    ghost var releasedTimes: nat
    /** How many times this object was deleted. */
    ghost var freedTimes: nat

    ghost function State(): Counts
      reads this
    {
      Counts(refcount, weakcount, releasedTimes, freedTimes)
    }

    ghost predicate Valid()
      reads this
    {
      Inv(State())
    }

    /**
     * The pointee's constructor. The base part starts both counters at zero;
     * ctorRefcount and ctorWeakcount stand for a derived constructor that
     * already took references to `this`, which make() then refuses.
     */
    constructor (address: Address, ctorRefcount: nat, ctorWeakcount: nat)
      ensures this.address == address
      ensures State() == Counts(ctorRefcount, ctorWeakcount, 0, 0)
      ensures ctorRefcount == 0 && ctorWeakcount == 0 ==> State() == Constructed()
    {
      this.address := address;
      refcount, weakcount := ctorRefcount, ctorWeakcount;
      releasedTimes, freedTimes := 0, 0;
    }

    /** The release_resources() hook; only its running is recorded. */
    method ReleaseResources()
      modifies this
      ensures State() == old(State()).(released := old(releasedTimes) + 1)
    {
      releasedTimes := releasedTimes + 1;
    }

    /** `delete target_`: the destructor's two checks, then the memory goes. */
    method Delete() returns (r: Outcome)
      modifies this
      ensures (State(), r) == Teardown(old(State()))
    {
      r := if refcount == 0 && (weakcount == 0 || weakcount == 1) then Ok
           else Violation("Attempted to destroy an intrusive_ptr_target that still has references to it");
      freedTimes := freedTimes + 1;
    }

    /** detail::atomic_refcount_increment: returns the new value. */
    method IncrementRefcount() returns (n: nat)
      modifies this`refcount
      ensures refcount == old(refcount) + 1 && n == refcount
    {
      refcount := refcount + 1;
      n := refcount;
    }

    /** detail::atomic_weakcount_increment: returns the new value. */
    method IncrementWeakcount() returns (n: nat)
      modifies this`weakcount
      ensures weakcount == old(weakcount) + 1 && n == weakcount
    {
      weakcount := weakcount + 1;
      n := weakcount;
    }

    /** detail::atomic_refcount_decrement: returns the new value. */
    method DecrementRefcount() returns (n: nat)
      requires refcount >= 1
      modifies this`refcount
      ensures refcount == old(refcount) - 1 && n == refcount
    {
      refcount := refcount - 1;
      n := refcount;
    }

    /** detail::atomic_weakcount_decrement: returns the new value. */
    method DecrementWeakcount() returns (n: nat)
      requires weakcount >= 1
      modifies this`weakcount
      ensures weakcount == old(weakcount) - 1 && n == weakcount
    {
      weakcount := weakcount - 1;
      n := weakcount;
    }

    /** refcount_.compare_exchange_weak without spurious failure. */
    method CompareExchangeRefcount(expected: nat, desired: nat) returns (ok: bool, observed: nat)
      modifies this`refcount
      ensures ok <==> old(refcount) == expected
      ensures refcount == (if ok then desired else old(refcount))
      ensures observed == old(refcount)
    {
      observed := refcount;
      ok := refcount == expected;
      if ok {
        refcount := desired;
      }
    }
  }

  /** The address a handle compares and hashes by. */
  function AddressOf(t: Target?): (a: nat)
    ensures a == 0 <==> t == null
  {
    if t == null then 0 else t.address
  }

  /** intrusive_ptr: the strong handle. */
  class StrongPtr {
    var target: Target?

    /** A non-null handle owns one strong unit of a valid target. */
    ghost predicate Valid()
      reads this, target
    {
      target != null ==> target.Valid() && StrongOwned(target.State())
    }

    /** The default constructor: the null handle. */
    constructor Null()
      ensures target == null && Valid()
    {
      target := null;
    }

    /** The private constructor tagged DontIncreaseRefcount. */
    constructor Adopt(t: Target?)
      ensures target == t
    {
      target := t;
    }

    /**
     * intrusive_ptr::make / make_intrusive: allocate at `address`, refuse a
     * target whose constructor left non-zero counters, seed them to (1, 1).
     */
    static method Make(address: Address, ctorRefcount: nat, ctorWeakcount: nat)
      returns (r: Outcome, p: StrongPtr)
      ensures fresh(p) && p.Valid()
      ensures r.Ok? <==> ctorRefcount == 0 && ctorWeakcount == 0
      ensures r.Ok? ==> p.target != null && fresh(p.target) && p.target.address == address
                        && p.target.State() == Counts(1, 1, 0, 0)
      ensures r.Violation? ==> p.target == null
    {
      var t := new Target(address, ctorRefcount, ctorWeakcount);
      var result := new StrongPtr.Adopt(t);
      var seeded := Counters.Make(t.refcount, t.weakcount);
      if seeded.Failure? {
        r := Violation(seeded.message);
        p := new StrongPtr.Null();
        return;
      }
      t.refcount := 1;
      t.weakcount := 1;
      r, p := Ok, result;
    }

    /** intrusive_ptr::reclaim: adopt an owning address without touching the counters. */
    static method Reclaim(owning: Target?) returns (p: StrongPtr)
      ensures fresh(p) && p.target == owning
    {
      p := new StrongPtr.Adopt(owning);
    }

    /** retain_: add a strong unit, refusing to do so from zero. */
    method Retain() returns (r: Outcome)
      requires target != null ==> target.freedTimes == 0
      modifies target
      ensures target == null ==> r == Ok
      ensures target != null ==> (target.State(), r) == StrongRetain(old(target.State()))
    {
      r := Ok;
      if target != null {
        var n := target.IncrementRefcount();
        if n == 1 {
          r := Violation("intrusive_ptr: Cannot increase refcount after it reached zero.");
        }
      }
    }

    /** The copy constructor: share rhs's target and add a strong unit. */
    constructor Copy(rhs: StrongPtr)
      requires rhs.Valid()
      modifies rhs.target
      ensures target == rhs.target && Valid() && rhs.Valid()
      ensures target != null ==> target.State() == StrongRetain(old(rhs.target.State())).0
    {
      target := rhs.target;
      new;
      if target != null {
        StrongRetainKeepsInv(target.State());
      }
      var r := Retain();
      assert r.Ok?;
    }

    /** The move constructor: take rhs's target, leave rhs null, no counter changes. */
    constructor Move(rhs: StrongPtr)
      modifies rhs
      ensures target == old(rhs.target) && rhs.target == null
      ensures old(rhs.Valid()) ==> Valid() && rhs.Valid()
    {
      target := rhs.target;
      new;
      rhs.target := null;
    }

    /**
     * reset_ (the destructor and reset()): drop the strong unit; at zero run
     * release_resources() and give up the implicit weak unit, deleting the
     * object when the weak side is exhausted. The handle becomes null.
     */
    method Reset()
      requires Valid()
      modifies this, target
      ensures target == null
      ensures old(target) != null ==>
                old(target).State() == StrongReset(old(target.State())).0 && old(target).Valid()
    {
      if target != null {
        var t := target;
        StrongResetKeepsInv(t.State());
        var n := t.DecrementRefcount();
        if n == 0 {
          t.ReleaseResources();
          var w := t.weakcount;
          var freeNow := w == 1;
          if !freeNow {
            var nw := t.DecrementWeakcount();
            freeNow := nw == 0;
          }
          if freeNow {
            var r := t.Delete();
            assert r.Ok?;
          }
        }
      }
      target := null;
    }

    /** swap: exchange the targets; no counter changes. */
    method Swap(rhs: StrongPtr)
      modifies this, rhs
      ensures target == old(rhs.target) && rhs.target == old(target)
      ensures old(Valid()) && old(rhs.Valid()) ==> Valid() && rhs.Valid()
    {
      target, rhs.target := rhs.target, target;
    }

    /** release: hand the owning address out and become null; counters unchanged. */
    method Release() returns (t: Target?)
      modifies this
      ensures t == old(target) && target == null && Valid()
    {
      t := target;
      target := null;
    }

    /** unsafe_reclaim_from_nonowning: accept only a live target, then add a strong unit. */
    static method UnsafeReclaimFromNonowning(raw: Target?) returns (r: Outcome, p: StrongPtr)
      requires raw != null ==> raw.freedTimes == 0
      modifies raw
      ensures fresh(p)
      ensures r.Ok? <==> raw == null || NonOwningReclaimAllowed(old(raw.State()))
      ensures r.Ok? ==> p.target == raw
      ensures r.Ok? && raw != null ==> raw.State() == StrongRetain(old(raw.State())).0
      ensures r.Ok? && old(raw != null ==> raw.Valid()) ==> p.Valid()
      ensures r.Violation? ==> p.target == null && raw.State() == old(raw.State())
    {
      if raw != null && !(raw.refcount > 0) {
        r := Violation("intrusive_ptr can only reclaim pointers that are owned by someone");
        p := new StrongPtr.Null();
        return;
      }
      p := Reclaim(raw);
      if raw != null && raw.Valid() {
        StrongRetainKeepsInv(raw.State());
      }
      r := p.Retain();
    }

    function Get(): Target?
      reads this
    {
      target
    }

    /** defined() and operator bool. */
    function Defined(): (b: bool)
      reads this
      ensures b <==> AddressOf(target) != 0
    {
      target != null
    }

    /** use_count(): 0 for null, else the strong count; a valid non-null handle reports at least 1. */
    function UseCount(): (n: nat)
      reads this, target
      ensures target == null ==> n == 0
      ensures target != null ==> n == target.refcount
      ensures Valid() ==> (n > 0 <==> target != null)
    {
      if target == null then 0 else target.refcount
    }

    /** weak_use_count(): 0 for null, else the weak count (including the implicit unit). */
    function WeakUseCount(): (n: nat)
      reads this, target
      ensures target == null ==> n == 0
      ensures target != null ==> n == target.weakcount
      ensures Valid() && target != null ==> n >= 1
    {
      if target == null then 0 else target.weakcount
    }

    /** unique(): this is the only strong owner. */
    function Unique(): (b: bool)
      reads this, target
      ensures b <==> target != null && target.refcount == 1
    {
      UseCount() == 1
    }

    /**
     * Copy assignment (a copy into a temporary, a swap, and the temporary's
     * destruction): take rhs's target with a new strong unit, drop the old one.
     */
    method CopyAssign(rhs: StrongPtr)
      requires Valid() && rhs.Valid()
      modifies this, target, rhs.target
      ensures target == old(rhs.target) && Valid() && rhs.Valid()
      ensures old(target) == old(rhs.target) && target != null ==> target.State() == old(target.State())
      ensures old(target) != old(rhs.target) && target != null ==>
                target.State() == StrongRetain(old(rhs.target.State())).0
      ensures old(target) != old(rhs.target) && old(target) != null ==>
                old(target).State() == StrongReset(old(target.State())).0 && old(target).Valid()
    {
      var tmp := new StrongPtr.Copy(rhs);
      Swap(tmp);
      tmp.Reset();
    }

    /**
     * Move assignment (a move into a temporary, a swap, and the temporary's
     * destruction): take rhs's target, leave rhs null, drop the old unit.
     * Two distinct handles on one target hold two units between them.
     */
    method MoveAssign(rhs: StrongPtr)
      requires Valid() && rhs.Valid()
      requires rhs != this && target != null && target == rhs.target ==> target.refcount >= 2
      modifies this, rhs, target
      ensures Valid() && rhs.Valid()
      ensures rhs == this ==> target == old(target) && (target != null ==> target.State() == old(target.State()))
      ensures rhs != this ==> target == old(rhs.target) && rhs.target == null
      ensures rhs != this && old(target) != null ==>
                old(target).State() == StrongReset(old(target.State())).0 && old(target).Valid()
    {
      var tmp := new StrongPtr.Move(rhs);
      Swap(tmp);
      tmp.Reset();
    }
  }

  /** operator< on strong handles: by address. */
  function StrongLess(a: StrongPtr, b: StrongPtr): (r: bool)
    reads a, b
    ensures r ==> b.target != null && a.target != b.target
    ensures a.target == null && b.target != null ==> r
  {
    AddressOf(a.Get()) < AddressOf(b.Get())
  }

  /** operator== on strong handles: by address. */
  function StrongEq(a: StrongPtr, b: StrongPtr): (r: bool)
    reads a, b
    ensures a.target == b.target ==> r
    ensures r ==> (a.target == null <==> b.target == null)
  {
    AddressOf(a.Get()) == AddressOf(b.Get())
  }

  /** operator!= on strong handles. */
  function StrongNe(a: StrongPtr, b: StrongPtr): (r: bool)
    reads a, b
    ensures r <==> !StrongEq(a, b)
    ensures r ==> a.target != b.target
  {
    !StrongEq(a, b)
  }

  /** The comparisons form a strict total order on addresses, consistent with equality. */
  lemma StrongComparisonsConsistent(a: StrongPtr, b: StrongPtr, c: StrongPtr)
    ensures StrongNe(a, b) <==> !StrongEq(a, b)
    ensures a.target == b.target ==> StrongEq(a, b)
    ensures StrongEq(a, b) && a.target == null ==> b.target == null
    ensures !StrongLess(a, a)
    ensures StrongLess(a, b) || StrongEq(a, b) || StrongLess(b, a)
    ensures StrongLess(a, b) ==> !StrongEq(a, b) && !StrongLess(b, a)
    ensures StrongLess(a, b) && StrongLess(b, c) ==> StrongLess(a, c)
  {
  }

  /** weak_intrusive_ptr: the weak handle. */
  class WeakPtr {
    var target: Target?

    /** A non-null handle owns one weak unit of a valid, not yet freed target. */
    ghost predicate Valid()
      reads this, target
    {
      target != null ==> target.Valid() && WeakOwned(target.State())
    }

    /** The private constructor from an address: no counter change. */
    constructor Wrap(t: Target?)
      ensures target == t
    {
      target := t;
    }

    /** retain_: add a weak unit, refusing to do so from zero. */
    method Retain() returns (r: Outcome)
      requires target != null ==> target.freedTimes == 0
      modifies target
      ensures target == null ==> r == Ok
      ensures target != null ==> (target.State(), r) == WeakRetain(old(target.State()))
    {
      r := Ok;
      if target != null {
        var n := target.IncrementWeakcount();
        if n == 1 {
          r := Violation("weak_intrusive_ptr: Cannot increase weakcount after it reached zero.");
        }
      }
    }

    /** Construction from a strong handle: one more weak unit, the strong count untouched. */
    constructor FromStrong(p: StrongPtr)
      requires p.Valid()
      modifies p.target
      ensures target == p.target && Valid() && p.Valid()
      ensures target != null ==> target.State() == WeakRetain(old(p.target.State())).0
    {
      target := p.Get();
      new;
      if target != null {
        WeakRetainKeepsInv(target.State());
      }
      var r := Retain();
      assert r.Ok?;
    }

    /** The copy constructor. */
    constructor Copy(rhs: WeakPtr)
      requires rhs.Valid()
      modifies rhs.target
      ensures target == rhs.target && Valid() && rhs.Valid()
      ensures target != null ==> target.State() == WeakRetain(old(rhs.target.State())).0
    {
      target := rhs.target;
      new;
      if target != null {
        WeakRetainKeepsInv(target.State());
      }
      var r := Retain();
      assert r.Ok?;
    }

    /** The move constructor. */
    constructor Move(rhs: WeakPtr)
      modifies rhs
      ensures target == old(rhs.target) && rhs.target == null
      ensures old(rhs.Valid()) ==> Valid() && rhs.Valid()
    {
      target := rhs.target;
      new;
      rhs.target := null;
    }

    /**
     * reset_ (the destructor and reset()): drop the weak unit and delete the
     * object when the weak count reaches zero; release_resources() is never run.
     */
    method Reset()
      requires Valid()
      modifies this, target
      ensures target == null
      ensures old(target) != null ==>
                old(target).State() == WeakReset(old(target.State())).0 && old(target).Valid()
    {
      if target != null {
        var t := target;
        WeakResetKeepsInv(t.State());
        var n := t.DecrementWeakcount();
        if n == 0 {
          var r := t.Delete();
          assert r.Ok?;
        }
      }
      target := null;
    }

    /** swap: exchange the targets; no counter changes. */
    method Swap(rhs: WeakPtr)
      modifies this, rhs
      ensures target == old(rhs.target) && rhs.target == old(target)
      ensures old(Valid()) && old(rhs.Valid()) ==> Valid() && rhs.Valid()
    {
      target, rhs.target := rhs.target, target;
    }

    /** release: hand the weakly-owning address out and become null. */
    method Release() returns (t: Target?)
      modifies this
      ensures t == old(target) && target == null && Valid()
    {
      t := target;
      target := null;
    }

    /** reclaim: adopt a weakly-owning address, checking that it can hold a weak unit. */
    static method Reclaim(owning: Target?) returns (r: Outcome, w: WeakPtr)
      ensures fresh(w)
      ensures r.Ok? <==> owning == null || WeakReclaimAllowed(owning.State())
      ensures r.Ok? ==> w.target == owning
      ensures r.Violation? ==> w.target == null
      ensures r.Ok? && (owning != null ==> owning.Valid() && owning.freedTimes == 0) ==> w.Valid()
    {
      if owning != null && !(owning.weakcount > 1 || (owning.refcount == 0 && owning.weakcount > 0)) {
        r := Violation("weak_intrusive_ptr: Can only reclaim owning pointers that were created using release().");
        w := new WeakPtr.Wrap(null);
        return;
      }
      r := Ok;
      w := new WeakPtr.Wrap(owning);
    }

    function Get(): Target?
      reads this
    {
      target
    }

    /** use_count(): the STRONG count of the target, 0 for null. */
    function UseCount(): (n: nat)
      reads this, target
      ensures target == null ==> n == 0
      ensures target != null ==> n == target.refcount
    {
      if target == null then 0 else target.refcount
    }

    /** weak_use_count(): the weak count of the target, 0 for null. */
    function WeakUseCount(): (n: nat)
      reads this, target
      ensures target == null ==> n == 0
      ensures target != null ==> n == target.weakcount
      ensures Valid() && target != null ==> n >= 1
    {
      if target == null then 0 else target.weakcount
    }

    /** expired(): no strong owner is left (or there is no target). */
    function Expired(): (b: bool)
      reads this, target
      ensures b <==> target == null || target.refcount == 0
      ensures Valid() && target != null ==> (b <==> PhaseOf(target.State()) == ResourcesReleased)
    {
      UseCount() == 0
    }

    /**
     * lock(): a null strong handle when expired; otherwise a compare-and-swap
     * loop adds one strong unit and a strong handle to the same target is
     * returned. The weak count is untouched.
     */
    method Lock() returns (p: StrongPtr)
      requires Valid()
      modifies target
      ensures fresh(p) && Valid() && p.Valid()
      ensures target == null ==> p.target == null
      ensures target != null ==>
                (target.State(), p.target != null) == TryLock(old(target.State()))
                && (p.target != null ==> p.target == target)
    {
      if Expired() {
        p := new StrongPtr.Null();
        return;
      }
      var t := target;
      TryLockKeepsInv(t.State());
      var refcount := t.refcount;
      var done, sawZero := false, false;
      while !done
        invariant old(t.refcount) != 0
        invariant !done ==> !sawZero && refcount == t.refcount && t.State() == old(t.State())
        invariant done && !sawZero ==> t.State() == TryLock(old(t.State())).0
        invariant done && sawZero ==> refcount == 0 == t.refcount && t.State() == old(t.State())
        decreases if done then 0 else 1
      {
        if refcount == 0 {
          sawZero, done := true, true;
        } else {
          var ok;
          ok, refcount := t.CompareExchangeRefcount(refcount, refcount + 1);
          done := ok;
        }
      }
      // Sequentially the compare-and-swap cannot observe zero after expired() said no.
      assert !sawZero;
      p := new StrongPtr.Adopt(t);
      assert t.State() == TryLock(old(t.State())).0;
    }

    /** Copy assignment: take rhs's target with a new weak unit, drop the old one. */
    method CopyAssign(rhs: WeakPtr)
      requires Valid() && rhs.Valid()
      modifies this, target, rhs.target
      ensures target == old(rhs.target) && Valid() && rhs.Valid()
      ensures old(target) == old(rhs.target) && target != null ==> target.State() == old(target.State())
      ensures old(target) != old(rhs.target) && target != null ==>
                target.State() == WeakRetain(old(rhs.target.State())).0
      ensures old(target) != old(rhs.target) && old(target) != null ==>
                old(target).State() == WeakReset(old(target.State())).0 && old(target).Valid()
    {
      var tmp := new WeakPtr.Copy(rhs);
      Swap(tmp);
      tmp.Reset();
    }

    /** Assignment from a strong handle: observe p's target, drop the old weak unit. */
    method AssignFromStrong(p: StrongPtr)
      requires Valid() && p.Valid()
      modifies this, target, p.target
      ensures target == old(p.target) && Valid() && p.Valid()
      ensures old(target) == old(p.target) && target != null ==> target.State() == old(target.State())
      ensures old(target) != old(p.target) && target != null ==>
                target.State() == WeakRetain(old(p.target.State())).0
      ensures old(target) != old(p.target) && old(target) != null ==>
                old(target).State() == WeakReset(old(target.State())).0 && old(target).Valid()
    {
      var tmp := new WeakPtr.FromStrong(p);
      Swap(tmp);
      tmp.Reset();
    }

    /**
     * Move assignment: take rhs's target, leave rhs null, drop the old weak
     * unit. Two distinct weak handles on one target hold two units between them.
     */
    method MoveAssign(rhs: WeakPtr)
      requires Valid() && rhs.Valid()
      requires rhs != this && target != null && target == rhs.target ==>
                 target.weakcount >= 2 + (if target.refcount > 0 then 1 else 0)
      modifies this, rhs, target
      ensures Valid() && rhs.Valid()
      ensures rhs == this ==> target == old(target) && (target != null ==> target.State() == old(target.State()))
      ensures rhs != this ==> target == old(rhs.target) && rhs.target == null
      ensures rhs != this && old(target) != null ==>
                old(target).State() == WeakReset(old(target.State())).0 && old(target).Valid()
    {
      var tmp := new WeakPtr.Move(rhs);
      Swap(tmp);
      tmp.Reset();
    }
  }

  /** operator< on weak handles: by address. */
  function WeakLess(a: WeakPtr, b: WeakPtr): (r: bool)
    reads a, b
    ensures r ==> b.target != null && a.target != b.target
    ensures a.target == null && b.target != null ==> r
  {
    AddressOf(a.Get()) < AddressOf(b.Get())
  }

  /** operator== on weak handles: by address. */
  function WeakEq(a: WeakPtr, b: WeakPtr): (r: bool)
    reads a, b
    ensures a.target == b.target ==> r
    ensures r ==> (a.target == null <==> b.target == null)
  {
    AddressOf(a.Get()) == AddressOf(b.Get())
  }

  /** operator!= on weak handles. */
  function WeakNe(a: WeakPtr, b: WeakPtr): (r: bool)
    reads a, b
    ensures r <==> !WeakEq(a, b)
    ensures r ==> a.target != b.target
  {
    !WeakEq(a, b)
  }

  lemma WeakComparisonsConsistent(a: WeakPtr, b: WeakPtr, c: WeakPtr)
    ensures WeakNe(a, b) <==> !WeakEq(a, b)
    ensures a.target == b.target ==> WeakEq(a, b)
    ensures WeakEq(a, b) && a.target == null ==> b.target == null
    ensures !WeakLess(a, a)
    ensures WeakLess(a, b) || WeakEq(a, b) || WeakLess(b, a)
    ensures WeakLess(a, b) ==> !WeakEq(a, b) && !WeakLess(b, a)
    ensures WeakLess(a, b) && WeakLess(b, c) ==> WeakLess(a, c)
  {
  }
}
