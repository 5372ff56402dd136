/**
 * The raw:: helpers of intrusive_ptr.h, for code that can only pass bare
 * addresses around. Each one rebuilds a temporary handle with reclaim(),
 * acts through it, and release()s it so that the temporary's destruction
 * does not touch the counters again. The exceptions are the two increfs,
 * which update the counter directly and check nothing.
 */
module Raw {
  import opened Counters
  import opened IntrusivePtr

  /** raw::intrusive_ptr::incref: one more strong unit, with no from-zero check. */
  method StrongIncref(self: Target?)
    requires self != null ==> self.freedTimes == 0
    modifies self
    ensures self != null ==> self.State() == RawStrongIncref(old(self.State()))
    ensures self != null && old(self.Valid() && StrongOwned(self.State())) ==> self.Valid()
  {
    if self != null {
      if self.Valid() && StrongOwned(self.State()) {
        RawStrongIncrefOnOwner(self.State());
      }
      var _ := self.IncrementRefcount();
    }
  }

  /** raw::intrusive_ptr::decref: reclaim the strong unit into a handle and let it die. */
  method StrongDecref(self: Target?)
    requires self != null ==> self.Valid() && StrongOwned(self.State())
    modifies self
    ensures self != null ==> self.State() == StrongReset(old(self.State())).0 && self.Valid()
  {
    var p := StrongPtr.Reclaim(self);
    p.Reset();
  }

  /** raw::intrusive_ptr::make_weak: from a strong address, a weak address to the same object. */
  method MakeWeak(self: Target?) returns (weak: Target?)
    requires self != null ==> self.Valid() && StrongOwned(self.State())
    modifies self
    ensures weak == self
    ensures self != null ==>
              self.State() == WeakRetain(old(self.State())).0
              && self.Valid() && StrongOwned(self.State()) && WeakOwned(self.State())
  {
    var ptr := StrongPtr.Reclaim(self);
    var wptr := new WeakPtr.FromStrong(ptr);
    var _ := ptr.Release();
    weak := wptr.Release();
  }

  /** raw::intrusive_ptr::use_count: the strong count, 0 for null. */
  method StrongUseCount(self: Target?) returns (n: nat)
    ensures self == null ==> n == 0
    ensures self != null ==> n == self.refcount
    ensures self != null && self.Valid() && StrongOwned(self.State()) ==> n >= 1
  {
    var ptr := StrongPtr.Reclaim(self);
    n := ptr.UseCount();
    var _ := ptr.Release();
  }

  /** raw::weak_intrusive_ptr::incref: one more weak unit; the address must not be null. */
  method WeakIncref(self: Target)
    requires self.freedTimes == 0
    modifies self
    ensures self.State() == RawWeakIncref(old(self.State()))
    ensures old(self.Valid() && (StrongOwned(self.State()) || WeakOwned(self.State()))) ==>
              self.Valid() && WeakOwned(self.State())
  {
    if self.Valid() && (StrongOwned(self.State()) || WeakOwned(self.State())) {
      RawWeakIncrefOnOwner(self.State());
      WeakRetainKeepsInv(self.State());
    }
    var _ := self.IncrementWeakcount();
  }

  /** raw::weak_intrusive_ptr::decref: reclaim the weak unit (checked) into a handle and let it die. */
  method WeakDecref(self: Target?) returns (r: Outcome)
    requires self != null ==> self.Valid() && self.freedTimes == 0
    modifies self
    ensures r.Ok? <==> self == null || WeakReclaimAllowed(old(self.State()))
    ensures r.Ok? && self != null ==> self.State() == WeakReset(old(self.State())).0 && self.Valid()
    ensures r.Violation? ==> self.State() == old(self.State())
  {
    var w;
    r, w := WeakPtr.Reclaim(self);
    if r.Ok? {
      w.Reset();
    }
  }

  /**
   * raw::weak_intrusive_ptr::lock: from a weak address, a strong address to
   * the same object while it is alive, null once it has expired.
   */
  method Lock(self: Target?) returns (r: Outcome, strong: Target?)
    requires self != null ==> self.Valid() && self.freedTimes == 0
    modifies self
    ensures r.Ok? <==> self == null || WeakReclaimAllowed(old(self.State()))
    ensures self == null ==> strong == null
    ensures r.Ok? && self != null ==>
              (self.State(), strong != null) == TryLock(old(self.State()))
              && (strong != null ==> strong == self) && self.Valid()
    ensures r.Violation? ==> strong == null && self.State() == old(self.State())
  {
    var wptr;
    r, wptr := WeakPtr.Reclaim(self);
    if r.Violation? {
      strong := null;
      return;
    }
    var ptr := wptr.Lock();
    var _ := wptr.Release();
    strong := ptr.Release();
  }

  /** raw::weak_intrusive_ptr::use_count: the STRONG count of a weak address (checked reclaim). */
  method WeakUseCount(self: Target?) returns (r: Outcome, n: nat)
    ensures r.Ok? <==> self == null || WeakReclaimAllowed(self.State())
    ensures r.Ok? && self == null ==> n == 0
    ensures r.Ok? && self != null ==> n == self.refcount
  {
    var wptr;
    r, wptr := WeakPtr.Reclaim(self);
    if r.Violation? {
      n := 0;
      return;
    }
    n := wptr.UseCount();
    var _ := wptr.Release();
  }
}
