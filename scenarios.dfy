/**
 * Client code that uses only the handles' contracts, in the way the
 * ownership protocol is meant to be used.
 */
module Scenarios {
  import opened Counters
  import opened IntrusivePtr

  /**
   * make(); copy and drop a copy; derive a weak handle; drop the last strong
   * handle: release_resources() has run once, the weak handle reports
   * expired and lock() yields null; dropping the weak handle frees the memory.
   */
  method WeakOutlivesStrong(address: Address) returns (t: Target)
    ensures t.releasedTimes == 1 && t.freedTimes == 1
  {
    var r, a := StrongPtr.Make(address, 0, 0);
    t := a.target;
    assert a.UseCount() == 1 && a.WeakUseCount() == 1;

    var b := new StrongPtr.Copy(a);
    assert a.UseCount() == 2 && a.WeakUseCount() == 1;
    b.Reset();
    assert a.UseCount() == 1 && a.Valid();

    var w := new WeakPtr.FromStrong(a);
    assert a.UseCount() == 1 && a.WeakUseCount() == 2 && !w.Expired();

    a.Reset();
    assert t.releasedTimes == 1 && t.freedTimes == 0;
    assert w.Valid() && w.Expired();

    var l := w.Lock();
    assert l.target == null && t.State() == Counts(0, 1, 1, 0);

    w.Reset();
    assert t.freedTimes == 1;
  }

  /** Handles reclaimed from the same address compare equal; release/reclaim keeps the counts. */
  method ReleaseReclaimRoundTrip(address: Address)
  {
    var r, p := StrongPtr.Make(address, 0, 0);
    var t := p.target;
    var raw := p.Release();
    assert p.target == null;
    var q := StrongPtr.Reclaim(raw);
    var q2 := StrongPtr.Reclaim(raw);
    assert q.target == t && q.UseCount() == 1 && q.WeakUseCount() == 1;
    assert StrongEq(q, q2) && !StrongNe(q, q2);
    var _ := q2.Release();
    q.Reset();
    assert t.releasedTimes == 1 && t.freedTimes == 1;
  }
}
