/** The per-channel frame limiter: at most max frames in each of its own one-second windows. */
module RateLimit {

  /** The limiter's fields between calls. */
  datatype Window = Window(count: nat, start: real)

  function Rolled(w: Window, now: real): Window {
    if now - w.start >= 1.0 then Window(0, now) else w
  }

  function Checked(w: Window, now: real): Window {
    var v := Rolled(w, now);
    v.(count := v.count + 1)
  }

  predicate Passes(w: Window, max: nat, now: real) { Checked(w, now).count <= max }

  class RateLimiter {
    const max: nat
    var count: nat
    var start: real

    function View(): Window
      reads this
    {
      Window(count, start)
    }

    constructor (max: nat, now: real)
      ensures this.max == max && View() == Window(0, now)
    {
      this.max, count, start := max, 0, now;
    }

    method Check(now: real) returns (ok: bool)
      modifies this
      ensures View() == Checked(old(View()), now) && ok == Passes(old(View()), max, now)
    {
      if now - start >= 1.0 {
        count := 0;
        start := now;
      }
      count := count + 1;
      ok := count <= max;
    }
  }

  // ----- a whole run of checks -----

  predicate Ordered(times: seq<real>) {
    forall i, j :: 0 <= i < j < |times| ==> times[i] <= times[j]
  }

  /** The limiter after the first n checks. */
  function After(w0: Window, times: seq<real>, n: nat): Window
    requires n <= |times|
  {
    if n == 0 then w0 else Checked(After(w0, times, n - 1), times[n - 1])
  }

  predicate PassedAt(w0: Window, max: nat, times: seq<real>, k: nat)
    requires k < |times|
  {
    Passes(After(w0, times, k), max, times[k])
  }

  /** The number of checks k in lo .. hi-1 that passed. */
  function PassCount(w0: Window, max: nat, times: seq<real>, lo: nat, hi: nat): nat
    requires lo <= hi <= |times|
  {
    if lo == hi then 0
    else PassCount(w0, max, times, lo, hi - 1) + (if PassedAt(w0, max, times, hi - 1) then 1 else 0)
  }

  /** The index of the check that opened the window in force after n checks (or 0). */
  function Opened(w0: Window, times: seq<real>, n: nat): nat
    requires n <= |times|
  {
    if n == 0 then 0
    else if times[n - 1] - After(w0, times, n - 1).start >= 1.0 then n - 1
    else Opened(w0, times, n - 1)
  }

  /** The limiter's state after n checks: how many checks its window has seen, and that all
      of them lie less than a second after its start. */
  lemma {:induction false} WindowShape(w0: Window, times: seq<real>, n: nat)
    requires Ordered(times) && n <= |times| && w0.count == 0
    requires forall i :: 0 <= i < |times| ==> w0.start <= times[i]
    ensures var w, o := After(w0, times, n), Opened(w0, times, n);
            && o <= n && w.count == n - o
            && (forall i :: o <= i < n ==> w.start <= times[i] < w.start + 1.0)
            && (forall i :: n <= i < |times| ==> w.start <= times[i])
            && (w.start == w0.start || (o < n && w.start == times[o]))
            && (forall i :: 0 <= i < o ==> times[i] <= w.start)
    decreases n
  {
    if n > 0 { WindowShape(w0, times, n - 1); }
  }

  /** Inside one window the limiter passes exactly the first max checks. */
  lemma {:induction false} PassesInWindow(w0: Window, max: nat, times: seq<real>, lo: nat, n: nat)
    requires Ordered(times) && lo <= n <= |times| && w0.count == 0 && Opened(w0, times, n) <= lo
    requires forall i :: 0 <= i < |times| ==> w0.start <= times[i]
    ensures PassCount(w0, max, times, lo, n) <= max
    ensures PassCount(w0, max, times, lo, n) <= After(w0, times, n).count
    decreases n
  {
    WindowShape(w0, times, n);
    if lo < n {
      WindowShape(w0, times, n - 1);
      PassesInWindow(w0, max, times, lo, n - 1);
    }
  }

  /** At most max frames pass in any of the limiter's own windows. */
  lemma OwnWindowBound(w0: Window, max: nat, times: seq<real>, n: nat)
    requires Ordered(times) && n <= |times| && w0.count == 0
    requires forall i :: 0 <= i < |times| ==> w0.start <= times[i]
    ensures Opened(w0, times, n) <= n
    ensures PassCount(w0, max, times, Opened(w0, times, n), n) <= max
  {
    WindowShape(w0, times, n);
    PassesInWindow(w0, max, times, Opened(w0, times, n), n);
  }

  lemma {:induction false} PassCountSplit(w0: Window, max: nat, times: seq<real>, lo: nat, mid: nat, hi: nat)
    requires lo <= mid <= hi <= |times|
    ensures PassCount(w0, max, times, lo, hi) == PassCount(w0, max, times, lo, mid) + PassCount(w0, max, times, mid, hi)
    decreases hi
  {
    if mid < hi { PassCountSplit(w0, max, times, lo, mid, hi - 1); }
  }

  /** Checks lo .. hi-1 lie in a half-open interval of one second. */
  predicate WithinSecond(times: seq<real>, lo: nat, hi: nat)
    requires lo < hi <= |times|
  {
    times[hi - 1] < times[lo] + 1.0
  }

  /** At most 2 max frames pass in any half-open interval of one second. */
  lemma TwiceMaxPerSecond(w0: Window, max: nat, times: seq<real>, lo: nat, hi: nat)
    requires Ordered(times) && lo <= hi <= |times| && w0.count == 0
    requires forall i :: 0 <= i < |times| ==> w0.start <= times[i]
    requires lo < hi ==> WithinSecond(times, lo, hi)
    ensures PassCount(w0, max, times, lo, hi) <= 2 * max
  {
    var o := Opened(w0, times, hi);
    WindowShape(w0, times, hi);
    if o <= lo {
      PassesInWindow(w0, max, times, lo, hi);
    } else {
      PassCountSplit(w0, max, times, lo, o, hi);
      OwnWindowBound(w0, max, times, hi);
      PreviousWindow(w0, times, hi);
      WindowShape(w0, times, o);
      var w := After(w0, times, o);
      assert times[o] - w.start >= 1.0;
      PassesInWindow(w0, max, times, lo, o);
    }
  }

  /** Check o opened a window: the one before it was at least a second old. */
  lemma {:induction false} PreviousWindow(w0: Window, times: seq<real>, n: nat)
    requires n <= |times|
    ensures var o := Opened(w0, times, n);
            && (n > 0 ==> o < n)
            && (0 < o < n ==> times[o] - After(w0, times, o).start >= 1.0)
    decreases n
  {
    if n > 0 && !(times[n - 1] - After(w0, times, n - 1).start >= 1.0) { PreviousWindow(w0, times, n - 1); }
  }

  /** Nothing is rejected when no half-open interval of one second holds more than max checks. */
  lemma NoneRejectedWhenSlow(w0: Window, max: nat, times: seq<real>, k: nat)
    requires Ordered(times) && k < |times| && w0.count == 0
    requires forall i :: 0 <= i < |times| ==> w0.start <= times[i]
    requires forall lo, hi :: 0 <= lo < hi <= |times| && WithinSecond(times, lo, hi) ==> hi - lo <= max
    ensures PassedAt(w0, max, times, k)
  {
    WindowShape(w0, times, k + 1);
    var o := Opened(w0, times, k + 1);
    assert After(w0, times, k + 1) == Checked(After(w0, times, k), times[k]);
    assert o < k + 1 && WithinSecond(times, o, k + 1);
  }
}
