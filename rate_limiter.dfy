/** `utils/rate_limiter.py`: a sliding-window limiter over a deque of request
    timestamps. The clock is an explicit `now` argument (seconds). */
module RateLimit {

  /** How many entries at the front of `rs` are strictly older than the window. */
  function StaleCount(rs: seq<real>, now: real, window: real): (k: nat)
    ensures k <= |rs|
    ensures forall i :: 0 <= i < k ==> now - rs[i] > window
    ensures k < |rs| ==> now - rs[k] <= window
    decreases |rs|
  {
    if rs != [] && now - rs[0] > window then
      var k := 1 + StaleCount(rs[1..], now, window);
      assert forall i :: 1 <= i < k ==> rs[i] == rs[1..][i - 1];
      k
    else 0
  }

  /** The deque after the eviction loop: only front entries are popped, and
      only while the front is strictly older than the window. */
  function Evict(rs: seq<real>, now: real, window: real): seq<real>
  {
    rs[StaleCount(rs, now, window)..]
  }

  /** One call of `can_make_request`: the new deque and the answer. */
  function Step(rs: seq<real>, now: real, maxRequests: int, window: real): (seq<real>, bool)
  {
    var kept := Evict(rs, now, window);
    if |kept| < maxRequests then (kept + [now], true) else (kept, false)
  }

  ghost predicate Sorted(rs: seq<real>)
  {
    forall i, j :: 0 <= i < j < |rs| ==> rs[i] <= rs[j]
  }

  class RateLimiter {
    const maxRequests: int
    const timeWindow: int
    var requests: seq<real>

    constructor (maxRequests: int, timeWindow: int)
      ensures this.maxRequests == maxRequests && this.timeWindow == timeWindow
      ensures requests == []
    {
      this.maxRequests := maxRequests;
      this.timeWindow := timeWindow;
      requests := [];
    }

    /** The constructor with the source's default arguments. */
    constructor Default()
      ensures maxRequests == 100 && timeWindow == 3600
      ensures requests == []
    {
      maxRequests := 100;
      timeWindow := 3600;
      requests := [];
    }

    /** Evicts stale timestamps from the front, then admits the request (and
        records `now` at the back) iff fewer than `maxRequests` remain. */
    method CanMakeRequest(now: real) returns (ok: bool)
      modifies this
      ensures ok <==> |Evict(old(requests), now, timeWindow as real)| < maxRequests
      ensures requests == Evict(old(requests), now, timeWindow as real) + (if ok then [now] else [])
      ensures (requests, ok) == Step(old(requests), now, maxRequests, timeWindow as real)
    {
      var window := timeWindow as real;
      while requests != [] && now - requests[0] > window
        invariant Evict(requests, now, window) == Evict(old(requests), now, window)
        decreases |requests|
      {
        assert StaleCount(requests, now, window) == 1 + StaleCount(requests[1..], now, window);
        requests := requests[1..];
      }
      assert StaleCount(requests, now, window) == 0;
      if |requests| < maxRequests {
        requests := requests + [now];
        return true;
      }
      return false;
    }
  }

  /** An entry exactly `window` old survives eviction, and so does everything after it. */
  lemma {:induction false} BoundaryKept(rs: seq<real>, now: real, window: real)
    requires rs != [] && now - rs[0] == window
    ensures Evict(rs, now, window) == rs
  {
    assert !(now - rs[0] > window);
    assert StaleCount(rs, now, window) == 0;
  }

  /** With a sorted deque of past timestamps and a non-negative window, one
      call keeps the deque sorted and leaves only entries inside the window. */
  lemma StepKeepsWindow(rs: seq<real>, now: real, maxRequests: int, window: real)
    requires Sorted(rs)
    requires forall i :: 0 <= i < |rs| ==> rs[i] <= now
    requires window >= 0.0
    ensures var next := Step(rs, now, maxRequests, window).0;
      Sorted(next) &&
      (forall i :: 0 <= i < |next| ==> next[i] <= now && now - next[i] <= window)
  {
    var kept := Evict(rs, now, window);
    EvictKeepsWindow(rs, now, window);
    if |kept| < maxRequests {
      AppendLatest(kept, now);
    }
  }

  /** Eviction keeps a sorted deque sorted and leaves only entries inside the window. */
  lemma EvictKeepsWindow(rs: seq<real>, now: real, window: real)
    requires Sorted(rs)
    requires forall i :: 0 <= i < |rs| ==> rs[i] <= now
    ensures var kept := Evict(rs, now, window);
      Sorted(kept) && (forall i :: 0 <= i < |kept| ==> kept[i] <= now && now - kept[i] <= window)
  {
    var k := StaleCount(rs, now, window);
    var kept := rs[k..];
    forall i | 0 <= i < |kept| ensures kept[i] <= now && now - kept[i] <= window {
      assert kept[i] == rs[k + i] && kept[0] == rs[k];
      assert rs[k] <= rs[k + i];
    }
    SortedSuffix(rs, k);
  }

  lemma SortedSuffix(rs: seq<real>, k: nat)
    requires Sorted(rs) && k <= |rs|
    ensures Sorted(rs[k..])
  {
    var kept := rs[k..];
    forall i, j | 0 <= i < j < |kept| ensures kept[i] <= kept[j] {
      assert kept[i] == rs[k + i] && kept[j] == rs[k + j];
    }
  }

  /** Recording the latest time at the back keeps the deque sorted. */
  lemma AppendLatest(kept: seq<real>, now: real)
    requires Sorted(kept) && forall i :: 0 <= i < |kept| ==> kept[i] <= now
    ensures Sorted(kept + [now])
  {
    var next := kept + [now];
    forall i, j | 0 <= i < j < |next| ensures next[i] <= next[j] {
      assert next[i] == kept[i];
      if j < |kept| {
        assert next[j] == kept[j];
      }
    }
  }

  /** The deque and the answers after a sequence of calls on a fresh limiter. */
  function Replay(times: seq<real>, maxRequests: int, window: real): (seq<real>, seq<bool>)
    decreases |times|
  {
    if times == [] then ([], [])
    else
      var prev := Replay(times[..|times| - 1], maxRequests, window);
      var next := Step(prev.0, times[|times| - 1], maxRequests, window);
      (next.0, prev.1 + [next.1])
  }

  ghost predicate NonDecreasing(times: seq<real>)
  {
    forall i, j :: 0 <= i < j < |times| ==> times[i] <= times[j]
  }

  /** Starting from an empty deque: the deque never holds more than
      `maxRequests` entries (none when it is not positive, so every call is
      refused), and with a non-decreasing clock it stays sorted and inside
      the window of the latest call. */
  lemma {:induction false} ReplayInvariant(times: seq<real>, maxRequests: int, window: real)
    requires NonDecreasing(times)
    requires window >= 0.0
    ensures var (rs, oks) := Replay(times, maxRequests, window);
      |oks| == |times| &&
      |rs| <= (if maxRequests < 0 then 0 else maxRequests) &&
      (maxRequests <= 0 ==> forall i :: 0 <= i < |oks| ==> !oks[i]) &&
      Sorted(rs) &&
      (times != [] ==>
         forall i :: 0 <= i < |rs| ==> (rs[i] <= times[|times| - 1] && times[|times| - 1] - rs[i] <= window))
    decreases |times|
  {
    ReplayCounts(times, maxRequests, window);
    ReplayInWindow(times, maxRequests, window);
  }

  /** The counting half of `ReplayInvariant`: it needs no clock order. */
  lemma {:induction false} ReplayCounts(times: seq<real>, maxRequests: int, window: real)
    ensures var (rs, oks) := Replay(times, maxRequests, window);
      |oks| == |times| &&
      |rs| <= (if maxRequests < 0 then 0 else maxRequests) &&
      (maxRequests <= 0 ==> forall i :: 0 <= i < |oks| ==> !oks[i])
    decreases |times|
  {
    if times != [] {
      var init := times[..|times| - 1];
      var now := times[|times| - 1];
      ReplayCounts(init, maxRequests, window);
      var prev := Replay(init, maxRequests, window);
      var kept := Evict(prev.0, now, window);
      assert |kept| <= |prev.0|;
      assert forall i :: 0 <= i < |prev.1| ==> (prev.1 + [|kept| < maxRequests])[i] == prev.1[i];
    }
  }

  /** The ordering half of `ReplayInvariant`. */
  lemma {:induction false} ReplayInWindow(times: seq<real>, maxRequests: int, window: real)
    requires NonDecreasing(times)
    requires window >= 0.0
    ensures var rs := Replay(times, maxRequests, window).0;
      Sorted(rs) &&
      (times != [] ==>
         forall i :: 0 <= i < |rs| ==> (rs[i] <= times[|times| - 1] && times[|times| - 1] - rs[i] <= window))
    decreases |times|
  {
    if times != [] {
      var init := times[..|times| - 1];
      var now := times[|times| - 1];
      assert NonDecreasing(init) by {
        forall i, j | 0 <= i < j < |init| ensures init[i] <= init[j] {
          assert init[i] == times[i] && init[j] == times[j];
        }
      }
      ReplayInWindow(init, maxRequests, window);
      var prev := Replay(init, maxRequests, window).0;
      if init != [] {
        assert init[|init| - 1] == times[|times| - 2] <= now;
      }
      assert forall i :: 0 <= i < |prev| ==> prev[i] <= now;
      StepKeepsWindow(prev, now, maxRequests, window);
    }
  }
}
