/** The sliding-window rate limiter (`RateLimiter` in main.py) and the clock it
    waits on. Wall-clock time is an injected `Clock`; `time.sleep(w)` is
    modelled as "the clock advances by at least `w`". */
module RateLimiting {

  /** The injected time source: `time.time()` reads `now`, `time.sleep`
      advances it. */
  class Clock {
    var now: real

    constructor (start: real)
      ensures now == start
    {
      now := start;
    }

    /** `time.sleep(w)`: when control returns, at least `w` seconds have
        passed. */
    method Sleep(w: real)
      requires w >= 0.0
      modifies this
      ensures now >= old(now) + w
    {
      now := now + w;
    }
  }

  /** Length of the rolling window, in seconds. */
  const Window: real := 60.0
  /** Extra second added to every window wait. */
  const SafetyBuffer: real := 1.0

  ghost predicate Sorted(times: seq<real>) {
    forall i, j :: 0 <= i < j < |times| ==> times[i] <= times[j]
  }

  /** The timestamps still younger than the window at `now`, in their order:
      the list comprehension that prunes `request_times`. */
  function Prune(times: seq<real>, now: real): (r: seq<real>)
    ensures |r| <= |times|
    ensures forall t :: t in r <==> t in times && now - t < Window
  {
    if times == [] then []
    else (if now - times[0] < Window then [times[0]] else []) + Prune(times[1..], now)
  }

  /** Python's `min` of a non-empty list. */
  function Min(times: seq<real>): (m: real)
    requires times != []
    ensures m in times
    ensures forall t :: t in times ==> m <= t
  {
    if |times| == 1 then times[0]
    else
      var rest := Min(times[1..]);
      assert forall t :: t in times ==> t == times[0] || t in times[1..];
      if times[0] <= rest then times[0] else rest
  }

  /** The wait before a request when the window is full: after it, the oldest
      recorded request is `Window + SafetyBuffer` seconds in the past, and it
      is positive whenever every entry is still inside the window. */
  function WindowWait(times: seq<real>, now: real): (w: real)
    requires times != []
    ensures now + w == Min(times) + Window + SafetyBuffer
    ensures (forall t :: t in times ==> now - t < Window) ==> w > SafetyBuffer
  {
    Window - (now - Min(times)) + SafetyBuffer
  }

  function Last(times: seq<real>): real
    requires times != []
  {
    times[|times| - 1]
  }

  /** The number of recorded requests that lie within the window of `now`. */
  function RecentCount(times: seq<real>, now: real): nat {
    |Prune(times, now)|
  }

  lemma {:induction false} PruneAppend(times: seq<real>, x: real, now: real)
    ensures Prune(times + [x], now) == Prune(times, now) + (if now - x < Window then [x] else [])
  {
    var tail := if now - x < Window then [x] else [];
    if times == [] {
      assert times + [x] == [x];
      assert [x][1..] == [];
    } else {
      var head := if now - times[0] < Window then [times[0]] else [];
      assert (times + [x])[1..] == times[1..] + [x];
      assert Prune(times + [x], now) == head + Prune(times[1..] + [x], now);
      PruneAppend(times[1..], x, now);
      assert head + (Prune(times[1..], now) + tail) == (head + Prune(times[1..], now)) + tail;
    }
  }

  /** Later instants see no more recent requests than earlier ones. */
  lemma {:induction false} PruneShrinks(times: seq<real>, earlier: real, later: real)
    requires earlier <= later
    ensures |Prune(times, later)| <= |Prune(times, earlier)|
  {
    if times != [] {
      PruneShrinks(times[1..], earlier, later);
    }
  }

  /** An entry at least a window old is pruned, so the count drops. */
  lemma {:induction false} PruneDropsOld(times: seq<real>, old_: real, now: real)
    requires old_ in times && now - old_ >= Window
    ensures |Prune(times, now)| < |times|
  {
    if times[0] != old_ {
      PruneDropsOld(times[1..], old_, now);
    }
  }

  /** Pruning a list whose entries are all still recent changes nothing. */
  lemma {:induction false} PruneKeepsRecent(times: seq<real>, now: real)
    requires forall t :: t in times ==> now - t < Window
    ensures Prune(times, now) == times
  {
    if times != [] {
      assert times[0] in times;
      assert forall t :: t in times[1..] ==> t in times;
      PruneKeepsRecent(times[1..], now);
      assert Prune(times, now) == [times[0]] + Prune(times[1..], now);
      assert times == [times[0]] + times[1..];
    }
  }

  lemma {:induction false} PruneSorted(times: seq<real>, now: real)
    requires Sorted(times)
    ensures Sorted(Prune(times, now))
  {
    if times != [] {
      PruneSorted(times[1..], now);
      var rest := Prune(times[1..], now);
      var r := Prune(times, now);
      if now - times[0] < Window {
        assert r == [times[0]] + rest;
        forall i, j | 0 <= i < j < |r| ensures r[i] <= r[j] {
          assert r[j] == rest[j - 1] && rest[j - 1] in times[1..];
          if i > 0 {
            assert r[i] == rest[i - 1];
          }
        }
      }
    }
  }

  /** Recording `recorded` after pruning at `start` keeps the window bound,
      provided a full window was first waited out. */
  lemma {:induction false} RecordKeepsBound(before: seq<real>, start: real, recorded: real, rpm: int)
    requires rpm > 0
    requires before != [] ==> RecentCount(before, Last(before)) <= rpm
    requires forall t :: t in before ==> t <= start
    requires start <= recorded
    requires var pruned := Prune(before, start);
             |pruned| >= rpm ==> pruned != [] && recorded - Min(pruned) >= Window
    ensures RecentCount(Prune(before, start) + [recorded], recorded) <= rpm
  {
    var pruned := Prune(before, start);
    if before != [] {
      assert Last(before) in before;
      PruneShrinks(before, Last(before), start);
    }
    assert |pruned| <= rpm;
    PruneAppend(pruned, recorded, recorded);
    if |pruned| >= rpm {
      PruneDropsOld(pruned, Min(pruned), recorded);
    }
  }

  /** Appending a time no earlier than every entry keeps the list sorted. */
  lemma {:induction false} RecordKeepsSorted(times: seq<real>, recorded: real)
    requires Sorted(times)
    requires forall t :: t in times ==> t <= recorded
    ensures Sorted(times + [recorded])
  {
    var r := times + [recorded];
    forall i, j | 0 <= i < j < |r| ensures r[i] <= r[j] {
      assert r[i] == times[i];
      if j == |times| {
        assert times[i] in times;
      } else {
        assert r[j] == times[j];
      }
    }
  }

  class RateLimiter {
    const requestsPerMinute: int
    /** `60 / requests_per_minute`: the spacing enforced between requests. */
    const minInterval: real
    /** When the recent requests were recorded, oldest first. */
    var requestTimes: seq<real>

    /** The window bound: at the newest recorded request, at most
        `requestsPerMinute` recorded requests lie within the window. */
    ghost predicate Valid()
      reads this
    {
      && requestsPerMinute > 0
      && Sorted(requestTimes)
      && (requestTimes != [] ==> RecentCount(requestTimes, Last(requestTimes)) <= requestsPerMinute)
    }

    /** No recorded request lies in the future of `now`. */
    ghost predicate NotAfter(now: real)
      reads this
    {
      forall t :: t in requestTimes ==> t <= now
    }

    constructor (rpm: int)
      requires rpm > 0
      ensures Valid() && requestsPerMinute == rpm && requestTimes == []
      ensures minInterval == Window / rpm as real
    {
      requestsPerMinute := rpm;
      minInterval := Window / rpm as real;
      requestTimes := [];
    }

    /** `wait_if_needed`: prune to the window, wait for the oldest entry to
        leave a full window, record the request, then keep the minimum spacing
        from the previous request. The recorded time is read before that last
        sleep, as in the source. */
    method WaitIfNeeded(clock: Clock)
      requires Valid() && NotAfter(clock.now)
      modifies this, clock
      ensures Valid() && NotAfter(clock.now)
      ensures clock.now >= old(clock.now)
      ensures var pruned := Prune(old(requestTimes), old(clock.now));
              && |requestTimes| == |pruned| + 1
              && requestTimes[..|pruned|] == pruned
              && old(clock.now) <= Last(requestTimes) <= clock.now
              && (|pruned| < requestsPerMinute ==> Last(requestTimes) == old(clock.now))
              && (|pruned| >= requestsPerMinute ==>
                    Last(requestTimes) >= old(clock.now) + WindowWait(pruned, old(clock.now)))
              && (pruned != [] ==> clock.now >= Last(pruned) + minInterval)
      ensures RecentCount(requestTimes, Last(requestTimes)) <= requestsPerMinute
    {
      var currentTime := clock.now;
      ghost var start := currentTime;
      ghost var before := requestTimes;
      requestTimes := Prune(requestTimes, currentTime);
      PruneSorted(before, start);
      if |requestTimes| >= requestsPerMinute {
        var waitTime := WindowWait(requestTimes, currentTime);
        if waitTime > 0.0 {
          clock.Sleep(waitTime);
          currentTime := clock.now;
        }
      }
      RecordKeepsBound(before, start, currentTime, requestsPerMinute);
      RecordKeepsSorted(requestTimes, currentTime);
      requestTimes := requestTimes + [currentTime];
      if |requestTimes| > 1 {
        var timeSinceLast := currentTime - requestTimes[|requestTimes| - 2];
        if timeSinceLast < minInterval {
          clock.Sleep(minInterval - timeSinceLast);
        }
      }
    }
  }
}
