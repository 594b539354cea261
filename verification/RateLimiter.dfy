/** The sliding-window rate limiter: a queue of recent calls per key, trimmed on every check,
    against the full history of the calls it let through. */
module RateLimiter {
  import opened Json

  /** popleft while the oldest call is out of the window. */
  function DropExpired(hits: seq<real>, cutoff: real): seq<real> {
    if hits != [] && hits[0] <= cutoff then DropExpired(hits[1..], cutoff) else hits
  }

  function RetryAfter(oldest: real, window: real, now: real): real {
    if oldest + window - now < 0.1 then 0.1 else oldest + window - now
  }

  /** A key's queue after a check under a positive limit, and the answer: None if allowed. */
  function CheckQueue(hits: seq<real>, limit: int, window: real, now: real): (seq<real>, Option<real>)
    requires limit > 0
  {
    var trimmed := DropExpired(hits, now - window);
    if |trimmed| >= limit then (trimmed, Some(RetryAfter(trimmed[0], window, now)))
    else (trimmed + [now], None)
  }

  function Queue(hits: map<string, seq<real>>, key: string): seq<real> {
    if key in hits then hits[key] else []
  }

  class RateLimiter {
    var hits: map<string, seq<real>>

    constructor ()
      ensures hits == map[]
    {
      hits := map[];
    }

    /** check. `now` is the clock read before the lock was taken. */
    method Check(key: string, limit: Option<int>, window: real, now: real) returns (retryAfter: Option<real>)
      modifies this
      ensures limit.None? || limit.value <= 0 ==> retryAfter == None && hits == old(hits)
      ensures limit.Some? && limit.value > 0 ==>
        var (queue, answer) := CheckQueue(Queue(old(hits), key), limit.value, window, now);
        retryAfter == answer && hits == old(hits)[key := queue]
    {
      if limit.None? || limit.value <= 0 {
        return None;
      }
      if key !in hits {
        hits := hits[key := []];
      }
      var queue := hits[key];
      var cutoff := now - window;
      while queue != [] && queue[0] <= cutoff
        invariant DropExpired(queue, cutoff) == DropExpired(Queue(old(hits), key), cutoff)
        decreases |queue|
      {
        queue := queue[1..];
      }
      if |queue| >= limit.value {
        hits := hits[key := queue];
        return Some(RetryAfter(queue[0], window, now));
      }
      hits := hits[key := queue + [now]];
      return None;
    }
  }

  // ----- one key: the queue against the history -----

  /** The queue and every call ever allowed. */
  datatype Past = Past(queue: seq<real>, allowed: seq<real>)

  function CheckPast(p: Past, limit: int, window: real, now: real): Past
    requires limit > 0
  {
    var (queue, answer) := CheckQueue(p.queue, limit, window, now);
    Past(queue, if answer.None? then p.allowed + [now] else p.allowed)
  }

  function RunKey(times: seq<real>, limit: int, window: real): Past
    requires limit > 0
  {
    if times == [] then Past([], [])
    else CheckPast(RunKey(times[..|times| - 1], limit, window), limit, window, times[|times| - 1])
  }

  lemma RunKeySnoc(times: seq<real>, now: real, limit: int, window: real)
    requires limit > 0
    ensures RunKey(times + [now], limit, window) == CheckPast(RunKey(times, limit, window), limit, window, now)
  {
    assert (times + [now])[..|times|] == times;
  }

  /** A check with the limit that stood then; limits may change from check to check. */
  datatype Timed = Timed(now: real, limit: int)

  predicate Limited(calls: seq<Timed>) {
    forall i :: 0 <= i < |calls| ==> calls[i].limit > 0
  }

  function ReadingsOf(calls: seq<Timed>): (times: seq<real>)
    ensures |times| == |calls| && forall i :: 0 <= i < |calls| ==> times[i] == calls[i].now
  {
    seq(|calls|, i requires 0 <= i < |calls| => calls[i].now)
  }

  function RunCalls(calls: seq<Timed>, window: real): Past
    requires Limited(calls)
  {
    if calls == [] then Past([], [])
    else
      var last := calls[|calls| - 1];
      CheckPast(RunCalls(calls[..|calls| - 1], window), last.limit, window, last.now)
  }

  lemma RunCallsSnoc(calls: seq<Timed>, c: Timed, window: real)
    requires Limited(calls) && c.limit > 0
    ensures Limited(calls + [c]) && RunCalls(calls + [c], window) == CheckPast(RunCalls(calls, window), c.limit, window, c.now)
  {
    assert (calls + [c])[..|calls|] == calls;
  }

  function WithLimit(times: seq<real>, limit: int): (calls: seq<Timed>)
    ensures |calls| == |times| && forall i :: 0 <= i < |times| ==> calls[i] == Timed(times[i], limit)
  {
    seq(|times|, i requires 0 <= i < |times| => Timed(times[i], limit))
  }

  lemma {:induction false} RunKeyIsRunCalls(times: seq<real>, limit: int, window: real)
    requires limit > 0
    ensures Limited(WithLimit(times, limit)) && RunKey(times, limit, window) == RunCalls(WithLimit(times, limit), window)
    ensures ReadingsOf(WithLimit(times, limit)) == times
  {
    if times != [] {
      var n := |times| - 1;
      RunKeyIsRunCalls(times[..n], limit, window);
      assert WithLimit(times, limit)[..n] == WithLimit(times[..n], limit);
    }
  }

  predicate Ordered(times: seq<real>) {
    forall i, j :: 0 <= i <= j < |times| ==> times[i] <= times[j]
  }

  /** The times later than `cutoff`. */
  function After(times: seq<real>, cutoff: real): (r: seq<real>)
    ensures |r| <= |times|
    ensures forall t | t in r :: t in times && t > cutoff
  {
    if times == [] then []
    else
      var n := |times| - 1;
      After(times[..n], cutoff) + if times[n] > cutoff then [times[n]] else []
  }

  /** The times in (from, to]. */
  function Within(times: seq<real>, from: real, upto: real): seq<real> {
    if times == [] then []
    else
      var n := |times| - 1;
      Within(times[..n], from, upto) + if from < times[n] <= upto then [times[n]] else []
  }

  lemma {:induction false} DropExpiredIsAfter(times: seq<real>, cutoff: real)
    requires Ordered(times)
    ensures DropExpired(times, cutoff) == After(times, cutoff)
    decreases |times|
  {
    if times != [] && times[0] <= cutoff {
      DropExpiredIsAfter(times[1..], cutoff);
      AfterFirst(times, cutoff);
    } else {
      AfterAll(times, cutoff);
    }
  }

  lemma {:induction false} AfterFirst(times: seq<real>, cutoff: real)
    requires times != [] && times[0] <= cutoff
    ensures After(times, cutoff) == After(times[1..], cutoff)
    decreases |times|
  {
    var n := |times| - 1;
    if n > 0 {
      AfterFirst(times[..n], cutoff);
      assert times[..n][1..] == times[1..][..n - 1];
      assert times[1..][n - 1] == times[n];
    }
  }

  lemma {:induction false} AfterAll(times: seq<real>, cutoff: real)
    requires forall i :: 0 <= i < |times| ==> times[i] > cutoff
    ensures After(times, cutoff) == times
  {
    if times != [] {
      var n := |times| - 1;
      AfterAll(times[..n], cutoff);
      assert times == times[..n] + [times[n]];
    }
  }

  lemma AfterSnoc(times: seq<real>, t: real, cutoff: real)
    ensures After(times + [t], cutoff) == After(times, cutoff) + if t > cutoff then [t] else []
  {
  }

  lemma {:induction false} AfterAfter(times: seq<real>, early: real, late: real)
    requires early <= late
    ensures After(After(times, early), late) == After(times, late)
    ensures |After(times, late)| <= |After(times, early)|
  {
    if times != [] {
      var n := |times| - 1;
      AfterAfter(times[..n], early, late);
      if times[n] > early {
        AfterSnoc(After(times[..n], early), times[n], late);
      } else {
        assert After(times, early) == After(times[..n], early) && After(times, late) == After(times[..n], late);
      }
    }
  }

  lemma {:induction false} AfterOrdered(times: seq<real>, cutoff: real)
    requires Ordered(times)
    ensures Ordered(After(times, cutoff))
  {
    if times != [] {
      var n := |times| - 1;
      AfterOrdered(times[..n], cutoff);
      var r := After(times[..n], cutoff);
      forall i | 0 <= i < |r|
        ensures r[i] <= times[n]
      {
        assert r[i] in times[..n];
      }
    }
  }

  predicate NoneLater(times: seq<real>, now: real) {
    forall i :: 0 <= i < |times| ==> times[i] <= now
  }

  /** The queue holds exactly the allowed calls in the window of the check at `last`. */
  predicate Exact(p: Past, window: real, last: real) {
    Ordered(p.allowed) && NoneLater(p.allowed, last) && p.queue == After(p.allowed, last - window)
  }

  lemma CutAgain(times: seq<real>, early: real, late: real)
    requires Ordered(times) && early <= late
    ensures DropExpired(After(times, early), late) == After(times, late)
  {
    AfterOrdered(times, early);
    DropExpiredIsAfter(After(times, early), late);
    AfterAfter(times, early, late);
  }

  lemma StillNoneLater(times: seq<real>, last: real, now: real)
    requires NoneLater(times, last) && last <= now
    ensures NoneLater(times, now)
  {
  }

  lemma Trimmed(p: Past, window: real, last: real, now: real)
    requires Exact(p, window, last) && last <= now
    ensures DropExpired(p.queue, now - window) == After(p.allowed, now - window)
    ensures NoneLater(p.allowed, now)
  {
    CutAgain(p.allowed, last - window, now - window);
    StillNoneLater(p.allowed, last, now);
  }

  lemma ExactStep(p: Past, limit: int, window: real, last: real, now: real)
    requires limit > 0 && window > 0.0 && Exact(p, window, last) && last <= now
    ensures Exact(CheckPast(p, limit, window, now), window, now)
  {
    Trimmed(p, window, last, now);
    var added := CheckedPast(p, limit, window, now);
    AfterAdded(p.allowed, added, now, now - window);
    OrderedAdded(p.allowed, added, now);
  }

  lemma OrderedAdded(times: seq<real>, added: seq<real>, now: real)
    requires Ordered(times) && NoneLater(times, now) && (added == [] || added == [now])
    ensures Ordered(times + added) && NoneLater(times + added, now)
  {
  }

  /** A check adds its reading to queue and history, or to neither. */
  lemma CheckedPast(p: Past, limit: int, window: real, now: real) returns (added: seq<real>)
    requires limit > 0
    ensures added == [] || added == [now]
    ensures CheckPast(p, limit, window, now) == Past(DropExpired(p.queue, now - window) + added, p.allowed + added)
  {
    added := if |DropExpired(p.queue, now - window)| >= limit then [] else [now];
    assert p.allowed + [] == p.allowed && DropExpired(p.queue, now - window) + [] == DropExpired(p.queue, now - window);
  }

  lemma AfterAdded(times: seq<real>, added: seq<real>, now: real, cutoff: real)
    requires added == [] || added == [now]
    ensures After(times + added, cutoff) == After(times, cutoff) + if now > cutoff then added else []
  {
    if added == [] {
      assert times + [] == times && After(times, cutoff) + [] == After(times, cutoff);
    } else {
      AfterSnoc(times, now, cutoff);
    }
  }

  function Latest(times: seq<real>, otherwise: real): real {
    if times == [] then otherwise else times[|times| - 1]
  }

  /** Forgetting is exact: with a clock that does not go back, the trimmed queue is the full history
      of allowed calls, cut to the window of the latest check - also when limits change. */
  lemma {:induction false} CallsAreWindowOfHistory(calls: seq<Timed>, window: real, now: real)
    requires Limited(calls) && window > 0.0 && Ordered(ReadingsOf(calls)) && NoneLater(ReadingsOf(calls), now)
    ensures Latest(ReadingsOf(calls), now) <= now && Exact(RunCalls(calls, window), window, Latest(ReadingsOf(calls), now))
  {
    if calls != [] {
      var n := |calls| - 1;
      var c, times := calls[n], ReadingsOf(calls[..n]);
      assert ReadingsOf(calls)[..n] == times;
      CallsAreWindowOfHistory(calls[..n], window, c.now);
      ExactStep(RunCalls(calls[..n], window), c.limit, window, Latest(times, c.now), c.now);
    }
  }

  /** What a check sees: the allowed calls in the window that ends now. */
  lemma CallsSeeWindow(calls: seq<Timed>, now: real, window: real)
    requires Limited(calls) && window > 0.0 && Ordered(ReadingsOf(calls)) && NoneLater(ReadingsOf(calls), now)
    ensures var p := RunCalls(calls, window);
      DropExpired(p.queue, now - window) == After(p.allowed, now - window) && NoneLater(p.allowed, now)
  {
    CallsAreWindowOfHistory(calls, window, now);
    Trimmed(RunCalls(calls, window), window, Latest(ReadingsOf(calls), now), now);
  }

  lemma QueueIsWindowOfHistory(times: seq<real>, limit: int, window: real, now: real)
    requires limit > 0 && window > 0.0 && Ordered(times) && NoneLater(times, now)
    ensures Latest(times, now) <= now && Exact(RunKey(times, limit, window), window, Latest(times, now))
  {
    RunKeyIsRunCalls(times, limit, window);
    CallsAreWindowOfHistory(WithLimit(times, limit), window, now);
  }

  lemma CheckSeesWindow(times: seq<real>, now: real, limit: int, window: real)
    requires limit > 0 && window > 0.0 && Ordered(times) && NoneLater(times, now)
    ensures var p := RunKey(times, limit, window);
      DropExpired(p.queue, now - window) == After(p.allowed, now - window) && NoneLater(p.allowed, now)
  {
    RunKeyIsRunCalls(times, limit, window);
    CallsSeeWindow(WithLimit(times, limit), now, window);
  }

  // ----- the bound -----

  lemma {:induction false} WithinIsAfter(times: seq<real>, from: real, upto: real)
    requires NoneLater(times, upto)
    ensures Within(times, from, upto) == After(times, from)
  {
    if times != [] {
      WithinIsAfter(times[..|times| - 1], from, upto);
    }
  }

  lemma WithinSnoc(times: seq<real>, t: real, from: real, upto: real)
    ensures Within(times + [t], from, upto) == Within(times, from, upto) + if from < t <= upto then [t] else []
  {
  }

  /** Readings may run ahead of readings that come later in the order of the lock, by at most d. */
  predicate Skewed(times: seq<real>, d: real) {
    forall i, j :: 0 <= i < j < |times| ==> times[i] <= times[j] + d
  }

  lemma {:induction false} DropKeepsAfter(hits: seq<real>, early: real, late: real)
    requires early <= late
    ensures After(DropExpired(hits, early), late) == After(hits, late)
    decreases |hits|
  {
    if hits != [] && hits[0] <= early {
      DropKeepsAfter(hits[1..], early, late);
      AfterFirst(hits, late);
    }
  }

  lemma AgreeStep(p: Past, limit: int, window: real, now: real, cutoff: real)
    requires limit > 0 && now - window <= cutoff && After(p.queue, cutoff) == After(p.allowed, cutoff)
    ensures var q := CheckPast(p, limit, window, now); After(q.queue, cutoff) == After(q.allowed, cutoff)
  {
    DropKeepsAfter(p.queue, now - window, cutoff);
    var added := CheckedPast(p, limit, window, now);
    AfterAdded(DropExpired(p.queue, now - window), added, now, cutoff);
    AfterAdded(p.allowed, added, now, cutoff);
  }

  /** In whatever order the clock was read: above the latest reading minus the window, queue and history agree. */
  lemma {:induction false} QueueAgreesAbove(calls: seq<Timed>, window: real, top: real)
    requires Limited(calls) && NoneLater(ReadingsOf(calls), top)
    ensures var p := RunCalls(calls, window); After(p.queue, top - window) == After(p.allowed, top - window)
  {
    if calls != [] {
      var n := |calls| - 1;
      assert ReadingsOf(calls)[n] == calls[n].now;
      assert forall i :: 0 <= i < n ==> ReadingsOf(calls[..n])[i] == ReadingsOf(calls)[i];
      QueueAgreesAbove(calls[..n], window, top);
      AgreeStep(RunCalls(calls[..n], window), calls[n].limit, window, calls[n].now, top - window);
    }
  }

  lemma {:induction false} WithinAtMostAfter(times: seq<real>, from: real, upto: real)
    ensures |Within(times, from, upto)| <= |After(times, from)|
  {
    if times != [] {
      WithinAtMostAfter(times[..|times| - 1], from, upto);
    }
  }

  lemma {:induction false} WithinShrinks(times: seq<real>, early: real, late: real, upto: real)
    requires early <= late
    ensures |Within(times, late, upto)| <= |Within(times, early, upto)|
  {
    if times != [] {
      WithinShrinks(times[..|times| - 1], early, late, upto);
    }
  }

  /** Readings that run ahead by at most d shorten the guarded window by d: no window of length window - d,
      wherever it ends, holds more allowed calls than the highest limit that stood. */
  lemma {:induction false} SkewBoundCalls(calls: seq<Timed>, most: int, window: real, d: real, from: real, t: real)
    requires Limited(calls) && d >= 0.0 && Skewed(ReadingsOf(calls), d) && from == t - (window - d)
    requires most >= 0 && forall i :: 0 <= i < |calls| ==> calls[i].limit <= most
    ensures |Within(RunCalls(calls, window).allowed, from, t)| <= most
  {
    if calls != [] {
      var n := |calls| - 1;
      var c := calls[n];
      ReadingsSkewed(calls, d);
      SkewBoundCalls(calls[..n], most, window, d, from, t);
      QueueAgreesAbove(calls[..n], window, c.now + d);
      SkewStep(RunCalls(calls[..n], window), c.limit, most, window, d, c.now, from, t);
    }
  }

  lemma ReadingsSkewed(calls: seq<Timed>, d: real)
    requires calls != [] && d >= 0.0 && Skewed(ReadingsOf(calls), d)
    ensures var n := |calls| - 1; Skewed(ReadingsOf(calls[..n]), d) && NoneLater(ReadingsOf(calls[..n]), calls[n].now + d)
  {
    var n := |calls| - 1;
    assert ReadingsOf(calls)[n] == calls[n].now;
    assert forall i :: 0 <= i < n ==> ReadingsOf(calls[..n])[i] == ReadingsOf(calls)[i];
  }

  lemma SkewStep(p: Past, limit: int, most: int, window: real, d: real, now: real, from: real, t: real)
    requires 0 < limit <= most && d >= 0.0 && from == t - (window - d) && |Within(p.allowed, from, t)| <= most
    requires After(p.queue, now + d - window) == After(p.allowed, now + d - window)
    ensures |Within(CheckPast(p, limit, window, now).allowed, from, t)| <= most
  {
    WithinSnoc(p.allowed, now, from, t);
    if now <= t && |DropExpired(p.queue, now - window)| < limit {
      FewInWindow(p, limit, now - window, now + d - window, from, t);
    }
  }

  /** The number of calls allowed in the window of the given length that ends at t. */
  function AllowedIn(times: seq<real>, limit: int, window: real, length: real, t: real): nat
    requires limit > 0
  {
    |Within(RunKey(times, limit, window).allowed, t - length, t)|
  }

  /** The same under a fixed limit. */
  lemma SkewBound(times: seq<real>, limit: int, window: real, d: real, t: real)
    requires limit > 0 && d >= 0.0 && Skewed(times, d)
    ensures AllowedIn(times, limit, window, window - d, t) <= limit
  {
    RunKeyIsRunCalls(times, limit, window);
    SkewBoundCalls(WithLimit(times, limit), limit, window, d, t - (window - d), t);
  }

  lemma FewInWindow(p: Past, limit: int, early: real, cutoff: real, from: real, t: real)
    requires early <= cutoff <= from && |DropExpired(p.queue, early)| < limit
    requires After(p.queue, cutoff) == After(p.allowed, cutoff)
    ensures |Within(p.allowed, from, t)| < limit
  {
    DropKeepsAfter(p.queue, early, cutoff);
    AfterAfter(p.allowed, cutoff, from);
    WithinAtMostAfter(p.allowed, from, t);
  }

  /** With readings in the order of the lock, no window of full length holds more than `limit` allowed calls. */
  lemma WindowBound(times: seq<real>, limit: int, window: real, t: real)
    requires limit > 0 && Ordered(times)
    ensures AllowedIn(times, limit, window, window, t) <= limit
  {
    assert window - 0.0 == window;
    SkewBound(times, limit, window, 0.0, t);
  }

  /** A call is refused exactly if the window that ends with it already holds `limit` allowed calls. */
  lemma RefusedIffWindowFull(times: seq<real>, now: real, limit: int, window: real)
    requires limit > 0 && window > 0.0 && Ordered(times) && NoneLater(times, now)
    ensures var p := RunKey(times, limit, window);
      CheckQueue(p.queue, limit, window, now).1.Some? <==> |Within(p.allowed, now - window, now)| == limit
  {
    CheckSeesWindow(times, now, limit, window);
    WithinIsAfter(RunKey(times, limit, window).allowed, now - window, now);
    WindowBound(times, limit, window, now);
  }

  /** The same for limits that change: a check is admitted exactly if fewer calls than its limit were allowed in the
      window that ends with it. */
  lemma AdmittedIffRoom(calls: seq<Timed>, c: Timed, window: real, from: real)
    requires Limited(calls) && c.limit > 0 && window > 0.0 && from == c.now - window
    requires Ordered(ReadingsOf(calls)) && NoneLater(ReadingsOf(calls), c.now)
    ensures var p := RunCalls(calls, window);
      CheckQueue(p.queue, c.limit, window, c.now).1.None? <==> |Within(p.allowed, from, c.now)| < c.limit
  {
    CallsSeeWindow(calls, c.now, window);
    WithinIsAfter(RunCalls(calls, window).allowed, from, c.now);
  }

  // ----- the promised waiting time -----

  /** Cutting an ordered row of times drops something exactly if the first one is too old. */
  lemma CutDropsFirst(times: seq<real>, cutoff: real)
    requires Ordered(times) && times != []
    ensures |After(times, cutoff)| < |times| <==> times[0] <= cutoff
  {
    if times[0] <= cutoff {
      AfterFirst(times, cutoff);
    } else {
      AfterAll(times, cutoff);
    }
  }

  /** A refused caller comes back later, after any number of other refused checks but with no call allowed
      in between: the call is admitted exactly if the oldest call of the refusing window has left it. So
      waiting for the reported time is enough, and less is too little (beyond the minimum of 0.1 seconds). */
  lemma RetryAfterIsExact(times: seq<real>, now: real, between: seq<real>, later: real, limit: int, window: real)
    requires limit > 0 && window > 0.0
    requires Ordered(times) && NoneLater(times, now)
    requires Ordered(times + [now] + between) && NoneLater(times + [now] + between, later)
    requires CheckQueue(RunKey(times, limit, window).queue, limit, window, now).1.Some?
    requires RunKey(times + [now] + between, limit, window).allowed == RunKey(times, limit, window).allowed
    ensures var wait := CheckQueue(RunKey(times, limit, window).queue, limit, window, now).1.value;
      var oldest := After(RunKey(times, limit, window).allowed, now - window);
      var admitted := CheckQueue(RunKey(times + [now] + between, limit, window).queue, limit, window, later).1.None?;
      && oldest != []
      && (admitted <==> oldest[0] + window <= later)
      && (later >= now + wait ==> admitted)
      && (wait > 0.1 && later < now + wait ==> !admitted)
  {
    RefusalFacts(times, now, limit, window);
    CheckSeesWindow(times + [now] + between, later, limit, window);
    assert (times + [now] + between)[|times|] == now;
    ComeBack(RunKey(times, limit, window).allowed, RunKey(times + [now] + between, limit, window), limit, window, now, later);
  }

  lemma RefusalFacts(times: seq<real>, now: real, limit: int, window: real)
    requires limit > 0 && window > 0.0 && Ordered(times) && NoneLater(times, now)
    requires CheckQueue(RunKey(times, limit, window).queue, limit, window, now).1.Some?
    ensures var p := RunKey(times, limit, window);
      var seen := After(p.allowed, now - window);
      && Ordered(seen) && |seen| == limit
      && CheckQueue(p.queue, limit, window, now).1.value == RetryAfter(seen[0], window, now)
  {
    CheckSeesWindow(times, now, limit, window);
    QueueIsWindowOfHistory(times, limit, window, now);
    AfterOrdered(RunKey(times, limit, window).allowed, now - window);
    QueueWithinLimit(times, limit, window);
    DropExpiredShrinks(RunKey(times, limit, window).queue, now - window);
  }

  lemma ComeBack(allowed: seq<real>, p: Past, limit: int, window: real, now: real, later: real)
    requires limit > 0 && now <= later
    requires DropExpired(p.queue, later - window) == After(allowed, later - window)
    requires Ordered(After(allowed, now - window)) && |After(allowed, now - window)| == limit
    ensures CheckQueue(p.queue, limit, window, later).1.None? <==> After(allowed, now - window)[0] + window <= later
  {
    LaterCut(allowed, now - window, later - window);
  }

  lemma LaterCut(times: seq<real>, early: real, late: real)
    requires early <= late && Ordered(After(times, early)) && After(times, early) != []
    ensures |After(times, late)| < |After(times, early)| <==> After(times, early)[0] <= late
  {
    AfterAfter(times, early, late);
    CutDropsFirst(After(times, early), late);
  }

  lemma {:induction false} DropExpiredShrinks(hits: seq<real>, cutoff: real)
    ensures |DropExpired(hits, cutoff)| <= |hits|
    decreases |hits|
  {
    if hits != [] && hits[0] <= cutoff {
      DropExpiredShrinks(hits[1..], cutoff);
    }
  }

  /** A key's queue never outgrows its limit, so a refusal finds exactly `limit` calls. */
  lemma {:induction false} QueueWithinLimit(times: seq<real>, limit: int, window: real)
    requires limit > 0
    ensures |RunKey(times, limit, window).queue| <= limit
  {
    if times != [] {
      var n := |times| - 1;
      QueueWithinLimit(times[..n], limit, window);
      DropExpiredShrinks(RunKey(times[..n], limit, window).queue, times[n] - window);
    }
  }

  // ----- the exact bound when clock readings come out of order -----

  predicate Spread(times: seq<real>, window: real) {
    forall i, j :: 0 <= i < j < |times| ==> times[i] + window <= times[j]
  }

  predicate SingleInv(p: Past, window: real) {
    Spread(p.allowed, window) && p.queue == if p.allowed == [] then [] else [p.allowed[|p.allowed| - 1]]
  }

  lemma SingleStep(p: Past, window: real, now: real)
    requires window > 0.0 && SingleInv(p, window)
    ensures SingleInv(CheckPast(p, 1, window, now), window)
  {
    if p.allowed != [] {
      var last := p.queue[0];
      assert DropExpired(p.queue, now - window) == if last <= now - window then [] else p.queue;
    }
  }

  /** Under a limit of one the queue is the last allowed call, so skew does not matter. */
  lemma {:induction false} SingleRun(times: seq<real>, window: real)
    requires window > 0.0
    ensures SingleInv(RunKey(times, 1, window), window)
  {
    if times != [] {
      var n := |times| - 1;
      SingleRun(times[..n], window);
      SingleStep(RunKey(times[..n], 1, window), window, times[n]);
    }
  }

  lemma {:induction false} SpreadBound(times: seq<real>, window: real, t: real)
    requires window > 0.0 && Spread(times, window)
    ensures |Within(times, t - window, t)| <= 1
    ensures (forall i :: 0 <= i < |times| ==> times[i] <= t - window) ==> Within(times, t - window, t) == []
  {
    if times != [] {
      SpreadBound(times[..|times| - 1], window, t);
    }
  }

  /** The longest window that is guarded for all readings with skew at most d. */
  function Guarded(limit: int, window: real, d: real): real {
    if limit == 1 then window else if d <= window then window - d else 0.0
  }

  ghost predicate BoundHolds(limit: int, window: real, d: real, length: real)
    requires limit > 0
  {
    forall times, t :: Skewed(times, d) ==> AllowedIn(times, limit, window, length, t) <= limit
  }

  /** The clock is read before the lock is taken. Over all runs whose readings run ahead by at most d, windows of a
      length hold at most `limit` allowed calls exactly if the length is at most the window minus d (and for a
      limit of one, exactly if it is at most the window). */
  lemma SkewBoundIff(limit: int, window: real, d: real, length: real)
    requires limit > 0 && window > 0.0 && d >= 0.0
    ensures BoundHolds(limit, window, d, length) <==> length <= Guarded(limit, window, d)
  {
    if length <= Guarded(limit, window, d) {
      forall times, t | Skewed(times, d)
        ensures AllowedIn(times, limit, window, length, t) <= limit
      {
        GuardedBound(times, limit, window, d, length, t);
      }
    } else if limit == 1 {
      SingleExceeds(window, length);
    } else {
      SkewExceeds(limit, window, d, length);
    }
  }

  lemma WidestBound(times: seq<real>, limit: int, window: real, d: real, t: real)
    requires limit > 0 && window > 0.0 && d >= 0.0 && Skewed(times, d)
    ensures AllowedIn(times, limit, window, Guarded(limit, window, d), t) <= limit
  {
    if limit == 1 {
      SingleRun(times, window);
      SpreadBound(RunKey(times, limit, window).allowed, window, t);
    } else if d <= window {
      SkewBound(times, limit, window, d, t);
    } else {
      assert t - Guarded(limit, window, d) == t;
      WithinNothing(RunKey(times, limit, window).allowed, t);
    }
  }

  lemma GuardedBound(times: seq<real>, limit: int, window: real, d: real, length: real, t: real)
    requires limit > 0 && window > 0.0 && d >= 0.0 && Skewed(times, d) && length <= Guarded(limit, window, d)
    ensures AllowedIn(times, limit, window, length, t) <= limit
  {
    WidestBound(times, limit, window, d, t);
    WithinShrinks(RunKey(times, limit, window).allowed, t - Guarded(limit, window, d), t - length, t);
  }

  lemma {:induction false} WithinNothing(times: seq<real>, t: real)
    ensures Within(times, t, t) == []
  {
    if times != [] {
      WithinNothing(times[..|times| - 1], t);
    }
  }

  lemma SingleExceeds(window: real, length: real)
    requires 0.0 < window < length
    ensures forall d :: d >= 0.0 ==> !BoundHolds(1, window, d, length)
  {
    var times := [] + [0.0] + [window];
    RunKeySnoc([], 0.0, 1, window);
    RunKeySnoc([] + [0.0], window, 1, window);
    assert RunKey([], 1, window) == Past([], []);
    assert [0.0][1..] == [];
    assert RunKey(times, 1, window).allowed == times;
    WithinSnoc([], 0.0, window - length, window);
    WithinSnoc([] + [0.0], window, window - length, window);
    assert AllowedIn(times, 1, window, length, window) == 2;
    forall d | d >= 0.0
      ensures !BoundHolds(1, window, d, length)
    {
      assert Skewed(times, d);
    }
  }

  function Zeros(n: nat): (z: seq<real>)
    ensures |z| == n && forall i :: 0 <= i < n ==> z[i] == 0.0
  {
    if n == 0 then [] else Zeros(n - 1) + [0.0]
  }

  lemma {:induction false} ZerosRun(n: nat, limit: int, window: real)
    requires 0 < limit && n <= limit && window > 0.0
    ensures RunKey(Zeros(n), limit, window) == Past(Zeros(n), Zeros(n))
  {
    if n > 0 {
      ZerosRun(n - 1, limit, window);
      RunKeySnoc(Zeros(n - 1), 0.0, limit, window);
      NothingDropped(Zeros(n - 1), 0.0 - window);
    }
  }

  lemma NothingDropped(hits: seq<real>, cutoff: real)
    requires cutoff < 0.0 && forall i :: 0 <= i < |hits| ==> hits[i] == 0.0
    ensures DropExpired(hits, cutoff) == hits
  {
  }

  lemma {:induction false} ZerosDropped(hits: seq<real>)
    requires forall i :: 0 <= i < |hits| ==> hits[i] == 0.0
    ensures DropExpired(hits, 0.0) == []
    decreases |hits|
  {
    if hits != [] {
      ZerosDropped(hits[1..]);
    }
  }

  lemma {:induction false} ZerosWithin(n: nat, from: real, upto: real)
    requires from < 0.0 <= upto
    ensures |Within(Zeros(n), from, upto)| == n
  {
    if n > 0 {
      ZerosWithin(n - 1, from, upto);
      WithinSnoc(Zeros(n - 1), 0.0, from, upto);
    }
  }

  /** `limit` calls at 0, one that read `window` and takes the lock before one that read `late`. */
  lemma LateRun(limit: int, window: real, late: real)
    requires limit > 1 && 0.0 <= late <= window && window > 0.0
    ensures var times := Zeros(limit) + [window] + [late]; RunKey(times, limit, window).allowed == times
  {
    var zeros := Zeros(limit);
    ZerosRun(limit, limit, window);
    ZerosDropped(zeros);
    assert window - window == 0.0;
    RunKeySnoc(zeros, window, limit, window);
    assert RunKey(zeros + [window], limit, window) == Past([] + [window], zeros + [window]);
    RunKeySnoc(zeros + [window], late, limit, window);
  }

  lemma SkewExceeds(limit: int, window: real, d: real, length: real)
    requires limit > 1 && window > 0.0 && d >= 0.0 && length > Guarded(limit, window, d)
    ensures !BoundHolds(limit, window, d, length)
  {
    var late := Guarded(limit, window, d);
    var zeros, times := Zeros(limit), Zeros(limit) + [window] + [late];
    LateRun(limit, window, late);
    ZerosWithin(limit, late - length, late);
    WithinSnoc(zeros, window, late - length, late);
    WithinSnoc(zeros + [window], late, late - length, late);
    assert Skewed(times, d);
    assert AllowedIn(times, limit, window, length, late) > limit;
  }

  // ----- many keys -----

  datatype Call = Call(key: string, now: real)

  function RunAll(calls: seq<Call>, limitOf: string -> int, window: real): map<string, seq<real>> {
    if calls == [] then map[]
    else
      var hits := RunAll(calls[..|calls| - 1], limitOf, window);
      var call := calls[|calls| - 1];
      if limitOf(call.key) <= 0 then hits
      else hits[call.key := CheckQueue(Queue(hits, call.key), limitOf(call.key), window, call.now).0]
  }

  function TimesOf(calls: seq<Call>, key: string): seq<real> {
    if calls == [] then []
    else
      var n := |calls| - 1;
      TimesOf(calls[..n], key) + if calls[n].key == key then [calls[n].now] else []
  }

  /** Keys do not affect each other: each queue is that of a run of its own calls alone. */
  lemma {:induction false} KeysAreIndependent(calls: seq<Call>, limitOf: string -> int, window: real, key: string)
    requires limitOf(key) > 0
    ensures Queue(RunAll(calls, limitOf, window), key) == RunKey(TimesOf(calls, key), limitOf(key), window).queue
  {
    if calls != [] {
      var n := |calls| - 1;
      KeysAreIndependent(calls[..n], limitOf, window, key);
      if calls[n].key == key {
        RunKeySnoc(TimesOf(calls[..n], key), calls[n].now, limitOf(key), window);
      } else {
        assert TimesOf(calls, key) == TimesOf(calls[..n], key);
      }
    }
  }
}
