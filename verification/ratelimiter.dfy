/**
 * The in-memory fixed-window rate limiter: a map from an identifier to
 * its request count and the end of its window. The clock is a parameter
 * (`now`, in milliseconds); the periodic cleanup timer is modelled only as
 * a flag that `Destroy` clears.
 */
module RateLimit {
  import opened Common

  datatype Entry = Entry(count: int, resetTime: int)

  type Requests = map<string, Entry>

  /** An entry is live at `now` unless `now` is strictly after its end. */
  predicate Live(e: Entry, now: int) { now <= e.resetTime }

  // ---------------------------------------------------------------------
  // The limiter's behaviour as functions of its state

  /** One `checkLimit` call: the new state and whether it is allowed. */
  function Step(m: Requests, id: string, maxRequests: int, windowMs: int, now: int): (r: (Requests, bool))
    ensures (id !in m || !Live(m[id], now)) ==>
      r.1 && r.0 == m[id := Entry(1, now + windowMs)]
    ensures id in m && Live(m[id], now) && m[id].count >= maxRequests ==>
      !r.1 && r.0 == m
    ensures id in m && Live(m[id], now) && m[id].count < maxRequests ==>
      r.1 && r.0 == m[id := Entry(m[id].count + 1, m[id].resetTime)]
    ensures r.0.Keys == m.Keys + {id}
    ensures forall k :: k in m && k != id ==> r.0[k] == m[k]
  {
    if id !in m || !Live(m[id], now) then (m[id := Entry(1, now + windowMs)], true)
    else if m[id].count >= maxRequests then (m, false)
    else (m[id := Entry(m[id].count + 1, m[id].resetTime)], true)
  }

  /** `getRemainingRequests`. */
  function Remaining(m: Requests, id: string, maxRequests: int, now: int): (n: int)
    ensures maxRequests >= 0 ==> 0 <= n <= maxRequests || (id in m && Live(m[id], now) && m[id].count < 0)
    ensures id !in m || !Live(m[id], now) ==> n == maxRequests
    ensures id in m && Live(m[id], now) ==>
      n >= 0 && n >= maxRequests - m[id].count && (n == 0 || n == maxRequests - m[id].count)
  {
    if id !in m || !Live(m[id], now) then maxRequests
    else if maxRequests - m[id].count > 0 then maxRequests - m[id].count else 0
  }

  /** `getResetTime`: None stands for `null`. */
  function ResetTime(m: Requests, id: string, now: int): (t: Option<int>)
    ensures t.Some? <==> id in m && Live(m[id], now)
    ensures t.Some? ==> now <= t.value && t.value == m[id].resetTime
  {
    if id !in m || !Live(m[id], now) then None else Some(m[id].resetTime)
  }

  /** What `cleanup` keeps: the live entries. */
  function Unexpired(m: Requests, now: int): (r: Requests)
    ensures r.Keys <= m.Keys
    ensures forall k :: k in r ==> r[k] == m[k] && Live(m[k], now)
    ensures forall k :: k in m && Live(m[k], now) ==> k in r
  {
    map k | k in m && Live(m[k], now) :: m[k]
  }

  /** Every stored count lies in 1..maxRequests. */
  predicate CountsWithin(m: Requests, maxRequests: int) {
    forall k :: k in m ==> 1 <= m[k].count <= maxRequests
  }

  /** With one limit per identifier and at least one request allowed,
      every count stays between 1 and the limit. */
  lemma StepKeepsCounts(m: Requests, id: string, maxRequests: int, windowMs: int, now: int)
    requires maxRequests >= 1 && CountsWithin(m, maxRequests)
    ensures CountsWithin(Step(m, id, maxRequests, windowMs, now).0, maxRequests)
  {
  }

  /** A refusal leaves nothing remaining for the caller. */
  lemma RefusalMeansNoneRemaining(m: Requests, id: string, maxRequests: int, windowMs: int, now: int)
    requires !Step(m, id, maxRequests, windowMs, now).1
    ensures Remaining(m, id, maxRequests, now) == 0
    ensures ResetTime(m, id, now) == Some(m[id].resetTime)
  {
  }

  /** Dropping expired entries is invisible: at `now` or later, every
      call answers as it would have on the full map. */
  lemma CleanupUnobservable(m: Requests, id: string, maxRequests: int, windowMs: int, now: int, later: int)
    requires now <= later
    ensures Step(Unexpired(m, now), id, maxRequests, windowMs, later).1 == Step(m, id, maxRequests, windowMs, later).1
    ensures Remaining(Unexpired(m, now), id, maxRequests, later) == Remaining(m, id, maxRequests, later)
    ensures ResetTime(Unexpired(m, now), id, later) == ResetTime(m, id, later)
  {
    var u := Unexpired(m, now);
    if id in m && Live(m[id], later) {
      assert Live(m[id], now);
      assert id in u;
    }
  }

  // ---------------------------------------------------------------------
  // A sequence of calls for one identifier

  /** The answers to calls for `id` at the times in `nows`, in order. */
  function Run(m: Requests, id: string, maxRequests: int, windowMs: int, nows: seq<int>): (r: (Requests, seq<bool>))
    ensures |r.1| == |nows|
    decreases |nows|
  {
    if nows == [] then (m, [])
    else
      var (m1, ok) := Step(m, id, maxRequests, windowMs, nows[0]);
      var (m2, oks) := Run(m1, id, maxRequests, windowMs, nows[1..]);
      (m2, [ok] + oks)
  }

  function CountTrue(bs: seq<bool>): (n: nat)
    ensures n <= |bs|
  {
    if bs == [] then 0 else (if bs[0] then 1 else 0) + CountTrue(bs[1..])
  }

  /** Inside a window that started with `count` accepted calls and ends at
      `end`, calls up to `end` are accepted at most up to the limit. */
  lemma {:induction false} RunWithinWindow(m: Requests, id: string, maxRequests: int, windowMs: int, nows: seq<int>, end: int)
    requires id in m && m[id].resetTime == end && m[id].count <= maxRequests
    requires forall i :: 0 <= i < |nows| ==> nows[i] <= end
    ensures var r := Run(m, id, maxRequests, windowMs, nows);
      CountTrue(r.1) <= maxRequests - m[id].count
      && id in r.0 && r.0[id].resetTime == end
      && r.0[id].count == m[id].count + CountTrue(r.1)
    decreases |nows|
  {
    if nows != [] {
      var (m1, ok) := Step(m, id, maxRequests, windowMs, nows[0]);
      assert m1[id].resetTime == end;
      assert m1[id].count == m[id].count + (if ok then 1 else 0) <= maxRequests;
      RunWithinWindow(m1, id, maxRequests, windowMs, nows[1..], end);
      var (m2, oks) := Run(m1, id, maxRequests, windowMs, nows[1..]);
      assert Run(m, id, maxRequests, windowMs, nows).1 == [ok] + oks;
      assert ([ok] + oks)[1..] == oks;
    }
  }

  /** The fixed window: for calls starting when `id` has no live entry and
      all falling within `windowMs` of the first, at most `maxRequests`
      are accepted. */
  lemma AtMostMaxPerWindow(m: Requests, id: string, maxRequests: int, windowMs: int, nows: seq<int>)
    requires maxRequests >= 1 && nows != []
    requires id !in m || !Live(m[id], nows[0])
    requires forall i :: 0 <= i < |nows| ==> nows[i] <= nows[0] + windowMs
    ensures CountTrue(Run(m, id, maxRequests, windowMs, nows).1) <= maxRequests
  {
    var (m1, ok) := Step(m, id, maxRequests, windowMs, nows[0]);
    assert ok && m1[id] == Entry(1, nows[0] + windowMs);
    RunWithinWindow(m1, id, maxRequests, windowMs, nows[1..], nows[0] + windowMs);
    var (m2, oks) := Run(m1, id, maxRequests, windowMs, nows[1..]);
    assert Run(m, id, maxRequests, windowMs, nows).1 == [true] + oks;
    assert ([true] + oks)[1..] == oks;
  }

  // ---------------------------------------------------------------------
  // The limiter object

  class RateLimiter {
    var requests: Requests
    /** Whether the five-minute cleanup timer is still scheduled. */
    var cleanupScheduled: bool

    constructor()
      ensures requests == map[] && cleanupScheduled
    {
      requests := map[];
      cleanupScheduled := true;
    }

    /** `checkLimit`. */
    method CheckLimit(id: string, maxRequests: int, windowMs: int, now: int) returns (allowed: bool)
      modifies this
      ensures (requests, allowed) == Step(old(requests), id, maxRequests, windowMs, now)
      ensures cleanupScheduled == old(cleanupScheduled)
    {
      var entry := if id in requests then Some(requests[id]) else None;
      if entry.None? || now > entry.value.resetTime {
        requests := requests[id := Entry(1, now + windowMs)];
        return true;
      }
      if entry.value.count >= maxRequests {
        return false;
      }
      requests := requests[id := Entry(entry.value.count + 1, entry.value.resetTime)];
      allowed := true;
    }

    /** `getRemainingRequests`. */
    method GetRemainingRequests(id: string, maxRequests: int, now: int) returns (n: int)
      ensures n == Remaining(requests, id, maxRequests, now)
    {
      if id !in requests || now > requests[id].resetTime {
        return maxRequests;
      }
      n := if maxRequests - requests[id].count > 0 then maxRequests - requests[id].count else 0;
    }

    /** `getResetTime`. */
    method GetResetTime(id: string, now: int) returns (t: Option<int>)
      ensures t == ResetTime(requests, id, now)
    {
      if id !in requests || now > requests[id].resetTime {
        return None;
      }
      t := Some(requests[id].resetTime);
    }

    /** `cleanup`: walk the entries and delete each expired one. */
    method Cleanup(now: int)
      modifies this
      ensures requests == Unexpired(old(requests), now)
      ensures cleanupScheduled == old(cleanupScheduled)
    {
      var pending := requests.Keys;
      ghost var start := requests;
      while pending != {}
        invariant start == old(requests) && cleanupScheduled == old(cleanupScheduled)
        invariant pending <= start.Keys
        invariant requests.Keys <= start.Keys
        invariant forall k :: k in pending ==> k in requests && requests[k] == start[k]
        invariant forall k :: k in requests ==> requests[k] == start[k]
        invariant forall k :: k in start && k !in pending ==> (k in requests <==> Live(start[k], now))
        decreases pending
      {
        var key :| key in pending;
        if now > requests[key].resetTime {
          requests := requests - {key};
        }
        pending := pending - {key};
      }
      assert forall k :: k in requests <==> k in Unexpired(start, now);
    }

    /** `destroy`: stop the timer and forget every entry. */
    method Destroy()
      modifies this
      ensures requests == map[] && !cleanupScheduled
    {
      cleanupScheduled := false;
      requests := map[];
    }
  }

  // ---------------------------------------------------------------------
  // Configured limits

  datatype LimitType = General | Auth | Booking | Admin

  /** `RATE_LIMITS`: a 15-minute window for every type. */
  function Limit(t: LimitType): (r: (int, int))
    ensures r.1 == 15 * 60 * 1000
    ensures r.0 >= 1
    ensures t == Auth ==> r.0 == 5
  {
    match t
    case General => (100, 15 * 60 * 1000)
    case Auth => (5, 15 * 60 * 1000)
    case Booking => (10, 15 * 60 * 1000)
    case Admin => (200, 15 * 60 * 1000)
  }
}
