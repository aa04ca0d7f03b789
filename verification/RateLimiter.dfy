/**
 The per-IP rate limiter of src/proxy.ts: a map of counting windows, swept lazily.
 The clock is a parameter; a run is a sequence of calls at non-decreasing times under one limit.
 */
module RateLimiter {

  datatype Window = Window(count: nat, resetAt: int)

  type Hits = map<string, Window>

  datatype Call = Call(ip: string, now: int)

  const WINDOW_MS := 60_000
  const SWEEP_ABOVE := 10_000

  /* ---- one call ---- */

  predicate Open(hits: Hits, ip: string, now: int) {
    ip in hits && hits[ip].resetAt > now
  }

  function Swept(hits: Hits, now: int): Hits {
    if |hits| > SWEEP_ABOVE then map ip | ip in hits && hits[ip].resetAt > now :: hits[ip] else hits
  }

  function Counted(hits: Hits, c: Call): Hits {
    if Open(hits, c.ip, c.now) then hits[c.ip := hits[c.ip].(count := hits[c.ip].count + 1)]
    else hits[c.ip := Window(1, c.now + WINDOW_MS)]
  }

  predicate Refuses(hits: Hits, c: Call, limit: real) {
    Open(hits, c.ip, c.now) && (hits[c.ip].count + 1) as real > limit
  }

  class Limiter {
    var hits: Hits

    constructor ()
      ensures hits == map[]
    {
      hits := map[];
    }

    method Sweep(now: int)
      modifies this
      ensures hits == map ip | ip in old(hits) && old(hits)[ip].resetAt > now :: old(hits)[ip]
    {
      var keys := hits.Keys;
      while keys != {}
        invariant keys <= old(hits).Keys
        invariant hits == map ip | ip in old(hits) && (ip in keys || old(hits)[ip].resetAt > now) :: old(hits)[ip]
        decreases keys
      {
        var key :| key in keys;
        if hits[key].resetAt <= now {
          hits := hits - {key};
        }
        keys := keys - {key};
      }
    }

    method RateLimited(ip: string, limit: real, now: int) returns (limited: bool)
      modifies this
      ensures hits == Counted(Swept(old(hits), now), Call(ip, now))
      ensures limited == Refuses(Swept(old(hits), now), Call(ip, now), limit)
    {
      if |hits| > SWEEP_ABOVE {
        Sweep(now);
      }
      if ip !in hits || hits[ip].resetAt <= now {
        hits := hits[ip := Window(1, now + WINDOW_MS)];
        return false;
      }
      hits := hits[ip := hits[ip].(count := hits[ip].count + 1)];
      return hits[ip].count as real > limit;
    }
  }

  /* ---- whole runs ---- */

  predicate Ordered(calls: seq<Call>) {
    forall i, j :: 0 <= i <= j < |calls| ==> calls[i].now <= calls[j].now
  }

  function Last(calls: seq<Call>): Call
    requires |calls| > 0
  {
    calls[|calls| - 1]
  }

  function Front(calls: seq<Call>): seq<Call>
    requires |calls| > 0
  {
    calls[..|calls| - 1]
  }

  /** The map after a run from the start of the process; without the sweep no entry is ever deleted. */
  function After(calls: seq<Call>, sweep: bool): Hits
    decreases |calls|, 1
  {
    if calls == [] then map[] else Counted(Before(calls, sweep), Last(calls))
  }

  /** The map the last call of the run is answered from. */
  function Before(calls: seq<Call>, sweep: bool): Hits
    requires |calls| > 0
    decreases |calls|, 0
  {
    var hits := After(Front(calls), sweep);
    if sweep then Swept(hits, Last(calls).now) else hits
  }

  /** The answer to the last call of the run. */
  predicate Limited(calls: seq<Call>, limit: real, sweep: bool)
    requires |calls| > 0
  {
    Refuses(Before(calls, sweep), Last(calls), limit)
  }

  /** How many calls of this address were let through at times in [from, to). */
  function Through(calls: seq<Call>, limit: real, sweep: bool, ip: string, from: int, to: int): nat {
    if calls == [] then 0
    else
      var c := Last(calls);
      Through(Front(calls), limit, sweep, ip, from, to)
      + (if c.ip == ip && from <= c.now < to && !Limited(calls, limit, sweep) then 1 else 0)
  }

  /* ---- the sweep cannot be noticed ---- */

  ghost predicate Agree(swept: Hits, unswept: Hits, now: int) {
    forall ip :: && (Open(swept, ip, now) <==> Open(unswept, ip, now))
                 && (Open(swept, ip, now) ==> swept[ip] == unswept[ip])
  }

  lemma {:induction false} SweptAgrees(calls: seq<Call>, now: int)
    requires Ordered(calls)
    requires |calls| > 0 ==> Last(calls).now <= now
    ensures Agree(After(calls, true), After(calls, false), now)
  {
    if calls != [] {
      SweptAgrees(Front(calls), Last(calls).now);
    }
  }

  /** The limiter gives every call the answer it would give if it never deleted an entry. */
  lemma SweepInvisible(calls: seq<Call>, limit: real)
    requires Ordered(calls) && |calls| > 0
    ensures Limited(calls, limit, true) == Limited(calls, limit, false)
  {
    SweptAgrees(Front(calls), Last(calls).now);
  }

  /** A call sweeps when more than ten thousand addresses are kept: then, and only then, all expired ones go first. */
  lemma SweptExactly(calls: seq<Call>)
    requires |calls| > 0
    ensures var hits, now := After(Front(calls), true), Last(calls).now;
            && (|hits| <= 10_000 ==> Before(calls, true) == hits)
            && (|hits| > 10_000 ==>
                  && (forall ip :: ip in Before(calls, true) <==> ip in hits && hits[ip].resetAt > now)
                  && (forall ip :: ip in Before(calls, true) ==> Before(calls, true)[ip] == hits[ip]))
  {
  }

  lemma {:induction false} ThroughUnswept(calls: seq<Call>, limit: real, ip: string, from: int, to: int)
    requires Ordered(calls)
    ensures Through(calls, limit, true, ip, from, to) == Through(calls, limit, false, ip, from, to)
  {
    if calls != [] {
      SweepInvisible(calls, limit);
      ThroughUnswept(Front(calls), limit, ip, from, to);
    }
  }

  /* ---- the rate bound ---- */

  /** How many calls one window lets through: the first always, then up to the limit. */
  function PerWindow(limit: real): nat {
    if limit < 1.0 then 1 else limit.Floor
  }

  function Min(a: nat, b: nat): nat {
    if a <= b then a else b
  }

  lemma {:induction false} ThroughSplit(calls: seq<Call>, limit: real, ip: string, from: int, mid: int, to: int)
    requires from <= mid <= to
    ensures Through(calls, limit, false, ip, from, to)
         == Through(calls, limit, false, ip, from, mid) + Through(calls, limit, false, ip, mid, to)
  {
    if calls != [] {
      ThroughSplit(Front(calls), limit, ip, from, mid, to);
    }
  }

  lemma {:induction false} NoneAfter(calls: seq<Call>, limit: real, ip: string, from: int, to: int)
    requires forall i :: 0 <= i < |calls| && calls[i].ip == ip ==> calls[i].now < from
    ensures Through(calls, limit, false, ip, from, to) == 0
  {
    if calls != [] {
      NoneAfter(Front(calls), limit, ip, from, to);
    }
  }

  /**
   What holds of one address after any ordered run: its window has let through exactly what the limit allows;
   the part of it after any later instant, and the part of the previous windows in the minute before it, are
   each short of a whole window's worth.
   */
  ghost predicate Accounted(calls: seq<Call>, limit: real, ip: string) {
    var hits := After(calls, false);
    if ip !in hits then
      forall i :: 0 <= i < |calls| ==> calls[i].ip != ip
    else
      var end := hits[ip].resetAt;
      var start := end - WINDOW_MS;
      var through := Min(hits[ip].count, PerWindow(limit));
      && hits[ip].count >= 1
      && |calls| > 0 && start <= Last(calls).now
      && (forall i :: 0 <= i < |calls| && calls[i].ip == ip ==> calls[i].now < end)
      && Through(calls, limit, false, ip, start, end) == through
      && (forall from :: from > start ==> Through(calls, limit, false, ip, from, end) < through)
      && (forall from :: from <= start < from + WINDOW_MS ==>
         Through(calls, limit, false, ip, from, start) < PerWindow(limit))
  }

  lemma EarlierKept(calls: seq<Call>, limit: real, ip: string)
    requires Ordered(calls) && |calls| > 0
    requires Accounted(Front(calls), limit, ip)
    requires ip in After(Front(calls), false)
             && (Last(calls).ip == ip ==> Open(After(Front(calls), false), ip, Last(calls).now))
    ensures ip in After(calls, false) && After(calls, false)[ip].resetAt == After(Front(calls), false)[ip].resetAt
    ensures var start := After(calls, false)[ip].resetAt - WINDOW_MS;
            forall from :: from <= start < from + WINDOW_MS ==>
                Through(calls, limit, false, ip, from, start) < PerWindow(limit)
  {
    var start := After(calls, false)[ip].resetAt - WINDOW_MS;
    forall from | from <= start < from + WINDOW_MS
      ensures Through(calls, limit, false, ip, from, start) < PerWindow(limit)
    {
      assert Through(Front(calls), limit, false, ip, from, start) < PerWindow(limit);
      assert start <= Last(Front(calls)).now <= Last(calls).now;
    }
  }

  lemma AccountedSame(calls: seq<Call>, limit: real, ip: string)
    requires Ordered(calls) && |calls| > 0
    requires Accounted(Front(calls), limit, ip)
    requires Last(calls).ip != ip
    ensures Accounted(calls, limit, ip)
  {
    assert forall i :: 0 <= i < |calls| && calls[i].ip == ip ==> calls[i] == Front(calls)[i];
    if ip in After(Front(calls), false) {
      EarlierKept(calls, limit, ip);
    }
  }

  lemma AccountedOpen(calls: seq<Call>, limit: real, ip: string)
    requires Ordered(calls) && |calls| > 0
    requires Accounted(Front(calls), limit, ip)
    requires Last(calls).ip == ip && Open(After(Front(calls), false), ip, Last(calls).now)
    ensures Accounted(calls, limit, ip)
  {
    assert forall i :: 0 <= i < |calls| - 1 ==> calls[i] == Front(calls)[i];
    EarlierKept(calls, limit, ip);
    var w := After(Front(calls), false)[ip];
    assert After(calls, false)[ip] == Window(w.count + 1, w.resetAt);
    assert Limited(calls, limit, false) <==> w.count + 1 > PerWindow(limit) by {
      assert limit.Floor as real <= limit < limit.Floor as real + 1.0;
    }
  }

  lemma AccountedNew(calls: seq<Call>, limit: real, ip: string)
    requires Ordered(calls) && |calls| > 0
    requires Accounted(Front(calls), limit, ip)
    requires Last(calls).ip == ip && !Open(After(Front(calls), false), ip, Last(calls).now)
    ensures Accounted(calls, limit, ip)
  {
    var front, now := Front(calls), Last(calls).now;
    assert forall i :: 0 <= i < |calls| - 1 ==> calls[i] == front[i];
    var hits := After(front, false);
    assert !Limited(calls, limit, false);
    var newEnd := now + WINDOW_MS;
    NoneAfter(front, limit, ip, now, newEnd);
    forall from | from > now ensures Through(calls, limit, false, ip, from, newEnd) == 0 {
      NoneAfter(front, limit, ip, from, newEnd);
    }
    forall from | from <= now < from + WINDOW_MS
      ensures Through(calls, limit, false, ip, from, now) < PerWindow(limit)
    {
      if ip !in hits {
        NoneAfter(front, limit, ip, from, now);
      } else {
        var end := hits[ip].resetAt;
        if from <= end {
          ThroughSplit(front, limit, ip, from, end, now);
          NoneAfter(front, limit, ip, end, now);
        } else {
          NoneAfter(front, limit, ip, from, now);
        }
      }
    }
  }

  lemma {:induction false} AlwaysAccounted(calls: seq<Call>, limit: real, ip: string)
    requires Ordered(calls)
    ensures Accounted(calls, limit, ip)
  {
    if calls != [] {
      AlwaysAccounted(Front(calls), limit, ip);
      if Last(calls).ip != ip {
        AccountedSame(calls, limit, ip);
      } else if Open(After(Front(calls), false), ip, Last(calls).now) {
        AccountedOpen(calls, limit, ip);
      } else {
        AccountedNew(calls, limit, ip);
      }
    }
  }

  /** In any 60-second span of any run, one address gets fewer than two windows' worth of calls through. */
  lemma {:induction false} RateBoundUnswept(calls: seq<Call>, limit: real, ip: string, from: int)
    requires Ordered(calls)
    ensures Through(calls, limit, false, ip, from, from + WINDOW_MS) <= 2 * PerWindow(limit) - 1
  {
    if calls != [] {
      var c, to := Last(calls), from + WINDOW_MS;
      RateBoundUnswept(Front(calls), limit, ip, from);
      if c.ip == ip && from <= c.now < to && !Limited(calls, limit, false) {
        AlwaysAccounted(calls, limit, ip);
        var end := After(calls, false)[ip].resetAt;
        var start := end - WINDOW_MS;
        if from <= start {
          ThroughSplit(calls, limit, ip, from, start, to);
          ThroughSplit(calls, limit, ip, start, to, end);
        } else {
          ThroughSplit(calls, limit, ip, from, end, to);
          NoneAfter(calls, limit, ip, end, to);
        }
      }
    }
  }

  lemma RateBound(calls: seq<Call>, limit: real, ip: string, from: int)
    requires Ordered(calls)
    ensures Through(calls, limit, true, ip, from, from + 60_000) <= 2 * PerWindow(limit) - 1
  {
    ThroughUnswept(calls, limit, ip, from, from + WINDOW_MS);
    RateBoundUnswept(calls, limit, ip, from);
  }

  lemma FullMeansPerWindow(count: nat, limit: real)
    requires count >= 1 && (count + 1) as real > limit
    ensures count >= PerWindow(limit)
  {
    assert limit.Floor as real <= limit < limit.Floor as real + 1.0;
  }

  lemma RefusedUnswept(calls: seq<Call>, limit: real)
    requires Ordered(calls) && |calls| > 0
    requires Limited(calls, limit, false)
    ensures var c := Last(calls);
            && c.ip in Before(calls, false)
            && var start := Before(calls, false)[c.ip].resetAt - WINDOW_MS;
               && start <= c.now < start + WINDOW_MS
               && Through(Front(calls), limit, false, c.ip, start, start + WINDOW_MS) == PerWindow(limit)
  {
    var c, front := Last(calls), Front(calls);
    AlwaysAccounted(front, limit, c.ip);
    FullMeansPerWindow(After(front, false)[c.ip].count, limit);
    assert front != [] && Last(front).now <= c.now;
    hide PerWindow, Through;
  }

  /**
   A call is turned away only when a full window's worth of its address's calls got through within the last 60
   seconds.
   */
  lemma RefusedOnlyWhenFull(calls: seq<Call>, limit: real)
    requires Ordered(calls) && |calls| > 0
    requires Limited(calls, limit, true)
    ensures var c := Last(calls);
            var start := Before(calls, true)[c.ip].resetAt - 60_000;
            && start <= c.now < start + 60_000
            && Through(Front(calls), limit, true, c.ip, start, start + 60_000) == PerWindow(limit)
  {
    hide PerWindow, Through;
    var c, front := Last(calls), Front(calls);
    SweepInvisible(calls, limit);
    SweptAgrees(front, c.now);
    var start := Before(calls, true)[c.ip].resetAt - WINDOW_MS;
    ThroughUnswept(front, limit, c.ip, start, start + WINDOW_MS);
    RefusedUnswept(calls, limit);
    assert Before(calls, true)[c.ip] == Before(calls, false)[c.ip];
    hide After;
  }

  /* ---- the bound is reached ---- */

  function Burst(ip: string, now: int, n: nat): seq<Call> {
    seq(n, i requires 0 <= i < n => Call(ip, now))
  }

  /**
   One call, the rest of its window's worth in the window's last millisecond, and a whole window's worth right after
   it.
   */
  function WorstRun(ip: string, n: nat): seq<Call>
    requires n >= 1
  {
    [Call(ip, 0)] + Burst(ip, WINDOW_MS - 1, n - 1) + Burst(ip, WINDOW_MS, n)
  }

  lemma {:induction false} BurstInWindow(calls: seq<Call>, limit: nat, ip: string, now: int, n: nat, w: Window,
      from: int)
    requires After(calls, false).Keys == {ip} && After(calls, false)[ip] == w
    requires now < w.resetAt && w.count + n <= limit && from <= now < from + WINDOW_MS
    ensures After(calls + Burst(ip, now, n), false) == map[ip := w.(count := w.count + n)]
    ensures Through(calls + Burst(ip, now, n), limit as real, false, ip, from, from + WINDOW_MS)
         == Through(calls, limit as real, false, ip, from, from + WINDOW_MS) + n
  {
    var all := calls + Burst(ip, now, n);
    if n == 0 {
      assert all == calls;
    } else {
      BurstInWindow(calls, limit, ip, now, n - 1, w, from);
      assert Front(all) == calls + Burst(ip, now, n - 1);
    }
  }

  lemma FirstCall(ip: string, limit: nat)
    requires limit >= 1
    ensures After([Call(ip, 0)], false) == map[ip := Window(1, WINDOW_MS)]
    ensures Through([Call(ip, 0)], limit as real, false, ip, 1, 1 + WINDOW_MS) == 0
  {
    var first := [Call(ip, 0)];
    assert Front(first) == [] && Last(first) == Call(ip, 0);
    assert Before(first, false) == map[];
  }

  lemma NextWindow(calls: seq<Call>, ip: string, limit: nat)
    requires limit >= 1
    requires After(calls, false) == map[ip := Window(limit, WINDOW_MS)]
    requires Through(calls, limit as real, false, ip, 1, 1 + WINDOW_MS) == limit - 1
    ensures After(calls + [Call(ip, WINDOW_MS)], false) == map[ip := Window(1, 2 * WINDOW_MS)]
    ensures Through(calls + [Call(ip, WINDOW_MS)], limit as real, false, ip, 1, 1 + WINDOW_MS) == limit
  {
    var all := calls + [Call(ip, WINDOW_MS)];
    assert Front(all) == calls && Last(all) == Call(ip, WINDOW_MS);
  }

  /** For every whole limit there is an ordered run that reaches the bound, so the limit is not a bound per minute. */
  lemma BoundReached(ip: string, limit: nat)
    requires limit >= 1
    ensures Ordered(WorstRun(ip, limit))
    ensures Through(WorstRun(ip, limit), limit as real, true, ip, 1, 1 + 60_000) == 2 * limit - 1
            == 2 * PerWindow(limit as real) - 1
  {
    hide After, Through;
    var first := [Call(ip, 0)];
    FirstCall(ip, limit);
    BurstInWindow(first, limit, ip, WINDOW_MS - 1, limit - 1, Window(1, WINDOW_MS), 1);
    var second := first + Burst(ip, WINDOW_MS - 1, limit - 1);
    NextWindow(second, ip, limit);
    var third := second + [Call(ip, WINDOW_MS)];
    BurstInWindow(third, limit, ip, WINDOW_MS, limit - 1, Window(1, 2 * WINDOW_MS), 1);
    assert WorstRun(ip, limit) == third + Burst(ip, WINDOW_MS, limit - 1);
    ThroughUnswept(WorstRun(ip, limit), limit as real, ip, 1, 1 + WINDOW_MS);
  }
}
