/** The fixed-window limiter for mutating requests (api/server.py): a window
    opens with the first request at least a minute after the last one opened. */
module RateLimit {

  const MINUTE := 60.0

  datatype Window = Window(start: real, count: nat)

  function Hit(w: Window, now: real): Window {
    if now - w.start >= MINUTE then Window(now, 1) else Window(w.start, w.count + 1)
  }

  class Limiter {
    const limit: int
    var start: real
    var count: nat

    constructor (limit: int)
      ensures this.limit == limit && start == 0.0 && count == 0
    {
      this.limit, start, count := limit, 0.0, 0;
    }

    /** Whether the request at `now` is turned away. A limit of 0 is off and
        leaves the window alone. */
    method RateLimited(now: real) returns (limited: bool)
      modifies this
      ensures limit <= 0 ==> !limited && start == old(start) && count == old(count)
      ensures limit > 0 ==>
        var w := Hit(Window(old(start), old(count)), now);
        start == w.start && count == w.count && (limited <==> w.count > limit)
      ensures limit > 0 ==>
        if now >= old(start) + 60.0 then start == now && count == 1 && !limited
        else start == old(start) && count == old(count) + 1 && (limited <==> count > limit)
    {
      if limit <= 0 {
        return false;
      }
      if now - start >= MINUTE {
        start, count := now, 0;
      }
      count := count + 1;
      limited := count > limit;
    }
  }

  // -------------------------------------------------- runs of requests

  /** The window after requests at the given times. */
  function After(times: seq<real>): Window {
    if times == [] then Window(0.0, 0) else Hit(After(times[..|times|-1]), times[|times|-1])
  }

  predicate Admitted(limit: nat, times: seq<real>)
    requires times != []
  {
    After(times).count <= limit
  }

  /** Requests let through in the window that opened at `start`. */
  function InWindow(limit: nat, times: seq<real>, start: real): nat {
    if times == [] then 0
    else InWindow(limit, times[..|times|-1], start)
         + if Admitted(limit, times) && After(times).start == start then 1 else 0
  }

  /** Requests let through from `from` up to, but not at, one minute later. */
  function InSpan(limit: nat, times: seq<real>, from: real): nat {
    if times == [] then 0
    else InSpan(limit, times[..|times|-1], from)
         + if Admitted(limit, times) && from <= times[|times|-1] < from + 60.0 then 1 else 0
  }

  ghost predicate Sorted(times: seq<real>) {
    forall i, j | 0 <= i < j < |times| :: times[i] <= times[j]
  }

  function Min(a: nat, b: nat): nat {
    if a < b then a else b
  }

  /** A window lets through its first `limit` requests, and no more. */
  lemma {:induction false} WindowBound(limit: nat, times: seq<real>, start: real)
    ensures InWindow(limit, times, start) <= limit
    ensures start == After(times).start ==> InWindow(limit, times, start) == Min(After(times).count, limit)
    ensures start > After(times).start ==> InWindow(limit, times, start) == 0
  {
    if times != [] {
      WindowBound(limit, times[..|times|-1], start);
    }
  }

  /** A request is let through exactly while its window has room. */
  lemma AdmittedIffRoom(limit: nat, times: seq<real>)
    requires times != []
    ensures Admitted(limit, times) <==> InWindow(limit, times[..|times|-1], After(times).start) < limit
  {
    WindowBound(limit, times[..|times|-1], After(times).start);
  }

  function Windows(times: seq<real>): nat {
    if times == [] then 0
    else Windows(times[..|times|-1])
         + if times[|times|-1] - After(times[..|times|-1]).start >= MINUTE then 1 else 0
  }

  /** Once a window has opened, it opened at some request's time. */
  lemma {:induction false} OpenedBefore(times: seq<real>)
    requires Sorted(times) && Windows(times) > 0
    ensures times != [] && After(times).start <= times[|times|-1]
  {
    var init := times[..|times|-1];
    if Windows(init) > 0 {
      OpenedBefore(init);
      assert init[|init|-1] <= times[|times|-1];
    }
  }

  /** What the span can hold while the current window began before it, in it, or
      is the very first. */
  lemma {:induction false} SpanSoFar(limit: nat, times: seq<real>, from: real)
    requires limit > 0 && Sorted(times)
    ensures var c, w := InSpan(limit, times, from), After(times);
            && c <= 2 * limit
            && (w.start < from || Windows(times) == 0 ==> c <= Min(w.count, limit))
            && (w.start < from + MINUTE ==> c <= limit + Min(w.count, limit))
            && (times != [] && times[|times|-1] < from ==> c == 0)
  {
    if times != [] {
      var init, now := times[..|times|-1], times[|times|-1];
      SpanSoFar(limit, init, from);
      if init != [] { assert init[|init|-1] <= now; }
      if Windows(init) > 0 { OpenedBefore(init); }
    }
  }

  /** Requests in any minute straddle at most two windows. */
  lemma SpanBound(limit: nat, times: seq<real>, from: real)
    requires limit > 0 && Sorted(times)
    ensures InSpan(limit, times, from) <= 2 * limit
  {
    SpanSoFar(limit, times, from);
  }

  // ----------------------------------------------- and no better bound

  /** `limit` requests just before a window ends, as many when the next opens. */
  function Burst(n: nat, m: nat): seq<real> {
    if m > 0 then Burst(n, m - 1) + [60.0] else if n > 0 then Burst(n - 1, 0) + [59.0] else []
  }

  lemma OneMore(limit: nat, times: seq<real>, now: real, from: real)
    ensures After(times + [now]) == Hit(After(times), now)
    ensures InSpan(limit, times + [now], from)
         == InSpan(limit, times, from) + if After(times + [now]).count <= limit
             && from <= now < from + MINUTE then 1 else 0
  {
    assert (times + [now])[..|times|] == times;
  }

  lemma {:induction false} BurstAdmitted(limit: nat, n: nat, m: nat)
    requires n <= limit && m <= limit && (m > 0 ==> n == limit)
    ensures After(Burst(n, m)) == (if m > 0 then Window(60.0, m) else Window(0.0, n))
    ensures InSpan(limit, Burst(n, m), 59.0) == n + m
  {
    hide After, InSpan;
    if m > 0 {
      BurstAdmitted(limit, n, m - 1);
      OneMore(limit, Burst(n, m - 1), 60.0, 59.0);
    } else if n > 0 {
      BurstAdmitted(limit, n - 1, 0);
      OneMore(limit, Burst(n - 1, 0), 59.0, 59.0);
    } else {
      Nothing(limit, 59.0);
    }
  }

  lemma Nothing(limit: nat, from: real)
    ensures After([]) == Window(0.0, 0) && InSpan(limit, [], from) == 0
  {
  }

  lemma {:induction false} BurstSorted(n: nat, m: nat)
    ensures Sorted(Burst(n, m)) && forall i | 0 <= i < |Burst(n, m)| :: Burst(n, m)[i] <= if m > 0 then 60.0 else 59.0
  {
    if m > 0 { BurstSorted(n, m - 1); } else if n > 0 { BurstSorted(n - 1, 0); }
  }

  lemma SpanBoundIsTight(limit: nat)
    requires limit > 0
    ensures Sorted(Burst(limit, limit)) && InSpan(limit, Burst(limit, limit), 59.0) == 2 * limit
  {
    BurstAdmitted(limit, limit, limit);
    BurstSorted(limit, limit);
  }
}
