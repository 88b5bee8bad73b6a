/** The fixed-window rate limiter, call by call and over whole runs of one bucket. */
module RateLimit {
  import opened Common

  datatype Window = Window(start: real, used: int)

  datatype Verdict = Verdict(allowed: bool, remaining: int, resetAt: real)

  /** What a check does to its bucket: a new window once the old one is over, and one
      more use unless the limit is reached. A refusal stores nothing. */
  function Checked(w: Window, limit: int, length: real, now: real): (Window, Verdict) {
    var current := if now >= w.start + length then Window(now, 0) else w;
    if current.used >= limit then (w, Verdict(false, 0, current.start + length))
    else
      (Window(current.start, current.used + 1),
       Verdict(true, Max(limit - (current.used + 1), 0), current.start + length))
  }

  function At(windows: map<(string, string), Window>, bucket: (string, string)): Window {
    if bucket in windows then windows[bucket] else Window(0.0, 0)
  }

  /** A check by what it finds: a window that is over is followed by one that starts now; a
      use is counted; at the limit nothing is, nor stored. An unused bucket counts from 0. */
  lemma CheckedIs(w: Window, limit: int, length: real, now: real, bucket: (string, string))
    ensures var (after, v) := Checked(w, limit, length, now);
            && (now - length >= w.start && limit >= 1 ==>
                  after == Window(now, 1) && v == Verdict(true, limit - 1, now + length))
            && (now - length >= w.start && limit <= 0 ==> after == w && v == Verdict(false, 0, now + length))
            && (now - length < w.start && limit > w.used ==>
                  after == Window(w.start, w.used + 1) && v == Verdict(true, limit - w.used - 1, w.start + length))
            && (now - length < w.start && limit <= w.used ==> after == w && v == Verdict(false, 0, w.start + length))
    ensures At(map[bucket := w], bucket) == w && At(map[], bucket) == Window(0.0, 0)
  {
  }

  class FixedWindowRateLimiter {
    var windows: map<(string, string), Window>

    constructor ()
      ensures windows == map[]
    {
      windows := map[];
    }

    method Check(namespace: string, key: string, limit: int, length: real, now: real) returns (v: Verdict)
      modifies this
      ensures (At(windows, (namespace, key)), v) == Checked(At(old(windows), (namespace, key)), limit, length, now)
      ensures forall b :: b != (namespace, key) ==> At(windows, b) == At(old(windows), b)
    {
      var bucket := (namespace, key);
      var Window(start, used) := At(windows, bucket);
      if bucket !in windows {
        windows := windows[bucket := Window(0.0, 0)];
      }
      if now >= start + length {
        start, used := now, 0;
      }
      if used >= limit {
        return Verdict(false, 0, start + length);
      }
      used := used + 1;
      windows := windows[bucket := Window(start, used)];
      return Verdict(true, Max(limit - used, 0), start + length);
    }
  }

  // --- Runs of one bucket ------------------------------------------------------------

  /** A call that was let through, and the window it was counted in. */
  datatype Grant = Grant(time: real, start: real)

  datatype History = History(window: Window, grants: seq<Grant>)

  function Call(h: History, limit: int, length: real, now: real): History {
    var (w, v) := Checked(h.window, limit, length, now);
    History(w, if v.allowed then h.grants + [Grant(now, w.start)] else h.grants)
  }

  function Run(times: seq<real>, limit: int, length: real): History {
    if times == [] then History(Window(0.0, 0), [])
    else Call(Run(times[..|times| - 1], limit, length), limit, length, times[|times| - 1])
  }

  predicate Clock(times: seq<real>) {
    && (forall i :: 0 <= i < |times| ==> times[i] >= 0.0)
    && (forall i, j :: 0 <= i < j < |times| ==> times[i] <= times[j])
  }

  function InWindow(grants: seq<Grant>, start: real): nat {
    if grants == [] then 0
    else InWindow(grants[..|grants| - 1], start) + (if grants[|grants| - 1].start == start then 1 else 0)
  }

  function InSpan(grants: seq<Grant>, from: real, length: real): nat {
    if grants == [] then 0
    else InSpan(grants[..|grants| - 1], from, length) +
         (if from <= grants[|grants| - 1].time < from + length then 1 else 0)
  }

  /** Two windows are the same, or the first is over when the second starts. */
  predicate Apart(a: real, b: real, length: real) { a == b || a + length <= b }

  /** Grants lie in their windows, and windows do not overlap. */
  ghost predicate GrantsFine(h: History, length: real, now: real) {
    && h.window.start <= now
    && (forall i :: 0 <= i < |h.grants| ==>
          h.grants[i].start <= h.grants[i].time < h.grants[i].start + length && h.grants[i].time <= now &&
          Apart(h.grants[i].start, h.window.start, length))
    && (forall i, j :: 0 <= i < j < |h.grants| ==> Apart(h.grants[i].start, h.grants[j].start, length))
  }

  ghost predicate CountsFine(h: History, limit: int) {
    && h.window.used >= 0
    && InWindow(h.grants, h.window.start) == h.window.used
    && (forall start :: InWindow(h.grants, start) <= Max(limit, 0))
  }

  ghost predicate Fine(h: History, limit: int, length: real, now: real) {
    GrantsFine(h, length, now) && CountsFine(h, limit)
  }

  lemma {:induction false} NoneLater(grants: seq<Grant>, start: real)
    requires forall i :: 0 <= i < |grants| ==> grants[i].start != start
    ensures InWindow(grants, start) == 0
  {
    if grants != [] {
      NoneLater(grants[..|grants| - 1], start);
    }
  }

  lemma InWindowSnoc(grants: seq<Grant>, g: Grant, start: real)
    ensures InWindow(grants + [g], start) == InWindow(grants, start) + (if g.start == start then 1 else 0)
  {
    assert (grants + [g])[..|grants|] == grants;
  }

  function Current(w: Window, length: real, now: real): Window {
    if now >= w.start + length then Window(now, 0) else w
  }

  function Granted(h: History, length: real, now: real): History {
    var c := Current(h.window, length, now);
    History(Window(c.start, c.used + 1), h.grants + [Grant(now, c.start)])
  }

  lemma GrantKeepsGrants(h: History, length: real, before: real, now: real)
    requires length > 0.0 && before <= now && GrantsFine(h, length, before)
    ensures GrantsFine(Granted(h, length, now), length, now)
  {
    var after := Granted(h, length, now);
    var s := Current(h.window, length, now).start;
    forall i | 0 <= i < |h.grants| ensures Apart(h.grants[i].start, s, length) {
      assert Apart(h.grants[i].start, h.window.start, length);
    }
    assert forall i :: 0 <= i < |h.grants| ==> after.grants[i] == h.grants[i];
    assert after.grants[|h.grants|] == Grant(now, s);
  }

  lemma GrantKeepsCounts(h: History, limit: int, length: real, before: real, now: real)
    requires length > 0.0 && before <= now && Fine(h, limit, length, before)
    requires Current(h.window, length, now).used < limit
    ensures CountsFine(Granted(h, length, now), limit)
  {
    var c := Current(h.window, length, now);
    if now >= h.window.start + length {
      forall i | 0 <= i < |h.grants| ensures h.grants[i].start != now {
        assert Apart(h.grants[i].start, h.window.start, length);
      }
      NoneLater(h.grants, now);
    }
    hide InWindow, GrantsFine;
    forall start
      ensures InWindow(Granted(h, length, now).grants, start) ==
              InWindow(h.grants, start) + (if c.start == start then 1 else 0)
    {
      InWindowSnoc(h.grants, Grant(now, c.start), start);
    }
  }

  lemma CallKeeps(h: History, limit: int, length: real, before: real, now: real)
    requires length > 0.0 && before <= now && Fine(h, limit, length, before)
    ensures Fine(Call(h, limit, length, now), limit, length, now)
  {
    if Current(h.window, length, now).used < limit {
      GrantKeepsGrants(h, length, before, now);
      GrantKeepsCounts(h, limit, length, before, now);
      hide GrantsFine, CountsFine;
    }
  }

  lemma {:induction false} RunFine(times: seq<real>, limit: int, length: real)
    requires length > 0.0 && Clock(times)
    ensures Fine(Run(times, limit, length), limit, length, if times == [] then 0.0 else times[|times| - 1])
  {
    if times != [] {
      RunFine(times[..|times| - 1], limit, length);
      var before := if |times| == 1 then 0.0 else times[|times| - 2];
      CallKeeps(Run(times[..|times| - 1], limit, length), limit, length, before, times[|times| - 1]);
    }
  }

  /** Grants that all lie in one of two windows are at most those of the two. */
  lemma {:induction false} SpanInTwoWindows(grants: seq<Grant>, from: real, length: real, a: real, b: real)
    requires forall i :: 0 <= i < |grants| && from <= grants[i].time < from + length ==>
               grants[i].start == a || grants[i].start == b
    ensures InSpan(grants, from, length) <= InWindow(grants, a) + InWindow(grants, b)
  {
    if grants != [] {
      SpanInTwoWindows(grants[..|grants| - 1], from, length, a, b);
    }
  }

  lemma {:induction false} SpanEmpty(grants: seq<Grant>, from: real, length: real)
    requires forall i :: 0 <= i < |grants| ==> !(from <= grants[i].time < from + length)
    ensures InSpan(grants, from, length) == 0
  {
    if grants != [] {
      SpanEmpty(grants[..|grants| - 1], from, length);
    }
  }

  /** The first and the last grant of a span, if it has any. */
  lemma {:induction false} SpanEnds(grants: seq<Grant>, from: real, length: real) returns (a: nat, b: nat)
    requires exists i :: 0 <= i < |grants| && from <= grants[i].time < from + length
    ensures a <= b < |grants|
    ensures from <= grants[a].time < from + length && from <= grants[b].time < from + length
    ensures forall i :: 0 <= i < |grants| && from <= grants[i].time < from + length ==> a <= i <= b
  {
    var last := |grants| - 1;
    var front := grants[..last];
    if from <= grants[last].time < from + length {
      b := last;
      if exists i :: 0 <= i < |front| && from <= front[i].time < from + length {
        var e;
        a, e := SpanEnds(front, from, length);
      } else {
        a := last;
        assert forall i :: 0 <= i < last ==> front[i] == grants[i];
      }
    } else {
      var i :| 0 <= i < |grants| && from <= grants[i].time < from + length;
      assert front[i] == grants[i];
      a, b := SpanEnds(front, from, length);
    }
  }

  /** Over every run with a clock that does not go back: at most `limit` calls per
      stored window, and at most twice that in any half-open span of one window
      length, wherever it starts. */
  lemma AtMostTwiceTheLimit(times: seq<real>, limit: int, length: real, from: real)
    requires length > 0.0 && Clock(times)
    ensures forall start :: InWindow(Run(times, limit, length).grants, start) <= Max(limit, 0)
    ensures InSpan(Run(times, limit, length).grants, from, length) <= 2 * Max(limit, 0)
  {
    var h := Run(times, limit, length);
    RunFine(times, limit, length);
    hide Run;
    if exists i :: 0 <= i < |h.grants| && from <= h.grants[i].time < from + length {
      var a, b := SpanEnds(h.grants, from, length);
      var now := if times == [] then 0.0 else times[|times| - 1];
      forall i | 0 <= i < |h.grants| && from <= h.grants[i].time < from + length
        ensures h.grants[i].start == h.grants[a].start || h.grants[i].start == h.grants[b].start
      {
        OneOfTwo(h, limit, length, now, from, a, i, b);
      }
      hide Fine;
      SpanInTwoWindows(h.grants, from, length, h.grants[a].start, h.grants[b].start);
      LimitPerWindow(h, limit, length, now, h.grants[a].start);
      LimitPerWindow(h, limit, length, now, h.grants[b].start);
    } else {
      SpanEmpty(h.grants, from, length);
    }
  }

  lemma LimitPerWindow(h: History, limit: int, length: real, now: real, start: real)
    requires Fine(h, limit, length, now)
    ensures InWindow(h.grants, start) <= Max(limit, 0)
  {
  }

  /** Between the first and the last grant of a span there is no room for a third window. */
  lemma OneOfTwo(h: History, limit: int, length: real, now: real, from: real, a: nat, i: nat, b: nat)
    requires Fine(h, limit, length, now) && length > 0.0 && a <= i <= b < |h.grants|
    requires from <= h.grants[a].time && h.grants[b].time < from + length
    ensures h.grants[i].start == h.grants[a].start || h.grants[i].start == h.grants[b].start
  {
    hide InWindow;
    if a < i < b {
      assert Apart(h.grants[a].start, h.grants[i].start, length) && Apart(h.grants[i].start, h.grants[b].start, length);
    }
  }

  function Repeat(time: real, n: nat): seq<real> {
    if n == 0 then [] else Repeat(time, n - 1) + [time]
  }

  /** t is h after n more calls at one time that were all let through. */
  predicate Grew(h: History, t: History, time: real, n: nat, length: real) {
    var c := Current(h.window, length, time);
    && t.window == (if n == 0 then h.window else Window(c.start, c.used + n))
    && h.grants <= t.grants && |t.grants| == |h.grants| + n
    && forall i :: |h.grants| <= i < |t.grants| ==> t.grants[i].time == time
  }

  lemma GrowsOnce(h: History, t: History, time: real, n: nat, limit: int, length: real)
    requires length > 0.0 && Current(h.window, length, time).used + n < limit && Grew(h, t, time, n, length)
    ensures Grew(h, Call(t, limit, length, time), time, n + 1, length)
  {
    var c, u := Current(h.window, length, time), Call(t, limit, length, time);
    assert Current(t.window, length, time) == Window(c.start, c.used + n);
    assert u == History(Window(c.start, c.used + n + 1), t.grants + [Grant(time, c.start)]);
  }

  lemma RunSnoc(times: seq<real>, time: real, limit: int, length: real)
    ensures Run(times + [time], limit, length) == Call(Run(times, limit, length), limit, length, time)
  {
    hide Call;
    assert (times + [time])[..|times|] == times;
  }

  lemma RunRepeat(times: seq<real>, time: real, n: nat, limit: int, length: real)
    requires n > 0
    ensures Run(times + Repeat(time, n), limit, length)
         == Call(Run(times + Repeat(time, n - 1), limit, length), limit, length, time)
  {
    var before := Repeat(time, n - 1);
    assert Repeat(time, n) == before + [time];
    hide Repeat;
    RunSnoc(times + before, time, limit, length);
    assert times + before + [time] == times + (before + [time]);
  }

  /** n calls at one time, while the limit allows them, are all let through. */
  lemma {:induction false} RepeatGrants(times: seq<real>, time: real, n: nat, limit: int, length: real)
    requires length > 0.0 && Current(Run(times, limit, length).window, length, time).used + n <= limit
    ensures Grew(Run(times, limit, length), Run(times + Repeat(time, n), limit, length), time, n, length)
  {
    if n == 0 {
      assert times + Repeat(time, n) == times;
    } else {
      hide *;
      RepeatGrants(times, time, n - 1, limit, length);
      RunRepeat(times, time, n, limit, length);
      GrowsOnce(Run(times, limit, length), Run(times + Repeat(time, n - 1), limit, length), time, n - 1, limit, length);
    }
  }

  lemma {:induction false} AllInSpan(grants: seq<Grant>, from: real, length: real)
    requires forall i :: 0 <= i < |grants| ==> from <= grants[i].time < from + length
    ensures InSpan(grants, from, length) == |grants|
  {
    if grants != [] {
      AllInSpan(grants[..|grants| - 1], from, length);
    }
  }

  /** The bound is reached for every limit and length: `limit` calls late in a window
      and as many at the start of the next. */
  lemma TwiceTheLimitHappens(limit: nat, length: real)
    requires limit >= 1 && length > 0.0
    ensures Clock(Repeat(length / 2.0, limit) + Repeat(length, limit))
    ensures InSpan(Run(Repeat(length / 2.0, limit) + Repeat(length, limit), limit, length).grants, length / 2.0, length)
         == 2 * limit
  {
    hide *;
    var half := length / 2.0;
    TwoTimes(half, length, limit);
    FirstWindow(limit, length);
    SecondWindow(limit, length);
    RunNothing(limit, length);
    LateThenEarly(Run([], limit, length), Run(Repeat(half, limit), limit, length),
                  Run(Repeat(half, limit) + Repeat(length, limit), limit, length), limit, length);
  }

  lemma TwoTimes(a: real, b: real, n: nat)
    requires 0.0 <= a <= b
    ensures Clock(Repeat(a, n) + Repeat(b, n))
  {
    RepeatAt(a, n);
    RepeatAt(b, n);
    hide Repeat;
  }

  /** Half a window after the start, `limit` calls use up the first window, ... */
  lemma FirstWindow(limit: nat, length: real)
    requires limit >= 1 && length > 0.0
    ensures var first := Run(Repeat(length / 2.0, limit), limit, length);
            first.window == Window(0.0, limit) && Grew(Run([], limit, length), first, length / 2.0, limit, length)
  {
    RunNothing(limit, length);
    hide Run, Repeat;
    assert [] + Repeat(length / 2.0, limit) == Repeat(length / 2.0, limit);
    RepeatGrants([], length / 2.0, limit, limit, length);
  }

  /** ... and when it is over, as many are let through in the next. */
  lemma SecondWindow(limit: nat, length: real)
    requires limit >= 1 && length > 0.0
    ensures var first := Repeat(length / 2.0, limit);
            Grew(Run(first, limit, length), Run(first + Repeat(length, limit), limit, length), length, limit, length)
  {
    FirstWindow(limit, length);
    hide Run, Repeat, Grew;
    RepeatGrants(Repeat(length / 2.0, limit), length, limit, limit, length);
  }

  lemma RunNothing(limit: int, length: real)
    ensures Run([], limit, length) == History(Window(0.0, 0), [])
  {
  }

  lemma LateThenEarly(h: History, first: History, last: History, limit: nat, length: real)
    requires length > 0.0 && h.grants == []
    requires Grew(h, first, length / 2.0, limit, length) && Grew(first, last, length, limit, length)
    ensures InSpan(last.grants, length / 2.0, length) == 2 * limit
  {
    hide InSpan, Current;
    assert forall i :: 0 <= i < |first.grants| ==> last.grants[i] == first.grants[i];
    AllInSpan(last.grants, length / 2.0, length);
  }

  lemma {:induction false} RepeatAt(time: real, n: nat)
    ensures |Repeat(time, n)| == n && forall i :: 0 <= i < n ==> Repeat(time, n)[i] == time
  {
    if n > 0 {
      RepeatAt(time, n - 1);
    }
  }
}
