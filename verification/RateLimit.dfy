/**
 The gateway's fixed-window rate limiter. Time is in whole seconds, read from the clock inside the
 limiter's lock; whole-run statements assume that the clock does not go back.
 */
module RateLimit {

  const WINDOW := 60

  datatype Window = Window(start: int, used: nat)

  function Rolled(w: Window, now: int): Window {
    if now - w.start >= WINDOW then Window(now, 0) else w
  }

  predicate Allowed(w: Window, rpm: nat, now: int) {
    Rolled(w, now).used < rpm
  }

  function Checked(w: Window, rpm: nat, now: int): Window {
    var r := Rolled(w, now);
    if r.used < rpm then r.(used := r.used + 1) else r
  }

  // ---------------------------------------------------------------- whole runs

  /** The window after requests at these times, for a limiter initialised at time `init`. */
  function After(rpm: nat, init: int, times: seq<int>): Window {
    if times == [] then Window(init, 0)
    else Checked(After(rpm, init, times[..|times| - 1]), rpm, times[|times| - 1])
  }

  /** The times of the admitted requests. */
  function Admitted(rpm: nat, init: int, times: seq<int>): seq<int> {
    if times == [] then []
    else
      var before, now := times[..|times| - 1], times[|times| - 1];
      Admitted(rpm, init, before) + if Allowed(After(rpm, init, before), rpm, now) then [now] else []
  }

  function CountIn(s: seq<int>, lo: int, hi: int): nat {
    if s == [] then 0
    else CountIn(s[..|s| - 1], lo, hi) + if lo <= s[|s| - 1] <= hi then 1 else 0
  }

  ghost predicate Ordered(init: int, times: seq<int>) {
    && (forall i :: 0 <= i < |times| ==> init <= times[i])
    && (forall i, j :: 0 <= i < j < |times| ==> times[i] <= times[j])
  }

  function Last(init: int, times: seq<int>): int {
    if times == [] then init else times[|times| - 1]
  }

  lemma {:induction false} CountSnoc(s: seq<int>, x: int, lo: int, hi: int)
    ensures CountIn(s + [x], lo, hi) == CountIn(s, lo, hi) + if lo <= x <= hi then 1 else 0
  {
    assert (s + [x])[..|s|] == s;
  }

  lemma {:induction false} CountNone(s: seq<int>, lo: int, hi: int)
    requires forall i :: 0 <= i < |s| ==> s[i] < lo
    ensures CountIn(s, lo, hi) == 0
  {
    if s != [] {
      CountNone(s[..|s| - 1], lo, hi);
    }
  }

  /** A narrower span, closed at the last admission, counts no more. */
  lemma {:induction false} CountWiden(s: seq<int>, lo: int, hi: int, lo': int, hi': int)
    requires lo' <= lo && hi <= hi'
    ensures CountIn(s, lo, hi) <= CountIn(s, lo', hi')
  {
    if s != [] {
      CountWiden(s[..|s| - 1], lo, hi, lo', hi');
    }
  }

  // ---------------------------------------------------------------- invariants

  /** The open window is less than 60 seconds old and nothing was admitted after the last request. */
  ghost predicate Current(rpm: nat, w: Window, adm: seq<int>, init: int, last: int) {
    && init <= w.start <= last < w.start + WINDOW
    && w.used <= rpm
    && forall i :: 0 <= i < |adm| ==> init <= adm[i] <= last
  }

  lemma {:induction false} RunIsCurrent(rpm: nat, init: int, times: seq<int>)
    requires Ordered(init, times)
    ensures Current(rpm, After(rpm, init, times), Admitted(rpm, init, times), init, Last(init, times))
  {
    if times != [] {
      var before := times[..|times| - 1];
      assert Ordered(init, before);
      RunIsCurrent(rpm, init, before);
      assert before != [] ==> Last(init, before) == times[|before| - 1];
    }
  }

  /** The request counter is the number of requests admitted since the window opened. */
  lemma {:induction false} UsedIsExact(rpm: nat, init: int, times: seq<int>)
    requires Ordered(init, times)
    ensures After(rpm, init, times).used ==
            CountIn(Admitted(rpm, init, times), After(rpm, init, times).start, Last(init, times))
  {
    if times != [] {
      var before, now := times[..|times| - 1], times[|times| - 1];
      assert Ordered(init, before);
      RunIsCurrent(rpm, init, before);
      UsedIsExact(rpm, init, before);
      var w, adm := After(rpm, init, before), Admitted(rpm, init, before);
      assert Last(init, before) <= now by {
        assert before != [] ==> Last(init, before) == times[|before| - 1];
      }
      CountSnoc(adm, now, Rolled(w, now).start, now);
      assert adm + [] == adm;
      if now - w.start >= WINDOW {
        CountNone(adm, now, now);
      } else {
        CountUpTo(adm, w.start, Last(init, before), now);
      }
    }
  }

  /** Beyond the last element the upper end of a span does not matter. */
  lemma {:induction false} CountUpTo(s: seq<int>, lo: int, hi: int, hi': int)
    requires hi <= hi' && forall i :: 0 <= i < |s| ==> s[i] <= hi
    ensures CountIn(s, lo, hi) == CountIn(s, lo, hi')
  {
    if s != [] {
      CountUpTo(s[..|s| - 1], lo, hi, hi');
    }
  }

  /** What the window says about the admissions in the span of 60 seconds from `a`. */
  ghost predicate SpanOk(rpm: nat, w: Window, c: nat, a: int, last: int) {
    && (c > 0 ==> last >= a)
    && (w.start <= a ==> c <= w.used)
    && (a < w.start <= a + WINDOW ==> c <= rpm + w.used)
    && c <= 2 * rpm
  }

  lemma {:induction false} SpanStep(rpm: nat, w: Window, c: nat, a: int, last: int, now: int)
    requires SpanOk(rpm, w, c, a, last) && w.used <= rpm && w.start <= last <= now && last < w.start + WINDOW
    ensures var more := if Allowed(w, rpm, now) && a <= now <= a + WINDOW then 1 else 0;
      SpanOk(rpm, Checked(w, rpm, now), c + more, a, now)
  {
    if now - w.start >= WINDOW && now <= a {
      assert c == 0;
    }
  }

  lemma {:induction false} SpanInvariant(rpm: nat, init: int, times: seq<int>, a: int)
    requires Ordered(init, times)
    ensures SpanOk(rpm, After(rpm, init, times), CountIn(Admitted(rpm, init, times), a, a + WINDOW), a,
      Last(init, times))
  {
    if times != [] {
      var before, now := times[..|times| - 1], times[|times| - 1];
      assert Ordered(init, before);
      SpanInvariant(rpm, init, before, a);
      RunIsCurrent(rpm, init, before);
      assert before != [] ==> Last(init, before) == times[|before| - 1];
      var w, adm := After(rpm, init, before), Admitted(rpm, init, before);
      SpanStep(rpm, w, CountIn(adm, a, a + WINDOW), a, Last(init, before), now);
      CountSnoc(adm, now, a, a + WINDOW);
      assert adm + [] == adm;
    }
  }

  // ---------------------------------------------------------------- theorems

  /** No closed span of 60 seconds, wherever it starts, admits more than twice the limit. */
  lemma {:induction false} AnySpanBounded(rpm: nat, init: int, times: seq<int>, a: int)
    requires Ordered(init, times)
    ensures CountIn(Admitted(rpm, init, times), a, a + WINDOW) <= 2 * rpm
  {
    SpanInvariant(rpm, init, times, a);
  }

  lemma {:induction false} WindowsPaid(rpm: nat, init: int, times: seq<int>)
    requires Ordered(init, times)
    ensures var w := After(rpm, init, times);
      |Admitted(rpm, init, times)| <= rpm * ((w.start - init) / WINDOW) + w.used
  {
    if times != [] {
      var before, now := times[..|times| - 1], times[|times| - 1];
      assert Ordered(init, before);
      WindowsPaid(rpm, init, before);
      RunIsCurrent(rpm, init, before);
      var w := After(rpm, init, before);
      if now - w.start >= WINDOW {
        Scale(rpm, (w.start - init) / WINDOW + 1, (now - init) / WINDOW);
      }
    }
  }

  lemma {:induction false} Scale(rpm: nat, x: int, y: int)
    requires x <= y
    ensures rpm * x <= rpm * y
    ensures rpm * x == rpm * (x - 1) + rpm
  {
  }

  /** A whole run admits at most one limit for each 60 seconds begun. */
  lemma {:induction false} WholeRunBounded(rpm: nat, init: int, times: seq<int>)
    requires Ordered(init, times)
    ensures |Admitted(rpm, init, times)| <= rpm * (1 + (Last(init, times) - init) / WINDOW)
  {
    WindowsPaid(rpm, init, times);
    RunIsCurrent(rpm, init, times);
    var w, n := After(rpm, init, times), (Last(init, times) - init) / WINDOW;
    Scale(rpm, (w.start - init) / WINDOW, n);
    Scale(rpm, 1 + n, 1 + n);
  }

  /** A request is refused only after a full limit's worth was admitted within the 60 seconds up to it. */
  lemma {:induction false} RefusedOnlyWhenFull(rpm: nat, init: int, times: seq<int>, now: int)
    requires Ordered(init, times + [now]) && !Allowed(After(rpm, init, times), rpm, now)
    ensures CountIn(Admitted(rpm, init, times), now - WINDOW + 1, now) >= rpm
  {
    assert Ordered(init, times) && Last(init, times) <= now by {
      assert forall i :: 0 <= i < |times| ==>
        times[i] == (times + [now])[i] && (times + [now])[i] <= (times + [now])[|times|];
      assert (times + [now])[|times|] == now;
    }
    RunIsCurrent(rpm, init, times);
    UsedIsExact(rpm, init, times);
    var w := After(rpm, init, times);
    if now - w.start < WINDOW {
      CountWiden(Admitted(rpm, init, times), w.start, Last(init, times), now - WINDOW + 1, now);
    }
  }

  // ---------------------------------------------------------------- the bound is reached

  function Burst(now: int, n: nat): seq<int> {
    seq(n, i => now)
  }

  lemma {:induction false} OneAdmitted(rpm: nat, init: int, times: seq<int>, now: int)
    requires Rolled(After(rpm, init, times), now).used < rpm
    ensures Admitted(rpm, init, times + [now]) == Admitted(rpm, init, times) + [now]
    ensures var w := Rolled(After(rpm, init, times), now);
      Rolled(After(rpm, init, times + [now]), now) == w.(used := w.used + 1)
  {
    assert (times + [now])[..|times|] == times;
  }

  lemma {:induction false} BurstSnoc(s: seq<int>, now: int, n: nat)
    requires n > 0
    ensures s + Burst(now, n) == s + Burst(now, n - 1) + [now]
  {
  }

  /** Requests that all come at `now` and still fit are all admitted. */
  lemma {:induction false} BurstAdmitted(rpm: nat, init: int, times: seq<int>, now: int, n: nat)
    requires Rolled(After(rpm, init, times), now).used + n <= rpm
    ensures Admitted(rpm, init, times + Burst(now, n)) == Admitted(rpm, init, times) + Burst(now, n)
    ensures var w := Rolled(After(rpm, init, times), now);
      Rolled(After(rpm, init, times + Burst(now, n)), now) == w.(used := w.used + n)
  {
    if n == 0 {
      assert times + Burst(now, 0) == times;
      assert Admitted(rpm, init, times) + Burst(now, 0) == Admitted(rpm, init, times);
    } else {
      BurstAdmitted(rpm, init, times, now, n - 1);
      OneAdmitted(rpm, init, times + Burst(now, n - 1), now);
      BurstSnoc(times, now, n);
      BurstSnoc(Admitted(rpm, init, times), now, n);
    }
  }

  lemma {:induction false} CountBurst(s: seq<int>, now: int, n: nat, lo: int, hi: int)
    requires lo <= now <= hi
    ensures CountIn(s + Burst(now, n), lo, hi) == CountIn(s, lo, hi) + n
  {
    if n == 0 {
      assert s + Burst(now, 0) == s;
    } else {
      BurstSnoc(s, now, n);
      CountSnoc(s + Burst(now, n - 1), now, lo, hi);
      CountBurst(s, now, n - 1, lo, hi);
    }
  }

  lemma {:induction false} EarlyBurstExpires(rpm: nat, init: int)
    ensures Rolled(After(rpm, init, Burst(init + WINDOW - 1, rpm)), init + WINDOW) == Window(init + WINDOW, 0)
    ensures Admitted(rpm, init, Burst(init + WINDOW - 1, rpm)) == Burst(init + WINDOW - 1, rpm)
  {
    var now := init + WINDOW - 1;
    BurstAdmitted(rpm, init, [], now, rpm);
    assert [] + Burst(now, rpm) == Burst(now, rpm);
    assert Ordered(init, Burst(now, rpm));
    RunIsCurrent(rpm, init, Burst(now, rpm));
    assert After(rpm, init, Burst(now, rpm)).start == init;
  }

  function TwoBursts(rpm: nat, init: int): seq<int> {
    Burst(init + WINDOW - 1, rpm) + Burst(init + WINDOW, rpm)
  }

  /** For every limit there is a run that admits twice the limit within two adjacent seconds. */
  lemma {:induction false} TwiceTheLimitIsReached(rpm: nat, init: int)
    ensures Ordered(init, TwoBursts(rpm, init))
    ensures CountIn(Admitted(rpm, init, TwoBursts(rpm, init)), init + WINDOW - 1, init + WINDOW) == 2 * rpm
  {
    EarlyBurstExpires(rpm, init);
    BurstAdmitted(rpm, init, Burst(init + WINDOW - 1, rpm), init + WINDOW, rpm);
    assert Admitted(rpm, init, TwoBursts(rpm, init)) == TwoBursts(rpm, init);
    CountTwoBursts(rpm, init);
  }

  lemma {:induction false} CountTwoBursts(rpm: nat, init: int)
    ensures CountIn(TwoBursts(rpm, init), init + WINDOW - 1, init + WINDOW) == 2 * rpm
  {
    var early := Burst(init + WINDOW - 1, rpm);
    CountBurst([], init + WINDOW - 1, rpm, init + WINDOW - 1, init + WINDOW);
    assert [] + early == early;
    CountBurst(early, init + WINDOW, rpm, init + WINDOW - 1, init + WINDOW);
  }

  // ---------------------------------------------------------------- the limiter as code

  class Limiter {
    const rpm: nat
    var start: int
    var used: nat

    ghost function Now(): Window
      reads this
    {
      Window(start, used)
    }

    constructor (rpm: nat, now: int)
      ensures this.rpm == rpm && Now() == After(rpm, now, [])
    {
      this.rpm := rpm;
      start, used := now, 0;
    }

    method Check(now: int) returns (allowed: bool)
      modifies this
      ensures Now() == Checked(old(Now()), rpm, now) && allowed == Allowed(old(Now()), rpm, now)
    {
      allowed := false;
      if now - start >= WINDOW {
        start := now;
        used := 0;
      }
      if used < rpm {
        used := used + 1;
        allowed := true;
      }
    }
  }
}
