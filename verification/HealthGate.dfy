/**
 The edge-triggered health gate: a daemon reports its health as often as it likes; the gate emits an
 event on every change and repeats a state other than OK at most once a minute.
 */
module HealthGate {
  import opened Common

  const UNREPORTED := 0
  const OK := 1
  const DEGRADED := 2
  const DOWN := 3

  const REPORT_WINDOW_MS := 60000

  /** Time in milliseconds. */
  datatype Report = Report(state: int, now: nat)

  datatype Gate = Gate(state: int, last: nat)

  datatype Verdict = Invalid | Silent | Emit

  const FRESH_GATE := Gate(UNREPORTED, 0)

  predicate Known(state: int) {
    state == OK || state == DEGRADED || state == DOWN
  }

  /** Difference of two 64-bit clock readings. */
  function Elapsed(now: nat, last: nat): nat {
    (now - last) % U64
  }

  function Judge(g: Gate, r: Report): Verdict {
    if !Known(r.state) then Invalid
    else if g.state == UNREPORTED then if r.state == OK then Silent else Emit
    else if r.state != g.state then Emit
    else if r.state == OK || Elapsed(r.now, g.last) < REPORT_WINDOW_MS then Silent
    else Emit
  }

  function Moved(g: Gate, r: Report): Gate {
    if Judge(g, r) == Emit || (g.state == UNREPORTED && Known(r.state)) then Gate(r.state, r.now) else g
  }

  // ---------------------------------------------------------------- whole runs

  function After(reports: seq<Report>): Gate {
    if reports == [] then FRESH_GATE
    else Moved(After(reports[..|reports| - 1]), reports[|reports| - 1])
  }

  /** The reports that were emitted as events. */
  function Emitted(reports: seq<Report>): seq<Report> {
    if reports == [] then []
    else
      var before, r := reports[..|reports| - 1], reports[|reports| - 1];
      if Judge(After(before), r) == Emit then Emitted(before) + [r] else Emitted(before)
  }

  /** The reports with a known state. */
  function Accepted(reports: seq<Report>): seq<Report> {
    if reports == [] then []
    else
      var before, r := Accepted(reports[..|reports| - 1]), reports[|reports| - 1];
      if Known(r.state) then before + [r] else before
  }

  /** The states reported, without adjacent repeats. */
  function Changes(reports: seq<Report>): (c: seq<int>)
    ensures reports != [] ==> c != [] && c[|c| - 1] == reports[|reports| - 1].state
    ensures reports == [] ==> c == []
  {
    if reports == [] then []
    else
      var before, x := Changes(reports[..|reports| - 1]), reports[|reports| - 1].state;
      if before != [] && before[|before| - 1] == x then before else before + [x]
  }

  /** The changes worth an event: a daemon that starts out OK is not news. */
  function Edges(changes: seq<int>): seq<int> {
    if changes != [] && changes[0] == OK then changes[1..] else changes
  }

  /** The clock does not go back. */
  ghost predicate Ordered(reports: seq<Report>) {
    forall i, j :: 0 <= i < j < |reports| ==> reports[i].now <= reports[j].now
  }

  // ---------------------------------------------------------------- the gate and its past

  /** What the gate remembers is the last accepted state, and the last event while that state is not OK. */
  ghost predicate Tied(g: Gate, accepted: seq<Report>, emitted: seq<Report>) {
    && (g.state == UNREPORTED <==> accepted == [])
    && (accepted == [] ==> emitted == [])
    && (accepted != [] ==> g.state == accepted[|accepted| - 1].state && Known(g.state))
    && (g.state == OK && emitted != [] ==> emitted[|emitted| - 1].state == OK)
    && (g.state == DEGRADED || g.state == DOWN ==> emitted != [] && emitted[|emitted| - 1] == Report(g.state, g.last))
  }

  lemma {:induction false} RunIsTied(reports: seq<Report>)
    ensures Tied(After(reports), Accepted(reports), Emitted(reports))
  {
    if reports != [] {
      RunIsTied(reports[..|reports| - 1]);
    }
  }

  /**
   Whether an accepted report is emitted is a plain function of the last event: OK is repeated never,
   another state only after a full window.
   */
  lemma {:induction false} EmitsIff(reports: seq<Report>, r: Report)
    requires Known(r.state)
    ensures var e := Emitted(reports);
      Judge(After(reports), r) == Emit <==>
        if e == [] then r.state != OK
        else e[|e| - 1].state != r.state || (r.state != OK && Elapsed(r.now, e[|e| - 1].now) >= REPORT_WINDOW_MS)
  {
    RunIsTied(reports);
  }

  /** With a clock that has not gone back: a repeat is emitted exactly when it is not OK and 60000 ms have passed. */
  lemma {:induction false} RepeatsEveryMinute(reports: seq<Report>, r: Report)
    requires Emitted(reports) != [] && r.state == Emitted(reports)[|Emitted(reports)| - 1].state && Known(r.state)
    requires Emitted(reports)[|Emitted(reports)| - 1].now <= r.now < U64
    ensures Judge(After(reports), r) == Emit <==>
      r.state != OK && r.now - Emitted(reports)[|Emitted(reports)| - 1].now >= 60000
  {
    EmitsIff(reports, r);
    var last := Emitted(reports)[|Emitted(reports)| - 1].now;
    assert (r.now - last) % U64 == r.now - last;
  }

  /** Reports of any state but 1 (OK), 2 (degraded) and 3 (down) are rejected and change nothing; no other is. */
  lemma {:induction false} RejectsUnknown(reports: seq<Report>, r: Report)
    ensures Judge(After(reports), r) == Invalid <==> r.state != 1 && r.state != 2 && r.state != 3
    ensures r.state != 1 && r.state != 2 && r.state != 3 ==>
      After(reports + [r]) == After(reports) && Accepted(reports + [r]) == Accepted(reports)
    ensures r.state == 1 || r.state == 2 || r.state == 3 ==> Accepted(reports + [r]) == Accepted(reports) + [r]
  {
    RunIsTied(reports);
    RunSnoc(reports, r);
  }

  // ---------------------------------------------------------------- events tell the reported states

  lemma {:induction false} ChangesSnoc(s: seq<Report>, r: Report)
    ensures Changes(s + [r]) == if s != [] && s[|s| - 1].state == r.state then Changes(s) else Changes(s) + [r.state]
  {
    assert (s + [r])[..|s|] == s;
  }

  lemma {:induction false} EdgesSnoc(c: seq<int>, x: int)
    ensures Edges(c + [x]) == if c == [] && x == OK then [] else Edges(c) + [x]
  {
  }

  /** Whatever the clock does, the events tell exactly the changes of the accepted reports. */
  lemma {:induction false} EventsTellChanges(reports: seq<Report>)
    ensures Changes(Emitted(reports)) == Edges(Changes(Accepted(reports)))
  {
    if reports != [] {
      var before, r := reports[..|reports| - 1], reports[|reports| - 1];
      EventsTellChanges(before);
      RunIsTied(before);
      EventsStep(After(before), Accepted(before), Emitted(before), r);
    }
  }

  /** One more report adds the same change on both sides. */
  lemma {:induction false} EventsStep(g: Gate, accepted: seq<Report>, emitted: seq<Report>, r: Report)
    requires Tied(g, accepted, emitted) && Changes(emitted) == Edges(Changes(accepted))
    ensures var accepted' := if Known(r.state) then accepted + [r] else accepted;
      var emitted' := if Judge(g, r) == Emit then emitted + [r] else emitted;
      Changes(emitted') == Edges(Changes(accepted'))
  {
    ChangesSnoc(emitted, r);
    ChangesSnoc(accepted, r);
    EdgesSnoc(Changes(accepted), r.state);
  }

  // ---------------------------------------------------------------- how many events

  function FirstTime(accepted: seq<Report>): nat {
    if accepted == [] then 0 else accepted[0].now
  }

  function LastTime(accepted: seq<Report>): nat {
    if accepted == [] then 0 else accepted[|accepted| - 1].now
  }

  /** Events beyond the edges have a full window each before the gate's last event. */
  ghost predicate Paid(g: Gate, accepted: seq<Report>, emitted: seq<Report>) {
    && (accepted == [] ==> g == FRESH_GATE)
    && (accepted != [] ==> FirstTime(accepted) <= g.last <= LastTime(accepted))
    && (|emitted| - |Edges(Changes(accepted))|) * REPORT_WINDOW_MS <= g.last - FirstTime(accepted)
  }

  lemma {:induction false} PaidStep(g: Gate, accepted: seq<Report>, emitted: seq<Report>, r: Report)
    requires Tied(g, accepted, emitted) && Paid(g, accepted, emitted) && Known(r.state)
    requires accepted != [] ==> LastTime(accepted) <= r.now
    ensures Paid(Moved(g, r), accepted + [r], if Judge(g, r) == Emit then emitted + [r] else emitted)
  {
    ChangesSnoc(accepted, r);
    EdgesSnoc(Changes(accepted), r.state);
  }

  lemma {:induction false} OrderedInit(s: seq<Report>, r: Report)
    requires Ordered(s + [r])
    ensures Ordered(s) && (s != [] ==> LastTime(s) <= r.now)
  {
    var all := s + [r];
    assert forall i :: 0 <= i < |s| ==> all[i] == s[i];
    assert s != [] ==> all[|s| - 1].now <= all[|s|].now;
  }

  /** One more report. */
  lemma {:induction false} RunSnoc(before: seq<Report>, r: Report)
    ensures After(before + [r]) == Moved(After(before), r)
    ensures Emitted(before + [r]) == if Judge(After(before), r) == Emit then Emitted(before) + [r] else Emitted(before)
    ensures Accepted(before + [r]) == if Known(r.state) then Accepted(before) + [r] else Accepted(before)
  {
    assert (before + [r])[..|before|] == before;
  }

  lemma {:induction false} RunIsPaid(reports: seq<Report>)
    requires Ordered(Accepted(reports))
    ensures Paid(After(reports), Accepted(reports), Emitted(reports))
  {
    if reports != [] {
      var before, r := reports[..|reports| - 1], reports[|reports| - 1];
      assert reports == before + [r];
      RunSnoc(before, r);
      if Known(r.state) {
        OrderedInit(Accepted(before), r);
        RunIsPaid(before);
        RunIsTied(before);
        PaidStep(After(before), Accepted(before), Emitted(before), r);
      } else {
        RunIsPaid(before);
      }
    }
  }

  /** With a clock that does not go back: no more events than edges plus one for each full minute. */
  lemma {:induction false} EventsBounded(reports: seq<Report>)
    requires Ordered(Accepted(reports))
    ensures var a := Accepted(reports);
      |Emitted(reports)| <= |Edges(Changes(a))| + (LastTime(a) - FirstTime(a)) / REPORT_WINDOW_MS
  {
    RunIsPaid(reports);
  }

  /**
   What a clock that goes back does: repeating a state other than OK is emitted at once, however
   short the step back, up to 2^64 - 60000 ms.
   */
  lemma {:induction false} ClockBackIsEmitted(reports: seq<Report>, r: Report)
    requires Emitted(reports) != [] && r.state == Emitted(reports)[|Emitted(reports)| - 1].state
    requires r.state == DEGRADED || r.state == DOWN
    requires r.now < Emitted(reports)[|Emitted(reports)| - 1].now <= r.now + U64 - REPORT_WINDOW_MS
    ensures Judge(After(reports), r) == Emit
  {
    RunIsTied(reports);
    var last := Emitted(reports)[|Emitted(reports)| - 1].now;
    assert (r.now - last) % U64 == r.now - last + U64;
    EmitsIff(reports, r);
  }

  /**
   So without an ordered clock the bound fails for every first time but 0: three reports in a millisecond, two
   events.
   */
  lemma {:induction false} ClockBackBreaksBound(t: nat)
    requires t > 0
    ensures var a := [Report(DOWN, t), Report(DOWN, t - 1), Report(DOWN, t)];
      Accepted(a) == a && |Emitted(a)| > |Edges(Changes(a))| + (LastTime(a) - FirstTime(a)) / REPORT_WINDOW_MS
  {
    var r, s := Report(DOWN, t), Report(DOWN, t - 1);
    var one, two, three := [r], [r, s], [r, s, r];
    assert three[..2] == two && two[..1] == one && one[..0] == [];
    assert After(one) == Gate(DOWN, t) && Emitted(one) == one && Accepted(one) == one && Changes(one) == [DOWN];
    ClockBackIsEmitted(one, s);
    assert After(two) == Gate(DOWN, t - 1) && Emitted(two) == two && Accepted(two) == two && Changes(two) == [DOWN];
    assert Emitted(three) == two && Accepted(three) == three && Changes(three) == [DOWN];
  }

  // ---------------------------------------------------------------- the gate as code

  class DependencyGate {
    var state: int
    var last: nat

    ghost function Now(): Gate
      reads this
    {
      Gate(state, last)
    }

    constructor ()
      ensures Now() == FRESH_GATE
    {
      state, last := UNREPORTED, 0;
    }

    method Submit(daemon: string, r: Report) returns (v: Verdict)
      modifies this
      ensures daemon == "" ==> v == Invalid && Now() == old(Now())
      ensures daemon != "" ==> v == Judge(old(Now()), r) && Now() == Moved(old(Now()), r)
    {
      if daemon == "" || (r.state != OK && r.state != DEGRADED && r.state != DOWN) {
        return Invalid;
      }
      if state == UNREPORTED {
        state, last := r.state, r.now;
        return if r.state == OK then Silent else Emit;
      }
      if r.state != state {
        state, last := r.state, r.now;
        return Emit;
      }
      if r.state == OK {
        return Silent;
      }
      if Elapsed(r.now, last) < REPORT_WINDOW_MS {
        return Silent;
      }
      last := r.now;
      return Emit;
    }
  }
}
