/**
 The hot-swap drain gate: requests take a generation ticket, a swap drains them and moves the
 generation on, and a request that returns under another generation is told to discard its
 result. Every method body is one critical section of the gate's lock.
 */
module SwapGate {
  import opened Common

  /** Number of generations before the counter comes round: 0 is skipped. */
  const CYCLE := 0xFFFF_FFFF

  function Inc32(x: nat): nat {
    (x + 1) % U32
  }

  /** The gate's counters. The 64-bit statistics are unbounded here. */
  datatype Gate = Gate(gen: nat, inflight: nat, draining: bool, swapped: nat, mismatch: nat, drainTmo: nat)

  const FRESH_GATE := Gate(1, 0, false, 0, 0, 0)

  function Entered(g: Gate): Gate {
    if g.draining then g else g.(inflight := Inc32(g.inflight))
  }

  predicate Accepts(g: Gate, gen: nat) {
    gen != 0 && gen == g.gen
  }

  function Left(g: Gate, gen: nat): Gate {
    g.(mismatch := if Accepts(g, gen) then g.mismatch else g.mismatch + 1,
       inflight := if g.inflight > 0 then g.inflight - 1 else 0)
  }

  function NextGen(gen: nat): nat {
    if Inc32(gen) == 0 then 1 else Inc32(gen)
  }

  function Committed(g: Gate): Gate {
    if g.draining then g.(gen := NextGen(g.gen), swapped := Inc32(g.swapped), draining := false) else g
  }

  datatype Wake = Drained | TimedOut | KeepWaiting

  function WakeResult(g: Gate, expired: bool): Wake {
    if g.inflight == 0 then Drained else if expired then TimedOut else KeepWaiting
  }

  function Woken(g: Gate, expired: bool): Gate {
    if WakeResult(g, expired).TimedOut? then g.(drainTmo := g.drainTmo + 1) else g
  }

  // ---------------------------------------------------------------- the gate as code

  class Swap {
    var gen: nat
    var inflight: nat
    var draining: bool
    var swapped: nat
    var mismatch: nat
    var drainTmo: nat

    ghost function Now(): Gate
      reads this
    {
      Gate(gen, inflight, draining, swapped, mismatch, drainTmo)
    }

    constructor ()
      ensures Now() == FRESH_GATE
    {
      gen, inflight, draining, swapped, mismatch, drainTmo := 1, 0, false, 0, 0, 0;
    }

    method Enter() returns (busy: bool, ticket: nat)
      modifies this`inflight
      ensures Now() == Entered(old(Now())) && busy == old(draining)
      ensures !busy ==> ticket == gen
    {
      busy, ticket := false, 0;
      if draining {
        busy := true;
      } else {
        ticket := gen;
        inflight := (inflight + 1) % U32;
      }
    }

    method Leave(ticket: nat) returns (ok: bool)
      modifies this`inflight, this`mismatch
      ensures Now() == Left(old(Now()), ticket) && ok == Accepts(old(Now()), ticket)
    {
      ok := ticket != 0 && ticket == gen;
      if !ok {
        mismatch := mismatch + 1;
      }
      if inflight > 0 {
        inflight := inflight - 1;
      }
    }

    /** First half of begin: claim the drain. */
    method BeginSet() returns (busy: bool)
      modifies this`draining
      ensures busy == old(draining) && Now() == old(Now()).(draining := true)
    {
      if draining {
        return true;
      }
      draining := true;
      return false;
    }

    /** One turn of begin's wait loop, after taking the lock or after a wakeup of any kind. */
    method BeginWake(expired: bool) returns (r: Wake)
      modifies this`drainTmo
      ensures Now() == Woken(old(Now()), expired) && r == WakeResult(old(Now()), expired)
      ensures r.Drained? <==> inflight == 0
      ensures r.TimedOut? <==> inflight > 0 && expired
      ensures drainTmo == old(drainTmo) + if inflight > 0 && expired then 1 else 0
    {
      if inflight > 0 {
        if expired {
          drainTmo := drainTmo + 1;
          return TimedOut;
        }
        return KeepWaiting;
      }
      return Drained;
    }

    method Commit() returns (ok: bool)
      modifies this`gen, this`swapped, this`draining
      ensures Now() == Committed(old(Now())) && ok == old(draining)
    {
      if !draining {
        return false;
      }
      gen := (gen + 1) % U32;
      if gen == 0 {
        gen := 1;
      }
      swapped := (swapped + 1) % U32;
      draining := false;
      return true;
    }

    method Abort()
      modifies this`draining
      ensures Now() == old(Now()).(draining := false)
    {
      draining := false;
    }
  }

  // ---------------------------------------------------------------- interleavings

  /** Who holds the drain: nobody, a thread still waiting in begin, or one whose begin returned. */
  datatype Owner = Nobody | Waiting | Granted(timedOut: bool)

  /** A ticket in a request's hands; `at` is the number of commits before it was taken. */
  datatype Ticket = Ticket(gen: nat, at: nat)

  /**
   The gate with the history it does not keep: outstanding tickets by request, counts of commits,
   enters and accepted returns, and `overdue`, the tickets outstanding at timed-out commits.
   */
  datatype World = World(
    gate: Gate, owner: Owner, tickets: map<nat, Ticket>,
    commits: nat, enters: nat, accepted: nat, overdue: nat)

  const START := World(FRESH_GATE, Nobody, map[], 0, 0, 0, 0)

  datatype Action =
    | Enter(id: nat)
    | Leave(id: nat)
    | BeginSet
    | BeginWake(expired: bool)
    | Commit
    | Abort

  /**
   The callers' discipline: a request takes one ticket at a time and returns only a ticket it
   holds; only the thread whose begin returned commits or aborts. Fewer than 2^32 requests are
   in flight. Enters and begins during a drain, and commits outside one, are refused.
   */
  predicate Enabled(w: World, a: Action) {
    match a
    case Enter(id) => id !in w.tickets && |w.tickets| + 1 < U32
    case Leave(id) => id in w.tickets
    case BeginSet => true
    case BeginWake(_) => w.owner == Waiting
    case Commit => w.owner != Waiting
    case Abort => w.owner.Granted?
  }

  function Apply(w: World, a: Action): World
    requires Enabled(w, a)
  {
    match a
    case Enter(id) =>
      var v := w.(gate := Entered(w.gate));
      if w.gate.draining then v
      else v.(tickets := w.tickets[id := Ticket(w.gate.gen, w.commits)], enters := w.enters + 1)
    case Leave(id) =>
      var gen := w.tickets[id].gen;
      w.(gate := Left(w.gate, gen), tickets := w.tickets - {id},
         accepted := if Accepts(w.gate, gen) then w.accepted + 1 else w.accepted)
    case BeginSet =>
      w.(gate := w.gate.(draining := true), owner := if w.gate.draining then w.owner else Waiting)
    case BeginWake(expired) =>
      w.(gate := Woken(w.gate, expired),
         owner := match WakeResult(w.gate, expired)
                  case Drained => Granted(false)
                  case TimedOut => Granted(true)
                  case KeepWaiting => Waiting)
    case Commit =>
      var v := w.(gate := Committed(w.gate));
      if w.owner == Nobody then v
      else
        v.(owner := Nobody, commits := w.commits + 1,
           overdue := if w.owner.timedOut then w.overdue + |w.tickets| else w.overdue)
    case Abort => w.(gate := w.gate.(draining := false), owner := Nobody)
  }

  /** The world after any interleaving; a step that is not enabled does not happen. */
  function After(actions: seq<Action>): World {
    if actions == [] then START
    else
      var w, a := After(actions[..|actions| - 1]), actions[|actions| - 1];
      if Enabled(w, a) then Apply(w, a) else w
  }

  function Stale(w: World): set<nat> {
    set id | id in w.tickets && w.tickets[id].at < w.commits
  }

  function GenAfter(commits: nat): nat {
    1 + commits % CYCLE
  }

  ghost predicate Inv(w: World) {
    && w.gate.gen == GenAfter(w.commits)
    && w.gate.swapped == w.commits % U32
    && w.gate.inflight == |w.tickets| < U32
    && (w.gate.draining <==> w.owner != Nobody)
    && (w.owner == Granted(false) ==> w.tickets == map[])
    && (forall id :: id in w.tickets ==>
      w.tickets[id].at <= w.commits && w.tickets[id].gen == GenAfter(w.tickets[id].at))
    && w.enters == w.accepted + w.gate.mismatch + w.gate.inflight
    && |Stale(w)| + w.gate.mismatch <= w.overdue
    && (w.owner == Granted(true) || w.overdue > 0 ==> w.gate.drainTmo > 0)
  }

  lemma {:induction false} NextGenIsGenAfter(n: nat)
    ensures NextGen(GenAfter(n)) == GenAfter(n + 1)
  {
  }

  /** Two generations agree exactly when a whole number of cycles lies between them. */
  lemma {:induction false} SameGeneration(at: nat, now: nat)
    requires at <= now
    ensures GenAfter(at) == GenAfter(now) <==> (now - at) % CYCLE == 0
  {
    var q, r := at / CYCLE, at % CYCLE;
    var q', r' := now / CYCLE, now % CYCLE;
    assert now - at == (q' - q) * CYCLE + (r' - r);
    if r == r' {
      assert (now - at) % CYCLE == 0;
    } else if r' > r {
      assert (now - at) % CYCLE == r' - r;
    } else {
      assert (now - at) % CYCLE == r' - r + CYCLE;
    }
  }

  lemma {:induction false} EnterKeeps(w: World, id: nat)
    requires Inv(w) && Enabled(w, Enter(id))
    ensures Inv(Apply(w, Enter(id)))
  {
    var v := Apply(w, Enter(id));
    if !w.gate.draining {
      assert v.tickets.Keys == w.tickets.Keys + {id};
      assert |v.tickets| == |w.tickets| + 1;
    }
    assert Stale(v) == Stale(w);
  }

  lemma {:induction false} LeaveKeeps(w: World, id: nat)
    requires Inv(w) && Enabled(w, Leave(id))
    ensures Inv(Apply(w, Leave(id)))
  {
    var v := Apply(w, Leave(id));
    assert v.tickets.Keys == w.tickets.Keys - {id};
    assert |v.tickets| == |w.tickets| - 1;
    SameGeneration(w.tickets[id].at, w.commits);
    assert Stale(v) == Stale(w) - {id};
    if !Accepts(w.gate, w.tickets[id].gen) {
      assert id in Stale(w);
    }
  }

  lemma {:induction false} CommitKeeps(w: World)
    requires Inv(w) && Enabled(w, Commit)
    ensures Inv(Apply(w, Commit))
  {
    if w.owner == Nobody {
      assert Apply(w, Commit) == w;
    } else {
      NextGenIsGenAfter(w.commits);
      NextSwapped(w.commits);
      AllStale(w, Apply(w, Commit));
    }
  }

  lemma {:induction false} NextSwapped(n: nat)
    ensures Inc32(n % U32) == (n + 1) % U32
  {
  }

  /** A commit makes every outstanding ticket stale; after a clean drain there is none. */
  lemma {:induction false} AllStale(w: World, v: World)
    requires Inv(w) && v.tickets == w.tickets && v.commits == w.commits + 1
    ensures Stale(v) == w.tickets.Keys && |Stale(v)| == |w.tickets|
    ensures forall id :: id in w.tickets ==> w.tickets[id].at <= v.commits
  {
  }

  lemma {:induction false} StepKeeps(w: World, a: Action)
    requires Inv(w) && Enabled(w, a)
    ensures Inv(Apply(w, a))
  {
    match a
    case Enter(id) => EnterKeeps(w, id);
    case Leave(id) => LeaveKeeps(w, id);
    case Commit => CommitKeeps(w);
    case BeginSet => assert Stale(Apply(w, a)) == Stale(w);
    case BeginWake(expired) =>
      assert Stale(Apply(w, a)) == Stale(w);
      assert |w.tickets| == 0 ==> w.tickets == map[];
    case Abort => assert Stale(Apply(w, a)) == Stale(w);
  }

  /** The gate's invariant holds after every interleaving. */
  lemma {:induction false} AllInterleavings(actions: seq<Action>)
    ensures Inv(After(actions))
  {
    if actions != [] {
      var init, last := actions[..|actions| - 1], actions[|actions| - 1];
      AllInterleavings(init);
      if Enabled(After(init), last) {
        StepKeeps(After(init), last);
      }
    } else {
      assert Stale(START) == {};
    }
  }

  /**
   A returned ticket is accepted exactly when a whole number of cycles of commits lies between its
   enter and its leave: never after 1 to 2^32 - 2 swaps.
   */
  lemma {:induction false} LeaveVerdict(actions: seq<Action>, id: nat)
    requires id in After(actions).tickets
    ensures var w := After(actions);
      && w.tickets[id].at <= w.commits
      && (Accepts(w.gate, w.tickets[id].gen) <==> (w.commits - w.tickets[id].at) % CYCLE == 0)
      && (0 < w.commits - w.tickets[id].at < CYCLE ==> !Accepts(w.gate, w.tickets[id].gen))
  {
    AllInterleavings(actions);
    var w := After(actions);
    SameGeneration(w.tickets[id].at, w.commits);
  }

  /**
   The generation after n commits is 1 + n mod (2^32 - 1), never 0. Every enter is accounted for; a
   drained grant holds with no ticket outstanding; discarded results never exceed the tickets that
   timed-out commits overtook, and without a timed-out drain there are none.
   */
  lemma {:induction false} Accounting(actions: seq<Action>)
    ensures var w := After(actions);
      && w.gate.gen == 1 + w.commits % CYCLE && 1 <= w.gate.gen < U32
      && w.gate.swapped == w.commits % U32
      && w.enters == w.accepted + w.gate.mismatch + w.gate.inflight
      && w.gate.inflight == |w.tickets|
      && (w.owner == Granted(false) ==> w.gate.inflight == 0)
      && w.gate.mismatch <= w.overdue
      && (w.gate.drainTmo == 0 ==> w.gate.mismatch == 0)
  {
    AllInterleavings(actions);
  }

  /** While a drain is on, no step adds a request in flight, and the drain's end is commit or abort only. */
  lemma {:induction false} DrainOnlyShrinks(actions: seq<Action>, a: Action)
    requires After(actions).gate.draining
    ensures var w, v := After(actions), After(actions + [a]);
      && v.tickets.Keys <= w.tickets.Keys && v.gate.inflight <= w.gate.inflight
      && (!v.gate.draining ==> a == Commit || a == Abort)
      && (w.owner == Granted(false) && v.gate.draining ==> v.owner == Granted(false) && v.tickets == map[])
  {
    AllInterleavings(actions);
    assert (actions + [a])[..|actions|] == actions;
  }

  // ---------------------------------------------------------------- when a drain gives up

  /** What a wakeup of the waiting drainer decides: drained, given up after the deadline only, or wait on. */
  lemma {:induction false} WakeDecides(actions: seq<Action>, expired: bool)
    requires After(actions).owner == Waiting
    ensures var w := After(actions);
      Apply(w, BeginWake(expired)).owner ==
        if |w.tickets| == 0 then Granted(false) else if expired then Granted(true) else Waiting
  {
    AllInterleavings(actions);
  }

  /** Wakeups after the deadline that found a ticket outstanding. */
  function Expiries(actions: seq<Action>): nat {
    if actions == [] then 0
    else
      var init, a := actions[..|actions| - 1], actions[|actions| - 1];
      var late := a == BeginWake(true) && After(init).owner == Waiting && |After(init).tickets| > 0;
      Expiries(init) + if late then 1 else 0
  }

  /** The timeout counter counts exactly those, in every interleaving. */
  lemma {:induction false} TimeoutsAreExpiries(actions: seq<Action>)
    ensures After(actions).gate.drainTmo == Expiries(actions)
  {
    if actions != [] {
      TimeoutsAreExpiries(actions[..|actions| - 1]);
      AllInterleavings(actions[..|actions| - 1]);
    }
  }

  /** Before any deadline passes, no drain is given up. */
  lemma {:induction false} NoTimeoutBeforeDeadline(actions: seq<Action>)
    requires BeginWake(true) !in actions
    ensures After(actions).gate.drainTmo == 0 && After(actions).owner != Granted(true)
  {
    NoExpiries(actions);
    TimeoutsAreExpiries(actions);
    AllInterleavings(actions);
  }

  lemma {:induction false} NoExpiries(actions: seq<Action>)
    requires BeginWake(true) !in actions
    ensures Expiries(actions) == 0
  {
    if actions != [] {
      NoExpiries(actions[..|actions| - 1]);
    }
  }
}
