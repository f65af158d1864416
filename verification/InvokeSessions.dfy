/**
 Invoke sessions: a fixed table that lends each in-flight invoke a cancel token, with begin,
 end, cancel and cancel-all racing from different threads. Every function on tables is one
 critical section of the session lock. Tokens are addresses; a step that touches a token that is
 not allocated sets `fault`.
 */
module InvokeSessions {
  import opened Common

  const SESSIONS_MAX := 1024
  const ID_MAX := 63

  datatype Session = Session(active: bool, id: string, token: Option<nat>)

  const IDLE := Session(false, "", None)

  /** `live` and `cancelled` describe the tokens; `next` is the next address to allocate. */
  datatype Table = Table(slots: seq<Session>, live: set<nat>, cancelled: set<nat>, next: nat, fault: bool)

  function EmptyTable(): Table {
    Table(seq(SESSIONS_MAX, i => IDLE), {}, {}, 0, false)
  }

  predicate Holds(s: Session, id: string) {
    s.active && s.id == id
  }

  /** First active slot with this id, or the table's length. */
  function Find(slots: seq<Session>, id: string): (i: nat)
    ensures i <= |slots|
    ensures i < |slots| ==> Holds(slots[i], id)
    ensures forall k :: 0 <= k < i ==> !Holds(slots[k], id)
  {
    if slots == [] || Holds(slots[0], id) then 0 else 1 + Find(slots[1..], id)
  }

  function FirstFree(slots: seq<Session>): (i: nat)
    ensures i <= |slots|
    ensures i < |slots| ==> !slots[i].active
    ensures forall k :: 0 <= k < i ==> slots[k].active
  {
    if slots == [] || !slots[0].active then 0 else 1 + FirstFree(slots[1..])
  }

  // ---------------------------------------------------------------- critical sections

  function Destroy(t: Table, token: nat): Table {
    t.(live := t.live - {token}, fault := t.fault || token !in t.live)
  }

  function CancelToken(t: Table, token: nat): Table {
    t.(cancelled := t.cancelled + {token}, fault := t.fault || token !in t.live)
  }

  datatype BeginResult = Invalid | NoMemory | Busy | Granted(token: nat)

  /** Begin: allocate a token, if memory allows, then register it or give it back. */
  function Begin(t: Table, id: string, memory: bool): (Table, BeginResult) {
    if id == "" then (t, Invalid)
    else if !memory then (t, NoMemory)
    else
      var a := t.(live := t.live + {t.next}, cancelled := t.cancelled - {t.next}, next := t.next + 1);
      var i, j := Find(t.slots, id), FirstFree(t.slots);
      if i < |t.slots| || j == |t.slots| then (Destroy(a, t.next), Busy)
      else (a.(slots := t.slots[j := Session(true, Truncated(id, ID_MAX), Some(t.next))]), Granted(t.next))
  }

  function End(t: Table, id: string): Table {
    var i := Find(t.slots, id);
    if id == "" || i == |t.slots| then t
    else
      var freed := t.(slots := t.slots[i := IDLE]);
      match t.slots[i].token
      case Some(token) => Destroy(freed, token)
      case None => freed
  }

  /** Cancel; the flag says whether a token was found. */
  function Cancel(t: Table, id: string): (Table, bool) {
    var i := Find(t.slots, id);
    if id == "" || i == |t.slots| || t.slots[i].token.None? then (t, false)
    else (CancelToken(t, t.slots[i].token.value), true)
  }

  /** Cancels the tokens of the first `n` slots; the number counts them. */
  function CancelFirst(t: Table, n: nat): (Table, nat)
    requires n <= |t.slots|
  {
    if n == 0 then (t, 0)
    else
      var (u, count) := CancelFirst(t, n - 1);
      var s := t.slots[n - 1];
      if s.active && s.token.Some? then (CancelToken(u, s.token.value), count + 1) else (u, count)
  }

  // ---------------------------------------------------------------- interleavings

  datatype Action =
    | DoBegin(id: string, memory: bool)
    | DoEnd(id: string)
    | DoPoll(id: string)
    | DoCancel(id: string)
    | DoCancelAll

  /** The table and the tokens handed out and not yet ended, by request id; the latest if an id was granted twice. */
  datatype World = World(table: Table, held: map<string, nat>)

  /** A request ends or polls its session only after its begin succeeded. */
  predicate Enabled(w: World, a: Action) {
    match a
    case DoBegin(_, _) => true
    case DoEnd(id) => id in w.held
    case DoPoll(id) => id in w.held
    case DoCancel(id) => true
    case DoCancelAll => true
  }

  function Apply(w: World, a: Action): World
    requires Enabled(w, a)
  {
    match a
    case DoBegin(id, memory) =>
      var (t, r) := Begin(w.table, id, memory);
      World(t, if r.Granted? then w.held[id := r.token] else w.held)
    case DoEnd(id) => World(End(w.table, id), w.held - {id})
    case DoPoll(id) => w.(table := w.table.(fault := w.table.fault || w.held[id] !in w.table.live))
    case DoCancel(id) => w.(table := Cancel(w.table, id).0)
    case DoCancelAll => w.(table := CancelFirst(w.table, |w.table.slots|).0)
  }

  /** The world after any interleaving; a step that is not enabled does not happen. */
  function After(actions: seq<Action>): World {
    if actions == [] then World(EmptyTable(), map[])
    else
      var w, a := After(actions[..|actions| - 1]), actions[|actions| - 1];
      if Enabled(w, a) then Apply(w, a) else w
  }

  /** The id, if the action begins a session, fits a slot. */
  predicate Fits(a: Action) {
    a.DoBegin? ==> |a.id| <= ID_MAX
  }

  predicate AllFit(actions: seq<Action>) {
    forall a :: a in actions ==> Fits(a)
  }

  // ---------------------------------------------------------------- runs whose ids fit

  /** A slot is idle and empty, or active with a live token that its request holds. */
  ghost predicate SlotOk(w: World, s: Session) {
    if s.active then
      && 1 <= |s.id| <= ID_MAX && s.token.Some? && s.token.value in w.table.live
      && s.id in w.held && w.held[s.id] == s.token.value
    else s == IDLE
  }

  ghost predicate DistinctIds(slots: seq<Session>) {
    forall i, j :: 0 <= i < j < |slots| && slots[i].active && slots[j].active ==> slots[i].id != slots[j].id
  }

  /** The live tokens are exactly the ones handed out, each to one request. */
  ghost predicate TokensOwned(live: set<nat>, held: map<string, nat>, next: nat) {
    && (forall id :: id in held ==> held[id] in live)
    && (forall token :: token in live ==> token < next && exists id :: id in held && held[id] == token)
    && (forall id, id' :: id in held && id' in held && id != id' ==> held[id] != held[id'])
  }

  ghost predicate Inv(w: World) {
    && |w.table.slots| == SESSIONS_MAX
    && (forall i :: 0 <= i < SESSIONS_MAX ==> SlotOk(w, w.table.slots[i]))
    && DistinctIds(w.table.slots)
    && (forall id :: id in w.held ==> Find(w.table.slots, id) < SESSIONS_MAX)
    && TokensOwned(w.table.live, w.held, w.table.next)
    && !w.table.fault
  }

  lemma {:induction false} BusyBeginKeeps(w: World, id: string)
    requires Inv(w) && Begin(w.table, id, true).1.Busy?
    ensures Inv(World(Begin(w.table, id, true).0, w.held))
  {
    var t, u := w.table, Begin(w.table, id, true).0;
    assert t.next !in t.live;
    assert t.live + {t.next} - {t.next} == t.live;
    assert u.slots == t.slots && u.live == t.live && !u.fault;
    var v := World(u, w.held);
    forall k | 0 <= k < SESSIONS_MAX ensures SlotOk(v, u.slots[k]) {
      assert SlotOk(w, t.slots[k]);
    }
  }

  /** The world with a new session in slot `j`. */
  function Registered(w: World, id: string, j: nat): World
    requires j < |w.table.slots|
  {
    var t := w.table;
    World(t.(slots := t.slots[j := Session(true, id, Some(t.next))],
             live := t.live + {t.next}, cancelled := t.cancelled - {t.next}, next := t.next + 1),
          w.held[id := t.next])
  }

  lemma {:induction false} RegisterKeeps(w: World, id: string, j: nat)
    requires Inv(w) && 1 <= |id| <= ID_MAX && Find(w.table.slots, id) == SESSIONS_MAX
    requires j < SESSIONS_MAX && !w.table.slots[j].active
    ensures Inv(Registered(w, id, j))
  {
    var t, slots, v := w.table, w.table.slots, Registered(w, id, j);
    assert id !in w.held;
    forall k | 0 <= k < SESSIONS_MAX ensures SlotOk(v, v.table.slots[k]) {
      assert SlotOk(w, slots[k]);
    }
    assert DistinctIds(v.table.slots) by {
      assert forall k :: 0 <= k < SESSIONS_MAX ==> !Holds(slots[k], id);
    }
    forall x | x in v.held ensures Find(v.table.slots, x) < SESSIONS_MAX {
      assert Holds(v.table.slots[if x == id then j else Find(slots, x)], x);
    }
    BeginOwns(t.live, w.held, t.next, id);
  }

  lemma {:induction false} BeginKeeps(w: World, id: string, memory: bool)
    requires Inv(w) && |id| <= ID_MAX
    ensures Inv(Apply(w, DoBegin(id, memory)))
  {
    match Begin(w.table, id, memory).1
    case Busy => BusyBeginKeeps(w, id);
    case Granted(token) => RegisterKeeps(w, id, FirstFree(w.table.slots));
    case _ =>
  }

  lemma {:induction false} BeginOwns(live: set<nat>, held: map<string, nat>, next: nat, id: string)
    requires TokensOwned(live, held, next) && id !in held
    ensures TokensOwned(live + {next}, held[id := next], next + 1)
  {
    var held' := held[id := next];
    forall token | token in live + {next} ensures exists x :: x in held' && held'[x] == token {
      if token == next {
        assert held'[id] == token;
      } else {
        var x :| x in held && held[x] == token;
        assert held'[x] == token;
      }
    }
  }

  lemma {:induction false} EndKeeps(w: World, id: string)
    requires Inv(w) && Enabled(w, DoEnd(id))
    ensures Inv(Apply(w, DoEnd(id)))
  {
    var slots, v := w.table.slots, Apply(w, DoEnd(id));
    var i := Find(slots, id);
    assert SlotOk(w, slots[i]);
    forall k | 0 <= k < SESSIONS_MAX ensures SlotOk(v, v.table.slots[k]) {
      assert SlotOk(w, slots[k]);
      assert k != i && slots[k].active ==> slots[k].id != id;
    }
    forall x | x in v.held ensures Find(v.table.slots, x) < SESSIONS_MAX {
      assert Holds(v.table.slots[Find(slots, x)], x);
    }
    EndOwns(w.table.live, w.held, w.table.next, id);
  }

  lemma {:induction false} EndOwns(live: set<nat>, held: map<string, nat>, next: nat, id: string)
    requires TokensOwned(live, held, next) && id in held
    ensures TokensOwned(live - {held[id]}, held - {id}, next)
  {
    forall token | token in live - {held[id]} ensures exists x :: x in held - {id} && (held - {id})[x] == token {
      var x :| x in held && held[x] == token;
      assert x in held - {id};
    }
  }

  /** Cancelling touches live tokens only and changes nothing but their flags. */
  lemma {:induction false} CancelFirstKeeps(w: World, n: nat)
    requires Inv(w) && n <= SESSIONS_MAX
    ensures var u := CancelFirst(w.table, n).0;
      u == w.table.(cancelled := u.cancelled) && w.table.cancelled <= u.cancelled
    ensures forall i :: 0 <= i < n && w.table.slots[i].active ==>
      w.table.slots[i].token.value in CancelFirst(w.table, n).0.cancelled
    decreases n
  {
    if n > 0 {
      CancelFirstKeeps(w, n - 1);
      assert SlotOk(w, w.table.slots[n - 1]);
    }
  }

  lemma {:induction false} FlagsOnly(w: World, cancelled: set<nat>)
    requires Inv(w)
    ensures Inv(w.(table := w.table.(cancelled := cancelled)))
  {
    var v := w.(table := w.table.(cancelled := cancelled));
    assert forall k :: 0 <= k < SESSIONS_MAX ==> SlotOk(w, w.table.slots[k]) ==> SlotOk(v, w.table.slots[k]);
  }

  lemma {:induction false} StepKeeps(w: World, a: Action)
    requires Inv(w) && Enabled(w, a) && Fits(a)
    ensures Inv(Apply(w, a))
  {
    match a
    case DoBegin(id, memory) => BeginKeeps(w, id, memory);
    case DoEnd(id) => EndKeeps(w, id);
    case DoPoll(id) =>
      assert w.held[id] in w.table.live;
      assert Apply(w, a) == w;
    case DoCancel(id) =>
      var i := Find(w.table.slots, id);
      if i < SESSIONS_MAX {
        assert SlotOk(w, w.table.slots[i]);
        FlagsOnly(w, w.table.cancelled + {w.table.slots[i].token.value});
      }
    case DoCancelAll =>
      CancelFirstKeeps(w, SESSIONS_MAX);
      FlagsOnly(w, CancelFirst(w.table, SESSIONS_MAX).0.cancelled);
  }

  lemma {:induction false} AllInterleavings(actions: seq<Action>)
    requires AllFit(actions)
    ensures Inv(After(actions))
  {
    if actions == [] {
      assert forall i :: 0 <= i < SESSIONS_MAX ==> EmptyTable().slots[i] == IDLE;
    } else {
      var init, last := actions[..|actions| - 1], actions[|actions| - 1];
      AllInterleavings(init);
      if Enabled(After(init), last) {
        StepKeeps(After(init), last);
      }
    }
  }

  // ---------------------------------------------------------------- what callers may rely on

  /**
   After every interleaving of requests whose ids fit: active ids are distinct, every active session owns its own live
   token, every live token is owned, and no step has touched a token that was not allocated.
   */
  lemma {:induction false} SessionSafety(actions: seq<Action>)
    requires AllFit(actions)
    ensures var w := After(actions);
      && DistinctIds(w.table.slots)
      && (forall i :: 0 <= i < |w.table.slots| ==> SlotOk(w, w.table.slots[i]))
      && TokensOwned(w.table.live, w.held, w.table.next)
      && !w.table.fault
  {
    AllInterleavings(actions);
  }

  lemma {:induction false} HeldStep(w: World, a: Action, id: string)
    requires Inv(w) && Enabled(w, a) && id in w.held && a != DoEnd(id)
    ensures id in Apply(w, a).held && Apply(w, a).held[id] == w.held[id]
  {
    match a
    case DoBegin(x, memory) =>
      if x == id {
        assert Find(w.table.slots, id) < SESSIONS_MAX;
        assert !Begin(w.table, x, memory).1.Granted?;
      }
    case DoEnd(x) =>
    case DoPoll(x) =>
    case DoCancel(x) =>
    case DoCancelAll =>
  }

  lemma {:induction false} HeldOneMore(actions: seq<Action>, a: Action, id: string)
    requires AllFit(actions) && id in After(actions).held && a != DoEnd(id)
    ensures id in After(actions + [a]).held && After(actions + [a]).held[id] == After(actions).held[id]
  {
    assert (actions + [a])[..|actions|] == actions;
    AllInterleavings(actions);
    if Enabled(After(actions), a) {
      HeldStep(After(actions), a, id);
    }
  }

  /** A token handed out stays with its request, and live, however the run goes on, until the request's own end. */
  lemma {:induction false} HeldUntilEnd(actions: seq<Action>, more: seq<Action>, id: string)
    requires AllFit(actions + more) && id in After(actions).held && DoEnd(id) !in more
    ensures var w, v := After(actions), After(actions + more);
      id in v.held && v.held[id] == w.held[id] && v.held[id] in v.table.live
  {
    if more == [] {
      assert actions + more == actions;
    } else {
      var init, a := more[..|more| - 1], more[|more| - 1];
      assert actions + more == actions + init + [a];
      HeldUntilEnd(actions, init, id);
      HeldOneMore(actions + init, a, id);
    }
    AllInterleavings(actions + more);
  }

  /** Begin reports busy exactly when the id is active or no slot is free. */
  lemma {:induction false} BusyIff(t: Table, id: string)
    requires id != ""
    ensures Begin(t, id, true).1.Busy? <==>
      (exists i :: 0 <= i < |t.slots| && Holds(t.slots[i], id)) || (forall i :: 0 <= i < |t.slots| ==>
        t.slots[i].active)
  {
    var i, j := Find(t.slots, id), FirstFree(t.slots);
    assert i < |t.slots| ==> Holds(t.slots[i], id);
    assert j < |t.slots| ==> !t.slots[j].active;
  }

  /** Cancel finds a token exactly for the requests in flight, and sets that request's own token. */
  lemma {:induction false} CancelReaches(actions: seq<Action>, id: string)
    requires AllFit(actions)
    ensures var w := After(actions);
      && (Cancel(w.table, id).1 <==> id in w.held)
      && (id in w.held ==> w.held[id] in Cancel(w.table, id).0.cancelled)
  {
    AllInterleavings(actions);
    var w := After(actions);
    var i := Find(w.table.slots, id);
    if i < SESSIONS_MAX {
      assert SlotOk(w, w.table.slots[i]);
    }
  }

  /** Cancel-all sets the token of every request in flight. */
  lemma {:induction false} CancelAllReaches(actions: seq<Action>, id: string)
    requires AllFit(actions) && id in After(actions).held
    ensures var w := After(actions);
      |w.table.slots| == SESSIONS_MAX && w.held[id] in CancelFirst(w.table, SESSIONS_MAX).0.cancelled
  {
    AllInterleavings(actions);
    var w := After(actions);
    CancelFirstKeeps(w, SESSIONS_MAX);
    assert SlotOk(w, w.table.slots[Find(w.table.slots, id)]);
  }

  // ---------------------------------------------------------------- which tokens are cancelled

  lemma {:induction false} CancelInv(w: World, id: string)
    requires Inv(w)
    ensures id !in w.held ==> Cancel(w.table, id) == (w.table, false)
    ensures id in w.held ==>
      Cancel(w.table, id) == (w.table.(cancelled := w.table.cancelled + {w.held[id]}), true)
  {
    var i := Find(w.table.slots, id);
    if i < SESSIONS_MAX {
      assert SlotOk(w, w.table.slots[i]);
    }
  }

  /** Cancel flags the request's own token and no other; without a session it does nothing. */
  lemma {:induction false} CancelTouchesOne(actions: seq<Action>, id: string, other: string)
    requires AllFit(actions) && other in After(actions).held
    ensures var w := After(actions);
      && (id !in w.held ==> Cancel(w.table, id) == (w.table, false))
      && (w.held[other] in Cancel(w.table, id).0.cancelled <==> w.held[other] in w.table.cancelled || other == id)
  {
    AllInterleavings(actions);
    CancelInv(After(actions), id);
  }

  predicate Owns(s: Session, token: nat) {
    s.active && s.token == Some(token)
  }

  /** Cancel-all flags exactly the tokens of the first `n` sessions. */
  lemma {:induction false} CancelFirstExact(w: World, n: nat, token: nat)
    requires Inv(w) && n <= SESSIONS_MAX
    ensures token in CancelFirst(w.table, n).0.cancelled <==>
      token in w.table.cancelled || exists i :: 0 <= i < n && Owns(w.table.slots[i], token)
  {
    if n > 0 {
      CancelFirstExact(w, n - 1, token);
      assert SlotOk(w, w.table.slots[n - 1]);
    }
  }

  /** Ids of the sessions in the first `n` slots. */
  function ActiveIds(slots: seq<Session>, n: nat): set<string>
    requires n <= |slots|
  {
    set i | 0 <= i < n && slots[i].active :: slots[i].id
  }

  lemma {:induction false} ActiveSnoc(slots: seq<Session>, n: nat)
    requires n < |slots| && DistinctIds(slots)
    ensures |ActiveIds(slots, n + 1)| == |ActiveIds(slots, n)| + if slots[n].active then 1 else 0
  {
    var before := ActiveIds(slots, n);
    if slots[n].active {
      assert slots[n].id !in before;
      assert ActiveIds(slots, n + 1) == before + {slots[n].id};
    } else {
      assert ActiveIds(slots, n + 1) == before;
    }
  }

  lemma {:induction false} CancelFirstCounts(t: Table, n: nat)
    requires n <= |t.slots| && DistinctIds(t.slots)
    requires forall i :: 0 <= i < |t.slots| && t.slots[i].active ==> t.slots[i].token.Some?
    ensures CancelFirst(t, n).1 == |ActiveIds(t.slots, n)|
  {
    if n > 0 {
      CancelFirstCounts(t, n - 1);
      ActiveSnoc(t.slots, n - 1);
    }
  }

  lemma {:induction false} CancelAllInv(w: World, token: nat)
    requires Inv(w)
    ensures CancelFirst(w.table, SESSIONS_MAX).1 == |w.held|
    ensures token in CancelFirst(w.table, SESSIONS_MAX).0.cancelled <==>
      token in w.table.cancelled || token in w.held.Values
  {
    assert forall i :: 0 <= i < SESSIONS_MAX ==> SlotOk(w, w.table.slots[i]);
    CancelFirstCounts(w.table, SESSIONS_MAX);
    CancelFirstExact(w, SESSIONS_MAX, token);
    ActiveAreHeld(w);
    if token in w.held.Values {
      var id :| id in w.held && w.held[id] == token;
      assert SlotOk(w, w.table.slots[Find(w.table.slots, id)]);
    }
  }

  /** Cancel-all flags the tokens of the requests in flight and no others, and counts those requests. */
  lemma {:induction false} CancelAllExact(actions: seq<Action>, token: nat)
    requires AllFit(actions)
    ensures var w := After(actions);
      && |w.table.slots| == SESSIONS_MAX
      && CancelFirst(w.table, SESSIONS_MAX).1 == |w.held|
      && (token in CancelFirst(w.table, SESSIONS_MAX).0.cancelled <==>
        token in w.table.cancelled || token in w.held.Values)
  {
    AllInterleavings(actions);
    CancelAllInv(After(actions), token);
  }

  lemma {:induction false} ActiveAreHeld(w: World)
    requires Inv(w)
    ensures ActiveIds(w.table.slots, SESSIONS_MAX) == w.held.Keys && |w.held.Keys| == |w.held|
    ensures forall i :: 0 <= i < SESSIONS_MAX && w.table.slots[i].active ==>
      w.table.slots[i].token.value in w.held.Values
  {
    forall i | 0 <= i < SESSIONS_MAX && w.table.slots[i].active
      ensures w.table.slots[i].id in w.held && w.table.slots[i].token.Some? &&
        w.table.slots[i].token.value in w.held.Values
    {
      assert SlotOk(w, w.table.slots[i]);
    }
    forall id | id in w.held ensures id in ActiveIds(w.table.slots, SESSIONS_MAX) {
      assert Holds(w.table.slots[Find(w.table.slots, id)], id);
    }
  }

  /** Whether the request in flight under `id` was cancelled, by name or with all, since it began. */
  predicate CancelAsked(actions: seq<Action>, id: string) {
    if actions == [] then false
    else
      var init, a := actions[..|actions| - 1], actions[|actions| - 1];
      match a
      case DoBegin(x, _) => CancelAsked(init, id) && (x == id ==> id in After(init).held)
      case DoCancel(x) => CancelAsked(init, id) || x == id
      case DoCancelAll => true
      case _ => CancelAsked(init, id)
  }

  /** The token of the request under `id` is flagged. */
  predicate Flagged(w: World, id: string) {
    id in w.held && w.held[id] in w.table.cancelled
  }

  lemma {:induction false} BeginFlags(w: World, x: string, memory: bool, id: string)
    requires Inv(w) && id in Apply(w, DoBegin(x, memory)).held
    ensures Flagged(Apply(w, DoBegin(x, memory)), id) <==> Flagged(w, id)
    ensures x != id ==> id in w.held
  {
    var v := Apply(w, DoBegin(x, memory));
    if id in w.held {
      HeldStep(w, DoBegin(x, memory), id);
      assert w.held[id] < w.table.next;
    } else {
      assert v.held[id] == w.table.next && w.table.next !in v.table.cancelled;
    }
  }

  /** How one step moves the flag of a token in use. */
  lemma {:induction false} FlagStep(w: World, a: Action, id: string)
    requires Inv(w) && Enabled(w, a) && id in Apply(w, a).held
    ensures Flagged(Apply(w, a), id) <==> Flagged(w, id) || a == DoCancel(id) || a == DoCancelAll
    ensures id in w.held || (a.DoBegin? && a.id == id)
  {
    match a
    case DoBegin(x, memory) => BeginFlags(w, x, memory, id);
    case DoCancel(x) => CancelInv(w, x);
    case DoCancelAll =>
      CancelAllInv(w, w.held[id]);
      assert w.held[id] in w.held.Values;
    case DoEnd(x) =>
    case DoPoll(x) =>
  }

  /**
   Over every run with fitting ids: the token of a request in flight is cancelled if and only if its
   request, or all of them, were cancelled since it began. So a token just handed out is not.
   */
  lemma {:induction false} CancelledIffAsked(actions: seq<Action>, id: string)
    requires AllFit(actions) && id in After(actions).held
    ensures Flagged(After(actions), id) <==> CancelAsked(actions, id)
  {
    if actions != [] {
      var init, a := actions[..|actions| - 1], actions[|actions| - 1];
      assert forall b :: b in init ==> b in actions;
      AllInterleavings(init);
      if Enabled(After(init), a) {
        FlagStep(After(init), a, id);
      }
      if id in After(init).held {
        CancelledIffAsked(init, id);
      }
    }
  }

  // ---------------------------------------------------------------- ids of any length

  /** What holds whatever the ids: stored ids fit, and a request in flight whose id fits finds a session under it. */
  ghost predicate Stored(w: World) {
    && |w.table.slots| == SESSIONS_MAX
    && (forall i :: 0 <= i < SESSIONS_MAX && w.table.slots[i].active ==> |w.table.slots[i].id| <= ID_MAX)
    && (forall id :: id in w.held ==> id != "")
    && (forall id :: id in w.held && |id| <= ID_MAX ==> Find(w.table.slots, id) < SESSIONS_MAX)
  }

  lemma {:induction false} CancelFirstSlots(t: Table, n: nat)
    requires n <= |t.slots|
    ensures CancelFirst(t, n).0.slots == t.slots
  {
    if n > 0 {
      CancelFirstSlots(t, n - 1);
    }
  }

  /** Changing one slot does not hide the sessions under other ids. */
  lemma {:induction false} StillFound(slots: seq<Session>, i: nat, s: Session, id: string)
    requires i < |slots| && Find(slots, id) < |slots| && (Find(slots, id) != i || Holds(s, id))
    ensures Find(slots[i := s], id) < |slots|
  {
    assert Holds(slots[i := s][Find(slots, id)], id);
  }

  lemma {:induction false} BeginStores(w: World, id: string, memory: bool)
    requires Stored(w)
    ensures Stored(Apply(w, DoBegin(id, memory)))
  {
    var v, j := Apply(w, DoBegin(id, memory)), FirstFree(w.table.slots);
    if Begin(w.table, id, memory).1.Granted? {
      forall x | x in v.held && |x| <= ID_MAX ensures Find(v.table.slots, x) < SESSIONS_MAX {
        if x == id {
          assert Holds(v.table.slots[j], x);
        } else {
          StillFound(w.table.slots, j, v.table.slots[j], x);
        }
      }
    }
  }

  lemma {:induction false} EndStores(w: World, id: string)
    requires Stored(w) && id in w.held
    ensures Stored(Apply(w, DoEnd(id)))
  {
    var v, i := Apply(w, DoEnd(id)), Find(w.table.slots, id);
    if i < SESSIONS_MAX {
      forall x | x in v.held && |x| <= ID_MAX ensures Find(v.table.slots, x) < SESSIONS_MAX {
        StillFound(w.table.slots, i, IDLE, x);
      }
    }
  }

  lemma {:induction false} AnyRunStores(actions: seq<Action>)
    ensures Stored(After(actions))
  {
    if actions == [] {
      assert forall i :: 0 <= i < SESSIONS_MAX ==> EmptyTable().slots[i] == IDLE;
    } else {
      var w, a := After(actions[..|actions| - 1]), actions[|actions| - 1];
      AnyRunStores(actions[..|actions| - 1]);
      if Enabled(w, a) {
        match a
        case DoBegin(id, memory) => BeginStores(w, id, memory);
        case DoEnd(id) => EndStores(w, id);
        case DoPoll(id) =>
        case DoCancel(id) =>
        case DoCancelAll => CancelFirstSlots(w.table, |w.table.slots|);
      }
    }
  }

  /**
   In every run, whatever the ids in it: a request in flight gives its session back by ending exactly
   when its id fits. One whose id does not fit finds no session under it: its end and its cancel do nothing.
   */
  lemma {:induction false} EndReleasesIffIdFits(actions: seq<Action>, id: string)
    requires id in After(actions).held
    ensures var t := After(actions).table;
      && (End(t, id).slots != t.slots <==> |id| <= ID_MAX)
      && (|id| > ID_MAX ==> End(t, id) == t && Cancel(t, id) == (t, false))
  {
    AnyRunStores(actions);
    var t := After(actions).table;
    var i := Find(t.slots, id);
    if |id| <= ID_MAX {
      assert t.slots[i].active && !End(t, id).slots[i].active;
    }
  }

  // ---------------------------------------------------------------- one id too long is enough

  /** Begins use only `x` and ids that fit. */
  predicate OnlyLong(actions: seq<Action>, x: string) {
    forall a :: a in actions ==> Fits(a) || (a.DoBegin? && a.id == x)
  }

  /** Two leading slots, the others idle. */
  ghost predicate Leading(slots: seq<Session>, a: Session, b: Session) {
    |slots| == SESSIONS_MAX && slots[0] == a && slots[1] == b && forall i :: 2 <= i < SESSIONS_MAX ==> slots[i] == IDLE
  }

  lemma {:induction false} AfterSnoc(actions: seq<Action>, a: Action)
    ensures var w := After(actions); After(actions + [a]) == if Enabled(w, a) then Apply(w, a) else w
  {
    assert (actions + [a])[..|actions|] == actions;
  }

  function Taken(id: string, token: nat): Session {
    Session(true, Truncated(id, ID_MAX), Some(token))
  }

  /** Begin under an id that no slot shows, with the first or the second slot free. */
  lemma {:induction false} BeginLeading(w: World, id: string, a: Session, b: Session) returns (v: World)
    requires Leading(w.table.slots, a, b) && id != "" && !Holds(a, id) && !Holds(b, id) && (!a.active || !b.active)
    ensures v == Apply(w, DoBegin(id, true)) && v.held == w.held[id := w.table.next] && v.table.next == w.table.next + 1
    ensures v.table.live == w.table.live + {w.table.next} && v.table.fault == w.table.fault
    ensures if a.active then Leading(v.table.slots, a, Taken(id, w.table.next))
      else Leading(v.table.slots, Taken(id, w.table.next), b)
  {
    v := Apply(w, DoBegin(id, true));
    var slots := w.table.slots;
    assert Find(slots, id) == |slots|;
    assert FirstFree(slots) == if a.active then 1 else 0;
  }

  /** End of the session in the first slot. */
  lemma {:induction false} EndLeading(w: World, id: string, token: nat, b: Session) returns (v: World)
    requires Leading(w.table.slots, Taken(id, token), b) && id != "" && |id| <= ID_MAX && id in w.held &&
      token in w.table.live
    ensures v == Apply(w, DoEnd(id)) && v.held == w.held - {id} && v.table.next == w.table.next
    ensures v.table.live == w.table.live - {token} && v.table.fault == w.table.fault
    ensures Leading(v.table.slots, IDLE, b)
  {
    v := Apply(w, DoEnd(id));
    assert Holds(w.table.slots[0], id);
    assert Find(w.table.slots, id) == 0;
  }

  /** `y` is in flight in the second slot and the first is free. */
  ghost predicate FrontFree(w: World, y: string) {
    && Leading(w.table.slots, IDLE, Taken(y, 1)) && y in w.held && w.held[y] == 1
    && w.table.live == {1} && w.table.next == 2
  }

  lemma {:induction false} ThreeSteps(w: World, d: string, y: string) returns (w1: World, w2: World, w3: World)
    requires w == World(EmptyTable(), map[]) && d != "" && |d| <= ID_MAX && d != y && |y| == ID_MAX
    ensures w1 == Apply(w, DoBegin(d, true)) && w2 == Apply(w1, DoBegin(y, true))
    ensures d in w2.held && w3 == Apply(w2, DoEnd(d)) && FrontFree(w3, y)
  {
    assert Leading(EmptyTable().slots, IDLE, IDLE);
    w1 := BeginLeading(w, d, IDLE, IDLE);
    w2 := BeginLeading(w1, y, Taken(d, 0), IDLE);
    w3 := EndLeading(w2, d, 0, Taken(y, 1));
  }

  /** A run with begins under `x` and fitting ids only, and the world it leads to. */
  ghost predicate Reaches(actions: seq<Action>, x: string, w: World) {
    OnlyLong(actions, x) && After(actions) == w
  }

  lemma {:induction false} OneMoreStep(actions: seq<Action>, x: string, w: World, a: Action, v: World)
      returns (more: seq<Action>)
    requires Reaches(actions, x, w) && Enabled(w, a) && v == Apply(w, a) && (Fits(a) || a == DoBegin(x, true))
    ensures Reaches(more, x, v)
  {
    more := actions + [a];
    AfterSnoc(actions, a);
  }

  lemma {:induction false} FreeInFront(x: string, y: string, d: string) returns (actions: seq<Action>, w3: World)
    requires |y| == ID_MAX && d != "" && |d| <= ID_MAX && d != y
    ensures Reaches(actions, x, w3) && FrontFree(w3, y)
  {
    var w := World(EmptyTable(), map[]);
    var w1, w2;
    w1, w2, w3 := ThreeSteps(w, d, y);
    actions := [];
    assert Reaches(actions, x, w);
    actions := OneMoreStep(actions, x, w, DoBegin(d, true), w1);
    actions := OneMoreStep(actions, x, w1, DoBegin(y, true), w2);
    actions := OneMoreStep(actions, x, w2, DoEnd(d), w3);
  }

  /**
   A request whose id was cut shows the id of another one. When a slot in front is free, the other
   request's end finds the wrong session, and the token is gone while its request still polls it.
   */
  lemma {:induction false} CutIdIsConfused(x: string) returns (actions: seq<Action>)
    requires |x| > ID_MAX
    ensures OnlyLong(actions, x) && After(actions).table.fault
  {
    var y := x[..ID_MAX];
    var w3;
    actions, w3 := FreeInFront(x, y, "d");
    var w4 := BeginLeading(w3, x, IDLE, Taken(y, 1));
    var w5 := EndLeading(w4, y, 2, Taken(y, 1));
    assert w5.held[x] == 2 && 2 !in w5.table.live;
    actions := OneMoreStep(actions, x, w3, DoBegin(x, true), w4);
    actions := OneMoreStep(actions, x, w4, DoEnd(y), w5);
    actions := OneMoreStep(actions, x, w5, DoPoll(x), Apply(w5, DoPoll(x)));
  }

  /**
   Exactly how long an id may be: allowing requests under `x`, beside any requests whose ids fit, no run
   ever touches a token that is not allocated, if and only if `x` fits.
   */
  lemma {:induction false} NoFaultIffIdFits(x: string)
    ensures (forall actions :: OnlyLong(actions, x) ==> !After(actions).table.fault) <==> |x| <= ID_MAX
  {
    if |x| <= ID_MAX {
      forall actions | OnlyLong(actions, x) ensures !After(actions).table.fault {
        AllInterleavings(actions);
      }
    } else {
      var actions := CutIdIsConfused(x);
    }
  }

  // ---------------------------------------------------------------- the table as code

  class SessionTable {
    const sessions: array<Session>
    var next: nat
    ghost var live: set<nat>
    ghost var cancelled: set<nat>
    ghost var fault: bool

    ghost function Now(): Table
      reads this, sessions
    {
      Table(sessions[..], live, cancelled, next, fault)
    }

    constructor ()
      ensures Now() == EmptyTable() && fresh(sessions)
    {
      sessions := new Session[SESSIONS_MAX](i => IDLE);
      next, live, cancelled, fault := 0, {}, {}, false;
    }

    method FindSlot(id: string) returns (i: nat)
      ensures i == Find(sessions[..], id)
    {
      i := 0;
      while i < sessions.Length
        invariant i <= sessions.Length && Find(sessions[..], id) == i + Find(sessions[i..], id)
      {
        if sessions[i].active && sessions[i].id == id {
          return;
        }
        assert sessions[i..][1..] == sessions[i + 1..];
        i := i + 1;
      }
    }

    method FreeSlot() returns (i: nat)
      ensures i == FirstFree(sessions[..])
    {
      i := 0;
      while i < sessions.Length
        invariant i <= sessions.Length && FirstFree(sessions[..]) == i + FirstFree(sessions[i..])
      {
        if !sessions[i].active {
          return;
        }
        assert sessions[i..][1..] == sessions[i + 1..];
        i := i + 1;
      }
    }

    method NewToken() returns (token: nat)
      modifies this`next, this`live, this`cancelled
      ensures token == old(next)
      ensures Now() == old(Now()).(live := old(live) + {token}, cancelled := old(cancelled) - {token},
        next := token + 1)
    {
      token := next;
      next, live, cancelled := next + 1, live + {token}, cancelled - {token};
    }

    method DestroyToken(token: nat)
      modifies this`live, this`fault
      ensures Now() == Destroy(old(Now()), token)
    {
      fault := fault || token !in live;
      live := live - {token};
    }

    method InvokeBegin(id: string, memory: bool) returns (r: BeginResult)
      modifies this, sessions
      ensures (Now(), r) == Begin(old(Now()), id, memory)
    {
      if id == "" {
        return Invalid;
      }
      if !memory {
        return NoMemory;
      }
      var token := NewToken();
      var i := FindSlot(id);
      if i < sessions.Length {
        DestroyToken(token);
        return Busy;
      }
      var j := FreeSlot();
      if j < sessions.Length {
        sessions[j] := Session(true, Truncated(id, ID_MAX), Some(token));
        return Granted(token);
      }
      DestroyToken(token);
      return Busy;
    }

    method InvokeEnd(id: string)
      modifies this, sessions
      ensures Now() == End(old(Now()), id)
    {
      if id == "" {
        return;
      }
      var i := FindSlot(id);
      if i < sessions.Length {
        var token := sessions[i].token;
        sessions[i] := IDLE;
        if token.Some? {
          DestroyToken(token.value);
        }
      }
    }

    method CancelOne(token: nat)
      modifies this`cancelled, this`fault
      ensures Now() == CancelToken(old(Now()), token)
    {
      fault := fault || token !in live;
      cancelled := cancelled + {token};
    }

    method InvokeCancel(id: string) returns (found: bool)
      modifies this`cancelled, this`fault
      ensures (Now(), found) == Cancel(old(Now()), id)
    {
      if id == "" {
        return false;
      }
      var i := FindSlot(id);
      found := i < sessions.Length && sessions[i].token.Some?;
      if found {
        CancelOne(sessions[i].token.value);
      }
    }

    method InvokeCancelAll() returns (n: nat)
      modifies this`cancelled, this`fault
      ensures (Now(), n) == CancelFirst(old(Now()), |old(Now()).slots|)
    {
      n := 0;
      var i := 0;
      while i < sessions.Length
        invariant i <= sessions.Length && (Now(), n) == CancelFirst(old(Now()), i)
      {
        if sessions[i].active && sessions[i].token.Some? {
          CancelOne(sessions[i].token.value);
          n := n + 1;
        }
        i := i + 1;
      }
    }
  }
}
