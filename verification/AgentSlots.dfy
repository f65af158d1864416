/**
 The agent slots of the agent service: reserve, spawn, register, roll back, terminate and reap,
 over a slot array with a name index. Each function on services is one critical section; the
 outcome of memory allocation, child start and index insertion is a parameter.
 */
module AgentSlots {

  datatype Status = Free | Running | Terminated | Spawning

  /** An empty id stands for NULL. */
  datatype Slot = Slot(status: Status, id: string)

  const UNUSED := Slot(Free, "")

  /** Slots 0 to count-1 have been used. `index` maps names to slots; the rest are statistics. */
  datatype Service = Service(slots: seq<Slot>, count: nat, index: map<string, nat>, total: nat, ok: nat, fail: nat)

  function Fresh(max: nat): Service {
    Service(seq(max, i => UNUSED), 0, map[], 0, 0, 0)
  }

  predicate Registered(s: Slot) {
    s.status == Running || s.status == Terminated
  }

  // ---------------------------------------------------------------- critical sections

  /** First free slot among those given, or their number. */
  function FirstFree(slots: seq<Slot>): (i: nat)
    ensures i <= |slots|
    ensures i < |slots| ==> slots[i].status == Free
    ensures forall k :: 0 <= k < i ==> slots[k].status != Free
  {
    if slots == [] || slots[0].status == Free then 0 else 1 + FirstFree(slots[1..])
  }

  /** Reserve a slot under a generated id; `memory` says whether id and spec could be allocated. */
  function Reserve(s: Service, id: string, memory: bool): Service
    requires s.count <= |s.slots|
  {
    var i := FirstFree(s.slots[..s.count]);
    if i == |s.slots| then s.(total := s.total + 1, fail := s.fail + 1)
    else
      var t := s.(count := if i == s.count then s.count + 1 else s.count, total := s.total + 1);
      if memory then t.(slots := s.slots[i := Slot(Spawning, id)])
      else t.(slots := s.slots[i := UNUSED], fail := s.fail + 1)
  }

  /** What entering the index comes to: done, refused, or not even tried because the service has been shut down. */
  datatype Put = Stored | Refused | ShutDown

  /** The spawned child is ready: enter the index and run, or roll back when the index refuses. */
  function FinishOk(s: Service, i: nat, put: Put): Service
    requires i < |s.slots|
  {
    match put
    case Refused => Rollback(s, i)
    case _ =>
      s.(slots := s.slots[i := s.slots[i].(status := Running)],
         index := if put.Stored? then s.index[s.slots[i].id := i] else s.index, ok := s.ok + 1)
  }

  function Rollback(s: Service, i: nat): Service
    requires i < |s.slots|
  {
    s.(slots := s.slots[i := UNUSED], fail := s.fail + 1)
  }

  /** What terminate looks up before it takes the slot's own lock. */
  predicate Found(s: Service, id: string) {
    id in s.index && s.index[id] < s.count
  }

  function TerminateSlot(s: Service, i: nat): Service
    requires i < |s.slots|
  {
    s.(slots := s.slots[i := s.slots[i].(status := Terminated)])
  }

  /** Reaping re-checks the slot under its lock. */
  function ReapSlot(s: Service, i: nat): Service
    requires i < |s.slots|
  {
    if s.slots[i].status == Running then TerminateSlot(s, i) else s
  }

  // ---------------------------------------------------------------- interleavings

  datatype Action =
    | DoReserve(id: string, memory: bool)
    | DoFinish(i: nat, spawned: bool, put: Put)
    | DoLookup(id: string)
    | DoTerminate(i: nat)
    | DoReap(i: nat)

  /** The service, the ids ever generated, and the slots any terminate has looked up. */
  datatype World = World(svc: Service, used: set<string>, found: set<nat>)

  /**
   Generated ids are new; a spawn finishes the slot it reserved; terminate stops a slot it looked
   up; reap may visit any used slot. The service is not shut down while calls are in progress.
   */
  predicate Enabled(w: World, a: Action) {
    match a
    case DoReserve(id, _) => id != "" && id !in w.used && w.svc.count <= |w.svc.slots|
    case DoFinish(i, _, put) => i < |w.svc.slots| && w.svc.slots[i].status == Spawning && !put.ShutDown?
    case DoLookup(id) => true
    case DoTerminate(i) => i in w.found && i < |w.svc.slots|
    case DoReap(i) => i < |w.svc.slots|
  }

  function Apply(w: World, a: Action): World
    requires Enabled(w, a)
  {
    match a
    case DoReserve(id, memory) => w.(svc := Reserve(w.svc, id, memory), used := w.used + {id})
    case DoFinish(i, spawned, put) => w.(svc := if spawned then FinishOk(w.svc, i, put) else Rollback(w.svc, i))
    case DoLookup(id) => if Found(w.svc, id) then w.(found := w.found + {w.svc.index[id]}) else w
    case DoTerminate(i) => w.(svc := TerminateSlot(w.svc, i))
    case DoReap(i) => w.(svc := ReapSlot(w.svc, i))
  }

  function After(max: nat, actions: seq<Action>): World {
    if actions == [] then World(Fresh(max), {}, {})
    else
      var w, a := After(max, actions[..|actions| - 1]), actions[|actions| - 1];
      if Enabled(w, a) then Apply(w, a) else w
  }

  // ---------------------------------------------------------------- counting

  function CountRegistered(slots: seq<Slot>): (n: nat)
    ensures n <= |slots|
  {
    if slots == [] then 0
    else CountRegistered(slots[..|slots| - 1]) + if Registered(slots[|slots| - 1]) then 1 else 0
  }

  function CountSpawning(slots: seq<Slot>): nat {
    if slots == [] then 0
    else CountSpawning(slots[..|slots| - 1]) + if slots[|slots| - 1].status == Spawning then 1 else 0
  }

  function One(b: bool): nat {
    if b then 1 else 0
  }

  /** Changing one slot changes the counts by that slot's part. */
  lemma {:induction false} CountUpdate(slots: seq<Slot>, i: nat, s: Slot)
    requires i < |slots|
    ensures CountRegistered(slots[i := s]) == CountRegistered(slots) + One(Registered(s)) - One(Registered(slots[i]))
    ensures CountSpawning(slots[i := s]) ==
      CountSpawning(slots) + One(s.status == Spawning) - One(slots[i].status == Spawning)
  {
    var n := |slots| - 1;
    if i == n {
      assert slots[i := s][..n] == slots[..n];
    } else {
      assert slots[i := s][..n] == slots[..n][i := s];
      CountUpdate(slots[..n], i, s);
    }
  }

  lemma {:induction false} CountFresh(max: nat)
    ensures CountRegistered(seq(max, i => UNUSED)) == 0 && CountSpawning(seq(max, i => UNUSED)) == 0
  {
    if max > 0 {
      assert seq(max, i => UNUSED)[..max - 1] == seq(max - 1, i => UNUSED);
      CountFresh(max - 1);
    }
  }

  // ---------------------------------------------------------------- invariant

  /** The index names exactly the registered slots. */
  ghost predicate IndexExact(slots: seq<Slot>, index: map<string, nat>) {
    && (forall id :: id in index ==> index[id] < |slots| && Registered(slots[index[id]]) && slots[index[id]].id == id)
    && (forall i :: 0 <= i < |slots| && Registered(slots[i]) ==> slots[i].id in index && index[slots[i].id] == i)
  }

  /** Names of slots in use are generated ones, each on one slot; free slots have none. */
  ghost predicate NamesExact(slots: seq<Slot>, used: set<string>) {
    && (forall i :: 0 <= i < |slots| ==>
      if slots[i].status == Free then slots[i].id == "" else slots[i].id != "" && slots[i].id in used)
    && (forall i, j :: 0 <= i < j < |slots| && slots[i].status != Free && slots[j].status != Free ==>
      slots[i].id != slots[j].id)
  }

  ghost predicate Inv(w: World, max: nat) {
    var s := w.svc;
    && |s.slots| == max && s.count <= max
    && (forall i :: s.count <= i < max ==> s.slots[i].status == Free)
    && IndexExact(s.slots, s.index)
    && NamesExact(s.slots, w.used)
    && (forall i :: i in w.found ==> i < max && Registered(s.slots[i]))
    && s.ok == CountRegistered(s.slots)
    && s.total == s.ok + s.fail + CountSpawning(s.slots)
  }

  /** Taking a free slot under a new name disturbs neither index nor names. */
  lemma {:induction false} TakeFree(slots: seq<Slot>, index: map<string, nat>, used: set<string>, i: nat, id: string)
    requires IndexExact(slots, index) && NamesExact(slots, used)
    requires i < |slots| && slots[i].status == Free && id != "" && id !in used
    ensures IndexExact(slots[i := Slot(Spawning, id)], index)
    ensures NamesExact(slots[i := Slot(Spawning, id)], used + {id})
  {
  }

  lemma {:induction false} FirstFreeIsFree(s: Service)
    requires s.count <= |s.slots| && forall i :: s.count <= i < |s.slots| ==> s.slots[i].status == Free
    ensures FirstFree(s.slots[..s.count]) < |s.slots| ==> s.slots[FirstFree(s.slots[..s.count])].status == Free
  {
    var i := FirstFree(s.slots[..s.count]);
    assert i < s.count ==> s.slots[..s.count][i] == s.slots[i];
  }

  lemma {:induction false} ReserveKeeps(w: World, max: nat, id: string, memory: bool)
    requires Inv(w, max) && Enabled(w, DoReserve(id, memory))
    ensures Inv(Apply(w, DoReserve(id, memory)), max)
  {
    var s := w.svc;
    var i := FirstFree(s.slots[..s.count]);
    FirstFreeIsFree(s);
    if i < max {
      if memory {
        TakeFree(s.slots, s.index, w.used, i, id);
        CountUpdate(s.slots, i, Slot(Spawning, id));
      } else {
        assert s.slots[i] == UNUSED && s.slots[i := UNUSED] == s.slots;
      }
    }
  }

  lemma {:induction false} RegisterKeeps(slots: seq<Slot>, index: map<string, nat>, used: set<string>, i: nat)
    requires IndexExact(slots, index) && NamesExact(slots, used) && i < |slots| && slots[i].status == Spawning
    ensures IndexExact(slots[i := slots[i].(status := Running)], index[slots[i].id := i])
    ensures NamesExact(slots[i := slots[i].(status := Running)], used)
  {
  }

  lemma {:induction false} VacateKeeps(slots: seq<Slot>, index: map<string, nat>, used: set<string>, i: nat)
    requires IndexExact(slots, index) && NamesExact(slots, used) && i < |slots| && slots[i].status == Spawning
    ensures IndexExact(slots[i := UNUSED], index) && NamesExact(slots[i := UNUSED], used)
  {
  }

  lemma {:induction false} FinishKeeps(w: World, max: nat, i: nat, spawned: bool, put: Put)
    requires Inv(w, max) && Enabled(w, DoFinish(i, spawned, put))
    ensures Inv(Apply(w, DoFinish(i, spawned, put)), max)
  {
    var s := w.svc;
    assert i < s.count;
    if spawned && put.Stored? {
      RegisterKeeps(s.slots, s.index, w.used, i);
      CountUpdate(s.slots, i, s.slots[i].(status := Running));
    } else {
      VacateKeeps(s.slots, s.index, w.used, i);
      CountUpdate(s.slots, i, UNUSED);
    }
  }

  lemma {:induction false} StopKeeps(w: World, max: nat, i: nat)
    requires Inv(w, max) && i < max && Registered(w.svc.slots[i])
    ensures Inv(w.(svc := TerminateSlot(w.svc, i)), max)
  {
    CountUpdate(w.svc.slots, i, w.svc.slots[i].(status := Terminated));
  }

  lemma {:induction false} StepKeeps(w: World, max: nat, a: Action)
    requires Inv(w, max) && Enabled(w, a)
    ensures Inv(Apply(w, a), max)
  {
    match a
    case DoReserve(id, memory) => ReserveKeeps(w, max, id, memory);
    case DoFinish(i, spawned, put) => FinishKeeps(w, max, i, spawned, put);
    case DoLookup(id) =>
    case DoTerminate(i) => StopKeeps(w, max, i);
    case DoReap(i) =>
      if w.svc.slots[i].status == Running {
        StopKeeps(w, max, i);
      }
  }

  lemma {:induction false} AllInterleavings(max: nat, actions: seq<Action>)
    ensures Inv(After(max, actions), max)
  {
    if actions == [] {
      CountFresh(max);
    } else {
      var init, last := actions[..|actions| - 1], actions[|actions| - 1];
      AllInterleavings(max, init);
      if Enabled(After(max, init), last) {
        StepKeeps(After(max, init), max, last);
      }
    }
  }

  // ---------------------------------------------------------------- what callers may rely on

  /**
   After every interleaving: a name is in the index, at slot i, exactly when slot i is running or
   terminated under that name; spawns are conserved; and successful spawns over the service's whole
   life are as many as registered slots, so never more than the table holds.
   */
  lemma {:induction false} ServiceSafety(max: nat, actions: seq<Action>)
    ensures var s := After(max, actions).svc;
      && (forall id, i :: 0 <= i < |s.slots| ==>
           ((id in s.index && s.index[id] == i) <==> (Registered(s.slots[i]) && s.slots[i].id == id)))
      && s.total == s.ok + s.fail + CountSpawning(s.slots)
      && s.ok == CountRegistered(s.slots) <= |s.slots| == max
      && s.count <= max
  {
    AllInterleavings(max, actions);
  }

  lemma {:induction false} StepMonotone(w: World, max: nat, a: Action, i: nat)
    requires Inv(w, max) && Enabled(w, a) && i < max
    ensures var s, t := w.svc, Apply(w, a).svc;
      && |t.slots| == max && s.count <= t.count
      && (Registered(s.slots[i]) ==> Registered(t.slots[i]) && t.slots[i].id == s.slots[i].id)
      && (s.slots[i].status == Terminated ==> t.slots[i] == s.slots[i])
  {
    match a
    case DoReserve(id, memory) => FirstFreeIsFree(w.svc);
    case DoFinish(k, spawned, put) =>
    case DoLookup(id) =>
    case DoTerminate(k) =>
    case DoReap(k) =>
  }

  /** The used range has grown, and slot i, if it was registered, keeps its name, and its end. */
  ghost predicate Later(s: Service, t: Service, max: nat, i: nat)
    requires i < max
  {
    && |s.slots| == |t.slots| == max && s.count <= t.count <= max
    && (s.slots[i].status == Terminated ==> t.slots[i] == s.slots[i])
    && (Registered(s.slots[i]) ==> Registered(t.slots[i]) && t.slots[i].id == s.slots[i].id)
  }

  lemma {:induction false} LaterOneMore(max: nat, actions: seq<Action>, a: Action, i: nat)
    requires i < max
    ensures Later(After(max, actions).svc, After(max, actions + [a]).svc, max, i)
  {
    assert (actions + [a])[..|actions|] == actions;
    AllInterleavings(max, actions);
    AllInterleavings(max, actions + [a]);
    if Enabled(After(max, actions), a) {
      StepMonotone(After(max, actions), max, a, i);
    }
  }

  /**
   However the run goes on: a terminated slot stays as it is, a registered one keeps its name, the used range
   only grows.
   */
  lemma {:induction false} TerminatedIsAbsorbing(max: nat, actions: seq<Action>, more: seq<Action>, i: nat)
    requires i < max
    ensures Later(After(max, actions).svc, After(max, actions + more).svc, max, i)
  {
    if more == [] {
      assert actions + more == actions;
      AllInterleavings(max, actions);
    } else {
      var init, a := more[..|more| - 1], more[|more| - 1];
      assert actions + more == actions + init + [a];
      TerminatedIsAbsorbing(max, actions, init, i);
      LaterOneMore(max, actions + init, a, i);
    }
  }

  // ---------------------------------------------------------------- finding, stopping and listing agents

  /** Terminate finds an agent exactly when some slot is registered under its name. */
  lemma {:induction false} FoundIff(max: nat, actions: seq<Action>, id: string)
    ensures var s := After(max, actions).svc;
      Found(s, id) <==> exists i :: 0 <= i < |s.slots| && Registered(s.slots[i]) && s.slots[i].id == id
  {
    AllInterleavings(max, actions);
    var s := After(max, actions).svc;
    if Found(s, id) {
      assert Registered(s.slots[s.index[id]]);
    }
  }

  /** Looking an agent up and stopping it ends its slot, and no other. */
  lemma {:induction false} TerminateStops(max: nat, actions: seq<Action>, i: nat)
    requires var s := After(max, actions).svc; i < |s.slots| && Registered(s.slots[i])
    ensures var s := After(max, actions).svc;
      After(max, actions + [DoLookup(s.slots[i].id)] + [DoTerminate(i)]).svc
        == s.(slots := s.slots[i := Slot(Terminated, s.slots[i].id)])
  {
    var id := After(max, actions).svc.slots[i].id;
    var looked := actions + [DoLookup(id)];
    AllInterleavings(max, actions);
    FoundIff(max, actions, id);
    assert looked[..|actions|] == actions && (looked + [DoTerminate(i)])[..|looked|] == looked;
    assert i in After(max, looked).found;
  }

  /** The action stops slot `i`, if it does anything. */
  predicate Stops(a: Action, i: nat) {
    a == DoTerminate(i) || a == DoReap(i)
  }

  lemma {:induction false} StaysRunning(w: World, max: nat, a: Action, i: nat)
    requires Inv(w, max) && Enabled(w, a) && i < max && w.svc.slots[i].status == Running && !Stops(a, i)
    ensures |Apply(w, a).svc.slots| == max && Apply(w, a).svc.slots[i] == w.svc.slots[i]
  {
    match a
    case DoReserve(id, memory) => FirstFreeIsFree(w.svc);
    case _ =>
  }

  lemma {:induction false} RunsOneMore(max: nat, actions: seq<Action>, a: Action, i: nat, s: Slot)
    requires i < max && !Stops(a, i) && s.status == Running
    requires |After(max, actions).svc.slots| == max && After(max, actions).svc.slots[i] == s
    ensures |After(max, actions + [a]).svc.slots| == max && After(max, actions + [a]).svc.slots[i] == s
  {
    assert (actions + [a])[..|actions|] == actions;
    AllInterleavings(max, actions);
    if Enabled(After(max, actions), a) {
      StaysRunning(After(max, actions), max, a, i);
    }
  }

  /** A running agent runs on, however the run goes on, until it is terminated or reaped. */
  lemma {:induction false} RunsUntilStopped(max: nat, actions: seq<Action>, more: seq<Action>, i: nat)
    requires i < max && (forall a :: a in more ==> !Stops(a, i))
    requires |After(max, actions).svc.slots| == max && After(max, actions).svc.slots[i].status == Running
    ensures |After(max, actions + more).svc.slots| == max
    ensures After(max, actions + more).svc.slots[i] == After(max, actions).svc.slots[i]
  {
    if more == [] {
      assert actions + more == actions;
    } else {
      var init, a := more[..|more| - 1], more[|more| - 1];
      assert actions + more == actions + init + [a];
      RunsUntilStopped(max, actions, init, i);
      RunsOneMore(max, actions + init, a, i, After(max, actions).svc.slots[i]);
    }
  }

  // ---------------------------------------------------------------- the rollback in two sections

  /** First section of the rollback in the source: only the status. */
  function MarkFree(s: Service, i: nat): Service
    requires i < |s.slots|
  {
    s.(slots := s.slots[i := s.slots[i].(status := Free)], fail := s.fail + 1)
  }

  /** Second section: the strings. */
  function ClearNames(s: Service, i: nat): Service
    requires i < |s.slots|
  {
    s.(slots := s.slots[i := s.slots[i].(id := "")])
  }

  /**
   A reservation that falls between the two sections behaves as if the rollback were atomic if and
   only if a slot before the rolled-back one was free; otherwise it takes that slot and then loses its name.
   */
  lemma {:induction false} SplitRollbackIff(s: Service, i: nat, id: string)
    requires i < s.count <= |s.slots| && s.slots[i].status == Spawning && id != ""
    ensures ClearNames(Reserve(MarkFree(s, i), id, true), i) == Reserve(Rollback(s, i), id, true)
       <==> FirstFree(s.slots[..s.count]) < i
    ensures FirstFree(s.slots[..s.count]) >= i ==>
      ClearNames(Reserve(MarkFree(s, i), id, true), i).slots[i] == Slot(Spawning, "")
  {
    var f := FirstFree(s.slots[..s.count]);
    var marked, rolled := MarkFree(s, i), Rollback(s, i);
    var a, b := marked.slots[..s.count], rolled.slots[..s.count];
    assert forall k :: 0 <= k < s.count && k != i ==>
      a[k] == s.slots[k] && b[k] == s.slots[k] && s.slots[..s.count][k] == s.slots[k];
    assert a[i].status == Free && b[i].status == Free && s.slots[..s.count][i].status == Spawning;
    if f < i {
      assert FirstFree(a) == f && FirstFree(b) == f;
      assert ClearNames(Reserve(marked, id, true), i).slots == Reserve(rolled, id, true).slots;
    } else {
      assert FirstFree(a) == i && FirstFree(b) == i;
      assert Reserve(rolled, id, true).slots[i] == Slot(Spawning, id);
      assert ClearNames(Reserve(marked, id, true), i).slots[i] == Slot(Spawning, "");
    }
  }

  /** The slot a reservation takes between the two sections: an earlier free one, or the one being rolled back. */
  function TakenBetween(s: Service, i: nat): nat
    requires s.count <= |s.slots|
  {
    var f := FirstFree(s.slots[..s.count]);
    if f < i then f else i
  }

  lemma {:induction false} ReservedBetween(s: Service, i: nat, id: string)
    requires i < s.count <= |s.slots| && s.slots[i].status == Spawning
    ensures var r := Reserve(MarkFree(s, i), id, true);
      r.slots == MarkFree(s, i).slots[TakenBetween(s, i) := Slot(Spawning, id)] && r.index == s.index
  {
    var f, a := FirstFree(s.slots[..s.count]), MarkFree(s, i).slots[..s.count];
    assert forall k :: 0 <= k < s.count && k != i ==> a[k] == s.slots[k] && s.slots[..s.count][k] == s.slots[k];
    assert a[i].status == Free && s.slots[..s.count][i].status == Spawning;
    assert FirstFree(a) == TakenBetween(s, i);
  }

  /** Vacating one slot and registering a new name in another keeps the index exact. */
  lemma {:induction false} SpawnAfterVacate(slots: seq<Slot>, index: map<string, nat>, used: set<string>,
                                            i: nat, k: nat, id: string)
    requires IndexExact(slots, index) && NamesExact(slots, used)
    requires i < |slots| && slots[i].status == Spawning && k < |slots| && k != i && slots[k].status == Free
    requires id != "" && id !in used
    ensures IndexExact(slots[i := UNUSED][k := Slot(Running, id)], index[id := k])
  {
    VacateKeeps(slots, index, used, i);
    var vacated := slots[i := UNUSED];
    TakeFree(vacated, index, used, k, id);
    var taken := vacated[k := Slot(Spawning, id)];
    RegisterKeeps(taken, index, used + {id}, k);
    assert taken[k := Slot(Running, id)] == vacated[k := Slot(Running, id)];
  }

  /**
   A whole spawn between the two sections: the index still names exactly the registered slots if and
   only if a slot before the rolled-back one was free; otherwise the new agent runs without its name.
   */
  lemma {:induction false} SplitSpawnIff(s: Service, used: set<string>, i: nat, id: string)
    requires IndexExact(s.slots, s.index) && NamesExact(s.slots, used)
    requires i < s.count <= |s.slots| && s.slots[i].status == Spawning && id != "" && id !in used
    ensures var r, k := Reserve(MarkFree(s, i), id, true), TakenBetween(s, i);
      && k < |r.slots|
      && var t := ClearNames(FinishOk(r, k, Stored), i);
         IndexExact(t.slots, t.index) <==> FirstFree(s.slots[..s.count]) < i
  {
    var r, k := Reserve(MarkFree(s, i), id, true), TakenBetween(s, i);
    ReservedBetween(s, i, id);
    var t := ClearNames(FinishOk(r, k, Stored), i);
    assert t.index == s.index[id := k];
    if k < i {
      assert s.slots[..s.count][k] == s.slots[k];
      SpawnAfterVacate(s.slots, s.index, used, i, k, id);
      assert t.slots == s.slots[i := UNUSED][k := Slot(Running, id)];
    } else {
      assert t.slots[i] == Slot(Running, "");
    }
  }

  // ---------------------------------------------------------------- the service as code

  function RunningIds(slots: seq<Slot>): seq<string> {
    if slots == [] then []
    else RunningIds(slots[..|slots| - 1]) + if slots[|slots| - 1].status == Running then [slots[|slots| - 1].id] else []
  }

  /** Which names are listed, and in what order: the list of a row of slots is the lists of its parts, in turn. */
  lemma {:induction false} ListedInOrder(a: seq<Slot>, b: seq<Slot>)
    ensures RunningIds(a + b) == RunningIds(a) + RunningIds(b)
    ensures |b| == 1 ==> RunningIds(b) == if b[0].status == Running then [b[0].id] else []
  {
    if b == [] {
      assert a + b == a;
    } else {
      var n := |b| - 1;
      assert (a + b)[..|a + b| - 1] == a + b[..n];
      ListedInOrder(a, b[..n]);
    }
  }

  lemma {:induction false} ListedMembers(slots: seq<Slot>, id: string)
    ensures id in RunningIds(slots) <==> exists i :: 0 <= i < |slots| && slots[i].status == Running && slots[i].id == id
  {
    if slots != [] {
      var n := |slots| - 1;
      ListedMembers(slots[..n], id);
      assert forall i :: 0 <= i < n ==> slots[..n][i] == slots[i];
    }
  }

  /** In every run, the list holds exactly the names under which the index leads to a running slot. */
  lemma {:induction false} ListedIff(max: nat, actions: seq<Action>, id: string)
    ensures var s := After(max, actions).svc;
      && s.count <= |s.slots|
      && (id in RunningIds(s.slots[..s.count]) <==>
            id in s.index && s.index[id] < |s.slots| && s.slots[s.index[id]].status == Running)
  {
    AllInterleavings(max, actions);
    var s := After(max, actions).svc;
    ListedMembers(s.slots[..s.count], id);
    if id in s.index {
      assert Registered(s.slots[s.index[id]]);
      assert s.slots[..s.count][s.index[id]] == s.slots[s.index[id]];
    }
  }

  /** Stopping a running slot takes one name off the list. */
  lemma {:induction false} StopUnlists(slots: seq<Slot>, i: nat)
    requires i < |slots| && slots[i].status == Running
    ensures |RunningIds(slots[i := slots[i].(status := Terminated)])| == |RunningIds(slots)| - 1
  {
    var n, s := |slots| - 1, slots[i].(status := Terminated);
    if i == n {
      assert slots[i := s][..n] == slots[..n];
    } else {
      assert slots[i := s][..n] == slots[..n][i := s];
      StopUnlists(slots[..n], i);
    }
  }

  /** A child process as reaping sees it. */
  datatype Child = Child(alive: bool, lastActive: nat)

  /** A slot after reaping, given whether its child is idle. */
  function Swept(s: Slot, idle: bool): Slot {
    if s.status == Running && idle then s.(status := Terminated) else s
  }

  class AgentService {
    const agents: array<Slot>
    var count: nat
    var index: map<string, nat>
    var total: nat
    var ok: nat
    var fail: nat

    ghost function Now(): Service
      reads this, agents
    {
      Service(agents[..], count, index, total, ok, fail)
    }

    constructor (max: nat)
      ensures Now() == Fresh(max) && fresh(agents)
    {
      agents := new Slot[max](i => UNUSED);
      count, index, total, ok, fail := 0, map[], 0, 0, 0;
    }

    method FindFree() returns (i: nat)
      requires count <= agents.Length
      ensures i == FirstFree(agents[..count])
    {
      i := 0;
      while i < count
        invariant i <= count && FirstFree(agents[..count]) == i + FirstFree(agents[i..count])
      {
        if agents[i].status == Free {
          return;
        }
        assert agents[i..count][1..] == agents[i + 1..count];
        i := i + 1;
      }
    }

    /** First phase of a spawn; returns the reserved slot, or the table's size when it failed. */
    method ReserveSlot(id: string, memory: bool) returns (slot: nat)
      requires count <= agents.Length
      modifies this, agents
      ensures Now() == Reserve(old(Now()), id, memory)
      ensures slot < agents.Length ==> agents[slot] == Slot(Spawning, id)
      ensures slot < agents.Length <==> memory && FirstFree(old(agents[..count])) < agents.Length
    {
      total := total + 1;
      var i := FindFree();
      if i == count {
        if count >= agents.Length {
          fail := fail + 1;
          return agents.Length;
        }
        count := count + 1;
      }
      if !memory {
        agents[i] := UNUSED;
        fail := fail + 1;
        return agents.Length;
      }
      agents[i] := Slot(Spawning, id);
      return i;
    }

    /** Last phase of a spawn. */
    method FinishSpawn(i: nat, spawned: bool, put: Put) returns (success: bool)
      requires i < agents.Length
      modifies this, agents
      ensures success == (spawned && !put.Refused?)
      ensures Now() == if spawned then FinishOk(old(Now()), i, put) else Rollback(old(Now()), i)
      ensures agents[i].status == if success then Running else Free
      ensures index == if spawned && put.Stored? then old(index)[old(agents[i]).id := i] else old(index)
    {
      if spawned && !put.Refused? {
        if put.Stored? {
          index := index[agents[i].id := i];
        }
        agents[i] := agents[i].(status := Running);
        ok := ok + 1;
        return true;
      }
      agents[i] := UNUSED;
      fail := fail + 1;
      return false;
    }

    method Terminate(id: string) returns (found: bool)
      requires count <= agents.Length
      modifies agents
      ensures found == Found(old(Now()), id)
      ensures Now() == if found then TerminateSlot(old(Now()), index[id]) else old(Now())
    {
      found := id in index && index[id] < count;
      if found {
        agents[index[id]] := agents[index[id]].(status := Terminated);
      }
    }

    /** The names of the running agents, in slot order. */
    method List() returns (ids: seq<string>)
      requires count <= agents.Length
      ensures ids == RunningIds(agents[..count])
    {
      ids := [];
      var i := 0;
      while i < count
        invariant i <= count && ids == RunningIds(agents[..i])
      {
        assert agents[..i + 1][..i] == agents[..i];
        if agents[i].status == Running {
          ids := ids + [agents[i].id];
        }
        i := i + 1;
      }
    }

    /** The used slots that run an idle child. */
    method CollectIdle(children: seq<Child>, now: nat, maxIdle: nat) returns (candidates: seq<nat>)
      requires count <= agents.Length == |children|
      ensures forall k :: 0 <= k < |candidates| ==> candidates[k] < count
      ensures forall j :: j in candidates <==>
        && 0 <= j < count && agents[j].status == Running && children[j].alive
        && now > children[j].lastActive && now - children[j].lastActive >= maxIdle
    {
      candidates := [];
      var i := 0;
      while i < count
        invariant i <= count
        invariant forall k :: 0 <= k < |candidates| ==> candidates[k] < i
        invariant forall j :: j in candidates <==>
          && 0 <= j < i && agents[j].status == Running && children[j].alive
          && now > children[j].lastActive && now - children[j].lastActive >= maxIdle
      {
        i := i + 1;
        if agents[i - 1].status != Running || !children[i - 1].alive {
          continue;
        }
        if now <= children[i - 1].lastActive || now - children[i - 1].lastActive < maxIdle {
          continue;
        }
        candidates := candidates + [i - 1];
      }
    }

    /**
     One visit: under the slot's own lock the slot is looked at again, as it may have changed since it was
     collected.
     */
    method VisitSlot(c: nat, child: Child) returns (stopped: bool)
      requires c < agents.Length
      modifies agents
      ensures stopped == (old(agents[c]).status == Running && child.alive)
      ensures Now() == if child.alive then ReapSlot(old(Now()), c) else old(Now())
      ensures |RunningIds(agents[..])| + One(stopped) == |RunningIds(old(agents[..]))|
    {
      stopped := agents[c].status == Running && child.alive;
      if stopped {
        StopUnlists(agents[..], c);
        ghost var before := agents[..];
        agents[c] := agents[c].(status := Terminated);
        assert agents[..] == before[c := before[c].(status := Terminated)];
      }
    }

    /** Collects the idle running slots, then visits each under its own lock; counts the ones it stops. */
    method ReapIdle(children: seq<Child>, now: nat, maxIdle: nat) returns (reaped: nat)
      requires count <= agents.Length == |children|
      modifies agents
      ensures forall i :: 0 <= i < agents.Length ==>
        agents[i] == Swept(old(agents[i]), i < count && children[i].alive && now > children[i].lastActive
                                           && now - children[i].lastActive >= maxIdle)
      ensures |RunningIds(agents[..])| + reaped == |RunningIds(old(agents[..]))|
    {
      var candidates := CollectIdle(children, now, maxIdle);
      reaped := 0;
      var j := 0;
      while j < |candidates|
        invariant j <= |candidates| && |RunningIds(agents[..])| + reaped == |RunningIds(old(agents[..]))|
        invariant forall k :: 0 <= k < agents.Length ==>
          agents[k] == Swept(old(agents[k]), k in candidates[..j])
      {
        var c := candidates[j];
        assert c in candidates;
        var stopped := VisitSlot(c, children[c]);
        if stopped {
          reaped := reaped + 1;
        }
        assert candidates[..j + 1] == candidates[..j] + [c];
        j := j + 1;
      }
      assert candidates[..j] == candidates;
    }
  }
}
