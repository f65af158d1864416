/**
 The reachability negative cache of the RPC client: eight slots, updated in place, that must
 answer as the whole history of connection outcomes would. Every method body is one critical
 section of the cache's lock; the clock reading is a parameter.
 */
module NegCache {
  import opened Common

  const SLOTS := 8
  const NAME_MAX := 128
  const BASE_MS := 1000
  const LEVEL_MAX := 6
  const CAP_MS := 30000

  // ---------------------------------------------------------------- history

  datatype Call = Fail(target: string, time: nat) | Ok(target: string)

  function Min(a: nat, b: nat): nat {
    if a < b then a else b
  }

  function Pow2(n: nat): (r: nat)
    ensures r >= 1
  {
    if n == 0 then 1 else 2 * Pow2(n - 1)
  }

  /** Distinct targets that ever connected, in order of first connection, while there is room. */
  function Registered(h: seq<Call>): (r: seq<string>)
    ensures |r| <= SLOTS
  {
    if h == [] then []
    else
      var r := Registered(h[..|h| - 1]);
      match h[|h| - 1]
      case Ok(t) => if |t| == 0 || t in r || |r| == SLOTS then r else r + [t]
      case Fail(_, _) => r
  }

  /** Failures of `t` since its last success. */
  function Failures(h: seq<Call>, t: string): nat {
    if h == [] then 0
    else
      match h[|h| - 1]
      case Ok(u) => if u == t then 0 else Failures(h[..|h| - 1], t)
      case Fail(u, _) => Failures(h[..|h| - 1], t) + if u == t then 1 else 0
  }

  /** Time of the last failure of `t`; 0 if it never failed. */
  function LastFailure(h: seq<Call>, t: string): nat {
    if h == [] then 0
    else
      var c := h[|h| - 1];
      if c.Fail? && c.target == t then c.time else LastFailure(h[..|h| - 1], t)
  }

  /** Back-off after the k-th failure in a row: 1, 2, 4, 8, 16 seconds, then 30. */
  function Backoff(k: nat): nat
    requires k >= 1
  {
    Min(BASE_MS * Pow2(Min(k, LEVEL_MAX) - 1), CAP_MS)
  }

  /** What the history says about skipping a connection attempt. */
  predicate MustSkip(h: seq<Call>, t: string, now: nat) {
    t in Registered(h) && Failures(h, t) >= 1 && now < LastFailure(h, t) + Backoff(Failures(h, t))
  }

  // ---------------------------------------------------------------- table

  datatype Slot = Slot(target: string, until: nat, level: nat, seen: bool) {
    /** An empty name marks an unused slot. */
    predicate Free() {
      |target| == 0
    }
  }

  const EMPTY_SLOT := Slot("", 0, 0, false)

  /** The slot a registered target must have. */
  function SlotOf(h: seq<Call>, t: string): Slot {
    var k := Failures(h, t);
    Slot(t, if k == 0 then 0 else LastFailure(h, t) + Backoff(k), Min(k, LEVEL_MAX), true)
  }

  /** First used slot holding `t`, or the table's length. */
  function Find(slots: seq<Slot>, t: string): (i: nat)
    ensures i <= |slots|
    ensures i < |slots| ==> !slots[i].Free() && slots[i].target == t
    ensures forall k :: 0 <= k < i ==> slots[k].Free() || slots[k].target != t
  {
    if slots == [] || (!slots[0].Free() && slots[0].target == t) then 0
    else 1 + Find(slots[1..], t)
  }

  function FirstFree(slots: seq<Slot>): (i: nat)
    ensures i <= |slots|
    ensures i < |slots| ==> slots[i].Free()
    ensures forall k :: 0 <= k < i ==> !slots[k].Free()
  {
    if slots == [] || slots[0].Free() then 0 else 1 + FirstFree(slots[1..])
  }

  function AfterOk(slots: seq<Slot>, t: string): seq<Slot> {
    var i, j := Find(slots, t), FirstFree(slots);
    if i < |slots| then slots[i := Slot(t, 0, 0, true)]
    else if j < |slots| then slots[j := Slot(Truncated(t, NAME_MAX - 1), 0, 0, true)]
    else slots
  }

  /** One more failure: the next level, from now. */
  function Raised(s: Slot, now: nat): Slot {
    var level := if s.level < LEVEL_MAX then s.level + 1 else s.level;
    s.(level := level, until := now + Delay(level))
  }

  function AfterFail(slots: seq<Slot>, t: string, now: nat): seq<Slot> {
    var i := Find(slots, t);
    if i < |slots| && slots[i].seen then slots[i := Raised(slots[i], now)] else slots
  }

  predicate Blocked(slots: seq<Slot>, t: string, now: nat) {
    var i := Find(slots, t);
    i < |slots| && slots[i].until > now
  }

  /** The delay of a level, as the shift loop computes it. */
  function Delay(level: nat): nat {
    Min(if level == 0 then BASE_MS else BASE_MS * Pow2(level - 1), CAP_MS)
  }

  function After(slots: seq<Slot>, c: Call): seq<Slot> {
    match c
    case Fail(t, now) => AfterFail(slots, t, now)
    case Ok(t) => AfterOk(slots, t)
  }

  /** The table a call history leaves behind. */
  function Table(h: seq<Call>): seq<Slot> {
    if h == [] then seq(SLOTS, i => EMPTY_SLOT) else After(Table(h[..|h| - 1]), h[|h| - 1])
  }

  /** No registered name is cut short by its slot. */
  predicate NamesFit(h: seq<Call>) {
    forall t :: t in Registered(h) ==> |t| < NAME_MAX
  }

  /** The table is what the history determines. */
  ghost predicate Mirrors(slots: seq<Slot>, h: seq<Call>) {
    var r := Registered(h);
    && |slots| == SLOTS
    && (forall i :: 0 <= i < |r| ==> slots[i] == SlotOf(h, r[i]))
    && (forall i :: |r| <= i < SLOTS ==> slots[i].Free())
  }

  ghost predicate DistinctNames(r: seq<string>) {
    && (forall i, j :: 0 <= i < j < |r| ==> r[i] != r[j])
    && (forall i :: 0 <= i < |r| ==> |r[i]| > 0)
  }

  lemma {:induction false} RegisteredDistinct(h: seq<Call>)
    ensures DistinctNames(Registered(h))
  {
    if h != [] {
      var init, r := Registered(h[..|h| - 1]), Registered(h);
      RegisteredDistinct(h[..|h| - 1]);
      assert forall i :: 0 <= i < |init| ==> init[i] in init;
    }
  }

  /** A target outside the registered ones has never connected, or came when the table was full. */
  lemma {:induction false} RegisteredIffConnected(h: seq<Call>, t: string)
    ensures t in Registered(h) ==> Ok(t) in h
    ensures Ok(t) in h && |t| > 0 && |Registered(h)| < SLOTS ==> t in Registered(h)
  {
    if h != [] {
      var n := |h| - 1;
      RegisteredIffConnected(h[..n], t);
      assert h == h[..n] + [h[n]];
    }
  }

  lemma {:induction false} Snoc(h: seq<Call>, c: Call)
    ensures (h + [c])[..|h + [c]| - 1] == h
  {
  }

  /** Looking a name up in a mirroring table finds its registration. */
  lemma {:induction false} FindRegistered(slots: seq<Slot>, h: seq<Call>, t: string)
    requires Mirrors(slots, h)
    ensures var i, r := Find(slots, t), Registered(h);
      if t in r then i < |r| && r[i] == t else i == SLOTS
    ensures FirstFree(slots) == |Registered(h)|
  {
    RegisteredDistinct(h);
    var r := Registered(h);
    forall k | 0 <= k < |r| ensures slots[k].target == r[k] && !slots[k].Free() {
      assert slots[k] == SlotOf(h, r[k]);
    }
    assert |r| < SLOTS ==> slots[|r|].Free();
  }

  /** Only the called target's slot depends on the call. */
  lemma {:induction false} OtherSlots(h: seq<Call>, c: Call, t: string)
    requires t != c.target
    ensures SlotOf(h + [c], t) == SlotOf(h, t)
  {
    Snoc(h, c);
  }

  /** Changing the called target's slot as the call demands keeps the mirror. */
  lemma {:induction false} UpdateMirrors(slots: seq<Slot>, h: seq<Call>, c: Call, i: nat)
    requires Mirrors(slots, h) && Registered(h + [c]) == Registered(h)
    requires i < |Registered(h)| && Registered(h)[i] == c.target
    ensures Mirrors(slots[i := SlotOf(h + [c], c.target)], h + [c])
  {
    RegisteredDistinct(h);
    var r := Registered(h);
    forall j | 0 <= j < |r| && j != i ensures slots[j] == SlotOf(h + [c], r[j]) {
      OtherSlots(h, c, r[j]);
    }
  }

  /** A call about a target that is not registered leaves the mirror alone. */
  lemma {:induction false} SameMirrors(slots: seq<Slot>, h: seq<Call>, c: Call)
    requires Mirrors(slots, h) && Registered(h + [c]) == Registered(h) && c.target !in Registered(h)
    ensures Mirrors(slots, h + [c])
  {
    var r := Registered(h);
    forall j | 0 <= j < |r| ensures slots[j] == SlotOf(h + [c], r[j]) {
      assert r[j] in r;
      OtherSlots(h, c, r[j]);
    }
  }

  /** The slot of a registered target after one more failure. */
  lemma {:induction false} FailedSlot(h: seq<Call>, t: string, now: nat)
    ensures SlotOf(h + [Fail(t, now)], t) == Raised(SlotOf(h, t), now)
  {
    Snoc(h, Fail(t, now));
    assert Failures(h + [Fail(t, now)], t) == Failures(h, t) + 1;
  }

  lemma {:induction false} KnownFailMirrors(slots: seq<Slot>, h: seq<Call>, t: string, now: nat)
    requires Mirrors(slots, h) && t in Registered(h) && Registered(h + [Fail(t, now)]) == Registered(h)
    ensures Mirrors(AfterFail(slots, t, now), h + [Fail(t, now)])
  {
    FindRegistered(slots, h, t);
    var i := Find(slots, t);
    assert slots[i] == SlotOf(h, t);
    FailedSlot(h, t, now);
    UpdateMirrors(slots, h, Fail(t, now), i);
  }

  lemma {:induction false} FailMirrors(slots: seq<Slot>, h: seq<Call>, t: string, now: nat)
    requires Mirrors(slots, h)
    ensures Mirrors(AfterFail(slots, t, now), h + [Fail(t, now)])
  {
    Snoc(h, Fail(t, now));
    if t in Registered(h) {
      KnownFailMirrors(slots, h, t, now);
    } else {
      FindRegistered(slots, h, t);
      SameMirrors(slots, h, Fail(t, now));
    }
  }

  lemma {:induction false} OkMirrors(slots: seq<Slot>, h: seq<Call>, t: string)
    requires Mirrors(slots, h) && NamesFit(h + [Ok(t)])
    ensures Mirrors(AfterOk(slots, t), h + [Ok(t)])
  {
    var c, r := Ok(t), Registered(h);
    Snoc(h, c);
    FindRegistered(slots, h, t);
    var i := Find(slots, t);
    if t in r {
      assert AfterOk(slots, t) == slots[i := SlotOf(h + [c], t)];
      UpdateMirrors(slots, h, c, i);
    } else if |r| == SLOTS {
      SameMirrors(slots, h, c);
    } else if |t| == 0 {
      SameMirrors(slots, h, c);
      assert AfterOk(slots, t) == slots[|r| := Slot(t, 0, 0, true)];
    } else {
      RegisterMirrors(slots, h, t);
    }
  }

  lemma {:induction false} RegisterMirrors(slots: seq<Slot>, h: seq<Call>, t: string)
    requires Mirrors(slots, h) && NamesFit(h + [Ok(t)])
    requires t !in Registered(h) && |t| > 0 && |Registered(h)| < SLOTS
    ensures Mirrors(AfterOk(slots, t), h + [Ok(t)])
  {
    var c, r := Ok(t), Registered(h);
    Snoc(h, c);
    FindRegistered(slots, h, t);
    assert Registered(h + [c]) == r + [t] && t in r + [t];
    forall j | 0 <= j < |r| ensures slots[j] == SlotOf(h + [c], r[j]) {
      assert r[j] in r;
      OtherSlots(h, c, r[j]);
    }
    assert SlotOf(h + [c], t) == Slot(t, 0, 0, true);
    assert AfterOk(slots, t) == slots[|r| := Slot(t, 0, 0, true)];
    ExtendMirrors(slots, h, h + [c], t);
  }

  /** One more registered target takes the first free slot. */
  lemma {:induction false} ExtendMirrors(slots: seq<Slot>, h: seq<Call>, h': seq<Call>, t: string)
    requires Mirrors(slots, h) && |Registered(h)| < SLOTS && Registered(h') == Registered(h) + [t]
    requires forall j :: 0 <= j < |Registered(h)| ==> slots[j] == SlotOf(h', Registered(h)[j])
    ensures Mirrors(slots[|Registered(h)| := SlotOf(h', t)], h')
  {
  }

  lemma {:induction false} TableMirrors(h: seq<Call>)
    requires NamesFit(h)
    ensures Mirrors(Table(h), h)
  {
    if h != [] {
      var init, c := h[..|h| - 1], h[|h| - 1];
      assert h == init + [c];
      assert forall t :: t in Registered(init) ==> t in Registered(h);
      TableMirrors(init);
      match c
      case Fail(t, now) => FailMirrors(Table(init), init, t, now);
      case Ok(t) => OkMirrors(Table(init), init, t);
    }
  }

  /** The table answers as the history does, for every target and time. */
  ghost predicate Agrees(h: seq<Call>) {
    forall t, now :: Blocked(Table(h), t, now) <==> MustSkip(h, t, now)
  }

  lemma {:induction false} TableAgrees(h: seq<Call>)
    requires NamesFit(h)
    ensures Agrees(h)
  {
    TableMirrors(h);
    forall t, now ensures Blocked(Table(h), t, now) <==> MustSkip(h, t, now) {
      FindRegistered(Table(h), h, t);
    }
  }

  /** Slots never hold an over-long name, so one is never found. */
  lemma {:induction false} LongNamesAreNotFound(h: seq<Call>, t: string)
    requires |t| >= NAME_MAX
    ensures forall i :: 0 <= i < |Table(h)| ==> |Table(h)[i].target| < NAME_MAX
    ensures Find(Table(h), t) == |Table(h)|
  {
    if h != [] {
      var init, c := h[..|h| - 1], h[|h| - 1];
      LongNamesAreNotFound(init, t);
      if Find(Table(init), c.target) < |Table(init)| {
        assert |c.target| < NAME_MAX;
      }
    }
  }

  /**
   The table agrees with the history, now and after any one further failure, exactly when no
   registered name has 128 characters or more. (A longer name is stored cut short and not found again.)
   */
  lemma {:induction false} AgreesIffNamesFit(h: seq<Call>)
    ensures NamesFit(h) <==> Agrees(h) && forall t, now :: Agrees(h + [Fail(t, now)])
  {
    forall t, now ensures Registered(h + [Fail(t, now)]) == Registered(h) {
      Snoc(h, Fail(t, now));
    }
    if NamesFit(h) {
      TableAgrees(h);
      forall t, now ensures Agrees(h + [Fail(t, now)]) {
        TableAgrees(h + [Fail(t, now)]);
      }
    } else {
      var t :| t in Registered(h) && |t| >= NAME_MAX;
      var h' := h + [Fail(t, 0)];
      Snoc(h, Fail(t, 0));
      LongNamesAreNotFound(h', t);
      BackoffPositive(Failures(h', t));
      assert MustSkip(h', t, 0) && !Blocked(Table(h'), t, 0);
      assert !Agrees(h');
    }
  }

  lemma {:induction false} BackoffPositive(k: nat)
    requires k >= 1
    ensures BASE_MS <= Backoff(k) <= CAP_MS
  {
    var p := Pow2(Min(k, LEVEL_MAX) - 1);
    assert BASE_MS <= BASE_MS * p;
  }

  /** A target that never connected is never skipped. */
  lemma {:induction false} NeverConnectedNeverSkipped(h: seq<Call>, t: string, now: nat)
    requires NamesFit(h) && Ok(t) !in h
    ensures !Blocked(Table(h), t, now)
  {
    TableAgrees(h);
    RegisteredIffConnected(h, t);
  }

  // ---------------------------------------------------------------- a client of the cache

  /** A call of the connection entry: when it asks, whether the target is up, and when the outcome is recorded. */
  datatype Attempt = Attempt(path: string, now: nat, up: bool, ended: nat)

  /** The history after one call: nothing while backing off, otherwise the outcome. */
  function Opened(h: seq<Call>, a: Attempt): seq<Call> {
    if Blocked(Table(h), a.path, a.now) then h
    else h + [if a.up then Ok(a.path) else Fail(a.path, a.ended)]
  }

  /** The history after a sequential client's calls. */
  function Driven(h: seq<Call>, attempts: seq<Attempt>): seq<Call> {
    if attempts == [] then h else Opened(Driven(h, attempts[..|attempts| - 1]), attempts[|attempts| - 1])
  }

  // ---------------------------------------------------------------- the cache as code

  /** The shift loop of the delay computation. */
  method ComputeDelay(level: nat) returns (ms: nat)
    ensures ms == Delay(level)
  {
    ms := BASE_MS;
    var i := 1;
    while i < level
      invariant 1 <= i && (if level == 0 then i == 1 else i <= level)
      invariant ms == BASE_MS * Pow2(i - 1)
    {
      ms := ms * 2;
      i := i + 1;
    }
    ms := if ms < CAP_MS then ms else CAP_MS;
  }

  class Cache {
    const slots: array<Slot>
    ghost var history: seq<Call>

    ghost predicate Valid()
      reads this, slots
    {
      slots.Length == SLOTS && slots[..] == Table(history)
    }

    constructor ()
      ensures Valid() && history == [] && fresh(slots)
    {
      slots := new Slot[SLOTS](i => EMPTY_SLOT);
      history := [];
    }

    method FindSlot(t: string) returns (i: nat)
      ensures i == Find(slots[..], t)
    {
      i := 0;
      while i < slots.Length
        invariant i <= slots.Length && Find(slots[..], t) == i + Find(slots[i..], t)
      {
        if !slots[i].Free() && slots[i].target == t {
          return;
        }
        assert slots[i..][1..] == slots[i + 1..];
        i := i + 1;
      }
    }

    method FindFree() returns (i: nat)
      ensures i == FirstFree(slots[..])
    {
      i := 0;
      while i < slots.Length
        invariant i <= slots.Length && FirstFree(slots[..]) == i + FirstFree(slots[i..])
      {
        if slots[i].Free() {
          return;
        }
        assert slots[i..][1..] == slots[i + 1..];
        i := i + 1;
      }
    }

    method IsBlocked(t: string, now: nat) returns (blocked: bool)
      requires Valid()
      ensures blocked == Blocked(slots[..], t, now)
      ensures NamesFit(history) ==> (blocked <==> MustSkip(history, t, now))
    {
      var i := FindSlot(t);
      blocked := i < slots.Length && slots[i].until > now;
      if NamesFit(history) {
        TableAgrees(history);
      }
    }

    method RecordFail(t: string, now: nat)
      requires Valid()
      modifies slots, this`history
      ensures Valid() && history == old(history) + [Fail(t, now)]
    {
      var i := FindSlot(t);
      if i < slots.Length && slots[i].seen {
        var level := if slots[i].level < LEVEL_MAX then slots[i].level + 1 else slots[i].level;
        var delay := ComputeDelay(level);
        slots[i] := slots[i].(level := level, until := now + delay);
      }
      history := history + [Fail(t, now)];
      Snoc(old(history), Fail(t, now));
    }

    method RecordOk(t: string)
      requires Valid()
      modifies slots, this`history
      ensures Valid() && history == old(history) + [Ok(t)]
    {
      var i := FindSlot(t);
      if i < slots.Length {
        slots[i] := slots[i].(seen := true, level := 0, until := 0);
      } else {
        var j := FindFree();
        if j < slots.Length {
          slots[j] := Slot(Truncated(t, NAME_MAX - 1), 0, 0, true);
        }
      }
      history := history + [Ok(t)];
      Snoc(old(history), Ok(t));
    }

    /**
     The one way to open a connection: skip while backing off, otherwise try and record. `up`
     and `ended` are the outcome of the attempt and the clock when it is recorded.
     */
    method ConnOpen(path: string, now: nat, up: bool, ended: nat) returns (tried: bool, ok: bool)
      requires Valid() && now <= ended
      modifies slots, this`history
      ensures Valid() && tried == !Blocked(old(slots[..]), path, now) && ok == (tried && up)
      ensures history == Opened(old(history), Attempt(path, now, up, ended))
      ensures NamesFit(old(history)) && tried ==> !MustSkip(old(history), path, ended)
    {
      var blocked := IsBlocked(path, now);
      if blocked {
        return false, false;
      }
      tried, ok := true, up;
      if up {
        RecordOk(path);
      } else {
        RecordFail(path, ended);
      }
    }
  }

  // ---------------------------------------------------------------- how often a dead target is tried

  /**
   From position `from` on, `t` stays down and is only tried through ConnOpen: no success, and
   no failure recorded while the history said to skip. Other targets' calls may interleave.
   */
  predicate OnlyTriedWhenDue(h: seq<Call>, t: string, from: nat) {
    forall i :: from <= i < |h| && h[i].target == t ==> h[i].Fail? && !MustSkip(h[..i], t, h[i].time)
  }

  function FirstFailure(h: seq<Call>, t: string, from: nat): nat
    requires from <= |h|
  {
    if |h| == from then 0
    else
      var init, c := h[..|h| - 1], h[|h| - 1];
      if Failures(init, t) == 0 && c.Fail? && c.target == t then c.time else FirstFailure(init, t, from)
  }

  /** Failed attempts on `t` recorded up to time `limit`. */
  function Attempts(h: seq<Call>, t: string, from: nat, limit: nat): nat
    requires from <= |h|
  {
    if |h| == from then 0
    else
      var init, c := h[..|h| - 1], h[|h| - 1];
      Attempts(init, t, from, limit) + if c.Fail? && c.target == t && c.time <= limit then 1 else 0
  }

  /** Least time between the first and the k-th failure in a row. */
  function Elapsed(k: nat): nat {
    if k <= 1 then 0 else Elapsed(k - 1) + Backoff(k - 1)
  }

  lemma {:induction false} ElapsedBound(k: nat)
    ensures k <= 5 + Elapsed(k) / CAP_MS
    ensures k >= 6 ==> Elapsed(k) >= CAP_MS * (k - 5) + BASE_MS
  {
    if k <= 6 {
      assert Pow2(1) == 2 && Pow2(2) == 4 && Pow2(3) == 8 && Pow2(4) == 16;
      assert Elapsed(2) == 1000 && Elapsed(3) == 3000 && Elapsed(4) == 7000 && Elapsed(5) == 15000;
      assert Elapsed(6) == 31000;
    } else {
      ElapsedBound(k - 1);
      assert Pow2(4) == 16 && Pow2(5) == 32 && Backoff(k - 1) == CAP_MS;
    }
  }

  /** The k-th failure in a row comes at least Elapsed(k) after the first. */
  lemma {:induction false} FailuresSpread(h: seq<Call>, t: string, from: nat)
    requires from <= |h| && t in Registered(h[..from]) && Failures(h[..from], t) == 0
    requires OnlyTriedWhenDue(h, t, from)
    ensures t in Registered(h)
    ensures Failures(h, t) >= 1 ==> LastFailure(h, t) >= FirstFailure(h, t, from) + Elapsed(Failures(h, t))
  {
    if |h| == from {
      assert h[..from] == h;
    } else {
      var init, c := h[..|h| - 1], h[|h| - 1];
      assert init[..from] == h[..from];
      assert forall i :: from <= i < |init| ==> init[..i] == h[..i];
      FailuresSpread(init, t, from);
      assert c.target == t ==> !MustSkip(init, t, c.time);
    }
  }

  lemma {:induction false} AttemptsAreFailures(h: seq<Call>, t: string, from: nat, limit: nat)
    requires from <= |h| && OnlyTriedWhenDue(h, t, from)
    ensures Attempts(h, t, from, limit) <= Failures(h, t)
  {
    if |h| > from {
      var init := h[..|h| - 1];
      assert forall i :: from <= i < |init| ==> init[..i] == h[..i];
      AttemptsAreFailures(init, t, from, limit);
    }
  }

  lemma {:induction false} FailuresWithin(h: seq<Call>, t: string, from: nat, T: nat)
    requires from <= |h| && t in Registered(h[..from]) && Failures(h[..from], t) == 0
    requires OnlyTriedWhenDue(h, t, from)
    requires Failures(h, t) >= 1 && LastFailure(h, t) <= FirstFailure(h, t, from) + T
    ensures Failures(h, t) <= 5 + T / CAP_MS
  {
    FailuresSpread(h, t, from);
    ElapsedBound(Failures(h, t));
  }

  /** At most 5 + T / 30000 failed attempts on `t` from position `from` on, within T ms of the first. */
  predicate RarelyTried(h: seq<Call>, t: string, from: nat, T: nat) {
    from <= |h| && (Failures(h, t) >= 1 ==> Attempts(h, t, from, FirstFailure(h, t, from) + T) <= 5 + T / CAP_MS)
  }

  /**
   A registered target that stays down is really tried at most 5 + T / 30000 times within
   T ms of its first failure, however often the client asks and whatever else it connects to.
   */
  lemma {:induction false} AttemptsBounded(h: seq<Call>, t: string, from: nat, T: nat)
    requires from <= |h| && t in Registered(h[..from]) && Failures(h[..from], t) == 0
    requires OnlyTriedWhenDue(h, t, from)
    ensures RarelyTried(h, t, from, T)
  {
    if |h| > from && Failures(h, t) >= 1 {
      var init, c, limit := h[..|h| - 1], h[|h| - 1], FirstFailure(h, t, from) + T;
      if c.target == t && c.time <= limit {
        FailuresWithin(h, t, from, T);
        AttemptsAreFailures(h, t, from, limit);
      } else {
        DueBefore(h, t, from);
        AttemptsBounded(init, t, from, T);
        LateCallIsNotCounted(h, t, from, limit);
      }
    }
  }

  lemma {:induction false} DueBefore(h: seq<Call>, t: string, from: nat)
    requires from < |h| && OnlyTriedWhenDue(h, t, from)
    ensures h[..|h| - 1][..from] == h[..from] && OnlyTriedWhenDue(h[..|h| - 1], t, from)
  {
    var init := h[..|h| - 1];
    assert forall i :: from <= i < |init| ==> init[..i] == h[..i];
  }

  /** A call about another target, or after the limit, changes neither count nor first failure. */
  lemma {:induction false} LateCallIsNotCounted(h: seq<Call>, t: string, from: nat, limit: nat)
    requires from < |h| && OnlyTriedWhenDue(h, t, from) && Failures(h, t) >= 1 && FirstFailure(h, t, from) <= limit
    requires h[|h| - 1].target != t || h[|h| - 1].time > limit
    ensures var init := h[..|h| - 1];
      && Failures(init, t) >= 1 && FirstFailure(init, t, from) == FirstFailure(h, t, from)
      && Attempts(init, t, from, limit) == Attempts(h, t, from, limit)
  {
  }

  // ---------------------------------------------------------------- the same for any client

  /**
   What the connection entry does, in terms of the history alone: skip while backing off, otherwise try and
   record.
   */
  lemma {:induction false} OpenedIff(h: seq<Call>, a: Attempt)
    requires NamesFit(h)
    ensures Opened(h, a) ==
      if MustSkip(h, a.path, a.now) then h else h + [if a.up then Ok(a.path) else Fail(a.path, a.ended)]
  {
    TableAgrees(h);
    assert Blocked(Table(h), a.path, a.now) <==> MustSkip(h, a.path, a.now);
  }

  /** A connection that succeeds is recorded, and from then on its target is tried again at any time. */
  lemma {:induction false} SuccessUnblocks(h: seq<Call>, a: Attempt, now: nat)
    requires NamesFit(h) && |a.path| < NAME_MAX && a.up && !MustSkip(h, a.path, a.now)
    ensures Opened(h, a) == h + [Ok(a.path)] && Failures(Opened(h, a), a.path) == 0
    ensures !Blocked(Table(Opened(h, a)), a.path, now)
  {
    OpenedIff(h, a);
    OpenedNamesFit(h, a);
    Snoc(h, Ok(a.path));
    TableAgrees(Opened(h, a));
    assert !MustSkip(Opened(h, a), a.path, now);
  }

  /**
   A target that is not registered, one that connected when the table was full included, is really tried at
   every ask.
   */
  lemma {:induction false} UnregisteredIsAlwaysTried(h: seq<Call>, a: Attempt)
    requires NamesFit(h) && a.path !in Registered(h)
    ensures Opened(h, a) == h + [if a.up then Ok(a.path) else Fail(a.path, a.ended)]
  {
    TableAgrees(h);
    assert !MustSkip(h, a.path, a.now);
  }

  /** The client's names fit, its clock does not go back within a call, and `t` stays down. */
  predicate StaysDown(attempts: seq<Attempt>, t: string) {
    forall i :: 0 <= i < |attempts| ==>
      |attempts[i].path| < NAME_MAX && attempts[i].now <= attempts[i].ended && (attempts[i].path == t ==>
        !attempts[i].up)
  }

  lemma {:induction false} OpenedNamesFit(h: seq<Call>, a: Attempt)
    requires NamesFit(h) && |a.path| < NAME_MAX
    ensures NamesFit(Opened(h, a))
  {
    Snoc(h, if a.up then Ok(a.path) else Fail(a.path, a.ended));
  }

  /** One call keeps "tried only when due". */
  lemma {:induction false} OpenedWhenDue(h: seq<Call>, a: Attempt, t: string, from: nat)
    requires NamesFit(h) && OnlyTriedWhenDue(h, t, from) && from <= |h|
    requires a.now <= a.ended && (a.path == t ==> !a.up)
    ensures OnlyTriedWhenDue(Opened(h, a), t, from)
  {
    TableAgrees(h);
    var after := Opened(h, a);
    assert Blocked(Table(h), a.path, a.now) <==> MustSkip(h, a.path, a.now);
    forall i | from <= i < |after| && after[i].target == t
      ensures after[i].Fail? && !MustSkip(after[..i], t, after[i].time)
    {
      assert after[..i] == h[..i];
      if i == |h| {
        assert h[..i] == h;
      }
    }
  }

  /** A client that goes through the connection entry tries a dead target only when the history allows it. */
  lemma {:induction false} ClientTriesWhenDue(h: seq<Call>, attempts: seq<Attempt>, t: string)
    requires NamesFit(h) && StaysDown(attempts, t)
    ensures h <= Driven(h, attempts) && NamesFit(Driven(h, attempts))
    ensures OnlyTriedWhenDue(Driven(h, attempts), t, |h|)
  {
    if attempts != [] {
      var init, a := attempts[..|attempts| - 1], attempts[|attempts| - 1];
      ClientTriesWhenDue(h, init, t);
      OpenedNamesFit(Driven(h, init), a);
      OpenedWhenDue(Driven(h, init), a, t, |h|);
    }
  }

  /**
   The table's promise to its users: whatever a sequential client asks for, a registered target that
   has answered last and now stays down is really connected to at most 5 + T / 30000 times within T ms
   of its first failure.
   */
  lemma {:induction false} ClientAttemptsBounded(h: seq<Call>, attempts: seq<Attempt>, t: string, T: nat)
    requires NamesFit(h) && t in Registered(h) && Failures(h, t) == 0 && StaysDown(attempts, t)
    ensures RarelyTried(Driven(h, attempts), t, |h|, T)
  {
    ClientTriesWhenDue(h, attempts, t);
    BoundedSince(h, Driven(h, attempts), t, T);
  }

  lemma {:induction false} BoundedSince(h: seq<Call>, after: seq<Call>, t: string, T: nat)
    requires h <= after && t in Registered(h) && Failures(h, t) == 0 && OnlyTriedWhenDue(after, t, |h|)
    ensures RarelyTried(after, t, |h|, T)
  {
    assert after[..|h|] == h;
    AttemptsBounded(after, t, |h|, T);
  }
}
