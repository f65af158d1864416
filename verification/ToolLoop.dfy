/**
 The ReAct tool loop of an agent run: fit the context, ask the model, execute its tool calls,
 repeat. Everything outside the loop (model, tools, memory service, cancellation) is a script
 that answers round by round.
 */
module ToolLoop {
  import opened Common
  import opened ContextLedger
  import opened ReactShape

  const MAX_LOOPS := 8
  const FAIL_LIMIT := 3
  const RC_OK := 0
  const RC_CANCELLED := 1
  const RC_FUSE := 2
  const RC_FAIL := -1

  /**
   One tool call with the outcome its execution will have; `entryId` is what recording the result returns, if it
   succeeds.
   */
  datatype Call = Call(id: string, ok: bool, result: string, entryId: Option<string>)

  /** A failed stream, or an assistant message; an empty list of calls ends the run. */
  datatype Reply = Broken | Answer(text: string, calls: seq<Call>, entryId: Option<string>)

  datatype Round = Round(cancelled: bool, warn: bool, context: Option<string>, reply: Reply)

  // ---------------------------------------------------------------- failures in a row

  function Oks(calls: seq<Call>): seq<bool> {
    seq(|calls|, i requires 0 <= i < |calls| => calls[i].ok)
  }

  function CallsOf(reply: Reply): seq<Call> {
    if reply.Broken? then [] else reply.calls
  }

  /** Outcomes of all calls of the first `n` rounds, in order. */
  function Outcomes(script: nat -> Round, n: nat): seq<bool> {
    if n == 0 then [] else Outcomes(script, n - 1) + Oks(CallsOf(script(n - 1).reply))
  }

  function TrailingFailures(trace: seq<bool>): (k: nat)
    ensures k <= |trace|
    ensures forall i :: |trace| - k <= i < |trace| ==> !trace[i]
    ensures k < |trace| ==> trace[|trace| - 1 - k]
  {
    if trace == [] || trace[|trace| - 1] then 0 else 1 + TrailingFailures(trace[..|trace| - 1])
  }

  /** Three failures in a row, from position `j`. */
  predicate Triple(trace: seq<bool>, j: nat) {
    j + FAIL_LIMIT <= |trace| && !trace[j] && !trace[j + 1] && !trace[j + 2]
  }

  ghost predicate NoTriple(trace: seq<bool>) {
    forall j: nat :: !Triple(trace, j)
  }

  /** Three failures in a row occur only as the last three outcomes. */
  ghost predicate TriplesOnlyAtEnd(trace: seq<bool>) {
    forall j: nat :: Triple(trace, j) ==> j + FAIL_LIMIT == |trace|
  }

  predicate EndsInTriple(trace: seq<bool>) {
    |trace| >= FAIL_LIMIT && Triple(trace, |trace| - FAIL_LIMIT)
  }

  lemma {:induction false} EndsInTripleIffStreak(trace: seq<bool>)
    ensures EndsInTriple(trace) <==> TrailingFailures(trace) >= FAIL_LIMIT
  {
    var k := TrailingFailures(trace);
    if k < |trace| {
      assert trace[|trace| - 1 - k];
    }
  }

  lemma {:induction false} TrailingSnoc(trace: seq<bool>, ok: bool)
    ensures TrailingFailures(trace + [ok]) == if ok then 0 else TrailingFailures(trace) + 1
  {
    assert (trace + [ok])[..|trace|] == trace;
  }

  /** A triple that one more outcome completes stands at the very end. */
  lemma {:induction false} TripleSnoc(trace: seq<bool>, ok: bool)
    requires NoTriple(trace)
    ensures TriplesOnlyAtEnd(trace + [ok])
  {
    forall j: nat | Triple(trace + [ok], j) ensures j + FAIL_LIMIT == |trace| + 1 {
      assert j + FAIL_LIMIT <= |trace| ==> Triple(trace, j);
    }
  }

  // ---------------------------------------------------------------- the context between rounds

  /** List, mapping and shape agree; `next` is above every address in use. */
  ghost predicate InStep(msgs: seq<Message>, enabled: bool, items: seq<Item>, next: nat, sh: Shape) {
    && msgs == Chat(sh) && WellShaped(sh)
    && (forall m :: m in msgs ==> m.uid < next)
    && (enabled ==> Maps(items, sh))
  }

  /** The groups a compaction leaves: the newest only. */
  function Newest(groups: seq<Group>): seq<Group> {
    if groups == [] then [] else [groups[|groups| - 1]]
  }

  /** A list stays distinct when a block gives way to a message with a new address. */
  lemma {:induction false} DistinctReplaced(a: seq<Message>, b: seq<Message>, c: seq<Message>, s: Message)
    requires Distinct(a + b + c) && forall m :: m in a + b + c ==> m.uid < s.uid
    ensures Distinct(a + [s] + c)
  {
    var before, after, n := a + b + c, a + [s] + c, |a|;
    forall i, j | 0 <= i < j < |after| ensures after[i].uid != after[j].uid {
      var i', j' := if i < n then i else i + |b| - 1, if j < n then j else j + |b| - 1;
      assert i != n ==> after[i] == before[i'] && before[i'] in before;
      assert j != n ==> after[j] == before[j'] && before[j'] in before;
    }
  }

  lemma {:induction false} CompactedIsWellShaped(sh: Shape, g: Group, summary: Message)
    requires WellShaped(sh.(groups := sh.groups + [g])) && summary.role == User
    requires forall m :: m in Chat(sh) + Msgs(g) ==> m.uid < summary.uid
    requires sh.summary.Some? ==> sh.groups != []
    ensures WellShaped(Shape(sh.seed, Some(summary), [g]))
  {
    OrderSnoc(sh, g);
    assert g in sh.groups + [g];
    var b := Opt(sh.summary) + Flat(sh.groups);
    assert Chat(sh) + Msgs(g) == sh.seed + b + Msgs(g);
    DistinctReplaced(sh.seed, b, Msgs(g), summary);
    SingleIsWellShaped(sh.seed, summary, g);
  }

  lemma {:induction false} SingleIsWellShaped(seed: seq<Message>, summary: Message, g: Group)
    requires Whole(g) && summary.role == User && Distinct(seed + [summary] + Msgs(g))
    ensures WellShaped(Shape(seed, Some(summary), [g]))
  {
    CompactedShape(seed, summary, g);
  }

  lemma {:induction false} CompactedAddresses(older: Shape, g: Group, s: Message, next: nat)
    requires forall m :: m in Chat(older) + Msgs(g) ==> m.uid < next
    requires s.uid == next
    ensures forall m :: m in Chat(Shape(older.seed, Some(s), [g])) ==> m.uid < next + 1
  {
    CompactedShape(older.seed, s, g);
    forall m | m in older.seed + [s] + Msgs(g) ensures m.uid < next + 1 {
      assert m == s || m in Chat(older) + Msgs(g);
    }
  }

  lemma {:induction false} CompactionInStep(items: seq<Item>, next: nat, older: Shape, g: Group, context: string)
    requires InStep(Chat(older) + Msgs(g), true, items, next, older.(groups := older.groups + [g]))
    requires older.groups != []
    ensures Protect(items) > 1
    ensures FirstCandidate(Candidates(items, Protect(items)), Chat(older) + Msgs(g)) < |Chat(older) + Msgs(g)|
    ensures InStep(Replaced(Candidates(items, Protect(items)), Chat(older) + Msgs(g), Summary(next, context)), true,
                   Remapped(items, Protect(items), Summary(next, context)), next + 1,
                   Shape(older.seed, Some(Summary(next, context)), [g]))
  {
    var s := Summary(next, context);
    CompactionKeepsShape(items, older, g, s);
    CompactedIsWellShaped(older, g, s);
    CompactedAddresses(older, g, s, next);
  }

  /** A compaction before a round keeps list, mapping and shape in step. */
  lemma {:induction false} FitKeeps(msgs: seq<Message>, items: seq<Item>, next: nat, sh: Shape, context: string)
    requires InStep(msgs, true, items, next, sh) && CanCompact(items)
    ensures |sh.groups| >= 2 && Protect(items) > 1
    ensures FirstCandidate(Candidates(items, Protect(items)), msgs) < |msgs|
    ensures InStep(Replaced(Candidates(items, Protect(items)), msgs, Summary(next, context)), true,
                   Remapped(items, Protect(items), Summary(next, context)), next + 1,
                   Shape(sh.seed, Some(Summary(next, context)), Newest(sh.groups)))
  {
    if |sh.groups| <= 1 {
      NothingToCompact(items, sh);
    }
    var n := |sh.groups| - 1;
    var older, g := sh.(groups := sh.groups[..n]), sh.groups[n];
    assert sh.groups == sh.groups[..n] + [g] && sh == older.(groups := older.groups + [g]);
    OrderSnoc(older, g);
    CompactionInStep(items, next, older, g, context);
  }

  function FitShape(enabled: bool, items: seq<Item>, next: nat, sh: Shape, r: Round): Shape {
    if Fits(enabled, items, r.warn, r.context) then
      Shape(sh.seed, Some(Summary(next, r.context.value)), Newest(sh.groups))
    else sh
  }

  lemma {:induction false} FitInStep(msgs: seq<Message>, enabled: bool, items: seq<Item>, next: nat, sh: Shape,
                                     r: Round)
    requires InStep(msgs, enabled, items, next, sh)
    ensures var (msgs', items') := Fitted(enabled, items, msgs, r.warn, r.context, next);
      InStep(msgs', enabled, items', next + 1, FitShape(enabled, items, next, sh, r))
    ensures Fits(enabled, items, r.warn, r.context) ==> sh.groups != []
  {
    if Fits(enabled, items, r.warn, r.context) {
      FitKeeps(msgs, items, next, sh, r.context.value);
    }
  }

  // ---------------------------------------------------------------- one round's group

  function AssistantMsg(uid: nat, text: string, calls: seq<Call>): Message {
    Message(uid, Assistant, seq(|calls|, i requires 0 <= i < |calls| => calls[i].id), "", Some(text))
  }

  function ToolMsg(uid: nat, c: Call): Message {
    Message(uid, Tool, [], c.id, Some(c.result))
  }

  function ToolMsgs(uid: nat, calls: seq<Call>): (r: seq<Message>)
    ensures |r| == |calls| && forall k :: 0 <= k < |calls| ==> r[k] == ToolMsg(uid + k, calls[k])
    decreases |calls|
  {
    if calls == [] then [] else [ToolMsg(uid, calls[0])] + ToolMsgs(uid + 1, calls[1..])
  }

  /** An entry id, if recording succeeded. */
  function IdOf(entryId: Option<string>): string {
    if entryId.Some? then entryId.value else ""
  }

  function ToolItem(uid: nat, c: Call): Item {
    Item(IdOf(c.entryId), ToolEntry, Some(ToolMsg(uid, c)))
  }

  function ToolItems(uid: nat, calls: seq<Call>): (r: seq<Item>)
    ensures |r| == |calls| && forall k :: 0 <= k < |calls| ==> r[k] == ToolItem(uid + k, calls[k])
    decreases |calls|
  {
    if calls == [] then [] else [ToolItem(uid, calls[0])] + ToolItems(uid + 1, calls[1..])
  }

  /** The messages of one round, addresses counted up from `uid`. */
  function GroupOf(uid: nat, text: string, calls: seq<Call>): Group {
    Group(AssistantMsg(uid, text, calls), ToolMsgs(uid + 1, calls))
  }

  function AnswerItem(uid: nat, a: Reply): Item
    requires a.Answer?
  {
    Item(IdOf(a.entryId), AssistantEntry, Some(AssistantMsg(uid, a.text, a.calls)))
  }

  /** The mapping of one round's messages when all of them are recorded. */
  function GroupItems(uid: nat, a: Reply): seq<Item>
    requires a.Answer?
  {
    [AnswerItem(uid, a)] + ToolItems(uid + 1, a.calls)
  }

  /** Recording succeeds for the reply and all its results. */
  predicate LoggedCalls(calls: seq<Call>) {
    forall k :: 0 <= k < |calls| ==> calls[k].entryId.Some?
  }

  predicate LoggedReply(a: Reply) {
    a.Answer? ==> a.entryId.Some? && LoggedCalls(a.calls)
  }

  /** Recording succeeds throughout. */
  ghost predicate Logged(script: nat -> Round) {
    forall i: nat :: LoggedReply(script(i).reply)
  }

  lemma {:induction false} GroupIsWhole(uid: nat, text: string, calls: seq<Call>)
    requires calls != []
    ensures Whole(GroupOf(uid, text, calls))
    ensures forall i :: 0 <= i < |Msgs(GroupOf(uid, text, calls))| ==> Msgs(GroupOf(uid, text, calls))[i].uid == uid + i
  {
    var g := GroupOf(uid, text, calls);
    assert forall i :: 1 <= i < |Msgs(g)| ==> Msgs(g)[i] == g.results[i - 1];
  }

  lemma {:induction false} ItemsMapGroup(uid: nat, a: Reply)
    requires a.Answer?
    ensures MapsAll(GroupItems(uid, a), Msgs(GroupOf(uid, a.text, a.calls)))
  {
    var items, msgs := GroupItems(uid, a), Msgs(GroupOf(uid, a.text, a.calls));
    forall k | 0 <= k < |msgs| ensures MapsTo(items[k], msgs[k]) {
      if k > 0 {
        assert items[k] == ToolItem(uid + k, a.calls[k - 1]) && msgs[k] == ToolMsg(uid + k, a.calls[k - 1]);
      }
    }
  }

  /** Messages with consecutive new addresses stay distinct from the old ones. */
  lemma {:induction false} FreshAppend(msgs: seq<Message>, more: seq<Message>, next: nat)
    requires Distinct(msgs) && (forall m :: m in msgs ==> m.uid < next)
    requires forall i :: 0 <= i < |more| ==> more[i].uid == next + i
    ensures Distinct(msgs + more) && forall m :: m in msgs + more ==> m.uid < next + |more|
  {
    var all := msgs + more;
    assert forall i :: 0 <= i < |msgs| ==> all[i] == msgs[i] && msgs[i] in msgs;
    assert forall i :: |msgs| <= i < |all| ==> all[i] == more[i - |msgs|];
  }

  lemma {:induction false} MapsMore(items: seq<Item>, order: seq<Message>, added: seq<Item>, more: seq<Message>)
    requires |items| >= 1 && MapsAll(items[1..], order) && MapsAll(added, more)
    ensures MapsAll((items + added)[1..], order + more)
  {
    assert (items + added)[1..] == items[1..] + added;
  }

  /** Any whole group with new addresses, fully mapped, keeps list, mapping and shape in step. */
  lemma {:induction false} AppendGroup(msgs: seq<Message>, enabled: bool, items: seq<Item>, next: nat, sh: Shape,
                                       g: Group, added: seq<Item>)
    requires InStep(msgs, enabled, items, next, sh) && Whole(g) && MapsAll(added, Msgs(g))
    requires forall i :: 0 <= i < |Msgs(g)| ==> Msgs(g)[i].uid == next + i
    ensures InStep(msgs + Msgs(g), enabled, items + added, next + |Msgs(g)|, sh.(groups := sh.groups + [g]))
  {
    OrderSnoc(sh, g);
    FreshAppend(msgs, Msgs(g), next);
    if enabled {
      MapsMore(items, Order(sh), added, Msgs(g));
    }
  }

  /** A finished round keeps list, mapping and shape in step. */
  lemma {:induction false} GroupKeeps(msgs: seq<Message>, enabled: bool, items: seq<Item>, next: nat, sh: Shape,
                                      a: Reply)
    requires InStep(msgs, enabled, items, next, sh) && a.Answer? && a.calls != []
    ensures InStep(msgs + Msgs(GroupOf(next, a.text, a.calls)), enabled, items + GroupItems(next, a),
                   next + 1 + |a.calls|, sh.(groups := sh.groups + [GroupOf(next, a.text, a.calls)]))
  {
    GroupIsWhole(next, a.text, a.calls);
    ItemsMapGroup(next, a);
    AppendGroup(msgs, enabled, items, next, sh, GroupOf(next, a.text, a.calls), GroupItems(next, a));
  }

  // ---------------------------------------------------------------- requests

  predicate IsSuffix(part: seq<Group>, whole: seq<Group>) {
    |part| <= |whole| && whole[|whole| - |part|..] == part
  }

  /**
   What the requests of a run are measured against: its script, whether it is recorded, and its seed. `exact`
   says that nothing is recorded, or everything is and every reply under an id of its own.
   */
  datatype Setting = Setting(script: nat -> Round, session: bool, seed: seq<Message>, exact: bool)

  /** The memory service warns and has a context to offer. */
  predicate Offers(r: Round) {
    r.warn && r.context.Some? && r.context.value != ""
  }

  /** The message that stands for the context offered in a round. */
  predicate Summarises(m: Message, r: Round) {
    && Offers(r) && m.role == User && m.calls == [] && m.callId == ""
    && m.content == Some("[compressed context]\n" + r.context.value)
  }

  /** Everything is recorded, and every reply under an id of its own. */
  ghost predicate Named(script: nat -> Round) {
    Logged(script) && forall i: nat :: script(i).reply.Answer? ==> IdOf(script(i).reply.entryId) != ""
  }

  /**
   How many groups the request of round `i` holds when everything is recorded under an id: one more each
   round, down to the newest whenever a context is offered for two or more.
   */
  function KeptGroups(z: Setting, i: nat): nat {
    var k := if i == 0 then 0 else KeptGroups(z, i - 1) + 1;
    if z.session && Offers(z.script(i)) && k >= 2 then 1 else k
  }

  /** The number of groups just before the budget check of round `i`. */
  function BeforeCheck(z: Setting, i: nat): nat {
    if i == 0 then 0 else KeptGroups(z, i - 1) + 1
  }

  /** What is recorded is recorded whole, and under ids if so said. */
  ghost predicate Honest(z: Setting) {
    z.session ==> Logged(z.script) && (z.exact ==> Named(z.script))
  }

  predicate Exact(z: Setting, i: nat, n: nat) {
    z.exact ==> n == KeptGroups(z, i)
  }

  /** How many groups each request holds is fixed, if everything is recorded under an id or nothing is recorded. */
  predicate ExactShapes(z: Setting, shapes: seq<Shape>) {
    forall i :: 0 <= i < |shapes| ==> Exact(z, i, |shapes[i].groups|)
  }

  /**
   A request the model may see in round `i`, after the groups of rounds 0 to i-1: the seed, at
   most one summary, then the newest of those groups without a gap; all of them when there is no
   summary, and always the newest.
   */
  ghost predicate GoodRequest(z: Setting, groups: seq<Group>, i: nat, r: seq<Message>, sh: Shape) {
    i <= |groups| && r == Chat(sh) && WellShaped(sh) && sh.seed == z.seed && Recent(z, groups[..i], sh)
  }

  ghost predicate GoodRequests(z: Setting, groups: seq<Group>, requests: seq<seq<Message>>, shapes: seq<Shape>) {
    |shapes| == |requests| && forall i :: 0 <= i < |requests| ==> GoodRequest(z, groups, i, requests[i], shapes[i])
  }

  /**
   The shape holds the newest groups without a gap, all of them when there is no summary; a summary
   is that of the context offered when the oldest of them was the newest.
   */
  ghost predicate Recent(z: Setting, groups: seq<Group>, sh: Shape) {
    && IsSuffix(sh.groups, groups) && (groups != [] ==> sh.groups != [])
    && (sh.summary.None? ==> sh.groups == groups)
    && (sh.summary.Some? ==> sh.groups != [] && Summarises(sh.summary.value, z.script(|groups| - |sh.groups| + 1)))
  }

  lemma {:induction false} FitIsRecent(z: Setting, groups: seq<Group>, sh: Shape, next: nat)
    requires Recent(z, groups, sh) && sh.groups != [] && Offers(z.script(|groups|))
    ensures Recent(z, groups, Shape(sh.seed, Some(Summary(next, z.script(|groups|).context.value)), Newest(sh.groups)))
  {
    assert groups[|groups| - 1..] == [groups[|groups| - 1]] && sh.groups[|sh.groups| - 1] == groups[|groups| - 1];
  }

  lemma {:induction false} RoundIsRecent(z: Setting, groups: seq<Group>, sh: Shape, g: Group)
    requires Recent(z, groups, sh)
    ensures Recent(z, groups + [g], sh.(groups := sh.groups + [g]))
  {
  }

  /** The list in hand between rounds is a good request for the next round. */
  lemma {:induction false} NextRequestIsGood(z: Setting, groups: seq<Group>, sh: Shape)
    requires WellShaped(sh) && sh.seed == z.seed && Recent(z, groups, sh)
    ensures GoodRequest(z, groups, |groups|, Chat(sh), sh)
  {
    assert groups[..|groups|] == groups;
  }

  lemma {:induction false} GoodRequestLater(z: Setting, groups: seq<Group>, g: Group, i: nat, r: seq<Message>,
                                            sh: Shape)
    requires GoodRequest(z, groups, i, r, sh)
    ensures GoodRequest(z, groups + [g], i, r, sh)
  {
    assert (groups + [g])[..i] == groups[..i];
  }

  /** In every request no tool message is without its assistant and no call without its result. */
  lemma {:induction false} GoodRequestIsPaired(z: Setting, groups: seq<Group>, i: nat, r: seq<Message>, sh: Shape)
    requires GoodRequest(z, groups, i, r, sh)
    ensures z.seed <= r && Paired(r, |z.seed|)
  {
    WellShapedIsPaired(sh);
  }

  // ---------------------------------------------------------------- the loop on values

  /** The run's variable part. `next` is the next free address; `enabled` says whether the ledger records. */
  datatype State = State(enabled: bool, messages: seq<Message>, items: seq<Item>, next: nat,
                         trace: seq<bool>, streak: nat, fused: bool)

  ghost function FitState(s: State, r: Round): State {
    var (msgs, items) := Fitted(s.enabled, s.items, s.messages, r.warn, r.context, s.next);
    s.(messages := msgs, items := items, next := s.next + 1)
  }

  /** The mapping with one more item, if the ledger records and recording succeeds. */
  function Record(s: State, entryId: Option<string>, item: Item): seq<Item> {
    if s.enabled && entryId.Some? then s.items + [item] else s.items
  }

  function AskState(s: State, a: Reply): State
    requires a.Answer?
  {
    var am := AssistantMsg(s.next, a.text, a.calls);
    s.(messages := s.messages + [am], items := Record(s, a.entryId, AnswerItem(s.next, a)), next := s.next + 1)
  }

  /** One executed call: count, fuse, append the result, record, trace. */
  function ToolState(s: State, c: Call): State {
    var streak := if c.ok then 0 else s.streak + 1;
    State(s.enabled, s.messages + [ToolMsg(s.next, c)], Record(s, c.entryId, ToolItem(s.next, c)), s.next + 1,
          s.trace + [c.ok], streak, s.fused || streak >= FAIL_LIMIT)
  }

  /** The calls of a round, in order, until done or the fuse blows. */
  function CallsState(s: State, calls: seq<Call>): State
    decreases |calls|
  {
    if calls == [] || s.fused then s else CallsState(ToolState(s, calls[0]), calls[1..])
  }

  /** One round's result: 1 to go on, otherwise the run's result. */
  function StepState(s: State, reply: Reply): (State, int) {
    if reply.Broken? then (s, RC_FAIL)
    else
      var a := AskState(s, reply);
      if reply.calls == [] then (a, RC_OK)
      else
        var t := CallsState(a, reply.calls);
        (t, if t.fused then RC_FUSE else 1)
  }

  datatype Outcome = Outcome(rc: int, state: State, requests: seq<seq<Message>>)

  /** The rounds from `i` on. */
  ghost function Rounds(script: nat -> Round, s: State, i: nat, requests: seq<seq<Message>>): Outcome
    decreases MAX_LOOPS - i
  {
    if i >= MAX_LOOPS then Outcome(RC_FAIL, s, requests)
    else if script(i).cancelled then Outcome(RC_CANCELLED, s, requests)
    else
      var f := FitState(s, script(i));
      var (t, rc) := StepState(f, script(i).reply);
      if rc == 1 then Rounds(script, t, i + 1, requests + [f.messages])
      else Outcome(rc, t, requests + [f.messages])
  }

  // ---------------------------------------------------------------- failures and the fuse

  /** The streak counts the trailing failures, and the fuse blows on the third. */
  ghost predicate StreakOk(s: State) {
    s.streak == TrailingFailures(s.trace) && s.fused == EndsInTriple(s.trace) && TriplesOnlyAtEnd(s.trace)
  }

  lemma {:induction false} ToolKeepsStreak(s: State, c: Call)
    requires StreakOk(s) && !s.fused
    ensures StreakOk(ToolState(s, c))
  {
    TrailingSnoc(s.trace, c.ok);
    EndsInTripleIffStreak(s.trace);
    EndsInTripleIffStreak(s.trace + [c.ok]);
    assert NoTriple(s.trace) by {
      assert forall j: nat :: Triple(s.trace, j) ==> EndsInTriple(s.trace);
    }
    TripleSnoc(s.trace, c.ok);
  }

  lemma {:induction false} CallsKeepStreak(s: State, calls: seq<Call>)
    requires StreakOk(s)
    ensures StreakOk(CallsState(s, calls))
    decreases |calls|
  {
    if calls != [] && !s.fused {
      ToolKeepsStreak(s, calls[0]);
      CallsKeepStreak(ToolState(s, calls[0]), calls[1..]);
    }
  }

  /** The trace grows by the outcomes of the executed calls: all of them, unless the fuse blows. */
  lemma {:induction false} CallsTrace(s: State, calls: seq<Call>)
    ensures CallsState(s, calls).trace <= s.trace + Oks(calls)
    ensures !CallsState(s, calls).fused ==> CallsState(s, calls).trace == s.trace + Oks(calls)
    decreases |calls|
  {
    if calls != [] && !s.fused {
      CallsTrace(ToolState(s, calls[0]), calls[1..]);
      assert Oks(calls) == [calls[0].ok] + Oks(calls[1..]);
      ConsAssoc(s.trace, calls[0].ok, Oks(calls[1..]));
    }
  }

  lemma {:induction false} ConsAssoc<T>(base: seq<T>, x: T, rest: seq<T>)
    ensures base + [x] + rest == base + ([x] + rest)
  {
  }

  /** A round that is not cut short appends all its results, in list and mapping. */
  lemma {:induction false} CallsAppend(s: State, calls: seq<Call>)
    requires !CallsState(s, calls).fused
    ensures CallsState(s, calls).messages == s.messages + ToolMsgs(s.next, calls)
    ensures s.enabled && LoggedCalls(calls) ==> CallsState(s, calls).items == s.items + ToolItems(s.next, calls)
    ensures CallsState(s, calls).next == s.next + |calls|
    decreases |calls|
  {
    if calls != [] {
      var u := ToolState(s, calls[0]);
      CallsAppend(u, calls[1..]);
      ConsAssoc(s.messages, ToolMsg(s.next, calls[0]), ToolMsgs(s.next + 1, calls[1..]));
      ConsAssoc(s.items, ToolItem(s.next, calls[0]), ToolItems(s.next + 1, calls[1..]));
    }
  }

  predicate FinalAnswer(reply: Reply) {
    reply.Answer? && reply.calls == []
  }

  /** After `n` requests, none of them last by itself: the newest reply has calls and the fuse has not blown. */
  predicate GoesOn(script: nat -> Round, trace: seq<bool>, n: nat) {
    (n > 0 ==> CallsOf(script(n - 1).reply) != []) && !EndsInTriple(trace)
  }

  /** How a run of `n` requests ends, with what trace of executed calls. */
  ghost predicate Verdict(script: nat -> Round, rc: int, trace: seq<bool>, n: nat) {
    && n <= MAX_LOOPS
    && rc in {RC_OK, RC_CANCELLED, RC_FUSE, RC_FAIL}
    && (rc == RC_FUSE <==> EndsInTriple(trace))
    && TriplesOnlyAtEnd(trace)
    && (rc == RC_OK <==> n > 0 && FinalAnswer(script(n - 1).reply))
    && (rc == RC_CANCELLED <==> n < MAX_LOOPS && script(n).cancelled && GoesOn(script, trace, n))
    && (rc == RC_FAIL <==> (n > 0 && script(n - 1).reply.Broken?) || (n == MAX_LOOPS && GoesOn(script, trace, n)))
    && trace <= Outcomes(script, n)
    && (rc != RC_FUSE ==> trace == Outcomes(script, n))
  }

  /** What one round does to the trace, and what its result code says. */
  ghost predicate StepFacts(s: State, reply: Reply, t: State, rc: int) {
    && StreakOk(t)
    && (rc == RC_FUSE <==> t.fused)
    && (rc == RC_OK <==> FinalAnswer(reply)) && (rc == RC_FAIL <==> reply.Broken?)
    && rc in {RC_OK, RC_FUSE, RC_FAIL, 1}
    && t.trace <= s.trace + Oks(CallsOf(reply)) && (!t.fused ==> t.trace == s.trace + Oks(CallsOf(reply)))
  }

  lemma {:induction false} StepVerdict(s: State, reply: Reply)
    requires StreakOk(s) && !s.fused
    ensures StepFacts(s, reply, StepState(s, reply).0, StepState(s, reply).1)
  {
    if reply.Answer? {
      CallsKeepStreak(AskState(s, reply), reply.calls);
      CallsTrace(AskState(s, reply), reply.calls);
    } else {
      assert Oks([]) == [];
    }
  }

  /** A round that ends the run ends it as `Verdict` says. */
  lemma {:induction false} FinalRound(script: nat -> Round, n: nat, trace: seq<bool>, t: State, rc: int)
    requires 0 < n <= MAX_LOOPS && trace + Oks(CallsOf(script(n - 1).reply)) == Outcomes(script, n)
    requires StreakOk(t) && (rc == RC_FUSE <==> t.fused) && rc in {RC_OK, RC_FUSE, RC_FAIL}
    requires (rc == RC_OK <==> FinalAnswer(script(n - 1).reply)) && (rc == RC_FAIL <==> script(n - 1).reply.Broken?)
    requires t.trace <= Outcomes(script, n) && (!t.fused ==> t.trace == Outcomes(script, n))
    ensures Verdict(script, rc, t.trace, n)
  {
    assert rc == RC_FUSE || CallsOf(script(n - 1).reply) == [];
  }

  lemma {:induction false} OutcomesNext(script: nat -> Round, i: nat)
    ensures Outcomes(script, i + 1) == Outcomes(script, i) + Oks(CallsOf(script(i).reply))
  {
  }

  lemma {:induction false} GoingRound(script: nat -> Round, f: State, i: nat, t: State)
    requires f.trace == Outcomes(script, i) && StepFacts(f, script(i).reply, t, 1)
    ensures StreakOk(t) && !t.fused && t.trace == Outcomes(script, i + 1)
    ensures script(i).reply.Answer? && script(i).reply.calls != []
  {
    OutcomesNext(script, i);
  }

  lemma {:induction false} LastRound(script: nat -> Round, f: State, i: nat, t: State, rc: int)
    requires i < MAX_LOOPS && f.trace == Outcomes(script, i) && rc != 1
    requires StepFacts(f, script(i).reply, t, rc)
    ensures Verdict(script, rc, t.trace, i + 1)
  {
    OutcomesNext(script, i);
    FinalRound(script, i + 1, f.trace, t, rc);
  }

  /** Between rounds, `i` of them done and all with calls. */
  ghost predicate Running(script: nat -> Round, s: State, i: nat) {
    && i <= MAX_LOOPS
    && StreakOk(s) && !s.fused && s.trace == Outcomes(script, i)
    && (i > 0 ==> script(i - 1).reply.Answer? && script(i - 1).reply.calls != [])
  }

  lemma {:induction false} NoRound(script: nat -> Round, s: State, i: nat)
    requires Running(script, s, i)
    ensures i == MAX_LOOPS ==> Verdict(script, RC_FAIL, s.trace, i)
    ensures i < MAX_LOOPS && script(i).cancelled ==> Verdict(script, RC_CANCELLED, s.trace, i)
  {
  }

  lemma {:induction false} OneRound(script: nat -> Round, s: State, i: nat)
    requires Running(script, s, i) && i < MAX_LOOPS
    ensures var (t, rc) := StepState(FitState(s, script(i)), script(i).reply);
      if rc == 1 then Running(script, t, i + 1) else Verdict(script, rc, t.trace, i + 1)
  {
    var f := FitState(s, script(i));
    var step := StepState(f, script(i).reply);
    StepVerdict(f, script(i).reply);
    if step.1 == 1 {
      GoingRound(script, f, i, step.0);
    } else {
      LastRound(script, f, i, step.0, step.1);
    }
  }

  /** One round of a run that has not ended. */
  lemma {:induction false} VerdictRound(script: nat -> Round, s: State, i: nat, requests: seq<seq<Message>>)
      returns (t: State, rc: int, asked: seq<seq<Message>>)
    requires Running(script, s, i) && |requests| == i < MAX_LOOPS && !script(i).cancelled
    ensures Rounds(script, s, i, requests) == if rc == 1 then Rounds(script, t, i + 1, asked) else Outcome(rc, t, asked)
    ensures |asked| == i + 1 && if rc == 1 then Running(script, t, i + 1) else Verdict(script, rc, t.trace, i + 1)
  {
    OneRound(script, s, i);
    var f := FitState(s, script(i));
    t, rc, asked := StepState(f, script(i).reply).0, StepState(f, script(i).reply).1, requests + [f.messages];
    RoundsStep(script, s, i, requests, f, t, rc);
  }

  /** The run's verdict: the fuse code, success, cancellation and failure each mean what they say. */
  lemma {:induction false} RoundsVerdict(script: nat -> Round, s: State, i: nat, requests: seq<seq<Message>>)
    requires Running(script, s, i) && |requests| == i
    ensures var o := Rounds(script, s, i, requests); Verdict(script, o.rc, o.state.trace, |o.requests|)
    decreases MAX_LOOPS - i
  {
    if i == MAX_LOOPS || script(i).cancelled {
      NoRound(script, s, i);
    } else {
      var t, rc, asked := VerdictRound(script, s, i, requests);
      if rc == 1 {
        RoundsVerdict(script, t, i + 1, asked);
      }
    }
  }

  // ---------------------------------------------------------------- the shape of every request

  /** Between rounds: list, mapping and the history of rounds are in step. */
  ghost predicate Ready(z: Setting, s: State, sh: Shape, groups: seq<Group>, requests: seq<seq<Message>>,
    shapes: seq<Shape>) {
    && InStep(s.messages, s.enabled, s.items, s.next, sh)
    && s.enabled == z.session && sh.seed == z.seed
    && Recent(z, groups, sh)
    && |requests| == |groups| && GoodRequests(z, groups, requests, shapes)
  }

  lemma {:induction false} FitReady(z: Setting, s: State, sh: Shape, groups: seq<Group>, requests: seq<seq<Message>>,
                                    shapes: seq<Shape>)
    requires Ready(z, s, sh, groups, requests, shapes)
    ensures var r := z.script(|groups|);
      Ready(z, FitState(s, r), FitShape(s.enabled, s.items, s.next, sh, r), groups, requests, shapes)
  {
    var r := z.script(|groups|);
    FitInStep(s.messages, s.enabled, s.items, s.next, sh, r);
    if Fits(s.enabled, s.items, r.warn, r.context) {
      FitIsRecent(z, groups, sh, s.next);
    }
  }

  lemma {:induction false} OneMoreRequest(z: Setting, groups: seq<Group>, requests: seq<seq<Message>>,
                                          shapes: seq<Shape>,
                                          r: seq<Message>, sh: Shape)
    requires GoodRequests(z, groups, requests, shapes) && GoodRequest(z, groups, |requests|, r, sh)
    ensures GoodRequests(z, groups, requests + [r], shapes + [sh])
  {
  }

  lemma {:induction false} AskReady(z: Setting, f: State, sh: Shape, groups: seq<Group>, requests: seq<seq<Message>>,
                                    shapes: seq<Shape>)
    requires Ready(z, f, sh, groups, requests, shapes)
    ensures GoodRequests(z, groups, requests + [f.messages], shapes + [sh])
  {
    NextRequestIsGood(z, groups, sh);
    OneMoreRequest(z, groups, requests, shapes, f.messages, sh);
  }

  // ---------------------------------------------------------------- when a context is compacted

  /** Every mapped reply can be submitted. */
  predicate RepliesNamed(items: seq<Item>) {
    forall k :: 0 <= k < |items| && items[k].kind == AssistantEntry ==> Submittable(items[k])
  }

  /** The mapping of the first group's head stands right after the entry. */
  lemma {:induction false} FirstMapped(items: seq<Item>, sh: Shape)
    requires WellShaped(sh) && Maps(items, sh) && sh.groups != []
    ensures |items| >= 2 && items[1].kind == AssistantEntry
  {
    var g := sh.groups[0];
    assert Whole(g);
    var rest := FirstHead(sh.groups);
    SingleGroup(g);
    assert sh.groups[..1] == [g];
    assert Order(sh)[0] == g.head;
    assert items[1..][0] == items[1];
  }

  /** With two groups or more, all of them recorded under ids, there is something to compact. */
  lemma {:induction false} TwoGroupsCompact(items: seq<Item>, sh: Shape)
    requires WellShaped(sh) && Maps(items, sh) && |sh.groups| >= 2 && RepliesNamed(items)
    ensures CanCompact(items)
  {
    var n := |sh.groups| - 1;
    var older, g := sh.(groups := sh.groups[..n]), sh.groups[n];
    assert sh.groups == sh.groups[..n] + [g] && sh == older.(groups := older.groups + [g]);
    MapsNewest(items, older, g);
    FirstMapped(items, sh);
    assert Submittable(items[1]);
  }

  /** The number of groups in hand is as counted, and the mapping has an id for every reply. */
  predicate Counted(z: Setting, s: State, n: nat, i: nat) {
    z.exact ==> n == BeforeCheck(z, i) && (s.enabled ==> RepliesNamed(s.items))
  }

  lemma {:induction false} FitCounts(z: Setting, s: State, sh: Shape, i: nat)
    requires InStep(s.messages, s.enabled, s.items, s.next, sh) && s.enabled == z.session &&
      Counted(z, s, |sh.groups|, i)
    ensures Exact(z, i, |FitShape(s.enabled, s.items, s.next, sh, z.script(i)).groups|)
    ensures z.exact && s.enabled ==> RepliesNamed(FitState(s, z.script(i)).items)
  {
    var r := z.script(i);
    if z.exact && s.enabled {
      if |sh.groups| >= 2 {
        TwoGroupsCompact(s.items, sh);
      } else {
        NothingToCompact(s.items, sh);
      }
      if Fits(s.enabled, s.items, r.warn, r.context) {
        RemappedNamed(s.items, Protect(s.items), Summary(s.next, r.context.value));
      }
    }
  }

  lemma {:induction false} RemappedNamed(items: seq<Item>, protect: nat, summary: Message)
    requires 1 <= protect <= |items| && RepliesNamed(items)
    ensures RepliesNamed(Remapped(items, protect, summary))
  {
    forall k | 0 <= k < |Remapped(items, protect, summary)| &&
      Remapped(items, protect, summary)[k].kind == AssistantEntry
      ensures Submittable(Remapped(items, protect, summary)[k])
    {
      RemappedAt(items, protect, summary, k);
    }
  }

  /** A recorded round adds one group, with an id for its reply. */
  lemma {:induction false} StepCounts(z: Setting, f: State, t: State, i: nat, n: nat, a: Reply)
    requires Exact(z, i, n) && a == z.script(i).reply && a.Answer? && t.enabled == f.enabled == z.session
    requires Honest(z) && (z.exact && f.enabled ==> RepliesNamed(f.items))
    requires f.enabled && LoggedReply(a) ==> t.items == f.items + GroupItems(f.next, a)
    ensures Counted(z, t, n + 1, i + 1)
  {
    if z.exact && t.enabled {
      assert LoggedReply(z.script(i).reply);
      var added := GroupItems(f.next, a);
      assert forall k :: 1 <= k < |added| ==> added[k] == ToolItem(f.next + k, a.calls[k - 1]);
      forall k | 0 <= k < |t.items| && t.items[k].kind == AssistantEntry ensures Submittable(t.items[k]) {
        if k >= |f.items| {
          assert t.items[k] == added[k - |f.items|];
        }
      }
    }
  }

  /** A round that goes on has appended one whole group. */
  lemma {:induction false} StepAppends(f: State, a: Reply)
    requires StepState(f, a).1 == 1 && !f.fused
    ensures a.Answer? && a.calls != []
    ensures var t, g := StepState(f, a).0, GroupOf(f.next, a.text, a.calls);
      && t.messages == f.messages + Msgs(g) && t.next == f.next + 1 + |a.calls| && t.enabled == f.enabled
      && (f.enabled && LoggedReply(a) ==> t.items == f.items + GroupItems(f.next, a))
  {
    var u := AskState(f, a);
    CallsAppend(u, a.calls);
    CallsEnabled(u, a.calls);
    ConsAssoc(f.messages, AssistantMsg(f.next, a.text, a.calls), ToolMsgs(f.next + 1, a.calls));
    ConsAssoc(f.items, AnswerItem(f.next, a), ToolItems(f.next + 1, a.calls));
  }

  lemma {:induction false} CallsEnabled(s: State, calls: seq<Call>)
    ensures CallsState(s, calls).enabled == s.enabled
    decreases |calls|
  {
    if calls != [] && !s.fused {
      CallsEnabled(ToolState(s, calls[0]), calls[1..]);
    }
  }

  lemma {:induction false} AllLater(z: Setting, groups: seq<Group>, g: Group, requests: seq<seq<Message>>,
                                    shapes: seq<Shape>)
    requires GoodRequests(z, groups, requests, shapes)
    ensures GoodRequests(z, groups + [g], requests, shapes)
  {
    forall i | 0 <= i < |requests| ensures GoodRequest(z, groups + [g], i, requests[i], shapes[i]) {
      GoodRequestLater(z, groups, g, i, requests[i], shapes[i]);
    }
  }

  lemma {:induction false} StepReady(z: Setting, f: State, sh: Shape, groups: seq<Group>, requests: seq<seq<Message>>,
                                     shapes: seq<Shape>, a: Reply)
    requires Ready(z, f, sh, groups, requests, shapes)
    requires StepState(f, a).1 == 1 && !f.fused && (f.enabled ==> LoggedReply(a))
    ensures a.Answer? && a.calls != [] && StepState(f, a).0.enabled == f.enabled
    ensures var g := GroupOf(f.next, a.text, a.calls);
      Ready(z, StepState(f, a).0, sh.(groups := sh.groups + [g]), groups + [g], requests + [f.messages], shapes + [sh])
  {
    StepAppends(f, a);
    var g := GroupOf(f.next, a.text, a.calls);
    GroupKeeps(f.messages, f.enabled, f.items, f.next, sh, a);
    RoundIsRecent(z, groups, sh, g);
    AskReady(z, f, sh, groups, requests, shapes);
    AllLater(z, groups, g, requests + [f.messages], shapes + [sh]);
  }

  /** Round k's group: the assistant says what the reply said, with its calls, and each result answers its call. */
  predicate OfRound(g: Group, reply: Reply) {
    && reply.Answer? && g.head.content == Some(reply.text)
    && |g.head.calls| == |g.results| == |reply.calls|
    && forall k :: 0 <= k < |reply.calls| ==>
         g.head.calls[k] == reply.calls[k].id == g.results[k].callId &&
           g.results[k].content == Some(reply.calls[k].result)
  }

  /** Group k is that of round k. */
  ghost predicate OfScript(script: nat -> Round, groups: seq<Group>) {
    forall k :: 0 <= k < |groups| ==> OfRound(groups[k], script(k).reply)
  }

  lemma {:induction false} GroupIsOfRound(uid: nat, reply: Reply)
    requires reply.Answer?
    ensures OfRound(GroupOf(uid, reply.text, reply.calls), reply)
  {
    var g := GroupOf(uid, reply.text, reply.calls);
    assert forall k :: 0 <= k < |reply.calls| ==> g.results[k] == ToolMsg(uid + 1 + k, reply.calls[k]);
  }

  lemma {:induction false} OfScriptSnoc(script: nat -> Round, groups: seq<Group>, uid: nat)
    requires OfScript(script, groups) && script(|groups|).reply.Answer?
    ensures var reply := script(|groups|).reply; OfScript(script, groups + [GroupOf(uid, reply.text, reply.calls)])
  {
    GroupIsOfRound(uid, script(|groups|).reply);
  }

  /**
   Good requests and groups of the script's rounds so far, and list and mapping in step with them.
   */
  ghost predicate OnTrack(z: Setting, s: State, sh: Shape, groups: seq<Group>, requests: seq<seq<Message>>,
    shapes: seq<Shape>) {
    && Ready(z, s, sh, groups, requests, shapes) && OfScript(z.script, groups) && !s.fused
    && Counted(z, s, |sh.groups|, |groups|) && ExactShapes(z, shapes)
  }

  /** A round that goes on adds its own group. */
  lemma {:induction false} StepOnTrack(z: Setting, f: State, sh: Shape, groups: seq<Group>, requests: seq<seq<Message>>,
                                       shapes: seq<Shape>, a: Reply, t: State, g: Group)
    requires Ready(z, f, sh, groups, requests, shapes) && ExactShapes(z, shapes + [sh])
    requires !f.fused && (f.enabled ==> LoggedReply(a)) && StepState(f, a) == (t, 1)
    requires a.Answer? && g == GroupOf(f.next, a.text, a.calls)
    requires !t.fused && OfScript(z.script, groups + [g]) && Counted(z, t, |sh.groups| + 1, |groups| + 1)
    ensures OnTrack(z, t, sh.(groups := sh.groups + [g]), groups + [g], requests + [f.messages], shapes + [sh])
  {
    StepReady(z, f, sh, groups, requests, shapes, a);
    Assemble(z, t, sh.(groups := sh.groups + [g]), groups + [g], requests + [f.messages], shapes + [sh]);
  }

  /** The second half of a round that goes on: the calls are answered. */
  lemma {:induction false} AnswerOnTrack(z: Setting, f: State, sh: Shape, groups: seq<Group>,
                                         requests: seq<seq<Message>>,
                                         shapes: seq<Shape>, a: Reply, t: State)
      returns (sh': Shape, groups': seq<Group>)
    requires Honest(z) && Ready(z, f, sh, groups, requests, shapes) && ExactShapes(z, shapes + [sh])
    requires OfScript(z.script, groups) && a == z.script(|groups|).reply && !f.fused && StepState(f, a) == (t, 1)
    requires Exact(z, |groups|, |sh.groups|) && (z.exact && f.enabled ==> RepliesNamed(f.items))
    ensures |groups'| == |groups| + 1
    ensures OnTrack(z, t, sh', groups', requests + [f.messages], shapes + [sh])
  {
    StepAppends(f, a);
    var g := GroupOf(f.next, a.text, a.calls);
    StepCounted(z, f, |groups|, |sh.groups|);
    GoesOnUnfused(f, a);
    OfScriptSnoc(z.script, groups, f.next);
    StepOnTrack(z, f, sh, groups, requests, shapes, a, t, g);
    sh', groups' := sh.(groups := sh.groups + [g]), groups + [g];
  }

  lemma {:induction false} Assemble(z: Setting, s: State, sh: Shape, groups: seq<Group>, requests: seq<seq<Message>>,
                                    shapes: seq<Shape>)
    requires Ready(z, s, sh, groups, requests, shapes) && OfScript(z.script, groups) && !s.fused
    requires Counted(z, s, |sh.groups|, |groups|) && ExactShapes(z, shapes)
    ensures OnTrack(z, s, sh, groups, requests, shapes)
  {
  }

  lemma {:induction false} StepCounted(z: Setting, f: State, i: nat, n: nat)
    requires Exact(z, i, n) && f.enabled == z.session && !f.fused && StepState(f, z.script(i).reply).1 == 1
    requires Honest(z) && (z.exact && f.enabled ==> RepliesNamed(f.items))
    ensures Counted(z, StepState(f, z.script(i).reply).0, n + 1, i + 1)
  {
    StepAppends(f, z.script(i).reply);
    StepCounts(z, f, StepState(f, z.script(i).reply).0, i, n, z.script(i).reply);
  }

  lemma {:induction false} ExactSnoc(z: Setting, shapes: seq<Shape>, sh: Shape)
    requires ExactShapes(z, shapes) && Exact(z, |shapes|, |sh.groups|)
    ensures ExactShapes(z, shapes + [sh])
  {
  }

  /** One round: its request is good, and if the run goes on everything is in step again. */
  lemma {:induction false} RoundReady(z: Setting, s: State, sh: Shape, groups: seq<Group>, requests: seq<seq<Message>>,
                                      shapes: seq<Shape>, r: Round, f: State)
      returns (fit: Shape, sh': Shape, groups': seq<Group>)
    requires Honest(z) && OnTrack(z, s, sh, groups, requests, shapes) && r == z.script(|groups|) && f == FitState(s, r)
    ensures GoodRequests(z, groups, requests + [f.messages], shapes + [fit])
    ensures ExactShapes(z, shapes + [fit])
    ensures StepState(f, r.reply).1 == 1 ==>
      && |groups'| == |groups| + 1
      && OnTrack(z, StepState(f, r.reply).0, sh', groups', requests + [f.messages], shapes + [fit])
  {
    fit, groups' := FitShape(s.enabled, s.items, s.next, sh, r), groups;
    sh' := fit;
    FitReady(z, s, sh, groups, requests, shapes);
    FitCounts(z, s, sh, |groups|);
    AskReady(z, f, fit, groups, requests, shapes);
    ExactSnoc(z, shapes, fit);
    if StepState(f, r.reply).1 == 1 {
      sh', groups' := AnswerOnTrack(z, f, fit, groups, requests, shapes, r.reply, StepState(f, r.reply).0);
    }
  }

  lemma {:induction false} GoesOnUnfused(s: State, reply: Reply)
    requires StepState(s, reply).1 == 1
    ensures !StepState(s, reply).0.fused
  {
  }

  /** The rounds from `i` on, one round unfolded. */
  lemma {:induction false} RoundsStep(script: nat -> Round, s: State, i: nat, requests: seq<seq<Message>>, f: State,
                                      t: State, rc: int)
    requires i < MAX_LOOPS && !script(i).cancelled
    requires f == FitState(s, script(i)) && (t, rc) == StepState(f, script(i).reply)
    ensures Rounds(script, s, i, requests) ==
      if rc == 1 then Rounds(script, t, i + 1, requests + [f.messages]) else Outcome(rc, t, requests + [f.messages])
  {
  }

  /** One round of a run that is on track. */
  lemma {:induction false} TrackRound(z: Setting, s: State, i: nat, requests: seq<seq<Message>>, shapes: seq<Shape>,
                                      sh: Shape,
                                      groups: seq<Group>)
      returns (t: State, rc: int, asked: seq<seq<Message>>, fits: seq<Shape>, sh': Shape, groups': seq<Group>)
    requires Honest(z) && OnTrack(z, s, sh, groups, requests, shapes)
    requires i == |groups| < MAX_LOOPS && !z.script(i).cancelled
    ensures Rounds(z.script, s, i, requests) ==
      if rc == 1 then Rounds(z.script, t, i + 1, asked) else Outcome(rc, t, asked)
    ensures OfScript(z.script, groups) && GoodRequests(z, groups, asked, fits) && ExactShapes(z, fits)
    ensures rc == 1 ==> OnTrack(z, t, sh', groups', asked, fits) && |groups'| == i + 1
  {
    var f := FitState(s, z.script(i));
    var fit;
    fit, sh', groups' := RoundReady(z, s, sh, groups, requests, shapes, z.script(i), f);
    t, rc, asked := StepState(f, z.script(i).reply).0, StepState(f, z.script(i).reply).1, requests + [f.messages];
    fits := shapes + [fit];
    TrackedSoFar(z, s, sh, groups, requests, shapes);
    RoundsStep(z.script, s, i, requests, f, t, rc);
  }

  lemma {:induction false} TrackedSoFar(z: Setting, s: State, sh: Shape, groups: seq<Group>,
                                        requests: seq<seq<Message>>,
                                        shapes: seq<Shape>)
    requires OnTrack(z, s, sh, groups, requests, shapes)
    ensures OfScript(z.script, groups) && GoodRequests(z, groups, requests, shapes) && ExactShapes(z, shapes)
  {
  }

  /**
   Every request of the run has the promised shape, over the groups `all` of its finished rounds:
   group k is what round k said and got. `fits` are the shapes.
   */
  lemma {:induction false} RoundsAreShaped(z: Setting, s: State, i: nat, requests: seq<seq<Message>>,
                                           shapes: seq<Shape>,
                                           sh: Shape, groups: seq<Group>)
      returns (all: seq<Group>, asked: seq<seq<Message>>, fits: seq<Shape>)
    requires Honest(z) && OnTrack(z, s, sh, groups, requests, shapes) && i == |groups|
    ensures OfScript(z.script, all)
    ensures asked == Rounds(z.script, s, i, requests).requests
    ensures GoodRequests(z, all, asked, fits) && ExactShapes(z, fits)
    decreases MAX_LOOPS - i
  {
    all, asked, fits := groups, requests, shapes;
    if i >= MAX_LOOPS || z.script(i).cancelled {
      TrackedSoFar(z, s, sh, groups, requests, shapes);
    } else {
      var t, rc, sh', groups';
      t, rc, asked, fits, sh', groups' := TrackRound(z, s, i, requests, shapes, sh, groups);
      if rc == 1 {
        all, asked, fits := RoundsAreShaped(z, t, i + 1, asked, fits, sh', groups');
      }
    }
  }

  // ---------------------------------------------------------------- the entry message over whole runs

  /** The first mapping is the entry message, the mapping is injective and points into the list. */
  ghost predicate EntryHeld(s: State, entry: Message) {
    && s.enabled
    && (forall m :: m in s.messages ==> m.uid < s.next)
    && |s.items| >= 1 && s.items[0].msg == Some(entry)
    && Sound(s.items, s.messages)
  }

  lemma {:induction false} EntryInList(s: State, entry: Message)
    requires EntryHeld(s, entry)
    ensures entry in s.messages
  {
    assert s.items[0].msg.Some?;
  }

  ghost predicate InEvery(m: Message, requests: seq<seq<Message>>) {
    forall k :: 0 <= k < |requests| ==> m in requests[k]
  }

  /** A budget check keeps the entry, whatever the state of the list. */
  lemma {:induction false} FitKeepsEntry(s: State, r: Round, entry: Message)
    requires EntryHeld(s, entry)
    ensures EntryHeld(FitState(s, r), entry)
  {
    if Fits(s.enabled, s.items, r.warn, r.context) {
      var p, summary := Protect(s.items), Summary(s.next, r.context.value);
      assert summary !in s.messages;
      if FirstCandidate(Candidates(s.items, p), s.messages) < |s.messages| {
        CompactionKeepsMapping(s.items, p, s.messages, summary);
      }
    }
  }

  /** So does appending a message with a new address, recorded or not. */
  lemma {:induction false} AppendKeepsEntry(s: State, t: State, entry: Message, item: Item, m: Message)
    requires EntryHeld(s, entry) && item.msg == Some(m) && m.uid == s.next
    requires t.enabled && t.messages == s.messages + [m] && t.next == s.next + 1
    requires t.items == s.items + [item] || t.items == s.items
    ensures EntryHeld(t, entry)
  {
    assert m !in s.messages;
    forall i | 0 <= i < |t.items| && t.items[i].msg.Some? ensures t.items[i].msg.value in t.messages {
      assert i < |s.items| ==> t.items[i] == s.items[i];
    }
  }

  lemma {:induction false} CallsKeepEntry(s: State, calls: seq<Call>, entry: Message)
    requires EntryHeld(s, entry)
    ensures EntryHeld(CallsState(s, calls), entry)
    decreases |calls|
  {
    if calls != [] && !s.fused {
      var c := calls[0];
      AppendKeepsEntry(s, ToolState(s, c), entry, ToolItem(s.next, c), ToolMsg(s.next, c));
      CallsKeepEntry(ToolState(s, c), calls[1..], entry);
    }
  }

  lemma {:induction false} StepKeepsEntry(s: State, reply: Reply, entry: Message)
    requires EntryHeld(s, entry)
    ensures EntryHeld(StepState(s, reply).0, entry)
  {
    if reply.Answer? {
      var am := AssistantMsg(s.next, reply.text, reply.calls);
      AppendKeepsEntry(s, AskState(s, reply), entry, AnswerItem(s.next, reply), am);
      CallsKeepEntry(AskState(s, reply), reply.calls, entry);
    }
  }

  lemma {:induction false} RoundKeepsEntry(script: nat -> Round, s: State, i: nat, requests: seq<seq<Message>>,
                                           entry: Message)
      returns (t: State, rc: int, asked: seq<seq<Message>>)
    requires EntryHeld(s, entry) && InEvery(entry, requests) && i < MAX_LOOPS && !script(i).cancelled
    ensures Rounds(script, s, i, requests) == if rc == 1 then Rounds(script, t, i + 1, asked) else Outcome(rc, t, asked)
    ensures EntryHeld(t, entry) && InEvery(entry, asked)
  {
    var f := FitState(s, script(i));
    FitKeepsEntry(s, script(i), entry);
    EntryInList(f, entry);
    StepKeepsEntry(f, script(i).reply, entry);
    t, rc, asked := StepState(f, script(i).reply).0, StepState(f, script(i).reply).1, requests + [f.messages];
    RoundsStep(script, s, i, requests, f, t, rc);
  }

  /**
   Over any run with any compactions, also one that breaks off in the middle of a round or in which
   recording fails now and then: the mapping stays injective and inside the list, its first entry stays
   the entry message, and that message is in every request.
   */
  lemma {:induction false} EntrySurvives(script: nat -> Round, s: State, i: nat, requests: seq<seq<Message>>,
                                         entry: Message)
    requires EntryHeld(s, entry) && InEvery(entry, requests)
    ensures EntryHeld(Rounds(script, s, i, requests).state, entry)
    ensures InEvery(entry, Rounds(script, s, i, requests).requests)
    decreases MAX_LOOPS - i
  {
    if i < MAX_LOOPS && !script(i).cancelled {
      var t, rc, asked := RoundKeepsEntry(script, s, i, requests, entry);
      if rc == 1 {
        EntrySurvives(script, t, i + 1, asked, entry);
      }
    }
  }

  // ---------------------------------------------------------------- the seed

  predicate HasUser(history: seq<Message>) {
    history == [] || exists m :: m in history && m.role == User
  }

  /** Position of the first user message, or the length. */
  function UserAt(messages: seq<Message>): (i: nat)
    ensures i <= |messages| && forall k :: 0 <= k < i ==> messages[k].role != User
    ensures i < |messages| ==> messages[i].role == User
  {
    if messages == [] || messages[0].role == User then 0 else 1 + UserAt(messages[1..])
  }

  method FirstUser(messages: seq<Message>) returns (i: nat)
    ensures i == UserAt(messages)
  {
    i := 0;
    while i < |messages| && messages[i].role != User
      invariant i <= |messages| && UserAt(messages) == i + UserAt(messages[i..])
    {
      assert messages[i..][1..] == messages[i + 1..];
      i := i + 1;
    }
  }

  /** What a run is given: whether it is recorded, and what its seed is made of. */
  datatype Args = Args(session: bool, history: seq<Message>, prompt: string, rules: string, boundary: string,
                       entryId: Option<string>, next: nat) {
    /** Addresses of the history are distinct and below `next`. */
    ghost predicate Valid() {
      Distinct(history) && forall m :: m in history ==> m.uid < next
    }

    /**
     A system preamble before the history, or before the prompt when there is no history: the tool rules,
     and how turns are told apart when there is more than one message.
     */
    function Seed(): seq<Message> {
      [Message(next + 1, System, [], "", Some(if |history| > 1 then rules + boundary else rules))]
      + if history == [] then [Message(next, User, [], "", Some(prompt))] else history
    }

    /** A recorded run has a user message to enter by. */
    predicate Enters() {
      session ==> HasUser(history)
    }
  }

  /** The state in which the first round begins. */
  function StartState(a: Args): State {
    var i := UserAt(a.Seed());
    var mapped := a.session && a.entryId.Some? && i < |a.Seed()|;
    State(a.session, a.Seed(), if mapped then [Item(a.entryId.value, UserEntry, Some(a.Seed()[i]))] else [],
          a.next + 2, [], 0, false)
  }

  const FIRST_ROUND: nat := 0

  ghost function WholeRun(script: nat -> Round, a: Args): Outcome {
    Rounds(script, StartState(a), FIRST_ROUND, [])
  }

  /** The message lists a run sends to the model. */
  ghost function Requests(script: nat -> Round, a: Args): seq<seq<Message>> {
    WholeRun(script, a).requests
  }

  lemma {:induction false} UserInSeed(a: Args)
    ensures UserAt(a.Seed()) < |a.Seed()| <==> HasUser(a.history)
  {
    var seed, i := a.Seed(), UserAt(a.Seed());
    if a.history == [] {
      assert seed[1].role == User;
    } else {
      assert seed[1..] == a.history && forall k :: 0 <= k < |a.history| ==> seed[1 + k] == a.history[k];
      if m :| m in a.history && m.role == User {
        var k :| 0 <= k < |a.history| && a.history[k] == m;
        assert seed[1 + k].role == User;
      }
      if i < |seed| {
        assert seed[i] == a.history[i - 1];
      }
    }
  }

  lemma {:induction false} SeedIsSound(a: Args)
    requires a.Valid()
    ensures Distinct(a.Seed()) && forall m :: m in a.Seed() ==> m.uid < a.next + 2
  {
    var seed, history := a.Seed(), a.history;
    assert forall i :: 0 <= i < |history| ==> history[i] in history;
    if history != [] {
      assert forall i :: 1 <= i < |seed| ==> seed[i] == history[i - 1];
    }
  }

  /** A recorded run has a user message, and it and everything later is recorded. */
  ghost predicate FullyRecorded(script: nat -> Round, a: Args) {
    a.session ==> HasUser(a.history) && a.entryId.Some? && Logged(script)
  }

  ghost function SettingOf(script: nat -> Round, a: Args): Setting {
    Setting(script, a.session, a.Seed(), a.session ==> Named(script))
  }

  lemma {:induction false} StartIsOnTrack(script: nat -> Round, a: Args)
    requires a.Valid() && FullyRecorded(script, a)
    ensures Honest(SettingOf(script, a))
    ensures OnTrack(SettingOf(script, a), StartState(a), Shape(a.Seed(), None, []), [], [], [])
  {
    SeedIsSound(a);
    UserInSeed(a);
    SeedReady(SettingOf(script, a), StartState(a));
  }

  lemma {:induction false} SeedReady(z: Setting, s: State)
    requires Distinct(z.seed) && s.messages == z.seed && s.enabled == z.session && forall m :: m in z.seed ==>
      m.uid < s.next
    requires s.enabled ==> |s.items| == 1 && s.items[0].kind == UserEntry
    requires s.enabled ==> s.items[0].msg.Some? && s.items[0].msg.value in z.seed
    ensures Ready(z, s, Shape(z.seed, None, []), [], [], [])
  {
    assert Flat([]) == [];
    assert Chat(Shape(z.seed, None, [])) == z.seed;
  }

  lemma {:induction false} StartHoldsEntry(a: Args)
    requires a.Valid() && a.session && HasUser(a.history) && a.entryId.Some?
    ensures UserAt(a.Seed()) < |a.Seed()|
    ensures EntryHeld(StartState(a), a.Seed()[UserAt(a.Seed())])
  {
    SeedIsSound(a);
    UserInSeed(a);
  }

  /** The seed's first user message is the prompt, or one of the history's. */
  lemma {:induction false} UserIsGiven(a: Args)
    requires UserAt(a.Seed()) < |a.Seed()|
    ensures var user := a.Seed()[UserAt(a.Seed())];
      user.role == User && if a.history == [] then user.content == Some(a.prompt) else user in a.history
  {
    var seed, i := a.Seed(), UserAt(a.Seed());
    assert seed[0].role == System;
    if a.history == [] {
      assert i == 1;
    } else {
      assert seed[i] == a.history[i - 1];
    }
  }

  /** Every run that has recorded its user message keeps it: mapped first, and in every request. */
  lemma {:induction false} UserMessageSurvives(script: nat -> Round, a: Args)
    requires a.Valid() && a.session && HasUser(a.history) && a.entryId.Some?
    ensures UserAt(a.Seed()) < |a.Seed()|
    ensures var user := a.Seed()[UserAt(a.Seed())];
      && EntryHeld(WholeRun(script, a).state, user) && InEvery(user, Requests(script, a))
      && user.role == User && (if a.history == [] then user.content == Some(a.prompt) else user in a.history)
  {
    StartHoldsEntry(a);
    UserIsGiven(a);
    EntrySurvives(script, StartState(a), FIRST_ROUND, [], a.Seed()[UserAt(a.Seed())]);
  }

  // ---------------------------------------------------------------- pairing, exactly

  ghost predicate AllPaired(script: nat -> Round, a: Args) {
    forall k :: 0 <= k < |Requests(script, a)| ==> Paired(Requests(script, a)[k], |a.Seed()|)
  }

  lemma {:induction false} RecordedRunsArePaired(script: nat -> Round, a: Args)
    requires a.Valid() && FullyRecorded(script, a)
    ensures AllPaired(script, a)
  {
    var z := SettingOf(script, a);
    StartIsOnTrack(script, a);
    var all, asked, fits := RoundsAreShaped(z, StartState(a), FIRST_ROUND, [], [], Shape(a.Seed(), None, []), []);
    forall k | 0 <= k < |Requests(script, a)| ensures Paired(Requests(script, a)[k], |a.Seed()|) {
      GoodRequestIsPaired(z, all, k, asked[k], fits[k]);
    }
  }

  const ONE_CALL := [Call("c", true, "", Some("e"))]

  function OneCall(entryId: Option<string>): Reply {
    Answer("", ONE_CALL, entryId)
  }

  /**
   Two rounds of one successful call each, then a warning: the context is compacted and the stream
   breaks. Everything is recorded, except, if `lost`, the first reply.
   */
  function Compacting(lost: bool, i: nat): Round {
    if i < 2 then Round(false, false, None, OneCall(if lost && i == 0 then None else Some("e")))
    else Round(false, true, Some("x"), Broken)
  }

  /** One round of `Compacting` before the warning. */
  lemma {:induction false} OneCallRound(s: State, r: Round) returns (t: State)
    requires !s.fused && s.enabled && !r.warn && r.reply.Answer? && r.reply.text == "" && r.reply.calls == ONE_CALL
    ensures StepState(FitState(s, r), r.reply) == (t, 1)
    ensures t.messages == s.messages + Msgs(GroupOf(s.next + 1, "", ONE_CALL))
    ensures t.items == s.items + (if r.reply.entryId.Some? then [AnswerItem(s.next + 1, r.reply)] else [])
                       + [ToolItem(s.next + 2, ONE_CALL[0])]
    ensures t.next == s.next + 3 && t.enabled && !t.fused
  {
    var f := FitState(s, r);
    assert f == s.(next := s.next + 1);
    var asked := AskState(f, r.reply);
    assert ONE_CALL[1..] == [];
    assert CallsState(asked, ONE_CALL) == ToolState(asked, ONE_CALL[0]);
    t := StepState(f, r.reply).0;
    assert ToolMsgs(s.next + 2, ONE_CALL) == [ToolMsg(s.next + 2, ONE_CALL[0])];
    ConsAssoc(s.messages, AssistantMsg(s.next + 1, "", ONE_CALL), ToolMsgs(s.next + 2, ONE_CALL));
  }

  /** The state after those two rounds: one item, whatever it maps, stands before the first result. */
  ghost predicate HalfMapped(t: State, seed: seq<Message>, next: nat) {
    && t.enabled && |t.items| == 4
    && t.messages == seed + Msgs(GroupOf(next + 1, "", ONE_CALL)) + Msgs(GroupOf(next + 4, "", ONE_CALL))
    && t.items[1] == ToolItem(next + 2, ONE_CALL[0])
    && t.items[2] == AnswerItem(next + 4, OneCall(Some("e")))
    && t.items[3] == ToolItem(next + 5, ONE_CALL[0])
  }

  /** A budget check in that state leaves an assistant's call without its result. */
  ghost predicate Orphans(seed: seq<Message>, next: nat, r: Round) {
    forall t :: HalfMapped(t, seed, next) ==> !Paired(FitState(t, r).messages, |seed|)
  }

  /** Only the first result is a candidate. */
  lemma {:induction false} OneCandidate(t: State, seed: seq<Message>, next: nat)
    requires HalfMapped(t, seed, next)
    ensures Protect(t.items) == 2 && CanCompact(t.items)
    ensures Candidates(t.items, 2) == {ToolMsg(next + 2, ONE_CALL[0])}
  {
    assert Submittable(t.items[1]);
    forall m ensures m in Candidates(t.items, 2) <==> m == ToolMsg(next + 2, ONE_CALL[0]) {
      assert t.items[1].msg == Some(ToolMsg(next + 2, ONE_CALL[0]));
    }
  }

  /** Compacting it away puts the summary where the result stood. */
  lemma {:induction false} ResultReplaced(seed: seq<Message>, next: nat, summary: Message)
    requires forall m :: m in seed ==> m.uid < next
    ensures var g, g' := GroupOf(next + 1, "", ONE_CALL), GroupOf(next + 4, "", ONE_CALL);
      Replaced({ToolMsg(next + 2, ONE_CALL[0])}, seed + Msgs(g) + Msgs(g'), summary) ==
        seed + [g.head] + [summary] + Msgs(g')
  {
    var g, g' := GroupOf(next + 1, "", ONE_CALL), GroupOf(next + 4, "", ONE_CALL);
    var result := ToolMsg(next + 2, ONE_CALL[0]);
    assert g.results == [result];
    assert seed + Msgs(g) + Msgs(g') == (seed + [g.head]) + [result] + Msgs(g');
    GroupIsWhole(next + 4, "", ONE_CALL);
    ReplaceBlock({result}, seed + [g.head], [result], Msgs(g'), summary);
  }

  lemma {:induction false} CompactedUnpaired(seed: seq<Message>, t: State, next: nat, r: Round)
    requires forall m :: m in seed ==> m.uid < next
    requires HalfMapped(t, seed, next) && r.warn && r.context == Some("x")
    ensures !Paired(FitState(t, r).messages, |seed|)
  {
    OneCandidate(t, seed, next);
    ResultReplaced(seed, next, Summary(t.next, "x"));
    HeadWithoutResults(seed, GroupOf(next + 1, "", ONE_CALL).head, Summary(t.next, "x"), Msgs(GroupOf(next + 4,
      "", ONE_CALL)));
  }

  lemma {:induction false} WarningOrphans(seed: seq<Message>, next: nat, r: Round)
    requires forall m :: m in seed ==> m.uid < next
    requires r.warn && r.context == Some("x")
    ensures Orphans(seed, next, r)
  {
    forall t | HalfMapped(t, seed, next) ensures !Paired(FitState(t, r).messages, |seed|) {
      CompactedUnpaired(seed, t, next, r);
    }
  }

  /** A run of three rounds, the last of which breaks. */
  lemma {:induction false} ThreeRounds(script: nat -> Round, i: nat, s: State, t: State, u: State)
    requires i + 2 < MAX_LOOPS && !script(i).cancelled && !script(i + 1).cancelled && !script(i + 2).cancelled
    requires StepState(FitState(s, script(i)), script(i).reply) == (t, 1)
    requires StepState(FitState(t, script(i + 1)), script(i + 1).reply) == (u, 1)
    requires script(i + 2).reply.Broken?
    ensures var asked := Rounds(script, s, i, []).requests;
      |asked| == 3 && asked[2] == FitState(u, script(i + 2)).messages
  {
    var f, f', f'' := FitState(s, script(i)), FitState(t, script(i + 1)), FitState(u, script(i + 2));
    RoundsStep(script, s, i, [], f, t, 1);
    RoundsStep(script, t, i + 1, [] + [f.messages], f', u, 1);
    RoundsStep(script, u, i + 2, [] + [f.messages] + [f'.messages], f'', f'', RC_FAIL);
  }

  /** Exactly one item stands before the first result: the entry and a lost reply, or no entry and the reply. */
  lemma {:induction false} TwoOneCallRounds(s: State, r: Round, r': Round) returns (t: State, u: State)
    requires s.enabled && !s.fused && |s.items| <= 1
    requires !r.warn && r.reply == OneCall(if s.items != [] then None else Some("e"))
    requires !r'.warn && r'.reply == OneCall(Some("e"))
    ensures StepState(FitState(s, r), r.reply) == (t, 1) && StepState(FitState(t, r'), r'.reply) == (u, 1)
    ensures HalfMapped(u, s.messages, s.next)
  {
    t := OneCallRound(s, r);
    u := OneCallRound(t, r');
  }

  /** The third request, made by a budget check that orphans a call. */
  lemma {:induction false} ThirdRequest(script: nat -> Round, s: State, i: nat, seed: seq<Message>)
      returns (third: seq<Message>)
    requires s.enabled && !s.fused && |s.items| <= 1 && s.messages == seed && i + 2 < MAX_LOOPS
    requires script(i) == Round(false, false, None, OneCall(if s.items != [] then None else Some("e")))
    requires script(i + 1) == Round(false, false, None, OneCall(Some("e")))
    requires !script(i + 2).cancelled && script(i + 2).reply.Broken? && Orphans(seed, s.next, script(i + 2))
    ensures |Rounds(script, s, i, []).requests| == 3 && Rounds(script, s, i, []).requests[2] == third
    ensures !Paired(third, |seed|)
  {
    var t, u := TwoOneCallRounds(s, script(i), script(i + 1));
    ThreeRounds(script, i, s, t, u);
    third := FitState(u, script(i + 2)).messages;
  }

  /**
   A recorded run can send a list that is not paired: when no user message is mapped, or, if one is,
   when recording the first reply fails.
   */
  lemma {:induction false} CompactingRunIsUnpaired(script: nat -> Round, a: Args, lost: bool)
    requires a.Valid() && a.session && lost == (HasUser(a.history) && a.entryId.Some?)
    requires forall i: nat :: script(i) == Compacting(lost, i)
    ensures !AllPaired(script, a)
  {
    UserInSeed(a);
    SeedIsSound(a);
    WarningOrphans(a.Seed(), StartState(a).next, script(FIRST_ROUND + 2));
    var third := ThirdRequest(script, StartState(a), FIRST_ROUND, a.Seed());
    UnpairedRequest(script, a, 2, third);
  }

  lemma {:induction false} UnpairedRequest(script: nat -> Round, a: Args, k: nat, r: seq<Message>)
    requires k < |Requests(script, a)| && Requests(script, a)[k] == r && !Paired(r, |a.Seed()|)
    ensures !AllPaired(script, a)
  {
  }

  /**
   Exactly when requests are paired, as long as recording succeeds: whatever else model, tools and
   memory service answer, no request has a tool message without its assistant or a call without
   its result, if and only if the run is not recorded or its seed has a user message.
   */
  lemma {:induction false} PairedIffEntered(a: Args)
    requires a.Valid() && a.entryId.Some?
    ensures (forall script: nat -> Round :: Logged(script) ==> AllPaired(script, a)) <==> a.Enters()
  {
    if a.Enters() {
      forall script: nat -> Round | Logged(script) ensures AllPaired(script, a) {
        RecordedRunsArePaired(script, a);
      }
    } else {
      var script := (i: nat) => Compacting(false, i);
      CompactingRunIsUnpaired(script, a, false);
      assert Logged(script);
    }
  }

  /** When recording may fail, requests are paired in every run if and only if nothing is recorded. */
  lemma {:induction false} PairedIffUnrecorded(a: Args)
    requires a.Valid()
    ensures (forall script: nat -> Round :: AllPaired(script, a)) <==> !a.session
  {
    if a.session {
      var lost := HasUser(a.history) && a.entryId.Some?;
      var script := (i: nat) => Compacting(lost, i);
      CompactingRunIsUnpaired(script, a, lost);
    } else {
      forall script: nat -> Round ensures AllPaired(script, a) {
        RecordedRunsArePaired(script, a);
      }
    }
  }

  // ---------------------------------------------------------------- every request starts with the seed

  /** The list starts with the seed, and no item after the first maps a message of the seed. */
  ghost predicate SeedKept(s: State, seed: seq<Message>, bound: nat) {
    && seed <= s.messages && bound <= s.next && (forall m :: m in seed ==> m.uid < bound)
    && forall j :: 1 <= j < |s.items| && s.items[j].msg.Some? ==> s.items[j].msg.value.uid >= bound
  }

  lemma {:induction false} FitKeepsSeed(s: State, r: Round, seed: seq<Message>, bound: nat)
    requires SeedKept(s, seed, bound)
    ensures SeedKept(FitState(s, r), seed, bound)
  {
    if Fits(s.enabled, s.items, r.warn, r.context) {
      var p, summary := Protect(s.items), Summary(s.next, r.context.value);
      var cands := Candidates(s.items, p);
      var k := FirstCandidate(cands, s.messages);
      if k < |s.messages| {
        assert forall i :: 0 <= i < |seed| ==> s.messages[i] == seed[i] && seed[i] in seed;
        assert s.messages[k].uid >= bound;
        assert s.messages[..k][..|seed|] == seed;
        forall j | 1 <= j < |Remapped(s.items, p, summary)| && Remapped(s.items, p, summary)[j].msg.Some?
          ensures Remapped(s.items, p, summary)[j].msg.value.uid >= bound
        {
          RemappedAt(s.items, p, summary, j);
        }
      }
    }
  }

  /** So does appending a message with a new address, recorded or not. */
  lemma {:induction false} AppendKeepsSeed(s: State, t: State, seed: seq<Message>, bound: nat, item: Item, m: Message)
    requires SeedKept(s, seed, bound) && item.msg == Some(m) && m.uid == s.next
    requires t.messages == s.messages + [m] && t.next == s.next + 1 &&
      (t.items == s.items + [item] || t.items == s.items)
    ensures SeedKept(t, seed, bound)
  {
  }

  lemma {:induction false} CallsKeepSeed(s: State, calls: seq<Call>, seed: seq<Message>, bound: nat)
    requires SeedKept(s, seed, bound)
    ensures SeedKept(CallsState(s, calls), seed, bound)
    decreases |calls|
  {
    if calls != [] && !s.fused {
      var c := calls[0];
      AppendKeepsSeed(s, ToolState(s, c), seed, bound, ToolItem(s.next, c), ToolMsg(s.next, c));
      CallsKeepSeed(ToolState(s, c), calls[1..], seed, bound);
    }
  }

  ghost predicate AllStartWith(seed: seq<Message>, requests: seq<seq<Message>>) {
    forall k :: 0 <= k < |requests| ==> seed <= requests[k]
  }

  lemma {:induction false} RoundKeepsSeed(script: nat -> Round, s: State, i: nat, requests: seq<seq<Message>>,
                                          seed: seq<Message>, bound: nat)
      returns (t: State, rc: int, asked: seq<seq<Message>>)
    requires SeedKept(s, seed, bound) && AllStartWith(seed, requests) && i < MAX_LOOPS && !script(i).cancelled
    ensures Rounds(script, s, i, requests) == if rc == 1 then Rounds(script, t, i + 1, asked) else Outcome(rc, t, asked)
    ensures SeedKept(t, seed, bound) && AllStartWith(seed, asked)
  {
    var f, reply := FitState(s, script(i)), script(i).reply;
    FitKeepsSeed(s, script(i), seed, bound);
    if reply.Answer? {
      var am := AssistantMsg(f.next, reply.text, reply.calls);
      AppendKeepsSeed(f, AskState(f, reply), seed, bound, AnswerItem(f.next, reply), am);
      CallsKeepSeed(AskState(f, reply), reply.calls, seed, bound);
    }
    t, rc, asked := StepState(f, reply).0, StepState(f, reply).1, requests + [f.messages];
    RoundsStep(script, s, i, requests, f, t, rc);
  }

  lemma {:induction false} RoundsKeepSeed(script: nat -> Round, s: State, i: nat, requests: seq<seq<Message>>,
                                          seed: seq<Message>, bound: nat)
    requires SeedKept(s, seed, bound) && AllStartWith(seed, requests)
    ensures AllStartWith(seed, Rounds(script, s, i, requests).requests)
    decreases MAX_LOOPS - i
  {
    if i < MAX_LOOPS && !script(i).cancelled {
      var t, rc, asked := RoundKeepsSeed(script, s, i, requests, seed, bound);
      if rc == 1 {
        RoundsKeepSeed(script, t, i + 1, asked, seed, bound);
      }
    }
  }

  lemma {:induction false} CallsMapNothing(s: State, calls: seq<Call>)
    requires !s.enabled
    ensures CallsState(s, calls).items == s.items && !CallsState(s, calls).enabled
    decreases |calls|
  {
    if calls != [] && !s.fused {
      CallsMapNothing(ToolState(s, calls[0]), calls[1..]);
    }
  }

  lemma {:induction false} RoundsMapNothing(script: nat -> Round, s: State, i: nat, requests: seq<seq<Message>>)
    requires !s.enabled
    ensures Rounds(script, s, i, requests).state.items == s.items
    decreases MAX_LOOPS - i
  {
    if i < MAX_LOOPS && !script(i).cancelled {
      var f, reply := FitState(s, script(i)), script(i).reply;
      if reply.Answer? {
        CallsMapNothing(AskState(f, reply), reply.calls);
      }
      RoundsStep(script, s, i, requests, f, StepState(f, reply).0, StepState(f, reply).1);
      if StepState(f, reply).1 == 1 {
        RoundsMapNothing(script, StepState(f, reply).0, i + 1, requests + [f.messages]);
      }
    }
  }

  /** A run that is not recorded maps nothing. */
  lemma {:induction false} UnrecordedMapsNothing(script: nat -> Round, a: Args)
    requires !a.session
    ensures WholeRun(script, a).state.items == []
  {
    RoundsMapNothing(script, StartState(a), FIRST_ROUND, []);
  }

  /** Every request of every run starts with the whole seed, recorded or not and whether or not recording succeeds. */
  lemma {:induction false} SeedSurvives(script: nat -> Round, a: Args)
    requires a.Valid()
    ensures AllStartWith(a.Seed(), Requests(script, a))
  {
    SeedIsSound(a);
    RoundsKeepSeed(script, StartState(a), FIRST_ROUND, [], a.Seed(), a.next + 2);
  }

  /**
   What a request starts with: the system's rules, with the note on turns when the history has more than
   one message, then the history as it is, or the prompt as the user's message when there is none.
   */
  predicate StartsAsAsked(a: Args, r: seq<Message>) {
    && |r| >= 1 && r[0].role == System
    && r[0].content == (if |a.history| <= 1 then Some(a.rules) else Some(a.rules + a.boundary))
    && (a.history == [] ==> |r| >= 2 && r[1].role == User && r[1].content == Some(a.prompt))
    && (a.history != [] ==> |r| >= 1 + |a.history| && r[1..1 + |a.history|] == a.history)
  }

  ghost predicate AllStartAsAsked(a: Args, requests: seq<seq<Message>>) {
    forall k :: 0 <= k < |requests| ==> StartsAsAsked(a, requests[k])
  }

  /** Every request of every run carries rules, history and prompt where they belong. */
  lemma {:induction false} RequestsStartAsAsked(script: nat -> Round, a: Args)
    requires a.Valid()
    ensures AllStartAsAsked(a, Requests(script, a))
  {
    SeedSurvives(script, a);
    forall k | 0 <= k < |Requests(script, a)| ensures StartsAsAsked(a, Requests(script, a)[k]) {
      StartsWithSeed(a, Requests(script, a)[k]);
    }
  }

  lemma {:induction false} StartsWithSeed(a: Args, r: seq<Message>)
    requires a.Seed() <= r
    ensures StartsAsAsked(a, r)
  {
    var seed := a.Seed();
    assert r[0] == seed[0] && r[1] == seed[1];
    if a.history != [] {
      assert r[1..1 + |a.history|] == seed[1..] == a.history;
    }
  }

  // ---------------------------------------------------------------- the loop as code

  class Run {
    const script: nat -> Round
    const ledger: Ledger
    var messages: seq<Message>
    var nextUid: nat
    var trace: seq<bool>
    var streak: nat
    var fused: bool
    /** The message lists sent to the model, in order. */
    var requests: seq<seq<Message>>

    ghost function Now(): State
      reads this, ledger
    {
      State(ledger.enabled, messages, ledger.items, nextUid, trace, streak, fused)
    }

    constructor (script: nat -> Round, a: Args)
      ensures fresh(ledger) && this.script == script && requests == []
      ensures Now() == StartState(a)
    {
      this.script := script;
      ledger := new Ledger(a.session);
      var seed := a.Seed();
      messages, nextUid := seed, a.next + 2;
      trace, streak, fused, requests := [], 0, false, [];
      new;
      var i := FirstUser(seed);
      if i < |seed| {
        ledger.Add(a.entryId, UserEntry, seed[i]);
      }
    }

    /** The ledger's budget check before a round. */
    method FitContext(r: Round)
      modifies this`messages, this`nextUid, ledger`items
      ensures Now() == FitState(old(Now()), r)
    {
      messages := ledger.Fit(messages, r.warn, r.context, nextUid);
      nextUid := nextUid + 1;
    }

    /** One request to the model; a reply is appended and recorded. Returns 1 final, 0 calls pending, -1 failed. */
    method AskModel(reply: Reply) returns (st: int)
      modifies this`messages, this`nextUid, this`requests, ledger`items
      ensures requests == old(requests) + [old(messages)]
      ensures st == if reply.Broken? then -1 else if reply.calls == [] then 1 else 0
      ensures Now() == if reply.Broken? then old(Now()) else AskState(old(Now()), reply)
      ensures reply.Answer? ==> |messages| == |old(messages)| + 1
      ensures reply.Answer? && ledger.enabled && reply.entryId.Some? ==>
        ledger.items == old(ledger.items) + [Item(reply.entryId.value, AssistantEntry, Some(messages[|messages| - 1]))]
    {
      requests := requests + [messages];
      if reply.Broken? {
        return -1;
      }
      var am := AssistantMsg(nextUid, reply.text, reply.calls);
      nextUid := nextUid + 1;
      messages := messages + [am];
      ledger.Add(reply.entryId, AssistantEntry, am);
      return if reply.calls == [] then 1 else 0;
    }

    /** Counts a failure or clears the streak; says whether the limit is reached. */
    method BumpStreak(ok: bool) returns (limit: bool)
      modifies this`streak
      ensures streak == (if ok then 0 else old(streak) + 1) && limit == (streak >= FAIL_LIMIT)
    {
      streak := if ok then 0 else streak + 1;
      limit := streak >= FAIL_LIMIT;
    }

    /** Executes one call. */
    method RunTool(c: Call)
      modifies this`messages, this`nextUid, this`trace, this`streak, this`fused, ledger`items
      ensures Now() == ToolState(old(Now()), c)
      ensures |messages| == |old(messages)| + 1 && trace == old(trace) + [c.ok]
      ensures ledger.enabled && c.entryId.Some? ==>
        ledger.items == old(ledger.items) + [Item(c.entryId.value, ToolEntry, Some(messages[|messages| - 1]))]
    {
      var limit := BumpStreak(c.ok);
      if limit {
        fused := true;
      }
      var msg := ToolMsg(nextUid, c);
      nextUid := nextUid + 1;
      messages := messages + [msg];
      ledger.Add(c.entryId, ToolEntry, msg);
      trace := trace + [c.ok];
    }

    method RunCalls(calls: seq<Call>)
      modifies this`messages, this`nextUid, this`trace, this`streak, this`fused, ledger`items
      ensures Now() == CallsState(old(Now()), calls)
    {
      var k := 0;
      assert calls[0..] == calls;
      while k < |calls| && !fused
        invariant k <= |calls| && CallsState(Now(), calls[k..]) == CallsState(old(Now()), calls)
      {
        assert calls[k..][1..] == calls[k + 1..];
        RunTool(calls[k]);
        k := k + 1;
      }
    }

    /** One round: ask, then execute the calls. */
    method Step(reply: Reply) returns (rc: int)
      requires !fused
      modifies this`messages, this`nextUid, this`requests, this`trace, this`streak, this`fused, ledger`items
      ensures (Now(), rc) == StepState(old(Now()), reply)
      ensures requests == old(requests) + [old(messages)]
    {
      var st := AskModel(reply);
      if st != 0 {
        return if st < 0 then RC_FAIL else RC_OK;
      }
      RunCalls(reply.calls);
      return if fused then RC_FUSE else 1;
    }

    method Loop() returns (rc: int)
      requires !fused && requests == []
      modifies this, ledger
      ensures Outcome(rc, Now(), requests) == Rounds(script, old(Now()), FIRST_ROUND, [])
    {
      rc := RC_FAIL;
      var i := 0;
      while i < MAX_LOOPS
        invariant i <= MAX_LOOPS && rc == RC_FAIL && !fused
        invariant Rounds(script, Now(), i, requests) == Rounds(script, old(Now()), FIRST_ROUND, [])
      {
        if script(i).cancelled {
          return RC_CANCELLED;
        }
        FitContext(script(i));
        var st := Step(script(i).reply);
        if st != 1 {
          return st;
        }
        i := i + 1;
      }
    }
  }

  /**
   A whole run. The return code and the trace of executed calls are as `Verdict` says, and every request
   starts with the seed. If the run is not recorded, or is recorded without a gap from its user message
   on, every request is the seed, at most one summary, and the newest whole groups without a gap, group
   k being that of round k.
   */
  method RunToolLoop(script: nat -> Round, a: Args)
      returns (rc: int, trace: seq<bool>, requests: seq<seq<Message>>, ghost groups: seq<Group>,
        ghost shapes: seq<Shape>)
    requires a.Valid()
    ensures requests == Requests(script, a) && Verdict(script, rc, trace, |requests|)
    ensures AllStartAsAsked(a, requests)
    ensures FullyRecorded(script, a) ==>
      && OfScript(script, groups) && GoodRequests(SettingOf(script, a), groups, requests, shapes)
      && ExactShapes(SettingOf(script, a), shapes) && AllPaired(script, a)
  {
    var run := new Run(script, a);
    RoundsVerdict(script, StartState(a), FIRST_ROUND, []);
    RequestsStartAsAsked(script, a);
    groups, shapes := [], [];
    if FullyRecorded(script, a) {
      StartIsOnTrack(script, a);
      ghost var asked;
      groups, asked, shapes :=
        RoundsAreShaped(SettingOf(script, a), StartState(a), FIRST_ROUND, [], [], Shape(a.Seed(), None, []), []);
      RecordedRunsArePaired(script, a);
    }
    rc := run.Loop();
    trace, requests := run.trace, run.requests;
  }
}
