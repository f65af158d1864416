/**
 The shape of the message list an agent run sends to the model: the seed, at most one summary,
 then whole ReAct groups. A group is an assistant message with tool calls followed by the
 result of each call.
 */
module ReactShape {
  import opened Common
  import opened ContextLedger

  datatype Group = Group(head: Message, results: seq<Message>)

  function Msgs(g: Group): seq<Message> {
    [g.head] + g.results
  }

  function Flat(groups: seq<Group>): seq<Message> {
    if groups == [] then [] else Flat(groups[..|groups| - 1]) + Msgs(groups[|groups| - 1])
  }

  /** Every call has its result, in order, and nothing else follows the calls. */
  predicate Whole(g: Group) {
    && g.head.role == Assistant && g.head.calls != []
    && |g.results| == |g.head.calls|
    && forall k :: 0 <= k < |g.results| ==> g.results[k].role == Tool && g.results[k].callId == g.head.calls[k]
  }

  datatype Shape = Shape(seed: seq<Message>, summary: Option<Message>, groups: seq<Group>)

  function Opt(m: Option<Message>): seq<Message> {
    if m.Some? then [m.value] else []
  }

  /** The list sent to the model. */
  function Chat(sh: Shape): seq<Message> {
    sh.seed + Opt(sh.summary) + Flat(sh.groups)
  }

  /** The order of the mapping: a summary is mapped after the group that was newest when it was made. */
  function Order(sh: Shape): seq<Message> {
    if sh.summary.None? || sh.groups == [] then Flat(sh.groups)
    else Flat(sh.groups[..1]) + [sh.summary.value] + Flat(sh.groups[1..])
  }

  ghost predicate WellShaped(sh: Shape) {
    && (forall g :: g in sh.groups ==> Whole(g))
    && (sh.summary.Some? ==> sh.groups != [] && sh.summary.value.role == User)
    && Distinct(Chat(sh))
  }

  predicate MapsTo(item: Item, m: Message) {
    item.msg == Some(m) && (item.kind == AssistantEntry <==> m.role == Assistant)
  }

  predicate MapsAll(items: seq<Item>, msgs: seq<Message>) {
    |items| == |msgs| && forall k :: 0 <= k < |msgs| ==> MapsTo(items[k], msgs[k])
  }

  /** The mapping covers the entry message and everything after the seed. */
  ghost predicate Maps(items: seq<Item>, sh: Shape) {
    && |items| >= 1 && items[0].kind == UserEntry && items[0].msg.Some? && items[0].msg.value in sh.seed
    && MapsAll(items[1..], Order(sh))
  }

  // ---------------------------------------------------------------- pairing

  /**
   No orphans, read off the list alone: from position `from` on, every tool message answers a
   call of the assistant before it, and every call of every assistant is answered.
   */
  predicate Paired(msgs: seq<Message>, from: nat) {
    && (forall i :: from <= i < |msgs| && msgs[i].role == Tool ==> Answers(msgs, from, i))
    && (forall j :: from <= j < |msgs| && msgs[j].role == Assistant ==> Answered(msgs, j))
  }

  /** Message `i` is the result of the matching call of the assistant at `j`. */
  predicate Matches(msgs: seq<Message>, j: nat, i: nat)
    requires j < i < |msgs|
  {
    && msgs[j].role == Assistant && msgs[i].role == Tool
    && i - j - 1 < |msgs[j].calls| && msgs[j].calls[i - j - 1] == msgs[i].callId
  }

  predicate Answers(msgs: seq<Message>, from: nat, i: nat)
    requires i < |msgs|
  {
    exists j :: from <= j < i && Matches(msgs, j, i)
  }

  predicate Answered(msgs: seq<Message>, j: nat)
    requires j < |msgs|
  {
    && j + |msgs[j].calls| < |msgs|
    && forall i :: j < i <= j + |msgs[j].calls| ==> Matches(msgs, j, i)
  }

  lemma {:induction false} AnswersInLonger(msgs: seq<Message>, more: seq<Message>, from: nat, i: nat)
    requires i < |msgs| && Answers(msgs, from, i)
    ensures Answers(msgs + more, from, i)
  {
    var j :| from <= j < i && Matches(msgs, j, i);
    assert Matches(msgs + more, j, i);
  }

  lemma {:induction false} AnsweredInLonger(msgs: seq<Message>, more: seq<Message>, j: nat)
    requires j < |msgs| && Answered(msgs, j)
    ensures Answered(msgs + more, j)
  {
    forall i | j < i <= j + |msgs[j].calls| ensures Matches(msgs + more, j, i) {
      assert Matches(msgs, j, i);
    }
  }

  /** Inside an appended whole group, results answer calls. */
  lemma {:induction false} GroupIsPaired(msgs: seq<Message>, g: Group, i: nat)
    requires Whole(g) && |msgs| < i <= |msgs| + |g.results|
    ensures Matches(msgs + Msgs(g), |msgs|, i)
  {
    assert (msgs + Msgs(g))[i] == g.results[i - |msgs| - 1];
  }

  /** Appending a whole group keeps a list paired. */
  lemma {:induction false} PairedAppend(msgs: seq<Message>, from: nat, g: Group)
    requires from <= |msgs| && Paired(msgs, from) && Whole(g)
    ensures Paired(msgs + Msgs(g), from)
  {
    var n, all := |msgs|, msgs + Msgs(g);
    assert all[n] == g.head;
    forall i | n < i < |all| ensures Matches(all, n, i) {
      GroupIsPaired(msgs, g, i);
    }
    forall i | from <= i < |all| && all[i].role == Tool ensures Answers(all, from, i) {
      if i < n {
        AnswersInLonger(msgs, Msgs(g), from, i);
      } else {
        assert i != n && Matches(all, n, i);
      }
    }
    forall j | from <= j < |all| && all[j].role == Assistant ensures Answered(all, j) {
      if j < n {
        AnsweredInLonger(msgs, Msgs(g), j);
      } else {
        assert j == n;
      }
    }
  }

  lemma {:induction false} GroupsPaired(front: seq<Message>, from: nat, groups: seq<Group>)
    requires from <= |front| && Paired(front, from) && forall g :: g in groups ==> Whole(g)
    ensures Paired(front + Flat(groups), from)
    decreases |groups|
  {
    if groups == [] {
      assert front + Flat(groups) == front;
    } else {
      var init, last := groups[..|groups| - 1], groups[|groups| - 1];
      assert Whole(last) && forall g :: g in init ==> g in groups;
      assert front + Flat(groups) == front + Flat(init) + Msgs(last);
      GroupsPaired(front, from, init);
      PairedAppend(front + Flat(init), from, last);
    }
  }

  /** A well-shaped list has no tool message without its assistant and no call without its result. */
  lemma {:induction false} WellShapedIsPaired(sh: Shape)
    requires WellShaped(sh)
    ensures Paired(Chat(sh), |sh.seed|)
  {
    GroupsPaired(sh.seed + Opt(sh.summary), |sh.seed|, sh.groups);
  }

  // ---------------------------------------------------------------- appending a group

  lemma {:induction false} FlatSnoc(groups: seq<Group>, g: Group)
    ensures Flat(groups + [g]) == Flat(groups) + Msgs(g)
  {
    assert (groups + [g])[..|groups|] == groups;
  }

  lemma {:induction false} OrderSnoc(sh: Shape, g: Group)
    requires sh.summary.Some? ==> sh.groups != []
    ensures var sh' := sh.(groups := sh.groups + [g]);
      Order(sh') == Order(sh) + Msgs(g) && Chat(sh') == Chat(sh) + Msgs(g)
  {
    FlatSnoc(sh.groups, g);
    if sh.summary.Some? {
      assert (sh.groups + [g])[..1] == sh.groups[..1];
      assert (sh.groups + [g])[1..] == sh.groups[1..] + [g];
      FlatSnoc(sh.groups[1..], g);
    }
  }

  // ---------------------------------------------------------------- compaction of a well-shaped list

  lemma {:induction false} DistinctParts(a: seq<Message>, b: seq<Message>)
    requires Distinct(a + b)
    ensures Distinct(a) && Distinct(b) && forall m :: m in a ==> m !in b
  {
    var c := a + b;
    assert forall i :: 0 <= i < |a| ==> c[i] == a[i];
    assert forall i :: 0 <= i < |b| ==> c[|a| + i] == b[i];
  }

  lemma {:induction false} KeptNone(cands: set<Message>, msgs: seq<Message>)
    requires forall m :: m in msgs ==> m in cands
    ensures Kept(cands, msgs) == []
  {
    if msgs != [] {
      assert msgs[0] in msgs;
      KeptNone(cands, msgs[1..]);
    }
  }

  /** Replacing a candidate block in the middle of a list. */
  lemma {:induction false} ReplaceBlock(cands: set<Message>, a: seq<Message>, b: seq<Message>, c: seq<Message>,
                                        summary: Message)
    requires b != [] && forall m :: m in a || m in c ==> m !in cands
    requires forall m :: m in b ==> m in cands
    ensures FirstCandidate(cands, a + b + c) == |a|
    ensures Replaced(cands, a + b + c, summary) == a + [summary] + c
  {
    var all := a + b + c;
    assert all[|a|] == b[0] && forall i :: 0 <= i < |a| ==> all[i] == a[i];
    assert all[..|a|] == a && all[|a|..] == b + c;
    KeptAppend(cands, b, c);
    KeptNone(cands, b);
    KeptAll(cands, c);
  }

  /** The newest group's head is where protection starts. */
  lemma {:induction false} ProtectsNewest(items: seq<Item>, front: seq<Message>, g: Group)
    requires Whole(g) && |items| >= 1 && MapsAll(items[1..], front + Msgs(g))
    ensures Protect(items) == 1 + |front|
  {
    var p, order := 1 + |front|, front + Msgs(g);
    assert items[1..][|front|] == items[p] && order[|front|] == g.head;
    forall j | p < j < |items| ensures items[j].kind != AssistantEntry {
      assert items[1..][j - 1] == items[j] && order[j - 1] == g.results[j - 1 - |front| - 1];
    }
  }

  /** The candidates are exactly the messages mapped before the newest group. */
  lemma {:induction false} CandidatesAreOlder(items: seq<Item>, older: seq<Message>, rest: seq<Message>)
    requires |items| >= 1 && MapsAll(items[1..], older + rest)
    ensures 1 + |older| <= |items|
    ensures forall m :: m in Candidates(items, 1 + |older|) <==> m in older
  {
    forall k | 0 <= k < |older| ensures items[1 + k].msg == Some(older[k]) {
      assert items[1..][k] == items[1 + k] && (older + rest)[k] == older[k];
    }
    forall m | m in older ensures m in Candidates(items, 1 + |older|) {
      var k :| 0 <= k < |older| && older[k] == m;
      assert items[1 + k].msg.value == m;
    }
    forall m | m in Candidates(items, 1 + |older|) ensures m in older {
      var j :| 1 <= j < 1 + |older| && items[j].msg.Some? && items[j].msg.value == m;
      assert items[1 + (j - 1)].msg == Some(older[j - 1]);
    }
  }

  /** What stood before the newest group, in mapping order and in list order, is the same. */
  lemma {:induction false} OlderMembers(sh: Shape, m: Message)
    requires sh.summary.Some? ==> sh.groups != []
    ensures m in Order(sh) <==> m in Opt(sh.summary) + Flat(sh.groups)
  {
    if sh.summary.Some? {
      FlatSplit(sh.groups, 1);
    }
  }

  lemma {:induction false} FlatSplit(groups: seq<Group>, k: nat)
    requires k <= |groups|
    ensures Flat(groups) == Flat(groups[..k]) + Flat(groups[k..])
  {
    if k == |groups| {
      assert groups[..k] == groups;
    } else {
      var n := |groups| - 1;
      FlatSplit(groups[..n], k);
      assert groups[..n][..k] == groups[..k] && groups[..n][k..] == groups[k..][..n - k];
    }
  }

  lemma {:induction false} OlderNonempty(sh: Shape)
    requires sh.groups != []
    ensures Opt(sh.summary) + Flat(sh.groups) != [] && Order(sh) != []
  {
    OlderMembers(sh, (Opt(sh.summary) + Flat(sh.groups))[|Opt(sh.summary) + Flat(sh.groups)| - 1]);
  }

  lemma {:induction false} ReplacesOlder(items: seq<Item>, sh: Shape, g: Group, summary: Message)
    requires sh.groups != [] && |items| >= 1 && MapsAll(items[1..], Order(sh) + Msgs(g))
    requires Distinct(Chat(sh) + Msgs(g))
    ensures 1 + |Order(sh)| <= |items|
    ensures FirstCandidate(Candidates(items, 1 + |Order(sh)|), Chat(sh) + Msgs(g)) == |sh.seed|
    ensures Replaced(Candidates(items, 1 + |Order(sh)|), Chat(sh) + Msgs(g), summary) == sh.seed + [summary] + Msgs(g)
  {
    var b := Opt(sh.summary) + Flat(sh.groups);
    assert Chat(sh) + Msgs(g) == sh.seed + b + Msgs(g);
    OlderNonempty(sh);
    CandidatesAreOlder(items, Order(sh), Msgs(g));
    var cands := Candidates(items, 1 + |Order(sh)|);
    forall m ensures m in cands <==> m in b {
      OlderMembers(sh, m);
    }
    DistinctParts(sh.seed + b, Msgs(g));
    DistinctParts(sh.seed, b);
    ReplaceBlock(cands, sh.seed, b, Msgs(g), summary);
  }

  /**
   Compaction of a well-shaped list with two groups or more: exactly the older groups and the
   older summary go, one summary takes their place, and the newest group stays whole.
   */
  lemma {:induction false} CompactionKeepsShape(items: seq<Item>, sh: Shape, g: Group, summary: Message)
    requires WellShaped(sh.(groups := sh.groups + [g])) && sh.groups != []
    requires Maps(items, sh.(groups := sh.groups + [g])) && summary.role == User
    ensures 1 < Protect(items) <= |items|
    ensures FirstCandidate(Candidates(items, Protect(items)), Chat(sh) + Msgs(g)) == |sh.seed|
    ensures Replaced(Candidates(items, Protect(items)), Chat(sh) + Msgs(g), summary) ==
      Chat(Shape(sh.seed, Some(summary), [g]))
    ensures Maps(Remapped(items, Protect(items), summary), Shape(sh.seed, Some(summary), [g]))
  {
    MapsNewest(items, sh, g);
    CompactedShape(sh.seed, summary, g);
    ReplacesOlder(items, sh, g, summary);
    RemappedMaps(items, Order(sh), sh.seed, g, summary);
  }

  /** The mapping of a list whose newest group is `g`. */
  lemma {:induction false} MapsNewest(items: seq<Item>, sh: Shape, g: Group)
    requires WellShaped(sh.(groups := sh.groups + [g])) && sh.groups != []
    requires Maps(items, sh.(groups := sh.groups + [g]))
    ensures MapsAll(items[1..], Order(sh) + Msgs(g)) && Distinct(Chat(sh) + Msgs(g))
    ensures Protect(items) == 1 + |Order(sh)| > 1
  {
    assert g in sh.groups + [g];
    OrderSnoc(sh, g);
    OlderNonempty(sh);
    ProtectsNewest(items, Order(sh), g);
  }

  lemma {:induction false} SingleGroup(g: Group)
    ensures Flat([g]) == Msgs(g)
  {
    assert [g][..0] == [];
    assert Flat([]) == [];
  }

  /** The list and the mapping order right after a compaction. */
  lemma {:induction false} CompactedShape(seed: seq<Message>, summary: Message, g: Group)
    ensures Chat(Shape(seed, Some(summary), [g])) == seed + [summary] + Msgs(g)
    ensures Order(Shape(seed, Some(summary), [g])) == Msgs(g) + [summary]
  {
    SingleGroup(g);
    assert [g][..1] == [g] && [g][1..] == [];
    assert Flat([]) == [];
  }

  lemma {:induction false} RemappedMaps(items: seq<Item>, older: seq<Message>, seed: seq<Message>, g: Group,
                                        summary: Message)
    requires |items| >= 1 && items[0].kind == UserEntry && items[0].msg.Some? && items[0].msg.value in seed
    requires MapsAll(items[1..], older + Msgs(g)) && summary.role == User
    ensures Maps(Remapped(items, 1 + |older|, summary), Shape(seed, Some(summary), [g]))
  {
    var items', order := Remapped(items, 1 + |older|, summary), Msgs(g) + [summary];
    CompactedShape(seed, summary, g);
    forall k | 0 <= k < |order| ensures MapsTo(items'[1..][k], order[k]) {
      if k < |Msgs(g)| {
        assert items'[1 + k] == items[1 + |older|..][k] == items[1..][|older| + k];
        assert (older + Msgs(g))[|older| + k] == Msgs(g)[k];
      }
    }
  }

  /** With one group, or none, there is nothing to compact. */
  lemma {:induction false} NothingToCompact(items: seq<Item>, sh: Shape)
    requires WellShaped(sh) && Maps(items, sh) && |sh.groups| <= 1
    ensures !CanCompact(items)
  {
    if |sh.groups| == 1 {
      var g := sh.groups[0];
      SingleGroup(g);
      assert sh.groups == [g] && Whole(g);
      assert [g][..1] == [g] && [g][1..] == [];
      var tail := Opt(sh.summary);
      assert Order(sh) == Msgs(g) + tail;
      forall j | 1 < j < |items| ensures items[j].kind != AssistantEntry {
        assert items[1..][j - 1] == items[j];
        assert j - 1 < |Msgs(g)| ==> Order(sh)[j - 1] == g.results[j - 2];
      }
      assert items[1..][0] == items[1] && Order(sh)[0] == g.head;
      assert Protect(items) == 1;
    }
  }

  lemma {:induction false} HeadWithoutResults(seed: seq<Message>, head: Message, summary: Message, tail: seq<Message>)
    requires head.role == Assistant && head.calls != [] && summary.role == User
    ensures !Paired(seed + [head] + [summary] + tail, |seed|)
  {
    var out, n := seed + [head] + [summary] + tail, |seed|;
    assert out[n] == head && out[n + 1] == summary;
    assert !Matches(out, n, n + 1);
  }

  /** The first group's head, and everything after it that is not the newest group. */
  lemma {:induction false} FirstHead(groups: seq<Group>) returns (rest: seq<Message>)
    requires groups != [] && Whole(groups[0])
    ensures Flat(groups) == [groups[0].head] + rest && rest != []
  {
    FlatSplit(groups, 1);
    SingleGroup(groups[0]);
    assert groups[..1] == [groups[0]];
    rest := groups[0].results + Flat(groups[1..]);
  }

  /**
   Why the seed must hold a user message. Without a mapped entry message the mapping starts with
   the first assistant, which is then never a candidate while its results are: with two groups or
   more, every compaction leaves an assistant whose calls have no results.
   */
  lemma {:induction false} CompactionNeedsEntry(items: seq<Item>, seed: seq<Message>, groups: seq<Group>, g: Group,
                                                summary: Message)
    requires groups != [] && Whole(groups[0]) && Whole(g) && summary.role == User
    requires Distinct(seed + Flat(groups) + Msgs(g)) && MapsAll(items, Flat(groups) + Msgs(g))
    ensures 1 < Protect(items) <= |items|
    ensures Replaced(Candidates(items, Protect(items)), seed + Flat(groups) + Msgs(g), summary)
         == seed + [groups[0].head] + [summary] + Msgs(g)
    ensures !Paired(Replaced(Candidates(items, Protect(items)), seed + Flat(groups) + Msgs(g), summary), |seed|)
  {
    var head := groups[0].head;
    var rest := FirstHead(groups);
    ProtectsNewestUnmapped(items, Flat(groups), g);
    CandidatesFromOne(items, head, rest, Msgs(g));
    assert seed + Flat(groups) + Msgs(g) == seed + [head] + rest + Msgs(g);
    DistinctParts(seed + [head] + rest, Msgs(g));
    DistinctParts(seed + [head], rest);
    ReplaceBlock(Candidates(items, 1 + |rest|), seed + [head], rest, Msgs(g), summary);
    HeadWithoutResults(seed, head, summary, Msgs(g));
  }

  lemma {:induction false} ProtectsNewestUnmapped(items: seq<Item>, front: seq<Message>, g: Group)
    requires Whole(g) && MapsAll(items, front + Msgs(g))
    ensures Protect(items) == |front|
  {
    var p, order := |front|, front + Msgs(g);
    assert order[p] == g.head;
    forall j | p < j < |items| ensures items[j].kind != AssistantEntry {
      assert order[j] == g.results[j - p - 1];
    }
  }

  lemma {:induction false} CandidatesFromOne(items: seq<Item>, head: Message, rest: seq<Message>, tail: seq<Message>)
    requires MapsAll(items, [head] + rest + tail)
    ensures 1 + |rest| <= |items|
    ensures forall m :: m in Candidates(items, 1 + |rest|) <==> m in rest
  {
    assert items[1..][..|rest|] == items[1..1 + |rest|];
    var order := [head] + rest + tail;
    forall k | 0 <= k < |rest| + |tail| ensures MapsTo(items[1..][k], (rest + tail)[k]) {
      assert items[1..][k] == items[1 + k] && order[1 + k] == (rest + tail)[k];
    }
    CandidatesAreOlder(items, rest, tail);
  }
}
