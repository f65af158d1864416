/**
 The context ledger of an agent run: a side mapping from ledger entries to messages, and the
 compaction that replaces old messages by one summary. Messages are identified by `uid`, which
 stands for the address of the message node.
 */
module ContextLedger {
  import opened Common

  datatype Role = System | User | Assistant | Tool

  /** `calls` are the ids of an assistant's tool calls, `callId` the call a tool message answers. */
  datatype Message = Message(uid: nat, role: Role, calls: seq<string>, callId: string, content: Option<string>)

  datatype Kind = UserEntry | AssistantEntry | ToolEntry

  /** One mapped ledger entry; an empty id marks a summary placeholder. */
  datatype Item = Item(entryId: string, kind: Kind, msg: Option<Message>)

  const PREFIX := "[compressed context]\n"

  function Summary(uid: nat, context: string): Message {
    Message(uid, User, [], "", Some(PREFIX + context))
  }

  // ---------------------------------------------------------------- reading the mapping

  /** Index of the last assistant entry, or the length when there is none. */
  function Protect(items: seq<Item>): (p: nat)
    ensures p <= |items|
    ensures p < |items| ==> items[p].kind == AssistantEntry && forall j :: p < j < |items| ==>
      items[j].kind != AssistantEntry
    ensures p == |items| ==> forall j :: 0 <= j < |items| ==> items[j].kind != AssistantEntry
  {
    if items == [] then 0
    else
      var n := |items| - 1;
      if items[n].kind == AssistantEntry then n
      else
        var p := Protect(items[..n]);
        assert forall j :: 0 <= j < n ==> items[..n][j] == items[j];
        if p == n then n + 1 else p
  }

  /** The messages mapped between the entry message and the protected tail. */
  ghost function Candidates(items: seq<Item>, protect: nat): set<Message>
    requires protect <= |items|
  {
    set j | 1 <= j < protect && items[j].msg.Some? :: items[j].msg.value
  }

  /** An entry that can be submitted for compression. */
  predicate Submittable(item: Item) {
    item.entryId != "" && item.msg.Some? && item.msg.value.content.Some?
  }

  predicate CanCompact(items: seq<Item>) {
    Protect(items) > 1 && exists j :: 1 <= j < Protect(items) && Submittable(items[j])
  }

  // ---------------------------------------------------------------- replacing messages

  /** The messages that are not candidates, in order. */
  ghost function Kept(cands: set<Message>, msgs: seq<Message>): seq<Message> {
    if msgs == [] then []
    else (if msgs[0] in cands then [] else [msgs[0]]) + Kept(cands, msgs[1..])
  }

  ghost function FirstCandidate(cands: set<Message>, msgs: seq<Message>): (k: nat)
    ensures k <= |msgs|
    ensures k < |msgs| ==> msgs[k] in cands
    ensures forall i :: 0 <= i < k ==> msgs[i] !in cands
  {
    if msgs == [] || msgs[0] in cands then 0 else 1 + FirstCandidate(cands, msgs[1..])
  }

  /** All candidates out, one summary in where the first of them stood. */
  ghost function Replaced(cands: set<Message>, msgs: seq<Message>, summary: Message): seq<Message> {
    var k := FirstCandidate(cands, msgs);
    if k == |msgs| then msgs else msgs[..k] + [summary] + Kept(cands, msgs[k..])
  }

  lemma {:induction false} KeptAppend(cands: set<Message>, a: seq<Message>, b: seq<Message>)
    ensures Kept(cands, a + b) == Kept(cands, a) + Kept(cands, b)
    decreases |a|
  {
    if a == [] {
      assert a + b == b;
    } else {
      KeptAppend(cands, a[1..], b);
      var head := if a[0] in cands then [] else [a[0]];
      assert (a + b)[0] == a[0] && (a + b)[1..] == a[1..] + b;
      assert Kept(cands, a + b) == head + Kept(cands, a[1..] + b);
      assert head + (Kept(cands, a[1..]) + Kept(cands, b)) == head + Kept(cands, a[1..]) + Kept(cands, b);
    }
  }

  lemma {:induction false} KeptMembers(cands: set<Message>, msgs: seq<Message>, m: Message)
    ensures m in Kept(cands, msgs) <==> m in msgs && m !in cands
  {
    if msgs != [] {
      KeptMembers(cands, msgs[1..], m);
      assert msgs == [msgs[0]] + msgs[1..];
    }
  }

  lemma {:induction false} KeptAll(cands: set<Message>, msgs: seq<Message>)
    requires forall m :: m in msgs ==> m !in cands
    ensures Kept(cands, msgs) == msgs
  {
    if msgs != [] {
      assert msgs[0] in msgs;
      KeptAll(cands, msgs[1..]);
    }
  }

  /** In-place deletion and insertion: filter out the candidates, then insert at the first one's place. */
  lemma {:induction false} ReplacedIsFilterAndInsert(cands: set<Message>, msgs: seq<Message>, summary: Message)
    requires FirstCandidate(cands, msgs) < |msgs|
    ensures var k, kept := FirstCandidate(cands, msgs), Kept(cands, msgs);
      && k <= |kept|
      && kept[..k] == msgs[..k] && kept[k..] == Kept(cands, msgs[k..])
      && Replaced(cands, msgs, summary) == kept[..k] + [summary] + kept[k..]
  {
    var k := FirstCandidate(cands, msgs);
    assert msgs == msgs[..k] + msgs[k..];
    KeptAppend(cands, msgs[..k], msgs[k..]);
    KeptAll(cands, msgs[..k]);
  }

  /** The rebuilt mapping: the entry message, the protected tail, the summary placeholder. */
  function Remapped(items: seq<Item>, protect: nat, summary: Message): seq<Item>
    requires 1 <= protect <= |items|
  {
    [items[0]] + items[protect..] + [Item("", UserEntry, Some(summary))]
  }

  predicate Fits(enabled: bool, items: seq<Item>, warn: bool, context: Option<string>) {
    enabled && warn && CanCompact(items) && context.Some? && context.value != ""
  }

  /** Entry `j` has an assistant entry behind it, or there is none at all. */
  predicate Older(items: seq<Item>, j: int) {
    || (exists k :: 0 <= k < |items| && j < k && items[k].kind == AssistantEntry)
    || (forall k :: 0 <= k < |items| ==> items[k].kind != AssistantEntry)
  }

  lemma {:induction false} OlderIsUnprotected(items: seq<Item>, j: nat)
    requires j < |items|
    ensures Older(items, j) <==> j < Protect(items)
  {
    var p := Protect(items);
    if j < p < |items| {
      assert items[p].kind == AssistantEntry;
    }
  }

  /**
   When a budget check compacts, read off the mapping: the service warns and has a context to offer, and
   some older entry after the first has an id and a text.
   */
  lemma {:induction false} CompactsIff(enabled: bool, items: seq<Item>, warn: bool, context: Option<string>)
    ensures Fits(enabled, items, warn, context) <==>
      && enabled && warn && context.Some? && context.value != ""
      && exists j :: 1 <= j < |items| && items[j].entryId != "" && Older(items, j)
           && items[j].msg.Some? && items[j].msg.value.content.Some?
  {
    forall j | 1 <= j < |items| ensures Older(items, j) <==> j < Protect(items) {
      OlderIsUnprotected(items, j);
    }
    if CanCompact(items) {
      var j :| 1 <= j < Protect(items) && Submittable(items[j]);
      assert Older(items, j);
    }
  }

  /** List and mapping after the budget check. */
  ghost function Fitted(enabled: bool, items: seq<Item>, msgs: seq<Message>, warn: bool, context: Option<string>,
                        uid: nat)
    : (seq<Message>, seq<Item>)
  {
    if !Fits(enabled, items, warn, context) then (msgs, items)
    else
      var p, s := Protect(items), Summary(uid, context.value);
      var cands := Candidates(items, p);
      (Replaced(cands, msgs, s), if FirstCandidate(cands, msgs) == |msgs| then items else Remapped(items, p, s))
  }

  // ---------------------------------------------------------------- what a compaction keeps

  predicate Distinct(msgs: seq<Message>) {
    forall i, j :: 0 <= i < j < |msgs| ==> msgs[i].uid != msgs[j].uid
  }

  /** No two entries map the same message, and every mapped message is in the list. */
  ghost predicate Sound(items: seq<Item>, msgs: seq<Message>) {
    && (forall i, j :: 0 <= i < j < |items| && items[i].msg.Some? ==> items[i].msg != items[j].msg)
    && (forall i :: 0 <= i < |items| && items[i].msg.Some? ==> items[i].msg.value in msgs)
  }

  lemma {:induction false} ReplacedMembers(cands: set<Message>, msgs: seq<Message>, summary: Message, m: Message)
    requires FirstCandidate(cands, msgs) < |msgs|
    ensures m in Replaced(cands, msgs, summary) <==> m == summary || (m in msgs && m !in cands)
  {
    var k := FirstCandidate(cands, msgs);
    assert msgs == msgs[..k] + msgs[k..];
    KeptMembers(cands, msgs[k..], m);
  }

  lemma {:induction false} RemappedAt(items: seq<Item>, protect: nat, summary: Message, i: nat)
    requires 1 <= protect <= |items| && i < |Remapped(items, protect, summary)|
    ensures Remapped(items, protect, summary)[i] ==
      if i == 0 then items[0]
      else if i <= |items| - protect then items[protect + i - 1]
      else Item("", UserEntry, Some(summary))
  {
  }

  /**
   Compaction on any sound mapping: the list loses exactly the candidates and gains the summary,
   the rebuilt mapping is sound again, and the entry message survives with its mapping.
   */
  lemma {:induction false} CompactionKeepsMapping(items: seq<Item>, protect: nat, msgs: seq<Message>, summary: Message)
    requires 1 <= protect <= |items| && Sound(items, msgs) && items[0].msg.Some?
    requires summary !in msgs && FirstCandidate(Candidates(items, protect), msgs) < |msgs|
    ensures forall m :: m in Replaced(Candidates(items, protect), msgs, summary)
                   <==> m == summary || (m in msgs && m !in Candidates(items, protect))
    ensures Sound(Remapped(items, protect, summary), Replaced(Candidates(items, protect), msgs, summary))
    ensures Remapped(items, protect, summary)[0] == items[0]
    ensures items[0].msg.value in Replaced(Candidates(items, protect), msgs, summary)
  {
    var cands := Candidates(items, protect);
    var out, items' := Replaced(cands, msgs, summary), Remapped(items, protect, summary);
    forall m ensures m in out <==> m == summary || (m in msgs && m !in cands) {
      ReplacedMembers(cands, msgs, summary, m);
    }
    assert forall i :: 0 <= i < |items| && (i == 0 || i >= protect) && items[i].msg.Some? ==>
      items[i].msg.value !in cands;
    forall i | 0 <= i < |items'| && items'[i].msg.Some? ensures items'[i].msg.value in out {
      RemappedAt(items, protect, summary, i);
    }
    forall i, j | 0 <= i < j < |items'| && items'[i].msg.Some? ensures items'[i].msg != items'[j].msg {
      RemappedAt(items, protect, summary, i);
      RemappedAt(items, protect, summary, j);
    }
  }

  // ---------------------------------------------------------------- the ledger as code

  class Ledger {
    var enabled: bool
    var items: seq<Item>

    constructor (enabled: bool)
      ensures this.enabled == enabled && items == []
    {
      this.enabled, items := enabled, [];
    }

    /** Records a message; the entry id is what the append call returned, None if it failed. */
    method Add(entryId: Option<string>, kind: Kind, m: Message)
      modifies this`items
      ensures items == if enabled && entryId.Some? then old(items) + [Item(entryId.value, kind, Some(m))]
        else old(items)
    {
      if !enabled || entryId.None? {
        return;
      }
      items := items + [Item(entryId.value, kind, Some(m))];
    }

    method ProtectStart() returns (p: nat)
      ensures p == Protect(items)
    {
      var i := |items|;
      while i > 0
        invariant 0 <= i <= |items| && forall j :: i <= j < |items| ==> items[j].kind != AssistantEntry
      {
        if items[i - 1].kind == AssistantEntry {
          return i - 1;
        }
        i := i - 1;
      }
      return |items|;
    }

    method HasEntries(protect: nat) returns (found: bool)
      requires protect <= |items|
      ensures found <==> exists j :: 1 <= j < protect && Submittable(items[j])
    {
      var i := 1;
      while i < protect
        invariant 1 <= i && forall j :: 1 <= j < i && j < protect ==> !Submittable(items[j])
      {
        if Submittable(items[i]) {
          return true;
        }
        i := i + 1;
      }
      return false;
    }

    method IsCandidate(protect: nat, m: Message) returns (yes: bool)
      requires protect <= |items|
      ensures yes == (m in Candidates(items, protect))
    {
      var j := 1;
      while j < protect
        invariant 1 <= j && forall k :: 1 <= k < j && k < protect ==> items[k].msg != Some(m)
      {
        if items[j].msg == Some(m) {
          return true;
        }
        j := j + 1;
      }
      return false;
    }

    method FindFirst(protect: nat, messages: seq<Message>) returns (k: nat)
      requires protect <= |items|
      ensures k == FirstCandidate(Candidates(items, protect), messages)
    {
      k := 0;
      ghost var cands := Candidates(items, protect);
      while k < |messages|
        invariant k <= |messages| && FirstCandidate(cands, messages) == k + FirstCandidate(cands, messages[k..])
      {
        var yes := IsCandidate(protect, messages[k]);
        if yes {
          return;
        }
        assert messages[k..][1..] == messages[k + 1..];
        k := k + 1;
      }
    }

    /** Deletes the candidates from the back, one node at a time. */
    method DeleteCandidates(protect: nat, messages: seq<Message>) returns (out: seq<Message>)
      requires protect <= |items|
      ensures out == Kept(Candidates(items, protect), messages)
    {
      out := messages;
      var i := |messages|;
      ghost var cands := Candidates(items, protect);
      while i > 0
        invariant 0 <= i <= |messages| && out == messages[..i] + Kept(cands, messages[i..])
      {
        i := i - 1;
        assert messages[i..][1..] == messages[i + 1..] && messages[..i + 1] == messages[..i] + [messages[i]];
        var yes := IsCandidate(protect, out[i]);
        if yes {
          out := out[..i] + out[i + 1..];
        }
      }
      assert messages[0..] == messages;
    }

    /** Local replacement and rebuilt mapping. */
    method Apply(messages: seq<Message>, protect: nat, summary: Message) returns (out: seq<Message>)
      requires 1 <= protect <= |items|
      modifies this`items
      ensures out == Replaced(Candidates(old(items), protect), messages, summary)
      ensures items == if FirstCandidate(Candidates(old(items), protect), messages) == |messages| then old(items)
                       else Remapped(old(items), protect, summary)
    {
      var k := FindFirst(protect, messages);
      if k == |messages| {
        return messages;
      }
      ReplacedIsFilterAndInsert(Candidates(items, protect), messages, summary);
      out := DeleteCandidates(protect, messages);
      out := out[..k] + [summary] + out[k..];
      var rebuilt := [items[0]];
      var j := protect;
      while j < |items|
        invariant protect <= j <= |items| && rebuilt == [items[0]] + items[protect..j]
      {
        rebuilt := rebuilt + [items[j]];
        j := j + 1;
      }
      assert items[protect..|items|] == items[protect..];
      items := rebuilt + [Item("", UserEntry, Some(summary))];
    }

    /**
     Budget check before an LLM round. `warn` and `context` are the answers of the memory
     service: no warning and no context when it cannot be reached.
     */
    method Fit(messages: seq<Message>, warn: bool, context: Option<string>, uid: nat) returns (out: seq<Message>)
      modifies this`items
      ensures (out, items) == Fitted(enabled, old(items), messages, warn, context, uid)
    {
      out := messages;
      if !enabled || !warn {
        return;
      }
      var protect := ProtectStart();
      if protect <= 1 {
        return;
      }
      var found := HasEntries(protect);
      if found && context.Some? && context.value != "" {
        out := Apply(messages, protect, Summary(uid, context.value));
      }
    }
  }
}
