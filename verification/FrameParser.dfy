/**
 The RS framing of the LLM stream as an automaton over parse events.

 `Step` follows the demultiplexer: it remembers whether a text-mode RS was seen inside the
 payload being scanned (`Fresh`) or at the end of an earlier payload (`Held`), because the two
 treat a second RS differently. `RefStep` is the reference: one byte at a time, no payloads.
 */
module FrameParser {
  import opened Bytes

  /** What the framing needs from the protocol header. */
  datatype Framing = Framing(isTag: Byte -> bool, frameMax: nat) {
    /** RS opens and closes frames, and NUL is the "no frame" value of the tag field. */
    ghost predicate Valid() {
      !isTag(RS) && !isTag(0) && frameMax >= 2
    }
  }

  /** How the parser classified the bytes it consumed. */
  datatype Event =
    | Text(b: Byte)
    | Open(tag: Byte)
    | Close(tag: Byte, body: seq<Byte>, dropped: nat)

  datatype Mode =
    | InText
    | Fresh
    | Held
    | InFrame(tag: Byte, body: seq<Byte>, dropped: nat)

  datatype Parse = Parse(mode: Mode, log: seq<Event>)

  const START := Parse(InText, [])

  /** A byte inside a frame. */
  function FrameByte(f: Framing, tag: Byte, body: seq<Byte>, dropped: nat, b: Byte): Mode {
    if dropped == 0 && |body| + 1 < f.frameMax then InFrame(tag, body + [b], dropped)
    else InFrame(tag, body, dropped + 1)
  }

  /** One byte inside a payload. */
  function Step(f: Framing, p: Parse, b: Byte): (q: Parse)
    ensures p.log <= q.log
  {
    match p.mode
    case InFrame(tag, body, dropped) =>
      if b == RS then Parse(InText, p.log + [Close(tag, body, dropped)])
      else Parse(FrameByte(f, tag, body, dropped, b), p.log)
    case InText =>
      if b == RS then Parse(Fresh, p.log) else Parse(InText, p.log + [Text(b)])
    case Fresh =>
      if f.isTag(b) then Parse(InFrame(b, [], 0), p.log + [Open(b)])
      else Parse(InText, p.log + [Text(RS), Text(b)])
    case Held =>
      if f.isTag(b) then Parse(InFrame(b, [], 0), p.log + [Open(b)])
      else if b == RS then Parse(Fresh, p.log + [Text(RS)])
      else Parse(InText, p.log + [Text(RS), Text(b)])
  }

  function Run(f: Framing, p: Parse, data: seq<Byte>): (q: Parse)
    ensures p.log <= q.log
  {
    if data == [] then p else Step(f, Run(f, p, data[..|data| - 1]), data[|data| - 1])
  }

  /** The end of a payload holds a trailing RS over to the next one. */
  function EndPayload(p: Parse): Parse {
    if p.mode == Fresh then Parse(Held, p.log) else p
  }

  function Feed(f: Framing, p: Parse, data: seq<Byte>): (q: Parse)
    ensures p.log <= q.log
  {
    EndPayload(Run(f, p, data))
  }

  function FeedAll(f: Framing, p: Parse, payloads: seq<seq<Byte>>): (q: Parse)
    ensures p.log <= q.log
  {
    if payloads == [] then p
    else Feed(f, FeedAll(f, p, payloads[..|payloads| - 1]), payloads[|payloads| - 1])
  }

  /** End of stream: a cut-off frame is discarded, a held RS is text. */
  function Finish(p: Parse): (q: Parse)
    ensures p.log <= q.log
  {
    Parse(InText, if p.mode == Held then p.log + [Text(RS)] else p.log)
  }

  function TextEvents(bytes: seq<Byte>): seq<Event> {
    seq(|bytes|, i requires 0 <= i < |bytes| => Text(bytes[i]))
  }

  // ---------------------------------------------------------------- reference automaton

  datatype RefMode =
    | RefText
    | RefRs(doubled: bool)
    | RefFrame(tag: Byte, body: seq<Byte>, dropped: nat)

  /** `clean` is lost when a tag directly follows two or more text-mode RS. */
  datatype Ref = Ref(mode: RefMode, log: seq<Event>, clean: bool)

  const REF_START := Ref(RefText, [], true)

  function RefStep(f: Framing, r: Ref, b: Byte): (q: Ref)
    ensures r.log <= q.log
    ensures q.clean ==> r.clean
  {
    match r.mode
    case RefText =>
      if b == RS then r.(mode := RefRs(false)) else r.(log := r.log + [Text(b)])
    case RefRs(doubled) =>
      if b == RS then Ref(RefRs(true), r.log + [Text(RS)], r.clean)
      else if f.isTag(b) then Ref(RefFrame(b, [], 0), r.log + [Open(b)], r.clean && !doubled)
      else Ref(RefText, r.log + [Text(RS), Text(b)], r.clean)
    case RefFrame(tag, body, dropped) =>
      if b == RS then Ref(RefText, r.log + [Close(tag, body, dropped)], r.clean)
      else if dropped == 0 && |body| + 1 < f.frameMax then r.(mode := RefFrame(tag, body + [b], 0))
      else r.(mode := RefFrame(tag, body, dropped + 1))
  }

  function RefRun(f: Framing, s: seq<Byte>): Ref {
    if s == [] then REF_START else RefStep(f, RefRun(f, s[..|s| - 1]), s[|s| - 1])
  }

  /** The reference reading of a whole stream. */
  function RefLog(f: Framing, s: seq<Byte>): seq<Event> {
    var r := RefRun(f, s);
    if r.mode.RefRs? then r.log + [Text(RS)] else r.log
  }

  predicate Clean(f: Framing, s: seq<Byte>) {
    RefRun(f, s).clean
  }

  /** Every way of cutting the stream into payloads reads as the reference does. */
  ghost predicate CutIndependent(f: Framing, s: seq<Byte>) {
    forall cut :: Concat(cut) == s ==> Finish(FeedAll(f, START, cut)).log == RefLog(f, s)
  }

  // ---------------------------------------------------------------- clean streams

  predicate SameMode(m: Mode, r: RefMode) {
    match m
    case InText => r == RefText
    case Fresh => r.RefRs?
    case Held => r.RefRs?
    case InFrame(tag, body, dropped) => r == RefFrame(tag, body, dropped)
  }

  /**
   The simulation relation. The two agree, or the parser has already passed on the second RS of
   a pair that the reference still considers.
   */
  predicate Agree(p: Parse, r: Ref) {
    || (SameMode(p.mode, r.mode) && p.log == r.log)
    || (p.mode == InText && r.mode == RefRs(true) && p.log == r.log + [Text(RS)])
  }

  lemma {:induction false} StepAgrees(f: Framing, p: Parse, r: Ref, b: Byte)
    requires f.Valid() && Agree(p, r) && RefStep(f, r, b).clean
    ensures Agree(Step(f, p, b), RefStep(f, r, b))
  {
    assert [Text(RS), Text(b)] == [Text(RS)] + [Text(b)];
    assert r.log + ([Text(RS)] + [Text(b)]) == r.log + [Text(RS)] + [Text(b)];
  }

  lemma {:induction false} CleanPrefix(f: Framing, s: seq<Byte>, k: nat)
    requires k <= |s| && Clean(f, s)
    ensures Clean(f, s[..k])
  {
    if k < |s| {
      CleanPrefix(f, s[..|s| - 1], k);
      assert s[..|s| - 1][..k] == s[..k];
    } else {
      assert s[..k] == s;
    }
  }

  lemma {:induction false} RunAgrees(f: Framing, p: Parse, s: seq<Byte>, data: seq<Byte>)
    requires f.Valid() && Clean(f, s + data) && Agree(p, RefRun(f, s))
    ensures Agree(Run(f, p, data), RefRun(f, s + data))
    decreases |data|
  {
    if data == [] {
      assert s + data == s;
    } else {
      var n := |data| - 1;
      var all := s + data;
      assert all[..|all| - 1] == s + data[..n];
      CleanPrefix(f, all, |all| - 1);
      RunAgrees(f, p, s, data[..n]);
      StepAgrees(f, Run(f, p, data[..n]), RefRun(f, s + data[..n]), data[n]);
    }
  }

  lemma {:induction false} FeedAllAgrees(f: Framing, cut: seq<seq<Byte>>)
    requires f.Valid() && Clean(f, Concat(cut))
    ensures Agree(FeedAll(f, START, cut), RefRun(f, Concat(cut)))
    ensures FeedAll(f, START, cut).mode != Fresh
  {
    if cut != [] {
      var n := |cut| - 1;
      CleanPrefix(f, Concat(cut), |Concat(cut[..n])|);
      assert Concat(cut)[..|Concat(cut[..n])|] == Concat(cut[..n]);
      FeedAllAgrees(f, cut[..n]);
      RunAgrees(f, FeedAll(f, START, cut[..n]), Concat(cut[..n]), cut[n]);
    }
  }

  /** A clean stream reads the same however it is cut. */
  lemma {:induction false} CleanIsCutIndependent(f: Framing, s: seq<Byte>)
    requires f.Valid() && Clean(f, s)
    ensures CutIndependent(f, s)
  {
    forall cut | Concat(cut) == s
      ensures Finish(FeedAll(f, START, cut)).log == RefLog(f, s)
    {
      FeedAllAgrees(f, cut);
    }
  }

  // ---------------------------------------------------------------- streams that are not clean

  /** One payload per byte. */
  function Singletons(s: seq<Byte>): (r: seq<seq<Byte>>)
    ensures Concat(r) == s
  {
    if s == [] then [] else Singletons(s[..|s| - 1]) + [[s[|s| - 1]]]
  }

  predicate Same(p: Parse, r: Ref) {
    SameMode(p.mode, r.mode) && p.mode != Fresh && p.log == r.log
  }

  lemma {:induction false} OneByteIsReference(f: Framing, p: Parse, r: Ref, b: Byte)
    requires f.Valid() && Same(p, r)
    ensures Same(Feed(f, p, [b]), RefStep(f, r, b))
  {
    assert [b][..0] == [];
    assert Run(f, p, [b]) == Step(f, Run(f, p, []), b);
  }

  /** Fed byte by byte, the parser is the reference, clean or not. */
  lemma {:induction false} SingletonsAreReference(f: Framing, s: seq<Byte>)
    requires f.Valid()
    ensures Same(FeedAll(f, START, Singletons(s)), RefRun(f, s))
  {
    if s != [] {
      var n := |s| - 1;
      SingletonsAreReference(f, s[..n]);
      FeedAllSnoc(f, Singletons(s[..n]), [s[n]]);
      OneByteIsReference(f, FeedAll(f, START, Singletons(s[..n])), RefRun(f, s[..n]), s[n]);
    }
  }

  lemma {:induction false} FeedAllSnoc(f: Framing, cut: seq<seq<Byte>>, last: seq<Byte>)
    ensures FeedAll(f, START, cut + [last]) == Feed(f, FeedAll(f, START, cut), last)
    ensures Concat(cut + [last]) == Concat(cut) + last
  {
    assert (cut + [last])[..|cut|] == cut;
  }

  lemma {:induction false} RunAppend(f: Framing, p: Parse, a: seq<Byte>, b: seq<Byte>)
    ensures Run(f, p, a + b) == Run(f, Run(f, p, a), b)
    decreases |b|
  {
    if b == [] {
      assert a + b == a;
    } else {
      var n := |b| - 1;
      assert (a + b)[..|a + b| - 1] == a + b[..n];
      RunAppend(f, p, a, b[..n]);
    }
  }

  lemma {:induction false} RunHead(f: Framing, p: Parse, b: Byte, rest: seq<Byte>)
    ensures Run(f, p, [b] + rest) == Run(f, Step(f, p, b), rest)
  {
    RunAppend(f, p, [b], rest);
    assert [b][..0] == [];
    assert Run(f, p, [b]) == Step(f, Run(f, p, []), b);
  }

  /** RS-free bytes in text mode are text. */
  lemma {:induction false} RunText(f: Framing, p: Parse, bytes: seq<Byte>)
    requires p.mode == InText && RS !in bytes
    ensures Run(f, p, bytes) == Parse(InText, p.log + TextEvents(bytes))
    decreases |bytes|
  {
    if bytes != [] {
      var n := |bytes| - 1;
      RunText(f, p, bytes[..n]);
      assert p.log + TextEvents(bytes) == p.log + TextEvents(bytes[..n]) + [Text(bytes[n])];
    }
  }

  lemma {:induction false} RefLogGrows(f: Framing, s: seq<Byte>, k: nat)
    requires k <= |s|
    ensures RefRun(f, s[..k]).log <= RefRun(f, s).log
  {
    if k == |s| {
      assert s[..k] == s;
    } else {
      assert s[..|s| - 1][..k] == s[..k];
      RefLogGrows(f, s[..|s| - 1], k);
    }
  }

  /** The byte at which a stream stops being clean. */
  lemma {:induction false} UncleanAt(f: Framing, s: seq<Byte>) returns (k: nat)
    requires !Clean(f, s)
    ensures k < |s| && f.isTag(s[k]) && RefRun(f, s[..k]).mode == RefRs(true)
  {
    var n := |s| - 1;
    if Clean(f, s[..n]) {
      k := n;
    } else {
      k := UncleanAt(f, s[..n]);
      assert s[..n][..k] == s[..k];
    }
  }

  /** A doubled RS is two RS bytes, read from text or from an earlier pending RS. */
  lemma {:induction false} DoubledIsTwoRs(f: Framing, s: seq<Byte>)
    requires RefRun(f, s).mode == RefRs(true)
    ensures |s| >= 2 && s[|s| - 2] == s[|s| - 1] == RS
    ensures !RefRun(f, s[..|s| - 2]).mode.RefFrame?
  {
    var n := |s| - 1;
    assert RefRun(f, s[..n]).mode.RefRs?;
    assert s[..n][..n - 1] == s[..n - 1];
  }

  /** In one payload after `p`, a pair of RS before a tag makes the tag text; the reference opens a frame. */
  lemma {:induction false} PairDiverges(f: Framing, p: Parse, r: Ref, tag: Byte)
    requires f.Valid() && Same(p, r) && !r.mode.RefFrame? && f.isTag(tag)
    ensures var x := Run(f, p, [RS, RS, tag]).log;
            var y := RefStep(f, RefStep(f, RefStep(f, r, RS), RS), tag).log;
            exists i :: 0 <= i < |x| && i < |y| && x[i] != y[i]
  {
    var a := Step(f, p, RS);
    var b := Step(f, a, RS);
    var c := Step(f, b, tag);
    assert [RS, RS, tag][..2] == [RS, RS] && [RS, RS][..1] == [RS] && [RS][..0] == [];
    assert Run(f, p, [RS]) == Step(f, Run(f, p, []), RS) == a;
    assert Run(f, p, [RS, RS]) == b;
    assert Run(f, p, [RS, RS, tag]) == c;
    var y := RefStep(f, RefStep(f, RefStep(f, r, RS), RS), tag).log;
    var i := |y| - 1;
    assert y[i] == Open(tag) && c.log[i] == Text(RS);
  }

  lemma {:induction false} RefAfterPair(f: Framing, s: seq<Byte>, k: nat)
    requires 2 <= k < |s| && s[k - 2] == s[k - 1] == RS
    ensures RefStep(f, RefStep(f, RefStep(f, RefRun(f, s[..k - 2]), RS), RS), s[k]).log <= RefLog(f, s)
  {
    var a, b, c := s[..k - 1], s[..k], s[..k + 1];
    assert a[..k - 2] == s[..k - 2] && b[..k - 1] == a && c[..k] == b;
    assert RefRun(f, a) == RefStep(f, RefRun(f, s[..k - 2]), RS);
    assert RefRun(f, b) == RefStep(f, RefRun(f, a), RS);
    assert RefRun(f, c) == RefStep(f, RefRun(f, b), s[k]);
    RefLogGrows(f, s, k + 1);
  }

  /** The cut that hides the pair inside one payload: single bytes up to it, the rest in one piece. */
  lemma {:induction false} PairCut(f: Framing, s: seq<Byte>, k: nat) returns (cut: seq<seq<Byte>>)
    requires 2 <= k < |s| && s[k - 2] == s[k - 1] == RS
    ensures Concat(cut) == s
    ensures Run(f, FeedAll(f, START, Singletons(s[..k - 2])), [RS, RS, s[k]]).log
         <= Finish(FeedAll(f, START, cut)).log
  {
    var u, last := s[..k - 2], s[k - 2..];
    cut := Singletons(u) + [last];
    FeedAllSnoc(f, Singletons(u), last);
    assert u + last == s;
    var p := FeedAll(f, START, Singletons(u));
    assert last == [RS, RS, s[k]] + s[k + 1..];
    RunAppend(f, p, [RS, RS, s[k]], s[k + 1..]);
  }

  /** A stream that is not clean reads differently for some cut. */
  lemma {:induction false} UncleanIsCutDependent(f: Framing, s: seq<Byte>)
    requires f.Valid() && !Clean(f, s)
    ensures !CutIndependent(f, s)
  {
    var k := UncleanAt(f, s);
    DoubledIsTwoRs(f, s[..k]);
    assert s[..k][..k - 2] == s[..k - 2];
    SingletonsAreReference(f, s[..k - 2]);
    PairDiverges(f, FeedAll(f, START, Singletons(s[..k - 2])), RefRun(f, s[..k - 2]), s[k]);
    RefAfterPair(f, s, k);
    var cut := PairCut(f, s, k);
    assert Finish(FeedAll(f, START, cut)).log != RefLog(f, s);
  }

  /**
   Cut independence, exactly: a stream reads the same under every cutting if and only if no tag
   directly follows a run of two or more text-mode RS bytes.
   */
  lemma {:induction false} CutIndependentIffClean(f: Framing, s: seq<Byte>)
    requires f.Valid()
    ensures CutIndependent(f, s) <==> Clean(f, s)
  {
    if Clean(f, s) {
      CleanIsCutIndependent(f, s);
    } else {
      UncleanIsCutDependent(f, s);
    }
  }

  /** The smallest stream that is not: `RS RS tag` is three text bytes whole, one text byte and a frame cut. */
  lemma {:induction false} RsRsTagDependsOnTheCut(f: Framing, tag: Byte)
    requires f.Valid() && f.isTag(tag)
    ensures Finish(FeedAll(f, START, [[RS, RS, tag]])).log == [Text(RS), Text(RS), Text(tag)]
    ensures Finish(FeedAll(f, START, [[RS], [RS, tag]])).log == [Text(RS), Open(tag)]
  {
    var whole := [RS, RS, tag];
    assert whole[..2] == [RS, RS] && [RS, RS][..1] == [RS] && [RS][..0] == [] && [RS, tag][..1] == [RS];
    assert [[RS], [RS, tag]][..1] == [[RS]];
    assert FeedAll(f, START, [whole]) == Feed(f, START, whole);
    var a := Run(f, START, [RS]);
    assert a == Step(f, Run(f, START, []), RS) == Parse(Fresh, []);
    var b := Run(f, START, [RS, RS]);
    assert b == Step(f, a, RS) == Parse(InText, [Text(RS), Text(RS)]);
    assert Run(f, START, whole) == Step(f, b, tag);
    var h := FeedAll(f, START, [[RS]]);
    assert h == Feed(f, START, [RS]) == Parse(Held, []);
    var c := Run(f, h, [RS]);
    assert c == Step(f, Run(f, h, []), RS) == Parse(Fresh, [Text(RS)]);
    assert Run(f, h, [RS, tag]) == Step(f, c, tag);
  }
}
