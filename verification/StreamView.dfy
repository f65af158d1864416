/**
 The demultiplexer's state as a value, the effect of each of its steps on that value, and what
 every step keeps: nothing lost or repeated between text and deltas, and deltas cut on UTF-8
 character boundaries.
 */
module StreamView {
  import opened Bytes
  import opened Common
  import opened FrameParser
  import opened StreamCodec
  import Utf8

  /**
   `out` is what has been gathered; `sent` counts the text bytes already pushed; `deltas` are
   the pushes so far and `mark` how many of them precede the last error frame.
   */
  datatype View = View(out: Outcome, mode: Mode, log: seq<Event>, sent: nat, deltas: seq<seq<Byte>>, mark: nat)

  const INITIAL := View(EMPTY, InText, [], 0, [], 0)

  /** The deltas from `mark` on are the first `sent` bytes of the text; at most 4 bytes wait. */
  ghost predicate Conserved(v: View) {
    && v.mark <= |v.deltas|
    && v.sent <= |v.out.text| <= v.sent + 4
    && Concat(v.deltas[v.mark..]) == v.out.text[..v.sent]
  }

  ghost predicate ErrorFree(pr: Protocol, log: seq<Event>) {
    forall fr :: fr in Frames(log) ==> fr.0 != pr.errorTag
  }

  ghost predicate Good(pr: Protocol, v: View) {
    && v.out == OutcomeOf(pr, v.log)
    && Conserved(v)
    && (ErrorFree(pr, v.log) ==> v.mark == 0)
    && (v.mode.InFrame? ==> pr.framing.isTag(v.mode.tag))
  }

  /**
   While the text is the start of well-formed UTF-8, exactly its incomplete last character
   waits, and every delta is well-formed text of its own.
   */
  ghost predicate Aligned(v: View) {
    Utf8.IsPrefix(v.out.text) ==>
      && v.sent <= |v.out.text|
      && Utf8.HoldsBack(v.out.text, |v.out.text| - v.sent)
      && forall i :: v.mark <= i < |v.deltas| ==> Utf8.WellFormed(v.deltas[i])
  }

  // ---------------------------------------------------------------- steps

  function Boundary(text: seq<Byte>): nat {
    |text| - Utf8.Tail(text)
  }

  /** Push the text up to its last character boundary, if that is further than before. */
  function PushAligned(v: View): View {
    var safe := Boundary(v.out.text);
    if safe <= v.sent then v else v.(sent := safe, deltas := v.deltas + [v.out.text[v.sent..safe]])
  }

  function Append(v: View, bytes: seq<Byte>): View {
    v.(out := v.out.(text := v.out.text + bytes), log := v.log + TextEvents(bytes))
  }

  function Emit(v: View, bytes: seq<Byte>): View {
    if bytes == [] then v else PushAligned(Append(v, bytes))
  }

  predicate Delivers(m: Mode) {
    m.InFrame? && m.dropped == 0 && m.body != []
  }

  /** A complete frame takes effect; an error frame restarts the text and so the deltas. */
  function Deliver(pr: Protocol, v: View, tag: Byte, body: seq<Byte>): View {
    var w := v.(out := Dispatch(pr, v.out, tag, body));
    if tag == pr.errorTag then w.(sent := 0, mark := |v.deltas|) else w
  }

  function TakeBody(pr: Protocol, v: View): View
    requires v.mode.InFrame?
  {
    if Delivers(v.mode) then Deliver(pr, v, v.mode.tag, v.mode.body) else v
  }

  /** Back to text; the frame goes on record. */
  function EndFrame(v: View, m: Mode): View
    requires m.InFrame?
  {
    v.(mode := InText, log := v.log + [Close(m.tag, m.body, m.dropped)])
  }

  function CloseFrame(pr: Protocol, v: View): View
    requires v.mode.InFrame?
  {
    EndFrame(TakeBody(pr, v), v.mode)
  }

  /** End of stream: the bytes held back are pushed as they are. */
  function Flush(v: View): View {
    if |v.out.text| > v.sent then
      v.(sent := |v.out.text|, deltas := v.deltas + [v.out.text[v.sent..]])
    else v
  }

  // ---------------------------------------------------------------- what the steps keep

  lemma {:induction false} ConcatSnoc(parts: seq<seq<Byte>>, last: seq<Byte>)
    ensures Concat(parts + [last]) == Concat(parts) + last
  {
    assert (parts + [last])[..|parts|] == parts;
  }

  /** Pushing the next stretch of text keeps deltas and text in step. */
  lemma {:induction false} PushConserves(v: View, upto: nat)
    requires v.mark <= |v.deltas| && v.sent <= upto <= |v.out.text|
    requires Concat(v.deltas[v.mark..]) == v.out.text[..v.sent]
    ensures Concat((v.deltas + [v.out.text[v.sent..upto]])[v.mark..]) == v.out.text[..upto]
  {
    var delta := v.out.text[v.sent..upto];
    ConcatSnoc(v.deltas[v.mark..], delta);
    assert (v.deltas + [delta])[v.mark..] == v.deltas[v.mark..] + [delta];
    assert v.out.text[..upto] == v.out.text[..v.sent] + delta;
  }

  lemma {:induction false} EmitConserves(v: View, bytes: seq<Byte>)
    requires Conserved(v)
    ensures Conserved(Emit(v, bytes))
  {
    if bytes != [] {
      var a := Append(v, bytes);
      assert a.out.text[..a.sent] == v.out.text[..v.sent];
      if Boundary(a.out.text) > a.sent {
        PushConserves(a, Boundary(a.out.text));
      }
    }
  }

  lemma {:induction false} EmitKeepsGood(pr: Protocol, v: View, bytes: seq<Byte>)
    requires Good(pr, v)
    ensures Good(pr, Emit(v, bytes))
    ensures Emit(v, bytes).log == v.log + TextEvents(bytes)
  {
    EmitConserves(v, bytes);
    OutcomeOfText(pr, v.log, bytes);
    if bytes == [] {
      assert v.log + TextEvents(bytes) == v.log;
    }
  }

  lemma {:induction false} BoundaryHoldsBack(text: seq<Byte>)
    requires Utf8.IsPrefix(text)
    ensures Utf8.HoldsBack(text, Utf8.Tail(text))
  {
    var t :| Utf8.WellFormed(text + t);
    Utf8.TailIsPartialChar(text, t);
  }

  /** The boundary of grown text lies at or after an earlier one, with whole characters between. */
  lemma {:induction false} BoundaryAdvances(text: seq<Byte>, sent: nat)
    requires sent <= |text| && Utf8.WellFormed(text[..sent]) && Utf8.IsPrefix(text)
    ensures sent <= Boundary(text)
    ensures Utf8.HoldsBack(text, |text| - Boundary(text))
    ensures Utf8.WellFormed(text[sent..Boundary(text)])
  {
    BoundaryHoldsBack(text);
    Utf8.HoldsBackUnique(text, sent, Utf8.Tail(text));
  }

  lemma {:induction false} PushKeepsAligned(v: View)
    requires Utf8.IsPrefix(v.out.text) && v.sent <= |v.out.text| && Utf8.WellFormed(v.out.text[..v.sent])
    requires forall i :: v.mark <= i < |v.deltas| ==> Utf8.WellFormed(v.deltas[i])
    ensures Aligned(PushAligned(v))
  {
    BoundaryAdvances(v.out.text, v.sent);
    var w := PushAligned(v);
    assert w.sent == Boundary(v.out.text);
    forall i | w.mark <= i < |w.deltas| ensures Utf8.WellFormed(w.deltas[i]) {
      assert i < |v.deltas| ==> w.deltas[i] == v.deltas[i];
    }
  }

  lemma {:induction false} EmitKeepsAligned(v: View, bytes: seq<Byte>)
    requires Aligned(v)
    ensures Aligned(Emit(v, bytes))
  {
    var text := v.out.text;
    if bytes != [] && Utf8.IsPrefix(text + bytes) {
      Utf8.PrefixOfPrefix(text, bytes);
      assert (text + bytes)[..v.sent] == text[..|text| - (|text| - v.sent)];
      PushKeepsAligned(Append(v, bytes));
    }
  }

  lemma {:induction false} CloseKeepsGood(pr: Protocol, v: View)
    requires pr.Valid() && Good(pr, v) && v.mode.InFrame?
    ensures Good(pr, CloseFrame(pr, v))
  {
    var e := Close(v.mode.tag, v.mode.body, v.mode.dropped);
    LogSnoc(pr, v.log, e);
    var w := CloseFrame(pr, v);
    var restart := Delivers(v.mode) && v.mode.tag == pr.errorTag;
    if restart {
      assert w.deltas[w.mark..] == [];
      assert (v.mode.tag, v.mode.body) in Frames(w.log);
    } else {
      assert w.out.text == v.out.text;
      assert ErrorFree(pr, w.log) ==> ErrorFree(pr, v.log) by {
        assert forall fr :: fr in Frames(v.log) ==> fr in Frames(w.log);
      }
    }
  }

  lemma {:induction false} CloseKeepsAligned(pr: Protocol, v: View)
    requires pr.Valid() && Good(pr, v) && Aligned(v) && v.mode.InFrame?
    ensures Aligned(CloseFrame(pr, v))
  {
    var w := CloseFrame(pr, v);
    assert w.out.text == v.out.text || (w.out.text == [] && w.sent == 0 && w.mark == |w.deltas|);
  }

  /** After the final flush, the deltas since the last error frame are the whole text. */
  lemma {:induction false} FlushDelivers(v: View)
    requires Conserved(v)
    ensures var w := Flush(v);
      Conserved(w) && w.sent == |w.out.text| && Concat(w.deltas[w.mark..]) == w.out.text
  {
    if |v.out.text| > v.sent {
      PushConserves(v, |v.out.text|);
      assert v.out.text[v.sent..] == v.out.text[v.sent..|v.out.text|];
    }
    assert v.out.text[..|v.out.text|] == v.out.text;
  }

  // ---------------------------------------------------------------- one payload, as the code scans it

  function ParseOf(v: View): Parse {
    Parse(v.mode, v.log)
  }

  function OpenFrame(v: View, tag: Byte): View {
    v.(mode := InFrame(tag, [], 0), log := v.log + [Open(tag)])
  }

  function DrainByte(pr: Protocol, v: View, b: Byte): View
    requires v.mode.InFrame?
  {
    if b == RS then CloseFrame(pr, v)
    else v.(mode := FrameByte(pr.framing, v.mode.tag, v.mode.body, v.mode.dropped, b))
  }

  /** Index of the first RS, or the length when there is none. */
  function FirstRs(data: seq<Byte>): (k: nat)
    ensures k <= |data| && RS !in data[..k]
    ensures k < |data| ==> data[k] == RS
  {
    if data == [] || data[0] == RS then 0
    else
      var k := 1 + FirstRs(data[1..]);
      assert data[..k] == [data[0]] + data[1..][..k - 1];
      k
  }

  /** Frame bytes up to the closing RS, then text again. */
  function InsideFrame(pr: Protocol, v: View, data: seq<Byte>): View
    requires v.mode.InFrame?
    decreases |data|, 0
  {
    if data == [] then v
    else
      var w := DrainByte(pr, v, data[0]);
      if w.mode.InFrame? then InsideFrame(pr, w, data[1..]) else Scan(pr, w, data[1..])
  }

  /** A text-mode RS: held at the end of the payload, the start of a frame, or text with the byte after it. */
  function AtRs(pr: Protocol, v: View, data: seq<Byte>): View
    requires data != []
    decreases |data|, 1
  {
    if |data| == 1 then v.(mode := Held)
    else if pr.framing.isTag(data[1]) then InsideFrame(pr, OpenFrame(v, data[1]), data[2..])
    else Scan(pr, Emit(v, data[..2]), data[2..])
  }

  /** Text up to the next RS. */
  function Scan(pr: Protocol, v: View, data: seq<Byte>): View
    decreases |data|, 2
  {
    var k := FirstRs(data);
    var w := Emit(v, data[..k]);
    if k == |data| then w else AtRs(pr, w, data[k..])
  }

  lemma {:induction false} ScanWithoutRs(pr: Protocol, v: View, data: seq<Byte>)
    requires RS !in data
    ensures Scan(pr, v, data) == Emit(v, data)
  {
    assert FirstRs(data) == |data| && data[..|data|] == data;
  }

  /** A whole payload. */
  function FeedView(pr: Protocol, v: View, data: seq<Byte>): View {
    if data == [] then v
    else
      match v.mode
      case InFrame(_, _, _) => InsideFrame(pr, v, data)
      case Held =>
        if pr.framing.isTag(data[0]) then InsideFrame(pr, OpenFrame(v, data[0]), data[1..])
        else Scan(pr, Emit(v.(mode := InText), [RS]), data)
      case _ => Scan(pr, v, data)
  }

  function FeedAllView(pr: Protocol, payloads: seq<seq<Byte>>): View {
    if payloads == [] then INITIAL
    else FeedView(pr, FeedAllView(pr, payloads[..|payloads| - 1]), payloads[|payloads| - 1])
  }

  function FinishView(v: View): View {
    Flush(if v.mode == Held then Emit(v.(mode := InText), [RS]) else v.(mode := InText))
  }

  // ---------------------------------------------------------------- the scan reads as the automaton does

  lemma {:induction false} InsideFrameParses(pr: Protocol, v: View, data: seq<Byte>)
    requires v.mode.InFrame?
    ensures ParseOf(InsideFrame(pr, v, data)) == EndPayload(Run(pr.framing, ParseOf(v), data))
    decreases |data|, 0
  {
    if data != [] {
      var w := DrainByte(pr, v, data[0]);
      assert data == [data[0]] + data[1..];
      RunHead(pr.framing, ParseOf(v), data[0], data[1..]);
      if w.mode.InFrame? {
        InsideFrameParses(pr, w, data[1..]);
      } else {
        ScanParses(pr, w, data[1..]);
      }
    }
  }

  lemma {:induction false} EmitParses(f: Framing, v: View, bytes: seq<Byte>, rest: seq<Byte>)
    requires v.mode == InText && RS !in bytes
    ensures Emit(v, bytes).mode == InText
    ensures Run(f, ParseOf(v), bytes + rest) == Run(f, ParseOf(Emit(v, bytes)), rest)
  {
    RunAppend(f, ParseOf(v), bytes, rest);
    RunText(f, ParseOf(v), bytes);
    if bytes == [] {
      assert v.log + TextEvents(bytes) == v.log;
    }
  }

  /** RS and the byte after it. */
  lemma {:induction false} PairParses(f: Framing, v: View, b: Byte, rest: seq<Byte>)
    requires v.mode == InText
    ensures Run(f, ParseOf(v), [RS, b] + rest)
         == Run(f, ParseOf(if f.isTag(b) then OpenFrame(v, b) else Emit(v, [RS, b])), rest)
  {
    assert [RS, b] + rest == [RS] + ([b] + rest);
    RunHead(f, ParseOf(v), RS, [b] + rest);
    RunHead(f, Step(f, ParseOf(v), RS), b, rest);
    assert TextEvents([RS, b]) == [Text(RS), Text(b)];
  }

  lemma {:induction false} AtRsParses(pr: Protocol, v: View, data: seq<Byte>)
    requires v.mode == InText && data != [] && data[0] == RS
    ensures ParseOf(AtRs(pr, v, data)) == EndPayload(Run(pr.framing, ParseOf(v), data))
    decreases |data|, 1
  {
    var f := pr.framing;
    if |data| == 1 {
      assert data == [RS] + [];
      RunHead(f, ParseOf(v), RS, []);
    } else {
      var b, rest := data[1], data[2..];
      assert data[..2] == [RS, b] && data == [RS, b] + rest;
      PairParses(f, v, b, rest);
      if f.isTag(b) {
        InsideFrameParses(pr, OpenFrame(v, b), rest);
      } else {
        ScanParses(pr, Emit(v, [RS, b]), rest);
      }
    }
  }

  lemma {:induction false} ScanParses(pr: Protocol, v: View, data: seq<Byte>)
    requires v.mode == InText
    ensures ParseOf(Scan(pr, v, data)) == EndPayload(Run(pr.framing, ParseOf(v), data))
    decreases |data|, 2
  {
    var k := FirstRs(data);
    EmitParses(pr.framing, v, data[..k], data[k..]);
    assert data == data[..k] + data[k..];
    if k < |data| {
      AtRsParses(pr, Emit(v, data[..k]), data[k..]);
    }
  }

  /** A held RS that opens no frame is text, and the next byte is read afresh. */
  lemma {:induction false} HeldParses(f: Framing, v: View, data: seq<Byte>)
    requires v.mode == Held && data != [] && !f.isTag(data[0])
    ensures Run(f, ParseOf(v), data) == Run(f, ParseOf(Emit(v.(mode := InText), [RS])), data)
  {
    var w, b := Emit(v.(mode := InText), [RS]), data[0];
    assert data == [b] + data[1..];
    RunHead(f, ParseOf(v), b, data[1..]);
    RunHead(f, ParseOf(w), b, data[1..]);
    assert TextEvents([RS]) == [Text(RS)];
    assert v.log + [Text(RS), Text(b)] == v.log + [Text(RS)] + [Text(b)];
  }

  /** The payload scanner, with its lookahead and its two kinds of pending RS, is the automaton. */
  lemma {:induction false} FeedParses(pr: Protocol, v: View, data: seq<Byte>)
    requires v.mode != Fresh
    ensures ParseOf(FeedView(pr, v, data)) == Feed(pr.framing, ParseOf(v), data)
    ensures FeedView(pr, v, data).mode != Fresh
  {
    if data != [] {
      match v.mode
      case InFrame(_, _, _) => InsideFrameParses(pr, v, data);
      case Held =>
        if pr.framing.isTag(data[0]) {
          assert data == [data[0]] + data[1..];
          RunHead(pr.framing, ParseOf(v), data[0], data[1..]);
          InsideFrameParses(pr, OpenFrame(v, data[0]), data[1..]);
        } else {
          HeldParses(pr.framing, v, data);
          ScanParses(pr, Emit(v.(mode := InText), [RS]), data);
        }
      case InText => ScanParses(pr, v, data);
    }
  }

  // ---------------------------------------------------------------- every reachable state

  /** What all steps keep: text, frames and deltas tell the same story, on character boundaries. */
  ghost predicate Inv(pr: Protocol, v: View) {
    Good(pr, v) && Aligned(v)
  }

  lemma {:induction false} EmitKeepsInv(pr: Protocol, v: View, bytes: seq<Byte>)
    requires Inv(pr, v)
    ensures Inv(pr, Emit(v, bytes))
  {
    EmitKeepsGood(pr, v, bytes);
    EmitKeepsAligned(v, bytes);
  }

  lemma {:induction false} OpenKeepsInv(pr: Protocol, v: View, tag: Byte)
    requires Inv(pr, v) && pr.framing.isTag(tag)
    ensures Inv(pr, OpenFrame(v, tag))
  {
    LogSnoc(pr, v.log, Open(tag));
  }

  lemma {:induction false} DrainKeepsInv(pr: Protocol, v: View, b: Byte)
    requires pr.Valid() && Inv(pr, v) && v.mode.InFrame?
    ensures Inv(pr, DrainByte(pr, v, b))
  {
    CloseKeepsGood(pr, v);
    CloseKeepsAligned(pr, v);
  }

  lemma {:induction false} InsideFrameKeepsInv(pr: Protocol, v: View, data: seq<Byte>)
    requires pr.Valid() && Inv(pr, v) && v.mode.InFrame?
    ensures Inv(pr, InsideFrame(pr, v, data))
    decreases |data|, 0
  {
    if data != [] {
      var w := DrainByte(pr, v, data[0]);
      DrainKeepsInv(pr, v, data[0]);
      if w.mode.InFrame? {
        InsideFrameKeepsInv(pr, w, data[1..]);
      } else {
        ScanKeepsInv(pr, w, data[1..]);
      }
    }
  }

  lemma {:induction false} AtRsKeepsInv(pr: Protocol, v: View, data: seq<Byte>)
    requires pr.Valid() && Inv(pr, v) && data != []
    ensures Inv(pr, AtRs(pr, v, data))
    decreases |data|, 1
  {
    if |data| > 1 {
      if pr.framing.isTag(data[1]) {
        OpenKeepsInv(pr, v, data[1]);
        InsideFrameKeepsInv(pr, OpenFrame(v, data[1]), data[2..]);
      } else {
        EmitKeepsInv(pr, v, data[..2]);
        ScanKeepsInv(pr, Emit(v, data[..2]), data[2..]);
      }
    }
  }

  lemma {:induction false} ScanKeepsInv(pr: Protocol, v: View, data: seq<Byte>)
    requires pr.Valid() && Inv(pr, v)
    ensures Inv(pr, Scan(pr, v, data))
    decreases |data|, 2
  {
    var k := FirstRs(data);
    EmitKeepsInv(pr, v, data[..k]);
    if k < |data| {
      AtRsKeepsInv(pr, Emit(v, data[..k]), data[k..]);
    }
  }

  lemma {:induction false} FeedKeepsInv(pr: Protocol, v: View, data: seq<Byte>)
    requires pr.Valid() && Inv(pr, v)
    ensures Inv(pr, FeedView(pr, v, data))
  {
    if data != [] {
      match v.mode
      case InFrame(_, _, _) => InsideFrameKeepsInv(pr, v, data);
      case Held =>
        if pr.framing.isTag(data[0]) {
          OpenKeepsInv(pr, v, data[0]);
          InsideFrameKeepsInv(pr, OpenFrame(v, data[0]), data[1..]);
        } else {
          EmitKeepsInv(pr, v.(mode := InText), [RS]);
          ScanKeepsInv(pr, Emit(v.(mode := InText), [RS]), data);
        }
      case _ => ScanKeepsInv(pr, v, data);
    }
  }

  /** The invariant and the automaton's reading hold after any payloads whatever. */
  lemma {:induction false} Reachable(pr: Protocol, payloads: seq<seq<Byte>>)
    requires pr.Valid()
    ensures var v := FeedAllView(pr, payloads);
      Inv(pr, v) && v.mode != Fresh && ParseOf(v) == FeedAll(pr.framing, START, payloads)
  {
    if payloads == [] {
      assert INITIAL.deltas[0..] == [];
    } else {
      var n := |payloads| - 1;
      Reachable(pr, payloads[..n]);
      FeedParses(pr, FeedAllView(pr, payloads[..n]), payloads[n]);
      FeedKeepsInv(pr, FeedAllView(pr, payloads[..n]), payloads[n]);
    }
  }

  lemma {:induction false} FinishParses(pr: Protocol, v: View)
    requires Good(pr, v) && v.mode != Fresh
    ensures var w := FinishView(v);
      ParseOf(w) == Finish(ParseOf(v)) && w.out == OutcomeOf(pr, w.log) && Conserved(w)
      && (ErrorFree(pr, w.log) ==> w.mark == 0)
      && Concat(w.deltas[w.mark..]) == w.out.text
  {
    var u := v.(mode := InText);
    assert TextEvents([RS]) == [Text(RS)];
    EmitKeepsGood(pr, u, [RS]);
    FlushDelivers(if v.mode == Held then Emit(u, [RS]) else u);
  }

  /**
   Whole streams. However a clean stream is cut, feeding and finishing it gathers exactly what
   the reference reads in it. For any payloads, the deltas since the last error frame concatenate
   to the final text; without an error frame, all of them do.
   */
  lemma {:induction false} WholeStream(pr: Protocol, payloads: seq<seq<Byte>>)
    requires pr.Valid()
    ensures var w, s := FinishView(FeedAllView(pr, payloads)), Concat(payloads);
      && w.out == OutcomeOf(pr, Finish(FeedAll(pr.framing, START, payloads)).log)
      && (Clean(pr.framing, s) ==> w.out == OutcomeOf(pr, RefLog(pr.framing, s)))
      && Told(pr, Frames(Finish(FeedAll(pr.framing, START, payloads)).log), w.out)
      && w.mark <= |w.deltas| && Concat(w.deltas[w.mark..]) == w.out.text
      && (Clean(pr.framing, s) && ErrorFree(pr, RefLog(pr.framing, s)) ==> Concat(w.deltas) == w.out.text)
  {
    Reachable(pr, payloads);
    FinishParses(pr, FeedAllView(pr, payloads));
    CutIndependentIffClean(pr.framing, Concat(payloads));
    LogIsTold(pr, Finish(FeedAll(pr.framing, START, payloads)).log);
    var w := FinishView(FeedAllView(pr, payloads));
    assert w.deltas[0..] == w.deltas;
  }
}
