/**
 What a parsed stream means (text, reasoning, tool calls, usage, error), and the encoder whose
 output the demultiplexer decodes. JSON frame bodies stay uninterpreted: their parse results
 are parameters of the protocol.
 */
module StreamCodec {
  import opened Bytes
  import opened Common
  import opened FrameParser

  /** Numeric members of a usage body; absent or non-numeric members are None. */
  datatype Usage = Usage(prompt: Option<real>, completion: Option<real>, total: Option<real>, cost: Option<real>)

  datatype ErrorInfo = ErrorInfo(code: Option<int>, message: Option<string>)

  datatype Protocol = Protocol(
    framing: Framing,
    toolTag: Byte, reasonTag: Byte, usageTag: Byte, errorTag: Byte,
    isToolArray: seq<Byte> -> bool,
    usageOf: seq<Byte> -> Option<Usage>,
    errorOf: seq<Byte> -> ErrorInfo)
  {
    ghost predicate Valid() {
      && framing.Valid()
      && framing.isTag(toolTag) && framing.isTag(reasonTag) && framing.isTag(usageTag) && framing.isTag(errorTag)
      && toolTag != reasonTag && toolTag != usageTag && toolTag != errorTag
      && reasonTag != usageTag && reasonTag != errorTag && usageTag != errorTag
    }
  }

  const DEFAULT_ERROR_CODE := -32602
  const DEFAULT_ERROR_MESSAGE := "LLM stream error"
  const ERROR_MESSAGE_MAX := 255

  /** Everything a finished stream hands over. `reason` is empty when the source holds NULL. */
  datatype Outcome = Outcome(
    text: seq<Byte>, reason: seq<Byte>, tools: Option<seq<Byte>>,
    tokens: nat, cost: real, errorCode: int, errorMessage: string)

  const EMPTY := Outcome([], [], None, 0, 0.0, 0, "")

  function Positive(x: Option<real>): nat {
    if x.Some? && x.value > 0.0 then x.value.Floor else 0
  }

  /** Total tokens of a usage body; the parts are summed when no positive total is given. */
  function TotalTokens(u: Usage): nat {
    if Positive(u.total) > 0 then Positive(u.total) else Positive(u.prompt) + Positive(u.completion)
  }

  function ErrorCode(e: ErrorInfo): int {
    if e.code.Some? then e.code.value else DEFAULT_ERROR_CODE
  }

  /** The message as it fits the fixed-size field. */
  function ErrorMessage(e: ErrorInfo): string {
    Truncated(if e.message.Some? then e.message.value else DEFAULT_ERROR_MESSAGE, ERROR_MESSAGE_MAX)
  }

  function WithUsage(pr: Protocol, o: Outcome, body: seq<Byte>): Outcome {
    match pr.usageOf(body)
    case None => o
    case Some(u) =>
      o.(tokens := if TotalTokens(u) > 0 then TotalTokens(u) else o.tokens,
         cost := if u.cost.Some? then u.cost.value else o.cost)
  }

  /** An error frame discards what was gathered so far. */
  function WithError(pr: Protocol, o: Outcome, body: seq<Byte>): Outcome {
    var e := pr.errorOf(body);
    o.(text := [], reason := [], tools := None,
       errorCode := ErrorCode(e), errorMessage := ErrorMessage(e))
  }

  /** Effect of one complete frame. */
  function Dispatch(pr: Protocol, o: Outcome, tag: Byte, body: seq<Byte>): Outcome {
    if tag == pr.toolTag then
      if pr.isToolArray(body) then o.(tools := Some(body)) else o
    else if tag == pr.reasonTag then o.(reason := o.reason + body)
    else if tag == pr.usageTag then WithUsage(pr, o, body)
    else if tag == pr.errorTag then WithError(pr, o, body)
    else o
  }

  function Effect(pr: Protocol, o: Outcome, e: Event): Outcome {
    match e
    case Text(b) => o.(text := o.text + [b])
    case Open(_) => o
    case Close(tag, body, dropped) =>
      if dropped > 0 || body == [] then o else Dispatch(pr, o, tag, body)
  }

  /** The outcome a parse log stands for. */
  function OutcomeOf(pr: Protocol, log: seq<Event>): Outcome {
    if log == [] then EMPTY else Effect(pr, OutcomeOf(pr, log[..|log| - 1]), log[|log| - 1])
  }

  /** The frames a parse log dispatches, in order. */
  function Frames(log: seq<Event>): seq<(Byte, seq<Byte>)> {
    if log == [] then []
    else
      var e := log[|log| - 1];
      Frames(log[..|log| - 1]) + if e.Close? && e.dropped == 0 && e.body != [] then [(e.tag, e.body)] else []
  }

  // ---------------------------------------------------------------- encoder

  datatype Item = Segment(bytes: seq<Byte>) | Frame(tag: Byte, body: seq<Byte>)

  predicate Encodable(f: Framing, item: Item) {
    match item
    case Segment(bytes) => RS !in bytes
    case Frame(tag, body) => f.isTag(tag) && RS !in body
  }

  function EncodeItem(item: Item): seq<Byte> {
    match item
    case Segment(bytes) => bytes
    case Frame(tag, body) => [RS, tag] + body + [RS]
  }

  function Encode(items: seq<Item>): seq<Byte> {
    if items == [] then [] else Encode(items[..|items| - 1]) + EncodeItem(items[|items| - 1])
  }

  /** A frame is delivered if its body is nonempty and shorter than the frame limit. */
  predicate Fits(f: Framing, body: seq<Byte>) {
    0 < |body| < f.frameMax
  }

  /** What the sender meant, read off the items directly. */
  function Meaning(pr: Protocol, items: seq<Item>): Outcome {
    if items == [] then EMPTY
    else
      var o := Meaning(pr, items[..|items| - 1]);
      match items[|items| - 1]
      case Segment(bytes) => o.(text := o.text + bytes)
      case Frame(tag, body) => if Fits(pr.framing, body) then Dispatch(pr, o, tag, body) else o
  }

  function FittingFrames(f: Framing, items: seq<Item>): seq<(Byte, seq<Byte>)> {
    if items == [] then []
    else
      var last := items[|items| - 1];
      FittingFrames(f, items[..|items| - 1])
      + if last.Frame? && Fits(f, last.body) then [(last.tag, last.body)] else []
  }

  // ---------------------------------------------------------------- meaning, read off after the last error

  /** A frame with this tag whose body is delivered. */
  predicate Sends(f: Framing, item: Item, tag: Byte) {
    item.Frame? && item.tag == tag && Fits(f, item.body)
  }

  function TextPart(item: Item): seq<Byte> {
    if item.Segment? then item.bytes else []
  }

  function ReasonPart(pr: Protocol, item: Item): seq<Byte> {
    if Sends(pr.framing, item, pr.reasonTag) then item.body else []
  }

  /** All text segments, joined. */
  function TextOf(items: seq<Item>): seq<Byte> {
    if items == [] then [] else TextOf(items[..|items| - 1]) + TextPart(items[|items| - 1])
  }

  /** All delivered reasoning bodies, joined. */
  function ReasonOf(pr: Protocol, items: seq<Item>): seq<Byte> {
    if items == [] then [] else ReasonOf(pr, items[..|items| - 1]) + ReasonPart(pr, items[|items| - 1])
  }

  predicate SendsTools(pr: Protocol, item: Item) {
    Sends(pr.framing, item, pr.toolTag) && pr.isToolArray(item.body)
  }

  predicate SendsTokens(pr: Protocol, item: Item) {
    Sends(pr.framing, item, pr.usageTag) && pr.usageOf(item.body).Some? && TotalTokens(pr.usageOf(item.body).value) > 0
  }

  /** `n` items end with a delivered error frame and no later item is one, or no item is one at all and `n` is 0. */
  ghost predicate LastError(pr: Protocol, items: seq<Item>, n: nat) {
    && n <= |items|
    && (n > 0 ==> Sends(pr.framing, items[n - 1], pr.errorTag))
    && forall i :: n <= i < |items| ==> !Sends(pr.framing, items[i], pr.errorTag)
  }

  /** `o` has this text and reasoning, and the error of frame body `error`, if any. */
  predicate SinceError(pr: Protocol, o: Outcome, text: seq<Byte>, reason: seq<Byte>, error: Option<seq<Byte>>) {
    && o.text == text && o.reason == reason
    && o.errorCode == (if error.None? then 0 else ErrorCode(pr.errorOf(error.value)))
    && o.errorMessage == (if error.None? then "" else ErrorMessage(pr.errorOf(error.value)))
  }

  /** An error frame forgets what was meant before it. */
  lemma {:induction false} ErrorForgets(pr: Protocol, items: seq<Item>)
    requires pr.Valid() && items != [] && Sends(pr.framing, items[|items| - 1], pr.errorTag)
    ensures SinceError(pr, Meaning(pr, items), [], [], Some(items[|items| - 1].body))
    ensures Meaning(pr, items).tools == None
  {
  }

  /** Any other item adds its own parts. */
  lemma {:induction false} OtherAdds(pr: Protocol, items: seq<Item>, text: seq<Byte>, reason: seq<Byte>,
                                     error: Option<seq<Byte>>)
    requires pr.Valid() && items != [] && !Sends(pr.framing, items[|items| - 1], pr.errorTag)
    requires SinceError(pr, Meaning(pr, items[..|items| - 1]), text, reason, error)
    ensures var last := items[|items| - 1];
      SinceError(pr, Meaning(pr, items), text + TextPart(last), reason + ReasonPart(pr, last), error)
  {
  }

  lemma {:induction false} TailParts(pr: Protocol, items: seq<Item>, n: nat)
    requires n < |items|
    ensures var m := |items| - 1;
      && TextOf(items[n..]) == TextOf(items[..m][n..]) + TextPart(items[m])
      && ReasonOf(pr, items[n..]) == ReasonOf(pr, items[..m][n..]) + ReasonPart(pr, items[m])
  {
    var tail := items[n..];
    assert tail[..|tail| - 1] == items[..|items| - 1][n..];
  }

  /** Text, reasoning and error of a list of items: everything before the last error frame is forgotten. */
  lemma {:induction false} MeaningAfterError(pr: Protocol, items: seq<Item>, n: nat)
    requires pr.Valid() && LastError(pr, items, n)
    ensures SinceError(pr, Meaning(pr, items), TextOf(items[n..]), ReasonOf(pr, items[n..]),
                       if n == 0 then None else Some(items[n - 1].body))
  {
    if n < |items| {
      var init := items[..|items| - 1];
      MeaningAfterError(pr, init, n);
      TailParts(pr, items, n);
      var error := if n == 0 then None else Some(items[n - 1].body);
      OtherAdds(pr, items, TextOf(init[n..]), ReasonOf(pr, init[n..]), error);
    } else if n > 0 {
      ErrorForgets(pr, items);
    }
  }

  /** The tool calls are those of the last tool frame with an array body since the last error frame. */
  lemma {:induction false} ToolsAreNewest(pr: Protocol, items: seq<Item>, k: nat)
    requires pr.Valid() && k < |items| && SendsTools(pr, items[k])
    requires forall i :: k < i < |items| ==> !SendsTools(pr, items[i]) && !Sends(pr.framing, items[i], pr.errorTag)
    ensures Meaning(pr, items).tools == Some(items[k].body)
  {
    if k < |items| - 1 {
      ToolsAreNewest(pr, items[..|items| - 1], k);
    }
  }

  /** The token count is that of the last usage frame with a positive count, errors or not. */
  lemma {:induction false} TokensAreNewest(pr: Protocol, items: seq<Item>, k: nat)
    requires pr.Valid() && k < |items| && SendsTokens(pr, items[k])
    requires forall i :: k < i < |items| ==> !SendsTokens(pr, items[i])
    ensures Meaning(pr, items).tokens == TotalTokens(pr.usageOf(items[k].body).value)
  {
    if k < |items| - 1 {
      TokensAreNewest(pr, items[..|items| - 1], k);
    }
  }

  // ---------------------------------------------------------------- reading back what was encoded

  lemma {:induction false} RefRunSnoc(f: Framing, s: seq<Byte>, b: Byte)
    ensures RefRun(f, s + [b]) == RefStep(f, RefRun(f, s), b)
  {
    assert (s + [b])[..|s|] == s;
  }

  /** A reading in text mode, clean, whose log has the given outcome and frames. */
  ghost predicate Reads(pr: Protocol, s: seq<Byte>, o: Outcome, frames: seq<(Byte, seq<Byte>)>) {
    var r := RefRun(pr.framing, s);
    r.mode == RefText && r.clean && OutcomeOf(pr, r.log) == o && Frames(r.log) == frames
  }

  lemma {:induction false} LogSnoc(pr: Protocol, log: seq<Event>, e: Event)
    ensures OutcomeOf(pr, log + [e]) == Effect(pr, OutcomeOf(pr, log), e)
    ensures Frames(log + [e])
         == Frames(log) + if e.Close? && e.dropped == 0 && e.body != [] then [(e.tag, e.body)] else []
  {
    assert (log + [e])[..|log|] == log;
  }

  lemma {:induction false} TextEventsSnoc(log: seq<Event>, bytes: seq<Byte>)
    requires bytes != []
    ensures var n := |bytes| - 1;
      log + TextEvents(bytes) == log + TextEvents(bytes[..n]) + [Text(bytes[n])]
  {
  }

  /** Text events append their bytes to the text and dispatch no frame. */
  lemma {:induction false} OutcomeOfText(pr: Protocol, log: seq<Event>, bytes: seq<Byte>)
    ensures OutcomeOf(pr, log + TextEvents(bytes))
         == OutcomeOf(pr, log).(text := OutcomeOf(pr, log).text + bytes)
    ensures Frames(log + TextEvents(bytes)) == Frames(log)
    decreases |bytes|
  {
    if bytes == [] {
      assert log + TextEvents(bytes) == log;
    } else {
      var n := |bytes| - 1;
      OutcomeOfText(pr, log, bytes[..n]);
      TextEventsSnoc(log, bytes);
      LogSnoc(pr, log + TextEvents(bytes[..n]), Text(bytes[n]));
      assert bytes == bytes[..n] + [bytes[n]];
    }
  }

  lemma {:induction false} RefRunText(f: Framing, s: seq<Byte>, bytes: seq<Byte>)
    requires RefRun(f, s).mode == RefText && RS !in bytes
    ensures RefRun(f, s + bytes) == RefRun(f, s).(log := RefRun(f, s).log + TextEvents(bytes))
    decreases |bytes|
  {
    if bytes == [] {
      assert s + bytes == s && RefRun(f, s).log + TextEvents(bytes) == RefRun(f, s).log;
    } else {
      var n := |bytes| - 1;
      RefRunText(f, s, bytes[..n]);
      assert s + bytes == s + bytes[..n] + [bytes[n]];
      RefRunSnoc(f, s + bytes[..n], bytes[n]);
      TextEventsSnoc(RefRun(f, s).log, bytes);
    }
  }

  lemma {:induction false} ReadsSegment(pr: Protocol, s: seq<Byte>, bytes: seq<Byte>, o: Outcome, frames: seq<(Byte,
                                        seq<Byte>)>)
    requires Reads(pr, s, o, frames) && RS !in bytes
    ensures Reads(pr, s + bytes, o.(text := o.text + bytes), frames)
  {
    RefRunText(pr.framing, s, bytes);
    OutcomeOfText(pr, RefRun(pr.framing, s).log, bytes);
  }

  /** Inside a frame the body is kept up to the limit and only counted beyond it. */
  function FrameMode(f: Framing, tag: Byte, body: seq<Byte>): RefMode
    requires f.frameMax >= 2
  {
    if |body| < f.frameMax then RefFrame(tag, body, 0)
    else RefFrame(tag, body[..f.frameMax - 1], |body| + 1 - f.frameMax)
  }

  lemma {:induction false} FrameModeSnoc(f: Framing, r: Ref, tag: Byte, body: seq<Byte>, b: Byte)
    requires f.frameMax >= 2 && b != RS && r.mode == FrameMode(f, tag, body)
    ensures RefStep(f, r, b) == r.(mode := FrameMode(f, tag, body + [b]))
  {
    if |body| >= f.frameMax - 1 {
      assert (body + [b])[..f.frameMax - 1] == body[..f.frameMax - 1];
      assert |body| == f.frameMax - 1 ==> body[..f.frameMax - 1] == body;
    }
  }

  lemma {:induction false} ReadsBody(f: Framing, s: seq<Byte>, tag: Byte, body: seq<Byte>)
    requires f.frameMax >= 2 && RS !in body && RefRun(f, s).mode == FrameMode(f, tag, [])
    ensures RefRun(f, s + body) == RefRun(f, s).(mode := FrameMode(f, tag, body))
    decreases |body|
  {
    if body == [] {
      assert s + body == s;
    } else {
      var n := |body| - 1;
      var init, b := body[..n], body[n];
      assert body == init + [b] && s + body == s + init + [b];
      ReadsBody(f, s, tag, init);
      RefRunSnoc(f, s + init, b);
      FrameModeSnoc(f, RefRun(f, s + init), tag, init, b);
    }
  }

  lemma {:induction false} ReadsOpen(f: Framing, s: seq<Byte>, tag: Byte)
    requires f.Valid() && RefRun(f, s).mode == RefText && f.isTag(tag)
    ensures RefRun(f, s + [RS] + [tag])
         == Ref(FrameMode(f, tag, []), RefRun(f, s).log + [Open(tag)], RefRun(f, s).clean)
  {
    RefRunSnoc(f, s, RS);
    RefRunSnoc(f, s + [RS], tag);
  }

  /** The log after a whole encoded frame. */
  function FrameLog(f: Framing, log: seq<Event>, tag: Byte, body: seq<Byte>): seq<Event>
    requires f.frameMax >= 2
  {
    var m := FrameMode(f, tag, body);
    log + [Open(tag)] + [Close(tag, m.body, m.dropped)]
  }

  lemma {:induction false} ReadsFrameBytes(f: Framing, s: seq<Byte>, tag: Byte, body: seq<Byte>)
    requires f.Valid() && RefRun(f, s).mode == RefText && f.isTag(tag) && RS !in body
    ensures RefRun(f, s + EncodeItem(Frame(tag, body)))
         == Ref(RefText, FrameLog(f, RefRun(f, s).log, tag, body), RefRun(f, s).clean)
  {
    var inside := s + [RS] + [tag];
    assert s + EncodeItem(Frame(tag, body)) == inside + body + [RS];
    ReadsOpen(f, s, tag);
    ReadsBody(f, inside, tag, body);
    RefRunSnoc(f, inside + body, RS);
  }

  lemma {:induction false} ReadsFrame(pr: Protocol, s: seq<Byte>, tag: Byte, body: seq<Byte>, o: Outcome,
                                      frames: seq<(Byte, seq<Byte>)>)
    requires pr.Valid() && Reads(pr, s, o, frames) && pr.framing.isTag(tag) && RS !in body
    ensures Reads(pr, s + EncodeItem(Frame(tag, body)),
                  if Fits(pr.framing, body) then Dispatch(pr, o, tag, body) else o,
                  frames + if Fits(pr.framing, body) then [(tag, body)] else [])
  {
    var log, m := RefRun(pr.framing, s).log, FrameMode(pr.framing, tag, body);
    ReadsFrameBytes(pr.framing, s, tag, body);
    LogSnoc(pr, log, Open(tag));
    LogSnoc(pr, log + [Open(tag)], Close(tag, m.body, m.dropped));
  }

  lemma {:induction false} ReadsEncoding(pr: Protocol, items: seq<Item>)
    requires pr.Valid() && forall item :: item in items ==> Encodable(pr.framing, item)
    ensures Reads(pr, Encode(items), Meaning(pr, items), FittingFrames(pr.framing, items))
  {
    if items != [] {
      var n := |items| - 1;
      var init := items[..n];
      assert forall item :: item in init ==> item in items;
      ReadsEncoding(pr, init);
      var o, frames := Meaning(pr, init), FittingFrames(pr.framing, init);
      assert Encodable(pr.framing, items[n]);
      match items[n]
      case Segment(bytes) => ReadsSegment(pr, Encode(init), bytes, o, frames);
      case Frame(tag, body) => ReadsFrame(pr, Encode(init), tag, body, o, frames);
    }
  }

  /**
   Round trip. Encode any text segments and frames free of RS, cut the bytes anywhere, feed and
   finish: the outcome is what the items mean, and exactly the frames that fit are dispatched, in
   order. A frame that does not fit leaves its neighbours undisturbed.
   */
  lemma {:induction false} RoundTrip(pr: Protocol, items: seq<Item>, cut: seq<seq<Byte>>)
    requires pr.Valid() && forall item :: item in items ==> Encodable(pr.framing, item)
    requires Concat(cut) == Encode(items)
    ensures var log := Finish(FeedAll(pr.framing, START, cut)).log;
            OutcomeOf(pr, log) == Meaning(pr, items) && Frames(log) == FittingFrames(pr.framing, items)
  {
    ReadsEncoding(pr, items);
    CutIndependentIffClean(pr.framing, Encode(items));
  }

  // ---------------------------------------------------------------- errors and usage, read off the frames

  /** Frame `k` carries this tag, and no later one does. */
  predicate LastOf(frames: seq<(Byte, seq<Byte>)>, tag: Byte, k: int) {
    0 <= k < |frames| && frames[k].0 == tag && forall i :: k < i < |frames| ==> frames[i].0 != tag
  }

  /** The code and message a stream must report for an error body that says `e`. */
  predicate Reported(e: ErrorInfo, code: int, message: string) {
    && (e.code.Some? ==> code == e.code.value)
    && (e.code.None? ==> code == -32602)
    && (e.message.Some? && |e.message.value| <= 255 ==> message == e.message.value)
    && (e.message.Some? && |e.message.value| > 255 ==> message == e.message.value[..255])
    && (e.message.None? ==> message == "LLM stream error")
  }

  predicate NoneOf(frames: seq<(Byte, seq<Byte>)>, tag: Byte) {
    forall i :: 0 <= i < |frames| ==> frames[i].0 != tag
  }

  /** Code and message are those of the last error frame among the frames; without one, none. */
  ghost predicate ErrorTold(pr: Protocol, frames: seq<(Byte, seq<Byte>)>, code: int, message: string) {
    && (forall k :: LastOf(frames, pr.errorTag, k) ==> Reported(pr.errorOf(frames[k].1), code, message))
    && (NoneOf(frames, pr.errorTag) ==> code == 0 && message == "")
  }

  /** `n` is the whole part of a positive number, 0 for anything else. */
  predicate WholePart(x: Option<real>, n: nat) {
    if x.Some? && x.value > 0.0 then n as real <= x.value < (n + 1) as real else n == 0
  }

  /** A usage body stands for `n` tokens: its total, or, if that comes to nothing, its parts together. */
  ghost predicate Counts(u: Usage, n: nat) {
    exists t: nat, p: nat, c: nat ::
      WholePart(u.total, t) && WholePart(u.prompt, p) && WholePart(u.completion, c) && n == if t > 0 then t else p + c
  }

  lemma {:induction false} TotalCounts(u: Usage)
    ensures Counts(u, TotalTokens(u))
    ensures forall n :: Counts(u, n) ==> n == TotalTokens(u)
  {
    assert WholePart(u.total, Positive(u.total)) && WholePart(u.prompt, Positive(u.prompt));
    assert WholePart(u.completion, Positive(u.completion));
    forall n | Counts(u, n) ensures n == TotalTokens(u) {
      var t: nat, p: nat, c: nat :|
        WholePart(u.total, t) && WholePart(u.prompt, p) && WholePart(u.completion, c) &&
          n == if t > 0 then t else p + c;
      WholePartUnique(u.total, t, Positive(u.total));
      WholePartUnique(u.prompt, p, Positive(u.prompt));
      WholePartUnique(u.completion, c, Positive(u.completion));
    }
  }

  lemma {:induction false} WholePartUnique(x: Option<real>, m: nat, n: nat)
    requires WholePart(x, m) && WholePart(x, n)
    ensures m == n
  {
  }

  /** A usage frame whose body parses. */
  predicate Uses(pr: Protocol, fr: (Byte, seq<Byte>)) {
    fr.0 == pr.usageTag && pr.usageOf(fr.1).Some?
  }

  ghost predicate UsesTokens(pr: Protocol, fr: (Byte, seq<Byte>), n: nat) {
    Uses(pr, fr) && n > 0 && Counts(pr.usageOf(fr.1).value, n)
  }

  predicate UsesCost(pr: Protocol, fr: (Byte, seq<Byte>)) {
    Uses(pr, fr) && pr.usageOf(fr.1).value.cost.Some?
  }

  /** From `from` on, no frame says anything about tokens; about the cost. */
  ghost predicate NoTokens(pr: Protocol, frames: seq<(Byte, seq<Byte>)>, from: int) {
    forall i, n :: from <= i < |frames| && 0 <= i ==> !UsesTokens(pr, frames[i], n)
  }

  predicate NoCost(pr: Protocol, frames: seq<(Byte, seq<Byte>)>, from: int) {
    forall i :: from <= i < |frames| && 0 <= i ==> !UsesCost(pr, frames[i])
  }

  ghost predicate TokensTold(pr: Protocol, frames: seq<(Byte, seq<Byte>)>, tokens: nat) {
    && (forall k, n :: 0 <= k < |frames| && UsesTokens(pr, frames[k], n) && NoTokens(pr, frames, k + 1) ==> tokens == n)
    && (NoTokens(pr, frames, 0) ==> tokens == 0)
  }

  predicate CostTold(pr: Protocol, frames: seq<(Byte, seq<Byte>)>, cost: real) {
    && (forall k :: 0 <= k < |frames| && UsesCost(pr, frames[k]) && NoCost(pr, frames, k + 1) ==>
          cost == pr.usageOf(frames[k].1).value.cost.value)
    && (NoCost(pr, frames, 0) ==> cost == 0.0)
  }

  /** Tokens and cost are those of the last usage frame that says something about them; without one, nothing. */
  ghost predicate UsageTold(pr: Protocol, frames: seq<(Byte, seq<Byte>)>, tokens: nat, cost: real) {
    TokensTold(pr, frames, tokens) && CostTold(pr, frames, cost)
  }

  /** What a frame says about tokens and cost is what dispatching it stores. */
  lemma {:induction false} UsageStored(pr: Protocol, o: Outcome, tag: Byte, body: seq<Byte>)
    requires pr.Valid()
    ensures forall n :: UsesTokens(pr, (tag, body), n) ==> Dispatch(pr, o, tag, body).tokens == n
    ensures (forall n :: !UsesTokens(pr, (tag, body), n)) ==> Dispatch(pr, o, tag, body).tokens == o.tokens
    ensures Dispatch(pr, o, tag, body).cost ==
      if UsesCost(pr, (tag, body)) then pr.usageOf(body).value.cost.value else o.cost
  {
    if Uses(pr, (tag, body)) {
      var u := pr.usageOf(body).value;
      TotalCounts(u);
      if TotalTokens(u) > 0 {
        assert UsesTokens(pr, (tag, body), TotalTokens(u));
      }
    }
  }

  /** What dispatching stores about an error: that of an error frame, or nothing new. */
  lemma {:induction false} ErrorStored(pr: Protocol, o: Outcome, tag: Byte, body: seq<Byte>)
    requires pr.Valid()
    ensures var p := Dispatch(pr, o, tag, body);
      if tag == pr.errorTag then Reported(pr.errorOf(body), p.errorCode, p.errorMessage)
      else p.errorCode == o.errorCode && p.errorMessage == o.errorMessage
  {
  }

  lemma {:induction false} ErrorToldSnoc(pr: Protocol, frames: seq<(Byte, seq<Byte>)>, fr: (Byte, seq<Byte>),
                                         code: int, message: string, code': int, message': string)
    requires ErrorTold(pr, frames, code, message)
    requires fr.0 == pr.errorTag ==> Reported(pr.errorOf(fr.1), code', message')
    requires fr.0 != pr.errorTag ==> code' == code && message' == message
    ensures ErrorTold(pr, frames + [fr], code', message')
  {
    var all, z := frames + [fr], |frames|;
    assert all[z] == fr && forall i :: 0 <= i < z ==> all[i] == frames[i];
    forall k | LastOf(all, pr.errorTag, k) ensures Reported(pr.errorOf(all[k].1), code', message') {
      if k < z {
        assert LastOf(frames, pr.errorTag, k) && all[z].0 != pr.errorTag;
      }
    }
    if NoneOf(all, pr.errorTag) {
      assert all[z].0 != pr.errorTag && NoneOf(frames, pr.errorTag);
    }
  }

  lemma {:induction false} TokensToldSnoc(pr: Protocol, frames: seq<(Byte, seq<Byte>)>, fr: (Byte, seq<Byte>),
                                          tokens: nat, tokens': nat)
    requires TokensTold(pr, frames, tokens)
    requires forall n :: UsesTokens(pr, fr, n) ==> tokens' == n
    requires (forall n :: !UsesTokens(pr, fr, n)) ==> tokens' == tokens
    ensures TokensTold(pr, frames + [fr], tokens')
  {
    var all, z := frames + [fr], |frames|;
    assert all[z] == fr && forall i :: 0 <= i < z ==> all[i] == frames[i];
    forall k, n | 0 <= k < |all| && UsesTokens(pr, all[k], n) && NoTokens(pr, all, k + 1) ensures tokens' == n {
      if k < z {
        assert forall m :: !UsesTokens(pr, all[z], m);
        assert NoTokens(pr, frames, k + 1);
      }
    }
    if NoTokens(pr, all, 0) {
      assert forall m :: !UsesTokens(pr, all[z], m);
      assert NoTokens(pr, frames, 0);
    }
  }

  lemma {:induction false} CostToldSnoc(pr: Protocol, frames: seq<(Byte, seq<Byte>)>, fr: (Byte, seq<Byte>),
                                        cost: real, cost': real)
    requires CostTold(pr, frames, cost)
    requires cost' == if UsesCost(pr, fr) then pr.usageOf(fr.1).value.cost.value else cost
    ensures CostTold(pr, frames + [fr], cost')
  {
    var all, z := frames + [fr], |frames|;
    assert all[z] == fr && forall i :: 0 <= i < z ==> all[i] == frames[i];
    forall k | 0 <= k < |all| && UsesCost(pr, all[k]) && NoCost(pr, all, k + 1)
      ensures cost' == pr.usageOf(all[k].1).value.cost.value
    {
      if k < z {
        assert !UsesCost(pr, all[z]) && NoCost(pr, frames, k + 1);
      }
    }
    if NoCost(pr, all, 0) {
      assert !UsesCost(pr, all[z]) && NoCost(pr, frames, 0);
    }
  }

  /** What the frames say about error and usage is what the outcome reports. */
  ghost predicate Told(pr: Protocol, frames: seq<(Byte, seq<Byte>)>, o: Outcome) {
    ErrorTold(pr, frames, o.errorCode, o.errorMessage) && UsageTold(pr, frames, o.tokens, o.cost)
  }

  lemma {:induction false} ToldSnoc(pr: Protocol, frames: seq<(Byte, seq<Byte>)>, o: Outcome, tag: Byte,
                                    body: seq<Byte>)
    requires pr.Valid() && Told(pr, frames, o)
    ensures Told(pr, frames + [(tag, body)], Dispatch(pr, o, tag, body))
  {
    var p, fr := Dispatch(pr, o, tag, body), (tag, body);
    ErrorStored(pr, o, tag, body);
    UsageStored(pr, o, tag, body);
    ErrorToldSnoc(pr, frames, fr, o.errorCode, o.errorMessage, p.errorCode, p.errorMessage);
    TokensToldSnoc(pr, frames, fr, o.tokens, p.tokens);
    CostToldSnoc(pr, frames, fr, o.cost, p.cost);
  }

  /** An event that dispatches nothing leaves frames, error and usage alone. */
  lemma {:induction false} QuietEvent(pr: Protocol, log: seq<Event>, e: Event)
    requires !(e.Close? && e.dropped == 0 && e.body != [])
    ensures Frames(log + [e]) == Frames(log)
    ensures var o, p := OutcomeOf(pr, log), OutcomeOf(pr, log + [e]);
      p.errorCode == o.errorCode && p.errorMessage == o.errorMessage && p.tokens == o.tokens && p.cost == o.cost
  {
    LogSnoc(pr, log, e);
  }

  /**
   The error a log reports is that of the last error frame it dispatched, and the usage that of the
   last usage frames, errors or not.
   */
  lemma {:induction false} LogIsTold(pr: Protocol, log: seq<Event>)
    requires pr.Valid()
    ensures Told(pr, Frames(log), OutcomeOf(pr, log))
  {
    if log != [] {
      var init, e := log[..|log| - 1], log[|log| - 1];
      assert log == init + [e];
      LogIsTold(pr, init);
      if e.Close? && e.dropped == 0 && e.body != [] {
        LogSnoc(pr, init, e);
        ToldSnoc(pr, Frames(init), OutcomeOf(pr, init), e.tag, e.body);
      } else {
        QuietEvent(pr, init, e);
      }
    }
  }

  // ---------------------------------------------------------------- what the caller sees of an unclean stream

  /** The three bytes of an unclean spot in one payload, and one by one. */
  lemma {:induction false} PairInBothCuts(f: Framing, p: Parse, tag: Byte) returns (lead: seq<Event>)
    requires f.Valid() && f.isTag(tag) && (p.mode == InText || p.mode == Held)
    ensures Finish(Feed(f, p, [RS, RS, tag])).log == lead + [Text(RS), Text(RS), Text(tag)]
    ensures Finish(Feed(f, Feed(f, Feed(f, p, [RS]), [RS]), [tag])).log == lead + [Text(RS), Open(tag)]
  {
    lead := if p.mode == Held then p.log + [Text(RS)] else p.log;
    RunHead(f, p, RS, [RS, tag]);
    RunHead(f, Step(f, p, RS), RS, [tag]);
    RunOne(f, Step(f, Step(f, p, RS), RS), tag);
    assert [RS] + [RS, tag] == [RS, RS, tag] && [RS] + [tag] == [RS, tag];
    RunOne(f, p, RS);
    RunOne(f, Feed(f, p, [RS]), RS);
    RunOne(f, Feed(f, Feed(f, p, [RS]), [RS]), tag);
  }

  lemma {:induction false} RunOne(f: Framing, p: Parse, b: Byte)
    ensures Run(f, p, [b]) == Step(f, p, b)
  {
    RunHead(f, p, b, []);
    assert [b] + [] == [b];
  }

  /** The text of a log that ends in the two ways of reading the spot. */
  lemma {:induction false} PairTexts(pr: Protocol, lead: seq<Event>, tag: Byte)
    ensures OutcomeOf(pr, lead + [Text(RS), Text(RS), Text(tag)]).text == OutcomeOf(pr, lead).text + [RS, RS, tag]
    ensures OutcomeOf(pr, lead + [Text(RS), Open(tag)]).text == OutcomeOf(pr, lead).text + [RS]
  {
    assert TextEvents([RS, RS, tag]) == [Text(RS), Text(RS), Text(tag)];
    OutcomeOfText(pr, lead, [RS, RS, tag]);
    LogSnoc(pr, lead, Text(RS));
    LogSnoc(pr, lead + [Text(RS)], Open(tag));
    assert lead + [Text(RS)] + [Open(tag)] == lead + [Text(RS), Open(tag)];
  }

  function TextUnder(pr: Protocol, cut: seq<seq<Byte>>): seq<Byte> {
    OutcomeOf(pr, Finish(FeedAll(pr.framing, START, cut)).log).text
  }

  /** The spot where a stream stops being clean. */
  lemma {:induction false} UncleanSpot(f: Framing, s: seq<Byte>) returns (u: seq<Byte>, tag: Byte)
    requires f.Valid() && !Clean(f, s)
    ensures |u| + 3 <= |s| && s[..|u| + 3] == u + [RS, RS, tag] && f.isTag(tag)
    ensures var m := FeedAll(f, START, Singletons(u)).mode; m == InText || m == Held
  {
    var k := UncleanAt(f, s);
    DoubledIsTwoRs(f, s[..k]);
    u, tag := s[..k - 2], s[k];
    assert s[..k][..k - 2] == u;
    SingletonsAreReference(f, u);
  }

  lemma {:induction false} FeedOneByOne(f: Framing, base: seq<seq<Byte>>, a: Byte, b: Byte, c: Byte)
    ensures var cut := base + [[a]] + [[b]] + [[c]];
      && Concat(cut) == Concat(base) + [a, b, c]
      && FeedAll(f, START, cut) == Feed(f, Feed(f, Feed(f, FeedAll(f, START, base), [a]), [b]), [c])
  {
    FeedAllSnoc(f, base, [a]);
    FeedAllSnoc(f, base + [[a]], [b]);
    FeedAllSnoc(f, base + [[a]] + [[b]], [c]);
  }

  lemma {:induction false} SpotTexts(pr: Protocol, base: seq<seq<Byte>>, tag: Byte)
    requires pr.Valid() && pr.framing.isTag(tag)
    requires var m := FeedAll(pr.framing, START, base).mode; m == InText || m == Held
    ensures TextUnder(pr, base + [[RS, RS, tag]]) != TextUnder(pr, base + [[RS]] + [[RS]] + [[tag]])
  {
    FeedAllSnoc(pr.framing, base, [RS, RS, tag]);
    FeedOneByOne(pr.framing, base, RS, RS, tag);
    var lead := PairInBothCuts(pr.framing, FeedAll(pr.framing, START, base), tag);
    PairTexts(pr, lead, tag);
  }

  /**
   The difference reaches the caller: every stream that is not clean has a prefix, ending at the tag in
   question, whose final text depends on the cut.
   */
  lemma {:induction false} UncleanTextDependsOnTheCut(pr: Protocol, s: seq<Byte>)
      returns (n: nat, cut: seq<seq<Byte>>, cut': seq<seq<Byte>>)
    requires pr.Valid() && !Clean(pr.framing, s)
    ensures n <= |s| && Concat(cut) == s[..n] && Concat(cut') == s[..n]
    ensures TextUnder(pr, cut) != TextUnder(pr, cut')
  {
    var u, tag := UncleanSpot(pr.framing, s);
    var base := Singletons(u);
    n, cut, cut' := |u| + 3, base + [[RS, RS, tag]], base + [[RS]] + [[RS]] + [[tag]];
    FeedAllSnoc(pr.framing, base, [RS, RS, tag]);
    FeedOneByOne(pr.framing, base, RS, RS, tag);
    SpotTexts(pr, base, tag);
  }
}
