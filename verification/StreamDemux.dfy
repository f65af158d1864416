/**
 The stream demultiplexer: fed with payloads, it separates frames from text, accumulates the
 text and pushes UTF-8-aligned deltas to the sink while the stream is still running.
 */
module StreamDemux {
  import opened Bytes
  import opened Common
  import opened FrameParser
  import opened StreamCodec
  import opened GrowBuffer
  import opened StreamView
  import Utf8

  const TEXT_CAP := 4096

  class Stream {
    const proto: Protocol
    const hasSink: bool
    const text: Buffer
    var textSent: nat
    var reason: seq<Byte>
    var frame: seq<Byte>
    var frameTag: Byte
    var frameDropped: nat
    var prevRs: bool
    var tools: Option<seq<Byte>>
    var tokens: nat
    var cost: real
    var errorCode: int
    var errorMessage: string
    /** What the sink, if there is one, has received, in order. */
    var received: seq<seq<Byte>>
    ghost var deltas: seq<seq<Byte>>
    ghost var log: seq<Event>
    ghost var mark: nat

    /** The state as a value. */
    ghost function Now(): View
      requires text.Valid()
      reads this, text, text.data
    {
      View(Outcome(text.Contents(), reason, tools, tokens, cost, errorCode, errorMessage),
           if frameTag != 0 then InFrame(frameTag, frame, frameDropped) else if prevRs then Held else InText,
           log, textSent, deltas, mark)
    }

    /** The fields are consistent and the sink, if there is one, has received every delta. */
    ghost predicate Valid()
      reads this, text, text.data
    {
      && proto.Valid()
      && text.Valid()
      && textSent <= text.len
      && (frameTag == 0 ==> frame == [] && frameDropped == 0)
      && (frameTag != 0 ==> !prevRs)
      && received == if hasSink then deltas else []
    }

    constructor (proto: Protocol, hasSink: bool)
      requires proto.Valid()
      ensures Valid() && Now() == INITIAL
      ensures this.proto == proto && this.hasSink == hasSink
      ensures fresh(text) && text.data == null
    {
      this.proto := proto;
      this.hasSink := hasSink;
      text := new Buffer(TEXT_CAP);
      textSent, reason, frame, frameTag, frameDropped, prevRs := 0, [], [], 0, 0, false;
      tools, tokens, cost, errorCode, errorMessage := None, 0, 0.0, 0, "";
      received, deltas, log, mark := [], [], [], 0;
    }

    /**
     Hands the sink the bytes up to `safe`, NUL-terminated in place: the terminator is written
     over the buffer and the byte under it restored.
     */
    method Push(safe: nat)
      requires text.Valid() && text.data != null && textSent < safe <= text.len
      requires received == if hasSink then deltas else []
      modifies this`textSent, this`received, this`deltas, text.data
      ensures text.Valid()
      ensures Now() == old(Now()).(sent := safe, deltas := old(deltas) + [old(text.Contents())[old(textSent)..safe]])
      ensures received == if hasSink then deltas else []
    {
      var from := textSent;
      textSent := safe;
      deltas := deltas + [text.Contents()[from..safe]];
      if hasSink {
        var saved := text.data[safe];
        text.data[safe] := 0;
        received := received + [text.data[from..safe]];
        text.data[safe] := saved;
        assert text.data[..text.len] == old(text.data[..text.len]);
        SubSlice(text.data[..], from, safe, text.len);
      }
    }

    /** Pushes the text up to its last character boundary. */
    method PushBoundary()
      requires text.Valid() && text.data != null && textSent <= text.len
      requires received == if hasSink then deltas else []
      modifies this`textSent, this`received, this`deltas, text.data
      ensures text.Valid() && Now() == PushAligned(old(Now()))
      ensures received == if hasSink then deltas else []
    {
      var tail := Utf8.ScanTail(text.data, text.len);
      if text.len - tail > textSent {
        Push(text.len - tail);
      }
    }

    method AppendText(bytes: seq<Byte>)
      requires text.Valid()
      modifies this`log, text, text.data
      ensures text.Valid() && Now() == Append(old(Now()), bytes)
      ensures text.data != old(text.data) ==> text.data != null && fresh(text.data)
    {
      var ok := text.Add(bytes, true);
      log := log + TextEvents(bytes);
    }

    method Accumulate(bytes: seq<Byte>)
      requires Valid() && bytes != []
      modifies this`textSent, this`received, this`deltas, this`log, text, text.data
      ensures Valid() && Now() == Emit(old(Now()), bytes)
      ensures text.data != old(text.data) ==> text.data != null && fresh(text.data)
    {
      AppendText(bytes);
      assert text.len == |Now().out.text| > 0;
      PushBoundary();
    }

    /** Accumulates text and pushes the prefix that ends on a character boundary. */
    method EmitText(bytes: seq<Byte>)
      requires Valid()
      modifies this`textSent, this`received, this`deltas, this`log, text, text.data
      ensures Valid() && Now() == Emit(old(Now()), bytes)
      ensures text.data != old(text.data) ==> text.data != null && fresh(text.data)
    {
      if bytes != [] {
        Accumulate(bytes);
      }
    }

    method DropGathered()
      requires text.Valid()
      modifies this`textSent, this`reason, this`tools, this`mark, text
      ensures text.Valid() && text.data == null
      ensures Now() == old(Now()).(out := old(Now()).out.(text := [], reason := [], tools := None),
                                   sent := 0, mark := |deltas|)
    {
      text.Free();
      textSent, reason, tools, mark := 0, [], None, |deltas|;
    }

    /** An error frame: the whole stream failed, what was gathered is discarded. */
    method TakeError()
      requires text.Valid()
      modifies this`errorCode, this`errorMessage, this`textSent, this`reason, this`tools, this`mark, text
      ensures text.Valid() && text.data == null
      ensures Now() == old(Now()).(out := WithError(proto, old(Now()).out, frame), sent := 0, mark := |deltas|)
    {
      var e := proto.errorOf(frame);
      errorCode, errorMessage := ErrorCode(e), ErrorMessage(e);
      DropGathered();
    }

    method TakeUsage()
      requires text.Valid()
      modifies this`tokens, this`cost
      ensures Now() == old(Now()).(out := WithUsage(proto, old(Now()).out, frame))
    {
      var usage := proto.usageOf(frame);
      if usage.None? {
        return;
      }
      var u := usage.value;
      var total := Positive(u.total);
      if total == 0 {
        total := Positive(u.prompt) + Positive(u.completion);
      }
      if total > 0 {
        tokens := total;
      }
      if u.cost.Some? {
        cost := u.cost.value;
      }
    }

    method TakeTools()
      requires text.Valid()
      modifies this`tools
      ensures var out := old(Now()).out;
        Now() == old(Now()).(out := out.(tools := if proto.isToolArray(frame) then Some(frame) else out.tools))
    {
      if proto.isToolArray(frame) {
        tools := Some(frame);
      }
    }

    /** The effect of a complete frame, by tag. */
    method TakeFrame()
      requires proto.Valid() && text.Valid()
      modifies this`errorCode, this`errorMessage, this`textSent, this`reason, this`tools, this`mark,
               this`tokens, this`cost, text
      ensures text.Valid() && Now() == Deliver(proto, old(Now()), frameTag, frame)
      ensures text.data == old(text.data) || text.data == null
    {
      if frameTag == proto.toolTag {
        TakeTools();
      } else if frameTag == proto.reasonTag {
        reason := reason + frame;
      } else if frameTag == proto.usageTag {
        TakeUsage();
      } else if frameTag == proto.errorTag {
        TakeError();
      }
    }

    /** A body takes effect unless bytes were dropped or it is empty. */
    method TakeComplete()
      requires proto.Valid() && text.Valid() && frameTag != 0
      modifies this`errorCode, this`errorMessage, this`textSent, this`reason, this`tools, this`mark,
               this`tokens, this`cost, text
      ensures text.Valid() && Now() == TakeBody(proto, old(Now()))
      ensures text.data == old(text.data) || text.data == null
    {
      if frameDropped > 0 {
      } else if |frame| > 0 {
        TakeFrame();
      }
    }

    method ResetFrame()
      requires text.Valid() && frameTag != 0 && !prevRs
      modifies this`log, this`frameTag, this`frame, this`frameDropped
      ensures frameTag == 0 && frame == [] && frameDropped == 0
      ensures Now() == EndFrame(old(Now()), old(Now()).mode)
    {
      log := log + [Close(frameTag, frame, frameDropped)];
      frameTag, frame, frameDropped := 0, [], 0;
    }

    /** A frame closes. */
    method DispatchFrame()
      requires Valid() && frameTag != 0
      modifies this, text
      ensures Valid() && frameTag == 0 && !prevRs && Now() == CloseFrame(proto, old(Now()))
      ensures text.data == old(text.data) || text.data == null
    {
      TakeComplete();
      ResetFrame();
    }

    /** One byte of a frame. */
    method TakeByte(c: Byte)
      requires Valid() && frameTag != 0
      modifies this, text
      ensures Valid() && !prevRs && Now() == DrainByte(proto, old(Now()), c)
      ensures text.data == old(text.data) || text.data == null
    {
      if c == RS {
        DispatchFrame();
      } else if frameDropped == 0 && |frame| + 1 < proto.framing.frameMax {
        frame := frame + [c];
      } else {
        frameDropped := frameDropped + 1;
      }
    }

    /** Takes frame bytes until the closing RS; returns how many were consumed. */
    method Drain(data: seq<Byte>) returns (n: nat)
      requires Valid() && frameTag != 0
      modifies this, text
      ensures Valid() && !prevRs && n <= |data| && (frameTag != 0 ==> n == |data|)
      ensures (if frameTag != 0 then Now() else Scan(proto, Now(), data[n..])) == InsideFrame(proto, old(Now()), data)
      ensures text.data == old(text.data) || text.data == null
    {
      n := 0;
      ghost var goal := InsideFrame(proto, Now(), data);
      while n < |data| && frameTag != 0
        invariant Valid() && !prevRs && n <= |data|
        invariant (if frameTag != 0 then InsideFrame(proto, Now(), data[n..])
          else Scan(proto, Now(), data[n..])) == goal
        invariant text.data == old(text.data) || text.data == null
      {
        assert data[n..][1..] == data[n + 1..];
        TakeByte(data[n]);
        n := n + 1;
      }
    }

    /** Opens a frame and takes the bytes of the payload that belong to it. */
    method EnterFrame(tag: Byte, data: seq<Byte>) returns (n: nat)
      requires Valid() && frameTag == 0 && !prevRs && proto.framing.isTag(tag)
      modifies this, text
      ensures Valid() && !prevRs && n <= |data| && (frameTag != 0 ==> n == |data|)
      ensures (if frameTag != 0 then Now() else Scan(proto, Now(), data[n..]))
           == InsideFrame(proto, OpenFrame(old(Now()), tag), data)
      ensures text.data == old(text.data) || text.data == null
    {
      frameTag := tag;
      log := log + [Open(tag)];
      n := Drain(data);
    }

    /** The RS at position `i`; `stop` says that it was the last the payload has to offer. */
    method TakeRs(data: seq<Byte>, i: nat) returns (next: nat, stop: bool)
      requires Valid() && frameTag == 0 && !prevRs && i < |data|
      modifies this, text, text.data
      ensures Valid() && i < next <= |data| && (!stop ==> frameTag == 0 && !prevRs)
      ensures (if stop then Now() else Scan(proto, Now(), data[next..])) == AtRs(proto, old(Now()), data[i..])
      ensures text.data != old(text.data) && text.data != null ==> fresh(text.data)
    {
      ghost var rest, goal := data[i..], AtRs(proto, Now(), data[i..]);
      if i + 1 < |data| && proto.framing.isTag(data[i + 1]) {
        assert data[i + 2..] == rest[2..];
        assert goal == InsideFrame(proto, OpenFrame(Now(), data[i + 1]), data[i + 2..]);
        var n := EnterFrame(data[i + 1], data[i + 2..]);
        assert data[i + 2..][n..] == data[i + 2 + n..];
        next, stop := i + 2 + n, frameTag != 0;
        assert goal == if stop then Now() else Scan(proto, Now(), data[next..]);
      } else if i + 1 >= |data| {
        prevRs := true;
        next, stop := i + 1, true;
      } else {
        assert data[i..i + 2] == rest[..2] && data[i + 2..] == rest[2..];
        EmitText(data[i..i + 2]);
        next, stop := i + 2, false;
      }
    }

    /** The text before the RS at position `i`, and that RS. */
    method TakeSegment(data: seq<Byte>, start: nat, i: nat) returns (next: nat, stop: bool)
      requires Valid() && frameTag == 0 && !prevRs && start <= i < |data| && data[i] == RS
      requires forall k :: start <= k < i ==> data[k] != RS
      modifies this, text, text.data
      ensures Valid() && i < next <= |data| && (!stop ==> frameTag == 0 && !prevRs)
      ensures (if stop then Now() else Scan(proto, Now(), data[next..])) == Scan(proto, old(Now()), data[start..])
      ensures text.data != old(text.data) && text.data != null ==> fresh(text.data)
    {
      FirstRsAt(data, start, i);
      ghost var goal := Scan(proto, Now(), data[start..]);
      assert goal == AtRs(proto, Emit(Now(), data[start..i]), data[i..]);
      EmitText(data[start..i]);
      next, stop := TakeRs(data, i);
    }

    /** The scan of a payload from position `from`, in text mode. */
    method ScanText(data: seq<Byte>, from: nat)
      requires Valid() && frameTag == 0 && !prevRs && from <= |data|
      modifies this, text, text.data
      ensures Valid() && Now() == Scan(proto, old(Now()), data[from..])
      ensures text.data != old(text.data) && text.data != null ==> fresh(text.data)
    {
      var i, start := from, from;
      ghost var goal := Scan(proto, Now(), data[from..]);
      while i < |data|
        invariant Valid() && frameTag == 0 && !prevRs
        invariant from <= start <= i <= |data| && forall k :: start <= k < i ==> data[k] != RS
        invariant Scan(proto, Now(), data[start..]) == goal
        invariant text.data != old(text.data) && text.data != null ==> fresh(text.data)
      {
        if data[i] != RS {
          i := i + 1;
        } else {
          var stop;
          i, stop := TakeSegment(data, start, i);
          if stop {
            return;
          }
          start := i;
        }
      }
      TakeRest(data, start);
    }

    /** Text without RS up to the payload's end. */
    method TakeRest(data: seq<Byte>, start: nat)
      requires Valid() && start <= |data| && forall k :: start <= k < |data| ==> data[k] != RS
      modifies this`textSent, this`received, this`deltas, this`log, text, text.data
      ensures Valid() && Now() == Scan(proto, old(Now()), data[start..])
      ensures text.data != old(text.data) ==> text.data != null && fresh(text.data)
    {
      ScanWithoutRs(proto, Now(), data[start..]);
      EmitText(data[start..]);
    }

    /** The first byte after a held RS decides; `i` is where the text scan resumes. */
    method ResolveHeld(data: seq<Byte>) returns (i: nat)
      requires Valid() && frameTag == 0 && prevRs && data != []
      modifies this, text, text.data
      ensures Valid() && !prevRs && i <= |data|
      ensures (if frameTag != 0 then Now() else Scan(proto, Now(), data[i..])) == FeedView(proto, old(Now()), data)
      ensures text.data != old(text.data) && text.data != null ==> fresh(text.data)
    {
      ghost var goal := FeedView(proto, Now(), data);
      prevRs := false;
      if proto.framing.isTag(data[0]) {
        assert goal == InsideFrame(proto, OpenFrame(Now(), data[0]), data[1..]);
        var n := EnterFrame(data[0], data[1..]);
        assert data[1..][n..] == data[1 + n..];
        i := 1 + n;
      } else {
        EmitText([RS]);
        i := 0;
        assert data[0..] == data;
      }
    }

    /** One payload. */
    method Feed(data: seq<Byte>)
      requires Valid()
      modifies this, text, text.data
      ensures Valid() && Now() == FeedView(proto, old(Now()), data)
      ensures text.data != old(text.data) && text.data != null ==> fresh(text.data)
    {
      if data == [] {
        return;
      }
      var i := 0;
      if frameTag != 0 {
        i := Drain(data);
      } else if prevRs {
        i := ResolveHeld(data);
      } else {
        assert data[0..] == data;
      }
      if frameTag != 0 {
        return;
      }
      ScanText(data, i);
    }

    /** The payloads of one stream, in order of arrival. */
    method FeedPayloads(payloads: seq<seq<Byte>>)
      requires Valid() && Now() == INITIAL
      modifies this, text, text.data
      ensures Valid() && Now() == FeedAllView(proto, payloads)
      ensures text.data != old(text.data) && text.data != null ==> fresh(text.data)
    {
      var i := 0;
      while i < |payloads|
        invariant i <= |payloads| && Valid() && Now() == FeedAllView(proto, payloads[..i])
        invariant text.data != old(text.data) && text.data != null ==> fresh(text.data)
      {
        assert payloads[..i + 1][..i] == payloads[..i];
        Feed(payloads[i]);
        i := i + 1;
      }
      assert payloads[..i] == payloads;
    }

    /** Pushes whatever text is still held back. */
    method FlushText()
      requires Valid()
      modifies this`textSent, this`received, this`deltas
      ensures Valid() && Now() == Flush(old(Now()))
    {
      if text.len > textSent {
        ghost var whole := text.Contents();
        assert text.data[textSent..text.len] == whole[textSent..];
        deltas := deltas + [whole[textSent..]];
        if hasSink {
          received := received + [text.data[textSent..text.len]];
        }
        textSent := text.len;
      }
    }

    /** End of stream. */
    method Finish()
      requires Valid()
      modifies this, text, text.data
      ensures Valid() && Now() == FinishView(old(Now()))
      ensures text.data != old(text.data) && text.data != null ==> fresh(text.data)
    {
      if frameTag != 0 {
        frameTag, frame, frameDropped := 0, [], 0;
      } else if prevRs {
        prevRs := false;
        EmitText([RS]);
      }
      FlushText();
    }

    /** Hands the outcome over; text, reasoning and tools leave the stream. */
    method Take() returns (out: Outcome)
      requires Valid()
      modifies this`textSent, this`reason, this`tools, text
      ensures out == old(Now()).out
      ensures text.Valid() && text.data == null && textSent == 0 && reason == [] && tools == None
    {
      var bytes := if text.data == null then [] else text.data[..text.len];
      out := Outcome(bytes, reason, tools, tokens, cost, errorCode, errorMessage);
      text.Free();
      textSent, reason, tools := 0, [], None;
    }
  }

  /**
   One streamed reply: initialise, feed every payload, finish, take. The caller gets what the
   reference automaton reads in the whole stream, provided no tag directly follows two or more
   text-mode RS bytes; what the sink received since the last error frame is the text, always.
   */
  method Receive(proto: Protocol, hasSink: bool, payloads: seq<seq<Byte>>)
      returns (out: Outcome, received: seq<seq<Byte>>, ghost mark: nat)
    requires proto.Valid()
    ensures out == OutcomeOf(proto, FrameParser.Finish(FeedAll(proto.framing, START, payloads)).log)
    ensures Clean(proto.framing, Concat(payloads)) ==>
      out == OutcomeOf(proto, RefLog(proto.framing, Concat(payloads)))
    ensures Told(proto, Frames(FrameParser.Finish(FeedAll(proto.framing, START, payloads)).log), out)
    ensures mark == FinishView(FeedAllView(proto, payloads)).mark
    ensures hasSink ==> received == FinishView(FeedAllView(proto, payloads)).deltas
    ensures hasSink ==> mark <= |received| && Concat(received[mark..]) == out.text
    ensures !hasSink ==> received == []
    ensures hasSink && Clean(proto.framing, Concat(payloads)) &&
      ErrorFree(proto, RefLog(proto.framing, Concat(payloads)))
      ==> Concat(received) == out.text
  {
    var st := new Stream(proto, hasSink);
    st.FeedPayloads(payloads);
    st.Finish();
    WholeStream(proto, payloads);
    received, mark := st.received, st.mark;
    out := st.Take();
  }

  lemma {:induction false} SubSlice(s: seq<Byte>, from: nat, to: nat, len: nat)
    requires from <= to <= len <= |s|
    ensures s[..len][from..to] == s[from..to]
  {
  }

  /** The scan's position of the next RS, in terms of the whole payload. */
  lemma {:induction false} FirstRsAt(data: seq<Byte>, start: nat, i: nat)
    requires start <= i <= |data| && forall k :: start <= k < i ==> data[k] != RS
    requires i < |data| ==> data[i] == RS
    ensures FirstRs(data[start..]) == i - start
    ensures data[start..][..i - start] == data[start..i] && data[start..][i - start..] == data[i..]
  {
    var rest, k := data[start..], FirstRs(data[start..]);
    assert rest[..i - start] == data[start..i];
  }
}
