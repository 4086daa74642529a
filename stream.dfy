/** The server half of the bridge (src/lib/stream.ts): two normalisers that
    turn an upstream event sequence into SSE frames written to a response
    stream, ending it either with a single `data: [DONE]` frame and a close,
    or with an error and no sentinel. */
module Stream {
  import opened Options
  import opened Strings
  import opened Json

  /** What the upstream async iterator delivers: its events in order, and
      then either the end of iteration or an exception. */
  datatype Upstream<E> = Upstream(events: seq<E>, throws: bool)

  /** One frame enqueued on the response stream. */
  datatype Frame = TextFrame(delta: string) | DoneFrame

  /** How the response stream ends: `controller.close()` or `controller.error(..)`. */
  datatype Status = Closed | Errored

  /** The whole output of a normaliser. */
  datatype Sse = Sse(frames: seq<Frame>, status: Status)

  /** The bytes of one frame (before UTF-8 encoding). */
  function FrameWire(f: Frame): string {
    match f
    case TextFrame(d) => "data: " + StringifyDelta(d) + "\n\n"
    case DoneFrame => "data: [DONE]\n\n"
  }

  /** The bytes of a frame sequence, in order. */
  function Wire(fs: seq<Frame>): string {
    if fs == [] then "" else FrameWire(fs[0]) + Wire(fs[1..])
  }

  /** Every frame is a text frame. */
  predicate AllText(fs: seq<Frame>) {
    fs == [] || (fs[0].TextFrame? && AllText(fs[1..]))
  }

  /** The stream is well terminated: a closed stream is text frames followed
      by one `[DONE]`; an errored stream is text frames only. */
  predicate Terminated(r: Sse) {
    match r.status
    case Closed => |r.frames| > 0 && r.frames[|r.frames| - 1] == DoneFrame && AllText(r.frames[..|r.frames| - 1])
    case Errored => AllText(r.frames)
  }

  lemma {:induction false} AllTextHasNoDone(fs: seq<Frame>)
    requires AllText(fs)
    ensures DoneFrame !in fs
  {
    if fs != [] {
      AllTextHasNoDone(fs[1..]);
      assert fs == [fs[0]] + fs[1..];
    }
  }

  /** In a well-terminated stream `[DONE]` occurs at most once, only as the
      last frame, and exactly when the stream was closed. */
  lemma {:induction false} AtMostOneDone(r: Sse)
    requires Terminated(r)
    ensures DoneFrame in r.frames <==> r.status == Closed
    ensures forall i :: 0 <= i < |r.frames| && r.frames[i] == DoneFrame ==> i == |r.frames| - 1
  {
    var fs := r.frames;
    if r.status == Closed {
      AllTextHasNoDone(fs[..|fs| - 1]);
      forall i | 0 <= i < |fs| - 1 ensures fs[i] != DoneFrame {
        assert fs[i] == fs[..|fs| - 1][i];
      }
    } else {
      AllTextHasNoDone(fs);
    }
  }

  /** One text frame per fragment, in order. */
  function TextFrames(ts: seq<string>): (r: seq<Frame>)
    ensures |r| == |ts|
  {
    if ts == [] then [] else [TextFrame(ts[0])] + TextFrames(ts[1..])
  }

  lemma {:induction false} AllTextFrames(ts: seq<string>)
    ensures AllText(TextFrames(ts))
  {
    if ts != [] {
      AllTextFrames(ts[1..]);
      assert TextFrames(ts)[1..] == TextFrames(ts[1..]);
    }
  }

  lemma {:induction false} AllTextAppend(a: seq<Frame>, b: seq<Frame>)
    requires AllText(a) && AllText(b)
    ensures AllText(a + b)
  {
    if a == [] {
      assert a + b == b;
    } else {
      assert (a + b)[1..] == a[1..] + b;
      AllTextAppend(a[1..], b);
    }
  }

  lemma {:induction false} TextFramesAppend(a: seq<string>, b: seq<string>)
    ensures TextFrames(a + b) == TextFrames(a) + TextFrames(b)
  {
    if a == [] {
      assert a + b == b;
    } else {
      assert (a + b)[1..] == a[1..] + b;
      TextFramesAppend(a[1..], b);
    }
  }

  /** The text fragments carried by a frame sequence, in order. */
  function Texts(fs: seq<Frame>): seq<string> {
    if fs == [] then []
    else match fs[0]
      case TextFrame(d) => [d] + Texts(fs[1..])
      case DoneFrame => Texts(fs[1..])
  }

  lemma {:induction false} TextsOfTextFrames(ts: seq<string>)
    ensures Texts(TextFrames(ts)) == ts
  {
    if ts != [] {
      TextsOfTextFrames(ts[1..]);
    }
  }

  lemma {:induction false} TextsAppend(a: seq<Frame>, b: seq<Frame>)
    ensures Texts(a + b) == Texts(a) + Texts(b)
  {
    if a != [] {
      assert (a + b)[1..] == a[1..] + b;
      TextsAppend(a[1..], b);
    } else {
      assert a + b == b;
    }
  }

  lemma TextsOfDone(fs: seq<Frame>)
    ensures Texts(fs + [DoneFrame]) == Texts(fs)
  {
    TextsAppend(fs, [DoneFrame]);
  }

  // ---------------------------------------------------------------------
  // OpenAIToSSE: chat-completion chunks

  datatype ChoiceDelta = ChoiceDelta(content: Option<string>)
  datatype Choice = Choice(delta: Option<ChoiceDelta>)
  /** A chat-completion chunk; `choices` may be missing. */
  datatype CompletionChunk = CompletionChunk(choices: Option<seq<Choice>>)

  /** The text a chunk carries: `choices[0].delta.content` when the chunk has
      at least one choice and that content is a non-empty string. */
  function ChunkContent(c: CompletionChunk): (r: Option<string>)
    ensures r.Some? ==> r.value != ""
    ensures r.Some? <==>
      c.choices.Some? && |c.choices.value| > 0 && c.choices.value[0].delta.Some? &&
      c.choices.value[0].delta.value.content.Some? && c.choices.value[0].delta.value.content.value != ""
    ensures r.Some? ==> r == c.choices.value[0].delta.value.content
  {
    if c.choices.Some? && |c.choices.value| > 0 then
      var delta := c.choices.value[0].delta;
      if delta.Some? && delta.value.content.Some? && delta.value.content.value != "" then
        delta.value.content
      else None
    else None
  }

  /** The texts of the chunks that carry one, in order. */
  function ChunkTexts(cs: seq<CompletionChunk>): (r: seq<string>)
    ensures |r| <= |cs|
  {
    if cs == [] then []
    else
      var last := ChunkContent(cs[|cs| - 1]);
      ChunkTexts(cs[..|cs| - 1]) + (if last.Some? then [last.value] else [])
  }

  /** What OpenAIToSSE writes for an upstream of chat-completion chunks. */
  function OpenAISse(up: Upstream<CompletionChunk>): (r: Sse)
    ensures Terminated(r)
    ensures Texts(r.frames) == ChunkTexts(up.events)
    ensures r.status == Errored <==> up.throws
  {
    var frames := TextFrames(ChunkTexts(up.events));
    TextsOfTextFrames(ChunkTexts(up.events));
    AllTextFrames(ChunkTexts(up.events));
    if up.throws then Sse(frames, Errored)
    else
      TextsOfDone(frames);
      assert (frames + [DoneFrame])[..|frames|] == frames;
      Sse(frames + [DoneFrame], Closed)
  }

  /** A single chunk with non-empty content gives exactly one text frame
      with that content, verbatim, before the sentinel; any other chunk
      gives none. */
  lemma {:induction false} OneChunk(c: CompletionChunk)
    ensures OpenAISse(Upstream([c], false)).frames ==
      (if ChunkContent(c).Some? then [TextFrame(ChunkContent(c).value)] else []) + [DoneFrame]
  {
    assert [c][..0] == [];
  }

  method OpenAIToSSE(up: Upstream<CompletionChunk>) returns (r: Sse)
    ensures r == OpenAISse(up)
  {
    var frames: seq<Frame> := [];
    for i := 0 to |up.events|
      invariant frames == TextFrames(ChunkTexts(up.events[..i]))
    {
      assert up.events[..i + 1][..i] == up.events[..i];
      var content := ChunkContent(up.events[i]);
      if content.Some? {
        frames := frames + [TextFrame(content.value)];
      }
      TextFramesAppend(ChunkTexts(up.events[..i]), if content.Some? then [content.value] else []);
    }
    assert up.events[..|up.events|] == up.events;
    if up.throws {
      r := Sse(frames, Errored);
    } else {
      r := Sse(frames + [DoneFrame], Closed);
    }
  }

  // ---------------------------------------------------------------------
  // AssistantStreamToSSE: assistant-run lifecycle events

  const MessageDelta: string := "thread.message.delta"
  const RunCompleted: string := "thread.run.completed"
  const RunFailed: string := "thread.run.failed"
  const RunCancelled: string := "thread.run.cancelled"

  /** One part of a message delta: its `type` and its `text?.value`. */
  datatype ContentPart = ContentPart(kind: string, value: Option<string>)

  /** An assistant-stream event: its `event` name and, for message deltas,
      `data?.delta?.content`. */
  datatype AssistantEvent = AssistantEvent(name: string, content: Option<seq<ContentPart>>)

  /** The branch of the normaliser an event name selects, checked in the
      normaliser's order. */
  datatype EventKind = DeltaEvent | CompletedEvent | FailedEvent | OtherEvent

  function Kind(e: AssistantEvent): EventKind {
    if e.name == MessageDelta then DeltaEvent
    else if e.name == RunCompleted then CompletedEvent
    else if e.name == RunFailed || e.name == RunCancelled then FailedEvent
    else OtherEvent
  }

  /** A part contributes a frame when its type is `text` and its value is a
      non-empty string. */
  function PartText(p: ContentPart): (r: Option<string>)
    ensures r.Some? <==> p.kind == "text" && p.value.Some? && p.value.value != ""
    ensures r.Some? ==> r == p.value
  {
    if p.kind == "text" && p.value.Some? && p.value.value != "" then p.value else None
  }

  function PartTexts(ps: seq<ContentPart>): (r: seq<string>)
    ensures |r| <= |ps|
  {
    if ps == [] then []
    else
      var last := PartText(ps[|ps| - 1]);
      PartTexts(ps[..|ps| - 1]) + (if last.Some? then [last.value] else [])
  }

  /** The texts one event contributes: those of its text parts when it is a
      message delta, none otherwise. */
  function EventTexts(e: AssistantEvent): seq<string> {
    if Kind(e) == DeltaEvent && e.content.Some? then PartTexts(e.content.value) else []
  }

  /** An event that ends the run: completed, failed or cancelled. */
  predicate IsTerminal(e: AssistantEvent) {
    Kind(e) == CompletedEvent || Kind(e) == FailedEvent
  }

  /** Frames written before a stream's own frames. */
  function Prepend(fs: seq<Frame>, r: Sse): Sse {
    Sse(fs + r.frames, r.status)
  }

  /** What AssistantStreamToSSE writes, event by event: a message delta puts
      its text frames in front of what the rest produces; a completion writes
      `[DONE]` and closes; a failure or cancellation errors the stream; any
      other event is skipped; when the events run out, the fallback `[DONE]`
      closes the stream unless the iteration threw. */
  function AssistantSse(es: seq<AssistantEvent>, throws: bool): Sse
    decreases |es|
  {
    if es == [] then
      if throws then Sse([], Errored) else Sse([DoneFrame], Closed)
    else
      match Kind(es[0])
      case CompletedEvent => Sse([DoneFrame], Closed)
      case FailedEvent => Sse([], Errored)
      case _ => Prepend(TextFrames(EventTexts(es[0])), AssistantSse(es[1..], throws))
  }

  /** Text frames in front keep a stream well terminated. */
  lemma {:induction false} TerminatedPrefix(ts: seq<string>, r: Sse)
    requires Terminated(r)
    ensures Terminated(Prepend(TextFrames(ts), r))
  {
    var tf := TextFrames(ts);
    AllTextFrames(ts);
    if r.status == Closed {
      var n := |r.frames|;
      assert (tf + r.frames)[..|tf| + n - 1] == tf + r.frames[..n - 1];
      AllTextAppend(tf, r.frames[..n - 1]);
    } else {
      AllTextAppend(tf, r.frames);
    }
  }

  /** Every assistant stream is well terminated: at most one `[DONE]`, and
      only as the last frame of a closed stream. */
  lemma {:induction false} AssistantSseTerminated(es: seq<AssistantEvent>, throws: bool)
    ensures Terminated(AssistantSse(es, throws))
    decreases |es|
  {
    if es != [] && !IsTerminal(es[0]) {
      AssistantSseTerminated(es[1..], throws);
      TerminatedPrefix(EventTexts(es[0]), AssistantSse(es[1..], throws));
    }
  }

  /** The texts that reach the client: those of the message deltas before
      the first terminal event. */
  function DeliveredTexts(es: seq<AssistantEvent>): seq<string> {
    if es == [] || IsTerminal(es[0]) then [] else EventTexts(es[0]) + DeliveredTexts(es[1..])
  }

  /** The text frames of the stream carry exactly the delivered texts. */
  lemma {:induction false} AssistantTexts(es: seq<AssistantEvent>, throws: bool)
    ensures Texts(AssistantSse(es, throws).frames) == DeliveredTexts(es)
    decreases |es|
  {
    if es == [] || IsTerminal(es[0]) {
      assert Texts([DoneFrame]) == Texts([DoneFrame][1..]);
    } else {
      AssistantTexts(es[1..], throws);
      TextsAppend(TextFrames(EventTexts(es[0])), AssistantSse(es[1..], throws).frames);
      TextsOfTextFrames(EventTexts(es[0]));
    }
  }

  /** The texts of the message-delta events, in order. */
  function DeltaTexts(es: seq<AssistantEvent>): seq<string> {
    if es == [] then [] else EventTexts(es[0]) + DeltaTexts(es[1..])
  }

  /** The position of the first event that ends the run, if there is one. */
  function FirstTerminal(es: seq<AssistantEvent>): (r: Option<nat>)
    ensures r.Some? ==> r.value < |es| && IsTerminal(es[r.value])
    ensures r.Some? ==> forall j :: 0 <= j < r.value ==> !IsTerminal(es[j])
    ensures r.None? ==> forall j :: 0 <= j < |es| ==> !IsTerminal(es[j])
  {
    if es == [] then None
    else if IsTerminal(es[0]) then Some(0)
    else
      match FirstTerminal(es[1..])
      case None => None
      case Some(k) => Some(k + 1)
  }

  /** A completed run ends the stream with `[DONE]`: nothing the upstream
      sends after the completion event is consumed, and whether it would have
      thrown later does not matter. */
  lemma {:induction false} CompletedStops(pre: seq<AssistantEvent>, e: AssistantEvent,
                                          post: seq<AssistantEvent>, throws: bool)
    requires forall j :: 0 <= j < |pre| ==> !IsTerminal(pre[j])
    requires e.name == RunCompleted
    ensures AssistantSse(pre + [e] + post, throws) == Sse(TextFrames(DeltaTexts(pre)) + [DoneFrame], Closed)
    decreases |pre|
  {
    if pre == [] {
      assert ([] + [e] + post)[0] == e;
    } else {
      assert (pre + [e] + post)[1..] == pre[1..] + [e] + post;
      CompletedStops(pre[1..], e, post, throws);
      TextFramesAppend(EventTexts(pre[0]), DeltaTexts(pre[1..]));
    }
  }

  /** A failed or cancelled run errors the stream, and no `[DONE]` is sent. */
  lemma {:induction false} FailedErrors(pre: seq<AssistantEvent>, e: AssistantEvent,
                                        post: seq<AssistantEvent>, throws: bool)
    requires forall j :: 0 <= j < |pre| ==> !IsTerminal(pre[j])
    requires e.name == RunFailed || e.name == RunCancelled
    ensures AssistantSse(pre + [e] + post, throws) == Sse(TextFrames(DeltaTexts(pre)), Errored)
    ensures DoneFrame !in AssistantSse(pre + [e] + post, throws).frames
    decreases |pre|
  {
    if pre == [] {
      assert ([] + [e] + post)[0] == e;
    } else {
      assert (pre + [e] + post)[1..] == pre[1..] + [e] + post;
      FailedErrors(pre[1..], e, post, throws);
      TextFramesAppend(EventTexts(pre[0]), DeltaTexts(pre[1..]));
    }
    AllTextFrames(DeltaTexts(pre));
    AllTextHasNoDone(TextFrames(DeltaTexts(pre)));
  }

  /** Without a terminal event the fallback `[DONE]` closes the stream,
      unless iteration threw, in which case it errors without one. */
  lemma {:induction false} Fallback(es: seq<AssistantEvent>, throws: bool)
    requires forall j :: 0 <= j < |es| ==> !IsTerminal(es[j])
    ensures AssistantSse(es, throws) ==
            if throws then Sse(TextFrames(DeltaTexts(es)), Errored)
            else Sse(TextFrames(DeltaTexts(es)) + [DoneFrame], Closed)
    decreases |es|
  {
    if es != [] {
      Fallback(es[1..], throws);
      TextFramesAppend(EventTexts(es[0]), DeltaTexts(es[1..]));
    }
  }

  /** Events that are neither message deltas nor terminal produce nothing. */
  lemma {:induction false} IgnoredEvent(pre: seq<AssistantEvent>, e: AssistantEvent,
                                        post: seq<AssistantEvent>, throws: bool)
    requires Kind(e) == OtherEvent
    ensures AssistantSse(pre + [e] + post, throws) == AssistantSse(pre + post, throws)
    decreases |pre|
  {
    if pre == [] {
      assert ([] + [e] + post)[1..] == post;
      assert [] + post == post;
    } else {
      assert (pre + [e] + post)[1..] == pre[1..] + [e] + post;
      assert (pre + post)[1..] == pre[1..] + post;
      assert (pre + [e] + post)[0] == (pre + post)[0];
      IgnoredEvent(pre[1..], e, post, throws);
    }
  }

  /** The normaliser's output in one formula: the text frames of the message
      deltas before the first terminal event, then `[DONE]` and a close if that
      event is a completion, an error if it is a failure or a cancellation;
      with no terminal event, the fallback `[DONE]` unless iteration threw. */
  lemma AssistantSseClosedForm(es: seq<AssistantEvent>, throws: bool)
    ensures AssistantSse(es, throws) ==
      match FirstTerminal(es)
      case Some(k) =>
        if Kind(es[k]) == CompletedEvent then Sse(TextFrames(DeltaTexts(es[..k])) + [DoneFrame], Closed)
        else Sse(TextFrames(DeltaTexts(es[..k])), Errored)
      case None =>
        if throws then Sse(TextFrames(DeltaTexts(es)), Errored)
        else Sse(TextFrames(DeltaTexts(es)) + [DoneFrame], Closed)
  {
    match FirstTerminal(es) {
      case Some(k) =>
        var pre := es[..k];
        assert es == pre + [es[k]] + es[k + 1..];
        assert forall j :: 0 <= j < |pre| ==> pre[j] == es[j];
        if Kind(es[k]) == CompletedEvent {
          CompletedStops(pre, es[k], es[k + 1..], throws);
        } else {
          FailedErrors(pre, es[k], es[k + 1..], throws);
        }
      case None =>
        Fallback(es, throws);
    }
  }

  /** The inner loop of AssistantStreamToSSE: one text frame per text part
      of a message delta, appended to what was already written. */
  method EnqueueParts(written: seq<Frame>, parts: seq<ContentPart>) returns (frames: seq<Frame>)
    ensures frames == written + TextFrames(PartTexts(parts))
  {
    frames := written;
    for j := 0 to |parts|
      invariant frames == written + TextFrames(PartTexts(parts[..j]))
    {
      assert parts[..j + 1][..j] == parts[..j];
      var text := PartText(parts[j]);
      if text.Some? {
        frames := frames + [TextFrame(text.value)];
      }
      TextFramesAppend(PartTexts(parts[..j]), if text.Some? then [text.value] else []);
    }
    assert parts[..|parts|] == parts;
  }

  /** The step of AssistantSse past an event that does not end the run. */
  lemma PassOn(es: seq<AssistantEvent>, throws: bool)
    requires es != [] && !IsTerminal(es[0])
    ensures AssistantSse(es, throws) == Prepend(TextFrames(EventTexts(es[0])), AssistantSse(es[1..], throws))
  {
  }

  method AssistantStreamToSSE(up: Upstream<AssistantEvent>) returns (r: Sse)
    ensures r == AssistantSse(up.events, up.throws)
  {
    var frames: seq<Frame> := [];
    for i := 0 to |up.events|
      invariant AssistantSse(up.events, up.throws) == Prepend(frames, AssistantSse(up.events[i..], up.throws))
    {
      var e := up.events[i];
      ghost var rest := AssistantSse(up.events[i + 1..], up.throws);
      assert up.events[i..][0] == e && up.events[i..][1..] == up.events[i + 1..];
      var kind := Kind(e);
      if kind == DeltaEvent {
        ghost var before := frames;
        if e.content.Some? && |e.content.value| > 0 {
          frames := EnqueueParts(frames, e.content.value);
        }
        assert frames == before + TextFrames(EventTexts(e));
        PassOn(up.events[i..], up.throws);
        AppendAssoc(before, TextFrames(EventTexts(e)), rest.frames);
      } else if kind == CompletedEvent {
        r := Sse(frames + [DoneFrame], Closed);
        return;
      } else if kind == FailedEvent {
        r := Sse(frames, Errored);
        return;
      } else {
        PassOn(up.events[i..], up.throws);
        assert [] + rest.frames == rest.frames;
      }
    }
    if up.throws {
      r := Sse(frames, Errored);
    } else {
      r := Sse(frames + [DoneFrame], Closed);
    }
  }
}
