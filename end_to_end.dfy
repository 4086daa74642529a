/** The bridge from end to end: what AssistantStreamToSSE writes for a run,
    read back by the chat components' decoder, and what the user finally
    sees in the assistant message. */
module EndToEnd {
  import opened Options
  import opened Strings
  import opened Json
  import opened Stream
  import opened SseClient
  import opened ChunkReader
  import ChatRoute

  /** The server stream of a run, however it is cut into reads (as long as
      each read ends at a line boundary), decodes on the client to exactly
      the texts of the message deltas that come before the run's first
      terminal event, in order. */
  lemma RunDecodes(parse: string -> Option<Payload>, es: seq<AssistantEvent>, throws: bool, chunks: seq<string>)
    requires InvertsStringify(parse)
    requires ConcatFront(chunks) == Wire(AssistantSse(es, throws).frames)
    requires forall i :: 0 <= i < |chunks| ==> LineAligned(chunks[i])
    ensures ChunksDeltas(parse, chunks) == DeliveredTexts(es)
  {
    RoundTrip(parse, AssistantSse(es, throws).frames, chunks);
    AssistantTexts(es, throws);
  }

  /** The reply a component reads from a run: the reads deliver the stream,
      and the last read rejects exactly when the stream errored. */
  function RunReply(es: seq<AssistantEvent>, throws: bool, chunks: seq<string>): Reply {
    Body(chunks, AssistantSse(es, throws).status == Errored)
  }

  /** What a component that catches read failures shows: for a run that
      closes, the delivered texts joined; for a run that fails, is cancelled
      or whose upstream throws, the fallback text. */
  lemma ShownText(parse: string -> Option<Payload>, fallback: string, es: seq<AssistantEvent>, throws: bool, chunks: seq<string>)
    requires InvertsStringify(parse)
    requires ConcatFront(chunks) == Wire(AssistantSse(es, throws).frames)
    requires forall i :: 0 <= i < |chunks| ==> LineAligned(chunks[i])
    ensures AssistantSse(es, throws).status == Closed ==>
              CaughtReplyText(parse, fallback, RunReply(es, throws, chunks)) == Concat(DeliveredTexts(es))
    ensures AssistantSse(es, throws).status == Errored ==>
              CaughtReplyText(parse, fallback, RunReply(es, throws, chunks)) == fallback
  {
    RunDecodes(parse, es, throws, chunks);
  }

  /** A run that completes shows the texts of every message delta before the
      completion. */
  lemma CompletedRunShown(parse: string -> Option<Payload>, fallback: string, pre: seq<AssistantEvent>,
                          e: AssistantEvent, post: seq<AssistantEvent>, throws: bool, chunks: seq<string>)
    requires InvertsStringify(parse)
    requires forall j :: 0 <= j < |pre| ==> !IsTerminal(pre[j])
    requires e.name == RunCompleted
    requires ConcatFront(chunks) == Wire(AssistantSse(pre + [e] + post, throws).frames)
    requires forall i :: 0 <= i < |chunks| ==> LineAligned(chunks[i])
    ensures CaughtReplyText(parse, fallback, RunReply(pre + [e] + post, throws, chunks)) == Concat(DeltaTexts(pre))
  {
    var es := pre + [e] + post;
    CompletedStops(pre, e, post, throws);
    RunDecodes(parse, es, throws, chunks);
    AssistantTexts(es, throws);
    TextsOfTextFrames(DeltaTexts(pre));
    TextsOfDone(TextFrames(DeltaTexts(pre)));
  }

  /** A one-line body that is not a `data:` line once trimmed leaves the
      placeholder empty. */
  lemma PlainBody(parse: string -> Option<Payload>, fallback: string, text: string)
    requires '\n' !in text && !StartsWith(Trim(text), DataPrefix)
    ensures CaughtReplyText(parse, fallback, Body([text], false)) == ""
  {
    SplitNoNewline(text);
    NotDataLine(parse, text);
    assert [text][1..] == [];
    assert ChunksDeltas(parse, [text]) == ChunkDeltas(parse, text) + ChunksDeltas(parse, []);
  }

  /** A one-line body that starts with a capital letter and ends with a
      lower-case one is its own trim, so it is no `data:` line and leaves the
      placeholder empty. */
  lemma CapitalisedBody(parse: string -> Option<Payload>, fallback: string, text: string)
    requires '\n' !in text && text != []
    requires 'A' <= text[0] <= 'Z' && 'a' <= text[|text| - 1] <= 'z'
    ensures CaughtReplyText(parse, fallback, Body([text], false)) == ""
  {
    TrimUnchanged(text);
    assert DataPrefix[0] == 'd';
    PlainBody(parse, fallback, text);
  }

  /** The components do not look at the response status: each plain-text
      error answer of the route decodes to no text at all, so the
      placeholder stays empty instead of showing the fallback. */
  lemma ErrorAnswerShowsNothing(parse: string -> Option<Payload>, fallback: string, text: string)
    requires text == ChatRoute.InvalidPayloadText || text == ChatRoute.NotConfiguredText || text == ChatRoute.FailedText
    ensures CaughtReplyText(parse, fallback, Body([text], false)) == ""
  {
    CapitalisedBody(parse, fallback, text);
  }
}
