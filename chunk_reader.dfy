/** The read side every chat component shares: `processChunk` and the
    `while (true)` loop over `reader.read()` in src/components/Chat.tsx,
    src/components/ClaudeChat.tsx and src/components/SimpleChat.tsx. The
    three copies differ only in the state updater they issue after each
    accepted delta, so the updater is a parameter here: `write(s, buffer)`
    writes the running buffer into the state `s`. All three updaters
    overwrite — a later write replaces an earlier one — and that is all the
    loop's contract needs of them. */
module ChunkReader {
  import opened Options
  import opened Strings
  import opened Json
  import opened SseClient

  /** What `fetch('/api/chat')` gives: a rejection, a response without a
      body, or a body whose reader delivers `chunks` and then either reports
      `done` or rejects. */
  datatype Reply = FetchRejected | NoBody | Body(chunks: seq<string>, readFails: bool)

  /** A later write replaces an earlier one. */
  ghost predicate Overwrites<S(!new)>(write: (S, string) -> S) {
    forall s: S, a: string, b: string :: write(write(s, a), b) == write(s, b)
  }

  /** The state after `deltas` have been read into `buffer`: unchanged when
      there were none, otherwise the buffer written into it. */
  function Streamed<S(!new)>(write: (S, string) -> S, s: S, deltas: seq<string>, buffer: string): S {
    if deltas == [] then s else write(s, buffer)
  }

  /** Reading `added` after `seen`. */
  lemma StreamedChunk<S(!new)>(write: (S, string) -> S, s: S, seen: seq<string>, before: string,
                         added: seq<string>, after: string)
    requires Overwrites(write)
    requires after == before + Concat(added)
    ensures Streamed(write, Streamed(write, s, seen, before), added, after) == Streamed(write, s, seen + added, after)
  {
    if added == [] {
      assert seen + added == seen;
      assert before + "" == before;
    } else if seen != [] {
      assert write(write(s, before), after) == write(s, after);
    } else {
      assert seen + added == added;
    }
  }

  /** One line of `processChunk`: the buffer grows by the line's delta, and
      the state follows it. */
  lemma LineStep<S(!new)>(write: (S, string) -> S, parse: string -> Option<Payload>, lines: seq<string>, i: nat,
                    buffer: string, cur: string, s: S)
    requires Overwrites(write)
    requires i < |lines|
    requires cur == buffer + Concat(LinesDeltas(parse, lines[..i]))
    ensures var d := LineDelta(parse, lines[i]);
      var next := if d.Some? then cur + d.value else cur;
      next == buffer + Concat(LinesDeltas(parse, lines[..i + 1])) &&
      (d.Some? ==> write(Streamed(write, s, LinesDeltas(parse, lines[..i]), cur), next) ==
                   Streamed(write, s, LinesDeltas(parse, lines[..i + 1]), next)) &&
      (d.None? ==> Streamed(write, s, LinesDeltas(parse, lines[..i + 1]), next) ==
                   Streamed(write, s, LinesDeltas(parse, lines[..i]), cur))
  {
    assert lines[..i + 1][..i] == lines[..i];
    ghost var seen := LinesDeltas(parse, lines[..i]);
    var d := LineDelta(parse, lines[i]);
    if d.Some? {
      assert LinesDeltas(parse, lines[..i + 1]) == seen + [d.value];
      if seen != [] {
        assert write(write(s, cur), cur + d.value) == write(s, cur + d.value);
      }
      assert Concat(seen + [d.value]) == Concat(seen) + d.value by {
        assert (seen + [d.value])[..|seen|] == seen;
      }
      AppendAssoc(buffer, Concat(seen), d.value);
    } else {
      assert LinesDeltas(parse, lines[..i + 1]) == seen + [];
      assert seen + [] == seen;
    }
  }

  /** `processChunk(chunk)`: the chunk is split on line feeds; for each line
      that is, once trimmed, a `data:` line whose trimmed payload is not
      `[DONE]`, parses, and is an accepted text event, the delta is appended
      to the buffer and the buffer is written into the state. The buffer
      grows by exactly the chunk's deltas, in order. */
  method ProcessChunk<S(!new)>(write: (S, string) -> S, parse: string -> Option<Payload>, chunk: string,
                         s: S, buffer: string)
    returns (s': S, buffer': string)
    requires Overwrites(write)
    ensures buffer' == buffer + Concat(ChunkDeltas(parse, chunk))
    ensures s' == Streamed(write, s, ChunkDeltas(parse, chunk), buffer')
  {
    var lines := Split(chunk);
    s', buffer' := s, buffer;
    for i := 0 to |lines|
      invariant buffer' == buffer + Concat(LinesDeltas(parse, lines[..i]))
      invariant s' == Streamed(write, s, LinesDeltas(parse, lines[..i]), buffer')
    {
      LineStep(write, parse, lines, i, buffer, buffer', s);
      var trimmed := Trim(lines[i]);
      if StartsWith(trimmed, DataPrefix) {
        var data := Trim(SliceFrom(trimmed, 5));
        if data != DonePayload {
          var evt := parse(data);
          if evt.Some? && evt.value.kind == Str(DeltaType) && evt.value.delta.Str? {
            buffer' := buffer' + evt.value.delta.s;
            s' := write(s', buffer');
          }
        }
      }
    }
    assert lines[..|lines|] == lines;
  }

  /** The read loop: every chunk the reader delivers is processed in order
      with one buffer for the whole reply; only the reader's `done` ends it
      (a `[DONE]` payload does not). The buffer ends as every delta of every
      chunk, and the state as that buffer written once. */
  method ReadLoop<S(!new)>(write: (S, string) -> S, parse: string -> Option<Payload>, chunks: seq<string>, s: S)
    returns (s': S, buffer: string)
    requires Overwrites(write)
    ensures buffer == Concat(ChunksDeltas(parse, chunks))
    ensures s' == Streamed(write, s, ChunksDeltas(parse, chunks), buffer)
  {
    s', buffer := s, "";
    var i := 0;
    while i < |chunks|
      invariant 0 <= i <= |chunks|
      invariant buffer == Concat(ChunksDeltas(parse, chunks[..i]))
      invariant s' == Streamed(write, s, ChunksDeltas(parse, chunks[..i]), buffer)
    {
      ghost var seen := ChunksDeltas(parse, chunks[..i]);
      ghost var before := buffer;
      s', buffer := ProcessChunk(write, parse, chunks[i], s', buffer);
      assert chunks[..i + 1] == chunks[..i] + [chunks[i]];
      ChunksDeltasSnoc(parse, chunks[..i], chunks[i]);
      ConcatAppend(seen, ChunkDeltas(parse, chunks[i]));
      StreamedChunk(write, s, seen, before, ChunkDeltas(parse, chunks[i]), buffer);
      i := i + 1;
    }
    assert chunks[..|chunks|] == chunks;
  }

  /** The text the reply leaves in the placeholder when every failure —
      the fetch, a missing body, the read — is caught and answered with
      `fallback`: the fallback, or every delta read. */
  function CaughtReplyText(parse: string -> Option<Payload>, fallback: string, reply: Reply): string {
    match reply
    case FetchRejected => fallback
    case NoBody => fallback
    case Body(chunks, readFails) => if readFails then fallback else Concat(ChunksDeltas(parse, chunks))
  }

  /** Reading a reply and then, on a failure, writing `fallback`: the state
      ends as the reply's text written once, or unchanged when a successful
      read yielded no delta. */
  method ReadReply<S(!new)>(write: (S, string) -> S, parse: string -> Option<Payload>, fallback: string,
                      reply: Reply, s: S)
    returns (s': S)
    requires Overwrites(write)
    ensures reply.Body? && !reply.readFails && ChunksDeltas(parse, reply.chunks) == [] ==> s' == s
    ensures !(reply.Body? && !reply.readFails && ChunksDeltas(parse, reply.chunks) == []) ==>
              s' == write(s, CaughtReplyText(parse, fallback, reply))
  {
    match reply {
      case FetchRejected =>
        s' := write(s, fallback);
      case NoBody =>
        s' := write(s, fallback);
      case Body(chunks, readFails) =>
        var buffer;
        s', buffer := ReadLoop(write, parse, chunks, s);
        if readFails {
          s' := write(s', fallback);
          if ChunksDeltas(parse, chunks) != [] {
            assert write(write(s, buffer), fallback) == write(s, fallback);
          }
        }
    }
  }
}
