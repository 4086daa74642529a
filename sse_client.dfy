/** The client half of the bridge: the line filter that every chat
    component runs over each chunk it reads (`processChunk` in
    src/components/Chat.tsx, src/components/ClaudeChat.tsx and
    src/components/SimpleChat.tsx). A chunk is split on line feeds, each line
    is trimmed, only `data:` lines count, a `[DONE]` payload is skipped, a
    payload that does not parse is skipped, and an accepted event contributes
    its `delta`. Each chunk is decoded on its own: nothing is carried from one
    read to the next, and `[DONE]` does not stop the decoding. */
module SseClient {
  import opened Options
  import opened Strings
  import opened Json
  import Stream

  const DataPrefix: string := "data:"
  const DonePayload: string := "[DONE]"

  /** The payload of a `data:` line: the line trimmed, its first five
      characters dropped and the rest trimmed again. */
  function LineData(line: string): Option<string> {
    var trimmed := Trim(line);
    if StartsWith(trimmed, DataPrefix) then Some(Trim(SliceFrom(trimmed, 5))) else None
  }

  /** The delta one line contributes, if any. */
  function LineDelta(parse: string -> Option<Payload>, line: string): Option<string> {
    match LineData(line)
    case None => None
    case Some(data) =>
      if data == DonePayload then None
      else
        match parse(data)
        case None => None
        case Some(evt) => AcceptedDelta(evt)
  }

  /** The deltas of a list of lines, in order. */
  function LinesDeltas(parse: string -> Option<Payload>, lines: seq<string>): (r: seq<string>)
    ensures |r| <= |lines|
  {
    if lines == [] then []
    else
      var d := LineDelta(parse, lines[|lines| - 1]);
      LinesDeltas(parse, lines[..|lines| - 1]) + (if d.Some? then [d.value] else [])
  }

  /** The deltas of one chunk read from the response body. */
  function ChunkDeltas(parse: string -> Option<Payload>, chunk: string): seq<string> {
    LinesDeltas(parse, Split(chunk))
  }

  /** The deltas of successive chunks, each decoded on its own. */
  function ChunksDeltas(parse: string -> Option<Payload>, chunks: seq<string>): seq<string> {
    if chunks == [] then [] else ChunkDeltas(parse, chunks[0]) + ChunksDeltas(parse, chunks[1..])
  }

  /** One more read appends its deltas. */
  lemma {:induction false} ChunksDeltasSnoc(parse: string -> Option<Payload>, chunks: seq<string>, c: string)
    ensures ChunksDeltas(parse, chunks + [c]) == ChunksDeltas(parse, chunks) + ChunkDeltas(parse, c)
  {
    if chunks == [] {
      assert chunks + [c] == [c];
      assert [c][1..] == [];
    } else {
      assert (chunks + [c])[1..] == chunks[1..] + [c];
      ChunksDeltasSnoc(parse, chunks[1..], c);
      AppendAssoc(ChunkDeltas(parse, chunks[0]), ChunksDeltas(parse, chunks[1..]), ChunkDeltas(parse, c));
    }
  }

  lemma {:induction false} LinesDeltasAppend(parse: string -> Option<Payload>, a: seq<string>, b: seq<string>)
    ensures LinesDeltas(parse, a + b) == LinesDeltas(parse, a) + LinesDeltas(parse, b)
    decreases |b|
  {
    if b == [] {
      assert a + b == a;
    } else {
      var n := |b| - 1;
      assert (a + b)[..|a + b| - 1] == a + b[..n];
      assert (a + b)[|a + b| - 1] == b[n];
      LinesDeltasAppend(parse, a, b[..n]);
    }
  }

  lemma LinesDeltasCons(parse: string -> Option<Payload>, line: string, rest: seq<string>)
    ensures LinesDeltas(parse, [line] + rest) ==
            (if LineDelta(parse, line).Some? then [LineDelta(parse, line).value] else []) + LinesDeltas(parse, rest)
  {
    LinesDeltasAppend(parse, [line], rest);
    assert [line][..0] == [];
  }

  /** A `data:` line whose payload does not parse is skipped on its own:
      the lines around it decode as if it were not there. */
  lemma MalformedLineSkipped(parse: string -> Option<Payload>, before: seq<string>, line: string, after: seq<string>)
    requires LineData(line).Some? && LineData(line).value != DonePayload
    requires parse(LineData(line).value).None?
    ensures LinesDeltas(parse, before + [line] + after) == LinesDeltas(parse, before) + LinesDeltas(parse, after)
  {
    LinesDeltasAppend(parse, before + [line], after);
    LinesDeltasAppend(parse, before, [line]);
    assert [line][..0] == [];
    assert LinesDeltas(parse, before) + [] == LinesDeltas(parse, before);
  }

  /** An empty line carries nothing. */
  lemma EmptyLine(parse: string -> Option<Payload>)
    ensures LineDelta(parse, "") == None
  {
    assert Trim("") == "";
  }

  /** A frame line as the server writes it, `data: ` followed by a JSON object,
      yields that object as its payload. */
  lemma FrameLineData(json: string)
    requires |json| >= 2 && json[0] == '{' && json[|json| - 1] == '}'
    ensures LineData("data: " + json) == Some(json)
  {
    var line := "data: " + json;
    TrimUnchanged(line);
    assert line[..5] == DataPrefix;
    assert SliceFrom(line, 5) == [' '] + json;
    TrimDropsLeadingSpace(' ', json);
    TrimUnchanged(json);
  }

  /** The sentinel line yields `[DONE]`, which the filter skips. */
  lemma DoneLineSkipped(parse: string -> Option<Payload>)
    ensures LineData("data: [DONE]") == Some(DonePayload)
    ensures LineDelta(parse, "data: [DONE]") == None
  {
    var line := "data: [DONE]";
    TrimUnchanged(line);
    assert line[..5] == DataPrefix;
    assert SliceFrom(line, 5) == [' '] + DonePayload;
    TrimDropsLeadingSpace(' ', DonePayload);
    TrimUnchanged(DonePayload);
  }

  /** A text frame's line yields its delta when the parser reads back what
      the server serialised. */
  lemma TextLineDelta(parse: string -> Option<Payload>, d: string)
    requires InvertsStringify(parse)
    ensures LineDelta(parse, "data: " + StringifyDelta(d)) == Some(d)
  {
    var json := StringifyDelta(d);
    FrameLineData(json);
    assert json[..1] == "{";
    assert json != DonePayload by {
      assert DonePayload[0] == '[';
    }
  }

  /** The lines of one frame on the wire: the `data:` line, then the empty
      line that ends the event. */
  lemma {:induction false} FrameSplit(f: Stream.Frame, rest: string)
    ensures Split(Stream.FrameWire(f) + rest) == [FrameLine(f)] + ([""] + Split(rest))
  {
    var line := FrameLine(f);
    assert '\n' !in line;
    assert Stream.FrameWire(f) + rest == line + "\n" + ("" + "\n" + rest);
    SplitAtNewline(line, "" + "\n" + rest);
    SplitAtNewline("", rest);
    SplitNoNewline(line);
    assert Split("") == [""];
  }

  /** The `data:` line of a frame. */
  function FrameLine(f: Stream.Frame): (r: string)
    ensures Stream.FrameWire(f) == r + "\n\n"
    ensures '\n' !in r
  {
    match f
    case TextFrame(d) => "data: " + StringifyDelta(d)
    case DoneFrame => "data: [DONE]"
  }

  /** An empty read decodes to nothing. */
  lemma EmptyChunk(parse: string -> Option<Payload>)
    ensures ChunkDeltas(parse, "") == []
  {
    EmptyLine(parse);
    assert Split("") == [""];
    assert LinesDeltas(parse, [""]) == LinesDeltas(parse, [""][..0]);
  }

  /** One frame on the wire decodes to its own text, if it carries one, in
      front of whatever follows it. */
  lemma FrameDecodes(parse: string -> Option<Payload>, f: Stream.Frame, rest: string)
    requires InvertsStringify(parse)
    ensures ChunkDeltas(parse, Stream.FrameWire(f) + rest) == Stream.Texts([f]) + ChunkDeltas(parse, rest)
  {
    var line := FrameLine(f);
    FrameSplit(f, rest);
    LinesDeltasCons(parse, line, [""] + Split(rest));
    LinesDeltasCons(parse, "", Split(rest));
    EmptyLine(parse);
    match f {
      case TextFrame(d) => TextLineDelta(parse, d);
      case DoneFrame => DoneLineSkipped(parse);
    }
  }

  /** Decoding the whole wire in one piece gives back every text fragment, in
      order: the client reads exactly what the server wrote. */
  lemma {:induction false} WireDecodes(parse: string -> Option<Payload>, fs: seq<Stream.Frame>)
    requires InvertsStringify(parse)
    ensures ChunkDeltas(parse, Stream.Wire(fs)) == Stream.Texts(fs)
  {
    if fs == [] {
      EmptyChunk(parse);
    } else {
      FrameDecodes(parse, fs[0], Stream.Wire(fs[1..]));
      WireDecodes(parse, fs[1..]);
      assert fs == [fs[0]] + fs[1..];
      Stream.TextsAppend([fs[0]], fs[1..]);
    }
  }

  /** A chunk that ends at a line boundary: empty or ending in a line feed. */
  predicate LineAligned(chunk: string) {
    chunk == [] || chunk[|chunk| - 1] == '\n'
  }

  /** A read that ends with a line feed decodes like its text before it. */
  lemma FinalNewline(parse: string -> Option<Payload>, a: string)
    ensures ChunkDeltas(parse, a + "\n") == LinesDeltas(parse, Split(a))
  {
    assert a + "\n" == a + "\n" + "";
    SplitAtNewline(a, "");
    EmptyChunk(parse);
    LinesDeltasAppend(parse, Split(a), Split(""));
  }

  /** A line-aligned chunk decodes the same in front of anything. */
  lemma AlignedPrefix(parse: string -> Option<Payload>, c: string, rest: string)
    requires LineAligned(c)
    ensures ChunkDeltas(parse, c + rest) == ChunkDeltas(parse, c) + ChunkDeltas(parse, rest)
  {
    if c == [] {
      EmptyChunk(parse);
      assert c + rest == rest;
    } else {
      var a := c[..|c| - 1];
      assert c == a + "\n";
      SplitAtNewline(a, rest);
      LinesDeltasAppend(parse, Split(a), Split(rest));
      FinalNewline(parse, a);
    }
  }

  /** Chunks that split only at line boundaries decode to what the text in
      one piece decodes to. */
  lemma {:induction false} AlignedChunks(parse: string -> Option<Payload>, chunks: seq<string>)
    requires forall i :: 0 <= i < |chunks| ==> LineAligned(chunks[i])
    ensures ChunksDeltas(parse, chunks) == ChunkDeltas(parse, ConcatFront(chunks))
  {
    if chunks == [] {
      EmptyLine(parse);
      assert Split("") == [""];
      assert LinesDeltas(parse, [""]) == LinesDeltas(parse, [""][..0]);
    } else {
      AlignedChunks(parse, chunks[1..]);
      AlignedPrefix(parse, chunks[0], ConcatFront(chunks[1..]));
    }
  }

  /** `chunks.join("")`, built from the front. */
  function ConcatFront(chunks: seq<string>): string {
    if chunks == [] then "" else chunks[0] + ConcatFront(chunks[1..])
  }

  /** The encoder-decoder round trip: however the server's frames are cut
      into reads, as long as each read ends at a line boundary, the client
      decodes exactly the server's text fragments, in order. */
  lemma RoundTrip(parse: string -> Option<Payload>, fs: seq<Stream.Frame>, chunks: seq<string>)
    requires InvertsStringify(parse)
    requires ConcatFront(chunks) == Stream.Wire(fs)
    requires forall i :: 0 <= i < |chunks| ==> LineAligned(chunks[i])
    ensures ChunksDeltas(parse, chunks) == Stream.Texts(fs)
  {
    AlignedChunks(parse, chunks);
    WireDecodes(parse, fs);
  }

  /** A line followed by one empty line decodes like the line alone. */
  lemma LineThenBlank(parse: string -> Option<Payload>, line: string)
    requires '\n' !in line
    ensures ChunkDeltas(parse, line + "\n\n") == LinesDeltas(parse, [line])
  {
    assert line + "\n\n" == (line + "\n") + "\n";
    FinalNewline(parse, line + "\n");
    FinalNewline(parse, line);
    SplitNoNewline(line);
  }

  /** A line that is not a `data:` line contributes nothing. */
  lemma NotDataLine(parse: string -> Option<Payload>, line: string)
    requires !StartsWith(Trim(line), DataPrefix)
    ensures LinesDeltas(parse, [line]) == []
  {
    assert [line][..0] == [];
  }

  /** Nothing is carried over between reads: a frame whose line is cut
      inside `data:` is lost, although the same text in one read yields its
      delta. */
  lemma CutLineIsLost(parse: string -> Option<Payload>, d: string)
    requires InvertsStringify(parse)
    ensures ChunksDeltas(parse, ["da", "ta: " + StringifyDelta(d) + "\n\n"]) == []
    ensures ChunkDeltas(parse, "da" + "ta: " + StringifyDelta(d) + "\n\n") == [d]
  {
    SecondHalfLost(parse, d);
    WholeFrameRead(parse, d);
  }

  lemma SecondHalfLost(parse: string -> Option<Payload>, d: string)
    ensures ChunksDeltas(parse, ["da", "ta: " + StringifyDelta(d) + "\n\n"]) == []
  {
    var json := StringifyDelta(d);
    var tail := "ta: " + json;
    // the first read is the single line "da"
    SplitNoNewline("da");
    TrimUnchanged("da");
    NotDataLine(parse, "da");
    // the second read is the line "ta: {...}" and an empty line
    assert '\n' !in tail;
    LineThenBlank(parse, tail);
    TrimUnchanged(tail);
    assert Trim(tail)[0] == 't';
    NotDataLine(parse, tail);
    assert ["da", tail + "\n\n"][1..] == [tail + "\n\n"];
    assert ChunksDeltas(parse, [tail + "\n\n"]) == ChunkDeltas(parse, tail + "\n\n") + ChunksDeltas(parse, []);
  }

  lemma WholeFrameRead(parse: string -> Option<Payload>, d: string)
    requires InvertsStringify(parse)
    ensures ChunkDeltas(parse, "da" + "ta: " + StringifyDelta(d) + "\n\n") == [d]
  {
    var json := StringifyDelta(d);
    var w := Stream.FrameWire(Stream.TextFrame(d));
    assert "da" + "ta: " == "data: ";
    assert w + "" == w;
    FrameDecodes(parse, Stream.TextFrame(d), "");
    EmptyChunk(parse);
    assert Stream.Texts([Stream.TextFrame(d)]) == [d] + Stream.Texts([]);
  }

  /** `[DONE]` does not end decoding: text after the sentinel, in the same
      read, is still delivered. */
  lemma DoneDoesNotStop(parse: string -> Option<Payload>, d: string)
    requires InvertsStringify(parse)
    ensures ChunkDeltas(parse, Stream.Wire([Stream.DoneFrame, Stream.TextFrame(d)])) == [d]
  {
    WireDecodes(parse, [Stream.DoneFrame, Stream.TextFrame(d)]);
    assert [Stream.DoneFrame, Stream.TextFrame(d)][1..] == [Stream.TextFrame(d)];
    assert Stream.Texts([Stream.TextFrame(d)]) == [d] + Stream.Texts([]);
  }
}
