/** The single-conversation component of src/components/SimpleChat.tsx:
    its messages, composer text, streaming flag and attached files. */
module SimpleChat {
  import opened Options
  import opened Strings
  import opened Json
  import opened Types
  import opened ChunkReader
  import opened FlatMessages

  const Greeting: string := "Hi, I'm Buddy."
  const FallbackReply: string := "Sorry—something went wrong generating a reply."

  /** An attached file; only its identity matters here. */
  datatype Attachment = Attachment(name: string)

  datatype SimpleState = SimpleState(messages: seq<Msg>, value: string, streaming: bool, files: seq<Attachment>)

  /** The state the component starts in: the greeting alone. */
  function Initial(): (st: SimpleState)
    ensures st.messages == [Msg(Assistant, Greeting)] && EndsWithAssistant(st.messages)
    ensures st.value == "" && !st.streaming && st.files == []
  {
    SimpleState([Msg(Assistant, Greeting)], "", false, [])
  }

  /** `addFiles(list)`: the new files after the existing ones. */
  function AddFiles(st: SimpleState, list: seq<Attachment>): (r: SimpleState)
    ensures r.messages == st.messages && r.value == st.value && r.streaming == st.streaming
    ensures |r.files| == |st.files| + |list|
    ensures forall i :: 0 <= i < |st.files| ==> r.files[i] == st.files[i]
    ensures forall i :: 0 <= i < |list| ==> r.files[|st.files| + i] == list[i]
  {
    st.(files := st.files + list)
  }

  /** Adding files in two batches is adding them in one. */
  lemma AddFilesTwice(st: SimpleState, a: seq<Attachment>, b: seq<Attachment>)
    ensures AddFiles(AddFiles(st, a), b) == AddFiles(st, a + b)
  {
    AppendAssoc(st.files, a, b);
  }

  /** The text the placeholder ends with: the fallback when the upload or
      anything of the chat request fails, else every delta read. */
  function SendReplyText(parse: string -> Option<Payload>, uploads: bool, uploadRejects: bool, reply: Reply): string {
    if uploads && uploadRejects then FallbackReply else CaughtReplyText(parse, FallbackReply, reply)
  }

  /** `onSend()`. The composer text is trimmed; nothing happens when it is
      empty or a reply is streaming. Otherwise the composer is cleared, the
      user message and an empty assistant message are appended, the
      attached files (if any) are uploaded first, the chat request carries
      the earlier messages and the user message without a `useRag` field,
      and afterwards the placeholder holds the reply's text or the fallback,
      streaming is off and no file stays attached. A rejected upload skips
      the chat request. */
  method OnSend(st: SimpleState, uploadRejects: bool, reply: Reply, parse: string -> Option<Payload>)
    returns (st': SimpleState, upload: Option<seq<Attachment>>, request: Option<FlatRequest>)
    ensures Trim(st.value) == "" || st.streaming ==> st' == st && upload.None? && request.None?
    ensures Trim(st.value) != "" && !st.streaming ==>
      var text := Trim(st.value);
      upload == (if st.files != [] then Some(st.files) else None) &&
      request == (if st.files != [] && uploadRejects then None
                  else Some(FlatRequest(st.messages + [Msg(User, text)], None))) &&
      st' == SimpleState(st.messages + [Msg(User, text), Msg(Assistant, SendReplyText(parse, st.files != [], uploadRejects, reply))],
                         "", false, [])
  {
    var text := Trim(st.value);
    if text == "" || st.streaming {
      return st, None, None;
    }
    st' := st.(value := "");
    var userMsg := Msg(User, text);
    st' := st'.(messages := Sent(st.messages, text), streaming := true);
    upload, request := None, None;
    if |st.files| > 0 {
      upload := Some(st.files);
    }
    if |st.files| > 0 && uploadRejects {
      var ms := SetLastAssistant(st'.messages, FallbackReply);
      ReplyLands(st.messages, text, FallbackReply);
      st' := st'.(messages := ms);
    } else {
      request := Some(FlatRequest(st.messages + [userMsg], None));
      var ms := StreamReply(st.messages, text, parse, FallbackReply, reply);
      st' := st'.(messages := ms);
    }
    st' := st'.(streaming := false, files := []);
  }
}
