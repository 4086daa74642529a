/** The send handler of src/components/ClaudeChat.tsx over its flat message
    list. */
module ClaudeChat {
  import opened Options
  import opened Types
  import opened Json
  import opened ChunkReader
  import opened FlatMessages

  const FallbackReply: string := "Sorry, there was an issue generating a reply."

  /** The component state the handler reads and writes: the messages, the
      composer's text and the streaming flag. */
  datatype ClaudeState = ClaudeState(messages: seq<Msg>, value: string, streaming: bool)

  /** `onSendWithText(text)`. Nothing happens for an empty text or while a
      reply streams. Otherwise the composer is cleared, the user message and
      an empty assistant message are appended, the request carries the
      earlier messages and the user message (not the placeholder) with
      `useRag: true`, the placeholder ends as the reply's text or the
      fallback, and streaming ends. */
  method OnSendWithText(st: ClaudeState, text: string, reply: Reply, parse: string -> Option<Payload>)
    returns (st': ClaudeState, request: Option<FlatRequest>)
    ensures text == "" || st.streaming ==> st' == st && request.None?
    ensures text != "" && !st.streaming ==>
      request == Some(FlatRequest(st.messages + [Msg(User, text)], Some(true))) &&
      st' == ClaudeState(st.messages + [Msg(User, text), Msg(Assistant, CaughtReplyText(parse, FallbackReply, reply))], "", false)
  {
    if text == "" || st.streaming {
      return st, None;
    }
    st' := st.(value := "");
    var userMsg := Msg(User, text);
    st' := st'.(messages := Sent(st.messages, text), streaming := true);
    request := Some(FlatRequest(st.messages + [userMsg], Some(true)));
    var ms := StreamReply(st.messages, text, parse, FallbackReply, reply);
    st' := st'.(messages := ms, streaming := false);
  }
}
