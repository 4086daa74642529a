/** The flat message list of src/components/ClaudeChat.tsx and
    src/components/SimpleChat.tsx: both declare the same `{ role, content }`
    message type and the same two updaters on it. */
module FlatMessages {
  import opened Options
  import opened Types
  import opened Json
  import opened ChunkReader

  datatype Msg = Msg(role: Role, content: string)

  /** The JSON body posted to `/api/chat`; `useRag` is `None` when the
      component leaves it out. */
  datatype FlatRequest = FlatRequest(messages: seq<Msg>, useRag: Option<bool>)

  predicate EndsWithAssistant(ms: seq<Msg>) {
    ms != [] && ms[|ms| - 1].role == Assistant
  }

  /** Both updaters, the one issued per delta and the one issued with the
      fallback text: copy the list and, if its last message is an assistant
      message, give it `content`. */
  function SetLastAssistant(prev: seq<Msg>, content: string): seq<Msg> {
    if !EndsWithAssistant(prev) then prev
    else prev[..|prev| - 1] + [prev[|prev| - 1].(content := content)]
  }

  /** The updater leaves the list alone unless it ends with an assistant
      message; then only that message changes, and only its content. */
  lemma SetLastAssistantSpec(prev: seq<Msg>, content: string)
    ensures !EndsWithAssistant(prev) ==> SetLastAssistant(prev, content) == prev
    ensures EndsWithAssistant(prev) ==>
      var r, n := SetLastAssistant(prev, content), |prev|;
      |r| == n && r[..n - 1] == prev[..n - 1] && r[n - 1] == Msg(Assistant, content)
  {
  }

  /** A later write replaces an earlier one. */
  lemma SetLastAssistantTwice(prev: seq<Msg>, a: string, b: string)
    ensures SetLastAssistant(SetLastAssistant(prev, a), b) == SetLastAssistant(prev, b)
  {
    if EndsWithAssistant(prev) {
      var n := |prev|;
      var once := SetLastAssistant(prev, a);
      assert once[..n - 1] == prev[..n - 1];
    }
  }

  /** The delta updater, as a function of the running buffer. */
  function Writer(): (seq<Msg>, string) -> seq<Msg> {
    (ms: seq<Msg>, content: string) => SetLastAssistant(ms, content)
  }

  lemma WriterOverwrites()
    ensures Overwrites(Writer())
  {
    forall ms: seq<Msg>, a: string, b: string {
      SetLastAssistantTwice(ms, a, b);
    }
  }

  /** `[...prev, userMsg, assistantMsg]`: the user's text, then an empty
      assistant message. */
  function Sent(prev: seq<Msg>, text: string): seq<Msg> {
    prev + [Msg(User, text), Msg(Assistant, "")]
  }

  /** Whatever the reply writes lands in the placeholder of the send, and
      nowhere else. */
  lemma ReplyLands(prev: seq<Msg>, text: string, content: string)
    ensures SetLastAssistant(Sent(prev, text), content) == prev + [Msg(User, text), Msg(Assistant, content)]
  {
    var s := Sent(prev, text);
    assert s[..|s| - 1] == prev + [Msg(User, text)];
  }

  /** Reading the reply into a fresh send: the placeholder ends as the
      reply's text, the rest of the list as sent. */
  method StreamReply(prev: seq<Msg>, text: string, parse: string -> Option<Payload>,
                     fallback: string, reply: Reply)
    returns (ms: seq<Msg>)
    ensures ms == prev + [Msg(User, text), Msg(Assistant, CaughtReplyText(parse, fallback, reply))]
  {
    WriterOverwrites();
    ms := ReadReply(Writer(), parse, fallback, reply, Sent(prev, text));
    ReplyLands(prev, text, CaughtReplyText(parse, fallback, reply));
  }
}
