/** The threaded chat component of src/components/Chat.tsx, as state
    transitions. The component's React state is a `ChatState`; every
    `setThreads` updater is a function from the thread list to the thread
    list, applied in the order the component issues them. The network reply
    to `fetch('/api/chat')` is a `Reply`: the decoded chunks the reader
    delivers, and whether reading ends with `done` or with a rejection. */
module Chat {
  import opened Options
  import opened Lists
  import opened Strings
  import opened Json
  import opened SseClient
  import opened Types
  import opened Store
  import opened ChunkReader

  const FallbackReply: string := "Sorry, there was an issue generating a reply."
  const TitleLength: nat := 40

  datatype ChatState = ChatState(threads: seq<Thread>, activeId: Option<string>, streaming: bool)

  /** One entry of the request's `messages`. */
  datatype WireMessage = WireMessage(role: Role, content: string)

  /** The JSON body posted to `/api/chat`. */
  datatype Request = Request(messages: seq<WireMessage>, useRag: bool)

  // ---------------------------------------------------------------------
  // The thread list

  /** The position of the first thread with the given id. */
  function IndexOf(ts: seq<Thread>, id: string): Option<nat> {
    FirstIndex(ts, (t: Thread) => t.id == id)
  }

  /** `ts.find((t) => t.id === id)` */
  function Find(ts: seq<Thread>, id: string): Option<Thread> {
    match IndexOf(ts, id)
    case None => None
    case Some(k) => Some(ts[k])
  }

  /** `ts.filter((t) => t.id !== id)` */
  function Without(ts: seq<Thread>, id: string): seq<Thread> {
    if ts == [] then []
    else if ts[0].id == id then Without(ts[1..], id)
    else [ts[0]] + Without(ts[1..], id)
  }

  /** `[t, ...ts.filter((x) => x.id !== t.id)]`: the touched thread first,
      its other copies gone. */
  function MoveToFront(ts: seq<Thread>, t: Thread): seq<Thread> {
    [t] + Without(ts, t.id)
  }

  /** No two threads share an id. */
  predicate UniqueIds(ts: seq<Thread>) {
    ts == [] || ((forall u :: u in ts[1..] ==> u.id != ts[0].id) && UniqueIds(ts[1..]))
  }

  /** The filter keeps exactly the threads with another id. */
  lemma {:induction false} WithoutMembers(ts: seq<Thread>, id: string)
    ensures forall u :: u in Without(ts, id) <==> u in ts && u.id != id
  {
    if ts != [] {
      WithoutMembers(ts[1..], id);
      assert ts == [ts[0]] + ts[1..];
    }
  }

  /** Filtering twice is filtering once. */
  lemma {:induction false} WithoutTwice(ts: seq<Thread>, id: string)
    ensures Without(Without(ts, id), id) == Without(ts, id)
  {
    if ts != [] {
      WithoutTwice(ts[1..], id);
      if ts[0].id != id {
        assert ([ts[0]] + Without(ts[1..], id))[1..] == Without(ts[1..], id);
      }
    }
  }

  /** The filter keeps the ids unique. */
  lemma {:induction false} WithoutUnique(ts: seq<Thread>, id: string)
    requires UniqueIds(ts)
    ensures UniqueIds(Without(ts, id))
  {
    if ts != [] {
      WithoutUnique(ts[1..], id);
      if ts[0].id != id {
        WithoutMembers(ts[1..], id);
        assert ([ts[0]] + Without(ts[1..], id))[1..] == Without(ts[1..], id);
      }
    }
  }

  /** Every thread-list update keeps thread ids unique, puts the touched
      thread first, and leaves the other threads in their relative order. */
  lemma MoveToFrontSpec(ts: seq<Thread>, t: Thread)
    ensures MoveToFront(ts, t)[0] == t
    ensures MoveToFront(ts, t)[1..] == Without(ts, t.id)
    ensures Without(MoveToFront(ts, t), t.id) == Without(ts, t.id)
    ensures UniqueIds(ts) ==> UniqueIds(MoveToFront(ts, t))
    ensures forall u :: u in MoveToFront(ts, t) <==> u == t || (u in ts && u.id != t.id)
  {
    var r := MoveToFront(ts, t);
    assert r[1..] == Without(ts, t.id);
    WithoutTwice(ts, t.id);
    WithoutMembers(ts, t.id);
    if UniqueIds(ts) {
      WithoutUnique(ts, t.id);
    }
  }

  /** The touched thread is found at the front. */
  lemma FindFront(ts: seq<Thread>, t: Thread)
    ensures Find(MoveToFront(ts, t), t.id) == Some(t)
  {
  }

  // ---------------------------------------------------------------------
  // Writing into the last assistant message

  predicate EndsWithAssistant(ms: seq<Message>) {
    ms != [] && ms[|ms| - 1].role == Assistant
  }

  /** `[...ms.slice(0, lastIdx), { ...last, content }]` */
  function ReplaceLastContent(ms: seq<Message>, content: string): (r: seq<Message>)
    requires ms != []
    ensures |r| == |ms| && r[..|ms| - 1] == ms[..|ms| - 1]
    ensures r[|ms| - 1] == ms[|ms| - 1].(content := content)
  {
    ms[..|ms| - 1] + [ms[|ms| - 1].(content := content)]
  }

  /** The updater `processChunk` issues for every accepted delta, and the
      one the error path issues with the fallback text: the thread's last
      message gets `content` if it is an assistant message; a missing thread
      or any other last message leaves the list as it was. */
  function SetLastAssistant(prev: seq<Thread>, id: string, content: string): seq<Thread> {
    match Find(prev, id)
    case None => prev
    case Some(cur) =>
      if !EndsWithAssistant(cur.messages) then prev
      else MoveToFront(prev, cur.(messages := ReplaceLastContent(cur.messages, content)))
  }

  /** What the updater does, case by case: nothing without the thread or
      without an assistant message at its end; otherwise the thread moves to
      the front, its last message takes the new content, and every other
      message of it and every other thread stay as they were. */
  lemma SetLastAssistantSpec(prev: seq<Thread>, id: string, content: string)
    ensures Find(prev, id).None? ==> SetLastAssistant(prev, id, content) == prev
    ensures Find(prev, id).Some? && !EndsWithAssistant(Find(prev, id).value.messages) ==>
              SetLastAssistant(prev, id, content) == prev
    ensures Find(prev, id).Some? && EndsWithAssistant(Find(prev, id).value.messages) ==>
              var cur, r := Find(prev, id).value, SetLastAssistant(prev, id, content);
              var n := |cur.messages|;
              r[0].id == id && r[0].title == cur.title && r[0].createdAt == cur.createdAt &&
              |r[0].messages| == n && r[0].messages[..n - 1] == cur.messages[..n - 1] &&
              r[0].messages[n - 1] == cur.messages[n - 1].(content := content) &&
              r[1..] == Without(prev, id)
  {
    match Find(prev, id) {
      case None =>
      case Some(cur) =>
        if EndsWithAssistant(cur.messages) {
          var t := cur.(messages := ReplaceLastContent(cur.messages, content));
          MoveToFrontSpec(prev, t);
          assert MoveToFront(prev, t)[1..] == Without(prev, id);
        }
    }
  }

  /** Later content replaces earlier content: applying the updater twice is
      applying it once with the second content. This is why the running
      buffer, not the single delta, is what the last message shows. */
  lemma SetLastAssistantTwice(prev: seq<Thread>, id: string, a: string, b: string)
    ensures SetLastAssistant(SetLastAssistant(prev, id, a), id, b) == SetLastAssistant(prev, id, b)
  {
    match Find(prev, id) {
      case None =>
      case Some(cur) =>
        if EndsWithAssistant(cur.messages) {
          var t := cur.(messages := ReplaceLastContent(cur.messages, a));
          FindFront(prev, t);
          WithoutTwice(prev, id);
          var n := |cur.messages|;
          assert ReplaceLastContent(t.messages, b) == ReplaceLastContent(cur.messages, b) by {
            assert t.messages[..n - 1] == cur.messages[..n - 1];
          }
        }
    }
  }

  /** The delta updater of one reply, as a function of the running buffer. */
  function Writer(id: string): (seq<Thread>, string) -> seq<Thread> {
    (ts: seq<Thread>, content: string) => SetLastAssistant(ts, id, content)
  }

  lemma WriterOverwrites(id: string)
    ensures Overwrites(Writer(id))
  {
    forall ts: seq<Thread>, a: string, b: string {
      SetLastAssistantTwice(ts, id, a, b);
    }
  }

  // ---------------------------------------------------------------------
  // The component's handlers

  /** `activeThread`: the thread whose id is `activeId`. */
  function ActiveThread(st: ChatState): Option<Thread> {
    if st.activeId.None? then None else Find(st.threads, st.activeId.value)
  }

  /** The auto-title rule of `onSend`: an empty or `New Thread` title becomes
      the first forty characters of the text, with no ellipsis. */
  function Retitle(t: Thread, text: string): (r: Thread)
    ensures r.id == t.id && r.createdAt == t.createdAt && r.messages == t.messages
    ensures t.title == "" || t.title == NewThreadTitle ==> r.title == Take(text, TitleLength)
    ensures t.title != "" && t.title != NewThreadTitle ==> r.title == t.title
  {
    if t.title == "" || t.title == NewThreadTitle then t.(title := Take(text, TitleLength)) else t
  }

  /** The thread `onSend` writes before fetching: the user's message, then an
      empty assistant message. */
  function SentThread(active: Thread, text: string, userId: string, assistantId: string, userAt: int, assistantAt: int): Thread {
    var userMsg := Message(userId, User, text, userAt, None);
    var assistantMsg := Message(assistantId, Assistant, "", assistantAt, None);
    AddMessageToThread(Retitle(AddMessageToThread(active, userMsg), text), assistantMsg)
  }

  /** `onSend` appends exactly the user message and an empty assistant
      message, retitles as above and keeps the thread's id. */
  lemma SentThreadSpec(active: Thread, text: string, userId: string, assistantId: string, userAt: int, assistantAt: int)
    ensures var t := SentThread(active, text, userId, assistantId, userAt, assistantAt);
      t.id == active.id && t.createdAt == active.createdAt &&
      t.messages == active.messages + [Message(userId, User, text, userAt, None), Message(assistantId, Assistant, "", assistantAt, None)] &&
      t.title == (if active.title == "" || active.title == NewThreadTitle then Take(text, TitleLength) else active.title) &&
      EndsWithAssistant(t.messages)
  {
    var userMsg := Message(userId, User, text, userAt, None);
    var assistantMsg := Message(assistantId, Assistant, "", assistantAt, None);
    AppendAssoc(active.messages, [userMsg], [assistantMsg]);
  }

  function WireMessages(ms: seq<Message>): (r: seq<WireMessage>)
    ensures |r| == |ms|
    ensures forall i :: 0 <= i < |ms| ==> r[i] == WireMessage(ms[i].role, ms[i].content)
  {
    if ms == [] then [] else [WireMessage(ms[0].role, ms[0].content)] + WireMessages(ms[1..])
  }

  /** A thread list in which the sent thread is at the front: the reply
      lands in its placeholder. */
  lemma ReplyLands(ts: seq<Thread>, t: Thread, content: string)
    requires EndsWithAssistant(t.messages)
    ensures SetLastAssistant(MoveToFront(ts, t), t.id, content) ==
            MoveToFront(ts, t.(messages := ReplaceLastContent(t.messages, content)))
  {
    FindFront(ts, t);
    WithoutTwice(ts, t.id);
  }

  /** `onSend(text)`. */
  method OnSend(st: ChatState, text: string, userId: string, assistantId: string, userAt: int, assistantAt: int,
                useRag: bool, reply: Reply, parse: string -> Option<Payload>)
    returns (st': ChatState, request: Option<Request>)
    ensures ActiveThread(st).None? ==> st' == st && request.None?
    ensures ActiveThread(st).Some? ==>
      var sent := SentThread(ActiveThread(st).value, text, userId, assistantId, userAt, assistantAt);
      request == Some(Request(WireMessages(sent.messages), useRag)) &&
      st' == ChatState(MoveToFront(st.threads, sent.(messages := ReplaceLastContent(sent.messages, CaughtReplyText(parse, FallbackReply, reply)))),
                       st.activeId, false)
  {
    var active := ActiveThread(st);
    if active.None? {
      return st, None;
    }
    var activeThread := active.value;
    var userMsg := Message(userId, User, text, userAt, None);
    var withUser := AddMessageToThread(activeThread, userMsg);
    if withUser.title == "" || withUser.title == NewThreadTitle {
      withUser := withUser.(title := Take(text, TitleLength));
    }
    var assistantMsg := Message(assistantId, Assistant, "", assistantAt, None);
    var updated := AddMessageToThread(withUser, assistantMsg);
    assert updated == SentThread(activeThread, text, userId, assistantId, userAt, assistantAt);
    SentThreadSpec(activeThread, text, userId, assistantId, userAt, assistantAt);
    var threads := MoveToFront(st.threads, updated);
    request := Some(Request(WireMessages(updated.messages), useRag));
    ghost var placeholder := ReplaceLastContent(updated.messages, "");
    assert placeholder == updated.messages;
    WriterOverwrites(updated.id);
    threads := ReadReply(Writer(updated.id), parse, FallbackReply, reply, threads);
    ghost var content := CaughtReplyText(parse, FallbackReply, reply);
    if !(reply.Body? && !reply.readFails && ChunksDeltas(parse, reply.chunks) == []) {
      ReplyLands(st.threads, updated, content);
    }
    st' := ChatState(threads, st.activeId, false);
  }

  /** The content of the regenerated message after `onRegenerate`: nothing
      when the fetch fails or there is no body, else every delta read, even
      when reading fails part-way. */
  function RegenReplyText(parse: string -> Option<Payload>, reply: Reply): string {
    match reply
    case FetchRejected => ""
    case NoBody => ""
    case Body(chunks, _) => Concat(ChunksDeltas(parse, chunks))
  }

  /** `messages.findIndex((m) => m.id === id)` */
  function MessageIndex(ms: seq<Message>, id: string): Option<nat> {
    FirstIndex(ms, (m: Message) => m.id == id)
  }

  /** The thread `onRegenerate` writes before fetching: the messages up to
      and including the chosen one, then a new empty assistant message. */
  function RegenThread(active: Thread, idx: nat, newId: string, now: int): (t: Thread)
    requires idx < |active.messages|
    ensures t.id == active.id && t.title == active.title && t.createdAt == active.createdAt
    ensures t.messages == active.messages[..idx + 1] + [Message(newId, Assistant, "", now, None)]
  {
    active.(messages := active.messages[..idx + 1] + [Message(newId, Assistant, "", now, None)])
  }

  /** `onRegenerate(messageId)`. `rejected` says whether the returned
      promise rejects: the handler has no `catch`, so a failed fetch or read
      escapes it, after `finally` has cleared `streaming`. */
  method OnRegenerate(st: ChatState, messageId: string, newId: string, now: int,
                      useRag: bool, reply: Reply, parse: string -> Option<Payload>)
    returns (st': ChatState, request: Option<Request>, rejected: bool)
    ensures ActiveThread(st).None? ==> st' == st && request.None? && !rejected
    ensures ActiveThread(st).Some? && MessageIndex(ActiveThread(st).value.messages, messageId).None? ==>
              st' == st && request.None? && !rejected
    ensures ActiveThread(st).Some? && MessageIndex(ActiveThread(st).value.messages, messageId).Some? ==>
      var regen := RegenThread(ActiveThread(st).value, MessageIndex(ActiveThread(st).value.messages, messageId).value, newId, now);
      request == Some(Request(WireMessages(regen.messages), useRag)) &&
      st' == ChatState(MoveToFront(st.threads, regen.(messages := ReplaceLastContent(regen.messages, RegenReplyText(parse, reply)))),
                       st.activeId, false) &&
      rejected == (reply.FetchRejected? || (reply.Body? && reply.readFails))
  {
    var active := ActiveThread(st);
    if active.None? {
      return st, None, false;
    }
    var activeThread := active.value;
    var idx := MessageIndex(activeThread.messages, messageId);
    if idx.None? {
      return st, None, false;
    }
    var regenThread := RegenThread(activeThread, idx.value, newId, now);
    var threads := MoveToFront(st.threads, regenThread);
    request := Some(Request(WireMessages(regenThread.messages), useRag));
    ghost var placeholder := ReplaceLastContent(regenThread.messages, "");
    assert placeholder == regenThread.messages;
    rejected := false;
    match reply {
      case FetchRejected =>
        rejected := true;
      case NoBody =>
      case Body(chunks, readFails) =>
        var buffer;
        WriterOverwrites(regenThread.id);
        threads, buffer := ReadLoop(Writer(regenThread.id), parse, chunks, threads);
        if ChunksDeltas(parse, chunks) != [] {
          ReplyLands(st.threads, regenThread, buffer);
        }
        rejected := readFails;
    }
    st' := ChatState(threads, st.activeId, false);
  }

  /** `m.feedback === kind ? undefined : kind` */
  function Toggle(f: Option<Feedback>, kind: Feedback): Option<Feedback> {
    if f == Some(kind) then None else Some(kind)
  }

  /** The `setFeedback(messageId, kind)` updater for the thread with id
      `threadId`. */
  function SetFeedback(prev: seq<Thread>, threadId: string, messageId: string, kind: Feedback): seq<Thread> {
    match Find(prev, threadId)
    case None => prev
    case Some(cur) =>
      match MessageIndex(cur.messages, messageId)
      case None => prev
      case Some(idx) =>
        var m := cur.messages[idx];
        MoveToFront(prev, cur.(messages := cur.messages[idx := m.(feedback := Toggle(m.feedback, kind))]))
  }

  /** `setFeedback` sets the message's feedback to `kind`, or clears it when
      it already is `kind`; every other message and every other thread stay
      as they were; without the thread or the message nothing changes. */
  lemma SetFeedbackSpec(prev: seq<Thread>, threadId: string, messageId: string, kind: Feedback)
    ensures Find(prev, threadId).None? ==> SetFeedback(prev, threadId, messageId, kind) == prev
    ensures Find(prev, threadId).Some? && MessageIndex(Find(prev, threadId).value.messages, messageId).None? ==>
              SetFeedback(prev, threadId, messageId, kind) == prev
    ensures Find(prev, threadId).Some? && MessageIndex(Find(prev, threadId).value.messages, messageId).Some? ==>
      var cur, r := Find(prev, threadId).value, SetFeedback(prev, threadId, messageId, kind);
      var idx := MessageIndex(cur.messages, messageId).value;
      r[0] == cur.(messages := cur.messages[idx := cur.messages[idx].(feedback := Toggle(cur.messages[idx].feedback, kind))]) &&
      r[0].id == threadId && r[0].title == cur.title && r[0].createdAt == cur.createdAt &&
      |r[0].messages| == |cur.messages| &&
      r[0].messages[idx].feedback == (if cur.messages[idx].feedback == Some(kind) then None else Some(kind)) &&
      r[0].messages[idx].id == cur.messages[idx].id && r[0].messages[idx].role == cur.messages[idx].role &&
      r[0].messages[idx].content == cur.messages[idx].content && r[0].messages[idx].createdAt == cur.messages[idx].createdAt &&
      (forall j :: 0 <= j < |cur.messages| && j != idx ==> r[0].messages[j] == cur.messages[j]) &&
      r[1..] == Without(prev, threadId)
  {
    match Find(prev, threadId) {
      case None =>
      case Some(cur) =>
        match MessageIndex(cur.messages, messageId) {
          case None =>
          case Some(idx) =>
            var m := cur.messages[idx];
            var t := cur.(messages := cur.messages[idx := m.(feedback := Toggle(m.feedback, kind))]);
            assert MoveToFront(prev, t)[1..] == Without(prev, threadId);
        }
    }
  }

  /** The handler: nothing without an active thread. */
  function OnFeedback(st: ChatState, messageId: string, kind: Feedback): (r: ChatState)
    ensures ActiveThread(st).None? ==> r == st
    ensures ActiveThread(st).Some? ==>
      r.activeId == st.activeId && r.streaming == st.streaming &&
      r.threads == SetFeedback(st.threads, ActiveThread(st).value.id, messageId, kind)
  {
    match ActiveThread(st)
    case None => st
    case Some(active) => st.(threads := SetFeedback(st.threads, active.id, messageId, kind))
  }

  /** Giving the same feedback twice restores a message that had none or
      had that feedback. */
  lemma FeedbackTwice(prev: seq<Thread>, threadId: string, messageId: string, kind: Feedback)
    requires Find(prev, threadId).Some?
    requires MessageIndex(Find(prev, threadId).value.messages, messageId).Some?
    ensures var cur := Find(prev, threadId).value;
      var idx := MessageIndex(cur.messages, messageId).value;
      cur.messages[idx].feedback != Some(if kind == Up then Down else Up) ==>
      SetFeedback(SetFeedback(prev, threadId, messageId, kind), threadId, messageId, kind) == MoveToFront(prev, cur)
  {
    var cur := Find(prev, threadId).value;
    var idx := MessageIndex(cur.messages, messageId).value;
    var m := cur.messages[idx];
    var t := cur.(messages := cur.messages[idx := m.(feedback := Toggle(m.feedback, kind))]);
    FindFront(prev, t);
    WithoutTwice(prev, threadId);
    assert MessageIndex(t.messages, messageId) == Some(idx) by {
      assert forall j :: 0 <= j < idx ==> t.messages[j] == cur.messages[j];
      FirstIndexAt(t.messages, (m: Message) => m.id == messageId, idx);
    }
    if m.feedback != Some(if kind == Up then Down else Up) {
      assert Toggle(Toggle(m.feedback, kind), kind) == m.feedback by {
        if m.feedback.Some? {
          assert m.feedback.value == kind;
        }
      }
      assert t.messages[idx := t.messages[idx].(feedback := Toggle(t.messages[idx].feedback, kind))] == cur.messages;
    }
  }


  /** `onNewThread()`: a fresh thread in front, made active. */
  function OnNewThread(st: ChatState, id: string, now: int): (st': ChatState)
    ensures st'.threads == [CreateThread(id, now)] + st.threads
    ensures st'.activeId == Some(id) && st'.streaming == st.streaming
  {
    var t := CreateThread(id, now);
    st.(threads := [t] + st.threads, activeId := Some(t.id))
  }

  /** The mount effect: the stored threads with the first one active, or,
      when there are none, one new thread that is also saved. */
  function Mount(raw: Option<Raw>, id: string, now: int): (ChatState, Option<Raw>) {
    var data := LoadThreads(raw);
    if data == [] then
      var t := CreateThread(id, now);
      (ChatState([t], Some(t.id), false), SaveThreads([t]))
    else
      (ChatState(data, if data[0].id == "" then None else Some(data[0].id), false), raw)
  }

  /** After mounting the stored threads are shown with the first one active,
      none being active when its id is empty; with none stored one new thread
      is shown, active and saved. */
  lemma MountHasActive(raw: Option<Raw>, id: string, now: int)
    ensures var (st, raw') := Mount(raw, id, now);
      st.threads != [] && !st.streaming &&
      (LoadThreads(raw) == [] ==> ActiveThread(st) == Some(CreateThread(id, now)) && LoadThreads(raw') == st.threads) &&
      (LoadThreads(raw) != [] ==> st.threads == LoadThreads(raw) && raw' == raw) &&
      (LoadThreads(raw) != [] && LoadThreads(raw)[0].id != "" ==> ActiveThread(st) == Some(LoadThreads(raw)[0])) &&
      (LoadThreads(raw) != [] && LoadThreads(raw)[0].id == "" ==> st.activeId.None? && ActiveThread(st).None?)
  {
  }
}
