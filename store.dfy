/** The thread helpers of src/lib/store.ts. The browser's `localStorage`
    entry is a value of type `Option<Raw>` (`None` when nothing is stored or
    the stored text is empty); what `JSON.parse` makes of the stored text is
    one of the cases of `Raw`. */
module Store {
  import opened Options
  import opened Types

  /** The stored text, as `JSON.parse` reads it: an array of threads, some
      other JSON value, or text that does not parse. */
  datatype Raw = ThreadArray(threads: seq<Thread>) | OtherJson | Unparseable

  const NewThreadTitle: string := "New Thread"

  /** `loadThreads()`: the stored threads, or none when nothing usable is
      stored. */
  function LoadThreads(raw: Option<Raw>): (r: seq<Thread>)
    ensures raw.None? ==> r == []
    ensures raw.Some? && !raw.value.ThreadArray? ==> r == []
    ensures raw.Some? && raw.value.ThreadArray? ==> r == raw.value.threads
  {
    match raw
    case None => []
    case Some(ThreadArray(ts)) => ts
    case Some(_) => []
  }

  /** `saveThreads(ts)`: the entry afterwards. */
  function SaveThreads(ts: seq<Thread>): Option<Raw> {
    Some(ThreadArray(ts))
  }

  /** Loading what was saved gives back the same threads. */
  lemma LoadAfterSave(ts: seq<Thread>)
    ensures LoadThreads(SaveThreads(ts)) == ts
  {
  }

  /** `createThread()`, with the random id and the clock as parameters. */
  function CreateThread(id: string, now: int): (t: Thread)
    ensures t.id == id && t.createdAt == now
    ensures t.title == NewThreadTitle && t.messages == []
  {
    Thread(id, NewThreadTitle, now, [])
  }

  /** `addMessageToThread(thread, msg)`: a copy of the thread with the
      message at the end; the thread passed in is a value and stays as it
      was. */
  function AddMessageToThread(t: Thread, m: Message): (r: Thread)
    ensures r.id == t.id && r.title == t.title && r.createdAt == t.createdAt
    ensures r.messages == t.messages + [m]
  {
    t.(messages := t.messages + [m])
  }

  /** Adding messages one at a time. */
  function AddMessages(t: Thread, ms: seq<Message>): Thread
    decreases |ms|
  {
    if ms == [] then t else AddMessages(AddMessageToThread(t, ms[0]), ms[1..])
  }

  /** Messages added one at a time end up after the existing ones, in the
      order they were added; nothing else about the thread changes. */
  lemma {:induction false} AddMessagesAppends(t: Thread, ms: seq<Message>)
    ensures AddMessages(t, ms) == t.(messages := t.messages + ms)
    decreases |ms|
  {
    if ms == [] {
      assert t.messages + ms == t.messages;
    } else {
      AddMessagesAppends(AddMessageToThread(t, ms[0]), ms[1..]);
      assert t.messages + [ms[0]] + ms[1..] == t.messages + ms;
    }
  }
}
