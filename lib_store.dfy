/** The persisted thread store of lib/store.ts, over the records of
    lib/types.ts. The `localStorage` entry is the field `stored` of a
    `ThreadStore` object: `None` when nothing (or the empty string) is
    stored, otherwise what `JSON.parse` and the date rehydration make of the
    text. Every operation loads the list, changes it and saves it back. */
module LibStore {
  import opened Options
  import opened Lists
  import opened Strings

  datatype Role = User | Assistant | System

  datatype Message = Message(id: string, role: Role, content: string, createdAt: int)

  datatype Thread = Thread(id: string, title: string, messages: seq<Message>, createdAt: int, updatedAt: int)

  /** The stored text as `getThreads` reads it: an array of threads whose
      dates rehydrate, or anything on which parsing or the rehydrating
      `map` throws. */
  datatype Blob = Saved(threads: seq<Thread>) | Malformed

  const NewThreadTitle: string := "New Thread"
  const TitleLength: nat := 40
  const Ellipsis: string := "..."

  /** `getThreads()` on a given entry. */
  function Load(stored: Option<Blob>): (r: seq<Thread>)
    ensures stored.None? ==> r == []
    ensures stored == Some(Malformed) ==> r == []
    ensures stored.Some? && stored.value.Saved? ==> r == stored.value.threads
  {
    match stored
    case None => []
    case Some(Malformed) => []
    case Some(Saved(ts)) => ts
  }

  /** The title made from a message: its first forty characters, followed
      by `...` exactly when something was cut off. */
  function TitleFrom(content: string): string {
    Take(content, TitleLength) + (if |content| > TitleLength then Ellipsis else "")
  }

  /** A short content is the title as it is; a long one is cut to forty
      characters and marked with the ellipsis, so no title is longer than
      forty-three characters. */
  lemma TitleFromSpec(content: string)
    ensures |content| <= TitleLength ==> TitleFrom(content) == content
    ensures |content| > TitleLength ==> TitleFrom(content) == content[..TitleLength] + Ellipsis
    ensures |TitleFrom(content)| <= TitleLength + |Ellipsis|
    ensures TitleFrom(content)[..|Take(content, TitleLength)|] == Take(content, TitleLength)
  {
    var head := Take(content, TitleLength);
    var r := TitleFrom(content);
    assert r[..|head|] == head;
    if |content| <= TitleLength {
      assert r == head + "";
    }
  }

  /** The thread `createThread(firstMessage)` makes, with the id and the
      clock as parameters. */
  function NewThread(first: Option<Message>, id: string, now: int): (t: Thread)
    ensures t.id == id && t.createdAt == now && t.updatedAt == now
    ensures first.None? ==> t.title == NewThreadTitle && t.messages == []
    ensures first.Some? ==> t.title == TitleFrom(first.value.content) && t.messages == [first.value]
  {
    Thread(id, if first.Some? then TitleFrom(first.value.content) else NewThreadTitle,
           if first.Some? then [first.value] else [], now, now)
  }

  /** `threads.findIndex(t => t.id === threadId)` */
  function IndexOf(ts: seq<Thread>, id: string): Option<nat> {
    FirstIndex(ts, (t: Thread) => t.id == id)
  }

  /** What `addMessageToThread` does to the thread it finds: the message at
      the end, `updatedAt` set, and the title taken from the message when it
      is the thread's only message and comes from the user. */
  function Appended(t: Thread, m: Message, now: int): Thread {
    var t' := t.(messages := t.messages + [m], updatedAt := now);
    if |t'.messages| == 1 && m.role == User then t'.(title := TitleFrom(m.content)) else t'
  }

  /** The title is rewritten exactly for the first message of a thread,
      when that message comes from the user; the message goes last and the
      id and creation time stay. */
  lemma AppendedSpec(t: Thread, m: Message, now: int)
    ensures var r := Appended(t, m, now);
      r.id == t.id && r.createdAt == t.createdAt && r.updatedAt == now &&
      r.messages == t.messages + [m] &&
      (t.messages == [] && m.role == User ==> r.title == TitleFrom(m.content)) &&
      (t.messages != [] || m.role != User ==> r.title == t.title)
  {
    if t.messages != [] {
      assert |t.messages + [m]| > 1;
    }
  }

  /** `threads.filter(t => t.id !== id)` */
  function Filter(ts: seq<Thread>, id: string): seq<Thread> {
    if ts == [] then [] else (if ts[0].id == id then [] else [ts[0]]) + Filter(ts[1..], id)
  }

  /** The filter removes every thread with the id and keeps every other. */
  lemma {:induction false} FilterMembers(ts: seq<Thread>, id: string)
    ensures forall u :: u in Filter(ts, id) <==> u in ts && u.id != id
  {
    if ts != [] {
      FilterMembers(ts[1..], id);
      assert ts == [ts[0]] + ts[1..];
    }
  }

  /** The filter keeps the order: it works piece by piece, and leaves a list
      without the id as it is. */
  lemma {:induction false} FilterAppend(a: seq<Thread>, b: seq<Thread>, id: string)
    ensures Filter(a + b, id) == Filter(a, id) + Filter(b, id)
  {
    if a == [] {
      assert a + b == b;
    } else {
      assert (a + b)[1..] == a[1..] + b;
      FilterAppend(a[1..], b, id);
      AppendAssoc(if a[0].id == id then [] else [a[0]], Filter(a[1..], id), Filter(b, id));
    }
  }

  lemma {:induction false} FilterKeeps(ts: seq<Thread>, id: string)
    requires forall j :: 0 <= j < |ts| ==> ts[j].id != id
    ensures Filter(ts, id) == ts
  {
    if ts != [] {
      FilterKeeps(ts[1..], id);
      assert [ts[0]] + ts[1..] == ts;
    }
  }

  class ThreadStore {
    /** The `ltc:threads:v1` entry. */
    var stored: Option<Blob>

    constructor(entry: Option<Blob>)
      ensures stored == entry
    {
      stored := entry;
    }

    /** The list every operation starts from. */
    function Threads(): seq<Thread>
      reads this
    {
      Load(stored)
    }

    /** `getThreads()` */
    method GetThreads() returns (ts: seq<Thread>)
      ensures ts == Threads()
      ensures stored.None? || stored == Some(Malformed) ==> ts == []
    {
      ts := Load(stored);
    }

    /** `saveThreads(threads)`: what is loaded next is what was saved. */
    method SaveThreads(ts: seq<Thread>)
      modifies this
      ensures stored == Some(Saved(ts))
      ensures Threads() == ts
    {
      stored := Some(Saved(ts));
    }

    /** `createThread(firstMessage)`: the new thread goes in front of the
      loaded list (an unreadable entry counts as an empty list) and is
      returned. */
    method CreateThread(first: Option<Message>, id: string, now: int) returns (t: Thread)
      modifies this
      ensures t == NewThread(first, id, now)
      ensures stored == Some(Saved([t] + old(Threads())))
      ensures Threads()[0] == t && Threads()[1..] == old(Threads())
    {
      t := Thread(id, if first.Some? then TitleFrom(first.value.content) else NewThreadTitle,
                  if first.Some? then [first.value] else [], now, now);
      var threads := GetThreads();
      threads := [t] + threads;
      SaveThreads(threads);
    }

    /** `addMessageToThread(threadId, message)`: for an unknown id nothing
      is saved; otherwise the first thread with the id is `Appended` in
      place and every other thread stays. */
    method AddMessageToThread(threadId: string, m: Message, now: int)
      modifies this
      ensures IndexOf(old(Threads()), threadId).None? ==> stored == old(stored)
      ensures IndexOf(old(Threads()), threadId).Some? ==>
        var k := IndexOf(old(Threads()), threadId).value;
        stored == Some(Saved(old(Threads())[k := Appended(old(Threads())[k], m, now)]))
    {
      var threads := GetThreads();
      var threadIndex := IndexOf(threads, threadId);
      if threadIndex.None? {
        return;
      }
      var k := threadIndex.value;
      var t := threads[k];
      t := t.(messages := t.messages + [m]);
      t := t.(updatedAt := now);
      if |t.messages| == 1 && m.role == User {
        t := t.(title := TitleFrom(m.content));
      }
      threads := threads[k := t];
      SaveThreads(threads);
    }

    /** `updateThreadMessages(threadId, messages)`: the first thread with
      the id gets the messages and `updatedAt`; nothing else changes, and
      for an unknown id nothing is saved. */
    method UpdateThreadMessages(threadId: string, ms: seq<Message>, now: int)
      modifies this
      ensures IndexOf(old(Threads()), threadId).None? ==> stored == old(stored)
      ensures IndexOf(old(Threads()), threadId).Some? ==>
        var k := IndexOf(old(Threads()), threadId).value;
        stored == Some(Saved(old(Threads())[k := old(Threads())[k].(messages := ms, updatedAt := now)]))
    {
      var threads := GetThreads();
      var threadIndex := IndexOf(threads, threadId);
      if threadIndex.None? {
        return;
      }
      var k := threadIndex.value;
      var t := threads[k];
      t := t.(messages := ms);
      t := t.(updatedAt := now);
      threads := threads[k := t];
      SaveThreads(threads);
    }

    /** `deleteThread(threadId)`: the filtered list is saved, whatever was
      stored before. */
    method DeleteThread(threadId: string)
      modifies this
      ensures stored == Some(Saved(Filter(old(Threads()), threadId)))
    {
      var threads := GetThreads();
      SaveThreads(Filter(threads, threadId));
    }

    /** `clearAllThreads()`: the entry is removed. */
    method ClearAllThreads()
      modifies this
      ensures stored.None? && Threads() == []
    {
      stored := None;
    }
  }

  /** A found thread gets the message and no other thread changes. */
  lemma AddedOnlyThere(ts: seq<Thread>, id: string, m: Message, now: int)
    requires IndexOf(ts, id).Some?
    ensures var k := IndexOf(ts, id).value;
      var r := ts[k := Appended(ts[k], m, now)];
      |r| == |ts| && r[k].messages == ts[k].messages + [m] &&
      (forall j :: 0 <= j < |ts| && j != k ==> r[j] == ts[j])
  {
    var k := IndexOf(ts, id).value;
    AppendedSpec(ts[k], m, now);
  }
}
