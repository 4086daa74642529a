/** The `POST` handler of src/app/api/chat/route.ts and its module-level
    assistant cache. The OpenAI client is a collaborator whose answers are
    given up front as a `Collaborator` value: whether making the client
    throws, whether retrieving the cached assistant succeeds, the id a
    created assistant gets (or `None` when creating throws), whether
    creating the conversation thread succeeds, the position of the first
    message post that throws (if any), and the run's event stream. */
module ChatRoute {
  import opened Options
  import opened Stream
  import Strings

  /** One element of the posted `messages` array: an object with a role and
      a content, or `null`/`undefined`, on which reading `role` throws. */
  datatype Item = Missing | Chat(role: string, content: string)

  /** The `messages` property: not an array (also when it is absent), or
      an array. */
  datatype Messages = NotAnArray | Array(items: seq<Item>)

  /** The request body: text `req.json()` rejects, or the parsed value,
      read as `messages` and `useRag` (a `null` body reads as `{}`). */
  datatype Body = Unparseable | Parsed(messages: Messages, useRag: Option<bool>)

  datatype Collaborator = Collaborator(
    clientThrows: bool,
    retrieveOk: bool,
    created: Option<string>,
    threadOk: bool,
    failPostAt: Option<nat>,
    run: Upstream<AssistantEvent>)

  /** A message posted to the conversation thread. */
  datatype Posting = Posting(role: string, content: string)

  /** The response: a plain-text body with a status, or the SSE stream of
      the run of the given assistant. */
  datatype Response = Text(status: nat, text: string) | EventStream(assistant: string, sse: Sse)

  const SystemRole: string := "system"

  /** A truthy `assistantId`: present and not the empty string. */
  predicate Cached(id: Option<string>) {
    id.Some? && id.value != ""
  }

  /** `!Array.isArray(messages) || messages.length === 0` */
  predicate InvalidPayload(b: Body)
    requires b.Parsed?
  {
    b.messages.NotAnArray? || b.messages.items == []
  }

  /** `messages.filter(m => m.role !== "system")`; `None` when an element
      is missing, since reading its `role` throws. */
  function DropSystem(items: seq<Item>): Option<seq<Posting>> {
    if items == [] then Some([])
    else if items[0].Missing? then None
    else
      match DropSystem(items[1..])
      case None => None
      case Some(rest) =>
        Some((if items[0].role == SystemRole then [] else [Posting(items[0].role, items[0].content)]) + rest)
  }

  /** The filter fails exactly on a missing element; otherwise it keeps
      every non-system message and drops every system message. */
  lemma {:induction false} DropSystemMembers(items: seq<Item>)
    ensures DropSystem(items).None? <==> Missing in items
    ensures DropSystem(items).Some? ==>
      forall p :: p in DropSystem(items).value <==> Chat(p.role, p.content) in items && p.role != SystemRole
  {
    if items != [] {
      DropSystemMembers(items[1..]);
      assert items == [items[0]] + items[1..];
    }
  }

  /** The filter keeps the order of what it keeps. */
  lemma {:induction false} DropSystemAppend(a: seq<Item>, b: seq<Item>)
    requires DropSystem(a).Some? && DropSystem(b).Some?
    ensures DropSystem(a + b) == Some(DropSystem(a).value + DropSystem(b).value)
  {
    if a == [] {
      assert a + b == b;
      assert [] + DropSystem(b).value == DropSystem(b).value;
    } else {
      assert (a + b)[1..] == a[1..] + b;
      DropSystemAppend(a[1..], b);
      var head: seq<Posting> := if a[0].role == SystemRole then [] else [Posting(a[0].role, a[0].content)];
      Strings.AppendAssoc(head, DropSystem(a[1..]).value, DropSystem(b).value);
    }
  }

  /** What `getAssistant` yields: the assistant's id, or `None` when it
      throws, and the cache afterwards. A cached assistant that can be
      retrieved is reused; otherwise the cache is cleared and a new one is
      created, whose id is cached. */
  function AssistantSpec(cache: Option<string>, c: Collaborator): (Option<string>, Option<string>) {
    if Cached(cache) && c.retrieveOk then (cache, cache)
    else
      var cleared := if Cached(cache) then None else cache;
      match c.created
      case None => (None, cleared)
      case Some(id) => (Some(id), Some(id))
  }

  /** The posting loop: messages are posted in order until one throws. */
  function PostedUpTo(ps: seq<Posting>, failPostAt: Option<nat>): seq<Posting> {
    if failPostAt.Some? && failPostAt.value < |ps| then ps[..failPostAt.value] else ps
  }

  const InvalidPayloadText: string := "Invalid payload"
  const NotConfiguredText: string := "Vector store not configured"
  const FailedText: string := "Failed to stream response"

  /** The whole handler: the response, the cache afterwards and the
      messages posted to the conversation thread, in order. */
  function PostSpec(cache: Option<string>, body: Body, vectorStoreId: Option<string>, c: Collaborator)
    : (Response, Option<string>, seq<Posting>)
  {
    if body.Unparseable? then (Text(500, FailedText), cache, [])
    else if InvalidPayload(body) then (Text(400, InvalidPayloadText), cache, [])
    else if c.clientThrows then (Text(500, FailedText), cache, [])
    else if vectorStoreId.None? || vectorStoreId.value == "" then (Text(500, NotConfiguredText), cache, [])
    else
      var (assistant, cache') := AssistantSpec(cache, c);
      if assistant.None? || !c.threadOk then (Text(500, FailedText), cache', [])
      else
        match DropSystem(body.messages.items)
        case None => (Text(500, FailedText), cache', [])
        case Some(ps) =>
          if c.failPostAt.Some? && c.failPostAt.value < |ps| then
            (Text(500, FailedText), cache', PostedUpTo(ps, c.failPostAt))
          else
            (EventStream(assistant.value, AssistantSse(c.run.events, c.run.throws)), cache', ps)
  }

  /** The module that holds `assistantId`. */
  class RouteModule {
    var assistantId: Option<string>

    constructor()
      ensures assistantId.None?
    {
      assistantId := None;
    }

    /** `getAssistant(client, vectorStoreId)`; `None` means it threw. */
    method GetAssistant(c: Collaborator) returns (assistant: Option<string>)
      modifies this
      ensures (assistant, assistantId) == AssistantSpec(old(assistantId), c)
    {
      if Cached(assistantId) {
        if c.retrieveOk {
          return assistantId;
        }
        assistantId := None;
      }
      if c.created.None? {
        return None;
      }
      assistant := c.created;
      assistantId := assistant;
    }

    /** The `for` loop over the kept messages; `ok` is false when a post
      threw. */
    method PostMessages(ps: seq<Posting>, failPostAt: Option<nat>) returns (posted: seq<Posting>, ok: bool)
      ensures posted == PostedUpTo(ps, failPostAt)
      ensures ok <==> !(failPostAt.Some? && failPostAt.value < |ps|)
    {
      posted := [];
      for i := 0 to |ps|
        invariant posted == ps[..i]
        invariant failPostAt.Some? ==> i <= failPostAt.value
      {
        if failPostAt == Some(i) {
          return posted, false;
        }
        posted := posted + [ps[i]];
        assert ps[..i + 1] == ps[..i] + [ps[i]];
      }
      assert ps[..|ps|] == ps;
      ok := true;
    }

    /** `POST(req)` */
    method Post(body: Body, vectorStoreId: Option<string>, c: Collaborator)
      returns (response: Response, posted: seq<Posting>)
      modifies this
      ensures (response, assistantId, posted) == PostSpec(old(assistantId), body, vectorStoreId, c)
    {
      posted := [];
      if body.Unparseable? {
        return Text(500, FailedText), posted;
      }
      if body.messages.NotAnArray? || |body.messages.items| == 0 {
        return Text(400, InvalidPayloadText), posted;
      }
      if c.clientThrows {
        return Text(500, FailedText), posted;
      }
      if vectorStoreId.None? || vectorStoreId.value == "" {
        return Text(500, NotConfiguredText), posted;
      }
      var assistant := GetAssistant(c);
      if assistant.None? || !c.threadOk {
        return Text(500, FailedText), posted;
      }
      var kept := DropSystem(body.messages.items);
      if kept.None? {
        return Text(500, FailedText), posted;
      }
      var ok;
      posted, ok := PostMessages(kept.value, c.failPostAt);
      if !ok {
        return Text(500, FailedText), posted;
      }
      var sse := AssistantStreamToSSE(c.run);
      response := EventStream(assistant.value, sse);
    }
  }

  /** `useRag` is read but changes nothing. */
  lemma UseRagIgnored(cache: Option<string>, ms: Messages, a: Option<bool>, b: Option<bool>,
                      vectorStoreId: Option<string>, c: Collaborator)
    ensures PostSpec(cache, Parsed(ms, a), vectorStoreId, c) == PostSpec(cache, Parsed(ms, b), vectorStoreId, c)
  {
  }

  /** A payload without messages is refused with 400 before anything else
      is looked at — the vector store setting, the client, the cache — and
      nothing changes. */
  lemma InvalidPayloadRefused(cache: Option<string>, body: Body, vectorStoreId: Option<string>, c: Collaborator)
    requires body.Parsed? && InvalidPayload(body)
    ensures PostSpec(cache, body, vectorStoreId, c) == (Text(400, InvalidPayloadText), cache, [])
  {
  }

  /** With a valid payload and a client, a missing or empty vector store id
      gives 500 and changes nothing. */
  lemma NotConfigured(cache: Option<string>, body: Body, vectorStoreId: Option<string>, c: Collaborator)
    requires body.Parsed? && !InvalidPayload(body) && !c.clientThrows
    requires vectorStoreId.None? || vectorStoreId == Some("")
    ensures PostSpec(cache, body, vectorStoreId, c) == (Text(500, NotConfiguredText), cache, [])
  {
  }

  /** A cached assistant that can be retrieved serves the request and the
      cache stays; creating is never consulted. */
  lemma CacheReused(cache: Option<string>, c: Collaborator)
    requires Cached(cache) && c.retrieveOk
    ensures forall created :: AssistantSpec(cache, c.(created := created)) == (cache, cache)
  {
  }

  /** Without a usable cached assistant a new one is created: its id is
      used and cached; when creating throws, the cache is left cleared. */
  lemma CacheRenewed(cache: Option<string>, c: Collaborator)
    requires !(Cached(cache) && c.retrieveOk)
    ensures c.created.Some? ==> AssistantSpec(cache, c) == (c.created, c.created)
    ensures c.created.None? ==> AssistantSpec(cache, c).0.None? &&
                                 (Cached(cache) ==> AssistantSpec(cache, c).1.None?)
  {
  }

  /** A request that gets as far as posting streams the run: the messages
      posted are the non-system ones in their original order, the assistant
      is the one `getAssistant` yielded, and the stream ends with one
      `[DONE]` or an error. */
  lemma Streams(cache: Option<string>, body: Body, vectorStoreId: Option<string>, c: Collaborator)
    requires PostSpec(cache, body, vectorStoreId, c).0.EventStream?
    ensures body.Parsed? && body.messages.Array?
    ensures var (response, cache', posted) := PostSpec(cache, body, vectorStoreId, c);
      Some(posted) == DropSystem(body.messages.items) &&
      Some(response.assistant) == AssistantSpec(cache, c).0 && cache' == AssistantSpec(cache, c).1 &&
      response.sse == AssistantSse(c.run.events, c.run.throws) && Terminated(response.sse) &&
      forall p :: p in posted ==> p.role != SystemRole
  {
    AssistantSseTerminated(c.run.events, c.run.throws);
    DropSystemMembers(body.messages.items);
  }

  /** Every response is the stream, or one of the three plain-text answers
      with its status. */
  lemma Responses(cache: Option<string>, body: Body, vectorStoreId: Option<string>, c: Collaborator)
    ensures var r := PostSpec(cache, body, vectorStoreId, c).0;
      r.EventStream? ||
      r == Text(400, InvalidPayloadText) || r == Text(500, NotConfiguredText) || r == Text(500, FailedText)
  {
  }
}
