# Buddy chat: the streaming bridge and the thread stores, in Dafny

Buddy is a browser chat client for Penn State students. The browser
posts a conversation to `/api/chat`. That route runs an OpenAI assistant
and turns the assistant's event stream into Server-Sent-Events frames
(`data: {...}\n\n`, ending in `data: [DONE]\n\n`). The chat components read
the response body chunk by chunk, pick the text deltas out of the frames,
and write the running text into the last assistant message. Conversations
are kept as threads in `localStorage`.

This project models that pipeline and proves what each part promises:

- **The SSE encoder** (`src/lib/stream.ts`, modules `Stream` and `Json`).
  - `OpenAIToSSE` and `AssistantStreamToSSE` are methods that loop over the
    upstream events, append frames and set a terminal status. Each is proved
    equal to a specification function.
  - The lemmas about those functions state the frame format and the rules
    for the terminal frame: one text frame per text fragment, in order; a
    completed run closes with one `[DONE]` and consumes nothing more; a
    failed or cancelled run errors with no `[DONE]`; a fallback `[DONE]` when
    the upstream runs out; other events are ignored; and in every stream at
    most one `[DONE]`, always the last frame.
- **The client decoder** (`processChunk` and the read loop of
  `src/components/Chat.tsx`, `ClaudeChat.tsx` and `SimpleChat.tsx`, modules
  `SseClient` and `ChunkReader`).
  - The line filter is a function.
  - `processChunk` and the read loop are methods, generic in the state
    updater. They are proved to leave the buffer equal to every accepted
    delta in order, and the state equal to that buffer written once.
  - The round trip: frames from the encoder that reach the client in any
    chunking that cuts only at line boundaries decode to exactly the
    encoder's text fragments, in order.
  - As the code is written, nothing carries over between reads and
    `[DONE]` does not stop decoding. Both are proved as lemmas.
- **The components' handlers** (modules `Chat`, `FlatMessages`,
  `ClaudeChat`, `SimpleChat`).
  - The `setThreads`/`setMessages` updaters are pure functions with lemmas:
    the updater overwrites, the touched thread moves to the front, ids stay
    unique, and feedback toggles.
  - `onSend`, `onRegenerate`, `onSendWithText` and SimpleChat's `onSend`
    are methods whose contracts give the request they post and the final
    state for every kind of reply.
- **The thread stores.**
  - `lib/store.ts` is a class, `LibStore.ThreadStore`, whose field is the
    `localStorage` entry. Its methods load, change and save that list.
  - `src/lib/store.ts` is pure functions, in module `Store`.
- **The chat route** (`src/app/api/chat/route.ts`, module `ChatRoute`).
  - The module-level `assistantId` cache is a class field.
  - `POST` is a method, proved equal to a specification function covering
    every response and the messages posted.

`EndToEnd` connects the two halves. A run's stream, read back by a
component, shows the texts of the message deltas before the first terminal
event, or the fallback text when the run fails. It also proves that a
plain-text error answer from the route shows nothing.

The model keeps these behaviours of the code, which a reader might not
expect of an SSE bridge:

- A line cut between two reads is lost. There is no carry-over buffer
  (`SseClient.CutLineIsLost`).
- `[DONE]` is skipped on the client, not treated as the end
  (`SseClient.DoneDoesNotStop`).
- A body that ends without a terminal frame is not an error.
- Failures are signalled with `controller.error`. There is no JSON error
  frame.
- Tool-status and tool-complete frames are not produced by any of these
  files, so they are not in the model.
- The route reads `useRag` and never uses it (`ChatRoute.UseRagIgnored`).
- The components do not look at the response status, so a plain-text
  error answer leaves the assistant message empty
  (`EndToEnd.ErrorAnswerShowsNothing`).
- Searches by id (`findIndex`, `find`) are one generic `Lists.FirstIndex`.

Browser APIs are parameters or values:

- `JSON.parse` is a function `string -> Option<Payload>`. Its only assumed
  property is that it reads back what the server serialised.
- A network reply is a `Reply` value: the fetch rejects, or there is no
  body, or there is a body of decoded chunks whose last read either
  reports `done` or rejects.
- Ids and clocks are arguments.

## Model

| member | source | states |
|---|---|---|
| Stream.ChunkContent | src/lib/stream.ts:10-12 | a chunk carries text exactly when it has a first choice whose delta content is a non-empty string, and then it carries that content |
| Stream.OpenAISse | src/lib/stream.ts:7-31 | the chat-completion stream is well terminated, its text frames carry the chunk texts in order, and it errors exactly when iteration throws |
| Stream.OneChunk | src/lib/stream.ts:10-27 | one chunk with non-empty content gives exactly one text frame with that content, verbatim, then `[DONE]`; any other chunk gives only `[DONE]` |
| Stream.OpenAIToSSE | src/lib/stream.ts:4-31 | the enqueue loop writes exactly the specified frames and terminal status |
| Stream.AtMostOneDone | src/lib/stream.ts:24-31 | in a well-terminated stream `[DONE]` appears only as the last frame, and exactly when the stream was closed |
| Stream.PartText | src/lib/stream.ts:59 | a content part yields a frame exactly when its type is `text` and its value is a non-empty string, and then it yields that value |
| Stream.EnqueueParts | src/lib/stream.ts:57-69 | the inner loop appends one text frame per text part, in content order, after what was already written |
| Stream.AssistantSseTerminated | src/lib/stream.ts:51-91 | every assistant stream, on every path including an exception, is text frames then one `[DONE]` and a close, or text frames and an error |
| Stream.AssistantTexts | src/lib/stream.ts:54-69 | the text frames carry exactly the texts of the message deltas before the first terminal event |
| Stream.FirstTerminal | src/lib/stream.ts:70-81 | finds the first completed, failed or cancelled event, with none before it |
| Stream.CompletedStops | src/lib/stream.ts:70-75 | a completed run writes the earlier deltas' frames then `[DONE]` and closes; later events and a later exception do not matter |
| Stream.FailedErrors | src/lib/stream.ts:76-81 | a failed or cancelled run errors after the earlier deltas' frames, and no `[DONE]` is written |
| Stream.Fallback | src/lib/stream.ts:84-91 | without a terminal event the stream ends with the fallback `[DONE]` and a close, or errors without it when iteration threw |
| Stream.IgnoredEvent | src/lib/stream.ts:52-82 | an event that is neither a message delta nor terminal changes nothing in the output |
| Stream.AssistantSseClosedForm | src/lib/stream.ts:52-91 | the whole output in closed form, by the first terminal event and its kind, or by whether iteration threw |
| Stream.AssistantStreamToSSE | src/lib/stream.ts:48-91 | the event loop writes exactly the specified frames and terminal status |
| Json.EscapeChar | src/lib/stream.ts:61-64 | an escaped character is never a raw line feed, so a frame's JSON stays on one line |
| Json.StringifyDelta | src/lib/stream.ts:61-65 | a serialised text event is a single-line JSON object, from `{` to `}` |
| Json.AcceptedDelta | src/components/Chat.tsx:105 | an event is accepted exactly when its type is the text-delta type and its delta is a string, and then it yields that delta |
| Strings.TrimStartSpec | src/components/Chat.tsx:99 | left trimming drops exactly the leading white space |
| Strings.TrimEndSpec | src/components/Chat.tsx:99 | right trimming drops exactly the trailing white space |
| Strings.SplitAtNewline | src/components/Chat.tsx:97 | splitting text on a line feed splits each side |
| Strings.SplitNoNewline | src/components/Chat.tsx:97 | text without a line feed is one line |
| Strings.ConcatAppend | src/components/Chat.tsx:106 | the running buffer of two batches of deltas is the buffer of the first followed by the second |
| SseClient.FrameLine | src/lib/stream.ts:65 | each frame on the wire is one line without a line feed followed by an empty line |
| SseClient.FrameLineData | src/components/Chat.tsx:99-101 | the payload of a frame's `data:` line is exactly the JSON object after the prefix |
| SseClient.DoneLineSkipped | src/components/Chat.tsx:102 | the sentinel line yields the `[DONE]` payload, and the filter skips it |
| SseClient.TextLineDelta | src/components/Chat.tsx:103-106 | a text frame's line decodes to its delta when parsing reads back the serialisation |
| SseClient.NotDataLine | src/components/Chat.tsx:100 | a line that is not a `data:` line once trimmed contributes nothing |
| SseClient.MalformedLineSkipped | src/components/Chat.tsx:103-125 | a line whose payload fails to parse is skipped alone; the lines before and after it decode as if it were absent |
| SseClient.LinesDeltasAppend | src/components/Chat.tsx:97-126 | the lines of a chunk decode piece by piece, in order |
| SseClient.ChunksDeltasSnoc | src/components/Chat.tsx:129-134 | each further read appends its own deltas |
| SseClient.FrameDecodes | src/components/Chat.tsx:96-127 | one frame on the wire decodes to its own text, if any, in front of what follows |
| SseClient.WireDecodes | src/components/Chat.tsx:96-127 | the server's whole output read in one piece decodes to exactly its text fragments, in order |
| SseClient.AlignedChunks | src/components/Chat.tsx:129-134 | chunks cut only at line boundaries decode like the text in one piece |
| SseClient.RoundTrip | src/components/Chat.tsx:96-134 | frames cut into line-aligned reads decode to exactly the server's text fragments, in order |
| SseClient.CutLineIsLost | src/components/Chat.tsx:129-134 | a frame cut inside `data:` across two reads yields nothing, although the same text in one read yields its delta |
| SseClient.DoneDoesNotStop | src/components/Chat.tsx:102 | text after `[DONE]` in the same read is still delivered |
| ChunkReader.StreamedChunk | src/components/Chat.tsx:129-134 | with an overwriting updater, one more chunk leaves the state as the longer buffer written once |
| ChunkReader.LineStep | src/components/Chat.tsx:98-126 | one line grows the buffer by its delta, and the state follows the buffer |
| ChunkReader.ProcessChunk | src/components/Chat.tsx:96-127 | the buffer grows by exactly the chunk's accepted deltas in order, and the state is the grown buffer written once, or unchanged when there were none |
| ChunkReader.ReadLoop | src/components/Chat.tsx:129-134 | reading until `done` leaves the buffer as every delta of every chunk and the state as that buffer written once |
| ChunkReader.ReadReply | src/components/Chat.tsx:84-151 | the state ends as the reply's text written once (the fallback after a rejected fetch, a missing body or a failed read), or unchanged when a successful read yielded nothing |
| Lists.FirstIndex | src/components/Chat.tsx:160 | the index found holds the first element that matches, with none before it; no index means no element matches |
| Chat.WithoutMembers | src/components/Chat.tsx:76 | the filter keeps exactly the threads with another id |
| Chat.WithoutTwice | src/components/Chat.tsx:120 | filtering by the same id twice is filtering once |
| Chat.WithoutUnique | src/components/Chat.tsx:168 | filtering keeps thread ids unique |
| Chat.MoveToFrontSpec | src/components/Chat.tsx:76 | every list update puts the touched thread first, removes its other copies, keeps the other threads in order and keeps ids unique |
| Chat.FindFront | src/components/Chat.tsx:108 | the touched thread is then found at the front |
| Chat.SetLastAssistantSpec | src/components/Chat.tsx:107-121 | the updater changes nothing without the thread or without a final assistant message; otherwise only that message's content changes and the thread moves to the front |
| Chat.SetLastAssistantTwice | src/components/Chat.tsx:106-121 | a later write replaces an earlier one, so the message shows the whole running buffer |
| Chat.WriterOverwrites | src/components/Chat.tsx:107-121 | the delta updater of one reply overwrites |
| Chat.Retitle | src/components/Chat.tsx:64-66 | an empty or `New Thread` title becomes the first forty characters of the text, with no ellipsis; any other title stays |
| Chat.SentThreadSpec | src/components/Chat.tsx:55-75 | a send appends exactly the user message and an empty assistant message, retitles as above and keeps the thread's id |
| Chat.WireMessages | src/components/Chat.tsx:81 | the request carries each message's role and content, in order |
| Chat.ReplyLands | src/components/Chat.tsx:107-121 | when the sent thread is at the front, a reply write lands in its placeholder and nowhere else |
| Chat.OnSend | src/components/Chat.tsx:53-155 | without an active thread nothing happens; otherwise the request holds the sent thread's messages and the final list is the sent thread, placeholder filled with the reply's text or the fallback, in front |
| Chat.RegenThread | src/components/Chat.tsx:162-167 | the regenerated thread keeps the messages up to the chosen one, then one new empty assistant message |
| Chat.OnRegenerate | src/components/Chat.tsx:157-223 | nothing happens without an active thread or an unknown message; otherwise the placeholder holds every delta read (empty without a body), and the call rejects exactly when the fetch or a read does |
| Chat.SetFeedbackSpec | src/components/Chat.tsx:225-244 | the updated thread moves to the front and is the old one with only that message's feedback changed: it becomes `kind`, or is cleared when it already was `kind`; the thread's id, title and date and the message's id, role, content and date stay; other messages stay and the other threads follow in order; without the thread or the message nothing changes |
| Chat.OnFeedback | src/components/Chat.tsx:225-244 | without an active thread nothing changes; otherwise the active id and streaming flag stay and the threads are updated by `SetFeedback` on the active thread |
| Chat.FeedbackTwice | src/components/Chat.tsx:237 | the same feedback given twice restores a message that had none or had that feedback |
| Chat.OnNewThread | src/components/Chat.tsx:47-51 | a new thread goes in front and becomes active |
| Chat.MountHasActive | src/components/Chat.tsx:29-40 | after mounting the threads are exactly the stored ones, storage untouched, with the first active, or none active when its id is empty (`data[0]?.id || null`); when none were stored there is one new thread, active and saved so that it loads back |
| Store.LoadThreads | src/lib/store.ts:5-15 | nothing stored, a value that is not an array, or text that does not parse all load as no threads; an array loads as itself |
| Store.LoadAfterSave | src/lib/store.ts:8-20 | loading what was saved gives the same threads back |
| Store.CreateThread | src/lib/store.ts:22-29 | a new thread has the title `New Thread`, no messages and the given id and time |
| Store.AddMessageToThread | src/lib/store.ts:31-33 | a copy of the thread with the message at the end, every other field equal |
| Store.AddMessagesAppends | src/lib/store.ts:31-33 | messages added one at a time end up after the existing ones, in order |
| FlatMessages.SetLastAssistantSpec | src/components/ClaudeChat.tsx:136-142 | the updater changes nothing unless the list ends with an assistant message; then only that message's content changes |
| FlatMessages.SetLastAssistantTwice | src/components/ClaudeChat.tsx:136-142 | a later write replaces an earlier one |
| FlatMessages.WriterOverwrites | src/components/ClaudeChat.tsx:136-142 | the delta updater overwrites |
| FlatMessages.ReplyLands | src/components/ClaudeChat.tsx:106-142 | a reply write lands in the placeholder of the send and nowhere else |
| FlatMessages.StreamReply | src/components/ClaudeChat.tsx:110-167 | after a send and its reply the list is the earlier messages, the user message and the placeholder holding the reply's text or the fallback |
| ClaudeChat.OnSendWithText | src/components/ClaudeChat.tsx:100-171 | an empty text or a running stream changes nothing; otherwise the request holds the earlier messages and the user message with `useRag: true`, and at the end the placeholder holds the reply's text or the fallback, the composer is empty and streaming is off |
| SimpleChat.Initial | src/components/SimpleChat.tsx:8-13 | the component starts with the greeting as its only message, an empty composer and no files |
| SimpleChat.AddFiles | src/components/SimpleChat.tsx:25-28 | the new files come after the existing ones, in order |
| SimpleChat.AddFilesTwice | src/components/SimpleChat.tsx:25-28 | adding files in two batches is adding them in one |
| SimpleChat.OnSend | src/components/SimpleChat.tsx:32-108 | a blank trimmed text or a running stream changes nothing; otherwise the files are uploaded first, the request (skipped when the upload rejects) holds the earlier messages and the trimmed user message without `useRag`, and at the end the placeholder holds the reply's text or the fallback, streaming is off and no file stays attached |
| LibStore.Load | lib/store.ts:5-26 | nothing stored or an unreadable entry loads as no threads; a saved list loads as itself |
| LibStore.TitleFromSpec | lib/store.ts:44-46 | a title is the first forty characters, followed by `...` exactly when the content is longer |
| LibStore.NewThread | lib/store.ts:42-50 | a new thread's title comes from the first message or is `New Thread`; its messages are that message or none; it is created and updated at the same time |
| LibStore.AppendedSpec | lib/store.ts:68-74 | the message goes last, `updatedAt` is set, and the title is rewritten exactly when this is the thread's only message and it comes from the user |
| LibStore.AddedOnlyThere | lib/store.ts:68 | only the found thread gets the message |
| LibStore.FilterMembers | lib/store.ts:96 | deletion removes every thread with the id and keeps every other |
| LibStore.FilterAppend | lib/store.ts:96 | deletion keeps the order of the remaining threads |
| LibStore.FilterKeeps | lib/store.ts:96 | deleting an unknown id leaves the list as it was |
| LibStore.ThreadStore.GetThreads | lib/store.ts:5-26 | returns the stored list, or none when nothing is stored or the entry is unreadable |
| LibStore.ThreadStore.SaveThreads | lib/store.ts:28-36 | the next load gives back what was saved |
| LibStore.ThreadStore.CreateThread | lib/store.ts:38-57 | the new thread is returned and saved in front of the list loaded before |
| LibStore.ThreadStore.AddMessageToThread | lib/store.ts:59-77 | an unknown id saves nothing; otherwise only the first thread with the id gets the message, as stated above |
| LibStore.ThreadStore.UpdateThreadMessages | lib/store.ts:79-92 | an unknown id saves nothing; otherwise only the first thread with the id gets the messages and `updatedAt` |
| LibStore.ThreadStore.DeleteThread | lib/store.ts:94-98 | the list without the id is saved |
| LibStore.ThreadStore.ClearAllThreads | lib/store.ts:100-103 | the entry is removed, so the list loads as empty |
| ChatRoute.DropSystemMembers | src/app/api/chat/route.ts:123 | the filter fails exactly on a missing element; otherwise it keeps every non-system message and drops every system message |
| ChatRoute.DropSystemAppend | src/app/api/chat/route.ts:123-129 | the kept messages stay in their original order |
| ChatRoute.RouteModule.GetAssistant | src/app/api/chat/route.ts:12-98 | a cached assistant that can be retrieved is reused; otherwise the cache is cleared and a new assistant is created and cached |
| ChatRoute.RouteModule.PostMessages | src/app/api/chat/route.ts:124-129 | the loop posts the kept messages in order until a post throws, and reports whether one did |
| ChatRoute.RouteModule.Post | src/app/api/chat/route.ts:100-142 | the handler's response, cache and posted messages are the specified ones in every case |
| ChatRoute.UseRagIgnored | src/app/api/chat/route.ts:103 | `useRag` never changes the outcome |
| ChatRoute.InvalidPayloadRefused | src/app/api/chat/route.ts:105-107 | missing, non-array or empty messages get 400 `Invalid payload`, and nothing else is looked at or changed |
| ChatRoute.NotConfigured | src/app/api/chat/route.ts:109-114 | a valid payload with a missing or empty vector store id gets 500 and changes nothing |
| ChatRoute.CacheReused | src/app/api/chat/route.ts:13-17 | a retrievable cached assistant is used and kept, whatever creating would do |
| ChatRoute.CacheRenewed | src/app/api/chat/route.ts:18-25 | otherwise a created assistant is used and cached; when creating throws, a stale cache is left cleared |
| ChatRoute.Streams | src/app/api/chat/route.ts:116-137 | a streamed answer posted exactly the non-system messages in order, used the assistant the cache yielded, and its stream is well terminated |
| ChatRoute.Responses | src/app/api/chat/route.ts:100-142 | every response is the stream or one of the three plain-text answers, with its status |
| EndToEnd.RunDecodes | src/lib/stream.ts:51-91 | a run's stream read back in line-aligned chunks decodes to the texts of the message deltas before the first terminal event |
| EndToEnd.ShownText | src/components/ClaudeChat.tsx:110-167 | a run that closes shows its delivered texts joined; a run that errors shows the fallback |
| EndToEnd.CompletedRunShown | src/lib/stream.ts:70-75 | a completed run shows the texts of every message delta before the completion |
| EndToEnd.PlainBody | src/components/Chat.tsx:96-134 | a one-line body that is not a `data:` line once trimmed leaves the placeholder empty |
| EndToEnd.CapitalisedBody | src/components/Chat.tsx:96-134 | a one-line body from a capital letter to a lower-case letter leaves the placeholder empty |
| EndToEnd.ErrorAnswerShowsNothing | src/components/Chat.tsx:84-134 | the components do not check the status, so each plain-text error answer of the route, arriving in one read, leaves the placeholder empty instead of showing the fallback |

## Left out

- Byte decoding: `TextDecoder` is not modelled. A read chunk is the decoded string it yields.
- Strings: a Dafny `char` is a Unicode scalar value, while a JavaScript string is a sequence of UTF-16 code units. Lengths and slice positions therefore differ for characters outside the Basic Multilingual Plane, and lone surrogates cannot be represented.
- Chat.Retitle: `slice(0, 40)` counts UTF-16 code units in the source and characters in the model, so a title with characters outside the Basic Multilingual Plane is cut at a different place.
- LibStore.TitleFrom: `substring(0, 40)` and `length > 40` count UTF-16 code units in the source and characters in the model; for 21 emoji the source gives 20 emoji and `...`, the model the 21 emoji unchanged.
- LibStore.TitleFromSpec: states the title in characters, not UTF-16 code units, for the reason given for `LibStore.TitleFrom`.
- `JSON.parse` is abstract. The only property assumed of it is that it reads back the serialised text event. What it makes of other text is left open.
- `JSON.stringify` is written out only for the one object shape the server sends.
- `localStorage` availability: the `typeof window === 'undefined'` branches and quota errors on `setItem` are not modelled. Saving always succeeds.
- Date rehydration in `getThreads` of `lib/store.ts`: dates are integers, and an entry whose rehydration throws is `Malformed`.
- Array elements other than objects, `null` and `undefined`, within the stored list and the posted `messages`, are not modelled.
- React scheduling: updaters are applied in the order they are issued. Batching, stale closures and the time between renders are not modelled.
- The persist effect of `src/components/Chat.tsx` (save on every change) is not modelled. Nor are scrolling, the feedback `console.log`, rendering, theming, prompt rotation, `startNewChat` and the `setTimeout` in `sendPrompt`.
- Chat's `useRag` toggle and its environment default are not modelled. `useRag` is an argument of the handlers.
- `crypto.randomUUID`, `Date.now`, `new Date` and `Math.random` are arguments.
- The OpenAI client: its calls are reduced to succeed or fail, through the `Collaborator` value. The assistant's creation parameters and instructions are not modelled.
- The route's console logging and the catch blocks' logging are not modelled.
- `controller.error` may discard frames still queued for the reader. The model lets the reader see every frame written before the error.
- The upload route itself is not part of this model. SimpleChat's upload is modelled only as resolving or rejecting.
- Tool-status frames, cross-chunk line buffering and a client that stops at `[DONE]`: none of these exists in the modelled files.
