# Verified model of the coursework apps' state logic

This project models the small pieces of sequential logic spread across a collection
of coursework applications and proves properties about them in Dafny:

- **Chat presence relay** (`relay.dfy`, module `PresenceRelay`). The Socket.IO server of the
  real-time chat keeps a `Map` from connection id to `{ id, username, joinedAt }`.
  - Its four handlers are `user_join`, `send_message`, `typing` and `disconnect`.
    Each one is a single step: update the map, then emit.
  - The class `Relay` holds three things: the connected sockets, the map (as an
    insertion-ordered sequence with unique keys) and an outbox of `(recipients, event)` pairs.
  - `io.emit` reaches every connected socket. `socket.broadcast.emit` reaches every
    connected socket except the sender. In both cases this includes sockets that never joined.
  - A ghost presence history carries the invariant "registry = the connections that joined
    and have not disconnected".
- **Chat client** (`chat_client.dfy`, module `ChatClient`). The chat room view's state
  updaters for the message log, the online-user list and the typing list; its send guard
  and input handler; and the two message type guards.
- **Employee store** (`employees.dfy`, module `EmployeeStore`). The command-line employee
  manager's module-level array with add, remove, find, list and count. Each is specified
  by a function from the old array to the reply and the new array.
- **Rate-limit store** (`rate_limit.dfy`, module `RateLimit`). The fixed-window counter
  store behind the API's request limiter. The clock is the parameter `now`.
- **SSE reader** (`sse_stream.dfy`, module `SseClient`). The web client's streaming chat
  call buffers decoded chunks, splits on `'\n'`, carries the partial line over, skips
  `event: ` lines and hands parsed `data: ` payloads to `onChunk`.
  - The loop is proved against a specification: the calls equal the dispatch of the
    complete lines of everything received.
- **Session routes** (`sessions.ts`, modelled in `sessions.dfy`, module `Sessions`).
  - The validation order of the messages handler.
  - Ownership lookups.
  - The list query, creation defaults and the PATCH update rules.
  - Clear, and summarize ("keep the last five").
  - The two Mongo collections are sequences.
- **Gemini provider** (`gemini.dfy`, module `GeminiProvider`). Covers:
  - system-prompt extraction;
  - role conversion;
  - the history / last-message split;
  - the streaming loop that accumulates deltas;
  - error wrapping.

  What the SDK does in one call is a parameter.
- **Two list editors.**
  - The library page (`library.dfy`): add with trim guards, remove by index, and the
    case-insensitive search filter.
  - The grocery list (`grocery.dfy`): add the trimmed input, and Enter to add.

Shared helpers:
- `strings.dfy`: JavaScript `trim` with its full whitespace set, ASCII `toLowerCase`,
  `includes`, `startsWith` and decimal rendering.
- `collections.dfy`: an order-preserving `Filter` and a sort by integer key, with their facts.
- `wrappers.dfy`: `Option`.

Where the prose description of the chat relay says events go to "registered" clients, the
code sends them to every connected socket. The model follows the code: a socket that
connected but never joined still receives `user_joined`, `users_list`, `receive_message`,
`user_typing` and `user_left`. Nothing validates the user name either: an empty or duplicate
name is registered as given.

## Model

| member | source | states |
|---|---|---|
| PresenceRelay.SizeIsKeyCount | FullStackIntegration/Experiment-17b/backend/server.js:22 | with unique connection ids the registry has as many entries as keys |
| PresenceRelay.Find | FullStackIntegration/Experiment-17b/backend/server.js:51 | `users.get(c)` finds an entry exactly when `c` is a key, and the entry found is stored under `c` |
| PresenceRelay.FindAt | FullStackIntegration/Experiment-17b/backend/server.js:51 | with unique ids, looking up the key of the i-th entry returns that entry |
| PresenceRelay.Position | FullStackIntegration/Experiment-17b/backend/server.js:30-34 | the insertion-order position of a key: the first entry holding it |
| PresenceRelay.SameLookups | FullStackIntegration/Experiment-17b/backend/server.js:51 | two registries holding the same entries under a key answer `get` for it alike |
| PresenceRelay.Put | FullStackIntegration/Experiment-17b/backend/server.js:30-34 | `set` maps the key to the new value, keeps every other lookup, keeps ids unique, grows the size only for a new key, and puts a new key last or overwrites an old one in place |
| PresenceRelay.Remove | FullStackIntegration/Experiment-17b/backend/server.js:84 | `delete` removes exactly that key, keeps every other lookup and the order of the rest, and shrinks the size only when the key was present |
| PresenceRelay.LiveAppend | FullStackIntegration/Experiment-17b/backend/server.js:29-96 | a join adds its connection to the live set and a disconnect removes it |
| PresenceRelay.RegistrySizeIsLiveCount | FullStackIntegration/Experiment-17b/backend/server.js:22-96 | registry size equals the number of connections that joined and have not disconnected |
| PresenceRelay.Relay.constructor | FullStackIntegration/Experiment-17b/backend/server.js:22 | the relay starts with no sockets, an empty registry and an empty outbox |
| PresenceRelay.Relay.Connect | FullStackIntegration/Experiment-17b/backend/server.js:25 | a new connection is connected but not registered, and nothing is emitted |
| PresenceRelay.SameNameTwice | FullStackIntegration/Experiment-17b/backend/server.js:30-34 | two connections may register the same name; each keeps its own entry, in join order |
| PresenceRelay.Relay.Join | FullStackIntegration/Experiment-17b/backend/server.js:29-47 | the sender's key maps to the unvalidated name, stamped with the first clock reading, and every other entry is unchanged; a re-join keeps the size; `user_joined`, stamped with the second reading, goes to all other connected sockets, then `users_list` with the new registry goes to all |
| PresenceRelay.Relay.SendMessage | FullStackIntegration/Experiment-17b/backend/server.js:50-64 | an unregistered sender changes nothing; a registered one sends `receive_message` with its registered name and the unchanged body to every connected socket, itself included |
| PresenceRelay.Relay.Typing | FullStackIntegration/Experiment-17b/backend/server.js:67-75 | an unregistered sender changes nothing; a registered one sends `user_typing` with its registered name to the other sockets only |
| PresenceRelay.Relay.Disconnect | FullStackIntegration/Experiment-17b/backend/server.js:78-96 | a registered connection loses exactly its own entry, and the remaining sockets get `user_left` and then the shrunk list; an unregistered one changes neither registry nor outbox |
| PresenceRelay.Relay.OnlineUsers | FullStackIntegration/Experiment-17b/backend/server.js:105-107 | the snapshot reads without changing anything, has one entry per live connection and agrees with the registry on every live key |
| ChatClient.IsUserMessage | FullStackIntegration/Experiment-17b/frontend/src/components/ChatRoom.tsx:125-131 | `isUserMessage` is exactly the negation of `isSystemMessage`: both decide only on whether an id is present |
| ChatClient.AppendEntry | FullStackIntegration/Experiment-17b/frontend/src/components/ChatRoom.tsx:49-59 | one entry is added at the end of the log and the earlier entries are unchanged |
| ChatClient.WithoutUser | FullStackIntegration/Experiment-17b/frontend/src/components/ChatRoom.tsx:67 | the filtered typing list holds exactly the old entries with another name |
| ChatClient.WithoutUserConcat | FullStackIntegration/Experiment-17b/frontend/src/components/ChatRoom.tsx:67 | filtering distributes over concatenation, so it keeps relative order |
| ChatClient.WithoutUserIdempotent | FullStackIntegration/Experiment-17b/frontend/src/components/ChatRoom.tsx:67 | filtering a name out twice is filtering it out once |
| ChatClient.TypingPresence | FullStackIntegration/Experiment-17b/frontend/src/components/ChatRoom.tsx:65-72 | after a typing update the sender occurs at most once, occurs iff it is typing, and when typing is the last entry and equals the received data |
| ChatClient.TypingKeepsOthers | FullStackIntegration/Experiment-17b/frontend/src/components/ChatRoom.tsx:67-71 | entries of other users are exactly the old ones in their old relative order |
| ChatClient.TypingIdempotent | FullStackIntegration/Experiment-17b/frontend/src/components/ChatRoom.tsx:65-72 | applying the same typing update twice equals applying it once |
| ChatClient.WithoutUserKeepsNamesUnique | FullStackIntegration/Experiment-17b/frontend/src/components/ChatRoom.tsx:67 | filtering keeps user names unique |
| ChatClient.TypingKeepsNamesUnique | FullStackIntegration/Experiment-17b/frontend/src/components/ChatRoom.tsx:65-72 | a typing list without repeated names keeps that property across updates |
| ChatClient.ChatRoom.constructor | FullStackIntegration/Experiment-17b/frontend/src/components/ChatRoom.tsx:11-16 | the view starts disconnected with empty log, user list, typing list and input |
| ChatClient.ChatRoom.OnConnect | FullStackIntegration/Experiment-17b/frontend/src/components/ChatRoom.tsx:33-37 | on connect the view is marked connected and joins under its user name; the lists are unchanged |
| ChatClient.ChatRoom.OnDisconnect | FullStackIntegration/Experiment-17b/frontend/src/components/ChatRoom.tsx:39-47 | disconnect and connection error only mark the view disconnected |
| ChatClient.ChatRoom.Receive | FullStackIntegration/Experiment-17b/frontend/src/components/ChatRoom.tsx:49-73 | the three message events append their entry, `users_list` replaces the user list with the received one, and a typing event applies the typing update; each touches only its own state |
| ChatClient.ChatRoom.SendMessage | FullStackIntegration/Experiment-17b/frontend/src/components/ChatRoom.tsx:82-94 | only a non-blank input on a connected view is sent, trimmed and non-empty, followed by clearing the input and `typing(false)`; otherwise nothing is sent or cleared |
| ChatClient.ChatRoom.InputChange | FullStackIntegration/Experiment-17b/frontend/src/components/ChatRoom.tsx:96-100 | the input is stored and `typing(true)` is sent |
| EmployeeStore.IndexOf | NodejsProjects/Experiment-10/src/routes/employees.js:56 | `findIndex` gives -1 iff no record has the id, otherwise the first record that has it |
| EmployeeStore.FindById | NodejsProjects/Experiment-10/src/routes/employees.js:74-76 | `find` gives nothing iff no record has the id, otherwise the record at the first matching index |
| EmployeeStore.AddRejectsMissing | NodejsProjects/Experiment-10/src/routes/employees.js:13-15 | an empty name or id fails with "Name and ID are required!" and leaves the array unchanged |
| EmployeeStore.AddRejectsDuplicate | NodejsProjects/Experiment-10/src/routes/employees.js:18-21 | an id equal to a stored one fails and leaves the array unchanged |
| EmployeeStore.AddAppends | NodejsProjects/Experiment-10/src/routes/employees.js:24-35 | otherwise exactly one record with trimmed name and id is appended, earlier records are unchanged, and the reply carries the new record |
| EmployeeStore.AddSucceedsIff | NodejsProjects/Experiment-10/src/routes/employees.js:11-36 | add succeeds exactly when both arguments are non-empty and the id is not stored, and a failure never changes the array |
| EmployeeStore.AddKeepsIdsUnique | NodejsProjects/Experiment-10/src/routes/employees.js:18-30 | stored ids stay unique whenever the id passed in is already trimmed |
| EmployeeStore.UntrimmedIdDuplicates | NodejsProjects/Experiment-10/src/routes/employees.js:18-26 | the duplicate check compares the untrimmed argument: adding `" 7"` next to a stored `"7"` succeeds and stores a second record with id `"7"` |
| EmployeeStore.RemoveFacts | NodejsProjects/Experiment-10/src/routes/employees.js:51-67 | remove succeeds iff the id is non-empty and stored; a failure leaves the array unchanged; a success removes only the first match, shrinks the length by one, keeps the others in order and returns the removed record |
| EmployeeStore.RemoveLeavesNoMatch | NodejsProjects/Experiment-10/src/routes/employees.js:56-61 | with unique ids no record with the removed id remains and ids stay unique |
| EmployeeStore.Employees.constructor | NodejsProjects/Experiment-10/src/routes/employees.js:3 | the store starts empty |
| EmployeeStore.Employees.AddEmployee | NodejsProjects/Experiment-10/src/routes/employees.js:11-36 | the reply and the new array are those of the specification `Add` |
| EmployeeStore.Employees.GetAllEmployees | NodejsProjects/Experiment-10/src/routes/employees.js:42-44 | returns the array itself and changes nothing |
| EmployeeStore.Employees.RemoveEmployee | NodejsProjects/Experiment-10/src/routes/employees.js:51-67 | the reply and the new array are those of the specification `RemoveById` |
| EmployeeStore.Employees.FindEmployeeById | NodejsProjects/Experiment-10/src/routes/employees.js:74-76 | the first record with the id, or nothing iff none has it; the array is unchanged |
| EmployeeStore.Employees.GetEmployeeCount | NodejsProjects/Experiment-10/src/routes/employees.js:82-84 | the count is the array length |
| RateLimit.IncrReports | CapstoneProject/apps/api/src/middleware/rateLimit.ts:18-28 | a missing or ended window reports total 1 and ttl `windowMs`; an open one counts one more hit, keeps its reset time and reports a non-negative ttl |
| RateLimit.TtlWithinWindow | CapstoneProject/apps/api/src/middleware/rateLimit.ts:18-28 | the reported ttl lies within 0 and `windowMs` whenever the clock has not run backwards |
| RateLimit.HitsInOneWindow | CapstoneProject/apps/api/src/middleware/rateLimit.ts:14-29 | hits that fall within the window opened by the first one are all counted in it, up to and including `now == resetTime` |
| RateLimit.OpenWindowCounts | CapstoneProject/apps/api/src/middleware/rateLimit.ts:23-28 | hits up to the reset time each add one and keep the reset time |
| RateLimit.DecrementUndoesIncr | CapstoneProject/apps/api/src/middleware/rateLimit.ts:23-41 | a decrement after an increment in an open window restores the record |
| RateLimit.Store.constructor | CapstoneProject/apps/api/src/middleware/rateLimit.ts:5 | the store starts empty with the configured window |
| RateLimit.Store.Incr | CapstoneProject/apps/api/src/middleware/rateLimit.ts:14-29 | only the key's record changes, to the incremented one, and `(total, ttl)` is its report; every other key keeps its record |
| RateLimit.Store.Decrement | CapstoneProject/apps/api/src/middleware/rateLimit.ts:36-41 | the count drops by one only for a present key with a positive count; no key is added or removed and no other record changes |
| RateLimit.Store.ResetKey | CapstoneProject/apps/api/src/middleware/rateLimit.ts:33-35 | only that key is deleted |
| RateLimit.Store.ResetAll | CapstoneProject/apps/api/src/middleware/rateLimit.ts:30-32 | the store is emptied |
| RateLimit.Store.Shutdown | CapstoneProject/apps/api/src/middleware/rateLimit.ts:42-44 | the store is emptied |
| SseClient.TerminatedAppend | CapstoneProject/apps/web/src/lib/api.ts:84-86 | rebuilding text from lines distributes over concatenation of line lists |
| SseClient.Split | CapstoneProject/apps/web/src/lib/api.ts:85 | `split('\n')` gives at least one piece, and no piece holds a newline |
| SseClient.SplitJoins | CapstoneProject/apps/web/src/lib/api.ts:85 | the pieces before the last, each followed by a newline, and then the last piece give back the text that was split |
| SseClient.SplitAfterLine | CapstoneProject/apps/web/src/lib/api.ts:85 | a line followed by a newline splits off as the first piece |
| SseClient.SplitNoNewline | CapstoneProject/apps/web/src/lib/api.ts:85-86 | a text without a newline splits into itself |
| SseClient.SplitUnique | CapstoneProject/apps/web/src/lib/api.ts:85-86 | cutting a text into newline-free lines plus a newline-free rest can only be done the way `split` does it |
| SseClient.UnterminatedTailIgnored | CapstoneProject/apps/web/src/lib/api.ts:81-86 | the complete lines of a text are exactly the terminated ones, and what follows the last newline stays pending |
| SseClient.DispatchAppend | CapstoneProject/apps/web/src/lib/api.ts:88-101 | calls are made line by line in stream order, so a failed parse does not affect later lines |
| SseClient.DispatchFromDataLines | CapstoneProject/apps/web/src/lib/api.ts:89-96 | every `onChunk` argument is the successful parse of the text after `data: ` on some line |
| SseClient.HttpErrorText | CapstoneProject/apps/web/src/lib/api.ts:67-70 | an unreadable error body gives "Unknown error", a non-empty `error` field is the message, and otherwise the message is "HTTP error! status: " followed by the status |
| SseClient.ReadStep | CapstoneProject/apps/web/src/lib/api.ts:84-86 | after one read, the handled lines with their newlines followed by the new buffer are exactly the chunks received, and neither the lines nor the buffer hold a newline |
| SseClient.HandleLines | CapstoneProject/apps/web/src/lib/api.ts:88-101 | the line loop makes exactly the dispatch of the complete lines: `event: ` lines skipped, `data: ` payloads parsed and passed on when they parse |
| SseClient.Stream | CapstoneProject/apps/web/src/lib/api.ts:67-102 | a non-ok response throws its error text and a missing body throws "No reader available", both before anything is dispatched; otherwise the calls are the dispatch of the complete lines of everything received, so the unterminated last line is never dispatched |
| Sessions.IndexOfId | CapstoneProject/apps/api/src/routes/sessions.ts:34 | `findById` finds the first session whose ObjectId equals the requested one, hex case ignored, or -1 iff there is none |
| Sessions.Locate | CapstoneProject/apps/api/src/routes/sessions.ts:120-125 | an id that is not an ObjectId is malformed; a found session has the same ObjectId, hex case ignored, and belongs to the caller |
| Sessions.FoundIffOwned | CapstoneProject/apps/api/src/routes/sessions.ts:122-125 | with unique ids a well-formed id is found exactly when the caller owns a session with the same ObjectId; a missing session and another user's session answer alike |
| Sessions.LowerHex | CapstoneProject/apps/api/src/routes/sessions.ts:28 | an id is a well-formed ObjectId exactly when its lower-case form is |
| Sessions.IdCaseIgnored | CapstoneProject/apps/api/src/routes/sessions.ts:34 | looking a session up by an id or by its lower-case form gives the same answer |
| Sessions.UpperCaseIdFound | CapstoneProject/apps/api/src/routes/sessions.ts:34 | a session stored as `507f1f77bcf86cd799439011` is found when asked for as `507F1F77BCF86CD799439011` |
| Sessions.ResolveSessionId | CapstoneProject/apps/api/src/routes/sessions.ts:20 | a truthy query value wins over the path parameter; a resolved string comes from one of the two |
| Sessions.SessionMessages | CapstoneProject/apps/api/src/routes/sessions.ts:40 | `find({ sessionId })` holds exactly the messages whose session ObjectId equals the given one |
| Sessions.Chronological | CapstoneProject/apps/api/src/routes/sessions.ts:202 | the session's messages, each kept as often as it occurs, sorted by ascending `createdAt` |
| Sessions.MessagesChecks | CapstoneProject/apps/api/src/routes/sessions.ts:16-41 | missing id gives 400 "sessionId required", then malformed gives 400 "Invalid sessionId format", then missing or not owned gives 404 "Session not found"; otherwise exactly the session's messages, oldest first |
| Sessions.QueryTakesPrecedence | CapstoneProject/apps/api/src/routes/sessions.ts:20 | with a non-empty query parameter the path parameter does not matter |
| Sessions.AliasRouteAgrees | CapstoneProject/apps/api/src/routes/sessions.ts:111-114 | the `/:id/messages` alias answers as the query route with the same id |
| Sessions.MissingIdRefused | CapstoneProject/apps/api/src/routes/sessions.ts:22-25 | no id at all gives 400 "sessionId required" |
| Sessions.InvalidIdRefused | CapstoneProject/apps/api/src/routes/sessions.ts:28-31 | `invalid-id` gives 400 "Invalid sessionId format" whatever the store holds |
| Sessions.ActiveOwned | CapstoneProject/apps/api/src/routes/sessions.ts:52 | the query holds exactly the caller's active sessions |
| Sessions.ListSessions | CapstoneProject/apps/api/src/routes/sessions.ts:49-61 | the list has at most 100 sessions (all of them when fewer); every one is the caller's and active; they are in descending `lastActivityAt` order |
| Sessions.MostRecentKept | CapstoneProject/apps/api/src/routes/sessions.ts:53-54 | sorting by descending `lastActivityAt` and keeping 100 keeps only found sessions, drops none that is more recent than a kept one, and drops nothing when at most 100 were found |
| Sessions.ListKeepsMostRecent | CapstoneProject/apps/api/src/routes/sessions.ts:52-54 | the limit drops only sessions no more recent than every listed one, and with at most 100 all are listed |
| Sessions.NewSession | CapstoneProject/apps/api/src/routes/sessions.ts:78-88 | a new session belongs to the caller and is active; an absent or empty title becomes "New Chat"; the prompt is kept; `used` is 0 and `max` the configured default; it expires 30 days (2592000000 ms) after the clock reading in the `expiresAt` expression, while `lastActivityAt` and `createdAt` are the later readings of the schema defaults |
| Sessions.NewSessionFacts | CapstoneProject/apps/api/src/routes/sessions.ts:81-87 | a new session is never untitled, gets "New Chat" only when no other title was given, expires thirty days after the first clock reading, so at most thirty days after its creation and last activity on a clock that does not run backwards, and starts within its budget |
| Sessions.CreatedIsRetrievable | CapstoneProject/apps/api/src/routes/sessions.ts:147-162 | a session just created under a fresh id is returned to its owner and is "not found" for any other user |
| Sessions.Clamp | CapstoneProject/apps/api/src/routes/sessions.ts:135 | the temperature lands in [0, 2], is kept when already inside, and goes to the nearer bound otherwise |
| Sessions.PatchRules | CapstoneProject/apps/api/src/routes/sessions.ts:127-136 | a title is taken only when its trim is non-blank, and is stored trimmed; any string prompt is stored, even empty; a number temperature is clamped into [0, 2]; every other field is kept |
| Sessions.PatchIdempotent | CapstoneProject/apps/api/src/routes/sessions.ts:127-136 | applying the same PATCH body twice equals applying it once |
| Sessions.PatchKeepsTitle | CapstoneProject/apps/api/src/routes/sessions.ts:128-130 | a non-blank title never becomes blank through PATCH |
| Sessions.ClearedSession | CapstoneProject/apps/api/src/routes/sessions.ts:179-180 | clearing sets `used` to 0, drops the summary and keeps every other field |
| Sessions.WithoutSession | CapstoneProject/apps/api/src/routes/sessions.ts:176 | `deleteMany({ sessionId: session._id })` keeps exactly the messages whose session ObjectId differs |
| Sessions.ClearTouchesOnlyItsSession | CapstoneProject/apps/api/src/routes/sessions.ts:176 | after clearing, the session has no messages and every other session keeps its messages in order |
| Sessions.Superseded | CapstoneProject/apps/api/src/routes/sessions.ts:227 | `slice(0, -5)` holds all but the last five messages, or none when there are at most five |
| Sessions.Retained | CapstoneProject/apps/api/src/routes/sessions.ts:227-230 | the kept messages are the last min(5, n), and together with the superseded ones they give the sorted list back |
| Sessions.WithoutIds | CapstoneProject/apps/api/src/routes/sessions.ts:229 | `deleteMany({ _id: { $in } })` keeps exactly the messages whose id is not listed |
| Sessions.ChatMessages | CapstoneProject/apps/api/src/routes/sessions.ts:203-206 | one `{ role, content }` pair per message, position by position |
| Sessions.SupersededIff | CapstoneProject/apps/api/src/routes/sessions.ts:227-229 | with unique ids a message is deleted exactly when it belongs to the session and is not among the kept ones |
| Sessions.SummarizeKeepsLastFive | CapstoneProject/apps/api/src/routes/sessions.ts:202-230 | after a summary the session keeps exactly its last min(5, n) messages, none older than a deleted one, and other sessions keep all of theirs |
| Sessions.SummarizedSession | CapstoneProject/apps/api/src/routes/sessions.ts:223-224 | the summary is stored and its estimated size becomes `used`; every other field is kept |
| Sessions.SessionStore.Create | CapstoneProject/apps/api/src/routes/sessions.ts:64-107 | no user gives 401 "Authentication required" and changes nothing; otherwise the new session is appended and returned with 201; messages are untouched |
| Sessions.SessionStore.Patch | CapstoneProject/apps/api/src/routes/sessions.ts:117-144 | a malformed id gives 500, a missing or foreign session 404, both changing nothing; otherwise only that session is replaced by its patched version and returned |
| Sessions.SessionStore.Clear | CapstoneProject/apps/api/src/routes/sessions.ts:165-188 | a malformed id gives 500, a missing or foreign session 404, both changing nothing; otherwise the session's messages are deleted and only that session is reset |
| Sessions.SessionStore.Summarize | CapstoneProject/apps/api/src/routes/sessions.ts:191-239 | a malformed id gives 500, a foreign or missing session 404, no messages 400 "No messages to summarize", and a summarizer that throws 500 "Failed to summarize session", all changing nothing; otherwise the summary of the chronological messages is stored, the superseded messages are deleted and ids stay unique |
| GeminiProvider.ApiErrorText | CapstoneProject/apps/api/src/providers/gemini.ts:119-122 | every rethrown message starts with "Gemini API error: ", and a non-Error value gives "Unknown error" after it |
| GeminiProvider.SystemPrompt | CapstoneProject/apps/api/src/providers/gemini.ts:47 | the prompt is absent iff no message has role `system`, otherwise it is the content of the first such message |
| GeminiProvider.Convert | CapstoneProject/apps/api/src/providers/gemini.ts:48-53 | the converted list holds exactly the non-system messages, each with role `user` or `model` and its text unchanged |
| GeminiProvider.ConvertAppend | CapstoneProject/apps/api/src/providers/gemini.ts:48-53 | conversion distributes over concatenation, so it keeps conversation order |
| GeminiProvider.ConvertWithoutSystem | CapstoneProject/apps/api/src/providers/gemini.ts:48-53 | without system messages conversion is one-to-one, position by position |
| GeminiProvider.HistoryThenLast | CapstoneProject/apps/api/src/providers/gemini.ts:56-66 | the history followed by the last message is the converted list; an empty list has neither |
| GeminiProvider.StreamEvents | CapstoneProject/apps/api/src/providers/gemini.ts:74-80 | only non-empty chunk texts are forwarded as deltas, at most one per chunk |
| GeminiProvider.DeltasSpellContent | CapstoneProject/apps/api/src/providers/gemini.ts:71-96 | the forwarded deltas concatenate to the accumulated full text |
| GeminiProvider.StreamShape | CapstoneProject/apps/api/src/providers/gemini.ts:69-82 | `start` comes first and `end` last, everything between is a non-empty delta, and the deltas spell the returned content |
| GeminiProvider.Provider.constructor | CapstoneProject/apps/api/src/providers/gemini.ts:11-21 | the configured flag holds unless making the client with an API key fails; a client exists only when enabled with a key and creation succeeds |
| GeminiProvider.Provider.IsEnabled | CapstoneProject/apps/api/src/providers/gemini.ts:31-33 | reports the enabled flag |
| GeminiProvider.Provider.ForwardChunks | CapstoneProject/apps/api/src/providers/gemini.ts:73-79 | the stream loop's full text is all chunk texts in order, and it forwards exactly one delta per non-empty chunk text, in order |
| GeminiProvider.Provider.Chat | CapstoneProject/apps/api/src/providers/gemini.ts:35-123 | a disabled or client-less provider throws the not-enabled message before any work. Otherwise the SDK receives the model (default "gemini-pro"), the history, the system prompt and the last message. Streaming emits `start`, the non-empty deltas and `end`, and returns their concatenation. A failure of the model lookup or `startChat` is rethrown before anything is emitted. Every failure inside is rethrown with the "Gemini API error: " prefix, including a conversation with no non-system message |
| Library.AddBookFacts | React-Project/Experiment-8/src/components/Library.jsx:17-23 | one book is appended iff both trimmed inputs are non-empty, stored untrimmed, with the earlier books kept and both inputs cleared; otherwise nothing changes |
| Library.RemoveAt | React-Project/Experiment-8/src/components/Library.jsx:25-27 | a valid index drops exactly that book and keeps the others in order; an out-of-range index leaves the list unchanged |
| Library.RemoveAtFacts | React-Project/Experiment-8/src/components/Library.jsx:25-27 | removal at a valid index shortens by one and shifts the later books down by one; the result is always a subsequence |
| Library.RemoveIsSubsequence | React-Project/Experiment-8/src/components/Library.jsx:26 | dropping one index leaves an order-preserving subsequence |
| Library.FilteredBooks | React-Project/Experiment-8/src/components/Library.jsx:29-33 | a book is listed iff the lowercased search occurs in its lowercased title or author |
| Library.FilterFacts | React-Project/Experiment-8/src/components/Library.jsx:29-33 | the filtered list is an order-preserving subsequence of the books, and an empty search lists them all |
| GroceryApp.AddItemFacts | React-Project/LabMst/my-react-app/src/App.jsx:8-13 | a blank input changes nothing; otherwise the trimmed input is appended as the last item, the old list is a prefix of the new one, and the box is cleared |
| GroceryApp.AddItemKeepsClean | React-Project/LabMst/my-react-app/src/App.jsx:9-11 | the list never receives an empty or padded item |
| GroceryApp.AddItemTwice | React-Project/LabMst/my-react-app/src/App.jsx:8-13 | a second add right after the first adds nothing |
| GroceryApp.OnKeyDownFacts | React-Project/LabMst/my-react-app/src/App.jsx:15-19 | Enter behaves exactly like add, and any other key changes nothing |
| Strings.Trim | React-Project/LabMst/my-react-app/src/App.jsx:9 | `trim` gives a text that neither starts nor ends with whitespace, no longer than the input, empty iff the input is blank |
| Strings.TrimRemovesOnlyBlanks | React-Project/LabMst/my-react-app/src/App.jsx:9 | what `trim` drops is a blank prefix and a blank suffix; the rest of the text is kept as is |

## Left out

- Transport: Socket.IO delivery, reconnection and ordering across sockets, the HTTP layer and Express routing. Each relay handler is one atomic step and emits are outbox entries.
- The Socket.IO `connection` handler's logging, console output everywhere, and the React rendering, effects and scrolling.
- Timers: the chat view's 2-second stop-typing timeout and its clearing are not modelled. `InputChange` records only the immediate `typing(true)`.
- Clocks and generated values: `new Date()`, `Date.now()` (the join route reads the clock twice, so `Join` takes two instants; creating a session reads it three times, so `Create` takes a `CreationTimes`), Mongoose's generated ObjectId, `generateId` and the employee date stamp are parameters.
- Persistence: the two Mongo collections are sequences, and a `find().sort()` is a filter followed by a sort on the field. The model's sort is stable, while Mongo leaves documents with equal `createdAt` or `lastActivityAt` in no particular order, so under ties the listed or kept messages are one of several possible choices. Save errors of the create route (400 "Validation failed", 500 "Failed to create session") and database failures of the other routes are not modelled.
- Request validation and authentication: the `validateBody` schema and the `authenticate` middleware. The caller's user id is a parameter.
- The session export route (`sessions.ts` lines 242-275) is not modelled; it only formats stored data.
- Sessions.IsObjectId: accepts only 24 hexadecimal characters. The 12-byte strings that `ObjectId.isValid` also accepts are not modelled.
- Sessions.ApplyPatch: the temperature is a Dafny `real`, so NaN and infinities are not modelled. The `Session.ts` schema has no `temperature` field, so Mongoose's strict mode may not persist it; the model stores it as the handler assigns it.
- `summarizeConversation` and `estimateTokens` are uninterpreted parameters of `SessionStore.Summarize`; a throw from `getDefaultProvider` or `summarizeConversation` is the summarizer's `None` result.
- Sessions.GetMessages: the `Message` schema is not part of this model; its `sessionId` is taken to be an ObjectId, so the query string is matched ignoring hex case.
- SseClient.Stream: `TextDecoder` is replaced by already-decoded string chunks, and `JSON.parse` by a partial function `parse`. An `onChunk` that throws is not modelled.
- SseClient.HttpErrorText: an error body that parses to `null`, or whose `error` field is not a string, is not modelled.
- GeminiProvider.Provider.Chat: the SDK (model lookup, `startChat`, `sendMessage`, `sendMessageStream`, `usageMetadata`) is a parameter `SdkRun`; a throw from the model lookup or `startChat` is its `setupError`, raised before `start` is emitted. Three behaviours are not modelled:
  - a stream that fails part-way;
  - the usage figures in the response;
  - the temperature and timeout, which are not observable.
- Strings.ToLower: only ASCII letters are lowered; JavaScript's full Unicode case mapping is not modelled.
- Library.RemoveAt: the index that the book list component passes in is not visible; `BookList.jsx` is not part of this model.
- The remaining UI components, the socket client singleton, the CLI plumbing of the employee manager and the rate limiter itself (`express-rate-limit`) are not modelled: only the limiter's store is.
