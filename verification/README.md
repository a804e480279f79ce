# Chat relay: registry, history and broadcast

A Dafny model of the in-memory state machine of a WebSocket group-chat relay
(`server.js`). Clients connect, register a display name with a `newUser` frame, post
text with `message` frames, and are announced to everyone when they come and go. The
server keeps two arrays: `users` (entries `{username, ws, id}`) and `messages` (the
history replayed to newcomers). All sends are recorded in an outbox, oldest first.

- `wire.dfy`, module `Wire`: inbound frames as JSON parsing leaves them (`Value` is a
  string or anything else), registry and history entries, and the outbound envelopes
  `createMsg` builds. `Tag` and `Text` give each envelope's `type` and the fixed reason
  texts.
- `registry.dfy`, module `Registry`: the pure checks the handlers use. These are the
  blank test `/^\s*$/` over JavaScript's `\s` characters, the exact-match name test,
  `findIndex` by socket, `find` by declared id and the single-entry `splice`.
- `protocol.dfy`, module `Protocol`: the whole state (`users`, `messages`, outbox) and
  one pure transition per socket event: `Connect`, `Receive` (which dispatches to
  `NewUser` or `PostMessage`) and `Close`. `Run` folds a sequence of events. The
  lemmas state the relay's rules and its invariants.
- `server.dfy`, module `Server`: class `ChatServer` with the arrays as fields and one
  method per handler. The methods use the same loops as the source (`sendToAll`, the
  two replay loops on connect). Each method is proved to make exactly the transition
  its `Protocol` function defines, so every lemma about that function holds of the
  method.

Three behaviours of the code are worth knowing before reading the lemmas:

- A new name is announced with `userCame` to every open connection, the requester's
  own included (server.js:130, 138-140).
- A message is credited to whichever entry has the declared `userId` (server.js:93).
  Nothing checks that this entry belongs to the sending socket.
- Nothing stops one socket from registering several names (server.js:118-128). On
  close, only the first entry bound to the socket is removed (server.js:73-76). After
  close, a socket can still hold later entries, registered to a socket that is gone
  (`CloseLeavesLaterBinding`, `StaleNameAfterClose`). Closing is idempotent only when
  at most one entry is bound to the socket (`CloseIdempotent`).

## Model

| member | source | states |
|---|---|---|
| Wire.Tag | server.js:133-136 | No contract of its own. It gives the `type` field `createMsg` writes for each envelope; `TagDeterminesKind` states what it promises. |
| Wire.TagDeterminesKind | server.js:133-136 | Two envelopes with the same `type` tag are the same kind of envelope. |
| Wire.Text | server.js:60 | No contract of its own. It gives the fixed `data` text each `error` and `usernameError` carries (server.js:60, 85, 89, 111, 115, 119); `TextDeterminesReason` states what it promises. |
| Wire.TextDeterminesReason | server.js:109-121 | Distinct reasons go out with distinct texts. |
| Registry.IsWs | server.js:88 | No contract of its own. It is the character class `\s` of the blank test (server.js:88, 114): the ASCII white space, U+00A0, U+1680, U+2000-U+200A, U+2028, U+2029, U+202F, U+205F, U+3000 and U+FEFF. |
| Registry.Blank | server.js:114 | No contract of its own. `/^\s*$/` holds exactly when every character is white space, so the empty string is blank. `NewUserInvalidName` and `PostMessageInvalidBody` state its effect. |
| Registry.Taken | server.js:118 | No contract of its own. Some entry's name is exactly equal to the candidate; `CheckNameAccepts` and `NewUserDuplicateName` state its effect. |
| Registry.CheckName | server.js:110-121 | No contract of its own. It runs the three checks in the source's order; `CheckNameAccepts`, `NewUserInvalidName` and `NewUserDuplicateName` state its results. |
| Registry.IndexOfConn | server.js:73 | The result is -1 exactly when no entry is bound to the socket. Otherwise it is the first entry bound to it. |
| Registry.IndexOfId | server.js:93 | The result is -1 exactly when no entry's id is strictly equal to the declared `userId` (a non-string id matches nothing). Otherwise it is the first entry that matches. |
| Registry.FindById | server.js:93 | The result is `None` exactly when no entry has the declared id. Otherwise it is the first entry with that id. |
| Registry.RemoveAt | server.js:76 | `splice(k, 1)` drops entry `k`: one fewer entry, the earlier ones in place and the later ones shifted down by one. |
| Registry.CheckNameAccepts | server.js:109-121 | A name is accepted exactly when it is a string, not blank, and carried by no entry. |
| Registry.RemoveAtKeepsDistinct | server.js:76 | Removing one entry keeps names, and ids, pairwise distinct. |
| Registry.AppendKeepsDistinct | server.js:128 | Appending an entry with an untaken name (or unused id) keeps names (or ids) pairwise distinct. |
| Protocol.Connect | server.js:45-53 | No contract of its own. The transition for an accepted socket; `ConnectReplays` states it. |
| Protocol.NewUser | server.js:109-131 | No contract of its own. The transition for a `newUser` frame; `NewUserInvalidName`, `NewUserDuplicateName`, `NewUserAccepted`, `NewUserEchoesToRequester` and `NewUserKeepsDistinct` state it. |
| Protocol.PostMessage | server.js:82-107 | No contract of its own. The transition for a `message` frame; `PostMessageInvalidBody`, `PostMessageUnknownId` and `PostMessageAccepted` state it. |
| Protocol.Receive | server.js:55-70 | No contract of its own. The `message` listener's decode-and-dispatch; `ReceiveMalformedOrUnknown` states the cases it does not hand to a handler. |
| Protocol.Close | server.js:72-79 | No contract of its own. The transition for a closed socket; `CloseUnbound`, `CloseBound`, `CloseIdempotent`, `CloseLeavesLaterBinding` and `CloseKeepsDistinct` state it. |
| Protocol.Step | server.js:45-79 | No contract of its own. One event handled by its listener; `StepKeepsValid`, `StepAppendOnly` and `StepUsersFrom` state it. |
| Protocol.Run | server.js:45-131 | No contract of its own. Events handled one at a time, in order; `RunKeepsValid`, `RunAppendOnly` and `RunKeepsIdsDistinct` state it. |
| Protocol.Broadcast | server.js:138-140 | `sendToAll` makes one send to each open connection, in their order, all carrying the same envelope. |
| Protocol.ReplayUsers | server.js:47-49 | One `userCame` per registry entry, in registry order, all to the new socket. |
| Protocol.ReplayHistory | server.js:51-53 | One `message` per history entry, in insertion order, all to the new socket. |
| Protocol.ReceiveMalformedOrUnknown | server.js:55-70 | A frame that is not JSON draws exactly one `error` to its sender and changes nothing else. A frame whose type is neither `newUser` nor `message` changes nothing. |
| Protocol.NewUserInvalidName | server.js:110-117 | A name that is not a string or is blank draws exactly one `usernameError` (with the matching reason) to the requester. Registry and history are unchanged. |
| Protocol.NewUserDuplicateName | server.js:118-121 | A name that exactly matches an entry's name draws one `usernameError` (name taken) to the requester only. Registry and history are unchanged. |
| Protocol.NewUserAccepted | server.js:123-130 | An accepted name appends exactly one entry `{username, ws, id}` after the unchanged earlier entries. The requester gets `userId`, then every open connection gets `userCame` in turn. Earlier sends are kept. |
| Protocol.NewUserEchoesToRequester | server.js:130 | When the requester's socket is open, the `userCame` announcement of its own name reaches it too. |
| Protocol.NewUserKeepsDistinct | server.js:118-128 | Registration keeps usernames pairwise distinct. It keeps ids pairwise distinct when the generated id is fresh. |
| Protocol.PostMessageInvalidBody | server.js:84-91 | A body that is not a string or is blank draws exactly one `error` to the sender. Registry and history are unchanged and nothing is broadcast. |
| Protocol.PostMessageUnknownId | server.js:93-94 | A valid body whose declared id matches no entry changes nothing and sends nothing. |
| Protocol.PostMessageAccepted | server.js:93-105 | A valid body whose first id match is entry `k` appends exactly one message after the earlier ones, carrying `k`'s username, the body, the generated id and the date. The message goes to every open connection in turn. The sending socket need not be `k`'s. |
| Protocol.CloseUnbound | server.js:72-79 | Closing a socket with no entry bound to it changes nothing and sends nothing. |
| Protocol.CloseBound | server.js:72-79 | Closing removes only the first entry bound to the socket and keeps the rest in order. `userGone` with that name goes to every open connection in turn. History and earlier sends are unchanged. |
| Protocol.CloseIdempotent | server.js:72-79 | When at most one entry is bound to the socket, closing twice equals closing once. |
| Protocol.CloseLeavesLaterBinding | server.js:73-76 | When two entries are bound to the closing socket, the later one is still registered afterwards. |
| Protocol.CloseKeepsDistinct | server.js:72-79 | Closing keeps usernames and ids pairwise distinct. |
| Protocol.ConnectReplays | server.js:45-53 | A new socket gets one `userCame` per entry in registry order, then one `message` per history entry in insertion order. Registry, history and earlier sends are unchanged. |
| Protocol.StepKeepsValid | server.js:45-131 | Every event (connect, frame, close) keeps usernames pairwise distinct. |
| Protocol.RunKeepsValid | server.js:45-131 | Usernames stay pairwise distinct along any sequence of events. |
| Protocol.StepAppendOnly | server.js:45-131 | Every event keeps the history and the outbox as prefixes of their new values. |
| Protocol.RunAppendOnly | server.js:45-131 | The history and the outbox are append-only along any sequence of events. |
| Protocol.StepUsersFrom | server.js:45-131 | Every entry after an event was present before, or was registered during that event with its generated id. |
| Protocol.RunKeepsIdsDistinct | server.js:125-128 | Ids stay pairwise distinct along any run whose generated ids are fresh. |
| Protocol.FindByIdUnique | server.js:93 | With distinct ids, the lookup for an entry's id returns that entry. |
| Protocol.StaleNameAfterClose | server.js:72-79 | One socket registers "ann" then "bob" and closes. Only "ann" is removed, and "bob" stays registered. |
| Server.ChatServer.constructor | server.js:35-37 | The relay starts with an empty registry, history and outbox. |
| Server.ChatServer.SendToAll | server.js:138-140 | The loop appends exactly `Broadcast(open, e)` to the outbox and changes nothing else. |
| Server.ChatServer.OnConnection | server.js:45-53 | The two replay loops make exactly the `Connect` transition and keep the names distinct. |
| Server.ChatServer.NewUserHandler | server.js:109-131 | The handler makes exactly the `NewUser` transition and keeps the names distinct. |
| Server.ChatServer.MessageHandler | server.js:82-107 | The handler makes exactly the `PostMessage` transition and keeps the names distinct. |
| Server.ChatServer.OnMessage | server.js:55-70 | The dispatcher makes exactly the `Receive` transition and keeps the names distinct. |
| Server.ChatServer.OnClose | server.js:72-79 | `findIndex` plus `splice` make exactly the `Close` transition and keep the names distinct. |

## Left out

- HTTP plumbing is not modelled: the Koa app, router, body parser, static files, CORS
  and `server.listen` (server.js:1-31, 142).
- The WebSocket library is not modelled. Event registration, `readyState` and actual
  I/O are left out. The set of OPEN connections is a parameter (`open`) of each
  broadcast, and a send is an outbox entry. Send failures are not modelled.
- JSON is not modelled. `JSON.parse` becomes the `Frame` datatype (`Malformed` or
  the parsed fields), and `createMsg` becomes the `Envelope` constructors.
- A frame that parses to `null` is left out. Reading `msg.type` on it throws in the
  source. Every other parsed value is a `Parsed` frame; a non-object gives a non-string
  `type`, so the frame is ignored.
- `uuid.v4()` and `new Date()` are foreign and nondeterministic, so they are
  parameters (`freshId`, `date`). Their uniqueness is an assumption: `FreshIds` in
  `RunKeepsIdsDistinct`.
- `errCallback` is left out, with send failures. After a successful send it does
  nothing, because `err` is empty. After a failed send it refers to a `ws` that is not
  in its scope (server.js:39-43), so it throws a `ReferenceError`.
- Concurrency between sockets is left out. Node runs the handlers one at a time, so
  each event is one atomic transition.
- Strings are sequences of Unicode scalar values, not UTF-16 code units. A JSON frame
  can carry a lone surrogate (`"\ud800"`), which is a valid JavaScript name or message
  body. The model's `string` cannot hold it, so such names and bodies are not modelled.
  For every string the model can hold, the blank test and exact name equality agree
  with the source, because no character `\s` matches lies outside the basic plane.
