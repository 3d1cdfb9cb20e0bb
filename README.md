# Chat client session store, modelled in Dafny

This project models the session/room store of a mobile chat client
(`store/chatStore.ts`). The store is one mutable snapshot: `user`, `rooms`,
`currentRoom`, `messages`, `isLoading`, `error` and `socket`. Its actions are
`setUsername`, `getRooms`, `createRoom`, `joinRoom`, `leaveRoom`,
`sendMessage` and `setError`. The WebSocket callbacks that `joinRoom` installs
are `onopen`, `onmessage`, `onerror` and `onclose`.

Layout, one module per concern:

- `types.dfy` (`ChatTypes`): the User, Room and Message records, the clock
  reading, inbound frames as a tagged datatype (`MessageFrame`, `JoinFrame`,
  `LeaveFrame`, `OtherFrame`) and outbound frames.
- `js.dfy` (`Js`): the JavaScript semantics the store leans on.
  - `||` on absent or falsy fields: `""`, `0` and a missing field all fall through.
  - `${x}` of a missing field gives `"undefined"`.
  - `Array.prototype.reverse` and `String.prototype.trim`, with the ECMAScript
    white-space set.
- `inbound.dfy` (`Inbound`): the `onmessage` translation.
  - Record construction and the username fallback chain.
  - The dedup scan (`.some`) and prepend.
  - Presence notices.
  - Arrival-order lemmas.
- `directory.dfy` (`Directory`): `rooms.find` by id, and what appending a room does to lookups.
- `store.dfy` (`Store`): imperative classes.
  - `Socket` is the WebSocket handle. It has the room id and username of its URL
    (the values the callbacks capture), a `readyState`, and an `outbox` of the
    frames handed to the transport. `send` throws while CONNECTING, transmits while
    OPEN and discards afterwards. `close()` moves to CLOSING. `Established` stands
    for the transport finishing the handshake.
  - `ChatStore` holds the snapshot. `Valid()` is the invariant that every action
    and callback keeps: a live socket is addressed to the current room.
- `scenarios.dfy` (`Scenarios`): whole sessions driven through the store, with
  their observable outcomes as postconditions.

Inputs from outside the store become parameters:
- HTTP results are `Response<T>` (`Ok(data)` or `Failed`).
- The success of `new WebSocket(...)` is a boolean.
- `Date.now()` and `toISOString()` are one `Clock` value.
- `OnOpen` and `OnClose` receive the socket they were installed on, because
  their handlers read its state or the room and user it was opened for.
  `OnError` and `OnMessage` take no socket: their handlers use only the store.
- `Socket.Established` and `Socket.Terminated` stand for the transport
  finishing the handshake and finishing the close. The close event fires only
  once the socket is CLOSED, so `OnClose` requires that state.

Each action runs atomically.

Behaviour of the code that the model keeps:
- The store keeps the socket from the moment it is constructed, while it is
  still CONNECTING. This is why `sendMessage` has a "not OPEN" path.
- A `join` or `leave` frame is announced as "<name> has <event>ed the room",
  so a leave frame gives "leaveed" (see Findings).
- After a successful join, `currentRoom` is null when the room id is missing
  from the directory.
- Callbacks are not fenced by channel: a callback from a socket that is no
  longer current still acts on the store. An old socket's `onclose` clears the
  current handle. `Scenarios.StaleCloseScenario` shows it.
- A re-join does not close the previous socket. `Store.ChatStore.JoinRoom`
  modifies only the store, so an earlier socket keeps its state.

## Model

| member | source | states |
|---|---|---|
| `Js.ReversedTwice` | store/chatStore.ts:222 | reversing twice gives back the original sequence; the fetched history is reversed once, at line 222 |
| `Js.Trim` | store/chatStore.ts:276 | the trimmed content neither starts nor ends with white space and is no longer than the input |
| `Js.TrimFramed` | store/chatStore.ts:276 | trim removes only white space, and only at the two ends: the result is an infix framed by white-space runs |
| `Js.TrimIdempotent` | store/chatStore.ts:276 | trimming already trimmed content changes nothing |
| `Inbound.ResolveUsername` | store/chatStore.ts:141-145 | the first truthy of payload `username`, payload `sender`, the user's name, else "unknown"; never empty, always one of those candidates |
| `Inbound.NewMessage` | store/chatStore.ts:135-147 | content from the payload, type "message", room id only from the current room ("" without one), id and created_at fall back to the clock when falsy, user id falls back to the user's and then 0 |
| `Inbound.RoomIdIgnoresPayload` | store/chatStore.ts:139 | two records built in the same store context get the same room id, whatever their payloads say |
| `Inbound.Contains` | store/chatStore.ts:151-156 | true exactly when some log entry matches on (content, username, created_at) |
| `Inbound.Receive` | store/chatStore.ts:150-164 | a duplicate leaves the log unchanged, a new record is prepended, and either way the key is then present |
| `Inbound.ReceiveKeepsUnique` | store/chatStore.ts:150-164 | receiving keeps a log with no repeated key free of repeated keys |
| `Inbound.SystemMessage` | store/chatStore.ts:166-174 | a notice has username "System", user id 0, type "system", and id and timestamp from the clock |
| `Inbound.TranslateShape` | store/chatStore.ts:127-180 | existing entries are never removed or reordered and at most one is added; other events, and message frames without a `message` object, change nothing; join/leave always prepend a notice reading "<name> has <event>ed the room" ("leaveed" for leave); message frames go through dedup |
| `Inbound.Translate` | store/chatStore.ts:127-180 | one frame never shrinks the log and adds at most one entry |
| `Inbound.DuplicateIgnored` | store/chatStore.ts:150-163 | a message frame whose key matches an existing entry leaves the log unchanged |
| `Inbound.EchoRecordedOnce` | store/chatStore.ts:138-163 | the same frame delivered twice is recorded once, if it carries created_at or the clock has not moved |
| `Inbound.MessageFrameKeepsUnique` | store/chatStore.ts:130-164 | message frames never introduce a repeated key |
| `Inbound.ArrivalsPrepended` | store/chatStore.ts:158-161 | distinct arrivals end up newest first in front of the earlier log, none lost |
| `Inbound.DisplayOrderIsArrivalOrder` | store/chatStore.ts:158-161 | the log read oldest-first lists the reversed earlier log, then the arrivals in arrival order |
| `Inbound.LeaveNoticeAsWritten` | store/chatStore.ts:168 | as written, a leave frame for "bob" yields "bob has leaveed the room", not "bob has left the room" |
| `Inbound.PresenceTextCorrected` | store/chatStore.ts:168 | the corrected text matches the source for join, and for leave reads like the close notice of line 203 |
| `Inbound.TranslateIntendedDiffers` | store/chatStore.ts:165-178 | the intended translation agrees with the code on every frame but leave; on a leave frame both prepend one notice to the same log, differing only in its text, and the intended text is the corrected one |
| `Directory.FindRoom` | store/chatStore.ts:219 | None exactly when no room has the id, else the first room with it |
| `Directory.FindAfterAppend` | store/chatStore.ts:95-99 | appending a room preserves every earlier lookup, and the new room is found by its id unless an earlier room already had that id |
| `Store.Socket.constructor` | store/chatStore.ts:119 | a new socket is CONNECTING, addressed by room id and username, and has sent nothing |
| `Store.Socket.Send` | store/chatStore.ts:188-194 | throws exactly while CONNECTING, appends the frame to the outbox exactly while OPEN, never changes readyState |
| `Store.Socket.Close` | store/chatStore.ts:250 | CONNECTING and OPEN become CLOSING, other states stay, nothing is sent |
| `Store.ChatStore.constructor` | store/chatStore.ts:57-64 | the initial snapshot is empty: no user, rooms, room, messages, error or socket, not loading |
| `Store.ChatStore.SetUsername` | store/chatStore.ts:66-78 | success publishes the user and clears the error; failure keeps the user and sets "Failed to set username"; loading ends either way |
| `Store.ChatStore.GetRooms` | store/chatStore.ts:80-88 | success replaces the room list wholesale and clears the error; failure keeps it and sets "Failed to fetch rooms" |
| `Store.ChatStore.CreateRoom` | store/chatStore.ts:90-103 | success appends the new room after the existing ones and joins it, making it current when no earlier room had its id; failure appends nothing and sets "Failed to create room" |
| `Store.ChatStore.JoinRoom` | store/chatStore.ts:105-233 | without a user: only the error "Please set username first"; on success: current room is the directory entry with that id or none, messages are the reversed history, a fresh CONNECTING socket for that room and user, no error; on failure: error set, socket cleared, room and messages untouched |
| `Store.ChatStore.LeaveRoom` | store/chatStore.ts:235-257 | always ends with no room, no messages and no socket; only with socket, room and user present does it send a leave frame (if OPEN) and close the socket; other fields unchanged |
| `Store.ChatStore.SendMessage` | store/chatStore.ts:259-283 | a missing socket, room or user sets an error and sends nothing; a socket not OPEN sets "Connection lost. Reconnecting...", sends nothing and asks to re-join the same room; otherwise exactly one message frame with trimmed content, the user's name and id, and the socket's room |
| `Store.ChatStore.SetError` | store/chatStore.ts:289 | sets the error and nothing else |
| `Store.ChatStore.OnOpen` | store/chatStore.ts:183-195 | clears the error and sends exactly one join frame naming the socket's user and room |
| `Store.ChatStore.OnError` | store/chatStore.ts:122-125 | sets "Connection failed. Please try again." and drops the socket; nothing else changes |
| `Store.ChatStore.OnClose` | store/chatStore.ts:198-217 | fires on a CLOSED socket; with a current room, prepends "<joined user> has left the room" as a system notice; the socket is cleared either way |
| `Store.ChatStore.OnMessage` | store/chatStore.ts:127-180 | the log becomes the translation of the frame against the current room and user, with the as-written presence text; nothing else changes |
| `Scenarios.JoinScenario` | store/chatStore.ts:105-225 | joining "r1" as alice with a one-entry history leaves room "r1" current, one message, no error |
| `Scenarios.SendScenario` | store/chatStore.ts:183-283 | after open and a send of " hi", the channel carried the join frame and the trimmed message, and the local log is still empty |
| `Scenarios.EchoScenario` | store/chatStore.ts:150-163 | an echo delivered twice is logged once |
| `Scenarios.NoChannelScenario` | store/chatStore.ts:226-264 | after a failed join, a send yields an error and no re-join, and leaving yields no room, no messages and no socket |
| `Scenarios.ReconnectScenario` | store/chatStore.ts:266-272 | a send on a CONNECTING socket sends nothing, sets "Connection lost. Reconnecting..." and asks to re-join "r1" |
| `Scenarios.StaleCloseScenario` | store/chatStore.ts:198-217 | the close event of a socket replaced by a re-join clears the new handle and adds the leave notice |

## Findings

| source | as written | input that shows it | evidently intended | confidence | as-written member | corrected member |
|---|---|---|---|---|---|---|
| store/chatStore.ts:168 | the notice is `${data.username} has ${data.event}ed the room` | `{event: "leave", username: "bob"}` gives "bob has leaveed the room" | "bob has left the room", the wording `onclose` uses at line 203 | high; not executed | `Inbound.LeaveNoticeAsWritten` | `Inbound.TranslateIntendedDiffers` |

`Inbound.Translate`, and with it `Store.ChatStore.OnMessage`, uses the
as-written text `Inbound.PresenceTextAsWritten`, as the code does.
`Inbound.TranslateIntended` is the same translation with the corrected text
`Inbound.PresenceText`; `Inbound.PresenceTextCorrected` and
`Inbound.TranslateIntendedDiffers` state what changes.

## Left out

- HTTP requests (axios): each one is a `Response` parameter. URLs, status
  codes and response parsing are not modelled.
- Identity persistence (AsyncStorage): `SetUsername`'s response covers both
  the POST and the write to storage. A failure of either takes the same error path.
- The transport itself.
  - Not modelled: URL construction and the platform choice of `ws`/`wss`,
    `JSON.parse`/`JSON.stringify`, `bufferedAmount`, and the order in which a
    browser fires `error` and then `close`.
  - A frame that does not parse throws before changing anything, so it behaves
    like `OtherFrame`.
- Inbound fields of unexpected JavaScript types. An `id` that is a string is not
  modelled. A missing `content` is not modelled either: payload content is always a string.
- Clock values are `Clock` parameters (`Date.now()`, `toISOString()`).
- Async interleaving: each action is atomic. Not modelled:
  - the intermediate `isLoading: true` and `error: null` states;
  - overlapping `joinRoom`/`getRooms` completions;
  - stale HTTP responses arriving after navigation.
- `Store.ChatStore.SendMessage`: the source starts `joinRoom` without awaiting it.
  The method returns that room id as `rejoin` so the caller can run
  `JoinRoom` next. Its own postcondition therefore leaves the error at
  "Connection lost. Reconnecting...".
- `Store.ChatStore.SendMessage`: the `catch` that sets "Failed to send message.
  Please try again." (store/chatStore.ts:284-286) is not modelled. `send` on an
  OPEN socket never throws for a string frame.
- `Store.ChatStore.OnOpen`: requires the socket to be OPEN. The open event only
  fires in that state, so the `send` inside it cannot throw.
- Logging (`console.log`, `console.error`).
- Screens (app/index.tsx, app/rooms.tsx, app/_layout.tsx, app/chat/[id].tsx):
  React Native UI, animation and navigation. This includes:
  - the length-3 checks on names;
  - the logout reset, which writes the snapshot directly;
  - the capped, delayed automatic reconnect in app/chat/[id].tsx:78-86.
