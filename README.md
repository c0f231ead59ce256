# WebSocket chat endpoint: registry, routing and heartbeat

This project models the one class of the chat server, the `/imserver/{userId}`
WebSocket endpoint. Each accepted socket is one endpoint instance. It holds a
session, the user id it was opened with, and a heartbeat scheduler. The class
also keeps two process-wide static fields:

- `webSocketMap`, which maps each user id to the list of that user's connections;
- `onlineCount`, the number of users with at least one connection.

The model has three modules and a client module:

- `ConnectionTable` is the registry as a value. A `Table` holds `webSocketMap`
  and `onlineCount`. `Open` and `Close` are what `onOpen` and `onClose` do to
  them, and `RemoveFirst` is `List.remove(Object)` with identity equality.
  `Consistent` is the counting invariant: no user is kept with an empty list,
  and `onlineCount` is the number of keys. `Distinct` says no list holds a
  connection twice, which is what holds when each connection is opened once.
  The lemmas state what each operation does to the table and that the
  invariants are kept.
- `WebSocketServer` holds the classes.
  - `Registry` carries the static fields. `Register` and `Unregister` are
    tied to `Open` and `Close` through `View()`. `Valid()` (that is,
    `Consistent`) is the class invariant. The constructor (the static
    initialiser) establishes it, and `Register` and `Unregister` keep it.
    The counter helpers `AddOnlineCount` and `SubOnlineCount` neither need
    nor keep it on their own. They are only called inside `Register` and
    `Unregister`, while the map changes with them.
  - `Connection` is one endpoint instance. `open` stands for
    `session.isOpen()`, and `heartbeat` is the scheduler: `Idle` (null),
    `Running`, or `Shutdown`.
  - `Transport` holds the log of everything emitted on any session, in
    order. A send appends one `Sent(connection, payload)` entry.
  - The fan-out loop shared by `onMessage` and `sendInfo` is `FanOut`. It is
    specified by the function `Emitted`: one entry per open connection of
    the list, in list order.
- `StringUtils` defines the blankness test behind the library call
  `StringUtils.isNotBlank`, which the endpoint applies at lines 75, 80 and 112
  of `WebSocketServer.java`. A string is blank when every character satisfies
  `Character.isWhitespace`. `IsWhitespace` and `IsBlank` are definitions of
  that library behaviour, not operations of the endpoint, so they have no
  row in the table below. Their effect is stated through `Lookup`,
  `Destination`, `LookupOffline` and `OnMessage`.
- `Scenarios` are client methods that use the contracts alone:
  - user u1 opens two connections and user u2 opens one, so two users are online;
  - u2 sends u1 a message with a forged `fromUserId`, and both u1 connections receive it stamped with u2;
  - a message to a user with no connections sends nothing;
  - u1 closes its connections one at a time and goes offline only after the second;
  - a heartbeat on an open session sends "heartbeat", and the first tick after the session closes shuts it down.

The JSON library is abstracted away. `onMessage` receives the parse result as
a parameter (`None` when parsing threw). The forwarded object is sent as a
`Json(envelope)` payload rather than as serialised text.

## Model

| member | source | states |
|---|---|---|
| ConnectionTable.Initial | src/main/java/com/softdev/system/demo/config/WebSocketServer.java:21-22 | the registry at start-up (empty map, count 0) satisfies the counting and no-duplicate invariants |
| ConnectionTable.IndexOf | src/main/java/com/softdev/system/demo/config/WebSocketServer.java:59 | the index `remove` finds holds the connection, and no earlier element is that connection |
| ConnectionTable.RemoveFirst | src/main/java/com/softdev/system/demo/config/WebSocketServer.java:59 | removing an absent connection leaves the list unchanged; removing a present one drops exactly its first occurrence and keeps every other connection in its original order |
| ConnectionTable.RemoveFirstMultiset | src/main/java/com/softdev/system/demo/config/WebSocketServer.java:59 | one occurrence of the connection goes if there is one, and every other element stays |
| ConnectionTable.Open | src/main/java/com/softdev/system/demo/config/WebSocketServer.java:33-41 | opening adds the user as a key if absent and appends the connection at the end of that user's list; other users' lists are unchanged; the count goes up by 1 exactly when the user was absent (cases split out in OpenExisting and OpenAbsent; invariants in OpenConsistent and OpenDistinct) |
| ConnectionTable.OpenExisting | src/main/java/com/softdev/system/demo/config/WebSocketServer.java:33-34 | opening for a user already in the map appends the connection at the end of that user's list; keys, other lists and `onlineCount` are unchanged |
| ConnectionTable.OpenAbsent | src/main/java/com/softdev/system/demo/config/WebSocketServer.java:35-41 | opening for an absent user adds that key with the one-element list `[c]` and raises `onlineCount` by exactly 1; other lists are unchanged |
| ConnectionTable.OpenConsistent | src/main/java/com/softdev/system/demo/config/WebSocketServer.java:33-41 | opening keeps every list non-empty and `onlineCount` equal to the number of keys, hence non-negative |
| ConnectionTable.Close | src/main/java/com/softdev/system/demo/config/WebSocketServer.java:57-64 | closing removes the first occurrence of the connection from the user's list; the key is deleted and the count drops by 1 exactly when that leaves the list empty; other users and absent users are untouched (cases in CloseListed and CloseHarmless; invariants in CloseConsistent, CloseDistinct and CloseIdempotent) |
| ConnectionTable.CloseListed | src/main/java/com/softdev/system/demo/config/WebSocketServer.java:57-64 | closing a listed connection deletes the key and lowers the count by exactly 1 iff it was the user's only connection; otherwise the key stays with the list one shorter and the count is unchanged; other users are untouched |
| ConnectionTable.CloseHarmless | src/main/java/com/softdev/system/demo/config/WebSocketServer.java:57-60 | closing when the user is absent, or when the connection is not in the user's non-empty list, leaves map and count unchanged |
| ConnectionTable.CloseConsistent | src/main/java/com/softdev/system/demo/config/WebSocketServer.java:57-64 | closing keeps every list non-empty and `onlineCount` equal to the number of keys, hence non-negative |
| ConnectionTable.CloseIdempotent | src/main/java/com/softdev/system/demo/config/WebSocketServer.java:57-64 | when the user's list holds the connection at most once, unregistering twice gives the same registry as unregistering once |
| ConnectionTable.RemoveFirstAppend | src/main/java/com/softdev/system/demo/config/WebSocketServer.java:59 | removing a connection that was just appended to a list not holding it gives back the original list |
| ConnectionTable.CloseUndoesOpen | src/main/java/com/softdev/system/demo/config/WebSocketServer.java:33-64 | in a consistent registry, opening a connection not yet in the user's list and then closing it restores map and count exactly |
| ConnectionTable.OpenDistinct | src/main/java/com/softdev/system/demo/config/WebSocketServer.java:33-41 | opening a connection not yet in the user's list keeps every list free of duplicates |
| ConnectionTable.CloseDistinct | src/main/java/com/softdev/system/demo/config/WebSocketServer.java:57-64 | closing keeps every list free of duplicates |
| ConnectionTable.Lookup | src/main/java/com/softdev/system/demo/config/WebSocketServer.java:112-117 | a non-blank registered user id yields exactly that user's list; a blank or unregistered one yields no connections (the converse, under the invariant, is LookupOffline) |
| ConnectionTable.LookupOffline | src/main/java/com/softdev/system/demo/config/WebSocketServer.java:112-117 | in a consistent registry the destination has no connections iff its id is blank or not a key; otherwise the recipients are exactly that user's list |
| WebSocketServer.Stop | src/main/java/com/softdev/system/demo/config/WebSocketServer.java:156-161 | stopping never leaves the heartbeat running; it changes the state iff the heartbeat was running, and then to shut down; a never-started or already shut-down heartbeat is left as it is |
| WebSocketServer.Stamp | src/main/java/com/softdev/system/demo/config/WebSocketServer.java:78 | the forwarded envelope's `fromUserId` is the sender's user id whatever the client supplied; every other field is kept with its value and no field is added besides `fromUserId` |
| WebSocketServer.Destination | src/main/java/com/softdev/system/demo/config/WebSocketServer.java:79-80 | a missing, blank or unregistered `toUserId` gives no recipients; a present, non-blank, registered `toUserId` gives exactly that user's list |
| WebSocketServer.Emitted | src/main/java/com/softdev/system/demo/config/WebSocketServer.java:81-83 | a fan-out emits no more messages than the list has entries (per-connection counts are in EmittedCount) |
| WebSocketServer.EmittedRecipients | src/main/java/com/softdev/system/demo/config/WebSocketServer.java:81-83 | a fan-out sends only to listed open connections, always the same payload, and reaches every listed open connection, so a closed one does not stop the others; a connection outside the list, the sender included, gets nothing |
| WebSocketServer.EmittedCount | src/main/java/com/softdev/system/demo/config/WebSocketServer.java:81-83 | each open connection receives the payload exactly as many times as it occurs in the list (once, in a duplicate-free list); a closed one receives nothing |
| WebSocketServer.FanOut | src/main/java/com/softdev/system/demo/config/WebSocketServer.java:81-83 | the loop appends exactly `Emitted(list, payload)` to the log: one send per open listed connection, in list order |
| WebSocketServer.Registry.constructor | src/main/java/com/softdev/system/demo/config/WebSocketServer.java:21-22 | the static state starts as the empty map and count 0, which satisfies the registry invariant |
| WebSocketServer.Registry.GetOnlineCount | src/main/java/com/softdev/system/demo/config/WebSocketServer.java:121-123 | the reported count is the number of users in the map, and never negative |
| WebSocketServer.Registry.AddOnlineCount | src/main/java/com/softdev/system/demo/config/WebSocketServer.java:125-127 | the counter goes up by exactly one |
| WebSocketServer.Registry.SubOnlineCount | src/main/java/com/softdev/system/demo/config/WebSocketServer.java:129-131 | the counter goes down by exactly one |
| WebSocketServer.Registry.Register | src/main/java/com/softdev/system/demo/config/WebSocketServer.java:33-41 | the map and the counter become `Open` of their old values, and the registry invariant is kept |
| WebSocketServer.Registry.Unregister | src/main/java/com/softdev/system/demo/config/WebSocketServer.java:57-64 | the map and the counter become `Close` of their old values, and the registry invariant is kept |
| WebSocketServer.Registry.SendInfo | src/main/java/com/softdev/system/demo/config/WebSocketServer.java:110-119 | the log grows by exactly the fan-out of the text to the user's connections, which is nothing for a blank or unregistered user id |
| WebSocketServer.Connection.constructor | src/main/java/com/softdev/system/demo/config/WebSocketServer.java:23-25 | a fresh endpoint has the empty user id, no open session and no heartbeat scheduler |
| WebSocketServer.Connection.SendMessage | src/main/java/com/softdev/system/demo/config/WebSocketServer.java:102-108 | one message is emitted to this connection iff its session is open; on a closed session the log is unchanged and nothing fails |
| WebSocketServer.Connection.StartHeartbeat | src/main/java/com/softdev/system/demo/config/WebSocketServer.java:136-137 | the heartbeat is running afterwards |
| WebSocketServer.Connection.StopHeartbeat | src/main/java/com/softdev/system/demo/config/WebSocketServer.java:156-161 | the heartbeat becomes `Stop` of its old state, so stopping twice or stopping a never-started heartbeat does nothing |
| WebSocketServer.Connection.HeartbeatTick | src/main/java/com/softdev/system/demo/config/WebSocketServer.java:139-149 | a tick on an open session emits exactly "heartbeat" to this connection and keeps the heartbeat running; on a closed session it emits nothing and shuts the heartbeat down |
| WebSocketServer.Connection.OnOpen | src/main/java/com/softdev/system/demo/config/WebSocketServer.java:27-53 | binds the session and the user id, applies `Open` to the registry (keeping its invariant), sends the greeting to this connection only if its session is open, and leaves the heartbeat running |
| WebSocketServer.Connection.OnClose | src/main/java/com/softdev/system/demo/config/WebSocketServer.java:55-69 | applies `Close` under the connection's own user id (keeping the invariant) and stops the heartbeat |
| WebSocketServer.Connection.OnMessage | src/main/java/com/softdev/system/demo/config/WebSocketServer.java:71-91 | a blank message or a failed parse sends nothing; otherwise the log grows by exactly the fan-out of the stamped envelope to the destination's connections (none when the destination is missing, blank or offline) |
| WebSocketServer.Connection.OnError | src/main/java/com/softdev/system/demo/config/WebSocketServer.java:93-100 | only the heartbeat changes, and it is stopped; the connection stays registered |

## Left out

- Concurrency. `ConcurrentHashMap`, `CopyOnWriteArrayList` and the `synchronized` counter methods become plain sequential state. The check-then-act races in `onOpen` and `onClose` cannot arise in a sequential model.
- Scheduling. The scheduled thread pool, its 30-second period and its first tick at time 0 are not modelled. Only the tick body and the scheduler's state are. `HeartbeatTick` requires a running heartbeat because the executor runs the task only until it is shut down.
- A second `onOpen` on the same instance replaces the scheduler. The model sets the state to `Running`; the thread of the replaced scheduler is not modelled.
- JSON. `JSON.parseObject` is a parameter of `OnMessage`, and any parse failure (`None`) is the caught exception. `toJSONString` is not modelled: the envelope itself is the payload. Field values are strings, so `getString` on a non-string value is not modelled.
- Transport. `Session` becomes the `open` flag. `getAsyncRemote().sendText` becomes an append to the `Transport` log. The path parameter binding and the endpoint annotations are not modelled.
- Send failures. Sends cannot fail in the model. `sendMessage` declares `IOException` but never throws it, so the `catch` blocks in `onOpen` and in the heartbeat task are dead code here. A runtime exception from the transport would end the fan-out loop early; this is not modelled.
- Null strings are not modelled. A `null` user id given to `sendInfo` is blank for `isNotBlank`, and so sends nothing.
- Logging, `printStackTrace` and the error's message are not modelled.
- IsWhitespace follows `Character.isWhitespace` as of Java 9. Under Java 8 and earlier, U+180E was also whitespace, and the model does not cover that. No whitespace character lies outside the Basic Multilingual Plane, so the `char` domain is enough.
- `onError` does not unregister anything. It only stops the heartbeat, so after an error the connection stays registered until `onClose`. `OnError` does exactly that.
- `sendInfo` returns nothing and reports no outcome to its caller. `SendInfo` has no result either.
- The per-user connections are an ordered list, not a set, so a connection opened twice is listed twice. `CloseIdempotent` requires the closed connection to occur at most once in its user's list. `CloseUndoesOpen` requires it to be absent from that list before the open.
