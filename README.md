# Hexforged "dolphin" server: task queue and connection handshake

This project models, in Dafny, the two pieces of sequential logic at the heart of
the Hexforged real-time game server, and proves properties of the model.

- **The database task queue** (`src/queue.mjs`, module `TaskQueue`). This is a FIFO
  executor built on one array. `addToQueue` inserts a task at index 0. An interval
  timer ticks; on each tick, if the array is non-empty and its last element is not
  `false`, it calls `run`. `run` pops the last element (the oldest task), pushes a
  `false` placeholder, awaits the task, then pops the placeholder.
  - The class `Queue` keeps the array as `items` (the placeholder is the `Slot`
    constructor `Placeholder`). A ghost flag `inFlight` says that a `run` call is
    suspended at its `await`.
  - The timer is the explicit method `Tick`. The `await` is split into two atomic
    steps: `Run`, the synchronous start, and `Settle`, the resumption.
  - The pure functions `Next` and `Replay` give the same steps as a state machine
    over events. The lemmas about runs of events are stated over them.
  - A task that throws never reaches the final `pop` (line 36). The model keeps this
    behaviour as written: the placeholder stays, and every later tick is a no-op.
- **The connection handshake and character commands** (`src/controller/character.mjs`,
  module `Character`). The handshake does the following, in order:
  - It extracts the `hex_token` cookie with JavaScript's `split`/`find` semantics
    (module `JsStrings`).
  - It looks the user up in the store. The store is the parameter `lookup`, which
    returns a failed query, no row, or a row.
  - It compares the recorded address with the `x-real-ip` header.
  - It checks for an existing login in the shared `sockets` table (class
    `Registry`: keys in iteration order, with each socket's username).
  - It either rejects the connection (`error` emit and disconnect) or copies the
    identity onto the socket and registers it.
  - In every case that does not throw, it emits `hello` and attaches the command
    listeners.

  `create-character` only enqueues the bound handler on the queue. The handler and
  `get-character` are modelled with the store's answers as parameters.

The model follows the code where the documented design promises more:

- The design promises at most one session per user. The code only compares the new
  user with the socket visited last by `Object.keys(sockets).filter(...)`, so an
  earlier duplicate goes unnoticed (`LastVisitedMissesEarlierEntry`,
  `SecondSessionAdmitted`).
- The design promises that a failing task does not halt the queue. In the code the
  `Queue` object stalls for good (`StalledForever`, `FailedCreateStallsQueue`). A
  `create-character` sent without a payload or without an acknowledgement function
  is such a failing task (`MissingAckStallsQueue`). What happens to the process
  after the rejection is under "Left out".
- The design describes a missing token as a rejection with an error message. In the
  code, the `split` call throws before anything is emitted (`Aborted`).
- The design sends `hello` only on success. The code sends it after rejections too.
- The design describes a race between the duplicate check and the insertion. In the
  code, both come after the only `await` with nothing suspending between them, so
  they form one atomic step.

## Model

| member | source | states |
|---|---|---|
| `TaskQueue.LastItem` | src/queue.mjs:12-14 | the last element of the array, or undefined exactly when the array is empty |
| `TaskQueue.IsEmpty` | src/queue.mjs:17-19 | the array is empty exactly when `lastItem` gives undefined |
| `TaskQueue.CanStart` | src/queue.mjs:49 | the tick's double test (`lastItem !== false && !isEmpty`) holds exactly when the array is non-empty and ends in a task, that is, when it is neither empty nor busy |
| `TaskQueue.Next` | src/queue.mjs:22-52 | one atomic step: only a tick starts a task, and only when the guard holds, leaving a run in flight; an enqueue adds one element and keeps the in-flight flag; a tick keeps the length; a settled run is no longer in flight and never lengthens the array |
| `TaskQueue.Queue.constructor` | src/queue.mjs:5-9 | a new queue starts with an empty array and no run in flight |
| `TaskQueue.Queue.AddToQueue` | src/queue.mjs:40-42 | the array becomes `[f] + old`; every existing element keeps its place, and `f` becomes the newest waiting task |
| `TaskQueue.AddPrepends` | src/queue.mjs:40-42 | enqueueing prepends one task, starts nothing, and appends the task to the waiting order |
| `TaskQueue.Queue.Run` | src/queue.mjs:22-29 | the start of `run` removes the last element (the oldest task), puts the `false` placeholder in its place, and hands that task over |
| `TaskQueue.Queue.Tick` | src/queue.mjs:46-52 | a tick starts a task iff the array is non-empty and does not end in the placeholder; the task it starts is the oldest waiting one |
| `TaskQueue.TickStartsOldest` | src/queue.mjs:49-51 | with the invariant: a tick starts the oldest waiting task exactly when the array is non-empty and not busy; otherwise it changes nothing |
| `TaskQueue.NoTickWhileInFlight` | src/queue.mjs:49 | while a run is in flight a tick changes nothing, so at most one task is in progress |
| `TaskQueue.Queue.Settle` | src/queue.mjs:31-37 | when the task resolves, `run` pops exactly the placeholder; when it throws, the array is left unchanged |
| `TaskQueue.ResolvePopsPlaceholder` | src/queue.mjs:31-36 | after a normal completion, the array is the pre-run array minus its last element (the placeholder), and no task is lost |
| `TaskQueue.RejectStalls` | src/queue.mjs:31-36 | after a throw, the placeholder stays at the end while no run is in flight: the queue is stalled |
| `TaskQueue.WaitingLast` | src/queue.mjs:24 | the last element of the array is the oldest waiting task |
| `TaskQueue.WaitingPlaceholderLast` | src/queue.mjs:28 | a placeholder at the end is not a waiting task |
| `TaskQueue.AtMostOnePlaceholder` | src/queue.mjs:28-41 | in a well-formed array there is at most one `false`, and there is one exactly when it is the last element |
| `TaskQueue.NextKeepsInv` | src/queue.mjs:40-52 | enqueue, tick, resolve and reject all preserve the invariant: at most one placeholder, only at the end, and present while a run is in flight |
| `TaskQueue.StepFifo` | src/queue.mjs:22-42 | one step keeps the order: the task started, then the tasks waiting, equal the tasks waiting before, then the task enqueued |
| `TaskQueue.ReplayKeepsInv` | src/queue.mjs:22-52 | any run of enqueues, ticks, resolutions and rejections keeps the invariant (one placeholder at most, only at the end, present while a run is in flight) |
| `TaskQueue.ReplayFifo` | src/queue.mjs:22-42 | over any run of events, the tasks started followed by those still waiting equal the tasks waiting at first followed by those enqueued, in order |
| `TaskQueue.StartedInEnqueueOrder` | src/queue.mjs:24-41 | the tasks started are always a prefix of the tasks in enqueue order (FIFO) |
| `TaskQueue.NothingStartsUntilResolve` | src/queue.mjs:28-36 | while the placeholder is at the end and no run resolves, no task starts and the placeholder stays |
| `TaskQueue.StalledStep` | src/queue.mjs:46-52 | a tick on a stalled queue starts nothing, and enqueueing keeps it stalled |
| `TaskQueue.StalledForever` | src/queue.mjs:31-52 | after a task has thrown, no later sequence of enqueues and ticks ever starts a task; enqueued tasks pile up in order |
| `TaskQueue.ReplayAppend` | src/queue.mjs:45-53 | running two sequences of events in a row is the same as running their concatenation |
| `TaskQueue.EnqueuesPrepend` | src/queue.mjs:40-42 | a series of enqueues places the tasks newest-first in front of the array and starts nothing |
| `TaskQueue.RunThroughEnqueues` | src/queue.mjs:22-42 | a run that completes normally leaves the pre-run array minus its last element, with the tasks enqueued meanwhile at the front |
| `JsStrings.IndexFrom` | src/controller/character.mjs:6 | the first occurrence of the separator at or after a position, or none |
| `JsStrings.IndexOf` | src/controller/character.mjs:6 | the first occurrence of the separator, or none exactly when it does not occur |
| `JsStrings.Split` | src/controller/character.mjs:6 | `split` always gives at least one piece |
| `JsStrings.SplitJoin` | src/controller/character.mjs:6 | joining the pieces of a split with the separator gives back the input: splitting loses no text |
| `JsStrings.SplitPiecesFree` | src/controller/character.mjs:6 | no piece of a split contains the separator |
| `JsStrings.SplitFirst` | src/controller/character.mjs:10 | the first piece is the text before the first occurrence of the separator, or the whole input when there is none |
| `JsStrings.FindStartingWith` | src/controller/character.mjs:7 | `find` returns the first element that starts with the prefix, or none exactly when no element does |
| `Character.TokenOf` | src/controller/character.mjs:10 | `split('=')[1]` of a `hex_token=` cookie is the text after the first `=` up to the second `=` (or the end) |
| `Character.Cookies` | src/controller/character.mjs:6 | the cookie header splits into at least one cookie |
| `Character.ExtractToken` | src/controller/character.mjs:6-10 | a missing cookie header, or no cookie starting with `hex_token=`, is an error (the code throws); otherwise the result is the token of the first such cookie |
| `Character.LastVisited` | src/controller/character.mjs:13-16 | the value `loggedIn` ends with: undefined exactly when the table is empty, and `true` only when some registered key carries the username |
| `Character.LastVisitedMatch` | src/controller/character.mjs:13-16 | `loggedIn` is the username test against the last key visited only, or undefined when the table is empty |
| `Character.LastVisitedSound` | src/controller/character.mjs:13-17 | when the check reports a login, some registered socket does carry that username |
| `Character.LastVisitedMissesEarlierEntry` | src/controller/character.mjs:13-16 | a duplicate that is not the last key goes unnoticed |
| `Character.IpMatches` | src/controller/character.mjs:12 | `userInfo.lastip === ip` holds exactly when both addresses are present and equal; a NULL address or a missing header never matches |
| `Character.ReasonText` | src/controller/character.mjs:19-36 | each rejection has a non-empty error text |
| `Character.ReasonTextDistinct` | src/controller/character.mjs:19-36 | the three error texts are pairwise different, so a client can tell the rejections apart |
| `Character.Decide` | src/controller/character.mjs:5-27 | the decision: a missing cookie header or token cookie aborts with that fault; with a token, it aborts exactly when the user query fails, and then with that fault; an acceptance carries the row the store returned for the presented token |
| `Character.AcceptedOnlyFromRecordedOrigin` | src/controller/character.mjs:10-27 | an accepted connection presented a token the store resolves to this user, comes from the recorded address, and the last registered socket is not that user's |
| `Character.RejectionReasons` | src/controller/character.mjs:11-38 | `authentication failed` iff no user row; `ip address mismatch` iff the address differs; `already logged in` iff the last registered socket has that username |
| `Character.SecondSessionAdmitted` | src/controller/character.mjs:13-25 | a second login for a user is accepted when another user registered after the first, and leaves two sockets for that user in the table |
| `Character.Registry.Put` | src/controller/character.mjs:25 | `sockets[id] = socket` adds or overwrites exactly one entry (appending a new key at the end) and changes no other |
| `Character.Socket.Emit` | src/controller/character.mjs:19 | `socket.emit` appends exactly one message to what the socket has sent, after everything sent before |
| `Character.Socket.Disconnect` | src/controller/character.mjs:20 | `socket.disconnect(true)` leaves the socket disconnected |
| `Character.Reject` | src/controller/character.mjs:18-20 | a rejection emits its error text and disconnects the socket |
| `Character.Admit` | src/controller/character.mjs:21-26 | acceptance copies id, username and permissions onto the socket and registers it under its id |
| `Character.Authenticate` | src/controller/character.mjs:5-38 | the branch taken is the decision; the table changes only on acceptance; each rejection emits its reason and disconnects; a throw changes nothing |
| `Character.Handshake` | src/controller/character.mjs:3-41 | as Authenticate, then `hello` with the socket's identity (unset after a rejection) after every branch that does not throw, and the listeners attached |
| `Character.Greet` | src/controller/character.mjs:40-60 | `hello` carries the identity the socket holds at that moment, is appended after everything emitted before, and the listeners are then registered |
| `Character.GenderName` | src/controller/character.mjs:44 | `'male'` iff gender > 1, otherwise `'female'` |
| `Character.InsertValues` | src/controller/character.mjs:44 | the new character row holds the socket's user id, the requested class and the mapped gender |
| `Character.Acknowledge` | src/controller/character.mjs:47-51 | `callback(x)` throws exactly when the acknowledgement is not a function, and otherwise passes `x` |
| `Character.CreateCompletion` | src/controller/character.mjs:43-52 | without a payload the handler throws at `data.class`; otherwise it throws exactly when a query fails or the acknowledgement is missing; with an acknowledgement, a falsy insert result gives `callback({})` and a truthy one the re-read row (or `null`) |
| `Character.RunCreateJob` | src/controller/character.mjs:43-53 | the handler reads the socket's user at run time and sends no INSERT without a payload; it emits `character create failed` exactly on a falsy insert result; it ends as `CreateCompletion` says |
| `Character.OnCreateCharacter` | src/controller/character.mjs:55-58 | `create-character` only enqueues the bound handler as the newest task; nothing runs |
| `Character.GetCharacter` | src/controller/character.mjs:60-71 | `get-character` answers with the row when one exists and `{}` otherwise, never `null`; it throws exactly when the query fails or the acknowledgement is not a function |
| `Character.FailedCreateStallsQueue` | src/controller/character.mjs:43-57 | when the tick starts a `createHandler` that throws (a failed query, a missing payload or a missing acknowledgement), that job is the only task ever started, whatever events follow, and the shared queue stays stalled |
| `Character.MissingAckStallsQueue` | src/controller/character.mjs:47-57 | a `create-character` job sent without an acknowledgement, once started, is the last task the shared queue ever runs, whatever the store answers |

## Left out

- Timing: `setInterval` and its period are not modelled; each firing is a call to `Tick`. The constructor's call to `start()` is implicit. `stop()` (which clears a freshly created interval instead of the running one) is not modelled.
- Asynchrony beyond the two halves of `run`: a task's own suspensions and the interleaving of handshakes are not modelled. A socket that disconnects during the user lookup is not modelled.
- `run` called on an empty array, or while the placeholder is present, is not modelled: only the tick calls `run`, and its guard excludes both cases.
- A caller enqueueing the value `false` would look like a placeholder; the `Slot` type rules this out, and the code only enqueues functions.
- Character.Registry: it stores each socket's username at insertion time, not a reference to the socket object, so aliasing through the stored sockets is not captured.
- Character.LastVisitedMatch: JavaScript lists integer-like keys before the others in `Object.keys`; socket ids are treated as ordinary string keys, visited in insertion order.
- Character.GenderName: the gender is an integer; JavaScript's coercion of non-numeric values in `data.gender > 1` is not modelled.
- The SQL text, `UUID_TO_BIN`/`INET_NTOA`, and the `league_${socket.league}` table names are not modelled. Each query is represented by its answer (a failed query, no row, or a row).
- The store client (`src/sql.mjs`): connecting and disconnecting are not modelled. `getOne` is represented only by its first-row-or-null-or-throw result.
- Character.RunCreateJob: the `callback` invocation is represented by the returned `Completion`, not by a call.
- Logging (`logger.mjs`, `logger.js` and every `logger.*` call) is not modelled.
- The transport glue in `dolphin.js` is not modelled: server options, `socket_list`, `emit` patching and `ping`/`pong`.
- Where a failure goes is not modelled. A `Threw` completion of a queued handler, that is a `Rejected` queue event, escapes uncaught: the tick calls `this.run(...)` without `await` or `catch` (src/queue.mjs:50). A throw in the `get-character` listener (src/controller/character.mjs:60) escapes the same way; the `create-character` listener (line 55) cannot throw. An `Aborted` verdict rejects the promise that `character` returns (line 3); its caller is not part of this model. Under Node's default handling an unhandled rejection ends the process. `dolphin.js` (lines 103-107) installs a handler that closes the server and exits, but that file does not load these modules. The model describes the `Queue` object only: a stall is its lasting state only if the process survives the rejection.
- `get-worldmap` (`src/controller/map.mjs`) is a file-read passthrough and is not part of this model.
