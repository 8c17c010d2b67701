# A verified model of the desktop core

The desktop application's Rust core talks to two background daemons, keeps terminal input in order,
guards and changes files, watches workspaces, counts token usage and starts the daemons it needs.
This project models the parts of it that carry state or arithmetic and proves what they keep.

`dafny verify dfyconfig.toml` checks everything.

## How it is laid out

- **Connection to the orchestration daemon.** `Retry` (handshake-failure counter, boot retry,
  backoff loop), `Framing` (length-prefixed frames, the decoder and the reader inside the select
  loop), `Connection` (a transition system of callers, command channel, correlation map, connections
  and callbacks, with the daemon, the network and caller timeouts as the environment),
  `ConnectionTask` (the same steps as methods on the task's own fields), `ConnectionLoop` (the task's
  loops over those methods, with everyone else acting in between), `ConnectionAnswers` (where replies
  come from and what becomes of requests and connections) and `BrokerEvents` (what the front end is
  told).
- **Terminal input.** `Chunks` (cutting text into requests and their CBOR size, section 3 of
  RFC 8949), `WriteLocks` (the evictable per-session lock table and the calls that hold its locks;
  a lock's generation is its identity), `WriteRuns` (every interleaving of calls, acknowledgements,
  failures and child exits) and `WriteEvictions` (what evicting a lock can do to the order of chunks).
- **Registered roots.** `Roots`: the cache as a fold of lists, replies and pushes, and the guard.
- **Usage statistics.** `Calendar` (civil dates), `Usage` (families, prices, one log, sums),
  `UsageFold` and `UsageRows` (the two cuts), `UsageScan` (the incremental scan and its cache),
  `UsageLines` (the rows told from the fields of the lines).
- **Files.** `Tree` (a tree and the multiset of contents in it), `Explorer` (create, rename, move,
  delete to Trash), `ExplorerOutcomes` (when each succeeds and what it has done), `Listing` (one-level
  listing and lazy descent), `Preview` (UTF-8 by RFC 3629 and the capped preview), `Watcher` and
  `WatchCoverage` (the batch filter and the front end's mapping to directory keys).
- **Launches.** `Launch` (launchd's view of a daemon, the bundle and the version marker, and one
  launch) and `LaunchRuns` (runs of launches, updates, exits and crashes).
- **Shared.** `Paths`, `Text`, `Sorting`, `Arithmetic`, `Wrappers`.

What the source updates in place is a class or a loop here (the counter, the decoder, the reader, the
task, the lock table, the roots slot, the file system, the daemon host, the folds and the scan), and
each method is tied to a function of its inputs or of the old state. The properties are proved about
those functions. Runs are sequences of steps: a property of a run holds for every interleaving.

Oracles stand for what is outside: the outcome of each connect attempt, what each read meets, the
parser of a frame body, encode and write failures, the answers of `canonicalize`, of the `ignore`
crate, of `launchctl` and of system calls, the order in which a directory or a hash map is read, and
which files can be opened.

## Where the code and its own comments part

The model follows the code.

- A decode error drops the complete frames that arrived in the same read, so on a corrupt stream what
  is delivered depends on how the bytes were cut (`Framing.CutDecidesOnCorruptStream`); which cuts lose
  nothing is `Framing.CorruptStreamLosesOneRead`. On a stream of well-formed frames it never does.
- Evicting a session's write lock is described as harmless because the session is gone. A call that
  still has a chunk to send keeps the evicted lock while later calls take a new one, so one call's
  chunks can come between another's: that can happen after an eviction if and only if it meets such a
  call (`WriteEvictions.EvictionInterleavesExactly`). The frames concerned go to a session whose child
  has exited. That they do no harm there rests on the session daemon refusing them; the model has no
  session daemon and shows neither that nor its contrary.
- The roots cache is described as current between lists. A list reply applied after newer pushes
  brings removed roots back (`Roots.StaleListReply`); `Roots.LateList` says exactly when it does not
  matter.
- Replacing backslashes in watched paths is called a no-op on Unix. A backslash is an ordinary
  character of a Unix name, and then the wrong listing is dropped (`WatchCoverage.KeyIsDirectory`).
- The preview promises to recognise binary data; a text whose probe ends inside a character is called
  binary too (`Preview.StraddlingTextIsBinary`).
- A log that cannot be opened is said only to contribute nothing to that scan. It is cached as empty
  under its stamp and stays empty (`UsageScan.FailedReadPersists`), for exactly as long as
  `UsageScan.FailedReadLastsExactly` says.
- `launchd.rs` says only the consent-gated upgrade may use `kickstart -k` and the boot path never
  kills; `reconcile_daemon_version` uses it at boot when the marker names another version. A launch
  never kills otherwise (`Launch.UnchangedVersionNeverKills`).
- "Already running" counts as success for `-k` as well, so a forced restart can be recorded that did
  not happen (`LaunchRuns.AlreadyRunningCountsAsRestart`). One such launch leaves a truthful marker
  exactly as `LaunchRuns.ForcedLaunchIsTruthfulExactly` says, and whether an update's older daemon is
  ever replaced is `LaunchRuns.OlderDaemonGoesExactly`.
- The reload after an update is said to happen exactly once. It is repeated when the marker could not
  be written (`LaunchRuns.FailedWriteForcesAgain`); `LaunchRuns.ForcedOnceExactly` says when it is not.
- The version marker is taken at its word. An update that returns to the version it names, after the
  other version's daemon came up, leaves that daemon running behind a marker that reads current
  (`LaunchRuns.CrashBetweenSwaps`); `LaunchRuns.ReturnIsTruthfulExactly` says when.

## Model

| member | source | states |
|---|---|---|
| `Retry.HandshakeSuspectCounter.Classify` | src-tauri/src/orchd_client.rs:563-607 | the decision and the new count of transient failures for each outcome of an attempt; a range is passed on as the daemon gave it, the unknown one only at the eighth transient failure in a row |
| `Retry.CounterSeesWindow` | src-tauri/src/orchd_client.rs:563-607 | deciding by the running count is deciding by a window of eight transient failures in the outcome stream |
| `Retry.ConnectAtWithRetry` | src-tauri/src/orchd_client.rs:269-303 | ends at the first stopping attempt or with the budget spent, one pause fewer than tries, for any budget including 0 |
| `Retry.ConnectWithRetry` | src-tauri/src/orchd_client.rs:256-264 | the same with a budget never below eight |
| `Retry.ConnectWithBackoff` | src-tauri/src/orchd_client.rs:683-704 | ends at the first stopping attempt; the k-th delay is min(100 * 2^k, 5000) ms |
| `Retry.RetryAnswers` | src-tauri/src/orchd_client.rs:269-303 | each answer exactly characterised: a range if and only if the daemon gave it first, lowest and highest version in place, or it is the unknown one and eight transient failures came first; a given connection; disconnected |
| `Retry.BackoffAnswers` | src-tauri/src/orchd_client.rs:683-704 | the same of the reconnect loop, without a budget |
| `Retry.BackoffDelays` | src-tauri/src/orchd_client.rs:683-704 | the delays are 100, 200, 400, 800, 1600, 3200 and then always 5000 ms |
| `Retry.AllTransientEscalates` | src-tauri/src/orchd_client.rs:73-89 | an all-transient stream escalates after exactly eight tries for every caller-supplied budget |
| `Retry.SmallBudgetNeverEscalates` | src-tauri/src/orchd_client.rs:73-89 | escalation needs a budget of at least eight, which is what the clamp secures |
| `Retry.IoFailuresNeverEscalate` | src-tauri/src/orchd_client.rs:563-607 | a plain I/O failure in every window of eight keeps the loop from ever escalating |
| `Retry.LoopEndsExactlyOnStops` | src-tauri/src/orchd_client.rs:683-704 | the unbounded loop still runs exactly while the stream holds no success, no incompatible reply and no eight transients in a row |
| `Framing.Le32RoundTrip` | crates/protocol/src/framing.rs:48-58 | the length prefix is little-endian and reads back as written |
| `Framing.EncodeFrame` | crates/protocol/src/framing.rs:48-58 | a body is refused locally exactly when it exceeds the frame cap |
| `Framing.CborFrameDecoder.Push` | crates/protocol/src/framing.rs:85-87 | bytes are appended to the buffer |
| `Framing.CborFrameDecoder.Decode` | crates/protocol/src/framing.rs:92-119 | yields every complete frame and keeps the rest, or fails and keeps the whole buffer |
| `Framing.FrameReader.Poll` | src-tauri/src/orchd_client.rs:461-501 | one poll, whether it yields a frame, is abandoned at its read, closes or fails, leaves exactly the remaining future deliveries |
| `Framing.ReadAll` | src-tauri/src/orchd_client.rs:740-793 | polling again after every frame and every abandonment delivers what the script of reads determines |
| `Framing.ReadErrorEnds` | src-tauri/src/orchd_client.rs:461-501 | whatever came before, an I/O error ends the reading as a failure: what was delivered stays delivered and nothing after it is read |
| `Framing.DrainInTwoSteps` | crates/protocol/src/framing.rs:92-119 | decoding a prefix first and the rest later is decoding all at once |
| `Framing.HeadIs` | crates/protocol/src/framing.rs:92-119 | from the bytes alone: a buffer starts with a frame, is not yet complete, or is corrupt, by a prefix over 16 MiB or a body that does not parse |
| `Framing.WireDrains` | crates/protocol/src/framing.rs:48-119 | encoded frames followed by any tail decode to those frames, then the tail |
| `Framing.FramesSurviveAnySplit` | src-tauri/src/orchd_client.rs:461-501 | every split of the stream into reads, with `next` abandoned at any of them, delivers exactly the frames written, in order |
| `Framing.DeliveryAccounts` | src-tauri/src/orchd_client.rs:461-501 | the good frames on the wire are those delivered followed by those lost, and failure is exactly corruption |
| `Framing.WireGoodLen` | crates/protocol/src/framing.rs:48-119 | the good frames of a stream take exactly the bytes their peer wrote for them |
| `Framing.CorruptStreamLosesOneRead` | crates/protocol/src/framing.rs:92-119 | all good frames arrive if and only if, after some whole number of reads, the bytes so far are at least as many as the good frames take and decode without corruption |
| `Framing.CutDecidesOnCorruptStream` | crates/protocol/src/framing.rs:92-119 | concrete bytes that deliver a frame in two reads and nothing in one |
| `Connection.StepKeepsInv` | src-tauri/src/orchd_client.rs:732-860 | every step of every participant keeps the correlation, ordering and event invariants |
| `Connection.ExactlyOneFate` | src-tauri/src/orchd_client.rs:732-860 | in every reachable state a dequeued request is in exactly one of pending, failed locally, answered, drained; a pending id is its own and below `next_id` |
| `Connection.ReplyIsItsOwn` | src-tauri/src/orchd_client.rs:416-435 | a reply that reaches a caller carries the id of its request and came on the connection it was written to |
| `Connection.ResponseIsDelivered` | src-tauri/src/orchd_client.rs:774-786 | a response to a pending id removes it, resolves its request with exactly that reply, and lets a waiting caller end with it |
| `ConnectionAnswers.RepliesWereSent` | src-tauri/src/orchd_client.rs:763-790 | over every run, the reply a caller holds was sent by the daemon under the id of its request on the connection the request was taken on |
| `ConnectionAnswers.ReadInOrder` | src-tauri/src/orchd_client.rs:763-790 | over every run and for each connection, what is unread is what was sent after as many frames as were read |
| `ConnectionAnswers.RequestIsWritten` | src-tauri/src/orchd_client.rs:416-435 | from any idle served state a new request is admitted, queued, numbered and written on the current connection |
| `ConnectionAnswers.ReplyReachesCaller` | src-tauri/src/orchd_client.rs:763-790 | and the daemon's response to it ends its call with that reply, changing no other call |
| `ConnectionAnswers.LocalFailureReachesCaller` | src-tauri/src/orchd_client.rs:748-754 | a request that cannot be encoded ends its own call, as too large exactly if that is why, and is never written |
| `ConnectionAnswers.AdmissionIs` | src-tauri/src/orchd_client.rs:416-435 | calls are admitted exactly while live, a call given up ends as disconnected, and at most 256 requests wait in the channel |
| `Connection.ResolutionIsFinal` | src-tauri/src/orchd_client.rs:732-793 | over every continuation an id names the same request and a resolution stays |
| `Connection.ResponseTouchesOnlyItsId` | src-tauri/src/orchd_client.rs:774-786 | a response changes no request but the one its id names, and nothing once that is resolved, so late and duplicated responses are inert |
| `Connection.FirstInFirstOut` | src-tauri/src/orchd_client.rs:742-761 | requests are taken in the order they entered the channel and numbered 1, 2, 3 across connections that only move on; frames are written with strictly increasing ids, each on the connection its request was taken on, and never for a request that failed locally |
| `Connection.NobodyHangs` | src-tauri/src/orchd_client.rs:418-435 | a caller still waits exactly while its request is queued or pending, after the drain only while it is queued, and once the task is gone every unfinished call can end |
| `Connection.NothingPendingWhileDown` | src-tauri/src/orchd_client.rs:797-860 | nothing is pending from the drain to the next connection, and calls then are refused at once |
| `ConnectionAnswers.FailuresLoseConnection` | src-tauri/src/orchd_client.rs:756-773 | a failed read or write loses the connection; the request of a failed write is pending and not written |
| `ConnectionAnswers.LossIsTold` | src-tauri/src/orchd_client.rs:797-832 | after a loss calls are refused, every pending call can end as disconnected, and each observer has heard exactly one thing more |
| `ConnectionAnswers.ReconnectIsTold` | src-tauri/src/orchd_client.rs:835-840 | a new connection is live and told, and the requests queued meanwhile are still queued |
| `ConnectionAnswers.IncompatibleIsTold` | src-tauri/src/orchd_client.rs:841-860 | an incompatible daemon is told with its range, the task returns, and queued calls can end |
| `ConnectionAnswers.LeavingIsSilent` | src-tauri/src/orchd_client.rs:825-827 | when the last handle is gone the task returns and no observer hears anything |
| `ConnectionAnswers.RegistrationReplays` | src-tauri/src/orchd_client.rs:447-451 | a new observer has heard the present state alone, and the others nothing |
| `Connection.ObserverSeesSuffix` | src-tauri/src/orchd_client.rs:447-451 | whenever it registered, an observer has seen a gap-free suffix of a word of Connected (Disconnected Connected)* [Disconnected [Incompatible]] |
| `Connection.AfterIncompatible` | src-tauri/src/orchd_client.rs:809-860 | after the fatal state no callback fires again and every later request yields Disconnected |
| `ConnectionTask.Task.Queue` | src-tauri/src/orchd_client.rs:416-435 | a request enters the command channel with an empty reply slot of its own |
| `ConnectionTask.Task.RunCommand` | src-tauri/src/orchd_client.rs:743-761 | the command arm is one step: an encode failure fails that request alone, a write failure loses the connection |
| `ConnectionTask.Task.RunFrame` | src-tauri/src/orchd_client.rs:763-790 | the frame arm is one step: a response resolves its own id or is dropped |
| `ConnectionTask.Task.DrainAll` | src-tauri/src/orchd_client.rs:821-823 | the drain loop resolves every pending request as Disconnected and empties the map |
| `ConnectionTask.Task.FireConn` | src-tauri/src/orchd_client.rs:712-718 | the state is stored and every callback called once with it |
| `ConnectionTask.Task.OnConn` | src-tauri/src/orchd_client.rs:447-451 | a new callback is replayed the current state under the same lock |
| `ConnectionTask.Task.Close` | src-tauri/src/orchd_client.rs:825-827 | when the task returns every queued sender is dropped and the channel is empty |
| `ConnectionLoop.Client.Turn` | src-tauri/src/orchd_client.rs:740-793 | one turn of the select loop is the step its input stands for, and ends the connection exactly as that step does |
| `ConnectionLoop.Client.RunConnection` | src-tauri/src/orchd_client.rs:732-793 | the loop, with callers, daemon and observers acting between its turns, plays the script of what it meets up to the end of the connection |
| `ConnectionLoop.Client.Serve` | src-tauri/src/orchd_client.rs:797-860 | one turn of the task: serve, go silent, drain, tell, reconnect or give up, with others acting between any two of these; the state is the one these steps lead to, and the task returns exactly if its client is gone or the daemon became incompatible |
| `ConnectionLoop.ServedIsReachable` | src-tauri/src/orchd_client.rs:797-860 | that state is reached by a run of the transition system, so every property of its runs holds of the imperative task |
| `BrokerEvents.ConnListener.MapConnState` | src-tauri/src/broker.rs:361-388 | the event and the flag for each connection state |
| `BrokerEvents.DispatchAll` | src-tauri/src/broker.rs:361-388 | over any state sequence `reconnected` is raised exactly at a Connected whose predecessor was not Connected |
| `BrokerEvents.ObservedEventsAlternate` | src-tauri/src/broker.rs:342-348 | orchd events raised to any observer alternate down and up and end at most once in incompatible |
| `BrokerEvents.EventsTellStates` | src-tauri/src/broker.rs:342-348 | up, down and incompatible are raised at exactly these states |
| `BrokerEvents.NothingIsSwallowed` | src-tauri/src/broker.rs:361-388 | after its replayed first state every change an observer sees raises an event |
| `Chunks.ChunksRoundTrip` | src-tauri/src/commands.rs:571-583 | the chunks concatenate to the input, there are max(1, ceil(n / 2^20)), all but the last full, and only empty input gives an empty one |
| `Chunks.ArrayReads` | src-tauri/src/commands.rs:554-558 | an encoded chunk reads back, by section 3 of RFC 8949, as an array of its length and of its bytes |
| `Chunks.ChunkFitsFrame` | src-tauri/src/commands.rs:554-558 | a chunk as a CBOR array takes one or two bytes per element plus its head, far below the frame cap |
| `Chunks.UnchunkedOverflows` | src-tauri/src/commands.rs:560-571 | without chunking 8 MiB of such text already exceeds the cap |
| `WriteLocks.WriteStdinLocks.Lock` | src-tauri/src/commands.rs:146-151 | the lock in the table, or a new one created and entered |
| `WriteLocks.WriteStdinLocks.EvictSession` | src-tauri/src/commands.rs:162-164 | the entry is removed; locks already handed out are not |
| `WriteRuns.StepKeepsInv` | src-tauri/src/commands.rs:594-606 | every step of every call, and every child exit, keeps the lock, holder and wire invariants |
| `WriteRuns.WholeListsPerLock` | src-tauri/src/commands.rs:594-606 | the frames sent under one lock are a concatenation of its calls' lists in acquisition order; only a failed call or the last one is short |
| `WriteRuns.WrittenBytes` | src-tauri/src/commands.rs:594-606 | when all of them succeeded the bytes are their texts one after another |
| `WriteRuns.NothingBetweenUnderOneLock` | src-tauri/src/commands.rs:594-606 | under one lock no frame of one call comes between two of another, and a call followed by another has ended |
| `WriteRuns.SecondLockAfterExit` | src-tauri/src/broker.rs:511-515 | a second lock for a session is created only after that session's ChildExited |
| `WriteEvictions.EvictionInterleavesExactly` | src-tauri/src/commands.rs:153-164 | from every reachable state, some run after an eviction and before the next puts a chunk of one call between two of another if and only if some call of the session that took a lock still has a chunk to send |
| `WriteEvictions.MidListHappens` | src-tauri/src/commands.rs:594-606 | a reachable state with such a call: a paste of a byte more than a chunk, its first chunk on the wire |
| `WriteEvictions.QuietEvictionsKeepLists` | src-tauri/src/commands.rs:146-164 | in a run whose evictions meet no call with a chunk to send, all frames of a session are the whole lists of its locks one after another |
| `WriteRuns.WriteStdinLocked` | src-tauri/src/commands.rs:594-606 | the loop sends request after request up to the first that is refused, before it is sent or after; it succeeds exactly if every one is acknowledged, and then the bytes sent are the input |
| `WriteRuns.LoopIsRun` | src-tauri/src/commands.rs:594-606 | the loop is a run of one call's own steps in the transition system: they are enabled in turn from any state where it holds its lock, put the same frames on the wire and end it the same way |
| `Paths.RenderParses` | src-tauri/src/commands.rs:366-369 | a canonical path read back into components gives the components it was written from |
| `Paths.StartsWithIsPrefix` | src-tauri/src/commands.rs:366-369 | `starts_with` between canonical paths is the prefix order of their components |
| `Paths.PrefixInText` | src-tauri/src/commands.rs:366-369 | in text that is equality or going on with a slash |
| `Paths.BytePrefixIsNotContainment` | src-tauri/src/commands.rs:366-369 | `/ws2` is not inside `/ws` |
| `Roots.WorkspaceRootsSlot.Load` | src-tauri/src/commands.rs:290-301 | the cache becomes exactly the listed workspaces, the last listing of an id winning |
| `Roots.WorkspaceRootsSlot.Upsert` | src-tauri/src/commands.rs:306-323 | one workspace's roots are set, a cache never loaded becoming loaded |
| `Roots.WorkspaceRootsSlot.Remove` | src-tauri/src/commands.rs:327-331 | one workspace is dropped; nothing happens on a cache never loaded |
| `Roots.WorkspaceRootsSlot.ApplyPush` | src-tauri/src/commands.rs:338-346 | each push is an upsert, a removal or nothing |
| `Roots.WorkspaceRootsSlot.EnsureRegisteredRootIn` | src-tauri/src/commands.rs:354-378 | admits exactly canonicalizable paths contained in a cached root; Disconnected exactly while never loaded, NotFound exactly when not canonicalizable |
| `Roots.CacheIsLastWord` | src-tauri/src/commands.rs:260-346 | after any events the cache is loaded exactly if one was a list or an upsert, and holds for each id exactly the last word on it |
| `Roots.EventsKeepRoots` | src-tauri/src/commands.rs:260-346 | an upsert keeps each root in its canonical form, or as it came if it has none, a removal drops the workspace, other pushes change nothing |
| `Roots.ListKeepsRoots` | src-tauri/src/commands.rs:289-303 | a full list keeps for each listed workspace the roots it is last listed with, and no other workspace |
| `Roots.LoadedForGood` | src-tauri/src/commands.rs:260-346 | once loaded the cache stays loaded |
| `Roots.GuardAdmits` | src-tauri/src/commands.rs:354-378 | over any history the guard admits exactly the component-wise descendants of roots in the last words |
| `Roots.LateList` | src-tauri/src/commands.rs:1217-1223 | a list applied after newer pushes leaves a workspace as the daemon has it exactly when a later change touches it or the missed changes left its roots as listed |
| `Roots.StaleListReply` | src-tauri/src/commands.rs:1217-1223 | concrete events after which the cache keeps a removed root |
| `Calendar.FormulaCountsDays` | src-tauri/src/stats.rs:261-273 | the closed formula is the date reached by stepping a day at a time from 1970-01-01 (section 5.7 and Appendix C of RFC 3339), in both directions |
| `Calendar.UnixDateIsSteppedDate` | src-tauri/src/stats.rs:261-273 | so it is for every second, negative ones included |
| `Calendar.FormatReads` | src-tauri/src/stats.rs:261-273 | the text of a day reads as its year, month and day in the form YYYY-MM-DD |
| `Calendar.TextOrderIsDayOrder` | src-tauri/src/stats.rs:356-359 | for years 0000 to 9999 a text is smaller exactly if its day is earlier |
| `Calendar.TextOrderNeedsFourDigits` | src-tauri/src/stats.rs:356-359 | year 10000 reads smaller than year 9999 |
| `Calendar.CutoffIsExact` | src-tauri/src/stats.rs:249-257 | the filter drops exactly the days more than 7 days before today for `7d`, more than 30 for `30d`, and none otherwise |
| `Usage.PricedModels` | src-tauri/src/stats.rs:116-131 | a model is priced exactly when its lowercased id names opus, sonnet or haiku, by the rates of the first of these |
| `Usage.ParseSessionFile` | src-tauri/src/stats.rs:201-245 | the loop folds the contributing lines up to the first unreadable one |
| `Usage.ParsingConserves` | src-tauri/src/stats.rs:201-245 | in each token slot and in cost a parsed file weighs what its in-range entries weigh |
| `UsageLines.BucketSays` | src-tauri/src/stats.rs:201-245 | a parsed log has a bucket exactly for the day, directory and family of some readable line with output tokens and a full date, and each slot is the sum of the like-named field of those lines |
| `UsageLines.FileTotals` | src-tauri/src/stats.rs:201-245 | for each slot and for cost a file contributes to a row the like-named field of the lines that belong to it |
| `Usage.SumTakesOut` | src-tauri/src/stats.rs:343-455 | a sum over facts does not depend on the order of summation |
| `UsageFold.FoldBy` | src-tauri/src/stats.rs:353-384 | each pass, in any iteration order, gives each key its sums, flags and number of distinct files |
| `UsageRows.Rows` | src-tauri/src/stats.rs:343-455 | the rows by day and by family are what the in-range facts determine, in their orders |
| `UsageRows.RowsUnique` | src-tauri/src/stats.rs:448-455 | the facts leave no choice of rows or order; the family list is the unique sorted one |
| `UsageRows.BothCutsConserve` | src-tauri/src/stats.rs:343-455 | in each slot and in cost the rows by day, the rows by family and the in-range facts total the same |
| `UsageScan.ScanUsage` | src-tauri/src/stats.rs:285-462 | the scan's rows, number of parsed files and saved cache, whatever the directory order |
| `UsageScan.VisibleIs` | src-tauri/src/stats.rs:290-318 | the logs looked at, told from the disk: files with a stamp, in a listable directory of the projects directory, called something before `.jsonl` |
| `UsageScan.CacheStaysHonest` | src-tauri/src/stats.rs:162-196 | after any scans, lost or torn saves and damaged caches, what the cache holds is what its stamps' contents parse to |
| `UsageScan.IncrementalIsFull` | src-tauri/src/stats.rs:285-462 | the next scan reports and caches what a from-scratch parse gives, whatever ranges were asked for before |
| `UsageScan.ParsesWhatChanged` | src-tauri/src/stats.rs:319-337 | after a saved scan `parsed_files` counts exactly the new or restamped logs |
| `UsageScan.FailedReadPersists` | src-tauri/src/stats.rs:201-206 | a failed open is cached as empty, and the next scan under the same stamp keeps it so, however readable the log has become |
| `UsageScan.FailedReadLastsExactly` | src-tauri/src/stats.rs:319-337 | after any scans, a readable log with something to report is reported wrongly if and only if opening it failed at the scan that last put it under its stamp and every scan since, with the cache file untouched, kept the entry |
| `UsageScan.RowsConserveEntries` | src-tauri/src/stats.rs:343-455 | rows by day, rows by family and the in-range entries of the lines themselves total the same |
| `UsageScan.ScansConserveEntries` | src-tauri/src/stats.rs:285-462 | after any scans, failed saves and cache damage, both row lists of the next scan total the in-range entries of the lines in the logs then visible |
| `UsageLines.ScanRowsSay` | src-tauri/src/stats.rs:285-462 | after any scans, failed saves and cache damage, the rows by day and directory and by family are exactly those that the visible logs' lines make up: slots, cost, completeness and number of logs, each told from the lines' own fields |
| `UsageLines.RowOrderIs` | src-tauri/src/stats.rs:386-455 | days by day then directory; families by cost, then tokens in and out, larger first, then name |
| `Tree.MoveConserves` | src-tauri/src/fs_explorer.rs:443-468 | moving a subtree to a free place keeps the multiset of contents |
| `Tree.MoveKeeps` | src-tauri/src/fs_explorer.rs:443-468 | and keeps every entry inside directories |
| `Explorer.FileSystem.CreateFileInner` | src-tauri/src/fs_explorer.rs:412-420 | an empty file at a validated free place, or an error and no change |
| `Explorer.FileSystem.CreateDirInner` | src-tauri/src/fs_explorer.rs:423-427 | a directory at a validated free place, or an error and no change |
| `Explorer.FileSystem.RenameEntryInner` | src-tauri/src/fs_explorer.rs:433-445 | the subtree at its new name, AlreadyExists for an occupied target, or an error and no change |
| `Explorer.FileSystem.MoveEntryInner` | src-tauri/src/fs_explorer.rs:451-468 | the subtree in its new directory under its own name, AlreadyExists for an occupied target, or an error and no change |
| `Explorer.FileSystem.DeleteEntryInner` | src-tauri/src/fs_explorer.rs:474-480 | the subtree in the Trash, or an error and no change |
| `ExplorerOutcomes.ValidatedIsNamed` | src-tauri/src/fs_explorer.rs:143-170 | a path validates to an entry exactly if following its segments one after another, from the root or the file system's root, ends there inside the workspace |
| `ExplorerOutcomes.CreateFileExactly` | src-tauri/src/fs_explorer.rs:412-420 | creating a file succeeds exactly with a single name free in an existing directory of the workspace, and leaves an empty file there and nothing else changed |
| `ExplorerOutcomes.CreateDirExactly` | src-tauri/src/fs_explorer.rs:423-427 | the same of a directory |
| `ExplorerOutcomes.MoveExactly` | src-tauri/src/fs_explorer.rs:451-468 | a move succeeds exactly if the entry, the directory and the free place in it are there and the place is not in the entry; everything at or below the entry is then in that directory, nothing is left behind and nothing else changed; otherwise the error of the first failing check |
| `ExplorerOutcomes.RenameExactly` | src-tauri/src/fs_explorer.rs:433-445 | the same for a new name in the entry's own directory; a path written with a final `..` is never renamed |
| `ExplorerOutcomes.DeleteExactly` | src-tauri/src/fs_explorer.rs:474-480 | deleting puts exactly the named subtree in the Trash, together, unless it is no entry of the workspace or the system objects |
| `Explorer.PlansStayInside` | src-tauri/src/fs_explorer.rs:154-194 | every path an operation changes lies strictly inside the root, and a new one is an existing path and one valid name |
| `Explorer.OperationKeeps` | src-tauri/src/fs_explorer.rs:412-480 | one operation: the tree stays well-formed, contents are conserved, nothing outside the root nor the root changes, failure changes nothing |
| `Explorer.NothingOverwritten` | src-tauri/src/fs_explorer.rs:204-206 | every entry survives in place, at the free place it moved to, or in the Trash |
| `Explorer.RunsConserve` | src-tauri/src/fs_explorer.rs:412-480 | over every sequence of operations tree and Trash hold the initial contents plus one empty file per file created |
| `Explorer.RenameKeepsDirectory` | src-tauri/src/fs_explorer.rs:433-445 | a successful rename keeps the entry in its directory, though that directory is taken from the argument's text |
| `Listing.ListDirInner` | src-tauri/src/fs_explorer.rs:290-325 | the two loops list the directory's entries outside `.git`, ignored ones only if asked |
| `Listing.ListingIs` | src-tauri/src/fs_explorer.rs:228-325 | told from the disk: which listings fail and how, exactly which entries a listing holds, each with its name, relative path, kind, size and ignored flag, and in the order of the directory |
| `Listing.HidingIgnoredFilters` | src-tauri/src/fs_explorer.rs:306-323 | the listing without ignored entries is the order-preserving filter of the full one |
| `Listing.RelAddresses` | src-tauri/src/fs_explorer.rs:143-149 | joined names resolve to the entry they name |
| `Listing.ListingOf` | src-tauri/src/fs_explorer.rs:290-325 | listing by the joined names of a directory lists that directory, under that same relative path |
| `Listing.DescentIsComplete` | src-tauri/src/fs_explorer.rs:228-325 | listing lazily from the root meets each entry outside `.git` exactly once, with its attributes and by a relative path that addresses it; listing the root by the empty path, or a directory met by the path its entry carries, returns exactly the entries met one step below |
| `Preview.ValidIsEncoded` | src-tauri/src/fs_explorer.rs:338-342 | well-formed is exactly: the UTF-8 encodings (section 3 of RFC 3629) of some scalar values one after another |
| `Preview.LossyByParts` | src-tauri/src/fs_explorer.rs:343-348 | lossy decoding keeps each encoded character and puts one U+FFFD for each maximal part that is none |
| `Preview.PrefixValid` | src-tauri/src/fs_explorer.rs:338-342 | a prefix of well-formed text is well-formed exactly when it ends between characters |
| `Preview.LossyIsValid` | src-tauri/src/fs_explorer.rs:343-348 | lossy decoding is always well-formed and returns exactly well-formed input unchanged |
| `Preview.TextIsShown` | src-tauri/src/fs_explorer.rs:338-369 | NUL-free well-formed text within the cap is shown identically exactly when the probe's cut falls between characters, and is Binary otherwise |
| `Preview.Classified` | src-tauri/src/fs_explorer.rs:338-369 | for any bytes which of the three previews results, and when a shown content is the bytes themselves |
| `Preview.PreviewIs` | src-tauri/src/fs_explorer.rs:330-405 | which preview or error any file gets, from its kind, stated size and content: 1 MiB is the most shown, and the first 8 KiB decide whether it is text |
| `Preview.GrownFileIsTooLarge` | src-tauri/src/fs_explorer.rs:378-405 | a file grown past the cap after its stat is TooLarge exactly then |
| `Preview.StraddlingTextIsBinary` | src-tauri/src/fs_explorer.rs:338-342 | a concrete text called binary |
| `Watcher.ByteLengthIsDepth` | src-tauri/src/fs_watcher.rs:227-233 | among prefixes of one path the order of byte lengths is the order of depths |
| `Watcher.RouteIsDeepest` | src-tauri/src/fs_watcher.rs:227-233 | a path goes to its deepest containing root, and nowhere only if none contains it |
| `Watcher.BuildChangedEvents` | src-tauri/src/fs_watcher.rs:218-298 | the loops give the sorted, capped events that the paths' verdicts determine |
| `WatchCoverage.ChangedExactly` | src-tauri/src/fs_watcher.rs:218-298 | a root has a `Changed` event exactly if a kept path changed something under it; its list is `*` alone exactly if the root itself changed, something is named so or more than 500 things changed, and otherwise holds exactly the wire strings of the kept paths |
| `WatchCoverage.ErrorsExactly` | src-tauri/src/fs_watcher.rs:218-298 | a root has an error exactly if its own path was reported and is gone, with the path reported first |
| `WatchCoverage.EventsInOrder` | src-tauri/src/fs_watcher.rs:275-298 | one event for a root and kind, changes before errors, each in the order of root strings |
| `Watcher.OrderFree` | src-tauri/src/fs_watcher.rs:218-298 | with distinct roots the events do not depend on the order of roots or on the order and repetition of paths |
| `Watcher.SameRootTwice` | src-tauri/src/fs_watcher.rs:227-233 | two strings for one canonical root make the order matter |
| `Watcher.OrderMatters` | src-tauri/src/fs_watcher.rs:227-233 | two strings for one canonical root, whatever else is watched: a change of that root is reported under the one listed last |
| `Watcher.OrderFreeExactly` | src-tauri/src/fs_watcher.rs:218-298 | the order of roots matters to some batch if and only if two of them share a canonical path |
| `WatchCoverage.ChangedPathsToParentDirs` | src/App.tsx:94-105 | the loop yields the parents in order of first appearance |
| `WatchCoverage.ParentDirsAre` | src/App.tsx:94-105 | exactly the parents of the changed paths, without duplicates |
| `WatchCoverage.OutputShape` | src-tauri/src/fs_watcher.rs:275-288 | each Changed list has 1 to 500 strictly sorted entries, the sentinel only alone |
| `WatchCoverage.EntryHasSource` | src-tauri/src/fs_watcher.rs:226-273 | every other entry comes from a path of the batch that was kept |
| `WatchCoverage.UnkeptIsDropped` | src-tauri/src/fs_watcher.rs:226-273 | a path of no root, inside `.git` or ignored leaves no trace |
| `WatchCoverage.KeyIsDirectory` | src-tauri/src/fs_watcher.rs:194-196 | the key computed for an entry is its listing's exactly when no name holds a backslash, or it is a top-level name whose only backslash comes first |
| `WatchCoverage.BackslashMissesListing` | src-tauri/src/fs_watcher.rs:194-196 | a concrete name whose listing is missed |
| `WatchCoverage.Coverage` | src-tauri/src/fs_watcher.rs:223-297 | every kept path is answered by a WatchError of its root, the sentinel, or a Changed event whose parents contain its key |
| `WatchCoverage.ListingIsDropped` | src/App.tsx:71-105 | without backslashes that key is the listing that shows the entry |
| `Launch.DaemonHost.Bootstrap` | src-tauri/src/launchd.rs:261-271 | an already-loaded service is success and is not touched |
| `Launch.DaemonHost.Kickstart` | src-tauri/src/launchd.rs:286-297 | a running daemon is left alone, success by exit code or "already running" |
| `Launch.DaemonHost.KickstartForce` | src-tauri/src/launchd.rs:306-317 | the daemon is replaced by the bundle's if launchd acts, success judged the same way |
| `Launch.DaemonHost.EnsureDaemonRunning` | src-tauri/src/lib.rs:264-269 | install, bootstrap and kickstart in turn, stopping at the first failure |
| `Launch.DaemonHost.ReconcileDaemonVersion` | src-tauri/src/lib.rs:288-321 | nothing for the current version, the marker alone when there is none, a forced restart and then the marker otherwise |
| `Launch.DaemonHost.BringUp` | src-tauri/src/lib.rs:464-475 | reconciliation only after a successful start |
| `Launch.RunningIsAlready` | src-tauri/src/launchd.rs:151-165 | whatever counts as already running counts as already bootstrapped |
| `Launch.AnswersAre` | src-tauri/src/launchd.rs:151-165 | a bootstrap succeeds on exit code 0 or 5 or a complaint that says "already" in any case, a kickstart on 0 or "already running" |
| `Launch.TrimIs` | src-tauri/src/lib.rs:290-292 | reading the marker takes white space off both ends and nothing else |
| `Launch.LaunchIs` | src-tauri/src/lib.rs:264-321 | all one launch does to what is loaded, what runs and the marker, in terms of the answers it gets |
| `Launch.UnchangedVersionNeverKills` | src-tauri/src/lib.rs:264-321 | unless the marker names another version a running daemon is never touched, whatever launchctl answers |
| `Launch.LaunchEndsCurrent` | src-tauri/src/lib.rs:264-321 | a completed launch ends with the current daemon exactly when it found that or none, or the marker was stale and launchd carried the forced restart out, whatever it answered |
| `LaunchRuns.RunningIsLoaded` | src-tauri/src/lib.rs:264-269 | over every run only a loaded service has a daemon running |
| `LaunchRuns.NewVersionsKeepTruth` | src-tauri/src/lib.rs:288-321 | if no update returns to a version already shipped, the marker names a shipped version and, when it names the bundle, no other version runs; crashes, failed writes and failed restarts may come at any time |
| `LaunchRuns.SettledUpdatesKeepTruth` | src-tauri/src/lib.rs:288-321 | versions may return if no daemon starts between an update and its completed launch: then only the marked version ever runs |
| `LaunchRuns.MarkerTellsTruth` | src-tauri/src/lib.rs:288-321 | in either case a successful launch that leaves the marker current leaves the current daemon running |
| `LaunchRuns.KeptMarkersAreLawful` | src-tauri/src/lib.rs:297-303 | told from the events alone: if the marker is never lost and the first update follows a launch that wrote it, no launch without a marker meets an older daemon, and the run is lawful if `-k` restarts as it reports |
| `LaunchRuns.ReturnIsTruthfulExactly` | src-tauri/src/lib.rs:294-296 | an update that returns to the marked version leaves the marker truthful if and only if no daemon started under another version since the marker was written is still in place, told from the events since |
| `LaunchRuns.ReturnAfterLaunch` | src-tauri/src/lib.rs:288-321 | the same from the end of any run of the two kinds above that completed a launch |
| `LaunchRuns.UnmarkedLaunchIsTruthfulExactly` | src-tauri/src/lib.rs:297-303 | a completed launch without a marker leaves a truthful one exactly if it met no older daemon |
| `LaunchRuns.ForcedLaunchIsTruthfulExactly` | src-tauri/src/lib.rs:304-313 | a forced restart that reports success leaves a truthful marker if and only if launchd carried it out or no older daemon ran |
| `LaunchRuns.OlderDaemonGoesExactly` | src-tauri/src/lib.rs:272-321 | after an update, whatever launchctl answers, the older daemon is gone if and only if it exited, crashed or was logged out, or some launch found the marker still stale and launchd carried its forced restart out |
| `LaunchRuns.ForcedRestartsAre` | src-tauri/src/lib.rs:304-313 | between updates the forced restarts that report success are counted by the full launches before a stale marker is lost or written |
| `LaunchRuns.ForcedOnceExactly` | src-tauri/src/lib.rs:276 | there is at most one per update if and only if no two full launches follow each other with the marker neither written nor lost before the second |
| `LaunchRuns.OneForcedRestartPerSwap` | src-tauri/src/lib.rs:288-321 | so if marker writes succeed each version change causes at most one |
| `LaunchRuns.LostMarkerHidesOldDaemon` | src-tauri/src/lib.rs:297-303 | from a fresh install: with the marker lost an old daemon is recorded as new |
| `LaunchRuns.FailedWriteForcesAgain` | src-tauri/src/lib.rs:310-313 | from a fresh install: without successful writes the restart repeats, three times for one update |
| `LaunchRuns.AlreadyRunningCountsAsRestart` | src-tauri/src/launchd.rs:306-317 | an "already running" answer to `-k` is recorded as a restart |
| `LaunchRuns.CrashBetweenSwaps` | src-tauri/src/lib.rs:294-296 | a crash between two swaps that return to the marked version leaves the newer daemon behind a truthful-looking marker |
| `LaunchRuns.FailedForceBetweenSwaps` | src-tauri/src/lib.rs:294-296 | so does a failed forced restart, with no crash at all |

## Left out

- TextOrderIsDayOrder: only for years of four digits, as the formatted text is wider beyond; `TextOrderNeedsFourDigits` shows where it stops.
- IncrementalIsFull: assumes that reads succeed and that equal path, mtime and size mean equal content; `FailedReadPersists` shows the first is needed, and nothing in the cache could detect a breach of the second.
- OrderFree: assumes distinct roots. `OrderFreeExactly` shows that is needed, for lists in which each watched string has one matcher, as they are built.
- MarkerTellsTruth: assumes that launchctl answers truthfully (`OlderDaemonGoesExactly` says what becomes of an update when it does not), that no launch without a marker meets an older daemon (`UnmarkedLaunchIsTruthfulExactly`, `KeptMarkersAreLawful`), and one of the two conditions on updates. For an update outside both, `ReturnIsTruthfulExactly` gives the exact condition.
- EvictionInterleavesExactly: says that an interleaving can follow, not that it does; a run in which the call with a chunk left fails first has none. `QuietEvictionsKeepLists` is the matching statement about one run.
- Integer widths: `u64` token sums, `u32` session counts, `u64` request ids and `i64` milliseconds are unbounded here.
- Floating point: costs are exact integers, so rounding of the estimate and ties created by it are not modelled.
- Frame bodies: CBOR and JSON parsing are oracles; only the frame prefix and the size of a chunk are encoded.
- Text as code points: paths and names that are not valid UTF-8, lossy key collisions and a timestamp whose tenth byte is inside a character are not modelled.
- Symlinks, and races between a check and the system call after it: the explorer's trees are symlink-free and each check-then-act is one step.
- The root of an explorer operation is given by its canonical components; its own canonicalization and the registered-root gate in front of it are modelled in `Roots`.
- The disk does not change during one batch of watch events, during one listing or during one lazy descent.
- `build_watch_error_events`: routes by first match, so no order-independence holds for it.
- Nested `.gitignore` semantics, FSEvents, the Trash service, `git log` counting and launchctl itself: oracles.
- Real sockets, tokio scheduling, timeouts in wall-clock time beyond the backoff sequence, and the session daemon's client, which mirrors the one modelled.
- Fairness of the per-session mutex: any waiting call may acquire a free lock.
- The thin daemon commands and their reply unwrappers, the push-to-event tables, the power reconciler, the updater, React components and UI copy: one branch each, or no state.
