# Porla, modelled and proved in Dafny

Porla is a BitTorrent client around libtorrent, libcurl, SQLite and Lua. This project models its self-contained
algorithms and state machines, with the libraries as environments that may do anything their documentation allows,
and proves what they are for. `dafny verify dfyconfig.toml` checks all of it.

- `Sessions`, `InfoHashes`, `TorrentsIterator`: the session's mirror of libtorrent's torrents, keyed by hybrid info
  hash with two half indexes; its repair after lost alerts; a ledger of what was announced; a script's walk over it.
- `CurlTransfers`, `CurlSockets`: the HTTP client, as two views of one class. The first is about callbacks, which may
  re-enter the client, and handle ownership; the second about sockets, waits and timers that come back late.
- `Pql*`, `Glob`, `EditDistance`: the query language, from the depth check and the recursive-descent parser over its
  grammar to the filters, with the glob matcher, flag masks, intervals, hash prefixes and suggestions.
- `Scheduler`, `LoadTorrents`, `RowMatch`: jobs on timers, the load job over two-phase keyset paging, and which stored
  rows a hash selects.
- `LogBuffer`: the byte-bounded log and its readers.
- `LuaJson`, `Mmdb`: JSON to Lua and back, and rebuilding a tree from a flattened list.

Where a property does not hold of the code, the code is kept and the exact condition is proved:

- A re-key onto a taken hash drops the torrent (`src/sessions/infohashmap.hpp:81-84`). `UpdateInfoHashes` and
  `OnAddTorrentAlert` state exactly when a Current one is lost, `Sessions.Run` counts the losses from the alerts, and
  `Sessions.LostToItsOtherHalf` shows one.
- An add alert whose requested hash is no longer tracked, while the handle's hash is, and is Current, announces that
  torrent a second time (`src/sessions/handlers/torrents.cpp:50-61`): so it goes when metadata has re-keyed a magnet and a
  second alert comes under its old hash (`Sessions.AddedTwice`). `Sessions.Run` counts these events exactly, and there are
  none of either kind when every alert comes under the hash it was asked for.
- Two keys that once shared a half leave the half index incomplete (`InfoHashes.SharedHalfIsForgotten`); inserting stays
  exact if and only if no half is shared (`InfoHashes.EmplaceKeeps`), and lookups agree with a scan if and only if the
  index is exact (`InfoHashes.LookupIsScanIffExact`).
- A handle given to the HTTP client again when it is free to take it, for instance by its own callback, is cleaned up as
  often as it was taken, which is once too often (`CurlTransfers.HandedBackByItsCallback`). `CurlTransfers.Run` proves that
  this happens if and only if two offers of the handle found the client shut down or the handle not registered; offering
  a registered handle is refused, and a handle offered once is cleaned up exactly once by a shutdown, outside the multi.
- The comment on `Suspend` (`src/sessions/scheduler.hpp:47`) promises that all manual jobs are held back. The code lets
  one that is already scheduled start (`Scheduler.SuspendedButScheduled`); `Scheduler.RunAll` proves that
  no other does.
- JSON integers beyond the signed 64-bit range, floats that are not finite and binary values do not survive Lua;
  `LuaJson.RoundTrip` is an equivalence.
- An empty needle is found in every text but the empty one (`src/query/pql.cpp:252-271`); `PqlLeaves.FoundIsHeld` says so.

Assumptions about the environment: libtorrent's live handles have distinct hashes and distinct non-null client data,
and a torrent tracked under a live hash owns that handle's client data (`Sessions.Consistent`). libcurl reports the
completion of a handle once as long as it is in the multi, and drops the unread messages of one that is removed. asio's
`cancel` withdraws a timer wait of the scheduler; for the HTTP client no such assumption is made, and waits and timers
may come back successfully after they were cancelled. A stored table does not change while it is loaded.

## Model

| member | source | states |
|---|---|---|
| Sessions.Session.ReconcileTorrents | src/sessions/session.cpp:638-829 | After the repair the tracked hashes are exactly the hashes libtorrent has, every tracked torrent is Current, nothing was lost by a re-key onto a taken hash, and an exact half index stays exact when halves do not clash. Only torrents tracked after it are announced or promoted, none is added again, and only Current ones it dropped are announced as removed. |
| Sessions.SizeShortcut | src/sessions/session.cpp:783-809 | Once all live hashes are tracked, comparing the two sizes decides whether anything is left over. |
| Sessions.Session.ReconcileOne | src/sessions/session.cpp:672-781 | Reconciling one handle makes it tracked and Current, the handle's own unless it was Current already, touches only its hash and the owner of its client data, survives an owner map built earlier that is not kept up to date, and logs exactly the announcement or promotion of what was not Current yet. |
| Sessions.Session.ReconcileLive | src/sessions/session.cpp:659-781 | After the handles are gone through, each live hash is Current, the other torrents are as before, and what was logged is about live torrents only. |
| Sessions.Session.MoveOwner | src/sessions/session.cpp:693-731 | The torrent owning the handle's client data is re-keyed to the handle's hash, and no Current torrent is displaced. |
| Sessions.Session.BuildOwners | src/sessions/session.cpp:680-691 | The owner map leads from each non-null client data to a torrent that owns it, and misses none. |
| Sessions.Session.DropGone | src/sessions/session.cpp:783-809 | Exactly the torrents libtorrent no longer has are dropped; what is logged is the removal of each Current one among them, and nothing else. |
| Sessions.MovedOrAdopted | src/sessions/session.cpp:693-780 | Whether a handle is adopted or its owner is moved, no other torrent changes and client data stays owned by one torrent. |
| Sessions.KeepsConsistent | src/sessions/session.cpp:659-781 | Reconciling one handle keeps the assumptions about all the handles still to come. |
| Sessions.KeepsOwners | src/sessions/session.cpp:680-697 | A stale owner map still answers correctly for the handles still to come. |
| Sessions.KeepsNoClash | src/sessions/session.cpp:659-781 | Reconciling one handle introduces no shared half. |
| Sessions.LedgerBalances | src/sessions/session.cpp:163-210 | In every state that keeps the ledger, "torrent.added" events plus silent promotions minus removals of a torrent is one exactly while it is Current, or was lost on a taken key, and zero otherwise; each happens at most once. Adding what is Current again is logged apart, and counted exactly by Run. |
| Sessions.LedgerInsert | src/sessions/session.cpp:163-210 | Tracking a fresh torrent that is not Current keeps the ledger. |
| Sessions.LedgerEnter | src/sessions/handlers/torrents.cpp:60-115 | Becoming Current keeps the ledger when it is announced, or promoted silently, in the same step. |
| Sessions.LedgerUpdate | src/sessions/session.cpp:831-849 | Changing a tracked torrent without changing whether it is Current keeps the ledger. |
| Sessions.LedgerRepeat | src/sessions/handlers/torrents.cpp:50-115 | Announcing a Current torrent again leaves the rest of the ledger as it was. |
| Sessions.Session.Announce | src/sessions/handlers/torrents.cpp:50-115 | An add not found under the hash it was asked for announces what the handle's hash leads to, whatever state that was in. |
| Sessions.LedgerMove | src/sessions/session.cpp:912-928 | Re-keying to a free hash keeps the ledger. |
| Sessions.LedgerDrop | src/sessions/session.cpp:879-910 | Dropping a torrent keeps the ledger when a Current one is announced as removed, or else counted as lost. |
| Sessions.Session.Add | src/sessions/session.cpp:163-210 | Adding is refused exactly when the hash is tracked or found under either half; a throwing hand-over to libtorrent leaves the tracked set as it was; nothing is announced yet. |
| Sessions.Session.Track | src/sessions/session.cpp:831-849 | The handle's torrent is tracked and Current; a fresh one takes over the handle's client data. |
| Sessions.Session.UntrackTorrent | src/sessions/session.cpp:879-910 | Untracking removes the torrent and its halves, and announces the removal exactly for a Current one. |
| Sessions.Session.UntrackInvalidTorrents | src/sessions/session.cpp:851-877 | The sweep drops exactly the Current torrents whose handle is invalid, keeps those being added, and logs the removals of what it drops and nothing else. |
| Sessions.Session.UpdateInfoHashes | src/sessions/session.cpp:912-928 | A re-key moves the torrent and its pending save to the new hash; a Current torrent is lost exactly when it moves onto a taken hash. |
| Sessions.MovedMeans | src/sessions/session.cpp:912-928 | A re-key onto a free hash keeps all of the torrent but its hash, and every other torrent. |
| Sessions.Session.OnAddTorrentAlert | src/sessions/handlers/torrents.cpp:15-115 | After a successful add the handle's hash is Current and, unless it was that already and found, is the handle's own torrent with its id, client data and marks as they were; the exact tracked set and the exact event: found under the hash asked for it is announced unless it was Current already, or promoted silently if it came from storage; a Current torrent is lost exactly when re-keying finds the hash taken. |
| Sessions.Session.OnAddFailed | src/sessions/handlers/torrents.cpp:15-60 | A failed add drops the torrent waiting for it without announcing anything, and never a Current one. |
| Sessions.Session.OnMetadataReceivedAlert | src/sessions/handlers/torrents.cpp:159-215 | Metadata re-keys a torrent known only by its handle to the hash it has now and never loses one; the news is passed on once for every tracked torrent. |
| Sessions.Run | src/sessions/session.cpp:163-210 | Any sequence of adds, alerts, sweeps and repairs keeps the half indexes sound and the ledger balanced, each step making of the tracked torrents what it is for; what was lost and what was added again is exactly what the add alerts did whose guards held in the states they met, and nothing when each alert comes under the hash it was asked for. |
| Sessions.FromAddToMetadata | src/sessions/handlers/torrents.cpp:15-215 | A torrent that gets its add alert outlives a sweep that finds its handle valid, is found by that handle when its metadata comes, and is the same torrent under its new hash, Current and announced. |
| Sessions.AddedTwice | src/sessions/handlers/torrents.cpp:50-61 | The failing case of "announced once", from a session nothing has happened in: an alert for a magnet Porla did not add, its re-keying by the metadata, and a second alert under its old hash. |
| Sessions.LostToItsOtherHalf | src/sessions/infohashmap.hpp:81-84 | The failing case of "never lost", from a session nothing has happened in: alerts for magnets of the two halves of one hybrid torrent, which the second becomes before an alert re-keys the first to it. |
| InfoHashes.FindIsScan | src/sessions/infohashmap.hpp:92-118 | What a lookup by half finds is a compatible key sharing a half, and with an exact index it finds one whenever a scan over all keys would. |
| InfoHashes.ScanMeans | src/sessions/infohashmap.hpp:92-96 | What a scan looks for: a half in common, and no half that both have and that differs. |
| InfoHashes.EmplaceKeeps | src/sessions/infohashmap.hpp:46-56 | Inserting keeps every index entry leading to a present key with that half; it stays exact if and only if the new key shares no half with another. |
| InfoHashes.EraseKeeps | src/sessions/infohashmap.hpp:58-62 | Erasing keeps the indexes sound, and exact if they were. |
| InfoHashes.RekeyKeeps | src/sessions/infohashmap.hpp:66-90 | Re-keying keeps the indexes sound, and exact if the new key shares no half with the keys that stay. |
| InfoHashes.RunsKeep | src/sessions/infohashmap.hpp:46-90 | From the empty map, any operations keep the indexes sound, and exact as long as no two keys ever share a half. |
| InfoHashes.LookupIsScan | src/sessions/infohashmap.hpp:34-44 | After any operations without shared halves, a lookup by half hits exactly when a linear scan does. |
| InfoHashes.LookupIsScanIffExact | src/sessions/infohashmap.hpp:92-118 | When the keys share no halves and the indexes are sound, every lookup by half hits whenever a scan does if and only if the indexes are exact. |
| InfoHashes.SharedHalfIsForgotten | src/sessions/infohashmap.hpp:119-130 | A concrete run in which two keys once shared a half: afterwards the scan finds a key and the lookup does not. |
| InfoHashes.ExactSharesNothing | src/sessions/infohashmap.hpp:119-124 | An exact index is only possible when no two keys share a half. |
| InfoHashes.InfoHashMap.TryEmplace | src/sessions/infohashmap.hpp:46-56 | Inserts unless the key is there, with both indexes updated as one insertion. |
| InfoHashes.InfoHashMap.Remove | src/sessions/infohashmap.hpp:58-62 | Takes the key out of the items and of both indexes. |
| InfoHashes.InfoHashMap.Move | src/sessions/infohashmap.hpp:66-90 | Moves the item, reports whether it moved, and drops it exactly when the new key is taken by another. |
| InfoHashes.InfoHashMap.KeyByHalf | src/sessions/infohashmap.hpp:98-118 | The lookup on the mutable map agrees with the specified lookup, whose meaning FindIsScan states. |
| TorrentsIterator.Walk | src/lua/types/potorrentsiterator.cpp:8-35 | Call after call on arbitrary snapshots: hashes strictly increase, each is tracked, Current and one the query holds of at its call, and a torrent that stays so until the iterator first returns nothing has been returned before that, exactly once. |
| TorrentsIterator.TorrentsIterator.Next | src/lua/types/potorrentsiterator.cpp:8-35 | One call returns the least wanted torrent after the last hash seen, or says there is none; the last hash never goes back. |
| TorrentsIterator.UpperBound | src/sessions/session.hpp:92-97 | The first key after the last hash in the order of the map. |
| TorrentsIterator.LessOrders | src/sessions/session.hpp:92-97 | The order of the map is a strict total order, by the v1 half and then the v2 half. |
| CurlTransfers.Run | src/curlmulti.cpp:107-299 | Any run, with callbacks that add, cancel and shut down from inside: each hand-over is given at most one result, by the one invocation of its callback, and exactly one by the end of a shutdown; it is told how the transfer finished only as libcurl reported it, that it failed exactly where its offer was refused, and that it was aborted only if its handle is cancelled or the client shut down in the run; no completion is left unread between events; every handle is cleaned up as often as it was taken over, so twice if and only if it was offered when the client was free to take it and then again when it was; after a shutdown a handle offered once has been cleaned up exactly once, outside the multi, and the offers are the cleanups and the refused duplicates. |
| CurlTransfers.CountTwice | src/curlmulti.cpp:241-286 | A handle has been taken over twice exactly when two of the offers found the client free to take it: after a shutdown, or with the handle not registered. |
| CurlTransfers.CurlMulti.Shutdown | src/curlmulti.cpp:107-141 | Every registered transfer is aborted, and every hand-over there has ever been then has exactly one result; a second shutdown changes nothing. |
| CurlTransfers.CurlMulti.DoAddTransfer | src/curlmulti.cpp:241-286 | After a shutdown the callback is aborted and the handle cleaned up; a registered handle is refused and left to its first owner; a handle libcurl does not accept fails and is cleaned up; otherwise it is taken over. The offer is recorded with whether the client was free to take it and what it answered at once. |
| CurlTransfers.CurlMulti.AddTransfer | src/curlmulti.cpp:143-158 | A null handle is dropped and its callback never taken over; any other hand-over is counted. |
| CurlTransfers.CurlMulti.CancelTransfer | src/curlmulti.cpp:288-299 | A registered transfer is given the aborted result and its handle cleaned up; any other cancel changes nothing. |
| CurlTransfers.CurlMulti.RefuseDuplicate | src/curlmulti.cpp:254-262 | A handle registered already: its new callback is told of the failure, the handle is neither taken nor cleaned up for it, and the first callback stays stored until it has its own result. |
| CurlTransfers.CurlMulti.FinishTransfer | src/curlmulti.cpp:620-637 | The callback is given the result once, while its handle is still usable, and the handle is cleaned up after it, the one cleanup its taking is due; termination of the re-entrant calls. |
| CurlTransfers.CurlMulti.CheckCompleted | src/curlmulti.cpp:586-618 | The outermost call returns only with no completion unread, though completions arrive while callbacks run; the first unread completion is passed on as it is, and so is every other, unless its handle is cancelled, or the client shut down, by one of the callbacks, or it was cleaned up inside the multi; a nested call leaves the reading to it. |
| CurlTransfers.CurlMulti.SafeInvoke | src/curlmulti.cpp:639-662 | The one place where a hand-over gets its result, by running its callback: whatever that does, the client keeps its obligations, and all the handles it offers are taken, refused or left with stored callbacks. |
| CurlTransfers.CurlMulti.EasyCleanup | src/curlmulti.cpp:620-637 | A cleanup is only ever made for a handle whose callback has been given its result, and takes its unread completions with it. |
| CurlTransfers.OwedDeliver | src/curlmulti.cpp:620-637 | Giving a stored callback its result and taking it out of the registry keeps each hand-over at one result at most and the rest stored. |
| CurlTransfers.OwedAdd | src/curlmulti.cpp:257-266 | Storing the callback of a new hand-over leaves every hand-over without a result stored exactly once. |
| CurlTransfers.ToldOrStopped | src/curlmulti.cpp:586-637 | A callback that has its result, with a completion of its handle reported before, was told just that completion, unless a cancel of its handle or a shutdown came in between. |
| CurlTransfers.QueuedReport | src/curlmulti.cpp:586-618 | libcurl reports the completion of a registered handle once, and every unread completion is one of the hand-over stored under its handle. |
| CurlTransfers.TendedRead | src/curlmulti.cpp:586-618 | Reading one completion loses no other completion and no stored callback. |
| CurlTransfers.TendedFinish | src/curlmulti.cpp:620-637 | Taking a callback out of the registry, and its unread completions out of the queue, loses nothing once it has its result. |
| CurlTransfers.CustodyCleanUp | src/curlmulti.cpp:620-637 | A cleanup that was due keeps the balance of takings and cleanups; a handle inside the multi when it is made has been taken more than once. |
| CurlTransfers.NothingLeft | src/curlmulti.cpp:107-141 | With nothing registered and no callback running, every handle has been cleaned up as often as it was taken over. |
| CurlTransfers.HandedBackByItsCallback | src/curlmulti.cpp:241-248 | The failing case: a fresh handle whose own callback hands it back after a shutdown is cleaned up twice. |
| CurlSockets.Run | src/curlmulti.cpp:320-570 | Whatever is delivered in whatever order, and whatever libcurl does in the calls that reach it: a direction of a registered socket is marked in flight exactly when one wait for it is outstanding; one timer of the current generation at most is outstanding; every direction libcurl wants of a registered socket is in flight or about to be driven again, unless a wait made for that very registration and direction came back aborted or failed and libcurl has not asked for the socket since; and the registered sockets, with their directions, are exactly those libcurl last asked for, but for those whose registration failed when asked for. |
| CurlSockets.RunEvents | src/curlmulti.cpp:320-584 | Which events reach libcurl, and that what it does in them, put together, is what decides the sockets asked for, the failed waits unanswered and the shutdown. |
| CurlSockets.RefusedOnFailure | src/curlmulti.cpp:335-368 | A socket libcurl asks for and does not get is one whose registration failed. |
| CurlSockets.AskedAgain | src/curlmulti.cpp:377-415 | A socket asked for again has no failed wait left behind, and a socket not asked for is the registration it was. |
| CurlSockets.CurlMulti.OnSocketReady | src/curlmulti.cpp:464-503 | A wait of a removed or reused socket does nothing at all; an aborted one only clears its flag; after a successful one every wanted direction is in flight or a re-drive is posted. |
| CurlSockets.CurlMulti.OnSocketUpdate | src/curlmulti.cpp:320-375 | A request leaves every wanted direction of a registered socket in flight without stacking waits, and no failed wait unanswered; an unknown socket is registered, under an id never used before, exactly when its registration works; a removal leaves outstanding waits without effect. |
| CurlSockets.CurlMulti.ArmSocket | src/curlmulti.cpp:377-415 | Arming puts exactly the wanted directions in flight that are not yet, each with one wait. |
| CurlSockets.CurlMulti.DriveSocket | src/curlmulti.cpp:434-462 | After driving a socket a re-drive is posted exactly when the direction was reading, transfers are running and the socket is still wanted for reading and readable; otherwise all it wants is in flight. |
| CurlSockets.CurlMulti.OnRedrive | src/curlmulti.cpp:447-456 | A posted re-drive does nothing after the shutdown, and otherwise posts another exactly while the socket stays readable, or leaves all the socket wants in flight. |
| CurlSockets.CurlMulti.TimerCallback | src/curlmulti.cpp:505-553 | A new timeout supersedes every timer set before; exactly one timer of its generation is outstanding, or none for a negative timeout. |
| CurlSockets.CurlMulti.OnTimeout | src/curlmulti.cpp:555-570 | A cancelled or superseded timer does nothing; a generation acts once at most. |
| CurlSockets.CurlMulti.StillReadable | src/curlmulti.cpp:417-432 | A socket is readable exactly when it is registered, wanted for reading and polled as readable. |
| CurlSockets.CurlMulti.SocketAction | src/curlmulti.cpp:572-584 | Calls into libcurl may update, remove and reuse any sockets, set timers, count its transfers and shut down, and still keep every registration newer or the same with no wait lost; what is asked for and refused, the count and the timer afterwards are what the updates add up to. |
| CurlSockets.CurlMulti.Shutdown | src/curlmulti.cpp:107-141 | Afterwards no socket is registered and no outstanding timer is current. |
| CurlSockets.Delivers | src/curlmulti.cpp:464-488 | A delivered wait clears the flag of the registration it was made for and of no other. |
| CurlSockets.IdStays | src/curlmulti.cpp:473-478 | Whatever libcurl does to a socket in between, no other socket comes by an id there was. |
| Scheduler.RunAll | src/sessions/scheduler.cpp:47-283 | Until the stop a triggered manual job is under way unless suspended, every other job is scheduled, and no timer has two waits; a trigger is forgotten only when its job starts; a stop asked for stops the scheduler, after which nothing starts, and each entry that was there at any moment before it and was not erased has been told once; entries, suspensions and stop are at every moment exactly what the calls and runs add up to, so that a periodic or manual job asked for stays registered; while a suspension lasts the only manual jobs to start are those scheduled before it, and it lasts when nothing in the run asks for a resume. |
| Scheduler.Step | src/sessions/scheduler.cpp:47-283 | One call from outside or one run: what it keeps of triggers, suspensions, entries and the stop. |
| Scheduler.RegisteredOver | src/sessions/scheduler.cpp:240-283 | Only an entry started once is ever erased. |
| Scheduler.HistoryGrows | src/sessions/scheduler.cpp:138-168 | One more event keeps the account of a run: what each event led to, and that the entries there were before the stop and are still there were told of it. |
| Scheduler.Scheduler.MakeOne | src/sessions/scheduler.cpp:47-168 | Each call has exactly its effect on entries, suspensions and stop: which entry is added or marked, what is scheduled and with what delay, with whatever the jobs ask for when they are told of a stop. |
| Scheduler.CalmLiftsNothing | src/sessions/scheduler.cpp:110-168 | A call that resumes nothing, in itself or in any reaction to a stop, lifts no suspension. |
| Scheduler.Scheduler.Run | src/sessions/scheduler.cpp:216-283 | A run keeps all that, whatever the job asks for meanwhile, ends by returning or throwing; its entry, the others, suspensions and the stop are exactly what its beginning, the calls of the job and its end make of them: a periodic job is scheduled after its interval, one that asks again after its delay, one started once is gone. |
| Scheduler.Scheduler.End | src/sessions/scheduler.cpp:240-283 | What becomes of the entry after its run, by its kind, its outcome, a stop and a trigger that came during it. |
| Scheduler.Scheduler.DoStop | src/sessions/scheduler.cpp:138-168 | Every wait is withdrawn and each entry there was is told exactly once, though jobs add entries in return; a second stop changes nothing. |
| Scheduler.Scheduler.DoTrigger | src/sessions/scheduler.cpp:81-103 | Only the first manual entry of the type is marked, and scheduled exactly when nothing keeps it. |
| Scheduler.Scheduler.DoResume | src/sessions/scheduler.cpp:110-136 | Lifting the last suspension schedules exactly the triggered manual entries that are not under way; lifting another or none schedules nothing, and only the former counts as a lift. |
| Scheduler.Scheduler.DoSuspend | src/sessions/scheduler.cpp:105-108 | Suspensions are counted and change no entry. |
| Scheduler.Scheduler.DoSetInterval | src/sessions/scheduler.cpp:62-79 | Every periodic entry of the type has the new interval; one that is waiting waits anew and still has one wait; no other entry changes. |
| Scheduler.Scheduler.AddEvery | src/sessions/scheduler.cpp:47-50 | A periodic job is scheduled after its first interval, unless the scheduler has stopped. |
| Scheduler.Scheduler.AddStart | src/sessions/scheduler.cpp:52-55 | A job started once is scheduled at once, unless the scheduler has stopped. |
| Scheduler.Scheduler.AddManual | src/sessions/scheduler.cpp:57-60 | A registered job is idle. |
| Scheduler.WakeKeeps | src/sessions/scheduler.cpp:189-214 | Scheduling an entry that is neither scheduled nor running keeps every timer at one wait or none, forgets no trigger, and leaves no triggered entry waiting that was not before. |
| Scheduler.Ends | src/sessions/scheduler.cpp:240-283 | An entry whose run is over may be idle only if it is manual and nothing asks for it. |
| Scheduler.Tells | src/sessions/scheduler.cpp:146-168 | Telling the next entry tells it once and no other twice. |
| Scheduler.SuspendedButScheduled | src/sessions/scheduler.cpp:105-108 | The failing case of "suspends all manual jobs": any manual job scheduled before the suspension still starts under it. |
| LoadTorrents.LoadAll | src/sessions/jobs/loadtorrents.cpp:29-180 | With arbitrary failures, and a stop at any moment between runs, the callback is called exactly once if there is one, no row is passed twice, and every row passed that can be read was offered to the session in order; unless stopped, the load ends with the scheduler resumed once and every row passed, or given up exactly when nine chunks in a row have failed, and never later. |
| LoadTorrents.GivenUpNext | src/sessions/jobs/loadtorrents.cpp:48-104 | One more outcome gives the load up exactly if it is the ninth failure in a row. |
| LoadTorrents.Job.Run | src/sessions/jobs/loadtorrents.cpp:29-128 | One run keeps what was passed and what is to come adding up to the load order and what was offered equal to the readable rows passed; a chunk that failed counts one more failure and is tried again after the retry's delay unless there were too many, a chunk that worked sets the count back and asks again at once; it asks again only after passing a row, changing phase or using up a retry. |
| LoadTorrents.Job.Finish | src/sessions/jobs/loadtorrents.cpp:156-180 | Whatever had become of the promise before, it has been kept exactly once when the load is over, and the scheduler resumed once. |
| LoadTorrents.Job.Complete | src/sessions/jobs/loadtorrents.cpp:135-154 | Completing leaves a promised callback called exactly once, however often it is asked for. |
| LoadTorrents.Job.Stopped | src/sessions/jobs/loadtorrents.cpp:130-133 | A stop, before or after the end, leaves a promised callback called exactly once and the load's account intact. |
| LoadTorrents.Next | src/data/models/addtorrentparams.cpp:267-335 | A chunk passes up to its size of the rows to come, in order, and offers each readable one to the session; a row that throws is passed; it reports the end only when nothing is to come. |
| LoadTorrents.StartsWithEverything | src/data/models/addtorrentparams.cpp:267-335 | From the initial cursor the whole load order is to come. |
| LoadTorrents.StepsOver | src/data/models/addtorrentparams.cpp:284-325 | Moving the cursor onto the next row leaves exactly the rest to come. |
| LoadTorrents.PhaseEnds | src/data/models/addtorrentparams.cpp:267-335 | Past the last queued row the unqueued rows are to come, and past the last of those nothing. |
| LoadTorrents.SortedIsOrdered | src/data/models/addtorrentparams.cpp:284-305 | The keyset order lists every row once, ascending by position and id. |
| LoadTorrents.LoadOrderListsAll | src/data/models/addtorrentparams.cpp:267-335 | Queued rows followed by unqueued ones list every row of the table exactly once. |
| LoadTorrents.RetryDelayGrows | src/sessions/jobs/loadtorrents.cpp:48-104 | The retry delay doubles from the base and stays at the maximum. |
| RowMatch.SelectsContainedHalves | src/data/models/addtorrentparams.cpp:33-40 | Under SQL's three-valued logic a row is selected exactly when every half it stores is a half of the hash and it stores one. |
| RowMatch.SelectsOneOrBothMagnets | src/data/models/addtorrentparams.cpp:33-40 | A hash selects one row at most, unless both its halves are stored as separate magnets. |
| RowMatch.ThreeValued | src/data/models/addtorrentparams.cpp:33-40 | SQL's logic: what NULL makes of a comparison, a conjunction and a disjunction. |
| RowMatch.ReplacingStores | src/data/models/addtorrentparams.cpp:181-264 | Deleting what a hash selects and inserting it keeps the unique columns, and loses the new row exactly when some row sharing a half stores another half too. |
| LogBuffer.Run | src/logger.cpp:236-327 | For any interleaving of writes and reads the history is what was pushed, in order; the reader's entries strictly ascend, are all selected entries of the history, and every selected entry below its cursor was received or has been evicted; a read without a limit brings the cursor to the end. |
| LogBuffer.AccountMeaning | src/logger.cpp:265-327 | What a reader has received, in terms of the entries: ascending, selected, and complete below the cursor but for what was missed. |
| LogBuffer.Reader.Poll | src/logger.cpp:265-327 | A poll only appends, misses only what was evicted by now, and advances whenever something was written since. |
| LogBuffer.PageAccounted | src/logger.cpp:265-327 | A page read at the cursor extends the account, whatever was evicted before the read. |
| LogBuffer.OldestMeaning | src/logger.cpp:265-327 | The entries on a page are exactly the wanted ones below the next cursor, which moves on. |
| LogBuffer.Buffer.Push | src/logger.cpp:236-263 | The pushed entry is numbered next without gaps and kept field by field, its texts whole up to 8192 characters and otherwise by their first 8192; what is kept is the longest recent run that fits the capacity, or the last entry alone, and the byte count is the sum of the entries' sizes. |
| LogBuffer.Buffer.List | src/logger.cpp:265-327 | Without a cursor the newest matching entries, else the oldest after it, in order, with the cursor for the next page; all skip arithmetic is in bounds. |
| LogBuffer.FilterMeaning | src/logger.cpp:265-327 | The places of a page are exactly those of matching entries, ascending. |
| LogBuffer.SelectionMeans | src/logger.cpp:265-290 | A selection is by level, by component when one is named, and by the first property with the plugin's number when one is named. |
| LogBuffer.SizeCounts | src/logger.cpp:178-193 | An entry counts its fixed part, its message, and for every property its fixed part, its name and its text. |
| LogBuffer.TotalSizeAppend | src/logger.cpp:178-193 | The byte count of the buffer grows by the size of an appended entry. |
| LuaJson.RoundTrip | src/lua/types/pojson.cpp:132-260 | A JSON value comes back from Lua as it was if and only if it is nested at most 256 deep, holds no binary value, and its integers and floats are ones Lua can hold. |
| LuaJson.ToLua | src/lua/types/pojson.cpp:132-209 | The conversion succeeds exactly for values within depth and without binary parts, and says which failed; nulls inside containers survive, empty arrays stay apart from empty objects, and an integer beyond the signed range becomes a float. |
| LuaJson.ToJson | src/lua/types/pojson.cpp:211-260 | The conversion back succeeds exactly for what can be encoded, and gives the value it stands for; nil is null; an error names a fault the value has. |
| LuaJson.ConvertTable | src/lua/types/pojson.cpp:67-129 | A table converts exactly when it is a dense array or has only string keys, within depth, and all its values convert; otherwise the error names a fault in it. |
| LuaJson.ScanKeys | src/lua/types/pojson.cpp:67-92 | The scan finds whether all keys are integers from one up, their number, and that the largest equals the number exactly for dense keys. |
| LuaJson.DenseIffMaxIsCount | src/lua/types/pojson.cpp:100-105 | Keys from one up with a maximum equal to their number are exactly 1..n. |
| LuaJson.ArrayJson | src/lua/types/pojson.cpp:100-115 | A dense table stands for the array of its values under 1..n. |
| LuaJson.ObjectJson | src/lua/types/pojson.cpp:117-129 | Any other table stands for the object of its values under their names. |
| LuaJson.FittingComesBack | src/lua/types/pojson.cpp:132-260 | Every value within depth whose numbers fit comes back, at any depth. |
| LuaJson.OnlyFittingComesBack | src/lua/types/pojson.cpp:132-260 | Nothing else comes back. |
| LuaJson.ParserLimitIsConverterLimit | src/json/utils.hpp:68-83 | What the parser accepts is exactly what neither conversion finds too deep. |
| Mmdb.RoundTrip | src/mmdb.cpp:29-126 | Flattening a value tree in pre-order and converting that list followed by anything gives the tree and the position of what follows. |
| Mmdb.Rebuilds | src/mmdb.cpp:29-126 | The same wherever in a list the flattened tree stands. |
| Mmdb.RebuildsItems | src/mmdb.cpp:92-106 | An array of known length is rebuilt item by item and ends where its last item ends. |
| Mmdb.RebuildsMembers | src/mmdb.cpp:60-86 | A map of known length is rebuilt member by member and ends where its last value ends. |
| Mmdb.DistinctKeysKeepAll | src/mmdb.cpp:60-86 | With distinct keys every member becomes a field, and nothing else does. |
| Mmdb.MmdbEntryToJson | src/mmdb.cpp:29-126 | The conversion that advances through the list agrees with the specified one on every list, well formed or not; a string, number or boolean is itself, and any other type null. |
| Glob.GlobMatch | src/query/pql.cpp:200-230 | The greedy two-pointer matcher returns true exactly when the recursive definition of matching does, and terminates. |
| Glob.MatchesIffFilled | src/query/pql.cpp:200-230 | The recursive definition is the intended one: some choice of fillings for the stars spells the folded text. |
| Glob.NextStarTakesOver | src/query/pql.cpp:206-210 | Forgetting all but the last star loses no match. |
| Glob.MismatchMovesMark | src/query/pql.cpp:216-220 | After a mismatch only the current mark is ruled out. |
| Glob.LiteralPrefix | src/query/pql.cpp:211-215 | A star-free prefix consumes exactly as many agreeing characters. |
| Glob.StarAbsorbs | src/query/pql.cpp:206-210 | A star may stand for any number of characters. |
| Glob.StarSkips | src/query/pql.cpp:216-220 | What follows a star matches from some later position. |
| Glob.StarAtEnd | src/query/pql.cpp:224-230 | At the end of the text no later mark does better. |
| Glob.StarsMatchNothing | src/query/pql.cpp:224-230 | What is left of the pattern at the end of the text matches exactly when it is all stars. |
| Glob.FoldingForgetsCase | src/query/pql.cpp:192-197 | Folding makes two texts equal exactly when they differ in the case of letters only. |
| EditDistance.Levenshtein | src/utils/string.cpp:7-31 | The one-row table overwritten in place computes the recursive edit distance. |
| EditDistance.DistanceIsLeastCost | src/utils/string.cpp:7-31 | The distance is the least number of edits in any script that rewrites one text into the other. |
| EditDistance.ScriptCostsAtLeast | src/utils/string.cpp:7-31 | No script of edits is cheaper. |
| EditDistance.CheapestScript | src/utils/string.cpp:7-31 | Some script of edits costs exactly that. |
| EditDistance.ZeroIffEqual | src/utils/string.cpp:7-31 | The distance is zero exactly for equal texts. |
| EditDistance.Symmetric | src/utils/string.cpp:7-31 | The distance is symmetric. |
| EditDistance.Triangle | src/utils/string.cpp:7-31 | The distance obeys the triangle inequality. |
| EditDistance.Bounds | src/utils/string.cpp:7-31 | The distance lies between the difference of the lengths and the greater length. |
| EditDistance.CellStep | src/utils/string.cpp:16-28 | Each table entry follows from its three neighbours. |
| EditDistance.Suggest | src/query/pql.cpp:291-306 | The first of the nearest names within two edits, or nothing when none is that near. |
| PqlGrammar.ParseIffPrint | src/query/_aux/PqlParser.cpp:152-186 | A token list is accepted with a tree if and only if it is that tree printed: the grammar is unambiguous. |
| PqlGrammar.AndIsOptional | src/query/_aux/PqlParser.cpp:283-327 | However many of its ANDs are written, a tree parses back to itself: juxtaposition means AND. |
| PqlGrammar.OrPrintsBack | src/query/_aux/PqlParser.cpp:216-251 | What the rule accepts prints back to the tokens it consumed. |
| PqlGrammar.AndPrintsBack | src/query/_aux/PqlParser.cpp:283-327 | The same for conjunctions. |
| PqlGrammar.UnaryPrintsBack | src/query/_aux/PqlParser.cpp:366-411 | The same for operands under NOT. |
| PqlGrammar.PrimaryPrintsBack | src/query/_aux/PqlParser.cpp:478-552 | The same for groups, qualifiers and text. |
| PqlGrammar.QualifiersAreRead | src/query/_aux/PqlParser.cpp:478-552 | A qualifier is a field, one of the five operators or none, and a word or a quoted text, and nothing else; free text is a word or a quoted text. |
| PqlGrammar.OrParsesBack | src/query/_aux/PqlParser.cpp:216-251 | A printed tree, wherever nothing continues it, parses back to itself and ends where its tokens end. |
| PqlGrammar.AndParsesBack | src/query/_aux/PqlParser.cpp:283-327 | The same for conjunctions, with each AND written or left out. |
| PqlGrammar.UnaryParsesBack | src/query/_aux/PqlParser.cpp:366-411 | The same for operands under NOT. |
| PqlGrammar.PrimaryParsesBack | src/query/_aux/PqlParser.cpp:478-552 | The same for groups, qualifiers and text. |
| PqlGrammar.UnaryStarts | src/query/_aux/PqlParser.cpp:283-327 | A printed operand starts with a token that no AND or OR can be taken for. |
| PqlParser.CheckDepth | src/query/pql.cpp:90-110 | The check passes exactly when at no point more than 64 parentheses are open or 64 NOTs stand in a row. |
| PqlParser.CheckBoundsTree | src/query/pql.cpp:90-110 | For an accepted query it passes exactly when the tree nests at most 64 groups and puts at most 64 NOTs on one operand. |
| PqlParser.NestedSteps | src/query/pql.cpp:90-110 | Reading one token keeps the bounds on open groups, NOTs above the operand and NOTs above the enclosing groups. |
| PqlParser.Parser.Query | src/query/_aux/PqlParser.cpp:152-186 | The parser over a shared cursor accepts exactly what the grammar does, with its tree. |
| PqlParser.Parser.OrRule | src/query/_aux/PqlParser.cpp:216-251 | The rule agrees with the grammar, and is only ever entered, accepting or failing, with at most 64 groups open. |
| PqlParser.Parser.AndRule | src/query/_aux/PqlParser.cpp:283-327 | The same, for the loop that takes an AND or an operand. |
| PqlParser.Parser.UnaryRule | src/query/_aux/PqlParser.cpp:366-411 | The same, and at most 64 NOTs sit directly above and 64 for each open group. |
| PqlParser.Parser.PrimaryRule | src/query/_aux/PqlParser.cpp:478-552 | The same for groups, qualifiers and text. |
| PqlParser.OrMeasures | src/query/pql.cpp:90-110 | Over the tokens of a tree the check passes exactly when the tree is shallow enough for the room left. |
| PqlParser.UnaryMeasures | src/query/pql.cpp:90-110 | Under a run of NOTs the room for NOTs shrinks by as many. |
| PqlValues.Unescape | src/query/pql.cpp:146-158 | The loop over a quoted literal agrees with the specified unescaping, whose inverse UnescapesWhatIsEscaped states. |
| PqlValues.UnescapesWhatIsEscaped | src/query/pql.cpp:146-158 | Quoting any text and unescaping it gives the text back. |
| PqlValues.Split | src/utils/string.cpp:33-52 | The parts put together with separators are the text, and none holds one. |
| PqlValues.SplitIsUnique | src/utils/string.cpp:33-52 | There is only one such list of parts. |
| PqlValues.PartsSplit | src/utils/string.cpp:33-52 | The parts as a function of the text are such a list. |
| PqlValues.ListOf | src/query/pql.cpp:246-250 | A quoted value is one item, any other is split at commas. |
| PqlValues.NumberPrefixIsLongest | src/query/pql.cpp:758-778 | The number prefix is the longest numeral the text starts with. |
| PqlValues.NumberPrefix | src/query/pql.cpp:758-778 | The loop finds that prefix. |
| PqlValues.NumeralIsDecimal | src/query/pql.cpp:817-842 | A numeral stands for its decimal number: with the point moved to the end it is what its digits stand for. |
| PqlValues.QuantityIs | src/query/pql.cpp:817-842 | A quantity is its longest numeral counted in its unit, and fails on a unit outside the tables, a number that cannot be held, and a percentage beyond 100. |
| PqlValues.NoQuantity | src/query/pql.cpp:817-822 | What is a quantity starts with a numeral. |
| PqlValues.SizeUnits | src/query/pql.cpp:662-679 | kb to pb are the powers of 1000 and kib to pib those of 1024, and there are no other units of size. |
| PqlValues.DurationUnits | src/query/pql.cpp:681-691 | Each unit of time in terms of the smaller ones, and no others. |
| PqlValues.OtherUnits | src/query/pql.cpp:700-707 | A rate is a size with or without "/s", a percentage counts ten thousands, other numbers have no unit. |
| PqlValues.AgoIs | src/query/pql.cpp:788-802 | A date after a minus sign is one instant, so many units before now. |
| PqlValues.DatesAre | src/query/pql.cpp:804-815 | Any other date is the time it covers. |
| PqlLeaves.MatcherMeansItem | src/query/pql.cpp:252-287 | A compiled item matches a text exactly when the item means it: stars spelled out, the whole folded text, or a part of a text that is not empty. |
| PqlLeaves.FoundIsHeld | src/query/pql.cpp:252-271 | The case-folding search finds the needle exactly when the folded text holds it and is not empty. |
| PqlLeaves.Search | src/query/pql.cpp:252-271 | The search over start positions. |
| PqlLeaves.MatchersOf | src/query/pql.cpp:273-289 | One matcher for each item of the value, as a pattern only when unquoted with stars. |
| PqlLeaves.CheckPrefix | src/query/pql.cpp:411-430 | The comparison nibble by nibble. |
| PqlLeaves.PrefixOfHex | src/query/pql.cpp:411-434 | It holds exactly when the prefix starts the hash's hex string. |
| PqlLeaves.HexDigits | src/query/pql.cpp:182-185 | The digits count up from 0 to f, and hex texts are those of such digits in either case. |
| PqlLeaves.CompileFlags | src/query/pql.cpp:552-595 | A flag list compiles exactly when every flag is known and none is given twice, to a mask and the bits wanted under it. |
| PqlLeaves.TildeIsComplement | src/query/pql.cpp:552-595 | A flag after a tilde asks for what the flag does not, whatever the case of its name. |
| PqlLeaves.MaskDecidesAll | src/query/pql.cpp:597-598 | One comparison under the mask means each named flag is set and each `~` flag clear. |
| PqlLeaves.MaskMeets | src/query/pql.cpp:581-586 | The mask meets some bits exactly when some earlier flag does. |
| PqlLeaves.IntervalMeansNumber | src/query/pql.cpp:845-916 | A number or date qualifier compiles exactly when it is no list or pattern and is one scalar, not `=` a relative time, or a range of two without operator that is not reversed; its interval then holds a value exactly when the comparison, or both bounds of a range, hold of it, relative times taken at matching time. |
| PqlLeaves.AgoMeans | src/query/pql.cpp:845-916 | "-7d" and its like compile unless asked to be equal, and select by the operator against the instant so long before the query, from then on when there is none. |
| PqlLeaves.RangeIsBothBounds | src/query/pql.cpp:861-884 | `f:a..b` selects what `f:>=a` and `f:<=b` both select. |
| PqlLeaves.NoDotsBefore | src/query/pql.cpp:861-870 | The lower bound of a range holds no second range. |
| PqlFilter.BuildOr | src/query/pql.cpp:992-998 | The filter of a tree accepts a torrent exactly when the direct evaluator does, and building fails exactly when some qualifier does not compile. |
| PqlFilter.BuildAnd | src/query/pql.cpp:985-990 | The same for conjunctions. |
| PqlFilter.BuildUnary | src/query/pql.cpp:975-983 | The same for operands under NOT. |
| PqlFilter.BuildPrimary | src/query/pql.cpp:958-973 | The same for groups, qualifiers and text. |
| PqlFilter.BuildQualifier | src/query/pql.cpp:918-956 | A qualifier compiles and means what its field's kind says, with `has` and unknown fields apart. |
| PqlFilter.BuildNumeric | src/query/pql.cpp:845-916 | The value is a scalar or a range the operator allows, and the filter holds exactly of torrents that have the number and meet the comparison or range. |
| PqlFilter.AgoSelects | src/query/pql.cpp:918-956 | A qualifier of a date field with such a value, from its tokens to the torrents it selects. |
| PqlFilter.OperatorsCompare | src/query/pql.cpp:170-178 | Each operator token compares as it is written. |
| PqlFilter.ValuesOfTokens | src/query/pql.cpp:146-168 | A word is itself and a quoted token the text that was quoted. |
| PqlFilter.BoolWords | src/query/pql.cpp:494-520 | The words for true and false, in any case. |
| PqlFilter.CaseDoesNotMatter | src/query/pql.cpp:252-287 | Texts and items that differ in the case of letters only are matched alike. |
| PqlFilter.PresentKinds | src/query/pql.cpp:310-341 | The kinds of field that can be absent. |
| PqlFilter.BuildFlags | src/query/pql.cpp:522-598 | The filter holds exactly when each named flag is set and each `~` flag clear. |
| PqlFilter.BuildHash | src/query/pql.cpp:436-456 | Every item is four to 64 hex digits, and the filter holds exactly when one starts the v1 or v2 hex string. |
| PqlFilter.BuildText | src/query/pql.cpp:379-392 | The filter holds exactly when the torrent has the text and some item fits it. |
| PqlFilter.BuildTag | src/query/pql.cpp:394-409 | The filter holds exactly when some tag fits some item as a whole. |
| PqlFilter.BuildState | src/query/pql.cpp:458-492 | Every item names a state, and the filter holds exactly in one of them. |
| PqlFilter.BoolWordsDivide | src/query/pql.cpp:494-520 | Any two words that compile for a flag select the same of the torrents that have it exactly when they stand for the same truth value, so one of opposite words selects each of them. |
| PqlFilter.BuildHas | src/query/pql.cpp:343-369 | Every item names a field that can be present, and the filter holds exactly when one is. |
| PqlFilter.MeetingNeedsPresence | src/query/pql.cpp:310-341 | Whatever is asked of a field that can be absent, a torrent meeting it is one `has` finds, but for one whose text is there and empty. |
| PqlFilter.BuildFreeText | src/query/pql.cpp:600-611 | The name holds the text, or it is unquoted, looks like a hash and starts one. |
| PqlFilter.All | src/query/pql.cpp:112-120 | Holds exactly when all filters hold, one alone being returned as it is. |
| PqlFilter.Any | src/query/pql.cpp:122-130 | Holds exactly when some filter holds. |
| PqlFilter.OrIgnoresAnds | src/query/pql.cpp:985-998 | A tree means the same whichever of its ANDs are written. |
| PqlFilter.HashHasPrefixMeans | src/query/pql.cpp:411-434 | Some prefix starts the hex string of the v1 or the v2 hash. |
| Pql.Parse | src/query/pql.cpp:1000-1034 | A token list is accepted exactly when it prints a tree, passes the depth check and its qualifiers compile, and the filter is what the tree means; the empty query selects everything. |
| Pql.AndsDoNotChangeMeaning | src/query/pql.cpp:1000-1034 | Two accepted queries that differ only in written ANDs select the same torrents. |

## Left out

- Scheduler.Run: entries are values in the scheduler's list, named by an id; the sharing of one entry between the list and its timer's handler is not captured.
- Scheduler.RunAll: jobs throw only standard exceptions; the log line about slow jobs and unregistered types is not modelled.
- CurlTransfers.Run: callbacks are finite trees of calls into the client, so a callback that hands over new transfers without end is not covered; handles are identities, not addresses that a later handle may reuse; an empty callback is not stored.
- CurlTransfers.CurlMulti.AddTransfer: a hand-over counts from the moment its strand handler runs; one still queued when the event loop is destroyed, or made while the destructor runs, is not part of this model.
- CurlSockets.CurlMulti.OnRedrive: a re-drive goes by the socket number alone, as in the code, so one posted for a removed socket drives its successor once; that is harmless and not excluded.
- CurlSockets.CurlMulti.OnSocketUpdate: `async_wait` itself throwing is not modelled; a failing `dup` or insertion is.
- LoadTorrents.LoadAll: an exception escaping the row count or the finish drops the job in the program; the two are taken not to throw.
- Sessions.Run: exceptions thrown by handle calls between a state change and its announcement are not modelled; `ReadAlerts` before a repair stands for any steps taken before it; a repair is only made for consistent handles.
- TorrentsIterator.Walk: the query is any predicate on the status at the time of the call; refreshing timestamps is not modelled.
- PqlLeaves.IntervalMeansNumber: numbers are reals, which numbers `stod` can hold and what a date text covers are parameters, so rounding, `mktime` and local time are not captured.
- LogBuffer.Buffer.Push: sequence numbers and sizes are unbounded; the fixed overheads of an entry and a property are parameters.
- Mmdb.MmdbEntryToJson: list sizes are unbounded; floating point values are reals.
- Widths: ids, generations, sizes and counters are unbounded, so wrap-around of 64-bit counters is not captured, except for Lua's signed integers and the stored positions.
- The ANTLR lexer and error recovery: parsing starts from tokens and the first syntax error ends it; error texts and positions are not modelled.
- The query length limit and the table of fields: the limit is one comparison, the fields are parameters.
- The other alert handlers, persisting and saving of resume data, RPC, HTTP serving, configuration, migrations, plugins, files and cryptography: plumbing around the parts modelled.
