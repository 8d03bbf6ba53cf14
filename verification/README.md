# Verified model of the HTTP client runtime

This project models the scheduling and bookkeeping core of the HTTP client runtime in Dafny
and proves its laws for all inputs and all runs.  What is left to the verifier is not the
network but what the runtime keeps in memory: who may use a connection, who is woken, which
slot a stream lives in, which origin is forgotten, what a byte stream means.

`dafny verify dfyconfig.toml` checks everything.

## How it is built

The runtime runs coroutines on strands and under mutexes; code between two suspension points
is one atomic step.  Each component is therefore

* a value type that holds its fields, functions for its atomic sections, and a total
  next-state function over its events (`Runs.dfy` defines runs; an event that cannot happen
  leaves the state as it is);
* laws over every run from the initial state, in a module of their own where they are long;
* where the source updates fields or buffers in place, a class or a method with the source's
  loops, proved to compute those functions.

Where a law does not survive some step, the law is an equivalence: it holds in all runs of a
setting if and only if the setting rules that step out, with a concrete run for each step that
breaks it.

| component | files |
|---|---|
| runs and basics | `Runs.dfy`, `FiniteSets.dfy`, `Sequences.dfy`, `Optional.dfy`, `Ascii.dfy` |
| HTTP/1.1 origin pool | `H1Pool.dfy`, `H1PoolSafety.dfy`, `H1PoolProgress.dfy`, `H1PoolConditions.dfy`, `H1PoolSlack.dfy`, `H1PoolReuse.dfy`, `OriginPool.dfy` |
| HTTP/2 stream table | `StreamTable.dfy`, `StreamTableFields.dfy` |
| HTTP/2 session | `H2Session.dfy`, `H2SessionLaws.dfy`, `H2SessionWaiters.dfy`, `H2SessionExpiry.dfy`, `H2SessionOutcomes.dfy`, `H2SessionFields.dfy` |
| stream deadlines | `DeadlineHeap.dfy`, `StreamDeadlines.dfy` |
| semaphore, lock, queue | `TimerQueue.dfy`, `Semaphore.dfy`, `LockGuards.dfy`, `BoundedQueue.dfy` |
| for_each_limited, gather_limited | `FanOut.dfy`, `FanOutLaws.dfy` |
| origin gate, origin cache, route cache | `OriginGate.dfy`, `OriginCache.dfy`, `OriginCacheFields.dfy`, `RouteCache.dfy` |
| cookie jar | `CookieMatching.dfy`, `CookieJar.dfy`, `CookieJarLaws.dfy`, `CookieHeaders.dfy`, `CookieJarFields.dfy` |
| HTTP/1.1 response reading | `H1Response.dfy`, `H1ResponseLaws.dfy`, `H1Framing.dfy` |
| SOCKS5 | `Socks5.dfy`, `Socks5Laws.dfy`, `Socks5Grammar.dfy` |
| form and query encoding | `UrlEncoding.dfy`, `UrlEncodingLaws.dfy` |

## What the proofs found

* The pool's guarantee that no wake-up is lost survives resets and evictions.  It fails with
  pool timeouts, because a timed-out waiter stays queued and can swallow a wake-up, and with
  probes whose exchange throws, because such a probe never gives its place in `active` back.
* Reservations of idle connections are exact only without timeouts, resets and evictions; an
  eviction too can zero the count while a reservation is outstanding.
* A reset lets more connects run at once than configured, though never more connections.
* In a pool of two or more connections a request can sleep beside an idle connection that
  nobody has reserved, or beside a free place to connect, with nobody woken, until some other
  holder finishes.  Ordinary requests alone lead there: connections that are returned while
  nobody is queued are not reserved, a newcomer queues behind any reservation, and a request
  woken for a place may take an idle connection instead.  A finished preconnect gives its place
  to connect to nobody.  A pool of one connection has neither weakness.
* Requests that wait for an HTTP/2 stream slot are stranded by pool timeouts as well: a
  timed-out waiter stays queued and swallows the only wake-up.  Without timeouts none is
  stranded, but free slots are left unused when the peer raises its limit by two or more at
  once, since one request is woken.  Failures of any size wake every waiting request.
* A reset of an HTTP/2 stream sets the error of its response even when the response is
  complete.  A server that answers early and then resets the stream to stop the upload turns
  its own answer into an error, unless the coroutine has taken it by then.
* A protocol probe looks at reservations but not at the queue, so it can go ahead of requests
  that wait.
* The light HTTP/1.1 exchange parses status and headers after the body loop, from a view taken
  before it.  Storing a body beyond the capacity of the buffer moves the buffer and leaves the
  view dangling; whether that happens depends on how the bytes are split.  It cannot happen
  exactly when no body is stored, or none comes, or section and body fit the capacity.
* The limit on response headers is checked after each read, so header sections between 65538
  and 98304 bytes pass or fail depending on how the bytes are split.
* A busy origin at the end of the list shields expired origins before it from eviction;
  nothing expired survives a pass exactly when nothing expired is busy.
* The route cache returns the first matching slot, which need not be the one stored last.
* `domain_match` has no exception for addresses, which section 5.1.3 of RFC 6265 makes: host
  1.2.3.4 matches domain 3.4.  It is the standard's relation exactly for hosts that are no
  address or have no dot.
* The SOCKS5 client truncates the port to 32 bits before it checks the range, so 2^32 + 80
  is let through as port 80.
* Appending parameters to an address whose query is empty or ends with an ampersand puts an
  empty field before them.
* `percent_decode` undoes `append_urlencoded` exactly on strings without a space.

## Model

| member | source | states |
|---|---|---|
| `H1PoolSafety.ConnectionBound` | src/asio_http_client.cpp:825-844 | in every run, with timeouts, resets, evictions, preconnects and throwing probes: idle + in use + connecting <= active <= max(1, max_connections_per_origin) |
| `H1PoolSafety.ConnectionsAreExclusive` | src/asio_http_client.cpp:1319-1339 | in every run no two coroutines hold the same connection, no held connection is idle, and no connection is idle twice |
| `H1PoolSafety.WakeupsAreFifo` | src/asio_http_client.cpp:794-817 | in every run the queue is in order of arrival and every woken waiter arrived before every queued one |
| `H1PoolSafety.NewcomersDoNotBarge` | src/asio_http_client.cpp:1319-1343 | in any state a request that arrives while others queue or hold a reservation goes to the end of the queue and leaves idle connections, counters and reservations as they are |
| `H1PoolSafety.ProbeWaitsExactly` | src/asio_http_client.cpp:1647-1685 | in any state an arriving probe waits if and only if a connection is reserved or none is idle and none may be opened; otherwise it goes ahead of all who queue |
| `H1PoolConditions.ProbeBarges` | src/asio_http_client.cpp:1647-1685 | a run after which a probe opens a connection while requests queue |
| `H1PoolSafety.ActiveGuardsNeverSaturate` | src/asio_http_client.cpp:1366-1375 | wherever active is decremented behind an `if (active > 0)` guard or a comparison with the idle count, the guard never cuts anything off |
| `H1PoolSafety.NextSafe` | src/asio_http_client.cpp:1304-1408 | every event keeps the connection bound, exclusiveness and queue order together |
| `H1PoolProgress.NoLostWakeup` | src/asio_http_client.cpp:1304-1408 | in every run without pool timeouts and throwing probes, a live queued waiter implies a coroutine that connects, holds a connection, or is woken and has not resumed; resets and evictions included |
| `H1PoolProgress.HonouredAlways` | src/asio_http_client.cpp:806-817 | in every run without timeouts, resets and evictions, reserved_idle equals the waiters woken with a reservation and not yet resumed, and never exceeds the idle count |
| `H1PoolProgress.ReservedWaiterGetsIdle` | src/asio_http_client.cpp:1319-1339 | in those runs such a waiter leaves with the last idle connection on its next step and never connects |
| `H1PoolProgress.ConnectingAlways` | src/asio_http_client.cpp:1340-1376 | in every run without resets, the connecting counter is the number of connects in progress and respects max_connecting_per_origin |
| `H1PoolConditions.NoLostWakeupExactly` | src/asio_http_client.cpp:1400-1404 | no lost wake-up holds in all runs of a setting if and only if the setting allows neither pool timeouts nor throwing probes |
| `H1PoolConditions.ReservationsExactExactly` | src/asio_http_client.cpp:1111-1114 | reservations are exact in all runs of a setting if and only if it allows no timeout, no reset and no eviction |
| `H1PoolConditions.ConnectingExactExactly` | src/asio_http_client.cpp:1088-1128 | the connecting limit holds in all runs of a setting if and only if it allows no reset |
| `H1PoolConditions.TimeoutStrands` | src/asio_http_client.cpp:1400-1404 | a run in which the timed-out waiter left in the queue swallows the wake-up of a live one |
| `H1PoolConditions.ThrowingProbeStrands` | src/asio_http_client.cpp:2059-2072 | a run in which a probe whose exchange throws keeps its place in active and strands a waiter |
| `H1PoolConditions.ZeroedReservation` | src/asio_http_client.cpp:1111-1114 | runs in which a reset, or an eviction, zeroes the count while a reservation is outstanding |
| `H1PoolConditions.ResetOverrunsConnecting` | src/asio_http_client.cpp:1088-1128 | a run in which more connects are in progress after a reset than configured |
| `H1PoolReuse.ArrivalDecides` | src/asio_http_client.cpp:1316-1384 | in any state an arriving request takes the idle connection used last if nobody is queued and nothing reserved; without an idle one it connects if both limits, each at least 1, allow; in all other cases it queues; the whole new state in each case |
| `H1PoolReuse.ResumedRequestDecides` | src/asio_http_client.cpp:1316-1406 | the same for a woken request: an idle connection if it has a reservation or none is reserved, else a connect if the limits allow, else the queue again; its reservation is given up in any case |
| `H1PoolReuse.ProbeArrivalDecides` | src/asio_http_client.cpp:1647-1732 | the same for an arriving probe, whose queueing depends on reservations only |
| `H1PoolReuse.ResumedProbeDecides` | src/asio_http_client.cpp:1647-1732 | the same for a woken probe |
| `H1PoolReuse.OpensOnlyWithoutIdle` | src/asio_http_client.cpp:1319-1346 | no request or probe opens a connection beside an idle one that is not reserved for another |
| `H1PoolReuse.SequentialRequestsReuse` | src/asio_http_client.cpp:1319-1333 | keep-alive: from a pool at rest with an idle connection, any number of requests one after another leave the pool as it was and open no further connection |
| `H1PoolReuse.FreedPlaceWakes` | src/asio_http_client.cpp:794-817 | every finished or failed connect, returned or broken connection and reset wakes the first waiter that is not cancelled, drops those before it, keeps those behind it, and reserves exactly with an idle connection |
| `H1PoolReuse.NobodyToWake` | src/asio_http_client.cpp:794-817 | without such a waiter the queue is emptied and nothing is reserved |
| `H1PoolReuse.CancelledNeverWoken` | src/asio_http_client.cpp:794-817 | in every run a waiter marked cancelled before it was woken is never woken |
| `H1PoolReuse.ConnectedMeans` | src/asio_http_client.cpp:1357-1364 | what a finished connect does to idle and used connections and to both counters, preconnects included |
| `H1PoolReuse.ConnectFailedMeans` | src/asio_http_client.cpp:1365-1375 | what a failed connect gives back |
| `H1PoolReuse.ReturnedMeans` | src/asio_http_client.cpp:1965-2002 | what the end of an exchange does, on a sound and on a broken connection |
| `H1PoolReuse.MaintenanceMeans` | src/asio_http_client.cpp:1088-1128 | what a preconnect, a reset and an eviction do |
| `H1PoolReuse.GivenUpMeans` | src/asio_http_client.cpp:1394-1404 | an aborted wait leaves the queue and is marked, a timed-out one is neither |
| `H1PoolSlack.IdleReservedExactly` | src/asio_http_client.cpp:1319-1339 | while somebody is queued every idle connection is reserved, in all runs of a pool if and only if max(1, max_connections_per_origin) is 1 |
| `H1PoolSlack.OneConnectionIdleReserved` | src/asio_http_client.cpp:1997-2002 | the half of it for one connection: every event keeps it, with timeouts, throws, resets and evictions |
| `H1PoolSlack.SleepsBesideIdle` | src/asio_http_client.cpp:1319-1343 | for every larger pool a run of arriving, connecting and finishing requests after which one sleeps beside an idle connection, with nothing reserved and nobody woken |
| `H1PoolSlack.PlaceServedExactly` | src/asio_http_client.cpp:1340-1343 | while somebody is queued a free place to connect has a woken waiter, in all runs without timeouts and throwing probes if and only if max(1, max_connections_per_origin) is 1 |
| `H1PoolSlack.SleepsBesidePlace` | src/asio_http_client.cpp:1319-1376 | for every larger pool a run of requests, one of which fails, after which one sleeps beside a free place to connect and nobody is woken |
| `H1PoolSlack.PreconnectLeavesPlace` | src/asio_http_client.cpp:2261-2292 | with one place to connect and two or more connections, a run in which a preconnect finishes and the request that waits for its place sleeps on |
| `OriginPools.OriginPool.WakeOne` | src/asio_http_client.cpp:794-804 | the popping loop wakes the first live waiter and drops the cancelled ones before it |
| `OriginPools.OriginPool.WakeOneWithIdleReservation` | src/asio_http_client.cpp:806-817 | the same, and marks the waiter as owner of one idle connection |
| `OriginPools.OriginPool.Abandon` | src/asio_http_client.cpp:762-764 | an aborted wait is marked and leaves the queue wherever it stands |
| `OriginPools.OriginPool.AcquireOnce` | src/asio_http_client.cpp:1316-1384 | one pass of the acquire loop of a request: an idle connection, permission to connect, or a wait |
| `OriginPools.OriginPool.AcquireProbeOnce` | src/asio_http_client.cpp:1647-1732 | one pass of the acquire loop of a probe, which looks at the limits first |
| `OriginPools.OriginPool.ConnectSucceeded` | src/asio_http_client.cpp:1616-1623 | a finished connect frees its place in connecting and wakes a waiter |
| `OriginPools.OriginPool.ConnectFailed` | src/asio_http_client.cpp:1366-1375 | a failed connect frees its places in connecting and active and wakes a waiter |
| `OriginPools.OriginPool.PutIdle` | src/asio_http_client.cpp:1997-2002 | a returned connection becomes idle and is reserved for the waiter it wakes |
| `OriginPools.OriginPool.PreconnectSucceeded` | src/asio_http_client.cpp:2261-2292 | a finished preconnect becomes idle in the same way |
| `OriginPools.OriginPool.DropBroken` | src/asio_http_client.cpp:1969-1972 | a broken connection leaves active and wakes a waiter |
| `OriginPools.OriginPool.ResetAll` | src/asio_http_client.cpp:1088-1128 | reset closes the idle connections, zeroes connecting and reserved, and wakes a waiter |
| `OriginPools.OriginPool.CloseIfIdle` | src/asio_http_client.cpp:819-844 | only a pool without held connections and queued waiters is closed |
| `StreamTables.FindRefines` | src/h2_client.cpp:1550-1567 | on a valid table the search returns the slot of the id, or nothing, and repairs nothing |
| `StreamTables.EraseIndexExact` | src/h2_client.cpp:1610-1619 | swap-erase removes exactly the entry of the id from the index, whatever its position |
| `StreamTables.AcquireRefines` | src/h2_client.cpp:1581-1597 | acquiring adds the id with a blank state to the map the table stands for, moves no other stream and keeps the table valid |
| `StreamTables.ReleaseRefines` | src/h2_client.cpp:1599-1608 | releasing removes the id from that map, moves no other stream and keeps the table valid |
| `StreamTables.RenameRefines` | src/h2_client.cpp:867-878 | the path for an unexpected id moves the state to the new id and leaves it in its slot |
| `StreamTables.StoreRefines` | src/h2_client.cpp:840-857 | writing a state changes that id only |
| `StreamTables.SlotsAddUp` | src/h2_client.cpp:1581-1608 | the slots are exactly the streams in the index plus the free list, without repeats |
| `StreamTables.RecycledBeforeGrowth` | src/h2_client.cpp:1581-1597 | the vector grows only when no slot is free |
| `StreamTables.ReleasedIsReused` | src/h2_client.cpp:1581-1608 | the slot of a released stream is wiped, and the next stream takes it |
| `StreamTables.RenameMissing` | src/h2_client.cpp:867-878 | without a stream under the expected id the renaming path starts a new one, empty, under the id given |
| `StreamTables.StaleEntryGoes` | src/h2_client.cpp:1550-1567 | on any table a look-up drops the stale entry it finds, keeps all others in order and changes nothing else |
| `StreamTableFields.StreamTable.FindEntry` | src/h2_client.cpp:1550-1567 | the scanning loop computes the search, erasing a stale index entry as the source does |
| `StreamTableFields.StreamTable.EraseStreamIndex` | src/h2_client.cpp:1610-1619 | the loop computes swap-erase |
| `StreamTableFields.StreamTable.AcquireEntry` | src/h2_client.cpp:1581-1597 | the loop over the free list computes acquisition |
| `StreamTableFields.StreamTable.ReleaseEntry` | src/h2_client.cpp:1599-1608 | computes release |
| `StreamTableFields.StreamTable.RenameEntry` | src/h2_client.cpp:867-878 | computes the renaming path |
| `H2Session.StreamLimit` | src/h2_client.cpp:954-958 | the limit is the lesser of what is configured and what the peer allows, each taken as at least 1 |
| `H2SessionLaws.SlotsConserved` | src/h2_client.cpp:979-1021 | in every run of one connection, timeouts of waiting requests included, active_streams_ equals the held StreamSlots plus the live callback streams, is the number of streams in the table, and never exceeds max(1, configured) |
| `H2SessionLaws.HandlersRunOnce` | src/h2_client.cpp:907-934 | in every run the handler of a callback stream runs at most once, only if it was submitted, and exactly once when the session has shut down |
| `H2SessionWaiters.NoStreamWaiterStranded` | src/h2_client.cpp:979-1042 | in every run without pool timeouts, whatever limits the peer announces, a sleeping request has an active stream or a woken request before it |
| `H2SessionWaiters.NoStreamWaiterStrandedExactly` | src/h2_client.cpp:1000-1042 | that law holds in all runs if and only if no waiting request can time out |
| `H2SessionWaiters.TimeoutStrands` | src/h2_client.cpp:1007-1011 | a run in which the waiter of a timed-out request swallows the wake-up and a request sleeps beside a free slot |
| `H2SessionWaiters.ServedAlways` | src/h2_client.cpp:1015-1042 | in every run without pool timeouts and without a limit raised by two or more at once, failures of any size included, a sleeping request implies as many woken requests as there are free slots |
| `H2SessionWaiters.WaitersServedExactly` | src/h2_client.cpp:1033-1042 | that holds in all runs of a setting if and only if it allows no pool timeout and no limit raised by two or more at once |
| `H2SessionWaiters.LeapLeavesAsleep` | src/h2_client.cpp:1321-1336 | a run in which a limit raised by two wakes one of two waiting requests |
| `H2SessionLaws.BodySourcesNeverMove` | src/h2_client.cpp:505-511 | in every run a live stream stays in its slot and the vector stays within its reservation, so the address handed to the data provider stays valid |
| `H2SessionLaws.RoomAlways` | src/h2_client.cpp:1581-1608 | in every run the stream vector has at most max(1, configured) entries |
| `H2SessionLaws.StepConserves` | src/h2_client.cpp:642-670 | every event but a failure of the connection and shutdown keeps the slot accounting, the handler accounting and the table |
| `H2SessionLaws.SubmittedRefines` | src/h2_client.cpp:840-878 | a submission adds one stream under the id that nghttp2 chose, or nothing when it is refused |
| `H2SessionLaws.FailAllTable` | src/h2_client.cpp:1512-1548 | failing all streams finishes every unfinished stream and removes exactly the unfinished callback streams |
| `H2SessionLaws.ShutdownHandlesAll` | src/h2_client.cpp:1376-1398 | after shutdown every submitted callback stream has been handled exactly once |
| `H2SessionFields.Session.WakeStreamWaiters` | src/h2_client.cpp:1033-1042 | wakes one waiter if a slot is free |
| `H2SessionFields.Session.ReleaseStreamSlot` | src/h2_client.cpp:1015-1021 | frees a slot and wakes a waiter |
| `H2SessionFields.Session.TryAcquireSlot` | src/h2_client.cpp:979-1000 | one pass of the slot loop: an error while the client stops, a slot, or a place at the end of the queue |
| `H2SessionFields.Session.EndStream` | src/h2_client.cpp:907-934 | a callback stream leaves the table and runs its handler; any other is marked done, with the failure that ended it |
| `H2SessionFields.Session.MarkStreamsDone` | src/h2_client.cpp:1512-1533 | the first loop of fail_all_streams |
| `H2SessionFields.Session.ReleaseFailed` | src/h2_client.cpp:1536-1541 | its second loop |
| `H2SessionFields.Session.FailAllStreams` | src/h2_client.cpp:1512-1548 | both loops, the wake-up and the handlers |
| `DeadlineHeaps.PushHeap` | src/h2_client.cpp:1023-1031 | pushing keeps the heap order and adds exactly the new entry |
| `DeadlineHeaps.PopHeap` | src/h2_client.cpp:1125-1128 | popping keeps the heap order and removes exactly the front |
| `DeadlineHeaps.FrontBelowAll` | src/h2_client.cpp:1067-1069 | the front of an ordered heap is not after any entry |
| `StreamDeadlines.StaleIsUseless` | src/h2_client.cpp:1114-1130 | dropping a stale entry loses no deadline of a live stream |
| `StreamDeadlines.FrontIsEarliest` | src/h2_client.cpp:1067-1083 | a current front entry names the earliest deadline of its stream |
| `StreamDeadlines.PassComplete` | src/h2_client.cpp:1062-1112 | when the front is in the future no stream is due that the pass has not finished |
| `StreamDeadlines.DeadlineQueue.AddDeadline` | src/h2_client.cpp:1023-1031 | adds an entry, except for a deadline that never comes |
| `StreamDeadlines.DeadlineQueue.Prune` | src/h2_client.cpp:1114-1130 | drops only stale entries and leaves a current one in front |
| `StreamDeadlines.DeadlineQueue.Submit` | src/h2_client.cpp:884-904 | a submitted stream gets its total and write deadlines, and both are tracked |
| `StreamDeadlines.DeadlineQueue.OnHeader` | src/h2_client.cpp:1244-1265 | a header ends the write deadline and restarts the read deadline; every deadline stays tracked |
| `StreamDeadlines.DeadlineQueue.OnData` | src/h2_client.cpp:1279-1299 | data restarts the read deadline; every deadline stays tracked |
| `StreamDeadlines.DeadlineQueue.ExpireStreams` | src/h2_client.cpp:1062-1112 | after any history a pass at time t terminates and finishes exactly the unfinished streams with a total, write or read deadline <= t, each with the message of its earliest deadline, and runs the handler of each due callback stream once: the effect of a plain scan |
| `H2SessionExpiry.TableFollowsMap` | src/h2_client.cpp:884-934 | each event of an open session takes the streams of its table through the map that the deadlines are kept for: submitted, restarted, finished and removed streams |
| `H2SessionExpiry.PassOnTheTable` | src/h2_client.cpp:1062-1112 | a pass of expire_streams at any time of any run, with the effect that ExpireStreams proves for it on that map, is one expiry for each due stream of the session: the table ends as the map of the pass, each of its handlers ran once more, and active_streams_ fell by their number and is the number of streams left |
| `StreamDeadlines.EndedExactly` | src/h2_client.cpp:1075-1106 | a pass ends an unfinished stream if and only if its total, write or read deadline is past, with the message of the one that comes first, and changes nothing else |
| `StreamDeadlines.ReadTimeoutExactly` | src/h2_client.cpp:1284-1288 | a stream that last heard from the peer at t0 and has no other deadline past is ended if and only if its read timeout has gone by since t0, and then as a read timeout |
| `H2SessionOutcomes.CompletedIsFinished` | src/h2_client.cpp:907-934 | completion marks the stream of a request done and changes nothing else of it; no deadline can end it afterwards |
| `H2SessionOutcomes.ExpiredIsFinished` | src/h2_client.cpp:1082-1103 | a deadline marks it done with its message; no deadline can end it again |
| `H2SessionOutcomes.ResetMarks` | src/h2_client.cpp:1340-1345 | a reset by the peer marks the stream of a request done with its error, whether or not it was finished before |
| `H2SessionOutcomes.OutcomeIsFinal` | src/h2_client.cpp:738-748 | in every run a finished stream keeps its outcome through all later events but a reset of it, shutdown included, until its coroutine takes it |
| `H2SessionOutcomes.OutcomeIsFinalExactly` | src/h2_client.cpp:1340-1345 | that holds in all runs if and only if the peer cannot reset a finished stream |
| `H2SessionOutcomes.LateReset` | src/h2_client.cpp:1337-1345 | the run that breaks it when it can: a complete response becomes an error |
| `H2SessionOutcomes.FreedSlotWakes` | src/h2_client.cpp:1015-1042 | in any state a slot that is given back goes to the first who queued, if it still has a coroutine |
| `H2SessionOutcomes.EnteredMeans` | src/h2_client.cpp:979-1000 | in any state what a request with and without a free slot does, accepted and refused, in both modes |
| `H2SessionOutcomes.WaitsEnd` | src/h2_client.cpp:1000-1042 | a wait that is given up leaves the queue, one that times out leaves its place behind without a coroutine, and a new limit, taken as at least one, may wake the first in the queue |
| `H2SessionOutcomes.FailAllFrees` | src/h2_client.cpp:1512-1548 | failing every stream gives back exactly the slots of the unfinished callback streams, and wakes the first who waits if one is then free |
| `H2SessionOutcomes.ClosingWakesAll` | src/h2_client.cpp:1376-1398 | shutdown and a failed connection wake every request that waits, leave no slot taken, and end all activity |
| `H2SessionOutcomes.UnknownStream` | src/h2_client.cpp:1550-1567 | an event for an unknown stream repairs the index at most |
| `TimerQueues.CancelOneWaiter` | include/asyncx/asyncx.hpp:807-817 | the popping loop over weak references computes CancelOne |
| `TimerQueues.CancelOneWakes` | include/asyncx/asyncx.hpp:807-817 | exactly one coroutine is woken, the one that has slept longest; none when none sleeps |
| `TimerQueues.CancelManyServes` | include/asyncx/asyncx.hpp:906-912 | n cancellations keep n more units covered by woken coroutines |
| `Semaphores.PermitsConserved` | include/asyncx/asyncx.hpp:879-912 | in every run free permits plus permits taken equal the initial ones plus those released |
| `Semaphores.NoPermitWastedExactly` | include/asyncx/asyncx.hpp:879-912 | a sleeping coroutine implies at least as many woken ones as free permits, barging included, in all runs if and only if no woken coroutine can be destroyed |
| `Semaphores.LostPermit` | include/asyncx/asyncx.hpp:879-912 | the run that breaks it when one can |
| `Semaphores.SemaphoreMeans` | include/asyncx/asyncx.hpp:879-912 | what each call and each end of a wait does in any state: one who asks takes a permit if there is one and else goes to the end of the line, try_acquire takes one or nothing, release adds n |
| `Semaphores.SemaphoreFields.ReleasePermits` | include/asyncx/asyncx.hpp:906-912 | release(n) adds n permits and cancels n waiters one after the other |
| `Semaphores.SemaphoreFields.TryAcquirePermit` | include/asyncx/asyncx.hpp:897-904 | takes a permit if there is one and says so |
| `Semaphores.SemaphoreFields.AcquireOnce` | include/asyncx/asyncx.hpp:879-895 | one pass of acquire: a permit, or a timer at the end of the queue |
| `LockGuards.MutualExclusion` | include/asyncx/asyncx.hpp:927-974 | in every run of acquisitions, guard moves, assignments, drops and destroyed coroutines at most one guard holds the lock, and the permit is free exactly when none does |
| `LockGuards.FreeLockTakenExactly` | include/asyncx/asyncx.hpp:927-974 | a free lock with sleepers has a woken coroutine in all runs if and only if no woken coroutine can be destroyed |
| `LockGuards.FreeLockForgotten` | include/asyncx/asyncx.hpp:927-974 | the run that breaks it when one can |
| `LockGuards.LockMeans` | include/asyncx/asyncx.hpp:927-974 | what each acquisition, move, assignment, drop and destroyed coroutine does in any state: a guard for a permit, the hold of one guard to another, the permit back exactly from a guard that held |
| `LockGuards.HandOverKeeps` | include/asyncx/asyncx.hpp:945-957 | moving a guard neither duplicates nor loses the permit |
| `BoundedQueues.FirstInFirstOut` | include/asyncx/asyncx.hpp:976-1054 | in every run values got, followed by values stored, are the values put, in order, and the size never exceeds max_size |
| `BoundedQueues.NobodyStrandedExactly` | include/asyncx/asyncx.hpp:981-1040 | sleeping getters imply as many woken getters as items and sleeping putters as many woken putters as free places, in all runs if and only if no woken coroutine can be destroyed |
| `BoundedQueues.StrandedGetter` | include/asyncx/asyncx.hpp:1011-1030 | the run that breaks it when one can |
| `BoundedQueues.WaitingPuttersCarry` | include/asyncx/asyncx.hpp:981-999 | in every run the putters that wait, asleep or woken, are exactly those that carry a value |
| `BoundedQueues.ValuesConserved` | include/asyncx/asyncx.hpp:976-1054 | in every run the values of all calls of put and successful calls of try_put are, counted, the values got, those stored, those that waiting putters carry, and those abandoned with a destroyed putter |
| `BoundedQueues.PutterMeans` | include/asyncx/asyncx.hpp:981-1009 | what put, try_put and a putter that runs again do in any state: the value behind all others if there is room, else the putter with its value behind all others |
| `BoundedQueues.GetterMeans` | include/asyncx/asyncx.hpp:1011-1040 | the same for get, try_get and a getter that runs again |
| `BoundedQueues.AbandonMeans` | include/asyncx/asyncx.hpp:981-1030 | a destroyed coroutine leaves its line, a putter with its value |
| `BoundedQueues.QueueFields.PutPass` | include/asyncx/asyncx.hpp:981-999 | one pass of put: the value is stored and a getter woken, or a timer joins the putters |
| `BoundedQueues.QueueFields.TryPut` | include/asyncx/asyncx.hpp:1001-1009 | stores the value exactly if there is room |
| `BoundedQueues.QueueFields.GetPass` | include/asyncx/asyncx.hpp:1011-1030 | one pass of get: the oldest item, with a putter woken, or a timer joins the getters |
| `BoundedQueues.QueueFields.TryGet` | include/asyncx/asyncx.hpp:1032-1040 | takes the oldest item exactly if there is one |
| `FanOutLaws.ForEachLimited` | include/asyncx/asyncx.hpp:1396-1506 | under every interleaving no index is claimed twice, at most max(1, concurrency) calls are in flight and no fewer while indices are left and none has failed, a normal return means every index succeeded exactly once, the exception thrown is the error of the call that failed first, and a sleeping caller has something to wait for |
| `FanOutLaws.GatherLimited` | include/asyncx/asyncx.hpp:1278-1394 | the same, and the returned values are those of the calls in index order |
| `FanOutLaws.ForEachCallerIsWoken` | include/asyncx/asyncx.hpp:1469-1473 | from any state of any run of for_each_limited there are at most as many starts and completions as remain, and after that many the caller sleeps no longer |
| `FanOutLaws.GatherCallerIsWoken` | include/asyncx/asyncx.hpp:1357-1361 | the same for the completions of gather_limited |
| `FanOutLaws.ForEachResumes` | include/asyncx/asyncx.hpp:1481-1496 | a woken caller of for_each_limited that runs ends, with the error of the first call to fail or normally |
| `FanOutLaws.GatherResumes` | include/asyncx/asyncx.hpp:1371-1393 | the same for gather_limited, with the values of the calls by index |
| `FanOutLaws.OtherwiseSleeps` | include/asyncx/asyncx.hpp:1371-1388 | a sleeping caller that runs unwoken sleeps on unchanged, and a destroyed one is gone |
| `FanOutLaws.PiecesMean` | include/asyncx/asyncx.hpp:1308-1388 | in any state every try counts up the next index and claims none past the end or after a failure, and only the first wake-up since the caller last slept counts |
| `FanOutLaws.EndIsFinal` | include/asyncx/asyncx.hpp:1371-1393 | the end of a caller is final, whatever happens to the calls left in flight |
| `FanOutLaws.ForEachEnds` | include/asyncx/asyncx.hpp:1396-1506 | from any state of any run, after the starts and completions that remain and one turn of the caller, for_each_limited has ended |
| `FanOutLaws.GatherEnds` | include/asyncx/asyncx.hpp:1278-1394 | the same for gather_limited |
| `FanOutLaws.NoClaimAfterFailure` | include/asyncx/asyncx.hpp:1308-1310 | once a call has failed no further index is claimed, whatever happens next |
| `FanOutLaws.NextForEachKeeps` | include/asyncx/asyncx.hpp:1430-1475 | every step of for_each_limited keeps the accounting of indices, the wake-up flag and the reason of an ended caller |
| `FanOutLaws.NextGatherKeeps` | include/asyncx/asyncx.hpp:1307-1388 | the same for gather_limited |
| `FanOut.GroupFields.ClaimIndex` | include/asyncx/asyncx.hpp:1308-1315 | the stop test and the fetch-and-add of the index |
| `FanOut.GroupFields.Complete` | include/asyncx/asyncx.hpp:1357-1361 | counts a completion; the last one wakes the caller once |
| `FanOut.GroupFields.Fail` | include/asyncx/asyncx.hpp:1334-1346 | records the first error, stops the group and wakes the caller once |
| `FanOut.GroupFields.Succeed` | include/asyncx/asyncx.hpp:1348-1351 | stores the value of the index and of no other |
| `FanOut.GroupFields.LaunchAll` | include/asyncx/asyncx.hpp:1367-1369 | the launches before the caller first sleeps |
| `FanOut.Output` | include/asyncx/asyncx.hpp:1390-1393 | the loop that moves the values out, in index order |
| `OriginGates.DetectionIsSingleFlight` | src/http_client.cpp:457-561 | in every run two decisions to detect have a protocol update between them, eviction is blocked exactly while detecting, requests wait only for a detection in progress, and every waiter ever made waits or has been notified |
| `OriginGates.EntryDecidedExactly` | src/http_client.cpp:457-496 | after every run the first request detects; while it does a request waits if and only if the queue has room or the policy is to wait, and falls back otherwise; no other request waits or overflows; and what each decision does to the gate |
| `OriginGates.UpdateMeans` | src/http_client.cpp:498-523 | an update sets the protocol, forgets an earlier failure and notes the end of a new one |
| `OriginGates.UpdatesReleaseAll` | src/http_client.cpp:498-523 | after every run an update leaves no waiter queued and every waiter ever made notified |
| `OriginGates.QueueBoundedExactly` | src/http_client.cpp:474-482 | the queue keeps within origin_waiter_limit in every run if and only if the policy is FallbackH1 |
| `OriginGates.LastUpdateDecides` | src/http_client.cpp:462-523 | in any state, until the next detection every request is treated as the last update says: a protocol for good, a failure for h2_failure_ttl |
| `OriginGates.OriginGate.EnterGate` | src/http_client.cpp:457-496 | one entry: the decision and the new state |
| `OriginGates.OriginGate.NotifyWaiters` | src/http_client.cpp:544-554 | the loop marks every queued waiter and empties the queue |
| `OriginGates.OriginGate.SetProtocol` | src/http_client.cpp:498-509 | an update notifies all and lifts the block |
| `OriginGates.OriginGate.MarkH2FailedAt` | src/http_client.cpp:511-523 | a failure sets the time of the next try, notifies all and lifts the block |
| `OriginCaches.ListMatchesMap` | src/http_client.cpp:1304-1355 | in every run the map and the list agree one to one and the list is ordered by last use |
| `OriginCaches.Agreement` | src/http_client.cpp:1346-1355 | what agreement means: every node's key is cached, every cached key has one node, and the sizes are equal |
| `OriginCaches.CachedGateFound` | src/http_client.cpp:1304-1328 | a cached origin keeps its gate and protocol, is used now, and nothing is evicted for it |
| `OriginCaches.NewGateMade` | src/http_client.cpp:1304-1318 | another gets a new gate of unknown protocol after a pass of eviction |
| `OriginCaches.RouteRemembered` | src/http_client.cpp:1330-1344 | a route is remembered for both usable protocols, with the gate that the origin has or a new one, and for no other state |
| `OriginCaches.StrangersGo` | src/http_client.cpp:1364-1396 | on any cache a pass drops the nodes of the list that have no origin |
| `OriginCaches.EvictKeeps` | src/http_client.cpp:1364-1396 | a pass removes only idle origins, changes no survivor, and raises the generation by one for each |
| `OriginCaches.WithinLimitOrBusy` | src/http_client.cpp:1364-1396 | after a pass the size is within max_cached_origins or every survivor is busy |
| `OriginCaches.NothingExpiredSurvivesExactly` | src/http_client.cpp:1364-1396 | nothing past its time to live survives a pass if and only if no busy origin is past it |
| `OriginCaches.ExpiredOriginIsShielded` | src/http_client.cpp:1391-1393 | a run after which a pass keeps an idle origin past its time to live, behind a busy one |
| `OriginCaches.BusyOriginShields` | src/http_client.cpp:1391-1393 | a busy origin at the end of the list stops a pass within the limit, whatever has expired before it |
| `OriginCaches.PassKeepsLongestPrefix` | src/http_client.cpp:1364-1396 | without busy origins a pass keeps exactly the longest prefix of unexpired origins within the limit: the plain meaning of the backward loop |
| `OriginCacheFields.OriginCache.TouchCachedOrigin` | src/http_client.cpp:1346-1355 | links the key in front or moves its node there, and notes the time |
| `OriginCacheFields.OriginCache.EvictCachedOrigins` | src/http_client.cpp:1364-1396 | the backward loop computes the pass |
| `OriginCacheFields.OriginCache.GetGate` | src/http_client.cpp:1304-1318 | finds and touches the origin, or evicts, inserts and touches it |
| `OriginCacheFields.OriginCache.RememberRoute` | src/http_client.cpp:1330-1344 | records H1Only and H2Available and ignores other states |
| `RouteCaches.HitMeansNoEviction` | src/http_client.cpp:366-396 | after every run a thread-local hit is an unexpired route of this client to this address stored in the present generation: nothing was evicted since, and every origin cached then is cached still |
| `RouteCaches.StoredIsFoundExactly` | src/http_client.cpp:366-396 | a stored route is found at once if and only if no match of the same client and address sits in an earlier slot, or the first one there is neither stale nor different |
| `RouteCaches.HitRenews` | src/http_client.cpp:366-385 | after a hit the same look-up is a hit again until the time to live has gone by since that hit |
| `RouteCaches.LookupTouchesOne` | src/http_client.cpp:366-385 | a look-up is a hit if and only if the first match is of the present generation and not expired; it notes the hit in that slot or frees it, and touches no other |
| `RouteCaches.StoredStays` | src/http_client.cpp:387-396 | a stored route stays in its slot until 64 others have been stored |
| `RouteCaches.WorldMeans` | src/http_client.cpp:366-396 | clients share the slots, and each event touches the origin cache or the routes |
| `RouteCaches.OlderRouteWins` | src/http_client.cpp:366-396 | for any limits and time to live, after a route is remembered twice with different protocols the look-up answers with the first, while the origin cache holds the second |
| `RouteCaches.RouteSlots.LookupRoute` | src/http_client.cpp:366-385 | the scan: the first match decides, a stale one is cleared, a hit is noted |
| `RouteCaches.RouteSlots.StoreRoute` | src/http_client.cpp:387-396 | the slots are filled in rotation |
| `CookieMatching.DomainMatchIsSuffixOfLabels` | src/http_client.cpp:129-138 | domain_match holds if and only if the host is the domain or ends with a dot and the domain |
| `CookieMatching.LeadingDotIgnored` | src/http_client.cpp:129-138 | one leading dot of a domain does not count, and without one the host is the domain or ends with a dot and the domain, in any case of letters |
| `CookieMatching.StandardExactly` | src/http_client.cpp:129-138 | domain_match is the relation of section 5.1.3 of RFC 6265 for a host and every domain if and only if the host is no address or has no dot |
| `CookieMatching.AddressMatchesSuffix` | src/http_client.cpp:129-138 | host 1.2.3.4 matches domain 3.4, which that section rules out |
| `CookieMatching.PathMatchIsDirectoryPrefix` | src/http_client.cpp:140-149 | path_match holds if and only if the cookie path is the request path or a directory above it: section 5.1.4 of RFC 6265 |
| `CookieMatching.DefaultPathIsDirectory` | src/http_client.cpp:118-127 | the default path is the directory of an absolute path, and the root for a file in it: section 5.1.4 of RFC 6265 |
| `CookieMatching.OtherPathsAreRoot` | src/http_client.cpp:118-127 | and the root for every other path |
| `CookieMatching.DefaultPathMatches` | src/http_client.cpp:118-127 | the default path is absolute, and matches the address it comes from if and only if that has an absolute path |
| `CookieJarLaws.StoreAlways` | src/http_client.cpp:584-755 | after every sequence of calls each jar holds only its own domain, has unique names and paths and at most max_cookies_per_domain cookies, and at most max_cookie_domains domains have cookies |
| `CookieJarLaws.JustSetStays` | src/http_client.cpp:642-652 | setting a cookie replaces its namesake, keeps the limit and never drops the cookie just set |
| `CookieJarLaws.DeletedIsGone` | src/http_client.cpp:642-649 | a deleting line leaves no cookie of its domain, name and path and touches no other domain |
| `CookieJarLaws.OthersAreKept` | src/http_client.cpp:642-652 | setting or deleting a cookie takes out those of its domain, name and path only, as long as there is room |
| `CookieJarLaws.LinesInTurn` | src/http_client.cpp:584-655 | the lines of a response take effect one after the other, each on what those before it left, and lines without a name have none |
| `CookieJarLaws.DraftOnOwnSite` | src/http_client.cpp:608-640 | whatever its attributes, a cookie belongs to a domain that the host which sent it matches |
| `CookieJarLaws.DraftCarries` | src/http_client.cpp:608-640 | the cookie of a line has its name and value, the last Domain that the host matches or the host alone, the last absolute Path or the default path, the last positive Max-Age or no end, and deletes if and only if some Max-Age is not positive |
| `CookieJarLaws.VictimIsOldest` | src/http_client.cpp:737-754 | the jar to go holds the least recently used cookie of all and is never empty, whatever the order of the map |
| `CookieJarLaws.TrimDomainsOk` | src/http_client.cpp:731-755 | afterwards at most max_cookie_domains domains have cookies, and the jars that stay are unchanged |
| `CookieJarLaws.TrimDomainsKeeps` | src/http_client.cpp:731-755 | no jar goes within the limit on domains, no more than needed beyond it, and each that goes holds a cookie no newer than any in the jars that stay |
| `CookieHeaders.UseNotedExactly` | src/http_client.cpp:662-677 | cookie_header notes the use of exactly the cookies that it sends |
| `CookieHeaders.PrunedExactly` | src/http_client.cpp:694-711 | exactly the cookies whose end has come are dropped |
| `CookieHeaders.HeaderIsExact` | src/http_client.cpp:657-688 | after every sequence of calls and for every order of the map, the header holds exactly the cookies that match host and path and have no end or an end after now, each once |
| `CookieHeaders.SetThenSent` | src/http_client.cpp:584-688 | a cookie that has just been set goes to every request entitled to it, if its jar outlasts the cut to the number of domains |
| `CookieHeaders.SentUntilMaxAge` | src/http_client.cpp:657-702 | a cookie set at time t whose jar outlasts the cut goes to a request that it reaches, with its value, if and only if the time is before t plus its last positive Max-Age or it has none |
| `CookieJarFields.CookieJar.EnforceDomainLimit` | src/http_client.cpp:713-729 | the loop drops the least recently used cookies until the limit is met |
| `CookieJarFields.CookieJar.OldestDomain` | src/http_client.cpp:738-749 | the walk finds the jar with the oldest cookie |
| `CookieJarFields.CookieJar.EnforceDomainCount` | src/http_client.cpp:731-755 | the loop drops such jars until the limit is met or only empty jars are left |
| `CookieJarFields.CookieJar.SetCookie` | src/http_client.cpp:642-652 | replaces, appends and trims, or deletes |
| `CookieJarFields.CookieJar.SendJar` | src/http_client.cpp:667-685 | the inner loop sends and marks the matching cookies of one jar |
| `H1ResponseLaws.IntactMeansMeaning` | src/asio_http_client.cpp:381-460 | for header sections of up to 65537 bytes with their blank line, and for inputs without one, status, headers, body, streamed bytes or failure are a function of the bytes if and only if the view of the header section is intact when it is parsed |
| `H1ResponseLaws.SplitIndependent` | src/asio_http_client.cpp:381-460 | for those inputs the outcome depends only on the bytes, for every split and every growth of the buffer, if no body is stored or comes, or section and body fit the capacity at the outset |
| `H1ResponseLaws.SplitIndependentExactly` | src/asio_http_client.cpp:381-460 | the outcome is one and the same for every split and growth if and only if the section has more than 98304 bytes, or at most 65537 and that condition holds |
| `H1ResponseLaws.OneReadOrMany` | src/asio_http_client.cpp:413-456 | for every input with a small section and a stored body that one read can hold but the capacity cannot: read at once it is understood, read byte by byte it is parsed from a dangling view |
| `H1ResponseLaws.GrownInTime` | src/asio_http_client.cpp:385-456 | a buffer too small for the header section that grows past the whole response keeps the view for every split |
| `H1Framing.PlainResponseDangles` | src/asio_http_client.cpp:587-591 | the same for a concrete response of 42 and 20000 bytes and a fresh buffer of 8192 |
| `H1ResponseLaws.LimitWaversExactly` | src/asio_http_client.cpp:385-405 | whether the headers count as too large depends on the split if and only if the section has more than 65537 and at most 98304 bytes |
| `H1ResponseLaws.BodyMeans` | src/asio_http_client.cpp:413-456 | the body is exactly the announced number of bytes after the blank line, and the chunks handed on concatenate to it; the view is lost exactly if the body is stored, complete, and reaches beyond both what was read and the capacity when the view was taken |
| `H1Framing.ResponseReadBack` | src/asio_http_client.cpp:160-225 | a response whose first Content-Length line tells the length of its body is read back whole from every split and whatever follows it, if and only if its body is not stored, or empty, or fits the capacity with the section: section 6.2 of RFC 9112 |
| `H1Framing.StatusExactly` | src/asio_http_client.cpp:160-174 | for any text the status is the three digits behind the first space, and zero without them |
| `H1Framing.BodilessReadBack` | src/asio_http_client.cpp:176-206 | a response without a length line, such as one with status 204, is read back at once with an empty body from every split and for every buffer |
| `H1Framing.SectionMeans` | src/asio_http_client.cpp:160-225 | status code, header lines and content length of a well-formed header section are those written: the digits of the first length line in a 64-bit word, and zero without one |
| `H1Responses.FillHeaders` | src/asio_http_client.cpp:381-405 | the header loop, and the capacity it leaves the buffer with |
| `H1Responses.FillBody` | src/asio_http_client.cpp:416-444 | the body loop; the buffer grows only if the body is stored, and an append beyond the capacity moves it |
| `H1Responses.RunExchange` | src/asio_http_client.cpp:381-460 | both loops, the view of the header section taken between them and parsed after them, and the response |
| `Socks5Laws.Lockstep` | src/proxy_support.hpp:240-316 | under every schedule of client and server: the server decodes exactly the host, port, user and password, a connected client has a server that tunnels to its target with no byte unread on either side, a conversation that is not over can go on, and its end depends on the arguments alone |
| `Socks5Laws.SixteenRounds` | src/proxy_support.hpp:240-316 | after sixteen rounds in which both parties get a turn, in whatever order and however often, the conversation is over, and the client is connected if and only if it is admitted, its target can be sent and the server reaches it |
| `Socks5Laws.CredentialsDecode` | tools/go_compare/http_proxy.go:159-175 | the server's reads cut the credentials where the client joined them: section 2 of RFC 1929 |
| `Socks5Laws.RequestDecodes` | tools/go_compare/http_proxy.go:98-137 | the same for the connect request: sections 4 and 5 of RFC 1928 |
| `Socks5Laws.ClientMovesCount` | src/proxy_support.hpp:240-316 | every move brings the client closer to its end, whatever it receives |
| `Socks5Laws.ServerMovesCount` | tools/go_compare/http_proxy.go:73-182 | the same for the server |
| `Socks5Laws.PortIsExact` | src/proxy_support.hpp:281-284 | the port sent is the port given if and only if the number is at most 65535, among those the client lets through |
| `Socks5Laws.PortPassesTruncated` | src/proxy_support.hpp:281-284 | 2^32 + 80 is let through as port 80 |
| `Socks5Grammar.ClientAcceptsExactly` | src/proxy_support.hpp:240-316 | against any bytes of any server: after six reads at most the client has a tunnel or has failed; it has one if and only if the bytes begin with an agreement on a method and a reply of success and login and target can be sent; and then it has read those bytes and no more and sent exactly offer, login and request |
| `Socks5Grammar.MessagesAsWritten` | src/proxy_support.hpp:244-294 | the client's three messages byte by byte, and when the last two can be sent |
| `Socks5Grammar.ServerGreets` | tools/go_compare/http_proxy.go:73-94 | for any bytes, what the server makes of the greeting |
| `Socks5Grammar.ServerChecksLogin` | tools/go_compare/http_proxy.go:159-182 | the login is accepted exactly for the one user there is |
| `Socks5Grammar.ServerReads` | tools/go_compare/http_proxy.go:103-129 | names, addresses and credentials are read with the lengths before them |
| `Socks5Grammar.ServerAnswers` | tools/go_compare/http_proxy.go:98-144 | what the server makes of the request and of the target |
| `Socks5Grammar.ServerWaits` | tools/go_compare/http_proxy.go:73-182 | without its bytes a read of the server waits for a client that may still write, and ends otherwise |
| `Socks5Grammar.ClientWaits` | src/proxy_support.hpp:240-316 | the same for the client |
| `Socks5.BuildCredentials` | src/proxy_support.hpp:261-267 | the credentials message |
| `Socks5.BuildRequest` | src/proxy_support.hpp:285-294 | the connect message |
| `UrlEncodingLaws.DecodeUndoesEncodeExactly` | src/proxy_support.hpp:42-64 | percent_decode undoes append_urlencoded if and only if the string has no space |
| `UrlEncodingLaws.EncodedAs` | src/request.cpp:55-69 | a byte is written as itself if and only if it is a letter, a digit or one of four marks, a space as a plus sign, any other as two upper-case hexadecimal digits |
| `UrlEncodingLaws.HexValueExactly` | src/proxy_support.hpp:43-48 | hexadecimal digits count in both cases, and nothing else does |
| `UrlEncodingLaws.DecodedAs` | src/proxy_support.hpp:42-64 | an escape is resolved to its byte, and a percent sign without two digits behind it stays |
| `UrlEncodingLaws.FormReadBack` | src/request.cpp:470-483 | every list of fields can be read back from form_urlencode |
| `UrlEncodingLaws.QueryReadBackExactly` | src/request.cpp:515-539 | the fields of the new query are those of the old one and then the parameters if and only if the address has no query or one that neither is empty nor ends with an ampersand |
| `UrlEncodingLaws.AppendTwice` | src/request.cpp:515-539 | appending p and then q to any address is appending p followed by q |
| `UrlEncodingLaws.FragmentStaysLast` | src/request.cpp:515-539 | the parameters go between the address and its fragment, which stays as it was |
| `UrlEncoding.AppendUrlencoded` | src/request.cpp:55-69 | the encoding loop |
| `UrlEncoding.AppendFields` | src/request.cpp:470-483 | the loop over fields |
| `UrlEncoding.AppendQueryParams` | src/request.cpp:515-539 | append_query_params |
| `UrlEncoding.DecodePercents` | src/proxy_support.hpp:42-64 | the decoding loop |

## Left out

- Sockets, TLS, ALPN, DNS, nghttp2, Beast, zlib and libcurl: foreign code; their outcomes are events, oracles or byte input.
- Clocks: times are parameters or elapsed-time events of a steady clock that does not go back.
- Real parallelism: sections under a mutex or on a strand are atomic; the asyncx primitives run on one executor, and spawned work starts after the spawner suspends.
- Statistics, timing records and logging: they do not affect control.
- The curl client, the benchmark programs, and the Go client and servers other than the SOCKS5 server.
- Proxy-path connections and H1TlsActor connections: they bypass the pool counters.
- The plain and the TLS fields of a pool make the same decisions; one copy is modelled. A pool that has been evicted while coroutines still refer to it keeps its own bound; the bound is per pool object.
- NoLostWakeup: a coroutine that is woken and then cancelled is not modelled; whether its next wait throws at once, and leaves a dead waiter queued as a timeout does, rests on defaults of Asio that are not part of this model.
- Preconnect's target count: the model lets a preconnect start whenever the two limits allow, which includes all of its runs.
- Liveness of protocol detection: an exception in the detecting request leaves the gate in Detecting.
- Agreement of the thread-local route cache with the remembered protocol: a change of route does not raise the generation.
- HitMeansNoEviction: generations are unbounded numbers, and a client object at a reused address is not modelled.
- PermitsConserved: permits are unbounded numbers, so the wrap-around of a 64-bit count is not modelled.
- SlotsConserved: covers one connection; close_connection zeroes the counter while slots may still be held. pump_output is taken not to throw. A coroutine that is woken, or admitted, and then cancelled is not modelled: if the wait of src/h2_client.cpp:723-728 for its response throws, its slot is given back while its stream stays in the table.
- BodySourcesNeverMove: the same cancellation would leave a stream in the table without a slot, and the vector could outgrow its limit.
- NoStreamWaiterStranded: the same cancellation in the wait for a slot, src/h2_client.cpp:1001, would leave a dead waiter queued as a timeout does.
- HandlersRunOnce: a request that fails before its stream is submitted reports to its handler outside this accounting.
- DeadlineQueue: punctual expiry is not claimed, because an armed timer is not moved earlier; streams are a map here, which the table follows by TableFollowsMap and PassOnTheTable. The library heap is replaced by a binary heap with the same contract; the order of equal deadlines is left open.
- asyncx::Event and the asyncx combinators without a concurrency limit: they share the primitives modelled here and have no queue discipline or limit of their own.
- RunExchange: chunked transfer coding is not implemented on this path; a read returns at least one byte or fails; what a parser makes of memory behind a dangling view is not modelled.
- ResponseReadBack: a Content-Length line with nothing but white space behind its name is not covered, because the parser, which is modelled as it is, then skips over the end of the line.
- Cutting a Set-Cookie line into name, value and attributes, reading Max-Age as a number, and joining the header text: attributes and numbers are input, and the cookies sent are a list.
- Cookie expiry is an option in place of the zero time point; the overflow of a huge Max-Age is not modelled.
- DomainMatch: upper-case letters are those of ASCII, as in the C locale.
- StandardExactly: an address is four decimal octets joined by dots, or a text with a colon.
- Lockstep: the text of numeric addresses is not modelled, since the client always sends a name; a port text is a number or not a number, as std::stoul decides.
- URL parsing, redirects, retries, multipart bodies and header editing: string handling outside the components modelled here.
