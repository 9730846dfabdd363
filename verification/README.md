# A verified model of the NavMesh tunnel gateway

NavMesh publishes services of devices that dial out to a gateway. Under its HTTP and database layers are
several small state machines and caches. This project models them in Dafny and proves what they keep.

| file | what it models |
|---|---|
| `text.dfy`, `utf8.dfy`, `hosts.dfy` | library text functions on strings and on UTF-8 bytes; the truncation of log fields; the two host normalisations |
| `sequences.dfy` | sequences without repeats, and the cutting into batches that log drain and flush share |
| `upgrade_download.dfy` | the resumable download of an upgrade package, over every pattern of cuts, refusals and restarts |
| `tunnel_manager.dfy` | the registry of device connections, over every interleaving of its goroutines |
| `access_log.dfy` | the access-log writer: queue, batches, failed batches, stop and drain |
| `runtime_policy.dfy` | the sliding-window rate limiter and the session permits |
| `route_cache.dfy`, `route_reload.dfy` | the HTTP route snapshot against the database queries, the writers of the tables, and the reload loop |
| `liveness.dfy`, `offline_alerts.dfy` | coalesced device touches and their flush; the offline cleaner and its alerts |
| `token_cache.dfy` | the cache of token validations against the token table |
| `upgrade_tasks.dfy` | the states of upgrade tasks and batches |
| `device_traffic.dfy` | daily traffic from interface counters |
| `cursor_page.dfy` | keyset pagination |
| `query_pattern.dfy` | the sanitiser of slow SQL statements, and the ring that keeps the last ones |

A concurrent component is a transition relation: `State`, `Action` (or `Step`, `Event`), `Enabled`, a step
function, and `Run`. What a goroutine does under a lock, or in one channel operation, is one action; what it
does after the lock is released is an action of its own. An invariant is proved for every step and then for
every run. Code that works in place is also written as a class whose methods are proved equal to the step
functions. What an operation leaves behind is stated besides, in terms of the table, the registry or the disk
before and after, so that an operation that does too little does not meet its statement. History variables
(`owner`, `offered`, `touches`, `covered`, ...) record the past for the statements.

Some properties that the code suggests are not true of it. Each is stated with the condition under which it
holds, and with a concrete case where it fails:

- Success of a download does not mean that the promoted file has the given digest: a write that fails after it
  has stored some bytes leaves bytes in the file that the running hash never saw
  (`SuccessVerifiesTarget`, `HashCoversFileIffClean`, `TornWritePromotesOtherBytes`).
- With no size given, an error reply that states the length of its own body fixes the package size
  (`UnknownSizeStaysTrueIff`, `DownloadCompletes`, `ErrorBodyFailsDownload`).
- The unregistration of a QUIC data channel can take an item with queued TCP connections out of the map without
  draining it (`ResidueOnlyFromDroppedQueue`, `DroppedQueueLeaks`).
- The route cache denies a mapping without a protocol when a policy denies HTTP; the queries allow it
  (`CacheEqualsSlowPathIff`, `BlankProtocolDiffers`).
- A stored public host need not be one that a request is looked up under
  (`StoredHostIsFixedPointIff`, `SaveMappingKeepsTables`, `StoredHostNeedNotBeFixed`).
- A token that is disabled between the read and the store of a validation still hits the cache
  (`BackedIffHarmless`, `OvertakenIsWrongIff`, `RaceLeavesAStaleHit`; in every case `HitIsRecent`).
- An interface name that is cut after a space is stored under a name that is not found again
  (`StoredNameIsFoundIff`, `StoredNameNeedNotBeFound`).
- Calls on upgrade tasks read and then write: a report can open an ended task again or start one twice, and two
  creations can give a device two active tasks (`LateReportIsFineIff`, `MixedKeepsIffHarmless`,
  `LateReportReopens`, `LateReportStartsAgain`, `TwoCreatesInterleave`). Calls taken one at a time do none of
  this (`TasksOnlyEvolve`).
- A page cursor without an id skips rows of the same time (`TimeCursorAgreesIff`, `TimeCursorSkips`).
- Truncation of bytes that are not UTF-8 can miss the limit by any distance (`CutIsNearIff`,
  `ContinuationBytesAreCut`).

## Model

| member | source | states |
|---|---|---|
| UpgradeDownload.AttemptKeepsSizes | cmd/navmesh-client/main.go:1574-1717 | an attempt keeps the size counter equal to the size of the part file, and never hashes more than is stored |
| UpgradeDownload.HashFallsBehindOnlyByTornWrites | cmd/navmesh-client/main.go:1682-1692 | a hash in step with the file falls out of step exactly in an attempt that leaves torn bytes |
| UpgradeDownload.AttemptKeepsPrefix | cmd/navmesh-client/main.go:1588-1692 | if the origin has one fixed content, every attempt leaves the part file a prefix of it and the target alone |
| UpgradeDownload.AttemptsKeepPrefix | cmd/navmesh-client/main.go:1574-1717 | so does any number of attempts, wherever the process is killed |
| UpgradeDownload.AttemptsEnd | cmd/navmesh-client/main.go:1574-1717 | the loop ends with a verdict within its six attempts |
| UpgradeDownload.PrepareKeepsPrefix | cmd/navmesh-client/main.go:1547-1569 | what is done before the loop keeps both files prefixes, and starts with size and hash in step with the file |
| UpgradeDownload.DownloadDelivers | cmd/navmesh-client/main.go:1536-1748 | resume correctness of one call: the part file stays a prefix, and success leaves exactly the content at the target and no part file |
| UpgradeDownload.ResumeAfterAnyLives | cmd/navmesh-client/main.go:1545-1553 | the same after any sequence of calls that ended, were killed in the loop, or whose package was installed |
| UpgradeDownload.HashCoversFileIffClean | cmd/navmesh-client/main.go:1648-1692 | for any origin, after any attempts the hash covers the part file if and only if no torn bytes are in it |
| UpgradeDownload.SuccessVerifiesTarget | cmd/navmesh-client/main.go:1724-1747 | for any origin, success means the promoted file has the given size, the bytes hashed have the given digest, and these are the same bytes if and only if the file is clean |
| UpgradeDownload.WholeWritesPromoteTheDigest | cmd/navmesh-client/main.go:1734-1747 | with all-or-nothing writes a promoted file has the given digest |
| UpgradeDownload.TornWritePromotesOtherBytes | cmd/navmesh-client/main.go:1682-1697 | without them it need not: a concrete call that promotes a file with another digest |
| UpgradeDownload.DownloadCompletes | cmd/navmesh-client/main.go:1574-1748 | with the size given or not, and whatever earlier calls have left, too much of it included: if one attempt of six supplies what is missing and the ones before are only interruptions, the call succeeds with the whole content; without a size no reply may mislead about it |
| UpgradeDownload.WrongDigestIsDiscarded | cmd/navmesh-client/main.go:1734-1739 | a content with another digest than the one given makes the call fail and leaves no part file |
| UpgradeDownload.WrongDigestIsRecovered | cmd/navmesh-client/main.go:1547-1553 | so the next call starts afresh, and succeeds against an origin with the right content |
| UpgradeDownload.OnlyTheRestIsNeeded | cmd/navmesh-client/main.go:1585-1618 | what is left over is not fetched again: a reply with the rest alone, or that there is none, is enough; also for a target that was not installed |
| UpgradeDownload.RefusedRangeStartsOver | cmd/navmesh-client/main.go:1619-1634 | an origin that cannot continue has the part file given up and the package fetched from the start |
| UpgradeDownload.RefusalsKeepThePart | cmd/navmesh-client/main.go:1635-1646 | refusals and silence leave the part file; six of them end the call, as retryable exactly for the statuses 408, 425, 429 and 5xx; other refusals end it at once |
| UpgradeDownload.SpoiledCopiesFail | cmd/navmesh-client/main.go:1682-1716 | a copy that could not be written, synced or closed is no success, however often it is complete |
| UpgradeDownload.LocalFailuresKeepThePart | cmd/navmesh-client/main.go:1724-1746 | a local failure after the loop leaves what was fetched for another call |
| UpgradeDownload.EarlyFailuresLoseNothing | cmd/navmesh-client/main.go:1547-1564 | a local failure before the loop fails the call and loses nothing |
| UpgradeDownload.UnknownSizeStaysTrueIff | cmd/navmesh-client/main.go:1599-1612 | while no size is known, a reply with true totals and lengths leaves it unknown or makes it the true one if and only if it is no error reply that states the length of its own body |
| UpgradeDownload.ErrorBodyFailsDownload | cmd/navmesh-client/main.go:1599-1616 | with no size given, one error page of another length than the package makes a call fail although every later reply is perfect |
| UpgradeDownload.ContentRangeRoundTrip | cmd/navmesh-client/main.go:1813-1821 | a Content-Range header gives back the total that was written into it, whatever its range |
| UpgradeDownload.UnknownTotalGivesNone | cmd/navmesh-client/main.go:1813-1821 | a header with an unknown total gives none |
| UpgradeDownload.UpgradeDisk.Turn | cmd/navmesh-client/main.go:1574-1717 | the body of the attempt loop, in place on the two files, is the attempt function |
| UpgradeDownload.UpgradeDisk.DownloadUpgradeBinary | cmd/navmesh-client/main.go:1536-1748 | the whole call, with its loop, is the download function |
| UpgradeDownload.UpgradeDisk.Settle | cmd/navmesh-client/main.go:1718-1747 | the checks and the promotion after the loop |
| TunnelManager.StepKeepsInv | tunnel/manager.go:68-274 | every action of every goroutine keeps: each data connection is where history says and nowhere else, queues are bounded without repeats, no item is mapped twice or both mapped and being closed |
| TunnelManager.HandedOverIsOwned | tunnel/manager.go:112-146 | over any run, the owned connections are exactly the ones handed to RegisterTCP |
| TunnelManager.ExactlyOnePlace | tunnel/manager.go:112-146 | after any run a data connection is in exactly one place (queued, held by one opener, closed) if and only if it was handed over |
| TunnelManager.MapGainsOnlyNewItems | tunnel/manager.go:84-95 | the map only gains the item that the action has just made |
| TunnelManager.DetachedStaysDetached | tunnel/manager.go:235-274 | an item out of the map is not mapped again and nothing is sent to its queue, which loses only its front |
| TunnelManager.DetachedForever | tunnel/manager.go:235-274 | over any run it stays out, and its queue is a tail of what it was |
| TunnelManager.ResidueOnlyFromDroppedQueue | tunnel/manager.go:191-204 | connections come to wait in an item that nobody closes exactly by a data unregistration that removes an item with a queue |
| TunnelManager.SettledConnections | tunnel/manager.go:516-539 | when all closes have ended and no opener is active, every connection handed over is closed or queued in a current item, if no queue was dropped |
| TunnelManager.DroppedQueueLeaks | tunnel/manager.go:197-202 | a run of three calls that leaves a connection queued in an item out of the map |
| TunnelManager.ControlsNeverChange | tunnel/manager.go:94-140 | the control connections of an item are fixed when it is made |
| TunnelManager.LeavesExactlyWhenRemoved | tunnel/manager.go:148-274 | a device's item leaves the map if and only if the action names it, its own connection, or registers a new control |
| TunnelManager.StaleTeardownIsHarmless | tunnel/manager.go:148-274 | an item with a control connection survives every run of actions that do not name it |
| TunnelManager.DrainClosesTheQueue | tunnel/manager.go:529-538 | a drain without interference closes exactly the queued connections and changes no other item |
| TunnelManager.TCPControlIsRegistered | tunnel/manager.go:112-146 | after a TCP control registration the device has a new item with exactly this control and an empty queue, the old item is being closed, and this connection alone can take the device off |
| TunnelManager.QUICControlIsRegistered | tunnel/manager.go:94-106 | the same for QUIC; the item has the connection as data channel too exactly for an old client |
| TunnelManager.QUICDataIsRegistered | tunnel/manager.go:82-91 | after a QUIC data registration the device is mapped, has this data channel, and keeps its controls and queue |
| TunnelManager.QUICDataIsUnregistered | tunnel/manager.go:191-204 | the end of the device's data channel clears it, and the device stays mapped exactly if it has a control; that of another one does nothing |
| TunnelManager.TCPDataIsQueued | tunnel/manager.go:123-137 | after a TCP data registration the device is mapped, keeps its controls, and has the connection at the end of its queue, or it is closed if 64 wait there |
| TunnelManager.ControlIsUnregistered | tunnel/manager.go:157-189 | the end of the control connection takes the device off, that of another one does nothing |
| TunnelManager.CloseRemoves | tunnel/manager.go:148-274 | a close by name takes the device off and leaves its item to be closed; a close by item does so exactly if it is the current one |
| TunnelManager.CloseAllRemovesAll | tunnel/manager.go:505-514 | a shutdown leaves no device mapped and every mapped item to be closed |
| TunnelManager.OpenerTakesFirst | tunnel/manager.go:276-290 | an opener of a stream gets the connection that has waited longest in the current item; one it gives up is closed |
| TunnelManager.DeviceConnection.DrainQueue | tunnel/manager.go:529-538 | the drain loop empties the queue and returns it in order |
| TunnelManager.Manager.RegisterTCP | tunnel/manager.go:123-142 | the locked section is the registration action, and the replaced item is the old one |
| TunnelManager.Manager.RegisterQUIC | tunnel/manager.go:80-100 | the same for QUIC, with the data channel that is replaced |
| TunnelManager.Manager.SetData | tunnel/manager.go:87-91 | the data channel is set; the old one is closed later unless it is the same or also controls |
| TunnelManager.ReplacedData | tunnel/manager.go:87-90 | the data channel that is closed is the old one, unless it is the same or also controls |
| TunnelManager.Manager.CloseDevice | tunnel/manager.go:235-253 | the locked section is the close action |
| TunnelManager.Manager.CloseDeviceIfCurrent | tunnel/manager.go:255-274 | it acts, and answers true, exactly if the item is the current one |
| TunnelManager.Manager.UnregisterTCPControl | tunnel/manager.go:174-189 | it acts, and answers true, exactly if the connection controls the current item |
| TunnelManager.Manager.UnregisterQUICData | tunnel/manager.go:191-204 | the whole method is the unregistration action |
| TunnelManager.Manager.CloseDeviceItem | tunnel/manager.go:516-539 | a drain without interference is the sequence of drain actions |
| AccessLog.StepKeepsInv | httpgateway/log.go:101-221 | every action keeps the conservation laws: accepted rows are flushed, in the batch or queued, in order; the counters add up |
| AccessLog.Conservation | httpgateway/log.go:101-221 | at every moment of every run offered = written + dropped + queued + in batch + in flight, the table is the inserted batches in order, no batch exceeds the batch size |
| AccessLog.StoppedAccountsForAll | httpgateway/log.go:122-141 | when the runner has exited, queue and batch are empty, offered = written + dropped, and the table is the accepted rows less whole failed batches |
| AccessLog.HistoryIsTheRun | httpgateway/log.go:101-120 | the history of offered and accepted records is what the producers of the run did |
| AccessLog.DrainEnds | httpgateway/log.go:205-218 | after Stop the runner can always act until it exits, and each act leaves it less to do |
| AccessLog.DrainFlushesChunks | httpgateway/log.go:205-218 | the drain flushes what it finds in runs of the batch size and a rest, in order |
| AccessLog.StoppedTakesNothing | httpgateway/log.go:101-132 | after Stop nothing is offered or accepted any more, over any run |
| AccessLog.OfferIsTakenIffRoom | httpgateway/log.go:108-119 | before it a record goes to the end of the queue exactly while there is room, and is else counted as dropped |
| AccessLog.TickWrites | httpgateway/log.go:165-202 | a tick of the timer has the waiting rows written, and counted as written or dropped |
| AccessLog.FullBatchIsWritten | httpgateway/log.go:196-200 | a row that fills the batch has it written at once; another one waits |
| AccessLog.CancelDrains | httpgateway/log.go:205-218 | a cancelled runner drains, and exits when the queue is empty and the rest is written |
| AccessLog.HealthyDrainWritesAll | httpgateway/log.go:205-218 | if the database takes every batch, a drain writes all it finds |
| AccessLog.AccessLogWriter.constructor | httpgateway/log.go:69-91 | the defaults 8192 and 200 of queue and batch size, and the bound of 1000 |
| AccessLog.AccessLogWriter.Enqueue | httpgateway/log.go:101-120 | a record is refused after Stop, queued if there is room, and else counted as dropped |
| AccessLog.AccessLogWriter.Stop | httpgateway/log.go:126-129 | from here on nothing is accepted |
| AccessLog.AccessLogWriter.WriteAccessLogBatch | httpgateway/log.go:248-269 | a busy database is tried three times, and the rows go in at most once |
| AccessLog.AccessLogWriter.FlushBatch | httpgateway/log.go:165-193 | a flush is its write and its count |
| AccessLog.AccessLogWriter.DrainAndExit | httpgateway/log.go:205-218 | the nested drain loop is the drain function and leaves queue and batch empty |
| Utf8.TruncateUTF8 | httpgateway/log.go:399-408 | the loop returns the cut that the specification gives |
| Utf8.TruncationIsLongestPrefix | httpgateway/log.go:399-408 | on well-formed UTF-8 the result is the longest well-formed prefix within the limit, and at most three bytes short of it |
| Utf8.CutIsNearIff | httpgateway/log.go:399-408 | on any bytes that are cut, the result is at most three bytes short if and only if one of the last places or the limit can start a code point |
| Utf8.ContinuationBytesAreCut | httpgateway/log.go:403-407 | on continuation bytes alone everything is cut |
| Utf8.BoundariesAreRuneStarts | httpgateway/log.go:404-406 | in well-formed UTF-8 the positions between code points are exactly the leading bytes and the end |
| RuntimePolicies.AcquireAgrees | services/runtime_policy.go:45-100 | one Acquire gives the answer of the limiter that forgets nothing, and keeps the two in agreement |
| RuntimePolicies.LimiterRefinesLedger | services/runtime_policy.go:45-117 | over every run of calls in clock order, pruning and sweeping change no answer |
| RuntimePolicies.NoWindowExceedsLimit | services/runtime_policy.go:52-66 | with a fixed limit no source has more hits in the full history than that in any window of a minute |
| RuntimePolicies.HistoryIsPassed | services/runtime_policy.go:53-67 | the full history of a source is exactly its calls that were let through |
| RuntimePolicies.LimiterKeepsLimit | services/runtime_policy.go:45-100 | over any run in clock order with a fixed limit, the limiter itself lets through at most that many calls of a source in any window of a minute |
| RuntimePolicies.OccurKeepsExact | httpgateway/server.go:413-442 | every dial, failed open and close keeps the counters equal to the permits held, and drops entries at zero |
| RuntimePolicies.GuardsNeverFire | services/runtime_policy.go:102-117 | a holder's release finds both counters above zero |
| RuntimePolicies.OccurKeepsCaps | services/runtime_policy.go:68-78 | with fixed settings both caps are kept |
| RuntimePolicies.PermitsAreExact | httpgateway/server.go:413-519 | over every run, with connections closed any number of times, counters are exact and caps hold |
| RuntimePolicies.IdleIsExact | services/runtime_policy.go:37-43 | a new policy counts exactly its no permits and is within every cap |
| RuntimePolicies.AllReleasedCountsNothing | services/runtime_policy.go:102-117 | when every connection has been released nothing is counted |
| RuntimePolicies.DialAnswerIff | services/runtime_policy.go:45-79 | each of the four answers of a dial if and only if its own cause: the hits of the last minute, the permits held, those held by the device, or none of these |
| RuntimePolicies.EventsMovePermits | httpgateway/server.go:413-442 | a dial takes a permit exactly when it is granted; a failed open and the end of a close give it back; nothing else moves one |
| RuntimePolicies.RefusedExactlyAtLimit | services/runtime_policy.go:45-79 | over any run in clock order with a fixed limit: a call is refused by the rate limit if and only if that many calls of its source were let through in the minute before |
| RuntimePolicies.OldHitsAreForgotten | services/runtime_policy.go:81-100 | over any run in clock order no source is kept without hits, and no hit that is two minutes old |
| RuntimePolicies.PruneInPlace | services/runtime_policy.go:52-66 | the compaction in the slice's own array keeps exactly the hits in the window, in order |
| RuntimePolicies.RuntimePolicy.SweepSourceHits | services/runtime_policy.go:81-100 | the sweep over the sources, in any order, is the sweep function |
| RuntimePolicies.RuntimePolicy.Acquire | services/runtime_policy.go:45-79 | the method is the specified limiter, state and answer |
| RuntimePolicies.RuntimePolicy.Release | services/runtime_policy.go:102-117 | the method is the specified release |
| Hosts.StoredHostIsFixedPointIff | services/mapping_service.go:246-252 | a stored host is found under its own name if and only if no space is left at its end and no bracket at either end |
| Hosts.StoredHostNeedNotBeFixed | httpgateway/lookup.go:30-36 | two hosts for which this fails |
| Hosts.GatewayFindsName | httpgateway/lookup.go:30-36 | a host written with or without a port, an address in brackets, in any letter case and with space around, is looked up under the bare name |
| Hosts.StoredUnderName | services/mapping_service.go:246-252 | a public host entered with or without a port, in any letter case, is stored under the bare name |
| RouteCache.CacheEqualsSlowPathIff | httpgateway/route_store.go:66-160 | for tables as the writers leave them and every host, the cache gives the mapping, device and decision of the queries if and only if the mapping is not a denied one without a protocol |
| RouteCache.BlankProtocolDiffers | services/access_policy_service.go:115-129 | tables for which the two differ |
| RouteCache.LookupFinds | httpgateway/route_store.go:78-133 | a lookup after a reload finds the one enabled mapping of the host with its device and decision |
| RouteCache.IndexIsQuery | httpgateway/route_store.go:90-110 | the device index gives what the device query finds first |
| RouteCache.RouteComesFromMapping | httpgateway/route_store.go:111-131 | a route is that of the one mapping with its host |
| RouteCache.SelectedIffApplies | services/access_policy_service.go:102-172 | the policies that the query selects are those that apply to the route |
| RouteCache.DecisionsAgree | httpgateway/route_store.go:135-160 | the two decisions agree but for a blank protocol |
| RouteCache.RowOrderDoesNotMatter | httpgateway/route_store.go:78-133 | the order of the rows has no influence |
| RouteCache.RequestFindsRoute | httpgateway/route_store.go:66-133 | a request for a name, however written, gets a route if and only if an enabled HTTP mapping has that name and its device is there and not disabled; it is allowed if and only if no policy about it denies |
| RouteCache.SavedRowIsOKIff | services/mapping_service.go:227-252 | a saved mapping is fit for the cache if and only if it is not enabled or its stored host is found under its own name; it always has a protocol |
| RouteCache.SaveWritesRow | services/mapping_service.go:55-119 | a successful Save writes exactly the requested row, keeps all rows with other guids, and keeps hosts and guids unique |
| RouteCache.SaveMappingKeepsTables | services/mapping_service.go:55-119 | it keeps the tables fit for the cache exactly under that condition |
| RouteCache.SaveSucceedsIff | services/mapping_service.go:55-80 | a Save succeeds if and only if device, host and port are given, the device is there, and no other mapping has the host |
| RouteCache.SavedMappingIsServed | services/mapping_service.go:55-119 | a mapping saved for a name is what a request for that name, however written, is routed to, with the columns asked for and their defaults |
| RouteCache.SavedPolicyDecides | services/access_policy_service.go:49-85 | a saved policy takes part in the decision on exactly the routes it is about |
| RouteCache.SavedPolicyIsOK | services/access_policy_service.go:174-186 | a policy can be saved if and only if it has a name and, unless global, a target; it then has the form that both paths read alike |
| RouteCache.RouteStore.RouteAllowsHTTP | httpgateway/route_store.go:135-144 | the loop over the policies is the conjunction of those that apply |
| RouteCache.RouteStore.Reload | httpgateway/route_store.go:78-133 | three queries and three loops build the snapshot of the tables, and a failed query leaves the old one |
| RouteCache.RouteStore.Find | httpgateway/route_store.go:66-76 | a lookup answers from the current snapshot, and with nothing before the first reload |
| RouteReload.StepKeepsInv | httpgateway/route_store.go:162-200 | while no change is on its way, all that the runner has read is what the tables say |
| RouteReload.QuiescentIsFresh | httpgateway/route_store.go:172-200 | from the first reload at the start on: runner idle, channel empty, no writer before its request, last reload successful: the snapshot is that of the current tables, and every lookup answers as they say |
| RouteReload.FilteredBuild | httpgateway/route_store.go:90-110 | asking only for the wanted devices leaves the snapshot the same |
| RouteReload.RequestStaysHeard | httpgateway/route_store.go:162-170 | a request is not lost: it stays heard until a read of all tables begins |
| RouteReload.RunnerComesToRest | httpgateway/route_store.go:172-200 | each act of the runner leaves it less to do |
| RouteReload.RunnerCanAct | httpgateway/route_store.go:172-200 | while there is work the runner can act |
| RouteReload.UndisturbedReloadPublishes | httpgateway/route_store.go:78-133 | a reload that nothing disturbs publishes the routes of the tables |
| RouteReload.ChangeIsPublished | httpgateway/route_store.go:162-200 | a change committed while the runner is idle is what the snapshot says after its request |
| RouteReload.FailedQueryKeepsSnapshot | httpgateway/route_store.go:79-105 | a query that fails ends the reload and leaves the snapshot |
| Liveness.StepKeepsInv | services/liveness_registry.go:45-176 | every step of touches, persists, forgets and flushes keeps each touch dirty or covered |
| Liveness.NoLostTouch | services/liveness_registry.go:45-61 | in every interleaving a touch not forgotten since is still dirty or covered by a persist at least as new |
| Liveness.NextFlushWritesTouch | services/liveness_registry.go:81-176 | a touch, also one made while an older flush is under way, is written by the next successful flush, with anything interleaved |
| Liveness.TouchMarksDirty | services/liveness_registry.go:45-61 | a touch leaves the device dirty with the newest of its stamps, the clock's if none is given |
| Liveness.PersistedAndForgotten | services/liveness_registry.go:105-124 | a persist takes the device off the registry unless a newer touch has come; a forgotten one is gone |
| Liveness.FlushTakesEffect | services/liveness_registry.go:126-176 | a flush writes exactly the devices that were dirty and are not disabled, and empties the registry; a failed one changes nothing |
| Liveness.NewerTouchSurvivesAck | services/liveness_registry.go:95-103 | an acknowledgement leaves a touch if and only if it is newer than the snapshot |
| Sequences.ChunksPartition | services/liveness_registry.go:145-150 | the batches are the snapshot cut into runs of at most the batch size |
| Liveness.DeviceTable.UpdateSeen | services/liveness_registry.go:138-168 | the batch loop in its transaction updates all of the guids, in these batches, or none |
| Liveness.LivenessRegistry.Touch | services/liveness_registry.go:45-61 | a stamp only rises |
| Liveness.LivenessRegistry.Ack | services/liveness_registry.go:95-103 | the loop drops exactly what is not newer than the snapshot |
| Liveness.LivenessRegistry.MarkPersisted | services/liveness_registry.go:105-111 | an acknowledgement of one device |
| Liveness.LivenessRegistry.ForgetDevice | services/liveness_registry.go:113-124 | the device's entry is dropped |
| Liveness.LivenessRegistry.Flush | services/liveness_registry.go:126-176 | a flush alone sees every dirty device and empties the registry, or changes nothing |
| OfflineAlerts.OneAlertPerOutage | services/device_service.go:954-995 | over every run each device has at most one undeleted offline event since it was last seen |
| OfflineAlerts.ApplyKeepsInv | services/device_service.go:911-995 | every step keeps this |
| OfflineAlerts.ScanAlertsOnce | services/device_service.go:959-990 | a device that a scan alerts then has exactly one event and is not due again |
| OfflineAlerts.SeenDeviceIsSpared | services/device_service.go:911-928 | a device seen at a moment stays safe from every cleaner pass whose cutoff is not later, whatever comes between |
| OfflineAlerts.CleanerSparesTouchedDevice | services/device_service.go:997-1030 | a round spares a device whose touch is in the registry at its flush and is not older than its cutoff, with any steps between flush and marking |
| OfflineAlerts.RoundSparesTouchedDevice | services/device_service.go:997-1030 | a whole round turns no device offline that a heartbeat or a tunnel has touched since its cutoff, whatever happens between and whichever part of the round fails |
| OfflineAlerts.RoundMarksIff | services/device_service.go:1003-1020 | a round turns a device offline if and only if flush and marking succeed and the device, after what the flush wrote, is online and stale |
| OfflineAlerts.HeartbeatIsNoted | services/device_service.go:421-449 | a heartbeat is noted at once, in the row, which makes the device online, or in the registry |
| OfflineAlerts.TouchMakesOnline | services/device_service.go:879-894 | a touch or a registration leaves the device online and seen within fifteen seconds; a touch leaves a disabled one alone |
| OfflineAlerts.AllOnlineGoOffline | services/device_service.go:897-909 | marking all online devices offline does that, and keeps when they were seen |
| OfflineAlerts.DueIff | services/device_service.go:961-976 | a device is due for an alert if and only if it is offline, silent for the delay in row and registry, and without an event from this outage |
| OfflineAlerts.ScanWritesAlerts | services/device_service.go:970-993 | a scan writes the events of the devices it alerts, and no other |
| OfflineAlerts.RoundWritesAlerts | services/device_service.go:1007-1030 | a round writes the alerts of its scan if and only if all its parts succeed |
| OfflineAlerts.OutageComesDue | services/device_service.go:911-968 | a device that a round turns offline is due in its scan if it has been silent for the delay |
| OfflineAlerts.AlertedIff | services/device_service.go:970-976 | of the devices found, those with a guid and without a late touch get an event |
| OfflineAlerts.OfflineCleaner.RecordStaleOfflineEvents | services/device_service.go:954-995 | the loop alerts exactly the found devices that are due, as far as their events can be written |
| TokenCache.MutationKeepsSoundIff | services/device_token_service.go:117-175 | for every mutator: an entry that a row backs stays backed if and only if it survives, a condition on the table before the mutator |
| TokenCache.SoundIffLastMoment | services/device_token_service.go:216-219 | an entry is backed if and only if the table admits its key at every moment before its expiry |
| TokenCache.StepKeepsBackedIff | services/device_token_service.go:38-82 | a step keeps all entries backed, cached or under way, if and only if it is no write that one of them does not survive |
| TokenCache.UndisturbedIsHarmless | services/device_token_service.go:203-237 | a mutator that comes between no validation's read and store, with one handle in use, is harmless |
| TokenCache.BackedIffHarmless | services/device_token_service.go:38-264 | over every interleaving all entries stay backed if and only if every write is harmless when it comes |
| TokenCache.OvertakenIsWrongIff | services/device_token_service.go:203-237 | a validation overtaken by one mutator hits against the table if and only if its entry does not survive the mutator |
| TokenCache.RunKeepsSize | services/device_token_service.go:49-71 | over every interleaving the cache has at most 4096 entries |
| TokenCache.HitAgrees | services/device_token_service.go:203-237 | while all writes are harmless, a hit is an answer that the table gives too, its expiry included |
| TokenCache.HitIsRecent | services/device_token_service.go:229-236 | in every interleaving a hit means that the table admitted the key at some moment of the last two minutes |
| TokenCache.RaceLeavesAStaleHit | services/device_token_service.go:203-237 | a run in which a disabled token hits after the invalidation |
| TokenCache.ReadIsSound | services/device_token_service.go:231-234 | the expiry stored is within two minutes and within the row's |
| TokenCache.MutationDecides | services/device_token_service.go:117-175 | for every mutator, key and moment: whether the key is admitted afterwards, as a condition on the table before |
| TokenCache.CreatedTokenReplaces | services/device_token_service.go:154-174 | a created token is admitted until it expires, a device's first one too, and the one it replaces no longer; one row a device stays one |
| TokenCache.StatusDecides | services/device_token_service.go:117-134 | disabling a token refuses it at once, enabling admits it until it expires |
| TokenCache.OldestRowIsReused | services/device_token_service.go:154-162 | of several rows of a device the oldest is written, and the others stay |
| TokenCache.EntryStaysIff | services/device_token_service.go:38-82 | a cached entry stays until it has ended, is evicted, or its device is invalidated under its handle |
| TokenCache.StoreCaches | services/device_token_service.go:49-71 | a store caches its answer until its expiry, and evicts nothing while there is room |
| TokenCache.ReadPrepares | services/device_token_service.go:216-236 | an admitted read is stored for two minutes or to the end of the token, and notes the use at most every ten minutes |
| TokenCache.ValidationCache.Cached | services/device_token_service.go:38-47 | a hit is an entry that has not expired; another is dropped |
| TokenCache.ValidationCache.DropExpired | services/device_token_service.go:55-62 | the sweep keeps exactly the entries that have not expired |
| TokenCache.ValidationCache.Evict | services/device_token_service.go:63-68 | just enough entries are evicted to make room for one |
| TokenCache.ValidationCache.Store | services/device_token_service.go:49-71 | sweep, eviction and insertion, within 4096 entries |
| TokenCache.ValidationCache.Invalidate | services/device_token_service.go:73-82 | exactly the entries of the device under the handle go |
| TokenCache.DeviceTokenService.Validate | services/device_token_service.go:203-237 | with calls one at a time the answer is the table's, as if there were no cache; a success is cached, and notes the use on the row it found |
| TokenCache.DeviceTokenService.Mutate | services/device_token_service.go:117-175 | a mutator changes the table and leaves every entry backed |
| TokenCache.DeviceTokenService.MutateAndValidate | services/device_token_service.go:117-237 | a validation after a mutator succeeds if and only if the table from before the mutator decides so |
| UpgradeTasks.StepKeepsInv | services/device_upgrade_service.go:98-513 | every service call keeps at most one active task a device, the ranges of progress, and finish times exactly on ended tasks |
| UpgradeTasks.TasksOnlyEvolve | services/device_upgrade_service.go:98-513 | over every run no task is lost, ended tasks never change, none goes back to pending or starts twice |
| UpgradeTasks.UniqueIsTheRequest | services/device_upgrade_service.go:834-846 | the devices of a request are its non-blank trimmed values, without repeats |
| UpgradeTasks.UniqueKeepsOrder | services/device_upgrade_service.go:834-846 | in the order of their first appearance |
| UpgradeTasks.UniqueTrimmedStrings | services/device_upgrade_service.go:834-846 | the loop with its set of seen values computes that |
| UpgradeTasks.BatchCoversRequest | services/device_upgrade_service.go:230-244 | tasks and failures of a batch are together the requested devices, each as often as requested |
| UpgradeTasks.PlanIsBuilt | services/device_upgrade_service.go:230-244 | each task is the one built for its device and each failure gives the reason |
| UpgradeTasks.PickIsTheActiveTask | services/device_upgrade_service.go:401-419 | the task that PendingCommand finds is the device's one active task, and a running one is past its lease |
| UpgradeTasks.LateReportIsFineIff | services/device_upgrade_service.go:464-497 | a report computed from an earlier state of its row keeps the row in order and lets it only evolve if and only if it changes nothing, or the row has not ended and is not started a second time |
| UpgradeTasks.LandingKeepsIff | services/device_upgrade_service.go:98-123 | the same for every write that comes after its reads: reports, refusals of PendingCommand, and new tasks, which need that their devices have no active task by then |
| UpgradeTasks.MixedKeepsIffHarmless | services/device_upgrade_service.go:98-513 | over every interleaving of calls split into reads and writes: one active task a device, ended tasks final, none pending again or started twice, if and only if every write is harmless when it comes |
| UpgradeTasks.LateReportReopens | services/device_upgrade_service.go:464-497 | a write computed before another report ended the task opens it again |
| UpgradeTasks.LateReportStartsAgain | services/device_upgrade_service.go:491-493 | two reports computed while the task was pending start it twice |
| UpgradeTasks.TwoCreatesInterleave | services/device_upgrade_service.go:98-123 | two calls that both look for an active task before either inserts give a device two |
| UpgradeTasks.ReportEvolves | services/device_upgrade_service.go:454-513 | a report keeps its task in order and only lets it evolve |
| UpgradeTasks.ReportTakesEffect | services/device_upgrade_service.go:476-496 | a report leaves its task with the reported state, its start when it first runs, its end when it ends, and progress that is not set back |
| UpgradeTasks.OtherReportsDoNothing | services/device_upgrade_service.go:454-475 | a report without a token, with an unknown state, or of an ended or missing task changes nothing |
| UpgradeTasks.ReportStatus | services/device_upgrade_service.go:761-774 | the words that stand for each state, and no others |
| UpgradeTasks.CreateTakesEffect | services/device_upgrade_service.go:98-123 | a creation gives the device a pending task if and only if device and release exist and fit and it has no active task |
| UpgradeTasks.BuildReadyIff | services/device_upgrade_service.go:519-576 | a task is built if and only if nothing stands against it, with these columns; a refusal names a fact |
| UpgradeTasks.BatchStartsTasks | services/device_upgrade_service.go:208-244 | a batch has a task for exactly those requested devices that are known, online, fit and without an active task |
| UpgradeTasks.BatchIsInserted | services/device_upgrade_service.go:248-250 | all of them are in the table afterwards, beside what was there |
| UpgradeTasks.ActiveTaskIsFound | services/device_upgrade_service.go:401-416 | the query of PendingCommand finds the device's active task exactly if it is pending or silent for fifteen minutes |
| UpgradeTasks.UnfitTaskFails | services/device_upgrade_service.go:421-439 | the task found fails with the reason if and only if its device no longer fits |
| UpgradeTasks.UninterruptedIsTheCall | services/device_upgrade_service.go:98-513 | the calls split into reads and writes are the atomic calls when nothing comes in between |
| UpgradeTasks.UninterruptedBatchIsTheCall | services/device_upgrade_service.go:195-262 | so is a batch |
| UpgradeTasks.ReportProgress | services/device_upgrade_service.go:776-796 | progress is 1 to 99 while running and 100 on success, what was reported in that range, and what it was if nothing was |
| UpgradeTasks.BuildTask | services/device_upgrade_service.go:519-576 | a task is built only for a device without an active one, and is pending and in order |
| UpgradeTasks.DeviceUpgradeService.BuildAll | services/device_upgrade_service.go:208-244 | the loop over the devices makes the plan of the request |
| UpgradeTasks.DeviceUpgradeService.CreateBatch | services/device_upgrade_service.go:174-267 | the plan is inserted whole, or nothing is when no task is ready |
| UpgradeTasks.DeviceUpgradeService.CreateTask | services/device_upgrade_service.go:98-123 | one pending task is inserted, or nothing changes |
| UpgradeTasks.DeviceUpgradeService.PendingCommand | services/device_upgrade_service.go:401-452 | the device's deliverable task is handed out if it fits, and fails if not; there is none if there is no such task |
| UpgradeTasks.DeviceUpgradeService.Report | services/device_upgrade_service.go:454-513 | the report is applied to its task and to no other |
| DeviceTraffic.TrafficIsConserved | services/device_traffic_service.go:38-99 | over any run of samples the sum over a flow's days is the sum of the differences of its consecutive readings, for received, sent and total bytes and for resets |
| DeviceTraffic.DayHoldsItsDifferences | services/device_traffic_service.go:121-154 | each day holds exactly the differences whose later reading falls on it |
| DeviceTraffic.DifferencesTelescope | services/device_traffic_service.go:74-79 | without a reset the sums are last minus first |
| DeviceTraffic.ResetsAreCounted | services/device_traffic_service.go:156-162 | the resets counted are the positions at which one is seen |
| DeviceTraffic.RecordKeepsInv | services/device_traffic_service.go:121-154 | every daily row has non-negative columns, total = received + sent, and no more resets than samples |
| DeviceTraffic.DeltaOf | services/device_traffic_service.go:73-84 | a delta is never negative |
| DeviceTraffic.StateIsLastReading | services/device_traffic_service.go:90-98 | the stored counters are the last accepted reading |
| DeviceTraffic.SampleTakesEffect | services/device_traffic_service.go:38-99 | a sample that carries on adds its difference to its day, another one adds a reset and no bytes, the first of a flow only sets the counters |
| DeviceTraffic.OtherSamplesDoNothing | services/device_traffic_service.go:39-58 | a sample without device or interface, or with a negative counter, changes nothing |
| DeviceTraffic.SteadySamplesAddUp | services/device_traffic_service.go:38-99 | for a device that keeps counting the days add up to what its counters have grown by |
| DeviceTraffic.StoredNameIsFoundIff | services/device_traffic_service.go:164-170 | a stored interface name is found again if and only if the trimmed name is not cut, or not after white space |
| DeviceTraffic.StoredNameNeedNotBeFound | services/device_traffic_service.go:108-110 | a name for which it is not |
| DeviceTraffic.DeviceTrafficService.UpsertDailyDelta | services/device_traffic_service.go:121-154 | a day's row is made or added to |
| DeviceTraffic.DeviceTrafficService.RecordHeartbeatSample | services/device_traffic_service.go:38-99 | the transaction is the recording function |
| CursorPage.PagesAreTheTable | services/pagination.go:26-40 | after f pages the reader has exactly the first f times page-size rows of the table in (time DESC, id DESC) order, whatever comes in above the cursor |
| CursorPage.FetchReads | services/pagination.go:31-38 | a page is the first rows after the cursor, whatever the page number says |
| CursorPage.AfterCursor | services/index.go:29-31 | the rows that pass a row's cursor are what follows it in the listing |
| CursorPage.CursorRoundTrip | services/index.go:25-31 | the decimal time and id of a row are read back as the cursor of that row |
| CursorPage.TimeCursorAgreesIff | services/index.go:33 | a cursor without an id agrees with the full one exactly when no row of the same time is below |
| CursorPage.TimeCursorSkips | services/index.go:33 | two rows of one time in pages of one: without the id the second is never read |
| CursorPage.CursorNeedsTime | services/index.go:21-34 | no time means no cursor, and no id a cursor of the time alone |
| CursorPage.NumberedPagesAreTheTable | services/pagination.go:8-40 | the pages of an unchanged table read by number are the table in its order |
| CursorPage.ParsePage | services/index.go:36-52 | page and size are clamped to at least one and at most the maximum, with 1, 20 and 100 as defaults |
| QueryPattern.SanitisedIsSettled | services/database_metrics.go:297-365 | every result has at most 512 bytes, no digit, no quote, single spaces only, and no white space at its ends |
| QueryPattern.FixedExactlyWhenSettled | services/database_metrics.go:297-365 | the fixed points are exactly the byte strings of that form, so every result is one |
| QueryPattern.LiteralBodyIsForgotten | services/database_metrics.go:307-326 | replacing the body of a terminated literal, doubled quotes respected, does not change the result |
| QueryPattern.TokenBecomesMark | services/database_metrics.go:306-341 | a literal or a number becomes one question mark where it stands, a run of blanks one space, and the text around is kept |
| QueryPattern.LongStatementIsCut | services/database_metrics.go:341-365 | a longer statement with nothing to replace is cut at 512 bytes, or its end replaced by three dots |
| QueryPattern.SkipLiteral | services/database_metrics.go:312-323 | the inner loop stops after the closing quote |
| QueryPattern.SkipNumber | services/database_metrics.go:331-333 | the inner loop stops after the number |
| QueryPattern.SanitizeDatabaseQueryPattern | services/database_metrics.go:297-351 | the nested index-moving loops end and compute the specified pattern |
| QueryPattern.RecentSlow.Record | services/database_metrics.go:208-215 | the ring holds the last 32 of everything recorded |
| QueryPattern.RecentSlow.Snapshot | services/database_metrics.go:157-162 | a snapshot lists them newest first |

## Left out

- Handlers, routers, embedded pages, scripts, mail, archive extraction and the mesh of QUIC, TLS and sockets: only their outcomes appear (success, failure, bytes delivered).
- Progress reports, the idle watch and the waits of a download, and the file names of its cache.
- Item information, activity sinks, `List`, and the closing of control and data channels in the tunnel registry; `Unregister`, `UnregisterQUICControl` and `CloseAll` are actions of the relation and not methods of the class.
- The counters of retries, queue peak and batch time of the access-log writer, its drop reports, and the split of one INSERT into statements.
- RuntimePolicies.RuntimePolicy.SweepSourceHits: the sources' hits are values in the class's map; the compaction in a shared array is shown by `PruneInPlace` alone.
- The cache of runtime settings, the idle timeout, and the session registry's forced closes.
- Overflow of 64-bit counters, and clocks that go back: integers are unbounded, and clocks are taken not to decrease in the order of the steps (`Acquire` reads its clock before it locks).
- Lower-casing of letters outside ASCII: they are left as they are, except the two whose lower case is an ASCII letter.
- Errors of the database on the slow path, where the query of policies answers that access is allowed; soft deletion, and the hooks of the base entity, which is not part of this model.
- Freshness of the route snapshot for writers that do not ask for a reload, and Disable of mappings and policies, which only takes rows out of use.
- The cleaner's closing of connection rows, its notifications, and the default timeouts from settings; a heartbeat's other columns.
- OfflineAlerts.OneAlertPerOutage: heartbeats, flushes, rounds and scans are atomic steps; the flush alone is split in the liveness module.
- UpgradeTasks.TasksOnlyEvolve: service calls are atomic steps there; `MixedKeepsIffHarmless` is about their interleaving, with a batch read at one moment and inserted at another, whatever the isolation of its transaction.
- Messages, versions and platform rules of upgrade tasks, which are an abstract relation; batch summaries, lists and candidates.
- The local calendar of traffic days, an abstract function; concurrent samples of one flow.
- The text of rows and the total count of a page.
- Metrics of database operations other than the pattern and the ring.
