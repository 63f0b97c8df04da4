# Activity pipeline: a verified model

Agents sample the foreground application, compress the samples into heartbeats, keep them in a
durable file and upload them; the server stores each heartbeat once and turns the rows back into
dwell time. This project models that pipeline, and the named-pipe protocol that feeds it in service
mode, and proves what each part and the whole is for. `dafny verify dfyconfig.toml` checks it.

| module | models | in |
|---|---|---|
| `Dwell`, `DwellLaws` | the gap-pairing SQL, against a per-second meaning | `internal/server/query.go` |
| `Timeline` | `bucketByHour`, the dashboard's second implementation | `internal/server/web/app.js` |
| `Heartbeats` | `HeartbeatBuilder` and the sample loop | `internal/agent/heartbeat.go`, `internal/agent/agent.go` |
| `JsonLines`, `BufferFile`, `BufferQueue`, `TornLine` | the buffer file: bytes, class, the queue it refines, and a line torn by a crash | `internal/agent/buffer.go` |
| `Shipper`, `Delivery` | one flush; all interleavings of poller, shipper, network and restarts | `internal/agent/shipper.go`, `internal/agent/agent.go` |
| `Store`, `Ingest` | tables and transactions; requests racing with enrol, revoke, delete | `internal/server/store.go`, `internal/server/ingest.go` |
| `EndToEnd` | samples to query results, over the modules above | the files above |
| `Pipe`, `PipeAccepts`, `PipeWaits` | accept loop, `EnsureSDDL` and readers sharing one mutex; that clients get in; when a stale instance is left waiting | `internal/agent/pipe_windows.go` |
| `Spawner`, `Grants` | the respawn ladder; whose watcher a reconcile sees | `internal/agent/spawn_windows.go` |
| `EventLog` | the event-log line splitter | `internal/agent/eventlog_windows.go` |

`Common`, `Protocol` and `Counting` hold what these share; `Counting.Count(lo, hi, f)` is the number
of integers in [lo, hi) that satisfy f, the measure every dwell theorem is stated in.

How to read it:

- Dwell. Second t belongs to the last heartbeat in the window at or before t and counts while that
  heartbeat is less than 30 s old (`Dwell.Counted`). `Dwell.DwellIsPerSecond` ties the SQL to this
  meaning; the laws of `DwellLaws`, `Timeline` and `Heartbeats` are proved through it. A sequence of
  rows stands for a table with a fixed order among rows of equal `ts`, which SQLite leaves open.
- Buffer. `BufferFile` gives, for any bytes at all, the file after each operation; the methods of
  class `Buffer` compute exactly that, over a disk whose every state between two system calls they record. The descriptor's
  offset is arbitrary after a scan, so that `Append` lands at the end is due to `O_APPEND`.
  `BufferQueue` proves that the bytes stand for a queue of heartbeats.
- Delivery, Ingest, Pipe. Steps are what happens between two points where the mutex (or the
  database) is free. A theorem about `After(steps)` is about every finite interleaving, since a
  step that is not enabled changes nothing.

Where the code and its comments differ, the model follows the code:

- `OpenBuffer` is said to recover offsets (`internal/agent/buffer.go:24`), but both start at 0
  (`internal/agent/buffer.go:32`). So lines acked before a restart are queued again
  (`BufferQueue.OpenRefines`), the server's primary key absorbing them, and bytes found at open are
  not counted until the first rewrite, which the byte bounds carry as `atOpen`.
- `internal/agent/pipe_windows.go:136-144` drops a stale instance left pending; no interleaving
  reaches it (`Pipe.StaleBranchIsDead`).
- `Unacked` scans one line past its limit (`internal/agent/buffer.go:62`), so an over-long line just
  past the batch fails the read (`JsonLines.LongLineAhead`), while an undecodable one there does not
  (`JsonLines.TornTail`).
- Four results are not true without a condition, and the exact condition is proved: a group's
  seconds depend on tie order (`DwellLaws.SettledIffTiesAgree`, and `EndToEnd.ListingsAgreeIff` with
  `EndToEnd.BurstTies` for what the agent sends after a flush made samples queue up), event-log output depends on how
  writes are cut (`EventLog.CuttingIsHarmlessForAllIff`), revoking a device does not stop a
  request already past authentication (`Ingest.RevokedDeviceGainsRowIff`), and a repeated cancel
  gives up on a pipe instance whose connect comes too late (`PipeWaits.LeftWaitingIff`,
  `PipeWaits.GivingUpLeavesStale`).

## Model

| member | source | states |
|---|---|---|
| EndToEnd.QueriesAreNearSamples | internal/agent/agent.go:95-110 | In every reachable state, restarts, crashes, bursts of samples in one second and heartbeats still buffered or dropped included, the server's seconds in any window for any app, category or active flag are those of all samples, short by at most 15 s per gap over 15 s that reaches into the window, 15 s at an open end and 29 s when the window starts after the first sample; and off by at most 30 s either way for each second with a heartbeat not in the table or a tie that disagrees on the group. |
| EndToEnd.TotalsAreNearSamples | internal/agent/agent.go:95-110 | The same for totals: ties do not matter, and they are never more than what was sampled. |
| EndToEnd.QueriesShowWhatWasSampled | internal/agent/agent.go:95-110 | Once the buffer is empty, with no overflow and no heartbeat cut off by a crash, totals are exact up to that shortfall, and so is every group whose ties agree. |
| EndToEnd.ListingsAgreeIff | internal/server/query.go:43 | Then a group has the same seconds in every order the table may be read in if and only if its ties agree. |
| EndToEnd.BurstTies | internal/agent/heartbeat.go:30-38 | Ties happen: two samples a nanosecond apart, of different apps, are both heartbeats; read back the other way round the first app has 30 s where all samples show none. |
| EndToEnd.EmptyBufferMeansStored | internal/agent/shipper.go:43-80 | An empty buffer that never overflowed means the table's payloads are exactly what was appended. |
| Dwell.DwellIsPerSecond | internal/server/query.go:36-52 | For one device, any window and any group, the sum of capped, clipped LEAD gaps equals the number of seconds of the window whose last heartbeat is less than 30 s old and in the group. |
| Dwell.SumSecsCounts | internal/server/query.go:41-52 | The same for rows already filtered to the window: induction over the pairing of each row with its successor. |
| Dwell.RngCounted | internal/server/query.go:37-40 | Filtering to [from, to) changes the owner of no second of the window. |
| Dwell.DwellOfSorted | internal/server/query.go:36-52 | The same for rows of one device in ts order, from which the general statement follows. |
| DwellLaws.TotalIsUnion | internal/server/query.go:36-52 | A device's total is the size of the union of its heartbeats' 30 s intervals inside the window. |
| DwellLaws.TotalDependsOnSet | internal/server/query.go:36-52 | Tables with the same set of rows of a device give it the same total, whatever the insertion or tie order and whatever other devices stored. |
| DwellLaws.SettledIffTiesAgree | internal/server/query.go:43-51 | A group's seconds are the same for every order of the same rows, and for every table with the same set of the device's rows, if and only if the device's rows of equal ts in the window are all in the group or all outside it. |
| DwellLaws.DwellDependsOnSet | internal/server/query.go:43-51 | The sufficient half, as used elsewhere: under that condition two ordered tables with the same rows of the device agree. |
| DwellLaws.TieOrderMatters | internal/server/query.go:43 | The smallest instance of the other half: two rows at one ts give a group 30 s or 0 s. |
| DwellLaws.BackfillRaisesByAtMostCap | internal/server/query.go:36-52 | One late heartbeat raises a total by 0 to 30 s. |
| DwellLaws.LateRowStaysLocal | internal/server/query.go:36-52 | It changes any group only in the 30 s from its own second on, so by -30 to 30 s, if other ties agree. |
| DwellLaws.DwellDiffersNearMarks | internal/server/query.go:36-52 | For any rows missing and any ties: a group changes only within 30 s of a missing row or of a tie that disagrees. |
| DwellLaws.FewerRowsTotalLess | internal/server/query.go:36-52 | With some of a device's rows missing its total is never more. |
| DwellLaws.DwellWithinWindow | internal/server/query.go:46-51 | No group of a device gets more than to - from seconds, nor fewer than 0. |
| DwellLaws.SplitLosesAtMost29 | internal/server/query.go:37-51 | Splitting a window at any mid in [from, to] gains nothing and loses at most 29 s per group. |
| DwellLaws.PiecesLoseAtMost29PerCut | internal/server/query.go:37-51 | Splitting into k pieces loses at most 29(k - 1) s. |
| DwellLaws.SplitLossIsReached | internal/server/query.go:37-51 | The bound of 29 s is reached by a single heartbeat. |
| DwellLaws.FleetIsSumOfDevices | internal/server/query.go:43-61 | The fleet query over interleaved devices is the sum of the per-device queries, for every group. |
| DwellLaws.FleetSplitLosesAtMost29PerDevice | internal/server/query.go:37-61 | Splitting a fleet-wide window loses at most 29 s per device. |
| DwellLaws.GroupsPartition | internal/server/query.go:90-92 | Group sums over the groups present add up to the ungrouped total. |
| DwellLaws.UsageAddsUp | internal/server/query.go:80-126 | Whatever DwellUsage returns, by category or by app, adds up to ActiveRatio's active plus idle seconds. |
| DwellLaws.AlwaysActive | internal/server/query.go:110-121 | A device that was never idle has no idle seconds, and one that was never active no active ones. |
| DwellLaws.DwellUsage | internal/server/query.go:80-107 | For category and for app, one bucket for exactly the groups present, with that group's dwell, largest first; any other group_by is an error. |
| Timeline.BucketByHour | internal/server/web/app.js:566-585 | The loop's map has a bucket for exactly the hours with an event, holding the capped, non-negative gaps of that hour's active and idle events. |
| Timeline.TimelineAgreesWithServer | internal/server/web/app.js:566-585 | For one device with at most 10000 events the buckets sum to ActiveRatio's active and to its idle seconds. |
| Timeline.NoHourExceeds3629 | internal/server/web/app.js:573-582 | No hour, of a device or the fleet, shows more than 3629 s. |
| Timeline.TimelineIsUnion | internal/server/web/app.js:566-585 | What the buckets add up to is the number of seconds in which any event the page was sent is less than 30 s old, each counted once. |
| Timeline.TruncationNeverRaises | internal/server/query.go:131-143 | Buckets of a truncated event list add up to no more than those of the whole window. |
| Timeline.PageSize | internal/server/query.go:131-143 | The page is the first rows of the window, as many as asked for, 1000 when none is asked for, never more than 10000. |
| Timeline.FleetTimelineBetween | internal/server/web/app.js:563-585 | On interleaved fleet events the buckets add up to at most the fleet's dwell, truncated or not, and untruncated to at least every device's. |
| Heartbeats.HeartbeatBuilder.Observe | internal/agent/heartbeat.go:28-39 | Emits exactly on the first poll, an app change, an active flip or a full keep-alive; remembers only what it emitted. |
| Heartbeats.RunSamples | internal/agent/agent.go:91-136 | The loop's heartbeats are the rows of the kept samples, in order, with id and category filled in. |
| Heartbeats.LastKept | internal/agent/heartbeat.go:30-38 | The last heartbeat shows what the last sample saw and is at most 15 s older. |
| Heartbeats.KeptSpaced | internal/agent/heartbeat.go:30-36 | Of two heartbeats in a row from one builder that show the same, the second is at least a keep-alive later. |
| Heartbeats.UnchangedStretchIsSparse | internal/agent/heartbeat.go:30-36 | An unchanged stretch of d ns makes at most 1 + d / keepAlive heartbeats, however often it is polled. |
| Heartbeats.RowShowsSample | internal/agent/heartbeat.go:37-38 | A heartbeat shows the sample's app and active flag and the second it falls in. |
| Heartbeats.CompressionPerSecond | internal/agent/heartbeat.go:28-39 | Second by second: kept heartbeats count only what all samples count, and miss only seconds 15 to 30 s after a sample with no newer one and the first 29 s of a window that starts after the first sample. |
| Heartbeats.CompressionNeverGains | internal/agent/heartbeat.go:28-39 | For any gaps and any window, dwell from heartbeats is at most dwell from all samples, per group. |
| Heartbeats.CompressionLosesOnlyTails | internal/agent/heartbeat.go:28-39 | In any window it falls short by at most 15 s per gap longer than 15 s that reaches into the window, 15 s at an open end, and 29 s when the window starts after the first sample. |
| Heartbeats.HeadLossIsReached | internal/agent/heartbeat.go:28-39 | Those 29 s are reached by three samples without a long gap. |
| Heartbeats.KeptOfRuns | internal/agent/agent.go:57-62 | A stream with a restart gives the heartbeats of two runs, each with a fresh builder; all compression results hold for any restarts. |
| Heartbeats.CompressionIsLossless | internal/agent/heartbeat.go:28-39 | With gaps of at most 15 s and the window ending within 15 s of the last sample the two are equal, for every app, category and active flag. |
| JsonLines.DecodeLines | internal/agent/buffer.go:60-70 | Round trip: reading a file of lines with limit k gives its first k heartbeats in order. |
| JsonLines.MeasureLines | internal/agent/buffer.go:81-85 | Ack's byte count for k lines is exactly the length of the first k lines. |
| JsonLines.TornTail | internal/agent/buffer.go:62-69 | A torn last line fails every read that reaches it and no read that does not. |
| JsonLines.LongLineAhead | internal/agent/buffer.go:62-69 | An over-long line fails every read that comes to it, one whose limit it lies just past included. |
| JsonLines.ScanDropsCR | internal/agent/buffer.go:60-65 | A carriage return before the newline is not part of the line read. |
| JsonLines.AckMiscountsCR | internal/agent/buffer.go:83-85 | For such a line Ack counts one byte too few; the encodings written never end in one. |
| TornLine.TornLineBlocks | internal/agent/buffer.go:37-70 | With a torn line within reach of a batch, after any flushes and appends nothing has been uploaded or taken off the file, every flush fails, and an append is refused if and only if the file is full. |
| BufferFile.ReadEntries | internal/agent/buffer.go:60-69 | Unacked's loop, on any bytes: the decoded lines, or the first error met. |
| BufferFile.MeasureEntries | internal/agent/buffer.go:81-88 | Ack's loop, on any bytes: the bytes of up to k tokens with one for each newline, or the scanner's error. |
| BufferFile.Buffer.Open | internal/agent/buffer.go:27-33 | The file as found, both offsets 0, opened for append. |
| BufferFile.Buffer.Unacked | internal/agent/buffer.go:53-70 | Reads from ackedOff up to the limit; changes only the descriptor's offset. |
| BufferFile.Buffer.Append | internal/agent/buffer.go:37-50 | Rotates when full, then the line is at the end of the file whatever the offset; the disk gets there by system calls, and what a crash may leave after any of them is one of three complete contents. |
| BufferFile.WritesWithoutAppendClobber | internal/agent/buffer.go:24-28 | Why O_APPEND: without it a write after a partial scan overwrites entries. |
| BufferFile.Buffer.Ack | internal/agent/buffer.go:74-94 | Advances by the counted bytes and compacts at half; the disk changes by system calls, and a crash after any leaves the old or the new file. |
| BufferFile.Buffer.Compact | internal/agent/buffer.go:97-103 | Rewrites with what is unacked, or reports the read error and leaves the file as it was. |
| BufferFile.Buffer.Rewrite | internal/agent/buffer.go:110-152 | The new file holds the entries; the disk gets there one system call at a time (truncate, write to the end, sync, rename), and a crash after any of them leaves the complete old or the complete new contents. |
| BufferFile.Buffer.RotateIfFull | internal/agent/buffer.go:155-165 | Keeps the newer half when unacked bytes exceed maxBytes, otherwise changes nothing. |
| BufferQueue.UnackedRefines | internal/agent/buffer.go:53-70 | Unacked(k) returns the first k of the queue, or all if fewer. |
| BufferQueue.AppendRefines | internal/agent/buffer.go:37-50 | Append adds at the tail; overflow first drops the oldest half of the queue and nothing else. |
| BufferQueue.AckRefines | internal/agent/buffer.go:74-94 | Ack(k) removes exactly the first k of the queue, whether or not it compacts. |
| BufferQueue.CompactRefines | internal/agent/buffer.go:97-103 | Compaction keeps the queue if and only if it has at most 1<<30 entries, the limit it reads with. |
| BufferQueue.OpenRefines | internal/agent/buffer.go:27-33 | After a restart the queue is everything in the file, acked lines included. |
| BufferQueue.EveryRunRefinesQueue | internal/agent/buffer.go:24-165 | In every reachable state, restarts included, the bytes are the acked lines then the queue's, ackedOff is on the boundary, ackedOff <= size <= the file's length. |
| BufferQueue.CompactionIsAmortised | internal/agent/buffer.go:89-103 | Compaction rewrites in total no more bytes than were appended and twice those found at opens, less the file's length; on a file empty at open and never reopened no more than were appended. |
| BufferQueue.FileAtMostTwiceUnacked | internal/agent/buffer.go:89-93 | After any Ack of a positive count the file is at most twice its unacked bytes. |
| BufferQueue.OverflowFreesALine | internal/agent/buffer.go:155-164 | Dropping half of an overfull queue frees at least one line's worth of bytes. |
| BufferQueue.OverflowDropsOldest | internal/agent/buffer.go:164 | What overflow keeps is the newer end of the queue, at least half of it, never without the newest. |
| BufferQueue.UnackedBytesBounded | internal/agent/buffer.go:24-50 | With lines of m to M bytes and maxBytes >= 2*M*ceil(M/m), over any run with restarts: unacked bytes never exceed maxBytes + M plus what the last open found, and each restart finds at most 2*(maxBytes + M) more than the open before. |
| BufferQueue.BoundIsReached | internal/agent/buffer.go:32-50 | Three appends and a restart, k times over, reach that bound in every session: unacked bytes grow by maxBytes + M with each restart, without end. |
| Shipper.Shipper.Flush | internal/agent/shipper.go:45-80 | Posts the oldest 500; acks them on status 200 and changes nothing on any other reply. |
| Shipper.FlushesRemove | internal/agent/shipper.go:45-80 | k flushes answered with 200 remove exactly the first k batches. |
| Shipper.FlushesEmptyTheQueue | internal/agent/shipper.go:43-80 | Without appends a queue of n is empty after k such flushes if and only if k >= ceil(n/500). |
| Delivery.FillIsInsertAll | internal/server/store.go:84-116 | The insert used in the interleavings is what the server's transaction does to an enrolled device's rows. |
| Delivery.NextInv | internal/agent/agent.go:98-110 | Every step, crashes included, keeps the refinement of the file, unique ids, the stored payloads and the posted batch at the head of the queue. |
| Delivery.NothingIsLost | internal/agent/agent.go:25-36 | In every interleaving each appended heartbeat is still read from the buffer, is stored with its original payload, or was dropped by overflow. |
| Delivery.StoredOnceAndAsAppended | internal/server/store.go:81-116 | Each id is stored at most once, as appended; every acked heartbeat is stored. |
| Delivery.AckRemovesWhatWasPosted | internal/agent/agent.go:138-156 | At every Ack the posted batch is the head of the queue; Ack removes exactly it, and it is stored. |
| Delivery.FlushDelivers | internal/agent/shipper.go:45-80 | From every reachable state with the mutex free, a flush that is stored and answered takes the oldest 500 off the queue, stored and acked. |
| Delivery.ObservedIsQueued | internal/agent/agent.go:98-110 | A heartbeat observed while the mutex is free is the newest entry a read of the file shows. |
| Delivery.RestartRequeues | internal/agent/buffer.go:27-33 | A restart queues again what was acked but not compacted away, and loses nothing. |
| Delivery.CrashInAckIs | internal/agent/buffer.go:89-103 | A crash inside an Ack leaves the acked entries gone if it came after a compaction's rename, and queued again otherwise. |
| Delivery.WrittenSurvivesCrash | internal/agent/buffer.go:45-49 | A heartbeat whose line was written is the newest entry after a crash. |
| Delivery.OnlyOverflowDrops | internal/agent/buffer.go:155-164 | Nothing counts as dropped but entries of the older half of a full file that an append found full. |
| Store.Store.InsertHeartbeats | internal/server/store.go:84-116 | The whole batch is inserted-or-ignored and last_seen set, or nothing changes. |
| Store.Store.CreateDevice | internal/server/store.go:120-138 | Adds one device under a new id, or fails and changes nothing. |
| Store.Store.DeviceIDByToken | internal/server/store.go:141-156 | A device with that token hash, or unknown, or revoked; no change. |
| Store.Store.RevokeDevice | internal/server/store.go:159-162 | Stamps an existing device as revoked and changes nothing else. |
| Store.Store.DeleteDevice | internal/server/store.go:182-210 | Only a revoked device goes, together with exactly its rows. |
| Store.DeletesRevokedOnly | internal/server/store.go:188-209 | It succeeds if and only if the device exists and is revoked, with each error's exact cause, and then every other device and every other row stays. |
| Store.RevokesOneOnly | internal/server/store.go:159-162 | A revocation changes one column of one device. |
| Store.InsertTouchesLastSeen | internal/server/store.go:112-115 | Of the devices, an insert changes one column of its own. |
| Store.TokenAnswers | internal/server/store.go:141-156 | When no two devices share a token, a lookup has exactly one answer: its device, that it is revoked, or that there is none. |
| Store.EnrolledTokenWorks | internal/server/store.go:120-162 | A new device's token resolves to it and, once it is revoked, to that. |
| Store.FillAdds | internal/server/store.go:97-111 | A batch changes no row already there, leaves every id it brings stored, files each new one under its own device and times, and its count is the number of rows added. |
| Store.FillFailsIff | internal/server/store.go:38-47 | A batch fails if and only if its device is gone and it brings an id not stored; for a missing device nothing is ever added. |
| Store.DeleteSplits | internal/server/store.go:199-201 | Rows before a delete are the rows left and the device's own. |
| Ingest.IngestHandler | internal/server/ingest.go:18-63 | Each refusal's status, and that only a 200 writes: exactly what the transaction does for the authenticated device. |
| Ingest.StatusMeans | internal/server/ingest.go:20-59 | Each status before the insert has exactly one cause. |
| Ingest.BearerIs | internal/server/ingest.go:65-72 | The token is what follows "Bearer " in the header, and there must be some. |
| Ingest.NextInv | internal/server/ingest.go:30-61 | Every enrol, revoke, delete, authentication and insert keeps foreign key, primary key and row accounting. |
| Ingest.TablesStayConsistent | internal/server/store.go:29-47 | In every interleaving each row's device is enrolled, no row of a deleted device exists, and committed accepted counts equal rows present plus rows deleted. |
| Ingest.RowsOfUnrevokedStay | internal/server/store.go:182-210 | In every interleaving, unless a device is revoked no row of it is ever deleted or changed. |
| Ingest.ActiveDeviceIsNotDeleted | internal/server/store.go:196-198 | Enrol, authenticate, insert, delete: device and row are still there. |
| Ingest.RevokedDeviceIsDeleted | internal/server/store.go:199-209 | From every reachable state a revoked device can be deleted, and its rows go with it. |
| Ingest.DeletedDeviceStoresNothing | internal/server/ingest.go:30-61 | A request authenticated before its device was deleted stores nothing. |
| Ingest.RevokedDeviceGainsRowIff | internal/server/ingest.go:30-61 | After a revocation, whatever happens, a step gives the device a row if and only if it inserts, before the device is deleted, news under the right schema version from a request that was past authentication at the revocation. |
| Ingest.OnlyOlderRequestsWait | internal/server/ingest.go:30-43 | From a revocation on no request gets past authentication for the device. |
| Ingest.RevokedDeviceCanStillGain | internal/server/ingest.go:30-61 | Enrol, authenticate, revoke, insert: the revoked device gains a row. |
| Ingest.RevocationDoesNotStopAuthenticated | internal/server/ingest.go:30-61 | The same from any reachable state with such a request waiting. |
| Spawner.Spawner.Reconcile | internal/agent/spawn_windows.go:106-164 | Whether it spawns, whom it grants the pipe, and the ladder after it, in every branch. |
| Spawner.Spawner.ConsumeLadder | internal/agent/spawn_windows.go:178-183 | The next attempt is one ladder step away and the step grows to its cap. |
| Spawner.SpawnsAreSpaced | internal/agent/spawn_windows.go:106-183 | With a clock that never goes back and no watcher seen, n >= 3 spawns span at least 6 + 30(n - 3) s, with token failures anywhere between, from any backoff state. |
| Spawner.SpacingIsReached | internal/agent/spawn_windows.go:155-183 | That span is reached: reconciles at just those times spawn every time. |
| Spawner.FirstFourSpawns | internal/agent/spawn_windows.go:23 | The first four of those times are 0, 1, 6 and 36 s. |
| Spawner.QuietLadderSpawns | internal/agent/spawn_windows.go:155-163 | A reconcile with a session, a token, no watcher and no ladder use in the last 30 s spawns. |
| Spawner.WatcherResetsLadder | internal/agent/spawn_windows.go:150-154 | An attached watcher resets the ladder: its loss is answered at once, and again after one second. |
| Spawner.TokenFailureUsesLadder | internal/agent/spawn_windows.go:121-133 | A failed token call uses the ladder like a spawn: the next one waits a second at least. |
| Spawner.NobodyNothing | internal/agent/spawn_windows.go:107-116 | Without a console session nothing is spawned and no ladder step used. |
| EventLog.EventLogSink.Write | internal/agent/eventlog_windows.go:73-98 | Takes all of p and leaves the sink as draining its complete lines does, capped or latched off. |
| EventLog.DrainReports | internal/agent/eventlog_windows.go:78-93 | One call reports exactly the non-blank lines of what is pending, up to the first failing report. |
| EventLog.ChunkingDoesNotMatter | internal/agent/eventlog_windows.go:73-98 | However a stream without a newline-free run over 64 KiB is cut, the reports are its non-blank lines in order up to the first that fails; all of them for a working reporter. |
| EventLog.KeptIsBounded | internal/agent/eventlog_windows.go:74-96 | Never more than 64 KiB is kept after a call, and after a failure nothing changes any more. |
| EventLog.CuttingIsHarmlessForAllIff | internal/agent/eventlog_windows.go:73-98 | Every cutting of a stream into calls reports the same lines to every reporter if and only if each line over 64 KiB that a newline ends is blank, and so is whatever dropping can leave of it. |
| EventLog.CuttingIsHarmlessIff | internal/agent/eventlog_windows.go:73-98 | The same for one reporter, counting only lines that come before it fails; if it does fail, neighbouring lines must differ and blankness pass to suffixes for a loss to show. |
| EventLog.CuttableReports | internal/agent/eventlog_windows.go:73-98 | One half of it with no proviso at all. |
| EventLog.RepeatHidesLoss | internal/agent/eventlog_windows.go:88-96 | Why the proviso: for a reporter that fails at once, a lost line before a line of the same text is never missed. |
| EventLog.LongRunIsLostWhenCut | internal/agent/eventlog_windows.go:94-96 | The smallest loss: a long line written whole is reported, cut before its newline it is not. |
| Pipe.NextInv | internal/agent/pipe_windows.go:62-281 | Every step of every goroutine keeps the protocol's invariant. |
| Pipe.ClientMatchesDacl | internal/agent/pipe_windows.go:228-243 | connected if and only if a client is attached, and its instance was created under the current DACL. |
| Pipe.NewestWins | internal/agent/pipe_windows.go:228-244 | A client that connected is attached, with a reader, on the loop's own handle, and the one before it closed; unless the DACL changed meanwhile: then its instance is closed and nothing else changes. |
| PipeAccepts.NextClientIsLetIn | internal/agent/pipe_windows.go:127-245 | From every reachable state at the head of the loop an instance is posted under the DACL in force, and a client that connects to it ends up attached, any other closed. |
| PipeAccepts.SwitchedUserIsLetIn | internal/agent/pipe_windows.go:62-245 | Granting another user ends the loop's wait, and the next client is let in under a DACL that names the new user. |
| PipeAccepts.FailedCreateIsRetried | internal/agent/pipe_windows.go:147-154 | An instance that cannot be created delays the next client and nothing else. |
| Pipe.GrantDropsOthers | internal/agent/pipe_windows.go:62-82 | A grant to somebody new closes the attached client and leaves no wait uncancelled; a grant to the same user or to nobody changes nothing. |
| Pipe.SddlNamesUser | internal/agent/pipe_windows.go:66 | Two users have different DACLs. |
| Pipe.CancelsHitThePendingInstance | internal/agent/pipe_windows.go:92-107 | Every repeated cancel hits the still open pending instance the caller captured, even if handle values are reused. |
| Pipe.StaleInstanceIsBeingCancelled | internal/agent/pipe_windows.go:62-107 | An instance waiting under an old DACL has a caller cancelling it, unless a caller used up its 100 tries on it. |
| PipeWaits.LeftWaitingIff | internal/agent/pipe_windows.go:84-107 | When nobody is cancelling it any more, it is left waiting if and only if its connect was issued after at least 100 cancels and neither a cancel nor a result came since. |
| PipeWaits.WaitsIffLastIssued | internal/agent/pipe_windows.go:171-193 | In every run, a pending instance waits if and only if its connect was issued after every cancel and has no result. |
| PipeWaits.OneCancelSettles | internal/agent/pipe_windows.go:84-107 | One cancel that finds the connect issued is enough: that instance never waits again, whatever follows. |
| PipeWaits.GivingUpLeavesStale | internal/agent/pipe_windows.go:97-106 | The failing run: all 100 cancels come before the connect is issued; the instance then waits under the old DACL, nobody cancels it, and granting the same user again does nothing. |
| Pipe.SupersededReaderIsHarmless | internal/agent/pipe_windows.go:257-266 | A superseded reader's deferred function changes neither the newer client's state nor any open handle. |
| Pipe.LateCloseIsHarmless | internal/agent/pipe_windows.go:258-266 | Whatever runs between a reader's unlock and its Close, a newer client's arrival included, the Close clears no state, spares the accept loop's handle, and leaves every other open file its own instance. |
| Pipe.HandlesAreAccountedFor | internal/agent/pipe_windows.go:112-245 | Every open handle has an owner, the accept loop's own handle is open, and none is left after Serve and its readers end. |
| Pipe.StaleBranchIsDead | internal/agent/pipe_windows.go:136-144 | At the head of the loop nothing is ever pending. |
| Pipe.ClientIsOfGrantedUser | internal/agent/pipe_windows.go:62-82 | After a grant, while no other user is granted, an attached client came in under the DACL of the user granted and of no other. |
| Grants.SeenWatcherIsTheSessionUsers | internal/agent/spawn_windows.go:134-154 | A watcher that a reconcile sees attached came in under the DACL of the session's user, whom it has just granted the pipe, and of no other user. |

## Left out

- Win32, service control, process launch, registry, installer: foreign calls; pipe connects, cancels and closes are steps with any outcome.
- JSON, UUIDs, token hashing, HTTP, headers: library behaviour. A codec is assumed to round-trip, to write no raw newline (RFC 8259, section 7) and no trailing carriage return, and to keep lines under the scanner's 64 KiB (`JsonLines.Good`); heartbeat ids are assumed unique (RFC 9562, section 5.4) and so are device ids.
- SQLite: tables are maps and a transaction is one step; WAL, timeouts, indexes and failures inside a transaction other than the foreign key are not modelled. ListEvents' loop over its result set is taken as the result set.
- Categorize, Recategorize and pattern matching: category is any fixed function of app.
- Integers are unbounded: overflow of int64 seconds, byte counts or the 64-bit pendingGen is not modelled. ActiveRatio's floating-point ratio is left out; its seconds are modelled.
- I/O errors of the buffer file (failed write, sync, rename, reopen): an agent that hits one is taken to be restarted. One line append is atomic under a crash; JsonLines.TornTail and TornLine.TornLineBlocks say what a torn line would do.
- Heartbeats.RunSamples: the channel is a finite sequence and shutdown is its end; in the dwell theorems the clock does not go back, restarts or not.
- BufferQueue.EveryRunRefinesQueue: and the other run theorems of BufferQueue, Delivery and EndToEnd are for runs, of any length, at no point of which the file has more than 1<<30 entries, the limit compact and rotateIfFull read with; BufferQueue.CompactRefines shows entries are lost beyond it.
- BufferQueue.UnackedBytesBounded: carries the bytes found at the last open, which the code does not count (see above); on a file empty at open and never reopened it is the plain bound, and BufferQueue.BoundIsReached shows that term is needed. That each restart can add as much as 2*(maxBytes + M) is an upper bound; a growth of maxBytes + M is shown.
- Delivery.NothingIsLost: one enrolled device and a server that keeps its rows; deletion of the device is in Ingest. Batches fit the 1 MiB request cap of `internal/server/ingest.go:14`.
- Delivery, Ingest and Pipe: state machines over values, since what they model is interleaving and not one goroutine's updates; the class methods they are built from are in Buffer, Shipper and Store.
- Pipe.HandlesAreAccountedFor: makes no claim about the connect goroutine that may still be inside its call when shutdown closes the instance (`internal/agent/pipe_windows.go:196-203`); decoding and publishing of samples in readClient are not modelled.
- Spawner.Spawner.Reconcile: the log lines and the flags hadSession, hadWatcher and lastErrLog that only steer them are not modelled; the two token calls fail as one.
- EventLog.CuttingIsHarmlessIff: for a reporter that fails, the necessary half is proved when neighbouring lines differ and every suffix of a blank line is blank; strings.TrimSpace has the latter for ASCII white space but not for a multi-byte space cut in the middle. EventLog.CuttingIsHarmlessForAllIff needs neither.
- Timing of flushes (NextInterval), renaming and listing devices, API keys, deviceStatus, parseWindow, the remaining user interface: each is settled by reading one function.
