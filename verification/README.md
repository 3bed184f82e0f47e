# Verification of the caching download proxy

A Dafny model of the parts of the proxy where bytes can go wrong: the parallel segmented download and its
streaming readers, the token bucket and the throttled stream, request coalescing, the disk cache with its
freshness rules, URL aliasing, and the directory totals of the cache listing. `dafny verify dfyconfig.toml`
checks everything.

## How the model is built

**Download.** `Segments` holds the shared buffer as a value with one function per atomic access.
`DownloadSystem` is a step system over it: every worker has a program counter, the supervising task has its
own, and each choice of the environment (scheduling, status codes, chunk boundaries, short writes, segment
sizes, edits of the upstream file) is a parameter of an action. A run is any sequence of enabled actions. The
compare-and-swap of a claim and the push of its segment are two steps, and so are the two halves of publishing
a segment, and taking a worker's result and reading the count of active workers. `DownloadInvariant` proves
the invariant, `DownloadTheorems` what follows from it, `DownloadProgress` that no state is a dead end,
`FatalVerdict` when a fatal error reaches the caller, and `DownloadWitness` shows runs that do happen.
`DownloadWorker` and `DownloadSupervisor` are the source's loops as imperative code: a ghost field holds the
state of the step system, it moves only by enabled actions, and wherever the source can be preempted `Yield`
or `Pause` lets everybody else do anything the step system allows.

**Readers.** `BufferStream` adds a reader to the step system and keeps, as history, the file offset of every
byte handed out. `StreamTheorems` says what readers hand out, `StreamWitness` shows where that goes wrong, and
`BufferReader` is the reader's loop as a class.

**Throttling.** `TokenBuckets` has the bucket as a value, all interleavings of its two-step refill with any
number of consumers, and the class. `ThrottledStream` has one poll as a function of an arbitrary environment,
and the class. `PacedStreams` puts any number of such streams on one bucket.

**Coalescing.** `Coalescing` has the tables as a value, with removing an entry and recording why as two steps;
`CoalescingLimits` says where its promises end, `CoalescerClass` is the class, `RetryLoop` the loop around it.

**Cache, freshness, aliases, tree.** `DiskCache`, `Freshness`, `UrlAlias`, `PathTree`; the classes are `Cache`
and `TreeNode`. One call is one step. `EndToEnd` joins the download and the cache.

## What the model assumes

- A 200 or 206 body is cut from the version of the file that upstream held when it answered, from the first
  byte or from the start of the requested range. It may be short, long, cut anywhere, or break off.
- A server that honours If-Match answers 200 or 206 only while the tag matches (section 3.1 of RFC 7232), and a
  strong tag names one sequence of bytes.
- The results about runs that must be possible take it that the version HEAD saw has at least the announced size.
- Workers do not panic. Integers are unbounded; where 64-bit casts or wrap-around matter they are written out.
- In the cache, URL hashing is injective and database and file calls succeed.
- The ghost fields of the classes (`world`, `cfg`, `taken`, `delivered`, `leaders`, `follows`, `owner`, `recorded`,
  `start`, `moves`, `st`) are history; they have no counterpart in the source.

## What does not hold in general

Each of these comes with the exact condition under which it does, or with a run that shows it.

- A reader can hand out wrong bytes without any error: two pushes can overtake each other, and it reads segments
  in the order of the pushes (`StreamWitness.OvertakingPushesMixTheStream`, `StreamTheorems.PrefixIffReachedInOrder`,
  `StreamTheorems.InOrderIffFileOrder`).
- A reader can end without an error short of the file: between a claim and its push the range is in no segment,
  while `all_completed` can already hold (`StreamWitness.StreamCanEndEarly`, `StreamTheorems.CompleteIffSettled`).
- A failed positional read skips the rest of its segment without an error (`StreamWitness.FailedReadIsSilent`,
  `StreamTheorems.CompleteIffSettled`).
- Without a strong tag or without a server that honours it, a successful download can be of another version than
  the one HEAD saw (`DownloadWitness.PinningIsExact`).
- A worker that was told 412 can still lead to `BufferFailed`, unless there is at most one connection or the first
  claim takes the whole file (`FatalVerdict.ReportedIffOneJobOnly`).
- A bucket configured above 10^9 bytes per second never refills (`TokenBuckets.RefillsExactlyInRange`).
- A bucket asked more often than once per token interval gains nothing: a refill that rounds down to no token still
  moves the clock (`TokenBuckets.ImpatienceStarves`).
- `wait_consume` is never granted if its batch exceeds the burst size, or if the bucket never refills and does not
  hold everything already (`TokenBuckets.GrantableIffBatchFits`).
- `wait_time_nanos` is too short exactly when its product wraps (`TokenBuckets.TokenBucket.WaitTimeNanos`).
- With a full table the coalescer makes second leaders (`CoalescingLimits.SecondLeaderExactlyWhenFull`), and a
  leader that returns early blocks its URL (`CoalescingLimits.AbandonedUrlIsStuck`).
- A follower can be woken before the reason of the failure is recorded, and then reads an older one
  (`CoalescingLimits.StaleReason`, `CoalescingLimits.WokenFollowerReadsRightIff`).
- A just stored entry can be evicted at once if others carry the same second (`DiskCache.SurvivesIffRecentEntriesFit`).
- `time_until_expiry` disagrees with `is_fresh` for lifetimes of 2^63 seconds and more
  (`Freshness.FreshIffTimeLeft`, `Freshness.StaleWithTimeLeft`).
- An alias does not come back if an earlier map's base is comparable to its own (`UrlAlias.RoundTripIffIncomparable`).
- The directory mark of a path that is both a file and a directory depends on the order of insertion
  (`PathTree.DirMarkIsStableIff`).

## Model

| member | source | states |
|---|---|---|
| DownloadTheorems.ExactlyOneClaimant | src/buffer.rs:80-113 | In every reachable state each offset below `next_unassigned` belongs to exactly one registered segment or one claim not yet pushed, every other offset to none, and `next_unassigned` stays within the file. |
| DownloadTheorems.IdsAreExclusive | src/buffer.rs:99-110 | Two workers never hold the same id; an id indexes its holder's own range, and the ranges held are disjoint. |
| DownloadTheorems.ReadyCountNeverAhead | src/buffer.rs:132-140 | `ready_count` never exceeds the number of ready segments. |
| DownloadTheorems.WritesStayInside | src/downloader.rs:427-456 | No step changes a byte on disk except a worker's own write, and only inside the range it claimed. |
| DownloadTheorems.ReadyIsForever | src/buffer.rs:132-152 | Once ready, a segment keeps its bounds, state and bytes for the rest of the run. |
| DownloadTheorems.ReadyIsOneGeneration | src/downloader.rs:300-510 | A ready segment is the matching slice of one version of the upstream file, over all retries and edits; of the version HEAD saw when that is pinned or upstream is frozen. |
| DownloadTheorems.OkMeansWholeFile | src/downloader.rs:248-254 | When the verdict is Ok and the version is pinned, all bytes on disk equal the upstream file. |
| DownloadTheorems.OkIffNoWorkerFailed | src/downloader.rs:184-254 | The verdict is Ok exactly when there is a connection and every worker exited without an error. |
| DownloadTheorems.ErrorsComeFromWorkers | src/downloader.rs:213-219 | An error verdict is BufferFailed, or RangeUnsupported or EtagChanged as some worker returned it; no other worker error is ever reported. |
| DownloadTheorems.TakenInSelectLoop | src/downloader.rs:206-219 | A result taken in the select loop ends the download with that result, and cancels the others, if and only if it is RangeUnsupported or EtagChanged. |
| DownloadTheorems.SelectLoopEnds | src/downloader.rs:213-233 | After any other result the select loop is left if and only if no worker is at work. |
| DownloadTheorems.CancelledIffError | src/downloader.rs:213-254 | Over any run the workers are told to stop exactly when the verdict is an error. |
| DownloadTheorems.ReadySignalAddsWorker | src/downloader.rs:184-204 | A ready signal adds one worker with an initial segment of 1 MiB, up to the number of connections, and touches no other. |
| DownloadTheorems.HardFailures | src/downloader.rs:297-508 | Transient failures apart, a worker stops with an error exactly on a permanent send or body error, a refused write, cancellation, 412, a 200 for part of the file, or another status, each with its own error. |
| DownloadTheorems.WeakTagsAreNotSent | src/downloader.rs:33-36 | A tag marked weak, in either spelling, is never sent with If-Match; a quoted one is. |
| DownloadTheorems.WorkBound | src/downloader.rs:269-297 | At most ceil(total / 64 KiB) segments, at most four requests for each, whatever sizes the speed estimate picks. |
| DownloadTheorems.GivesUpOnFourthFailure | src/downloader.rs:297-508 | A transient failure ends the worker, with the error of its kind, if and only if it was the fourth request for the segment; otherwise the same range is requested again. |
| DownloadInvariant.VerdictCorrect | src/buffer.rs:188-194 | Once every worker has exited, the counters alone tell whether all succeeded. |
| DownloadInvariant.InvStep | src/downloader.rs:133-548 | Every step of any worker, the supervisor or upstream keeps the invariant. |
| DownloadWitness.SoloDownload | src/downloader.rs:257-548 | With a connection, a download of a file of any size can end with Ok, whatever the server and its tags. |
| DownloadProgress.VerdictIsAlwaysInReach | src/downloader.rs:184-254 | From every reachable state some continuation reaches a verdict, without help from the server. |
| DownloadWitness.PinningIsExact | src/downloader.rs:33-36 | Every successful download is the file HEAD saw if and only if upstream is frozen or a strong tag is sent to a server that honours it. |
| FatalVerdict.ReportedIffOneJobOnly | src/downloader.rs:206-254 | In every run a worker that returned RangeUnsupported or EtagChanged leads to one of these as verdict, if and only if there is at most one connection or the first claim takes the whole file. |
| FatalVerdict.FatalErrorIsTheVerdict | src/downloader.rs:206-254 | With at most one connection, or when the first claim takes the whole file, a worker that stopped with either error gives exactly that verdict. |
| FatalVerdict.EtagChangeCanBeMasked | src/downloader.rs:226-254 | Otherwise, after any admissible edit of upstream, a run in which a worker returns EtagChanged and the verdict is BufferFailed. |
| FatalVerdict.MaskedAfterEdit | src/downloader.rs:307-344 | So also with a strong tag that is sent to a server that honours it, after upstream got another tag. |
| DownloadWorker.NextSegmentSize | src/downloader.rs:38-44 | Two seconds' worth rounded down, held within [64 KiB, 4 MiB]; 1 MiB for a speed that is not positive. |
| DownloadWorker.SegmentsBuffer.constructor | src/buffer.rs:39-55 | A new buffer with one worker about to start is an initial state of the step system. |
| DownloadWorker.SegmentsBuffer.ClaimRange | src/buffer.rs:80-113 | The compare-and-swap loop ends under any interference; it returns a range of the preferred size, or the end of the file, registered under the returned id, or nothing with `all_assigned` set. A preferred size of zero returns nothing and at most sets `all_assigned`. |
| DownloadWorker.SegmentsBuffer.WriteData | src/buffer.rs:115-126 | Any sequence of short writes puts the whole chunk at its place or fails with an I/O error. |
| DownloadWorker.SegmentsBuffer.MarkReady | src/buffer.rs:132-140 | The segment is ready and counted, with others running in between. |
| DownloadWorker.SegmentsBuffer.AllCompletedNow | src/buffer.rs:188-194 | True exactly when everything is assigned and counted. |
| DownloadWorker.SegmentsBuffer.WriteChunk | src/downloader.rs:428-451 | What fits the range goes to disk at the current offset, the rest of the chunk is dropped. |
| DownloadWorker.SegmentsBuffer.ReadBody | src/downloader.rs:391-510 | A body that fills the range completes the attempt; otherwise it is retried while the retry count allows, and given up only on the last attempt, after cancellation, a refused write, or a body broken off for good. |
| DownloadWorker.SegmentsBuffer.OnResponse | src/downloader.rs:337-376 | 412 gives EtagChanged, any status but 200 and 206 HttpStatus, a 200 for part of the file RangeUnsupported; otherwise the body decides. |
| DownloadWorker.SegmentsBuffer.FetchRange | src/downloader.rs:297-517 | Ok means this very range has been received, with at most four requests; an error is the worker's result. |
| DownloadWorker.SegmentsBuffer.DownloadWorker | src/downloader.rs:257-548 | The claim loop ends under any interference; Ok means everything is assigned. |
| DownloadWorker.SegmentsBuffer.SpawnedWorker | src/downloader.rs:110-129 | The task ends with the worker's result and no longer counts as active. |
| DownloadWorker.OthersLeaveWorkerAlone | src/buffer.rs:94-98 | While a worker is preempted its own standing is untouched and `next_unassigned` only grows. |
| DownloadSupervisor.Supervisor.Supervise | src/downloader.rs:184-233 | The select loop ends in the draining state, or with RangeUnsupported or EtagChanged as verdict and the workers cancelled, unless its bound of turns runs out. |
| DownloadSupervisor.Supervisor.Drain | src/downloader.rs:236-254 | After the last result the verdict is read off the counters, unless its bound of turns runs out. |
| DownloadSupervisor.Supervisor.DownloadMultithreaded | src/downloader.rs:133-254 | If it returns within its bound of turns: Ok exactly if there was a connection and every worker succeeded, and then the file is upstream's when the version is pinned. An error is BufferFailed, RangeUnsupported or EtagChanged, with the workers cancelled; where one worker does all the work the last two are never turned into BufferFailed. |
| BufferStream.OrderedIdsIffOrderedPushes | src/buffer.rs:95-110 | Segment ids are in file order if and only if every push registers the oldest claim pending. |
| StreamTheorems.PrefixIffReachedInOrder | src/proxy.rs:1048-1065 | As long as no read failed, a reader hands out the offsets of the file in order from 0 on if and only if the segments it has read from are in file order; then, with a pinned version, its bytes are a prefix of the upstream file, however short the reads. |
| StreamTheorems.CompleteIffSettled | src/proxy.rs:1023-1033 | A reader about to end normally has handed out as many bytes as the file has if and only if no claim is unpushed, no segment was added since it counted them, and no read failed; it never hands out more. |
| StreamTheorems.InOrderIffFileOrder | src/proxy.rs:1023-1033 | It has handed out every offset once and in order if and only if, besides, the segments are in file order; then, with a pinned version, the bytes are the file. |
| StreamTheorems.UndividedReaderGetsWholeFile | src/proxy.rs:1010-1071 | When claim and push, and the two halves of the end test, are not divided, no read failed and the version is pinned, a reader hands out a prefix, and the whole file if it ends normally. |
| StreamTheorems.NothingAfterError | src/proxy.rs:1012-1021 | After it reported a failure a reader hands out nothing and its next move is to end. |
| StreamTheorems.FailureIsReportedAtOnce | src/proxy.rs:1012-1021 | Once the download has failed, the reader's moves from the top of its loop are fixed whatever the others do: the first reports the failure, the second ends the stream, and no byte is handed out. |
| StreamTheorems.FailureEndsTheStream | src/proxy.rs:1012-1071 | Wherever the reader stands at the failure, its fourth move at the latest ends the stream, and only a read already begun still hands out bytes. |
| StreamTheorems.EndsForAReason | src/proxy.rs:1012-1033 | A stream ends only after a reported failure or after the reader found something registered and everything assigned and counted. |
| StreamTheorems.EmptyFileNeverEnds | src/proxy.rs:1024-1031 | A reader of an empty file never ends without a failure. |
| StreamWitness.StreamCanEndEarly | src/proxy.rs:1023-1033 | A run with two workers in which a reader ends normally after the first of two segments. |
| StreamWitness.OvertakingPushesMixTheStream | src/buffer.rs:95-109 | A run with a pinned version in which a reader hands out bytes that are no prefix of the file, with no error and no failed read. |
| StreamWitness.FailedReadIsSilent | src/proxy.rs:1055-1068 | For every file a run in which a read fails and the reader ends normally, short of the file. |
| StreamWitness.FinishedDownloadCanBeRead | src/proxy.rs:1009-1071 | After a successful download of a pinned version with ids in file order, a reader can hand out the whole file and end. |
| BufferReader.StreamReader.Next | src/proxy.rs:1009-1071 | Each call appends a non-empty piece, reports the failure once, ends, or runs out of turns. If the download has failed before the call, the failure is the item unless it was reported, and then the end is. Under any interference what was handed out is a prefix while the segments read are in order and no read failed. |
| BufferReader.StreamReader.Serve | src/proxy.rs:1035-1068 | Reads on from a ready segment, or goes to the next one, as a step of the watched system. |
| BufferReader.StreamReader.TestEnd | src/proxy.rs:1023-1033 | The end exactly if something is registered and everything is assigned and counted, with others running between the two halves. |
| TokenBuckets.TokensAreConserved | src/rate_limit.rs:149-178 | Over all interleavings and any clock, tokens + consumed + in flight + discarded = burst + credited, and consumption is at most the burst plus one token per rate interval on the clock. |
| TokenBuckets.DepositFits | src/rate_limit.rs:168-169 | If twice the burst fits 64 bits, the sum formed by a deposit does. |
| TokenBuckets.TryConsumeIsARun | src/rate_limit.rs:70-90 | An uninterrupted `try_consume` is one of those runs. |
| TokenBuckets.WindowBound | src/rate_limit.rs:70-90 | With a clock that does not go back, any window lets through at most the burst plus the window's refill. |
| TokenBuckets.RateWithinTwice | src/rate_limit.rs:45-46 | For 1 to 10^9 per second the rounded rate is below twice the configured one. |
| TokenBuckets.GrantIffSaved | src/rate_limit.rs:45-90 | For 1 to 10^9 per second, a bucket left alone grants an amount if and only if it fits the burst and what was held plus one token per whole interval; and whenever the configured rate has saved up for it. |
| TokenBuckets.ImpatienceStarves | src/rate_limit.rs:149-166 | A bucket asked again each time before one interval is over grants only what it held, however long that goes on. |
| TokenBuckets.RefillsExactlyInRange | src/rate_limit.rs:45-55 | For every burst of 64 bits: the bucket never lets more than its burst through if and only if the burst is 0, or the rate is 0 or above 10^9 per second and the bucket does not count as unlimited. |
| TokenBuckets.GrantableIffBatchFits | src/rate_limit.rs:124-145 | A wait can be granted if and only if the bucket is unlimited, or refills and one batch of at most 64 KiB fits the burst, or does not refill and holds everything already. |
| TokenBuckets.WaitIsCancelledAt | src/rate_limit.rs:124-145 | A wait ends at the first turn that finds the cancellation, with what was taken before, unless it was granted before; the first attempt does not look. |
| TokenBuckets.TurnsOfAWait | src/rate_limit.rs:124-145 | The first attempt asks for everything whether cancelled or not; each later turn asks for 64 KiB or the rest, all or nothing. |
| TokenBuckets.TokenBucket.Refill | src/rate_limit.rs:149-178 | The bucket after a refill. |
| TokenBuckets.TokenBucket.Take | src/rate_limit.rs:70-90 | Takes exactly the amount or nothing, after a refill. |
| TokenBuckets.TokenBucket.Available | src/rate_limit.rs:93-101 | The tokens after a refill. |
| TokenBuckets.TokenBucket.WaitTimeNanos | src/rate_limit.rs:110-120 | After the returned wait the amount is there, if it fits the burst and nobody else takes any, exactly when the product does not wrap at 64 bits. |
| TokenBuckets.TokenBucket.WaitConsume | src/rate_limit.rs:124-145 | Granted means that exactly the bytes asked for were taken, anything else that fewer were. |
| ThrottledStream.Pieces | src/proxy.rs:518-534 | Splitting keeps the bytes in order, every piece but the last as large as the burst and none empty. |
| ThrottledStream.PollKeeps | src/proxy.rs:559-641 | Every poll in every environment keeps order and content, delivers at most a burst and nothing unpaid, ends at once when cancelled, does nothing while its timer runs, polls the inner stream only with nothing queued, ends otherwise only when all is delivered, and answers Pending only with a timer armed or the inner stream pending. |
| ThrottledStream.PollPassesOn | src/proxy.rs:559-641 | What is queued and paid for is delivered unless a timer is still running, and the inner stream's other answers are passed on. |
| ThrottledStream.BytesInOrder | src/proxy.rs:518-641 | Over any run, bytes delivered followed by bytes queued are the bytes taken from the inner stream. |
| ThrottledStream.ThrottledPermitStream.EnqueueChunk | src/proxy.rs:518-534 | The splitting loop appends those pieces. |
| ThrottledStream.ThrottledPermitStream.TryDeliverFront | src/proxy.rs:536-550 | Delivers the front of the queue exactly if it is paid for. |
| ThrottledStream.ThrottledPermitStream.SetTimer | src/proxy.rs:645-660 | Arms a timer exactly if there is a bucket and something queued. |
| ThrottledStream.ThrottledPermitStream.PollNext | src/proxy.rs:559-641 | The source's control flow is that poll and keeps its guarantees. |
| PacedStreams.HandsOutWhatWasGranted | src/proxy.rs:536-641 | A poll hands out exactly what it asked the bucket for, if that was granted, and otherwise nothing. |
| PacedStreams.SharedBucketPaces | src/proxy.rs:665-671 | However many response bodies share one bucket, and whatever their inner streams, timers and clients do, in any window they hand out at most one burst and the window's refill, which is less than twice the configured rate. |
| Coalescing.OneLiveLeader | src/coalescer.rs:45-65 | In every run below capacity that follows the proxy's order, no URL has two live leaders. |
| Coalescing.ReceiversFollowTheirLeader | src/coalescer.rs:67-92 | Every receiver is waiting, sent its leader's buffer, or dropped, and its leader's record says which; one that waits is listed exactly once. |
| Coalescing.RolesAreExact | src/coalescer.rs:45-65 | A request leads exactly if nobody leads or blocks its URL, and joins a buffer exactly if that is the live leader's. |
| Coalescing.FollowersShareTheUrl | src/coalescer.rs:57-61 | A new follower has a channel of its own and a leader of the same URL that holds the entry. |
| CoalescingLimits.SecondLeaderExactlyWhenFull | src/coalescer.rs:48-50 | A registration leaves one leader per URL if and only if the table is not full or the URL has no live leader. |
| CoalescingLimits.TwoLeadersAtCapacity | src/coalescer.rs:48-50 | A reachable full table and a URL that then gets a second leader. |
| CoalescingLimits.SecondAttachFreesUrl | src/coalescer.rs:67-75 | A leader that attached a second buffer would free its URL: the next request leads as well. |
| CoalescingLimits.AbandonedUrlIsStuck | src/proxy.rs:776-842 | After a leader returned early, in any run, the URL gets another leader if and only if it is registered while the table is full; otherwise every registration follows, and whoever follows waits. |
| CoalescingLimits.UrlCanGetStuck | src/proxy.rs:776-842 | Two events lead to such a table. |
| CoalescingLimits.WokenFollowerReadsRightIff | src/coalescer.rs:77-99 | A follower whose sender was dropped reads the reason of its own leader's failure if and only if the last leader of the URL to record one had the same reason; so it does once its own leader has recorded last. |
| CoalescingLimits.StaleReason | src/coalescer.rs:85-91 | A reachable table in which a follower is dropped by a changed upstream and reads that nothing changed. |
| CoalescerClass.Coalescer.Register | src/coalescer.rs:45-65 | The new table and role, for any table; a table in order stays so exactly below capacity. |
| CoalescerClass.Coalescer.AttachBuffer | src/coalescer.rs:67-75 | All waiting receivers get the buffer and the entry becomes a download. |
| CoalescerClass.Coalescer.Complete | src/coalescer.rs:77-80 | First the entry goes and waiting receivers are dropped, then, with anything in between, the failure mark goes. |
| CoalescerClass.Coalescer.Fail | src/coalescer.rs:85-91 | First the entry goes and waiting receivers are dropped, then, with anything in between, the reason is kept. |
| RetryLoop.ResolveWithCoalescing | src/proxy.rs:249-327 | The retry loop goes on past a turn exactly if that was a drop within the budget of its kind, `etag_max_retries` for a changed ETag and `max_retries` otherwise; each outcome belongs to the turn that calls for it. |
| DiskCache.RefinesStep | src/cache.rs:164-290 | One cache operation is one step of a plain map from URLs to stored content and headers. |
| DiskCache.LookupFindsLastStored | src/cache.rs:164-203 | After any run a lookup finds exactly what was last stored and not evicted, deleted, cleared or lost since, with the headers and time of the last refresh; a miss leaves no row. |
| DiskCache.RowHistory | src/cache.rs:164-273 | After any run a row's size is that of the last file stored for its URL, its headers and `cached_at` are those of the last store or refresh, and its `last_access` is that of the last store or lookup. |
| DiskCache.RefreshIsNoUse | src/cache.rs:206-225 | A refresh changes nothing about what may be evicted. |
| DiskCache.RunStaysConsistent | src/cache.rs:227-290 | Over any run no file is without its row, and the files, and the recorded sizes, stay within the limit. |
| DiskCache.EvictsShortestOldestPrefix | src/cache.rs:1601-1627 | Eviction ends within the limit; victims go in order of last access, no survivor is older than a victim, and with the last victim it would not fit. |
| DiskCache.SurvivesIffRecentEntriesFit | src/cache.rs:1601-1627 | An entry survives every eviction if and only if it fits together with all entries accessed no earlier. |
| DiskCache.StoredSurvivesIffItFits | src/cache.rs:261-273 | A just stored, strictly newest entry survives every eviction if and only if it fits on its own. |
| DiskCache.HitIsEvictedLast | src/cache.rs:182-186 | An entry that was hit is evicted only together with everything used before the hit. |
| DiskCache.Cache.LookupEntry | src/cache.rs:164-203 | A hit carries the headers and `cached_at` of the row and only touches its `last_access`; a row without a file goes. |
| DiskCache.Cache.RefreshEntry | src/cache.rs:206-225 | New headers and time for a known URL, nothing otherwise. |
| DiskCache.Cache.StoreFile | src/cache.rs:227-290 | File and row in place, then an eviction that leaves a total within the limit; nothing if there is no file to store. |
| DiskCache.Cache.EvictInner | src/cache.rs:1601-1627 | The loop ends and removes the rows and files of an eviction. |
| DiskCache.Cache.DeleteByUrls | src/cache.rs:388-417 | Rows and files of the URLs go; the count is that of the distinct URLs that had a row. |
| DiskCache.Cache.ClearAll | src/cache.rs:423-455 | No entry is left, nor any unfinished download; the count is the number of rows. |
| DiskCache.DownloadNames | src/cache.rs:423-455 | Unfinished downloads are the names made of something and `.download`. |
| Freshness.MaxAgeRoundTrip | src/cache.rs:574-586 | Among any directives, with blanks around them, the first max-age decides; written in decimal, with blanks, up to two plus signs and leading zeros or without, it is read back for every 64-bit value and dropped above; without any there is none. |
| Freshness.UnreadableMaxAge | src/cache.rs:574-586 | Any other text after the first `max-age=` gives none, whatever later directives say. |
| Freshness.EveryHeader | src/cache.rs:574-586 | Every header value can be read as directives with blanks around them. |
| Freshness.TrimTakesBlanks | src/cache.rs:576-578 | Trimming takes away the blanks around a text and nothing else. |
| Freshness.ForbiddenByAny | src/cache.rs:496-501 | Reuse is forbidden exactly if one of the directives is `no-cache` or `no-store`, with any blanks around it. |
| Freshness.FreshByPriority | src/cache.rs:484-519 | Directives that forbid reuse come first, then the first max-age, then the Expires date, then the configured lifetime; whichever decides gives fresh or stale by its own comparison. |
| Freshness.LeftByPriority | src/cache.rs:525-561 | The time left by the same order: none if reuse is forbidden or nothing says how long, 0 once expired. |
| Freshness.FreshIffTimeLeft | src/cache.rs:484-561 | Fresh means time left, except exactly when the lifetime is at least 2^63 and the subtraction wraps, or the clock stands at the cut-off. |
| Freshness.StaleWithTimeLeft | src/cache.rs:525-561 | An entry with a lifetime of 2^63 seconds that is stale and has time left. |
| Freshness.FreshForTimeLeft | src/cache.rs:525-561 | A fresh entry stays fresh for exactly the time left if and only if its expiry is not cut off at 2^63. |
| EndToEnd.HitsAreWhatHeadPromised | src/proxy.rs:143-166 | If only successful downloads of a pinned version are stored, every later hit finds exactly the bytes that the HEAD request of the last download stored for the URL promised, with the headers and time of the last store or refresh, however often it was looked up. |
| UrlAlias.ResolveTakesFirst | src/proxy.rs:379-394 | For http and ftp the first map of the host decides, and the upstream URL is its trimmed base and the rest. |
| UrlAlias.ResolveLeavesOthers | src/proxy.rs:393-394 | A URL of any other host is left alone. |
| UrlAlias.ResolveLeavesSchemes | src/proxy.rs:379-394 | A URL that is neither http nor ftp is left alone. |
| UrlAlias.PrefixesAreComparable | src/bin/blitzctl/cache_cli.rs:309-311 | Two boundary prefixes of one string are boundary prefixes of each other, one way or the other. |
| UrlAlias.ReverseLeavesOthers | src/bin/blitzctl/cache_cli.rs:306-316 | An upstream URL under none of the bases is shown as it was parsed. |
| UrlAlias.RoundTripIffIncomparable | src/bin/blitzctl/cache_cli.rs:306-316 | An alias comes back for every path if and only if no earlier base is comparable to its own. |
| UrlAlias.AliasResolvesBack | src/bin/blitzctl/cache_cli.rs:306-316 | An upstream URL shown as an alias resolves to itself again if and only if the first map of that host has the same base. |
| PathTree.TotalsAreSums | src/bin/blitzctl/cache_cli.rs:460-492 | After any insertions a node exists exactly at the root and at or above an inserted path, with the sum and number of the entries below it. |
| PathTree.OrderDoesNotMatter | src/bin/blitzctl/cache_cli.rs:465-492 | Nodes and totals do not depend on the order of insertion. |
| PathTree.DirMarkIsStableIff | src/bin/blitzctl/cache_cli.rs:472-487 | The directory mark does not depend on the order if and only if the path is not both a file and a directory. |
| PathTree.NamesFollowPaths | src/bin/blitzctl/cache_cli.rs:472-487 | The node found at a path is named by its last component. |
| PathTree.ComponentsOfJoined | src/bin/blitzctl/cache_cli.rs:460-463 | Joining non-empty components and splitting the path gives them back. |
| PathTree.SlashSeparates | src/bin/blitzctl/cache_cli.rs:460-463 | Components are what stands between slashes, without empty pieces. |
| PathTree.TreeNode.Insert | src/bin/blitzctl/cache_cli.rs:460-463 | Inserting in place changes the tree of nodes exactly as specified. |
| PathTree.TreeNode.InsertComps | src/bin/blitzctl/cache_cli.rs:465-492 | The recursive insertion in place, for any tree of uniquely owned nodes. |

## Left out

- `DownloadSupervisor.Supervisor.Select`, `JoinNext` and `DownloadWorker.SegmentsBuffer.Send` and `Yield` are interfaces to the scheduler and the server: their contracts are what the proofs use, their bodies do nothing.
- BufferReader.StreamReader.Next: takes a bound on the turns of its loop and may answer that it is still waiting, because the source's reader may wait forever.
- DownloadSupervisor.Supervisor.DownloadMultithreaded: takes a bound on the turns of its loops and promises nothing when it runs out, because a server may never answer; `DownloadProgress.VerdictIsAlwaysInReach` says that a verdict stays possible.
- DownloadSupervisor.Supervisor.Supervise: takes that bound.
- DownloadSupervisor.Supervisor.Drain: takes that bound.
- TokenBuckets.TokenBucket.WaitConsume: takes the turns of its loop as a parameter.
- DiskCache.RefinesStep: storing renames the file before it inserts the row; the model does both in one step, so concurrent stores of one URL are not covered.
- PacedStreams.SharedBucketPaces: streams are polled one after the other; that the refill itself may interleave is covered by `TokenBuckets.TokensAreConserved`.
- UrlAlias.RoundTripIffIncomparable: the fallback of the reverse direction, a URL parser, is a parameter.
- ThrottledStream.PollKeeps: a timer that has just been armed is taken to be pending when it is first polled.
- `mark_all_ready`, and the notify and metadata channels: nothing in the download path depends on them.
- `spawn_cache_persistence` appears as the events it causes (complete, fail, store, set failed); its straight-line choice between them, `decide_revalidate` and `can_multithread` would only add easy members.
- `Resolved`, `info_matches` and selector parsing: thin wrappers around the alias translation.
- Panicking workers: the source logs them and never lowers the count of active workers.
- FTP downloads, the plain proxy, CONNECT and SOCKS: plumbing around library calls; an FTP range can be marked ready after an early end of file, so the data theorem does not apply to it.
- Per-address semaphores and their sweep, and the failure cooldown: thin use of library types.
- HTTP date parsing, SHA-256, xz checking, header storage, SQLite itself, and the rounding of the speed estimate.
- Sizes and durations, configuration layering, glob matching and the rendering of listings: each would only add easy members.
