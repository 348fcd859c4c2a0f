# Slusk, verified

A Dafny model of the parts of Slusk (an album downloader for the Soulseek network) that are hard to get right,
with proofs of what they promise. `dafny verify dfyconfig.toml` checks all of it.

| module | models |
|---|---|
| `Mailboxes`, `KeyedLists` | capacity-1 mailboxes drained by an arbitrary reader; deltas keyed by id |
| `LiveFrames`, `Throughput`, `Invalidation`, `SearchStream` | the four server-sent events of one connection, each with its own rule for a displaced frame |
| `StreamHub`, `Broadcasts` | the subscriber and hub objects, and whole runs of connections, goroutines and parked ticks |
| `SearchResults`, `Modal`, `SearchSessions`, `SearchGroups`, `SearchRegistry` | manual search sessions, what their groups show, and their registry |
| `AlbumLive`, `ByteOverlay` | live transfers over persisted rows, and the caches between them |
| `OverlayHub`, `OverlayRuns`, `OverlayFaults` | overlapping refreshes and ticks over those caches step by step, their whole runs, and what their overlaps and failures do |
| `TrackDedup`, `TrackCopies` | deduplicating an album folder, and which files are copies of one track |
| `Formats`, `Ranking`, `Rankings`, `Reliability` | ranking search results into candidates, and what a ranking lists in which order |
| `Migration`, `MigrationRules` | the SQLite to PostgreSQL migration, and the sources it accepts |
| `ConfigEdit` | editing the TOML configuration in place |
| `Brackets`, `Relevance`, `RelevanceVerdicts`, `Lucene` | bracket stripping, the relevance gate and its verdicts, query escaping |
| `Backoff`, `Shutdown` | retry backoff in wrapping arithmetic, the runtime's shutdown protocol |

Objects the program mutates are classes (`Mailbox`, `Subscriber`, `Hub`, `SearchSession`, `Searches`, `Document`,
`ConfigFile`, `Database`, `Lifetime`); their methods are tied to functions on values, and the results over whole runs
are lemmas about those functions. Concurrency is modelled by steps: a mailbox's reader may take a frame between any
two steps of the sender, a tick may deliver data it captured arbitrarily long ago, and every loop over a Go map picks
its next key freely.

Library functions stay parameters, so the results hold whatever they compute: path and tag functions, word
splitting and noise classification, hashes and group ids, duration parsing, the exponential function (positive,
increasing, 1 at 0). Times are integers, and `now` is passed in. Scores are reals.

## Where the code and its documentation part

- An unread `invalidate` notice is replaced, not united with its successor: "nothing lost" holds up to the mailbox,
  and to the client only if each notice is read before the next (`Invalidation`).
- A failed call for the upload mark can count as a change after all: it falls back on the mark captured when its
  refresh began, which another refresh may have replaced before it commits (`Invalidation`).
- The rule that done, truncated and the error of a search do not un-flip is documented for displaced frames, where it
  holds. The expired notice, documented to carry every other field at its zero value, does clear them for a client
  that has read them, and a session that expired while still running is served again once it finishes
  (`SearchStream`).
- The album byte overlay is documented not to go back when a file leaves the live transfers. Another client's refresh
  that commits late, a failed fetch of the live transfers and a tick begun before the connection each can make it
  (`OverlayFaults`).
- A transfer that starts and is purged between two ticks does not trigger the byte refresh (`OverlayFaults`).
- Track deduplication is not idempotent in general, and `Rank` is not deterministic when files without an extension
  outrank every other format of their directory (`TrackDedup`, `Ranking`).
- `nextBackoff`'s guard misses an overflow that wraps to a small positive value or zero (`Backoff`).
- A setting whose full key already appears earlier as a dotted key does not read back from the document the field loop
  leaves; where that document defines a table twice, the validation of the whole file refuses it (`ConfigEdit`).

Each of these is stated with the exact condition under which the promise does hold, and an input or a run that shows
it failing.

## Model

| member | source | states |
|---|---|---|
| `Mailboxes.Mailbox.SendLatest` | internal/observ/stream.go:1821-1834 | the non-blocking drain-and-merge loop ends against an arbitrary reader, and its effect is one atomic put: a displaced frame is merged exactly once, and never when the reader got it first |
| `KeyedLists.MergeDeltas` | internal/observ/stream.go:1794-1811 | the union by id of two deltas, newer entry winning, in ascending id order whatever order the map is ranged over |
| `KeyedLists.MergeIsUnion` | internal/observ/stream.go:1794-1811 | read as maps, the merged delta is the older one overridden by the newer one |
| `LiveFrames.BuildJobsDelta` | internal/observ/stream.go:514-541 | for any iteration order: the delta holds exactly the scoped jobs whose object changed, sorted by id, and the new memory is exactly this tick's objects |
| `LiveFrames.LiveLossless` | internal/observ/stream.go:1665-1675 | in every run of ticks and reads, the client's jobs overridden by the queued frame hold exactly what the hub remembers having sent, and the last speeds and detail sent are the ones it diffs against |
| `LiveFrames.TickThenDrainIsCurrent` | internal/observ/stream.go:1665-1675 | after any run, one tick and one read leave the client, for every job in scope, with an object whose bytes done are the sum over the files of live bytes where matched and persisted bytes elsewhere (the row's own count if nothing is matched or no bytes are held), whose speed, estimate and queue place are the sums and the least over the files queued or in progress, and with that tick's frame time unless nothing is live; and with that tick's speeds and detail |
| `LiveFrames.BodyTells` | internal/observ/observ.go:250-296 | the same of every job object built, on the stream as for REST, from any view, index and cached bytes |
| `LiveFrames.PutTellsBoth` | internal/observ/stream.go:1813-1834 | displacing a queued live frame tells the client what reading both frames would have |
| `LiveFrames.IdleJobFallsSilent` | internal/observ/stream.go:495-541 | a job that is not live-matched and whose view stays is in no delta from the second tick on, whatever the clock, the other transfers and the reader do |
| `LiveFrames.LiveJobIsReframed` | internal/observ/stream.go:495-541 | a live-matched job is resent with a fresh frame time whenever the displayed second moved |
| `SearchSessions.SearchSession.Accept` | internal/app/search.go:318-345 | one batch: results up to the cap are appended to their groups, the touched groups rebuilt at one new version, nothing else changed; past the cap only the flag is set |
| `SearchSessions.SearchSession.Finish` | internal/app/search.go:350-358 | every ending sets done and the finish time, and the error if there is one; an error already recorded stays when there is none |
| `SearchSessions.SearchSession.Delta` | internal/app/search.go:405-425 | the groups newer than the cursor, in ascending id order, with the session's scalars |
| `SearchSessions.BuildSearchGroup` | internal/app/search.go:451-523 | the loop's totals and modal attributes are those of the group's files, independently of map order |
| `SearchGroups.GroupShows` | internal/app/search.go:451-523 | for every list of files: the size is the sum of the sizes, the tracks are the audio files, the duration is the sum if every file has one and 0 otherwise, the bit rate, sample rate, bit depth and format are the most common ones with ties to the smaller, the upload signals are the last file's, and the score is the mean format score plus upload signals plus a thousandth of the bit rate |
| `SearchGroups.SessionShows` | internal/app/search.go:318-345 | after every run of a session each group shows exactly that, for the files of its id among the first 2000 results of the stream |
| `Modal.ModalSearchInt` | internal/app/search.go:544-559 | the most frequent nonzero value, ties to the smallest, whatever order the counts are ranged over; 0 if there is none |
| `Modal.ModalSearchString` | internal/app/search.go:529-537 | the most counted extension, ties to the smaller, in any map order, given the empty one is never counted |
| `Modal.ModalIsUnique` | internal/app/search.go:525-559 | that value is determined by the multiset alone |
| `SearchSessions.GroupingIsFiltering` | internal/app/search.go:318-345 | a group holds exactly the stream's results with its id, in stream order, and is named by the first |
| `SearchSessions.IncrementalEqualsBatch` | internal/app/search.go:318-345 | after any split into batches the groups, versions aside, are those of grouping the first 2000 results from scratch; total and truncated are those of the whole stream |
| `SearchSessions.SplitDoesNotMatter` | internal/app/search.go:318-345 | two sessions fed the same stream in different batches show the same groups, totals and flags |
| `SearchRegistry.Searches.EvictLocked` | internal/app/search.go:266-272 | exactly the sessions that are no longer servable are removed |
| `SearchRegistry.SweptKeepsIff` | internal/app/search.go:367-378 | servable means up to five minutes after the end, or up to six past the search timeout while still running |
| `SearchRegistry.Searches.LiveCountLocked` | internal/app/search.go:251-259 | the number of registered sessions that have not finished |
| `SearchRegistry.Searches.Start` | internal/app/search.go:140-177 | which starts are refused and why (an empty query or one above 256 bytes, no backend, 8 unfinished sessions), and the whole registry afterwards |
| `SearchRegistry.AtMostEightUnfinished` | internal/app/search.go:140-177 | over every run of starts, batches, endings and lookups the registry never holds more than 8 unfinished sessions |
| `SearchStream.PutTellsBoth` | internal/observ/stream.go:1943-2001 | a displaced search frame's groups survive in the merged one |
| `SearchStream.EmptyDeltaMeansCurrent` | internal/app/search.go:405-425 | a delta is empty exactly if the cursor equals the session's sequence number |
| `SearchStream.SearchConverges` | internal/observ/stream.go:1762-1784 | in every reachable state of session, cursor, mailbox and reader: client groups, overridden by the queued ones and by the delta at the cursor, are exactly the session's groups; only the expired notice takes back a flag or the error, and at most one such notice ever exists |
| `SearchStream.TickCatchesUp` | internal/observ/stream.go:1762-1784 | one tick brings cursor, flags and frames up to the session |
| `SearchStream.TickThenDrainShowsSnapshot` | internal/observ/stream.go:1762-1784 | one tick and one read leave the client with the full snapshot: sequence number, every group, the total, the flags and the error |
| `SearchStream.NothingTakenBackIff` | internal/observ/stream.go:1762-1784 | over every run: done, truncated and the error are never taken back, not even by the notice, exactly if the notice is never queued into an empty mailbox after one of the flags was told |
| `SearchStream.ConnectTakesNothingBack` | internal/observ/stream.go:1452-1552 | every connection starts in a state that statement is about |
| `SearchStream.NoticeClearsFlags` | internal/observ/stream.go:251-255 | a run in which it is: a finished session outlives its time, and the client sees done, then the notice with every other field at its zero value |
| `SearchStream.SilenceIsFinalIff` | internal/app/search.go:371-378 | a subscriber told its session is gone hears nothing more in any continuation exactly if the session was evicted or had finished; one that expired while still running is served again once it ends |
| `SearchStream.ExpiredIsServedAgain` | internal/app/search.go:371-378 | a run in which it is: the notice, and then a frame that says done |
| `Throughput.NewThroughputSince` | internal/observ/stream.go:646-653 | the suffix of a window strictly newer than the watermark |
| `Throughput.OpenKeepsThroughput` | internal/observ/stream.go:1534-1539 | a fresh connection starts with its windows accounted for, however old they are and also if a fetch failed |
| `Throughput.ExactlyOnce` | internal/observ/stream.go:1724-1752 | in every run, with ticks delivering windows of any age, read plus queued samples are in order and duplicate-free, with the dropped ones they account for every sample from the first window on up to the watermark, and without a drop they are all of them |
| `Throughput.OnlyOldestUnreadLost` | internal/observ/stream.go:1882-1925 | what is queued is always the newest unread part; up to 48 unread samples none is missing, and beyond that at least 48 are there |
| `Throughput.DisplacingFrameIsCapped` | internal/observ/stream.go:1882-1925 | a frame that displaces another holds the newest 48 of both frames' samples in either direction, or all of them if they are fewer |
| `Invalidation.ComputeJobsFingerprint` | internal/observ/stream.go:415-441 | the loop computes the count and the wrapped sum of the rows' hashes |
| `Invalidation.FingerprintIgnoresOrder` | internal/observ/stream.go:389-441 | the fingerprint is invariant under any permutation of the rows, for any hash |
| `Invalidation.ChangedRowIsSeenIff` | internal/observ/stream.go:389-441 | a changed row changes the fingerprint exactly if its page-relevant fields hash differently modulo 2^64, whatever its byte counts do; a row more or less always does |
| `Invalidation.GenerationsCountChanges` | internal/observ/stream.go:1262-1291 | over every run, however the refreshes overlap, each generation counts the changes in the sequence of its own half's committed values, never the first and never the other half's |
| `Invalidation.FailedMarkerBumpsIff` | internal/observ/stream.go:1205-1291 | a failed marker call, which falls back on the mark captured when its refresh began, bumps the uploads generation exactly if the mark last committed meanwhile, by another refresh, is a different one |
| `Invalidation.FailedMarkerBumps` | internal/observ/stream.go:1294-1309 | a run of two overlapping refreshes in which the failed call counts as a change, and the next success as another |
| `Invalidation.NoticesAreExact` | internal/observ/stream.go:1676-1714 | over every run, enqueued notices are at least one interval apart, the first that long after connecting, and each flag is set exactly if its own generation grew since it was last reported |
| `Invalidation.BumpIsReported` | internal/observ/stream.go:1686-1714 | however long a bump waited for the throttle, the first tick begun after the window enqueues it |
| `Invalidation.PromptReaderMissesNothing` | internal/observ/stream.go:1836-1856 | over every run the client gets exactly the enqueued notices exactly if each is read before the next is sent, and fewer otherwise |
| `Invalidation.DisplacedFlagsKeptIff` | internal/observ/stream.go:1836-1856 | the documentation calls replacement harmless; a displaced notice's flags survive exactly if the new notice repeats them |
| `Invalidation.UnreadJobsNoticeIsLost` | internal/observ/stream.go:1836-1856 | a run in which an uploads-only notice displaces an unread jobs notice, which is never delivered |
| `StreamHub.Subscriber.constructor` | internal/observ/stream.go:1452-1552 | what subscribe sends first, and the cursors, watermarks and generations it leaves behind |
| `StreamHub.Subscriber.Tick` | internal/observ/stream.go:1664-1784 | one subscriber's part of a tick is, on all four events at once, the specified step preceded by at most one read of each mailbox |
| `StreamHub.Hub.Register` | internal/observ/stream.go:1541-1552 | the new subscriber is added under a fresh id; a broadcaster is started exactly if there was none |
| `StreamHub.Hub.Unsubscribe` | internal/observ/stream.go:1556-1564 | the last subscriber's departure, and no other, cancels the broadcaster |
| `StreamHub.Hub.Deliver` | internal/observ/stream.go:1649-1784 | a tick whose context was cancelled changes no subscriber; any other serves every subscriber, each once, in any map order |
| `Broadcasts.EveryRunIsSafe` | internal/observ/stream.go:1541-1664 | over every run of subscribing, leaving, parked and delivered ticks and reads: a broadcaster is current exactly while someone is subscribed, every other one ever started is cancelled, and every connection's live frames are lossless |
| `Broadcasts.CancelledForGood` | internal/observ/stream.go:1556-1564 | a cancelled context stays cancelled |
| `Broadcasts.SingleSender` | internal/observ/stream.go:1651-1664 | a goroutine that changes any mailbox is the current one, nobody else can in that state, and none cancelled earlier ever does again, even with a tick it began before |
| `AlbumLive.NewLiveTransferIndex` | internal/observ/jobdetail.go:242-252 | the index the loop builds |
| `AlbumLive.LastEntryWins` | internal/observ/jobdetail.go:242-252 | of several live entries with one key the last is found |
| `AlbumLive.IndexedKeyOccurs` | internal/observ/jobdetail.go:242-273 | nothing is matched that the snapshot does not hold |
| `AlbumLive.AnyLiveMatch` | internal/observ/albumlive.go:95-102 | true exactly if some file has a live counterpart, in any state |
| `AlbumLive.SumFileBytesDone` | internal/observ/albumlive.go:117-127 | the loop computes the direct per-file sum |
| `AlbumLive.AggregateLiveAlbum` | internal/observ/albumlive.go:65-86 | the loop computes the fold over the files still in flight |
| `AlbumLive.QueuePositionIsLeast` | internal/observ/albumlive.go:65-86 | the queue position is the least positive one among those files, and absent exactly if none has one |
| `AlbumLive.AggregateIs` | internal/observ/albumlive.go:65-86 | speed and average speed are the sums over the files queued or in progress, whatever the order of the snapshot |
| `AlbumLive.JobBytesDoneIs` | internal/observ/albumlive.go:158-167 | the album total is the sum of live bytes where matched and persisted bytes elsewhere, or the row's own count |
| `AlbumLive.AggregateWithoutMatch` | internal/observ/albumlive.go:65-86 | without a live transfer of the album the aggregate is empty |
| `AlbumLive.EtaSeconds` | internal/observ/albumlive.go:23-32 | the most whole seconds that do not overrun the remaining bytes, up to the cap, and 0 exactly when there is nothing to estimate or less than a second left |
| `ByteOverlay.RunIsLater` | internal/observ/albumlive.go:134-148 | under enqueue, progress, persist-then-purge: persisted and true byte counts never fall, a terminal row stays terminal, and a live entry is never behind its row |
| `ByteOverlay.MatchMeansLive` | internal/observ/stream.go:469-479 | the matched-file set decides, file by file, which files are live and which branch the album total takes |
| `ByteOverlay.FrameIsSum` | internal/observ/albumlive.go:158-167 | in every branch, whatever the cache holds, the album total is one per-file sum |
| `ByteOverlay.JobObjectShowsFrame` | internal/observ/observ.go:250-296 | the bytes done of a job object built from a snapshot and a cache are the sum of what each of its files shows |
| `ByteOverlay.RefreshServes` | internal/observ/stream.go:1206-1232 | a refresh fetches the bytes of exactly the candidates a frame will ask them for |
| `ByteOverlay.ShownStateIsMonotone` | internal/observ/jobdetail.go:146-195 | a file whose row says completed, errored or cancelled is shown so, whatever its live entry says; one whose row says pending, queued, in progress or stalled is shown as its live entry says, if it has one |
| `OverlayHub.StepKeepsHub` | internal/observ/stream.go:1190-1292 | every event of the hub, of any refresh, of the tick and of the environment, in any order: the caches are not ahead of the rows and nothing shown or about to be shown is ahead of the truth |
| `OverlayRuns.StepIsGood` | internal/observ/stream.go:1190-1292 | one event, with every other refresh's commit and every failed fetch harmless: the invariant is kept and nothing shown goes back |
| `OverlayRuns.OpenedIsCalm` | internal/observ/stream.go:1452-1552 | a connection, whether or not its own first fetch succeeded, starts a run without steps back if no tick is under way, and otherwise exactly if what that tick would show is harmless |
| `OverlayRuns.ShownNeverGoesBack` | internal/observ/stream.go:1607-1664 | over every such run, refreshes of any number of clients overlapping step by step with the ticks and the environment: no byte count goes down, and a file once shown as completed, errored or cancelled is never again shown as anything else than one of these |
| `OverlayRuns.TotalNeverGoesBack` | internal/observ/stream.go:1607-1664 | nor does any album total |
| `OverlayRuns.IdleFetchIsHarmless` | internal/observ/stream.go:943-952 | a tick that cannot fetch the live transfers while nothing is matched is part of such a run, with whatever happens before it shows |
| `OverlayRuns.OrderlyRunsAreGood` | internal/observ/stream.go:1190-1292 | a condition on the schedule alone suffices: ticks can fetch or nothing is matched, and another refresh commits between ticks, its fetch answered and no frame shown since it began |
| `OverlayRuns.TickShowsFrame` | internal/observ/albumlive.go:158-167 | the frame a tick takes to show has the total the code computes, whichever cache the tick finds, and it is the bytes done of the job object a client is sent |
| `OverlayRuns.RefreshedFrameIsTrue` | internal/observ/stream.go:1635-1640 | a tick that shows from its own refresh shows a total between the truth at its snapshot and the truth when it takes the frame |
| `OverlayRuns.UnrefreshedFrameIsTrueIff` | internal/observ/stream.go:1617-1649 | a tick that did not refresh never overstates, and is exact precisely if every file that is not live still has the cached byte count |
| `OverlayRuns.QuietFrameIsTrue` | internal/observ/stream.go:456-479 | such a tick is exact unless the committed refresh could not fetch the live transfers, or a file it saw idle was enqueued since its snapshot |
| `OverlayFaults.TickEnds` | internal/observ/stream.go:1607-1664 | what a tick at any stage would show at once it does show if left alone; after a tick that had yet to compare or to refresh, nothing goes back any more, whatever was shown before |
| `OverlayFaults.SafeIffHarmless` | internal/observ/stream.go:1607-1664 | in every state, between ticks or at any stage of one, whatever its snapshot and whether or not it could fetch: no event of any continuation of ticks and environment steps takes anything back exactly if the frame to be shown next goes forward and the cache it leaves is behind nothing shown or bound to be replaced |
| `OverlayFaults.LateCommitIsHarmlessIff` | internal/observ/stream.go:1268-1292 | the same for a commit by another refresh, at any stage of a tick or between ticks, in terms of the cache it brings |
| `OverlayFaults.EarlierTickIsHarmlessIff` | internal/observ/stream.go:1649-1664 | a tick begun before a connection, at any stage: nothing goes back for that connection exactly if its first frame is not ahead of what the tick would show at once, and the cache that tick leaves is settled |
| `OverlayFaults.FailedFetchGoesBackIff` | internal/observ/stream.go:943-952 | a tick that cannot fetch the live transfers: something can go back exactly if some file is matched and some file was shown ahead of its persisted row |
| `OverlayFaults.LateCommitGoesBack` | internal/observ/stream.go:1458-1462 | a run of two clients: a file shown as finished at 10 bytes is shown as not begun at 0 |
| `OverlayFaults.FailedFetchGoesBack` | internal/observ/stream.go:943-952 | a run in which 10 bytes live over a row of 3 are shown as 10, then as 3 |
| `OverlayFaults.EarlierTickGoesBack` | internal/observ/stream.go:1649-1664 | a run in which a tick that fetched before the connection opened shows it 3 bytes after 10 |
| `OverlayFaults.BlinkIsMissed` | internal/observ/stream.go:456-479 | a run with one client: a transfer that starts and is purged between two ticks leaves the trigger silent and the total behind |
| `TrackDedup.Winner` | internal/pipeline/dedup.go:206-223 | no file of the group beats the one returned: lossless first, then size, then the smaller path |
| `TrackDedup.MultiAlbum` | internal/pipeline/dedup.go:117-129 | true exactly if two files name different albums |
| `TrackDedup.DedupFiles` | internal/pipeline/dedup.go:144-201 | the losers are exactly the identifiable files whose group has a best file of another path; each is listed once |
| `TrackDedup.OneSurvivorEach` | internal/pipeline/dedup.go:131-201 | every identifiable track keeps exactly one file, and every other copy is beaten by it |
| `TrackDedup.UnidentifiedStays` | internal/pipeline/dedup.go:131-143 | a file with neither number nor title is never removed |
| `TrackDedup.SurvivorsCount` | internal/pipeline/dedup.go:144-201 | as many files survive as there are tracks, plus the unidentifiable ones |
| `TrackDedup.CopiesShareAlbum` | internal/pipeline/dedup.go:131-151 | in a folder of several albums, files taken for copies carry the same album |
| `TrackCopies.GroupedIffCopies` | internal/pipeline/dedup.go:131-201 | two files are taken for one track exactly if they have the same disc and number, or an unnumbered one has the title of one that has, or both only their title in common, within one album wherever the folder names several |
| `TrackCopies.RemovedIffOutranked` | internal/pipeline/dedup.go:144-223 | a file is removed exactly if a copy of it is lossless where it is not, or else larger, or else first by path |
| `TrackCopies.OneCopyStays` | internal/pipeline/dedup.go:144-201 | of every set of copies one stays, and it outranks all the others, which go |
| `TrackDedup.SingleAlbumIgnoresAlbums` | internal/pipeline/dedup.go:110-129 | a folder naming at most one album loses the same files as with every album tag erased |
| `TrackDedup.SecondRunRemovesIff` | internal/pipeline/dedup.go:144-201 | a second run over the survivors removes something exactly if an unnumbered winner bears the title of a numbered winner |
| `TrackDedup.NumberedIsIdempotent` | internal/pipeline/dedup.go:144-201 | with every file numbered a second run removes nothing |
| `TrackDedup.NotIdempotentInGeneral` | internal/pipeline/dedup.go:177-188 | a folder for which the second run does remove a file |
| `Formats.ScoreIsExtScore` | internal/matcher/matcher.go:59-69 | a file's format score is determined by the extension it is bucketed by |
| `Formats.ExtIsOfName` | internal/matcher/matcher.go:118-122 | what lies before a separator, of either kind, has no say in a file's extension |
| `Formats.DedupeTracks` | internal/matcher/matcher.go:130-166 | for every order of the map: the first file per track of the bucket that order picks |
| `Formats.PickIsForemost` | internal/matcher/matcher.go:136-151 | unless files without an extension outrank every other bucket, the pick is the best bucket in every map order |
| `Formats.BlindIsAmbiguous` | internal/matcher/matcher.go:136-151 | in that case two map orders pick different buckets |
| `Formats.SomeFolderIsBlind` | internal/matcher/matcher.go:136-151 | a folder in that case: two files, one without an extension |
| `Formats.FirstsIs` | internal/matcher/matcher.go:152-165 | one file per track, each the bucket's own, and no track of the bucket missing |
| `Ranking.Rank` | internal/matcher/matcher.go:168-221 | the result lists, in strictly decreasing rank, one candidate per (user, directory) with a file above the floor |
| `Ranking.OneCandidatePerDirectory` | internal/matcher/matcher.go:168-199 | each such directory gives exactly one candidate: its own files above the floor, one format, one file per track, every track of that format |
| `Rankings.CandidateShows` | internal/matcher/matcher.go:124-199 | a candidate's files are of one format: none in the directory has a better format score, at that score none a larger bucket, at that size none a smaller extension; its score is the documented weighted sum |
| `Rankings.BestFirst` | internal/matcher/matcher.go:200-219 | within a tier scores never rise; at equal scores the user names ascend, and for one user the first file names do |
| `Rankings.EveryDirectoryOnce` | internal/matcher/matcher.go:168-199 | every result above the floor has its user and directory among the candidates, exactly once |
| `Ranking.BeforeIsTotal` | internal/matcher/matcher.go:200-219 | the comparator is a strict order that separates any two candidates of different user or first file |
| `Ranking.LastResortsComeLast` | internal/matcher/matcher.go:200-211 | no last-resort candidate precedes a normal one, whatever the scores |
| `Ranking.RankIsDetermined` | internal/matcher/matcher.go:125-129 | with no such ambiguous group the ranking does not depend on any map order |
| `Ranking.ExtensionsSuffice` | internal/matcher/matcher.go:130-151 | in particular when every kept file has an extension |
| `Ranking.BlindRankingVaries` | internal/matcher/matcher.go:130-151 | with an ambiguous group two map orders give two rankings |
| `Ranking.SomeRankingVaries` | internal/matcher/matcher.go:130-151 | search results with two rankings, whatever the weights, the floor and the histories |
| `Reliability.CountFades` | internal/matcher/reliability_history.go:50-60 | a count's weight lies between zero and the cap of 20 and never grows with age |
| `Reliability.CountAges` | internal/matcher/reliability_history.go:50-60 | a count not in the past counts in full, up to 20; after thirty days it weighs 1/e |
| `Reliability.SigmoidGrows` | internal/matcher/reliability_history.go:84-87 | the score lies strictly between 0 and 1 and grows with the net history |
| `Reliability.UntriedIsNeutral` | internal/matcher/reliability_history.go:70-83 | a peer without history scores one half and is never last resort |
| `Reliability.LastResortIff` | internal/matcher/reliability_history.go:121-123 | last resort exactly when e^(-net/5), the odds against the peer, reach three to one |
| `Reliability.FailuresHeal` | internal/matcher/reliability_history.go:111-123 | a record of failures only heals: once out of the last-resort tier, out for good |
| `Reliability.FreshRecord` | internal/matcher/reliability_history.go:62-87 | a fresh record scores the sigmoid of its capped net with the artist plus half that with everyone, over 5 |
| `Reliability.WorstScore` | internal/matcher/reliability_history.go:89-110 | the bound the threshold is argued from: with no history with the artist no record is worse than ten net failures, and with it than thirty |
| `Migration.ValidateSource` | cmd/sqlite2pg/main.go:178-268 | no error exactly if schema, states and all nine relational checks hold |
| `MigrationRules.AcceptableIff` | cmd/sqlite2pg/main.go:178-268 | a source is accepted exactly if, beside the schema, every state is one of those listed, every row refers to one that is there, transfers bear their attempt's user name, no attempt is backing off, each job downloading, verifying or importing has exactly one open attempt and no other job has one |
| `Migration.AcceptedSource` | cmd/sqlite2pg/main.go:230-266 | what a clean validation says about single rows |
| `Migration.CopyCandidates` | cmd/sqlite2pg/main.go:345-395 | on success, row for row the transformed attempts; it fails if one is backing off, and otherwise only if a write does |
| `Migration.JobsAreMapped` | cmd/sqlite2pg/main.go:292-343 | row for row: which state becomes which, a cooldown's end and a failure's time are carried over and no other time is, retries start at 0, all else stays |
| `Migration.AttemptsAreMapped` | cmd/sqlite2pg/main.go:345-395 | row for row: an open attempt becomes the active candidate, any other keeps its state, all else stays |
| `Migration.Run` | cmd/sqlite2pg/main.go:85-170 | a run that fails at any point leaves every row as it was; one that succeeds found an empty target and an accepted source, and leaves the migrated rows; if the target takes every write, nothing else makes it fail |
| `Migration.MigrationKeepsInvariant` | cmd/sqlite2pg/main.go:322-395 | from any accepted source, every job downloading or importing has exactly one active candidate and no other job has one |
| `Migration.MigrationKeepsRelations` | cmd/sqlite2pg/main.go:292-464 | ids and row counts are kept, every reference resolves, and a transfer's candidate has its username |
| `Migration.FilesAreTransfers` | cmd/sqlite2pg/main.go:397-412 | a candidate's files are exactly its transfers, in id order |
| `Migration.ImportsAreMarked` | cmd/sqlite2pg/main.go:382-388 | the import timestamp is set exactly for the open attempt of a job that was importing, and is that job's |
| `Migration.SomeSourceIsAcceptable` | cmd/sqlite2pg/main.go:178-268 | the rules can be met |
| `ConfigEdit.Document.Upsert` | internal/config/write.go:441-468 | the write lands in the first section of the table, replacing the key or appending it, with its comments kept |
| `ConfigEdit.AppliedReadsBackIff` | internal/config/write.go:345-418 | a setting that needs writing reads back as requested exactly if no entry of the same full key stands before the section written to |
| `ConfigEdit.DottedKeyShadows` | internal/config/write.go:455-468 | a dotted key in a parent table is such an entry, in the document the field loop leaves |
| `ConfigEdit.CommentsStay` | internal/config/write.go:452-468 | the comments of a rewritten key stay with it |
| `ConfigEdit.LoopReadsBack` | internal/config/write.go:165-174 | after the whole field loop every request reads back, except shadowed keys and zeros asked of keys without a value, which still have none |
| `ConfigEdit.AbsentKeyIsWrittenIff` | internal/config/write.go:345-418 | a key without a value reads back as requested exactly if the request is not the empty string, 0, 0.0, false or no time at all, and the key is not shadowed |
| `ConfigEdit.IntegerServesAsFloat` | internal/config/write.go:391-407 | an integer standing where a fraction is wanted is left as it is if equal, and otherwise replaced with its comments kept |
| `ConfigEdit.LoopKeepsOthers` | internal/config/write.go:165-174 | every key outside the list keeps its mapping, comments included |
| `ConfigEdit.LoopIsIdempotent` | internal/config/write.go:165-174 | a second run of the loop changes nothing, shadowed or not |
| `ConfigEdit.FoldersReadBack` | internal/config/write.go:589-671 | the requested shared folders read back exactly and in order, every other section stays in order, and an unchanged list is not touched |
| `ConfigEdit.OnlyFoldersGo` | internal/config/write.go:636-671 | exactly the tables of the array soulseek.shared_folders are taken out |
| `ConfigEdit.SettingsReadBack` | internal/config/write.go:155-179 | fields and folders together: neither step disturbs what the other wrote |
| `ConfigEdit.SettingsAreIdempotent` | internal/config/write.go:155-179 | applying the same settings again changes nothing at all |
| `ConfigEdit.ConfigFile.ApplySettings` | internal/config/write.go:155-202 | the file is replaced by the fully edited document exactly if that validates and the rename goes through, and is otherwise as it was |
| `Lucene.EscapeLucene` | internal/musicbrainz/client.go:196-224 | the rune loop with its flushed token buffer computes the escaped text |
| `Lucene.EscapeRoundTrips` | internal/musicbrainz/client.go:179-224 | for every text, dropping the escapes gives it back and no metacharacter is left unescaped |
| `Lucene.EscapeIsInjective` | internal/musicbrainz/client.go:196-224 | two texts never escape to the same query term |
| `Lucene.EscapedHasNoKeyword` | internal/musicbrainz/client.go:187-224 | no white-space delimited word of the escaped text is AND, OR, NOT or TO |
| `Lucene.WordsAre` | internal/musicbrainz/client.go:171-224 | the words meant there are the maximal runs without white space |
| `Lucene.UnchangedIff` | internal/musicbrainz/client.go:179-224 | a text is left as it is exactly if it has no metacharacter and none of its words is AND, OR, NOT or TO |
| `Lucene.QueryReadsBack` | internal/musicbrainz/client.go:253-268 | whatever artist and album contain, reading a query up to its first unescaped closing parentheses gives exactly the two texts back |
| `Brackets.StripBracketedGroups` | internal/matcher/normalize.go:33-42 | the loop to the fixpoint ends and computes, in full, what a one-pass matching parser keeps; its result has no closing round or square bracket after an opening one |
| `Brackets.PassKeepsReading` | internal/matcher/normalize.go:15-18 | one replacement pass changes nothing of what lies outside matched groups |
| `Brackets.BalancedLosesAll` | internal/matcher/normalize.go:25-42 | balanced brackets, of whatever kinds, all disappear |
| `Brackets.GroupVanishes` | internal/matcher/normalize.go:15-42 | an innermost group, round or square or mixed, vanishes with the blanks before it, wherever it stands in the text |
| `Brackets.NormalizeIsIdempotent` | internal/matcher/normalize.go:44-66 | normalizing twice is normalizing once |
| `Relevance.StripTrailingBracketNoise` | internal/matcher/relevance.go:241-250 | the loop ends with a prefix of the segment that has no trailing square or curly group left |
| `Relevance.ParenthesesStay` | internal/matcher/relevance.go:222-240 | a parenthesized ending is never stripped |
| `Relevance.GroupIsDropped` | internal/matcher/relevance.go:222-250 | a square or curly group at the end goes with the blanks around it, and what is left is stripped again |
| `Relevance.OnlyGroupsAreDropped` | internal/matcher/relevance.go:222-250 | a segment is left as it is exactly if it ends in no such group |
| `Relevance.DirCheck` | internal/matcher/relevance.go:257-279 | the two loops decide exactly the two ratios |
| `Relevance.DirectoryToleratesExactly` | internal/matcher/relevance.go:19-35 | accepted exactly if at most a fifth of the title's words are missing and at most two fifths of the directory's are unexplained; a title under five words may miss none |
| `Relevance.NestedNamesAccepted` | internal/matcher/relevance.go:257-279 | of nested names the longer passes for the shorter exactly down to three fifths |
| `Relevance.AbsenceOfPresenceRejected` | internal/matcher/relevance.go:11-35 | an example: the mismatch the gate was written for is rejected |
| `Relevance.MatchesSomeTrack` | internal/matcher/relevance.go:301-321 | true exactly if some expected title has three quarters of its words in the file name |
| `Relevance.CheckRelevance` | internal/matcher/relevance.go:137-199 | the counting loops and fallbacks compute the specified verdict |
| `RelevanceVerdicts.TitlesDecideIff` | internal/matcher/relevance.go:137-182 | which evidence decides, and what the track titles decide: a title without a usable word is accepted unjudged; titles decide exactly if one has a usable word, at least three files and at least half of them tell something, and accept exactly if half of those are named like some title |
| `RelevanceVerdicts.DirectoryDecidesIff` | internal/matcher/relevance.go:184-279 | what the directory decides: the last segment if it has a usable word, else the one above, by the words missing and the words unexplained |
| `Relevance.TitlesIgnoreDirectories` | internal/matcher/relevance.go:118-123 | when track titles decide, moving the files to any directories leaves the verdict unchanged |
| `Relevance.NoSecondTry` | internal/matcher/relevance.go:124-136 | when the last segment has a usable word, no segment above it can change the verdict |
| `Relevance.MoreTitlesKeepAcceptance` | internal/matcher/relevance.go:41-47 | a longer or reordered tracklist never turns an acceptance by titles into a rejection |
| `Backoff.BackoffInRange` | internal/pipeline/backoff.go:16-27 | in wrapping 64-bit arithmetic the wait is never negative and never above the cap |
| `Backoff.BackoffIsIntendedIff` | internal/pipeline/backoff.go:16-27 | for all positive durations it is min(base * 2^min(retries, 32), cap) exactly unless the product overflows and lands between zero and the cap |
| `Backoff.LongBackoffVanishes` | internal/pipeline/backoff.go:16-27 | a base for which that happens: no wait at all from the 32nd failure on |
| `Backoff.DefaultsAreDocumented` | internal/pipeline/backoff.go:11-27 | with the defaults it is the documented min(base * 2^retries, cap) for every retry count, although the product overflows from 24 on |
| `Backoff.GivesUpExactly` | internal/pipeline/backoff.go:61-80 | from zero retries exactly the maxRetries-th recorded failure is terminal |
| `Backoff.WaitsAsPrescribed` | internal/pipeline/backoff.go:61-80 | until then the n-th recorded failure schedules the n-th wait, and sends the job back to wanted exactly if asked to |
| `Shutdown.RunRuntime` | cmd/slusk/main.go:1119-1189 | in every interleaving: the store may be closed exactly if the HTTP shutdown succeeded, both goroutines were seen to end and the runner did not abandon a module; each kind of error is joined exactly if its cause happened, and there is none exactly if a requested shutdown went through cleanly |
| `Shutdown.CloseStoreAfterRuntime` | cmd/slusk/main.go:1107-1112 | the store is closed exactly if that was found safe |
| `Shutdown.RunAndClose` | cmd/slusk/main.go:1105-1189 | whenever the store gets closed, nobody can still be using it |

## Left out

- Go's `int`, `int64` byte sums and version counters are unbounded here, except in the fingerprint and the backoff, where wrap-around is the point.
- Floating-point rounding: scores are reals; the relevance ratios are compared by cross-multiplication, which agrees with the program's rounded division for any realistic count.
- LiveFrames.BuildJobsDelta: the job object keeps the live fields and the frame time; the fields copied from the row are one opaque header, and the detail body is opaque.
- SearchStream.SearchConverges: the frame's session id and the still-running hint are not carried; the deadline that ends a backend search is an environment step.
- SearchRegistry.AtMostEightUnfinished: an expired but still running search is swept from the registry and no longer counted, as in the program.
- OverlayRuns.ShownNeverGoesBack: assumes what the source documents about the reconcile loop: a terminal state is persisted before its live entry is removed, a restarted transfer does not fall behind its persisted count, the candidate's files do not change, and the store answers. A tick takes its frame from the committed caches in one step, where the program takes one read lock after another.
- OverlayRuns.TickShowsFrame: transfers are matched by user and file name; a match by remote id is assumed to agree with it.
- Throughput.ExactlyOnce: assumes strictly increasing sample times and, once a sample was seen, windows that still hold everything newer than the watermark.
- Broadcasts.EveryRunIsSafe: carries the live frames' invariant through hub runs; those of the other three events are proved over their own systems, whose ticks may likewise deliver data captured at any earlier time.
- SearchSessions.BuildSearchGroup: the order of a group's files is not stated, only which they are.
- StreamHub.Hub.Deliver: each subscriber's search poll may answer differently, but is a function of the subscriber and its cursor for the length of one tick.
- Failed refreshes of the hub's detail, reason and view caches, which keep their previous values; the merged detail body itself.
- The open-stream cap, heartbeats, the session pruner and everything else of the HTTP layer.
- TrackDedup.DedupFiles: the order of the losers is not stated; reading tags and deleting files is not modelled.
- Ranking.Rank: the library sort is taken to return a sorted permutation, which the strict order makes unique.
- Migration.Run: inserts and the commit may fail at any time for any reason; constraints of the target schema, foreign-key validation and sequence resets are not modelled beyond that. Column and table names contain no comma.
- ConfigEdit.LoopReadsBack: stated for any list of fields with distinct keys none of which names a listed table; the program's list of 48 keys is not spelled out. Inline tables are opaque values, and a new key goes to the end of its section.
- ConfigEdit.ConfigFile.ApplySettings: scanning, escaping and number formatting are assumed to round-trip; the backup copy and the rename itself are one step.
- Lucene.EscapeLucene: texts are sequences of characters; invalid UTF-8 is not modelled.
- Brackets.NormalizeIsIdempotent: the other replacements are the library's, written as functions.
- Relevance.CheckRelevance: a file is its directory segments and its last element; the human-readable reason is not modelled.
- Backoff.GivesUpExactly: the store's own state guards and the event log are not modelled.
- Shutdown.RunRuntime: waiting for the shutdown timeout is a free choice, so an expired wait may be taken even when the goroutine has ended; the un-joined background recorders are outside the protocol.
- The store, the remaining pipeline stages, the Soulseek client, Lidarr and the network half of MusicBrainz: REST, SQL and protocol plumbing.
