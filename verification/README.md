# Verification of the event pipeline

This project models, in Dafny 4.11, the append-only event store of the repository, the services
whose guarantees rest on it, and the independent algorithms around them, and proves what they
promise. Check it with `dafny verify dfyconfig.toml`.

## What is modelled

**The event store** (`eventstore/file_store.go`), on three levels.

- `EventLog` is the abstract log: numbered records, the records a reader is owed, a page.
- `AppendProtocol` is the cross-process protocol: any number of handles in any number of processes,
  each step of `NewFileStore` and `Append` (recover, open, lock, re-sync, rotate, write one record,
  persist, release, crash) interleaving with everyone else's.
- `Journal`, `JournalReader`, `TailCursor`, `Directory`, `StoreView` and `FileStore` (module
  `FileStores`) are the bytes, the day files, the two line parsers, the two caches and the class
  with its methods. `ReaderCache` follows the cache of a handle that reads while others append, and
  that may rotate and append itself. `StateFile` is the state file under the create, write and rename
  of every process. `PlainCodec` is one record codec that meets what the byte results ask for.

**Its consumers.** `Discovery` and `Discovered` (the two dedupe loops, their paging, and what a run
appends), `Session`, `Delivery`, `Frames` and `Resume` (the feed server), `Schedule`, `Tracker` and
`Sampling` (price reactions), `Projector` and `SignalRows` (SQL rows), `AccuracyIndex` and
`FilingIndex` (the side tables).

**Algorithms.** `SqlSplit`, `BatchPoll`, `Cooccurrence`, `RateLimit` and `Pacing`, `EarningsCalendar`
and `ReportDates`.

`Runs` holds the theory of labelled state machines that the protocol, session, tracker, projector,
poller, index and calendar modules share: a schedule is any list of labels, so "every run" is "every
list of labels whose steps can be taken". `Sorting`, `Text`, `Filings`, `Octets` and `Wrappers` are
small shared modules.

## Assumptions

- Inside the critical section of `Append` nothing fails; a crash there is a step of the model, and
  `Safe` says when it does no harm. `recoverLatestSequence` trusts the state file when it exists.
- In `AppendProtocol` one persist of the state file is one atomic replacement.
  `StateFile.CreateFaithfulIff` is the exact condition for that; the code does not ensure it (below).
- All handles read one clock that does not go back.
- In the class `FileStore` other processes change the files only between two calls, each by a whole
  append to the newest journal (`FileStores.FileStore.Others`) or to the one before it that someone's
  opening of the next has outrun (`FileStores.FileStore.OthersLate`); their single steps are in
  `AppendProtocol`, and growth while a file is being read is in `TailCursor`.
- Record encodings are as those of JSON objects (section 4 of RFC 8259): no newline inside, no outer
  white space, no proper prefix decodes, and (for files appended to after a cut) what follows on a
  line spoils it. `PlainCodec.PlainIsValid` shows such a codec exists.
- Bytes are trimmed of ASCII white space only; times are integers, prices and tokens are reals.
- An append to a watcher's own store, a line of the calendar, and a database transaction either
  happen or do not; one that is reported as failed has left nothing behind.
- One process runs each watcher, projector and calendar.
- The limiter's clock does not run backwards (`RateLimit.WindowBound` only), and its interval is
  positive.
- Observation files arrive under names after all those present, with a hyphen and no outer white
  space.

## Where the code and its comments differ

The model follows the code.

- `eventstore/file_store.go:210-231` says the current file is nil on a handle that only reads.
  `NewFileStore` opens today's journal (lines 86 and 537-545), so it is not, and `Scan` takes that one
  as the growing file (lines 296-309) for as long as the handle lives. From the next day on a `Scan`
  caches the highest sequence of the journal another process is still writing. What is added then is
  missed by later `Scan`s, and by `ReadFrom` too once a still later journal exists, for the two share
  the cache: `ReaderCache.ScanMisses` is such a run, and `ReaderCache.RunReadsRightIff` gives the exact
  condition. A handle that never scans is safe as long as no one writes to a journal older than the
  newest (`ReaderCache.ReadFromAloneIsRight`), and a writer that rotated just before midnight can do
  that: `ReaderCache.ReadFromMisses`.
- `NewFileStore` (lines 77-84) rewrites the state file without the lock. With each persist atomic this
  and a crash inside the section are the only ways the protocol can go wrong:
  `AppendProtocol.StepKeepsInvIffSafe`.
  From any directory either leads to two records of one sequence: `AppendProtocol.RaceDuplicates` and
  `AppendProtocol.DeathDuplicates`.
- For the same reason a persist need not be atomic: all processes share one temporary name (lines
  521-531), and an opener and the lock's holder can be at it together. A holder's newer value can be
  renamed into place and then written over with an opener's older one: `StateFile.OlderValueWins`.
- A torn last line is tolerated only until the next append: `Journal.AppendAfterCut`.
- The real-time constant (2^64 - 1) does not fit the signed number the handshake reads; it is served
  as a resume: `Resume.RealtimeConstantIsResume`.
- `cmd/entity-graph/accuracyindex.go:223` says the later of two records of one key in a batch wins;
  the filter passes the first that is news: `AccuracyIndex.FilterAgreesIff`.
- `internal/earningscal/store.go:182` speaks of equal or higher priority; the writers ask for strictly
  higher. Records with a fiscal year of 0 are dropped on load although all three sources can still
  write them, a document when its filing date does not parse: `EarningsCalendar.WrittenAgainIff`.
- The retry comment at `cmd/observation-watcher/main.go:70-71` gives 30, 90 and 270 seconds; the code
  sleeps 30, 60 and 90, once more 90 when a context reset falls on the last retry:
  `BatchPoll.RetriesBounded`.
- The tracker keeps a T+0 price in memory before the append that records it: `Tracker.StepExactIff`,
  `Tracker.RunMeasuredIff` and `Tracker.LostBaseline`.
- `cmd/pr-reaction-watcher/main.go:42` calls the default horizon a generous buffer past T+3d's worst
  case of about five days; it is four days. Without holidays only releases between Sunday and Tuesday
  at four ever get a T+3d sample: `Sampling.T3dSampledIff`.
- `internal/prreaction/schedule.go:30-32` lists the offsets in the order they become due; for a release
  less than an hour before the close EOD is due before T+1h: `Schedule.DueInOrderIff`.
- With a batch size of 1 the projector reads its cursor's own record for ever: `Projector.AdvancesIff`.
- A filing whose submissions response has no digits in its CIK is recorded with a blank one, is not
  read back, and is new again on every run: `Discovery.BlankCikRepeats`. It is the only such filing
  (`Discovery.RepeatFilingsNothingIff`), and there is no such press release
  (`Discovery.RepeatAppendsNothing`).
- `Session.enqueue` does not look at the reader's frame limit. A client never gets past a record whose
  frame is above it, however often it reconnects: `Session.OversizedBlocks`.
- `cmd/entity-graph/main.go:849` logs an error of the scan and returns what it has; the filing index is
  marked as backfilled from that part (`FilingIndex.Database.EnsureBackfilled`) and is not backfilled
  again.
- `splitSQL` reads the star of an opening slash and star again as part of the comment, so a slash, a
  star and a slash are a whole comment; the model does the same.

## Model

| member | source | states |
|---|---|---|
| `AppendProtocol.AtomicAppend` | eventstore/file_store.go:116-183 | under every safe schedule of any number of handles the journals hold sequences 1 to N, the committed events are the initial ones plus whole batches in the order they persisted, and with the lock free the state cell says N |
| `AppendProtocol.StepKeepsInvIffSafe` | eventstore/file_store.go:77-183 | with each persist one atomic replacement, a step keeps the protocol's invariant if and only if it is neither an open that rewrites the state cell with an older value nor a crash between the first write and the persist |
| `StateFile.CreateFaithfulIff` | eventstore/file_store.go:521-531 | beginning to persist a value, under the temporary name all processes share, leaves every completion an atomic replacement by the value renamed last if and only if nobody is persisting, or everybody who is has just emptied the temporary file to write that same value |
| `StateFile.RunFaithful` | eventstore/file_store.go:521-531 | over any run in which every persist begins like that, processes dying at any point included, the state file holds the line of the value renamed last |
| `StateFile.OlderValueWins` | eventstore/file_store.go:521-531 | for any two values there is a schedule of two processes in which the newer one is renamed into place and the state file ends with the older one written over it |
| `AppendProtocol.StepRefines` | eventstore/file_store.go:116-183 | every safe step leaves the committed events alone, except that persisting appends one whole batch |
| `AppendProtocol.PersistCommits` | eventstore/file_store.go:159-178 | the batch persisted is one contiguous block at the end of the log, stamped with the next sequences |
| `AppendProtocol.AppendAlone` | eventstore/file_store.go:116-183 | a handle that runs the section alone performs exactly the single atomic append |
| `AppendProtocol.UnsafeLeavesStaleCell` | eventstore/file_store.go:77-84 | any unsafe step that leaves the lock free leaves a state cell behind the journals |
| `AppendProtocol.StaleCellDuplicates` | eventstore/file_store.go:458-479 | from a stale cell, one handle that opens and appends writes a sequence the log already has |
| `AppendProtocol.RaceDuplicates` | eventstore/file_store.go:56-90 | from any directory nobody has open: one process begins to open, another appends, the first finishes, a third opens and appends, and the last two records carry one sequence |
| `AppendProtocol.DeathDuplicates` | eventstore/file_store.go:159-178 | from any such directory the same follows when a process dies after a write and before the persist |
| `AppendProtocol.ScanLatestIsLast` | eventstore/file_store.go:481-497 | recovery from the journals finds the last sequence of a numbered log |
| `Journal.RoundTrip` | eventstore/file_store.go:160-172 | what `Append` writes, both parsers read back |
| `Journal.CutJournal` | eventstore/file_store.go:373-412 | for a journal cut at any byte, streaming yields exactly the records whose newline survived, and reading it whole those or exactly one more, the latter only when just the newline was lost |
| `Journal.AppendAfterCut` | eventstore/file_store.go:562-595 | after more records are appended to a cut file it reads back if and only if the cut was on a record boundary |
| `Journal.ScanResumes` | eventstore/file_store.go:359-412 | once a prefix of whole lines has been scanned, scanning the rest on its own gives what one scan of all gives, whatever the bytes |
| `Journal.ConsumedIsWhole` | eventstore/file_store.go:373-412 | the bytes counted as consumed are a prefix of whole lines holding exactly the scanned records |
| `Journal.AsciiSpace` | eventstore/file_store.go:373-412 | lines end in a line feed, and blank is what holds only ASCII white space |
| `PlainCodec.PlainIsValid` | eventstore/file_store.go:160-172 | a codec as the byte results assume exists |
| `JournalReader.ScanFile` | eventstore/file_store.go:340-412 | the streaming loop computes the records, offset and highest sequence of the specification, from any start |
| `JournalReader.ReadRecordsFromFile` | eventstore/file_store.go:562-595 | the whole-file loop reads what the specification says, a torn last line included |
| `TailCursor.ScansAgree` | eventstore/file_store.go:340-431 | under every interleaving of appends and concurrent scans, each scan that resumes from the cursor delivers, or fails, as if it had read the file from byte 0 |
| `TailCursor.ScanCompletes` | eventstore/file_store.go:340-431 | from every such file, whatever other scans are at, a scan can begin, read and finish; it delivers every record asked for, and the cursor is then no earlier than where it stopped |
| `TailCursor.ResumeAgrees` | eventstore/file_store.go:341-371 | resuming at a whole-line prefix whose sequences are below the one asked for delivers what reading from byte 0 delivers |
| `TailCursor.PassIsSound` | eventstore/file_store.go:373-431 | where a pass stops is a whole-line prefix, and the highest sequence it reports is that of what it read |
| `TailCursor.StepKeepsInv` | eventstore/file_store.go:414-428 | every step keeps the cursor a whole-line prefix whose highest sequence is at most its `lastSeq` |
| `StoreView.SkippingAgrees` | eventstore/file_store.go:237-267 | a cache that is never below what a file holds leaves out nothing a reader is owed |
| `StoreView.SkippingAgreesIff` | eventstore/file_store.go:232-267 | with any cache at all, a read gives what is owed if and only if no file it does not take as current has a cached maximum below the sequence asked for and a record at or above it |
| `StoreView.SecondScanSees` | eventstore/file_store.go:281-332 | a handle that has scanned once delivers what another handle then appended to a file if and only if the file is its own current one or had been empty |
| `ReaderCache.StepBehindIff` | eventstore/file_store.go:232-332 | after any step, the handle's own append included, a cached maximum is behind its journal if and only if the step appended to that journal, or it was behind and the step did not read it |
| `ReaderCache.RunReadsRightIff` | eventstore/file_store.go:185-332 | over any run of other processes' appends and rotations, to older journals too, and a handle's own rotations, appends, `ReadFrom` and `Scan`, its next `ReadFrom` (`Scan`) gives all that is owed, whatever it asks for, if and only if no journal but the newest (its own) was appended to while cached and not read since |
| `ReaderCache.ReadFromAloneIsRight` | eventstore/file_store.go:232-255 | as long as all appends, its own included, go to the newest journal, a handle that never scans is given all it is owed by every read |
| `ReaderCache.ReadFromMisses` | eventstore/file_store.go:232-255 | when a writer that rotated before the next journal was opened appends after a read, a handle that never scanned is not given what was appended, from any history |
| `ReaderCache.ScanMisses` | eventstore/file_store.go:296-330 | a handle past its own day scans the journal another process writes to; after the next append and rotation neither `ReadFrom` nor `Scan` gives it what was appended |
| `StoreView.DecodeAppend` | eventstore/file_store.go:160-172 | bytes written to a clean day file are read back as the records appended to it |
| `FileStores.FileStore.constructor` | eventstore/file_store.go:56-90 | opening recovers the latest sequence, writes it back, opens today's journal and changes no record |
| `FileStores.FileStore.RecoverLatestSequence` | eventstore/file_store.go:458-479 | the latest sequence is the length of the log |
| `FileStores.FileStore.ScanLatestFromJournals` | eventstore/file_store.go:481-497 | without a state file the journals give the same |
| `FileStores.FileStore.RotateIfDateChanged` | eventstore/file_store.go:547-560 | rotation opens the day's journal, changes no record, and leaves a cache that can be trusted so |
| `FileStores.FileStore.Append` | eventstore/file_store.go:116-183 | on any open handle, whatever others have done before: an error and nothing, or the whole batch stamped with the next sequences, appended to the log and as encoded lines to today's journal |
| `FileStores.FileStore.Resync` | eventstore/file_store.go:146-153 | re-reading the state file catches up with other handles |
| `FileStores.FileStore.WriteRecords` | eventstore/file_store.go:159-172 | the loop numbers, encodes and writes each event in order |
| `FileStores.FileStore.ReadFrom` | eventstore/file_store.go:185-267 | on any open handle the page that its cache does not leave out, and the exact new cache; on one whose cache can be trusted the page a cache-free read gives, journals others have opened included |
| `FileStores.FileStore.Scan` | eventstore/file_store.go:281-332 | on any open handle everything from the sequence on that its cache does not leave out, and the exact new cache; with no maximum too low that is everything owed |
| `FileStores.FileStore.Others` | eventstore/file_store.go:116-183 | another process's append to the newest journal, on any later day, leaves a handle all it relies on and its cache as trustworthy as it was |
| `FileStores.FileStore.OthersLate` | eventstore/file_store.go:116-183 | so does one that still goes to the journal before, unless the handle has a maximum cached for that journal |
| `FileStores.TakeInto` | eventstore/file_store.go:257-264 | filling a page record by record stops at the limit and skips nothing |
| `FileStores.AppendKeeps` | eventstore/file_store.go:159-178 | a batch written to the newest journal is appended to the log and disturbs no cache |
| `Discovery.LoadSeen` | prwatch/runner.go:212-238 | with others appending to the newest journal between the pages, paging by the last sequence plus one ends when they pause, visits every record there is then once, in order, and collects every identity |
| `Discovery.RunDiscovery` | prwatch/runner.go:93-151 | with others appending to the newest journal all the while, a run appends exactly the items whose identity was new when the store was loaded, each once and in order, and a dry run nothing |
| `Discovery.RunsAlone` | prwatch/runner.go:93-151 | alone, it leaves the log with the new items' events at its end |
| `Discovery.MixedIs` | secwatch/discovery.go:149-184 | however others' appends fall between them, the run's own are the new items' events and the rest are theirs |
| `Discovery.PageIsNext` | secwatch/discovery.go:293-320 | the page at a cursor is the next stretch of the log, empty only at its end |
| `Discovery.FreshOnce` | secwatch/discovery.go:149-184 | no identity is taken that was seen before or taken already |
| `Discovery.FreshCovers` | secwatch/discovery.go:149-184 | every identity not seen before is taken |
| `Discovered.NewFilingsAppended` | secwatch/discovery.go:149-184 | a run over a submissions response appends, in its order, exactly the filings with an accession number that the store does not hold for that company, each once |
| `Discovered.NewReleasesAppended` | prwatch/client.go:80-101 | a run over a listing page appends, in its order, exactly the releases with a headline and a URL that the store does not hold under their ID, or their URL when they have none, each once |
| `Filings.IdentityIff` | secwatch/filing.go:23-25 | two filings have one identity if and only if they have one normalised CIK and one accession number but for outer white space |
| `Filings.SameCikIff` | secwatch/filing.go:27-42 | two CIKs normalise to one if and only if they have the same digits, or both have one to ten that differ only in zeros in front |
| `Filings.NormalIs` | secwatch/filing.go:27-42 | a normalised CIK is blank without digits, and otherwise ends in them, has only zeros before them, and is ten long or as long as they are |
| `Filings.DigitIs` | secwatch/filing.go:27-34 | the digits kept are the ten decimal ones |
| `Discovery.InterruptedRunResumes` | prwatch/runner.go:93-151 | a run cut short after any number of appends and then repeated ends where one whole run does |
| `Discovery.RepeatAppendsNothing` | prwatch/client.go:80-101 | whatever a listing page holds, repeating the run of what is discovered on it appends nothing, for no release is discovered without an identity |
| `Discovery.RepeatAppendsNothingIff` | secwatch/discovery.go:293-320 | for any source whose events are read back under their own identity or not at all, repeating a run appends nothing if and only if every item it took is read back |
| `Discovery.RepeatFilingsNothingIff` | secwatch/discovery.go:293-320 | for filings with an accession number, as the parser leaves them, repeating a run appends nothing if and only if every filing it took had a CIK |
| `Discovery.ParsedNames` | secwatch/submissions.go:32-95 | every filing parsed has an accession number and the normalised CIK of its response |
| `Discovery.BlankCikRepeats` | secwatch/submissions.go:32-41 | a filing of a response without a digit in its CIK, not seen in the store, is appended by a run, appended again by the next, and still not seen |
| `Frames.FrameRoundTrip` | feedserver/frame.go:35-71 | a written frame reads back as itself if and only if its payload is within the limit |
| `Frames.StreamRoundTrip` | feedserver/frame.go:35-71 | reading the concatenation of any list of written frames returns that list |
| `Frames.CutStream` | feedserver/frame.go:51-71 | a stream of any frames cut at any byte reads as exactly those that arrived whole, up to the first whose payload is above the limit |
| `Frames.WriteFrame` | feedserver/frame.go:35-49 | the writer puts exactly the encoding on the stream |
| `Frames.ReadFrame` | feedserver/frame.go:51-71 | the reader returns what the specification decodes and leaves the rest of the stream, or the same error |
| `Session.WritesAPrefix` | feedserver/session.go:129-196 | in every schedule of the loops the records written, and the one being written when a write fails, are a prefix of those owed from the first sequence, each once and in order |
| `Session.CaughtUpMeansAll` | feedserver/session.go:129-157 | a live session whose tail finds nothing new and whose queue holds no record has written everything owed |
| `Delivery.TailSends` | feedserver/session.go:141-157 | in every session not cancelled, whose tail is waiting with a record before it and with room in the queue, one tick and one turn of the loop queue exactly that record |
| `Delivery.DeliversAll` | feedserver/session.go:129-196 | from every session not cancelled some run of the tail and the write loop alone, with no more appends, ends with exactly the records owed written |
| `Delivery.CancelledQueuesNoMore` | feedserver/session.go:129-175 | once cancelled, whatever follows, a session queues at most what its tail had read by then, the first of it first; a tail between two ticks queues nothing more |
| `Delivery.EveryFrameOnce` | feedserver/session.go:129-223 | over every run the frames begun and queued are those its pings, heartbeats and records queued, each once and in order, so every ping not met by a full queue is answered |
| `Delivery.FullQueueCancels` | feedserver/session.go:159-175 | a frame for which there is no room ends the session as behind and is not queued |
| `Session.FullQueueEndsTail` | feedserver/session.go:129-175 | from the moment a full queue refuses a record, in every continuation the session sends only what had been queued before, in order, and owes exactly the rest, the refused record first |
| `Session.ReconnectSendsTheRest` | feedserver/session.go:98-158 | however a session ended, a client that reconnects with the last sequence it was written is sent exactly what it was not, if and only if the handle's latest is not behind the client |
| `Session.StepKeepsInv` | feedserver/session.go:129-223 | written and queued records are together the first ones owed, after every step of every loop |
| `Session.ClientReadsAPrefix` | feedserver/session.go:176-195 | a client that received any number of the bytes sent, those of a frame whose write failed half-way included, decodes frames that carry a prefix of the records owed, whatever the frames' sizes and its limit |
| `Session.OversizedBlocks` | feedserver/session.go:159-175 | when the first record owed has a frame above the client's limit, the client reads no record of the session however many bytes arrive, and reconnecting with its last sequence starts at the same record |
| `Resume.ResumesExactlyIffFresh` | feedserver/session.go:98-121 | the first sequence sent follows the client's last if and only if the store's latest, as the handle knows it, is not behind the client |
| `Resume.RealtimeConstantIsResume` | feedserver/session.go:98-121 | only -1 is recognised as real-time; the documented constant is served as a resume |
| `Resume.HandshakeSends` | feedserver/session.go:98-121 | 0 is sent the whole store, a sequence behind the latest what follows it, and everything else, -1 included, only what is appended from then on |
| `Resume.ReconnectsWithoutGap` | feedserver/session.go:98-158 | over any number of connections a client that starts with a backfill never misses a record, and what it receives is, joined, the first records of the store, each once and in order, if and only if no handshake behind the client delivered anything |
| `Tracker.RunKeeps` | cmd/pr-reaction-watcher/main.go:131-328 | over every run, crashes, refused appends and stale cursors included, at most one schedule an identity and one sample an identity and offset are stored, and a restart loads the live tracker but for baselines whose T+0 sample was not stored |
| `Sampling.SamplesInTime` | cmd/pr-reaction-watcher/main.go:279-328 | over every run each sample in the store is of a release scheduled before it, for the target time of its offset, and was taken at or after that time and within the horizon |
| `Sampling.TryStoresIff` | cmd/pr-reaction-watcher/main.go:279-328 | after any run a try stores a sample, with the time and price of the try, exactly when the quote has a price, the append succeeds, the store has no sample of that offset, and it is neither before its target nor past the horizon |
| `Sampling.OfferStoresIff` | cmd/pr-reaction-watcher/main.go:159-257 | after any run a feed record is scheduled, under its own identity and time, exactly when it has a ticker, its identity is not in the store, it is not past the horizon, and the append succeeds |
| `Sampling.PassSamplesDue` | cmd/pr-reaction-watcher/main.go:279-328 | after a pass every offset of a scheduled release it visits that is past its target, within the horizon, priced, and not refused by the store has its sample |
| `Sampling.T3dSampledIff` | cmd/pr-reaction-watcher/main.go:42 | with the default horizon of 96 hours and no holidays, some run stores a T+3d sample of a release if and only if the release is between Sunday and Tuesday at four |
| `Schedule.TargetsAreCloses` | internal/prreaction/schedule.go:73-114 | on any calendar EOD is the first close of the market after the release, T+1d the second and T+3d the fourth |
| `Schedule.DueInOrderIff` | internal/prreaction/schedule.go:30-32 | the offsets become due in the order they are listed in if and only if the market does not close within an hour of the release |
| `Schedule.NextTradingDay` | internal/prreaction/schedule.go:63-71 | the loop finds the first open day after a day |
| `Schedule.PlainValid` | internal/marketcal/marketcal.go:40-45 | a week without holidays is such a calendar |
| `Tracker.StepExactIff` | cmd/pr-reaction-watcher/main.go:309-324 | a step keeps the live tracker what a restart loads if and only if it is not a due T+0 price whose append fails |
| `Tracker.RunExactIff` | cmd/pr-reaction-watcher/main.go:131-157 | after any run a restart loads the live tracker if and only if no release holds a baseline whose T+0 sample was not stored |
| `Tracker.RunExact` | cmd/pr-reaction-watcher/main.go:131-157 | in a run without such a step the rebuilt tracker is the live one throughout, baselines included |
| `Tracker.StepMeasuredIff` | cmd/pr-reaction-watcher/main.go:305-324 | a step keeps every stored change measured against the T+0 price stored before it, if and only if it does not store a change against a T+0 price that was fetched and never stored |
| `Tracker.RunMeasuredIff` | cmd/pr-reaction-watcher/main.go:279-328 | after a run every stored change is so measured if and only if no step of it was such a one |
| `Tracker.LostBaseline` | cmd/pr-reaction-watcher/main.go:309-324 | a pass fifteen minutes after a release in which the T+0 append fails and the next sample is measured against a price the store does not hold |
| `Tracker.Watcher.LoadFromStore` | cmd/pr-reaction-watcher/main.go:131-157 | the reload loop computes the fold over the store |
| `Tracker.Watcher.Ingest` | cmd/pr-reaction-watcher/main.go:159-257 | each record of one page is offered in order and the cursor moves past all of them, whatever was skipped or refused |
| `Tracker.Watcher.SampleDue` | cmd/pr-reaction-watcher/main.go:279-328 | a pass tries every offset, in order, of every tracked release, each release once, by the steps of the state machine |
| `SqlSplit.SplitSql` | cmd/bob-agent/migrations.go:110-165 | the one-pass loop with its mode flags computes the reference: cut at the first top-level semicolon and start afresh |
| `SqlSplit.CutsExactly` | cmd/bob-agent/migrations.go:119-160 | the text is cut at every semicolon outside comments and quotations, in the mode of the whole source, and nowhere else |
| `SqlSplit.NothingLost` | cmd/bob-agent/migrations.go:156-165 | the pieces, their semicolons and the tail are the source |
| `SqlSplit.SplitsBackIff` | cmd/bob-agent/migrations.go:110-165 | splitting a list of statements, each ended by a semicolon, returns the list if and only if each is lexically closed without a top-level semicolon |
| `SqlSplit.FreshAfterCut` | cmd/bob-agent/migrations.go:119-160 | after a cut the lexer is in its initial mode |
| `SqlSplit.QuotationClosedIff` | cmd/bob-agent/migrations.go:137-148 | text between two single, double or back quotes, without that quote inside, is closed and not cut if and only if no backslash is before the second |
| `SqlSplit.LineCommentClosed` | cmd/bob-agent/migrations.go:124-143 | two hyphens and the rest of a line, whatever is in it, are closed and not cut |
| `SqlSplit.BlockCommentClosed` | cmd/bob-agent/migrations.go:129-146 | a slash and a star, text without a star, and a star and a slash are closed and not cut |
| `SqlSplit.PlainIsTop` | cmd/bob-agent/migrations.go:119-160 | text without quotes, hyphens and slashes is cut at each of its semicolons and nowhere else |
| `BatchPoll.HandsOverOnce` | cmd/observation-watcher/main.go:780-929 | over any run of polls, failures, pauses and arrivals the observations handed over are, in file order and each once, all that should be but those after the cursor, at most twenty an invocation; those that should be are the readable files, with the gate on the ones there is a reason for |
| `BatchPoll.GateIff` | cmd/observation-watcher/main.go:566-590 | with the gate on an observation is kept if and only if it has findings, a suggested fix, a severity of its own, needs attention, has a parse error or a gap, or counts a signal other than a high-trust director |
| `BatchPoll.PollTakes` | cmd/observation-watcher/main.go:836-929 | a successful poll takes the first twenty of those pending, or all |
| `BatchPoll.Drains` | cmd/observation-watcher/main.go:871-876 | without arrivals a backlog of b is dealt with after k successful polls if and only if 20k is at least b |
| `BatchPoll.AgainIffNoHyphen` | cmd/observation-watcher/main.go:789-800 | for any directory sorted by name and any cursor, when the name a successful poll saves has no outer white space, the poll hands over something the next takes up again if and only if that name has no hyphen; with one, what is pending is what was but for the batch |
| `BatchPoll.PendingAfter` | cmd/observation-watcher/main.go:789-832 | after a successful poll what is pending lies after the saved name, outer white space aside, or is the whole directory when that has no hyphen |
| `Text.SpaceIs` | cmd/observation-watcher/main.go:789-800 | outer white space is what Unicode counts as such, by code point |
| `Text.LessIs` | cmd/observation-watcher/main.go:802-832 | names are compared character by character, as Go does |
| `BatchPoll.Watcher.RunWithRetries` | cmd/observation-watcher/main.go:82-127 | every run but the last was retried, for at most three rate limits and one context reset, with the delay and the arguments of its place, and the last decides |
| `BatchPoll.Watcher.InvokeWithRetry` | cmd/observation-watcher/main.go:78-127 | paused, it runs nothing; an exhausted credit pauses all invocations for ten minutes from then |
| `BatchPoll.RetriesBounded` | cmd/observation-watcher/main.go:82-120 | at most five runs and 270 seconds of sleep |
| `BatchPoll.DropFlagIs` | cmd/observation-watcher/main.go:154-162 | dropping a flag drops it wherever it is and leaves the other arguments in order |
| `BatchPoll.Watcher.Collect` | cmd/observation-watcher/main.go:802-832 | the first loop collects the files after the cursor, in order |
| `BatchPoll.ApplyGate` | cmd/observation-watcher/main.go:836-845 | the second loop drops, when the gate is on, exactly the observations for which there is none of the reasons, and keeps the order |
| `BatchPoll.Watcher.PollBatched` | cmd/observation-watcher/main.go:780-929 | the command is invoked exactly when there is a batch and no pause, as its runs decide; the poll is then a step of the model that succeeds exactly when the invocation does |
| `Cooccurrence.Seeded` | internal/cooccurrence/seed.go:17-40 | seeding an empty store gives each key as many as the index pairs under it at most 48 hours apart, whatever the order of the input, and the latest midpoint |
| `Cooccurrence.SeededFirst` | internal/cooccurrence/seed.go:17-40 | with tickers free of colons the first midpoint, written once, is the earliest |
| `Cooccurrence.MidsOrder` | internal/cooccurrence/seed.go:21-24 | two histories that differ only in order have the same pairs and midpoints |
| `Cooccurrence.BreakDropsNothing` | internal/cooccurrence/seed.go:28-30 | leaving the inner loop early loses no pair |
| `Cooccurrence.FirstIsLeast` | internal/cooccurrence/cooccurrence.go:63-77 | of the hits under a key of one pair, the first recorded is the earliest |
| `Cooccurrence.KeyNamesPair` | internal/cooccurrence/cooccurrence.go:34-39 | keys of colon-free tickers are equal if and only if their pairs are |
| `Cooccurrence.PairedIff` | internal/cooccurrence/seed.go:25-37 | counted for a pair of colon-free tickers are exactly the signals of one and the other at most 48 hours apart |
| `Cooccurrence.KeysClashIff` | internal/cooccurrence/cooccurrence.go:34-39 | pairs of any tickers have one key if and only if they are one pair or the key can be cut at another of its colons |
| `Cooccurrence.KeysClash` | internal/cooccurrence/cooccurrence.go:34-39 | there are two such pairs |
| `Cooccurrence.Store.Record` | internal/cooccurrence/cooccurrence.go:54-78 | the new edge map, for a new and for a known pair |
| `Cooccurrence.Store.SeedFromSignals` | internal/cooccurrence/seed.go:17-40 | sorts in place, keeps the signals, records every pair within the window, and leaves an empty store as `Seeded` and `SeededFirst` say |
| `Cooccurrence.Store.RecordGroup` | internal/cooccurrence/cooccurrence.go:81-87 | recording a group is seeding with its tickers at one time |
| `Cooccurrence.Store.RelatedTo` | internal/cooccurrence/cooccurrence.go:91-131 | the first ten, by weight and then last sight, of the ticker's edges, each once |
| `Sorting.SortSlice` | internal/cooccurrence/seed.go:21-24 | sorts in place by any ranking and keeps the elements |
| `AccuracyIndex.IndexIsReplay` | cmd/entity-graph/accuracyindex.go:90-153 | after any batches, starts and lost databases the index is the last-wins replay of the filtered history and, times of recording aside, what upserting every unfiltered batch gives |
| `AccuracyIndex.FilterAgreesIff` | cmd/entity-graph/accuracyindex.go:201-229 | a batch may be filtered, whatever the index holds, if and only if its records of one signal agree |
| `AccuracyIndex.RepeatAppendsNothingIff` | cmd/entity-graph/accuracyindex.go:201-229 | repeating a batch appends nothing if and only if no ID is blank and records of one signal agree |
| `AccuracyIndex.StepExactIff` | cmd/entity-graph/main.go:724-736 | a batch, with its index read or not, keeps index and history together if and only if write and upsert went the same way, or none of the news had an ID, or, when the read failed and nothing was filtered, upserting the batch changes no row |
| `AccuracyIndex.HistoryIsNews` | cmd/entity-graph/accuracyindex.go:191-229 | in a run whose writes and upserts go the same way and which writes nothing unfiltered, each record of the history differs by more than its time from the verdict before it |
| `AccuracyIndex.BackfillTwice` | cmd/entity-graph/accuracyindex.go:90-111 | a backfill repeated changes nothing |
| `AccuracyIndex.UpsertAt` | cmd/entity-graph/accuracyindex.go:118-153 | the row of a key after an upsert is its last record, or what it was |
| `AccuracyIndex.ChangedAt` | cmd/entity-graph/accuracyindex.go:201-229 | the filter passes, for each key, the first record that is news |
| `AccuracyIndex.Index.UpsertRecords` | cmd/entity-graph/accuracyindex.go:118-153 | the transaction upserts all of the records or none |
| `AccuracyIndex.Index.EnsureBackfilled` | cmd/entity-graph/accuracyindex.go:90-111 | once a database, marked only when done |
| `AccuracyIndex.Index.ChangedRecords` | cmd/entity-graph/accuracyindex.go:201-229 | the loop computes the filter; a read error passes everything |
| `AccuracyIndex.Index.WriteBatch` | cmd/entity-graph/main.go:724-736 | the write-then-upsert step is one step of the model |
| `FilingIndex.IndexAgreesIff` | cmd/entity-graph/filingindex.go:55-184 | for every split of history into a backfilled prefix and batches, overlaps included, the index loads as one scan if and only if no record fills in what the first of its filing left blank |
| `FilingIndex.CompleteIsSettled` | cmd/entity-graph/main.go:822-854 | so in particular when every filing record carries a date and a form |
| `FilingIndex.HoldsBatch` | cmd/entity-graph/filingindex.go:104-146 | a batch over covered and new ground keeps the table the first records of the log |
| `FilingIndex.HoldsBackfill` | cmd/entity-graph/filingindex.go:63-92 | a backfill from a scan gives the first records of what was scanned |
| `FilingIndex.BuildFilingIndexes` | cmd/entity-graph/main.go:822-854 | the scan loop computes the first date and the first form of each filing |
| `FilingIndex.BuildSays` | cmd/entity-graph/main.go:822-854 | the scan finds for a filing of a company and accession number the date of its first record with one and the form, or else form type, of its first record with either |
| `FilingIndex.Database.EnsureBackfilled` | cmd/entity-graph/filingindex.go:55-96 | the rows of the part of the history the scan got through, in any order, ignoring those present, once a database; a transaction that fails leaves nothing and no mark |
| `FilingIndex.Database.UpsertBatch` | cmd/entity-graph/filingindex.go:104-146 | insert or ignore, record by record, in one transaction that may fail and then leaves nothing |
| `FilingIndex.Database.LoadIndexes` | cmd/entity-graph/filingindex.go:163-184 | the non-blank columns as two maps |
| `RateLimit.WindowBound` | secwatch/client.go:290-319 | in any window of any run at most burst plus one an interval are granted |
| `RateLimit.TokensBounded` | secwatch/client.go:290-308 | tokens stay within 0 and burst, whatever the clock does |
| `RateLimit.WaitIsEnough` | secwatch/client.go:307-309 | a caller alone is granted a token after the computed wait and not before |
| `RateLimit.TokenBucket.TryTake` | secwatch/client.go:292-306 | one pass under the lock |
| `RateLimit.TokenBucket.Wait` | secwatch/client.go:290-319 | passes until one is granted or the context ends; exactly one token is taken, or none |
| `RateLimit.DelayInRange` | secwatch/client.go:204-241 | under any answers to any number of callers the extra delay stays within 0 and 12 s |
| `Pacing.DelayAfter` | secwatch/client.go:204-241 | after any answers, a body halves a delay above 100 ms, a 403 or 429 adds two seconds, a server error that is not the first in a row one and a half, up to twelve, and nothing else changes it |
| `Pacing.CountsServerErrors` | secwatch/client.go:216-234 | the counter is the number of server errors since the last other answer, connections that broke aside |
| `Pacing.RefusalsAddUp` | secwatch/client.go:216-241 | n refusals in a row make a delay of two seconds each, up to twelve |
| `RateLimit.DelayRecovers` | secwatch/client.go:204-214 | seven successes bring it to 100 ms or less |
| `RateLimit.BackoffBounded` | secwatch/client.go:243-250 | with 64-bit wrap-around the backoff panics if and only if the shifted base is below -1, and is otherwise between 0 and the cap |
| `RateLimit.BackoffDoubles` | secwatch/client.go:243-250 | while the shift does not overflow the backoff never panics and is at least half the doubled base, or half the cap |
| `Pacing.BackoffDoublesEach` | secwatch/client.go:243-250 | while nothing overflows, the range of an attempt's backoff is twice that of the one before, up to the cap |
| `RateLimit.RetryableIff` | secwatch/client.go:252-260 | asked again are 403, 429, every server error and every failure without a status |
| `RateLimit.Client.FetchSubmissions` | secwatch/client.go:102-131 | at most MaxRetries + 1 requests, each but the last retryable, sleeping at most MaxRetries caps and MaxRetries + 1 delays of 12 s, with the pace every noted answer, its own and other callers', leaves |
| `RateLimit.Client.Retry` | secwatch/client.go:133-159 | the same loop for a page |
| `RateLimit.Client.NoteFailure` | secwatch/client.go:216-234 | what each kind of failure does to the delay and the run of server errors |
| `RateLimit.Client.NoteSuccess` | secwatch/client.go:204-214 | a success halves a delay above 100 ms |
| `Projector.RunKeeps` | cmd/projector/main.go:174-211 | over every run, failures and restarts included, every decodable signal at or below the cursor has its rows, every row is that of the signal at its sequence, and the saved cursor is not ahead |
| `Projector.ReplayChangesNothing` | cmd/projector/main.go:174-211 | replaying a batch from any earlier cursor leaves the rows of every sequence up to the cursor, and with all projected the whole tables, as they were |
| `Projector.ProjectedRight` | cmd/projector/main.go:313-418 | projecting writes the signal's rows, keyed by its sequence, and no others |
| `SignalRows.TablesSay` | cmd/projector/main.go:313-418 | after any run every row of either table says of the signal at its sequence what each column is for, and every signal up to the cursor has its rows |
| `SignalRows.BatchIs` | cmd/projector/main.go:174-211 | a batch deals with its page up to the record at which the database fails, leaves there at most the first of two rows, ends its cursor before that record, and saves it exactly when it can and one of the records was a signal |
| `SignalRows.DuplicateKeeps` | cmd/projector/main.go:365-418 | a row that is there already keeps the columns that name it and takes the others from the signal |
| `Projector.CatchesUp` | cmd/projector/main.go:174-211 | k batches without failures make k times size - 1 new records, up to the end |
| `Projector.AdvancesIff` | cmd/projector/main.go:174-201 | while records are left batches get further if and only if their size is at least 2 |
| `Projector.Database.ProjectSignal` | cmd/projector/main.go:313-418 | two statements, either of which may fail, the second only for the timeline types |
| `Projector.Database.RunBatch` | cmd/projector/main.go:174-211 | the loop stops at the first failure and saves the cursor only when something was projected |
| `EarningsCalendar.AtMostThree` | cmd/earnings-calendar/main.go:136-345 | over any interleaving of sources, failures and restarts the surviving records of an ID rise strictly in trust, so there are at most three |
| `ReportDates.StatusesAscend` | cmd/earnings-calendar/main.go:136-345 | over every run the surviving records of an ID go from backfilled over announced to confirmed, each at most once |
| `ReportDates.StatusNeverFalls` | cmd/earnings-calendar/main.go:136-345 | a date that survives a reload is only ever followed by one of a later status, restarts included |
| `ReportDates.ArticleWrites` | cmd/earnings-calendar/main.go:136-192 | an article with a ticker, a time and a quarter writes a backfilled date where there is none, and never over a backfilled, announced or confirmed one |
| `ReportDates.PressWrites` | cmd/earnings-calendar/main.go:194-271 | a press release that yields a date, a period and a ticker writes an announced date where there is none or a backfilled one |
| `ReportDates.DocumentWrites` | cmd/earnings-calendar/main.go:273-345 | an earnings 8-K with a period writes a confirmed date over all but a confirmed one, with the filing date's year when it has none |
| `ReportDates.SameIdIff` | internal/earningscal/types.go:45-62 | two IDs are one exactly when ticker and quarter read the same with a hyphen between and the years are the same or both negative; tickers and quarters are then the same when the quarters have no hyphen |
| `EarningsCalendar.ConfirmedStays` | cmd/earnings-calendar/main.go:273-345 | a confirmed date that survives a reload is never replaced |
| `EarningsCalendar.LiveIsReloadIff` | internal/earningscal/store.go:27-69 | the live calendar is what `Refresh` loads if and only if each of its records survives |
| `EarningsCalendar.WrittenAgainIff` | internal/earningscal/store.go:49-58 | a record is written again after a restart if and only if it does not survive: its year is 0 |
| `ReportDates.LoadedIff` | internal/earningscal/store.go:27-69 | a restart loads under an ID its last record with an ID, a ticker, a date and a year other than 0, and nothing without one |
| `EarningsCalendar.Store.Refresh` | internal/earningscal/store.go:27-69 | the last surviving record of each ID |
| `EarningsCalendar.Store.Append` | internal/earningscal/store.go:72-94 | one line and the live entry, or neither |
| `EarningsCalendar.Store.Consider` | cmd/earnings-calendar/main.go:166-190 | the guarded write of one candidate |
| `EarningsCalendar.Store.BackfillFromEps` | cmd/earnings-calendar/main.go:136-192 | every article is considered, in order |
| `EarningsCalendar.Store.ScanPage` | cmd/earnings-calendar/main.go:194-345 | every record of a page is considered, in order, and the cursor moves past all of it |

## Left out

- Failures of writes, syncs and state persistence inside the critical section of `Append`, and event
  validation and normalisation before it (`eventstore/file_store.go:124-131`).
- Errors that end a `Scan` half-way: a callback that fails, a cancelled context; a file is read as it
  is when the pass opens it.
- HTTP, LLM and quote clients, regular-expression extraction of dates and periods, HTML, prompts,
  GitHub issues and logging: their results are parameters.
- The market's holidays and early closes: any calendar is allowed for, and where a week without
  holidays is meant, so are days of 24 hours.
- JSON and date formats: a record codec, integers and strings stand for them.
- `market_data_daily`: the same batch loop, with a table whose unique key is not the sequence alone.
- `pollPrimeTasks` and `crawlBatch`: no exactly-once claim fits them.
- `pollOnce`, dry runs and the failure of a cursor file's write in the observation watcher.
- The frames written straight to the connection (`Behind` by a full queue, errors by `sendError`), and
  bytes read ahead by the handshake.
- `All`, `Query`, `Upcoming`, `AllEdges`, `EdgeCount`, `BuildFromSignals` and the accuracy reports:
  read-only views that would only add easy members.
- The columns `issuer`, `before_market`, `source` and `updated_at` of an earnings date, and the
  `meta.snapshot_at` heartbeats of the side indexes.
- Byte-wise truncation of text that is not ASCII in the projector.
- `RateLimit.TokenBucket.Wait`: does not model the truncation of the wait to whole nanoseconds, which only costs one more pass.
- `RateLimit.WindowBound`: does not model floating-point rounding of the tokens.
- `Cooccurrence.SeededFirst`: does not cover tickers with a colon, whose edges may be shared (`Cooccurrence.KeysClashIff`).
- `BatchPoll.HandsOverOnce`: does not cover files that arrive under a name before the cursor, or that become readable only after the cursor has passed them; neither is handed over.
- `AppendProtocol.StepKeepsInvIffSafe`: takes a persist as one atomic replacement; what two persists at once do to the file is in `StateFile`, which is not composed with the protocol.
- `Discovery.LoadSeen`: ends because the others stop appending at some point; against writers that never pause the paging loop need not end. Their batches land whole and in the newest journal: after a late write to an older one a page may leave out records (`ReaderCache.ReadFromMisses`).
- `Discovery.RunDiscovery`: does not cover others' late writes to a journal older than the newest, for its loading is `Discovery.LoadSeen`'s.
- `FileStores.FileStore.Others`: does not model a batch of which only some records are written when a call begins; `AppendProtocol` and `TailCursor` do.
- `Frames.CutStream`: does not cover payloads of 4 GiB or more, whose length field wraps (`Frames.FrameRoundTrip` does for one frame); `Session.ClientReadsAPrefix` and `Session.OversizedBlocks` do not either.
- `Session.WritesAPrefix`: models the three loops as steps of a state machine, not as code with channels.
- `Tracker.RunKeeps`: does not cover an append that is reported as failed after its record reached the store.
- `FilingIndex.IndexAgreesIff`: does not cover a batch whose transaction fails (`FilingIndex.Database.UpsertBatch`); the code logs the failure and moves on, and the batch's filings stay out until they appear again.
