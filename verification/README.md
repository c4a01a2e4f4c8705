# Verified model of the tick-data gateway and archive

This project models the tick-ingest gateway and the archive and replay pipeline behind it, and proves what
the pipeline promises over whole runs. Check it with `dafny verify dfyconfig.toml` (Dafny 4.11).

The pipeline, and the modules that model it:

- **Wire and JSON codecs.** `Fields`, `Wire`: frames and messages. `Json`, `JsonParsers`, `JsonTheorems`: the canonical
  JSON subset of RFC 8259 (sections 4 to 7) that manifests are written in. `Decimal`, `Texts`: decimal notation, and texts
  at positions.
- **Ingest.** `Wal`, `Journal`, `Reconcile`, `Cursor`, `Disk`: the stores and the decisions. `Gateway`: the durable-ACK
  protocol as a state machine with crashes and faults. `GatewayServer`: the object whose methods refine its steps.
  `GatewaySafety`, `GatewayReplay`, `GatewayFencing`, `GatewayLag`, `GatewayExample`: what holds in every run, and when.
- **Archive.** `DaySelection`, `DayCoordinates`, `DaySlices`, `Segments`: the records of a UTC day in a run of WAL segments.
  `Manifest`, `ManifestTheorems`, `ManifestAcceptance`, `ManifestRevisions`, `ManifestExamples`: building, verifying and
  revising a raw-day manifest.
  `Catalog`: which segments still wait for publication.
- **Replay.** `ReplaySource`, `ReplayExpansion`, `ReplayTheorems`, `ReplayRecount`, `ReplayOpen`: reading an accepted day back.
  `Overlap`, `Continuity`, `ContinuityTheorems`, `ContinuityRuns`, `ContinuityTime`, `ContinuityWindows`,
  `ContinuityFinish`, `ContinuityExample`, `Reducers`: merging overlapping batches into one hash-chained stream. `Replay`, `PhysicalRows`, `Parts`, `Generators`, `GeneratorTheorems`:
  rows, Parquet parts and their manifests.
- **All together.** `EndToEnd`: from WAL segments through manifest and source to replay rows.

How it is modelled. `Protocol` has the integer widths as subset types. `Digests` idealises SHA-256: a digest keeps its
preimage, so two digests are equal exactly when what was hashed is equal, and none is the zero array. A frame enters a hash
as its decoded message, which `Wire.WireIsCanonical` justifies. Clocks, disk usage, file and database faults, UTF-8
validity and CRC32C are parameters. Each imperative unit is a class or a method with loops whose contract ties it to
a function, and the results are proved about that function.

What is not true of the code, with an input that shows it and the exact condition under which it is:

- A repeated stretch of ticks is removed only if the new batch starts within the current segment, reaches the last tick
  emitted, and starts no earlier than that tick in time; otherwise the whole batch is given out again in a new segment
  (`ContinuityWindows.StepOnWindow`, over whole runs `ContinuityWindows.WindowsReconstructTheSource`). It fails for a batch
  that reaches back to an earlier millisecond (`ContinuityExample.RepeatedWindowExample`) and for one that ends before the
  last tick emitted, even within one millisecond (`ContinuityExample.ShortWindowExample`), which is what the cursor asks for
  after a millisecond with more ticks than the initial count (`ContinuityExample.ShortWindowIsAskedFor`).
- An ACK is not always replay-stable. If a journal insert fails and a different new batch is answered before the journal is
  rebuilt, its ACK is repeated later if and only if the lagging journal and the WAL answer that batch alike, for which it is
  enough that its records are later than both cursors (`GatewayLag.NewAckIsStableIff`, `Cursor.SameOutcomeIff`,
  `GatewayExample.ContradictingAcks`; over whole runs `GatewayReplay.RunIsStableIff`).
- A raw-day revision is refused if the previous revision of the day was empty and this one is not, or if the previous one had
  no records, this one has, and the day lies before 1970 (`ManifestRevisions.RevisionAcceptedIff`,
  `ManifestExamples.EmptyDayExample`, `ManifestExamples.EarlyDayExample`).
- The verifier that is given a manifest's chain objects looks only at the entries between the ends of the slice. The ranges
  are the whole day in these objects if and only if nothing of the day lies outside (`ManifestAcceptance.AcceptedIsTheDayIff`,
  `ManifestExamples.ShortSliceExample`). The replay source looks at all entries.
- The wire encoder accepts messages that do not decode back, such as a batch with another schema (`Wire.RoundTripIff`,
  `Wire.NoSchemaExample`).
- A physical row reads back as the same row only if the record carries the row's capture sequence
  (`PhysicalRows.PhysicalRoundTrip`, `PhysicalRows.RenumberedExample`).
- The JSON parser lets an unescaped tab, line feed or carriage return stand in a string; such documents are refused later,
  as not canonical (`JsonTheorems.DecodeAcceptsIff`, `JsonTheorems.RawTabExample`).

## Model

| member | source | states |
|---|---|---|
| EndToEnd.BuiltIsReplayable | internal/archive/manifest.go:391-495 | a manifest with anything of the day, built from all segments of a scope, is accepted by the replay source from its chain objects alone |
| EndToEnd.DayFinishesIff | internal/continuity/reducer.go:122-165 | on an accepted day, with a valid scope and producer and a sink that takes every row, the reducer finishes if and only if every batch of the day has the schema, names a session and carries its lease |
| EndToEnd.EveryTickIsReplayed | internal/continuity/reducer.go:29-234 | for an accepted day on which the reducer finishes, every record of the day in an error-free WAL batch has its payload in the replay stream |
| EndToEnd.OnlyTheDayIsReplayed | internal/continuity/reducer.go:29-234 | every payload in that stream is the payload of a record of the day in the WAL |
| ContinuityTheorems.SegmentEndsWithBatch | internal/continuity/reducer.go:166-229 | after any batch without source error and with a selected record, the data rows of the current segment end with the whole fingerprint sequence of the batch |
| ContinuityTheorems.StepAbsorbs | internal/continuity/reducer.go:191-229 | a batch that joins the segment cleanly adds exactly its ticks beyond the longest overlap and no marker; any other opens one new segment that holds all its ticks |
| ContinuityTheorems.StepKeeps | internal/continuity/reducer.go:122-233 | the loop invariant: one hash chain, segmented rows, and a tail that is the end of the current segment |
| ContinuityTheorems.AlignEffect | internal/continuity/reducer.go:197-216 | which of history change, ambiguous overlap, missing overlap and clean join happens, and what each does to the state |
| ContinuityTheorems.TailIsSegmentEnd | internal/continuity/reducer.go:223-228 | the bounded tail is always the last min(n, maxRecords) data rows of the current segment |
| ContinuityTheorems.BoundedTailSuffices | internal/continuity/reducer.go:252-284 | the longest suffix/prefix match against the bounded tail equals the longest match against the whole segment |
| ContinuityRuns.NoOverlapIsForgotten | internal/continuity/reducer.go:252-284 | the same for every admissible batch with distinct ordinals, in every state that the reducer can reach |
| ContinuityRuns.RunIsOneChain | internal/continuity/reducer.go:59-78 | over every run the incremental root is the chain root of all rows given to the sink, numbered 0, 1, 2, …, and the counters count the markers |
| ContinuityRuns.RunIsSegmented | internal/continuity/reducer.go:80-120 | over every run the first row is a SEGMENT_START marker and every data row carries the segment id of the nearest marker before it |
| ContinuityRuns.BatchIsDelivered | internal/continuity/reducer.go:166-229 | rows in which a batch ends up stay in the output of the finished run |
| ContinuityRuns.NoTickIsLost | internal/continuity/reducer.go:166-229 | every selected record of every error-free batch of a finished run has its fingerprint in the output |
| ContinuityRuns.OutputIsTheNewTicks | internal/continuity/reducer.go:217-229 | conservation: the data rows of a finished run are the new ticks of its batches, in order, and nothing else |
| ContinuityTime.RunKeepsTime | internal/continuity/reducer.go:191-195 | if every batch is time-ordered, any two rows of one segment are in time order, over the whole run |
| ContinuityFinish.RunFinishesIff | internal/continuity/reducer.go:122-230 | with a valid scope and producer and a sink that takes every row, the run over delivered batches finishes if and only if each of them passes the checks made on entry |
| ContinuityWindows.WindowContinues | internal/continuity/reducer.go:191-216 | over a source of distinct ticks, any next window joins the segment if and only if it starts in the stretch that the segment holds, reaches the last tick of it, and starts no earlier than that tick in time |
| ContinuityWindows.StepOnWindow | internal/continuity/reducer.go:191-229 | the effect of any next window on rows and markers: if it joins, the overlap is removed; otherwise the whole window is given out in a new segment |
| ContinuityWindows.WindowsAreMerged | internal/continuity/reducer.go:29-234 | what a finished run makes of any sequence of windows: the number of markers, the stretch that the current segment holds, and all data rows |
| ContinuityExample.RepeatedWindowExample | internal/continuity/reducer.go:191-195 | a window of two ticks one millisecond apart, reported twice, comes out twice, in two segments |
| ContinuityExample.ShortWindowExample | internal/continuity/reducer.go:204-215 | two ticks of one millisecond, then the first of them alone: it comes out twice, in two segments |
| ContinuityExample.ShortWindowIsAskedFor | internal/ingest/cursor.go:46-75 | the cursor asks for such a window: once both ticks have answered a larger request, the next one is for a single tick from the same millisecond |
| Cursor.ResolvedAsksAfresh | internal/ingest/cursor.go:67-75 | after a millisecond whose ticks have all been seen the next request begins there again with the initial count |
| ContinuityWindows.WindowsReconstructTheSource | internal/continuity/reducer.go:29-234 | a finished run over windows of a source of distinct ticks is one segment if and only if every window joins what the ones before it have covered, and then it holds every reported tick exactly once and in order |
| Overlap.EqualSuffixPrefix | internal/continuity/reducer.go:352-362 | decides whether the last n of one sequence are the first n of another |
| Overlap.LongestCandidate | internal/continuity/reducer.go:252-266 | finds the longest length at which the two sequences join |
| Overlap.OverlapLength | internal/continuity/reducer.go:252-284 | returns the longest join exactly when it occurs once in the tail, and reports it as ambiguous otherwise |
| Overlap.OneSubstitution | internal/continuity/reducer.go:332-350 | finds the one interior position at which two windows differ, if there is exactly one |
| Overlap.UniqueHistoryChange | internal/continuity/reducer.go:291-324 | reports a changed position exactly when the longest changed boundary window is the only changed window |
| Overlap.HistoryChangeUnique | internal/continuity/reducer.go:291-324 | a reported change has one window and one position |
| Reducers.Reducer.Emit | internal/continuity/reducer.go:59-78 | refines the emission step: a row is checked, hashed and given to the sink, or nothing changes |
| Reducers.Reducer.StartSegment | internal/continuity/reducer.go:80-120 | refines the opening of a segment: marker row, new id, empty tail |
| Reducers.Reducer.EmitOccurrences | internal/continuity/reducer.go:217-229 | refines the emission loop with its bounded tail |
| Reducers.Reducer.AlignWith | internal/continuity/reducer.go:197-216 | refines the alignment of a batch with the tail |
| Reducers.Reducer.Process | internal/continuity/reducer.go:122-230 | refines one turn of the loop |
| Reducers.Reducer.Reduce | internal/continuity/reducer.go:29-234 | refines the whole run and returns its root, counts and tail size |
| Replay.RowChainRoot | internal/protocol/replay.go:376-389 | succeeds exactly on rows numbered from zero that are all valid, with the chain over them |
| Replay.ChainFromConcat | internal/protocol/replay.go:366-389 | the chain over a concatenation continues the chain over its first part |
| Cursor.MaxTimeOf | internal/ingest/cursor.go:27-32 | the maximum record time of a batch |
| Cursor.BoundaryRecords | internal/ingest/cursor.go:77-85 | exactly the records at the cursor, in order |
| Cursor.OutcomeForBatch | internal/ingest/cursor.go:8-75 | computes the answer to a batch that the other results are about |
| Cursor.AlwaysSettled | internal/ingest/cursor.go:8-75 | over every batch sequence the next request starts at the cursor and its count stays between the initial count and the hard cap |
| Cursor.CursorIsTheMaximum | internal/ingest/cursor.go:8-75 | over every batch sequence the cursor is the maximum of the start value and all record times in error-free batches |
| Cursor.DenseDoubles | internal/ingest/cursor.go:46-66 | every dense-boundary answer strictly raises the requested count, by doubling or to the cap |
| Cursor.DenseRunsAreShort | internal/ingest/cursor.go:46-66 | consecutive dense-boundary answers are at most logarithmically many |
| Wal.LinkedAt | internal/wal/wal.go:240-310 | in a WAL entry i has sequence i + 1, the hash of its frame, and its predecessor's hash |
| Wal.Store.Append | internal/wal/wal.go:240-310 | appends the next linked entry; after a failure the store is poisoned and the entry may or may not be in the file |
| Wal.Store.Reopen | internal/wal/wal.go:120-159 | reopening keeps all entries and shows whether the failed one is there |
| Journal.Store.Lookup | internal/journal/journal.go:208-251 | finds the row of a batch identity, reports it absent, or fails on a value that does not decode |
| Journal.Store.Apply | internal/journal/journal.go:284-356 | one transaction: inserts the row and moves the state, or changes nothing, in particular when the key or the sequence is taken |
| Journal.Store.Reset | internal/journal/journal.go:358-390 | empties the tables and restores the initial state, or changes nothing |
| Journal.FoldRowsAt | internal/journal/journal.go:284-356 | the folded table has for every entry the row that the entries before it determine |
| Journal.FoldSize | internal/journal/journal.go:268-274 | the folded table has as many rows as the WAL has entries |
| Reconcile.JournalMatchesWal | internal/ingest/gateway.go:759-791 | decides whether every entry has its expected row and the state is the fold of the WAL, a failing read counting as a difference |
| Reconcile.ReconcileJournal | internal/ingest/gateway.go:678-729 | refines the reconciliation: count, comparison, reset, replay, with a fault at any step |
| Reconcile.MatchingTablesAreTheFold | internal/ingest/gateway.go:702-710 | the count-plus-lookup shortcut is sound: equal counts and matching rows leave no room for an extra row |
| Reconcile.SuccessfulReconcileIsTheFold | internal/ingest/gateway.go:678-729 | from any journal contents, success leaves rows and state equal to the fold of the WAL |
| Reconcile.FailedReconcile | internal/ingest/gateway.go:711-727 | failure leaves the journal untouched or the fold of a prefix of the WAL |
| Reconcile.ReconcileSucceedsIff | internal/ingest/gateway.go:678-729 | without faults, success exactly when the journal has no more rows than the WAL has entries and the WAL's identities are unique and fit the table |
| Disk.Machine.Refresh | internal/ingest/disk.go:85-125 | an ACK is allowed exactly when usage is known, above the critical mark, the backlog is within its limits and nothing is poisoned; the blocking reason agrees |
| Disk.Machine.SetPendingPublication | internal/ingest/disk.go:130-145 | records the backlog and re-decides |
| Disk.Machine.MarkPoisoned | internal/ingest/disk.go:200-205 | sets the flag under which no usage allows an ACK, and forbids it at once |
| Disk.Machine.ReadyForAck | internal/ingest/disk.go:216-218 | the decision for fresh usage |
| GatewaySafety.RunIsSafe | internal/ingest/gateway.go:507-644 | invariant of every run with crashes, restarts and faults: linked WAL, unique identities even with an unsynced entry on disk, sound journal, sound ACKs |
| GatewaySafety.ExactlyOnce | internal/ingest/gateway.go:507-644 | in every run the WAL holds no batch identity twice and every durable ACK names the one entry with that identity, hash and ingest sequence |
| GatewaySafety.RunOnlyGrows | internal/ingest/gateway.go:507-644 | over every run nothing that was logged or acknowledged is taken back |
| GatewaySafety.AcceptIsSafe | internal/ingest/gateway.go:507-644 | one batch keeps the invariant and its reply is sound, in every branch |
| GatewayReplay.RunIsStableIff | internal/ingest/gateway.go:584-643 | over any run, with crashes and faults, the journal in use and all ACKs are those that the WAL determines if and only if every new batch whose answer became a row was answered in a state that agrees with the WAL for this batch |
| GatewayReplay.CarefulRunAgrees | internal/ingest/gateway.go:584-643 | it is enough that new batches are only sent while the journal has a row for every WAL entry |
| GatewayReplay.RunIsSettled | internal/ingest/cursor.go:8-75 | over any run the state of a journal in use asks from its cursor on, within the configured sizes |
| GatewayReplay.AcksAgree | internal/ingest/gateway.go:562-583 | in a run that meets that condition any two durable ACKs for one batch agree on ingest sequence, cursor, boundary digest and next request, across crashes and rebuilds |
| GatewayReplay.ResendIsDuplicate | internal/ingest/gateway.go:533-583 | re-sending a logged batch is answered DUPLICATE with the answer the WAL determines |
| GatewayReplay.RebuildSucceeds | internal/ingest/gateway.go:678-729 | without database faults the rebuild that precedes that answer succeeds |
| Cursor.SameOutcomeIff | internal/ingest/cursor.go:8-75 | two settled states answer a batch alike if and only if its records are later than both cursors, or cursor and boundary agree and, as far as the answer repeats it, the count or the dense step |
| GatewayLag.NewAckIsStableIff | internal/ingest/gateway.go:596-643 | in any run a durable ACK for a batch that is new to the WAL is the one that the WAL determines if and only if the journal and the fold of the WAL answer this batch alike |
| GatewayLag.AckIsStableIff | internal/ingest/gateway.go:596-643 | the same for one entry and any state it is answered from, in terms of the outcome |
| GatewayLag.LostInsertIsStableIff | internal/ingest/gateway.go:617-643 | after a failed journal insert and a new connection the next new batch is acknowledged, and its ACK is stable if and only if the states before and after the lost batch answer it alike |
| GatewayExample.ContradictingAcks | internal/ingest/gateway.go:507-644 | a run of ten events from an empty gateway in which one batch is acknowledged with cursor 1 and, after a restart, with cursor 2 |
| GatewayFencing.RunIsFenced | internal/ingest/gateway.go:430-450 | with fewer than 2^64 sessions per process: at most one live generation, equal to the number of sessions begun, and writers recorded in order |
| GatewayFencing.WritersInOrder | internal/ingest/gateway.go:508-519 | in WAL order the writing processes, and within a process the generations, never go back |
| GatewayFencing.SupersededIsPowerless | internal/ingest/gateway.go:880-902 | once another session has begun, whatever a handler still does leaves the state unchanged: a batch is a lease conflict, the newer lease is neither extended nor cleared |
| GatewayFencing.OneHandlerAtATime | internal/ingest/gateway.go:430-450 | of two sessions granted by one process, at any steps of a run, the earlier was over when the later began and is never live again, so no two handlers coexist |
| GatewayFencing.AcceptWrites | internal/ingest/gateway.go:507-644 | a batch writes at most one entry, by its own generation, and nothing unless that generation is active |
| GatewayServer.Server.StartSession | internal/ingest/gateway.go:418-478 | refines the session step, with the generation that wraps past zero and the release on a journal error |
| GatewayServer.Server.ReleaseSession | internal/ingest/gateway.go:886-894 | refines the release |
| GatewayServer.Server.TouchSession | internal/ingest/gateway.go:896-902 | refines the extension of a lease |
| GatewayServer.Server.FindWalIdentity | internal/ingest/gateway.go:660-676 | finds the first entry of an identity and compares its hash |
| GatewayServer.Server.AcceptNewBatch | internal/ingest/gateway.go:584-616 | refines the new-batch path: disk check, WAL append, poisoning |
| GatewayServer.Server.CommitAndAnswer | internal/ingest/gateway.go:617-643 | refines its second half: journal commit, second disk check, ACK |
| GatewayServer.Server.AcceptBatch | internal/ingest/gateway.go:507-644 | refines the whole batch step |
| GatewayServer.Server.Recover | internal/ingest/gateway.go:110-118 | refines recovery: nothing is served before the journal agrees with the WAL |
| GatewayServer.Server.Restart | internal/wal/wal.go:120-159 | a crash loses the session and the poison flag, keeps WAL and journal |
| DaySelection.OrdinalsOnAre | internal/archive/manifest.go:573-590 | the ordinals of a batch on a day are exactly those of its records on the day, ascending |
| DaySelection.FindRuns | internal/archive/manifest.go:603-618 | cuts a list of ordinals into its maximal runs |
| DaySelection.RunsFlatten | internal/archive/manifest.go:603-618 | the runs list the ordinals they were made from, in order |
| DaySelection.RunsMaximal | internal/archive/manifest.go:603-618 | no two neighbouring runs could be one |
| DaySelection.DeriveDaySelection | internal/archive/manifest.go:551-622 | refines the derivation over objects and entries, with optional bounds and the record limit |
| DayCoordinates.SelectionDenotesTheDay | internal/archive/manifest.go:551-622 | the selected ranges name the coordinates of the day, all of them, in WAL order, and nothing else |
| DayCoordinates.CoordinatesAre | internal/archive/manifest.go:573-593 | a coordinate belongs to the day exactly when its entry exists and its record, or the empty batch itself, falls on the day |
| DayCoordinates.SelectionIsMaximal | internal/archive/manifest.go:603-618 | the ranges are strictly ascending and no two neighbours could be merged |
| DayCoordinates.WatermarkIsMaximum | internal/archive/manifest.go:579-586 | the source watermark is the time of a record of the day, and no record of the day is later |
| DaySlices.DeriveSucceedsIff | internal/archive/manifest.go:570-572 | the derivation fails exactly when some batch exceeds the record limit |
| DaySlices.SliceBounds | internal/archive/manifest.go:594-599 | the chain slice runs from the first to the last entry that holds anything of the day, with their hashes |
| DaySlices.BoundsDoNotMatter | internal/archive/manifest.go:555-557 | bounds that only leave out entries without anything of the day do not change the selection |
| DaySlices.SelectionGrows | internal/archive/manifest.go:551-622 | appended entries only extend the selection: ranges as a prefix, no smaller counts, the same start |
| Segments.OrderIsFound | internal/archive/manifest.go:497-536 | in whatever order contiguous segments are listed, their contiguous order is found |
| Segments.OrderIsUnique | internal/archive/manifest.go:525-535 | there is only one such order |
| Segments.ContiguousItems | internal/wal/segment.go:172-247 | the entries of contiguous segments form one hash chain |
| Segments.ChainObjectsForSlice | internal/archive/manifest.go:624-642 | lists the objects that a slice touches |
| Segments.TouchingIsSlice | internal/archive/manifest.go:624-642 | those are one stretch of the contiguous objects |
| Segments.WalkSlice | internal/archive/manifest.go:1013-1040 | refines the walk along the slice over objects and entries |
| Segments.WalkMeans | internal/archive/manifest.go:1013-1040 | the walk succeeds exactly when the chain contains the slice, which begins after the start root and ends in the end root |
| Manifest.ValidateOrderedRanges | internal/archive/manifest.go:1490-1502 | decides that the ranges are well formed and strictly ascending |
| Manifest.ValidateChainObjects | internal/archive/manifest.go:1433-1488 | decides that the chain objects are valid, distinct, adjoining, touch the slice, and hold every range |
| Manifest.ValidateRawDayManifest | internal/archive/manifest.go:1371-1412 | decides the form of a manifest |
| Manifest.VerifySnapshotSegments | internal/archive/manifest.go:958-1064 | decides acceptance of a manifest with supplied objects: labels, keys, order, walk, rederivation, chain |
| ManifestTheorems.CarriedIsValid | internal/archive/manifest.go:1371-1412 | a manifest that carries the selection of contiguous distinct objects passes every form check except those on its identity, revision and root |
| ManifestTheorems.GenesisBuildsIff | internal/archive/manifest.go:391-495 | the first manifest of a day can be built exactly when no batch and no range count is too large |
| ManifestTheorems.BuildThenVerify | internal/archive/manifest.go:958-1064 | a built manifest is accepted by the verifier given only its chain objects, in any order |
| ManifestAcceptance.AcceptedMeans | internal/archive/manifest.go:958-1064 | acceptance implies that the ranges are exactly the coordinates of the day between the ends of the slice, as maximal ascending runs, and that the slice is chained between its roots |
| ManifestAcceptance.AcceptedIsTheDayIff | internal/archive/manifest.go:1013-1045 | the ranges of an accepted manifest are the coordinates of the day in all its chain objects if and only if no entry outside the slice holds anything of the day |
| ManifestExamples.ShortSliceExample | internal/archive/manifest.go:1013-1045 | an accepted manifest of one object with two entries of the day that names only the second |
| ManifestRevisions.RevisionAcceptedIff | internal/archive/manifest.go:644-687 | after appending segments the new derivation passes every check against the previous manifest, except exactly when the previous one was empty and this one is not, or had no records while the day lies before 1970 |
| ManifestRevisions.RevisionBuildsIff | internal/archive/manifest.go:473-494 | so the next revision can be built exactly when it fits and may follow |
| ManifestExamples.SecondRevision | internal/archive/manifest.go:644-687 | for two segments, one without records and one with a tick: the second revision is refused exactly if the first was empty or the day lies before 1970 |
| ManifestExamples.EmptyDayExample | internal/archive/manifest.go:644-687 | an input of the first exception: after an empty revision of a day, its first tick cannot be published |
| ManifestExamples.EarlyDayExample | internal/archive/manifest.go:673-676 | an input of the second: the watermark would fall from 0 to -1, and the revision is refused |
| ReplaySource.SelectRecordOrdinals | internal/archive/replay_source.go:251-280 | the ordinals that a list of ranges selects from a batch, or failure if one does not fit |
| ReplaySource.IndexRanges | internal/archive/replay_source.go:131-155 | builds the table that gives every entry its ranges |
| ReplaySource.Source.Next | internal/archive/replay_source.go:203-249 | gives the first of the remaining deliveries, the end, or an error that is due to a file or to a misfit |
| ReplaySource.Source.Drain | internal/archive/replay_source.go:203-249 | reading to the end gives all remaining deliveries |
| ReplayExpansion.ExpandRanges | internal/archive/replay_source.go:318-428 | refines the expansion of compact ranges into ranges of single entries |
| ReplayExpansion.PiecesSelect | internal/archive/replay_source.go:364-420 | in every entry the pieces of a compact range select what the range does |
| ReplayTheorems.ChosenIsTheDay | internal/archive/replay_source.go:251-280 | from the runs of a batch's ordinals on the day exactly these ordinals are selected |
| ReplayTheorems.DrainsTheDay | internal/archive/replay_source.go:203-249 | on the canonical selection the reader gives the batches of the day and never fails |
| ReplayTheorems.AcceptedDrainIsTheDay | internal/archive/replay_source.go:131-155 | draining an accepted source yields exactly the coordinates of the day in WAL order, however ranges were compacted |
| ReplayTheorems.CanonicalVerifies | internal/archive/replay_source.go:463-476 | the canonical manifest that the source rebuilds from an accepted day passes the full verifier |
| ReplayOpen.VerifyReplay | internal/archive/replay_source.go:435-502 | makes all the checks on a manifest with compact ranges, the redundant ones included, and returns the expansion of the ranges |
| ReplayOpen.OpensIff | internal/archive/replay_source.go:435-502 | together the checks come down to this: the compact ranges expand to the selection rederived from all entries of contiguous objects, with its counts, watermarks, slice and chain; the form check of the expansion, the rest of the full verification and the recount add nothing |
| ReplayRecount.RecountIsTheSelection | internal/archive/replay_source.go:581-659 | counting a day from its selected ranges gives the summary that was derived from its entries |
| ReplayRecount.RecountRanges | internal/archive/replay_source.go:581-659 | refines the recount |
| ReplayRecount.RecountOne | internal/archive/replay_source.go:588-657 | refines the recount of one range |
| ReplayRecount.FindEntry | internal/archive/replay_source.go:596-606 | finds the first entry with a sequence |
| ReplayRecount.TallyRecords | internal/archive/replay_source.go:643-656 | counts selected records, which must be of the day |
| ReplayRecount.TallyIsObserve | internal/archive/replay_source.go:643-656 | counting the records at the ordinals of the day is what the derivation does in one pass over all records |
| ReplayOpen.OpenReplaySource | internal/archive/replay_source.go:85-172 | an accepted day becomes a reader whose deliveries are the batches of the day |
| ReplayOpen.SelectedOrdinals | internal/delivery/fetch.go:403-440 | the ascending list of the ordinals that compact ranges select by sequence number |
| ReplayOpen.RestoreAgrees | internal/delivery/fetch.go:403-440 | for every entry of an accepted day that list is the one the replay source delivers, empty where it delivers nothing |
| PhysicalRows.PhysicalRoundTrip | internal/parquet/row.go:64-158 | what is read back has the canonical bytes of what was written, and is the same row exactly when the record carried the row's capture sequence |
| PhysicalRows.RenumberedExample | internal/parquet/row.go:64-158 | a valid row that comes back as another |
| PhysicalRows.LogicalRoundTrip | internal/parquet/row.go:64-158 | a physical row that reads as a valid row is the one that would be written exactly when its chain hash is right |
| Parts.VerifyPartFile | internal/parquet/generator.go:301-393 | decides whether a part file agrees with its summary, row by row |
| Parts.ScanMeans | internal/parquet/generator.go:353-391 | the row loop establishes a numbered, valid stream in the scope whose chain runs from the first anchor |
| Parts.PartSetRoot | internal/protocol/replay.go:609-657 | decides the part-set checks and computes the root |
| Parts.ValidatePartSet | internal/archive/replay_manifest.go:318-358 | decides the checks on a day's parts, which include those of the root |
| Parts.LocalChecksCompose | internal/protocol/replay.go:609-657 | if every part file passes its own check and the manifests pass the part-set checks, the concatenated rows are the stream 0, 1, 2, … and their chain root is the last part's last hash |
| Generators.PackedVerifies | internal/parquet/generator.go:162-230 | the check after writing a part cannot fail |
| Generators.Generator.WriteRow | internal/parquet/generator.go:84-118 | a row is appended to what has been written, or nothing changes; without faults it is accepted exactly when it is valid, next in line and not too long |
| Generators.Generator.FlushPart | internal/parquet/generator.go:142-160 | moves the open part to the parts with its summary, or changes nothing |
| Generators.Generator.Close | internal/parquet/generator.go:120-132 | the parts concatenate to exactly the written rows, none is empty, all are within both limits and full, and the totals and the root are those of the rows |
| GeneratorTheorems.CutIsUnique | internal/parquet/generator.go:102-106 | there is only one way to cut rows into full parts within the limits |
| GeneratorTheorems.SameRowsSameParts | internal/parquet/generator.go:84-160 | generation is deterministic: the same rows give the same parts, summaries and totals |
| GeneratorTheorems.ManifestsAreAccepted | internal/archive/replay_manifest.go:42-103 | a manifest can be built for every generated part in turn, and together they pass the checks on a day's parts |
| GeneratorTheorems.GeneratedIsPublishable | internal/archive/replay_manifest.go:244-256 | the last part's hash, which the day manifest must carry, is the chain root of the written rows |
| JsonTheorems.DecodePrint | internal/protocol/canonical_json.go:26-50 | decoding the printed form of any printable value gives the value back |
| JsonTheorems.DecodeAcceptsIff | internal/protocol/canonical_json.go:26-50 | the decoder accepts exactly the printed forms of printable values |
| JsonTheorems.PrintInjective | internal/protocol/canonical_json.go:15-21 | two values with the same printed form are the same |
| JsonTheorems.ValueReads | internal/protocol/canonical_json.go:218-242 | a printed value is read back wherever it stands in a document |
| JsonTheorems.CharReads | internal/protocol/canonical_json.go:153-191 | every character is read back from its escaped form, surrogate pairs included |
| JsonTheorems.ParsedIsPrintable | internal/protocol/canonical_json.go:218-458 | whatever the parser returns can be printed: integers in range, keys distinct |
| JsonTheorems.AcceptedIsAscii | internal/protocol/canonical_json.go:153-191 | every accepted document is pure ASCII |
| JsonParsers.Parser.ParseValue | internal/protocol/canonical_json.go:218-242 | refines the value parser |
| JsonParsers.Parser.ParseArray | internal/protocol/canonical_json.go:252-273 | refines the array loop |
| JsonParsers.Parser.ParseObject | internal/protocol/canonical_json.go:275-312 | refines the object loop with its duplicate check |
| JsonParsers.Parser.ParseString | internal/protocol/canonical_json.go:314-388 | refines the string loop |
| JsonParsers.Parser.ParseHex4 | internal/protocol/canonical_json.go:390-404 | refines the four-digit escape |
| JsonParsers.Parser.ParseInteger | internal/protocol/canonical_json.go:419-458 | refines the integer parser: no leading zero, no minus zero, 64-bit ranges |
| JsonParsers.Printer.WriteValue | internal/protocol/canonical_json.go:52-125 | the buffer gains exactly the printed form |
| JsonParsers.Printer.WriteString | internal/protocol/canonical_json.go:153-191 | the buffer gains exactly the escaped string |
| JsonParsers.DecodeCanonicalJson | internal/protocol/canonical_json.go:26-50 | refines the decoder with its final comparison |
| Fields.AtomReads | internal/protocol/protocol.go:309-338 | a field that may be written is read back |
| Fields.AtomWrites | internal/protocol/protocol.go:345-408 | a field that was read may be written, and is written as the bytes it was read from |
| Fields.Writer.WriteAtom | internal/protocol/protocol.go:309-338 | the writer appends the bytes of a field, or refuses a string |
| Fields.Reader.ReadField | internal/protocol/protocol.go:345-408 | the reader advances over one field, or fails |
| Wire.FrameReads | internal/protocol/protocol.go:148-210 | an encoded frame decodes to its type and payload |
| Wire.FrameWrites | internal/protocol/protocol.go:168-210 | an accepted frame re-encodes to its exact bytes |
| Wire.WireRoundTrip | internal/protocol/protocol.go:416-578 | a message that meets the rules of both sides decodes back to itself |
| Wire.BatchFits | internal/protocol/protocol.go:148-166 | a batch that meets the rules of the encoder always fits a frame |
| Wire.NoSchemaExample | internal/protocol/protocol.go:697-699 | a batch without a schema is encoded and does not decode back |
| Wire.RoundTripIff | internal/protocol/protocol.go:416-578 | whatever the encoder accepts decodes back to itself if and only if it meets the rules of the decoder |
| Wire.WireIsCanonical | internal/archive/replay_source.go:291-312 | every accepted frame is the encoding of its message, so the later comparison with the re-encoding never finds a difference |
| Wire.EncodeBatch | internal/protocol/protocol.go:457-497 | refines the encoding of a batch with its record loop |
| Wire.DecodeBatch | internal/protocol/protocol.go:655-745 | refines the decoding of a batch with its record loop |
| Catalog.Store.UpsertSegment | internal/publication/catalog.go:166-230 | overwrites a row except for a state that has moved on |
| Catalog.Store.PromoteSealed | internal/publication/pipeline.go:332-380 | promotes a sealed segment unless it has been pruned |
| Catalog.Store.MarkManifestPublished | internal/publication/catalog.go:553-604 | one transaction that completes the manifest and publishes its pending chain objects, or nothing |
| Catalog.Store.MarkSegmentLocalPruned | internal/publication/catalog.go:610-671 | prunes a published segment with exactly this identity |
| Catalog.MarkKeysAre | internal/publication/catalog.go:586-599 | publishing changes exactly the pending rows whose key is in the chain |
| Catalog.RunIsForward | internal/publication/catalog.go:166-230 | over every run a segment's state only moves forward |
| Catalog.StepIsForward | internal/publication/catalog.go:553-671 | each step moves a segment at most one state forward, and completed manifests stay |
| Catalog.RunIsAccounted | internal/publication/catalog.go:553-671 | over every run a segment that is no longer pending is a chain object of a manifest that has been marked published |
| Catalog.UpsertKeepsAccountsIff | internal/publication/catalog.go:211-225 | upserting a segment in another state keeps that property exactly when the segment is in a published manifest |
| Cursor.OutcomeSettles | internal/ingest/cursor.go:8-75 | one answer keeps the settled state and never moves the cursor back |
| Overlap.WindowMatches | internal/continuity/reducer.go:269-275 | decides whether a window occurs at a position |
| Overlap.OnceIffCounted | internal/continuity/reducer.go:267-283 | counting occurrences to one is the same as occurring once |
| Overlap.LongestBoundaryChange | internal/continuity/reducer.go:291-307 | finds the longest changed window at the boundary |
| Overlap.NoBoundaryNoChange | internal/continuity/reducer.go:291-324 | without a changed window at the boundary no change is reported |
| Overlap.SecondWindowNoChange | internal/continuity/reducer.go:291-324 | with a second changed window no change is reported |
| ContinuityTheorems.StartSegmentEffect | internal/continuity/reducer.go:80-120 | a new segment adds one marker and no data row and forgets the tail, or nothing changes |
| ContinuityTheorems.RegressionEffect | internal/continuity/reducer.go:191-195 | a regression opens an empty segment that anything joins; otherwise the state is unchanged |
| ContinuityTheorems.AbsorbEffect | internal/continuity/reducer.go:191-229 | regression check, alignment and emission together: joined or restarted, with the rows of each case |
| ContinuityTime.StepKeepsTime | internal/continuity/reducer.go:191-195 | one batch in time order keeps every segment in time order |
| ContinuityWindows.FirstWindow | internal/continuity/reducer.go:122-230 | the first window becomes the first segment |
| ContinuityRuns.RunPrefix | internal/continuity/reducer.go:122-230 | rows are never taken back during a run |
| Reducers.Reducer.constructor | internal/continuity/reducer.go:29-58 | the start state |
| Reducers.Reducer.Collect | internal/continuity/reducer.go:166-181 | refines the collection of a batch's selected records |
| Reducers.Reducer.MakeMarker | internal/continuity/reducer.go:80-110 | builds the marker row of the state |
| Journal.Store.constructor | internal/journal/journal.go:119-173 | opens a journal with whatever rows are there |
| Journal.FoldKeys | internal/journal/journal.go:284-356 | the folded table has exactly the identities in the WAL |
| Reconcile.ReplayIsFold | internal/ingest/gateway.go:714-727 | a replay that stops anywhere leaves the fold of the entries it got through |
| Reconcile.ReplaySucceeds | internal/ingest/gateway.go:714-727 | over a linked WAL with unique storable identities a replay without faults succeeds |
| Wal.LinkedExtend | internal/wal/wal.go:240-310 | an appended entry keeps the WAL linked |
| GatewaySafety.NextIsSafe | internal/ingest/gateway.go:507-644 | every event, crash and recovery included, keeps the invariant and only grows what is durable |
| GatewayServer.Server.constructor | internal/ingest/gateway.go:90-106 | a new gateway over the journal it finds, not yet serving |
| GatewayServer.Server.SetPendingPublication | internal/ingest/gateway.go:129-133 | only the backlog changes |
| GatewayServer.Server.AdvanceGeneration | internal/ingest/gateway.go:442-446 | the next generation, never zero |
| GatewayServer.Server.AnswerFromRow | internal/ingest/gateway.go:562-583 | answers a known batch from its stored row |
| DayCoordinates.DayOrdinalsAre | internal/archive/manifest.go:573-593 | the ordinals of a day are those of its records, or 0 for an empty batch asked for on the day |
| DayCoordinates.NoWatermarkNoRecord | internal/archive/manifest.go:579-586 | without a watermark there is no record of the day, and the watermark field is 0 |
| DayCoordinates.ObserveGrows | internal/archive/manifest.go:574-587 | counts and both watermarks of a batch: never smaller, exact count, upper bound of every record of the day |
| DaySlices.QuietPrefix | internal/archive/manifest.go:591-593 | leading entries without anything of the day do not matter |
| DaySlices.QuietSuffix | internal/archive/manifest.go:591-593 | nor do trailing ones |
| DaySelection.SelectOrdinals | internal/archive/manifest.go:573-590 | refines the record loop |
| DaySelection.AbsorbItem | internal/archive/manifest.go:573-618 | refines the work on one entry |
| DaySelection.DeriveObject | internal/archive/manifest.go:554-619 | refines the loop over the entries of one object |
| DaySelection.RunEnd | internal/archive/manifest.go:604-607 | finds the end of a run |
| Segments.WalkSegment | internal/archive/manifest.go:1017-1033 | refines the inner loop of the walk |
| Manifest.ByKey | internal/archive/manifest.go:986-995 | succeeds exactly if the supplied objects carry their own labels and distinct keys, with the table of them |
| Manifest.ArrangeObjects | internal/archive/manifest.go:999-1012 | puts the supplied objects in chain order |
| Manifest.ChainOrder | internal/archive/manifest.go:1433-1488 | decides that the chain objects are valid and adjoin |
| Manifest.FindObject | internal/archive/manifest.go:1433-1488 | decides that a range lies in its chain object |
| ManifestTheorems.RederivedFromSlice | internal/archive/manifest.go:1041-1048 | the slice objects alone give the selection of the whole WAL, and the walk along them reaches the end root |
| ManifestTheorems.SelectedRangesAreOrdered | internal/archive/manifest.go:1490-1502 | derived ranges are valid and strictly ascending |
| ManifestTheorems.CarriedChainIsValid | internal/archive/manifest.go:1433-1488 | derived chain objects pass their check |
| ManifestRevisions.WatermarkSign | internal/archive/manifest.go:579-583 | the watermark of a day is negative exactly if the day lies before 1970 |
| ReplaySource.AppendUniqueOrdinal | internal/archive/replay_source.go:282-289 | appends an ordinal that is not there yet |
| ReplaySource.IndexRange | internal/archive/replay_source.go:131-155 | adds one range to the table of every entry it covers |
| ReplaySource.Source.constructor | internal/archive/replay_source.go:156-172 | a reader that has everything before it |
| ReplaySource.Source.OfferEntry | internal/archive/replay_source.go:228-247 | what one entry yields: a batch, nothing, or an error |
| ReplayExpansion.ExpandRange | internal/archive/replay_source.go:364-420 | refines the expansion of one range |
| ReplayTheorems.SelectedAt | internal/archive/replay_source.go:131-155 | on the canonical selection the table gives each entry the runs of its ordinals on the day |
| ReplayOpen.CheckDescriptors | internal/archive/replay_source.go:550-579 | decides that they are the manifest's chain objects |
| ReplayOpen.OrdinalsIn | internal/delivery/fetch.go:403-440 | the ordinals that one compact range selects from a batch |
| ReplayOpen.SortOrdinals | internal/delivery/fetch.go:403-440 | sorts them |
| ReplayOpen.ExpansionSelects | internal/archive/replay_source.go:318-428 | expanding compact ranges does not change what is selected from any entry |
| Replay.StreamFromAt | internal/protocol/replay.go:376-389 | in a stream row i has sequence i from the first on, and is valid |
| Parts.ScanPhysicalRow | internal/parquet/generator.go:358-388 | refines the check of one row |
| Parts.PartMeans | internal/parquet/generator.go:301-393 | an accepted file holds a nonempty stream with the counts, sequences, bytes and chain of its summary |
| Parts.DayOkIsSetOk | internal/archive/replay_manifest.go:318-358 | the checks on a day's parts imply those of the part-set root |
| Parts.PartsHaveTheRowsRoot | internal/protocol/replay.go:609-657 | verified files of a part set with a root hold one stream whose chain root is the last part's |
| Generators.Generator.constructor | internal/parquet/generator.go:65-79 | an empty generator with positive limits |
| Generators.Generator.WritePart | internal/parquet/generator.go:162-230 | writes the open part and returns its summary; its own check succeeds |
| Generators.Generator.Append | internal/parquet/generator.go:107-117 | appends a row that fits to the open part |
| Generators.Generator.TotalBytes | internal/parquet/generator.go:134-140 | the canonical bytes of all flushed rows |
| JsonTheorems.StringReads | internal/protocol/canonical_json.go:314-388 | a printed string is read back |
| JsonTheorems.IntegerReads | internal/protocol/canonical_json.go:419-458 | a printed integer is read back |
| JsonTheorems.IntegerWrites | internal/protocol/canonical_json.go:419-458 | what was read as an integer is the text that is printed for it |
| JsonTheorems.RawTabExample | internal/protocol/canonical_json.go:368-385 | a string with an unescaped tab, which the parser reads and the decoder refuses |
| JsonTheorems.PrintIsAscii | internal/protocol/canonical_json.go:153-191 | printing gives ASCII |
| JsonParsers.Parser.SkipWhitespace | internal/protocol/canonical_json.go:207-216 | refines the skipping of white space |
| JsonParsers.Parser.Consume | internal/protocol/canonical_json.go:460-466 | advances over an expected character |
| JsonParsers.Parser.ParseLiteral | internal/protocol/canonical_json.go:244-250 | refines the literal parser |
| JsonParsers.Parser.ParseMember | internal/protocol/canonical_json.go:283-303 | refines the parsing of a member, which refuses a repeated key |
| JsonParsers.Parser.ParseChar | internal/protocol/canonical_json.go:320-385 | refines one turn of the string loop |
| JsonParsers.Parser.ParseUnicode | internal/protocol/canonical_json.go:344-364 | refines the unicode escape with its surrogate pairs |
| JsonParsers.Parser.ParseMagnitude | internal/protocol/canonical_json.go:427-442 | refines the digits of an integer |
| JsonParsers.Printer.WriteItems | internal/protocol/canonical_json.go:52-125 | the buffer gains the printed array |
| JsonParsers.Printer.WriteMembers | internal/protocol/canonical_json.go:127-151 | the buffer gains the printed object |
| JsonParsers.Printer.WriteEscaped | internal/protocol/canonical_json.go:153-200 | the buffer gains the escaped character |
| JsonParsers.CanonicalJson | internal/protocol/canonical_json.go:15-21 | the printed form |
| Decimal.NatOfFormat | internal/protocol/canonical_json.go:419-458 | reading back a printed natural number |
| Decimal.FormatNatOf | internal/protocol/canonical_json.go:419-458 | digits without a leading zero are the printed form of their value |
| Fields.NumberReads | internal/protocol/protocol.go:309-324 | a little-endian number is read back |
| Fields.BytesRead | internal/protocol/protocol.go:309-324 | bytes read as a number are its little-endian form |
| Fields.AtomsRead | internal/protocol/protocol.go:305-414 | a list of fields is read back |
| Fields.AtomsWrite | internal/protocol/protocol.go:305-414 | a list of fields that was read is written as the bytes it was read from |
| Fields.Writer.WriteNumber | internal/protocol/protocol.go:309-327 | appends a little-endian number |
| Fields.Writer.WriteFields | internal/protocol/protocol.go:416-532 | appends a list of fields |
| Fields.Reader.TakeBytes | internal/protocol/protocol.go:345-352 | takes bytes, or nothing moves |
| Fields.Reader.ReadFields | internal/protocol/protocol.go:353-408 | reads a list of fields |
| Wire.MessageReads | internal/protocol/protocol.go:542-578 | a payload that was encoded from a legal message decodes to it |
| Wire.MessageWrites | internal/protocol/protocol.go:542-578 | an accepted payload is the encoding of its message, which is legal |
| Wire.WireInjective | internal/protocol/protocol.go:168-210 | two byte strings that decode to the same message are the same |
| Wire.DecodeRecords | internal/protocol/protocol.go:707-737 | refines the record loop |
| Catalog.StepIsAccounted | internal/publication/catalog.go:553-671 | each step keeps every non-pending segment in a published manifest |
| Catalog.UnpublishedArePending | internal/publication/catalog.go:280-323 | over every run the backlog counts at least every segment that is in no published manifest |
| Catalog.PublishingClears | internal/publication/catalog.go:553-604 | publishing a manifest takes the segments of its chain out of the backlog, and no others |
| Catalog.Store.constructor | internal/publication/catalog.go:93-105 | an empty catalog |
| Wal.Store.constructor | internal/wal/wal.go:111-118 | an empty WAL |
| Disk.Machine.constructor | internal/ingest/disk.go:75-83 | no ACK before the first look at the disk |

## Left out

- SHA-256, CRC32C and UTF-8 decoding are not computed: digests are free terms, the checksum and UTF-8 validity are parameters, and JSON documents are code points.
- WAL entries that are not batches, and frames that do not decode, do not occur: an entry holds a decoded batch.
- WAL pruning: everything is stated for an unpruned WAL, so the retained-entries form of reconciliation is not modelled.
- Clearing the poison flag by hand, which nothing in the gateway calls.
- The TCP server, deadlines, shutdown and the resume message: only the steps under the session mutex are modelled.
- Metrics, status snapshots and error texts.
- SQL and SQLite: tables are maps, a transaction happens or does not, and a row that does not decode is unreadable.
- Files, temporary files and promotion: a read or write succeeds or fails, and a file with the same SHA-256 is the same file.
- The Parquet library: a part file is its list of physical rows, read back as written.
- Dates are day numbers, and the replay scope's date, path and UTF-8 checks are reduced to length checks.
- Record, error and byte counters of the archive do not wrap around at 2^64.
- Manifest JSON: a manifest digest covers the fields of the manifest, not the JSON text that `Json` models.
- `VerifyRawDaySnapshot` and `VerifyRawDaySegmentCoverage`: the first repeats the checks of the modelled verifier on files, the second is a restriction to one object.
- The replay source derives the digest of a manifest from its bytes and compares the object name with it; names and bytes of manifests are not modelled.
- `restoreEntries`: its walk along the slice is that of `Segments.WalkSlice`; only its selection of ordinals is modelled.
- The replay-day manifest and its revisions beyond the part set and the final root.
- Bytes, retries and ages in the pending statistics of the catalog; only segments are counted.
- S3 and R2 publishing, the HTTP interface, configuration loading, command line programs and the Python tools.
- Wire.WireRoundTrip: messages other than the batch are lists of fields in wire order, without field names.
