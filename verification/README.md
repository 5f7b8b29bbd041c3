# The collector's storage and pacing, modelled and proved in Dafny

pg_kronika's collector reads a PostgreSQL server in ticks. Each tick yields one
encoded *window*. Windows are admitted against a running ledger, appended to a
journal, and published as immutable *segments* in a UTC directory tree that
rotation keeps within a size target. This project models that path and proves
what it keeps over every run, with every failure of the file system that the
code distinguishes. `dafny verify dfyconfig.toml` checks all of it.

Files, from the bottom up:

- `Machine.dfy`: fixed-width integers, saturating arithmetic, `Option`, `Result`.
- `Calendar.dfy`, `SegmentPath.dfy`: day numbers, Gregorian dates, and the
  canonical path of a segment file.
- `Bounds.dfy`: the size bounds of sealed sections, and the fact that they are
  monotone.
- `Ledger.dfy`, `Admission.dfy`: the recomputation of a segment's contents, and
  the incremental ledger that stands in for it.
- `Journal.dfy`, `Segments.dfy`, `Recovery.dfy`, `Ticks.dfy`, `Collector.dfy`: the
  journal, the tree of published segments, what a start can recover, what a call
  and a tick decide, and the append-and-seal transaction with whole runs over
  failures and restarts.
- `Retention.dfy`, `Rotation.dfy`, `Store.dfy`: sizes and the order of deletion,
  the enforcement pass, and whole runs of rotation beside a changing partition.
- `Scheduler.dfy`, `Pacing.dfy`: per-source intervals, the database-time budget,
  one tick as a step of a state machine, bounded waiting, and sleeping.
- `Coverage.dfy`, `TextBudget.dfy`, `LogLine.dfy`, `Terminology.dfy`: coverage
  markers, UTF-8-safe text budgets, log lines that decode uniquely, and the
  chunked text search.

How the model reads the program:

- Objects whose methods update fields are classes, and each is tied to a
  recomputation from ghost history. Failures of the file system, clock readings
  and query results are parameters; a proof holds for all of them.
- The collector's class carries some statements about contents as *rules*
  (`Segments.Rules`), function values that equal the recomputations by
  `RulesOf`. That keeps a large predicate folded while objects change;
  `Collectors.RulesMean` unfolds them again.
- A run returns the trace of its states, and every step of the trace is an event
  with its exact effect (`Ticks.Happened`, `Stores.Happened`); statements about
  runs are lemmas over traces.
- A window counts as accepted when its append to the journal succeeded, also
  when the call then fails while sealing. A window whose rollback failed counts
  when a later start finds it in the file.
- A segment that was salvaged from a damaged journal accounts for all frames of
  that journal: those that were read are in the segment, the others only in the
  quarantined evidence (`Segments.Placed`).

Where the code differs from what is written about it, the model follows the code:

- A comment beside `reconcile_pending_reclaim` says that a foreign deletion
  credited to pending reclaim only makes rotation delete less. It lowers the
  pending figure and so raises the effective usage: `ForeignDeletionRaisesUsage`
  says exactly when, `ForeignDeletionDeletes` gives an input and a pass that deletes, and
  `EffectiveUsageIsSettled` bounds the effect by the foreign bytes.
- Held descriptors are said never to cause extra deletions. A removal that
  unlinks the PGM and then fails is not added to pending reclaim:
  `CoveredWithoutAllowance` says exactly when a pass keeps held bytes covered,
  and `FailedRemovalEscapesPending` gives an input on which it does not. The
  tally's `lost` bytes are the allowance that holds in every run.
- One pass of a fixed budget is not enough when orphan overviews cover its
  deficit, because they are not in the size that the budget bounds:
  `OnePassSettles` is the exact condition, `OnePassIsNotEnough` an input,
  `FixedModeConverges` and `Store.Settle` what repeated passes reach.
- After a scanning pass the counter is a recount of what is left, unless the true
  sum exceeds 64 bits and some but not all of it was deleted: `PassCounts` says
  exactly when, and when it is the true size; `RecountIsMissed` gives an input.
- A refused source is promised the next tick. When a later step of the refusing
  cycle fails, the deferral is forgotten: `RefusalIsForgotten` and
  `IndexRefusalIsForgotten` say exactly when the next tick reads it.
- Indexes are said to give way except on their first read. They also do not give
  way right after any deferral, which is why they wait at most two ticks.
- In auto mode pending bytes are said to stay so until the partition shows the drop.
  Growth hides a release: the bytes then stay pending although nobody holds them.
  `GrowthHidesRelease` says exactly when; `AutoPassSettles` states what a pass
  reaches in spite of it.
- Severity of a coverage marker can fall when a partition claims more rows than
  its source holds: `SeverityDrops` says exactly when, `SeverityCanFall` gives an
  input.

## Model

| member | source | states |
|---|---|---|
| `Collectors.RunIsSound` | bins/pg_kronika-collector/src/segments.rs:493-533 | in every reachable state the windows of published segments and of quarantined journals in order, then those not settled yet, are exactly the accepted windows, each once and in order; the tree keeps what it held at first, holds every published segment unchanged and nothing else; each published segment is named by its journal's first timestamp, holds windows of that journal in their order, and satisfies every sealed limit |
| `Collectors.LedgerIsRecount` | bins/pg_kronika-collector/src/segments.rs:395-411 | between ticks of a running process the ledger equals the recomputation over the journal's windows, those fit every limit, and the first id is the journal's id and the first window's timestamp |
| `Collectors.Collector.Run` | bins/pg_kronika-collector/src/main.rs:218-308 | any sequence of ticks, seal, reset and rollback failures, stops and restarts over sound, torn or damaged journals keeps that invariant, and every step of its trace is the effect of its event: the age valve, then the call with exactly this window, flag and faults, or the start; what is placed stays placed, and the accepted history grows by exactly the windows whose append succeeded, at once or as a later start found |
| `Collectors.Collect` | bins/pg_kronika-collector/src/main.rs:160-308 | a collector over the registry's own limits that starts with an empty journal: what was taken is exactly what is placed or live, no segment of the tree is lost, and every published one fits the limits; without faults, windows that each fit and agree are all taken |
| `Ticks.EverythingIsTaken` | bins/pg_kronika-collector/src/segments.rs:1038-1139 | in every run without faults each regular window is taken on its tick, and after every tick all so far stand in segments or the open one, in their order |
| `Ticks.RegularIsTaken` | bins/pg_kronika-collector/src/segments.rs:1038-1139 | a call without faults takes a window that fits by itself, whatever the open segment holds, if that can be sealed |
| `Ticks.OpenSegmentsAreSmall` | bins/pg_kronika-collector/src/segments.rs:443-466 | after a successful call a segment stays open only if the tick was not forced and the segment is shorter than the size limit and younger than the age limit |
| `Collectors.AccountedNext` | bins/pg_kronika-collector/src/main.rs:218-308 | one event keeps the account of a run; a window in doubt is counted at its own place when it is found |
| `Collectors.Collector.AppendWindowAndMaybeSeal` | bins/pg_kronika-collector/src/segments.rs:1038-1139 | the window is taken exactly when it and the open segment go together and the append is durable, or the segment is sealed and reset first and the window fits alone; sealed early exactly when it must and can be; sealed late exactly when the tick is forced, there is no size limit, the size or the age limit is reached, for the first of these reasons; the announced list, the new state and whether the process can go on follow; a window that does not fit alone, or a pending reset, changes nothing |
| `Collectors.Collector.PartsNeverRunOut` | crates/kronika-writer/src/journal.rs:665-669 | no journal of the collector reaches its greatest number of parts, because admission limits sections first |
| `Segments.PartsAreFew` | crates/kronika-writer/src/buffer.rs:172-185 | every window brings a section, so windows that fit one segment are at most as many as its sections |
| `Collectors.Collector.AppendWindow` | bins/pg_kronika-collector/src/segments.rs:1048-1122 | admission and append: taken if and only if it succeeds, with the open segment sealed first exactly when both do not fit together |
| `Collectors.Collector.PrepareWindowAdmission` | bins/pg_kronika-collector/src/segments.rs:998-1031 | an early seal for the format limits only after the window has been shown to fit alone, and the returned delta belongs to the ledger that stands then |
| `Collectors.Collector.RetryAfterSeal` | bins/pg_kronika-collector/src/segments.rs:1069-1103 | a full journal is sealed once and the window appended to the empty one with a delta assessed against the empty ledger |
| `Collectors.Collector.TakePart` | bins/pg_kronika-collector/src/segments.rs:1054-1122 | the append succeeds exactly when the journal takes the window under its id; then ledger, id and opening time follow, otherwise nothing changes but that a failed rollback leaves this window in doubt |
| `Collectors.Collector.SealOpenSegment` | bins/pg_kronika-collector/src/segments.rs:493-533 | publishes exactly the journal's windows or nothing; after a failed reset the journal repeats them and the pending flag is set; only a reset that succeeds empties it |
| `Collectors.Collector.Restart` | bins/pg_kronika-collector/src/segments.rs:646-689 | a start succeeds exactly when the attempts on the active journal and on earlier evidence, in their order, all leave a clear journal; then it begins with an empty journal and no evidence; the account changes by exactly what these attempts publish, no frame that could be read is missing from it, and what they do not publish is quarantined |
| `Recoveries.VerifiedIsExact` | crates/kronika-writer/src/recovery.rs:358-399 | what is read of a file are exactly the frames that verify, none missing and none else, in their order |
| `Recoveries.PublishedFromOneFile` | bins/pg_kronika-collector/src/segments.rs:646-935 | whatever a start publishes is the journal as it opened or all frames that verified in one file |
| `Recoveries.NothingPublished` | bins/pg_kronika-collector/src/segments.rs:646-935 | a start succeeds without publishing exactly when the journal is readable or rotated, cannot be sealed as it opened, and no attempt can seal what it reads, though each leaves a clear journal |
| `Recoveries.FirstSealDecides` | bins/pg_kronika-collector/src/segments.rs:821-935 | the first attempt that can seal against the tree as it was decides what is published, provided those before it leave a clear journal |
| `Recoveries.ReplayInto` | crates/kronika-writer/src/recovery.rs:342-402 | the replay appends the verified frames in order, all of them or those before the one that cannot be read |
| `Collectors.Collector.TryEvidence` | bins/pg_kronika-collector/src/segments.rs:821-878 | one attempt publishes all frames that verify, exactly when there are some, all are replayed, the file is written and the name is free or holds the same; whether it leaves a clear journal is decided exactly |
| `Collectors.Collector.RecoverPending` | bins/pg_kronika-collector/src/segments.rs:880-935 | all evidence of earlier starts is tried in turn and quarantined, up to the first attempt that leaves no clear journal |
| `Collectors.Collector.MoveAside` | bins/pg_kronika-collector/src/segments.rs:763-804 | every frame of the file, also one whose rollback failed, becomes evidence, and the fresh journal is empty |
| `Collectors.Collector.Reload` | crates/kronika-writer/src/journal.rs:509-560 | opening completes a committed reset and accepts a window whose rollback failed exactly when the file holds it |
| `Collectors.Collector.RecoverActiveJournal` | bins/pg_kronika-collector/src/segments.rs:714-804 | the rotated journal is tried as evidence: what verifies is published, and what is not published stays in evidence that is quarantined when the attempt leaves a clear journal |
| `Collectors.Collector.SealRecovered` | bins/pg_kronika-collector/src/segments.rs:937-995 | sealing recovered windows, each of which brought a section, publishes them under the journal's id exactly when the file is written and no other segment has that name; a repeated journal changes no history |
| `Collectors.Collector.OneTick` | bins/pg_kronika-collector/src/main.rs:258-303 | the age valve seals exactly when the segment is expired and can be sealed; if the process goes on, the call follows with exactly the tick's window, flag and faults; the account and the open segment are the effects of both |
| `Collectors.Collector.AgeValve` | bins/pg_kronika-collector/src/main.rs:258-279 | seals exactly when the segment is expired, no other segment has its name and the file is written; the process goes on unless the reset behind it fails |
| `Collectors.Collector.StopIfPersistenceUnhealthy` | bins/pg_kronika-collector/src/main.rs:376-388 | the process goes on exactly when nothing published waits for a reset and the journal is not poisoned |
| `Collectors.RulesMean` | bins/pg_kronika-collector/src/segments.rs:1007-1017 | the folded rules are admission on top of the journal's contents, and on an empty ledger |
| `Segments.SegmentsAreDistinct` | bins/pg_kronika-collector/src/segments.rs:395-411 | when accepted windows have distinct timestamps, no two published segments share a name |
| `Segments.TreeHolds` | crates/kronika-writer/src/segment.rs:298-343 | publishing in order without replacing anything leaves exactly the first tree and the published segments |
| `Segments.Seal` | crates/kronika-writer/src/segment.rs:298-343 | sealing succeeds exactly for a readable, non-empty journal under its own id whose name is free or taken by the same windows, and changes no other segment |
| `Segments.AfterAppendMoved` | bins/pg_kronika-collector/src/segments.rs:1038-1139 | the outcome of a call in terms of which windows were published and which stay live |
| `Segments.AnnouncedInOrder` | bins/pg_kronika-collector/src/segments.rs:1038-1139 | the notices of the early and the late seal name the newly published segments in order |
| `Segments.SubFits` | crates/kronika-writer/src/segment.rs:298-343 | whatever frames of a journal are read, they fit one segment when all of them do |
| `Segments.AssessPart` | bins/pg_kronika-collector/src/segments.rs:1007-1017 | a ledger that counts some windows accepts one more exactly when all together fit; a regular window is refused only for want of room |
| `Segments.CommitPart` | bins/pg_kronika-collector/src/segments.rs:1123-1123 | a committed delta makes the ledger count the appended window as well |
| `Journals.Journal.Append` | crates/kronika-writer/src/journal.rs:639-743 | appends exactly when no check refuses and the write is durable; the first refusing check is reported; otherwise nothing changes but the poison |
| `Journals.Journal.Reset` | crates/kronika-writer/src/journal.rs:843-903 | never runs out of room, because every append reserved the marker; empties the journal exactly when marker and truncation succeed; a committed marker is completed later |
| `Journals.Journal.Reopen` | crates/kronika-writer/src/journal.rs:509-560 | a committed reset is completed on opening; a write or marker whose rollback failed counts exactly when the file holds it in whole; every other journal keeps its parts |
| `Journals.SegmentIdsAreInLayout` | crates/kronika-layout/src/time.rs:37-50 | the ids that the collector accepts are those whose year has four digits |
| `Admission.SegmentAdmission.Assess` | bins/pg_kronika-collector/src/segments.rs:208-232 | accepts exactly when the grown segment satisfies every limit and no id changes its value; otherwise reports the first failing check; changes nothing |
| `Admission.SegmentAdmission.Commit` | bins/pg_kronika-collector/src/segments.rs:367-391 | the totals are again the recomputation, so no addition saturates |
| `Admission.SumSections` | bins/pg_kronika-collector/src/segments.rs:234-254 | rows and child values per type of one window, or an overflow exactly when child values overflow |
| `Admission.CheckTypes` | bins/pg_kronika-collector/src/segments.rs:255-272 | passes exactly when every type passes; otherwise the least failing type reports |
| `Admission.AssessDictionary` | bins/pg_kronika-collector/src/segments.rs:274-365 | passes exactly when each entry passes on top of those before it; its delta leads to the union dictionary and counts its growth |
| `Admission.MergeRows` | bins/pg_kronika-collector/src/segments.rs:367-376 | merges the rows of every incoming type and leaves the others |
| `Admission.RefusalIsCapacity` | bins/pg_kronika-collector/src/segments.rs:120-131 | a window that would fit an empty segment and contradicts nothing is refused only with an error that asks for an early seal |
| `Admission.RowsDoNotSaturate` | bins/pg_kronika-collector/src/segments.rs:367-376 | no sum of rows or child values saturates in a commit |
| `Admission.DataDecided` | bins/pg_kronika-collector/src/segments.rs:255-272 | the checks of the window's types decide whether all coalesced types fit |
| `Admission.OverflowComesFirst` | bins/pg_kronika-collector/src/segments.rs:255-272 | sums beyond the counters' width are reported as overflow, before the limits are asked |
| `Admission.NewValueDecided` | bins/pg_kronika-collector/src/segments.rs:306-352 | the check of a new dictionary value decides whether the grown dictionary fits |
| `Ledger.AdmissionIgnoresSplit` | bins/pg_kronika-collector/src/segments.rs:208-391 | two windows are admitted one after the other exactly when they agree on the ids they share and their merged window, which lists each id once, is admitted; both ways leave the same ledger |
| `Ledger.MergeIsWindow` | bins/pg_kronika-collector/src/segments.rs:283-305 | the merged window is again one that an interner could hold |
| `Ledger.PartsFit` | bins/pg_kronika-collector/src/segments.rs:1291-1306 | whatever fits as a whole fits in each of its parts |
| `Ledger.AloneFirst` | bins/pg_kronika-collector/src/segments.rs:1009-1015 | a window that does not fit alone never fits on top of others |
| `Ledger.RepeatedEntriesChangeNothing` | bins/pg_kronika-collector/src/segments.rs:283-305 | values that an earlier window has listed count once: leaving them out anywhere keeps the dictionary and its consistency |
| `Ledger.MatchIsEquality` | bins/pg_kronika-collector/src/segments.rs:56-74 | the field comparison decides equality of stored values |
| `Bounds.SealedLimitsAreSound` | crates/kronika-registry/src/codec.rs:624-740 | the size bounds of the registry and of the dictionary writer are monotone, bound every count, and accept an empty dictionary |
| `Bounds.SealedLimitsReportCapacity` | crates/kronika-registry/src/codec.rs:685-740 | parts that are accepted can be refused together only for their size |
| `Bounds.DataMonotone` | crates/kronika-registry/src/codec.rs:685-740 | fewer rows and child values of one type fit whenever more do |
| `Bounds.DictionaryMonotone` | crates/kronika-writer/src/dict.rs:135-186 | a smaller dictionary fits whenever a larger one does |
| `Bounds.DictionaryFitsExactly` | crates/kronika-writer/src/dict.rs:135-186 | a dictionary fits exactly when its rows are within the cap and lengths and bytes, and the digests of truncated blobs, are each below one page |
| `Bounds.SameColumnsFit` | crates/kronika-registry/src/codec.rs:624-780 | columns of one kind fit exactly when one page takes the values of each and all compressed pages fit the section |
| `Bounds.RequiredColumnsFit` | crates/kronika-registry/src/codec.rs:685-780 | sixteen required 8-byte columns take exactly up to 64,261 rows |
| `Bounds.NullableColumnsFit` | crates/kronika-registry/src/codec.rs:685-780 | twenty-one nullable 4-byte columns take exactly up to 65,117 rows |
| `Bounds.ListsFit` | crates/kronika-registry/src/codec.rs:685-780 | the exact region of rows and child values for four list columns |
| `Calendar.CivilFromDaysIsInverse` | scripts/validate-overview-qualification.py:112-130 | every day number yields a valid Gregorian date whose day count is that number |
| `Calendar.DaysFromCivilIsInverse` | scripts/validate-overview-qualification.py:112-130 | every valid date is what its day number yields |
| `Calendar.ConsecutiveDays` | scripts/validate-overview-qualification.py:112-130 | day 0 is the epoch and consecutive day numbers are consecutive dates |
| `Calendar.LayoutAgrees` | crates/kronika-layout/src/time.rs:174-197 | the writer's truncating arithmetic gives the same date as the script's floor division, also before the epoch |
| `Calendar.LayoutRange` | crates/kronika-layout/src/time.rs:37-50 | the ids with a four-digit year are one closed interval |
| `SegmentPath.PathBijection` | scripts/validate-overview-qualification.py:99-141 | a string is recognised as an id exactly when it is the printed path of that id |
| `SegmentPath.PrintedPathIsAccepted` | scripts/validate-overview-qualification.py:99-141 | every printed path is recognised |
| `SegmentPath.AcceptedPathIsPrinted` | scripts/validate-overview-qualification.py:99-141 | every recognised string is a printed path: no leading zeros, no `-0` |
| `SegmentPath.PathsAreDistinct` | scripts/validate-overview-qualification.py:99-141 | two files never share a path |
| `SegmentPath.IdTextRoundTrip` | scripts/validate-overview-qualification.py:104-110 | the decimal text of every id reads back as that id |
| `SegmentPath.IdTextUnique` | scripts/validate-overview-qualification.py:104-110 | a recognised id text is the decimal text of its value |
| `Stores.RunIsSound` | bins/pg_kronika-collector/src/rotation.rs:206-282 | the retained segments are a contiguous newest suffix of the published ones and not empty; the counter is the tree's true size up to what changed beside it; pending reclaim with bytes that left for other reasons or never became pending covers the bytes still held |
| `Stores.Store.Enforce` | bins/pg_kronika-collector/src/rotation.rs:206-282 | every pass, also one ended by a failing removal, keeps that and leaves exactly the rest of the plan; in auto mode it deletes only while the settled usage is above the target, and a pass that nothing disturbs reaches the target, up to what the partition has grown by, or deletes everything it may |
| `Stores.Store.Run` | bins/pg_kronika-collector/src/rotation.rs:167-192 | any run of publications, outside changes, moves of the partition and passes keeps the invariant, and every step of its trace is exactly the effect of its event |
| `Stores.PassRetains` | bins/pg_kronika-collector/src/rotation.rs:239-275 | a pass keeps a newest suffix of the segments, also when it is aborted |
| `Stores.PassCounts` | bins/pg_kronika-collector/src/rotation.rs:224-260 | after a scanning pass the counter equals a fresh recount of what is left and of what a failing removal unlinked exactly when the true sum fits the counter or the pass deleted none or all of it; it is the true size exactly when the sum fits or all was deleted |
| `Stores.RecountIsMissed` | bins/pg_kronika-collector/src/rotation.rs:224-260 | an input on which the counter is not the recount |
| `Stores.WatchedIsCovered` | bins/pg_kronika-collector/src/rotation.rs:291-318 | the readings of a pass and any growth, shrinkage and release between them keep held bytes covered |
| `Stores.EffectiveUsageIsSettled` | bins/pg_kronika-collector/src/rotation.rs:455-462 | the compared figure exceeds the settled usage by at most the other shrinkage and the bytes that never became pending, and by nothing without them |
| `Stores.NothingExtraDeleted` | bins/pg_kronika-collector/src/rotation.rs:230-262 | before every single deletion the settled usage, with that allowance, is above the threshold by more than the pass has deleted |
| `Stores.AutoPassSettles` | bins/pg_kronika-collector/src/rotation.rs:206-282 | in auto mode one undisturbed pass brings the settled usage, less the growth of the partition, to the target, or leaves nothing to delete |
| `Stores.GrowthHidesRelease` | bins/pg_kronika-collector/src/rotation.rs:455-462 | from an accounted state the next reading keeps more pending than is held exactly when the partition grew by more than other files shrank while readers released something |
| `Stores.ReadingKeepsAccount` | bins/pg_kronika-collector/src/rotation.rs:455-462 | otherwise, when growth and shrinkage cancel, pending reclaim is again what is held |
| `Rotations.DeficitIsLeast` | bins/pg_kronika-collector/src/rotation.rs:465-468 | the deficit is the least number of bytes whose removal brings usage to the given percent of the partition |
| `Rotations.DropIsCredited` | bins/pg_kronika-collector/src/rotation.rs:455-462 | an observed drop of usage, and nothing else, is taken off the pending reclaim |
| `Stores.CoveredWithoutAllowance` | bins/pg_kronika-collector/src/rotation.rs:243-275 | from an accounted state a pass keeps held bytes covered exactly when a failing removal unlinked nothing and pending reclaim did not saturate |
| `Stores.ForeignDeletionRaisesUsage` | bins/pg_kronika-collector/src/rotation.rs:455-462 | from an accounted state the next reading compares more than the settled usage exactly when other files shrank by more than the partition grew while something is still held |
| `Stores.ForeignDeletionDeletes` | bins/pg_kronika-collector/src/rotation.rs:452-462 | an input on which that makes a deficit and a pass deletes a segment although the settled usage is not above the threshold |
| `Stores.PassIsFixedPass` | bins/pg_kronika-collector/src/rotation.rs:206-282 | without interference a pass in fixed mode does what the repeated-pass theorem speaks about |
| `Stores.Store.Settle` | bins/pg_kronika-collector/src/rotation.rs:206-282 | undisturbed passes of the program, one more than there are orphan overviews, end within the budget or with nothing left to delete |
| `Stores.StartAndSettle` | bins/pg_kronika-collector/src/rotation.rs:206-282 | the same from the start of rotation over a tree that the counter can hold |
| `Stores.SegmentAppended` | bins/pg_kronika-collector/src/rotation.rs:167-169 | a publication with a newer id extends the retained suffix and adds its bytes |
| `Retention.FixedModeConverges` | bins/pg_kronika-collector/src/rotation.rs:206-282 | one pass more than there are orphan overviews reaches the budget or deletes everything that may be deleted |
| `Retention.PassSettlesOrDropsOrphan` | bins/pg_kronika-collector/src/rotation.rs:239-262 | a pass that stays above the budget with files left deleted an orphan overview |
| `Retention.OnePassSettles` | bins/pg_kronika-collector/src/rotation.rs:230-262 | one pass settles exactly when it may delete the whole plan or its counted files cover the deficit without the orphan overviews |
| `Retention.CoverIsShortest` | bins/pg_kronika-collector/src/rotation.rs:239-262 | a pass deletes the shortest prefix of the plan that covers the deficit, or all of it |
| `Retention.StepAlongPlan` | bins/pg_kronika-collector/src/rotation.rs:370-388 | deleting the plan's first file leaves exactly the rest of the plan and takes exactly that file's bytes |
| `Retention.NewestStay` | bins/pg_kronika-collector/src/rotation.rs:383-386 | only the oldest segments go, never the newest |
| `Retention.CountableIsClippedSum` | bins/pg_kronika-collector/src/rotation.rs:417-433 | the saturating folds are the true sum clipped at 2^64-1 |
| `Retention.PlanVictims` | bins/pg_kronika-collector/src/rotation.rs:370-388 | the plan: stale PGM temporaries, orphan overviews, evidence, segments without the newest |
| `Rotations.Rotation.RemoveVictims` | bins/pg_kronika-collector/src/rotation.rs:236-275 | deletes the covering prefix unless a removal fails first; counter and pending reclaim follow with saturation |
| `Rotations.Rotation.Enforce` | bins/pg_kronika-collector/src/rotation.rs:206-282 | scans exactly when the counted size is over the budget, or an hour has passed since the last recount, or in auto mode the first reading is over the target; the deficit is what the fresh count exceeds the budget by, or the least number of bytes that brings the second reading to the target |
| `Rotations.Rotation.Target` | bins/pg_kronika-collector/src/rotation.rs:291-318 | the compared size and threshold, with the observed drop credited first |
| `Rotations.Rotation.MaybeEnforce` | bins/pg_kronika-collector/src/rotation.rs:172-192 | runs exactly after a publication or when a minute has passed since the last tick |
| `Schedulers.Scheduler.Plan` | bins/pg_kronika-collector/src/scheduler.rs:287-318 | the due set and the recorded reads, with indexes giving way to tables |
| `Schedulers.Scheduler.NextElapsedDueIn` | bins/pg_kronika-collector/src/scheduler.rs:262-276 | the least remainder of a positive interval |
| `Schedulers.NothingDueBefore` | bins/pg_kronika-collector/src/scheduler.rs:262-318 | no read source with a positive interval is due before the announced instant |
| `Schedulers.PlanAtWakeIsNotEmpty` | bins/pg_kronika-collector/src/scheduler.rs:262-318 | a plan at the announced instant is not empty, even when indexes give way |
| `Schedulers.NoSleepMeansAllDue` | bins/pg_kronika-collector/src/scheduler.rs:257-276 | without an announced instant every source is due at any time |
| `Schedulers.RemainingDecides` | bins/pg_kronika-collector/src/scheduler.rs:262-276 | a source is due exactly from the instant at which nothing remains |
| `Schedulers.Scheduler.Accelerate` | bins/pg_kronika-collector/src/scheduler.rs:225-235 | a pace at or above the base interval is ignored, other sources keep theirs |
| `Schedulers.Scheduler.MarkSegmentOpened` | bins/pg_kronika-collector/src/scheduler.rs:244-250 | exactly the segment-opening sources are put back |
| `Pacing.WaitsOneTick` | bins/pg_kronika-collector/src/budget.rs:56-76 | from every state, for all intervals, times spent and forced ticks, statements and tables that come due are read on that tick or the next when cycles complete |
| `Pacing.IndexesWaitTwoTicks` | bins/pg_kronika-collector/src/scheduler.rs:287-318 | indexes that come due are read within the next two ticks |
| `Pacing.WaitsAreBounded` | bins/pg_kronika-collector/src/main.rs:218-308 | in every run a source that comes due is read within one tick more, indexes within two, as long as the cycles complete |
| `Pacing.RunTicks` | bins/pg_kronika-collector/src/main.rs:218-308 | what the loop reads on each tick is what the run of the state machine admits, and the plan of a tick behind a seal holds the four sources that make a segment self-contained, whatever their intervals |
| `Pacing.IndexesMayNeedTwo` | bins/pg_kronika-collector/src/scheduler.rs:302-312 | two ticks are needed in a concrete state |
| `Pacing.RefusalIsForgotten` | bins/pg_kronika-collector/src/main.rs:470-506 | refused statements or tables are read on the next tick exactly when its cycle gets to them and the refusing cycle completed, the tick is forced, or the whole interval has passed again |
| `Pacing.IndexRefusalIsForgotten` | bins/pg_kronika-collector/src/main.rs:470-506 | the same for refused indexes, which may also have to give way |
| `Pacing.Tick` | bins/pg_kronika-collector/src/pool_sources.rs:352-430 | the imperative tick over scheduler and budget is one step of the state machine that these lemmas speak about; all other sources are read as planned, each verdict moves exactly its source's pace, and after a seal the four sources that every segment carries are put back |
| `Pacing.PoolBudget.Admit` | bins/pg_kronika-collector/src/budget.rs:56-76 | a refusal sets the flag that admits the source the next time, an admission clears it |
| `Pacing.ReadPoolSources` | bins/pg_kronika-collector/src/pool_sources.rs:352-430 | who is admitted, who is put on the deferral list, and what the flags become |
| `Pacing.TimerSleepDelay` | bins/pg_kronika-collector/src/main.rs:83-113 | the least of the tick and of every deadline it consults, or rotation's alone |
| `Pacing.NothingMissedAsleep` | bins/pg_kronika-collector/src/main.rs:83-113 | no source interval, plans read or segment age passes while the loop sleeps |
| `Pacing.DueAtWake` | bins/pg_kronika-collector/src/main.rs:83-113 | at the end of the sleep the tick or the rotation period has passed, or plans, the segment's age or a source that was read has come due |
| `Pacing.BudgetIsInMilliseconds` | bins/pg_kronika-collector/src/budget.rs:56-76 | a budget of 1000 admits whoever is not forced or owed while less than a second was spent |
| `Coverage.SourceCoverage.SnapshotMarker` | bins/pg_kronika-collector/src/coverage.rs:176-227 | the published facts of the saturating accumulator are those of the exact tally |
| `Coverage.MarkerIgnoresOrder` | bins/pg_kronika-collector/src/coverage.rs:89-148 | they depend only on the multiset of recorded outcomes |
| `Coverage.SeverityDrops` | bins/pg_kronika-collector/src/coverage.rs:176-190 | recording an outcome lowers the severity exactly when it hides an earlier excess |
| `Coverage.SeverityRises` | bins/pg_kronika-collector/src/coverage.rs:176-190 | severity never falls while every partition collects at most its total |
| `Coverage.SeverityCanFall` | bins/pg_kronika-collector/src/coverage.rs:176-190 | a concrete history on which severity falls |
| `Coverage.ExactTotalIsTrue` | bins/pg_kronika-collector/src/coverage.rs:193-213 | an exact total is the true sum over partitions that were all read, and the encoded collected count never exceeds the encoded total |
| `Coverage.SourceCoverage.AttemptedMeansRecorded` | bins/pg_kronika-collector/src/coverage.rs:193-213 | without an attempt no total is claimed, and every recorded outcome is an attempt |
| `Coverage.WorstAttemptIsKept` | bins/pg_kronika-collector/src/coverage.rs:283-290 | over any series of attempts the worst is kept, the earliest of several, and no other could be |
| `Coverage.WorstOf` | bins/pg_kronika-collector/src/statements_source.rs:444-525 | the calls of one read keep exactly that attempt |
| `Coverage.PreferAttempt` | bins/pg_kronika-collector/src/coverage.rs:283-290 | when the earliest of the worst is kept of the attempts so far, it is kept of one more |
| `TextBudget.TruncateToBoundary` | bins/pg_kronika-collector/src/plans_source.rs:954-963 | the longest prefix within the limit that ends between two characters |
| `TextBudget.TruncateLogText` | bins/pg_kronika-collector/src/pg_log_source.rs:610-622 | the same result on every input |
| `TextBudget.TruncationKeepsCharacters` | bins/pg_kronika-collector/src/plans_source.rs:954-963 | the kept bytes encode a prefix of the characters, as long as the limit allows |
| `TextBudget.BoundaryMeaning` | bins/pg_kronika-collector/src/plans_source.rs:954-963 | character boundaries are exactly the ends of whole-character prefixes |
| `TextBudget.Utf8RoundTrip` | bins/pg_kronika-collector/src/plans_source.rs:954-963 | the bytes of a character, as many as the lead byte says, read back as its code point |
| `TextBudget.BudgetOsscTexts` | bins/pg_kronika-collector/src/plans_source.rs:809-826 | kept bytes and remaining budget add up to the budget, no row is lost, and each text is cut at its allowance |
| `TextBudget.FetchPlanTexts` | bins/pg_kronika-collector/src/plans_source.rs:849-951 | the same when texts are fetched one by one and the loop may stop early |
| `LogLine.RenderLogLine` | bins/pg_kronika-collector/src/logging.rs:198-277 | the pushed characters are the line of the record |
| `LogLine.LineRoundTrip` | bins/pg_kronika-collector/src/logging.rs:198-277 | a parser recovers level, action and every field, for all values and plain keys |
| `LogLine.LinesAreDistinct` | bins/pg_kronika-collector/src/logging.rs:198-277 | different records never share a line |
| `LogLine.LineHasNoControl` | bins/pg_kronika-collector/src/logging.rs:251-277 | no line contains a raw control character |
| `LogLine.BareExactly` | bins/pg_kronika-collector/src/logging.rs:251-277 | a value stands without quotes exactly when it is not empty and has no white space, control character, equals sign, quote or backslash |
| `LogLine.EscapesExactly` | bins/pg_kronika-collector/src/logging.rs:251-277 | inside quotes a character is escaped exactly when it is a control character, a quote or a backslash |
| `Terminology.MatchesInFile` | scripts/validate-single-root-terminology.py:89-131 | for every way of cutting a text into chunks, below the limit every occurrence of every term is reported exactly once with its line number, and the limit is never exceeded |
| `Terminology.OccurrencesAreApart` | scripts/validate-single-root-terminology.py:104-113 | skipping a whole term after a match loses nothing when the term cannot overlap itself |
| `Terminology.NewlinesAreCounted` | scripts/validate-single-root-terminology.py:89-131 | the line number of a match is one more than the number of line breaks before it |
| `Terminology.ForbiddenTermsAreSearchable` | scripts/validate-single-root-terminology.py:26-35 | the listed terms cannot overlap themselves |

## Left out

- Collectors.Collector.Restart: keeps the journal's size limit of the previous process, and does not validate the segments that are already in the tree.
- Collectors.Collector.RecoverActiveJournal: fails when the journal cannot be rotated away; the alternate journal beside a retained one is not modelled, and moving evidence into quarantine is taken as done.
- Recoveries.ReplayInto: a frame at which the replay breaks off leaves the fresh journal sound; an append of the replay whose rollback fails as well is not modelled.
- The scan that finds verified frames in damaged bytes: which frames verify is a parameter, any subset in their order.
- The encoding of a sealed file: a segment is its ordered list of windows, so two different lists are taken as different files.
- Deletion of published segments by rotation while the collector runs is modelled in `Stores`, not in `Collectors`.
- Files that vanish or grow between the scan of a pass and their removal; a removal frees what the scan showed.
- Sorting of evidence by modification time and of segments by id: the lists of `Disk` are in that order already.
- Non-regular quarantine entries, the filter that drops them, and pruning of empty day directories.
- Blocks against bytes: unlinking a file is taken to hold and release its length.
- Collectors.Collector.SealOpenSegment: requires that nothing published waits for a reset, as every caller in the main loop does.
- The `pg_store_plans` cadence enters only through its next read; the lock-wait graph, connection pooling, retries and timeouts of queries are outside.
- Forced wakes, signals and the asynchronous event loop itself: a run is any sequence of ticks.
- SegmentPath.PathBijection: strings of characters; values of other Python types and the interpreter's limit on digits of an integer are not modelled.
- Terminology.MatchesInFile: one file; walking the tree, Git and sorting are not modelled.
- LogLine.RenderLogLine: values are already text; formatting of numbers and the log-level gate are not modelled.
- PostgreSQL queries, operating-system reads, the web UI and its handlers, configuration parsing, Parquet, Zstandard and checksums.
