# Crash-safe journals, their archive and the collector: a Dafny model

This project models the storage core of two crates and proves what they are built to guarantee.

- `crates/bounded-rolling-file` keeps a bounded journal of newline-terminated records in numbered segment files. Segment numbers come from a two-file reservation, and a second protocol of the same kind publishes the identity of the storage generation. Readers page through with cursors while the writer runs.
- `crates/cloud-mg-telemetry` collects such journals. A fetched batch becomes a frame in a per-stream, per-day archive file, and is then committed together with its cursor. Around that stand the registration fence, the snapshot store, the metrics cache, the drain loop, the request budget and the reception dates.

## How it is built

`FileSystem` is the crash model: a directory of names and inodes with link counts. A name may revert to any meaning it had since the last directory sync, and a file to any prefix at least as long as what was synced of it. `ArchiveDisk` is the same idea for the archive's files. Every system call is one step, any call may fail before, within or after its effect, and a crash may come between any two steps, inside recovery too.

The journal, the identity protocol, the reader that races the writer, and the archive with its ledger are step machines. The main theorems are about every run of them. In the journal's runs the configuration may change with every step; only the limits, the order of removals, the race and the collection are about one configuration. `Collection` puts journal, fetches, stream row and archive together and follows a record all the way. Beside each machine stands the source's code in its own form: classes and methods with loops, whose contracts say that each call walks a path of the machine (`Leads`, `Follows`), so the theorems about runs are about that code. The classes count failed calls, and an I/O error is promised to come only with one. The collector's transactions are methods on tables, proved equal to functions whose histories the theorems are about.

| modules | what they hold |
|---|---|
| `FileSystem`, `CrashViews`, `Procedures`, `Decimal`, `MetadataText`, `Sums`, `Wrappers` | crash model, procedures that may stop anywhere, texts of numbers |
| `Reservation`, `ReservationOutcomes`, `ReservationSafety`, `ReservationOpen`, `DirectoryCode`, `ReservationCode` | the segment reservation |
| `IncarnationProtocol`, `IncarnationSafety`, `IncarnationRuns`, `IncarnationCode` | the storage identity |
| `Journal`, `JournalNumbers`, `JournalSegments`, `JournalStorage`, `JournalStorageSteps`, `JournalHistory`, `JournalLimits`, `JournalOrder`, `JournalRotation` | the journal machine and its runs |
| `JournalPaths`, `JournalCode`, `JournalOpenCode`, `JournalCodeSafety` | the appender |
| `JournalReader`, `JournalReads`, `JournalSteadiness`, `JournalRace`, `JournalRaceSafety`, `JournalRaceProof`, `JournalRaceReads` | the reader, alone and racing the writer |
| `ArchiveDisk`, `ArchiveLedger`, `ArchiveSafety`, `ArchiveWork`, `ArchiveRuns`, `ArchiveQuota`, `ArchivePaths`, `ArchiveCode` | archive and ledger |
| `JournalStreams`, `JournalBatches`, `JournalDrain`, `Registrations`, `MetricsCache`, `MetricsCommit`, `MetricsScrape`, `ReceptionDays`, `SourceBudget` | the collector |
| `Collection`, `CollectionProof` | from the journal to its archive |

`dafny verify dfyconfig.toml` checks the whole project.

## Findings

Six promises do not hold on all inputs. Each has an input that breaks it and the exact condition under which it holds.

- **Opening the identity can fail for good.** An open finds a pending name with malformed text, removes it and is stopped before it syncs the directory. The next open finds no pending name, writes a new one and links it. If the machine crashes before the directory sync, the link may be kept while the older changes are lost. The published and the pending name are then different files, and every later open refuses the directory. `IncarnationRuns.MismatchReached` is such a run. `IncarnationRuns.OpenFailsOnlyMismatched`: an open fails if and only if both names are there and are different files, and that never happens after an open has returned.
- **A returned cursor can be refused.** With a store of one segment `abc`, no newline, and both limits 2, a read skips the line and returns the cursor at its end, which the next read rejects as not following a newline (`JournalReads.CursorRefusedExample`). `JournalReads.CursorAccepted`: the returned cursor is accepted if and only if the first line that the read does not return is not both longer than the record limit and without an end (`StopsAtEndlessLine`, a condition on the store, the cursor and the limits).
- **Dates before 0000-02-29 are a day late.** The era of a negative day number is rounded down twice. The 59 days of year 0000 before its leap day and the day before that year get the text of the following day, so two days share 0000-02-29 (`ReceptionDays.OneDayLate`, `ReceptionDays.SameDateTwice`). `ReceptionDays.InstantExact`: over all instants, the text or the refusal is the right one if and only if the day number is at least -1 or at most -62, counted from 0000-03-01.
- **Duplicate seats make the totals drift.** A commit that names a seat twice subtracts the old row twice (`MetricsCommit.DuplicateSeatsDrift`: 30 counted, 20 stored). `MetricsCommit.ExactIffDifferent`: for a list of seats, the totals are right for all rows and all tables if and only if no seat comes twice. This concerns `commit_metrics` alone: the poller never sends such a commit, since its comparison of lengths lets through exactly the lists without duplicates (`MetricsScrape.ListSeats`, `MetricsScrape.CommitIsDistinct`).
- **A failing journal starves those behind it.** A poll that ends with an error keeps no new offset, so the next one starts where it did. With two journals, and the fetch of the one at the saved offset failing every time, the other is never fetched (`JournalDrain.FailureStarves`). `JournalDrain.FailureHides`: as long as some journals fail, one of them among the 40 fetches of a poll, a journal is fetched, in every poll or in none, if and only if it too is among those 40 and no failing journal stands before it in the rotation from the saved offset. `JournalDrain.AllReachedIffLast`: of at most 40 journals, all are fetched if and only if none fails but the last of that rotation. Polls that end normally starve nobody (`JournalDrain.NoStarvation`).
- **A plus sign is accepted.** Numbers are to be read from their canonical text only, without leading zeros. But `events-+5.jsonl` is taken for segment 5, as `events-5.jsonl` is, and `+5` for the reservation 5 (`MetadataText.PlusSignAccepted`). `MetadataText.SegmentNameExact`, `MetadataText.ReadNextExact`: unless the number begins with a plus sign, a text is read as a number if and only if it is what is written for it; `MetadataText.ReadNextPlus` says what is read behind one. The journal itself writes none.

Where the comments disagree with the code, the model follows the code: the comment on `discard_through_newline` gives the cursor at the end of the file without saying that the next read refuses it, and the one on `from_unix_seconds` claims years 0000 through 9999 without the exception above.

## Model

| member | source | states |
|---|---|---|
| `Decimal.PrintValue` | crates/bounded-rolling-file/src/lib.rs:415-417 | a printed number is nonempty, all digits, without a leading zero, and has its own value |
| `Decimal.PrintParse` | crates/bounded-rolling-file/src/lib.rs:419-427 | every 64-bit number parses back from its text |
| `MetadataText.SegmentNameRoundTrip` | crates/bounded-rolling-file/src/lib.rs:415-427 | the file name of a segment is parsed back to its number, so distinct numbers have distinct names |
| `MetadataText.SegmentNameExact` | crates/bounded-rolling-file/src/lib.rs:419-427 | unless its number begins with a plus sign, a name is taken for a segment if and only if it is that segment's name |
| `MetadataText.PlusSignAccepted` | crates/bounded-rolling-file/src/lib.rs:419-427 | two names, and two reservations, that are read as 5 |
| `MetadataText.NextTextReads` | crates/bounded-rolling-file/src/segment_reservation.rs:255-305 | a written reservation reads back as its number, and no proper prefix of it, such as a crash may leave, reads as anything |
| `MetadataText.ReadNextExact` | crates/bounded-rolling-file/src/segment_reservation.rs:279-305 | unless it begins with a plus sign, a reservation text is read as a number if and only if it is what is written for that number |
| `MetadataText.ReadNextPlus` | crates/bounded-rolling-file/src/segment_reservation.rs:279-305 | what is read behind a plus sign: any digits within the length limit |
| `MetadataText.CanonicalIff` | crates/bounded-rolling-file/src/journal_incarnation.rs:106-140 | the accepted identity texts are exactly the lowercase hyphenated texts of version 7 UUIDs |
| `Reservation.ReadSingleMeans` | crates/bounded-rolling-file/src/segment_reservation.rs:266-305 | a reservation counts if and only if its name is the only one of a file that holds the text of its number, or one with a plus sign |
| `Reservation.MarkerMeans` | crates/bounded-rolling-file/src/segment_reservation.rs:129-154 | the marker counts if and only if its name is the only one of a file that holds a one and a newline |
| `Reservation.NextAfter` | crates/bounded-rolling-file/src/segment_reservation.rs:168-175 | the least number ahead of all segments, or none within 64 bits |
| `Reservation.OpenOutcome` | crates/bounded-rolling-file/src/segment_reservation.rs:13-112 | for every directory, which number an open left alone returns: the published one, the pending one if that is ahead or nothing is published, or the least after the segments; none if it is not ahead of the segments or the names do not fit together |
| `Procedures.SafeCompletes` | crates/bounded-rolling-file/src/segment_reservation.rs:220-233 | a procedure that is safe to interrupt anywhere is never refused when left alone and reaches its goal |
| `ReservationOpen.OpenSafe` | crates/bounded-rolling-file/src/segment_reservation.rs:13-112 | from every state the invariant allows, the open publishes a number ahead of every exposed segment through calls that may stop anywhere, or the numbers are used up; once established it never derives from segments |
| `ReservationCode.PublishPending` | crates/bounded-rolling-file/src/segment_reservation.rs:220-225 | the method makes exactly the planned calls, or stops within one of them |
| `ReservationCode.ReplaceWithPending` | crates/bounded-rolling-file/src/segment_reservation.rs:227-233 | likewise for the replacement of the published name |
| `ReservationCode.WriteNextSegmentPending` | crates/bounded-rolling-file/src/segment_reservation.rs:255-264 | likewise for the new pending file |
| `ReservationCode.EnsureReservationMarker` | crates/bounded-rolling-file/src/segment_reservation.rs:114-166 | likewise for the marker, created or synced as the directory has it |
| `ReservationCode.OpenNextSegment` | crates/bounded-rolling-file/src/segment_reservation.rs:13-112 | the code with all its recovery branches follows the plan that `OpenSafe` is about: same calls, same result or error; it reports an I/O error exactly if a call failed, and then leaves a state that the plan allows |
| `ReservationCode.ReserveNextSegment` | crates/bounded-rolling-file/src/segment_reservation.rs:177-194 | the same for the reservation of the next number, the changed reservation and the used-up numbers included |
| `JournalNumbers.NewSegmentIsNew` | crates/bounded-rolling-file/src/lib.rs:366-379 | in every run, under whatever configurations, a segment about to be created has a greater number than every segment ever exposed |
| `JournalNumbers.NumbersRise` | crates/bounded-rolling-file/src/segment_reservation.rs:177-233 | no segment number is created twice in any run of opens, reservations, creations, failures and crashes: later numbers are greater |
| `JournalNumbers.OpenSucceeds` | crates/bounded-rolling-file/src/segment_reservation.rs:37-54 | from every reachable directory an open left alone succeeds with a durably published number ahead of everything exposed, or nothing was ever reserved and the numbers are used up |
| `JournalNumbers.NeverDerivedAgain` | crates/bounded-rolling-file/src/segment_reservation.rs:69-112 | once an open got past the reservation, no later open derives the number from the surviving segments |
| `IncarnationRuns.OneIdentity` | crates/bounded-rolling-file/src/journal_incarnation.rs:30-91 | once an open has returned an identity, every later open that returns gives the same one, through any crashes |
| `IncarnationRuns.OpenAgain` | crates/bounded-rolling-file/src/journal_incarnation.rs:30-91 | after that, an open left alone succeeds: each of its calls is possible in turn, it returns that identity, and the identity is then published for good |
| `IncarnationRuns.PublishedIsDurable` | crates/bounded-rolling-file/src/journal_incarnation.rs:33-45 | a published name without a pending name survives every crash unchanged |
| `IncarnationRuns.OpenFailsOnlyMismatched` | crates/bounded-rolling-file/src/journal_incarnation.rs:150-183 | an open of a reachable directory fails if and only if both names are there and are different files, and never after one has returned |
| `IncarnationRuns.MismatchReached` | crates/bounded-rolling-file/src/journal_incarnation.rs:61-91 | a run that reaches such a state |
| `IncarnationProtocol.IdentityOutcome` | crates/bounded-rolling-file/src/journal_incarnation.rs:30-91 | for every directory, which identity an open left alone returns: the published one if its text is whole and its names are in order, otherwise the pending one if that is whole and alone, otherwise a new one |
| `IncarnationCode.OpenIncarnationLocked` | crates/bounded-rolling-file/src/journal_incarnation.rs:30-91 | the code makes the calls of the identity procedure that the theorems are about, with its result, or stops within one of them; it reports an I/O error exactly if a call failed |
| `IncarnationCode.WritePendingIdentity` | crates/bounded-rolling-file/src/journal_incarnation.rs:93-104 | the pending file is made by the planned calls or left part way |
| `JournalStorageSteps.StorageHolds` | crates/bounded-rolling-file/src/lib.rs:284-379 | the storage invariant holds in every state of every run, whatever configurations the journal is opened with |
| `JournalHistory.CursorStable` | crates/bounded-rolling-file/src/lib.rs:268-279 | if a cursor is valid at two moments of a run, the bytes before it are the same, across appends, failed writes, truncation, crashes, repair and reopening with any configuration |
| `JournalHistory.AcknowledgedStays` | crates/bounded-rolling-file/src/lib.rs:324-364 | what an append acknowledged is in its segment at every later moment until the segment is pruned, under whatever configurations |
| `JournalLimits.LimitsHold` | crates/bounded-rolling-file/src/lib.rs:284-379 | whatever configurations a journal was used with before: once an open with a configuration has returned, or if the segments were within its limit anyway, every segment is within the limit at every later moment under it, inside writes too and whatever a crash leaves; an open appender tracks at most the allowed number |
| `JournalLimits.StepTrims` | crates/bounded-rolling-file/src/lib.rs:464-531 | how far an open has cut the journal down to its configuration is kept by every step under it |
| `JournalOrder.StepOrder` | crates/bounded-rolling-file/src/lib.rs:450-462 | once all segments are within the limit, segments are removed oldest first, and only the removal of the oldest may be undone by a crash |
| `JournalRotation.RemovedForRoom` | crates/bounded-rolling-file/src/lib.rs:341-379 | in every run, under whatever configurations, a segment is removed only by an append whose record did not fit, when there were as many segments as allowed and it was the oldest, or by an open that found it oversized or the oldest of too many |
| `JournalRotation.RotationBegan` | crates/bounded-rolling-file/src/lib.rs:341-347 | in every run, a rotation under way began with an append whose record did not fit the active segment |
| `JournalCode.RollingFileAppender.AppendRecord` | crates/bounded-rolling-file/src/lib.rs:324-364 | an append walks a path of the machine and ends ready; refused records and a poisoned appender change nothing; a record that fits goes behind the active segment's bytes and no segment is started or removed; otherwise it is the first of a segment with the reserved number, and exactly as many of the oldest segments went as had to; success means it stands acknowledged; it fails only with a failed call, or in a rotation that finds a segment gone, the reservation changed or the numbers used up |
| `JournalCode.RollingFileAppender.Rotate` | crates/bounded-rolling-file/src/lib.rs:366-379 | a rotation ends with a fresh empty segment of the reserved number and only as many of the oldest removed as had to be, or ready again, and then a call failed or a segment was gone, the reservation changed or the numbers used up |
| `JournalCode.RollingFileAppender.RemoveOldest` | crates/bounded-rolling-file/src/lib.rs:450-462 | the least tracked number goes from the directory and from the map, or neither from the map |
| `JournalCode.RollingFileAppender.WriteAndSync` | crates/bounded-rolling-file/src/lib.rs:349-364 | a failed write or sync poisons the appender, success counts and acknowledges the record; unless the rollback fails too, no part of a record is left |
| `JournalOpenCode.Open` | crates/bounded-rolling-file/src/lib.rs:284-316 | opening walks a path of the machine; success gives a valid appender that tracks exactly the newest of the segments within the byte limit, as many as allowed, with the number of the reservation and no active segment; failure leaves the journal closed; an invalid configuration changes nothing, and an I/O error means that a call failed |
| `JournalOpenCode.RemoveOversized` | crates/bounded-rolling-file/src/lib.rs:464-484 | exactly the segments that are within the limit are kept |
| `JournalOpenCode.RemoveSurplus` | crates/bounded-rolling-file/src/lib.rs:293-295 | the newest are kept, as many as allowed |
| `JournalOpenCode.LastNewline` | crates/bounded-rolling-file/src/lib.rs:518-521 | the loop finds the end of the last complete record |
| `JournalOpenCode.RepairTail` | crates/bounded-rolling-file/src/lib.rs:506-531 | the tail repair walks the machine's repair phase or ends the open |
| `JournalOpenCode.LastOf` | crates/bounded-rolling-file/src/segment_reservation.rs:168-172 | the greatest discovered number, or none |
| `JournalCodeSafety.LeadsKeeps` | crates/bounded-rolling-file/src/lib.rs:284-379 | whatever the code does from a state with the storage invariant keeps it and the limits, and the record of the past only grows |
| `JournalCodeSafety.ReadyMeans` | crates/bounded-rolling-file/src/lib.rs:324-364 | a healthy open appender's active segment holds exactly the bytes it counts, complete and on disk |
| `JournalCodeSafety.MarkerStaysApart` | crates/bounded-rolling-file/src/segment_reservation.rs:129-153 | in no state with the invariant does the marker share a file with the reservation names |
| `JournalReader.ReadBatch` | crates/bounded-rolling-file/src/lib.rs:142-244 | the nested loops refuse bad limits and otherwise return the exact result: the longest run of whole records after the start that fits, up to the first oversized or unfinished line, with the gap flag and the cursor |
| `JournalReader.ReadSegment` | crates/bounded-rolling-file/src/lib.rs:202-236 | the inner loop does so within one segment |
| `JournalReader.DiscardThroughNewline` | crates/bounded-rolling-file/src/lib.rs:246-266 | the position after the next newline, or the end |
| `JournalReader.ReadUntil` | crates/bounded-rolling-file/src/lib.rs:204-210 | a bounded line read stops at the newline, the limit or the end, whichever is first |
| `JournalReads.ReadsOn` | crates/bounded-rolling-file/src/lib.rs:166-181 | from a cursor at a segment's start or behind one of its newlines, the records are the front of the journal from the cursor on, cut only in front of a line that is oversized, unfinished or does not fit; a gap is reported only for a skipped line |
| `JournalReads.ReadsAnew` | crates/bounded-rolling-file/src/lib.rs:166-186 | without a cursor, or with one whose segment is gone, past its end or inside a line, they are the front of the whole journal, from the oldest segment on; a refused cursor is a gap |
| `JournalReads.Longest` | crates/bounded-rolling-file/src/lib.rs:142-244 | no longer run of whole records after the start would have fitted |
| `JournalReads.OneResult` | crates/bounded-rolling-file/src/lib.rs:142-244 | only one result is exact |
| `JournalReads.Progress` | crates/bounded-rolling-file/src/lib.rs:142-244 | if a whole fitting record is next, a read returns it and moves the cursor |
| `JournalReads.Conserved` | crates/bounded-rolling-file/src/lib.rs:142-244 | the store from the start on is the returned records, the skipped line if any, and the store from the returned cursor on |
| `JournalReads.CursorAccepted` | crates/bounded-rolling-file/src/lib.rs:212-222 | the next read accepts the returned cursor if and only if this read does not stop at an oversized line that has no end |
| `JournalReads.CursorRefusedExample` | crates/bounded-rolling-file/src/lib.rs:246-279 | a store whose returned cursor is refused |
| `JournalSteadiness.WorkKeeps` | crates/bounded-rolling-file/src/lib.rs:324-379 | while removals are in order, a step of the writer never changes a superseded segment and never brings a number back |
| `JournalRaceProof.RaceHolds` | crates/bounded-rolling-file/src/lib.rs:142-244 | the racing invariant holds in every state of every interleaving of reader steps, writer steps and crashes |
| `JournalRaceProof.ContiguousRecords` | crates/bounded-rolling-file/src/lib.rs:142-244 | at every moment of every race, the records a caller got since the last gap are the journal's text between the start of the first and the caller's cursor: none missing, repeated or out of order; if the gap is a skipped line, that is one line too long for the caller, and the records that came with it are the text in front of it |
| `JournalRaceProof.NothingPassedOver` | crates/bounded-rolling-file/src/lib.rs:324-379 | that text holds everything an append acknowledged in a segment the reader went past |
| `JournalRaceReads.UndisturbedRead` | crates/bounded-rolling-file/src/lib.rs:142-244 | a read of the racing machine that nothing disturbs returns the exact result that `ReadBatch` returns |
| `ArchiveQuota.RecoverySucceeds` | crates/cloud-mg-telemetry/src/archive.rs:158-217 | in every interleaving of workers, failures and crashes, recovery never finds damage and pruning never miscounts |
| `ArchiveQuota.RecoveryRestores` | crates/cloud-mg-telemetry/src/archive.rs:158-217 | when recovery is done, the files are exactly those with committed frames, and each is the concatenation of its committed frames in commit order |
| `ArchiveQuota.CommittedSurvives` | crates/cloud-mg-telemetry/src/store.rs:1723-1839 | at every moment every committed frame is on disk, whatever a crash does next |
| `ArchiveQuota.FilesMatchLedger` | crates/cloud-mg-telemetry/src/journal_catalog.rs:56-89 | between jobs, a file no worker has in hand holds exactly its committed frames |
| `ArchiveQuota.CountIsSafe` | crates/cloud-mg-telemetry/src/archive.rs:219-349 | the byte count is never below the real size, and equal to it between jobs when nothing failed since the last scan |
| `ArchiveQuota.QuotaHolds` | crates/cloud-mg-telemetry/src/archive.rs:219-257 | no successful append leaves the archive above its quota |
| `ArchiveCode.JournalArchive.Append` | crates/cloud-mg-telemetry/src/archive.rs:219-257 | every outcome of an append is a path of the machine with the stated end: the frame in hand, the worker dead and the archive poisoned with the calls made so far, or nothing changed; each error comes if and only if its condition holds, an I/O error exactly if a call failed, and a valid batch that fits is appended |
| `ArchiveCode.JournalArchive.AppendReserved` | crates/cloud-mg-telemetry/src/archive.rs:259-301 | success means exactly the planned calls and the start offset; failure stops within one of them |
| `ArchiveCode.JournalArchive.TruncateUncommitted` | crates/cloud-mg-telemetry/src/archive.rs:304-320 | a path of the machine; success cuts the file at the frame's start, syncs it and gives the bytes back |
| `ArchiveCode.JournalArchive.PruneBefore` | crates/cloud-mg-telemetry/src/archive.rs:108-156 | a path of the machine; success keeps exactly the days at or after the cutoff and subtracts exactly their size; the subtraction cannot fail when the count covers the files; the limit error comes only with too many entries, an I/O error exactly with a failed call |
| `ArchiveCode.JournalArchive.PruneStream` | crates/cloud-mg-telemetry/src/archive.rs:124-148 | the same for one directory |
| `ArchiveCode.JournalArchive.Recover` | crates/cloud-mg-telemetry/src/archive.rs:99-105 | a path of the machine; success leaves exactly the files with a boundary, each cut at it, and an exact count; the limit error comes only over a limit, an I/O error exactly with a failed call, and any other means a missing or damaged file |
| `ArchiveCode.JournalArchive.RecoverLocked` | crates/cloud-mg-telemetry/src/archive.rs:158-217 | the loops over directories and files, with the boundaries that found no file |
| `ArchiveCode.JournalArchive.VerifyAndTruncate` | crates/cloud-mg-telemetry/src/archive.rs:369-388 | the file is cut at the boundary only if its last frame is whole and has its digest; otherwise nothing changes |
| `ArchiveCode.JournalArchive.ScanUsedBytes` | crates/cloud-mg-telemetry/src/archive.rs:328-349 | the sum of all file lengths, if and only if entries and sum are within their limits |
| `ArchiveCode.BoundariesCheck` | crates/cloud-mg-telemetry/src/store.rs:1879-1907 | in every state with the invariant the final boundary of a file passes all checks and cuts it to its committed frames |
| `ArchivePaths.CodeNeverFails` | crates/cloud-mg-telemetry/src/archive.rs:99-217 | whatever the archive's code does from a reachable state, it never ends in a failed process: it never reports damage |
| `JournalStreams.OneWinner` | crates/cloud-mg-telemetry/src/store.rs:1723-1839 | two commits that carry records or a gap never both succeed from the same expected state |
| `JournalStreams.OneRow` | crates/cloud-mg-telemetry/src/store.rs:1634-1706 | in every run, no two rows share target and selector |
| `JournalStreams.SameRow` | crates/cloud-mg-telemetry/src/store.rs:1634-1680 | every later open of a row's journal is an open of that row |
| `JournalStreams.StreamsBounded` | crates/cloud-mg-telemetry/src/store.rs:1681-1692 | a target never has more rows than its limit |
| `JournalStreams.OneLine` | crates/cloud-mg-telemetry/src/store.rs:1619-1876 | within one generation the cursors of a stream form one rising line under one incarnation |
| `JournalStreams.CommitRaises` | crates/cloud-mg-telemetry/src/store.rs:1723-1839 | records without a gap raise the cursor within the generation; a gap begins the next generation |
| `JournalStreams.GapsAreGenerations` | crates/cloud-mg-telemetry/src/store.rs:1619-1876 | generation and gap count rise in lock step |
| `JournalStreams.RunForward` | crates/cloud-mg-telemetry/src/store.rs:1619-1876 | no stream row ever disappears or goes back |
| `JournalStreams.StreamStore.OpenJournalStream` | crates/cloud-mg-telemetry/src/store.rs:1619-1720 | the row of that target and selector is handed out, with its cursor if it has the listed incarnation and restarted otherwise; only if there is none a row is made; refused if and only if there is none and the target is at its limit |
| `JournalStreams.StreamStore.CommitJournalBatch` | crates/cloud-mg-telemetry/src/store.rs:1723-1839 | committed if and only if the target is current and the row is as expected; otherwise nothing changes |
| `JournalStreams.StreamStore.CommitIncarnationChange` | crates/cloud-mg-telemetry/src/store.rs:1842-1876 | the same for a new incarnation; the old one is refused as corrupt |
| `JournalBatches.ValidateBatch` | crates/cloud-mg-telemetry/src/journal_types.rs:112-168 | accepts exactly the acceptable batches, and an accepted batch follows the cursor it was fetched from |
| `JournalBatches.AcceptableIff` | crates/cloud-mg-telemetry/src/journal_types.rs:112-168 | a batch is acceptable if and only if it is of the expected identity, nothing but whole safe lines within the limits, with a position if it has records, and without a gap moves the cursor forward exactly if it has records |
| `JournalBatches.CheckRecords` | crates/cloud-mg-telemetry/src/journal_types.rs:144-161 | the loop accepts exactly complete lines that are all safe |
| `Registrations.FenceHolds` | crates/cloud-mg-telemetry/src/store.rs:1984-1999 | work that still passes the fence, whatever happened since it was handed out, used the endpoint and capability that are current now |
| `Registrations.NeverBack` | crates/cloud-mg-telemetry/src/store.rs:353-504 | revision, generation and signed time of a target never decrease |
| `Registrations.OneKey` | crates/cloud-mg-telemetry/src/store.rs:353-504 | a target id belongs to one public key for the whole run |
| `Registrations.AdmitMeans` | crates/cloud-mg-telemetry/src/store.rs:353-504 | exactly the registrations that do not go back, and within a generation keep their capability, are accepted; the row then has their endpoint and capability and a new lease, its revision moves exactly if generation or endpoint do, and other rows stay |
| `Registrations.TargetStore.AdmitTarget` | crates/cloud-mg-telemetry/src/store.rs:353-504 | an admission is the transition the theorems are about, with its result; a refusal changes nothing |
| `Registrations.TargetStore.BeginWork` | crates/cloud-mg-telemetry/src/store.rs:829-882 | work is handed out if and only if a row is current, and carries that row's endpoint and capability |
| `MetricsCache.HitIsFresh` | crates/cloud-mg-telemetry/src/server.rs:687-766 | in every run with non-decreasing times, a cache hit shows the active targets, listed seats and observations of a fresh exposition at that moment |
| `MetricsCache.ViewShows` | crates/cloud-mg-telemetry/src/store.rs:1147-1250 | an exposition shows a target exactly while its lease runs, then with all listed seats and stored observations, and nothing of others |
| `MetricsCache.PurgeMeans` | crates/cloud-mg-telemetry/src/store.rs:1580-1616 | the purge deletes exactly the observations of targets whose lease is over, moves the revision exactly if there were any, and changes no exposition |
| `MetricsCache.MetricsServer.MetricsAt` | crates/cloud-mg-telemetry/src/server.rs:687-766 | hits exactly under the hit condition; a miss exposes the state and fills the cache |
| `MetricsCache.MetricsServer.NextExpiry` | crates/cloud-mg-telemetry/src/store.rs:1580-1616 | the least lease expiry after now |
| `MetricsCommit.TotalsExact` | crates/cloud-mg-telemetry/src/store.rs:893-1040 | with distinct seats the running totals are the recomputed sums and stay within both caps |
| `MetricsCommit.ExactIffDifferent` | crates/cloud-mg-telemetry/src/store.rs:893-1040 | for a list of seats, the totals are right for all rows and all tables if and only if no seat comes twice |
| `MetricsCommit.ReplacementStored` | crates/cloud-mg-telemetry/src/store.rs:893-1040 | a replacement no larger than the stored row is stored, whatever comes before it |
| `MetricsCommit.SkippedIsRemembered` | crates/cloud-mg-telemetry/src/store.rs:893-1040 | saturation is reported exactly when a snapshot was skipped |
| `MetricsCommit.CommitKeepsCaps` | crates/cloud-mg-telemetry/src/store.rs:893-1040 | a commit keeps the table within both caps |
| `MetricsCommit.SmallerReplacementCommitted` | crates/cloud-mg-telemetry/src/store.rs:893-1040 | the same for a whole commit: the smaller replacement is in the committed table |
| `MetricsCommit.OthersKept` | crates/cloud-mg-telemetry/src/store.rs:893-1040 | of the rows that a commit has no snapshot for, exactly those of ended leases and of the target's unlisted seats go; all others stay as they are |
| `MetricsCommit.AllStored` | crates/cloud-mg-telemetry/src/store.rs:893-1040 | a commit that does not report saturation has stored every snapshot |
| `MetricsCommit.RelistedMeans` | crates/cloud-mg-telemetry/src/store.rs:893-1040 | the target's listing becomes the given one, those of others stay |
| `MetricsCommit.CapsHold` | crates/cloud-mg-telemetry/src/store.rs:893-1040 | any number of commits with distinct seats stay within both caps |
| `MetricsCommit.DuplicateSeatsDrift` | crates/cloud-mg-telemetry/src/store.rs:893-1040 | a commit with a seat twice whose totals are not the sums |
| `MetricsCommit.MetricStore.CommitMetrics` | crates/cloud-mg-telemetry/src/store.rs:893-1040 | stale and oversized commits change nothing; otherwise the table, the flag, the revision and the listing are as specified, and completion is recorded only if nothing was skipped |
| `MetricsScrape.ListSeats` | crates/cloud-mg-telemetry/src/metrics_poller.rs:378-386 | comparing the lengths of the list and the set accepts exactly the lists without duplicates |
| `MetricsScrape.Scrape` | crates/cloud-mg-telemetry/src/metrics_poller.rs:374-505 | the loop over the seats computes the specified commit, early exits included |
| `MetricsScrape.CommitIsDistinct` | crates/cloud-mg-telemetry/src/metrics_poller.rs:374-505 | whatever the target lists and the seats answer, the seats of the commit are distinct and listed |
| `MetricsScrape.CompleteMeans` | crates/cloud-mg-telemetry/src/metrics_poller.rs:387-505 | a scrape is complete exactly if every seat gave a snapshot |
| `MetricsScrape.KeptIff` | crates/cloud-mg-telemetry/src/metrics_poller.rs:387-505 | the commit has a seat's snapshot if and only if the seat gave dated samples before the time was over and all samples up to it fit; then it is the row the seat gave |
| `MetricsScrape.ScrapesStayWithinCaps` | crates/cloud-mg-telemetry/src/metrics_poller.rs:349-505 | any number of scrapes and commits stay within both caps |
| `JournalDrain.Drain` | crates/cloud-mg-telemetry/src/journal_poller.rs:377-467 | the fetches, each for whom it was, and the end of the poll are those that the answers determine: in rotation over the journals not yet done, until 40 fetches, a stop, a failure, or all done; a journal is done exactly if one of its fetches was answered so; unfinished journals were fetched as often as the rotation visited them, so any two differ by at most one; the saved offset is where the rotation stands, and backlog is reported exactly if something is unfinished |
| `JournalDrain.OnePoll` | crates/cloud-mg-telemetry/src/journal_poller.rs:377-467 | fetches and end of a poll are determined by the number of journals, the offset and the answers |
| `JournalDrain.Lap` | crates/cloud-mg-telemetry/src/journal_poller.rs:388-456 | one lap over the journals keeps the rotation |
| `JournalDrain.Fair` | crates/cloud-mg-telemetry/src/journal_poller.rs:377-467 | visits of a rotation to any two journals differ by at most one |
| `JournalDrain.OneRotation` | crates/cloud-mg-telemetry/src/journal_poller.rs:377-467 | consecutive polls of an unchanged listing are one rotation |
| `JournalDrain.NoStarvation` | crates/cloud-mg-telemetry/src/journal_poller.rs:377-467 | over any number of such polls no backlogged journal falls more than one fetch behind another |
| `JournalDrain.FailureHides` | crates/cloud-mg-telemetry/src/journal_poller.rs:408-451 | over any number of polls with a failing journal within the fetch limit, a journal is fetched, in each poll or in none, exactly if it is within the limit and no failing one stands before it in the rotation from the saved offset |
| `JournalDrain.AllReachedIffLast` | crates/cloud-mg-telemetry/src/journal_poller.rs:408-451 | of at most 40 journals, some of which fail, all are fetched exactly if none fails but the last of that rotation |
| `JournalDrain.FailureStarves` | crates/cloud-mg-telemetry/src/journal_poller.rs:439-445 | two journals, of which the one behind the failing one is never fetched |
| `CollectionProof.CollectedIsTheJournal` | crates/cloud-mg-telemetry/src/journal_catalog.rs:56-89 | in every run of writer, fetches, commits, failures and crashes, the committed frames of a generation, joined in commit order, are the journal's text from the generation's first position to its cursor, each record once and in order; a generation that began with a skipped line has the text in front of it in its first frame; the current generation has the row's cursor |
| `CollectionProof.RowIsCollected` | crates/cloud-mg-telemetry/src/store.rs:1619-1720 | the row of the journal's identity always has such a generation |
| `CollectionProof.ArchivedFrames` | crates/cloud-mg-telemetry/src/archive.rs:158-320 | between archive jobs, a file of the stream that no worker has in hand is the concatenation of its latest committed frames in commit order: all but those that retention has taken |
| `CollectionProof.DeliveryFollows` | crates/cloud-mg-telemetry/src/journal_types.rs:133-143 | what a read of a journal returns always passes the collector's checks against the cursor it was fetched from |
| `CollectionProof.DeliveryMeans` | crates/bounded-rolling-file/src/lib.rs:239-243 | a returned batch continues what was collected, or begins again after a gap |
| `ReceptionDays.ClosedFormCounts` | crates/cloud-mg-telemetry/src/journal_types.rs:79-96 | from 0000-03-01 on, the closed form is the date found by counting calendar days |
| `ReceptionDays.ClosedFormExact` | crates/cloud-mg-telemetry/src/journal_types.rs:79-96 | from 0000-01-01 on, it is if and only if the day is 0000-02-29 or later |
| `ReceptionDays.FromDaysValid` | crates/cloud-mg-telemetry/src/journal_types.rs:79-96 | a year that is not negative comes with a date that exists |
| `ReceptionDays.TextExact` | crates/cloud-mg-telemetry/src/journal_types.rs:79-96 | over all day numbers, the text or the refusal is right if and only if the number is at least -1 or at most -62 |
| `ReceptionDays.InstantExact` | crates/cloud-mg-telemetry/src/journal_types.rs:75-96 | the same over all instants |
| `ReceptionDays.OneDayLate` | crates/cloud-mg-telemetry/src/journal_types.rs:82-83 | on the 60 days in between the date is the following day's |
| `ReceptionDays.SameDateTwice` | crates/cloud-mg-telemetry/src/journal_types.rs:82-83 | two days get the date 0000-02-29 |
| `ReceptionDays.TextRoundTrip` | crates/cloud-mg-telemetry/src/journal_types.rs:45-73 | the text of a date is accepted and read as that date |
| `ReceptionDays.ParseRoundTrip` | crates/cloud-mg-telemetry/src/journal_types.rs:45-73 | an accepted text is the text of the date it was read as |
| `ReceptionDays.TextOrder` | crates/cloud-mg-telemetry/src/journal_types.rs:40-42 | the byte order of date texts is the order of dates |
| `ReceptionDays.DayOfInstant` | crates/cloud-mg-telemetry/src/journal_types.rs:75-96 | every instant from 0000-03-01 through 9999-12-31 gets the accepted text of its counted date, later ones are refused |
| `ReceptionDays.PruningKeepsDays` | crates/cloud-mg-telemetry/src/journal_poller.rs:295-327 | the texts of two instants compare as their days do, so pruning by text keeps exactly the days at or after the cutoff |
| `SourceBudget.TableBounded` | crates/cloud-mg-telemetry/src/server.rs:560-580 | the table never holds more than 4096 prefixes |
| `SourceBudget.BudgetHolds` | crates/cloud-mg-telemetry/src/server.rs:560-580 | for every request sequence in time order, one prefix gets at most twice the budget less one admitted in any half-open 60-second span |
| `SourceBudget.RefusedOnlyOver` | crates/cloud-mg-telemetry/src/server.rs:560-580 | for every request sequence in time order, a registration is refused only if its prefix had its budget admitted within the last 60 seconds, or is new and the table is full of running windows |
| `SourceBudget.Budget.Enforce` | crates/cloud-mg-telemetry/src/server.rs:560-580 | the method makes the decision the theorems are about |

## Left out

- Encryption, digests, zstd, JSON and signatures: uninterpreted; a digest is a function of the bytes and a frame is given as bytes.
- Transport, HTTP, timers, logging, counters and the rendered metrics text: only the order of steps they cause is kept.
- Directory and process locks, file permissions and symbolic links: one writer, one archive job and one collector at a time are part of the machines.
- SQL: every transaction is one atomic step on maps; database errors appear where a commit may have happened or not.
- Metrics admission policy, report field validation, configuration bounds and the operator interface: settled by reading one branch each, or not in these crates.
- 64-bit overflow of generations, revisions and gap counts: these counters are unbounded here; segment numbers, cursors and byte counts carry their limits.
- JournalRaceProof.ContiguousRecords: listing a directory is one step, the configuration is fixed for the race (a lowered limit removes segments in the middle), and a segment that vanishes between listing and opening ends the read with an error.
- CollectionProof.CollectedIsTheJournal: one journal under one configuration and one stream that collects it; batches of other identities that the stream's row may turn to are arbitrary texts.
- ReservationCode.OpenNextSegment: its promise is for directories whose marker is a file of its own, which `MarkerStaysApart` shows of every reachable one; the branch for a name that appears while the lock is held is not modelled, and errors keep their kind but not their text.
- JournalOpenCode.Open: a segment has one name, so that a second one with a plus sign, which the code would also find, is outside; it requires the same of the marker; refused multiply linked segments are outside the states that the machine starts from.
- IncarnationCode.OpenIncarnationLocked: the branch for a published name that appears while the lock is held is not modelled.
- ArchiveCode.JournalArchive.TruncateUncommitted: the frame starts within the file, as that of every refused commit does; lengthening a file is not modelled.
- ArchiveCode.JournalArchive.Append: the frame is not empty, as the encoder never makes an empty one; entries with foreign names in the archive directory, which the code refuses, are not modelled.
- ArchiveDisk: a stream directory whose removal was not synced comes back empty.
- Registrations.TargetStore.AdmitTarget: the error for an unknown key and the removal of an expired target's rows are not part of it; the latter is part of the metrics cache.
- Registrations.FenceHolds: a target is always active, since nothing outside the tests changes its status.
- MetricsCache.HitIsFresh: transaction times do not decrease; clock readings that arrive out of order, and the separate freshness of the last complete poll, are not modelled.
- MetricsCache.ViewShows: stored rows that cannot be decoded, or that the exposition's own limits on rows and bytes leave out, are not modelled.
- MetricsCache.MetricsServer.MetricsAt: its two transactions follow each other without another in between; the theorem about hits allows any.
- MetricsCommit.MetricStore.CommitMetrics: removal of targets whose lease has ended is a given set; observation texts are a length, a sample count and a content.
- JournalStreams.StreamStore.OpenJournalStream: a stream always has an incarnation; the nullable column of older databases and the errors for rows that cannot be read are not modelled.
- JournalStreams.StreamStore.CommitJournalBatch: the errors for a cursor of another incarnation, which validation has refused, and for counters that overflow are not modelled.
- JournalDrain.Drain: answers are a function of the fetch number; the listing does not change between the polls of a series.
- SourceBudget.Budget.Enforce: the second expiry check of a window just replaced is dead code and has no counterpart.
