# A verified model of Sazanami DVR's protocols and stream transformers

Sazanami DVR is a recording backend: a few persistent protocols that must survive a process that dies at
any point, and a few transformers of byte streams. This project models both in Dafny and proves what the
rest of the program, and its users, rely on. A maintainer who changes one of the files below can change the
module beside it and see which promise no longer holds.

`dafny verify dfyconfig.toml` checks the whole project.

## How it is built

Code that works step by step is a class or a loop here and is proved against a specification function; what
matters is then proved of that function, or as an invariant over every run. Code that only computes is a
function.

- **Crashes.** A protocol takes a schedule that fixes, for each of its effects (a rename, a manifest, a
  transaction, a read), whether it works, reports an error with or without having taken effect, or never
  happens because the process dies. Effects done stay done. `CrashesConverge` runs recoveries over any number of
  such schedules and then one that survives.
- **Transactions** are one atomic step each. The directory is a map from names to inodes with sizes; files
  are compared by content identity.
- **Interleavings.** Where Go code runs concurrently, the state machine's steps are its critical sections:
  the store's transactions in any order, the live cache's sections in any order, timers that fire late or
  after they were stopped, recordings that end and users who stop them between any two steps of the
  scheduler.
- **Streams** are sequences of bytes, numbers are unbounded where the code bounds them itself, and wrapped or
  saturated where the code wraps or saturates them (planned times in 64 bits, quality counters, PCR values
  modulo 2^33 times 300, continuity counters modulo 16).

| component | modules |
|---|---|
| approximate search | Fuzzy, FuzzyText |
| offline restore | Restore |
| recording rows, stop, follow, claim | EndTime, RecordingModel, RecordingRows, RecordingInvariant, RecordingStore, RecordingTransactions |
| publication and recovery | Publication, RecoveryRun |
| MPEG-TS | Mpegts, ProgramTables, PsiCollector, RecordingPsi, TsFraming, StreamTables, ComponentFilter, Packetizer |
| catalogue metadata and revisions | Ordering, CatalogMetadata, MetadataCodec, CatalogRevision |
| catalogue garbage collection | CatalogRetention, CatalogGc |
| live HLS | HlsSegments, HlsValidation, HlsCandidate, HlsStep, HlsSegmenter, HlsStream, LivePlaylist, LiveSession, LiveCache |
| recording scheduler | SchedulerTrace, Scheduler |

## What the proofs found

- **A finish that blocks recovery.** `FinishAttempt` accepts, on a FINALIZING row, an unpublished PARTIAL
  result under the very communication reason that the settled plan names (recording_repository.go:1132-1142).
  `RecoveryAttempts` selects that row afterwards and `validateRecoveryValues` refuses it, so every later
  start would fail. No caller in the program issues it. `RecordingStore.ClaimedRowBlocksRecovery` reaches such
  a row from a claim in four committed transactions; `RecordingInvariant.FinishKeepsReadable` shows that this
  guard, and nothing else, separates the finishes that keep a row readable from those that do not.
- **Two formulas for a planned end.** A claim's end agrees with `activeFollowEnd` exactly when the programme
  itself, without its end margin, ends within 64 bits (`EndTime.ClaimMatchesFollow`); `ClaimBeyondFollow` is a
  reservation for which it does not. It is claimed, and then never follows (`RecordingStore.BeyondNeverFollows`).
- **A foreign file under the final name.** Such an attempt does not end in the state its finalization
  settled: recovery ends it FAILED with FILE_INTEGRITY_MISMATCH and leaves both files where they are. The
  planned end is reached if and only if the final name is free (`Publication.Site.CrashesConverge`; for many
  attempts in one directory, `RecoveryRun.Recovery.RecoveriesConverge`).
- **Branches that are never taken.** The discontinuity sequence never reaches its maximum before the segment
  numbers do (hls_playlist.go:94-96); a rewritten programme map never outgrows its length field
  (ts_filter.go:505-507); `pmtIssue` refuses nothing `ParsePMT` accepts; a candidate never starts beyond the
  segment limit (hls_segmenter.go:421-423); the wake-up margin never refuses what the idle limit allows
  (scheduler.go:357-361); and a stop registration never meets a full registry (stop_registry.go:29).

## Model

| member | source | states |
|---|---|---|
| Fuzzy.FuzzyContains | internal/core/autoreservation/fuzzy.go:78-111 | true exactly when some substring of the target is within a quarter of the keyword's length in edits of the keyword, edits being an explicit script with a cost |
| Fuzzy.SearchTable | internal/core/autoreservation/fuzzy.go:91-111 | the search with two exchanged rows finds a hit exactly when some entry of the full table's last column is within the limit |
| Fuzzy.FillRow | internal/core/autoreservation/fuzzy.go:96-104 | one pass over a row turns the table's row for k runes into the row for k + 1 |
| Fuzzy.FirstRow | internal/core/autoreservation/fuzzy.go:91-95 | the first row is the table's row for the empty target |
| Fuzzy.CellIsAttained | internal/core/autoreservation/fuzzy.go:92-108 | every table entry is the cost of an actual edit script from some suffix of the target |
| Fuzzy.CellIsMinimal | internal/core/autoreservation/fuzzy.go:92-108 | no edit script from any suffix of the target is cheaper than the entry |
| Fuzzy.LastColumnDecides | internal/core/autoreservation/fuzzy.go:92-111 | an approximate occurrence exists if and only if an entry of the last column is within the limit |
| Fuzzy.ExactIsDistanceZero | internal/core/autoreservation/fuzzy.go:84-86 | the exact search in front finds exactly the occurrences at distance zero |
| FuzzyText.NormalizeFuzzyText | internal/core/autoreservation/fuzzy.go:8-42 | the loop that overwrites the last rune yields the left fold of the runes, and normalising its result changes nothing |
| FuzzyText.AbsorbRune | internal/core/autoreservation/fuzzy.go:13-40 | one turn of the loop, with a mark composed into the rune before it or kept as a spacing mark |
| FuzzyText.NormalizedIsSettled | internal/core/autoreservation/fuzzy.go:8-76 | in normalised text every rune is folded and no mark stands behind a rune it composes with |
| FuzzyText.SettledIsFixed | internal/core/autoreservation/fuzzy.go:8-76 | settled text is left as it is |
| FuzzyText.NormalizeIdempotent | internal/core/autoreservation/fuzzy.go:8-76 | normalisation is idempotent, with and without case |
| Restore.NothingIsLost | internal/adapters/sqlite/restore.go:135-204 | in every phase the old database, WAL and SHM each stand under exactly one of their canonical and quarantine names, unchanged |
| Restore.DataRoot.RestoreOffline | internal/adapters/sqlite/restore.go:69-204 | whatever fails or dies, manifest and directory agree; success means COMMITTED, verified and not cancelled; without I/O errors an error means ROLLED_BACK |
| Restore.DataRoot.Prepare | internal/adapters/sqlite/restore.go:95-124 | the staged copy and the record of the canonical files are published together as PREPARED, or nothing is |
| Restore.DataRoot.MoveAway | internal/adapters/sqlite/restore.go:142-156 | a canonical file is moved to its quarantine name and no other file moves |
| Restore.DataRoot.QuarantineFiles | internal/adapters/sqlite/restore.go:142-159 | afterwards all three old files are in quarantine and the canonical name is free |
| Restore.DataRoot.InstallCopy | internal/adapters/sqlite/restore.go:172-181 | the staged copy is under the canonical name and the staging name is gone |
| Restore.DataRoot.Publish | internal/adapters/sqlite/restore.go:547-574 | the manifest becomes the new operation as a whole, and only if it is a valid one, or stays |
| Restore.DataRoot.Advance | internal/adapters/sqlite/restore.go:576-580 | a phase is recorded only over a directory that already has that phase's shape |
| Restore.DataRoot.ReturnDatabase | internal/adapters/sqlite/restore.go:383-409 | the canonical name holds the old database again, whichever file stood there, without touching a sidecar that is home |
| Restore.DataRoot.ReturnSidecar | internal/adapters/sqlite/restore.go:410-420 | a sidecar that existed is back under its canonical name, one that did not is not |
| Restore.DataRoot.Rollback | internal/adapters/sqlite/restore.go:375-435 | without I/O errors it ends ROLLED_BACK with every canonical file as at the start; a crash leaves ROLLING_BACK or the phase before |
| Restore.DataRoot.FailNeedsOperator | internal/adapters/sqlite/restore.go:437-447 | nothing is moved, and the operation is left for a person |
| Restore.DataRoot.QuarantineReady | internal/adapters/sqlite/restore.go:334-362 | the check passes whenever all old files are in quarantine, and only if each of them is under its quarantine name |
| Restore.DataRoot.FinishRecovered | internal/adapters/sqlite/restore.go:309-332 | an installed and verified copy ends COMMITTED; one that does not verify is left where it is |
| Restore.DataRoot.PlaceCopy | internal/adapters/sqlite/restore.go:263-293 | the staged copy reaches the free canonical name, or the phase stays one from which it still can |
| Restore.DataRoot.Recover | internal/adapters/sqlite/restore.go:207-307 | a finished operation is left alone entirely; otherwise no crash changes the outcome the found phase decides, and an error-free run reaches it |
| Restore.DataRoot.CrashesConverge | internal/adapters/sqlite/restore.go:207-307 | from any point a crash left, through any number of recoveries that die at any effect, one that may finish ends COMMITTED with the copy installed or ROLLED_BACK with every canonical file as it was |
| Restore.DataRoot.RestoreSurvivesCrashes | internal/adapters/sqlite/restore.go:69-307 | a whole operation under crashes ends one of these two ways, or never became an operation and moved no canonical file |
| EndTime.ClaimIsExact | internal/adapters/sqlite/recording_repository.go:701-710 | an accepted claim's planned times are the exact sums, within 64 bits and a day apart, although they are computed with wrap-around |
| EndTime.ClaimMatchesFollow | internal/adapters/sqlite/recording_repository.go:335-370 | the end a claim stores is the one `activeFollowEnd` gives the same times if and only if the programme's own end is within 64 bits |
| EndTime.ClaimBeyondFollow | internal/adapters/sqlite/recording_repository.go:335-370 | concrete times whose claim is accepted and whose end the follow arithmetic refuses |
| RecordingStore.BeyondNeverFollows | internal/adapters/sqlite/recording_repository.go:249-370 | whenever the programme itself ends beyond 64 bits, no follow moves the running recording's end |
| EndTime.FollowEndInRange | internal/adapters/sqlite/recording_repository.go:352-370 | an end from a follow is after the attempt's start, within a day of it and within 64 bits |
| RecordingInvariant.FinishKeepsReadable | internal/adapters/sqlite/recording_recovery_repository.go:244-348 | a finish leaves a row that recovery can read, if it selects it, exactly when it does not take back a settled publication |
| RecordingInvariant.UnpublishedRowBlocksRecovery | internal/adapters/sqlite/recording_recovery_repository.go:244-310 | a concrete finish that the store accepts and after which recovery refuses its own row |
| RecordingStore.ClaimedRowBlocksRecovery | internal/adapters/sqlite/recording_repository.go:636-1252 | the same row is reached from a claim by committed transactions of which only the last is the forbidden finish |
| RecordingInvariant.FinalizeKeepsRow | internal/adapters/sqlite/recording_repository.go:942-1103 | settling, flagging and one-seg outcomes keep equal byte counts, the order of the flags and the evidence of token and plan |
| RecordingInvariant.ObserveKeepsRow | internal/adapters/sqlite/recording_recovery_repository.go:146-242 | what recovery writes about a file keeps the row in order |
| RecordingInvariant.EarlyChangeKeepsRow | internal/adapters/sqlite/recording_repository.go:750-939 | start, progress, stop and replanning keep an open attempt in order |
| RecordingInvariant.ChangeKeepsRow | internal/adapters/sqlite/recording_repository.go:750-1252 | every transaction but the one forbidden finish keeps the row in order |
| RecordingInvariant.HistoryStaysReadable | internal/adapters/sqlite/recording_recovery_repository.go:14-142 | after any history of an attempt, a row that recovery selects passes its checks |
| RecordingInvariant.ChangeKeepsStop | internal/adapters/sqlite/recording_repository.go:452-520 | states only move forward; a recorded stop stays, and none is recorded at or after FINALIZING |
| RecordingInvariant.StopWinsOrLosesForGood | internal/adapters/sqlite/recording_repository.go:452-520 | over any interleaving with the executor: a settled plan is a user stop exactly if a stop was recorded, and stays what it is |
| RecordingInvariant.AcknowledgedStopNeverSucceeds | internal/adapters/sqlite/recording_repository.go:942-1007 | an acknowledged stop never ends SUCCEEDED and its settled plan says USER_REQUESTED_STOP |
| RecordingStore.ClaimKeepsDb | internal/adapters/sqlite/recording_repository.go:636-747 | a claim keeps one attempt per reservation and every file name used once |
| RecordingStore.OnAttemptKeepsDb | internal/adapters/sqlite/recording_repository.go:750-1252 | a transaction on an attempt keeps the database in order |
| RecordingStore.StopKeepsDb | internal/adapters/sqlite/recording_repository.go:452-520 | so does a stop |
| RecordingStore.FollowKeepsDb | internal/adapters/sqlite/recording_repository.go:249-332 | so does a follow, and the planned end stays the one the reservation's times give |
| RecordingStore.StepKeepsDb | internal/adapters/sqlite/recording_repository.go:34-1252 | so does every transaction of the model |
| RecordingStore.OrderlyIsReadable | internal/adapters/sqlite/recording_recovery_repository.go:244-348 | in an orderly database a selected row is an accepted one, a reservation has one attempt, and no name is used twice |
| RecordingStore.HistoryKeepsDb | internal/adapters/sqlite/recording_repository.go:34-1252 | the database is in order after any history, so recovery is never refused by what the program wrote |
| RecordingStore.StepMovesEnd | internal/adapters/sqlite/recording_repository.go:249-332 | no transaction moves a planned start; only a follow moves a planned end, in extension-only mode never backwards |
| RecordingStore.ReturnedEndsAreAccepted | internal/app/recording/executor.go:298-308 | over any history an open attempt's end is after its start and within a day, and never earlier than before in extension-only mode: what the executor requires of it |
| RecordingTransactions.SettlePlan | internal/adapters/sqlite/recording_repository.go:978-1007 | the requested plan, or the user stop that won against it |
| RecordingTransactions.FinalizeRows | internal/adapters/sqlite/recording_repository.go:942-1056 | the three updates succeed together exactly if the finalization is allowed |
| RecordingTransactions.FlagRows | internal/adapters/sqlite/recording_repository.go:1407-1452 | a flag is set only in its order |
| RecordingTransactions.FinishChecks | internal/adapters/sqlite/recording_repository.go:1128-1183 | the sequence of checks refuses exactly what may not end |
| RecordingTransactions.FinishRows | internal/adapters/sqlite/recording_repository.go:1106-1252 | attempt and segments end together |
| RecordingTransactions.Store.ClaimConflicts | internal/adapters/sqlite/recording_repository.go:679-700 | the scan reports exactly the conflicts: an attempt of the reservation, a used identifier, a used name |
| RecordingTransactions.Store.ClaimRecording | internal/adapters/sqlite/recording_repository.go:636-747 | claims exactly what may be claimed, and returns the stored attempt |
| RecordingTransactions.Store.FindAttempt | internal/adapters/sqlite/recording_repository.go:452-520 | finds the reservation's attempt if and only if it has one |
| RecordingTransactions.Store.StopReservation | internal/adapters/sqlite/recording_repository.go:452-520 | accepts exactly the stops that still count and records them in one step |
| RecordingTransactions.Store.BeginFinalizing | internal/adapters/sqlite/recording_repository.go:942-1056 | settles the result as one step and returns what was settled |
| RecordingTransactions.Store.MarkFlag | internal/adapters/sqlite/recording_repository.go:1059-1076 | sets a publication flag as one step |
| RecordingTransactions.Store.Finish | internal/adapters/sqlite/recording_repository.go:1106-1252 | ends attempt, segments and reservation as one step, and keeps the order unless it takes back a publication |
| RecordingTransactions.Store.ApplyFollow | internal/adapters/sqlite/recording_repository.go:189-332 | moves the reservation's times, and the end of a running attempt with them, as one step |
| RecordingTransactions.Store.MoveEnd | internal/adapters/sqlite/recording_repository.go:249-332 | the end that the follow computes is stored together with the times it comes from |
| Publication.NothingIsOverwritten | internal/adapters/recordingfs/store.go:186-267 | along every run a name that is not a partial one keeps its file, and a partial file is under its partial or its final name |
| Publication.ForeignFileStays | internal/adapters/recordingfs/store.go:186-221 | another file under the final name is neither overwritten nor removed, and the partial file stays |
| Publication.Site.LinkFinal | internal/adapters/recordingfs/store.go:186-221 | the partial file moves to a free final name; a taken name changes nothing |
| Publication.Site.RemovePartial | internal/adapters/recordingfs/store.go:245-267 | a partial name goes only if the final name has the same file |
| Publication.Site.Inspect | internal/adapters/recordingfs/store.go:279-311 | what is under the two names, how large, and whether it is one file |
| Publication.Site.Commit | internal/adapters/sqlite/recording_repository.go:942-1252 | a transaction is committed as a whole, refused, or lost with the process |
| Publication.Site.Begin | internal/app/recording/executor.go:421-462 | the result is settled before any name is published |
| Publication.Site.PublishSettled | internal/app/recording/executor.go:462-502 | an error or a crash anywhere leaves the attempt on the course to its one decided end |
| Publication.Site.Publish | internal/app/recording/executor.go:410-502 | the same for the whole publication; without errors it ends landed under the final name |
| Publication.Site.PublishRest | internal/app/recording/executor_oneseg.go:193-244 | the one-seg file, whatever becomes of it, does not change how the main recording ends |
| Publication.Site.FinishUnsupported | internal/app/recording/executor.go:464-473 | a file system that cannot rename without overwriting ends the attempt FAILED with both files in place |
| Publication.Site.LinkMain | internal/app/recording/executor.go:464-493 | afterwards the original file alone is under the final name and the row says so |
| Publication.Site.RecoverMain | internal/app/recording/recovery.go:184-234 | with files that match the rows, the main file is published if and only if its final name is free; a failure says FILE_INTEGRITY_MISMATCH and moves nothing |
| Publication.Site.CompleteMain | internal/app/recording/recovery.go:236-256 | directory entry durable, partial name gone, then the flags |
| Publication.Site.RecoverOneSeg | internal/app/recording/recovery.go:268-321 | touches only the one-seg file and its row, and ends with it finished or given up; finished if its final name is free |
| Publication.Site.RecheckOneSeg | internal/app/recording/recovery.go:323-363 | a finished one-seg file is confirmed or given up |
| Publication.Site.CompleteOneSeg | internal/app/recording/recovery.go:365-412 | a one-seg publication is completed or given up; the main row is untouched |
| Publication.Site.RecoverFinalizing | internal/app/recording/recovery.go:146-181 | ends as planned only with the whole file under the final name; with files that match the rows, in the one decided way |
| Publication.Site.FinishInterrupted | internal/app/recording/recovery.go:90-144 | a cut-off recording ends by what is under its names |
| Publication.Site.ReconcileMain | internal/app/recording/recovery.go:431-490 | the row says exactly what the names show |
| Publication.Site.ReconcileTerminalOneSeg | internal/app/recording/recovery.go:452-512 | so does the one-seg row |
| Publication.Site.ReconcileSuccess | internal/app/recording/recovery.go:431-474 | a landed attempt stays as it is |
| Publication.Site.RecoverItem | internal/app/recording/recovery.go:41-77 | an error-free run ends the attempt; nothing it can meet takes an attempt off its course or changes a terminal state or reason |
| Publication.Site.CrashesConverge | internal/app/recording/recovery.go:41-256 | any number of recoveries that die at any effect and then one that does not: the attempt ends in the state and reason its finalization settled, with the original file alone under the final name, if and only if that name was free; otherwise it fails and both files are where they were |
| Publication.Site.PublicationSurvivesCrashes | internal/app/recording/executor.go:410-502 | the same from the executor's publication on, including the byte count and a one-seg file that can be finished |
| RecoveryRun.Page | internal/adapters/sqlite/recording_recovery_repository.go:14-142 | a page is the first hundred selected rows behind the cursor, in ID order |
| RecoveryRun.Recovery.RecoverAt | internal/app/recording/recovery.go:52-70 | handling one attempt changes its row and its own names only, and keeps every other attempt on its course although the directory is shared |
| RecoveryRun.Recovery.HandlePage | internal/app/recording/recovery.go:52-70 | the attempts of a page are handled in order until the first error; each one that is done is at a terminal state, and no row outside the page changes |
| RecoveryRun.Recovery.Run | internal/app/recording/recovery.go:41-77 | without an error every attempt selected at the start is handled exactly once, in ID order, although handling it may take it out of the query; a run that ends early has done a prefix of them |
| RecoveryRun.Recovery.RecoveriesConverge | internal/app/recording/recovery.go:41-256 | attempts with distinct names share one directory, and recoveries die inside an attempt or between two any number of times: after one that does not, every finalization has its decided end, every cut-off recording the one its names showed, and every other attempt the end it had |
| RecoveryRun.FitsAfterwards | internal/app/recording/recovery.go:41-77 | an attempt recovered among the files of others leaves every other name as it was |
| RecoveryRun.WantedIsExact | internal/adapters/sqlite/recording_recovery_repository.go:14-60 | the visited IDs are those of the selected rows |
| RecoveryRun.WantedAscends | internal/adapters/sqlite/recording_recovery_repository.go:14-60 | in ascending order |
| Mpegts.CrcCloses | internal/mpegts/mpegts.go:427-452 | a section with its own CRC appended has CRC zero (ISO/IEC 13818-1 Annex A) |
| Mpegts.RegisterClears | internal/mpegts/mpegts.go:427-440 | fed its own four bytes the CRC register empties |
| Mpegts.PlainPacketParses | internal/mpegts/mpegts.go:54-107 | the parser reads back what the packetiser writes |
| Mpegts.PacketizeSection | internal/mpegts/mpegts.go:395-424 | the loop yields a pointer field, the section in full packets with running counters, and stuffing; or an error exactly outside the limits |
| ProgramTables.ClosedParses | internal/app/recording/ts_filter.go:479-515 | a table with its length, version and CRC rewritten parses to the same programme with the next version and the kept streams |
| ProgramTables.RewritePmt | internal/app/recording/ts_filter.go:479-515 | succeeds exactly if the parser accepts the table; the result passes CRC and parser, keeps program, PCR PID and program info, has the next version and the kept streams in order; dropped are the others' PIDs without the PCR PID |
| ProgramTables.KeepEntries | internal/app/recording/ts_filter.go:485-505 | the loop keeps head and kept entries, and collects the PIDs that lose their stream |
| PsiCollector.Collector.Feed | internal/mpegts/mpegts.go:159-235 | the buffer-mutating collector returns what the state function returns |
| PsiCollector.Collector.AppendBytes | internal/mpegts/mpegts.go:237-265 | so does its append |
| PsiCollector.SectionsComeBack | internal/mpegts/mpegts.go:159-265 | any list of well-headed sections, packetised with running counters, comes back from one collector exactly, with nothing left over |
| RecordingPsi.Buffer.Feed | internal/app/recording/ts_psi.go:31-105 | the array-based collector of the recorder computes the state function, issue included |
| RecordingPsi.Buffer.AppendBytes | internal/app/recording/ts_psi.go:107-136 | so does its append |
| RecordingPsi.SectionsComeBack | internal/app/recording/ts_psi.go:31-136 | sections of at most 1024 bytes with a valid CRC come back from it exactly, with no issue reported |
| TsFraming.AddDiscarded | internal/app/recording/ts_quality.go:12-23 | the counter is the sum, or the largest value once the sum reaches it; exactly then it is flagged as saturated |
| TsFraming.NoByteIsLost | internal/app/recording/ts_framing.go:18-98 | input = packets + skipped bytes + held bytes, byte for byte in order; so 188 times the packets plus the discarded plus the held is its length |
| TsFraming.ChunksDoNotMatter | internal/app/recording/ts_framing.go:18-83 | writing in two chunks gives the packets, the residue, the generation and the saturating counters of writing in one |
| TsFraming.FiveParse | internal/app/recording/ts_framing.go:56-67 | five packets in a row, each parsed |
| TsFraming.Framer.FindPackets | internal/app/recording/ts_framing.go:51-68 | the first offset where five packets follow each other, or none |
| TsFraming.Framer.Resynchronise | internal/app/recording/ts_framing.go:48-79 | a pass out of sync |
| TsFraming.Framer.Frame188 | internal/app/recording/ts_framing.go:30-47 | a pass in sync |
| TsFraming.Framer.Settle | internal/app/recording/ts_framing.go:29-81 | the inner loop ends with less than a packet held, or less than five out of sync |
| TsFraming.Framer.Write | internal/app/recording/ts_framing.go:18-83 | with its fixed buffer it computes the scan of everything held and given |
| TsFraming.Framer.Finish | internal/app/recording/ts_framing.go:91-98 | what is left is counted as trailing |
| ComponentFilter.ReplayIsLossless | internal/app/recording/ts_filter.go:373-399 | a replay keeps every protected packet, in order, and adds none |
| ComponentFilter.ReplayIsSelective | internal/app/recording/ts_filter.go:373-399 | from the rewritten table on it holds no other packet of the table's PID and none of a dropped stream |
| ComponentFilter.IssueIsNeeded | internal/app/recording/ts_psi.go:147-171 | the check in front of the parser refuses no section that the parser would accept |
| ComponentFilter.Filter.Replay | internal/app/recording/ts_filter.go:373-399 | writes the held packets with the rewritten table where its first packet came in |
| ComponentFilter.Filter.Fallback | internal/app/recording/ts_filter.go:401-423 | everything held back is written, and from then on everything |
| ComponentFilter.Filter.ObserveTables | internal/app/recording/ts_filter.go:199-231 | looks at the tables, writes nothing and leaves nothing out |
| ComponentFilter.Filter.Discover | internal/app/recording/ts_filter.go:233-301 | loses and adds no protected packet while it looks for the tables; what it has read of them is what the stream so far says |
| ComponentFilter.Filter.AdoptPmt | internal/app/recording/ts_filter.go:285-300 | a table the stream completed is adopted together with its replay, and leaves out exactly its own streams that are not wanted; or nothing is written |
| ComponentFilter.Filter.UpdatePmt | internal/app/recording/ts_filter.go:303-371 | an update under way holds its packets back and loses none; only a table of the stream changes what is left out |
| ComponentFilter.Filter.WriteInitialized | internal/app/recording/ts_filter.go:303-371 | outside the table a packet is written unless its stream is dropped |
| ComponentFilter.Filter.NewGeneration | internal/app/recording/ts_filter.go:77-89 | after a resynchronisation the tables start over and what was held is still there |
| ComponentFilter.Filter.ProcessPacket | internal/app/recording/ts_filter.go:77-196 | keeps: the tables it goes by are those of the stream so far, the PIDs it leaves out come from them, and what is written and held has the protected packets of the input, each once, unchanged and in order |
| ComponentFilter.Filter.Finish | internal/app/recording/ts_filter.go:426-444 | with leave to write, the output has exactly the packets of the input that the stream's own tables do not exclude, in order; a recording that keeps everything is the sequence of its well-formed packets |
| ComponentFilter.RecordStream | internal/app/recording/ts_filter.go:47-196 | a whole connection: the PIDs that may be missing are a function of the input alone, those its PAT sections announce as program maps and those its program maps list among the streams not wanted; every other well-formed packet is written exactly once, unchanged and in order |
| StreamTables.PmtPidInRange | internal/mpegts/mpegts.go:310-333 | a PAT that parses names a program map PID between 1 and 0x1ffe |
| Ordering.SortAndCompact | internal/core/catalogmodel/metadata.go:85-142 | sorting and dropping repetitions gives the one ascending list of the items |
| Ordering.AscendingIsUnique | internal/core/catalogmodel/metadata.go:85-142 | two ascending lists with the same items are equal |
| CatalogMetadata.NormalizeMetadata | internal/core/catalogmodel/metadata.go:85-142 | the cloned and sorted slices are the normal form, or an item is invalid |
| CatalogMetadata.NormalizeIsNormal | internal/core/catalogmodel/metadata.go:85-142 | the result is in normal form, and a normal form is left as it is |
| CatalogMetadata.NormalizeTwice | internal/core/catalogmodel/metadata.go:85-142 | normalisation is idempotent |
| CatalogMetadata.NormalFormIsBySet | internal/core/catalogmodel/metadata.go:85-142 | two descriptions have one normal form exactly if they have the same sets of items |
| CatalogMetadata.AudioOrder | internal/core/catalogmodel/metadata.go:346-360 | sound tracks are totally ordered |
| CatalogMetadata.GenreOrder | internal/core/catalogmodel/metadata.go:333-344 | so are genres |
| MetadataCodec.EncodeMetadata | internal/core/catalogmodel/metadata.go:145-186 | the loops write the encoding, within its size limit, or refuse |
| MetadataCodec.DecodeMetadata | internal/core/catalogmodel/metadata.go:189-276 | the cursor-moving reader computes the decoding |
| MetadataCodec.DecodeUndoesEncode | internal/core/catalogmodel/metadata.go:145-276 | whenever encoding succeeds, decoding it returns the normal form |
| MetadataCodec.EncodeUndoesDecode | internal/core/catalogmodel/metadata.go:189-276 | what decodes is the encoding of what it decodes to, a normal form |
| MetadataCodec.EncodingIsInjective | internal/core/catalogmodel/metadata.go:145-186 | equal bytes mean equal normal forms |
| CatalogRevision.EncodeRevisionV1 | internal/core/catalogmodel/revision.go:20-45 | the writers append the first version |
| CatalogRevision.EncodeRevisionV2 | internal/core/catalogmodel/revision.go:57-80 | and the second |
| CatalogRevision.V1IsInjective | internal/core/catalogmodel/revision.go:20-45 | equal first versions mean equal fields |
| CatalogRevision.V2IsInjective | internal/core/catalogmodel/revision.go:57-80 | equal second versions mean equal fields and equal normal forms of the details |
| CatalogRevision.VersionsDiffer | internal/core/catalogmodel/revision.go:20-80 | the two versions never coincide |
| CatalogRevision.HashedIsExact | internal/core/catalogmodel/revision.go:83-122 | two revisions are hashed from the same bytes exactly if their fields are equal and their details have one normal form |
| Packetizer.FindSync | internal/mpegts/mpegts.go:490-505 | the first position, within 64 KiB, where five packets in a row would start |
| Packetizer.ChunksDoNotMatter | internal/mpegts/mpegts.go:456-488 | however input is chunked: packets delivered stay delivered, and what follows depends on the left-over bytes and the new ones only |
| HlsSegments.NothingIsLost | internal/adapters/recordinghttp/hls_segmenter.go:393-446 | what precedes the first boundary, the segments in order and what is held are the input, byte for byte |
| HlsSegments.TicksTelescope | internal/mpegts/mpegts.go:115-131 | the ticks of all segments add up to the way from the first clock to the last modulo 2^33 times 300 |
| HlsValidation.ValidateSegment | internal/adapters/recordinghttp/hls_segmenter.go:522-598 | passes exactly the segments whose packet-by-packet examination ends with both tables complete and a picture to start with |
| HlsValidation.ValidatedIsPlayable | internal/adapters/recordinghttp/hls_segmenter.go:522-598 | such a segment announces no discontinuity behind its first packet, has one programme table throughout, and in that table's video a random access point with a PES start at it or after it |
| HlsValidation.SelectsExactly | internal/adapters/recordinghttp/hls_segmenter.go:321-349 | a video is selected if and only if there is one stream of a supported kind and none of an unsupported one |
| HlsCandidate.ObserveClock | internal/adapters/recordinghttp/hls_segmenter.go:351-375 | the list of observed clocks has, for every PID that carried one since the candidate began, the first, the last and whether it ever failed to advance by at most two seconds; a clock is refused exactly if it does not advance the programme's own or a new PID finds the list full |
| HlsCandidate.SelectClock | internal/adapters/recordinghttp/hls_segmenter.go:377-391 | the candidate's clock is the first one of its programme's clock PID since it began, and is refused exactly if that PID has not advanced steadily |
| HlsSegmenter.Segmenter.ProcessPat | internal/adapters/recordinghttp/hls_segmenter.go:245-272 | adopts each PAT and starts the map over when its PID changes, as specified, reason of a refusal included; of a candidate only its association changes |
| HlsSegmenter.Segmenter.ProcessPmt | internal/adapters/recordinghttp/hls_segmenter.go:274-319 | gives a candidate its table, video and clock, or refuses, as specified, and keeps what the candidate says of the packets |
| HlsSegmenter.Segmenter.Publish | internal/adapters/recordinghttp/hls_segmenter.go:414-446 | without an error exactly one segment and one boundary more: the data up to the candidate, one to two seconds by its clocks, validated, numbered next, with the flag of the boundary it starts at; with one, nothing |
| HlsSegmenter.Segmenter.CompleteCandidate | internal/adapters/recordinghttp/hls_segmenter.go:393-446 | opens the first segment, drops a candidate below one second that announced nothing, closes between one and two, refuses the rest, as specified |
| HlsSegmenter.Segmenter.TakePacket | internal/adapters/recordinghttp/hls_segmenter.go:185-218 | the packet joins the held data or is refused for the specified reason; the open segment's clock has advanced steadily and no discontinuity is hidden in it |
| HlsSegmenter.Segmenter.DecideOn | internal/adapters/recordinghttp/hls_segmenter.go:219-243 | tables, video, boundary and bounds, in this order |
| HlsSegmenter.Segmenter.ProcessPacket | internal/adapters/recordinghttp/hls_segmenter.go:185-243 | computes the step of the specification: next state, segment emitted, reason of a refusal; and keeps: segments are contiguous and numbered without gaps, start at an association table, last one to two seconds between the first clocks after their boundaries, and are flagged exactly if their first packet or a table change says so |
| HlsStep.PlayedJoins | internal/adapters/recordinghttp/hls_segmenter.go:185-243 | a run of packets goes on where the run before it ended, and stays ended where it failed |
| HlsStep.PlayedInFront | internal/adapters/recordinghttp/hls_segmenter.go:185-243 | what the front of a run emitted, and its failure, are those of the whole run |
| HlsStream.MoreIsAired | internal/adapters/recordinghttp/hls_segmenter.go:109-127 | more bytes only add segments; a failure is for good, with the segments and the reason it had |
| HlsStream.Writer.Write | internal/adapters/recordinghttp/hls_segmenter.go:109-127 | after any sequence of writes the segments published and the failure are a function of all bytes written, however they were chunked |
| HlsStream.Writer.Finish | internal/adapters/recordinghttp/hls_segmenter.go:129-156 | publishes nothing; its reason is a function of the bytes as well, and without one the input was whole packets, a boundary was found and no announced change waits for one |
| LivePlaylist.WindowAfterLeaving | internal/adapters/recordinghttp/hls_playlist.go:87-105 | the loop stops at a window from which nothing has to leave, within the maximum if segments are short enough |
| LivePlaylist.DefaultWindow | internal/adapters/recordinghttp/hls_playlist.go:71-111 | the default window is at most 60 s and at least 6 s once it has been |
| LivePlaylist.MediaPlaylist.Append | internal/adapters/recordinghttp/hls_playlist.go:71-111 | accepts exactly the next number with a valid duration; numbers are contiguous, the discontinuity sequence counts the discontinuities that left, and each segment that leaves is to stay for its duration plus its longest playlist |
| LivePlaylist.MediaPlaylist.Slide | internal/adapters/recordinghttp/hls_playlist.go:87-105 | who leaves, and with which retention |
| LivePlaylist.MediaPlaylist.NoteTotal | internal/adapters/recordinghttp/hls_playlist.go:106-110 | every listed segment knows the longest playlist that listed it |
| LivePlaylist.MediaPlaylist.Finish | internal/adapters/recordinghttp/hls_playlist.go:114-123 | what is still listed stays for its longest playlist |
| LiveSession.EmitKeeps | internal/adapters/recordinghttp/hls_session.go:392-434 | an append takes no segment's time away |
| LiveSession.Session.ScheduleRetention | internal/adapters/recordinghttp/hls_session.go:668-691 | a deadline is only ever replaced by a later one, under a new version |
| LiveSession.Session.RetireSegment | internal/adapters/recordinghttp/hls_session.go:693-711 | a segment goes only when section 6.2.2 of RFC 8216 lets it go, however late timers fire; a stale timer retires nothing |
| LiveSession.Session.Emit | internal/adapters/recordinghttp/hls_session.go:392-434 | a segment that leaves the window leaves it now, times noted before stay, and: no segment has gone before its duration plus its longest playlist since it left the window |
| LiveSession.Session.Finish | internal/adapters/recordinghttp/hls_session.go:436-464 | the end is now, once: what is still listed stays for its longest playlist from here |
| LiveSession.Session.ListedDoNotGo | internal/adapters/recordinghttp/hls_session.go:668-711 | a segment in the window of a running session may not go |
| LiveSession.Session.RenderPlaylist | internal/adapters/recordinghttp/hls_session.go:570-592 | shown exactly with three segments or more that are all still there; a finished one keeps them for its length |
| LiveCache.Cache.Begin | internal/adapters/recordinghttp/hls_cache_unix.go:126-151 | a generation starts empty, once |
| LiveCache.Cache.Create | internal/adapters/recordinghttp/hls_cache_unix.go:154-183 | a partial file exists afterwards, with nothing held or reserved, exactly if the generation is open, has no file of that number and the file system creates one |
| LiveCache.Cache.Reserve | internal/adapters/recordinghttp/hls_cache_unix.go:186-212 | bytes are reserved exactly if segment, session and total stay within their limits |
| LiveCache.Cache.Land | internal/adapters/recordinghttp/hls_cache_unix.go:214-219 | written bytes move from reserved to held, and no count changes |
| LiveCache.Cache.Release | internal/adapters/recordinghttp/hls_cache_unix.go:220-225 | an unused reservation is given back |
| LiveCache.Cache.Publish | internal/adapters/recordinghttp/hls_cache_unix.go:238-286 | a non-empty partial file becomes a segment of the same size, and every other segment stays as it was |
| LiveCache.Cache.Discard | internal/adapters/recordinghttp/hls_cache_unix.go:307-341 | a discarded file's bytes come back exactly once |
| LiveCache.Cache.Open | internal/adapters/recordinghttp/hls_cache_unix.go:344-368 | a reader is counted exactly on a segment that is not retired |
| LiveCache.Cache.Retire | internal/adapters/recordinghttp/hls_cache_unix.go:371-387 | a segment with readers stays; one without goes |
| LiveCache.Cache.CloseReader | internal/adapters/recordinghttp/hls_cache_unix.go:475-496 | only the last reader of a retired segment takes it away |
| LiveCache.Cache.RemoveSegment | internal/adapters/recordinghttp/hls_cache_unix.go:498-511 | its bytes leave generation and total, once |
| LiveCache.Cache.RemoveEmptyGeneration | internal/adapters/recordinghttp/hls_cache_unix.go:513-537 | a closed and empty generation goes |
| LiveCache.Cache.Close | internal/adapters/recordinghttp/hls_cache_unix.go:390-412 | no new segments from now on |
| CatalogRetention.ThreeNewest | internal/adapters/sqlite/catalog_retention.go:114-146 | three generations newer than an outdated one are the newest three of its backend |
| CatalogRetention.OutdatedIsStable | internal/adapters/sqlite/catalog_retention.go:114-221 | deleting outdated generations does not change which ones are outdated |
| CatalogRetention.EligibilityIsStable | internal/adapters/sqlite/catalog_retention.go:222-263 | deleting revisions does not change whose revisions may go |
| CatalogRetention.BatchRemains | internal/adapters/sqlite/catalog_retention.go:23-112 | after a part of a stage's set is deleted, the stage's set is the rest of it, and earlier stages stay empty |
| CatalogRetention.BatchKeepsGoal | internal/adapters/sqlite/catalog_retention.go:23-112 | a batch of any size leaves the result of deleting every stage's whole set in order as it was |
| CatalogRetention.NothingLeft | internal/adapters/sqlite/catalog_retention.go:23-112 | when no stage has rows, that result is reached |
| CatalogRetention.BatchKeepsReferences | internal/adapters/sqlite/catalog_retention.go:114-315 | no row is left that refers to a deleted one |
| CatalogRetention.BatchKeepsCurrent | internal/adapters/sqlite/catalog_retention.go:114-315 | the three newest completed generations of each backend and all running ones keep their rows and their observations |
| CatalogRetention.CurrentKeepsItsProgrammes | internal/adapters/sqlite/catalog_retention.go:114-295 | and every programme instance, revision and service that such a programme observation refers to |
| CatalogRetention.CurrentKeepsItsServices | internal/adapters/sqlite/catalog_retention.go:114-295 | and every service that such a service observation refers to |
| CatalogRetention.NewestAreCurrent | internal/adapters/sqlite/catalog_retention.go:114-180 | a generation with fewer than three newer ones is current |
| CatalogRetention.ReservationsKeepTheirRows | internal/adapters/sqlite/catalog_retention.go:222-295 | what a reservation refers to survives |
| CatalogGc.TakeRows | internal/adapters/sqlite/catalog_retention.go:92-102 | as many rows of a set as a batch may take |
| CatalogGc.Store.PruneBatch | internal/adapters/sqlite/catalog_retention.go:23-112 | the first stage that has rows loses between one and a thousand of them, and the counts say which; an error reports no batch, whether or not it was committed |
| CatalogGc.BatchSizes | internal/app/cataloggc/runner.go:141-164 | the tables shrink by exactly the counted rows |
| CatalogGc.Store.Run | internal/app/cataloggc/runner.go:68-139 | it ends; a completed run has reached the staged result, and any run, stopped or failed at any point, has kept goal, references and current generations; the counters are exactly the rows that are gone, but for one batch whose commit failed after it took effect |
| SchedulerTrace.NeverTooMany | internal/app/recording/scheduler.go:144-308 | at every moment the registered recordings are active ones and the active ones are at most the maximum |
| SchedulerTrace.EveryMoment | internal/app/recording/scheduler.go:144-308 | what holds of a trace holds at every point of it |
| SchedulerTrace.ConsumedOnce | internal/app/recording/scheduler.go:144-308 | no completion is consumed twice |
| SchedulerTrace.SettledOnce | internal/app/recording/scheduler.go:254-306 | a reservation is begun or missed at most once, never both |
| SchedulerTrace.PowerOnlyWhenIdle | internal/app/recording/scheduler.go:311-365 | a power action has no recording active, the only mode that recordings asked for since the last evaluation, no start within ten minutes, and a wake-up five minutes before the next one |
| SchedulerTrace.ModesWereReported | internal/app/recording/scheduler.go:326-336 | every mode counted was reported by a recording that ended well after the last evaluation |
| Scheduler.StopRegistry.Register | internal/app/recording/stop_registry.go:23-38 | refuses exactly the zero ID, a registered ID and a full registry |
| Scheduler.StopRegistry.Unregister | internal/app/recording/stop_registry.go:33-37 | takes this entry away and no other |
| Scheduler.AddStands | internal/app/recording/scheduler.go:326-336 | the candidate stands for the set of modes it was given |
| Scheduler.Scheduler.Return | internal/app/recording/scheduler.go:301-306 | a recording that returns takes its registration away before it offers its completion |
| Scheduler.Scheduler.NotifyStop | internal/app/recording/scheduler.go:125-129 | cancels that reservation's running recording and no other |
| Scheduler.Scheduler.Receive | internal/app/recording/scheduler.go:154-163 | a completion is taken once, and the count goes down by one |
| Scheduler.Scheduler.StopExecutions | internal/app/recording/scheduler.go:384-394 | every recording begun is cancelled and collected; the error is the cause given, else the first failure |
| Scheduler.Scheduler.EvaluatePower | internal/app/recording/scheduler.go:311-365 | the outcome returned is the one recorded, an evaluation that is allowed, and the candidate starts over |
| Scheduler.Scheduler.Miss | internal/app/recording/scheduler.go:260-285 | a miss is too late, or finds all slots taken |
| Scheduler.Scheduler.RoomToRegister | internal/app/recording/scheduler.go:287-299 | below the maximum the registration of a claimed reservation cannot be refused |
| Scheduler.Scheduler.Begin | internal/app/recording/scheduler.go:287-306 | a claimed recording is registered with its own cancel function and counted |
| Scheduler.Scheduler.Attend | internal/app/recording/scheduler.go:254-307 | a reservation whose start has come is settled, unless the store no longer has it or the loop ends |
| Scheduler.Scheduler.Turn | internal/app/recording/scheduler.go:153-307 | one turn, with recordings ending and users stopping in between at any point |
| Scheduler.Scheduler.Run | internal/app/recording/scheduler.go:144-308 | for any interleaving: the trace is lawful, and it returns only when everything begun was collected and nothing is registered; without an error no recording failed |

## Left out

- RecordingTransactions.Store.Finish: the store's own order is promised only for finishes that do not take back a settled publication, because the store accepts the others too (see above).
- ComponentFilter.Filter.ProcessPacket: nothing is promised about malformed packets, about packets of a PID that was announced as a programme map or lost its stream, or about PAT packets with a transport error; the filter drops or passes these by design.
- HlsSegmenter.Segmenter.ProcessPacket: what the callback answers to a segment is a fixed function of the segment, chosen freely; that a boundary must be found in a given stream is not claimed.
- Publication.Site.Inspect: an unsafe directory and a name that is no regular file are not represented; the program treats both as a mismatch.
- Scheduler.Scheduler.Run: the store's, the clock's and the executor's answers are arbitrary; that a started recording returns after its context was cancelled is taken from the executor.
- Scheduler.Scheduler.Attend: settling at most once rests on the store's guard of one attempt per reservation, which RecordingStore proves; the scheduler sees it as an answer.
- CatalogGc.TakeRows: which rows of a stage a batch takes (the oldest first) is not modelled; the results hold for any choice.
- Publication.Site.Publish: the retry after a cancelled context (executor.go:443-454) is the store's own choice between the plan and a stop, as in RecordingTransactions.SettlePlan.
- LiveCache.Cache.Publish: the identity and link count checks on the file, and the reading back after a rename, are an outside answer.
- TsFraming.Framer.Write: an error of the emit callback, which empties the buffer, is not modelled.
- FuzzyText.NormalizeFuzzyText: text is a sequence of code points; how invalid UTF-8 is decoded is not modelled.
- Mpegts.PacketizeSection: packets are values, not one shared array.
- PSI collectors after an error, and `FeedUntil`'s early stop: the callers reset or fail.
- Power loss and fsync: a rename that is undone after it was recorded is deliberately a mismatch for recovery; directory syncs are steps that may fail but change nothing.
- Real file metadata: owners, modes, links, symbolic links and locks.
- The exclusive temporary name of a restore manifest (restore.go:551-553), the copying of backups, their verification before a recovery, and SHA-256 itself.
- SQL: each query is the set it selects, each update the row it writes. Schema constraints that the protocols rely on are part of the model, migrations and pragmas are not.
- Quality: the framer's counters are modelled, the other counters, their validation and the PID tracker are not; they do not decide what is written.
- Reservation fields that play no part in claims and times: programme text, priorities, folders, templates, the mapping of reservation numbers.
- Path naming: names are distinct tokens, and that a claim's names are distinct is a check of the claim.
- Playlist text, session keys, timeouts and slots, and how sessions are started and stopped.
- HTTP, CtrlCmd and WebUI handlers, Mirakurun's client, regular expressions and genre or date matching, templates, the relay table: single checks and plumbing.
