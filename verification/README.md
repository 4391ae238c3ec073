# Dessau: a model of its stateful protocols

This project models the parts of the Dessau server that keep state across
steps, and proves what each of them promises over every run.

- **Model store** (`ModelStore*.dfy`, `ModelFolder.dfy`): one model's folders
  during an update. The new version is fetched beside the served one and
  swapped in by renames; the old one is held aside until the new one has
  loaded; a start repairs what a crash left. Every operation on disk meets a
  fate from a script (it works, fails, tears, the process dies after it, other
  goroutines act before it), so a statement about all scripts covers every
  failure, crash point and interleaving with load reports.
- **Claims** (`DownloadClaims.dfy`, `DownloadRecords.dfy`,
  `DownloadProgress.dfy`, `DownloadTable.dfy`):
  who may touch a model's folder, and what its record says meanwhile. Downloads,
  updates, restores, deletes, cancels, loads and Close of any number of
  goroutines, interleaved at every hold of a lock and every write of a record,
  which may fail.
- **Stream assembly** (`JsonText.dfy`, `Stream*.dfy`): the chunks of a streamed
  completion folded into the object an unstreamed one would have been, within a
  byte budget. `StreamRoundTrip` reads a stream a second way, with no state, as
  the independent definition the fold is compared with.
- **Context probe** (`ContextProbe.dfy`, `ProbeQueue.dfy`, `ProbeJob.dfy`): a
  doubling sweep and a bisection that may be paused anywhere, and the queue of
  models asked for by hand.
- **Bonjour** (`BonjourRefresh.dfy`, `BonjourLoop.dfy`): the refresh loop, its
  responders, Start and Stop.
- **Rotating log** (`RotatingLog.dfy`): numbered files shifted by renames.
- **Kernels**: the served window against the memory charge
  (`ServedWindow.dfy`), the connection caps (`ConnectionCap.dfy`), the log
  limiter (`LogLimiter.dfy`), the settings sanitizers against the validators
  (`Settings.dfy`, `Fingerprint.dfy`, `SettingsFile.dfy`).

Where the source changes state step by step there are two forms: a function
from state to state that the theorems are about, and a class whose methods
change fields in place and are each proved to compute that function.

Where the stronger claim one might expect is not what the code does, a lemma
gives the exact condition or a run that shows it: a restore cut short between
its two renames (`ARestoreCutShort`, `ARestoreCanLoseTheFallback`), a second
update whose leftover overtakes the held version
(`ACrashKeepsTheFallbackExactly`, `ASecondUpdateCanLoseTheFallback`), a delete
with copies aside that are not held (`ADeleteIsFinalExactly`), a record that
says downloading with nothing in flight (`AnOrphanedRecordExactly`,
`NeverOrphanedExactly`), a cancel that crosses a start (`LiveSaysSoExactly`,
`ACancelCanFailALiveDownload`), a model asked for again while queued
(`AskingAgainChangesNothing`), a Start during a Stop's wait and a second Stop
(`AStartDuringAStopOverlaps`, `OneLiveResponderExactly`,
`ASecondStopReturnsAtOnce`), the parts of a choice the budget does not count
(`IndexAndFinishAreNotCounted`), the two ends of 64-bit arithmetic
(`FlatChargeIsRightExactly`, `TheLargestBudgetTakesAnything`), and an update
whose version is refused in the folder and cannot be moved back out
(`AnUpdateRestsExactly`, `AStrandedVersionIsHeldNext`).

## Model

| member | source | states |
|---|---|---|
| ModelStoreSafety.ACompleteCopySurvives | internal/app/staged.go:440-1012 | over every run of updates, restores, load reports, failed or partial operations, crashes between any two operations (recovery's own too) and restarts, a model that was complete has a complete copy in place or aside until it is deleted |
| ModelStoreSafety.TheFallbackIsNeverTheLastCopy | internal/app/staged.go:440-1012 | in every such run the copy held as the fallback, and those on their way out, are never the only complete copies of a model still wanted |
| ModelStoreSafety.RunInv | internal/app/staged.go:440-1012 | the invariant behind both, for every sequence of events and every script of fates |
| ModelStoreSafety.StepInv | internal/app/staged.go:440-1012 | each event keeps it: an update, a load that answers or fails, a crash, a start, a delete |
| ModelStoreSafety.SwapInInv | internal/app/staged.go:440-573 | a swap, stopped or failing at any of its operations, keeps it |
| ModelStoreSafety.RestoreInv | internal/app/staged.go:663-755 | putting the fallback back keeps it, whatever fails half way |
| ModelStoreSafety.RecoverInv | internal/app/staged.go:854-1012 | a start keeps it, whatever order the staging folder is listed in, even when it crashes inside |
| ModelStoreExact.RecoverIsRecovered | internal/app/staged.go:854-1012 | with every operation working, a start leaves the folder that stood there or else the newest copy aside; keeps every copy aside while that is incomplete; otherwise keeps only the newest complete one, held, and only if nothing was put back |
| ModelStoreExact.RecoverTwiceIsOnce | internal/app/staged.go:854-1012 | a second start, after a crash or not, changes nothing |
| ModelStoreExact.AStartLeavesTheModelInPlace | internal/app/staged.go:895-1012 | when the first operation of a start, its rename if it makes one, does not fail, whatever becomes of every later one, it leaves in place the folder that stood there or else the newest copy aside |
| ModelStoreInPlace.AFolderThatStandsIsComplete | internal/app/staged.go:440-1012 | over every run of updates, restores, load reports, failures and crashes in which no start's rename fails, a folder that stands is complete, and when none stands the newest copy aside is, until the model is deleted |
| ModelStoreInPlace.AStartLeavesItComplete | internal/app/staged.go:854-1012 | after every such run, a start whose rename works leaves a complete folder in place, whatever else of it fails or crashes |
| ModelStoreInPlace.StepFit | internal/app/staged.go:440-1012 | each event keeps the invariant behind both: what stands, the newest copy aside when nothing stands, and the copy held are complete |
| ModelStoreInPlace.SwapInFit | internal/app/staged.go:440-573 | a swap stopped or failing anywhere keeps it |
| ModelStoreFallback.ASwapEndsByItsFaults | internal/app/staged.go:440-573 | a swap of a folder that stands, in a process that lives on, ends in exactly one of four ways, said by which of its operations fail: done, all as it was, the folder missing with the old version aside, or the new version stranded in the folder |
| ModelStoreFallback.OneFaultNeverSplitsASwap | internal/app/staged.go:440-573 | a swap that meets at most one fault either moves the new version in and the old one aside, or leaves every folder as it was; with none it always moves them |
| ModelStoreFallback.AnAwayFolderIsPutBack | internal/app/staged.go:496-519 | a swap that finds no folder puts the newest copy aside back exactly when the server has stopped and its rename works, changes nothing otherwise, and gives up |
| ModelStoreFallback.AnUpdateEndsByItsFaults | internal/app/app.go:1787-1812 | an update of a folder that stands, whatever faults it meets, ends in one of the same four ways, said by which of its operations fail; with at most one fault it publishes or changes nothing but what is staged, and with none it publishes |
| ModelStoreFallback.AnUpdateRestsExactly | internal/app/app.go:1787-1812 | an update keeps the version to fall back on and its record if and only if it does not strand its version: the check in the folder refuses and the version then cannot be moved back out |
| ModelStoreFallback.TheFallbackPrecedesTheFirstUpdate | internal/app/app.go:1787-1812 | over any run of updates none of which has loaded, with failed loads between and any faults, the store keeps the version that preceded the first of them, with its record's version, throughout if and only if no attempt strands its version |
| ModelStoreFallback.TheFallbackIsThatVersion | internal/app/app.go:1787-1797 | in such a store the copy held is that version under that record, and beside a folder that stands no other copy aside stays |
| ModelStoreFallback.AStrandedVersionIsHeldNext | internal/app/app.go:1787-1797 | after an update strands its version with nothing held, the next update that works holds the refused version under the record of the one before it |
| ModelStoreFallback.TheStrandingScriptStrands | internal/app/staged.go:563-572 | a script that does so: the check in the folder fails and so does the rename back out |
| ModelStoreFallback.AFailedLoadPutsItBack | internal/app/staged.go:663-755 | a failed first load, whatever faults its restore meets, puts back exactly that version under its own record when the swap is done and holds it as before otherwise, and keeps it if and only if the restore does not strand it in the folder |
| ModelStoreFallback.ALoadLetsItGo | internal/app/contextprobe.go:249-275 | a load that answered lets it go, whatever the operations around it meet, and leaves no other copy aside; the version that answered is the one to fall back on next |
| ModelStoreLimits.ARestoreCutShort | internal/app/staged.go:663-755 | a restore from any store at rest, whatever it meets, that the process does not outlive keeps the version last known to serve, through a next start that works, if and only if something stands in the model's folder when the process ends and that version is there or the newest aside; with nothing in the folder the version that failed is put back; with no newer copy still to be removed a folder that stands is enough |
| ModelStoreLimits.ACrashKeepsTheFallbackExactly | internal/app/staged.go:895-958 | the same of a process that ends with no restore under way |
| ModelStoreLimits.ASecondUpdateCanLoseTheFallback | internal/app/app.go:1787-1803 | a run without a fault in which it is lost: two updates before a load, and the process ends before the version between has been removed; the start keeps that one, the newer, and clears the version last known to serve |
| ModelStoreLimits.ARestoreCanLoseTheFallback | internal/app/staged.go:440-573 | that moment exists: a crash between a restore's two renames leaves the folder missing |
| ModelStoreLimits.ADeleteIsFinalExactly | internal/app/app.go:1974-2035 | when the delete's operations work, whatever load reports and clean-ups come meanwhile, and the next start can rename, whatever else of it fails or crashes, the model stays deleted if and only if every copy aside went with it: the one held, unless a report let it go first, and those a clean-up had removed by then; with none under way, if and only if no copy stood aside but the held one |
| ModelStoreLimits.ARefusedDeleteKeepsAll | internal/app/app.go:2014-2024 | a delete that is refused because a request is in flight keeps the folder, the record, the staged version, the copy held, every copy not already on its way out, and the model itself |
| ModelStoreLimits.ADeleteThatStopsKeepsTheFallback | internal/app/app.go:2025-2033 | one whose folder cannot be removed has forgotten the record and keeps the folder and the copy held; one that is removed in part leaves it torn and the copy held |
| ModelStoreLimits.DeleteLeaves | internal/app/app.go:1974-2035 | one whose operations work leaves no folder, no record and nothing held, and aside exactly the copies that neither it nor a clean-up removed |
| ModelFolder.NewestAside | internal/app/staged.go:586-619 | of the copies aside the one with the greatest attempt, in whatever order they are listed |
| ModelFolder.Folder.SwapIn | internal/app/staged.go:440-573 | the swap, changing the folders in place, is the swap the theorems are about |
| ModelFolder.Folder.SwapInStopped | internal/app/staged.go:475-540 | the same from the moment the old server is stopped: move aside, move in, and each way back |
| ModelFolder.Folder.SwapInRest | internal/app/staged.go:505-573 | the same while the old version is aside, with the check in place and its undo |
| ModelFolder.Folder.Update | internal/app/app.go:1656-1812 | a staged download and its publication, changing the folders and the process's fallback in place |
| ModelFolder.Folder.Restore | internal/app/staged.go:663-755 | putting the held version back, or holding it again when that fails |
| ModelFolder.Folder.PutBackAside | internal/app/staged.go:963-1012 | going through the copies aside newest first, moving in the first that can be |
| ModelFolder.Folder.Clear | internal/app/staged.go:895-958 | going through the staging folder's entries, removing, keeping or holding each |
| ModelFolder.Folder.Recover | internal/app/staged.go:854-874 | a start: put back, then clear |
| ModelFolder.Folder.Delete | internal/app/app.go:1974-2035 | a delete in place: refused, stopped or done as those three say |
| DownloadClaims.AFolderHasOneToucher | internal/app/app.go:1562-1621 | in every interleaving, whoever writes or renames a model's folder is the only download, update or restore registered for it, no delete is removing it, and when a swap renames it no model server is resident on it nor has a load got past both marks |
| DownloadClaims.ADeleteIsAlone | internal/app/app.go:1992-2027 | a delete that removes a folder is the only one of the model, no claim is registered for it and no server is resident on it |
| DownloadClaims.TheMarkHasAClaim | internal/app/staged.go:441-473 | the swapping mark stands for a model if and only if a registered claim on it is swapping |
| DownloadClaims.EveryClaimClosesOnce | internal/app/app.go:1604-1661 | every claim closes its channel and releases its slot exactly once, and the wait group counts the live claims |
| DownloadClaims.DeregisteringTwiceIsOnce | internal/app/app.go:1916-1925 | a repeated deregistration changes nothing, least of all a newer claim's |
| DownloadClaims.AClaimIsNamedUntilItEnds | internal/app/app.go:1597-1621 | a claim is in the map from its registration until it ends, and no longer |
| DownloadRecords.AnOrphanedRecordExactly | internal/app/app.go:1606-1651 | over every run, a record says downloading with nothing in flight if and only if the last action to write it was the first write of a download that could not save it: no later first write, publication, cancel or delete has come |
| DownloadRecords.NeverOrphanedExactly | internal/registry/registry.go:719-751 | no record does so, at any point of a run and however the claims there end, if and only if every first write of the run could be saved |
| DownloadRecords.LiveSaysSoExactly | internal/app/app.go:1939-1959 | a first download past its first write is recorded as downloading, at every point of a run and however the cancels there end, if and only if every first write finds no CancelDownload of its model under way |
| DownloadRecords.StartingAfterCancellingIsSafe | internal/app/app.go:1939-1959 | a caller that lets every CancelDownload of a model end before it starts a download of it meets that condition, whatever the interleaving |
| DownloadRecords.PublishedIsDeregistered | internal/app/app.go:1902-1925 | where every first write is saved and finds no cancel under way, a record says downloading exactly while a first download that has written so is in flight: its final state and the deregistration are one step to any observer |
| DownloadRecords.ReadyIsNotInFlight | internal/app/app.go:1902-1925 | over every run, whatever is not saved and whatever cancels cross it, a model whose record says ready has no first download in flight, so whoever sees one finish is not refused the next |
| DownloadRecords.AFailedWriteOrphans | internal/app/app.go:1606-1651 | a run that orphans a record, from any state in which a model that is not ready may start: the write fails and the start returns |
| DownloadRecords.ACancelCanFailALiveDownload | internal/app/app.go:1947-1959 | a run that marks a download in flight as failed, from any such state: a cancel looks before the start and writes after its first write |
| DownloadRecords.ACancelClearsAnOrphan | internal/app/app.go:1939-1959 | a cancel that nothing crosses records an orphan as failed, and the model may be fetched again |
| DownloadRecords.AStartFailsTheInterrupted | internal/registry/registry.go:773-813 | a start records every download it finds interrupted as failed and leaves every other record as it was |
| DownloadProgress.ALoadLaunchesExactly | internal/app/app.go:1473-1492 | a load launches its model's server exactly when neither mark stands for it, and changes nothing else |
| DownloadProgress.ADeleteBegins | internal/app/app.go:1992-2003 | a delete marks the model and remembers the download in flight; a second is refused |
| DownloadProgress.ADeleteCanEnd | internal/app/app.go:2010-2035 | a delete whose download has stopped ends by its own steps with no server, no record and no mark left, and goes on to the folder exactly when there was a record and the index was saved without it |
| DownloadProgress.ARefusedDeleteLetsGo | internal/app/app.go:2014-2024 | one the pool refuses lifts its mark and keeps the record |
| DownloadProgress.ACancelEnds | internal/app/app.go:1947-1959 | a cancel past its look ends in two steps and writes only over a record that says downloading |
| DownloadProgress.ACancelRevivesNothing | internal/registry/registry.go:754-771 | a cancel gives no record to a model that has none, whatever went between its read and its write |
| DownloadProgress.AnUpdateCanSwap | internal/app/app.go:1753-1812 | an update that nothing refuses stops the server, swaps its version in and publishes it ready, with the mark and the claim gone in the same step |
| DownloadProgress.CloseReturnsExactly | internal/app/app.go:2041-2056 | Close refuses every later claim and its wait returns exactly when no claim holds a slot |
| DownloadClaims.EveryClaimCanEnd | internal/app/app.go:1604-1661 | from everywhere a claim can be, and whether or not its first write is saved, its own moves alone deregister it, close its channel and release its slot: neither Delete nor Close waits on anything else |
| DownloadClaims.AfterCloseNothingRuns | internal/app/app.go:2041-2056 | once Close's wait returns no claim is live and none can register |
| DownloadClaims.RunInv | internal/app/app.go:1562-2078 | the invariant behind these, kept by every action of every goroutine |
| DownloadTable.Table.Start | internal/app/app.go:1580-1604 | claims a model, or says it is shutting down, being deleted or already downloading, in that order, and changes nothing then |
| DownloadTable.Table.MarkSwapping | internal/app/staged.go:441-443 | sets the mark under the claim |
| DownloadTable.Table.EndSwap | internal/app/staged.go:444-448 | lifts it when a swap gives up |
| DownloadTable.Table.FinishDownload | internal/app/app.go:1916-1925 | publishes ready or failed, or nothing for a write that was not saved, and deregisters this claim only, in one step |
| DownloadTable.Table.ReadPrior | internal/app/app.go:1623-1640 | a download of a model recorded ready is an update beside it, any other a first download into its folder |
| DownloadTable.Table.PutDownloading | internal/registry/registry.go:719-751 | the record says downloading whether or not the index could be saved, and the answer tells which |
| DownloadTable.Table.HandOver | internal/app/app.go:1612-1653 | hands the claim on if the model is ready or its record could be saved, and otherwise returns with the record saying downloading all the same |
| DownloadTable.Table.LookToCancel | internal/app/app.go:1947-1954 | a download in flight is told to stop; otherwise the cancel goes on to the record |
| DownloadTable.Table.ReadToCancel | internal/app/app.go:1955 | goes on only if the record, read outside the lock, says downloading |
| DownloadTable.Table.WriteToCancel | internal/app/app.go:1956 | records the model as failed, whatever has come between |
| DownloadTable.Table.Unlist | internal/registry/registry.go:861-893 | the record goes whether or not the index could be saved, the folder only if it could |
| DownloadTable.Table.CloseDownload | internal/app/app.go:1654-1656 | closes the channel |
| DownloadTable.Table.Release | internal/app/app.go:1654-1655 | releases the slot, after it |
| DownloadTable.Table.Leave | internal/app/app.go:1654-1656 | the two in a row when nothing comes between |
| DownloadTable.Table.BeginDelete | internal/app/app.go:1992-2003 | claims the model for deletion and reads the download in flight in the same hold |
| DownloadTable.Table.Resolve | internal/app/app.go:1473-1492 | a load asks both marks and launches only when neither stands |
| DownloadTable.Table.Close | internal/app/app.go:2041-2056 | refuses every claim from then on |
| JsonText.JoinedInsidesDecode | internal/gateway/assemble.go:477-487 | joining the insides of two JSON string literals decodes to one decoding after the other, in UTF-16 code units |
| JsonText.ConcatDecodes | internal/gateway/assemble.go:477-487 | the same for any number of them |
| JsonText.LoneSurrogateEscape | internal/gateway/generation_refusal.go:145-178 | the index-skipping scan is true exactly when some escaped surrogate stands outside an adjacent high-low pair of escapes |
| JsonText.EscapesPairLikeUnits | internal/gateway/generation_refusal.go:145-178 | of a string's inside, the escapes pair up exactly when the units of its decoding do |
| JsonText.LoneMeansIllFormed | internal/gateway/generation_refusal.go:145-178 | of a valid string literal, the scan is true exactly when the text it stands for is not well-formed UTF-16 |
| JsonText.EscapingIsUndone | internal/gateway/assemble.go:477-487 | any code units written as four-digit escapes decode to themselves, and the scan reads the same of them |
| JsonText.ACharacterStandsForItself | internal/gateway/assemble.go:477-487 | any other character but a control, a quote or a backslash decodes to its UTF-16 units |
| StreamRoundTrip.JoinAllGathers | internal/gateway/assemble.go:382-398 | folding text fields one by one leaves each key once, in order of first appearance, with all its text joined in order |
| StreamRoundTrip.SettleAllSettles | internal/gateway/assemble.go:496-514 | setting fields one by one leaves each key once, in order of first appearance, with its last value |
| StreamRoundTrip.CallsLoseTheirIndex | internal/gateway/assemble.go:365-381 | each tool call of a chunk is kept in its place with all its fields in order but the streaming index |
| StreamRoundTrip.NoCallKeepsItsIndex | internal/gateway/assemble.go:365-381 | no call of any message of a stream keeps its index |
| StreamRoundTrip.AddDeltaGrows | internal/gateway/assemble.go:346-402 | the deltas of a message fold to its first role, its joined texts, its tool calls in order without their streaming index, and its other fields' last values |
| StreamRoundTrip.AddFieldsGrows | internal/gateway/assemble.go:292-343 | a choice's fields fold to its last finish reason, its joined text, its message and its other fields' last values |
| StreamRoundTrip.AddChoicesReads | internal/gateway/assemble.go:292-343 | the choices of a stream fold to one for each index, in order of first appearance, each made of its own fields only |
| StreamAnswer.RenderedInOrder | internal/gateway/assemble.go:440-475 | a message is written with role, content, reasoning and tool calls in that order and then its further fields, each once |
| StreamAnswer.AssembleReads | internal/gateway/assemble.go:123-148 | reading to the end of the stream folds the choices of all its events, the first frame and the last counts |
| StreamAnswer.AnsweredExactly | internal/gateway/assemble.go:123-278 | a stream is answered if and only if it reaches its [DONE] with nothing in it but completion events and at least one choice among them |
| StreamAnswer.AssemblingUndoesChunking | internal/gateway/assemble.go:123-475 | for every answer and every chunking of it, the assembled object is that answer with its fields in order |
| StreamChunking.TextMayBeCutAnywhere | internal/gateway/assemble.go:346-402 | text cut anywhere into two chunks, with comments between, wherever in the stream, is assembled or refused alike |
| StreamChunking.ChoicesMayBeInterleaved | internal/gateway/assemble.go:292-343 | chunks of two choices that have appeared may come in either order |
| StreamChunking.NoAnswerWithoutDone | internal/gateway/assemble.go:123-148 | a stream that ends, fails or is cut before its [DONE] gives no answer |
| StreamChunking.NothingAfterDoneIsRead | internal/gateway/assemble.go:123-148 | what follows the [DONE] changes nothing |
| StreamChunking.AnEventIsACompletionExactly | internal/gateway/assemble.go:222-256 | an event is folded in exactly when it carries no error and the last of its choices fields is a list or null |
| StreamChunking.AnErrorIsNoAnswer | internal/gateway/assemble.go:222-256 | any other event before the end of a stream leaves it without an answer |
| StreamChunking.TheLastCountsStand | internal/gateway/assemble.go:236-243 | an answer's counts are the last that any event of its stream gave |
| StreamChunking.OnlyTheSuffixGoes | internal/gateway/assemble.go:280-290 | the object type loses its .chunk and nothing else, and every other field of the frame stands as it came |
| StreamChunking.AnswersTextMeansItsChunks | internal/gateway/assemble.go:477-494 | the text an answer carries decodes to its chunks' texts, end to end |
| StreamOneShot.EveryAnswerHasAChunking | internal/gateway/assemble.go:17-48 | every answer the server writes has a chunking: the one made of a single chunk, each of its tool calls with the index the streaming formatter adds, and its counts |
| StreamOneShot.WrittenChunkedAndAssembled | internal/gateway/assemble.go:123-475 | chunked that way, every such answer is assembled into its own object again |
| StreamBudget.EventKeeps | internal/gateway/assemble.go:213-278 | no event adds more to what is kept than it adds to what is held |
| StreamBudget.StreamKeeps | internal/gateway/assemble.go:213-402 | over a whole stream, what is kept at its end was counted |
| StreamBudget.ChoicesKeep | internal/gateway/assemble.go:292-402 | the same for the choices of an event, through every overwrite and append |
| StreamBudget.SetKeeps | internal/gateway/assemble.go:496-514 | overwriting a field counts at least what it grew |
| StreamBudget.ADeltaFieldCostsItsGrowth | internal/gateway/assemble.go:346-402 | a field of a delta costs exactly what the message grew by: a role repeated in every chunk is counted once |
| StreamBudget.AFieldCostsItsGrowth | internal/gateway/assemble.go:292-343 | so does any other field of a choice |
| StreamBudget.AnEventCostsItsParts | internal/gateway/assemble.go:222-278 | an event costs its counts, its choices and, the first that has one, its frame |
| StreamBudget.AStreamCostsAtMostItsLength | internal/gateway/assemble.go:213-402 | a stream never costs more than its events are long, so one within the limit as written is not refused for its size |
| StreamBudget.LenIsWhatIsWritten | internal/gateway/assemble.go:561-577 | a value counts the characters it is written in |
| StreamBudget.IndexAndFinishAreNotCounted | internal/gateway/assemble.go:308-320 | for every number of bytes there is an answered stream of cost 0 that keeps that many of indices and as many of finish reasons |
| StreamAssembler.AssembleAnswer | internal/gateway/assemble.go:123-148 | an answer is given exactly when the unbounded fold gives one and the stream costs no more than the limit, and it is that one; a refusal for size means the cost passed the limit or an event was malformed |
| StreamAssembler.Assembler.Add | internal/gateway/assemble.go:222-278 | an event is folded in place as the function says, held grows by its cost, what is kept stays within what is held and held within the limit; a fault says which of the two failed |
| StreamAssembler.Assembler.AddChoice | internal/gateway/assemble.go:292-343 | a choice is found by its index, or added, and its fields folded into it |
| StreamAssembler.Assembler.AddDelta | internal/gateway/assemble.go:346-402 | a delta's fields are folded into the message |
| StreamAssembler.Assembler.AddDeltaField | internal/gateway/assemble.go:351-400 | one field of a delta: null skipped, the role once, tool calls, text joined, anything else set |
| StreamAssembler.Assembler.Set | internal/gateway/assemble.go:498-514 | the last value of a field, in place or at the end, counting what it grew |
| StreamAssembler.Assembler.Join | internal/gateway/assemble.go:386-398 | text appended to its key's, or a new key at the end |
| StreamAssembler.Assembler.AddCalls | internal/gateway/assemble.go:365-381 | tool calls kept in order, each without its streaming index and counted as it is kept |
| StreamAssembler.Assembler.Render | internal/gateway/assemble.go:410-438 | the object the rendering function gives |
| ContextProbe.AMeasurementIsTight | internal/contextprobe/probe.go:426-484 | a finished measurement holds a size accepted and either one refused with the bound and guard recorded for it, both when asked at the characters a token the calibration came to, or the untried ceiling as the served window, no further apart than max(1024, lo/8), and hi at most twice lo |
| ContextProbe.TheCeilingIs | internal/contextprobe/probe.go:381-388 | the ceiling is the greatest size within the declared window, the served one if any, and what is ever asked for |
| ContextProbe.ACalibrationIs | internal/contextprobe/probe.go:445-447 | the calibration is the prompt's characters a token, kept between one and sixteen |
| ContextProbe.TheLimitIsBetween | internal/contextprobe/probe.go:426-484 | for a server that accepts exactly the sizes up to a limit, the limit is at least lo and below hi, or hi is the ceiling; there is no measurement exactly when the floor is refused |
| ContextProbe.PausesChangeNothing | internal/contextprobe/probe.go:346-506 | however a measurement is broken up, it ends at the bounds, bound name and guard of one never interrupted |
| ContextProbe.AfterEndsTheSame | internal/contextprobe/probe.go:426-484 | stopping after any number of steps leaves marks that lead to the same end |
| ContextProbe.FinalIsSound | internal/contextprobe/probe.go:426-484 | every step keeps lo accepted and hi refused as recorded at the calibrated figure, or the untried ceiling |
| ContextProbe.AtMostThreeBisections | internal/contextprobe/probe.go:470-484 | once swept, at most three bisection steps follow |
| ContextProbe.AtMostThirteenRequests | internal/contextprobe/probe.go:382-484 | with a floor of 1024 or more, a measurement is at most thirteen requests |
| ProbeQueue.NothingNewWithinAGeneration | internal/contextprobe/probe.go:229-240 | while the generation stands, no model is in the queue that was not there when it was read |
| ProbeQueue.AHandRetryIsNotPruned | internal/contextprobe/probe.go:272-311 | a model queued after Due read the generation is not dropped for the candidates it read, whatever ran meanwhile |
| ProbeQueue.AQueuedModelIsPrunedExactly | internal/contextprobe/probe.go:296-311 | a queued model is dropped exactly when nothing was added meanwhile and the candidates leave it out or pin it |
| ProbeQueue.AskingAgainChangesNothing | internal/contextprobe/probe.go:229-240 | asking again for a model already queued does not protect it from those candidates |
| ProbeJob.Probe.MeasureNow | internal/contextprobe/probe.go:229-240 | queues a model once, moving the generation only then, and lifts its forgetting |
| ProbeJob.Probe.Cancel | internal/contextprobe/probe.go:249-257 | drops the model's marks and its place in the queue, and marks it forgotten and incomplete |
| ProbeJob.Probe.Judge | internal/contextprobe/probe.go:267-324 | prunes only under the generation read, then names the first queued model that may be measured, or with the switch on the first ready one never measured; and names none only when there is none |
| ProbeJob.Probe.Dequeue | internal/contextprobe/probe.go:525-535 | takes a model out of the queue, and nothing else |
| ProbeJob.Probe.Begin | internal/contextprobe/probe.go:359-388 | starts from the marks kept only if their provenance is the one in force, and otherwise afresh under it |
| ProbeJob.Probe.Sweep | internal/contextprobe/probe.go:449-467 | doubles up to a refusal or the ceiling; wherever it stops, the measurement's end is unchanged |
| ProbeJob.Probe.Bisect | internal/contextprobe/probe.go:470-484 | halves down to the tolerance; wherever it stops, the measurement's end is unchanged |
| ProbeJob.Probe.Walk | internal/contextprobe/probe.go:426-484 | one sitting, from the marks kept to the end or to whatever stopped it |
| ProbeJob.Probe.Run | internal/contextprobe/probe.go:346-523 | with settings moving at any request and a Cancel at any time, a figure is saved only when the provenance read at the end is that of its marks, and stamped with it; when it stood throughout, its window is the tokens the server counted at the largest size of an uninterrupted measurement and its bound and guard are that measurement's, and marks kept lead to the same figure; which ends keep marks, take the model out of the queue and mark it incomplete |
| ProbeJob.Probe.Sit | internal/contextprobe/probe.go:423-523 | one sitting from marks begun or taken up, with the Cancel that may come during it, to its end: the figure's window, bound and guard are its marks' own |
| ProbeJob.Probe.End | internal/contextprobe/probe.go:486-523 | what becomes of the marks, the queue, the figures and the incomplete mark, end by end |
| BonjourRefresh.OneLiveResponderEach | internal/discovery/discovery.go:383-504 | in every interleaving of ticks, deaths, failures and stops, each Start has at most one live responder, of the last registration made, carrying the text last published |
| BonjourRefresh.OneLiveResponderExactly | internal/discovery/discovery.go:197-240 | at most one responder is live at every point of a run, whatever follows it but another Start, if and only if every Start that takes effect finds no earlier loop with a responder live or about to start |
| BonjourRefresh.OneLiveResponder | internal/discovery/discovery.go:197-240 | with such Starts at most one responder is live in all |
| BonjourRefresh.StartingAfterStoppingIsSafe | internal/discovery/discovery.go:520-530 | a caller that starts again only once every Stop has returned never has two responders live, whatever the interleaving |
| BonjourRefresh.AStartThatFindsOneOverlaps | internal/discovery/discovery.go:197-240 | a Start that finds such a loop has a continuation with two responders live |
| BonjourRefresh.NothingOutlivesItsStop | internal/discovery/discovery.go:520-530 | when a Stop that had an advertisement to stop returns, no responder of it is live, then or ever after |
| BonjourRefresh.AResponderStartsAlone | internal/discovery/discovery.go:299-316 | a responder starts only when none of the loop's is live, for a registration never withdrawn, with the text just read |
| BonjourRefresh.AWithdrawnAdIsNeverServed | internal/discovery/discovery.go:330-361 | no step un-withdraws a registration or starts a responder for one that was withdrawn |
| BonjourRefresh.AWithdrawnAdIsGone | internal/discovery/discovery.go:330-361 | over every further run of its loop, no responder is started for a registration that was withdrawn |
| BonjourRefresh.BackMeansAnswering | internal/discovery/discovery.go:431-449 | the service is reported back only while its responder is up, after it was reported lost |
| BonjourRefresh.AChangedRecordIsAdvertised | internal/discovery/discovery.go:452-491 | from the tick that reads a record other than the one served, or that finds none served, the loop's own steps, with the goodbye heard and the publication working, reach a live responder whose registration carries it: the same registration when it was only lost, a new one for a changed record |
| BonjourRefresh.ATickMovesOn | internal/discovery/discovery.go:431-459 | a tick stands down for a changed record, goes to publish when nothing is served, and otherwise changes neither registrations nor responders |
| BonjourRefresh.ADeathIsReported | internal/discovery/discovery.go:415-429 | a responder that has gone is noticed, cancelled and reported once |
| BonjourRefresh.AFailedPublishIsReported | internal/discovery/discovery.go:476-484 | so is a record that could not be published, and the next tick tries again |
| BonjourRefresh.StandingDownWithdraws | internal/discovery/discovery.go:355-361 | standing down withdraws a registration whose responder is up and only cancels one whose responder has gone |
| BonjourRefresh.LoopStepKeeps | internal/discovery/discovery.go:383-504 | the loop's invariant: outages and recoveries are reported in turn, and what is said to be served is the text last read |
| BonjourRefresh.DoneIsFinal | internal/discovery/discovery.go:383-391 | a loop that has ended runs nothing again |
| BonjourRefresh.ACancelledLoopCanEnd | internal/discovery/discovery.go:520-530 | from everywhere, a cancelled loop ends within ten steps of its own and its responder's: no Stop waits for ever |
| BonjourRefresh.ACancelledLoopLeaves | internal/discovery/discovery.go:412-475 | a loop told to stop leaves at its next look and reports no outage for a responder that stopped too |
| BonjourRefresh.SameTextIsEquality | internal/discovery/discovery.go:507-517 | on records with no empty value, the comparison of texts is equality |
| BonjourRefresh.AStartDuringAStopOverlaps | internal/discovery/discovery.go:197-240 | a Start made while a Stop still waits leaves two responders live |
| BonjourRefresh.ASecondStopReturnsAtOnce | internal/discovery/discovery.go:520-530 | a second Stop returns while the first still waits, with a responder live |
| BonjourLoop.RefreshLoop.OnDeath | internal/discovery/discovery.go:415-429 | the arm that reads a responder's end, on the goroutine's own variables |
| BonjourLoop.RefreshLoop.OnTick | internal/discovery/discovery.go:431-459 | the timer's arm up to standing down: recovery reported, the record read, no churn without a change |
| BonjourLoop.RefreshLoop.OnStandDown | internal/discovery/discovery.go:355-361 | a second look at the responder: one that has gone is cancelled, one that has not is withdrawn |
| BonjourLoop.RefreshLoop.PutBack | internal/discovery/discovery.go:464-491 | serving the same registration again, or making another, or leaving the service down |
| BonjourLoop.RefreshLoop.Leave | internal/discovery/discovery.go:383-391 | the withdrawal on the way out |
| RotatingLog.AnyUse | internal/applog/rotate.go:196-273 | after any writes, failing rotations and restarts, the kept files read oldest to newest are the last records put through, whole, and each file is within the cap or is one record; when nothing fails the records fill files in order, each left only for a record that would not fit in it, and the kept ones are the newest: they are all of the records while there are no more files than names, or while all fits in one, and otherwise more than half the caps' worth |
| RotatingLog.AStoppedShiftKeepsTheOrder | internal/applog/rotate.go:241-273 | wherever the shift of names stops, the files read as before but for the oldest |
| RotatingLog.Rotator.Rotate | internal/applog/rotate.go:241-273 | a rotation works exactly when each of its operations does, and then shifts every name by exactly one and starts an empty file; one that stops anywhere has lost at most the oldest file |
| RotatingLog.MuchIsKept | internal/applog/rotate.go:213-273 | what the kept files hold of all those filled |
| RotatingLog.Rotator.Write | internal/applog/rotate.go:213-233 | a record that fits, or finds an empty file, is appended and nothing else moves; any other shifts every name by one and starts the file, exactly when all the rotation's operations work; a failed rotation loses at most the oldest file and puts the writer to sleep |
| RotatingLog.Rotator.Reopen | internal/applog/rotate.go:142-203 | a new writer over the same files continues them with the same guarantee |
| RotatingLog.AppendedAtTheEnd | internal/applog/rotate.go:213-233 | appending to the current file appends to what all the files read as |
| ServedWindow.TheDerivedWindowFits | internal/app/app.go:1295-1320 | the derived window's whole saturating charge is within the budget if and only if the floor's is; it is then the declared window or one token more would not fit, and otherwise it is the floor |
| ServedWindow.FitsExactly | internal/capability/capability.go:164-198 | a window's charge is within the budget exactly when the window is at most the room over the charge per token |
| ServedWindow.NeverWidens | internal/app/app.go:1295-1320 | raising the concurrency, the size or the charge per token never widens the window, and raising the budget never narrows it |
| ServedWindow.NothingToDerive | internal/app/app.go:1298-1315 | with no window declared or nothing known of the cache the declared window stands, and with no room it is the floor |
| ServedWindow.ChargeIs | internal/capability/capability.go:164-198 | the charge is the plain sum, stopped at the largest figure |
| ServedWindow.CacheOf | internal/capability/capability.go:164-191 | three figures saturate to the same product in whichever order they are multiplied |
| ServedWindow.FlatChargeIsRightExactly | internal/capability/capability.go:29-31 | the flat charge is 1.2 times the size exactly when that does not overflow, and is negative when it does |
| ServedWindow.TheLargestBudgetTakesAnything | internal/capability/capability.go:164-198 | under a budget of the largest 64-bit figure every window's charge passes, also one whose plain sum exceeds the budget |
| ConnectionCap.CountsAreTheLiveOnes | cmd/dessau/listeners.go:158-209 | over every interleaving of accepts and closes, repeated ones too, the totals and each address's entry count the live connections, the entries sum to the remote total, each is between 1 and its cap, and neither total passes its cap |
| ConnectionCap.RefusedExactly | cmd/dessau/listeners.go:158-192 | a connection is refused exactly when the cap it is named for is full of live connections |
| ConnectionCap.ClosedMeansEmpty | cmd/dessau/listeners.go:194-209 | with every connection closed nothing is counted and no address is kept |
| ConnectionCap.SidesDoNotMeet | cmd/dessau/listeners.go:158-209 | loopback is answered as if nothing came from the network, and the network as if nothing came from this Mac, whatever the other side opens and closes |
| ConnectionCap.EachEventIsRecorded | cmd/dessau/listeners.go:158-209 | a connection admitted is live until its first close, and one refused leaves no trace |
| ConnectionCap.Listener.Accept | cmd/dessau/listeners.go:158-192 | admits or names the cap, updating the counts in place |
| ConnectionCap.Listener.Close | cmd/dessau/listeners.go:253-263 | gives the slot back the first time only |
| LogLimiter.SweepingChangesNoAnswer | internal/gateway/observe.go:446-470 | on a clock that does not go back, the sweeping limiter allows a line exactly when no line of its key was allowed within the interval before |
| LogLimiter.RememberedExactly | internal/gateway/observe.go:446-470 | below the ceiling of keys every one is remembered, and past it only those within the interval |
| LogLimiter.AnyCalls | internal/gateway/observe.go:446-470 | the same of the limiter as it runs |
| LogLimiter.LogEvery.Allow | internal/gateway/observe.go:446-470 | answers, sweeps and remembers in place |
| Common.FoldingIgnoresCase | internal/config/config.go:159-186 | two ids fold alike exactly when they are one but for the case of their letters |
| Settings.LoadedIsValid | internal/config/config.go:1737-1757 | whatever a settings file carries, after the sanitizers every clause of the validator about models, sampling, clients, grace, statistics, thresholds, key, preload and log level holds, and the TLS port's when the port is one; a key is never repaired away |
| Settings.LoadingTwiceIsOnce | internal/config/config.go:1737-1757 | loading that again changes nothing |
| Settings.KeptModelsAreValid | internal/config/config.go:780-833 | the models kept are at most 256, have valid ids and settings, and no two name the same model under folding |
| Settings.NothingUsableIsLost | internal/config/config.go:780-833 | each entry kept is the file's own, cleaned, and below the ceiling every usable model of the file is still named |
| Settings.AnEntryIsCleanedTo | internal/config/config.go:780-833 | an entry says nothing exactly when it is the zero one, and cleaning keeps all of it but parameters and windows no launch would take |
| Settings.SanitizingModelsTwiceIsOnce | internal/config/config.go:780-833 | sanitizing the models again, in any order, changes nothing |
| Settings.KeptClientsAreValid | internal/config/clients.go:163-199 | the clients kept are at most 64, each under its own canonical fingerprint |
| Settings.NoValidClientIsLost | internal/config/clients.go:163-199 | each client kept is the file's own, and below the ceiling every valid one is kept |
| Fingerprint.AFingerprintIsThirtyTwoBytes | internal/config/clients.go:108-122 | a fingerprint is valid exactly when it is the canonical base64 of some 32 bytes |
| Settings.ValidClientsStay | internal/config/clients.go:163-199 | a valid set of clients is kept whole |
| Settings.SanitizedIsValid | internal/config/sampling.go:228-278 | sanitized sampling is valid, and sampling is valid exactly when sanitizing leaves it alone |
| Settings.SanitizingIsFieldByField | internal/config/sampling.go:260-279 | each parameter is kept when it is within its range and unset when it is not, whatever the others are |
| Settings.TheModelsOwnWins | internal/config/sampling.go:330-352 | merged field by field the model's own parameter wins where it has one, and the machine's stands where it has none |
| Settings.EffectiveSamplingIsValid | internal/config/sampling.go:333-375 | what a model server is launched with after a load is valid, and the same in whatever order the models are gone through |
| Settings.EffectiveIsOneModels | internal/config/sampling.go:360-375 | it is the model's own entry over the machine's, field by field, or the machine's alone when no entry names the model |
| Settings.GraceRepairs | internal/config/config.go:1023-1104 | repaired grace figures are valid against each other and the idle timeout, and figures are valid exactly when the repair leaves them alone |
| Settings.GraceRepairsTo | internal/config/config.go:1065-1104 | in force afterwards are the file's intervals or their defaults, the grace clamped to the idle timeout and the wait raised to the grace while the switch is on |
| Settings.FiguresRepairTo | internal/config/config.go:863-1310 | a figure in its range is the file's, one out of it its default, and nothing else is touched |
| Settings.TheKeyIsCutTo | internal/config/config.go:895-934 | a key too long is cut to its longest whole prefix that fits, or at the ceiling when none is whole |
| Settings.FiguresRepair | internal/config/config.go:863-934 | the same of the figures with a range of their own; the key is cut to a prefix and never to nothing |
| Settings.TlsPortNarrows | internal/config/clients.go:208-223 | the same of the TLS port, when the port is one |
| Settings.TlsPortNarrowsTo | internal/config/clients.go:208-223 | a TLS port that is any, or a usable one other than the server's, stands, and any other is none |
| SettingsFile.Loading.Sanitize | internal/config/config.go:1737-1754 | the sanitizers in order leave the settings the functions say, valid |
| SettingsFile.Loading.SanitizeModels | internal/config/config.go:780-833 | one pass over the ids with the folded names seen so far |
| SettingsFile.Loading.SanitizeClients | internal/config/clients.go:163-199 | one pass over the fingerprints under the ceiling |
| SettingsFile.Loading.TrimKey | internal/config/config.go:910-934 | the key cut at the last whole character within the ceiling |
| SettingsFile.Loading.SanitizeGrace | internal/config/config.go:1082-1104 | the four repairs, each measured against what the one before left |

## Left out

- Links, inode identity and the confinement of paths to the models folder: a held folder is a plain directory, a rename is whole or fails, and a removal may stop half way.
- A first download, which writes the model's own folder directly: the store begins with a model that is complete. The claim protocol does cover it.
- The Hub, the network, file contents and hashes: a version is complete or it is not, and the check of a folder in place answers whether it is, or refuses.
- A registry write that fails when an update is published, in the model store's runs, and the record's reasons for a failed update: the record there is the version it names. Of the index file on disk the claims know only whether each first write was saved; a run begins with the records a start has reconciled.
- Names in the staging folder that are not an attempt's: attempts are natural numbers, each larger than the last.
- ModelStoreFallback.TheFallbackPrecedesTheFirstUpdate: speaks of runs in which the process lives on and each load is reported before the next swap of that model, because reports may come in any order; what survives in every other run is stated by ACompleteCopySurvives.
- The process pool beyond what the claims need: Resolve with the launch, Remove and Unload are steps under the pool's lock.
- JSON beyond ordered fields and string insides: white space inside a kept value, the spelling of field names and numbers, and the length of a field name's escapes.
- The object type's own escapes when ".chunk" is taken off it: the suffix is read on the literal's inside.
- StreamAnswer.AssemblingUndoesChunking: asks that no message field is text in one chunk and something else in another, which no chunking of one answer does; such a stream is assembled with the value that is not text.
- Reading lines from the network in assembly: a line is a comment, an event, malformed, the end, or too long.
- Floating point in the probe: characters per token are a real, and the length of the prompt sent is part of the server's answer.
- The probe's waits, time-outs and memory readings: a fixed server answers each size, and everything else that can end a step is a fate.
- ProbeJob.Probe.Run: a setting moved and moved back within one run is in it, but of such a run it promises the stamp and not the figure, because the program compares the settings at the two ends only.
- The wrap-around of the queue's 64-bit generation counter and of sizes past the probe's ceiling.
- Bonjour's packets, names and log lines; a responder's error is only that it stopped.
- A rotating file's directory changed from outside, its permissions and its type, and a rotator opened again with another cap or count.
- 64-bit wrap-around of the rotating log's size.
- RotatingLog.AnyUse: what it says of how much is kept is about writes of at least one byte; an empty one after a single record past the cap starts a new file too, as the program's does.
- A served window the operator typed, and the pinned set's sum: only the derived window has arithmetic of its own.
- The refusal log of the connection cap and the parsing of peer addresses: a peer is its key and whether it is loopback.
- The settings' host, port and bind mode, and the rule that grace needs a key on an exposed server: a load refuses these and repairs none of them.
- The chat rule, whose sanitizer reports a change by length only, and the grammar of a paired client's name, which is whether the name passes it.
- The notices a load returns about what it dropped or repaired.
- The order model ids are gone through in: the program sorts them, and Settings holds for every order.
- The Swift client, the menu bar, TLS and pairing, the site renderer and system calls: no state of the kind modelled here.
