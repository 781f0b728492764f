# meshelf: a verified model of the protocol-2 pull

meshelf lets one device put a text, a file or a folder on a shelf and lets another device pull it.
This project models that pull in Dafny, from the origin's directory walk to the receiver's receipt,
and proves what the two ends promise each other and the user:

* **Activation** — the receiver's run of one pull, as a state machine whose steps are its single
  store, filesystem, network and clipboard calls. Any call may fail, the future may be dropped at any
  await point, and the process may crash between any two steps and start again with recovery. Proved
  over every history: no replay of an uncertain clipboard write, at most one native call per
  activation, the three ways a run may leave its journal row, what a completed outcome and a receipt
  vouch for, that a completed activation has put its own payload where its mode says, what a successful
  startup cleanup has cleaned, what the user is told of each failure, and that recovery never meets a
  live activation.
* **Transfer** — a sender streaming a live source and a receiver staging it, over a byte stream that
  mixes frames and raw bytes. Reads and writes have arbitrary sizes and may break off anywhere.
  Proved: the receiver accepts exactly the streams that spell the files it stages, and reports every
  other one as what it is; every sender stream follows the frame grammar; files are declared complete
  exactly when the source stood still, and a source that changed, vanished or broke off reaches the
  receiver as just that, with exact counts.
* **Trees and manifests** — the offer-time and the fetch-time walk, the manifest, its chunking, the
  receiver's check of it, and staging. Proved: which trees can be offered, and that every refusal names
  something that is there; the walks agree, so an unchanged source is never taken
  for a changed one; what they hash determines the whole tree, so a changed source is never taken for
  an unchanged one; a walked manifest is accepted exactly when it is not empty and no two siblings
  clash up to case; an accepted manifest is a forest and is staged without a conflict exactly when it
  has no empty path.
* **End to end** — `Plans.UnchangedTreeArrives` and `Arrivals.UnchangedTreeArrivesByPath` join the
  three: every non-empty source that stands still and has no clashing siblings is admitted, staged, and
  arrives byte for byte, each file at its own path, with equal counts.
* **Reservations, publication, names, text offers, the native clipboard** — the ledger's books, the
  no-replace publication loop, collision names, previews, and which clipboard failures are harmless.

## How the model is laid out

| files | what they hold |
|---|---|
| `Prelude`, `Utf8`, `Names`, `Paths` | fixed-width arithmetic, UTF-8, the portable-name policy, slash-separated paths and case folding |
| `Ledger`, `Publication`, `TextOffers`, `TextTransfer`, `NativeClipboards` | one component each |
| `Outcomes`, `Activation`, `ActivationInvariant`, `ActivationSafety`, `ActivationTheorems`, `ActivationHarmless`, `ActivationCompletion`, `ActivationOutcomes`, `ActivationStartup`, `ActivationRecovery`, `ActivationWitnesses` | the activation machine, its invariant, the theorems about whole histories, and histories that show what can be reached and where a stronger theorem fails |
| `Wire`, `PayloadReceiver`, `TransferTheorems`, `TransferEndings`, `PayloadSender`, `SenderTheorems`, `SenderEndings`, `ChangedSources` | frames and streams, the two ends, their theorems, how each end fails, and both together when the source does not stand still |
| `Trees`, `NamePolicy`, `WalkErrors`, `Listings`, `TreeWalkers`, `Manifests`, `ManifestEndings`, `ManifestChecks`, `Staging`, `TreeManifests`, `Plans`, `SourceReports`, `Arrivals`, `Commitments` | walks, name policies, errors, listings, manifests, their check, staging, plans, the end-to-end theorems, and what a commitment binds |

Code that works by changing things keeps that form: the ledger, a destination directory, the staging
area, the two walkers, the outbox, the connection and the clipboard are classes, and the loops of
`receive_payload`, `read_manifest`, `validate_manifest`, `chunk_manifest`, `stream_file`, `send_plan`,
`truncate_utf8` and `preview` are loops, each proved against a function of its input. The lemmas are
then about those functions. The activation machine is the exception: it is a transition function on
values, because a crash may fall between any two of its actions and a method body cannot be cut there.

## What is assumed

* SHA-256 is some function from bytes to 32 bytes. JSON is some codec that parses what it wrote, never
  writes nothing, and fits every message of bounded size into a frame of 64 KiB: those without a list,
  headers of valid descriptors, and chunks of one valid entry (`Wire.Lawful`). Lower-casing is some function on strings that
  works piecewise between slashes, neither makes nor loses a slash, and empties no string
  (`Paths.FoldLaw`). They are parameters, so every theorem holds for all of them.
* A filesystem compares names by some key that never confuses names which lower-casing keeps apart
  (`Staging.NoCoarser`): case-sensitive filesystems and the usual case-insensitive ones.
* Names sort by their bytes.
* A store call that reports failure left the store as it was; a staging removal may fail after having
  removed the tree. A failed native clear left the clipboard untouched. Nothing else is assumed of a
  native write that fails.
* A directory lists no name twice, and the object identities a host reports all have one width
  (`Commitments.HostTree`).
* Time-outs, disconnects, cancellation and disk errors are faults that may strike any call.

## What turned out not to hold

* **A regular file left in the cache without an index stops recovery for good.** The sweep removes
  unindexed objects with a call that rejects regular files, and a crash between publishing a
  single-file candidate and indexing it leaves one (`OrphanFileWedgesForever`, `CrashCanWedge`); so,
  without a crash, does a future dropped while the staged name is being removed (`DropCanOrphan`), and,
  with neither, a store failure at the mark that follows publication, which the run reports as an
  ordinary clipboard failure (`FailedMarkCanOrphan`). A clipboard failure leaves the candidate exactly
  when that mark was not written, unless cleanup is blocked (`FailureDropsCandidateIffMarked`).
  Recovery can succeed exactly when there is no such file (`RecoverableIffNoOrphanFile`).
* **An uncertain row is overwritten when its id is journaled again by a save**, and by nothing else
  (`MarkSurvivesIffNotRejournaled`, `MarkStaysIffNeverRejournaled`); `MarkCanBeRejournaled` exhibits
  such a history.
* **A dropped `activate` future keeps its live slot**, and nothing else does (`LeakedIffDropped`,
  `CompletedFuturesReleaseTheirSlots`); after two of them everything is refused until the process
  restarts (`TwoDroppedFuturesRefuseEverything`, `BothSlotsCanLeak`).
* **An empty folder can be offered but is never admitted**: the sender sends no end frame and the
  receiver insists on one (`EmptyFolderIsRefused`, `AnnouncementIsAdmittedIff`).
* **The offer-time name check is weaker than the fetch-time one.** An unchanged folder with an entry
  called `CON .txt` is offered and then always reported as changed (`OfferedButNeverFetched`);
  `UnchangedSourceIsSeenIffFetchable` says exactly when that happens.
* **The manifest check tolerates an empty path in a folder manifest** (`EmptyPathCanBeAccepted`), and
  staging such a manifest fails (`StagingArea.PrepareFolder` gives both directions).
* **Two collision indices of a file can give the same name** (`FileCandidatesCanCoincide`), exactly for
  a name of full length that already carries both numbers (`CandidatesCoincideIffTwiceNumbered`); the
  loop only tries it twice, nothing is overwritten.
* **The UUID fallback name can be refused**, exactly when the shortened root spells a device
  (`FallbackAcceptedIffNoDevice`, `FallbackCanBeRefused`).
* **A failed publication of a file may leave the published name behind**, exactly when the search
  reaches a free name, links the file there and then cannot remove the staged link
  (`Directory.FinalizeWithoutOverwrite`, `FailureCanLeaveAName`).
* **The digest of a text that the header announces is never compared with the text received**
  (`TextArrives` holds for every announced digest of the right length).

## Model

| member | source | states |
|---|---|---|
| ActivationInvariant.ActKeeps | crates/meshelf-net/src/fetch_receiver.rs:402-1151 | every action of a run, whatever call fails in it, keeps the invariant that ties its program point to its journal row, staging, guard, admission check, side effect and pending result |
| ActivationInvariant.ActIsTame | crates/meshelf-net/src/fetch_receiver.rs:615-695 | an action changes no other activation's row or staging, never unblocks cleanup, changes the clipboard only inside its own native call and the cache, outside its own clipboard application, only by adding its object |
| ActivationInvariant.ActEvents | crates/meshelf-net/src/fetch_receiver.rs:538-553 | acceptances and native calls always refer to that run's own earlier admission check |
| ActivationSafety.NextKeepsInv | crates/meshelf-net/src/activation.rs:354-410 | activating, stepping, dropping, recovering and crashing all keep the global invariant |
| ActivationSafety.ReachableIsSafe | crates/meshelf-net/src/activation.rs:252-410 | every history from any disk stays inside the invariant |
| ActivationTheorems.ExitTrichotomy | crates/meshelf-net/src/fetch_receiver.rs:2412-2473 | however a run that wrote its row ends, returned or dropped: row and staging are both gone, or cleanup is blocked, or the row says UncertainNoReplay |
| ActivationTheorems.CompletedMeansCompleted | crates/meshelf-net/src/activation.rs:153-250 | an outcome is Completed exactly on an Ok return, although the conversions map two errors there too, and Ok comes only after side effect, staging removal, completed state, attempt, row removal and receipt, in that order |
| ActivationTheorems.ReceiptComesLast | crates/meshelf-net/src/fetch_receiver.rs:794-931 | while the Completed receipt is written, all five earlier milestones have passed in order and row and staging are gone |
| ActivationCompletion.CompletedClipboardRunHasPlaced | crates/meshelf-net/src/fetch_receiver.rs:1631-1724 | in every history a clipboard run that ends Ok went through a step of its own that left its own payload in the clipboard: the text, or the cached file or folder |
| ActivationCompletion.PayloadWasPlaced | crates/meshelf-net/src/fetch_receiver.rs:1631-1724 | the same of every run that has recorded its side effect, with the run there from that step on |
| ActivationCompletion.UndisturbedCompletion | crates/meshelf-net/src/fetch_receiver.rs:1658-1724 | a clipboard run that no other clipboard application overlaps and that ends Ok leaves its payload in the clipboard; a file or folder is then the completed record, still in the cache, with nothing in flight, and the previous object is gone unless its id was activated meanwhile |
| ActivationCompletion.PlacedFilesLowerFlag | crates/meshelf-net/src/fetch_receiver.rs:1700-1720 | a clipboard run of a file or folder gets to its final cleaning only with the uncertainty flag lowered |
| ActivationCompletion.CompletedSaveIsPublished | crates/meshelf-net/src/fetch_receiver.rs:1577-1618 | in every history a save that ends Ok, which text never does, has put its payload into the user's folder |
| ActivationWitnesses.EveryJobCompletes | crates/meshelf-net/src/fetch_receiver.rs:402-931 | for every mode and kind but the saving of a text, a history from an empty disk that ends Ok, with the exact disk it leaves |
| ActivationTheorems.UncertainEndPoisons | crates/meshelf-net/src/fetch_receiver.rs:1768-1809 | a clipboard run that reports UncertainNoReplay leaves an uncertain row that no run owns |
| ActivationTheorems.CrashAfterTouchPoisons | crates/meshelf-core/src/activation.rs:65-71 | a crash after a run changed the clipboard leaves such a row, unless completion was already recorded |
| ActivationTheorems.MarkSurvivesIffNotRejournaled | crates/meshelf-store/src/v2.rs:448-602 | an ownerless uncertain row survives a step exactly when the step is not a new run journaling the same id, and that run is a save |
| ActivationTheorems.MarkStaysIffNeverRejournaled | crates/meshelf-store/src/v2.rs:448-602 | over a whole history the row is there all along exactly when the id is never journaled again |
| ActivationWitnesses.MarkCanBeRejournaled | crates/meshelf-store/src/v2.rs:448-462 | a history from an empty disk that reaches the step at which a save overwrites an uncertain row |
| ActivationTheorems.NoReplay | crates/meshelf-net/src/fetch_receiver.rs:538-553 | once an uncertain row is left, through all later activations, drops, crashes and recoveries, as long as the id is not journaled again, the row stays, and no admission check made later lets a clipboard activation be accepted or call the clipboard |
| ActivationTheorems.NoReplayAfterCrash | crates/meshelf-net/src/fetch_receiver.rs:292-314 | the same after a crash at any reachable point at which a clipboard row was in an uncertain state, ApplyingClipboard included |
| ActivationTheorems.AtMostOneCallPerActivation | crates/meshelf-net/src/fetch_receiver.rs:1631-1724 | over any history the native calls made for an id are at most the clipboard activations of it that were actually started; refused activations and recovery add none |
| ActivationTheorems.ClipboardChangesAreOwned | crates/meshelf-net/src/fetch_receiver.rs:1631-1724 | the clipboard changes only in a step of a run inside its native call, and the run records it |
| ActivationTheorems.ClipboardFailedMeansUntouched | crates/meshelf-net/src/fetch_receiver.rs:1934-1941 | a run that ends with ClipboardFailed never changed the clipboard, because the native call answers definitely only from points at which nothing was changed |
| ActivationOutcomes.FailuresAreTold | crates/meshelf-net/src/fetch_receiver.rs:932-1151 | the conversions from a broken transfer to an error to an outcome say what broke: the sender's own words for an abort, verification, protocol, local disk, cancellation or a lost connection |
| ActivationOutcomes.LostTransferIsTold | crates/meshelf-net/src/fetch_receiver.rs:932-1151 | over any history a run whose transfer breaks off returns that outcome, unless its cleanup or its report to the peer fails too |
| ActivationOutcomes.FailureIsTold | crates/meshelf-net/src/fetch_receiver.rs:1905-1932 | so does a run whose call failed at any of the points below |
| ActivationOutcomes.StartIsTold | crates/meshelf-net/src/fetch_receiver.rs:402-430 | turned away at once: busy while cleanup is blocked, cancelled when it is |
| ActivationOutcomes.NegotiationIsTold | crates/meshelf-net/src/fetch_receiver.rs:1812-1846 | refused on what the peer announced: each admission code as its own outcome |
| ActivationOutcomes.UncertaintyIsTold | crates/meshelf-net/src/fetch_receiver.rs:538-553 | a clipboard activation is refused as busy while an earlier one is uncertain, by flag or by record |
| ActivationOutcomes.RaisedFlagIsTold | crates/meshelf-net/src/fetch_receiver.rs:538-553 | the flag counts as it was when the run looked at it |
| ActivationOutcomes.ReservationIsTold | crates/meshelf-net/src/fetch_receiver.rs:585-633 | no space, no destination or no journal row: refused or failed as such |
| ActivationOutcomes.PreparationFailuresAreTold | crates/meshelf-net/src/fetch_receiver.rs:634-662 | staging that cannot be allocated is a refusal, a payload root that cannot be looked at an I/O failure |
| ActivationOutcomes.AcceptanceFailuresAreTold | crates/meshelf-net/src/fetch_receiver.rs:663-676 | a reply that cannot be sent is a lost connection, a state that cannot be stored an internal failure |
| ActivationOutcomes.TransferFailuresAreTold | crates/meshelf-net/src/fetch_receiver.rs:932-1151 | cancellation and every broken transfer, each as its own outcome |
| ActivationOutcomes.MarkFailuresAreTold | crates/meshelf-net/src/fetch_receiver.rs:732-794 | a state that cannot be stored is an internal failure, a staged name that cannot be removed a local one |
| ActivationOutcomes.PublicationFailuresAreTold | crates/meshelf-net/src/fetch_receiver.rs:1577-1618 | a publication that fails on disk or meets its own candidate is a local failure, one that fails in the store an internal one |
| ActivationOutcomes.ClipboardFailuresAreTold | crates/meshelf-net/src/fetch_receiver.rs:1631-1724 | every definite failure around the native call is a clipboard failure |
| ActivationOutcomes.SavedTextIsTold | crates/meshelf-net/src/fetch_receiver.rs:1650-1657 | so is the saving of a text |
| ActivationOutcomes.UncertainEndIsTold | crates/meshelf-net/src/fetch_receiver.rs:1768-1809 | an uncertain end marks the row, records the attempt, raises the flag for a clipboard run, and is told as uncertain |
| ActivationHarmless.DefiniteFileFailureIsHarmless | crates/meshelf-net/src/fetch_receiver.rs:1658-1724 | whatever other activations do meanwhile short of their own clipboard application, after a definite failure of a file write the previous completed record, the objects that were there and the clipboard are as at the call, and candidate and index are gone or cleanup is blocked |
| ActivationHarmless.FailureFromIndexingIsHarmless | crates/meshelf-net/src/fetch_receiver.rs:1658-1724 | the same from the indexing of the candidate on, where a failed indexing leaves the index as it was |
| ActivationHarmless.FailureDropsCandidateIffMarked | crates/meshelf-net/src/fetch_receiver.rs:1620-1724 | a published candidate whose run then reports a clipboard failure with cleanup not blocked is gone if and only if the ApplyingClipboard mark was written |
| ActivationRecovery.RecoveryMeetsNoLiveActivation | crates/meshelf-net/src/activation.rs:354-410 | in every reachable state a live activation implies a finished recovery, a running recovery implies no run, and at most two ids are live |
| ActivationRecovery.OrphanFileWedgesForever | crates/meshelf-net/src/fetch_receiver.rs:365-400 | an unindexed regular file in the cache keeps every later attempt, in this process and all later ones, from recovering |
| ActivationRecovery.CrashBeforeIndexingWedges | crates/meshelf-net/src/fetch_receiver.rs:1658-1680 | a crash after linking a single-file candidate and before indexing it leaves that situation |
| ActivationWitnesses.CrashCanWedge | crates/meshelf-net/src/fetch_receiver.rs:365-400 | a history from an empty disk that ends in it |
| ActivationWitnesses.DropCanOrphan | crates/meshelf-net/src/destination.rs:50-54 | a history without a crash that leaves the orphan: a future dropped while the staged name of a linked file is removed |
| ActivationWitnesses.FailedMarkCanOrphan | crates/meshelf-net/src/fetch_receiver.rs:1620-1629 | a history without a crash or a dropped future that leaves the orphan: the mark after publication cannot be written, the run reports ClipboardFailed, its slot is free and nothing is blocked |
| ActivationRecovery.RecoverableIffNoOrphanFile | crates/meshelf-net/src/fetch_receiver.rs:292-314 | some sequence of recovery steps succeeds if and only if no unindexed regular file lies in the cache |
| ActivationStartup.RecoveryCleans | crates/meshelf-store/src/v2.rs:554-602 | when a process is recovered, through whatever failed attempts, restarts and refused activations: the journal holds exactly the rows that were uncertain, each marked UncertainNoReplay in its mode, no other row has left staging behind, the cache holds exactly the indexed objects it held, nothing else changed, and an uncertain side effect is known to the admission check |
| ActivationRecovery.LeakedIffDropped | crates/meshelf-net/src/activation.rs:369-410 | within a process a step leaves a live slot without a run if and only if it was so before or the step is the end of a dropped future of that id |
| ActivationRecovery.CompletedFuturesReleaseTheirSlots | crates/meshelf-net/src/activation.rs:369-410 | over any history in which no future is dropped no slot is ever leaked |
| ActivationRecovery.LeakedSlotsStay | crates/meshelf-net/src/activation.rs:369-410 | a leaked slot is never released within the process |
| ActivationRecovery.TwoDroppedFuturesRefuseEverything | crates/meshelf-net/src/activation.rs:369-410 | with two such slots every further activation is refused until a restart |
| ActivationWitnesses.BothSlotsCanLeak | crates/meshelf-net/src/activation.rs:369-410 | a history from an empty disk after which both slots are leaked |
| TransferTheorems.StagedIffTranscript | crates/meshelf-net/src/fetch_receiver.rs:1428-1575 | the receiver stages contents and stops at a point if and only if the bytes up to there are the frames and raw bytes that spell those contents: order, indices, exact lengths, each file's digest, counts and set digest |
| TransferTheorems.TruncatedStreamIsNeverStaged | crates/meshelf-net/src/fetch_receiver.rs:1369-1575 | an accepted stream cut anywhere before its end is not accepted |
| TransferEndings.AbortIsReported | crates/meshelf-net/src/fetch_receiver.rs:1433-1445 | after the first k files, for every k, an abort for this request is reported with the code and the counts the sender gave |
| TransferEndings.AbortAfterBytesIsReported | crates/meshelf-net/src/fetch_receiver.rs:1520-1540 | so is one that comes where the end of a file is due |
| TransferEndings.WrongFrameIsReported | crates/meshelf-net/src/fetch_receiver.rs:1433-1460 | any other frame where a file should start is a failed verification, bytes that are no frame a protocol failure, both with the files and bytes received |
| TransferEndings.WrongBytesAreReported | crates/meshelf-net/src/fetch_receiver.rs:1520-1556 | bytes that do not have the announced digest are a failed verification that counts them |
| TransferEndings.WrongClosingIsReported | crates/meshelf-net/src/fetch_receiver.rs:1557-1575 | behind the files an abort is reported whatever request it names, a completion that miscounts is a failed verification of everything, any other frame one of nothing |
| TransferEndings.CutStreamIsDisconnected | crates/meshelf-net/src/fetch_receiver.rs:1433-1575 | an accepted stream cut short anywhere is a disconnection with the files ended and the raw bytes read at the cut, or no counts behind the files |
| PayloadReceiver.ReceivePayload | crates/meshelf-net/src/fetch_receiver.rs:1428-1575 | whatever sizes its reads have, the loop's verdict is the one the byte sequence determines, unless it was cancelled or its own disk failed; the lemmas above say which verdict that is |
| PayloadReceiver.ReceiveFileFrom | crates/meshelf-net/src/fetch_receiver.rs:1433-1477 | one file's frames and body are judged as the byte sequence determines |
| PayloadReceiver.ReceiveBodyFrom | crates/meshelf-net/src/fetch_receiver.rs:1478-1556 | exactly the announced number of bytes is written and hashed, for every way of cutting the reads |
| PayloadReceiver.ReceiveCompleteFrom | crates/meshelf-net/src/fetch_receiver.rs:1557-1575 | success needs a completion with exactly the counts written and the digest of manifest and files |
| SenderTheorems.EveryStreamFollowsGrammar | crates/meshelf-net/src/fetch_sender.rs:315-520 | however the source changes, in everything that follows a reply exactly the announced raw bytes lie between a start and its end, a closing frame falls only between files and counts the ended files and their bytes, and a stream not cut short inside a file is closed |
| SenderTheorems.BrokenStreamFollowsGrammar | crates/meshelf-net/src/fetch_sender.rs:659-685 | a stream that breaks off anywhere was in order as far as it went |
| SenderTheorems.CompleteIffStoodStill | crates/meshelf-net/src/fetch_sender.rs:315-520 | nothing follows a reply other than Accepted for this request, and completion is sent exactly when both rebuilds succeed with the announced descriptor, manifest, digest and commitment and every file matched before and after its bytes |
| SenderEndings.MismatchAtAdmissionIsReported | crates/meshelf-net/src/fetch_sender.rs:328-383 | a rebuild at admission that failed or found something else is all that is sent: an abort with the code for it and no counts |
| SenderEndings.MismatchAtEndIsReported | crates/meshelf-net/src/fetch_sender.rs:466-510 | one at the end follows all files and counts them and their bytes |
| SenderEndings.FirstChangedFileEndsTheStream | crates/meshelf-net/src/fetch_sender.rs:385-465 | the first file that did not stand still ends the stream: everything before it is sent in full; missed before its bytes, or found gone or changed after them, it is reported as that with the files closed on the wire counted; broken inside them, nothing follows |
| ChangedSources.MismatchAtAdmissionIsTold | crates/meshelf-net/src/fetch_receiver.rs:1433-1445 | the receiver of a source that no longer matches once it is admitted declines with the code for it |
| ChangedSources.MismatchAtEndIsTold | crates/meshelf-net/src/fetch_receiver.rs:1557-1575 | the receiver of a source that no longer matches at the end declines with that code and all counts |
| ChangedSources.MissedFileIsTold | crates/meshelf-net/src/fetch_receiver.rs:1433-1445 | the receiver of a source whose file k is gone or changed declines with that code and exact counts |
| ChangedSources.BrokenFileIsDisconnected | crates/meshelf-net/src/fetch_receiver.rs:1478-1556 | the receiver of a file that broke off inside its bytes sees a disconnection with the files before it and the bytes that were sent |
| SenderTheorems.UnchangedSourceSendsTranscript | crates/meshelf-net/src/fetch_sender.rs:385-520 | a source that stands still puts exactly the stream on the wire that the receiver accepts for its contents |
| SenderTheorems.UnchangedSourceArrives | crates/meshelf-net/src/fetch_sender.rs:385-520 | and the receiver then stages exactly those contents and stops at the end of the stream |
| PayloadSender.SendContent | crates/meshelf-net/src/fetch_sender.rs:604-623 | the read-and-write loop puts the file's bytes on the wire, up to the announced length, for every way of cutting reads, or a beginning of them |
| PayloadSender.StreamFileTo | crates/meshelf-net/src/fetch_sender.rs:581-656 | one file delivers its stream, or a beginning of it on a broken connection, and ends as its metadata checks say |
| PayloadSender.StreamPlanTo | crates/meshelf-net/src/fetch_sender.rs:385-520 | all files and the closing frame deliver the plan's stream or a beginning of it |
| PayloadSender.ServeTo | crates/meshelf-net/src/fetch_sender.rs:315-520 | the same from the admission reply on, texts and early aborts included |
| Wire.FrameRoundTrip | crates/meshelf-protocol/src/v2.rs:366-422 | a frame reads back as its message whatever follows it, and reading takes no more than it |
| Wire.RenderedStreamReadsBack | crates/meshelf-protocol/src/v2.rs:366-422 | a stream of frames and raw bytes reads back token by token and leaves what follows |
| Wire.ReadFramesAreBounded | crates/meshelf-protocol/src/v2.rs:366-422 | whatever a peer sends, no message that was read exceeds the protocol's bounds on frames, entries, paths, files and totals |
| Utf8.EncodeIsInjective | crates/meshelf-net/src/fetch_receiver.rs:1417-1424 | different texts have different UTF-8 forms, so a received text is determined |
| TextTransfer.TextReceivedIffSpelled | crates/meshelf-net/src/fetch_receiver.rs:1379-1426 | a text is received if and only if the bytes are its UTF-8 form of the announced length, its digest frame and a matching completion |
| TextTransfer.CutTextIsReported | crates/meshelf-net/src/fetch_receiver.rs:1379-1426 | a text cut short is a stream failure inside its bytes and a disconnection behind them |
| TextTransfer.AbortedTextIsReported | crates/meshelf-net/src/fetch_receiver.rs:1379-1426 | an abort behind the bytes of a text is reported with the sender's code and counts |
| TextTransfer.TextArrives | crates/meshelf-net/src/fetch_sender.rs:543-579 | every text that can be offered arrives as it was, whatever digest of the right length the header announced |
| Trees.FetchNamesAreOfferNames | crates/meshelf-net/src/fetch_sender.rs:1211-1246 | every name the fetch-time check accepts is accepted at offer time |
| NamePolicy.PortableIff | crates/meshelf-net/src/destination.rs:60-136 | a name passes the destination's policy if and only if it has plain characters, at most 255 bytes, no loose end, and a trimmed stem outside the 28 device names listed there |
| NamePolicy.OfferableIff | crates/meshelf-control/src/offer_source.rs:215-240 | a name passes the offer-time check if and only if it has plain characters, no loose end, and a stem outside the 22 plain device names |
| NamePolicy.DevicesAreRefused | crates/meshelf-control/src/offer_source.rs:215-240 | every device is refused at the destination in any case, with any padding and any extension, and a plain one at offer time too |
| Trees.WalksAgree | crates/meshelf-control/src/offer_source.rs:133-191 | both walks feed the same bytes to the commitment and compute the same statistics, and the fetch-time walk succeeds exactly when the offer-time walk does and all names and paths pass the fetch-time checks |
| WalkErrors.OfferIffSound | crates/meshelf-control/src/offer_source.rs:133-191 | the offer-time walk takes exactly the trees of files and folders with portable names and usable clock readings, no file over 8 GiB, at most 4096 entries and 16 GiB in all |
| WalkErrors.OfferErrorsAreTrue | crates/meshelf-control/src/offer_source.rs:133-191 | each of its errors names something in the tree, or the tree as too large |
| WalkErrors.FetchErrorsAreFair | crates/meshelf-net/src/fetch_sender.rs:1027-1120 | the fetch-time walk says unavailable only if something cannot be read, and changed only if a name, a kind or a size is not acceptable |
| SourceReports.OfferedIff | crates/meshelf-control/src/offer_source.rs:77-123 | a source is offered if and only if its root and tree are of that kind, and the offer tells its name and size |
| SourceReports.OfferErrorsNameACause | crates/meshelf-control/src/offer_source.rs:77-123 | every error at offer time names something that is there |
| SourceReports.LookErrorsNameACause | crates/meshelf-net/src/fetch_sender.rs:888-1009 | a source is called unavailable only if something in it cannot be read, changed only if it is not the offered one or cannot be fetched, malformed only if it is no file or folder |
| TreeWalkers.OfferWalker.HashMetadata | crates/meshelf-control/src/offer_source.rs:242-268 | the offer side's updates feed the specified record, and fail exactly on an unusable clock reading |
| TreeWalkers.FetchWalker.HashMetadata | crates/meshelf-net/src/fetch_sender.rs:1183-1205 | the fetch side's own updates feed the same record |
| TreeWalkers.OfferWalker.WalkDirectory | crates/meshelf-control/src/offer_source.rs:133-191 | the walk that sorts each listing and updates hash and counters in place computes the specified walk of the sorted tree or fails with its error |
| TreeWalkers.OfferWalker.Visit | crates/meshelf-control/src/offer_source.rs:145-188 | so does its step for one entry |
| TreeWalkers.FetchWalker.WalkFolder | crates/meshelf-net/src/fetch_sender.rs:1027-1120 | the walk that also pushes manifest entries and files in place computes the specified walk of the sorted tree or fails with its error |
| TreeWalkers.FetchWalker.Visit | crates/meshelf-net/src/fetch_sender.rs:1041-1118 | so does its step for one entry |
| Listings.ListingOrderDoesNotMatter | crates/meshelf-net/src/fetch_sender.rs:1035-1039 | two listings of one directory, in whatever order, sort into one sequence |
| Listings.WalksSeeOneTreeIffReordered | crates/meshelf-control/src/offer_source.rs:139-143 | two trees look the same to a walk if and only if one is the other with its listings, at every depth, in some other order |
| TreeManifests.WalkKeepsBooks | crates/meshelf-net/src/fetch_sender.rs:1062-1117 | after every successful walk the four statistics and the file list are exactly those of the manifest |
| TreeManifests.WalkSpellsItems | crates/meshelf-net/src/fetch_sender.rs:1027-1120 | the manifest lists exactly the tree's entries, each folder before what it contains |
| TreeManifests.TreeIsClosed | crates/meshelf-net/src/fetch_sender.rs:1027-1120 | a tree's entries are prefix-closed |
| TreeManifests.TreeApartIffUnclashing | crates/meshelf-net/src/fetch_receiver.rs:2139-2142 | a tree's paths are distinct up to case if and only if siblings' names are, in every folder |
| TreeManifests.WalkedManifestPasses | crates/meshelf-net/src/fetch_receiver.rs:2112-2182 | a walked manifest passes every structural check of the receiver, has no empty path, and passes the duplicate check exactly when no siblings clash |
| Manifests.ChunkManifest | crates/meshelf-protocol/src/v2.rs:425-509 | the loop computes the greedy chunking of the entries, or fails, exactly as the specified function does |
| Manifests.ChunkedCovers | crates/meshelf-protocol/src/v2.rs:425-509 | its chunks carry the entries in order, are contiguous, none is empty, each fits a frame and all fit the total bound |
| Manifests.ChunkedIffWithinBounds | crates/meshelf-protocol/src/v2.rs:425-509 | it succeeds if and only if the entries are valid and at most 4096 and the chunks of the greedy cut, which valid entries always have, stay within 8 MiB |
| Manifests.ReadManifestFrom | crates/meshelf-net/src/fetch_receiver.rs:1215-1279 | the loop computes the specified reading of the byte sequence |
| Manifests.ReadManifestIsComplete | crates/meshelf-net/src/fetch_receiver.rs:1226-1258 | what is read has exactly the announced number of entries |
| Manifests.ChunksReassemble | crates/meshelf-net/src/fetch_receiver.rs:1226-1258 | any contiguous chunking without empty chunks is put together again exactly |
| Manifests.ManifestReassembles | crates/meshelf-net/src/fetch_receiver.rs:1215-1279 | a chunked manifest and its end frame are read back as that manifest |
| ManifestEndings.WrongManifestFrameIsReported | crates/meshelf-net/src/fetch_receiver.rs:1226-1279 | after some chunks in order any frame but the next one is a failed verification, bytes that are no frame a protocol failure, the end of the stream a disconnection |
| ManifestEndings.CutManifestIsDisconnected | crates/meshelf-net/src/fetch_receiver.rs:1226-1279 | an accepted manifest cut short anywhere is a disconnection |
| ManifestChecks.ScanEntries | crates/meshelf-net/src/fetch_receiver.rs:2121-2166 | the scan with its sets and checked additions passes exactly the lists of sound entries distinct up to case, with the right totals; TooLarge means a size, InvalidManifest anything else |
| ManifestChecks.CheckParents | crates/meshelf-net/src/fetch_receiver.rs:2167-2182 | the nested loop passes exactly when every proper ancestor of every entry is a declared directory |
| ManifestChecks.NoFileIsADirectory | crates/meshelf-net/src/fetch_receiver.rs:2175-2177 | after the duplicate check the look-up among files never decides anything |
| ManifestChecks.MatchDescriptor | crates/meshelf-net/src/fetch_receiver.rs:2186-2220 | the descriptor is matched exactly |
| ManifestChecks.ValidateManifest | crates/meshelf-net/src/fetch_receiver.rs:2112-2239 | acceptance if and only if the manifest is sound, distinct up to case, rooted, within limits, as described, and sealed by header and end frame; TooLarge only for a size, and always when sizes are all that is wrong with a rooted list of entries |
| ManifestChecks.AcceptedMatchesOffer | crates/meshelf-net/src/fetch_receiver.rs:2112-2239 | an accepted manifest has the entries, files, folders and bytes that header and card announced, no file over 8 GiB, at most 16 GiB in all, and both frames carry the digest of just this manifest |
| Staging.AcceptedIsForest | crates/meshelf-net/src/fetch_receiver.rs:2121-2182 | an accepted manifest is a forest up to case: distinct paths, every proper ancestor a declared directory, no file an ancestor |
| Staging.FilesNeverClash | crates/meshelf-net/src/fetch_receiver.rs:1325-1345 | no file of an accepted manifest without an empty path stands where staging makes a directory or another file, on case-sensitive and case-insensitive filesystems |
| Staging.StagingArea.EnsureDirectories | crates/meshelf-platform/src/filesystem.rs:61-100 | it keeps everything, adds only missing ancestors as directories, and fails without a fault only on a file in the way |
| Staging.StagingArea.CreateNewFile | crates/meshelf-platform/src/filesystem.rs:116-129 | it never takes the place of anything |
| Staging.StagingArea.MakeDirectories | crates/meshelf-net/src/fetch_receiver.rs:1317-1329 | in whatever order the directories are taken, all of them are made |
| Staging.StagingArea.StageFile | crates/meshelf-net/src/fetch_receiver.rs:1331-1356 | one more file is in its place with its length and nothing staged before is lost |
| Staging.StagingArea.PrepareFile | crates/meshelf-net/src/fetch_receiver.rs:1302-1359 | a single file is staged as the payload root and never conflicts |
| Staging.StagingArea.PrepareFolder | crates/meshelf-net/src/fetch_receiver.rs:1302-1359 | every file is created exactly once with its length and manifest index, in order; for a checked manifest a conflict means an empty path, and an empty path means no success |
| Staging.PlanCountsTheSlots | crates/meshelf-net/src/fetch_receiver.rs:2084-2094 | for an accepted manifest the plan's file and byte counts are those of the staged files |
| Staging.ReceiptCountsWhatWasWritten | crates/meshelf-net/src/fetch_receiver.rs:922-931 | whatever the peer sends, a payload received whole holds exactly the files and bytes the Completed receipt reports |
| Staging.EmptyFolderIsRefused | crates/meshelf-net/src/fetch_receiver.rs:1223-1225 | a header without entries but with a digest is read as an empty manifest and refused, whatever follows |
| Staging.EmptyPathCanBeAccepted | crates/meshelf-net/src/fetch_receiver.rs:2131-2134 | a folder manifest with an empty path that passes the whole check |
| Plans.UnchangedSourceIsSeenIffFetchable | crates/meshelf-net/src/fetch_sender.rs:888-1009 | an offered source that has not changed, its folders now listed in any other order at any depth, is found unchanged if and only if all its names and paths pass the fetch-time checks |
| Plans.OfferedButNeverFetched | crates/meshelf-control/src/offer_source.rs:215-240 | a folder that is offered and never found unchanged: one with an entry named "CON .txt" |
| Commitments.OfferedTreeHashes | crates/meshelf-control/src/offer_source.rs:133-191 | a successful walk has hashed exactly the records of the tree's entries, in order |
| Commitments.RecordsReadBack | crates/meshelf-control/src/offer_source.rs:242-268 | a string of records determines its entries: every path, kind, length, identity, flag and time |
| Commitments.ItemsDetermineTree | crates/meshelf-control/src/offer_source.rs:133-191 | a list of entries determines the tree it was walked from |
| Commitments.CommitmentDeterminesSource | crates/meshelf-control/src/offer_source.rs:77-123 | two sources of one name with the same hashed bytes are the same source |
| Commitments.ChangeIsAlwaysSeen | crates/meshelf-net/src/fetch_sender.rs:888-1009 | a source found unchanged is, up to the order of its listings, exactly the source that was offered, unless SHA-256 collides on the two commitments |
| Plans.BuildSourcePlan | crates/meshelf-net/src/fetch_sender.rs:826-1009 | a built plan is the plan of the source it saw; it is built if and only if the source is found unchanged and its manifest can be chunked, and each failure has its own report |
| Plans.PlannableIffChunksFit | crates/meshelf-net/src/fetch_sender.rs:943-1009 | a source found unchanged has a valid manifest whose greedy chunks exist, and it can be planned if and only if they stay within 8 MiB |
| Plans.RecordedIsValid | crates/meshelf-control/src/offer_source.rs:77-123 | whatever is offered has a descriptor that the protocol accepts |
| Plans.RebuiltPlansMatch | crates/meshelf-net/src/fetch_sender.rs:736-743 | two plans of an unchanged source agree in descriptor, manifest, digest and commitment |
| Plans.AnnounceTo | crates/meshelf-net/src/fetch_sender.rs:277-313 | header, chunks and end frame go out in order, or a beginning of them; an empty manifest has no end frame |
| Plans.PlannedManifestPasses | crates/meshelf-net/src/fetch_sender.rs:888-1009 | every plan's manifest is sound, rooted, as described and within limits, its files are its file entries in order, and its paths are distinct up to case exactly when no siblings clash |
| Plans.PlanIsAcceptableIff | crates/meshelf-net/src/fetch_receiver.rs:2046-2239 | what the sender announces passes the header check, and passes the manifest check exactly when no siblings clash |
| Plans.AnnouncementIsAdmittedIff | crates/meshelf-net/src/fetch_sender.rs:277-313 | the announcement, as bytes, is admitted if and only if the manifest is not empty and no siblings clash, and the receiver then holds the sender's manifest |
| Plans.AdmittedIsWhatWasAsked | crates/meshelf-net/src/fetch_receiver.rs:2046-2106 | what is admitted answers this request, for this offer and the card that was shown, with the manifest that its header announced and sealed |
| Plans.UnchangedTreeArrives | crates/meshelf-net/src/fetch_sender.rs:269-528 | every non-empty source with a valid descriptor and without clashing siblings that was planned and stands still is announced in frames that fit, admitted, can be staged without a conflict, and arrives byte for byte with equal counts and digest, for every chunking and every cutting of reads and writes |
| Arrivals.WrittenHolds | crates/meshelf-net/src/fetch_receiver.rs:1478-1556 | contents written to their staged files overwrite nothing: each place holds its own file's content and nothing else is there |
| Arrivals.AreaFillsStaging | crates/meshelf-net/src/fetch_receiver.rs:1331-1356 | the written area fills exactly the files that staging left, each to its length |
| Arrivals.UnchangedTreeArrivesByPath | crates/meshelf-net/src/fetch_receiver.rs:1302-1575 | for a folder: every file's own bytes are at its own path in the payload area, and nothing else is, on case-sensitive and case-insensitive filesystems |
| Ledger.Headroom | crates/meshelf-net/src/fetch_receiver.rs:139-141 | the headroom stays within 2 and 16 GiB |
| Ledger.HeadroomIsOneTwentieth | crates/meshelf-net/src/fetch_receiver.rs:139-141 | it is 2 GiB below 40 GiB in all, 16 GiB from 320 GiB on, and a twentieth, rounded down, in between |
| Ledger.ReservationLedger.Reserve | crates/meshelf-net/src/fetch_receiver.rs:132-166 | success exactly when the permits held plus payload and headroom fit what is available; each failure has its own error, with the exact figures; the second overflow check never fires; the books stay balanced |
| Ledger.ReservationLedger.Drop | crates/meshelf-net/src/fetch_receiver.rs:185-197 | a drop takes off exactly its own bytes: the subtraction never saturates and no other filesystem's entry moves |
| Ledger.ReserveConserves | crates/meshelf-net/src/fetch_receiver.rs:157-164 | adding a permit keeps every entry equal to the sum of its permits and present exactly when there is one |
| Ledger.ReleaseConserves | crates/meshelf-net/src/fetch_receiver.rs:185-197 | so does dropping one: an entry disappears with its last permit and not before |
| Ledger.HistoryConserves | crates/meshelf-net/src/fetch_receiver.rs:132-197 | the books balance after any sequence of reserves and drops |
| Ledger.NoOvercommit | crates/meshelf-net/src/fetch_receiver.rs:150-156 | after any history a successful reserve leaves the filesystem promised no more than that call found available |
| Publication.Directory.FinalizeWithoutOverwrite | crates/meshelf-net/src/destination.rs:14-58 | success adds exactly one new name, the least free candidate, and comes if and only if the search reaches a free name without a fault; a failure leaves a new name if and only if a file was linked at one and the staged link could not be removed, and otherwise changes nothing |
| Publication.FailureCanLeaveAName | crates/meshelf-net/src/destination.rs:38-58 | for every portable file name, in an empty directory, such a failure exists |
| Publication.PortableRootsAreAlwaysNamed | crates/meshelf-net/src/destination.rs:60-99 | a portable root has a portable candidate at every index |
| Publication.InterleavedPublishersNeverOverwrite | crates/meshelf-net/src/destination.rs:14-58 | over any interleaving of failing publishers no name changes or disappears, each new name holds its publisher's payload, and no two publishers share one |
| PortableNames.CollisionCandidatesAreValid | crates/meshelf-net/src/destination.rs:60-121 | every index from 1 to 9999 of a portable root gives a portable name of at most 255 bytes |
| PortableNames.CandidatesCoincideIffTwiceNumbered | crates/meshelf-net/src/destination.rs:60-121 | the names of two indices from 2 on are the same if and only if the root is a file name of exactly 255 bytes whose stem ends in the one number, whose extension ends in the other, and which keeps its extension beside the first and not beside the second; for folders they always differ |
| PortableNames.AlikeCandidatesAreDistinct | crates/meshelf-net/src/destination.rs:60-121 | names that keep or lose the extension alike always differ |
| PortableNames.FileCandidatesCanCoincide | crates/meshelf-net/src/destination.rs:72-99 | a 255-byte file name for which indices 9 and 10 give the same name |
| PortableNames.FallbackAcceptedIffNoDevice | crates/meshelf-net/src/destination.rs:101-121 | the UUID name is accepted exactly when the shortened root does not spell a device |
| PortableNames.FallbackCanBeRefused | crates/meshelf-net/src/destination.rs:101-121 | a portable root whose UUID name is refused |
| Utf8.TruncateUtf8 | crates/meshelf-net/src/destination.rs:127-136 | stepping back to a character boundary gives the longest prefix of whole characters within the budget |
| Utf8.TruncatedIsLongest | crates/meshelf-net/src/destination.rs:127-136 | no longer prefix fits |
| TextOffers.Preview | crates/meshelf-core/src/offer.rs:232-250 | the two loops compute the cut of the normalised text |
| TextOffers.JoinedByOneSpace | crates/meshelf-core/src/offer.rs:232-250 | two plain lines, with whatever line breaks between them, are normalised to the lines with one space between |
| TextOffers.PlainTextIsAppended | crates/meshelf-core/src/offer.rs:232-250 | text without controls is taken over as it is, whatever stands before it |
| TextOffers.BreaksBecomeOneSpace | crates/meshelf-core/src/offer.rs:232-250 | a run of line breaks gives one space, and none after a space |
| TextOffers.ControlsDoNotShow | crates/meshelf-core/src/offer.rs:232-250 | removing the controls that are no line breaks changes nothing |
| TextOffers.VisibleTextIsKept | crates/meshelf-core/src/offer.rs:232-250 | every visible character is kept, once and in order, and nothing visible is added |
| TextOffers.PreviewIsCleanLongestAndStable | crates/meshelf-core/src/offer.rs:232-250 | a preview has no control character, is the longest prefix of the normalised text within 256 bytes, and is its own preview |
| TextOffers.LinesAreCounted | crates/meshelf-core/src/offer.rs:214-216 | a line counts once, with or without its terminator, and an empty rest counts nothing |
| TextOffers.TextIsDescribedIffWithinBounds | crates/meshelf-core/src/offer.rs:95-280 | a text is described if and only if it is not empty and at most 1 MiB, by its length, its lines and its preview, and its stored source then validates |
| NativeClipboards.StepKeepsInnocence | crates/meshelf-platform/src/clipboard.rs:320-400 | in the native call's one transition function a definite answer comes only from points at which the clipboard is still unchanged |
| NativeClipboards.AnswersAreHonest | crates/meshelf-platform/src/clipboard.rs:243-303 | over every run of it a definite error left the clipboard as it was and a success placed what was asked for |
| NativeClipboards.TextAnswers | crates/meshelf-platform/src/clipboard.rs:320-371 | a text is placed exactly when write and read-back work and the worker lives to say so; everything else is uncertain |
| NativeClipboards.FilesAnswers | crates/meshelf-platform/src/clipboard.rs:380-400 | files are placed exactly when clear and list work; a failed clear is definite, a failed list after it is not |
| NativeClipboards.EmptyListAnswers | crates/meshelf-platform/src/clipboard.rs:380-400 | an empty list is refused without touching anything |
| NativeClipboards.QueueAnswers | crates/meshelf-platform/src/clipboard.rs:217-240 | a refusing queue is definite, a worker that stops with the command is uncertain |
| NativeClipboards.NativeClipboard.WriteText | crates/meshelf-platform/src/clipboard.rs:320-371 | `write_text_on_native` is a run of that function, and no failure of it is definite |
| NativeClipboards.NativeClipboard.WriteFiles | crates/meshelf-platform/src/clipboard.rs:380-400 | `write_files_on_native` is a run of it; an empty list changes nothing and is a definite error |
| NativeClipboards.Request | crates/meshelf-platform/src/clipboard.rs:217-303 | `set_text` and `set_files` are runs of it from the queue to the answer: refused at the queue is definite, and a worker that stops before, between or after its native calls is uncertain |

## Left out

- UnchangedTreeArrives: speaks of planned sources; a source whose chunks exceed 8 MiB of JSON text has no plan (`PlannableIffChunksFit`).
- UnchangedTreeArrivesByPath: what staged files hold before they are written, because preallocation promises no content.
- DefiniteFileFailureIsHarmless: does not cover two activations that are in their clipboard application at once, because both then share the one index slot.
- ClipboardFailedMeansUntouched: speaks of the run's own native call; other programs may write the clipboard at any time.
- FailureIsTold: says nothing of a run whose cleanup or whose report to the peer fails as well; `ExitTrichotomy` says what it leaves.
- CompletedSaveIsPublished: the name and the bytes in the user's folder are those of `Publication` and `Arrivals`; the activation machine only records that the payload of an activation is there.
- StagingArea.PrepareFolder: the creation of the staging root itself, preallocation and directory sync are faults only.
- ReservationLedger.Drop: releases nothing once the ledger's lock is poisoned, as in the source.
- TextArrives: the text branch of the receiver is modelled on values; its single exact read has no loop to keep.
- The store's own tables, migrations and transactions; it is a journal, two cache slots and flags here.
- Cards, attempts and shelf purging, which decide nothing in a transfer.
- The refusal and status frames before the header, and the sender's count of active streams.
- Discovery, pairing, connecting, Hello and control framing, signing and key storage.
- Error texts, `safe_detail`, and the byte counts inside failure messages sent to the user.
- Windows path spelling, reparse points, preallocation and syncing as operating-system calls; they are faults.
- The desktop, tray, Android and JNI front ends, and the repository's scripts.
