# Upload lifecycle, references, tags and filters of reva, verified in Dafny

The main subject is the upload coordinator in `pkg/upload`: the state machine that initiates
an upload, stages its bytes, verifies checksums, creates or touches the node, has the driver
prepare it (snapshot, metadata, processing flag, optimistic size propagation), and then
commits inline or hands the bytes to postprocessing, whose events finish, revert or discard
the upload later and possibly in another process. Nearly every call can fail, and each failure
has its own undo rule.

* `Lifecycle.dfy` defines the world that outlives a request (nodes with their versions and
  processing owner, blobs, used bytes, session files, a trace of driver calls and published
  events) and one transition `Next` per request or event. What the environment decides (which
  call fails, which id is minted, what a client sends) is a parameter, so a run is a list of
  steps and a theorem about all runs quantifies over all such lists, failures included.
* `Coordinator.dfy` is the coordinator in its own form: classes for the driver, the file store,
  the session in memory and the coordinator, with the source's branches and loops. Each method
  is proved to perform exactly the transition `Lifecycle` names for it.
* `Outcomes.dfy`, `Checksums.dfy` and `Scans.dfy` say what each request and event comes to in
  terms of what was asked and answered: when a finish succeeds, which error it reports, what it
  records, when a checksum is accepted, which antivirus result counts.
* `Guarantees.dfy` states the theorems over whole runs; they are proved in `Verdicts.dfy`,
  `Rollbacks.dfy`, `Integrity.dfy`, `StagedBytes.dfy`, `Quota.dfy`, `Committed.dfy`,
  `Contested.dfy`, `Continued.dfy`, `Lengths.dfy` and `Restarts.dfy`, with `Frames.dfy` and
  `Bystanders.dfy` saying what a step of one upload leaves alone of all others.
  `AllOrNothing.dfy` has failed finishes and the refinement of synchronous by asynchronous
  finishing, `Interleaved.dfy` both while other uploads go on, `Success.dfy` what a finish without failures achieves, `Retry.dfy` and
  `Backoff.dfy` the commit retries, `Staging.dfy` the staging file, `Revisions.dfy` how the
  driver files and restores versions, and `Limits.dfy` the exact conditions under which the
  guarantees hold.
* `References.dfy`, `Paths.dfy`, `Scalars.dfy` and `Decimal.dfy` print and parse ids,
  references, times and numbers; `MissingParent.dfy` is the ancestor walk; `Tags.dfy` (with
  `Lists.dfy`) the tag list; `Filters.dfy` the grouped share and link filters. `Text.dfy` and
  `Base.dfy` hold shared vocabulary.

The driver follows the contract on `storage.FS` (pkg/storage/storage.go:151-167) as
`pkg/storage/utils/decomposedfs/upload.go` implements it: the last upload to prepare a node owns
its flag, a rollback or unmark by any other session is inert, a commit writes the blob stored
under the session id and fails when the node is gone, and a failed prepare purges a node the
upload was to fill. A step is benign when a flag on a live node can be cleared, Persist and the
rollback after it do not both fail, and no session is finished a second time.

## Where code and comments differ

The model follows the code.

* pkg/upload/postprocessing.go:149-164 and 178-191 keep the bytes of a reverted upload so that
  it can be restarted. A restart republishes `BytesReceived` but prepares nothing, so continuing
  an aborted overwrite retires the session and announces success while the node keeps its old
  content (`Restarts.RestartLosesOverwrite`). An aborted new file cannot be committed any more
  (`Guarantees.RevertedNewFile`). `Limits.CommittedContent` says exactly when a commit shows.
* pkg/upload/coordinator.go:540-570 returns the last commit error. With the retry count at the
  largest int, `+ 1` wraps around, no commit is attempted and success is reported
  (`Retry.FinishAsyncCommits`, `Retry.OneNotice`).
* pkg/upload/coordinator.go:430-444 undoes a prepared node. When another upload was processing
  it, that upload's flag is gone afterwards and its own rollback becomes inert
  (`AllOrNothing.RestoresExactlyWhen`).
* pkg/upload/coordinator.go:380-382 flags a node so that clients do not read it before its bytes
  are committed. Neither the coordinator nor decomposedfs refuses to prepare a node that another
  upload is processing; then the flag is taken over, and a node nobody wrote can end up unflagged
  with its bytes charged (`Guarantees.ContestedRuns`; `Contested.LegibleExactlyWhen` and
  `Contested.BalancedExactlyWhen` have the exact conditions). Without such a finish the flag does
  what it is for (`Guarantees.UncontestedReads`, `Guarantees.UncontestedRuns`).
* pkg/upload/coordinator.go:252-258 compares the body of a PUT with the length of the request, not
  with the length declared at initiation, which is what the accounts use
  (`Lengths.PutOfAnotherLength`, `Guarantees.CompleteRuns`).
* pkg/storage/storage.go:161-166 calls RollbackUpload the inverse of PrepareUpload. decomposedfs
  restores the revision with the newest modification time, which clients set, and purges the node
  when it finds none; `Revisions.dfy` has the exact condition.
* pkg/storagespace/storagespace.go:94-99 documents the space id as the node id of a bare
  `<spaceid>`; the code leaves the node id empty.
* pkg/share/share.go:35-36 says `NoState` makes the matching ignore the share state; a state
  filter then matches nothing instead (`Filters.ShareMatchesFilters`).

## Model

| member | source | states |
|---|---|---|
| Guarantees.EveryRun | pkg/upload/postprocessing.go:84-201 | over every run from a storage without uploads in flight, whatever fails: an upload is committed at most once, announced ready without failure at most once and only if committed, its blob is there if and only if it was committed, and each commit carries the antivirus verdict saved last |
| Guarantees.EveryUploadAddressed | pkg/upload/session.go:228-276 | over every run, whatever other uploads do: as long as no finish of this upload fails both to persist and to roll back, each commit, rollback, unmark and event of it after a prepare addresses the prepared node, and rollbacks carry the difference PrepareUpload reported, across persists and reloads |
| Guarantees.EveryUploadReleased | pkg/upload/coordinator.go:431-459 | over every run, whatever other uploads do: as long as this upload's own steps are benign, its size change is released at most once |
| Guarantees.UncontestedReads | pkg/upload/coordinator.go:380-382 | over every run, whatever fails, in which no upload is finished over a node another upload is processing: the content of an unflagged node, and every older version of any node, was there at the start or has been committed |
| Guarantees.UncontestedRuns | pkg/upload/coordinator.go:383-459 | over benign runs of that kind, used bytes are the committed bytes (per node the newest version whose blob is there) plus the recorded differences of the sessions in flight |
| Guarantees.RevertedNewFile | pkg/upload/postprocessing.go:149-201 | over every run, whatever fails: once a new file has been taken back with its session kept, by an abort, an unknown outcome, exhausted retries or a clean-up with KeepUpload, its node never comes back and it is never committed, unless it is finished again |
| Guarantees.UncontestedContinue | pkg/upload/postprocessing.go:149-165 | in every state of a benign run without contested finishes: a Continue whose commit succeeds makes the node read as the upload if and only if the upload has not been released before, and otherwise leaves what the node reads as |
| Guarantees.ContestedRuns | pkg/upload/coordinator.go:431-459 | on any storage, with every call succeeding: two overwrites of one node are initiated and staged, the second deleted, the first terminated; no session is left and the used bytes are off the committed ones by what the first upload added |
| Guarantees.CompleteRuns | pkg/upload/coordinator.go:252-258 | over every run, whatever fails, in which finished uploads have received their declared length and nothing arrives after the prepare: every version whose blob is there accounts for exactly the bytes of the blob |
| Guarantees.BenignRuns | pkg/upload/coordinator.go:383-459 | over every benign run: used bytes equal the node sizes and equal the sizes one version back on flagged nodes plus the recorded differences of the sessions in flight; every flagged node has a stored session that can undo it |
| Guarantees.FaithfulRuns | pkg/upload/coordinator.go:492-526 | over every run that does not append to an accepted upload, each commit hands over exactly the accepted body, an accepted body is one whose digest is the announced one, and what is staged still matches the checksum of the session |
| Guarantees.ScansReachCommits | pkg/upload/postprocessing.go:107-133 | over every run, whatever fails: each commit of an upload, in whichever step, is handed description and seconds of the last antivirus result among the steps before it that reported no error, was for this storage or none, was persisted and met a stored session, or the empty verdict |
| Guarantees.FailuresAnnounced | pkg/upload/postprocessing.go:205-227 | in every state any run reaches: an outcome that commits nothing of a prepared upload is announced as failed, with owner, target, space and node of the session, whether it replaced a version, and the actor of the event |
| Outcomes.FinishSucceedsExactlyWhen | pkg/upload/coordinator.go:273-311 | a finish succeeds if and only if the bytes can be read and match the announced checksum, time and precondition are well-formed, the file to overwrite is there or the new one can be touched under an unused id, prepare and persist succeed, and in the end BytesReceived is delivered (postponed) or the commit succeeds (inline) |
| Outcomes.DeferredIsPublished | pkg/upload/coordinator.go:292-299 | after a deferred success the newest entry is a delivered BytesReceived of this upload, its node is flagged and its session stored with its bytes |
| Outcomes.UnpublishedFails | pkg/upload/coordinator.go:293-297 | a deferred finish whose event could not be published is an error that leaves nothing behind |
| Outcomes.FinishErrors | pkg/upload/coordinator.go:273-311 | which error a finish reports: the checksum error, a bad request for a malformed time or precondition, not found for a vanished target, the error of the driver otherwise |
| Outcomes.VanishedParent | pkg/upload/coordinator.go:345-398 | a new file whose parent is gone is a failed precondition, whether touching or preparing notices |
| Outcomes.TouchErrors | pkg/upload/coordinator.go:345-378 | other errors of touching are passed on, and an id already in use is refused |
| Outcomes.StageRecords | pkg/upload/coordinator.go:399-415 | the session records all three digests, the node, its space and owner as the driver reported them, and that a version was created exactly when the file existed |
| Outcomes.CommitOrder | pkg/upload/coordinator.go:575-610 | a commit is called with node, staged bytes, declared length and verdict; only on success the flag is cleared, then the file announced with owner, target, space, node, version and executant of the session |
| Outcomes.UnmarkExactly | pkg/storage/utils/decomposedfs/upload.go:45-82 | clearing a flag touches only the node named, only if it is flagged for this session, and is reported as done exactly when the node is there |
| Outcomes.InlineAnnounces | pkg/upload/coordinator.go:637-660 | an inline finish announces the staged node with whether it replaced a version |
| Outcomes.EmptyUploadPublishes | pkg/upload/coordinator.go:121-126 | initiating a zero-length upload makes the node read as the empty file, unflagged, and leaves no session |
| Outcomes.EmptyUploadFails | pkg/upload/coordinator.go:121-126 | and if any call fails nothing is left of it, up to what a failed rollback leaves |
| Outcomes.InitiateWaits | pkg/upload/coordinator.go:102-134 | any other upload is registered with no bytes, and nothing else happens |
| Outcomes.PutExactly | pkg/upload/coordinator.go:217-263 | a PUT is refused once bytes have arrived, keeps the bytes of a short body without finishing, and finishes a whole one |
| Outcomes.AppendExactly | pkg/upload/session.go:100-113 | a chunk goes behind the bytes of its session and changes nothing else |
| Outcomes.DeclareLengthExactly | pkg/upload/tus_adapter.go:87-91 | the declared length changes if and only if it could be persisted |
| Outcomes.OtherStorage | pkg/upload/postprocessing.go:70-92 | outcomes and antivirus results that name another storage than the mount change nothing |
| Outcomes.ThisStorage | pkg/upload/postprocessing.go:70-92 | outcomes that name the mount or nothing, or reach a coordinator without a mount, are handled if the session is stored |
| Outcomes.RestartPublishes | pkg/upload/postprocessing.go:178-191 | a restart publishes BytesReceived for the node of the session exactly once more and changes nothing |
| Checksums.AnnouncedDigest | pkg/upload/coordinator.go:500-519 | for sha1, md5 and adler32: an announced digest is accepted if and only if it is that of the body, and otherwise a mismatch |
| Checksums.AnnouncedNonsense | pkg/upload/coordinator.go:500-519 | any other text is a bad request |
| Checksums.AcceptedExactlyWhen | pkg/upload/coordinator.go:492-526 | a body passes if and only if nothing was announced or the text is one of the three names followed by its digest |
| Scans.StepFinishedSaves | pkg/upload/postprocessing.go:107-133 | an antivirus result is saved with the session if and only if it reports no error, is for this storage or none, can be persisted and meets a stored session |
| Scans.CommitsCarryLastResult | pkg/upload/coordinator.go:582-590 | the invariant behind the verdict of a commit, read off the list of steps |
| Guarantees.FailedFinishInAnyRun | pkg/upload/coordinator.go:273-311 | in every state any run reaches, an error from a finish on a target no other upload is processing leaves nodes, blobs and used bytes as before and the session gone; only the flag of an overwritten node stays if it could not be cleared, and only a failed rollback keeps the session, which still knows how to undo the upload if it could be persisted |
| Quota.NextKeeps | pkg/upload/postprocessing.go:84-176 | every benign request and event keeps used bytes equal to what the nodes account for, with every flagged node backed by a stored session that addresses it and recorded its size change |
| Quota.Conservation | pkg/upload/coordinator.go:383-444 | the same over whole runs |
| Committed.CommittedPlusOutstanding | pkg/upload/coordinator.go:399-414 | used bytes are the committed bytes plus the persisted size difference of each session whose node is still flagged for it, over benign runs without contested finishes |
| Committed.ReadsAreCommitted | pkg/upload/coordinator.go:380-382 | over uncontested runs every unflagged node and every older version has its blob, and a flagged node without one is its owner's upload; with flags that can be cleared, a flagged node always is |
| Contested.LegibleExactlyWhen | pkg/storage/utils/decomposedfs/upload.go:323-385 | staging an overwrite keeps every version readable if and only if no other upload is processing the node |
| Contested.BalancedExactlyWhen | pkg/storage/utils/decomposedfs/upload.go:365-404 | staging an overwrite keeps used bytes at committed plus outstanding if and only if no other upload is processing the node, or the one that is has not changed its size |
| Contested.ContestedRun | pkg/upload/coordinator.go:431-459 | two uploads staged over the same node, the second deleted and the first terminated, all steps benign: both sessions are gone, the used bytes hold the first upload, and the unflagged node points at a blob nobody wrote |
| Contested.ContestedCharge | pkg/upload/coordinator.go:431-459 | after that run the used bytes exceed committed plus outstanding by exactly the growth of the first upload |
| Contested.RivalsArise | pkg/upload/coordinator.go:102-134 | two uploads initiated over one existing node reach the state that run starts from |
| Quota.SettledPlusOutstanding | pkg/upload/session.go:264-276 | flagged nodes and owning sessions pair up, so the sum over nodes and the sum over sessions see the same differences |
| Quota.FinishKeeps | pkg/upload/coordinator.go:273-311 | a first finish keeps the accounts for every combination of failures but Persist together with its rollback |
| AllOrNothing.FinishAllOrNothing | pkg/upload/coordinator.go:273-311 | a finish that reports an error leaves nodes, blobs and used bytes as before and the session gone; an overwritten node whose flag could not be cleared differs in the flag alone; when the rollback itself failed the session is kept with its bytes and, if it was persisted, undoing it would give the state before |
| AllOrNothing.FirstRollbackRestores | pkg/storage/storage.go:161-166 | with nothing else in between: however often the rollback of a kept session fails, the first Terminate, Delete or CleanUpload whose rollback succeeds brings back the whole state before the upload |
| Interleaved.FirstRollbackRestores | pkg/storage/storage.go:161-166 | the same with any steps of other uploads in between that are not finished over the node, and any events of the upload itself that neither commit nor roll back: the node is restored and exactly the size change of the upload released |
| AllOrNothing.RestoresExactlyWhen | pkg/upload/coordinator.go:430-444 | with rollbacks working, failed finishes restore the state for all failures if and only if no other upload is processing the target and a new file's node is not there yet, or the upload is refused before the driver is called |
| AllOrNothing.AsyncRefinesSync | pkg/upload/coordinator.go:292-310 | staging, reloading the session and a Continue whose commit eventually succeeds end in the same nodes, blobs, used bytes and session store, with the same UploadReady payload, as the inline finish of the same upload |
| Interleaved.AsyncRefinesSync | pkg/upload/coordinator.go:292-310 | the same with such steps in between: node, blob and announcement end as in the inline finish, nothing more is charged, and what the other uploads did stays |
| AllOrNothing.StagedAllOrNothing | pkg/upload/postprocessing.go:138-176 | an asynchronously finished upload that is aborted, deleted, given an unknown outcome or whose commits all fail leaves nodes, blobs and used bytes as before it was finished, up to the flag of an overwritten node that could not be cleared; its bytes stay unless it was deleted |
| Interleaved.StagedAllOrNothing | pkg/upload/postprocessing.go:138-176 | the same with such steps in between: the node is as before the finish, and exactly what the finish charged is released |
| Bystanders.NextLeaves | pkg/upload/coordinator.go:383-444 | a step of another upload, whatever fails, leaves a flagged node alone unless it finishes over it |
| Success.FinishPublishes | pkg/upload/coordinator.go:531-610 | an inline finish without failures makes the node read as the received body under the declared size, keeps the replaced content as newest version, changes no other node, charges exactly the growth and retires the session |
| Success.StageSucceeds | pkg/upload/coordinator.go:345-415 | touch and prepare without failures flag the right node for the session, snapshot the previous version, propagate the growth and record that difference in the session |
| Verdicts.OneVerdict | pkg/upload/coordinator.go:575-610 | invariant over every run: stored sessions are uncommitted and unannounced and hold the verdict saved last; commits and announcements are at most one per upload |
| Verdicts.TrailCounts | pkg/upload/coordinator.go:582-609 | a successful commit counts once, is announced once if there is a publisher, and carries the saved verdict; a failed one announces nothing |
| Retry.OneNotice | pkg/upload/postprocessing.go:138-176 | with a publisher, each outcome handled for a stored session attempts exactly one UploadReady, failed false exactly when the bytes were committed in that step; the one exception is a Continue with no attempt left by the retry count, where nothing happens |
| Retry.FinishAsyncCommits | pkg/upload/coordinator.go:543-570 | for a retry count of at least 0 whose successor is an int: at most that many retries, success exactly when a commit succeeded, which is exactly when the node exists and some attempt succeeds; for any other count, success without a driver call |
| Retry.ConfiguredAttempts | pkg/upload/asyncconf.go:43-50 | configured coordinators attempt at least twice, unless the largest int was configured |
| Retry.ConfiguredSettings | pkg/upload/asyncconf.go:43-50 | settings that are not positive become three retries and five seconds, others are taken as they are |
| Backoff.WaitIsCappedDoubling | pkg/upload/coordinator.go:543-568 | for a non-negative base the k-th wait is the base doubled k times, capped at two minutes, and no doubling overflows 64 bits |
| Rollbacks.ReleasedOnce | pkg/upload/coordinator.go:431-459 | invariant behind it: a node flagged for the upload or a session not yet prepared has not been released; steps of other uploads keep it whatever fails, the upload's own if benign |
| Rollbacks.AddressedNode | pkg/upload/session.go:228-276 | invariant behind it: the stored record of the upload is what PrepareUpload last reported for it, second finishes and failed unmarks included |
| Frames.NextLocal | pkg/upload/postprocessing.go:84-201 | every step, whatever fails, leaves the files of all other sessions alone, adds only entries about its own upload, forgets no id, and gives no other upload a flag |
| StagedBytes.NoLostBytes | pkg/upload/postprocessing.go:84-201 | over any run that neither appends to an upload nor finishes it again, its session is still there with its bytes at the end if and only if no step committed it successfully or rolled it back successfully under Delete, CleanUpload without KeepUpload, or Terminate |
| StagedBytes.StepFate | pkg/upload/postprocessing.go:95-106 | one step: the session goes exactly when the step lets it go, and otherwise keeps its bytes |
| Integrity.EndToEnd | pkg/upload/coordinator.go:492-526 | invariant behind faithful commits: stored bytes of an accepted upload are the accepted ones and match the checksum of the session, digest for digest |
| Integrity.StageVerifies | pkg/upload/coordinator.go:492-526 | a finish that is not refused has first verified the staged bytes against the checksum of the session |
| Staging.OnlyGrows | pkg/upload/session.go:100-113 | over any sequence of the writes, concatenations and reloads that WriteChunk, TusConcat and Get perform, failed ones included, staged bytes grow by the supplied data in order, the offset never exceeds them and a reload makes them equal |
| Staging.OneGrows | pkg/upload/session.go:100-113 | an incomplete write appends its bytes but leaves the offset, a complete one moves it by their number, a concatenation leaves it, and only a reload catches up |
| Staging.EchoRepeats | pkg/upload/tus_adapter.go:101-116 | an upload that lists itself repeats its own bytes for as long as the copying goes on |
| Staging.CopiedIsPrefix | pkg/upload/tus_adapter.go:101-116 | of a partial that cannot be read to its end exactly the readable beginning is appended |
| Staging.AllWholeMeans | pkg/upload/tus_adapter.go:101-116 | a concatenation reports success if and only if every partial could be read to its end |
| Limits.PrepareBalances | pkg/storage/utils/decomposedfs/upload.go:365-404 | preparing keeps used bytes balanced if and only if the node existed, is new, or had size zero, so a new file finished twice is charged twice |
| Limits.UndoBalances | pkg/storage/utils/decomposedfs/upload.go:445-486 | a rollback keeps used bytes balanced if and only if it is handed the node's own difference |
| Limits.PersistOrRollback | pkg/upload/coordinator.go:399-414 | after a successful PrepareUpload the accounts stand if and only if Persist or the rollback after it succeeds |
| Limits.ReleasedTwiceWhen | pkg/upload/coordinator.go:431-459 | two rollbacks of an overwrite release its size twice exactly when the flag could not be cleared in between |
| Limits.CommittedContent | pkg/storage/utils/decomposedfs/upload.go:87-132 | a successful commit makes the node read as the upload if and only if the node still points at this upload, or read so before |
| Continued.RetainedRun | pkg/upload/coordinator.go:431-459 | over benign runs without contested finishes, a prepared upload that has not been released still has its node |
| Lengths.MeasuredRun | pkg/upload/coordinator.go:252-258 | invariant behind it: a version accounts for the bytes its blob has, or will have once its upload is committed |
| Lengths.PutOfAnotherLength | pkg/upload/coordinator.go:252-263 | a PUT as long as its request says is finished whatever length was declared: the node reads as the body and accounts for the declared length, which agree if and only if the body has that length |
| Restarts.RestartLosesOverwrite | pkg/upload/postprocessing.go:178-201 | abort, restart and a successful Continue of an overwrite retire the session and announce success while the node has its previous content |
| Restarts.RestartKeepsNewFile | pkg/upload/postprocessing.go:149-201 | after a new file has been taken back with its session kept, over any run that does not finish it again, its node stays away and no restart or Continue commits it |
| Restarts.SoleRun | pkg/upload/coordinator.go:345-378 | over every run no two sessions for new files are about the same node |
| Restarts.LabelledRun | pkg/upload/session.go:228-276 | over every run a prepared session knows whether its upload replaced a version |
| Revisions.RevertRestoresVersion | pkg/storage/utils/decomposedfs/node/node.go:1412-1481 | reverting an overwrite restores the version it replaced if and only if that version's time can be read from its name and no readable revision is newer |
| Revisions.RevertRestoresFile | pkg/storage/utils/decomposedfs/upload.go:323-365 | it restores the revisions too if and only if, besides, no revision had the same time before |
| Revisions.RevertPurges | pkg/storage/utils/decomposedfs/node/node.go:1412-1425 | it purges the existing file if and only if neither the replaced version nor any revision has a time that can be read from its name |
| Revisions.LastDatable | pkg/storage/utils/decomposedfs/node/node.go:1455-1481 | readable times lie after the start of year 1 and before the start of year 10000 |
| Revisions.RevertPicksTheWrongOne | pkg/storage/utils/decomposedfs/node/node.go:1455-1481 | content dated 50 over a revision dated 100 comes back as that revision |
| Revisions.PopsExactlyWhen | pkg/storage/utils/decomposedfs/node/node.go:1455-1481 | for every history a revert takes back what was filed last if and only if that is the newest revision the search can find and did not take the slot of another |
| Revisions.PrepareShown | pkg/storage/utils/decomposedfs/upload.go:323-385 | preparing the lifecycle's node is the driver's overwrite of the file |
| Revisions.RollbackShown | pkg/storage/utils/decomposedfs/upload.go:445-486 | the lifecycle's rollback of a node is the driver's revert if and only if what was filed last is the newest revision and did not take the slot of another |
| Revisions.RevisionStore.LatestRevision | pkg/storage/utils/decomposedfs/node/node.go:1455-1481 | the loop finds the newest readable time in any listing order, or nothing exactly when there is none |
| Revisions.RevisionStore.Revert | pkg/storage/utils/decomposedfs/node/node.go:1412-1452 | the newest revision becomes current and its slot is freed, or the file is purged |
| Revisions.RevisionStore.Snapshot | pkg/storage/utils/decomposedfs/upload.go:323-365 | the current version is filed under its time, unless that slot holds other content; the blob of a revision that gives way is deleted |
| Revisions.DeletesNeededBlob | pkg/storage/utils/decomposedfs/upload.go:329-343 | a deleted blob is still needed if and only if the revision that gave way shared it with another version |
| Coordinator.UploadCoordinator.FinishUpload | pkg/upload/coordinator.go:273-311 | finishUpload performs the specified transition and reports its error |
| Coordinator.UploadCoordinator.VerifyAndStoreChecksums | pkg/upload/coordinator.go:492-526 | succeeds if and only if the staged bytes can be read and match the announced digest; malformed and unsupported texts and mismatches have their errors, and all three sums are stored |
| Coordinator.UploadCoordinator.TouchFile | pkg/upload/coordinator.go:345-378 | a new file's node is created and its id replaces the placeholder; a failure discards the session, a vanished parent is a failed precondition |
| Coordinator.UploadCoordinator.PrepareSession | pkg/upload/coordinator.go:383-415 | prepare persists what the driver reported, or rolls it back |
| Coordinator.UploadCoordinator.HandOverSession | pkg/upload/coordinator.go:292-310 | publish and keep everything, or commit and undo on failure |
| Coordinator.UploadCoordinator.CommitSession | pkg/upload/coordinator.go:575-610 | one commit attempt; success unmarks, retires and announces |
| Coordinator.UploadCoordinator.CommitWithRetry | pkg/upload/coordinator.go:543-570 | the retry loop performs the specified attempts and waits the specified backoffs between them: all of them when it fails, and as many as attempts preceded the one that succeeded |
| Coordinator.UploadCoordinator.RollbackPrepared | pkg/upload/coordinator.go:431-444 | rollback, then unmark and discard; a failed rollback keeps the session |
| Coordinator.UploadCoordinator.RollbackNode | pkg/upload/postprocessing.go:194-201 | rollback, then unmark; the session is kept |
| Coordinator.UploadCoordinator.InitiateUpload | pkg/upload/coordinator.go:102-134 | succeeds if and only if the session could be registered and, for a zero-length upload, finished on the spot, with its session gone then; the two Persist calls answer independently |
| Coordinator.UploadCoordinator.Upload | pkg/upload/coordinator.go:217-269 | a PUT is refused when bytes have arrived, reports a short body, and otherwise succeeds if and only if the finish does |
| Coordinator.UploadCoordinator.StartPostprocessing | pkg/upload/postprocessing.go:43-63 | asynchronous mode starts only with a publisher and a subscription, and otherwise nothing changes |
| Coordinator.UploadCoordinator.OnPostprocessingFinished | pkg/upload/postprocessing.go:138-176 | the outcome of this storage's uploads is handled as specified; one that names another storage than the mount changes nothing |
| Coordinator.UploadCoordinator.HandleOutcome | pkg/upload/postprocessing.go:149-176 | continue commits with retries and reverts when they are exhausted, delete discards, abort and anything unknown revert, and every failure is announced |
| Coordinator.UploadCoordinator.OnRestartPostprocessing | pkg/upload/postprocessing.go:180-190 | a restart only republishes BytesReceived |
| Coordinator.UploadCoordinator.OnCleanUpload | pkg/upload/postprocessing.go:95-106 | clean-up discards the upload, or reverts its node when it is to be kept |
| Coordinator.UploadCoordinator.OnStepFinished | pkg/upload/postprocessing.go:107-133 | only an error-free antivirus result is recorded, and only if it could be persisted; one with an error changes nothing |
| Coordinator.UploadCoordinator.TusTerminate | pkg/upload/tus_adapter.go:68-84 | roll back, unmark, clean up; a refused rollback is reported and keeps the session |
| Coordinator.UploadCoordinator.TusFinish | pkg/upload/tus_adapter.go:37-64 | finishing over tus succeeds if and only if the session is there and its finish succeeds |
| Coordinator.UploadCoordinator.TusDeclareLength | pkg/upload/tus_adapter.go:87-91 | the declared length is persisted with the session |
| Coordinator.UploadCoordinator.TusWriteChunk | pkg/upload/tus_adapter.go:32-34 | a chunk is appended to the staged bytes of the session |
| Coordinator.UploadCoordinator.TusConcat | pkg/upload/tus_adapter.go:94-117 | the partials are appended in order, up to and including the first that cannot be read, an upload that lists itself included; success means all of them; the world changes as by appending these bytes |
| Coordinator.FileSession.WriteChunk | pkg/upload/session.go:100-113 | the staging file changes by one write: what was read is appended even if the reader fails, the offset then stays, and it never exceeds the staged bytes |
| Coordinator.FileSession.AppendPartials | pkg/upload/tus_adapter.go:101-116 | the loop of the concatenation appends exactly the copied parts |
| Coordinator.FileStore.Get | pkg/upload/filestore.go:154-185 | the persisted record, the staging file reloaded: the offset is recovered from the staged bytes |
| Coordinator.Driver.PrepareUpload | pkg/storage/utils/decomposedfs/upload.go:137-413 | prepares completely, or leaves the driver as it was with a node to be filled purged |
| Coordinator.Driver.Rollback | pkg/storage/storage.go:161-166 | reverts node and used bytes, as the inverse of PrepareUpload, only while the node is flagged for this session |
| Coordinator.Driver.MarkProcessing | pkg/storage/utils/decomposedfs/upload.go:45-82 | clears the flag only for the session that owns it |
| Coordinator.Driver.CommitUpload | pkg/storage/utils/decomposedfs/upload.go:87-132 | writes the blob under the session id, or cleans it up and fails |
| References.IdRoundTrip | pkg/storagespace/storagespace.go:48-107 | parsing undoes printing of an id if and only if the storage has no "$", the space no "!", space and node no "$" when the storage is empty, and not all parts are empty |
| References.ReparseExactlyWhen | pkg/storagespace/storagespace.go:48-107 | printing a parsed id and parsing again gives the id back if and only if the text is not "!", and where it starts with "$" the remainder is non-empty, not "!" and without "$" |
| References.TextRoundTrip | pkg/storagespace/storagespace.go:48-107 | the text itself comes back if and only if it does not start with "$" and does not end in an empty node |
| References.ReferenceRoundTrip | pkg/storagespace/storagespace.go:111-145 | parsing undoes printing of a reference for every printable id with a space whose text has no "/" and is not ".", and every relative path |
| References.ParseReferenceMeans | pkg/storagespace/storagespace.go:111-131 | what precedes the first slash is the id, what follows it the path made relative |
| References.UnprintableExactlyWhen | pkg/storagespace/storagespace.go:139-145 | a reference is refused if and only if its id has no space |
| References.ReferenceRoundTripExactlyWhen | pkg/storagespace/storagespace.go:111-145 | and for no other id with a space does it do so for all paths |
| Paths.MakeRelativeNormalises | pkg/utils/utils.go:329-336 | the result starts with ".", has no empty, "." or ".." segment behind it, leads where the path leads from the root, is idempotent, and equals the path if and only if that is canonical already |
| Paths.WalkLaws | pkg/utils/utils.go:329-336 | a name goes down, ".." goes back up, "" and "." stay, and the root has no parent |
| Paths.WalkInParts | pkg/utils/utils.go:329-336 | walking a path is walking its parts one after the other |
| Scalars.MTimeRoundTrip | pkg/utils/utils.go:195-210 | every time reads back from its "seconds.nanoseconds" text, negative seconds included |
| Scalars.MTimeMeans | pkg/utils/utils.go:195-210 | seconds alone are a time, and nanoseconds outside a second carry |
| Scalars.MTimeMalformed | pkg/utils/utils.go:195-210 | a text is a time if and only if what precedes its first dot, and what follows it if there is one, are numbers |
| Scalars.UnixKeepsInstant | pkg/utils/utils.go:195-210 | carrying keeps the instant |
| Decimal.ParseFormat | pkg/upload/session.go:264-276 | decimal text reads back exactly for every int64, and clamped with an error beyond |
| Decimal.ParseExactlyWhen | pkg/upload/session.go:264-276 | a number has digits and nothing but digits behind an optional sign; any other text counts as zero |
| Decimal.ParsePadded | pkg/upload/session.go:264-276 | a plus sign and leading zeros change nothing |
| MissingParent.MissingParentError | pkg/upload/coordinator.go:868-879 | the walk ends, and reports a missing directory if and only if some proper ancestor is visible |
| MissingParent.DescribeNew | pkg/upload/coordinator.go:838-865 | a new file is accepted if and only if its directory is found and may be uploaded to; a directory not found counts as missing if and only if an ancestor is visible, for every path |
| MissingParent.DirGoesUp | pkg/upload/coordinator.go:872-873 | filepath.Dir of a cleaned directory drops exactly its last segment |
| Tags.ListRoundTrip | pkg/tags/tags.go:45-93 | a valid list written out and read in again is the same list |
| Tags.NormalizeYieldsTags | pkg/tags/tags.go:131-144 | whatever comes in, only non-empty trimmed pieces without separator go on |
| Tags.CommaSeparates | pkg/tags/tags.go:131-144 | a text with commas counts as its parts given one by one |
| Tags.TrimCutsSpaces | pkg/tags/tags.go:131-144 | trimming cuts off spaces at both ends and nothing else |
| Tags.TagList.constructor | pkg/tags/tags.go:45-49 | the list is the first hundred distinct tags in order |
| Tags.TagList.NormalizeAll | pkg/tags/tags.go:131-144 | the nested loops compute the normalised pieces in order |
| Tags.TagList.AddTags | pkg/tags/tags.go:102-127 | as many of the new tags as there is room for go in front in the given order, empty ones skipped, the old order is kept, the list stays without duplicates, equal to the keys of the index and within its bound |
| Tags.TagList.Add | pkg/tags/tags.go:52-54 | true exactly when a new tag found room; the room used counts all tags ever added |
| Tags.TagList.AddValidated | pkg/tags/tags.go:58-65 | nothing is added unless the validator accepts all of it; otherwise as Add |
| Tags.TagList.Remove | pkg/tags/tags.go:68-88 | the named tags go, the others keep their order, and no room is given back |
| Tags.TagList.AsList | pkg/tags/tags.go:91-93 | a new list made from the text is this list |
| Filters.MatchesFilters | pkg/share/share.go:194-205 | whatever the order the groups are visited in: true if and only if for each filter type present some filter of that type matches |
| Filters.GroupFiltersByType | pkg/share/share.go:226-232 | exactly the types present, each with its filters in order |
| Filters.FilterFiltersByType | pkg/share/share.go:237-239 | the filters of the type in order, none exactly when there is none |
| Filters.MatchesAnyFilter | pkg/share/share.go:182-189 | true exactly when some filter matches |
| Filters.ShareMatchesFilters | pkg/share/share.go:161-223 | true if and only if for each filter the one of its type that names the share's own resource, grantee, space or state is among the filters, no filter is of an unknown type, and with denials excluded the share grants something |
| Filters.LinkMatchesFilters | pkg/publicshare/publicshare.go:140-176 | the same for public links, their resource and their storage |
| Filters.SameFilters | pkg/share/share.go:190-193 | order and duplicates of filters do not matter |
| Filters.OneMore | pkg/share/share.go:190-193 | one more filter of a present type can only widen the result, one of a new type narrows it to what it matches |

## Left out

- Resolving the upload target, the quota check at initiation, locks, permissions and request metadata (pkg/upload/coordinator.go:138-212 and 679-834): an upload starts from its resolved record.
- Legacy chunked uploads (pkg/upload/coordinator.go:230-249): chunk assembly is not part of this model.
- Interleaving inside a request or handler: each is one step, as the source holds no lock per upload across them.
- Failures to remove session files, which the source only logs: Cleanup removes both files. A session that cannot be loaded is a step that does nothing.
- Cancellation of the context and real timers: the waits of the retry loop are a list of durations.
- Driver details of decomposedfs: its preconditions, locks and quota check are ways a prepare may fail; versioning is on; every version replaced is kept, where a revision with the same time would give way (`Revisions.dfy`); a propagation that fails during a rollback, which the driver only logs, succeeds; nodes with unreadable metadata do not occur.
- Digests, signing and JSON: digests are a function parameter, and a persisted session record is read back unchanged.
- Dates of antivirus results are kept to the second, as RFC 3339 section 5.6 text without a fraction holds them; the calendar text itself is not modelled.
- Declared lengths are integers of at most 62 bits plus sign, so that a difference of two is an int64.
- Metrics, log output, resource info for response headers, the callback after a PUT, the HTTP status a tus error maps to, impersonating users, and listing sessions.
- User types as text and the upgrade of legacy resource ids: finite tables and a single branch.
- Coordinator.Driver.Rollback: restores the snapshot taken last, as the contract on storage.FS promises; decomposedfs restores the revision with the newest modification time, and Revisions.RollbackShown says exactly when the two agree.
- Revisions.RevisionStore.Snapshot: deleting the blob of a revision that gives way always works.
- Coordinator.UploadCoordinator.TusConcat: an upload that lists itself and has bytes copies until an error stops it; that no error comes is not modelled.
- Filters.ShareMatchesFilters: a share without a resource id is not matched against a space filter, on which the source dereferences the missing id.
- Tags.TagList.AddTags: it is handed tags and empty texts, as its callers do; other text would not be a tag afterwards either.
