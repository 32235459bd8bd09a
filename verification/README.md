# Verified model of the wefty node agent

This project models, in Dafny, the parts of the node agent (`agent/`, with the policy
evaluation it shares from `l1/`) that decide what happens to data nobody else holds
and to authority somebody may be exercising: retained run results, Computer policy and
control, and durable evidence.

The model takes the form of the code it describes. Objects that update their own
fields (the tree walk, the policy cache, the recovery loop, the authority watch, the
capability state) are classes whose methods are proved to keep an invariant. Protocols
that run across several goroutines (publication, path leases, the passes that remove
results, control tenure, the relay, the upgrade fence) are state machines with one step for each
critical section, and their results hold in every run. Pure code is functions.
Everything outside (the filesystem, clocks, L1, the OCI helper) answers as it likes:
its answers are parameters, or functions of the instant it is asked at.

| module | what it models |
|---|---|
| `HandoffTally`, `HandoffWorld`, `HandoffConservation`, `HandoffTrace`, `HandoffFrames`, `HandoffWalk`, `NodeAccounting` | measuring retained results with a handle-bounded walk |
| `ResultUpload`, `Publication`, `OciPublication` | whether everything a handoff holds has reached the ledger |
| `NodeBudget`, `NodeEviction` | giving results up to fit the node's budget |
| `Sweep`, `PathLeases`, `RecordNames` | expiry and the budget's removals against reruns, the lease registry, record file names |
| `PolicyEvaluation`, `PolicyCache`, `PolicyAcks` | Computer policy, revocation and drain acknowledgements |
| `Tenure`, `Relay` | who drives a Computer, and its byte relay |
| `Completion`, `Recovery`, `Backoff` | delivering durable evidence |
| `Watchdog`, `Capabilities` | local lease authority across suspends, and what a node may claim |

`dafny verify dfyconfig.toml` checks the whole project.

## Where the code falls short of a property

Each of these keeps the code as it is, shows a failing case, and states the exact
condition under which the property holds.

- **An unpublished result only when nothing published remains.** `measureNode` drops a
  run whose `Lstat` fails with anything but not-exist, and does not mark the figures
  incomplete. The budget then cannot see a published run it should give up first
  (`NodeBudget.AFailedLookHidesAPublishedRun`). The choice is right exactly when every
  published run's look answered not-exist
  (`NodeBudget.OnlyCopyIsSafeExactlyWhenEveryLookAnswered`).
- **Measured again before the next result is given up.** A removal that deletes results
  and then fails, on the record file for one, counts as unavailable, and the walk goes on
  to the next candidate on the same figures. One walk can delete any number of only
  copies that way (`NodeEviction.UncountedDeletionsPassEveryBound`). Every deletion rests
  on fresh figures exactly when no walk deleted more than one result
  (`NodeEviction.DeletionsAreFreshExactlyWhenNoWalkDeletedTwice`), as when removals say
  what they did (`NodeEviction.HonestRemovalsDeleteOnlyWhatIsCounted`).
- **An acknowledgement only after its sessions closed.** When the same snapshot is
  installed again while a delivery is failing, the retry replaces the newer receipt
  (`PolicyAcks.RetryCanOvertakeAReinstall`). The two must have the same digest, which
  covers the time of issue, so L1 must have issued both at one instant. A retry is
  safe exactly when the acknowledgement is not pending again or what it waits for is
  released (`PolicyAcks.RetrySpeaksForEveryInstallExactlyWhen`). The heartbeat and the
  policy watch install and submit on their own, so submissions can also arrive in the
  other order (`PolicyAcks.SubmissionsCanOvertake`); one is safe exactly when no newer
  waiting install of the same snapshot was handed over first
  (`PolicyAcks.StepIsHonestExactlyWhenGuarded`). Every run that keeps to both is
  truthful (`PolicyAcks.SelectionsAreTruthful`), and in every run at all a selected
  acknowledgement is settled by some install of its own
  (`PolicyAcks.EverySelectionIsSettled`).
- **No waiting receipt thrown away.** A selection drops the receipts of its own revision
  too. A second snapshot of that revision, with another digest, may still wait for a
  session (`PolicyAcks.SelectionCanForgetAReceipt`). Nothing that waits is dropped
  exactly when every receipt of the revision is released
  (`PolicyAcks.SelectionForgetsNothingExactlyWhen`).
- **Free only after a clear.** A set-true answered with an error frees the tenure with
  no clear (`Tenure.AFailedSetTrueLeavesTheSignal`), and nothing else does
  (`Tenure.OnlyAFailedSetTrueSkipsTheClear`).
- **No access gained within a revision.** The comparison of two snapshots of one revision
  ignores the issuing Fabric (`PolicyCache.MovedFabricRaisesAccess`) and Computers the
  older one does not list (`PolicyCache.NewComputerRaisesAccess`); compared installs raise
  exactly those two kinds of people
  (`PolicyEvaluation.SameRevisionRaisesExactly`). Nothing is compared once the cache has
  closed without a device requirement (`PolicyCache.ClosedCacheRaisesAccess`); such an
  install raises exactly the newly named
  (`PolicyEvaluation.RaisesExactlyTheNewlyNamed`).
- **The recovery timer is later than its pass.** It is, exactly when the retry interval
  is positive or the spool scan did not fail (`Recovery.RecoveryLoop.LaunchPending`);
  the agent configures a positive interval.
- **One run ID, one file name.** As functions, the empty ID and the literal `run` share a
  name and no other pair does (`RecordNames.NamesCollideOnlyOnTheEmptyId`). The agent
  never names a record for an empty ID, so no two records meet.

## Model

| member | source | states |
|---|---|---|
| `HandoffTally.OrderDoesNotMatter` | agent/handoff_accounting.go:82-89 | Counting the same entries in any order, from any tally, gives the same entries, logical bytes, charged bytes and remembered identities, provided equal inodes report equal sizes. |
| `HandoffTally.LinkedBytesChargedOnce` | agent/handoff_accounting.go:635-648 | Closed form of a whole count: entries are the number of entries, every name pays the 4096-byte floor, unlinked files pay their size, and each hard-linked inode not seen before pays its size exactly once, whatever the order and number of its names. |
| `HandoffTally.PartialIsNoMore` | agent/handoff_accounting.go:82-89 | Counting part of a collection of entries never gives more of anything than counting all of it, identities included. |
| `HandoffTally.CountingOnlyAdds` | agent/handoff_accounting.go:82-89 | No figure of a tally ever goes down. |
| `HandoffWorld.SortNamesSorts` | agent/handoff_accounting.go:597-631 | Children are visited in name order, each listed name exactly as often as listed. |
| `HandoffWorld.VisitOrderIgnoresListingOrder` | agent/handoff_accounting.go:597-631 | Whatever order the filesystem lists a directory in, the walk visits it in the same order. |
| `HandoffWorld.RecursiveSumCountsBelow` | agent/handoff_accounting.go:247-260 | The plain recursive sum over a finite tree counts every entry beneath the directory once and nothing else. |
| `HandoffConservation.ReadingConserves` | agent/handoff_accounting.go:341-379 | Reading a directory turns everything beneath it into what was counted now plus what its subdirectories still owe: nothing is lost and nothing is owed twice. |
| `HandoffWalk.HandoffWalk.OpenDirectory` | agent/handoff_accounting.go:518-534 | Every open, first visit or re-open, is refused exactly when the pass is cancelled or its budget spent; any other spends exactly one open and is recorded with its answer, and a success puts exactly that handle in hand. |
| `HandoffWalk.HandoffWalk.CloseHandle` | agent/handoff_accounting.go:536-540 | Closing takes exactly that handle off the open ones and is recorded, whether or not the close reports a failure. |
| `HandoffTrace.PeakCoversEveryMoment` | agent/handoff_accounting.go:514-540 | At no moment of a recorded walk, not only at its end, were more handles open than the peak. |
| `HandoffWalk.HandoffWalk.Own` | agent/handoff_accounting.go:549-559 | A frame takes a handle if and only if it has none; then it is counted among the open frames and the peak is kept, and otherwise nothing changes. |
| `HandoffWalk.HandoffWalk.Release` | agent/handoff_accounting.go:562-569 | Releasing a frame closes its own handle once, does nothing to a frame that has none, and keeps the frame's pending work. |
| `HandoffWalk.HandoffWalk.Trim` | agent/handoff_accounting.go:573-578 | Releases exactly the oldest open frames needed so that one more handle stays within 64, and no frame's pending work is touched. |
| `HandoffWalk.HandoffWalk.TallyChild` | agent/handoff_accounting.go:597-631 | By what Lstat answered: a child that is there is added once and reported as a directory exactly when it is one, a child gone is passed over with nothing added, any other failure is returned with nothing added; each is recorded. |
| `HandoffWalk.HandoffWalk.TallyNames` | agent/handoff_accounting.go:597-631 | In any world, a listing read without error has every name counted, and kept if it is a directory, or gone; on an unchanging directory exactly the listed children are added, in order. |
| `HandoffWalk.HandoffWalk.TallyChildren` | agent/handoff_accounting.go:597-631 | In any world, the names returned are the directories counted in a listing read to its end; on an unchanging directory every child is added exactly once. |
| `HandoffWalk.HandoffWalk.Read` | agent/handoff_accounting.go:341-379 | Looks at the directory a handle is on before listing it, and enumerates it if and only if both succeed; what it enumerates was opened by the name recorded and read whole. |
| `HandoffWalk.HandoffWalk.Push` | agent/handoff_accounting.go:341-379 | A look that found the directory gone or replaced is passed over, any other failed look and any failed read is the walk's error; a directory without subdirectories is closed at once, one with subdirectories becomes the deepest frame inside the bound; without an error the name is settled. |
| `HandoffWalk.HandoffWalk.Keep` | agent/handoff_accounting.go:341-379 | The new frame owns its handle, the ancestry gains its name, and the open frames are still a suffix of at most 64. |
| `HandoffWalk.HandoffWalk.Discard` | agent/handoff_accounting.go:384-391 | Dropping the deepest frame closes its handle and keeps the open frames a suffix. |
| `HandoffWalk.HandoffWalk.Complete` | agent/handoff_accounting.go:395-406 | A finished frame also leaves the ancestry, and a lost depth at or below it is forgotten, any other kept. |
| `HandoffFrames.SameLoss` | agent/handoff_accounting.go:296-318 | A failed re-open is at the depth remembered if and only if it is on the ancestor remembered, so comparing depths counts ancestors. |
| `HandoffWalk.HandoffWalk.Restore` | agent/handoff_accounting.go:433-513 | A re-opened frame gets its handle back inside the bound. |
| `HandoffWalk.HandoffWalk.Arrive` | agent/handoff_accounting.go:433-513 | A re-opened frame is accepted if and only if it is the same directory as when it was read and answers a look; otherwise its handle is closed. |
| `HandoffWalk.HandoffWalk.ReopenComponent` | agent/handoff_accounting.go:433-513 | Re-opens one component of the ancestry; at most one handle besides the frames' is ever held on the way; on an unchanging tree it can fail only by running out of budget. |
| `HandoffWalk.HandoffWalk.OpenNext` | agent/handoff_accounting.go:433-513 | The next component is opened first and the step that led to it is closed after; one re-open is counted. |
| `HandoffWalk.HandoffWalk.Reopen` | agent/handoff_accounting.go:433-513 | Re-opens the whole ancestry of the deepest frame, leaving the frames nearest to it open, or says how far it came. |
| `HandoffWalk.HandoffWalk.TopRoot` | agent/handoff_accounting.go:433-513 | Hands back a handle on the very directory the deepest frame was read from, or an error and the depth of the component it failed on, with none of the handles acquired on the way still open. |
| `HandoffWalk.HandoffWalk.Lose` | agent/handoff_accounting.go:268-335 | The failure is recorded with the ancestor it was on; replaced and vanished change exactly as one loss an ancestor, however many frames it takes with it, and the depth remembered is that ancestor's until the walk unwinds past it. |
| `HandoffWalk.HandoffWalk.OpenTaken` | agent/handoff_accounting.go:268-335 | A subdirectory is opened only through its own parent's handle; a parent with nothing else left gives its handle up afterwards; reaching the parent ends the loss before it. |
| `HandoffWalk.HandoffWalk.OpenChild` | agent/handoff_accounting.go:268-335 | Each turn opens the next name of the deepest frame, passes over one that vanished, or stops; nothing is reported lost unless it was. |
| `HandoffWalk.HandoffWalk.VisitChild` | agent/handoff_accounting.go:268-335 | Each turn that goes on spends budget and keeps the account of an unchanging tree exact. |
| `HandoffWalk.HandoffWalk.Visit` | agent/handoff_accounting.go:268-335 | Every turn of the loop makes progress: it spends budget or finishes a frame. |
| `HandoffWalk.HandoffWalk.Descend` | agent/handoff_accounting.go:268-335 | The whole loop in any world: ending without an error and with no loss reported, every subdirectory ever listed was read whole, or was gone or replaced when it was opened or looked at; on an unchanging tree everything beneath was counted exactly once. |
| `HandoffFrames.TakenSettles` | agent/handoff_accounting.go:268-335 | Taking a name off the deepest frame and settling it leaves every other listed name settled or waiting. |
| `HandoffFrames.NothingIsLeftOut` | agent/handoff_accounting.go:268-335 | With nothing left on the stack every listed name is settled, and stays so while handles are closed. |
| `HandoffWalk.HandoffWalk.CloseAll` | agent/handoff_accounting.go:580-584 | Whatever stopped the walk, no handle is left open. |
| `HandoffFrames.NextTurnIsAffordable` | agent/handoff_accounting.go:268-335 | A walk of an unchanging tree with budget for one turn a directory always has opens left for its next turn, re-opening its whole ancestry included. |
| `HandoffWalk.WalkHandoffTree` | agent/handoff_accounting.go:247-260 | Under any change between steps and any failure, over the record of everything the walk did: the figures are the count of exactly the entries recorded, opens left and opens made are the budget, no handle is open at the end, there were never more than two beyond the frames' peak of at most 64, every open was made through a handle open at that moment or the walk's base, every directory enumerated was opened by a name listed in its own parent, replaced and vanished are the ancestors lost, and a walk that reports no error, stop or loss left no listed name out. On every finite unchanging tree nothing is reported vanished, replaced or failed, untruncated figures equal the recursive sum and truncated ones are no more than it. A pass is truncated only with its budget spent or cancelled, and never, uncancelled, with a budget of directories times tree depth plus two; it fails only if some call was refused. |
| `NodeAccounting.MeasureRun` | agent/handoff_accounting.go:669-738 | A run has a figures row exactly when Lstat found its name; a row is charged at least the floor; totals grow by exactly the row; on an unchanging root the node's figures grow by exactly the run's entries, sharing one set of charged identities; a row is truncated only with the budget spent or the pass cancelled. |
| `NodeAccounting.MeasureNode` | agent/handoff_accounting.go:669-738 | Totals are the rows' sums and no run has two rows; an uncancelled, untruncated pass over an unchanging root reports exactly the count of all runs' entries with each hard-linked inode charged once across runs, and nothing replaced; a root where no name is a directory truncates and loses nothing. |
| `NodeAccounting.DistinctIdsCover` | agent/handoff_accounting.go:669-738 | Every recorded run is among those measured, however often its ID is recorded. |
| `NodeAccounting.RecordOrderDoesNotMatter` | agent/handoff_accounting.go:669-738 | Whatever order the records load in, the node's figures are the same. |
| `ResultUpload.ReadingIsTruthful` | agent/result_upload.go:54-131 | A document offered for upload is the whole regular file the attempt left, within the bound and not empty; absence is said only when it left nothing; nothing at all is offered exactly when there is no read path. |
| `ResultUpload.VerdictIsTheTruth` | agent/attempt_lifecycle.go:2513-2583 | For every upload, one with no read path included, the attempt is published if and only if the node heard that the upload landed and L1 holds the very bytes that were left, or accepted that nothing was, with every mailbox event at L3; the upload record, if there is one, says the same. With no read path nothing is uploaded, recorded or published. |
| `ResultUpload.LostReplyWithholds` | agent/result_upload.go:140-161 | A concrete upload that landed with its reply lost: the evidence is elsewhere and the record does not publish. |
| `Publication.StepKeepsSound` | agent/handoff.go:376-498 | Every admission, refusal, write, upload with or without a read path, finish, crash, adoption, removal or fault keeps what the three publication bits stand for. |
| `Publication.PublishedRecordSpeaksForEveryWriter` | agent/handoff_records.go:386-426 | In every run, a record whose evidence reached the ledger implies that every attempt that wrote to the directory since it was last absent had its result read, has it at L1 or accepted as absent, and has its mailbox drained. |
| `Publication.RecoveryAgreesWithFinish` | agent/handoff_accounting.go:1015-1038 | Startup recovery of an attempt interrupted after its upload, whether it could read its result or not, writes the very record its own finish would have written. |
| `Publication.OneMoreAttempt` | agent/handoff.go:514-559 | An undisturbed attempt leaves a record that says: it published, and the record it replaced said so of everything before. |
| `Publication.BitsFoldTheWholeHistory` | agent/handoff_records.go:386-426 | After any number of undisturbed attempts the record says the evidence reached the ledger exactly when every one of them was confirmed elsewhere: the bits do not withhold either. |
| `OciPublication.VolumeStepKeepsSound` | agent/handoff_oci_records.go:215-262 | Every admission, refusal before the workload ran, late upload, late note, late finish, crash, reconciliation, eviction or helper removal keeps what a volume's bits stand for. |
| `OciPublication.PublishedVolumeSpeaksForEveryWriter` | agent/handoff_oci_records.go:150-197 | In every run, verdicts arriving after a later admission included, a volume's published record speaks for every attempt that wrote to the volume since it last did not exist: its result was read, and is elsewhere. |
| `OciPublication.WholeVolumeAttemptFolds` | agent/handoff_oci_records.go:369-401 | An undisturbed attempt folds its verdict into what stood before, and reconciling the same attempt interrupted before its finish writes the same record. |
| `NodeBudget.EvictionOrderIsTotal` | agent/handoff_budget.go:440-468 | Any two candidates are ordered, and only one identity can tie with itself. |
| `NodeBudget.EvictionOrderIsTransitive` | agent/handoff_budget.go:440-468 | The order of candidates is transitive, so sorting by it is meaningful. |
| `NodeBudget.SortCandidatesSorts` | agent/handoff_budget.go:418-429 | The sorted candidates are the candidates, datable ones first and oldest first. |
| `NodeBudget.EvictionOrderIgnoresListingOrder` | agent/handoff_budget.go:440-468 | Whatever order records and volumes were listed in, the same result is given up next. |
| `NodeBudget.ClassIsComplete` | agent/handoff_budget.go:380-429 | Each publication class is exactly the finished, unquarantined, charged runs and the idle, named, charged volumes of that class, in eviction order. |
| `NodeBudget.UnpublishedIsChosenExactlyWhen` | agent/handoff_budget.go:308-365 | An unpublished result is chosen if and only if there is one, both roots were read whole, and no published retained run or volume was found. |
| `NodeBudget.OnlyCopyIsSafeExactlyWhenEveryLookAnswered` | agent/handoff_budget.go:308-365 | The choice is right whatever the directories held if and only if every published retained run's Lstat answered not-exist; a look that failed otherwise drops the run without marking the figures incomplete. |
| `NodeBudget.AFailedLookHidesAPublishedRun` | agent/handoff_budget.go:339-365 | A concrete accounting pass over two runs in which the look at the published one fails; the figures read whole and the unpublished one is chosen. |
| `NodeBudget.AccountingMeasuresProperly` | agent/handoff_accounting.go:669-738 | Every uncancelled accounting pass charges a run exactly when its look found it: the measurements the budget decides on. |
| `NodeEviction.DoneDeletes` | agent/handoff_budget.go:588-747 | A candidate reported given up was deleted. |
| `NodeEviction.OnlyTheChosenResultIsDestroyed` | agent/handoff_budget.go:588-747 | Anything deleted, counted or not, was held by no attempt and was, at the deletion itself, the finished result of the class and the generation that was chosen, the lease keeping its record as it was re-read. |
| `NodeEviction.HeldCandidateIsChosenAgainExactlyWhenItMoved` | agent/handoff_budget.go:539-673 | A candidate an attempt holds makes the node choose again exactly when its record names another finished result, or none that can be read. |
| `NodeEviction.EvictFromClass` | agent/handoff_budget.go:205-230 | Walks one class in order; everything before the one it ends on was tried and unavailable; a candidate that moved ends the walk with nothing after it touched. |
| `NodeEviction.EnforceNodeBudget` | agent/handoff_budget.go:106-190 | Every walk was over budget, on the class its figures choose; after one that gave a result up the figures of that root, and after one that moved both, are taken again before the next; at most 256 walks gave a result up and fewer than 256 went on after a move; it ends because the node fits or for a stated reason, and reports a fresh measurement of both roots exactly when something was given up. |
| `NodeEviction.DeletionsAreFreshExactlyWhenNoWalkDeletedTwice` | agent/handoff_budget.go:106-190 | Every deletion rests on figures taken after the deletion before it if and only if no walk deleted more than one result. |
| `NodeEviction.HonestRemovalsDeleteOnlyWhatIsCounted` | agent/handoff_budget.go:588-747 | If removals and the helper say what they did, a walk deletes exactly the result it gave up, so every deletion rests on fresh figures. |
| `NodeEviction.DestroyedInOrder` | agent/handoff_budget.go:205-230 | What a walk deletes comes after only what was tried and unavailable, precedes in eviction order everything later in its class, and is of the class chosen. |
| `NodeEviction.OnlyCopyDestroyedLast` | agent/handoff_budget.go:308-330 | An only copy is deleted only on figures that read both roots whole and found nothing published on either. |
| `NodeEviction.UncountedDeletionsPassEveryBound` | agent/handoff_budget.go:205-230 | A concrete node, for every n, on which one walk deletes n only copies because their record files cannot be removed, counts none of them given up, and measures nothing in between. |
| `Sweep.StepKeepsInv` | agent/handoff.go:901-941 | Under the lease the record an expiry or budget pass acts on is the one on disk at every later step, whatever happened since it was listed. |
| `Sweep.DeletesOnlyWhatThePassMay` | agent/handoff_budget.go:588-672 | In every interleaving of attempts, sweeps and budget passes, what is deleted, wholly or partly, is at that instant a finished result that is not paused: past its deadline on disk if it expired, and still of the class and the generation it was chosen by if the node was over its budget. |
| `Sweep.PassesNeverRewriteFacts` | agent/handoff.go:1038-1077 | No step of any sweep or budget pass changes the facts an attempt wrote: it keeps them or removes the record. |
| `Sweep.OnlyStructuralRefusalsPause` | agent/handoff.go:1003-1028 | A record is paused only by startup, for a name that is not a directory, or after four structural refusals were recorded against it since an attempt wrote it or a pause was lifted; transient failures never pause it. |
| `Sweep.ExpiredResultsGo` | agent/handoff.go:855-884 | An undisturbed sweep removes results past their deadline together with their record. |
| `Sweep.LiftIsWritten` | agent/handoff.go:953-977 | Lifting clears the counters, keeps the attempt's facts, and goes on to expire in the same sweep. |
| `Sweep.RefusalsAreCounted` | agent/handoff.go:933-1028 | Every failed removal is counted, one that deleted the results and left the record included; the fourth structural one, and only a structural one, pauses the record. |
| `Sweep.BudgetDeletesExactlyTheChosen` | agent/handoff_budget.go:588-672 | Whatever happened since the order was built, a budget pass that gets the lease deletes the results if and only if the record on disk is finished, not paused, and of the class and generation they were chosen by. |
| `PathLeases.StepKeepsInv` | agent/handoff.go:229-289 | Reference counts, registry and token stay consistent under every lock, cancelled wait, try-lock and half-done release. |
| `PathLeases.OneLeasePerKey` | agent/handoff.go:229-280 | In every interleaving at most one unreleased lease exists for a key. |
| `PathLeases.RegisteredWhileCounted` | agent/handoff.go:282-289 | A key is registered exactly while somebody is counted on its lock, and two locks for one key are never both live. |
| `PathLeases.CollectorTakesOnlyIdlePaths` | agent/handoff.go:1132-1153 | The collector gets a lease only when no attempt holds or awaits the key. |
| `PathLeases.ReleasesNeverBlock` | agent/handoff.go:125-140 | Putting a token back always finds its channel empty, and a token that is out is with a caller that will put it back. |
| `PathLeases.ReleaseUndoesLock` | agent/handoff.go:125-140 | Releasing that lease leaves the registry and the callers exactly as they were. |
| `PolicyEvaluation.SameAdministrators` | agent/computer_policy.go:353-410 | The same-revision comparison lets nobody become or stop being an administrator, although it only checks one direction and the count. |
| `PolicyEvaluation.EvaluationFollowsTheLists` | l1/computer_policy.go:99-156 | Evaluation gives View or Control exactly to those the snapshot's own lists name for it on a listed Computer under the issuing Fabric, whatever order the lists are in; an administrator on the wrong device never falls through to a grant. |
| `PolicyEvaluation.RaisesExactlyTheNewlyNamed` | agent/computer_policy.go:292-351 | Between any two snapshots access rises exactly for those the new lists name for Control, or at all, and the old ones do not. |
| `PolicyEvaluation.SameRevisionRaisesExactly` | agent/computer_policy.go:353-410 | An allowed snapshot of the same revision raises a person's access on a Computer if and only if its lists name them there and the current snapshot has another issuing Fabric or does not list that Computer. |
| `PolicyCache.NewComputerRaisesAccess` | agent/computer_policy.go:353-410 | A concrete run in which a Computer added within a revision brings an administrator access. |
| `PolicyCache.MovedFabricRaisesAccess` | agent/computer_policy.go:353-410 | A concrete run in which moving the issuing Fabric within a revision brings an administrator access. |
| `PolicyCache.ClosedCacheRaisesAccess` | agent/computer_policy.go:312-319 | A concrete run in which a cache that closed without a device requirement installs, within a revision, a snapshot the comparison would refuse and an administrator gains access. |
| `PolicyCache.DrainedMeansReleased` | agent/computer_policy.go:324-351 | A drained barrier means every authorization affected by its install and by every install before it has been released. |
| `PolicyCache.ComputerPolicyCache.constructor` | agent/computer_policy.go:171-175 | A cache begins closed, with nothing installed. |
| `PolicyCache.ComputerPolicyCache.Invalidate` | agent/computer_policy.go:431-448 | Every live authorization is revoked and the cache closes, but the snapshot and the high-water mark stay. |
| `PolicyCache.ComputerPolicyCache.ExpireIfNeeded` | agent/computer_policy.go:450-454 | The cache closes exactly when it is open on a snapshot no longer fresh. |
| `PolicyCache.ComputerPolicyCache.ExpiryFires` | agent/computer_policy.go:456-475 | An install's timer closes the cache only while that install is still the current one. |
| `PolicyCache.ComputerPolicyCache.AcquireGrant` | agent/computer_policy.go:251-267 | A grant is registered exactly when the fresh installed snapshot gives a valid person access, with that permission and a new identity. |
| `PolicyCache.CollectAffected` | agent/computer_policy.go:324-334 | An install affects exactly the revoked, the demoted, and everyone when the generation changes. |
| `PolicyCache.ComputerPolicyCache.InstallChecked` | agent/computer_policy.go:320-351 | The install becomes the snapshot and the high-water mark, its barrier waits for exactly the affected, and no live unrevoked authorization is of another generation or above what the snapshot gives. |
| `PolicyCache.ComputerPolicyCache.Install` | agent/computer_policy.go:292-351 | Installed exactly when valid, for this node and boot, fresh, not below the high-water mark and not silently changed; otherwise the cache closes. The high-water mark never regresses; a compared same-revision snapshot raises exactly those it names on a Computer, or under a Fabric, the current one does not have, and any install exactly the newly named. |
| `PolicyCache.ComputerPolicyCache.Remove` | agent/computer_policy.go:477-486 | Releasing takes the authorization out under the lock, before its barriers are told. |
| `PolicyCache.ComputerPolicyCache.ReleaseNextBarrier` | agent/computer_policy.go:487-491 | Each barrier is told once and its count, never zero before, drops by one and no other does; it is always the number of authorizations still owing it. |
| `PolicyAcks.SettledSpeaksForLower` | agent/computer_policy_ack.go:66-91 | A selected acknowledgement means every install strictly below it is released, so discarding lower receipts loses nothing. |
| `PolicyAcks.StepKeepsInv` | agent/computer_policy_ack.go:27-91 | Whatever the cache does and whatever is submitted, selected, delivered or retried, a pending barrier is a submitted install of its acknowledgement and a closed channel or a delivery is about a settled one. |
| `PolicyAcks.EverySelectionIsSettled` | agent/computer_policy_ack.go:66-91 | In every run, guarded or not, a selected acknowledgement has an install whose sessions and those of every earlier install are closed, and every install of a lower revision is released. |
| `PolicyAcks.StepIsHonestExactlyWhenGuarded` | agent/computer_policy_ack.go:27-64 | From an honest state every move keeps every pending receipt speaking for all installs handed over as it, if and only if a submission finds no newer waiting install of the same snapshot handed over first and a retry overwrites no receipt that still waits. |
| `PolicyAcks.SelectionsAreTruthful` | agent/computer_policy_ack.go:66-91 | In every run whose submissions and retries were so guarded, with any number of re-installs and any cache activity, a selected acknowledgement speaks for every install handed over as it and every install below it. |
| `PolicyAcks.UnguardedRetryCanSpeakFalsely` | agent/computer_policy_ack.go:37-64 | After a retry that is not guarded, selecting that acknowledgement is possible at once and acknowledges an install with a session of it live. |
| `PolicyAcks.RetrySpeaksForEveryInstallExactlyWhen` | agent/computer_policy_ack.go:37-64 | For any number of installs of the snapshot and any releases half done, a retry leaves later selections truthful if and only if, when it is made, that acknowledgement is not pending again or what its pending receipt waits for is released; with no release half done, if and only if that receipt is drained. |
| `PolicyAcks.SelectionForgetsNothingExactlyWhen` | agent/computer_policy_ack.go:84-89 | A selection throws away no receipt that still waits if and only if every receipt of the revision selected is released; with no release half done, if and only if none of them is undrained. |
| `PolicyAcks.SelectionCanForgetAReceipt` | agent/computer_policy_ack.go:84-89 | A concrete run, for every snapshot and person with access, in which a second snapshot of one revision, with the device requirement on, waits for a session and its receipt is thrown away with the session live. |
| `PolicyAcks.AckController.Submit` | agent/computer_policy_ack.go:27-35 | A receipt is kept under its acknowledgement, replacing what was there: one submission step of the joint system. |
| `PolicyAcks.AckController.Retry` | agent/computer_policy_ack.go:37-64 | The acknowledgement being delivered is put back on a closed channel: one retry step of the joint system. |
| `PolicyAcks.AckController.TakeReady` | agent/computer_policy_ack.go:66-91 | Selects a highest drained receipt and drops exactly the receipts at or below it, one selection step of the joint system; selects nothing exactly when none is drained. |
| `PolicyAcks.RetryCanOvertakeAReinstall` | agent/computer_policy_ack.go:37-64 | A concrete run, for every snapshot and person with access, in which a retry replaces a waiting receipt and the install is acknowledged with its session still live. |
| `PolicyAcks.SubmissionsCanOvertake` | agent/computer_policy_ack.go:27-35 | A concrete run, for every snapshot and person with access, in which two installs of the snapshot are handed over out of order and the later one is acknowledged with its session still live. |
| `Tenure.StepKeepsInv` | agent/controller_tenure.go:129-199 | Every step of take, override, release and relay close keeps holder, operation, legs and signal consistent. |
| `Tenure.OneDriver` | agent/controller_tenure.go:318-422 | In every run an operation in progress means no holder, at most one relay of all sessions has a control leg, and a free tenure has none. |
| `Tenure.FreeMeansCleared` | agent/controller_tenure.go:463-534 | In every run a held tenure drives the signal, and a free one issued a clear after every successful set-true. |
| `Tenure.OverrideNeverClears` | agent/controller_tenure.go:129-199 | A successful override issued no signal command between its beginning and its end. |
| `Tenure.OnlyAFailedSetTrueSkipsTheClear` | agent/controller_tenure.go:129-199 | A step frees the tenure without a clear as the last command if and only if it is a set-true answered with an error. |
| `Tenure.AFailedSetTrueLeavesTheSignal` | agent/controller_tenure.go:129-199 | A concrete run, for every session that may take control, that frees the tenure with one set-true answered with an error and no clear. |
| `Tenure.TakeMakesTheOnlyDriver` | agent/controller_tenure.go:129-199 | An undisturbed take makes the session the only driver, whoever drove before; an override adds no signal command. |
| `Tenure.ReleaseFreesTheTenure` | agent/controller_tenure.go:372-422 | An undisturbed release leaves nobody driving, no leg, and exactly one clear issued. |
| `Relay.StepKeepsOneLeg` | agent/computer_session_relay.go:81-154 | Every step keeps all transfers in flight on one leg and the active count equal to them. |
| `Relay.StepKeepsInOrder` | agent/computer_session_relay.go:81-126 | Every step keeps the bytes taken by all legs equal to the part of the input written. |
| `Relay.TransfersShareOneLeg` | agent/computer_session_relay.go:128-197 | In every run all transfers in flight use one leg, which is current or is being replaced or closed. |
| `Relay.LegChangesOnlyWhenIdle` | agent/computer_session_relay.go:156-197 | In every run a leg becomes current only with no transfer in flight. |
| `Relay.NothingStartsAfterClose` | agent/computer_session_relay.go:199-232 | However a run goes on after a close, no transfer starts in it. |
| `Relay.ClientBytesArriveInOrder` | agent/computer_session_relay.go:81-126 | In every run the client bytes accepted over all legs are in order, each once, a prefix of what the client sent. |
| `Relay.FailedControlWriteIsRetriedOnTheView` | agent/computer_session_relay.go:81-126 | What a failed control leg did not take, and only that, goes to the view once the leg is gone. |
| `Completion.RevisionCountsTransfers` | agent/evidence_outbox.go:902-938 | In every run the revision is the number of times the hold changed between one event and the next, and is odd exactly while it is in force. |
| `Completion.LateRepliesDestroyNothing` | agent/completion_delivery.go:115-171 | In every run, if a reply to a process-service completion or log replay destroys evidence, the request or pass was started at an earlier event, was in flight ever since, and no upgrade hold was in force at any moment from that start to the reply. |
| `Completion.FenceClosesExactlyWhenAHoldOverlapped` | agent/evidence_outbox.go:902-938 | Between any two moments of any run the fence is closed if and only if a hold was in force at some moment between them, one that began and ended again included. |
| `Completion.UndisturbedRepliesAreNotFenced` | agent/completion_delivery.go:115-171 | A reply to a request during which no hold was in force is treated as if there were no upgrades at all. |
| `Completion.FenceTouchesNothingElse` | agent/completion_delivery.go:53-171 | Other completions fare the same whoever holds what, an accepted reply is always recorded, and upgrade mode keeps every refused completion. |
| `Recovery.RecoveryLoop.ArmRetry` | agent/evidence_outbox.go:382-408 | The timer is one of the waits, no later than any still ahead, and never one the pass has already looked at, except the scan's own. |
| `Recovery.RecoveryLoop.ForgetSettled` | agent/evidence_outbox.go:436-451 | What is remembered of attempts no longer pending is dropped, the failure counts of those that wait with their waits and refusals with their codes; everything else is kept as it was. |
| `Recovery.RecoveryLoop.StartWorker` | agent/evidence_outbox.go:468-481 | A worker starts only for an attempt that has none, within the limit. |
| `Recovery.RecoveryLoop.LaunchWorkers` | agent/evidence_outbox.go:452-482 | Afterwards every pending attempt has a worker, is not due, is owned by somebody else, or every worker is busy; only due, unowned attempts were started. |
| `Recovery.RecoveryLoop.LaunchScanned` | agent/evidence_outbox.go:434-489 | A due retry left because its attempt is owned gets a re-check time within the backoff ceiling. |
| `Recovery.RecoveryLoop.LaunchPending` | agent/evidence_outbox.go:410-494 | Every completed scan leaves at most 8 workers and no attempt run twice at once; the timer armed is later than the pass began if and only if the scan did not fail on a loop with no positive interval. |
| `Recovery.RecoveryLoop.NoteRefusal` | agent/evidence_outbox.go:515-527 | A refusal is counted, ends the failure count, and sets the next re-check strictly later on the slow schedule. |
| `Recovery.RecoveryLoop.NoteFailure` | agent/evidence_outbox.go:542-545 | A failure is counted and sets the next retry by the backoff, strictly later exactly when the interval is positive. |
| `Recovery.RecoveryLoop.Finished` | agent/evidence_outbox.go:510-545 | The worker is gone exactly once and its attempt waits a re-check, a backoff, or no longer. |
| `Backoff.DoublingDelay` | agent/evidence_outbox.go:87-96 | The doubling loop computes the closed form; the values it passes through begin at the base, double each time and end at what is capped, and none leaves an int64 when the base reaches the ceiling or twice the ceiling fits. |
| `Backoff.DelayIsCappedPower` | agent/evidence_outbox.go:87-96 | For a positive base the delay is min(base * 2^(step-1), ceiling). |
| `Backoff.BackoffStaysInBounds` | agent/evidence_outbox.go:75-77 | A backoff lies between the interval and its ceiling and is positive exactly when the interval is. |
| `Backoff.BothSchedulesFit` | agent/evidence_outbox.go:71-83 | Neither schedule can overflow, whatever interval is configured. |
| `Backoff.WaitIsAtMostTheTimeWaited` | agent/evidence_outbox.go:24-42 | On the refusal schedule every wait is at most the time already waited plus 10 s, and at most an hour. |
| `Backoff.FirstRecheckAfterTheLease` | agent/evidence_outbox.go:24-42 | The first re-check after a lease with remainder L runs out comes at most min(L + 10 s, 1 h) later, for every L. |
| `Backoff.EveryLeaseIsFollowedByARecheck` | agent/evidence_outbox.go:24-42 | There always is such a re-check. |
| `Watchdog.SamplesBracketTheTruth` | agent/authority_watchdog.go:44-60 | A sample's bounds contain the time truly asleep, however long the process was descheduled between the reads. |
| `Watchdog.ProvedSleepIsTrue` | agent/authority_watchdog.go:197-229 | The sleep credited between two samples is never more than the time truly asleep between them. |
| `Watchdog.CreditsNeverExceedSleep` | agent/authority_watchdog.go:197-229 | Over any number of checks the credits together never exceed the time truly asleep from the first to the last. |
| `Watchdog.AuthorityWatch.constructor` | agent/authority_watchdog.go:81-97 | A grant counts from its request's own readings with nothing credited. |
| `Watchdog.AuthorityWatch.CheckLocked` | agent/authority_watchdog.go:197-229 | Passes exactly when not failed before and the grant still runs: before the deadline, with the uncredited gap below the remaining lease; passing with credit proves less time awake since the checkpoint than the lease had left; one grant's credits never exceed time truly asleep since its request; a failure is final. |
| `Watchdog.AuthorityWatch.Renewed` | agent/authority_watchdog.go:117-152 | A renewal is accepted if and only if the old grant still runs on the readings of its reply and the new one runs from its own request; if the old one does not, the watch has failed with authority and checkpoint as they were. |
| `Capabilities.ObservationOffersOnlyWhatWasEarned` | agent/capabilities.go:338-416 | An observation offers exactly the base and what a positive probe earned minus what is missing; anything but a positive one lists OCI as missing; there is a reason exactly when something is missing. |
| `Capabilities.CountStandsStillExactlyWhen` | agent/capabilities.go:230-290 | The suppression count is the same at two moments if and only if nothing was suppressed or allowed between them. |
| `Capabilities.CapabilityState.constructor` | agent/capabilities.go:126-164 | The initial observation needs no confirmation and offers no OCI capability. |
| `Capabilities.CapabilityState.Apply` | agent/capabilities.go:338-416 | Any change of content closes claims at a new revision, a change back included; no change leaves revision and claims alone. |
| `Capabilities.CapabilityState.SuppressOci` | agent/capabilities.go:230-250 | A suppression withdraws OCI, is one more interruption, and closes claims at a new revision if that changed anything. |
| `Capabilities.CapabilityState.SuppressOciIntent` | agent/capabilities.go:258-266 | Disabled intent is latched before OCI is withdrawn. |
| `Capabilities.CapabilityState.AllowOciIntentIfUnchanged` | agent/capabilities.go:278-290 | The latch opens exactly when nothing was suppressed or allowed since the caller looked. |
| `Capabilities.CapabilityState.BeginProbe` | agent/capabilities.go:186-204 | A probe remembers how often OCI was interrupted up to the moment its turn came. |
| `Capabilities.CapabilityState.MayProbe` | agent/capabilities.go:177-183 | A probe is turned away, before it waits its turn, exactly when the last decision about the intent was to disable it. |
| `Capabilities.CapabilityState.RecordProbeResult` | agent/capabilities.go:296-318 | A positive probe is recorded if and only if the intent is not disabled and nothing was suppressed or allowed since it began; OCI is newly offered only by such a probe that is still valid. |
| `Capabilities.CapabilityState.AdoptRestrictive` | agent/capabilities.go:420-443 | L1's restrictive observation is adopted, and confirmed, exactly when it really withholds OCI. |
| `Capabilities.CapabilityState.Acknowledge` | agent/capabilities.go:502-518 | A reply opens claims if and only if it is at least as new as the last local change and says exactly what this node says now, so a stale confirmation of the same content does not open them. |
| `Capabilities.CapabilityState.AllowsClaim` | agent/capabilities.go:490-500 | Claims are open only when capabilities, missing set and reason equal what L1 last confirmed, and never on OCI while intent is disabled. |
| `RecordNames.EscapedRecordName` | agent/handoff_records.go:487-504 | Reports complete exactly when the whole escaped ID fits; what it returns is always the escape of a whole prefix, never cut inside an escape. |
| `RecordNames.EscapeRoundTrips` | agent/handoff_records.go:487-504 | A decoder undoes the escaping of every run ID. |
| `RecordNames.OrdinaryNamesAreKept` | agent/handoff_records.go:432-456 | An ID of plain bytes is its own name. |
| `RecordNames.LiteralNamesHaveNoTilde` | agent/handoff_records.go:457-481 | No literal name contains the byte that begins a digest name. |
| `RecordNames.LowerHexIsInjective` | agent/handoff_records.go:457-481 | Different digests have different hex forms. |
| `RecordNames.RecordComponent` | agent/handoff_records.go:457-481 | The name is the fallback, the whole escape, or the digest under a tilde, with the extension. |
| `RecordNames.NamespacesAreDisjoint` | agent/handoff_records.go:457-481 | A digest name and a literal name never meet. |
| `RecordNames.NamesCollideOnlyOnTheEmptyId` | agent/handoff_records.go:457-481 | Given a digest that tells two IDs apart, they share a file name if and only if one is empty and the other is the literal run. |

## Left out

- The rest of the repository: the L1 server apart from policy evaluation, the OCI helper and its protocol, the runner, the fabric, the command line and the web front end.
- Log lines, reports, audit records and metrics, except where a decision depends on them.
- Wrap-around of byte totals and revisions: figures are unbounded integers. `Backoff.DoublingDelay` is the one place where 64-bit range is stated.
- The per-run bound that trims a finished directory, handoff markers, adoption deadlines and the count of unrecorded directories: straight-line code with no property across steps.
- HandoffWalk.WalkHandoffTree: always has a budget of opens; the per-run bound calls the same walk with none. That a frame refuses a second handle, or already owns one when it is re-opened, is proved never to happen, so what the code does then is not modelled.
- HandoffWalk.HandoffWalk.OpenDirectory: has no form without a budget, as above.
- NodeAccounting.MeasureNode: leaves out times, window fields and the unrecorded count of the status.
- NodeEviction.EnforceNodeBudget: paging of the OCI inventory and how a volume is attributed to an owner are one answer of the node.
- NodeEviction.OnlyTheChosenResultIsDestroyed: takes as given that a record does not change while its lease is held. `Sweep.DeletesOnlyWhatThePassMay` proves it for a run's record from the leases themselves; for a volume's record it stays an assumption.
- ResultUpload.VerdictIsTheTruth: what stands at the result's name does not change while it is read, and whether bytes are JSON is a function of the bytes that is false of none.
- Publication.PublishedRecordSpeaksForEveryWriter: covers older agents that left a record or left files; an older agent that left neither, and whose workload deleted everything it wrote, is outside it. A workload writes only while its attempt holds the lease, and an upload is made before the lease is given back.
- OciPublication.PublishedVolumeSpeaksForEveryWriter: covers older agents whose upload record was written.
- PathLeases.OneLeasePerKey: the shared lease between processes is one answer that may fail.
- PolicyEvaluation.SameRevisionRaisesExactly: a key is a pair of Fabric and user; the code joins them with a zero byte.
- PolicyCache.ComputerPolicyCache.Install: submission watchers, the one-slot revocation channel and what snapshot validation checks besides repeated keys are left out.
- PolicyAcks.AckController.TakeReady: the waiting and the backoff of the delivery loop around it are left out.
- PolicyAcks.SelectionsAreTruthful: speaks of the installs whose receipts were handed over; one installed and not yet handed over is outside it.
- Tenure.OneDriver: the RFB handshake, the content of audit records, receipts and timeouts appear as answers that succeed or fail.
- Relay.ClientBytesArriveInOrder: a leg is a writer that takes a prefix of what it is offered; sockets, close handshakes and the controller connection's own close are left out.
- Completion.LateRepliesDestroyNothing: the OCI intent gate, which applies to OCI attempts only, and failures of the local spool are left out.
- Recovery.RecoveryLoop.LaunchPending: the sweep of dead spool rows, the inventory refresh and shutdown are left out.
- Backoff.FirstRecheckAfterTheLease: counts each refusal as answered at once; time spent in a request comes on top.
- Watchdog.AuthorityWatch.CheckLocked: the timer loop that calls it and the cancellation it triggers are left out.
- Capabilities.CapabilityState.Apply: name normalisation, reason-code validation, the persisted revision floor and the receipt of the last probe are left out; the unused unconditional `record` is not a step.
- RecordNames.RecordComponent: the digest is any function; older record names are not modelled.
