# Orcana runtime: when a change has landed, and when "done" may be said

Orcana is an agent runtime that edits files in a project, verifies the edits and decides when a
task is finished. This project models the part of it that other guarantees rest on, and proves
what that part promises.

* **Patches.** `Workspace` is the project directory as a map from resolved paths to files,
  directories and links, with what one system call does to it and what other processes may do in
  between. `BoundaryWalk` is the check that a path stays inside the project, with and without its
  cache. `PatchCommit` is the life of a patch, its snapshot record included, as a function of the
  directory and of everything that may happen meanwhile: edits by others while the patch is
  verified and, for each file installed, before the look for its temp file, before either boundary
  check, before its directory is made, before its base hash is checked and before the rename;
  failing system calls; a verification that approves, declines or throws. `PatchInstall` proves what
  staging and installing keep, `PatchProofs` holds the main results, and `PatchExample` two runs in
  full. `PatchTransaction` has the transactions, the registry, the commit history and the write
  generation as objects changed in place, each method tied to `PatchCommit`.
* **Evidence.** `TransactionHistory` is the chain of identifiers over commits and rollbacks.
  `EvidenceLedger` is the ledger and its gate, `CompletionOrchestrator` the decision in five
  phases, and `EvidenceRuns` interleaves commits, rollbacks, lost restores, writes of every sort,
  verifications, ingestion and the invalidation of artifacts over whole runs. `PatchRuns` joins the
  two halves: which step of a run each patch is, and what a run that ends done says about the files
  of its patches.
* **Plans.** `PlanGraph` has nodes, dependencies and walks; `PlanValidator` the checks, with the
  three-colour search; `PlanOperations` what each operation does to a plan; `PlanProgress` the
  scheduler; `PlanRuns` what every run keeps; `NodeIds` how ids are read and written; `MasterPlan`
  the plan as objects changed in place.
* **Context.** `Transcript` and `ContextEpoch` are the rollover of a conversation; `FileCache` the
  cache of loaded files under writes by others; `ContextLocate` the bounded selection of files and
  the byte budget.
* **Exact algorithms.** `PathSpelling` and `PathPattern` are the permission patterns,
  `JsonComments` the removal of comments from configuration files, `OutputBudget` the division of
  the output envelope between thinking and action.

A transaction id names its history only if the hash has no collisions; wherever that is needed it
stands as a precondition (`CollisionFree`), and `CollisionFreeHashExists` shows that it can be
met. Staleness within one run needs no such thing: it rests on the count of transactions.

## Where the code and its documentation disagree

The model follows the code. These are stated as lemmas with the exact condition or a concrete run:

* An open context debt is documented to rule out a done run. The phase that reads the gate's answer
  has no branch for it, so it has no effect before the final round (`OpenDebtsBlockExactlyWhen`,
  `OpenDebtOverlooked`).
* The base-hash check is meant to guard against edits between approval and rename. One that comes
  between the check and the rename is overwritten unseen, and a later restore brings back the
  snapshot, not what was overwritten. Nor is the approved hash checked against the snapshot: after a
  conflict a file holds again what was approved exactly when the two agree (`ConflictUndoesExactly`,
  `LateEditIsLost`).
* A proposal is documented to write nothing. It writes the snapshot record, and nothing removes it
  again (`InitManagedTransaction`, `RecordIsKept`).
* A restore that fails is swallowed: files stay overwritten and the history does not move, so
  evidence captured before still matches and a run can end done on it
  (`SwallowedRestoreLeavesNewContent`, `OverwrittenWithoutTrace`, `LostRestoreMissed`,
  `DoneOverOverwrittenFile`). It goes through exactly when the record can be read, no write fails and,
  in the tree the failure left, nothing stands in the way of a file to be put back
  (`RestoresExactlyWhen`).
* The cache of the boundary check outlives changes by others. A cached check agrees with an uncached
  one exactly when it stops nowhere early or the path it stops at would still pass
  (`CachedWalkAgreesExactlyWhen`, `StaleMemoryMissesGrandparentLink`).
* Covered shell writes lift the demand for a binding "without deadlock". A write at an unknown place
  is never waited for, so after one a run can still be done exactly when some shell write is covered
  or known (`CoverableExactlyWhen`, `DoneReachableExactlyWhen`). And covered does not mean verified:
  it says that every known path was covered after it was last written, and leaving out all unknown
  writes changes nothing about it (`HasCoveredExactlyWhen`, `UnknownWritesNeverCount`).
* Replanning numbers new nodes from the largest frozen number; without one they are all called
  "-Infinity" (`ReviseUniqueExactlyWhen`, `ReviseRepeatsIds`). An answer with only short titles completes the plan
  (`ReviseCompletesExactlyWhen`), and the first new node is activated whatever it depends on
  (`ReviseActivatesUnmet`, `ReviseActivatesEarly`).
* The review gate reports that work goes on also when it activated nothing (`GateMovesExactlyWhen`,
  `GateStandsStill`, `GateStandsStillInRun`).
* Rollover keeps at least two messages even where that tears a call from its result, also with the
  three turns every run asks for (`NormalSplitsExactlyWhen`, `KeepingThreeSplits`).
* A pattern and its normal form differ for an odd number of leading `!` on a segment that a later
  `..` takes away (`SpellingMattersExactlyWhen`, `SpellingMatters`).
* Marking an edited file reads first and stats afterwards, so a write in between is never noticed
  (`MarkEdited`, `RacedEntryGoesUnnoticed`).
* Errors are documented to shrink reasoning. While executing they keep the room for action, but they
  deepen thinking for small edits, unless some cap is low enough, and where none was asked for before
  (`ErrorsDeepenExactlyWhen`, `SmallEditThinksDeeper`, `ErrorsDeepenPlanningExactlyWhen`).

## Model

| member | source | states |
|---|---|---|
| BoundaryWalk.WalkAllows | src/agent/patch-transaction.ts:218-260 | the walk allows a path exactly when no examined ancestor up to the root is a link, unreadable or leads out of the root |
| BoundaryWalk.CachedWalkAgrees | src/agent/patch-transaction.ts:218-260 | with a memory of truly safe paths the cached walk gives the verdict of the uncached one |
| BoundaryWalk.CachedRunAgrees | src/agent/patch-transaction.ts:209-302 | the same for any sequence of paths on an unchanged tree, the memory growing along the way |
| BoundaryWalk.SoundSurvives | src/agent/patch-transaction.ts:240-260 | the memory stays right through any change after which nothing that used to pass is denied |
| BoundaryWalk.CachedWalkAgreesExactlyWhen | src/agent/patch-transaction.ts:240-260 | whatever the memory holds and however the tree changed since, the cached verdict is the uncached one exactly when the walk stops nowhere early or the path it stops at would pass without a memory |
| BoundaryWalk.DisagreementMeansAllowed | src/agent/patch-transaction.ts:240-260 | when the two differ, the cached walk is the one that accepts |
| BoundaryWalk.AllowedMeansTargetAndParentExamined | src/agent/patch-transaction.ts:218-260 | however stale the memory, target and directory themselves are examined anew |
| BoundaryWalk.StaleMemoryMissesGrandparentLink | src/agent/patch-transaction.ts:240-260 | a concrete tree where a stale memory overlooks a link two levels up |
| BoundaryWalk.ProtectedNamesAreOffLimits | src/agent/patch-transaction.ts:49-75 | no protected file, and nothing below a protected directory, passes the forbidden-file check, in any letter case |
| BoundaryWalk.RuntimeInternalExactlyWhen | src/agent/patch-transaction.ts:64-75 | where no name holds a separator, exactly those are protected |
| BoundaryWalk.AllowedMeansContained | src/agent/patch-transaction.ts:262-302 | an allowed target lies inside the root by name and by where it really leads, and bears no protected name |
| BoundaryWalk.ResolvedBoundaryCache.CheckResolvedBoundary | src/agent/patch-transaction.ts:218-260 | the loop with its cache in place computes verdict and new memory of the cached walk |
| BoundaryWalk.CreateResolvedBoundaryCache | src/agent/patch-transaction.ts:209-216 | a cache knows the resolved root and nothing else; none where the root does not resolve |
| BoundaryWalk.CheckForbiddenFileWithCache | src/agent/patch-transaction.ts:262-298 | the whole check in place, cache included |
| TransactionHistory.ReplayCounts | src/agent/patch-transaction.ts:676-684 | the count of transactions is the number of commits and rollbacks, the latest id that of the last one |
| TransactionHistory.LaterBindingDiffers | src/agent/patch-transaction.ts:661-674 | after one more commit or rollback no earlier binding equals the current one |
| TransactionHistory.PreimagesAgreeExactlyWhen | src/agent/patch-transaction.ts:676-684 | behind identifiers without NUL, two texts agree exactly when identifier and event do, or one event forges the other |
| TransactionHistory.PreimageIsUnambiguous | src/agent/patch-transaction.ts:676-684 | what is hashed determines the previous identifier and the event |
| TransactionHistory.StateIdNamesHistory | src/agent/patch-transaction.ts:661-684 | two runs reach the same identifier only by the same commits and rollbacks in the same order |
| TransactionHistory.NulInIdForgesRollback | src/agent/patch-transaction.ts:676-684 | a transaction id with a NUL makes a commit look like a rollback |
| TransactionHistory.CollisionFreeHashExists | src/agent/patch-transaction.ts:977-983 | a hash as assumed here exists |
| PatchCommit.ConflictCountsInstalled | src/agent/patch-transaction.ts:893-964 | a conflict reports exactly how many files were installed before it |
| PatchInstall.AllowedIsWellFormed | src/agent/patch-transaction.ts:778-845 | targets that passed the checks at the proposal, none of them the root, the runtime's own directory or above another, meet the conditions of the results below |
| PatchProofs.RestoresExactlyWhen | src/tools/transaction.ts:73-111 | a restore goes through exactly when the record can be read, no write fails, and in the tree it starts from each file can be put back: its directory can be made and no directory or link is in its place, or, for a new file, no directory is |
| PatchProofs.AllOrNothing | src/agent/patch-transaction.ts:1045-1083 | each target is untouched; or holds its new content, as others left it since; or, after a failure, its snapshot whenever the tree at the failure lets all files be put back; or what others left in it, by how the patch ended |
| PatchProofs.RestoreUndoesAllEdits | src/agent/patch-transaction.ts:1059-1083 | a restore that goes through brings back every snapshot, whoever edited the files in between and whenever |
| PatchProofs.OtherPathsUntouched | src/agent/patch-transaction.ts:778-1083 | no path besides the targets, missing directories, the temp directory and the snapshot record is written |
| PatchProofs.RecordIsKept | src/tools/transaction.ts:54-64 | the snapshot record stays as the proposal wrote it, unless others remove it |
| PatchInstall.InstalledIsGuarded | src/agent/patch-transaction.ts:896-936 | for each file overwritten: inside the root at its second boundary check, of the approved content at the check of its hash, and only others acted between these and the rename, whatever they did |
| PatchProofs.ConflictUndoesExactly | src/agent/patch-transaction.ts:896-936 | after a conflict that could be undone, an overwritten file holds what it held when its hash was checked exactly if the approved hash is the snapshot's; and what it held when it was overwritten exactly if that is so and nobody changed it in between, or somebody made it the snapshot |
| PatchProofs.HistoryMoves | src/agent/patch-transaction.ts:1059-1083 | the very events a patch adds: a commit on success, a rollback after a failure with something to put back, all of which the tree at the failure lets be put back, and otherwise none |
| PatchProofs.OverwritingExpiresBindings | src/agent/patch-transaction.ts:661-713 | a patch that overwrote something and did not lose its restore puts every earlier binding out of date, even if all was put back |
| PatchProofs.SwallowedRestoreLeavesNewContent | src/agent/patch-transaction.ts:1059-1083 | where the tree at the failure does not let all files be put back: those before the first in the way are, the installed ones from there on keep their new content, as others left it, the rest is left to others, and the history has not moved |
| PatchExample.OverwrittenWithoutTrace | src/agent/patch-transaction.ts:1045-1083 | a run in full that overwrites a file, cannot put it back and leaves the history unmoved |
| PatchExample.LateEditIsLost | src/agent/patch-transaction.ts:921-935 | a run in full that overwrites another process's late edit unseen and restores something else |
| PatchTransaction.PatchRuntime.CommittedOnlyThroughVerified | src/agent/patch-transaction.ts:576-582 | for every transaction of a runtime, whatever operations were called: committed was reached only by staging and verification, and rolled back is final |
| PatchTransaction.PatchRuntime.InitManagedTransaction | src/agent/patch-transaction.ts:778-845 | reports the first file an uncached check denies, and writes nothing; otherwise writes the snapshot record and, if that goes through, registers the transaction |
| PatchTransaction.PatchRuntime.WriteRecord | src/tools/transaction.ts:61-63 | makes the directory of the records and writes the record, or tells that it could not |
| PatchTransaction.PatchRuntime.FirstForbidden | src/agent/patch-transaction.ts:778-845 | the first file an uncached check would deny, found with a shared cache |
| PatchTransaction.PatchRuntime.ApplyToTemp | src/agent/patch-transaction.ts:847-871 | stages all files or leaves the state alone |
| PatchTransaction.PatchRuntime.VerifyManagedTransaction | src/agent/patch-transaction.ts:873-888 | moves to verified only from staged |
| PatchTransaction.PatchRuntime.CommitManagedTransaction | src/agent/patch-transaction.ts:890-988 | installs every file, or stops and moves neither history nor registry |
| PatchTransaction.PatchRuntime.InstallAll | src/agent/patch-transaction.ts:896-936 | the commit loop in place computes the run of the commit |
| PatchTransaction.PatchRuntime.InstallFile | src/agent/patch-transaction.ts:896-936 | one turn of the loop: temp file, boundary, directory, boundary, hash, rename, in that order, others acting before each |
| PatchTransaction.PatchRuntime.RollbackManagedTransaction | src/agent/patch-transaction.ts:1000-1030 | closes the transaction, removes its temp files, and does nothing the second time |
| PatchTransaction.PatchRuntime.RollbackCommitted | src/agent/patch-transaction.ts:691-713 | reads the record and restores snapshots; history and generation move only when all were restored |
| PatchTransaction.PatchRuntime.RecoverFrom | src/agent/patch-transaction.ts:1059-1082 | the failure path: restores what the failure calls for, closes the transaction, swallows a failing restore; history and write generation move by its rollback and nothing else |
| PatchTransaction.PatchRuntime.ApplyAndCommit | src/agent/patch-transaction.ts:1045-1083 | the whole life in place has the outcome the results above speak about, an unwritable record included; history and write generation move by that outcome and by what other patches do while the verification is awaited; the registry loses exactly this transaction |
| EvidenceLedger.LatestEntryDecides | src/agent/evidence-ledger.ts:204-226 | only the latest entry of a kind opens or closes the gate, however many passed before |
| EvidenceLedger.ClaimIsExact | src/agent/evidence-ledger.ts:352-449 | a claim is granted exactly when all steps are done, all files found and all kinds backed; the required kinds split into satisfied and unsatisfied, each kind listed once; a claim not granted names a blocker or a missing file |
| EvidenceLedger.RoundTripKeepsGate | src/agent/evidence-ledger.ts:535-570 | a restored checkpoint answers every gate question and every claim as the ledger did |
| EvidenceLedger.Ledger.AddEvidence | src/agent/evidence-ledger.ts:149-152 | appends, nothing else |
| EvidenceLedger.Ledger.MarkEvidenceStale | src/agent/evidence-ledger.ts:154-159 | marks the entries of one artifact and no other |
| EvidenceLedger.Ledger.LatestEvidence | src/agent/evidence-ledger.ts:180-188 | the last entry of a kind, or none |
| EvidenceLedger.Ledger.HasFreshPassingEvidence | src/agent/evidence-ledger.ts:204-226 | the loop finds the latest entry and applies the three layers to it |
| EvidenceLedger.Ledger.IngestVerificationResults | src/agent/evidence-ledger.ts:241-269 | appends the entries of known kinds in order, a result's own generation before the caller's |
| EvidenceLedger.Ledger.IngestTypecheck | src/agent/evidence-ledger.ts:271-294 | appends one typecheck entry, without a binding |
| EvidenceLedger.Ledger.AddManualEvidence | src/agent/evidence-ledger.ts:303-325 | appends one manual entry |
| EvidenceLedger.Ledger.CanClaimDone | src/agent/evidence-ledger.ts:352-449 | the loops in place compute the exact claim |
| CompletionOrchestrator.DoneExactlyWhen | src/agent/completion-orchestrator.ts:146-177 | a run is done exactly when every one of the five phases lets it pass |
| CompletionOrchestrator.DoneHasFreshEvidence | src/agent/completion-orchestrator.ts:387-441 | behind a done run each required kind has fresh passing evidence |
| CompletionOrchestrator.MessagesMatchDecision | src/agent/completion-orchestrator.ts:146-177 | a run sent back is told why; only the overlooked debt leaves a message in a done run |
| CompletionOrchestrator.OpenDebtsBlockExactlyWhen | src/agent/completion-orchestrator.ts:246-259 | open debts rule out done in the final round and have no influence before it |
| CompletionOrchestrator.OpenDebtOverlooked | src/agent/completion-orchestrator.ts:246-259 | a done run with an open debt |
| CompletionOrchestrator.PlanningIsTakenUp | src/agent/completion-orchestrator.ts:198-244 | a plan under way is activated exactly when approved, before the final round and not held up by the ripple; its rejections are then forgotten in any case |
| CompletionOrchestrator.Orchestrator.Evaluate | src/agent/completion-orchestrator.ts:146-177 | the phases, filling one record step by step, compute the evaluation |
| CompletionOrchestrator.Orchestrator.EvaluateSyncChain | src/agent/completion-orchestrator.ts:181-261 | the chain's answer acted on, a context-debt block aside, plan activation and the count of rejections included |
| CompletionOrchestrator.Orchestrator.EvaluateExternalGate | src/agent/completion-orchestrator.ts:264-318 | stops a run that needs the gate and is not let through |
| CompletionOrchestrator.Orchestrator.EvaluateFlashJudge | src/agent/completion-orchestrator.ts:321-384 | stops a run the judge is not satisfied with |
| CompletionOrchestrator.Orchestrator.EvaluateEvidenceGate | src/agent/completion-orchestrator.ts:387-441 | stops a run whose claim is not granted, and records the claim |
| CompletionOrchestrator.Orchestrator.EvaluateTruthfulnessGate | src/agent/completion-orchestrator.ts:445-470 | stops a run whose text claims what no evidence backs |
| EvidenceRuns.DoneIsFresh | src/agent/completion-orchestrator.ts:387-441 | in every run, done is never decided on evidence older than the last write, rollback or commit, with two exceptions: a patch that lost its restore, and commits in runs whose shell writes are covered |
| EvidenceRuns.DoneIsFreshWhenRecorded | src/tools/file.ts:731-752 | when every commit is at once followed by the record of its write, the second exception is gone |
| EvidenceRuns.DoneRunExists | src/agent/completion-orchestrator.ts:146-177 | runs exist that end done on fresh evidence after a commit and a recorded write |
| EvidenceRuns.LostRestoreMissed | src/agent/patch-transaction.ts:1059-1082 | the first exception is real: a run that ends done on evidence from before a lost restore |
| EvidenceRuns.AcceptedEvidenceIsFresh | src/agent/evidence-ledger.ts:204-226 | evidence the gate accepts was made after the last write and, given a binding, after the last commit and rollback |
| EvidenceRuns.AlwaysHonest | src/agent/evidence-ledger.ts:241-259 | in every run each entry carries the generation and binding of the moment it was made |
| EvidenceRuns.CommitAfterCoverageMissed | src/agent/completion-orchestrator.ts:47-51 | the second exception is real: a run that ends done after a commit the covered verification never saw |
| EvidenceRuns.HasCoveredExactlyWhen | src/file-state/runtime-file-state.ts:65-110 | in every run, its shell writes count as covered exactly when some were observed and every path of each was covered later |
| EvidenceRuns.CoverableExactlyWhen | src/file-state/runtime-file-state.ts:65-110 | coverage can be reached without a new shell write exactly when some shell write is covered or known |
| EvidenceRuns.DoneReachableExactlyWhen | src/agent/completion-orchestrator.ts:387-441 | after a write past the managed tools, a run that owes a typecheck can end done without a new shell write exactly when some shell write is covered or known |
| EvidenceRuns.UnknownWriteBlocksForGood | src/file-state/runtime-file-state.ts:65-83 | after a write past the managed tools, with no shell write covered or known, no requirement is ever met again without a new shell write |
| EvidenceRuns.UnknownWritesNeverCount | src/file-state/runtime-file-state.ts:65-110 | leaving out a write at an unknown place anywhere in a run changes nothing about its coverage |
| EvidenceRuns.ForeignEvidenceNeedsSameHistory | src/agent/patch-transaction.ts:661-684 | evidence of another run matches only if both had the same commits and rollbacks |
| PatchRuns.PatchIsStep | src/agent/patch-transaction.ts:1045-1083 | every patch is a commit, a rollback or a lost restore among the steps of its run, moving history and write generation by exactly the patch's own events; or it is no step, and then it moved nothing and installed nothing |
| PatchRuns.LosesRestoreExactlyWhen | src/agent/patch-transaction.ts:1059-1082 | it is a lost restore exactly when it failed with something to put back and the tree at the failure does not let all of it be put back |
| PatchRuns.NoStepSparesTargets | src/agent/patch-transaction.ts:1045-1083 | a patch that is no step leaves every target to the other processes |
| PatchRuns.DoneSparesFiles | src/agent/completion-orchestrator.ts:387-441 | in every run of patches and other steps that ends done, no patch since the evidence behind it was made wrote a file, except one that failed on files it could not put back and, where shell writes are covered, one that was committed |
| PatchRuns.DoneOverOverwrittenFile | src/agent/patch-transaction.ts:1059-1082 | a run in full that ends done although its last act, a patch, overwrote a file and could not put it back |
| PlanGraph.OrderedMeansAcyclic | src/agent/plan-validator.ts:57-96 | a topological order rules out every closed walk |
| PlanValidator.CycleSearch.Visit | src/agent/plan-validator.ts:63-89 | one visit keeps the search coherent, closes a cycle exactly at a gray node and leaves a white one black |
| PlanValidator.CycleSearch.Report | src/agent/plan-validator.ts:66-77 | the path from the second meeting back to itself is reported as a cycle |
| PlanValidator.CycleSearch.VisitAll | src/agent/plan-validator.ts:91-93 | every node is black in the end |
| PlanValidator.CheckCycles | src/agent/plan-validator.ts:57-96 | every report is a genuine simple cycle; nothing is reported exactly when there is none, and then the finishing order is topological |
| PlanValidator.RepeatsAreTheSurplus | src/agent/plan-validator.ts:99-116 | as many ids repeat as there are nodes beyond distinct ids |
| PlanValidator.CheckUniqueness | src/agent/plan-validator.ts:99-116 | one issue for every node beyond the first of its id, in order |
| PlanValidator.CheckDependencyValidity | src/agent/plan-validator.ts:238-255 | one issue for every dependency on a missing node, none exactly when nothing dangles |
| PlanValidator.CheckEquipment | src/agent/plan-validator.ts:119-197 | no error exactly when every tracker has steps and every packet a requirement; a warning exactly when some requirement has no kind; trackers first, node by node |
| PlanValidator.ReportLosesNothing | src/agent/plan-validator.ts:41-51 | the report divides the issues and is clean exactly when none is an error |
| PlanValidator.ValidatePlan | src/agent/plan-validator.ts:273-292 | clean exactly for non-empty, uniquely named, acyclic, equipped plans without dangling dependencies |
| PlanProgress.AcyclicNeverDeadlocks | src/agent/master-plan.ts:319-349 | without a cycle, while anything is unsettled some node can be activated |
| PlanProgress.AnyOrderCompletes | src/agent/master-plan.ts:319-349 | whatever acceptable nodes are chosen, the plan completes in exactly as many rounds as nodes were unsettled |
| PlanProgress.CompletingOrder | src/agent/master-plan.ts:319-365 | such an order exists, continuing any beginning |
| PlanProgress.ExecutableSameShape | src/agent/master-plan.ts:112-114 | status changes never spoil a clean plan |
| PlanProgress.GateMovesExactlyWhen | src/agent/master-plan.ts:387-416 | the gate resumes when a node is pending, and has moved exactly when the first pending one was acceptable |
| PlanProgress.GateStandsStill | src/agent/master-plan.ts:387-416 | any equipped plan of a pending node listed before the pending one it depends on is clean, and the gate resumes on it for ever without activating anything |
| PlanProgress.GateNeverStandsStill | src/agent/master-plan.ts:387-416 | listed in dependency order with nothing active or blocked, the gate always moves |
| PlanProgress.ReleasableExactlyWhen | src/agent/master-plan.ts:490-508 | the ripple releases exactly the blocked nodes that could be activated and depend on nothing missing |
| NodeIds.ParseIntOfStringOf | src/agent/master-plan.ts:254-257 | reading a number written as an id gives the number back |
| PlanRuns.NextNodeIdIsFresh | src/agent/master-plan.ts:254-257 | the next id is nobody's, whatever the ids in use look like |
| PlanRuns.ActivateEffect | src/agent/master-plan.ts:319-341 | an activation happens with all dependencies met and changes at most one other node |
| PlanRuns.OperationKeepsSound | src/agent/master-plan.ts:260-357 | no operation breaks unique ids or "the active node is the current one" |
| PlanRuns.EveryRunSound | src/agent/master-plan.ts:125-357 | so every run from a fresh plan keeps both, and numeric ids |
| PlanRuns.GateStandsStillInRun | src/agent/master-plan.ts:319-508 | four operations on a fresh plan lead there |
| PlanRuns.ReviseUniqueExactlyWhen | src/agent/master-plan.ts:594-616 | replanning keeps ids unique exactly when a frozen id is a number or at most one new node comes |
| PlanRuns.ReviseRepeatsIds | src/agent/master-plan.ts:594-616 | a replanning in full that names two nodes alike |
| PlanRuns.ReviseKeepsSettled | src/agent/master-plan.ts:585-616 | settled nodes stay, unchanged and in order, before new ones with larger numbers |
| PlanRuns.ReviseCompletesExactlyWhen | src/agent/master-plan.ts:598-620 | replanning leaves nothing to do exactly when no proposed title is long enough |
| PlanRuns.ReviseActivatesUnmet | src/agent/master-plan.ts:618-620 | the first new node's dependencies are met exactly when none is another new node |
| PlanRuns.ReviseActivatesEarly | src/agent/master-plan.ts:618-620 | a replanning in full whose active node depends on the one after it |
| PlanRuns.DoneStaysExactlyUnless | src/agent/master-plan.ts:343-357 | a done node stays done under every operation but being marked blocked |
| MasterPlan.MasterPlan.constructor | src/agent/master-plan.ts:125-144 | the fresh plan: ids from "1" on, the first node active and current |
| MasterPlan.MasterPlan.ActivateNode | src/agent/master-plan.ts:319-341 | in place: null exactly for an unacceptable node, otherwise the activation, the last validation still right |
| MasterPlan.MasterPlan.AddNode | src/agent/master-plan.ts:260-281 | in place: a node with a fresh id at the place asked for |
| MasterPlan.MasterPlan.RemoveNode | src/agent/master-plan.ts:284-299 | in place: the node goes unless done, and the next pending one is tried |
| MasterPlan.MasterPlan.SkipNode | src/agent/master-plan.ts:302-315 | in place: the node is skipped unless done, and the next pending one is tried |
| MasterPlan.MasterPlan.MarkNodeDone | src/agent/master-plan.ts:343-349 | in place: that node is done, no other changes |
| MasterPlan.MasterPlan.MarkNodeBlocked | src/agent/master-plan.ts:351-357 | in place: that node is blocked whatever its status was, no other changes |
| MasterPlan.MasterPlan.PlanComplete | src/agent/master-plan.ts:363-365 | the loop answers whether every node is settled |
| MasterPlan.MasterPlan.BlockTask | src/agent/master-plan.ts:479-487 | in place: the edge is recorded once at both ends |
| MasterPlan.MasterPlan.BuildNodeReviewGate | src/agent/master-plan.ts:387-416 | in place: the answer and the activation of the gate |
| MasterPlan.MasterPlan.FindUnblockedNodes | src/agent/master-plan.ts:490-496 | finds exactly the releasable nodes |
| MasterPlan.MasterPlan.AutoUnblockByRipple | src/agent/master-plan.ts:499-508 | in place: exactly the releasable nodes become pending, and are counted |
| MasterPlan.MasterPlan.RevisePlan | src/agent/master-plan.ts:535-633 | builds the replanned nodes anew; the old plan is left alone |
| Transcript.HasUnclosedToolChain | src/provider/transcript-manager.ts:209-230 | the loops compute the saturating count of pending calls |
| Transcript.PendingCountsOpenCalls | src/provider/transcript-manager.ts:209-230 | where calls and results match up, the count is the number of open calls |
| Transcript.NothingOpenNothingSplit | src/agent/context-epoch.ts:421-442 | a cut where no call is open tears none from its result |
| ContextEpoch.ThresholdsAreOrdered | src/agent/context-epoch.ts:50-64 | for every window and any non-negative defaults the thresholds are in order, none above its default or its share of the window |
| ContextEpoch.CalibrationKeepsOrder | src/agent/context-epoch.ts:249-259 | calibration by any density keeps the order |
| ContextEpoch.ActionIsMonotone | src/agent/context-epoch.ts:261-271 | more characters never make the action milder |
| ContextEpoch.ActionFollowsDensity | src/agent/context-epoch.ts:249-271 | nor do fewer characters a token |
| ContextEpoch.FindSafeRolloverBoundary | src/agent/context-epoch.ts:421-442 | the last safe boundary, or that there is none |
| ContextEpoch.FindCut | src/agent/context-epoch.ts:340-361 | the walk from the end, and the minimum of two messages |
| ContextEpoch.EpochRollover | src/agent/context-epoch.ts:305-405 | when it refuses; archived and retained make up the input; what was trimmed; where it cut |
| ContextEpoch.FallbackIsSafe | src/agent/context-epoch.ts:323-339 | the fallback tears no call from its result |
| ContextEpoch.FallbackIsSafeDirectly | src/agent/context-epoch.ts:323-339 | nor does it where every call is answered by the next message, stray results included |
| ContextEpoch.FallbackKeepsPending | src/agent/context-epoch.ts:323-339 | exactly the calls that were pending stay pending |
| ContextEpoch.CutStaysClosed | src/agent/context-epoch.ts:340-361 | a closed transcript is closed after any cut |
| ContextEpoch.NormalSplitsExactlyWhen | src/agent/context-epoch.ts:340-361 | the normal path tears a pair exactly when the minimum of two messages moves the cut between the two |
| ContextEpoch.NormalIsSafe | src/agent/context-epoch.ts:340-361 | with two or more turns to keep, and there, nothing is torn and exactly that many turns stay |
| ContextEpoch.KeepingOneSplits | src/agent/context-epoch.ts:354-361 | keeping one turn tears a closed transcript apart |
| ContextEpoch.KeepingThreeSplits | src/agent/context-epoch.ts:340-361 | so does keeping three or more where fewer turns are there |
| ContextEpoch.StrayResultMisleadsFallback | src/agent/context-epoch.ts:421-442 | a stray result makes the fallback cut inside an open call |
| PathSpelling.NormalizePathForPattern | src/agent/permission-config.ts:97-109 | the loop over segments computes the normal form |
| PathSpelling.SplitOfJoin | src/agent/permission-config.ts:97-109 | splitting undoes joining |
| PathSpelling.CanonicalIsProper | src/agent/permission-config.ts:97-109 | a normal form has no empty, `.` or `..` segment and no hidden separator |
| PathSpelling.NormalizeIsIdempotent | src/agent/permission-config.ts:97-109 | normalising twice is normalising once |
| PathPattern.MatchSegments | src/agent/permission-config.ts:130-159 | the backtracking loops compute the recursive matcher, errors of the regular expression included |
| PathPattern.MatchFrom | src/agent/permission-config.ts:139-148 | the loop after `**` tries every remaining position, the end included |
| PathPattern.MatchSingleIsDenoted | src/agent/permission-config.ts:161-168 | inside a segment `*` is any run and other characters stand for themselves |
| PathPattern.GlobIsDenoted | src/agent/permission-config.ts:130-159 | the matcher succeeds exactly when the path can be cut into blocks the pattern's segments cover |
| PathPattern.MatchIsPromised | src/agent/permission-config.ts:111-128 | the whole decision is what the pattern promises, exclusions included, for every pattern without `?` |
| PathPattern.SameFileSameAnswer | src/agent/permission-config.ts:116-117 | spellings of a file with one normal form get one answer |
| PathPattern.SpellingMattersExactlyWhen | src/agent/permission-config.ts:112-122 | a pattern and its normal form agree exactly when the leading exclusions are even or their segment survives |
| PathPattern.SpellingMatters | src/agent/permission-config.ts:112-122 | "!a/../b" and its normal form answer every file differently |
| JsonComments.StripJsoncComments | src/config/config-loader.ts:26-79 | the one pass writes the text of the tokens that are no comments |
| JsonComments.LexOfStripped | src/config/config-loader.ts:26-79 | the output reads as exactly the kept tokens, every string unchanged |
| JsonComments.StrippingIsIdempotent | src/config/config-loader.ts:26-79 | the output opens no comment outside a string and stripping it again changes nothing |
| JsonComments.UnchangedExactlyWithoutComments | src/config/config-loader.ts:26-79 | a text is left as it is exactly when it holds no comment |
| FileCache.EditsKeepTrust | src/context/staged.ts:226-247 | whatever others write, a trustworthy entry stays right or shows by its mtime that it is not |
| FileCache.LookKeepsTrust | src/context/staged.ts:229-245 | stat before read leaves a trustworthy entry, whatever is written between the two |
| FileCache.RefreshKeepsTrust | src/context/staged.ts:226-247 | so does a whole refresh under any writes, and unlisted entries are unchanged |
| FileCache.RefreshReadsDisk | src/context/staged.ts:226-247 | undisturbed, a refresh leaves the content on disk, and the old entry for files gone or unreadable |
| FileCache.StagedContextManager.RefreshLoadedFiles | src/context/staged.ts:226-247 | the loop in place, with its two lists |
| FileCache.StagedContextManager.MarkLoaded | src/context/staged.ts:271-282 | loads or refreshes one file and keeps the cache trustworthy |
| FileCache.StagedContextManager.MarkEdited | src/context/staged.ts:284-291 | reads before it stats: the cache stays trustworthy exactly when the content did not change in between |
| FileCache.RacedEntryGoesUnnoticed | src/context/staged.ts:234-237 | no later refresh notices the entry such a race leaves |
| ContextLocate.ContextMapReadSession.ReadTextWithOutcome | src/context/context-map.ts:175-214 | what one read returns and which flags it sets; the budget is never exceeded |
| ContextLocate.Selection.PushTopK | src/context/context-map.ts:570-582 | the kept hits are the best of all seen, and none is lost |
| ContextLocate.Locate | src/context/context-map.ts:517-531 | the scan stops only by abort or exhaustion and keeps the best of every positively scored text, as many as there are up to the limit |
| ContextLocate.KeptByScore | src/context/context-map.ts:570-582 | for every score as many kept as seen hits reach it, up to the limit, whatever the order |
| OutputBudget.EveryDecisionLeavesRoom | src/agent/router.ts:213-401 | on every path thinking and action share a total within both caps, and action gets its minimum and ratio |
| OutputBudget.DecideMaxTokens | src/agent/router.ts:390-401 | the envelope lies between 4096 and 16384 |
| OutputBudget.RoomLeavesReserve | src/agent/router.ts:305-311 | the room for thinking leaves the stage's minimum and ratio, and is there exactly from the minimum on |
| OutputBudget.NegativeExactlyWhen | src/agent/router.ts:326-333 | thinking is negative exactly for a negative liveness cap where there is room |
| OutputBudget.ErrorsKeepActionRoom | src/agent/router.ts:222-262 | while executing, where thinking is asked for anyway, an error never leaves less for action |
| OutputBudget.ErrorsDeepenExactlyWhen | src/agent/router.ts:222-401 | exactly when an error deepens thinking while executing, for all caps |
| OutputBudget.SmallEditThinksDeeper | src/agent/router.ts:222-401 | a small edit without caps whose thinking grows from 7372 to 8192 when a call fails |
| OutputBudget.ErrorsDeepenPlanningExactlyWhen | src/agent/router.ts:222-401 | exactly when it does while planning, for all caps |

## Left out

- WriteFile: writing through an existing link is an error here; following the link is not modelled.
- AllOrNothing: other processes are taken not to write into the temp directory, nor to rewrite the snapshot record; and to act during verification and installation only, not during proposal, staging and restoring.
- InstallFile: each check and each system call sees one tree; others act between them, not in the middle of one. A write that fails leaves nothing half written, nor the directories made for it.
- RollbackCommitted: what the record says is its text only; one that somebody rewrote counts as unreadable.
- ConflictUndoesExactly: the content hash is taken to have no collisions; the source cuts a SHA-256 short.
- ApplyAndCommit: the registry is taken unchanged while the verification is awaited; other patches of the run may open and close in that time.
- StateIdNamesHistory: the chained hash is taken to have no collisions, and transaction ids to hold no NUL.
- NextNodeIdIsFresh: ids count in unbounded integers; from 2^53 on the source's addition rounds.
- ParseIntOfStringOf: white space is the four ASCII kinds, and numbers have no exponent form.
- RevisePlan: the model's answer is an arbitrary input, with whole numbers as dependencies; a packet that fails its own validation reads as no answer.
- ValidatePlan: the checks for done criteria, scope and title length, which only warn.
- AddNode: how a title becomes a tracker and a packet; both are inputs.
- MatchIsPromised: patterns with `?`, which the source passes on to the regular expression, are in the matcher with the errors they cause, but what they mean is not stated apart from it.
- EpochRollover: the preamble is its length only; the snapshot record, the digest and the archive's persistence.
- ReadTextWithOutcome: characters stand for bytes, and the reader is taken to honour its limit.
- Locate: the final sort by score, symbols, references and confidence.
- RefreshLoadedFiles: the content digest, which nothing here reads; every write is taken to give a file an mtime it never had before; files are named by one path each.
- DecideThinkingPlan: the score is an arbitrary number; the patterns behind it and the list of factors.
- Evaluate: the judge's verdict, the claims found in the text, the mode's exit criteria and the tracker's unproven kinds are arbitrary inputs; message text, traces and the testimony record.
- IngestVerificationResults: receipts of the sandbox are not ingested.
- The relevance ranking of cached files and the text of the forked stable context.
- Merging of configuration layers and of environment overrides.
- Prompt, status and diff text, timestamps and random ids.
- Checkpoints on disk, processes, and everything under src/runtime/linux.
- Keyword and regular-expression classifiers, whose only property is their table.
