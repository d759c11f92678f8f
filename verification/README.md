# raytsystem durability protocols in Dafny

raytsystem keeps a knowledge ledger, a task board and editable skill files in a workspace directory, with a SQLite
control database beside it. What it promises rests on a few hand-built durability protocols. This project models those
protocols step by step and proves what they keep over every run: every interleaving of workers, a crash at every
boundary, arbitrary clock readings.

* **Promotion** (`LedgerTypes`, `Leases`, `Promotion*`, `ControlPlane`, `Pipeline*`, `Projection`). Workers prepare a
  candidate generation, take a source lease and a global lease, record the candidate in a write-ahead row and an event
  outbox, move `ledger/CURRENT` and then reconcile. `Promotion` is the state machine: each database transaction, each
  file publication and each read of a shared location is one step, a worker can raise or be killed at every step, and a
  heartbeat can renew its leases at any time. `ControlPlane` and `Pipeline` are the same operations as code:
  `ControlDB` holds the tables, `IngestPipeline` the workspace files, and every method of the pipeline proves that what
  it did is a run of the state machine.
* **Task board** (`Task*`). An event-sourced board: generations and events form chains, a validator walks the whole
  ancestry, commands are idempotent, and tasks depend on each other. `TaskService.Service` is the service itself.
* **Skill save** (`Skill*`). A compare-and-swap of `SKILL.md` built from link, rename and unlink, with a journal and
  three witness files. `SkillSave` is the state machine with a foreign writer, crashes, restarts and failing system
  calls; `SkillOutcomes` says what it leaves undisturbed, `SkillGuards` what it has seen before each step, and
  `SkillAuthoring.SkillDirectory` is the code.
* **Companions**: the hash-chained audit log, the two-phase Git checkpoint, the migration-path search and the brand
  migration with its compensation.

Identifiers and digests are constructors that carry their material. Equal identifiers therefore have equal material,
and an ancestry is well founded because an identifier contains its parent's; nothing is assumed about hashing.
All invariants are proved from the initial state.

## What the code does not promise

Properties one would expect of the code and that do not hold without a condition. The code is modelled as it is; each
failure has a concrete run or input, and the exact condition under which the property holds is proved.

* **Recovery after the swap.** `recover_run` looks for the newest row of the operation that was not aborted
  (`src/raytsystem/control.py:577-583`). If that is not the row CURRENT came from, the call fails, and since every
  later promotion first asks for a reconciled CURRENT, the ledger can stay where it is for ever. Both ways to lose the
  row are reachable: it was aborted (`AbortedCurrentWedges`), or a stale worker whose clock was ahead stored a newer
  row of the operation and was killed before it aborted the older one (`NewerRowWedges`). While no worker is past its
  check, in particular after a crash of all workers, CURRENT can be reconciled exactly if the newest live row is its
  own or it lacks nothing but the marker (`CrashRecoverableIff`, and for a crash in any reachable state
  `CrashNowRecoverableIff`); the first of the two decides a call of `RecoverRun`, and either is enough whatever
  workers are running (`RecoverableReconciles`). A CURRENT whose row was aborted is never left, whatever other workers
  do (`AbortedCurrentIsNeverLeft`).
* **Aborted rows.** The abort of a superseded row (`src/raytsystem/ingestion.py:2593-2598`) is not made under the
  leases. A worker that overran its lease can abort the row its successor is about to commit, and the generation of an
  aborted row becomes CURRENT (`AbortedRowIsCommitted`). It can happen exactly when a worker with unbroken fences
  stands at the swap to that row (`AbortedBecomesCurrentIff`), and never after a run whose aborts were made by the
  holder of the global fence (`FencedAbortsAreFinal`).
* **Leaving a reconciled generation.** A generation that CURRENT leaves always has its event published, its outbox
  entry appended and its row completed (`PointerMovesToChild`), and it was fully reconciled when the swapping worker
  checked it (`SwapWasChecked`). But the operation row and the run manifest are written without a fence (435-441,
  1093-1098, 1110-1115, 2649-2653, 2822-2826, 3118-3124), so a stale worker can reopen the operation before the
  pointer leaves it (`UnreconciledIsLeft`), and `rebuild-index` writes the marker without a lease
  (`src/raytsystem/projections.py:74-79`), so a slow rebuild can put the marker of an older generation back
  (`StaleRebuildUndoes`). Nor does a lease have to be overrun to leave it unreconciled: a call that entered with an
  old bundle of an operation completed since rewrites, while it rebases, the manifest of the very generation it is
  about to leave (`FencedSwapRepeats`). `StaysReconciledIff` lists exactly the steps that take reconciliation back.
  They reopen the operation row, the run manifest or the marker, and `SwapLeavesReconciledIff` says that the
  generation is left reconciled exactly if each such step since the check is followed by one of the writes that close
  the same part.
* **One generation per operation.** The same run gives an operation a second generation. That happens exactly when
  CURRENT is moved for an operation that has a completed row (`RunRepeatsIff`).
* **Task commands.** Stored models strip the white space around text (`src/raytsystem/contracts/base.py:121`), while
  the operation key is derived from the text as given. A command with a padded title, description, reference, actor or
  blocking reason therefore passes every check of the service and is then refused by the validator, which derives the
  key from the stored text (`PaddedTitleIsRefused`, `PaddedActorIsRefused`). So is a command that gives a
  `blocked_reason` for a target other than `blocked` (`ReasonWithoutBlockingIsRefused`) or whose time lies before the
  board's last generation (`EarlierCreationIsRefused`). `CommandValidatesIff` states the exact condition, apart from
  the byte limits and the sensitivity scanner named under "Left out".
* **Skill recovery.** A kill while the proposed file is being filled leaves it torn: recovery keeps the journal and
  leaves `SKILL.md` untouched (`CrashedSaveRecovers`). A second crash inside the rollback can leave a state that needs
  manual recovery (`SecondCrashNeedsHelp`); `RecoveryIff` says exactly when rollback goes through.

## Model

| member | source | states |
|---|---|---|
| `LedgerTypes.AncestryPreservesClaims` | src/raytsystem/ingestion.py:2467-2484 | along an ancestry no claim key disappears or changes its text, every live claim's evidence only grows and its recording time only falls |
| `LedgerTypes.PromotedEvidenceSurvives` | src/raytsystem/ingestion.py:1125-1147 | a claim promoted anywhere in an ancestry has its evidence in the head |
| `LedgerTypes.CanonicalIffCandidate` | src/raytsystem/ingestion.py:3009-3047 | a candidate whose claim merging leaves alone is exactly one that merges some proposal into its parent |
| `LedgerTypes.RebaseIsFreshPreparation` | src/raytsystem/ingestion.py:3049-3133 | rebasing what was prepared for a proposal onto any descendant of its parent gives exactly what a fresh preparation of that proposal there would give |
| `LedgerTypes.RebaseKeepsBothEvidences` | src/raytsystem/ingestion.py:3009-3047 | of two proposals prepared on one parent, the rebased loser's generation holds the evidence of both |
| `LedgerTypes.CandidateAdds` | src/raytsystem/ingestion.py:3009-3047 | a generation differs from its parent in one claim, with exactly the evidence of the parent's and of the proposal, the earlier of both times and the parent's text |
| `LedgerTypes.EventNamesGeneration` | src/raytsystem/ingestion.py:1147-1164 | a generation carries the time of its run, and its event names the generation, its parent, its operation and that time |
| `Leases.TokensNeverDecrease` | src/raytsystem/control.py:270-303 | over any run of calls and clock readings the token of a partition never decreases |
| `Leases.OneOwnerPerToken` | src/raytsystem/control.py:281-303 | if two acquisitions, with any calls between them, issue the same token of a partition, they issued it to the same owner |
| `Leases.EndedLeasesAreSuperseded` | src/raytsystem/control.py:286-296 | releasing a lease, or issuing a later token of its partition, supersedes it |
| `Leases.SupersededForEver` | src/raytsystem/control.py:305-459 | a lease once released or superseded never again passes verification, renewal or holding in any tuple, and releasing it changes nothing |
| `Leases.HoldRenews` | src/raytsystem/control.py:347-402 | holding with renewal succeeds exactly if every lease is valid; rows and leases of the tuple then run out at `now + ttl` and no other row changed |
| `Leases.HoldReads` | src/raytsystem/control.py:347-402 | holding without renewal succeeds exactly if every lease is valid, changes no row and returns each lease with the expiry of its row |
| `Leases.RenewHeldRenews` | src/raytsystem/control.py:404-444 | renewing held leases succeeds exactly if every fence is unbroken; rows and leases of the tuple then run out at `now + ttl` and no other row changed |
| `ControlPlane.ControlDB.AcquireLease` | src/raytsystem/control.py:270-303 | succeeds exactly on a missing, free, expired or own row, with token 1, a token one larger, or the same token of a live own lease; the row then carries owner, token and `now + ttl` |
| `ControlPlane.ControlDB.VerifyLease` | src/raytsystem/control.py:305-316 | true exactly for a lease whose fence matches and which has not expired |
| `ControlPlane.ControlDB.RenewLease` | src/raytsystem/control.py:318-345 | extends exactly a valid lease, which is then valid exactly before `now + ttl`, else changes nothing |
| `ControlPlane.ControlDB.HoldValidLeases` | src/raytsystem/control.py:347-402 | succeeds exactly if all leases of the tuple are valid; with renewal their rows run out at `now + ttl`, without it no row changes; each lease comes back with the expiry its row carries; otherwise nothing changes |
| `ControlPlane.ControlDB.RenewHeldLeases` | src/raytsystem/control.py:404-444 | succeeds exactly if every fence of the tuple is unbroken; every lease of it is then valid exactly before `now + ttl` and rows of other partitions are unchanged; otherwise nothing changes |
| `ControlPlane.ControlDB.ReleaseLease` | src/raytsystem/control.py:446-459 | clears owner and expiry of exactly a matching row and keeps its token |
| `ControlPlane.ControlDB.StorePromotion` | src/raytsystem/control.py:461-549 | inserts a prepared row with the next row number, or keeps the state of the row that is there |
| `ControlPlane.ControlDB.UpdatePromotionState` | src/raytsystem/control.py:551-575 | makes exactly the legal transitions, and raises without effect otherwise |
| `ControlPlane.ControlDB.PromotionForOperation` | src/raytsystem/control.py:577-583 | returns the row of the operation that was not aborted with the latest time and then the largest row number, which is unique, and none exactly when there is none |
| `ControlPlane.ControlDB.StoreEventOutbox` | src/raytsystem/control.py:592-620 | adds a pending entry once and never resets one that is there |
| `ControlPlane.ControlDB.MarkEventAppended` | src/raytsystem/control.py:622-627 | marks exactly the entry of the event |
| `ControlPlane.ControlDB.AdvancePromotionState` | src/raytsystem/ingestion.py:3225-3254 | moves a row to the further of its own state and the target, and fails exactly on a missing or aborted row |
| `ControlPlane.LatestExists` | src/raytsystem/control.py:577-583 | an operation has a newest row exactly when it has a row that was not aborted |
| `PromotionSteps.StepKeepsInv` | src/raytsystem/ingestion.py:2393-2679 | every step of every worker, and every exception and kill, keeps the invariant of the protocol |
| `PromotionSteps.ReachableInv` | src/raytsystem/ingestion.py:2393-2679 | the invariant holds in every state reachable from the empty ledger |
| `PromotionTheorems.OnlySwapMoves` | src/raytsystem/ingestion.py:2600-2646 | CURRENT moves only in the fenced swap, from the candidate's parent to the candidate, with both leases valid; a crash before it leaves CURRENT unchanged |
| `PromotionTheorems.PointerMovesToChild` | src/raytsystem/ingestion.py:2425-2438 | over every interleaving and crash, CURRENT only moves to a well-formed child, and the generation it leaves has its event published, outbox appended and row completed |
| `PromotionTheorems.RunMovesToChildren` | src/raytsystem/ingestion.py:2600-2646 | the same along every run from the empty ledger, however long |
| `PromotionTheorems.OnlyNewestUnsettled` | src/raytsystem/ingestion.py:2700-2775 | in every reachable state at most the newest generation is not settled |
| `PromotionTheorems.RowsAgreeWithPointer` | src/raytsystem/ingestion.py:2439-2491 | committed, reconciling and completed rows name CURRENT or an ancestor, prepared rows neither, a committing row in the ancestry is CURRENT, and a row strictly below CURRENT is completed |
| `PromotionTheorems.EvidenceOnlyGrows` | src/raytsystem/ingestion.py:1487-1490 | no continuation of any reachable state loses a claim or evidence of CURRENT |
| `PromotionTheorems.CommittedEvidenceInCurrent` | src/raytsystem/ingestion.py:3009-3133 | every operation whose row got past the commit has its evidence in CURRENT |
| `PromotionTheorems.MaterializationResolves` | src/raytsystem/ingestion.py:3143-3159 | a worker that owns CURRENT and reaches materialization finds the event of every ancestor |
| `PromotionFencing.AbortedBecomesCurrentIff` | src/raytsystem/ingestion.py:2593-2602 | the generation of an aborted row is or becomes part of the ancestry exactly when it already is, or CURRENT is its parent and a worker with unbroken fences stands at the swap |
| `PromotionFencing.DeadThroughRun` | src/raytsystem/ingestion.py:3225-3254 | an aborted row that is neither in the ancestry nor at a fenced swap stays so through every run |
| `PromotionFencing.FencedAbortsAreFinal` | src/raytsystem/ingestion.py:2593-2602 | after a run whose aborts were made by the holder of the global fence, no aborted row's generation is in the ancestry in any continuation |
| `PromotionWitness.AbortedRowIsCommitted` | src/raytsystem/ingestion.py:2593-2646 | a reachable state whose CURRENT is the generation of an aborted row |
| `PromotionReconciled.StaysReconciledIff` | src/raytsystem/ingestion.py:2647-2679 | while CURRENT stays, a step keeps it fully reconciled exactly unless it reopens its operation, stops it for approval, prepares or restages it, rewrites its run manifest or rebuilds the marker of an older generation |
| `PromotionReconciled.SwapWasChecked` | src/raytsystem/ingestion.py:2425-2438 | for every run from the empty ledger and every step that moves CURRENT, the swapping worker passed its check at an earlier step at which the generation it leaves was CURRENT and fully reconciled |
| `PromotionReconciled.SwapLeavesReconciledIff` | src/raytsystem/ingestion.py:2425-2438 | for every such run and step, the generation is left fully reconciled exactly if every step since that check that reopened its operation row, its run manifest or the marker is followed by a step that closes that part |
| `PromotionReconciled.StepTurns` | src/raytsystem/ingestion.py:2647-2679 | after any step each of the three parts is done exactly if the step closes it, or it was done and the step does not reopen it |
| `PromotionReconciled.MarkerNamesResolved` | src/raytsystem/projections.py:62-79 | in every reachable state the marker names CURRENT or an ancestor, with the events of its whole ancestry published |
| `PromotionWitness.UnreconciledIsLeft` | src/raytsystem/ingestion.py:2647-2653 | a reachable step that moves CURRENT away from a generation whose operation a stale worker reopened |
| `PromotionTwice.FencedSwapRepeats` | src/raytsystem/ingestion.py:2467-2484 | a reachable state with one worker that holds valid leases on a reconciled CURRENT, from which its own steps swap with both leases valid, leave CURRENT unreconciled and give its operation a second generation |
| `PromotionRepeats.InAncestryIffCompleted` | src/raytsystem/ingestion.py:2439-2491 | once CURRENT is settled, the operations in its ancestry are exactly those with a completed row |
| `PromotionRepeats.RunRepeatsIff` | src/raytsystem/ingestion.py:2467-2484 | for every run, an operation has two generations in the ancestry exactly if CURRENT was moved for an operation that had a completed row |
| `PromotionRecovery.AbortedCurrentIsNeverLeft` | src/raytsystem/ingestion.py:2700-2775 | a CURRENT whose row was aborted is in no continuation left, settled, reconciled or the newest live candidate of any operation |
| `PromotionRecovery.CrashRecoverableIff` | src/raytsystem/ingestion.py:475-556 | while no worker is past its check, in particular after a crash of all workers, an unreconciled CURRENT can become reconciled exactly if the newest live row of its operation is its own or it lacks only the marker, and is otherwise never left |
| `PromotionRecovery.CrashNowRecoverableIff` | src/raytsystem/ingestion.py:475-556 | in every reachable state, if all workers are killed now, CURRENT can be reconciled exactly when it is already or one of the two conditions holds |
| `PromotionRecovery.RecoverableReconciles` | src/raytsystem/ingestion.py:475-556 | either of the two conditions is enough in every reachable state, whatever workers are running |
| `PromotionRecovery.StaleRebuildUndoes` | src/raytsystem/projections.py:62-79 | in every reachable state with a reconciled CURRENT, a rebuild that loaded an older generation leaves CURRENT unreconciled, lacking only its marker |
| `PromotionWedge.AbortedCurrentWedges` | src/raytsystem/ingestion.py:2593-2646 | a reachable ledger whose CURRENT came from an aborted row and is stuck for ever |
| `PromotionWedge.NewerRowWedges` | src/raytsystem/ingestion.py:2575-2598 | a reachable ledger without workers whose CURRENT has a live row hidden by a newer one of its operation, and is stuck for ever |
| `PipelineRuns.Advances` | src/raytsystem/ingestion.py:3225-3254 | the whole advance loop is a run of the state machine that reaches the further of the two states |
| `PipelineRuns.FinishRuns` | src/raytsystem/ingestion.py:2647-2679 | everything after the swap, whether it succeeds or raises, is a run of the state machine to the stated ledger |
| `PipelineRuns.CommitIff` | src/raytsystem/ingestion.py:2540-2679 | publishing, recording, aborting, swapping and finishing all succeed exactly if the candidate's row is live, the superseded row can be aborted, CURRENT is its parent or itself, its events resolve and the leases last |
| `PipelineRuns.PromotedFields` | src/raytsystem/ingestion.py:2540-2679 | what a finished promotion leaves in each table and file, with the superseded row aborted and every other row as it was |
| `PipelineRuns.ReleasedIsFreed` | src/raytsystem/ingestion.py:2678-2681 | whatever renewals happened in between, giving back what a call took leaves its rows free with the tokens they were issued and every other row as it was |
| `PipelineRuns.RecoveryRuns` | src/raytsystem/ingestion.py:2777-2856 | a recovery that can go through is a run of the state machine that ends with the promotion closed |
| `Pipeline.IngestPipeline.Promote` | src/raytsystem/ingestion.py:2393-2679 | an uninterrupted promotion is a run of the state machine; it is admitted exactly with free leases and a reconciled CURRENT or its own newest row; it is a no-op exactly if no live row exists and the claim is active; it finishes exactly under the stated guards, and then every table and file is as stated: a stale bundle is rebased and its own prepared or committing row aborted, a fitting one aborts another newest such row, and no other row changes; refused calls change nothing; the leases are given back |
| `Pipeline.ChoiceMeans` | src/raytsystem/ingestion.py:2423-2491 | the branch of a promotion (refuse, no-op, rebase, take as it is) and the row it supersedes, in terms of CURRENT and the newest row |
| `Pipeline.PromoteMeans` | src/raytsystem/ingestion.py:2393-2679 | the guards that together decide whether a promotion goes through, in terms of the bundle, CURRENT, the newest row, the events and the clock |
| `Pipeline.FinishedMeans` | src/raytsystem/ingestion.py:2393-2679 | the ledger a finished promotion leaves, in terms of the bundle, CURRENT and the newest row |
| `Pipeline.ClearBundlePromotes` | src/raytsystem/ingestion.py:2393-2679 | on a reconciled CURRENT, in time, a bundle of an operation without a live row, whose claim is not active and whose candidate was never recorded, goes through as it is or rebased |
| `Pipeline.UnreconciledRefuses` | src/raytsystem/ingestion.py:2431-2438 | while CURRENT is not reconciled no bundle but its own newest row's is taken up |
| `Pipeline.IngestPipeline.Choose` | src/raytsystem/ingestion.py:2423-2491 | the branch taken (refuse, no-op, candidate, rebase, superseded row) is the decision of the state machine, which `ChoiceMeans` spells out |
| `Pipeline.IngestPipeline.CommitCandidate` | src/raytsystem/ingestion.py:2540-2679 | a run of the state machine that succeeds exactly if the candidate can be committed and the leases last, and then leaves the promoted ledger; of the leases it moves only the expiry of its own two |
| `Pipeline.IngestPipeline.RecordCandidate` | src/raytsystem/ingestion.py:2553-2592 | publishes the generation and stores its row and its outbox entry, each only once |
| `Pipeline.IngestPipeline.AbortSuperseded` | src/raytsystem/ingestion.py:2593-2598 | aborts the superseded row, and raises exactly when it is past the commit or missing |
| `Pipeline.IngestPipeline.SwapPointer` | src/raytsystem/ingestion.py:2600-2646 | succeeds exactly if CURRENT is the candidate already, or is its parent with a live row and both leases valid, and leaves exactly the stated ledger either way |
| `Pipeline.IngestPipeline.FinishPromotion` | src/raytsystem/ingestion.py:2647-2679 | succeeds exactly when the row is live, both leases hold, CURRENT is the candidate and its events resolve, and leaves exactly the stated ledger either way |
| `Pipeline.IngestPipeline.Reconcile` | src/raytsystem/ingestion.py:3135-3169 | publishes one event, marks the outbox, advances the row and materializes exactly when the fenced checks pass |
| `Pipeline.IngestPipeline.RecoverCommitted` | src/raytsystem/ingestion.py:2777-2856 | succeeds exactly when leases, newest row, pointer, outbox and events allow it, never moves CURRENT, and closes the promotion |
| `Pipeline.IngestPipeline.RecoverRun` | src/raytsystem/ingestion.py:475-556 | is a run of the state machine and answers branch by branch: done exactly on a finished operation and a reconciled CURRENT; finished by recovery exactly if CURRENT came from the newest live row and its guards hold; finished by promotion of the prepared bundle exactly if that goes through, a no-op exactly if its claim is active, and nothing without a bundle; while CURRENT of a reachable ledger is not reconciled, a call made in time succeeds exactly if CURRENT is the operation's newest live candidate, with CURRENT unmoved and one event |
| `Pipeline.CommittedIsRecoverable` | src/raytsystem/ingestion.py:2799-2818 | in such a state nothing but the leases stands in the way of recovery |
| `Pipeline.RecoveryCompletes` | src/raytsystem/ingestion.py:2777-2856 | from every reachable state whose CURRENT is the newest live candidate of its operation, whatever crash produced it, an idle worker's uninterrupted recovery reaches a closed and reconciled promotion with CURRENT unmoved and exactly its event added |
| `Projection.WalkAncestors` | src/raytsystem/projections.py:295-319 | the ancestor walk ends without finding a cycle and succeeds exactly when every ancestor is published |
| `Projection.MatchEvents` | src/raytsystem/projections.py:325-351 | collects the event of every expected name once, and succeeds exactly if all files are in order and none is missing |
| `Projection.SortedIsNewestFirst` | src/raytsystem/projections.py:352-355 | sorting by commit time and identifier gives the newest first and keeps every event |
| `Projection.CanonicalEvents` | src/raytsystem/projections.py:295-356 | on a well-formed ancestry succeeds exactly when every ancestor is published, every event file carries its own name, and every generation has its event, which names it and its parent; returns exactly those events, one for each generation, latest commit time first |
| `Projection.EventsMean` | src/raytsystem/projections.py:295-356 | what the walk checks by event name is that every generation of the ancestry has its own agreeing event |
| `Projection.ExpectedOnePerGeneration` | src/raytsystem/projections.py:320-324 | a well-formed ancestry names one event for each generation above the empty ledger |
| `Projection.MaterializationFindsItsEvents` | src/raytsystem/projections.py:295-356 | whenever reconciliation materializes a reachable ledger, the walk meets all those conditions |
| `TaskGraph.Visit` | src/raytsystem/tasking.py:676-685 | the visitor fails only by closing a cycle and otherwise finishes a set closed under dependencies with no node on a cycle |
| `TaskGraph.CheckAcyclic` | src/raytsystem/tasking.py:673-688 | terminates on every finite graph and returns normally exactly when it is acyclic |
| `TaskValidator.ValidateTaskGraph` | src/raytsystem/tasking.py:664-688 | succeeds exactly when dependencies exist, ready and running tasks have finished ones, and the graph is acyclic |
| `TaskValidator.WalkAncestry` | src/raytsystem/tasking.py:491-568 | succeeds exactly on a valid ancestry of bounded length without repeated commands; the cycle checks never fire |
| `TaskValidator.ValidateClosure` | src/raytsystem/tasking.py:470-568 | succeeds exactly on the accepted generations |
| `TaskTheorems.AcceptsIffWalked` | src/raytsystem/tasking.py:470-568 | the walk over the ancestry alone decides: readable tasks, the latest-event index and the task graph follow from it |
| `TaskBoard.StepIsCommand` | src/raytsystem/tasking.py:527-566 | a generation that passes the walk is exactly what an accepted command makes of its parent |
| `TaskReplay.AcceptedIsReplay` | src/raytsystem/tasking.py:470-662 | an accepted generation is the replay of its event chain from the empty board, with as many events as it counts and no operation or idempotency key twice |
| `TaskReplay.ChainReplays` | src/raytsystem/tasking.py:491-566 | an ancestry that passes the walk without repeated commands replays to exactly its own generation |
| `TaskReplay.NamedIsAcyclic` | src/raytsystem/tasking.py:205-212 | tasks named by their creation cannot form a dependency cycle |
| `TaskText.Trim` | src/raytsystem/contracts/base.py:120-121 | stripped text has no white space at either end, and stripping changes exactly the text that has |
| `TaskText.TrimOfPadded` | src/raytsystem/contracts/base.py:120-121 | what is stripped is the white space around a text and nothing of the text |
| `TaskText.FieldLimits` | src/raytsystem/contracts/base.py:26-28 | the limits of stored text and the pattern of identifiers, character by character |
| `TaskTypes.AllowedMoves` | src/raytsystem/tasking.py:45-58 | the transition table, pair by pair |
| `TaskTheorems.CommandValidatesIff` | src/raytsystem/tasking.py:333-423 | a new command that passes the service's checks yields an accepted generation exactly when its text comes without padding, its actor is an identifier as given, it gives a reason only for blocking, does not go back in time and the board has room |
| `TaskTheorems.ReasonWithoutBlockingIsRefused` | src/raytsystem/tasking.py:266-266 | a command with a reason but another target passes the service and fails validation |
| `TaskTheorems.EarlierCreationIsRefused` | src/raytsystem/tasking.py:531-532 | so does a creation dated before the board's last generation |
| `TaskTheorems.PaddedTitleIsRefused` | src/raytsystem/tasking.py:577-605 | so does a creation whose title ends in a space |
| `TaskTheorems.PaddedActorIsRefused` | src/raytsystem/tasking.py:631-654 | so does a transition by an actor whose name ends in a space |
| `TaskTheorems.DependencyClosureDone` | src/raytsystem/tasking.py:286-300 | in an accepted board the whole transitive dependency closure of a ready, running, reviewed or done task is done |
| `TaskService.ExactlyOnce` | src/raytsystem/tasking.py:190-199 | reissuing a command on any later board returns the generation, event and task of its first commit |
| `TaskService.KeyIsSpent` | src/raytsystem/tasking.py:742-761 | its idempotency key is refused for every different command on every later board |
| `TaskTheorems.ReissueFindsFirstCommit` | src/raytsystem/tasking.py:742-761 | the lookup of a reissued command finds its first event, generation and task on every later accepted board |
| `TaskTheorems.ReusedKeyIsRefused` | src/raytsystem/tasking.py:757-759 | the lookup of another command with a spent key always meets the conflict |
| `TaskTheorems.FindsOriginal` | src/raytsystem/tasking.py:821-833 | looking up the head of any ancestor finds that event and that generation |
| `TaskTheorems.FindMeans` | src/raytsystem/tasking.py:742-761 | on a history without repeated commands the lookup finds the event of the operation if there is one, meets the conflict exactly if only its key occurs, and otherwise finds nothing |
| `TaskService.Service.FindOperation` | src/raytsystem/tasking.py:742-761 | the walk back over an accepted board finds the operation, or its reused key, and never fails |
| `TaskService.Service.GenerationForEvent` | src/raytsystem/tasking.py:821-833 | returns the ancestor whose head is the event, and the limit never hides it |
| `TaskService.Service.ResultForEvent` | src/raytsystem/tasking.py:799-819 | answers with the generation, event and task of the first commit, and only if that generation holds the task |
| `TaskService.Service.Commit` | src/raytsystem/tasking.py:333-423 | raises on an actor that is no identifier once stripped, and else moves the pointer to the new generation exactly when it validates; the board stays accepted |
| `TaskService.Service.CreateTask` | src/raytsystem/tasking.py:149-236 | finds a recorded command again, refuses a spent key, a stale expected generation and a rejected payload without writing a file, refuses padded text and a time before the board, and otherwise writes exactly the stated task, event and generation; the board stays accepted |
| `TaskService.Service.TransitionTask` | src/raytsystem/tasking.py:238-331 | likewise for transitions: a move outside the table, unfinished dependencies, an earlier time or a missing reason is rejected without writing a file, and an applied move changes status, reason, revision and time of its task and nothing else of the board |
| `TaskService.CreationWrites` | src/raytsystem/tasking.py:204-236 | the task, event and generation a new creation writes |
| `TaskService.NewTransition` | src/raytsystem/tasking.py:267-331 | the answer to a transition that is not in the history, with the task, event and generation it writes |
| `SkillForeign.NewestForeignVersionSurvives` | src/raytsystem/skill_authoring.py:1294-1348 | whatever save, rollback, crashes and restarts do, the newest foreign version written between any two steps is intact as `SKILL.md` or as the displaced file, unless the save opened that very version as its source |
| `SkillForeign.RenameNeverClobbers` | src/raytsystem/skill_authoring.py:1912-1987 | no rename of save or rollback meets an existing displaced file |
| `SkillGuards.EveryStepWasEarned` | src/raytsystem/skill_authoring.py:1252-2011 | over every such run the process had seen what each of its steps rests on: the expected source before writing, the same file before displacing and recording, the proposed bytes before the receipt, the witnesses gone before the journal |
| `SkillGuards.GuardOutlivesForeign` | src/raytsystem/skill_authoring.py:1972-1978 | over every run with foreign writes, crashes and restarts, a rollback drops the original witness of a recorded install only after `SKILL.md` held the original bytes during that rollback |
| `SkillRecovery.OriginalStaysReachable` | src/raytsystem/skill_authoring.py:1896-2011 | without a foreign writer the original bytes are target, guard or displaced until the receipt, through any crashes inside rollback |
| `SkillRecovery.CrashedSaveRecovers` | src/raytsystem/skill_authoring.py:1252-1373 | after a kill at any step of a save one recovery leaves the original alone, or the proposed file alone once the receipt is committed; only a torn proposed file keeps the journal, with `SKILL.md` untouched |
| `SkillRecovery.RecoveryIff` | src/raytsystem/skill_authoring.py:1691-1716 | after any crashes recovery restores the original exactly when the proposed file is whole and a displaced file is not ambiguous |
| `SkillRecovery.SecondCrashNeedsHelp` | src/raytsystem/skill_authoring.py:1912-1917 | two crashes that leave three names for the original, which rollback refuses |
| `SkillRecovery.UndisturbedSaveCommits` | src/raytsystem/skill_authoring.py:353-473 | an undisturbed save commits its receipt and leaves the proposed bytes and no witness or journal |
| `SkillOutcomes.RollbackOutcome` | src/raytsystem/skill_authoring.py:1896-2011 | what a rollback leaves, from any disk: put back a displaced file, restore the original witness or accept the file that is there, remove unchanged witnesses in order |
| `SkillOutcomes.ForeignStopsRollback` | src/raytsystem/skill_authoring.py:1972-1973 | a file with foreign bytes under `SKILL.md` after a recorded install stops rollback with the disk as it is |
| `SkillOutcomes.FinalOutcome` | src/raytsystem/skill_authoring.py:2013-2039 | what finalization leaves, from any disk |
| `SkillOutcomes.SaveOutcome` | src/raytsystem/skill_authoring.py:353-473 | on any disk without witnesses a save leaves the proposed file alone with its receipt exactly if `SKILL.md` holds the expected bytes, and otherwise the disk as it was |
| `SkillAuthoring.SkillDirectory.Save` | src/raytsystem/skill_authoring.py:382-470 | an uninterrupted save leaves the disk exactly as the state machine left to run; on any disk without witnesses it commits exactly if `SKILL.md` holds the expected bytes, and then leaves the proposed file alone |
| `SkillAuthoring.SkillDirectory.MakeWitnesses` | src/raytsystem/skill_authoring.py:1275-1312 | writes the proposed witness and links the original one, step for step |
| `SkillAuthoring.SkillDirectory.Displace` | src/raytsystem/skill_authoring.py:1314-1332 | moves the target aside, checks it and drops or restores it, step for step |
| `SkillAuthoring.SkillDirectory.Install` | src/raytsystem/skill_authoring.py:1334-1363 | links the proposed file without replacement and records it, step for step |
| `SkillAuthoring.SkillDirectory.RollBack` | src/raytsystem/skill_authoring.py:1896-2011 | an uninterrupted rollback leaves the disk exactly as the state machine does, described from any disk by `RollbackOutcome`; a foreign file over a recorded install stops it with the disk unchanged; it succeeds exactly if it removes the journal |
| `SkillAuthoring.SkillDirectory.PutBackDisplaced` | src/raytsystem/skill_authoring.py:1901-1924 | deals with a displaced file, step for step, or stops with the disk as it is |
| `SkillAuthoring.SkillDirectory.PutBackOriginal` | src/raytsystem/skill_authoring.py:1926-1987 | decides from the witnesses and puts the original back, step for step |
| `SkillAuthoring.SkillDirectory.RemoveWitnesses` | src/raytsystem/skill_authoring.py:1989-2011 | removes guard, temporary file and journal in that order, and stops at a changed witness |
| `SkillAuthoring.SkillDirectory.RestoreDisplaced` | src/raytsystem/skill_authoring.py:2152-2166 | puts the displaced file back without replacing, and keeps it if the name is taken |
| `SkillAuthoring.SkillDirectory.CleanNamed` | src/raytsystem/skill_authoring.py:2214-2233 | unlinks a witness only if it still has the expected bytes |
| `SkillAuthoring.SkillDirectory.FinalizeSave` | src/raytsystem/skill_authoring.py:2013-2039 | an uninterrupted finalization leaves the disk as it is beside a displaced file, and else removes unchanged witnesses and then the journal |
| `SkillAuthoring.SkillDirectory.RecoverPending` | src/raytsystem/skill_authoring.py:1691-1716 | recovery finalizes after a receipt and rolls back otherwise, with the stated disk; on a disk an undisturbed save left it restores the original exactly if that disk is recoverable |
| `AuditLog.AppendVerifies` | src/raytsystem/platform_store.py:315-380 | a verifying stream still verifies after an append |
| `AuditLog.LastHashDeterminesStream` | src/raytsystem/platform_store.py:532-551 | two verifying streams whose last rows hash equally are identical row for row |
| `AuditLog.AnyHashPinsPrefix` | src/raytsystem/platform_store.py:398-414 | the hash of any row occurs in another verifying stream only at the same position and after the same rows |
| `AuditLog.AuditStore.AppendEvent` | src/raytsystem/platform_store.py:315-380 | appends one row to its own stream, with that stream, the next position, the hash of the last row and the hash of the payload; every stream keeps verifying and no other stream changes |
| `AuditLog.AuditStore.VerifyEventStream` | src/raytsystem/platform_store.py:398-414 | true exactly when every row has its position, predecessor hash, payload hash and identifier |
| `GitCheckpoint.AllCallsReturnOneCommit` | src/raytsystem/git_checkpoint.py:83-173 | across crashes and concurrent callers all successful calls return one commit, and pending record, reference and completed record agree |
| `GitCheckpoint.NothingIsReplaced` | src/raytsystem/git_checkpoint.py:403-417 | a reference or record once set never changes |
| `GitCheckpoint.CallAloneEnds` | src/raytsystem/git_checkpoint.py:61-173 | from every reachable state a call left alone ends within eight steps, refused exactly for other paths and otherwise with the commit prepared first in record, reference and result |
| `GitCheckpoint.Checkpoint.EnsureReference` | src/raytsystem/git_checkpoint.py:403-417 | creates a missing reference, accepts the same commit and refuses another one unchanged |
| `GitCheckpoint.Checkpoint.Create` | src/raytsystem/git_checkpoint.py:61-173 | one call finishes whatever an earlier one left with its commit, is refused exactly for other paths, and leaves exactly what the steps of the state machine do |
| `MigrationPath.RegistryChain` | src/raytsystem/migrations.py:300-316 | terminates on every registry and, when start versions are distinct, returns a chain without repeated steps exactly when the target is reachable |
| `MigrationPath.IndexByStart` | src/raytsystem/migrations.py:303-307 | indexes a registry exactly when its start versions are distinct |
| `MigrationPath.NotMetSoonNeverMet` | src/raytsystem/migrations.py:311-313 | a target not met in as many steps as there are migrations is never met, so the length limit rejects nothing reachable |
| `BrandMigration.Workspace.Migrate` | src/raytsystem/brand_migration.py:79-198 | without an exception completes exactly if every metadata file that changes is well formed afterwards, with the stated bytes under the stated names; otherwise leaves every name with its original bytes |
| `BrandMigration.Workspace.Apply` | src/raytsystem/brand_migration.py:159-184 | whatever step fails, the recorded moves and saved bytes tell how to get back |
| `BrandMigration.Workspace.RewriteMetadata` | src/raytsystem/brand_migration.py:175-184 | rewrites exactly the metadata files, and saves the bytes of each before it is written |
| `BrandMigration.Workspace.RollbackNames` | src/raytsystem/brand_migration.py:442-476 | undoes the recorded moves in reverse from any state, and counts and leaves those that cannot be undone |
| `BrandMigration.UndoneEach` | src/raytsystem/brand_migration.py:442-476 | from any state each recorded move is undone exactly if its destination is there and its source free, and the others are counted |
| `BrandMigration.UndoesAll` | src/raytsystem/brand_migration.py:442-476 | what a failed migration recorded is undone without an error and gives every name back |
| `BrandMigration.Workspace.RestoreMetadata` | src/raytsystem/brand_migration.py:582-599 | writes the saved bytes over the state directory wherever it now is |
| `BrandMigration.OverlayRestores` | src/raytsystem/brand_migration.py:582-599 | saved bytes over the rewritten tree give exactly the original tree |

## Left out

- The command line, web front end, extractors, search, rendering and configuration parsing: presentation and library code.
- File modes, fsync, O_NOFOLLOW, flock and SQLite pragmas: a link, rename, unlink, file publication or transaction is one step.
- Approvals, fixture authority and the sensitivity scanner: besides the two status writes of an ingestion that stops for approval, which are steps of the model, they only make a worker raise, which it may do at every step.
- The extraction and evidence-snapshot checks of `_validate_prepared`: only what the invariants need of the candidate is kept.
- `_prepare` and `import_proposal` are writes to the run of a preparation at any time and one step that stages a candidate for any proposal on any generation that was CURRENT at some time; the restriction of imports to operations that are not promoted is not modelled, nor is a run manifest that never had a transaction.
- `rebuild-index` is one step that writes the marker of any generation that was CURRENT at some time and whose events resolve; its other files are presentation.
- The check that CURRENT is reconciled is one step, although the code reads its parts one after the other.
- `_advance_promotion_state` rereads the row at each iteration in the state machine; the code reads it once and then raises where the model goes on.
- The optional Git checkpoint inside reconciliation: it is modelled on its own.
- Recreating the control database, and with it a change of the control epoch during a run.
- The leases that two preparations of one operation take, and heartbeat timing, sleeping and retry deadlines: a heartbeat is a renewal at any time.
- Reuse of inode numbers by the file system, in-place edits of `SKILL.md` and foreign writers that touch the witness files.
- Skill forks, whose crash points mostly ask for manual recovery.
- Unicode normalization of task text, which the operation key and the stored object share, normalization of idempotency keys and time zones, and the byte limits of task objects and generation manifests.
- The sensitivity scanner on task text: its verdict on the stored object is taken to be the one on the command.
- The records, projections and nested transactions of the platform store besides the audit log.
- Changes by other processes during the brand migration and failures inside its rollback, which it reports for manual recovery.
- The atomicity of one schema migration step against a kill.
- Apply: does not model an exception between a rename of the brand migration and the recording of that move, because the only statements between them build the record; an interrupt delivered there would leave a move that the rollback does not know.
- StorePromotion: does not model the approval hash, fencing tokens and payload stored with a row nor the refusal to replace the authority of a committed one, because no property depends on them.
