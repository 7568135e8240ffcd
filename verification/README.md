# A verified model of the dev-team pipeline

The program drives a feature through a fixed list of stages, each run by an agent and ended by a gate.
Its state is a table of stage rows, a table of construction bolts and an audit log; one control loop reads
them and decides what happens next. Around that core stand a scheduler for bolts, the batcher that streams
agent output, the parser and the command proxy of the expert chat, a markdown chunker, the provider
resolution and the question store.

This project models those parts and proves what they keep over whole runs. The pipeline is the class
`Feature` in `Pipeline.dfy`; each of its methods is proved equal to a transition function of
`PipelineModel.dfy`, and the theorems are about those functions. Whatever an agent, a reviewer, a person, the
git host, the clock or a failing statement can do is an argument of the transition that meets it, so a
statement for all arguments is a statement for every behaviour of the outside world.

| files | what they model |
|---|---|
| `StageTable`, `BoltPlan` | the stage definitions and the row table; the bolts read from the two artifacts of stage 2.7 |
| `PipelineModel`, `Pipeline` | every transition of the pipeline; the same as methods over one feature's fields |
| `PipelineEffects`, `PipelineTermination`, `PipelineSafety`, `PipelineTheorems` | what each transition may change; each turn of the loop brings it closer to its end; what holds in every run; the main statements |
| `PipelineOutcomes`, `PipelineDecisions`, `PipelineEndings` | the row each operation leaves, status by status; what an approval, a rejection, an acceptance and a jump need and do; what each end means |
| `PipelineGates`, `PipelineLimits`, `PipelineDivergence` | which gates are approved by themselves; where promises stop; from which states the loop can go on for ever |
| `BoltArtifacts` | the two artifacts as they are written, and the plan read back from them |
| `BoltSchedule`, `BoltScheduler`, `BoltTheorems` | the batches as a fixed point; the scheduler; what each of its runs keeps to |
| `OutputBatcher` | the output batcher and the log row it appends to |
| `TagParser`, `Fields`, `ToolCalls`, `Citations`, `ChatParser` | the delimited blocks of an expert's answer |
| `Argv`, `ArgvLine`, `Allowlist`, `Proposals` | the command proxy: argument splitting and its result on one line, the allowlist, proposals and their confirmation |
| `CommandClasses`, `ProposalTheorems`, `ExecutedCommands` | the class of a command by its words; what time and other sessions do to a proposal; what runs, against what was allowed |
| `MarkdownChunks` | the chunker of the retrieval index |
| `Providers`, `Resolution`, `ResolutionTheorems` | the merged provider list; which provider and model a dispatch gets, by its method and in terms of the list and the settings |
| `QuestionIds`, `Questions`, `QuestionTheorems` | the question store |
| `Basics`, `Text`, `TextLemmas` | an option type; the standard string functions and facts about them |

`dafny verify dfyconfig.toml` checks everything.

## Where the code departs from its own promises

Each names the statements that prove it: inputs at which the promise fails, and exactly when it holds.

- The control loop does not always end. When the first row that needs work is a `revising` row of a bolt whose
  stage is out of scope and whose stages in scope are all completed, `RunBolt` passes over it, succeeds, and the
  loop picks the same bolt again (`PipelineDivergence.StuckExample`). This is the only way: the loop goes on for
  ever exactly when it gets into such a state and is not cancelled (`PipelineDivergence.DivergesExactlyWhen`).
  Whether the outside world can bring it there is decided by the state it starts in
  (`PipelineDivergence.CanDivergeExactlyWhen`). With nothing awaiting approval that takes a planned bolt with a
  revising row of a stage out of scope, and no revising row before it that the loop would stop at
  (`PipelineDivergence.CanDivergeAtRest`). A new feature used without changing its scope is never in such a
  state, in any run (`PipelineDivergence.EveryRunStops`).
- A failed agent does not keep a stage from being approved. `RunBolt` compares the outcome source with the smoke
  check and the reviewer only, so an agent that exits with an error and sends no signal has its gate approved and
  its row completed in guided and autonomous mode, where the control loop makes the same result a revision
  (`PipelineGates.FailedAgentIsApproved`). A stage of a bolt is approved exactly when its agent has exited, did not
  ask for another round, and was not turned down by the smoke check or the reviewer, which look only at a stage
  that passed (`PipelineGates.BoltGateExactly`); so a bolt all of whose agents fail is done
  (`PipelineGates.FailedAgentsFinishBolt`). The control loop is no stricter with signals: one that says `failed`,
  or asks for another round, completes a linear stage wherever the mode and phase approve by themselves
  (`PipelineGates.SignalledFailureCompletes`, `PipelineGates.LinearGateExactly`).
- A stage whose dispatch crashes is never run again by the loop. Its row is `failed`, which is none of the six
  checkbox states, and every later decision passes over it (`PipelineOutcomes.FailedIsPassedOver`); a dispatch short
  of quota is run again (`PipelineOutcomes.QuotaRunsAgain`). Which row is left is decided by how the dispatch ends
  (`PipelineOutcomes.DispatchLeaves`).
- `AcceptStageAsIs` looks at the revision count but not at the status, so it can re-open a later completed stage
  (`PipelineLimits.AcceptExample`). `PipelineLimits.AcceptKeepsShape` says exactly when it keeps the order of the
  stages.
- A bolt request may run beside a row in progress; `PipelineLimits.BoltRequestOverlaps` says exactly when no two
  rows are then in progress together. The handler refuses a request while the feature is being run
  (`internal/api/stage_handlers.go:640-643`), so the row is one that a dispatch has left in progress: one whose
  context or role could not be built, or that was cancelled while it waited to retry, and no other
  (`PipelineLimits.LeftRunningExactlyWhen`). After it, the request overlaps exactly when it dispatches a stage and
  the first is not the one cut short (`PipelineLimits.OverlapsAfterCutShort`; an input is in
  `PipelineLimits.OverlapExample`).
- The batcher writes what a tick flushes into the returned buffer a second time (`OutputBatcher.TickRepeats`).
  `OutputBatcher.BufferIsInput` says exactly when the buffer is the input.
- A proposal does not end with its time. `Resolve` does not look at the expiry; `Get` does, but nothing outside the
  tests calls it. An approval runs the proposal exactly when nothing has taken it out before, whatever the time is
  (`ProposalTheorems.ApprovalIgnoresTheClock`; an expired one that runs is in
  `ProposalTheorems.ExpiredProposalRuns`).
- `Resolve` takes a proposal out whoever asks: a decision from another session runs nothing, but the owner's later
  approval does nothing either (`ProposalTheorems.ForeignDecisionDiscards`).
- The class that decides whether a command is confirmed is that of the allowlist entry its text matches. What runs
  is the text without that entry's verb, unless it is a signal, so it may be a command of another class
  (`ExecutedCommands.ReadOnlyRunsMutating`) or of none (`ExecutedCommands.ListedRunsUnlisted`), and a bare verb runs
  nothing (`ExecutedCommands.BareVerbRunsNothing`). The two classes agree exactly when some entry of the class
  allows what is left of the command (`ExecutedCommands.ClassKeptExactlyWhen`, and for every execution of every run
  `ExecutedCommands.RunsAsAllowedExactlyWhen`), which a signal written without quotes always meets
  (`ExecutedCommands.SignalKeepsEntry`).
- A line of the dependency list without a bullet loses the dash its first name begins with, and is a comment when
  that name begins with a number sign (`BoltArtifacts.BareNamesAreMisread`); every other name without spaces is read
  as written (`BoltArtifacts.DependencyReads`).
- `AssumeAllPendingQuestions` leaves a question pending for good when an earlier one has its id
  (`QuestionTheorems.AssumesAllExactlyWhen`, with a file in `QuestionTheorems.RepeatedIdStaysPending`); the store
  itself never makes such a file.

## Model

| member | source | states |
|---|---|---|
| StageTable.ScopedKeepsOrder | internal/db/stage_store.go:104-119 | the stages of a scope keep their sort order, and are exactly the defined stages whose scope list names it |
| StageTable.InsertKeepsTable | internal/db/stage_store.go:124-168 | creating a row keeps the table sorted, keyed and free of duplicates; an existing row is left alone |
| StageTable.FindOf | internal/db/stage_store.go:232-247 | the lookup by stage and bolt finds the one row with that key |
| BoltPlan.PlanOfIsClosed | internal/pipeline/bolts.go:51-91 | bolts are numbered from 1 and pending, the first is the skeleton and depends on nothing, and no bolt depends on itself or on one that is not planned |
| BoltPlan.PlanIsClosed | internal/pipeline/bolts.go:71-87 | the same for whatever text the two artifacts hold |
| BoltPlan.PlanFollowsArtifact | internal/pipeline/bolts.go:133-188 | a bolt depends on another exactly when some line of the dependency list relates their units |
| BoltPlan.NoUnitsOneBolt | internal/pipeline/bolts.go:65-69 | without units there is one bolt, for unit-1 |
| BoltArtifacts.UnitsRoundTrip | internal/pipeline/bolts.go:95-116 | the units of a written artifact are the names of its headings, of either depth, with a title or without, in order |
| BoltArtifacts.DependencyReads | internal/pipeline/bolts.go:152-176 | a written line is read as what it states: the unit before the separator depends on the one after it |
| BoltArtifacts.PlanRoundTrip | internal/pipeline/bolts.go:51-188 | the plan read from the two written artifacts has a bolt for each unit, and depends on exactly what the lines say of their units |
| BoltArtifacts.BareNamesAreMisread | internal/pipeline/bolts.go:155-160 | two names that a line without a bullet does not give back |
| BoltPlan.BoltOf | internal/pipeline/bolts.go:146-149 | a unit maps to its last position in the list, and to nothing when it is not in it |
| Pipeline.Feature.UpdateRow | internal/db/stage_store.go:252-276 | exactly the row with the key is rewritten |
| Pipeline.Feature.GetStagesForScope | internal/db/stage_store.go:104-119 | the loop collects the stages of the scope in order |
| Pipeline.Feature.InitFeatureStages | internal/db/stage_store.go:124-145 | the table after a feature starts |
| Pipeline.Feature.InitBoltStages | internal/db/stage_store.go:149-168 | the table after a bolt's rows are created |
| Pipeline.Feature.RunStage | internal/pipeline/stage_runner.go:86-381 | rows, log, outcomes and result of running a stage, for every way a dispatch can end |
| Pipeline.Feature.Finish | internal/pipeline/stage_runner.go:281-380 | smoke check, review and gate after the agent has exited |
| Pipeline.Feature.ProcessResult | internal/pipeline/state_machine.go:29-94 | the row and the outcome after a stage, by mode, phase and gate |
| Pipeline.Feature.NextStageToRun | internal/pipeline/state_machine.go:103-131 | the first linear stage in scope that has not started; those out of scope before it are skipped |
| Pipeline.Feature.AdvanceStage | internal/pipeline/stage_runner.go:557-652 | the next stage in scope is reset, or the workflow completes; the auth check at a phase boundary |
| Pipeline.Feature.ApproveAndAdvance | internal/pipeline/state_machine.go:149-183 | approval of an awaiting or revising stage, its refusals, and the advance after it |
| Pipeline.Feature.RejectStage | internal/pipeline/stage_runner.go:491-524 | rejection: one more revision, or a refusal that changes nothing |
| Pipeline.Feature.AcceptStageAsIs | internal/pipeline/stage_runner.go:528-553 | acceptance from the third revision on, in any status |
| Pipeline.Feature.JumpToStage | internal/pipeline/stage_runner.go:676-728 | the rows between are skipped and the target is reset |
| Pipeline.Feature.RestoreRows | internal/api/server.go:186-216 | interrupted rows become revising; whether the feature is picked up again |
| Pipeline.Feature.CreateBolts | internal/pipeline/bolts.go:51-91 | bolts are planned once |
| Pipeline.Feature.RunBolt | internal/pipeline/bolts.go:193-242 | a bolt that is not there changes nothing; otherwise its rows exist before its stages run |
| Pipeline.Feature.RunBoltStages | internal/pipeline/bolts.go:244-331 | stages 3.1 to 3.5 in order: skipped, halted, paused, approved or passed over |
| Pipeline.Feature.DecideNextAction | internal/pipeline/advance.go:188-302 | the decision, in the order of the eight steps |
| Pipeline.Feature.FirstLinearToStart | internal/pipeline/advance.go:275-301 | steps 7 and 8 pick the stage, and skip the rows, that NextStageToRun does |
| Pipeline.Feature.TakeTurn | internal/pipeline/advance.go:41-152 | one pass of the loop |
| Pipeline.Feature.AdvanceFeature | internal/pipeline/advance.go:30-153 | unless it gets stuck the loop stops, whatever the outside world does, in the state its turns lead to, and keeps the invariants |
| PipelineEffects.RunStageEffect | internal/pipeline/stage_runner.go:86-381 | running a stage touches its own row only, and the gate it returns agrees with that row |
| PipelineEffects.ScanEffect | internal/pipeline/state_machine.go:103-131 | the scan skips only waiting rows out of scope before the row it returns |
| PipelineEffects.AdvanceEffect | internal/pipeline/stage_runner.go:557-652 | advancing resets at most one row, of a later stage |
| PipelineEffects.ApproveEffect | internal/pipeline/state_machine.go:149-183 | approving completes its row and otherwise only skips waiting rows or resets a later one |
| PipelineEffects.BoltStagesEffect | internal/pipeline/bolts.go:244-331 | a run of a bolt changes only its own unfinished rows in scope and skipped linear rows; what each ending implies |
| PipelineEffects.InitBoltGrows | internal/db/stage_store.go:149-168 | creating a bolt's rows adds only rows that have not started, and every one that was missing |
| PipelineEffects.InitBoltIsIdempotent | internal/db/stage_store.go:149-168 | creating them again changes nothing |
| PipelineTermination.WeightDrops | internal/pipeline/advance.go:41-152 | a row that gets closer to done outweighs whatever happens to the rows after it |
| PipelineTermination.TurnIsCloser | internal/pipeline/advance.go:41-152 | a turn that goes on is strictly closer to the end exactly when the state is not stuck, even though approving a stage resets the next |
| PipelineTermination.StuckGoesOn | internal/pipeline/advance.go:41-152 | from a stuck state every turn goes on and changes no row |
| PipelineTermination.WillStopIsNotStuck | internal/pipeline/advance.go:207-218 | a condition on scopes and statuses that rules the stuck states out |
| PipelineTermination.WillStopNeverSticks | internal/pipeline/advance.go:41-152 | from a state with that condition the loop never gets stuck, whatever the world does |
| PipelineTermination.TurnKeepsWillStop | internal/pipeline/advance.go:41-152 | the condition survives every turn |
| PipelineTermination.TurnKeepsValid | internal/pipeline/advance.go:41-152 | turns keep the table and the bolts well formed |
| PipelineSafety.TurnKeepsInv | internal/pipeline/advance.go:41-152 | a turn of the loop keeps all the invariants, and no completed row is lost |
| PipelineSafety.ApproveKeepsInv | internal/pipeline/state_machine.go:149-183 | so does approving any stage |
| PipelineSafety.RejectKeepsInv | internal/pipeline/stage_runner.go:491-524 | so does rejecting any stage |
| PipelineSafety.AcceptKeepsInv | internal/pipeline/stage_runner.go:528-553 | so does accepting the active stage |
| PipelineSafety.RunBoltKeepsInv | internal/pipeline/bolts.go:193-332 | so does a bolt request while nothing is in progress; a bolt marked done has every stage in scope completed |
| PipelineSafety.RestoreKeepsInv | internal/api/server.go:186-216 | so does a restart |
| PipelineSafety.PrepareKeepsInv | internal/pipeline/bolts.go:51-91 | so does preparing the bolts |
| PipelineSafety.RunStageAlone | internal/pipeline/stage_runner.go:86-381 | an unfinished stage run alone never leaves two rows in progress and never starts a completed row |
| PipelineSafety.EveryRunIsSafe | internal/pipeline/advance.go:30-153 | in every run: the linear rows keep their shape, at most one row is in progress, no completed stage is started again, done bolts are complete, one merge attempt; completed rows stay completed |
| PipelineTheorems.NewFeatureIsSafe | internal/db/stage_store.go:124-145 | a new feature has exactly one row for each stage in scope that runs once, and satisfies the invariants |
| PipelineTheorems.ShapeReads | internal/pipeline/advance.go:188-302 | the shape invariant read off the list: passed rows, at most one row of any status, then rows not started |
| PipelineTheorems.EveryRunReads | internal/pipeline/advance.go:30-153 | every reachable table reads that way |
| PipelineTheorems.MergeDiscipline | internal/pipeline/advance.go:257-298 | a merge is attempted only with 3.7 completed and no active row; with 3.7 completed the loop starts a new stage only after the attempt |
| PipelineTheorems.HumansDecide | internal/pipeline/state_machine.go:46-94 | in human mode only approving or accepting completes a row outside initialization |
| PipelineTheorems.RestartUnblocks | internal/api/server.go:186-216 | after recovery nothing is in progress, and in automatic modes the loop does not wait |
| PipelineTheorems.JumpLands | internal/pipeline/stage_runner.go:676-728 | after a jump the next stage is the target exactly when the target has a row |
| PipelineDivergence.StuckExample | internal/pipeline/bolts.go:262-278 | a feature whose scope was narrowed is stuck |
| PipelineDivergence.StopsOrSticks | internal/pipeline/advance.go:41-152 | from any turn on the loop stops or gets stuck |
| PipelineDivergence.DivergesExactlyWhen | internal/pipeline/advance.go:41-152 | the loop goes on for ever exactly when it gets stuck and is not cancelled |
| PipelineDivergence.StuckForever | internal/pipeline/advance.go:41-152 | from a stuck state no number of turns ends the loop |
| PipelineDivergence.InvNeverDiverges | internal/pipeline/advance.go:41-152 | from a state with the invariants of every run the loop always ends |
| PipelineDivergence.EveryRunStops | internal/pipeline/advance.go:30-153 | in every state of every run of a new feature the loop ends when started, whatever the world does |
| PipelineDivergence.BoltKeepsOrphans | internal/pipeline/bolts.go:193-332 | a finished bolt leaves the same revising rows out of scope within the loop's reach |
| PipelineDivergence.StallDooms | internal/pipeline/bolts.go:284-297 | after a refused approval in a bolt every awaiting row is one whose approval is refused, so the next turn stops |
| PipelineDivergence.CanDivergeExactlyWhen | internal/pipeline/advance.go:30-153 | some behaviour of the world makes the loop go on for ever exactly when the state it starts in meets a condition on its mode, rows, scope and bolts |
| PipelineDivergence.CanDivergeAtRest | internal/pipeline/advance.go:188-226 | with nothing awaiting approval: a planned bolt has a revising row of a stage out of scope, with no revising row before it that the loop stops at |
| PipelineOutcomes.DispatchLeaves | internal/pipeline/stage_runner.go:244-380 | the row and the recorded outcome for each end of a dispatch: revising on quota, failed on a crash, one revision more when turned down, awaiting approval otherwise |
| PipelineOutcomes.DispatchResult | internal/pipeline/stage_runner.go:281-330 | where a finished dispatch's result comes from, and when its gate is open |
| PipelineOutcomes.NothingDispatched | internal/pipeline/stage_runner.go:86-200 | without a context or a role the row stays in progress |
| PipelineOutcomes.GateDecides | internal/pipeline/state_machine.go:65-94 | who approves: nobody needed in initialization and autonomous mode, nor in guided mode but for 1.7, 2.8, 3.7 and 4.7; a person otherwise |
| PipelineOutcomes.FailureRevises | internal/pipeline/state_machine.go:46-55 | a failed agent, smoke check or review leaves the row revising, with no further revision |
| PipelineOutcomes.StageTurnEnds | internal/pipeline/advance.go:128-150 | a turn that runs a stage: how it ends and the row it leaves, for every behaviour of the agent |
| PipelineOutcomes.PhaseEndWaits | internal/pipeline/state_machine.go:65-94 | in guided mode the last stage of a phase stops the loop at its gate |
| PipelineOutcomes.FailedIsPassedOver | internal/pipeline/advance.go:188-302 | the loop never picks a stage whose row has failed |
| PipelineOutcomes.QuotaRunsAgain | internal/pipeline/stage_runner.go:237-270 | after a dispatch short of quota the next decision is to run the same stage; after a crash it is not |
| PipelineDecisions.NextStageIsFirst | internal/pipeline/state_machine.go:103-131 | the next stage is that of the first row that waits and whose stage names the scope, or all scopes |
| PipelineDecisions.AdvanceExactly | internal/pipeline/stage_runner.go:557-652 | the last stage finishes the feature, any other makes the next one current and not started; the auth check counts only at the end of a phase |
| PipelineDecisions.ApproveExactly | internal/pipeline/state_machine.go:149-183 | an approval succeeds exactly when the row is at its gate, no other round was asked for, and the advance goes through |
| PipelineDecisions.RejectExactly | internal/pipeline/stage_runner.go:491-524 | a rejection needs a row at its gate and adds one revision to it alone |
| PipelineDecisions.AcceptExactly | internal/pipeline/stage_runner.go:528-553 | acceptance needs three revisions, and completes the row |
| PipelineDecisions.AcceptedAfterThree | internal/pipeline/stage_runner.go:491-553 | after n rejections of a fresh row acceptance completes it exactly when n is at least three |
| PipelineDecisions.JumpExactly | internal/pipeline/stage_runner.go:676-728 | a jump resets the target, skips the stages of the scope between the current one and it, and leaves every other row, in whatever status |
| PipelineEndings.BoltIsLeft | internal/pipeline/bolts.go:193-331 | the status of a bolt after its run: done, pending at a gate, broken after an error, still running after a halt |
| PipelineEndings.StopsForItsReason | internal/pipeline/advance.go:41-152 | what each reason for stopping says of the state in which the loop stops |
| PipelineEndings.IdleDecides | internal/pipeline/advance.go:220-301 | with no active row: bolts wait for 2.8, the merge for 3.7, and both come before the next linear stage |
| PipelineEndings.RestartRows | internal/api/server.go:186-216 | a restart changes exactly the rows in progress, and counts no revision |
| PipelineGates.RunStageGate | internal/pipeline/stage_runner.go:281-380 | a dispatch leaves the gate open exactly when the agent exited and was not turned down |
| PipelineGates.BoltGateExactly | internal/pipeline/bolts.go:281-308 | a stage of a bolt is approved and completed exactly when its agent exited, did not ask for another round and was not turned down |
| PipelineGates.FailedAgentIsApproved | internal/pipeline/bolts.go:281-308 | an agent that exits with an error and no signal: completed in a bolt, revising in the control loop |
| PipelineGates.BoltFinishesExactly | internal/pipeline/bolts.go:244-331 | in automatic mode a bolt is done exactly when it exists and every stage in scope and not completed lets it go on |
| PipelineGates.FailedAgentsFinishBolt | internal/pipeline/bolts.go:244-331 | a bolt all of whose agents fail is done |
| PipelineGates.LinearGateExactly | internal/pipeline/state_machine.go:46-94 | the control loop completes a linear stage exactly when its agent exited, was not turned down, sent a signal or exited well, and mode and phase approve |
| PipelineGates.SignalledFailureCompletes | internal/pipeline/state_machine.go:46-94 | a signalled failure is completed exactly where mode and phase approve |
| PipelineLimits.BoltRequestOverlaps | internal/pipeline/bolts.go:193-332 | a bolt request leaves no two rows in progress together exactly when no row is in progress but the first it dispatches |
| PipelineLimits.LeftRunningExactlyWhen | internal/pipeline/stage_runner.go:86-381 | a stage run alone leaves its row in progress exactly when the dispatch is cut short by its context, its role or a cancelled retry |
| PipelineLimits.OverlapsAfterCutShort | internal/api/stage_handlers.go:625-645 | after that a bolt request overlaps exactly when it dispatches a stage and the first is not the one cut short |
| PipelineLimits.OverlapExample | internal/pipeline/bolts.go:193-332 | a row left in progress by its context, and a bolt request beside it |
| PipelineLimits.AcceptKeepsShape | internal/pipeline/stage_runner.go:528-553 | accepting keeps the order of the linear rows exactly when every row before has passed and nothing after the reset row has started |
| PipelineLimits.AcceptExample | internal/pipeline/stage_runner.go:528-553 | accepting a completed stage again re-opens the completed one after it |
| BoltSchedule.ReachedIsLeastClosed | internal/pipeline/bolts.go:465-541 | what runs when nothing fails is the least set with the skeleton and closed under "all dependencies are in it" |
| BoltSchedule.BatchIsDepth | internal/pipeline/bolts.go:465-541 | the batch of a bolt is the length of its longest chain of dependencies |
| BoltSchedule.DrainsIffAcyclic | internal/pipeline/bolts.go:465-541 | every bolt runs exactly when no dependency dangles and none goes round in a circle |
| BoltSchedule.BatchFacts | internal/pipeline/bolts.go:467-487 | a bolt is ready when its batch starts, was not before, and has not run |
| BoltScheduler.FilterBolts | internal/pipeline/bolts.go:632-644 | the in-place compaction is order-preserving removal |
| BoltScheduler.FindReady | internal/pipeline/bolts.go:466-480 | the bolts all of whose dependencies are completed, in order |
| BoltScheduler.PresentBatchGate | internal/pipeline/bolts.go:578-620 | the wait ends exactly when some poll sees every 3.5 row completed or skipped |
| BoltScheduler.RunSideBySide | internal/pipeline/bolts.go:498-523 | each bolt of a batch is launched once and returns once, in any interleaving; failure of any is seen |
| BoltScheduler.RunBatch | internal/pipeline/bolts.go:488-524 | one bolt alone, several side by side, and how a failure ends the run |
| BoltScheduler.RunBatches | internal/pipeline/bolts.go:459-541 | the batches run are the scheduled ones, in order, each after the one before passed |
| BoltScheduler.RunAllBolts | internal/pipeline/bolts.go:404-549 | why the run ended, and what it had done by then, for every outcome of bolts, ladder and gates |
| BoltTheorems.LaunchedOnce | internal/pipeline/bolts.go:465-541 | no bolt is launched twice |
| BoltTheorems.DependenciesReturned | internal/pipeline/bolts.go:466-480 | each dependency of a launched bolt is the skeleton or returned unfailed in a strictly earlier batch |
| BoltTheorems.FailureHalts | internal/pipeline/bolts.go:526-530 | after a failed bolt no further batch starts |
| BoltTheorems.GateComesFirst | internal/pipeline/bolts.go:532-537 | in gated mode the next batch waits for the gate of this one |
| BoltTheorems.SkeletonComesFirst | internal/pipeline/bolts.go:417-435 | a skeleton whose gate is open ends the run; nothing else starts before it is approved or has ended without an open gate |
| BoltTheorems.DoneSkeletonIsNotAsked | internal/pipeline/bolts.go:417-435 | once it is done, how a run of it would end plays no part |
| BoltTheorems.GateOpensExactly | internal/pipeline/bolts.go:578-620 | a gate opens exactly when some poll sees every 3.5 row completed or skipped |
| BoltTheorems.GateIsResolved | internal/pipeline/bolts.go:578-620 | a further batch has a poll at which every 3.5 row of this one is completed or skipped |
| BoltTheorems.ChoiceComesFirst | internal/pipeline/bolts.go:437-458 | without a ladder choice only the skeleton runs |
| BoltTheorems.LastBatchDecides | internal/pipeline/bolts.go:489-541 | why a run that started a batch ends |
| BoltTheorems.RunsAtItsDepth | internal/pipeline/bolts.go:465-541 | in every run a bolt runs in the batch of its depth |
| BoltTheorems.RunsLeastClosedSet | internal/pipeline/bolts.go:465-541 | when every batch passes, the bolts run are the least closed set |
| BoltTheorems.DrainsExactlyWhen | internal/pipeline/bolts.go:543-548 | stages 3.6 and 3.7 start exactly when nothing dangles or circles and every batch passes |
| BoltTheorems.PlannedNeverDangle | internal/pipeline/bolts.go:133-188 | planned bolts never dangle |
| OutputBatcher.StreamOutput | internal/role/streamer.go:70-181 | on every schedule the chunks are exactly the bytes read, each well cut; the buffer, the row and the channel |
| OutputBatcher.TakeData | internal/role/streamer.go:138-169 | the bytes of one read: a chunk per line, and the size trigger |
| OutputBatcher.Flush | internal/role/streamer.go:78-104 | append, one retry, then the send whatever became of the append |
| OutputBatcher.PendingStaysSmall | internal/role/streamer.go:154-169 | nothing pending holds a newline or reaches the threshold |
| OutputBatcher.AppendsRefineOneSave | internal/db/stage_log_store.go:49-62 | after a reset, with no chunk lost, the row is what one save of the whole stream stores |
| OutputBatcher.StreamAfterReset | internal/db/stage_log_store.go:26-62 | the same for a run of the batcher |
| OutputBatcher.SanitizeConcat | internal/db/stage_log_store.go:11-13 | sanitizing in pieces is sanitizing the whole |
| OutputBatcher.StageLog.Save | internal/db/stage_log_store.go:26-39 | the row is replaced by the sanitized content |
| OutputBatcher.StageLog.Append | internal/db/stage_log_store.go:49-62 | the row is created or extended by the sanitized content |
| OutputBatcher.StopsBecause | internal/role/streamer.go:108-181 | the first event that stops the batcher decides how it ends |
| OutputBatcher.BufferExcess | internal/role/streamer.go:128-137 | the buffer exceeds the bytes read by exactly the bytes that ticks flushed |
| OutputBatcher.BufferIsInput | internal/role/streamer.go:128-137 | the buffer is the input exactly when no tick finds pending bytes |
| OutputBatcher.TickRepeats | internal/role/streamer.go:128-137 | any newline-free text caught by a tick is returned twice |
| TagParser.ExtractBlocks | internal/chat/parser.go:79-110 | the text without the accepted blocks, and their results |
| TagParser.ScanRebuilds | internal/chat/parser.go:79-110 | cutting at the blocks loses nothing, and cuts at the first opening and the first closing tag |
| TagParser.ScanFindsBlocks | internal/chat/parser.go:79-110 | there is only one such cut: whatever proper blocks a text is made of are found |
| TagParser.ReinsertRebuilds | internal/chat/parser.go:79-110 | putting the removed blocks back at their places rebuilds the input; rejected and unclosed blocks stay as they are |
| TagParser.ResultsMatchBlocks | internal/chat/parser.go:96-102 | results are those of the removed blocks, one for one, in order |
| ToolCalls.ParseToolCallBody | internal/chat/parser.go:116-137 | the last verb and every args line; nothing without a verb |
| ToolCalls.ToolCallRoundTrip | internal/chat/parser.go:15-20 | reading a rendered tool call gives it back |
| ToolCalls.LastVerbCounts | internal/chat/parser.go:116-137 | of several verb lines the last counts, and all args lines are joined |
| Citations.ParseCitationsBody | internal/chat/parser.go:141-186 | each item starts an entry and the fields after it fill it in |
| Citations.EntriesOfRendered | internal/chat/parser.go:141-186 | every entry is read back, field for field, from its lines |
| Citations.CitationsRoundTrip | internal/chat/parser.go:22-26 | reading a rendered citations block gives it back |
| Citations.FieldLineReads | internal/chat/parser.go:194-200 | a rendered field line splits into its key and value |
| Citations.PlainItemReads | internal/chat/parser.go:158-165 | an item may be a bare path |
| Citations.FieldReplaces | internal/chat/parser.go:166-181 | a field line replaces its field, and an unknown one changes nothing |
| ChatParser.ParseStream | internal/chat/parser.go:57-74 | text, tool calls and citations of an answer |
| ChatParser.StreamIsRebuilt | internal/chat/parser.go:57-74 | over both passes nothing of the answer is lost |
| ChatParser.ExtractInvertsRender | internal/chat/parser.go:79-137 | texts interleaved with tool calls come back as the same texts and calls |
| ChatParser.AnswerReads | internal/chat/parser.go:10-74 | an answer of text, a tool call and citations, written out, gives back its text, its call and its citations |
| Argv.ParseArgs | internal/chat/cli_proxy.go:338-365 | the splitter's loop |
| Argv.ParseInvertsQuoting | internal/chat/cli_proxy.go:338-365 | parsing quoted, or space-free bare, words joined by spaces gives the words back |
| Argv.DividesWords | internal/chat/cli_proxy.go:338-365 | spaces and tabs divide arguments, and no other character does |
| Argv.ArgumentsAreClean | internal/chat/cli_proxy.go:338-365 | every argument is non-empty and quote-free |
| Argv.ArgumentsKeepText | internal/chat/cli_proxy.go:338-365 | no character but quotes and unquoted blanks is lost or moved |
| ArgvLine.ArgumentsCollapse | internal/chat/cli_proxy.go:338-365 | the arguments joined by spaces are the text without quotes and with unquoted blanks collapsed |
| ArgvLine.PlainLineStays | internal/chat/cli_proxy.go:338-365 | a trimmed text without quotes, tabs and repeated spaces comes back from its arguments |
| Allowlist.AtMostOneMatch | internal/chat/cli_proxy.go:110-140 | no command is allowed by two entries |
| Allowlist.FindVerb | internal/chat/cli_proxy.go:56-76 | the entry that allows the command, which is the only one |
| Allowlist.LookupFinds | internal/chat/cli_proxy.go:56-95 | an entry is found exactly when one allows the command |
| CommandClasses.ClassesAre | internal/chat/cli_proxy.go:110-140 | which commands are read-only, mutating and destructive, by their words |
| CommandClasses.ClassesExclude | internal/chat/cli_proxy.go:110-140 | no command is of two classes |
| Proposals.ProposalStore.constructor | internal/chat/cli_proxy.go:195-203 | an empty store, whose time to live is five minutes unless a positive one is given |
| Proposals.ProposalStore.Create | internal/chat/cli_proxy.go:208-267 | the proposal made for an allowed command; only held ones are stored |
| Proposals.ProposalStore.Get | internal/chat/cli_proxy.go:270-282 | the stored proposal; one past its time is dropped |
| Proposals.ProposalStore.Resolve | internal/chat/cli_proxy.go:285-294 | the proposal is taken out |
| Proposals.Service.RouteToolCalls | internal/chat/service.go:266-304 | the tool-call loop as a run of proposals |
| Proposals.Service.ConfirmProposal | internal/chat/service.go:474-503 | it executes exactly when approved, stored and asked from its own session |
| Proposals.StepKeepsInv | internal/chat/service.go:266-304 | every operation keeps: pending proposals were created, wait for the user and have not run |
| Proposals.EveryRunIsJustified | internal/chat/cli_proxy.go:208-299 | in every run each execution is justified by what came right before it, and none repeats |
| Proposals.DestructiveNeedsApproval | internal/chat/service.go:474-503 | a command matched by a destructive entry runs only after an approval of its own id in its own session, one matched by a mutating entry also with trust on, and no proposal runs twice; what it runs as is the subject of `ExecutedCommands` |
| ProposalTheorems.ProposedExactly | internal/chat/cli_proxy.go:208-267 | a proposed command is refused, run at once or stored, by its entry's class and the trust setting |
| ProposalTheorems.HoldsExactlyWhen | internal/chat/cli_proxy.go:270-294 | over any operations a stored proposal stays exactly when none decides on it or looks at it past its time |
| ProposalTheorems.ApprovalIgnoresTheClock | internal/chat/service.go:474-503 | over whole runs an approval in its session executes a proposal exactly when nothing took it out before, also past its expiry |
| ProposalTheorems.ExpiredProposalRuns | internal/chat/cli_proxy.go:285-294 | a destructive proposal approved one second after its expiry runs |
| ProposalTheorems.ForeignDecisionDiscards | internal/chat/service.go:475-478 | a decision from another session runs nothing, and the proposal never runs afterwards |
| ProposalTheorems.TakenOutNeverRuns | internal/chat/cli_proxy.go:270-294 | nor does one that was refused, or looked at past its time |
| ExecutedCommands.ClassKeptExactlyWhen | internal/chat/cli_proxy.go:217-225 | what runs has the class that was matched exactly when some entry of that class allows what is left of the command |
| ExecutedCommands.VerbIsCutOff | internal/chat/cli_proxy.go:220-225 | a verb followed by plain text runs the text alone |
| ExecutedCommands.BareVerbRunsNothing | internal/chat/cli_proxy.go:220-225 | a bare verb is left without arguments |
| ExecutedCommands.ReadOnlyRunsMutating | internal/chat/cli_proxy.go:220-225 | a command matched as read-only that runs as a mutating one |
| ExecutedCommands.ListedRunsUnlisted | internal/chat/cli_proxy.go:220-225 | a listed command that runs as one that is not listed |
| ExecutedCommands.SignalKeepsEntry | internal/chat/cli_proxy.go:220-222 | a signal without quotes runs as what the same entry allows |
| ExecutedCommands.QuotedSignalLosesWord | internal/chat/cli_proxy.go:80-95 | one with an empty quoted word need not |
| ExecutedCommands.RunsAsAllowedExactlyWhen | internal/chat/service.go:266-304 | the exact condition for every execution of every run |
| ExecutedCommands.DestructiveLineNeedsApproval | internal/chat/service.go:474-503 | where it is met, a destructive command line runs only right after its approval |
| ExecutedCommands.MutatingRunsUnapproved | internal/chat/service.go:266-304 | a run where it is not met, and a mutating command line runs without trust or approval |
| MarkdownChunks.ChunkMarkdown | internal/chat/rag.go:124-164 | the chunks cut the file up in order, each body is the trimmed text of its range, and only blank lines before the first are left out |
| MarkdownChunks.CoveredOnce | internal/chat/rag.go:124-164 | every line that is not blank is in exactly one range |
| MarkdownChunks.StartsAtHeaders | internal/chat/rag.go:150-160 | every header starts a chunk and names it |
| MarkdownChunks.HeaderExactly | internal/chat/rag.go:166-170 | a header is one or two number signs, some space and then something else |
| MarkdownChunks.TitleExactly | internal/chat/rag.go:152-152 | its title is the trimmed text after the signs and spaces |
| MarkdownChunks.IntroIsFirst | internal/chat/rag.go:124-134 | a chunk without a header is the introduction, at the top of the file |
| MarkdownChunks.OnlyFirstIsIntro | internal/chat/rag.go:124-164 | every chunk but the first begins at a header |
| MarkdownChunks.RangesIncrease | internal/chat/rag.go:124-164 | ranges are disjoint and increasing |
| MarkdownChunks.PartitionIsUnique | internal/chat/rag.go:124-164 | only one list of chunks cuts a file up this way |
| Providers.MergeProviders | internal/config/merge.go:21-47 | strictly sorted, and under each name the database's entry, else the file's first |
| Providers.DedupAndSort | internal/config/merge.go:51-71 | one entry per name, the first, strictly sorted |
| Providers.MoveDown | internal/config/merge.go:65-69 | one pass of swaps puts the entry in its place |
| Providers.SortInPlace | internal/config/merge.go:65-69 | the in-place insertion sort |
| Providers.SortIsSorted | internal/config/merge.go:65-69 | its result is in order |
| Providers.SortMembers | internal/config/merge.go:65-69 | its result is a permutation |
| Providers.FindSorted | internal/config/merge.go:65-69 | it is stable: the first entry of a name stays first |
| Providers.StrictIsUnique | internal/config/merge.go:21-71 | a strictly sorted list is determined by what is found under each name |
| Resolution.ResolveTier | internal/config/store.go:256-283 | the least enabled provider by name that has a model for the tier |
| Resolution.BestIsLeast | internal/config/store.go:249-283 | that choice is a candidate and no candidate's name is before it |
| Resolution.ScanFindsBest | internal/config/store.go:269-281 | filtering, sorting and scanning finds it |
| Resolution.ShownChoice | internal/api/config_handlers.go:184-205 | the first enabled name the page shows |
| Resolution.PageShowsDispatch | internal/api/config_handlers.go:196-199 | with distinct names the page and the dispatch agree |
| Resolution.PageAgreesExactlyWhen | internal/api/config_handlers.go:184-205 | on any one list they agree exactly when there is no choice or the last entry with its name is enabled |
| Resolution.RepeatedNameDisagrees | internal/api/config_handlers.go:160-163 | a list on which they do not, which the primary key keeps out of the database |
| Resolution.MergeAgreesExactlyWhen | internal/config/merge.go:21-47 | the page on the database's list and the dispatch on the merged one agree exactly when there is no choice or it is an entry of the database |
| Resolution.PageShowsMergedDispatch | internal/db/migration_020.go:49-59 | so they always do: a tier's keys are names of the database, and no file is merged |
| Resolution.FindProvider | internal/config/resolve.go:107-115 | the first provider with the name |
| Resolution.ResolveProvider | internal/config/resolve.go:30-105 | override, tier, single provider, default and the missing key, in that order |
| ResolutionTheorems.LessIsLexicographic | internal/config/merge.go:65-69 | names are ordered as text: by the first character in which they differ |
| ResolutionTheorems.OverrideDecides | internal/config/resolve.go:38-50 | an override of a listed provider decides provider and model, whatever the tier and the others are |
| ResolutionTheorems.TierDecides | internal/config/resolve.go:52-69 | without one the least enabled provider with a model in the tier's row decides, with that model unless it is empty |
| ResolutionTheorems.SingleDecides | internal/config/resolve.go:71-84 | without a tier's choice the only enabled provider decides, with its default model |
| ResolutionTheorems.DispatchGetsChoice | internal/config/resolve.go:30-105 | what the settings choose is what the dispatch gets, with its key |
| ResolutionTheorems.DispatchWithoutChoice | internal/config/resolve.go:30-90 | without a choice: an unknown override, a tier that cannot be loaded, or the tool's default |
| ResolutionTheorems.DispatchExactly | internal/config/resolve.go:86-105 | when the default is used, and when a key is missing |
| Resolution.OrderDoesNotMatter | internal/config/resolve.go:30-105 | with distinct names a permuted list resolves the same |
| QuestionIds.ParseInvertsPrint | internal/feature/question.go:181-188 | reading a printed id gives its number |
| QuestionIds.PrintIsInjective | internal/feature/question.go:188-188 | different numbers print differently, past three digits too |
| QuestionIds.PrintsPadded | internal/feature/question.go:188-188 | the printed form: Q, a dash, at least three digits |
| Questions.NextQuestionId | internal/feature/question.go:178-189 | one more than the largest number |
| Questions.NextIdIsFresh | internal/feature/question.go:178-189 | the next id is not taken, whatever the file holds |
| Questions.FileQuestionStore.CreateQuestion | internal/feature/question.go:191-221 | a pending question at the end of its feature's file; other files are untouched |
| Questions.FileQuestionStore.SettleQuestion | internal/feature/question.go:279-331 | the first question with the id is settled if pending; conflict or not found otherwise |
| Questions.FileQuestionStore.ListPending | internal/feature/question.go:256-277 | the pending questions in order |
| Questions.FileQuestionStore.PendingCount | internal/feature/question.go:344-360 | their number |
| Questions.FileQuestionStore.DeleteQuestions | internal/feature/question.go:333-342 | the feature's file is gone |
| Questions.FileQuestionStore.AssumeAllPending | internal/feature/question.go:428-447 | each question pending at the start and first with its id is settled by its own assumption |
| QuestionTheorems.IdsAreInOrder | internal/feature/question.go:178-189 | in every run question k has the id of k + 1 |
| QuestionTheorems.IdsAreDistinct | internal/feature/question.go:178-189 | no id is used twice |
| QuestionTheorems.SettledOnce | internal/feature/question.go:279-331 | a settled question never changes again |
| QuestionTheorems.SettledForGood | internal/feature/question.go:279-331 | over whole runs it is the same at the end |
| QuestionTheorems.LeavesPendingOnce | internal/feature/question.go:279-331 | in a run at most one operation settles a given question |
| QuestionTheorems.SettledExactlyWhen | internal/feature/question.go:279-331 | a question is settled at the end exactly when one did |
| QuestionTheorems.SettledProperly | internal/feature/question.go:279-331 | a question leaves pending with an answer or an assumption, and keeps the other field |
| QuestionTheorems.AskedAs | internal/feature/question.go:191-221 | what a new question holds |
| QuestionTheorems.SettledWith | internal/feature/question.go:279-331 | the text a settled question has been given, by the operation that settled it |
| QuestionTheorems.PendingIsWhatRemains | internal/feature/question.go:344-360 | pending is created less answered less assumed, in every run |
| QuestionTheorems.AssumingAllLeavesNone | internal/feature/question.go:428-447 | afterwards none is pending and settled questions are as they were |
| QuestionTheorems.AssumesAllExactlyWhen | internal/feature/question.go:428-447 | for any file: none is left pending exactly when each pending question is the first with its id |
| QuestionTheorems.RepeatedIdStaysPending | internal/feature/question.go:428-447 | two questions with one id: the second is never assumed |

## Left out

- Pipeline.Feature.AdvanceFeature: runs only where the loop does not get stuck, because a method must end; `PipelineDivergence.DivergesExactlyWhen` and `PipelineDivergence.CanDivergeExactlyWhen` are the statements about all runs.
- PipelineSafety.EveryRunIsSafe: a bolt is requested while nothing is in progress and a linear stage is accepted as it is only while active; `PipelineLimits` says exactly what happens otherwise. Jumps, re-added features and scope changes are outside its runs.
- Pipeline.Feature.RunStage: does not model the recovery from a panic, failing database writes, the retry of a transient dispatch error, timestamps or the text of events; a dispatch error, a quota error and a cancellation are inputs.
- Pipeline.Feature.ProcessResult: does not overwrite the log row with the agent's output, and leaves out broadcasts, notifications and role learning.
- Pipeline.Feature.TakeTurn: an execution mode that is none of human, guided and autonomous behaves as an unset one; one feature, one writer.
- Pipeline.Feature.AdvanceStage: the auth health check is an input; pull requests and workspace updates at a phase boundary are left out.
- PipelineTheorems.JumpLands: is about a jump with no stage under way; `PipelineDecisions.JumpExactly` says what any jump does.
- BoltScheduler.RunSideBySide: bolts of a batch are interleaved as wholes; the stages of two bolts are not, because all of them share one feature object whose current bolt each run overwrites.
- BoltScheduler.RunAllBolts: how each `RunBolt` ends is an input, as are the ladder choice and the polls of a gate; stages 3.6 and 3.7 themselves are not run. That bolts are done before 3.6 holds in the control loop only if their rows exist, which `PrepareBolts` does not create.
- OutputBatcher.Flush: an append that reports an error has stored nothing; a send is dropped only as its input says.
- OutputBatcher.StreamOutput: ticks may come at any time, so the flush interval and the resets of the ticker play no part.
- TagParser.ExtractBlocks: removing a block can join its surroundings into a new one, which stays in the text; no statement is made about extracting twice.
- Allowlist.FindVerb: the consequence texts and the read-only default for unknown commands are left out.
- Proposals.Service.ConfirmProposal: running a command is an entry in the log; its output, its exit code, audit rows and stream chunks are left out. The call is logged even for an empty argument list, which the program's `Execute` refuses. What the subprocess does with its arguments is outside.
- Proposals.ProposalStore.Create: ids are the counter alone, without the time the program puts in front of it.
- Resolution.ResolveTier: the library sort, which is not stable, is modelled by the insertion sort; with distinct names there is only one result.
- Resolution.ShownChoice: one tier at a time; assignments that are listed but not chosen are left out.
- QuestionIds.ParseId: numbers are unbounded, so an id too large for a machine integer is read and not ignored.
- Questions.FileQuestionStore.CreateQuestion: validation, phases, roles, types and timestamps are left out, and so are files that cannot be read or written.
- MarkdownChunks.ChunkMarkdown: the id of a chunk is left out.
- The retriever (`Retrieve`, `tokenize`, `scoreChunk`): a filter and a library sort.
- `Gate` as a class: the pipeline uses only whether a gate is open, which is part of a stage's result.
- tmux, git, GitHub, SQL, JSON, HTTP, server-sent events, role and rule files, credentials and migrations: outside services.
