# Orchestrator model

A Dafny model of the ai-dev-swarm orchestrator: the project and milestone state
machine with its crash, restart, pause, budget and operator paths; the worker
pool that runs it concurrently; and five smaller stateful parts around it.
`dafny verify dfyconfig.toml` checks everything.

## One project

`Machine` is the specification: a project is its stored state, its milestones in
ordinal order, the kill and pause flags, the next row id and what the tick in
flight is waiting for. A tick has two halves, `Start` up to its first call of a
crew or of CI and `Finish` with the reply, and anything else may happen in
between. The events are the tick's halves, the pool's reaction to a raise, the
operator's four commands, a restart, the loss of the kill flag, and what other
projects do to this one: take ids, or split or amend one of its rows. Crew and CI
results, the two budget answers, the cost guard, the global kill switch and the
session history of a milestone are inputs of each step. Settings are fixed in a
run.

| file | what is proved over all runs |
|---|---|
| RunInvariant, NothingSkipped | the invariant; guards never fire; legal edges; what INTEGRATION and DONE are entered with |
| Account, Effects, Rewrites | a second account of every step, in stored fields, and that it is exact |
| Commits | a milestone's commit is the one its build reported |
| Shipping | a closing project holds only finished work, exactly when |
| RaiseCauses | why a tick raises for a missing row, exactly |
| Halting | terminal states, abort, and pause held and undone |
| Approval, Retry | approval gate and retry accounting, exactly when they hold |
| DonePrefix | done rows are a prefix and permanent, exactly when, per step and per run |
| Consolidation, CadenceRuns | exact cadence of consolidations |
| AutoSplit, Markers, Growth, Scope | growth bound and conservation of the acceptance criteria |
| Bounded, Progress | bounded runs between commands, exactly when; ticks that nothing holds back do advance, so the project settles |

The code itself is imperative and is modelled so: `MilestoneStore` (rows with
explicit ordinals, rewritten one by one), `ProjectStore`, `Ticking` (every
handler of the tick), `CommandRouting` and `Scheduling` are classes whose methods
loop over and assign fields, and whose contracts say that they do to the stored
data exactly what `Machine` says, and nothing to anything else; the main ones say
it in stored fields too. `MilestoneTable` holds the lemmas that tie ordinals to
lists.

## The pool

`Pool` interleaves any number of workers at the grain of lock, per-state query,
claim, the two halves of a tick, crash handling and release, with router commands
and restarts anywhere. `PoolRuns.EveryProjectLivesARun` projects every
interleaving onto a run of `Machine` for each project. Results about single
states (guards, edges, the approval gate) follow at once; `PoolLifts` restates the
bound on moves and the permanence of done rows under conditions on the pool's own
steps, and `RowOwners` shows that no row id ever belongs to two projects, which is
why a Split names at most one row of one project. Which crashes block a project,
and that no claim is ever left behind, is proved of the pool itself.

## Around it

`Steering` and `SteeringRuns` (notes handed out once per role), `EventStream`
(drop-oldest queues), `Confirmations` and `ConfirmationRuns` (expiring store
behind the Yes/No taps), `Spend` (regrouping of token usage) and `RateLimit`
(fixed window).

## Hypotheses, and where the code is looser than its intent

- A Split may name any row, of any state, of any project; an Amend may rewrite
  the technical note. Both are events of the model. Results that need more say
  so: `SparesDone` (no Split of a DONE row), `KeepsMarkers` (specs of a plan carry
  no consolidation marker, Splits and Amends neither add nor drop it),
  `Contained`, `Mechanical`.
- Nothing protects DONE work from a Split: `DoneWorkIsLost` is a run in which a
  finished milestone is deleted, `DoneKeptIff` says that only such Splits do it.
  `ShipsPendingWork` is a run in which a Split arrives during the integration CI
  and the project ends in DONE with pending milestones; `AlwaysFinishedIff` says
  that, with the router wired, only such Splits do that.
- The kill flag survives a restart of the orchestrator but not a reset of its
  store (`src/aidevswarm/tools/kill_switch.py:8-16`): its loss is an event of the
  model at any point of a run and of the pool. The pause flag is a column of the
  project's row and is never lost.
- A Split of a row that is gone raises, and so does a build whose row another
  project's replanner split meanwhile (`MissingRowIff`, `LostToASplit`).
- A router built without the milestone repository resumes a project that was
  never planned into BUILDING, past the approval gate and straight to
  INTEGRATION, and keeps exhausted retry counts. The results that fail there are
  stated with the exact condition.
- A project over its scope cap is blocked again on the next build tick after a
  resume, so bounds on runs are stated between operator commands.
- `src/aidevswarm/schemas/replanner.py` says an Amend is applied with
  `model_copy`; the repository validates the merged spec as a whole and rejects a
  bad patch. The model follows the repository.
- The clock of the pool, of the confirmation store and of the steering table does
  not go back.

## Model

| member | source | states |
|---|---|---|
| `RunInvariant.Reachable` | src/aidevswarm/orchestrator/tick.py:188-293 | In every reachable state row ids are distinct and below the id counter, the tick in flight fits the stored state, only the row being built is BUILDING and is as the tick read it, no row is BUILDING outside BUILDING, BLOCKED and KILLED, and (router wired) a planned project has rows. |
| `Account.AccountIsExact` | src/aidevswarm/orchestrator/tick.py:126-463 | A second, relational account of every step (each half of a tick in each state, crash, the four commands, restart, loss of the kill flag, other projects' Splits and Amends) in the stored fields, down to every field of every row: from a state with the run invariant a step leads to q if and only if the account allows q, so it leaves nothing open. |
| `Account.RunsAreChronicles` | src/aidevswarm/orchestrator/tick.py:126-463 | A sequence of states starting at a new project is allowed by the account, step by step, if and only if it is the run of the machine. |
| `Effects.BuildTick` | src/aidevswarm/orchestrator/tick.py:188-313 | A build tick in full: BLOCKED when 0 < max_milestones < number of rows or the cost is over; INTEGRATION when all rows are DONE; idle when the daily budget is out; else the first row not DONE starts, or is FAILED with one more retry when its own budget is out (then BLOCKED when the retries reach the limit, REPLANNING otherwise). BUILDING orphans are PENDING again, no other row changes. |
| `Effects.ScopeGuard` | src/aidevswarm/orchestrator/tick.py:303-313 | With cost and budgets free a build tick blocks the project if and only if 0 < max_milestones < number of rows; otherwise its first row not DONE is started, if there is one. |
| `Effects.CadenceTick` | src/aidevswarm/orchestrator/consolidation.py:23-45 | A consolidation is inserted, right behind the last DONE row, if and only if none is open and the number of DONE rows behind the last one is a positive multiple of the cadence. |
| `Effects.ReplanTick` | src/aidevswarm/orchestrator/tick.py:386-435 | A replan tick behind the cadence check: INTEGRATION when all rows are DONE; else the first row not DONE is halved when it went over its caps, is unmarked and has two criteria; the project goes on to build when that row is untried or out of budget; else the replanner is called. |
| `Effects.HalvesInherit` | src/aidevswarm/orchestrator/auto_split.py:90-115 | Each child keeps its parent's description and note text, with a part number on the title and a mark on the note; the criteria are dealt out in order, the larger half first. |
| `Effects.PlanReply` | src/aidevswarm/orchestrator/tick.py:167-186 | A plan becomes the project's list: every spec in full, PENDING, untried, without commit, under fresh ids; the project awaits approval if and only if that is required. |
| `Effects.BuildReply` | src/aidevswarm/orchestrator/tick.py:247-282 | A returning build changes its own row alone: DONE with the given commit (without one, what it had), FAILED with one more retry, or PENDING again when the budget ran out; the project goes to REPLANNING, or is BLOCKED at the limit, or waits. A row that is gone, or any other reply, raises and changes nothing. |
| `Effects.DecisionReply` | src/aidevswarm/orchestrator/tick.py:514-552 | A decision blocks the project if and only if it escalates, and then touches no row; it raises if and only if it splits a row that exists nowhere; any other leads to BUILDING with exactly the named row amended field by field or replaced by its children. |
| `Commits.CommitsAreTrue` | src/aidevswarm/db/repositories.py:254-268 | In every reachable state a row not DONE has no commit, and a DONE row has exactly the commit that the reply which finished its build gave (none if it gave none). |
| `NothingSkipped.GuardsNeverFire` | src/aidevswarm/schemas/state_machine.py:94-103 | In every reachable state neither transition guard nor the (project, ordinal) key has refused a write: a tick raises only for a crew or for a missing row. |
| `NothingSkipped.EdgesAreLegal` | src/aidevswarm/schemas/state_machine.py:33-72 | Every change of a project's state, by a tick, a crash, the operator or a restart, is an edge of the project table. |
| `NothingSkipped.UnwiredResume` | src/aidevswarm/orchestrator/command_router.py:206-220 | Counterexample run: without the milestone repository a project whose planning crashed is resumed into BUILDING with no milestones. |
| `NothingSkipped.NothingSkippedIff` | src/aidevswarm/orchestrator/tick.py:195-200 | Every run's step into INTEGRATION finds at least one milestone and all of them DONE, and its step into DONE a passing full CI, if and only if the router was given the milestone repository. What may happen between the two is in `Shipping`. |
| `Shipping.FinishedStep` | src/aidevswarm/orchestrator/tick.py:437-463 | With the router wired, a step leaves a project in INTEGRATION or DONE (if it is or gets there) with at least one milestone and all DONE, if and only if it is not another project's Split of a row of the closing project. |
| `Shipping.AlwaysFinishedIff` | src/aidevswarm/orchestrator/tick.py:188-200 | With the router wired, a run holds nothing unfinished in INTEGRATION or DONE at any of its points if and only if no Split of one of the project's rows arrives while it is there. |
| `Shipping.ShipsFinishedIff` | src/aidevswarm/orchestrator/command_router.py:206-220 | Every run without such a Split ends with finished work in INTEGRATION and DONE if and only if the router was given the milestone repository. |
| `Shipping.ShipsPendingWork` | src/aidevswarm/orchestrator/tick.py:444-463 | Counterexample run, for any cadence but 1: during the integration CI another project's replanner splits the only, finished milestone; the CI passes and the project is DONE with two PENDING milestones. |
| `RaiseCauses.MissingRowIff` | src/aidevswarm/db/repositories.py:371-373 | From a reachable state whose tick has not raised, a step raises for a missing row if and only if the project's own replanner splits an id that exists nowhere, or the row being built is gone when its build returns. |
| `RaiseCauses.LostToASplit` | src/aidevswarm/orchestrator/tick.py:273-282 | A row gone during its build was split by another project's replanner: nothing else removes it. |
| `Approval.NoWorkBeforeApproval` | src/aidevswarm/orchestrator/command_router.py:152-164 | With the gate on and the router wired, a run without Approve never works (no BUILDING, REPLANNING, INTEGRATION, DONE) and leaves every milestone PENDING, unattempted and without commit, through planning crashes, blocks, pauses and resumes. |
| `Approval.ApprovalGateIff` | src/aidevswarm/orchestrator/command_router.py:199-237 | All runs respect the approval gate if and only if approval is required and the router is wired; two counterexample runs for the other settings. |
| `Halting.TerminalForEver` | src/aidevswarm/schemas/state_machine.py:33-72 | A DONE or KILLED project stays so over every continuation: no command, crash, restart or late reply revives it. |
| `Halting.StopsStep` | src/aidevswarm/orchestrator/tick.py:132-136 | After an abort the first tick to start kills the project, whatever else happened before it. |
| `Halting.AbortStops` | src/aidevswarm/orchestrator/command_router.py:354-357 | After an abort, as long as the kill flag is neither lifted by a resume nor lost with its store, no run calls a crew or CI again, save for a call already under way; restarts do not lift it. |
| `Halting.AbortForgotten` | src/aidevswarm/tools/kill_switch.py:8-16 | Why the flag must stand: an abort whose flag is lost before the next tick leaves the project exactly as it was. |
| `Halting.PauseHolds` | src/aidevswarm/tools/kill_switch.py:11-15 | From a pause of a project that is not killed to the next command, through ticks, restarts, other projects' events and a call in flight: the project stays paused, no new call starts, and its state changes at most once, by the late reply or the pool's reaction to its crash. |
| `Halting.PauseRoundTrip` | src/aidevswarm/orchestrator/tick.py:137-145 | Pause, any number of ticks and restarts, resume: a project at rest that was not blocked or aborted is exactly where it was, save that a restart has put its BUILDING rows back to PENDING. |
| `DonePrefix.DonePrefixAndPermanence` | src/aidevswarm/orchestrator/tick.py:284-293 | From an orderly state, a run whose Splits name no DONE row keeps the DONE rows a prefix, and keeps every DONE row's position, id, state and commit. |
| `DonePrefix.DoneForEver` | src/aidevswarm/orchestrator/tick.py:371-394 | Over any such run from the start, the DONE rows of every reachable state are a prefix and are all still there, unchanged, in every later state. |
| `DonePrefix.KeepsIffSpared` | src/aidevswarm/orchestrator/tick.py:538-539 | From an orderly state a step preserves the DONE rows if and only if it is not a Split, own or foreign, of a DONE row. |
| `DonePrefix.DoneKeptIff` | src/aidevswarm/orchestrator/tick.py:538-539 | A run keeps every row that was ever DONE in it, in place, with its commit, from each of its points to every later one, if and only if no Split in it names a DONE row. |
| `DonePrefix.DoneWorkIsLost` | src/aidevswarm/db/repositories.py:357-410 | Witness run, under any settings: a milestone is built, DONE, and then deleted by a Split; two PENDING rows take its place. |
| `CadenceRuns.RunsOnCadence` | src/aidevswarm/orchestrator/tick.py:371-384 | Invariant over runs: DONE rows are a prefix, regular DONE rows = E * inserted consolidations + those since the last one, and a full E since the last one is seen only at the start of a replan (or in a project killed there), also when replanning crashed and is retried. |
| `CadenceRuns.ExactCadence` | src/aidevswarm/orchestrator/consolidation.py:23-45 | With markers untouched and no Split of a DONE row, every reachable BUILDING state has exactly floor(regularDone / E) consolidations inserted and fewer than E regular DONE rows after the last. |
| `CadenceRuns.TallyQuiet` | src/aidevswarm/orchestrator/consolidation.py:38-45 | Behind the done prefix the counter loop never counts: it keeps its value, or ends at 0 when a consolidation is waiting there. |
| `Growth.GrowthBound` | src/aidevswarm/orchestrator/auto_split.py:80-87 | With no replanner Split and notes left alone, a project planned with n unmarked milestones and cadence E >= 1 never holds more than 2n + 2*floor(2n/E) rows, with no scope cap at all. |
| `Scope.ScopeConserved` | src/aidevswarm/orchestrator/auto_split.py:90-115 | Over any run that changes specs only by auto-splits and consolidation inserts, the concatenation of the regular rows' acceptance criteria in ordinal order never changes. |
| `Scope.HalvesScope` | src/aidevswarm/orchestrator/auto_split.py:97-99 | The two halves of a bisected row carry exactly its criteria, in order, and are regular exactly when it was. |
| `Markers.ConsolidationSurvives` | src/aidevswarm/orchestrator/auto_split.py:101-113 | A child's note contains the consolidation marker if and only if its parent's does: the appended text cannot complete or break one. |
| `Markers.ChildIsMarked` | src/aidevswarm/orchestrator/auto_split.py:101-113 | Every child's note contains the auto-split marker, so no lineage is bisected twice. |
| `Markers.ContainsMeans` | src/aidevswarm/orchestrator/auto_split.py:77-80 | A note has the marker if and only if it is some text, the marker, and some text. |
| `AutoSplit.BisectMarks` | src/aidevswarm/orchestrator/auto_split.py:77-80 | Neither half of a bisection can be bisected again, and each is a consolidation exactly when the parent is. |
| `AutoSplit.AutoSplitPredictor.OverBudget` | src/aidevswarm/orchestrator/auto_split.py:56-74 | The loop over the roles: over budget iff the latest Developer or Tester session exceeds the turns or the cost cap; under a negative cap, iff either was non-zero. |
| `AutoSplit.AutoSplitPredictor.Predict` | src/aidevswarm/orchestrator/auto_split.py:50-87 | A split is proposed iff the latest sessions are over a cap, the note is unmarked and there are two criteria; it is then the bisection. |
| `Consolidation.ShouldInsertConsolidation` | src/aidevswarm/orchestrator/consolidation.py:23-45 | The two loops decide: every consolidation DONE, and the number of DONE rows with no consolidation at or behind them a positive multiple of the cadence. |
| `Consolidation.TallyCounts` | src/aidevswarm/orchestrator/consolidation.py:38-45 | The counter that resets at each consolidation ends at the number of DONE rows behind the last one, by position. |
| `Consolidation.ConsolidationSpecMarks` | src/aidevswarm/orchestrator/consolidation.py:48-76 | The injected milestone is recognised as a consolidation and is not taken for an auto-split child. |
| `Retry.RetryAccounting` | src/aidevswarm/db/repositories.py:235-275 | In every reachable state the `retry_count` of a row not DONE equals its failed attempts since creation or the last unblocking resume; pauses, budget stops, reclaims, transient crashes and restarts are never charged. |
| `Retry.RunsUnderLimit` | src/aidevswarm/orchestrator/tick.py:331-362 | With a limit of at least one and the router wired, rows not DONE stay below the limit whenever the project is AWAITING_APPROVAL, BUILDING or REPLANNING. |
| `Retry.UnderLimitIff` | src/aidevswarm/orchestrator/command_router.py:221-230 | Every run keeps open rows below the limit if and only if the limit is at least one and the router is wired; runs that break it otherwise. |
| `Bounded.StepDescends` | src/aidevswarm/orchestrator/tick.py:188-329 | Every step other than an operator's command leaves the measure (room below the cap, attempts owed, phase) no higher, and strictly lower when it changes the project's state. |
| `Bounded.BoundedRuns` | src/aidevswarm/orchestrator/tick.py:351-362 | With the milestone cap on, from any reachable state and for any replanner actions, own or foreign, at most Ceiling + 2 steps change the project's state before the next operator command; also with more rows than the cap. |
| `Bounded.UncappedDiverges` | src/aidevswarm/orchestrator/tick.py:303-313 | Without the cap and with two attempts per milestone, the project's own replanner can keep it advancing for any number of steps. |
| `Bounded.BoundedIff` | src/aidevswarm/orchestrator/tick.py:303-313 | Every reachable state has some bound on unattended advances if and only if the milestone cap is on, whatever the retry limit. |
| `Progress.TickAdvances` | src/aidevswarm/orchestrator/tick.py:126-165 | A tick of an advanceable project at rest, not paused, with neither kill switch nor daily budget in the way, and with a call that answers without crash, budget stop or Split of an unknown row, changes the project's state (a killed one's too). |
| `Progress.Settles` | src/aidevswarm/orchestrator/tick.py:126-165 | With the milestone cap on, Ceiling + 2 such ticks take any reachable project at rest to AWAITING_APPROVAL, DONE, BLOCKED or KILLED. |
| `Pool.AdvanceSafe` | src/aidevswarm/orchestrator/scheduler.py:211-257 | Each of the pool's steps (lock, query, claim, tick halves, crash, release, command, restart, loss of a kill flag) keeps: workers exclusive, snapshots current, candidates current or claimed, backoff maps consistent. |
| `PoolRuns.OneWorkerPerProject` | src/aidevswarm/orchestrator/scheduler.py:329-345 | Over every interleaving no project is held by two workers. |
| `PoolRuns.SnapshotIsCurrent` | src/aidevswarm/orchestrator/scheduler.py:220-229 | From its claim until its own write, the state a tick acts on is the stored state. |
| `PoolRuns.StoredEdgesAreLegal` | src/aidevswarm/db/repositories.py:122-135 | Though the state write checks nothing, every stored change of a project's state in any interleaving is an edge of the table. |
| `PoolRuns.PoolGuardsNeverFire` | src/aidevswarm/db/repositories.py:216-233 | In any interleaving no milestone guard and no key constraint fires in any worker. |
| `PoolRuns.EveryProjectLivesARun` | src/aidevswarm/orchestrator/scheduler.py:205-257 | Any interleaving of workers, router commands, restarts and losses of the kill flag looks to each project exactly like one run of the one-project machine, whose events are those the interleaving's steps mean to it. |
| `PoolLifts.PoolBoundedRuns` | src/aidevswarm/orchestrator/scheduler.py:205-257 | With the milestone cap on, from any reachable pool state, at most Ceiling + 2 steps of any interleaving change a project's stored state until a command for that project; commands for others, and their replanners, may come in any number. |
| `PoolLifts.PoolDoneForEver` | src/aidevswarm/orchestrator/scheduler.py:205-257 | As long as no worker returns with a Split of one of the project's DONE rows, whatever the pool does, its DONE rows are a prefix of its stored list and stay in every later one at the same ordinal with the same commit. |
| `RowOwners.RowsHaveOneOwner` | src/aidevswarm/db/repositories.py:357-410 | In every reachable pool state a milestone id is in the list of at most one project, with Splits across projects and ids from one counter. |
| `PoolRuns.PoolApprovalGate` | src/aidevswarm/orchestrator/scheduler.py:329-353 | In the pool a project nobody approved does no work and has only untouched milestones (gate on, router wired). |
| `PoolRuns.NoClaimInCooldown` | src/aidevswarm/orchestrator/scheduler.py:336-343 | A claim is made only when the project's cooldown has ended; a candidate on offer is claimable if and only if nobody has it and its cooldown is over. |
| `PoolRuns.FifthFailureBlocks` | src/aidevswarm/orchestrator/scheduler.py:259-317 | The fifth consecutive transient failure blocks the project, at least 450 seconds after the first; the first four leave its state alone. |
| `PoolRuns.CrashBlocksIff` | src/aidevswarm/orchestrator/scheduler.py:259-317 | Over every interleaving, a crash blocks its project and clears its streak if and only if it is not transient or four failures are on record; otherwise the state stays, the streak grows by one and the cooldown is 30, 60, 120 or 240 seconds. No other project is touched. |
| `PoolRuns.CleanTickClears` | src/aidevswarm/orchestrator/scheduler.py:240-242 | A tick that returns ends its project's streak and cooldown and no other's; one still waiting changes neither. |
| `PoolRuns.NoClaimLeaks` | src/aidevswarm/orchestrator/scheduler.py:329-345 | In every reachable pool state a project is claimed if and only if some worker has it, and the claim lock is held by exactly the worker that is choosing. |
| `Backoff.FullStreakSpan` | src/aidevswarm/orchestrator/scheduler.py:64-69 | Four full cooldowns (30, 60, 120, 240 seconds) lie between the first failure of a streak and the fifth. |
| `Pool.RunSafe` | src/aidevswarm/orchestrator/scheduler.py:172-178 | In every reachable pool state the streak and cooldown maps have the same keys and every streak is below five. |
| `Scheduling.ProjectPool.GatherCandidates` | src/aidevswarm/orchestrator/scheduler.py:347-353 | Exactly the advanceable projects with their stored states, in the order of `created_at`. |
| `Scheduling.ProjectPool.ClaimNext` | src/aidevswarm/orchestrator/scheduler.py:329-345 | Claims the project with the least `created_at` among those advanceable, unclaimed and past their cooldown, and nothing only if there is none. |
| `Scheduling.ProjectPool.HandleCrash` | src/aidevswarm/orchestrator/scheduler.py:259-317 | A transient crash with fewer than four failures on record leaves the state, adds one failure and a cooldown of 30, 60, 120 or 240 seconds; any other clears both and blocks a project that is not DONE, KILLED or BLOCKED. |
| `Scheduling.ProjectPool.ClearTransient` | src/aidevswarm/orchestrator/scheduler.py:325-327 | Forgets the project's streak and cooldown and no other's. |
| `Scheduling.ProjectPool.Step` | src/aidevswarm/orchestrator/scheduler.py:211-257 | One undisturbed turn: the oldest ready project lives exactly one machine tick followed by the pool's reaction to a raise; the claim is released, the idle/advanced verdict and the backoff maps are as specified, other projects feel only a foreign Split or Amend. |
| `MilestoneTable.ReadingIsUnique` | src/aidevswarm/db/repositories.py:194-200 | Rows with dense unique ordinals determine every project's list: two readings of one table are equal. |
| `MilestoneTable.InsertedTable` | src/aidevswarm/db/repositories.py:412-448 | Shifting the followers by one and adding a row keeps ordinals dense and unique, and the list becomes the old one with the element inserted. |
| `MilestoneTable.SplicedTable` | src/aidevswarm/db/repositories.py:357-410 | Shifting, deleting and adding the children keeps ordinals dense and unique, and the list becomes the old one with the element spliced. |
| `MilestoneTable.CreatedTable` | src/aidevswarm/db/repositories.py:171-192 | Rows created at ordinals 0, 1, ... for a project without rows extend the table. |
| `MilestoneStore.MilestoneRepo.ListForProject` | src/aidevswarm/db/repositories.py:194-200 | Returns the project's list in ordinal order. |
| `MilestoneStore.MilestoneRepo.NextPendingRow` | src/aidevswarm/db/repositories.py:202-214 | Returns the first pending or failed row of the list, or nothing. |
| `MilestoneStore.MilestoneRepo.UpdateState` | src/aidevswarm/db/repositories.py:216-233 | Moves one row along the milestone table, or is refused without a trace (unknown id, illegal hop); every other row and project untouched. |
| `MilestoneStore.MilestoneRepo.RecordAttempt` | src/aidevswarm/db/repositories.py:235-275 | Success (BUILDING rows only): DONE, the given commit stored, the old one kept without, retries unchanged; failure (rows not DONE): FAILED and one more retry; refused without a trace otherwise; no other row changes. |
| `MilestoneStore.MilestoneRepo.UpdateSpec` | src/aidevswarm/db/repositories.py:331-355 | Each field the patch gives is taken and each other kept, on one row; an invalid patch or unknown id changes nothing. |
| `MilestoneStore.MilestoneRepo.RequeueStaleBuilding` | src/aidevswarm/db/repositories.py:291-311 | Every BUILDING row of every project goes back to PENDING; the count returned is theirs. |
| `MilestoneStore.MilestoneRepo.ResetRetryCount` | src/aidevswarm/db/repositories.py:313-329 | Zeroes the retries of one project's rows that are not DONE; other projects untouched; the count returned is of the rows changed. |
| `MilestoneStore.MilestoneRepo.InsertAfter` | src/aidevswarm/db/repositories.py:412-448 | The list gains the row right behind the named one, with the whole spec given, PENDING and untried; other projects' lists are unchanged; an unknown id is refused. |
| `MilestoneStore.MilestoneRepo.ReplaceWith` | src/aidevswarm/db/repositories.py:357-410 | The named row is replaced in place, in whichever project it lives, by PENDING untried rows with the whole specs given; all other lists unchanged; an unknown id is refused. |
| `MilestoneStore.MilestoneRepo.CreateMany` | src/aidevswarm/db/repositories.py:171-192 | A project without rows gets the plan in order, every spec in full; with rows the whole plan is rejected by the ordinal key. |
| `ProjectStore.ProjectRepo.UpdateState` | src/aidevswarm/db/repositories.py:122-135 | The unguarded state write: only this project's state changes, to whatever is asked; an unknown id is an error without a trace. |
| `Ticking.LastDone` | src/aidevswarm/orchestrator/tick.py:580-584 | The last DONE row in ordinal order, or nothing. |
| `Ticking.OutcomeTells` | src/aidevswarm/orchestrator/tick.py:558-572 | The outcome of a tick tells whether it raised, and whether and where it moved the project. |
| `Ticking.Tick.Move` | src/aidevswarm/orchestrator/tick.py:558-572 | Refuses a hop the table does not have, writes any other. |
| `Ticking.Tick.ReclaimAndGuard` | src/aidevswarm/orchestrator/tick.py:284-329 | All of the project's BUILDING rows go back to PENDING and no other row changes; the project is BLOCKED if and only if 0 < max_milestones < number of rows or the cost is over. |
| `Ticking.Tick.FailAttempt` | src/aidevswarm/orchestrator/tick.py:331-362 | One failed attempt is recorded on the row; the project is BLOCKED when the attempts read plus one reach the limit, else REPLANNING. |
| `Ticking.Tick.Plan` | src/aidevswarm/orchestrator/tick.py:167-186 | The plan's rows and the move behind them are exactly the machine's reply to planning. |
| `Ticking.Tick.BuildOneMilestone` | src/aidevswarm/orchestrator/tick.py:188-282 | The build handler over the repositories does exactly what the machine's build tick and its reply do, to this project and to no other. |
| `Ticking.Tick.ApplyAction` | src/aidevswarm/orchestrator/tick.py:514-552 | Noop, Amend, Split, Escalate as in the machine: the stored state becomes BLOCKED if and only if the action escalates (no row touched), stays if it raises, and is BUILDING otherwise; a Split or Amend of a foreign row changes that project's list and nothing else. |
| `Ticking.Tick.InsertConsolidation` | src/aidevswarm/orchestrator/tick.py:371-384 | A due consolidation is inserted right behind the last DONE row. |
| `Ticking.Tick.Replan` | src/aidevswarm/orchestrator/tick.py:364-435 | Cadence, mechanical split as the predictor proposes it from the session history, clean path, budget gate and replanner in this order, exactly as in the machine. |
| `Ticking.Tick.OverBudgetHalves` | src/aidevswarm/orchestrator/tick.py:390-394 | A next row whose stored sessions are over the caps, and that can be halved, is halved by what `Replan` does. |
| `Ticking.Tick.Integrate` | src/aidevswarm/orchestrator/tick.py:437-463 | DONE on a passing CI, BLOCKED on a failing one. |
| `Ticking.Tick.AdvanceProject` | src/aidevswarm/orchestrator/tick.py:126-165 | A whole tick over the stores refines the machine's `TickOnce`: same stored state, rows, outcome (idle, moved, raised); every other project sees at most the replanner's foreign action. |
| `Ticking.Tick.SwitchesHold` | src/aidevswarm/orchestrator/tick.py:132-143 | What `AdvanceProject` does under the stored global switch, or under a pause without a kill, is nothing. |
| `CommandRouting.Router.Approve` | src/aidevswarm/orchestrator/command_router.py:152-164 | Only an AWAITING_APPROVAL project moves, to BUILDING; otherwise the answer names what is wrong and nothing changes. |
| `CommandRouting.Router.Pause` | src/aidevswarm/orchestrator/command_router.py:188-197 | Sets the pause flag and nothing else. |
| `CommandRouting.Router.Resume` | src/aidevswarm/orchestrator/command_router.py:199-237 | Lifts pause and kill; a BLOCKED project goes back to PLANNING without milestones and otherwise to BUILDING with fresh attempts, as the machine's Resume, with the matching answer. |
| `CommandRouting.Router.Abort` | src/aidevswarm/orchestrator/command_router.py:354-357 | Trips the project's kill switch and nothing else. |
| `CommandRouting.Router.Dispatch` | src/aidevswarm/orchestrator/command_router.py:113-126 | An unconfirmed abort changes nothing and asks for confirmation; pausing adds to the paused projects only, a confirmed abort to the killed ones only, approving and resuming alone move the project and resuming alone touches rows; each is exactly the machine's event, with the matching answer, and a refusal leaves the project as it was. |
| `Steering.SteeringRepo.AddNote` | src/aidevswarm/steering/repository.py:27-48 | A note of white space only is an error and leaves no trace; any other is appended. |
| `Steering.SteeringRepo.Select` | src/aidevswarm/steering/repository.py:54-69 | Exactly the notes of the project whose target is empty or the role and which it has not been handed, oldest first. |
| `Steering.SteeringRepo.Claim` | src/aidevswarm/steering/repository.py:76-87 | The INSERT returns exactly the selected notes not delivered meanwhile, in order, and delivers all of them. |
| `Steering.SteeringRepo.PullUnconsumed` | src/aidevswarm/steering/repository.py:50-87 | An undisturbed pull returns the bodies of exactly the project's notes whose target is empty or the role and which it has not had, in order, marks exactly those, and leaves none; an empty role is an error. |
| `SteeringRuns.AtMostOncePerRole` | src/aidevswarm/steering/repository.py:50-87 | Over every interleaving of notes and overlapping pulls no note is handed to a role twice, and every note handed has an empty target or that role's. |
| `SteeringRuns.CommitCompletes` | src/aidevswarm/steering/repository.py:76-87 | A committing pull hands out its project's notes, oldest first; from then on every note of the project with an empty target or the role's that existed at its SELECT has been handed to the role, by it or by an overlapping pull. |
| `SteeringRuns.RollbackReleases` | src/aidevswarm/steering/repository.py:53-54 | The rows of a rolled-back pull are due again and free for any other pull. |
| `SteeringRuns.TakesClaim` | src/aidevswarm/steering/repository.py:76-87 | Row by row and undisturbed, the INSERT of the step system is the repository's. |
| `EventStream.EventBridge.Dispatch` | src/aidevswarm/observability/event_bridge.py:163-177 | Every client subscribed to the entry's topic, with no filter or the entry's project, gets it at the end of its queue, the oldest going when 200 are queued; no other queue changes. |
| `EventStream.EventBridge.Publish` | src/aidevswarm/observability/event_bridge.py:154-161 | Before the loop is attached entries are lost, afterwards dispatched. |
| `EventStream.EventBridge.Subscribe` | src/aidevswarm/observability/event_bridge.py:183-193 | A new client starts with an empty line; the others keep theirs. |
| `EventStream.EventBridge.Get` | src/aidevswarm/observability/event_bridge.py:209-211 | Hands the client the oldest queued entry, once. |
| `EventStream.NewestSuffix` | src/aidevswarm/observability/event_bridge.py:163-177 | Over every history of arrivals and reads the queue is the newest part of what was sent, the reads are what was sent without the dropped entries, and delivered + dropped + queued = sent; the dropped are as many as arrived on 200 unread entries. |
| `EventStream.ReadsInOrder` | src/aidevswarm/observability/event_bridge.py:196-213 | The entries read sit at strictly increasing places of the stream. |
| `Confirmations.PruneIsPrefix` | src/aidevswarm/telegram/bot.py:109-115 | On entries in timestamp order pruning removes exactly a prefix. |
| `Confirmations.PendingConfirmations.Prune` | src/aidevswarm/telegram/bot.py:109-115 | Collecting the stale tokens and deleting one by one leaves exactly the unexpired entries, in order. |
| `Confirmations.PendingConfirmations.SetItem` | src/aidevswarm/telegram/bot.py:85-90 | Expired entries go, the token's entry becomes the newest, and the newest `max_entries` are kept. |
| `Confirmations.PendingConfirmations.Pop` | src/aidevswarm/telegram/bot.py:104-107 | Returns and removes the token's unexpired entry, if there is one. |
| `Confirmations.Taps.Yes` | src/aidevswarm/telegram/bot.py:276-285 | The stashed command leaves the store and takes effect, confirmed, exactly as its event (an abort sets the kill flag); with none stashed nothing happens. |
| `ConfirmationRuns.ExecTidy` | src/aidevswarm/telegram/bot.py:55-115 | After any operations on a monotone clock: timestamp order, one entry a token, at most `max_entries`. |
| `ConfirmationRuns.PulledIsLatestStash` | src/aidevswarm/telegram/bot.py:104-107 | A pull finds only the command stashed last under its token, not pulled since, and not expired. |
| `ConfirmationRuns.AtMostOncePerStash` | src/aidevswarm/telegram/bot.py:272-285 | Between two successful pulls of one token lies a stash: no command is dispatched twice. |
| `ConfirmationRuns.PullSucceedsIff` | src/aidevswarm/telegram/bot.py:85-107 | A pull at the end of any history of operations on a monotone clock succeeds if and only if the token's latest stash has neither been pulled, nor expired, nor been crowded out: a later stash left `max_entries` other tokens stashed after it and not pulled. |
| `Spend.ByProjectAndRole` | src/aidevswarm/db/repositories.py:568-581 | One row per project and role that occurs, with the sum of its tokens; unscoped usage is left out. |
| `Spend.CollectSpend` | src/aidevswarm/api/server.py:383-431 | The regrouping loop yields one line per project and one per role, each with its total and exactly its rows as children. |
| `Spend.ProjectsListed` | src/aidevswarm/db/repositories.py:553-566 | A project has a line if and only if some usage names it. |
| `Spend.SpendAgrees` | src/aidevswarm/api/server.py:383-431 | For any ledger every line and child is the sum of the tokens logged under its project, its role, or both; a line's children are exactly the groups of its project or role and add up to it; project sum = role sum = project-scoped total = all-time total less the unscoped usage. |
| `RateLimit.Limiter.RateLimited` | src/aidevswarm/api/server.py:119-126 | A limit of 0 or less never limits and leaves the window alone; otherwise a window at least 60 seconds old is reopened with count 1, any other counted up, and the request turned away past the limit. |
| `RateLimit.WindowBound` | src/aidevswarm/api/server.py:119-126 | For any request times a window lets through exactly its first `limit` requests. |
| `RateLimit.AdmittedIffRoom` | src/aidevswarm/api/server.py:119-126 | A request is let through if and only if fewer than `limit` were let through in its window before. |
| `RateLimit.SpanBound` | src/aidevswarm/api/server.py:116-126 | At most 2 * limit requests are let through in any half-open span of 60 seconds, for non-decreasing times. |
| `RateLimit.SpanBoundIsTight` | src/aidevswarm/api/server.py:116-126 | For every limit a burst around a window's end reaches 2 * limit. |

## Left out

- Crew internals, prompts, model output parsing, the Claude SDK, git, GitHub, Docker, Redis, Telegram transport, FastAPI routing and both front ends: only their results enter, as inputs of a step.
- Crash points between two writes of one handler, other than the calls of crews and CI and a Split of an unknown row: the other repository calls succeed, and the rows of a plan and the move behind them are one step.
- The notification, status text, title, timestamps and repository URL that handlers also write: nothing reads them back into the machine.
- Tick.advance_one_step and the ideation guard: their reads are not one snapshot.
- Two router handlers running at the same moment: each handler is one atomic step.
- Fairness: which eligible project is claimed is proved to be the oldest, but a paused oldest project is claimed again on every poll, so no progress of the others is claimed.
- Live edits of settings during a run.
- Which exceptions count as transient: the type names and message hints are one boolean input of the crash step.
- Costs, and floating point token totals: spend is in whole tokens, and the order of lines by cost is left open.
- The prose of the injected consolidation's description.
- Budget arithmetic, the diagnostician, the finance voice, the transcript and the remaining router commands (notes, rescope, transform, drop, switch, ideas, settings): the destructive ones that act on a project trip the same kill switch as Abort.
- Note ids and `created_at` of two notes added at the same instant: notes are kept in the order of both.
- The deferred callback between publishing an entry and dispatching it: entries are dispatched in the order published.
- Bounded.UncappedDiverges: needs two attempts per milestone, because the project's own replanner is consulted only after a failed attempt; `Bounded.BoundedIff` has no such condition, its diverging runs being fed by another project's replanner.
- Shipping.ShipsPendingWork: leaves out a cadence of 1, where a consolidation would have to be built too; `Shipping.AlwaysFinishedIff` has no such condition.
- Ticking.Tick.AdvanceProject: is one tick with nothing in between its halves; what may happen there is in `Machine` and `Pool`.
- Scheduling.ProjectPool.Step: is one worker undisturbed; interleavings are in `Pool`.
