# Verified model of the build-factory control plane

The control plane runs many build agents at once. It gates and merges their branches, lets a founder
answer decisions while agents still talk, plans and dispatches units over dependency graphs, escalates
stages that stop making progress, and shows what all of it costs. This project models its hardest logic
in Dafny and proves what that logic is there for, over all inputs, all runs and all interleavings.

Interleaved protocols (merge gate, branch locks, usage cache, decisions) are state machines whose steps
are what runs between two suspension points. Beside each stands a class whose methods are the source's
uninterrupted sections, proved equal to steps of the machine, so the promises over all runs cover them.
Their contracts also say outright, field by field, what a section leaves behind.
Tables are sequences, sets and maps, SQL queries are functions over them, loops are methods proved
against those functions. Money is `real`, times are whole numbers. Lemmas carry `{:induction false}`:
every induction is written out.

| files | what they hold |
|---|---|
| `CommitGraph`, `MergeGate`, `GateSteps`, `LateCommits`, `BranchLocks`, `LockProgress` | the rebase-test-merge gate of a target branch, commits that bypass it, and its locks |
| `Decisions`, `DecisionSafety`, `DecisionServer`, `DecisionEffects` | answering a decision while a turn and a second process interfere |
| `Text`, `Transcript` | printing and parsing session transcripts |
| `Ordering`, `PlanGraph`, `Toposort`, `TieBreak`, `PhaseOrder`, `ContractSearch`, `Plans` | plan validation and listing |
| `UnitStates`, `Dispatch`, `Replans`, `Seeding`, `SeedPhases`, `SeedHistories`, `SeedReplays` | unit life cycles, dispatch, replanned phases, and the growing phase graph |
| `Escalations`, `FixIterations` | sentinel and stagnation triggers |
| `DiffHunks`, `DiffShapes`, `Churn` | the diff parser, its digest, the churn counters |
| `StateMachine` | transitions with coupled writes and the event log |
| `UsageCache` | the usage cache shared by processes |
| `Costs`, `CostPages` | ledger totals by group, by row, by phase |
| `Settings`, `SettingsForm` | live settings and their audit log |

## Findings

* Commits that land on a gated branch outside the protocol are merged exactly when the target is by then an
  ancestor of the branch's tip (and not the tip itself). The target then carries the tested tree iff that tip
  does, and carries it on top of the head it was tested on iff, besides, the target still stands where the gate
  saw it (`LateCommits.OutsideHistorySlipsThrough`). A chain of late commits gets through iff the target has not
  moved since the gate; a late merge of the target into the branch gets through even when the gate is stale
  (`LateChainSlipsThrough`, `LateMergeSlipsThrough`; `UntestedTreesReachTheTarget` gives a run for each, and
  `TestedTreeOnAnotherHead` one that lands the tested tree on a head nobody tested it on).
* The variant of the stagnation query that compares neighbours before it limits the window misses a stagnation
  exactly when there is earlier history and the last n iterations did not begin with a drop; for all tables
  `FixIterations.VariantDiffersExactly` says when the two answers differ. It does not miss every stagnation, as
  the comment at thresholds.py:52-55 has it: with failing counts 5, 3, 3 and n = 2 both fire.
* A whole usage call returns a value at or beyond the caller's maximal age exactly when the caller has a token
  and a lock file, somebody holds the lock and the cache is that old, as long as what counts as fresh is not
  older than that maximum, which the configuration does not check (`UsageCache.TooOldExactlyWhenBusy`). In an
  interleaved run only asking for a held lock does it (`UsageCache.OnlyBusyLocksAge`).
* A transcript turn reads back as it was written iff its text has no carriage return and no line of the
  header's form (`Transcript.AppendParses`). The failing input is ordinary: a browser submits a message of
  several lines with carriage returns, and after a restart they are gone (`Transcript.TwoLineMessageIsChanged`).
* A phase that is planned again keeps its old stage edges. Each plan is checked alone, and stages can stall
  silently exactly when the union of the plans has a cycle (`Replans.ReplansStallExactlyOnCycles`;
  `Replans.TwoSoundPlansStall` names two such plans).
* A committed seeding run, repeated with the same file at any later time, is recognised as a replay exactly when
  the repository's head is still the recorded one and no other plan has been seeded since; otherwise it is refused
  as divergent (`SeedReplays.CommittedRunsReplay`; in `SeedReplays.AnotherPlanEndsTheReplay` the head never moves).
* The phase listing keeps insertion order as its tie-break, as the docstring at dashboard.py:1439 promises, exactly
  when the listing that always takes the ready phase inserted first would itself serve first come, first served,
  and would have the phases made ready by one pick in the order of that pick's edge rows. Both listings are then
  the same (`TieBreak.TieBreakExactly`). One stored edge can be enough to lose the tie-break
  (`TieBreak.OneEdgeLosesIt`).

## Model

| member | source | states |
|---|---|---|
| `CommitGraph.AncestryIsStable` | src/sf_factory/worktrees.py:523-525 | new commits never change what the ancestor test says about old ones |
| `CommitGraph.ReplayedOnBase` | src/sf_factory/worktrees.py:418 | a rebased tip contains the target it was rebased onto |
| `CommitGraph.AncestorsAreLines` | src/sf_factory/worktrees.py:523-525 | one commit is an ancestor of another iff a line of parent links leads from the one to the other |
| `MergeGate.AncestorTestIsExact` | src/sf_factory/worktrees.py:499-531 | for a recorded gate, the target is contained in the gated tip iff the target has not moved since that gate |
| `MergeGate.MergedTreesWereTested` | src/sf_factory/worktrees.py:393-553 | in every interleaving with retries and abandoned tasks, each commit put on the target has exactly the tree that passed the suite after a rebase onto the head it replaced |
| `MergeGate.OneMergePerGate` | src/sf_factory/worktrees.py:499-553 | two merges never rest on the same gate, although a unit may retry its integration at will |
| `MergeGate.EarlierHeadsStay` | src/sf_factory/worktrees.py:499-553 | every earlier head of the target stays an ancestor of the target |
| `LateCommits.OutsideHistorySlipsThrough` | src/sf_factory/worktrees.py:523-545 | after any run in which gated branches also changed from outside, with any number of commits and any parents: an integration moves the target iff the target is a proper ancestor of the branch's tip; the new tree is the tested one iff the tip's is; and the gate passed it on top of the replaced head iff, besides, the target still stands where the gate saw it |
| `LateCommits.OpenRunKeepsRecorded` | src/sf_factory/worktrees.py:499-553 | what such runs still keep: refs point at commits and a gated unit has a passing suite run of its own on record |
| `LateCommits.LateChainSlipsThrough` | src/sf_factory/worktrees.py:523-531 | a chain of late commits on the tested tip gets through iff the target has not moved since the gate, with the last late tree |
| `LateCommits.LateMergeSlipsThrough` | src/sf_factory/worktrees.py:523-531 | a late merge of the target into the gated branch always gets through, stale gate or not |
| `LateCommits.UntestedTreesReachTheTarget` | src/sf_factory/worktrees.py:499-553 | runs from the start that put an untested tree on the target, one with a gate that holds and one with a stale gate |
| `LateCommits.TestedTreeOnAnotherHead` | src/sf_factory/worktrees.py:499-553 | a run from the start that puts the tested tree on a head the suite never ran on top of |
| `MergeGate.GateIsARun` | src/sf_factory/worktrees.py:393-441 | a whole gate equals a run of the protocol's steps |
| `MergeGate.IntegrationIsARun` | src/sf_factory/worktrees.py:499-553 | a whole integration equals a run of the protocol's steps |
| `MergeGate.TargetBranch.Tier1Gate` | src/sf_factory/worktrees.py:393-441 | a conflict changes nothing; otherwise the branch ends, pass or fail, where the suite ran: as it was when up to date, else at the last of the replayed commits, which stand in order on the target; one suite run is recorded, the target stays, and so do all other branches |
| `MergeGate.TargetBranch.Integrate` | src/sf_factory/worktrees.py:499-553 | stale iff it gets to the ancestor test and the target moved since the gate; merged iff it gets there, the target has not moved and git succeeds: then one commit with the old target and the tip as parents and the tip's tree is the new target; otherwise nothing changes, and branches and suite runs never do |
| `GateSteps.OthersAreLeftAlone` | src/sf_factory/worktrees.py:393-553 | a unit's steps never touch another unit's branch or work |
| `GateSteps.WhatMovesBranches` | src/sf_factory/worktrees.py:393-553 | only writing and a replaying rebase move a branch, only a merge that works moves the target |
| `GateSteps.WorkIsKept` | src/sf_factory/worktrees.py:425-434 | over every run without a replaying rebase of its own, a stage keeps every commit of its branch, whatever suites fail and integrations are refused |
| `GateSteps.RebasePutsTheWorkOnTheTarget` | src/sf_factory/worktrees.py:418-424 | a replaying rebase leaves one commit for each tree, in order, on the target, and the branch at the last |
| `GateSteps.RunsOnlyGrow` | src/sf_factory/worktrees.py:393-553 | commits, suite runs and merges are never dropped or rewritten over any run |
| `GateSteps.UndisturbedStageLands` | src/sf_factory/worktrees.py:393-553 | from any state with a free lock, an undisturbed stage gets through gate and integration and its last tree is the target's |
| `GateSteps.LockIsNeverLeftBehind` | src/sf_factory/worktrees.py:174-175 | in every run the lock is held iff its holder is at work under it |
| `BranchLocks.NoDeadlock` | src/sf_factory/worktrees.py:174-175 | while some task is unfinished, some unfinished task can step, also when tasks are cancelled while they wait or work |
| `BranchLocks.LocksExclude` | src/sf_factory/worktrees.py:174-175 | two tasks that hold one lock are the same task |
| `BranchLocks.RemovalIsAlone` | src/sf_factory/worktrees.py:327-346 | while a removal deletes, nobody else holds a lock of the repository that existed when its list was drawn up |
| `BranchLocks.LockTable.RemovalList` | src/sf_factory/worktrees.py:335-337 | the removal's keys are exactly the repository's existing keys, strictly ascending |
| `LockProgress.EverybodyCanFinish` | src/sf_factory/worktrees.py:174-175 | from every reachable state all tasks under way can be brought to their end without cancelling one |
| `LockProgress.MovesUseUpWork` | src/sf_factory/worktrees.py:174-175 | every step of a task uses up part of a finite amount of work, so waiting cannot go round in circles |
| `LockProgress.NobodyOvertakes` | src/sf_factory/worktrees.py:174-175 | a lock that changes hands goes to the first in line, or to the asker when nobody waits |
| `LockProgress.WorkIsUnderTheLock` | src/sf_factory/worktrees.py:393-399 | over every run a task on one branch is past its lock only while it, and nobody else, holds it |
| `Decisions.TranscriptIsStill` | src/sf_factory/dashboard.py:3532-3625 | no step of anyone changes the transcript of a request whose answer is past the quiesce |
| `DecisionSafety.TranscriptStaysStill` | src/sf_factory/dashboard.py:3602-3625 | the same over any stretch of a run, from the end of the quiesce until the answer is out |
| `DecisionSafety.FlagIsExact` | src/sf_factory/dashboard.py:4412-4496 | in every reachable state a request is flagged iff an answer to it is in flight, however answers end |
| `DecisionSafety.RegisteredTranscriptsResolve` | src/sf_factory/dashboard.py:4420-4475 | a registered transcript's digest is that of the blob in the commit registered with it; a transcript named by an event is registered |
| `DecisionSafety.OneAnswerPerRequest` | src/sf_factory/dashboard.py:4382-4494 | one event, with the stored answer, for an answered request, none for any other, in every interleaving of dashboard and command line |
| `DecisionSafety.OnlyTheRecorderWins` | src/sf_factory/dashboard.py:4443-4494 | a dashboard caller sees ANSWERED iff its own transaction recorded that answer |
| `DecisionSafety.OnlyTheRecorderReports` | src/sf_factory/cli.py:1209-1242 | a command-line run reports success iff its own transaction recorded that answer |
| `DecisionSafety.OneWinner` | src/sf_factory/db.py:1144-1154 | two recorded answers to one request are the same one, and it is the stored one |
| `DecisionSafety.LosersSeeTheStoredAnswer` | src/sf_factory/dashboard.py:4479-4490 | every "already answered" result names the stored answer, and a dashboard winner's answer was an allowed one |
| `DecisionSafety.AnswersAreFinal` | src/sf_factory/db.py:1144-1154 | a stored answer never changes |
| `DecisionSafety.RepliesStayWithinLimits` | src/sf_factory/dashboard.py:3554-3560 | in every run no session gets more agent replies than it has turns, and none at the limit has a turn under way |
| `DecisionServer.Database.RegisterArtifact` | src/sf_factory/artifacts.py:139-169 | get-or-create on path and digest: an existing reference keeps its commit; a missing file registers nothing |
| `DecisionServer.Database.AnswerDecision` | src/sf_factory/db.py:1144-1154 | succeeds iff the request is pending, and then sets the answer and nothing else |
| `DecisionServer.Database.RecordAnswer` | src/sf_factory/cli.py:1210-1236 | iff the request is pending and its files are there: the answer, one event naming the transcript's digest, and references to the files, old ones untouched; otherwise nothing at all |
| `DecisionServer.Server.Post` | src/sf_factory/dashboard.py:3532-3572 | accepts iff the message is not empty, no answer is in flight, the request is pending, the session is neither busy nor locked nor at a limit, and turns are served; then the transcript grows at its end, reads as before with the founder's turn added, no other file changes, and the session is busy with the new turn; running into a limit locks the session, any other refusal writes nothing |
| `DecisionServer.Server.EndTurn` | src/sf_factory/dashboard.py:3757-3797 | the transcript reads as before with the reply or the failure notice added, no other file changes, tokens and replies are counted, the session is free again, and locked if the reply used up a limit |
| `DecisionServer.Server.BeginAnswer` | src/sf_factory/dashboard.py:4384-4413 | unknown, answered and not allowed in that order, each with its outcome and no other change; else the request is flagged, the lock taken and the session's turn to wait for picked up |
| `DecisionServer.FinishIsSteps` | src/sf_factory/dashboard.py:4443-4496 | the recording section is the winner's step, or a rollback and a second look; a file that cannot be hashed takes the second way (artifacts.py:106-115) |
| `DecisionServer.Server.FinishAnswer` | src/sf_factory/dashboard.py:4443-4496 | won iff the request is pending and its files are there; a loser is told the stored answer, or an error when there is none, with the database as it was; always unflagged and the lock free |
| `DecisionEffects.TranscriptIsTheConversation` | src/sf_factory/dashboard.py:3563-3567 | over every run of both processes a transcript reads as at the start and then, in order and numbered on, everything said in its session and nothing else, as long as what is said reads back as written |
| `DecisionEffects.UndisturbedAnswerIsRecorded` | src/sf_factory/dashboard.py:4382-4496 | with nobody else at it, an allowed answer to a pending request goes step by step to ANSWERED: stored, one event, the artifact on disk, registered and, when newly registered, in the commit it names |
| `DecisionEffects.UndisturbedDecideIsRecorded` | src/sf_factory/cli.py:1186-1242 | the same for `decide` on the command line |
| `DecisionEffects.LoserIsTold` | src/sf_factory/dashboard.py:4479-4490 | a caller that comes to record after another ends with the stored answer and changes nothing |
| `DecisionEffects.CommitTakesTheNamedPaths` | src/sf_factory/dashboard.py:4413-4430 | a commit holds the named paths as the files do and every other path as before; older commits stay |
| `Transcript.AppendParses` | src/sf_factory/dashboard.py:3652-3678 | for every file and stripped text, parsing after the append gives the old parse and the new turn iff the text has no carriage return and no header line |
| `Transcript.AppendReads` | src/sf_factory/dashboard.py:3652-3678 | what any append reads back as: one turn with the line ends translated, or at least two turns |
| `Transcript.TwoLineMessageIsChanged` | src/sf_factory/dashboard.py:4066-4080 | a two-line message as a browser submits it parses back with its carriage return gone, so not as the turn that was appended |
| `Transcript.SessionIsRestored` | src/sf_factory/dashboard.py:3633-3678 | a session printed turn by turn parses back to its turns |
| `Transcript.ParseTranscript` | src/sf_factory/dashboard.py:3652-3667 | the loop over header matches computes the line-by-line parse |
| `Transcript.Session.AddTurn` | src/sf_factory/dashboard.py:3562-3567 | file and memory stay in step iff the text is printable |
| `Toposort.Kahn` | src/sf_factory/artifacts.py:349-398 | accepts iff the induced graph has no directed cycle; processing order is topological, least id first; reports exactly the units in or behind a cycle |
| `PlanGraph.StuckUnitsAreBehindCycle` | src/sf_factory/artifacts.py:390-398 | units that each have a prerequisite among themselves are in or behind an actual cycle |
| `PhaseOrder.PhaseDagOrder` | src/sf_factory/dashboard.py:1438-1465 | each phase once; prerequisites first iff the stored graph is acyclic; then the phases without prerequisites lead in insertion order, the others follow in the order they become ready, in edge-row order where one pick makes several ready, and the documented tie-break is kept iff the stored phases and edges let it be; insertion order throughout when there is a cycle |
| `TieBreak.TieBreakExactly` | src/sf_factory/dashboard.py:1438-1465 | for every such listing of every graph: it takes the ready phase inserted first at each pick iff always taking it serves first come, first served and follows the edge rows, a condition on the stored phases and edges alone; then it is that very listing |
| `TieBreak.EarliestListingIsOrder` | src/sf_factory/dashboard.py:1438-1441 | the listing that always takes the ready phase inserted first is a complete one with prerequisites first |
| `TieBreak.TurnIsKept` | src/sf_factory/dashboard.py:1456-1462 | one pick keeps the queue fair: nobody in it was ready while somebody further up was not |
| `TieBreak.RowsAreKept` | src/sf_factory/dashboard.py:1456-1462 | one pick keeps phases made ready together in the order of their edge rows |
| `TieBreak.RootsKeepInsertionOrder` | src/sf_factory/dashboard.py:1454 | among phases without prerequisites the documented tie-break holds |
| `TieBreak.TieBreakIsLost` | src/sf_factory/dashboard.py:1438-1465 | a four-phase graph whose one listing breaks the documented tie-break, and the condition fails there |
| `TieBreak.OneEdgeLosesIt` | src/sf_factory/dashboard.py:1438-1465 | so does a graph with a single edge |
| `PhaseOrder.CycleDefeatsAnyOrder` | src/sf_factory/dashboard.py:1463-1464 | with a cycle no listing of all phases puts prerequisites first |
| `ContractSearch.Reachable` | src/sf_factory/artifacts.py:413-424 | the search computes exactly the proper descendants of the contract stages |
| `ContractSearch.Orphans` | src/sf_factory/artifacts.py:401-433 | the offending stages are exactly those that are no contract and have no contract ancestor |
| `Plans.ReadPhasePlan` | src/sf_factory/artifacts.py:213-290 | accepts exactly the sound phase plans; a rejection names a fault the plan really has, with exactly the units of the cycle or without a contract ancestor |
| `Plans.ReadMacroPlan` | src/sf_factory/artifacts.py:293-346 | accepts exactly the sound macro plans, and a rejection names a real fault; edges to foreign phases are left to the caller |
| `Plans.SafeIdsAreOneComponent` | src/sf_factory/artifacts.py:176-243 | an accepted id is one path component: no separator, no climbing dots, nothing hidden |
| `Dispatch.NoSilentStall` | src/sf_factory/db.py:399-415 | in an acyclic graph every waiting unit waits, directly or through others, on one that is runnable, in flight, blocked or failed |
| `Dispatch.CategoriesExactly` | src/sf_factory/models.py:262-288 | runnable iff pending with every prerequisite there and done, waiting iff pending with one that is not; blocked iff a human must act; terminal iff over |
| `Dispatch.MaximalRunsComplete` | src/sf_factory/models.py:262-288 | every maximal run completes every unit in exactly as many steps as there are units |
| `Dispatch.AncestorsAreDone` | src/sf_factory/db.py:399-415 | a unit that may start has its whole ancestry done, not only its direct prerequisites |
| `Dispatch.ContractsComeFirst` | src/sf_factory/artifacts.py:401-433 | in every dispatch run over an accepted plan, a non-contract stage becomes runnable only after a contract ancestor is done |
| `Replans.StallFreeExactlyWhenAcyclic` | src/sf_factory/db.py:399-415 | over all assignments of unit states there is no silent stall iff the graph is acyclic |
| `Replans.ReplansStallExactlyOnCycles` | src/sf_factory/scheduler.py:4857-4879 | for every sequence of accepted plans ingested into one phase: no silent stall iff the union of their edges is acyclic |
| `Replans.TwoSoundPlansStall` | src/sf_factory/scheduler.py:4876-4879 | two plans, each sound, whose stored union can stall |
| `Seeding.HistoryIsConsistent` | src/sf_factory/cli.py:743-828 | over every history of seeding runs and transitions: acyclic phase graph, edges between known phases, one project, each phase seeded once with one event |
| `Seeding.SeedingKeepsConsistent` | src/sf_factory/cli.py:743-828 | one committed seeding run keeps that consistency |
| `Seeding.SeededPhasesNeverStall` | src/sf_factory/db.py:399-415 | so a waiting phase of a reachable database always has a cause |
| `SeedPhases.CheckCombined` | src/sf_factory/cli.py:583-615 | passes iff stored and planned edges together have no cycle; reports exactly the phases in or behind one |
| `SeedPhases.CheckPlanEdges` | src/sf_factory/cli.py:549-580 | passes iff endpoints are known and alive, no edge is repeated and the combined graph has no cycle; a refusal names an edge at fault or exactly the phases in or behind a cycle |
| `SeedReplays.RepeatIsReplay` | src/sf_factory/cli.py:507-546 | a committed run repeated at once with the same file is a replay iff its reference was new, or the project's latest reference already had its path, digest and commit |
| `SeedReplays.CommittedRunIsRepeatable` | src/sf_factory/cli.py:756-761 | the repetition gets as far as the replay check |
| `SeedReplays.ReferencesAreNew` | src/sf_factory/artifacts.py:139-169 | over every history in which a digest determines its plan, an admissible run records a new reference |
| `SeedReplays.ReferencesCountSeedings` | src/sf_factory/artifacts.py:139-169 | a step of such a history adds one reference iff it seeds a plan |
| `SeedReplays.CommittedRunsReplay` | src/sf_factory/cli.py:507-546 | over every such history, a committed run repeated with the same file at any later time is a replay iff the head has stayed and no other plan was seeded since |
| `SeedReplays.AnotherPlanEndsTheReplay` | src/sf_factory/db.py:456-464 | two plans seeded at one head, after which the first is no replay |
| `SeedPhases.PhaseDatabase.Transaction` | src/sf_factory/db.py:135-158 | stored are then exactly the old edges and phases and the plan's, new phases pending under their names, one event each in order with a reference to the file; or nothing is written |
| `SeedPhases.PhaseDatabase.Seed` | src/sf_factory/cli.py:743-828 | commits only admissible plans, and all of them unless something outside fails; then stored are exactly the old edges and phases and the plan's, with one event each; every other run changes nothing and is refused, dry or "already seeded" for exactly the reason given |
| `SeedHistories.EdgesAreThePlanned` | src/sf_factory/cli.py:804-805 | over every history of seeding runs and transitions the stored edges are exactly those of the accepted plans |
| `SeedHistories.PhasesAreThePlanned` | src/sf_factory/cli.py:789-803 | and the stored phases exactly theirs |
| `SeedHistories.PlannedOrderHolds` | src/sf_factory/cli.py:804-805 | from its seeding on, a phase with a planned prerequisite that is not done is not runnable, whatever is seeded or done later |
| `SeedHistories.NothingElseHoldsUp` | src/sf_factory/cli.py:804-805 | a pending phase whose planned prerequisites are all done is runnable |
| `SeedHistories.HistoriesArePlayed` | src/sf_factory/cli.py:743-828 | every history of the previous rows is played by some sequence of runs and transitions |
| `UnitStates.TerminalStatesAreFinal` | src/sf_factory/models.py:107-239 | a terminal state ends a life |
| `UnitStates.DoneWasValidated` | src/sf_factory/models.py:107-188 | a done stage was validated after each SPEC or BUILD visit no escalation followed |
| `UnitStates.DoneWasSpecified` | src/sf_factory/models.py:107-188 | no stage is done without a SPEC visit, so the previous row is not empty |
| `UnitStates.NoLifeIsStuck` | src/sf_factory/models.py:107-239 | every life that is not over can be cancelled at once and can still get done |
| `UnitStates.DoneWasApproved` | src/sf_factory/models.py:107-239 | done comes right after the merge gate, or after the sign-off of a phase |
| `UnitStates.FailureWasEscalated` | src/sf_factory/models.py:107-239 | failed comes right after an escalation |
| `StateMachine.LogReplaysToState` | src/sf_factory/statemachine.py:76-102 | replaying a unit's events gives its state, each event starts where the previous ended, the life follows the table |
| `StateMachine.TerminalForever` | src/sf_factory/statemachine.py:76-102 | a unit that reached a terminal state stays there over every run |
| `StateMachine.DoneStagesWereValidated` | src/sf_factory/models.py:107-188 | the validation rule for every reachable database |
| `StateMachine.Database.Transition` | src/sf_factory/statemachine.py:76-102 | every result for exactly its reason; a move sets the state, leaves all other old units, inserts exactly the coupled new units as pending, appends the coupled rows in order, and logs one transition followed by exactly the coupled notes; otherwise no table changes |
| `StateMachine.WritesAreListedInOrder` | src/sf_factory/statemachine.py:100-101 | rows and notes are those of the writes, none dropped, doubled or reordered |
| `StateMachine.UnitsWereInserted` | src/sf_factory/scheduler.py:4857-4879 | over every run the units of a database are exactly those inserted by an operation that went through, on its own or coupled to a transition |
| `Escalations.ReportedAtMostOnce` | src/sf_factory/thresholds.py:321-342 | a sentinel event is in the evidence of at most one escalation |
| `Escalations.CursorIsExact` | src/sf_factory/thresholds.py:99-108 | an event is at or below the cursor iff it was reported |
| `Escalations.UnreportedEventsFire` | src/sf_factory/thresholds.py:225-260 | with nothing open, the check fires iff an event is unreported, with exactly the unreported ones as evidence |
| `Escalations.CursorAdvances` | src/sf_factory/db.py:892-914 | filing moves the cursor strictly forward |
| `Escalations.AtMostOneOpen` | src/sf_factory/db.py:892-936 | never two open escalations of one stage and trigger |
| `Escalations.NewEventsAreUnreported` | src/sf_factory/thresholds.py:99-108 | a new sentinel event is reported by no row |
| `Escalations.EvaluatingReportsEverything` | src/sf_factory/thresholds.py:321-342 | with nothing open, evaluating and filing adds one open row whose evidence is exactly the unreported events |
| `Escalations.ResolvingRearms` | src/sf_factory/db.py:917-926 | resolving closes that row only, and no other of its stage and trigger is open |
| `FixIterations.FiresExactly` | src/sf_factory/thresholds.py:46-84 | fires iff at least n iterations lie after the last resolution, the last n never decrease and the newest is positive |
| `FixIterations.EvidenceExactly` | src/sf_factory/thresholds.py:265-287 | with nothing open, evidence is given iff the stage stagnates, and is the stage's last n iterations after the last resolution |
| `FixIterations.NeedsFreshIterations` | src/sf_factory/thresholds.py:265-287 | after a resolution it cannot fire before n more validations, whatever else happens |
| `FixIterations.RecordKeepsNumbering` | src/sf_factory/db.py:798-816 | iterations of a stage are numbered strictly upwards |
| `FixIterations.IterationsAreCounted` | src/sf_factory/db.py:798-816 | over every run the k-th validation of a stage is its iteration k |
| `FixIterations.VariantFiresExactly` | src/sf_factory/thresholds.py:46-70 | when comparing before limiting fires, for every table: like the query, but with one comparison fewer once there is earlier history and no drop into the last n |
| `FixIterations.VariantMissesStagnation` | src/sf_factory/thresholds.py:46-70 | of the stagnations the query reports it misses exactly those with earlier history and no drop into the last n |
| `FixIterations.VariantDiffersExactly` | src/sf_factory/thresholds.py:46-70 | for every table, exactly when the two checks differ |
| `FixIterations.VariantOnThreeTables` | src/sf_factory/thresholds.py:52-55 | failing counts 5, 3, 3 make both fire, 3, 3, 3 only the query, 3, 3, 2 only the variant |
| `DiffHunks.RenderedDiffParses` | src/sf_factory/thresholds.py:138-193 | a rendered well-formed diff parses to exactly its files and start lines, whatever its body lines look like |
| `DiffHunks.DigestParsesTheSame` | src/sf_factory/worktrees.py:627-641 | for every line sequence, the digest parses to the same hunks or the same error |
| `DiffHunks.DigestIsIdempotent` | src/sf_factory/worktrees.py:627-641 | digesting twice changes nothing |
| `DiffHunks.IterHunks` | src/sf_factory/thresholds.py:158-193 | the loop with its flags computes the parse the previous rows are about |
| `DiffHunks.HunkHeaders` | src/sf_factory/worktrees.py:627-641 | the loop with its flag computes the digest |
| `DiffShapes.HeadersExactly` | src/sf_factory/thresholds.py:138-143 | a line is a hunk header iff it has the form, and its start is the number after the plus |
| `DiffShapes.AcceptedDiffGivesAllHunks` | src/sf_factory/thresholds.py:158-193 | a diff that parses gives one hunk for each `@@` line, in order, with its number |
| `DiffShapes.RefusedDiffNamesTheLine` | src/sf_factory/thresholds.py:158-193 | an error names an `@@` line that is malformed, or well formed without a file |
| `DiffShapes.DigestKeepsExactly` | src/sf_factory/worktrees.py:627-641 | of all lines the digest keeps exactly the file starts, the hunk headers and what stands before a file's first hunk |
| `Churn.ChurnTable.RecordChurn` | src/sf_factory/thresholds.py:218-223 | each counter of the stage grows by the number of hunks of its file that start in its region, other stages keep theirs, and the total grows by the number of hunks; a diff that does not parse leaves nothing |
| `Churn.TotalAfterBump` | src/sf_factory/db.py:819-829 | one bump raises the sum of all counters by one |
| `UsageCache.OneFetchInFlight` | src/sf_factory/usage.py:165-194 | never two fetches at once, for any number of callers |
| `UsageCache.WriteRate` | src/sf_factory/usage.py:147-194 | writes within a span number at most span / ttl + 1 |
| `UsageCache.FetchRate` | src/sf_factory/usage.py:147-194 | so do successful fetches, when no write was lost |
| `UsageCache.AnswersAreHonest` | src/sf_factory/usage.py:147-194 | every answer was just fetched, or stood in the cache and is as young as its path promises |
| `UsageCache.FailedFetchIsBridged` | src/sf_factory/usage.py:184-187 | a failed fetch serves the value in hand whenever it is younger than the maximal age |
| `UsageCache.NothingOnlyFromABareCache` | src/sf_factory/usage.py:155-187 | over every run, a call that returns nothing met, at one of its own steps, a cache without a value younger than its maximal age |
| `UsageCache.TooOldExactlyWhenBusy` | src/sf_factory/usage.py:147-194 | exactly when a whole call returns a value at or beyond the maximal age, in terms a caller can see beforehand, for all limits |
| `UsageCache.BusyLockReturnsTooOld` | src/sf_factory/usage.py:165-172 | asking for the lock returns such a value iff somebody holds it and the cache in hand is that old |
| `UsageCache.OnlyBusyLocksAge` | src/sf_factory/usage.py:147-194 | in every run no other step does, for callers whose limits are in order |
| `UsageCache.LockBusyIsUnbounded` | src/sf_factory/usage.py:167-172 | for every age there is a run that returns a value that old, by the lock-busy path |
| `UsageCache.SharedCache.GetUsage` | src/sf_factory/usage.py:113-194 | fetched iff nothing fresh is cached, token, lock file and lock are there and the fetch succeeds; nothing iff that fails and no value may be served, so never with a value younger than the maximal age; anything else is the cached value; the new cache |
| `UsageCache.ServedIsARun` | src/sf_factory/usage.py:113-194 | such a call equals a run of the protocol's steps |
| `Costs.CombineIsMonoid` | src/sf_factory/dashboard.py:1056-1067 | summaries form a commutative monoid, and only empty summaries combine to the empty one |
| `Costs.EstimateIsPerMillion` | src/sf_factory/dashboard.py:1006-1014 | the estimate is the input price times input tokens and output price times output tokens, per million; absent iff the model has no price |
| `Costs.WhatASummarySays` | src/sf_factory/dashboard.py:1039-1053 | the exact column is the sum of the reported costs, the estimate the sum of what the prices ask for the unreported rows, the mark set iff one of these has no price |
| `Costs.GroupIsItsRows` | src/sf_factory/dashboard.py:1006-1037 | estimating a group's token sums is estimating its rows |
| `Costs.GroupingIsExact` | src/sf_factory/db.py:769-792 | for every ledger, price table and enumeration of groups, the grouped triple is the row-by-row triple |
| `Costs.SummaryFromGroups` | src/sf_factory/dashboard.py:1017-1036 | the loop over groups computes their combination |
| `Costs.SummaryFromRows` | src/sf_factory/dashboard.py:1039-1053 | the loop over rows computes their combination |
| `Costs.CombineSummaries` | src/sf_factory/dashboard.py:1056-1067 | the loop over parts computes their combination |
| `CostPages.CostBuckets` | src/sf_factory/dashboard.py:1468-1475 | one bucket per unit with groups, each the combination of that unit's groups |
| `CostPages.BucketIsExact` | src/sf_factory/dashboard.py:1468-1475 | a unit's bucket is the sum over its ledger rows |
| `CostPages.RowsUnderExactly` | src/sf_factory/dashboard.py:1898-1943 | the rows counted for a phase are its own and those of its stages |
| `CostPages.PlanTotals` | src/sf_factory/dashboard.py:1898-1943 | the main page's phase totals are the sums over the rows of the phase and its stages |
| `CostPages.CostTables` | src/sf_factory/dashboard.py:1992-2043 | the cost page lists exactly the phases with rows, in order, each with its own rows, its stages with rows in order, and the same total |
| `CostPages.ListedExactly` | src/sf_factory/dashboard.py:1992-2043 | a phase is on the cost page iff it is given and some row is its own or a stage's of it |
| `CostPages.FactoryIsItsRows` | src/sf_factory/dashboard.py:1756 | the factory total, over the buckets in any order, is the sum over the whole ledger |
| `CostPages.TodayIsItsRows` | src/sf_factory/dashboard.py:1757-1762 | the day's total is the sum over the rows from the cut on, and with the earlier rows' total it makes up the factory's |
| `CostPages.PhasesAddUp` | src/sf_factory/dashboard.py:1898-1943 | when every row belongs to a listed phase, the phase totals add up to the factory's |
| `Settings.AcceptedFormTakesEffect` | src/sf_factory/runtime_settings.py:47-110 | after an accepted form each submitted setting has the submitted value and every other its old one |
| `Settings.AcceptedExactly` | src/sf_factory/dashboard.py:4260-4340 | a form is accepted iff each number sent is readable and in range, the parallelism is not below what runs and no budget below what its class has consumed |
| `Settings.SubmittedValues` | src/sf_factory/dashboard.py:4260-4340 | field by field, the value in force after an accepted form is the one submitted |
| `Settings.FileValues` | src/sf_factory/runtime_settings.py:47-110 | without an override the value in force is the configuration file's |
| `Settings.RepeatWritesNothing` | src/sf_factory/dashboard.py:4253-4370 | sending an accepted form again writes nothing, whatever the load is by then |
| `Settings.LogReplaysToTable` | src/sf_factory/dashboard.py:4350-4369 | over every sequence of submissions the audit events chain and replay to exactly the override table |
| `Settings.KeysDiffer` | src/sf_factory/runtime_settings.py:24-56 | different settings have different keys, all of them writable |
| `SettingsForm.SettingsDesk.UpdateSettings` | src/sf_factory/dashboard.py:4242-4370 | accepted iff each number is readable and in range, the parallelism not below what runs and no budget below what was consumed; any error leaves table and log alone; otherwise exactly the changed keys are written, one event each |
| `SettingsForm.SettingsDesk.CheckForm` | src/sf_factory/dashboard.py:4260-4340 | the checks collect exactly the refusals and the changes of the submitted settings, in order |

## Left out

- Git, subprocesses and the file system are abstracted. A rebase gives fresh commits or a conflict, a
  `--no-ff` merge takes the branch's tree when it contains the target, the suite is an outcome per run, a
  digest is an arbitrary function of the content. Worktrees are clean, and only `integrate` moves the target.
- `MergeGate.MergedTreesWereTested`: assumes nobody commits to a branch between its gate and its integration;
  `LateCommits.OutsideHistorySlipsThrough` says what happens otherwise.
- `MergeGate.TargetBranch.Integrate`: `heal_git_state`, the checked-out-branch check and the existence check
  come down to whether the integration is ready for the ancestor test.
- `DecisionSafety.RegisteredTranscriptsResolve`: says nothing of the answer file. `cli decide` in a second
  process writes the same path, so its registered digest need not match the commit.
- `DecisionSafety.FlagIsExact`: does not say that a session is ever free again. A turn cancelled before its
  first step never reaches its `finally`, and the model keeps such a session busy.
- `Decisions.TranscriptIsStill`: other writers of the factory repository are assumed to leave the paths of
  transcripts alone, on disk and in their commits.
- `DecisionServer.Server.Post`: prompts and the agent process are left out; a turn's tokens are given.
- `PhaseOrder.PhaseDagOrder`: the order in which the database returns the edge rows is given; the query leaves it
  open.
- `Transcript.AppendParses`: digits in timestamps are ASCII, as the program writes them; Python's `\d` also
  accepts other decimal digits. Bytes that are not UTF-8 are left out.
- `Transcript.SessionIsRestored`: the title line is any one line that starts with `# `.
- `DiffHunks.RenderedDiffParses`: starts from lines; paths have no tab, quote or edge white space, and hunk
  headers use ASCII digits. Python's `splitlines` is left out.
- `Churn.ChurnTable.RecordChurn`: the source bumps while it parses and relies on its caller's transaction to
  undo the bumps before an error; here the parse comes first.
- `UsageCache.WriteRate`: clocks are the callers' `now` arguments; nobody deletes the file.
- `UsageCache.FetchRate`: needs every write to have succeeded, and no fetch result still waiting to be written.
- `Settings.AcceptedFormTakesEffect`: how Python reads a number from a form field is a parameter; overrides
  stored by hand as strings or nulls are left out.
- `Costs.GroupingIsExact`: amounts are exact reals; floating-point rounding is left out.
- `CostPages.PlanTotals`: only the totals; the grouping of stages by state is a single-branch case split.
- `StateMachine.Database.Transition`: levels and states are enumerations, so unknown strings are left out.
- `Escalations.UnreportedEventsFire`: the churn and context-budget triggers are single comparisons and left out.
- `Plans.ReadPhasePlan`: plans arrive parsed; stage-size evaluation, sidecars and JSON schemas are left out.
- `SeedPhases.PhaseDatabase.Seed`: workspace and plan-commit preconditions are given as outcomes.
- HTML, HTTP, notifications, the watchdog, `/proc` and cgroup readings, process streaming, deployment and
  scripts are input, output or presentation.
