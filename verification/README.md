# Verification of the optimizer's change protocol and benchmark core

The project models the parts of the MongoDB optimizer whose mistakes would be expensive: how it
changes a production database and undoes the change, who may authorize that, how the evidence is
recorded, and how the evidence is measured.  It proves what these parts promise over whole runs.

| area | modules |
|---|---|
| crash-safe deployment and rollback of an index | `Catalog`, `Lifecycle`, `DeployProtocol`, `DeployInvariant`, `SettledInvariant`, `DeployRuns`, `DeployTheorems`, `DeployOutcomes`, `DeployEvidence`, `DeployRefinement`, `DeployCalls`, `DeployScenarios`, `ControlPlane` |
| the same protocol for a query hint | `QuerySettings`, `QuerySettingsInvariant`, `QuerySettingsOutcomes`, `QuerySettingsEvidence`, `QuerySettingsCalls`, `QuerySettingsTheorems`, `QuerySettingsScenarios`, `QuerySettingsService` |
| authority, approval, continuation and pre-deployment checks | `ProductionGate`, `ProductionGateTheorems`, `GateDecisions`, `GateScenarios`, `ProductionGateService` |
| the gate and the deployment together | `GatedDeployment` |
| delta reset and benchmark runs | `Dataset`, `DeltaReset`, `DeltaResetTheorems`, `WorkloadEffects`, `BenchmarkExecutor` |
| in-memory deployment, action ledger and owned rollback | `IndexOperations`, `IndexRollback`, `IndexOutcomes`, `IndexStack`, `IndexServices` |
| hash-chained ledgers | `HashChain`, `ProductionLedger` |
| admission statistics and sampling | `OrderStatistics`, `FamilyBound`, `Margins`, `MarginModes`, `RequiredPairs` |
| workload shift | `WorkloadDistance`, `ShiftDetector` |
| index generation, candidate definitions and cleanup | `IndexGeneration`, `CandidateDefinitions`, `CandidateFields`, `IndexCleanup`, `CleanupAdvice` |
| in-memory approvals | `ApprovalFlow` |

`Sorting` holds the one sorting function and the name order the other modules use.

The durable services appear twice.  A transition system takes each transaction, target operation and
observation as one step, lets any number of workers interleave, abort and die, and lets others change
the target; the theorems are about all of its runs.  A class then has the services' statements on
mutable fields, and each method is proved to leave exactly what the transition system's uninterrupted
run leaves.  What such a call does is moreover stated on any rows and any target, without a history
(`DeployOutcomes`, `QuerySettingsOutcomes`).  The delta reset, the in-memory services, the ledgers, the shift detector and the approval
flow are classes or loops proved against functions whose properties are the lemmas.

## Reading the model

- A durable step is one transaction or one adapter call.  Lost leases, refused gates and failed
  statements are an `Abort`, after which the lock is still released; a death is a `Crash`, which frees
  the session lock.  The lifecycle graph is the one in `backend/app/state_machine/optimization.py:36-65`.
- The adapter's listing is ordered by name, as in `backend/app/adapters/fake.py:20-22`.
- Fingerprints and state hashes are represented by the values they digest.  The two ledgers are the
  exception: their hash is an arbitrary function, and the theorems exhibit a collision or a genesis
  preimage where the history is not determined.
- A missing capability snapshot is bound as the text NO_CAPABILITY_SNAPSHOT, as
  `backend/app/autonomy/readiness.py:80-82` does; a stored snapshot with that very fingerprint would bind
  alike (`ProductionGateTheorems.BindingIff`), and the model does not exclude one.
- Floating-point numbers are reals; `log` and `exp` are any functions with the laws of the natural
  logarithm and its inverse.  Bootstrap index matrices, random draws, identifiers and clock readings
  are arbitrary inputs.

## Findings

- A recorded ROLLED_BACK restores the before state only if the collection existed and did not have the
  index name (`DeployTheorems.ExactInverse`, `DeployScenarios.InverseFails`): the durable path does not
  check for a pre-existing index as `backend/app/production/executor.py:128-133` does.
- Deploying a rolled-back query hint again is not crash safe (`QuerySettingsTheorems.RedeployIsNotCrashSafe`).
- A rollback called between intent and application records ROLLBACK_BLOCKED (`DeployRefinement.EarlyRollback`),
  which is terminal (`DeployScenarios.EarlyRollbackIsFinal`); the run still deploys, and its index can
  then not be rolled back (`DeployScenarios.BarredRunDeploys`).
- A query-hint rollback goes by the row it read before taking the lock: it can return success on a row that
  has since become ROLLBACK_INTENT (`QuerySettingsScenarios.StaleRollback`), and exactly in that case
  (`QuerySettingsTheorems.UndoneExactly`).
- `DurableApprovalService.approve` spends a run-bound request without releasing the run
  (`ProductionGateTheorems.BareApproval`).
- The reset digest counts synthetic events without identifying them, so equal digests of two arbitrary
  reachable states do not imply equal states (`DeltaResetTheorems.DigestBlindSpot`); an accepted state
  is nevertheless the restored one (`DeltaResetTheorems.AcceptedIsRestored`).

## Model

| member | source | states |
|---|---|---|
| Catalog.ViewInjective | backend/app/production/durable.py:306-311 | two observations of a collection are equal exactly when its index dictionaries are |
| Catalog.HasExactView | backend/app/production/durable.py:337-339 | counting exact matches in the observed listing is looking the name up in the dictionary and comparing its keys |
| Catalog.WithoutView | backend/app/rollback/durable.py:204-206 | filtering the observed listing by name gives the observation after the drop |
| Catalog.DropUndoesCreate | backend/app/rollback/durable.py:70-76 | drop after create restores the collection exactly when it existed and did not have the name |
| DeployRefinement.CrashRefinement | backend/app/production/durable.py:48-121 | kill every worker at any points of any history without outside writers; one uninterrupted deployment then succeeds exactly when the run is still deployable and nothing was rolled back, ends with the target, artifact, recovery row, status and mutation counts of a run that never crashed, leaves the rollback row alone and appends exactly the ledger rows still owed: the intent if there was no artifact, the application if it was not APPLIED; otherwise it fails leaving target, ledger and rollback row alone |
| DeployRefinement.NeverCrashed | backend/app/production/durable.py:61-121 | a first, uninterrupted deployment succeeds, ends in that same state and leaves exactly one intent and one application in the ledger |
| DeployRefinement.RollbackRefinement | backend/app/rollback/durable.py:31-90 | after any crashes an uninterrupted rollback reports ROLLED_BACK exactly when the artifact is APPLIED and no blocked outcome is on record; the index is then gone with one drop and one ledger row; otherwise the call fails on a missing artifact, reports the blocked outcome on record, or records one, and changes nothing else |
| DeployRefinement.EarlyRollback | backend/app/rollback/durable.py:127-143 | a rollback that comes after the intent and before the application reports DEPLOYMENT_ARTIFACT_INVALID and writes one row, the blocked outcome |
| DeployTheorems.AtMostOnce | backend/app/production/durable.py:74-110 | over all interleavings and crashes without outside writers: at most one create, at most one drop, a drop only with an APPLIED artifact, at most one DEPLOYMENT_APPLIED and one ROLLBACK_APPLIED row, and the target is in one of three states |
| DeployTheorems.MutationsAreGuarded | backend/app/rollback/durable.py:47-76 | whoever else writes: each mutation is issued by the lock holder, one at a time: a creation after the run left APPROVED, its intent recorded and its execution started, a drop after the artifact is APPLIED and the rollback intended |
| DeployTheorems.NoRecreation | backend/app/production/durable.py:74-83 | after a drop no later call of any worker creates or drops again |
| DeployTheorems.ExactInverse | backend/app/rollback/durable.py:47-102 | a recorded ROLLED_BACK means an APPLIED artifact whose before state is the initial target, one drop and exactly one ROLLBACK_APPLIED row; the target equals that before state exactly when the collection existed without the index name |
| DeployScenarios.InverseFails | backend/app/rollback/durable.py:204-206 | runs of one deployment and one rollback, on a missing collection and on one with an index of this name, whatever its keys: ROLLED_BACK is recorded and the before state is not restored |
| DeployScenarios.RoundTripEnds | backend/app/rollback/durable.py:47-102 | on any collection one deployment and its rollback end ROLLED_BACK, with the index gone and the before state restored exactly when the collection existed without the name |
| DeployScenarios.EarlyRollbackIsFinal | backend/app/rollback/durable.py:145-160 | from such a point of any run the blocked outcome stays and no later call of any worker reports a rollback, whoever else writes |
| DeployScenarios.BarredRunDeploys | backend/app/production/durable.py:48-121 | a run whose rollback came too early still deploys, with the blocked outcome on record |
| DeployCalls.SoloIsRun | backend/app/production/durable.py:48-121 | stepping one worker until it is done is its uninterrupted call, so the claims about calls are claims about runs |
| DeployCalls.DeployKeepsRecord | backend/app/production/durable.py:61-121 | a deployment, from any of its program points, never writes the rollback row |
| DeployTheorems.TerminalOutcomesStay | backend/app/rollback/durable.py:145-179 | terminal rollback outcomes, an artifact's before state and an APPLIED artifact never change, and the ledger only grows, also under pre-lock stale reads and outside writers |
| DeployTheorems.ReportsAreTrue | backend/app/production/durable.py:112-121 | whoever else writes: a reported success is an APPLIED artifact whose recorded collection lists the index once; a reported rollback is on record with one ledger row, from that collection to it without the index |
| DeployOutcomes.DeployOutcome | backend/app/production/durable.py:48-121 | one deployment call on any rows and any collection, whatever happened before: its result and every row it leaves, by the dictionary; it succeeds exactly when the lock is free, the recorded artifact binds this action, the run may be deployed, and a confirmed or applied effect is still there |
| DeployOutcomes.ObservedDeployment | backend/app/production/durable.py:61-121 | the same from the observation on, with the loaded status and the observed collection possibly stale |
| DeployOutcomes.VerificationDecides | backend/app/production/durable.py:111-121 | at the verification point, on any collection: unless its dictionary maps the name to the action's keys the call fails and changes nothing; otherwise that collection is recorded as applied |
| DeployOutcomes.ExecutionDecides | backend/app/recovery/durable.py:24-38 | from the recovery row on, on any collection: the index is created exactly when the effect is neither confirmed nor, under this action's record, in the dictionary |
| DeployOutcomes.RollbackOutcome | backend/app/rollback/durable.py:31-102 | one rollback call on any rows and any collection: terminal outcomes and a taken lock are reported, a finished drop is only recorded, the index is dropped exactly when the collection is what the artifact recorded and the artifact this action's, and a refusal changes nothing but its recorded reason |
| DeployOutcomes.ObservedRollback | backend/app/rollback/durable.py:47-83 | the same from the observation on, with the loaded artifact and the observed collection possibly stale |
| DeployOutcomes.SafeReasonDecides | backend/app/rollback/durable.py:127-143 | which reason refuses which collection, by its dictionary; none exactly when the collection is untouched since it was recorded, an added index included |
| DeployOutcomes.DropVerified | backend/app/rollback/durable.py:76-90 | after the drop, a collection that is not the expected one, whoever changed it, blocks the rollback with INVERSE_UNVERIFIED |
| DeployOutcomes.RecordExactly | backend/app/rollback/durable.py:145-160 | a terminal outcome replaces an intent and nothing replaces a terminal outcome; a second row of one status keeps the first one's contents |
| DeployOutcomes.FailuresExactly | backend/app/production/target_lock.py:20-43 | an exception leaves every row alone and releases the lock; a death takes the call and its session lock |
| DeployEvidence.RecordsAreVerified | backend/app/production/durable.py:111-115 | along every run, with any outside writers: an APPLIED artifact and every DEPLOYMENT_APPLIED row record a collection that lists the bound index exactly once; every rollback intent, ROLLED_BACK outcome and ROLLBACK_APPLIED row goes from the state the artifact recorded to that state without the index |
| DeployTheorems.LockIsReleased | backend/app/production/target_lock.py:20-43 | once every call has finished or died the target lock is free |
| Lifecycle.EnteredFrom | backend/app/state_machine/optimization.py:36-65 | the lifecycle graph by its targets: from which statuses each is entered, that only unfinished runs fail and that nothing leaves a finished one |
| DeployRuns.RunKeeps | backend/app/production/durable.py:48-121 | the protocol invariant and the monotonicity of the durable rows hold along every run, with outside writers |
| DeployRuns.RunSettles | backend/app/rollback/durable.py:31-102 | the exact relation between rows, program points and target holds along every run without outside writers |
| DeployInvariant.DeployStep | backend/app/recovery/durable.py:19-38 | every single step of a deployment keeps the invariant of the rows and of the worker's locals |
| SettledInvariant.SettledRollbackStep | backend/app/rollback/durable.py:47-90 | every single step of a rollback keeps the exact relation between rows, locals and target |
| ControlPlane.Services.DeployForRun | backend/app/production/durable.py:48-59 | the statements of the service leave exactly what the protocol's uninterrupted deployment leaves, and return what it reports; success exactly under the stated condition, with the index in the collection |
| ControlPlane.Services.ExecuteOrRecover | backend/app/recovery/durable.py:24-38 | the recovery row ends confirmed around one external mutation, which is issued exactly when the effect was neither confirmed nor observed; without a row nothing happens and the call fails |
| ControlPlane.Services.RollbackForRun | backend/app/rollback/durable.py:31-45 | the statements of the service leave exactly what the protocol's uninterrupted rollback leaves, and return what it reports; the index is dropped exactly when the collection is as the artifact recorded it |
| ControlPlane.Services.Record | backend/app/rollback/durable.py:145-160 | a terminal rollback row refuses any other status |
| QuerySettingsTheorems.ReturnsExactlyOnce | backend/app/production/query_settings_durable.py:52-228 | at every successful return, over all interleavings and crashes: after deploy the hint is the intended one, the row APPLIED with it and exactly one APPLIED event goes to it; after rollback the hint is the recorded before state, exactly one ROLLED_BACK event goes from the intended hint back to it, and unless a row under rollback was redeployed the row is ROLLED_BACK with it |
| QuerySettingsTheorems.UndoneExactly | backend/app/production/query_settings_durable.py:142-228 | a successful rollback leaves its row ROLLED_BACK exactly if, when it had read a finished rollback before the lock, the row still is |
| QuerySettingsScenarios.StaleRollback | backend/app/production/query_settings_durable.py:143-186 | a run in which a rollback returns success on a row that is only ROLLBACK_INTENT: it read the finished row, which was deployed and half rolled back again before it took the lock |
| QuerySettingsEvidence.RecordsAreTrue | backend/app/production/query_settings_durable.py:82-140 | along every run: an APPLIED row records the intended hint, a ROLLED_BACK row the free setting, and every event its true before, intended and after state |
| QuerySettingsOutcomes.ObservedDeployment | backend/app/production/query_settings_durable.py:70-140 | a deployment from its reading of the hint on, on any hint and row: a human's hint and a drifted APPLIED row are refused, a write that took effect is only marked, everything else is written, verified and recorded |
| QuerySettingsOutcomes.EffectVerified | backend/app/production/query_settings_durable.py:122-128 | only the intended hint, observed after the write, is marked APPLIED |
| QuerySettingsOutcomes.DeployOutcome | backend/app/production/query_settings_durable.py:34-70 | a deployment call needs the lock and every allowed index, and then the hint as it is decides |
| QuerySettingsOutcomes.ObservedRollback | backend/app/production/query_settings_durable.py:168-228 | a rollback by the row it read, on any hint: a finished one is only claimed, an interrupted one is marked ROLLED_BACK, any other needs the intended hint and restores the before state |
| QuerySettingsOutcomes.InverseVerified | backend/app/production/query_settings_durable.py:206-213 | only the recorded before state, observed after the write, is marked ROLLED_BACK |
| QuerySettingsOutcomes.FailuresExactly | backend/app/production/query_settings_durable.py:45-50 | an exception leaves hint, row and ledger alone and releases the lock |
| QuerySettingsTheorems.HumanHintKept | backend/app/production/query_settings_durable.py:52-140 | a hint present before any intent is never overwritten, and nothing is recorded about it |
| QuerySettingsTheorems.WrittenOnce | backend/app/production/query_settings_durable.py:52-228 | unless a row under rollback is deployed again, the hint is written at most once and cleared at most once, and the row's status tells what the hint is |
| QuerySettingsTheorems.WritesAreGuarded | backend/app/production/query_settings_durable.py:116-205 | every write of the hint is issued by the lock holder after its row: the intended hint on one that is not APPLIED, the before state only after ROLLBACK_INTENT; nothing else changes the hint |
| QuerySettingsTheorems.CrashedRedeploy | backend/app/production/query_settings_durable.py:108-131 | deploying a rolled-back row again is not crash safe: in any system with such a row, a death right after the write leaves it ROLLED_BACK with the hint set, and its rollback is refused |
| QuerySettingsTheorems.RedeployIsNotCrashSafe | backend/app/production/query_settings_durable.py:108-131 | a run from the start that gets there: deploy, roll back, deploy again and die |
| QuerySettingsTheorems.DeployRecovers | backend/app/production/query_settings_durable.py:34-140 | after any crashes an uninterrupted deploy succeeds exactly when the allowed indexes exist and the setting is free or has the optimizer's own row, keeps its promise and leaves the row APPLIED with the intended hint |
| QuerySettingsTheorems.RollbackRecovers | backend/app/production/query_settings_durable.py:142-228 | after any crashes an uninterrupted rollback succeeds exactly on restorable rows, keeps its promise and leaves the row ROLLED_BACK with the restored hint |
| QuerySettingsInvariant.RunKeeps | backend/app/production/query_settings_durable.py:230-329 | the invariant of hint, row, ledger and program points holds along every run |
| QuerySettingsService.Service.Deploy | backend/app/production/query_settings_durable.py:34-50 | the statements of deploy leave exactly what the protocol's uninterrupted run leaves |
| QuerySettingsService.Service.Rollback | backend/app/production/query_settings_durable.py:142-228 | the statements of rollback leave exactly what the protocol's uninterrupted run leaves |
| ProductionGateTheorems.CreationIsAuthorized | backend/app/production/durable.py:163-222 | behind every index creation of every run, with facts drifting arbitrarily: the candidate is ADMITTED with the decided fingerprint, the environment is the decided one, and either the five autonomy conditions held at the decision or an unexpired approval of that fingerprint by another user was granted through the run-bound path |
| GateScenarios.DeploysIff | backend/app/production/durable.py:163-222 | on facts that do not change, some run creates the index exactly when the facts can be decided, the action is CREATE_INDEX and its candidate is ADMITTED |
| GateScenarios.DeploysUnattendedIff | backend/app/authority/durable.py:112-118 | and some run does so without an accepted approval exactly when moreover the five autonomy conditions hold |
| GateScenarios.ApprovedPath | backend/app/approvals/durable.py:54-70 | a run that is not autonomous deploys exactly when its approver is not the requester and the approval is live both when given and at the load |
| ProductionGateTheorems.VerdictsExclude | backend/app/approvals/durable.py:54-87 | at most one verdict and one continuation job, never a self-approval; a rejected run is COMPLETED, has no job and never touches the target |
| ProductionGateTheorems.JobIffContinued | backend/app/approvals/durable.py:54-70 | the continuation job exists exactly when some run-bound approval call was accepted |
| ProductionGateTheorems.BareApproval | backend/app/approvals/durable.py:39-52 | a bare approve, at any point of any run, spends the request: whatever is called afterwards the run never gets its continuation job, and unless its decision is autonomous it is never released and creates no index |
| ProductionGateTheorems.RunInv | backend/app/authority/durable.py:41-151 | every step keeps the invariant that ties status, decision, request, verdicts, job and accepted loads |
| ProductionGateService.Rows.DecideForRun | backend/app/authority/durable.py:41-151 | the decision is written once, on an ADMITTED run, and fits the facts: AUTONOMOUS exactly under the five conditions, with everything it binds; a refused call writes nothing |
| GateDecisions.DecisionIsOfItsMoment | backend/app/authority/durable.py:100-151 | along every run, with facts drifting arbitrarily: the decision fits the facts of the moment it was taken, and is AUTONOMOUS exactly for FULL_AUTONOMOUS, eligible telemetry, a production-eligible admission, the policy AUTO_ELIGIBLE_AFTER_ADMISSION and one of CREATE_INDEX and SET_QUERY_SETTINGS_INDEX_HINT |
| GateDecisions.DecideExactly | backend/app/authority/durable.py:41-99 | when a decision is taken, that it is never replaced, and that nothing else changes |
| GateDecisions.Families | backend/app/autonomy/readiness.py:33-50 | which action families belong to which authority class |
| GateDecisions.AdmittedExactly | backend/app/production/durable.py:163-222 | a load is admitted exactly when nothing the decision bound has changed since its facts, the action is CREATE_INDEX, the candidate ADMITTED, and the policy or a live approval of this candidate still authorizes it |
| GateDecisions.VerdictsExactly | backend/app/approvals/durable.py:39-87 | approve, approve with continuation and reject: exactly when each is accepted, and everything each changes |
| GateDecisions.PromoteExactly | backend/app/runs/orchestrator.py:171-186 | an ADMITTED run goes to APPROVED on an autonomous decision and to APPROVAL_PENDING with the request for what was decided |
| GateDecisions.LoadAndCreateExactly | backend/app/production/durable.py:48-106 | an admitted load is remembered with what it saw, and a creation is made with its worker's load in a status a deployment may have |
| GateDecisions.AdvanceExactly | backend/app/state_machine/optimization.py:36-65 | other stages follow the lifecycle graph but only fail a run that waits for its decision or approval |
| GateDecisions.RequestExactly | backend/app/approvals/durable.py:25-37 | one approval request per run; a second one is answered by whether it names the same candidate and fingerprint |
| ProductionGateService.Rows.ApproveAndEnqueueContinuation | backend/app/approvals/durable.py:54-70 | the whole transaction or nothing: request, verdict, run status and the one job |
| ProductionGateService.Rows.RejectAndCompleteRun | backend/app/approvals/durable.py:72-87 | the whole transaction or nothing: request, verdict and a completed run |
| ProductionGateService.Rows.LoadBoundAction | backend/app/production/durable.py:163-222 | the ordered checks admit exactly the loads the gate's theorem speaks about; a refused load reports the first check that fails, all earlier ones passing |
| ProductionGateService.Rows.ApproveOnly | backend/app/approvals/durable.py:39-52 | the bare approve: request and verdict, or nothing |
| GatedDeployment.EveryCreationIsAuthorized | backend/app/production/durable.py:48-121 | gate and deployment protocol side by side, any number of workers and drifting facts: every index creation of the protocol is one the gate authorized, and without outside writers there is at most one |
| GatedDeployment.NothingWithoutAuthority | backend/app/runs/orchestrator.py:171-196 | until the decision is autonomous or an approval is continued no row, call or target change of a deployment exists, and a rejected run stays so |
| GatedDeployment.CreationFollowsItsLoad | backend/app/production/durable.py:51-106 | a creation is issued by the holder of the target lock, on the load this very worker was admitted with |
| GatedDeployment.GatedCall | backend/app/production/durable.py:48-59 | a deployment call of a released run is the protocol's uninterrupted call when the gate admits its load, and changes nothing when it does not |
| GatedDeployment.GatedCallDeploysIff | backend/app/production/durable.py:48-121 | after any combined history without outside writers and with the lock free, a deployment call of a released run succeeds exactly when the gate admits its load, the run may be deployed and nothing was rolled back; the index is then in place with its rows complete |
| GatedDeployment.Projects | backend/app/production/durable.py:48-121 | the gate's part of a combined run is a run of the gate, the deployment's part a run of the protocol |
| DeltaResetTheorems.DeltaRefinesRestore | benchmarks/reset.py:149-173 | after any sequence of workload operations, applied or failed, with any choice of updated document, and any optimizer-owned indexes, the delta reset leaves exactly the fully restored state and its digest check passes |
| DeltaResetTheorems.AcceptedIsRestored | benchmarks/reset.py:113-135 | a state a workload run can reach has the expected digest exactly when it is the restored state |
| DeltaResetTheorems.DigestDetermines | benchmarks/reset.py:113-135 | two such states have equal digests exactly when they agree on everything but which synthetic events exist, with equally many of those |
| DeltaResetTheorems.DigestBlindSpot | benchmarks/reset.py:132 | two different reachable states with the same digest: the synthetic events are only counted |
| DeltaResetTheorems.DigestSees | benchmarks/reset.py:113-135 | any database with the expected digest, however it came about, has pristine counts and indexes, no synthetic event, every mutable order status and stock level, and every sampled document as it was |
| DeltaResetTheorems.PristineDigest | benchmarks/reset.py:58-68 | the digest the plan expects is the digest of the restored state |
| DeltaReset.ReplayNear | benchmarks/mongodb_executor.py:321-337 | what every workload operation keeps: only the bounded projections, synthetic events and optimizer indexes differ from the data set |
| WorkloadEffects.StockAfter | benchmarks/mongodb_executor.py:335 | after any workload a stock document is lowered by the number of decrements that took it, and nothing else of it changed |
| WorkloadEffects.OrdersAfter | benchmarks/mongodb_executor.py:333 | an order is paid exactly when some status update took it, and otherwise unchanged |
| WorkloadEffects.EventsAfter | benchmarks/mongodb_executor.py:336-337 | the events are those there were and one, with the stated contents, for every inserted position |
| WorkloadEffects.DroppedAreOurs | benchmarks/reset.py:138-146 | the clean-up leaves exactly the names without the optimizer_ prefix |
| DeltaReset.BulkWriteUnordered | benchmarks/reset.py:155-164 | an unordered bulk of updates by distinct ids has one result, whatever order the server applies it in |
| DeltaReset.StockOfIs | benchmarks/reset.py:94-96 | the planned stock levels are exactly the documents of the mutable products, in id order |
| Dataset.GeneratedLayout | benchmarks/commercebench/dataset.py:54-97 | every profile, whatever the seeded generator draws, has the id layout and sizes the delta reset relies on |
| WorkloadEffects.WritesFindDocuments | benchmarks/mongodb_executor.py:321-337 | on every generated data set every workload write, at any position, finds a document of its key |
| WorkloadEffects.GeneratedReferences | benchmarks/commercebench/dataset.py:60-92 | every customer and product a generated document refers to exists |
| BenchmarkExecutor.InsertsNeverCollide | benchmarks/mongodb_executor.py:282-337 | every applied insert of warm-up and measurement adds a document of its own |
| BenchmarkExecutor.RoundAndPlace | benchmarks/mongodb_executor.py:282-319 | a window executes at each position the shape at its place in its round through the schedule, with that position |
| BenchmarkExecutor.Executor.Restore | benchmarks/mongodb_executor.py:236-248 | drop and re-insert builds the restored state |
| BenchmarkExecutor.Executor.DropOptimizerIndexes | benchmarks/reset.py:138-146 | of every collection exactly the index names that begin with the characters optimizer_ are dropped, every other stays, and each dropped one is listed once, collection by collection in the fixed order |
| BenchmarkExecutor.Executor.DeltaReset | benchmarks/reset.py:149-173 | the repairs in place, an error exactly when the digest differs, and the report: the dropped indexes in order and the number of removed events |
| BenchmarkExecutor.Executor.ResetInner | benchmarks/mongodb_executor.py:189-200 | in either mode, whatever ran before, an arm starts from the restored data set and the reset never fails |
| BenchmarkExecutor.Executor.RunWindow | benchmarks/mongodb_executor.py:282-319 | the window replays its schedule positions, counts errors and timeouts exactly, and records in order the latencies of the operations that neither raised nor were late |
| BenchmarkExecutor.RecordedIs | benchmarks/mongodb_executor.py:282-319 | a latency is recorded exactly when an operation took it, did not raise and was in time |
| BenchmarkExecutor.Executor.RunPair | benchmarks/mongodb_executor.py:138-169 | both arms of a pair, in either order, start from the restored data set, and the pair is never refused |
| IndexStack.StackDiscipline | backend/app/rollback/owned_index.py:47-111 | after any successful deployments on one collection, any attempts to undo them, in any order and repeated, leave exactly the deployments below the stack depth in place, with a verifying ledger and other collections untouched |
| IndexStack.OneAttempt | backend/app/rollback/owned_index.py:77-111 | an attempt succeeds exactly on the latest deployment still in place; any other is blocked and changes nothing |
| IndexStack.ReverseRestores | backend/app/rollback/owned_index.py:47-75 | undoing in reverse order always succeeds, restores the initial index dictionary and leaves a verifying ledger |
| IndexRollback.RollbackIff | backend/app/rollback/owned_index.py:47-111 | in every reachable world a rollback succeeds exactly for an APPLIED creation on this target whose recorded after state is the current one; it restores the recorded before state and appends the inverse, and otherwise changes nothing |
| IndexRollback.DeployIff | backend/app/production/executor.py:59-140 | a deployment succeeds exactly when its gates hold, its evidence is current and the collection exists without the name; a refused one changes nothing |
| IndexOutcomes.RefusalsExactly | backend/app/production/executor.py:59-75 | which check refuses which deployment, in their order; the created index is never missing afterwards |
| IndexOutcomes.RecordsExactly | backend/app/production/executor.py:77-115 | a deployment records a prepared and an applied row with these contents and links, and returns both |
| IndexOutcomes.AppliedExactly | backend/app/production/executor.py:135-140 | the verification after a creation accepts exactly the collections whose dictionary maps the name to the keys |
| IndexOutcomes.FailuresExactly | backend/app/rollback/owned_index.py:77-111 | which ownership failures an entry has on any dictionary, each once and in order |
| IndexOutcomes.AnswersExactly | backend/app/rollback/owned_index.py:47-75 | what a rollback answers and changes: unknown entry, its failures, or the one appended row and the dropped index |
| IndexRollback.Reachable | backend/app/production/executor.py:76-115 | after any calls every APPLIED entry records the exact states around its creation, and the chain verifies |
| IndexServices.ProductionExecutor.Deploy | backend/app/production/executor.py:59-115 | the statements on adapter, ledger and lock map change the heap as specified, and every path leaves the lock free |
| IndexServices.OwnedIndexRollbacker.Rollback | backend/app/rollback/owned_index.py:47-75 | the statements on adapter and ledger change the heap as specified |
| IndexServices.OwnedIndexRollbacker.VerifyOwnership | backend/app/rollback/owned_index.py:77-111 | the failure list, check by check, in its order |
| IndexServices.FakeDatabaseAdapter.CurrentState | backend/app/production/executor.py:117-126 | the observation is the name-ordered view of the dictionary |
| IndexServices.AppendOnlyLedger.Append | backend/app/ledger/chain.py:45-72 | the ledger grows by one row linked to its predecessor |
| HashChain.HeadDetermines | backend/app/ledger/chain.py:74-99 | two accepted chains with the same head are row for row equal, or they exhibit a collision or a preimage of the genesis hash |
| HashChain.Verify | backend/app/ledger/chain.py:74-82 | the loop accepts exactly the linked chains that start at the genesis hash |
| HashChain.AcceptedIff | backend/app/ledger/chain.py:74-82 | a list is accepted exactly when its first row follows sixty-four zeros, every other its predecessor's hash, and each has the hash of its content and of what it follows |
| HashChain.PrefixVerifies | backend/app/ledger/chain.py:74-82 | any prefix of an accepted chain is accepted, so a lost tail is not detected |
| ProductionLedger.AppendExtends | backend/app/ledger/postgres.py:25-35 | an insert extends its own target's chain by one row with the next sequence number and leaves every other target's chain alone |
| ProductionLedger.AppendAccepted | backend/app/ledger/postgres.py:25-46 | interleaved inserts for any targets keep every target's chain verifiable |
| ProductionLedger.TamperingDetected | backend/app/ledger/postgres.py:37-46 | under an unchanged head, any changed set of rows that verification accepts exhibits a collision or a genesis preimage |
| ProductionLedger.Ledger.Append | backend/app/ledger/postgres.py:25-35 | the table grows by the linked row and every chain still verifies |
| ProductionLedger.Ledger.VerifyTarget | backend/app/ledger/postgres.py:37-46 | the loop accepts exactly the contiguous, linked chains, and every chain the ledger itself wrote |
| FamilyBound.FamilyDominates | backend/app/admission/statistics.py:152-174 | the family bound is at least each metric's own percentile of resampled mean minus margin on the same indices, so a bound within a tolerance puts every metric within it |
| FamilyBound.FamilyOfOne | backend/app/admission/statistics.py:152-174 | with one metric the family bound is that metric's own |
| FamilyBound.MaximaAttained | backend/app/admission/statistics.py:173 | in every resample the family maximum is some metric's excess |
| OrderStatistics.PercentileMonotone | benchmarks/mongodb_executor.py:358-364 | pointwise larger values have a percentile at least as large |
| OrderStatistics.PercentileMonotoneInP | benchmarks/mongodb_executor.py:358-364 | a larger percentile of the same values is at least as large |
| OrderStatistics.PercentileBetween | benchmarks/mongodb_executor.py:358-364 | a percentile lies between the least and the greatest value |
| OrderStatistics.PercentileInterpolates | benchmarks/mongodb_executor.py:358-364 | at the steps between the ordered values the percentile is the ordered value, and between two steps it moves linearly |
| OrderStatistics.PercentileShifted | backend/app/admission/statistics.py:170-174 | subtracting a margin from every value subtracts it from the percentile |
| OrderStatistics.LatencyTail | benchmarks/mongodb_executor.py:275-280 | p50 ≤ p95 ≤ p99 ≤ some measured latency, and none of them without successes |
| Margins.MarginIsExact | backend/app/admission/statistics.py:104-117 | for positive log-ratio data the mean regression is within the transformed margin exactly when the candidate's geometric mean is within the allowed change of the baseline's, in both directions of better |
| Margins.BenefitIsExact | backend/app/admission/statistics.py:120-124 | the mean benefit reaches the threshold exactly when the geometric mean improved by at least the minimum fraction |
| Margins.BenefitNegates | backend/app/admission/statistics.py:41-70 | in log mode the benefit is the negated regression, zero sentinels and errors included |
| MarginModes.ScoreSign | backend/app/admission/statistics.py:41-58 | in every mode a score exists exactly for non-negative values; ordered modes are positive exactly on a regression and negative exactly on an improvement, the boolean mode is one exactly on a change |
| MarginModes.AbsoluteMarginIsExact | backend/app/admission/statistics.py:104-108 | in absolute mode the mean score is within the margin exactly when the candidate's mean is within the allowed change of the baseline's |
| MarginModes.BooleanMarginIsExact | backend/app/admission/statistics.py:104-109 | a boolean invariant is within its margin exactly when no pair differs |
| MarginModes.ZeroReference | backend/app/admission/statistics.py:73-84 | in log mode a negative observation is an error and a zero makes reference and margin zero |
| Margins.ReferenceIsGeometricMean | backend/app/admission/statistics.py:73-84 | the baseline reference in log mode is the geometric mean |
| Margins.BoundaryHolds | backend/app/admission/statistics.py:87-101 | with a headroom fraction of at most one the allowance never crosses the hard boundary |
| Margins.AllowedIsTightest | backend/app/admission/statistics.py:87-101 | at or above the hard boundary nothing is allowed; below it no cap is an error, and otherwise the allowance is within the relative, absolute and headroom cap and equal to one of them |
| RequiredPairs.EstimateIsLeast | backend/app/admission/statistics.py:127-136 | above the numerical floor the estimate is the least n with (1.645·s)² ≤ n·(margin/2)² |
| RequiredPairs.EstimateExactly | backend/app/admission/statistics.py:127-136 | a margin within 10⁻¹² demands the maximum, fewer than two scores are an error, and otherwise the estimate is the least n with 1.645² times the variance at most n·(margin/2)² |
| RequiredPairs.VarianceIs | backend/app/admission/statistics.py:127-136 | the sample variance, by its sum of squared deviations and one degree of freedom less |
| RequiredPairs.PairIdsAre | benchmarks/r28_runner.py:107-112 | the runner takes 15 to 40 pairs and numbers them from 1 |
| RequiredPairs.CountIsLeast | backend/app/admission/statistics.py:223-232 | the gate's count is the least number that is at least 3, the profile's minimum and every requirement, and noise exactly above the profile's maximum |
| RequiredPairs.EstimateAntitone | backend/app/admission/statistics.py:127-136 | a wider margin never demands more pairs |
| RequiredPairs.GateIsWorstPlan | benchmarks/publication.py:115-147 | on shared calibration scores the two implementations agree for any set of protected metrics: the gate's verdict is that of the worst plan, invalid exactly when some plan is, otherwise with the largest planned count |
| RequiredPairs.GateDemandsAtLeast | backend/app/admission/statistics.py:227-236 | with more protected metrics the gate demands at least the planned count, so planned noise is noise at the gate |
| RequiredPairs.EnoughIffEveryPlanRuns | benchmarks/r28_runner.py:107-112 | in the publication range the gate has enough pairs exactly when the runner accepts the plan of every protected metric, and it then demands the longest of their pair lists |
| WorkloadDistance.DistanceZero | backend/app/monitoring/workload_shift.py:58-64 | the distance is never negative, and zero exactly when all shares agree with absent ones read as zero |
| WorkloadDistance.DistanceSymmetric | backend/app/monitoring/workload_shift.py:58-64 | the distance is symmetric |
| WorkloadDistance.DistanceTriangle | backend/app/monitoring/workload_shift.py:58-64 | the triangle inequality |
| WorkloadDistance.DistanceBounded | backend/app/monitoring/workload_shift.py:58-75 | validated distributions are at most 1 + 1e-9 apart |
| WorkloadDistance.DisjointDistance | backend/app/monitoring/workload_shift.py:58-64 | distributions without a common name are apart by half of all they hold |
| WorkloadDistance.Validate | backend/app/monitoring/workload_shift.py:67-75 | the loop accepts exactly uniquely named probability shares that are empty or sum to one within the tolerance |
| WorkloadDistance.ValidIff | backend/app/monitoring/workload_shift.py:67-75 | accepted lists written out: unique non-empty names, fractions between zero and one, empty or adding up to one within 10⁻⁹ |
| ShiftDetector.FiresIff | backend/app/monitoring/workload_shift.py:39-55 | a request is accepted exactly in the first window, from the third of its shifted run on, in which the scheduler takes it |
| ShiftDetector.FiresAtThird | backend/app/monitoring/workload_shift.py:39-55 | with an accepting scheduler a request fires exactly at the third window of each maximal shifted run |
| ShiftDetector.OncePerRun | backend/app/monitoring/workload_shift.py:44-54 | between two requests some window is not shifted |
| ShiftDetector.AtMostOneInFour | backend/app/monitoring/workload_shift.py:39-55 | at most ⌊(n+1)/4⌋ requests in n windows, and some windows reach that number |
| ShiftDetector.ShiftedIff | backend/app/monitoring/workload_shift.py:44 | a window is shifted from a distance of one fifth on, up to the slack of 10⁻¹² |
| ShiftDetector.WorkloadShiftDetector.Observe | backend/app/monitoring/workload_shift.py:39-55 | one window updates counter and episode flag as specified; malformed shares change nothing |
| IndexGeneration.GenerationIsCanonical | backend/app/candidates/index_generator.py:39-64 | reordering and repeating fields within a group does not change the candidate |
| IndexGeneration.KeyFields | backend/app/candidates/index_generator.py:41-52 | equality fields ascending, then the new sort fields ascending, then the new range fields ascending |
| IndexGeneration.KeyDirections | backend/app/candidates/index_generator.py:41-52 | a sort field that is not an equality field gets the least direction asked for, every other field is ascending |
| IndexGeneration.GeneratedIff | backend/app/candidates/index_generator.py:53-64 | every mentioned field once, and a candidate exactly for one to five distinct fields |
| IndexGeneration.Generate | backend/app/candidates/index_generator.py:39-64 | the loops compute the canonical candidate |
| CandidateDefinitions.OrderIsIrrelevant | backend/app/candidates/durable.py:148-168 | with distinct shape ids the definitions do not depend on row order |
| CandidateDefinitions.DefinitionsAre | backend/app/candidates/durable.py:148-168 | no fingerprint twice, and a candidate is defined exactly when some row proposes it and no index of its namespace has its keys |
| CandidateFields.ProposedKeys | backend/app/candidates/durable.py:171-197 | the proposed key fields are, from the stored conditions, the equality fields, then the other sort fields, then the other range fields, each group in name order; a field descends exactly if it sorts by -1 without an equality condition |
| CandidateFields.ProposesIff | backend/app/candidates/durable.py:148-160 | a row proposes an index exactly when its namespace has a dot and was inspected, its structure is a query document, and one to five fields are named |
| CandidateFields.WantedIff | backend/app/candidates/durable.py:161-163 | what a row proposes is kept exactly when no index of its namespace has these keys |
| CandidateFields.WrapperIsIrrelevant | backend/app/candidates/durable.py:171-178 | a query document stored alone or under query proposes the same |
| CandidateFields.DefinedByFirst | backend/app/candidates/durable.py:152-168 | a definition is that of the first row, by shape id, that wants its candidate, with that row's evidence in order |
| CandidateDefinitions.NothingExists | backend/app/candidates/durable.py:161-168 | every definition creates an index its collection does not have, with one to five keys |
| CandidateDefinitions.StoredOrderIsIrrelevant | backend/app/candidates/durable.py:171-197 | two stored shapes that differ only in the order of entries, at any level and with or without the query wrapper, propose the same candidate |
| CandidateDefinitions.BuildDefinitions | backend/app/candidates/durable.py:148-168 | the loop computes the definitions |
| IndexCleanup.CleanupKeepsCoverage | backend/app/recommendations/index_cleanup.py:51-61 | for every index flagged DUPLICATE or REDUNDANT_PREFIX another index flagged with neither has its keys as a prefix |
| CleanupAdvice.AdviceIs | backend/app/recommendations/index_cleanup.py:45-61 | the list gives an index UNUSED exactly without uses, STALE_OPTIMIZER_OWNED when it is moreover the optimizer's, DUPLICATE when an earlier name has its keys, REDUNDANT_PREFIX when longer keys begin with its own, and the primary index nothing |
| CleanupAdvice.AdviceShape | backend/app/recommendations/index_cleanup.py:63-67 | every recommendation has a reason and is one of an observed index, and the list is in name order |
| CleanupAdvice.RefusedIff | backend/app/recommendations/index_cleanup.py:77-80 | observations are refused exactly for an empty name or key list, a negative count or a repeated name |
| IndexCleanup.OrderIsIrrelevant | backend/app/recommendations/index_cleanup.py:40-67 | recommendations and the validation error do not depend on input order |
| IndexCleanup.Recommend | backend/app/recommendations/index_cleanup.py:40-74 | the loops over reason sets and duplicate groups compute the recommendations |
| IndexCleanup.InOrderIs | backend/app/recommendations/index_cleanup.py:63-67 | the reasons of a recommendation are those found, each once, in the order of their values |
| ApprovalFlow.StaleForever | backend/app/approvals/flow.py:82-99 | an approval that was APPROVED when its action was queried with other evidence is never returned again, by that query or after any further calls, even with its own evidence |
| ApprovalFlow.RequiredExactly | backend/app/approvals/flow.py:82-99 | a query returns an approval exactly when one matches action, target and evidence and is unexpired at the clock reading made for it, and then the first such one |
| ApprovalFlow.QueryExactly | backend/app/approvals/flow.py:82-99 | a query expires or stales each approved approval of its action at the clock reading made for it, and leaves every other alone |
| ApprovalFlow.ApproveExactly | backend/app/approvals/flow.py:65-80 | approving by identifier: unknown refused, over time EXPIRED, not pending left alone, otherwise APPROVED by this person at the second reading |
| ApprovalFlow.RequestExactly | backend/app/approvals/flow.py:50-63 | a request adds one pending approval bound to what it names, living the configured time from its reading |
| ApprovalFlow.RunContinues | backend/app/approvals/flow.py:50-99 | along every run an approval's bindings and lifetime never change, and a stale or expired one stays so |
| ApprovalFlow.Approvals.RequireCurrentApproval | backend/app/approvals/flow.py:82-99 | the two loops leave the specified approvals and return the first match |
| ApprovalFlow.Approvals.ApproveRequest | backend/app/approvals/flow.py:65-80 | only a pending, unexpired request is approved; an expired one is marked so |

## Left out

- DeployRefinement.CrashRefinement: the ledger after a crash need not be that of a run that never crashed; a death between an insert and its ledger append loses that row, so "exactly one" DEPLOYMENT_APPLIED row is not true and at most one is proved (`DeployTheorems.AtMostOnce`).
- DeployTheorems.AtMostOnce: assumes no outside writer to the target, as do ExactInverse and the two refinements; what holds with outside writers is MutationsAreGuarded, TerminalOutcomesStay and ReportsAreTrue.
- DeployTheorems.ExactInverse: says nothing about the before state in the DEPLOYMENT_APPLIED row, which a recovering worker reads again.
- ProductionLedger.TamperingDetected: a lost tail is not detected without the remembered head (`HashChain.PrefixVerifies`), and JSON canonicalisation is taken as faithful.
- ApprovalFlow.RequiredExactly: a returned approval may expire between its own clock reading and the return.
- ProductionGateTheorems.CreationIsAuthorized: is about the facts at the load that precedes a creation; they may drift, and an approval may expire, between load and creation.
- Deployment calls on a run that is not yet past approval: the orchestrator makes none (`backend/app/runs/orchestrator.py:187-190`), and in `GatedDeployment` they are not possible.
- The presence checks of the snapshot join in the load, and the action, target and evidence columns of an approval request that only `require_current` reads.
- The two observations of a collection by `list_namespaces` and `list_indexes` are one step, and adapter calls take effect before they return or not at all.
- The action, index and target identifiers of a deployment are fixed for the run; the index name's digest prefix is not computed, so its collisions are not considered.
- The asyncio interleaving of in-memory deployments on different target ids, and the approval flow inside them: what it answers is a field of the request.
- The query settings dictionary of the in-memory adapter and the in-memory query settings executor.
- Wall-clock windows: a window is the sequence of outcomes it met, and counters and throughput are not computed.
- Restoring an empty collection: generated data sets have none (`Dataset.GeneratedLayout`).
- The precedence of admission verdicts, the bootstrap generator and its seeds, and the per-metric pair check, which does not imply that an admitted candidate has the required pair count.
- Whether a generated index serves the query's sort: sort fields are put in alphabetical order.
- Sort directions stored as booleans or floats in a query shape, and the evidence a row collects from diagnosis findings.
- HTTP routes, authentication, front end, AI providers, diagnosis, ranking, monitoring, exports and migrations, apart from the uniqueness and immutability constraints the protocols rely on.
