# Verification model of deploy.local

This project models four parts of deploy.local and proves what they promise over every input and every run.

**Suitcase sync** (`SuitcaseEvents`, `SuitcaseInbox`, `SuitcaseReplay`, `SuitcaseTelemetry`, `SuitcaseMembership`,
`SuitcaseSync`, `SuitcaseRuns`). A disconnected site exchanges numbered, signed events with Home. `SuitcaseSync.Client`
is the membership object whose fields the operations change in place and save; each of its methods is proved equal to
a function of the old membership, and the other modules prove things about these functions. `SuitcaseRuns` is the state
machine of the file, the memory of a sync in progress and Home's log, with a step for every enqueue, request, lost
response, save, projection and crash. Home is the environment: it keeps a log without a gap for each site, checks
replays, and acknowledges no more than it has. A signature is a value that determines its key and its body.

**Graph executor** (`GraphModel`, `GraphGates`, `GraphRetirement`, `GraphRecovery`, `GraphSteps`, `GraphExecutor`,
`GraphWitnesses`, `ProfileVolumes`, `Jobs`, `AgentJobs`). `GraphExecutor.Executor` holds the store's tables, Docker's
containers and the lists that one convergence shares between its steps. Every call to Docker or to the store may fail;
the flag `reliable` says that for the time being none does, and is used only for quiescence. A container goes by the
id of its instance. Ghost fields record, in order, what Docker was asked for and what it has said: what inspections
found, and whether starts, health probes and provisioning commands succeeded. Others record which jobs succeeded, at
which instance the stopping of a run ended, how far the retirement has come, and how many patches the store has
refused. `GraphGates` says what it is for an instance to pass its health gate, `GraphRetirement` what the retirement
asks for and which containers are left. `GraphRecovery.Promised` says what a run promises for each way in which it can
end, and what follows is proved there; `GraphSteps` holds the steps of the proofs. `ProfileVolumes` follows the
binding and the volumes through restore, upgrade and rollback; the convergence in their middle is an input, shown to
range over exactly the outcomes and callbacks that the executor allows. `Jobs` is the coordinator's job planner and
job loop, `AgentJobs` the node's.

**Release slots** (`ReleaseImages`, `ReleaseSlots`, `ReleaseRuns`, `ReleaseManager`). Every operation is a script of
atomic file writes, decided by the files it starts from and by what Docker answers; a crash leaves some first part of
the script. `ReleaseManager.SuitcaseTargetManager` performs the scripts write by write, `ReleaseRuns` proves what holds
over every sequence of operations with a crash anywhere.

**Planner** (`StringOrder`, `Lists`, `JsonValues`, `Printing`, `Pointers`, `TreeDiff`, `Specs`, `ChangePlan`,
`ChangePlanProperties`, `Topology`, `Execution`). Canonical printing, JSON Pointer (RFC 6901, sections 3 and 4), the
tree difference, the search for fields that the planner does not know, the change plan, the layered topological order,
and the execution plan with the check that a node makes of it.

Where the code does not do what one would expect, the code is modelled and the exact condition is proved:

- The planner's canonical form loses a member named `__proto__` (`Printing.StableJsonDecides`, `StableJsonMissesProto`);
  the node's printer does not (`Printing.CanonicalJsonDecides`).
- Two actions of one component can list the same address when an unknown field's name starts with that of a known one
  (`ChangePlan.ComponentActions`, `UnknownFieldClash`); with known fields they cannot (`SupportedFieldsDoNotClash`), and
  so not in a plan that is not blocked (`ChangePlanProperties.UnblockedSplits`).
- A changed resource with an empty key counts as preserved (`ChangePlanProperties.ResourceSplit`). No compiled
  specification has such a key, because the compiler accepts names by a pattern (server/application-spec.ts:8).
- `pointer([])` and `pointer([''])` are the same text, and nothing else collides (`Pointers.PointerCollisions`).
- A telemetry retry equals a clean acceptance exactly when it reaches what was taken before the throw
  (`SuitcaseTelemetry.RetryReaches`, `RetryFallsShort`).
- A restore leaves a binding to a missing volume in exactly one case: the run failed after its commit, the store could
  not put the previous binding back, and Docker removed everything that mounted the new volume, and the volume
  (`ProfileVolumes.RestoreIsSafe`, `DanglingBinding`). The proof uses that a component has at least one instance, as the
  compiler checks (server/application-spec.ts:845 and 988).
- Two rollbacks restore the spec digests exactly when each is called on the active revision, which the code does not
  check (`ProfileVolumes.TwoRollbacks`, `RolledBackElsewhere`).
- The planner compares a count with its bounds only where there is an override (`Execution.UnblockedIsAccepted`).
- A node runs a job again after a crash between its success and the write of its key: over any runs each job succeeds
  once exactly when no run comes to such a crash (`AgentJobs.EachJobOnce`, `CrashRunsTwice`). Over the coordinator's
  rounds no job succeeds twice, also when its success was never entered (`Jobs.NoKeySucceedsTwice`); the price is that a
  job whose record was left running is never run again (`Jobs.RunningStays`).
- Of the instances that a run stops for an exclusive replacement all are recorded for a restart but the one whose stop
  or patch fails (`GraphModel.LeftUnrecorded`). When Docker has stopped it and only the store refuses, a complete
  compensation leaves it down, with its row unchanged: exactly this instance is not started again
  (`GraphRecovery.StoppedAreRestarted`), and `GraphWitnesses.WriterLeftDown` gives the run.
- A convergence that fails after it has published a service removes the instances it created, published or not. After a
  complete compensation an endpoint names a removed instance exactly when the run had published a service of the
  component of a created instance (`GraphRecovery.EndpointsOfRemoved`); `GraphWitnesses.RemovedYetServed`
  gives the run.
- A convergence that fails while it retires old instances removes the new ones as well. A slot is then left without any
  container exactly when its new instance is removed and its old ones have already been retired
  (`GraphRecovery.SlotsAfterRetirement`).

## Model

| member | source | states |
|---|---|---|
| Printing.StringifyInjective | server/application-plan.ts:736-738 | The printer of objects, arrays, numbers and escaped strings is unambiguous: equal texts come from equal values with the members in the same order. |
| Printing.StableJsonDecides | server/application-plan.ts:732-746 | Two values have the same stable text exactly when they are equal up to member order once members named `__proto__` are dropped. |
| Printing.StableJsonDecidesMeaning | server/application-plan.ts:732-746 | For values without such a member the stable text decides equality up to member order. |
| Printing.StableJsonMissesProto | server/application-plan.ts:740-746 | A concrete pair of different values that the planner takes for equal. |
| Printing.CanonicalJsonDecides | server/agent-graph-runtime.ts:960-970 | The node's text of two values is the same exactly when they are equal up to member order. |
| Pointers.DecodeEncode | server/application-plan.ts:659-664 | Decoding a pointer part undoes its encoding, for every string. |
| Pointers.PointerCollisions | server/application-plan.ts:727-730 | Two paths have the same pointer exactly when they are equal or are the empty path and the path of one empty part. |
| Pointers.PointerKeyRoundTrip | server/application-plan.ts:659-664 | `pointerKey` gives back the key of every address below a collection, whatever characters the key has. |
| TreeDiff.DiffAddresses | server/application-plan.ts:707-721 | The list is ascending and holds exactly the addresses of the listed paths. |
| TreeDiff.ListedNonempty | server/application-plan.ts:707-721 | Nothing is listed exactly when the trees are semantically equal. |
| TreeDiff.ListedDiffers | server/application-plan.ts:707-721 | The two trees differ at every listed path. |
| TreeDiff.ListedApart | server/application-plan.ts:707-721 | No listed path lies below another. |
| TreeDiff.PatchSuffices | server/application-plan.ts:707-746 | Overwriting or deleting in the current tree at exactly the listed paths gives a tree with the meaning of the desired one. |
| Specs.CollectUnsupportedShape | server/application-plan.ts:924-1008 | The nested loops find exactly the fields, at the addresses of their paths, that the shape of a specification does not have. |
| Specs.UnknownExactly | server/application-plan.ts:994-1008 | An address is found exactly when it is that of a path that leads, through fields that are looked into, to a field that is not known. |
| Specs.SupportedExactly | server/application-plan.ts:924-992 | Nothing is found exactly when every field at every depth is known. |
| ChangePlan.ComponentActions | server/application-plan.ts:226-297 | The kinds of action of a component in both revisions; their changed addresses cover the tree difference exactly, and overlap exactly when a changed passive and a changed executable field name clash. |
| ChangePlan.SupportedFieldsDoNotClash | server/application-plan.ts:244-281 | The field names that the planner knows never clash, so that for supported shapes the changed addresses are a partition. |
| ChangePlan.UnknownFieldClash | server/application-plan.ts:257-275 | A concrete component with an unknown field for which they overlap. |
| ChangePlan.PlanApplicationChange | server/application-plan.ts:130-420 | The plan has exactly the wanted actions of every section and one for every unknown field of either revision, which together list exactly the addresses that differ, or is the single no-op; its summaries are those of its actions. |
| ChangePlanProperties.PlanCoversEntry | server/application-plan.ts:176-411 | The actions for an entry of a section list an address exactly when the entry differs there. |
| ChangePlanProperties.NoOpExactly | server/application-plan.ts:401-411 | The plan is the single no-op exactly when the planner knows every field of both revisions, at every depth at which it looks, and they are semantically equal. |
| ChangePlanProperties.BlockedExactly | server/application-plan.ts:139-162 | A plan is blocked exactly when a revision has a field that the planner does not know, or the versions or kinds differ. |
| ChangePlanProperties.UnblockedSplits | server/application-plan.ts:244-281 | In a plan that is not blocked no component of both revisions has a clash of field names, so that its actions list no address twice. |
| ChangePlanProperties.PlanResourceKeys | server/application-plan.ts:647-657 | The resource keys read back from action addresses are those of the changed resources, but for the empty key. |
| ChangePlanProperties.ResourceSplit | server/application-plan.ts:494-507 | Every current resource is in exactly one of preserved, removed and recreated, the one its change calls for, exactly when its key is not empty or it is preserved anyway. |
| ChangePlanProperties.EmptyKeyCountsAsPreserved | server/application-plan.ts:647-657 | A changed resource with an empty key is reported as preserved. |
| ChangePlanProperties.DurableKept | server/application-plan.ts:342-399 | A plan that is not destructive keeps every durable declaration. |
| ChangePlanProperties.DurableDataGrows | server/api.ts:3438-3450 | Over any sequence of revisions accepted without destructive confirmation the map of durable declarations only grows. |
| Topology.BuildGraph | server/application-execution.ts:441-462 | The graph of known dependencies, and a report for every unknown one. |
| Topology.Layers | server/application-execution.ts:464-486 | The loop ends; its result is a permutation of the components; it reports a cycle exactly when the graph has one; and otherwise the order is by longest dependency chain, then name. |
| Topology.TopologicalOrder | server/application-execution.ts:441-487 | The same of the whole function, with the unknown dependencies. |
| Topology.StuckCycle | server/application-execution.ts:469-478 | Where every leftover component waits for a leftover component there is a dependency cycle. |
| Topology.OrderUnique | server/application-execution.ts:464-486 | The order is determined by the graph, not by the order in which the map lists the components. |
| Topology.DependenciesFirst | server/application-execution.ts:464-486 | In the order every component comes after what it depends on. |
| Execution.PlanApplicationExecution | server/application-execution.ts:114-330 | The plan has the findings of every check, the desired counts, the inferred dependencies and the order; it is blocked exactly when a finding is an error. |
| Execution.BlockedComponentBlocks | server/application-execution.ts:202-292 | A blocked component blocks the plan. |
| Execution.DependenciesComeFirst | server/application-execution.ts:413-487 | In a plan that is not blocked every inferred dependency precedes what depends on it. |
| Execution.OrderIsComplete | server/application-execution.ts:441-487 | The order of any plan lists every component exactly once. |
| Execution.ValidateAgentGraphPayload | server/agent-graph-runtime.ts:244-286 | A node accepts exactly the payloads with a genuine envelope, a complete order, and components that are admitted, within their bounds and after their dependencies. |
| Execution.UnblockedIsAccepted | server/agent-graph-runtime.ts:262-285 | A plan that is not blocked passes the node's completeness, admission and order checks, and the bounds check exactly for components with an override or a count within bounds. |
| Execution.AcceptedSpecification | server/agent-graph-runtime.ts:256-258 | What a node accepts means the same as the specification that it has downloaded. |
| Jobs.PlanApplicationJobs | server/application-jobs.ts:45-104 | The executions planned in order, the traffic gates, and blocked exactly when a writer-site job has no known writer. |
| Jobs.PlanMembers | server/application-jobs.ts:66-95 | A key is planned exactly when a job wants it and its record does not forbid it. |
| Jobs.GateShut | server/application-jobs.ts:60-96 | A gate is shut exactly when a job that comes before the component's traffic is not complete. |
| Jobs.PlanKeysDistinct | server/application-jobs.ts:106-123 | The keys of a plan are pairwise distinct. |
| Jobs.PlanThenNothing | server/application-jobs.ts:45-104 | With the writer known, nothing running and failures retried, recording the planned jobs as succeeded leaves an empty plan that is not blocked and all gates open. |
| Jobs.RoundThenNothing | server/application-graph-executor.ts:1712-1812 | After a round in which every planned job has succeeded the same round plans nothing, also with records left running. |
| Jobs.NoKeySucceedsTwice | server/application-graph-executor.ts:1749-1811 | Over any sequence of rounds, with failures and crashes anywhere, no job succeeds twice under one key, counting successes that were never entered; what the table has as succeeded has. |
| Jobs.RunningStays | server/application-graph-executor.ts:1749-1811 | A job whose record was left running is run in no later round, and its record stays. |
| AgentJobs.Node.RunGraphJobs | server/agent-graph-runtime.ts:438-534 | The node's loop over the keys, with the state file rewritten after each success; of the keys that it comes to exactly those are run that neither the file has nor came before. |
| AgentJobs.SameKeys | server/agent-graph-runtime.ts:449-471 | The node runs jobs under exactly the keys under which the coordinator plans them. |
| AgentJobs.RunAgain | server/agent-graph-runtime.ts:472-481 | After a run that returned, the same run runs nothing. |
| AgentJobs.EachJobOnce | server/agent-graph-runtime.ts:519-530 | Over any runs every job succeeds at most once and the file holds exactly the succeeded keys, exactly when no run crashes between a success and its write. |
| AgentJobs.CrashRunsTwice | server/agent-graph-runtime.ts:519-530 | With such a crash a job succeeds twice. |
| SuitcaseEvents.Sorts | lib/suitcase-sync-client.ts:781-792 | The sort orders the records by number and keeps which of several with one number comes last. |
| SuitcaseEvents.SortIsStable | lib/suitcase-sync-client.ts:781-792 | The sort keeps every record as often as it occurs, and those with one number in their order. |
| SuitcaseSync.Client.QueueSuitcaseCommandCandidate | lib/suitcase-sync-client.ts:659-698 | The new event has the next number, goes to the end of the outbox and is saved. |
| SuitcaseSync.Client.EnqueueSuitcaseDatabaseEvent | lib/suitcase-sync-client.ts:700-731 | What is reported and what the saved membership is then, for every event: refused, known, in conflict or new. |
| SuitcaseSync.Client.AcceptIncomingEvents | lib/suitcase-sync-client.ts:771-808 | Cursors and inbox after the loops, also when they throw part way. |
| SuitcaseSync.Client.AcceptAdministrativeControlEvents | lib/suitcase-sync-client.ts:810-846 | The inbox after the loop, also when it throws, and the number of new requests. |
| SuitcaseSync.Client.AcceptIncomingTelemetry | lib/suitcase-sync-client.ts:848-881 | Telemetry cursors and inbox, also when the loops throw part way. |
| SuitcaseSync.Client.ProcessResponse | lib/suitcase-sync-client.ts:1043-1078 | The membership after a response: identity check, keys, outbox, acknowledgements, contents, in this order and as far as nothing throws. |
| SuitcaseSync.Client.ExchangeRound | lib/suitcase-sync-client.ts:1009-1082 | After a round, whether it succeeds, throws or gets no response, the file holds what is in memory. |
| SuitcaseSync.Client.ProjectEvents | lib/suitcase-sync-client.ts:1126-1133 | The projected ids, saved one by one, up to the first projection that throws. |
| SuitcaseReplay.AcceptExactly | lib/suitcase-sync-client.ts:771-808 | A response is accepted exactly when for every origin each number above the cursor is there and properly signed or was announced as skipped, and no two events conflict; the inbox then holds these events in addition and the cursors stand at the last numbers. |
| SuitcaseReplay.AcceptGains | lib/suitcase-sync-client.ts:787-806 | What an accepted response adds to each origin's part of the inbox, in order. |
| SuitcaseReplay.AcceptAgain | lib/suitcase-sync-client.ts:771-808 | Accepting the same response again changes nothing and ends the same way, also after a throw. |
| SuitcaseReplay.SplitAccept | lib/suitcase-sync-client.ts:771-808 | However a response is cut, at any number per origin, its parts are accepted in turn exactly when the whole is, with the same cursors and the same events of each origin in the same order. |
| SuitcaseTelemetry.TelemetryExactly | lib/suitcase-sync-client.ts:848-881 | Telemetry is accepted exactly when all records are valid and no origin's have a gap; how far each origin then is, and how far it may be after a throw. |
| SuitcaseTelemetry.RetryTelemetry | lib/suitcase-sync-client.ts:866-880 | Telemetry that threw part way and is retried with at least the same records ends as if accepted cleanly. |
| SuitcaseTelemetry.RetryReaches | lib/suitcase-sync-client.ts:866-880 | Any retry ends like a clean acceptance exactly when it reaches what was taken before the throw. |
| SuitcaseTelemetry.RetryFallsShort | lib/suitcase-sync-client.ts:866-880 | A retry that does not, and ends differently. |
| SuitcaseRuns.StepKeeps | lib/suitcase-sync-client.ts:1055-1081 | Every step of the system keeps the invariant: the outbox strictly increasing, above what is acknowledged and below the next number, the inbox covered, the projections prefixes. |
| SuitcaseRuns.ExactlyOnce | lib/suitcase-sync-client.ts:659-731 | Over every run Home's log is gap-free and free of duplicates, is what was issued under the numbers 1, 2, 3 and so on, and together with the saved outbox covers every issued event. |
| SuitcaseRuns.AddedExactlyOnce | lib/suitcase-sync-client.ts:709-729 | A local event is added to the outbox exactly when its number has not been issued. |
| SuitcaseRuns.RefusedOnlyForGap | server/suitcase-transport.ts:776-809 | What the site sends never conflicts with Home's log; if Home refuses it for its numbers, a number below one that was sent has not been issued. |
| SuitcaseRuns.Drains | lib/suitcase-sync-client.ts:1057-1063 | A batch that is acknowledged to its end leaves the outbox. |
| SuitcaseRuns.InboundCoverage | lib/suitcase-sync-client.ts:771-846 | In every reachable state each number up to a cursor is in the inbox or was announced as skipped, inbox ids are unique, and only control requests lie above a cursor. |
| SuitcaseRuns.MemoryAdvances | lib/suitcase-sync-client.ts:796-806 | No step of a sync moves a remembered cursor, of events or of telemetry, or an acknowledgement back, or takes anything out of the inboxes. |
| SuitcaseRuns.CursorsAdvance | lib/suitcase-sync-client.ts:1055-1133 | Over any run, with lost responses and crashes anywhere, between any two of its points no saved cursor, of events or of telemetry, no acknowledgement of either and no next number decreases, and the saved inboxes and projected ids are only appended to. |
| SuitcaseRuns.ProjectionIsPrefix | lib/suitcase-sync-client.ts:389-391 | The projected ids are those of a beginning of the inbox, whatever projections fail, so that the pending counters are never negative and count exactly the unprojected records. |
| ReleaseImages.ResolveImagePins | lib/suitcase-target.ts:724-755 | A resolved image is of the repository asked for, and is pinned by a digest exactly when the development override was not needed. |
| ReleaseImages.PreparedIsAccepted | lib/suitcase-target.ts:759-833 | A prepared release is accepted when read back, is under the development override exactly when one of its images is mutable, and what is called verified was signed. |
| ReleaseManager.SuitcaseTargetManager.EnsureArtifacts | lib/suitcase-target.ts:648-687 | The target it writes, or that it throws before any write, and the files after a crash at any write. |
| ReleaseManager.SuitcaseTargetManager.RestoreActiveRelease | lib/suitcase-target.ts:869-908 | The files and the outcome of the restoration, with a crash at any write. |
| ReleaseManager.SuitcaseTargetManager.ActivateRelease | lib/suitcase-target.ts:910-961 | The same of an activation, with the restoration when the candidate fails its gate. |
| ReleaseManager.SuitcaseTargetManager.Start | lib/suitcase-target.ts:1025-1066 | The same of `start`. |
| ReleaseManager.SuitcaseTargetManager.Upgrade | lib/suitcase-target.ts:1130-1161 | The same of `upgrade`, into the slot that is not active. |
| ReleaseManager.SuitcaseTargetManager.Rollback | lib/suitcase-target.ts:1163-1199 | The same of `rollback`, to the previous slot. |
| ReleaseRuns.CallKeeps | lib/suitcase-target.ts:842-961 | Every call, whatever Docker answers and wherever it crashes, keeps the invariant of the files. |
| ReleaseRuns.ReleasesAreHealthy | lib/suitcase-target.ts:401-448 | Over every run `releases.json`, once written, is accepted by its parser and names an active release, and all its releases have passed the health gate. |
| ReleaseRuns.SelfHealing | lib/suitcase-target.ts:648-687 | After any run with crashes the next `ensureArtifacts` throws only for its own settings, and makes the identity, environment and compose files the rendering of one target; with an active release also its slot file, with that release's images. |
| ReleaseRuns.IdentityIsStable | lib/suitcase-target.ts:648-657 | The target keeps its first id, name and date for ever. |
| ReleaseRuns.ActiveSlotIsKept | lib/suitcase-target.ts:936-953 | No call overwrites the slot that is active when it begins. |
| ReleaseRuns.RestoredChangesOnlyLastAttempt | lib/suitcase-target.ts:869-908 | A failed candidate that is restored changes only the last attempt, and the files are again those of the active release. |
| ReleaseRuns.OnlyTheGateSwitches | lib/suitcase-target.ts:910-961 | Only a candidate that passed the health gate becomes active, and the active slot becomes the previous one; every other call leaves active, previous and slots alone. |
| ReleaseRuns.TwoRollbacks | lib/suitcase-target.ts:1163-1199 | Two successful rollbacks restore active, previous and slots. |
| GraphExecutor.Executor.ConvergeSlot | server/application-graph-executor.ts:1502-1549 | The instance for a slot is ready, current and in the store, and has passed its health gate; a container is created only when every candidate's container was found gone or its probe failed, and what is new is counted as created; only rows of this component and slot change, and a healthy ready candidate is kept without any other call than its checks. |
| GraphExecutor.Executor.CreateInstance | server/application-graph-executor.ts:1552-1681 | A new instance is ready with its container, Docker having started it, found it healthy and run the commands of its profile, in this order; or it has left at most its own row and its own container behind. |
| GraphExecutor.Executor.TryCandidate | server/application-graph-executor.ts:1513-1543 | A candidate is selected only after Docker found its container, started it when it was not running, found it healthy and ran the commands of its profile; it is passed over only when its container is gone or its probe failed. |
| GraphExecutor.Executor.StopStale | server/application-graph-executor.ts:1489-1500 | The first instances are stopped, patched and recorded, in order; only the next one was asked to stop without being recorded, because its stop or its patch failed. |
| GraphExecutor.Executor.ConvergeComponent | server/application-graph-executor.ts:1459-1550 | One ready instance with the current digests for every slot, each of which has passed its gate; only outdated or forced instances of a component that is replaced exclusively are asked to stop; then nothing is created before every one of them has been stopped and recorded for a restart; every new row is the replacement of the first outdated instance, if there is one; other components are untouched. |
| GraphExecutor.Executor.RunPendingJobs | server/application-graph-executor.ts:1712-1812 | Docker is asked to run exactly the planned jobs that were begun, in order and each once; the job table and the jobs that have succeeded are those of the planned round for some endings, also when a run or a last entry throws; it succeeds only when all planned jobs have. |
| GraphExecutor.Executor.PublishEndpoints | server/application-graph-executor.ts:1814-1851 | The endpoints of the first services are exactly their components' instances, and a published service comes among them only when its port was found for every instance that does not use the host's network; on failure the others are untouched. |
| GraphExecutor.Executor.RetireStaleInstances | server/application-graph-executor.ts:1853-1882 | Exactly the instances that are neither removed nor selected are retired: all are draining before Docker is asked to stop and to remove the first of them, in order, and nothing else is asked for; the containers that it removed are gone and no others; the rows are those of before with exactly the first marked as removed; on success all are. |
| GraphExecutor.Executor.Compensate | server/application-graph-executor.ts:439-486 | The removals and then the starts that are asked for, in order, up to the first patch that the store refuses; each start is followed by one probe of the same container and nothing else is heard; what has been dealt with is failed, or ready exactly when Docker's answer to its own probe was that it is healthy; complete exactly when no patch is refused; the admission is rolled back exactly when it was committed and can be. |
| GraphExecutor.Executor.Converge | server/application-graph-executor.ts:285-515 | What holds when it returns, when it fails before, during and after publication, and when there was nothing to do: rows, containers, endpoints, compensation, every stop and removal that was asked for, admission; whatever was created or selected has passed its gate and nothing about it has failed since the run began; no job succeeds twice. |
| GraphExecutor.Executor.ConvergeTwice | server/application-graph-executor.ts:1473-1549 | After a success, converging again without force selects the same instances, changes no table, and makes no call that creates, starts, stops, removes or runs anything. |
| GraphModel.LeftUnrecorded | server/application-graph-executor.ts:1491-1499 | Of the instances asked to stop exactly the one at which the stopping ended is not recorded, and its row is as before. |
| GraphRecovery.StoppedAreRestarted | server/application-graph-executor.ts:439-478 | Until the retirement, a complete compensation starts and probes every instance that the run had asked to stop, but for exactly the one at which the stopping ended, and its row follows Docker's answer to that probe. |
| GraphRecovery.HealthyPoolPreserved | server/application-graph-executor.ts:439-457 | A run that fails before it retires instances, whether or not its compensation is complete, leaves every instance that was ready and has its container exactly as it was, unless it is outdated or forced and its component is replaced exclusively. |
| GraphRecovery.FailingIsNotSelected | server/application-graph-executor.ts:1515-1547 | An instance whose start, probe or profile command has failed in a run is neither counted as created by it nor among the instances that it publishes. |
| GraphRecovery.SelectedNeverStopped | server/application-graph-executor.ts:1473-1500 | A run that comes to its publication asks Docker to stop no instance that it has selected, neither for a replacement nor for retirement. |
| GraphRecovery.OnlySelectedHaveContainers | server/application-graph-executor.ts:1853-1882 | After a run that comes to its end exactly the selected instances have containers. |
| GraphRecovery.SlotsAfterRetirement | server/application-graph-executor.ts:448-457 | When a run fails while it retires instances, a slot still has a container exactly when its selected instance was there before or Docker refused to remove it, or when an old instance of it has not been retired yet. |
| GraphWitnesses.WriterLeftDown | server/application-graph-executor.ts:1491-1499 | For one ready, outdated writer: it is all that the run finds to stop; Docker stops it, the store refuses the patch, and the run, completely compensated, leaves it down with its row unchanged. |
| GraphRecovery.EndpointsOfRemoved | server/application-graph-executor.ts:414-457 | After a complete compensation an endpoint names a removed instance exactly when a service of the component of a created instance had been published. |
| GraphWitnesses.RemovedYetServed | server/application-graph-executor.ts:414-457 | For an empty store and two services, of which the second has no port: the instance that is created for the slot passes its gate, is published for the first service, is removed by the compensation, and stays its endpoint. |
| GraphRecovery.EndpointsStayKnown | server/application-graph-executor.ts:1814-1851 | However a run ends, no endpoint names an instance without a row. |
| GraphModel.ConvergedMeans | server/application-graph-executor.ts:383-438 | Ready instances are in bijection with the slots of all components, with current digests; all other rows are removed; every service has exactly its component's instances. |
| GraphModel.SameSelection | server/application-graph-executor.ts:1502-1549 | With one live row for each slot there is only one way to select. |
| GraphModel.PublishedIs | server/application-graph-executor.ts:1820-1850 | Publishing some services serves each of them from its component's instances and leaves the others as they were. |
| ProfileVolumes.Provider.RestoreLogicalArchive | server/application-graph-executor.ts:994-1215 | Binding, volumes and mounts after a restore, for every failure. |
| ProfileVolumes.Provider.ExecuteLogicalRollback | server/application-graph-executor.ts:793-864 | The same of a rollback. |
| ProfileVolumes.Provider.ConvergeProfileTransition | server/application-graph-executor.ts:1217-1276 | The same of the convergence with its commit and rollback of the binding. |
| ProfileVolumes.RestoreIsSafe | server/application-graph-executor.ts:994-1215 | A restore or upgrade keeps every volume that the binding names, except exactly when it fails after the commit, the store cannot put the previous binding back, and Docker removes everything that mounts the new volume, and the volume. |
| ProfileVolumes.DanglingBinding | server/application-graph-executor.ts:1163-1177 | The exception happens. |
| ProfileVolumes.RollbackIsSafe | server/application-graph-executor.ts:793-864 | A rollback never leaves a binding whose volumes are gone. |
| ProfileVolumes.VolumesAlwaysExist | server/application-graph-executor.ts:793-1276 | Over any run of restores, upgrades and rollbacks with arbitrary failures the volumes that the binding names exist all the time exactly when no restore comes to that exception. |
| ProfileVolumes.BindingAfter | server/application-graph-executor.ts:1233-1275 | A failure inside the guarded part leaves the previous binding in force unless the store cannot put it back, and a return puts the new one in force. |
| ProfileVolumes.OutcomesAreWorlds | server/application-graph-executor.ts:1233-1275 | The outcomes and callbacks that the executor allows are exactly those for which the convergence of the model has an input. |
| ProfileVolumes.WorldsAreOutcomes | server/application-graph-executor.ts:1233-1275 | Every such input has an outcome and callbacks that the executor allows. |
| ProfileVolumes.BindingByOutcome | server/application-graph-executor.ts:439-447 | With a store that can put a binding back, the new binding is in force exactly when the executor's run came to its end, and otherwise the previous one. |
| ProfileVolumes.TwoRollbacks | server/application-graph-executor.ts:817-827 | Two successful rollbacks restore the volumes, and the spec digests exactly when each was called on the active revision. |
| ProfileVolumes.RolledBackElsewhere | server/application-graph-executor.ts:817-827 | Called on another revision they leave another digest. |

## Left out

- Printing.StableJsonDecides: numbers are integers, values have no `undefined`, and object members keep the order in
  which they are written; JavaScript's listing of integer-like keys before the others does not affect equality.
- ChangePlan.PlanApplicationChange: does not model the order and the removal of duplicates of the actions, their effect
  and reason, or the impacts other than resources. A required inner object that is missing is passed over, where the
  code relies on its type.
- Execution.PlanApplicationExecution: findings are a set; placement, volume and profile planners are inputs; services,
  routes and display fields of the plan are not modelled. Component names contain no slash.
- Jobs.PlanApplicationJobs: command, environment and scope of an execution are carried along by the code and left out.
- SuitcaseRuns.ExactlyOnce: every operation holds the membership lock, and a save is one step. Credential transitions,
  pairing, modes and artifacts are left out.
- SuitcaseSync.Client.EnqueueSuitcaseDatabaseEvent: does not model the queue of artifacts to be uploaded.
- SuitcaseSync.Client.ExchangeRound: does not model artifact uploads and the transition of credentials inside a round.
- SuitcaseTelemetry.RetryTelemetry: each site issues one record under a number and an id, because the client does not
  compare records by content.
- GraphExecutor.Executor.Converge: what a probe asks, drain deadlines, container arguments, images, networks, services
  and placements are left out, as is the inspection that picks the primary port. Docker's containers change only
  through the executor.
- GraphExecutor.Executor.PublishEndpoints: does not model the host and the port that an endpoint names.
- GraphExecutor.Executor.CreateInstance: a new id is any id that is not in use.
- ProfileVolumes.Provider.RestoreLogicalArchive: archives, verification and operation rows are left out; the convergence
  is an input, related to the executor by `ProfileVolumes.OutcomesAreWorlds`, and which containers it makes is not taken
  from the executor.
- ProfileVolumes.Provider.ExecuteLogicalRollback: the convergence is an input in the same way.
- ProfileVolumes.Provider.ConvergeProfileTransition: the convergence between commit and rollback is an input in the same
  way.
- ReleaseManager.SuitcaseTargetManager.EnsureArtifacts: the text of the files is that of the fields they show; file
  modes, the directory and the risk prompt are left out. An unreadable file that someone else wrote is not modelled.
- Recovery points: they archive the default volume name while a binding may name another, so that the round trip does
  not hold.
- Strings are compared in one total order, in place of both the default order and `localeCompare`.
- HTTP, TLS, hashing, signing and encryption are injective functions or trusted predicates.
- User interface, routing, build setup, placement labels, access advice and other single-branch members.
