# Queue scheduler of the Nephele job manager

This project models the queue-based job scheduler of Nephele, the execution engine. The scheduler keeps a queue of submitted jobs (execution graphs). Each job's tasks (execution vertices) move through the lifecycle CREATED, SCHEDULED, ASSIGNING, ASSIGNED, READY; CANCELLED is set from outside.

The model covers three operations, and the unit test `QueueSchedulerTest` pins down how each behaves:

- `schedulJob`: a full-graph walk writes SCHEDULED to every vertex. It logs an error for each vertex that was not CREATED, and it appends the job to `jobQueue`.
- `getVerticesReadyToBeExecuted`: the readiness scan goes over the queue in order.
  - A job naming no required instances for its current stage gets an error logged.
  - For every other job, the current-stage walk moves each ASSIGNED vertex to READY and adds it to the result.
- `resourceAllocated`: the callback of the instance manager when it grants a resource.
  - A null job id or resource is an error.
  - A job the lookup does not find has the resource released.
  - For a queued job, the scheduler searches the current stage for a vertex waiting on the granted instance.
  - If no vertex is waiting, it logs a warning.
  - Otherwise it binds the grant and moves the waiting vertices to ASSIGNED.

QueueScheduler.java is not part of this model. Only the test is: its stubs say what the scheduler reads, and its `verify` calls say what the scheduler writes. The model is derived from those. Where they do not decide, the model makes the choices listed further down.

Layout:

- `execution.dfy` (module `Execution`): states, vertices, resources, diagnostics, and execution graphs as values. The forward order of states is `Advances`.
- `transitions.dfy` (module `Transitions`): what each walk does to one job's vertex sequence, as specification functions, and the lemmas about them.
- `scheduler.dfy` (module `Scheduler`): the queue-level specification functions. `Scheduler.QueueScheduler` is a class with the fields `jobQueue`, `log` (the logger) and `released` (the calls of `releaseAllocatedResource`). Each walk is a loop method, proved equal to its specification function.
- `scenarios.dfy` (module `Scenarios`): the phases of the three tests. `SchedulJobScenario` runs both phases of the schedulJob test on one scheduler, as the test does. The readiness test and the allocation test share one scheduler across their phases, while the model runs each of their phases on a fresh scheduler with the state that phase needs. The queue is set directly, as the test does by reflection. The outcome the test checks is proved as a postcondition.

Where the test leaves the scheduler's intended behaviour open, or seems to go against it, the model makes these choices:

- **A non-CREATED vertex is still written SCHEDULED.** The intended behaviour would leave such a vertex unchanged and only report it. The test's second walk finds one vertex CANCELLED and still counts four SCHEDULED writes, so the model writes to it.
- **Every holder of the placeholder is bound.** One grant is meant to bind one task. The test counts four ASSIGNED writes for one grant, so every ASSIGNING vertex holding the resource found by the search is bound to the grant.
- **Search over the current stage, bind over the full graph.** The test does not decide which walk each step uses: it stubs both iterators alike (lines 230-237 and 252-253). The model searches the current stage for the resource to replace and binds over the whole graph. Searching the whole graph as well would be an equally valid reading.
- **Nothing is released when no vertex waits.** The callback only logs the warning. A grant that no task is waiting for is left to the instance manager to reconcile, neither bound nor released.
- **A missing requirement is a null map or an empty one.** The model treats both as "no required instances". In the readiness test, the second scan runs with the requirement unset (the stub at line 180 would return null), and the third scan runs with the stub at line 188 in force. That stub applies to the one graph queued twice (lines 179 and 189), so in the third scan both entries name the requirement and nothing is logged.
- **A waiting vertex matches the grant by instance, not by instance type.** In the allocation test the granted resource and the vertex's resource are the same mock with the same instance (lines 218, 246 and 254), and that instance is built from one `InstanceType` (lines 206-209). So the test cannot tell the two readings apart. The model compares the instance identifiers (`Transitions.Replaceable`), and its resources carry no instance type.
- **Either argument null is an error.** The test passes both arguments null at once (line 212). The model logs the error when the job id is null, the resource is null, or both, and then does nothing else.
- **A job without a requirement is skipped.** Read literally, lines 172-192 hold only if the scan still walks the current stage after logging the missing requirement: the shared stubbed iterator would make its four adds in the second scan and then be exhausted. The model follows the comments at lines 178 and 184 instead: the scan reports the error and skips the job.

## Model

| member | source | states |
|---|---|---|
| Transitions.SchedulingErrorsSound | nephele/nephele-queuescheduler/src/test/java/eu/stratosphere/nephele/jobmanager/scheduler/queue/QueueSchedulerTest.java:137-143 | every error the schedulJob walk logs names a visited vertex of that job, which was not CREATED, together with the state it was found in |
| Transitions.SchedulingErrorsComplete | nephele/nephele-queuescheduler/src/test/java/eu/stratosphere/nephele/jobmanager/scheduler/queue/QueueSchedulerTest.java:137-143 | a vertex's error is in the log if and only if the vertex was not CREATED |
| Transitions.NoSchedulingErrorsIff | nephele/nephele-queuescheduler/src/test/java/eu/stratosphere/nephele/jobmanager/scheduler/queue/QueueSchedulerTest.java:114-126 | the walk logs nothing if and only if every visited vertex was CREATED |
| Transitions.OneAnomalyOneError | nephele/nephele-queuescheduler/src/test/java/eu/stratosphere/nephele/jobmanager/scheduler/queue/QueueSchedulerTest.java:134-146 | one non-CREATED vertex among CREATED ones gives exactly one error, naming it; the walk is not aborted |
| Transitions.ScheduleAdvancesOrReports | nephele/nephele-queuescheduler/src/test/java/eu/stratosphere/nephele/jobmanager/scheduler/queue/QueueSchedulerTest.java:137-146 | every vertex ends SCHEDULED with its resource kept, and either that is a forward step or its error is logged |
| Transitions.PromoteStageAt | nephele/nephele-queuescheduler/src/test/java/eu/stratosphere/nephele/jobmanager/scheduler/queue/QueueSchedulerTest.java:168-170 | the current-stage walk turns exactly the ASSIGNED stage vertices READY and leaves every other vertex as it was |
| Transitions.PromoteStageReportsExactly | nephele/nephele-queuescheduler/src/test/java/eu/stratosphere/nephele/jobmanager/scheduler/queue/QueueSchedulerTest.java:189-192 | a vertex is reported ready if and only if it was ASSIGNED and is now READY; its resource is kept and the step is forward |
| Transitions.PromoteStageIdempotent | nephele/nephele-queuescheduler/src/test/java/eu/stratosphere/nephele/jobmanager/scheduler/queue/QueueSchedulerTest.java:184-192 | a second walk right after the first finds nothing ASSIGNED and changes nothing |
| Transitions.FirstReplaceable | nephele/nephele-queuescheduler/src/test/java/eu/stratosphere/nephele/jobmanager/scheduler/queue/QueueSchedulerTest.java:230-249 | the search yields None if and only if no current-stage vertex is ASSIGNING with a resource on the granted instance; otherwise it yields the resource of the first such vertex in walk order |
| Transitions.BindGrantedExactly | nephele/nephele-queuescheduler/src/test/java/eu/stratosphere/nephele/jobmanager/scheduler/queue/QueueSchedulerTest.java:251-258 | binding makes a vertex newly ASSIGNED if and only if it was ASSIGNING with the placeholder; such a vertex ends ASSIGNED holding the grant, every other vertex is unchanged, and every vertex moves only forward |
| Transitions.BindGrantedIdempotent | nephele/nephele-queuescheduler/src/test/java/eu/stratosphere/nephele/jobmanager/scheduler/queue/QueueSchedulerTest.java:251-258 | a repeated binding of the same grant changes nothing |
| Transitions.GrantThenScan | nephele/nephele-queuescheduler/src/test/java/eu/stratosphere/nephele/jobmanager/scheduler/queue/QueueSchedulerTest.java:251-258 | a stage vertex bound by a grant is found ASSIGNED by the next current-stage walk and ends READY, holding the grant |
| Scheduler.ScheduleVertices | nephele/nephele-queuescheduler/src/test/java/eu/stratosphere/nephele/jobmanager/scheduler/queue/QueueSchedulerTest.java:114-146 | the full-graph loop writes SCHEDULED to every vertex and collects exactly the scheduling errors |
| Scheduler.RemoveFirst | nephele/nephele-queuescheduler/src/test/java/eu/stratosphere/nephele/jobmanager/scheduler/queue/QueueSchedulerTest.java:127 | removing a queued job takes out one occurrence and keeps the rest as a multiset; removing an absent one changes nothing |
| Scheduler.FirstIndex | nephele/nephele-queuescheduler/src/test/java/eu/stratosphere/nephele/jobmanager/scheduler/queue/QueueSchedulerTest.java:127 | the position found holds the job, and no earlier position does |
| Scheduler.RemoveFirstKeepsOrder | nephele/nephele-queuescheduler/src/test/java/eu/stratosphere/nephele/jobmanager/scheduler/queue/QueueSchedulerTest.java:127 | removal takes out exactly the first occurrence and keeps the order of the queue before and after it |
| Scheduler.ScanErrorsExactly | nephele/nephele-queuescheduler/src/test/java/eu/stratosphere/nephele/jobmanager/scheduler/queue/QueueSchedulerTest.java:178-182 | the scan logs exactly one error per queued job naming no required instances: as many errors as such jobs, each one naming such a job, and every such job named |
| Scheduler.ReadyVerticesExactly | nephele/nephele-queuescheduler/src/test/java/eu/stratosphere/nephele/jobmanager/scheduler/queue/QueueSchedulerTest.java:184-192 | a vertex is in the scan's result if and only if some queued job of it names required instances and has it ASSIGNED in its current stage |
| Scheduler.EmptyScan | nephele/nephele-queuescheduler/src/test/java/eu/stratosphere/nephele/jobmanager/scheduler/queue/QueueSchedulerTest.java:172-175 | a scan of an empty queue reports nothing, logs nothing and changes nothing |
| Scheduler.ScanAdvances | nephele/nephele-queuescheduler/src/test/java/eu/stratosphere/nephele/jobmanager/scheduler/queue/QueueSchedulerTest.java:190-192 | the scan keeps the graphs well formed; the only change it makes to any vertex is ASSIGNED to READY, a forward step |
| Scheduler.GrantThenReadinessScan | nephele/nephele-queuescheduler/src/test/java/eu/stratosphere/nephele/jobmanager/scheduler/queue/QueueSchedulerTest.java:251-258 | in a job that names required instances, a current-stage vertex bound by a grant is reported by the next readiness scan and left READY holding the grant |
| Scheduler.ScanIdempotent | nephele/nephele-queuescheduler/src/test/java/eu/stratosphere/nephele/jobmanager/scheduler/queue/QueueSchedulerTest.java:184-192 | a second scan right after the first reports nothing, changes nothing and logs the same errors |
| Scheduler.PromoteCurrentStage | nephele/nephele-queuescheduler/src/test/java/eu/stratosphere/nephele/jobmanager/scheduler/queue/QueueSchedulerTest.java:168-192 | the current-stage loop over one job gives the promoted vertices and the set of vertices it found ASSIGNED |
| Scheduler.ScanEntry | nephele/nephele-queuescheduler/src/test/java/eu/stratosphere/nephele/jobmanager/scheduler/queue/QueueSchedulerTest.java:178-192 | one queued job either logs the missing requirement, or is walked with its ready vertices reported; it stays well formed |
| Scheduler.FindJob | nephele/nephele-queuescheduler/src/test/java/eu/stratosphere/nephele/jobmanager/scheduler/queue/QueueSchedulerTest.java:216-217 | the lookup yields None if and only if no queued job has the id; otherwise it yields the first position with it |
| Scheduler.FindResourceToBeReplaced | nephele/nephele-queuescheduler/src/test/java/eu/stratosphere/nephele/jobmanager/scheduler/queue/QueueSchedulerTest.java:230-249 | the current-stage loop finds the first resource waiting on the granted instance, or None when no vertex waits |
| Scheduler.BindAllocatedResource | nephele/nephele-queuescheduler/src/test/java/eu/stratosphere/nephele/jobmanager/scheduler/queue/QueueSchedulerTest.java:251-258 | the full-graph loop binds the grant to each ASSIGNING holder of the placeholder and makes it ASSIGNED |
| Scheduler.QueueScheduler.constructor | nephele/nephele-queuescheduler/src/test/java/eu/stratosphere/nephele/jobmanager/scheduler/queue/QueueSchedulerTest.java:121 | a new scheduler has an empty queue, an empty log and has released nothing |
| Scheduler.QueueScheduler.SchedulJob | nephele/nephele-queuescheduler/src/test/java/eu/stratosphere/nephele/jobmanager/scheduler/queue/QueueSchedulerTest.java:121-146 | the job is appended with every vertex SCHEDULED, its scheduling errors are logged, nothing is released |
| Scheduler.QueueScheduler.GetExecutionGraphByID | nephele/nephele-queuescheduler/src/test/java/eu/stratosphere/nephele/jobmanager/scheduler/queue/QueueSchedulerTest.java:216-217 | the lookup by job id gives the position of the first queued job with that id, or None if there is none |
| Scheduler.QueueScheduler.GetVerticesReadyToBeExecuted | nephele/nephele-queuescheduler/src/test/java/eu/stratosphere/nephele/jobmanager/scheduler/queue/QueueSchedulerTest.java:172-192 | the queue after the scan, the errors logged and the vertices reported are those of the scan specification; nothing is released |
| Scheduler.QueueScheduler.ResourceAllocated | nephele/nephele-queuescheduler/src/test/java/eu/stratosphere/nephele/jobmanager/scheduler/queue/QueueSchedulerTest.java:211-258 | null arguments log an error; an unknown job has the resource released; no waiting vertex gives a warning and no change; else the job's waiting holders are bound and ASSIGNED; in every case the rest is unchanged |
| Scenarios.FourVertexJob | nephele/nephele-queuescheduler/src/test/java/eu/stratosphere/nephele/jobmanager/scheduler/queue/QueueSchedulerTest.java:114-116 | the four-visit graph of the tests is well formed |
| Scenarios.SchedulJobScenario | nephele/nephele-queuescheduler/src/test/java/eu/stratosphere/nephele/jobmanager/scheduler/queue/QueueSchedulerTest.java:104-151 | first phase: the job is queued with four SCHEDULED vertices and no error. Second phase: exactly the one CANCELLED visit is logged, and all four vertices are SCHEDULED and queued |
| Scenarios.EmptyScanScenario | nephele/nephele-queuescheduler/src/test/java/eu/stratosphere/nephele/jobmanager/scheduler/queue/QueueSchedulerTest.java:172-175 | the scan of an empty queue returns the empty set and logs nothing |
| Scenarios.NoInstancesScanScenario | nephele/nephele-queuescheduler/src/test/java/eu/stratosphere/nephele/jobmanager/scheduler/queue/QueueSchedulerTest.java:178-182 | a job without required instances gives one error, no result and no changed vertex |
| Scenarios.TwiceQueued | nephele/nephele-queuescheduler/src/test/java/eu/stratosphere/nephele/jobmanager/scheduler/queue/QueueSchedulerTest.java:179-189 | the third scan's queue is the one graph queued twice, with the requirement stub of line 188 in force; it is well formed |
| Scenarios.ReadyScanReports | nephele/nephele-queuescheduler/src/test/java/eu/stratosphere/nephele/jobmanager/scheduler/queue/QueueSchedulerTest.java:189-191 | the third scan reports exactly the four vertices of the graph |
| Scenarios.ReadyScanErrors | nephele/nephele-queuescheduler/src/test/java/eu/stratosphere/nephele/jobmanager/scheduler/queue/QueueSchedulerTest.java:184-190 | the third scan logs nothing, since both entries name the requirement |
| Scenarios.ReadyScanWalk | nephele/nephele-queuescheduler/src/test/java/eu/stratosphere/nephele/jobmanager/scheduler/queue/QueueSchedulerTest.java:190-192 | the third scan leaves the four vertices READY in both entries |
| Scenarios.ReadyScanScenario | nephele/nephele-queuescheduler/src/test/java/eu/stratosphere/nephele/jobmanager/scheduler/queue/QueueSchedulerTest.java:184-192 | the scheduler's third scan reports four vertices, moves all four to READY and logs nothing |
| Scenarios.NullAllocationScenario | nephele/nephele-queuescheduler/src/test/java/eu/stratosphere/nephele/jobmanager/scheduler/queue/QueueSchedulerTest.java:211-213 | null arguments log one error and release nothing |
| Scenarios.CancelledJobScenario | nephele/nephele-queuescheduler/src/test/java/eu/stratosphere/nephele/jobmanager/scheduler/queue/QueueSchedulerTest.java:215-225 | a grant for a job not in the queue is released exactly once, and no error or warning is logged |
| Scenarios.UnneededInstanceScenario | nephele/nephele-queuescheduler/src/test/java/eu/stratosphere/nephele/jobmanager/scheduler/queue/QueueSchedulerTest.java:228-249 | ASSIGNING vertices holding no resource give one warning; nothing is released and no vertex changes |
| Scenarios.GrantScenario | nephele/nephele-queuescheduler/src/test/java/eu/stratosphere/nephele/jobmanager/scheduler/queue/QueueSchedulerTest.java:251-258 | ASSIGNING vertices holding a resource on the granted instance all become ASSIGNED with the grant; nothing is logged or released |

## Left out

- Concurrency. The scheduler is meant to keep the submission path, the scan and the asynchronous allocation callback from interleaving. Each operation here is atomic and sequential.
- Shared graph objects. In the source the scheduler and the job manager share each execution graph and its vertices. Here a queued graph is a value inside `jobQueue`, so the scheduler's writes are seen through the queue only. For the same reason, `RemoveFirst` and the lookup use value equality in place of object identity.
- Scheduler.QueueScheduler.GetExecutionGraphByID: yields the job's position in the queue, not the graph object, so the callback can write the bound graph back.
- SchedulingException on a job topology the traversal cannot walk. Topology and stage partitioning are given: a vertex sequence plus the index sequence of the current stage.
- The request path that moves vertices to ASSIGNING, and the listener that receives READY vertices. Neither is exercised by this test.
- The instance manager. Only `releaseAllocatedResource` appears, as an entry in `released`. `InstanceException` and `Configuration` are not modelled.
- Instances, instance types and resources. An instance is an opaque identifier, and a resource is its instance plus an allocation number; both are compared for equality. A resource carries no instance type, so matching a grant is by instance identifier only. The requirement map's keys are instance-type names as strings, and only whether the map is empty matters.
- Logging. Error and warning messages are reduced to their kind and level (`Diagnostic.IsError`); the text is not modelled. Info and debug messages are not modelled at all, including the one that a grant for a job no longer queued would give. The test verifies none of them.
- Vertex environments. The test stubs `getEnvironment()` on every vertex the schedulJob walk visits (lines 118 and 136). What the scheduler does with the environment is not visible in the test, and the model has no environment.
- The mocking framework (constructor interception, reflection on `jobQueue`, stubbed iterators). A stubbed iterator that hands back the same mock vertex four times becomes four distinct vertices, each visited once.
- Rejecting a second submission of a job already in the queue. The scheduler is meant to prevent duplicate submissions, but the test never submits the same job twice while it is queued. The model's queue admits duplicates, and the callback's lookup picks the first. A graph queued twice is two copies here, and the scan walks each copy. The result set is the same as for one shared graph, but the vertices are promoted in both copies instead of once.
