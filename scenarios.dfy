/**
 * The three situations the scheduler's unit tests walk through, with the
 * outcome the tests check stated as a postcondition. The schedulJob test runs on
 * one scheduler throughout; each phase of the other two starts from a fresh one.
 */
module Scenarios {
  import opened Execution
  import opened Transitions
  import opened Scheduler

  /** A graph of four vertices in the given states, all of them in its current stage. */
  function FourVertexJob(job: JobId, states: seq<ExecutionState>, res: Option<AllocatedResource>,
                         required: Option<map<InstanceType, nat>>): (g: ExecutionGraph)
    requires |states| == 4
    ensures g.Valid() && |g.vertices| == 4 && g.jobId == job
  {
    ExecutionGraph(job, seq(4, i requires 0 <= i < 4 => Vertex(states[i], res)), [0, 1, 2, 3], required)
  }

  /**
   * schedulJob on four CREATED vertices queues the job, writes SCHEDULED four times
   * and logs nothing; after the job is taken out again, schedulJob on a walk that
   * finds the third vertex CANCELLED logs exactly one error, still writes SCHEDULED
   * four times and queues the job.
   */
  method SchedulJobScenario() returns (firstQueue: seq<ExecutionGraph>, firstLog: seq<Diagnostic>,
                                       secondQueue: seq<ExecutionGraph>, secondLog: seq<Diagnostic>)
    ensures |firstQueue| == 1 && firstQueue[0].jobId == 1 && |firstQueue[0].vertices| == 4
    ensures forall k :: 0 <= k < 4 ==> firstQueue[0].vertices[k].state == Scheduled
    ensures firstLog == []
    ensures |secondQueue| == 1 && secondQueue[0].jobId == 1 && |secondQueue[0].vertices| == 4
    ensures forall k :: 0 <= k < 4 ==> secondQueue[0].vertices[k].state == Scheduled
    ensures secondLog == [VertexNotCreated(1, 2, Cancelled)] && secondLog[0].IsError()
  {
    var s := new QueueScheduler();
    var g := FourVertexJob(1, [Created, Created, Created, Created], None, None);
    NoSchedulingErrorsIff(1, g.vertices);
    AllScheduled(g.vertices);
    s.SchedulJob(g);
    firstQueue, firstLog := s.jobQueue, s.log;

    RemoveOnly(s.jobQueue[0]);
    s.jobQueue := RemoveFirst(s.jobQueue, s.jobQueue[0]);
    var g2 := FourVertexJob(1, [Created, Created, Cancelled, Created], None, None);
    OneAnomalyOneError(1, g2.vertices, 2);
    AllScheduled(g2.vertices);
    s.SchedulJob(g2);
    secondQueue, secondLog := s.jobQueue, s.log;
  }

  /** After the schedulJob walk every vertex of the graph is SCHEDULED. */
  lemma AllScheduled(vs: seq<Vertex>)
    ensures |ScheduleAll(vs)| == |vs| && forall k :: 0 <= k < |vs| ==> ScheduleAll(vs)[k].state == Scheduled
  {
  }

  /** Taking the only queued job out leaves the queue empty. */
  lemma RemoveOnly(g: ExecutionGraph)
    ensures RemoveFirst([g], g) == []
  {
  }

  /** The readiness scan over an empty queue reports nothing and logs nothing. */
  method EmptyScanScenario() returns (ready: set<VertexRef>, log: seq<Diagnostic>)
    ensures ready == {} && log == []
  {
    var s := new QueueScheduler();
    ready := s.GetVerticesReadyToBeExecuted();
    log := s.log;
  }

  /** The readiness scan over a graph naming no required instances logs one error and reports nothing. */
  method NoInstancesScanScenario() returns (ready: set<VertexRef>, log: seq<Diagnostic>, vertices: seq<Vertex>)
    ensures ready == {} && log == [NoRequiredInstances(2)] && log[0].IsError()
    ensures vertices == seq(4, _ => Vertex(Assigned, None))
  {
    var s := new QueueScheduler();
    var stateless := FourVertexJob(2, [Assigned, Assigned, Assigned, Assigned], None, None);
    s.jobQueue := [stateless];
    assert [stateless][..0] == [];
    ready := s.GetVerticesReadyToBeExecuted();
    log, vertices := s.log, s.jobQueue[0].vertices;
  }

  /**
   * The queue of the third scan: the graph queued once before the second scan and
   * once more before the third, with its instance requirement now set, so both
   * entries are the same graph naming one required instance type.
   */
  function TwiceQueued(): (q: seq<ExecutionGraph>)
    ensures WellFormed(q) && |q| == 2 && q[0] == q[1] && q[0].HasRequiredInstances()
  {
    var g := FourVertexJob(2, [Assigned, Assigned, Assigned, Assigned], None, Some(map["default" := 3]));
    [g, g]
  }

  /** The scan over that queue reports the four vertices of the graph. */
  lemma ReadyScanReports()
    ensures ReadyVertices(TwiceQueued()) == {VertexRef(2, 0), VertexRef(2, 1), VertexRef(2, 2), VertexRef(2, 3)}
  {
    var q := TwiceQueued();
    assert q[..1] == [q[0]] && q[..1][..0] == [];
    assert ReadyIndices(q[0].vertices, q[0].currentStage) == {0, 1, 2, 3};
    assert ReadyVertices(q[..1]) == ReadyVertices([]) + JobReady(q[0]);
  }

  /** The scan over that queue logs nothing. */
  lemma ReadyScanErrors()
    ensures ScanErrors(TwiceQueued()) == []
  {
    var q := TwiceQueued();
    assert q[..1] == [q[0]] && q[..1][..0] == [];
  }

  /** The scan over that queue leaves the four vertices of both entries READY. */
  lemma ReadyScanWalk()
    ensures ScanQueue(TwiceQueued())[0].vertices == seq(4, _ => Vertex(Ready, None))
    ensures ScanQueue(TwiceQueued())[1] == ScanQueue(TwiceQueued())[0]
  {
    var required := TwiceQueued()[0];
    forall k: nat | k < 4 ensures PromoteStage(required.vertices, required.currentStage)[k] == Vertex(Ready, None) {
      PromoteStageAt(required.vertices, required.currentStage, k);
    }
  }

  /**
   * With the graph queued twice and its instance requirement set, the scan moves
   * its four ASSIGNED vertices to READY, reports all four and logs nothing.
   */
  method ReadyScanScenario() returns (ready: set<VertexRef>, log: seq<Diagnostic>, walked: seq<Vertex>)
    ensures ready == {VertexRef(2, 0), VertexRef(2, 1), VertexRef(2, 2), VertexRef(2, 3)}
    ensures log == []
    ensures walked == seq(4, _ => Vertex(Ready, None))
  {
    var s := new QueueScheduler();
    s.jobQueue := TwiceQueued();
    ReadyScanReports();
    ReadyScanErrors();
    ReadyScanWalk();
    ready := s.GetVerticesReadyToBeExecuted();
    log, walked := s.log, s.jobQueue[1].vertices;
  }

  /** The allocation callback with a null job id and resource logs an error and changes nothing else. */
  method NullAllocationScenario() returns (log: seq<Diagnostic>, released: seq<Release>)
    ensures log == [NullAllocation] && log[0].IsError() && released == []
  {
    var s := new QueueScheduler();
    s.ResourceAllocated(None, None);
    log, released := s.log, s.released;
  }

  /** The allocation callback for a job that is not queued hands the resource back and logs no error or warning. */
  method CancelledJobScenario() returns (log: seq<Diagnostic>, released: seq<Release>)
    ensures log == [] && released == [Release(3, AllocatedResource(9, 0))]
  {
    var s := new QueueScheduler();
    s.ResourceAllocated(Some(3), Some(AllocatedResource(9, 0)));
    log, released := s.log, s.released;
  }

  /**
   * The allocation callback for a queued job whose ASSIGNING vertices hold no
   * resource logs a warning, releases nothing and changes no vertex.
   */
  method UnneededInstanceScenario() returns (log: seq<Diagnostic>, released: seq<Release>, vertices: seq<Vertex>)
    ensures log == [InstanceNotRequired(3, 9)] && !log[0].IsError() && released == []
    ensures vertices == seq(4, _ => Vertex(Assigning, None))
  {
    var s := new QueueScheduler();
    var waiting := FourVertexJob(3, [Assigning, Assigning, Assigning, Assigning], None, None);
    s.jobQueue := [waiting];
    s.ResourceAllocated(Some(3), Some(AllocatedResource(9, 0)));
    log, released, vertices := s.log, s.released, s.jobQueue[0].vertices;
  }

  /**
   * The allocation callback for a queued job whose ASSIGNING vertices hold a
   * resource on the granted instance binds all four to the grant and makes them ASSIGNED.
   */
  method GrantScenario() returns (log: seq<Diagnostic>, released: seq<Release>, vertices: seq<Vertex>)
    ensures log == [] && released == []
    ensures vertices == seq(4, _ => Vertex(Assigned, Some(AllocatedResource(9, 0))))
  {
    var s := new QueueScheduler();
    var resource := AllocatedResource(9, 0);
    var holding := FourVertexJob(3, [Assigning, Assigning, Assigning, Assigning], Some(resource), None);
    assert Replaceable(holding.vertices[holding.currentStage[0]], 9);
    s.jobQueue := [holding];
    s.ResourceAllocated(Some(3), Some(resource));
    log, released, vertices := s.log, s.released, s.jobQueue[0].vertices;
  }
}
