/**
 * The entities the queue scheduler works on: execution states, vertices (tasks),
 * allocated resources, the diagnostics it reports, and execution graphs (jobs).
 */
module Execution {

  type JobId = nat
  type InstanceId = nat
  type InstanceType = string

  datatype Option<+T> = None | Some(value: T)

  /** The lifecycle states of an execution vertex that the scheduler reads or writes. */
  datatype ExecutionState = Created | Scheduled | Assigning | Assigned | Ready | Cancelled

  /** Position of a state on the path CREATED, SCHEDULED, ASSIGNING, ASSIGNED, READY. */
  function Rank(s: ExecutionState): nat
  {
    match s
    case Created => 0
    case Scheduled => 1
    case Assigning => 2
    case Assigned => 3
    case Ready => 4
    case Cancelled => 5
  }

  /**
   * Moving from s to t is a forward step: t is s, or t is later on the lifecycle
   * path. CANCELLED is set from outside only, so no forward step enters or leaves it.
   */
  predicate Advances(s: ExecutionState, t: ExecutionState)
  {
    s == t || (s != Cancelled && t != Cancelled && Rank(s) < Rank(t))
  }

  /** A grant of the instance manager, bound to one instance. */
  datatype AllocatedResource = AllocatedResource(instance: InstanceId, allocation: nat)

  /** What the scheduler sees of a task: its state and the resource bound to it (null: None). */
  datatype Vertex = Vertex(state: ExecutionState, allocatedResource: Option<AllocatedResource>)

  /** The messages the scheduler writes to its log. */
  datatype Diagnostic =
    | VertexNotCreated(job: JobId, vertex: nat, found: ExecutionState)
    | NoRequiredInstances(job: JobId)
    | NullAllocation
    | InstanceNotRequired(job: JobId, instance: InstanceId)
  {
    /** Everything is logged as an error except an unneeded instance, which is a warning. */
    predicate IsError()
    {
      !InstanceNotRequired?
    }
  }

  /** Every index of a walk names one of n vertices. */
  predicate WithinGraph(stage: seq<nat>, n: nat)
  {
    forall j :: 0 <= j < |stage| ==> stage[j] < n
  }

  /** One call of the instance manager's releaseAllocatedResource. */
  datatype Release = Release(job: JobId, resource: AllocatedResource)

  /**
   * A job: its vertices in the fixed order of a full-graph walk, the indices of
   * the vertices of its current stage in the order of a current-stage walk, and
   * the instance types (with counts) its current stage requires (null: None).
   */
  datatype ExecutionGraph = ExecutionGraph(
    jobId: JobId,
    vertices: seq<Vertex>,
    currentStage: seq<nat>,
    requiredInstances: Option<map<InstanceType, nat>>)
  {
    /** Every current-stage index names a vertex of the graph. */
    predicate Valid()
    {
      WithinGraph(currentStage, |vertices|)
    }

    /** The graph names the instances its current stage needs (a null or an empty map names none). */
    predicate HasRequiredInstances()
    {
      requiredInstances.Some? && |requiredInstances.value| > 0
    }
  }
}
