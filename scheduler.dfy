/**
 * The queue scheduler: a queue of execution graphs, the walks that update their
 * vertices, the log it writes and the resources it hands back to the instance
 * manager.
 */
module Scheduler {
  import opened Execution
  import opened Transitions

  /** A vertex as the readiness scan reports it: the job it belongs to and its index there. */
  datatype VertexRef = VertexRef(job: JobId, index: nat)

  /** Every queued graph is well formed. */
  predicate WellFormed(q: seq<ExecutionGraph>)
  {
    forall i :: 0 <= i < |q| ==> q[i].Valid()
  }

  // ----- schedulJob -----

  /** The full-graph walk of schedulJob over one graph: its vertices and the errors it logs. */
  method ScheduleVertices(g: ExecutionGraph) returns (scheduled: ExecutionGraph, errors: seq<Diagnostic>)
    ensures scheduled == g.(vertices := ScheduleAll(g.vertices))
    ensures errors == SchedulingErrors(g.jobId, g.vertices)
  {
    var vs := g.vertices;
    errors := [];
    var i := 0;
    while i < |vs|
      invariant 0 <= i <= |vs| == |g.vertices|
      invariant forall k :: 0 <= k < i ==> vs[k] == g.vertices[k].(state := Scheduled)
      invariant forall k :: i <= k < |vs| ==> vs[k] == g.vertices[k]
      invariant errors == SchedulingErrors(g.jobId, g.vertices[..i])
    {
      var v := vs[i];
      assert g.vertices[..i + 1][..i] == g.vertices[..i];
      if v.state != Created {
        errors := errors + [VertexNotCreated(g.jobId, i, v.state)];
      }
      vs := vs[i := v.(state := Scheduled)];
      i := i + 1;
    }
    assert g.vertices[..i] == g.vertices;
    assert vs == ScheduleAll(g.vertices);
    scheduled := g.(vertices := vs);
  }

  /** The queue after Deque.remove: the first occurrence of g taken out, if there is one. */
  function RemoveFirst(q: seq<ExecutionGraph>, g: ExecutionGraph): (r: seq<ExecutionGraph>)
    ensures g in q ==> |r| == |q| - 1 && multiset(r) == multiset(q) - multiset{g}
    ensures g !in q ==> r == q
    decreases |q|
  {
    if q == [] then []
    else
      assert q == [q[0]] + q[1..];
      if q[0] == g then q[1..]
      else [q[0]] + RemoveFirst(q[1..], g)
  }

  /** The position of the first occurrence of g in q. */
  function FirstIndex(q: seq<ExecutionGraph>, g: ExecutionGraph): (i: nat)
    requires g in q
    ensures i < |q| && q[i] == g && g !in q[..i]
    decreases |q|
  {
    if q[0] == g then 0
    else
      var i := FirstIndex(q[1..], g);
      assert q[..i + 1] == [q[0]] + q[1..][..i];
      i + 1
  }

  /** Removal takes out the first occurrence of g and keeps the order of everything else. */
  lemma {:induction false} RemoveFirstKeepsOrder(q: seq<ExecutionGraph>, g: ExecutionGraph)
    requires g in q
    ensures RemoveFirst(q, g) == q[..FirstIndex(q, g)] + q[FirstIndex(q, g) + 1..]
    decreases |q|
  {
    if q[0] == g {
      assert q[..0] + q[1..] == q[1..];
    } else {
      var t := q[1..];
      assert g in t;
      var i := FirstIndex(t, g);
      RemoveFirstKeepsOrder(t, g);
      assert FirstIndex(q, g) == i + 1;
      assert RemoveFirst(t, g) == t[..i] + t[i + 1..];
      assert RemoveFirst(q, g) == [q[0]] + (t[..i] + t[i + 1..]);
      ConsSlices(q, i);
    }
  }

  /** Slicing a non-empty sequence around index i + 1 is slicing its tail around i. */
  lemma ConsSlices<T>(q: seq<T>, i: nat)
    requires i + 1 < |q|
    ensures q[..i + 1] + q[i + 2..] == [q[0]] + (q[1..][..i] + q[1..][i + 1..])
  {
    assert q[..i + 1] == [q[0]] + q[1..][..i];
    assert q[i + 2..] == q[1..][i + 1..];
  }

  // ----- getVerticesReadyToBeExecuted -----

  /** What the readiness scan makes of one queued graph: its current stage walked, if it names required instances. */
  function ScanJob(g: ExecutionGraph): ExecutionGraph
  {
    if g.HasRequiredInstances() then g.(vertices := PromoteStage(g.vertices, g.currentStage)) else g
  }

  /** The queue after a readiness scan. */
  function ScanQueue(q: seq<ExecutionGraph>): (r: seq<ExecutionGraph>)
  {
    seq(|q|, i requires 0 <= i < |q| => ScanJob(q[i]))
  }

  /** The errors a readiness scan over q logs: one per graph without required instances, in queue order. */
  function ScanErrors(q: seq<ExecutionGraph>): seq<Diagnostic>
    decreases |q|
  {
    if q == [] then []
    else
      var n := |q| - 1;
      ScanErrors(q[..n]) + (if q[n].HasRequiredInstances() then [] else [NoRequiredInstances(q[n].jobId)])
  }

  /** The vertices of one graph that a readiness scan reports. */
  function JobReady(g: ExecutionGraph): set<VertexRef>
  {
    if g.HasRequiredInstances() then set k | k in ReadyIndices(g.vertices, g.currentStage) :: VertexRef(g.jobId, k)
    else {}
  }

  /** The vertices a readiness scan over q reports, graph by graph. */
  function ReadyVertices(q: seq<ExecutionGraph>): set<VertexRef>
    decreases |q|
  {
    if q == [] then {} else ReadyVertices(q[..|q| - 1]) + JobReady(q[|q| - 1])
  }

  /** The number of queued graphs that name no required instances. */
  function CountMissing(q: seq<ExecutionGraph>): nat
    decreases |q|
  {
    if q == [] then 0 else CountMissing(q[..|q| - 1]) + (if q[|q| - 1].HasRequiredInstances() then 0 else 1)
  }

  /** The scan logs one error for each queued graph without required instances, naming its job, and nothing else. */
  lemma {:induction false} ScanErrorsExactly(q: seq<ExecutionGraph>)
    ensures |ScanErrors(q)| == CountMissing(q) <= |q|
    ensures forall d :: d in ScanErrors(q) ==>
              exists i :: 0 <= i < |q| && !q[i].HasRequiredInstances() && d == NoRequiredInstances(q[i].jobId)
    ensures forall i :: 0 <= i < |q| && !q[i].HasRequiredInstances() ==> NoRequiredInstances(q[i].jobId) in ScanErrors(q)
  {
    ScanErrorsCount(q);
    ScanErrorsNamed(q);
  }

  /** The scan logs as many errors as there are queued graphs without required instances. */
  lemma {:induction false} ScanErrorsCount(q: seq<ExecutionGraph>)
    ensures |ScanErrors(q)| == CountMissing(q) <= |q|
    decreases |q|
  {
    if q != [] {
      ScanErrorsCount(q[..|q| - 1]);
    }
  }

  /** Each error of the scan names a queued graph without required instances, and each such graph is named. */
  lemma {:induction false} ScanErrorsNamed(q: seq<ExecutionGraph>)
    ensures forall d :: d in ScanErrors(q) ==>
              exists i :: 0 <= i < |q| && !q[i].HasRequiredInstances() && d == NoRequiredInstances(q[i].jobId)
    ensures forall i :: 0 <= i < |q| && !q[i].HasRequiredInstances() ==> NoRequiredInstances(q[i].jobId) in ScanErrors(q)
    decreases |q|
  {
    if q != [] {
      var n := |q| - 1;
      ScanErrorsNamed(q[..n]);
      assert forall i :: 0 <= i < n ==> q[..n][i] == q[i];
    }
  }

  /**
   * A vertex is reported by the scan exactly when some queued graph of its job
   * names required instances and has that vertex ASSIGNED in its current stage.
   */
  lemma {:induction false} ReadyVerticesExactly(q: seq<ExecutionGraph>, r: VertexRef)
    ensures r in ReadyVertices(q) <==>
              exists i :: 0 <= i < |q| && q[i].HasRequiredInstances() && q[i].jobId == r.job
                          && r.index in ReadyIndices(q[i].vertices, q[i].currentStage)
    decreases |q|
  {
    if q != [] {
      var n := |q| - 1;
      ReadyVerticesExactly(q[..n], r);
      assert forall i :: 0 <= i < n ==> q[..n][i] == q[i];
    }
  }

  /** An empty queue: the scan reports nothing, logs nothing and changes nothing. */
  lemma EmptyScan()
    ensures ReadyVertices([]) == {} && ScanErrors([]) == [] && ScanQueue([]) == []
  {
  }

  /** The scan only moves vertices forward, each to READY from ASSIGNED and no other way, and keeps the graphs well formed. */
  lemma ScanAdvances(q: seq<ExecutionGraph>, i: nat, k: nat)
    requires i < |q| && k < |q[i].vertices|
    ensures |ScanQueue(q)| == |q| && |ScanQueue(q)[i].vertices| == |q[i].vertices|
    ensures q[i].Valid() ==> ScanQueue(q)[i].Valid()
    ensures Advances(q[i].vertices[k].state, ScanQueue(q)[i].vertices[k].state)
    ensures ScanQueue(q)[i].vertices[k] != q[i].vertices[k] ==>
              q[i].vertices[k].state == Assigned && ScanQueue(q)[i].vertices[k] == q[i].vertices[k].(state := Ready)
  {
    PromoteStageAt(q[i].vertices, q[i].currentStage, k);
  }

  /** A second scan right after the first reports nothing, changes nothing and logs the same errors again. */
  lemma {:induction false} ScanIdempotent(q: seq<ExecutionGraph>)
    ensures ScanQueue(ScanQueue(q)) == ScanQueue(q)
    ensures ReadyVertices(ScanQueue(q)) == {}
    ensures ScanErrors(ScanQueue(q)) == ScanErrors(q)
    decreases |q|
  {
    forall i | 0 <= i < |q| ensures ScanJob(ScanJob(q[i])) == ScanJob(q[i]) && JobReady(ScanJob(q[i])) == {} {
      PromoteStageIdempotent(q[i].vertices, q[i].currentStage);
    }
    if q != [] {
      var n := |q| - 1;
      ScanIdempotent(q[..n]);
      assert ScanQueue(q)[..n] == ScanQueue(q[..n]);
    }
  }

  /**
   * A current-stage vertex of a graph that names required instances, once bound by
   * a grant, is reported by the next readiness scan and left READY holding the grant.
   */
  lemma GrantThenReadinessScan(g: ExecutionGraph, placeholder: AllocatedResource, granted: AllocatedResource, k: nat)
    requires g.HasRequiredInstances() && k < |g.vertices| && k in g.currentStage
    requires g.vertices[k].state == Assigning && g.vertices[k].allocatedResource == Some(placeholder)
    ensures VertexRef(g.jobId, k) in JobReady(g.(vertices := BindGranted(g.vertices, placeholder, granted)))
    ensures ScanJob(g.(vertices := BindGranted(g.vertices, placeholder, granted))).vertices[k]
            == Vertex(Ready, Some(granted))
  {
    GrantThenScan(g.vertices, g.currentStage, placeholder, granted, k);
  }

  /** The current-stage walk of the readiness scan over one graph: the graph after it and the vertices it finds ASSIGNED. */
  method PromoteCurrentStage(g: ExecutionGraph) returns (walked: ExecutionGraph, ready: set<nat>)
    requires g.Valid()
    ensures walked == g.(vertices := PromoteStage(g.vertices, g.currentStage))
    ensures ready == ReadyIndices(g.vertices, g.currentStage)
  {
    var vs := g.vertices;
    ready := {};
    var j := 0;
    while j < |g.currentStage|
      invariant 0 <= j <= |g.currentStage|
      invariant vs == PromoteStage(g.vertices, g.currentStage[..j])
      invariant ready == ReadyIndices(g.vertices, g.currentStage[..j])
    {
      var k := g.currentStage[j];
      PromoteStageAt(g.vertices, g.currentStage[..j], k);
      assert g.currentStage[..j + 1] == g.currentStage[..j] + [k];
      assert g.currentStage[..j + 1][..j] == g.currentStage[..j];
      if vs[k].state == Assigned {
        ready := ready + {k};
        vs := vs[k := vs[k].(state := Ready)];
      }
      j := j + 1;
    }
    assert g.currentStage[..j] == g.currentStage;
    walked := g.(vertices := vs);
  }

  /** One step of the readiness scan: the graph after it, the vertices it reports and the errors it logs. */
  method ScanEntry(g: ExecutionGraph) returns (walked: ExecutionGraph, found: set<VertexRef>, errors: seq<Diagnostic>)
    requires g.Valid()
    ensures walked == ScanJob(g) && walked.Valid()
    ensures found == JobReady(g)
    ensures errors == if g.HasRequiredInstances() then [] else [NoRequiredInstances(g.jobId)]
  {
    if !g.HasRequiredInstances() {
      return g, {}, [NoRequiredInstances(g.jobId)];
    }
    var ready;
    walked, ready := PromoteCurrentStage(g);
    found, errors := set k | k in ready :: VertexRef(g.jobId, k), [];
  }

  // ----- resourceAllocated -----

  /** The position of the first queued graph of the job, as a lookup by job id finds it; None when the job is not queued. */
  function FindJob(q: seq<ExecutionGraph>, id: JobId): (r: Option<nat>)
    ensures r.None? <==> forall i :: 0 <= i < |q| ==> q[i].jobId != id
    ensures r.Some? ==> r.value < |q| && q[r.value].jobId == id
                        && forall i :: 0 <= i < r.value ==> q[i].jobId != id
    decreases |q|
  {
    if q == [] then None
    else if q[0].jobId == id then Some(0)
    else
      var r := FindJob(q[1..], id);
      assert forall i :: 1 <= i < |q| ==> q[i] == q[1..][i - 1];
      if r.None? then None else Some(r.value + 1)
  }

  /** The current-stage search of the allocation callback for the resource to be replaced. */
  method FindResourceToBeReplaced(g: ExecutionGraph, instance: InstanceId) returns (r: Option<AllocatedResource>)
    requires g.Valid()
    ensures r == FirstReplaceable(g.vertices, g.currentStage, instance)
    ensures r.None? <==> forall j :: 0 <= j < |g.currentStage| ==> !Replaceable(g.vertices[g.currentStage[j]], instance)
  {
    var j := 0;
    while j < |g.currentStage|
      invariant 0 <= j <= |g.currentStage|
      invariant forall i :: 0 <= i < j ==> !Replaceable(g.vertices[g.currentStage[i]], instance)
    {
      var v := g.vertices[g.currentStage[j]];
      if Replaceable(v, instance) {
        return v.allocatedResource;
      }
      j := j + 1;
    }
    return None;
  }

  /** The full-graph walk of the allocation callback that binds the granted resource. */
  method BindAllocatedResource(g: ExecutionGraph, placeholder: AllocatedResource, granted: AllocatedResource)
    returns (bound: ExecutionGraph)
    ensures bound == g.(vertices := BindGranted(g.vertices, placeholder, granted))
  {
    var vs := g.vertices;
    var i := 0;
    while i < |vs|
      invariant 0 <= i <= |vs| == |g.vertices|
      invariant forall k :: 0 <= k < i ==> vs[k] == BindGranted(g.vertices, placeholder, granted)[k]
      invariant forall k :: i <= k < |vs| ==> vs[k] == g.vertices[k]
    {
      var v := vs[i];
      if v.state == Assigning && v.allocatedResource == Some(placeholder) {
        vs := vs[i := Vertex(Assigned, Some(granted))];
      }
      i := i + 1;
    }
    bound := g.(vertices := vs);
  }

  class QueueScheduler {
    /** The jobs submitted and not yet removed, in submission order. */
    var jobQueue: seq<ExecutionGraph>
    /** The diagnostics written so far, oldest first. */
    var log: seq<Diagnostic>
    /** The resources handed back to the instance manager so far, oldest first. */
    var released: seq<Release>

    ghost predicate Valid()
      reads this
    {
      WellFormed(jobQueue)
    }

    constructor ()
      ensures Valid() && jobQueue == [] && log == [] && released == []
    {
      jobQueue, log, released := [], [], [];
    }

    /**
     * Submits a job: writes SCHEDULED to every vertex of a full-graph walk, logs an
     * error for every vertex not found in CREATED (without stopping), and appends
     * the job to the queue.
     */
    method SchedulJob(g: ExecutionGraph)
      requires Valid() && g.Valid()
      modifies this
      ensures Valid()
      ensures jobQueue == old(jobQueue) + [g.(vertices := ScheduleAll(g.vertices))]
      ensures log == old(log) + SchedulingErrors(g.jobId, g.vertices)
      ensures released == old(released)
    {
      var scheduled, errors := ScheduleVertices(g);
      log := log + errors;
      jobQueue := jobQueue + [scheduled];
    }

    /** The lookup by job id: the position of the first queued graph of the job, or None. */
    method GetExecutionGraphByID(id: JobId) returns (pos: Option<nat>)
      ensures pos == FindJob(jobQueue, id)
      ensures pos.Some? ==> pos.value < |jobQueue| && jobQueue[pos.value].jobId == id
      ensures pos.None? <==> forall i :: 0 <= i < |jobQueue| ==> jobQueue[i].jobId != id
    {
      var i := 0;
      while i < |jobQueue|
        invariant 0 <= i <= |jobQueue|
        invariant forall i' :: 0 <= i' < i ==> jobQueue[i'].jobId != id
      {
        if jobQueue[i].jobId == id {
          return Some(i);
        }
        i := i + 1;
      }
      return None;
    }

    /**
     * The readiness scan: for each queued graph in order, logs an error if it names
     * no required instances, and otherwise moves every ASSIGNED vertex of its
     * current stage to READY and adds it to the result.
     */
    method GetVerticesReadyToBeExecuted() returns (ready: set<VertexRef>)
      requires Valid()
      modifies this
      ensures Valid()
      ensures jobQueue == ScanQueue(old(jobQueue)) && released == old(released)
      ensures log == old(log) + ScanErrors(old(jobQueue))
      ensures ready == ReadyVertices(old(jobQueue))
    {
      ghost var before := jobQueue;
      ready := {};
      var q := 0;
      while q < |jobQueue|
        invariant 0 <= q <= |jobQueue| == |before|
        invariant forall i :: 0 <= i < q ==> jobQueue[i] == ScanJob(before[i])
        invariant forall i :: q <= i < |jobQueue| ==> jobQueue[i] == before[i]
        invariant WellFormed(before) && WellFormed(jobQueue) && released == old(released)
        invariant log == old(log) + ScanErrors(before[..q])
        invariant ready == ReadyVertices(before[..q])
      {
        assert before[..q + 1][..q] == before[..q];
        var walked, found, errors := ScanEntry(jobQueue[q]);
        log, ready := log + errors, ready + found;
        jobQueue := jobQueue[q := walked];
        q := q + 1;
      }
      assert before[..q] == before;
      assert jobQueue == ScanQueue(before);
    }

    /**
     * The allocation callback. A null job id or resource is logged as an error. A job
     * the lookup does not find has the resource released to the instance manager. For
     * a queued job, the first current-stage vertex waiting for the granted resource's
     * instance gives the resource to replace; if there is none a warning is logged,
     * otherwise every waiting holder of that resource is bound to the grant and ASSIGNED.
     */
    method ResourceAllocated(jobId: Option<JobId>, resource: Option<AllocatedResource>)
      requires Valid()
      modifies this
      ensures Valid()
      ensures jobId.None? || resource.None? ==>
                log == old(log) + [NullAllocation] && released == old(released) && jobQueue == old(jobQueue)
      ensures jobId.Some? && resource.Some? && FindJob(old(jobQueue), jobId.value).None? ==>
                && log == old(log) && released == old(released) + [Release(jobId.value, resource.value)]
                && jobQueue == old(jobQueue)
      ensures jobId.Some? && resource.Some? && FindJob(old(jobQueue), jobId.value).Some? ==>
                var i := FindJob(old(jobQueue), jobId.value).value;
                var eg := old(jobQueue)[i];
                var toReplace := FirstReplaceable(eg.vertices, eg.currentStage, resource.value.instance);
                && released == old(released)
                && (toReplace.None? ==>
                      log == old(log) + [InstanceNotRequired(eg.jobId, resource.value.instance)]
                      && jobQueue == old(jobQueue))
                && (toReplace.Some? ==>
                      log == old(log)
                      && jobQueue == old(jobQueue)[i := eg.(vertices := BindGranted(eg.vertices, toReplace.value, resource.value))])
    {
      if jobId.None? || resource.None? {
        log := log + [NullAllocation];
        return;
      }
      var pos := GetExecutionGraphByID(jobId.value);
      if pos.None? {
        released := released + [Release(jobId.value, resource.value)];
        return;
      }
      var i := pos.value;
      var g := jobQueue[i];
      var toReplace := FindResourceToBeReplaced(g, resource.value.instance);
      if toReplace.None? {
        log := log + [InstanceNotRequired(g.jobId, resource.value.instance)];
        return;
      }
      var bound := BindAllocatedResource(g, toReplace.value, resource.value);
      jobQueue := jobQueue[i := bound];
    }
  }
}
