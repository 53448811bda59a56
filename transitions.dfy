/**
 * What each scheduler walk does to the vertices of one job, stated on the
 * sequence of vertex records, and the properties of those state changes.
 */
module Transitions {
  import opened Execution

  // ----- schedulJob: the full-graph walk -----

  /** Every visited vertex is set to SCHEDULED, whatever state it was found in. */
  function ScheduleAll(vs: seq<Vertex>): seq<Vertex>
  {
    seq(|vs|, i requires 0 <= i < |vs| => vs[i].(state := Scheduled))
  }

  /** The errors the walk logs: one per vertex not found in CREATED, in walk order. */
  function SchedulingErrors(job: JobId, vs: seq<Vertex>): seq<Diagnostic>
    decreases |vs|
  {
    if vs == [] then []
    else
      var n := |vs| - 1;
      SchedulingErrors(job, vs[..n])
        + (if vs[n].state == Created then [] else [VertexNotCreated(job, n, vs[n].state)])
  }

  /** Every scheduling error names a visited vertex that was not CREATED, with the state found. */
  lemma {:induction false} SchedulingErrorsSound(job: JobId, vs: seq<Vertex>, d: Diagnostic)
    requires d in SchedulingErrors(job, vs)
    ensures d.VertexNotCreated? && d.job == job && d.vertex < |vs|
    ensures vs[d.vertex].state != Created && d.found == vs[d.vertex].state
    decreases |vs|
  {
    var n := |vs| - 1;
    if d !in SchedulingErrors(job, vs[..n]) {
      assert d == VertexNotCreated(job, n, vs[n].state);
    } else {
      SchedulingErrorsSound(job, vs[..n], d);
    }
  }

  /** Every visited vertex not in CREATED is reported, and no CREATED one is. */
  lemma {:induction false} SchedulingErrorsComplete(job: JobId, vs: seq<Vertex>, i: nat)
    requires i < |vs|
    ensures VertexNotCreated(job, i, vs[i].state) in SchedulingErrors(job, vs) <==> vs[i].state != Created
    decreases |vs|
  {
    var n := |vs| - 1;
    if VertexNotCreated(job, i, vs[i].state) in SchedulingErrors(job, vs) {
      SchedulingErrorsSound(job, vs, VertexNotCreated(job, i, vs[i].state));
    } else if i < n {
      SchedulingErrorsComplete(job, vs[..n], i);
    }
  }

  /** A walk over CREATED vertices only logs nothing, and a walk that logs nothing met only CREATED ones. */
  lemma {:induction false} NoSchedulingErrorsIff(job: JobId, vs: seq<Vertex>)
    ensures SchedulingErrors(job, vs) == [] <==> forall i :: 0 <= i < |vs| ==> vs[i].state == Created
  {
    if SchedulingErrors(job, vs) == [] {
      forall i | 0 <= i < |vs| ensures vs[i].state == Created {
        SchedulingErrorsComplete(job, vs, i);
      }
    } else {
      var d := SchedulingErrors(job, vs)[0];
      SchedulingErrorsSound(job, vs, d);
    }
  }

  /** One anomalous vertex among CREATED ones gives exactly one error, naming it; the walk goes on. */
  lemma {:induction false} OneAnomalyOneError(job: JobId, vs: seq<Vertex>, c: nat)
    requires c < |vs| && vs[c].state != Created
    requires forall i :: 0 <= i < |vs| && i != c ==> vs[i].state == Created
    ensures SchedulingErrors(job, vs) == [VertexNotCreated(job, c, vs[c].state)]
    decreases |vs|
  {
    var n := |vs| - 1;
    if c == n {
      NoSchedulingErrorsIff(job, vs[..n]);
    } else {
      OneAnomalyOneError(job, vs[..n], c);
    }
  }

  /**
   * Scheduling is a forward step for every vertex except those it reports:
   * a vertex either advances to SCHEDULED or has its error in the log.
   */
  lemma {:induction false} ScheduleAdvancesOrReports(job: JobId, vs: seq<Vertex>, i: nat)
    requires i < |vs|
    ensures |ScheduleAll(vs)| == |vs| && ScheduleAll(vs)[i] == Vertex(Scheduled, vs[i].allocatedResource)
    ensures Advances(vs[i].state, Scheduled)
            || VertexNotCreated(job, i, vs[i].state) in SchedulingErrors(job, vs)
  {
    SchedulingErrorsComplete(job, vs, i);
  }

  // ----- getVerticesReadyToBeExecuted: the current-stage walk -----

  /**
   * The vertices after the current-stage walk: each visit that finds its vertex
   * ASSIGNED sets it to READY.
   */
  function PromoteStage(vs: seq<Vertex>, stage: seq<nat>): (r: seq<Vertex>)
    ensures |r| == |vs|
    decreases |stage|
  {
    if stage == [] then vs
    else
      var walked := PromoteStage(vs, stage[..|stage| - 1]);
      var k := stage[|stage| - 1];
      if k < |walked| && walked[k].state == Assigned then walked[k := walked[k].(state := Ready)] else walked
  }

  /** The vertices of the stage that the walk adds to its result: those it finds ASSIGNED. */
  function ReadyIndices(vs: seq<Vertex>, stage: seq<nat>): set<nat>
  {
    set k | k in stage && k < |vs| && vs[k].state == Assigned
  }

  /** The walk moves exactly the ASSIGNED vertices of the stage to READY, and touches nothing else. */
  lemma {:induction false} PromoteStageAt(vs: seq<Vertex>, stage: seq<nat>, k: nat)
    requires k < |vs|
    ensures PromoteStage(vs, stage)[k]
            == if k in stage && vs[k].state == Assigned then vs[k].(state := Ready) else vs[k]
    decreases |stage|
  {
    if stage != [] {
      var n := |stage| - 1;
      PromoteStageAt(vs, stage[..n], k);
      assert stage == stage[..n] + [stage[n]];
    }
  }

  /** The vertices reported ready are exactly those that the walk moves to READY, and every step is forward. */
  lemma {:induction false} PromoteStageReportsExactly(vs: seq<Vertex>, stage: seq<nat>, k: nat)
    requires k < |vs|
    ensures k in ReadyIndices(vs, stage)
            <==> vs[k].state == Assigned && PromoteStage(vs, stage)[k].state == Ready
    ensures PromoteStage(vs, stage)[k].allocatedResource == vs[k].allocatedResource
    ensures Advances(vs[k].state, PromoteStage(vs, stage)[k].state)
  {
    PromoteStageAt(vs, stage, k);
  }

  /** A second scan right after the first finds nothing ready and changes nothing. */
  lemma PromoteStageIdempotent(vs: seq<Vertex>, stage: seq<nat>)
    ensures ReadyIndices(PromoteStage(vs, stage), stage) == {}
    ensures PromoteStage(PromoteStage(vs, stage), stage) == PromoteStage(vs, stage)
  {
    var p := PromoteStage(vs, stage);
    forall k: nat | k < |vs| ensures PromoteStage(p, stage)[k] == p[k] && (k in stage ==> p[k].state != Assigned) {
      PromoteStageAt(vs, stage, k);
      PromoteStageAt(p, stage, k);
    }
  }

  // ----- resourceAllocated: the current-stage search and the full-graph binding -----

  /** A vertex waiting for a resource on the given instance. */
  predicate Replaceable(v: Vertex, instance: InstanceId)
  {
    v.state == Assigning && v.allocatedResource.Some? && v.allocatedResource.value.instance == instance
  }

  /**
   * The resource held by the first vertex of the stage, in walk order, that waits
   * for the given instance; None when no vertex of the stage does.
   */
  function FirstReplaceable(vs: seq<Vertex>, stage: seq<nat>, instance: InstanceId): (r: Option<AllocatedResource>)
    requires WithinGraph(stage, |vs|)
    ensures r.None? <==> forall j :: 0 <= j < |stage| ==> !Replaceable(vs[stage[j]], instance)
    ensures r.Some? ==> exists j :: 0 <= j < |stage| && Replaceable(vs[stage[j]], instance)
                                    && vs[stage[j]].allocatedResource == r
                                    && forall i :: 0 <= i < j ==> !Replaceable(vs[stage[i]], instance)
    decreases |stage|
  {
    if stage == [] then None
    else if Replaceable(vs[stage[0]], instance) then vs[stage[0]].allocatedResource
    else
      var r := FirstReplaceable(vs, stage[1..], instance);
      assert forall j :: 1 <= j < |stage| ==> stage[j] == stage[1..][j - 1];
      r
  }

  /** Every ASSIGNING vertex holding the placeholder is bound to the granted resource and becomes ASSIGNED. */
  function BindGranted(vs: seq<Vertex>, placeholder: AllocatedResource, granted: AllocatedResource): seq<Vertex>
  {
    seq(|vs|, i requires 0 <= i < |vs| =>
      if vs[i].state == Assigning && vs[i].allocatedResource == Some(placeholder)
      then Vertex(Assigned, Some(granted)) else vs[i])
  }

  /** Binding moves exactly the waiting holders of the placeholder forward, and nothing else. */
  lemma BindGrantedExactly(vs: seq<Vertex>, placeholder: AllocatedResource, granted: AllocatedResource, i: nat)
    requires i < |vs|
    ensures |BindGranted(vs, placeholder, granted)| == |vs|
    ensures BindGranted(vs, placeholder, granted)[i].state == Assigned && vs[i].state != Assigned
            <==> vs[i].state == Assigning && vs[i].allocatedResource == Some(placeholder)
    ensures Advances(vs[i].state, BindGranted(vs, placeholder, granted)[i].state)
    ensures vs[i].state == Assigning && vs[i].allocatedResource == Some(placeholder) ==>
              BindGranted(vs, placeholder, granted)[i] == Vertex(Assigned, Some(granted))
    ensures !(vs[i].state == Assigning && vs[i].allocatedResource == Some(placeholder)) ==>
              BindGranted(vs, placeholder, granted)[i] == vs[i]
  {
  }

  /** A repeated grant for the same placeholder finds nobody left to bind. */
  lemma BindGrantedIdempotent(vs: seq<Vertex>, placeholder: AllocatedResource, granted: AllocatedResource)
    ensures BindGranted(BindGranted(vs, placeholder, granted), placeholder, granted)
            == BindGranted(vs, placeholder, granted)
  {
  }

  /** A stage vertex bound by a grant is reported ready by the next scan and ends READY with the grant. */
  lemma GrantThenScan(vs: seq<Vertex>, stage: seq<nat>, placeholder: AllocatedResource,
                      granted: AllocatedResource, k: nat)
    requires k < |vs| && k in stage
    requires vs[k].state == Assigning && vs[k].allocatedResource == Some(placeholder)
    ensures k in ReadyIndices(BindGranted(vs, placeholder, granted), stage)
    ensures PromoteStage(BindGranted(vs, placeholder, granted), stage)[k] == Vertex(Ready, Some(granted))
  {
    PromoteStageAt(BindGranted(vs, placeholder, granted), stage, k);
  }
}
