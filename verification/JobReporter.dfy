/**
 The Job reporter (`onJobUpdated`) and the Job it reports on (`generateJob`).

 A pod stage runs as a Kubernetes Job.  When such a Job changes, the reporter finds the
 MaintenanceJob and the stage it belongs to, and rewrites that stage's status record in a deep
 copy of the cached object.
 */
module JobReporter {
  import opened Types

  const STAGE_LABEL := "maintenance.arhat.dev/stage"

  /** A Job's own status; of each condition the reason and the message. */
  datatype BatchStatus = BatchStatus(
    active: int, succeeded: int, failed: int, completionTime: Option<Time>,
    conditions: seq<(string, string)>)

  datatype BatchJob = BatchJob(
    name: string, namespace: string, labels: map<string, string>, owners: seq<OwnerRef>, creation: Time)

  /** The Job created for a pod stage of `job`; the API server stamps its creation time. */
  function GenerateJob(job: MaintenanceJob, stage: StageSpec, creation: Time): (b: BatchJob)
  {
    BatchJob(
      job.name + "." + stage.name,
      job.namespace,
      job.labels[STAGE_LABEL := stage.name],
      [OwnerRef("MaintenanceJob", job.name, job.uid, Some(true), Some(true))],
      creation)
  }

  /** Which MaintenanceJob (by namespace and name) and which stage name a Job reports on, if any. */
  function Route(b: BatchJob): (r: Option<(string, string, string)>)
  {
    match ControllerOf(b.owners)
    case None => None
    case Some(ref) =>
      if ref.kind != "MaintenanceJob" || STAGE_LABEL !in b.labels then None
      else Some((b.namespace, ref.name, b.labels[STAGE_LABEL]))
  }

  /** A Job is routed exactly if its first controller is a MaintenanceJob and it carries the stage label. */
  lemma RouteIff(b: BatchJob, i: nat)
    requires i <= |b.owners| && forall j :: 0 <= j < i ==> b.owners[j].controller != Some(true)
    requires i < |b.owners| ==> b.owners[i].controller == Some(true)
    ensures Route(b) ==
              if i < |b.owners| && b.owners[i].kind == "MaintenanceJob" && "maintenance.arhat.dev/stage" in b.labels
              then Some((b.namespace, b.owners[i].name, b.labels["maintenance.arhat.dev/stage"]))
              else None
  {
    FirstController(b.owners, i);
  }

  lemma {:induction false} FirstController(owners: seq<OwnerRef>, i: nat)
    requires i <= |owners| && forall j :: 0 <= j < i ==> owners[j].controller != Some(true)
    requires i < |owners| ==> owners[i].controller == Some(true)
    ensures ControllerOf(owners) == if i < |owners| then Some(owners[i]) else None
  {
    if i > 0 {
      FirstController(owners[1..], i - 1);
    }
  }

  /**
   The stage record derived from a Job's own status.  It has succeeded, failed or is running exactly at a
   count of 1, and carries reason and message of the last condition; `now` is used when there is no
   completion time.
   */
  function StageFromBatch(stageName: string, b: BatchJob, st: BatchStatus, now: Time): (s: StageStatus)
    ensures s.name == stageName
    ensures s.finishedAt.Some? <==> s.succeeded || s.failed
    ensures s.scheduledAt == Some(b.creation)
    ensures (s.running <==> st.active == 1) && (s.succeeded <==> st.succeeded == 1) && (s.failed <==> st.failed == 1)
    ensures s.finishedAt.Some? ==> s.finishedAt == if st.completionTime.Some? then st.completionTime else Some(now)
    ensures st.conditions == [] ==> s.reason == "" && s.message == ""
    ensures st.conditions != [] ==> (s.reason, s.message) == st.conditions[|st.conditions| - 1]
  {
    var done := st.succeeded == 1 || st.failed == 1;
    StageStatus(
      stageName,
      Some(b.creation),
      if !done then None else if st.completionTime.Some? then st.completionTime else Some(now),
      if st.conditions == [] then "" else st.conditions[|st.conditions| - 1].1,
      if st.conditions == [] then "" else st.conditions[|st.conditions| - 1].0,
      st.active == 1, st.succeeded == 1, st.failed == 1)
  }

  /** The reporter's scan: every record of that name is replaced, up to the first one already finished. */
  function ReportStages(stages: seq<StageStatus>, stageName: string, s: StageStatus): (r: seq<StageStatus>)
    ensures |r| == |stages|
  {
    if stages == [] then []
    else if stages[0].name != stageName then [stages[0]] + ReportStages(stages[1..], stageName, s)
    else if IsSet(stages[0].finishedAt) then stages
    else [s] + ReportStages(stages[1..], stageName, s)
  }

  /** For any input the scan leaves each record alone, or replaces an unfinished record of that name. */
  lemma {:induction false} ReportStagesPointwise(stages: seq<StageStatus>, stageName: string, s: StageStatus, j: nat)
    requires j < |stages|
    ensures var r := ReportStages(stages, stageName, s)[j];
            || r == stages[j]
            || (r == s && stages[j].name == stageName && !IsSet(stages[j].finishedAt))
  {
    if j > 0 {
      ReportStagesPointwise(stages[1..], stageName, s, j - 1);
    }
  }

  /** Records of other names are passed over. */
  lemma {:induction false} ReportStagesPrefix(stages: seq<StageStatus>, i: nat, stageName: string, s: StageStatus)
    requires i <= |stages|
    requires forall j :: 0 <= j < i ==> stages[j].name != stageName
    ensures ReportStages(stages, stageName, s) == stages[..i] + ReportStages(stages[i..], stageName, s)
  {
    if i > 0 {
      var rest := stages[1..];
      ReportStagesPrefix(rest, i - 1, stageName, s);
      assert stages[i..] == rest[i - 1..];
      assert stages[..i] == [stages[0]] + rest[..i - 1];
      var after := ReportStages(stages[i..], stageName, s);
      var all := ReportStages(stages, stageName, s);
      assert all == [stages[0]] + (rest[..i - 1] + after) == [stages[0]] + rest[..i - 1] + after;
    } else {
      assert stages[0..] == stages;
    }
  }

  /** If no other stage has its name, the scan touches one position: that stage, if it is unfinished. */
  lemma ReportStagesAt(stages: seq<StageStatus>, i: nat, s: StageStatus)
    requires i < |stages|
    requires forall j :: 0 <= j < |stages| && j != i ==> stages[j].name != stages[i].name
    ensures ReportStages(stages, stages[i].name, s) == if IsSet(stages[i].finishedAt) then stages else stages[i := s]
  {
    var name, rest := stages[i].name, stages[i..];
    ReportStagesPrefix(stages, i, name, s);
    if IsSet(stages[i].finishedAt) {
      assert ReportStages(rest, name, s) == rest;
      assert stages == stages[..i] + rest;
    } else {
      var after := stages[i + 1..];
      assert rest[1..] == after;
      ReportStagesNone(after, name, s);
      assert ReportStages(rest, name, s) == [s] + after;
      assert stages[i := s] == stages[..i] + ([s] + after);
    }
  }

  lemma {:induction false} ReportStagesNone(stages: seq<StageStatus>, stageName: string, s: StageStatus)
    requires forall j :: 0 <= j < |stages| ==> stages[j].name != stageName
    ensures ReportStages(stages, stageName, s) == stages
  {
    if stages != [] {
      ReportStagesNone(stages[1..], stageName, s);
      assert stages == [stages[0]] + stages[1..];
    }
  }

  /**
   Report routing is a round trip: the Job generated for stage `i` is routed back to that
   MaintenanceJob and to position `i` of its status, every other record is left alone, and labels of
   the MaintenanceJob itself cannot misroute it.
   */
  lemma RoutingRoundTrip(job: MaintenanceJob, i: nat, stages: seq<StageStatus>, creation: Time, s: StageStatus)
    requires i < |job.spec.stages| == |stages|
    requires forall j :: 0 <= j < |stages| ==> stages[j].name == job.spec.stages[j].name
    requires forall j :: 0 <= j < |stages| && j != i ==> stages[j].name != stages[i].name
    ensures Route(GenerateJob(job, job.spec.stages[i], creation)) == Some((job.namespace, job.name, stages[i].name))
    ensures ReportStages(stages, stages[i].name, s) == if IsSet(stages[i].finishedAt) then stages else stages[i := s]
  {
    ReportStagesAt(stages, i, s);
  }

  /** `Equal` on two optional timestamps: both nil, or both present and equal. */
  predicate SameInstant(a: Option<Time>, b: Option<Time>) {
    a == b
  }

  /** The change detection as written: the fifth comparison is between the old finish time and itself. */
  predicate ChangeDetected(previous: StageStatus, derived: StageStatus) {
    if SameInstant(previous.scheduledAt, derived.scheduledAt) then false
    else if previous.running == derived.running then false
    else if previous.succeeded == derived.succeeded then false
    else if previous.failed == derived.failed then false
    else if SameInstant(previous.finishedAt, previous.finishedAt) then false
    else if previous.reason == derived.reason then false
    else if previous.message == derived.message then false
    else true
  }

  /**
   The loop of `onJobUpdated` as written.  It computes exactly `ReportStages`, and its decision to
   write is always no, because `ChangeDetected` never holds.
   */
  method ComputeReport(stages: seq<StageStatus>, stageName: string, derived: StageStatus)
    returns (updated: seq<StageStatus>, needToUpdate: bool)
    ensures updated == ReportStages(stages, stageName, derived)
    ensures !needToUpdate
  {
    updated := stages;
    needToUpdate := false;
    var i := 0;
    while i < |stages|
      invariant 0 <= i <= |stages|
      invariant ReportedTo(stages, i, stageName, derived, updated)
      invariant !needToUpdate
    {
      ReportStep(stages, i, stageName, derived, updated);
      if stages[i].name == stageName {
        if IsSet(stages[i].finishedAt) {
          break;
        }
        needToUpdate := needToUpdate || ChangeDetected(stages[i], derived);
        updated := updated[i := derived];
      }
      i := i + 1;
    }
    ReportedAll(stages, i, stageName, derived, updated);
  }

  /** The scan has reached position `i`: what is left of it is the scan of the rest. */
  predicate ReportedTo(
    stages: seq<StageStatus>, i: nat, stageName: string, derived: StageStatus, updated: seq<StageStatus>)
  {
    && i <= |stages| == |updated|
    && updated[i..] == stages[i..]
    && updated[..i] + ReportStages(stages[i..], stageName, derived) == ReportStages(stages, stageName, derived)
  }

  lemma ReportStep(stages: seq<StageStatus>, i: nat, stageName: string, derived: StageStatus, updated: seq<StageStatus>)
    requires i < |stages| && ReportedTo(stages, i, stageName, derived, updated)
    ensures stages[i].name == stageName ==>
              IsSet(stages[i].finishedAt) || ReportedTo(stages, i + 1, stageName, derived, updated[i := derived])
    ensures stages[i].name != stageName ==> ReportedTo(stages, i + 1, stageName, derived, updated)
  {
    var rest, after := stages[i..], ReportStages(stages[i + 1..], stageName, derived);
    assert rest[1..] == stages[i + 1..];
    if stages[i].name == stageName && !IsSet(stages[i].finishedAt) {
      var u := updated[i := derived];
      assert ReportStages(rest, stageName, derived) == [derived] + after;
      assert u[..i + 1] + after == updated[..i] + ([derived] + after);
      assert u[i + 1..] == updated[i..][1..];
    } else if stages[i].name != stageName {
      assert updated[i] == updated[i..][0] == stages[i];
      assert ReportStages(rest, stageName, derived) == [stages[i]] + after;
      assert updated[..i + 1] + after == updated[..i] + ([stages[i]] + after);
      assert updated[i + 1..] == updated[i..][1..];
    }
  }

  lemma ReportedAll(
    stages: seq<StageStatus>, i: nat, stageName: string, derived: StageStatus, updated: seq<StageStatus>)
    requires ReportedTo(stages, i, stageName, derived, updated)
    requires i < |stages| ==> stages[i].name == stageName && IsSet(stages[i].finishedAt)
    ensures updated == ReportStages(stages, stageName, derived)
  {
    assert ReportStages(stages[i..], stageName, derived) == stages[i..];
    assert updated == updated[..i] + updated[i..];
  }
}
