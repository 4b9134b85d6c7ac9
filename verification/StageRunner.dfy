/**
 The stage runner `scheduleMaintenanceJob` as the imperative loop it is: it edits the cached object in
 place, replaces its pointer by the server's answer after an accepted write, and returns early.  It is
 proved to do exactly what the steps `Begin` and `Iterate` of `StageSystem` do, so that every result
 about runs holds of it.
 */
module StageRunner {
  import opened Types
  import opened JobReporter
  import opened StageSystem

  /** A pass that runs without interruption: `Begin`, then one `Iterate` per input. */
  function RunPass(job: MaintenanceJob, w: World, inputs: seq<Input>): World {
    if inputs == [] then Apply(job, w, Begin)
    else Apply(job, RunPass(job, w, inputs[..|inputs| - 1]), Iterate(inputs[|inputs| - 1]))
  }

  function PassSteps(inputs: seq<Input>): (r: seq<Step>)
    ensures |r| == |inputs| + 1
  {
    if inputs == [] then [Begin] else PassSteps(inputs[..|inputs| - 1]) + [Iterate(inputs[|inputs| - 1])]
  }

  /** An uninterrupted pass is a run, so it keeps whatever all runs keep. */
  lemma {:induction false} RunPassIsRun(job: MaintenanceJob, w: World, inputs: seq<Input>)
    ensures RunPass(job, w, inputs) == Execute(job, w, PassSteps(inputs))
  {
    var steps := PassSteps(inputs);
    if inputs != [] {
      RunPassIsRun(job, w, inputs[..|inputs| - 1]);
      assert steps[..|steps| - 1] == PassSteps(inputs[..|inputs| - 1]);
    } else {
      assert Execute(job, w, steps[..0]) == w;
    }
  }

  /** Once the pass has returned, inputs it did not use have no effect. */
  lemma {:induction false} RunPassEnds(job: MaintenanceJob, w: World, inputs: seq<Input>, k: nat)
    requires k <= |inputs| && RunPass(job, w, inputs[..k]).pass.None?
    ensures RunPass(job, w, inputs) == RunPass(job, w, inputs[..k])
  {
    if k < |inputs| {
      assert inputs[..|inputs| - 1][..k] == inputs[..k];
      RunPassEnds(job, w, inputs[..|inputs| - 1], k);
    } else {
      assert inputs[..k] == inputs;
    }
  }

  lemma {:induction false} RunPassKeepsInv(job: MaintenanceJob, w: World, inputs: seq<Input>)
    requires Inv(job, w)
    ensures Inv(job, RunPass(job, w, inputs))
  {
    if inputs == [] {
      StepKeepsInv(job, w, Begin);
    } else {
      RunPassKeepsInv(job, w, inputs[..|inputs| - 1]);
      StepKeepsInv(job, RunPass(job, w, inputs[..|inputs| - 1]), Iterate(inputs[|inputs| - 1]));
    }
  }

  /** One more input is one more loop iteration, or the end of the loop. */
  lemma RunPassStep(job: MaintenanceJob, w: World, inputs: seq<Input>, i: nat, v: World, p: Pass)
    requires i < |inputs| && v == RunPass(job, w, inputs[..i]) && v.pass == Some(p)
    requires v.now <= inputs[i].check <= inputs[i].stamp
    requires |p.seen| == |p.local.status.stages|
    ensures RunPass(job, w, inputs[..i + 1]) ==
              if p.next < |p.seen|
              then RunEffect(v.(now := inputs[i].stamp), p, Decide(job, p, inputs[i]), inputs[i].net)
              else v.(now := inputs[i].stamp, pass := None)
  {
    assert inputs[..i + 1][..i] == inputs[..i];
  }

  /** The clock readings of consecutive iterations, none earlier than `now`. */
  predicate Timely(now: Time, inputs: seq<Input>) {
    && (forall i :: 0 <= i < |inputs| ==> now <= inputs[i].check <= inputs[i].stamp)
    && (forall i, j :: 0 <= i < j < |inputs| ==> inputs[i].stamp <= inputs[j].check)
  }

  /** The loop of `onMaintenanceJobAdded` that gives every spec stage a record. */
  method CompleteStages(spec: JobSpec, stages: seq<StageStatus>) returns (r: seq<StageStatus>)
    requires |stages| <= |spec.stages|
    ensures r == Completed(spec, stages)
  {
    r := stages;
    for i := |stages| to |spec.stages|
      invariant |r| == i
      invariant Completed(spec, r) == Completed(spec, stages)
    {
      r := r + [EmptyStage(spec.stages[i].name)];
    }
  }

  class JobObject {
    var version: nat
    var status: JobStatus

    constructor (version: nat, status: JobStatus)
      ensures this.version == version && this.status == status
    {
      this.version := version;
      this.status := status;
    }
  }

  class Runner {
    const job: MaintenanceJob
    var history: seq<JobStatus>
    var cached: JobObject
    var batch: map<string, BatchJob>
    var now: Time
    var fault: bool

    constructor (job: MaintenanceJob, history: seq<JobStatus>, cached: JobObject, now: Time)
      ensures this.job == job && this.history == history && this.cached == cached
      ensures batch == map[] && this.now == now && !fault
    {
      this.job, this.history, this.cached, this.now := job, history, cached, now;
      batch, fault := map[], false;
    }

    /** The world as this controller sees it, with the writes `inflight` of other parties. */
    ghost function View(p: Option<Pass>, inflight: set<Copy>): World
      reads this, cached
    {
      World(history, Copy(cached.version, cached.status), p, inflight, batch, now, fault)
    }

    ghost function PassAt(next: nat, seen: seq<StageStatus>, mtJob: JobObject): Pass
      reads this, mtJob
    {
      Pass(next, seen, Copy(mtJob.version, mtJob.status), mtJob == cached)
    }

    /** The API write: it needs the current version, and may be applied although the caller sees an error. */
    method UpdateStatus(mtJob: JobObject, net: Net) returns (answer: JobObject?)
      modifies this`history
      ensures var applied := !net.Refused? && mtJob.version == |old(history)| - 1;
              && history == (if applied then old(history) + [mtJob.status] else old(history))
              && (answer != null <==> applied && net.Acked?)
              && (answer != null ==> fresh(answer) && answer.version == |old(history)| && answer.status == mtJob.status)
    {
      answer := null;
      if !net.Refused? && mtJob.version == |history| - 1 {
        history := history + [mtJob.status];
        if net.Acked? {
          answer := new JobObject(|history| - 1, mtJob.status);
        }
      }
    }

    /** Edits `mtJob`, writes it, and hands back the object to go on with, if the pass goes on. */
    method Commit(
      mtJob: JobObject, st: JobStatus, net: Net, resume: bool, ghost next: nat, ghost seen: seq<StageStatus>,
      ghost inflight: set<Copy>)
      returns (goOn: JobObject?)
      modifies this`history, mtJob`status
      ensures goOn != null ==> fresh(goOn)
      ensures View(if goOn == null then None else Some(PassAt(next + 1, seen, goOn)), inflight)
           == old(CommitStatus(
                View(Some(PassAt(next, seen, mtJob)), inflight), PassAt(next, seen, mtJob), st, resume, net))
    {
      mtJob.status := st;
      var answer := UpdateStatus(mtJob, net);
      goOn := if resume then answer else null;
    }

    /** The body of the stage loop; a null result means that the pass returns. */
    method RunStage(mtJob: JobObject, i: nat, seen: seq<StageStatus>, inp: Input, ghost inflight: set<Copy>)
      returns (goOn: JobObject?)
      requires i < |seen| == |mtJob.status.stages|
      modifies this`history, this`batch, this`now, this`fault, mtJob`status
      ensures now == inp.stamp
      ensures goOn != null ==> goOn == mtJob || fresh(goOn)
      ensures View(if goOn == null then None else Some(PassAt(i + 1, seen, goOn)), inflight)
           == old(RunEffect(View(Some(PassAt(i, seen, mtJob)), inflight).(now := inp.stamp),
                            PassAt(i, seen, mtJob), Decide(job, PassAt(i, seen, mtJob), inp), inp.net))
      ensures goOn != null ==> |goOn.status.stages| == |seen|
    {
      now := inp.stamp;
      var s := seen[i];
      goOn := null;
      if s.failed {
        if IsSet(s.finishedAt) {
          goOn := Commit(mtJob, mtJob.status.(failedAt := s.finishedAt), inp.net, false, i, seen, inflight);
        }
      } else if s.succeeded {
        if IsSet(s.finishedAt) {
          if JobSucceeded(job.spec, mtJob.status) {
            goOn := Commit(mtJob, mtJob.status.(succeededAt := s.finishedAt), inp.net, true, i, seen, inflight);
          } else {
            goOn := mtJob;
          }
        }
      } else if i >= |job.spec.stages| {
        fault := true;
      } else if s.running {
        goOn := RunRunning(mtJob, job.spec.stages[i], i, seen, inp, inflight);
      } else {
        goOn := RunIdle(mtJob, job.spec.stages[i], i, seen, inp, inflight);
      }
    }

    method RunRunning(
      mtJob: JobObject, spec: StageSpec, i: nat, seen: seq<StageStatus>, inp: Input, ghost inflight: set<Copy>)
      returns (goOn: JobObject?)
      requires i < |seen| == |mtJob.status.stages|
      modifies this`history, this`fault, mtJob`status
      ensures goOn == null
      ensures View(None, inflight)
           == old(RunEffect(View(Some(PassAt(i, seen, mtJob)), inflight), PassAt(i, seen, mtJob),
                            DecideRunning(spec, mtJob.status, i, seen[i], inp), inp.net))
    {
      var st := mtJob.status;
      goOn := null;
      if !spec.Managed() {
      } else if seen[i].scheduledAt.None? {
        fault := true;
      } else if inp.check > seen[i].scheduledAt.value + spec.timeout {
        var s := StageTimedOut(st.stages[i], inp.stamp);
        goOn := Commit(mtJob, SetStage(st, i, s), inp.net, false, i, seen, inflight);
      } else if spec.drain.None? {
        fault := true;
      } else if inp.action.ActionError? {
        var s := StageRetried(st.stages[i], inp.action.message);
        goOn := Commit(mtJob, SetStage(st, i, s), inp.net, false, i, seen, inflight);
      } else {
        goOn := Commit(mtJob, SetStage(st, i, StageDone(st.stages[i], inp.stamp)), inp.net, false, i, seen, inflight);
      }
    }

    method RunIdle(
      mtJob: JobObject, spec: StageSpec, i: nat, seen: seq<StageStatus>, inp: Input, ghost inflight: set<Copy>)
      returns (goOn: JobObject?)
      requires i < |seen| == |mtJob.status.stages|
      requires i < |job.spec.stages| && spec == job.spec.stages[i]
      requires !seen[i].failed && !seen[i].succeeded && !seen[i].running
      modifies this`history, this`batch, mtJob`status
      ensures goOn != null ==> goOn == mtJob || fresh(goOn)
      ensures goOn != null ==> |goOn.status.stages| == |seen|
      ensures View(if goOn == null then None else Some(PassAt(i + 1, seen, goOn)), inflight)
           == old(RunEffect(View(Some(PassAt(i, seen, mtJob)), inflight), PassAt(i, seen, mtJob),
                            Decide(job, PassAt(i, seen, mtJob), inp), inp.net))
    {
      var st := mtJob.status;
      goOn := null;
      if inp.check < DelayBase(job, st, i) + spec.delay {
      } else if spec.Managed() {
        goOn := Commit(mtJob, SetStage(st, i, StageStarted(st.stages[i], inp.stamp)), inp.net, true, i, seen, inflight);
      } else if spec.pod.Some? {
        var b := GenerateJob(job, spec, inp.stamp);
        if !inp.net.Refused? && b.name !in batch {
          batch := batch[b.name := b];
        }
      } else {
        goOn := mtJob;
      }
    }

    /** One loop iteration, stated in terms of the whole pass so far. */
    method NextStage(
      mtJob: JobObject, i: nat, seen: seq<StageStatus>, inputs: seq<Input>, ghost w: World,
      ghost inflight: set<Copy>)
      returns (goOn: JobObject?)
      requires i < |seen| == |mtJob.status.stages| && i < |inputs|
      requires now <= inputs[i].check <= inputs[i].stamp
      requires View(Some(PassAt(i, seen, mtJob)), inflight) == RunPass(job, w, inputs[..i])
      modifies this`history, this`batch, this`now, this`fault, mtJob`status
      ensures now == inputs[i].stamp
      ensures goOn != null ==> (goOn == mtJob || fresh(goOn)) && |goOn.status.stages| == |seen|
      ensures goOn != null ==> View(Some(PassAt(i + 1, seen, goOn)), inflight) == RunPass(job, w, inputs[..i + 1])
      ensures goOn == null ==> View(None, inflight) == RunPass(job, w, inputs)
    {
      RunPassStep(job, w, inputs, i, View(Some(PassAt(i, seen, mtJob)), inflight), PassAt(i, seen, mtJob));
      goOn := RunStage(mtJob, i, seen, inputs[i], inflight);
      if goOn == null {
        RunPassEnds(job, w, inputs, i + 1);
      }
    }

    /** The loop over the stages the cached object had when the pass began. */
    method RunStages(seen: seq<StageStatus>, inputs: seq<Input>, ghost w: World, ghost inflight: set<Copy>)
      requires |inputs| > |seen| == |cached.status.stages| && Timely(now, inputs)
      requires View(Some(PassAt(0, seen, cached)), inflight) == RunPass(job, w, inputs[..0])
      modifies this`history, this`batch, this`now, this`fault, cached`status
      ensures View(None, inflight) == RunPass(job, w, inputs)
    {
      var mtJob := cached;
      var i := 0;
      while i < |seen|
        invariant 0 <= i <= |seen|
        invariant mtJob == cached || fresh(mtJob)
        invariant |mtJob.status.stages| == |seen|
        invariant now == if i == 0 then old(now) else inputs[i - 1].stamp
        invariant View(Some(PassAt(i, seen, mtJob)), inflight) == RunPass(job, w, inputs[..i])
      {
        var goOn := NextStage(mtJob, i, seen, inputs, w, inflight);
        if goOn == null {
          return;
        }
        mtJob := goOn;
        i := i + 1;
      }
      EndPass(mtJob, seen, inputs, w, inflight);
    }

    /** The loop is over. */
    method EndPass(
      mtJob: JobObject, seen: seq<StageStatus>, inputs: seq<Input>, ghost w: World, ghost inflight: set<Copy>)
      requires |inputs| > |seen| == |mtJob.status.stages| && now <= inputs[|seen|].check <= inputs[|seen|].stamp
      requires View(Some(PassAt(|seen|, seen, mtJob)), inflight) == RunPass(job, w, inputs[..|seen|])
      modifies this`now
      ensures View(None, inflight) == RunPass(job, w, inputs)
    {
      var i := |seen|;
      RunPassStep(job, w, inputs, i, View(Some(PassAt(i, seen, mtJob)), inflight), PassAt(i, seen, mtJob));
      now := inputs[i].stamp;
      RunPassEnds(job, w, inputs, i + 1);
    }

    /** One pass of the stage runner over the cached object. */
    method ScheduleMaintenanceJob(inputs: seq<Input>, ghost inflight: set<Copy>)
      requires |inputs| > |cached.status.stages| && Timely(now, inputs)
      modifies this`history, this`batch, this`now, this`fault, cached`status
      ensures View(None, inflight) == old(RunPass(job, View(None, inflight), inputs))
    {
      ghost var w := View(None, inflight);
      assert RunPass(job, w, inputs[..0]) == BeginPass(w);
      if cached.status.succeededAt.Some? || cached.status.failedAt.Some? {
        RunPassEnds(job, w, inputs, 0);
      } else {
        RunStages(cached.status.stages, inputs, w, inflight);
      }
    }
  }
}
