/**
 The recorded result of the jobs of `PodStages`: right in every run of the code as written.  With a
 reporter that writes, right in every run if the job has one stage or ends with a drain or uncordon
 stage; for all others it depends on the reports about the last Job.
 */
module PodResults {
  import opened Types
  import opened JobReporter
  import opened StageSystem
  import opened StageRunner
  import opened StageRuns
  import opened StageProgress
  import opened PodStages

  /** The job has a stage before a last stage that is a pod. */
  predicate EndsWithPod(job: MaintenanceJob) {
    |job.spec.stages| > 1 && !job.spec.stages[|job.spec.stages| - 1].Managed()
  }

  predicate ClaimsBoth(report: BatchStatus) {
    report.succeeded == 1 && report.failed == 1
  }

  /** The step is no report that the last of several stages has succeeded and failed. */
  predicate HonestAtLast(job: MaintenanceJob, step: Step) {
    step.Report? && EndsWithPod(job) && step.name == JobName(job, |job.spec.stages| - 1) ==> !ClaimsBoth(step.status)
  }

  /** The last of several stages is not both succeeded and failed. */
  predicate LastNotBoth(job: MaintenanceJob, st: JobStatus) {
    var n := |job.spec.stages|;
    n > 1 && |st.stages| == n ==> !(st.stages[n - 1].succeeded && st.stages[n - 1].failed)
  }

  predicate Sound(job: MaintenanceJob, st: JobStatus) {
    LastNotBoth(job, st) && ResultOk(job, st)
  }

  ghost predicate AllSound(job: MaintenanceJob, w: World) {
    && (forall v {:trigger Sound(job, w.history[v])} :: 0 <= v < |w.history| ==> Sound(job, w.history[v]))
    && Sound(job, w.cache.status)
    && (forall c {:trigger Sound(job, c.status)} :: c in w.inflight ==> Sound(job, c.status))
    && (w.pass.Some? ==> Sound(job, w.pass.value.local.status))
  }

  /** Giving an unfinished stage a record that keeps the last one right keeps the result right. */
  lemma SetStageSound(job: MaintenanceJob, st: JobStatus, i: nat, s: StageStatus)
    requires Sound(job, st) && i < |st.stages|
    requires !st.stages[i].succeeded && !st.stages[i].failed
    requires i == |job.spec.stages| - 1 && i > 0 ==> !(s.succeeded && s.failed)
    ensures Sound(job, SetStage(st, i, s))
  {
    var st' := SetStage(st, i, s);
    assert st.succeededAt.Some? ==> Done(st.stages[i]);
    if st.failedAt.Some? {
      var f :| 0 <= f < |st.stages| && st.stages[f].failed && st.stages[f].finishedAt == st.failedAt;
      assert st'.stages[f] == st.stages[f];
    }
  }

  lemma FailureSound(job: MaintenanceJob, st: JobStatus, i: nat, t: Option<Time>)
    requires Sound(job, st) && i < |st.stages| && st.stages[i].failed && t == st.stages[i].finishedAt
    ensures Sound(job, st.(failedAt := t))
  {
    assert SomeFailure(st.(failedAt := t).stages, t);
    assert st.succeededAt.Some? ==> Done(st.stages[i]);
  }

  lemma SuccessSound(job: MaintenanceJob, st: JobStatus, i: nat, t: Option<Time>)
    requires Sound(job, st) && InTurn(job, st) && job.spec.stages != [] && JobSucceeded(job.spec, st)
    requires i < |st.stages| && Done(st.stages[i]) && t == st.stages[i].finishedAt && IsSet(t)
    ensures Sound(job, st.(succeededAt := t))
  {
    assert SomeFinish(st.(succeededAt := t).stages, t);
    var last := |st.stages| - 1;
    assert StageInTurn(job, st, last);
    assert Done(st.stages[last]);
    forall j | 0 <= j < |st.stages| ensures Done(st.stages[j]) {
      assert j < last ==> Done(st.stages[j]);
    }
  }

  lemma CommitShape(job: MaintenanceJob, p: Pass, inp: Input)
    requires p.next < |p.seen| == |p.local.status.stages| && p.local.status.stages[p.next] == p.seen[p.next]
    requires job.spec.stages != [] && Decide(job, p, inp).Commit?
    ensures var i, st, s, e := p.next, p.local.status, p.seen[p.next], Decide(job, p, inp);
            if s.failed then e.status == st.(failedAt := s.finishedAt)
            else if s.succeeded then JobSucceeded(job.spec, st) && e.status == st.(succeededAt := s.finishedAt)
            else |e.status.stages| == |st.stages| && e.status == SetStage(st, i, e.status.stages[i])
                 && !(e.status.stages[i].succeeded && e.status.stages[i].failed)
  {
  }

  lemma DecideSound(job: MaintenanceJob, w: World, p: Pass, inp: Input)
    requires PodJob(job) && PassOk(job, w, p) && InTurn(job, p.local.status) && p.next < |p.seen|
    requires Sound(job, p.local.status)
    ensures Decide(job, p, inp).Commit? ==> Sound(job, Decide(job, p, inp).status)
  {
    var i, st, s, e := p.next, p.local.status, p.seen[p.next], Decide(job, p, inp);
    assert st.stages[i] == s;
    if e.Commit? {
      CommitShape(job, p, inp);
      if s.failed {
        FailureSound(job, st, i, s.finishedAt);
      } else if s.succeeded {
        SuccessSound(job, st, i, s.finishedAt);
      } else {
        SetStageSound(job, st, i, e.status.stages[i]);
      }
    }
  }

  lemma EffectSound(job: MaintenanceJob, w: World, p: Pass, e: Effect, net: Net)
    requires AllSound(job, w) && w.pass == Some(p) && (e.Commit? ==> Sound(job, e.status))
    ensures AllSound(job, RunEffect(w, p, e, net))
  {
  }

  lemma IterateSound(job: MaintenanceJob, w: World, inp: Input)
    requires PodJob(job) && AllSound(job, w) && w.pass.Some?
    requires PassOk(job, w, w.pass.value) && InTurn(job, w.pass.value.local.status)
    ensures AllSound(job, IteratePass(job, w, inp))
  {
    var p, w' := w.pass.value, w.(now := inp.stamp);
    if p.next < |p.seen| {
      DecideSound(job, w, p, inp);
      EffectSound(job, w', p, Decide(job, p, inp), inp.net);
    }
  }

  lemma CompletedSound(job: MaintenanceJob, st: JobStatus)
    requires Sound(job, st) && |st.stages| < |job.spec.stages|
    ensures Sound(job, st.(stages := Completed(job.spec, st.stages)))
  {
    CompletedKeeps(job.spec, st.stages);
    var st' := st.(stages := Completed(job.spec, st.stages));
    assert forall j :: 0 <= j < |st.stages| ==> st'.stages[j] == st'.stages[..|st.stages|][j];
    if st.failedAt.Some? {
      var f :| 0 <= f < |st.stages| && st.stages[f].failed && st.stages[f].finishedAt == st.failedAt;
      assert st'.stages[f] == st.stages[f];
    }
  }

  lemma AnnounceSound(job: MaintenanceJob, w: World, c: Copy)
    requires AllSound(job, w) && Sound(job, c.status)
    ensures AllSound(job, AnnounceFrom(job, w, c))
  {
    if |c.status.stages| < |job.spec.stages| {
      CompletedSound(job, c.status);
    }
  }

  lemma ReportSound(job: MaintenanceJob, c: JobStatus, b: BatchJob, report: BatchStatus, now: Time, i: nat)
    requires PodJob(job) && StatusOk(job, c) && Sound(job, c) && LaunchedFor(job, c, b, i)
    requires i == |job.spec.stages| - 1 && EndsWithPod(job) ==> !ClaimsBoth(report)
    ensures var s := StageFromBatch(c.stages[i].name, b, report, now);
            Sound(job, c.(stages := ReportStages(c.stages, c.stages[i].name, s)))
  {
    var s := StageFromBatch(c.stages[i].name, b, report, now);
    assert forall j :: 0 <= j < |c.stages| ==> c.stages[j].name == job.spec.stages[j].name;
    ReportStagesAt(c.stages, i, s);
    assert StageOk(c.stages[i]);
    if !IsSet(c.stages[i].finishedAt) {
      SetStageSound(job, c, i, s);
    }
  }

  lemma SendSound(job: MaintenanceJob, w: World, c: Copy)
    requires AllSound(job, w) && Sound(job, c.status)
    ensures AllSound(job, w.(inflight := w.inflight + {c}))
  {
  }

  lemma ReportCopySound(job: MaintenanceJob, w: World, b: BatchJob, report: BatchStatus, i: nat)
    requires PodJob(job) && StatusOk(job, w.cache.status) && InTurn(job, w.cache.status) && Sound(job, w.cache.status)
    requires LaunchedFor(job, w.cache.status, b, i)
    requires (i == |job.spec.stages| - 1 && EndsWithPod(job) ==> !ClaimsBoth(report))
    ensures var c := ReportCopy(w, job, b, report); c.Some? && Sound(job, c.value.status)
  {
    ReportSound(job, w.cache.status, b, report, w.now, i);
    ReportInTurn(job, w.cache.status, b, report, w.now, i);
  }

  lemma ReportStepSound(job: MaintenanceJob, w: World, name: string, report: BatchStatus)
    requires PodJob(job) && StatusOk(job, w.cache.status) && InTurn(job, w.cache.status)
    requires AllSound(job, w) && AllLaunched(job, w.cache.status, w.batch) && HonestAtLast(job, Report(name, report))
    ensures AllSound(job, Apply(job, w, Report(name, report)))
  {
    if name in w.batch && ValidBatchStatus(report) {
      var b := w.batch[name];
      assert b.name == name && Launched(job, w.cache.status, b);
      var i :| LaunchedFor(job, w.cache.status, b, i);
      ReportCopySound(job, w, b, report, i);
      ReportSends(job, w, name, report);
      SendSound(job, w, ReportCopy(w, job, b, report).value);
    }
  }

  lemma OtherStepSound(job: MaintenanceJob, w: World, step: Step)
    requires AllSound(job, w) && w.history != [] && !step.Iterate? && !step.Report?
    ensures AllSound(job, Apply(job, w, step))
  {
    match step
    case Announce(Cached) => AnnounceSound(job, w, w.cache);
    case Announce(Past(v)) =>
      if v < |w.history| {
        AnnounceSound(job, w, Copy(v, w.history[v]));
      }
    case _ =>
  }

  lemma StepSound(job: MaintenanceJob, w: World, step: Step)
    requires PodJob(job) && PodInv(job, w) && AllSound(job, w) && HonestAtLast(job, step)
    ensures AllSound(job, Apply(job, w, step))
  {
    if step.Iterate? {
      if w.pass.Some? && w.now <= step.input.check <= step.input.stamp {
        IterateSound(job, w, step.input);
      }
    } else if step.Report? {
      ReportStepSound(job, w, step.name, step.status);
    } else {
      OtherStepSound(job, w, step);
    }
  }

  lemma {:induction false} RunSound(job: MaintenanceJob, now: Time, steps: seq<Step>)
    requires PodJob(job) && now > ZERO_TIME
    requires forall i :: 0 <= i < |steps| ==> HonestAtLast(job, steps[i])
    ensures AllSound(job, Execute(job, InitWorld(now), steps))
  {
    if steps != [] {
      var before := steps[..|steps| - 1];
      RunSound(job, now, before);
      PodRun(job, now, before);
      StepSound(job, Execute(job, InitWorld(now), before), steps[|steps| - 1]);
    }
  }

  /** Every result the server ever held is right. */
  ghost predicate ResultsRight(job: MaintenanceJob, w: World) {
    forall v {:trigger w.history[v]} :: 0 <= v < |w.history| ==> ResultOk(job, w.history[v])
  }

  /**
   In every run in which no report claims both success and failure of the last of several stages, a
   recorded result is right: success means that every stage succeeded, failure that some stage
   failed, and the two are never recorded together.  What is reported of other stages does not matter.
   */
  lemma PodJobResults(job: MaintenanceJob, now: Time, steps: seq<Step>)
    requires PodJob(job) && now > ZERO_TIME
    requires forall i :: 0 <= i < |steps| ==> HonestAtLast(job, steps[i])
    ensures ResultsRight(job, Execute(job, InitWorld(now), steps))
  {
    RunSound(job, now, steps);
    var w := Execute(job, InitWorld(now), steps);
    forall v | 0 <= v < |w.history| ensures ResultOk(job, w.history[v]) {
      assert Sound(job, w.history[v]);
    }
  }

  // ---------------------------------------------------------------------- a report that claims both

  const BOTH := BatchStatus(0, 1, 1, None, [])

  predicate HoldsBoth(w: World) {
    w.history != [] && Last(w).succeededAt.Some? && Last(w).failedAt.Some?
  }

  lemma FailsAtLast(job: MaintenanceJob, st: JobStatus, v: World, n: nat, inp: Input)
    requires n < |st.stages| && RecordedTo(v, st, n, v.now) && n > 0 && IsSet(st.stages[n - 1].finishedAt)
    requires st.stages[n].failed && IsSet(st.stages[n].finishedAt)
    ensures HoldsBoth(RunEffect(v.(now := inp.stamp), v.pass.value, Decide(job, v.pass.value, inp), Acked))
  {
    var p := v.pass.value;
    assert Decide(job, p, inp) == Commit(p.local.status.(failedAt := st.stages[n].finishedAt), false);
  }

  /**
   Once the last of several stages is both succeeded and failed, one pass with every write accepted
   records both results.
   */
  lemma {:induction false} PassRecordsBoth(job: MaintenanceJob, w: World, inputs: seq<Input>)
    requires Settled(w) && |Last(w).stages| == |job.spec.stages| == |inputs| > 1
    requires Last(w).succeededAt.None? && Last(w).failedAt.None? && Timely(w.now, inputs) && Smooth(inputs)
    requires var st, n := Last(w), |inputs| - 1;
             && (forall j :: 0 <= j < n ==> Done(st.stages[j]) && IsSet(st.stages[j].finishedAt))
             && st.stages[n].succeeded && st.stages[n].failed && IsSet(st.stages[n].finishedAt)
    ensures HoldsBoth(RunPass(job, w, inputs))
  {
    var n := |inputs| - 1;
    SuccessPass(job, w, inputs, n);
    var v := RunPass(job, w, inputs[..n]);
    RunPassStep(job, w, inputs, n, v, v.pass.value);
    assert inputs[..n + 1] == inputs;
    FailsAtLast(job, Last(w), v, n, inputs[n]);
  }

  lemma ReachesPass(job: MaintenanceJob, w: World, v: World, inputs: seq<Input>)
    requires Reaches(job, w, v, false)
    ensures Reaches(job, w, RunPass(job, v, inputs), false)
  {
    RunPassIsRun(job, v, inputs);
    ReachesSteps(job, w, v, PassSteps(inputs), false);
  }

  /** The last stage of every such job can come to be reported as both. */
  lemma ReportedBoth(job: MaintenanceJob, now: Time) returns (w: World)
    requires PodJob(job) && now > ZERO_TIME && EndsWithPod(job)
    ensures Reaches(job, InitWorld(now), w, false) && Settled(w) && |Last(w).stages| == |job.spec.stages|
    ensures Last(w).succeededAt.None? && Last(w).failedAt.None?
    ensures var st, n := Last(w), |job.spec.stages| - 1;
            && (forall j :: 0 <= j < n ==> Done(st.stages[j]) && IsSet(st.stages[j].finishedAt))
            && st.stages[n].succeeded && st.stages[n].failed && IsSet(st.stages[n].finishedAt)
  {
    var n := |job.spec.stages| - 1;
    var u := ReachesStage(job, now, n, false);
    var v := Waits(job, u, n, false);
    RunsPod(job, v, n, BOTH);
    var b := GenerateJob(job, job.spec.stages[n], v.now);
    w := Written(v.(batch := v.batch[JobName(job, n) := b]),
                 SetStage(Last(v), n, StageFromBatch(job.spec.stages[n].name, b, BOTH, v.now)));
    ReachesOn(job, InitWorld(now), u, v, false);
    ReachesOn(job, InitWorld(now), v, w, false);
  }

  /**
   With a reporter that writes, every job that ends with a pod after other stages has a run after which
   the server holds both results at once.
   */
  lemma DishonestRun(job: MaintenanceJob, now: Time) returns (steps: seq<Step>)
    requires PodJob(job) && now > ZERO_TIME && EndsWithPod(job)
    ensures HoldsBoth(Execute(job, InitWorld(now), steps))
  {
    var w := ReportedBoth(job, now);
    var inputs := seq(|job.spec.stages|, i => Input(w.now, w.now, ActionOk, Acked));
    PassRecordsBoth(job, w, inputs);
    ReachesPass(job, InitWorld(now), w, inputs);
    steps :| Execute(job, InitWorld(now), steps) == RunPass(job, w, inputs);
  }

  /** As the code is written the results of these jobs are right in every run. */
  lemma SilentPodResults(job: MaintenanceJob, now: Time, steps: seq<Step>)
    requires PodJob(job) && now > ZERO_TIME && Silent(steps)
    ensures ResultsRight(job, Execute(job, InitWorld(now), steps))
  {
    assert forall i :: 0 <= i < |steps| ==> HonestAtLast(job, steps[i]);
    PodJobResults(job, now, steps);
  }

  /** With a reporter that writes: exactly which of these jobs have right results in all runs, whatever is reported. */
  lemma PodResultsIff(job: MaintenanceJob, now: Time)
    requires PodJob(job) && now > ZERO_TIME
    ensures (forall steps :: ResultsRight(job, Execute(job, InitWorld(now), steps)))
       <==> |job.spec.stages| == 1 || job.spec.stages[|job.spec.stages| - 1].Managed()
  {
    if EndsWithPod(job) {
      var steps := DishonestRun(job, now);
      var w := Execute(job, InitWorld(now), steps);
      assert !ResultOk(job, w.history[|w.history| - 1]);
      assert !ResultsRight(job, Execute(job, InitWorld(now), steps));
    } else {
      forall steps: seq<Step> ensures ResultsRight(job, Execute(job, InitWorld(now), steps)) {
        assert forall i :: 0 <= i < |steps| ==> HonestAtLast(job, steps[i]);
        PodJobResults(job, now, steps);
      }
    }
  }
}
