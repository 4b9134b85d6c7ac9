/**
 The stage system as the code is written: the Job reporter never writes, so runs are silent.  Then no
 pod stage ever gets a record, and the runner never gets past one.
 */
module StageSilence {
  import opened Types
  import opened StageSystem
  import opened StageRuns

  predicate Untouched(s: StageStatus) {
    !Started(s) && !s.running && !s.succeeded && !s.failed
  }

  predicate HasPod(job: MaintenanceJob) {
    exists i :: 0 <= i < |job.spec.stages| && IsPodStage(job.spec.stages[i])
  }

  /** A stage a silent run never works on: the controller does not execute it, or it comes after a pod. */
  predicate Shut(job: MaintenanceJob, j: nat) {
    j < |job.spec.stages| && (!job.spec.stages[j].Managed() || !NoPodBelow(job, j))
  }

  predicate ShutUntouched(job: MaintenanceJob, stages: seq<StageStatus>) {
    forall j :: 0 <= j < |stages| && Shut(job, j) ==> Untouched(stages[j])
  }

  /** The first stage starts no sooner than its delay after the job's creation. */
  predicate FirstInTime(job: MaintenanceJob, stages: seq<StageStatus>) {
    stages != [] && job.spec.stages != [] && job.spec.stages[0].Managed() && Started(stages[0]) ==>
      stages[0].scheduledAt.value >= job.creation + job.spec.stages[0].delay
  }

  predicate SilentOk(job: MaintenanceJob, st: JobStatus) {
    ShutUntouched(job, st.stages) && FirstInTime(job, st.stages) && (HasPod(job) ==> st.succeededAt.None?)
  }

  predicate PassSilent(job: MaintenanceJob, p: Pass) {
    SilentOk(job, p.local.status) && NoPodBelow(job, p.next)
  }

  ghost predicate AllSilent(job: MaintenanceJob, w: World) {
    && (forall v {:trigger w.history[v]} :: 0 <= v < |w.history| ==> SilentOk(job, w.history[v]))
    && SilentOk(job, w.cache.status)
    && (forall c :: c in w.inflight ==> SilentOk(job, c.status))
    && (w.pass.Some? ==> PassSilent(job, w.pass.value))
  }

  // ---------------------------------------------------------------------- one iteration

  lemma LastIsShut(job: MaintenanceJob, st: JobStatus)
    requires HasPod(job) && ShutUntouched(job, st.stages) && |st.stages| == |job.spec.stages|
    ensures !JobSucceeded(job.spec, st)
  {
    assert Shut(job, |job.spec.stages| - 1);
  }

  lemma SetStageSilent(job: MaintenanceJob, st: JobStatus, i: nat, s: StageStatus)
    requires SilentOk(job, st) && i < |st.stages| && !Shut(job, i)
    requires FirstInTime(job, st.stages[i := s])
    ensures SilentOk(job, SetStage(st, i, s))
  {
  }

  /** A stage the runner writes to, or leaves behind, is executed by the controller or has no action. */
  lemma DecideAtOpen(job: MaintenanceJob, w: World, p: Pass, inp: Input)
    requires PassOk(job, w, p) && PassSilent(job, p) && p.next < |p.seen|
    requires Decide(job, p, inp).Commit? || Decide(job, p, inp).Skip?
    ensures p.next < |job.spec.stages| && !IsPodStage(job.spec.stages[p.next])
    ensures Decide(job, p, inp).Commit? ==> !Shut(job, p.next)
  {
    assert p.local.status.stages[p.next] == p.seen[p.next];
  }

  /** What a commit changes: a result, or the record of the stage the pass has come to. */
  lemma CommitChanges(job: MaintenanceJob, w: World, p: Pass, inp: Input)
    requires PassOk(job, w, p) && p.next < |p.seen| && job.spec.stages != [] && Decide(job, p, inp).Commit?
    ensures var i, st, st' := p.next, p.local.status, Decide(job, p, inp).status;
            if p.seen[i].failed then st' == st.(failedAt := st'.failedAt)
            else if p.seen[i].succeeded then JobSucceeded(job.spec, st) && st' == st.(succeededAt := st'.succeededAt)
            else && i < |st.stages| == |st'.stages| && st' == SetStage(st, i, st'.stages[i])
                 && (|| st'.stages[i].scheduledAt == st.stages[i].scheduledAt
                     || StartsInTime(job, st, i, inp, st'.stages[i]))
  {
    assert p.local.status.stages[p.next] == p.seen[p.next];
  }

  predicate StartsInTime(job: MaintenanceJob, st: JobStatus, i: nat, inp: Input, s: StageStatus)
    requires i < |st.stages|
  {
    && i < |job.spec.stages| && s.scheduledAt == Some(inp.stamp)
    && inp.check >= DelayBase(job, st, i) + job.spec.stages[i].delay
  }

  lemma CommitSilent(job: MaintenanceJob, w: World, p: Pass, inp: Input)
    requires PassOk(job, w, p) && PassSilent(job, p) && p.next < |p.seen| && inp.check <= inp.stamp
    requires Decide(job, p, inp).Commit?
    ensures SilentOk(job, Decide(job, p, inp).status)
  {
    var i, st := p.next, p.local.status;
    DecideAtOpen(job, w, p, inp);
    CommitChanges(job, w, p, inp);
    if !p.seen[i].failed {
      if p.seen[i].succeeded {
        if HasPod(job) {
          LastIsShut(job, st);
        }
      } else {
        SetStageSilent(job, st, i, Decide(job, p, inp).status.stages[i]);
      }
    }
  }

  // ---------------------------------------------------------------------- steps

  lemma EffectSilent(job: MaintenanceJob, w: World, p: Pass, e: Effect, net: Net)
    requires AllSilent(job, w) && w.pass == Some(p)
    requires e.Commit? ==> SilentOk(job, e.status) && NoPodBelow(job, p.next + 1)
    requires e.Skip? ==> NoPodBelow(job, p.next + 1)
    ensures AllSilent(job, RunEffect(w, p, e, net))
  {
  }

  lemma IterateSilent(job: MaintenanceJob, w: World, inp: Input)
    requires Inv(job, w) && AllSilent(job, w) && w.pass.Some? && inp.check <= inp.stamp
    ensures AllSilent(job, IteratePass(job, w, inp))
  {
    var p, w' := w.pass.value, w.(now := inp.stamp);
    if p.next < |p.seen| {
      var e := Decide(job, p, inp);
      if e.Commit? || e.Skip? {
        DecideAtOpen(job, w, p, inp);
      }
      if e.Commit? {
        CommitSilent(job, w, p, inp);
      }
      EffectSilent(job, w', p, e, inp.net);
    }
  }

  lemma AnnounceSilent(job: MaintenanceJob, w: World, c: Copy)
    requires AllSilent(job, w) && SilentOk(job, c.status)
    ensures AllSilent(job, AnnounceFrom(job, w, c))
  {
    var stages := c.status.stages;
    if |stages| < |job.spec.stages| {
      CompletedKeeps(job.spec, stages);
      var r := Completed(job.spec, stages);
      assert forall j :: 0 <= j < |stages| ==> r[j] == r[..|stages|][j];
      assert SilentOk(job, c.status.(stages := r));
    }
  }

  lemma StepSilent(job: MaintenanceJob, w: World, step: Step)
    requires Inv(job, w) && AllSilent(job, w) && !step.Report?
    ensures AllSilent(job, Apply(job, w, step))
  {
    match step
    case Iterate(inp) =>
      if w.pass.Some? && w.now <= inp.check <= inp.stamp {
        IterateSilent(job, w, inp);
      }
    case Announce(Cached) => AnnounceSilent(job, w, w.cache);
    case Announce(Past(v)) =>
      if v < |w.history| {
        AnnounceSilent(job, w, Copy(v, w.history[v]));
      }
    case _ =>
  }

  lemma {:induction false} RunSilent(job: MaintenanceJob, now: Time, steps: seq<Step>)
    requires now > ZERO_TIME && Silent(steps)
    ensures AllSilent(job, Execute(job, InitWorld(now), steps))
  {
    if steps != [] {
      var before := steps[..|steps| - 1];
      RunSilent(job, now, before);
      RunKeepsInv(job, now, before);
      StepSilent(job, Execute(job, InitWorld(now), before), steps[|steps| - 1]);
    }
  }

  /** In every silent run a stage without an action, a pod stage, and whatever comes after a pod, is never worked on. */
  lemma ShutStaysUntouched(job: MaintenanceJob, now: Time, steps: seq<Step>, v: nat, j: nat)
    requires now > ZERO_TIME && Silent(steps) && Shut(job, j)
    requires v < |Execute(job, InitWorld(now), steps).history|
    ensures var st := Execute(job, InitWorld(now), steps).history[v];
            j < |st.stages| ==> Untouched(st.stages[j])
  {
    RunSilent(job, now, steps);
    assert SilentOk(job, Execute(job, InitWorld(now), steps).history[v]);
  }

  /**
   As the code is written, a job never gets past its first pod stage: in every silent run neither that
   stage nor any later one is ever started or finished on the server, and no success is recorded.
   */
  lemma StopsAtPod(job: MaintenanceJob, now: Time, steps: seq<Step>, v: nat, i: nat, j: nat)
    requires now > ZERO_TIME && Silent(steps)
    requires i <= j < |job.spec.stages| && IsPodStage(job.spec.stages[i])
    requires v < |Execute(job, InitWorld(now), steps).history|
    ensures var st := Execute(job, InitWorld(now), steps).history[v];
            st.succeededAt.None? && (j < |st.stages| ==> Untouched(st.stages[j]))
  {
    RunSilent(job, now, steps);
    assert SilentOk(job, Execute(job, InitWorld(now), steps).history[v]);
    assert Shut(job, j);
  }
}
