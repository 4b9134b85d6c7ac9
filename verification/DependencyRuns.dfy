/**
 What the dependency gate makes of the statuses that MaintenanceJobs reach.  The gate looks at the last
 stage only; this module says, over all runs, what that tells of the job.
 */
module DependencyRuns {
  import opened Types
  import opened StageSystem
  import opened StageRuns
  import opened StageSilence
  import opened DrainStages
  import opened PodStages
  import opened PodResults
  import opened DependencyGate

  /** The MaintenanceJob with the status the server held at version `v` of a run. */
  function JobAt(job: MaintenanceJob, now: Time, steps: seq<Step>, v: nat): MaintenanceJob
    requires v < |Execute(job, InitWorld(now), steps).history|
  {
    job.(status := Execute(job, InitWorld(now), steps).history[v])
  }

  predicate AllStagesSucceeded(job: MaintenanceJob) {
    && |job.status.stages| == |job.spec.stages|
    && forall j :: 0 <= j < |job.status.stages| ==> job.status.stages[j].succeeded
  }

  predicate LastStageFailed(job: MaintenanceJob) {
    && |job.status.stages| == |job.spec.stages| > 0
    && job.status.stages[|job.status.stages| - 1].failed
  }

  /** The last record of a job, if there is one for each stage, has no finish time. */
  predicate LastStageOpen(job: MaintenanceJob) {
    && |job.status.stages| == |job.spec.stages| > 0
    && job.status.stages[|job.status.stages| - 1].finishedAt.None?
  }

  /**
   In every run of a drain and uncordon job, at every version: success is met exactly if all stages have
   succeeded, failure exactly if the last one has failed, and never both.
   */
  lemma DrainJobMeets(job: MaintenanceJob, now: Time, steps: seq<Step>, v: nat)
    requires ManagedOnly(job) && now > ZERO_TIME
    requires v < |Execute(job, InitWorld(now), steps).history|
    ensures var j := JobAt(job, now, steps, v);
            && (Meets("", j) <==> AllStagesSucceeded(j))
            && (Meets("succeeded", j) <==> AllStagesSucceeded(j))
            && (Meets("failed", j) <==> LastStageFailed(j))
            && !(Meets("", j) && Meets("failed", j))
            && (LastStageOpen(j) ==> !Meets("", j) && !Meets("failed", j))
  {
    DrainRun(job, now, steps);
    var st := JobAt(job, now, steps, v).status;
    assert Good(job, st) && StatusOk(job, st);
    if |st.stages| == |job.spec.stages| {
      var last := |st.stages| - 1;
      assert StageOk(st.stages[last]) && Exclusive(st.stages[last]);
      if st.stages[last].succeeded {
        LastDoneAllDone(job, st);
      }
    }
  }

  /**
   In every run of a pod job, whatever is reported: success is met exactly if all stages have succeeded,
   failure exactly if the last one has failed; both at once only if it is reported so.
   */
  lemma PodJobMeets(job: MaintenanceJob, now: Time, steps: seq<Step>, v: nat)
    requires PodJob(job) && now > ZERO_TIME
    requires v < |Execute(job, InitWorld(now), steps).history|
    ensures var j := JobAt(job, now, steps, v);
            && (Meets("", j) <==> AllStagesSucceeded(j))
            && (Meets("succeeded", j) <==> AllStagesSucceeded(j))
            && (Meets("failed", j) <==> LastStageFailed(j))
            && (LastStageOpen(j) ==> !Meets("", j) && !Meets("failed", j))
            && (|job.spec.stages| > 1 && (forall i :: 0 <= i < |steps| ==> HonestAtLast(job, steps[i])) ==>
                  !(Meets("", j) && Meets("failed", j)))
  {
    PodRun(job, now, steps);
    var st := JobAt(job, now, steps, v).status;
    assert InTurn(job, st) && StatusOk(job, st);
    if |st.stages| == |job.spec.stages| {
      var last := |st.stages| - 1;
      assert StageOk(st.stages[last]) && StageInTurn(job, st, last);
    }
    if forall i :: 0 <= i < |steps| ==> HonestAtLast(job, steps[i]) {
      RunSound(job, now, steps);
      assert Sound(job, Execute(job, InitWorld(now), steps).history[v]);
    }
  }

  /** As the code is written a job with a pod stage meets no condition in any run: its last stage never finishes. */
  lemma SilentPodMeetsNothing(job: MaintenanceJob, now: Time, steps: seq<Step>, v: nat, condition: string)
    requires HasPod(job) && now > ZERO_TIME && Silent(steps)
    requires v < |Execute(job, InitWorld(now), steps).history|
    ensures !Meets(condition, JobAt(job, now, steps, v))
  {
    var i :| 0 <= i < |job.spec.stages| && IsPodStage(job.spec.stages[i]);
    StopsAtPod(job, now, steps, v, i, |job.spec.stages| - 1);
  }

  /**
   Once a stage before the last has failed, a job meets no condition any more, at any later version: those
   who wait for its failure wait as long as those who wait for its success.
   */
  lemma EarlyFailureMeetsNothing(
    job: MaintenanceJob, now: Time, steps: seq<Step>, u: nat, v: nat, j: nat, condition: string)
    requires (ManagedOnly(job) || PodJob(job)) && now > ZERO_TIME
    requires u <= v < |Execute(job, InitWorld(now), steps).history|
    requires j < |JobAt(job, now, steps, u).status.stages| && JobAt(job, now, steps, u).status.stages[j].failed
    requires j < |job.spec.stages| - 1
    ensures !Meets(condition, JobAt(job, now, steps, v))
  {
    FinishedStageIsFrozen(job, now, steps, u, u, j);
    FinishedStageIsFrozen(job, now, steps, u, v, j);
    var st := JobAt(job, now, steps, v).status;
    assert st.stages[j].failed;
    if ManagedOnly(job) {
      DrainRun(job, now, steps);
      assert Good(job, Execute(job, InitWorld(now), steps).history[v]);
      if |st.stages| == |job.spec.stages| {
        assert Rank(st.stages[j]) <= Rank(st.stages[|st.stages| - 1]);
      }
    } else {
      PodRun(job, now, steps);
      assert InTurn(job, Execute(job, InitWorld(now), steps).history[v]);
      if |st.stages| == |job.spec.stages| {
        assert StageInTurn(job, st, |st.stages| - 1);
      }
    }
  }

  /** A running drain or uncordon stage whose timeout is over fails. */
  lemma TimesOut(job: MaintenanceJob, w: World, k: nat, since: Time, silent: bool)
    requires Calm(w) && Open(job, Last(w), k) && Due(job, Last(w), k, w.now)
    requires RunningAt(Last(w), k, since) && job.spec.stages[k].Managed()
    requires w.now > since + job.spec.stages[k].timeout
    ensures Reaches(job, w, Written(w, SetStage(Last(w), k, StageTimedOut(Last(w).stages[k], w.now))), silent)
  {
    var st, inp := Last(w), InputAt(w, Acked);
    var st' := SetStage(st, k, StageTimedOut(st.stages[k], w.now));
    Walk(job, w, k, k, silent);
    var v := PassAt(w, k);
    assert Decide(job, v.pass.value, inp) == Commit(st', false);
    var v' := w.(history := w.history + [st'], cache := Copy(|w.history| - 1, st'));
    ReachesStep(job, w, v, Iterate(inp), v', silent);
    SyncsTo(job, w, v', st');
    ReachesStep(job, w, v', Sync(|w.history|), Written(w, st'), silent);
  }

  lemma LaterStillDue(job: MaintenanceJob, st: JobStatus, k: nat, t: Time, later: Time)
    requires Due(job, st, k, t) && t <= later
    ensures Due(job, st, k, later)
  {
    forall j | 0 <= j <= k ensures DueAt(job, st, j, later) {
      assert DueAt(job, st, j, t);
    }
  }

  /**
   Such a failure happens: every drain or uncordon stage that passable stages precede fails in some run,
   without any report if no pod precedes it.
   */
  lemma FailureRun(job: MaintenanceJob, now: Time, k: nat, silent: bool) returns (w: World)
    requires now > ZERO_TIME && k < |job.spec.stages| && job.spec.stages[k].Managed()
    requires forall j :: 0 <= j < k ==> CanPass(job.spec.stages[j])
    requires if silent then NoPodBelow(job, k) else Routable(job)
    ensures Reaches(job, InitWorld(now), w, silent) && w.history != []
    ensures |Last(w).stages| == |job.spec.stages| && Last(w).stages[k].failed
  {
    var u0 := ReachesStage(job, now, k, silent);
    var u := Waits(job, u0, k, silent);
    var st, due := Last(u), u.now + job.spec.stages[k].timeout + 1;
    var s, t := StageStarted(st.stages[k], u.now), if due > u.now then due else u.now;
    StartsStage(job, u, k, silent);
    var v := Written(u, SetStage(st, k, s));
    StillDue(job, st, k, s, u.now);
    LaterStillDue(job, Last(v), k, u.now, t);
    var v' := v.(now := t);
    ReachesSelf(job, v, silent);
    ReachesStep(job, v, v, Tick(t), v', silent);
    TimesOut(job, v', k, u.now, silent);
    w := Written(v', SetStage(Last(v'), k, StageTimedOut(s, t)));
    ReachesOn(job, InitWorld(now), u0, u, silent);
    ReachesOn(job, InitWorld(now), u, v, silent);
    ReachesOn(job, InitWorld(now), v, v', silent);
    ReachesOn(job, InitWorld(now), v', w, silent);
  }
}
