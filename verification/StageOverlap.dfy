/**
 When stages run one at a time.  Starting a drain or uncordon stage does not end the pass, so the next
 stage starts in the same pass, with no finish time to count its delay from.  This module gives the
 runs in which that happens, and the exact classes of jobs in which it does not.
 */
module StageOverlap {
  import opened Types
  import opened JobReporter
  import opened StageSystem
  import opened StageRuns
  import opened StageSilence
  import opened StageCrash
  import opened DrainStages
  import opened PodStages

  /** In every status the server ever held, started stages had all earlier ones done and their delay over. */
  ghost predicate HistoryInTurn(job: MaintenanceJob, w: World) {
    forall v {:trigger w.history[v]} :: 0 <= v < |w.history| ==> InTurn(job, w.history[v])
  }

  // ---------------------------------------------------------------------- the runs

  /** The pass after it has started stage `k` and gone on. */
  function StartedAndOn(w: World, k: nat, st: JobStatus): World {
    w.(history := w.history + [st], cache := w.cache.(status := st),
       pass := Some(Pass(k + 1, w.cache.status.stages, Copy(|w.history|, st), false)))
  }

  lemma StartsAndGoesOn(job: MaintenanceJob, w: World, k: nat, silent: bool)
    requires Calm(w) && Open(job, Last(w), k) && Due(job, Last(w), k, w.now)
    requires Last(w).stages[k] == EmptyStage(job.spec.stages[k].name) && job.spec.stages[k].Managed()
    ensures var st := SetStage(Last(w), k, StageStarted(Last(w).stages[k], w.now));
            Reaches(job, w, StartedAndOn(w, k, st), silent)
  {
    var inp := InputAt(w, Acked);
    var st := SetStage(Last(w), k, StageStarted(Last(w).stages[k], w.now));
    Walk(job, w, k, k, silent);
    var v := PassAt(w, k);
    assert DueAt(job, Last(w), k, w.now);
    assert Decide(job, v.pass.value, inp) == Commit(st, true);
    ReachesStep(job, w, v, Iterate(inp), StartedAndOn(w, k, st), silent);
  }

  /** Stage `k` runs, the next one is untouched, and both are due. */
  predicate FirstOfTwo(job: MaintenanceJob, w: World, k: nat, st: JobStatus) {
    && Calm(w) && k + 1 < |st.stages| == |job.spec.stages| && |w.cache.status.stages| == |st.stages|
    && Started(st.stages[k]) && st.stages[k].finishedAt.None? && !Done(st.stages[k])
    && st.stages[k + 1] == w.cache.status.stages[k + 1] == EmptyStage(job.spec.stages[k + 1].name)
    && w.now >= ZERO_TIME + job.spec.stages[k + 1].delay
  }

  lemma NextStarts(job: MaintenanceJob, w: World, k: nat, st: JobStatus, silent: bool)
    requires FirstOfTwo(job, w, k, st) && job.spec.stages[k + 1].Managed()
    requires Reaches(job, w, StartedAndOn(w, k, st), silent)
    ensures var st' := SetStage(st, k + 1, StageStarted(st.stages[k + 1], w.now));
            exists w' :: Reaches(job, w, w', silent) && w'.history == w.history + [st] + [st']
  {
    var v, inp := StartedAndOn(w, k, st), InputAt(w, Acked);
    var st' := SetStage(st, k + 1, StageStarted(st.stages[k + 1], w.now));
    assert Decide(job, v.pass.value, inp) == Commit(st', true);
    ReachesStep(job, w, v, Iterate(inp), Apply(job, v, Iterate(inp)), silent);
  }

  lemma NextLaunches(job: MaintenanceJob, w: World, k: nat, st: JobStatus, silent: bool) returns (w': World)
    requires FirstOfTwo(job, w, k, st) && IsPodStage(job.spec.stages[k + 1]) && JobName(job, k + 1) !in w.batch
    requires Reaches(job, w, StartedAndOn(w, k, st), silent)
    ensures var b := GenerateJob(job, job.spec.stages[k + 1], w.now);
            && w' == Written(w.(batch := w.batch[JobName(job, k + 1) := b]), st)
            && Reaches(job, w, w', silent)
  {
    var v, inp := StartedAndOn(w, k, st), InputAt(w, Acked);
    var b := GenerateJob(job, job.spec.stages[k + 1], w.now);
    assert Decide(job, v.pass.value, inp) == Launch(b);
    var v' := v.(pass := None, batch := w.batch[JobName(job, k + 1) := b]);
    ReachesStep(job, w, v, Iterate(inp), v', silent);
    SyncsTo(job, w, v', st);
    w' := v'.(cache := Copy(|w.history|, st));
    ReachesStep(job, w, v', Sync(|w.history|), w', silent);
  }

  /** A started stage with an earlier one that is not done is out of turn. */
  lemma OutOfTurn(job: MaintenanceJob, w: World, st: JobStatus, k: nat)
    requires w.history != [] && Last(w) == st && k + 1 < |st.stages| <= |job.spec.stages|
    requires Started(st.stages[k + 1]) && !Done(st.stages[k])
    ensures !HistoryInTurn(job, w)
  {
    assert !StageInTurn(job, st, k + 1);
    assert !InTurn(job, w.history[|w.history| - 1]);
  }

  const ACTIVE := BatchStatus(1, 0, 0, None, [])

  /** From a calm state before stage `k`: it starts, and so does the next stage, in the same pass. */
  lemma OverlapsAt(job: MaintenanceJob, w: World, k: nat, silent: bool) returns (w': World)
    requires AtStage(job, w, k) && k + 1 < |job.spec.stages| && job.spec.stages[k].Managed()
    requires Open(job, Last(w), k) && Due(job, Last(w), k + 1, w.now)
    requires || job.spec.stages[k + 1].Managed()
             || (!silent && Routable(job) && IsPodStage(job.spec.stages[k + 1]))
    ensures Reaches(job, w, w', silent) && !HistoryInTurn(job, w')
  {
    var st := SetStage(Last(w), k, StageStarted(Last(w).stages[k], w.now));
    DueBelow(job, Last(w), k, w.now);
    StartsAndGoesOn(job, w, k, silent);
    assert DueAt(job, Last(w), k + 1, w.now);
    assert FirstOfTwo(job, w, k, st);
    if job.spec.stages[k + 1].Managed() {
      NextStarts(job, w, k, st, silent);
      var st' := SetStage(st, k + 1, StageStarted(st.stages[k + 1], w.now));
      w' :| Reaches(job, w, w', silent) && w'.history == w.history + [st] + [st'];
      OutOfTurn(job, w', st', k);
    } else {
      w' := PodOverlaps(job, w, k, st);
    }
  }

  lemma DueBelow(job: MaintenanceJob, st: JobStatus, k: nat, t: Time)
    requires Due(job, st, k + 1, t)
    ensures Due(job, st, k, t)
  {
  }

  /** The Job of a pod stage reports while the stage before it still runs. */
  lemma PodOverlaps(job: MaintenanceJob, w: World, k: nat, st: JobStatus) returns (w': World)
    requires AtStage(job, w, k) && FirstOfTwo(job, w, k, st) && Named(job, st)
    requires Routable(job) && IsPodStage(job.spec.stages[k + 1]) && Reaches(job, w, StartedAndOn(w, k, st), false)
    ensures Reaches(job, w, w', false) && !HistoryInTurn(job, w')
  {
    FreeAbove(job, w.batch, k);
    var v := NextLaunches(job, w, k, st, false);
    var b := GenerateJob(job, job.spec.stages[k + 1], w.now);
    assert NameIsUnique(job, k + 1);
    Reported(job, v, k + 1, b, ACTIVE);
    var st' := SetStage(st, k + 1, StageFromBatch(job.spec.stages[k + 1].name, b, ACTIVE, w.now));
    w' := Written(v, st');
    ReachesOn(job, w, v, w', false);
    OutOfTurn(job, w', st', k);
  }

  lemma FreeAbove(job: MaintenanceJob, batch: map<string, BatchJob>, k: nat)
    requires Routable(job) && BatchBelow(job, batch, k) && k + 1 < |job.spec.stages|
    ensures JobName(job, k + 1) !in batch
  {
    assert BatchBelow(job, batch, k + 1);
    JobNameIsFree(job, batch, k + 1);
  }

  /** From creation on: the first drain or uncordon stage that is not the last one overlaps with the next. */
  lemma OverlapRun(job: MaintenanceJob, now: Time, k: nat, silent: bool) returns (steps: seq<Step>)
    requires now > ZERO_TIME && k + 1 < |job.spec.stages| && job.spec.stages[k].Managed()
    requires forall i :: 0 <= i < k ==> CanPass(job.spec.stages[i])
    requires if silent then NoPodBelow(job, k) else Routable(job)
    requires job.spec.stages[k + 1].Managed() || (!silent && IsPodStage(job.spec.stages[k + 1]))
    ensures !HistoryInTurn(job, Execute(job, InitWorld(now), steps)) && (silent ==> Silent(steps))
  {
    var u := ReachesStage(job, now, k, silent);
    var t := SomeTimeIsDue(job, Last(u), k + 1, u.now);
    var v := u.(now := t);
    ReachesStep(job, InitWorld(now), u, Tick(t), v, silent);
    var w := OverlapsAt(job, v, k, silent);
    ReachesOn(job, InitWorld(now), v, w, silent);
    steps :| (silent ==> Silent(steps)) && Execute(job, InitWorld(now), steps) == w;
  }

  // ---------------------------------------------------------------------- the exact classes

  lemma PodJobInTurn(job: MaintenanceJob, now: Time, steps: seq<Step>)
    requires PodJob(job) && now > ZERO_TIME
    ensures HistoryInTurn(job, Execute(job, InitWorld(now), steps))
  {
    PodRun(job, now, steps);
  }

  /**
   Drain and uncordon jobs run their stages one at a time, each after its delay, in all runs exactly if
   they have one stage.  The failing run is silent, so this holds of the code as written as well.
   */
  lemma ManagedInTurnIff(job: MaintenanceJob, now: Time)
    requires ManagedOnly(job) && now > ZERO_TIME
    ensures (forall steps :: HistoryInTurn(job, Execute(job, InitWorld(now), steps))) <==> |job.spec.stages| == 1
    ensures |job.spec.stages| > 1 ==>
              exists steps :: Silent(steps) && !HistoryInTurn(job, Execute(job, InitWorld(now), steps))
  {
    if |job.spec.stages| == 1 {
      forall steps ensures HistoryInTurn(job, Execute(job, InitWorld(now), steps)) {
        PodJobInTurn(job, now, steps);
      }
    } else {
      var steps := OverlapRun(job, now, 0, true);
    }
  }

  lemma {:induction false} FirstManaged(job: MaintenanceJob, j: nat) returns (k: nat)
    requires j < |job.spec.stages| && job.spec.stages[j].Managed()
    ensures k <= j && job.spec.stages[k].Managed() && forall i :: 0 <= i < k ==> !job.spec.stages[i].Managed()
  {
    if i :| 0 <= i < j && job.spec.stages[i].Managed() {
      k := FirstManaged(job, i);
    } else {
      k := j;
    }
  }

  predicate AllHaveActions(job: MaintenanceJob) {
    job.spec.stages != [] && forall i :: 0 <= i < |job.spec.stages| ==> job.spec.stages[i].HasAction()
  }

  /**
   With a reporter that writes: jobs whose stages all have an action, and whose pod stages have names of
   their own, run their stages one at a time and after their delays in all runs exactly if only the last
   stage may be a drain or uncordon stage.
   */
  lemma InTurnIff(job: MaintenanceJob, now: Time)
    requires AllHaveActions(job) && Routable(job) && now > ZERO_TIME
    ensures (forall steps :: HistoryInTurn(job, Execute(job, InitWorld(now), steps)))
       <==> forall i :: 0 <= i < |job.spec.stages| - 1 ==> !job.spec.stages[i].Managed()
  {
    if j :| 0 <= j < |job.spec.stages| - 1 && job.spec.stages[j].Managed() {
      var k := FirstManaged(job, j);
      var steps := OverlapRun(job, now, k, false);
      assert !HistoryInTurn(job, Execute(job, InitWorld(now), steps));
    } else {
      assert PodJob(job) by {
        assert forall i :: 0 <= i < |job.spec.stages| - 1 ==> IsPodStage(job.spec.stages[i]) && NameIsUnique(job, i);
      }
      forall steps ensures HistoryInTurn(job, Execute(job, InitWorld(now), steps)) {
        PodJobInTurn(job, now, steps);
      }
    }
  }

  /** The first two stages are both executed by the controller. */
  predicate TwoManagedFirst(job: MaintenanceJob) {
    |job.spec.stages| > 1 && job.spec.stages[0].Managed() && job.spec.stages[1].Managed()
  }

  /** Where only the first stage can be worked on, a silent status is in turn. */
  lemma SilentInTurn(job: MaintenanceJob, st: JobStatus, now: Time)
    requires AllHaveActions(job) && !TwoManagedFirst(job)
    requires StatusOk(job, st) && Tidy(job, st.stages, now) && SilentOk(job, st)
    ensures InTurn(job, st)
  {
    forall j | 0 <= j < |st.stages| ensures StageInTurn(job, st, j) {
      assert StageOk(st.stages[j]);
      assert TidyStage(job.spec.stages[j], st.stages[j], now);
      if j > 0 || !job.spec.stages[0].Managed() {
        var pod := if job.spec.stages[0].Managed() then 1 else 0;
        assert IsPodStage(job.spec.stages[pod]);
        assert Shut(job, j);
      }
    }
  }

  /**
   The code as written: jobs whose stages all have an action run them one at a time and after their
   delays in all silent runs exactly if the first two stages are not both drain or uncordon stages.
   */
  lemma SilentInTurnIff(job: MaintenanceJob, now: Time)
    requires AllHaveActions(job) && now > ZERO_TIME
    ensures (forall steps :: Silent(steps) ==> HistoryInTurn(job, Execute(job, InitWorld(now), steps)))
       <==> !TwoManagedFirst(job)
  {
    if TwoManagedFirst(job) {
      var steps := OverlapRun(job, now, 0, true);
      assert !HistoryInTurn(job, Execute(job, InitWorld(now), steps));
    } else {
      forall steps | Silent(steps) ensures HistoryInTurn(job, Execute(job, InitWorld(now), steps)) {
        RunKeepsCrashInv(job, now, steps);
        RunSilent(job, now, steps);
        var w := Execute(job, InitWorld(now), steps);
        forall v | 0 <= v < |w.history| ensures InTurn(job, w.history[v]) {
          SilentInTurn(job, w.history[v], w.now);
        }
      }
    }
  }
}
