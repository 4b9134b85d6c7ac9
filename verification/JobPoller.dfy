/**
 The poll step of a MaintenanceJob (`processMaintenanceJobSchedule`): run one scheduling pass, then
 look at the cached status again to decide whether the job goes back into the timeout queue.
 */
module JobPoller {
  import opened Types
  import opened StageSystem
  import opened StageRunner
  import opened StageRuns
  import opened DrainStages
  import opened PodStages

  predicate HasFailed(stages: seq<StageStatus>) {
    exists f :: 0 <= f < |stages| && stages[f].failed
  }

  /** There are as many records as the spec has stages, and all of them succeeded. */
  predicate AllSucceeded(spec: JobSpec, stages: seq<StageStatus>) {
    |stages| == |spec.stages| && forall j :: 0 <= j < |stages| ==> stages[j].succeeded
  }

  predicate FailedBeforeRunning(stages: seq<StageStatus>) {
    exists f :: 0 <= f < |stages| && stages[f].failed && forall j :: 0 <= j < f ==> !stages[j].running
  }

  /** When the job is not queued again: a failed stage comes first, or all stages succeeded and none is running. */
  predicate LetGo(spec: JobSpec, stages: seq<StageStatus>) {
    || FailedBeforeRunning(stages)
    || (AllSucceeded(spec, stages) && forall j :: 0 <= j < |stages| ==> !stages[j].running)
  }

  /** The scan of `enqueueMaintenanceJobForScheduling`: does the job go back into the queue? */
  method StillLive(spec: JobSpec, stages: seq<StageStatus>) returns (live: bool)
    requires |stages| <= |spec.stages|
    ensures !live <==> LetGo(spec, stages)
  {
    var finishedCount := 0;
    var i := 0;
    while i < |stages|
      invariant 0 <= i <= |stages|
      invariant forall j :: 0 <= j < i ==> !stages[j].failed && !stages[j].running
      invariant finishedCount <= i
      invariant finishedCount == i <==> forall j :: 0 <= j < i ==> stages[j].succeeded
    {
      if stages[i].failed {
        return false;
      }
      if stages[i].running {
        break;
      }
      if stages[i].succeeded {
        finishedCount := finishedCount + 1;
      }
      i := i + 1;
    }
    live := finishedCount != |spec.stages|;
  }

  /** A job the scan lets go of has a failed stage, or all stages of its spec succeeded. */
  lemma LetGoIsTerminal(spec: JobSpec, stages: seq<StageStatus>)
    requires LetGo(spec, stages)
    ensures Terminal(spec, stages)
  {
  }

  /** On the in-order statuses of drain and uncordon jobs the scan lets go exactly of the terminal ones. */
  lemma DrainLetGoIffTerminal(job: MaintenanceJob, st: JobStatus)
    requires Good(job, st)
    ensures LetGo(job.spec, st.stages) <==> HasFailed(st.stages) || AllSucceeded(job.spec, st.stages)
  {
    if HasFailed(st.stages) {
      var f :| 0 <= f < |st.stages| && st.stages[f].failed;
      forall j | 0 <= j < f ensures !st.stages[j].running {
        assert Rank(st.stages[j]) <= Rank(st.stages[f]) && Exclusive(st.stages[j]);
      }
    }
  }

  /**
   On the one-at-a-time statuses of pod jobs the scan lets go exactly of the terminal ones in which no
   successful stage was reported as still active; such a report keeps the job queued.
   */
  lemma PodLetGoIffTerminal(job: MaintenanceJob, st: JobStatus)
    requires InTurn(job, st)
    ensures LetGo(job.spec, st.stages) <==>
              && (HasFailed(st.stages) || AllSucceeded(job.spec, st.stages))
              && forall j :: 0 <= j < |st.stages| && Done(st.stages[j]) ==> !st.stages[j].running
  {
    if HasFailed(st.stages) {
      var f :| 0 <= f < |st.stages| && st.stages[f].failed;
      assert StageInTurn(job, st, f);
      assert Started(st.stages[f]) && DoneBelow(st, f);
      forall j | f < j < |st.stages| ensures !Done(st.stages[j]) {
        assert StageInTurn(job, st, j);
      }
      forall g | 0 <= g < |st.stages| && st.stages[g].failed ensures g == f {
        assert StageInTurn(job, st, g);
      }
    }
  }

  // ---------------------------------------------------------------------- what the server knows

  predicate Terminal(spec: JobSpec, stages: seq<StageStatus>) {
    HasFailed(stages) || AllSucceeded(spec, stages)
  }

  /** The cached object carries a finish of stage `j` that the version it was read at does not have. */
  predicate Unwritten(w: World, j: int) {
    && 0 <= j < |w.cache.status.stages| && IsSet(w.cache.status.stages[j].finishedAt)
    && w.cache.version < |w.history|
    && (j < |w.history[w.cache.version].stages| ==> !IsSet(w.history[w.cache.version].stages[j].finishedAt))
  }

  /** A finished cached record is unwritten, or the server has it and keeps it. */
  lemma UnwrittenOrKept(job: MaintenanceJob, w: World, j: nat)
    requires Inv(job, w) && j < |w.cache.status.stages|
    requires w.cache.status.stages[j].succeeded || w.cache.status.stages[j].failed
    ensures Unwritten(w, j) || (j < |Last(w).stages| && Last(w).stages[j] == w.cache.status.stages[j])
  {
    assert StageOk(w.cache.status.stages[j]);
    assert KeepsFinished(w.history[w.cache.version], w.history[|w.history| - 1]);
  }

  /**
   What the scan bases its decision on, if the server does not agree: the record of a failed stage, or
   of a last one.
   */
  lemma DroppedMeansUnwritten(job: MaintenanceJob, w: World) returns (j: nat)
    requires Inv(job, w) && Terminal(job.spec, w.cache.status.stages) && !Terminal(job.spec, Last(w).stages)
    ensures Unwritten(w, j) && (HasFailed(w.cache.status.stages) ==> w.cache.status.stages[j].failed)
  {
    var cached := w.cache.status.stages;
    if HasFailed(cached) {
      j :| 0 <= j < |cached| && cached[j].failed;
      UnwrittenOrKept(job, w, j);
    } else {
      forall i | 0 <= i < |cached| ensures Unwritten(w, i) || (i < |Last(w).stages| && Last(w).stages[i] == cached[i]) {
        UnwrittenOrKept(job, w, i);
      }
      assert StatusOk(job, w.history[|w.history| - 1]);
      j :| 0 <= j < |cached| && Unwritten(w, j);
    }
  }

  /**
   In every reachable world: a job that the scan lets go of is terminal on the server, if the cached
   object carries no finish that the version it was read at does not have.
   */
  lemma CleanLetGoIsTerminal(job: MaintenanceJob, w: World)
    requires Inv(job, w) && LetGo(job.spec, w.cache.status.stages)
    requires w.cache.status.stages == w.history[w.cache.version].stages
    ensures Terminal(job.spec, Last(w).stages)
  {
    LetGoIsTerminal(job.spec, w.cache.status.stages);
    if !Terminal(job.spec, Last(w).stages) {
      var j := DroppedMeansUnwritten(job, w);
    }
  }

  /**
   Exactly when the poller drops a drain and uncordon job that is not terminal on the server: the cached
   object carries an unwritten finish, and that is a failure or the finish of the last stage.
   */
  lemma DrainDroppedIff(job: MaintenanceJob, w: World)
    requires ManagedOnly(job) && DrainInv(job, w) && !Terminal(job.spec, Last(w).stages)
    ensures LetGo(job.spec, w.cache.status.stages) <==>
              exists j :: Unwritten(w, j) && (w.cache.status.stages[j].failed || j == |job.spec.stages| - 1)
  {
    var cached, last := w.cache.status.stages, |job.spec.stages| - 1;
    DrainLetGoIffTerminal(job, w.cache.status);
    if LetGo(job.spec, cached) {
      var j := DroppedMeansUnwritten(job, w);
      if !cached[j].failed {
        UnwrittenUpTo(job, w, j);
      }
    }
    if j :| Unwritten(w, j) && (cached[j].failed || j == last) {
      assert StageOk(cached[j]);
      if !HasFailed(cached) {
        LastDoneAllDone(job, w.cache.status);
      }
    }
  }

  /** If all cached records are successes and one is unwritten, so is the last. */
  lemma UnwrittenUpTo(job: MaintenanceJob, w: World, j: nat)
    requires ManagedOnly(job) && DrainInv(job, w) && AllSucceeded(job.spec, w.cache.status.stages) && Unwritten(w, j)
    ensures Unwritten(w, |job.spec.stages| - 1)
  {
    var read, last := w.history[w.cache.version].stages, |job.spec.stages| - 1;
    assert StageOk(w.cache.status.stages[last]);
    if last < |read| {
      assert Good(job, w.history[w.cache.version]) && StatusOk(job, w.history[w.cache.version]);
      assert StageOk(read[j]) && StageOk(read[last]);
      assert j < last ==> Rank(read[j]) <= Rank(read[last]);
      assert StageOk(w.cache.status.stages[j]);
    }
  }

  /**
   The same for pod jobs: only an unwritten finish of the last stage, which is then a drain, makes the
   poller drop live work.
   */
  lemma PodDroppedIff(job: MaintenanceJob, w: World)
    requires PodJob(job) && PodInv(job, w) && !Terminal(job.spec, Last(w).stages)
    ensures LetGo(job.spec, w.cache.status.stages) <==>
              && Unwritten(w, |job.spec.stages| - 1)
              && forall j :: 0 <= j < |w.cache.status.stages| && Done(w.cache.status.stages[j]) ==>
                   !w.cache.status.stages[j].running
  {
    var cached, last := w.cache.status.stages, |job.spec.stages| - 1;
    PodLetGoIffTerminal(job, w.cache.status);
    if LetGo(job.spec, cached) {
      var j := DroppedMeansUnwritten(job, w);
      assert CleanBelowLast(job, w.history, w.cache);
    }
    if Unwritten(w, last) {
      assert StageOk(cached[last]);
      assert StageInTurn(job, w.cache.status, last);
    }
  }

  /**
   A run that drops live work, for every job whose last stage is a drain and whose stages can all
   succeed, without any report if all stages are drains: the last drain succeeds, the write that says so
   is refused, and the scan reads the edited cached object. The server still shows the stage as running.
   */
  lemma RefusedFinishDropsWork(job: MaintenanceJob, now: Time, silent: bool) returns (w: World)
    requires now > ZERO_TIME && job.spec.stages != []
    requires if silent then NoPodBelow(job, |job.spec.stages|) else Routable(job)
    requires forall i :: 0 <= i < |job.spec.stages| ==> job.spec.stages[i].HasAction() && CanPass(job.spec.stages[i])
    requires job.spec.stages[|job.spec.stages| - 1].drain.Some?
    ensures Reaches(job, InitWorld(now), w, silent) && w.pass.None? && w.history != []
    ensures LetGo(job.spec, w.cache.status.stages) && !Terminal(job.spec, Last(w).stages)
    ensures |Last(w).stages| == |job.spec.stages| && Last(w).stages[|job.spec.stages| - 1].running
  {
    var n := |job.spec.stages| - 1;
    var u0 := ReachesStage(job, now, n, silent);
    var u := Waits(job, u0, n, silent);
    var st := Last(u);
    var s := StageStarted(st.stages[n], u.now);
    StartsStage(job, u, n, silent);
    var v := Written(u, SetStage(st, n, s));
    StillDue(job, st, n, s, u.now);
    w := RefusedFinish(job, v, n, u.now, silent);
    ReachesOn(job, InitWorld(now), u0, u, silent);
    ReachesOn(job, InitWorld(now), u, v, silent);
    ReachesOn(job, InitWorld(now), v, w, silent);
    OnlyLastIsOpen(job, st, n, s, StageDone(s, u.now));
  }

  /** A running last stage is live, and a done one is let go of. */
  lemma OnlyLastIsOpen(job: MaintenanceJob, st: JobStatus, n: nat, s: StageStatus, s': StageStatus)
    requires n + 1 == |job.spec.stages| == |st.stages| && !s.succeeded && !s.failed && Done(s') && !s'.running
    requires forall j :: 0 <= j < n ==> job.spec.stages[j].HasAction() && PassedBy(job.spec.stages[j], st.stages[j])
    ensures !Terminal(job.spec, SetStage(st, n, s).stages)
    ensures LetGo(job.spec, SetStage(SetStage(st, n, s), n, s').stages)
  {
    assert !SetStage(st, n, s).stages[n].succeeded;
  }

  /** A running drain finishes, and the write is refused. */
  lemma RefusedFinish(job: MaintenanceJob, w: World, k: nat, since: Time, silent: bool) returns (w': World)
    requires Calm(w) && Open(job, Last(w), k) && Due(job, Last(w), k, w.now)
    requires RunningAt(Last(w), k, since) && job.spec.stages[k].drain.Some?
    requires w.now <= since + job.spec.stages[k].timeout
    ensures Reaches(job, w, w', silent) && w'.history == w.history && w'.pass.None?
    ensures w'.cache.status == SetStage(Last(w), k, StageDone(Last(w).stages[k], w.now))
  {
    var st, inp := Last(w), InputAt(w, Refused);
    var st' := SetStage(st, k, StageDone(st.stages[k], w.now));
    Walk(job, w, k, k, silent);
    var v := PassAt(w, k);
    assert Decide(job, v.pass.value, inp) == Commit(st', false);
    w' := w.(cache := Copy(|w.history| - 1, st'));
    ReachesStep(job, w, v, Iterate(inp), w', silent);
  }

  class Poller {
    const runner: Runner
    var queue: set<string>

    constructor (runner: Runner)
      ensures this.runner == runner && queue == {}
    {
      this.runner, queue := runner, {};
    }

    /**
     One poll step.  Afterwards the job is queued, or it is terminal on the server, or the cached object
     carries a finish that the version it was read at does not have; and it is queued exactly if the
     scan does not let go of the cached status.
     */
    method Process(inputs: seq<Input>, ghost inflight: set<Copy>)
      requires Inv(runner.job, runner.View(None, inflight))
      requires |inputs| > |runner.cached.status.stages| && Timely(runner.now, inputs)
      modifies this`queue, runner`history, runner`batch, runner`now, runner`fault, runner.cached`status
      ensures runner.View(None, inflight) == old(RunPass(runner.job, runner.View(None, inflight), inputs))
      ensures Inv(runner.job, runner.View(None, inflight))
      ensures runner.job.name in queue <==> !LetGo(runner.job.spec, runner.cached.status.stages)
      ensures || runner.job.name in queue
              || Terminal(runner.job.spec, Last(runner.View(None, inflight)).stages)
              || exists j :: Unwritten(runner.View(None, inflight), j)
      ensures forall n :: n != runner.job.name ==> (n in queue <==> n in old(queue))
    {
      RunPassKeepsInv(runner.job, runner.View(None, inflight), inputs);
      queue := queue - {runner.job.name};
      runner.ScheduleMaintenanceJob(inputs, inflight);
      var live := StillLive(runner.job.spec, runner.cached.status.stages);
      if live {
        queue := queue + {runner.job.name};
      } else {
        LetGoIsTerminal(runner.job.spec, runner.cached.status.stages);
        if !Terminal(runner.job.spec, Last(runner.View(None, inflight)).stages) {
          var j := DroppedMeansUnwritten(runner.job, runner.View(None, inflight));
        }
      }
    }
  }
}
