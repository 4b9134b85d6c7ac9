/**
 What ends a drain or uncordon stage: its timeout, its drain, or nothing yet.  Stated of the records on
 the server, over all runs, and of the pass that meets the stage.
 */
module StageTimeouts {
  import opened Types
  import opened JobReporter
  import opened StageSystem
  import opened StageRunner
  import opened StageRuns
  import opened StageProgress
  import opened StageCrash

  // ---------------------------------------------------------------------- over all runs

  /**
   In every run of the code as written, and of one with a reporter that writes if pod stages have names
   of their own: a drain or uncordon stage has failed only by its timeout, later than that after its
   start; before its timeout is over it never has.
   */
  lemma FailsOnlyByTimeout(job: MaintenanceJob, now: Time, steps: seq<Step>, v: nat, j: nat)
    requires now > ZERO_TIME && job.spec.stages != [] && (Routable(job) || Silent(steps))
    requires v < |Execute(job, InitWorld(now), steps).history|
    requires j < |Execute(job, InitWorld(now), steps).history[v].stages| && j < |job.spec.stages|
    requires job.spec.stages[j].Managed()
    ensures var w := Execute(job, InitWorld(now), steps);
            var spec, s := job.spec.stages[j], w.history[v].stages[j];
            && (s.failed ==>
                  && s.scheduledAt.Some? && s.finishedAt.Some?
                  && s.finishedAt.value > s.scheduledAt.value + spec.timeout
                  && s.reason == "Timeout" && s.message == "job remains unfinished")
            && (s.scheduledAt.Some? && w.now <= s.scheduledAt.value + spec.timeout ==> !s.failed)
  {
    RunKeepsCrashInv(job, now, steps);
    var w := Execute(job, InitWorld(now), steps);
    assert Tidy(job, w.history[v].stages, w.now);
    assert TidyStage(job.spec.stages[j], w.history[v].stages[j], w.now);
  }

  /** In those runs its times are clock readings in order: started, then finished, not in the future. */
  lemma ManagedTimesInOrder(job: MaintenanceJob, now: Time, steps: seq<Step>, v: nat, j: nat)
    requires now > ZERO_TIME && job.spec.stages != [] && (Routable(job) || Silent(steps))
    requires v < |Execute(job, InitWorld(now), steps).history|
    requires j < |Execute(job, InitWorld(now), steps).history[v].stages| && j < |job.spec.stages|
    requires job.spec.stages[j].Managed()
    ensures var w := Execute(job, InitWorld(now), steps);
            var s := w.history[v].stages[j];
            && (s.scheduledAt.Some? <==> s.running || s.succeeded || s.failed)
            && (s.scheduledAt.Some? ==> s.scheduledAt.value <= w.now)
            && (s.finishedAt.Some? ==>
                  s.scheduledAt.Some? && s.scheduledAt.value <= s.finishedAt.value <= w.now)
  {
    RunKeepsCrashInv(job, now, steps);
    var w := Execute(job, InitWorld(now), steps);
    assert Tidy(job, w.history[v].stages, w.now);
    assert TidyStage(job.spec.stages[j], w.history[v].stages[j], w.now);
  }

  // ---------------------------------------------------------------------- the pass that meets it

  /** The pass comes to stage `k`: all stages before it are done, or have no action and a delay that is over. */
  predicate ComesTo(job: MaintenanceJob, w: World, inputs: seq<Input>, k: nat) {
    && Settled(w) && Open(job, Last(w), k) && k < |inputs| && Timely(w.now, inputs)
    && forall j :: 0 <= j < k && !job.spec.stages[j].HasAction() ==>
         inputs[j].check >= DelayBase(job, Last(w), j) + job.spec.stages[j].delay
  }

  /** The world in which the pass has come to stage `k`. */
  function Arrived(w: World, inputs: seq<Input>, k: nat): World
    requires w.history != [] && k <= |inputs|
  {
    SkippedTo(w, k, if k == 0 then w.now else inputs[k - 1].stamp)
  }

  lemma PassesOne(job: MaintenanceJob, w: World, inputs: seq<Input>, k: nat, j: nat, v: World)
    requires ComesTo(job, w, inputs, k) && j < k && v == Arrived(w, inputs, j)
    ensures RunEffect(v.(now := inputs[j].stamp), v.pass.value, Decide(job, v.pass.value, inputs[j]), inputs[j].net) ==
              Arrived(w, inputs, j + 1)
  {
    assert PassedBy(job.spec.stages[j], Last(w).stages[j]);
    assert Decide(job, v.pass.value, inputs[j]) == Skip;
  }

  lemma PassesMore(job: MaintenanceJob, w: World, inputs: seq<Input>, k: nat, j: nat, v: World)
    requires ComesTo(job, w, inputs, k) && j < k && v == Arrived(w, inputs, j)
    requires RunPass(job, w, inputs[..j]) == v
    ensures RunPass(job, w, inputs[..j + 1]) == Arrived(w, inputs, j + 1)
  {
    PassesOne(job, w, inputs, k, j, v);
    RunPassStep(job, w, inputs, j, v, v.pass.value);
  }

  lemma PassBegins(job: MaintenanceJob, w: World, inputs: seq<Input>, k: nat)
    requires ComesTo(job, w, inputs, k)
    ensures RunPass(job, w, inputs[..0]) == Arrived(w, inputs, 0)
  {
    assert RunPass(job, w, inputs[..0]) == BeginPass(w);
  }

  lemma {:induction false} PassesTo(job: MaintenanceJob, w: World, inputs: seq<Input>, k: nat, j: nat)
    requires ComesTo(job, w, inputs, k) && j <= k
    ensures RunPass(job, w, inputs[..j]) == Arrived(w, inputs, j)
  {
    if j > 0 {
      PassesTo(job, w, inputs, k, j - 1);
      PassesMore(job, w, inputs, k, j - 1, Arrived(w, inputs, j - 1));
    } else {
      PassBegins(job, w, inputs, k);
    }
  }

  lemma IteratesAt(job: MaintenanceJob, w: World, inputs: seq<Input>, k: nat, v: World)
    requires ComesTo(job, w, inputs, k) && v == Arrived(w, inputs, k)
    ensures RunPass(job, w, inputs[..k + 1]) ==
              RunEffect(v.(now := inputs[k].stamp), v.pass.value, Decide(job, v.pass.value, inputs[k]), inputs[k].net)
  {
    PassesTo(job, w, inputs, k, k);
    RunPassStep(job, w, inputs, k, v, v.pass.value);
  }

  /** What the effect of the iteration at stage `k` is for the pass, if the effect ends it. */
  lemma {:induction false} EndsWith(job: MaintenanceJob, w: World, inputs: seq<Input>, k: nat, v: World, e: Effect)
    requires w.history != [] && k < |inputs| && v == Arrived(w, inputs, k)
    requires RunPass(job, w, inputs[..k + 1]) ==
               RunEffect(v.(now := inputs[k].stamp), v.pass.value, e, inputs[k].net)
    requires !e.Skip? && (e.Commit? ==> !e.resume && !inputs[k].net.Refused? && w.cache.version == |w.history| - 1)
    ensures var w' := RunPass(job, w, inputs);
            && w'.history == (if e.Commit? then w.history + [e.status] else w.history)
            && w'.pass.None? && w'.fault == (w.fault || e.Crash?)
            && w'.batch == if !e.Launch? || inputs[k].net.Refused? || e.batch.name in w.batch then w.batch
                           else w.batch[e.batch.name := e.batch]
  {
    RunPassEnds(job, w, inputs, k + 1);
  }

  /** The pass ends at stage `k`, with one write, accepted unless refused, or without. */
  lemma {:induction false} PassEnds(job: MaintenanceJob, w: World, inputs: seq<Input>, k: nat, e: Effect)
    requires ComesTo(job, w, inputs, k) && e == Decide(job, Arrived(w, inputs, k).pass.value, inputs[k])
    requires !e.Skip? && (e.Commit? ==> !e.resume && !inputs[k].net.Refused?)
    ensures var w' := RunPass(job, w, inputs);
            && w'.history == (if e.Commit? then w.history + [e.status] else w.history)
            && w'.pass.None? && w'.fault == (w.fault || e.Crash?)
            && w'.batch == if !e.Launch? || inputs[k].net.Refused? || e.batch.name in w.batch then w.batch
                           else w.batch[e.batch.name := e.batch]
  {
    var v := Arrived(w, inputs, k);
    IteratesAt(job, w, inputs, k, v);
    EndsWith(job, w, inputs, k, v, e);
  }

  lemma EffectWrites(w: World, inputs: seq<Input>, k: nat, v: World, st: JobStatus)
    requires w.history != [] && k < |inputs| && v == Arrived(w, inputs, k) && !inputs[k].net.Refused?
    requires w.cache.version == |w.history| - 1
    ensures RunEffect(v.(now := inputs[k].stamp), v.pass.value, Commit(st, true), inputs[k].net).history ==
              w.history + [st]
  {
  }

  /** The pass writes at stage `k` and goes on, if it gets an answer. */
  lemma {:induction false} PassWritesOn(
    job: MaintenanceJob, w: World, inputs: seq<Input>, k: nat, st: JobStatus)
    requires ComesTo(job, w, inputs, k) && !inputs[k].net.Refused?
    requires Decide(job, Arrived(w, inputs, k).pass.value, inputs[k]) == Commit(st, true)
    ensures w.history + [st] <= RunPass(job, w, inputs).history
  {
    var v := Arrived(w, inputs, k);
    IteratesAt(job, w, inputs, k, v);
    EffectWrites(w, inputs, k, v, st);
    RunPassGrows(job, w, inputs, k + 1);
  }

  lemma {:induction false} RunPassGrows(job: MaintenanceJob, w: World, inputs: seq<Input>, k: nat)
    requires k <= |inputs|
    ensures RunPass(job, w, inputs[..k]).history <= RunPass(job, w, inputs).history
  {
    if k < |inputs| {
      var n := |inputs| - 1;
      assert inputs[..n][..k] == inputs[..k];
      RunPassGrows(job, w, inputs[..n], k);
      StepGrows(job, RunPass(job, w, inputs[..n]), Iterate(inputs[n]));
    } else {
      assert inputs[..k] == inputs;
    }
  }

  /** A running drain or uncordon stage, started at `since`, which the pass meets at clock reading `check`. */
  predicate MeetsRunning(job: MaintenanceJob, w: World, inputs: seq<Input>, k: nat, since: Time) {
    && ComesTo(job, w, inputs, k) && !inputs[k].net.Refused?
    && job.spec.stages[k].Managed() && RunningAt(Last(w), k, since)
  }

  /**
   The pass that meets a running drain or uncordon stage past its timeout leaves exactly that stage failed
   on the server, whatever its drain would have said.
   */
  lemma {:induction false} LatePassFails(job: MaintenanceJob, w: World, inputs: seq<Input>, k: nat, since: Time)
    requires MeetsRunning(job, w, inputs, k, since)
    requires inputs[k].check > since + job.spec.stages[k].timeout
    ensures var h, was := RunPass(job, w, inputs).history, Last(w);
            && |h| == |w.history| + 1 && h[..|w.history|] == w.history
            && h[|w.history|] == was.(stages := was.stages[k := StageStatus(
                 was.stages[k].name, Some(since), Some(inputs[k].stamp),
                 "job remains unfinished", "Timeout", false, false, true)])
  {
    PassEnds(job, w, inputs, k, Commit(SetStage(Last(w), k, StageTimedOut(Last(w).stages[k], inputs[k].stamp)), false));
  }

  /** Before its timeout is over a drain that is carried out leaves exactly that stage succeeded. */
  lemma {:induction false} DrainedPassSucceeds(job: MaintenanceJob, w: World, inputs: seq<Input>, k: nat, since: Time)
    requires MeetsRunning(job, w, inputs, k, since) && job.spec.stages[k].drain.Some?
    requires inputs[k].check <= since + job.spec.stages[k].timeout && inputs[k].action == ActionOk
    ensures var h, was := RunPass(job, w, inputs).history, Last(w);
            && |h| == |w.history| + 1 && h[..|w.history|] == w.history
            && h[|w.history|] == was.(stages := was.stages[k := StageStatus(
                 was.stages[k].name, Some(since), Some(inputs[k].stamp),
                 was.stages[k].message, was.stages[k].reason, false, true, false)])
  {
    PassEnds(job, w, inputs, k, Commit(SetStage(Last(w), k, StageDone(Last(w).stages[k], inputs[k].stamp)), false));
  }

  /** A drain that fails before the timeout leaves the stage running, with the error as its message. */
  lemma {:induction false} FailedDrainIsRetried(job: MaintenanceJob, w: World, inputs: seq<Input>, k: nat, since: Time)
    requires MeetsRunning(job, w, inputs, k, since) && job.spec.stages[k].drain.Some?
    requires inputs[k].check <= since + job.spec.stages[k].timeout && inputs[k].action.ActionError?
    ensures var h, was := RunPass(job, w, inputs).history, Last(w);
            && |h| == |w.history| + 1 && h[..|w.history|] == w.history
            && h[|w.history|] == was.(stages := was.stages[k := StageStatus(
                 was.stages[k].name, Some(since), was.stages[k].finishedAt,
                 inputs[k].action.message, "TemporaryFailure", true, false, false)])
  {
    var s := StageRetried(Last(w).stages[k], inputs[k].action.message);
    PassEnds(job, w, inputs, k, Commit(SetStage(Last(w), k, s), false));
  }

  /** An uncordon-only stage is a crash before its timeout. */
  lemma {:induction false} UncordonPassCrashes(job: MaintenanceJob, w: World, inputs: seq<Input>, k: nat, since: Time)
    requires ComesTo(job, w, inputs, k) && RunningAt(Last(w), k, since) && job.spec.stages[k].UncordonOnly()
    requires inputs[k].check <= since + job.spec.stages[k].timeout
    ensures RunPass(job, w, inputs).fault && RunPass(job, w, inputs).history == w.history
  {
    PassEnds(job, w, inputs, k, Crash);
  }

  /** A due drain or uncordon stage that is idle is started by the pass that comes to it, at its clock reading. */
  lemma {:induction false} DuePassStarts(job: MaintenanceJob, w: World, inputs: seq<Input>, k: nat)
    requires ComesTo(job, w, inputs, k) && !inputs[k].net.Refused? && job.spec.stages[k].Managed()
    requires Last(w).stages[k] == EmptyStage(job.spec.stages[k].name)
    requires inputs[k].check >= DelayBase(job, Last(w), k) + job.spec.stages[k].delay
    ensures w.history + [Last(w).(stages := Last(w).stages[k := StageStatus(
              job.spec.stages[k].name, Some(inputs[k].stamp), None, "", "", true, false, false)])]
            <= RunPass(job, w, inputs).history
  {
    PassWritesOn(job, w, inputs, k, SetStage(Last(w), k, StageStarted(Last(w).stages[k], inputs[k].stamp)));
  }

  /** Before its delay is over a stage is left as it is, and so is everything behind it. */
  lemma {:induction false} EarlyPassWaits(job: MaintenanceJob, w: World, inputs: seq<Input>, k: nat)
    requires ComesTo(job, w, inputs, k)
    requires Last(w).stages[k] == EmptyStage(job.spec.stages[k].name)
    requires inputs[k].check < DelayBase(job, Last(w), k) + job.spec.stages[k].delay
    ensures RunPass(job, w, inputs).history == w.history && RunPass(job, w, inputs).batch == w.batch
    ensures RunPass(job, w, inputs).pass.None?
  {
    PassEnds(job, w, inputs, k, Quit);
  }

  /** A due pod stage that is idle gets its Job from the pass that comes to it, and the pass ends there. */
  lemma {:induction false} DuePassLaunches(job: MaintenanceJob, w: World, inputs: seq<Input>, k: nat)
    requires ComesTo(job, w, inputs, k) && !inputs[k].net.Refused? && IsPodStage(job.spec.stages[k])
    requires Last(w).stages[k] == EmptyStage(job.spec.stages[k].name)
    requires inputs[k].check >= DelayBase(job, Last(w), k) + job.spec.stages[k].delay
    ensures var w', stage := RunPass(job, w, inputs), job.spec.stages[k].name;
            var name := job.name + "." + stage;
            && w'.history == w.history
            && w'.batch == if name in w.batch then w.batch else w.batch[name := BatchJob(
                 name, job.namespace, job.labels["maintenance.arhat.dev/stage" := stage],
                 [OwnerRef("MaintenanceJob", job.name, job.uid, Some(true), Some(true))], inputs[k].stamp)]
  {
    PassEnds(job, w, inputs, k, Launch(GenerateJob(job, job.spec.stages[k], inputs[k].stamp)));
  }

  /** The pass that comes to a failed stage records the failure of the job, at the finish time of that stage. */
  lemma {:induction false} FailureIsRecorded(job: MaintenanceJob, w: World, inputs: seq<Input>, k: nat)
    requires ComesTo(job, w, inputs, k) && !inputs[k].net.Refused?
    requires Last(w).stages[k].failed && IsSet(Last(w).stages[k].finishedAt)
    ensures RunPass(job, w, inputs).history == w.history + [Last(w).(failedAt := Last(w).stages[k].finishedAt)]
  {
    PassEnds(job, w, inputs, k, Commit(Last(w).(failedAt := Last(w).stages[k].finishedAt), false));
  }
}
