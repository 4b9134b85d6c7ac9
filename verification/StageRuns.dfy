/**
 Runs that exist: how a MaintenanceJob gets, stage by stage, from its creation to any stage the runner
 can reach.  They show that conditions stated elsewhere for all runs cannot be dropped.

 The Job reporter as written never writes; a run without reports is called silent.  A run that is not
 silent is one of a controller whose reporter writes when its Job has changed.
 */
module StageRuns {
  import opened Types
  import opened JobReporter
  import opened StageSystem

  // ---------------------------------------------------------------------- reachability

  /** Some run, if `silent` one without reports, leads from `w` to `w'`. */
  ghost predicate Reaches(job: MaintenanceJob, w: World, w': World, silent: bool) {
    exists steps :: (silent ==> Silent(steps)) && Execute(job, w, steps) == w'
  }

  lemma ReachesSelf(job: MaintenanceJob, w: World, silent: bool)
    ensures Reaches(job, w, w, silent)
  {
    assert Silent([]) && Execute(job, w, []) == w;
  }

  lemma ReachesStep(job: MaintenanceJob, w: World, v: World, step: Step, v': World, silent: bool)
    requires Reaches(job, w, v, silent) && v' == Apply(job, v, step) && (silent ==> !step.Report?)
    ensures Reaches(job, w, v', silent)
  {
    var steps :| (silent ==> Silent(steps)) && Execute(job, w, steps) == v;
    assert (steps + [step])[..|steps|] == steps;
    assert silent ==> Silent(steps + [step]);
    assert Execute(job, w, steps + [step]) == v';
  }

  lemma {:induction false} ReachesSteps(job: MaintenanceJob, w: World, v: World, steps: seq<Step>, silent: bool)
    requires Reaches(job, w, v, silent) && (silent ==> Silent(steps))
    ensures Reaches(job, w, Execute(job, v, steps), silent)
  {
    if steps != [] {
      var n := |steps| - 1;
      ReachesSteps(job, w, v, steps[..n], silent);
      ReachesStep(job, w, Execute(job, v, steps[..n]), steps[n], Execute(job, v, steps), silent);
    }
  }

  lemma ReachesOn(job: MaintenanceJob, w: World, v: World, u: World, silent: bool)
    requires Reaches(job, w, v, silent) && Reaches(job, v, u, silent)
    ensures Reaches(job, w, u, silent)
  {
    var steps :| (silent ==> Silent(steps)) && Execute(job, v, steps) == u;
    ReachesSteps(job, w, v, steps, silent);
  }

  // ---------------------------------------------------------------------- a pass up to one stage

  /** Nothing is under way and the cache shows the server's current state. */
  predicate Calm(w: World) {
    w.history != [] && w.pass.None? && w.inflight == {} && w.cache == Copy(|w.history| - 1, Last(w))
  }

  /** A calm world after one more accepted write. */
  function Written(w: World, st: JobStatus): World {
    w.(history := w.history + [st], cache := Copy(|w.history|, st))
  }

  /** A stage the runner passes by: one that is done, or has no action and never gets a record. */
  predicate PassedBy(spec: StageSpec, s: StageStatus) {
    if spec.HasAction() then Done(s) && !s.running && IsSet(s.finishedAt) else s == EmptyStage(spec.name)
  }

  /** The runner will get as far as stage `k`. */
  predicate Open(job: MaintenanceJob, st: JobStatus, k: nat) {
    && k < |st.stages| == |job.spec.stages|
    && st.succeededAt.None? && st.failedAt.None?
    && !st.stages[|st.stages| - 1].succeeded
    && forall j :: 0 <= j < k ==> PassedBy(job.spec.stages[j], st.stages[j])
  }

  predicate DueAt(job: MaintenanceJob, st: JobStatus, j: nat, t: Time) {
    j < |job.spec.stages| && j < |st.stages| && t >= DelayBase(job, st, j) + job.spec.stages[j].delay
  }

  /** The delays of the stages up to `k` are over. */
  predicate Due(job: MaintenanceJob, st: JobStatus, k: nat, t: Time) {
    forall j {:trigger DueAt(job, st, j, t)} :: 0 <= j <= k ==> DueAt(job, st, j, t)
  }

  lemma {:induction false} SomeTimeIsDue(job: MaintenanceJob, st: JobStatus, k: nat, now: Time) returns (t: Time)
    requires k < |st.stages| == |job.spec.stages|
    ensures t >= now && Due(job, st, k, t)
  {
    var due := DelayBase(job, st, k) + job.spec.stages[k].delay;
    t := if due > now then due else now;
    if k > 0 {
      t := SomeTimeIsDue(job, st, k - 1, t);
    }
    forall j | 0 <= j <= k ensures DueAt(job, st, j, t) {
      if j < k {
        assert DueAt(job, st, j, t);
      }
    }
  }

  function InputAt(w: World, net: Net): Input {
    Input(w.now, w.now, ActionOk, net)
  }

  /** A calm world with a pass that has come as far as stage `k`. */
  function PassAt(w: World, k: nat): World {
    w.(pass := Some(Pass(k, w.cache.status.stages, w.cache, true)))
  }

  lemma PassesBy(job: MaintenanceJob, w: World, j: nat, k: nat)
    requires Calm(w) && Open(job, Last(w), k) && j < k && Due(job, Last(w), k, w.now)
    ensures Apply(job, PassAt(w, j), Iterate(InputAt(w, Acked))) == PassAt(w, j + 1)
  {
    var spec, s := job.spec.stages[j], Last(w).stages[j];
    assert PassedBy(spec, s) && DueAt(job, Last(w), j, w.now);
    var p := PassAt(w, j).pass.value;
    assert Decide(job, p, InputAt(w, Acked)) == Skip;
  }

  /** The pass gets as far as the first stage that is not passed by. */
  lemma {:induction false} Walk(job: MaintenanceJob, w: World, j: nat, k: nat, silent: bool)
    requires Calm(w) && Open(job, Last(w), k) && j <= k && Due(job, Last(w), k, w.now)
    ensures Reaches(job, w, PassAt(w, j), silent)
  {
    if j == 0 {
      ReachesSelf(job, w, silent);
      ReachesStep(job, w, w, Begin, PassAt(w, 0), silent);
    } else {
      Walk(job, w, j - 1, k, silent);
      PassesBy(job, w, j - 1, k);
      ReachesStep(job, w, PassAt(w, j - 1), Iterate(InputAt(w, Acked)), PassAt(w, j), silent);
    }
  }

  // ---------------------------------------------------------------------- one stage

  lemma SyncsTo(job: MaintenanceJob, w: World, v: World, st: JobStatus)
    requires w.history != [] && v.history == w.history + [st] && v.pass.None? && v.cache.version <= |w.history|
    ensures Apply(job, v, Sync(|w.history|)) == v.(cache := Copy(|w.history|, st))
  {
  }

  /** The runner starts an idle drain or uncordon stage; the answer to its write is lost, so the pass ends there. */
  lemma StartsStage(job: MaintenanceJob, w: World, k: nat, silent: bool)
    requires Calm(w) && Open(job, Last(w), k) && Due(job, Last(w), k, w.now)
    requires Last(w).stages[k] == EmptyStage(job.spec.stages[k].name) && job.spec.stages[k].Managed()
    ensures Reaches(job, w, Written(w, SetStage(Last(w), k, StageStarted(Last(w).stages[k], w.now))), silent)
  {
    var st, inp := Last(w), InputAt(w, AckLost);
    var st' := SetStage(st, k, StageStarted(st.stages[k], w.now));
    Walk(job, w, k, k, silent);
    var v := PassAt(w, k);
    assert DueAt(job, st, k, w.now);
    assert Decide(job, v.pass.value, inp) == Commit(st', true);
    var v' := w.(history := w.history + [st'], cache := Copy(|w.history| - 1, st'));
    ReachesStep(job, w, v, Iterate(inp), v', silent);
    SyncsTo(job, w, v', st');
    ReachesStep(job, w, v', Sync(|w.history|), Written(w, st'), silent);
  }

  predicate RunningAt(st: JobStatus, k: nat, since: Time)
    requires k < |st.stages|
  {
    st.stages[k].running && !st.stages[k].succeeded && !st.stages[k].failed && st.stages[k].scheduledAt == Some(since)
  }

  /** A running drain stage whose timeout is not over finishes. */
  lemma FinishesDrain(job: MaintenanceJob, w: World, k: nat, since: Time, silent: bool)
    requires Calm(w) && Open(job, Last(w), k) && Due(job, Last(w), k, w.now)
    requires RunningAt(Last(w), k, since) && job.spec.stages[k].drain.Some?
    requires w.now <= since + job.spec.stages[k].timeout
    ensures Reaches(job, w, Written(w, SetStage(Last(w), k, StageDone(Last(w).stages[k], w.now))), silent)
  {
    var st, inp := Last(w), InputAt(w, Acked);
    var st' := SetStage(st, k, StageDone(st.stages[k], w.now));
    Walk(job, w, k, k, silent);
    var v := PassAt(w, k);
    assert Decide(job, v.pass.value, inp) == Commit(st', false);
    var v' := w.(history := w.history + [st'], cache := Copy(|w.history| - 1, st'));
    ReachesStep(job, w, v, Iterate(inp), v', silent);
    SyncsTo(job, w, v', st');
    ReachesStep(job, w, v', Sync(|w.history|), Written(w, st'), silent);
  }

  /** The name of the Job of stage `j`. */
  function JobName(job: MaintenanceJob, j: nat): string
    requires j < |job.spec.stages|
  {
    job.name + "." + job.spec.stages[j].name
  }

  predicate IsPodStage(spec: StageSpec) {
    spec.pod.Some? && !spec.Managed()
  }

  /** No other stage has the name of stage `k`. */
  predicate NameIsUnique(job: MaintenanceJob, k: nat)
    requires k < |job.spec.stages|
  {
    forall j :: 0 <= j < |job.spec.stages| && j != k ==> job.spec.stages[j].name != job.spec.stages[k].name
  }

  predicate Named(job: MaintenanceJob, st: JobStatus) {
    && |st.stages| == |job.spec.stages|
    && forall j :: 0 <= j < |st.stages| ==> st.stages[j].name == job.spec.stages[j].name
  }

  /** The runner creates the Job of an idle pod stage. */
  lemma Launches(job: MaintenanceJob, w: World, k: nat, silent: bool)
    requires Calm(w) && Open(job, Last(w), k) && Due(job, Last(w), k, w.now)
    requires Last(w).stages[k] == EmptyStage(job.spec.stages[k].name) && IsPodStage(job.spec.stages[k])
    requires JobName(job, k) !in w.batch
    ensures var b := GenerateJob(job, job.spec.stages[k], w.now);
            Reaches(job, w, w.(batch := w.batch[JobName(job, k) := b]), silent)
  {
    var b, inp := GenerateJob(job, job.spec.stages[k], w.now), InputAt(w, Acked);
    Walk(job, w, k, k, silent);
    var v := PassAt(w, k);
    assert DueAt(job, Last(w), k, w.now);
    assert Decide(job, v.pass.value, inp) == Launch(b);
    ReachesStep(job, w, v, Iterate(inp), w.(batch := w.batch[JobName(job, k) := b]), silent);
  }

  /** A report on the Job of stage `k` is written, by a reporter that does write. */
  lemma Reported(job: MaintenanceJob, w: World, k: nat, b: BatchJob, report: BatchStatus)
    requires Calm(w) && Named(job, Last(w)) && k < |job.spec.stages| && NameIsUnique(job, k)
    requires JobName(job, k) in w.batch && w.batch[JobName(job, k)] == b
    requires b == GenerateJob(job, job.spec.stages[k], b.creation) && ValidBatchStatus(report)
    requires !IsSet(Last(w).stages[k].finishedAt)
    ensures var s := StageFromBatch(job.spec.stages[k].name, b, report, w.now);
            Reaches(job, w, Written(w, SetStage(Last(w), k, s)), false)
  {
    var st, name := Last(w), job.spec.stages[k].name;
    var s := StageFromBatch(name, b, report, w.now);
    var st' := SetStage(st, k, s);
    ReportStagesAt(st.stages, k, s);
    var c := Copy(|w.history| - 1, st');
    assert Route(b) == Some((job.namespace, job.name, name));
    assert ReportCopy(w, job, b, report) == Some(c);
    ReachesSelf(job, w, false);
    var v := w.(inflight := {c});
    ReachesStep(job, w, w, Report(JobName(job, k), report), v, false);
    var v' := w.(history := w.history + [st']);
    assert {c} - {c} == {};
    ReachesStep(job, w, v, Deliver(c), v', false);
    SyncsTo(job, w, v', st');
    ReachesStep(job, w, v', Sync(|w.history|), Written(w, st'), false);
  }

  // ---------------------------------------------------------------------- stage after stage

  /** The names of pod stages are not used by other stages, so that reports find their way. */
  predicate Routable(job: MaintenanceJob) {
    forall i :: 0 <= i < |job.spec.stages| && IsPodStage(job.spec.stages[i]) ==> NameIsUnique(job, i)
  }

  predicate NoPodBelow(job: MaintenanceJob, k: nat) {
    forall i :: 0 <= i < k && i < |job.spec.stages| ==> !IsPodStage(job.spec.stages[i])
  }

  /** A stage the runner can get past. */
  predicate CanPass(spec: StageSpec) {
    spec.Managed() ==> spec.drain.Some? && spec.timeout >= 0
  }

  ghost predicate BatchBelow(job: MaintenanceJob, batch: map<string, BatchJob>, k: nat) {
    forall n :: n in batch ==>
      exists j :: 0 <= j < k && j < |job.spec.stages| && IsPodStage(job.spec.stages[j]) && n == JobName(job, j)
  }

  /** The first `k` stages are behind, the others untouched. */
  ghost predicate AtStage(job: MaintenanceJob, w: World, k: nat) {
    && Calm(w) && w.now > ZERO_TIME && k <= |job.spec.stages| && job.spec.stages != []
    && Named(job, Last(w)) && Last(w).succeededAt.None? && Last(w).failedAt.None?
    && (forall j :: 0 <= j < k ==> PassedBy(job.spec.stages[j], Last(w).stages[j]))
    && (forall j :: k <= j < |job.spec.stages| ==> Last(w).stages[j] == EmptyStage(job.spec.stages[j].name))
    && BatchBelow(job, w.batch, k)
  }

  /** Waiting until the stages up to `k` are due. */
  lemma Waits(job: MaintenanceJob, w: World, k: nat, silent: bool) returns (w': World)
    requires AtStage(job, w, k) && k < |job.spec.stages|
    ensures Reaches(job, w, w', silent) && AtStage(job, w', k) && Open(job, Last(w'), k)
    ensures Due(job, Last(w'), k, w'.now)
  {
    var t := SomeTimeIsDue(job, Last(w), k, w.now);
    w' := w.(now := t);
    ReachesSelf(job, w, silent);
    ReachesStep(job, w, w, Tick(t), w', silent);
  }

  lemma WrittenAtNext(job: MaintenanceJob, w: World, k: nat, s: StageStatus, batch: map<string, BatchJob>)
    requires AtStage(job, w, k) && k < |job.spec.stages| && s.name == job.spec.stages[k].name
    requires PassedBy(job.spec.stages[k], s) && BatchBelow(job, batch, k + 1)
    ensures AtStage(job, Written(w.(batch := batch), SetStage(Last(w), k, s)), k + 1)
  {
  }

  const SUCCESS := BatchStatus(0, 1, 0, None, [])

  /** The Job of an idle pod stage is created and a report on it written. */
  lemma RunsPod(job: MaintenanceJob, w: World, k: nat, report: BatchStatus)
    requires Routable(job) && AtStage(job, w, k) && k < |job.spec.stages| && IsPodStage(job.spec.stages[k])
    requires Open(job, Last(w), k) && Due(job, Last(w), k, w.now) && ValidBatchStatus(report)
    ensures var b := GenerateJob(job, job.spec.stages[k], w.now);
            Reaches(job, w, Written(w.(batch := w.batch[JobName(job, k) := b]),
                              SetStage(Last(w), k, StageFromBatch(job.spec.stages[k].name, b, report, w.now))), false)
  {
    var b := GenerateJob(job, job.spec.stages[k], w.now);
    JobNameIsFree(job, w.batch, k);
    Launches(job, w, k, false);
    var v := w.(batch := w.batch[JobName(job, k) := b]);
    Reported(job, v, k, b, report);
    var s := StageFromBatch(job.spec.stages[k].name, b, report, w.now);
    ReachesOn(job, w, v, Written(v, SetStage(Last(w), k, s)), false);
  }

  lemma PassesPod(job: MaintenanceJob, w: World, k: nat) returns (w': World)
    requires Routable(job) && AtStage(job, w, k) && k < |job.spec.stages| && IsPodStage(job.spec.stages[k])
    requires Open(job, Last(w), k) && Due(job, Last(w), k, w.now)
    ensures Reaches(job, w, w', false) && AtStage(job, w', k + 1)
  {
    var b := GenerateJob(job, job.spec.stages[k], w.now);
    var s, batch := StageFromBatch(job.spec.stages[k].name, b, SUCCESS, w.now), w.batch[JobName(job, k) := b];
    RunsPod(job, w, k, SUCCESS);
    w' := Written(w.(batch := batch), SetStage(Last(w), k, s));
    BatchGrows(job, w.batch, k, b);
    WrittenAtNext(job, w, k, s, batch);
  }

  lemma BatchGrows(job: MaintenanceJob, batch: map<string, BatchJob>, k: nat, b: BatchJob)
    requires BatchBelow(job, batch, k) && k < |job.spec.stages| && IsPodStage(job.spec.stages[k])
    ensures BatchBelow(job, batch[JobName(job, k) := b], k + 1)
  {
  }

  lemma JobNameIsFree(job: MaintenanceJob, batch: map<string, BatchJob>, k: nat)
    requires Routable(job) && BatchBelow(job, batch, k) && k < |job.spec.stages|
    ensures JobName(job, k) !in batch
  {
    forall j | 0 <= j < k && IsPodStage(job.spec.stages[j]) ensures JobName(job, k) != JobName(job, j) {
      assert NameIsUnique(job, j);
      assert JobName(job, k)[|job.name| + 1..] == job.spec.stages[k].name;
      assert JobName(job, j)[|job.name| + 1..] == job.spec.stages[j].name;
    }
  }

  lemma PassesDrain(job: MaintenanceJob, w: World, k: nat, silent: bool) returns (w': World)
    requires AtStage(job, w, k) && k < |job.spec.stages|
    requires job.spec.stages[k].drain.Some? && job.spec.stages[k].timeout >= 0
    requires Open(job, Last(w), k) && Due(job, Last(w), k, w.now)
    ensures Reaches(job, w, w', silent) && AtStage(job, w', k + 1)
  {
    var st := Last(w);
    var s := StageStarted(st.stages[k], w.now);
    StartsStage(job, w, k, silent);
    var v := Written(w, SetStage(st, k, s));
    StillDue(job, st, k, s, w.now);
    FinishesDrain(job, v, k, w.now, silent);
    var s' := StageDone(s, w.now);
    w' := Written(v, SetStage(Last(v), k, s'));
    ReachesOn(job, w, v, w', silent);
    assert SetStage(Last(v), k, s') == SetStage(st, k, s');
  }

  /** A new record of stage `k` does not change when the stages up to `k` are due. */
  lemma StillDue(job: MaintenanceJob, st: JobStatus, k: nat, s: StageStatus, t: Time)
    requires Open(job, st, k) && Due(job, st, k, t) && !s.succeeded
    ensures Open(job, SetStage(st, k, s), k) && Due(job, SetStage(st, k, s), k, t)
  {
    forall j | 0 <= j <= k ensures DueAt(job, SetStage(st, k, s), j, t) {
      assert DueAt(job, st, j, t);
    }
  }

  /** One more stage; a pod stage only with a reporter that writes. */
  lemma Advances(job: MaintenanceJob, w: World, k: nat, silent: bool) returns (w': World)
    requires AtStage(job, w, k) && k < |job.spec.stages| && CanPass(job.spec.stages[k])
    requires if silent then !IsPodStage(job.spec.stages[k]) else Routable(job)
    ensures Reaches(job, w, w', silent) && AtStage(job, w', k + 1)
  {
    var v := Waits(job, w, k, silent);
    if IsPodStage(job.spec.stages[k]) {
      w' := PassesPod(job, v, k);
      ReachesOn(job, w, v, w', silent);
    } else if job.spec.stages[k].Managed() {
      w' := PassesDrain(job, v, k, silent);
      ReachesOn(job, w, v, w', silent);
    } else {
      w' := w;
      ReachesSelf(job, w, silent);
    }
  }

  /** The handler of a new object completes its status. */
  lemma Announced(job: MaintenanceJob, now: Time, silent: bool) returns (w: World)
    requires now > ZERO_TIME && job.spec.stages != []
    ensures Reaches(job, InitWorld(now), w, silent) && AtStage(job, w, 0)
  {
    var w0 := InitWorld(now);
    CompletedKeeps(job.spec, []);
    var st := JobStatus(None, None, Completed(job.spec, []));
    var c := Copy(0, st);
    ReachesSelf(job, w0, silent);
    ReachesStep(job, w0, w0, Announce(Cached), w0.(inflight := {c}), silent);
    assert {c} - {c} == {};
    var v := w0.(history := w0.history + [st]);
    ReachesStep(job, w0, w0.(inflight := {c}), Deliver(c), v, silent);
    SyncsTo(job, w0, v, st);
    w := Written(w0, st);
    ReachesStep(job, w0, v, Sync(1), w, silent);
  }

  /**
   Every stage that only passable stages precede is reached by some run: without any report if no pod
   is among them, else with a reporter that writes.
   */
  lemma {:induction false} ReachesStage(job: MaintenanceJob, now: Time, k: nat, silent: bool) returns (w: World)
    requires now > ZERO_TIME && job.spec.stages != [] && k <= |job.spec.stages|
    requires forall j :: 0 <= j < k ==> CanPass(job.spec.stages[j])
    requires if silent then NoPodBelow(job, k) else Routable(job)
    ensures Reaches(job, InitWorld(now), w, silent) && AtStage(job, w, k)
  {
    if k == 0 {
      w := Announced(job, now, silent);
    } else {
      var v := ReachesStage(job, now, k - 1, silent);
      w := Advances(job, v, k - 1, silent);
      ReachesOn(job, InitWorld(now), v, w, silent);
    }
  }
}
