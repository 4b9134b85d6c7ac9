/**
 When the stage runner crashes.  `uncordonNodes` reads the drain spec of its stage, and the runner calls
 it only for stages that have none, so a running stage with an uncordon spec only is a nil dereference
 until it times out.  This module says exactly which jobs have a run that gets there.
 */
module StageCrash {
  import opened Types
  import opened JobReporter
  import opened StageSystem
  import opened StageRuns
  import opened StageSilence
  import opened DrainStages

  /** A stage with an uncordon spec only, that does not time out at once, behind stages that can succeed. */
  predicate MayCrash(job: MaintenanceJob) {
    exists u :: 0 <= u < |job.spec.stages| && CrashesAt(job, u)
  }

  /** The same with no pod before it, so that no report is needed to get there. */
  predicate MayCrashSilently(job: MaintenanceJob) {
    exists u :: 0 <= u < |job.spec.stages| && CrashesAt(job, u) && NoPodBelow(job, u)
  }

  predicate CrashesAt(job: MaintenanceJob, u: nat)
    requires u < |job.spec.stages|
  {
    && job.spec.stages[u].UncordonOnly() && job.spec.stages[u].timeout >= 0
    && forall i :: 0 <= i < u ==> CanPass(job.spec.stages[i])
  }

  // ---------------------------------------------------------------------- what every run keeps

  /** The record of a drain or uncordon stage: started in the past, done only if that is possible, failed only late. */
  predicate TidyStage(spec: StageSpec, s: StageStatus, now: Time) {
    spec.Managed() ==>
      && (Started(s) <==> s.running || s.succeeded || s.failed)
      && (Started(s) ==> s.scheduledAt.value <= now)
      && (s.succeeded ==> CanPass(spec))
      && EndedInTime(spec, s, now)
  }

  /** A finished stage ended after it started; a failed one, after its timeout. */
  predicate EndedInTime(spec: StageSpec, s: StageStatus, now: Time) {
    && (s.finishedAt.Some? ==> Started(s) && s.scheduledAt.value <= s.finishedAt.value <= now)
    && (s.failed ==>
          && s.finishedAt.Some? && s.scheduledAt.Some?
          && s.finishedAt.value > s.scheduledAt.value + spec.timeout
          && s.reason == "Timeout" && s.message == "job remains unfinished")
  }

  /** Drain and uncordon stages start in order. */
  predicate StartedInOrder(job: MaintenanceJob, stages: seq<StageStatus>)
    requires |stages| <= |job.spec.stages|
  {
    forall i, j :: 0 <= i < j < |stages| && job.spec.stages[i].Managed() && job.spec.stages[j].Managed() ==>
      (Started(stages[j]) ==> Started(stages[i]))
  }

  predicate Tidy(job: MaintenanceJob, stages: seq<StageStatus>, now: Time) {
    && |stages| <= |job.spec.stages|
    && (forall j {:trigger TidyStage(job.spec.stages[j], stages[j], now)} ::
          0 <= j < |stages| ==> TidyStage(job.spec.stages[j], stages[j], now))
    && StartedInOrder(job, stages)
  }

  /** The drain and uncordon stages the pass has left behind had succeeded when it met them, or were started by it. */
  predicate PassTidy(job: MaintenanceJob, p: Pass, now: Time) {
    && Tidy(job, p.seen, now) && Tidy(job, p.local.status.stages, now)
    && |p.seen| == |p.local.status.stages|
    && forall j :: 0 <= j < p.next && j < |p.seen| && job.spec.stages[j].Managed() ==>
         Started(p.local.status.stages[j]) && (p.seen[j].succeeded || !Started(p.seen[j]))
  }

  ghost predicate AllTidy(job: MaintenanceJob, w: World) {
    && (forall v {:trigger w.history[v]} :: 0 <= v < |w.history| ==> Tidy(job, w.history[v].stages, w.now))
    && Tidy(job, w.cache.status.stages, w.now)
    && (forall c :: c in w.inflight ==> Tidy(job, c.status.stages, w.now))
    && (w.pass.Some? ==> PassTidy(job, w.pass.value, w.now))
  }

  /** Jobs exist for pod stages only. */
  predicate IsJobOf(job: MaintenanceJob, b: BatchJob, i: nat) {
    i < |job.spec.stages| && IsPodStage(job.spec.stages[i]) && b == GenerateJob(job, job.spec.stages[i], b.creation)
  }

  ghost predicate PodsOnly(job: MaintenanceJob, batch: map<string, BatchJob>) {
    forall n :: n in batch ==> exists i: nat :: IsJobOf(job, batch[n], i)
  }

  ghost predicate CrashInv(job: MaintenanceJob, w: World) {
    && Inv(job, w) && AllTidy(job, w) && PodsOnly(job, w.batch)
    && (w.fault ==> MayCrash(job))
  }

  // ---------------------------------------------------------------------- one iteration

  lemma TidyLater(job: MaintenanceJob, stages: seq<StageStatus>, now: Time, later: Time)
    requires Tidy(job, stages, now) && now <= later
    ensures Tidy(job, stages, later)
  {
    forall j | 0 <= j < |stages| ensures TidyStage(job.spec.stages[j], stages[j], later) {
      assert TidyStage(job.spec.stages[j], stages[j], now);
    }
  }

  lemma SetStageTidy(job: MaintenanceJob, stages: seq<StageStatus>, i: nat, s: StageStatus, now: Time)
    requires Tidy(job, stages, now) && i < |stages| && TidyStage(job.spec.stages[i], s, now) && Started(s)
    requires forall j :: 0 <= j < i && job.spec.stages[j].Managed() ==> Started(stages[j])
    ensures Tidy(job, stages[i := s], now)
  {
    forall j | 0 <= j < |stages| ensures TidyStage(job.spec.stages[j], stages[i := s][j], now) {
      assert TidyStage(job.spec.stages[j], stages[j], now);
    }
  }

  /** What an iteration writes to an unfinished drain or uncordon stage. */
  lemma WrittenStageTidy(job: MaintenanceJob, w: World, p: Pass, inp: Input)
    requires PassOk(job, w, p) && p.next < |p.seen| && PassTidy(job, p, inp.check) && inp.check <= inp.stamp
    requires Decide(job, p, inp).Commit? && !p.seen[p.next].succeeded && !p.seen[p.next].failed
    ensures var i, st := p.next, Decide(job, p, inp).status;
            && i < |job.spec.stages| && job.spec.stages[i].Managed()
            && |st.stages| == |p.seen| && st == SetStage(p.local.status, i, st.stages[i])
            && Started(st.stages[i]) && TidyStage(job.spec.stages[i], st.stages[i], inp.stamp)
  {
    var i := p.next;
    assert p.local.status.stages[i] == p.seen[i] && StageOk(p.seen[i]);
    assert TidyStage(job.spec.stages[i], p.seen[i], inp.check);
  }

  lemma CommitTidy(job: MaintenanceJob, w: World, p: Pass, inp: Input)
    requires PassOk(job, w, p) && p.next < |p.seen| && PassTidy(job, p, inp.check) && inp.check <= inp.stamp
    requires Decide(job, p, inp).Commit?
    ensures Tidy(job, Decide(job, p, inp).status.stages, inp.stamp)
  {
    TidyLater(job, p.local.status.stages, inp.check, inp.stamp);
    if !p.seen[p.next].succeeded && !p.seen[p.next].failed {
      WrittenStageTidy(job, w, p, inp);
      SetStageTidy(job, p.local.status.stages, p.next, Decide(job, p, inp).status.stages[p.next], inp.stamp);
    }
  }

  /** A stage the pass leaves behind without a write is done or has no action. */
  lemma SkipTidy(job: MaintenanceJob, w: World, p: Pass, inp: Input)
    requires PassOk(job, w, p) && p.next < |p.seen| && PassTidy(job, p, inp.check)
    requires Decide(job, p, inp).Skip?
    ensures PassTidy(job, p.(next := p.next + 1), inp.check)
  {
    var i := p.next;
    assert p.local.status.stages[i] == p.seen[i];
    assert TidyStage(job.spec.stages[i], p.seen[i], inp.check);
  }

  lemma ResumeTidy(job: MaintenanceJob, w: World, p: Pass, inp: Input, v: nat)
    requires PassOk(job, w, p) && p.next < |p.seen| && PassTidy(job, p, inp.check) && inp.check <= inp.stamp
    requires Decide(job, p, inp).Commit? && Decide(job, p, inp).resume
    ensures PassTidy(job, Pass(p.next + 1, p.seen, Copy(v, Decide(job, p, inp).status), false), inp.stamp)
  {
    var i := p.next;
    CommitTidy(job, w, p, inp);
    TidyLater(job, p.seen, inp.check, inp.stamp);
    assert p.local.status.stages[i] == p.seen[i];
    assert TidyStage(job.spec.stages[i], p.seen[i], inp.check);
    if !p.seen[i].succeeded && !p.seen[i].failed {
      WrittenStageTidy(job, w, p, inp);
    }
  }

  /** A crash shows that the stage the pass has come to is one that may crash. */
  lemma CrashMeans(job: MaintenanceJob, w: World, p: Pass, inp: Input)
    requires PassOk(job, w, p) && p.next < |p.seen| && PassTidy(job, p, inp.check) && ZERO_TIME < inp.stamp
    requires Decide(job, p, inp).Crash?
    ensures p.next < |job.spec.stages| && CrashesAt(job, p.next)
  {
    var u := p.next;
    DecideOk(job, w, p, inp);
    assert StageOk(p.local.status.stages[u]) && p.seen[u] == p.local.status.stages[u];
    assert TidyStage(job.spec.stages[u], p.seen[u], inp.check);
    forall i | 0 <= i < u ensures CanPass(job.spec.stages[i]) {
      assert TidyStage(job.spec.stages[i], p.seen[i], inp.check);
    }
  }

  // ---------------------------------------------------------------------- steps

  lemma TickTidy(job: MaintenanceJob, w: World, t: Time)
    requires AllTidy(job, w) && w.now <= t
    ensures AllTidy(job, w.(now := t))
  {
    forall v | 0 <= v < |w.history| ensures Tidy(job, w.history[v].stages, t) {
      TidyLater(job, w.history[v].stages, w.now, t);
    }
    TidyLater(job, w.cache.status.stages, w.now, t);
    forall c | c in w.inflight ensures Tidy(job, c.status.stages, t) {
      TidyLater(job, c.status.stages, w.now, t);
    }
    if w.pass.Some? {
      TidyLater(job, w.pass.value.seen, w.now, t);
      TidyLater(job, w.pass.value.local.status.stages, w.now, t);
    }
  }

  lemma EffectTidy(job: MaintenanceJob, w: World, p: Pass, e: Effect, net: Net)
    requires AllTidy(job, w) && w.pass == Some(p)
    requires e.Commit? ==> Tidy(job, e.status.stages, w.now)
    requires e.Commit? && e.resume ==>
               PassTidy(job, Pass(p.next + 1, p.seen, Copy(|w.history|, e.status), false), w.now)
    requires e.Skip? ==> PassTidy(job, p.(next := p.next + 1), w.now)
    ensures AllTidy(job, RunEffect(w, p, e, net))
  {
  }

  lemma LaunchPods(job: MaintenanceJob, p: Pass, inp: Input)
    requires p.next < |p.seen| == |p.local.status.stages| && Decide(job, p, inp).Launch?
    ensures IsJobOf(job, Decide(job, p, inp).batch, p.next)
  {
  }

  lemma IterateTidy(job: MaintenanceJob, w: World, inp: Input)
    requires Inv(job, w) && AllTidy(job, w) && w.pass.Some? && w.now <= inp.check <= inp.stamp
    ensures AllTidy(job, IteratePass(job, w, inp))
  {
    var p, w' := w.pass.value, w.(now := inp.stamp);
    TickTidy(job, w, inp.stamp);
    TickTidy(job, w, inp.check);
    if p.next < |p.seen| {
      var e := Decide(job, p, inp);
      if e.Commit? {
        CommitTidy(job, w, p, inp);
        if e.resume {
          ResumeTidy(job, w, p, inp, |w.history|);
        }
      } else if e.Skip? {
        SkipTidy(job, w, p, inp);
        TickTidy(job, w.(now := inp.check, pass := Some(p.(next := p.next + 1))), inp.stamp);
      }
      EffectTidy(job, w', p, e, inp.net);
    }
  }

  /** Only launching changes the Jobs, and only a crash sets the flag. */
  lemma EffectFrame(w: World, p: Pass, e: Effect, net: Net)
    ensures var w' := RunEffect(w, p, e, net);
            && (w'.batch == w.batch || (e.Launch? && w'.batch == w.batch[e.batch.name := e.batch]))
            && w'.fault == (w.fault || e.Crash?)
  {
  }

  lemma IterateFlags(job: MaintenanceJob, w: World, inp: Input)
    requires Inv(job, w) && AllTidy(job, w) && PodsOnly(job, w.batch)
    requires w.pass.Some? && w.now <= inp.check <= inp.stamp
    ensures var w', u := IteratePass(job, w, inp), w.pass.value.next;
            PodsOnly(job, w'.batch) && (w'.fault ==> w.fault || (u < |job.spec.stages| && CrashesAt(job, u)))
  {
    var p := w.pass.value;
    if p.next < |p.seen| {
      var e := Decide(job, p, inp);
      EffectFrame(w.(now := inp.stamp), p, e, inp.net);
      if e.Launch? {
        LaunchPods(job, p, inp);
      } else if e.Crash? {
        TickTidy(job, w, inp.check);
        CrashMeans(job, w, p, inp);
      }
    }
  }

  lemma IterateCrash(job: MaintenanceJob, w: World, inp: Input, w': World)
    requires CrashInv(job, w) && w.pass.Some? && w.now <= inp.check <= inp.stamp && w' == IteratePass(job, w, inp)
    ensures CrashInv(job, w')
  {
    IterateKeepsInv(job, w, inp);
    IterateTidy(job, w, inp);
    IterateFlags(job, w, inp);
  }

  lemma CompletedTidy(job: MaintenanceJob, stages: seq<StageStatus>, now: Time)
    requires Tidy(job, stages, now)
    ensures Tidy(job, Completed(job.spec, stages), now)
  {
    CompletedKeeps(job.spec, stages);
    var r := Completed(job.spec, stages);
    assert forall j :: 0 <= j < |stages| ==> r[j] == r[..|stages|][j];
    forall j | 0 <= j < |r| ensures TidyStage(job.spec.stages[j], r[j], now) {
      assert j < |stages| ==> TidyStage(job.spec.stages[j], stages[j], now);
    }
  }

  lemma AnnounceTidy(job: MaintenanceJob, w: World, c: Copy)
    requires AllTidy(job, w) && Tidy(job, c.status.stages, w.now)
    ensures AllTidy(job, AnnounceFrom(job, w, c))
  {
    CompletedTidy(job, c.status.stages, w.now);
  }

  /** A report on a pod stage leaves drain and uncordon stages alone. */
  lemma ReportTidy(job: MaintenanceJob, stages: seq<StageStatus>, i: nat, s: StageStatus, now: Time)
    requires Routable(job) && Tidy(job, stages, now) && i < |job.spec.stages| && IsPodStage(job.spec.stages[i])
    requires forall j :: 0 <= j < |stages| ==> stages[j].name == job.spec.stages[j].name
    ensures Tidy(job, ReportStages(stages, job.spec.stages[i].name, s), now)
  {
    var r := ReportStages(stages, job.spec.stages[i].name, s);
    assert NameIsUnique(job, i);
    forall j | 0 <= j < |r| ensures job.spec.stages[j].Managed() ==> r[j] == stages[j] {
      ReportStagesPointwise(stages, job.spec.stages[i].name, s, j);
    }
    forall j | 0 <= j < |r| ensures TidyStage(job.spec.stages[j], r[j], now) {
      assert TidyStage(job.spec.stages[j], stages[j], now);
    }
  }

  lemma SendTidy(job: MaintenanceJob, w: World, c: Copy)
    requires AllTidy(job, w) && Tidy(job, c.status.stages, w.now)
    ensures AllTidy(job, w.(inflight := w.inflight + {c}))
  {
  }

  lemma ReportCopyTidy(job: MaintenanceJob, w: World, b: BatchJob, st: BatchStatus, i: nat)
    requires Routable(job) && StatusOk(job, w.cache.status) && Tidy(job, w.cache.status.stages, w.now)
    requires IsJobOf(job, b, i)
    ensures var c := ReportCopy(w, job, b, st); c.Some? && Tidy(job, c.value.status.stages, w.now)
  {
    var stage := job.spec.stages[i].name;
    assert Route(b) == Some((job.namespace, job.name, stage));
    ReportTidy(job, w.cache.status.stages, i, StageFromBatch(stage, b, st, w.now), w.now);
  }

  lemma ReportStepTidy(job: MaintenanceJob, w: World, name: string, st: BatchStatus)
    requires Routable(job) && StatusOk(job, w.cache.status) && AllTidy(job, w) && PodsOnly(job, w.batch)
    ensures AllTidy(job, Apply(job, w, Report(name, st)))
  {
    if name in w.batch && ValidBatchStatus(st) {
      var b := w.batch[name];
      var i: nat :| IsJobOf(job, b, i);
      ReportCopyTidy(job, w, b, st, i);
      ReportSends(job, w, name, st);
      SendTidy(job, w, ReportCopy(w, job, b, st).value);
    }
  }

  lemma OtherStepTidy(job: MaintenanceJob, w: World, step: Step)
    requires Inv(job, w) && AllTidy(job, w) && PodsOnly(job, w.batch) && !step.Iterate?
    requires step.Report? ==> Routable(job)
    ensures AllTidy(job, Apply(job, w, step))
  {
    match step
    case Tick(t) =>
      if w.now <= t {
        TickTidy(job, w, t);
      }
    case Report(name, st) => ReportStepTidy(job, w, name, st);
    case Announce(Cached) => AnnounceTidy(job, w, w.cache);
    case Announce(Past(v)) =>
      if v < |w.history| {
        AnnounceTidy(job, w, Copy(v, w.history[v]));
      }
    case _ =>
  }

  lemma OtherStepQuiet(job: MaintenanceJob, w: World, step: Step)
    requires !step.Iterate? && job.spec.stages != []
    ensures Apply(job, w, step).fault == w.fault && Apply(job, w, step).batch == w.batch
  {
  }

  lemma StepKeepsCrashInv(job: MaintenanceJob, w: World, step: Step)
    requires job.spec.stages != [] && CrashInv(job, w) && (step.Report? ==> Routable(job))
    ensures CrashInv(job, Apply(job, w, step))
  {
    if step.Iterate? {
      if w.pass.Some? && w.now <= step.input.check <= step.input.stamp {
        IterateCrash(job, w, step.input, Apply(job, w, step));
      }
    } else {
      StepKeepsInv(job, w, step);
      OtherStepTidy(job, w, step);
      OtherStepQuiet(job, w, step);
    }
  }

  lemma {:induction false} RunKeepsCrashInv(job: MaintenanceJob, now: Time, steps: seq<Step>)
    requires now > ZERO_TIME && job.spec.stages != [] && (Routable(job) || Silent(steps))
    ensures CrashInv(job, Execute(job, InitWorld(now), steps))
  {
    if steps != [] {
      RunKeepsCrashInv(job, now, steps[..|steps| - 1]);
      StepKeepsCrashInv(job, Execute(job, InitWorld(now), steps[..|steps| - 1]), steps[|steps| - 1]);
    } else {
      RunKeepsInv(job, now, steps);
    }
  }

  /** A step of a silent run that crashes does so at a stage with no pod before it. */
  lemma SilentStepCrash(job: MaintenanceJob, w: World, step: Step, w': World)
    requires job.spec.stages != [] && CrashInv(job, w) && AllSilent(job, w) && w' == Apply(job, w, step)
    ensures w'.fault ==> w.fault || MayCrashSilently(job)
  {
    if step.Iterate? {
      if w.pass.Some? && w.now <= step.input.check <= step.input.stamp {
        IterateFlags(job, w, step.input);
      }
    } else {
      OtherStepQuiet(job, w, step);
    }
  }

  lemma {:induction false} SilentRunCrash(job: MaintenanceJob, now: Time, steps: seq<Step>)
    requires now > ZERO_TIME && job.spec.stages != [] && Silent(steps)
    ensures Execute(job, InitWorld(now), steps).fault ==> MayCrashSilently(job)
  {
    if steps != [] {
      var before := steps[..|steps| - 1];
      SilentRunCrash(job, now, before);
      RunKeepsCrashInv(job, now, before);
      RunSilent(job, now, before);
      var w, w' := Execute(job, InitWorld(now), before), Execute(job, InitWorld(now), steps);
      SilentStepCrash(job, w, steps[|steps| - 1], w');
    }
  }

  // ---------------------------------------------------------------------- results over all runs

  /** A running stage with an uncordon spec only crashes the runner. */
  lemma CrashesRunner(job: MaintenanceJob, w: World, k: nat, since: Time, silent: bool)
    requires Calm(w) && Open(job, Last(w), k) && Due(job, Last(w), k, w.now) && RunningAt(Last(w), k, since)
    requires job.spec.stages[k].UncordonOnly() && w.now <= since + job.spec.stages[k].timeout
    ensures Reaches(job, w, w.(fault := true), silent)
  {
    var inp := InputAt(w, Acked);
    Walk(job, w, k, k, silent);
    var v := PassAt(w, k);
    assert Decide(job, v.pass.value, inp) == Crash;
    ReachesStep(job, w, v, Iterate(inp), w.(fault := true), silent);
  }

  /** Every job that may crash has a run that does, without any report if no pod is in the way. */
  lemma CrashRun(job: MaintenanceJob, now: Time, u: nat, silent: bool) returns (steps: seq<Step>)
    requires now > ZERO_TIME && u < |job.spec.stages| && CrashesAt(job, u)
    requires if silent then NoPodBelow(job, u) else Routable(job)
    ensures Execute(job, InitWorld(now), steps).fault && (silent ==> Silent(steps))
  {
    var w0 := ReachesStage(job, now, u, silent);
    var w := Waits(job, w0, u, silent);
    var st := Last(w);
    var s := StageStarted(st.stages[u], w.now);
    StartsStage(job, w, u, silent);
    var v := Written(w, SetStage(st, u, s));
    StillDue(job, st, u, s, w.now);
    CrashesRunner(job, v, u, w.now, silent);
    ReachesOn(job, InitWorld(now), w0, w, silent);
    ReachesOn(job, InitWorld(now), w, v, silent);
    ReachesOn(job, InitWorld(now), v, v.(fault := true), silent);
    steps :| (silent ==> Silent(steps)) && Execute(job, InitWorld(now), steps) == v.(fault := true);
  }

  /**
   The code as written, for every job: no silent run crashes exactly if there is a stage, and every
   stage that has an uncordon spec only times out at once, or comes behind a pod or a drain or uncordon
   stage that cannot succeed.
   */
  lemma SilentCrashFreeIff(job: MaintenanceJob, now: Time)
    requires now > ZERO_TIME
    ensures (forall steps :: Silent(steps) ==> !Execute(job, InitWorld(now), steps).fault)
       <==> job.spec.stages != [] && !MayCrashSilently(job)
  {
    if job.spec.stages == [] {
      StagelessJobCrashes(job, now);
      assert Silent([Announce(Cached)]);
    } else if MayCrashSilently(job) {
      var u :| 0 <= u < |job.spec.stages| && CrashesAt(job, u) && NoPodBelow(job, u);
      var steps := CrashRun(job, now, u, true);
    } else {
      forall steps | Silent(steps) ensures !Execute(job, InitWorld(now), steps).fault {
        SilentRunCrash(job, now, steps);
      }
    }
  }

  /**
   With a reporter that writes, and for jobs whose pod stages have names of their own: no run crashes
   exactly if there is a stage, and every stage that has an uncordon spec only times out at once or comes
   behind a drain or uncordon stage that cannot succeed.
   */
  lemma CrashFreeIff(job: MaintenanceJob, now: Time)
    requires now > ZERO_TIME && Routable(job)
    ensures (forall steps :: !Execute(job, InitWorld(now), steps).fault) <==> job.spec.stages != [] && !MayCrash(job)
  {
    if job.spec.stages == [] {
      StagelessJobCrashes(job, now);
    } else if MayCrash(job) {
      var u :| 0 <= u < |job.spec.stages| && CrashesAt(job, u);
      var steps := CrashRun(job, now, u, false);
    } else {
      forall steps ensures !Execute(job, InitWorld(now), steps).fault {
        RunKeepsCrashInv(job, now, steps);
      }
    }
  }

  lemma {:induction false} FirstWithoutDrain(job: MaintenanceJob, k: nat) returns (u: nat)
    requires k < |job.spec.stages| && job.spec.stages[k].drain.None?
    ensures u <= k && job.spec.stages[u].drain.None?
    ensures forall i :: 0 <= i < u ==> job.spec.stages[i].drain.Some?
  {
    if j :| 0 <= j < k && job.spec.stages[j].drain.None? {
      u := FirstWithoutDrain(job, j);
    } else {
      u := k;
    }
  }

  /**
   With timeouts that are not negative, a job of drain and uncordon stages is free of crashes exactly if
   every stage has a drain spec.
   */
  lemma ManagedCrashFreeIff(job: MaintenanceJob, now: Time)
    requires now > ZERO_TIME && ManagedOnly(job)
    requires forall i :: 0 <= i < |job.spec.stages| ==> job.spec.stages[i].timeout >= 0
    ensures (forall steps :: !Execute(job, InitWorld(now), steps).fault)
       <==> forall i :: 0 <= i < |job.spec.stages| ==> job.spec.stages[i].drain.Some?
  {
    CrashFreeIff(job, now);
    if k :| 0 <= k < |job.spec.stages| && job.spec.stages[k].drain.None? {
      var u := FirstWithoutDrain(job, k);
      assert CrashesAt(job, u);
    }
  }

  /** In no run does a stage with an uncordon spec only succeed; it ends by its timeout or not at all. */
  lemma UncordonNeverSucceeds(job: MaintenanceJob, now: Time, steps: seq<Step>, v: nat, j: nat)
    requires now > ZERO_TIME && (Routable(job) || Silent(steps))
    requires v < |Execute(job, InitWorld(now), steps).history|
    requires j < |Execute(job, InitWorld(now), steps).history[v].stages| && j < |job.spec.stages|
    requires job.spec.stages[j].UncordonOnly()
    ensures !Execute(job, InitWorld(now), steps).history[v].stages[j].succeeded
  {
    RunKeepsCrashInv(job, now, steps);
    var w := Execute(job, InitWorld(now), steps);
    assert Tidy(job, w.history[v].stages, w.now);
    assert TidyStage(job.spec.stages[j], w.history[v].stages[j], w.now);
  }

  /** So no run of a drain and uncordon job with such a stage records a success. */
  lemma UncordonJobNeverSucceeds(job: MaintenanceJob, now: Time, steps: seq<Step>, v: nat, j: nat)
    requires now > ZERO_TIME && ManagedOnly(job) && j < |job.spec.stages| && job.spec.stages[j].UncordonOnly()
    requires v < |Execute(job, InitWorld(now), steps).history|
    ensures Execute(job, InitWorld(now), steps).history[v].succeededAt.None?
  {
    DrainResults(job, now, steps, v);
    var st := Execute(job, InitWorld(now), steps).history[v];
    if st.succeededAt.Some? {
      assert Done(st.stages[j]);
      UncordonNeverSucceeds(job, now, steps, v, j);
    }
  }
}
