/**
 MaintenanceJobs with distinct stage names whose stages are pods, except that the last one may be a
 drain or uncordon stage.  Their stages run strictly one after the other, each after its delay.
 */
module PodStages {
  import opened Types
  import opened JobReporter
  import opened StageSystem

  predicate PodJob(job: MaintenanceJob) {
    var stages := job.spec.stages;
    && stages != []
    && (forall i, j :: 0 <= i < j < |stages| ==> stages[i].name != stages[j].name)
    && (forall i :: 0 <= i < |stages| ==> stages[i].HasAction())
    && (forall i :: 0 <= i < |stages| - 1 ==> !stages[i].Managed())
  }

  predicate StartedFirst(s: StageStatus) {
    !Started(s) ==> s.finishedAt.None? && !s.running && !s.succeeded && !s.failed
  }

  predicate DoneBelow(st: JobStatus, j: nat) {
    forall i :: 0 <= i < j && i < |st.stages| ==> Done(st.stages[i])
  }

  /** Whatever precedes a started stage is done, and the stage started no sooner than its delay after that. */
  predicate StageInTurn(job: MaintenanceJob, st: JobStatus, j: nat)
    requires j < |st.stages| <= |job.spec.stages|
  {
    && StartedFirst(st.stages[j])
    && (Started(st.stages[j]) ==>
          && DoneBelow(st, j)
          && st.stages[j].scheduledAt.value >= DelayBase(job, st, j) + job.spec.stages[j].delay)
  }

  predicate InTurn(job: MaintenanceJob, st: JobStatus) {
    && |st.stages| <= |job.spec.stages|
    && forall j {:trigger StageInTurn(job, st, j)} :: 0 <= j < |st.stages| ==> StageInTurn(job, st, j)
  }

  /** Edits made to the cached object can only concern the last stage and the job's result. */
  predicate CleanBelowLast(job: MaintenanceJob, history: seq<JobStatus>, c: Copy) {
    && c.version < |history|
    && |c.status.stages| == |history[c.version].stages|
    && forall j :: 0 <= j < |c.status.stages| && j < |job.spec.stages| - 1 ==>
         c.status.stages[j] == history[c.version].stages[j]
  }

  /** Job `b` was created for stage `i`, whose turn it was, and after its delay. */
  predicate LaunchedFor(job: MaintenanceJob, st: JobStatus, b: BatchJob, i: nat) {
    && i < |st.stages| && i < |job.spec.stages|
    && !job.spec.stages[i].Managed()
    && b == GenerateJob(job, job.spec.stages[i], b.creation)
    && DoneBelow(st, i)
    && b.creation >= DelayBase(job, st, i) + job.spec.stages[i].delay
  }

  ghost predicate Launched(job: MaintenanceJob, st: JobStatus, b: BatchJob) {
    exists i :: LaunchedFor(job, st, b, i)
  }

  /** A pass that can still create a Job works on a version the cache has reached. */
  predicate PassInTurn(job: MaintenanceJob, w: World, p: Pass) {
    && InTurn(job, p.local.status)
    && CleanBelowLast(job, w.history, p.local)
    && |p.seen| == |p.local.status.stages|
    && (forall j :: 0 <= j < p.next && j < |p.seen| && j < |job.spec.stages| - 1 ==>
          Done(p.seen[j]) && p.local.status.stages[j] == p.seen[j])
    && (|| p.local.version <= w.cache.version
        || p.next >= |job.spec.stages|
        || JobSucceeded(job.spec, p.local.status))
  }

  ghost predicate AllInTurn(job: MaintenanceJob, w: World) {
    && (forall v :: 0 <= v < |w.history| ==> InTurn(job, w.history[v]))
    && InTurn(job, w.cache.status)
    && CleanBelowLast(job, w.history, w.cache)
    && (forall c :: c in w.inflight ==> InTurn(job, c.status))
    && (w.pass.Some? ==> PassInTurn(job, w, w.pass.value))
  }

  ghost predicate AllLaunched(job: MaintenanceJob, st: JobStatus, batch: map<string, BatchJob>) {
    forall n :: n in batch ==> batch[n].name == n && Launched(job, st, batch[n])
  }

  ghost predicate PodInv(job: MaintenanceJob, w: World) {
    Inv(job, w) && AllInTurn(job, w) && AllLaunched(job, w.cache.status, w.batch)
  }

  /** A new record for the first stage that is not done keeps stages in turn: nothing later has started. */
  lemma SetTurnInTurn(job: MaintenanceJob, st: JobStatus, i: nat, s: StageStatus)
    requires InTurn(job, st) && i < |st.stages|
    requires !Done(st.stages[i]) && DoneBelow(st, i)
    requires Started(s) && s.scheduledAt.value >= DelayBase(job, st, i) + job.spec.stages[i].delay
    ensures InTurn(job, SetStage(st, i, s))
  {
    var st' := SetStage(st, i, s);
    forall j | 0 <= j < |st'.stages| ensures StageInTurn(job, st', j) {
      assert StageInTurn(job, st, j);
      if j <= i {
        assert DelayBase(job, st', j) == DelayBase(job, st, j);
      } else {
        assert !Started(st.stages[j]);
      }
    }
  }

  lemma SameStagesInTurn(job: MaintenanceJob, st: JobStatus, st': JobStatus)
    requires InTurn(job, st) && st'.stages == st.stages
    ensures InTurn(job, st')
  {
    forall j | 0 <= j < |st'.stages| ensures StageInTurn(job, st', j) {
      assert StageInTurn(job, st, j);
    }
  }

  /** What a committing iteration guarantees: stages in turn, and nothing below the last stage edited. */
  predicate TurnEffect(job: MaintenanceJob, p: Pass, e: Effect)
    requires e.Commit?
  {
    && InTurn(job, e.status)
    && |e.status.stages| == |p.seen| == |p.local.status.stages|
    && (forall j :: 0 <= j < |p.seen| && j < |job.spec.stages| - 1 ==> e.status.stages[j] == p.local.status.stages[j])
    && (e.resume ==>
          && (p.next + 1 >= |job.spec.stages| || JobSucceeded(job.spec, e.status))
          && (p.next < |p.seen| && p.next < |job.spec.stages| - 1 ==> Done(p.seen[p.next])))
  }

  lemma DecideLast(job: MaintenanceJob, p: Pass, inp: Input, s: StageStatus)
    requires PodJob(job) && InTurn(job, p.local.status)
    requires p.next == |job.spec.stages| - 1 && p.next < |p.seen| == |p.local.status.stages|
    requires DoneBelow(p.local.status, p.next)
    requires s == p.seen[p.next] == p.local.status.stages[p.next] && StageOk(s) && !s.failed && !s.succeeded
    requires inp.check <= inp.stamp
    requires Decide(job, p, inp).Commit?
    ensures TurnEffect(job, p, Decide(job, p, inp))
  {
    var i, st := p.next, p.local.status;
    var e := Decide(job, p, inp);
    assert StageInTurn(job, st, i);
    assert e.status == SetStage(st, i, e.status.stages[i]);
    SetTurnInTurn(job, st, i, e.status.stages[i]);
  }

  /** A pass that has come as far as an unfinished stage it may edit has come to the last one. */
  lemma CommitMeans(job: MaintenanceJob, p: Pass, inp: Input)
    requires PodJob(job) && p.next < |p.seen| == |p.local.status.stages|
    requires Decide(job, p, inp).Commit?
    ensures var s, e := p.seen[p.next], Decide(job, p, inp);
            if s.failed then e.status.stages == p.local.status.stages && !e.resume
            else if s.succeeded then e.status.stages == p.local.status.stages && JobSucceeded(job.spec, p.local.status)
            else p.next == |job.spec.stages| - 1
  {
  }

  lemma DecideInTurn(job: MaintenanceJob, w: World, p: Pass, inp: Input)
    requires PodJob(job) && inp.check <= inp.stamp
    requires PassOk(job, w, p) && PassInTurn(job, w, p) && p.next < |p.seen|
    requires Decide(job, p, inp).Commit?
    ensures TurnEffect(job, p, Decide(job, p, inp))
  {
    CommitMeans(job, p, inp);
    var s := p.seen[p.next];
    assert p.local.status.stages[p.next] == s && StageOk(s);
    if s.failed || s.succeeded {
      SameStagesInTurn(job, p.local.status, Decide(job, p, inp).status);
    } else {
      DecideLast(job, p, inp, s);
    }
  }

  /** What holds of a Job at one cached status holds at any that agrees with it below the last stage. */
  lemma LaunchedTransfers(job: MaintenanceJob, st: JobStatus, st': JobStatus, b: BatchJob)
    requires Launched(job, st, b)
    requires |st.stages| <= |st'.stages|
    requires forall j :: 0 <= j < |st.stages| && j < |job.spec.stages| - 1 && Done(st.stages[j]) ==>
               st'.stages[j] == st.stages[j]
    ensures Launched(job, st', b)
  {
    var i :| LaunchedFor(job, st, b, i);
    assert LaunchedFor(job, st', b, i);
  }

  lemma LaunchMeans(job: MaintenanceJob, p: Pass, inp: Input)
    requires p.next < |p.seen| == |p.local.status.stages|
    requires Decide(job, p, inp).Launch?
    ensures p.next < |job.spec.stages| && !p.seen[p.next].succeeded && !job.spec.stages[p.next].Managed()
    ensures inp.check >= DelayBase(job, p.local.status, p.next) + job.spec.stages[p.next].delay
    ensures Decide(job, p, inp).batch == GenerateJob(job, job.spec.stages[p.next], inp.stamp)
  {
  }

  lemma SucceededLastAllDone(job: MaintenanceJob, st: JobStatus, i: nat)
    requires InTurn(job, st) && job.spec.stages != [] && JobSucceeded(job.spec, st) && i < |st.stages|
    ensures st.stages[i].succeeded
  {
    assert StageInTurn(job, st, |st.stages| - 1);
  }

  /** A pass about to create a Job works on a version the cache has reached. */
  lemma LaunchIsFresh(job: MaintenanceJob, w: World, p: Pass, inp: Input)
    requires PodJob(job) && PassOk(job, w, p) && PassInTurn(job, w, p) && p.next < |p.seen|
    requires Decide(job, p, inp).Launch?
    ensures p.local.version <= w.cache.version
  {
    LaunchMeans(job, p, inp);
    if JobSucceeded(job.spec, p.local.status) {
      SucceededLastAllDone(job, p.local.status, p.next);
    }
  }

  /** A Job is created only when the cache, too, shows that it is that stage's turn. */
  lemma LaunchInTurn(job: MaintenanceJob, w: World, p: Pass, inp: Input)
    requires PodJob(job) && HistoryOk(job, w.history) && CleanBelowLast(job, w.history, w.cache)
    requires PassOk(job, w, p) && PassInTurn(job, w, p) && p.next < |p.seen|
    requires inp.check <= inp.stamp
    requires Decide(job, p, inp).Launch?
    ensures Launched(job, w.cache.status, Decide(job, p, inp).batch)
  {
    LaunchMeans(job, p, inp);
    LaunchIsFresh(job, w, p, inp);
    var i, st, b := p.next, p.local.status, Decide(job, p, inp).batch;
    assert KeepsFinished(w.history[p.local.version], w.history[w.cache.version]);
    forall j | 0 <= j < i ensures w.cache.status.stages[j] == st.stages[j] && Done(st.stages[j]) {
      assert StageOk(st.stages[j]);
    }
    assert DelayBase(job, w.cache.status, i) == DelayBase(job, st, i);
    assert LaunchedFor(job, w.cache.status, b, i);
  }

  lemma CommitCleanBelow(job: MaintenanceJob, w: World, p: Pass, e: Effect, net: Net)
    requires CleanBelowLast(job, w.history, w.cache) && CleanBelowLast(job, w.history, p.local)
    requires p.aliased ==> p.local == w.cache
    requires e.Commit? && TurnEffect(job, p, e)
    ensures var w' := CommitStatus(w, p, e.status, e.resume, net);
            CleanBelowLast(job, w'.history, w'.cache)
  {
  }

  lemma CommitPassInTurn(job: MaintenanceJob, w: World, p: Pass, e: Effect, net: Net)
    requires PassOk(job, w, p) && PassInTurn(job, w, p) && p.next < |p.seen|
    requires e.Commit? && TurnEffect(job, p, e)
    ensures var w' := CommitStatus(w, p, e.status, e.resume, net);
            w'.pass.Some? ==> PassInTurn(job, w', w'.pass.value)
  {
    assert p.local.status.stages[p.next] == p.seen[p.next];
  }

  lemma CommitInTurn(job: MaintenanceJob, w: World, p: Pass, e: Effect, net: Net)
    requires PassOk(job, w, p) && AllInTurn(job, w) && w.pass == Some(p) && p.next < |p.seen|
    requires e.Commit? && TurnEffect(job, p, e)
    ensures AllInTurn(job, CommitStatus(w, p, e.status, e.resume, net))
  {
    CommitCleanBelow(job, w, p, e, net);
    CommitPassInTurn(job, w, p, e, net);
  }

  lemma CommitLaunched(job: MaintenanceJob, w: World, p: Pass, e: Effect, net: Net)
    requires AllLaunched(job, w.cache.status, w.batch)
    requires p.aliased ==> p.local == w.cache
    requires e.Commit? && TurnEffect(job, p, e)
    ensures AllLaunched(job, CommitStatus(w, p, e.status, e.resume, net).cache.status, w.batch)
  {
    var w' := CommitStatus(w, p, e.status, e.resume, net);
    forall n | n in w.batch ensures Launched(job, w'.cache.status, w.batch[n]) {
      LaunchedTransfers(job, w.cache.status, w'.cache.status, w.batch[n]);
    }
  }

  lemma SkipInTurn(job: MaintenanceJob, w: World, p: Pass, inp: Input)
    requires PodJob(job) && PassOk(job, w, p) && PassInTurn(job, w, p) && p.next < |p.seen|
    requires Decide(job, p, inp).Skip?
    ensures PassInTurn(job, w, p.(next := p.next + 1))
  {
    assert p.local.status.stages[p.next] == p.seen[p.next];
    assert p.next < |job.spec.stages| ==> job.spec.stages[p.next].HasAction();
    assert Done(p.seen[p.next]);
  }

  lemma EffectInTurn(job: MaintenanceJob, w: World, p: Pass, e: Effect, net: Net)
    requires PassOk(job, w, p) && AllInTurn(job, w) && w.pass == Some(p) && p.next < |p.seen|
    requires e.Commit? ==> TurnEffect(job, p, e)
    requires e.Skip? ==> PassInTurn(job, w, p.(next := p.next + 1))
    ensures AllInTurn(job, RunEffect(w, p, e, net))
  {
    if e.Commit? {
      CommitInTurn(job, w, p, e, net);
    } else if e.Skip? {
      assert PassInTurn(job, RunEffect(w, p, e, net), p.(next := p.next + 1));
    }
  }

  lemma EffectLaunched(job: MaintenanceJob, w: World, p: Pass, e: Effect, net: Net)
    requires AllLaunched(job, w.cache.status, w.batch)
    requires p.aliased ==> p.local == w.cache
    requires e.Commit? ==> TurnEffect(job, p, e)
    requires e.Launch? ==> Launched(job, w.cache.status, e.batch)
    ensures var w' := RunEffect(w, p, e, net); AllLaunched(job, w'.cache.status, w'.batch)
  {
    if e.Commit? {
      CommitLaunched(job, w, p, e, net);
    }
  }

  lemma TickInTurn(job: MaintenanceJob, w: World, t: Time)
    requires AllInTurn(job, w)
    ensures AllInTurn(job, w.(now := t))
  {
    assert w.pass.Some? ==> PassInTurn(job, w.(now := t), w.pass.value);
  }

  lemma DecideTurns(job: MaintenanceJob, w: World, p: Pass, inp: Input)
    requires PodJob(job) && HistoryOk(job, w.history) && CleanBelowLast(job, w.history, w.cache)
    requires PassOk(job, w, p) && PassInTurn(job, w, p) && p.next < |p.seen|
    requires inp.check <= inp.stamp
    ensures var e := Decide(job, p, inp);
            && (e.Commit? ==> TurnEffect(job, p, e))
            && (e.Skip? ==> PassInTurn(job, w, p.(next := p.next + 1)))
            && (e.Launch? ==> Launched(job, w.cache.status, e.batch))
  {
    var e := Decide(job, p, inp);
    if e.Commit? {
      DecideInTurn(job, w, p, inp);
    } else if e.Skip? {
      SkipInTurn(job, w, p, inp);
    } else if e.Launch? {
      LaunchInTurn(job, w, p, inp);
    }
  }

  lemma PodIterate(job: MaintenanceJob, w: World, inp: Input)
    requires PodJob(job) && PodInv(job, w) && w.pass.Some? && w.now <= inp.check <= inp.stamp
    ensures PodInv(job, IteratePass(job, w, inp))
  {
    IterateKeepsInv(job, w, inp);
    StepKeepsInv(job, w, Tick(inp.stamp));
    TickInTurn(job, w, inp.stamp);
    var p, w' := w.pass.value, w.(now := inp.stamp);
    if p.next < |p.seen| {
      DecideTurns(job, w', p, inp);
      EffectInTurn(job, w', p, Decide(job, p, inp), inp.net);
      EffectLaunched(job, w', p, Decide(job, p, inp), inp.net);
    }
  }

  /** The reporter's copy gives stage `i` a new record only while it is unfinished. */
  lemma ReportInTurn(job: MaintenanceJob, c: JobStatus, b: BatchJob, st: BatchStatus, now: Time, i: nat)
    requires PodJob(job) && StatusOk(job, c) && InTurn(job, c) && LaunchedFor(job, c, b, i)
    ensures Route(b) == Some((job.namespace, job.name, c.stages[i].name))
    ensures var s := StageFromBatch(c.stages[i].name, b, st, now);
            InTurn(job, c.(stages := ReportStages(c.stages, c.stages[i].name, s)))
  {
    var s := StageFromBatch(c.stages[i].name, b, st, now);
    assert forall j :: 0 <= j < |c.stages| ==> c.stages[j].name == job.spec.stages[j].name;
    ReportStagesAt(c.stages, i, s);
    assert StageOk(c.stages[i]);
    if !IsSet(c.stages[i].finishedAt) {
      SetTurnInTurn(job, c, i, s);
    }
  }

  lemma AnnouncedInTurn(job: MaintenanceJob, st: JobStatus)
    requires InTurn(job, st)
    ensures InTurn(job, st.(stages := Completed(job.spec, st.stages)))
  {
    CompletedKeeps(job.spec, st.stages);
    var st' := st.(stages := Completed(job.spec, st.stages));
    assert forall j :: 0 <= j < |st.stages| ==> st'.stages[j] == st'.stages[..|st.stages|][j];
    forall j | 0 <= j < |st'.stages| ensures StageInTurn(job, st', j) {
      if j < |st.stages| {
        assert StageInTurn(job, st, j);
      }
    }
  }

  lemma SendInTurn(job: MaintenanceJob, w: World, c: Copy)
    requires AllInTurn(job, w) && InTurn(job, c.status)
    ensures AllInTurn(job, w.(inflight := w.inflight + {c}))
  {
    var w' := w.(inflight := w.inflight + {c});
    assert w.pass.Some? ==> PassInTurn(job, w', w.pass.value);
  }

  lemma AnnounceInTurn(job: MaintenanceJob, w: World, c: Copy)
    requires AllInTurn(job, w) && InTurn(job, c.status)
    ensures AllInTurn(job, AnnounceFrom(job, w, c))
  {
    AnnouncedInTurn(job, c.status);
    SendInTurn(job, w, c.(status := c.status.(stages := Completed(job.spec, c.status.stages))));
    TickInTurn(job, w.(fault := true), w.now);
  }

  lemma ReportStepInTurn(job: MaintenanceJob, w: World, name: string, st: BatchStatus)
    requires PodJob(job) && StatusOk(job, w.cache.status)
    requires AllInTurn(job, w) && AllLaunched(job, w.cache.status, w.batch)
    ensures AllInTurn(job, Apply(job, w, Report(name, st)))
  {
    if name in w.batch && ValidBatchStatus(st) {
      var i :| LaunchedFor(job, w.cache.status, w.batch[name], i);
      ReportInTurn(job, w.cache.status, w.batch[name], st, w.now, i);
      ReportSends(job, w, name, st);
      SendInTurn(job, w, ReportCopy(w, job, w.batch[name], st).value);
    }
  }

  lemma SyncLaunched(job: MaintenanceJob, w: World, v: nat)
    requires HistoryOk(job, w.history) && StatusOk(job, w.cache.status) && CleanBelowLast(job, w.history, w.cache)
    requires AllLaunched(job, w.cache.status, w.batch) && w.cache.version <= v < |w.history|
    ensures AllLaunched(job, w.history[v], w.batch)
  {
    var c, c' := w.cache.status, w.history[v];
    assert KeepsFinished(w.history[w.cache.version], c');
    forall j | 0 <= j < |c.stages| && j < |job.spec.stages| - 1 && Done(c.stages[j])
      ensures c'.stages[j] == c.stages[j]
    {
      assert StageOk(c.stages[j]);
    }
    forall n | n in w.batch ensures Launched(job, c', w.batch[n]) {
      LaunchedTransfers(job, c, c', w.batch[n]);
    }
  }

  lemma SyncInTurn(job: MaintenanceJob, w: World, v: nat)
    requires AllInTurn(job, w) && w.cache.version <= v < |w.history|
    ensures AllInTurn(job, SyncCache(w, v))
  {
    var w' := SyncCache(w, v);
    assert w.pass.Some? ==> PassInTurn(job, w', w'.pass.value);
  }

  lemma BeginInTurn(job: MaintenanceJob, w: World)
    requires AllInTurn(job, w) && w.pass.None?
    ensures AllInTurn(job, BeginPass(w))
  {
    var w' := BeginPass(w);
    assert w'.pass.Some? ==> PassInTurn(job, w', w'.pass.value);
  }

  lemma GrowthInTurn(job: MaintenanceJob, w: World, st: JobStatus, inflight: set<Copy>)
    requires AllInTurn(job, w) && InTurn(job, st) && inflight <= w.inflight
    ensures AllInTurn(job, w.(history := w.history + [st], inflight := inflight))
    ensures AllInTurn(job, w.(inflight := inflight))
  {
    var w' := w.(history := w.history + [st], inflight := inflight);
    assert w.pass.Some? ==> PassInTurn(job, w', w.pass.value);
    assert w.pass.Some? ==> PassInTurn(job, w.(inflight := inflight), w.pass.value);
  }

  lemma OtherStepInTurn(job: MaintenanceJob, w: World, step: Step)
    requires Inv(job, w) && AllInTurn(job, w) && !step.Iterate? && !step.Report?
    ensures AllInTurn(job, Apply(job, w, step))
  {
    match step
    case Tick(t) => TickInTurn(job, w, t);
    case Sync(v) =>
      if w.cache.version <= v < |w.history| {
        SyncInTurn(job, w, v);
      }
    case Touch => GrowthInTurn(job, w, w.history[|w.history| - 1], w.inflight);
    case Begin =>
      if w.pass.None? {
        BeginInTurn(job, w);
      }
    case Announce(Cached) => AnnounceInTurn(job, w, w.cache);
    case Announce(Past(v)) =>
      if v < |w.history| {
        AnnounceInTurn(job, w, Copy(v, w.history[v]));
      }
    case Deliver(c) =>
      if c in w.inflight {
        GrowthInTurn(job, w, c.status, w.inflight - {c});
      }
    case Drop(c) => GrowthInTurn(job, w, w.cache.status, w.inflight - {c});
  }

  /** Only an iteration launches Jobs, and only it and a cache update change the cached status. */
  lemma OtherStepFrame(job: MaintenanceJob, w: World, step: Step)
    requires !step.Iterate?
    ensures var w' := Apply(job, w, step);
            && w'.batch == w.batch
            && w'.cache.status == (if step.Sync? && w.cache.version <= step.version < |w.history|
                                   then w.history[step.version] else w.cache.status)
  {
  }

  lemma OtherStepLaunched(job: MaintenanceJob, w: World, step: Step, w': World)
    requires Inv(job, w) && AllInTurn(job, w) && AllLaunched(job, w.cache.status, w.batch)
    requires !step.Iterate? && w' == Apply(job, w, step)
    ensures AllLaunched(job, w'.cache.status, w'.batch)
  {
    OtherStepFrame(job, w, step);
    if step.Sync? && w.cache.version <= step.version < |w.history| {
      SyncLaunched(job, w, step.version);
    }
  }

  lemma PodStep(job: MaintenanceJob, w: World, step: Step)
    requires PodJob(job) && PodInv(job, w)
    ensures PodInv(job, Apply(job, w, step))
  {
    if step.Iterate? {
      if w.pass.Some? && w.now <= step.input.check <= step.input.stamp {
        PodIterate(job, w, step.input);
      }
    } else {
      StepKeepsInv(job, w, step);
      OtherStepLaunched(job, w, step, Apply(job, w, step));
      if step.Report? {
        ReportStepInTurn(job, w, step.name, step.status);
      } else {
        OtherStepInTurn(job, w, step);
      }
    }
  }

  lemma {:induction false} PodRun(job: MaintenanceJob, now: Time, steps: seq<Step>)
    requires PodJob(job) && now > ZERO_TIME
    ensures PodInv(job, Execute(job, InitWorld(now), steps))
  {
    if steps != [] {
      PodRun(job, now, steps[..|steps| - 1]);
      PodStep(job, Execute(job, InitWorld(now), steps[..|steps| - 1]), steps[|steps| - 1]);
    } else {
      RunKeepsInv(job, now, steps);
    }
  }

  lemma InTurnStartsOne(job: MaintenanceJob, st: JobStatus, j: nat)
    requires InTurn(job, st) && DoneCount(st.stages) < j < |st.stages|
    ensures !Started(st.stages[j]) && StartedFirst(st.stages[j])
  {
    assert StageInTurn(job, st, j);
  }

  /**
   In every run, every status the server ever held has the shape: `k` done stages, then at most one
   stage that is started and not done, then stages never started.
   */
  lemma OneStageAtATime(job: MaintenanceJob, now: Time, steps: seq<Step>, v: nat) returns (k: nat)
    requires PodJob(job) && now > ZERO_TIME
    requires v < |Execute(job, InitWorld(now), steps).history|
    ensures var stages := Execute(job, InitWorld(now), steps).history[v].stages;
            && k <= |stages|
            && (forall j :: 0 <= j < k ==> Done(stages[j]))
            && (k < |stages| ==> !Done(stages[k]))
            && (forall j :: k < j < |stages| ==>
                  !Started(stages[j]) && !stages[j].running && !stages[j].succeeded && !stages[j].failed)
  {
    PodRun(job, now, steps);
    var st := Execute(job, InitWorld(now), steps).history[v];
    k := DoneCount(st.stages);
    forall j | k < j < |st.stages| ensures !Started(st.stages[j]) && StartedFirst(st.stages[j]) {
      InTurnStartsOne(job, st, j);
    }
  }

  /**
   In every run stage `j` has started only if all earlier stages succeeded, and no sooner than its
   delay after the previous stage finished, or after the job's creation for the first stage.
   */
  lemma StartsAfterDelay(job: MaintenanceJob, now: Time, steps: seq<Step>, v: nat, j: nat)
    requires PodJob(job) && now > ZERO_TIME
    requires v < |Execute(job, InitWorld(now), steps).history|
    requires j < |Execute(job, InitWorld(now), steps).history[v].stages|
    requires Execute(job, InitWorld(now), steps).history[v].stages[j].scheduledAt.Some?
    ensures var stages := Execute(job, InitWorld(now), steps).history[v].stages;
            && j < |job.spec.stages|
            && (forall i :: 0 <= i < j ==> stages[i].succeeded && !stages[i].failed && stages[i].finishedAt.Some?)
            && stages[j].scheduledAt.value >=
                 (if j == 0 then job.creation else stages[j - 1].finishedAt.value) + job.spec.stages[j].delay
  {
    PodRun(job, now, steps);
    var st := Execute(job, InitWorld(now), steps).history[v];
    assert InTurn(job, st) && StatusOk(job, st);
    assert StageInTurn(job, st, j);
    forall i | 0 <= i < j ensures Done(st.stages[i]) && IsSet(st.stages[i].finishedAt) {
      assert StageOk(st.stages[i]);
    }
  }
}
