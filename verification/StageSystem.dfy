/**
 The life of one MaintenanceJob object: an API server that accepts a status write only at the
 current version, an informer cache that lags behind it, the stage runner
 (`scheduleMaintenanceJob`), the Job reporter (`onJobUpdated`) and the handler that completes a new
 object's status (`onMaintenanceJobAdded`).

 The runner works on the cached object itself and edits it before the write is accepted, so a
 refused write leaves the cache dirty; after an accepted write it goes on with the server's answer.
 A run is an arbitrary sequence of steps; a step that is not possible leaves the world as it is.
 */
module StageSystem {
  import opened Types
  import opened JobReporter

  /** A status as some party holds it, with the version it was read at. */
  datatype Copy = Copy(version: nat, status: JobStatus)

  /**
   A runner pass between two loop iterations.  `seen` is the stage slice the Go loop ranges over,
   `local` the object `mtJob` points to, `aliased` whether that is still the cached object.
   */
  datatype Pass = Pass(next: nat, seen: seq<StageStatus>, local: Copy, aliased: bool)

  datatype ActionResult = ActionOk | ActionError(message: string)

  /** What one loop iteration meets: its two clock readings, the drain or uncordon result, the API outcome. */
  datatype Input = Input(check: Time, stamp: Time, action: ActionResult, net: Net)

  /** What one loop iteration decides to do. */
  datatype Effect =
    | Quit                                       // return without a write
    | Crash                                      // index out of range or nil dereference
    | Skip                                       // continue with the next stage
    | Commit(status: JobStatus, resume: bool)    // edit the object, write it, then continue or return
    | Launch(batch: BatchJob)                    // create the Job of a pod stage, then return

  /** `history[v]` is the status the server held at version `v`; the last entry is current. */
  datatype World = World(
    history: seq<JobStatus>, cache: Copy, pass: Option<Pass>, inflight: set<Copy>,
    batch: map<string, BatchJob>, now: Time, fault: bool)

  datatype Source = Cached | Past(version: nat)

  datatype Step =
    | Tick(now: Time)                            // the clock moves on
    | Sync(version: nat)                         // the informer replaces the cached object
    | Touch                                      // a metadata write by anyone: new version, same status
    | Begin                                      // a runner pass starts
    | Iterate(input: Input)                      // the pass executes one loop iteration
    | Report(name: string, status: BatchStatus)  // the reporter computes a status write
    | Announce(source: Source)                   // the added handler computes a status write
    | Deliver(copy: Copy)                        // a computed write reaches the server
    | Drop(copy: Copy)                           // a computed write is lost or never sent

  // ---------------------------------------------------------------------- stage runner

  function StageStarted(s: StageStatus, at: Time): StageStatus {
    s.(scheduledAt := Some(at), running := true)
  }

  function StageDone(s: StageStatus, at: Time): StageStatus {
    s.(finishedAt := Some(at), running := false, succeeded := true, failed := false)
  }

  function StageTimedOut(s: StageStatus, at: Time): StageStatus {
    s.(finishedAt := Some(at), running := false, succeeded := false, failed := true,
       reason := "Timeout", message := "job remains unfinished")
  }

  function StageRetried(s: StageStatus, message: string): StageStatus {
    s.(reason := "TemporaryFailure", message := message)
  }

  function SetStage(st: JobStatus, i: nat, s: StageStatus): JobStatus
    requires i < |st.stages|
  {
    st.(stages := st.stages[i := s])
  }

  /** The instant a stage's delay counts from; Go's zero time if the previous stage has not finished. */
  function DelayBase(job: MaintenanceJob, st: JobStatus, i: nat): Time
    requires i <= |st.stages|
  {
    if i == 0 then job.creation
    else if IsSet(st.stages[i - 1].finishedAt) then st.stages[i - 1].finishedAt.value
    else ZERO_TIME
  }

  /** One iteration of the stage loop. */
  function Decide(job: MaintenanceJob, p: Pass, inp: Input): Effect
    requires p.next < |p.seen| == |p.local.status.stages|
  {
    var i, st := p.next, p.local.status;
    var s := p.seen[i];
    if s.failed then
      if !IsSet(s.finishedAt) then Quit else Commit(st.(failedAt := s.finishedAt), false)
    else if s.succeeded then
      if !IsSet(s.finishedAt) then Quit
      else if JobSucceeded(job.spec, st) then Commit(st.(succeededAt := s.finishedAt), true)
      else Skip
    else if i >= |job.spec.stages| then Crash
    else if s.running then DecideRunning(job.spec.stages[i], st, i, s, inp)
    else if inp.check < DelayBase(job, st, i) + job.spec.stages[i].delay then Quit
    else if job.spec.stages[i].Managed() then Commit(SetStage(st, i, StageStarted(st.stages[i], inp.stamp)), true)
    else if job.spec.stages[i].pod.Some? then Launch(GenerateJob(job, job.spec.stages[i], inp.stamp))
    else Skip
  }

  function DecideRunning(spec: StageSpec, st: JobStatus, i: nat, s: StageStatus, inp: Input): Effect
    requires i < |st.stages|
  {
    if !spec.Managed() then Quit
    else if s.scheduledAt.None? then Crash
    else if inp.check > s.scheduledAt.value + spec.timeout then
      Commit(SetStage(st, i, StageTimedOut(st.stages[i], inp.stamp)), false)
    else if spec.drain.None? then Crash
    else match inp.action
      case ActionError(m) => Commit(SetStage(st, i, StageRetried(st.stages[i], m)), false)
      case ActionOk => Commit(SetStage(st, i, StageDone(st.stages[i], inp.stamp)), false)
  }

  /** `UpdateStatus` of the edited object: the edit is in place, the write needs the current version. */
  function CommitStatus(w: World, p: Pass, st: JobStatus, resume: bool, net: Net): World {
    var applied := !net.Refused? && p.local.version == |w.history| - 1;
    w.(history := if applied then w.history + [st] else w.history,
       cache := if p.aliased then Copy(p.local.version, st) else w.cache,
       pass := if applied && net.Acked? && resume
               then Some(Pass(p.next + 1, p.seen, Copy(|w.history|, st), false))
               else None)
  }

  function RunEffect(w: World, p: Pass, e: Effect, net: Net): World {
    match e
    case Quit => w.(pass := None)
    case Crash => w.(pass := None, fault := true)
    case Skip => w.(pass := Some(p.(next := p.next + 1)))
    case Commit(st, resume) => CommitStatus(w, p, st, resume, net)
    case Launch(b) =>
      w.(pass := None, batch := if net.Refused? || b.name in w.batch then w.batch else w.batch[b.name := b])
  }

  function IteratePass(job: MaintenanceJob, w: World, inp: Input): World
    requires w.pass.Some?
  {
    var p, w' := w.pass.value, w.(now := inp.stamp);
    if p.next >= |p.seen| then w'.(pass := None)
    else if |p.local.status.stages| != |p.seen| then w'.(pass := None, fault := true)
    else RunEffect(w', p, Decide(job, p, inp), inp.net)
  }

  function BeginPass(w: World): World {
    if w.cache.status.succeededAt.Some? || w.cache.status.failedAt.Some? then w
    else w.(pass := Some(Pass(0, w.cache.status.stages, w.cache, true)))
  }

  // ---------------------------------------------------------------------- the two other writers

  function SyncCache(w: World, v: nat): World
    requires v < |w.history|
  {
    w.(cache := Copy(v, w.history[v]),
       pass := if w.pass.Some? then Some(w.pass.value.(aliased := false)) else None)
  }

  /** The reporter's write, computed from a deep copy of the cached object and sent at some later time. */
  function ReportCopy(w: World, job: MaintenanceJob, b: BatchJob, st: BatchStatus): Option<Copy> {
    match Route(b)
    case Some((ns, name, stage)) =>
      if ns != job.namespace || name != job.name then None
      else Some(w.cache.(status := w.cache.status.(stages :=
                  ReportStages(w.cache.status.stages, stage, StageFromBatch(stage, b, st, w.now)))))
    case None => None
  }

  /** Kubernetes never stores a zero completion time. */
  predicate ValidBatchStatus(st: BatchStatus) {
    st.completionTime.Some? ==> IsSet(st.completionTime)
  }

  function EmptyStage(name: string): StageStatus {
    StageStatus(name, None, None, "", "", false, false, false)
  }

  /** The loop of `onMaintenanceJobAdded`: one empty record for every spec stage that has none yet. */
  function Completed(spec: JobSpec, stages: seq<StageStatus>): (r: seq<StageStatus>)
    requires |stages| <= |spec.stages|
    ensures |r| == |spec.stages|
    decreases |spec.stages| - |stages|
  {
    if |stages| == |spec.stages| then stages
    else Completed(spec, stages + [EmptyStage(spec.stages[|stages|].name)])
  }

  function AnnounceFrom(job: MaintenanceJob, w: World, c: Copy): World {
    if |c.status.stages| == |job.spec.stages| == 0 then w.(fault := true)
    else if JobFinished(job.spec, c.status) then w
    else if |c.status.stages| >= |job.spec.stages| then w
    else w.(inflight := w.inflight + {c.(status := c.status.(stages := Completed(job.spec, c.status.stages)))})
  }

  function DeliverCopy(w: World, c: Copy): World {
    w.(inflight := w.inflight - {c},
       history := if c.version == |w.history| - 1 then w.history + [c.status] else w.history)
  }

  // ---------------------------------------------------------------------- runs

  function Apply(job: MaintenanceJob, w: World, step: Step): World {
    match step
    case Tick(t) => if w.now <= t then w.(now := t) else w
    case Sync(v) => if w.cache.version <= v < |w.history| then SyncCache(w, v) else w
    case Touch => if w.history == [] then w else w.(history := w.history + [w.history[|w.history| - 1]])
    case Begin => if w.pass.None? then BeginPass(w) else w
    case Iterate(inp) => if w.pass.Some? && w.now <= inp.check <= inp.stamp then IteratePass(job, w, inp) else w
    case Report(name, st) =>
      if name !in w.batch || !ValidBatchStatus(st) then w
      else (match ReportCopy(w, job, w.batch[name], st)
            case Some(c) => w.(inflight := w.inflight + {c})
            case None => w)
    case Announce(Cached) => AnnounceFrom(job, w, w.cache)
    case Announce(Past(v)) => if v < |w.history| then AnnounceFrom(job, w, Copy(v, w.history[v])) else w
    case Deliver(c) => if c in w.inflight then DeliverCopy(w, c) else w
    case Drop(c) => w.(inflight := w.inflight - {c})
  }

  function Execute(job: MaintenanceJob, w: World, steps: seq<Step>): World
    decreases |steps|
  {
    if steps == [] then w
    else Apply(job, Execute(job, w, steps[..|steps| - 1]), steps[|steps| - 1])
  }

  /** A run of the code as written, whose Job reporter never decides to write. */
  predicate Silent(steps: seq<Step>) {
    forall i :: 0 <= i < |steps| ==> !steps[i].Report?
  }

  /** A freshly created object: empty status, no Job, no pass; the clock has been set. */
  function InitWorld(now: Time): World {
    var st := JobStatus(None, None, []);
    World([st], Copy(0, st), None, {}, map[], now, false)
  }

  /** The server's current status. */
  function Last(w: World): JobStatus
    requires w.history != []
  {
    w.history[|w.history| - 1]
  }

  // ---------------------------------------------------------------------- what every run keeps

  /** A record is finished exactly when it has succeeded or failed, and a running one has been scheduled. */
  predicate StageOk(s: StageStatus) {
    && (IsSet(s.finishedAt) <==> s.succeeded || s.failed)
    && (s.finishedAt.Some? ==> IsSet(s.finishedAt))
    && (s.running ==> s.scheduledAt.Some?)
  }

  predicate StatusOk(job: MaintenanceJob, st: JobStatus) {
    && |st.stages| <= |job.spec.stages|
    && forall j :: 0 <= j < |st.stages| ==> st.stages[j].name == job.spec.stages[j].name && StageOk(st.stages[j])
  }

  /** Every finished record of `a` is in `b`, unchanged. */
  predicate KeepsFinished(a: JobStatus, b: JobStatus) {
    && |a.stages| <= |b.stages|
    && forall j :: 0 <= j < |a.stages| && IsSet(a.stages[j].finishedAt) ==> b.stages[j] == a.stages[j]
  }

  /** What is known of any copy held by anyone, however dirty: it extends the version it was read at. */
  predicate CopyOk(job: MaintenanceJob, history: seq<JobStatus>, c: Copy) {
    && c.version < |history|
    && StatusOk(job, c.status)
    && KeepsFinished(history[c.version], c.status)
  }

  predicate PassOk(job: MaintenanceJob, w: World, p: Pass) {
    && CopyOk(job, w.history, p.local)
    && |p.seen| == |p.local.status.stages|
    && (forall j :: p.next <= j < |p.seen| ==> p.seen[j] == p.local.status.stages[j])
    && (p.aliased ==> p.local == w.cache)
  }

  ghost predicate HistoryOk(job: MaintenanceJob, history: seq<JobStatus>) {
    && history != []
    && (forall v :: 0 <= v < |history| ==> StatusOk(job, history[v]))
    && (forall u, v :: 0 <= u <= v < |history| ==> KeepsFinished(history[u], history[v]))
  }

  /** There is a stage, and every drain or uncordon stage has a drain spec. */
  predicate AllDrainsGiven(job: MaintenanceJob) {
    job.spec.stages != [] && forall i :: 0 <= i < |job.spec.stages| ==> !job.spec.stages[i].UncordonOnly()
  }

  ghost predicate Inv(job: MaintenanceJob, w: World) {
    && HistoryOk(job, w.history)
    && CopyOk(job, w.history, w.cache)
    && (w.pass.Some? ==> PassOk(job, w, w.pass.value))
    && (forall c :: c in w.inflight ==> CopyOk(job, w.history, c))
    && w.now > ZERO_TIME
    && (AllDrainsGiven(job) ==> !w.fault)
  }

  lemma AppendHistory(job: MaintenanceJob, history: seq<JobStatus>, c: Copy)
    requires HistoryOk(job, history)
    requires CopyOk(job, history, c) && c.version == |history| - 1
    ensures HistoryOk(job, history + [c.status])
  {
    var h := history + [c.status];
    forall u, v | 0 <= u <= v < |h| ensures KeepsFinished(h[u], h[v]) {
      if u < |history| && v == |history| {
        assert KeepsFinished(history[u], history[|history| - 1]);
      }
    }
  }

  /** What a copy satisfies it still satisfies after the server has moved on. */
  lemma CopyOkGrows(job: MaintenanceJob, history: seq<JobStatus>, st: JobStatus, c: Copy)
    requires CopyOk(job, history, c)
    ensures CopyOk(job, history + [st], c)
  {
  }

  /**
   A write that extends the version the pass works on and leaves later stages alone; a crash only where
   one is possible.
   */
  predicate EffectOk(job: MaintenanceJob, history: seq<JobStatus>, p: Pass, e: Effect) {
    && (e.Commit? ==>
          && CopyOk(job, history, Copy(p.local.version, e.status))
          && |e.status.stages| == |p.seen|
          && forall j :: p.next < j < |p.seen| ==> e.status.stages[j] == p.seen[j])
    && (e.Crash? ==> !AllDrainsGiven(job))
  }

  /**
   Whatever one iteration writes is a good copy of the version the pass works on, and it crashes
   exactly when it meets a running stage that has an uncordon spec only and is not timed out.
   */
  lemma DecideOk(job: MaintenanceJob, w: World, p: Pass, inp: Input)
    requires PassOk(job, w, p) && p.next < |p.seen|
    requires ZERO_TIME < inp.stamp
    ensures p.next < |job.spec.stages|
    ensures Decide(job, p, inp).Crash? <==>
              var s := p.seen[p.next];
              && s.running && !s.succeeded && !s.failed && job.spec.stages[p.next].UncordonOnly()
              && inp.check <= s.scheduledAt.value + job.spec.stages[p.next].timeout
    ensures EffectOk(job, w.history, p, Decide(job, p, inp))
  {
    var i, st := p.next, p.local.status;
    assert p.seen[i] == st.stages[i];
    assert StageOk(st.stages[i]);
  }

  lemma CommitKeepsInv(job: MaintenanceJob, w: World, p: Pass, st: JobStatus, resume: bool, net: Net)
    requires Inv(job, w) && w.pass == Some(p)
    requires CopyOk(job, w.history, Copy(p.local.version, st))
    requires |st.stages| == |p.seen| && forall j :: p.next < j < |p.seen| ==> st.stages[j] == p.seen[j]
    ensures Inv(job, CommitStatus(w, p, st, resume, net))
  {
    var w' := CommitStatus(w, p, st, resume, net);
    if !net.Refused? && p.local.version == |w.history| - 1 {
      AppendHistory(job, w.history, Copy(p.local.version, st));
      forall c | c in w.inflight ensures CopyOk(job, w'.history, c) {
        CopyOkGrows(job, w.history, st, c);
      }
      CopyOkGrows(job, w.history, st, w.cache);
      CopyOkGrows(job, w.history, st, Copy(p.local.version, st));
      assert KeepsFinished(w'.history[|w.history|], st);
    }
  }

  lemma EffectKeepsInv(job: MaintenanceJob, w: World, p: Pass, e: Effect, net: Net)
    requires Inv(job, w) && w.pass == Some(p) && p.next < |p.seen| && EffectOk(job, w.history, p, e)
    ensures Inv(job, RunEffect(w, p, e, net))
  {
    if e.Commit? {
      CommitKeepsInv(job, w, p, e.status, e.resume, net);
    } else if e.Skip? {
      assert PassOk(job, RunEffect(w, p, e, net), p.(next := p.next + 1));
    }
  }

  lemma TickKeepsInv(job: MaintenanceJob, w: World, t: Time)
    requires Inv(job, w) && w.now <= t
    ensures Inv(job, w.(now := t))
  {
    assert w.pass.Some? ==> PassOk(job, w.(now := t), w.pass.value);
  }

  lemma IterateKeepsInv(job: MaintenanceJob, w: World, inp: Input)
    requires Inv(job, w) && w.pass.Some? && w.now <= inp.check <= inp.stamp
    ensures Inv(job, IteratePass(job, w, inp))
  {
    var p, w' := w.pass.value, w.(now := inp.stamp);
    TickKeepsInv(job, w, inp.stamp);
    if p.next < |p.seen| {
      DecideOk(job, w', p, inp);
      EffectKeepsInv(job, w', p, Decide(job, p, inp), inp.net);
    }
  }

  lemma {:induction false} CompletedKeeps(spec: JobSpec, stages: seq<StageStatus>)
    requires |stages| <= |spec.stages|
    ensures Completed(spec, stages)[..|stages|] == stages
    ensures forall j :: |stages| <= j < |spec.stages| ==> Completed(spec, stages)[j] == EmptyStage(spec.stages[j].name)
    decreases |spec.stages| - |stages|
  {
    if |stages| < |spec.stages| {
      var s := stages + [EmptyStage(spec.stages[|stages|].name)];
      CompletedKeeps(spec, s);
      var r := Completed(spec, s);
      assert r == Completed(spec, stages);
      assert r[..|stages|] == r[..|s|][..|stages|] == stages;
      assert r[|stages|] == r[..|s|][|stages|];
    }
  }

  lemma AnnounceCopyOk(job: MaintenanceJob, history: seq<JobStatus>, c: Copy)
    requires CopyOk(job, history, c)
    ensures CopyOk(job, history, c.(status := c.status.(stages := Completed(job.spec, c.status.stages))))
  {
    CompletedKeeps(job.spec, c.status.stages);
    var r := Completed(job.spec, c.status.stages);
    forall j | 0 <= j < |r| ensures r[j].name == job.spec.stages[j].name && StageOk(r[j]) {
      if j < |c.status.stages| {
        assert r[j] == r[..|c.status.stages|][j];
      }
    }
    forall j | 0 <= j < |history[c.version].stages| && IsSet(history[c.version].stages[j].finishedAt)
      ensures r[j] == history[c.version].stages[j]
    {
      assert r[j] == r[..|c.status.stages|][j];
    }
  }

  lemma ReportCopyOk(job: MaintenanceJob, w: World, b: BatchJob, st: BatchStatus)
    requires Inv(job, w) && ValidBatchStatus(st)
    ensures ReportCopy(w, job, b, st).Some? ==> CopyOk(job, w.history, ReportCopy(w, job, b, st).value)
  {
    var route := Route(b);
    if route.Some? {
      var stage := route.value.2;
      var s, stages := StageFromBatch(stage, b, st, w.now), w.cache.status.stages;
      assert StageOk(s);
      forall j | 0 <= j < |stages|
        ensures var r := ReportStages(stages, stage, s)[j];
                || r == stages[j]
                || (r == s && stages[j].name == stage && !IsSet(stages[j].finishedAt))
      {
        ReportStagesPointwise(stages, stage, s, j);
      }
    }
  }

  lemma DeliverKeepsInv(job: MaintenanceJob, w: World, c: Copy)
    requires Inv(job, w) && c in w.inflight
    ensures Inv(job, DeliverCopy(w, c))
  {
    if c.version == |w.history| - 1 {
      AppendHistory(job, w.history, c);
      GrowthKeepsInv(job, w, c.status);
    }
  }

  lemma GrowthKeepsInv(job: MaintenanceJob, w: World, st: JobStatus)
    requires Inv(job, w)
    requires HistoryOk(job, w.history + [st])
    ensures Inv(job, w.(history := w.history + [st]))
  {
    var w' := w.(history := w.history + [st]);
    forall c | c in w.inflight ensures CopyOk(job, w'.history, c) {
      CopyOkGrows(job, w.history, st, c);
    }
    CopyOkGrows(job, w.history, st, w.cache);
    if w.pass.Some? {
      CopyOkGrows(job, w.history, st, w.pass.value.local);
    }
  }

  lemma SendKeepsInv(job: MaintenanceJob, w: World, c: Copy)
    requires Inv(job, w) && CopyOk(job, w.history, c)
    ensures Inv(job, w.(inflight := w.inflight + {c}))
  {
  }

  lemma AnnounceKeepsInv(job: MaintenanceJob, w: World, c: Copy)
    requires Inv(job, w) && CopyOk(job, w.history, c)
    ensures Inv(job, AnnounceFrom(job, w, c))
  {
    AnnounceCopyOk(job, w.history, c);
    SendKeepsInv(job, w, c.(status := c.status.(stages := Completed(job.spec, c.status.stages))));
  }

  /** A report that finds its stage is a write under way. */
  lemma ReportSends(job: MaintenanceJob, w: World, name: string, st: BatchStatus)
    requires name in w.batch && ValidBatchStatus(st) && ReportCopy(w, job, w.batch[name], st).Some?
    ensures var c := ReportCopy(w, job, w.batch[name], st).value;
            Apply(job, w, Report(name, st)) == w.(inflight := w.inflight + {c})
  {
  }

  lemma ReportKeepsInv(job: MaintenanceJob, w: World, name: string, st: BatchStatus)
    requires Inv(job, w)
    ensures Inv(job, Apply(job, w, Report(name, st)))
  {
    if name in w.batch && ValidBatchStatus(st) {
      ReportCopyOk(job, w, w.batch[name], st);
      var c := ReportCopy(w, job, w.batch[name], st);
      if c.Some? {
        SendKeepsInv(job, w, c.value);
      }
    }
  }

  lemma SyncKeepsInv(job: MaintenanceJob, w: World, v: nat)
    requires Inv(job, w) && w.cache.version <= v < |w.history|
    ensures Inv(job, SyncCache(w, v))
  {
    assert KeepsFinished(w.history[v], w.history[v]);
    assert w.pass.Some? ==> PassOk(job, SyncCache(w, v), SyncCache(w, v).pass.value);
  }

  lemma BeginKeepsInv(job: MaintenanceJob, w: World)
    requires Inv(job, w) && w.pass.None?
    ensures Inv(job, BeginPass(w))
  {
  }

  lemma TouchKeepsInv(job: MaintenanceJob, w: World)
    requires Inv(job, w)
    ensures Inv(job, w.(history := w.history + [w.history[|w.history| - 1]]))
  {
    var last := w.history[|w.history| - 1];
    AppendHistory(job, w.history, Copy(|w.history| - 1, last));
    GrowthKeepsInv(job, w, last);
  }

  lemma DropKeepsInv(job: MaintenanceJob, w: World, c: Copy)
    requires Inv(job, w)
    ensures Inv(job, w.(inflight := w.inflight - {c}))
  {
  }

  lemma QuietStepKeepsInv(job: MaintenanceJob, w: World, step: Step)
    requires Inv(job, w) && (step.Tick? || step.Sync? || step.Touch? || step.Begin? || step.Drop?)
    ensures Inv(job, Apply(job, w, step))
  {
    match step
    case Tick(t) =>
      if w.now <= t {
        TickKeepsInv(job, w, t);
      }
    case Sync(v) =>
      if w.cache.version <= v < |w.history| {
        SyncKeepsInv(job, w, v);
      }
    case Touch => TouchKeepsInv(job, w);
    case Begin =>
      if w.pass.None? {
        BeginKeepsInv(job, w);
      }
    case Drop(c) => DropKeepsInv(job, w, c);
  }

  lemma StepKeepsInv(job: MaintenanceJob, w: World, step: Step)
    requires Inv(job, w)
    ensures Inv(job, Apply(job, w, step))
  {
    match step
    case Iterate(inp) =>
      if w.pass.Some? && w.now <= inp.check <= inp.stamp {
        IterateKeepsInv(job, w, inp);
      }
    case Report(name, st) => ReportKeepsInv(job, w, name, st);
    case Announce(Cached) => AnnounceKeepsInv(job, w, w.cache);
    case Announce(Past(v)) =>
      if v < |w.history| {
        AnnounceKeepsInv(job, w, Copy(v, w.history[v]));
      }
    case Deliver(c) =>
      if c in w.inflight {
        DeliverKeepsInv(job, w, c);
      }
    case _ => QuietStepKeepsInv(job, w, step);
  }

  lemma {:induction false} RunKeepsInv(job: MaintenanceJob, now: Time, steps: seq<Step>)
    requires now > ZERO_TIME
    ensures Inv(job, Execute(job, InitWorld(now), steps))
  {
    if steps != [] {
      RunKeepsInv(job, now, steps[..|steps| - 1]);
      StepKeepsInv(job, Execute(job, InitWorld(now), steps[..|steps| - 1]), steps[|steps| - 1]);
    }
  }

  // ---------------------------------------------------------------------- results over all runs

  /** The server's record only ever grows: what one run reaches stays a prefix of what any continuation reaches. */
  lemma {:induction false} HistoryGrows(job: MaintenanceJob, w: World, steps: seq<Step>)
    ensures w.history <= Execute(job, w, steps).history
  {
    if steps != [] {
      HistoryGrows(job, w, steps[..|steps| - 1]);
      StepGrows(job, Execute(job, w, steps[..|steps| - 1]), steps[|steps| - 1]);
    }
  }

  lemma StepGrows(job: MaintenanceJob, w: World, step: Step)
    ensures w.history <= Apply(job, w, step).history
  {
    if step.Iterate? && w.pass.Some? {
      var p := w.pass.value;
      if p.next < |p.seen| == |p.local.status.stages| {
        var e := Decide(job, p, step.input);
      }
    }
  }

  /**
   In every run, however the two writers interleave, whichever writes are refused or answered late
   and however dirty the cache is: a stage record that is finished at version `u` is the same at every
   later version, it is finished exactly when it succeeded or failed, and a running one was scheduled.
   */
  lemma FinishedStageIsFrozen(job: MaintenanceJob, now: Time, steps: seq<Step>, u: nat, v: nat, j: nat)
    requires now > ZERO_TIME
    requires u <= v < |Execute(job, InitWorld(now), steps).history|
    requires j < |Execute(job, InitWorld(now), steps).history[u].stages|
    ensures var h := Execute(job, InitWorld(now), steps).history;
            && j < |h[v].stages|
            && (IsSet(h[u].stages[j].finishedAt) ==> h[v].stages[j] == h[u].stages[j])
            && (IsSet(h[v].stages[j].finishedAt) <==> h[v].stages[j].succeeded || h[v].stages[j].failed)
            && (h[v].stages[j].running ==> h[v].stages[j].scheduledAt.Some?)
  {
    RunKeepsInv(job, now, steps);
    var h := Execute(job, InitWorld(now), steps).history;
    assert KeepsFinished(h[u], h[v]) && StatusOk(job, h[v]);
    assert StageOk(h[v].stages[j]);
  }

  /**
   In every run the status has no more records than the spec has stages and carries their names
   position by position, on the server and in the cache, so the spec lookup by status index is in range.
   */
  lemma StatusMatchesSpec(job: MaintenanceJob, now: Time, steps: seq<Step>, st: JobStatus, j: nat)
    requires now > ZERO_TIME
    requires var w := Execute(job, InitWorld(now), steps); st == w.cache.status || st in w.history
    requires j < |st.stages|
    ensures j < |job.spec.stages| && st.stages[j].name == job.spec.stages[j].name
  {
    RunKeepsInv(job, now, steps);
    var w := Execute(job, InitWorld(now), steps);
    assert StatusOk(job, st);
  }

  /** With at least one stage and no stage of an uncordon spec only, no run indexes out of range or dereferences nil. */
  lemma DrainedJobNeverCrashes(job: MaintenanceJob, now: Time, steps: seq<Step>)
    requires now > ZERO_TIME && AllDrainsGiven(job)
    ensures !Execute(job, InitWorld(now), steps).fault
  {
    RunKeepsInv(job, now, steps);
  }

  /** With no stage the handler of the new object crashes at once. */
  lemma StagelessJobCrashes(job: MaintenanceJob, now: Time)
    requires job.spec.stages == []
    ensures Execute(job, InitWorld(now), [Announce(Cached)]).fault
  {
    var steps := [Announce(Cached)];
    assert Execute(job, InitWorld(now), steps[..0]) == InitWorld(now);
  }

  // ---------------------------------------------------------------------- job results

  predicate Started(s: StageStatus) {
    s.scheduledAt.Some?
  }

  predicate Done(s: StageStatus) {
    s.succeeded && !s.failed
  }

  /** How many leading stages are done. */
  function DoneCount(stages: seq<StageStatus>): (k: nat)
    ensures k <= |stages|
    ensures forall j :: 0 <= j < k ==> Done(stages[j])
    ensures k < |stages| ==> !Done(stages[k])
  {
    if stages == [] || !Done(stages[0]) then 0 else 1 + DoneCount(stages[1..])
  }

  /** The time is when some stage finished. */
  predicate SomeFinish(stages: seq<StageStatus>, t: Option<Time>) {
    exists j :: 0 <= j < |stages| && stages[j].finishedAt == t && IsSet(t)
  }

  /** The time is when some failed stage finished. */
  predicate SomeFailure(stages: seq<StageStatus>, t: Option<Time>) {
    exists j :: 0 <= j < |stages| && stages[j].failed && stages[j].finishedAt == t
  }

  /**
   A recorded success stands for every stage of the spec, a recorded failure for some failed stage; each
   is dated by the finish of a stage, and they exclude each other.
   */
  predicate ResultOk(job: MaintenanceJob, st: JobStatus) {
    && (st.succeededAt.Some? ==>
          |st.stages| == |job.spec.stages| && forall j :: 0 <= j < |st.stages| ==> Done(st.stages[j]))
    && (st.succeededAt.Some? ==> SomeFinish(st.stages, st.succeededAt))
    && (st.failedAt.Some? ==> SomeFailure(st.stages, st.failedAt))
    && !(st.succeededAt.Some? && st.failedAt.Some?)
  }
}
