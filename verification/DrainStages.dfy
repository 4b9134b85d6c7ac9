/**
 MaintenanceJobs whose stages are all drain or uncordon stages.  The runner may start several of them
 in one pass, so they overlap; this module shows that they still complete in order.
 */
module DrainStages {
  import opened Types
  import opened StageSystem

  predicate ManagedOnly(job: MaintenanceJob) {
    && job.spec.stages != []
    && forall i :: 0 <= i < |job.spec.stages| ==> job.spec.stages[i].Managed()
  }

  /** Completed stages come first, then a failed one, then the running ones, then the idle ones. */
  function Rank(s: StageStatus): nat {
    if s.failed then 1 else if s.succeeded then 0 else if s.running then 2 else 3
  }

  predicate InOrder(stages: seq<StageStatus>) {
    forall i, j :: 0 <= i < j < |stages| ==>
      Rank(stages[i]) <= Rank(stages[j]) && !(stages[i].failed && stages[j].failed)
  }

  /** A record is at most one of running, succeeded and failed. */
  predicate Exclusive(s: StageStatus) {
    !(s.succeeded && s.failed) && !(s.running && (s.succeeded || s.failed))
  }

  predicate Good(job: MaintenanceJob, st: JobStatus) {
    && InOrder(st.stages)
    && (forall j :: 0 <= j < |st.stages| ==> Exclusive(st.stages[j]))
    && ResultOk(job, st)
  }

  /** Stages the pass has left behind were done when it met them, or idle and then started by it. */
  predicate PassGood(job: MaintenanceJob, p: Pass) {
    && Good(job, p.local.status)
    && InOrder(p.seen)
    && |p.seen| == |p.local.status.stages|
    && forall j :: 0 <= j < p.next && j < |p.seen| ==>
         || (Rank(p.seen[j]) == 0 && p.local.status.stages[j] == p.seen[j])
         || (Rank(p.seen[j]) == 3 && Rank(p.local.status.stages[j]) == 2)
  }

  ghost predicate AllGood(job: MaintenanceJob, w: World) {
    && w.batch == map[]
    && (forall v {:trigger Good(job, w.history[v])} :: 0 <= v < |w.history| ==> Good(job, w.history[v]))
    && Good(job, w.cache.status)
    && (forall c {:trigger Good(job, c.status)} :: c in w.inflight ==> Good(job, c.status))
    && (w.pass.Some? ==> PassGood(job, w.pass.value))
  }

  ghost predicate DrainInv(job: MaintenanceJob, w: World) {
    Inv(job, w) && AllGood(job, w)
  }

  /** Replacing an unfinished record by one that fits between its neighbours keeps the status good. */
  lemma SetStageGood(job: MaintenanceJob, st: JobStatus, i: nat, s: StageStatus)
    requires Good(job, st) && |st.stages| <= |job.spec.stages|
    requires i < |st.stages| && !st.stages[i].succeeded && !st.stages[i].failed
    requires Exclusive(s)
    requires forall j :: 0 <= j < i ==> Rank(st.stages[j]) <= Rank(s) && !st.stages[j].failed
    requires forall j :: i < j < |st.stages| ==> Rank(st.stages[j]) >= 2 && Rank(st.stages[j]) >= Rank(s)
    ensures Good(job, SetStage(st, i, s))
  {
    assert st.succeededAt.Some? ==> Done(st.stages[i]);
  }

  lemma LastDoneAllDone(job: MaintenanceJob, st: JobStatus)
    requires Good(job, st) && st.stages != [] && st.stages[|st.stages| - 1].succeeded
    ensures forall j :: 0 <= j < |st.stages| ==> Done(st.stages[j])
  {
    var last := |st.stages| - 1;
    assert Exclusive(st.stages[last]);
    forall j | 0 <= j < |st.stages| ensures Done(st.stages[j]) {
      assert j < last ==> Rank(st.stages[j]) <= Rank(st.stages[last]);
    }
  }

  /** What the pass knows of the stages around the unfinished one it has reached. */
  lemma PassNeighbours(job: MaintenanceJob, w: World, p: Pass)
    requires PassOk(job, w, p) && PassGood(job, p) && p.next < |p.seen|
    requires !p.seen[p.next].failed && !p.seen[p.next].succeeded
    ensures var stages := p.local.status.stages;
            && (forall j :: 0 <= j < p.next ==> Rank(stages[j]) <= 2 && !stages[j].failed)
            && (p.seen[p.next].running ==> forall j :: 0 <= j < p.next ==> Rank(stages[j]) == 0)
            && (forall j :: p.next < j < |stages| ==> Rank(stages[j]) >= Rank(p.seen[p.next]) >= 2)
  {
    var stages, i := p.local.status.stages, p.next;
    forall j | 0 <= j < i
      ensures Rank(stages[j]) <= 2 && !stages[j].failed && (p.seen[i].running ==> Rank(stages[j]) == 0)
    {
      assert Rank(p.seen[j]) <= Rank(p.seen[i]);
      assert || (Rank(p.seen[j]) == 0 && stages[j] == p.seen[j])
             || (Rank(p.seen[j]) == 3 && Rank(stages[j]) == 2);
    }
    assert Rank(p.seen[i]) >= 2;
    forall j | i < j < |stages| ensures Rank(stages[j]) >= Rank(p.seen[i]) {
      assert stages[j] == p.seen[j];
      assert Rank(p.seen[i]) <= Rank(p.seen[j]);
    }
  }

  /** What an iteration over a drain or uncordon job can do at a failed, a succeeded or an open stage. */
  lemma DecideShape(job: MaintenanceJob, p: Pass, inp: Input)
    requires ManagedOnly(job) && p.next < |p.seen| == |p.local.status.stages| <= |job.spec.stages|
    ensures var s, st, e := p.seen[p.next], p.local.status, Decide(job, p, inp);
            && !e.Launch?
            && (e.Skip? ==> Rank(s) == 0)
            && (e.Commit? && s.failed ==> e.status == st.(failedAt := s.finishedAt) && !e.resume)
            && (e.Commit? && Rank(s) == 0 ==>
                  JobSucceeded(job.spec, st) && e.status == st.(succeededAt := s.finishedAt))
            && (e.Commit? && Rank(s) == 2 ==> !e.resume)
  {
  }

  /** The records an iteration can give an open stage. */
  predicate OpenEdit(s: StageStatus, s': StageStatus) {
    && Exclusive(s') && Rank(s') <= 2
    && (!s.running ==> Rank(s') == 2)
  }

  lemma DecideOpen(job: MaintenanceJob, p: Pass, inp: Input)
    requires ManagedOnly(job) && p.next < |p.seen| == |p.local.status.stages| <= |job.spec.stages|
    requires p.local.status.stages[p.next] == p.seen[p.next] && Rank(p.seen[p.next]) >= 2
    requires Decide(job, p, inp).Commit?
    ensures var i, st, e := p.next, p.local.status, Decide(job, p, inp);
            && |e.status.stages| == |st.stages|
            && e.status == SetStage(st, i, e.status.stages[i]) && OpenEdit(p.seen[i], e.status.stages[i])
  {
  }

  lemma ResultEditGood(job: MaintenanceJob, st: JobStatus, i: nat, t: Option<Time>)
    requires Good(job, st) && i < |st.stages| && t == st.stages[i].finishedAt && IsSet(t)
    ensures st.stages[i].failed ==> Good(job, st.(failedAt := t))
    ensures job.spec.stages != [] && JobSucceeded(job.spec, st) ==> Good(job, st.(succeededAt := t))
  {
    if st.stages[i].failed {
      assert SomeFailure(st.(failedAt := t).stages, t);
    }
    assert SomeFinish(st.(succeededAt := t).stages, t);
    assert st.succeededAt.Some? ==> Done(st.stages[i]);
    if job.spec.stages != [] && JobSucceeded(job.spec, st) {
      LastDoneAllDone(job, st);
    }
  }

  /** What an iteration writes is in order. */
  lemma DecideGood(job: MaintenanceJob, w: World, p: Pass, inp: Input)
    requires ManagedOnly(job)
    requires PassOk(job, w, p) && PassGood(job, p) && p.next < |p.seen|
    ensures Decide(job, p, inp).Commit? ==> Good(job, Decide(job, p, inp).status)
  {
    var i, st, e := p.next, p.local.status, Decide(job, p, inp);
    assert st.stages[i] == p.seen[i];
    if e.Commit? {
      DecideShape(job, p, inp);
      if Rank(p.seen[i]) <= 1 {
        ResultEditGood(job, st, i, p.seen[i].finishedAt);
      } else {
        DecideOpen(job, p, inp);
        PassNeighbours(job, w, p);
        SetStageGood(job, st, i, e.status.stages[i]);
      }
    }
  }

  /** A pass that goes on after a write has left only done or started stages behind. */
  lemma DecideResumes(job: MaintenanceJob, w: World, p: Pass, inp: Input, v: nat)
    requires ManagedOnly(job)
    requires PassOk(job, w, p) && PassGood(job, p) && p.next < |p.seen|
    requires Decide(job, p, inp).Commit? && Decide(job, p, inp).resume
    ensures PassGood(job, Pass(p.next + 1, p.seen, Copy(v, Decide(job, p, inp).status), false))
  {
    DecideGood(job, w, p, inp);
    DecideShape(job, p, inp);
    assert p.local.status.stages[p.next] == p.seen[p.next];
    if Rank(p.seen[p.next]) >= 2 {
      DecideOpen(job, p, inp);
    }
  }

  lemma EffectGood(job: MaintenanceJob, w: World, p: Pass, e: Effect, net: Net)
    requires AllGood(job, w) && w.pass == Some(p) && !e.Launch?
    requires e.Commit? ==> Good(job, e.status)
    requires e.Commit? && e.resume ==> PassGood(job, Pass(p.next + 1, p.seen, Copy(|w.history|, e.status), false))
    requires e.Skip? ==> PassGood(job, p.(next := p.next + 1))
    ensures AllGood(job, RunEffect(w, p, e, net))
  {
  }

  lemma SkipGood(job: MaintenanceJob, w: World, p: Pass)
    requires PassOk(job, w, p) && PassGood(job, p) && p.next < |p.seen| && Rank(p.seen[p.next]) == 0
    ensures PassGood(job, p.(next := p.next + 1))
  {
  }

  lemma DrainIterate(job: MaintenanceJob, w: World, inp: Input)
    requires ManagedOnly(job) && DrainInv(job, w) && w.pass.Some? && w.now <= inp.check <= inp.stamp
    ensures AllGood(job, IteratePass(job, w, inp))
  {
    var p, w' := w.pass.value, w.(now := inp.stamp);
    if p.next < |p.seen| {
      var e := Decide(job, p, inp);
      DecideShape(job, p, inp);
      DecideGood(job, w, p, inp);
      if e.Skip? {
        SkipGood(job, w, p);
      } else if e.Commit? && e.resume {
        DecideResumes(job, w, p, inp, |w.history|);
      }
      EffectGood(job, w', p, e, inp.net);
    }
  }

  lemma AnnouncedGood(job: MaintenanceJob, st: JobStatus)
    requires Good(job, st) && |st.stages| < |job.spec.stages|
    ensures Good(job, st.(stages := Completed(job.spec, st.stages)))
  {
    CompletedKeeps(job.spec, st.stages);
    var r := Completed(job.spec, st.stages);
    assert forall j :: 0 <= j < |st.stages| ==> r[j] == r[..|st.stages|][j];
    if st.failedAt.Some? {
      var f :| 0 <= f < |st.stages| && st.stages[f].failed && st.stages[f].finishedAt == st.failedAt;
      assert r[f] == st.stages[f];
    }
  }

  lemma DrainAnnounce(job: MaintenanceJob, w: World, c: Copy)
    requires AllGood(job, w) && Good(job, c.status)
    ensures AllGood(job, AnnounceFrom(job, w, c))
  {
    if |c.status.stages| < |job.spec.stages| {
      AnnouncedGood(job, c.status);
    }
  }

  lemma OtherStepGood(job: MaintenanceJob, w: World, step: Step)
    requires AllGood(job, w) && w.history != [] && !step.Iterate?
    ensures AllGood(job, Apply(job, w, step))
  {
    match step
    case Announce(Cached) => DrainAnnounce(job, w, w.cache);
    case Announce(Past(v)) =>
      if v < |w.history| {
        DrainAnnounce(job, w, Copy(v, w.history[v]));
      }
    case _ =>
  }

  lemma DrainStep(job: MaintenanceJob, w: World, step: Step)
    requires ManagedOnly(job) && DrainInv(job, w)
    ensures DrainInv(job, Apply(job, w, step))
  {
    StepKeepsInv(job, w, step);
    if step.Iterate? {
      if w.pass.Some? && w.now <= step.input.check <= step.input.stamp {
        DrainIterate(job, w, step.input);
      }
    } else {
      OtherStepGood(job, w, step);
    }
  }

  lemma {:induction false} DrainRun(job: MaintenanceJob, now: Time, steps: seq<Step>)
    requires ManagedOnly(job) && now > ZERO_TIME
    ensures DrainInv(job, Execute(job, InitWorld(now), steps))
  {
    if steps != [] {
      DrainRun(job, now, steps[..|steps| - 1]);
      DrainStep(job, Execute(job, InitWorld(now), steps[..|steps| - 1]), steps[|steps| - 1]);
    } else {
      RunKeepsInv(job, now, steps);
    }
  }

  /** How many leading stages have a rank below `r`. */
  function Boundary(stages: seq<StageStatus>, r: nat): (k: nat)
    ensures k <= |stages|
  {
    if stages == [] || Rank(stages[0]) >= r then 0 else 1 + Boundary(stages[1..], r)
  }

  lemma {:induction false} BoundarySplits(stages: seq<StageStatus>, r: nat)
    requires InOrder(stages)
    ensures forall j :: 0 <= j < |stages| ==> (j < Boundary(stages, r) <==> Rank(stages[j]) < r)
  {
    if stages != [] && Rank(stages[0]) < r {
      BoundarySplits(stages[1..], r);
      forall j | 0 <= j < |stages| ensures j < Boundary(stages, r) <==> Rank(stages[j]) < r {
        if j > 0 {
          assert stages[1..][j - 1] == stages[j];
        }
      }
    }
  }

  /** The four blocks of a status: succeeded below `k`, failed below `f`, running below `m`, then idle. */
  predicate Blocks(stages: seq<StageStatus>, k: nat, f: nat, m: nat) {
    && k <= f <= k + 1 && f <= m <= |stages|
    && (forall j :: 0 <= j < k ==> stages[j].succeeded && !stages[j].failed)
    && (forall j :: k <= j < f ==> stages[j].failed && !stages[j].succeeded)
    && (forall j :: f <= j < m ==> stages[j].running && !stages[j].succeeded && !stages[j].failed)
    && (forall j :: m <= j < |stages| ==> !stages[j].running && !stages[j].succeeded && !stages[j].failed)
  }

  /** In an in-order status the ranks say where each block begins. */
  lemma BoundariesSplit(stages: seq<StageStatus>, k: nat, f: nat, m: nat)
    requires InOrder(stages) && k == Boundary(stages, 1) && f == Boundary(stages, 2) && m == Boundary(stages, 3)
    ensures forall j :: 0 <= j < |stages| ==>
              (j < k <==> Rank(stages[j]) < 1) && (j < f <==> Rank(stages[j]) < 2) && (j < m <==> Rank(stages[j]) < 3)
  {
    BoundarySplits(stages, 1);
    BoundarySplits(stages, 2);
    BoundarySplits(stages, 3);
  }

  lemma GoodIsBlocks(job: MaintenanceJob, st: JobStatus, k: nat, f: nat, m: nat)
    requires Good(job, st)
    requires k == Boundary(st.stages, 1) && f == Boundary(st.stages, 2) && m == Boundary(st.stages, 3)
    ensures Blocks(st.stages, k, f, m)
  {
    var stages := st.stages;
    BoundariesSplit(stages, k, f, m);
    assert f < |stages| ==> !(Rank(stages[f]) < 2);
    assert m < |stages| ==> !(Rank(stages[m]) < 3);
    assert k + 1 < |stages| ==> !(stages[k].failed && stages[k + 1].failed);
    assert forall j :: 0 <= j < |stages| ==> Exclusive(stages[j]);
  }

  /**
   In every run of a drain and uncordon job, under any refused writes, lost answers and action
   errors, every status the server ever held is: succeeded stages, at most one failed stage, running
   stages, idle stages, in this order.
   */
  lemma CompletesInOrder(job: MaintenanceJob, now: Time, steps: seq<Step>, v: nat) returns (k: nat, f: nat, m: nat)
    requires ManagedOnly(job) && now > ZERO_TIME
    requires v < |Execute(job, InitWorld(now), steps).history|
    ensures Blocks(Execute(job, InitWorld(now), steps).history[v].stages, k, f, m)
  {
    DrainRun(job, now, steps);
    var st := Execute(job, InitWorld(now), steps).history[v];
    k, f, m := Boundary(st.stages, 1), Boundary(st.stages, 2), Boundary(st.stages, 3);
    GoodIsBlocks(job, st, k, f, m);
  }

  /**
   In every run of such a job a recorded result is right: success means all stages, failure some stage,
   never both.
   */
  lemma DrainResults(job: MaintenanceJob, now: Time, steps: seq<Step>, v: nat)
    requires ManagedOnly(job) && now > ZERO_TIME
    requires v < |Execute(job, InitWorld(now), steps).history|
    ensures ResultOk(job, Execute(job, InitWorld(now), steps).history[v])
  {
    DrainRun(job, now, steps);
    assert Good(job, Execute(job, InitWorld(now), steps).history[v]);
  }
}
