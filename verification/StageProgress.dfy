/**
 Progress of the stage runner when nothing interferes: passes over a cache that shows the server's
 state, with every write accepted and every drain or uncordon action successful.
 */
module StageProgress {
  import opened Types
  import opened StageSystem
  import opened StageRunner
  import opened DrainStages

  /** The cache shows the server's current state and no pass is under way. */
  predicate Settled(w: World) {
    w.history != [] && w.pass.None? && w.cache == Copy(|w.history| - 1, Last(w))
  }

  /** The pass works on the server's current state. */
  predicate UpToDate(w: World, p: Pass) {
    w.history != [] && p.local == Copy(|w.history| - 1, Last(w))
  }

  predicate Smooth(inputs: seq<Input>) {
    forall i :: 0 <= i < |inputs| ==> inputs[i].net == Acked && inputs[i].action == ActionOk
  }

  // ---------------------------------------------------------------------- recording a success

  /** The pass over a job in status `st` has recorded the finish time of stage `n - 1` as success time. */
  predicate RecordedTo(v: World, st: JobStatus, n: nat, t: Time)
    requires n <= |st.stages|
  {
    && v.history != [] && v.now == t && v.pass.Some?
    && Last(v) == st.(succeededAt := if n == 0 then None else st.stages[n - 1].finishedAt)
    && UpToDate(v, v.pass.value) && v.pass.value.seen == st.stages && v.pass.value.next == n
  }

  lemma SuccessStep(job: MaintenanceJob, st: JobStatus, v: World, n: nat, inp: Input)
    requires n < |st.stages| && RecordedTo(v, st, n, v.now)
    requires job.spec.stages != [] && JobSucceeded(job.spec, st) && Done(st.stages[n]) && IsSet(st.stages[n].finishedAt)
    ensures var p := v.pass.value;
            RecordedTo(RunEffect(v.(now := inp.stamp), p, Decide(job, p, inp), Acked), st, n + 1, inp.stamp)
  {
    var p := v.pass.value;
    assert Decide(job, p, inp) == Commit(p.local.status.(succeededAt := st.stages[n].finishedAt), true);
  }

  lemma SuccessMore(job: MaintenanceJob, w: World, inputs: seq<Input>, n: nat, v: World)
    requires w.history != [] && 0 < n <= |inputs| && n <= |Last(w).stages| && job.spec.stages != []
    requires JobSucceeded(job.spec, Last(w))
    requires v == RunPass(job, w, inputs[..n - 1]) && RecordedTo(v, Last(w), n - 1, v.now)
    requires v.now <= inputs[n - 1].check <= inputs[n - 1].stamp && inputs[n - 1].net == Acked
    requires Done(Last(w).stages[n - 1]) && IsSet(Last(w).stages[n - 1].finishedAt)
    ensures RecordedTo(RunPass(job, w, inputs[..n]), Last(w), n, inputs[n - 1].stamp)
  {
    RunPassStep(job, w, inputs, n - 1, v, v.pass.value);
    SuccessStep(job, Last(w), v, n - 1, inputs[n - 1]);
  }

  /**
   Where the last stage has succeeded, a pass over leading done stages records their finish times one
   after the other.
   */
  lemma {:induction false} SuccessPass(job: MaintenanceJob, w: World, inputs: seq<Input>, n: nat)
    requires Settled(w) && job.spec.stages != [] && JobSucceeded(job.spec, Last(w))
    requires Last(w).succeededAt.None? && Last(w).failedAt.None?
    requires n <= |inputs| && n <= |job.spec.stages| && Timely(w.now, inputs) && Smooth(inputs)
    requires forall j :: 0 <= j < n ==> Done(Last(w).stages[j]) && IsSet(Last(w).stages[j].finishedAt)
    ensures RecordedTo(RunPass(job, w, inputs[..n]), Last(w), n, if n == 0 then w.now else inputs[n - 1].stamp)
  {
    if n > 0 {
      SuccessPass(job, w, inputs, n - 1);
      SuccessMore(job, w, inputs, n, RunPass(job, w, inputs[..n - 1]));
    } else {
      assert RunPass(job, w, inputs[..0]) == BeginPass(w);
    }
  }

  /**
   A pass over a job whose stages have all succeeded, with every write accepted, records as its
   success time the finish time of the last stage.
   */
  lemma {:induction false} SuccessTimeIsLastFinish(job: MaintenanceJob, w: World, inputs: seq<Input>)
    requires Settled(w) && job.spec.stages != [] && |Last(w).stages| == |job.spec.stages|
    requires Last(w).succeededAt.None? && Last(w).failedAt.None?
    requires forall j :: 0 <= j < |Last(w).stages| ==> Done(Last(w).stages[j]) && IsSet(Last(w).stages[j].finishedAt)
    requires |inputs| == |job.spec.stages| && Timely(w.now, inputs) && Smooth(inputs)
    ensures var w' := RunPass(job, w, inputs);
            w'.history != [] && Last(w').succeededAt == Last(w).stages[|job.spec.stages| - 1].finishedAt
  {
    SuccessPass(job, w, inputs, |inputs|);
    assert inputs[..|inputs|] == inputs;
  }

  /**
   If the pass is cut off after `|inputs|` of the writes, it has recorded the finish time of stage
   `|inputs| - 1`, and no later pass corrects it.
   */
  lemma {:induction false} CutOffSuccessTime(job: MaintenanceJob, w: World, inputs: seq<Input>, later: World)
    requires Settled(w) && job.spec.stages != [] && |Last(w).stages| == |job.spec.stages|
    requires Last(w).succeededAt.None? && Last(w).failedAt.None?
    requires forall j :: 0 <= j < |Last(w).stages| ==> Done(Last(w).stages[j]) && IsSet(Last(w).stages[j].finishedAt)
    requires 0 < |inputs| <= |job.spec.stages| && Timely(w.now, inputs) && Smooth(inputs)
    requires RunPass(job, w, inputs).history != [] && later.pass.None?
    requires later.cache.status == Last(RunPass(job, w, inputs))
    ensures Last(RunPass(job, w, inputs)).succeededAt == Last(w).stages[|inputs| - 1].finishedAt
    ensures Apply(job, later, Begin) == later
  {
    SuccessPass(job, w, inputs, |inputs|);
    assert inputs[..|inputs|] == inputs;
  }

  // ---------------------------------------------------------------------- drain jobs

  /** Every stage is executed by the controller and has a drain spec, so that its action does not crash. */
  predicate DrainsOnly(job: MaintenanceJob) {
    ManagedOnly(job) && AllDrainsGiven(job)
  }

  function Weight(s: StageStatus): nat {
    if s.failed || s.succeeded then 0 else if s.running then 1 else 2
  }

  function Weights(stages: seq<StageStatus>): nat {
    if stages == [] then 0 else Weights(stages[..|stages| - 1]) + Weight(stages[|stages| - 1])
  }

  /** Two for each idle stage, one for each running stage, one while the result is not recorded. */
  function Measure(st: JobStatus): nat {
    Weights(st.stages) + (if st.succeededAt.None? && st.failedAt.None? then 1 else 0)
  }

  lemma {:induction false} WeightsUpdate(stages: seq<StageStatus>, i: nat, s: StageStatus)
    requires i < |stages|
    ensures Weights(stages[i := s]) == Weights(stages) - Weight(stages[i]) + Weight(s)
  {
    var n := |stages| - 1;
    if i < n {
      WeightsUpdate(stages[..n], i, s);
      assert stages[i := s][..n] == stages[..n][i := s];
    } else {
      assert stages[i := s][..n] == stages[..n];
    }
  }

  lemma {:induction false} WeightsBound(stages: seq<StageStatus>)
    ensures Weights(stages) <= 2 * |stages|
  {
    if stages != [] {
      WeightsBound(stages[..|stages| - 1]);
    }
  }

  /** An iteration that commits never raises the measure, and lowers it while the result is unset. */
  lemma CommitLowers(job: MaintenanceJob, w: World, p: Pass, inp: Input)
    requires ManagedOnly(job) && PassOk(job, w, p) && p.next < |p.seen| && inp.action == ActionOk
    requires Decide(job, p, inp).Commit?
    ensures Measure(Decide(job, p, inp).status) <= Measure(p.local.status)
    ensures (p.local.status.succeededAt.None? && p.local.status.failedAt.None?) || Weight(p.seen[p.next]) > 0 ==>
              Measure(Decide(job, p, inp).status) < Measure(p.local.status)
  {
    var i, st, s, e := p.next, p.local.status, p.seen[p.next], Decide(job, p, inp);
    assert st.stages[i] == s;
    if !s.failed && !s.succeeded {
      assert e.status == SetStage(st, i, e.status.stages[i]);
      WeightsUpdate(st.stages, i, e.status.stages[i]);
    }
  }

  /** The effect of one smooth iteration on an up-to-date pass. */
  lemma SmoothIteration(job: MaintenanceJob, w: World, p: Pass, inp: Input)
    requires ManagedOnly(job) && PassOk(job, w, p) && UpToDate(w, p) && p.next < |p.seen|
    requires inp.net == Acked && inp.action == ActionOk
    ensures var w' := RunEffect(w, p, Decide(job, p, inp), Acked);
            && w'.history != []
            && Measure(Last(w')) <= Measure(Last(w))
            && (w'.pass.Some? ==> UpToDate(w', w'.pass.value))
            && (Decide(job, p, inp).Commit? && (Last(w).succeededAt.None? && Last(w).failedAt.None?) ==>
                  Measure(Last(w')) < Measure(Last(w)))
  {
    if Decide(job, p, inp).Commit? {
      CommitLowers(job, w, p, inp);
    }
  }

  /** A pass that nothing delays: smooth inputs, and the first open stage, if idle, is past its delay. */
  predicate Effective(job: MaintenanceJob, w: World, inputs: seq<Input>)
    requires w.history != []
  {
    var st := Last(w);
    var k := DoneCount(st.stages);
    && |inputs| == |job.spec.stages| + 1 && Timely(w.now, inputs) && Smooth(inputs)
    && |st.stages| == |job.spec.stages|
    && (k < |st.stages| && Weight(st.stages[k]) == 2 ==>
          inputs[k].check >= DelayBase(job, st, k) + job.spec.stages[k].delay)
  }

  lemma NotSucceededYet(job: MaintenanceJob, st: JobStatus)
    requires Good(job, st) && job.spec.stages != [] && DoneCount(st.stages) < |st.stages|
    ensures !JobSucceeded(job.spec, st)
  {
    if st.stages[|st.stages| - 1].succeeded {
      LastDoneAllDone(job, st);
    }
  }

  /** The world of a pass that has only moved on, up to stage `m`. */
  function SkippedTo(w: World, m: nat, t: Time): World
    requires w.history != []
  {
    w.(pass := Some(Pass(m, Last(w).stages, w.cache, true)), now := t)
  }

  lemma SkipStep(job: MaintenanceJob, w: World, m: nat, t: Time, inp: Input)
    requires Settled(w) && m < |Last(w).stages| && job.spec.stages != []
    requires Done(Last(w).stages[m]) && IsSet(Last(w).stages[m].finishedAt) && !JobSucceeded(job.spec, Last(w))
    ensures var v := SkippedTo(w, m, t);
            RunEffect(v.(now := inp.stamp), v.pass.value, Decide(job, v.pass.value, inp), inp.net) ==
              SkippedTo(w, m + 1, inp.stamp)
  {
    assert Decide(job, SkippedTo(w, m, t).pass.value, inp) == Skip;
  }

  /** Up to the first open stage of an unfinished job the pass only moves on. */
  lemma {:induction false} SkipsDone(job: MaintenanceJob, w: World, inputs: seq<Input>, m: nat)
    requires Settled(w) && job.spec.stages != [] && Good(job, Last(w)) && StatusOk(job, Last(w))
    requires Last(w).succeededAt.None? && Last(w).failedAt.None?
    requires Timely(w.now, inputs) && m <= |inputs|
    requires m <= DoneCount(Last(w).stages) < |Last(w).stages|
    ensures RunPass(job, w, inputs[..m]) == SkippedTo(w, m, if m == 0 then w.now else inputs[m - 1].stamp)
  {
    if m > 0 {
      var t := if m == 1 then w.now else inputs[m - 2].stamp;
      SkipsDone(job, w, inputs, m - 1);
      NotSucceededYet(job, Last(w));
      assert StageOk(Last(w).stages[m - 1]);
      SkipStep(job, w, m - 1, t, inputs[m - 1]);
      RunPassStep(job, w, inputs, m - 1, SkippedTo(w, m - 1, t), SkippedTo(w, m - 1, t).pass.value);
    } else {
      assert RunPass(job, w, inputs[..0]) == BeginPass(w);
    }
  }

  /** Nobody but the pass has written since it began. */
  predicate Steady(w: World) {
    w.history != [] && (w.pass.Some? ==> UpToDate(w, w.pass.value))
  }

  /** Nobody interferes with the pass, and the measure is at most `bound`. */
  predicate NoHigher(w: World, bound: nat) {
    Steady(w) && Measure(Last(w)) <= bound
  }

  lemma EffectNeverRises(job: MaintenanceJob, w: World, p: Pass, inp: Input, bound: nat)
    requires ManagedOnly(job) && PassOk(job, w, p) && UpToDate(w, p) && Measure(Last(w)) <= bound && p.next < |p.seen|
    requires inp.net == Acked && inp.action == ActionOk
    ensures NoHigher(RunEffect(w, p, Decide(job, p, inp), Acked), bound)
  {
    SmoothIteration(job, w, p, inp);
  }

  lemma StepNeverRises(job: MaintenanceJob, w: World, inp: Input, w': World, bound: nat)
    requires ManagedOnly(job) && Inv(job, w) && NoHigher(w, bound) && inp.net == Acked && inp.action == ActionOk
    requires w' == Apply(job, w, Iterate(inp))
    ensures NoHigher(w', bound)
  {
    if w.pass.Some? && w.now <= inp.check <= inp.stamp {
      var p, w0 := w.pass.value, w.(now := inp.stamp);
      if p.next < |p.seen| {
        assert PassOk(job, w0, p);
        EffectNeverRises(job, w0, p, inp, bound);
      }
    }
  }

  lemma RunPassSnoc(job: MaintenanceJob, w: World, inputs: seq<Input>, m: nat)
    requires 0 < m <= |inputs|
    ensures RunPass(job, w, inputs[..m]) == Apply(job, RunPass(job, w, inputs[..m - 1]), Iterate(inputs[m - 1]))
  {
    assert inputs[..m][..m - 1] == inputs[..m - 1];
  }

  lemma NoHigherSnoc(job: MaintenanceJob, w: World, inputs: seq<Input>, m: nat, v: World, u: World, bound: nat)
    requires ManagedOnly(job) && 0 < m <= |inputs| && inputs[m - 1].net == Acked && inputs[m - 1].action == ActionOk
    requires v == RunPass(job, w, inputs[..m - 1]) && u == RunPass(job, w, inputs[..m])
    requires Inv(job, v) && NoHigher(v, bound)
    ensures NoHigher(u, bound)
  {
    RunPassSnoc(job, w, inputs, m);
    StepNeverRises(job, v, inputs[m - 1], u, bound);
  }

  /** From any point of a pass that works on the server's current state, the measure never rises. */
  lemma {:induction false} NeverRises(job: MaintenanceJob, w: World, inputs: seq<Input>, k: nat, m: nat, bound: nat)
    requires ManagedOnly(job) && Inv(job, w) && Smooth(inputs)
    requires k <= m <= |inputs| && NoHigher(RunPass(job, w, inputs[..k]), bound)
    ensures NoHigher(RunPass(job, w, inputs[..m]), bound)
  {
    if k < m {
      NeverRises(job, w, inputs, k, m - 1, bound);
      RunPassKeepsInv(job, w, inputs[..m - 1]);
      NoHigherSnoc(job, w, inputs, m, RunPass(job, w, inputs[..m - 1]), RunPass(job, w, inputs[..m]), bound);
    }
  }

  /** What the pass does at the first open stage, past its delay: it commits. */
  lemma OpenStageCommits(job: MaintenanceJob, w: World, p: Pass, inp: Input)
    requires DrainsOnly(job) && PassOk(job, w, p) && p.next < |p.seen|
    requires !Done(p.seen[p.next]) && inp.action == ActionOk
    requires Weight(p.seen[p.next]) == 2 ==>
               inp.check >= DelayBase(job, p.local.status, p.next) + job.spec.stages[p.next].delay
    ensures Decide(job, p, inp).Commit?
  {
    assert p.local.status.stages[p.next] == p.seen[p.next];
    assert StageOk(p.seen[p.next]);
  }

  /** The stage at which an effective pass lowers the measure: the first open one, or the first if all are done. */
  function DecidingStage(st: JobStatus): nat {
    if DoneCount(st.stages) < |st.stages| then DoneCount(st.stages) else 0
  }

  lemma ComesToDeciding(job: MaintenanceJob, w: World, inputs: seq<Input>, k: nat)
    requires DrainsOnly(job) && DrainInv(job, w) && Settled(w) && Effective(job, w, inputs)
    requires Last(w).succeededAt.None? && Last(w).failedAt.None? && k == DecidingStage(Last(w))
    ensures k < |Last(w).stages| && k < |inputs|
    ensures RunPass(job, w, inputs[..k]) == SkippedTo(w, k, if k == 0 then w.now else inputs[k - 1].stamp)
  {
    assert Good(job, w.history[|w.history| - 1]) && StatusOk(job, Last(w));
    if DoneCount(Last(w).stages) < |Last(w).stages| {
      SkipsDone(job, w, inputs, k);
    }
  }

  lemma DecidingCommits(job: MaintenanceJob, w: World, p: Pass, inp: Input)
    requires DrainsOnly(job) && PassOk(job, w, p) && p.local.status.stages == p.seen && |p.seen| == |job.spec.stages|
    requires p.next == DecidingStage(p.local.status) && p.next < |p.seen| && inp.action == ActionOk
    requires Weight(p.seen[p.next]) == 2 ==>
               inp.check >= DelayBase(job, p.local.status, p.next) + job.spec.stages[p.next].delay
    ensures Decide(job, p, inp).Commit?
  {
    if Done(p.seen[p.next]) {
      assert StageOk(p.local.status.stages[0]) && Done(p.seen[|p.seen| - 1]);
    } else {
      OpenStageCommits(job, w, p, inp);
    }
  }

  lemma CommitLowersTo(job: MaintenanceJob, w: World, p: Pass, inp: Input)
    requires ManagedOnly(job) && PassOk(job, w, p) && UpToDate(w, p) && p.next < |p.seen|
    requires inp.net == Acked && inp.action == ActionOk && Decide(job, p, inp).Commit?
    requires Last(w).succeededAt.None? && Last(w).failedAt.None?
    ensures Measure(Last(w)) > 0 && NoHigher(RunEffect(w, p, Decide(job, p, inp), Acked), Measure(Last(w)) - 1)
  {
    SmoothIteration(job, w, p, inp);
  }

  /** The iteration that the pass has come to, at the deciding stage, lowers the measure. */
  lemma IterationLowers(job: MaintenanceJob, w: World, v: World, k: nat, t: Time, inp: Input)
    requires DrainsOnly(job) && DrainInv(job, w) && Settled(w) && v == SkippedTo(w, k, t) && ZERO_TIME < inp.stamp
    requires Last(w).succeededAt.None? && Last(w).failedAt.None? && |Last(w).stages| == |job.spec.stages|
    requires k == DecidingStage(Last(w)) && k < |Last(w).stages| && inp.net == Acked && inp.action == ActionOk
    requires Weight(Last(w).stages[k]) == 2 ==>
               inp.check >= DelayBase(job, Last(w), k) + job.spec.stages[k].delay
    ensures Measure(Last(w)) > 0
    ensures NoHigher(RunEffect(v.(now := inp.stamp), v.pass.value, Decide(job, v.pass.value, inp), Acked),
                     Measure(Last(w)) - 1)
  {
    var v0, p := v.(now := inp.stamp), v.pass.value;
    assert PassOk(job, v0, p);
    DecidingCommits(job, v0, p, inp);
    CommitLowersTo(job, v0, p, inp);
  }

  /** The pass has lowered the measure once it is through that stage. */
  lemma LowersAt(job: MaintenanceJob, w: World, inputs: seq<Input>, k: nat)
    requires DrainsOnly(job) && DrainInv(job, w) && Settled(w) && Effective(job, w, inputs)
    requires Last(w).succeededAt.None? && Last(w).failedAt.None? && k == DecidingStage(Last(w))
    ensures k < |inputs| && Measure(Last(w)) > 0
    ensures NoHigher(RunPass(job, w, inputs[..k + 1]), Measure(Last(w)) - 1)
  {
    ComesToDeciding(job, w, inputs, k);
    var v := RunPass(job, w, inputs[..k]);
    RunPassStep(job, w, inputs, k, v, v.pass.value);
    IterationLowers(job, w, v, k, v.now, inputs[k]);
  }

  /** Every effective pass over an unfinished drain job lowers the measure. */
  lemma PassLowersMeasure(job: MaintenanceJob, w: World, inputs: seq<Input>)
    requires DrainsOnly(job) && DrainInv(job, w) && Settled(w) && Effective(job, w, inputs)
    requires Last(w).succeededAt.None? && Last(w).failedAt.None?
    ensures RunPass(job, w, inputs).history != []
    ensures Measure(Last(RunPass(job, w, inputs))) < Measure(Last(w))
  {
    var k := DecidingStage(Last(w));
    LowersAt(job, w, inputs, k);
    NeverRises(job, w, inputs, k + 1, |inputs|, Measure(Last(w)) - 1);
    assert inputs[..|inputs|] == inputs;
  }

  /** The cache catches up before each of a sequence of passes. */
  function Rounds(job: MaintenanceJob, w: World, passes: seq<seq<Input>>): World {
    if passes == [] then w
    else
      var v := Rounds(job, w, passes[..|passes| - 1]);
      RunPass(job, CatchUp(job, v), passes[|passes| - 1])
  }

  function CatchUp(job: MaintenanceJob, w: World): World {
    if w.history == [] then w else Apply(job, w, Sync(|w.history| - 1))
  }

  /** In every round that finds the job without a result, the pass is an effective one that ran to its end. */
  ghost predicate EffectiveRounds(job: MaintenanceJob, w: World, passes: seq<seq<Input>>) {
    passes == [] ||
    (var v := CatchUp(job, Rounds(job, w, passes[..|passes| - 1]));
     && EffectiveRounds(job, w, passes[..|passes| - 1])
     && v.pass.None? && v.history != []
     && (Last(v).succeededAt.None? && Last(v).failedAt.None? ==> Effective(job, v, passes[|passes| - 1])))
  }

  lemma CatchUpKeeps(job: MaintenanceJob, w: World)
    requires ManagedOnly(job) && DrainInv(job, w)
    ensures var v := CatchUp(job, w);
            DrainInv(job, v) && v.history == w.history && (v.pass.None? ==> Settled(v))
  {
    DrainStep(job, w, Sync(|w.history| - 1));
  }

  lemma RoundLowers(job: MaintenanceJob, w: World, inputs: seq<Input>, r: World)
    requires DrainsOnly(job) && DrainInv(job, w) && Settled(w) && r == RunPass(job, w, inputs)
    requires !HasResult(Last(w)) ==> Effective(job, w, inputs)
    ensures r.history != []
    ensures if HasResult(Last(w)) then r == w else Measure(Last(r)) + 1 <= Measure(Last(w))
  {
    if HasResult(Last(w)) {
      ResultStays(job, w, inputs);
    } else {
      PassLowersMeasure(job, w, inputs);
    }
  }

  /** A recorded result is never taken back by a pass over a settled world. */
  lemma ResultStays(job: MaintenanceJob, w: World, inputs: seq<Input>)
    requires Settled(w) && HasResult(Last(w))
    ensures RunPass(job, w, inputs) == w
  {
    assert RunPass(job, w, inputs[..0]) == w;
    RunPassEnds(job, w, inputs, 0);
  }

  predicate HasResult(st: JobStatus) {
    st.succeededAt.Some? || st.failedAt.Some?
  }

  lemma RoundKeepsInv(job: MaintenanceJob, u: World, inputs: seq<Input>, r: World)
    requires ManagedOnly(job) && DrainInv(job, u) && r == RunPass(job, CatchUp(job, u), inputs)
    ensures DrainInv(job, r)
  {
    CatchUpKeeps(job, u);
    RunPassKeepsDrainInv(job, CatchUp(job, u), inputs);
  }

  /** One round, in which the cache catches up and then a pass runs, lowers the measure or finds a result. */
  lemma OneRound(job: MaintenanceJob, u: World, v: World, inputs: seq<Input>, r: World)
    requires DrainsOnly(job) && DrainInv(job, u) && v == CatchUp(job, u) && r == RunPass(job, v, inputs)
    requires v.pass.None? && v.history != [] && (!HasResult(Last(v)) ==> Effective(job, v, inputs))
    ensures r.history != []
    ensures HasResult(Last(r)) || (!HasResult(Last(u)) && Measure(Last(r)) + 1 <= Measure(Last(u)))
  {
    CatchUpKeeps(job, u);
    RoundLowers(job, v, inputs, r);
  }

  lemma {:induction false} RoundsLower(job: MaintenanceJob, w: World, passes: seq<seq<Input>>, r: World)
    requires DrainsOnly(job) && DrainInv(job, w) && EffectiveRounds(job, w, passes) && r == Rounds(job, w, passes)
    ensures DrainInv(job, r) && (HasResult(Last(r)) || Measure(Last(r)) + |passes| <= Measure(Last(w)))
  {
    if passes != [] {
      var before := passes[..|passes| - 1];
      var u := Rounds(job, w, before);
      RoundsLower(job, w, before, u);
      RoundKeepsInv(job, u, passes[|passes| - 1], r);
      OneRound(job, u, CatchUp(job, u), passes[|passes| - 1], r);
    }
  }

  /**
   A drain job of `n` stages has a result after at most `2 * n + 1` effective passes,
   from any reachable state.
   */
  lemma ResultWithinBound(job: MaintenanceJob, now: Time, steps: seq<Step>, passes: seq<seq<Input>>)
    requires DrainsOnly(job) && now > ZERO_TIME
    requires EffectiveRounds(job, Execute(job, InitWorld(now), steps), passes)
    requires |passes| >= 2 * |job.spec.stages| + 1
    ensures Rounds(job, Execute(job, InitWorld(now), steps), passes).history != []
    ensures var st := Last(Rounds(job, Execute(job, InitWorld(now), steps), passes));
            st.succeededAt.Some? || st.failedAt.Some?
  {
    DrainRun(job, now, steps);
    var w := Execute(job, InitWorld(now), steps);
    RoundsLower(job, w, passes, Rounds(job, w, passes));
    WeightsBound(Last(w).stages);
    assert StatusOk(job, Last(w));
    var st := Last(Rounds(job, w, passes));
    assert st.succeededAt.None? && st.failedAt.None? ==> Measure(st) >= 1;
  }

  lemma {:induction false} RunPassKeepsDrainInv(job: MaintenanceJob, w: World, inputs: seq<Input>)
    requires ManagedOnly(job) && DrainInv(job, w)
    ensures DrainInv(job, RunPass(job, w, inputs))
  {
    if inputs == [] {
      DrainStep(job, w, Begin);
    } else {
      RunPassKeepsDrainInv(job, w, inputs[..|inputs| - 1]);
      DrainStep(job, RunPass(job, w, inputs[..|inputs| - 1]), Iterate(inputs[|inputs| - 1]));
    }
  }
}
