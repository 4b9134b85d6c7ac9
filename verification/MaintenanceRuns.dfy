/**
 Runs of the Maintenance lifecycle that exist, and the exact conditions that follow: when the handlers
 crash, when a finished Maintenance still gets a job, when jobs are made from a snapshot that the server
 does not hold.
 */
module MaintenanceRuns {
  import opened Types
  import opened JobNames
  import opened Lifecycle

  // ---------------------------------------------------------------------- up to the first poll

  const NEW_STATUS := Status(None, None, None, None, "", "", None)

  /** Nothing has happened to the object yet, and the cache knows it. */
  predicate Untouched(w: World) {
    && w.history != [] && w.cache == Copy(|w.history| - 1, Last(w)) && w.now > ZERO_TIME
    && Last(w).status == NEW_STATUS && !Last(w).canceled
    && w.pass.None? && !w.queued && w.phase.Idle?
  }

  /** A spec that this controller admits and polls. */
  predicate Pollable(env: Env, spec: MaintenanceSpec) {
    SpecValid(env, spec) && WindowSince(env, spec) < WindowUntil(env, spec)
  }

  /** The object of an untouched world once it is admitted. */
  function AdmittedAt(env: Env, w: World): Object
    requires w.history != []
  {
    var o := Last(w);
    o.(status := o.status.(since := Some(WindowSince(env, o.spec)), until := Some(WindowUntil(env, o.spec)),
                           admittedAt := Some(w.now)))
  }

  /** The object is admitted, the cache knows, and the queue has handed its name out. */
  function FiredAt(env: Env, w: World): World
    requires w.history != []
  {
    w.(history := w.history + [AdmittedAt(env, w)], cache := Copy(|w.history|, AdmittedAt(env, w)), phase := Fired)
  }

  lemma Admits(env: Env, w: World)
    requires Untouched(w) && Pollable(env, Last(w).spec)
    ensures Apply(env, w, Admit(true, w.now, Acked)) == w.(history := w.history + [AdmittedAt(env, w)])
  {
  }

  lemma Queues(env: Env, w: World)
    requires !w.cache.obj.canceled && !w.queued && Accepts(env, w.cache.obj, w.now) && w.cache.obj.status.since.Some?
    ensures Apply(env, w, Enqueue(w.now, w.now, Acked, Handler(FromCache, w.now))) == w.(queued := true)
  {
  }

  /** The first poll of an untouched Maintenance, admitted and queued while its window is not over. */
  lemma ReachesFirstPoll(env: Env, w: World)
    requires Untouched(w) && Pollable(env, Last(w).spec) && w.now <= WindowUntil(env, Last(w).spec)
    ensures Reaches(env, w, FiredAt(env, w))
  {
    var o, t := AdmittedAt(env, w), w.now;
    ReachesSelf(env, w);
    var w1 := w.(history := w.history + [o]);
    Admits(env, w);
    ReachesStep(env, w, w, Admit(true, t, Acked), w1);
    var w2 := w1.(cache := Copy(|w.history|, o));
    ReachesStep(env, w, w1, Sync(|w.history|), w2);
    Queues(env, w2);
    ReachesStep(env, w, w2, Enqueue(t, t, Acked, Handler(FromCache, t)), w2.(queued := true));
    ReachesStep(env, w, w2.(queued := true), Fire, FiredAt(env, w));
  }

  // ---------------------------------------------------------------------- crashes

  lemma LatePollCrashes(env: Env, w: World, t: Time)
    requires w.phase.Fired? && w.pass.None? && w.now <= t && !w.cache.obj.canceled
    requires !Finished(w.cache.obj.status) && Expired(w.cache.obj.status, t)
    ensures var v := Apply(env, w, Begin(t, t, Acked, [])); Apply(env, v, Enqueue(t, t, Refused, Poll)).fault
  {
    var v := Apply(env, w, Begin(t, t, Acked, []));
    assert v == w.(phase := Passed, now := t);
  }

  /** A poll after the window whose finish write is refused dereferences nil. */
  lemma ReachesCrash(env: Env, w: World) returns (w': World)
    requires Untouched(w) && Pollable(env, Last(w).spec) && w.now <= WindowUntil(env, Last(w).spec)
    ensures Reaches(env, w, w') && w'.fault
  {
    ReachesFirstPoll(env, w);
    var u, t := FiredAt(env, w), WindowUntil(env, Last(w).spec) + 1;
    LatePollCrashes(env, u, t);
    var v := Apply(env, u, Begin(t, t, Acked, []));
    ReachesStep(env, w, u, Begin(t, t, Acked, []), v);
    w' := Apply(env, v, Enqueue(t, t, Refused, Poll));
    ReachesStep(env, w, v, Enqueue(t, t, Refused, Poll), w');
  }

  /** All versions have this spec and its window, once they have one. */
  ghost predicate OneSpec(env: Env, spec: MaintenanceSpec, h: seq<Object>) {
    forall v {:trigger h[v]} :: 0 <= v < |h| ==>
      && h[v].spec == spec
      && (Admitted(h[v].status) ==>
            && h[v].status.since == Some(WindowSince(env, spec)) && h[v].status.until == Some(WindowUntil(env, spec)))
  }

  /** What a run without edits keeps: one spec, its window, and no polling before the handler has accepted it. */
  ghost predicate Unedited(env: Env, spec: MaintenanceSpec, start: Time, w: World) {
    && start <= w.now
    && OneSpec(env, spec, w.history)
    && (w.queued || !w.phase.Idle? || w.fault ==> Pollable(env, spec) && start <= WindowUntil(env, spec))
  }

  /** The handler accepts only objects whose window is not over. */
  lemma HandlerAccepted(env: Env, spec: MaintenanceSpec, start: Time, w: World, check: Time, caller: Caller)
    requires Inv(env, w) && Unedited(env, spec, start, w) && CallPossible(env, w, check, caller)
    ensures Pollable(env, spec) && start <= WindowUntil(env, spec)
  {
    if caller.Handler? {
      var v := if caller.handed.FromCache? then w.cache.version else caller.handed.version;
      assert StatusOk(env, w.history[v].status, w.now) && w.history[v].spec == spec;
      assert SameWindow(w.history[w.cache.version].status, w.cache.obj.status);
    }
  }

  /** What a step without an edit does to the polling state. */
  lemma PollingFrame(env: Env, w: World, step: Step, w': World)
    requires w' == Apply(env, w, step)
    ensures w.now <= w'.now
    ensures step.Enqueue? && w' != w ==> CallPossible(env, w, step.check, step.caller)
    ensures !step.Enqueue? && (w'.queued || !w'.phase.Idle?) ==> w.queued || !w.phase.Idle?
    ensures !step.Enqueue? && w'.fault ==> w.fault
  {
    match step
    case Begin(check, stamp, net, todo) => BeginFrame(env, w.(phase := Passed), check, stamp, net, todo);
    case Admit(fromCache, stamp, net) => AdmitFrame(env, w, fromCache, stamp, net);
    case Enqueue(check, stamp, net, caller) =>
      EnqueueFrame(if caller.Poll? then w.(phase := Idle) else w, check, stamp, net);
    case Create(net) =>
      if w.pass.Some? {
        CreateGrows(w, net);
      }
    case _ =>
  }

  /** Versions are only appended, with the spec of the last one. */
  predicate KeepsSpec(h: seq<Object>, h': seq<Object>) {
    h <= h' && forall v :: |h| <= v < |h'| ==> h != [] && h'[v].spec == h[|h| - 1].spec
  }

  /** Only an edit or a deletion mark changes more of the object than its status. */
  lemma StepKeepsObject(env: Env, w: World, step: Step, w': World)
    requires w.history != [] && w' == Apply(env, w, step)
    ensures !step.EditSpec? && !step.Cancel? ==> KeepsObject(w.history, w'.history)
    ensures !step.Sync? ==> w'.cache.version == w.cache.version && SameWindow(w.cache.obj.status, w'.cache.obj.status)
  {
    match step
    case Begin(check, stamp, net, todo) => BeginFrame(env, w.(phase := Passed), check, stamp, net, todo);
    case Admit(fromCache, stamp, net) => AdmitFrame(env, w, fromCache, stamp, net);
    case Enqueue(check, stamp, net, caller) =>
      EnqueueFrame(if caller.Poll? then w.(phase := Idle) else w, check, stamp, net);
    case Create(net) =>
      if w.pass.Some? {
        CreateGrows(w, net);
      }
    case _ =>
  }

  /**
   Without an edit an appended version has the spec of the one before; only a cache update moves the
   cached window.
   */
  lemma StepKeepsSpec(env: Env, w: World, step: Step, w': World)
    requires w.history != [] && w' == Apply(env, w, step)
    ensures !step.EditSpec? ==> KeepsSpec(w.history, w'.history)
    ensures !step.Sync? ==> w'.cache.version == w.cache.version && SameWindow(w.cache.obj.status, w'.cache.obj.status)
  {
    StepKeepsObject(env, w, step, w');
  }

  lemma HistoryUnedited(env: Env, spec: MaintenanceSpec, h: seq<Object>, h': seq<Object>)
    requires h != [] && KeepsSpec(h, h') && Appends(env, h, h') && OneSpec(env, spec, h)
    requires h[|h| - 1].status.admittedAt.Some? ==> Admitted(h[|h| - 1].status)
    ensures OneSpec(env, spec, h')
  {
  }

  lemma StepUnedited(env: Env, spec: MaintenanceSpec, start: Time, w: World, step: Step, w': World)
    requires Inv(env, w) && Unedited(env, spec, start, w) && !step.EditSpec? && w' == Apply(env, w, step)
    ensures Unedited(env, spec, start, w')
  {
    PollingFrame(env, w, step, w');
    if step.Enqueue? && w' != w {
      HandlerAccepted(env, spec, start, w, step.check, step.caller);
    }
    StepKeepsSpec(env, w, step, w');
    StepAppends(env, w, step, w'.history);
    assert StatusOk(env, w.history[|w.history| - 1].status, w.now);
    HistoryUnedited(env, spec, w.history, w'.history);
  }

  lemma {:induction false} RunUnedited(env: Env, spec: MaintenanceSpec, now: Time, steps: seq<Step>)
    requires now > ZERO_TIME && NoEdits(steps)
    ensures Unedited(env, spec, now, Execute(env, InitWorld(spec, now), steps))
  {
    if steps != [] {
      var before, step := steps[..|steps| - 1], steps[|steps| - 1];
      RunUnedited(env, spec, now, before);
      InitInv(env, spec, now);
      RunKeepsInv(env, InitWorld(spec, now), before);
      var w := Execute(env, InitWorld(spec, now), before);
      StepUnedited(env, spec, now, w, step, Execute(env, InitWorld(spec, now), steps));
    }
  }

  /**
   Exactly which Maintenances can crash the controller, if nobody edits them: those that it admits and
   polls, with a window that is not over when they are created.
   */
  lemma CrashIff(env: Env, spec: MaintenanceSpec, now: Time)
    requires now > ZERO_TIME
    ensures (exists steps :: NoEdits(steps) && Execute(env, InitWorld(spec, now), steps).fault)
       <==> && (spec.targetNamespaces == [] || env.namespace in spec.targetNamespaces)
            && spec.nodeSelector != map[] && spec.stages != []
            && (forall e :: e in spec.env ==> env.validEnv(e))
            && (forall e :: e in spec.envFrom ==> env.validEnvFrom(e))
            && WindowSince(env, spec) < WindowUntil(env, spec) && now <= WindowUntil(env, spec)
  {
    if Pollable(env, spec) && now <= WindowUntil(env, spec) {
      var w := ReachesCrash(env, InitWorld(spec, now));
      var steps :| NoEdits(steps) && Execute(env, InitWorld(spec, now), steps) == w;
    }
    if steps :| NoEdits(steps) && Execute(env, InitWorld(spec, now), steps).fault {
      RunUnedited(env, spec, now, steps);
    }
  }

  function SomePollable(now: Time): MaintenanceSpec {
    MaintenanceSpec([], map["a" := "b"], [], [], [], [],
      Schedule(Some(1), 1, Some(now + 3), 1, []), [StageSpec("a", 0, 0, None, None, None)])
  }

  /** With edits every Maintenance can: its spec is edited to one that is polled before it is admitted. */
  lemma EditedCrash(env: Env, spec: MaintenanceSpec, now: Time) returns (steps: seq<Step>)
    requires now > ZERO_TIME
    ensures Execute(env, InitWorld(spec, now), steps).fault
  {
    var w, spec' := InitWorld(spec, now), SomePollable(now);
    var o := Last(w).(spec := spec');
    var w1 := w.(history := w.history + [o]);
    var w2 := w1.(cache := Copy(1, o));
    assert "a" in spec'.nodeSelector;
    var w3 := ReachesCrash(env, w2);
    var more :| NoEdits(more) && Execute(env, w2, more) == w3;
    steps := [EditSpec(spec'), Sync(1)] + more;
    assert Apply(env, w, EditSpec(spec')) == w1 && Apply(env, w1, Sync(1)) == w2;
    TwoSteps(env, w, EditSpec(spec'), w1, Sync(1), w2);
    ExecuteConcat(env, w, [EditSpec(spec'), Sync(1)], more);
  }

  lemma TwoSteps(env: Env, w: World, a: Step, v: World, b: Step, w': World)
    requires v == Apply(env, w, a) && w' == Apply(env, v, b)
    ensures Execute(env, w, [a, b]) == w'
  {
    assert Execute(env, w, []) == w;
    ExecuteSnoc(env, w, [], a);
    assert [] + [a] == [a] && [a] + [b] == [a, b];
    ExecuteSnoc(env, w, [a], b);
  }

  lemma {:induction false} ExecuteConcat(env: Env, w: World, a: seq<Step>, b: seq<Step>)
    ensures Execute(env, w, a + b) == Execute(env, Execute(env, w, a), b)
  {
    if b == [] {
      assert a + b == a;
    } else {
      var n := |b| - 1;
      ExecuteConcat(env, w, a, b[..n]);
      assert (a + b)[..|a + b| - 1] == a + b[..n];
    }
  }

  /** Whatever is polled is admitted, and a crash comes after the window. */
  ghost predicate PolledOk(w: World) {
    && w.history != []
    && (w.queued || !w.phase.Idle? ==> Admitted(w.cache.obj.status))
    && (w.fault ==> Admitted(Last(w).status) && Expired(Last(w).status, w.now))
  }

  /** In every world the cached object shows an admission that any version it has reached shows. */
  lemma CallIsAdmitted(env: Env, w: World, check: Time, caller: Caller)
    requires Inv(env, w) && PolledOk(w) && CallPossible(env, w, check, caller)
    ensures Admitted(w.cache.obj.status)
  {
    if caller.Handler? && caller.handed.Version? {
      assert Keeps(w.history[caller.handed.version].status, w.history[w.cache.version].status);
    }
  }

  /** The cached object of an admitted Maintenance has the window the server has. */
  lemma CachedWindow(env: Env, w: World)
    requires Inv(env, w) && Admitted(w.cache.obj.status)
    ensures Admitted(Last(w).status) && Last(w).status.until == w.cache.obj.status.until
    ensures w.cache.obj.status.since.Some?
  {
    assert Keeps(w.history[w.cache.version].status, w.history[|w.history| - 1].status);
    assert SameWindow(w.history[w.cache.version].status, w.cache.obj.status);
  }

  lemma EnqueuePolled(env: Env, w: World, check: Time, stamp: Time, net: Net, w': World)
    requires Inv(env, w) && w.now <= check <= stamp && Admitted(w.cache.obj.status)
    requires w.fault ==> Expired(Last(w).status, w.now)
    requires w' == EnqueueStep(w, check, stamp, net)
    ensures Admitted(w'.cache.obj.status) && (w'.fault ==> Expired(Last(w).status, stamp)) && w'.now == stamp
  {
    CachedWindow(env, w);
  }

  /** The cached object keeps its version and window, or is replaced by a version that is not older. */
  predicate CacheMoves(w: World, w': World) {
    || (w'.cache.version == w.cache.version && SameWindow(w.cache.obj.status, w'.cache.obj.status))
    || (w.cache.version <= w'.cache.version < |w.history| && w'.cache.obj == w.history[w'.cache.version])
  }

  lemma StepMovesCache(env: Env, w: World, step: Step, w': World)
    requires w.history != [] && w' == Apply(env, w, step)
    ensures CacheMoves(w, w')
  {
    StepKeepsSpec(env, w, step, w');
  }

  /** Admissions stay, in the cache and on the server. */
  lemma AdmissionsStay(env: Env, w: World, w': World)
    requires Inv(env, w) && HistoryOk(env, w'.history, w'.now) && w.history <= w'.history && CacheMoves(w, w')
    ensures Admitted(w.cache.obj.status) ==> Admitted(w'.cache.obj.status)
    ensures Admitted(Last(w).status) ==> Admitted(Last(w').status) && Last(w').status.until == Last(w).status.until
  {
    LaterKeeps(env, w.history, w'.history, w'.now);
    assert SameWindow(w.history[w.cache.version].status, w.cache.obj.status);
    if w.cache.version <= w'.cache.version < |w.history| {
      assert Keeps(w.history[w.cache.version].status, w.history[w'.cache.version].status);
    }
  }

  lemma CallPolled(env: Env, w: World, step: Step, w': World)
    requires Inv(env, w) && PolledOk(w) && step.Enqueue? && w' == Apply(env, w, step) && w' != w
    ensures Admitted(w.cache.obj.status) && Admitted(Last(w).status) && (w'.fault ==> Expired(Last(w).status, w'.now))
  {
    CallIsAdmitted(env, w, step.check, step.caller);
    CachedWindow(env, w);
    PhaseKeepsInv(env, w, w.queued, Idle);
    EnqueuePolled(env, if step.caller.Poll? then w.(phase := Idle) else w, step.check, step.stamp, step.net, w');
  }

  lemma StepPolled(env: Env, w: World, step: Step, w': World)
    requires Inv(env, w) && HistoryOk(env, w'.history, w'.now) && PolledOk(w) && w' == Apply(env, w, step)
    ensures PolledOk(w')
  {
    PollingFrame(env, w, step, w');
    StepGrows(env, w, step);
    StepMovesCache(env, w, step, w');
    AdmissionsStay(env, w, w');
    if step.Enqueue? && w' != w {
      CallPolled(env, w, step, w');
      StillPolled(w, w', true);
    } else {
      StillPolled(w, w', false);
    }
  }

  lemma StillPolled(w: World, w': World, called: bool)
    requires PolledOk(w) && w'.history != [] && w.now <= w'.now
    requires Admitted(w.cache.obj.status) ==> Admitted(w'.cache.obj.status)
    requires Admitted(Last(w).status) ==> Admitted(Last(w').status) && Last(w').status.until == Last(w).status.until
    requires called ==>
               && Admitted(w.cache.obj.status) && Admitted(Last(w).status)
               && (w'.fault ==> Expired(Last(w).status, w'.now))
    requires !called ==> (w'.queued || !w'.phase.Idle? ==> w.queued || !w.phase.Idle?) && (w'.fault ==> w.fault)
    ensures PolledOk(w')
  {
  }

  lemma {:induction false} RunPolled(env: Env, spec: MaintenanceSpec, now: Time, steps: seq<Step>)
    requires now > ZERO_TIME
    ensures PolledOk(Execute(env, InitWorld(spec, now), steps))
  {
    if steps != [] {
      var before, step := steps[..|steps| - 1], steps[|steps| - 1];
      RunPolled(env, spec, now, before);
      InitInv(env, spec, now);
      RunKeepsInv(env, InitWorld(spec, now), before);
      RunKeepsInv(env, InitWorld(spec, now), steps);
      var w := Execute(env, InitWorld(spec, now), before);
      StepPolled(env, w, step, Execute(env, InitWorld(spec, now), steps));
    }
  }

  /**
   In every run, with any edits, the handlers do not crash before the Maintenance is admitted and its
   window is over.
   */
  lemma CrashOnlyAfterWindow(env: Env, spec: MaintenanceSpec, now: Time, steps: seq<Step>)
    requires now > ZERO_TIME && Execute(env, InitWorld(spec, now), steps).fault
    ensures var w := Execute(env, InitWorld(spec, now), steps);
            w.history != [] && Admitted(Last(w).status) && Expired(Last(w).status, w.now)
  {
    RunPolled(env, spec, now, steps);
  }

  // ---------------------------------------------------------------------- a job after the finish

  /** The snapshot of a spec is accepted and read back. */
  predicate Readable(env: Env, spec: MaintenanceSpec, json: string) {
    && env.codec.encode(spec) == Some(json) && json != "" && env.codec.sha(json) != ""
    && env.codec.decode(json) == Some(spec)
  }

  /** A scheduling pass that is about to begin within the window takes the first snapshot. */
  predicate AboutToBegin(env: Env, w: World, t: Time, json: string) {
    var o := w.cache.obj;
    && w.history != [] && w.phase.Fired? && w.pass.None? && ZERO_TIME < w.now <= t
    && !o.canceled && !Finished(o.status) && Admitted(o.status) && o.status.scheduledAt.None?
    && Started(o.status, t) && !Expired(o.status, t)
    && env.codec.encode(o.spec) == Some(json)
  }

  /** The cached object with the snapshot. */
  function SnapshotCopy(env: Env, w: World, t: Time, json: string): Copy {
    w.cache.(obj := w.cache.obj.(status := SnapshotStatus(env, w.cache.obj, json, t)))
  }

  lemma BeginsAccepted(env: Env, w: World, t: Time, spec: MaintenanceSpec, json: string, todo: seq<Pending>)
    requires AboutToBegin(env, w, t, json) && w.cache.version == |w.history| - 1
    requires Readable(env, spec, json) && Generable(env, spec, todo)
    ensures Apply(env, w, Begin(t, t, Acked, todo)) ==
              w.(history := w.history + [Last(w).(status := SnapshotStatus(env, w.cache.obj, json, t))],
                 cache := SnapshotCopy(env, w, t, json), phase := Passed, now := t,
                 pass := Some(Pass(t, w.cache.version, json, spec, todo)))
  {
  }

  /** A cached object that is current and past its window is finished by a handler that was late. */
  lemma Finishes(env: Env, w: World, seen: Time, check: Time)
    requires w.history != [] && w.cache == Copy(|w.history| - 1, Last(w)) && w.now <= seen <= check
    requires !w.cache.obj.canceled && Accepts(env, w.cache.obj, seen) && Expired(w.cache.obj.status, check)
    ensures var w' := Apply(env, w, Enqueue(check, check, Acked, Handler(FromCache, seen)));
            && w'.history != [] && Last(w').status == Last(w).status.(finishedAt := Some(check))
            && w'.pass == w.pass && w'.jobs == w.jobs && w'.jobCache == w.jobCache && w'.created == w.created
  {
  }

  lemma NothingIsTaken(base: string, machineID: string)
    ensures !InLeadingRun(map[], base, machineID)
  {
    var none: map<string, JobSpec> := map[];
    forall i | 1 <= i ensures !Taken(none, base, i) {
      assert Candidate(base, 1) !in none;
    }
  }

  /**
   A run from creation, for every Maintenance that is polled and has something to create: another
   goroutine finishes it while a pass is under way, and the pass creates a job after that.
   */
  lemma JobAfterFinish(env: Env, spec: MaintenanceSpec, now: Time, t: Time, json: string, todo: seq<Pending>)
    returns (w: World, w': World)
    requires ZERO_TIME < now <= t && Pollable(env, spec) && WindowSince(env, spec) <= t <= WindowUntil(env, spec)
    requires Readable(env, spec, json) && Generable(env, spec, todo) && todo != []
    ensures Reaches(env, InitWorld(spec, now), w) && w.history != [] && Finished(Last(w).status)
    ensures Reaches(env, w, w') && |w'.created| == |w.created| + 1
  {
    var w0 := InitWorld(spec, now);
    ReachesFirstPoll(env, w0);
    var u := FiredAt(env, w0);
    FiredIsReady(env, spec, now, t, json);
    BeginsAccepted(env, u, t, spec, json, todo);
    var v := Apply(env, u, Begin(t, t, Acked, todo));
    ReachesStep(env, w0, u, Begin(t, t, Acked, todo), v);
    var x := v.(cache := Copy(|u.history|, Last(v)));
    ReachesStep(env, w0, v, Sync(|u.history|), x);
    var c := WindowUntil(env, spec) + 1;
    Finishes(env, x, t, c);
    w := Apply(env, x, Enqueue(c, c, Acked, Handler(FromCache, t)));
    ReachesStep(env, w0, x, Enqueue(c, c, Acked, Handler(FromCache, t)), w);
    NothingIsTaken(todo[0].job.name, todo[0].job.spec.machineID);
    w' := CreatesOne(env, w, 0);
  }

  // ---------------------------------------------------------------------- an unaccepted snapshot

  lemma BeginRefused(env: Env, w: World, t: Time, json: string)
    requires AboutToBegin(env, w, t, json)
    ensures Apply(env, w, Begin(t, t, Refused, [])) ==
              w.(cache := SnapshotCopy(env, w, t, json), phase := Passed, now := t)
  {
  }

  lemma QueuesAgain(env: Env, w: World)
    requires w.phase.Passed? && w.pass.None? && !w.cache.obj.canceled && !Finished(w.cache.obj.status)
    requires !Expired(w.cache.obj.status, w.now) && w.cache.obj.status.since.Some?
    ensures var v := Apply(env, w, Enqueue(w.now, w.now, Acked, Poll));
            v == w.(queued := true, phase := Idle) && Apply(env, v, Fire) == w.(queued := false, phase := Fired)
  {
  }

  lemma BeginsScheduled(env: Env, w: World, spec: MaintenanceSpec, todo: seq<Pending>)
    requires w.phase.Fired? && w.pass.None? && !w.cache.obj.canceled && Scheduled(w.cache.obj.status)
    requires Started(w.cache.obj.status, w.now) && !Expired(w.cache.obj.status, w.now)
    requires var s := w.cache.obj.status;
             && s.snapshot != "" && s.hash != "" && env.codec.sha(s.snapshot) == s.hash
             && env.codec.decode(s.snapshot) == Some(spec)
    requires Generable(env, spec, todo)
    ensures Apply(env, w, Begin(w.now, w.now, Refused, todo)) ==
              w.(phase := Passed, pass := Some(Pass(w.now, w.cache.version, w.cache.obj.status.snapshot, spec, todo)))
  {
  }

  /** The snapshot is refused, and the next poll finds it in the cached object and begins a pass with it. */
  lemma BeginsUnaccepted(env: Env, w: World, t: Time, spec: MaintenanceSpec, json: string, todo: seq<Pending>)
    returns (w': World)
    requires AboutToBegin(env, w, t, json) && w.cache.obj.status.since.Some?
    requires json != "" && env.codec.sha(json) != "" && env.codec.decode(json) == Some(spec)
    requires Generable(env, spec, todo)
    ensures Reaches(env, w, w') && w'.history == w.history && w'.created == w.created
    ensures w'.jobs == w.jobs && w'.jobCache == w.jobCache
    ensures w'.pass == Some(Pass(t, w.cache.version, json, spec, todo))
  {
    ReachesSelf(env, w);
    var v := w.(cache := SnapshotCopy(env, w, t, json), phase := Passed, now := t);
    BeginRefused(env, w, t, json);
    ReachesStep(env, w, w, Begin(t, t, Refused, []), v);
    QueuesAgain(env, v);
    ReachesStep(env, w, v, Enqueue(t, t, Acked, Poll), v.(queued := true, phase := Idle));
    var u := v.(queued := false, phase := Fired);
    ReachesStep(env, w, v.(queued := true, phase := Idle), Fire, u);
    BeginsScheduled(env, u, spec, todo);
    w' := Apply(env, u, Begin(t, t, Refused, todo));
    ReachesStep(env, w, u, Begin(t, t, Refused, todo), w');
  }

  /**
   A run from creation, for every Maintenance that is polled and has something to create: its scheduling
   write is refused, the next pass takes the snapshot in the dirty cached object for an accepted one and
   creates a job from it, and no version on the server has a snapshot.
   */
  lemma UnacceptedSnapshotCreatesJobs(
    env: Env, spec: MaintenanceSpec, now: Time, t: Time, json: string, todo: seq<Pending>)
    returns (w: World)
    requires ZERO_TIME < now <= t && Pollable(env, spec) && WindowSince(env, spec) <= t <= WindowUntil(env, spec)
    requires Readable(env, spec, json) && Generable(env, spec, todo) && todo != []
    ensures Reaches(env, InitWorld(spec, now), w) && |w.created| == 1
    ensures forall v :: 0 <= v < |w.history| ==> !Scheduled(w.history[v].status)
  {
    var w0 := InitWorld(spec, now);
    ReachesFirstPoll(env, w0);
    var u := FiredAt(env, w0);
    FiredIsReady(env, spec, now, t, json);
    w := CreatesUnaccepted(env, u, t, spec, json, todo);
    ReachesOn(env, w0, u, w);
  }

  /** The first poll of a new Maintenance, within its window. */
  lemma FiredIsReady(env: Env, spec: MaintenanceSpec, now: Time, t: Time, json: string)
    requires ZERO_TIME < now <= t && WindowSince(env, spec) <= t <= WindowUntil(env, spec)
    requires env.codec.encode(spec) == Some(json)
    ensures var u := FiredAt(env, InitWorld(spec, now));
            && AboutToBegin(env, u, t, json) && u.cache.obj.status.since.Some?
            && u.created == [] && u.jobs == u.jobCache == map[]
            && u.cache.version == |u.history| - 1 && u.cache.obj == Last(u)
            && forall v :: 0 <= v < |u.history| ==> !Scheduled(u.history[v].status)
  {
  }

  lemma CreatesUnaccepted(env: Env, u: World, t: Time, spec: MaintenanceSpec, json: string, todo: seq<Pending>)
    returns (w: World)
    requires AboutToBegin(env, u, t, json) && u.cache.obj.status.since.Some? && u.jobs == u.jobCache == map[]
    requires Readable(env, spec, json) && Generable(env, spec, todo) && todo != []
    ensures Reaches(env, u, w) && |w.created| == |u.created| + 1 && w.history == u.history
  {
    var v := BeginsUnaccepted(env, u, t, spec, json, todo);
    NothingIsTaken(todo[0].job.name, todo[0].job.spec.machineID);
    w := CreatesOne(env, v, 0);
    ReachesOn(env, u, v, w);
  }

  // ---------------------------------------------------------------------- when all jobs use an accepted snapshot

  /** The jobs created beyond the first `n` are made from the snapshot on the server. */
  predicate HeldFrom(w: World, n: nat) {
    w.history != [] && forall i :: n <= i < |w.created| ==>
      Scheduled(Last(w).status) && w.created[i].snapshot == Last(w).status.snapshot
  }

  predicate SuffixOf(a: seq<Pending>, b: seq<Pending>) {
    |a| <= |b| && forall i :: 0 <= i < |a| ==> a[i] == b[|b| - |a| + i]
  }

  /** The snapshot of a pass is valid, and its pending jobs are the rest of what the rule generated. */
  ghost predicate PartOf(env: Env, p: Pass) {
    && p.snapshot != "" && env.codec.sha(p.snapshot) != ""
    && exists full :: RestOf(env, p.spec, p.todo, full)
  }

  ghost predicate RestOf(env: Env, spec: MaintenanceSpec, todo: seq<Pending>, full: seq<Pending>) {
    Generable(env, spec, full) && SuffixOf(todo, full)
  }

  lemma SuffixOfSuffix(a: seq<Pending>, b: seq<Pending>, c: seq<Pending>)
    requires SuffixOf(a, b) && SuffixOf(b, c)
    ensures SuffixOf(a, c)
  {
    forall i | 0 <= i < |a| ensures a[i] == c[|c| - |a| + i] {
      assert a[i] == b[|b| - |a| + i];
    }
  }

  lemma BeginPartOf(env: Env, w: World, step: Step, w': World)
    requires step.Begin? && w' == Apply(env, w, step) && w'.pass.Some? && w'.pass != w.pass
    ensures PartOf(env, w'.pass.value)
  {
    var p := w'.pass.value;
    assert RestOf(env, p.spec, p.todo, p.todo);
  }

  lemma SamePassPartOf(env: Env, p: Pass, q: Pass)
    requires PartOf(env, p) && SamePass(p, q)
    ensures PartOf(env, q)
  {
    var full :| RestOf(env, p.spec, p.todo, full);
    SuffixOfSuffix(q.todo, p.todo, full);
    assert RestOf(env, q.spec, q.todo, full);
  }

  lemma StepPartOf(env: Env, w: World, step: Step, w': World)
    requires w' == Apply(env, w, step) && (w.pass.Some? ==> PartOf(env, w.pass.value))
    ensures w'.pass.Some? ==> PartOf(env, w'.pass.value)
  {
    StepFrame(env, w, step, w');
    if w'.pass.Some? && w'.pass != w.pass {
      if step.Begin? {
        BeginPartOf(env, w, step, w');
      } else if step.Create? {
        CreateFrame(w, step.net, w');
        SamePassPartOf(env, w.pass.value, w'.pass.value);
      }
    }
  }

  lemma {:induction false} RunPartOf(env: Env, w: World, steps: seq<Step>)
    requires w.pass.Some? ==> PartOf(env, w.pass.value)
    ensures var w' := Execute(env, w, steps); w'.pass.Some? ==> PartOf(env, w'.pass.value)
  {
    if steps != [] {
      var n := |steps| - 1;
      RunPartOf(env, w, steps[..n]);
      StepPartOf(env, Execute(env, w, steps[..n]), steps[n], Execute(env, w, steps));
    }
  }

  /** A step from `w` gave the server its snapshot: it finished the object, or a pass at time `t` took it. */
  predicate GivesSnapshot(env: Env, w: World, w': World, t: Time)
    requires w'.history != []
  {
    && w'.jobs == w.jobs
    && (|| (Finished(Last(w').status) && w'.pass == w.pass)
        || (AboutToBegin(env, w, t, Last(w').status.snapshot) && w.cache.obj.status.since.Some?))
  }

  /**
   The steps that give the server its snapshot: an accepted scheduling write, or the finish of a dirty
   cached object.
   */
  lemma StepSchedules(env: Env, w: World, step: Step, w': World)
    requires Inv(env, w) && w' == Apply(env, w, step) && w'.history != []
    requires !Scheduled(Last(w).status) && Scheduled(Last(w').status)
    ensures GivesSnapshot(env, w, w', if step.Begin? then step.check else w.now)
  {
    StepFrame(env, w, step, w');
    match step
    case Admit(fromCache, stamp, net) => AdmitSchedulesNothing(env, w, fromCache, stamp, net);
    case Enqueue(check, stamp, net, caller) => EnqueueSchedules(env, w, step, w');
    case Begin(check, stamp, net, todo) => BeginSchedules(env, w, step, w');
    case Create(net) =>
      if w.pass.Some? {
        CreateGrows(w, net);
      }
    case _ =>
  }

  lemma AdmitSchedulesNothing(env: Env, w: World, fromCache: bool, stamp: Time, net: Net)
    requires Inv(env, w) && !Scheduled(Last(w).status)
    ensures var w' := AdmitStep(env, w, fromCache, stamp, net); w'.history != [] && !Scheduled(Last(w').status)
  {
    var c := if fromCache then w.cache else Copy(|w.history| - 1, Last(w));
    assert StatusOk(env, w.history[|w.history| - 1].status, w.now);
    assert StatusOk(env, c.obj.status, w.now);
  }

  lemma EnqueueSchedules(env: Env, w: World, step: Step, w': World)
    requires w.history != [] && step.Enqueue? && w' == Apply(env, w, step) && w'.history != []
    requires !Scheduled(Last(w).status) && Scheduled(Last(w').status) && w.now > ZERO_TIME
    ensures Finished(Last(w').status)
  {
    var u := if step.caller.Poll? then w.(phase := Idle) else w;
    if w' != w {
      EnqueueFinishes(u, step.check, step.stamp, step.net, w');
    }
  }

  lemma EnqueueFinishes(w: World, check: Time, stamp: Time, net: Net, w': World)
    requires w.history != [] && stamp > ZERO_TIME && w' == EnqueueStep(w, check, stamp, net)
    ensures w'.history == w.history || (w'.history != [] && Finished(Last(w').status))
  {
    FinishSchedules(w.(now := stamp), stamp, net);
  }

  lemma FinishSchedules(w: World, stamp: Time, net: Net)
    requires w.history != [] && stamp > ZERO_TIME
    ensures var w' := FinishWrite(w, stamp, net);
            w'.history == w.history || (w'.history != [] && Finished(Last(w').status))
  {
  }

  lemma BeginSchedules(env: Env, w: World, step: Step, w': World)
    requires Inv(env, w) && step.Begin? && w' == Apply(env, w, step) && w'.history != []
    requires !Scheduled(Last(w).status) && Scheduled(Last(w').status)
    ensures AboutToBegin(env, w, step.check, Last(w').status.snapshot) && w.cache.obj.status.since.Some?
  {
    assert StatusOk(env, w.cache.obj.status, w.now);
  }

  /** Where a run gives the server its snapshot. */
  lemma {:induction false} SplitsAtSchedule(env: Env, w: World, steps: seq<Step>) returns (k: nat)
    requires w.history != [] && !Scheduled(Last(w).status)
    requires var w' := Execute(env, w, steps); w'.history != [] && Scheduled(Last(w').status)
    ensures k < |steps|
    ensures var u, u' := Execute(env, w, steps[..k]), Execute(env, w, steps[..k + 1]);
            u.history != [] && !Scheduled(Last(u).status) && u'.history != [] && Scheduled(Last(u').status)
  {
    var n := |steps| - 1;
    assert steps != [] && steps[..n + 1] == steps;
    var v := Execute(env, w, steps[..n]);
    RunGrows(env, w, steps[..n]);
    if Scheduled(Last(v).status) {
      k := SplitsAtSchedule(env, w, steps[..n]);
      assert steps[..n][..k] == steps[..k] && steps[..n][..k + 1] == steps[..k + 1];
    } else {
      k := n;
    }
  }

  /** A job that a create step creates was not there. */
  lemma CreatedWasMissing(env: Env, w: World, step: Step, w': World)
    requires w' == Apply(env, w, step) && w'.created != w.created && Learns(w.jobCache, w.jobs)
    ensures step.Create? && w.pass.Some? && w.pass.value.todo != [] && !IsThere(w.jobs, w.pass.value.todo[0])
    ensures w'.history == w.history && |w'.created| > |w.created|
  {
    StepFrame(env, w, step, w');
    CreateGrows(w, step.net);
    if w.pass.value.todo != [] && IsThere(w.jobs, w.pass.value.todo[0]) {
      CreatesNothing(w, step.net);
    }
  }

  lemma {:induction false} JobsGrow(env: Env, w: World, steps: seq<Step>)
    ensures Learns(w.jobs, Execute(env, w, steps).jobs)
  {
    if steps != [] {
      var n := |steps| - 1;
      JobsGrow(env, w, steps[..n]);
      var v, v' := Execute(env, w, steps[..n]), Execute(env, w, steps);
      StepFrame(env, v, steps[n], v');
      if steps[n].Create? && v.pass.Some? {
        CreateFrame(v, steps[n].net, v');
      }
    }
  }

  /** What a later state has in common with one in which the server has its snapshot. */
  ghost predicate LaterPass(env: Env, u: World, v: World)
    requires u.history != []
  {
    && Learns(u.jobs, v.jobs)
    && (v.pass.Some? ==>
          && v.pass.value.snapshot == Last(u).status.snapshot
          && env.codec.decode(v.pass.value.snapshot) == Some(v.pass.value.spec)
          && (Finished(Last(u).status) ==> u.pass.Some? && SamePass(u.pass.value, v.pass.value)))
  }

  lemma RunIsLater(env: Env, u: World, rest: seq<Step>, v: World)
    requires Inv(env, u) && Scheduled(Last(u).status) && v == Execute(env, u, rest)
    ensures LaterPass(env, u, v)
  {
    JobsGrow(env, u, rest);
    if v.pass.Some? {
      SnapshotLater(env, u, rest, v);
    }
    if Finished(Last(u).status) {
      OnlyRunningPassCreates(env, u, rest);
    }
  }

  /** What is missing now was missing before. */
  lemma WasMissing(jobs: map<string, JobSpec>, jobs': map<string, JobSpec>, pending: Pending)
    requires Learns(jobs, jobs') && !IsThere(jobs', pending)
    ensures !IsThere(jobs, pending)
  {
    if IsThere(jobs, pending) {
      LeadingRunStays(jobs, jobs', pending.job.name, pending.job.spec.machineID);
    }
  }

  /**
   The write that gives the server its snapshot finishes the object: the pass under way can create its
   job before that.
   */
  lemma BeforeFinish(env: Env, u: World, v: World) returns (y: World)
    requires Learns(u.jobCache, u.jobs) && u.pass.Some? && v.pass.Some? && SamePass(u.pass.value, v.pass.value)
    requires v.pass.value.todo != [] && !IsThere(u.jobs, v.pass.value.todo[0])
    requires u.history != [] && !Scheduled(Last(u).status)
    ensures Reaches(env, u, y) && !HeldFrom(y, |u.created|)
  {
    var p, q := u.pass.value, v.pass.value;
    var j := |p.todo| - |q.todo|;
    assert q.todo[0] == p.todo[j];
    y := CreatesOne(env, u, j);
    NotHeld(u, y);
  }

  /** It is an accepted scheduling write: it could have been refused. */
  lemma InsteadRefused(env: Env, u: World, t: Time, json: string, v: World) returns (y: World)
    requires Learns(u.jobCache, u.jobs) && AboutToBegin(env, u, t, json) && u.cache.obj.status.since.Some?
    requires v.pass.Some? && v.pass.value.todo != [] && PartOf(env, v.pass.value)
    requires v.pass.value.snapshot == json && env.codec.decode(json) == Some(v.pass.value.spec)
    requires !IsThere(u.jobs, v.pass.value.todo[0])
    requires u.history != [] && !Scheduled(Last(u).status)
    ensures Reaches(env, u, y) && !HeldFrom(y, |u.created|)
  {
    var q := v.pass.value;
    var full :| RestOf(env, q.spec, q.todo, full);
    var j := |full| - |q.todo|;
    assert q.todo[0] == full[j];
    var x := BeginsUnaccepted(env, u, t, q.spec, json, full);
    y := CreatesOne(env, x, j);
    ReachesOn(env, u, x, y);
    NotHeld(u, y);
  }

  lemma SnapshotLater(env: Env, u: World, rest: seq<Step>, v: World)
    requires Inv(env, u) && Scheduled(Last(u).status) && v == Execute(env, u, rest) && v.pass.Some?
    ensures Inv(env, v) && v.pass.value.snapshot == Last(u).status.snapshot
    ensures env.codec.decode(v.pass.value.snapshot) == Some(v.pass.value.spec)
  {
    RunKeepsInv(env, u, rest);
    RunGrows(env, u, rest);
    SnapshotStays(env, u, v);
    PassUsesSnapshot(env, v);
  }

  /** The pass under way will create its next job. */
  ghost predicate CanCreate(env: Env, v: World) {
    && v.pass.Some? && v.pass.value.todo != [] && PartOf(env, v.pass.value)
    && !IsThere(v.jobs, v.pass.value.todo[0])
  }

  /** The server got its snapshot between `u` and `u'`, and `v` is a later state. */
  ghost predicate SplitAt(env: Env, u: World, t: Time, u': World, v: World) {
    && Learns(u.jobCache, u.jobs) && u'.history != []
    && u.history != [] && !Scheduled(Last(u).status)
    && GivesSnapshot(env, u, u', t) && LaterPass(env, u', v)
  }

  /** A run that creates a job after the server got its snapshot can be changed into one that creates it before. */
  lemma ChangesRun(env: Env, u: World, t: Time, u': World, v: World) returns (y: World)
    requires SplitAt(env, u, t, u', v) && CanCreate(env, v)
    ensures Reaches(env, u, y) && !HeldFrom(y, |u.created|)
  {
    WasMissing(u'.jobs, v.jobs, v.pass.value.todo[0]);
    if Finished(Last(u').status) && u'.pass == u.pass {
      y := BeforeFinish(env, u, v);
    } else {
      y := InsteadRefused(env, u, t, Last(u').status.snapshot, v);
    }
  }

  /** The last step of the run creates the job, and the server had no snapshot yet, or got it between `u` and `u'`. */
  lemma LastCreates(env: Env, v: World, step: Step, v': World, u: World, t: Time, u': World) returns (y: World)
    requires v' == Apply(env, v, step) && v'.created != v.created && Learns(v.jobCache, v.jobs)
    requires v.pass.Some? ==> PartOf(env, v.pass.value)
    requires SplitAt(env, u, t, u', v)
    ensures Reaches(env, u, y) && !HeldFrom(y, |u.created|)
  {
    CreatedWasMissing(env, v, step, v');
    y := ChangesRun(env, u, t, u', v);
  }

  lemma LastCreatesUnheld(env: Env, v: World, step: Step, v': World)
    requires v' == Apply(env, v, step) && v'.created != v.created && Learns(v.jobCache, v.jobs)
    requires v.history != [] && !Scheduled(Last(v).status)
    ensures !HeldFrom(v', |v.created|)
  {
    CreatedWasMissing(env, v, step, v');
    NotHeld(v, v');
  }

  /** A run that creates a job, from a state without an accepted snapshot, gives one that creates a job without one. */
  lemma {:induction false} CreatesUnheld(env: Env, w: World, steps: seq<Step>) returns (steps': seq<Step>)
    requires Inv(env, w) && (w.pass.Some? ==> PartOf(env, w.pass.value))
    requires !Scheduled(Last(w).status) && Execute(env, w, steps).created != w.created
    ensures !HeldFrom(Execute(env, w, steps'), |w.created|)
  {
    assert steps != [];
    var n := |steps| - 1;
    var v := Execute(env, w, steps[..n]);
    if v.created != w.created {
      steps' := CreatesUnheld(env, w, steps[..n]);
    } else {
      RunKeepsInv(env, w, steps[..n]);
      if !Scheduled(Last(v).status) {
        steps' := steps;
        LastCreatesUnheld(env, v, steps[n], Execute(env, w, steps));
      } else {
        steps' := SplitAndChange(env, w, steps[..n], v, steps[n], Execute(env, w, steps));
      }
    }
  }

  /** A job created while the server has no snapshot. */
  lemma NotHeld(w: World, w': World)
    requires w.history != [] && !Scheduled(Last(w).status) && w'.history == w.history && |w'.created| > |w.created|
    ensures !HeldFrom(w', |w.created|)
  {
    var c := w'.created[|w.created|];
  }

  lemma SplitAndChange(
    env: Env, w: World, before: seq<Step>, v: World, step: Step, v': World)
    returns (steps': seq<Step>)
    requires Inv(env, w) && (w.pass.Some? ==> PartOf(env, w.pass.value)) && !Scheduled(Last(w).status)
    requires v == Execute(env, w, before) && v.created == w.created && v.history != [] && Scheduled(Last(v).status)
    requires v' == Apply(env, v, step) && v'.created != v.created
    ensures !HeldFrom(Execute(env, w, steps'), |w.created|)
  {
    var first, u, t, u' := SplitFacts(env, w, before, v);
    RunPartOf(env, w, before);
    RunKeepsInv(env, w, before);
    var y := LastCreates(env, v, step, v', u, t, u');
    steps' := RunsOn(env, w, first, u, y);
  }

  /** The step that gives the server its snapshot, and what lies before and after it. */
  lemma SplitFacts(env: Env, w: World, steps: seq<Step>, v: World)
    returns (before: seq<Step>, u: World, t: Time, u': World)
    requires Inv(env, w) && v == Execute(env, w, steps) && v.created == w.created
    requires !Scheduled(Last(w).status) && v.history != [] && Scheduled(Last(v).status)
    ensures u == Execute(env, w, before) && u.created == w.created && SplitAt(env, u, t, u', v)
  {
    var k := SplitsAtSchedule(env, w, steps);
    before, u, u' := steps[..k], Execute(env, w, steps[..k]), Execute(env, w, steps[..k + 1]);
    AtSplit(env, w, steps, k, u, u', v);
    RunKeepsInv(env, w, steps[..k]);
    t := if steps[k].Begin? then steps[k].check else u.now;
    StepSplits(env, u, steps[k], t, u', steps[k + 1..], v);
  }

  lemma StepSplits(env: Env, u: World, step: Step, t: Time, u': World, rest: seq<Step>, v: World)
    requires Inv(env, u) && u' == Apply(env, u, step) && v == Execute(env, u', rest)
    requires !Scheduled(Last(u).status) && u'.history != [] && Scheduled(Last(u').status)
    requires t == if step.Begin? then step.check else u.now
    ensures SplitAt(env, u, t, u', v)
  {
    StepKeepsInv(env, u, step);
    RunIsLater(env, u', rest, v);
    StepSchedules(env, u, step, u');
  }

  lemma RunFrom(env: Env, w: World, steps: seq<Step>, k: nat, u: World)
    requires k <= |steps| && u == Execute(env, w, steps[..k])
    ensures Execute(env, u, steps[k..]) == Execute(env, w, steps)
  {
    assert steps[..k] + steps[k..] == steps;
    ExecuteConcat(env, w, steps[..k], steps[k..]);
  }

  lemma CreatedBetween(env: Env, w: World, u: World, before: seq<Step>, rest: seq<Step>)
    requires u == Execute(env, w, before) && Execute(env, u, rest).created == w.created
    ensures u.created == w.created
  {
    RunGrows(env, w, before);
    RunGrows(env, u, rest);
  }

  lemma AtSplit(env: Env, w: World, steps: seq<Step>, k: nat, u: World, u': World, v: World)
    requires k < |steps| && v == Execute(env, w, steps) && v.created == w.created
    requires u == Execute(env, w, steps[..k]) && u' == Execute(env, w, steps[..k + 1])
    ensures u' == Apply(env, u, steps[k]) && v == Execute(env, u', steps[k + 1..]) && u.created == w.created
  {
    assert steps[..k + 1] == steps[..k] + [steps[k]];
    ExecuteSnoc(env, w, steps[..k], steps[k]);
    RunFrom(env, w, steps, k + 1, u');
    RunFrom(env, w, steps, k, u);
    CreatedBetween(env, w, u, steps[..k], steps[k..]);
  }

  lemma RunsOn(env: Env, w: World, steps: seq<Step>, u: World, y: World) returns (steps': seq<Step>)
    requires u == Execute(env, w, steps) && Reaches(env, u, y)
    ensures Execute(env, w, steps') == y
  {
    var more :| NoEdits(more) && Execute(env, u, more) == y;
    steps' := steps + more;
    ExecuteConcat(env, w, steps, more);
  }

  /** Once the server has a snapshot, all later jobs are made from it. */
  lemma HeldOnceScheduled(env: Env, w: World, steps: seq<Step>)
    requires Inv(env, w) && Scheduled(Last(w).status)
    ensures HeldFrom(Execute(env, w, steps), |w.created|)
  {
    var w' := Execute(env, w, steps);
    RunKeepsInv(env, w, steps);
    RunGrows(env, w, steps);
    SnapshotStays(env, w, w');
    forall i | |w.created| <= i < |w'.created| ensures w'.created[i].snapshot == Last(w').status.snapshot {
      LaterJobsUseSnapshot(env, w, steps, i);
    }
  }

  /**
   In every reachable state: all later jobs are made from a snapshot the server holds, in all
   continuations, exactly if the server holds one already or no continuation creates a job at all.
   */
  lemma SnapshotHeldIff(env: Env, spec: MaintenanceSpec, now: Time, before: seq<Step>, w: World)
    requires now > ZERO_TIME && w == Execute(env, InitWorld(spec, now), before)
    ensures w.history != []
    ensures (forall steps :: HeldFrom(Execute(env, w, steps), |w.created|))
       <==> Scheduled(Last(w).status) || forall steps :: Execute(env, w, steps).created == w.created
  {
    InitInv(env, spec, now);
    RunKeepsInv(env, InitWorld(spec, now), before);
    RunPartOf(env, InitWorld(spec, now), before);
    if Scheduled(Last(w).status) {
      forall steps ensures HeldFrom(Execute(env, w, steps), |w.created|) {
        HeldOnceScheduled(env, w, steps);
      }
    } else if steps :| Execute(env, w, steps).created != w.created {
      var steps' := CreatesUnheld(env, w, steps);
    } else {
      forall steps ensures HeldFrom(Execute(env, w, steps), |w.created|) {
        RunGrows(env, w, steps);
      }
    }
  }

  // ---------------------------------------------------------------------- deletion marks

  /** A deletion mark stays, and the cache has seen it while no pass is under way. */
  ghost predicate Marked(w: World) {
    && w.cache.version < |w.history| && w.cache.obj.canceled && w.pass.None?
    && forall v {:trigger w.history[v]} :: w.cache.version <= v < |w.history| ==> w.history[v].canceled
  }

  predicate MarksStay(h: seq<Object>) {
    forall u, v :: 0 <= u <= v < |h| && h[u].canceled ==> h[v].canceled
  }

  /** From the last version of `h` on, a deletion mark stays. */
  predicate KeepsMark(h: seq<Object>, h': seq<Object>) {
    h <= h' && h != [] && forall u, v :: |h| - 1 <= u <= v < |h'| && h'[u].canceled ==> h'[v].canceled
  }

  lemma StepKeepsMark(env: Env, w: World, step: Step, w': World)
    requires w.history != [] && w' == Apply(env, w, step)
    ensures KeepsMark(w.history, w'.history)
  {
    if !step.EditSpec? && !step.Cancel? {
      StepKeepsObject(env, w, step, w');
    }
  }

  lemma AppendsKeepMarks(h: seq<Object>, h': seq<Object>)
    requires MarksStay(h) && KeepsMark(h, h')
    ensures MarksStay(h')
  {
    var last := |h| - 1;
    forall u, v | 0 <= u <= v < |h'| && h'[u].canceled ensures h'[v].canceled {
      if u < last <= v {
        assert h[u].canceled && h[last].canceled && h'[last].canceled;
      }
    }
  }

  lemma {:induction false} RunMarksStay(env: Env, spec: MaintenanceSpec, now: Time, steps: seq<Step>)
    requires now > ZERO_TIME
    ensures MarksStay(Execute(env, InitWorld(spec, now), steps).history)
  {
    if steps != [] {
      var before := steps[..|steps| - 1];
      var w := Execute(env, InitWorld(spec, now), before);
      RunMarksStay(env, spec, now, before);
      InitInv(env, spec, now);
      RunKeepsInv(env, InitWorld(spec, now), before);
      StepKeepsMark(env, w, steps[|steps| - 1], Execute(env, InitWorld(spec, now), steps));
      AppendsKeepMarks(w.history, Execute(env, InitWorld(spec, now), steps).history);
    }
  }

  /** Neither handler nor pass does anything with a marked object. */
  lemma MarkedFrame(env: Env, w: World, step: Step, w': World)
    requires Marked(w) && w' == Apply(env, w, step)
    ensures w'.pass.None? && w'.created == w.created && w'.fault == w.fault && (w'.queued ==> w.queued)
    ensures if step.Sync? && w.cache.version <= step.version < |w.history|
            then w'.cache == Copy(step.version, w.history[step.version]) else w'.cache == w.cache
  {
    match step
    case Admit(fromCache, stamp, net) => AdmitLeavesCache(env, w, fromCache, stamp, net);
    case _ =>
  }

  lemma AdmitLeavesCache(env: Env, w: World, fromCache: bool, stamp: Time, net: Net)
    ensures var w' := AdmitStep(env, w, fromCache, stamp, net);
            w'.cache == w.cache && w'.pass == w.pass && w'.created == w.created && SamePolling(w, w')
  {
    AdmitFrame(env, w, fromCache, stamp, net);
  }

  lemma MarkedStep(env: Env, w: World, step: Step, w': World)
    requires Marked(w) && w' == Apply(env, w, step)
    ensures Marked(w')
  {
    MarkedFrame(env, w, step, w');
    StepKeepsMark(env, w, step, w');
    var last := |w.history| - 1;
    forall v | w'.cache.version <= v < |w'.history| ensures w'.history[v].canceled {
      assert w.history[last].canceled && w'.history[last].canceled;
    }
  }

  lemma {:induction false} MarkedRun(env: Env, w: World, steps: seq<Step>)
    requires Marked(w)
    ensures var w' := Execute(env, w, steps);
            Marked(w') && w'.created == w.created && w'.fault == w.fault && (w'.queued ==> w.queued)
  {
    if steps != [] {
      var u, step := Execute(env, w, steps[..|steps| - 1]), steps[|steps| - 1];
      MarkedRun(env, w, steps[..|steps| - 1]);
      MarkedFrame(env, u, step, Execute(env, w, steps));
      MarkedStep(env, u, step, Execute(env, w, steps));
    }
  }

  /**
   Once the cache shows that a Maintenance is marked for deletion and no pass is under way, no
   continuation creates a job for it, starts a pass, queues it again or crashes.
   */
  lemma DeletionMarkStops(env: Env, spec: MaintenanceSpec, now: Time, steps: seq<Step>, more: seq<Step>)
    requires now > ZERO_TIME
    requires var w := Execute(env, InitWorld(spec, now), steps); w.cache.obj.canceled && w.pass.None?
    ensures var w := Execute(env, InitWorld(spec, now), steps);
            var w' := Execute(env, w, more);
            w'.created == w.created && w'.pass.None? && w'.fault == w.fault && (w'.queued ==> w.queued)
  {
    InitInv(env, spec, now);
    RunKeepsInv(env, InitWorld(spec, now), steps);
    RunMarksStay(env, spec, now, steps);
    MarkedRun(env, Execute(env, InitWorld(spec, now), steps), more);
  }
}
