/**
 The handlers of a Maintenance as the imperative code they are: they share the cached object, edit it
 in place and may leave it dirty.  Each is proved to do what steps of `Lifecycle` do.
 */
module MaintenanceController {
  import opened Types
  import opened JobNames
  import opened DependencyGate
  import opened Lifecycle

  class MaintenanceObject {
    var version: nat
    var obj: Object

    constructor (version: nat, obj: Object)
      ensures this.version == version && this.obj == obj
    {
      this.version, this.obj := version, obj;
    }
  }

  /** A snapshot that a pass goes by: when and from which version it was taken, and what it decodes to. */
  datatype Snapshot = Snapshot(now: Time, version: nat, json: string, spec: MaintenanceSpec)

  /** The pass that has this snapshot and these jobs to create. */
  ghost function PassOf(env: Env, snap: Option<Snapshot>, todo: seq<Pending>): Option<Pass> {
    if snap.Some? && Generable(env, snap.value.spec, todo)
    then Some(Pass(snap.value.now, snap.value.version, snap.value.json, snap.value.spec, todo))
    else None
  }

  /** One create step for each answer. */
  function Creates(answers: seq<Net>): (r: seq<Step>)
    ensures |r| == |answers|
  {
    if answers == [] then [] else Creates(answers[..|answers| - 1]) + [Create(answers[|answers| - 1])]
  }

  /** The steps of a whole pass. */
  function PassSteps(check: Time, stamp: Time, net: Net, todo: seq<Pending>, answers: seq<Net>): seq<Step> {
    [Begin(check, stamp, net, todo)] + Creates(answers) + [End]
  }

  ghost function CreateAll(v: World, answers: seq<Net>): (r: World)
    requires v.pass.Some?
    ensures r.pass.Some? && r.history == v.history
  {
    if answers == [] then v else CreateStep(CreateAll(v, answers[..|answers| - 1]), answers[|answers| - 1])
  }

  /**
   What is asked of the API for a generated job: nothing, exactly if a job of its machine is in the
   leading run of taken names, else that job under the least free name.
   */
  ghost predicate RequestOk(names: map<string, JobSpec>, job: MaintenanceJob, request: Option<MaintenanceJob>) {
    request == if InLeadingRun(names, job.name, job.spec.machineID) then None
               else Some(job.(name := FreeName(names, job.name)))
  }

  ghost predicate RequestsOk(
    names: map<string, JobSpec>, jobs: seq<MaintenanceJob>, requests: seq<Option<MaintenanceJob>>)
  {
    |requests| <= |jobs| && forall j {:trigger RequestOk(names, jobs[j], requests[j])} ::
      0 <= j < |requests| ==> RequestOk(names, jobs[j], requests[j])
  }

  lemma RequestsStep(
    names: map<string, JobSpec>, jobs: seq<MaintenanceJob>, requests: seq<Option<MaintenanceJob>>,
    request: Option<MaintenanceJob>)
    requires RequestsOk(names, jobs, requests) && |requests| < |jobs| && RequestOk(names, jobs[|requests|], request)
    ensures RequestsOk(names, jobs, requests + [request])
  {
  }

  lemma CreateAllStep(v: World, answers: seq<Net>, i: nat)
    requires v.pass.Some? && i < |answers|
    ensures CreateAll(v, answers[..i + 1]) == CreateStep(CreateAll(v, answers[..i]), answers[i])
  {
    assert answers[..i + 1][..i] == answers[..i];
  }

  class Controller {
    const env: Env
    var history: seq<Object>
    var cached: MaintenanceObject
    var serverJobs: map<string, JobSpec>
    var jobCache: map<string, JobSpec>
    var queued: bool
    var now: Time
    var fault: bool
    ghost var created: seq<Creation>
    ghost var phase: Phase

    constructor (env: Env, history: seq<Object>, cached: MaintenanceObject, now: Time)
      ensures this.env == env && this.history == history && this.cached == cached && this.now == now
      ensures !queued && !fault && created == [] && serverJobs == jobCache == map[] && phase == Idle
    {
      this.env, this.history, this.cached, this.now := env, history, cached, now;
      serverJobs, jobCache := map[], map[];
      queued, fault, created, phase := false, false, [], Idle;
    }

    ghost function View(p: Option<Pass>): World
      reads this, cached
    {
      World(history, Copy(cached.version, cached.obj), p, created, serverJobs, jobCache, queued, phase, now, fault)
    }

    method UpdateStatus(mt: MaintenanceObject, net: Net) returns (ok: bool)
      requires history != []
      modifies this`history
      ensures history == (if net.Refused? || mt.version != |old(history)| - 1 then old(history)
                          else old(history) + [old(history)[|old(history)| - 1].(status := mt.obj.status)])
      ensures ok == (net.Acked? && mt.version == |old(history)| - 1)
    {
      ok := false;
      if !net.Refused? && mt.version == |history| - 1 {
        history := history + [history[|history| - 1].(status := mt.obj.status)];
        ok := net.Acked?;
      }
    }

    /** The time window of a Maintenance, from its own schedule where given and from the defaults elsewhere. */
    method ComputeWindow(schedule: Schedule) returns (since: Time, until: Time)
      ensures forall spec: MaintenanceSpec :: spec.schedule == schedule ==>
                since == WindowSince(env, spec) && until == WindowUntil(env, spec)
    {
      since := if IsSet(schedule.since) then schedule.since.value else env.creation;
      var delay := if schedule.delay < 1 then env.defaultDelay else schedule.delay;
      since := since + delay;
      if IsSet(schedule.until) {
        until := schedule.until.value;
      } else {
        var duration := if schedule.duration < 1 then env.defaultDuration else schedule.duration;
        until := since + duration;
      }
    }

    /** `onMaintenanceAdded`, which works on a deep copy. */
    method OnAdded(stamp: Time, net: Net, ghost p: Option<Pass>)
      requires history != [] && now <= stamp
      modifies this`history, this`now
      ensures View(p) == old(AdmitStep(env, View(p), true, stamp, net))
    {
      var o := cached.obj;
      if Admitted(o.status) || !CanBeScheduledIn(o.spec, env.namespace) {
        return;
      }
      var since, until := ComputeWindow(o.spec.schedule);
      if !(since < until) {
        return;
      }
      now := stamp;
      var s := o.status.(since := Some(since), until := Some(until), admittedAt := Some(stamp));
      assert AdmitStatus(env, o, stamp) == Some(s);
      var mt := new MaintenanceObject(cached.version, o.(status := s));
      var _ := UpdateStatus(mt, net);
    }

    /** Marks the cached object finished, in place, and writes it. */
    method Finish(stamp: Time, net: Net, ghost p: Option<Pass>) returns (ok: bool)
      requires history != []
      modifies this`history, cached`obj
      ensures View(p) == old(FinishWrite(View(p), stamp, net))
      ensures ok == old(Accepted(View(p), cached.version, net))
    {
      cached.obj := cached.obj.(status := cached.obj.status.(finishedAt := Some(stamp)));
      ok := UpdateStatus(cached, net);
    }

    /** The queueing code: it needs a start time, which an empty object does not have. */
    method DoEnqueue(status: Status, check: Time, found: bool)
      modifies this`queued, this`fault
      ensures queued == (old(queued) || (!found && status.since.Some?))
      ensures fault == (old(fault) || (!found && status.since.None?))
    {
      if found {
        return;
      }
      if Started(status, check) || status.since.Some? {
        queued := true;
      } else {
        fault := true;
      }
    }

    /** `enqueueMaintenanceForScheduling`, with its jump to the queueing code after a failed finish write. */
    method EnqueueForScheduling(check: Time, stamp: Time, net: Net, ghost p: Option<Pass>)
      requires history != [] && now <= check <= stamp
      modifies this`history, this`now, this`queued, this`fault, cached`obj
      ensures View(p) == old(EnqueueStep(View(p), check, stamp, net))
    {
      now := stamp;
      if cached.obj.canceled || Finished(cached.obj.status) {
        return;
      }
      if Expired(cached.obj.status, check) {
        var ok := Finish(stamp, net, p);
        if !ok {
          var empty := Status(None, None, None, None, "", "", None);
          DoEnqueue(empty, check, false);
        }
      } else {
        DoEnqueue(cached.obj.status, check, queued);
      }
    }

    /** The checks of the update handler on the object it was given. */
    method Checks(newMt: Object, seen: Time) returns (ok: bool)
      ensures ok == Accepts(env, newMt, seen)
    {
      var s, spec := newMt.status, newMt.spec;
      if Finished(s) || !CanBeScheduledIn(spec, env.namespace) || !Admitted(s) || Expired(s, seen) {
        return false;
      }
      if Scheduled(s) && env.codec.sha(s.snapshot) != s.hash {
        return false;
      }
      if |spec.nodeSelector| == 0 || |spec.stages| == 0 {
        return false;
      }
      for i := 0 to |spec.env|
        invariant forall j :: 0 <= j < i ==> env.validEnv(spec.env[j])
      {
        if !env.validEnv(spec.env[i]) {
          return false;
        }
      }
      for i := 0 to |spec.envFrom|
        invariant forall j :: 0 <= j < i ==> env.validEnvFrom(spec.envFrom[j])
      {
        if !env.validEnvFrom(spec.envFrom[i]) {
          return false;
        }
      }
      ok := true;
    }

    /** `onMaintenanceUpdated`: it checks the object it was given, but queues what the cache holds under that name. */
    method OnUpdated(
      newMt: Object, handed: Handed, seen: Time, check: Time, stamp: Time, net: Net, ghost p: Option<Pass>)
      requires history != [] && now <= seen <= check <= stamp
      requires handed.FromCache? ==> newMt == cached.obj
      requires handed.Version? ==>
                 handed.version <= cached.version && handed.version < |history| && newMt == history[handed.version]
      modifies this`history, this`now, this`queued, this`fault, cached`obj
      ensures View(p) == old(Apply(env, View(p), Enqueue(check, stamp, net, Handler(handed, seen))))
    {
      var ok := Checks(newMt, seen);
      if ok {
        EnqueueForScheduling(check, stamp, net, p);
      }
    }

    /** Takes the snapshot in the cached object, in place, and writes it. */
    method WriteSnapshot(json: string, stamp: Time, net: Net) returns (ok: bool)
      requires history != []
      modifies this`history, cached`obj
      ensures View(None) == old(SnapshotWrite(env, View(None), json, stamp, net))
      ensures ok == old(Accepted(View(None), cached.version, net))
    {
      cached.obj := cached.obj.(status := cached.obj.status.(
        scheduledAt := Some(stamp), snapshot := json, hash := env.codec.sha(json)));
      ok := UpdateStatus(cached, net);
    }

    /** Validates and decodes a snapshot. */
    method ReadSnapshot(s: Status, check: Time, version: nat) returns (snap: Option<Snapshot>)
      ensures forall todo {:trigger PassOf(env, snap, todo)} ::
                PassOf(env, snap, todo) == ValidPass(env, check, version, s, todo)
      ensures snap.Some? ==> env.codec.decode(s.snapshot) == Some(snap.value.spec)
    {
      snap := None;
      if s.snapshot == "" || s.hash == "" || env.codec.sha(s.snapshot) != s.hash {
        return;
      }
      var spec := env.codec.decode(s.snapshot);
      if spec.Some? {
        snap := Some(Snapshot(check, version, s.snapshot, spec.value));
      }
    }

    /** `scheduleMaintenance` up to the decoded snapshot. */
    method TakeSnapshot(check: Time, stamp: Time, net: Net) returns (snap: Option<Snapshot>)
      requires history != [] && now <= check <= stamp
      modifies this`history, this`now, cached`obj
      ensures forall todo {:trigger PassOf(env, snap, todo)} ::
                View(None).(pass := PassOf(env, snap, todo)) == old(BeginStep(env, View(None), check, stamp, net, todo))
      ensures now == stamp && history != []
      ensures snap.Some? ==> old(UsesSpec(snap.value.spec))
    {
      now := stamp;
      snap := None;
      if cached.obj.canceled || Expired(cached.obj.status, check) || !Started(cached.obj.status, check) {
        return;
      }
      if !Scheduled(cached.obj.status) {
        var specJSON := env.codec.encode(cached.obj.spec);
        if specJSON.None? {
          return;
        }
        var ok := WriteSnapshot(specJSON.value, stamp, net);
        if !ok {
          return;
        }
      }
      snap := ReadSnapshot(cached.obj.status, check, cached.version);
    }

    /** A pass over the cached object would go by this spec. */
    ghost predicate UsesSpec(spec: MaintenanceSpec)
      reads this, cached
    {
      var s := cached.obj.status;
      var json := if Scheduled(s) then Some(s.snapshot) else env.codec.encode(cached.obj.spec);
      json.Some? && env.codec.decode(json.value) == Some(spec)
    }

    /**
     The whole of `scheduleMaintenance`: snapshot, gate, node filter, then the probe and create loop.
     It is a run of `Lifecycle` steps: it begins a pass with exactly the jobs the rule generates, and
     for each of them asks the API for nothing if one of its machine is there, else for the least free
     name.  `answers` says how the create requests end.
     */
    method ScheduleMaintenance(check: Time, stamp: Time, net: Net, x: Inputs, keys: seq<string>, answers: seq<Net>)
      returns (requests: seq<Option<MaintenanceJob>>, ghost todo: seq<Pending>)
      requires history != [] && now <= check <= stamp && phase.Fired? && Fits(env, x)
      requires forall spec :: UsesSpec(spec) ==> WellFormed(x, spec.schedule.depends)
      requires forall n :: n in keys <==> n in x.jobs
      requires x.nodes.Some? ==> |answers| == |x.nodes.value|
      modifies this`history, this`now, this`created, this`serverJobs, this`phase, cached`obj
      ensures |todo| == |requests| <= |answers| && phase.Passed?
      ensures now == stamp && history != []
      ensures var p := old(Apply(env, View(None), Begin(check, stamp, net, todo))).pass;
              if p.Some? then IsTodo(x, p.value.spec, todo) else todo == []
      ensures |jobCache| < MAX_UINT64 - 1 ==>
                && View(None) ==
                   old(Execute(env, View(None), PassSteps(check, stamp, net, todo, answers[..|requests|])))
                && forall j :: 0 <= j < |todo| ==> RequestOk(jobCache, todo[j].job, requests[j])
    {
      ghost var w, v := View(None), View(None);
      phase := Passed;
      requests, todo, v := RunPass(check, stamp, net, x, keys, answers);
      PassIsRun(env, w, Begin(check, stamp, net, todo), v, answers[..|requests|]);
    }

    /** `processMaintenanceSchedule`: a pass, then the Maintenance is queued again or finished. */
    method Process(
      check: Time, stamp: Time, net: Net, x: Inputs, keys: seq<string>, answers: seq<Net>,
      check': Time, stamp': Time, net': Net)
      returns (requests: seq<Option<MaintenanceJob>>, ghost todo: seq<Pending>)
      requires history != [] && now <= check <= stamp <= check' <= stamp' && phase.Fired? && Fits(env, x)
      requires forall spec :: UsesSpec(spec) ==> WellFormed(x, spec.schedule.depends)
      requires forall n :: n in keys <==> n in x.jobs
      requires x.nodes.Some? ==> |answers| == |x.nodes.value|
      modifies this`history, this`now, this`created, this`serverJobs, this`phase, this`queued, this`fault, cached`obj
      ensures |todo| == |requests| <= |answers| && phase.Idle?
      ensures |jobCache| < MAX_UINT64 - 1 ==>
                View(None) == old(Execute(env, View(None), PassSteps(check, stamp, net, todo, answers[..|requests|])
                                                             + [Enqueue(check', stamp', net', Poll)]))
    {
      ghost var w := View(None);
      requests, todo := ScheduleMaintenance(check, stamp, net, x, keys, answers);
      ghost var steps := PassSteps(check, stamp, net, todo, answers[..|requests|]);
      ExecuteSnoc(env, w, steps, Enqueue(check', stamp', net', Poll));
      phase := Idle;
      EnqueueForScheduling(check', stamp', net', None);
    }

    /** The pass, in terms of the world `v` it begins in. */
    method RunPass(check: Time, stamp: Time, net: Net, x: Inputs, keys: seq<string>, answers: seq<Net>)
      returns (requests: seq<Option<MaintenanceJob>>, ghost todo: seq<Pending>, ghost v: World)
      requires history != [] && now <= check <= stamp && Fits(env, x)
      requires forall spec :: UsesSpec(spec) ==> WellFormed(x, spec.schedule.depends)
      requires forall n :: n in keys <==> n in x.jobs
      requires x.nodes.Some? ==> |answers| == |x.nodes.value|
      modifies this`history, this`now, this`created, this`serverJobs, cached`obj
      ensures |todo| == |requests| <= |answers|
      ensures v == old(BeginStep(env, View(None), check, stamp, net, todo)) && now == stamp && history != []
      ensures if v.pass.Some? then IsTodo(x, v.pass.value.spec, todo) else todo == []
      ensures |jobCache| < MAX_UINT64 - 1 ==>
                && View(None) == (if v.pass.Some? then CreateAll(v, answers[..|requests|]) else v).(pass := None)
                && forall j :: 0 <= j < |todo| ==> RequestOk(jobCache, todo[j].job, requests[j])
    {
      ghost var w := View(None);
      requests, todo := [], [];
      var snap := TakeSnapshot(check, stamp, net);
      ghost var u := View(None);
      if snap.Some? {
        requests, todo := ScheduleSnapshot(snap.value, x, keys, answers, u);
      }
      v := u.(pass := PassOf(env, snap, todo));
    }

    /** The part after the snapshot: gate, node filter, job creation. */
    method ScheduleSnapshot(snap: Snapshot, x: Inputs, keys: seq<string>, answers: seq<Net>, ghost u: World)
      returns (requests: seq<Option<MaintenanceJob>>, ghost todo: seq<Pending>)
      requires u == View(None) && Fits(env, x)
      requires WellFormed(x, snap.spec.schedule.depends)
      requires forall n :: n in keys <==> n in x.jobs
      requires x.nodes.Some? ==> |answers| == |x.nodes.value|
      modifies this`created, this`serverJobs
      ensures |todo| == |requests| <= |answers|
      ensures IsTodo(x, snap.spec, todo) && PassOf(env, Some(snap), todo).Some?
      ensures |jobCache| < MAX_UINT64 - 1 ==>
                && View(Some(PassOf(env, Some(snap), todo).value.(todo := [])))
                   == CreateAll(u.(pass := PassOf(env, Some(snap), todo)), answers[..|requests|])
                && forall j :: 0 <= j < |todo| ==> RequestOk(jobCache, todo[j].job, requests[j])
    {
      requests, todo := [], [];
      var outcome := ComputeJobs(x, snap.spec, keys);
      if outcome.Generated? {
        ghost var nodes := AllowedNodes(x, snap.spec, x.nodes.value);
        AllowedCount(x, snap.spec, x.nodes.value);
        todo := Pair(nodes, outcome.jobs);
        assert IsTodo(x, snap.spec, todo);
        forall j | 0 <= j < |todo| ensures todo[j].job == outcome.jobs[j] {
          PairAt(nodes, outcome.jobs, j);
        }
        requests := CreateJobs(outcome.jobs, answers, PassOf(env, Some(snap), todo).value);
      } else {
        assert IsTodo(x, snap.spec, todo);
      }
    }

    /** The probe and create loop. */
    method CreateJobs(
      jobs: seq<MaintenanceJob>, answers: seq<Net>, ghost p: Pass)
      returns (requests: seq<Option<MaintenanceJob>>)
      requires |p.todo| == |jobs| <= |answers| && forall j :: 0 <= j < |jobs| ==> p.todo[j].job == jobs[j]
      modifies this`created, this`serverJobs
      ensures |requests| == |jobs|
      ensures |jobCache| < MAX_UINT64 - 1 ==>
                && View(Some(p.(todo := []))) == CreateAll(old(View(Some(p))), answers[..|jobs|])
                && RequestsOk(jobCache, jobs, requests)
    {
      requests := [];
      ghost var v, bounded := View(Some(p)), |jobCache| < MAX_UINT64 - 1;
      assert p.todo[0..] == p.todo;
      for i := 0 to |jobs|
        invariant |requests| == i
        invariant bounded ==> View(Some(p.(todo := p.todo[i..]))) == CreateAll(v, answers[..i])
        invariant bounded ==> RequestsOk(jobCache, jobs, requests)
      {
        assert p.todo[i..][1..] == p.todo[i + 1..];
        var request := CreateJob(jobs[i], answers[i], p.(todo := p.todo[i..]));
        CreateAllStep(v, answers, i);
        if bounded {
          RequestsStep(jobCache, jobs, requests, request);
        }
        requests := requests + [request];
      }
    }

    /** One generated job: choose a name, ask for it. */
    method CreateJob(job: MaintenanceJob, answer: Net, ghost p: Pass) returns (request: Option<MaintenanceJob>)
      requires p.todo != [] && p.todo[0].job == job
      modifies this`created, this`serverJobs
      ensures |jobCache| < MAX_UINT64 - 1 ==>
                && View(Some(p.(todo := p.todo[1..]))) == old(CreateStep(View(Some(p)), answer))
                && RequestOk(jobCache, job, request)
    {
      request := None;
      var probe, _ := ProbeName(jobCache, job.name, job.spec.machineID);
      if probe.UseName? {
        var name := Candidate(job.name, probe.index);
        if |jobCache| < MAX_UINT64 - 1 {
          FreeNameIs(jobCache, job.name, probe.index);
        }
        request := Some(job.(name := name));
        if answer != Refused && name !in serverJobs {
          serverJobs := serverJobs[name := job.spec];
          created := created + [Creation(p.now, p.snapshot, p.todo[0].node, job.spec)];
        }
      }
    }
  }

  /** A pass that creates jobs and returns is a run. */
  lemma PassIsRun(env: Env, w: World, begin: Step, v: World, answers: seq<Net>)
    requires w.history != [] && v == Apply(env, w, begin)
    requires answers != [] ==> v.pass.Some?
    ensures Execute(env, w, [begin] + Creates(answers) + [End]) ==
              (if v.pass.Some? then CreateAll(v, answers) else v).(pass := None)
  {
    CreatesAreRun(env, w, begin, v, answers);
    ExecuteSnoc(env, w, [begin] + Creates(answers), End);
  }

  lemma {:induction false} CreatesAreRun(env: Env, w: World, begin: Step, v: World, answers: seq<Net>)
    requires w.history != [] && v == Apply(env, w, begin)
    requires answers != [] ==> v.pass.Some?
    ensures Execute(env, w, [begin] + Creates(answers)) == if v.pass.Some? then CreateAll(v, answers) else v
  {
    if answers == [] {
      assert [begin] + Creates([]) == [] + [begin];
      ExecuteSnoc(env, w, [], begin);
    } else {
      var before, last := answers[..|answers| - 1], answers[|answers| - 1];
      CreatesAreRun(env, w, begin, v, before);
      CreatesMore(env, w, [begin] + Creates(before), CreateAll(v, before), last);
      assert [begin] + Creates(answers) == ([begin] + Creates(before)) + [Create(last)];
    }
  }

  lemma CreatesMore(env: Env, w: World, steps: seq<Step>, u: World, net: Net)
    requires w.history != [] && u == Execute(env, w, steps) && u.pass.Some?
    ensures Execute(env, w, steps + [Create(net)]) == CreateStep(u, net)
  {
    ExecuteSnoc(env, w, steps, Create(net));
  }

  lemma {:induction false} AllowedCount(x: Inputs, spec: MaintenanceSpec, nodes: seq<NodeInfo>)
    ensures |AllowedNodes(x, spec, nodes)| <= |nodes|
  {
    if nodes != [] {
      AllowedCount(x, spec, nodes[..|nodes| - 1]);
    }
  }
}
