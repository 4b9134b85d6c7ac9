/**
 The life of one Maintenance object: created, admitted with a time window, scheduled with a snapshot of
 its spec, finished; and the MaintenanceJobs created for it on the way.

 The API server accepts a status write only at the current version.  Scheduling and finishing edit the
 cached object in place before their write is accepted, so a refused write leaves the cache dirty; the
 scheduling loop is a single goroutine, everything else interleaves with it.
 */
module Lifecycle {
  import opened Types
  import opened JobNames
  import opened DependencyGate

  datatype Status = Status(
    admittedAt: Option<Time>, since: Option<Time>, until: Option<Time>,
    scheduledAt: Option<Time>, snapshot: string, hash: string,
    finishedAt: Option<Time>)

  datatype Object = Object(spec: MaintenanceSpec, status: Status, canceled: bool)

  datatype Copy = Copy(version: nat, obj: Object)

  /** JSON and SHA-256, uninterpreted. */
  datatype Codec = Codec(
    encode: MaintenanceSpec -> Option<string>, decode: string -> Option<MaintenanceSpec>, sha: string -> string)

  /** What stays the same during a run. */
  datatype Env = Env(
    mt: MaintenanceRef, creation: Time, namespace: string,
    defaultDelay: int, defaultDuration: int, defaultTimeout: int,
    codec: Codec, foreign: Foreign,
    validEnv: NodeSpecificEnv -> bool, validEnvFrom: NodeSpecificEnvFrom -> bool)

  /** A generated job and the node it is for. */
  datatype Pending = Pending(node: NodeInfo, job: MaintenanceJob)

  /**
   A scheduling pass after it has generated its jobs: its clock reading, the cached version it began
   with, its snapshot, and the jobs it has not come to yet.
   */
  datatype Pass = Pass(now: Time, version: nat, snapshot: string, spec: MaintenanceSpec, todo: seq<Pending>)

  /** A created job: the clock reading of its pass, the snapshot used, the node. */
  datatype Creation = Creation(passTime: Time, snapshot: string, node: NodeInfo, spec: JobSpec)

  /** `jobs` are the MaintenanceJobs on the server, `jobCache` those the informer has shown. */
  datatype World = World(
    history: seq<Object>, cache: Copy, pass: Option<Pass>, created: seq<Creation>,
    jobs: map<string, JobSpec>, jobCache: map<string, JobSpec>,
    queued: bool, phase: Phase, now: Time, fault: bool)

  /** The polling goroutine: waiting for the queue, about to run a scheduling pass, about to queue again. */
  datatype Phase = Idle | Fired | Passed

  /** The object the update handler was given: the cached one, or an earlier version. */
  datatype Handed = FromCache | Version(version: nat)

  /**
   Who calls `enqueueMaintenanceForScheduling`: the update handler, after its own checks, or the polling
   goroutine.
   */
  datatype Caller = Handler(handed: Handed, seen: Time) | Poll

  datatype Step =
    | Tick(now: Time)
    | Sync(version: nat)
    | EditSpec(spec: MaintenanceSpec)                      // a user edit
    | Cancel                                               // the object is marked for deletion
    | Admit(fromCache: bool, stamp: Time, net: Net)        // onMaintenanceAdded
    | Enqueue(check: Time, stamp: Time, net: Net, caller: Caller)  // enqueueMaintenanceForScheduling
    | Fire                                                 // the timeout queue hands the name out
    | Begin(check: Time, stamp: Time, net: Net, todo: seq<Pending>)  // scheduleMaintenance up to the generated jobs
    | Create(net: Net)                                     // ...probes for a name and asks for its next job
    | End                                                  // ...returns
    | Learn(names: set<string>)                            // the informer learns of some jobs
    | OtherJob(name: string, job: JobSpec)                 // somebody else creates a job

  // ---------------------------------------------------------------------- time window

  predicate Admitted(s: Status) { IsSet(s.admittedAt) }
  predicate Scheduled(s: Status) { IsSet(s.scheduledAt) }
  predicate Finished(s: Status) { IsSet(s.finishedAt) }
  predicate Started(s: Status, now: Time) { s.since.Some? && s.since.value <= now }
  predicate Expired(s: Status, now: Time) { s.until.Some? && s.until.value < now }

  predicate CanBeScheduledIn(spec: MaintenanceSpec, namespace: string) {
    spec.targetNamespaces == [] || namespace in spec.targetNamespaces
  }

  function WindowSince(env: Env, spec: MaintenanceSpec): Time {
    (if IsSet(spec.schedule.since) then spec.schedule.since.value else env.creation) +
    (if spec.schedule.delay < 1 then env.defaultDelay else spec.schedule.delay)
  }

  function WindowUntil(env: Env, spec: MaintenanceSpec): Time {
    if IsSet(spec.schedule.until) then spec.schedule.until.value
    else WindowSince(env, spec) + (if spec.schedule.duration < 1 then env.defaultDuration else spec.schedule.duration)
  }

  /** The status `onMaintenanceAdded` writes, if it writes one. */
  function AdmitStatus(env: Env, obj: Object, stamp: Time): Option<Status> {
    var since, until := WindowSince(env, obj.spec), WindowUntil(env, obj.spec);
    if Admitted(obj.status) || !CanBeScheduledIn(obj.spec, env.namespace) || !(since < until) then None
    else Some(obj.status.(since := Some(since), until := Some(until), admittedAt := Some(stamp)))
  }

  // ---------------------------------------------------------------------- steps

  function Last(w: World): Object
    requires w.history != []
  {
    w.history[|w.history| - 1]
  }

  /** A status write at version `v`: it replaces the status only, and needs the current version. */
  function WriteStatus(w: World, v: nat, s: Status, net: Net): World
  {
    if net.Refused? || v != |w.history| - 1 then w else w.(history := w.history + [Last(w).(status := s)])
  }

  predicate Accepted(w: World, v: nat, net: Net) {
    net.Acked? && v == |w.history| - 1
  }

  function AdmitStep(env: Env, w: World, fromCache: bool, stamp: Time, net: Net): World
  {
    if w.history == [] then w
    else
      var c := if fromCache then w.cache else Copy(|w.history| - 1, Last(w));
      match AdmitStatus(env, c.obj, stamp)
      case Some(s) => WriteStatus(w.(now := stamp), c.version, s, net)
      case None => w
  }

  /** The edit of the cached object that finishes it, and the write of its status. */
  function FinishWrite(w: World, stamp: Time, net: Net): World
  {
    var s := w.cache.obj.status.(finishedAt := Some(stamp));
    WriteStatus(w.(cache := w.cache.(obj := w.cache.obj.(status := s))), w.cache.version, s, net)
  }

  /**
   Finishing an expired Maintenance, or queueing it again.  When the finish write fails, the object
   variable has been replaced by the failed call's empty result, whose missing start time is then
   dereferenced.
   */
  function EnqueueStep(w: World, check: Time, stamp: Time, net: Net): World
  {
    var o, w0 := w.cache.obj, w.(now := stamp);
    if o.canceled || Finished(o.status) then w0
    else if Expired(o.status, check) then
      FinishWrite(w0, stamp, net).(fault := w.fault || !Accepted(w, w.cache.version, net))
    else if w.queued then w0
    else if o.status.since.None? then w0.(fault := true)
    else w0.(queued := true)
  }

  /** The checks of the update handler that do not concern the clock or the status. */
  predicate SpecValid(env: Env, spec: MaintenanceSpec) {
    && CanBeScheduledIn(spec, env.namespace) && spec.nodeSelector != map[] && spec.stages != []
    && (forall e :: e in spec.env ==> env.validEnv(e))
    && (forall e :: e in spec.envFrom ==> env.validEnvFrom(e))
  }

  /** The update handler goes on to queue the object it was given. */
  predicate Accepts(env: Env, o: Object, seen: Time) {
    && !Finished(o.status) && Admitted(o.status) && !Expired(o.status, seen)
    && (Scheduled(o.status) ==> env.codec.sha(o.status.snapshot) == o.status.hash)
    && SpecValid(env, o.spec)
  }

  predicate CallPossible(env: Env, w: World, check: Time, caller: Caller) {
    match caller
    case Poll => w.phase.Passed? && w.pass.None?
    case Handler(FromCache, seen) => w.now <= seen <= check && Accepts(env, w.cache.obj, seen)
    case Handler(Version(v), seen) =>
      w.now <= seen <= check && v <= w.cache.version && v < |w.history| && Accepts(env, w.history[v], seen)
  }

  function SnapshotStatus(env: Env, o: Object, json: string, stamp: Time): Status {
    o.status.(scheduledAt := Some(stamp), snapshot := json, hash := env.codec.sha(json))
  }

  /** The edit of the cached object that takes the snapshot, and the write of its status. */
  function SnapshotWrite(env: Env, w: World, json: string, stamp: Time, net: Net): World
  {
    var s := SnapshotStatus(env, w.cache.obj, json, stamp);
    WriteStatus(w.(cache := w.cache.(obj := w.cache.obj.(status := s))), w.cache.version, s, net)
  }

  function Pair(nodes: seq<NodeInfo>, jobs: seq<MaintenanceJob>): (r: seq<Pending>)
    requires |nodes| == |jobs|
    ensures |r| == |nodes|
  {
    if nodes == [] then []
    else Pair(nodes[..|nodes| - 1], jobs[..|jobs| - 1]) + [Pending(nodes[|nodes| - 1], jobs[|jobs| - 1])]
  }

  lemma {:induction false} PairAt(nodes: seq<NodeInfo>, jobs: seq<MaintenanceJob>, i: nat)
    requires i < |nodes| == |jobs|
    ensures Pair(nodes, jobs)[i] == Pending(nodes[i], jobs[i])
  {
    if i < |nodes| - 1 {
      PairAt(nodes[..|nodes| - 1], jobs[..|jobs| - 1], i);
    }
  }

  /** The jobs the rule generates from a spec and what the pass reads `x`, in order. */
  ghost predicate IsTodo(x: Inputs, spec: MaintenanceSpec, todo: seq<Pending>) {
    var outcome := Decision(x, spec);
    if !outcome.Generated? then todo == []
    else
      var nodes := AllowedNodes(x, spec, x.nodes.value);
      |nodes| == |outcome.jobs| && todo == Pair(nodes, outcome.jobs)
  }

  /** What a pass of this Maintenance reads; its labels may be edited, its name and identity not. */
  ghost predicate Fits(env: Env, x: Inputs) {
    && x.foreign == env.foreign && x.defaultTimeout == env.defaultTimeout && x.namespace == env.namespace
    && x.mt.name == env.mt.name && x.mt.uid == env.mt.uid
  }

  /** What a pass can have to create: the outcome of the rule for something it reads. */
  ghost predicate Generable(env: Env, spec: MaintenanceSpec, todo: seq<Pending>) {
    exists x: Inputs :: Fits(env, x) && IsTodo(x, spec, todo)
  }

  /** The pass that goes on with status `s`, if its snapshot is valid, to create `todo`, if these are generated jobs. */
  ghost function ValidPass(env: Env, check: Time, version: nat, s: Status, todo: seq<Pending>): Option<Pass> {
    if s.snapshot == "" || s.hash == "" || env.codec.sha(s.snapshot) != s.hash then None
    else match env.codec.decode(s.snapshot)
      case Some(spec) => if Generable(env, spec, todo) then Some(Pass(check, version, s.snapshot, spec, todo)) else None
      case None => None
  }

  /** The pass that takes the snapshot. */
  ghost function FirstBegin(
    env: Env, w: World, json: string, check: Time, stamp: Time, net: Net, todo: seq<Pending>): World
  {
    var s := SnapshotStatus(env, w.cache.obj, json, stamp);
    SnapshotWrite(env, w, json, stamp, net)
      .(pass := if Accepted(w, w.cache.version, net) then ValidPass(env, check, w.cache.version, s, todo) else None)
  }

  ghost function BeginStep(env: Env, w: World, check: Time, stamp: Time, net: Net, todo: seq<Pending>): World
  {
    var o, w0 := w.cache.obj, w.(now := stamp);
    if o.canceled || Expired(o.status, check) || !Started(o.status, check) then w0
    else if Scheduled(o.status) then w0.(pass := ValidPass(env, check, w.cache.version, o.status, todo))
    else match env.codec.encode(o.spec)
      case None => w0
      case Some(json) => FirstBegin(env, w0, json, check, stamp, net, todo)
  }

  /** The pass goes on to the job after the next. */
  function NextJob(w: World): World
    requires w.pass.Some? && w.pass.value.todo != []
  {
    w.(pass := Some(w.pass.value.(todo := w.pass.value.todo[1..])))
  }

  /** The next job of the pass is on the server under this name. */
  function WithJob(w: World, name: string): World
    requires w.pass.Some? && w.pass.value.todo != []
  {
    var p := w.pass.value;
    var next := p.todo[0];
    NextJob(w).(jobs := w.jobs[name := next.job.spec],
                created := w.created + [Creation(p.now, p.snapshot, next.node, next.job.spec)])
  }

  /** The next job is passed over if one of its machine is there, else asked for under the least free name. */
  ghost function CreateStep(w: World, net: Net): (r: World)
    requires w.pass.Some?
    ensures r.pass.Some? && r.history == w.history
  {
    if w.pass.value.todo == [] then w
    else
      var job := w.pass.value.todo[0].job;
      var name := FreeName(w.jobCache, job.name);
      if InLeadingRun(w.jobCache, job.name, job.spec.machineID) || net.Refused? || name in w.jobs then NextJob(w)
      else WithJob(w, name)
  }

  ghost function Apply(env: Env, w: World, step: Step): World
  {
    match step
    case Tick(t) => if w.now <= t then w.(now := t) else w
    case Sync(v) => if w.cache.version <= v < |w.history| then w.(cache := Copy(v, w.history[v])) else w
    case EditSpec(spec) => if w.history == [] then w else w.(history := w.history + [Last(w).(spec := spec)])
    case Cancel => if w.history == [] then w else w.(history := w.history + [Last(w).(canceled := true)])
    case Admit(fromCache, stamp, net) => if w.now <= stamp then AdmitStep(env, w, fromCache, stamp, net) else w
    case Enqueue(check, stamp, net, caller) =>
      if !(w.now <= check <= stamp && CallPossible(env, w, check, caller)) then w
      else EnqueueStep(if caller.Poll? then w.(phase := Idle) else w, check, stamp, net)
    case Fire => if w.queued && w.phase.Idle? then w.(queued := false, phase := Fired) else w
    case Begin(check, stamp, net, todo) =>
      if !(w.now <= check <= stamp && w.phase.Fired? && w.pass.None?) then w
      else BeginStep(env, w.(phase := Passed), check, stamp, net, todo)
    case Create(net) => if w.pass.Some? then CreateStep(w, net) else w
    case End => w.(pass := None)
    case Learn(names) => w.(jobCache := w.jobCache + map n | n in names && n in w.jobs :: w.jobs[n])
    case OtherJob(n, spec) => if n in w.jobs then w else w.(jobs := w.jobs[n := spec])
  }

  ghost function Execute(env: Env, w: World, steps: seq<Step>): World
  {
    if steps == [] then w
    else Apply(env, Execute(env, w, steps[..|steps| - 1]), steps[|steps| - 1])
  }

  lemma ExecuteSnoc(env: Env, w: World, steps: seq<Step>, step: Step)
    ensures Execute(env, w, steps + [step]) == Apply(env, Execute(env, w, steps), step)
  {
    assert (steps + [step])[..|steps|] == steps;
  }

  /** Versions are only appended, with the spec and deletion mark of the last one. */
  predicate KeepsObject(h: seq<Object>, h': seq<Object>) {
    h <= h' && forall v :: |h| <= v < |h'| ==>
      h != [] && h'[v].spec == h[|h| - 1].spec && h'[v].canceled == h[|h| - 1].canceled
  }

  /** What a handler leaves alone: old versions of the object, the spec, the cached version and window, and all jobs. */
  predicate HandlerFrame(w: World, w': World) {
    && KeepsObject(w.history, w'.history) && w'.created == w.created && w'.jobs == w.jobs && w'.jobCache == w.jobCache
    && w'.cache.version == w.cache.version && SameWindow(w.cache.obj.status, w'.cache.obj.status)
  }

  predicate SamePolling(w: World, w': World) {
    w'.queued == w.queued && w'.phase == w.phase && w'.fault == w.fault
  }

  lemma WriteFrame(w: World, v: nat, s: Status, net: Net)
    ensures var w' := WriteStatus(w, v, s, net); KeepsObject(w.history, w'.history) && w' == w.(history := w'.history)
  {
  }

  lemma AdmitFrame(env: Env, w: World, fromCache: bool, stamp: Time, net: Net)
    ensures var w' := AdmitStep(env, w, fromCache, stamp, net);
            HandlerFrame(w, w') && SamePolling(w, w') && w'.pass == w.pass && (w'.now == w.now || w'.now == stamp)
  {
    if w.history != [] {
      var c := if fromCache then w.cache else Copy(|w.history| - 1, Last(w));
      var s := AdmitStatus(env, c.obj, stamp);
      if s.Some? {
        WriteFrame(w.(now := stamp), c.version, s.value, net);
      }
    }
  }

  lemma FinishFrame(w: World, stamp: Time, net: Net)
    ensures var w' := FinishWrite(w, stamp, net);
            HandlerFrame(w, w') && SamePolling(w, w') && w'.pass == w.pass && w'.now == w.now
  {
    var s := w.cache.obj.status.(finishedAt := Some(stamp));
    WriteFrame(w.(cache := w.cache.(obj := w.cache.obj.(status := s))), w.cache.version, s, net);
  }

  lemma SnapshotFrame(env: Env, w: World, json: string, stamp: Time, net: Net)
    ensures var w' := SnapshotWrite(env, w, json, stamp, net);
            HandlerFrame(w, w') && SamePolling(w, w') && w'.pass == w.pass && w'.now == w.now
  {
    var s := SnapshotStatus(env, w.cache.obj, json, stamp);
    WriteFrame(w.(cache := w.cache.(obj := w.cache.obj.(status := s))), w.cache.version, s, net);
  }

  lemma EnqueueFrame(w: World, check: Time, stamp: Time, net: Net)
    ensures var w' := EnqueueStep(w, check, stamp, net);
            HandlerFrame(w, w') && w'.pass == w.pass && w'.phase == w.phase && w'.now == stamp
  {
    FinishFrame(w.(now := stamp), stamp, net);
  }

  lemma FirstBeginFrame(env: Env, w: World, json: string, check: Time, stamp: Time, net: Net, todo: seq<Pending>)
    ensures var w' := FirstBegin(env, w, json, check, stamp, net, todo);
            HandlerFrame(w, w') && SamePolling(w, w') && w'.now == w.now
  {
    SnapshotFrame(env, w, json, stamp, net);
  }

  lemma BeginFrame(env: Env, w: World, check: Time, stamp: Time, net: Net, todo: seq<Pending>)
    ensures var w' := BeginStep(env, w, check, stamp, net, todo);
            HandlerFrame(w, w') && SamePolling(w, w') && w'.now == stamp
  {
    var o, w0, w' := w.cache.obj, w.(now := stamp), BeginStep(env, w, check, stamp, net, todo);
    var json := env.codec.encode(o.spec);
    if o.canceled || Expired(o.status, check) || !Started(o.status, check) || (!Scheduled(o.status) && json.None?) {
      assert w' == w0;
    } else if Scheduled(o.status) {
      assert w' == w0.(pass := w'.pass);
    } else {
      FirstBeginFrame(env, w0, json.value, check, stamp, net, todo);
    }
  }

  lemma CreateGrows(w: World, net: Net)
    requires w.pass.Some?
    ensures var w' := CreateStep(w, net);
            && w'.history == w.history && w'.cache == w.cache && w.created <= w'.created
            && SamePolling(w, w') && w'.now == w.now
  {
  }

  lemma StepGrows(env: Env, w: World, step: Step)
    ensures w.history <= Apply(env, w, step).history
    ensures w.created <= Apply(env, w, step).created
  {
    match step
    case Admit(fromCache, stamp, net) => AdmitFrame(env, w, fromCache, stamp, net);
    case Enqueue(check, stamp, net, caller) =>
      EnqueueFrame(if caller.Poll? then w.(phase := Idle) else w, check, stamp, net);
    case Begin(check, stamp, net, todo) => BeginFrame(env, w.(phase := Passed), check, stamp, net, todo);
    case Create(net) =>
      if w.pass.Some? {
        CreateGrows(w, net);
      }
    case _ =>
  }

  function InitWorld(spec: MaintenanceSpec, now: Time): (w: World)
    ensures w.history != []
  {
    var o := Object(spec, Status(None, None, None, None, "", "", None), false);
    World([o], Copy(0, o), None, [], map[], map[], false, Idle, now, false)
  }

  // ---------------------------------------------------------------------- invariant

  /** The window is there exactly when the object is admitted; scheduling needs it and finishing comes after it. */
  predicate StatusOk(env: Env, s: Status, now: Time) {
    && (s.since.Some? <==> s.until.Some?) && (s.since.Some? <==> s.admittedAt.Some?)
    && (s.admittedAt.Some? ==> Admitted(s) && s.admittedAt.value <= now && s.since.value < s.until.value)
    && (s.scheduledAt.Some? ==> Scheduled(s) && s.since.Some? && s.hash == env.codec.sha(s.snapshot))
    && (s.scheduledAt.Some? ==> s.since.value <= s.scheduledAt.value <= now)
    && (s.finishedAt.Some? ==> Finished(s) && s.until.Some? && s.until.value < s.finishedAt.value <= now)
  }

  predicate SameWindow(a: Status, b: Status) {
    a.admittedAt == b.admittedAt && a.since == b.since && a.until == b.until
  }

  predicate SameSnapshot(a: Status, b: Status) {
    a.scheduledAt == b.scheduledAt && a.snapshot == b.snapshot && a.hash == b.hash
  }

  /** What has been decided stays: window, snapshot, finish time. */
  predicate Keeps(a: Status, b: Status) {
    && (Admitted(a) ==> SameWindow(a, b))
    && (Scheduled(a) ==> SameSnapshot(a, b))
    && (Finished(a) ==> a.finishedAt == b.finishedAt)
  }

  /** A copy may carry a snapshot or finish time that its version did not have, and differs in nothing else. */
  predicate CopyOk(env: Env, history: seq<Object>, c: Copy, now: Time) {
    && c.version < |history|
    && c.obj.spec == history[c.version].spec && c.obj.canceled == history[c.version].canceled
    && StatusOk(env, c.obj.status, now)
    && SameWindow(history[c.version].status, c.obj.status)
    && Keeps(history[c.version].status, c.obj.status)
    && (Scheduled(c.obj.status) && !Scheduled(history[c.version].status) ==>
          env.codec.encode(history[c.version].spec) == Some(c.obj.status.snapshot))
  }

  ghost predicate HistoryOk(env: Env, history: seq<Object>, now: Time) {
    && history != [] && !Scheduled(history[0].status)
    && (forall v {:trigger StatusOk(env, history[v].status, now)} ::
          0 <= v < |history| ==> StatusOk(env, history[v].status, now))
    && (forall u, v {:trigger Keeps(history[u].status, history[v].status)} ::
          0 <= u <= v < |history| ==> Keeps(history[u].status, history[v].status))
  }

  /** Version `v` is the first with a snapshot. */
  predicate FirstScheduled(history: seq<Object>, v: nat) {
    0 < v < |history| && Scheduled(history[v].status) && !Scheduled(history[v - 1].status)
  }

  /** The accepted snapshot encodes the spec of the version before, which the cache has reached. */
  ghost predicate OriginOk(env: Env, history: seq<Object>, cacheVersion: nat) {
    forall v: nat {:trigger FirstScheduled(history, v)} :: FirstScheduled(history, v) ==>
      env.codec.encode(history[v - 1].spec) == Some(history[v].status.snapshot) && v - 1 <= cacheVersion
  }

  /** The snapshot a copy or pass at version `u` goes by. */
  predicate SnapshotAt(env: Env, history: seq<Object>, u: nat, snapshot: string)
    requires u < |history|
  {
    if Scheduled(history[u].status) then snapshot == history[u].status.snapshot
    else env.codec.encode(history[u].spec) == Some(snapshot)
  }

  /** A pass has its clock reading in the window and goes by the snapshot of its version. */
  ghost predicate PassOk(env: Env, w: World, p: Pass) {
    && p.version < |w.history| && p.version <= w.cache.version
    && w.history[p.version].status.since.Some? && w.history[p.version].status.until.Some?
    && w.history[p.version].status.since.value <= p.now <= w.history[p.version].status.until.value
    && SnapshotAt(env, w.history, p.version, p.snapshot)
    && env.codec.decode(p.snapshot) == Some(p.spec)
    && (forall v: nat {:trigger FirstScheduled(w.history, v)} :: FirstScheduled(w.history, v) ==> v - 1 <= p.version)
    && (Dirty(w) ==> w.cache.version == p.version)
  }

  /** The cached object carries a snapshot its version did not have. */
  predicate Dirty(w: World) {
    && w.cache.version < |w.history|
    && Scheduled(w.cache.obj.status) && !Scheduled(w.history[w.cache.version].status)
  }

  predicate InWindow(s: Status, c: Creation) {
    s.since.Some? && s.until.Some? && s.since.value <= c.passTime <= s.until.value
  }

  ghost predicate CreationsOk(env: Env, w: World)
    requires w.history != []
  {
    forall i {:trigger w.created[i]} :: 0 <= i < |w.created| ==>
      && InWindow(Last(w).status, w.created[i])
      && CreatedFrom(env, w.created[i])
  }

  /** A created job's spec is the one generated from the decoded snapshot and the node. */
  predicate CreatedFrom(env: Env, c: Creation) {
    match env.codec.decode(c.snapshot)
    case Some(spec) =>
      EnvResolves(env.foreign, spec, c.node) && c.spec == JobSpecFor(env.foreign, spec, c.node, env.defaultTimeout)
    case None => false
  }

  /** The jobs a pass has still to create are made from its snapshot. */
  ghost predicate TodoOk(env: Env, p: Pass) {
    forall i :: 0 <= i < |p.todo| ==>
      && EnvResolves(env.foreign, p.spec, p.todo[i].node)
      && p.todo[i].job.spec == JobSpecFor(env.foreign, p.spec, p.todo[i].node, env.defaultTimeout)
  }

  ghost predicate Inv(env: Env, w: World) {
    && w.now > ZERO_TIME
    && Learns(w.jobCache, w.jobs)
    && (w.pass.Some? ==> TodoOk(env, w.pass.value))
    && HistoryOk(env, w.history, w.now)
    && CopyOk(env, w.history, w.cache, w.now)
    && OriginOk(env, w.history, w.cache.version)
    && (w.pass.Some? ==> PassOk(env, w, w.pass.value))
    && CreationsOk(env, w)
  }

  // ---------------------------------------------------------------------- steps keep it

  /** Appending a version that keeps what the last one decided. */
  lemma AppendOk(env: Env, history: seq<Object>, o: Object, now: Time)
    requires HistoryOk(env, history, now) && StatusOk(env, o.status, now)
    requires Keeps(history[|history| - 1].status, o.status)
    ensures HistoryOk(env, history + [o], now)
  {
    var h := history + [o];
    forall u, v | 0 <= u <= v < |h| ensures Keeps(h[u].status, h[v].status) {
      if u < |history| && v == |history| {
        assert Keeps(history[u].status, history[|history| - 1].status);
      } else if v < |history| {
        assert Keeps(history[u].status, history[v].status);
      }
    }
  }

  lemma FirstScheduledAppend(history: seq<Object>, o: Object, v: nat)
    requires history != []
    ensures FirstScheduled(history + [o], v) <==>
              || FirstScheduled(history, v)
              || (v == |history| && Scheduled(o.status) && !Scheduled(history[v - 1].status))
  {
  }

  /** Appending a version with the last status, or one admitted or finished since, that decides no new snapshot. */
  lemma QuietAppendKeepsInv(env: Env, w: World, o: Object)
    requires Inv(env, w) && StatusOk(env, o.status, w.now)
    requires Keeps(Last(w).status, o.status) && (Scheduled(o.status) ==> Scheduled(Last(w).status))
    ensures Inv(env, w.(history := w.history + [o]))
  {
    AppendOk(env, w.history, o, w.now);
    GrowthKeepsOrigin(env, w.history, o, w.cache.version);
    var w' := w.(history := w.history + [o]);
    if w.pass.Some? {
      GrowthKeepsPass(env, w, o);
    }
    GrowthKeepsCreations(env, w, o);
  }

  lemma GrowthKeepsOrigin(env: Env, history: seq<Object>, o: Object, cv: nat)
    requires history != [] && OriginOk(env, history, cv)
    requires Scheduled(o.status) ==> Scheduled(history[|history| - 1].status)
    ensures OriginOk(env, history + [o], cv)
  {
    forall v: nat | FirstScheduled(history + [o], v)
      ensures env.codec.encode((history + [o])[v - 1].spec) == Some((history + [o])[v].status.snapshot) && v - 1 <= cv
    {
      FirstScheduledAppend(history, o, v);
    }
  }

  lemma GrowthKeepsPass(env: Env, w: World, o: Object)
    requires w.history != [] && w.cache.version < |w.history| && w.pass.Some? && PassOk(env, w, w.pass.value)
    requires Scheduled(o.status) ==> Scheduled(Last(w).status)
    ensures PassOk(env, w.(history := w.history + [o]), w.pass.value)
  {
    var w' := w.(history := w.history + [o]);
    forall v: nat | FirstScheduled(w'.history, v) ensures v - 1 <= w.pass.value.version {
      FirstScheduledAppend(w.history, o, v);
    }
  }

  lemma GrowthKeepsCreations(env: Env, w: World, o: Object)
    requires w.history != [] && CreationsOk(env, w) && StatusOk(env, Last(w).status, w.now)
    requires Keeps(Last(w).status, o.status)
    ensures CreationsOk(env, w.(history := w.history + [o]))
  {
  }

  /** Time passing keeps the invariant. */
  lemma TickKeepsInv(env: Env, w: World, t: Time)
    requires Inv(env, w) && w.now <= t
    ensures Inv(env, w.(now := t))
  {
    var w' := w.(now := t);
    forall v | 0 <= v < |w.history| ensures StatusOk(env, w'.history[v].status, t) {
      assert StatusOk(env, w.history[v].status, w.now);
    }
    if w.pass.Some? {
      assert PassOk(env, w', w.pass.value);
    }
  }

  lemma SyncKeepsInv(env: Env, w: World, v: nat)
    requires Inv(env, w) && w.cache.version <= v < |w.history|
    ensures Inv(env, w.(cache := Copy(v, w.history[v])))
  {
    var w' := w.(cache := Copy(v, w.history[v]));
    assert Keeps(w.history[v].status, w.history[v].status);
    assert OriginOk(env, w'.history, v);
    if w.pass.Some? {
      assert PassOk(env, w', w.pass.value);
    }
  }

  lemma AdmitKeepsInv(env: Env, w: World, fromCache: bool, stamp: Time, net: Net)
    requires Inv(env, w) && w.now <= stamp
    ensures Inv(env, AdmitStep(env, w, fromCache, stamp, net))
  {
    var c := if fromCache then w.cache else Copy(|w.history| - 1, Last(w));
    var s := AdmitStatus(env, c.obj, stamp);
    if s.Some? {
      TickKeepsInv(env, w, stamp);
      if !net.Refused? && c.version == |w.history| - 1 {
        assert StatusOk(env, w.history[c.version].status, w.now);
        assert SameWindow(w.history[c.version].status, c.obj.status);
        assert !Scheduled(c.obj.status) && !Finished(c.obj.status);
        QuietAppendKeepsInv(env, w.(now := stamp), Last(w).(status := s.value));
      }
    }
  }

  /** The snapshot status that `Begin` writes, or a later finish writes for it, is good at the cached version. */
  lemma SnapshotCopyOk(env: Env, w: World, json: string, stamp: Time)
    requires Inv(env, w) && w.now <= stamp && Started(w.cache.obj.status, stamp)
    requires !Scheduled(w.cache.obj.status) && env.codec.encode(w.cache.obj.spec) == Some(json)
    ensures var s := SnapshotStatus(env, w.cache.obj, json, stamp);
            CopyOk(env, w.history, w.cache.(obj := w.cache.obj.(status := s)), stamp)
  {
  }

  lemma FinishCopyOk(env: Env, w: World, check: Time, stamp: Time)
    requires Inv(env, w) && w.now <= check <= stamp
    requires !Finished(w.cache.obj.status) && Expired(w.cache.obj.status, check)
    ensures var s := w.cache.obj.status.(finishedAt := Some(stamp));
            CopyOk(env, w.history, w.cache.(obj := w.cache.obj.(status := s)), stamp)
  {
  }

  /**
   Editing the cached object in place keeps the invariant while no pass is under way, or if the snapshot
   is untouched.
   */
  lemma EditCacheKeepsInv(env: Env, w: World, s: Status)
    requires Inv(env, w)
    requires CopyOk(env, w.history, w.cache.(obj := w.cache.obj.(status := s)), w.now)
    requires w.pass.None? || SameSnapshot(w.cache.obj.status, s)
    ensures Inv(env, w.(cache := w.cache.(obj := w.cache.obj.(status := s))))
  {
    var w' := w.(cache := w.cache.(obj := w.cache.obj.(status := s)));
    if w.pass.Some? {
      assert PassOk(env, w', w.pass.value);
    }
  }

  /**
   Writing the cached object's own status at the current version keeps the invariant, also when it
   decides the snapshot.
   */
  lemma WriteCacheKeepsInv(env: Env, w: World, net: Net)
    requires Inv(env, w)
    ensures Inv(env, WriteStatus(w, w.cache.version, w.cache.obj.status, net))
  {
    if !net.Refused? && w.cache.version == |w.history| - 1 {
      var o := Last(w).(status := w.cache.obj.status);
      AppendOk(env, w.history, o, w.now);
      WriteKeepsOrigin(env, w, o);
      if w.pass.Some? {
        WriteKeepsPass(env, w, o);
      }
      GrowthKeepsCreations(env, w, o);
    }
  }

  lemma WriteKeepsOrigin(env: Env, w: World, o: Object)
    requires Inv(env, w) && w.cache.version == |w.history| - 1 && o == Last(w).(status := w.cache.obj.status)
    ensures OriginOk(env, w.history + [o], w.cache.version)
  {
    var h := w.history + [o];
    forall v: nat | FirstScheduled(h, v)
      ensures env.codec.encode(h[v - 1].spec) == Some(h[v].status.snapshot) && v - 1 <= w.cache.version
    {
      FirstScheduledAppend(w.history, o, v);
    }
  }

  lemma WriteKeepsPass(env: Env, w: World, o: Object)
    requires w.history != [] && w.pass.Some? && PassOk(env, w, w.pass.value)
    requires w.cache.version == |w.history| - 1 && o == Last(w).(status := w.cache.obj.status)
    ensures PassOk(env, w.(history := w.history + [o]), w.pass.value)
  {
    var w' := w.(history := w.history + [o]);
    forall v: nat | FirstScheduled(w'.history, v) ensures v - 1 <= w.pass.value.version {
      FirstScheduledAppend(w.history, o, v);
    }
  }

  lemma FinishKeepsInv(env: Env, w: World, check: Time, stamp: Time, net: Net)
    requires Inv(env, w) && w.now <= check <= stamp
    requires !Finished(w.cache.obj.status) && Expired(w.cache.obj.status, check)
    ensures Inv(env, FinishWrite(w.(now := stamp), stamp, net))
  {
    TickKeepsInv(env, w, stamp);
    var o, w0 := w.cache.obj, w.(now := stamp);
    var s := o.status.(finishedAt := Some(stamp));
    FinishCopyOk(env, w, check, stamp);
    EditCacheKeepsInv(env, w0, s);
    WriteCacheKeepsInv(env, w0.(cache := w.cache.(obj := o.(status := s))), net);
  }

  lemma EnqueueKeepsInv(env: Env, w: World, check: Time, stamp: Time, net: Net)
    requires Inv(env, w) && w.now <= check <= stamp
    ensures Inv(env, EnqueueStep(w, check, stamp, net))
  {
    var o, w0 := w.cache.obj, w.(now := stamp);
    if o.canceled || Finished(o.status) {
      TickKeepsInv(env, w, stamp);
    } else if Expired(o.status, check) {
      FinishKeepsInv(env, w, check, stamp, net);
      var w1 := FinishWrite(w0, stamp, net);
      FlagsKeepInv(env, w1, w1.queued, w.fault || !Accepted(w, w.cache.version, net));
    } else {
      TickKeepsInv(env, w, stamp);
      FlagsKeepInv(env, w0, true, w.fault);
      FlagsKeepInv(env, w0, w.queued, true);
    }
  }

  lemma PhaseKeepsInv(env: Env, w: World, queued: bool, phase: Phase)
    requires Inv(env, w)
    ensures Inv(env, w.(queued := queued, phase := phase))
  {
    var w' := w.(queued := queued, phase := phase);
    if w.pass.Some? {
      assert PassOk(env, w', w.pass.value);
    }
  }

  lemma FlagsKeepInv(env: Env, w: World, queued: bool, fault: bool)
    requires Inv(env, w)
    ensures Inv(env, w.(queued := queued, fault := fault))
  {
    var w' := w.(queued := queued, fault := fault);
    if w.pass.Some? {
      assert PassOk(env, w', w.pass.value);
    }
  }

  lemma TodoFits(env: Env, p: Pass)
    requires Generable(env, p.spec, p.todo)
    ensures TodoOk(env, p)
  {
    var x: Inputs :| Fits(env, x) && IsTodo(x, p.spec, p.todo);
    if p.todo != [] {
      var nodes := AllowedNodes(x, p.spec, x.nodes.value);
      forall i | 0 <= i < |p.todo|
        ensures EnvResolves(env.foreign, p.spec, p.todo[i].node)
        ensures p.todo[i].job.spec == JobSpecFor(env.foreign, p.spec, p.todo[i].node, env.defaultTimeout)
      {
        PairAt(nodes, Decision(x, p.spec).jobs, i);
        JobsForAt(x, p.spec, nodes, i);
      }
    }
  }

  /** A pass that starts now, on the cached object, satisfies the pass invariant. */
  lemma NewPassOk(env: Env, w: World, check: Time, todo: seq<Pending>)
    requires Inv(env, w) && w.pass.None?
    requires Started(w.cache.obj.status, check) && !Expired(w.cache.obj.status, check) && Scheduled(w.cache.obj.status)
    ensures var p := ValidPass(env, check, w.cache.version, w.cache.obj.status, todo);
            Inv(env, w.(pass := p))
  {
    var p := ValidPass(env, check, w.cache.version, w.cache.obj.status, todo);
    if p.Some? {
      TodoFits(env, p.value);
      assert PassOk(env, w.(pass := p), p.value);
    }
  }

  lemma SnapshotKeepsInv(env: Env, w: World, json: string, check: Time, stamp: Time, net: Net, todo: seq<Pending>)
    requires Inv(env, w) && w.now <= check <= stamp && w.pass.None?
    requires Started(w.cache.obj.status, check) && !Expired(w.cache.obj.status, check)
    requires !Scheduled(w.cache.obj.status) && env.codec.encode(w.cache.obj.spec) == Some(json)
    ensures var s := SnapshotStatus(env, w.cache.obj, json, stamp);
            var w1 := SnapshotWrite(env, w.(now := stamp), json, stamp, net);
            Inv(env, w1) && Inv(env, w1.(pass := ValidPass(env, check, w.cache.version, s, todo)))
  {
    TickKeepsInv(env, w, stamp);
    var w0, s := w.(now := stamp), SnapshotStatus(env, w.cache.obj, json, stamp);
    SnapshotCopyOk(env, w, json, stamp);
    EditCacheKeepsInv(env, w0, s);
    var w1 := w0.(cache := w.cache.(obj := w.cache.obj.(status := s)));
    WriteCacheKeepsInv(env, w1, net);
    NewPassOk(env, WriteStatus(w1, w.cache.version, s, net), check, todo);
  }

  lemma BeginScheduledKeepsInv(env: Env, w: World, check: Time, stamp: Time, todo: seq<Pending>)
    requires Inv(env, w) && w.now <= check <= stamp && w.pass.None?
    requires Started(w.cache.obj.status, check) && !Expired(w.cache.obj.status, check) && Scheduled(w.cache.obj.status)
    ensures Inv(env, w.(now := stamp, pass := ValidPass(env, check, w.cache.version, w.cache.obj.status, todo)))
  {
    TickKeepsInv(env, w, stamp);
    NewPassOk(env, w.(now := stamp), check, todo);
  }

  lemma FirstBeginKeepsInv(env: Env, w: World, json: string, check: Time, stamp: Time, net: Net, todo: seq<Pending>)
    requires Inv(env, w) && w.now <= check <= stamp && w.pass.None?
    requires Started(w.cache.obj.status, check) && !Expired(w.cache.obj.status, check)
    requires !Scheduled(w.cache.obj.status) && env.codec.encode(w.cache.obj.spec) == Some(json)
    ensures Inv(env, FirstBegin(env, w.(now := stamp), json, check, stamp, net, todo))
  {
    SnapshotKeepsInv(env, w, json, check, stamp, net, todo);
    SnapshotFrame(env, w.(now := stamp), json, stamp, net);
  }

  /** The three ways a pass begins: not at all, with the snapshot there is, or taking it. */
  lemma BeginIs(env: Env, w: World, check: Time, stamp: Time, net: Net, todo: seq<Pending>, w': World)
    requires w' == BeginStep(env, w, check, stamp, net, todo)
    ensures var o, w0 := w.cache.obj, w.(now := stamp);
            || w' == w0
            || (!o.canceled && Started(o.status, check) && !Expired(o.status, check) &&
                if Scheduled(o.status) then w' == w0.(pass := ValidPass(env, check, w.cache.version, o.status, todo))
                else var json := env.codec.encode(o.spec);
                     json.Some? && w' == FirstBegin(env, w0, json.value, check, stamp, net, todo))
  {
  }

  lemma BeginKeepsInv(env: Env, w: World, check: Time, stamp: Time, net: Net, todo: seq<Pending>, w': World)
    requires Inv(env, w) && w.now <= check <= stamp && w.pass.None? && w' == BeginStep(env, w, check, stamp, net, todo)
    ensures Inv(env, w')
  {
    BeginIs(env, w, check, stamp, net, todo, w');
    if w' == w.(now := stamp) {
      TickKeepsInv(env, w, stamp);
    } else if Scheduled(w.cache.obj.status) {
      BeginScheduledKeepsInv(env, w, check, stamp, todo);
    } else {
      FirstBeginKeepsInv(env, w, env.codec.encode(w.cache.obj.spec).value, check, stamp, net, todo);
    }
  }

  lemma PassInWindow(env: Env, w: World, p: Pass)
    requires HistoryOk(env, w.history, w.now) && PassOk(env, w, p)
    ensures var s := Last(w).status; s.since.Some? && s.until.Some? && s.since.value <= p.now <= s.until.value
  {
    assert Keeps(w.history[p.version].status, w.history[|w.history| - 1].status);
    assert StatusOk(env, w.history[p.version].status, w.now);
  }

  /** The pass goes on to its next job. */
  lemma NextKeepsInv(env: Env, w: World)
    requires Inv(env, w) && w.pass.Some? && w.pass.value.todo != []
    ensures Inv(env, NextJob(w))
  {
    var p := w.pass.value;
    assert PassOk(env, w.(pass := Some(p.(todo := p.todo[1..]))), p.(todo := p.todo[1..]));
    assert TodoOk(env, p.(todo := p.todo[1..]));
  }

  lemma RecordKeepsInv(env: Env, w: World, c: Creation)
    requires Inv(env, w) && InWindow(Last(w).status, c) && CreatedFrom(env, c)
    ensures Inv(env, w.(created := w.created + [c]))
  {
    var w' := w.(created := w.created + [c]);
    if w.pass.Some? {
      assert PassOk(env, w', w.pass.value);
    }
  }

  lemma WithJobKeepsInv(env: Env, w: World, name: string)
    requires Inv(env, w) && w.pass.Some? && w.pass.value.todo != [] && name !in w.jobs
    ensures Inv(env, WithJob(w, name))
  {
    var p := w.pass.value;
    var next, w' := p.todo[0], NextJob(w);
    NextKeepsInv(env, w);
    PassInWindow(env, w, p);
    assert EnvResolves(env.foreign, p.spec, next.node);
    var c := Creation(p.now, p.snapshot, next.node, next.job.spec);
    RecordKeepsInv(env, w', c);
    JobsKeepInv(env, w'.(created := w.created + [c]), w.jobs[name := next.job.spec], w.jobCache);
  }

  lemma CreateKeepsInv(env: Env, w: World, net: Net)
    requires Inv(env, w) && w.pass.Some?
    ensures Inv(env, CreateStep(w, net))
  {
    if w.pass.value.todo != [] {
      NextKeepsInv(env, w);
      var name := FreeName(w.jobCache, w.pass.value.todo[0].job.name);
      if name !in w.jobs {
        WithJobKeepsInv(env, w, name);
      }
    }
  }

  lemma JobsKeepInv(env: Env, w: World, jobs: map<string, JobSpec>, jobCache: map<string, JobSpec>)
    requires Inv(env, w) && Learns(jobCache, jobs)
    ensures Inv(env, w.(jobs := jobs, jobCache := jobCache))
  {
    var w' := w.(jobs := jobs, jobCache := jobCache);
    if w.pass.Some? {
      assert PassOk(env, w', w.pass.value);
    }
  }

  lemma EndKeepsInv(env: Env, w: World)
    requires Inv(env, w)
    ensures Inv(env, w.(pass := None))
  {
  }

  lemma JobStepKeepsInv(env: Env, w: World, step: Step)
    requires Inv(env, w) && (step.Create? || step.End? || step.Learn? || step.OtherJob?)
    ensures Inv(env, Apply(env, w, step))
  {
    match step
    case Create(net) =>
      if w.pass.Some? {
        CreateKeepsInv(env, w, net);
      }
    case End => EndKeepsInv(env, w);
    case Learn(names) => JobsKeepInv(env, w, w.jobs, Apply(env, w, step).jobCache);
    case OtherJob(n, spec) =>
      if n !in w.jobs {
        JobsKeepInv(env, w, w.jobs[n := spec], w.jobCache);
      }
  }

  lemma HandlerStepKeepsInv(env: Env, w: World, step: Step)
    requires Inv(env, w) && (step.Admit? || step.Enqueue? || step.Fire? || step.Begin?)
    ensures Inv(env, Apply(env, w, step))
  {
    match step
    case Admit(fromCache, stamp, net) =>
      if w.now <= stamp {
        AdmitKeepsInv(env, w, fromCache, stamp, net);
      }
    case Enqueue(check, stamp, net, caller) =>
      if w.now <= check <= stamp {
        PhaseKeepsInv(env, w, w.queued, Idle);
        EnqueueKeepsInv(env, if caller.Poll? then w.(phase := Idle) else w, check, stamp, net);
      }
    case Fire => PhaseKeepsInv(env, w, false, Fired);
    case Begin(check, stamp, net, todo) =>
      PhaseKeepsInv(env, w, w.queued, Passed);
      if w.now <= check <= stamp && w.pass.None? {
        var w0 := w.(phase := Passed);
        BeginKeepsInv(env, w0, check, stamp, net, todo, BeginStep(env, w0, check, stamp, net, todo));
      }
  }

  lemma StepKeepsInv(env: Env, w: World, step: Step)
    requires Inv(env, w)
    ensures Inv(env, Apply(env, w, step))
  {
    match step
    case Tick(t) =>
      if w.now <= t {
        TickKeepsInv(env, w, t);
      }
    case Sync(v) =>
      if w.cache.version <= v < |w.history| {
        SyncKeepsInv(env, w, v);
      }
    case EditSpec(spec) => QuietAppendKeepsInv(env, w, Last(w).(spec := spec));
    case Cancel => QuietAppendKeepsInv(env, w, Last(w).(canceled := true));
    case _ =>
      if step.Admit? || step.Enqueue? || step.Fire? || step.Begin? {
        HandlerStepKeepsInv(env, w, step);
      } else {
        JobStepKeepsInv(env, w, step);
      }
  }

  lemma {:induction false} RunKeepsInv(env: Env, w: World, steps: seq<Step>)
    requires Inv(env, w)
    ensures Inv(env, Execute(env, w, steps))
  {
    if steps != [] {
      RunKeepsInv(env, w, steps[..|steps| - 1]);
      StepKeepsInv(env, Execute(env, w, steps[..|steps| - 1]), steps[|steps| - 1]);
    }
  }

  lemma InitInv(env: Env, spec: MaintenanceSpec, now: Time)
    requires now > ZERO_TIME
    ensures Inv(env, InitWorld(spec, now))
  {
  }

  // ---------------------------------------------------------------------- results over all runs

  lemma {:induction false} RunGrows(env: Env, w: World, steps: seq<Step>)
    ensures w.history <= Execute(env, w, steps).history
    ensures w.created <= Execute(env, w, steps).created
  {
    if steps != [] {
      RunGrows(env, w, steps[..|steps| - 1]);
      StepGrows(env, Execute(env, w, steps[..|steps| - 1]), steps[|steps| - 1]);
    }
  }

  /**
   In every run: once the server shows an admission, its window is non-empty and never changes; a
   recorded finish time lies after the window; a recorded snapshot matches its hash and never changes.
   */
  lemma DecisionsAreFinal(env: Env, spec: MaintenanceSpec, now: Time, steps: seq<Step>, u: nat, v: nat)
    requires now > ZERO_TIME
    requires u <= v < |Execute(env, InitWorld(spec, now), steps).history|
    ensures var h := Execute(env, InitWorld(spec, now), steps).history;
            var a, b, latest := h[u].status, h[v].status, Execute(env, InitWorld(spec, now), steps).now;
            && (Admitted(a) ==> b.admittedAt == a.admittedAt && b.since == a.since && b.until == a.until)
            && (Admitted(a) ==> a.since.Some? && a.until.Some? && a.since.value < a.until.value)
            && (Admitted(a) ==> a.admittedAt.value <= latest)
            && (Scheduled(a) ==> b.scheduledAt == a.scheduledAt && b.snapshot == a.snapshot && b.hash == a.hash)
            && (Scheduled(a) ==>
                  a.hash == env.codec.sha(a.snapshot) && a.since.Some? &&
                  a.since.value <= a.scheduledAt.value <= latest)
            && (Finished(a) ==>
                  b.finishedAt == a.finishedAt && a.until.Some? && a.until.value < a.finishedAt.value <= latest)
  {
    InitInv(env, spec, now);
    RunKeepsInv(env, InitWorld(spec, now), steps);
    var h := Execute(env, InitWorld(spec, now), steps).history;
    assert Keeps(h[u].status, h[v].status);
    assert StatusOk(env, h[u].status, Execute(env, InitWorld(spec, now), steps).now);
  }

  /** The pass that created job `i` read the clock within the window, and before any finish time. */
  predicate CreatedWithin(w: World, i: nat) {
    && w.history != [] && i < |w.created|
    && var s := Last(w).status;
       && s.since.Some? && s.until.Some? && s.since.value <= w.created[i].passTime <= s.until.value
       && (Finished(s) ==> w.created[i].passTime < s.finishedAt.value)
  }

  /** In every run each job was created by a pass whose clock reading lies in the admitted window. */
  lemma JobsCreatedInWindow(env: Env, spec: MaintenanceSpec, now: Time, steps: seq<Step>, i: nat)
    requires now > ZERO_TIME
    requires i < |Execute(env, InitWorld(spec, now), steps).created|
    ensures CreatedWithin(Execute(env, InitWorld(spec, now), steps), i)
  {
    InitInv(env, spec, now);
    RunKeepsInv(env, InitWorld(spec, now), steps);
    CreatedInWindow(env, Execute(env, InitWorld(spec, now), steps), i);
  }

  lemma CreatedInWindow(env: Env, w: World, i: nat)
    requires Inv(env, w) && i < |w.created|
    ensures CreatedWithin(w, i)
  {
    assert InWindow(Last(w).status, w.created[i]);
    assert StatusOk(env, w.history[|w.history| - 1].status, w.now);
  }

  /** For a finished Maintenance every cached copy is expired or not yet admitted, so no pass starts. */
  lemma FinishedNeverBegins(env: Env, w: World, check: Time)
    requires HistoryOk(env, w.history, w.now) && CopyOk(env, w.history, w.cache, w.now)
    requires Finished(Last(w).status) && w.now <= check
    ensures Expired(w.cache.obj.status, check) || !Started(w.cache.obj.status, check)
  {
    assert Keeps(w.history[w.cache.version].status, w.history[|w.history| - 1].status);
    assert StatusOk(env, w.history[|w.history| - 1].status, w.now);
  }

  /** A finished Maintenance stays finished. */
  lemma FinishedStepStays(env: Env, w: World, step: Step, w': World)
    requires Inv(env, w) && Finished(Last(w).status) && w' == Apply(env, w, step)
    ensures w'.history != [] && Finished(Last(w').status)
  {
    StepKeepsInv(env, w, step);
    StepGrows(env, w, step);
    FinishedLater(env, w, w');
  }

  lemma FinishedLater(env: Env, w: World, w': World)
    requires w.history != [] && Finished(Last(w).status) && HistoryOk(env, w'.history, w'.now)
    requires w.history <= w'.history
    ensures Finished(Last(w').status)
  {
    LaterKeeps(env, w.history, w'.history, w'.now);
  }

  /** The jobs in `created` beyond the first `n` are those of pass `p`. */
  predicate CreatedBy(created: seq<Creation>, n: nat, p: Option<Pass>) {
    match p
    case None => |created| <= n
    case Some(q) => forall i :: n <= i < |created| ==> created[i].passTime == q.now && created[i].snapshot == q.snapshot
  }

  /** The same pass, further on. */
  predicate SamePass(p: Pass, q: Pass) {
    && q == p.(todo := q.todo) && |q.todo| <= |p.todo|
    && forall i :: 0 <= i < |q.todo| ==> q.todo[i] == p.todo[|p.todo| - |q.todo| + i]
  }

  /** Only two steps concern the jobs on the server, and only three the pass. */
  lemma StepFrame(env: Env, w: World, step: Step, w': World)
    requires w' == Apply(env, w, step)
    ensures !step.Create? ==> w'.created == w.created
    ensures !step.Create? && !step.OtherJob? ==> w'.jobs == w.jobs
    ensures !step.Create? && !step.Begin? && !step.End? ==> w'.pass == w.pass
    ensures step.End? || (step.Create? && w.pass.None?) ==>
              w'.pass.None? && w'.created == w.created && w'.jobs == w.jobs
  {
    match step
    case Admit(fromCache, stamp, net) => AdmitFrame(env, w, fromCache, stamp, net);
    case Enqueue(check, stamp, net, caller) =>
      EnqueueFrame(if caller.Poll? then w.(phase := Idle) else w, check, stamp, net);
    case Begin(check, stamp, net, todo) => BeginFrame(env, w.(phase := Passed), check, stamp, net, todo);
    case _ =>
  }

  lemma BeginNever(env: Env, w: World, step: Step)
    requires Inv(env, w) && Finished(Last(w).status) && step.Begin?
    ensures Apply(env, w, step).pass == w.pass
  {
    if w.now <= step.check {
      FinishedNeverBegins(env, w, step.check);
    }
  }

  lemma NextJobFrame(w: World, name: string)
    requires w.pass.Some? && w.pass.value.todo != []
    ensures SamePass(w.pass.value, NextJob(w).pass.value) && SamePass(w.pass.value, WithJob(w, name).pass.value)
    ensures NextJob(w).created == w.created && NextJob(w).jobs == w.jobs
    ensures name !in w.jobs ==> Learns(w.jobs, WithJob(w, name).jobs)
  {
  }

  lemma WithJobCreates(w: World, name: string)
    requires w.pass.Some? && w.pass.value.todo != []
    ensures var w' := WithJob(w, name); w.created <= w'.created && CreatedBy(w'.created, |w.created|, w.pass)
  {
  }

  /** The three outcomes of a create step. */
  lemma CreateOutcome(w: World, net: Net) returns (name: string)
    requires w.pass.Some? && w.pass.value.todo != []
    ensures CreateStep(w, net) == NextJob(w) || (name !in w.jobs && CreateStep(w, net) == WithJob(w, name))
  {
    name := FreeName(w.jobCache, w.pass.value.todo[0].job.name);
  }

  ghost predicate FrameOk(w: World, w': World) {
    && w.pass.Some? && w'.pass.Some? && SamePass(w.pass.value, w'.pass.value)
    && w.created <= w'.created && CreatedBy(w'.created, |w.created|, w.pass)
    && Learns(w.jobs, w'.jobs)
  }

  lemma OutcomeFrame(w: World, name: string)
    requires w.pass.Some? && w.pass.value.todo != []
    ensures FrameOk(w, NextJob(w)) && (name !in w.jobs ==> FrameOk(w, WithJob(w, name)))
  {
    NextJobFrame(w, name);
    WithJobCreates(w, name);
  }

  lemma CreateFrame(w: World, net: Net, w': World)
    requires w.pass.Some? && w' == CreateStep(w, net)
    ensures FrameOk(w, w')
  {
    if w.pass.value.todo != [] {
      var name := CreateOutcome(w, net);
      OutcomeFrame(w, name);
    }
  }

  /** No pass starts for a finished Maintenance, so only a pass under way creates jobs. */
  lemma FinishedStepCreates(env: Env, w: World, step: Step, w': World)
    requires Inv(env, w) && Finished(Last(w).status) && w' == Apply(env, w, step)
    ensures w'.pass.Some? ==> w.pass.Some? && SamePass(w.pass.value, w'.pass.value)
    ensures w.created <= w'.created && CreatedBy(w'.created, |w.created|, w.pass)
    ensures Learns(w.jobs, w'.jobs)
  {
    StepFrame(env, w, step, w');
    if step.Begin? {
      BeginNever(env, w, step);
    } else if step.Create? && w.pass.Some? {
      CreateFrame(w, step.net, w');
    }
  }

  lemma CreatedByLater(created: seq<Creation>, n: nat, m: nat, p: Option<Pass>, q: Option<Pass>)
    requires n <= m <= |created| && CreatedBy(created[..m], n, p) && CreatedBy(created, m, q)
    requires q.Some? ==> p.Some? && SamePass(p.value, q.value)
    ensures CreatedBy(created, n, p)
  {
    assert forall i :: 0 <= i < m ==> created[..m][i] == created[i];
  }

  /** Once the server shows a Maintenance finished, all further jobs come from the pass under way at that moment. */
  lemma {:induction false} OnlyRunningPassCreates(env: Env, w: World, steps: seq<Step>)
    requires Inv(env, w) && Finished(Last(w).status)
    ensures FinishedLaterOn(w, Execute(env, w, steps))
  {
    if steps != [] {
      var before, step := steps[..|steps| - 1], steps[|steps| - 1];
      OnlyRunningPassCreates(env, w, before);
      RunKeepsInv(env, w, before);
      FinishedStepLater(env, w, Execute(env, w, before), step, Execute(env, w, steps));
    }
  }

  /** A later state of a finished Maintenance: still finished, with the same pass if any, and with its jobs only. */
  predicate FinishedLaterOn(w: World, w': World) {
    && (w'.pass.Some? ==> w.pass.Some? && SamePass(w.pass.value, w'.pass.value))
    && w'.history != [] && Finished(Last(w').status)
    && w.created <= w'.created && CreatedBy(w'.created, |w.created|, w.pass)
  }

  lemma FinishedStepLater(env: Env, w: World, v: World, step: Step, v': World)
    requires Inv(env, v) && FinishedLaterOn(w, v) && v' == Apply(env, v, step)
    ensures FinishedLaterOn(w, v')
  {
    FinishedStepStays(env, v, step, v');
    FinishedStepCreates(env, v, step, v');
    LaterOnStays(w, v, v');
  }

  lemma LaterOnStays(w: World, v: World, v': World)
    requires FinishedLaterOn(w, v) && v'.history != [] && Finished(Last(v').status)
    requires v'.pass.Some? ==> v.pass.Some? && SamePass(v.pass.value, v'.pass.value)
    requires v.created <= v'.created && CreatedBy(v'.created, |v.created|, v.pass)
    ensures FinishedLaterOn(w, v')
  {
    assert v'.created[..|v.created|] == v.created;
    CreatedByLater(v'.created, |w.created|, |v.created|, w.pass, v.pass);
  }

  /**
   Although a scheduling pass never tests whether the Maintenance is finished: once the server shows it
   finished and no pass is under way, no continuation of the run creates another job.
   */
  lemma NoJobAfterFinish(env: Env, w: World, steps: seq<Step>)
    requires Inv(env, w) && Finished(Last(w).status) && w.pass.None?
    ensures Execute(env, w, steps).created == w.created
  {
    OnlyRunningPassCreates(env, w, steps);
  }

  /** The server has a job of the machine of this pending one in the leading run of its names. */
  ghost predicate IsThere(jobs: map<string, JobSpec>, pending: Pending) {
    InLeadingRun(jobs, pending.job.name, pending.job.spec.machineID)
  }

  /** No pending job of the pass would be created. */
  ghost predicate NothingToCreate(w: World) {
    w.pass.Some? ==> forall i :: 0 <= i < |w.pass.value.todo| ==> IsThere(w.jobs, w.pass.value.todo[i])
  }

  /** A pending job that is already there is not created. */
  lemma CreatesNothing(w: World, net: Net)
    requires w.pass.Some? && Learns(w.jobCache, w.jobs)
    requires (w.pass.value.todo != [] ==> IsThere(w.jobs, w.pass.value.todo[0]))
    ensures CreateStep(w, net).created == w.created
  {
    if w.pass.value.todo != [] {
      var job := w.pass.value.todo[0].job;
      if !InLeadingRun(w.jobCache, job.name, job.spec.machineID) {
        LaggingProbe(w.jobCache, w.jobs, job.name, job.spec.machineID);
      }
    }
  }

  lemma NothingStep(env: Env, w: World, step: Step, w': World)
    requires Inv(env, w) && Finished(Last(w).status) && NothingToCreate(w) && w' == Apply(env, w, step)
    ensures w'.created == w.created && NothingToCreate(w')
  {
    StepFrame(env, w, step, w');
    FinishedStepCreates(env, w, step, w');
    if step.Create? && w.pass.Some? {
      CreatesNothing(w, step.net);
    }
    StillNothing(w, w');
  }

  lemma StillNothing(w: World, w': World)
    requires NothingToCreate(w) && Learns(w.jobs, w'.jobs)
    requires w'.pass.Some? ==> w.pass.Some? && SamePass(w.pass.value, w'.pass.value)
    ensures NothingToCreate(w')
  {
    if w'.pass.Some? {
      var p, q := w.pass.value, w'.pass.value;
      forall i | 0 <= i < |q.todo| ensures IsThere(w'.jobs, q.todo[i]) {
        assert q.todo[i] == p.todo[|p.todo| - |q.todo| + i];
        LeadingRunStays(w.jobs, w'.jobs, q.todo[i].job.name, q.todo[i].job.spec.machineID);
      }
    }
  }

  lemma {:induction false} NothingCreated(env: Env, w: World, steps: seq<Step>)
    requires Inv(env, w) && Finished(Last(w).status) && NothingToCreate(w)
    ensures var w' := Execute(env, w, steps); w'.created == w.created && NothingToCreate(w')
  {
    if steps != [] {
      var before := steps[..|steps| - 1];
      NothingCreated(env, w, before);
      RunKeepsInv(env, w, before);
      OnlyRunningPassCreates(env, w, before);
      NothingStep(env, Execute(env, w, before), steps[|steps| - 1], Execute(env, w, steps));
    }
  }

  /** A run in which nobody edits the spec. */
  predicate NoEdits(steps: seq<Step>) {
    forall i :: 0 <= i < |steps| ==> !steps[i].EditSpec?
  }

  /** Some run without edits leads from `w` to `w'`. */
  ghost predicate Reaches(env: Env, w: World, w': World) {
    exists steps :: NoEdits(steps) && Execute(env, w, steps) == w'
  }

  lemma ReachesSelf(env: Env, w: World)
    ensures Reaches(env, w, w)
  {
    assert NoEdits([]) && Execute(env, w, []) == w;
  }

  lemma {:induction false} ReachesSteps(env: Env, w: World, v: World, steps: seq<Step>)
    requires Reaches(env, w, v) && NoEdits(steps)
    ensures Reaches(env, w, Execute(env, v, steps))
  {
    if steps != [] {
      var n := |steps| - 1;
      ReachesSteps(env, w, v, steps[..n]);
      ReachesStep(env, w, Execute(env, v, steps[..n]), steps[n], Execute(env, v, steps));
    }
  }

  lemma ReachesOn(env: Env, w: World, v: World, u: World)
    requires Reaches(env, w, v) && Reaches(env, v, u)
    ensures Reaches(env, w, u)
  {
    var steps :| NoEdits(steps) && Execute(env, v, steps) == u;
    ReachesSteps(env, w, v, steps);
  }

  lemma ReachesStep(env: Env, w: World, v: World, step: Step, v': World)
    requires Reaches(env, w, v) && v' == Apply(env, v, step) && !step.EditSpec?
    ensures Reaches(env, w, v')
  {
    var steps :| NoEdits(steps) && Execute(env, w, steps) == v;
    assert (steps + [step])[..|steps|] == steps;
    assert NoEdits(steps + [step]) && Execute(env, w, steps + [step]) == v';
  }

  /** The pass has come to its `k`-th pending job, and the job cache shows all jobs. */
  function CaughtUp(w: World, k: nat): World
    requires w.pass.Some? && k <= |w.pass.value.todo|
  {
    w.(jobCache := w.jobs, pass := Some(w.pass.value.(todo := w.pass.value.todo[k..])))
  }

  /** Jobs that are already there are passed over. */
  lemma {:induction false} ComesTo(env: Env, w: World, k: nat)
    requires w.pass.Some? && k <= |w.pass.value.todo| && Learns(w.jobCache, w.jobs)
    requires forall i :: 0 <= i < k ==> IsThere(w.jobs, w.pass.value.todo[i])
    ensures Reaches(env, w, CaughtUp(w, k))
  {
    if k == 0 {
      ReachesSelf(env, w);
      assert w.jobCache + (map n | n in w.jobs.Keys && n in w.jobs :: w.jobs[n]) == w.jobs;
      assert w.pass.value.todo[0..] == w.pass.value.todo;
      ReachesStep(env, w, w, Learn(w.jobs.Keys), CaughtUp(w, 0));
    } else {
      ComesTo(env, w, k - 1);
      var todo := w.pass.value.todo;
      assert todo[k - 1..][0] == todo[k - 1] && todo[k - 1..][1..] == todo[k..];
      ReachesStep(env, w, CaughtUp(w, k - 1), Create(Acked), CaughtUp(w, k));
    }
  }

  lemma {:induction false} FirstMissing(jobs: map<string, JobSpec>, todo: seq<Pending>, j: nat) returns (k: nat)
    requires j < |todo| && !IsThere(jobs, todo[j])
    ensures k <= j && !IsThere(jobs, todo[k]) && forall i :: 0 <= i < k ==> IsThere(jobs, todo[i])
  {
    if i :| 0 <= i < j && !IsThere(jobs, todo[i]) {
      k := FirstMissing(jobs, todo, i);
    } else {
      k := j;
    }
  }

  /**
   A pass with a pending job whose machine has none yet has a continuation that creates one and changes
   nothing else.
   */
  lemma CreatesOne(env: Env, w: World, j: nat) returns (w': World)
    requires w.pass.Some? && Learns(w.jobCache, w.jobs)
    requires j < |w.pass.value.todo| && !IsThere(w.jobs, w.pass.value.todo[j])
    ensures Reaches(env, w, w') && |w'.created| == |w.created| + 1 && w'.history == w.history
  {
    var k := FirstMissing(w.jobs, w.pass.value.todo, j);
    ComesTo(env, w, k);
    var v := CaughtUp(w, k);
    assert v.pass.value.todo[0] == w.pass.value.todo[k];
    w' := Apply(env, v, Create(Acked));
    ReachesStep(env, w, v, Create(Acked), w');
  }

  /**
   Exactly when a finished Maintenance gets no further job: no pass is under way, or every job the pass
   has still to create is there already, in the leading run of its names on the server.
   */
  lemma NoJobAfterFinishIff(env: Env, w: World)
    requires Inv(env, w) && Finished(Last(w).status)
    ensures (forall steps :: Execute(env, w, steps).created == w.created) <==> NothingToCreate(w)
  {
    if NothingToCreate(w) {
      forall steps ensures Execute(env, w, steps).created == w.created {
        NothingCreated(env, w, steps);
      }
    } else {
      var j :| 0 <= j < |w.pass.value.todo| && !IsThere(w.jobs, w.pass.value.todo[j]);
      var w' := CreatesOne(env, w, j);
      var steps :| NoEdits(steps) && Execute(env, w, steps) == w';
      assert Execute(env, w, steps).created != w.created;
    }
  }

  // ---------------------------------------------------------------------- the snapshot decides

  /** The first version with a snapshot. */
  ghost function First(history: seq<Object>): (v: nat)
    requires history != [] && !Scheduled(history[0].status) && Scheduled(history[|history| - 1].status)
    ensures FirstScheduled(history, v)
  {
    if Scheduled(history[|history| - 2].status)
    then
      var v := First(history[..|history| - 1]);
      v
    else |history| - 1
  }

  /** Once the server has a snapshot, the pass under way goes by that snapshot. */
  lemma PassUsesSnapshot(env: Env, w: World)
    requires Inv(env, w) && Scheduled(Last(w).status) && w.pass.Some?
    ensures w.pass.value.snapshot == Last(w).status.snapshot
  {
    var f, p, last := First(w.history), w.pass.value, |w.history| - 1;
    assert FirstScheduled(w.history, f);
    assert Keeps(w.history[f].status, w.history[last].status);
    if f <= p.version {
      assert Keeps(w.history[f].status, w.history[p.version].status);
    }
  }

  lemma LaterKeeps(env: Env, earlier: seq<Object>, history: seq<Object>, now: Time)
    requires HistoryOk(env, history, now) && earlier != [] && earlier <= history
    ensures Keeps(earlier[|earlier| - 1].status, history[|history| - 1].status)
  {
    assert Keeps(history[|earlier| - 1].status, history[|history| - 1].status);
  }

  /** Once accepted, the snapshot is the one of every later world. */
  lemma SnapshotStays(env: Env, w: World, v: World)
    requires w.history != [] && Scheduled(Last(w).status)
    requires HistoryOk(env, v.history, v.now) && w.history <= v.history
    ensures Scheduled(Last(v).status) && Last(v).status.snapshot == Last(w).status.snapshot
  {
    LaterKeeps(env, w.history, v.history, v.now);
  }

  lemma StepUsesSnapshot(env: Env, w: World, step: Step, w': World, i: nat)
    requires Inv(env, w) && Scheduled(Last(w).status) && w' == Apply(env, w, step)
    requires |w.created| <= i < |w'.created|
    ensures w'.created[i].snapshot == Last(w).status.snapshot
  {
    StepFrame(env, w, step, w');
    CreateFrame(w, step.net, w');
    PassUsesSnapshot(env, w);
  }

  /** Every job created after the scheduling write was accepted is made from the accepted snapshot. */
  lemma {:induction false} LaterJobsUseSnapshot(env: Env, w: World, steps: seq<Step>, i: nat)
    requires Inv(env, w) && Scheduled(Last(w).status)
    requires |w.created| <= i < |Execute(env, w, steps).created|
    ensures Execute(env, w, steps).created[i].snapshot == Last(w).status.snapshot
  {
    if steps != [] {
      var before := steps[..|steps| - 1];
      var v := Execute(env, w, before);
      RunKeepsInv(env, w, before);
      RunGrows(env, w, before);
      SnapshotStays(env, w, v);
      StepGrows(env, v, steps[|steps| - 1]);
      if i < |v.created| {
        LaterJobsUseSnapshot(env, w, before, i);
      } else {
        StepUsesSnapshot(env, v, steps[|steps| - 1], Execute(env, w, steps), i);
      }
    }
  }

  /**
   The spec of every later job depends only on the accepted snapshot and the node: two continuations
   that differ in whatever way, such as in later edits of the spec, create equal job specs for a node.
   */
  lemma SnapshotDecidesJobs(env: Env, w: World, steps: seq<Step>, steps': seq<Step>, i: nat, j: nat)
    requires Inv(env, w) && Scheduled(Last(w).status)
    requires |w.created| <= i < |Execute(env, w, steps).created|
    requires |w.created| <= j < |Execute(env, w, steps').created|
    requires Execute(env, w, steps).created[i].node == Execute(env, w, steps').created[j].node
    ensures Execute(env, w, steps).created[i].spec == Execute(env, w, steps').created[j].spec
  {
    LaterJobsUseSnapshot(env, w, steps, i);
    LaterJobsUseSnapshot(env, w, steps', j);
    RunKeepsInv(env, w, steps);
    RunKeepsInv(env, w, steps');
    assert CreatedFrom(env, Execute(env, w, steps).created[i]);
    assert CreatedFrom(env, Execute(env, w, steps').created[j]);
  }

  // ---------------------------------------------------------------------- the window

  /** The window of version `v` was computed from the spec of an earlier version that had none. */
  ghost predicate WindowFrom(env: Env, history: seq<Object>, u: nat, v: nat) {
    && u < v < |history| && !Admitted(history[u].status) && CanBeScheduledIn(history[u].spec, env.namespace)
    && history[v].status.since == Some(WindowSince(env, history[u].spec))
    && history[v].status.until == Some(WindowUntil(env, history[u].spec))
  }

  ghost predicate WindowsOk(env: Env, history: seq<Object>) {
    forall v {:trigger Admitted(history[v].status)} ::
      0 <= v < |history| && Admitted(history[v].status) ==> exists u: nat :: WindowFrom(env, history, u, v)
  }

  lemma WindowsAppend(env: Env, history: seq<Object>, o: Object)
    requires history != [] && WindowsOk(env, history)
    requires Admitted(o.status) ==>
               var last := history[|history| - 1];
               || (Admitted(last.status) && SameWindow(last.status, o.status))
               || WindowFrom(env, history + [o], |history| - 1, |history|)
    ensures WindowsOk(env, history + [o])
  {
    var h := history + [o];
    forall v | 0 <= v < |h| && Admitted(h[v].status) ensures exists u: nat :: WindowFrom(env, h, u, v) {
      var v0 := if v < |history| then v else |history| - 1;
      if v < |history| || (Admitted(history[v0].status) && SameWindow(history[v0].status, o.status)) {
        assert Admitted(history[v0].status);
        var u: nat :| WindowFrom(env, history, u, v0);
        assert WindowFrom(env, h, u, v);
      }
    }
  }

  /** A step leaves the versions alone, or appends one with the same window or with the window of an admission. */
  ghost predicate Appends(env: Env, history: seq<Object>, h: seq<Object>)
    requires history != []
  {
    var n := |history|;
    || h == history
    || (|h| == n + 1 && h == history + [h[n]]
        && (|| SameWindow(history[n - 1].status, h[n].status)
            || (!Admitted(history[n - 1].status) && WindowFrom(env, h, n - 1, n))))
  }

  /** An up-to-date cached object has the spec and the window of the current version. */
  predicate CacheHasWindow(w: World) {
    && w.history != []
    && (w.cache.version == |w.history| - 1 ==>
          SameWindow(Last(w).status, w.cache.obj.status) && w.cache.obj.spec == Last(w).spec)
  }

  lemma AdmitAppends(env: Env, w: World, fromCache: bool, stamp: Time, net: Net)
    requires CacheHasWindow(w)
    ensures Appends(env, w.history, AdmitStep(env, w, fromCache, stamp, net).history)
  {
  }

  lemma FinishAppends(env: Env, w: World, stamp: Time, net: Net)
    requires CacheHasWindow(w)
    ensures Appends(env, w.history, FinishWrite(w, stamp, net).history)
  {
  }

  lemma SnapshotAppends(env: Env, w: World, json: string, stamp: Time, net: Net)
    requires CacheHasWindow(w)
    ensures Appends(env, w.history, SnapshotWrite(env, w, json, stamp, net).history)
  {
  }

  lemma EnqueueAppends(env: Env, w: World, check: Time, stamp: Time, net: Net)
    requires CacheHasWindow(w)
    ensures Appends(env, w.history, EnqueueStep(w, check, stamp, net).history)
  {
    FinishAppends(env, w.(now := stamp), stamp, net);
  }

  lemma BeginAppends(env: Env, w: World, check: Time, stamp: Time, net: Net, todo: seq<Pending>)
    requires CacheHasWindow(w)
    ensures Appends(env, w.history, BeginStep(env, w, check, stamp, net, todo).history)
  {
    if env.codec.encode(w.cache.obj.spec).Some? {
      SnapshotAppends(env, w.(now := stamp), env.codec.encode(w.cache.obj.spec).value, stamp, net);
    }
  }

  lemma StepAppends(env: Env, w: World, step: Step, h: seq<Object>)
    requires CacheHasWindow(w) && h == Apply(env, w, step).history
    ensures Appends(env, w.history, h)
  {
    match step
    case Admit(fromCache, stamp, net) => AdmitAppends(env, w, fromCache, stamp, net);
    case Enqueue(check, stamp, net, caller) =>
      EnqueueAppends(env, if caller.Poll? then w.(phase := Idle) else w, check, stamp, net);
    case Begin(check, stamp, net, todo) => BeginAppends(env, w.(phase := Passed), check, stamp, net, todo);
    case Create(net) =>
      if w.pass.Some? {
        CreateGrows(w, net);
      }
    case _ =>
  }

  lemma StepWindows(env: Env, w: World, step: Step, w': World)
    requires Inv(env, w) && WindowsOk(env, w.history) && w' == Apply(env, w, step)
    ensures WindowsOk(env, w'.history)
  {
    StepAppends(env, w, step, w'.history);
    assert StatusOk(env, w.history[|w.history| - 1].status, w.now);
    AppendsKeepWindows(env, w.history, w'.history);
  }

  lemma AppendsKeepWindows(env: Env, h: seq<Object>, h': seq<Object>)
    requires h != [] && WindowsOk(env, h) && Appends(env, h, h')
    requires h[|h| - 1].status.admittedAt.Some? ==> Admitted(h[|h| - 1].status)
    ensures WindowsOk(env, h')
  {
    if h' != h {
      WindowsAppend(env, h, h'[|h|]);
    }
  }

  lemma {:induction false} RunWindows(env: Env, w: World, steps: seq<Step>)
    requires Inv(env, w) && WindowsOk(env, w.history)
    ensures WindowsOk(env, Execute(env, w, steps).history)
  {
    if steps != [] {
      var before, step := steps[..|steps| - 1], steps[|steps| - 1];
      RunWindows(env, w, before);
      RunKeepsInv(env, w, before);
      StepWindows(env, Execute(env, w, before), step, Execute(env, w, steps));
    }
  }

  /**
   In every run the admitted window, whenever it shows, comes from the spec of an earlier version that was
   not admitted and was meant for this controller: it starts one delay after the schedule's own start, else
   the creation, and ends at the schedule's own end, else one duration after that; a delay or duration
   below 1 stands for the default.  Later edits of the schedule do not move it.
   */
  lemma WindowIsOfAdmittedSpec(env: Env, spec: MaintenanceSpec, now: Time, steps: seq<Step>, v: nat) returns (u: nat)
    requires now > ZERO_TIME && v < |Execute(env, InitWorld(spec, now), steps).history|
    requires Admitted(Execute(env, InitWorld(spec, now), steps).history[v].status)
    ensures var h := Execute(env, InitWorld(spec, now), steps).history;
            && u < v && (h[u].status.admittedAt.None? || h[u].status.admittedAt == Some(ZERO_TIME))
            && (h[u].spec.targetNamespaces == [] || env.namespace in h[u].spec.targetNamespaces)
            && h[v].status.since.Some? && h[v].status.until.Some?
    ensures var h := Execute(env, InitWorld(spec, now), steps).history;
            var given, since, until := h[u].spec.schedule, h[v].status.since.value, h[v].status.until.value;
            var own := given.since.Some? && given.since != Some(ZERO_TIME);
            var start := if own then given.since.value else env.creation;
            && since < until
            && (given.delay >= 1 ==> since - start == given.delay)
            && (given.delay < 1 ==> since - start == env.defaultDelay)
            && (given.until.Some? && given.until != Some(ZERO_TIME) ==> until == given.until.value)
            && (given.until.None? || given.until == Some(ZERO_TIME) ==>
                  until - since == if given.duration >= 1 then given.duration else env.defaultDuration)
  {
    InitInv(env, spec, now);
    RunKeepsInv(env, InitWorld(spec, now), steps);
    RunWindows(env, InitWorld(spec, now), steps);
    var h := Execute(env, InitWorld(spec, now), steps).history;
    u :| WindowFrom(env, h, u, v);
    assert StatusOk(env, h[v].status, Execute(env, InitWorld(spec, now), steps).now);
  }
}
