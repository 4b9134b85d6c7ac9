/**
 What a scheduling pass decides before it creates anything: the dependency gate, the node filter and
 the jobs it generates (`scheduleMaintenance` from the dependencies to the job list).  The nested
 loops, with their early returns, are proved against a rule stated by quantifiers only.
 */
module DependencyGate {
  import opened Types
  import opened JobNames
  import opened JobGeneration
  import JobCreation

  /** What the gate reads of another Maintenance in the cache. */
  datatype MaintenanceView = MaintenanceView(uid: string, finished: bool)

  /** Calls into code that is not modelled: label selectors, toleration matching, env resolution. */
  datatype Foreign = Foreign(
    selects: (map<string, string>, NodeInfo) -> bool,
    tolerated: (NodeInfo, seq<Toleration>) -> bool,
    env: (NodeInfo, NodeSpecificEnv) -> Option<EnvVar>,
    envFrom: (NodeInfo, NodeSpecificEnvFrom) -> Option<EnvFromSource>)

  /** Everything a pass reads: the two caches, the nodes the API lists, and its own identity. */
  datatype Inputs = Inputs(
    maintenances: map<string, MaintenanceView>, jobs: map<string, MaintenanceJob>,
    nodes: Option<seq<NodeInfo>>, foreign: Foreign,
    mt: MaintenanceRef, namespace: string, defaultTimeout: int)

  datatype Outcome =
    | Held                                // a dependency is not met: nothing happens, no error
    | ListFailed                          // the node list could not be read
    | EnvFailed                           // an env entry of some node could not be resolved
    | Generated(jobs: seq<MaintenanceJob>)

  // ---------------------------------------------------------------------- the rule

  /** The job carries the controller reference to that Maintenance, name and identity. */
  predicate Owned(job: MaintenanceJob, mt: string, uid: string) {
    OwnerRef("Maintenance", mt, uid, Some(true), Some(true)) in job.owners
  }

  /** A cached job the dependency looks at: right name prefix, right owner. */
  predicate Related(x: Inputs, d: Dependency, n: string)
    requires d.name in x.maintenances && n in x.jobs
  {
    d.name + "." <= n && Owned(x.jobs[n], d.name, x.maintenances[d.name].uid)
  }

  predicate Known(condition: string) {
    condition in ["", "succeeded", "failed"]
  }

  /** The accessors of a job do not index out of range. */
  predicate HasStages(job: MaintenanceJob) {
    job.spec.stages != [] || job.status.stages != []
  }

  /**
   The job has ended the way the condition asks for; an empty condition asks for success.  There is one
   record for each stage of the spec, and the last one is finished and says so.
   */
  predicate Meets(condition: string, job: MaintenanceJob) {
    var stages, n := job.status.stages, |job.spec.stages|;
    && |stages| == n > 0
    && stages[n - 1].finishedAt.Some? && stages[n - 1].finishedAt.value != ZERO_TIME
    && (if condition == "failed" then stages[n - 1].failed else stages[n - 1].succeeded)
  }

  /** The jobs whose accessors the gate calls for a dependency have stages. */
  ghost predicate JobsHaveStages(x: Inputs, d: Dependency) {
    forall n :: d.name in x.maintenances && n in x.jobs && Related(x, d, n) && Known(d.condition) ==>
      HasStages(x.jobs[n])
  }

  ghost predicate WellFormed(x: Inputs, deps: seq<Dependency>) {
    forall d {:trigger JobsHaveStages(x, d)} :: d in deps ==> JobsHaveStages(x, d)
  }

  ghost predicate JobPermits(x: Inputs, d: Dependency, n: string)
    requires d.name in x.maintenances && n in x.jobs
  {
    Related(x, d, n) ==> Known(d.condition) && (d.individual || Meets(d.condition, x.jobs[n]))
  }

  /** The dependency lets the pass go on. */
  ghost predicate Permits(x: Inputs, d: Dependency)
  {
    && d.name in x.maintenances
    && (d.individual || x.maintenances[d.name].finished)
    && forall n {:trigger JobPermits(x, d, n)} :: n in x.jobs ==> JobPermits(x, d, n)
  }

  ghost predicate GateOpen(x: Inputs, deps: seq<Dependency>)
  {
    forall d {:trigger Permits(x, d)} :: d in deps ==> Permits(x, d)
  }

  /** Some job of the dependency on that node has not met the condition. */
  ghost predicate UnmetOn(x: Inputs, d: Dependency, n: string, node: string)
  {
    && d.name in x.maintenances && n in x.jobs && Related(x, d, n)
    && !Meets(d.condition, x.jobs[n]) && x.jobs[n].spec.nodeName == node
  }

  ghost predicate Blocked(x: Inputs, deps: seq<Dependency>, node: string)
  {
    exists d, n {:trigger UnmetOn(x, d, n, node)} :: d in deps && UnmetOn(x, d, n, node)
  }

  /** The nodes a pass makes a job for. */
  ghost predicate Allowed(x: Inputs, spec: MaintenanceSpec, node: NodeInfo)
  {
    && (spec.nodeSelector == map[] || x.foreign.selects(spec.nodeSelector, node))
    && (spec.nodes == [] || node.name in spec.nodes)
    && !Blocked(x, spec.schedule.depends, node.name)
    && x.foreign.tolerated(node, spec.tolerations)
    && node.machineID != ""
  }

  predicate EnvResolves(f: Foreign, spec: MaintenanceSpec, node: NodeInfo) {
    && (forall i :: 0 <= i < |spec.env| ==> f.env(node, spec.env[i]).Some?)
    && (forall i :: 0 <= i < |spec.envFrom| ==> f.envFrom(node, spec.envFrom[i]).Some?)
  }

  function EnvOf(f: Foreign, spec: MaintenanceSpec, node: NodeInfo): (r: seq<EnvVar>)
    requires EnvResolves(f, spec, node)
    ensures |r| == |spec.env| && forall i :: 0 <= i < |r| ==> r[i] == f.env(node, spec.env[i]).value
  {
    seq(|spec.env|, i requires 0 <= i < |spec.env| => f.env(node, spec.env[i]).value)
  }

  function EnvFromOf(f: Foreign, spec: MaintenanceSpec, node: NodeInfo): (r: seq<EnvFromSource>)
    requires EnvResolves(f, spec, node)
    ensures |r| == |spec.envFrom| && forall i :: 0 <= i < |r| ==> r[i] == f.envFrom(node, spec.envFrom[i]).value
  {
    seq(|spec.envFrom|, i requires 0 <= i < |spec.envFrom| => f.envFrom(node, spec.envFrom[i]).value)
  }

  /** The spec of the job for a node: a function of the snapshot and the node. */
  function JobSpecFor(f: Foreign, spec: MaintenanceSpec, node: NodeInfo, defaultTimeout: int): JobSpec
    requires EnvResolves(f, spec, node)
  {
    GenerateSpec(spec, node.name, node.machineID, EnvOf(f, spec, node), EnvFromOf(f, spec, node), defaultTimeout)
  }

  function JobFor(x: Inputs, spec: MaintenanceSpec, node: NodeInfo): (job: MaintenanceJob)
    requires EnvResolves(x.foreign, spec, node)
    ensures job.spec == JobSpecFor(x.foreign, spec, node, x.defaultTimeout)
    ensures job.name == BaseName(x.mt.name, node.name)
  {
    GenerateMaintenanceJob(spec, node.name, node.machineID, x.mt,
      EnvOf(x.foreign, spec, node), EnvFromOf(x.foreign, spec, node), x.namespace, x.defaultTimeout)
  }

  /** The allowed nodes in list order. */
  ghost function AllowedNodes(x: Inputs, spec: MaintenanceSpec, nodes: seq<NodeInfo>): (r: seq<NodeInfo>)
    ensures forall m :: m in r <==> m in nodes && Allowed(x, spec, m)
  {
    if nodes == [] then []
    else
      var front, last := AllowedNodes(x, spec, nodes[..|nodes| - 1]), nodes[|nodes| - 1];
      assert nodes == nodes[..|nodes| - 1] + [last];
      if Allowed(x, spec, last) then front + [last] else front
  }

  ghost predicate AllResolve(x: Inputs, spec: MaintenanceSpec, nodes: seq<NodeInfo>) {
    forall i :: 0 <= i < |nodes| ==> EnvResolves(x.foreign, spec, nodes[i])
  }

  /** The jobs of these nodes, in order. */
  ghost function JobsFor(x: Inputs, spec: MaintenanceSpec, nodes: seq<NodeInfo>): (r: seq<MaintenanceJob>)
    requires AllResolve(x, spec, nodes)
    ensures |r| == |nodes|
  {
    if nodes == [] then []
    else JobsFor(x, spec, nodes[..|nodes| - 1]) + [JobFor(x, spec, nodes[|nodes| - 1])]
  }

  lemma {:induction false} JobsForAt(x: Inputs, spec: MaintenanceSpec, nodes: seq<NodeInfo>, i: nat)
    requires AllResolve(x, spec, nodes) && i < |nodes|
    ensures JobsFor(x, spec, nodes)[i] == JobFor(x, spec, nodes[i])
  {
    if i < |nodes| - 1 {
      JobsForAt(x, spec, nodes[..|nodes| - 1], i);
    }
  }

  /** What a pass should do, for any cache contents and any order in which things are listed. */
  ghost function Decision(x: Inputs, spec: MaintenanceSpec): Outcome
  {
    if !GateOpen(x, spec.schedule.depends) then Held
    else if x.nodes.None? then ListFailed
    else
      var nodes := AllowedNodes(x, spec, x.nodes.value);
      if AllResolve(x, spec, nodes) then Generated(JobsFor(x, spec, nodes)) else EnvFailed
  }

  // ---------------------------------------------------------------------- the loops

  method IsOwned(job: MaintenanceJob, mt: string, uid: string) returns (match_: bool)
    ensures match_ == Owned(job, mt, uid)
  {
    match_ := false;
    for i := 0 to |job.owners|
      invariant match_ <==> OwnerRef("Maintenance", mt, uid, Some(true), Some(true)) in job.owners[..i]
    {
      var ref := job.owners[i];
      if ref.name != mt {
      } else if ref.kind != "Maintenance" {
      } else if ref.uid != uid {
      } else if ref.blockOwnerDeletion.None? || !ref.blockOwnerDeletion.value {
      } else if ref.controller.None? || !ref.controller.value {
      } else {
        match_ := true;
        break;
      }
      assert job.owners[..i + 1] == job.owners[..i] + [ref];
    }
    assert job.owners[..|job.owners|] == job.owners;
  }

  /** The accessor calls behind a condition. */
  method CheckCondition(condition: string, job: MaintenanceJob) returns (met: bool)
    requires Known(condition) && HasStages(job)
    ensures met <==> Meets(condition, job)
  {
    if condition == "failed" {
      met := JobFinished(job.spec, job.status) && JobFailed(job.spec, job.status);
    } else {
      met := JobFinished(job.spec, job.status) && JobSucceeded(job.spec, job.status);
    }
  }

  /** The cached keys met so far permit the dependency, and `unavailable` has grown by its unmet nodes. */
  ghost predicate Scanned(x: Inputs, d: Dependency, seen: set<string>, before: set<string>, unavailable: set<string>)
    requires d.name in x.maintenances && seen <= x.jobs.Keys
  {
    && (forall n {:trigger JobPermits(x, d, n)} :: n in seen ==> JobPermits(x, d, n))
    && (forall node :: node in unavailable <==> node in before || exists n :: n in seen && UnmetOn(x, d, n, node))
  }

  lemma ScanStep(x: Inputs, d: Dependency, seen: set<string>, before: set<string>, unavailable: set<string>, n: string)
    requires d.name in x.maintenances && seen <= x.jobs.Keys && n in x.jobs
    requires Scanned(x, d, seen, before, unavailable) && JobPermits(x, d, n)
    ensures Scanned(x, d, seen + {n}, before,
              if Related(x, d, n) && !Meets(d.condition, x.jobs[n]) then unavailable + {x.jobs[n].spec.nodeName}
              else unavailable)
  {
    var node := x.jobs[n].spec.nodeName;
    assert UnmetOn(x, d, n, node) <==> Related(x, d, n) && !Meets(d.condition, x.jobs[n]);
  }

  /** The loop over the cached job keys for one dependency; `keys` lists them in any order. */
  method CheckJobs(x: Inputs, d: Dependency, keys: seq<string>, before: set<string>)
    returns (open: bool, unavailable: set<string>)
    requires d.name in x.maintenances && JobsHaveStages(x, d)
    requires forall n :: n in keys <==> n in x.jobs
    ensures open <==> forall n {:trigger JobPermits(x, d, n)} :: n in x.jobs ==> JobPermits(x, d, n)
    ensures open ==> Scanned(x, d, x.jobs.Keys, before, unavailable)
  {
    unavailable := before;
    ghost var seen: set<string> := {};
    for i := 0 to |keys|
      invariant seen <= x.jobs.Keys && forall n :: n in seen <==> n in keys[..i]
      invariant Scanned(x, d, seen, before, unavailable)
    {
      var n := keys[i];
      assert n in x.jobs;
      assert keys[..i + 1] == keys[..i] + [n];
      var job := x.jobs[n];
      var related := d.name + "." <= n;
      if related {
        related := IsOwned(job, d.name, x.maintenances[d.name].uid);
      }
      var met := true;
      if related {
        if !Known(d.condition) {
          assert !JobPermits(x, d, n);
          return false, unavailable;
        }
        met := CheckCondition(d.condition, job);
        if !d.individual && !met {
          assert !JobPermits(x, d, n);
          return false, unavailable;
        }
      }
      ScanStep(x, d, seen, before, unavailable, n);
      if !met {
        unavailable := unavailable + {job.spec.nodeName};
      }
      seen := seen + {n};
    }
    open := true;
    assert keys[..|keys|] == keys;
    assert seen == x.jobs.Keys;
  }

  /** The loop over the dependencies. */
  method CheckDependencies(x: Inputs, deps: seq<Dependency>, keys: seq<string>)
    returns (open: bool, unavailable: set<string>)
    requires WellFormed(x, deps)
    requires forall n :: n in keys <==> n in x.jobs
    ensures open <==> GateOpen(x, deps)
    ensures open ==> forall node :: node in unavailable <==> Blocked(x, deps, node)
  {
    unavailable := {};
    for i := 0 to |deps|
      invariant GateOpen(x, deps[..i])
      invariant forall node :: node in unavailable <==> Blocked(x, deps[..i], node)
    {
      var d := deps[i];
      assert d in deps && JobsHaveStages(x, d);
      if d.name !in x.maintenances || (!d.individual && !x.maintenances[d.name].finished) {
        assert !Permits(x, d);
        return false, unavailable;
      }
      ghost var before := unavailable;
      open, unavailable := CheckJobs(x, d, keys, unavailable);
      if !open {
        assert !Permits(x, d);
        return;
      }
      assert Permits(x, d);
      BlockedStep(x, deps, i, before, unavailable);
    }
    open := true;
    assert deps[..|deps|] == deps;
  }

  lemma BlockedStep(x: Inputs, deps: seq<Dependency>, i: nat, before: set<string>, unavailable: set<string>)
    requires i < |deps| && deps[i].name in x.maintenances
    requires GateOpen(x, deps[..i]) && Permits(x, deps[i])
    requires forall node :: node in before <==> Blocked(x, deps[..i], node)
    requires Scanned(x, deps[i], x.jobs.Keys, before, unavailable)
    ensures GateOpen(x, deps[..i + 1])
    ensures forall node :: node in unavailable <==> Blocked(x, deps[..i + 1], node)
  {
    assert forall d :: d in deps[..i + 1] <==> d in deps[..i] || d == deps[i];
    forall node ensures node in unavailable <==> Blocked(x, deps[..i + 1], node) {
      if node in unavailable && node !in before {
        var n :| n in x.jobs.Keys && UnmetOn(x, deps[i], n, node);
      }
    }
  }

  method ResolveEnv(x: Inputs, spec: MaintenanceSpec, node: NodeInfo)
    returns (ok: bool, env: seq<EnvVar>, envFrom: seq<EnvFromSource>)
    ensures ok <==> EnvResolves(x.foreign, spec, node)
    ensures ok ==> env == EnvOf(x.foreign, spec, node) && envFrom == EnvFromOf(x.foreign, spec, node)
  {
    env, envFrom := [], [];
    for i := 0 to |spec.env|
      invariant |env| == i
      invariant forall j :: 0 <= j < i ==> x.foreign.env(node, spec.env[j]) == Some(env[j])
    {
      var e := x.foreign.env(node, spec.env[i]);
      if e.None? {
        return false, env, envFrom;
      }
      env := env + [e.value];
    }
    for i := 0 to |spec.envFrom|
      invariant |envFrom| == i
      invariant forall j :: 0 <= j < i ==> x.foreign.envFrom(node, spec.envFrom[j]) == Some(envFrom[j])
    {
      var e := x.foreign.envFrom(node, spec.envFrom[i]);
      if e.None? {
        return false, env, envFrom;
      }
      envFrom := envFrom + [e.value];
    }
    ok := true;
  }

  /** The loop over the listed nodes. */
  method GenerateJobs(x: Inputs, spec: MaintenanceSpec, nodes: seq<NodeInfo>, unavailable: set<string>)
    returns (r: Outcome)
    requires forall node :: node in unavailable <==> Blocked(x, spec.schedule.depends, node)
    ensures var chosen := AllowedNodes(x, spec, nodes);
            r == if AllResolve(x, spec, chosen) then Generated(JobsFor(x, spec, chosen)) else EnvFailed
  {
    var jobs: seq<MaintenanceJob> := [];
    for i := 0 to |nodes|
      invariant AllResolve(x, spec, AllowedNodes(x, spec, nodes[..i]))
      invariant jobs == JobsFor(x, spec, AllowedNodes(x, spec, nodes[..i]))
    {
      var node := nodes[i];
      assert nodes[..i + 1][..i] == nodes[..i];
      var listed := |spec.nodeSelector| == 0 || x.foreign.selects(spec.nodeSelector, node);
      if listed && (|spec.nodes| == 0 || node.name in spec.nodes) && node.name !in unavailable
         && x.foreign.tolerated(node, spec.tolerations) && node.machineID != ""
      {
        assert Allowed(x, spec, node);
        assert AllowedNodes(x, spec, nodes[..i + 1]) == AllowedNodes(x, spec, nodes[..i]) + [node];
        var ok, env, envFrom := ResolveEnv(x, spec, node);
        if !ok {
          UnresolvedFails(x, spec, nodes, node);
          return EnvFailed;
        }
        var stages := GenerateStages(spec, node.name, node.machineID, env, envFrom, x.defaultTimeout);
        var job := GenerateMaintenanceJob(
          spec, node.name, node.machineID, x.mt, env, envFrom, x.namespace, x.defaultTimeout);
        jobs := jobs + [job.(spec := job.spec.(stages := stages))];
      } else {
        assert !Allowed(x, spec, node);
      }
    }
    assert nodes[..|nodes|] == nodes;
    r := Generated(jobs);
  }

  lemma UnresolvedFails(x: Inputs, spec: MaintenanceSpec, nodes: seq<NodeInfo>, node: NodeInfo)
    requires node in nodes && Allowed(x, spec, node) && !EnvResolves(x.foreign, spec, node)
    ensures !AllResolve(x, spec, AllowedNodes(x, spec, nodes))
  {
    var chosen := AllowedNodes(x, spec, nodes);
    assert node in chosen;
  }

  /** The whole pass up to the creation of jobs equals the rule, whatever order the cache lists its keys in. */
  method ComputeJobs(x: Inputs, spec: MaintenanceSpec, keys: seq<string>) returns (r: Outcome)
    requires WellFormed(x, spec.schedule.depends)
    requires forall n :: n in keys <==> n in x.jobs
    ensures r == Decision(x, spec)
  {
    var open, unavailable := CheckDependencies(x, spec.schedule.depends, keys);
    if !open {
      return Held;
    }
    if x.nodes.None? {
      return ListFailed;
    }
    r := GenerateJobs(x, spec, x.nodes.value, unavailable);
  }

  // ---------------------------------------------------------------------- what the rule means

  lemma AllowedOnce(x: Inputs, spec: MaintenanceSpec, nodes: seq<NodeInfo>, node: NodeInfo)
    requires node in nodes
    requires forall i, j :: 0 <= i < j < |nodes| ==> nodes[i].name != nodes[j].name
    ensures (exists m :: m in AllowedNodes(x, spec, nodes) && m.name == node.name) <==> Allowed(x, spec, node)
  {
    forall m | m in nodes && m.name == node.name ensures m == node {
      var i :| 0 <= i < |nodes| && nodes[i] == m;
      var j :| 0 <= j < |nodes| && nodes[j] == node;
    }
  }

  /** The jobs generated for a Maintenance are owned by it and by no other, nor by a namesake with another identity. */
  lemma GeneratedOwner(x: Inputs, spec: MaintenanceSpec, node: NodeInfo, mt: string, uid: string)
    requires EnvResolves(x.foreign, spec, node)
    ensures Owned(JobFor(x, spec, node), mt, uid) <==> x.mt.name == mt && x.mt.uid == uid
  {
    assert JobFor(x, spec, node).owners == [OwnerRef("Maintenance", x.mt.name, x.mt.uid, Some(true), Some(true))];
  }

  /**
   Exactly when a pass is held: some dependency is not in the cache, or it must be finished as a whole
   and is not, or one of its jobs has a condition nobody knows or, where all of them have to meet it,
   does not meet it.
   */
  lemma HeldIff(x: Inputs, spec: MaintenanceSpec)
    ensures Decision(x, spec).Held? <==>
              exists d :: d in spec.schedule.depends &&
                (|| d.name !in x.maintenances
                 || (!d.individual && !x.maintenances[d.name].finished)
                 || exists n :: n in x.jobs && d.name + "." <= n
                      && OwnerRef("Maintenance", d.name, x.maintenances[d.name].uid, Some(true), Some(true))
                         in x.jobs[n].owners
                      && (|| d.condition !in ["", "succeeded", "failed"]
                          || (!d.individual && !Meets(d.condition, x.jobs[n]))))
    ensures Decision(x, spec).ListFailed? <==> !Decision(x, spec).Held? && x.nodes.None?
  {
    if d :| d in spec.schedule.depends && !Permits(x, d) {
      if d.name in x.maintenances && (d.individual || x.maintenances[d.name].finished) {
        var n :| n in x.jobs && !JobPermits(x, d, n);
        assert Related(x, d, n);
      }
    }
    forall d, n | d in spec.schedule.depends && Permits(x, d) && n in x.jobs ensures JobPermits(x, d, n) {
    }
  }

  /**
   A pass that generates jobs generates one for a listed node exactly when the node is selected, listed if
   there is a list, tolerated, has a machine identity, and no dependency has a job on it that does not
   meet the condition.
   */
  lemma JobIffAllowed(x: Inputs, spec: MaintenanceSpec, node: NodeInfo)
    requires x.nodes.Some? && node in x.nodes.value && Decision(x, spec).Generated?
    requires forall i, j :: 0 <= i < j < |x.nodes.value| ==> x.nodes.value[i].name != x.nodes.value[j].name
    ensures (exists job :: job in Decision(x, spec).jobs && job.spec.nodeName == node.name) <==>
              && (spec.nodeSelector == map[] || x.foreign.selects(spec.nodeSelector, node))
              && (spec.nodes == [] || node.name in spec.nodes)
              && x.foreign.tolerated(node, spec.tolerations) && node.machineID != ""
              && !exists d, n :: d in spec.schedule.depends && d.name in x.maintenances && n in x.jobs
                   && d.name + "." <= n
                   && OwnerRef("Maintenance", d.name, x.maintenances[d.name].uid, Some(true), Some(true))
                      in x.jobs[n].owners
                   && !Meets(d.condition, x.jobs[n]) && x.jobs[n].spec.nodeName == node.name
    ensures Allowed(x, spec, node) ==>
              EnvResolves(x.foreign, spec, node) && JobFor(x, spec, node) in Decision(x, spec).jobs
  {
    var chosen, jobs := AllowedNodes(x, spec, x.nodes.value), Decision(x, spec).jobs;
    AllowedOnce(x, spec, x.nodes.value, node);
    BlockedIff(x, spec.schedule.depends, node.name);
    if Allowed(x, spec, node) {
      assert node in chosen;
      var i :| 0 <= i < |chosen| && chosen[i] == node;
      JobsForAt(x, spec, chosen, i);
      assert jobs[i].spec.nodeName == node.name;
    }
    forall job | job in jobs ensures exists m :: m in chosen && m.name == job.spec.nodeName {
      var i :| 0 <= i < |jobs| && jobs[i] == job;
      JobsForAt(x, spec, chosen, i);
      assert chosen[i] in chosen;
    }
  }

  lemma BlockedIff(x: Inputs, deps: seq<Dependency>, node: string)
    ensures Blocked(x, deps, node) <==>
              exists d, n :: d in deps && d.name in x.maintenances && n in x.jobs
                && d.name + "." <= n
                && OwnerRef("Maintenance", d.name, x.maintenances[d.name].uid, Some(true), Some(true))
                   in x.jobs[n].owners
                && !Meets(d.condition, x.jobs[n]) && x.jobs[n].spec.nodeName == node
  {
    if Blocked(x, deps, node) {
      var d, n :| d in deps && UnmetOn(x, d, n, node);
      assert d in deps && n in x.jobs;
    }
    forall d, n | d in deps && d.name in x.maintenances && n in x.jobs && Related(x, d, n)
      ensures !Meets(d.condition, x.jobs[n]) && x.jobs[n].spec.nodeName == node ==> Blocked(x, deps, node)
    {
      if !Meets(d.condition, x.jobs[n]) && x.jobs[n].spec.nodeName == node {
        assert UnmetOn(x, d, n, node);
      }
    }
  }

  /** All or nothing: the pass fails exactly when the env of some allowed node does not resolve. */
  lemma EnvFailureIff(x: Inputs, spec: MaintenanceSpec)
    requires GateOpen(x, spec.schedule.depends) && x.nodes.Some?
    ensures Decision(x, spec).EnvFailed? <==>
              exists node :: node in x.nodes.value && Allowed(x, spec, node) && !EnvResolves(x.foreign, spec, node)
  {
    var chosen := AllowedNodes(x, spec, x.nodes.value);
    if !AllResolve(x, spec, chosen) {
      var i :| 0 <= i < |chosen| && !EnvResolves(x.foreign, spec, chosen[i]);
      assert chosen[i] in chosen;
    }
    if node :| node in x.nodes.value && Allowed(x, spec, node) && !EnvResolves(x.foreign, spec, node) {
      UnresolvedFails(x, spec, x.nodes.value, node);
    }
  }

  /** The order and repetition of dependencies do not matter: only which there are. */
  lemma DependencyOrderIrrelevant(x: Inputs, spec: MaintenanceSpec, deps: seq<Dependency>)
    requires forall d :: d in deps <==> d in spec.schedule.depends
    ensures Decision(x, spec.(schedule := spec.schedule.(depends := deps))) == Decision(x, spec)
  {
    var spec' := spec.(schedule := spec.schedule.(depends := deps));
    if x.nodes.Some? {
      SameAllowedNodes(x, spec, spec', x.nodes.value);
      var chosen := AllowedNodes(x, spec, x.nodes.value);
      forall i | 0 <= i < |chosen|
        ensures EnvResolves(x.foreign, spec', chosen[i]) <==> EnvResolves(x.foreign, spec, chosen[i])
      {
      }
      if AllResolve(x, spec, chosen) {
        SameJobs(x, spec, spec', chosen);
      }
    }
  }

  lemma {:induction false} SameJobs(x: Inputs, spec: MaintenanceSpec, spec': MaintenanceSpec, nodes: seq<NodeInfo>)
    requires spec' == spec.(schedule := spec'.schedule) && AllResolve(x, spec, nodes)
    ensures AllResolve(x, spec', nodes) && JobsFor(x, spec', nodes) == JobsFor(x, spec, nodes)
  {
    forall i | 0 <= i < |nodes| ensures EnvResolves(x.foreign, spec', nodes[i]) {
      SameJob(x, spec, spec', nodes[i]);
    }
    if nodes != [] {
      SameJobs(x, spec, spec', nodes[..|nodes| - 1]);
      SameJob(x, spec, spec', nodes[|nodes| - 1]);
    }
  }

  lemma SameJob(x: Inputs, spec: MaintenanceSpec, spec': MaintenanceSpec, node: NodeInfo)
    requires spec' == spec.(schedule := spec'.schedule) && EnvResolves(x.foreign, spec, node)
    ensures EnvResolves(x.foreign, spec', node) && JobFor(x, spec', node) == JobFor(x, spec, node)
  {
    assert EnvOf(x.foreign, spec', node) == EnvOf(x.foreign, spec, node);
    assert EnvFromOf(x.foreign, spec', node) == EnvFromOf(x.foreign, spec, node);
    assert JobFor(x, spec', node).spec.stages == JobFor(x, spec, node).spec.stages;
  }

  lemma {:induction false} SameAllowedNodes(
    x: Inputs, spec: MaintenanceSpec, spec': MaintenanceSpec, nodes: seq<NodeInfo>)
    requires spec' == spec.(schedule := spec'.schedule)
    requires forall d :: d in spec'.schedule.depends <==> d in spec.schedule.depends
    ensures AllowedNodes(x, spec', nodes) == AllowedNodes(x, spec, nodes)
  {
    if nodes != [] {
      SameAllowedNodes(x, spec, spec', nodes[..|nodes| - 1]);
      var node := nodes[|nodes| - 1].name;
      assert Blocked(x, spec'.schedule.depends, node) <==> Blocked(x, spec.schedule.depends, node);
    }
  }

  /** Against the cache of any run of job creation the name prefix test changes nothing: the owner test decides. */
  lemma PrefixTestIrrelevant(steps: seq<JobCreation.Step>, x: Inputs, d: Dependency, n: string)
    requires x.jobs == JobCreation.Execute(JobCreation.EMPTY, steps).cache
    requires d.name in x.maintenances && n in x.jobs
    ensures Related(x, d, n) <==> Owned(x.jobs[n], d.name, x.maintenances[d.name].uid)
  {
    if Owned(x.jobs[n], d.name, x.maintenances[d.name].uid) {
      JobCreation.PrefixTestLosesNothing(steps, n, d.name);
    }
  }
}
