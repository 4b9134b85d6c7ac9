/** `generateMaintenanceJob`: the MaintenanceJob of one node, made from the spec snapshot of a Maintenance. */
module JobGeneration {
  import opened Types
  import opened EnvMerge
  import opened JobNames

  const RESTART_NEVER := "Never"

  function WithEnv(c: Container, env: seq<EnvVar>, envFrom: seq<EnvFromSource>): Container {
    c.(env := Overlay(c.env, env, EnvKey), envFrom := Overlay(c.envFrom, envFrom, EnvFromKey))
  }

  function WithEnvAll(cs: seq<Container>, env: seq<EnvVar>, envFrom: seq<EnvFromSource>): (r: seq<Container>)
    ensures |r| == |cs|
    ensures forall i :: 0 <= i < |cs| ==> r[i] == WithEnv(cs[i], env, envFrom)
  {
    seq(|cs|, i requires 0 <= i < |cs| => WithEnv(cs[i], env, envFrom))
  }

  /** A pod is bound to the node and given the snapshot's tolerations unless it already says where to run. */
  function BoundPod(pod: PodTemplate, nodeName: string, tolerations: seq<Toleration>): PodTemplate {
    if pod.hasNodeAffinity || pod.nodeName != "" || pod.nodeSelector.Some? then pod
    else pod.(nodeName := nodeName, tolerations := tolerations)
  }

  function GeneratePod(
    pod: PodTemplate, nodeName: string, tolerations: seq<Toleration>, env: seq<EnvVar>,
    envFrom: seq<EnvFromSource>): PodTemplate
  {
    var p := BoundPod(pod, nodeName, tolerations);
    p.(restartPolicy := RESTART_NEVER,
       initContainers := WithEnvAll(p.initContainers, env, envFrom),
       containers := WithEnvAll(p.containers, env, envFrom))
  }

  function GenerateStage(
    stage: StageSpec, nodeName: string, tolerations: seq<Toleration>,
    env: seq<EnvVar>, envFrom: seq<EnvFromSource>, defaultTimeout: int): StageSpec
  {
    var s := if stage.timeout == 0 then stage.(timeout := defaultTimeout) else stage;
    if s.pod.Some? then s.(pod := Some(GeneratePod(s.pod.value, nodeName, tolerations, env, envFrom))) else s
  }

  function GenerateSpec(
    spec: MaintenanceSpec, nodeName: string, machineID: string,
    env: seq<EnvVar>, envFrom: seq<EnvFromSource>, defaultTimeout: int): JobSpec
  {
    JobSpec(nodeName, machineID,
      seq(|spec.stages|, i requires 0 <= i < |spec.stages| =>
        GenerateStage(spec.stages[i], nodeName, spec.tolerations, env, envFrom, defaultTimeout)))
  }

  function GenerateMaintenanceJob(
    spec: MaintenanceSpec, nodeName: string, machineID: string, mt: MaintenanceRef,
    env: seq<EnvVar>, envFrom: seq<EnvFromSource>, namespace: string, defaultTimeout: int): MaintenanceJob
  {
    MaintenanceJob(
      BaseName(mt.name, nodeName), namespace, mt.labels,
      [OwnerRef("Maintenance", mt.name, mt.uid, Some(true), Some(true))],
      "", ZERO_TIME,
      GenerateSpec(spec, nodeName, machineID, env, envFrom, defaultTimeout),
      JobStatus(None, None, []))
  }

  method MergeContainers(cs: seq<Container>, env: seq<EnvVar>, envFrom: seq<EnvFromSource>) returns (r: seq<Container>)
    ensures r == WithEnvAll(cs, env, envFrom)
  {
    r := cs;
    for i := 0 to |cs|
      invariant |r| == |cs|
      invariant forall j :: 0 <= j < i ==> r[j] == WithEnv(cs[j], env, envFrom)
      invariant forall j :: i <= j < |cs| ==> r[j] == cs[j]
    {
      var e := MergeEnv(r[i].env, env);
      var f := MergeEnvFrom(r[i].envFrom, envFrom);
      r := r[i := r[i].(env := e, envFrom := f)];
    }
  }

  /** The loop of `generateMaintenanceJob` over the stages of the snapshot. */
  method GenerateStages(
    spec: MaintenanceSpec, nodeName: string, machineID: string,
    env: seq<EnvVar>, envFrom: seq<EnvFromSource>, defaultTimeout: int) returns (stages: seq<StageSpec>)
    ensures stages == GenerateSpec(spec, nodeName, machineID, env, envFrom, defaultTimeout).stages
  {
    stages := [];
    for i := 0 to |spec.stages|
      invariant |stages| == i
      invariant forall j :: 0 <= j < i ==>
        stages[j] == GenerateStage(spec.stages[j], nodeName, spec.tolerations, env, envFrom, defaultTimeout)
    {
      var s := spec.stages[i];
      if s.timeout == 0 {
        s := s.(timeout := defaultTimeout);
      }
      if s.pod.Some? {
        var pod := s.pod.value;
        if !(pod.hasNodeAffinity || pod.nodeName != "" || pod.nodeSelector.Some?) {
          pod := pod.(nodeName := nodeName, tolerations := spec.tolerations);
        }
        pod := pod.(restartPolicy := RESTART_NEVER);
        var inits := MergeContainers(pod.initContainers, env, envFrom);
        var mains := MergeContainers(pod.containers, env, envFrom);
        s := s.(pod := Some(pod.(initContainers := inits, containers := mains)));
      }
      stages := stages + [s];
    }
  }

  /**
   A generated job has the snapshot's stages: same number, order, names, delays and kinds, zero timeouts
   defaulted.
   */
  lemma GeneratedStagesMatch(
    spec: MaintenanceSpec, nodeName: string, machineID: string,
    env: seq<EnvVar>, envFrom: seq<EnvFromSource>, defaultTimeout: int, i: nat)
    requires i < |spec.stages|
    ensures var r := GenerateSpec(spec, nodeName, machineID, env, envFrom, defaultTimeout);
            && |r.stages| == |spec.stages|
            && r.stages[i].name == spec.stages[i].name
            && r.stages[i].delay == spec.stages[i].delay
            && r.stages[i].timeout == (if spec.stages[i].timeout == 0 then defaultTimeout else spec.stages[i].timeout)
            && r.stages[i].drain == spec.stages[i].drain
            && r.stages[i].uncordon == spec.stages[i].uncordon
            && (r.stages[i].pod.Some? <==> spec.stages[i].pod.Some?)
  {
    var r := GenerateSpec(spec, nodeName, machineID, env, envFrom, defaultTimeout);
    assert r.stages[i] == GenerateStage(spec.stages[i], nodeName, spec.tolerations, env, envFrom, defaultTimeout);
  }

  function ContainersOf(pod: PodTemplate, init: bool): seq<Container> {
    if init then pod.initContainers else pod.containers
  }

  /**
   A generated pod is never restarted, has the template's containers, and runs on the job's node unless
   the template chose where.
   */
  lemma GeneratedPodPlaced(
    spec: MaintenanceSpec, nodeName: string, machineID: string,
    env: seq<EnvVar>, envFrom: seq<EnvFromSource>, defaultTimeout: int, i: nat, init: bool, c: nat)
    requires i < |spec.stages| && spec.stages[i].pod.Some? && c < |ContainersOf(spec.stages[i].pod.value, init)|
    ensures var r := GenerateSpec(spec, nodeName, machineID, env, envFrom, defaultTimeout).stages[i];
            var own := spec.stages[i].pod.value;
            && r.pod.Some? && r.pod.value.restartPolicy == RESTART_NEVER
            && |ContainersOf(r.pod.value, init)| == |ContainersOf(own, init)|
            && ContainersOf(r.pod.value, init)[c].image == ContainersOf(own, init)[c].image
            && (if own.hasNodeAffinity || own.nodeName != "" || own.nodeSelector.Some?
                then r.pod.value.nodeName == own.nodeName && r.pod.value.tolerations == own.tolerations
                else r.pod.value.nodeName == nodeName && r.pod.value.tolerations == spec.tolerations)
  {
    var r := GenerateSpec(spec, nodeName, machineID, env, envFrom, defaultTimeout).stages[i];
    assert r == GenerateStage(spec.stages[i], nodeName, spec.tolerations, env, envFrom, defaultTimeout);
  }

  /** Container `c` of the pod of stage `i`, as generated. */
  function GeneratedContainer(
    spec: MaintenanceSpec, nodeName: string, machineID: string,
    env: seq<EnvVar>, envFrom: seq<EnvFromSource>, defaultTimeout: int, i: nat, init: bool, c: nat): Option<Container>
    requires i < |spec.stages|
  {
    var stage := GenerateSpec(spec, nodeName, machineID, env, envFrom, defaultTimeout).stages[i];
    if stage.pod.None? || c >= |ContainersOf(stage.pod.value, init)| then None
    else Some(ContainersOf(stage.pod.value, init)[c])
  }

  lemma GeneratedIsWithEnv(
    spec: MaintenanceSpec, nodeName: string, machineID: string,
    env: seq<EnvVar>, envFrom: seq<EnvFromSource>, defaultTimeout: int, i: nat, init: bool, c: nat)
    requires i < |spec.stages| && spec.stages[i].pod.Some? && c < |ContainersOf(spec.stages[i].pod.value, init)|
    ensures var own := ContainersOf(spec.stages[i].pod.value, init)[c];
            GeneratedContainer(spec, nodeName, machineID, env, envFrom, defaultTimeout, i, init, c) ==
              Some(Container(own.image, Overlay(own.env, env, EnvKey), Overlay(own.envFrom, envFrom, EnvFromKey)))
  {
    var r := GenerateSpec(spec, nodeName, machineID, env, envFrom, defaultTimeout).stages[i];
    assert r == GenerateStage(spec.stages[i], nodeName, spec.tolerations, env, envFrom, defaultTimeout);
  }

  /**
   In every container of a generated pod each variable has its node specific value, if there is one, else
   the template's own; only a name that the template gives twice keeps the template's value.
   */
  lemma GeneratedEnvOverrides(
    spec: MaintenanceSpec, nodeName: string, machineID: string,
    env: seq<EnvVar>, envFrom: seq<EnvFromSource>, defaultTimeout: int, i: nat, init: bool, c: nat, name: string)
    requires i < |spec.stages| && spec.stages[i].pod.Some? && c < |ContainersOf(spec.stages[i].pod.value, init)|
    ensures var own := ContainersOf(spec.stages[i].pod.value, init)[c].env;
            var got := GeneratedContainer(spec, nodeName, machineID, env, envFrom, defaultTimeout, i, init, c);
            && got.Some?
            && ValueOf(got.value.env, name) ==
                 if ValueOf(env, name).Some? && !exists a, b :: 0 <= a < b < |own| && own[a].name == own[b].name == name
                 then ValueOf(env, name) else ValueOf(own, name)
  {
    GeneratedIsWithEnv(spec, nodeName, machineID, env, envFrom, defaultTimeout, i, init, c);
    MergedValue(ContainersOf(spec.stages[i].pod.value, init)[c].env, env, name);
  }

  /**
   Every container of a generated pod has, of the node specific sources, the last of each kind and
   run-together name; of its own sources, all in their places, except that the first of such a name
   gives way to the node specific one.
   */
  lemma GeneratedEnvFrom(
    spec: MaintenanceSpec, nodeName: string, machineID: string,
    env: seq<EnvVar>, envFrom: seq<EnvFromSource>, defaultTimeout: int, i: nat, init: bool, c: nat)
    requires i < |spec.stages| && spec.stages[i].pod.Some? && c < |ContainersOf(spec.stages[i].pod.value, init)|
    ensures var own := ContainersOf(spec.stages[i].pod.value, init)[c].envFrom;
            var got := GeneratedContainer(spec, nodeName, machineID, env, envFrom, defaultTimeout, i, init, c);
            && got.Some? && |own| <= |got.value.envFrom|
            && (forall j :: 0 <= j < |envFrom| && LastSource(envFrom, j, envFrom[j]) ==>
                  envFrom[j] in got.value.envFrom)
            && (forall a, j: nat :: 0 <= a < |own| && FirstSource(own, a) && LastSource(envFrom, j, own[a]) ==>
                  got.value.envFrom[a] == envFrom[j])
            && (forall a :: 0 <= a < |own| && (!FirstSource(own, a) || !HasSame(envFrom, own[a])) ==>
                  got.value.envFrom[a] == own[a])
            && (forall a :: |own| <= a < |got.value.envFrom| ==> got.value.envFrom[a] in envFrom)
  {
    var own := ContainersOf(spec.stages[i].pod.value, init)[c].envFrom;
    var r := Overlay(own, envFrom, EnvFromKey);
    GeneratedIsWithEnv(spec, nodeName, machineID, env, envFrom, defaultTimeout, i, init, c);
    forall j | 0 <= j < |envFrom| && LastSource(envFrom, j, envFrom[j]) ensures envFrom[j] in r {
      MergedSources(own, envFrom, j);
    }
    forall a | 0 <= a < |own|
      ensures forall j: nat :: FirstSource(own, a) && LastSource(envFrom, j, own[a]) ==> r[a] == envFrom[j]
      ensures !FirstSource(own, a) || !HasSame(envFrom, own[a]) ==> r[a] == own[a]
    {
      MergedSourceAt(own, envFrom, a);
    }
    forall a | |own| <= a < |r| ensures r[a] in envFrom {
      MergedSources(own, envFrom, a);
    }
  }
}
