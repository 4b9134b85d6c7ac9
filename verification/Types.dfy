/**
 The record types of the vihara API group and of the Kubernetes objects the maintenance controller
 handles.  A Go pointer is an `Option`; an instant is an `int`, with `ZERO_TIME` for Go's zero time.
 */
module Types {
  datatype Option<+T> = None | Some(value: T)

  type Time = int

  const ZERO_TIME: Time := 0

  /** The test `t != nil && !t.IsZero()` that the controller applies to every timestamp. */
  predicate IsSet(t: Option<Time>) {
    t.Some? && t.value != ZERO_TIME
  }

  /** How one API write ends for the caller: acknowledged, applied although the caller sees an error, or not applied. */
  datatype Net = Acked | AckLost | Refused

  datatype OwnerRef = OwnerRef(
    kind: string, name: string, uid: string,
    controller: Option<bool>, blockOwnerDeletion: Option<bool>)

  datatype Toleration = Toleration(key: string, operator: string, value: string, effect: string)

  datatype EnvVar = EnvVar(name: string, value: string)

  datatype EnvFromSource = EnvFromSource(prefix: string, configMapRef: Option<string>, secretRef: Option<string>)

  datatype Container = Container(image: string, env: seq<EnvVar>, envFrom: seq<EnvFromSource>)

  datatype PodTemplate = PodTemplate(
    nodeName: string, hasNodeAffinity: bool, nodeSelector: Option<map<string, string>>,
    tolerations: seq<Toleration>, restartPolicy: string,
    initContainers: seq<Container>, containers: seq<Container>)

  datatype NodeSelectorTerm = NodeSelectorTerm(key: string, value: string, fieldPath: string)

  /** One stage of a Maintenance or MaintenanceJob; at most the first present action is used. */
  datatype StageSpec = StageSpec(
    name: string, delay: int, timeout: int,
    drain: Option<seq<NodeSelectorTerm>>, uncordon: Option<seq<NodeSelectorTerm>>, pod: Option<PodTemplate>)
  {
    /** Drain and uncordon stages are executed by the controller itself. */
    predicate Managed() {
      drain.Some? || uncordon.Some?
    }

    /** The runner calls `uncordonNodes` only for such a stage, and that call reads the missing drain spec. */
    predicate UncordonOnly() {
      drain.None? && uncordon.Some?
    }

    predicate HasAction() {
      Managed() || pod.Some?
    }
  }

  datatype StageStatus = StageStatus(
    name: string, scheduledAt: Option<Time>, finishedAt: Option<Time>,
    message: string, reason: string, running: bool, succeeded: bool, failed: bool)

  datatype JobStatus = JobStatus(succeededAt: Option<Time>, failedAt: Option<Time>, stages: seq<StageStatus>)

  datatype JobSpec = JobSpec(nodeName: string, machineID: string, stages: seq<StageSpec>)

  datatype MaintenanceJob = MaintenanceJob(
    name: string, namespace: string, labels: map<string, string>, owners: seq<OwnerRef>,
    uid: string, creation: Time, spec: JobSpec, status: JobStatus)

  datatype NodeSpecificEnv = NodeSpecificEnv(name: string, value: string, configMapKey: string, secretKey: string)

  datatype NodeSpecificEnvFrom = NodeSpecificEnvFrom(prefix: string, configMap: string, secret: string)

  datatype Dependency = Dependency(name: string, individual: bool, condition: string)

  datatype Schedule = Schedule(
    since: Option<Time>, delay: int, until: Option<Time>, duration: int, depends: seq<Dependency>)

  datatype MaintenanceSpec = MaintenanceSpec(
    targetNamespaces: seq<string>, nodeSelector: map<string, string>, nodes: seq<string>,
    env: seq<NodeSpecificEnv>, envFrom: seq<NodeSpecificEnvFrom>, tolerations: seq<Toleration>,
    schedule: Schedule, stages: seq<StageSpec>)

  /** The metadata of a Maintenance that its jobs inherit. */
  datatype MaintenanceRef = MaintenanceRef(name: string, uid: string, labels: map<string, string>)

  datatype NodeInfo = NodeInfo(name: string, labels: map<string, string>, machineID: string, taintKeys: seq<string>)

  /**
   The three accessors of a MaintenanceJob look at the last stage only; they index out of range exactly
   when both lists are empty.
   */
  predicate JobFinished(spec: JobSpec, st: JobStatus)
    requires spec.stages != [] || st.stages != []
  {
    |st.stages| == |spec.stages| && IsSet(st.stages[|st.stages| - 1].finishedAt)
  }

  predicate JobSucceeded(spec: JobSpec, st: JobStatus)
    requires spec.stages != [] || st.stages != []
  {
    |st.stages| == |spec.stages| && st.stages[|st.stages| - 1].succeeded
  }

  predicate JobFailed(spec: JobSpec, st: JobStatus)
    requires spec.stages != [] || st.stages != []
  {
    |st.stages| == |spec.stages| && st.stages[|st.stages| - 1].failed
  }

  /** `metav1.GetControllerOf`: the first owner reference flagged as controller. */
  function ControllerOf(owners: seq<OwnerRef>): (r: Option<OwnerRef>)
    ensures r.Some? ==> r.value in owners && r.value.controller == Some(true)
    ensures r.None? ==> forall o :: o in owners ==> o.controller != Some(true)
  {
    if owners == [] then None
    else if owners[0].controller == Some(true) then Some(owners[0])
    else ControllerOf(owners[1..])
  }
}
