/**
 Creating MaintenanceJobs: scheduling passes choose a free name by probing the informer cache one name
 at a time, and the API server refuses to create a name it already holds.  The cache lags behind the
 server in any way: it learns of each creation and each deletion at any later time.
 */
module JobCreation {
  import opened Types
  import opened JobNames
  import opened JobGeneration

  /** The part of a generated job that naming depends on. */
  predicate GeneratedFor(job: MaintenanceJob, mt: MaintenanceRef, node: string) {
    && mt.name != "" && node != ""
    && job.name == BaseName(mt.name, node)
    && job.owners == [OwnerRef("Maintenance", mt.name, mt.uid, Some(true), Some(true))]
    && job.spec.nodeName == node
  }

  lemma GenerateIsGenerated(
    spec: MaintenanceSpec, node: string, machineID: string, mt: MaintenanceRef,
    env: seq<EnvVar>, envFrom: seq<EnvFromSource>, namespace: string, defaultTimeout: int)
    requires mt.name != "" && node != ""
    ensures var job := GenerateMaintenanceJob(spec, node, machineID, mt, env, envFrom, namespace, defaultTimeout);
            && GeneratedFor(job, mt, node)
            && job.name == mt.name + "." + node && job.namespace == namespace && job.labels == mt.labels
            && job.owners == [OwnerRef("Maintenance", mt.name, mt.uid, Some(true), Some(true))]
            && job.spec.nodeName == node && job.spec.machineID == machineID
            && job.status == JobStatus(None, None, [])
  {
  }

  /** A generated job on its way: the candidate it will probe next, or has settled on. */
  datatype Attempt = Attempt(mt: MaintenanceRef, node: string, job: MaintenanceJob, index: nat)

  /** For which Maintenance and node, and as which candidate, a job was created. */
  datatype Origin = Origin(mt: string, node: string, index: nat)

  datatype World = World(
    server: map<string, MaintenanceJob>, cache: map<string, MaintenanceJob>, origin: map<string, Origin>,
    probing: set<Attempt>, creating: set<Attempt>)

  datatype Step =
    | Start(mt: MaintenanceRef, node: string, job: MaintenanceJob)  // a pass has generated a job
    | Look(attempt: Attempt)                                        // it probes one name in the cache
    | Create(attempt: Attempt, net: Net)                            // its create request is answered
    | Sync(names: set<string>)                                      // the informer learns how some names stand
    | Delete(name: string)                                          // somebody deletes a job
    | SetStatus(name: string, status: JobStatus)                    // any status write
    | Other(name: string, job: MaintenanceJob)                      // somebody else creates an unowned job

  function Base(a: Attempt): string {
    BaseName(a.mt.name, a.node)
  }

  predicate Unowned(job: MaintenanceJob) {
    forall o :: o in job.owners ==> o.kind != "Maintenance"
  }

  function LookUp(w: World, a: Attempt): World
    requires a.index >= 1
  {
    var name := Candidate(Base(a), a.index);
    var w' := w.(probing := w.probing - {a});
    if name !in w.cache then w'.(creating := w'.creating + {a})
    else if w.cache[name].spec.machineID == a.job.spec.machineID then w'
    else w'.(probing := w'.probing + {a.(index := a.index + 1)})
  }

  function CreateJob(w: World, a: Attempt, net: Net): World
    requires a.index >= 1
  {
    var name := Candidate(Base(a), a.index);
    var w' := w.(creating := w.creating - {a});
    if net.Refused? || name in w.server then w'
    else w'.(server := w.server[name := a.job.(name := name)],
             origin := w.origin[name := Origin(a.mt.name, a.node, a.index)])
  }

  function Apply(w: World, step: Step): World {
    match step
    case Start(mt, node, job) =>
      if GeneratedFor(job, mt, node) then w.(probing := w.probing + {Attempt(mt, node, job, 1)}) else w
    case Look(a) => if a in w.probing && a.index >= 1 then LookUp(w, a) else w
    case Create(a, net) => if a in w.creating && a.index >= 1 then CreateJob(w, a, net) else w
    case Sync(names) =>
      w.(cache := (w.cache - (names - w.server.Keys)) + map n | n in names && n in w.server :: w.server[n])
    case Delete(n) => w.(server := w.server - {n}, origin := w.origin - {n})
    case SetStatus(n, st) => if n in w.server then w.(server := w.server[n := w.server[n].(status := st)]) else w
    case Other(n, job) => if n !in w.server && Unowned(job) then w.(server := w.server[n := job]) else w
  }

  const EMPTY := World(map[], map[], map[], {}, {})

  function Execute(w: World, steps: seq<Step>): World {
    if steps == [] then w else Apply(Execute(w, steps[..|steps| - 1]), steps[|steps| - 1])
  }

  // ---------------------------------------------------------------------- what every run keeps

  /** A job without a Maintenance as owner, or one with a name that belongs to its owner. */
  ghost predicate Known(n: string, job: MaintenanceJob) {
    Unowned(job) || exists mt, uid, node, i: nat :: KnownAs(n, job, mt, uid, node, i)
  }

  predicate KnownAs(n: string, job: MaintenanceJob, mt: string, uid: string, node: string, i: nat) {
    && i >= 1 && n == Candidate(BaseName(mt, node), i)
    && job.owners == [OwnerRef("Maintenance", mt, uid, Some(true), Some(true))]
  }

  ghost predicate CreatedOk(server: map<string, MaintenanceJob>, n: string, o: Origin) {
    && n in server && server[n].spec.nodeName == o.node
    && exists uid :: KnownAs(n, server[n], o.mt, uid, o.node, o.index)
  }

  predicate AttemptOk(a: Attempt) {
    a.index >= 1 && GeneratedFor(a.job, a.mt, a.node)
  }

  ghost predicate Inv(w: World) {
    && (forall n :: n in w.server ==> Known(n, w.server[n]))
    && (forall n :: n in w.cache ==> Known(n, w.cache[n]))
    && (forall n :: n in w.origin ==> CreatedOk(w.server, n, w.origin[n]))
    && (forall a :: a in w.probing || a in w.creating ==> AttemptOk(a))
  }

  lemma CreateKeepsInv(w: World, a: Attempt, net: Net)
    requires Inv(w) && a in w.creating
    ensures Inv(CreateJob(w, a, net))
  {
    var name := Candidate(Base(a), a.index);
    if !net.Refused? && name !in w.server {
      var job := a.job.(name := name);
      assert KnownAs(name, job, a.mt.name, a.mt.uid, a.node, a.index);
      var server' := w.server[name := job];
      forall n | n in w.origin ensures CreatedOk(server', n, w.origin[n]) {
        assert CreatedOk(w.server, n, w.origin[n]);
      }
    }
  }

  lemma StatusKeepsInv(w: World, n: string, st: JobStatus)
    requires Inv(w) && n in w.server
    ensures Inv(w.(server := w.server[n := w.server[n].(status := st)]))
  {
    var job, job' := w.server[n], w.server[n].(status := st);
    assert Known(n, job') by {
      if !Unowned(job) {
        var mt, uid, node, i: nat :| KnownAs(n, job, mt, uid, node, i);
        assert KnownAs(n, job', mt, uid, node, i);
      }
    }
    forall m | m in w.origin ensures CreatedOk(w.server[n := job'], m, w.origin[m]) {
      var o := w.origin[m];
      var uid :| KnownAs(m, w.server[m], o.mt, uid, o.node, o.index);
      assert KnownAs(m, w.server[n := job'][m], o.mt, uid, o.node, o.index);
    }
  }

  lemma OtherKeepsInv(w: World, n: string, job: MaintenanceJob)
    requires Inv(w) && n !in w.server && Unowned(job)
    ensures Inv(w.(server := w.server[n := job]))
  {
    forall m | m in w.origin ensures CreatedOk(w.server[n := job], m, w.origin[m]) {
      assert CreatedOk(w.server, m, w.origin[m]);
    }
  }

  lemma SyncKeepsInv(w: World, names: set<string>)
    requires Inv(w)
    ensures Inv(Apply(w, Sync(names)))
  {
  }

  lemma DeleteKeepsInv(w: World, n: string)
    requires Inv(w)
    ensures Inv(Apply(w, Delete(n)))
  {
    forall m | m in w.origin && m != n ensures CreatedOk(w.server - {n}, m, w.origin[m]) {
      assert CreatedOk(w.server, m, w.origin[m]);
    }
  }

  lemma StepKeepsInv(w: World, step: Step)
    requires Inv(w)
    ensures Inv(Apply(w, step))
  {
    match step
    case Create(a, net) =>
      if a in w.creating && a.index >= 1 {
        CreateKeepsInv(w, a, net);
      }
    case SetStatus(n, st) =>
      if n in w.server {
        StatusKeepsInv(w, n, st);
      }
    case Other(n, job) =>
      if n !in w.server && Unowned(job) {
        OtherKeepsInv(w, n, job);
      }
    case Sync(names) => SyncKeepsInv(w, names);
    case Delete(n) => DeleteKeepsInv(w, n);
    case _ =>
  }

  lemma {:induction false} RunKeepsInv(w: World, steps: seq<Step>)
    requires Inv(w)
    ensures Inv(Execute(w, steps))
  {
    if steps != [] {
      RunKeepsInv(w, steps[..|steps| - 1]);
      StepKeepsInv(Execute(w, steps[..|steps| - 1]), steps[|steps| - 1]);
    }
  }

  // ---------------------------------------------------------------------- harmless deletions

  /** The name splits into the name of a Maintenance and something for a node, neither of them empty. */
  predicate CouldBeJobName(n: string) {
    exists p :: 0 < p < |n| - 1 && n[p] == '.'
  }

  /** A deletion that changes no name the cache has shown to anybody, or that cannot be the name of a job at all. */
  predicate Harmless(w: World, n: string) {
    n in w.server && n in w.cache ==> !CouldBeJobName(n)
  }

  ghost predicate AllHarmless(w: World, steps: seq<Step>) {
    forall k :: 0 <= k < |steps| && steps[k].Delete? ==> Harmless(Execute(w, steps[..k]), steps[k].name)
  }

  /** The first `n` candidates of `base` are cached, as jobs of other machines. */
  ghost predicate OthersBelow(cache: map<string, MaintenanceJob>, base: string, machineID: string, n: nat) {
    forall i {:trigger Candidate(base, i)} :: 1 <= i <= n ==>
      Candidate(base, i) in cache && cache[Candidate(base, i)].spec.machineID != machineID
  }

  /** What is cached under the name of a job was created and is still there, with the same spec. */
  predicate Behind(cache: map<string, MaintenanceJob>, server: map<string, MaintenanceJob>) {
    forall n :: n in cache && CouldBeJobName(n) ==> n in server && server[n].spec == cache[n].spec
  }

  /** A job whose lower candidates have been seen in the cache, as jobs of other machines. */
  ghost predicate OrderlyJob(cache: map<string, MaintenanceJob>, n: string, spec: JobSpec, o: Origin) {
    && o.mt != "" && o.node != "" && o.index >= 1 && n == Candidate(BaseName(o.mt, o.node), o.index)
    && OthersBelow(cache, BaseName(o.mt, o.node), spec.machineID, o.index - 1)
  }

  ghost predicate OrderlyAttempt(cache: map<string, MaintenanceJob>, a: Attempt) {
    && a.mt.name != "" && a.node != "" && a.index >= 1
    && OthersBelow(cache, Base(a), a.job.spec.machineID, a.index - 1)
  }

  ghost predicate Orderly(w: World) {
    && Behind(w.cache, w.server)
    && (forall n :: n in w.origin ==> n in w.server && OrderlyJob(w.cache, n, w.server[n].spec, w.origin[n]))
    && (forall a :: a in w.probing || a in w.creating ==> OrderlyAttempt(w.cache, a))
  }

  lemma CandidateIsJobName(mt: string, node: string, i: nat)
    requires i >= 1 && mt != "" && node != ""
    ensures CouldBeJobName(Candidate(BaseName(mt, node), i))
  {
    CandidateSplits(mt, node, i);
    assert (mt + "." + Tail(node, i))[|mt|] == '.';
  }

  /** A cache that still has all jobs it had, with their specs, keeps what was seen in it. */
  lemma OthersBelowStay(
    cache: map<string, MaintenanceJob>, cache': map<string, MaintenanceJob>, mt: string, node: string,
    machineID: string, n: nat)
    requires OthersBelow(cache, BaseName(mt, node), machineID, n) && mt != "" && node != ""
    requires forall m :: m in cache && CouldBeJobName(m) ==> m in cache' && cache'[m].spec == cache[m].spec
    ensures OthersBelow(cache', BaseName(mt, node), machineID, n)
  {
    var base := BaseName(mt, node);
    forall i | 1 <= i <= n
      ensures Candidate(base, i) in cache' && cache'[Candidate(base, i)].spec.machineID != machineID
    {
      CandidateIsJobName(mt, node, i);
    }
  }

  lemma SyncOrderly(w: World, names: set<string>)
    requires Orderly(w)
    ensures Orderly(Apply(w, Sync(names)))
  {
    var w' := Apply(w, Sync(names));
    assert forall m :: m in w.cache && CouldBeJobName(m) ==> m in w'.cache && w'.cache[m].spec == w.cache[m].spec;
    forall n | n in w.origin ensures OrderlyJob(w'.cache, n, w.server[n].spec, w.origin[n]) {
      var o := w.origin[n];
      OthersBelowStay(w.cache, w'.cache, o.mt, o.node, w.server[n].spec.machineID, o.index - 1);
    }
    forall a | a in w.probing || a in w.creating ensures OrderlyAttempt(w'.cache, a) {
      OthersBelowStay(w.cache, w'.cache, a.mt.name, a.node, a.job.spec.machineID, a.index - 1);
    }
  }

  lemma LookOrderly(w: World, a: Attempt)
    requires Orderly(w) && a in w.probing
    ensures Orderly(LookUp(w, a))
  {
    assert OrderlyAttempt(w.cache, a);
    var name := Candidate(Base(a), a.index);
    if name in w.cache && w.cache[name].spec.machineID != a.job.spec.machineID {
      assert OthersBelow(w.cache, Base(a), a.job.spec.machineID, a.index);
      assert OrderlyAttempt(w.cache, a.(index := a.index + 1));
    }
  }

  lemma CreateOrderly(w: World, a: Attempt, net: Net)
    requires Orderly(w) && a in w.creating
    ensures Orderly(CreateJob(w, a, net))
  {
    assert OrderlyAttempt(w.cache, a);
    var name := Candidate(Base(a), a.index);
    assert OrderlyJob(w.cache, name, a.job.spec, Origin(a.mt.name, a.node, a.index));
  }

  lemma DeleteOrderly(w: World, n: string)
    requires Orderly(w) && Harmless(w, n)
    ensures Orderly(Apply(w, Delete(n)))
  {
  }

  lemma StepOrderly(w: World, step: Step)
    requires Orderly(w) && (step.Delete? ==> Harmless(w, step.name))
    ensures Orderly(Apply(w, step))
  {
    match step
    case Look(a) =>
      if a in w.probing && a.index >= 1 {
        LookOrderly(w, a);
      }
    case Create(a, net) =>
      if a in w.creating && a.index >= 1 {
        CreateOrderly(w, a, net);
      }
    case Sync(names) => SyncOrderly(w, names);
    case Delete(n) => DeleteOrderly(w, n);
    case _ =>
  }

  lemma {:induction false} RunOrderly(w: World, steps: seq<Step>)
    requires Orderly(w) && AllHarmless(w, steps)
    ensures Orderly(Execute(w, steps))
  {
    if steps != [] {
      var before := steps[..|steps| - 1];
      assert AllHarmless(w, before) by {
        assert forall k :: 0 <= k < |before| ==> before[..k] == steps[..k];
      }
      RunOrderly(w, before);
      StepOrderly(Execute(w, before), steps[|steps| - 1]);
    }
  }

  // ---------------------------------------------------------------------- results over all runs

  /** The server holds at most one job per Maintenance, node and machine. */
  ghost predicate OnePerMachine(w: World) {
    forall n, n' :: n in w.origin && n' in w.origin && SameMachine(w, n, n') ==> n == n'
  }

  predicate SameMachine(w: World, n: string, n': string)
    requires n in w.origin && n' in w.origin
  {
    && w.origin[n].mt == w.origin[n'].mt && w.origin[n].node == w.origin[n'].node
    && n in w.server && n' in w.server && w.server[n].spec.machineID == w.server[n'].spec.machineID
  }

  lemma LowerCandidateDiffers(w: World, n: string, n': string)
    requires Orderly(w) && n in w.origin && n' in w.origin
    requires w.origin[n].mt == w.origin[n'].mt && w.origin[n].node == w.origin[n'].node
    requires w.origin[n].index < w.origin[n'].index
    ensures n in w.server && n' in w.server && w.server[n].spec.machineID != w.server[n'].spec.machineID
  {
    var o := w.origin[n];
    assert Candidate(BaseName(o.mt, o.node), o.index) == n;
    CandidateIsJobName(o.mt, o.node, o.index);
  }

  lemma OrderlyIsOnePerMachine(w: World)
    requires Orderly(w)
    ensures OnePerMachine(w)
  {
    forall n, n' | n in w.origin && n' in w.origin && SameMachine(w, n, n') ensures n == n' {
      if w.origin[n].index < w.origin[n'].index {
        LowerCandidateDiffers(w, n, n');
      } else if w.origin[n'].index < w.origin[n].index {
        LowerCandidateDiffers(w, n', n);
      }
    }
  }

  /**
   In every run whose deletions are harmless, and so in every run without deletions, although names are
   chosen from a stale cache and any number of passes overlap: the server never holds two jobs created
   for the same Maintenance, node and machine.
   */
  lemma OneJobPerMachine(steps: seq<Step>)
    requires AllHarmless(EMPTY, steps)
    ensures OnePerMachine(Execute(EMPTY, steps))
  {
    RunOrderly(EMPTY, steps);
    OrderlyIsOnePerMachine(Execute(EMPTY, steps));
  }

  /** The specs of the cached jobs, which is all the probe loop reads. */
  function Specs(cache: map<string, MaintenanceJob>): map<string, JobSpec> {
    map n | n in cache :: cache[n].spec
  }

  /** The first `n` probes of an attempt. */
  function Looks(a: Attempt, n: nat): (r: seq<Step>)
    ensures |r| == n
  {
    if n == 0 then [] else Looks(a, n - 1) + [Look(a.(index := n))]
  }

  lemma LooksOnce(w: World, a: Attempt, n: nat, v: World)
    requires n >= 1 && v == Execute(w, Looks(a, n - 1)) && v.probing == {a.(index := n)}
    ensures Execute(w, Looks(a, n)) == LookUp(v, a.(index := n))
  {
    assert Looks(a, n)[..n - 1] == Looks(a, n - 1);
  }

  /** Probes of candidates that other machines have move the attempt on. */
  lemma {:induction false} LooksPass(w: World, a: Attempt, n: nat)
    requires w.probing == {a} && a.index == 1
    requires Passed(Specs(w.cache), Base(a), a.job.spec.machineID, n)
    ensures Execute(w, Looks(a, n)) == w.(probing := {a.(index := n + 1)})
  {
    if n > 0 {
      LooksPass(w, a, n - 1);
      assert Candidate(Base(a), n) in Specs(w.cache);
      LooksOnce(w, a, n, w.(probing := {a.(index := n)}));
      LookPasses(w, a, n);
    }
  }

  /**
   The uninterrupted probe loop is a run of single probes: where it settles on the free candidate `i`,
   they leave the attempt ready to create it, and where it meets its machine, they end the attempt.
   */
  lemma ProbeLoopIsLooks(w: World, a: Attempt, i: nat)
    requires w.probing == {a} && a.index == 1 && i >= 1
    requires Passed(Specs(w.cache), Base(a), a.job.spec.machineID, i - 1)
    ensures Candidate(Base(a), i) !in w.cache ==>
              Execute(w, Looks(a, i)) == w.(probing := {}, creating := w.creating + {a.(index := i)})
    ensures Candidate(Base(a), i) in w.cache &&
            w.cache[Candidate(Base(a), i)].spec.machineID == a.job.spec.machineID ==>
              Execute(w, Looks(a, i)) == w.(probing := {})
  {
    LooksPass(w, a, i - 1);
    var v := w.(probing := {a.(index := i)});
    LooksOnce(w, a, i, v);
    LookEnds(w, a, i);
  }

  lemma LookPasses(w: World, a: Attempt, i: nat)
    requires i >= 1 && Candidate(Base(a), i) in w.cache
    requires w.cache[Candidate(Base(a), i)].spec.machineID != a.job.spec.machineID
    ensures LookUp(w.(probing := {a.(index := i)}), a.(index := i)) == w.(probing := {a.(index := i + 1)})
  {
    assert {a.(index := i)} - {a.(index := i)} + {a.(index := i + 1)} == {a.(index := i + 1)};
  }

  lemma LookEnds(w: World, a: Attempt, i: nat)
    requires i >= 1
    ensures var name, w' := Candidate(Base(a), i), LookUp(w.(probing := {a.(index := i)}), a.(index := i));
            && (name !in w.cache ==> w' == w.(probing := {}, creating := w.creating + {a.(index := i)}))
            && (name in w.cache && w.cache[name].spec.machineID == a.job.spec.machineID ==> w' == w.(probing := {}))
  {
    assert {a.(index := i)} - {a.(index := i)} == {};
  }

  /** An owner reference the dependency gate accepts for a Maintenance of this name. */
  predicate OwnedBy(job: MaintenanceJob, mt: string) {
    exists o :: o in job.owners && o.kind == "Maintenance" && o.name == mt
  }

  lemma CandidateHasPrefix(mt: string, node: string, i: nat)
    requires i >= 1
    ensures mt + "." <= Candidate(BaseName(mt, node), i)
  {
    CandidateSplits(mt, node, i);
  }

  /** In every run, with any deletions, the name prefix test loses no cached job that the owner test would accept. */
  lemma PrefixTestLosesNothing(steps: seq<Step>, n: string, mt: string)
    requires n in Execute(EMPTY, steps).cache && OwnedBy(Execute(EMPTY, steps).cache[n], mt)
    ensures mt + "." <= n
  {
    RunKeepsInv(EMPTY, steps);
    var job := Execute(EMPTY, steps).cache[n];
    assert Known(n, job);
    var owner, uid, node, i: nat :| KnownAs(n, job, owner, uid, node, i);
    assert job.owners[0].name == owner;
    CandidateHasPrefix(owner, node, i);
  }

  /**
   In every run, with any deletions, a job created for a Maintenance and a node is owned by that
   Maintenance and carries that node.
   */
  lemma CreatedJobMatchesOrigin(steps: seq<Step>, n: string)
    requires n in Execute(EMPTY, steps).origin
    ensures var w := Execute(EMPTY, steps);
            n in w.server && OwnedBy(w.server[n], w.origin[n].mt) && w.server[n].spec.nodeName == w.origin[n].node
  {
    RunKeepsInv(EMPTY, steps);
    var w := Execute(EMPTY, steps);
    assert CreatedOk(w.server, n, w.origin[n]);
    assert w.server[n].owners[0] in w.server[n].owners;
  }

  // ---------------------------------------------------------------------- deletions that do harm

  predicate NoDeletion(steps: seq<Step>) {
    forall k :: 0 <= k < |steps| ==> !steps[k].Delete?
  }

  /** There is a continuation without deletions that leads from `w` to `w'`. */
  ghost predicate Reaches(w: World, w': World) {
    exists steps :: NoDeletion(steps) && Execute(w, steps) == w'
  }

  lemma ReachesSelf(w: World)
    ensures Reaches(w, w)
  {
    assert NoDeletion([]) && Execute(w, []) == w;
  }

  lemma ReachesStep(w: World, v: World, step: Step, v': World)
    requires Reaches(w, v) && v' == Apply(v, step) && !step.Delete?
    ensures Reaches(w, v')
  {
    var steps :| NoDeletion(steps) && Execute(w, steps) == v;
    assert (steps + [step])[..|steps|] == steps;
    assert NoDeletion(steps + [step]) && Execute(w, steps + [step]) == v';
  }

  /** A pass that has come to candidate `i` of a name free in the cache and on the server creates the job. */
  lemma CreatesAt(w: World, v: World, a: Attempt) returns (v': World)
    requires Reaches(w, v) && a in v.probing && a.index >= 1
    requires Candidate(Base(a), a.index) !in v.cache && Candidate(Base(a), a.index) !in v.server
    ensures var name := Candidate(Base(a), a.index);
            && Reaches(w, v') && v'.cache == v.cache
            && v'.server == v.server[name := a.job.(name := name)]
            && v'.origin == v.origin[name := Origin(a.mt.name, a.node, a.index)]
  {
    var u := Apply(v, Look(a));
    ReachesStep(w, v, Look(a), u);
    v' := Apply(u, Create(a, Acked));
    ReachesStep(w, u, Create(a, Acked), v');
  }

  lemma OneMoreTaken(cache: map<string, MaintenanceJob>, base: string, n: nat)
    requires n >= 1 && Taken(Specs(cache), base, n - 1) && Candidate(base, n) in cache
    ensures Taken(Specs(cache), base, n) && n <= |cache|
  {
    TakenBound(Specs(cache), base, n);
    assert Specs(cache).Keys == cache.Keys;
    assert |Specs(cache)| == |Specs(cache).Keys|;
  }

  /** The probe loop, in a world whose cache shows no job of this machine, comes to the least free candidate. */
  lemma {:induction false} ProbesOn(w: World, v: World, a: Attempt) returns (v': World, i: nat)
    requires Reaches(w, v) && a in v.probing && a.index >= 1
    requires Taken(Specs(v.cache), Base(a), a.index - 1)
    requires forall n :: n in v.cache ==> v.cache[n].spec.machineID != a.job.spec.machineID
    ensures Reaches(w, v') && i >= a.index && a.(index := i) in v'.probing && Candidate(Base(a), i) !in v.cache
    ensures v'.server == v.server && v'.cache == v.cache && v'.origin == v.origin
    decreases |v.cache| + 1 - a.index
  {
    if Candidate(Base(a), a.index) in v.cache {
      OneMoreTaken(v.cache, Base(a), a.index);
      var u := Apply(v, Look(a));
      ReachesStep(w, v, Look(a), u);
      v', i := ProbesOn(w, u, a.(index := a.index + 1));
    } else {
      v', i := v, a.index;
    }
  }

  lemma {:induction false} LongerThanAll(s: set<string>) returns (n: nat)
    ensures forall x :: x in s ==> |x| < n
  {
    if s == {} {
      n := 0;
    } else {
      var y :| y in s;
      n := LongerThanAll(s - {y});
      n := if |y| < n then n else |y| + 1;
      assert forall x :: x in s ==> x == y || x in s - {y};
    }
  }

  /** There is a machine ID that no job has. */
  lemma FreshMachine(w: World) returns (machineID: string)
    ensures forall n :: n in w.server ==> w.server[n].spec.machineID != machineID
    ensures forall n :: n in w.cache ==> w.cache[n].spec.machineID != machineID
  {
    var onServer := set n | n in w.server :: w.server[n].spec.machineID;
    var ids := onServer + set n | n in w.cache :: w.cache[n].spec.machineID;
    var n := LongerThanAll(ids);
    machineID := seq(n, i => 'a');
    assert machineID !in ids;
  }

  /** Such a name is the first candidate of some Maintenance and node. */
  lemma SplitsAtDot(n: string) returns (mt: string, node: string)
    requires CouldBeJobName(n)
    ensures mt != "" && node != "" && n == Candidate(BaseName(mt, node), 1)
  {
    var p :| 0 < p < |n| - 1 && n[p] == '.';
    mt, node := n[..p], n[p + 1..];
    assert n == n[..p] + [n[p]] + n[p + 1..];
  }

  function JobOf(mt: string, node: string, machineID: string): MaintenanceJob {
    MaintenanceJob(BaseName(mt, node), "", map[], [OwnerRef("Maintenance", mt, "", Some(true), Some(true))],
      "", ZERO_TIME, JobSpec(node, machineID, []), JobStatus(None, None, []))
  }

  /** While the cache still shows the deleted job, a new machine is passed on to a later candidate. */
  lemma CreatesBehind(w: World, d: string, mt: string, node: string, machineID: string) returns (w': World, i: nat)
    requires mt != "" && node != "" && d == Candidate(BaseName(mt, node), 1) && d in w.cache && d !in w.server
    requires forall n :: n in w.server ==> w.server[n].spec.machineID != machineID
    requires forall n :: n in w.cache ==> w.cache[n].spec.machineID != machineID
    ensures i > 1
    ensures var name := Candidate(BaseName(mt, node), i);
            && Reaches(w, w') && d !in w'.server
            && name in w'.origin && w'.origin[name] == Origin(mt, node, i)
            && name in w'.server && w'.server[name].spec.machineID == machineID
  {
    var ref, job := MaintenanceRef(mt, "", map[]), JobOf(mt, node, machineID);
    var a := Attempt(ref, node, job, 1);
    ReachesSelf(w);
    var w1 := Apply(w, Sync(w.server.Keys));
    ReachesStep(w, w, Sync(w.server.Keys), w1);
    var w2 := Apply(w1, Start(ref, node, job));
    ReachesStep(w, w1, Start(ref, node, job), w2);
    var w3;
    w3, i := ProbesOn(w, w2, a);
    w' := CreatesAt(w, w3, a.(index := i));
    if Candidate(BaseName(mt, node), i) == d {
      CandidateInjective(BaseName(mt, node), i, 1);
    }
  }

  /** Once the cache has learnt of the deletion, the same machine gets the freed name as well. */
  lemma CreatesAgain(w: World, d: string, mt: string, node: string, machineID: string) returns (w': World)
    requires mt != "" && node != "" && d == Candidate(BaseName(mt, node), 1) && d !in w.server
    ensures Reaches(w, w') && d in w'.origin && w'.origin[d] == Origin(mt, node, 1)
    ensures d in w'.server && w'.server[d].spec.machineID == machineID
    ensures forall n :: n != d && n in w.server ==> n in w'.server && w'.server[n] == w.server[n]
    ensures forall n :: n != d && n in w.origin ==> n in w'.origin && w'.origin[n] == w.origin[n]
  {
    var ref, job := MaintenanceRef(mt, "", map[]), JobOf(mt, node, machineID);
    var a := Attempt(ref, node, job, 1);
    ReachesSelf(w);
    var w1 := Apply(w, Sync({d}));
    ReachesStep(w, w, Sync({d}), w1);
    var w2 := Apply(w1, Start(ref, node, job));
    ReachesStep(w, w1, Start(ref, node, job), w2);
    w' := CreatesAt(w, w2, a);
  }

  lemma ReachesOn(w: World, v: World, u: World)
    requires Reaches(w, v) && Reaches(v, u)
    ensures Reaches(w, u)
  {
    var steps :| NoDeletion(steps) && Execute(v, steps) == u;
    ReachesSteps(w, v, steps);
  }

  lemma {:induction false} ReachesSteps(w: World, v: World, steps: seq<Step>)
    requires Reaches(w, v) && NoDeletion(steps)
    ensures Reaches(w, Execute(v, steps))
  {
    if steps != [] {
      var n := |steps| - 1;
      ReachesSteps(w, v, steps[..n]);
      ReachesStep(w, Execute(v, steps[..n]), steps[n], Execute(v, steps));
    }
  }

  /** A run that creates a job for one machine, and then one for another machine that took the node name over. */
  lemma TwoMachines(mt: string, node: string, first: string, second: string) returns (w: World)
    requires mt != "" && node != "" && first != second
    ensures Reaches(EMPTY, w)
    ensures var name := Candidate(BaseName(mt, node), 2);
            && name in w.origin && w.origin[name] == Origin(mt, node, 2)
            && name in w.server && w.server[name].spec.machineID == second
  {
    var base, ref := BaseName(mt, node), MaintenanceRef(mt, "", map[]);
    var w2 := OneMachine(mt, node, first);
    var w3 := Apply(w2, Sync({base}));
    ReachesStep(EMPTY, w2, Sync({base}), w3);
    var b := Attempt(ref, node, JobOf(mt, node, second), 1);
    var w4 := Apply(w3, Start(ref, node, b.job));
    ReachesStep(EMPTY, w3, Start(ref, node, b.job), w4);
    var w5 := Apply(w4, Look(b));
    ReachesStep(EMPTY, w4, Look(b), w5);
    if Candidate(base, 2) == base {
      CandidateInjective(base, 2, 1);
    }
    w := CreatesAt(EMPTY, w5, b.(index := 2));
  }

  lemma OneMachine(mt: string, node: string, machineID: string) returns (w: World)
    requires mt != "" && node != ""
    ensures Reaches(EMPTY, w) && w.cache == map[] && w.server.Keys == {BaseName(mt, node)}
    ensures w.server[BaseName(mt, node)].spec.machineID == machineID
  {
    var ref := MaintenanceRef(mt, "", map[]);
    var a := Attempt(ref, node, JobOf(mt, node, machineID), 1);
    ReachesSelf(EMPTY);
    var w1 := Apply(EMPTY, Start(ref, node, a.job));
    ReachesStep(EMPTY, EMPTY, Start(ref, node, a.job), w1);
    w := CreatesAt(EMPTY, w1, a);
  }

  /**
   The plainest such run: the first of those two jobs is deleted, and the second machine gets the freed
   name as well.
   */
  lemma DeletionAllowsDuplicate(mt: string, node: string, first: string, second: string)
    returns (before: seq<Step>, after: seq<Step>)
    requires mt != "" && node != "" && first != second
    ensures NoDeletion(before) && NoDeletion(after)
    ensures !OnePerMachine(Execute(Apply(Execute(EMPTY, before), Delete(BaseName(mt, node))), after))
  {
    var base := BaseName(mt, node);
    var w := TwoMachines(mt, node, first, second);
    before :| NoDeletion(before) && Execute(EMPTY, before) == w;
    if Candidate(base, 2) == base {
      CandidateInjective(base, 2, 1);
    }
    var w' := CreatesAgain(Apply(w, Delete(base)), base, mt, node, second);
    assert SameMachine(w', base, Candidate(base, 2));
    after :| NoDeletion(after) && Execute(Apply(w, Delete(base)), after) == w';
  }

  /** A deletion that is not harmless has a continuation, without further deletions, that gives one machine two jobs. */
  lemma HarmfulDeletion(w: World, d: string) returns (steps: seq<Step>)
    requires !Harmless(w, d)
    ensures NoDeletion(steps) && !OnePerMachine(Execute(Apply(w, Delete(d)), steps))
  {
    var w0 := Apply(w, Delete(d));
    var mt, node := SplitsAtDot(d);
    var machineID := FreshMachine(w0);
    var w1, i := CreatesBehind(w0, d, mt, node, machineID);
    var w2 := CreatesAgain(w1, d, mt, node, machineID);
    ReachesOn(w0, w1, w2);
    var name := Candidate(BaseName(mt, node), i);
    if name == d {
      CandidateInjective(BaseName(mt, node), i, 1);
    }
    assert w2.origin[name] == Origin(mt, node, i) && SameMachine(w2, name, d);
    steps :| NoDeletion(steps) && Execute(w0, steps) == w2;
  }

  /**
   Exactly which deletions keep the guarantee, after any run in which it was kept so far: those of jobs
   the cache has not seen yet, and those of names that are no job names.
   */
  lemma DeletionSafeIff(steps: seq<Step>, d: string)
    requires AllHarmless(EMPTY, steps)
    ensures (forall more :: NoDeletion(more) ==> OnePerMachine(Execute(Apply(Execute(EMPTY, steps), Delete(d)), more)))
       <==> Harmless(Execute(EMPTY, steps), d)
  {
    var w := Execute(EMPTY, steps);
    RunOrderly(EMPTY, steps);
    if Harmless(w, d) {
      StepOrderly(w, Delete(d));
      forall more | NoDeletion(more) ensures OnePerMachine(Execute(Apply(w, Delete(d)), more)) {
        RunOrderly(Apply(w, Delete(d)), more);
        OrderlyIsOnePerMachine(Execute(Apply(w, Delete(d)), more));
      }
    } else {
      var more := HarmfulDeletion(w, d);
    }
  }
}
