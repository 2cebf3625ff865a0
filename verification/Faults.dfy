/** One reconciler whose calls fail in any way: it never undoes what is settled, and at every moment of a reconcile
    each child is as it was or as its task makes it. */
module Faults {
  import opened Wrappers
  import opened PlusTypes
  import opened Api
  import opened Children
  import opened Reconciling
  import opened Settling
  import opened CalmStages
  import opened CalmReconciles
  import opened Phases

  /** The tasks that may write, stage by stage. */
  function Tasks(d: Design): seq<Task> {
    DeploymentTasks(d) + ServiceTasks(d) + [ApplyDestinationRule] + VirtualServiceTasks(d) + AutoscalerTasks(d)
  }

  /** With nobody else about, the pending write is the one for what is stored now. */
  predicate Current(p: Proc, s: Store) {
    p.phase.Working? && HasTask(p.phase.run) && p.phase.run.pending.Some? ==>
      var run := p.phase.run;
      var t := HeadTask(run);
      Decide(run.plus.design, t, ViewSlot(At(s, KeyOf(run.plus.design, t))))
      == Issue(run.pending.value.verb, run.pending.value.halt)
  }

  lemma {:induction false} EnterDecidesNothing(run: Run)
    requires run.pending.None?
    ensures Enter(run).Working? ==> Enter(run).run.pending.None?
    decreases |run.todo|
  {
    if run.todo != [] && run.todo[0] == [] {
      EnterDecidesNothing(run.(todo := run.todo[1..]));
    }
  }

  lemma ResumeRunDecides(run: Run, r: Response)
    requires HasTask(run)
    ensures var next := ResumeRun(run, r);
      next.Working? && next.run.pending.Some? ==>
        && run.pending.None? && !r.Failed? && next.run.plus == run.plus && next.run.todo == run.todo
        && Decide(run.plus.design, HeadTask(run), View(r))
           == Issue(next.run.pending.value.verb, next.run.pending.value.halt)
  {
    EnterDecidesNothing(run.(todo := run.todo[1..], pending := None));
    EnterDecidesNothing(run.(plus := Failing(run.plus), todo := run.todo[1..], pending := None));
    EnterDecidesNothing(run.(todo := [run.todo[0][1..]] + run.todo[1..], pending := None));
    if Decide(run.plus.design, HeadTask(run), View(r)).Note? {
      var plus := Noted(run.plus, HeadTask(run), Decide(run.plus.design, HeadTask(run), View(r)).available);
      EnterDecidesNothing(run.(plus := plus, todo := [run.todo[0][1..]] + run.todo[1..], pending := None));
    }
  }

  lemma BeginDecidesNothing(plus: Plus, version: nat)
    ensures Begin(plus, version).Working? ==> Begin(plus, version).run.pending.None?
  {
    EnterDecidesNothing(Run(Succeeding(plus), plus.status, version, Stages(plus.design), None));
  }

  lemma ActCurrent(p: Proc, s: Store, fate: Fate)
    requires Current(p, s)
    ensures Current(Act(p, s, fate).0, Act(p, s, fate).1)
  {
    if Ask(p).Some? {
      var (s', r) := Execute(s, Ask(p).value, fate);
      match p.phase
      case Fetch =>
        if r.Found? && r.obj.PlusObject? { BeginDecidesNothing(r.obj.plus, r.version); }
      case AddFinalizer(_, _) =>
        if r.Stored? && r.obj.PlusObject? { BeginDecidesNothing(r.obj.plus, r.version); }
      case Working(run) => ResumeRunDecides(run, r);
      case RemoveFinalizer(_, _) =>
      case WriteStatus(_, _) =>
      case Finished(_) =>
    }
  }

  /** A call carries out the head task's effect, or changes no child. */
  lemma ActEffect(d: Design, p: Proc, s: Store, fate: Fate, k: Key)
    requires Sound(d, p) && Current(p, s) && k.kind != PlusKind
    ensures At(Act(p, s, fate).1, k) == At(s, k)
         || (&& p.phase.Working? && p.phase.run.pending.Some? && k == KeyOf(d, HeadTask(p.phase.run))
             && At(Act(p, s, fate).1, k) == Effect(d, HeadTask(p.phase.run), At(s, k)))
  {
    if Ask(p).Some? {
      AsksOwnKey(d, p);
    }
  }

  // ----- tasks that share a key -----

  lemma StageTaskWrites(d: Design, i: nat, t: Task)
    requires i < 6 && t in Stages(d)[i] && !t.ReadStatus?
    ensures t in Tasks(d)
  {
  }

  lemma SameNameSameApp(d: Design, a: App, b: App)
    requires DistinctVersions(d.spec.apps) && a in d.spec.apps && b in d.spec.apps && AppName(d, a) == AppName(d, b)
    ensures a == b
  {
    AppNameInjective(d, a, b);
    var i :| 0 <= i < |d.spec.apps| && d.spec.apps[i] == a;
    var j :| 0 <= j < |d.spec.apps| && d.spec.apps[j] == b;
    assert !(i < j) && !(j < i);
  }

  lemma TaskOfApp(d: Design, t: Task)
    requires t in Tasks(d)
    ensures !t.ReadStatus?
    ensures t.ApplyDeployment? || t.ApplyService? || t.ApplyAutoscaler? ==> t.app in d.spec.apps
  {
  }

  /** Only the apps' turns at the Service share a key. */
  lemma SharedKey(d: Design, t: Task, u: Task)
    requires DistinctVersions(d.spec.apps)
    requires t in Tasks(d) && u in Tasks(d) && KeyOf(d, t) == KeyOf(d, u)
    ensures t == u || (t.ApplyService? && u.ApplyService?)
  {
    TaskOfApp(d, t);
    TaskOfApp(d, u);
    if (t.ApplyDeployment? && u.ApplyDeployment?) || (t.ApplyAutoscaler? && u.ApplyAutoscaler?) {
      SameNameSameApp(d, t.app, u.app);
    } else if KeyOf(d, t).kind == VirtualServiceKind {
      assert KeyOf(d, ApplyGateway).name[|d.name|..] == "-gateway" && KeyOf(d, ApplyMesh).name[|d.name|..] == "";
    }
  }

  /** Apps that agree on the port, each with a version of its own. */
  ghost predicate Uniform(d: Design) {
    DistinctVersions(d.spec.apps) && UniformPorts(d.spec.apps)
  }

  lemma SharedKeySameEffect(d: Design, t: Task, u: Task, slot: Slot)
    requires Uniform(d) && t in Tasks(d) && u in Tasks(d) && KeyOf(d, t) == KeyOf(d, u)
    ensures Effect(d, t, slot) == Effect(d, u, slot)
  {
    SharedKey(d, t, u);
    if t != u {
      TaskOfApp(d, t);
      TaskOfApp(d, u);
      assert ServicePorts(t.app) == ServicePorts(u.app);
      assert Decide(d, t, ViewSlot(slot)) == Decide(d, u, ViewSlot(slot));
    }
  }

  /** A call that changes a child carries out some task's effect on it. */
  lemma WriterOf(d: Design, p: Proc, s: Store, fate: Fate, k: Key) returns (t: Task)
    requires Sound(d, p) && Current(p, s) && k.kind != PlusKind && At(Act(p, s, fate).1, k) != At(s, k)
    ensures p.phase.Working? && t == HeadTask(p.phase.run) && p.phase.run.pending.Some?
    ensures t in Tasks(d) && KeyOf(d, t) == k && At(Act(p, s, fate).1, k) == Effect(d, t, At(s, k))
  {
    ActEffect(d, p, s, fate, k);
    var run := p.phase.run;
    t := HeadTask(run);
    HeadIsAhead(d, run);
    StageTaskWrites(d, 6 - |run.todo|, t);
  }

  // ----- what is settled stays settled -----

  /** A reconciler alone with the store, anywhere in any of its reconciles. */
  ghost predicate Alone(d: Design, p: Proc, s: Store) {
    Sound(d, p) && Designed(d, s) && Current(p, s)
  }

  lemma ActAlone(d: Design, p: Proc, s: Store, fate: Fate)
    requires Alone(d, p, s)
    ensures Alone(d, Act(p, s, fate).0, Act(p, s, fate).1)
  {
    ActSound(d, p, s, fate);
    ActCurrent(p, s, fate);
  }

  /** Every task on this key has nothing to do. */
  ghost predicate KeySettled(d: Design, s: Store, k: Key) {
    forall t | t in Tasks(d) && KeyOf(d, t) == k :: Settled(d, t, At(s, k))
  }

  lemma SettledTaskWritesNothing(d: Design, s: Store, k: Key, t: Task)
    requires KeySettled(d, s, k) && t in Tasks(d) && KeyOf(d, t) == k
    ensures Effect(d, t, At(s, k)) == At(s, k)
  {
    assert Settled(d, t, At(s, k));
  }

  lemma SettledActStays(d: Design, p: Proc, s: Store, fate: Fate, k: Key)
    requires Alone(d, p, s) && KeySettled(d, s, k) && k.kind != PlusKind
    ensures At(Act(p, s, fate).1, k) == At(s, k)
  {
    if At(Act(p, s, fate).1, k) != At(s, k) {
      var t := WriterOf(d, p, s, fate, k);
      SettledTaskWritesNothing(d, s, k, t);
    }
  }

  /** Over any number of reconciles, however their calls fail, a settled child is not touched again. */
  lemma {:induction false} SettledStays(d: Design, p: Proc, s: Store, fates: seq<Fate>, k: Key)
    requires Alone(d, p, s) && KeySettled(d, s, k) && k.kind != PlusKind
    ensures At(Acts(p, s, fates).1, k) == At(s, k)
    decreases |fates|
  {
    if fates != [] {
      var (p', s') := Act(p, s, fates[0]);
      ActAlone(d, p, s, fates[0]);
      SettledActStays(d, p, s, fates[0], k);
      SettledStays(d, p', s', fates[1..], k);
    }
  }

  /** The keys whose contents are not as some task wants them. */
  function Unsettled(d: Design, s: Store): set<Key> {
    set t | t in Tasks(d) && !Settled(d, t, At(s, KeyOf(d, t))) :: KeyOf(d, t)
  }

  /** The set of unsettled keys never grows, whatever the design and whatever becomes of the calls. */
  lemma UnsettledShrinks(d: Design, p: Proc, s: Store, fates: seq<Fate>)
    requires Alone(d, p, s)
    ensures Unsettled(d, Acts(p, s, fates).1) <= Unsettled(d, s)
  {
    var s' := Acts(p, s, fates).1;
    forall t | t in Tasks(d) && !Settled(d, t, At(s', KeyOf(d, t)))
      ensures KeyOf(d, t) in Unsettled(d, s)
    {
      TaskOfApp(d, t);
      if KeySettled(d, s, KeyOf(d, t)) {
        SettledStays(d, p, s, fates, KeyOf(d, t));
      }
    }
  }

  // ----- within one reconcile -----

  /** These calls all belong to one reconcile. */
  ghost predicate OneReconcile(p: Proc, s: Store, fates: seq<Fate>)
    decreases |fates|
  {
    fates == [] || (Ask(p).Some? && OneReconcile(Act(p, s, fates[0]).0, Act(p, s, fates[0]).1, fates[1..]))
  }

  /** A Deployment whose turn is still to come. */
  predicate Awaited(p: Proc, t: Task) {
    t.ApplyDeployment? &&
    (p.phase.Fetch? || p.phase.AddFinalizer?
     || (p.phase.Working? && |p.phase.run.todo| == 6 && t in p.phase.run.todo[0]))
  }

  /** The child is as it was or as its task makes it; while it is awaited it is as it was. */
  predicate OldOrNew(d: Design, before: Store, p: Proc, s: Store, t: Task) {
    var k := KeyOf(d, t);
    At(s, k) == At(before, k) || (At(s, k) == Effect(d, t, At(before, k)) && !Awaited(p, t))
  }

  lemma EnterAwaits(key: Key, run: Run, t: Task)
    requires Awaited(Proc(key, Enter(run)), t) && |run.todo| <= 6
    ensures |run.todo| == 6 && t in run.todo[0]
  {
    EnterGoesOn(run);
  }

  lemma TailForgetsHead(d: Design, run: Run)
    requires DistinctVersions(d.spec.apps) && HasTask(run) && Ahead(d, run.todo) && |run.todo| == 6
    ensures HeadTask(run) !in run.todo[0][1..]
  {
    var stage, apps := DeploymentTasks(d), d.spec.apps;
    var at := |stage| - |run.todo[0]|;
    assert run.todo[0] == stage[at..];
    forall i | 0 < i < |run.todo[0]|
      ensures run.todo[0][i] != HeadTask(run)
    {
      assert apps[at].version != apps[at + i].version;
    }
  }

  lemma NextTaskAwaits(d: Design, key: Key, run: Run, t: Task)
    requires DistinctVersions(d.spec.apps) && HasTask(run) && Ahead(d, run.todo)
    requires Awaited(Proc(key, NextTask(run)), t)
    ensures |run.todo| == 6 && t in run.todo[0] && t != HeadTask(run)
  {
    EnterAwaits(key, run.(todo := [run.todo[0][1..]] + run.todo[1..], pending := None), t);
    TailForgetsHead(d, run);
  }

  lemma NextStageAwaitsNothing(key: Key, run: Run, t: Task)
    requires HasTask(run) && |run.todo| <= 6
    ensures !Awaited(Proc(key, NextStage(run)), t)
  {
    EnterGoesOn(run.(todo := run.todo[1..], pending := None));
  }

  /** What is awaited after an answer was awaited before, and its write was not the one answered. */
  lemma RunAwaits(d: Design, key: Key, run: Run, r: Response, t: Task)
    requires DistinctVersions(d.spec.apps) && HasTask(run) && Ahead(d, run.todo)
    requires Awaited(Proc(key, ResumeRun(run, r)), t)
    ensures |run.todo| == 6 && t in run.todo[0]
    ensures run.pending.Some? ==> t != HeadTask(run)
  {
    NextStageAwaitsNothing(key, run, t);
    NextStageAwaitsNothing(key, run.(plus := Failing(run.plus)), t);
    if ResumeRun(run, r) == NextTask(run) {
      NextTaskAwaits(d, key, run, t);
    } else {
      match Decide(run.plus.design, HeadTask(run), View(r))
      case Note(n) => NextTaskAwaits(d, key, run.(plus := Noted(run.plus, HeadTask(run), n)), t);
      case Skip =>
      case Halt =>
      case Issue(_, _) =>
    }
  }

  lemma ActAwaits(d: Design, p: Proc, s: Store, fate: Fate, t: Task)
    requires DistinctVersions(d.spec.apps) && Sound(d, p) && Ask(p).Some? && Awaited(Act(p, s, fate).0, t)
    ensures Awaited(p, t)
    ensures p.phase.Working? && p.phase.run.pending.Some? ==> t != HeadTask(p.phase.run)
  {
    if p.phase.Working? {
      RunAwaits(d, p.key, p.phase.run, Execute(s, Ask(p).value, fate).1, t);
    }
  }

  lemma WriterAwaited(d: Design, p: Proc, t: Task)
    requires Sound(d, p) && p.phase.Working? && t == HeadTask(p.phase.run) && t.ApplyDeployment?
    ensures Awaited(p, t)
  {
    HeadIsAhead(d, p.phase.run);
  }

  lemma ActOldOrNew(d: Design, before: Store, p: Proc, s: Store, fate: Fate, t: Task)
    requires Uniform(d) && WellTyped(before) && Alone(d, p, s) && Ask(p).Some? && t in Tasks(d)
    requires OldOrNew(d, before, p, s, t)
    ensures OldOrNew(d, before, Act(p, s, fate).0, Act(p, s, fate).1, t)
  {
    var (p', s') := Act(p, s, fate);
    var k := KeyOf(d, t);
    TaskOfApp(d, t);
    if At(s', k) != At(s, k) {
      var w := WriterOf(d, p, s, fate, k);
      SharedKey(d, t, w);
      SharedKeySameEffect(d, t, w, At(s, k));
      if t.ApplyDeployment? {
        WriterAwaited(d, p, t);
      } else {
        EffectSettles(d, t, At(before, k));
      }
    }
    if Awaited(p', t) {
      ActAwaits(d, p, s, fate, t);
    }
  }

  lemma {:induction false} ActsOldOrNew(d: Design, before: Store, p: Proc, s: Store, fates: seq<Fate>, t: Task)
    requires Uniform(d) && WellTyped(before) && Alone(d, p, s) && OneReconcile(p, s, fates) && t in Tasks(d)
    requires OldOrNew(d, before, p, s, t)
    ensures OldOrNew(d, before, Acts(p, s, fates).0, Acts(p, s, fates).1, t)
    decreases |fates|
  {
    if fates != [] {
      var (p', s') := Act(p, s, fates[0]);
      ActAlone(d, p, s, fates[0]);
      ActOldOrNew(d, before, p, s, fates[0], t);
      ActsOldOrNew(d, before, p', s', fates[1..], t);
    }
  }

  /** At every moment of a reconcile, after any calls with any fates, a child is what it was before the reconcile
      or what its task makes of that: no third state, and nothing half done within a child. */
  lemma ReconcileIsOldOrNew(d: Design, s: Store, fates: seq<Fate>, t: Task)
    requires Uniform(d) && WellTyped(s) && Designed(d, s) && t in Tasks(d)
    requires OneReconcile(Proc(PlusKey(d), Fetch), s, fates)
    ensures var k, s' := KeyOf(d, t), Acts(Proc(PlusKey(d), Fetch), s, fates).1;
      At(s', k) == At(s, k) || At(s', k) == Effect(d, t, At(s, k))
  {
    ActsOldOrNew(d, s, Proc(PlusKey(d), Fetch), s, fates, t);
  }

  /** What a Deployment's task makes of its slot when it changes it. */
  lemma NewDeployment(d: Design, app: App, slot: Slot)
    requires var t := ApplyDeployment(app);
      SlotTyped(d, t, slot) && Effect(d, t, slot) != slot
    ensures var content := Effect(d, ApplyDeployment(app), slot).content;
      if app.minReplicas == -1 then content.None?
      else
        && content.Some? && content.value.DeploymentObject?
        && (DeploymentAgrees(d, app, content.value.deployment) || content == Some(Wanted(d, ApplyDeployment(app))))
  {
    if slot.content.Some? {
      CarriedAgrees(d, app, slot.content.value.deployment);
    }
  }

  /** What any other task makes of it. */
  lemma NewContents(d: Design, t: Task, slot: Slot)
    requires t in Tasks(d) && !t.ApplyDeployment? && SlotTyped(d, t, slot) && Effect(d, t, slot) != slot
    ensures Effect(d, t, slot).content == if Unwanted(d, t) then None else Some(Wanted(d, t))
  {
    TaskOfApp(d, t);
  }

  /** Keys the Plus does not own are never touched. */
  lemma {:induction false} OthersUntouched(d: Design, p: Proc, s: Store, fates: seq<Fate>, k: Key)
    requires Sound(d, p) && Designed(d, s) && !Owns(d, k)
    ensures At(Acts(p, s, fates).1, k) == At(s, k)
    decreases |fates|
  {
    if fates != [] {
      var (p', s') := Act(p, s, fates[0]);
      ActSound(d, p, s, fates[0]);
      ActFrame(d, p, s, fates[0], k);
      OthersUntouched(d, p', s', fates[1..], k);
    }
  }

  // ----- what a Deployment carries over, over whole runs -----

  predicate DeploymentStored(d: Design, app: App, s: Store) {
    var content := At(s, KeyOf(d, ApplyDeployment(app))).content;
    content.Some? && content.value.DeploymentObject?
  }

  function StoredDeployment(d: Design, app: App, s: Store): DeploymentSpec
    requires DeploymentStored(d, app, s)
  {
    At(s, KeyOf(d, ApplyDeployment(app))).content.value.deployment
  }

  /** Every app of the version leaves the mark, the count, or the resources as they are. */
  ghost predicate MarkLeft(d: Design, app: App, stored: DeploymentSpec) {
    forall b | b in d.spec.apps && Share(app, b) :: LeavesMark(b, stored)
  }

  ghost predicate CountLeft(d: Design, app: App, stored: DeploymentSpec) {
    forall b | b in d.spec.apps && Share(app, b) :: LeavesCount(b, stored)
  }

  ghost predicate ResourcesLeft(d: Design, app: App, stored: DeploymentSpec) {
    forall b | b in d.spec.apps && Share(app, b) :: LeavesResources(b, stored)
  }

  ghost predicate CarriedOver(d: Design, app: App, before: DeploymentSpec, after: DeploymentSpec) {
    && (MarkLeft(d, app, before) ==>
          Lookup(after.podAnnotations, RESTART_MARK) == Lookup(before.podAnnotations, RESTART_MARK))
    && (CountLeft(d, app, before) ==> after.replicas == before.replicas)
    && (ResourcesLeft(d, app, before) ==> after.resources == before.resources)
  }

  lemma CarriedOn(d: Design, app: App, before: DeploymentSpec, between: DeploymentSpec, after: DeploymentSpec)
    requires CarriedOver(d, app, before, between) && CarriedOver(d, app, between, after)
    ensures CarriedOver(d, app, before, after)
  {
  }

  /** All apps of the version want a Deployment. */
  ghost predicate Wants(d: Design, app: App) {
    forall b | b in d.spec.apps && Share(app, b) :: b.minReplicas != -1
  }

  lemma ActCarriesOver(d: Design, p: Proc, s: Store, fate: Fate, app: App)
    requires Alone(d, p, s) && Wants(d, app) && DeploymentStored(d, app, s)
    ensures var s' := Act(p, s, fate).1;
      DeploymentStored(d, app, s') && CarriedOver(d, app, StoredDeployment(d, app, s), StoredDeployment(d, app, s'))
  {
    var k := KeyOf(d, ApplyDeployment(app));
    if At(Act(p, s, fate).1, k) != At(s, k) {
      var w := WriterOf(d, p, s, fate, k);
      TaskOfApp(d, w);
      AppNameInjective(d, app, w.app);
      ApplyLeavesIff(d, w.app, At(s, k));
    }
  }

  /** Over any number of reconciles, however their calls fail: the stored restart mark stays while every app of the
      version sets none or that one, the count while it suits all of them, and all the resources while CPU and memory
      are as all of them want them. */
  lemma {:induction false} CarriesOverForever(d: Design, p: Proc, s: Store, fates: seq<Fate>, app: App)
    requires Alone(d, p, s) && Wants(d, app) && DeploymentStored(d, app, s)
    ensures var s' := Acts(p, s, fates).1;
      DeploymentStored(d, app, s') && CarriedOver(d, app, StoredDeployment(d, app, s), StoredDeployment(d, app, s'))
    decreases |fates|
  {
    if fates != [] {
      var (p', s') := Act(p, s, fates[0]);
      ActAlone(d, p, s, fates[0]);
      ActCarriesOver(d, p, s, fates[0], app);
      CarriesOverForever(d, p', s', fates[1..], app);
      CarriedOn(d, app, StoredDeployment(d, app, s), StoredDeployment(d, app, s'),
                StoredDeployment(d, app, Acts(p', s', fates[1..]).1));
    }
  }
}
