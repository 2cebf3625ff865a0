/** What one reconcile of a live Plus does to the store when no call fails. */
module CalmReconciles {
  import opened Wrappers
  import opened PlusTypes
  import opened Api
  import opened Children
  import opened Finalizers
  import opened Reconciling
  import opened CalmStages

  function PlusKey(d: Design): Key {
    Key(PlusKind, d.ns, d.name)
  }

  // ----- what one calm reconcile does to the store -----

  /** The six stages, one after the other. */
  function StagesEffect(d: Design, stages: seq<seq<Task>>, s: Store): Store
    decreases |stages|
  {
    if stages == [] then s else StagesEffect(d, stages[1..], StageEffect(d, stages[0], s))
  }

  function StagesNoted(plus: Plus, stages: seq<seq<Task>>, s: Store): (r: Plus)
    ensures r.design == plus.design
    decreases |stages|
  {
    if stages == [] then plus
    else StagesNoted(StageNoted(plus, stages[0], s), stages[1..], StageEffect(plus.design, stages[0], s))
  }

  lemma {:induction false} CalmStagesRun(plus: Plus, stages: seq<seq<Task>>, w: World, fates: Fates)
    requires Calm(fates)
    ensures var (plus', w') := RunStages(plus, stages, w, fates);
      w'.store == StagesEffect(plus.design, stages, w.store) && plus' == StagesNoted(plus, stages, w.store)
    decreases |stages|
  {
    if stages != [] {
      CalmStage(plus, stages[0], w, fates);
      var r := RunStage(plus, stages[0], w, fates);
      CalmStagesRun(r.plus, stages[1..], r.world, fates);
    }
  }

  function AfterDeployments(d: Design, s: Store): Store {
    StageEffect(d, DeploymentTasks(d), s)
  }

  function AfterService(d: Design, s: Store): Store {
    StageEffect(d, ServiceTasks(d), AfterDeployments(d, s))
  }

  function AfterRules(d: Design, s: Store): Store {
    StageEffect(d, [ApplyDestinationRule], AfterService(d, s))
  }

  function AfterRoutes(d: Design, s: Store): Store {
    StageEffect(d, VirtualServiceTasks(d), AfterRules(d, s))
  }

  function ChildrenEffect(d: Design, s: Store): Store {
    StageEffect(d, AutoscalerTasks(d), AfterRoutes(d, s))
  }

  lemma StatusStageReadsOnly(d: Design, s: Store)
    ensures StageEffect(d, StatusTasks(d), s) == s
  {
    StageFixed(d, StatusTasks(d), s);
  }

  lemma {:induction false} OnlyStatusIsNoted(plus: Plus, tasks: seq<Task>, s: Store)
    requires forall t | t in tasks :: !t.ReadStatus?
    ensures StageNoted(plus, tasks, s) == plus
    decreases |tasks|
  {
    if tasks != [] {
      var key := KeyOf(plus.design, tasks[0]);
      OnlyStatusIsNoted(plus, tasks[1..], Put(s, key, Effect(plus.design, tasks[0], At(s, key))));
    }
  }

  lemma StagesTurn(plus: Plus, stages: seq<seq<Task>>, i: nat, s: Store)
    requires i < |stages|
    ensures StagesEffect(plus.design, stages[i..], s)
         == StagesEffect(plus.design, stages[i + 1..], StageEffect(plus.design, stages[i], s))
    ensures StagesNoted(plus, stages[i..], s)
         == StagesNoted(StageNoted(plus, stages[i], s), stages[i + 1..], StageEffect(plus.design, stages[i], s))
  {
    assert stages[i..][1..] == stages[i + 1..];
  }

  lemma LaterStagesAreChildren(noted: Plus, s: Store)
    ensures var d := noted.design;
      StagesEffect(d, Stages(d)[2..], AfterDeployments(d, s)) == ChildrenEffect(d, s)
    ensures StagesNoted(noted, Stages(noted.design)[2..], AfterDeployments(noted.design, s)) == noted
  {
    var d := noted.design;
    var stages := Stages(d);
    OnlyStatusIsNoted(noted, stages[2], AfterDeployments(d, s));
    StagesTurn(noted, stages, 2, AfterDeployments(d, s));
    OnlyStatusIsNoted(noted, stages[3], AfterService(d, s));
    StagesTurn(noted, stages, 3, AfterService(d, s));
    OnlyStatusIsNoted(noted, stages[4], AfterRules(d, s));
    StagesTurn(noted, stages, 4, AfterRules(d, s));
    OnlyStatusIsNoted(noted, stages[5], AfterRoutes(d, s));
    StagesTurn(noted, stages, 5, AfterRoutes(d, s));
    assert stages[6..] == [];
  }

  lemma StagesAreChildren(plus: Plus, s: Store)
    ensures StagesEffect(plus.design, Stages(plus.design), s) == ChildrenEffect(plus.design, s)
    ensures StagesNoted(plus, Stages(plus.design), s)
         == StageNoted(plus, StatusTasks(plus.design), AfterDeployments(plus.design, s))
  {
    var d, stages := plus.design, Stages(plus.design);
    var s1 := AfterDeployments(d, s);
    assert stages[0..] == stages;
    OnlyStatusIsNoted(plus, stages[0], s);
    StagesTurn(plus, stages, 0, s);
    StatusStageReadsOnly(d, s1);
    StagesTurn(plus, stages, 1, s1);
    LaterStagesAreChildren(StageNoted(plus, stages[1], s1), s);
  }

  // ----- which stage is responsible for a key -----

  lemma StageKinds(d: Design)
    ensures forall t | t in DeploymentTasks(d) :: KeyOf(d, t).kind == DeploymentKind
    ensures forall t | t in ServiceTasks(d) :: KeyOf(d, t).kind == ServiceKind
    ensures forall t | t in VirtualServiceTasks(d) :: KeyOf(d, t).kind == VirtualServiceKind
    ensures forall t | t in AutoscalerTasks(d) :: KeyOf(d, t).kind == AutoscalerKind
  {
  }

  lemma StageOtherKind(d: Design, tasks: seq<Task>, kind: Kind, s: Store, k: Key)
    requires forall t | t in tasks :: KeyOf(d, t).kind == kind
    ensures k.kind != kind ==> At(StageEffect(d, tasks, s), k) == At(s, k)
  {
    if k.kind != kind {
      StageFrame(d, tasks, s, k);
    }
  }

  lemma ChildrenFrame(d: Design, s: Store, k: Key)
    ensures k.kind != DeploymentKind ==> At(AfterDeployments(d, s), k) == At(s, k)
    ensures k.kind != ServiceKind ==> At(AfterService(d, s), k) == At(AfterDeployments(d, s), k)
    ensures k.kind != DestinationRuleKind ==> At(AfterRules(d, s), k) == At(AfterService(d, s), k)
    ensures k.kind != VirtualServiceKind ==> At(AfterRoutes(d, s), k) == At(AfterRules(d, s), k)
    ensures k.kind != AutoscalerKind ==> At(ChildrenEffect(d, s), k) == At(AfterRoutes(d, s), k)
  {
    StageKinds(d);
    StageOtherKind(d, DeploymentTasks(d), DeploymentKind, s, k);
    StageOtherKind(d, ServiceTasks(d), ServiceKind, AfterDeployments(d, s), k);
    StageOtherKind(d, [ApplyDestinationRule], DestinationRuleKind, AfterService(d, s), k);
    StageOtherKind(d, VirtualServiceTasks(d), VirtualServiceKind, AfterRules(d, s), k);
    StageOtherKind(d, AutoscalerTasks(d), AutoscalerKind, AfterRoutes(d, s), k);
  }

  lemma ChildrenTyped(d: Design, s: Store)
    requires WellTyped(s)
    ensures WellTyped(AfterDeployments(d, s)) && WellTyped(AfterService(d, s)) && WellTyped(AfterRules(d, s))
         && WellTyped(AfterRoutes(d, s)) && WellTyped(ChildrenEffect(d, s))
  {
    StageTyped(d, DeploymentTasks(d), s);
    StageTyped(d, ServiceTasks(d), AfterDeployments(d, s));
    StageTyped(d, [ApplyDestinationRule], AfterService(d, s));
    StageTyped(d, VirtualServiceTasks(d), AfterRules(d, s));
    StageTyped(d, AutoscalerTasks(d), AfterRoutes(d, s));
  }

  // ----- the status read back -----

  /** What a status stage writes over the available replicas. */
  function Overlay(d: Design, tasks: seq<Task>, s: Store): map<string, int32>
    decreases |tasks|
  {
    if tasks == [] || !tasks[0].ReadStatus? then map[]
    else
      var found := Decide(d, tasks[0], ViewSlot(At(s, KeyOf(d, tasks[0]))));
      if found.Note? then map[tasks[0].app.version := found.available] + Overlay(d, tasks[1..], s) else map[]
  }

  function WithAvailable(plus: Plus, available: map<string, int32>): Plus {
    plus.(status := plus.status.(available := available))
  }

  lemma OverlayOver(m: map<string, int32>, k: string, n: int32, rest: map<string, int32>)
    ensures m[k := n] + rest == m + (map[k := n] + rest)
  {
  }

  lemma {:induction false} StageNotedIsOverlay(plus: Plus, tasks: seq<Task>, s: Store)
    requires forall t | t in tasks :: t.ReadStatus?
    ensures StageNoted(plus, tasks, s)
         == WithAvailable(plus, plus.status.available + Overlay(plus.design, tasks, s))
    decreases |tasks|
  {
    if tasks == [] {
      assert plus.status.available + map[] == plus.status.available;
    } else {
      var slot := At(s, KeyOf(plus.design, tasks[0]));
      var found := Decide(plus.design, tasks[0], ViewSlot(slot));
      if found.Note? {
        StageNotedIsOverlay(Noted(plus, tasks[0], found.available), tasks[1..], s);
        OverlayOver(plus.status.available, tasks[0].app.version, found.available, Overlay(plus.design, tasks[1..], s));
      } else {
        assert plus.status.available + map[] == plus.status.available;
      }
    }
  }

  lemma {:induction false} OverlayFrame(d: Design, tasks: seq<Task>, s: Store, s': Store)
    requires forall t | t in tasks :: At(s', KeyOf(d, t)) == At(s, KeyOf(d, t))
    ensures Overlay(d, tasks, s') == Overlay(d, tasks, s)
    decreases |tasks|
  {
    if tasks != [] {
      OverlayFrame(d, tasks[1..], s, s');
    }
  }

  // ----- the whole reconcile -----

  /** A Plus that is stored and not being deleted. */
  predicate Live(key: Key, d: Design, s: Store) {
    && key == PlusKey(d)
    && At(s, key).content.Some? && At(s, key).content.value.PlusObject?
    && At(s, key).content.value.plus.design == d && !At(s, key).content.value.plus.deleting
  }

  function PlusAt(key: Key, d: Design, s: Store): Plus
    requires Live(key, d, s)
  {
    At(s, key).content.value.plus
  }

  /** The status one reconcile writes: what was there, overlaid with what the Deployments now report. */
  function NewStatus(d: Design, before: Status, s: Store): Status {
    var available := before.available + Overlay(d, StatusTasks(d), s);
    Status(available, true, StatusDesc(d, available))
  }

  /** The finalizer registered. */
  function Registered(key: Key, d: Design, s: Store): Store
    requires Live(key, d, s)
  {
    var plus := PlusAt(key, d, s);
    if OWN_FINALIZER in plus.finalizers then s
    else Put(s, key, Slot(At(s, key).version + 1, Some(PlusObject(WithOwn(plus)))))
  }

  /** With the finalizer in place: the children, and then the status. */
  function Applied(key: Key, d: Design, s: Store): Store
    requires Live(key, d, s)
  {
    var s' := ChildrenEffect(d, s);
    var plus, status := PlusAt(key, d, s), NewStatus(d, PlusAt(key, d, s).status, s');
    Put(s', key, if status == plus.status then At(s, key)
                 else Slot(At(s, key).version + 1, Some(PlusObject(plus.(status := status)))))
  }

  function Round(key: Key, d: Design, s: Store): Store
    requires Live(key, d, s)
  {
    Applied(key, d, Registered(key, d, s))
  }

  /** The overlay sees the Deployments alike before and after the other stages. */
  lemma OverlayAfterChildren(d: Design, s: Store)
    ensures Overlay(d, StatusTasks(d), AfterDeployments(d, s)) == Overlay(d, StatusTasks(d), ChildrenEffect(d, s))
  {
    forall t | t in StatusTasks(d)
      ensures At(ChildrenEffect(d, s), KeyOf(d, t)) == At(AfterDeployments(d, s), KeyOf(d, t))
    {
      ChildrenFrame(d, s, KeyOf(d, t));
    }
    OverlayFrame(d, StatusTasks(d), AfterDeployments(d, s), ChildrenEffect(d, s));
  }

  lemma StatusOnLiveSlot(plus: Plus, status: Status, version: nat)
    requires !plus.deleting
    ensures Serve(Slot(version, Some(PlusObject(plus))), PutStatus(status, Some(version))).0
         == if status == plus.status then Slot(version, Some(PlusObject(plus)))
            else Slot(version + 1, Some(PlusObject(plus.(status := status))))
  {
    assert plus.(status := plus.status) == plus;
  }

  lemma CalmFinish(key: Key, last: Plus, plus: Plus, version: nat, w: World, fates: Fates)
    requires Calm(fates) && At(w.store, key) == Slot(version, Some(PlusObject(plus))) && !plus.deleting
    ensures var status := StatusOf(last);
      Finish(key, last, plus.status, version, w, fates).0.store
      == Put(w.store, key, if status == plus.status then At(w.store, key)
                           else Slot(version + 1, Some(PlusObject(plus.(status := status)))))
  {
    StatusOnLiveSlot(plus, StatusOf(last), version);
  }

  lemma CalmStatus(plus: Plus, s: Store)
    ensures var d := plus.design;
      StatusOf(StagesNoted(Succeeding(plus), Stages(d), s)) == NewStatus(d, plus.status, ChildrenEffect(d, s))
  {
    var d := plus.design;
    StagesAreChildren(Succeeding(plus), s);
    StageNotedIsOverlay(Succeeding(plus), StatusTasks(d), AfterDeployments(d, s));
    OverlayAfterChildren(d, s);
  }

  lemma CalmWork(key: Key, plus: Plus, version: nat, w: World, fates: Fates) returns (last: Plus, w': World)
    requires Calm(fates)
    ensures w'.store == ChildrenEffect(plus.design, w.store)
    ensures key.kind == PlusKind ==> At(w'.store, key) == At(w.store, key)
    ensures StatusOf(last) == NewStatus(plus.design, plus.status, w'.store)
    ensures ApplyAll(key, plus, version, w, fates) == Finish(key, last, plus.status, version, w', fates)
  {
    var run := RunStages(Succeeding(plus), Stages(plus.design), w, fates);
    CalmStagesRun(Succeeding(plus), Stages(plus.design), w, fates);
    StagesAreChildren(Succeeding(plus), w.store);
    CalmStatus(plus, w.store);
    ChildrenFrame(plus.design, w.store, key);
    last, w' := run.0, run.1;
  }

  lemma CalmApplyAll(key: Key, plus: Plus, version: nat, w: World, fates: Fates)
    requires Calm(fates) && Live(key, plus.design, w.store)
    requires At(w.store, key) == Slot(version, Some(PlusObject(plus)))
    ensures ApplyAll(key, plus, version, w, fates).0.store == Applied(key, plus.design, w.store)
  {
    var last, w' := CalmWork(key, plus, version, w, fates);
    CalmFinish(key, last, plus, version, w', fates);
  }

  lemma RoundStaysLive(key: Key, d: Design, s: Store)
    requires Live(key, d, s)
    ensures Live(key, d, Registered(key, d, s))
    ensures OWN_FINALIZER in PlusAt(key, d, Registered(key, d, s)).finalizers
    ensures Live(key, d, Round(key, d, s))
    ensures OWN_FINALIZER in PlusAt(key, d, Round(key, d, s)).finalizers
  {
  }

  /** The finalizer step registers the finalizer if need be, and goes on to the children. */
  lemma CalmFinalizer(key: Key, d: Design, w: World, fates: Fates) returns (plus: Plus, version: nat, w': World)
    requires Calm(fates) && Live(key, d, w.store)
    ensures Finalize(key, PlusAt(key, d, w.store), At(w.store, key).version, w, fates) == GoOn(plus, version, w')
    ensures w'.store == Registered(key, d, w.store) && At(w'.store, key) == Slot(version, Some(PlusObject(plus)))
    ensures plus.design == d && !plus.deleting && OWN_FINALIZER in plus.finalizers
  {
    plus, version, w' := PlusAt(key, d, w.store), At(w.store, key).version, w;
    if OWN_FINALIZER !in plus.finalizers {
      plus, version, w' := WithOwn(plus), version + 1, World(Registered(key, d, w.store), w.calls + 1);
    }
  }

  lemma CalmFetch(key: Key, d: Design, w: World, fates: Fates)
    requires Calm(fates) && Live(key, d, w.store)
    ensures Reconcile(key, w, fates)
         == AfterFetch(key, PlusAt(key, d, w.store), At(w.store, key).version, World(w.store, w.calls + 1), fates)
  {
    var (w1, r1) := Call(w, Request(key, Get), fates);
    assert w1 == World(w.store, w.calls + 1) && r1 == Found(At(w.store, key).content.value, At(w.store, key).version);
  }

  lemma CalmAfterFetch(key: Key, d: Design, w: World, fates: Fates)
    requires Calm(fates) && Live(key, d, w.store)
    ensures AfterFetch(key, PlusAt(key, d, w.store), At(w.store, key).version, w, fates).0.store
         == Round(key, d, w.store)
  {
    var plus, version, w' := CalmFinalizer(key, d, w, fates);
    CalmApplyAll(key, plus, version, w', fates);
  }

  /** One reconcile of a live Plus is a Round. */
  lemma CalmReconcile(key: Key, d: Design, w: World, fates: Fates)
    requires Calm(fates) && Live(key, d, w.store)
    ensures Reconcile(key, w, fates).0.store == Round(key, d, w.store)
  {
    CalmFetch(key, d, w, fates);
    CalmAfterFetch(key, d, World(w.store, w.calls + 1), fates);
  }
}
