/** A store that a reconcile leaves as it is has nothing left to do, and so the apps can agree on what they share:
    the operator comes to rest exactly when they can. */
module Resting {
  import opened PlusTypes
  import opened Api
  import opened Children
  import opened Settling
  import opened CalmStages
  import opened CalmReconciles
  import opened Faults
  import opened SharedVersions
  import opened Convergence

  // ----- a stage that changes nothing has nothing to do -----

  lemma EffectVersion(d: Design, t: Task, slot: Slot)
    ensures Effect(d, t, slot) == slot || Effect(d, t, slot).version > slot.version
  {
    var decision := Decide(d, t, ViewSlot(slot));
    if decision.Issue? {
      VersionsGrow(slot, decision.verb);
    }
  }

  /** Versions only grow, so nothing that is written is ever taken back. */
  lemma {:induction false} StageVersions(d: Design, tasks: seq<Task>, s: Store, k: Key)
    ensures At(StageEffect(d, tasks, s), k).version >= At(s, k).version
    decreases |tasks|
  {
    if tasks != [] {
      var key := KeyOf(d, tasks[0]);
      EffectVersion(d, tasks[0], At(s, key));
      StageVersions(d, tasks[1..], Put(s, key, Effect(d, tasks[0], At(s, key))), k);
    }
  }

  ghost predicate SameSlots(s: Store, s': Store) {
    forall k: Key :: At(s', k) == At(s, k)
  }

  lemma SettledGoesOn(d: Design, t: Task, slot: Slot)
    requires SlotTyped(d, t, slot) && !t.ReadStatus? && (t.ApplyGateway? ==> d.spec.gateway.Some?)
    requires Settled(d, t, slot)
    ensures !Ends(d, t, slot)
  {
  }

  lemma HaltsNever(d: Design, t: Task, s: Store)
    requires t in Tasks(d) && WellTyped(s) && Settled(d, t, At(s, KeyOf(d, t)))
    ensures !Ends(d, t, At(s, KeyOf(d, t)))
  {
    TaskOfApp(d, t);
    SettledGoesOn(d, t, At(s, KeyOf(d, t)));
  }

  lemma {:induction false} FixedStageIsSettled(d: Design, tasks: seq<Task>, s: Store)
    requires WellTyped(s) && (forall t | t in tasks :: t in Tasks(d))
    requires SameSlots(s, StageEffect(d, tasks, s))
    ensures AllSettled(d, tasks, s)
    decreases |tasks|
  {
    if tasks != [] {
      var t := tasks[0];
      var key := KeyOf(d, t);
      var s1 := Put(s, key, Effect(d, t, At(s, key)));
      EffectVersion(d, t, At(s, key));
      StageVersions(d, tasks[1..], s1, key);
      assert At(StageEffect(d, tasks, s), key) == At(s, key);
      HaltsNever(d, t, s);
      FixedStageIsSettled(d, tasks[1..], s);
    }
  }

  // ----- and neither do the five stages together -----

  lemma TasksOfStages(d: Design)
    ensures forall t | t in DeploymentTasks(d) + ServiceTasks(d) + VirtualServiceTasks(d) + AutoscalerTasks(d) ::
              t in Tasks(d)
    ensures ApplyDestinationRule in Tasks(d)
  {
  }

  /** If the five stages leave every slot as it is in the end, each of them does: a stage is the only one to write
      objects of its kind. */
  lemma EachStageIsFixed(d: Design, s: Store)
    requires SameSlots(s, ChildrenEffect(d, s))
    ensures SameSlots(s, AfterDeployments(d, s)) && SameSlots(s, AfterService(d, s)) && SameSlots(s, AfterRules(d, s))
    ensures SameSlots(s, AfterRoutes(d, s))
  {
    forall k: Key
      ensures At(AfterDeployments(d, s), k) == At(s, k) && At(AfterService(d, s), k) == At(s, k)
      ensures At(AfterRules(d, s), k) == At(s, k) && At(AfterRoutes(d, s), k) == At(s, k)
    {
      ChildrenFrame(d, s, k);
    }
  }

  lemma SettledElsewhereToo(d: Design, tasks: seq<Task>, s: Store, before: Store, after: Store)
    requires SameSlots(s, before) && SameSlots(s, after) && after == StageEffect(d, tasks, before)
    requires WellTyped(before) && forall t | t in tasks :: t in Tasks(d)
    ensures AllSettled(d, tasks, s)
  {
    FixedStageIsSettled(d, tasks, before);
    SettledCarriesOver(d, tasks, before, s);
  }

  lemma FixedChildrenAreSettled(d: Design, s: Store)
    requires WellTyped(s) && SameSlots(s, ChildrenEffect(d, s))
    ensures ChildrenSettled(d, s)
  {
    ChildrenTyped(d, s);
    EachStageIsFixed(d, s);
    TasksOfStages(d);
    SettledElsewhereToo(d, DeploymentTasks(d), s, s, AfterDeployments(d, s));
    SettledElsewhereToo(d, ServiceTasks(d), s, AfterDeployments(d, s), AfterService(d, s));
    SettledElsewhereToo(d, [ApplyDestinationRule], s, AfterService(d, s), AfterRules(d, s));
    SettledElsewhereToo(d, VirtualServiceTasks(d), s, AfterRules(d, s), AfterRoutes(d, s));
    SettledElsewhereToo(d, AutoscalerTasks(d), s, AfterRoutes(d, s), ChildrenEffect(d, s));
  }

  // ----- settled children belong to apps that can agree -----

  lemma SettledPortsAgree(d: Design, s: Store)
    requires WellTyped(s) && AllSettled(d, ServiceTasks(d), s)
    ensures UniformPorts(d.spec.apps)
  {
    forall a, b | a in d.spec.apps && b in d.spec.apps
      ensures ServicePorts(a) == ServicePorts(b)
    {
      ServiceOf(d, s, a);
      ServiceOf(d, s, b);
    }
  }

  lemma ServiceOf(d: Design, s: Store, app: App)
    requires WellTyped(s) && AllSettled(d, ServiceTasks(d), s) && app in d.spec.apps
    ensures var content := At(s, ServiceKey(d)).content;
      content.Some? && content.value.ServiceObject? && content.value.service == ServiceFor(d, app)
  {
    var i :| 0 <= i < |d.spec.apps| && d.spec.apps[i] == app;
    var t := ServiceTasks(d)[i];
    assert Settled(d, t, At(s, KeyOf(d, t)));
    SettledIff(d, t, At(s, KeyOf(d, t)));
  }

  lemma DeploymentOf(d: Design, s: Store, app: App)
    requires WellTyped(s) && AllSettled(d, DeploymentTasks(d), s) && app in d.spec.apps
    ensures SlotTyped(d, ApplyDeployment(app), SlotOf(d, app, s)) && Settled(d, ApplyDeployment(app), SlotOf(d, app, s))
  {
    var i :| 0 <= i < |d.spec.apps| && d.spec.apps[i] == app;
    assert DeploymentTasks(d)[i] == ApplyDeployment(app);
  }

  lemma SettledForBoth(d: Design, a: App, b: App, slot: Slot)
    requires Share(a, b)
    requires SlotTyped(d, ApplyDeployment(a), slot) && Settled(d, ApplyDeployment(a), slot)
    requires SlotTyped(d, ApplyDeployment(b), slot) && Settled(d, ApplyDeployment(b), slot)
    ensures DeploymentsAgree(d, a, b)
  {
    DeploymentSettledIff(d, a, slot);
    DeploymentSettledIff(d, b, slot);
    if a.minReplicas != -1 && b.minReplicas != -1 {
      AgreesIff(d, a, slot);
      AgreesIff(d, b, slot);
    }
  }

  lemma SettledDeploymentsAgree(d: Design, s: Store, a: App)
    requires WellTyped(s) && AllSettled(d, DeploymentTasks(d), s) && a in d.spec.apps
    ensures GetsAlong(d, a)
  {
    forall b | b in d.spec.apps && Share(a, b)
      ensures DeploymentsAgree(d, a, b)
    {
      DeploymentOf(d, s, a);
      DeploymentOf(d, s, b);
      AppNameInjective(d, a, b);
      SettledForBoth(d, a, b, SlotOf(d, a, s));
    }
  }

  lemma SettledAutoscalersAgree(d: Design, s: Store, i: nat, j: nat)
    requires WellTyped(s) && AllSettled(d, AutoscalerTasks(d), s)
    requires i < KedaCut(d.spec.apps) && j < KedaCut(d.spec.apps) && Share(d.spec.apps[i], d.spec.apps[j])
    ensures AutoscalersAgree(d.spec.apps[i], d.spec.apps[j])
  {
    var a, b := AutoscalerTasks(d)[i], AutoscalerTasks(d)[j];
    AppNameInjective(d, d.spec.apps[i], d.spec.apps[j]);
    assert Settled(d, a, At(s, KeyOf(d, a))) && Settled(d, b, At(s, KeyOf(d, b)));
    if !Unwanted(d, a) {
      SettledIff(d, a, At(s, KeyOf(d, a)));
    }
    if !Unwanted(d, b) {
      SettledIff(d, b, At(s, KeyOf(d, b)));
    }
  }

  lemma SettledIsCompatible(d: Design, s: Store)
    requires WellTyped(s) && ChildrenSettled(d, s)
    ensures Compatible(d)
  {
    SettledPortsAgree(d, s);
    forall a | a in d.spec.apps
      ensures GetsAlong(d, a)
    {
      SettledDeploymentsAgree(d, s, a);
    }
    forall i, j | 0 <= i < KedaCut(d.spec.apps) && 0 <= j < KedaCut(d.spec.apps)
                  && Share(d.spec.apps[i], d.spec.apps[j])
      ensures AutoscalersAgree(d.spec.apps[i], d.spec.apps[j])
    {
      SettledAutoscalersAgree(d, s, i, j);
    }
  }

  // ----- rounds and runs -----

  lemma FixedRoundSlots(key: Key, d: Design, s: Store)
    requires Live(key, d, s) && Round(key, d, s) == s
    ensures var s1 := Registered(key, d, s); SameSlots(s1, ChildrenEffect(d, s1))
  {
    var s1 := Registered(key, d, s);
    RoundFrame(key, d, s);
    RegisteredFrame(key, d, s);
    forall k: Key
      ensures At(ChildrenEffect(d, s1), k) == At(s1, k)
    {
      if k == key {
        ChildrenFrame(d, s1, k);
      }
    }
  }

  /** A reconcile leaves the whole store as it is exactly when it is at rest. */
  lemma RestIff(key: Key, d: Design, s: Store)
    requires Live(key, d, s) && WellTyped(s)
    ensures Round(key, d, s) == s <==> AtRest(key, d, s)
  {
    if Round(key, d, s) == s {
      FixedRoundIsRest(key, d, s, Registered(key, d, s));
    }
    if AtRest(key, d, s) {
      SettledRoundFixed(key, d, s);
    }
  }

  lemma FixedRoundIsRest(key: Key, d: Design, s: Store, s1: Store)
    requires Live(key, d, s) && WellTyped(s) && Round(key, d, s) == s && s1 == Registered(key, d, s)
    ensures AtRest(key, d, s)
  {
    RoundSettlesPlus(key, d, s);
    FixedRoundSlots(key, d, s);
    assert s1 == s;
    FixedChildrenAreSettled(d, s);
  }

  /** A run that is long enough comes to rest, at some point, if and only if the apps can agree on what they share. */
  lemma RunRestsIff(key: Key, d: Design, ws: seq<World>, fates: Fates)
    requires CalmRun(key, d, ws, fates) && |ws| > |d.spec.apps| + 2
    ensures (exists i, j | 0 <= i < j < |ws| && j == i + 1 :: ws[j].store == ws[i].store) <==> Compatible(d)
  {
    if Compatible(d) {
      RunStays(key, d, ws, fates, |d.spec.apps| + 1, |d.spec.apps| + 2);
    }
    forall i, j | 0 <= i < j < |ws| && j == i + 1 && ws[j].store == ws[i].store
      ensures Compatible(d)
    {
      RunOfRounds(key, d, ws, fates, i, j);
      RestIff(key, d, ws[i].store);
      SettledIsCompatible(d, ws[i].store);
    }
  }
}
