/** Stages run against a quiet server: what each does to the store, and the two stages with early returns. */
module CalmStages {
  import opened Text
  import opened PlusTypes
  import opened Api
  import opened Children
  import opened Settling

  function StageEffect(d: Design, tasks: seq<Task>, s: Store): Store
    decreases |tasks|
  {
    if tasks == [] then s
    else
      var key := KeyOf(d, tasks[0]);
      var s1 := Put(s, key, Effect(d, tasks[0], At(s, key)));
      if Ends(d, tasks[0], At(s, key)) then s1 else StageEffect(d, tasks[1..], s1)
  }

  function StageNoted(plus: Plus, tasks: seq<Task>, s: Store): (r: Plus)
    ensures r.design == plus.design
    decreases |tasks|
  {
    if tasks == [] then plus
    else
      var key := KeyOf(plus.design, tasks[0]);
      var noted := NotedFrom(plus, tasks[0], At(s, key));
      if Ends(plus.design, tasks[0], At(s, key)) then noted
      else StageNoted(noted, tasks[1..], Put(s, key, Effect(plus.design, tasks[0], At(s, key))))
  }

  lemma {:induction false} CalmStage(plus: Plus, tasks: seq<Task>, w: World, fates: Fates)
    requires Calm(fates)
    ensures var r := RunStage(plus, tasks, w, fates);
      && r.world.store == StageEffect(plus.design, tasks, w.store)
      && r.plus == StageNoted(plus, tasks, w.store)
      && r.progress == Stop
    decreases |tasks|
  {
    if tasks != [] {
      CalmTask(plus, tasks[0], w, fates);
      var first := RunTask(plus, tasks[0], w, fates);
      if first.progress == Next {
        CalmStage(first.plus, tasks[1..], first.world, fates);
      }
    }
  }

  /** A stage touches the keys of its tasks only. */
  lemma {:induction false} StageFrame(d: Design, tasks: seq<Task>, s: Store, k: Key)
    requires forall t | t in tasks :: KeyOf(d, t) != k
    ensures At(StageEffect(d, tasks, s), k) == At(s, k)
    decreases |tasks|
  {
    if tasks != [] {
      var key := KeyOf(d, tasks[0]);
      StageFrame(d, tasks[1..], Put(s, key, Effect(d, tasks[0], At(s, key))), k);
    }
  }

  ghost predicate AllSettled(d: Design, tasks: seq<Task>, s: Store) {
    forall t | t in tasks :: Settled(d, t, At(s, KeyOf(d, t)))
  }

  /** A stage with nothing to do changes nothing. */
  lemma {:induction false} StageFixed(d: Design, tasks: seq<Task>, s: Store)
    requires AllSettled(d, tasks, s)
    ensures StageEffect(d, tasks, s) == s
    decreases |tasks|
  {
    if tasks != [] {
      assert Settled(d, tasks[0], At(s, KeyOf(d, tasks[0])));
      StageFixed(d, tasks[1..], s);
    }
  }

  lemma PutTyped(d: Design, t: Task, s: Store)
    requires WellTyped(s)
    ensures SlotTyped(d, t, At(s, KeyOf(d, t)))
    ensures WellTyped(Put(s, KeyOf(d, t), Effect(d, t, At(s, KeyOf(d, t)))))
  {
    var key := KeyOf(d, t);
    EffectTyped(d, t, At(s, key));
    var s1 := Put(s, key, Effect(d, t, At(s, key)));
    forall k | At(s1, k).content.Some?
      ensures KindOf(At(s1, k).content.value) == k.kind
    {
      assert k != key ==> At(s1, k) == At(s, k);
    }
  }

  lemma {:induction false} StageTyped(d: Design, tasks: seq<Task>, s: Store)
    requires WellTyped(s)
    ensures WellTyped(StageEffect(d, tasks, s))
    decreases |tasks|
  {
    if tasks != [] {
      PutTyped(d, tasks[0], s);
      StageTyped(d, tasks[1..], Put(s, KeyOf(d, tasks[0]), Effect(d, tasks[0], At(s, KeyOf(d, tasks[0])))));
    }
  }

  // ----- stages whose tasks have keys of their own -----

  ghost predicate DistinctKeys(d: Design, tasks: seq<Task>) {
    forall i, j | 0 <= i < j < |tasks| :: KeyOf(d, tasks[i]) != KeyOf(d, tasks[j])
  }

  /** A task that no earlier one keeps from running has its effect. */
  lemma {:induction false} StageAt(d: Design, tasks: seq<Task>, s: Store, i: nat)
    requires i < |tasks| && DistinctKeys(d, tasks)
    requires forall j | 0 <= j < i :: !Ends(d, tasks[j], At(s, KeyOf(d, tasks[j])))
    ensures At(StageEffect(d, tasks, s), KeyOf(d, tasks[i])) == Effect(d, tasks[i], At(s, KeyOf(d, tasks[i])))
    decreases |tasks|
  {
    var key := KeyOf(d, tasks[0]);
    var s1 := Put(s, key, Effect(d, tasks[0], At(s, key)));
    assert forall t | t in tasks[1..] :: KeyOf(d, t) != key;
    if i == 0 {
      StageFrame(d, tasks[1..], s1, key);
    } else {
      StageAt(d, tasks[1..], s1, i - 1);
    }
  }

  // ----- the shared Service -----

  function ServiceKey(d: Design): Key {
    Key(ServiceKind, d.ns, d.name)
  }

  /** From app i on, with the Service in place: it ends as the last app wants it, and its version
      stays exactly when every one of these apps already wants what is stored. */
  lemma {:induction false} ServiceFoldFrom(d: Design, i: nat, s: Store)
    requires i <= |d.spec.apps| && WellTyped(s) && At(s, ServiceKey(d)).content.Some?
    ensures var before, after := At(s, ServiceKey(d)), At(StageEffect(d, ServiceTasks(d)[i..], s), ServiceKey(d));
      && after.content.Some? && after.content.value.ServiceObject?
      && after.content.value.service == (if i < |d.spec.apps| then ServiceFor(d, d.spec.apps[|d.spec.apps| - 1])
                                         else before.content.value.service)
      && after.version >= before.version
      && (after.version == before.version <==>
            forall j | i <= j < |d.spec.apps| :: ServiceFor(d, d.spec.apps[j]) == before.content.value.service)
    decreases |d.spec.apps| - i
  {
    var n := |d.spec.apps|;
    if i < n {
      var t := ServiceTasks(d)[i];
      PutTyped(d, t, s);
      var s1 := Put(s, ServiceKey(d), Effect(d, t, At(s, ServiceKey(d))));
      assert ServiceTasks(d)[i..][1..] == ServiceTasks(d)[i + 1..];
      ServiceFoldFrom(d, i + 1, s1);
    }
  }

  /** Apply on an existing Service leaves the last app's Service; it changes nothing exactly when what is stored
      is what every app wants. On a missing Service it leaves the first app's. */
  lemma ServiceFold(d: Design, s: Store)
    requires d.spec.apps != [] && WellTyped(s)
    ensures var apps, before, s' := d.spec.apps, At(s, ServiceKey(d)), StageEffect(d, ServiceTasks(d), s);
      var after := At(s', ServiceKey(d));
      && after.content.Some? && after.content.value.ServiceObject?
      && after.content.value.service == ServiceFor(d, if before.content.None? then apps[0] else apps[|apps| - 1])
      && (before.content.Some? ==>
            (s' == s <==> forall app | app in apps :: ServiceFor(d, app) == before.content.value.service))
  {
    var tasks, apps := ServiceTasks(d), d.spec.apps;
    assert tasks[0..] == tasks;
    if At(s, ServiceKey(d)).content.Some? {
      ServiceFoldFrom(d, 0, s);
      if forall app | app in apps :: ServiceFor(d, app) == At(s, ServiceKey(d)).content.value.service {
        StageFixed(d, tasks, s);
      } else {
        var app :| app in apps && ServiceFor(d, app) != At(s, ServiceKey(d)).content.value.service;
        var j :| 0 <= j < |apps| && apps[j] == app;
      }
    }
  }

  ghost predicate UniformPorts(apps: seq<App>) {
    forall a, b {:trigger ServicePorts(a), ServicePorts(b)} | a in apps && b in apps ::
      ServicePorts(a) == ServicePorts(b)
  }

  /** The generated ports are equal exactly when port and protocol are. */
  lemma PortsEqualIff(a: App, b: App)
    ensures ServicePorts(a) == ServicePorts(b) <==> a.port == b.port && a.protocol == b.protocol
  {
    if ServicePorts(a) == ServicePorts(b) {
      assert ServicePorts(a)[0] == ServicePorts(b)[0];
      var name, end := ServicePorts(a)[0].name, |Itoa(a.port)| + 1;
      assert a.protocol == name[..|name| - end];
      assert b.protocol == name[..|name| - end];
    }
  }

  /** Apps that disagree on the port never let the Service settle: every Apply rewrites it. */
  lemma MixedPortsNeverSettle(d: Design, s: Store)
    requires WellTyped(s) && At(s, ServiceKey(d)).content.Some? && !UniformPorts(d.spec.apps)
    ensures StageEffect(d, ServiceTasks(d), s) != s
  {
    ServiceFold(d, s);
  }

  lemma UniformServiceSettles(d: Design, s: Store)
    requires WellTyped(s) && UniformPorts(d.spec.apps)
    ensures AllSettled(d, ServiceTasks(d), StageEffect(d, ServiceTasks(d), s))
  {
    var s' := StageEffect(d, ServiceTasks(d), s);
    if d.spec.apps != [] {
      ServiceFold(d, s);
      forall t | t in ServiceTasks(d)
        ensures Settled(d, t, At(s', KeyOf(d, t)))
      {
        SettledIff(d, t, At(s', ServiceKey(d)));
      }
    }
  }

  // ----- autoscalers: one creation per run -----

  function AutoscalerKey(d: Design, app: App): Key {
    Key(AutoscalerKind, d.ns, AppName(d, app))
  }

  predicate AutoscalersAgree(a: App, b: App) {
    if a.minReplicas == -1 || b.minReplicas == -1 then a.minReplicas == b.minReplicas
    else a.minReplicas == b.minReplicas && a.maxReplicas == b.maxReplicas
  }

  /** Apps of one version before the first keda app can agree on their autoscaler. */
  ghost predicate AutoscalersCompatible(d: Design) {
    forall i, j {:trigger AutoscalersAgree(d.spec.apps[i], d.spec.apps[j])}
      | 0 <= i < KedaCut(d.spec.apps) && 0 <= j < KedaCut(d.spec.apps) && Share(d.spec.apps[i], d.spec.apps[j]) ::
      AutoscalersAgree(d.spec.apps[i], d.spec.apps[j])
  }

  lemma DistinctAutoscalers(d: Design)
    requires DistinctVersions(d.spec.apps)
    ensures AutoscalersCompatible(d)
  {
    var apps, n := d.spec.apps, KedaCut(d.spec.apps);
    forall i, j | 0 <= i < n && 0 <= j < n && Share(apps[i], apps[j])
      ensures i == j
    {
      assert !(i < j) && !(j < i);
    }
  }

  predicate IsMissing(d: Design, i: nat, s: Store)
    requires i < |d.spec.apps|
  {
    d.spec.apps[i].minReplicas != -1 && At(s, AutoscalerKey(d, d.spec.apps[i])).content.None?
  }

  /** The autoscalers still to be created for the apps from i up to the first keda app. */
  function MissingFrom(d: Design, i: nat, s: Store): set<Key> {
    set j | i <= j < KedaCut(d.spec.apps) && IsMissing(d, j, s) :: AutoscalerKey(d, d.spec.apps[j])
  }

  function Missing(d: Design, s: Store): nat {
    |MissingFrom(d, 0, s)|
  }

  lemma MissingFrame(d: Design, s: Store, s': Store)
    requires forall j | 0 <= j < KedaCut(d.spec.apps) ::
               At(s', AutoscalerKey(d, d.spec.apps[j])) == At(s, AutoscalerKey(d, d.spec.apps[j]))
    ensures Missing(d, s') == Missing(d, s)
  {
    assert forall j | 0 <= j < KedaCut(d.spec.apps) :: IsMissing(d, j, s') <==> IsMissing(d, j, s);
    assert MissingFrom(d, 0, s') == MissingFrom(d, 0, s);
  }

  /** Apps of one version that agree do the same to their autoscaler. */
  lemma SameAutoscalerTask(d: Design, a: App, b: App, slot: Slot)
    requires Share(a, b) && AutoscalersAgree(a, b)
    ensures Effect(d, ApplyAutoscaler(a), slot) == Effect(d, ApplyAutoscaler(b), slot)
    ensures AutoscalerKey(d, a) == AutoscalerKey(d, b)
  {
  }

  /** A stage leaves a slot alone that none of its tasks would change. */
  lemma {:induction false} KeyKept(d: Design, tasks: seq<Task>, s: Store, k: Key)
    requires forall t | t in tasks && KeyOf(d, t) == k :: Settled(d, t, At(s, k))
    ensures At(StageEffect(d, tasks, s), k) == At(s, k)
    decreases |tasks|
  {
    if tasks != [] {
      var key := KeyOf(d, tasks[0]);
      assert key == k ==> Settled(d, tasks[0], At(s, k));
      KeyKept(d, tasks[1..], Put(s, key, Effect(d, tasks[0], At(s, key))), k);
    }
  }

  /** One app's turn: a missing autoscaler is created, which ends the stage; any other is settled. */
  lemma AutoscalerTurn(d: Design, i: nat, s: Store) returns (s1: Store)
    requires i < KedaCut(d.spec.apps) && WellTyped(s)
    ensures var t := ApplyAutoscaler(d.spec.apps[i]);
      && s1 == Put(s, KeyOf(d, t), Effect(d, t, At(s, KeyOf(d, t)))) && WellTyped(s1)
      && (Ends(d, t, At(s, KeyOf(d, t))) <==> IsMissing(d, i, s))
      && !IsMissing(d, i, s1) && Settled(d, t, At(s1, KeyOf(d, t)))
  {
    var t := ApplyAutoscaler(d.spec.apps[i]);
    s1 := Put(s, KeyOf(d, t), Effect(d, t, At(s, KeyOf(d, t))));
    PutTyped(d, t, s);
    EffectSettles(d, t, At(s, KeyOf(d, t)));
  }

  /** Apps of one version miss their autoscaler together. */
  lemma MissedTogether(d: Design, i: nat, j: nat, s: Store)
    requires AutoscalersCompatible(d) && i < KedaCut(d.spec.apps) && j < KedaCut(d.spec.apps)
    requires AutoscalerKey(d, d.spec.apps[i]) == AutoscalerKey(d, d.spec.apps[j])
    ensures IsMissing(d, i, s) <==> IsMissing(d, j, s)
  {
    AppNameInjective(d, d.spec.apps[i], d.spec.apps[j]);
    assert AutoscalersAgree(d.spec.apps[i], d.spec.apps[j]);
  }

  /** What a turn that leaves the autoscaler in place, or unwanted, does to the missing ones. */
  lemma TurnMakesUp(d: Design, i: nat, s: Store, s1: Store)
    requires AutoscalersCompatible(d) && i < KedaCut(d.spec.apps) && !IsMissing(d, i, s1)
    requires forall k: Key | k != AutoscalerKey(d, d.spec.apps[i]) :: At(s1, k) == At(s, k)
    ensures MissingFrom(d, i, s1) == MissingFrom(d, i, s) - {AutoscalerKey(d, d.spec.apps[i])}
    ensures AutoscalerKey(d, d.spec.apps[i]) in MissingFrom(d, i, s) <==> IsMissing(d, i, s)
  {
    forall j | i <= j < KedaCut(d.spec.apps)
      ensures if AutoscalerKey(d, d.spec.apps[j]) == AutoscalerKey(d, d.spec.apps[i])
              then !IsMissing(d, j, s1) && (IsMissing(d, j, s) <==> IsMissing(d, i, s))
              else IsMissing(d, j, s1) <==> IsMissing(d, j, s)
    {
      if AutoscalerKey(d, d.spec.apps[j]) == AutoscalerKey(d, d.spec.apps[i]) {
        MissedTogether(d, i, j, s);
        MissedTogether(d, i, j, s1);
      }
    }
  }

  lemma NotMissingHere(d: Design, i: nat, s: Store)
    requires i < KedaCut(d.spec.apps) && !IsMissing(d, i, s)
    ensures MissingFrom(d, i, s) == MissingFrom(d, i + 1, s)
  {
  }

  lemma SettledAutoscalerKept(d: Design, i: nat, s1: Store)
    requires AutoscalersCompatible(d) && i < KedaCut(d.spec.apps)
    requires Settled(d, AutoscalerTasks(d)[i], At(s1, KeyOf(d, AutoscalerTasks(d)[i])))
    ensures var key := KeyOf(d, AutoscalerTasks(d)[i]);
      At(StageEffect(d, AutoscalerTasks(d)[i + 1..], s1), key) == At(s1, key)
  {
    var key, rest := KeyOf(d, AutoscalerTasks(d)[i]), AutoscalerTasks(d)[i + 1..];
    forall t | t in rest && KeyOf(d, t) == key
      ensures Settled(d, t, At(s1, key))
    {
      var j :| 0 <= j < |rest| && rest[j] == t;
      assert t == ApplyAutoscaler(d.spec.apps[i + 1 + j]);
      AppNameInjective(d, d.spec.apps[i], d.spec.apps[i + 1 + j]);
      assert AutoscalersAgree(d.spec.apps[i], d.spec.apps[i + 1 + j]);
      SameAutoscalerTask(d, d.spec.apps[i], d.spec.apps[i + 1 + j], At(s1, key));
    }
    KeyKept(d, rest, s1, key);
  }

  ghost predicate OneLess(m: set<Key>, m': set<Key>) {
    if m == {} then m' == {} else exists k | k in m :: m' == m - {k}
  }

  /** What a stage from app i on achieves. */
  ghost predicate OneLessMissing(d: Design, i: nat, s: Store, s': Store)
    requires i <= KedaCut(d.spec.apps)
  {
    && OneLess(MissingFrom(d, i, s), MissingFrom(d, i, s'))
    && (MissingFrom(d, i, s) == {} ==> AllSettled(d, AutoscalerTasks(d)[i..], s'))
  }

  lemma CreatedOne(d: Design, i: nat, s: Store, s1: Store)
    requires i < KedaCut(d.spec.apps) && IsMissing(d, i, s)
    requires MissingFrom(d, i, s1) == MissingFrom(d, i, s) - {AutoscalerKey(d, d.spec.apps[i])}
    ensures OneLessMissing(d, i, s, s1)
  {
    assert AutoscalerKey(d, d.spec.apps[i]) in MissingFrom(d, i, s);
  }

  lemma OneLessInRest(d: Design, i: nat, s: Store, s1: Store, s': Store)
    requires i < KedaCut(d.spec.apps) && !IsMissing(d, i, s1)
    requires MissingFrom(d, i, s1) == MissingFrom(d, i, s) && OneLessMissing(d, i + 1, s1, s')
    requires var k := KeyOf(d, AutoscalerTasks(d)[i]);
      At(s', k) == At(s1, k) && Settled(d, AutoscalerTasks(d)[i], At(s1, k))
    ensures OneLessMissing(d, i, s, s')
  {
    NotMissingHere(d, i, s1);
    NotMissingHere(d, i, s');
    assert AutoscalerTasks(d)[i..] == [AutoscalerTasks(d)[i]] + AutoscalerTasks(d)[i + 1..];
  }

  lemma {:induction false} AutoscalerStageFrom(d: Design, i: nat, s: Store)
    requires i <= KedaCut(d.spec.apps) && AutoscalersCompatible(d) && WellTyped(s)
    ensures OneLessMissing(d, i, s, StageEffect(d, AutoscalerTasks(d)[i..], s))
    decreases KedaCut(d.spec.apps) - i
  {
    if i < KedaCut(d.spec.apps) {
      var s1 := AutoscalerTurn(d, i, s);
      TurnMakesUp(d, i, s, s1);
      assert AutoscalerTasks(d)[i..][1..] == AutoscalerTasks(d)[i + 1..];
      if IsMissing(d, i, s) {
        CreatedOne(d, i, s, s1);
      } else {
        AutoscalerStageFrom(d, i + 1, s1);
        SettledAutoscalerKept(d, i, s1);
        OneLessInRest(d, i, s, s1, StageEffect(d, AutoscalerTasks(d)[i + 1..], s1));
      }
    }
  }

  /** With apps that can agree on their autoscalers, each Apply creates exactly one missing autoscaler while there is
      one; with none missing, every autoscaler before the first keda app matches all of its apps. */
  lemma AutoscalerStage(d: Design, s: Store)
    requires AutoscalersCompatible(d) && WellTyped(s)
    ensures var s' := StageEffect(d, AutoscalerTasks(d), s);
      && Missing(d, s') == (if Missing(d, s) > 0 then Missing(d, s) - 1 else 0)
      && (Missing(d, s) == 0 ==> AllSettled(d, AutoscalerTasks(d), s'))
  {
    assert AutoscalerTasks(d)[0..] == AutoscalerTasks(d);
    AutoscalerStageFrom(d, 0, s);
  }

  function ApplyAutoscalers(d: Design, s: Store, times: nat): Store
    decreases times
  {
    if times == 0 then s else StageEffect(d, AutoscalerTasks(d), ApplyAutoscalers(d, s, times - 1))
  }

  lemma {:induction false} AutoscalersCountDown(d: Design, s: Store, times: nat)
    requires AutoscalersCompatible(d) && WellTyped(s)
    ensures var s' := ApplyAutoscalers(d, s, times);
      && WellTyped(s')
      && Missing(d, s') == (if times < Missing(d, s) then Missing(d, s) - times else 0)
      && (times > Missing(d, s) ==> AllSettled(d, AutoscalerTasks(d), s'))
    decreases times
  {
    if times > 0 {
      AutoscalersCountDown(d, s, times - 1);
      StageTyped(d, AutoscalerTasks(d), ApplyAutoscalers(d, s, times - 1));
      AutoscalerStage(d, ApplyAutoscalers(d, s, times - 1));
    }
  }

  /** From the first keda app on, no autoscaler is ever touched but one that an app before it shares. */
  lemma {:induction false} KedaAppsUntouched(d: Design, s: Store, times: nat, i: nat)
    requires KedaCut(d.spec.apps) <= i < |d.spec.apps|
    requires forall j | 0 <= j < KedaCut(d.spec.apps) :: !Share(d.spec.apps[j], d.spec.apps[i])
    ensures At(ApplyAutoscalers(d, s, times), AutoscalerKey(d, d.spec.apps[i]))
         == At(s, AutoscalerKey(d, d.spec.apps[i]))
    decreases times
  {
    if times > 0 {
      KedaAppsUntouched(d, s, times - 1, i);
      forall t | t in AutoscalerTasks(d)
        ensures KeyOf(d, t) != AutoscalerKey(d, d.spec.apps[i])
      {
        var j :| 0 <= j < KedaCut(d.spec.apps) && AutoscalerTasks(d)[j] == t;
        AppNameInjective(d, d.spec.apps[j], d.spec.apps[i]);
      }
      StageFrame(d, AutoscalerTasks(d), ApplyAutoscalers(d, s, times - 1), AutoscalerKey(d, d.spec.apps[i]));
    }
  }
}
