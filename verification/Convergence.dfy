/** Repeated reconciles of a live Plus against a quiet server reach a store that no further reconcile changes,
    within one more reconcile than there are apps, when the apps can agree on the objects they share. */
module Convergence {
  import opened PlusTypes
  import opened Api
  import opened Children
  import opened Finalizers
  import opened Reconciling
  import opened Settling
  import opened CalmStages
  import opened CalmReconciles
  import opened SharedVersions

  // ----- how far the children have got after some reconciles -----

  /** Every app has had its turn at its Deployment. */
  ghost predicate Passed(d: Design, s: Store) {
    forall app | app in d.spec.apps :: PassedSlot(d, app, SlotOf(d, app, s))
  }

  /** What `rounds` reconciles guarantee, whatever the store was before. */
  ghost predicate Level(d: Design, s: Store, rounds: nat) {
    && (rounds >= 1 ==>
          && Passed(d, s) && AllSettled(d, ServiceTasks(d), s)
          && AllSettled(d, [ApplyDestinationRule], s) && AllSettled(d, VirtualServiceTasks(d), s))
    && (rounds >= 2 ==> AllSettled(d, DeploymentTasks(d), s))
    && (AllSettled(d, AutoscalerTasks(d), s) || Missing(d, s) + rounds <= |d.spec.apps|)
  }

  lemma {:induction false} MissingBound(d: Design, i: nat, s: Store)
    requires i <= KedaCut(d.spec.apps)
    ensures |MissingFrom(d, i, s)| <= KedaCut(d.spec.apps) - i
    decreases KedaCut(d.spec.apps) - i
  {
    if i < KedaCut(d.spec.apps) {
      MissingBound(d, i + 1, s);
      var own := if IsMissing(d, i, s) then {AutoscalerKey(d, d.spec.apps[i])} else {};
      assert MissingFrom(d, i, s) == own + MissingFrom(d, i + 1, s);
    }
  }

  lemma DeploymentUntouchedAfter(d: Design, s: Store, app: App)
    ensures SlotOf(d, app, ChildrenEffect(d, s)) == SlotOf(d, app, AfterDeployments(d, s))
  {
    ChildrenFrame(d, s, KeyOf(d, ApplyDeployment(app)));
  }

  lemma DeploymentsPass(d: Design, s: Store)
    requires Compatible(d) && WellTyped(s)
    ensures Passed(d, ChildrenEffect(d, s))
  {
    forall app | app in d.spec.apps
      ensures PassedSlot(d, app, SlotOf(d, app, ChildrenEffect(d, s)))
    {
      FirstPass(d, s, app);
      DeploymentUntouchedAfter(d, s, app);
    }
  }

  lemma DeploymentsSettle(d: Design, s: Store)
    requires Compatible(d) && WellTyped(s) && Passed(d, s)
    ensures AllSettled(d, DeploymentTasks(d), ChildrenEffect(d, s))
  {
    forall t | t in DeploymentTasks(d)
      ensures Settled(d, t, At(ChildrenEffect(d, s), KeyOf(d, t)))
    {
      SecondPass(d, s, t.app);
      DeploymentUntouchedAfter(d, s, t.app);
    }
  }

  /** A settled slot stays settled through stages that leave its key alone. */
  lemma SettledCarriesOver(d: Design, tasks: seq<Task>, s: Store, s': Store)
    requires AllSettled(d, tasks, s)
    requires forall t | t in tasks :: At(s', KeyOf(d, t)) == At(s, KeyOf(d, t))
    ensures AllSettled(d, tasks, s')
  {
  }

  lemma ServiceAdvances(d: Design, s: Store)
    requires Compatible(d) && WellTyped(s)
    ensures AllSettled(d, ServiceTasks(d), ChildrenEffect(d, s))
  {
    ChildrenTyped(d, s);
    UniformServiceSettles(d, AfterDeployments(d, s));
    ChildrenFrame(d, s, ServiceKey(d));
    SettledCarriesOver(d, ServiceTasks(d), AfterService(d, s), ChildrenEffect(d, s));
  }

  lemma RulesAdvance(d: Design, s: Store)
    requires WellTyped(s)
    ensures AllSettled(d, [ApplyDestinationRule], ChildrenEffect(d, s))
  {
    ChildrenTyped(d, s);
    var t := ApplyDestinationRule;
    PutTyped(d, t, AfterService(d, s));
    EffectSettles(d, t, At(AfterService(d, s), KeyOf(d, t)));
    StageAt(d, [t], AfterService(d, s), 0);
    ChildrenFrame(d, s, KeyOf(d, t));
  }

  lemma RouteKeysDistinct(d: Design)
    ensures DistinctKeys(d, VirtualServiceTasks(d))
  {
    assert KeyOf(d, ApplyGateway).name[|d.name|..] == "-gateway" && KeyOf(d, ApplyMesh).name[|d.name|..] == "";
  }

  lemma RouteNeverEnds(d: Design, t: Task, s: Store)
    requires t in VirtualServiceTasks(d) && WellTyped(s)
    ensures SlotTyped(d, t, At(s, KeyOf(d, t))) && !Ends(d, t, At(s, KeyOf(d, t)))
  {
  }

  lemma RouteAdvances(d: Design, t: Task, before: Store)
    requires t in VirtualServiceTasks(d) && WellTyped(before)
    ensures Settled(d, t, At(StageEffect(d, VirtualServiceTasks(d), before), KeyOf(d, t)))
  {
    var tasks := VirtualServiceTasks(d);
    RouteKeysDistinct(d);
    var i :| 0 <= i < |tasks| && tasks[i] == t;
    RouteNeverEnds(d, tasks[0], before);
    RouteNeverEnds(d, t, before);
    EffectSettles(d, t, At(before, KeyOf(d, t)));
    StageAt(d, tasks, before, i);
  }

  lemma RoutesSettle(d: Design, before: Store)
    requires WellTyped(before)
    ensures AllSettled(d, VirtualServiceTasks(d), StageEffect(d, VirtualServiceTasks(d), before))
  {
    forall t | t in VirtualServiceTasks(d)
      ensures Settled(d, t, At(StageEffect(d, VirtualServiceTasks(d), before), KeyOf(d, t)))
    {
      RouteAdvances(d, t, before);
    }
  }

  lemma RoutesUntouchedAfter(d: Design, s: Store)
    ensures forall t | t in VirtualServiceTasks(d) ::
              At(ChildrenEffect(d, s), KeyOf(d, t)) == At(AfterRoutes(d, s), KeyOf(d, t))
  {
    StageKinds(d);
    forall t | t in VirtualServiceTasks(d)
      ensures At(ChildrenEffect(d, s), KeyOf(d, t)) == At(AfterRoutes(d, s), KeyOf(d, t))
    {
      ChildrenFrame(d, s, KeyOf(d, t));
    }
  }

  lemma RoutesAdvance(d: Design, s: Store)
    requires WellTyped(s)
    ensures AllSettled(d, VirtualServiceTasks(d), ChildrenEffect(d, s))
  {
    ChildrenTyped(d, s);
    RoutesSettle(d, AfterRules(d, s));
    RoutesUntouchedAfter(d, s);
    SettledCarriesOver(d, VirtualServiceTasks(d), AfterRoutes(d, s), ChildrenEffect(d, s));
  }

  ghost predicate SameAutoscalers(s: Store, s': Store) {
    forall k: Key | k.kind == AutoscalerKind :: At(s', k) == At(s, k)
  }

  /** The stages before the last leave the autoscalers alone. */
  lemma AutoscalersUntouchedBefore(d: Design, s: Store)
    ensures SameAutoscalers(s, AfterRoutes(d, s))
  {
    forall k: Key | k.kind == AutoscalerKind
      ensures At(AfterRoutes(d, s), k) == At(s, k)
    {
      ChildrenFrame(d, s, k);
    }
  }

  lemma MissingUntouched(d: Design, s: Store, s': Store)
    requires SameAutoscalers(s, s')
    ensures Missing(d, s') == Missing(d, s)
  {
    MissingFrame(d, s, s');
  }

  lemma SettledUntouched(d: Design, s: Store, s': Store)
    requires SameAutoscalers(s, s') && AllSettled(d, AutoscalerTasks(d), s)
    ensures AllSettled(d, AutoscalerTasks(d), s')
  {
    StageKinds(d);
    SettledCarriesOver(d, AutoscalerTasks(d), s, s');
  }

  lemma AutoscalersAdvance(d: Design, s: Store, rounds: nat)
    requires Compatible(d) && WellTyped(s)
    requires AllSettled(d, AutoscalerTasks(d), s) || Missing(d, s) + rounds <= |d.spec.apps|
    ensures var s' := ChildrenEffect(d, s);
      AllSettled(d, AutoscalerTasks(d), s') || Missing(d, s') + rounds + 1 <= |d.spec.apps|
  {
    ChildrenTyped(d, s);
    AutoscalersUntouchedBefore(d, s);
    var before := AfterRoutes(d, s);
    if AllSettled(d, AutoscalerTasks(d), s) {
      SettledUntouched(d, s, before);
      StageFixed(d, AutoscalerTasks(d), before);
    } else {
      MissingUntouched(d, s, before);
      AutoscalerStage(d, before);
    }
  }

  lemma LevelAdvances(d: Design, s: Store, rounds: nat)
    requires Compatible(d) && WellTyped(s)
    requires Level(d, s, rounds)
    ensures Level(d, ChildrenEffect(d, s), rounds + 1) && WellTyped(ChildrenEffect(d, s))
  {
    ChildrenTyped(d, s);
    DeploymentsPass(d, s);
    if Passed(d, s) {
      DeploymentsSettle(d, s);
    }
    ServiceAdvances(d, s);
    RulesAdvance(d, s);
    RoutesAdvance(d, s);
    AutoscalersAdvance(d, s, rounds);
  }

  ghost predicate SameChildren(s: Store, s': Store) {
    forall k: Key | k.kind != PlusKind :: At(s', k) == At(s, k)
  }

  lemma SettledFrame(d: Design, tasks: seq<Task>, s: Store, s': Store)
    requires SameChildren(s, s') && AllSettled(d, tasks, s)
    ensures AllSettled(d, tasks, s')
  {
    SettledCarriesOver(d, tasks, s, s');
  }

  lemma PassedFrame(d: Design, s: Store, s': Store)
    requires SameChildren(s, s') && Passed(d, s)
    ensures Passed(d, s')
  {
    forall app | app in d.spec.apps
      ensures PassedSlot(d, app, SlotOf(d, app, s'))
    {
      assert PassedSlot(d, app, SlotOf(d, app, s));
    }
  }

  lemma LevelFrame(d: Design, s: Store, s': Store, rounds: nat)
    requires Level(d, s, rounds) && SameChildren(s, s')
    ensures Level(d, s', rounds)
  {
    if rounds >= 1 {
      PassedFrame(d, s, s');
      SettledFrame(d, ServiceTasks(d), s, s');
      SettledFrame(d, [ApplyDestinationRule], s, s');
      SettledFrame(d, VirtualServiceTasks(d), s, s');
    }
    if rounds >= 2 {
      SettledFrame(d, DeploymentTasks(d), s, s');
    }
    if AllSettled(d, AutoscalerTasks(d), s) {
      SettledFrame(d, AutoscalerTasks(d), s, s');
    } else {
      MissingFrame(d, s, s');
    }
  }

  /** After one more reconcile than there are apps nothing is left to do. */
  ghost predicate ChildrenSettled(d: Design, s: Store) {
    && AllSettled(d, DeploymentTasks(d), s) && AllSettled(d, ServiceTasks(d), s)
    && AllSettled(d, [ApplyDestinationRule], s) && AllSettled(d, VirtualServiceTasks(d), s)
    && AllSettled(d, AutoscalerTasks(d), s)
  }

  lemma LastLevel(d: Design, s: Store, rounds: nat)
    requires Level(d, s, rounds) && rounds > |d.spec.apps|
    ensures ChildrenSettled(d, s)
  {
    if d.spec.apps == [] {
      assert DeploymentTasks(d) == [];
    }
  }

  lemma SettledChildrenFixed(d: Design, s: Store)
    requires ChildrenSettled(d, s)
    ensures ChildrenEffect(d, s) == s
  {
    StageFixed(d, DeploymentTasks(d), s);
    StageFixed(d, ServiceTasks(d), s);
    StageFixed(d, [ApplyDestinationRule], s);
    StageFixed(d, VirtualServiceTasks(d), s);
    StageFixed(d, AutoscalerTasks(d), s);
  }

  // ----- rounds -----

  /** The Plus carries the finalizer and the status that the Deployments call for. */
  ghost predicate PlusSettled(key: Key, d: Design, s: Store)
    requires Live(key, d, s)
  {
    var plus := PlusAt(key, d, s);
    OWN_FINALIZER in plus.finalizers && plus.status == NewStatus(d, plus.status, s)
  }

  ghost predicate AtRest(key: Key, d: Design, s: Store) {
    Live(key, d, s) && ChildrenSettled(d, s) && PlusSettled(key, d, s)
  }

  lemma RegisteredFrame(key: Key, d: Design, s: Store)
    requires Live(key, d, s)
    ensures forall k | k != key :: At(Registered(key, d, s), k) == At(s, k)
    ensures WellTyped(s) ==> WellTyped(Registered(key, d, s))
  {
  }

  lemma RoundFrame(key: Key, d: Design, s: Store)
    requires Live(key, d, s)
    ensures forall k | k != key :: At(Round(key, d, s), k) == At(ChildrenEffect(d, Registered(key, d, s)), k)
  {
    RoundStaysLive(key, d, s);
  }

  lemma TypedButFor(key: Key, s: Store, s': Store)
    requires WellTyped(s) && forall k | k != key :: At(s', k) == At(s, k)
    requires At(s', key).content.Some? ==> KindOf(At(s', key).content.value) == key.kind
    ensures WellTyped(s')
  {
    forall k | At(s', k).content.Some?
      ensures KindOf(At(s', k).content.value) == k.kind
    {
      assert k != key ==> At(s', k) == At(s, k);
    }
  }

  lemma RegisteredTyped(key: Key, d: Design, s: Store)
    requires Live(key, d, s) && WellTyped(s)
    ensures WellTyped(Registered(key, d, s))
  {
    RegisteredFrame(key, d, s);
  }

  lemma ChildrenStayTyped(d: Design, s: Store, s': Store)
    requires WellTyped(s) && s' == ChildrenEffect(d, s)
    ensures WellTyped(s')
  {
    ChildrenTyped(d, s);
  }

  lemma LiveTyped(key: Key, d: Design, s: Store)
    requires Live(key, d, s)
    ensures At(s, key).content.Some? && KindOf(At(s, key).content.value) == key.kind
  {
  }

  lemma RoundParts(key: Key, d: Design, s: Store) returns (before: Store, after: Store)
    requires Live(key, d, s) && WellTyped(s)
    ensures after == Round(key, d, s) && WellTyped(before)
    ensures forall k | k != key :: At(after, k) == At(before, k)
    ensures At(after, key).content.Some? && KindOf(At(after, key).content.value) == key.kind
  {
    var s1 := Registered(key, d, s);
    RegisteredTyped(key, d, s);
    RoundFrame(key, d, s);
    RoundStaysLive(key, d, s);
    before, after := ChildrenEffect(d, s1), Round(key, d, s);
    LiveTyped(key, d, after);
    ChildrenStayTyped(d, s1, before);
  }

  lemma RoundTyped(key: Key, d: Design, s: Store)
    requires Live(key, d, s) && WellTyped(s)
    ensures WellTyped(Round(key, d, s))
  {
    var before, after := RoundParts(key, d, s);
    TypedButFor(key, before, after);
  }

  lemma OverlayIdempotent(a: map<string, int32>, o: map<string, int32>)
    ensures (a + o) + o == a + o
  {
  }

  lemma RoundSettlesPlus(key: Key, d: Design, s: Store)
    requires Live(key, d, s)
    ensures Live(key, d, Round(key, d, s)) && PlusSettled(key, d, Round(key, d, s))
  {
    RoundStaysLive(key, d, s);
    RoundFrame(key, d, s);
    var s1, s' := Registered(key, d, s), Round(key, d, s);
    var s2 := ChildrenEffect(d, s1);
    OverlayFrame(d, StatusTasks(d), s2, s');
    OverlayIdempotent(PlusAt(key, d, s1).status.available, Overlay(d, StatusTasks(d), s2));
  }

  /** What one more reconcile achieves. */
  lemma RoundAdvances(key: Key, d: Design, s: Store, rounds: nat)
    requires Compatible(d)
    requires Live(key, d, s) && WellTyped(s) && Level(d, s, rounds)
    ensures Level(d, Round(key, d, s), rounds + 1)
  {
    var s1 := Registered(key, d, s);
    RegisteredFrame(key, d, s);
    LevelFrame(d, s, s1, rounds);
    LevelAdvances(d, s1, rounds);
    RoundFrame(key, d, s);
    LevelFrame(d, ChildrenEffect(d, s1), Round(key, d, s), rounds + 1);
  }

  lemma SettledRoundFixed(key: Key, d: Design, s: Store)
    requires Live(key, d, s) && ChildrenSettled(d, s) && PlusSettled(key, d, s)
    ensures Round(key, d, s) == s
  {
    SettledChildrenFixed(d, s);
  }

  // ----- runs of the reconciler -----

  /** Successive states of the world, one reconcile apart. */
  ghost predicate IsRun(key: Key, ws: seq<World>, fates: Fates) {
    |ws| > 0 && forall i, j | 0 <= i < j < |ws| && j == i + 1 :: ws[j] == Reconcile(key, ws[i], fates).0
  }

  /** A quiet server, a live Plus, and objects of the right kinds to begin with. */
  ghost predicate CalmRun(key: Key, d: Design, ws: seq<World>, fates: Fates) {
    IsRun(key, ws, fates) && Calm(fates) && Live(key, d, ws[0].store) && WellTyped(ws[0].store)
  }

  lemma RunStep(key: Key, d: Design, ws: seq<World>, fates: Fates, i: nat, j: nat)
    requires CalmRun(key, d, ws, fates) && i < j < |ws| && j == i + 1
    requires Live(key, d, ws[i].store) && WellTyped(ws[i].store)
    ensures ws[j].store == Round(key, d, ws[i].store)
    ensures Live(key, d, ws[j].store) && WellTyped(ws[j].store)
  {
    CalmReconcile(key, d, ws[i], fates);
    RoundStaysLive(key, d, ws[i].store);
    RoundTyped(key, d, ws[i].store);
  }

  lemma RunIsLive(key: Key, d: Design, ws: seq<World>, fates: Fates, n: nat)
    requires CalmRun(key, d, ws, fates) && n < |ws|
    ensures Live(key, d, ws[n].store) && WellTyped(ws[n].store)
  {
    var i := 0;
    while i != n
      invariant i <= n && Live(key, d, ws[i].store) && WellTyped(ws[i].store)
      decreases n - i
    {
      var j := i + 1;
      RunStep(key, d, ws, fates, i, j);
      i := j;
    }
  }

  /** Each state but the first is one Round after the one before. */
  lemma RunOfRounds(key: Key, d: Design, ws: seq<World>, fates: Fates, i: nat, j: nat)
    requires CalmRun(key, d, ws, fates) && i < j < |ws| && j == i + 1
    ensures Live(key, d, ws[i].store) && WellTyped(ws[i].store)
    ensures ws[j].store == Round(key, d, ws[i].store)
  {
    RunIsLive(key, d, ws, fates, i);
    RunStep(key, d, ws, fates, i, j);
  }

  lemma RunStarts(key: Key, d: Design, ws: seq<World>, fates: Fates)
    requires CalmRun(key, d, ws, fates)
    ensures Level(d, ws[0].store, 0)
  {
    MissingBound(d, 0, ws[0].store);
  }

  lemma LevelGoesOn(key: Key, d: Design, s: Store, s': Store, i: nat, j: nat)
    requires Compatible(d) && Live(key, d, s) && WellTyped(s) && Level(d, s, i)
    requires j == i + 1 && s' == Round(key, d, s)
    ensures Level(d, s', j)
  {
    RoundAdvances(key, d, s, i);
  }

  lemma RunGoesOn(key: Key, d: Design, ws: seq<World>, fates: Fates, i: nat, j: nat)
    requires Compatible(d) && CalmRun(key, d, ws, fates) && i < j < |ws| && j == i + 1
    requires Level(d, ws[i].store, i)
    ensures Level(d, ws[j].store, j)
  {
    RunOfRounds(key, d, ws, fates, i, j);
    LevelGoesOn(key, d, ws[i].store, ws[j].store, i, j);
  }

  lemma RunReachesLevel(key: Key, d: Design, ws: seq<World>, fates: Fates, n: nat)
    requires Compatible(d) && CalmRun(key, d, ws, fates) && n < |ws|
    ensures Level(d, ws[n].store, n)
  {
    RunStarts(key, d, ws, fates);
    var i := 0;
    while i != n
      invariant i <= n && Level(d, ws[i].store, i)
      decreases n - i
    {
      var j := i + 1;
      RunGoesOn(key, d, ws, fates, i, j);
      i := j;
    }
  }

  /** With apps that can agree on what they share, n + 1 reconciles of n apps reach a store in which every child, the
      finalizer and the status are settled. */
  lemma RunSettles(key: Key, d: Design, ws: seq<World>, fates: Fates, n: nat)
    requires Compatible(d) && CalmRun(key, d, ws, fates) && |d.spec.apps| < n < |ws|
    ensures AtRest(key, d, ws[n].store)
  {
    RunReachesLevel(key, d, ws, fates, n);
    LastLevel(d, ws[n].store, n);
    RunOfRounds(key, d, ws, fates, n - 1, n);
    RoundSettlesPlus(key, d, ws[n - 1].store);
  }

  lemma RestingRunStays(key: Key, d: Design, ws: seq<World>, fates: Fates, i: nat, j: nat)
    requires CalmRun(key, d, ws, fates) && i < j < |ws| && j == i + 1 && AtRest(key, d, ws[i].store)
    ensures ws[j].store == ws[i].store
  {
    RunOfRounds(key, d, ws, fates, i, j);
    SettledRoundFixed(key, d, ws[i].store);
  }

  lemma RunStays(key: Key, d: Design, ws: seq<World>, fates: Fates, i: nat, j: nat)
    requires Compatible(d) && CalmRun(key, d, ws, fates) && |d.spec.apps| < i < j < |ws| && j == i + 1
    ensures ws[j].store == ws[i].store
  {
    RunSettles(key, d, ws, fates, i);
    RestingRunStays(key, d, ws, fates, i, j);
  }

  /** From then on the store never changes again. */
  lemma RunConverges(key: Key, d: Design, ws: seq<World>, fates: Fates, n: nat)
    requires Compatible(d) && CalmRun(key, d, ws, fates) && |d.spec.apps| < n < |ws|
    ensures ws[n].store == ws[|d.spec.apps| + 1].store
  {
    var first := |d.spec.apps| + 1;
    var i, rest := first, ws[first].store;
    while i != n
      invariant first <= i <= n && ws[i].store == rest
      decreases n - i
    {
      var j := i + 1;
      RunStays(key, d, ws, fates, i, j);
      i := j;
    }
  }
}
