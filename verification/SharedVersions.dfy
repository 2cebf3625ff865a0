/** Nothing keeps two apps from having the same version. Such apps write the same Deployment and the same autoscaler:
    when they can live with that, and when they overwrite each other forever. */
module SharedVersions {
  import opened PlusTypes
  import opened Api
  import opened Children
  import opened Settling
  import opened CalmStages
  import opened CalmReconciles

  // ----- apps that can share -----

  /** The counts that an app's Apply leaves alone. */
  function Highest(app: App): int32 {
    if app.maxReplicas < app.minReplicas then app.minReplicas else app.maxReplicas
  }

  predicate Accepts(app: App, replicas: int32) {
    app.minReplicas <= replicas <= Highest(app)
  }

  lemma AcceptsIff(app: App, replicas: int32)
    ensures Accepts(app, replicas) <==> InRange(app, replicas) || replicas == app.minReplicas
  {
  }

  /** Both want no Deployment, or both want the same but for a replica count, a restart mark and resources on which
      they can agree. */
  predicate DeploymentsAgree(d: Design, a: App, b: App) {
    if a.minReplicas == -1 || b.minReplicas == -1 then a.minReplicas == b.minReplicas
    else
      && a.minReplicas <= Highest(b) && b.minReplicas <= Highest(a)
      && (a.restartMark != "" && b.restartMark != "" ==> a.restartMark == b.restartMark)
      && WithoutMark(PodAnnotations(a)) == WithoutMark(PodAnnotations(b))
      && SameCpuAndMemory(a.resources, b.resources)
      && AppTemplateLabels(d, a) == AppTemplateLabels(d, b)
      && AppImage(a) == AppImage(b) && a.port == b.port && a.pod == b.pod
  }

  /** The app can share its Deployment with every app of its version. */
  ghost predicate GetsAlong(d: Design, a: App) {
    forall b {:trigger DeploymentsAgree(d, a, b)} | b in d.spec.apps && Share(a, b) :: DeploymentsAgree(d, a, b)
  }

  /** Apps that share an object can agree on it: all of them on the Service, those of one version on its Deployment,
      and those of one version before the first keda app on its autoscaler. */
  ghost predicate Compatible(d: Design) {
    && UniformPorts(d.spec.apps)
    && (forall a {:trigger GetsAlong(d, a)} | a in d.spec.apps :: GetsAlong(d, a))
    && AutoscalersCompatible(d)
  }

  /** Apps with versions of their own share nothing but the Service. */
  lemma DistinctIsCompatible(d: Design)
    requires DistinctVersions(d.spec.apps)
    ensures Compatible(d) <==> UniformPorts(d.spec.apps)
  {
    DistinctAutoscalers(d);
    forall a, b | a in d.spec.apps && b in d.spec.apps && Share(a, b)
      ensures a == b
    {
      var i :| 0 <= i < |d.spec.apps| && d.spec.apps[i] == a;
      var j :| 0 <= j < |d.spec.apps| && d.spec.apps[j] == b;
      assert !(i < j) && !(j < i);
    }
  }

  // ----- the Deployment of one version, app by app -----

  /** All but the count and the value of the mark is as the app wants it. */
  predicate Fits(d: Design, app: App, slot: Slot) {
    && slot.content.Some? && slot.content.value.DeploymentObject?
    && var stored := slot.content.value.deployment;
       && RESTART_MARK in stored.podAnnotations
       && WithoutMark(stored.podAnnotations) == WithoutMark(PodAnnotations(app))
       && SameCpuAndMemory(app.resources, stored.resources)
       && stored.selector == AppLabels(d, app) && stored.podLabels == AppTemplateLabels(d, app)
       && stored.image == AppImage(app) && stored.port == app.port && stored.pod == app.pod
  }

  function Count(slot: Slot): int32
    requires slot.content.Some? && slot.content.value.DeploymentObject?
  {
    slot.content.value.deployment.replicas
  }

  function Mark(slot: Slot): string
    requires slot.content.Some? && slot.content.value.DeploymentObject?
  {
    Lookup(slot.content.value.deployment.podAnnotations, RESTART_MARK)
  }

  lemma AgreesIff(d: Design, app: App, slot: Slot)
    requires slot.content.Some? && slot.content.value.DeploymentObject?
    ensures DeploymentAgrees(d, app, slot.content.value.deployment) <==>
      Fits(d, app, slot) && Accepts(app, Count(slot)) && (app.restartMark != "" ==> Mark(slot) == app.restartMark)
  {
    AcceptsIff(app, Count(slot));
  }

  lemma Creation(d: Design, app: App, slot: Slot)
    requires slot.content.None? && app.minReplicas != -1
    ensures var slot' := Effect(d, ApplyDeployment(app), slot); Fits(d, app, slot') && Count(slot') == app.minReplicas
  {
    CreatedMark(app);
  }

  lemma Updating(d: Design, app: App, slot: Slot, slot': Slot)
    requires slot.content.Some? && slot.content.value.DeploymentObject?
    requires slot'.content.Some? && slot'.content.value.DeploymentObject?
    requires slot'.content.value.deployment == CarryOver(app, DeploymentFor(d, app), slot.content.value.deployment)
    ensures Fits(d, app, slot')
    ensures Count(slot') == (if InRange(app, Count(slot)) then Count(slot) else app.minReplicas)
    ensures Mark(slot') == (if app.restartMark == "" then Mark(slot) else app.restartMark)
  {
    CarriedAgrees(d, app, slot.content.value.deployment);
  }

  /** What one app's Apply makes of the Deployment. */
  predicate Turned(d: Design, app: App, slot: Slot, slot': Slot) {
    if app.minReplicas == -1 then slot'.content.None?
    else
      && Fits(d, app, slot')
      && (slot.content.Some? ==>
            && slot.content.value.DeploymentObject?
            && Mark(slot') == (if app.restartMark == "" then Mark(slot) else app.restartMark))
      && Count(slot') == if slot.content.Some? && InRange(app, Count(slot)) then Count(slot) else app.minReplicas
  }

  lemma TurnOnDeployment(d: Design, app: App, slot: Slot)
    requires SlotTyped(d, ApplyDeployment(app), slot)
    ensures Turned(d, app, slot, Effect(d, ApplyDeployment(app), slot))
  {
    if app.minReplicas != -1 {
      if slot.content.Some? {
        ExistingEffect(d, app, slot);
        Updating(d, app, slot, Effect(d, ApplyDeployment(app), slot));
      } else {
        Creation(d, app, slot);
      }
    }
  }

  lemma FitsTheOther(d: Design, a: App, b: App, slot: Slot)
    requires DeploymentsAgree(d, a, b) && a.minReplicas != -1 && a.version == b.version && Fits(d, a, slot)
    ensures Fits(d, b, slot)
  {
  }

  /** The count is no more than the largest lower bound among the apps of this version. */
  ghost predicate LowEnough(d: Design, app: App, replicas: int32) {
    exists b | b in d.spec.apps :: Share(app, b) && replicas <= b.minReplicas
  }

  ghost predicate AllAccept(d: Design, app: App, replicas: int32, n: nat)
    requires n <= |d.spec.apps|
  {
    forall j | 0 <= j < n && Share(app, d.spec.apps[j]) :: Accepts(d.spec.apps[j], replicas)
  }

  /** What the Deployment of an app's version looks like after every app has had a turn. */
  ghost predicate PassedSlot(d: Design, app: App, slot: Slot) {
    if app.minReplicas == -1 then slot.content.None?
    else
      && Fits(d, app, slot)
      && (AllAccept(d, app, Count(slot), |d.spec.apps|) || LowEnough(d, app, Count(slot)))
  }

  // ----- all the Deployments, app by app -----

  /** The store once the first i apps have had their turn. */
  function Deployed(d: Design, s: Store, i: nat): Store
    requires i <= |d.spec.apps|
  {
    if i == 0 then s
    else
      var t, before := ApplyDeployment(d.spec.apps[i - 1]), Deployed(d, s, i - 1);
      Put(before, KeyOf(d, t), Effect(d, t, At(before, KeyOf(d, t))))
  }

  lemma DeployedNext(d: Design, s: Store, i: nat, j: nat)
    requires i < j <= |d.spec.apps| && j == i + 1
    ensures var t, before := ApplyDeployment(d.spec.apps[i]), Deployed(d, s, i);
      Deployed(d, s, j) == Put(before, KeyOf(d, t), Effect(d, t, At(before, KeyOf(d, t))))
  {
    assert j - 1 == i;
  }

  lemma DeployedTypedStep(d: Design, s: Store, i: nat, j: nat)
    requires i < j <= |d.spec.apps| && j == i + 1 && WellTyped(Deployed(d, s, i))
    ensures WellTyped(Deployed(d, s, j))
  {
    DeployedNext(d, s, i, j);
    PutTyped(d, ApplyDeployment(d.spec.apps[i]), Deployed(d, s, i));
  }

  lemma DeployedTyped(d: Design, s: Store, n: nat)
    requires WellTyped(s) && n <= |d.spec.apps|
    ensures WellTyped(Deployed(d, s, n))
  {
    var i := 0;
    while i != n
      invariant i <= n && WellTyped(Deployed(d, s, i))
      decreases n - i
    {
      var j := i + 1;
      DeployedTypedStep(d, s, i, j);
      i := j;
    }
  }

  lemma DeploymentNeverEnds(d: Design, app: App, slot: Slot)
    requires SlotTyped(d, ApplyDeployment(app), slot)
    ensures !Ends(d, ApplyDeployment(app), slot)
  {
  }

  lemma DeployedTurn(d: Design, s: Store, i: nat)
    requires WellTyped(s) && i < |d.spec.apps|
    ensures StageEffect(d, DeploymentTasks(d)[i..], Deployed(d, s, i))
         == StageEffect(d, DeploymentTasks(d)[i + 1..], Deployed(d, s, i + 1))
  {
    DeployedTyped(d, s, i);
    var t := DeploymentTasks(d)[i];
    DeploymentNeverEnds(d, d.spec.apps[i], At(Deployed(d, s, i), KeyOf(d, t)));
    assert DeploymentTasks(d)[i..][1..] == DeploymentTasks(d)[i + 1..];
  }

  lemma DeployedIsStage(d: Design, s: Store)
    requires WellTyped(s)
    ensures AfterDeployments(d, s) == Deployed(d, s, |d.spec.apps|)
  {
    assert DeploymentTasks(d)[0..] == DeploymentTasks(d);
    for i := 0 to |d.spec.apps|
      invariant StageEffect(d, DeploymentTasks(d)[i..], Deployed(d, s, i)) == AfterDeployments(d, s)
    {
      DeployedTurn(d, s, i);
    }
  }

  function SlotOf(d: Design, app: App, s: Store): Slot {
    At(s, KeyOf(d, ApplyDeployment(app)))
  }

  lemma SlotPut(d: Design, app: App, x: App, s: Store, s': Store)
    requires s' == Put(s, KeyOf(d, ApplyDeployment(x)), Effect(d, ApplyDeployment(x), SlotOf(d, x, s)))
    ensures SlotOf(d, app, s')
         == if Share(app, x) then Effect(d, ApplyDeployment(x), SlotOf(d, app, s)) else SlotOf(d, app, s)
  {
    AppNameInjective(d, app, x);
  }

  /** Only the apps of a version touch its Deployment. */
  lemma SlotTurn(d: Design, s: Store, app: App, i: nat, j: nat)
    requires WellTyped(s) && i < j <= |d.spec.apps| && j == i + 1
    ensures SlotTyped(d, ApplyDeployment(app), SlotOf(d, app, Deployed(d, s, i)))
    ensures SlotOf(d, app, Deployed(d, s, j))
         == if Share(app, d.spec.apps[i])
            then Effect(d, ApplyDeployment(d.spec.apps[i]), SlotOf(d, app, Deployed(d, s, i)))
            else SlotOf(d, app, Deployed(d, s, i))
  {
    DeployedTyped(d, s, i);
    DeployedNext(d, s, i, j);
    SlotPut(d, app, d.spec.apps[i], Deployed(d, s, i), Deployed(d, s, j));
  }

  // ----- the first pass -----

  ghost predicate Seen(d: Design, app: App, i: nat)
    requires i <= |d.spec.apps|
  {
    exists j | 0 <= j < i :: Share(app, d.spec.apps[j])
  }

  ghost predicate Passing(d: Design, app: App, slot: Slot, i: nat)
    requires i <= |d.spec.apps|
  {
    Seen(d, app, i) ==>
      if app.minReplicas == -1 then slot.content.None?
      else Fits(d, app, slot) && (AllAccept(d, app, Count(slot), i) || LowEnough(d, app, Count(slot)))
  }

  ghost predicate Partners(d: Design, a: App, b: App) {
    a in d.spec.apps && b in d.spec.apps && Share(a, b) && DeploymentsAgree(d, a, b) && DeploymentsAgree(d, b, a)
  }

  lemma CompatiblePartners(d: Design, a: App, b: App)
    requires Compatible(d) && a in d.spec.apps && b in d.spec.apps && Share(a, b)
    ensures Partners(d, a, b) && KeyOf(d, ApplyDeployment(a)) == KeyOf(d, ApplyDeployment(b))
  {
    assert GetsAlong(d, a) && GetsAlong(d, b);
  }

  lemma CountPasses(d: Design, app: App, count: int32, i: nat, j: nat)
    requires i < j <= |d.spec.apps| && j == i + 1 && Share(app, d.spec.apps[i])
    requires Seen(d, app, i) ==> AllAccept(d, app, count, i) || LowEnough(d, app, count)
    ensures Accepts(d.spec.apps[i], count) ==> AllAccept(d, app, count, j) || LowEnough(d, app, count)
  {
  }

  lemma LowestPasses(d: Design, app: App, i: nat)
    requires i < |d.spec.apps| && Share(app, d.spec.apps[i])
    ensures LowEnough(d, app, d.spec.apps[i].minReplicas)
  {
    assert d.spec.apps[i] in d.spec.apps;
  }

  lemma FirstPassTurn(d: Design, app: App, slot: Slot, slot': Slot, i: nat, j: nat)
    requires i < j <= |d.spec.apps| && j == i + 1 && Partners(d, app, d.spec.apps[i])
    requires Passing(d, app, slot, i) && Turned(d, d.spec.apps[i], slot, slot')
    ensures Passing(d, app, slot', j)
  {
    var x := d.spec.apps[i];
    if app.minReplicas != -1 {
      FitsTheOther(d, x, app, slot');
      if slot.content.Some? && InRange(x, Count(slot)) {
        AcceptsIff(x, Count(slot));
        CountPasses(d, app, Count(slot), i, j);
      } else {
        LowestPasses(d, app, i);
      }
    }
  }

  lemma OthersPass(d: Design, app: App, slot: Slot, i: nat, j: nat)
    requires i < j <= |d.spec.apps| && j == i + 1 && !Share(app, d.spec.apps[i]) && Passing(d, app, slot, i)
    ensures Passing(d, app, slot, j)
  {
  }

  lemma FirstPassStep(d: Design, s: Store, app: App, i: nat, j: nat, slot: Slot) returns (slot': Slot)
    requires Compatible(d) && WellTyped(s) && app in d.spec.apps && i < j <= |d.spec.apps| && j == i + 1
    requires slot == SlotOf(d, app, Deployed(d, s, i)) && Passing(d, app, slot, i)
    ensures slot' == SlotOf(d, app, Deployed(d, s, j)) && Passing(d, app, slot', j)
  {
    SlotTurn(d, s, app, i, j);
    slot' := SlotOf(d, app, Deployed(d, s, j));
    if Share(app, d.spec.apps[i]) {
      CompatiblePartners(d, app, d.spec.apps[i]);
      TurnOnDeployment(d, d.spec.apps[i], slot);
      FirstPassTurn(d, app, slot, slot', i, j);
    } else {
      OthersPass(d, app, slot, i, j);
    }
  }

  lemma PassingAll(d: Design, app: App, slot: Slot)
    requires app in d.spec.apps && Passing(d, app, slot, |d.spec.apps|)
    ensures PassedSlot(d, app, slot)
  {
    var j :| 0 <= j < |d.spec.apps| && d.spec.apps[j] == app;
    assert Share(app, d.spec.apps[j]);
  }

  lemma FirstPass(d: Design, s: Store, app: App)
    requires Compatible(d) && WellTyped(s) && app in d.spec.apps
    ensures PassedSlot(d, app, SlotOf(d, app, AfterDeployments(d, s)))
  {
    var slot, i, n := SlotOf(d, app, s), 0, |d.spec.apps|;
    while i != n
      invariant i <= n && slot == SlotOf(d, app, Deployed(d, s, i)) && Passing(d, app, slot, i)
      decreases n - i
    {
      var j := i + 1;
      slot := FirstPassStep(d, s, app, i, j, slot);
      i := j;
    }
    DeployedIsStage(d, s);
    PassingAll(d, app, slot);
  }

  // ----- the second pass -----

  /** The count is accepted by all; or, once raised by the first i apps, no more than the largest lower bound. */
  ghost predicate CountCloses(d: Design, app: App, count: int32, i: nat)
    requires i <= |d.spec.apps|
  {
    || AllAccept(d, app, count, |d.spec.apps|)
    || (LowEnough(d, app, count)
        && forall j | 0 <= j < i && Share(app, d.spec.apps[j]) :: d.spec.apps[j].minReplicas <= count)
  }

  ghost predicate MarkCloses(d: Design, app: App, mark: string, i: nat)
    requires i <= |d.spec.apps|
  {
    forall j | 0 <= j < i && Share(app, d.spec.apps[j]) && d.spec.apps[j].restartMark != "" ::
      mark == d.spec.apps[j].restartMark
  }

  ghost predicate Closing(d: Design, app: App, slot: Slot, i: nat)
    requires i <= |d.spec.apps|
  {
    if app.minReplicas == -1 then slot.content.None?
    else Fits(d, app, slot) && CountCloses(d, app, Count(slot), i) && MarkCloses(d, app, Mark(slot), i)
  }

  ghost predicate AllPartners(d: Design, app: App) {
    forall b {:trigger Partners(d, app, b)} | b in d.spec.apps && Share(app, b) :: Partners(d, app, b)
  }

  lemma CompatibleAllPartners(d: Design, app: App)
    requires Compatible(d) && app in d.spec.apps
    ensures AllPartners(d, app)
  {
    forall b | b in d.spec.apps && Share(app, b)
      ensures Partners(d, app, b)
    {
      CompatiblePartners(d, app, b);
    }
  }

  /** A low enough count is not above what a partner accepts. */
  lemma LowEnoughIsNotTooHigh(d: Design, app: App, x: App, count: int32)
    requires Share(app, x) && AllPartners(d, x) && x.minReplicas != -1 && LowEnough(d, app, count)
    ensures count <= Highest(x)
  {
    var b :| b in d.spec.apps && Share(app, b) && count <= b.minReplicas;
    assert Partners(d, x, b);
  }

  lemma RaisedIsLowEnough(d: Design, app: App, x: App)
    requires x in d.spec.apps && Share(app, x)
    ensures LowEnough(d, app, x.minReplicas)
  {
  }

  lemma CountTurn(d: Design, app: App, count: int32, i: nat, j: nat)
    requires i < j <= |d.spec.apps| && j == i + 1 && Share(app, d.spec.apps[i]) && AllPartners(d, d.spec.apps[i])
    requires d.spec.apps[i].minReplicas != -1 && CountCloses(d, app, count, i)
    ensures CountCloses(d, app, if Accepts(d.spec.apps[i], count) then count else d.spec.apps[i].minReplicas, j)
  {
    var x := d.spec.apps[i];
    if !AllAccept(d, app, count, |d.spec.apps|) {
      LowEnoughIsNotTooHigh(d, app, x, count);
      RaisedIsLowEnough(d, app, x);
    }
  }

  lemma MarkTurn(d: Design, app: App, mark: string, i: nat, j: nat)
    requires i < j <= |d.spec.apps| && j == i + 1 && AllPartners(d, d.spec.apps[i])
    requires Share(app, d.spec.apps[i]) && d.spec.apps[i].minReplicas != -1 && MarkCloses(d, app, mark, i)
    ensures MarkCloses(d, app, if d.spec.apps[i].restartMark == "" then mark else d.spec.apps[i].restartMark, j)
  {
    var x := d.spec.apps[i];
    forall k | 0 <= k < i && Share(app, d.spec.apps[k]) && d.spec.apps[k].restartMark != "" && x.restartMark != ""
      ensures x.restartMark == d.spec.apps[k].restartMark
    {
      assert Partners(d, x, d.spec.apps[k]);
    }
  }

  lemma SecondPassTurn(d: Design, app: App, slot: Slot, slot': Slot, i: nat, j: nat)
    requires i < j <= |d.spec.apps| && j == i + 1
    requires Partners(d, app, d.spec.apps[i]) && AllPartners(d, d.spec.apps[i])
    requires Closing(d, app, slot, i) && Turned(d, d.spec.apps[i], slot, slot')
    ensures Closing(d, app, slot', j)
  {
    var x := d.spec.apps[i];
    if app.minReplicas != -1 {
      FitsTheOther(d, x, app, slot');
      AcceptsIff(x, Count(slot));
      CountTurn(d, app, Count(slot), i, j);
      MarkTurn(d, app, Mark(slot), i, j);
    }
  }

  lemma OthersTurn(d: Design, app: App, slot: Slot, i: nat, j: nat)
    requires i < j <= |d.spec.apps| && j == i + 1 && !Share(app, d.spec.apps[i]) && Closing(d, app, slot, i)
    ensures Closing(d, app, slot, j)
  {
  }

  lemma SecondPassStep(d: Design, s: Store, app: App, i: nat, j: nat, slot: Slot) returns (slot': Slot)
    requires Compatible(d) && WellTyped(s) && app in d.spec.apps && i < j <= |d.spec.apps| && j == i + 1
    requires slot == SlotOf(d, app, Deployed(d, s, i)) && Closing(d, app, slot, i)
    ensures slot' == SlotOf(d, app, Deployed(d, s, j)) && Closing(d, app, slot', j)
  {
    SlotTurn(d, s, app, i, j);
    slot' := SlotOf(d, app, Deployed(d, s, j));
    if Share(app, d.spec.apps[i]) {
      CompatiblePartners(d, app, d.spec.apps[i]);
      CompatibleAllPartners(d, d.spec.apps[i]);
      TurnOnDeployment(d, d.spec.apps[i], slot);
      SecondPassTurn(d, app, slot, slot', i, j);
    } else {
      OthersTurn(d, app, slot, i, j);
    }
  }

  lemma ClosedSuits(d: Design, app: App, count: int32, mark: string)
    requires app in d.spec.apps && AllPartners(d, app) && app.minReplicas != -1
    requires CountCloses(d, app, count, |d.spec.apps|) && MarkCloses(d, app, mark, |d.spec.apps|)
    ensures Accepts(app, count) && (app.restartMark != "" ==> mark == app.restartMark)
  {
    var j :| 0 <= j < |d.spec.apps| && d.spec.apps[j] == app;
    assert Share(app, d.spec.apps[j]);
    if !AllAccept(d, app, count, |d.spec.apps|) {
      var b :| b in d.spec.apps && Share(app, b) && count <= b.minReplicas;
      assert Partners(d, app, b);
    }
  }

  lemma PassedCloses(d: Design, app: App, slot: Slot)
    requires PassedSlot(d, app, slot)
    ensures Closing(d, app, slot, 0)
  {
  }

  lemma ClosedIsSettled(d: Design, app: App, slot: Slot)
    requires app in d.spec.apps && AllPartners(d, app) && SlotTyped(d, ApplyDeployment(app), slot)
    requires Closing(d, app, slot, |d.spec.apps|)
    ensures Settled(d, ApplyDeployment(app), slot)
  {
    DeploymentSettledIff(d, app, slot);
    if app.minReplicas != -1 {
      ClosedSuits(d, app, Count(slot), Mark(slot));
      AgreesIff(d, app, slot);
    }
  }

  lemma ClosesAfter(d: Design, s: Store, app: App) returns (slot: Slot)
    requires Compatible(d) && WellTyped(s) && app in d.spec.apps && PassedSlot(d, app, SlotOf(d, app, s))
    ensures slot == SlotOf(d, app, Deployed(d, s, |d.spec.apps|)) && Closing(d, app, slot, |d.spec.apps|)
  {
    slot := SlotOf(d, app, s);
    PassedCloses(d, app, slot);
    var i, n := 0, |d.spec.apps|;
    while i != n
      invariant i <= n && slot == SlotOf(d, app, Deployed(d, s, i)) && Closing(d, app, slot, i)
      decreases n - i
    {
      var j := i + 1;
      slot := SecondPassStep(d, s, app, i, j, slot);
      i := j;
    }
  }

  /** With every app's turn behind it, one more pass settles every Deployment for all of its apps. */
  lemma SecondPass(d: Design, s: Store, app: App)
    requires Compatible(d) && WellTyped(s) && app in d.spec.apps && PassedSlot(d, app, SlotOf(d, app, s))
    ensures Settled(d, ApplyDeployment(app), SlotOf(d, app, AfterDeployments(d, s)))
  {
    var slot := ClosesAfter(d, s, app);
    DeployedIsStage(d, s);
    DeployedTyped(d, s, |d.spec.apps|);
    CompatibleAllPartners(d, app);
    ClosedIsSettled(d, app, slot);
  }
}
