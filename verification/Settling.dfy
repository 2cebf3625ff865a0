/** When a task has nothing left to do, said about the stored contents, and how soon it gets there. */
module Settling {
  import opened Wrappers
  import opened PlusTypes
  import opened Routes
  import opened Api
  import opened Children

  /** Carrying the task out again would not change its slot. */
  predicate Settled(d: Design, t: Task, slot: Slot) {
    Effect(d, t, slot) == slot
  }

  predicate SlotTyped(d: Design, t: Task, slot: Slot) {
    slot.content.Some? ==> KindOf(slot.content.value) == KeyOf(d, t).kind
  }

  lemma ServeTyped(kind: Kind, slot: Slot, verb: Verb)
    requires slot.content.Some? ==> KindOf(slot.content.value) == kind
    requires VerbTyped(kind, verb)
    ensures var slot' := Serve(slot, verb).0;
      slot'.content.Some? ==> KindOf(slot'.content.value) == kind
  {
  }

  lemma EffectTyped(d: Design, t: Task, slot: Slot)
    requires SlotTyped(d, t, slot)
    ensures SlotTyped(d, t, Effect(d, t, slot))
  {
    var decision := Decide(d, t, ViewSlot(slot));
    DecidedWriteTyped(d, t, ViewSlot(slot));
    if decision.Issue? {
      ServeTyped(KeyOf(d, t).kind, slot, decision.verb);
    }
  }

  // ----- Deployments -----

  function WithoutMark(annotations: StringMap): StringMap {
    annotations - {RESTART_MARK}
  }

  /** A stored Deployment that matches its app: everything as generated, except for an in-range replica count,
      the retained restart mark when the app sets none, and the resources, of which only the printed CPU and memory
      have to be the app's: other resources may be anything. */
  predicate DeploymentAgrees(d: Design, app: App, stored: DeploymentSpec) {
    && (InRange(app, stored.replicas) || stored.replicas == app.minReplicas)
    && RESTART_MARK in stored.podAnnotations
    && (app.restartMark != "" ==> stored.podAnnotations[RESTART_MARK] == app.restartMark)
    && WithoutMark(stored.podAnnotations) == WithoutMark(PodAnnotations(app))
    && SameCpuAndMemory(app.resources, stored.resources)
    && stored.selector == AppLabels(d, app) && stored.podLabels == AppTemplateLabels(d, app)
    && stored.image == AppImage(app) && stored.port == app.port && stored.pod == app.pod
  }

  lemma SetMark(wanted: StringMap, stored: StringMap, mark: string)
    ensures wanted[RESTART_MARK := mark] == stored
       <==> RESTART_MARK in stored && stored[RESTART_MARK] == mark && WithoutMark(stored) == WithoutMark(wanted)
  {
    assert WithoutMark(wanted[RESTART_MARK := mark]) == WithoutMark(wanted);
    if RESTART_MARK in stored && stored[RESTART_MARK] == mark && WithoutMark(stored) == WithoutMark(wanted) {
      assert stored == WithoutMark(stored)[RESTART_MARK := mark];
      assert wanted[RESTART_MARK := mark] == WithoutMark(wanted)[RESTART_MARK := mark];
    }
  }

  lemma CarryOverFixedIff(d: Design, app: App, stored: DeploymentSpec)
    ensures CarryOver(app, DeploymentFor(d, app), stored) == stored <==> DeploymentAgrees(d, app, stored)
  {
    var mark := if app.restartMark == "" then Lookup(stored.podAnnotations, RESTART_MARK) else app.restartMark;
    SetMark(PodAnnotations(app), stored.podAnnotations, mark);
  }

  /** A Deployment is left alone exactly when it agrees, or is absent and not wanted. */
  lemma DeploymentSettledIff(d: Design, app: App, slot: Slot)
    requires SlotTyped(d, ApplyDeployment(app), slot)
    ensures Settled(d, ApplyDeployment(app), slot) <==>
      if app.minReplicas == -1 then slot.content.None?
      else slot.content.Some? && DeploymentAgrees(d, app, slot.content.value.deployment)
    ensures Settled(d, ApplyDeployment(app), slot) && app.minReplicas != -1 ==>
      var stored := slot.content.value.deployment.resources;
      && stored.requestCpu.canonical == app.resources.requestCpu.canonical
      && stored.requestMemory.canonical == app.resources.requestMemory.canonical
      && stored.limitCpu.canonical == app.resources.limitCpu.canonical
      && stored.limitMemory.canonical == app.resources.limitMemory.canonical
  {
    if app.minReplicas != -1 && slot.content.Some? {
      CarryOverFixedIff(d, app, slot.content.value.deployment);
    }
  }

  /** A freshly created Deployment carries a template annotation where the restart mark belongs. */
  predicate CreationCollides(app: App) {
    && app.restartMark != "" && RESTART_MARK in app.templateAnnotations
    && app.templateAnnotations[RESTART_MARK] != app.restartMark
  }

  lemma CreatedMark(app: App)
    ensures RESTART_MARK in PodAnnotations(app)
    ensures PodAnnotations(app)[RESTART_MARK]
         == if RESTART_MARK in app.templateAnnotations then app.templateAnnotations[RESTART_MARK] else app.restartMark
  {
    assert RESTART_MARK !in IfSet("sidecar.istio.io/proxyCPU", app.proxyResources.requestCpu);
    assert RESTART_MARK !in IfSet("sidecar.istio.io/proxyCPULimit", app.proxyResources.limitCpu);
    assert RESTART_MARK !in IfSet("sidecar.istio.io/proxyMemory", app.proxyResources.requestMemory);
    assert RESTART_MARK !in IfSet("sidecar.istio.io/proxyMemoryLimit", app.proxyResources.limitMemory);
  }

  lemma CarriedAgrees(d: Design, app: App, stored: DeploymentSpec)
    ensures DeploymentAgrees(d, app, CarryOver(app, DeploymentFor(d, app), stored))
  {
    var mark := if app.restartMark == "" then Lookup(stored.podAnnotations, RESTART_MARK) else app.restartMark;
    var carried := CarryOver(app, DeploymentFor(d, app), stored);
    SetMark(PodAnnotations(app), carried.podAnnotations, mark);
  }

  lemma CreatedAgreesIff(d: Design, app: App)
    ensures DeploymentAgrees(d, app, DeploymentFor(d, app)) <==> !CreationCollides(app)
  {
    CreatedMark(app);
  }

  lemma CreationSettlesIff(d: Design, app: App, slot: Slot)
    requires slot.content.None? && app.minReplicas != -1
    ensures Settled(d, ApplyDeployment(app), Effect(d, ApplyDeployment(app), slot)) <==> !CreationCollides(app)
  {
    DeploymentSettledIff(d, app, Effect(d, ApplyDeployment(app), slot));
    CreatedAgreesIff(d, app);
  }

  /** An existing Deployment ends up as the generated one with what is carried over. */
  lemma ExistingEffect(d: Design, app: App, slot: Slot)
    requires SlotTyped(d, ApplyDeployment(app), slot) && slot.content.Some? && app.minReplicas != -1
    ensures var content := Effect(d, ApplyDeployment(app), slot).content;
      && content.Some? && content.value.DeploymentObject?
      && content.value.deployment == CarryOver(app, DeploymentFor(d, app), slot.content.value.deployment)
  {
  }

  lemma AgreeingIsSettled(d: Design, app: App, slot: Slot)
    requires slot.content.Some? && slot.content.value.DeploymentObject? && app.minReplicas != -1
    requires DeploymentAgrees(d, app, slot.content.value.deployment)
    ensures Settled(d, ApplyDeployment(app), slot)
  {
    DeploymentSettledIff(d, app, slot);
  }

  lemma UpdateSettles(d: Design, app: App, slot: Slot)
    requires SlotTyped(d, ApplyDeployment(app), slot) && slot.content.Some? && app.minReplicas != -1
    ensures Settled(d, ApplyDeployment(app), Effect(d, ApplyDeployment(app), slot))
  {
    ExistingEffect(d, app, slot);
    CarriedAgrees(d, app, slot.content.value.deployment);
    AgreeingIsSettled(d, app, Effect(d, ApplyDeployment(app), slot));
  }

  /** One Apply settles a Deployment, except one it has to create against a colliding template annotation. */
  lemma DeploymentSettlesIff(d: Design, app: App, slot: Slot)
    requires SlotTyped(d, ApplyDeployment(app), slot)
    ensures Settled(d, ApplyDeployment(app), Effect(d, ApplyDeployment(app), slot))
       <==> !(slot.content.None? && app.minReplicas != -1 && CreationCollides(app))
  {
    if app.minReplicas != -1 {
      if slot.content.None? {
        CreationSettlesIff(d, app, slot);
      } else {
        UpdateSettles(d, app, slot);
      }
    }
  }

  /** Two always do. */
  lemma DeploymentSettlesInTwo(d: Design, app: App, slot: Slot)
    requires SlotTyped(d, ApplyDeployment(app), slot)
    ensures var t := ApplyDeployment(app); Settled(d, t, Effect(d, t, Effect(d, t, slot)))
  {
    var t := ApplyDeployment(app);
    DeploymentSettlesIff(d, app, slot);
    DeploymentSettlesIff(d, app, Effect(d, t, slot));
  }

  /** Apply never changes an in-range replica count, and an app without a restart mark keeps the stored one. */
  lemma ApplyPreserves(d: Design, app: App, slot: Slot)
    requires SlotTyped(d, ApplyDeployment(app), slot) && slot.content.Some? && app.minReplicas != -1
    ensures var before, after := slot.content.value, Effect(d, ApplyDeployment(app), slot).content;
      && after.Some? && after.value.DeploymentObject? && after.value.available == before.available
      && (InRange(app, before.deployment.replicas) ==> after.value.deployment.replicas == before.deployment.replicas)
      && (app.restartMark == "" ==>
            var mark := Lookup(before.deployment.podAnnotations, RESTART_MARK);
            Lookup(after.value.deployment.podAnnotations, RESTART_MARK) == mark)
  {
  }

  predicate LeavesMark(app: App, stored: DeploymentSpec) {
    app.restartMark == "" || app.restartMark == Lookup(stored.podAnnotations, RESTART_MARK)
  }

  predicate LeavesCount(app: App, stored: DeploymentSpec) {
    InRange(app, stored.replicas) || stored.replicas == app.minReplicas
  }

  predicate LeavesResources(app: App, stored: DeploymentSpec) {
    SameCpuAndMemory(app.resources, stored.resources)
  }

  /** Exactly when an Apply to an existing Deployment leaves its mark, its count and its resources as they are. */
  lemma ApplyLeavesIff(d: Design, app: App, slot: Slot)
    requires SlotTyped(d, ApplyDeployment(app), slot) && slot.content.Some? && app.minReplicas != -1
    ensures var before, content := slot.content.value.deployment, Effect(d, ApplyDeployment(app), slot).content;
      && content.Some? && content.value.DeploymentObject?
      && var after := content.value.deployment;
         && (Lookup(after.podAnnotations, RESTART_MARK) == Lookup(before.podAnnotations, RESTART_MARK)
             <==> LeavesMark(app, before))
         && (after.replicas == before.replicas <==> LeavesCount(app, before))
         && (after.resources == before.resources <==> LeavesResources(app, before))
  {
    ExistingEffect(d, app, slot);
  }

  function StoredResources(slot: Slot): Resources
    requires slot.content.Some? && slot.content.value.DeploymentObject?
  {
    slot.content.value.deployment.resources
  }

  /** The resources stored after an Apply are the app's exactly when they were before, or when the printed CPU or
      memory differs. */
  lemma ResourcesAppliedIff(d: Design, app: App, slot: Slot)
    requires SlotTyped(d, ApplyDeployment(app), slot) && slot.content.Some? && app.minReplicas != -1
    ensures var slot' := Effect(d, ApplyDeployment(app), slot);
      && slot'.content.Some? && slot'.content.value.DeploymentObject?
      && (StoredResources(slot') == app.resources <==>
            || StoredResources(slot) == app.resources
            || StoredResources(slot).requestCpu.canonical != app.resources.requestCpu.canonical
            || StoredResources(slot).requestMemory.canonical != app.resources.requestMemory.canonical
            || StoredResources(slot).limitCpu.canonical != app.resources.limitCpu.canonical
            || StoredResources(slot).limitMemory.canonical != app.resources.limitMemory.canonical)
  {
    ExistingEffect(d, app, slot);
  }

  /** Whatever was stored: after an Apply the four printed quantities are the app's. */
  lemma PrintedResourcesApplied(d: Design, app: App, slot: Slot)
    requires SlotTyped(d, ApplyDeployment(app), slot) && slot.content.Some? && app.minReplicas != -1
    ensures var slot' := Effect(d, ApplyDeployment(app), slot);
      && slot'.content.Some? && slot'.content.value.DeploymentObject?
      && StoredResources(slot').requestCpu.canonical == app.resources.requestCpu.canonical
      && StoredResources(slot').requestMemory.canonical == app.resources.requestMemory.canonical
      && StoredResources(slot').limitCpu.canonical == app.resources.limitCpu.canonical
      && StoredResources(slot').limitMemory.canonical == app.resources.limitMemory.canonical
  {
    ExistingEffect(d, app, slot);
  }

  /** And the stored resources are kept whole exactly when those four were the app's already. */
  lemma ResourcesKeptIff(d: Design, app: App, slot: Slot)
    requires SlotTyped(d, ApplyDeployment(app), slot) && slot.content.Some? && app.minReplicas != -1
    ensures var slot' := Effect(d, ApplyDeployment(app), slot);
      && slot'.content.Some? && slot'.content.value.DeploymentObject?
      && (StoredResources(slot') == StoredResources(slot) <==>
            && StoredResources(slot).requestCpu.canonical == app.resources.requestCpu.canonical
            && StoredResources(slot).requestMemory.canonical == app.resources.requestMemory.canonical
            && StoredResources(slot).limitCpu.canonical == app.resources.limitCpu.canonical
            && StoredResources(slot).limitMemory.canonical == app.resources.limitMemory.canonical)
  {
    ExistingEffect(d, app, slot);
  }

  /** A change to any other resource is dropped while CPU and memory stay as they are. */
  lemma OtherResourcesNeverApplied(d: Design, app: App, slot: Slot)
    requires SlotTyped(d, ApplyDeployment(app), slot) && slot.content.Some? && app.minReplicas != -1
    requires SameCpuAndMemory(app.resources, slot.content.value.deployment.resources)
    ensures Effect(d, ApplyDeployment(app), slot).content.value.deployment.resources
         == slot.content.value.deployment.resources
  {
  }

  const ONE_CORE := Quantity("1", "1")
  const ONE_GIB := Quantity("1Gi", "1Gi")

  /** An app with these resources; `gpus` is all of them that is neither CPU nor memory. */
  function GpuApp(gpus: string): App {
    var resources := Resources(ONE_CORE, ONE_GIB, ONE_CORE, ONE_GIB, gpus);
    App("blue", "shop:1.0", 2, 5, 8080, "http", "", map[], map[], resources, resources, "", "")
  }

  function GpuDesign(gpus: string): Design {
    Design("shop", "prod", map[], map[], Spec(None, None, [GpuApp(gpus)]))
  }

  /** An app that is deployed with one GPU and then asks for eight: the Deployment stored for one GPU counts as
      settled for the new spec, so the change is never made. */
  lemma EightGpusNeverCome()
    ensures var d, app := GpuDesign("gpu: 8"), GpuApp("gpu: 8");
      var before := GpuDesign("gpu: 1");
      var slot := Effect(before, ApplyDeployment(GpuApp("gpu: 1")), EMPTY);
      && slot.content.Some? && slot.content.value.DeploymentObject?
      && Settled(d, ApplyDeployment(app), slot) && StoredResources(slot).other == "gpu: 1" != app.resources.other
  {
    var before, old_ := GpuDesign("gpu: 1"), GpuApp("gpu: 1");
    var d, app := GpuDesign("gpu: 8"), GpuApp("gpu: 8");
    CreatedAgreesIff(before, old_);
    var stored := DeploymentFor(before, old_);
    assert PodAnnotations(app) == PodAnnotations(old_);
    CarryOverFixedIff(d, app, stored);
  }

  /** The autoscaler scales the app's own Deployment, and a count is kept by Apply exactly when it lies within the
      bounds the autoscaler is given; any other count goes back to the lower bound. */
  lemma AutoscalerAndDeploymentAgree(d: Design, app: App, found: DeploymentSpec)
    ensures var hpa := AutoscalerFor(d, app);
      && hpa.targetName == KeyOf(d, ApplyDeployment(app)).name
      && CarryOver(app, DeploymentFor(d, app), found).replicas
         == if hpa.minReplicas <= found.replicas <= hpa.maxReplicas then found.replicas else hpa.minReplicas
  {
  }

  // ----- the other resources -----

  /** The stored object matches; one that cannot compare equal is rewritten until its metadata matches too. */
  predicate Matches(d: Design, t: Task, o: Object)
    requires !t.ApplyDeployment? && !t.ReadStatus? && KindOf(o) == KeyOf(d, t).kind
  {
    match t
    case ApplyService(app) => o.service == ServiceFor(d, app)
    case ApplyDestinationRule =>
      o.destinationRule == DestinationRuleFor(d) && (DestinationRuleRoundTrips(d) || o.meta == NO_META)
    case ApplyGateway =>
      d.spec.gateway.Some? ==>
        && o.virtualService == GatewayVirtualService(d, d.spec.gateway.value)
        && (GatewayRoundTrips(d, d.spec.gateway.value) || o.meta == LabelMeta(d))
    case ApplyMesh => o.virtualService == MeshVirtualService(d) && (MeshRoundTrips(d) || o.meta == LabelMeta(d))
    case ApplyAutoscaler(app) => o.autoscaler == AutoscalerFor(d, app)
  }

  predicate Unwanted(d: Design, t: Task) {
    || (t.ApplyAutoscaler? && t.app.minReplicas == -1)
    || (t.ApplyGateway? && d.spec.gateway.None?)
  }

  lemma SettledIff(d: Design, t: Task, slot: Slot)
    requires SlotTyped(d, t, slot) && !t.ApplyDeployment? && !t.ReadStatus? && !Unwanted(d, t)
    ensures Settled(d, t, slot) <==> slot.content.Some? && Matches(d, t, slot.content.value)
  {
  }

  /** Every task but a Deployment's is settled once it has been carried out. */
  lemma EffectSettles(d: Design, t: Task, slot: Slot)
    requires SlotTyped(d, t, slot) && !t.ApplyDeployment?
    ensures Settled(d, t, Effect(d, t, slot))
    ensures SlotTyped(d, t, Effect(d, t, slot))
  {
    if !t.ReadStatus? && !Unwanted(d, t) {
      SettledIff(d, t, Effect(d, t, slot));
    }
  }
}
