/** What the settled objects and the routed requests say, read off the Plus field by field. */
module Contents {
  import opened Wrappers
  import opened Text
  import opened PlusTypes
  import opened Routes
  import opened FirstMatch
  import opened Colours
  import opened Api
  import opened Children
  import opened Settling

  // ----- where requests are sent -----

  /** The destination is the app's subset of the Plus's host, on the app's port; Go's uint32 wraps a negative one. */
  predicate GoesTo(d: Design, app: App, x: Destination) {
    && x.host == d.name + "." + d.ns + ".svc.cluster.local" && x.subset == d.name + "-" + app.version
    && x.port == if app.port >= 0 then app.port else app.port + 0x1_0000_0000
  }

  lemma DestinationGoesTo(d: Design, app: App, weight: int32)
    ensures GoesTo(d, app, DestinationFor(d, app, weight)) && DestinationFor(d, app, weight).weight == weight
  {
  }

  /** Everything goes to this app. */
  predicate AllTo(d: Design, app: App, to: seq<Destination>) {
    |to| == 1 && GoesTo(d, app, to[0]) && to[0].weight == 100
  }

  /** Every app gets what its version is given, or nothing. */
  predicate Shared(d: Design, g: Gateway, to: seq<Destination>) {
    && |to| == |d.spec.apps|
    && forall i | 0 <= i < |to| ::
         && GoesTo(d, d.spec.apps[i], to[i])
         && to[i].weight == (if d.spec.apps[i].version in g.weights then g.weights[d.spec.apps[i].version] else 0)
  }

  lemma DefaultIsShared(d: Design, g: Gateway)
    ensures Shared(d, g, DefaultDestinations(d, g))
  {
    forall i | 0 <= i < |d.spec.apps|
      ensures GoesTo(d, d.spec.apps[i], DefaultDestinations(d, g)[i])
    {
      DestinationGoesTo(d, d.spec.apps[i], LookupInt(g.weights, d.spec.apps[i].version));
    }
  }

  /** A gateway request goes wholly to the first app asked for; and when none is, to every app, in order, with the
      weight its version is given, or none. */
  lemma GatewayDestinations(d: Design, g: Gateway, req: HttpRequest)
    requires Evaluate(GatewayRoutes(d, g), req).Some?
    ensures var to, asked := Evaluate(GatewayRoutes(d, g), req).value.destinations, FirstAskedFor(g, d.spec.apps, req);
      if asked.Some? then AllTo(d, d.spec.apps[asked.value], to) else Shared(d, g, to)
  {
    GatewayMeaning(d, g, req);
    DefaultIsShared(d, g);
  }

  /** A mesh request goes wholly to the first app that takes its caller. */
  lemma MeshDestinations(d: Design, req: HttpRequest)
    ensures var routed, taker := Evaluate(MeshRoutes(d), req), FirstTaker(d, d.spec.apps, req);
      && (routed.Some? <==> taker.Some?)
      && (routed.Some? ==> AllTo(d, d.spec.apps[taker.value], routed.value.destinations))
  {
    MeshMeaning(d, req);
  }

  // ----- the two VirtualServices -----

  /** The CORS policy of the gateway: its own lists in their places, the two that may be left out filled in. */
  predicate CarriesCors(r: HttpRoute, cors: Option<Cors>) {
    match cors
    case None => r.cors.None?
    case Some(c) =>
      && r.cors.Some?
      && r.cors.value.allowOrigins == c.allowOrigins && r.cors.value.exposeHeaders == c.exposeHeaders
      && r.cors.value.allowMethods
         == (if c.allowMethods == [] then ["POST", "GET", "OPTIONS", "DELETE", "PUT"] else c.allowMethods)
      && r.cors.value.allowHeaders == (if c.allowHeaders == [] then ["Origin", "x-token"] else c.allowHeaders)
      && r.cors.value.maxAgeSeconds == 86400 && r.cors.value.allowCredentials
  }

  lemma CorsReads(r: HttpRoute, g: Gateway)
    requires r.cors == CorsFor(g)
    ensures CarriesCors(r, g.cors)
  {
  }

  lemma GatewayRoutesCarryCors(d: Design, g: Gateway)
    requires d.spec.gateway == Some(g)
    ensures forall r | r in GatewayRoutes(d, g) :: CarriesCors(r, g.cors)
  {
    GatewayGenerationRepeatable(d);
    forall r | r in GatewayRoutes(d, g)
      ensures CarriesCors(r, g.cors)
    {
      CorsReads(r, g);
    }
  }

  /** A settled gateway VirtualService answers for the gateway's hosts, at the shared ingress gateway. */
  lemma GatewayReads(d: Design, g: Gateway, slot: Slot)
    requires d.spec.gateway == Some(g) && SlotTyped(d, ApplyGateway, slot) && Settled(d, ApplyGateway, slot)
    ensures slot.content.Some? && slot.content.value.VirtualServiceObject?
    ensures var spec := slot.content.value.virtualService;
      && spec.hosts == g.hosts && spec.gateways == ["istio-system/gateway"]
      && forall r | r in spec.http :: CarriesCors(r, g.cors)
  {
    SettledIff(d, ApplyGateway, slot);
    GatewayRoutesCarryCors(d, g);
  }

  /** A settled mesh VirtualService answers for the Service's own name, inside the mesh, without CORS. */
  lemma MeshReads(d: Design, slot: Slot)
    requires SlotTyped(d, ApplyMesh, slot) && Settled(d, ApplyMesh, slot)
    ensures slot.content.Some? && slot.content.value.VirtualServiceObject?
    ensures var spec := slot.content.value.virtualService;
      && spec.hosts == [d.name + "." + d.ns + ".svc.cluster.local"] && spec.gateways == ["mesh"]
      && forall r | r in spec.http :: r.cors.None?
  {
    SettledIff(d, ApplyMesh, slot);
  }

  // ----- labels -----

  /** The Plus's labels, with its name under "plus" whatever the labels say. */
  ghost predicate LabelledFor(d: Design, labels: StringMap) {
    && "plus" in labels && labels["plus"] == d.name
    && forall k | k != "plus" :: (k in labels <==> k in d.labels) && (k in labels ==> labels[k] == d.labels[k])
  }

  /** The same with the version. */
  ghost predicate LabelledForApp(d: Design, app: App, labels: StringMap) {
    && "plus" in labels && labels["plus"] == d.name
    && "version" in labels && labels["version"] == app.version
    && forall k | k != "plus" && k != "version" ::
         (k in labels <==> k in d.labels) && (k in labels ==> labels[k] == d.labels[k])
  }

  /** Those of a pod: the template's labels win. */
  ghost predicate LabelledAsPod(d: Design, app: App, labels: StringMap) {
    && (forall k | k in app.templateLabels :: k in labels && labels[k] == app.templateLabels[k])
    && ("plus" !in app.templateLabels ==> "plus" in labels && labels["plus"] == d.name)
    && ("version" !in app.templateLabels ==> "version" in labels && labels["version"] == app.version)
    && forall k | k !in app.templateLabels && k != "plus" && k != "version" ::
         (k in labels <==> k in d.labels) && (k in labels ==> labels[k] == d.labels[k])
  }

  lemma LabelsRead(d: Design, app: App)
    ensures LabelledFor(d, PlusLabels(d)) && LabelledForApp(d, app, AppLabels(d, app))
    ensures LabelledAsPod(d, app, AppTemplateLabels(d, app))
  {
  }

  // ----- the DestinationRule and the Service -----

  /** A settled DestinationRule is for the Service's host, takes the endpoints in turn, and has one subset per app. */
  lemma RuleReads(d: Design, slot: Slot)
    requires SlotTyped(d, ApplyDestinationRule, slot) && Settled(d, ApplyDestinationRule, slot)
    ensures slot.content.Some? && slot.content.value.DestinationRuleObject?
    ensures var rule := slot.content.value.destinationRule;
      && rule.host == d.name + "." + d.ns + ".svc.cluster.local" && rule.trafficPolicy.loadBalancer == "ROUND_ROBIN"
      && |rule.subsets| == |d.spec.apps|
      && forall i | 0 <= i < |rule.subsets| ::
           && rule.subsets[i].name == d.name + "-" + d.spec.apps[i].version
           && LabelledForApp(d, d.spec.apps[i], rule.subsets[i].labels)
  {
    SettledIff(d, ApplyDestinationRule, slot);
    forall i | 0 <= i < |d.spec.apps|
      ensures LabelledForApp(d, d.spec.apps[i], Subsets(d)[i].labels)
    {
      LabelsRead(d, d.spec.apps[i]);
    }
  }

  /** A settled Service has the app's port, and passes it on unchanged to pods that carry the Plus's labels. */
  lemma ServiceReads(d: Design, app: App, slot: Slot)
    requires SlotTyped(d, ApplyService(app), slot) && Settled(d, ApplyService(app), slot)
    ensures slot.content.Some? && slot.content.value.ServiceObject?
    ensures var spec := slot.content.value.service;
      && spec.serviceType == "ClusterIP" && spec.sessionAffinity == "None" && LabelledFor(d, spec.selector)
      && |spec.ports| == 1 && spec.ports[0].port == spec.ports[0].targetPort == app.port
      && spec.ports[0].protocol == "TCP" && spec.ports[0].name == app.protocol + "-" + Itoa(app.port)
  {
    SettledIff(d, ApplyService(app), slot);
    LabelsRead(d, app);
  }

  // ----- the autoscaler and the Deployment -----

  /** A settled autoscaler scales the app's Deployment between its bounds, aiming at 80 percent of the CPU. */
  lemma AutoscalerReads(d: Design, app: App, slot: Slot)
    requires SlotTyped(d, ApplyAutoscaler(app), slot) && Settled(d, ApplyAutoscaler(app), slot)
    requires app.minReplicas != -1
    ensures slot.content.Some? && slot.content.value.AutoscalerObject?
    ensures var spec := slot.content.value.autoscaler;
      && spec.targetName == d.name + "-" + app.version && spec.targetCpuPercent == 80
      && spec.minReplicas == app.minReplicas && spec.maxReplicas == app.maxReplicas
  {
    SettledIff(d, ApplyAutoscaler(app), slot);
  }

  /** The annotation holds the printed quantity, unless that is "0": then what the template says, if anything. */
  predicate Announces(annotations: StringMap, key: string, q: Quantity, template: StringMap) {
    if q.canonical != "0" then key in annotations && annotations[key] == q.canonical
    else (key in annotations <==> key in template) && (key in annotations ==> annotations[key] == template[key])
  }

  /** The resources of the proxy, under the names that the sidecar injector reads. */
  predicate AnnouncesProxy(app: App, annotations: StringMap) {
    var proxy, template := app.proxyResources, app.templateAnnotations;
    && Announces(annotations, "sidecar.istio.io/proxyCPU", proxy.requestCpu, template)
    && Announces(annotations, "sidecar.istio.io/proxyCPULimit", proxy.limitCpu, template)
    && Announces(annotations, "sidecar.istio.io/proxyMemory", proxy.requestMemory, template)
    && Announces(annotations, "sidecar.istio.io/proxyMemoryLimit", proxy.limitMemory, template)
  }

  /** One more annotation on top: announced under its key, and no other key changed. */
  lemma OnTop(base: StringMap, key: string, q: Quantity)
    ensures Announces(base + IfSet(key, q), key, q, base)
    ensures forall k | k != key :: (k in base + IfSet(key, q) <==> k in base)
                                && (k in base ==> (base + IfSet(key, q))[k] == base[k])
  {
  }

  lemma AnnotationsRead(app: App)
    ensures AnnouncesProxy(app, PodAnnotations(app))
  {
    var proxy, base := app.proxyResources, map[RESTART_MARK := app.restartMark] + app.templateAnnotations;
    OnTop(base, "sidecar.istio.io/proxyCPU", proxy.requestCpu);
    var one := base + IfSet("sidecar.istio.io/proxyCPU", proxy.requestCpu);
    OnTop(one, "sidecar.istio.io/proxyCPULimit", proxy.limitCpu);
    var two := one + IfSet("sidecar.istio.io/proxyCPULimit", proxy.limitCpu);
    OnTop(two, "sidecar.istio.io/proxyMemory", proxy.requestMemory);
    var three := two + IfSet("sidecar.istio.io/proxyMemory", proxy.requestMemory);
    OnTop(three, "sidecar.istio.io/proxyMemoryLimit", proxy.limitMemory);
    assert PodAnnotations(app) == three + IfSet("sidecar.istio.io/proxyMemoryLimit", proxy.limitMemory);
  }

  lemma MarkAside(annotations: StringMap, other: StringMap, key: string, q: Quantity, template: StringMap)
    requires WithoutMark(annotations) == WithoutMark(other) && key != RESTART_MARK
    requires Announces(other, key, q, template)
    ensures Announces(annotations, key, q, template)
  {
    assert key in annotations <==> key in WithoutMark(annotations);
    assert key in other <==> key in WithoutMark(other);
  }

  lemma MarkAsideProxy(app: App, annotations: StringMap)
    requires WithoutMark(annotations) == WithoutMark(PodAnnotations(app))
    ensures AnnouncesProxy(app, annotations)
  {
    AnnotationsRead(app);
    var generated, proxy, template := PodAnnotations(app), app.proxyResources, app.templateAnnotations;
    MarkAside(annotations, generated, "sidecar.istio.io/proxyCPU", proxy.requestCpu, template);
    MarkAside(annotations, generated, "sidecar.istio.io/proxyCPULimit", proxy.limitCpu, template);
    MarkAside(annotations, generated, "sidecar.istio.io/proxyMemory", proxy.requestMemory, template);
    MarkAside(annotations, generated, "sidecar.istio.io/proxyMemoryLimit", proxy.limitMemory, template);
  }

  /** A settled Deployment has the app's port and labels, its restart mark if it sets one, and the proxy's resources. */
  lemma DeploymentReads(d: Design, app: App, slot: Slot)
    requires SlotTyped(d, ApplyDeployment(app), slot) && Settled(d, ApplyDeployment(app), slot)
    requires app.minReplicas != -1
    ensures slot.content.Some? && slot.content.value.DeploymentObject?
    ensures var spec := slot.content.value.deployment;
      && spec.image == AppImage(app) && spec.port == app.port && spec.pod == app.pod
      && LabelledForApp(d, app, spec.selector) && LabelledAsPod(d, app, spec.podLabels)
      && "apps.clusterplus.io/restart-mark" in spec.podAnnotations
      && (app.restartMark != "" ==> spec.podAnnotations["apps.clusterplus.io/restart-mark"] == app.restartMark)
      && AnnouncesProxy(app, spec.podAnnotations)
  {
    DeploymentSettledIff(d, app, slot);
    LabelsRead(d, app);
    MarkAsideProxy(app, slot.content.value.deployment.podAnnotations);
  }

  // ----- names and metadata -----

  /** Which objects a Plus writes. */
  lemma KeysRead(d: Design, app: App)
    ensures KeyOf(d, ApplyDeployment(app)) == Key(DeploymentKind, d.ns, d.name + "-" + app.version)
    ensures KeyOf(d, ReadStatus(app)) == Key(DeploymentKind, d.ns, d.name + "-" + app.version)
    ensures KeyOf(d, ApplyAutoscaler(app)) == Key(AutoscalerKind, d.ns, d.name + "-" + app.version)
    ensures KeyOf(d, ApplyService(app)) == Key(ServiceKind, d.ns, d.name)
    ensures KeyOf(d, ApplyDestinationRule) == Key(DestinationRuleKind, d.ns, d.name)
    ensures KeyOf(d, ApplyGateway) == Key(VirtualServiceKind, d.ns, d.name + "-gateway")
    ensures KeyOf(d, ApplyMesh) == Key(VirtualServiceKind, d.ns, d.name)
  {
  }

  /** An object that is created carries the Plus's labels, but for the rule and the autoscaler, which carry none; only a
      Deployment carries the Plus's annotations, and it starts with the least replicas. */
  ghost predicate CreatedAs(d: Design, t: Task, o: Object) {
    match t
    case ApplyDeployment(app) =>
      && o.DeploymentObject? && LabelledForApp(d, app, o.meta.labels) && o.meta.annotations == d.annotations
      && o.deployment.replicas == app.minReplicas && o.deployment.resources == app.resources
    case ReadStatus(_) => true
    case ApplyService(_) => o.ServiceObject? && LabelledFor(d, o.meta.labels) && o.meta.annotations == map[]
    case ApplyDestinationRule => o.DestinationRuleObject? && o.meta == Meta(map[], map[])
    case ApplyGateway => o.VirtualServiceObject? && LabelledFor(d, o.meta.labels) && o.meta.annotations == map[]
    case ApplyMesh => o.VirtualServiceObject? && LabelledFor(d, o.meta.labels) && o.meta.annotations == map[]
    case ApplyAutoscaler(_) => o.AutoscalerObject? && o.meta == Meta(map[], map[])
  }

  lemma CreatedReads(d: Design, t: Task, slot: Slot)
    requires slot.content.None? && !t.ReadStatus? && !Unwanted(d, t)
    requires t.ApplyDeployment? ==> t.app.minReplicas != -1
    ensures var content := Effect(d, t, slot).content; content.Some? && CreatedAs(d, t, content.value)
  {
    if t.ApplyDeployment? {
      LabelsRead(d, t.app);
    }
    assert LabelledFor(d, PlusLabels(d));
  }
}
