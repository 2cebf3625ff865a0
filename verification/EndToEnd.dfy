/** What the operator has brought about once it is at rest: the routes that are stored mean the routing rule, and the
    pods that are stored are the ones the stored Service and subsets lead to. */
module EndToEnd {
  import opened Wrappers
  import opened PlusTypes
  import opened Routes
  import opened FirstMatch
  import opened Colours
  import opened Api
  import opened Children
  import opened Settling
  import opened CalmStages
  import opened CalmReconciles
  import opened SharedVersions
  import opened Convergence
  import opened Recovery
  import opened Resting

  /** The route table stored for the gateway, or inside the mesh. */
  function StoredRoutes(d: Design, t: Task, s: Store): Option<seq<HttpRoute>>
    requires t.ApplyGateway? || t.ApplyMesh?
  {
    var content := At(s, KeyOf(d, t)).content;
    if content.Some? && content.value.VirtualServiceObject? then Some(content.value.virtualService.http) else None
  }

  lemma RouteIsSettled(d: Design, t: Task, s: Store)
    requires WellTyped(s) && AllSettled(d, VirtualServiceTasks(d), s) && t in VirtualServiceTasks(d)
    ensures SlotTyped(d, t, At(s, KeyOf(d, t))) && Settled(d, t, At(s, KeyOf(d, t)))
  {
  }

  lemma StoredGateway(d: Design, s: Store)
    requires WellTyped(s) && AllSettled(d, VirtualServiceTasks(d), s) && d.spec.gateway.Some?
    ensures StoredRoutes(d, ApplyGateway, s) == Some(GatewayRoutes(d, d.spec.gateway.value))
  {
    assert VirtualServiceTasks(d)[0] == ApplyGateway;
    RouteIsSettled(d, ApplyGateway, s);
    SettledIff(d, ApplyGateway, At(s, KeyOf(d, ApplyGateway)));
  }

  lemma StoredMesh(d: Design, s: Store)
    requires WellTyped(s) && AllSettled(d, VirtualServiceTasks(d), s)
    ensures StoredRoutes(d, ApplyMesh, s) == Some(MeshRoutes(d))
  {
    assert VirtualServiceTasks(d)[|VirtualServiceTasks(d)| - 1] == ApplyMesh;
    RouteIsSettled(d, ApplyMesh, s);
    SettledIff(d, ApplyMesh, At(s, KeyOf(d, ApplyMesh)));
  }

  /** At rest, evaluating the stored gateway table is following the direct rule, for every request. */
  lemma StoredGatewayMeaning(key: Key, d: Design, s: Store, req: HttpRequest)
    requires AtRest(key, d, s) && WellTyped(s) && d.spec.gateway.Some?
    ensures var routes := StoredRoutes(d, ApplyGateway, s);
      routes.Some? && Evaluate(routes.value, req) == DirectRule(d, d.spec.gateway.value, req)
  {
    StoredGateway(d, s);
    GatewayMeaning(d, d.spec.gateway.value, req);
  }

  /** And the stored mesh table sends every request, path unchanged, to the first app that takes its caller. */
  lemma StoredMeshMeaning(key: Key, d: Design, s: Store, req: HttpRequest)
    requires AtRest(key, d, s) && WellTyped(s)
    ensures var routes, found := StoredRoutes(d, ApplyMesh, s), FirstTaker(d, d.spec.apps, req);
      routes.Some? && Evaluate(routes.value, req) ==
        if found.None? then None
        else Some(Routed([DestinationFor(d, d.spec.apps[found.value], 100)], req.path))
  {
    StoredMesh(d, s);
    MeshMeaning(d, req);
  }

  function StoredRule(d: Design, s: Store): Option<DestinationRuleSpec> {
    var content := At(s, KeyOf(d, ApplyDestinationRule)).content;
    if content.Some? && content.value.DestinationRuleObject? then Some(content.value.destinationRule) else None
  }

  /** The subsets the stored DestinationRule defines. */
  function StoredSubsets(d: Design, s: Store): Option<seq<Subset>> {
    var rule := StoredRule(d, s);
    if rule.Some? then Some(rule.value.subsets) else None
  }

  /** The labels the stored Service selects its pods by. */
  function StoredSelector(d: Design, s: Store): Option<StringMap> {
    var content := At(s, ServiceKey(d)).content;
    if content.Some? && content.value.ServiceObject? then Some(content.value.service.selector) else None
  }

  /** The labels of the pods the app's stored Deployment makes. */
  function StoredPodLabels(d: Design, app: App, s: Store): Option<StringMap> {
    var content := SlotOf(d, app, s).content;
    if content.Some? && content.value.DeploymentObject? then Some(content.value.deployment.podLabels) else None
  }

  lemma RuleAtRest(d: Design, s: Store)
    requires WellTyped(s) && AllSettled(d, [ApplyDestinationRule], s)
    ensures StoredRule(d, s) == Some(DestinationRuleFor(d))
  {
    var t := ApplyDestinationRule;
    assert t in [ApplyDestinationRule];
    SettledIff(d, t, At(s, KeyOf(d, t)));
  }

  lemma SelectorAtRest(d: Design, s: Store)
    requires WellTyped(s) && AllSettled(d, ServiceTasks(d), s) && d.spec.apps != []
    ensures StoredSelector(d, s) == Some(PlusLabels(d))
  {
    ServiceOf(d, s, d.spec.apps[0]);
  }

  lemma StoredPods(d: Design, s: Store, app: App)
    requires WellTyped(s) && AllSettled(d, DeploymentTasks(d), s) && app in d.spec.apps && app.minReplicas != -1
    ensures StoredPodLabels(d, app, s) == Some(AppTemplateLabels(d, app))
  {
    DeploymentOf(d, s, app);
    DeploymentSettledIff(d, app, SlotOf(d, app, s));
  }

  /** At rest, the stored subset named after an app selects the pods of that app's stored Deployment, exactly when the
      template labels agree. */
  lemma StoredSubsetSelectsStoredPods(key: Key, d: Design, s: Store, i: nat)
    requires AtRest(key, d, s) && WellTyped(s) && i < |d.spec.apps| && d.spec.apps[i].minReplicas != -1
    ensures var app, subsets, pods := d.spec.apps[i], StoredSubsets(d, s), StoredPodLabels(d, d.spec.apps[i], s);
      && subsets.Some? && i < |subsets.value| && subsets.value[i].name == AppName(d, app)
      && pods.Some? && (Within(subsets.value[i].labels, pods.value) <==> TemplateAgrees(d, app))
  {
    RuleAtRest(d, s);
    StoredPods(d, s, d.spec.apps[i]);
    SubsetSelectsOwnPodsIff(d, d.spec.apps[i]);
  }

  /** A request with this outcome may be served by a pod with these labels, going by what is stored: the Service selects
      the pod, and the destination names a subset of the rule, on the rule's host, that selects it. */
  ghost predicate StoredReaches(d: Design, s: Store, outcome: Option<Routed>, pod: StringMap) {
    && outcome.Some? && StoredSelector(d, s).Some? && StoredRule(d, s).Some?
    && Within(StoredSelector(d, s).value, pod)
    && exists destination, subset ::
         && destination in outcome.value.destinations && destination.weight > 0
         && destination.host == StoredRule(d, s).value.host
         && subset in StoredRule(d, s).value.subsets && subset.name == destination.subset && Within(subset.labels, pod)
  }

  /** At rest, the stored Service and rule lead to the same pods as the generated ones. */
  lemma ReachesIff(key: Key, d: Design, s: Store, outcome: Option<Routed>, pod: StringMap)
    requires AtRest(key, d, s) && WellTyped(s) && d.spec.apps != []
    requires outcome.Some? ==>
      forall destination | destination in outcome.value.destinations :: Resolves(d, destination)
    ensures StoredReaches(d, s, outcome, pod) <==> Reaches(d, outcome, pod)
  {
    RuleAtRest(d, s);
    SelectorAtRest(d, s);
  }

  lemma MeshReachesIff(key: Key, d: Design, s: Store, req: HttpRequest, pod: StringMap)
    requires AtRest(key, d, s) && WellTyped(s)
    ensures StoredReaches(d, s, Evaluate(MeshRoutes(d), req), pod) <==> Reaches(d, Evaluate(MeshRoutes(d), req), pod)
  {
    var found := FirstRoute(MeshRoutes(d), req);
    if found.Some? {
      forall destination | destination in MeshRoutes(d)[found.value].destinations
        ensures Resolves(d, destination)
      {
        MeshDestinationsResolve(d, found.value, destination);
      }
      ReachesIff(key, d, s, Evaluate(MeshRoutes(d), req), pod);
    }
  }

  lemma GatewayReachesIff(key: Key, d: Design, g: Gateway, s: Store, req: HttpRequest, pod: StringMap)
    requires AtRest(key, d, s) && WellTyped(s)
    ensures StoredReaches(d, s, Evaluate(GatewayRoutes(d, g), req), pod)
       <==> Reaches(d, Evaluate(GatewayRoutes(d, g), req), pod)
  {
    var found := FirstRoute(GatewayRoutes(d, g), req);
    if found.Some? && d.spec.apps != [] {
      forall destination | destination in GatewayRoutes(d, g)[found.value].destinations
        ensures Resolves(d, destination)
      {
        GatewayDestinationsResolve(d, g, found.value, destination);
      }
      ReachesIff(key, d, s, Evaluate(GatewayRoutes(d, g), req), pod);
    }
  }

  /** Going by the stored objects alone: whatever pod a coloured caller reaches has the caller's colour exactly when the
      callee keeps it. */
  lemma StoredMeshHop(key: Key, d: Design, s: Store, req: HttpRequest, colour: string, pod: StringMap)
    requires AtRest(key, d, s) && WellTyped(s) && colour in {"blue", "green"} && CalledFrom(req, d.ns, colour)
    requires StoredRoutes(d, ApplyMesh, s).Some?
    requires StoredReaches(d, s, Evaluate(StoredRoutes(d, ApplyMesh, s).value, req), pod)
    ensures OnColour(pod, colour) <==> KeepsColour(d, colour)
  {
    StoredMesh(d, s);
    MeshMeaning(d, req);
    MeshReachesIff(key, d, s, req, pod);
    MeshHop(d, req, colour, pod);
  }

  /** And it does reach some: the pods of its colour's stored Deployment, given labels that agree. */
  lemma StoredColourHop(key: Key, d: Design, s: Store, req: HttpRequest, colour: string) returns (app: App)
    requires AtRest(key, d, s) && WellTyped(s) && colour in {"blue", "green"} && CalledFrom(req, d.ns, colour)
    requires KeepsColour(d, colour) && "version" !in d.labels
    requires forall app | app in d.spec.apps :: TemplateAgrees(d, app) && app.minReplicas != -1
    ensures app in d.spec.apps && app.version == colour && StoredPodLabels(d, app, s).Some?
    ensures StoredRoutes(d, ApplyMesh, s).Some?
    ensures StoredReaches(d, s, Evaluate(StoredRoutes(d, ApplyMesh, s).value, req), StoredPodLabels(d, app, s).value)
  {
    app := MeshHopLands(d, req, colour);
    StoredMesh(d, s);
    StoredPods(d, s, app);
    MeshReachesIff(key, d, s, req, AppTemplateLabels(d, app));
  }

  /** Nor does a request to one Plus, going by its stored objects, reach a pod of another's stored Deployments. */
  lemma StoredRequestsStay(a: Design, app: App, b: Design, s: Store, outcome: Option<Routed>)
    requires AtRest(PlusKey(a), a, s) && AtRest(PlusKey(b), b, s) && WellTyped(s)
    requires a.name != b.name && OwnsUp(a, app) && app in a.spec.apps && app.minReplicas != -1
    ensures StoredPodLabels(a, app, s).Some?
    ensures !StoredReaches(b, s, outcome, StoredPodLabels(a, app, s).value)
  {
    StoredPods(a, s, app);
    RuleAtRest(b, s);
    if b.spec.apps != [] {
      SelectorAtRest(b, s);
    }
    OtherPodsNotSelected(a, app, b, app);
  }

  function StoredServicePorts(d: Design, s: Store): seq<ServicePort> {
    var content := At(s, ServiceKey(d)).content;
    if content.Some? && content.value.ServiceObject? then content.value.service.ports else []
  }

  /** The port of the pods the app's stored Deployment makes. */
  function StoredPodPort(d: Design, app: App, s: Store): Option<int32> {
    var content := SlotOf(d, app, s).content;
    if content.Some? && content.value.DeploymentObject? then Some(content.value.deployment.port) else None
  }

  lemma ServicePortAtRest(d: Design, s: Store, app: App)
    requires WellTyped(s) && AllSettled(d, ServiceTasks(d), s) && app in d.spec.apps
    ensures var ports := StoredServicePorts(d, s);
      |ports| == 1 && ports[0].port == app.port && ports[0].targetPort == app.port
  {
    ServiceOf(d, s, app);
  }

  lemma PodPortAtRest(d: Design, s: Store, app: App)
    requires WellTyped(s) && AllSettled(d, DeploymentTasks(d), s) && app in d.spec.apps && app.minReplicas != -1
    ensures StoredPodPort(d, app, s) == Some(app.port)
  {
    DeploymentOf(d, s, app);
    DeploymentSettledIff(d, app, SlotOf(d, app, s));
  }

  lemma DestinationPort(d: Design, app: App, weight: int32)
    requires app.port >= 0
    ensures DestinationFor(d, app, weight).port == app.port as int
  {
  }

  /** At rest, the port that requests for an app are sent to is the stored Service's one port, and that leads to the
      port of the pods of the app's stored Deployment. */
  lemma StoredPortsMeet(d: Design, app: App, s: Store, weight: int32)
    requires AtRest(PlusKey(d), d, s) && WellTyped(s) && app in d.spec.apps && app.minReplicas != -1 && app.port >= 0
    ensures var ports := StoredServicePorts(d, s);
      |ports| == 1 && DestinationFor(d, app, weight).port == ports[0].port as int
      && StoredPodPort(d, app, s) == Some(ports[0].targetPort)
  {
    ServicePortAtRest(d, s, app);
    PodPortAtRest(d, s, app);
    DestinationPort(d, app, weight);
  }

  // ----- whole call chains, going by what is stored -----

  /** Every Plus of the chain is at rest. */
  ghost predicate AllAtRest(designs: seq<Design>, s: Store) {
    WellTyped(s) && forall d | d in designs :: AtRest(PlusKey(d), d, s)
  }

  /** The pod of one Plus calls another Plus, and the stored objects lead to a pod of that one. */
  ghost predicate StoredHop(s: Store, caller: Design, callerPod: StringMap, callee: Design, req: HttpRequest,
                            pod: StringMap)
  {
    && req.sourceNamespace == caller.ns && req.sourceLabels == callerPod
    && StoredRoutes(callee, ApplyMesh, s).Some?
    && StoredReaches(callee, s, Evaluate(StoredRoutes(callee, ApplyMesh, s).value, req), pod)
  }

  lemma StoredHopIsHop(s: Store, caller: Design, callerPod: StringMap, callee: Design, req: HttpRequest, pod: StringMap)
    requires AtRest(PlusKey(callee), callee, s) && WellTyped(s) && StoredHop(s, caller, callerPod, callee, req, pod)
    ensures Hop(caller, callerPod, callee, req, pod)
  {
    StoredMesh(callee, s);
    MeshReachesIff(PlusKey(callee), callee, s, req, pod);
  }

  /** pods[i] serves reqs[i], sent to designs[i], as the stored objects have it. */
  ghost predicate StoredChain(s: Store, designs: seq<Design>, reqs: seq<HttpRequest>, pods: seq<StringMap>) {
    && 0 < |designs| == |reqs| == |pods|
    && StoredRoutes(designs[0], ApplyGateway, s).Some?
    && StoredReaches(designs[0], s, Evaluate(StoredRoutes(designs[0], ApplyGateway, s).value, reqs[0]), pods[0])
    && forall i, j | 0 <= i < j < |designs| && j == i + 1 ::
         StoredHop(s, designs[i], pods[i], designs[j], reqs[j], pods[j])
  }

  lemma StoredChainIsChain(s: Store, g: Gateway, designs: seq<Design>, reqs: seq<HttpRequest>, pods: seq<StringMap>)
    requires AllAtRest(designs, s) && StoredChain(s, designs, reqs, pods) && designs[0].spec.gateway == Some(g)
    ensures CallChain(g, designs, reqs, pods)
  {
    assert AtRest(PlusKey(designs[0]), designs[0], s);
    StoredGateway(designs[0], s);
    GatewayReachesIff(PlusKey(designs[0]), designs[0], g, s, reqs[0], pods[0]);
    forall i, j | 0 <= i < j < |designs| && j == i + 1
      ensures Hop(designs[i], pods[i], designs[j], reqs[j], pods[j])
    {
      assert AtRest(PlusKey(designs[j]), designs[j], s);
      StoredHopIsHop(s, designs[i], pods[i], designs[j], reqs[j], pods[j]);
    }
  }

  /** Along a chain of calls of any length between Pluses at rest, going by the stored objects at every hop: a request
      that enters with a colour is on pods of that colour as long as the Pluses it meets keep the colour. */
  lemma StoredColourSurvives(s: Store, g: Gateway, designs: seq<Design>, reqs: seq<HttpRequest>, pods: seq<StringMap>,
                             colour: string, i: nat)
    requires AllAtRest(designs, s) && StoredChain(s, designs, reqs, pods) && designs[0].spec.gateway == Some(g)
    requires i < |designs| && colour in {"blue", "green"} && EntersWith(designs[0], g, reqs[0], colour)
    requires ColourKept(designs, colour, i)
    ensures OnColour(pods[i], colour)
  {
    StoredChainIsChain(s, g, designs, reqs, pods);
    ColourSurvives(g, designs, reqs, pods, colour, i);
  }

  // ----- after faults -----

  lemma RestsAfterFaults(key: Key, d: Design, ws: seq<World>, fates: Fates, k: nat, i: nat)
    requires Compatible(d) && IsRun(key, ws, fates) && Healthy(key, d, ws[0]) && k + |d.spec.apps| < i < |ws|
    requires forall m | m >= ws[k].calls :: fates(m) == Served
    ensures AtRest(key, d, ws[i].store) && WellTyped(ws[i].store)
  {
    ConvergesAfterFaults(key, d, ws, fates, k, i);
    RunHealthy(key, d, ws, fates, 0, i);
  }

  /** Put together: whatever became of the calls up to some reconcile, n + 1 good ones later the stored gateway table
      means the direct rule, the stored mesh table sends every request to the first app that takes its caller, and both
      will go on meaning it. */
  lemma OperatorDeliversRouting(key: Key, d: Design, ws: seq<World>, fates: Fates, k: nat, i: nat, req: HttpRequest)
    requires Compatible(d) && IsRun(key, ws, fates) && Healthy(key, d, ws[0]) && k + |d.spec.apps| < i < |ws|
    requires forall m | m >= ws[k].calls :: fates(m) == Served
    ensures d.spec.gateway.Some? ==>
      var routes := StoredRoutes(d, ApplyGateway, ws[i].store);
      routes.Some? && Evaluate(routes.value, req) == DirectRule(d, d.spec.gateway.value, req)
    ensures var routes, found := StoredRoutes(d, ApplyMesh, ws[i].store), FirstTaker(d, d.spec.apps, req);
      routes.Some? && Evaluate(routes.value, req) ==
        if found.None? then None
        else Some(Routed([DestinationFor(d, d.spec.apps[found.value], 100)], req.path))
  {
    RestsAfterFaults(key, d, ws, fates, k, i);
    if d.spec.gateway.Some? {
      StoredGatewayMeaning(key, d, ws[i].store, req);
    }
    StoredMeshMeaning(key, d, ws[i].store, req);
  }

  /** And by then a coloured caller reaches, going by what is stored, the pods of its colour's stored Deployment, and
      no others. */
  lemma OperatorDeliversColours(key: Key, d: Design, ws: seq<World>, fates: Fates, k: nat, i: nat,
                                req: HttpRequest, colour: string, pod: StringMap) returns (app: App)
    requires Compatible(d) && IsRun(key, ws, fates) && Healthy(key, d, ws[0]) && k + |d.spec.apps| < i < |ws|
    requires forall m | m >= ws[k].calls :: fates(m) == Served
    requires colour in {"blue", "green"} && CalledFrom(req, d.ns, colour)
    requires KeepsColour(d, colour) && "version" !in d.labels
    requires forall app | app in d.spec.apps :: TemplateAgrees(d, app) && app.minReplicas != -1
    ensures var s := ws[i].store;
      && app in d.spec.apps && app.version == colour && StoredPodLabels(d, app, s).Some?
      && StoredRoutes(d, ApplyMesh, s).Some?
      && var outcome := Evaluate(StoredRoutes(d, ApplyMesh, s).value, req);
         && StoredReaches(d, s, outcome, StoredPodLabels(d, app, s).value)
         && (StoredReaches(d, s, outcome, pod) ==> OnColour(pod, colour))
  {
    RestsAfterFaults(key, d, ws, fates, k, i);
    app := StoredColourHop(key, d, ws[i].store, req, colour);
    if StoredReaches(d, ws[i].store, Evaluate(StoredRoutes(d, ApplyMesh, ws[i].store).value, req), pod) {
      StoredMeshHop(key, d, ws[i].store, req, colour, pod);
    }
  }
}
