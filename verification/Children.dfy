/** The resources a Plus owns, and how one reconcile brings each of them in line: read it, then write at most once. */
module Children {
  import opened Wrappers
  import opened Text
  import opened PlusTypes
  import opened Routes
  import opened Api

  const RESTART_MARK := "apps.clusterplus.io/restart-mark"

  // ----- generated objects -----

  function IfSet(key: string, q: Quantity): StringMap {
    if q.canonical != "0" then map[key := q.canonical] else map[]
  }

  /** The restart mark, then the template's annotations, then the proxy's resources: later entries win. */
  function PodAnnotations(app: App): StringMap {
    map[RESTART_MARK := app.restartMark] + app.templateAnnotations
    + IfSet("sidecar.istio.io/proxyCPU", app.proxyResources.requestCpu)
    + IfSet("sidecar.istio.io/proxyCPULimit", app.proxyResources.limitCpu)
    + IfSet("sidecar.istio.io/proxyMemory", app.proxyResources.requestMemory)
    + IfSet("sidecar.istio.io/proxyMemoryLimit", app.proxyResources.limitMemory)
  }

  function DeploymentFor(d: Design, app: App): DeploymentSpec {
    DeploymentSpec(app.minReplicas, AppLabels(d, app), AppTemplateLabels(d, app), PodAnnotations(app),
                   AppImage(app), app.port, app.resources, app.pod)
  }

  function ServicePorts(app: App): seq<ServicePort> {
    [ServicePort(app.protocol + "-" + Itoa(app.port), "TCP", app.port, app.port)]
  }

  function ServiceFor(d: Design, app: App): ServiceSpec {
    ServiceSpec("ClusterIP", PlusLabels(d), ServicePorts(app), "None")
  }

  function AutoscalerFor(d: Design, app: App): AutoscalerSpec {
    AutoscalerSpec(app.minReplicas, app.maxReplicas, AppName(d, app), 80)
  }

  const NO_META := Meta(map[], map[])

  function LabelMeta(d: Design): Meta {
    Meta(PlusLabels(d), map[])
  }

  function DeploymentMeta(d: Design, app: App): Meta {
    Meta(AppLabels(d, app), d.annotations)
  }

  // ----- what a Deployment keeps of the one that is found -----

  predicate SameCpuAndMemory(a: Resources, b: Resources) {
    && a.requestCpu.canonical == b.requestCpu.canonical
    && a.requestMemory.canonical == b.requestMemory.canonical
    && a.limitCpu.canonical == b.limitCpu.canonical
    && a.limitMemory.canonical == b.limitMemory.canonical
  }

  predicate InRange(app: App, replicas: int32) {
    app.minReplicas <= replicas <= app.maxReplicas
  }

  /** An in-range replica count, the restart mark unless the app sets one, and equal CPU and memory. */
  function CarryOver(app: App, wanted: DeploymentSpec, found: DeploymentSpec): DeploymentSpec {
    wanted.(
      replicas := if InRange(app, found.replicas) then found.replicas else wanted.replicas,
      podAnnotations := wanted.podAnnotations[RESTART_MARK :=
        if app.restartMark == "" then Lookup(found.podAnnotations, RESTART_MARK) else app.restartMark],
      resources := if SameCpuAndMemory(wanted.resources, found.resources) then found.resources else wanted.resources)
  }

  // ----- tasks -----

  datatype Task = ApplyDeployment(app: App) | ReadStatus(app: App) | ApplyService(app: App) | ApplyDestinationRule
                | ApplyGateway | ApplyMesh | ApplyAutoscaler(app: App)

  function KeyOf(d: Design, t: Task): Key {
    match t
    case ApplyDeployment(app) => Key(DeploymentKind, d.ns, AppName(d, app))
    case ReadStatus(app) => Key(DeploymentKind, d.ns, AppName(d, app))
    case ApplyService(_) => Key(ServiceKind, d.ns, d.name)
    case ApplyDestinationRule => Key(DestinationRuleKind, d.ns, d.name)
    case ApplyGateway => Key(VirtualServiceKind, d.ns, d.name + "-gateway")
    case ApplyMesh => Key(VirtualServiceKind, d.ns, d.name)
    case ApplyAutoscaler(app) => Key(AutoscalerKind, d.ns, AppName(d, app))
  }

  /** What the object a task asks for looks like before anything is carried over. */
  function Wanted(d: Design, t: Task): Object
    requires t.ApplyGateway? ==> d.spec.gateway.Some?
  {
    match t
    case ApplyDeployment(app) => DeploymentObject(DeploymentMeta(d, app), DeploymentFor(d, app), 0)
    case ReadStatus(app) => DeploymentObject(DeploymentMeta(d, app), DeploymentFor(d, app), 0)
    case ApplyService(app) => ServiceObject(LabelMeta(d), ServiceFor(d, app))
    case ApplyDestinationRule => DestinationRuleObject(NO_META, DestinationRuleFor(d))
    case ApplyGateway => VirtualServiceObject(LabelMeta(d), GatewayVirtualService(d, d.spec.gateway.value))
    case ApplyMesh => VirtualServiceObject(LabelMeta(d), MeshVirtualService(d))
    case ApplyAutoscaler(app) => AutoscalerObject(NO_META, AutoscalerFor(d, app))
  }

  /** DeepEqual tells an empty list or map from a nil one, and an empty one is stored as nil. These say that the
      generated object holds no empty list, so that it can compare equal to what is stored. */
  predicate DestinationRuleRoundTrips(d: Design) {
    d.spec.apps != []
  }

  predicate GatewayRoundTrips(d: Design, g: Gateway) {
    && d.spec.apps != []
    && (g.cors.Some? ==> g.cors.value.allowOrigins != [])
    && forall app | app in d.spec.apps :: map[] !in CustomHeaders(g, app)
  }

  predicate MeshRoundTrips(d: Design) {
    d.spec.apps != [] && forall app | app in d.spec.apps :: Colour(app.version)
  }

  /** What a task does once it has read its object. */
  datatype Decision =
    | Skip                             // nothing to write; go on with the next task of the stage
    | Halt                             // nothing to write; the stage is over
    | Note(available: int32)           // remember a status; go on
    | Issue(verb: Verb, halt: bool)    // write; then go on, or end the stage

  function DecideRoutes(wanted: Object, roundTrips: bool, found: Option<(Object, nat)>): Decision
    requires wanted.VirtualServiceObject?
  {
    if found.None? then Issue(Create(wanted), false)
    else if !found.value.0.VirtualServiceObject? then Halt
    else if wanted.virtualService == found.value.0.virtualService && roundTrips then Skip
    else Issue(Update(wanted, Some(found.value.1)), false)
  }

  function Decide(d: Design, t: Task, found: Option<(Object, nat)>): Decision {
    match t
    case ApplyDeployment(app) =>
      if app.minReplicas == -1 then
        (if found.Some? then Issue(Delete, false) else Skip)
      else if found.None? then Issue(Create(Wanted(d, t)), false)
      else if !found.value.0.DeploymentObject? then Halt
      else
        var carried := CarryOver(app, DeploymentFor(d, app), found.value.0.deployment);
        if carried == found.value.0.deployment then Skip
        else Issue(Update(DeploymentObject(DeploymentMeta(d, app), carried, 0), None), false)
    case ReadStatus(app) =>
      if found.Some? && found.value.0.DeploymentObject? then Note(found.value.0.available) else Halt
    case ApplyService(app) =>
      if found.None? then Issue(Create(Wanted(d, t)), true)
      else if !found.value.0.ServiceObject? then Halt
      else if ServiceFor(d, app) == found.value.0.service then Skip
      else Issue(Update(Wanted(d, t), Some(found.value.1)), false)
    case ApplyDestinationRule =>
      if found.None? then Issue(Create(Wanted(d, t)), true)
      else if !found.value.0.DestinationRuleObject? then Halt
      else if DestinationRuleFor(d) == found.value.0.destinationRule && DestinationRuleRoundTrips(d) then Skip
      else Issue(Update(Wanted(d, t), Some(found.value.1)), false)
    case ApplyGateway =>
      if d.spec.gateway.None? then Halt
      else DecideRoutes(Wanted(d, t), GatewayRoundTrips(d, d.spec.gateway.value), found)
    case ApplyMesh => DecideRoutes(Wanted(d, t), MeshRoundTrips(d), found)
    case ApplyAutoscaler(app) =>
      if app.minReplicas == -1 then
        (if found.Some? then Issue(Delete, false) else Skip)
      else if found.None? then Issue(Create(Wanted(d, t)), true)
      else if !found.value.0.AutoscalerObject? then Halt
      else if AutoscalerFor(d, app) == found.value.0.autoscaler then Skip
      else Issue(Update(Wanted(d, t), Some(found.value.1)), false)
  }

  // ----- stages: the tasks of one resource kind, in order -----

  function DeploymentTasks(d: Design): seq<Task> {
    seq(|d.spec.apps|, i requires 0 <= i < |d.spec.apps| => ApplyDeployment(d.spec.apps[i]))
  }

  function StatusTasks(d: Design): seq<Task> {
    seq(|d.spec.apps|, i requires 0 <= i < |d.spec.apps| => ReadStatus(d.spec.apps[i]))
  }

  function ServiceTasks(d: Design): seq<Task> {
    seq(|d.spec.apps|, i requires 0 <= i < |d.spec.apps| => ApplyService(d.spec.apps[i]))
  }

  function VirtualServiceTasks(d: Design): seq<Task> {
    (if d.spec.gateway.Some? then [ApplyGateway] else []) + [ApplyMesh]
  }

  /** How many apps come before the first one that is scaled by keda. */
  function KedaCut(apps: seq<App>): (n: nat)
    ensures n <= |apps|
    ensures forall i | 0 <= i < n :: apps[i].scaleType != "keda"
    ensures n < |apps| ==> apps[n].scaleType == "keda"
  {
    if apps == [] || apps[0].scaleType == "keda" then 0 else 1 + KedaCut(apps[1..])
  }

  function AutoscalerTasks(d: Design): seq<Task> {
    seq(KedaCut(d.spec.apps), i requires 0 <= i < KedaCut(d.spec.apps) => ApplyAutoscaler(d.spec.apps[i]))
  }

  /** The stages of one reconcile, in order. */
  function Stages(d: Design): seq<seq<Task>> {
    [DeploymentTasks(d), StatusTasks(d), ServiceTasks(d), [ApplyDestinationRule],
     VirtualServiceTasks(d), AutoscalerTasks(d)]
  }

  // ----- running tasks -----

  datatype Progress = Next | Stop | Fail

  function View(r: Response): Option<(Object, nat)> {
    if r.Found? then Some((r.obj, r.version)) else None
  }

  function Noted(plus: Plus, t: Task, available: int32): Plus {
    if t.ReadStatus?
    then plus.(status := plus.status.(available := plus.status.available[t.app.version := available]))
    else plus
  }

  datatype Outcome = Outcome(plus: Plus, world: World, progress: Progress)

  /** A failed read or write ends the stage with an error; a failed status read only ends it. */
  function RunTask(plus: Plus, t: Task, w: World, fates: Fates): Outcome {
    var key := KeyOf(plus.design, t);
    var (w1, r1) := Call(w, Request(key, Get), fates);
    if r1.Failed? then Outcome(plus, w1, if t.ReadStatus? then Stop else Fail)
    else
      match Decide(plus.design, t, View(r1))
      case Skip => Outcome(plus, w1, Next)
      case Halt => Outcome(plus, w1, Stop)
      case Note(n) => Outcome(Noted(plus, t, n), w1, Next)
      case Issue(verb, halt) =>
        var (w2, r2) := Call(w1, Request(key, verb), fates);
        Outcome(plus, w2, if r2.Failed? then Fail else if halt then Stop else Next)
  }

  /** Runs a stage; the result's progress is Fail if and only if it ended with an error. */
  function RunStage(plus: Plus, tasks: seq<Task>, w: World, fates: Fates): (r: Outcome)
    ensures r.plus.design == plus.design
    ensures r.progress != Next
    decreases |tasks|
  {
    if tasks == [] then Outcome(plus, w, Stop)
    else
      var first := RunTask(plus, tasks[0], w, fates);
      if first.progress == Next then RunStage(first.plus, tasks[1..], first.world, fates) else first
  }

  /** One turn of the loop over a stage. */
  lemma StageTurn(plus: Plus, tasks: seq<Task>, i: nat, w: World, fates: Fates)
    requires i < |tasks|
    ensures var first := RunTask(plus, tasks[i], w, fates);
      RunStage(plus, tasks[i..], w, fates)
      == if first.progress == Next then RunStage(first.plus, tasks[i + 1..], first.world, fates) else first
  {
    assert tasks[i..][1..] == tasks[i + 1..];
  }

  // ----- one task against its slot, when nothing fails -----

  function ViewSlot(slot: Slot): Option<(Object, nat)> {
    if slot.content.Some? then Some((slot.content.value, slot.version)) else None
  }

  function Effect(d: Design, t: Task, slot: Slot): Slot {
    var decision := Decide(d, t, ViewSlot(slot));
    if decision.Issue? then Serve(slot, decision.verb).0 else slot
  }

  predicate Ends(d: Design, t: Task, slot: Slot) {
    var decision := Decide(d, t, ViewSlot(slot));
    decision.Halt? || (decision.Issue? && decision.halt)
  }

  function NotedFrom(plus: Plus, t: Task, slot: Slot): Plus {
    var decision := Decide(plus.design, t, ViewSlot(slot));
    if decision.Note? then Noted(plus, t, decision.available) else plus
  }

  ghost predicate Calm(fates: Fates) {
    forall n :: fates(n) == Served
  }

  /** A write that follows its read directly is never turned away. */
  lemma DecidedWriteSucceeds(d: Design, t: Task, slot: Slot)
    requires Decide(d, t, ViewSlot(slot)).Issue?
    ensures !Serve(slot, Decide(d, t, ViewSlot(slot)).verb).1.Failed?
  {
  }

  /** One that was decided on an older reading is turned away and changes nothing: what somebody else has written since
      is never overwritten. The exceptions are writes to a Deployment and the removal of an autoscaler, which go by no
      version. */
  lemma StaleWriteRefused(d: Design, t: Task, read: Slot, now: Slot)
    requires Decide(d, t, ViewSlot(read)).Issue? && !t.ApplyDeployment?
    requires t.ApplyAutoscaler? ==> t.app.minReplicas != -1
    requires now.version != read.version && (read.content.None? ==> now.content.Some?)
    ensures var verb := Decide(d, t, ViewSlot(read)).verb;
      Serve(now, verb).0 == now && Serve(now, verb).1.Failed?
  {
  }

  lemma CalmTask(plus: Plus, t: Task, w: World, fates: Fates)
    requires Calm(fates)
    ensures var key := KeyOf(plus.design, t);
      var slot := At(w.store, key);
      var r := RunTask(plus, t, w, fates);
      && r.world.store == Put(w.store, key, Effect(plus.design, t, slot))
      && r.progress == (if Ends(plus.design, t, slot) then Stop else Next)
      && r.plus == NotedFrom(plus, t, slot)
  {
    var slot := At(w.store, KeyOf(plus.design, t));
    var decision := Decide(plus.design, t, ViewSlot(slot));
    if decision.Issue? {
      DecidedWriteSucceeds(plus.design, t, slot);
    }
  }

  /** Every write a task issues fits the kind of its key. */
  lemma DecidedWriteTyped(d: Design, t: Task, found: Option<(Object, nat)>)
    ensures var decision := Decide(d, t, found);
      decision.Issue? ==> VerbTyped(KeyOf(d, t).kind, decision.verb)
  {
  }

  // ----- the CORS defaults filled into the instance change no task -----

  function Filled(plus: Plus): Plus {
    plus.(design := FillDesign(plus.design))
  }

  lemma FillKeepsDecision(d: Design, t: Task, found: Option<(Object, nat)>)
    requires t.ApplyGateway? || t.ApplyMesh? || t.ApplyAutoscaler?
    ensures KeyOf(FillDesign(d), t) == KeyOf(d, t)
    ensures Decide(FillDesign(d), t, found) == Decide(d, t, found)
  {
    match t
    case ApplyGateway =>
      if d.spec.gateway.Some? {
        GatewayGenerationRepeatable(d);
      }
    case ApplyMesh => MeshGenerationRepeatable(d);
    case ApplyAutoscaler(_) =>
  }

  lemma FillKeepsTask(plus: Plus, t: Task, w: World, fates: Fates)
    requires t.ApplyGateway? || t.ApplyMesh? || t.ApplyAutoscaler?
    ensures var r := RunTask(plus, t, w, fates);
      RunTask(Filled(plus), t, w, fates) == r.(plus := Filled(plus)) && r.plus == plus
  {
    var (_, r1) := Call(w, Request(KeyOf(plus.design, t), Get), fates);
    FillKeepsDecision(plus.design, t, View(r1));
  }

  lemma {:induction false} FillKeepsStage(plus: Plus, tasks: seq<Task>, w: World, fates: Fates)
    requires forall t | t in tasks :: t.ApplyGateway? || t.ApplyMesh? || t.ApplyAutoscaler?
    ensures var r := RunStage(plus, tasks, w, fates);
      RunStage(Filled(plus), tasks, w, fates) == r.(plus := Filled(plus)) && r.plus == plus
    decreases |tasks|
  {
    if tasks != [] {
      FillKeepsTask(plus, tasks[0], w, fates);
      FillKeepsStage(plus, tasks[1..], RunTask(plus, tasks[0], w, fates).world, fates);
    }
  }
}
