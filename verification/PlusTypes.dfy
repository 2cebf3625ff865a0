/** The Plus resource: its spec as the user wrote it, its metadata, and what is derived from them by name. */
module PlusTypes {
  import opened Wrappers
  import opened Text

  type int32 = x: int | -0x8000_0000 <= x < 0x8000_0000

  type StringMap = map<string, string>

  /** Go's map lookup: the zero value when the key is missing. */
  function Lookup(m: StringMap, k: string): string {
    if k in m then m[k] else ""
  }

  /** A resource quantity: the canonical text that `String()` prints, and the rest of its representation. */
  datatype Quantity = Quantity(canonical: string, representation: string)

  datatype Resources = Resources(requestCpu: Quantity, requestMemory: Quantity,
                                 limitCpu: Quantity, limitMemory: Quantity,
                                 other: string)  // every other resource name

  /** `pod` stands for the pod-spec fields that are copied unread into the container. */
  datatype App = App(version: string, image: string, minReplicas: int32, maxReplicas: int32,
                     port: int32, protocol: string, restartMark: string,
                     templateLabels: StringMap, templateAnnotations: StringMap,
                     resources: Resources, proxyResources: Resources,
                     scaleType: string, pod: string)

  datatype Cors = Cors(allowOrigins: seq<string>, allowMethods: seq<string>,
                       allowHeaders: seq<string>, exposeHeaders: seq<string>)

  /** `route` maps a version to its alternative header maps; a nil route pointer is None. */
  datatype Gateway = Gateway(hosts: seq<string>, cors: Option<Cors>, weights: map<string, int32>,
                             route: map<string, Option<seq<StringMap>>>, pathPrefix: Option<string>)

  /** A duration as text, with what time.ParseDuration makes of it (nanoseconds, None for an error). */
  datatype DurationText = DurationText(text: string, nanos: Option<int>)

  datatype Retries = Retries(attempts: int32, perTryTimeout: DurationText, retryOn: string)
  datatype FaultDelay = FaultDelay(percent: Option<int32>, delay: DurationText)
  datatype FaultAbort = FaultAbort(percent: Option<int32>, httpStatus: int32)
  datatype Fault = Fault(delay: Option<FaultDelay>, abort: Option<FaultAbort>)
  datatype Outlier = Outlier(consecutiveErrors: nat, interval: DurationText, ejectionTime: DurationText,
                             maxEjectionPercent: int32, minHealthPercent: int32)
  datatype Policy = Policy(maxRequest: int32, timeout: DurationText, retries: Option<Retries>,
                           fault: Option<Fault>, outlier: Option<Outlier>)

  datatype Spec = Spec(gateway: Option<Gateway>, policy: Option<Policy>, apps: seq<App>)

  /** Everything the generated resources are derived from. */
  datatype Design = Design(name: string, ns: string, labels: StringMap, annotations: StringMap, spec: Spec)

  datatype Desc = Desc(replicas: string, images: string, weights: string, prefixPath: string)
  datatype Status = Status(available: map<string, int32>, success: bool, desc: Desc)

  datatype Plus = Plus(design: Design, finalizers: seq<string>, deleting: bool, status: Status)

  // ----- names and labels -----

  function AppName(d: Design, app: App): string {
    d.name + "-" + app.version
  }

  function AppImage(app: App): string {
    RemoveAll(app.image, "_" + app.version)
  }

  function ServiceHost(d: Design): string {
    d.name + "." + d.ns + ".svc.cluster.local"
  }

  function PlusLabels(d: Design): StringMap {
    d.labels["plus" := d.name]
  }

  function VersionLabels(app: App): StringMap {
    map["version" := app.version]
  }

  function AppLabels(d: Design, app: App): StringMap {
    PlusLabels(d)["version" := app.version]
  }

  function AppTemplateLabels(d: Design, app: App): StringMap {
    AppLabels(d, app) + app.templateLabels
  }

  predicate DistinctVersions(apps: seq<App>) {
    forall i, j | 0 <= i < j < |apps| :: apps[i].version != apps[j].version
  }

  /** Apps of one version have one name, and so write the same objects. */
  predicate Share(a: App, b: App) {
    a.version == b.version
  }

  lemma AppNameInjective(d: Design, a: App, b: App)
    ensures AppName(d, a) == AppName(d, b) <==> a.version == b.version
  {
    assert AppName(d, a)[|d.name| + 1..] == a.version;
    assert AppName(d, b)[|d.name| + 1..] == b.version;
  }

  /** The image without "_" and the version, where it is there once; any other image is taken as it is. */
  lemma AppImageReads(app: App, front: string, rest: string)
    ensures !Occurs("_" + app.version, app.image) ==> AppImage(app) == app.image
    ensures app.image == front + ("_" + app.version) + rest && !Occurs("_" + app.version, rest)
            && (forall i | 0 <= i < |front| :: !(("_" + app.version) <= app.image[i..])) ==>
              AppImage(app) == front + rest
  {
    var cut := "_" + app.version;
    if !Occurs(cut, app.image) {
      RemoveAllNone(app.image, cut);
    }
    if app.image == front + cut + rest && !Occurs(cut, rest)
       && forall i | 0 <= i < |front| :: !(cut <= app.image[i..]) {
      RemoveAllFirst(front, cut, rest);
      RemoveAllNone(rest, cut);
    }
  }

  // ----- path prefix -----

  function PrefixPath(d: Design): string {
    match d.spec.gateway
    case None => ""
    case Some(g) =>
      match g.pathPrefix
      case None => "/" + d.name
      case Some(p) => if p == "" then "" else if "/" <= p then p else "/" + p
  }

  /** Empty or rooted: the Plus's name when the gateway sets none, and what it sets, with a slash put before a text that
      is not rooted itself. */
  lemma PrefixPathIsEmptyOrRooted(d: Design)
    ensures PrefixPath(d) == "" || PrefixPath(d)[0] == '/'
    ensures d.spec.gateway.None? ==> PrefixPath(d) == ""
    ensures d.spec.gateway.Some? && d.spec.gateway.value.pathPrefix.None? ==> PrefixPath(d)[1..] == d.name
    ensures d.spec.gateway.Some? && d.spec.gateway.value.pathPrefix.Some? ==>
      var given := d.spec.gateway.value.pathPrefix.value;
      && (given == "" || given[0] == '/' <==> PrefixPath(d) == given)
      && (PrefixPath(d) == given || PrefixPath(d)[1..] == given)
  {
  }

  // ----- the printed status -----

  function LookupInt(m: map<string, int32>, k: string): int32 {
    if k in m then m[k] else 0
  }

  function ReplicaEntry(app: App, available: map<string, int32>): string {
    app.version + ":" + Itoa(app.minReplicas) + "-" + Itoa(app.maxReplicas)
    + "(" + Itoa(LookupInt(available, app.version)) + ")"
  }

  function ImageEntry(app: App): string {
    app.version + ":" + LastPiece(app.image, ':')
  }

  function ReplicaEntries(apps: seq<App>, available: map<string, int32>): seq<string> {
    seq(|apps|, i requires 0 <= i < |apps| => ReplicaEntry(apps[i], available))
  }

  function ImageEntries(apps: seq<App>): seq<string> {
    seq(|apps|, i requires 0 <= i < |apps| => ImageEntry(apps[i]))
  }

  function WeightEntry(version: string, weight: int32): string {
    version + ":" + Itoa(weight)
  }

  /** Only versions the gateway gives a weight are listed. */
  function WeightEntries(apps: seq<App>, weights: map<string, int32>): seq<string> {
    if apps == [] then []
    else
      var last := apps[|apps| - 1];
      WeightEntries(apps[..|apps| - 1], weights)
      + if last.version in weights then [WeightEntry(last.version, weights[last.version])] else []
  }

  function GatewayWeights(spec: Spec): map<string, int32> {
    if spec.gateway.Some? then spec.gateway.value.weights else map[]
  }

  function StatusDesc(d: Design, available: map<string, int32>): Desc {
    Desc(Join(ReplicaEntries(d.spec.apps, available), " "),
         Join(ImageEntries(d.spec.apps), " "),
         Join(WeightEntries(d.spec.apps, GatewayWeights(d.spec)), " "),
         PrefixPath(d))
  }
}
