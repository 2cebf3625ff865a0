/** The Istio objects a Plus is compiled to: ordered route tables, and the subsets they refer to. */
module Routes {
  import opened Wrappers
  import opened PlusTypes
  import opened Admission

  /** One alternative of a route: exact headers, an optional URI prefix, and the caller's namespace and labels. */
  datatype Match = Match(headers: StringMap, uriPrefix: Option<string>,
                         sourceNamespace: string, sourceLabels: StringMap)

  datatype Destination = Destination(host: string, port: nat, subset: string, weight: int32)

  datatype CorsPolicy = CorsPolicy(allowOrigins: seq<string>, allowHeaders: seq<string>,
                                   allowMethods: seq<string>, exposeHeaders: seq<string>,
                                   maxAgeSeconds: int, allowCredentials: bool)

  datatype Retry = Retry(attempts: int32, perTryTimeout: Option<Duration>, retryOn: string)
  datatype DelayInjection = DelayInjection(percent: int32, fixedDelay: Option<Duration>)
  datatype AbortInjection = AbortInjection(percent: int32, httpStatus: int32)
  datatype FaultInjection = FaultInjection(delay: Option<DelayInjection>, abort: Option<AbortInjection>)

  datatype HttpRoute = HttpRoute(matches: seq<Match>, rewrite: Option<string>, destinations: seq<Destination>,
                                 fault: Option<FaultInjection>, retries: Option<Retry>,
                                 timeout: Option<Duration>, cors: Option<CorsPolicy>)

  /** `other` stands for the fields the operator never sets but compares: tcp, tls, exportTo. */
  datatype VirtualServiceSpec = VirtualServiceSpec(hosts: seq<string>, gateways: seq<string>,
                                                   http: seq<HttpRoute>, other: string)

  datatype Subset = Subset(name: string, labels: StringMap)

  datatype ConnectionPool = ConnectionPool(http1MaxPendingRequests: int32, http2MaxRequests: int32,
                                           maxRequestsPerConnection: int32)
  datatype OutlierDetection = OutlierDetection(consecutive5xx: nat, interval: Option<Duration>,
                                               baseEjectionTime: Option<Duration>,
                                               maxEjectionPercent: int32, minHealthPercent: int32)
  datatype TrafficPolicy = TrafficPolicy(loadBalancer: string, connectionPool: Option<ConnectionPool>,
                                         outlierDetection: Option<OutlierDetection>)

  /** `other` stands for exportTo and workloadSelector. */
  datatype DestinationRuleSpec = DestinationRuleSpec(host: string, trafficPolicy: TrafficPolicy,
                                                     subsets: seq<Subset>, other: string)

  const VERSION_HEADER := "VERSION"

  predicate Colour(version: string) {
    version == "blue" || version == "green"
  }

  // ----- matches -----

  function HeaderMatch(headers: StringMap, prefix: string): Match {
    Match(headers, Some(prefix), "", map[])
  }

  /** The two alternatives of one header set: the prefix followed by a slash is tried first. */
  function MatchPair(headers: StringMap, prefix: string): seq<Match> {
    [HeaderMatch(headers, prefix + "/"), HeaderMatch(headers, prefix)]
  }

  function MatchPairs(headerSets: seq<StringMap>, prefix: string): seq<Match> {
    if headerSets == [] then []
    else MatchPairs(headerSets[..|headerSets| - 1], prefix) + MatchPair(headerSets[|headerSets| - 1], prefix)
  }

  function CustomHeaders(g: Gateway, app: App): seq<StringMap> {
    if app.version in g.route && g.route[app.version].Some? then g.route[app.version].value else []
  }

  /** The header sets that select an app at the gateway, in the order they are tried. */
  function HeaderSets(g: Gateway, app: App): seq<StringMap> {
    CustomHeaders(g, app) + [map[VERSION_HEADER := app.version]]
  }

  function GatewayMatches(d: Design, g: Gateway, app: App): seq<Match> {
    MatchPairs(HeaderSets(g, app), PrefixPath(d))
  }

  function DefaultMatches(d: Design): seq<Match> {
    MatchPair(map[], PrefixPath(d))
  }

  /** Inside the mesh a coloured app takes callers of its own colour; any other app takes every caller. */
  function MeshMatches(d: Design, app: App): seq<Match> {
    if Colour(app.version) then [Match(map[], None, d.ns, VersionLabels(app))] else []
  }

  // ----- destinations -----

  /** uint32(int32) */
  function ToUint32(n: int32): nat {
    n % 0x1_0000_0000
  }

  function DestinationFor(d: Design, app: App, weight: int32): Destination {
    Destination(ServiceHost(d), ToUint32(app.port), AppName(d, app), weight)
  }

  function DefaultDestinations(d: Design, g: Gateway): seq<Destination> {
    seq(|d.spec.apps|, i requires 0 <= i < |d.spec.apps| =>
        DestinationFor(d, d.spec.apps[i], LookupInt(g.weights, d.spec.apps[i].version)))
  }

  // ----- traffic settings copied from the policy -----

  function RetriesFor(policy: Option<Policy>): Option<Retry> {
    if policy.Some? && policy.value.retries.Some? then
      var r := policy.value.retries.value;
      Some(Retry(r.attempts, GetDuration(r.perTryTimeout), r.retryOn))
    else None
  }

  function PercentOf(percent: Option<int32>): int32 {
    if percent.Some? then percent.value else 0
  }

  function FaultFor(policy: Option<Policy>): Option<FaultInjection> {
    if policy.Some? && policy.value.fault.Some? then
      var f := policy.value.fault.value;
      Some(FaultInjection(
        if f.delay.Some?
        then Some(DelayInjection(PercentOf(f.delay.value.percent), GetDuration(f.delay.value.delay))) else None,
        if f.abort.Some?
        then Some(AbortInjection(PercentOf(f.abort.value.percent), f.abort.value.httpStatus)) else None))
    else None
  }

  function TimeoutFor(policy: Option<Policy>): Option<Duration> {
    if policy.Some? then GetTimeout(policy.value) else None
  }

  // ----- CORS -----

  const DEFAULT_METHODS := ["POST", "GET", "OPTIONS", "DELETE", "PUT"]
  const DEFAULT_HEADERS := ["Origin", "x-token"]

  /** What generating the policy leaves in the instance: empty lists replaced by defaults. */
  function FillCors(c: Cors): Cors {
    c.(allowMethods := if c.allowMethods == [] then DEFAULT_METHODS else c.allowMethods,
       allowHeaders := if c.allowHeaders == [] then DEFAULT_HEADERS else c.allowHeaders)
  }

  function CorsFor(g: Gateway): Option<CorsPolicy> {
    if g.cors.None? then None
    else
      var c := FillCors(g.cors.value);
      Some(CorsPolicy(c.allowOrigins, c.allowHeaders, c.allowMethods, c.exposeHeaders, 86400, true))
  }

  /** The instance after a gateway VirtualService was generated from it. */
  function FillDesign(d: Design): Design {
    if d.spec.gateway.Some? && d.spec.gateway.value.cors.Some?
    then d.(spec := d.spec.(gateway := Some(d.spec.gateway.value.(
           cors := Some(FillCors(d.spec.gateway.value.cors.value))))))
    else d
  }

  // ----- route tables -----

  function GatewayAppRoute(d: Design, g: Gateway, app: App): HttpRoute {
    HttpRoute(GatewayMatches(d, g, app), Some("/"), [DestinationFor(d, app, 100)],
              FaultFor(d.spec.policy), RetriesFor(d.spec.policy), TimeoutFor(d.spec.policy), CorsFor(g))
  }

  function GatewayDefaultRoute(d: Design, g: Gateway): HttpRoute {
    HttpRoute(DefaultMatches(d), Some("/"), DefaultDestinations(d, g),
              FaultFor(d.spec.policy), RetriesFor(d.spec.policy), TimeoutFor(d.spec.policy), CorsFor(g))
  }

  function MeshRoute(d: Design, app: App): HttpRoute {
    HttpRoute(MeshMatches(d, app), None, [DestinationFor(d, app, 100)],
              FaultFor(d.spec.policy), RetriesFor(d.spec.policy), TimeoutFor(d.spec.policy), None)
  }

  function GatewayAppRoutes(d: Design, g: Gateway): seq<HttpRoute> {
    seq(|d.spec.apps|, i requires 0 <= i < |d.spec.apps| => GatewayAppRoute(d, g, d.spec.apps[i]))
  }

  function GatewayRoutes(d: Design, g: Gateway): seq<HttpRoute> {
    GatewayAppRoutes(d, g) + [GatewayDefaultRoute(d, g)]
  }

  function MeshRoutes(d: Design): seq<HttpRoute> {
    seq(|d.spec.apps|, i requires 0 <= i < |d.spec.apps| => MeshRoute(d, d.spec.apps[i]))
  }

  function GatewayVirtualService(d: Design, g: Gateway): VirtualServiceSpec {
    VirtualServiceSpec(g.hosts, ["istio-system/gateway"], GatewayRoutes(d, g), "")
  }

  function MeshVirtualService(d: Design): VirtualServiceSpec {
    VirtualServiceSpec([ServiceHost(d)], ["mesh"], MeshRoutes(d), "")
  }

  // ----- destination rule -----

  function Subsets(d: Design): seq<Subset> {
    seq(|d.spec.apps|, i requires 0 <= i < |d.spec.apps| =>
        Subset(AppName(d, d.spec.apps[i]), AppLabels(d, d.spec.apps[i])))
  }

  function ConnectionPoolFor(policy: Option<Policy>): Option<ConnectionPool> {
    if policy.Some? then Some(ConnectionPool(policy.value.maxRequest, policy.value.maxRequest, 0)) else None
  }

  function OutlierFor(policy: Option<Policy>): Option<OutlierDetection> {
    if policy.Some? && policy.value.outlier.Some? then
      var o := policy.value.outlier.value;
      Some(OutlierDetection(o.consecutiveErrors, GetDuration(o.interval), GetDuration(o.ejectionTime),
                            o.maxEjectionPercent, o.minHealthPercent))
    else None
  }

  function DestinationRuleFor(d: Design): DestinationRuleSpec {
    DestinationRuleSpec(ServiceHost(d),
                        TrafficPolicy("ROUND_ROBIN", ConnectionPoolFor(d.spec.policy), OutlierFor(d.spec.policy)),
                        Subsets(d), "")
  }

  // ----- repeatability -----

  lemma FillKeepsRoutes(d: Design, app: App)
    requires d.spec.gateway.Some?
    ensures var f := FillDesign(d);
      && GatewayAppRoute(f, f.spec.gateway.value, app) == GatewayAppRoute(d, d.spec.gateway.value, app)
      && GatewayMatches(f, f.spec.gateway.value, app) == GatewayMatches(d, d.spec.gateway.value, app)
      && DestinationFor(f, app, 100) == DestinationFor(d, app, 100)
  {
    var g, g' := d.spec.gateway.value, FillDesign(d).spec.gateway.value;
    assert HeaderSets(g', app) == HeaderSets(g, app);
    assert PrefixPath(FillDesign(d)) == PrefixPath(d);
  }

  lemma FillKeepsDefaultRoute(d: Design)
    requires d.spec.gateway.Some?
    ensures var f := FillDesign(d);
      GatewayDefaultRoute(f, f.spec.gateway.value) == GatewayDefaultRoute(d, d.spec.gateway.value)
  {
    var f := FillDesign(d);
    assert PrefixPath(f) == PrefixPath(d);
    assert DefaultDestinations(f, f.spec.gateway.value) == DefaultDestinations(d, d.spec.gateway.value);
  }

  /** Although generating fills CORS defaults into the instance, generating again yields the same object,
      and every gateway route carries the same CORS policy. */
  lemma GatewayGenerationRepeatable(d: Design)
    requires d.spec.gateway.Some?
    ensures FillDesign(FillDesign(d)) == FillDesign(d)
    ensures GatewayVirtualService(FillDesign(d), FillDesign(d).spec.gateway.value)
         == GatewayVirtualService(d, d.spec.gateway.value)
    ensures forall r | r in GatewayRoutes(d, d.spec.gateway.value) :: r.cors == CorsFor(d.spec.gateway.value)
  {
    var g, f := d.spec.gateway.value, FillDesign(d);
    forall app { FillKeepsRoutes(d, app); }
    FillKeepsDefaultRoute(d);
    assert GatewayAppRoutes(f, f.spec.gateway.value) == GatewayAppRoutes(d, g);
  }

  /** The mesh VirtualService does not see the filled-in defaults either. */
  lemma MeshGenerationRepeatable(d: Design)
    ensures MeshVirtualService(FillDesign(d)) == MeshVirtualService(d)
  {
    assert MeshRoutes(FillDesign(d)) == MeshRoutes(d);
  }
}
