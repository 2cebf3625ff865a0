/** Where requests land: subsets select pods, and a blue or green request keeps its colour along a call chain. */
module Colours {
  import opened Wrappers
  import opened PlusTypes
  import opened Routes
  import opened FirstMatch

  // ----- referential integrity -----

  /** The destination names a subset of the Plus's DestinationRule, on that rule's host. */
  ghost predicate Resolves(d: Design, destination: Destination) {
    && destination.host == DestinationRuleFor(d).host
    && exists s | s in Subsets(d) :: s.name == destination.subset
  }

  lemma DestinationResolves(d: Design, app: App, weight: int32)
    requires app in d.spec.apps
    ensures Resolves(d, DestinationFor(d, app, weight))
  {
    var i :| 0 <= i < |d.spec.apps| && d.spec.apps[i] == app;
    assert Subsets(d)[i] in Subsets(d) && Subsets(d)[i].name == AppName(d, app);
  }

  /** Every destination of the gateway VirtualService resolves. */
  lemma GatewayDestinationsResolve(d: Design, g: Gateway, i: nat, destination: Destination)
    requires i < |GatewayRoutes(d, g)| && destination in GatewayRoutes(d, g)[i].destinations
    ensures Resolves(d, destination)
  {
    var apps := d.spec.apps;
    if i < |apps| {
      assert GatewayRoutes(d, g)[i] == GatewayAppRoute(d, g, apps[i]);
      DestinationResolves(d, apps[i], 100);
    } else {
      var j :| 0 <= j < |apps| && DefaultDestinations(d, g)[j] == destination;
      DestinationResolves(d, apps[j], LookupInt(g.weights, apps[j].version));
    }
  }

  /** Every destination of the mesh VirtualService resolves. */
  lemma MeshDestinationsResolve(d: Design, i: nat, destination: Destination)
    requires i < |MeshRoutes(d)| && destination in MeshRoutes(d)[i].destinations
    ensures Resolves(d, destination)
  {
    DestinationResolves(d, d.spec.apps[i], 100);
  }

  // ----- which pods a subset and the Service select -----

  /** A template label that also is a selector key must repeat the selector's value. */
  predicate TemplateAgrees(d: Design, app: App) {
    forall k | k in app.templateLabels && k in AppLabels(d, app) :: app.templateLabels[k] == AppLabels(d, app)[k]
  }

  /** A subset (and the Deployment's own selector) selects its app's pods exactly when the template labels agree. */
  lemma SubsetSelectsOwnPodsIff(d: Design, app: App)
    ensures Within(AppLabels(d, app), AppTemplateLabels(d, app)) <==> TemplateAgrees(d, app)
  {
    var pod := AppTemplateLabels(d, app);
    forall k | k in AppLabels(d, app)
      ensures pod[k] == if k in app.templateLabels then app.templateLabels[k] else AppLabels(d, app)[k]
    {
    }
  }

  /** Subsets of distinct versions never select the same pod. */
  lemma SubsetsDisjoint(d: Design, a: App, b: App, pod: StringMap)
    requires a.version != b.version
    ensures !(Within(AppLabels(d, a), pod) && Within(AppLabels(d, b), pod))
  {
    assert "version" in AppLabels(d, a) && "version" in AppLabels(d, b);
  }

  /** With agreeing template labels, the Service covers an app's pods exactly when the Plus carries no
      "version" label of its own, or that very version. */
  lemma ServiceCoversPodsIff(d: Design, app: App)
    requires TemplateAgrees(d, app)
    ensures Within(PlusLabels(d), AppTemplateLabels(d, app))
       <==> ("version" in d.labels ==> d.labels["version"] == app.version)
    ensures "plus" in AppTemplateLabels(d, app) && AppTemplateLabels(d, app)["plus"] == d.name
  {
    SubsetSelectsOwnPodsIff(d, app);
    var pod := AppTemplateLabels(d, app);
    assert pod["version"] == app.version && pod["plus"] == d.name;
    forall k | k in PlusLabels(d) && k != "version"
      ensures k in pod && pod[k] == PlusLabels(d)[k]
    {
      assert AppLabels(d, app)[k] == PlusLabels(d)[k];
    }
  }

  /** What a Plus's Service or one of its subsets selects carries the name of that Plus. */
  lemma SelectedPodsAreNamed(d: Design, app: App, pod: StringMap)
    requires Within(PlusLabels(d), pod) || Within(AppLabels(d, app), pod)
    ensures "plus" in pod && pod["plus"] == d.name
  {
    assert "plus" in PlusLabels(d) && "plus" in AppLabels(d, app);
  }

  /** The app's template does not pass its pods off as another Plus's. */
  predicate OwnsUp(d: Design, app: App) {
    "plus" in app.templateLabels ==> app.templateLabels["plus"] == d.name
  }

  /** So neither the Service nor any subset of a Plus ever selects the pods of another. */
  lemma OtherPodsNotSelected(a: Design, app: App, b: Design, other: App)
    requires a.name != b.name && OwnsUp(a, app)
    ensures !Within(PlusLabels(b), AppTemplateLabels(a, app))
    ensures !Within(AppLabels(b, other), AppTemplateLabels(a, app))
  {
    assert AppTemplateLabels(a, app)["plus"] == a.name;
    if Within(PlusLabels(b), AppTemplateLabels(a, app)) || Within(AppLabels(b, other), AppTemplateLabels(a, app)) {
      SelectedPodsAreNamed(b, other, AppTemplateLabels(a, app));
    }
  }

  // ----- the mesh table -----

  /** Whether an app's mesh route takes a caller. */
  predicate Takes(d: Design, app: App, req: HttpRequest) {
    app.version in {"blue", "green"} ==>
      && (d.ns == "" || d.ns == req.sourceNamespace)
      && "version" in req.sourceLabels && req.sourceLabels["version"] == app.version
  }

  lemma MeshRouteMeaning(d: Design, app: App, req: HttpRequest)
    ensures RouteHolds(MeshRoute(d, app), req) <==> Takes(d, app, req)
    ensures RouteHolds(MeshRoute(d, app), req) ==> Rewritten(MeshRoute(d, app), req) == req.path
  {
    var r := MeshRoute(d, app);
    if Colour(app.version) {
      var m := r.matches[0];
      assert m.sourceLabels == map["version" := app.version];
      assert Holds(m, req) <==> Takes(d, app, req);
    }
  }

  /** Read off the route itself: a blue or green app's route holds for the callers of the namespace that carry its
      version, and for no others; any other app's route holds for every caller. */
  lemma MeshRouteTakes(d: Design, app: App, req: HttpRequest)
    ensures RouteHolds(MeshRoute(d, app), req) <==>
      || (app.version != "blue" && app.version != "green")
      || (&& (d.ns == "" || req.sourceNamespace == d.ns)
          && "version" in req.sourceLabels && req.sourceLabels["version"] == app.version)
  {
    MeshRouteMeaning(d, app, req);
  }

  /** The first app, in spec order, that takes the caller. */
  function FirstTaker(d: Design, apps: seq<App>, req: HttpRequest): (found: Option<nat>)
    ensures found.Some? ==> found.value < |apps| && Takes(d, apps[found.value], req)
    ensures forall j | 0 <= j < (if found.Some? then found.value else |apps|) :: !Takes(d, apps[j], req)
  {
    FirstIndex(apps, (app: App) => Takes(d, app, req))
  }

  /** A mesh request goes, path unchanged, entirely to the first app that takes its caller. */
  lemma MeshMeaning(d: Design, req: HttpRequest)
    ensures Evaluate(MeshRoutes(d), req) ==
      match FirstTaker(d, d.spec.apps, req)
      case None => None
      case Some(i) => Some(Routed([DestinationFor(d, d.spec.apps[i], 100)], req.path))
  {
    var routes, apps := MeshRoutes(d), d.spec.apps;
    forall i | 0 <= i < |apps|
      ensures RouteHolds(routes[i], req) <==> Takes(d, apps[i], req)
      ensures RouteHolds(routes[i], req) ==> Rewritten(routes[i], req) == req.path
    {
      MeshRouteMeaning(d, apps[i], req);
    }
    assert FirstRoute(routes, req) == FirstTaker(d, apps, req);
  }

  // ----- landing on pods -----

  /** A request with this outcome may be served by a pod with these labels. */
  ghost predicate Reaches(d: Design, outcome: Option<Routed>, pod: StringMap) {
    && outcome.Some?
    && Within(PlusLabels(d), pod)
    && exists destination, s ::
         && destination in outcome.value.destinations && destination.weight > 0
         && s in Subsets(d) && s.name == destination.subset && Within(s.labels, pod)
  }

  /** Wherever a request to a Plus is routed, it never reaches a pod of another. */
  lemma RequestsStayWithPlus(a: Design, app: App, b: Design, outcome: Option<Routed>)
    requires a.name != b.name && OwnsUp(a, app)
    ensures !Reaches(b, outcome, AppTemplateLabels(a, app))
  {
    OtherPodsNotSelected(a, app, b, app);
  }

  /** A request sent entirely to one app reaches exactly the Service's pods that its subset labels select. */
  lemma ReachesSingle(d: Design, app: App, path: string, pod: StringMap)
    requires app in d.spec.apps
    ensures Reaches(d, Some(Routed([DestinationFor(d, app, 100)], path)), pod)
       <==> Within(PlusLabels(d), pod) && Within(AppLabels(d, app), pod)
  {
    var destination := DestinationFor(d, app, 100);
    var outcome := Routed([destination], path);
    assert destination in outcome.destinations;
    var i :| 0 <= i < |d.spec.apps| && d.spec.apps[i] == app;
    var own := Subsets(d)[i];
    assert own in Subsets(d) && own.name == destination.subset && own.labels == AppLabels(d, app);
    forall s | s in Subsets(d) && s.name == destination.subset
      ensures s.labels == AppLabels(d, app)
    {
      var j :| 0 <= j < |d.spec.apps| && Subsets(d)[j] == s;
      AppNameInjective(d, d.spec.apps[j], app);
    }
  }

  /** The colour has an app, and no app outside blue and green comes before the first such app. */
  ghost predicate KeepsColour(d: Design, colour: string) {
    exists i | 0 <= i < |d.spec.apps| ::
      d.spec.apps[i].version == colour && forall j | 0 <= j < i :: d.spec.apps[j].version in {"blue", "green"}
  }

  ghost predicate OnColour(pod: StringMap, colour: string) {
    "version" in pod && pod["version"] == colour
  }

  /** The caller is a pod of this colour in this namespace. */
  predicate CalledFrom(req: HttpRequest, ns: string, colour: string) {
    req.sourceNamespace == ns && "version" in req.sourceLabels && req.sourceLabels["version"] == colour
  }

  /** A coloured caller is taken by an app of its colour exactly when the callee keeps the colour. */
  lemma TakerHasColour(d: Design, req: HttpRequest, colour: string)
    requires colour in {"blue", "green"} && CalledFrom(req, d.ns, colour)
    ensures var found := FirstTaker(d, d.spec.apps, req);
      KeepsColour(d, colour) <==> found.Some? && d.spec.apps[found.value].version == colour
  {
    var apps, found := d.spec.apps, FirstTaker(d, d.spec.apps, req);
    if KeepsColour(d, colour) {
      var k :| 0 <= k < |apps| && apps[k].version == colour
               && forall j | 0 <= j < k :: apps[j].version in {"blue", "green"};
      assert Takes(d, apps[k], req);
    }
  }

  /** One hop inside the mesh: whatever pod a coloured caller reaches has the caller's colour exactly when the
      callee keeps the colour. An earlier app of another kind shadows the colour completely. */
  lemma MeshHop(d: Design, req: HttpRequest, colour: string, pod: StringMap)
    requires colour in {"blue", "green"} && CalledFrom(req, d.ns, colour)
    requires Reaches(d, Evaluate(MeshRoutes(d), req), pod)
    ensures OnColour(pod, colour) <==> KeepsColour(d, colour)
  {
    MeshMeaning(d, req);
    TakerHasColour(d, req, colour);
    var app := d.spec.apps[FirstTaker(d, d.spec.apps, req).value];
    ReachesSingle(d, app, req.path, pod);
    assert "version" in AppLabels(d, app);
  }

  /** Such a hop is never stuck: the colour's own pods are reached, given labels that agree. */
  lemma MeshHopLands(d: Design, req: HttpRequest, colour: string) returns (app: App)
    requires colour in {"blue", "green"} && CalledFrom(req, d.ns, colour) && KeepsColour(d, colour)
    requires "version" !in d.labels
    requires forall app | app in d.spec.apps :: TemplateAgrees(d, app)
    ensures app in d.spec.apps && app.version == colour
    ensures Reaches(d, Evaluate(MeshRoutes(d), req), AppTemplateLabels(d, app))
  {
    MeshMeaning(d, req);
    TakerHasColour(d, req, colour);
    app := d.spec.apps[FirstTaker(d, d.spec.apps, req).value];
    SubsetSelectsOwnPodsIff(d, app);
    ServiceCoversPodsIff(d, app);
    ReachesSingle(d, app, req.path, AppTemplateLabels(d, app));
  }

  // ----- entering at the gateway -----

  /** The request names the colour, and no app before the colour's first has a custom header map it satisfies. */
  ghost predicate EntersWith(d: Design, g: Gateway, req: HttpRequest, colour: string) {
    && PrefixPath(d) <= req.path
    && "VERSION" in req.headers && req.headers["VERSION"] == colour
    && exists i | 0 <= i < |d.spec.apps| ::
         && d.spec.apps[i].version == colour
         && forall j | 0 <= j < i :: !AsksFor(g, d.spec.apps[j], req)
  }

  lemma GatewayHop(d: Design, g: Gateway, req: HttpRequest, colour: string, pod: StringMap)
    requires EntersWith(d, g, req, colour)
    requires Reaches(d, Evaluate(GatewayRoutes(d, g), req), pod)
    ensures OnColour(pod, colour)
  {
    var apps := d.spec.apps;
    var i :| 0 <= i < |apps| && apps[i].version == colour && forall j | 0 <= j < i :: !AsksFor(g, apps[j], req);
    GatewayPicksFirst(d, g, req, i);
    ReachesSingle(d, apps[i], UpstreamPath(req.path[|PrefixPath(d)|..]), pod);
    assert "version" in AppLabels(d, apps[i]);
  }

  /** Entering is never stuck either. */
  lemma GatewayHopLands(d: Design, g: Gateway, req: HttpRequest, colour: string) returns (app: App)
    requires EntersWith(d, g, req, colour) && "version" !in d.labels
    requires forall app | app in d.spec.apps :: TemplateAgrees(d, app)
    ensures app in d.spec.apps && app.version == colour
    ensures Reaches(d, Evaluate(GatewayRoutes(d, g), req), AppTemplateLabels(d, app))
  {
    var apps := d.spec.apps;
    var i :| 0 <= i < |apps| && apps[i].version == colour && forall j | 0 <= j < i :: !AsksFor(g, apps[j], req);
    app := apps[i];
    GatewayPicksFirst(d, g, req, i);
    SubsetSelectsOwnPodsIff(d, app);
    ServiceCoversPodsIff(d, app);
    ReachesSingle(d, app, UpstreamPath(req.path[|PrefixPath(d)|..]), AppTemplateLabels(d, app));
  }

  // ----- whole call chains -----

  /** The pod of one Plus calls another Plus, and a pod of that one serves the call. */
  ghost predicate Hop(caller: Design, callerPod: StringMap, callee: Design, req: HttpRequest, pod: StringMap) {
    && req.sourceNamespace == caller.ns && req.sourceLabels == callerPod
    && Reaches(callee, Evaluate(MeshRoutes(callee), req), pod)
  }

  ghost predicate Hops(designs: seq<Design>, reqs: seq<HttpRequest>, pods: seq<StringMap>)
    requires |designs| == |reqs| == |pods|
  {
    forall i, j | 0 <= i < j < |designs| && j == i + 1 :: Hop(designs[i], pods[i], designs[j], reqs[j], pods[j])
  }

  /** pods[i] serves reqs[i], sent to designs[i]: the first through the gateway, each later one by the pod before it. */
  ghost predicate CallChain(g: Gateway, designs: seq<Design>, reqs: seq<HttpRequest>, pods: seq<StringMap>) {
    && 0 < |designs| == |reqs| == |pods|
    && Reaches(designs[0], Evaluate(GatewayRoutes(designs[0], g), reqs[0]), pods[0])
    && Hops(designs, reqs, pods)
  }

  lemma ChainHop(g: Gateway, designs: seq<Design>, reqs: seq<HttpRequest>, pods: seq<StringMap>, colour: string, i: nat)
    requires CallChain(g, designs, reqs, pods) && 0 < i < |designs| && colour in {"blue", "green"}
    requires designs[i].ns == designs[i - 1].ns && OnColour(pods[i - 1], colour)
    ensures OnColour(pods[i], colour) <==> KeepsColour(designs[i], colour)
  {
    assert Hop(designs[i - 1], pods[i - 1], designs[i], reqs[i], pods[i]);
    MeshHop(designs[i], reqs[i], colour, pods[i]);
  }

  /** Every Plus called inside the mesh up to hop i is in the first one's namespace and keeps the colour. */
  ghost predicate ColourKept(designs: seq<Design>, colour: string, i: nat)
    requires i < |designs|
  {
    forall j | 0 < j <= i :: designs[j].ns == designs[0].ns && KeepsColour(designs[j], colour)
  }

  lemma KeptAt(designs: seq<Design>, colour: string, i: nat, j: nat)
    requires j <= i < |designs| && ColourKept(designs, colour, i)
    ensures designs[j].ns == designs[0].ns && (j > 0 ==> KeepsColour(designs[j], colour))
  {
  }

  lemma ColourEnters(g: Gateway, designs: seq<Design>, reqs: seq<HttpRequest>, pods: seq<StringMap>, colour: string)
    requires CallChain(g, designs, reqs, pods) && EntersWith(designs[0], g, reqs[0], colour)
    ensures OnColour(pods[0], colour)
  {
    GatewayHop(designs[0], g, reqs[0], colour, pods[0]);
  }

  lemma ColourSurvivesHop(g: Gateway, designs: seq<Design>, reqs: seq<HttpRequest>, pods: seq<StringMap>,
                          colour: string, i: nat, j: nat)
    requires CallChain(g, designs, reqs, pods) && 0 < j <= i < |designs| && colour in {"blue", "green"}
    requires ColourKept(designs, colour, i) && OnColour(pods[j - 1], colour)
    ensures OnColour(pods[j], colour)
  {
    KeptAt(designs, colour, i, j);
    KeptAt(designs, colour, i, j - 1);
    ChainHop(g, designs, reqs, pods, colour, j);
  }

  /** Along a call chain of any length, a coloured request is on a pod of its colour at hop i
      when every Plus called inside the mesh up to there keeps the colour. */
  lemma ColourSurvives(g: Gateway, designs: seq<Design>, reqs: seq<HttpRequest>, pods: seq<StringMap>,
                       colour: string, i: nat)
    requires CallChain(g, designs, reqs, pods) && i < |designs| && colour in {"blue", "green"}
    requires EntersWith(designs[0], g, reqs[0], colour)
    requires ColourKept(designs, colour, i)
    ensures OnColour(pods[i], colour)
  {
    ColourEnters(g, designs, reqs, pods, colour);
    for j := 0 to i
      invariant OnColour(pods[j], colour)
    {
      ColourSurvivesHop(g, designs, reqs, pods, colour, i, j + 1);
    }
  }

  /** And only then: a request that is on its colour all the way met no Plus that loses it. */
  lemma ColourSurvivesOnlyIf(g: Gateway, designs: seq<Design>, reqs: seq<HttpRequest>,
                             pods: seq<StringMap>, colour: string, i: nat)
    requires CallChain(g, designs, reqs, pods) && 0 < i < |designs| && colour in {"blue", "green"}
    requires designs[i].ns == designs[i - 1].ns
    requires OnColour(pods[i - 1], colour) && OnColour(pods[i], colour)
    ensures KeepsColour(designs[i], colour)
  {
    ChainHop(g, designs, reqs, pods, colour, i);
  }

  lemma HopsAppend(designs: seq<Design>, reqs: seq<HttpRequest>, pods: seq<StringMap>,
                   d: Design, req: HttpRequest, pod: StringMap)
    requires 0 < |designs| == |reqs| == |pods| && Hops(designs, reqs, pods)
    requires Hop(designs[|designs| - 1], pods[|pods| - 1], d, req, pod)
    ensures Hops(designs + [d], reqs + [req], pods + [pod])
  {
    var n := |designs|;
    forall i, j | 0 <= i < j < n + 1 && j == i + 1
      ensures Hop((designs + [d])[i], (pods + [pod])[i], (designs + [d])[j], (reqs + [req])[j], (pods + [pod])[j])
    {
      if j < n {
        assert Hop(designs[i], pods[i], designs[j], reqs[j], pods[j]);
      }
    }
  }

  lemma AppendHop(g: Gateway, designs: seq<Design>, reqs: seq<HttpRequest>, pods: seq<StringMap>,
                  d: Design, req: HttpRequest, pod: StringMap)
    requires CallChain(g, designs, reqs, pods)
    requires Hop(designs[|designs| - 1], pods[|pods| - 1], d, req, pod)
    ensures CallChain(g, designs + [d], reqs + [req], pods + [pod])
  {
    HopsAppend(designs, reqs, pods, d, req, pod);
    assert (designs + [d])[0] == designs[0] && (reqs + [req])[0] == reqs[0] && (pods + [pod])[0] == pods[0];
  }

  /** A chain that is on its colour can be continued, on its colour, into any Plus of the namespace that keeps it:
      chains of every length exist. */
  lemma ChainGrows(g: Gateway, designs: seq<Design>, reqs: seq<HttpRequest>, pods: seq<StringMap>, colour: string,
                   d: Design, headers: StringMap, path: string) returns (req: HttpRequest, pod: StringMap)
    requires CallChain(g, designs, reqs, pods) && colour in {"blue", "green"}
    requires OnColour(pods[|pods| - 1], colour) && d.ns == designs[|designs| - 1].ns && KeepsColour(d, colour)
    requires "version" !in d.labels && forall app | app in d.spec.apps :: TemplateAgrees(d, app)
    ensures req.headers == headers && req.path == path
    ensures CallChain(g, designs + [d], reqs + [req], pods + [pod]) && OnColour(pod, colour)
  {
    req := HttpRequest(headers, path, designs[|designs| - 1].ns, pods[|pods| - 1]);
    var app := MeshHopLands(d, req, colour);
    pod := AppTemplateLabels(d, app);
    MeshHop(d, req, colour, pod);
    AppendHop(g, designs, reqs, pods, d, req, pod);
  }
}
