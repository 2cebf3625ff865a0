/** The VirtualService resource: generating both route tables from the instance, and applying them. */
module VirtualServices {
  import opened Wrappers
  import opened PlusTypes
  import opened Routes
  import opened FirstMatch
  import opened Api
  import opened Children
  import opened PlusInstances

  lemma PairsTurn(headerSets: seq<StringMap>, headers: StringMap, prefix: string)
    ensures MatchPairs(headerSets + [headers], prefix) == MatchPairs(headerSets, prefix) + MatchPair(headers, prefix)
  {
    assert (headerSets + [headers])[..|headerSets|] == headerSets;
  }

  class VirtualService {
    const plus: PlusInstance
    const server: ApiServer

    constructor (plus: PlusInstance, server: ApiServer)
      ensures this.plus == plus && this.server == server
    {
      this.plus, this.server := plus, server;
    }

    method GenerateMatch(app: App, isGateway: bool) returns (matches: seq<Match>)
      requires isGateway ==> plus.design.spec.gateway.Some?
      ensures matches == if isGateway then GatewayMatches(plus.design, plus.design.spec.gateway.value, app)
                                      else MeshMatches(plus.design, app)
      ensures !isGateway ==> (matches == [] <==> app.version != "blue" && app.version != "green")
      ensures isGateway ==> |matches| >= 2 && matches[|matches| - 1].headers == map["VERSION" := app.version]
    {
      matches := [];
      if !isGateway {
        if app.version == "blue" || app.version == "green" {
          matches := matches + [Match(map[], None, plus.design.ns, VersionLabels(app))];
        }
        return;
      }
      matches := GenerateGatewayMatch(app, plus.design.spec.gateway.value);
    }

    method GenerateGatewayMatch(app: App, g: Gateway) returns (matches: seq<Match>)
      ensures matches == GatewayMatches(plus.design, g, app)
      ensures |matches| >= 2 && matches[|matches| - 1].headers == map["VERSION" := app.version]
    {
      matches := [];
      var prefix := PrefixPath(plus.design);
      var route := if app.version in g.route then g.route[app.version] else None;
      if route.Some? {
        var headerSets := route.value;
        for i := 0 to |headerSets|
          invariant matches == MatchPairs(headerSets[..i], prefix)
        {
          var headers := Overlay(map[], headerSets[i]);
          assert headers == headerSets[i] && headerSets[..i + 1] == headerSets[..i] + [headerSets[i]];
          PairsTurn(headerSets[..i], headerSets[i], prefix);
          matches := matches + [HeaderMatch(headers, prefix + "/"), HeaderMatch(headers, prefix)];
        }
        assert headerSets[..|headerSets|] == headerSets;
      }
      var defaultHeaders: StringMap := map[VERSION_HEADER := app.version];
      PairsTurn(CustomHeaders(g, app), defaultHeaders, prefix);
      matches := matches + [HeaderMatch(defaultHeaders, prefix + "/"), HeaderMatch(defaultHeaders, prefix)];
    }

    method GenerateDefaultRoute() returns (destinations: seq<Destination>)
      requires plus.design.spec.gateway.Some?
      ensures destinations == DefaultDestinations(plus.design, plus.design.spec.gateway.value)
    {
      destinations := [];
      var apps, weights := plus.design.spec.apps, plus.design.spec.gateway.value.weights;
      for i := 0 to |apps|
        invariant destinations == DefaultDestinations(plus.design, plus.design.spec.gateway.value)[..i]
      {
        destinations := destinations + [DestinationFor(plus.design, apps[i], LookupInt(weights, apps[i].version))];
      }
    }

    /** Fills the instance's empty CORS lists with defaults, and returns the policy with them. */
    method GenerateCorsPolicy(isGateway: bool) returns (cors: Option<CorsPolicy>)
      requires isGateway ==> plus.design.spec.gateway.Some?
      modifies plus`design
      ensures plus.design == if isGateway then FillDesign(old(plus.design)) else old(plus.design)
      ensures cors == if isGateway then CorsFor(old(plus.design).spec.gateway.value) else None
    {
      if !isGateway || plus.design.spec.gateway.value.cors.None? {
        return None;
      }
      var g := plus.design.spec.gateway.value;
      var c := g.cors.value;
      var allowOrigins := [];
      for i := 0 to |c.allowOrigins|
        invariant allowOrigins == c.allowOrigins[..i]
      {
        allowOrigins := allowOrigins + [c.allowOrigins[i]];
      }
      assert allowOrigins == c.allowOrigins;
      if |c.allowMethods| == 0 {
        c := c.(allowMethods := ["POST", "GET", "OPTIONS", "DELETE", "PUT"]);
      }
      if |c.allowHeaders| == 0 {
        c := c.(allowHeaders := ["Origin", "x-token"]);
      }
      plus.design := plus.design.(spec := plus.design.spec.(gateway := Some(g.(cors := Some(c)))));
      cors := Some(CorsPolicy(allowOrigins, c.allowHeaders, c.allowMethods, c.exposeHeaders, 60 * 60 * 24, true));
    }

    /** One route; the policy settings are copied, and CORS defaults may be filled in on the way. */
    method GenerateHttpRoute(matches: seq<Match>, destinations: seq<Destination>, isGateway: bool)
      returns (r: HttpRoute)
      requires isGateway ==> plus.design.spec.gateway.Some?
      modifies plus`design
      ensures plus.design == if isGateway then FillDesign(old(plus.design)) else old(plus.design)
      ensures var policy := old(plus.design).spec.policy;
        r == HttpRoute(matches, if isGateway then Some("/") else None, destinations,
                       FaultFor(policy), RetriesFor(policy), TimeoutFor(policy),
                       if isGateway then CorsFor(old(plus.design).spec.gateway.value) else None)
    {
      var policy := plus.design.spec.policy;
      var cors := GenerateCorsPolicy(isGateway);
      r := HttpRoute(matches, if isGateway then Some("/") else None, destinations,
                     FaultFor(policy), RetriesFor(policy), TimeoutFor(policy), cors);
    }

    method GenerateMesh() returns (spec: VirtualServiceSpec)
      modifies plus`design
      ensures plus.design == old(plus.design) && spec == MeshVirtualService(plus.design)
      ensures |spec.http| == |plus.design.spec.apps|
      ensures forall i | 0 <= i < |spec.http| ::
                spec.http[i].matches == [] <==> plus.design.spec.apps[i].version !in {"blue", "green"}
    {
      var apps := plus.design.spec.apps;
      var http: seq<HttpRoute> := [];
      for i := 0 to |apps|
        invariant plus.design == old(plus.design) && http == MeshRoutes(plus.design)[..i]
      {
        var matches := GenerateMatch(apps[i], false);
        var r := GenerateHttpRoute(matches, [DestinationFor(plus.design, apps[i], 100)], false);
        http := http + [r];
      }
      spec := VirtualServiceSpec([ServiceHost(plus.design)], ["mesh"], http, "");
    }

    /** The route is the one for `d`, whether or not the instance has been filled in already. */
    method GenerateGatewayAppRoute(app: App, ghost d: Design) returns (r: HttpRoute)
      requires d.spec.gateway.Some? && (plus.design == d || plus.design == FillDesign(d))
      modifies plus`design
      ensures plus.design == FillDesign(d)
      ensures r == GatewayAppRoute(d, d.spec.gateway.value, app)
    {
      FillKeepsRoutes(d, app);
      var matches := GenerateMatch(app, true);
      r := GenerateHttpRoute(matches, [DestinationFor(plus.design, app, 100)], true);
    }

    method GenerateGatewayAppRoutes() returns (http: seq<HttpRoute>)
      requires plus.design.spec.gateway.Some?
      modifies plus`design
      ensures plus.design == if plus.design.spec.apps == [] then old(plus.design) else FillDesign(old(plus.design))
      ensures http == GatewayAppRoutes(old(plus.design), old(plus.design).spec.gateway.value)
    {
      ghost var d, all := plus.design, GatewayAppRoutes(plus.design, plus.design.spec.gateway.value);
      var apps := plus.design.spec.apps;
      http := [];
      for i := 0 to |apps|
        invariant plus.design == if i == 0 then d else FillDesign(d)
        invariant http == all[..i]
      {
        var r := GenerateGatewayAppRoute(apps[i], d);
        assert r == all[i];
        http := http + [r];
      }
    }

    /** The table is the one for the instance as it was, although the instance changes under way. */
    method GenerateGateway() returns (spec: VirtualServiceSpec)
      requires plus.design.spec.gateway.Some?
      modifies plus`design
      ensures plus.design == FillDesign(old(plus.design))
      ensures spec == GatewayVirtualService(old(plus.design), old(plus.design).spec.gateway.value)
      ensures forall req :: Evaluate(spec.http, req).Some?
                       <==> Serves(plus.design.name, plus.design.spec.gateway.value.pathPrefix, req.path)
    {
      ghost var d := plus.design;
      forall req
        ensures Evaluate(GatewayRoutes(d, d.spec.gateway.value), req).Some?
           <==> Serves(d.name, d.spec.gateway.value.pathPrefix, req.path)
      {
        GatewayMeaning(d, d.spec.gateway.value, req);
      }
      assert FillDesign(FillDesign(d)) == FillDesign(d);
      FillKeepsDefaultRoute(d);
      var http := GenerateGatewayAppRoutes();
      var destinations := GenerateDefaultRoute();
      var prefix := PrefixPath(plus.design);
      var last := GenerateHttpRoute([HeaderMatch(map[], prefix + "/"), HeaderMatch(map[], prefix)], destinations, true);
      assert last == GatewayDefaultRoute(d, d.spec.gateway.value);
      spec := VirtualServiceSpec(plus.design.spec.gateway.value.hosts, ["istio-system/gateway"], http + [last], "");
    }

    method GenerateObject(spec: VirtualServiceSpec) returns (o: Object)
      ensures o == VirtualServiceObject(LabelMeta(plus.design), spec)
    {
      var labels := plus.GenerateLabels();
      o := VirtualServiceObject(Meta(labels, map[]), spec);
    }

    /** What to write, if anything, given what was found; `roundTrips` says whether DeepEqual can find them equal. */
    method NextWrite(wanted: Object, roundTrips: bool, found: Response) returns (due: bool, verb: Verb)
      requires wanted.VirtualServiceObject? && (found.Absent? || (found.Found? && found.obj.VirtualServiceObject?))
      ensures DecideRoutes(wanted, roundTrips, View(found)) == if due then Issue(verb, false) else Skip
    {
      if found.Absent? {
        return true, Create(wanted);
      }
      due := !(wanted.virtualService == found.obj.virtualService && roundTrips);
      verb := Update(wanted, Some(found.version));
    }

    /** Reads one VirtualService and creates or updates it. */
    method ApplyOne(key: Key, wanted: Object, roundTrips: bool, ghost t: Task) returns (ok: bool)
      requires wanted.VirtualServiceObject? && WellTyped(server.store)
      requires t.ApplyGateway? || t.ApplyMesh?
      requires key == KeyOf(plus.design, t) && key.kind == VirtualServiceKind
      requires forall found :: Decide(plus.design, t, found) == DecideRoutes(wanted, roundTrips, found)
      modifies server
      ensures WellTyped(server.store)
      ensures var r := RunTask(plus.Value(), t, old(server.Current()), server.fates);
        r.plus == plus.Value() && r.world == server.Current() && r.progress == if ok then Next else Fail
    {
      var found := server.Do(key, Get);
      if found.Failed? {
        return false;
      }
      assert Decide(plus.design, t, View(found)) == DecideRoutes(wanted, roundTrips, View(found));
      var due, verb := NextWrite(wanted, roundTrips, found);
      if !due {
        return true;
      }
      DecidedWriteTyped(plus.design, t, View(found));
      ExecuteKeepsTypes(server.store, Request(key, verb), server.fates(server.calls));
      var response := server.Do(key, verb);
      return !response.Failed?;
    }

    method ApplyGatewayObject() returns (ok: bool)
      requires plus.design.spec.gateway.Some? && WellTyped(server.store)
      modifies server, plus`design
      ensures WellTyped(server.store) && plus.design == FillDesign(old(plus.design))
      ensures var r := RunTask(old(plus.Value()), ApplyGateway, old(server.Current()), server.fates);
        r == Outcome(old(plus.Value()), server.Current(), if ok then Next else Fail)
    {
      ghost var p, w := plus.Value(), server.Current();
      FillKeepsTask(p, ApplyGateway, w, server.fates);
      GatewayGenerationRepeatable(p.design);
      var spec := GenerateGateway();
      var wanted := GenerateObject(spec);
      ok := ApplyOne(Key(VirtualServiceKind, plus.design.ns, plus.design.name + "-gateway"), wanted,
                     GatewayRoundTrips(plus.design, plus.design.spec.gateway.value), ApplyGateway);
    }

    /** `before` is the instance without the CORS defaults that may have been filled in. */
    method ApplyMeshObject(ghost before: Plus) returns (ok: bool)
      requires WellTyped(server.store) && (plus.Value() == before || plus.Value() == Filled(before))
      modifies server, plus`design
      ensures WellTyped(server.store) && plus.design == old(plus.design)
      ensures var r := RunTask(before, ApplyMesh, old(server.Current()), server.fates);
        r == Outcome(before, server.Current(), if ok then Next else Fail)
    {
      FillKeepsTask(before, ApplyMesh, server.Current(), server.fates);
      var spec := GenerateMesh();
      var wanted := GenerateObject(spec);
      ok := ApplyOne(Key(VirtualServiceKind, plus.design.ns, plus.design.name), wanted, MeshRoundTrips(plus.design),
                     ApplyMesh);
    }

    /** Applies the gateway object, when there is a gateway, and then the mesh object. */
    method Apply() returns (ok: bool)
      requires WellTyped(server.store)
      modifies server, plus`design
      ensures WellTyped(server.store)
      ensures plus.design == if old(plus.design).spec.gateway.Some? then FillDesign(old(plus.design))
                                                                    else old(plus.design)
      ensures var r := RunStage(old(plus.Value()), VirtualServiceTasks(old(plus.design)), old(server.Current()),
                                server.fates);
        r.world == server.Current() && (ok <==> r.progress == Stop)
    {
      ghost var p, tasks := plus.Value(), VirtualServiceTasks(plus.design);
      StageTurn(p, tasks, 0, server.Current(), server.fates);
      assert tasks[0..] == tasks;
      if plus.design.spec.gateway.Some? {
        ok := ApplyGatewayObject();
        if !ok {
          return false;
        }
        StageTurn(p, tasks, 1, server.Current(), server.fates);
      }
      ok := ApplyMeshObject(p);
    }
  }
}
