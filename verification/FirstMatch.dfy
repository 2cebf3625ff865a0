/** What a compiled route table means, and that the gateway's table means the direct routing rule. */
module FirstMatch {
  import opened Wrappers
  import opened PlusTypes
  import opened Routes

  /** A request as a proxy sees it: its headers and path, and the namespace and labels of the calling workload. */
  datatype HttpRequest = HttpRequest(headers: StringMap, path: string, sourceNamespace: string, sourceLabels: StringMap)

  /** Every entry of `small` is an entry of `big`: exact header matching, and label selection. */
  predicate Within(small: StringMap, big: StringMap) {
    forall k | k in small :: k in big && big[k] == small[k]
  }

  predicate Holds(m: Match, req: HttpRequest) {
    && Within(m.headers, req.headers)
    && (m.uriPrefix.Some? ==> m.uriPrefix.value <= req.path)
    && (m.sourceNamespace == "" || m.sourceNamespace == req.sourceNamespace)
    && Within(m.sourceLabels, req.sourceLabels)
  }

  predicate RouteHolds(r: HttpRoute, req: HttpRequest) {
    r.matches == [] || exists i | 0 <= i < |r.matches| :: Holds(r.matches[i], req)
  }

  /** The least index at which the condition holds. */
  function FirstIndex<T>(s: seq<T>, p: T -> bool): (found: Option<nat>)
    ensures found.Some? ==> found.value < |s| && p(s[found.value])
    ensures forall j | 0 <= j < (if found.Some? then found.value else |s|) :: !p(s[j])
  {
    if s == [] then None
    else
      var found := FirstIndex(s[..|s| - 1], p);
      if found.Some? then found else if p(s[|s| - 1]) then Some(|s| - 1) else None
  }

  function FirstMatch(matches: seq<Match>, req: HttpRequest): (found: Option<nat>)
    ensures found.Some? ==> found.value < |matches| && Holds(matches[found.value], req)
    ensures forall j | 0 <= j < (if found.Some? then found.value else |matches|) :: !Holds(matches[j], req)
  {
    FirstIndex(matches, (m: Match) => Holds(m, req))
  }

  function FirstRoute(routes: seq<HttpRoute>, req: HttpRequest): (found: Option<nat>)
    ensures found.Some? ==> found.value < |routes| && RouteHolds(routes[found.value], req)
    ensures forall j | 0 <= j < (if found.Some? then found.value else |routes|) :: !RouteHolds(routes[j], req)
  {
    FirstIndex(routes, (r: HttpRoute) => RouteHolds(r, req))
  }

  /** A prefix rewrite replaces the prefix that the holding match asked for. */
  function Rewritten(r: HttpRoute, req: HttpRequest): string
    requires RouteHolds(r, req)
  {
    if r.rewrite.None? || r.matches == [] then req.path
    else
      var m := r.matches[FirstMatch(r.matches, req).value];
      if m.uriPrefix.Some? then r.rewrite.value + req.path[|m.uriPrefix.value|..] else req.path
  }

  /** Where a request goes and with which path; no route at all when no entry holds. */
  datatype Routed = Routed(destinations: seq<Destination>, path: string)

  function Evaluate(routes: seq<HttpRoute>, req: HttpRequest): Option<Routed> {
    match FirstRoute(routes, req)
    case None => None
    case Some(i) => Some(Routed(routes[i].destinations, Rewritten(routes[i], req)))
  }

  // ----- the rule the gateway table is meant to implement -----

  /** A request asks for an app by one of its custom header maps or by naming its version. */
  predicate AsksFor(g: Gateway, app: App, req: HttpRequest) {
    || (&& app.version in g.route && g.route[app.version].Some?
        && exists h | h in g.route[app.version].value :: Within(h, req.headers))
    || ("VERSION" in req.headers && req.headers["VERSION"] == app.version)
  }

  /** The first app, in spec order, that the request asks for. */
  function FirstAskedFor(g: Gateway, apps: seq<App>, req: HttpRequest): (found: Option<nat>)
    ensures found.Some? ==> found.value < |apps| && AsksFor(g, apps[found.value], req)
    ensures forall j | 0 <= j < (if found.Some? then found.value else |apps|) :: !AsksFor(g, apps[j], req)
  {
    FirstIndex(apps, (app: App) => AsksFor(g, app, req))
  }

  /** The path below the prefix, as the app sees it. */
  function UpstreamPath(rest: string): string {
    if "/" <= rest then rest else "/" + rest
  }

  function DirectRule(d: Design, g: Gateway, req: HttpRequest): Option<Routed> {
    var prefix := PrefixPath(d);
    if !(prefix <= req.path) then None
    else
      var path := UpstreamPath(req.path[|prefix|..]);
      match FirstAskedFor(g, d.spec.apps, req)
      case Some(i) => Some(Routed([DestinationFor(d, d.spec.apps[i], 100)], path))
      case None => Some(Routed(DefaultDestinations(d, g), path))
  }

  // ----- the table implements the rule -----

  lemma {:induction false} MatchPairsAt(headerSets: seq<StringMap>, prefix: string)
    ensures |MatchPairs(headerSets, prefix)| == 2 * |headerSets|
    ensures forall i | 0 <= i < |headerSets| ::
              && MatchPairs(headerSets, prefix)[2 * i] == HeaderMatch(headerSets[i], prefix + "/")
              && MatchPairs(headerSets, prefix)[2 * i + 1] == HeaderMatch(headerSets[i], prefix)
  {
    if headerSets != [] {
      MatchPairsAt(headerSets[..|headerSets| - 1], prefix);
    }
  }

  /** A route tries the app's own header maps in their order, and after all of them the VERSION header. */
  lemma AlternativesInOrder(d: Design, g: Gateway, app: App)
    requires app.version in g.route && g.route[app.version].Some?
    ensures var own, matches := g.route[app.version].value, GatewayMatches(d, g, app);
      && |matches| == 2 * |own| + 2
      && (forall i | 0 <= i < |own| :: matches[2 * i].headers == own[i] && matches[2 * i + 1].headers == own[i])
      && matches[2 * |own|].headers == map["VERSION" := app.version] == matches[2 * |own| + 1].headers
  {
    MatchPairsAt(HeaderSets(g, app), PrefixPath(d));
  }

  lemma SlashPrefixOf(prefix: string, path: string)
    ensures prefix + "/" <= path <==> prefix <= path && "/" <= path[|prefix|..]
  {
    if prefix <= path && "/" <= path[|prefix|..] {
      assert path[|prefix|] == path[|prefix|..][0];
    }
    if prefix + "/" <= path {
      assert prefix <= prefix + "/";
      assert path[|prefix|..][0] == (prefix + "/")[|prefix|];
    }
  }

  /** When each of the two alternatives of header set i holds. */
  lemma PairHolds(headerSets: seq<StringMap>, prefix: string, req: HttpRequest, i: nat)
    requires i < |headerSets|
    ensures |MatchPairs(headerSets, prefix)| == 2 * |headerSets|
    ensures var m := MatchPairs(headerSets, prefix)[2 * i];
      && m.uriPrefix == Some(prefix + "/")
      && (Holds(m, req) <==> Within(headerSets[i], req.headers) && prefix <= req.path && "/" <= req.path[|prefix|..])
    ensures var m := MatchPairs(headerSets, prefix)[2 * i + 1];
      m.uriPrefix == Some(prefix) && (Holds(m, req) <==> Within(headerSets[i], req.headers) && prefix <= req.path)
  {
    MatchPairsAt(headerSets, prefix);
    SlashPrefixOf(prefix, req.path);
  }

  /** A table of pairs holds exactly under the prefix with some header set satisfied. */
  lemma MatchPairsHoldIff(headerSets: seq<StringMap>, prefix: string, req: HttpRequest)
    ensures FirstMatch(MatchPairs(headerSets, prefix), req).Some?
       <==> prefix <= req.path && exists h | h in headerSets :: Within(h, req.headers)
  {
    var found := FirstMatch(MatchPairs(headerSets, prefix), req);
    MatchPairsAt(headerSets, prefix);
    if found.Some? {
      PairHolds(headerSets, prefix, req, found.value / 2);
      assert headerSets[found.value / 2] in headerSets;
    } else if prefix <= req.path {
      forall i | 0 <= i < |headerSets|
        ensures !Within(headerSets[i], req.headers)
      {
        PairHolds(headerSets, prefix, req, i);
      }
    }
  }

  /** Because the slash alternative comes first, the matched prefix includes the slash whenever the path has one. */
  lemma MatchedPrefix(headerSets: seq<StringMap>, prefix: string, req: HttpRequest)
    requires FirstMatch(MatchPairs(headerSets, prefix), req).Some? && prefix <= req.path
    ensures var found := FirstMatch(MatchPairs(headerSets, prefix), req).value;
      MatchPairs(headerSets, prefix)[found].uriPrefix
      == Some(if "/" <= req.path[|prefix|..] then prefix + "/" else prefix)
  {
    var ms, found := MatchPairs(headerSets, prefix), FirstMatch(MatchPairs(headerSets, prefix), req).value;
    MatchPairsAt(headerSets, prefix);
    var i := found / 2;
    PairHolds(headerSets, prefix, req, i);
    if found != 2 * i {
      assert found == 2 * i + 1 && !Holds(ms[2 * i], req);
    }
  }

  lemma RouteHoldsIffFirstMatch(r: HttpRoute, req: HttpRequest)
    requires r.matches != []
    ensures RouteHolds(r, req) <==> FirstMatch(r.matches, req).Some?
  {
  }

  lemma AskedForByHeaderSets(g: Gateway, app: App, req: HttpRequest)
    ensures AsksFor(g, app, req) <==> exists h | h in HeaderSets(g, app) :: Within(h, req.headers)
  {
    var byVersion := map[VERSION_HEADER := app.version];
    assert Within(byVersion, req.headers)
      <==> VERSION_HEADER in req.headers && req.headers[VERSION_HEADER] == app.version;
    assert byVersion in HeaderSets(g, app);
    assert forall h :: h in HeaderSets(g, app) <==> h in CustomHeaders(g, app) || h == byVersion;
  }

  lemma GatewayAppRouteMeaning(d: Design, g: Gateway, app: App, req: HttpRequest)
    ensures var r := GatewayAppRoute(d, g, app);
      && (RouteHolds(r, req) <==> PrefixPath(d) <= req.path && AsksFor(g, app, req))
      && (RouteHolds(r, req) ==> Rewritten(r, req) == UpstreamPath(req.path[|PrefixPath(d)|..]))
  {
    var r, prefix := GatewayAppRoute(d, g, app), PrefixPath(d);
    MatchPairsHoldIff(HeaderSets(g, app), prefix, req);
    MatchPairsAt(HeaderSets(g, app), prefix);
    AskedForByHeaderSets(g, app, req);
    RouteHoldsIffFirstMatch(r, req);
    if RouteHolds(r, req) {
      MatchedPrefix(HeaderSets(g, app), prefix, req);
      RewriteDropsPrefix(prefix, req.path);
    }
  }

  lemma GatewayDefaultRouteMeaning(d: Design, g: Gateway, req: HttpRequest)
    ensures var r := GatewayDefaultRoute(d, g);
      && (RouteHolds(r, req) <==> PrefixPath(d) <= req.path)
      && (RouteHolds(r, req) ==> Rewritten(r, req) == UpstreamPath(req.path[|PrefixPath(d)|..]))
  {
    var r, prefix := GatewayDefaultRoute(d, g), PrefixPath(d);
    var noHeaders: StringMap := map[];
    assert MatchPairs([noHeaders], prefix) == DefaultMatches(d);
    MatchPairsHoldIff([noHeaders], prefix, req);
    assert Within(noHeaders, req.headers) && noHeaders in [noHeaders];
    RouteHoldsIffFirstMatch(r, req);
    if RouteHolds(r, req) {
      MatchedPrefix([noHeaders], prefix, req);
      RewriteDropsPrefix(prefix, req.path);
    }
  }

  /** Replacing the matched prefix, slash included when there is one, by "/" leaves the upstream path. */
  lemma RewriteDropsPrefix(prefix: string, path: string)
    requires prefix <= path
    ensures var matched := if "/" <= path[|prefix|..] then prefix + "/" else prefix;
      |matched| <= |path| && "/" + path[|matched|..] == UpstreamPath(path[|prefix|..])
  {
    var rest := path[|prefix|..];
    if "/" <= rest {
      assert rest == "/" + rest[1..];
      assert rest[1..] == path[|prefix| + 1..];
    }
  }

  /** Which requests each gateway route takes, and the path it passes on. */
  lemma GatewayRouteMeaning(d: Design, g: Gateway, req: HttpRequest, i: nat)
    requires i <= |d.spec.apps|
    ensures var r := GatewayRoutes(d, g)[i];
      && (RouteHolds(r, req) <==> PrefixPath(d) <= req.path && (i < |d.spec.apps| ==> AsksFor(g, d.spec.apps[i], req)))
      && (RouteHolds(r, req) ==> Rewritten(r, req) == UpstreamPath(req.path[|PrefixPath(d)|..]))
      && r.destinations == if i < |d.spec.apps| then [DestinationFor(d, d.spec.apps[i], 100)]
                                               else DefaultDestinations(d, g)
  {
    if i < |d.spec.apps| {
      assert GatewayRoutes(d, g)[i] == GatewayAppRoute(d, g, d.spec.apps[i]);
      GatewayAppRouteMeaning(d, g, d.spec.apps[i], req);
    } else {
      assert GatewayRoutes(d, g)[i] == GatewayDefaultRoute(d, g);
      GatewayDefaultRouteMeaning(d, g, req);
    }
  }

  lemma GatewayFirstRoute(d: Design, g: Gateway, req: HttpRequest)
    ensures var asked := FirstAskedFor(g, d.spec.apps, req);
      FirstRoute(GatewayRoutes(d, g), req)
      == if PrefixPath(d) <= req.path then Some(if asked.Some? then asked.value else |d.spec.apps|) else None
  {
    var found, asked := FirstRoute(GatewayRoutes(d, g), req), FirstAskedFor(g, d.spec.apps, req);
    var expected := if asked.Some? then asked.value else |d.spec.apps|;
    GatewayRouteMeaning(d, g, req, expected);
    if found.Some? {
      GatewayRouteMeaning(d, g, req, found.value);
    }
  }

  /** The path lies under what the gateway's fields ask for. */
  predicate Serves(name: string, pathPrefix: Option<string>, path: string) {
    match pathPrefix
    case None => "/" + name <= path
    case Some(p) => p == "" || (if p[0] == '/' then p <= path else "/" + p <= path)
  }

  lemma ServesIff(d: Design, g: Gateway, path: string)
    requires d.spec.gateway == Some(g)
    ensures PrefixPath(d) <= path <==> Serves(d.name, g.pathPrefix, path)
  {
    PrefixPathIsEmptyOrRooted(d);
    assert PrefixPath(d) != "" ==> PrefixPath(d) == "/" + PrefixPath(d)[1..];
  }

  /** The gateway table implements the direct rule, for every spec and every request, and serves exactly the paths that
      the gateway's own fields ask for. */
  lemma GatewayMeaning(d: Design, g: Gateway, req: HttpRequest)
    ensures Evaluate(GatewayRoutes(d, g), req) == DirectRule(d, g, req)
    ensures d.spec.gateway == Some(g) ==>
      (Evaluate(GatewayRoutes(d, g), req).Some? <==> Serves(d.name, g.pathPrefix, req.path))
  {
    if d.spec.gateway == Some(g) {
      ServesIff(d, g, req.path);
    }
    GatewayFirstRoute(d, g, req);
    var asked := FirstAskedFor(g, d.spec.apps, req);
    GatewayRouteMeaning(d, g, req, if asked.Some? then asked.value else |d.spec.apps|);
  }

  /** In particular, the first app asked for gets everything. */
  lemma GatewayPicksFirst(d: Design, g: Gateway, req: HttpRequest, i: nat)
    requires PrefixPath(d) <= req.path && i < |d.spec.apps|
    requires AsksFor(g, d.spec.apps[i], req)
    requires forall j | 0 <= j < i :: !AsksFor(g, d.spec.apps[j], req)
    ensures Evaluate(GatewayRoutes(d, g), req)
         == Some(Routed([DestinationFor(d, d.spec.apps[i], 100)], UpstreamPath(req.path[|PrefixPath(d)|..])))
  {
    GatewayMeaning(d, g, req);
    var found := FirstAskedFor(g, d.spec.apps, req);
    assert found.Some? && found.value == i;
  }

  /** Without a path prefix, what is served lies under the name of the Plus, and the app sees what is below it. */
  lemma ServedUnderName(d: Design, g: Gateway, req: HttpRequest)
    requires d.spec.gateway == Some(g) && g.pathPrefix.None?
    ensures var routed := Evaluate(GatewayRoutes(d, g), req);
      && (routed.Some? <==> "/" + d.name <= req.path)
      && (routed.Some? ==>
            var rest := req.path[|d.name| + 1..];
            routed.value.path == if "/" <= rest then rest else "/" + rest)
  {
    GatewayMeaning(d, g, req);
    PrefixPathIsEmptyOrRooted(d);
  }

  /** With an empty one everything is served, as it comes. */
  lemma ServedEverywhere(d: Design, g: Gateway, req: HttpRequest)
    requires d.spec.gateway == Some(g) && g.pathPrefix == Some("")
    ensures var routed := Evaluate(GatewayRoutes(d, g), req);
      routed.Some? && routed.value.path == if "/" <= req.path then req.path else "/" + req.path
  {
    GatewayMeaning(d, g, req);
    PrefixPathIsEmptyOrRooted(d);
  }

  /** With any other, what lies under that text, which is rooted first if it is not, and the app sees what is below. */
  lemma ServedUnderPrefix(d: Design, g: Gateway, req: HttpRequest, prefix: string)
    requires d.spec.gateway == Some(g) && g.pathPrefix.Some? && g.pathPrefix.value != ""
    requires prefix == (if g.pathPrefix.value[0] == '/' then "" else "/") + g.pathPrefix.value
    ensures var routed := Evaluate(GatewayRoutes(d, g), req);
      && (routed.Some? <==> prefix <= req.path)
      && (routed.Some? ==>
            var rest := req.path[|prefix|..];
            routed.value.path == if "/" <= rest then rest else "/" + rest)
  {
    GatewayMeaning(d, g, req);
    PrefixPathIsEmptyOrRooted(d);
    assert PrefixPath(d) == prefix;
  }
}
