/** What an admitted policy and admitted weights become: settings on every route of both tables and on the
    DestinationRule, and the split of the default route. */
module TrafficSettings {
  import opened Wrappers
  import opened PlusTypes
  import opened Weights
  import opened Admission
  import opened Routes

  /** The duration is there and lasts as long as the text says. */
  predicate Lasts(d: Option<Duration>, t: DurationText) {
    d.Some? && t.nanos.Some? && d.value.seconds * NANOS_PER_SECOND + d.value.nanos == t.nanos.value
  }

  /** The route carries these retries, exactly when there are any. */
  predicate CarriesRetries(r: HttpRoute, p: Policy) {
    && (r.retries.Some? <==> p.retries.Some?)
    && (r.retries.Some? ==>
          && r.retries.value.attempts == p.retries.value.attempts && r.retries.value.attempts > 0
          && r.retries.value.retryOn == p.retries.value.retryOn
          && Lasts(r.retries.value.perTryTimeout, p.retries.value.perTryTimeout))
  }

  predicate CarriesTimeout(r: HttpRoute, p: Policy) {
    if p.timeout.nanos == Some(0) then r.timeout.None? else Lasts(r.timeout, p.timeout)
  }

  predicate CarriesFault(r: HttpRoute, p: Policy) {
    && (r.fault.Some? <==> p.fault.Some?)
    && (r.fault.Some? ==>
          && (r.fault.value.delay.Some? <==> p.fault.value.delay.Some?)
          && (r.fault.value.delay.Some? ==>
                && Lasts(r.fault.value.delay.value.fixedDelay, p.fault.value.delay.value.delay)
                && IsPercent(r.fault.value.delay.value.percent, p.fault.value.delay.value.percent))
          && (r.fault.value.abort.Some? <==> p.fault.value.abort.Some?)
          && (r.fault.value.abort.Some? ==>
                && r.fault.value.abort.value.httpStatus == p.fault.value.abort.value.httpStatus
                && IsPercent(r.fault.value.abort.value.percent, p.fault.value.abort.value.percent)))
  }

  /** The percentage asked for; none asked for is none at all. */
  predicate IsPercent(percent: int32, wanted: Option<int32>) {
    if wanted.None? then percent == 0 else percent == wanted.value
  }

  /** The route carries the policy's settings; without a policy, none. */
  predicate CarriesPolicy(r: HttpRoute, policy: Option<Policy>) {
    match policy
    case None => r.retries.None? && r.fault.None? && r.timeout.None?
    case Some(p) => CarriesRetries(r, p) && CarriesTimeout(r, p) && CarriesFault(r, p)
  }

  predicate HasSettings(r: HttpRoute, policy: Option<Policy>) {
    r.retries == RetriesFor(policy) && r.fault == FaultFor(policy) && r.timeout == TimeoutFor(policy)
  }

  lemma SettingsCarryPolicy(plus: Plus, r: HttpRoute)
    requires Admitted(plus) && HasSettings(r, plus.design.spec.policy)
    ensures CarriesPolicy(r, plus.design.spec.policy)
  {
    if plus.design.spec.policy.Some? {
      AdmittedDurationsPresent(plus);
    }
  }

  lemma GatewayRouteSettings(d: Design, g: Gateway, i: nat)
    requires i < |GatewayRoutes(d, g)|
    ensures HasSettings(GatewayRoutes(d, g)[i], d.spec.policy)
  {
  }

  lemma MeshRouteSettings(d: Design, i: nat)
    requires i < |MeshRoutes(d)|
    ensures HasSettings(MeshRoutes(d)[i], d.spec.policy)
  {
  }

  /** Every route of an admitted Plus carries its policy, with no duration missing: at the gateway and in the mesh. */
  lemma AdmittedRoutesCarryPolicy(plus: Plus)
    requires Admitted(plus)
    ensures plus.design.spec.gateway.Some? ==>
      forall r | r in GatewayRoutes(plus.design, plus.design.spec.gateway.value) ::
        CarriesPolicy(r, plus.design.spec.policy)
    ensures forall r | r in MeshRoutes(plus.design) :: CarriesPolicy(r, plus.design.spec.policy)
  {
    AdmittedMeshRoutes(plus);
    if plus.design.spec.gateway.Some? {
      AdmittedGatewayRoutes(plus, plus.design.spec.gateway.value);
    }
  }

  lemma AdmittedGatewayRoutes(plus: Plus, g: Gateway)
    requires Admitted(plus)
    ensures forall r | r in GatewayRoutes(plus.design, g) :: CarriesPolicy(r, plus.design.spec.policy)
  {
    var routes := GatewayRoutes(plus.design, g);
    forall i: nat | i < |routes|
      ensures CarriesPolicy(routes[i], plus.design.spec.policy)
    {
      GatewayRouteSettings(plus.design, g, i);
      SettingsCarryPolicy(plus, routes[i]);
    }
  }

  lemma AdmittedMeshRoutes(plus: Plus)
    requires Admitted(plus)
    ensures forall r | r in MeshRoutes(plus.design) :: CarriesPolicy(r, plus.design.spec.policy)
  {
    var routes := MeshRoutes(plus.design);
    forall i: nat | i < |routes|
      ensures CarriesPolicy(routes[i], plus.design.spec.policy)
    {
      MeshRouteSettings(plus.design, i);
      SettingsCarryPolicy(plus, routes[i]);
    }
  }

  /** So does the DestinationRule: both request limits, and outlier detection with a positive ejection percentage. */
  lemma AdmittedRuleCarriesPolicy(plus: Plus)
    requires Admitted(plus)
    ensures var traffic := DestinationRuleFor(plus.design).trafficPolicy;
      match plus.design.spec.policy
      case None => traffic.connectionPool.None? && traffic.outlierDetection.None?
      case Some(p) =>
        && traffic.connectionPool.Some?
        && traffic.connectionPool.value.http1MaxPendingRequests == p.maxRequest
        && traffic.connectionPool.value.http2MaxRequests == p.maxRequest
        && traffic.connectionPool.value.maxRequestsPerConnection == 0
        && (traffic.outlierDetection.Some? <==> p.outlier.Some?)
        && (traffic.outlierDetection.Some? ==>
              var o := traffic.outlierDetection.value;
              && o.consecutive5xx == p.outlier.value.consecutiveErrors > 0
              && Lasts(o.interval, p.outlier.value.interval) && Lasts(o.baseEjectionTime, p.outlier.value.ejectionTime)
              && o.maxEjectionPercent == p.outlier.value.maxEjectionPercent > 0
              && o.minHealthPercent == p.outlier.value.minHealthPercent)
  {
    if plus.design.spec.policy.Some? {
      AdmittedDurationsPresent(plus);
    }
  }

  // ----- the default route -----

  function TotalWeight(destinations: seq<Destination>): int {
    if destinations == [] then 0
    else TotalWeight(destinations[..|destinations| - 1]) + destinations[|destinations| - 1].weight
  }

  lemma {:induction false} TotalIsRouteTotal(d: Design, g: Gateway, n: nat)
    requires n <= |d.spec.apps|
    ensures TotalWeight(DefaultDestinations(d, g)[..n]) == RouteTotal(d.spec.apps[..n], g.weights)
  {
    if n > 0 {
      TotalIsRouteTotal(d, g, n - 1);
      assert DefaultDestinations(d, g)[..n][..n - 1] == DefaultDestinations(d, g)[..n - 1];
      assert d.spec.apps[..n][..n - 1] == d.spec.apps[..n - 1];
    }
  }

  /** The destinations of the default route share out 100 in all, exactly when the weights keyed outside the apps
      sum to zero. */
  lemma DefaultRouteSharesHundred(d: Design, g: Gateway)
    requires DistinctVersions(d.spec.apps) && g.weights != map[] && WeightsAccepted(g.weights)
    requires 0 <= Sum(g.weights) < 0x1_0000_0000
    ensures TotalWeight(DefaultDestinations(d, g)) == 100 <==> Sum(g.weights - Versions(d.spec.apps)) == 0
  {
    var n := |d.spec.apps|;
    assert DefaultDestinations(d, g)[..n] == DefaultDestinations(d, g) && d.spec.apps[..n] == d.spec.apps;
    TotalIsRouteTotal(d, g, n);
    DefaultRouteTotalsHundred(d.spec.apps, g.weights);
  }
}
