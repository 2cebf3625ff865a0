/** The admission webhooks: defaulting, then validation, of a Plus. */
module Admission {
  import opened Wrappers
  import opened Text
  import opened PlusTypes
  import opened Weights

  /** Accepted, or rejected naming the first offending field. */
  datatype Verdict = Accepted | Rejected(field: string)

  // ----- defaulting -----

  function DefaultApp(app: App): App {
    if app.maxReplicas == 0 then app.(maxReplicas := app.minReplicas) else app
  }

  function DefaultApps(apps: seq<App>): seq<App> {
    seq(|apps|, i requires 0 <= i < |apps| => DefaultApp(apps[i]))
  }

  function DefaultPolicy(p: Policy): Policy {
    if p.outlier.Some? && p.outlier.value.maxEjectionPercent <= 0
    then p.(outlier := Some(p.outlier.value.(maxEjectionPercent := 10)))
    else p
  }

  function Default(d: Design): Design {
    d.(spec := d.spec.(
      apps := DefaultApps(d.spec.apps),
      policy := if d.spec.policy.Some? then Some(DefaultPolicy(d.spec.policy.value)) else None))
  }

  // ----- validation -----

  function ValidateApp(app: App): Verdict {
    if app.version == "" then Rejected("version")
    else if app.minReplicas == 0 then Rejected("minReplicas")
    else if app.maxReplicas < app.minReplicas then Rejected("maxReplicas")
    else if app.port < 0 then Rejected("port")
    else if app.protocol != "http" && app.protocol != "grpc" && app.protocol != "none" then Rejected("protocol")
    else Accepted
  }

  /** The verdict on the first app that is rejected. */
  function ValidateApps(apps: seq<App>): (v: Verdict)
    ensures v.Accepted? <==> forall app | app in apps :: ValidateApp(app).Accepted?
  {
    if apps == [] then Accepted
    else if ValidateApp(apps[0]).Rejected? then ValidateApp(apps[0])
    else ValidateApps(apps[1..])
  }

  ghost function ValidateGateway(g: Gateway): Verdict {
    if g.hosts == [] then Rejected("hosts")
    else if !WeightsAccepted(g.weights) then Rejected("weights")
    else Accepted
  }

  function ValidateRetries(r: Retries): Verdict {
    if r.perTryTimeout.nanos.None? then Rejected("perTryTimeout")
    else if r.attempts <= 0 then Rejected("attempts")
    else Accepted
  }

  function ValidateFault(f: Fault): Verdict {
    if f.delay.Some? && f.delay.value.delay.nanos.None? then Rejected("delay") else Accepted
  }

  function ValidateOutlier(o: Outlier): Verdict {
    if o.interval.nanos.None? then Rejected("interval")
    else if o.ejectionTime.nanos.None? then Rejected("ejectionTime")
    else if o.consecutiveErrors == 0 then Rejected("consecutiveErrors")
    else Accepted
  }

  function ValidatePolicy(p: Policy): Verdict {
    if p.timeout.nanos.None? then Rejected("timeout")
    else if p.fault.Some? && ValidateFault(p.fault.value).Rejected? then ValidateFault(p.fault.value)
    else if p.retries.Some? && ValidateRetries(p.retries.value).Rejected? then ValidateRetries(p.retries.value)
    else if p.outlier.Some? then ValidateOutlier(p.outlier.value)
    else Accepted
  }

  ghost function Validate(d: Design): Verdict {
    if !IsDnsLabel(d.name) then Rejected("name")
    else if d.spec.policy.Some? && ValidatePolicy(d.spec.policy.value).Rejected? then
      ValidatePolicy(d.spec.policy.value)
    else if d.spec.gateway.Some? && ValidateGateway(d.spec.gateway.value).Rejected? then
      ValidateGateway(d.spec.gateway.value)
    else ValidateApps(d.spec.apps)
  }

  /** The mutating webhook, then the validating one: what is stored, if anything. */
  ghost function Admit(plus: Plus): Option<Plus> {
    var defaulted := plus.(design := Default(plus.design));
    if Validate(defaulted.design).Accepted? then Some(defaulted) else None
  }

  // ----- what admission promises -----

  lemma DefaultIdempotent(d: Design)
    ensures Default(Default(d)) == Default(d)
  {
    assert DefaultApps(DefaultApps(d.spec.apps)) == DefaultApps(d.spec.apps);
  }

  /** Defaulting fills in an upper bound that is zero, with the lower one, and an ejection percentage that is not
      positive, with ten; and nothing else changes. */
  lemma DefaultFills(d: Design)
    ensures var after := Default(d);
      && after.(spec := d.spec) == d && after.spec.gateway == d.spec.gateway
      && |after.spec.apps| == |d.spec.apps|
      && (forall i | 0 <= i < |d.spec.apps| ::
            var app := d.spec.apps[i];
            after.spec.apps[i] == if app.maxReplicas == 0 then app.(maxReplicas := app.minReplicas) else app)
      && (after.spec.policy.Some? <==> d.spec.policy.Some?)
      && (d.spec.policy.Some? ==>
            var p, p' := d.spec.policy.value, after.spec.policy.value;
            && p'.(outlier := p.outlier) == p && (p'.outlier.Some? <==> p.outlier.Some?)
            && (p.outlier.Some? ==>
                  p'.outlier.value == if p.outlier.value.maxEjectionPercent > 0 then p.outlier.value
                                      else p.outlier.value.(maxEjectionPercent := 10)))
  {
  }

  /** Defaulting never turns an accepted Plus into a rejected one. */
  lemma DefaultKeepsAcceptance(d: Design)
    requires Validate(d).Accepted?
    ensures Validate(Default(d)).Accepted?
  {
    forall app | app in DefaultApps(d.spec.apps)
      ensures ValidateApp(app).Accepted?
    {
      var i :| 0 <= i < |d.spec.apps| && DefaultApps(d.spec.apps)[i] == app;
      assert d.spec.apps[i] in d.spec.apps;
    }
  }

  /** What admission asks of an app as submitted: a zero maxReplicas is filled in first. */
  predicate AppAcceptable(app: App) {
    && app.version != "" && app.minReplicas != 0 && app.port >= 0
    && (app.maxReplicas == 0 || app.maxReplicas >= app.minReplicas)
    && (app.protocol == "http" || app.protocol == "grpc" || app.protocol == "none")
  }

  lemma DefaultedAppsAccepted(apps: seq<App>)
    ensures ValidateApps(DefaultApps(apps)).Accepted? <==> forall app | app in apps :: AppAcceptable(app)
  {
    forall i | 0 <= i < |apps|
      ensures AppAcceptable(apps[i]) <==> ValidateApp(DefaultApps(apps)[i]).Accepted?
      ensures DefaultApps(apps)[i] in DefaultApps(apps)
    {
    }
    if ValidateApps(DefaultApps(apps)).Accepted? {
      forall app | app in apps
        ensures AppAcceptable(app)
      {
        var i :| 0 <= i < |apps| && apps[i] == app;
      }
    } else {
      var app :| app in DefaultApps(apps) && !ValidateApp(app).Accepted?;
      var i :| 0 <= i < |apps| && DefaultApps(apps)[i] == app;
      assert !AppAcceptable(apps[i]) && apps[i] in apps;
    }
  }

  /** What admission asks of a policy: every duration parses, retries are attempted, and errors are counted. */
  predicate PolicyAcceptable(p: Policy) {
    && p.timeout.nanos.Some?
    && (p.fault.Some? && p.fault.value.delay.Some? ==> p.fault.value.delay.value.delay.nanos.Some?)
    && (p.retries.Some? ==> p.retries.value.perTryTimeout.nanos.Some? && p.retries.value.attempts > 0)
    && (p.outlier.Some? ==>
          && p.outlier.value.interval.nanos.Some? && p.outlier.value.ejectionTime.nanos.Some?
          && p.outlier.value.consecutiveErrors > 0)
  }

  /** What it asks of a gateway: a host, and no weights or weights that add up to 100 in 32 bits. */
  ghost predicate GatewayAcceptable(g: Gateway) {
    g.hosts != [] && (g.weights == map[] || Sum(g.weights) % 0x1_0000_0000 == 100)
  }

  lemma PolicyVerdict(p: Policy)
    ensures ValidatePolicy(DefaultPolicy(p)).Accepted? <==> PolicyAcceptable(p)
  {
  }

  /** Admission, read as one condition on what the user submitted. */
  lemma AdmittedIff(plus: Plus)
    ensures Admit(plus).Some? <==>
      && IsDnsLabel(plus.design.name)
      && (plus.design.spec.policy.Some? ==> PolicyAcceptable(plus.design.spec.policy.value))
      && (plus.design.spec.gateway.Some? ==> GatewayAcceptable(plus.design.spec.gateway.value))
      && forall app | app in plus.design.spec.apps :: AppAcceptable(app)
  {
    DefaultedAppsAccepted(plus.design.spec.apps);
    if plus.design.spec.policy.Some? {
      PolicyVerdict(plus.design.spec.policy.value);
    }
  }

  /** The name of an admitted Plus: at most 63 lower-case letters, digits and hyphens, and no hyphen at either end. */
  lemma AdmittedName(plus: Plus)
    requires Admit(plus).Some?
    ensures var name := plus.design.name;
      && 0 < |name| <= 63 && name[0] != '-' && name[|name| - 1] != '-'
      && forall c | c in name :: 'a' <= c <= 'z' || '0' <= c <= '9' || c == '-'
  {
  }

  /** The object is stored as admission left it. */
  ghost predicate Admitted(plus: Plus) {
    Default(plus.design) == plus.design && Validate(plus.design).Accepted?
  }

  /** Everything that went through the webhooks may be written back with any finalizers, status or
      deletion mark: the reconciler's own updates are admitted unchanged, so deletion is never held up. */
  lemma AdmissionClosed(plus: Plus, finalizers: seq<string>, deleting: bool, status: Status)
    requires Admit(plus).Some?
    ensures Admitted(Admit(plus).value)
    ensures var again := Admit(plus).value.(finalizers := finalizers, deleting := deleting, status := status);
      Admit(again) == Some(again)
  {
    DefaultIdempotent(plus.design);
  }

  // ----- durations -----

  /** A protobuf duration. */
  datatype Duration = Duration(seconds: int, nanos: int)

  const NANOS_PER_SECOND := 1_000_000_000

  /** Go's integer division truncates toward zero. */
  function TruncatedDiv(a: int, b: int): int
    requires b > 0
  {
    if a >= 0 then a / b else -(-a / b)
  }

  function ToDuration(nanos: int): (d: Duration)
    ensures d.seconds * NANOS_PER_SECOND + d.nanos == nanos
    ensures -NANOS_PER_SECOND < d.nanos < NANOS_PER_SECOND
    ensures nanos >= 0 ==> d.seconds >= 0 && d.nanos >= 0
    ensures nanos <= 0 ==> d.seconds <= 0 && d.nanos <= 0
  {
    var seconds := TruncatedDiv(nanos, NANOS_PER_SECOND);
    Duration(seconds, nanos - seconds * NANOS_PER_SECOND)
  }

  /** The duration getters: nil when the text does not parse. */
  function GetDuration(t: DurationText): Option<Duration> {
    if t.nanos.Some? then Some(ToDuration(t.nanos.value)) else None
  }

  /** The overall timeout: nil also for a zero duration. */
  function GetTimeout(p: Policy): Option<Duration> {
    if p.timeout.nanos == Some(0) then None else GetDuration(p.timeout)
  }

  /** For admitted objects no generated duration is nil, and the timeout is nil exactly when it is zero. */
  lemma AdmittedDurationsPresent(plus: Plus)
    requires Admitted(plus) && plus.design.spec.policy.Some?
    ensures var p := plus.design.spec.policy.value;
      && (GetTimeout(p).None? <==> p.timeout.nanos == Some(0))
      && (p.retries.Some? ==> GetDuration(p.retries.value.perTryTimeout).Some? && p.retries.value.attempts > 0)
      && (p.outlier.Some? ==>
            && GetDuration(p.outlier.value.interval).Some? && GetDuration(p.outlier.value.ejectionTime).Some?
            && p.outlier.value.maxEjectionPercent > 0)
      && (p.fault.Some? && p.fault.value.delay.Some? ==> GetDuration(p.fault.value.delay.value.delay).Some?)
  {
    var p := plus.design.spec.policy.value;
    assert DefaultPolicy(p) == p;
  }

  /** For admitted objects the replica bounds are ordered and not zero. */
  lemma AdmittedBounds(plus: Plus, app: App)
    requires Admitted(plus) && app in plus.design.spec.apps
    ensures app.minReplicas <= app.maxReplicas && app.minReplicas != 0 && app.version != ""
  {
    assert ValidateApp(app).Accepted?;
  }
}
