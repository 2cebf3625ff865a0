/** What a reconcile writes over the available replicas, when some Deployments cannot be read. */
module StatusAgreement {
  import opened PlusTypes
  import opened Weights
  import opened Api
  import opened Children
  import opened CalmReconciles

  function DeploymentSlot(d: Design, app: App, s: Store): Slot {
    At(s, KeyOf(d, ReadStatus(app)))
  }

  /** The app's Deployment is there and the call that reads it is answered. */
  predicate Readable(d: Design, app: App, s: Store, fate: Fate) {
    var content := DeploymentSlot(d, app, s).content;
    fate == Served && content.Some? && content.value.DeploymentObject?
  }

  function Available(slot: Slot): int32 {
    if slot.content.Some? && slot.content.value.DeploymentObject? then slot.content.value.available else 0
  }

  /** The available replicas that the apps' Deployments report. */
  function Reported(d: Design, apps: seq<App>, s: Store): (m: map<string, int32>)
    ensures m.Keys == Versions(apps)
  {
    if apps == [] then map[]
    else
      assert apps == [apps[0]] + apps[1..];
      map[apps[0].version := Available(DeploymentSlot(d, apps[0], s))] + Reported(d, apps[1..], s)
  }

  /** Apps of one version read the same Deployment, so each of them finds its own count. */
  lemma {:induction false} ReportedAt(d: Design, apps: seq<App>, s: Store, app: App)
    requires app.version in Versions(apps)
    ensures Reported(d, apps, s)[app.version] == Available(DeploymentSlot(d, app, s))
    decreases |apps|
  {
    if app.version in Versions(apps[1..]) {
      ReportedAt(d, apps[1..], s, app);
    } else {
      AppNameInjective(d, apps[0], app);
    }
  }

  /** The first n of these apps can be read one call after the other, and the next one, if there is one, cannot. */
  predicate ReadablePrefix(d: Design, apps: seq<App>, n: nat, w: World, fates: Fates) {
    && n <= |apps|
    && (forall i | 0 <= i < n :: Readable(d, apps[i], w.store, fates(w.calls + i)))
    && (n < |apps| ==> !Readable(d, apps[n], w.store, fates(w.calls + n)))
  }

  lemma ReadTask(plus: Plus, app: App, w: World, fates: Fates)
    ensures var r, slot := RunTask(plus, ReadStatus(app), w, fates), DeploymentSlot(plus.design, app, w.store);
      && r.world == World(w.store, w.calls + 1)
      && if Readable(plus.design, app, w.store, fates(w.calls)) then
           r.progress == Next
           && r.plus == WithAvailable(plus, plus.status.available[app.version := Available(slot)])
         else r.progress == Stop && r.plus == plus
  {
  }

  lemma TailPrefix(d: Design, apps: seq<App>, n: nat, w: World, fates: Fates)
    requires ReadablePrefix(d, apps, n, w, fates) && n > 0
    ensures Readable(d, apps[0], w.store, fates(w.calls))
    ensures ReadablePrefix(d, apps[1..], n - 1, World(w.store, w.calls + 1), fates)
  {
    forall i | 0 <= i < n - 1
      ensures Readable(d, apps[1..][i], w.store, fates(w.calls + 1 + i))
    {
      assert Readable(d, apps[i + 1], w.store, fates(w.calls + (i + 1)));
    }
  }

  /** The outcome when the first n of these apps are read. */
  function PrefixRead(plus: Plus, apps: seq<App>, w: World, n: nat): Outcome
    requires n <= |apps|
  {
    Outcome(WithAvailable(plus, plus.status.available + Reported(plus.design, apps[..n], w.store)),
            World(w.store, w.calls + if n < |apps| then n + 1 else n), Stop)
  }

  lemma PrefixReadTurn(plus: Plus, apps: seq<App>, w: World, n: nat)
    requires 0 < n <= |apps|
    ensures var report := Available(DeploymentSlot(plus.design, apps[0], w.store));
      PrefixRead(WithAvailable(plus, plus.status.available[apps[0].version := report]), apps[1..],
                 World(w.store, w.calls + 1), n - 1)
      == PrefixRead(plus, apps, w, n)
  {
    assert apps[..n][1..] == apps[1..][..n - 1];
    OverlayOver(plus.status.available, apps[0].version, Available(DeploymentSlot(plus.design, apps[0], w.store)),
                Reported(plus.design, apps[1..][..n - 1], w.store));
  }

  lemma NothingRead(plus: Plus, apps: seq<App>, w: World)
    ensures PrefixRead(plus, apps, w, 0) == Outcome(plus, World(w.store, w.calls + if apps != [] then 1 else 0), Stop)
  {
    assert plus.status.available + map[] == plus.status.available;
  }

  lemma {:induction false} ReadStage(plus: Plus, tasks: seq<Task>, apps: seq<App>, w: World, fates: Fates, n: nat)
    requires |tasks| == |apps| && forall i | 0 <= i < |apps| :: tasks[i] == ReadStatus(apps[i])
    requires ReadablePrefix(plus.design, apps, n, w, fates)
    ensures RunStage(plus, tasks, w, fates) == PrefixRead(plus, apps, w, n)
    decreases |tasks|
  {
    if n == 0 {
      NothingRead(plus, apps, w);
      if apps != [] {
        ReadTask(plus, apps[0], w, fates);
      }
    } else {
      var first := RunTask(plus, tasks[0], w, fates);
      TailPrefix(plus.design, apps, n, w, fates);
      ReadTask(plus, apps[0], w, fates);
      ReadStage(first.plus, tasks[1..], apps[1..], first.world, fates, n - 1);
      PrefixReadTurn(plus, apps, w, n);
    }
  }

  /** The status stage overwrites exactly the versions of the longest readable prefix. */
  lemma StatusStage(plus: Plus, w: World, fates: Fates, n: nat)
    requires ReadablePrefix(plus.design, plus.design.spec.apps, n, w, fates)
    ensures RunStage(plus, StatusTasks(plus.design), w, fates)
         == PrefixRead(plus, plus.design.spec.apps, w, n)
  {
    ReadStage(plus, StatusTasks(plus.design), plus.design.spec.apps, w, fates, n);
  }

  /** There always is such a prefix. */
  lemma PrefixExists(d: Design, w: World, fates: Fates) returns (n: nat)
    ensures ReadablePrefix(d, d.spec.apps, n, w, fates)
  {
    n := 0;
    while n < |d.spec.apps| && Readable(d, d.spec.apps[n], w.store, fates(w.calls + n))
      invariant n <= |d.spec.apps|
      invariant forall i | 0 <= i < n :: Readable(d, d.spec.apps[i], w.store, fates(w.calls + i))
    {
      n := n + 1;
    }
  }

  /** Read key by key: a version of the prefix gets what its Deployment reports. */
  lemma StatusAgreesOnPrefix(plus: Plus, w: World, fates: Fates, n: nat, app: App)
    requires ReadablePrefix(plus.design, plus.design.spec.apps, n, w, fates)
    requires app in plus.design.spec.apps[..n]
    ensures var after := RunStage(plus, StatusTasks(plus.design), w, fates).plus.status.available;
      app.version in after && after[app.version] == Available(DeploymentSlot(plus.design, app, w.store))
  {
    ReportedAt(plus.design, plus.design.spec.apps[..n], w.store, app);
    StatusStage(plus, w, fates, n);
  }

  /** Any other entry, of a later app or of a version that is long gone, is neither changed nor dropped nor added. */
  lemma StatusKeepsTheRest(plus: Plus, w: World, fates: Fates, n: nat, version: string)
    requires ReadablePrefix(plus.design, plus.design.spec.apps, n, w, fates)
    requires version !in Versions(plus.design.spec.apps[..n])
    ensures var before, after := plus.status.available,
                                 RunStage(plus, StatusTasks(plus.design), w, fates).plus.status.available;
      (version in after <==> version in before) && (version in before ==> after[version] == before[version])
  {
    StatusStage(plus, w, fates, n);
  }
}
