/** Reconciles whose calls fail for a while: whatever they leave behind, the operator converges once calls succeed. */
module Recovery {
  import opened Wrappers
  import opened PlusTypes
  import opened Api
  import opened Children
  import opened Reconciling
  import opened CalmReconciles
  import opened SharedVersions
  import opened Convergence

  // ----- what no fault can spoil -----

  /** A later world of the same run: objects of the right kinds, the Plus untouched, calls counted on. */
  ghost predicate Later(w: World, w': World) {
    && (WellTyped(w.store) ==> WellTyped(w'.store)) && w'.calls >= w.calls
    && forall k: Key | k.kind == PlusKind :: At(w'.store, k) == At(w.store, k)
  }

  lemma CallLater(w: World, req: Request, fates: Fates)
    requires req.key.kind != PlusKind && VerbTyped(req.key.kind, req.verb)
    ensures Later(w, Call(w, req, fates).0)
  {
    if WellTyped(w.store) {
      ExecuteKeepsTypes(w.store, req, fates(w.calls));
    }
    ExecuteFrame(w.store, req, fates(w.calls));
  }

  lemma TaskLater(plus: Plus, t: Task, w: World, fates: Fates)
    ensures Later(w, RunTask(plus, t, w, fates).world)
  {
    var key := KeyOf(plus.design, t);
    CallLater(w, Request(key, Get), fates);
    var (w1, r1) := Call(w, Request(key, Get), fates);
    DecidedWriteTyped(plus.design, t, View(r1));
    var decision := Decide(plus.design, t, View(r1));
    if !r1.Failed? && decision.Issue? {
      CallLater(w1, Request(key, decision.verb), fates);
    }
  }

  lemma {:induction false} StageLater(plus: Plus, tasks: seq<Task>, w: World, fates: Fates)
    ensures Later(w, RunStage(plus, tasks, w, fates).world)
    decreases |tasks|
  {
    if tasks != [] {
      TaskLater(plus, tasks[0], w, fates);
      var first := RunTask(plus, tasks[0], w, fates);
      if first.progress == Next {
        StageLater(first.plus, tasks[1..], first.world, fates);
      }
    }
  }

  lemma {:induction false} StagesLater(plus: Plus, stages: seq<seq<Task>>, w: World, fates: Fates)
    ensures Later(w, RunStages(plus, stages, w, fates).1)
    decreases |stages|
  {
    if stages != [] {
      StageLater(plus, stages[0], w, fates);
      var r := RunStage(plus, stages[0], w, fates);
      StagesLater(AfterStage(r), stages[1..], r.world, fates);
    }
  }

  /** The Plus is stored, live and of this design, and every object is of its key's kind. */
  ghost predicate Healthy(key: Key, d: Design, w: World) {
    Live(key, d, w.store) && WellTyped(w.store)
  }

  /** A call on the Plus itself that keeps it live. */
  lemma PlusCallHealthy(key: Key, d: Design, w: World, verb: Verb, fates: Fates)
    requires Healthy(key, d, w)
    requires verb.Get? || verb.PutStatus? || (verb.Update? && verb.obj.PlusObject? && verb.obj.plus.design == d)
    ensures var (w', r) := Call(w, Request(key, verb), fates);
      && Healthy(key, d, w') && w'.calls == w.calls + 1
      && (r.Stored? || r.Found? ==> r.obj.PlusObject? && r.obj.plus.design == d && !r.obj.plus.deleting)
  {
    ExecuteKeepsTypes(w.store, Request(key, verb), fates(w.calls));
  }

  lemma FinishHealthy(key: Key, d: Design, plus: Plus, before: Status, version: nat, w: World, fates: Fates)
    requires Healthy(key, d, w)
    ensures var w' := Finish(key, plus, before, version, w, fates).0; Healthy(key, d, w') && w'.calls >= w.calls
  {
    PlusCallHealthy(key, d, w, PutStatus(StatusOf(plus), Some(version)), fates);
  }

  lemma ApplyAllHealthy(key: Key, d: Design, plus: Plus, version: nat, w: World, fates: Fates)
    requires Healthy(key, d, w)
    ensures var w' := ApplyAll(key, plus, version, w, fates).0; Healthy(key, d, w') && w'.calls >= w.calls
  {
    StagesLater(Succeeding(plus), Stages(plus.design), w, fates);
    var r := RunStages(Succeeding(plus), Stages(plus.design), w, fates);
    FinishHealthy(key, d, r.0, plus.status, version, r.1, fates);
  }

  lemma AfterFetchHealthy(key: Key, d: Design, plus: Plus, version: nat, w: World, fates: Fates)
    requires Healthy(key, d, w) && plus.design == d && !plus.deleting
    ensures var w' := AfterFetch(key, plus, version, w, fates).0; Healthy(key, d, w') && w'.calls >= w.calls
  {
    PlusCallHealthy(key, d, w, Update(PlusObject(WithOwn(plus)), Some(version)), fates);
    match Finalize(key, plus, version, w, fates)
    case Over(_, _) =>
    case GoOn(plus', version', w') => ApplyAllHealthy(key, d, plus', version', w', fates);
  }

  /** No fault in a reconcile can delete the Plus, change its design, or store an object of a wrong kind. */
  lemma ReconcileHealthy(key: Key, d: Design, w: World, fates: Fates)
    requires Healthy(key, d, w)
    ensures var w' := Reconcile(key, w, fates).0; Healthy(key, d, w') && w'.calls >= w.calls
  {
    PlusCallHealthy(key, d, w, Get, fates);
    var (w1, r1) := Call(w, Request(key, Get), fates);
    if r1.Found? {
      AfterFetchHealthy(key, d, r1.obj.plus, r1.version, w1, fates);
    }
  }

  // ----- a reconcile depends on the fates of its own calls only -----

  ghost predicate AgreeFrom(f: Fates, g: Fates, n: nat) {
    forall m | m >= n :: f(m) == g(m)
  }

  lemma TaskDepends(plus: Plus, t: Task, w: World, f: Fates, g: Fates)
    requires AgreeFrom(f, g, w.calls)
    ensures RunTask(plus, t, w, f) == RunTask(plus, t, w, g)
  {
    assert f(w.calls) == g(w.calls) && f(w.calls + 1) == g(w.calls + 1);
  }

  lemma {:induction false} StageDepends(plus: Plus, tasks: seq<Task>, w: World, f: Fates, g: Fates)
    requires AgreeFrom(f, g, w.calls)
    ensures RunStage(plus, tasks, w, f) == RunStage(plus, tasks, w, g)
    decreases |tasks|
  {
    if tasks != [] {
      TaskDepends(plus, tasks[0], w, f, g);
      TaskLater(plus, tasks[0], w, f);
      var first := RunTask(plus, tasks[0], w, f);
      StageDepends(first.plus, tasks[1..], first.world, f, g);
    }
  }

  lemma {:induction false} StagesDepend(plus: Plus, stages: seq<seq<Task>>, w: World, f: Fates, g: Fates)
    requires AgreeFrom(f, g, w.calls)
    ensures RunStages(plus, stages, w, f) == RunStages(plus, stages, w, g)
    decreases |stages|
  {
    if stages != [] {
      StageDepends(plus, stages[0], w, f, g);
      StageLater(plus, stages[0], w, f);
      var r := RunStage(plus, stages[0], w, f);
      StagesDepend(AfterStage(r), stages[1..], r.world, f, g);
    }
  }

  lemma ApplyAllDepends(key: Key, found: Plus, version: nat, w: World, f: Fates, g: Fates)
    requires AgreeFrom(f, g, w.calls)
    ensures ApplyAll(key, found, version, w, f) == ApplyAll(key, found, version, w, g)
  {
    StagesDepend(Succeeding(found), Stages(found.design), w, f, g);
    StagesLater(Succeeding(found), Stages(found.design), w, f);
    var w' := RunStages(Succeeding(found), Stages(found.design), w, f).1;
    assert f(w'.calls) == g(w'.calls);
  }

  lemma FinalizeDepends(key: Key, plus: Plus, version: nat, w: World, f: Fates, g: Fates)
    requires AgreeFrom(f, g, w.calls)
    ensures Finalize(key, plus, version, w, f) == Finalize(key, plus, version, w, g)
    ensures var r := Finalize(key, plus, version, w, f); r.world.calls >= w.calls
  {
    assert f(w.calls) == g(w.calls);
  }

  lemma AfterFetchDepends(key: Key, plus: Plus, version: nat, w: World, f: Fates, g: Fates)
    requires AgreeFrom(f, g, w.calls)
    ensures AfterFetch(key, plus, version, w, f) == AfterFetch(key, plus, version, w, g)
  {
    FinalizeDepends(key, plus, version, w, f, g);
    match Finalize(key, plus, version, w, f)
    case Over(_, _) =>
    case GoOn(plus', version', w') => ApplyAllDepends(key, plus', version', w', f, g);
  }

  lemma ReconcileDepends(key: Key, w: World, f: Fates, g: Fates)
    requires AgreeFrom(f, g, w.calls)
    ensures Reconcile(key, w, f) == Reconcile(key, w, g)
  {
    assert f(w.calls) == g(w.calls);
    var (w1, r1) := Call(w, Request(key, Get), f);
    if r1.Found? && r1.obj.PlusObject? {
      AfterFetchDepends(key, r1.obj.plus, r1.version, w1, f, g);
    }
  }

  // ----- recovery -----

  lemma StepHealthy(key: Key, d: Design, ws: seq<World>, fates: Fates, i: nat)
    requires IsRun(key, ws, fates) && 0 < i < |ws| && Healthy(key, d, ws[i - 1])
    ensures Healthy(key, d, ws[i]) && ws[i].calls >= ws[i - 1].calls
  {
    assert ws[i] == Reconcile(key, ws[i - 1], fates).0;
    ReconcileHealthy(key, d, ws[i - 1], fates);
  }

  lemma {:induction false} RunHealthy(key: Key, d: Design, ws: seq<World>, fates: Fates, k: nat, i: nat)
    requires IsRun(key, ws, fates) && k <= i < |ws| && Healthy(key, d, ws[k])
    ensures Healthy(key, d, ws[i]) && ws[i].calls >= ws[k].calls
    decreases i
  {
    if i > k {
      RunHealthy(key, d, ws, fates, k, i - 1);
      StepHealthy(key, d, ws, fates, i);
    }
  }

  /** From the point where calls stop failing, the rest of the run is a calm one. */
  lemma RestIsCalm(key: Key, d: Design, ws: seq<World>, fates: Fates, k: nat) returns (calm: Fates)
    requires IsRun(key, ws, fates) && k < |ws| && Healthy(key, d, ws[0])
    requires forall m | m >= ws[k].calls :: fates(m) == Served
    ensures CalmRun(key, d, ws[k..], calm)
  {
    calm := n => Served;
    RunHealthy(key, d, ws, fates, 0, k);
    forall i, j | 0 <= i < j < |ws[k..]| && j == i + 1
      ensures ws[k..][j] == Reconcile(key, ws[k..][i], calm).0
    {
      RunHealthy(key, d, ws, fates, k, k + i);
      assert ws[k + j] == Reconcile(key, ws[k + i], fates).0;
      ReconcileDepends(key, ws[k + i], fates, calm);
    }
  }

  lemma CalmRestConverges(key: Key, d: Design, rest: seq<World>, calm: Fates, i: nat)
      returns (s: Store, s': Store)
    requires Compatible(d) && CalmRun(key, d, rest, calm) && |d.spec.apps| < i < |rest|
    ensures s == rest[i].store && s' == rest[|d.spec.apps| + 1].store && AtRest(key, d, s) && s == s'
  {
    s, s' := rest[i].store, rest[|d.spec.apps| + 1].store;
    RunSettles(key, d, rest, calm, i);
    RunConverges(key, d, rest, calm, i);
  }

  /** With apps that can agree on what they share: whatever the calls' fates were up to some reconcile k, if calls
      succeed from then on, n + 1 further reconciles of n apps reach a store at rest, which never changes again. */
  lemma ConvergesAfterFaults(key: Key, d: Design, ws: seq<World>, fates: Fates, k: nat, i: nat)
    requires Compatible(d)
    requires IsRun(key, ws, fates) && Healthy(key, d, ws[0]) && k + |d.spec.apps| < i < |ws|
    requires forall m | m >= ws[k].calls :: fates(m) == Served
    ensures AtRest(key, d, ws[i].store) && ws[i].store == ws[k + |d.spec.apps| + 1].store
  {
    var calm := RestIsCalm(key, d, ws, fates, k);
    var s, s' := CalmRestConverges(key, d, ws[k..], calm, i - k);
    assert ws[k..][i - k] == ws[i] && ws[k..][|d.spec.apps| + 1] == ws[k + |d.spec.apps| + 1];
  }
}
