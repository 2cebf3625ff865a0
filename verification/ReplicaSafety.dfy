/** Replica counts while a reconciler and an autoscaler write the same Deployment. */
module ReplicaSafety {
  import opened Wrappers
  import opened PlusTypes
  import opened Api
  import opened Children
  import opened Admission
  import opened Reconciling
  import opened Settling
  import opened CalmReconciles
  import opened Phases
  import opened Faults

  /** A reconciler's next call, or a write by anybody else. */
  datatype StoreEvent = Call(fate: Fate) | Write(key: Key, slot: Slot)

  function AfterEvent(p: Proc, s: Store, e: StoreEvent): (Proc, Store) {
    match e
    case Call(fate) => Act(p, s, fate)
    case Write(k, slot) => (p, Put(s, k, slot))
  }

  function AfterEvents(p: Proc, s: Store, events: seq<StoreEvent>): (Proc, Store)
    decreases |events|
  {
    if events == [] then (p, s)
    else
      var (p', s') := AfterEvent(p, s, events[0]);
      AfterEvents(p', s', events[1..])
  }

  function DeploymentKey(d: Design, app: App): Key {
    Key(DeploymentKind, d.ns, AppName(d, app))
  }

  /** The slot holds nothing, or a Deployment with an in-range replica count. */
  predicate InRangeSlot(app: App, slot: Slot) {
    slot.content.Some? ==> slot.content.value.DeploymentObject? && InRange(app, slot.content.value.deployment.replicas)
  }

  predicate Safe(d: Design, app: App, s: Store) {
    InRangeSlot(app, At(s, DeploymentKey(d, app)))
  }

  /** Others keep the app's Deployment in range and the Plus's design as it is; elsewhere they write what they like. */
  predicate Allowed(d: Design, app: App, e: StoreEvent) {
    e.Write? ==>
      && (e.key == DeploymentKey(d, app) ==> InRangeSlot(app, e.slot))
      && (e.key == PlusKey(d) && e.slot.content.Some? && e.slot.content.value.PlusObject? ==>
            e.slot.content.value.plus.design == d)
  }

  ghost predicate AllAllowed(d: Design, app: App, events: seq<StoreEvent>) {
    forall e | e in events :: Allowed(d, app, e)
  }

  /** Bounds as admission leaves them, for an app that is not scaled to nothing. */
  predicate Bounded(app: App) {
    1 <= app.minReplicas <= app.maxReplicas
  }

  /** The apps of this version start within the app's bounds, or not at all. */
  predicate SharesBounds(d: Design, app: App) {
    forall b | b in d.spec.apps && Share(app, b) && b.minReplicas != -1 :: InRange(app, b.minReplicas)
  }

  /** A write that stores an in-range count. */
  predicate StoresInRange(app: App, verb: Verb) {
    match verb
    case Create(o) => o.DeploymentObject? && InRange(app, o.deployment.replicas)
    case Update(o, _) => o.DeploymentObject? && InRange(app, o.deployment.replicas)
    case _ => false
  }

  predicate KeepsInRange(app: App, verb: Verb) {
    verb.Delete? || StoresInRange(app, verb)
  }

  /** A write that is pending on the app's Deployment, on behalf of whichever app, keeps it in range. */
  predicate PendingInRange(d: Design, app: App, p: Proc) {
    p.phase.Working? && HasTask(p.phase.run) && p.phase.run.pending.Some?
    && KeyOf(d, HeadTask(p.phase.run)) == DeploymentKey(d, app) ==>
      KeepsInRange(app, p.phase.run.pending.value.verb)
  }

  /** Whatever an app of this version finds in range, its Apply leaves in range. */
  lemma DecidedInRange(d: Design, app: App, b: App, slot: Slot)
    requires SharesBounds(d, app) && b in d.spec.apps && Share(app, b) && InRangeSlot(app, slot)
    ensures var decision := Decide(d, ApplyDeployment(b), ViewSlot(slot));
      decision.Issue? ==> KeepsInRange(app, decision.verb)
  {
  }

  lemma ServedInRange(app: App, slot: Slot, verb: Verb)
    requires InRangeSlot(app, slot) && KeepsInRange(app, verb)
    ensures InRangeSlot(app, Serve(slot, verb).0)
  {
  }

  /** Only the Deployment tasks of the app's version, and their status readings, use its key. */
  lemma HeadOnKey(d: Design, app: App, p: Proc)
    requires Sound(d, p) && p.phase.Working? && KeyOf(d, HeadTask(p.phase.run)) == DeploymentKey(d, app)
    ensures var t := HeadTask(p.phase.run);
      t.ReadStatus? || (t.ApplyDeployment? && t.app in d.spec.apps && Share(app, t.app))
  {
    HeadIsAhead(d, p.phase.run);
    var t := HeadTask(p.phase.run);
    if !t.ReadStatus? {
      StageTaskWrites(d, 6 - |p.phase.run.todo|, t);
      TaskOfApp(d, t);
      AppNameInjective(d, t.app, app);
    }
  }

  /** A reconciler of this design, anywhere in any of its reconciles, whose next write does no harm. */
  ghost predicate Fine(d: Design, app: App, p: Proc, s: Store) {
    Sound(d, p) && Designed(d, s) && PendingInRange(d, app, p)
  }

  /** A read that is answered at all sees what is stored. */
  lemma ReadSees(s: Store, k: Key, fate: Fate)
    ensures var r := Execute(s, Request(k, Get), fate).1;
      r.Failed? || View(r) == ViewSlot(At(s, k))
  {
  }

  lemma TaskCallFine(d: Design, app: App, p: Proc, s: Store, fate: Fate)
    requires SharesBounds(d, app) && Sound(d, p) && p.phase.Working? && Safe(d, app, s)
    ensures PendingInRange(d, app, Act(p, s, fate).0)
  {
    var run, k := p.phase.run, DeploymentKey(d, app);
    ResumeRunDecides(run, Execute(s, Ask(p).value, fate).1);
    if KeyOf(d, HeadTask(run)) == k && run.pending.None? {
      ReadSees(s, k, fate);
      HeadOnKey(d, app, p);
      if HeadTask(run).ApplyDeployment? {
        DecidedInRange(d, app, HeadTask(run).app, At(s, k));
      }
    }
  }

  lemma PlusCallDecidesNothing(p: Proc, s: Store, fate: Fate)
    requires !p.phase.Working?
    ensures var next := Act(p, s, fate).0.phase;
      next.Working? ==> next.run.pending.None?
  {
    if Ask(p).Some? {
      var r := Execute(s, Ask(p).value, fate).1;
      if r.Found? && r.obj.PlusObject? { BeginDecidesNothing(r.obj.plus, r.version); }
      if r.Stored? && r.obj.PlusObject? { BeginDecidesNothing(r.obj.plus, r.version); }
    }
  }

  lemma CallFine(d: Design, app: App, p: Proc, s: Store, fate: Fate)
    requires SharesBounds(d, app) && Fine(d, app, p, s) && Safe(d, app, s)
    ensures Fine(d, app, Act(p, s, fate).0, Act(p, s, fate).1)
  {
    ActSound(d, p, s, fate);
    if p.phase.Working? {
      TaskCallFine(d, app, p, s, fate);
    } else {
      PlusCallDecidesNothing(p, s, fate);
    }
  }

  lemma CallKeepsSafe(d: Design, app: App, p: Proc, s: Store, fate: Fate)
    requires Fine(d, app, p, s) && Safe(d, app, s)
    ensures Safe(d, app, Act(p, s, fate).1)
  {
    if Ask(p).Some? {
      AsksOwnKey(d, p);
      if Ask(p).value.key == DeploymentKey(d, app) && p.phase.run.pending.Some? {
        ServedInRange(app, At(s, DeploymentKey(d, app)), Ask(p).value.verb);
      }
    }
  }

  lemma EventKeepsSafe(d: Design, app: App, p: Proc, s: Store, e: StoreEvent)
    requires SharesBounds(d, app) && Fine(d, app, p, s) && Safe(d, app, s) && Allowed(d, app, e)
    ensures var (p', s') := AfterEvent(p, s, e); Fine(d, app, p', s') && Safe(d, app, s')
  {
    if e.Call? {
      CallFine(d, app, p, s, e.fate);
      CallKeepsSafe(d, app, p, s, e.fate);
    }
  }

  /** Once in range, the stored count stays in range, whatever calls and permitted writes follow in whatever order, if
      all the apps of the version start within the app's bounds. */
  lemma {:induction false} StaysInRange(d: Design, app: App, p: Proc, s: Store, events: seq<StoreEvent>)
    requires SharesBounds(d, app) && Fine(d, app, p, s) && Safe(d, app, s)
    requires AllAllowed(d, app, events)
    ensures Safe(d, app, AfterEvents(p, s, events).1)
    decreases |events|
  {
    if events != [] {
      var (p', s') := AfterEvent(p, s, events[0]);
      assert Allowed(d, app, events[0]);
      EventKeepsSafe(d, app, p, s, events[0]);
      StaysInRange(d, app, p', s', events[1..]);
    }
  }

  // ----- getting in range -----

  /** This call ends the app's Deployment task without an error: what is stored agrees, or the write succeeds. */
  predicate Completes(d: Design, app: App, p: Proc, s: Store, fate: Fate) {
    && p.phase.Working? && HasTask(p.phase.run) && HeadTask(p.phase.run) == ApplyDeployment(app)
    && p.phase.run.plus.design == d
    && var r := Execute(s, Ask(p).value, fate).1;
       && !r.Failed?
       && (p.phase.run.pending.Some? || Decide(d, ApplyDeployment(app), View(r)).Skip?)
  }

  /** What the app itself has decided to write, from whatever it has read. */
  predicate OwnPending(app: App, p: Proc) {
    p.phase.Working? && HasTask(p.phase.run) && p.phase.run.pending.Some?
    && HeadTask(p.phase.run) == ApplyDeployment(app) ==>
      StoresInRange(app, p.phase.run.pending.value.verb)
  }

  /** A reconciler of this design over a store where anything may be stored for the app. */
  ghost predicate Started(d: Design, app: App, p: Proc, s: Store) {
    Sound(d, p) && Designed(d, s) && OwnPending(app, p)
  }

  lemma OwnDecision(d: Design, app: App, found: Option<(Object, nat)>)
    requires Bounded(app)
    ensures var decision := Decide(d, ApplyDeployment(app), found);
      decision.Issue? ==> StoresInRange(app, decision.verb)
  {
  }

  lemma CallStarted(d: Design, app: App, p: Proc, s: Store, fate: Fate)
    requires Bounded(app) && Started(d, app, p, s)
    ensures Started(d, app, Act(p, s, fate).0, Act(p, s, fate).1)
  {
    ActSound(d, p, s, fate);
    if p.phase.Working? {
      var run, r := p.phase.run, Execute(s, Ask(p).value, fate).1;
      ResumeRunDecides(run, r);
      OwnDecision(d, app, View(r));
    } else {
      PlusCallDecidesNothing(p, s, fate);
    }
  }

  lemma {:induction false} AllStarted(d: Design, app: App, p: Proc, s: Store, events: seq<StoreEvent>)
    requires Bounded(app) && Started(d, app, p, s)
    requires AllAllowed(d, app, events)
    ensures Started(d, app, AfterEvents(p, s, events).0, AfterEvents(p, s, events).1)
    decreases |events|
  {
    if events != [] {
      var (p', s') := AfterEvent(p, s, events[0]);
      assert Allowed(d, app, events[0]);
      if events[0].Call? {
        CallStarted(d, app, p, s, events[0].fate);
      }
      AllStarted(d, app, p', s', events[1..]);
    }
  }

  lemma LandedInRange(app: App, slot: Slot, verb: Verb)
    requires StoresInRange(app, verb) && !Serve(slot, verb).1.Failed?
    ensures InRangeSlot(app, Serve(slot, verb).0)
  {
  }

  lemma SkippedInRange(d: Design, app: App, slot: Slot)
    requires Bounded(app) && Decide(d, ApplyDeployment(app), ViewSlot(slot)).Skip?
    ensures InRangeSlot(app, slot)
  {
  }

  lemma CompletedIsSafe(d: Design, app: App, p: Proc, s: Store, fate: Fate)
    requires Bounded(app) && Started(d, app, p, s) && Completes(d, app, p, s, fate)
    ensures Safe(d, app, Act(p, s, fate).1)
  {
    var slot := At(s, DeploymentKey(d, app));
    if p.phase.run.pending.Some? {
      LandedInRange(app, slot, p.phase.run.pending.value.verb);
    } else {
      SkippedInRange(d, app, slot);
    }
  }

  /** With its task completed, the reconciler has no write decided on. */
  lemma CompletedIsFine(d: Design, app: App, p: Proc, s: Store, fate: Fate)
    requires Started(d, app, p, s) && Completes(d, app, p, s, fate)
    ensures Fine(d, app, Act(p, s, fate).0, Act(p, s, fate).1)
  {
    ActSound(d, p, s, fate);
    ResumeRunDecides(p.phase.run, Execute(s, Ask(p).value, fate).1);
  }

  /** From any store, over any run: once the app's Deployment has been applied, its count is in range. */
  lemma AppliedIsInRange(d: Design, app: App, s: Store, before: seq<StoreEvent>, fate: Fate)
    requires Bounded(app) && Designed(d, s)
    requires AllAllowed(d, app, before)
    requires var (p1, s1) := AfterEvents(Proc(PlusKey(d), Fetch), s, before); Completes(d, app, p1, s1, fate)
    ensures var (p1, s1) := AfterEvents(Proc(PlusKey(d), Fetch), s, before);
      var (p2, s2) := Act(p1, s1, fate);
      Fine(d, app, p2, s2) && Safe(d, app, s2)
  {
    AllStarted(d, app, Proc(PlusKey(d), Fetch), s, before);
    var (p1, s1) := AfterEvents(Proc(PlusKey(d), Fetch), s, before);
    CompletedIsSafe(d, app, p1, s1, fate);
    CompletedIsFine(d, app, p1, s1, fate);
  }

  /** And it stays there, however later calls of the reconciler and in-range writes of the autoscaler fall between each
      other, if all the apps of the version start within the app's bounds. */
  lemma AppliedStaysInRange(d: Design, app: App, s: Store, before: seq<StoreEvent>, fate: Fate, after: seq<StoreEvent>)
    requires SharesBounds(d, app) && Bounded(app) && Designed(d, s)
    requires AllAllowed(d, app, before) && AllAllowed(d, app, after)
    requires var (p1, s1) := AfterEvents(Proc(PlusKey(d), Fetch), s, before); Completes(d, app, p1, s1, fate)
    ensures var (p1, s1) := AfterEvents(Proc(PlusKey(d), Fetch), s, before);
      var (p2, s2) := Act(p1, s1, fate);
      Safe(d, app, s2) && Safe(d, app, AfterEvents(p2, s2, after).1)
  {
    AppliedIsInRange(d, app, s, before, fate);
    var (p1, s1) := AfterEvents(Proc(PlusKey(d), Fetch), s, before);
    var (p2, s2) := Act(p1, s1, fate);
    StaysInRange(d, app, p2, s2, after);
  }

  /** Admission leaves every app that is to run at all with such bounds. */
  lemma AdmittedIsBounded(plus: Plus, app: App)
    requires Admitted(plus) && app in plus.design.spec.apps && app.minReplicas > 0
    ensures Bounded(app)
  {
    AdmittedBounds(plus, app);
  }

  /** A count that the app's own autoscaler may choose is one that others are allowed to write. */
  lemma AutoscalerIsAllowed(d: Design, app: App, slot: Slot)
    requires slot.content.Some? && slot.content.value.DeploymentObject?
    requires var hpa := AutoscalerFor(d, app);
      hpa.minReplicas <= Replicas(slot) <= hpa.maxReplicas
    ensures Allowed(d, app, Write(DeploymentKey(d, app), slot))
  {
    AutoscalerAndDeploymentAgree(d, app, slot.content.value.deployment);
  }

  // ----- between the two halves of an Apply -----

  /** About to read the app's Deployment. */
  predicate AboutToRead(d: Design, app: App, p: Proc) {
    && p.key == PlusKey(d)
    && p.phase.Working? && HasTask(p.phase.run) && HeadTask(p.phase.run) == ApplyDeployment(app)
    && p.phase.run.plus.design == d && p.phase.run.pending.None?
  }

  function Replicas(slot: Slot): int
    requires slot.content.Some? && slot.content.value.DeploymentObject?
  {
    slot.content.value.deployment.replicas
  }

  predicate HoldsDeployment(slot: Slot) {
    slot.content.Some? && slot.content.value.DeploymentObject?
  }

  predicate HoldsCount(slot: Slot, replicas: int) {
    HoldsDeployment(slot) && Replicas(slot) == replicas
  }

  /** A stored Deployment with an in-range count, as the reconciler is about to read it. */
  predicate ReadyToRead(d: Design, app: App, p: Proc, s: Store) {
    var slot := At(s, DeploymentKey(d, app));
    Bounded(app) && AboutToRead(d, app, p) && HoldsDeployment(slot) && InRange(app, Replicas(slot))
  }

  /** The reconciler has decided on a write. */
  predicate UpdateDue(p: Proc) {
    p.phase.Working? && HasTask(p.phase.run) && p.phase.run.pending.Some?
  }

  /** What it reads settles it: an update is due exactly when the read is answered and the Deployment does not agree. */
  lemma UpdateDueIff(d: Design, app: App, p: Proc, s: Store, read: Fate)
    requires ReadyToRead(d, app, p, s)
    ensures UpdateDue(Act(p, s, read).0)
       <==> read == Served && !DeploymentAgrees(d, app, At(s, DeploymentKey(d, app)).content.value.deployment)
  {
    var stored := At(s, DeploymentKey(d, app)).content.value.deployment;
    CarryOverFixedIff(d, app, stored);
    ResumeRunDecides(p.phase.run, Execute(s, Ask(p).value, read).1);
  }

  /** The update, when one is due, writes the count that was read. */
  lemma DueUpdateWritesCountRead(d: Design, app: App, p: Proc, s: Store)
    requires ReadyToRead(d, app, p, s) && UpdateDue(Act(p, s, Served).0)
    ensures var run, k := Act(p, s, Served).0.phase.run, DeploymentKey(d, app);
      && Ask(Act(p, s, Served).0) == Some(Request(k, run.pending.value.verb))
      && run.pending.value.verb.Update? && run.pending.value.verb.ifVersion.None?
      && run.pending.value.verb.obj.DeploymentObject?
      && run.pending.value.verb.obj.deployment.replicas == Replicas(At(s, k))
  {
    ResumeRunDecides(p.phase.run, Execute(s, Ask(p).value, Served).1);
  }

  lemma UpdateOnSlot(slot: Slot, o: Object)
    requires HoldsDeployment(slot) && o.DeploymentObject?
    ensures HoldsCount(Serve(slot, Update(o, None)).0, o.deployment.replicas)
  {
  }

  /** Any other call leaves the Deployment alone. */
  lemma NoUpdateNoChange(d: Design, app: App, p: Proc, s: Store, fate: Fate)
    requires p.key == PlusKey(d) && !UpdateDue(p)
    ensures At(Act(p, s, fate).1, DeploymentKey(d, app)) == At(s, DeploymentKey(d, app))
  {
  }

  /** What the second half does to the count that is stored by then: an update that is due and not turned away
      puts the count that was read in its place. */
  lemma SecondHalf(d: Design, app: App, p: Proc, s: Store, read: Fate, s': Store, fate: Fate)
    requires ReadyToRead(d, app, p, s) && HoldsDeployment(At(s', DeploymentKey(d, app)))
    ensures var k, next := DeploymentKey(d, app), Act(p, s, read).0;
      var after := At(Act(next, s', fate).1, k);
      HoldsCount(after, Replicas(At(if UpdateDue(next) && fate != Refused then s else s', k)))
  {
    var k, next := DeploymentKey(d, app), Act(p, s, read).0;
    if UpdateDue(next) {
      UpdateDueIff(d, app, p, s, read);
      DueUpdateWritesCountRead(d, app, p, s);
      UpdateOnSlot(At(s', k), next.phase.run.pending.value.verb.obj);
    } else {
      NoUpdateNoChange(d, app, next, s', fate);
    }
  }

  lemma {:induction false} WritesKeepProc(p: Proc, s: Store, events: seq<StoreEvent>)
    requires forall e | e in events :: e.Write?
    ensures AfterEvents(p, s, events).0 == p
    decreases |events|
  {
    if events != [] {
      assert events[0] in events;
      WritesKeepProc(p, AfterEvent(p, s, events[0]).1, events[1..]);
    }
  }

  lemma {:induction false} WritesElsewhere(p: Proc, s: Store, events: seq<StoreEvent>, k: Key)
    requires forall e | e in events :: e.Write? && e.key != k
    ensures At(AfterEvents(p, s, events).1, k) == At(s, k)
    decreases |events|
  {
    if events != [] {
      var e := events[0];
      assert e in events && At(Put(s, e.key, e.slot), k) == At(s, k);
      WritesElsewhere(p, AfterEvent(p, s, e).1, events[1..], k);
    }
  }

  lemma {:induction false} AfterEventsConcat(p: Proc, s: Store, first: seq<StoreEvent>, second: seq<StoreEvent>)
    ensures var (p', s') := AfterEvents(p, s, first);
      AfterEvents(p, s, first + second) == AfterEvents(p', s', second)
    decreases |first|
  {
    if first == [] {
      assert first + second == second;
    } else {
      assert (first + second)[1..] == first[1..] + second;
      var (p', s') := AfterEvent(p, s, first[0]);
      AfterEventsConcat(p', s', first[1..], second);
    }
  }

  /** The run of a read, others' writes, and the call after it. */
  lemma HalvesAround(p: Proc, s: Store, read: Fate, events: seq<StoreEvent>, fate: Fate)
    requires forall e | e in events :: e.Write?
    ensures var before := AfterEvents(p, s, [Call(read)] + events);
      && before.0 == Act(p, s, read).0
      && before.1 == AfterEvents(Act(p, s, read).0, Act(p, s, read).1, events).1
      && AfterEvents(p, s, [Call(read)] + events + [Call(fate)]) == Act(before.0, before.1, fate)
  {
    var (p1, s1) := Act(p, s, read);
    assert ([Call(read)] + events)[1..] == events;
    WritesKeepProc(p1, s1, events);
    AfterEventsConcat(p, s, [Call(read)] + events, [Call(fate)]);
    var (p2, s2) := AfterEvents(p, s, [Call(read)] + events);
    assert AfterEvents(p2, s2, [Call(fate)]) == Act(p2, s2, fate);
  }

  /** Whatever others write between the two halves, and whatever becomes of the two calls: the count that is stored
      just before the second half survives it exactly when the read failed, or the Deployment that was read agrees
      with the app, or the second call is turned away, or that count is the one that was read. */
  lemma CountSurvivesIff(d: Design, app: App, p: Proc, s: Store, read: Fate, events: seq<StoreEvent>, fate: Fate)
    requires ReadyToRead(d, app, p, s) && forall e | e in events :: e.Write?
    requires HoldsDeployment(At(AfterEvents(p, s, [Call(read)] + events).1, DeploymentKey(d, app)))
    ensures var k := DeploymentKey(d, app);
      var stored := At(AfterEvents(p, s, [Call(read)] + events).1, k);
      HoldsCount(At(AfterEvents(p, s, [Call(read)] + events + [Call(fate)]).1, k), Replicas(stored)) <==>
        || read != Served || DeploymentAgrees(d, app, At(s, k).content.value.deployment)
        || fate == Refused || Replicas(stored) == Replicas(At(s, k))
  {
    HalvesAround(p, s, read, events, fate);
    UpdateDueIff(d, app, p, s, read);
    SecondHalf(d, app, p, s, read, AfterEvents(p, s, [Call(read)] + events).1, fate);
  }

  /** In particular: with no write to the Deployment between the halves, an in-range count is left as it is. */
  lemma QuietHalvesKeepCount(d: Design, app: App, p: Proc, s: Store, read: Fate, events: seq<StoreEvent>, fate: Fate)
    requires ReadyToRead(d, app, p, s)
    requires forall e | e in events :: e.Write? && e.key != DeploymentKey(d, app)
    ensures var k := DeploymentKey(d, app);
      HoldsCount(At(AfterEvents(p, s, [Call(read)] + events + [Call(fate)]).1, k), Replicas(At(s, k)))
  {
    HalvesAround(p, s, read, events, fate);
    var (p1, s1) := Act(p, s, read);
    WritesElsewhere(p1, s1, events, DeploymentKey(d, app));
    SecondHalf(d, app, p, s, read, AfterEvents(p1, s1, events).1, fate);
  }

  /** And when the Deployment that was read does not agree, every later count is overwritten with the one read: the
      update carries no version, so the server does not turn it away. */
  lemma AutoscaleBetweenHalvesIsLost(d: Design, app: App, p: Proc, s: Store, events: seq<StoreEvent>, fate: Fate)
    requires ReadyToRead(d, app, p, s) && forall e | e in events :: e.Write?
    requires !DeploymentAgrees(d, app, At(s, DeploymentKey(d, app)).content.value.deployment) && fate != Refused
    requires HoldsDeployment(At(AfterEvents(p, s, [Call(Served)] + events).1, DeploymentKey(d, app)))
    ensures var k := DeploymentKey(d, app);
      HoldsCount(At(AfterEvents(p, s, [Call(Served)] + events + [Call(fate)]).1, k), Replicas(At(s, k)))
  {
    HalvesAround(p, s, Served, events, fate);
    UpdateDueIff(d, app, p, s, Served);
    SecondHalf(d, app, p, s, Served, AfterEvents(p, s, [Call(Served)] + events).1, fate);
  }

  /** The example app with this many replicas, as it was stored before its port changed from 8079 to 8080. */
  function StoredBeforePortChange(replicas: int32): Slot
    requires replicas >= 0
  {
    var spec := DeploymentFor(GpuDesign("none"), GpuApp("none"));
    Slot(replicas, Some(DeploymentObject(NO_META, spec.(replicas := replicas, port := 8079), replicas)))
  }

  /** A run that loses a write: the reconciler reads three replicas, the autoscaler chooses five within the bounds of
      two to five, and the reconciler's update for the new port puts the three back. */
  lemma AutoscalerChoiceUndone(plus: Plus)
    requires plus.design == GpuDesign("none")
    ensures var d, app := GpuDesign("none"), GpuApp("none");
      var k := DeploymentKey(d, app);
      var p := Proc(PlusKey(d), Working(Run(plus, plus.status, 1, Stages(d), None)));
      var s: Store := map[k := StoredBeforePortChange(3)];
      var scaled := Write(k, StoredBeforePortChange(5));
      && Allowed(d, app, scaled)
      && HoldsCount(At(AfterEvents(p, s, [Call(Served)] + [scaled]).1, k), 5)
      && HoldsCount(At(AfterEvents(p, s, [Call(Served)] + [scaled] + [Call(Served)]).1, k), 3)
  {
    var d, app := GpuDesign("none"), GpuApp("none");
    var k := DeploymentKey(d, app);
    var p := Proc(PlusKey(d), Working(Run(plus, plus.status, 1, Stages(d), None)));
    var s: Store := map[k := StoredBeforePortChange(3)];
    var events := [Write(k, StoredBeforePortChange(5))];
    assert DeploymentTasks(d)[0] == ApplyDeployment(app);
    HalvesAround(p, s, Served, events, Served);
    assert AfterEvents(Act(p, s, Served).0, Act(p, s, Served).1, events).1
        == Put(Act(p, s, Served).1, k, StoredBeforePortChange(5));
    AutoscaleBetweenHalvesIsLost(d, app, p, s, events, Served);
  }
}
