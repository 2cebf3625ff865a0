/** Apps of one version write one Deployment. When the bounds of one shut out where another starts, some run of
    permitted events takes the count out of range, wherever the reconciler is and whatever is stored. */
module BoundsClash {
  import opened Wrappers
  import opened PlusTypes
  import opened Api
  import opened Children
  import opened Admission
  import opened Reconciling
  import opened Settling
  import opened CalmReconciles
  import opened Phases
  import opened SharedVersions
  import opened Convergence
  import opened Resting
  import opened ReplicaSafety

  /** Every Apply of the version's apps keeps every in-range slot in range exactly when all of them start in range. */
  lemma EffectsKeepRangeIff(d: Design, app: App)
    ensures SharesBounds(d, app) <==>
      forall b, slot | b in d.spec.apps && Share(app, b) && InRangeSlot(app, slot) ::
        InRangeSlot(app, Effect(d, ApplyDeployment(b), slot))
  {
    if SharesBounds(d, app) {
      forall b, slot | b in d.spec.apps && Share(app, b) && InRangeSlot(app, slot)
        ensures InRangeSlot(app, Effect(d, ApplyDeployment(b), slot))
      {
        DecidedInRange(d, app, b, slot);
        if Decide(d, ApplyDeployment(b), ViewSlot(slot)).Issue? {
          ServedInRange(app, slot, Decide(d, ApplyDeployment(b), ViewSlot(slot)).verb);
        }
      }
    } else {
      var b :| b in d.spec.apps && Share(app, b) && b.minReplicas != -1 && !InRange(app, b.minReplicas);
      assert InRangeSlot(app, EMPTY) && !InRangeSlot(app, Effect(d, ApplyDeployment(b), EMPTY));
    }
  }

  // ----- a run that leaves the range -----

  /** Calls that are all turned away end the reconcile and leave the store as it is. */
  lemma {:induction false} BackToFetch(p: Proc, s: Store) returns (events: seq<StoreEvent>)
    ensures forall e | e in events :: e == Call(Refused)
    ensures AfterEvents(p, s, events) == (Proc(p.key, Fetch), s)
    decreases Rank(p.phase), StagesLeft(p.phase), CallsLeft(p.phase)
  {
    if p.phase.Fetch? {
      events := [];
    } else if Ask(p).None? {
      events := [Call(Refused)];
      assert AfterEvents(Proc(p.key, Fetch), s, events[1..]) == (Proc(p.key, Fetch), s);
    } else {
      var p' := Act(p, s, Refused).0;
      ResumeGoesOn(p, Failed(Unavailable));
      var rest := BackToFetch(p', s);
      events := [Call(Refused)] + rest;
      assert events[1..] == rest;
    }
  }

  lemma AfterTwo(p: Proc, s: Store, first: StoreEvent, second: StoreEvent)
    ensures var (p', s') := AfterEvent(p, s, first);
      AfterEvents(p, s, [first, second]) == AfterEvent(p', s', second)
  {
    var (p', s') := AfterEvent(p, s, first);
    assert [first, second][1..] == [second];
    assert AfterEvents(p', s', [second]) == AfterEvent(p', s', second);
  }

  /** At work on the Deployments, from the i-th app on. */
  function FromApp(d: Design, i: nat): Run
    requires i <= |d.spec.apps|
  {
    Run(FreshPlus(d), FreshPlus(d).status, 1, [DeploymentTasks(d)[i..]] + Stages(d)[1..], None)
  }

  /** A reconcile that starts with a live, registered Plus gets to the first app. */
  lemma ToFirstApp(d: Design, app: App, s: Store) returns (events: seq<StoreEvent>)
    requires d.spec.apps != []
    ensures AllAllowed(d, app, events)
    ensures AfterEvents(Proc(PlusKey(d), Fetch), s, events).0 == Proc(PlusKey(d), Working(FromApp(d, 0)))
  {
    var p, write := Proc(PlusKey(d), Fetch), Write(PlusKey(d), Slot(1, Some(PlusObject(FreshPlus(d)))));
    events := [write, Call(Served)];
    AfterTwo(p, s, write, Call(Served));
    assert DeploymentTasks(d)[0..] == DeploymentTasks(d) && [Stages(d)[0]] + Stages(d)[1..] == Stages(d);
  }

  /** The Deployment goes missing, and the app has its turn. */
  function TurnEvents(d: Design, app: App): seq<StoreEvent> {
    [Write(DeploymentKey(d, app), EMPTY), Call(Served)] + if app.minReplicas == -1 then [] else [Call(Served)]
  }

  lemma TurnOnMissing(d: Design, p: Proc, s: Store, x: App)
    requires p.phase.Working? && HasTask(p.phase.run) && HeadTask(p.phase.run) == ApplyDeployment(x)
    requires p.phase.run.plus.design == d && p.phase.run.pending.None?
    ensures var (p', s') := AfterEvents(p, s, TurnEvents(d, x));
      && p' == Proc(p.key, NextTask(p.phase.run))
      && (x.minReplicas != -1 ==> HoldsCount(At(s', DeploymentKey(d, x)), x.minReplicas))
  {
    var empty, read := Write(DeploymentKey(d, x), EMPTY), StoreEvent.Call(Served);
    AfterTwo(p, s, empty, read);
    if x.minReplicas != -1 {
      AfterEventsConcat(p, s, [empty, read], [read]);
      var (p', s') := AfterEvents(p, s, [empty, read]);
      assert AfterEvents(p', s', [read]) == AfterEvent(p', s', read);
    } else {
      assert TurnEvents(d, x) == [empty, read];
    }
  }

  lemma TurnIsAllowed(d: Design, app: App, x: App)
    ensures AllAllowed(d, app, TurnEvents(d, x))
  {
  }

  lemma NextApp(d: Design, i: nat, j: nat)
    requires i < j < |d.spec.apps| && j == i + 1
    ensures HasTask(FromApp(d, i)) && NextTask(FromApp(d, i)) == Working(FromApp(d, j))
  {
    assert [DeploymentTasks(d)[i..][1..]] + FromApp(d, i).todo[1..] == FromApp(d, j).todo;
  }

  lemma ToApp(d: Design, app: App, s: Store, m: nat) returns (events: seq<StoreEvent>)
    requires m < |d.spec.apps|
    ensures AllAllowed(d, app, events)
    ensures AfterEvents(Proc(PlusKey(d), Fetch), s, events).0 == Proc(PlusKey(d), Working(FromApp(d, m)))
  {
    var p := Proc(PlusKey(d), Fetch);
    events := ToFirstApp(d, app, s);
    var i := 0;
    while i != m
      invariant i <= m && AllAllowed(d, app, events)
      invariant AfterEvents(p, s, events).0 == Proc(PlusKey(d), Working(FromApp(d, i)))
      decreases m - i
    {
      var j := i + 1;
      var (p', s') := AfterEvents(p, s, events);
      NextApp(d, i, j);
      TurnOnMissing(d, p', s', d.spec.apps[i]);
      TurnIsAllowed(d, app, d.spec.apps[i]);
      AfterEventsConcat(p, s, events, TurnEvents(d, d.spec.apps[i]));
      events := events + TurnEvents(d, d.spec.apps[i]);
      i := j;
    }
  }

  /** From a fresh reconcile over any store, the app that starts elsewhere gets to create the Deployment. */
  lemma EscapeFromFetch(d: Design, app: App, s: Store, m: nat) returns (events: seq<StoreEvent>)
    requires m < |d.spec.apps| && Share(app, d.spec.apps[m])
    requires d.spec.apps[m].minReplicas != -1 && !InRange(app, d.spec.apps[m].minReplicas)
    ensures AllAllowed(d, app, events)
    ensures !Safe(d, app, AfterEvents(Proc(PlusKey(d), Fetch), s, events).1)
  {
    var p, x := Proc(PlusKey(d), Fetch), d.spec.apps[m];
    events := ToApp(d, app, s, m);
    var (p', s') := AfterEvents(p, s, events);
    TurnOnMissing(d, p', s', x);
    TurnIsAllowed(d, app, x);
    AfterEventsConcat(p, s, events, TurnEvents(d, x));
    events := events + TurnEvents(d, x);
    assert DeploymentKey(d, app) == DeploymentKey(d, x);
  }

  lemma Escape(d: Design, app: App, p: Proc, s: Store) returns (events: seq<StoreEvent>)
    requires p.key == PlusKey(d) && !SharesBounds(d, app)
    ensures AllAllowed(d, app, events)
    ensures !Safe(d, app, AfterEvents(p, s, events).1)
  {
    var b :| b in d.spec.apps && Share(app, b) && b.minReplicas != -1 && !InRange(app, b.minReplicas);
    var m :| 0 <= m < |d.spec.apps| && d.spec.apps[m] == b;
    var first := BackToFetch(p, s);
    var second := EscapeFromFetch(d, app, s, m);
    AfterEventsConcat(p, s, first, second);
    events := first + second;
  }

  /** From a state with the count in range, at any point of any reconcile: it stays in range over all runs of calls
      and permitted writes if and only if all the apps of the version start within the app's bounds. */
  lemma StaysInRangeIff(d: Design, app: App, p: Proc, s: Store)
    requires Fine(d, app, p, s) && Safe(d, app, s)
    ensures SharesBounds(d, app) <==>
      forall events | AllAllowed(d, app, events) :: Safe(d, app, AfterEvents(p, s, events).1)
  {
    if SharesBounds(d, app) {
      forall events | AllAllowed(d, app, events)
        ensures Safe(d, app, AfterEvents(p, s, events).1)
      {
        StaysInRange(d, app, p, s, events);
      }
    } else {
      var events := Escape(d, app, p, s);
      assert AllAllowed(d, app, events);
    }
  }

  /** From any store, over any run: once the app's Deployment has been applied its count is in range; and it is sure to
      stay there if and only if all the apps of the version start within the app's bounds. */
  lemma AppliedStaysInRangeIff(d: Design, app: App, s: Store, before: seq<StoreEvent>, fate: Fate)
    requires Bounded(app) && Designed(d, s) && AllAllowed(d, app, before)
    requires var (p1, s1) := AfterEvents(Proc(PlusKey(d), Fetch), s, before); Completes(d, app, p1, s1, fate)
    ensures var (p1, s1) := AfterEvents(Proc(PlusKey(d), Fetch), s, before);
      var (p2, s2) := Act(p1, s1, fate);
      && Safe(d, app, s2)
      && (SharesBounds(d, app) <==>
            forall after | AllAllowed(d, app, after) :: Safe(d, app, AfterEvents(p2, s2, after).1))
  {
    AppliedIsInRange(d, app, s, before, fate);
    var (p1, s1) := AfterEvents(Proc(PlusKey(d), Fetch), s, before);
    var (p2, s2) := Act(p1, s1, fate);
    StaysInRangeIff(d, app, p2, s2);
  }

  // ----- two apps of version "blue" -----

  /** The example app with these bounds. */
  function BlueApp(minReplicas: int32, maxReplicas: int32): App {
    GpuApp("none").(minReplicas := minReplicas, maxReplicas := maxReplicas)
  }

  function TwoBlues(): Design {
    GpuDesign("none").(spec := Spec(None, None, [BlueApp(2, 3), BlueApp(5, 6)]))
  }

  /** Admission lets two apps of one version pass, whatever their bounds. */
  lemma TwoBluesAdmitted(plus: Plus)
    requires plus.design == TwoBlues()
    ensures Admitted(plus) && Bounded(BlueApp(2, 3)) && Bounded(BlueApp(5, 6))
  {
    assert DefaultApps(TwoBlues().spec.apps) == TwoBlues().spec.apps;
  }

  /** They cannot agree: each starts outside the other's bounds. */
  lemma TwoBluesClash()
    ensures var d := TwoBlues();
      && !SharesBounds(d, BlueApp(2, 3)) && !SharesBounds(d, BlueApp(5, 6)) && !Compatible(d)
  {
    var d := TwoBlues();
    var a, b := d.spec.apps[0], d.spec.apps[1];
    assert a in d.spec.apps && b in d.spec.apps;
    assert GetsAlong(d, a) ==> DeploymentsAgree(d, a, b);
  }

  lemma TwoBluesTurn(s: Store, i: nat, j: nat)
    requires WellTyped(s) && i < j <= 2 && j == i + 1
    ensures var d, a := TwoBlues(), BlueApp(2, 3);
      Turned(d, d.spec.apps[i], SlotOf(d, a, Deployed(d, s, i)), SlotOf(d, a, Deployed(d, s, j)))
  {
    var d, a := TwoBlues(), BlueApp(2, 3);
    SlotTurn(d, s, a, i, j);
    TurnOnDeployment(d, d.spec.apps[i], SlotOf(d, a, Deployed(d, s, i)));
  }

  lemma CountOfTurn(d: Design, app: App, slot: Slot, slot': Slot)
    requires app.minReplicas != -1 && Turned(d, app, slot, slot')
    ensures HoldsCount(slot', if HoldsDeployment(slot) && InRange(app, Replicas(slot)) then Replicas(slot)
                              else app.minReplicas)
  {
  }

  /** In every reconcile, whatever was stored: the first app's turn brings the count within two and three, and the
      second app's turn makes it five. */
  lemma TwoBluesTakeTurns(s: Store)
    requires WellTyped(s)
    ensures var d, a := TwoBlues(), BlueApp(2, 3);
      var between, after := SlotOf(d, a, Deployed(d, s, 1)), SlotOf(d, a, AfterDeployments(d, s));
      HoldsDeployment(between) && InRange(a, Replicas(between)) && HoldsCount(after, 5)
  {
    var d, a := TwoBlues(), BlueApp(2, 3);
    TwoBluesTurn(s, 0, 1);
    CountOfTurn(d, a, SlotOf(d, a, Deployed(d, s, 0)), SlotOf(d, a, Deployed(d, s, 1)));
    TwoBluesTurn(s, 1, 2);
    CountOfTurn(d, BlueApp(5, 6), SlotOf(d, a, Deployed(d, s, 1)), SlotOf(d, a, Deployed(d, s, 2)));
    DeployedIsStage(d, s);
  }

  /** So no two stores of a fault-free run that follow each other are equal, however long it is. */
  lemma TwoBluesNeverRest(key: Key, ws: seq<World>, fates: Fates, i: nat, j: nat)
    requires CalmRun(key, TwoBlues(), ws, fates) && |ws| > 4 && i < j < |ws| && j == i + 1
    ensures ws[i].store != ws[j].store
  {
    TwoBluesClash();
    RunRestsIff(key, TwoBlues(), ws, fates);
  }
}
