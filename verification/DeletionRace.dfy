/** A user's deletion that overtakes a reconcile at work: a run in which a child of a deleting Plus is created. */
module DeletionRace {
  import opened Wrappers
  import opened PlusTypes
  import opened Api
  import opened Children
  import opened Reconciling
  import opened CalmReconciles
  import opened FinalizerLife

  /** A live, registered Plus, nothing else stored, and a reconciler about to start. */
  function Start(d: Design): Life {
    Life(Proc(PlusKey(d), Fetch), map[PlusKey(d) := Slot(1, Some(PlusObject(FreshPlus(d))))], false, false)
  }

  /** At work on the first Deployment. */
  function WorkBegun(d: Design, pending: Option<Pending>): Phase {
    Working(Run(FreshPlus(d), FreshPlus(d).status, 1, Stages(d), pending))
  }

  predicate Deploys(d: Design) {
    d.spec.apps != [] && d.spec.apps[0].minReplicas != -1
  }

  /** Where the run is after each of its events. */
  predicate Reads(d: Design, l: Life) {
    l == Start(d).(p := Proc(PlusKey(d), WorkBegun(d, None)), seen := true)
  }

  function FirstDeployment(d: Design): Task
    requires Deploys(d)
  {
    ApplyDeployment(d.spec.apps[0])
  }

  predicate Decided(d: Design, l: Life)
    requires Deploys(d)
  {
    var create := Pending(Create(Wanted(d, FirstDeployment(d))), false);
    l == Start(d).(p := Proc(PlusKey(d), WorkBegun(d, Some(create))), seen := true)
  }

  lemma RunReads(d: Design)
    requires Deploys(d)
    ensures Reads(d, NextLife(Start(d), Call(Served)))
  {
    assert DeploymentTasks(d) != [];
  }

  lemma MissingIsCreated(d: Design, run: Run)
    requires Deploys(d) && HasTask(run) && HeadTask(run) == FirstDeployment(d) && run.plus.design == d
    requires run.pending.None?
    ensures ResumeRun(run, Absent)
         == Working(run.(pending := Some(Pending(Create(Wanted(d, FirstDeployment(d))), false))))
  {
  }

  lemma RunDecides(d: Design, l: Life)
    requires Deploys(d) && Reads(d, l)
    ensures Decided(d, NextLife(l, Call(Served)))
  {
    var run := WorkBegun(d, None).run;
    assert HasTask(run) && HeadTask(run) == DeploymentTasks(d)[0] == FirstDeployment(d);
    MissingIsCreated(d, run);
  }

  lemma FreshIsDeleted(d: Design, version: nat)
    ensures Serve(Slot(version, Some(PlusObject(FreshPlus(d)))), Delete).0
         == Slot(version + 1, Some(PlusObject(FreshPlus(d).(deleting := true))))
  {
  }

  lemma RunIsDeleted(d: Design, l: Life)
    requires Deploys(d) && Decided(d, l)
    ensures var next := NextLife(l, UserDelete);
      && Deleting(next) && next.p == l.p && At(next.s, KeyOf(d, FirstDeployment(d))) == EMPTY
  {
    FreshIsDeleted(d, 1);
  }

  lemma RunCreates(d: Design, l: Life)
    requires Deploys(d) && At(l.s, KeyOf(d, FirstDeployment(d))) == EMPTY
    requires l.p == Proc(PlusKey(d), WorkBegun(d, Some(Pending(Create(Wanted(d, FirstDeployment(d))), false))))
    ensures At(NextLife(l, Call(Served)).s, KeyOf(d, FirstDeployment(d))).content
         == Some(Wanted(d, FirstDeployment(d)))
  {
    assert DeploymentTasks(d)[0] == FirstDeployment(d);
  }

  lemma OneEvent(l: Life, e: LifeEvent, rest: seq<LifeEvent>)
    ensures LifeAfter(l, [e] + rest) == LifeAfter(NextLife(l, e), rest)
    ensures AllAllowed(l, [e] + rest) <==> Allowed(l, e) && AllAllowed(NextLife(l, e), rest)
  {
    assert ([e] + rest)[0] == e && ([e] + rest)[1..] == rest;
  }

  lemma ThreeEvents(l: Life, a: LifeEvent, b: LifeEvent, c: LifeEvent)
    ensures LifeAfter(l, [a, b, c]) == NextLife(NextLife(NextLife(l, a), b), c)
    ensures AllAllowed(l, [a, b, c]) <==>
      Allowed(l, a) && Allowed(NextLife(l, a), b) && Allowed(NextLife(NextLife(l, a), b), c)
  {
    OneEvent(l, a, [b, c]);
    OneEvent(NextLife(l, a), b, [c]);
    OneEvent(NextLife(NextLife(l, a), b), c, []);
    assert [a] + [b, c] == [a, b, c] && [b] + [c] == [b, c] && [c] + [] == [c];
  }

  /** For every design that deploys its first app: the reconciler reads the Plus and misses the Deployment, the user
      deletes the Plus, and the next call creates the Deployment of the Plus that is being deleted. */
  lemma DeletingPlusIsDeployed(d: Design)
    requires Deploys(d)
    ensures var start, events := Start(d), [Call(Served), Call(Served), UserDelete];
      var end, k := LifeAfter(start, events), KeyOf(d, FirstDeployment(d));
      && Beginning(start) && AllAllowed(start, events)
      && Deleting(end) && At(end.s, k) == EMPTY
      && At(NextLife(end, Call(Served)).s, k).content == Some(Wanted(d, FirstDeployment(d)))
  {
    var start := Start(d);
    RunReads(d);
    var begun := NextLife(start, Call(Served));
    RunDecides(d, begun);
    var decided := NextLife(begun, Call(Served));
    RunIsDeleted(d, decided);
    RunCreates(d, NextLife(decided, UserDelete));
    ThreeEvents(start, Call(Served), Call(Served), UserDelete);
  }
}
