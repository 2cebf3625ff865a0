/** What a reconcile reports: success exactly when every call on a child was answered, and how it ends. */
module Reporting {
  import opened Wrappers
  import opened PlusTypes
  import opened Api
  import opened Children
  import opened Finalizers
  import opened Reconciling
  import opened CalmReconciles
  import opened Recovery

  ghost predicate Answered(fates: Fates, from: nat, to: nat) {
    forall n: nat | from <= n < to :: fates(n) == Served
  }

  lemma AnsweredJoin(fates: Fates, from: nat, mid: nat, to: nat)
    requires from <= mid <= to
    ensures Answered(fates, from, to) <==> Answered(fates, from, mid) && Answered(fates, mid, to)
  {
  }

  // ----- which calls make a stage fail -----

  lemma ReadOrFail(plus: Plus, t: Task, w: World, fates: Fates)
    requires fates(w.calls) != Served
    ensures var r := RunTask(plus, t, w, fates);
      r.world.calls == w.calls + 1 && r.progress == if t.ReadStatus? then Stop else Fail
  {
  }

  lemma ReadThenWrite(plus: Plus, t: Task, w: World, fates: Fates)
    requires fates(w.calls) == Served && !t.ReadStatus?
    ensures var r, due := RunTask(plus, t, w, fates),
                          Decide(plus.design, t, ViewSlot(At(w.store, KeyOf(plus.design, t)))).Issue?;
      && r.world.calls == (if due then w.calls + 2 else w.calls + 1)
      && (r.progress == Fail <==> due && fates(w.calls + 1) != Served)
  {
    var slot := At(w.store, KeyOf(plus.design, t));
    if Decide(plus.design, t, ViewSlot(slot)).Issue? {
      DecidedWriteSucceeds(plus.design, t, slot);
    }
  }

  lemma StatusRead(plus: Plus, t: Task, w: World, fates: Fates)
    requires t.ReadStatus?
    ensures var r := RunTask(plus, t, w, fates);
      r.world.calls == w.calls + 1 && r.progress != Fail
  {
  }

  /** A task fails exactly when one of its calls is not answered; a status reading never does. */
  lemma TaskFailsIff(plus: Plus, t: Task, w: World, fates: Fates)
    ensures var r := RunTask(plus, t, w, fates);
      && w.calls < r.world.calls
      && (r.progress == Fail <==> !t.ReadStatus? && !Answered(fates, w.calls, r.world.calls))
  {
    if t.ReadStatus? {
      StatusRead(plus, t, w, fates);
    } else if fates(w.calls) != Served {
      ReadOrFail(plus, t, w, fates);
    } else {
      ReadThenWrite(plus, t, w, fates);
    }
  }

  /** So does a stage that reads no status. */
  lemma {:induction false} StageFailsIff(plus: Plus, tasks: seq<Task>, w: World, fates: Fates)
    requires forall t | t in tasks :: !t.ReadStatus?
    ensures var r := RunStage(plus, tasks, w, fates);
      w.calls <= r.world.calls && (r.progress == Fail <==> !Answered(fates, w.calls, r.world.calls))
    decreases |tasks|
  {
    if tasks != [] {
      TaskFailsIff(plus, tasks[0], w, fates);
      var first := RunTask(plus, tasks[0], w, fates);
      if first.progress == Next {
        StageFailsIff(first.plus, tasks[1..], first.world, fates);
        AnsweredJoin(fates, w.calls, first.world.calls, RunStage(plus, tasks, w, fates).world.calls);
      }
    }
  }

  lemma {:induction false} StatusStageNeverFails(plus: Plus, tasks: seq<Task>, w: World, fates: Fates)
    requires forall t | t in tasks :: t.ReadStatus?
    ensures var r := RunStage(plus, tasks, w, fates);
      w.calls <= r.world.calls && r.progress != Fail
    decreases |tasks|
  {
    if tasks != [] {
      StatusRead(plus, tasks[0], w, fates);
      var first := RunTask(plus, tasks[0], w, fates);
      if first.progress == Next {
        StatusStageNeverFails(first.plus, tasks[1..], first.world, fates);
      }
    }
  }

  // ----- the success flag after all stages -----

  ghost predicate NoStatusRead(stages: seq<seq<Task>>) {
    forall tasks, t | tasks in stages && t in tasks :: !t.ReadStatus?
  }

  lemma {:induction false} StagesReportIff(plus: Plus, stages: seq<seq<Task>>, w: World, fates: Fates)
    requires NoStatusRead(stages)
    ensures var (last, end) := RunStages(plus, stages, w, fates);
      && w.calls <= end.calls
      && (last.status.success <==> plus.status.success && Answered(fates, w.calls, end.calls))
    decreases |stages|
  {
    if stages != [] {
      assert stages[0] in stages;
      StageFailsIff(plus, stages[0], w, fates);
      StageKeepsSuccess(plus, stages[0], w, fates);
      var r := RunStage(plus, stages[0], w, fates);
      StagesReportIff(AfterStage(r), stages[1..], r.world, fates);
      AnsweredJoin(fates, w.calls, r.world.calls, RunStages(plus, stages, w, fates).1.calls);
    }
  }

  /** The store and the calls of a stage do not depend on the status in the instance. */
  lemma {:induction false} StageWorldAlike(p: Plus, q: Plus, tasks: seq<Task>, w: World, fates: Fates)
    requires p.design == q.design
    ensures RunStage(p, tasks, w, fates).world == RunStage(q, tasks, w, fates).world
    decreases |tasks|
  {
    if tasks != [] {
      var first, other := RunTask(p, tasks[0], w, fates), RunTask(q, tasks[0], w, fates);
      assert first.world == other.world && first.progress == other.progress;
      if first.progress == Next {
        StageWorldAlike(first.plus, other.plus, tasks[1..], first.world, fates);
      }
    }
  }

  /** The world once the Deployments have had their turn, and once their status has been read. */
  function AfterDeploying(plus: Plus, w: World, fates: Fates): World {
    RunStage(plus, DeploymentTasks(plus.design), w, fates).world
  }

  function AfterReading(plus: Plus, w: World, fates: Fates): World {
    RunStage(plus, StatusTasks(plus.design), AfterDeploying(plus, w, fates), fates).world
  }

  /** The calls from here on that were not spent on reading the status were all answered. */
  ghost predicate ChildrenAnswered(plus: Plus, w: World, fates: Fates, end: nat) {
    forall n: nat | w.calls <= n < end :: fates(n) == Served
      || AfterDeploying(plus, w, fates).calls <= n < AfterReading(plus, w, fates).calls
  }

  lemma LaterStages(d: Design)
    ensures NoStatusRead(Stages(d)[2..])
    ensures Stages(d)[1..] == [StatusTasks(d)] + Stages(d)[2..]
  {
    forall tasks, t | tasks in Stages(d)[2..] && t in tasks
      ensures !t.ReadStatus?
    {
      var i :| 0 <= i < 4 && Stages(d)[2..][i] == tasks;
    }
  }

  /** The six stages leave the flag as it was when they began, if every call but those that read a status was answered,
      and otherwise clear it. */
  lemma SuccessIff(plus: Plus, w: World, fates: Fates)
    ensures var (last, end) := RunStages(plus, Stages(plus.design), w, fates);
      last.status.success <==> plus.status.success && ChildrenAnswered(plus, w, fates, end.calls)
  {
    var d := plus.design;
    var r0 := RunStage(plus, DeploymentTasks(d), w, fates);
    StageFailsIff(plus, DeploymentTasks(d), w, fates);
    StageKeepsSuccess(plus, DeploymentTasks(d), w, fates);
    var p1 := AfterStage(r0);
    var r1 := RunStage(p1, StatusTasks(d), r0.world, fates);
    StatusStageNeverFails(p1, StatusTasks(d), r0.world, fates);
    StageKeepsSuccess(p1, StatusTasks(d), r0.world, fates);
    StageWorldAlike(plus, p1, StatusTasks(d), r0.world, fates);
    LaterStages(d);
    StagesReportIff(r1.plus, Stages(d)[2..], r1.world, fates);
    var (last, end) := RunStages(r1.plus, Stages(d)[2..], r1.world, fates);
    assert RunStages(p1, Stages(d)[1..], r0.world, fates) == (last, end);
    AnsweredSplit(fates, plus, w, r0.world.calls, r1.world.calls, end.calls);
  }

  lemma AnsweredSplit(fates: Fates, plus: Plus, w: World, deployed: nat, read: nat, end: nat)
    requires deployed == AfterDeploying(plus, w, fates).calls && read == AfterReading(plus, w, fates).calls
    requires w.calls <= deployed <= read <= end
    ensures ChildrenAnswered(plus, w, fates, end) <==> Answered(fates, w.calls, deployed) && Answered(fates, read, end)
  {
  }

  // ----- the whole reconcile of a live Plus -----

  /** The calls on the Plus itself before any child is touched: the fetch, and the registration if it is due. */
  function OpeningCalls(plus: Plus): nat {
    if OWN_FINALIZER in plus.finalizers then 1 else 2
  }

  /** Where the work on the children starts, once those calls are answered. */
  function Opened(key: Key, d: Design, w: World): World
    requires Live(key, d, w.store)
  {
    World(Registered(key, d, w.store), w.calls + OpeningCalls(PlusAt(key, d, w.store)))
  }

  /** Registration appends the operator's finalizer, once. */
  lemma RegisteredReads(key: Key, d: Design, s: Store)
    requires Live(key, d, s)
    ensures Live(key, d, Registered(key, d, s))
    ensures var before, after := PlusAt(key, d, s).finalizers, PlusAt(key, d, Registered(key, d, s)).finalizers;
      after == before + if "storage.finalizers.tutorial.kubebuilder.io" in before then []
                        else ["storage.finalizers.tutorial.kubebuilder.io"]
  {
  }

  lemma FetchServed(key: Key, d: Design, w: World, fates: Fates, w1: World)
    requires Live(key, d, w.store) && w1 == World(w.store, w.calls + 1) && fates(w.calls) == Served
    ensures Reconcile(key, w, fates)
         == AfterFetch(key, PlusAt(key, d, w1.store), At(w1.store, key).version, w1, fates)
  {
    var (w', r) := Call(w, Request(key, Get), fates);
    assert w' == w1 && r == Found(At(w.store, key).content.value, At(w.store, key).version);
  }

  lemma FetchFailed(key: Key, w: World, fates: Fates)
    requires fates(w.calls) != Served
    ensures Reconcile(key, w, fates).1 == Error && Reconcile(key, w, fates).0.calls == w.calls + 1
  {
  }

  /** The finalizer step on what was fetched: registered already, registered now, or an error. */
  lemma OpeningStep(key: Key, d: Design, w: World, fates: Fates) returns (plus: Plus, version: nat)
    requires Live(key, d, w.store)
    ensures var start := World(Registered(key, d, w.store), w.calls + OpeningCalls(PlusAt(key, d, w.store)) - 1);
      && start.store == Registered(key, d, w.store)
      && At(start.store, key) == Slot(version, Some(PlusObject(plus))) && plus.design == d && !plus.deleting
      && var r := Finalize(key, PlusAt(key, d, w.store), At(w.store, key).version, w, fates);
         if OWN_FINALIZER in PlusAt(key, d, w.store).finalizers || fates(w.calls) == Served
         then r == GoOn(plus, version, start)
         else r.Over? && r.result == Error && r.world.calls == w.calls + 1
  {
    plus, version := PlusAt(key, d, w.store), At(w.store, key).version;
    if OWN_FINALIZER !in plus.finalizers {
      plus, version := WithOwn(plus), version + 1;
    }
  }

  /** How the work ends: no status to write, or one more call, whose answer decides the result. */
  lemma FinishResult(key: Key, last: Plus, plus: Plus, version: nat, w: World, fates: Fates)
    requires At(w.store, key) == Slot(version, Some(PlusObject(plus))) && !plus.deleting
    ensures var (w', result) := Finish(key, last, plus.status, version, w, fates);
      && (result == Ok ==> At(w'.store, key).content == Some(PlusObject(plus.(status := StatusOf(last)))))
      && (|| (w' == w && result == Ok)
          || (w'.calls == w.calls + 1 && result == if fates(w.calls) == Served then Ok else Error))
  {
    StatusOnLiveSlot(plus, StatusOf(last), version);
  }

  /** The status is written exactly when something in it differs from what was fetched, or no available count at all has
      been read: an empty map is never found equal to what is stored. */
  lemma StatusWrittenIff(key: Key, last: Plus, before: Status, version: nat, w: World, fates: Fates)
    ensures Finish(key, last, before, version, w, fates).0.calls == w.calls + 1 <==>
      || last.status.success != before.success || last.status.available != before.available
      || StatusDesc(last.design, last.status.available) != before.desc || last.status.available == map[]
    ensures Finish(key, last, before, version, w, fates).0.calls <= w.calls + 1
  {
  }

  lemma WorkReports(key: Key, d: Design, plus: Plus, version: nat, w: World, fates: Fates)
    requires At(w.store, key) == Slot(version, Some(PlusObject(plus))) && plus.design == d && !plus.deleting
    requires key == PlusKey(d)
    ensures var end, (w', result) := RunStages(Succeeding(plus), Stages(d), w, fates).1,
                                     ApplyAll(key, plus, version, w, fates);
      && (result == Ok ==>
            && Live(key, d, w'.store)
            && (PlusAt(key, d, w'.store).status.success <==> ChildrenAnswered(Succeeding(plus), w, fates, end.calls)))
      && (|| (w' == end && result == Ok)
          || (w'.calls == end.calls + 1 && result == if fates(end.calls) == Served then Ok else Error))
  {
    var (last, end) := RunStages(Succeeding(plus), Stages(d), w, fates);
    SuccessIff(Succeeding(plus), w, fates);
    StagesLater(Succeeding(plus), Stages(d), w, fates);
    FinishResult(key, last, plus, version, end, fates);
  }

  lemma {:induction false} StagesWorldAlike(p: Plus, q: Plus, stages: seq<seq<Task>>, w: World, fates: Fates)
    requires p.design == q.design
    ensures RunStages(p, stages, w, fates).1 == RunStages(q, stages, w, fates).1
    decreases |stages|
  {
    if stages != [] {
      StageWorldAlike(p, q, stages[0], w, fates);
      StagesWorldAlike(AfterStage(RunStage(p, stages[0], w, fates)), AfterStage(RunStage(q, stages[0], w, fates)),
                       stages[1..], RunStage(p, stages[0], w, fates).world, fates);
    }
  }

  /** The number of calls by which the children have all had their turn. */
  function WorkEnd(plus: Plus, w: World, fates: Fates): nat {
    RunStages(plus, Stages(plus.design), w, fates).1.calls
  }

  /** The work, said of the Plus as it is stored. */
  lemma StoredWorkReports(key: Key, d: Design, plus: Plus, version: nat, w: World, fates: Fates)
    requires At(w.store, key) == Slot(version, Some(PlusObject(plus))) && plus.design == d && !plus.deleting
    requires key == PlusKey(d)
    ensures var end, (w', result) := WorkEnd(plus, w, fates), ApplyAll(key, plus, version, w, fates);
      && (result == Ok ==>
            && Live(key, d, w'.store)
            && (PlusAt(key, d, w'.store).status.success <==> ChildrenAnswered(plus, w, fates, w'.calls)))
      && (|| (w'.calls == end && result == Ok)
          || (w'.calls == end + 1 && result == if fates(end) == Served then Ok else Error))
  {
    WorkReports(key, d, plus, version, w, fates);
    StagesWorldAlike(plus, Succeeding(plus), Stages(d), w, fates);
    var end, w' := WorkEnd(plus, w, fates), ApplyAll(key, plus, version, w, fates).0;
    AlikeAnswered(plus, Succeeding(plus), w, fates, end);
    if w'.calls == end + 1 && fates(end) == Served {
      OneMoreAnswered(plus, w, fates, end);
    }
  }

  lemma AlikeAnswered(p: Plus, q: Plus, w: World, fates: Fates, end: nat)
    requires p.design == q.design
    ensures ChildrenAnswered(p, w, fates, end) <==> ChildrenAnswered(q, w, fates, end)
  {
    StageWorldAlike(p, q, DeploymentTasks(p.design), w, fates);
    StageWorldAlike(p, q, StatusTasks(p.design), AfterDeploying(p, w, fates), fates);
  }

  lemma OneMoreAnswered(plus: Plus, w: World, fates: Fates, end: nat)
    requires fates(end) == Served
    ensures ChildrenAnswered(plus, w, fates, end + 1) <==> ChildrenAnswered(plus, w, fates, end)
  {
  }

  /** The fetch is answered, and so is the registration if it is due. */
  predicate OpensWell(key: Key, d: Design, w: World, fates: Fates)
    requires Live(key, d, w.store)
  {
    fates(w.calls) == Served && (OWN_FINALIZER in PlusAt(key, d, w.store).finalizers || fates(w.calls + 1) == Served)
  }

  /** The fetch answered: the finalizer step, and then the work. */
  lemma OpenedFetch(key: Key, d: Design, w: World, fates: Fates, start: World)
      returns (plus: Plus, version: nat, end: (World, Result), well: bool)
    requires Live(key, d, w.store)
    requires start == World(Registered(key, d, w.store), w.calls + OpeningCalls(PlusAt(key, d, w.store)) - 1)
    ensures At(start.store, key) == Slot(version, Some(PlusObject(plus))) && plus.design == d && !plus.deleting
    ensures end == AfterFetch(key, PlusAt(key, d, w.store), At(w.store, key).version, w, fates)
    ensures Opens(key, end, plus, version, start, fates, well)
    ensures well == (OWN_FINALIZER in PlusAt(key, d, w.store).finalizers || fates(w.calls) == Served)
  {
    plus, version := OpeningStep(key, d, w, fates);
    end := AfterFetch(key, PlusAt(key, d, w.store), At(w.store, key).version, w, fates);
    well := OWN_FINALIZER in PlusAt(key, d, w.store).finalizers || fates(w.calls) == Served;
  }

  /** It ended as the work that starts here does, if all went well before, and otherwise with an error before any
      work. */
  predicate Opens(key: Key, end: (World, Result), plus: Plus, version: nat, start: World, fates: Fates, well: bool) {
    if well then end == ApplyAll(key, plus, version, start, fates)
    else end.1 == Error && end.0.calls <= start.calls
  }

  lemma OpenedServed(key: Key, d: Design, w: World, fates: Fates, start: World)
      returns (plus: Plus, version: nat, end: (World, Result), well: bool)
    requires Live(key, d, w.store) && start == Opened(key, d, w) && fates(w.calls) == Served
    ensures At(start.store, key) == Slot(version, Some(PlusObject(plus))) && plus.design == d && !plus.deleting
    ensures end == Reconcile(key, w, fates) && Opens(key, end, plus, version, start, fates, well)
    ensures well == OpensWell(key, d, w, fates)
  {
    var w1 := World(w.store, w.calls + 1);
    FetchServed(key, d, w, fates, w1);
    plus, version, end, well := OpenedFetch(key, d, w1, fates, start);
  }

  lemma OpenedReconcile(key: Key, d: Design, w: World, fates: Fates, start: World)
      returns (plus: Plus, version: nat, end: (World, Result), well: bool)
    requires Live(key, d, w.store) && start == Opened(key, d, w)
    ensures At(start.store, key) == Slot(version, Some(PlusObject(plus))) && plus.design == d && !plus.deleting
    ensures end == Reconcile(key, w, fates) && Opens(key, end, plus, version, start, fates, well)
    ensures well == OpensWell(key, d, w, fates)
  {
    if fates(w.calls) == Served {
      plus, version, end, well := OpenedServed(key, d, w, fates, start);
    } else {
      plus, version := OpeningStep(key, d, World(w.store, w.calls + 1), fates);
      FetchFailed(key, w, fates);
      end, well := Reconcile(key, w, fates), false;
    }
  }

  /** The status stored after a reconcile from w to w' says success if and only if every call it made on a child, other
      than those that read the status, was answered. */
  ghost predicate SuccessReported(key: Key, d: Design, w: World, fates: Fates, w': World)
    requires Live(key, d, w.store)
  {
    var start := Opened(key, d, w);
    && Live(key, d, w'.store)
    && Live(key, d, start.store)
    && (PlusAt(key, d, w'.store).status.success
        <==> ChildrenAnswered(PlusAt(key, d, start.store), start, fates, w'.calls))
  }

  /** A reconcile of a live Plus that ends well reports success exactly when it had it. */
  lemma ReportedSuccessIff(key: Key, d: Design, w: World, fates: Fates)
    requires Live(key, d, w.store) && Reconcile(key, w, fates).1 == Ok
    ensures SuccessReported(key, d, w, fates, Reconcile(key, w, fates).0)
  {
    var plus, version, end, well := OpenedReconcile(key, d, w, fates, Opened(key, d, w));
    RoundStaysLive(key, d, w.store);
    StoredWorkReports(key, d, plus, version, Opened(key, d, w), fates);
  }

  /** A reconcile of whatever is stored under the key ended like this: well, of a live Plus, only as just said. */
  ghost predicate ReportsSuccess(key: Key, w: World, fates: Fates, end: (World, Result)) {
    var found := At(w.store, key).content;
    found.Some? && found.value.PlusObject? && Live(key, found.value.plus.design, w.store) && end.1 == Ok ==>
      SuccessReported(key, found.value.plus.design, w, fates, end.0)
  }

  lemma ReconcileReports(key: Key, w: World, fates: Fates)
    ensures ReportsSuccess(key, w, fates, Reconcile(key, w, fates))
  {
    var found := At(w.store, key).content;
    if found.Some? && found.value.PlusObject? && Live(key, found.value.plus.design, w.store)
       && Reconcile(key, w, fates).1 == Ok {
      ReportedSuccessIff(key, found.value.plus.design, w, fates);
    }
  }

  /** How a reconcile of a live Plus ends: with an error as soon as the fetch or the registration is not answered, and
      otherwise, when the children have had their turn, well or as the writing of the status ends. No failure at a child
      is an error of the reconcile. */
  lemma ResultIff(key: Key, d: Design, w: World, fates: Fates)
    requires Live(key, d, w.store)
    ensures var (w', result) := Reconcile(key, w, fates);
      var start := Opened(key, d, w);
      && Live(key, d, start.store)
      && var end := WorkEnd(PlusAt(key, d, start.store), start, fates);
         if !OpensWell(key, d, w, fates) then result == Error && w'.calls <= start.calls
         else
           || (w'.calls == end && result == Ok)
           || (w'.calls == end + 1 && result == if fates(end) == Served then Ok else Error)
  {
    var plus, version, end, well := OpenedReconcile(key, d, w, fates, Opened(key, d, w));
    RoundStaysLive(key, d, w.store);
    StoredWorkReports(key, d, plus, version, Opened(key, d, w), fates);
  }

  /** A Plus that is not there, or not there any more, ends the reconcile well after one call. */
  lemma AbsentResult(key: Key, w: World, fates: Fates)
    requires At(w.store, key).content.None?
    ensures Reconcile(key, w, fates) == (World(w.store, w.calls + 1), if fates(w.calls) == Served then Ok else Error)
  {
  }

  /** With others about: the writing of the status asks for another reconcile exactly when it is answered and the Plus
      has been written since the version it goes by. */
  lemma RequeueIff(p: Proc, s: Store, fate: Fate)
    requires p.phase.WriteStatus? && At(s, p.key).content.Some? && At(s, p.key).content.value.PlusObject?
    ensures Act(p, s, fate).0.phase == Finished(Requeue)
       <==> fate == Served && At(s, p.key).version != p.phase.version
  {
  }
}
