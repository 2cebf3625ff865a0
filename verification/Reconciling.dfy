/** One reconcile of a Plus: as a whole, and as the sequence of API calls it makes. */
module Reconciling {
  import opened Wrappers
  import opened PlusTypes
  import opened Api
  import opened Children
  import opened Finalizers

  datatype Result = Ok | Requeue | Error

  // ----- as a whole -----

  function Failing(plus: Plus): Plus {
    plus.(status := plus.status.(success := false))
  }

  function AfterStage(r: Outcome): Plus {
    if r.progress == Fail then Failing(r.plus) else r.plus
  }

  /** Every stage runs, whatever became of the one before. */
  function RunStages(plus: Plus, stages: seq<seq<Task>>, w: World, fates: Fates): (r: (Plus, World))
    ensures r.0.design == plus.design
    decreases |stages|
  {
    if stages == [] then (plus, w)
    else
      var r := RunStage(plus, stages[0], w, fates);
      RunStages(AfterStage(r), stages[1..], r.world, fates)
  }

  /** No stage, run one after the other, ends with an error. */
  ghost predicate NoStageFails(plus: Plus, stages: seq<seq<Task>>, w: World, fates: Fates)
    decreases |stages|
  {
    stages == [] ||
    var r := RunStage(plus, stages[0], w, fates);
    r.progress != Fail && NoStageFails(r.plus, stages[1..], r.world, fates)
  }

  /** A stage alone never touches the success flag. */
  lemma {:induction false} StageKeepsSuccess(plus: Plus, tasks: seq<Task>, w: World, fates: Fates)
    ensures RunStage(plus, tasks, w, fates).plus.status.success == plus.status.success
    decreases |tasks|
  {
    if tasks != [] {
      var first := RunTask(plus, tasks[0], w, fates);
      if first.progress == Next {
        StageKeepsSuccess(first.plus, tasks[1..], first.world, fates);
      }
    }
  }

  /** After the stages success is reported exactly when it was before and no stage has failed since. */
  lemma {:induction false} StagesSucceedIff(plus: Plus, stages: seq<seq<Task>>, w: World, fates: Fates)
    ensures RunStages(plus, stages, w, fates).0.status.success
       <==> plus.status.success && NoStageFails(plus, stages, w, fates)
    decreases |stages|
  {
    if stages != [] {
      var r := RunStage(plus, stages[0], w, fates);
      StageKeepsSuccess(plus, stages[0], w, fates);
      StagesSucceedIff(AfterStage(r), stages[1..], r.world, fates);
    }
  }

  function StatusOf(plus: Plus): Status {
    plus.status.(desc := StatusDesc(plus.design, plus.status.available))
  }

  /** DeepEqual of the statuses: an empty map of available replicas is never equal to the stored nil one. */
  predicate StatusChanged(status: Status, before: Status) {
    status != before || status.available == map[]
  }

  function StatusResult(r: Response): Result {
    if r == Failed(Conflict) then Requeue else if r.Failed? then Error else Ok
  }

  function Finish(key: Key, plus: Plus, before: Status, version: nat, w: World, fates: Fates): (World, Result) {
    if StatusChanged(StatusOf(plus), before) then
      var (w', r) := Call(w, Request(key, PutStatus(StatusOf(plus), Some(version))), fates);
      (w', StatusResult(r))
    else (w, Ok)
  }

  function Succeeding(plus: Plus): Plus {
    plus.(status := plus.status.(success := true))
  }

  function ApplyAll(key: Key, found: Plus, version: nat, w: World, fates: Fates): (World, Result) {
    var (plus, w') := RunStages(Succeeding(found), Stages(found.design), w, fates);
    Finish(key, plus, found.status, version, w', fates)
  }

  function WithOwn(plus: Plus): Plus {
    plus.(finalizers := plus.finalizers + [OWN_FINALIZER])
  }

  function WithoutOwn(plus: Plus): Plus {
    plus.(finalizers := Without(plus.finalizers, OWN_FINALIZER))
  }

  /** A live Plus that is registered, with nothing in its status yet. */
  function FreshPlus(d: Design): Plus {
    Plus(d, [OWN_FINALIZER], false, Status(map[], true, Desc("", "", "", "")))
  }

  datatype FinalizerOutcome = Over(world: World, result: Result) | GoOn(plus: Plus, version: nat, world: World)

  /** Registers the operator's finalizer on a live Plus; takes it off a deleting one, which ends the reconcile. */
  function Finalize(key: Key, plus: Plus, version: nat, w: World, fates: Fates): FinalizerOutcome {
    if plus.deleting then
      if OWN_FINALIZER in plus.finalizers then
        var (w', r) := Call(w, Request(key, Update(PlusObject(WithoutOwn(plus)), Some(version))), fates);
        Over(w', if r.Failed? then Error else Ok)
      else Over(w, Ok)
    else if OWN_FINALIZER in plus.finalizers then GoOn(plus, version, w)
    else
      var (w', r) := Call(w, Request(key, Update(PlusObject(WithOwn(plus)), Some(version))), fates);
      if r.Stored? && r.obj.PlusObject? then GoOn(r.obj.plus, r.version, w') else Over(w', Error)
  }

  function AfterFetch(key: Key, plus: Plus, version: nat, w: World, fates: Fates): (World, Result) {
    match Finalize(key, plus, version, w, fates)
    case Over(w', result) => (w', result)
    case GoOn(plus', version', w') => ApplyAll(key, plus', version', w', fates)
  }

  function Reconcile(key: Key, w: World, fates: Fates): (World, Result) {
    var (w', r) := Call(w, Request(key, Get), fates);
    if r.Absent? || (r.Found? && !r.obj.PlusObject?) then (w', Ok)
    else if !r.Found? then (w', Error)
    else AfterFetch(key, r.obj.plus, r.version, w', fates)
  }

  // ----- call by call -----

  datatype Pending = Pending(verb: Verb, halt: bool)

  /** `before` is the status as fetched; `pending` the write the head task has decided on. */
  datatype Run = Run(plus: Plus, before: Status, version: nat, todo: seq<seq<Task>>, pending: Option<Pending>)

  datatype Phase =
    | Fetch
    | AddFinalizer(plus: Plus, version: nat)
    | RemoveFinalizer(plus: Plus, version: nat)  // reached after PreDelete
    | Working(run: Run)
    | WriteStatus(plus: Plus, version: nat)
    | Finished(result: Result)

  /** A reconciler for one Plus, between two of its API calls. */
  datatype Proc = Proc(key: Key, phase: Phase)

  /** Finished stages are left behind; after the last one comes the status. */
  function Enter(run: Run): Phase
    decreases |run.todo|
  {
    if run.todo == [] then
      if StatusChanged(StatusOf(run.plus), run.before) then WriteStatus(run.plus, run.version) else Finished(Ok)
    else if run.todo[0] == [] then Enter(run.(todo := run.todo[1..]))
    else Working(run)
  }

  function Begin(plus: Plus, version: nat): Phase {
    Enter(Run(Succeeding(plus), plus.status, version, Stages(plus.design), None))
  }

  predicate HasTask(run: Run) {
    run.todo != [] && run.todo[0] != []
  }

  function HeadTask(run: Run): Task
    requires HasTask(run)
  {
    run.todo[0][0]
  }

  /** The next request; None when the reconcile is over. */
  function Ask(p: Proc): Option<Request> {
    match p.phase
    case Fetch => Some(Request(p.key, Get))
    case AddFinalizer(plus, version) => Some(Request(p.key, Update(PlusObject(WithOwn(plus)), Some(version))))
    case RemoveFinalizer(plus, version) => Some(Request(p.key, Update(PlusObject(WithoutOwn(plus)), Some(version))))
    case Working(run) =>
      if !HasTask(run) then None
      else Some(Request(KeyOf(run.plus.design, HeadTask(run)),
                        if run.pending.Some? then run.pending.value.verb else Get))
    case WriteStatus(plus, version) => Some(Request(p.key, PutStatus(StatusOf(plus), Some(version))))
    case Finished(_) => None
  }

  function NextTask(run: Run): Phase
    requires HasTask(run)
  {
    Enter(run.(todo := [run.todo[0][1..]] + run.todo[1..], pending := None))
  }

  function NextStage(run: Run): Phase
    requires HasTask(run)
  {
    Enter(run.(todo := run.todo[1..], pending := None))
  }

  function FailStage(run: Run): Phase
    requires HasTask(run)
  {
    NextStage(run.(plus := Failing(run.plus)))
  }

  function ResumeRun(run: Run, r: Response): Phase
    requires HasTask(run)
  {
    var t := HeadTask(run);
    if run.pending.Some? then
      if r.Failed? then FailStage(run) else if run.pending.value.halt then NextStage(run) else NextTask(run)
    else if r.Failed? then
      if t.ReadStatus? then NextStage(run) else FailStage(run)
    else
      match Decide(run.plus.design, t, View(r))
      case Skip => NextTask(run)
      case Halt => NextStage(run)
      case Note(n) => NextTask(run.(plus := Noted(run.plus, t, n)))
      case Issue(verb, halt) => Working(run.(pending := Some(Pending(verb, halt))))
  }

  function ResumeFetch(r: Response): Phase {
    if r.Absent? || (r.Found? && !r.obj.PlusObject?) then Finished(Ok)
    else if !r.Found? then Finished(Error)
    else if r.obj.plus.deleting then
      if OWN_FINALIZER in r.obj.plus.finalizers then RemoveFinalizer(r.obj.plus, r.version) else Finished(Ok)
    else if OWN_FINALIZER in r.obj.plus.finalizers then Begin(r.obj.plus, r.version)
    else AddFinalizer(r.obj.plus, r.version)
  }

  function Resume(p: Proc, r: Response): Phase {
    match p.phase
    case Fetch => ResumeFetch(r)
    case AddFinalizer(_, _) => if r.Stored? && r.obj.PlusObject? then Begin(r.obj.plus, r.version) else Finished(Error)
    case RemoveFinalizer(_, _) => Finished(if r.Failed? then Error else Ok)
    case Working(run) => if HasTask(run) then ResumeRun(run, r) else Finished(Ok)
    case WriteStatus(_, _) => Finished(StatusResult(r))
    case Finished(result) => Finished(result)
  }

  /** One API call with its fate. A reconciler whose reconcile is over starts the next one. */
  function Act(p: Proc, s: Store, fate: Fate): (Proc, Store) {
    match Ask(p)
    case None => (Proc(p.key, Fetch), s)
    case Some(req) =>
      var (s', r) := Execute(s, req, fate);
      (Proc(p.key, Resume(p, r)), s')
  }

  /** A reconciler on its own, one call per fate. */
  function Acts(p: Proc, s: Store, fates: seq<Fate>): (Proc, Store)
    decreases |fates|
  {
    if fates == [] then (p, s)
    else
      var (p', s') := Act(p, s, fates[0]);
      Acts(p', s', fates[1..])
  }

  // ----- both views agree -----

  function Rank(phase: Phase): nat {
    match phase
    case Fetch => 5
    case AddFinalizer(_, _) => 4
    case RemoveFinalizer(_, _) => 1
    case Working(_) => 3
    case WriteStatus(_, _) => 2
    case Finished(_) => 0
  }

  function StagesLeft(phase: Phase): nat {
    if phase.Working? then |phase.run.todo| else 0
  }

  function CallsLeft(phase: Phase): nat {
    if phase.Working? && phase.run.todo != []
    then 2 * |phase.run.todo[0]| + if phase.run.pending.Some? then 0 else 1 else 0
  }

  predicate ComesAfter(next: Phase, phase: Phase) {
    || Rank(next) < Rank(phase)
    || (Rank(next) == Rank(phase) && StagesLeft(next) < StagesLeft(phase))
    || (Rank(next) == Rank(phase) && StagesLeft(next) == StagesLeft(phase) && CallsLeft(next) < CallsLeft(phase))
  }

  lemma {:induction false} EnterGoesOn(run: Run)
    ensures var next := Enter(run);
      && Rank(next) <= 3
      && (next.Working? ==> |next.run.todo| < |run.todo| || next.run == run)
    decreases |run.todo|
  {
    if run.todo != [] && run.todo[0] == [] {
      EnterGoesOn(run.(todo := run.todo[1..]));
    }
  }

  lemma LaterRun(run: Run, later: Run)
    requires HasTask(run)
    requires later.todo == run.todo[1..] || later.todo == [run.todo[0][1..]] + run.todo[1..]
    ensures ComesAfter(Enter(later), Working(run))
  {
    EnterGoesOn(later);
  }

  lemma RunGoesOn(run: Run, r: Response)
    requires HasTask(run)
    ensures ComesAfter(ResumeRun(run, r), Working(run))
  {
    var decision := Decide(run.plus.design, HeadTask(run), View(r));
    var plus := if run.pending.None? && decision.Note? then Noted(run.plus, HeadTask(run), decision.available)
                else run.plus;
    LaterRun(run, run.(plus := plus, todo := [run.todo[0][1..]] + run.todo[1..], pending := None));
    LaterRun(run, run.(todo := run.todo[1..], pending := None));
    LaterRun(run, run.(plus := Failing(run.plus), todo := run.todo[1..], pending := None));
  }

  lemma BeginGoesOn(plus: Plus, version: nat)
    ensures Rank(Begin(plus, version)) <= 3
  {
    EnterGoesOn(Run(Succeeding(plus), plus.status, version, Stages(plus.design), None));
  }

  lemma ResumeGoesOn(p: Proc, r: Response)
    requires Ask(p).Some?
    ensures ComesAfter(Resume(p, r), p.phase)
  {
    match p.phase
    case Fetch =>
      if r.Found? && r.obj.PlusObject? {
        BeginGoesOn(r.obj.plus, r.version);
      }
    case AddFinalizer(_, _) =>
      if r.Stored? && r.obj.PlusObject? {
        BeginGoesOn(r.obj.plus, r.version);
      }
    case Working(run) => RunGoesOn(run, r);
    case RemoveFinalizer(_, _) =>
    case WriteStatus(_, _) =>
  }

  /** A reconcile run call by call until it is over. */
  function Drive(p: Proc, w: World, fates: Fates): (World, Result)
    decreases Rank(p.phase), StagesLeft(p.phase), CallsLeft(p.phase)
  {
    if Ask(p).None? then (w, if p.phase.Finished? then p.phase.result else Ok)
    else
      var (w', r) := Call(w, Ask(p).value, fates);
      ResumeGoesOn(p, r);
      Drive(Proc(p.key, Resume(p, r)), w', fates)
  }

  lemma DriveActs(p: Proc, w: World, fates: Fates)
    requires Ask(p).Some?
    ensures var (p', s') := Act(p, w.store, fates(w.calls));
      Drive(p, w, fates) == Drive(p', World(s', w.calls + 1), fates)
  {
  }

  lemma {:induction false} DriveStage(key: Key, run: Run, w: World, fates: Fates)
    requires run.todo != [] && run.pending.None?
    ensures var r := RunStage(run.plus, run.todo[0], w, fates);
      Drive(Proc(key, Enter(run)), w, fates)
      == Drive(Proc(key, Enter(run.(plus := AfterStage(r), todo := run.todo[1..]))), r.world, fates)
    decreases |run.todo[0]|
  {
    if run.todo[0] != [] {
      var t := HeadTask(run);
      var first := RunTask(run.plus, t, w, fates);
      DriveTask(key, run, w, fates);
      if first.progress == Next {
        var rest := run.(plus := first.plus, todo := [run.todo[0][1..]] + run.todo[1..]);
        DriveStage(key, rest, first.world, fates);
        assert rest.todo[1..] == run.todo[1..];
      }
    }
  }

  /** One or two calls carry out the head task. */
  lemma DriveTask(key: Key, run: Run, w: World, fates: Fates)
    requires HasTask(run) && run.pending.None?
    ensures var first := RunTask(run.plus, HeadTask(run), w, fates);
      Drive(Proc(key, Working(run)), w, fates)
      == Drive(Proc(key, Enter(run.(plus := AfterStage(first),
                                    todo := if first.progress == Next then [run.todo[0][1..]] + run.todo[1..]
                                                                      else run.todo[1..]))),
               first.world, fates)
  {
    var p, t := Proc(key, Working(run)), HeadTask(run);
    var (w1, r1) := Call(w, Ask(p).value, fates);
    var next := Proc(key, Resume(p, r1));
    assert Drive(p, w, fates) == Drive(next, w1, fates);
    if !r1.Failed? && Decide(run.plus.design, t, View(r1)).Issue? {
      var (w2, r2) := Call(w1, Ask(next).value, fates);
      assert Drive(next, w1, fates) == Drive(Proc(key, Resume(next, r2)), w2, fates);
    }
  }

  lemma {:induction false} DriveStages(key: Key, run: Run, w: World, fates: Fates)
    requires run.pending.None?
    ensures var (plus, w') := RunStages(run.plus, run.todo, w, fates);
      Drive(Proc(key, Enter(run)), w, fates) == Finish(key, plus, run.before, run.version, w', fates)
    decreases |run.todo|
  {
    if run.todo != [] {
      DriveStage(key, run, w, fates);
      var r := RunStage(run.plus, run.todo[0], w, fates);
      DriveStages(key, run.(plus := AfterStage(r), todo := run.todo[1..]), r.world, fates);
    }
  }

  lemma DriveApplyAll(key: Key, found: Plus, version: nat, w: World, fates: Fates)
    ensures Drive(Proc(key, Begin(found, version)), w, fates) == ApplyAll(key, found, version, w, fates)
  {
    DriveStages(key, Run(Succeeding(found), found.status, version, Stages(found.design), None), w, fates);
  }

  /** Left to itself, the call-by-call reconciler does exactly what the reconcile does as a whole. */
  lemma StepsAreReconcile(key: Key, w: World, fates: Fates)
    ensures Drive(Proc(key, Fetch), w, fates) == Reconcile(key, w, fates)
  {
    var p := Proc(key, Fetch);
    var (w1, r1) := Call(w, Request(key, Get), fates);
    var next := Proc(key, ResumeFetch(r1));
    assert Drive(p, w, fates) == Drive(next, w1, fates);
    if r1.Found? && r1.obj.PlusObject? {
      var plus, version := r1.obj.plus, r1.version;
      var own := OWN_FINALIZER in plus.finalizers;
      if own && !plus.deleting {
        DriveApplyAll(key, plus, version, w1, fates);
      } else if own || !plus.deleting {
        var (w2, r2) := Call(w1, Ask(next).value, fates);
        var last := Proc(key, Resume(next, r2));
        assert Drive(next, w1, fates) == Drive(last, w2, fates);
        if !plus.deleting && r2.Stored? && r2.obj.PlusObject? {
          DriveApplyAll(key, r2.obj.plus, r2.version, w2, fates);
        } else {
          assert Drive(last, w2, fates) == (w2, last.phase.result);
        }
      }
    }
  }
}
