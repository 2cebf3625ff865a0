/** What a reconciler between two of its API calls can look like, and which keys it may still touch. */
module Phases {
  import opened Wrappers
  import opened PlusTypes
  import opened Api
  import opened Children
  import opened Finalizers
  import opened Reconciling
  import opened CalmReconciles

  /** The work left is a tail of the work there is: finished stages gone, the first one possibly begun. */
  predicate Ahead(d: Design, todo: seq<seq<Task>>) {
    && |todo| <= 6
    && (todo != [] ==>
          var stage := Stages(d)[6 - |todo|];
          && |todo[0]| <= |stage| && todo[0] == stage[|stage| - |todo[0]|..]
          && todo[1..] == Stages(d)[7 - |todo|..])
  }

  /** A phase that a reconciler of a Plus with this design can be in. */
  ghost predicate Sound(d: Design, p: Proc) {
    && p.key == PlusKey(d)
    && match p.phase
       case Fetch => true
       case AddFinalizer(plus, _) => plus.design == d && !plus.deleting && OWN_FINALIZER !in plus.finalizers
       case RemoveFinalizer(plus, _) => plus.design == d && plus.deleting && OWN_FINALIZER in plus.finalizers
       case Working(run) => run.plus.design == d && HasTask(run) && Ahead(d, run.todo)
       case WriteStatus(plus, _) => plus.design == d
       case Finished(_) => true
  }

  /** The Plus, while it is stored, has this design. */
  predicate Designed(d: Design, s: Store) {
    var content := At(s, PlusKey(d)).content;
    content.Some? && content.value.PlusObject? ==> content.value.plus.design == d
  }

  lemma {:induction false} EnterSound(key: Key, d: Design, run: Run)
    requires key == PlusKey(d) && run.plus.design == d && Ahead(d, run.todo)
    ensures Sound(d, Proc(key, Enter(run)))
    decreases |run.todo|
  {
    if run.todo != [] && run.todo[0] == [] {
      EnterSound(key, d, run.(todo := run.todo[1..]));
    }
  }

  lemma BeginSound(key: Key, plus: Plus, version: nat)
    requires key == PlusKey(plus.design)
    ensures Sound(plus.design, Proc(key, Begin(plus, version)))
  {
    EnterSound(key, plus.design, Run(Succeeding(plus), plus.status, version, Stages(plus.design), None));
  }

  lemma NextTaskSound(key: Key, d: Design, run: Run)
    requires key == PlusKey(d) && run.plus.design == d && HasTask(run) && Ahead(d, run.todo)
    ensures Sound(d, Proc(key, NextTask(run)))
  {
    assert ([run.todo[0][1..]] + run.todo[1..])[1..] == run.todo[1..];
    EnterSound(key, d, run.(todo := [run.todo[0][1..]] + run.todo[1..], pending := None));
  }

  lemma NextStageSound(key: Key, d: Design, run: Run)
    requires key == PlusKey(d) && run.plus.design == d && HasTask(run) && Ahead(d, run.todo)
    ensures Sound(d, Proc(key, NextStage(run)))
  {
    EnterSound(key, d, run.(todo := run.todo[1..], pending := None));
  }

  lemma ResumeReadSound(key: Key, d: Design, run: Run, r: Response)
    requires key == PlusKey(d) && run.plus.design == d && HasTask(run) && Ahead(d, run.todo)
    requires run.pending.None? && !r.Failed?
    ensures Sound(d, Proc(key, ResumeRun(run, r)))
  {
    match Decide(run.plus.design, HeadTask(run), View(r))
    case Skip => NextTaskSound(key, d, run);
    case Halt => NextStageSound(key, d, run);
    case Note(n) => NextTaskSound(key, d, run.(plus := Noted(run.plus, HeadTask(run), n)));
    case Issue(_, _) =>
  }

  lemma ResumeRunSound(key: Key, d: Design, run: Run, r: Response)
    requires key == PlusKey(d) && run.plus.design == d && HasTask(run) && Ahead(d, run.todo)
    ensures Sound(d, Proc(key, ResumeRun(run, r)))
  {
    if run.pending.Some? || r.Failed? {
      NextTaskSound(key, d, run);
      NextStageSound(key, d, run);
      NextStageSound(key, d, run.(plus := Failing(run.plus)));
    } else {
      ResumeReadSound(key, d, run, r);
    }
  }

  /** Every answer leads from a sound phase to a sound one, if the Plus it may carry has the design. */
  lemma ResumeSound(d: Design, p: Proc, r: Response)
    requires Sound(d, p)
    requires r.Found? && r.obj.PlusObject? && p.phase.Fetch? ==> r.obj.plus.design == d
    requires r.Stored? && r.obj.PlusObject? && p.phase.AddFinalizer? ==> r.obj.plus.design == d
    ensures Sound(d, Proc(p.key, Resume(p, r)))
  {
    match p.phase
    case Fetch =>
      if r.Found? && r.obj.PlusObject? {
        BeginSound(p.key, r.obj.plus, r.version);
      }
    case AddFinalizer(_, _) =>
      if r.Stored? && r.obj.PlusObject? {
        BeginSound(p.key, r.obj.plus, r.version);
      }
    case Working(run) => ResumeRunSound(p.key, d, run, r);
    case RemoveFinalizer(_, _) =>
    case WriteStatus(_, _) =>
    case Finished(_) =>
  }

  // ----- the keys a Plus owns -----

  /** The Plus itself, and everything getOwnResources may touch for it. */
  ghost predicate Owns(d: Design, k: Key) {
    && k.ns == d.ns
    && match k.kind
       case PlusKind => k.name == d.name
       case ServiceKind => k.name == d.name
       case DestinationRuleKind => k.name == d.name
       case VirtualServiceKind => k.name == d.name || (d.spec.gateway.Some? && k.name == d.name + "-gateway")
       case DeploymentKind => exists app | app in d.spec.apps :: AppName(d, app) == k.name
       case AutoscalerKind => exists app | app in d.spec.apps :: AppName(d, app) == k.name
  }

  lemma StageTasksOwned(d: Design, i: nat, t: Task)
    requires i < 6 && t in Stages(d)[i]
    ensures Owns(d, KeyOf(d, t)) && KeyOf(d, t).kind != PlusKind
  {
  }

  lemma HeadIsAhead(d: Design, run: Run)
    requires HasTask(run) && Ahead(d, run.todo)
    ensures HeadTask(run) in Stages(d)[6 - |run.todo|]
  {
    var stage := Stages(d)[6 - |run.todo|];
    assert HeadTask(run) == stage[|stage| - |run.todo[0]|];
  }

  /** Every request goes to a key of the Plus. */
  lemma AsksOwnKey(d: Design, p: Proc)
    requires Sound(d, p) && Ask(p).Some?
    ensures Owns(d, Ask(p).value.key)
    ensures p.phase.Working? <==> Ask(p).value.key.kind != PlusKind
    ensures Ask(p).value.key.kind == PlusKind ==> Ask(p).value.key == PlusKey(d)
  {
    if p.phase.Working? {
      HeadIsAhead(d, p.phase.run);
      StageTasksOwned(d, 6 - |p.phase.run.todo|, HeadTask(p.phase.run));
    }
  }

  predicate HasDesign(d: Design, o: Object) {
    o.PlusObject? ==> o.plus.design == d
  }

  /** Requests that carry the design, or no object, leave it as it is, and answer with it. */
  lemma ServeKeepsDesign(d: Design, slot: Slot, verb: Verb)
    requires slot.content.Some? ==> HasDesign(d, slot.content.value)
    requires verb.Get? || verb.PutStatus? || (verb.Update? && verb.obj.PlusObject? && HasDesign(d, verb.obj))
    ensures var (slot', r) := Serve(slot, verb);
      && (slot'.content.Some? ==> HasDesign(d, slot'.content.value))
      && (r.Found? || r.Stored? ==> HasDesign(d, r.obj))
  {
  }

  lemma PlusCallSound(d: Design, p: Proc, s: Store, fate: Fate)
    requires Sound(d, p) && Designed(d, s) && Ask(p).Some? && !p.phase.Working?
    ensures Sound(d, Act(p, s, fate).0) && Designed(d, Act(p, s, fate).1)
  {
    ServeKeepsDesign(d, At(s, p.key), Ask(p).value.verb);
    ResumeSound(d, p, Execute(s, Ask(p).value, fate).1);
  }

  lemma TaskCallSound(d: Design, p: Proc, s: Store, fate: Fate)
    requires Sound(d, p) && Designed(d, s) && Ask(p).Some? && p.phase.Working?
    ensures Sound(d, Act(p, s, fate).0) && Designed(d, Act(p, s, fate).1)
  {
    AsksOwnKey(d, p);
    ExecuteFrame(s, Ask(p).value, fate);
    ResumeSound(d, p, Execute(s, Ask(p).value, fate).1);
  }

  /** A call leaves the reconciler in a sound phase, and the Plus with its design. */
  lemma ActSound(d: Design, p: Proc, s: Store, fate: Fate)
    requires Sound(d, p) && Designed(d, s)
    ensures Sound(d, Act(p, s, fate).0) && Designed(d, Act(p, s, fate).1)
  {
    if Ask(p).Some? {
      if p.phase.Working? {
        TaskCallSound(d, p, s, fate);
      } else {
        PlusCallSound(d, p, s, fate);
      }
    }
  }

  lemma ActFrame(d: Design, p: Proc, s: Store, fate: Fate, k: Key)
    requires Sound(d, p) && !Owns(d, k)
    ensures At(Act(p, s, fate).1, k) == At(s, k)
  {
    if Ask(p).Some? {
      AsksOwnKey(d, p);
      ExecuteFrame(s, Ask(p).value, fate);
    }
  }
}
