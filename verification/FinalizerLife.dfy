/** The operator's finalizer over whole runs: user deletions, foreign finalizers, stale writes and failing calls
    included. */
module FinalizerLife {
  import opened Wrappers
  import opened PlusTypes
  import opened Api
  import opened Children
  import opened Finalizers
  import opened Reconciling

  /** `seen`: a reconcile got past the finalizer step for the object now or last stored under the key.
      `cleaned`: a reconcile read that object as deleting and ran PreDelete. */
  datatype Life = Life(p: Proc, s: Store, seen: bool, cleaned: bool)

  datatype LifeEvent =
    | Call(fate: Fate)                     // the reconciler's next call
    | UserDelete
    | UserWrite(plus: Plus)                // creates the Plus when there is none, and otherwise edits it
    | Elsewhere(key: Key, slot: Slot)

  function Now(l: Life): Slot {
    At(l.s, l.p.key)
  }

  predicate Stored(l: Life) {
    Now(l).content.Some? && Now(l).content.value.PlusObject?
  }

  function StoredPlus(l: Life): Plus
    requires Stored(l)
  {
    Now(l).content.value.plus
  }

  /** The answer lets the reconcile go on to apply the children. */
  predicate PassesFinalizer(p: Proc, r: Response) {
    || (p.phase.Fetch? && r.Found? && r.obj.PlusObject? && !r.obj.plus.deleting
        && OWN_FINALIZER in r.obj.plus.finalizers)
    || (p.phase.AddFinalizer? && r.Stored? && r.obj.PlusObject?)
  }

  function NextLife(l: Life, e: LifeEvent): Life {
    match e
    case Call(fate) =>
      var (p', s') := Act(l.p, l.s, fate);
      Life(p', s', l.seen || (Ask(l.p).Some? && PassesFinalizer(l.p, Execute(l.s, Ask(l.p).value, fate).1)),
           l.cleaned || (l.p.phase.Fetch? && p'.phase.RemoveFinalizer?))
    case UserDelete => l.(s := Put(l.s, l.p.key, Serve(Now(l), Delete).0))
    case UserWrite(plus) =>
      if Now(l).content.None?
      then Life(l.p, Put(l.s, l.p.key, Serve(Now(l), Create(PlusObject(plus))).0), false, false)
      else l.(s := Put(l.s, l.p.key, Serve(Now(l), Update(PlusObject(plus), None)).0))
    case Elsewhere(k, slot) => l.(s := Put(l.s, k, slot))
  }

  function LifeAfter(l: Life, events: seq<LifeEvent>): Life
    decreases |events|
  {
    if events == [] then l else LifeAfter(NextLife(l, events[0]), events[1..])
  }

  function OwnCount(finalizers: seq<string>): nat {
    multiset(finalizers)[OWN_FINALIZER]
  }

  /** Others leave the operator's finalizer alone, and add none to an object that is being deleted. */
  predicate Allowed(l: Life, e: LifeEvent) {
    match e
    case UserWrite(plus) =>
      if Stored(l) then
        && OwnCount(plus.finalizers) == OwnCount(StoredPlus(l).finalizers)
        && (StoredPlus(l).deleting ==> forall x | x in plus.finalizers :: x in StoredPlus(l).finalizers)
      else !plus.deleting && OwnCount(plus.finalizers) == 0
    case Elsewhere(k, _) => k != l.p.key
    case _ => true
  }

  predicate AllAllowed(l: Life, events: seq<LifeEvent>)
    decreases |events|
  {
    events == [] || (Allowed(l, events[0]) && AllAllowed(NextLife(l, events[0]), events[1..]))
  }

  /** What a reconciler holds from its last reading of the Plus: out of date, or exactly what is stored. */
  predicate ReadEarlier(slot: Slot, plus: Plus, version: nat) {
    version <= slot.version && (version == slot.version ==> slot.content == Some(PlusObject(plus)))
  }

  predicate Inv(l: Life) {
    && l.p.key.kind == PlusKind
    && (Now(l).content.Some? ==> Stored(l) && OwnCount(StoredPlus(l).finalizers) <= 1)
    && (l.seen && !l.cleaned ==> Stored(l) && OWN_FINALIZER in StoredPlus(l).finalizers)
    && (l.cleaned && Stored(l) ==> StoredPlus(l).deleting)
    && match l.p.phase
       case AddFinalizer(plus, version) =>
         ReadEarlier(Now(l), plus, version) && !plus.deleting && OWN_FINALIZER !in plus.finalizers
       case RemoveFinalizer(plus, version) =>
         && ReadEarlier(Now(l), plus, version) && plus.deleting && OWN_FINALIZER in plus.finalizers
         && (version == Now(l).version ==> l.cleaned)
       case Working(run) => l.seen && !l.cleaned && !run.plus.deleting
       case WriteStatus(_, _) => l.seen && !l.cleaned
       case _ => true
  }

  // ----- the reconciler's calls -----

  /** Where a run can be after a call: at work on the same reading of the Plus, or past it. */
  predicate Onward(phase: Phase, deleting: bool) {
    match phase
    case Working(run) => run.plus.deleting == deleting
    case WriteStatus(_, _) => true
    case Finished(_) => true
    case _ => false
  }

  lemma {:induction false} EnterPhase(run: Run)
    ensures Onward(Enter(run), run.plus.deleting)
    decreases |run.todo|
  {
    if run.todo != [] && run.todo[0] == [] {
      EnterPhase(run.(todo := run.todo[1..]));
    }
  }

  lemma NextTaskPhase(run: Run)
    requires HasTask(run)
    ensures Onward(NextTask(run), run.plus.deleting)
  {
    EnterPhase(run.(todo := [run.todo[0][1..]] + run.todo[1..], pending := None));
  }

  lemma NextStagePhase(run: Run)
    requires HasTask(run)
    ensures Onward(NextStage(run), run.plus.deleting)
  {
    EnterPhase(run.(todo := run.todo[1..], pending := None));
  }

  lemma ReadPhase(run: Run, r: Response)
    requires HasTask(run) && run.pending.None? && !r.Failed?
    ensures Onward(ResumeRun(run, r), run.plus.deleting)
  {
    match Decide(run.plus.design, HeadTask(run), View(r))
    case Skip => NextTaskPhase(run);
    case Halt => NextStagePhase(run);
    case Note(n) => NextTaskPhase(run.(plus := Noted(run.plus, HeadTask(run), n)));
    case Issue(_, _) =>
  }

  lemma RunPhase(run: Run, r: Response)
    requires HasTask(run)
    ensures Onward(ResumeRun(run, r), run.plus.deleting)
  {
    if run.pending.Some? || r.Failed? {
      NextTaskPhase(run);
      NextStagePhase(run);
      NextStagePhase(run.(plus := Failing(run.plus)));
    } else {
      ReadPhase(run, r);
    }
  }

  lemma BeginPhase(plus: Plus, version: nat)
    ensures Onward(Begin(plus, version), plus.deleting)
  {
    EnterPhase(Run(Succeeding(plus), plus.status, version, Stages(plus.design), None));
  }

  /** A conditional update of the finalizers: turned away, or made to exactly what was read. */
  lemma FinalizersOnSlot(slot: Slot, plus: Plus, finalizers: seq<string>, version: nat)
    requires ReadEarlier(slot, plus, version) && finalizers != plus.finalizers
    ensures var updated := PlusObject(plus.(finalizers := finalizers));
      var (slot', r) := Serve(slot, Update(updated, Some(version)));
      || (r.Failed? && slot' == slot)
      || (&& version == slot.version && slot.content == Some(PlusObject(plus))
          && slot' == Slot(version + 1, Retained(updated)) && r == Response.Stored(updated, version + 1))
  {
  }

  lemma OwnFinalizerMoves(plus: Plus)
    ensures WithOwn(plus).finalizers != plus.finalizers
    ensures OwnCount(WithOwn(plus).finalizers) == OwnCount(plus.finalizers) + 1
    ensures OwnCount(WithoutOwn(plus).finalizers) == 0
    ensures OWN_FINALIZER in plus.finalizers ==> WithoutOwn(plus).finalizers != plus.finalizers
  {
  }

  /** The call that registers the finalizer: it fails, or the slot holds what was read, with the finalizer. */
  lemma AddOnSlot(l: Life, fate: Fate)
    requires Inv(l) && l.p.phase.AddFinalizer?
    ensures var plus, next, r := l.p.phase.plus, NextLife(l, Call(fate)), Execute(l.s, Ask(l.p).value, fate).1;
      && (Now(next) == Now(l) || (Now(l).content == Some(PlusObject(plus))
                                  && Now(next) == Slot(Now(l).version + 1, Some(PlusObject(WithOwn(plus))))))
      && (r.Stored? && r.obj.PlusObject? ==>
            Now(next).content == Some(PlusObject(WithOwn(plus))) && r.obj.plus == WithOwn(plus))
  {
    OwnFinalizerMoves(l.p.phase.plus);
    FinalizersOnSlot(Now(l), l.p.phase.plus, WithOwn(l.p.phase.plus).finalizers, l.p.phase.version);
  }

  /** The call that takes it off. */
  lemma RemoveOnSlot(l: Life, fate: Fate)
    requires Inv(l) && l.p.phase.RemoveFinalizer?
    ensures var plus, next := l.p.phase.plus, NextLife(l, Call(fate));
      && next.p.phase.Finished? && next.seen == l.seen && next.cleaned == l.cleaned
      && (Now(next) == Now(l)
          || (Now(l) == Slot(l.p.phase.version, Some(PlusObject(plus)))
              && Now(next) == Slot(Now(l).version + 1, Retained(PlusObject(WithoutOwn(plus))))))
  {
    OwnFinalizerMoves(l.p.phase.plus);
    FinalizersOnSlot(Now(l), l.p.phase.plus, WithoutOwn(l.p.phase.plus).finalizers, l.p.phase.version);
  }

  /** Writing a status leaves the rest of the Plus as it is. */
  lemma StatusOnSlot(l: Life, fate: Fate)
    requires Inv(l) && l.p.phase.WriteStatus?
    ensures var next := NextLife(l, Call(fate));
      && next.p.phase.Finished? && next.seen == l.seen && next.cleaned == l.cleaned
      && (Now(next) == Now(l)
          || (&& Stored(l) && Stored(next) && Now(next).version == Now(l).version + 1
              && StoredPlus(next).finalizers == StoredPlus(l).finalizers
              && StoredPlus(next).deleting == StoredPlus(l).deleting))
  {
  }

  /** A call on a child leaves the Plus as it is. */
  lemma ChildOnSlot(l: Life, fate: Fate)
    requires Inv(l) && l.p.phase.Working?
    ensures var next := NextLife(l, Call(fate));
      && Now(next) == Now(l) && next.seen == l.seen && next.cleaned == l.cleaned
      && (Onward(next.p.phase, l.p.phase.run.plus.deleting) || next.p.phase.Fetch?)
  {
    if Ask(l.p).Some? {
      RunPhase(l.p.phase.run, Execute(l.s, Ask(l.p).value, fate).1);
      assert Ask(l.p).value.key != l.p.key;
    }
  }

  lemma FetchKeepsInv(l: Life, fate: Fate)
    requires Inv(l) && l.p.phase.Fetch?
    ensures Inv(NextLife(l, Call(fate)))
  {
    var r := Execute(l.s, Ask(l.p).value, fate).1;
    if r.Found? && r.obj.PlusObject? {
      BeginPhase(r.obj.plus, r.version);
    }
  }

  lemma AddKeepsInv(l: Life, fate: Fate)
    requires Inv(l) && l.p.phase.AddFinalizer?
    ensures Inv(NextLife(l, Call(fate)))
  {
    AddOnSlot(l, fate);
    OwnFinalizerMoves(l.p.phase.plus);
    var r := Execute(l.s, Ask(l.p).value, fate).1;
    if r.Stored? && r.obj.PlusObject? {
      BeginPhase(r.obj.plus, r.version);
    }
  }

  lemma RemoveKeepsInv(l: Life, fate: Fate)
    requires Inv(l) && l.p.phase.RemoveFinalizer?
    ensures Inv(NextLife(l, Call(fate)))
  {
    RemoveOnSlot(l, fate);
    OwnFinalizerMoves(l.p.phase.plus);
  }

  lemma StatusKeepsInv(l: Life, fate: Fate)
    requires Inv(l) && l.p.phase.WriteStatus?
    ensures Inv(NextLife(l, Call(fate)))
  {
    StatusOnSlot(l, fate);
  }

  lemma WorkKeepsInv(l: Life, fate: Fate)
    requires Inv(l) && l.p.phase.Working?
    ensures Inv(NextLife(l, Call(fate)))
  {
    ChildOnSlot(l, fate);
  }

  lemma FinishedKeepsInv(l: Life, fate: Fate)
    requires Inv(l) && l.p.phase.Finished?
    ensures Inv(NextLife(l, Call(fate)))
  {
  }

  lemma DeleteKeepsInv(l: Life)
    requires Inv(l)
    ensures Inv(NextLife(l, UserDelete))
  {
  }

  lemma CreateKeepsInv(l: Life, plus: Plus)
    requires Inv(l) && Allowed(l, UserWrite(plus)) && !Stored(l)
    ensures Inv(NextLife(l, UserWrite(plus)))
  {
  }

  lemma EditKeepsInv(l: Life, plus: Plus)
    requires Inv(l) && Allowed(l, UserWrite(plus)) && Stored(l)
    ensures Inv(NextLife(l, UserWrite(plus)))
  {
  }

  lemma OthersKeepInv(l: Life, e: LifeEvent)
    requires Inv(l) && Allowed(l, e) && !e.Call?
    ensures Inv(NextLife(l, e))
  {
    match e
    case UserDelete => DeleteKeepsInv(l);
    case UserWrite(plus) =>
      if Stored(l) {
        EditKeepsInv(l, plus);
      } else {
        CreateKeepsInv(l, plus);
      }
    case Elsewhere(_, _) =>
  }

  lemma EventKeepsInv(l: Life, e: LifeEvent)
    requires Inv(l) && Allowed(l, e)
    ensures Inv(NextLife(l, e))
  {
    if !e.Call? {
      OthersKeepInv(l, e);
    } else {
      match l.p.phase
      case Fetch => FetchKeepsInv(l, e.fate);
      case AddFinalizer(_, _) => AddKeepsInv(l, e.fate);
      case RemoveFinalizer(_, _) => RemoveKeepsInv(l, e.fate);
      case WriteStatus(_, _) => StatusKeepsInv(l, e.fate);
      case Working(_) => WorkKeepsInv(l, e.fate);
      case Finished(_) => FinishedKeepsInv(l, e.fate);
    }
  }

  lemma {:induction false} InvAlways(l: Life, events: seq<LifeEvent>)
    requires Inv(l) && AllAllowed(l, events)
    ensures Inv(LifeAfter(l, events))
    decreases |events|
  {
    if events != [] {
      EventKeepsInv(l, events[0]);
      InvAlways(NextLife(l, events[0]), events[1..]);
    }
  }

  // ----- what a run guarantees -----

  /** A reconciler that is about to start, over a store with no such Plus or with one that nobody has spoilt. */
  predicate Beginning(l: Life) {
    && l.p.key.kind == PlusKind && l.p.phase.Fetch? && !l.seen && !l.cleaned
    && (Now(l).content.Some? ==> Stored(l) && OwnCount(StoredPlus(l).finalizers) <= 1)
  }

  /** A Plus that a reconcile has got past the finalizer step for is gone only after a reconcile ran PreDelete for it,
      and until then it carries the finalizer; the finalizer is never there twice. */
  lemma GoneOnlyAfterPreDelete(l: Life, events: seq<LifeEvent>)
    requires Beginning(l) && AllAllowed(l, events)
    ensures var end := LifeAfter(l, events);
      && (end.seen && !Stored(end) ==> end.cleaned)
      && (end.seen && !end.cleaned ==> Stored(end) && OwnCount(StoredPlus(end).finalizers) == 1)
      && (Stored(end) ==> OwnCount(StoredPlus(end).finalizers) <= 1)
  {
    InvAlways(l, events);
  }

  /** PreDelete comes later: when a reconcile first gets past the finalizer step, it has not run,
      and the Plus is stored, live and carries the finalizer at that moment. */
  lemma AppliedOnlyWhileLive(l: Life, fate: Fate)
    requires Inv(l) && Ask(l.p).Some? && PassesFinalizer(l.p, Execute(l.s, Ask(l.p).value, fate).1)
    ensures var next := NextLife(l, Call(fate));
      && !l.cleaned && next.seen && !next.cleaned
      && Stored(next) && !StoredPlus(next).deleting && OWN_FINALIZER in StoredPlus(next).finalizers
  {
    EventKeepsInv(l, Call(fate));
    if l.p.phase.Fetch? {
      var r := Execute(l.s, Ask(l.p).value, fate).1;
      BeginPhase(r.obj.plus, r.version);
    }
  }

  /** Work on the children starts in no other way. */
  lemma WorkStartsPastFinalizer(l: Life, fate: Fate)
    requires Ask(l.p).Some? && !l.p.phase.Working? && NextLife(l, Call(fate)).p.phase.Working?
    ensures PassesFinalizer(l.p, Execute(l.s, Ask(l.p).value, fate).1)
  {
  }

  /** A reconcile that reads the Plus as deleting is at most one more call long, and that call is not on a child. */
  lemma DeletingIsNotApplied(l: Life, fate: Fate)
    requires Inv(l) && l.p.phase.Fetch? && Stored(l) && StoredPlus(l).deleting
    ensures var p := NextLife(l, Call(fate)).p;
      && (p.phase.RemoveFinalizer? || p.phase.Finished?)
      && (p.phase.RemoveFinalizer? ==> Ask(p).value.key == l.p.key)
  {
  }

  /** Said of the whole reconcile: whatever its calls' fates, every other key stays as it is. */
  lemma DeletingReconcileTouchesNoChild(key: Key, w: World, fates: Fates, k: Key)
    requires At(w.store, key).content.Some? && At(w.store, key).content.value.PlusObject?
    requires At(w.store, key).content.value.plus.deleting && k != key
    ensures At(Reconcile(key, w, fates).0.store, k) == At(w.store, k)
  {
  }

  /** Still deleting, and without the finalizer if it was without. */
  predicate StaysDeleting(l: Life, next: Life)
    requires Stored(l)
  {
    Stored(next) ==>
      && StoredPlus(next).deleting
      && (OWN_FINALIZER !in StoredPlus(l).finalizers ==> OWN_FINALIZER !in StoredPlus(next).finalizers)
  }

  lemma CallStaysDeleting(l: Life, fate: Fate)
    requires Inv(l) && Stored(l) && StoredPlus(l).deleting
    ensures StaysDeleting(l, NextLife(l, Call(fate)))
  {
    match l.p.phase
    case AddFinalizer(_, _) => AddOnSlot(l, fate);
    case RemoveFinalizer(plus, _) =>
      RemoveOnSlot(l, fate);
      OwnFinalizerMoves(plus);
    case WriteStatus(_, _) => StatusOnSlot(l, fate);
    case Working(_) => ChildOnSlot(l, fate);
    case Fetch =>
    case Finished(_) =>
  }

  /** After any event a deleting Plus is deleting still, if it is there, and without the finalizer if it was without. */
  lemma EventStaysDeleting(l: Life, e: LifeEvent)
    requires Inv(l) && Allowed(l, e) && Stored(l) && StoredPlus(l).deleting
    ensures StaysDeleting(l, NextLife(l, e))
  {
    if e.Call? {
      CallStaysDeleting(l, e.fate);
    }
  }

  /** The finalizers after a call are those before, or with the operator's appended, or without it. */
  predicate FinalizersFollow(l: Life, next: Life)
    requires Stored(l)
  {
    var f := StoredPlus(l).finalizers;
    if Stored(next) then
      || StoredPlus(next).finalizers == f || StoredPlus(next).finalizers == f + [OWN_FINALIZER]
      || StoredPlus(next).finalizers == Without(f, OWN_FINALIZER)
    else Without(f, OWN_FINALIZER) == []
  }

  lemma CallFollows(l: Life, fate: Fate)
    requires Inv(l) && Stored(l)
    ensures FinalizersFollow(l, NextLife(l, Call(fate)))
  {
    match l.p.phase
    case AddFinalizer(_, _) => AddOnSlot(l, fate);
    case RemoveFinalizer(_, _) => RemoveOnSlot(l, fate);
    case WriteStatus(_, _) => StatusOnSlot(l, fate);
    case Working(_) => ChildOnSlot(l, fate);
    case Fetch =>
    case Finished(_) =>
  }

  lemma ForeignOf(f: seq<string>)
    ensures Without(f + [OWN_FINALIZER], OWN_FINALIZER) == Without(f, OWN_FINALIZER)
    ensures Without(Without(f, OWN_FINALIZER), OWN_FINALIZER) == Without(f, OWN_FINALIZER)
  {
    WithoutConcat(f, [OWN_FINALIZER], OWN_FINALIZER);
    WithoutAbsent(Without(f, OWN_FINALIZER), OWN_FINALIZER);
  }

  /** The reconciler's calls keep the other finalizers, in their order; it never makes a Plus go while one is left. */
  lemma ForeignFinalizersKept(l: Life, fate: Fate)
    requires Inv(l) && Stored(l)
    ensures var next, foreign := NextLife(l, Call(fate)), Without(StoredPlus(l).finalizers, OWN_FINALIZER);
      if Stored(next) then Without(StoredPlus(next).finalizers, OWN_FINALIZER) == foreign else foreign == []
  {
    ForeignOf(StoredPlus(l).finalizers);
    CallFollows(l, fate);
  }

  /** One reconcile without failing calls takes the finalizer off a deleting Plus; it is gone if that was the last. */
  lemma DeletionCompletes(key: Key, w: World, fates: Fates)
    requires Calm(fates) && At(w.store, key).content.Some? && At(w.store, key).content.value.PlusObject?
    requires var plus := At(w.store, key).content.value.plus; plus.deleting && OWN_FINALIZER in plus.finalizers
    ensures var plus, foreign := At(w.store, key).content.value.plus,
                                 Without(At(w.store, key).content.value.plus.finalizers, OWN_FINALIZER);
      var (w', result) := Reconcile(key, w, fates);
      && result == Ok
      && At(w'.store, key).content
         == if foreign == [] then None else Some(PlusObject(plus.(finalizers := foreign)))
  {
  }

  // ----- children of a Plus that is deleted -----

  /** Over any run: while a reconcile is at work on the children or about to write the status, the Plus is stored and
      carries the finalizer, and PreDelete has not run for it; and the Plus that the work goes by was read live. */
  lemma WorkOnlyWhileRegistered(l: Life, events: seq<LifeEvent>)
    requires Beginning(l) && AllAllowed(l, events)
    ensures var end := LifeAfter(l, events);
      && (end.p.phase.Working? || end.p.phase.WriteStatus? ==>
            Stored(end) && OWN_FINALIZER in StoredPlus(end).finalizers && end.seen && !end.cleaned)
      && (end.p.phase.Working? ==> !end.p.phase.run.plus.deleting)
  {
    InvAlways(l, events);
  }

  /** So no child is written once the Plus is gone, or once PreDelete has run for it. */
  lemma ChildWrittenOnlyWhileRegistered(l: Life, events: seq<LifeEvent>, fate: Fate, k: Key)
    requires Beginning(l) && AllAllowed(l, events)
    requires var end := LifeAfter(l, events);
      k != end.p.key && At(NextLife(end, Call(fate)).s, k) != At(end.s, k)
    ensures var end := LifeAfter(l, events);
      end.p.phase.Working? && Stored(end) && OWN_FINALIZER in StoredPlus(end).finalizers && !end.cleaned
  {
    InvAlways(l, events);
    if !LifeAfter(l, events).p.phase.Working? {
      OnlyWorkTouchesChildren(LifeAfter(l, events), fate, k);
    }
  }

  lemma OnlyWorkTouchesChildren(l: Life, fate: Fate, k: Key)
    requires k != l.p.key && !l.p.phase.Working?
    ensures At(NextLife(l, Call(fate)).s, k) == At(l.s, k)
  {
  }

  /** The state after the first i events. */
  function Moment(l: Life, events: seq<LifeEvent>, i: nat): Life
    requires i <= |events|
  {
    LifeAfter(l, events[..i])
  }

  lemma {:induction false} MomentTail(l: Life, events: seq<LifeEvent>, i: nat)
    requires 0 < i <= |events|
    ensures Moment(l, events, i) == Moment(NextLife(l, events[0]), events[1..], i - 1)
  {
    assert events[..i][1..] == events[1..][..i - 1];
  }

  /** Each moment follows from the one before by an allowed event, and keeps the invariant. */
  lemma {:induction false} MomentStep(l: Life, events: seq<LifeEvent>, i: nat)
    requires Inv(l) && AllAllowed(l, events) && i < |events|
    ensures Inv(Moment(l, events, i)) && Allowed(Moment(l, events, i), events[i])
    ensures Moment(l, events, i + 1) == NextLife(Moment(l, events, i), events[i])
    decreases i
  {
    MomentTail(l, events, i + 1);
    EventKeepsInv(l, events[0]);
    if i > 0 {
      MomentTail(l, events, i);
      MomentStep(NextLife(l, events[0]), events[1..], i - 1);
    }
  }

  /** The Plus is being deleted and has lost the operator's finalizer. */
  predicate Released(l: Life) {
    Stored(l) && StoredPlus(l).deleting && OWN_FINALIZER !in StoredPlus(l).finalizers
  }

  lemma ReleasedStep(l: Life, events: seq<LifeEvent>, i: nat, j: nat)
    requires Inv(l) && AllAllowed(l, events) && i < j <= |events| && j == i + 1
    requires Released(Moment(l, events, i)) && Stored(Moment(l, events, j))
    ensures Released(Moment(l, events, j))
  {
    MomentStep(l, events, i);
    EventStaysDeleting(Moment(l, events, i), events[i]);
  }

  /** Over any run: from the moment at which a Plus is being deleted without the operator's finalizer until it is gone,
      it is being deleted and never has the finalizer, stale writes included. */
  lemma DeletingNeverRegains(l: Life, events: seq<LifeEvent>, from: nat, n: nat)
    requires Beginning(l) && AllAllowed(l, events) && from <= n <= |events|
    requires Released(Moment(l, events, from))
    requires forall m: nat | from <= m <= n :: Stored(Moment(l, events, m))
    ensures Released(Moment(l, events, n))
  {
    var i := from;
    while i != n
      invariant from <= i <= n && Released(Moment(l, events, i))
      decreases n - i
    {
      var j := i + 1;
      assert Stored(Moment(l, events, j));
      ReleasedStep(l, events, i, j);
      i := j;
    }
  }

  predicate AtWork(l: Life) {
    l.p.phase.Working?
  }

  predicate Deleting(l: Life) {
    Stored(l) && StoredPlus(l).deleting
  }

  /** A reconcile at work meets a deleting Plus only if it was at work before and the Plus was deleting already or is
      deleted now. */
  lemma WorkMeetsDeletion(l: Life, e: LifeEvent)
    requires Inv(l) && Allowed(l, e) && AtWork(NextLife(l, e)) && Deleting(NextLife(l, e))
    ensures AtWork(l) && (Deleting(l) || e.UserDelete?)
  {
    if e.Call? {
      if AtWork(l) {
        ChildOnSlot(l, e.fate);
      } else if Ask(l.p).Some? {
        WorkStartsPastFinalizer(l, e.fate);
        AppliedOnlyWhileLive(l, e.fate);
      }
    }
  }

  lemma WorkKeepsMeeting(l: Life, e: LifeEvent)
    requires Inv(l) && Allowed(l, e) && Deleting(l) && AtWork(NextLife(l, e))
    ensures Deleting(NextLife(l, e))
  {
    EventKeepsInv(l, e);
    EventStaysDeleting(l, e);
  }

  /** The user deletes the Plus as event i, in the middle of the work that still goes on after all the events; it was
      live until then. */
  ghost predicate DeletedDuringWork(l: Life, events: seq<LifeEvent>, i: nat)
    requires i < |events|
  {
    && events[i].UserDelete? && !Deleting(Moment(l, events, i))
    && forall j | i <= j <= |events| :: AtWork(Moment(l, events, j))
  }

  lemma WorkBefore(l: Life, events: seq<LifeEvent>, n: nat)
    requires Beginning(l) && AllAllowed(l, events) && 0 < n <= |events|
    requires AtWork(Moment(l, events, n)) && Deleting(Moment(l, events, n))
    ensures AtWork(Moment(l, events, n - 1))
    ensures Deleting(Moment(l, events, n - 1)) || events[n - 1].UserDelete?
  {
    MomentStep(l, events, n - 1);
    WorkMeetsDeletion(Moment(l, events, n - 1), events[n - 1]);
  }

  lemma {:induction false} DeletionCameDuringWork(l: Life, events: seq<LifeEvent>, n: nat) returns (i: nat)
    requires Beginning(l) && AllAllowed(l, events) && n <= |events|
    requires AtWork(Moment(l, events, n)) && Deleting(Moment(l, events, n))
    ensures i < n && events[i].UserDelete? && !Deleting(Moment(l, events, i))
    ensures forall j | i <= j <= n :: AtWork(Moment(l, events, j))
    decreases n
  {
    WorkBefore(l, events, n);
    if Deleting(Moment(l, events, n - 1)) {
      i := DeletionCameDuringWork(l, events, n - 1);
    } else {
      i := n - 1;
    }
  }

  lemma DeletionTakesHold(l: Life, events: seq<LifeEvent>, i: nat)
    requires Beginning(l) && AllAllowed(l, events) && i < |events| && events[i].UserDelete?
    requires AtWork(Moment(l, events, i))
    ensures Deleting(Moment(l, events, i + 1))
  {
    MomentStep(l, events, i);
  }

  lemma DeletionLastsStep(l: Life, events: seq<LifeEvent>, j: nat)
    requires Beginning(l) && AllAllowed(l, events) && j < |events|
    requires Deleting(Moment(l, events, j)) && AtWork(Moment(l, events, j + 1))
    ensures Deleting(Moment(l, events, j + 1))
  {
    MomentStep(l, events, j);
    WorkKeepsMeeting(Moment(l, events, j), events[j]);
  }

  lemma DeletionLasts(l: Life, events: seq<LifeEvent>, i: nat)
    requires Beginning(l) && AllAllowed(l, events) && i < |events| && DeletedDuringWork(l, events, i)
    ensures Deleting(Moment(l, events, |events|))
  {
    assert AtWork(Moment(l, events, i));
    DeletionTakesHold(l, events, i);
    for j := i + 1 to |events|
      invariant Deleting(Moment(l, events, j))
    {
      assert AtWork(Moment(l, events, j + 1));
      DeletionLastsStep(l, events, j);
    }
  }

  /** A reconcile works on the children of a deleting Plus exactly when it got past the finalizer step with the Plus
      live and the user deleted it in the middle of that work. */
  lemma WorkOnDeletingIff(l: Life, events: seq<LifeEvent>)
    requires Beginning(l) && AllAllowed(l, events) && AtWork(LifeAfter(l, events))
    ensures Deleting(LifeAfter(l, events)) <==>
      exists i: nat | i < |events| :: DeletedDuringWork(l, events, i)
  {
    assert events[..|events|] == events;
    if Deleting(LifeAfter(l, events)) {
      var i := DeletionCameDuringWork(l, events, |events|);
      assert DeletedDuringWork(l, events, i);
    }
    forall i: nat | i < |events| && DeletedDuringWork(l, events, i)
      ensures Deleting(LifeAfter(l, events))
    {
      DeletionLasts(l, events, i);
    }
  }

  /** Such a deletion does not stop the work: the next call does to every other key what it would have done. */
  lemma DeletionDoesNotStopWork(l: Life, fate: Fate, k: Key)
    requires Inv(l) && AtWork(l) && k != l.p.key
    ensures var deleted := NextLife(l, UserDelete);
      && Deleting(deleted) && deleted.p == l.p
      && At(NextLife(deleted, Call(fate)).s, k) == At(NextLife(l, Call(fate)).s, k)
  {
    if Ask(l.p).Some? {
      assert Ask(l.p).value.key != l.p.key;
    }
  }
}
