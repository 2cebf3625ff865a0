/** Pluses reconciled concurrently: when no two of them own a key in common, the order of their calls does not
    matter. */
module Interference {
  import opened PlusTypes
  import opened Api
  import opened Children
  import opened Reconciling
  import opened Settling
  import opened CalmReconciles
  import opened Phases

  // ----- interleavings -----

  /** Whose call comes next, and its fate. */
  datatype Turn = Turn(who: nat, fate: Fate)

  /** Any number of reconcilers on one store. */
  datatype Group = Group(procs: seq<Proc>, store: Store)

  function Take(c: Group, t: Turn): Group {
    if t.who < |c.procs| then
      var (p', s') := Act(c.procs[t.who], c.store, t.fate);
      Group(c.procs[t.who := p'], s')
    else c
  }

  function Interleave(c: Group, turns: seq<Turn>): Group
    decreases |turns|
  {
    if turns == [] then c else Interleave(Take(c, turns[0]), turns[1..])
  }

  /** The fates of one reconciler's calls, in order. */
  function FatesOf(turns: seq<Turn>, who: nat): seq<Fate> {
    if turns == [] then []
    else (if turns[0].who == who then [turns[0].fate] else []) + FatesOf(turns[1..], who)
  }

  /** The same calls, but one reconciler after the other, from number i on. */
  function InOrder(c: Group, turns: seq<Turn>, i: nat): Group
    requires i <= |c.procs|
    decreases |c.procs| - i
  {
    if i == |c.procs| then c
    else
      var (p', s') := Acts(c.procs[i], c.store, FatesOf(turns, i));
      InOrder(Group(c.procs[i := p'], s'), turns, i + 1)
  }

  // ----- calls on different keys commute -----

  lemma PutsCommute(s: Store, k1: Key, v1: Slot, k2: Key, v2: Slot)
    requires k1 != k2
    ensures Put(Put(s, k1, v1), k2, v2) == Put(Put(s, k2, v2), k1, v1)
  {
  }

  lemma ExecutesCommute(s: Store, r1: Request, f1: Fate, r2: Request, f2: Fate)
    requires r1.key != r2.key
    ensures Execute(Execute(s, r1, f1).0, r2, f2).1 == Execute(s, r2, f2).1
    ensures Execute(Execute(s, r1, f1).0, r2, f2).0 == Execute(Execute(s, r2, f2).0, r1, f1).0
  {
    PutsCommute(s, r1.key, Serve(At(s, r1.key), r1.verb).0, r2.key, Serve(At(s, r2.key), r2.verb).0);
  }

  /** No key belongs to both. */
  ghost predicate Apart(d1: Design, d2: Design) {
    forall k :: !(Owns(d1, k) && Owns(d2, k))
  }

  lemma AsksApart(d1: Design, d2: Design, a: Proc, b: Proc)
    requires Apart(d1, d2) && Sound(d1, a) && Sound(d2, b) && Ask(a).Some? && Ask(b).Some?
    ensures Ask(a).value.key != Ask(b).value.key
  {
    AsksOwnKey(d1, a);
    AsksOwnKey(d2, b);
  }

  /** One call of each side, in either order, gives the same two reconcilers and the same store. */
  lemma ActsCommute(d1: Design, d2: Design, a: Proc, b: Proc, s: Store, fa: Fate, fb: Fate)
    requires Apart(d1, d2) && Sound(d1, a) && Sound(d2, b)
    ensures var sa, sb := Act(a, s, fa).1, Act(b, s, fb).1;
      && Act(a, sb, fa).0 == Act(a, s, fa).0
      && Act(b, sa, fb).0 == Act(b, s, fb).0
      && Act(a, sb, fa).1 == Act(b, sa, fb).1
  {
    if Ask(a).Some? && Ask(b).Some? {
      AsksApart(d1, d2, a, b);
      ExecutesCommute(s, Ask(a).value, fa, Ask(b).value, fb);
      ExecutesCommute(s, Ask(b).value, fb, Ask(a).value, fa);
    }
  }

  /** A sound reconciler of a Plus that keeps its design. */
  ghost predicate Ready(d: Design, p: Proc, s: Store) {
    Sound(d, p) && Designed(d, s)
  }

  /** A call keeps its own reconciler ready, and every other. */
  lemma ActReady(d1: Design, d2: Design, a: Proc, b: Proc, s: Store, fate: Fate)
    requires Apart(d1, d2) && Ready(d1, a, s) && Ready(d2, b, s)
    ensures Ready(d1, Act(a, s, fate).0, Act(a, s, fate).1) && Ready(d2, b, Act(a, s, fate).1)
  {
    assert Owns(d2, PlusKey(d2));
    ActSound(d1, a, s, fate);
    ActFrame(d1, a, s, fate, PlusKey(d2));
  }

  /** One call of one reconciler may be put off until another has made any number of calls. */
  lemma {:induction false} ActPastActs(d1: Design, d2: Design, a: Proc, b: Proc, s: Store, fates: seq<Fate>, fb: Fate)
    requires Apart(d1, d2) && Ready(d1, a, s) && Ready(d2, b, s)
    ensures var (a', sa) := Acts(a, s, fates);
      && Acts(a, Act(b, s, fb).1, fates) == (a', Act(b, sa, fb).1)
      && Act(b, sa, fb).0 == Act(b, s, fb).0
    decreases |fates|
  {
    if fates != [] {
      var (a1, s1) := Act(a, s, fates[0]);
      ActsCommute(d1, d2, a, b, s, fates[0], fb);
      ActReady(d1, d2, a, b, s, fates[0]);
      ActPastActs(d1, d2, a1, b, s1, fates[1..], fb);
    }
  }

  lemma {:induction false} ActsReady(d1: Design, d2: Design, a: Proc, b: Proc, s: Store, fates: seq<Fate>)
    requires Apart(d1, d2) && Ready(d1, a, s) && Ready(d2, b, s)
    ensures Ready(d1, Acts(a, s, fates).0, Acts(a, s, fates).1) && Ready(d2, b, Acts(a, s, fates).1)
    decreases |fates|
  {
    if fates != [] {
      var (a1, s1) := Act(a, s, fates[0]);
      ActReady(d1, d2, a, b, s, fates[0]);
      ActsReady(d1, d2, a1, b, s1, fates[1..]);
    }
  }

  ghost predicate PairwiseApart(ds: seq<Design>) {
    forall i, j | 0 <= i < |ds| && 0 <= j < |ds| && i != j :: Apart(ds[i], ds[j])
  }

  /** One ready reconciler for each of these Pluses, no two of which own a key in common. */
  ghost predicate AllReady(ds: seq<Design>, c: Group) {
    |ds| == |c.procs| && PairwiseApart(ds) && forall i | 0 <= i < |ds| :: Ready(ds[i], c.procs[i], c.store)
  }

  lemma AllReadyAfterActs(ds: seq<Design>, c: Group, i: nat, fates: seq<Fate>)
    requires AllReady(ds, c) && i < |ds|
    ensures var (p', s') := Acts(c.procs[i], c.store, fates); AllReady(ds, Group(c.procs[i := p'], s'))
  {
    var (p', s') := Acts(c.procs[i], c.store, fates);
    var procs := c.procs[i := p'];
    forall j | 0 <= j < |ds|
      ensures Ready(ds[j], procs[j], s')
    {
      if j == i {
        ActsSound(ds[i], c.procs[i], c.store, fates);
      } else {
        ActsReady(ds[i], ds[j], c.procs[i], c.procs[j], c.store, fates);
      }
    }
  }

  lemma {:induction false} ActsSound(d: Design, p: Proc, s: Store, fates: seq<Fate>)
    requires Ready(d, p, s)
    ensures Ready(d, Acts(p, s, fates).0, Acts(p, s, fates).1)
    decreases |fates|
  {
    if fates != [] {
      var (p', s') := Act(p, s, fates[0]);
      ActSound(d, p, s, fates[0]);
      ActsSound(d, p', s', fates[1..]);
    }
  }

  lemma TakeIsActs(c: Group, t: Turn)
    requires t.who < |c.procs|
    ensures var (p', s') := Acts(c.procs[t.who], c.store, [t.fate]); Take(c, t) == Group(c.procs[t.who := p'], s')
  {
    var (p', s') := Act(c.procs[t.who], c.store, t.fate);
    assert Acts(p', s', [t.fate][1..]) == (p', s');
  }

  lemma TakeReady(ds: seq<Design>, c: Group, t: Turn)
    requires AllReady(ds, c)
    ensures AllReady(ds, Take(c, t))
  {
    if t.who < |c.procs| {
      TakeIsActs(c, t);
      AllReadyAfterActs(ds, c, t.who, [t.fate]);
    }
  }

  lemma FatesOfFirst(turns: seq<Turn>, who: nat)
    requires turns != []
    ensures FatesOf(turns, who)
         == if turns[0].who == who then [turns[0].fate] + FatesOf(turns[1..], who) else FatesOf(turns[1..], who)
  {
  }

  /** A first turn that none of the reconcilers from i on takes does not matter to them. */
  lemma {:induction false} InOrderWithout(c: Group, turns: seq<Turn>, i: nat)
    requires turns != [] && i <= |c.procs| && !(i <= turns[0].who < |c.procs|)
    ensures InOrder(c, turns, i) == InOrder(c, turns[1..], i)
    decreases |c.procs| - i
  {
    if i < |c.procs| {
      FatesOfFirst(turns, i);
      var (p', s') := Acts(c.procs[i], c.store, FatesOf(turns, i));
      InOrderWithout(Group(c.procs[i := p'], s'), turns, i + 1);
    }
  }

  /** The group once reconciler i has made all its calls. */
  function RunOne(c: Group, i: nat, fates: seq<Fate>): Group
    requires i < |c.procs|
  {
    var (p', s') := Acts(c.procs[i], c.store, fates);
    Group(c.procs[i := p'], s')
  }

  lemma InOrderUnfold(c: Group, turns: seq<Turn>, i: nat)
    requires i < |c.procs|
    ensures InOrder(c, turns, i) == InOrder(RunOne(c, i, FatesOf(turns, i)), turns, i + 1)
  {
  }

  lemma InOrderStep(c: Group, turns: seq<Turn>, i: nat, j: nat, r: Group)
    requires i < j <= |c.procs| && j == i + 1 && r == RunOne(c, i, FatesOf(turns, i))
    ensures |r.procs| == |c.procs| && InOrder(c, turns, i) == InOrder(r, turns, j)
  {
    InOrderUnfold(c, turns, i);
    assert i + 1 == j;
  }

  /** Two groups go on alike if they are alike once reconciler i has run. */
  lemma GoOnAlike(c: Group, turns: seq<Turn>, r: Group, n: Group, rest: seq<Turn>, m: Group, i: nat, j: nat)
    requires i < j <= |c.procs| == |n.procs| == |r.procs| == |m.procs| && j == i + 1
    requires r == RunOne(c, i, FatesOf(turns, i)) && m == RunOne(n, i, FatesOf(rest, i))
    requires InOrder(r, turns, j) == InOrder(m, rest, j)
    ensures InOrder(c, turns, i) == InOrder(n, rest, i)
  {
    InOrderStep(c, turns, i, j, r);
    InOrderStep(n, rest, i, j, m);
  }

  lemma OwnTurnRuns(c: Group, turns: seq<Turn>, i: nat, n: Group) returns (r: Group)
    requires turns != [] && i == turns[0].who < |c.procs| && n == Take(c, turns[0])
    ensures |r.procs| == |n.procs| == |c.procs|
    ensures r == RunOne(c, i, FatesOf(turns, i)) && r == RunOne(n, i, FatesOf(turns[1..], i))
  {
    FatesOfFirst(turns, i);
    assert FatesOf(turns, i)[1..] == FatesOf(turns[1..], i);
    var p' := Acts(c.procs[i], c.store, FatesOf(turns, i)).0;
    assert n.procs[i := p'] == c.procs[i := p'];
    r := RunOne(c, i, FatesOf(turns, i));
  }

  /** When it is the first turn's own reconciler's turn in order, that turn may as well have come before. */
  lemma OwnTurnFirst(c: Group, turns: seq<Turn>, i: nat, n: Group)
    requires turns != [] && i == turns[0].who < |c.procs| && n == Take(c, turns[0])
    ensures |n.procs| == |c.procs| && InOrder(c, turns, i) == InOrder(n, turns[1..], i)
  {
    var r := OwnTurnRuns(c, turns, i, n);
    var j := i + 1;
    InOrderWithout(r, turns, j);
    GoOnAlike(c, turns, r, n, turns[1..], r, i, j);
  }

  lemma UpdatesCommute(procs: seq<Proc>, i: nat, a: Proc, w: nat, b: Proc)
    requires i < |procs| && w < |procs| && i != w
    ensures procs[i := a][w := b] == procs[w := b][i := a]
  {
  }

  lemma TurnPastRun(ds: seq<Design>, c: Group, turns: seq<Turn>, i: nat, n: Group) returns (r: Group, m: Group)
    requires AllReady(ds, c) && turns != [] && i < turns[0].who < |c.procs| && n == Take(c, turns[0])
    ensures |m.procs| == |r.procs| == |n.procs| == |c.procs| && AllReady(ds, r) && m == Take(r, turns[0])
    ensures r == RunOne(c, i, FatesOf(turns, i)) && m == RunOne(n, i, FatesOf(turns[1..], i))
  {
    var w, fates := turns[0].who, FatesOf(turns, i);
    FatesOfFirst(turns, i);
    ActPastActs(ds[i], ds[w], c.procs[i], c.procs[w], c.store, fates, turns[0].fate);
    AllReadyAfterActs(ds, c, i, fates);
    r := RunOne(c, i, fates);
    m := Take(r, turns[0]);
    UpdatesCommute(c.procs, i, Acts(c.procs[i], c.store, fates).0, w, Act(c.procs[w], c.store, turns[0].fate).0);
  }

  /** The first turn may be put off past all the calls of the reconcilers from i to its own. */
  lemma {:induction false} FirstTurnPutOff(ds: seq<Design>, c: Group, turns: seq<Turn>, i: nat, n: Group)
    requires AllReady(ds, c) && turns != [] && i <= turns[0].who < |c.procs| && n == Take(c, turns[0])
    ensures |n.procs| == |c.procs| && InOrder(c, turns, i) == InOrder(n, turns[1..], i)
    decreases turns[0].who - i
  {
    if i == turns[0].who {
      OwnTurnFirst(c, turns, i, n);
    } else {
      var r, m := TurnPastRun(ds, c, turns, i, n);
      var j := i + 1;
      FirstTurnPutOff(ds, r, turns, j, m);
      GoOnAlike(c, turns, r, n, turns[1..], m, i, j);
    }
  }

  /** Every interleaving of any number of reconcilers ends like running them one after the other. */
  lemma {:induction false} InterleavingIsSequential(ds: seq<Design>, c: Group, turns: seq<Turn>)
    requires AllReady(ds, c)
    ensures Interleave(c, turns) == InOrder(c, turns, 0)
    decreases |turns|
  {
    if turns == [] {
      NothingInOrder(c, 0);
    } else {
      TakeReady(ds, c, turns[0]);
      InterleavingIsSequential(ds, Take(c, turns[0]), turns[1..]);
      if turns[0].who < |c.procs| {
        FirstTurnPutOff(ds, c, turns, 0, Take(c, turns[0]));
      } else {
        InOrderWithout(c, turns, 0);
      }
    }
  }

  lemma {:induction false} NothingInOrder(c: Group, i: nat)
    requires i <= |c.procs|
    ensures InOrder(c, [], i) == c
    decreases |c.procs| - i
  {
    if i < |c.procs| {
      assert c.procs[i := c.procs[i]] == c.procs;
      NothingInOrder(c, i + 1);
    }
  }

  // ----- the same, said about whole reconciles -----

  /** These calls are exactly one reconcile. */
  ghost predicate Whole(p: Proc, s: Store, fates: seq<Fate>)
    decreases |fates|
  {
    if fates == [] then Ask(p).None?
    else
      var (p', s') := Act(p, s, fates[0]);
      Ask(p).Some? && Whole(p', s', fates[1..])
  }

  /** The fates of a client's calls, from the call with this number on. */
  ghost predicate Numbered(fates: Fates, from: nat, calls: seq<Fate>) {
    forall i | 0 <= i < |calls| :: fates(from + i) == calls[i]
  }

  lemma NumberedTail(fates: Fates, from: nat, calls: seq<Fate>)
    requires Numbered(fates, from, calls) && calls != []
    ensures fates(from) == calls[0] && Numbered(fates, from + 1, calls[1..])
  {
    assert fates(from + 0) == calls[0];
    forall i | 0 <= i < |calls[1..]|
      ensures fates(from + 1 + i) == calls[1..][i]
    {
      assert fates(from + (i + 1)) == calls[i + 1];
    }
  }

  lemma NumberedSplit(fates: Fates, from: nat, first: seq<Fate>, second: seq<Fate>)
    requires Numbered(fates, from, first + second)
    ensures Numbered(fates, from, first) && Numbered(fates, from + |first|, second)
  {
    forall i | 0 <= i < |first|
      ensures fates(from + i) == first[i]
    {
      assert (first + second)[i] == first[i];
    }
    forall i | 0 <= i < |second|
      ensures fates(from + |first| + i) == second[i]
    {
      assert (first + second)[|first| + i] == second[i];
      assert fates(from + (|first| + i)) == (first + second)[|first| + i];
    }
  }

  lemma {:induction false} WholeIsDrive(p: Proc, w: World, calls: seq<Fate>, fates: Fates)
    requires Whole(p, w.store, calls) && Numbered(fates, w.calls, calls)
    ensures Drive(p, w, fates).0 == World(Acts(p, w.store, calls).1, w.calls + |calls|)
    decreases |calls|
  {
    if calls != [] {
      NumberedTail(fates, w.calls, calls);
      DriveActs(p, w, fates);
      var (p', s') := Act(p, w.store, calls[0]);
      WholeIsDrive(p', World(s', w.calls + 1), calls[1..], fates);
    }
  }

  /** Each reconciler from i on makes exactly the calls of one reconcile, on the store it meets in this order. */
  ghost predicate WholeInOrder(c: Group, turns: seq<Turn>, i: nat)
    requires i <= |c.procs|
    decreases |c.procs| - i
  {
    i < |c.procs| ==>
      var (p', s') := Acts(c.procs[i], c.store, FatesOf(turns, i));
      && c.procs[i].phase.Fetch? && Whole(c.procs[i], c.store, FatesOf(turns, i))
      && WholeInOrder(Group(c.procs[i := p'], s'), turns, i + 1)
  }

  /** The fates of all these calls, one reconciler after the other. */
  function FatesFrom(n: nat, turns: seq<Turn>, i: nat): seq<Fate>
    requires i <= n
    decreases n - i
  {
    if i == n then [] else FatesOf(turns, i) + FatesFrom(n, turns, i + 1)
  }

  /** One reconcile after the other. */
  function ReconcileInOrder(keys: seq<Key>, w: World, fates: Fates): World {
    if keys == [] then w else ReconcileInOrder(keys[1..], Reconcile(keys[0], w, fates).0, fates)
  }

  function Keys(procs: seq<Proc>): seq<Key> {
    seq(|procs|, i requires 0 <= i < |procs| => procs[i].key)
  }

  lemma WholeUnfold(c: Group, turns: seq<Turn>, i: nat)
    requires i < |c.procs| && WholeInOrder(c, turns, i)
    ensures c.procs[i].phase.Fetch? && Whole(c.procs[i], c.store, FatesOf(turns, i))
    ensures WholeInOrder(RunOne(c, i, FatesOf(turns, i)), turns, i + 1)
  {
  }

  lemma WholeStep(c: Group, turns: seq<Turn>, i: nat) returns (r: Group)
    requires i < |c.procs| && WholeInOrder(c, turns, i)
    ensures c.procs[i].phase.Fetch? && Whole(c.procs[i], c.store, FatesOf(turns, i))
    ensures r == RunOne(c, i, FatesOf(turns, i)) && |r.procs| == |c.procs| && WholeInOrder(r, turns, i + 1)
    ensures Keys(r.procs) == Keys(c.procs)
  {
    WholeUnfold(c, turns, i);
    ActsKeepKey(c.procs[i], c.store, FatesOf(turns, i));
    KeysKept(c.procs, i, Acts(c.procs[i], c.store, FatesOf(turns, i)).0);
    r := RunOne(c, i, FatesOf(turns, i));
  }

  lemma NumberedRest(fates: Fates, from: nat, n: nat, turns: seq<Turn>, i: nat)
    requires i < n && Numbered(fates, from, FatesFrom(n, turns, i))
    ensures Numbered(fates, from, FatesOf(turns, i))
    ensures Numbered(fates, from + |FatesOf(turns, i)|, FatesFrom(n, turns, i + 1))
  {
    NumberedSplit(fates, from, FatesOf(turns, i), FatesFrom(n, turns, i + 1));
  }

  lemma KeysKept(procs: seq<Proc>, i: nat, p: Proc)
    requires i < |procs| && p.key == procs[i].key
    ensures Keys(procs[i := p]) == Keys(procs)
  {
  }

  /** One reconciler's calls are one reconcile. */
  lemma OneReconciles(p: Proc, w: World, own: seq<Fate>, fates: Fates) returns (w': World)
    requires p.phase.Fetch? && Whole(p, w.store, own) && Numbered(fates, w.calls, own)
    ensures w' == Reconcile(p.key, w, fates).0 && w'.store == Acts(p, w.store, own).1 && w'.calls == w.calls + |own|
  {
    WholeIsDrive(p, w, own, fates);
    StepsAreReconcile(p.key, w, fates);
    w' := Reconcile(p.key, w, fates).0;
  }

  lemma {:induction false} ActsKeepKey(p: Proc, s: Store, fates: seq<Fate>)
    ensures Acts(p, s, fates).0.key == p.key
    decreases |fates|
  {
    if fates != [] {
      var (p', s') := Act(p, s, fates[0]);
      ActsKeepKey(p', s', fates[1..]);
    }
  }

  lemma ReconcileFirst(keys: seq<Key>, i: nat, w: World, fates: Fates)
    requires i < |keys|
    ensures ReconcileInOrder(keys[i..], w, fates)
         == ReconcileInOrder(keys[i + 1..], Reconcile(keys[i], w, fates).0, fates)
  {
    assert keys[i..][1..] == keys[i + 1..];
  }

  lemma {:induction false} InOrderIsReconciles(c: Group, turns: seq<Turn>, i: nat, w: World, fates: Fates)
    requires i <= |c.procs| && WholeInOrder(c, turns, i) && w.store == c.store
    requires Numbered(fates, w.calls, FatesFrom(|c.procs|, turns, i))
    ensures ReconcileInOrder(Keys(c.procs)[i..], w, fates).store == InOrder(c, turns, i).store
    decreases |c.procs| - i
  {
    if i < |c.procs| {
      var r := WholeStep(c, turns, i);
      NumberedRest(fates, w.calls, |c.procs|, turns, i);
      var w' := OneReconciles(c.procs[i], w, FatesOf(turns, i), fates);
      InOrderIsReconciles(r, turns, i + 1, w', fates);
      InOrderStep(c, turns, i, i + 1, r);
      ReconcileFirst(Keys(c.procs), i, w, fates);
    }
  }

  /** Any number of reconciles of Pluses that share no key, interleaved in any way and with any of their calls failing,
      end in the store that one after the other would have left. */
  lemma ReconcilesDoNotInterfere(ds: seq<Design>, c: Group, turns: seq<Turn>, fates: Fates)
    requires AllReady(ds, c) && WholeInOrder(c, turns, 0) && Numbered(fates, 0, FatesFrom(|c.procs|, turns, 0))
    ensures Interleave(c, turns).store == ReconcileInOrder(Keys(c.procs), World(c.store, 0), fates).store
  {
    InterleavingIsSequential(ds, c, turns);
    InOrderIsReconciles(c, turns, 0, World(c.store, 0), fates);
    assert Keys(c.procs)[0..] == Keys(c.procs);
  }

  // ----- when two Pluses are apart -----

  lemma JoinedPrefix(n1: string, v1: string, n2: string, v2: string)
    requires n1 + "-" + v1 == n2 + "-" + v2 && |n1| < |n2|
    ensures n2 == n1 + "-" + n2[|n1| + 1..] && v1 == n2[|n1| + 1..] + "-" + v2
  {
    var whole, m := n1 + "-" + v1, n2[|n1| + 1..];
    assert whole == n2 + ("-" + v2);
    assert n2 == whole[..|n2|];
    assert n1 + "-" == whole[..|n1| + 1];
    assert v1 == whole[|n1| + 1..];
  }

  /** Names and versions joined by '-' collide exactly when they are equal, or when one name goes on with a '-'
      where the other one's version begins. */
  lemma JoinedEqualIff(n1: string, v1: string, n2: string, v2: string)
    ensures n1 + "-" + v1 == n2 + "-" + v2 <==>
      || (n1 == n2 && v1 == v2)
      || (exists m :: n2 == n1 + "-" + m && v1 == m + "-" + v2)
      || (exists m :: n1 == n2 + "-" + m && v2 == m + "-" + v1)
  {
    if n1 + "-" + v1 == n2 + "-" + v2 {
      if |n1| < |n2| {
        JoinedPrefix(n1, v1, n2, v2);
      } else if |n2| < |n1| {
        JoinedPrefix(n2, v2, n1, v1);
      } else {
        assert n1 == (n1 + "-" + v1)[..|n1|] && n2 == (n2 + "-" + v2)[..|n1|];
        assert v1 == (n1 + "-" + v1)[|n1| + 1..] && v2 == (n2 + "-" + v2)[|n1| + 1..];
      }
    } else {
      forall m | n2 == n1 + "-" + m
        ensures v1 != m + "-" + v2
      {
        assert n1 + "-" + (m + "-" + v2) == (n1 + "-" + m) + "-" + v2;
      }
      forall m | n1 == n2 + "-" + m
        ensures v2 != m + "-" + v1
      {
        assert n2 + "-" + (m + "-" + v1) == (n2 + "-" + m) + "-" + v1;
      }
    }
  }

  lemma WithoutHyphenInjective(n1: string, v1: string, n2: string, v2: string)
    requires '-' !in v1 && '-' !in v2
    ensures n1 + "-" + v1 == n2 + "-" + v2 <==> n1 == n2 && v1 == v2
  {
    JoinedEqualIff(n1, v1, n2, v2);
    forall m
      ensures v1 != m + "-" + v2 && v2 != m + "-" + v1
    {
      assert (m + "-" + v2)[|m|] == '-' && (m + "-" + v1)[|m|] == '-';
    }
  }

  /** Exactly what two Pluses may not have in common. */
  lemma ApartIff(d1: Design, d2: Design)
    ensures Apart(d1, d2) <==>
      || d1.ns != d2.ns
      || (&& d1.name != d2.name
          && (d2.spec.gateway.Some? ==> d1.name != d2.name + "-gateway")
          && (d1.spec.gateway.Some? ==> d2.name != d1.name + "-gateway")
          && forall a, b | a in d1.spec.apps && b in d2.spec.apps :: AppName(d1, a) != AppName(d2, b))
  {
    if d1.ns == d2.ns {
      if d1.name == d2.name {
        assert Owns(d1, PlusKey(d1)) && Owns(d2, PlusKey(d1));
      }
      if d2.spec.gateway.Some? && d1.name == d2.name + "-gateway" {
        assert Owns(d1, KeyOf(d1, ApplyMesh)) && Owns(d2, KeyOf(d1, ApplyMesh));
      }
      if d1.spec.gateway.Some? && d2.name == d1.name + "-gateway" {
        assert Owns(d1, KeyOf(d2, ApplyMesh)) && Owns(d2, KeyOf(d2, ApplyMesh));
      }
      forall a, b | a in d1.spec.apps && b in d2.spec.apps && AppName(d1, a) == AppName(d2, b)
        ensures !Apart(d1, d2)
      {
        var k := KeyOf(d1, ApplyDeployment(a));
        assert Owns(d1, k) && Owns(d2, k);
      }
      if d1.name + "-gateway" == d2.name + "-gateway" {
        assert d1.name == (d1.name + "-gateway")[..|d1.name|];
        assert d2.name == (d2.name + "-gateway")[..|d1.name|];
      }
    }
  }

  /** Neither name is the other plus "-gateway", and no version contains '-'. */
  ghost predicate NamedApart(d1: Design, d2: Design) {
    && d1.name != d2.name && d1.name != d2.name + "-gateway" && d2.name != d1.name + "-gateway"
    && forall app | app in d1.spec.apps + d2.spec.apps :: '-' !in app.version
  }

  lemma NamesKeepApart(d1: Design, d2: Design)
    requires NamedApart(d1, d2)
    ensures Apart(d1, d2)
  {
    forall a, b | a in d1.spec.apps && b in d2.spec.apps
      ensures AppName(d1, a) != AppName(d2, b)
    {
      assert a in d1.spec.apps + d2.spec.apps && b in d1.spec.apps + d2.spec.apps;
      WithoutHyphenInjective(d1.name, a.version, d2.name, b.version);
    }
    ApartIff(d1, d2);
  }

  /** Different names alone do not suffice: version "b-c" of "a" and version "c" of "a-b" share a Deployment. */
  lemma NamesMayCollide(d1: Design, d2: Design, a: App, b: App)
    requires d1.ns == d2.ns && d1.name == "a" && d2.name == "a-b"
    requires a in d1.spec.apps && a.version == "b-c" && b in d2.spec.apps && b.version == "c"
    ensures KeyOf(d1, ApplyDeployment(a)) == KeyOf(d2, ApplyDeployment(b)) && !Apart(d1, d2)
  {
    assert AppName(d1, a) == AppName(d2, b);
    ApartIff(d1, d2);
  }

  /** Two Pluses that share a Deployment do fight over it: whoever applies last decides on the image. */
  lemma SharedDeploymentIsFoughtOver(d1: Design, d2: Design, a: App, b: App, slot: Slot)
    requires KeyOf(d1, ApplyDeployment(a)) == KeyOf(d2, ApplyDeployment(b))
    requires SlotTyped(d1, ApplyDeployment(a), slot) && a.minReplicas != -1 && b.minReplicas != -1
    requires AppImage(a) != AppImage(b)
    ensures Effect(d2, ApplyDeployment(b), Effect(d1, ApplyDeployment(a), slot))
         != Effect(d1, ApplyDeployment(a), Effect(d2, ApplyDeployment(b), slot))
  {
    ImageDecided(d1, a, slot);
    ImageDecided(d2, b, slot);
    ImageDecided(d2, b, Effect(d1, ApplyDeployment(a), slot));
    ImageDecided(d1, a, Effect(d2, ApplyDeployment(b), slot));
  }

  lemma ImageDecided(d: Design, app: App, slot: Slot)
    requires SlotTyped(d, ApplyDeployment(app), slot) && app.minReplicas != -1
    ensures var content := Effect(d, ApplyDeployment(app), slot).content;
      content.Some? && content.value.DeploymentObject? && content.value.deployment.image == AppImage(app)
  {
  }
}
