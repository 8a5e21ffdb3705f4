/** Theorems about whole runs of one lock, under any interleaving of the operations its users may call. */
module LockRuns {
  import opened Prelude
  import opened LockState

  datatype Action =
    | DoClaim(id: int, access: LockAccess)
    | DoRelease(id: int, access: LockAccess)
    | DoWait(id: int, access: LockAccess, token: nat)
    | DoStop(id: int, token: nat)
    | DoSetMaxCount(count: int)

  // What the assertions of the source ask of the caller.
  predicate Enabled(l: Lock, a: Action) {
    match a
    case DoClaim(id, access) => IsAvailable(l, id, access)
    case DoRelease(_, _) => true
    case DoWait(id, access, _) => MayWait(l, id, access)
    case DoStop(id, token) => MayStop(l, id, token)
    case DoSetMaxCount(_) => true
  }

  function Next(l: Lock, a: Action): Lock
    requires Enabled(l, a)
  {
    match a
    case DoClaim(id, access) => Claim(l, id, access)
    case DoRelease(id, access) => Release(l, id, access)
    case DoWait(id, access, token) => Wait(l, id, access, token)
    case DoStop(id, token) => Stop(l, id, token)
    case DoSetMaxCount(count) => SetMaxCount(l, count)
  }

  ghost predicate Steps(ls: seq<Lock>, acts: seq<Action>) {
    |ls| == |acts| + 1 &&
    forall i :: 0 <= i < |acts| ==> Enabled(ls[i], acts[i]) && ls[i + 1] == Next(ls[i], acts[i])
  }

  ghost predicate Initial(l: Lock) {
    l == Lock([], [], 0, 0, l.maxCount)
  }

  // ---- Accounting ----

  // Some capacity in force up to step i covers the counted units.
  ghost predicate WithinPeak(ls: seq<Lock>, i: nat)
    requires i < |ls|
  {
    ls[i].counting == 0 || exists j :: 0 <= j <= i && ls[i].counting <= ls[j].maxCount
  }

  lemma NextKeepsConsistent(l: Lock, a: Action)
    requires Consistent(l) && Enabled(l, a)
    ensures Consistent(Next(l, a))
  {
    match a
    case DoClaim(id, access) => ClaimKeepsConsistent(l, id, access);
    case DoRelease(id, access) => ReleaseKeepsConsistent(l, id, access);
    case DoWait(id, access, token) => WaitKeepsConsistent(l, id, access, token);
    case DoStop(id, token) => StopKeepsConsistent(l, id, token);
    case DoSetMaxCount(count) => SetMaxCountKeepsConsistent(l, count);
  }

  // Only a claim adds counted units, and only when they fit the capacity of that moment.
  lemma NextCounting(l: Lock, a: Action)
    requires Consistent(l) && Enabled(l, a)
    ensures Next(l, a).counting <= l.counting || Next(l, a).counting <= l.maxCount
  {
  }

  lemma {:induction false} AccountingHolds(ls: seq<Lock>, acts: seq<Action>, i: nat)
    requires Steps(ls, acts) && Initial(ls[0]) && i < |ls|
    ensures Consistent(ls[i]) && WithinPeak(ls, i)
  {
    if i > 0 {
      AccountingHolds(ls, acts, i - 1);
      assert Enabled(ls[i - 1], acts[i - 1]) && ls[i] == Next(ls[i - 1], acts[i - 1]);
      NextKeepsConsistent(ls[i - 1], acts[i - 1]);
      NextCounting(ls[i - 1], acts[i - 1]);
      if ls[i].counting <= ls[i - 1].maxCount {
        assert 0 <= i - 1 <= i;
      }
    }
  }

  lemma {:induction false} UnitsBound(owners: seq<Owner>)
    requires forall o :: o in owners ==> o.access.count > 0
    ensures |owners| <= Units(owners, Exclusive) + Units(owners, Counting)
    ensures forall o :: o in owners ==> Units(owners, o.access.mode) >= o.access.count
  {
    if owners != [] {
      assert owners == [owners[0]] + owners[1..];
      UnitsBound(owners[1..]);
    }
  }

  // The counters being right means mutual exclusion: an exclusive owner is the only owner.
  lemma ExclusiveOwnerIsAlone(ls: seq<Lock>, acts: seq<Action>, i: nat, o: Owner)
    requires Steps(ls, acts) && Initial(ls[0]) && i < |ls|
    requires o in ls[i].owners && o.access.mode.Exclusive?
    ensures ls[i].owners == [o]
  {
    AccountingHolds(ls, acts, i);
    UnitsBound(ls[i].owners);
  }

  // ---- Bounded bypass of an exclusive waiter ----

  predicate QueuedExclusively(l: Lock, id: int) {
    match Find(l.waiting, id) { case None => false case Some(i) => l.waiting[i].access.mode.Exclusive? }
  }

  function Place(l: Lock, id: int): nat
    requires QueuedExclusively(l, id)
  {
    Find(l.waiting, id).value
  }

  predicate Overtakes(a: Action, id: int) {
    a.DoClaim? && a.id != id && a.access.count > 0
  }

  function Overtakings(acts: seq<Action>, id: int): nat {
    if acts == [] then 0
    else Overtakings(acts[..|acts| - 1], id) + (if Overtakes(acts[|acts| - 1], id) then 1 else 0)
  }

  lemma FindAt(ws: seq<Waiter>, i: nat)
    requires i < |ws| && forall j, k :: 0 <= j < k < |ws| ==> ws[j].id != ws[k].id
    ensures Find(ws, ws[i].id) == Some(i)
  {
  }

  // Whoever may claim past an exclusive waiter was queued in front of it.
  lemma OvertakerIsAhead(l: Lock, a: Action, id: int)
    requires Consistent(l) && Enabled(l, a) && QueuedExclusively(l, id) && Overtakes(a, id)
    ensures Find(l.waiting, a.id).Some? && Find(l.waiting, a.id).value < Place(l, id)
  {
    var w := l.waiting[Place(l, id)];
    assert w in Ahead(l, a.id) || (Find(l.waiting, a.id).Some? && Find(l.waiting, a.id).value <= Place(l, id));
  }

  lemma PlaceAfterRemoval(l: Lock, i: nat, id: int)
    requires Consistent(l) && QueuedExclusively(l, id) && i < |l.waiting| && i != Place(l, id)
    ensures Find(l.waiting[..i] + l.waiting[i + 1..], id)
            == Some(if i < Place(l, id) then Place(l, id) - 1 else Place(l, id))
  {
    var ws := l.waiting[..i] + l.waiting[i + 1..];
    var p := if i < Place(l, id) then Place(l, id) - 1 else Place(l, id);
    assert ws[p] == l.waiting[Place(l, id)];
    FindAt(ws, p);
  }

  lemma {:induction false} FindById(ws: seq<Waiter>, ws': seq<Waiter>, id: int)
    requires |ws| == |ws'| && forall i :: 0 <= i < |ws| ==> ws[i].id == ws'[i].id
    ensures Find(ws, id) == Find(ws', id)
  {
    if ws != [] {
      FindById(ws[1..], ws'[1..], id);
    }
  }

  lemma WakeKeepsPlaces(l: Lock, id: int)
    ensures Find(Wake(l).waiting, id) == Find(l.waiting, id)
  {
    FindById(Wake(l).waiting, l.waiting, id);
  }

  lemma ClaimKeepsPlace(l: Lock, o: int, access: LockAccess, id: int)
    requires Consistent(l) && IsAvailable(l, o, access) && access.count > 0
    requires QueuedExclusively(l, id) && QueuedExclusively(Claim(l, o, access), id)
    ensures o != id && Place(Claim(l, o, access), id) < Place(l, id)
  {
    WithoutShape(l.waiting, o);
    if o == id {
      WithoutNone(l.waiting, id);
    } else {
      OvertakerIsAhead(l, DoClaim(o, access), id);
      PlaceAfterRemoval(l, Find(l.waiting, o).value, id);
    }
  }

  lemma {:induction false} WithoutNone(ws: seq<Waiter>, id: int)
    ensures Find(Without(ws, id), id).None?
  {
    if ws != [] {
      WithoutNone(ws[1..], id);
      if ws[0].id != id {
        assert Without(ws, id)[1..] == Without(ws[1..], id);
      }
    }
  }

  lemma StopKeepsPlace(l: Lock, o: int, token: nat, id: int)
    requires Consistent(l) && MayStop(l, o, token)
    requires QueuedExclusively(l, id) && QueuedExclusively(Stop(l, o, token), id)
    ensures Place(Stop(l, o, token), id) <= Place(l, id)
  {
    var i := Find(l.waiting, o).value;
    var ws := l.waiting[..i] + l.waiting[i + 1..];
    WakeKeepsPlaces(l.(waiting := ws), id);
    if o == id {
      NoLongerQueued(l, i, id);
    } else {
      PlaceAfterRemoval(l, i, id);
    }
  }

  lemma NoLongerQueued(l: Lock, i: nat, id: int)
    requires Consistent(l) && Find(l.waiting, id) == Some(i)
    ensures Find(l.waiting[..i] + l.waiting[i + 1..], id).None?
  {
    var ws := l.waiting[..i] + l.waiting[i + 1..];
    assert forall j :: 0 <= j < |ws| ==> ws[j].id != id;
  }

  lemma WaitKeepsPlace(l: Lock, o: int, access: LockAccess, token: nat, id: int)
    requires Consistent(l) && QueuedExclusively(l, id)
    ensures Find(Wait(l, o, access, token).waiting, id) == Some(Place(l, id))
  {
    WaitKeepsConsistent(l, o, access, token);
    var ws := Wait(l, o, access, token).waiting;
    assert ws[Place(l, id)].id == id;
    FindAt(ws, Place(l, id));
  }

  lemma StepKeepsPlace(l: Lock, a: Action, id: int)
    requires Consistent(l) && Enabled(l, a) && QueuedExclusively(l, id) && QueuedExclusively(Next(l, a), id)
    ensures Place(Next(l, a), id) + (if Overtakes(a, id) then 1 else 0) <= Place(l, id)
  {
    match a {
      case DoClaim(o, access) =>
        if access.count > 0 {
          ClaimKeepsPlace(l, o, access, id);
        }
      case DoRelease(o, access) => WakeKeepsPlaces(Released(l, Owner(o, access)), id);
      case DoWait(o, access, token) => WaitKeepsPlace(l, o, access, token, id);
      case DoStop(o, token) => StopKeepsPlace(l, o, token, id);
      case DoSetMaxCount(count) => WakeKeepsPlaces(l.(maxCount := count), id);
    }
  }

  // As long as an exclusive waiter stays queued, others get past it at most as often as there were
  // entries in front of it, whatever they do in between.
  lemma {:induction false} BoundedBypass(ls: seq<Lock>, acts: seq<Action>, id: int)
    requires Steps(ls, acts) && Consistent(ls[0])
    requires forall i :: 0 <= i < |ls| ==> QueuedExclusively(ls[i], id)
    ensures Consistent(ls[|acts|])
    ensures Place(ls[|acts|], id) + Overtakings(acts, id) <= Place(ls[0], id)
  {
    if acts != [] {
      var n := |acts| - 1;
      var (ls', acts') := (ls[..|acts|], acts[..n]);
      assert Steps(ls', acts') by {
        forall i | 0 <= i < |acts'| ensures Enabled(ls'[i], acts'[i]) && ls'[i + 1] == Next(ls'[i], acts'[i]) {
          assert Enabled(ls[i], acts[i]) && ls[i + 1] == Next(ls[i], acts[i]);
        }
      }
      BoundedBypass(ls', acts', id);
      assert Enabled(ls[n], acts[n]) && ls[n + 1] == Next(ls[n], acts[n]);
      NextKeepsConsistent(ls[n], acts[n]);
      StepKeepsPlace(ls[n], acts[n], id);
    }
  }

  // ---- No stuck queue ----

  predicate HeadIsCalled(l: Lock) {
    l.owners == [] && l.waiting != [] ==> l.waiting[0].token.None?
  }

  // A request no idle lock of this capacity can meet goes to the front of an idle lock's queue.
  predicate AsksTooMuch(l: Lock, a: Action) {
    a.DoWait? && l.owners == [] && Ahead(l, a.id) == [] &&
    a.access.mode.Counting? && 0 < a.access.count && l.maxCount < a.access.count
  }

  // A waiter for units, not called yet, of a lock whose capacity has been lowered to nothing.
  predicate Deaf(l: Lock, w: Waiter) { w.token.Some? && w.access.mode.Counting? && l.maxCount <= 0 }

  // The last owner leaves such a waiter at the head, or the head leaves and such a waiter moves up.
  predicate CallsInVain(l: Lock, a: Action) {
    match a
    case DoRelease(id, access) =>
      access.count != 0 && l.owners == [Owner(id, access)] && l.waiting != [] && Deaf(l, l.waiting[0])
    case DoStop(id, _) =>
      l.owners == [] && |l.waiting| >= 2 && l.waiting[0].id == id && Deaf(l, l.waiting[1])
    case _ => false
  }

  // A wake-up pass over an idle lock.
  lemma WakeCallsHeadExactly(l: Lock)
    requires l.exclusive == l.counting == 0 && l.waiting != []
    ensures Wake(l).waiting[0].token.None? <==> !Deaf(l, l.waiting[0])
  {
    assert Passes(l, 0) <==> l.waiting[0].access.mode.Exclusive? || l.maxCount > 0;
    assert Reached(l, 0) <==> Passes(l, 0);
  }

  lemma ReleaseOfLast(l: Lock, id: int, access: LockAccess)
    requires Consistent(l) && access.count != 0 && Owner(id, access) in l.owners
    ensures HeadIsCalled(Release(l, id, access)) <==> !CallsInVain(l, DoRelease(id, access))
  {
    var o := Owner(id, access);
    var l' := Released(l, o);
    OnlyOwnerLeaves(l.owners, o);
    if l.owners == [o] && l.waiting != [] {
      UnitsRemoveFirst(l.owners, o, Exclusive);
      UnitsRemoveFirst(l.owners, o, Counting);
      assert Units([], Exclusive) == 0 == Units([], Counting);
      WakeCallsHeadExactly(l');
    }
  }

  lemma OnlyOwnerLeaves(owners: seq<Owner>, o: Owner)
    requires o in owners
    ensures RemoveFirst(owners, o) == [] <==> owners == [o]
  {
  }

  lemma StopAtIdleLock(l: Lock, id: int, token: nat)
    requires Consistent(l) && MayStop(l, id, token) && HeadIsCalled(l) && l.owners == []
    ensures HeadIsCalled(Stop(l, id, token)) <==> !CallsInVain(l, DoStop(id, token))
  {
    var i := Find(l.waiting, id).value;
    var l' := l.(waiting := l.waiting[..i] + l.waiting[i + 1..]);
    assert l.exclusive == l.counting == 0;
    if i == 0 {
      if l'.waiting != [] {
        assert l'.waiting[0] == l.waiting[1];
        WakeCallsHeadExactly(l');
      }
    } else {
      assert l'.waiting[0] == l.waiting[0];
    }
  }

  // The two ways to leave an idle lock with an uncalled head.
  lemma HeadLostExactly(l: Lock, a: Action)
    requires Consistent(l) && Enabled(l, a) && HeadIsCalled(l)
    ensures HeadIsCalled(Next(l, a)) <==> !AsksTooMuch(l, a) && !CallsInVain(l, a)
  {
    match a {
      case DoClaim(_, _) =>
      case DoRelease(id, access) =>
        if access.count != 0 && Owner(id, access) in l.owners {
          ReleaseOfLast(l, id, access);
        }
      case DoWait(id, access, token) => WaitAtIdleLock(l, id, access, token);
      case DoStop(id, token) =>
        if l.owners == [] {
          StopAtIdleLock(l, id, token);
        }
      case DoSetMaxCount(count) =>
    }
  }

  lemma WaitAtIdleLock(l: Lock, id: int, access: LockAccess, token: nat)
    requires Consistent(l) && HeadIsCalled(l)
    ensures HeadIsCalled(Wait(l, id, access, token)) <==> !AsksTooMuch(l, DoWait(id, access, token))
  {
    if l.owners == [] && !IsAvailable(l, id, access) {
      var ws := Wait(l, id, access, token).waiting;
      var i := if Find(l.waiting, id).Some? then Find(l.waiting, id).value else |l.waiting|;
      assert ws[i] == Waiter(id, access, Some(token));
      assert Ahead(l, id) == l.waiting[..i];
      assert l.exclusive == l.counting == 0;
      if i > 0 {
        assert ws[0] == l.waiting[0];
      } else {
        assert AllCounting([]);
        assert Ahead(l, id) == [];
      }
    }
  }

  // Unless somebody asks an idle lock for more than it has, or a waiter is called after the capacity has
  // been lowered to nothing, an unowned lock has always called the head of its queue, and the head may claim
  // it as soon as its request fits.
  lemma {:induction false} NoStuckQueue(ls: seq<Lock>, acts: seq<Action>, i: nat)
    requires Steps(ls, acts) && Initial(ls[0]) && i < |ls|
    requires forall j :: 0 <= j < i ==> !AsksTooMuch(ls[j], acts[j]) && !CallsInVain(ls[j], acts[j])
    ensures HeadIsCalled(ls[i])
    ensures ls[i].owners == [] && ls[i].waiting != [] ==>
              var w := ls[i].waiting[0];
              w.access.mode.Exclusive? || w.access.count <= ls[i].maxCount ==> IsAvailable(ls[i], w.id, w.access)
  {
    AccountingHolds(ls, acts, i);
    if i > 0 {
      NoStuckQueue(ls, acts, i - 1);
      AccountingHolds(ls, acts, i - 1);
      assert Enabled(ls[i - 1], acts[i - 1]) && ls[i] == Next(ls[i - 1], acts[i - 1]);
      HeadLostExactly(ls[i - 1], acts[i - 1]);
    }
    if ls[i].waiting != [] {
      FindAt(ls[i].waiting, 0);
    }
  }

  // No queued access asks for more than the lock has.
  predicate Servable(l: Lock) {
    forall w :: w in l.waiting && w.access.mode.Counting? ==> w.access.count <= l.maxCount
  }

  lemma AskingTooMuchQueues(l: Lock, a: Action)
    requires Consistent(l) && Enabled(l, a) && AsksTooMuch(l, a)
    ensures !Servable(Next(l, a))
  {
    var ws := Next(l, a).waiting;
    var i := match Find(l.waiting, a.id) { case None => |ws| - 1 case Some(i) => i };
    assert ws[i].access == a.access;
    assert ws[i] in ws;
  }

  lemma ServableIsNotDeaf(l: Lock)
    requires Consistent(l) && Servable(l)
    ensures forall i :: 0 <= i < |l.waiting| ==> !Deaf(l, l.waiting[i])
  {
    forall i | 0 <= i < |l.waiting| ensures !Deaf(l, l.waiting[i]) {
      assert l.waiting[i] in l.waiting;
    }
  }

  // While every queued access asks for no more than maxCount, an idle lock has called the first of its
  // queue and is available to it.
  lemma NoStuckQueueWhileServable(ls: seq<Lock>, acts: seq<Action>, i: nat)
    requires Steps(ls, acts) && Initial(ls[0]) && i < |ls|
    requires forall j :: 0 <= j <= i ==> Servable(ls[j])
    ensures ls[i].owners == [] && ls[i].waiting != [] ==>
              var w := ls[i].waiting[0];
              w.token.None? && IsAvailable(ls[i], w.id, w.access)
  {
    forall j | 0 <= j < i ensures !AsksTooMuch(ls[j], acts[j]) && !CallsInVain(ls[j], acts[j]) {
      AccountingHolds(ls, acts, j);
      ServableIsNotDeaf(ls[j]);
      assert Enabled(ls[j], acts[j]) && ls[j + 1] == Next(ls[j], acts[j]);
      if AsksTooMuch(ls[j], acts[j]) {
        AskingTooMuchQueues(ls[j], acts[j]);
      }
    }
    NoStuckQueue(ls, acts, i);
    assert Servable(ls[i]);
  }

  // What such a request costs others. A small request queues up behind it; when the large one gives
  // up before having been woken nobody is rewoken, and the small one, which the idle lock could
  // serve, sits uncalled at the head of the queue.
  lemma OversizedWaiterStrandsQueue()
    ensures exists ls, acts :: Steps(ls, acts) && Initial(ls[0]) &&
              var l: Lock := ls[|acts|];
              l.owners == [] && l.waiting != [] && l.waiting[0].token.Some? &&
              IsAvailable(l, l.waiting[0].id, l.waiting[0].access)
  {
    var big := Access(0, Counting, 2);
    var (w1, w2) := (Waiter(1, big, Some(0)), Waiter(2, ONE, Some(1)));
    var (l0, l1, l2, l3) := (Lock([], [], 0, 0, 1), Lock([w1], [], 0, 0, 1), Lock([w1, w2], [], 0, 0, 1),
                             Lock([w2], [], 0, 0, 1));
    var ls, acts := [l0, l1, l2, l3], [DoWait(1, big, 0), DoWait(2, ONE, 1), DoStop(1, 0)];
    assert Find(l1.waiting, 2).None? by { assert Find(l1.waiting[1..], 2).None?; }
    assert Enabled(l0, acts[0]) && l1 == Next(l0, acts[0]);
    assert Enabled(l1, acts[1]) && l2 == Next(l1, acts[1]);
    GivesUp(l2, w1, w2);
    assert Find(l3.waiting, 2) == Some(0);
    assert IsAvailable(l3, 2, ONE);
    hide Enabled, Next, IsAvailable;
    assert Steps(ls, acts);
  }

  // ---- A run to start from: one unit is held and two waiters are queued ----

  lemma OneStep(ls: seq<Lock>, acts: seq<Action>, a: Action)
    requires Steps(ls, acts) && Enabled(ls[|acts|], a)
    ensures Steps(ls + [Next(ls[|acts|], a)], acts + [a])
  {
    hide Enabled, Next;
    var (ls', acts') := (ls + [Next(ls[|acts|], a)], acts + [a]);
    forall i | 0 <= i < |acts'| ensures Enabled(ls'[i], acts'[i]) && ls'[i + 1] == Next(ls'[i], acts'[i]) {
      if i < |acts| {
        assert ls'[i] == ls[i] && ls'[i + 1] == ls[i + 1] && acts'[i] == acts[i];
      }
    }
  }

  const ONE: LockAccess := Access(0, Counting, 1)

  function Queued(first: LockAccess, second: LockAccess): seq<Lock> {
    var (o, w1, w2) := (Owner(9, ONE), Waiter(1, first, Some(0)), Waiter(2, second, Some(1)));
    [Lock([], [], 0, 0, 1), Lock([], [o], 0, 1, 1), Lock([w1], [o], 0, 1, 1), Lock([w1, w2], [o], 0, 1, 1)]
  }

  function Queueing(first: LockAccess, second: LockAccess): seq<Action> {
    [DoClaim(9, ONE), DoWait(1, first, 0), DoWait(2, second, 1)]
  }

  lemma QueueingRuns(first: LockAccess, second: LockAccess)
    requires first.mode.Counting? && first.count > 0 && second.count > 0
    ensures Steps(Queued(first, second), Queueing(first, second)) && Initial(Queued(first, second)[0])
  {
    var (ls, acts) := (Queued(first, second), Queueing(first, second));
    assert Without([], 9) == [];
    assert ls[1] == Next(ls[0], acts[0]);
    assert ls[2] == Next(ls[1], acts[1]);
    assert Find(ls[2].waiting, 2).None? by { assert Find(ls[2].waiting[1..], 2).None?; }
    assert ls[3] == Next(ls[2], acts[2]);
  }

  const ALL: LockAccess := Access(0, Exclusive, 1)

  function LoweredStates(): seq<Lock> {
    var (w1, w2) := (Waiter(1, ONE, Some(0)), Waiter(2, ALL, Some(1)));
    Queued(ONE, ALL)
    + [Lock([w1, w2], [Owner(9, ONE)], 0, 1, 0)] + [Lock([w1, w2], [], 0, 0, 0)] + [Lock([w2], [], 0, 0, 0)]
  }

  function Lowering(): seq<Action> {
    Queueing(ONE, ALL) + [DoSetMaxCount(0)] + [DoRelease(9, ONE)] + [DoStop(1, 0)]
  }

  lemma LoweringRuns()
    ensures Steps(LoweredStates(), Lowering()) && Initial(LoweredStates()[0])
  {
    var (w1, w2) := (Waiter(1, ONE, Some(0)), Waiter(2, ALL, Some(1)));
    var (ls, acts) := (Queued(ONE, ALL), Queueing(ONE, ALL));
    var l4 := Lock([w1, w2], [Owner(9, ONE)], 0, 1, 0);
    var l5 := Lock([w1, w2], [], 0, 0, 0);
    VainCall(l4);
    GivesUp(l5, w1, w2);
    QueueingRuns(ONE, ALL);
    hide Steps;
    OneStep(ls, acts, DoSetMaxCount(0));
    OneStep(ls + [l4], acts + [DoSetMaxCount(0)], DoRelease(9, ONE));
    OneStep(ls + [l4] + [l5], acts + [DoSetMaxCount(0)] + [DoRelease(9, ONE)], DoStop(1, 0));
  }

  lemma LoweringAsksLittle()
    ensures forall j :: 0 <= j < |Lowering()| ==> !AsksTooMuch(LoweredStates()[j], Lowering()[j])
  {
    forall j | 0 <= j < |Lowering()| && Lowering()[j].DoWait? ensures LoweredStates()[j].owners != [] {
      assert j == 1 || j == 2;
    }
  }

  // What lowering the capacity costs others. The head is called in vain, and when it gives up an exclusive
  // waiter, which the idle lock could serve, sits uncalled at the head of the queue.
  lemma LoweredCapacityStrandsQueue()
    ensures exists ls, acts :: Steps(ls, acts) && Initial(ls[0]) &&
              (forall j :: 0 <= j < |acts| ==> !AsksTooMuch(ls[j], acts[j])) &&
              var l: Lock := ls[|acts|];
              l.owners == [] && l.waiting != [] && l.waiting[0].token.Some? &&
              IsAvailable(l, l.waiting[0].id, l.waiting[0].access)
  {
    LoweringRuns();
    LoweringAsksLittle();
    var l := LoweredStates()[|Lowering()|];
    assert Find(l.waiting, 2) == Some(0);
    hide Steps, AsksTooMuch;
  }

  lemma GivesUp(l: Lock, w1: Waiter, w2: Waiter)
    requires l.waiting == [w1, w2] && w1.id == 1 && w1.token == Some(0)
    ensures Enabled(l, DoStop(1, 0)) && Next(l, DoStop(1, 0)) == l.(waiting := [w2])
  {
    assert Find(l.waiting, 1) == Some(0);
    assert l.waiting[..0] + l.waiting[1..] == [w2];
  }

  lemma VainCall(l: Lock)
    requires l.owners == [Owner(9, ONE)] && l.exclusive == 0 && l.counting == 1
    requires l.maxCount == 0 && l.waiting != [] && l.waiting[0].access.mode.Counting?
    ensures Next(l, DoRelease(9, ONE)) == l.(owners := [], counting := 0)
  {
    var l' := Released(l, Owner(9, ONE));
    assert !Passes(l', 0);
    assert forall i: nat :: i < |l'.waiting| ==> !Reached(l', i);
    assert Wake(l').waiting == l'.waiting;
  }

  // ---- The wake-up pass against the availability test ----

  lemma {:induction false} DemandBounds(ws: seq<Waiter>)
    requires forall w :: w in ws ==> w.access.count > 0
    ensures Demand(ws, Exclusive) + Demand(ws, Counting) >= |ws|
    ensures Demand(ws, Exclusive) == 0 <==> AllCounting(ws)
    ensures (forall w :: w in ws ==> w.access.count == 1) ==> Demand(ws, Exclusive) + Demand(ws, Counting) == |ws|
  {
    if ws != [] {
      var n := |ws| - 1;
      DemandBounds(ws[..n]);
      assert ws == ws[..n] + [ws[n]];
    }
  }

  lemma {:induction false} DemandGrows(ws: seq<Waiter>, j: nat, mode: Mode)
    requires j <= |ws|
    ensures Demand(ws[..j], mode) <= Demand(ws, mode)
  {
    if j < |ws| {
      var n := |ws| - 1;
      DemandGrows(ws[..n], j, mode);
      assert ws[..n][..j] == ws[..j];
    } else {
      assert ws[..j] == ws;
    }
  }

  lemma DemandAhead(l: Lock, i: nat)
    requires Consistent(l) && i < |l.waiting|
    ensures
      var ahead := l.waiting[..i];
      && Demand(ahead, Exclusive) + Demand(ahead, Counting) >= i
      && (Demand(ahead, Exclusive) == 0 <==> AllCounting(ahead))
      && forall j: nat :: j <= i ==>
           && Demand(l.waiting[..j], Counting) <= Demand(ahead, Counting)
           && Demand(l.waiting[..j], Exclusive) <= Demand(ahead, Exclusive)
  {
    var ahead := l.waiting[..i];
    assert forall w :: w in ahead ==> w in l.waiting;
    DemandBounds(ahead);
    forall j: nat | j <= i ensures Demand(l.waiting[..j], Counting) <= Demand(ahead, Counting) &&
                                   Demand(l.waiting[..j], Exclusive) <= Demand(ahead, Exclusive) {
      DemandGrows(ahead, j, Counting);
      DemandGrows(ahead, j, Exclusive);
      assert ahead[..j] == l.waiting[..j];
    }
  }

  // What lets the pass get to a waiter, said without the running sums of the waiters before it.
  lemma ReachedExactly(l: Lock, i: nat)
    requires Consistent(l) && i < |l.waiting|
    ensures Reached(l, i) <==>
      match l.waiting[i].access.mode
      case Counting =>
        && l.exclusive == 0 && AllCounting(l.waiting[..i])
        && l.counting + Demand(l.waiting[..i], Counting) < l.maxCount
      case Exclusive => l.exclusive == 0 && l.counting == 0 && i == 0
  {
    var ahead := l.waiting[..i];
    DemandAhead(l, i);
    CountersNotNegative(l);
    hide Consistent, Demand;
    assert Reached(l, i) ==> Passes(l, i);
    if AllCounting(ahead) {
      forall j: nat | j < i ensures l.waiting[j].access.mode.Counting? {
        assert l.waiting[j] in ahead;
      }
    }
  }

  lemma CountersNotNegative(l: Lock)
    requires Consistent(l)
    ensures l.exclusive >= 0 && l.counting >= 0
  {
  }

  lemma AvailableExactly(l: Lock, i: nat)
    requires Consistent(l) && i < |l.waiting|
    ensures IsAvailable(l, l.waiting[i].id, l.waiting[i].access) <==>
      match l.waiting[i].access.mode
      case Counting =>
        && l.exclusive == 0 && AllCounting(l.waiting[..i])
        && l.counting + i + l.waiting[i].access.count <= l.maxCount
      case Exclusive => l.exclusive == 0 && l.counting == 0 && i == 0
  {
    FindAt(l.waiting, i);
    assert Ahead(l, l.waiting[i].id) == l.waiting[..i];
    assert l.waiting[i] in l.waiting;
  }

  // The pass stops short of a waiter the lock is available to, or goes past one it is not, in one case only:
  // a waiter for units behind waiters for units, where the units asked for ahead of it leave room and its own
  // place and units do not, or the other way round.
  lemma WakeDisagreesExactly(l: Lock, i: nat)
    requires Consistent(l) && i < |l.waiting|
    ensures
      var w := l.waiting[i];
      (Reached(l, i) <==> !IsAvailable(l, w.id, w.access)) <==>
        && w.access.mode.Counting? && l.exclusive == 0 && AllCounting(l.waiting[..i])
        && (l.counting + Demand(l.waiting[..i], Counting) < l.maxCount
            <==> l.counting + i + w.access.count > l.maxCount)
  {
    ReachedExactly(l, i);
    AvailableExactly(l, i);
    hide Reached, IsAvailable, Consistent, Demand, AllCounting;
  }

  // For one-unit requests the running sums of the wake-up pass and the positional availability test
  // agree: after the pass a waiter is woken exactly when it was before or the lock is available to it.
  lemma WakeMatchesAvailability(l: Lock, i: nat)
    requires Consistent(l) && i < |l.waiting|
    requires forall w :: w in l.waiting ==> w.access.count == 1
    ensures Wake(l).waiting[i].token.None? <==>
            l.waiting[i].token.None? || IsAvailable(l, l.waiting[i].id, l.waiting[i].access)
  {
    var ahead := l.waiting[..i];
    assert forall w :: w in ahead ==> w in l.waiting;
    DemandBounds(ahead);
    WakeDisagreesExactly(l, i);
    assert l.waiting[i] in l.waiting;
    hide Reached, IsAvailable, Consistent, Demand, AllCounting;
  }

  // With heavier requests they part, in a run anybody may cause: the waiter of one unit stays asleep
  // although the raised capacity makes the lock available to it.
  lemma WeightedWaitersDisagree()
    ensures exists ls, acts :: Steps(ls, acts) && Initial(ls[0]) &&
              var l: Lock := ls[|acts|];
              |l.waiting| == 2 && l.waiting[1].token.Some? &&
              IsAvailable(l, l.waiting[1].id, l.waiting[1].access)
  {
    var three := Access(0, Counting, 3);
    var (w1, w2) := (Waiter(1, three, Some(0)), Waiter(2, ONE, Some(1)));
    var (ls, acts) := (Queued(three, ONE), Queueing(three, ONE));
    var l := Lock([w1.(token := None), w2], [Owner(9, ONE)], 0, 1, 4);
    QueueingRuns(three, ONE);
    PartialWake(ls[3].(maxCount := 4), w1, w2);
    OneStep(ls, acts, DoSetMaxCount(4));
    assert Find(l.waiting, 2) == Some(1) by { assert Find(l.waiting[1..], 2) == Some(0); }
    assert Ahead(l, 2) == [w1.(token := None)];
    hide Steps;
    assert (ls + [l])[|acts + [DoSetMaxCount(4)]|] == l && (ls + [l])[0] == ls[0];
  }

  lemma PartialWake(l: Lock, w1: Waiter, w2: Waiter)
    requires l.waiting == [w1, w2] && l.exclusive == 0 && l.counting == 1 && l.maxCount == 4
    requires w1.access == Access(0, Counting, 3) && w2.access == Access(0, Counting, 1)
    ensures Wake(l) == l.(waiting := [w1.(token := None), w2])
  {
    assert l.waiting[..1][..0] == [];
    assert Demand(l.waiting[..1], Counting) == 3;
    assert Passes(l, 0) && !Passes(l, 1);
    assert Reached(l, 0) && !Reached(l, 1);
  }
}
