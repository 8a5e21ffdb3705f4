/** What each operation of a lock does to whom it finds queued, said of the lock before and after it. */
module LockSteps {
  import opened Prelude
  import opened LockState
  import opened LockRuns

  // The waiter may be called: nobody has or will be asking for exclusive access in front of it, and the units held
  // and asked for in front of it leave one; an exclusive waiter has to be the first of an idle lock.
  predicate HasItsTurn(l: Lock, i: nat)
    requires i < |l.waiting|
  {
    match l.waiting[i].access.mode
    case Counting =>
      && l.exclusive == 0 && AllCounting(l.waiting[..i])
      && l.counting + Demand(l.waiting[..i], Counting) < l.maxCount
    case Exclusive => l.exclusive == 0 && l.counting == 0 && i == 0
  }

  // The queue is the old one; exactly the waiters called before and those whose turn it is now are called.
  predicate CallsThoseInTurn(queue: seq<Waiter>, l: Lock) {
    && |l.waiting| == |queue|
    && forall i :: 0 <= i < |queue| ==>
         && l.waiting[i].id == queue[i].id && l.waiting[i].access == queue[i].access
         && (l.waiting[i].token.None? <==> queue[i].token.None? || HasItsTurn(l, i))
         && (l.waiting[i].token.Some? ==> l.waiting[i].token == queue[i].token)
  }

  // For requests of one unit: exactly the waiters called before and those the lock is available to now are called.
  predicate CallsTheAvailable(queue: seq<Waiter>, l: Lock) {
    && |l.waiting| == |queue|
    && forall i :: 0 <= i < |queue| ==>
         && l.waiting[i].id == queue[i].id && l.waiting[i].access == queue[i].access
         && (l.waiting[i].token.None? <==>
               queue[i].token.None? || IsAvailable(l, l.waiting[i].id, l.waiting[i].access))
         && (l.waiting[i].token.Some? ==> l.waiting[i].token == queue[i].token)
  }

  predicate OneUnitEach(queue: seq<Waiter>) { forall w :: w in queue ==> w.access.count == 1 }

  lemma {:induction false} DemandIgnoresTokens(ws: seq<Waiter>, ws': seq<Waiter>, mode: Mode)
    requires |ws| == |ws'| && forall i :: 0 <= i < |ws| ==> ws[i].access == ws'[i].access
    ensures Demand(ws, mode) == Demand(ws', mode)
  {
    if ws != [] {
      DemandIgnoresTokens(ws[..|ws| - 1], ws'[..|ws| - 1], mode);
    }
  }

  lemma TurnIgnoresTokens(l: Lock, l': Lock, i: nat)
    requires i < |l.waiting| && l' == l.(waiting := l'.waiting) && |l'.waiting| == |l.waiting|
    requires forall j :: 0 <= j < |l.waiting| ==> l.waiting[j].access == l'.waiting[j].access
    ensures HasItsTurn(l, i) == HasItsTurn(l', i)
  {
    DemandIgnoresTokens(l.waiting[..i], l'.waiting[..i], Counting);
    SameModes(l.waiting[..i], l'.waiting[..i]);
  }

  lemma SameModes(ws: seq<Waiter>, ws': seq<Waiter>)
    requires |ws| == |ws'| && forall i :: 0 <= i < |ws| ==> ws[i].access == ws'[i].access
    ensures AllCounting(ws) == AllCounting(ws')
  {
    if AllCounting(ws) {
      forall w | w in ws' ensures w.access.mode.Counting? {
        var i :| 0 <= i < |ws'| && ws'[i] == w;
        assert ws[i] in ws;
      }
    }
    if AllCounting(ws') {
      forall w | w in ws ensures w.access.mode.Counting? {
        var i :| 0 <= i < |ws| && ws[i] == w;
        assert ws'[i] in ws';
      }
    }
  }

  lemma PassCalls(l: Lock)
    requires Consistent(l)
    ensures CallsThoseInTurn(l.waiting, Wake(l))
  {
    var l' := Wake(l);
    forall i: nat | i < |l.waiting| ensures HasItsTurn(l', i) <==> Reached(l, i) {
      ReachedExactly(l, i);
      hide Reached, Consistent;
      TurnIgnoresTokens(l, l', i);
    }
    hide Reached, HasItsTurn, Consistent;
  }

  lemma AvailableInTurn(l: Lock, i: nat)
    requires Consistent(l) && OneUnitEach(l.waiting) && i < |l.waiting|
    ensures IsAvailable(l, l.waiting[i].id, l.waiting[i].access) <==> HasItsTurn(l, i)
  {
    var ahead := l.waiting[..i];
    assert forall w :: w in ahead ==> w in l.waiting;
    DemandBounds(ahead);
    AvailableExactly(l, i);
    assert l.waiting[i] in l.waiting;
    hide IsAvailable, Consistent, Demand;
  }

  lemma CallingInTurnIsCallingTheAvailable(queue: seq<Waiter>, l: Lock)
    requires Consistent(l) && OneUnitEach(queue) && CallsThoseInTurn(queue, l)
    ensures CallsTheAvailable(queue, l)
  {
    forall w | w in l.waiting ensures w.access.count == 1 {
      var i :| 0 <= i < |l.waiting| && l.waiting[i] == w;
      assert queue[i] in queue;
    }
    forall i: nat | i < |queue| ensures IsAvailable(l, l.waiting[i].id, l.waiting[i].access) <==> HasItsTurn(l, i) {
      AvailableInTurn(l, i);
    }
    hide HasItsTurn, IsAvailable, Consistent;
  }

  // ---- The operations ----

  function UnitsOf(access: LockAccess, mode: Mode): nat { if access.mode == mode then access.count else 0 }

  // One unit holder is gone and whoever's turn it is by then is called, whether or not others still hold the lock.
  lemma ReleaseExactly(l: Lock, id: int, access: LockAccess)
    requires Consistent(l)
    ensures
      var l' := Next(l, DoRelease(id, access));
      if access.count == 0 || Owner(id, access) !in l.owners then l' == l
      else
        && multiset(l'.owners) == multiset(l.owners) - multiset{Owner(id, access)}
        && l'.exclusive == l.exclusive - UnitsOf(access, Exclusive)
        && l'.counting == l.counting - UnitsOf(access, Counting) && l'.maxCount == l.maxCount
        && CallsThoseInTurn(l.waiting, l') && (OneUnitEach(l.waiting) ==> CallsTheAvailable(l.waiting, l'))
  {
    ReleaseKeepsConsistent(l, id, access);
    var o := Owner(id, access);
    if access.count != 0 && o in l.owners {
      RemoveFirstTakesOne(l.owners, o);
      ReleasedIsConsistent(l, o);
      PassCalls(Released(l, o));
      hide Consistent, CallsThoseInTurn, CallsTheAvailable;
      if OneUnitEach(l.waiting) {
        CallingInTurnIsCallingTheAvailable(l.waiting, Release(l, id, access));
      }
    }
  }

  lemma ReleasedIsConsistent(l: Lock, o: Owner)
    requires Consistent(l) && o in l.owners
    ensures Consistent(Released(l, o))
  {
    UnitsRemoveFirst(l.owners, o, Exclusive);
    UnitsRemoveFirst(l.owners, o, Counting);
    forall p | p in RemoveFirst(l.owners, o) ensures p.access.count > 0 {
      RemoveFirstOnlyRemoves(l.owners, o, p);
    }
  }

  // A raised capacity calls whoever's turn it is by then; a lowered one calls nobody.
  lemma SetMaxCountExactly(l: Lock, count: int)
    requires Consistent(l)
    ensures
      var l' := Next(l, DoSetMaxCount(count));
      && l'.owners == l.owners && l'.exclusive == l.exclusive && l'.counting == l.counting && l'.maxCount == count
      && (count <= l.maxCount ==> l'.waiting == l.waiting)
      && (count > l.maxCount ==> CallsThoseInTurn(l.waiting, l'))
      && (count > l.maxCount && OneUnitEach(l.waiting) ==> CallsTheAvailable(l.waiting, l'))
  {
    SetMaxCountKeepsConsistent(l, count);
    if count > l.maxCount {
      PassCalls(l.(maxCount := count));
      hide Consistent, CallsThoseInTurn, CallsTheAvailable;
      if OneUnitEach(l.waiting) {
        CallingInTurnIsCallingTheAvailable(l.waiting, SetMaxCount(l, count));
      }
    }
  }

  // The queue once this entry is gone, the others in their order.
  function Rest(queue: seq<Waiter>, i: nat): seq<Waiter>
    requires i < |queue|
  {
    queue[..i] + queue[i + 1..]
  }

  // A waiter that leaves after it was called hands its call on; one that was not called takes nothing with it.
  lemma StopExactly(l: Lock, i: nat, token: nat)
    requires Consistent(l) && i < |l.waiting|
    requires l.waiting[i].token.Some? ==> l.waiting[i].token == Some(token)
    ensures Enabled(l, DoStop(l.waiting[i].id, token))
    ensures
      var (l', rest) := (Next(l, DoStop(l.waiting[i].id, token)), Rest(l.waiting, i));
      && l' == l.(waiting := l'.waiting)
      && (l.waiting[i].token.Some? ==> l'.waiting == rest)
      && (l.waiting[i].token.None? ==> CallsThoseInTurn(rest, l'))
      && (l.waiting[i].token.None? && OneUnitEach(rest) ==> CallsTheAvailable(rest, l'))
  {
    var id := l.waiting[i].id;
    FindAt(l.waiting, i);
    StopKeepsConsistent(l, id, token);
    var (rest, l') := (Rest(l.waiting, i), Next(l, DoStop(id, token)));
    RestIsConsistent(l, i);
    hide Consistent, CallsThoseInTurn, CallsTheAvailable, Find;
    if l.waiting[i].token.None? {
      PassCalls(l.(waiting := rest));
      if OneUnitEach(rest) {
        CallingInTurnIsCallingTheAvailable(rest, l');
      }
    }
  }

  lemma RestIsConsistent(l: Lock, i: nat)
    requires Consistent(l) && i < |l.waiting|
    ensures Consistent(l.(waiting := Rest(l.waiting, i)))
  {
  }

  // A claim takes the requester's entry out of the queue, calls nobody, and adds its units to those held; an empty
  // one does nothing.
  lemma ClaimExactly(l: Lock, id: int, access: LockAccess)
    requires Consistent(l) && IsAvailable(l, id, access)
    ensures
      var l' := Next(l, DoClaim(id, access));
      if access.count == 0 then l' == l
      else
        && (forall i :: 0 <= i < |l'.waiting| ==> l'.waiting[i].id != id)
        && (forall i :: 0 <= i < |l.waiting| && l.waiting[i].id == id ==> l'.waiting == Rest(l.waiting, i))
        && ((forall i :: 0 <= i < |l.waiting| ==> l.waiting[i].id != id) ==> l'.waiting == l.waiting)
        && l'.owners == l.owners + [Owner(id, access)] && l'.maxCount == l.maxCount
        && l'.exclusive == l.exclusive + UnitsOf(access, Exclusive)
        && l'.counting == l.counting + UnitsOf(access, Counting)
  {
    hide Find, Without, Units;
    WithoutShape(l.waiting, id);
    forall i: nat | i < |l.waiting| && l.waiting[i].id == id ensures Find(l.waiting, id) == Some(i) {
      FindAt(l.waiting, i);
    }
    WithoutNone(l.waiting, id);
  }

  // Whoever cannot be served is queued once, uncalled: in its old place, or else behind everybody.
  lemma WaitExactly(l: Lock, id: int, access: LockAccess, token: nat)
    requires Consistent(l) && MayWait(l, id, access)
    ensures
      var (l', entry) := (Next(l, DoWait(id, access, token)), Waiter(id, access, Some(token)));
      if IsAvailable(l, id, access) then l' == l
      else
        && l' == l.(waiting := l'.waiting)
        && (forall i :: 0 <= i < |l.waiting| && l.waiting[i].id == id ==> l'.waiting == l.waiting[i := entry])
        && ((forall i :: 0 <= i < |l.waiting| ==> l.waiting[i].id != id) ==> l'.waiting == l.waiting + [entry])
  {
    forall i: nat | i < |l.waiting| && l.waiting[i].id == id ensures Find(l.waiting, id) == Some(i) {
      FindAt(l.waiting, i);
    }
    hide IsAvailable, Consistent;
  }

  // When a requester that is not queued may claim: it has to let everybody pass who is.
  lemma NewcomerAvailableExactly(l: Lock, id: int, access: LockAccess)
    requires Consistent(l) && forall i :: 0 <= i < |l.waiting| ==> l.waiting[i].id != id
    ensures IsAvailable(l, id, access) <==>
      match access.mode
      case Counting =>
        || access.count == 0
        || (&& (forall o :: o in l.owners ==> o.access.mode.Counting?)
            && (forall w :: w in l.waiting ==> w.access.mode.Counting?)
            && Units(l.owners, Counting) + |l.waiting| + access.count <= l.maxCount)
      case Exclusive => l.owners == [] && l.waiting == []
  {
    assert Ahead(l, id) == l.waiting;
    HeldExactly(l);
  }

  lemma HeldExactly(l: Lock)
    requires Consistent(l)
    ensures l.exclusive == 0 <==> forall o :: o in l.owners ==> o.access.mode.Counting?
    ensures l.exclusive == 0 && l.counting == 0 <==> l.owners == []
    ensures l.counting == Units(l.owners, Counting)
  {
    UnitsBound(l.owners);
    NoUnits(l.owners, Exclusive);
  }

  lemma {:induction false} NoUnits(owners: seq<Owner>, mode: Mode)
    ensures (forall o :: o in owners ==> o.access.mode != mode) ==> Units(owners, mode) == 0
  {
    if owners != [] {
      NoUnits(owners[1..], mode);
      assert owners == [owners[0]] + owners[1..];
    }
  }
}
