/** The state of one BaseLock as a value, and what each of its operations does to that value. */
module LockState {
  import opened Prelude

  datatype Mode = Counting | Exclusive

  datatype Access = Access(lockId: int, mode: Mode, count: nat)

  // The LockAccess constructor only lets an exclusive access occupy one unit.
  type LockAccess = a: Access | a.mode.Exclusive? ==> a.count == 1 witness Access(0, Counting, 0)

  // A waiter's deferred is a token; None means that it has been woken.
  datatype Waiter = Waiter(id: int, access: LockAccess, token: Option<nat>)

  datatype Owner = Owner(id: int, access: LockAccess)

  datatype Lock = Lock(waiting: seq<Waiter>, owners: seq<Owner>, exclusive: int, counting: int, maxCount: int)

  function Find(waiting: seq<Waiter>, id: int): (r: Option<nat>)
    ensures r.Some? ==> r.value < |waiting| && waiting[r.value].id == id
    ensures r.Some? ==> forall j :: 0 <= j < r.value ==> waiting[j].id != id
    ensures r.None? ==> forall j :: 0 <= j < |waiting| ==> waiting[j].id != id
  {
    if waiting == [] then None
    else if waiting[0].id == id then Some(0)
    else match Find(waiting[1..], id)
      case None => None
      case Some(i) => Some(i + 1)
  }

  // The waiters a requester has to let pass: all of them when it is not queued itself.
  function Ahead(l: Lock, id: int): seq<Waiter> {
    match Find(l.waiting, id)
    case None => l.waiting
    case Some(i) => l.waiting[..i]
  }

  predicate AllCounting(ws: seq<Waiter>) {
    forall w :: w in ws ==> w.access.mode.Counting?
  }

  predicate IsAvailable(l: Lock, id: int, access: LockAccess) {
    var ahead := Ahead(l, id);
    access.count == 0 ||
    match access.mode
    case Counting => l.exclusive == 0 && l.counting + |ahead| + access.count <= l.maxCount && AllCounting(ahead)
    case Exclusive => l.exclusive == 0 && l.counting == 0 && ahead == []
  }

  function Without(ws: seq<Waiter>, id: int): (r: seq<Waiter>) {
    if ws == [] then []
    else (if ws[0].id == id then [] else [ws[0]]) + Without(ws[1..], id)
  }

  function Units(owners: seq<Owner>, mode: Mode): (n: nat) {
    if owners == [] then 0
    else (if owners[0].access.mode == mode then owners[0].access.count else 0) + Units(owners[1..], mode)
  }

  // Units asked for by the waiters of one mode; the running sums of a wake-up pass.
  function Demand(ws: seq<Waiter>, mode: Mode): (n: nat) {
    if ws == [] then 0
    else Demand(ws[..|ws| - 1], mode) +
         (if ws[|ws| - 1].access.mode == mode then ws[|ws| - 1].access.count else 0)
  }

  // The wake-up pass may step over waiter j.
  predicate Passes(l: Lock, j: nat)
    requires j < |l.waiting|
  {
    var excl := l.exclusive + Demand(l.waiting[..j], Exclusive);
    var counting := l.counting + Demand(l.waiting[..j], Counting);
    match l.waiting[j].access.mode
    case Counting => excl <= 0 && counting < l.maxCount
    case Exclusive => excl <= 0 && counting <= 0
  }

  // A wake-up pass reaches waiter i when nobody up to and including i stops it.
  predicate Reached(l: Lock, i: nat)
    requires i < |l.waiting|
  {
    forall j: nat :: j <= i ==> Passes(l, j)
  }

  function Wake(l: Lock): Lock {
    l.(waiting := seq(|l.waiting|, i requires 0 <= i < |l.waiting| =>
      if Reached(l, i) then l.waiting[i].(token := None) else l.waiting[i]))
  }

  function Claim(l: Lock, id: int, access: LockAccess): Lock {
    if access.count == 0 then l
    else
      var l' := l.(waiting := Without(l.waiting, id), owners := l.owners + [Owner(id, access)]);
      match access.mode
      case Counting => l'.(counting := l.counting + access.count)
      case Exclusive => l'.(exclusive := l.exclusive + 1)
  }

  // Removes the first occurrence, as list.remove does.
  function RemoveFirst(owners: seq<Owner>, o: Owner): (r: seq<Owner>)
    ensures o !in owners ==> r == owners
  {
    if owners == [] then []
    else if owners[0] == o then owners[1..]
    else [owners[0]] + RemoveFirst(owners[1..], o)
  }

  // The lock once an owner is gone, before anybody is woken.
  function Released(l: Lock, o: Owner): Lock {
    var l' := l.(owners := RemoveFirst(l.owners, o));
    match o.access.mode
    case Counting => l'.(counting := l.counting - o.access.count)
    case Exclusive => l'.(exclusive := l.exclusive - 1)
  }

  function Release(l: Lock, id: int, access: LockAccess): Lock {
    if access.count == 0 || Owner(id, access) !in l.owners then l
    else Wake(Released(l, Owner(id, access)))
  }

  predicate MayWait(l: Lock, id: int, access: LockAccess) {
    IsAvailable(l, id, access) ||
    match Find(l.waiting, id) { case None => true case Some(i) => l.waiting[i].token.None? }
  }

  function Wait(l: Lock, id: int, access: LockAccess, token: nat): Lock {
    if IsAvailable(l, id, access) then l
    else match Find(l.waiting, id)
      case None => l.(waiting := l.waiting + [Waiter(id, access, Some(token))])
      case Some(i) => l.(waiting := l.waiting[i := Waiter(id, access, Some(token))])
  }

  predicate MayStop(l: Lock, id: int, token: nat) {
    match Find(l.waiting, id)
    case None => false
    case Some(i) => l.waiting[i].token.Some? ==> l.waiting[i].token == Some(token)
  }

  function Stop(l: Lock, id: int, token: nat): Lock
    requires MayStop(l, id, token)
  {
    var i := Find(l.waiting, id).value;
    var l' := l.(waiting := l.waiting[..i] + l.waiting[i + 1..]);
    if l.waiting[i].token.Some? then l' else Wake(l')
  }

  function SetMaxCount(l: Lock, count: int): Lock {
    if count > l.maxCount then Wake(l.(maxCount := count)) else l.(maxCount := count)
  }

  // What every operation keeps: one queue entry a requester, no empty requests held or queued,
  // counters that match the owners, and exclusive access that excludes everybody else.
  ghost predicate Consistent(l: Lock) { QueueOk(l.waiting) && OwnersOk(l.owners, l.exclusive, l.counting) }

  ghost predicate QueueOk(ws: seq<Waiter>) {
    && (forall i, j :: 0 <= i < j < |ws| ==> ws[i].id != ws[j].id)
    && (forall w :: w in ws ==> w.access.count > 0)
  }

  ghost predicate OwnersOk(owners: seq<Owner>, exclusive: int, counting: int) {
    && (forall o :: o in owners ==> o.access.count > 0)
    && exclusive == Units(owners, Exclusive)
    && counting == Units(owners, Counting)
    && exclusive <= 1
    && (exclusive == 1 ==> counting == 0)
  }

  lemma {:induction false} UnitsAppend(owners: seq<Owner>, o: Owner, mode: Mode)
    ensures Units(owners + [o], mode) == Units(owners, mode) + (if o.access.mode == mode then o.access.count else 0)
  {
    if owners == [] {
      assert owners + [o] == [o];
      assert [o][1..] == [];
    } else {
      assert (owners + [o])[1..] == owners[1..] + [o];
      UnitsAppend(owners[1..], o, mode);
    }
  }

  lemma {:induction false} RemoveFirstTakesOne(owners: seq<Owner>, o: Owner)
    requires o in owners
    ensures multiset(RemoveFirst(owners, o)) == multiset(owners) - multiset{o}
  {
    assert owners == [owners[0]] + owners[1..];
    if owners[0] != o {
      RemoveFirstTakesOne(owners[1..], o);
    }
  }

  lemma {:induction false} UnitsRemoveFirst(owners: seq<Owner>, o: Owner, mode: Mode)
    requires o in owners
    ensures Units(RemoveFirst(owners, o), mode)
         == Units(owners, mode) - (if o.access.mode == mode then o.access.count else 0)
  {
    if owners[0] != o {
      UnitsRemoveFirst(owners[1..], o, mode);
      var rest := RemoveFirst(owners[1..], o);
      assert ([owners[0]] + rest)[1..] == rest;
    }
  }

  lemma RemoveFirstOnlyRemoves(owners: seq<Owner>, o: Owner, p: Owner)
    requires o in owners && p in RemoveFirst(owners, o)
    ensures p in owners
  {
    RemoveFirstTakesOne(owners, o);
    assert p in multiset(RemoveFirst(owners, o));
  }

  lemma {:induction false} WithoutAbsent(ws: seq<Waiter>, id: int)
    requires forall j :: 0 <= j < |ws| ==> ws[j].id != id
    ensures Without(ws, id) == ws
  {
    if ws != [] {
      WithoutAbsent(ws[1..], id);
      assert ws == [ws[0]] + ws[1..];
    }
  }

  // Dropping one requester takes out its own entry and keeps the order of the others.
  lemma {:induction false} WithoutAt(ws: seq<Waiter>, i: nat)
    requires i < |ws|
    requires forall j, k :: 0 <= j < k < |ws| ==> ws[j].id != ws[k].id
    ensures Without(ws, ws[i].id) == ws[..i] + ws[i + 1..]
  {
    if i == 0 {
      WithoutAbsent(ws[1..], ws[0].id);
      assert Without(ws, ws[0].id) == [] + ws[1..];
    } else {
      var rest := ws[1..];
      WithoutAt(rest, i - 1);
      assert rest[i - 1] == ws[i];
      assert Without(ws, ws[i].id) == [ws[0]] + (rest[..i - 1] + rest[i..]);
      assert [ws[0]] + rest[..i - 1] == ws[..i];
    }
  }

  lemma WithoutShape(ws: seq<Waiter>, id: int)
    requires forall j, k :: 0 <= j < k < |ws| ==> ws[j].id != ws[k].id
    ensures Without(ws, id) == (match Find(ws, id) case None => ws case Some(i) => ws[..i] + ws[i + 1..])
  {
    match Find(ws, id)
    case None => WithoutAbsent(ws, id);
    case Some(i) => WithoutAt(ws, i);
  }

  lemma WakeKeepsConsistent(l: Lock)
    requires Consistent(l)
    ensures Consistent(Wake(l))
  {
    var l' := Wake(l);
    forall w | w in l'.waiting ensures w.access.count > 0 {
      var i :| 0 <= i < |l'.waiting| && l'.waiting[i] == w;
      assert l.waiting[i] in l.waiting;
    }
  }

  lemma LeavingKeepsQueue(ws: seq<Waiter>, id: int)
    requires QueueOk(ws)
    ensures QueueOk(Without(ws, id))
  {
    WithoutShape(ws, id);
  }

  lemma JoiningKeepsOwners(owners: seq<Owner>, exclusive: int, counting: int, o: Owner)
    requires OwnersOk(owners, exclusive, counting) && o.access.count > 0
    requires exclusive == 0 && (o.access.mode.Exclusive? ==> counting == 0)
    ensures OwnersOk(owners + [o], if o.access.mode.Exclusive? then 1 else 0,
                     if o.access.mode.Counting? then counting + o.access.count else counting)
  {
    UnitsAppend(owners, o, Exclusive);
    UnitsAppend(owners, o, Counting);
  }

  lemma ClaimKeepsConsistent(l: Lock, id: int, access: LockAccess)
    requires Consistent(l) && IsAvailable(l, id, access)
    ensures Consistent(Claim(l, id, access))
  {
    hide QueueOk, OwnersOk, Without;
    if access.count != 0 {
      LeavingKeepsQueue(l.waiting, id);
      JoiningKeepsOwners(l.owners, l.exclusive, l.counting, Owner(id, access));
    }
  }

  lemma ReleaseKeepsConsistent(l: Lock, id: int, access: LockAccess)
    requires Consistent(l)
    ensures Consistent(Release(l, id, access))
  {
    var o := Owner(id, access);
    if access.count != 0 && o in l.owners {
      UnitsRemoveFirst(l.owners, o, Exclusive);
      UnitsRemoveFirst(l.owners, o, Counting);
      forall p | p in RemoveFirst(l.owners, o) ensures p.access.count > 0 {
        RemoveFirstOnlyRemoves(l.owners, o, p);
      }
      WakeKeepsConsistent(Released(l, o));
    }
  }

  lemma WaitKeepsConsistent(l: Lock, id: int, access: LockAccess, token: nat)
    requires Consistent(l)
    ensures Consistent(Wait(l, id, access, token))
  {
  }

  lemma StopKeepsConsistent(l: Lock, id: int, token: nat)
    requires Consistent(l) && MayStop(l, id, token)
    ensures Consistent(Stop(l, id, token))
  {
    var i := Find(l.waiting, id).value;
    var l' := l.(waiting := l.waiting[..i] + l.waiting[i + 1..]);
    assert Consistent(l');
    WakeKeepsConsistent(l');
  }

  lemma SetMaxCountKeepsConsistent(l: Lock, count: int)
    requires Consistent(l)
    ensures Consistent(SetMaxCount(l, count))
  {
    WakeKeepsConsistent(l.(maxCount := count));
  }
}
