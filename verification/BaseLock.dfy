/** BaseLock as an object: its fields are updated in place, and View() is the value LockState reasons about. */
module BaseLocks {
  import opened Prelude
  import opened LockState

  class BaseLock {
    var waiting: seq<Waiter>
    var owners: seq<Owner>
    var maxCount: int
    var claimedExcl: int
    var claimedCounting: int
    var nextToken: nat

    ghost function View(): Lock
      reads this
    {
      Lock(waiting, owners, claimedExcl, claimedCounting, maxCount)
    }

    ghost predicate Valid()
      reads this
    {
      Consistent(View()) && forall w :: w in waiting && w.token.Some? ==> w.token.value < nextToken
    }

    constructor (maxCount: int)
      ensures Valid() && View() == Lock([], [], 0, 0, maxCount)
    {
      waiting, owners := [], [];
      this.maxCount := maxCount;
      claimedExcl, claimedCounting := 0, 0;
      nextToken := 0;
    }

    method FindWaiting(requester: int) returns (idx: Option<nat>)
      ensures idx == Find(waiting, requester)
    {
      for i := 0 to |waiting|
        invariant forall j :: 0 <= j < i ==> waiting[j].id != requester
      {
        if waiting[i].id == requester {
          return Some(i);
        }
      }
      return None;
    }

    method CheckAvailable(requester: int, access: LockAccess) returns (available: bool)
      ensures available == IsAvailable(View(), requester, access)
    {
      if access.count == 0 {
        return true;
      }
      var index := FindWaiting(requester);
      var ahead := if index.None? then waiting else waiting[..index.value];
      if access.mode.Exclusive? {
        return claimedExcl == 0 && claimedCounting == 0 && ahead == [];
      }
      if claimedExcl != 0 || claimedCounting + |ahead| + access.count > maxCount {
        return false;
      }
      for i := 0 to |ahead|
        invariant forall j :: 0 <= j < i ==> ahead[j].access.mode.Counting?
      {
        if ahead[i].access.mode.Exclusive? {
          return false;
        }
      }
      return true;
    }

    // The wake-up pass: running sums decide how far it gets, and entries are rewritten as it goes.
    method TryWakeUp()
      requires forall w :: w in waiting && w.token.Some? ==> w.token.value < nextToken
      modifies `waiting
      ensures View() == Wake(old(View()))
      ensures forall w :: w in waiting && w.token.Some? ==> w.token.value < nextToken
    {
      hide Find, Without, Units, Reached, Demand, Consistent;
      ghost var before := View();
      var excl, counting := claimedExcl, claimedCounting;
      NobodyDemands(before.waiting);
      var i := 0;
      while i < |waiting|
        invariant 0 <= i <= |waiting| == |before.waiting|
        invariant forall j: nat :: j < i ==> Passes(before, j)
        invariant excl == before.exclusive + Demand(before.waiting[..i], Exclusive)
        invariant counting == before.counting + Demand(before.waiting[..i], Counting)
        invariant forall j :: 0 <= j < i ==> waiting[j] == before.waiting[j].(token := None)
        invariant forall j :: i <= j < |waiting| ==> waiting[j] == before.waiting[j]
      {
        var w := waiting[i];
        DemandStep(before.waiting, i);
        if w.access.mode.Counting? {
          if excl > 0 || counting >= maxCount {
            break;
          }
          counting := counting + w.access.count;
        } else {
          if excl > 0 || counting > 0 {
            break;
          }
          excl := excl + w.access.count;
        }
        if w.token.Some? {
          waiting := waiting[i := w.(token := None)];
        }
        i := i + 1;
      }
      assert i < |waiting| ==> !Passes(before, i);
      WakeIs(before, i, waiting);
    }

    method SetMax(count: int)
      requires Valid()
      modifies `maxCount, `waiting
      ensures Valid() && View() == SetMaxCount(old(View()), count)
    {
      SetMaxCountKeepsConsistent(View(), count);
      var oldMaxCount := maxCount;
      maxCount := count;
      if count > oldMaxCount {
        TryWakeUp();
      }
    }

    method WaitingWithout(owner: int) returns (kept: seq<Waiter>)
      ensures kept == Without(waiting, owner)
      ensures forall w :: w in kept ==> w in waiting
    {
      kept := [];
      for i := 0 to |waiting|
        invariant kept == Without(waiting[..i], owner)
        invariant forall w :: w in kept ==> w in waiting
      {
        WithoutAppend(waiting[..i], waiting[i], owner);
        assert waiting[..i + 1] == waiting[..i] + [waiting[i]];
        if waiting[i].id != owner {
          kept := kept + [waiting[i]];
        }
      }
      assert waiting[..|waiting|] == waiting;
    }

    // The source's closing assertion names the exclusive counter twice; what it is after is promised here.
    method AddOwner(owner: int, access: LockAccess)
      requires access.count > 0 && claimedExcl == 0
      requires access.mode.Exclusive? ==> claimedCounting == 0
      requires access.mode.Counting? ==> 0 <= claimedCounting && claimedCounting + access.count <= maxCount
      modifies `owners, `claimedExcl, `claimedCounting
      ensures owners == old(owners) + [Owner(owner, access)]
      ensures claimedExcl == if access.mode.Exclusive? then 1 else 0
      ensures claimedCounting == old(claimedCounting) + if access.mode.Counting? then access.count else 0
      ensures (claimedExcl != 0 && claimedCounting == 0) || (claimedExcl == 0 && claimedCounting <= maxCount)
    {
      owners := owners + [Owner(owner, access)];
      if access.mode.Counting? {
        claimedCounting := claimedCounting + access.count;
      } else {
        claimedExcl := claimedExcl + 1;
      }
      assert (claimedExcl != 0 && claimedCounting == 0) || (claimedExcl == 0 && claimedExcl <= maxCount);
    }

    method ClaimLock(owner: int, access: LockAccess)
      requires Valid() && IsAvailable(View(), owner, access)
      modifies `waiting, `owners, `claimedExcl, `claimedCounting
      ensures Valid() && View() == Claim(old(View()), owner, access)
      ensures access.count > 0 ==>
                (claimedExcl != 0 && claimedCounting == 0) || (claimedExcl == 0 && claimedCounting <= maxCount)
    {
      hide Consistent, IsAvailable, Without;
      if access.count != 0 {
        ghost var before := View();
        ClaimKeepsConsistent(before, owner, access);
        RoomForOwner(before, owner, access);
        waiting := WaitingWithout(owner);
        AddOwner(owner, access);
        assert View() == Claim(before, owner, access);
      }
    }

    method RemoveOwner(owner: int, access: LockAccess) returns (removed: bool)
      modifies `owners, `claimedExcl, `claimedCounting
      ensures removed == (Owner(owner, access) in old(owners))
      ensures View() == if removed then Released(old(View()), Owner(owner, access)) else old(View())
    {
      var entry := Owner(owner, access);
      if entry !in owners {
        return false;
      }
      owners := RemoveFirst(owners, entry);
      if access.mode.Counting? {
        claimedCounting := claimedCounting - access.count;
      } else {
        claimedExcl := claimedExcl - 1;
      }
      return true;
    }

    method ReleaseLock(owner: int, access: LockAccess)
      requires Valid()
      modifies `waiting, `owners, `claimedExcl, `claimedCounting
      ensures Valid() && View() == Release(old(View()), owner, access)
    {
      ReleaseKeepsConsistent(View(), owner, access);
      if access.count != 0 {
        var removed := RemoveOwner(owner, access);
        if removed {
          TryWakeUp();
        }
      }
    }

    // Returns None when the deferred handed out has fired already, otherwise its token.
    method WaitUntilMaybeAvailable(owner: int, access: LockAccess) returns (d: Option<nat>)
      requires Valid() && MayWait(View(), owner, access)
      modifies `waiting, `nextToken
      ensures Valid() && View() == Wait(old(View()), owner, access, old(nextToken))
      ensures d == if IsAvailable(old(View()), owner, access) then None else Some(old(nextToken))
    {
      WaitKeepsConsistent(View(), owner, access, nextToken);
      var available := CheckAvailable(owner, access);
      if available {
        return None;
      }
      d := Some(nextToken);
      var index := FindWaiting(owner);
      if index.Some? {
        waiting := waiting[index.value := Waiter(owner, access, d)];
      } else {
        waiting := waiting + [Waiter(owner, access, d)];
      }
      nextToken := nextToken + 1;
    }

    method StopWaitingUntilAvailable(owner: int, access: LockAccess, d: nat)
      requires Valid() && MayStop(View(), owner, d)
      modifies `waiting
      ensures Valid() && View() == Stop(old(View()), owner, d)
    {
      StopKeepsConsistent(View(), owner, d);
      var index := FindWaiting(owner);
      var woken := waiting[index.value].token.None?;
      waiting := waiting[..index.value] + waiting[index.value + 1..];
      if woken {
        TryWakeUp();
      }
    }
  }

  lemma NobodyDemands(ws: seq<Waiter>)
    ensures forall mode :: Demand(ws[..0], mode) == 0
  {
  }

  lemma DemandStep(ws: seq<Waiter>, i: nat)
    requires i < |ws|
    ensures forall mode :: Demand(ws[..i + 1], mode)
                        == Demand(ws[..i], mode) + (if ws[i].access.mode == mode then ws[i].access.count else 0)
  {
    assert ws[..i + 1][..i] == ws[..i];
  }

  // A pass that stopped at waiter i has called exactly those in front of it.
  lemma WakeIs(l: Lock, i: nat, called: seq<Waiter>)
    requires i <= |l.waiting| == |called| && (forall j: nat :: j < i ==> Passes(l, j))
    requires i < |l.waiting| ==> !Passes(l, i)
    requires forall j :: 0 <= j < i ==> called[j] == l.waiting[j].(token := None)
    requires forall j :: i <= j < |called| ==> called[j] == l.waiting[j]
    ensures called == Wake(l).waiting
    ensures forall w :: w in called && w.token.Some? ==> w in l.waiting
  {
    hide Passes;
    forall w | w in called && w.token.Some? ensures w in l.waiting {
      var j :| 0 <= j < |called| && called[j] == w;
      assert l.waiting[j] in l.waiting;
    }
  }

  // An available lock has room for the access.
  lemma RoomForOwner(l: Lock, id: int, access: LockAccess)
    requires Consistent(l) && IsAvailable(l, id, access) && access.count > 0
    ensures l.exclusive == 0 && (access.mode.Exclusive? ==> l.counting == 0)
    ensures access.mode.Counting? ==> 0 <= l.counting && l.counting + access.count <= l.maxCount
  {
    hide QueueOk;
  }

  lemma {:induction false} WithoutAppend(ws: seq<Waiter>, w: Waiter, id: int)
    ensures Without(ws + [w], id) == Without(ws, id) + (if w.id == id then [] else [w])
  {
    if ws == [] {
      assert [w][1..] == [];
      assert ws + [w] == [w];
    } else {
      assert (ws + [w])[1..] == ws[1..] + [w] && (ws + [w])[0] == ws[0];
      WithoutAppend(ws[1..], w, id);
      assert Without(ws + [w], id) == (if ws[0].id == id then [] else [ws[0]]) + Without(ws[1..] + [w], id);
    }
  }
}
