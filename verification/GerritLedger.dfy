/** What becomes of an event once it is accepted. A polled or queued event is recorded and handed on in one
    go. A line of a followed stream is recorded, and is handed on only after the write of its timestamp,
    which takes as long as it takes; writes of different lines may finish in any order. */
module GerritLedger {
  import opened Prelude
  import opened Sorting

  // An event is its timestamp, in whole seconds, and everything else in it.
  datatype Event = Event(ts: int, body: string)

  // The events in the order they were recorded, the order they were handed on, those waiting for their
  // timestamp to be written, and the last timestamp a write was started for.
  datatype Ledger = Ledger(recorded: seq<Event>, handed: seq<Event>, pending: seq<Event>, saved: Option<int>)

  const EMPTY := Ledger([], [], [], None)

  datatype Happening =
    | Polled(e: Event)
    | Followed(e: Event)
    | Saves(ts: Option<int>)
    | Written(i: nat)

  function Keep(l: Ledger, h: Happening): Ledger {
    match h
    case Polled(e) => l.(recorded := l.recorded + [e], handed := l.handed + [e])
    case Followed(e) =>
      if l.saved == Some(e.ts) then l.(recorded := l.recorded + [e], handed := l.handed + [e])
      else l.(recorded := l.recorded + [e], pending := l.pending + [e], saved := Some(e.ts))
    case Saves(ts) => l.(saved := ts)
    case Written(i) =>
      if i < |l.pending| then
        l.(handed := l.handed + [l.pending[i]], pending := l.pending[..i] + l.pending[i + 1..])
      else l
  }

  function Run(l: Ledger, hs: seq<Happening>): Ledger {
    if hs == [] then l else Keep(Run(l, hs[..|hs| - 1]), hs[|hs| - 1])
  }

  ghost predicate InOrder(events: seq<Event>) {
    forall i, j :: 0 <= i < j < |events| ==> events[i].ts <= events[j].ts
  }

  lemma {:induction false} RunsCompose(l: Ledger, hs: seq<Happening>, more: seq<Happening>)
    ensures Run(l, hs + more) == Run(Run(l, hs), more)
  {
    if more == [] {
      assert hs + more == hs;
    } else {
      var n := |more| - 1;
      RunsCompose(l, hs, more[..n]);
      assert (hs + more)[..|hs| + n] == hs + more[..n];
    }
  }

  lemma OneHappening(l: Ledger, h: Happening)
    ensures Run(l, [h]) == Keep(l, h)
  {
    assert [h][..0] == [];
    assert Run(l, []) == l;
  }

  ghost predicate BecomesLater(l: Ledger, l': Ledger) { exists hs :: Run(l, hs) == l' }

  lemma StaysAsIs(l: Ledger)
    ensures BecomesLater(l, l)
  {
    assert Run(l, []) == l;
  }

  lemma OneMore(l: Ledger, l': Ledger, h: Happening)
    requires BecomesLater(l, l')
    ensures BecomesLater(l, Keep(l', h))
  {
    var hs :| Run(l, hs) == l';
    OneHappening(l', h);
    RunsCompose(l, hs, [h]);
    assert Run(l, hs + [h]) == Keep(l', h);
  }

  lemma LaterStill(l: Ledger, l': Ledger, l'': Ledger)
    requires BecomesLater(l, l') && BecomesLater(l', l'')
    ensures BecomesLater(l, l'')
  {
    var hs :| Run(l, hs) == l';
    var more :| Run(l', more) == l'';
    RunsCompose(l, hs, more);
    assert Run(l, hs + more) == l'';
  }

  // ---- Every recorded event is handed on once ----

  ghost predicate Balanced(l: Ledger) { multiset(l.recorded) == multiset(l.handed) + multiset(l.pending) }

  lemma KeepBalances(l: Ledger, h: Happening)
    requires Balanced(l)
    ensures Balanced(Keep(l, h))
  {
    if h.Written? && h.i < |l.pending| {
      assert l.pending == l.pending[..h.i] + [l.pending[h.i]] + l.pending[h.i + 1..];
    }
  }

  // At all times the recorded events are the ones handed on and the ones waiting, each counted once.
  lemma {:induction false} RecordedOnceHandedOnce(hs: seq<Happening>)
    ensures Balanced(Run(EMPTY, hs))
    ensures Distinct(Run(EMPTY, hs).recorded) ==> Distinct(Run(EMPTY, hs).handed)
  {
    if hs != [] {
      RecordedOnceHandedOnce(hs[..|hs| - 1]);
      KeepBalances(Run(EMPTY, hs[..|hs| - 1]), hs[|hs| - 1]);
    }
    var l := Run(EMPTY, hs);
    DistinctMeansOnce(l.recorded);
    DistinctMeansOnce(l.handed);
    assert forall e :: multiset(l.recorded)[e] == multiset(l.handed)[e] + multiset(l.pending)[e];
  }

  // ---- The order of handing on ----

  predicate OlderWaits(l: Ledger, e: Event) { exists p :: p in l.pending && p.ts < e.ts }

  // An event is handed on while one of an earlier second is still waiting for its write.
  predicate Overtakes(l: Ledger, h: Happening) {
    match h
    case Polled(e) => OlderWaits(l, e)
    case Followed(e) => l.saved == Some(e.ts) && OlderWaits(l, e)
    case Saves(_) => false
    case Written(i) => i < |l.pending| && OlderWaits(l, l.pending[i])
  }

  ghost predicate Tidy(l: Ledger) {
    && InOrder(l.handed)
    && (forall e :: e in l.handed || e in l.pending ==> e in l.recorded)
    && (forall p, e :: p in l.pending && e in l.handed ==> e.ts <= p.ts)
  }

  ghost predicate Untidy(l: Ledger) {
    !InOrder(l.handed) || exists p, e :: p in l.pending && e in l.handed && p.ts < e.ts
  }

  lemma RestOfPending(l: Ledger, i: nat)
    requires i < |l.pending|
    ensures forall p :: p in Keep(l, Written(i)).pending ==> p in l.pending
    ensures forall p :: p in l.pending ==> p in Keep(l, Written(i)).pending || p == l.pending[i]
  {
    var rest := l.pending[..i] + l.pending[i + 1..];
    forall p | p in l.pending ensures p in rest || p == l.pending[i] {
      var j :| 0 <= j < |l.pending| && l.pending[j] == p;
      if j < i {
        assert rest[j] == p;
      } else if j > i {
        assert rest[j - 1] == p;
      }
    }
  }

  // An event recorded last may be handed on unless an older one is waiting, or be left waiting.
  lemma RecordingKeepsTidy(l: Ledger, e: Event, l': Ledger)
    requires Tidy(l) && InOrder(l.recorded + [e]) && l'.recorded == l.recorded + [e]
    requires || (l'.handed == l.handed + [e] && l'.pending == l.pending && !OlderWaits(l, e))
             || (l'.handed == l.handed && l'.pending == l.pending + [e])
    ensures Tidy(l')
  {
    NewestLast(l.recorded, e);
  }

  lemma WritingKeepsTidy(l: Ledger, i: nat)
    requires Tidy(l) && i < |l.pending| && !OlderWaits(l, l.pending[i])
    ensures Tidy(Keep(l, Written(i)))
  {
    RestOfPending(l, i);
    assert l.pending[i] in l.pending;
  }

  lemma KeepsTidy(l: Ledger, h: Happening)
    requires Tidy(l) && InOrder(Keep(l, h).recorded) && !Overtakes(l, h)
    ensures Tidy(Keep(l, h))
  {
    match h
    case Polled(e) => RecordingKeepsTidy(l, e, Keep(l, h));
    case Followed(e) => RecordingKeepsTidy(l, e, Keep(l, h));
    case Saves(_) =>
    case Written(i) =>
      if i < |l.pending| {
        WritingKeepsTidy(l, i);
      }
  }

  lemma NewestLast(recorded: seq<Event>, e: Event)
    requires InOrder(recorded + [e])
    ensures forall x :: x in recorded ==> x.ts <= e.ts
  {
    forall x | x in recorded ensures x.ts <= e.ts {
      var i :| 0 <= i < |recorded| && recorded[i] == x;
      assert (recorded + [e])[i] == x && (recorded + [e])[|recorded|] == e;
    }
  }

  lemma OvertakingUntidies(l: Ledger, h: Happening)
    requires Overtakes(l, h)
    ensures Untidy(Keep(l, h))
  {
    var e := match h { case Polled(e) => e case Followed(e) => e case Written(i) => l.pending[i] };
    var p :| p in l.pending && p.ts < e.ts;
    if h.Written? {
      RestOfPending(l, h.i);
    }
    assert e in Keep(l, h).handed && p in Keep(l, h).pending;
  }

  lemma OutOfOrder(events: seq<Event>, e: Event, p: Event)
    requires e in events && p.ts < e.ts
    ensures !InOrder(events + [p])
  {
    var i :| 0 <= i < |events| && events[i] == e;
    assert (events + [p])[i] == e && (events + [p])[|events|] == p;
  }

  lemma DisorderStays(events: seq<Event>, e: Event)
    requires !InOrder(events)
    ensures !InOrder(events + [e])
  {
    var i, j :| 0 <= i < j < |events| && events[i].ts > events[j].ts;
    assert (events + [e])[i] == events[i] && (events + [e])[j] == events[j];
  }

  lemma UntidyStays(l: Ledger, h: Happening)
    requires Untidy(l)
    ensures Untidy(Keep(l, h))
  {
    var l' := Keep(l, h);
    if l'.handed != l.handed && !InOrder(l.handed) {
      DisorderStays(l.handed, l'.handed[|l.handed|]);
    } else if InOrder(l.handed) {
      var p, e :| p in l.pending && e in l.handed && p.ts < e.ts;
      if h.Written? && h.i < |l.pending| {
        RestOfPending(l, h.i);
        if l.pending[h.i] == p {
          OutOfOrder(l.handed, e, p);
        }
      }
      assert e in l'.handed;
    }
  }

  lemma {:induction false} TidyUnlessOvertaken(hs: seq<Happening>)
    requires InOrder(Run(EMPTY, hs).recorded)
    ensures if forall k :: 0 <= k < |hs| ==> !Overtakes(Run(EMPTY, hs[..k]), hs[k])
            then Tidy(Run(EMPTY, hs)) else Untidy(Run(EMPTY, hs))
  {
    hide Overtakes, Tidy, Untidy, Keep;
    if hs == [] {
      NothingIsTidy();
    } else {
      var n := |hs| - 1;
      var (init, h) := (hs[..n], hs[n]);
      var l := Run(EMPTY, init);
      EarlierInOrder(l, h);
      TidyUnlessOvertaken(init);
      assert forall k :: 0 <= k < n ==> init[..k] == hs[..k] && init[k] == hs[k];
      if exists k :: 0 <= k < n && Overtakes(Run(EMPTY, hs[..k]), hs[k]) {
        var k :| 0 <= k < n && Overtakes(Run(EMPTY, hs[..k]), hs[k]);
        assert Overtakes(Run(EMPTY, init[..k]), init[k]);
        UntidyStays(l, h);
      } else if Overtakes(l, h) {
        OvertakingUntidies(l, h);
      } else {
        KeepsTidy(l, h);
      }
    }
  }

  lemma NothingIsTidy()
    ensures Tidy(EMPTY)
  {
  }

  lemma EarlierInOrder(l: Ledger, h: Happening)
    requires InOrder(Keep(l, h).recorded)
    ensures InOrder(l.recorded)
  {
    assert l.recorded <= Keep(l, h).recorded;
    assert forall i :: 0 <= i < |l.recorded| ==> Keep(l, h).recorded[i] == l.recorded[i];
  }

  // Once nothing is waiting, events recorded in time order have been handed on in time order if and only
  // if none was ever handed on while one of an earlier second was waiting.
  lemma HandingOnOrderExactly(hs: seq<Happening>)
    requires InOrder(Run(EMPTY, hs).recorded) && Run(EMPTY, hs).pending == []
    ensures InOrder(Run(EMPTY, hs).handed)
       <==> forall k :: 0 <= k < |hs| ==> !Overtakes(Run(EMPTY, hs[..k]), hs[k])
  {
    TidyUnlessOvertaken(hs);
    hide Overtakes, Run;
  }

  // Two lines of a followed stream, in order; the write for the second one finishes first.
  lemma SlowWriteIsOvertaken()
    ensures
      var (x, y) := (Event(101, "x"), Event(102, "y"));
      var l := Run(EMPTY, [Followed(x), Followed(y), Written(1), Written(0)]);
      l.recorded == [x, y] && l.handed == [y, x] && l.pending == []
  {
    var (x, y) := (Event(101, "x"), Event(102, "y"));
    var l1 := Ledger([x], [], [x], Some(101));
    var l2 := Ledger([x, y], [], [x, y], Some(102));
    var l3 := Ledger([x, y], [y], [x], Some(102));
    OneHappening(EMPTY, Followed(x));
    OneHappening(l1, Followed(y));
    OneHappening(l2, Written(1));
    OneHappening(l3, Written(0));
    RunsCompose(EMPTY, [Followed(x)], [Followed(y)]);
    RunsCompose(EMPTY, [Followed(x), Followed(y)], [Written(1)]);
    RunsCompose(EMPTY, [Followed(x), Followed(y), Written(1)], [Written(0)]);
    assert [Followed(x)] + [Followed(y)] == [Followed(x), Followed(y)];
    assert [Followed(x), Followed(y)] + [Written(1)] == [Followed(x), Followed(y), Written(1)];
    assert [Followed(x), Followed(y), Written(1)] + [Written(0)] == [Followed(x), Followed(y), Written(1), Written(0)];
  }
}
