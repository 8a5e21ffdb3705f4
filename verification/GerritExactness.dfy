/** One poll records every event exactly once and in time order, whatever lines arrive while it runs. */
module GerritExactness {
  import opened Prelude
  import opened Sorting
  import opened GerritLedger
  import opened GerritMerge

  // The stream lines still to come.
  function Coming(arrivals: seq<seq<Line>>): seq<Event> {
    if arrivals == [] then [] else Parse(arrivals[0]) + Coming(arrivals[1..])
  }

  // The queue as it will be once everything has arrived.
  function Future(m: Merge): seq<Event> { m.queue + Coming(m.arrivals) }

  // What has been recorded is in time order and without repetition, and the bookkeeping of the last
  // second is exact. No hashes from an earlier run of the service are in play.
  ghost predicate Coherent(m: Merge) {
    && InOrder(m.ledger.recorded) && Distinct(m.ledger.recorded)
    && (m.hashes.Some? ==> m.hashes.value == [])
    && (match m.lastTs
        case None => m.ledger.recorded == [] && m.lastSecond == []
        case Some(last) =>
          && m.ledger.recorded != [] && m.ledger.recorded[|m.ledger.recorded| - 1].ts == last
          && (forall e :: e in m.ledger.recorded ==> e.ts <= last)
          && (forall e :: e in m.lastSecond <==> e in m.ledger.recorded && e.ts == last))
  }

  // e may be recorded next.
  predicate Fresh(m: Merge, e: Event) { e !in m.ledger.recorded && Newest(m, e.ts) }

  predicate Newest(m: Merge, ts: int) { m.lastTs.Some? ==> m.lastTs.value <= ts }

  // Lines that arrive during the poll are queued, or there are none.
  predicate Quiet(m: Merge) { !m.synchronized || m.arrivals == [] }

  lemma EmitKeepsCoherent(m: Merge, e: Event)
    requires Coherent(m) && Fresh(m, e)
    ensures Coherent(Emit(m, e))
  {
    var m' := Emit(m, e);
    forall x ensures x in m'.lastSecond <==> x in m'.ledger.recorded && x.ts == e.ts {
      if m.lastTs == Some(e.ts) {
        assert x in m'.lastSecond <==> x in m.lastSecond || x == e;
      }
    }
  }

  // ---- Yields ----

  // Lines that come in while nothing is followed are queued; at most timestamp writes finish besides.
  lemma {:induction false} QuietLines(m: Merge, lines: seq<Line>)
    requires !m.synchronized
    ensures StreamLines(m, lines) == m.(queue := m.queue + Parse(lines), ledger := StreamLines(m, lines).ledger)
    ensures StreamLines(m, lines).ledger.recorded == m.ledger.recorded
  {
    if lines == [] {
      assert m.queue + [] == m.queue;
    } else {
      QuietLines(m, lines[..|lines| - 1]);
    }
  }

  // A yield only moves lines from the environment into the queue.
  lemma YieldQueues(m: Merge)
    requires Quiet(m)
    ensures Yield(m) == m.(queue := Yield(m).queue, arrivals := Yield(m).arrivals, ledger := Yield(m).ledger)
    ensures Yield(m).ledger.recorded == m.ledger.recorded
    ensures Future(Yield(m)) == Future(m) && m.queue <= Yield(m).queue && Quiet(Yield(m))
  {
    if m.arrivals != [] {
      var m1 := m.(arrivals := m.arrivals[1..]);
      QuietLines(m1, m.arrivals[0]);
      assert (m.queue + Parse(m.arrivals[0])) + Coming(m.arrivals[1..])
             == m.queue + (Parse(m.arrivals[0]) + Coming(m.arrivals[1..]));
    }
  }

  lemma YieldKeepsCoherent(m: Merge)
    requires Coherent(m) && Quiet(m)
    ensures Coherent(Yield(m))
  {
    YieldQueues(m);
  }

  // ---- Handing on a sorted batch ----

  // m' is m after events, and only they, have been handed on; lines that came in meanwhile are queued.
  ghost predicate HandedOn(m: Merge, events: seq<Event>, m': Merge) {
    && Coherent(m') && Quiet(m') && m'.ledger.recorded == m.ledger.recorded + events
    && Future(m') == Future(m) && m.queue <= m'.queue
    && m'.synchronized == m.synchronized && m'.timedOut == m.timedOut
    && m'.lastTs == (if events == [] then m.lastTs else Some(events[|events| - 1].ts))
  }

  lemma HandOnOne(m: Merge, init: seq<Event>, m1: Merge, e: Event)
    requires HandedOn(m, init, m1) && Fresh(m1, e)
    ensures HandedOn(m, init + [e], Yield(Emit(m1, e)))
  {
    hide *;
    var (m2, m3) := (Emit(m1, e), Yield(Emit(m1, e)));
    HandedOnCoherent(m, init, m1);
    EmitKeepsCoherent(m1, e);
    EmitOnlyRecords(m1, e);
    YieldQueues(m2);
    YieldKeepsCoherent(m2);
    OneMoreHandedOn(m, init, m1, e, m3);
  }

  lemma HandedOnCoherent(m: Merge, init: seq<Event>, m1: Merge)
    requires HandedOn(m, init, m1)
    ensures Coherent(m1) && Quiet(m1)
  {
  }

  lemma OneMoreHandedOn(m: Merge, init: seq<Event>, m1: Merge, e: Event, m3: Merge)
    requires HandedOn(m, init, m1) && Coherent(m3) && Quiet(m3)
    requires m3.ledger.recorded == m1.ledger.recorded + [e] && m3.lastTs == Some(e.ts)
    requires Future(m3) == Future(m1) && m1.queue <= m3.queue
    requires m3.synchronized == m1.synchronized && m3.timedOut == m1.timedOut
    ensures HandedOn(m, init + [e], m3)
  {
    hide Coherent, Quiet, Future;
    assert (m.ledger.recorded + init) + [e] == m.ledger.recorded + (init + [e]);
  }

  lemma EmitOnlyRecords(m: Merge, e: Event)
    ensures
      var m' := Emit(m, e);
      && m'.ledger.recorded == m.ledger.recorded + [e] && m'.lastTs == Some(e.ts) && Future(m') == Future(m)
      && m'.queue == m.queue && m'.arrivals == m.arrivals && m'.synchronized == m.synchronized
      && m'.timedOut == m.timedOut && Quiet(m') == Quiet(m)
  {
  }

  lemma NothingHandedOn(m: Merge)
    requires Coherent(m) && Quiet(m)
    ensures HandedOn(m, [], m)
  {
    assert m.ledger.recorded + [] == m.ledger.recorded;
  }

  lemma FrontOf(events: seq<Event>)
    requires events != [] && InOrder(events) && Distinct(events)
    ensures InOrder(events[..|events| - 1]) && Distinct(events[..|events| - 1])
    ensures events[..|events| - 1] + [events[|events| - 1]] == events
  {
  }

  lemma {:induction false} EmitAllExact(m: Merge, events: seq<Event>)
    requires Coherent(m) && Quiet(m)
    requires InOrder(events) && Distinct(events) && forall e :: e in events ==> Fresh(m, e)
    ensures HandedOn(m, events, EmitAll(m, events))
  {
    if events == [] {
      NothingHandedOn(m);
    } else {
      FrontOf(events);
      hide Coherent, Yield, Future, Fresh, Quiet, InOrder, Distinct;
      var n := |events| - 1;
      var (init, e) := (events[..n], events[n]);
      EmitAllExact(m, init);
      var m1 := EmitAll(m, init);
      LastIsFresh(m, m1, events);
      HandOnOne(m, init, m1, e);
    }
  }

  lemma LastIsFresh(m: Merge, m1: Merge, events: seq<Event>)
    requires events != [] && InOrder(events) && Distinct(events) && Fresh(m, events[|events| - 1])
    requires m1.ledger.recorded == m.ledger.recorded + events[..|events| - 1]
    requires m1.lastTs == (if |events| == 1 then m.lastTs else Some(events[|events| - 2].ts))
    ensures Fresh(m1, events[|events| - 1])
  {
  }

  // ---- Draining the queue ----

  ghost predicate DrainReady(m: Merge, i: nat) {
    && Coherent(m) && !m.synchronized && i <= |m.queue|
    && InOrder(Future(m)) && Distinct(Future(m))
    && (forall j :: i <= j < |Future(m)| ==> Newest(m, Future(m)[j].ts))
    && (forall j :: 0 <= j < i ==> m.queue[j] in m.ledger.recorded)
  }

  // The skip test of the loop finds exactly the events handed on before.
  lemma SkipTestIsExact(m: Merge, i: nat)
    requires DrainReady(m, i) && i < |m.queue|
    ensures m.lastTs == Some(m.queue[i].ts) && m.queue[i] in m.lastSecond <==> m.queue[i] in m.ledger.recorded
  {
    assert Future(m)[i] == m.queue[i];
  }

  lemma DrainStep(m: Merge, i: nat)
    requires DrainReady(m, i) && i < |m.queue| && m.queue[i] !in m.ledger.recorded
    ensures DrainReady(Yield(Emit(m, m.queue[i])), i + 1)
    ensures Future(Yield(Emit(m, m.queue[i]))) == Future(m)
    ensures Yield(Emit(m, m.queue[i])).ledger.recorded == m.ledger.recorded + [m.queue[i]]
    ensures m.queue <= Yield(Emit(m, m.queue[i])).queue
  {
    var e := m.queue[i];
    assert Future(m)[i] == e;
    EmitKeepsCoherent(m, e);
    var m1 := Emit(m, e);
    YieldQueues(m1);
    YieldKeepsCoherent(m1);
    var m2 := Yield(m1);
    assert Future(m2) == Future(m);
    forall j | 0 <= j < i + 1 ensures m2.queue[j] in m2.ledger.recorded {
      assert m2.queue[j] == m.queue[j];
    }
  }

  // m' is m after draining from entry i: what the queue holds at the end, and nothing else, is handed on.
  ghost predicate Drained(m: Merge, i: nat, m': Merge) {
    && DrainReady(m', |m'.queue|) && Future(m') == Future(m) && m.queue <= m'.queue
    && m.ledger.recorded <= m'.ledger.recorded
    && i <= |m'.queue| && (forall e :: e in m'.ledger.recorded <==> e in m.ledger.recorded || e in m'.queue[i..])
    && m'.timedOut == m.timedOut
  }

  lemma DrainedOneMore(m: Merge, i: nat, m2: Merge, m': Merge)
    requires i < |m.queue| && m.queue <= m2.queue && Drained(m2, i + 1, m')
    requires Future(m2) == Future(m) && m2.timedOut == m.timedOut && m.ledger.recorded <= m2.ledger.recorded
    requires forall e :: e in m2.ledger.recorded <==> e in m.ledger.recorded || e == m.queue[i]
    ensures Drained(m, i, m')
  {
    hide DrainReady, Future;
    assert m'.queue[i] == m.queue[i];
    assert m'.queue[i..] == [m.queue[i]] + m'.queue[i + 1..];
  }

  lemma {:induction false} DrainExact(m: Merge, i: nat)
    requires DrainReady(m, i)
    ensures Drained(m, i, Drain(m, i))
    decreases |m.arrivals|, |m.queue| - i
  {
    if i < |m.queue| {
      hide Drained, Yield, Coherent, Future, InOrder, Distinct;
      var e := m.queue[i];
      SkipTestIsExact(m, i);
      if e in m.ledger.recorded {
        DrainExact(m, i + 1);
        DrainedOneMore(m, i, m, Drain(m, i + 1));
      } else {
        DrainStep(m, i);
        YieldConsumes(Emit(m, e));
        var m2 := Yield(Emit(m, e));
        DrainExact(m2, i + 1);
        YieldQueues(Emit(m, e));
        DrainedOneMore(m, i, m2, Drain(m2, i + 1));
      }
    } else {
      assert m.queue[i..] == [];
    }
  }

  // ---- The batch ----

  lemma ByTimeIsTotal()
    ensures TotalPreorder(ByTime())
  {
  }

  lemma {:induction false} UnseenMeans(hash: Event -> string, m: Merge, events: seq<Event>)
    ensures forall e :: e in Unseen(hash, m, events) <==> e in events && !Seen(hash, m, e)
    ensures Distinct(events) ==> Distinct(Unseen(hash, m, events))
  {
    if events != [] {
      var n := |events| - 1;
      UnseenMeans(hash, m, events[..n]);
      assert events == events[..n] + [events[n]];
    }
  }

  // Whatever a coherent source has not seen may be handed on next.
  lemma UnseenIsFresh(hash: Event -> string, m: Merge, e: Event)
    requires Coherent(m)
    ensures !Seen(hash, m, e) <==> Fresh(m, e)
  {
  }

  lemma BatchMeans(hash: Event -> string, m: Merge, lines: seq<Line>)
    requires Coherent(m) && Distinct(Parse(lines))
    ensures
      var events := Batch(hash, m, lines);
      && InOrder(events) && Distinct(events)
      && (forall e :: e in events <==> e in Parse(lines) && Fresh(m, e))
  {
    var unseen := Unseen(hash, m, Parse(lines));
    var events := Batch(hash, m, lines);
    UnseenMeans(hash, m, Parse(lines));
    ByTimeIsTotal();
    SortSorts(ByTime(), unseen);
    DistinctPermutes(unseen, events);
    forall i, j | 0 <= i < j < |events| ensures events[i].ts <= events[j].ts {
      assert ByTime()(events[i], events[j]);
    }
    forall e ensures e in events <==> e in Parse(lines) && Fresh(m, e) {
      assert e in events <==> e in multiset(events);
      assert e in unseen <==> e in multiset(unseen);
      UnseenIsFresh(hash, m, e);
    }
  }

  lemma OneMoreInOrder(init: seq<Event>, e: Event)
    requires InOrder(init) && Distinct(init)
    requires forall x :: x in init ==> x != e && x.ts <= e.ts
    ensures InOrder(init + [e]) && Distinct(init + [e])
  {
  }

  lemma LastComesAfter(events: seq<Event>)
    requires events != [] && InOrder(events) && Distinct(events)
    ensures
      var n := |events| - 1;
      && InOrder(events[..n]) && Distinct(events[..n]) && events == events[..n] + [events[n]]
      && forall x :: x in events[..n] ==> x != events[n] && x.ts <= events[n].ts
  {
  }

  lemma {:induction false} UpToMeans(events: seq<Event>, ts: int)
    requires InOrder(events) && Distinct(events)
    ensures InOrder(UpTo(events, ts)) && Distinct(UpTo(events, ts))
    ensures forall e :: e in UpTo(events, ts) <==> e in events && e.ts <= ts
  {
    if events != [] {
      hide InOrder, Distinct;
      var n := |events| - 1;
      LastComesAfter(events);
      UpToMeans(events[..n], ts);
      if events[n].ts <= ts {
        OneMoreInOrder(UpTo(events[..n], ts), events[n]);
      } else {
        assert UpTo(events, ts) == UpTo(events[..n], ts);
      }
    } else {
      assert UpTo(events, ts) == events;
    }
  }

  // ---- The two outcomes of a poll ----

  function LastOf(events: seq<Event>): int
    requires events != []
  {
    events[|events| - 1].ts
  }

  lemma LastIsNoOlder(events: seq<Event>, e: Event)
    requires InOrder(events) && e in events
    ensures events != [] && LastOf(events) >= e.ts
  {
    var i :| 0 <= i < |events| && events[i] == e;
  }

  // While the poll has not overtaken the stream, exactly what was polled and is not older than the last
  // second has been recorded afterwards, in order and once, and the lines that came in meanwhile are queued.
  lemma PollOnlyExact(hash: Event -> string, m: Merge, lines: seq<Line>)
    requires Coherent(m) && Distinct(Parse(lines)) && Batch(hash, m, lines) != []
    requires !m.synchronized || m.timedOut
    requires Quiet(Opened(m, LastOf(Batch(hash, m, lines)))) && !HandsOver(m, LastOf(Batch(hash, m, lines)))
    ensures
      var m' := Poll(hash, m, lines);
      && Coherent(m') && m.ledger.recorded <= m'.ledger.recorded
      && (forall e :: e in m'.ledger.recorded <==> e in m.ledger.recorded || (e in Parse(lines) && Newest(m, e.ts)))
      && Future(m') == Future(m) && m.queue <= m'.queue
      && m'.lastTs == Some(LastOf(Batch(hash, m, lines)))
      && m'.synchronized == Opened(m, LastOf(Batch(hash, m, lines))).synchronized
  {
    var events := Batch(hash, m, lines);
    BatchMeans(hash, m, lines);
    OpenedKeeps(m, LastOf(events));
    EmitAllExact(Opened(m, LastOf(events)), events);
    PollOnlyIs(hash, m, lines);
    SavingKeeps(EmitAll(Opened(m, LastOf(events)), events));
    hide Batch, Coherent, Future, EmitAll;
  }

  // Starting the timestamp write at the end of a poll changes nothing that has been recorded.
  lemma SavingKeeps(m: Merge)
    ensures Coherent(SaveTs(m)) <==> Coherent(m)
    ensures Future(SaveTs(m)) == Future(m) && SaveTs(m).ledger.recorded == m.ledger.recorded
  {
  }

  lemma OpenedKeeps(m: Merge, ts: int)
    requires Coherent(m)
    ensures Coherent(Opened(m, ts)) && Future(Opened(m, ts)) == Future(m)
    ensures forall e :: Fresh(Opened(m, ts), e) <==> Fresh(m, e)
  {
  }

  lemma PollOnlyIs(hash: Event -> string, m: Merge, lines: seq<Line>)
    requires (!m.synchronized || m.timedOut) && Batch(hash, m, lines) != []
    requires !HandsOver(m, LastOf(Batch(hash, m, lines)))
    ensures Poll(hash, m, lines) == SaveTs(EmitAll(Opened(m, LastOf(Batch(hash, m, lines))), Batch(hash, m, lines)))
  {
    hide Batch, EmitAll;
  }

  lemma HandOverIs(hash: Event -> string, m: Merge, lines: seq<Line>)
    requires (!m.synchronized || m.timedOut) && Batch(hash, m, lines) != []
    requires HandsOver(m, LastOf(Batch(hash, m, lines)))
    ensures
      var events := Batch(hash, m, lines);
      var m3 := Drain(EmitAll(Opened(m, LastOf(events)), UpTo(events, m.queue[0].ts)), 0);
      Poll(hash, m, lines)
      == SaveTs(m3.(queue := [],
                    synchronized := if m.timedOut && Newer(m, LastOf(events)) then m3.synchronized else true))
  {
    hide Batch, EmitAll, UpTo, Drain;
  }

  // Once the early part of the batch is out, the queue can be drained.
  lemma EarlyPartOut(m1: Merge, early: seq<Event>, m2: Merge)
    requires HandedOn(m1, early, m2) && !m1.synchronized && m1.queue != []
    requires InOrder(Future(m1)) && Distinct(Future(m1)) && Newest(m1, m1.queue[0].ts)
    requires forall e :: e in early ==> e.ts <= m1.queue[0].ts
    ensures DrainReady(m2, 0)
  {
    assert Future(m1)[0] == m1.queue[0];
    if early != [] {
      assert early[|early| - 1] in early;
    }
  }

  // After both loops everything in the early part and in the queue is out, and nothing else is.
  lemma BothLoopsExact(m1: Merge, early: seq<Event>)
    requires Coherent(m1) && !m1.synchronized && m1.queue != []
    requires InOrder(early) && Distinct(early)
    requires forall e :: e in early ==> Fresh(m1, e) && e.ts <= m1.queue[0].ts
    requires InOrder(Future(m1)) && Distinct(Future(m1)) && Newest(m1, m1.queue[0].ts)
    ensures
      var m3 := Drain(EmitAll(m1, early), 0);
      && Coherent(m3) && !m3.synchronized && m3.timedOut == m1.timedOut
      && m1.queue <= m3.queue && Future(m3) == Future(m1) && m1.ledger.recorded <= m3.ledger.recorded
      && forall e :: e in m3.ledger.recorded <==> e in m1.ledger.recorded || e in early || e in m3.queue
  {
    EmitAllExact(m1, early);
    var m2 := EmitAll(m1, early);
    EarlyPartOut(m1, early, m2);
    hide EmitAll, Drain, InOrder, Distinct, Future, Coherent;
    DrainExact(m2, 0);
    var m3 := Drain(m2, 0);
    assert m3.queue[0..] == m3.queue;
  }

  // The hand-over from polling to the stream is exact: what has been recorded afterwards is what was
  // before, everything polled from the last second up to the first queued one, and everything that was or
  // came into the queue before the switch; all of it once and in order.
  lemma HandOverExact(hash: Event -> string, m: Merge, lines: seq<Line>) returns (queued: seq<Event>)
    requires Coherent(m) && Distinct(Parse(lines)) && Batch(hash, m, lines) != []
    requires !m.synchronized || m.timedOut
    requires HandsOver(m, LastOf(Batch(hash, m, lines)))
    requires !Opened(m, LastOf(Batch(hash, m, lines))).synchronized
    requires InOrder(Future(m)) && Distinct(Future(m)) && Newest(m, m.queue[0].ts)
    ensures
      var m' := Poll(hash, m, lines);
      && Coherent(m') && m.ledger.recorded <= m'.ledger.recorded && m'.queue == []
      && (m'.synchronized <==> !(m.timedOut && Newer(m, LastOf(Batch(hash, m, lines)))))
      && m.queue <= queued && Future(m) == queued + Coming(m'.arrivals)
      && forall e :: e in m'.ledger.recorded <==>
           || e in m.ledger.recorded || e in queued
           || (e in Parse(lines) && Newest(m, e.ts) && e.ts <= m.queue[0].ts)
  {
    var events := Batch(hash, m, lines);
    var m1 := Opened(m, LastOf(events));
    var early := UpTo(events, m.queue[0].ts);
    BatchMeans(hash, m, lines);
    UpToMeans(events, m.queue[0].ts);
    OpenedKeeps(m, LastOf(events));
    HandOverIs(hash, m, lines);
    hide Batch, UpTo, EmitAll, Drain, Coherent, InOrder, Distinct, Poll, Parse, Future;
    assert Newest(m1, m.queue[0].ts);
    BothLoopsExact(m1, early);
    var m3 := Drain(EmitAll(m1, early), 0);
    queued := m3.queue;
    ClearedIs(m3, Poll(hash, m, lines), Future(m));
    forall e ensures e in early <==> e in Parse(lines) && Fresh(m, e) && e.ts <= m.queue[0].ts {
    }
  }

  // Emptying the drained queue and starting the timestamp write.
  lemma ClearedIs(m: Merge, m': Merge, future: seq<Event>)
    requires Coherent(m) && Future(m) == future
    requires m' == SaveTs(m.(queue := [], synchronized := m'.synchronized))
    ensures Coherent(m') && m'.ledger.recorded == m.ledger.recorded
    ensures m'.queue == [] && future == m.queue + Coming(m'.arrivals)
  {
  }
}
