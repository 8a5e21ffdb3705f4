/** Where a line or a poll falls short of time order or no repetition, and the condition, which the source does
    not check, under which it does not. */
module GerritLimits {
  import opened Prelude
  import opened Sorting
  import opened GerritLedger
  import opened GerritMerge
  import opened GerritExactness
  import opened GerritStream

  lemma FollowOnlyRecords(m: Merge, e: Event)
    ensures
      var m' := Follow(m, e);
      && m'.ledger.recorded == m.ledger.recorded + [e] && m'.queue == m.queue && m'.lastTs == Some(e.ts)
      && m'.arrivals == m.arrivals && m'.synchronized == m.synchronized
  {
  }

  lemma FollowKeepsCoherent(m: Merge, e: Event)
    requires Coherent(m) && Fresh(m, e)
    ensures Coherent(Follow(m, e))
  {
    EmitKeepsCoherent(m, e);
  }

  // Lines of a followed stream are recorded unchecked: all is well exactly when each is new and not older.
  lemma FollowedLineExactly(m: Merge, e: Event)
    requires Coherent(m) && m.synchronized
    ensures Coherent(StreamLine(m, Good(e))) <==> Fresh(m, e)
  {
    var m' := StreamLine(m, Good(e));
    if Fresh(m, e) {
      FollowKeepsCoherent(m, e);
    } else {
      var n := |m.ledger.recorded|;
      assert m'.ledger.recorded[n] == e;
      if e in m.ledger.recorded {
        var i :| 0 <= i < n && m.ledger.recorded[i] == e;
        assert m'.ledger.recorded[i] == m'.ledger.recorded[n];
      } else {
        assert m'.ledger.recorded[n - 1].ts > m'.ledger.recorded[n].ts;
      }
    }
  }

  // ---- Nothing is taken back ----

  lemma {:induction false} LinesOnlyAdd(m: Merge, lines: seq<Line>)
    ensures m.ledger.recorded <= StreamLines(m, lines).ledger.recorded
  {
    if lines != [] {
      LinesOnlyAdd(m, lines[..|lines| - 1]);
    }
  }

  lemma EmittingOnlyAdds(m: Merge, e: Event)
    ensures m.ledger.recorded + [e] <= Yield(Emit(m, e)).ledger.recorded
  {
    var m1 := Emit(m, e);
    if m1.arrivals != [] {
      LinesOnlyAdd(m1.(arrivals := m1.arrivals[1..]), m1.arrivals[0]);
    }
  }

  lemma {:induction false} EmitAllOnlyAdds(m: Merge, events: seq<Event>)
    ensures m.ledger.recorded <= EmitAll(m, events).ledger.recorded
  {
    if events != [] {
      hide Yield, Emit;
      var n := |events| - 1;
      EmitAllOnlyAdds(m, events[..n]);
      var m1 := EmitAll(m, events[..n]);
      EmittingOnlyAdds(m1, events[n]);
      assert m1.ledger.recorded <= m1.ledger.recorded + [events[n]];
    }
  }

  lemma {:induction false} DrainOnlyAdds(m: Merge, i: nat)
    ensures m.ledger.recorded <= Drain(m, i).ledger.recorded
    decreases |m.arrivals|, if i < |m.queue| then |m.queue| - i else 0
  {
    hide *;
    DrainIs(m, i);
    if i < |m.queue| {
      var e := m.queue[i];
      if m.lastTs == Some(e.ts) && e in m.lastSecond {
        DrainOnlyAdds(m, i + 1);
      } else {
        var m1 := Yield(Emit(m, e));
        OneMoreTakesFromFront(m, e);
        DrainOnlyAdds(m1, i + 1);
        EmittingOnlyAdds(m, e);
        assert m.ledger.recorded <= m.ledger.recorded + [e];
      }
    }
  }

  lemma PollOnlyAdds(hash: Event -> string, m: Merge, lines: seq<Line>)
    ensures m.ledger.recorded <= Poll(hash, m, lines).ledger.recorded
  {
    var events := Batch(hash, m, lines);
    if (!m.synchronized || m.timedOut) && events != [] {
      var m1 := Opened(m, LastOf(events));
      hide Batch, EmitAll, Drain, UpTo;
      var early := if HandsOver(m1, LastOf(events)) then UpTo(events, m1.queue[0].ts) else events;
      EmitAllOnlyAdds(m1, early);
      DrainOnlyAdds(EmitAll(m1, early), 0);
    }
  }

  lemma {:induction false} NothingEarly(events: seq<Event>, ts: int)
    requires forall e :: e in events ==> e.ts > ts
    ensures UpTo(events, ts) == []
  {
    if events != [] {
      NothingEarly(events[..|events| - 1], ts);
    }
  }

  // A queued line older than the last recorded event is recorded after it, and if it was recorded before it
  // is recorded again.
  lemma LateLineComesOut(hash: Event -> string, m: Merge, lines: seq<Line>)
    requires Coherent(m) && Distinct(Parse(lines)) && Batch(hash, m, lines) != []
    requires !m.synchronized || m.timedOut
    requires HandsOver(m, LastOf(Batch(hash, m, lines))) && !Opened(m, LastOf(Batch(hash, m, lines))).synchronized
    requires !Newest(m, m.queue[0].ts)
    ensures m.ledger.recorded + [m.queue[0]] <= Poll(hash, m, lines).ledger.recorded
  {
    var events := Batch(hash, m, lines);
    BatchMeans(hash, m, lines);
    NothingEarly(events, m.queue[0].ts);
    HandOverIs(hash, m, lines);
    var m1 := Opened(m, LastOf(events));
    hide Batch, UpTo;
    assert EmitAll(m1, []) == m1;
    EmittingOnlyAdds(m1, m.queue[0]);
    DrainOnlyAdds(Yield(Emit(m1, m.queue[0])), 1);
  }

  // The switch to the stream keeps time order exactly when the first queued line is not older than the
  // last event handed on.
  lemma HandOverOrderExactly(hash: Event -> string, m: Merge, lines: seq<Line>)
    requires Coherent(m) && Distinct(Parse(lines)) && Batch(hash, m, lines) != []
    requires !m.synchronized || m.timedOut
    requires HandsOver(m, LastOf(Batch(hash, m, lines))) && !Opened(m, LastOf(Batch(hash, m, lines))).synchronized
    requires InOrder(Future(m)) && Distinct(Future(m))
    ensures InOrder(Poll(hash, m, lines).ledger.recorded) <==> Newest(m, m.queue[0].ts)
  {
    hide Batch, Poll;
    if Newest(m, m.queue[0].ts) {
      var queued := HandOverExact(hash, m, lines);
    } else {
      LateLineComesOut(hash, m, lines);
      var (n, emitted) := (|m.ledger.recorded|, Poll(hash, m, lines).ledger.recorded);
      assert emitted[n - 1] == m.ledger.recorded[n - 1] && emitted[n] == m.queue[0];
    }
  }

  // ---- A poll on a silent but synchronized stream ----

  predicate Unbroken(lines: seq<Line>) { forall i :: 0 <= i < |lines| ==> !lines[i].Restarted? }

  // What a followed stream records of some lines: the events until it is started again.
  function FollowedOf(lines: seq<Line>): seq<Event> {
    if lines == [] then []
    else
      var n := |lines| - 1;
      FollowedOf(lines[..n]) + if lines[n].Good? && Unbroken(lines[..n]) then [lines[n].event] else []
  }

  // The stream is not started again at the first k yields.
  predicate UnbrokenUntil(arrivals: seq<seq<Line>>, k: nat) {
    forall j :: 0 <= j < k && j < |arrivals| ==> Unbroken(arrivals[j])
  }

  function Arriving(arrivals: seq<seq<Line>>, k: nat): seq<Event> {
    if k < |arrivals| && UnbrokenUntil(arrivals, k) then FollowedOf(arrivals[k]) else []
  }

  // What a batch looks like when the lines that come in at each yield are recorded at once.
  function Woven(events: seq<Event>, arrivals: seq<seq<Line>>): seq<Event> {
    if events == [] then []
    else
      var n := |events| - 1;
      Woven(events[..n], arrivals) + [events[n]] + Arriving(arrivals, n)
  }

  lemma UnbrokenLast(lines: seq<Line>)
    requires lines != []
    ensures Unbroken(lines) <==> Unbroken(lines[..|lines| - 1]) && !lines[|lines| - 1].Restarted?
  {
  }

  lemma {:induction false} FollowedLines(m: Merge, lines: seq<Line>)
    requires m.synchronized
    ensures StreamLines(m, lines).ledger.recorded == m.ledger.recorded + FollowedOf(lines)
    ensures StreamLines(m, lines).synchronized <==> Unbroken(lines)
    ensures StreamLines(m, lines).arrivals == m.arrivals
  {
    if lines == [] {
      assert m.ledger.recorded + [] == m.ledger.recorded;
    } else {
      var n := |lines| - 1;
      FollowedLines(m, lines[..n]);
      UnbrokenLast(lines);
      hide Follow, Unbroken;
      var m1 := StreamLines(m, lines[..n]);
      match lines[n]
      case Good(e) => FollowOnlyRecords(m1, e);
      case _ =>
    }
  }

  function From<T>(xs: seq<T>, k: nat): seq<T> { if k <= |xs| then xs[k..] else [] }

  lemma FollowedYield(m: Merge)
    requires m.synchronized
    ensures Yield(m).synchronized <==> UnbrokenUntil(m.arrivals, 1)
    ensures Yield(m).arrivals == From(m.arrivals, 1)
    ensures Yield(m).ledger.recorded == m.ledger.recorded + Arriving(m.arrivals, 0)
  {
    if m.arrivals != [] {
      FollowedLines(m.(arrivals := m.arrivals[1..]), m.arrivals[0]);
    } else {
      assert m.ledger.recorded + [] == m.ledger.recorded;
    }
  }

  lemma UnfollowedYield(m: Merge)
    requires !m.synchronized
    ensures !Yield(m).synchronized && Yield(m).arrivals == From(m.arrivals, 1)
    ensures Yield(m).ledger.recorded == m.ledger.recorded + []
  {
    YieldQueues(m);
    YieldConsumes(m);
  }

  lemma UnbrokenOneMore(arrivals: seq<seq<Line>>, n: nat)
    ensures UnbrokenUntil(arrivals, n + 1) <==> UnbrokenUntil(arrivals, n) && UnbrokenUntil(From(arrivals, n), 1)
    ensures UnbrokenUntil(arrivals, n) ==> Arriving(From(arrivals, n), 0) == Arriving(arrivals, n)
    ensures From(From(arrivals, n), 1) == From(arrivals, n + 1)
  {
    assert n < |arrivals| ==> From(arrivals, n)[0] == arrivals[n];
  }

  lemma {:induction false} WovenIsHandedOn(m: Merge, events: seq<Event>)
    requires m.synchronized
    ensures
      var m' := EmitAll(m, events);
      && m'.ledger.recorded == m.ledger.recorded + Woven(events, m.arrivals)
      && (m'.synchronized <==> UnbrokenUntil(m.arrivals, |events|)) && m'.arrivals == From(m.arrivals, |events|)
  {
    if events == [] {
      assert m.ledger.recorded + [] == m.ledger.recorded;
    } else {
      hide Yield, Arriving, UnbrokenUntil, From;
      var n := |events| - 1;
      WovenIsHandedOn(m, events[..n]);
      var m1 := EmitAll(m, events[..n]);
      UnbrokenOneMore(m.arrivals, n);
      if m1.synchronized {
        FollowedYield(Emit(m1, events[n]));
      } else {
        UnfollowedYield(Emit(m1, events[n]));
        NothingArrives(m.arrivals, n);
      }
      Associates(m.ledger.recorded, Woven(events[..n], m.arrivals), [events[n]], Arriving(m.arrivals, n));
    }
  }

  lemma NothingArrives(arrivals: seq<seq<Line>>, n: nat)
    requires !UnbrokenUntil(arrivals, n)
    ensures Arriving(arrivals, n) == []
  {
  }

  lemma Associates<T>(a: seq<T>, b: seq<T>, c: seq<T>, d: seq<T>)
    ensures ((a + b) + c) + d == a + ((b + c) + d)
  {
  }

  lemma {:induction false} WovenMeans(events: seq<Event>, arrivals: seq<seq<Line>>, e: Event)
    ensures e in Woven(events, arrivals) <==> e in events || exists k: nat :: k < |events| && e in Arriving(arrivals, k)
  {
    hide Arriving;
    if events != [] {
      var n := |events| - 1;
      var init := events[..n];
      WovenMeans(init, arrivals, e);
      assert e in events <==> e in init || e == events[n] by {
        assert events == init + [events[n]];
      }
      assert e in Woven(events, arrivals) <==>
        e in Woven(init, arrivals) || e == events[n] || e in Arriving(arrivals, n);
    }
  }

  // A batch that is no newer than the last second is all of that second.
  lemma BatchOfLastSecond(hash: Event -> string, m: Merge, lines: seq<Line>)
    requires Coherent(m) && Distinct(Parse(lines)) && Batch(hash, m, lines) != []
    requires m.lastTs.Some? && LastOf(Batch(hash, m, lines)) <= m.lastTs.value
    ensures forall e :: e in Batch(hash, m, lines) ==> e.ts == m.lastTs.value
  {
    var events := Batch(hash, m, lines);
    BatchMeans(hash, m, lines);
    hide Batch, InOrder, Distinct, Coherent;
    forall e | e in events ensures e.ts == m.lastTs.value {
      LastIsNoOlder(events, e);
    }
  }

  lemma LevelThenLater(emitted: seq<Event>, woven: seq<Event>, last: Event, tail: seq<Event>)
    requires emitted != [] && emitted[|emitted| - 1].ts == last.ts && InOrder(emitted) && InOrder(tail)
    requires forall e :: e in woven || e in tail ==> e.ts >= last.ts
    ensures InOrder(emitted + (woven + [last] + tail)) <==> forall e :: e in woven ==> e.ts == last.ts
  {
    var all := emitted + (woven + [last] + tail);
    var (n, w) := (|emitted|, |woven|);
    if e :| e in woven && e.ts != last.ts {
      var i :| 0 <= i < w && woven[i] == e;
      assert all[n + i] == e && all[n + w] == last;
    } else {
      forall i, j | 0 <= i < j < |all| ensures all[i].ts <= all[j].ts {
        assert n <= i < n + w ==> woven[i - n] in woven;
        assert n <= j < n + w ==> woven[j - n] in woven;
        assert n + w < j ==> tail[j - n - w - 1] in tail;
      }
    }
  }

  // At the first n yields only events of this second come in.
  ghost predicate LevelUntil(arrivals: seq<seq<Line>>, n: nat, ts: int) {
    forall k: nat, e :: k < n && e in Arriving(arrivals, k) ==> e.ts == ts
  }

  // At each yield events are followed in order, and not older than this second.
  ghost predicate NotOlder(arrivals: seq<seq<Line>>, ts: int) {
    && (forall k: nat :: InOrder(Arriving(arrivals, k)))
    && (forall k: nat, e :: e in Arriving(arrivals, k) ==> e.ts >= ts)
  }

  lemma WovenLevelExactly(events: seq<Event>, arrivals: seq<seq<Line>>, ts: int)
    requires NotOlder(arrivals, ts) && forall e :: e in events ==> e.ts == ts
    ensures forall e :: e in Woven(events, arrivals) ==> e.ts >= ts
    ensures (forall e :: e in Woven(events, arrivals) ==> e.ts == ts) <==> LevelUntil(arrivals, |events|, ts)
  {
    hide Woven, Arriving;
    forall e ensures e in Woven(events, arrivals) <==>
                       e in events || exists k: nat :: k < |events| && e in Arriving(arrivals, k) {
      WovenMeans(events, arrivals, e);
    }
  }

  // What a poll of a silent, synchronized stream records when it finds nothing newer than the last second.
  lemma SilentPollRecordsWoven(hash: Event -> string, m: Merge, lines: seq<Line>)
    requires Batch(hash, m, lines) != [] && m.synchronized && m.timedOut && m.queue == []
    requires m.lastTs.Some? && LastOf(Batch(hash, m, lines)) <= m.lastTs.value
    ensures
      var (events, n) := (Batch(hash, m, lines), |Batch(hash, m, lines)| - 1);
      Poll(hash, m, lines).ledger.recorded
      == m.ledger.recorded + (Woven(events[..n], m.arrivals) + [events[n]] + Arriving(m.arrivals, n))
  {
    PollOnlyIs(hash, m, lines);
    WovenIsHandedOn(m, Batch(hash, m, lines));
    hide Batch, Poll, EmitAll, Arriving;
  }

  // When a silent stream turns out to have missed part of the last second, the rest of that second is
  // recorded in time order exactly when no later line comes in before the last of it is out.
  lemma SilentPollOrderExactly(hash: Event -> string, m: Merge, lines: seq<Line>)
    requires Coherent(m) && Distinct(Parse(lines)) && Batch(hash, m, lines) != []
    requires m.synchronized && m.timedOut && m.queue == []
    requires m.lastTs.Some? && LastOf(Batch(hash, m, lines)) <= m.lastTs.value
    requires NotOlder(m.arrivals, m.lastTs.value)
    ensures InOrder(Poll(hash, m, lines).ledger.recorded)
       <==> LevelUntil(m.arrivals, |Batch(hash, m, lines)| - 1, m.lastTs.value)
  {
    hide *;
    var events := Batch(hash, m, lines);
    BatchOfLastSecond(hash, m, lines);
    SilentPollRecordsWoven(hash, m, lines);
    CoherentEndsAtLast(m);
    var (n, ts) := (|events| - 1, m.lastTs.value);
    NotOlderAt(m.arrivals, ts, n);
    AllOfOneSecond(events, n, ts);
    WovenLevelExactly(events[..n], m.arrivals, ts);
    LevelThenLater(m.ledger.recorded, Woven(events[..n], m.arrivals), events[n], Arriving(m.arrivals, n));
  }

  lemma NotOlderAt(arrivals: seq<seq<Line>>, ts: int, k: nat)
    requires NotOlder(arrivals, ts)
    ensures InOrder(Arriving(arrivals, k)) && forall e :: e in Arriving(arrivals, k) ==> e.ts >= ts
  {
  }

  lemma AllOfOneSecond(events: seq<Event>, n: nat, ts: int)
    requires n < |events| && forall e :: e in events ==> e.ts == ts
    ensures events[n].ts == ts && forall e :: e in events[..n] ==> e.ts == ts
  {
  }

  lemma CoherentEndsAtLast(m: Merge)
    requires Coherent(m) && m.lastTs.Some?
    ensures m.ledger.recorded != [] && InOrder(m.ledger.recorded)
    ensures m.ledger.recorded[|m.ledger.recorded| - 1].ts == m.lastTs.value
  {
  }
}
