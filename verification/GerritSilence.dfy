/** Polls of a silent stream that is still followed: the batch holds more of the last second, and the lines that
    come in while it is handed on are recorded at once, until the stream is started again. */
module GerritSilence {
  import opened Prelude
  import opened Sorting
  import opened GerritLedger
  import opened GerritMerge
  import opened GerritExactness
  import opened GerritLimits
  import opened GerritStream
  import opened GerritRuns
  import opened GerritPolls

  // ---- Such a poll as a sequence of steps ----

  lemma {:induction false} LinesIgnoreArrivals(m: Merge, arrivals: seq<seq<Line>>, lines: seq<Line>)
    ensures StreamLines(m.(arrivals := arrivals), lines) == StreamLines(m, lines).(arrivals := arrivals)
  {
    if lines != [] {
      LinesIgnoreArrivals(m, arrivals, lines[..|lines| - 1]);
    }
  }

  lemma {:induction false} LinesKeepInv(hash: Event -> string, t0: int, s: Sys, h: int, lines: seq<Line>)
    returns (s': Sys, h': int)
    requires InvAt(t0, s, h) && h <= s.first && Brings(s.log, s.delivered, lines)
    ensures InvAt(t0, s', h') && h' <= s'.first && s.first <= s'.first
    ensures s'.m == StreamLines(s.m, lines) && s'.log == s.log && s'.lost == s.lost
    ensures s'.delivered == PlaceAfter(s.delivered, lines)
  {
    hide InvAt, StreamLine;
    if lines == [] {
      s', h' := s, h;
    } else {
      var n := |lines| - 1;
      var s1, h1 := LinesKeepInv(hash, t0, s, h, lines[..n]);
      h' := StreamKeepsInv(hash, t0, s1, h1, lines[n]);
      OneLine(s.log, s1.delivered, lines[n]);
      s' := Next(hash, s1, Stream(lines[n]));
    }
  }

  lemma RecordedOrLost(t0: int, s: Sys, h: int, e: Event)
    requires RecordedUpTo(t0, s, h)
    ensures e in s.lost ==> e !in s.m.ledger.recorded
  {
  }

  // An event that had been lost is recorded after all.
  function Found(s: Sys, e: Event): Sys { s.(m := Emit(s.m, e), lost := s.lost - {e}) }

  lemma FindingKeepsInv(t0: int, s: Sys, h: int, e: Event)
    requires InvAt(t0, s, h) && e in s.lost && Newest(s.m, e.ts)
    ensures InvAt(t0, Found(s, e), h)
  {
    PartsOfInv(t0, s, h);
    assert Fresh(s.m, e) by { RecordedOrLost(t0, s, h, e); }
    EmitKeepsCoherent(s.m, e);
    EmitOnlyRecords(s.m, e);
    var s' := Found(s, e);
    assert QueueIsLive(t0, s') by { hide InOrder, Distinct, Brought, Emit; }
    assert RecordedUpTo(t0, s', h) by { hide InOrder, Distinct, Brought, Emit, QueueIsLive; }
    hide InvAt, Coherent, InOrder, Distinct, QueueIsLive, RecordedUpTo;
    InvFromParts(t0, s', h);
  }

  function Take<T>(xs: seq<T>, k: nat): seq<T> { if k <= |xs| then xs[..k] else xs }

  lemma FlatOneMore(arrivals: seq<seq<Line>>, n: nat)
    requires n < |arrivals|
    ensures Flat(Take(arrivals, n + 1)) == Flat(Take(arrivals, n)) + arrivals[n]
    ensures Flat(arrivals) == Flat(Take(arrivals, n + 1)) + Flat(arrivals[n + 1..])
  {
    assert arrivals[..n + 1] == arrivals[..n] + [arrivals[n]];
    assert Flat([arrivals[n]]) == arrivals[n] + Flat([]) == arrivals[n];
    FlatJoins(arrivals[..n], [arrivals[n]]);
    assert arrivals == arrivals[..n + 1] + arrivals[n + 1..];
    FlatJoins(arrivals[..n + 1], arrivals[n + 1..]);
  }

  lemma LinesOfYield(log: seq<Event>, d: int, arrivals: seq<seq<Line>>, n: nat)
    requires Brings(log, d, Flat(arrivals)) && n < |arrivals|
    ensures Brings(log, PlaceAfter(d, Flat(Take(arrivals, n))), arrivals[n])
    ensures 0 <= d <= PlaceAfter(d, Flat(Take(arrivals, n))) <= |log|
    ensures PlaceAfter(d, Flat(Take(arrivals, n + 1)))
         == PlaceAfter(PlaceAfter(d, Flat(Take(arrivals, n))), arrivals[n])
  {
    hide *;
    FlatOneMore(arrivals, n);
    BringsFirst(log, d, Flat(Take(arrivals, n + 1)), Flat(arrivals[n + 1..]));
    BringsFirst(log, d, Flat(Take(arrivals, n)), arrivals[n]);
    PlaceIsInLog(log, d, Flat(Take(arrivals, n)));
  }

  // A yield is a sequence of stream steps.
  lemma YieldKeepsInv(hash: Event -> string, t0: int, s: Sys, h: int, d: int, arrivals: seq<seq<Line>>, n: nat,
                      m: Merge)
    returns (s': Sys, h': int)
    requires InvAt(t0, s, h) && h <= s.first && Brings(s.log, d, Flat(arrivals))
    requires s.delivered == PlaceAfter(d, Flat(Take(arrivals, n)))
    requires m.arrivals == From(arrivals, n) && s.m == m.(arrivals := [])
    ensures InvAt(t0, s', h') && h' <= s'.first && s.first <= s'.first && s'.log == s.log && s'.lost == s.lost
    ensures s'.m == Yield(m).(arrivals := []) && Yield(m).arrivals == From(arrivals, n + 1)
    ensures s'.delivered == PlaceAfter(d, Flat(Take(arrivals, n + 1)))
  {
    YieldConsumes(m);
    if n < |arrivals| {
      LinesOfYield(s.log, d, arrivals, n);
      s', h' := LinesKeepInv(hash, t0, s, h, arrivals[n]);
      hide InvAt, Brings;
      LinesIgnoreArrivals(s.m, m.arrivals[1..], arrivals[n]);
      assert m.(arrivals := m.arrivals[1..]) == s.m.(arrivals := m.arrivals[1..]);
    } else {
      s', h' := s, h;
      assert Take(arrivals, n) == Take(arrivals, n + 1);
    }
  }

  // While only events of the last second have been recorded, this second stays the last one.
  lemma LastSecondStays(m: Merge, events: seq<Event>, arrivals: seq<seq<Line>>, ts: int, m': Merge)
    requires Coherent(m) && m.lastTs == Some(ts) && Coherent(m')
    requires m'.ledger.recorded == m.ledger.recorded + Woven(events, arrivals)
    requires LevelUntil(arrivals, |events|, ts) && forall e :: e in events ==> e.ts == ts
    ensures m'.lastTs == Some(ts)
  {
    var (r, w) := (m.ledger.recorded, Woven(events, arrivals));
    if w != [] {
      var e := w[|w| - 1];
      assert e in w;
      WovenMeans(events, arrivals, e);
      assert m'.ledger.recorded[|r| + |w| - 1] == e;
    } else {
      assert r + w == r;
    }
  }

  lemma FoundOneMore(s: Sys, events: seq<Event>, s1: Sys, s': Sys)
    requires events != [] && Distinct(events)
    requires forall e :: e in s1.lost <==> e in s.lost && e !in events[..|events| - 1]
    requires s'.lost == s1.lost - {events[|events| - 1]}
    ensures forall e :: e in s'.lost <==> e in s.lost && e !in events
    ensures events[|events| - 1] in s.lost ==> events[|events| - 1] in s1.lost
  {
    var n := |events| - 1;
    assert events == events[..n] + [events[n]];
  }

  // The state of the system and of the source when this part of the batch is out.
  ghost predicate HalfWay(t0: int, s: Sys, events: seq<Event>, arrivals: seq<seq<Line>>, s': Sys, h': int) {
    var m' := EmitAll(s.m.(arrivals := arrivals), events);
    && InvAt(t0, s', h') && h' <= s'.first && s.first <= s'.first && s'.log == s.log
    && s'.m == m'.(arrivals := []) && m'.arrivals == From(arrivals, |events|)
    && s'.delivered == PlaceAfter(s.delivered, Flat(Take(arrivals, |events|)))
    && (forall e :: e in s'.lost <==> e in s.lost && e !in events)
  }

  lemma NothingOutYet(t0: int, s: Sys, h: int, arrivals: seq<seq<Line>>)
    requires InvAt(t0, s, h) && h <= s.first
    ensures HalfWay(t0, s, [], arrivals, s, h)
  {
    assert Take(arrivals, 0) == [];
    assert From(arrivals, 0) == arrivals;
    assert s.m.arrivals == [];
    hide InvAt;
  }

  lemma OneMoreOut(hash: Event -> string, t0: int, s: Sys, events: seq<Event>, arrivals: seq<seq<Line>>, s1: Sys,
                   h1: int)
    returns (s': Sys, h': int)
    requires events != [] && Distinct(events) && HalfWay(t0, s, events[..|events| - 1], arrivals, s1, h1)
    requires events[|events| - 1] in s.lost && Newest(s1.m, events[|events| - 1].ts)
    requires Brings(s.log, s.delivered, Flat(arrivals))
    ensures HalfWay(t0, s, events, arrivals, s', h')
  {
    hide InvAt, Yield, Distinct, Brings, Newest, Emit;
    var n := |events| - 1;
    var e := events[n];
    var m1 := EmitAll(s.m.(arrivals := arrivals), events[..n]);
    assert e in s1.lost by { FoundOneMore(s, events, s1, s1.(lost := s1.lost - {e})); }
    FindingKeepsInv(t0, s1, h1, e);
    var s2 := Found(s1, e);
    EmitIgnoresArrivals(m1, e);
    s', h' := YieldKeepsInv(hash, t0, s2, h1, s.delivered, arrivals, n, Emit(m1, e));
    FoundOneMore(s, events, s1, s');
  }

  lemma EmitIgnoresArrivals(m: Merge, e: Event)
    ensures Emit(m, e).arrivals == m.arrivals && Emit(m, e).(arrivals := []) == Emit(m.(arrivals := []), e)
  {
  }

  lemma {:induction false} SilentSteps(hash: Event -> string, t0: int, s: Sys, h: int, events: seq<Event>,
                                       arrivals: seq<seq<Line>>, ts: int)
    returns (s': Sys, h': int)
    requires InvAt(t0, s, h) && s.m.synchronized && s.m.lastTs == Some(ts)
    requires Brings(s.log, s.delivered, Flat(arrivals))
    requires Distinct(events) && forall e :: e in events ==> e in s.lost && e.ts == ts
    requires events != [] ==> LevelUntil(arrivals, |events| - 1, ts)
    ensures HalfWay(t0, s, events, arrivals, s', h')
  {
    if events == [] {
      SyncBounds(t0, s, h);
      NothingOutYet(t0, s, h, arrivals);
      s', h' := s, h;
    } else {
      hide Yield, HalfWay, Brings;
      var n := |events| - 1;
      FrontIsLevel(arrivals, n, ts);
      var s1, h1 := SilentSteps(hash, t0, s, h, events[..n], arrivals, ts);
      StillLastSecond(t0, s, h, events[..n], arrivals, ts, s1, h1);
      assert events[n] in events;
      hide InvAt, Distinct;
      s', h' := OneMoreOut(hash, t0, s, events, arrivals, s1, h1);
    }
  }

  lemma SyncBounds(t0: int, s: Sys, h: int)
    requires InvAt(t0, s, h) && s.m.synchronized
    ensures h <= s.first
  {
  }

  lemma FrontIsLevel(arrivals: seq<seq<Line>>, n: nat, ts: int)
    requires LevelUntil(arrivals, n, ts)
    ensures n > 0 ==> LevelUntil(arrivals, n - 1, ts)
  {
  }

  lemma StillLastSecond(t0: int, s: Sys, h: int, events: seq<Event>, arrivals: seq<seq<Line>>, ts: int, s1: Sys,
                        h1: int)
    requires InvAt(t0, s, h) && s.m.synchronized && s.m.lastTs == Some(ts)
    requires HalfWay(t0, s, events, arrivals, s1, h1)
    requires LevelUntil(arrivals, |events|, ts) && forall e :: e in events ==> e.ts == ts
    ensures Newest(s1.m, ts)
  {
    WovenIsHandedOn(s.m.(arrivals := arrivals), events);
    PartsOfInv(t0, s, h);
    assert InvAt(t0, s1, h1);
    PartsOfInv(t0, s1, h1);
    hide InvAt, EmitAll, Woven, LevelUntil, Coherent;
    LastSecondStays(s.m, events, arrivals, ts, s1.m);
  }

  // ---- A batch that the stream has got past ----

  lemma SilentPollIs(hash: Event -> string, m: Merge, lines: seq<Line>)
    requires m.synchronized && m.timedOut && m.queue == [] && Batch(hash, m, lines) != []
    requires !Newer(m, LastOf(Batch(hash, m, lines)))
    ensures Poll(hash, m, lines) == SaveTs(EmitAll(m, Batch(hash, m, lines)))
  {
    PollOnlyIs(hash, m, lines);
    hide Batch, EmitAll, Poll;
  }

  lemma CameInIs(arrivals: seq<seq<Line>>, k: nat)
    ensures CameIn(arrivals, From(arrivals, k)) == Flat(Take(arrivals, k))
  {
    assert k <= |arrivals| ==> |arrivals| - |From(arrivals, k)| == k;
    assert arrivals[..|arrivals|] == arrivals;
  }

  lemma QueuedEarlier(log: seq<Event>, c: int, c': int, queue: seq<Event>, d: int)
    requires Brought(log, c', queue, d) && 0 <= c <= c'
    ensures Brought(log, c, queue, d)
  {
    hide InOrder, Distinct;
    forall e | e in queue ensures e in log[c..d] {
      var i :| c' <= i < d && log[i] == e;
      assert log[c..d][i - c] == e;
    }
  }

  lemma FirstQueuedIsLater(t0: int, s: Sys, h: int)
    requires InvAt(t0, s, h) && h <= s.first && s.m.queue != []
    ensures Newest(s.m, s.m.queue[0].ts)
  {
    PartsOfInv(t0, s, h);
    assert s.m.queue[0] in s.m.queue;
    var i :| s.first <= i < s.delivered && s.log[i] == s.m.queue[0];
    hide InvAt;
    LaterIsFresh(t0, s, h, i);
  }

  lemma SettledIsLive(t0: int, s: Sys, s1: Sys, s': Sys)
    requires QueueIsLive(t0, s) && QueueIsLive(t0, s1) && s.first <= s1.first
    requires s'.log == s1.log == s.log && s'.delivered == s1.delivered && s'.m.queue == s1.m.queue
    requires s'.first == (if s1.m.queue == [] then s1.delivered else s.first) && s'.lost == s1.lost
    ensures QueueIsLive(t0, s')
  {
    QueuedEarlier(s.log, s.first, s1.first, s1.m.queue, s1.delivered);
    NothingBrought(s.log, s1.delivered, s1.delivered);
    hide Brought;
  }

  // What the end of the poll leaves of the last step.
  lemma SettledKeepsInv(t0: int, s: Sys, s1: Sys, h: int, s': Sys)
    requires InvAt(t0, s1, h) && h <= s1.first && s.first <= s1.first && QueueIsLive(t0, s)
    requires s'.log == s1.log == s.log && s'.delivered == s1.delivered && s'.m == SaveTs(s1.m)
    requires s'.first == (if s1.m.queue == [] then s1.delivered else s.first) && s'.lost == s1.lost
    ensures InvAt(t0, s', h) && h <= s'.delivered && (s'.m.queue != [] ==> Newest(s'.m, s'.m.queue[0].ts))
  {
    PartsOfInv(t0, s1, h);
    SavingKeeps(s1.m);
    hide InvAt, InOrder, Distinct, Coherent, QueueIsLive, RecordedUpTo;
    SettledIsLive(t0, s, s1, s');
    if s1.m.queue != [] {
      FirstQueuedIsLater(t0, s1, h);
    }
    RecordedIgnores(t0, s1, s', h);
    InvFromParts(t0, s', h);
  }

  lemma BatchWasLost(hash: Event -> string, t0: int, s: Sys, h: int, n: nat, since: int, lines: seq<Line>)
    requires InvAt(t0, s, h) && s.m.synchronized && Answers(t0, s, n, since, lines) && Distinct(Parse(lines))
    requires forall e :: e in Batch(hash, s.m, lines) ==> e in s.log[..s.delivered]
    ensures forall e :: e in Batch(hash, s.m, lines) ==> e in s.lost
    ensures Distinct(Batch(hash, s.m, lines))
  {
    AnswerHolds(t0, s, h, n, since, lines);
    BatchMeans(hash, s.m, lines);
    hide Batch, Parse, Coherent, InOrder, Distinct, QueueIsLive, Newest;
  }

  lemma FoundAgainKeepsInv(hash: Event -> string, t0: int, s: Sys, h: int, n: nat, since: int, lines: seq<Line>,
                           arrivals: seq<seq<Line>>) returns (h': int)
    requires InvAt(t0, s, h) && Allowed(t0, s, Answer(n, since, lines, arrivals))
    requires s.m.synchronized && s.m.timedOut && Batch(hash, s.m, lines) != []
    requires s.m.lastTs.Some? && !Newer(s.m, LastOf(Batch(hash, s.m, lines)))
    requires LevelUntil(arrivals, |Batch(hash, s.m, lines)| - 1, s.m.lastTs.value)
    requires 0 <= s.delivered <= |s.log| && forall e :: e in Batch(hash, s.m, lines) ==> e in s.log[..s.delivered]
    ensures
      var s' := AfterPoll(hash, s, lines, arrivals);
      InvAt(t0, s', h') && h' <= s'.delivered && (s'.m.queue != [] ==> Newest(s'.m, s'.m.queue[0].ts))
  {
    var (events, ts) := (Batch(hash, s.m, lines), s.m.lastTs.value);
    assert LastOf(events) <= ts;
    hide *;
    PartsOfInv(t0, s, h);
    PartsOfAnswer(t0, s, n, since, lines, arrivals);
    BatchWasLost(hash, t0, s, h, n, since, lines);
    BatchOfLastSecond(hash, s.m, lines);
    var s1, h1 := SilentSteps(hash, t0, s, h, events, arrivals, ts);
    h' := h1;
    HalfWayIsAll(hash, t0, s, events, lines, arrivals, s1, h1);
    SettledKeepsInv(t0, s, s1, h1, AfterPoll(hash, s, lines, arrivals));
  }

  lemma HalfWayIsAll(hash: Event -> string, t0: int, s: Sys, events: seq<Event>, lines: seq<Line>,
                     arrivals: seq<seq<Line>>, s1: Sys, h1: int)
    requires s.m.synchronized && s.m.timedOut && s.m.queue == [] && events == Batch(hash, s.m, lines) != []
    requires !Newer(s.m, LastOf(events)) && HalfWay(t0, s, events, arrivals, s1, h1)
    ensures
      var s' := AfterPoll(hash, s, lines, arrivals);
      && InvAt(t0, s1, h1) && h1 <= s1.first && s.first <= s1.first
      && s'.log == s1.log == s.log && s'.delivered == s1.delivered && s'.m == SaveTs(s1.m)
      && s'.first == (if s1.m.queue == [] then s1.delivered else s.first) && s'.lost == s1.lost
  {
    var m := s.m.(arrivals := arrivals);
    SameBatch(hash, s.m, m, lines);
    SilentPollIs(hash, m, lines);
    AfterPollIs(hash, s, lines, arrivals);
    CameInIs(arrivals, |events|);
    var s' := AfterPoll(hash, s, lines, arrivals);
    assert InvAt(t0, s1, h1);
    PartsOfInv(t0, s1, h1);
    var m' := EmitAll(m, events);
    SavingIs(m');
    hide InvAt, Batch, AfterPoll, Poll, Take, From, Flat, QueueIsLive, Coherent, EmitAll, PlaceAfter, CameIn;
    EmittedStays(m, events);
    forall e ensures e in s'.lost <==> e in s1.lost {
      RecordedOrLost(t0, s1, h1, e);
    }
  }

  lemma SavingIs(m: Merge)
    ensures SaveTs(m).arrivals == m.arrivals && SaveTs(m).(arrivals := []) == SaveTs(m.(arrivals := []))
    ensures SaveTs(m).queue == m.queue && SaveTs(m).ledger.recorded == m.ledger.recorded
  {
  }

  lemma EmittedStays(m: Merge, events: seq<Event>)
    requires m.synchronized
    ensures forall e :: e in events ==> e in EmitAll(m, events).ledger.recorded
  {
    WovenIsHandedOn(m, events);
    forall e | e in events ensures e in EmitAll(m, events).ledger.recorded {
      WovenMeans(events, m.arrivals, e);
    }
  }

  // ---- A batch that the stream has not got past ----

  lemma {:induction false} UnbrokenLinesGoOn(d: int, lines: seq<Line>)
    requires Unbroken(lines)
    ensures PlaceAfter(d, lines) == d + |FollowedOf(lines)|
  {
    if lines != [] {
      UnbrokenLinesGoOn(d, lines[..|lines| - 1]);
    }
  }

  lemma {:induction false} FirstFollowed(log: seq<Event>, d: int, lines: seq<Line>)
    requires Brings(log, d, lines) && FollowedOf(lines) != []
    ensures 0 <= d < |log| && log[d] in FollowedOf(lines)
  {
    var init := lines[..|lines| - 1];
    if FollowedOf(init) != [] {
      FirstFollowed(log, d, init);
    } else {
      UnbrokenLinesGoOn(d, init);
    }
  }

  lemma UnbrokenBefore(arrivals: seq<seq<Line>>, k: nat)
    requires k > 0 && UnbrokenUntil(arrivals, k)
    ensures UnbrokenUntil(arrivals, k - 1)
    ensures if k <= |arrivals|
            then Unbroken(arrivals[k - 1]) && Arriving(arrivals, k - 1) == FollowedOf(arrivals[k - 1])
            else Take(arrivals, k) == Take(arrivals, k - 1)
  {
  }

  lemma NothingTaken(d: int, arrivals: seq<seq<Line>>)
    ensures PlaceAfter(d, Flat(Take(arrivals, 0))) == d
  {
    assert Take(arrivals, 0) == [];
  }

  lemma {:induction false} NothingFollowedUntil(log: seq<Event>, d: int, arrivals: seq<seq<Line>>, k: nat)
    requires Brings(log, d, Flat(arrivals)) && UnbrokenUntil(arrivals, k)
    requires forall j: nat :: j < k ==> Arriving(arrivals, j) == []
    ensures PlaceAfter(d, Flat(Take(arrivals, k))) == d
  {
    hide *;
    if k == 0 {
      NothingTaken(d, arrivals);
    } else {
      UnbrokenBefore(arrivals, k);
      NothingFollowedUntil(log, d, arrivals, k - 1);
      if k <= |arrivals| {
        LinesOfYield(log, d, arrivals, k - 1);
        UnbrokenLinesGoOn(d, arrivals[k - 1]);
      }
    }
  }

  // If a line is followed at all, the next one of the log is.
  lemma {:induction false} FirstFollowedIsNext(log: seq<Event>, d: int, arrivals: seq<seq<Line>>, k: nat)
    returns (j: nat)
    requires Brings(log, d, Flat(arrivals)) && Arriving(arrivals, k) != []
    ensures j <= k && 0 <= d < |log| && log[d] in Arriving(arrivals, j)
    decreases k
  {
    if i: nat :| i < k && Arriving(arrivals, i) != [] {
      j := FirstFollowedIsNext(log, d, arrivals, i);
    } else {
      j := k;
      NothingFollowedUntil(log, d, arrivals, k);
      LinesOfYield(log, d, arrivals, k);
      FirstFollowed(log, d, arrivals[k]);
    }
  }

  lemma NotAmongFirst(log: seq<Event>, d: int, i: int)
    requires 0 <= i < |log| && 0 <= d <= |log| && log[i] !in log[..d]
    ensures d <= i
  {
    forall j | 0 <= j < d ensures log[j] in log[..d] {
      assert log[..d][j] == log[j];
    }
  }

  // A poll that brings an event the stream has not got to brings the next event of the log.
  lemma NextIsInBatch(hash: Event -> string, t0: int, s: Sys, h: int, n: nat, since: int, lines: seq<Line>, e: Event)
    requires InvAt(t0, s, h) && s.m.synchronized && Answers(t0, s, n, since, lines) && Distinct(Parse(lines))
    requires e in Batch(hash, s.m, lines) && 0 <= s.delivered <= |s.log| && e !in s.log[..s.delivered]
    ensures s.delivered < |s.log| && s.log[s.delivered] in Batch(hash, s.m, lines)
  {
    AnswerHolds(t0, s, h, n, since, lines);
    BatchMeans(hash, s.m, lines);
    hide Batch, Parse, Coherent, Distinct;
    var i :| 0 <= i < n && s.log[i] == e;
    NotAmongFirst(s.log, s.delivered, i);
    assert s.log[..n][s.delivered] == s.log[s.delivered];
    LaterIsFresh(t0, s, h, s.delivered);
    hide InOrder;
  }

  lemma {:induction false} LinesUnfollowed(m: Merge, lines: seq<Line>)
    requires m.synchronized && FollowedOf(lines) == []
    ensures StreamLines(m, lines).(synchronized := false) == StreamLines(m.(synchronized := false), lines)
  {
    if lines != [] {
      var init := lines[..|lines| - 1];
      LinesUnfollowed(m, init);
      FollowedLines(m, init);
    }
  }

  lemma YieldUnfollowed(m: Merge)
    requires m.synchronized ==> Arriving(m.arrivals, 0) == []
    ensures Yield(m).(synchronized := false) == Yield(m.(synchronized := false))
  {
    if m.arrivals != [] {
      if m.synchronized {
        LinesUnfollowed(m.(arrivals := m.arrivals[1..]), m.arrivals[0]);
      } else {
        YieldQueues(m);
      }
    }
  }

  // When no line is followed, the batch is handed on as if the stream had been started again before.
  lemma {:induction false} UnfollowedLikeRestarted(m: Merge, events: seq<Event>)
    requires m.synchronized && forall k: nat :: k < |events| ==> Arriving(m.arrivals, k) == []
    ensures EmitAll(m, events).(synchronized := false) == EmitAll(m.(synchronized := false), events)
  {
    if events != [] {
      var n := |events| - 1;
      UnfollowedLikeRestarted(m, events[..n]);
      WovenIsHandedOn(m, events[..n]);
      UnbrokenOneMore(m.arrivals, n);
      hide Yield, Arriving, UnbrokenUntil, From, Woven;
      var m1 := EmitAll(m, events[..n]);
      YieldUnfollowed(Emit(m1, events[n]));
    }
  }

  lemma LikeRestarted(hash: Event -> string, s: Sys, lines: seq<Line>, arrivals: seq<seq<Line>>, s0: Sys)
    requires s.m.synchronized && s.m.timedOut && s.m.queue == [] && Batch(hash, s.m, lines) != []
    requires !Newer(s.m, LastOf(Batch(hash, s.m, lines))) && s0 == s.(m := s.m.(synchronized := false))
    requires forall k: nat :: k < |Batch(hash, s.m, lines)| ==> Arriving(arrivals, k) == []
    requires !UnbrokenUntil(arrivals, |Batch(hash, s.m, lines)|)
    ensures AfterPoll(hash, s0, lines, arrivals) == AfterPoll(hash, s, lines, arrivals)
    ensures Batch(hash, s0.m, lines) == Batch(hash, s.m, lines)
  {
    var (m, m0) := (s.m.(arrivals := arrivals), s0.m.(arrivals := arrivals));
    SameBatch(hash, s.m, m, lines);
    SameBatch(hash, s.m, m0, lines);
    SameBatch(hash, s.m, s0.m, lines);
    SilentPollIs(hash, m, lines);
    PollOnlyIs(hash, m0, lines);
    UnfollowedLikeRestarted(m, Batch(hash, s.m, lines));
    WovenIsHandedOn(m, Batch(hash, s.m, lines));
    hide Batch, EmitAll, Poll, Woven, UnbrokenUntil, Arriving, CameIn, PlaceAfter;
  }

  lemma RestartedKeepsInv(t0: int, s: Sys, h: int)
    requires InvAt(t0, s, h) && s.m.synchronized
    ensures InvAt(t0, s.(m := s.m.(synchronized := false)), h)
  {
    hide InOrder, Distinct;
  }

  lemma StillAllowed(t0: int, s: Sys, n: nat, since: int, lines: seq<Line>, arrivals: seq<seq<Line>>, s0: Sys)
    requires Allowed(t0, s, Answer(n, since, lines, arrivals)) && s0 == s.(m := s.m.(synchronized := false))
    ensures Allowed(t0, s0, Answer(n, since, lines, arrivals))
  {
  }

  lemma SilentPlace(hash: Event -> string, s: Sys, lines: seq<Line>, arrivals: seq<seq<Line>>)
    requires s.m.synchronized && s.m.timedOut && s.m.queue == [] && Batch(hash, s.m, lines) != []
    requires !Newer(s.m, LastOf(Batch(hash, s.m, lines)))
    ensures AfterPoll(hash, s, lines, arrivals).delivered
         == PlaceAfter(s.delivered, Flat(Take(arrivals, |Batch(hash, s.m, lines)|)))
  {
    var (m, events) := (s.m.(arrivals := arrivals), Batch(hash, s.m, lines));
    SameBatch(hash, s.m, m, lines);
    SilentPollIs(hash, m, lines);
    WovenIsHandedOn(m, events);
    CameInIs(arrivals, |events|);
    SavingIs(EmitAll(m, events));
    AfterPollIs(hash, s, lines, arrivals);
    hide Batch, EmitAll, Poll, Woven, UnbrokenUntil, CameIn, PlaceAfter, AfterPoll, From, Take, Flat;
  }

  // A timely poll that brings an event the stream has not got to is as one made after the stream was started again.
  lemma UnreachedLikeRestarted(hash: Event -> string, t0: int, s: Sys, h: int, n: nat, since: int, lines: seq<Line>,
                               arrivals: seq<seq<Line>>, e: Event) returns (s0: Sys)
    requires InvAt(t0, s, h) && Allowed(t0, s, Answer(n, since, lines, arrivals))
    requires s.m.synchronized && s.m.timedOut && Batch(hash, s.m, lines) != []
    requires !Newer(s.m, LastOf(Batch(hash, s.m, lines)))
    requires TimelySilence(s, Batch(hash, s.m, lines), arrivals, AfterPoll(hash, s, lines, arrivals).delivered)
    requires e in Batch(hash, s.m, lines) && 0 <= s.delivered <= |s.log| && e !in s.log[..s.delivered]
    ensures s0 == s.(m := s.m.(synchronized := false))
    ensures InvAt(t0, s0, h) && Allowed(t0, s0, Answer(n, since, lines, arrivals))
    ensures AfterPoll(hash, s0, lines, arrivals) == AfterPoll(hash, s, lines, arrivals)
    ensures Batch(hash, s0.m, lines) == Batch(hash, s.m, lines) && s0.m.queue == []
  {
    var events := Batch(hash, s.m, lines);
    PartsOfInv(t0, s, h);
    PartsOfAnswer(t0, s, n, since, lines, arrivals);
    NextIsInBatch(hash, t0, s, h, n, since, lines, e);
    hide Batch, InvAt, Parse, Brings, AfterPoll, LevelUntil, Arriving, UnbrokenUntil, Coherent, QueueIsLive, Answers;
    forall k: nat | k < |events| ensures Arriving(arrivals, k) == [] {
      if Arriving(arrivals, k) != [] {
        var j := FirstFollowedIsNext(s.log, s.delivered, arrivals, k);
        assert false;
      }
    }
    if UnbrokenUntil(arrivals, |events|) {
      SilentPlace(hash, s, lines, arrivals);
      NothingFollowedUntil(s.log, s.delivered, arrivals, |events|);
      assert false;
    }
    s0 := s.(m := s.m.(synchronized := false));
    LikeRestarted(hash, s, lines, arrivals, s0);
    RestartedKeepsInv(t0, s, h);
    StillAllowed(t0, s, n, since, lines, arrivals, s0);
  }

  lemma SilentKeepsInv(hash: Event -> string, t0: int, s: Sys, h: int, n: nat, since: int, lines: seq<Line>,
                       arrivals: seq<seq<Line>>)
    requires InvAt(t0, s, h) && Allowed(t0, s, Answer(n, since, lines, arrivals))
    requires s.m.synchronized && s.m.timedOut && Batch(hash, s.m, lines) != []
    requires !Newer(s.m, LastOf(Batch(hash, s.m, lines)))
    requires TimelySilence(s, Batch(hash, s.m, lines), arrivals, AfterPoll(hash, s, lines, arrivals).delivered)
    ensures Inv(t0, AfterPoll(hash, s, lines, arrivals))
  {
    PartsOfInv(t0, s, h);
    hide InvAt, Batch, Allowed, AfterPoll, LevelUntil, Inv;
    if e :| e in Batch(hash, s.m, lines) && e !in s.log[..s.delivered] {
      var s0 := UnreachedLikeRestarted(hash, t0, s, h, n, since, lines, arrivals, e);
      PollOnlyKeepsInv(hash, t0, s0, h, n, since, lines, arrivals);
      Witnessed(t0, AfterPoll(hash, s, lines, arrivals), Max(h, n));
    } else {
      var h' := FoundAgainKeepsInv(hash, t0, s, h, n, since, lines, arrivals);
      Witnessed(t0, AfterPoll(hash, s, lines, arrivals), h');
    }
  }
}
