/** Polls keep the invariant of the runs, as long as they do not overtake the stream. */
module GerritPolls {
  import opened Prelude
  import opened Sorting
  import opened GerritLedger
  import opened GerritMerge
  import opened GerritExactness
  import opened GerritLimits
  import opened GerritStream
  import opened GerritRuns

  function Max(a: int, b: int): int { if a < b then b else a }

  lemma PartsOfAnswer(t0: int, s: Sys, n: nat, since: int, lines: seq<Line>, arrivals: seq<seq<Line>>)
    requires Allowed(t0, s, Answer(n, since, lines, arrivals))
    ensures Answers(t0, s, n, since, lines) && n <= |s.log| && Distinct(Parse(lines))
    ensures Brings(s.log, s.delivered, Flat(arrivals))
  {
  }

  // What was polled holds every wanted event of its time that is neither recorded nor lost, and only wanted ones.
  ghost predicate Covers(t0: int, s: Sys, n: nat, polled: seq<Event>) {
    && n <= |s.log|
    && (forall e :: e in s.log[..n] && e.ts >= t0 ==>
          e in s.m.ledger.recorded || e in s.lost || (e in polled && Newest(s.m, e.ts)))
    && (forall e :: e in polled ==> e in s.log[..n] && e.ts >= t0)
  }

  lemma AnswerHolds(t0: int, s: Sys, h: int, n: nat, since: int, lines: seq<Line>)
    requires InvAt(t0, s, h) && Answers(t0, s, n, since, lines)
    ensures Covers(t0, s, n, Parse(lines))
  {
    hide Parse, Distinct, InOrder, Coherent, QueueIsLive;
    forall e | e in s.log[..n] && e.ts >= t0 && e !in s.m.ledger.recorded && e !in s.lost
      ensures e in Parse(lines) && Newest(s.m, e.ts)
    {
      var i :| 0 <= i < n && s.log[i] == e;
      if i < h {
        EarlierIsKnown(t0, s, h, i);
      } else {
        LaterIsFresh(t0, s, h, i);
      }
    }
  }

  // ---- What a poll has in common with the state before it ----

  lemma SameBatch(hash: Event -> string, m: Merge, m': Merge, lines: seq<Line>)
    requires m' == m.(arrivals := m'.arrivals, synchronized := m'.synchronized)
    ensures Batch(hash, m', lines) == Batch(hash, m, lines)
  {
    SameUnseen(hash, m, m', Parse(lines));
  }

  lemma {:induction false} SameUnseen(hash: Event -> string, m: Merge, m': Merge, events: seq<Event>)
    requires m' == m.(arrivals := m'.arrivals, synchronized := m'.synchronized)
    ensures Unseen(hash, m', events) == Unseen(hash, m, events)
  {
    if events != [] {
      SameUnseen(hash, m, m', events[..|events| - 1]);
    }
  }

  lemma IgnoresArrivals(m: Merge, m': Merge)
    requires Coherent(m) && m' == m.(arrivals := m'.arrivals)
    ensures Coherent(m')
  {
  }

  lemma SameQuestions(m: Merge, m': Merge, ts: int)
    requires m' == m.(arrivals := m'.arrivals)
    ensures HandsOver(m', ts) == HandsOver(m, ts) && Newer(m', ts) == Newer(m, ts)
    ensures HandsOver(m, ts) ==> m.queue != []
    ensures forall t :: Newest(m', t) == Newest(m, t)
    ensures Opened(m', ts).synchronized <==> m.synchronized && !(m.timedOut && Newer(m, ts))
    ensures !Opened(m', ts).synchronized ==> Quiet(Opened(m', ts))
  {
  }

  lemma LastOfBatchPolled(hash: Event -> string, m: Merge, lines: seq<Line>)
    requires Coherent(m) && Distinct(Parse(lines)) && Batch(hash, m, lines) != []
    ensures Batch(hash, m, lines)[|Batch(hash, m, lines)| - 1] in Parse(lines)
  {
    BatchMeans(hash, m, lines);
  }

  lemma LaterThanQueued(m: Merge, events: seq<Event>)
    requires events != [] && HandsOver(m, LastOf(events))
    ensures m.queue != [] && events[|events| - 1].ts > m.queue[0].ts
  {
  }

  lemma FutureIs(m: Merge)
    ensures Future(m) == m.queue + Coming(m.arrivals)
  {
  }

  lemma SameFront(front: seq<Event>, a: seq<Event>, b: seq<Event>, c: seq<Event>)
    requires front + (a + b) == c + b
    ensures c == front + a
  {
    assert |front + a| == |c|;
    assert front + (a + b) == (front + a) + b;
    assert c == (c + b)[..|c|];
    assert front + a == ((front + a) + b)[..|c|];
  }

  // The lines that come in during a poll are the next ones of the log.
  lemma ArrivedAre(hash: Event -> string, t0: int, s: Sys, h: int, n: nat, since: int, lines: seq<Line>,
                   arrivals: seq<seq<Line>>)
    requires InvAt(t0, s, h) && Allowed(t0, s, Answer(n, since, lines, arrivals))
    ensures
      var rest := Poll(hash, s.m.(arrivals := arrivals), lines).arrivals;
      var came := CameIn(arrivals, rest);
      && Brings(s.log, s.delivered, came) && Coming(arrivals) == Parse(came) + Coming(rest)
      && Brought(s.log, s.delivered, Parse(came), PlaceAfter(s.delivered, came))
  {
    PartsOfInv(t0, s, h);
    PartsOfAnswer(t0, s, n, since, lines, arrivals);
    hide *;
    PollTakesFromFront(hash, s.m.(arrivals := arrivals), lines);
    var rest := Poll(hash, s.m.(arrivals := arrivals), lines).arrivals;
    CameInFirst(s.log, s.delivered, arrivals, rest);
    LinesAreBrought(s.log, s.delivered, CameIn(arrivals, rest));
  }

  lemma QueueAndComing(t0: int, s: Sys, arrivals: seq<seq<Line>>)
    requires QueueIsLive(t0, s) && InOrder(s.log) && Distinct(s.log) && Brings(s.log, s.delivered, Flat(arrivals))
    ensures InOrder(Future(s.m.(arrivals := arrivals))) && Distinct(Future(s.m.(arrivals := arrivals)))
  {
    hide InOrder, Distinct;
    LinesAreBrought(s.log, s.delivered, Flat(arrivals));
    var d' := PlaceAfter(s.delivered, Flat(arrivals));
    ComingIsFlat(arrivals);
    BroughtJoins(s.log, s.first, s.m.queue, s.delivered, Parse(Flat(arrivals)), d');
  }

  lemma AfterPollIs(hash: Event -> string, s: Sys, lines: seq<Line>, arrivals: seq<seq<Line>>)
    ensures
      var (m', s') := (Poll(hash, s.m.(arrivals := arrivals), lines), AfterPoll(hash, s, lines, arrivals));
      && s'.log == s.log && s'.m == m'.(arrivals := [])
      && s'.delivered == PlaceAfter(s.delivered, CameIn(arrivals, m'.arrivals))
      && s'.first == (if m'.queue == [] then s'.delivered else s.first)
      && forall e :: e in s'.lost <==>
           && (e in s.lost || (s.m.queue != [] && m'.queue == [] && e in LeftToStream(s, s'.delivered)))
           && e !in m'.ledger.recorded
  {
    hide Poll, LeftToStream, CameIn;
  }

  // ---- Polls that do not switch ----

  // A poll adds to the record what the log had when it was answered.
  lemma PolledUpTo(t0: int, s: Sys, h: int, n: nat, polled: seq<Event>, s': Sys)
    requires RecordedUpTo(t0, s, h) && n <= |s.log| && s'.log == s.log
    requires Covers(t0, s, n, polled)
    requires forall e :: e in s'.m.ledger.recorded <==> e in s.m.ledger.recorded || (e in polled && Newest(s.m, e.ts))
    requires forall e :: e in s'.lost <==> e in s.lost && e !in s'.m.ledger.recorded
    ensures RecordedUpTo(t0, s', Max(h, n))
  {
    hide Newest;
    if h <= n {
      assert s.log[..h] <= s.log[..n];
    } else {
      assert s.log[..n] <= s.log[..h];
    }
  }

  lemma PollOnlyRecords(hash: Event -> string, t0: int, s: Sys, h: int, n: nat, since: int, lines: seq<Line>,
                        arrivals: seq<seq<Line>>)
    requires InvAt(t0, s, h) && Allowed(t0, s, Answer(n, since, lines, arrivals))
    requires (!s.m.synchronized || s.m.timedOut) && Batch(hash, s.m, lines) != []
    requires s.m.synchronized ==> Newer(s.m, LastOf(Batch(hash, s.m, lines)))
    requires !HandsOver(s.m, LastOf(Batch(hash, s.m, lines)))
    ensures
      var m' := Poll(hash, s.m.(arrivals := arrivals), lines);
      && Coherent(m') && m'.queue == s.m.queue + Parse(CameIn(arrivals, m'.arrivals)) && !m'.synchronized
      && s.m.ledger.recorded <= m'.ledger.recorded
      && m'.lastTs == Some(LastOf(Batch(hash, s.m, lines)))
      && forall e :: e in m'.ledger.recorded <==> e in s.m.ledger.recorded || (e in Parse(lines) && Newest(s.m, e.ts))
  {
    hide *;
    var m := s.m.(arrivals := arrivals);
    PartsOfInv(t0, s, h);
    PartsOfAnswer(t0, s, n, since, lines, arrivals);
    SameBatch(hash, s.m, m, lines);
    SameQuestions(s.m, m, LastOf(Batch(hash, s.m, lines)));
    SameQuestions(m, m, LastOf(Batch(hash, s.m, lines)));
    IgnoresArrivals(s.m, m);
    PollOnlyExact(hash, m, lines);
    var m' := Poll(hash, m, lines);
    FutureIs(m);
    FutureIs(m');
    ArrivedAre(hash, t0, s, h, n, since, lines, arrivals);
    SameFront(s.m.queue, Parse(CameIn(arrivals, m'.arrivals)), Coming(m'.arrivals), m'.queue);
  }

  lemma PollOnlyKeepsInv(hash: Event -> string, t0: int, s: Sys, h: int, n: nat, since: int, lines: seq<Line>,
                         arrivals: seq<seq<Line>>)
    requires InvAt(t0, s, h) && Allowed(t0, s, Answer(n, since, lines, arrivals))
    requires (!s.m.synchronized || s.m.timedOut) && Batch(hash, s.m, lines) != []
    requires s.m.synchronized ==> Newer(s.m, LastOf(Batch(hash, s.m, lines)))
    requires !HandsOver(s.m, LastOf(Batch(hash, s.m, lines)))
    ensures InvAt(t0, AfterPoll(hash, s, lines, arrivals), Max(h, n))
  {
    hide *;
    PartsOfInv(t0, s, h);
    PartsOfAnswer(t0, s, n, since, lines, arrivals);
    PollOnlyRecords(hash, t0, s, h, n, since, lines, arrivals);
    AnswerHolds(t0, s, h, n, since, lines);
    ArrivedAre(hash, t0, s, h, n, since, lines, arrivals);
    var (m', s') := (Poll(hash, s.m.(arrivals := arrivals), lines), AfterPoll(hash, s, lines, arrivals));
    AfterPollIs(hash, s, lines, arrivals);
    IgnoresArrivals(m', s'.m);
    QueueOnlyGrows(s.m.queue, Parse(CameIn(arrivals, m'.arrivals)));
    PolledUpTo(t0, s, h, n, Parse(lines), s');
    QueueJoined(t0, s, Parse(CameIn(arrivals, m'.arrivals)), s');
    InvFromParts(t0, s', Max(h, n));
  }

  lemma QueueOnlyGrows(queue: seq<Event>, more: seq<Event>)
    ensures queue != [] ==> queue + more != []
  {
  }

  // ---- Switching to the stream ----

  // How many of the first n events of the log are not later than this second.
  function Until(log: seq<Event>, n: nat, ts: int): (k: nat)
    requires n <= |log|
    ensures k <= n
  {
    if n == 0 then 0 else if log[n - 1].ts <= ts then n else Until(log, n - 1, ts)
  }

  lemma {:induction false} UntilMeans(log: seq<Event>, n: nat, ts: int, i: nat)
    requires InOrder(log) && i < n <= |log|
    ensures log[i].ts <= ts <==> i < Until(log, n, ts)
  {
    if log[n - 1].ts > ts && i < n - 1 {
      UntilMeans(log, n - 1, ts, i);
    }
  }

  // Added to the record: what was polled up to the first queued second, and all that came into the queue.
  ghost predicate RecordedBySwitch(s: Sys, polled: seq<Event>, more: seq<Event>, recorded: seq<Event>) {
    forall e :: e in recorded <==>
      || e in s.m.ledger.recorded || e in s.m.queue + more
      || (s.m.queue != [] && e in polled && Newest(s.m, e.ts) && e.ts <= s.m.queue[0].ts)
  }

  // What a switch does, as far as the record goes.
  ghost predicate Switches(s: Sys, polled: seq<Event>, more: seq<Event>, s': Sys) {
    && s.m.queue != [] && Brought(s.log, s.delivered, more, s'.delivered) && s'.log == s.log
    && RecordedBySwitch(s, polled, more, s'.m.ledger.recorded)
    && (forall e :: e in s'.lost <==>
          (e in s.lost || e in LeftToStream(s, s'.delivered)) && e !in s'.m.ledger.recorded)
  }

  lemma CoversPolled(t0: int, s: Sys, n: nat, polled: seq<Event>, e: Event)
    requires Covers(t0, s, n, polled) && e in polled
    ensures n <= |s.log| && e in s.log[..n]
  {
  }

  // The poll has everything up to the second of the first queued line.
  lemma EarlyIsPolled(t0: int, s: Sys, n: nat, last: Event, i: int)
    requires InOrder(s.log) && QueueIsLive(t0, s) && s.m.queue != [] && n <= |s.log| && 0 <= i < |s.log|
    requires last in s.log[..n] && last.ts > s.m.queue[0].ts && (i < s.first || s.log[i].ts <= s.m.queue[0].ts)
    ensures i < n && s.log[i] in s.log[..n] && s.log[i].ts <= s.m.queue[0].ts
  {
    var p :| 0 <= p < n && s.log[p] == last;
    assert s.m.queue[0] in s.m.queue;
    var j :| s.first <= j < s.delivered && s.log[j] == s.m.queue[0];
    assert i < s.first ==> s.log[i].ts <= s.log[j].ts;
    assert i < p;
    assert s.log[..n][i] == s.log[i];
  }

  lemma EarlyIsRecorded(t0: int, s: Sys, n: nat, polled: seq<Event>, more: seq<Event>, s': Sys, e: Event)
    requires Switches(s, polled, more, s') && Covers(t0, s, n, polled)
    requires e in s.log[..n] && e.ts >= t0 && e.ts <= s.m.queue[0].ts
    ensures e in s'.m.ledger.recorded || e in s'.lost
  {
    hide LeftToStream, Newest, Brought;
  }

  lemma LaterIsLeft(s: Sys, polled: seq<Event>, more: seq<Event>, s': Sys, i: int)
    requires Switches(s, polled, more, s')
    requires 0 <= s.first <= i < s'.delivered <= |s.log| && s.log[i].ts > s.m.queue[0].ts
    ensures s.log[i] in s'.m.ledger.recorded || s.log[i] in s'.lost
  {
    assert s.log[s.first..s'.delivered][i - s.first] == s.log[i];
    hide RecordedBySwitch, Brought;
    assert s.log[i] in LeftToStream(s, s'.delivered);
  }

  lemma SwitchMissesNothing(t0: int, s: Sys, n: nat, polled: seq<Event>, last: Event, more: seq<Event>, s': Sys,
                            i: int)
    requires InOrder(s.log) && QueueIsLive(t0, s) && Switches(s, polled, more, s') && Covers(t0, s, n, polled)
    requires last in polled && last.ts > s.m.queue[0].ts
    requires 0 <= i < s'.delivered <= |s.log| && s.log[i].ts >= t0
    ensures s.log[i] in s'.m.ledger.recorded || s.log[i] in s'.lost
  {
    assert s.m.queue != [] && 0 <= s.first;
    hide InOrder, QueueIsLive, Switches, Covers;
    if i < s.first || s.log[i].ts <= s.m.queue[0].ts {
      CoversPolled(t0, s, n, polled, last);
      EarlyIsPolled(t0, s, n, last, i);
      EarlyIsRecorded(t0, s, n, polled, more, s', s.log[i]);
    } else {
      LaterIsLeft(s, polled, more, s', i);
    }
  }

  lemma QueueAndMoreWanted(t0: int, s: Sys, more: seq<Event>, d': int, e: Event)
    requires QueueIsLive(t0, s) && Brought(s.log, s.delivered, more, d') && (e in s.m.queue || e in more)
    ensures e in s.log[..d'] && e.ts >= t0
  {
    hide InOrder, Distinct;
    if e in more {
      var i :| s.delivered <= i < d' && s.log[i] == e;
      assert s.log[..d'][i] == e;
    } else {
      var i :| s.first <= i < s.delivered && s.log[i] == e;
      assert s.log[..d'][i] == e;
    }
  }

  lemma LeftToStreamWanted(t0: int, s: Sys, d: int, e: Event)
    requires QueueIsLive(t0, s) && e in LeftToStream(s, d)
    ensures 0 <= d <= |s.log| && e in s.log[..d] && e.ts >= t0
  {
    var i :| s.first <= i < d && s.log[i] == e;
    assert s.log[..d][i] == e;
  }

  // Where the record ends after a switch: what was on record before, the place the stream has got to, or the
  // events polled up to the first queued second, whichever is furthest.
  function SwitchEnd(s: Sys, h: int, n: nat, d: int): int
    requires n <= |s.log| && s.m.queue != []
  {
    Max(Max(h, d), Until(s.log, n, s.m.queue[0].ts))
  }

  lemma SwitchRecordsOnlyWanted(t0: int, s: Sys, h: int, n: nat, polled: seq<Event>, more: seq<Event>, s': Sys,
                                e: Event)
    requires RecordedUpTo(t0, s, h) && QueueIsLive(t0, s) && Switches(s, polled, more, s')
    requires Covers(t0, s, n, polled) && InOrder(s.log)
    requires e in s'.m.ledger.recorded || e in s'.lost
    ensures 0 <= SwitchEnd(s, h, n, s'.delivered) <= |s.log|
    ensures e in s.log[..SwitchEnd(s, h, n, s'.delivered)] && e.ts >= t0
  {
    var z := SwitchEnd(s, h, n, s'.delivered);
    assert s.log[..h] <= s.log[..z] && s.log[..s'.delivered] <= s.log[..z];
    hide InOrder, Newest, LeftToStream, Distinct;
    if e in s.m.queue + more {
      QueueAndMoreWanted(t0, s, more, s'.delivered, e);
    } else if e in LeftToStream(s, s'.delivered) {
      LeftToStreamWanted(t0, s, s'.delivered, e);
    } else if !(e in s.m.ledger.recorded || e in s.lost) {
      var i :| 0 <= i < n && s.log[i] == e;
      UntilMeans(s.log, n, s.m.queue[0].ts, i);
      assert s.log[..z][i] == e;
    }
  }

  lemma RecordedExactly(t0: int, s: Sys, h: int)
    requires 0 <= h <= |s.log| && forall e :: e in s.lost ==> e !in s.m.ledger.recorded
    requires forall e :: e in s.log[..h] && e.ts >= t0 ==> e in s.m.ledger.recorded || e in s.lost
    requires forall e :: e in s.m.ledger.recorded || e in s.lost ==> e in s.log[..h] && e.ts >= t0
    ensures RecordedUpTo(t0, s, h)
  {
  }

  lemma SwitchBounds(t0: int, s: Sys, h: int, n: nat, polled: seq<Event>, more: seq<Event>, s': Sys)
    requires QueueIsLive(t0, s) && RecordedUpTo(t0, s, h) && n <= |s.log| && Switches(s, polled, more, s')
    ensures s.m.queue != [] && s'.log == s.log && 0 <= s.delivered <= s'.delivered <= |s.log|
    ensures 0 <= SwitchEnd(s, h, n, s'.delivered) <= |s.log|
    ensures forall e :: e in s'.lost ==> e !in s'.m.ledger.recorded
    ensures forall e :: e in s.m.ledger.recorded || e in s.lost ==> e in s'.m.ledger.recorded || e in s'.lost
  {
    hide InOrder, Distinct, LeftToStream;
  }

  lemma PolledBeforeEnd(t0: int, s: Sys, n: nat, polled: seq<Event>, more: seq<Event>, s': Sys, i: int)
    requires InOrder(s.log) && Switches(s, polled, more, s') && Covers(t0, s, n, polled)
    requires 0 <= i < Until(s.log, n, s.m.queue[0].ts) && s.log[i].ts >= t0
    ensures s.log[i] in s'.m.ledger.recorded || s.log[i] in s'.lost
  {
    UntilMeans(s.log, n, s.m.queue[0].ts, i);
    assert s.log[..n][i] == s.log[i];
    EarlyIsRecorded(t0, s, n, polled, more, s', s.log[i]);
  }

  lemma SwitchedUpToEnd(t0: int, s: Sys, h: int, n: nat, polled: seq<Event>, last: Event, more: seq<Event>, s': Sys)
    requires InOrder(s.log) && RecordedUpTo(t0, s, h) && QueueIsLive(t0, s) && Switches(s, polled, more, s')
    requires Covers(t0, s, n, polled) && last in polled && last.ts > s.m.queue[0].ts
    ensures RecordedUpTo(t0, s', SwitchEnd(s, h, n, s'.delivered))
  {
    hide *;
    CoversPolled(t0, s, n, polled, last);
    SwitchBounds(t0, s, h, n, polled, more, s');
    var z := SwitchEnd(s, h, n, s'.delivered);
    forall e | e in s.log[..z] && e.ts >= t0 ensures e in s'.m.ledger.recorded || e in s'.lost {
      var i :| 0 <= i < z && s.log[i] == e;
      if i < h {
        EarlierIsKnown(t0, s, h, i);
      } else if i < s'.delivered {
        SwitchMissesNothing(t0, s, n, polled, last, more, s', i);
      } else {
        EndIsOneOf(s, h, n, s'.delivered);
        PolledBeforeEnd(t0, s, n, polled, more, s', i);
      }
    }
    forall e | e in s'.m.ledger.recorded || e in s'.lost ensures e in s.log[..z] && e.ts >= t0 {
      SwitchRecordsOnlyWanted(t0, s, h, n, polled, more, s', e);
    }
    RecordedExactly(t0, s', z);
  }

  lemma EndIsOneOf(s: Sys, h: int, n: nat, d: int)
    requires n <= |s.log| && s.m.queue != []
    ensures SwitchEnd(s, h, n, d) == h || SwitchEnd(s, h, n, d) == d
         || SwitchEnd(s, h, n, d) == Until(s.log, n, s.m.queue[0].ts)
    ensures SwitchEnd(s, h, n, d) >= d
  {
  }

  // If the stream has got to what was recorded and polled by then, the record ends where the stream has got to.
  lemma SwitchedUpToPlace(t0: int, s: Sys, h: int, n: nat, polled: seq<Event>, more: seq<Event>, s': Sys)
    requires QueueIsLive(t0, s) && RecordedUpTo(t0, s, h) && n <= |s.log| && Switches(s, polled, more, s')
    requires RecordedUpTo(t0, s', SwitchEnd(s, h, n, s'.delivered)) && GotTo(s, polled, s'.delivered)
    ensures RecordedUpTo(t0, s', s'.delivered)
  {
    var (d, z) := (s'.delivered, SwitchEnd(s, h, n, s'.delivered));
    EndIsOneOf(s, h, n, d);
    assert s'.log[..d] <= s'.log[..z];
    hide SwitchEnd, LeftToStream, Newest, InOrder, Distinct;
    forall e | e in s'.m.ledger.recorded || e in s'.lost ensures e in s'.log[..d] && e.ts >= t0 {
      if e in s.m.queue + more {
        QueueAndMoreWanted(t0, s, more, d, e);
      } else if e in LeftToStream(s, d) {
        LeftToStreamWanted(t0, s, d, e);
      } else if e in s.lost {
        assert s.log[..s.delivered] <= s.log[..d];
      }
    }
  }

  // A switch records what was polled up to the first queued second and all that came into the queue.
  lemma SwitchRecords(hash: Event -> string, t0: int, s: Sys, h: int, n: nat, since: int, lines: seq<Line>,
                      arrivals: seq<seq<Line>>)
    requires InvAt(t0, s, h) && Allowed(t0, s, Answer(n, since, lines, arrivals))
    requires (!s.m.synchronized || s.m.timedOut) && Batch(hash, s.m, lines) != []
    requires HandsOver(s.m, LastOf(Batch(hash, s.m, lines))) && Newest(s.m, s.m.queue[0].ts)
    ensures
      var m' := Poll(hash, s.m.(arrivals := arrivals), lines);
      && Coherent(m') && m'.queue == []
      && (m'.synchronized <==> !(s.m.timedOut && Newer(s.m, LastOf(Batch(hash, s.m, lines)))))
      && s.m.ledger.recorded <= m'.ledger.recorded
      && RecordedBySwitch(s, Parse(lines), Parse(CameIn(arrivals, m'.arrivals)), m'.ledger.recorded)
  {
    hide *;
    var m := s.m.(arrivals := arrivals);
    PartsOfInv(t0, s, h);
    PartsOfAnswer(t0, s, n, since, lines, arrivals);
    SameBatch(hash, s.m, m, lines);
    SameQuestions(s.m, m, LastOf(Batch(hash, s.m, lines)));
    QueueAndComing(t0, s, arrivals);
    IgnoresArrivals(s.m, m);
    var queued := HandOverExact(hash, m, lines);
    FutureIs(m);
    var m' := Poll(hash, m, lines);
    ArrivedAre(hash, t0, s, h, n, since, lines, arrivals);
    var more := Parse(CameIn(arrivals, m'.arrivals));
    SameFront(s.m.queue, more, Coming(m'.arrivals), queued);
    SwitchRecordIs(s, m, Parse(lines), more, queued, m'.ledger.recorded);
  }

  lemma SwitchRecordIs(s: Sys, m: Merge, polled: seq<Event>, more: seq<Event>, queued: seq<Event>, recorded: seq<Event>)
    requires m == s.m.(arrivals := m.arrivals) && s.m.queue != [] && queued == s.m.queue + more
    requires forall t :: Newest(m, t) == Newest(s.m, t)
    requires forall e :: e in recorded <==>
      || e in m.ledger.recorded || e in queued || (e in polled && Newest(m, e.ts) && e.ts <= m.queue[0].ts)
    ensures RecordedBySwitch(s, polled, more, recorded)
  {
    hide Newest;
  }

  lemma PollSwitches(hash: Event -> string, t0: int, s: Sys, h: int, n: nat, since: int, lines: seq<Line>,
                     arrivals: seq<seq<Line>>) returns (more: seq<Event>)
    requires InvAt(t0, s, h) && Allowed(t0, s, Answer(n, since, lines, arrivals))
    requires (!s.m.synchronized || s.m.timedOut) && Batch(hash, s.m, lines) != []
    requires HandsOver(s.m, LastOf(Batch(hash, s.m, lines))) && Newest(s.m, s.m.queue[0].ts)
    ensures more == Parse(CameIn(arrivals, Poll(hash, s.m.(arrivals := arrivals), lines).arrivals))
    ensures
      var s' := AfterPoll(hash, s, lines, arrivals);
      && Switches(s, Parse(lines), more, s') && Coherent(s'.m) && s'.m.arrivals == [] && s'.m.queue == []
      && s'.first == s'.delivered
      && (s'.m.synchronized <==> !(s.m.timedOut && Newer(s.m, LastOf(Batch(hash, s.m, lines)))))
      && s.m.ledger.recorded <= s'.m.ledger.recorded
  {
    hide *;
    PartsOfInv(t0, s, h);
    LaterThanQueued(s.m, Batch(hash, s.m, lines));
    SwitchRecords(hash, t0, s, h, n, since, lines, arrivals);
    ArrivedAre(hash, t0, s, h, n, since, lines, arrivals);
    var m' := Poll(hash, s.m.(arrivals := arrivals), lines);
    var s' := AfterPoll(hash, s, lines, arrivals);
    more := Parse(CameIn(arrivals, m'.arrivals));
    AfterPollIs(hash, s, lines, arrivals);
    IgnoresArrivals(m', s'.m);
    SwitchesFromParts(s, Parse(lines), more, s');
  }

  lemma SwitchesFromParts(s: Sys, polled: seq<Event>, more: seq<Event>, s': Sys)
    requires s.m.queue != [] && Brought(s.log, s.delivered, more, s'.delivered) && s'.log == s.log
    requires RecordedBySwitch(s, polled, more, s'.m.ledger.recorded)
    requires forall e :: e in s'.lost <==>
      (e in s.lost || e in LeftToStream(s, s'.delivered)) && e !in s'.m.ledger.recorded
    ensures Switches(s, polled, more, s')
  {
    hide RecordedBySwitch, LeftToStream, Brought;
  }

  lemma SwitchedIsLive(t0: int, s: Sys, polled: seq<Event>, more: seq<Event>, s': Sys)
    requires QueueIsLive(t0, s) && Switches(s, polled, more, s') && s'.m.queue == [] && s'.first == s'.delivered
    ensures QueueIsLive(t0, s')
  {
    assert s.log[..s.delivered] <= s.log[..s'.delivered];
    NothingBrought(s.log, s'.delivered, s'.delivered);
    hide InOrder, Distinct, LeftToStream, Newest;
    forall e | e in s'.lost ensures e in s.log[..s'.delivered] {
      if e in LeftToStream(s, s'.delivered) {
        LeftToStreamWanted(t0, s, s'.delivered, e);
      }
    }
  }

  // Whatever a switch that finds no older line queued does to the record; and if the stream has got to it all
  // when it is followed, the invariant.
  lemma SwitchKeepsInv(hash: Event -> string, t0: int, s: Sys, h: int, n: nat, since: int, lines: seq<Line>,
                       arrivals: seq<seq<Line>>)
    requires InvAt(t0, s, h) && Allowed(t0, s, Answer(n, since, lines, arrivals))
    requires (!s.m.synchronized || s.m.timedOut) && Batch(hash, s.m, lines) != []
    requires HandsOver(s.m, LastOf(Batch(hash, s.m, lines)))
    requires TimelySwitch(s, Parse(lines), LastOf(Batch(hash, s.m, lines)),
                          AfterPoll(hash, s, lines, arrivals).delivered)
    ensures Inv(t0, AfterPoll(hash, s, lines, arrivals))
  {
    hide *;
    PartsOfInv(t0, s, h);
    PartsOfAnswer(t0, s, n, since, lines, arrivals);
    var last := Batch(hash, s.m, lines)[|Batch(hash, s.m, lines)| - 1];
    TimelyFindsNoOlder(s, Parse(lines), LastOf(Batch(hash, s.m, lines)), AfterPoll(hash, s, lines, arrivals).delivered);
    var more := PollSwitches(hash, t0, s, h, n, since, lines, arrivals);
    LastOfBatchPolled(hash, s.m, lines);
    LaterThanQueued(s.m, Batch(hash, s.m, lines));
    AnswerHolds(t0, s, h, n, since, lines);
    var s' := AfterPoll(hash, s, lines, arrivals);
    SwitchedUpToEnd(t0, s, h, n, Parse(lines), last, more, s');
    SwitchedIsLive(t0, s, Parse(lines), more, s');
    SwitchBounds(t0, s, h, n, Parse(lines), more, s');
    if s'.m.synchronized {
      FollowedGotTo(s, Parse(lines), LastOf(Batch(hash, s.m, lines)), s'.delivered);
      SwitchedUpToPlace(t0, s, h, n, Parse(lines), more, s');
      InvFromParts(t0, s', s'.delivered);
      Witnessed(t0, s', s'.delivered);
    } else {
      InvFromParts(t0, s', SwitchEnd(s, h, n, s'.delivered));
      Witnessed(t0, s', SwitchEnd(s, h, n, s'.delivered));
    }
  }

  lemma Witnessed(t0: int, s: Sys, h: int)
    requires InvAt(t0, s, h)
    ensures Inv(t0, s)
  {
  }

  lemma TimelyFindsNoOlder(s: Sys, polled: seq<Event>, last: int, d: int)
    requires TimelySwitch(s, polled, last, d)
    ensures s.m.queue != [] && Newest(s.m, s.m.queue[0].ts)
  {
  }

  lemma FollowedGotTo(s: Sys, polled: seq<Event>, last: int, d: int)
    requires TimelySwitch(s, polled, last, d) && !(s.m.timedOut && Newer(s.m, last))
    ensures GotTo(s, polled, d)
  {
  }

  lemma StaleKeeps(hash: Event -> string, t0: int, s: Sys, h: int, lines: seq<Line>, arrivals: seq<seq<Line>>)
    requires InvAt(t0, s, h)
    requires (s.m.synchronized && !s.m.timedOut) || Batch(hash, s.m, lines) == []
    ensures AfterPoll(hash, s, lines, arrivals) == s
  {
    SameBatch(hash, s.m, s.m.(arrivals := arrivals), lines);
    hide Batch;
    assert (set e | e in s.lost && e !in s.m.ledger.recorded) == s.lost;
    assert CameIn(arrivals, arrivals) == [] by { assert arrivals[..0] == []; }
  }
}
