/** Over all runs the record is exact if and only if every poll is timely. */
module GerritTimeliness {
  import opened Prelude
  import opened Sorting
  import opened GerritLedger
  import opened GerritMerge
  import opened GerritExactness
  import opened GerritLimits
  import opened GerritStream
  import opened GerritRuns
  import opened GerritPolls
  import opened GerritSilence

  // ---- Timely polls keep the invariant ----

  lemma AnswerKeepsInv(hash: Event -> string, t0: int, s: Sys, h: int, n: nat, since: int, lines: seq<Line>,
                       arrivals: seq<seq<Line>>)
    requires InvAt(t0, s, h) && Allowed(t0, s, Answer(n, since, lines, arrivals)) && Timely(hash, s, lines, arrivals)
    ensures Inv(t0, AfterPoll(hash, s, lines, arrivals))
  {
    hide InvAt, Batch, AfterPoll, Inv, Allowed, TimelySilence, TimelySwitch;
    if (s.m.synchronized && !s.m.timedOut) || Batch(hash, s.m, lines) == [] {
      StaleKeeps(hash, t0, s, h, lines, arrivals);
      Witnessed(t0, s, h);
    } else if s.m.synchronized && !Newer(s.m, LastOf(Batch(hash, s.m, lines))) {
      SilentKeepsInv(hash, t0, s, h, n, since, lines, arrivals);
    } else if HandsOver(s.m, LastOf(Batch(hash, s.m, lines))) {
      SwitchKeepsInv(hash, t0, s, h, n, since, lines, arrivals);
    } else {
      PollOnlyKeepsInv(hash, t0, s, h, n, since, lines, arrivals);
      Witnessed(t0, AfterPoll(hash, s, lines, arrivals), Max(h, n));
    }
  }

  lemma StepKeepsInv(hash: Event -> string, t0: int, s: Sys, step: Step)
    requires Inv(t0, s) && Enabled(hash, t0, s, step)
    ensures Inv(t0, Next(hash, s, step))
  {
    var h :| InvAt(t0, s, h);
    hide InvAt, AfterPoll, Timely;
    match step
    case Appear(e) =>
      AppearKeepsInv(t0, s, h, e);
    case Stream(line) =>
      var h' := StreamKeepsInv(hash, t0, s, h, line);
    case Answer(n, since, lines, arrivals) =>
      AnswerKeepsInv(hash, t0, s, h, n, since, lines, arrivals);
    case Silence =>
      SilenceKeepsInv(t0, s, h);
  }

  lemma StepOfRun(hash: Event -> string, t0: int, states: seq<Sys>, steps: seq<Step>, i: nat)
    requires IsRun(hash, t0, states, steps) && i < |steps|
    ensures |states| == |steps| + 1
    ensures Enabled(hash, t0, states[i], steps[i]) && states[i + 1] == Next(hash, states[i], steps[i])
  {
    hide Enabled, Next;
  }

  lemma {:induction false} RunInv(hash: Event -> string, t0: int, states: seq<Sys>, steps: seq<Step>, k: nat)
    requires IsRun(hash, t0, states, steps) && k < |states|
    ensures |states| == |steps| + 1 && Inv(t0, states[k])
  {
    hide Enabled, Next, Inv;
    if k == 0 {
      InitInv(t0, states[0]);
    } else {
      RunInv(hash, t0, states, steps, k - 1);
      StepOfRun(hash, t0, states, steps, k - 1);
      StepKeepsInv(hash, t0, states[k - 1], steps[k - 1]);
    }
  }

  // ---- Exactness ----

  // What has been recorded is in time order, has no event twice and holds only events of the log since the
  // start of the service. When the source follows the stream, it is exactly all of them that the stream has
  // got to, but for those that a switch passed over and no poll has brought since.
  ghost predicate Exact(t0: int, s: Sys) {
    && InOrder(s.m.ledger.recorded) && Distinct(s.m.ledger.recorded)
    && (forall e :: e in s.m.ledger.recorded ==> e in s.log && e.ts >= t0)
    && (s.m.synchronized ==>
          && 0 <= s.delivered <= |s.log|
          && forall e :: e in s.m.ledger.recorded <==> e in s.log[..s.delivered] && e.ts >= t0 && e !in s.lost)
  }

  lemma InvIsExact(t0: int, s: Sys)
    requires Inv(t0, s)
    ensures Exact(t0, s)
  {
    var h :| InvAt(t0, s, h);
    hide InOrder, Distinct, QueueIsLive;
    forall e | e in s.m.ledger.recorded ensures e in s.log {
      assert e in s.log[..h];
    }
  }

  // ---- A switch that is not timely ----

  lemma OlderQueuedIsInexact(hash: Event -> string, t0: int, s: Sys, h: int, n: nat, since: int, lines: seq<Line>,
                             arrivals: seq<seq<Line>>)
    requires InvAt(t0, s, h) && Allowed(t0, s, Answer(n, since, lines, arrivals))
    requires (!s.m.synchronized || s.m.timedOut) && Batch(hash, s.m, lines) != []
    requires HandsOver(s.m, LastOf(Batch(hash, s.m, lines))) && !Newest(s.m, s.m.queue[0].ts)
    ensures !InOrder(AfterPoll(hash, s, lines, arrivals).m.ledger.recorded)
  {
    var m := s.m.(arrivals := arrivals);
    PartsOfInv(t0, s, h);
    PartsOfAnswer(t0, s, n, since, lines, arrivals);
    SameBatch(hash, s.m, m, lines);
    SameQuestions(s.m, m, LastOf(Batch(hash, s.m, lines)));
    IgnoresArrivals(s.m, m);
    AfterPollIs(hash, s, lines, arrivals);
    hide InvAt, Batch, Poll, Parse, AfterPoll, InOrder, Distinct, QueueIsLive, RecordedUpTo, Brought;
    LateLineComesOut(hash, m, lines);
    CoherentEndsAtLast(s.m);
    EndsOutOfOrder(s.m.ledger.recorded, s.m.queue[0], Poll(hash, m, lines).ledger.recorded);
  }

  lemma EndsOutOfOrder(recorded: seq<Event>, e: Event, all: seq<Event>)
    requires recorded != [] && recorded[|recorded| - 1].ts > e.ts && recorded + [e] <= all
    ensures !InOrder(all)
  {
    assert all[|recorded| - 1] == recorded[|recorded| - 1] && all[|recorded|] == e;
  }

  // Whatever is older than an event among the first d of the log is among them too.
  lemma OlderIsEarlier(log: seq<Event>, d: int, e: Event, newer: Event)
    requires InOrder(log) && 0 <= d <= |log| && newer in log[..d] && e in log && e.ts < newer.ts
    ensures e in log[..d]
  {
    var i :| 0 <= i < d && log[i] == newer;
    var j :| 0 <= j < |log| && log[j] == e;
    assert j < d;
    assert log[..d][j] == e;
  }

  lemma FollowedIsInLog(t0: int, s: Sys)
    requires Exact(t0, s) && s.m.synchronized
    ensures 0 <= s.delivered <= |s.log| && forall e :: e in s.m.ledger.recorded ==> e in s.log[..s.delivered]
  {
    hide InOrder, Distinct;
  }

  lemma SwitchKeepsRecord(s: Sys, polled: seq<Event>, more: seq<Event>, s': Sys)
    requires Switches(s, polled, more, s')
    ensures s.m.queue != [] && s'.log == s.log
    ensures forall e :: e in s.m.ledger.recorded ==> e in s'.m.ledger.recorded
    ensures forall e :: e in polled && Newest(s.m, e.ts) && e.ts <= s.m.queue[0].ts ==> e in s'.m.ledger.recorded
  {
    hide Brought, LeftToStream, Newest;
  }

  lemma OlderThanRecorded(m: Merge, ts: int) returns (newer: Event)
    requires Coherent(m) && !Newest(m, ts)
    ensures newer in m.ledger.recorded && ts < newer.ts
  {
    newer := m.ledger.recorded[|m.ledger.recorded| - 1];
  }

  lemma ExactSwitchGotTo(t0: int, s: Sys, h: int, n: nat, polled: seq<Event>, more: seq<Event>, s': Sys)
    requires InvAt(t0, s, h) && Covers(t0, s, n, polled) && Switches(s, polled, more, s')
    requires Exact(t0, s') && s'.m.synchronized
    ensures GotTo(s, polled, s'.delivered)
  {
    hide InvAt, InOrder, Coherent, Exact, Switches, Covers, Newest, QueueIsLive, RecordedUpTo, Distinct;
    PartsOfInv(t0, s, h);
    FollowedIsInLog(t0, s');
    SwitchKeepsRecord(s, polled, more, s');
    forall e | e in polled && e.ts <= s.m.queue[0].ts ensures e in s.log[..s'.delivered] {
      if !Newest(s.m, e.ts) {
        CoversPolled(t0, s, n, polled, e);
        var newer := OlderThanRecorded(s.m, e.ts);
        OlderIsEarlier(s.log, s'.delivered, e, newer);
      }
    }
  }

  lemma ExactSwitchIsTimely(hash: Event -> string, t0: int, s: Sys, h: int, n: nat, since: int, lines: seq<Line>,
                            arrivals: seq<seq<Line>>)
    requires InvAt(t0, s, h) && Allowed(t0, s, Answer(n, since, lines, arrivals))
    requires (!s.m.synchronized || s.m.timedOut) && Batch(hash, s.m, lines) != []
    requires HandsOver(s.m, LastOf(Batch(hash, s.m, lines))) && Exact(t0, AfterPoll(hash, s, lines, arrivals))
    ensures TimelySwitch(s, Parse(lines), LastOf(Batch(hash, s.m, lines)),
                         AfterPoll(hash, s, lines, arrivals).delivered)
  {
    var s' := AfterPoll(hash, s, lines, arrivals);
    assert InOrder(s'.m.ledger.recorded);
    PartsOfAnswer(t0, s, n, since, lines, arrivals);
    hide InvAt, Batch, AfterPoll, Allowed, InOrder, Newest, Exact, Parse, Switches, Covers, Answers;
    LaterThanQueued(s.m, Batch(hash, s.m, lines));
    if !Newest(s.m, s.m.queue[0].ts) {
      OlderQueuedIsInexact(hash, t0, s, h, n, since, lines, arrivals);
      assert false;
    }
    var more := PollSwitches(hash, t0, s, h, n, since, lines, arrivals);
    if s'.m.synchronized {
      AnswerHolds(t0, s, h, n, since, lines);
      ExactSwitchGotTo(t0, s, h, n, Parse(lines), more, s');
    }
  }

  // ---- A poll of a silent stream that is not timely ----

  lemma {:induction false} FollowedAreBrought(log: seq<Event>, d: int, lines: seq<Line>)
    requires InOrder(log) && Distinct(log) && Brings(log, d, lines)
    ensures Brought(log, d, FollowedOf(lines), PlaceAfter(d, lines))
  {
    hide InOrder, Distinct, Brought;
    if lines == [] {
      NothingBrought(log, d, d);
    } else {
      var (init, line) := (lines[..|lines| - 1], lines[|lines| - 1]);
      var (c, c') := (PlaceAfter(d, init), PlaceAfter(d, lines));
      FollowedAreBrought(log, d, init);
      if line.Good? && Unbroken(init) {
        OneBrought(log, c);
        BroughtJoins(log, d, FollowedOf(init), c, [line.event], c');
      } else {
        PlaceIsInLog(log, d, init);
        NothingBrought(log, c, c');
        BroughtJoins(log, d, FollowedOf(init), c, [], c');
        assert FollowedOf(init) + [] == FollowedOf(init);
      }
    }
  }

  lemma ArrivingAreBrought(log: seq<Event>, d: int, arrivals: seq<seq<Line>>, k: nat) returns (c: int, c': int)
    requires InOrder(log) && Distinct(log) && Brings(log, d, Flat(arrivals))
    ensures 0 <= d <= c && Brought(log, c, Arriving(arrivals, k), c')
  {
    hide InOrder, Distinct, Brings, Brought, PlaceAfter, FollowedOf, Flat;
    PlaceIsInLog(log, d, Flat(arrivals));
    c, c' := d, d;
    if k < |arrivals| && UnbrokenUntil(arrivals, k) {
      LinesOfYield(log, d, arrivals, k);
      c := PlaceAfter(d, Flat(Take(arrivals, k)));
      c' := PlaceAfter(c, arrivals[k]);
      FollowedAreBrought(log, c, arrivals[k]);
    } else {
      NothingBrought(log, d, d);
    }
  }

  lemma BroughtIsLater(log: seq<Event>, d: int, c: int, more: seq<Event>, c': int, ts: int)
    requires Brought(log, c, more, c') && 0 <= d <= c
    requires forall i :: d <= i < |log| ==> ts <= log[i].ts
    ensures d <= |log| && InOrder(more) && forall e :: e in more ==> e.ts >= ts && e in log[d..]
  {
    hide InOrder, Distinct;
    forall e | e in more ensures e.ts >= ts && e in log[d..] {
      var i :| c <= i < c' && log[i] == e;
      assert log[d..][i - d] == e;
    }
  }

  lemma ArrivingAreLater(log: seq<Event>, d: int, arrivals: seq<seq<Line>>, k: nat, ts: int)
    requires InOrder(log) && Distinct(log) && Brings(log, d, Flat(arrivals))
    requires 0 <= d && forall i :: d <= i < |log| ==> ts <= log[i].ts
    ensures InOrder(Arriving(arrivals, k)) && forall e :: e in Arriving(arrivals, k) ==> e.ts >= ts
    ensures d <= |log| && forall e :: e in Arriving(arrivals, k) ==> e in log[d..]
  {
    hide *;
    var c, c' := ArrivingAreBrought(log, d, arrivals, k);
    BroughtIsLater(log, d, c, Arriving(arrivals, k), c', ts);
  }

  lemma RepeatedIn(a: seq<Event>, b: seq<Event>, c: seq<Event>, e: Event)
    requires (e in a && e in b) || (e in a && e in c) || (e in b && e in c) || !Distinct(a)
    ensures !Distinct(a + b + c)
  {
    var (all, n, k) := (a + b + c, |a|, |a| + |b|);
    if !Distinct(a) {
      var i, j :| 0 <= i < j < n && a[i] == a[j];
      assert all[i] == all[j];
    } else if e in a {
      var i :| 0 <= i < n && a[i] == e;
      if e in b {
        var j :| 0 <= j < |b| && b[j] == e;
        assert all[i] == all[n + j];
      } else {
        var j :| 0 <= j < |c| && c[j] == e;
        assert all[i] == all[k + j];
      }
    } else {
      var i :| 0 <= i < |b| && b[i] == e;
      var j :| 0 <= j < |c| && c[j] == e;
      assert all[n + i] == all[k + j];
    }
  }

  // An event of the batch that is followed as well is recorded twice.
  lemma {:induction false} WovenTwice(events: seq<Event>, arrivals: seq<seq<Line>>, k: nat, e: Event)
    requires k < |events| && e in events && e in Arriving(arrivals, k)
    ensures !Distinct(Woven(events, arrivals))
  {
    hide Arriving, Distinct;
    var n := |events| - 1;
    var init := events[..n];
    assert events == init + [events[n]];
    WovenMeans(init, arrivals, e);
    if e in init && k < n {
      WovenTwice(init, arrivals, k, e);
    }
    RepeatedIn(Woven(init, arrivals), [events[n]], Arriving(arrivals, n), e);
  }

  // What a poll of a silent stream leaves on record.
  lemma SilentPollResult(hash: Event -> string, s: Sys, lines: seq<Line>, arrivals: seq<seq<Line>>)
    requires s.m.synchronized && s.m.timedOut && s.m.queue == [] && Batch(hash, s.m, lines) != []
    requires !Newer(s.m, LastOf(Batch(hash, s.m, lines)))
    ensures
      var (events, s') := (Batch(hash, s.m, lines), AfterPoll(hash, s, lines, arrivals));
      && s'.m.ledger.recorded == s.m.ledger.recorded + Woven(events, arrivals)
      && s'.m.ledger.recorded == Poll(hash, s.m.(arrivals := arrivals), lines).ledger.recorded
      && s'.log == s.log && (s'.m.synchronized <==> UnbrokenUntil(arrivals, |events|))
  {
    var (m, events) := (s.m.(arrivals := arrivals), Batch(hash, s.m, lines));
    SameBatch(hash, s.m, m, lines);
    SilentPollIs(hash, m, lines);
    WovenIsHandedOn(m, events);
    AfterPollIs(hash, s, lines, arrivals);
    hide Batch, EmitAll, Poll, Woven, UnbrokenUntil, CameIn, PlaceAfter, AfterPoll, From;
  }

  lemma ExactSilenceIsLevel(hash: Event -> string, t0: int, s: Sys, h: int, n: nat, since: int, lines: seq<Line>,
                            arrivals: seq<seq<Line>>)
    requires InvAt(t0, s, h) && Allowed(t0, s, Answer(n, since, lines, arrivals))
    requires s.m.synchronized && s.m.timedOut && Batch(hash, s.m, lines) != [] && s.m.lastTs.Some?
    requires !Newer(s.m, LastOf(Batch(hash, s.m, lines)))
    requires InOrder(Poll(hash, s.m.(arrivals := arrivals), lines).ledger.recorded)
    ensures LevelUntil(arrivals, |Batch(hash, s.m, lines)| - 1, s.m.lastTs.value)
  {
    var (m, ts) := (s.m.(arrivals := arrivals), s.m.lastTs.value);
    PartsOfInv(t0, s, h);
    PartsOfAnswer(t0, s, n, since, lines, arrivals);
    LastSecondIsRecorded(t0, s, h);
    SameBatch(hash, s.m, m, lines);
    IgnoresArrivals(s.m, m);
    hide InvAt, Batch, Poll, Parse, InOrder, Distinct, Coherent, QueueIsLive, RecordedUpTo, Allowed, Arriving,
         LevelUntil;
    forall k: nat ensures InOrder(Arriving(arrivals, k)) && forall e :: e in Arriving(arrivals, k) ==> e.ts >= ts {
      ArrivingAreLater(s.log, s.delivered, arrivals, k, ts);
    }
    SilentPollOrderExactly(hash, m, lines);
  }

  lemma ExactSilenceIsTimely(hash: Event -> string, t0: int, s: Sys, h: int, n: nat, since: int, lines: seq<Line>,
                             arrivals: seq<seq<Line>>)
    requires InvAt(t0, s, h) && Allowed(t0, s, Answer(n, since, lines, arrivals))
    requires s.m.synchronized && s.m.timedOut && Batch(hash, s.m, lines) != []
    requires !Newer(s.m, LastOf(Batch(hash, s.m, lines))) && Exact(t0, AfterPoll(hash, s, lines, arrivals))
    ensures TimelySilence(s, Batch(hash, s.m, lines), arrivals, AfterPoll(hash, s, lines, arrivals).delivered)
  {
    var (events, s') := (Batch(hash, s.m, lines), AfterPoll(hash, s, lines, arrivals));
    PartsOfInv(t0, s, h);
    SilentPollResult(hash, s, lines, arrivals);
    hide InvAt, Batch, AfterPoll, Poll, Allowed, InOrder, Distinct, Coherent, QueueIsLive, RecordedUpTo, Arriving;
    ExactSilenceIsLevel(hash, t0, s, h, n, since, lines, arrivals);
    forall k: nat, e | k < |events| && e in Arriving(arrivals, k) ensures e !in events {
      if e in events {
        WovenTwice(events, arrivals, k, e);
        EndRepeats(s.m.ledger.recorded, Woven(events, arrivals));
        assert false;
      }
    }
    forall e | e in events ensures e in s'.m.ledger.recorded {
      WovenMeans(events, arrivals, e);
    }
    hide Woven, LevelUntil;
  }

  lemma EndRepeats(a: seq<Event>, b: seq<Event>)
    requires !Distinct(b)
    ensures !Distinct(a + b)
  {
    var i, j :| 0 <= i < j < |b| && b[i] == b[j];
    assert (a + b)[|a| + i] == (a + b)[|a| + j];
  }

  // ---- The exact condition ----

  // A poll leaves the record exact if and only if it is timely.
  lemma TimelyExactly(hash: Event -> string, t0: int, s: Sys, n: nat, since: int, lines: seq<Line>,
                      arrivals: seq<seq<Line>>)
    requires Inv(t0, s) && Allowed(t0, s, Answer(n, since, lines, arrivals))
    ensures Exact(t0, AfterPoll(hash, s, lines, arrivals)) <==> Timely(hash, s, lines, arrivals)
  {
    var h :| InvAt(t0, s, h);
    PartsOfInv(t0, s, h);
    hide InvAt, Batch, AfterPoll, Allowed, Exact, Inv, TimelySilence, TimelySwitch, Coherent, QueueIsLive, RecordedUpTo;
    if Timely(hash, s, lines, arrivals) {
      AnswerKeepsInv(hash, t0, s, h, n, since, lines, arrivals);
      InvIsExact(t0, AfterPoll(hash, s, lines, arrivals));
    } else if Exact(t0, AfterPoll(hash, s, lines, arrivals)) {
      if s.m.synchronized && !Newer(s.m, LastOf(Batch(hash, s.m, lines))) {
        ExactSilenceIsTimely(hash, t0, s, h, n, since, lines, arrivals);
      }
      if HandsOver(s.m, LastOf(Batch(hash, s.m, lines))) {
        ExactSwitchIsTimely(hash, t0, s, h, n, since, lines, arrivals);
      }
    }
  }

  lemma EveryRunIsExact(hash: Event -> string, t0: int, states: seq<Sys>, steps: seq<Step>, k: nat)
    requires IsRun(hash, t0, states, steps) && k < |states|
    ensures Exact(t0, states[k])
  {
    RunInv(hash, t0, states, steps, k);
    InvIsExact(t0, states[k]);
  }

  lemma {:induction false} ExactRunIsTimely(hash: Event -> string, t0: int, states: seq<Sys>, steps: seq<Step>, k: nat)
    requires IsAllowedRun(hash, t0, states, steps) && k < |states|
    requires forall i :: 0 <= i < |states| ==> Exact(t0, states[i])
    ensures |states| == |steps| + 1 && Inv(t0, states[k])
    ensures k < |steps| ==> Enabled(hash, t0, states[k], steps[k])
  {
    hide Allowed, Next, Inv, Exact, Timely, Init;
    if k == 0 {
      InitInv(t0, states[0]);
    } else {
      ExactRunIsTimely(hash, t0, states, steps, k - 1);
      StepKeepsInv(hash, t0, states[k - 1], steps[k - 1]);
    }
    if k < |steps| {
      assert Allowed(t0, states[k], steps[k]) && states[k + 1] == Next(hash, states[k], steps[k]);
      if steps[k].Answer? {
        AnswerIs(hash, states[k], steps[k]);
        TimelyExactly(hash, t0, states[k], steps[k].n, steps[k].since, steps[k].lines, steps[k].arrivals);
      }
    }
  }

  lemma AnswerIs(hash: Event -> string, s: Sys, step: Step)
    requires step.Answer?
    ensures Next(hash, s, step) == AfterPoll(hash, s, step.lines, step.arrivals)
    ensures step == Answer(step.n, step.since, step.lines, step.arrivals)
  {
    hide AfterPoll;
  }

  // Over every run of whatever server and network may do, the record is exact at all times if and only if
  // every poll is timely.
  lemma RunsAreExactExactly(hash: Event -> string, t0: int, states: seq<Sys>, steps: seq<Step>)
    requires IsAllowedRun(hash, t0, states, steps)
    ensures (forall k :: 0 <= k < |states| ==> Exact(t0, states[k])) <==> IsRun(hash, t0, states, steps)
  {
    hide IsAllowedRun, Exact, Enabled;
    if IsRun(hash, t0, states, steps) {
      forall k | 0 <= k < |states| ensures Exact(t0, states[k]) {
        EveryRunIsExact(hash, t0, states, steps, k);
      }
    } else if forall k :: 0 <= k < |states| ==> Exact(t0, states[k]) {
      RunLengths(hash, t0, states, steps);
      forall i | 0 <= i < |steps| ensures Enabled(hash, t0, states[i], steps[i]) {
        ExactRunIsTimely(hash, t0, states, steps, i);
      }
    }
  }

  lemma RunLengths(hash: Event -> string, t0: int, states: seq<Sys>, steps: seq<Step>)
    requires IsAllowedRun(hash, t0, states, steps)
    ensures |states| == |steps| + 1
  {
    hide Init, Allowed, Next;
  }
}
