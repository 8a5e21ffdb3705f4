/** The promises of the merge over whole runs. */
module GerritTheorems {
  import opened Prelude
  import opened Sorting
  import opened GerritLedger
  import opened GerritMerge
  import opened GerritExactness
  import opened GerritLimits
  import opened GerritStream
  import opened GerritRuns
  import opened GerritPolls
  import opened GerritSilence
  import opened GerritTimeliness

  // ---- Nothing is taken back ----

  // s' has everything s has on record, and what was lost is still lost or on record.
  ghost predicate Adds(s: Sys, s': Sys) {
    && s.m.ledger.recorded <= s'.m.ledger.recorded && s.log <= s'.log
    && forall e :: e in s.lost ==> e in s'.lost || e in s'.m.ledger.recorded
  }

  lemma AddsChains(s: Sys, s': Sys, s'': Sys)
    requires Adds(s, s') && Adds(s', s'')
    ensures Adds(s, s'')
  {
  }

  lemma StepOnlyAdds(hash: Event -> string, s: Sys, step: Step)
    ensures Adds(s, Next(hash, s, step))
  {
    if step.Answer? {
      AfterPollIs(hash, s, step.lines, step.arrivals);
      PollOnlyAdds(hash, s.m.(arrivals := step.arrivals), step.lines);
      hide Poll, AfterPoll, LeftToStream, CameIn, PlaceAfter;
    } else {
      hide Parse, PlaceAfter;
    }
  }

  lemma {:induction false} RunOnlyAdds(hash: Event -> string, t0: int, states: seq<Sys>, steps: seq<Step>,
                                       i: nat, k: nat)
    requires IsAllowedRun(hash, t0, states, steps) && i <= k < |states|
    ensures Adds(states[i], states[k])
  {
    hide Adds, Next, Allowed, Init;
    if i == k {
      AddsNothing(states[i]);
    } else {
      RunOnlyAdds(hash, t0, states, steps, i, k - 1);
      StepOnlyAdds(hash, states[k - 1], steps[k - 1]);
      AddsChains(states[i], states[k - 1], states[k]);
    }
  }

  lemma AddsNothing(s: Sys)
    ensures Adds(s, s)
  {
  }

  // ---- What polls observe ----

  // A poll that is still behind the stream, or has no stream to compare with, leaves out nothing of the log
  // it was answered from, but for what a switch had passed over and the answer no longer reaches.
  lemma AnswerLosesNothing(hash: Event -> string, t0: int, s: Sys, n: nat, since: int, lines: seq<Line>,
                           arrivals: seq<seq<Line>>)
    requires Inv(t0, s) && Allowed(t0, s, Answer(n, since, lines, arrivals))
    requires !s.m.synchronized
    requires Batch(hash, s.m, lines) != [] ==> !HandsOver(s.m, LastOf(Batch(hash, s.m, lines)))
    ensures
      var s' := AfterPoll(hash, s, lines, arrivals);
      forall e :: e in s.log[..n] && e.ts >= t0 ==> e in s'.m.ledger.recorded || e in s'.lost
  {
    var h :| InvAt(t0, s, h);
    PartsOfAnswer(t0, s, n, since, lines, arrivals);
    if Batch(hash, s.m, lines) == [] {
      StaleKeeps(hash, t0, s, h, lines, arrivals);
      AnswerHolds(t0, s, h, n, since, lines);
      BatchMeans(hash, s.m, lines);
      hide Batch, Coherent, InOrder, Distinct, AfterPoll, Newest;
      forall e | e in Parse(lines) && Newest(s.m, e.ts) ensures e in s.m.ledger.recorded {
        assert !Fresh(s.m, e);
      }
    } else {
      PollOnlyKeepsInv(hash, t0, s, h, n, since, lines, arrivals);
      AfterPollIs(hash, s, lines, arrivals);
      hide Batch, AfterPoll, QueueIsLive, Coherent, InOrder, Distinct, Poll, Brings, Parse;
      assert s.log[..n] <= s.log[..Max(h, n)];
    }
  }

  // With an empty queue, whatever any poll of the run has observed is on record from then on, once.
  lemma ObservedIsRecorded(hash: Event -> string, t0: int, states: seq<Sys>, steps: seq<Step>, i: nat, k: nat, n: nat,
                           since: int, lines: seq<Line>, arrivals: seq<seq<Line>>)
    requires IsRun(hash, t0, states, steps) && i < k < |states|
    requires steps[i] == Answer(n, since, lines, arrivals)
    requires !states[i].m.synchronized && states[i].m.queue == []
    ensures n <= |states[i].log| && Distinct(states[k].m.ledger.recorded)
    ensures forall e :: e in states[i].log[..n] && e.ts >= t0 ==>
              e in states[k].m.ledger.recorded || e in states[k].lost
  {
    RunInv(hash, t0, states, steps, i);
    StepOfRun(hash, t0, states, steps, i);
    AnswerIs(hash, states[i], steps[i]);
    hide Inv, Batch, AfterPoll, InOrder, Timely, IsAllowedRun, Brings, Parse;
    AnswerLosesNothing(hash, t0, states[i], n, since, lines, arrivals);
    RunOnlyAdds(hash, t0, states, steps, i + 1, k);
    EveryRunIsExact(hash, t0, states, steps, k);
  }

  // ---- Connections that skip nothing ----

  ghost predicate Gapless(s: Sys) { s.lost == {} && forall e :: !Skipped(s, e) }

  // The stream is started again only while no line is queued, or where it was; during a poll, only where it was.
  predicate Clean(s: Sys, step: Step) {
    && (step.Stream? && step.line.Restarted? ==> s.m.queue == [] || step.line.at == s.delivered)
    && (step.Answer? ==> SkipsNothing(s.delivered, Flat(step.arrivals)))
  }

  lemma GaplessLost(s: Sys)
    requires Gapless(s)
    ensures s.lost == {}
  {
  }

  lemma EmptyQueueIsGapless(s: Sys)
    requires s.first == s.delivered && s.lost == {}
    ensures Gapless(s)
  {
  }

  lemma QueueHoldsAll(s: Sys)
    requires Gapless(s) && 0 <= s.first <= s.delivered <= |s.log|
    ensures forall e :: e in s.log[s.first..s.delivered] ==> e in s.m.queue
  {
    forall e | e in s.log[s.first..s.delivered] ensures e in s.m.queue {
      assert !Skipped(s, e);
    }
  }

  // Lines that skip nothing have come in: the queue and they are all there is.
  lemma NoGapBefore(t0: int, s: Sys, more: seq<Event>, d: int)
    requires Gapless(s) && QueueIsLive(t0, s) && s.delivered <= d <= |s.log| && more == s.log[s.delivered..d]
    ensures 0 <= s.first <= s.delivered && forall e :: e in s.log[s.first..d] ==> e in s.m.queue + more
  {
    QueueHoldsAll(s);
    assert s.log[s.first..d] == s.log[s.first..s.delivered] + more;
  }

  lemma GaplessMoved(t0: int, s: Sys, more: seq<Event>, s': Sys)
    requires Gapless(s) && QueueIsLive(t0, s) && s.delivered <= s'.delivered <= |s.log|
    requires more == s.log[s.delivered..s'.delivered] && s'.log == s.log && s'.m.queue == s.m.queue + more
    requires s'.first == (if s'.m.queue == [] then s'.delivered else s.first) && s'.lost == {}
    ensures Gapless(s')
  {
    NoGapBefore(t0, s, more, s'.delivered);
  }

  // The lines that come in during a clean poll.
  lemma CleanLines(hash: Event -> string, t0: int, s: Sys, h: int, n: nat, since: int, lines: seq<Line>,
                   arrivals: seq<seq<Line>>)
    requires InvAt(t0, s, h) && Allowed(t0, s, Answer(n, since, lines, arrivals))
    requires SkipsNothing(s.delivered, Flat(arrivals))
    ensures
      var (s', m') := (AfterPoll(hash, s, lines, arrivals), Poll(hash, s.m.(arrivals := arrivals), lines));
      && 0 <= s.delivered <= s'.delivered <= |s.log|
      && Parse(CameIn(arrivals, m'.arrivals)) == s.log[s.delivered..s'.delivered]
  {
    hide *;
    PartsOfAnswer(t0, s, n, since, lines, arrivals);
    var rest := Poll(hash, s.m.(arrivals := arrivals), lines).arrivals;
    PollTakesFromFront(hash, s.m.(arrivals := arrivals), lines);
    CameInFirst(s.log, s.delivered, arrivals, rest);
    FirstSkipNothing(s.log, s.delivered, CameIn(arrivals, rest), Flat(rest));
    LinesBringAll(s.log, s.delivered, CameIn(arrivals, rest));
    SkippingNothing(s.delivered, CameIn(arrivals, rest));
    AfterPollIs(hash, s, lines, arrivals);
  }

  lemma SkippingNothing(d: int, lines: seq<Line>)
    requires SkipsNothing(d, lines)
    ensures PlaceAfter(d, lines) == d + |Parse(lines)|
  {
  }

  lemma LeftIsRecorded(t0: int, s: Sys, polled: seq<Event>, more: seq<Event>, s': Sys)
    requires Gapless(s) && QueueIsLive(t0, s) && Switches(s, polled, more, s')
    requires s.delivered <= s'.delivered && more == s.log[s.delivered..s'.delivered]
    ensures s'.lost == {}
  {
    NoGapBefore(t0, s, more, s'.delivered);
    GaplessLost(s);
    hide Brought, Newest, Gapless;
    assert forall e :: e !in s'.lost;
  }

  lemma GaplessSwitch(hash: Event -> string, t0: int, s: Sys, h: int, n: nat, since: int, lines: seq<Line>,
                      arrivals: seq<seq<Line>>)
    requires InvAt(t0, s, h) && Allowed(t0, s, Answer(n, since, lines, arrivals)) && Gapless(s)
    requires SkipsNothing(s.delivered, Flat(arrivals))
    requires (!s.m.synchronized || s.m.timedOut) && Batch(hash, s.m, lines) != []
    requires HandsOver(s.m, LastOf(Batch(hash, s.m, lines))) && Newest(s.m, s.m.queue[0].ts)
    ensures Gapless(AfterPoll(hash, s, lines, arrivals))
  {
    hide *;
    PartsOfInv(t0, s, h);
    var more := PollSwitches(hash, t0, s, h, n, since, lines, arrivals);
    CleanLines(hash, t0, s, h, n, since, lines, arrivals);
    var s' := AfterPoll(hash, s, lines, arrivals);
    LeftIsRecorded(t0, s, Parse(lines), more, s');
    EmptyQueueIsGapless(s');
  }

  lemma GaplessPollOnly(hash: Event -> string, t0: int, s: Sys, h: int, n: nat, since: int, lines: seq<Line>,
                        arrivals: seq<seq<Line>>)
    requires InvAt(t0, s, h) && Allowed(t0, s, Answer(n, since, lines, arrivals)) && Gapless(s)
    requires SkipsNothing(s.delivered, Flat(arrivals))
    requires (!s.m.synchronized || s.m.timedOut) && Batch(hash, s.m, lines) != []
    requires s.m.synchronized ==> Newer(s.m, LastOf(Batch(hash, s.m, lines)))
    requires !HandsOver(s.m, LastOf(Batch(hash, s.m, lines)))
    ensures Gapless(AfterPoll(hash, s, lines, arrivals))
  {
    hide *;
    PartsOfInv(t0, s, h);
    GaplessLost(s);
    PollOnlyRecords(hash, t0, s, h, n, since, lines, arrivals);
    CleanLines(hash, t0, s, h, n, since, lines, arrivals);
    AfterPollIs(hash, s, lines, arrivals);
    var (m', s') := (Poll(hash, s.m.(arrivals := arrivals), lines), AfterPoll(hash, s, lines, arrivals));
    QueueOnlyGrows(s.m.queue, Parse(CameIn(arrivals, m'.arrivals)));
    assert s'.lost == {};
    GaplessMoved(t0, s, Parse(CameIn(arrivals, m'.arrivals)), s');
  }

  // A silent stream that is followed has lost nothing that a poll could bring.
  lemma GaplessSilence(hash: Event -> string, t0: int, s: Sys, h: int, n: nat, since: int, lines: seq<Line>,
                       arrivals: seq<seq<Line>>)
    requires InvAt(t0, s, h) && Allowed(t0, s, Answer(n, since, lines, arrivals)) && Gapless(s)
    requires SkipsNothing(s.delivered, Flat(arrivals))
    requires s.m.synchronized && s.m.timedOut && Batch(hash, s.m, lines) != []
    requires !Newer(s.m, LastOf(Batch(hash, s.m, lines)))
    requires TimelySilence(s, Batch(hash, s.m, lines), arrivals, AfterPoll(hash, s, lines, arrivals).delivered)
    ensures Gapless(AfterPoll(hash, s, lines, arrivals))
  {
    var events := Batch(hash, s.m, lines);
    var e := events[0];
    PartsOfInv(t0, s, h);
    PartsOfAnswer(t0, s, n, since, lines, arrivals);
    GaplessLost(s);
    hide InvAt, Batch, Allowed, AfterPoll, TimelySilence, Gapless, Brings, Distinct, Answers, QueueIsLive;
    if forall x :: x in events ==> x in s.log[..s.delivered] {
      BatchWasLost(hash, t0, s, h, n, since, lines);
      assert false;
    }
    var x :| x in events && x !in s.log[..s.delivered];
    var s0 := UnreachedLikeRestarted(hash, t0, s, h, n, since, lines, arrivals, x);
    RestartedIsGapless(s, s0);
    GaplessPollOnly(hash, t0, s0, h, n, since, lines, arrivals);
  }

  lemma RestartedIsGapless(s: Sys, s0: Sys)
    requires Gapless(s) && s0 == s.(m := s.m.(synchronized := false))
    ensures Gapless(s0)
  {
    forall e ensures !Skipped(s0, e) {
      assert !Skipped(s, e);
    }
  }

  lemma GaplessPoll(hash: Event -> string, t0: int, s: Sys, h: int, n: nat, since: int, lines: seq<Line>,
                    arrivals: seq<seq<Line>>)
    requires InvAt(t0, s, h) && Enabled(hash, t0, s, Answer(n, since, lines, arrivals)) && Gapless(s)
    requires SkipsNothing(s.delivered, Flat(arrivals))
    ensures Gapless(AfterPoll(hash, s, lines, arrivals))
  {
    hide InvAt, Gapless, AfterPoll, Batch, TimelySilence, Newest, Allowed, GotTo;
    if (s.m.synchronized && !s.m.timedOut) || Batch(hash, s.m, lines) == [] {
      StaleKeeps(hash, t0, s, h, lines, arrivals);
    } else if s.m.synchronized && !Newer(s.m, LastOf(Batch(hash, s.m, lines))) {
      GaplessSilence(hash, t0, s, h, n, since, lines, arrivals);
    } else if HandsOver(s.m, LastOf(Batch(hash, s.m, lines))) {
      GaplessSwitch(hash, t0, s, h, n, since, lines, arrivals);
    } else {
      GaplessPollOnly(hash, t0, s, h, n, since, lines, arrivals);
    }
  }

  // A clean line is followed, or joins the queue without a gap.
  lemma CleanLineIs(hash: Event -> string, t0: int, s: Sys, line: Line)
    requires BringsNext(s.log, s.delivered, line) && Clean(s, Stream(line)) && QueueIsLive(t0, s)
    requires (s.m.synchronized ==> s.m.queue == []) && (s.m.queue == [] ==> s.first == s.delivered)
    ensures
      var s' := Next(hash, s, Stream(line));
      && s'.log == s.log && s'.lost == s.lost
      && s'.first == (if s'.m.queue == [] then s'.delivered else s.first)
      && (s'.m.queue == []
          || (0 <= s.delivered <= s'.delivered <= |s.log|
              && s'.m.queue == s.m.queue + s.log[s.delivered..s'.delivered]))
  {
    StreamIs(hash, s, line);
    hide InOrder, Distinct, Parse, Follow, PlaceAfter, Next, Brought, QueueIsLive;
    match line
    case Good(e) =>
      FollowOnlyRecords(s.m, e);
      OneSlice(s.log, s.delivered);
    case _ =>
      assert s.log[s.delivered..s.delivered] == [];
      assert s.m.queue + [] == s.m.queue;
  }

  lemma GaplessLine(hash: Event -> string, t0: int, s: Sys, h: int, line: Line)
    requires InvAt(t0, s, h) && BringsNext(s.log, s.delivered, line) && Gapless(s) && Clean(s, Stream(line))
    ensures Gapless(Next(hash, s, Stream(line)))
  {
    hide *;
    PartsOfInv(t0, s, h);
    GaplessLost(s);
    CleanLineIs(hash, t0, s, line);
    var s' := Next(hash, s, Stream(line));
    if s'.m.queue == [] {
      EmptyQueueIsGapless(s');
    } else {
      GaplessMoved(t0, s, s.log[s.delivered..s'.delivered], s');
    }
  }

  lemma GaplessStep(hash: Event -> string, t0: int, s: Sys, step: Step)
    requires Inv(t0, s) && Enabled(hash, t0, s, step) && Gapless(s) && Clean(s, step)
    ensures Gapless(Next(hash, s, step))
  {
    var h :| InvAt(t0, s, h);
    match step
    case Appear(e) =>
      assert (s.log + [e])[s.first..s.delivered] == s.log[s.first..s.delivered];
      assert forall x :: Skipped(Next(hash, s, step), x) ==> Skipped(s, x);
    case Stream(line) =>
      GaplessLine(hash, t0, s, h, line);
    case Answer(n, since, lines, arrivals) =>
      GaplessPoll(hash, t0, s, h, n, since, lines, arrivals);
    case Silence =>
      assert forall x :: Skipped(Next(hash, s, step), x) ==> Skipped(s, x);
  }

  // With clean connections nothing is ever lost, so a followed stream is on record completely.
  lemma {:induction false} CleanRunLosesNothing(hash: Event -> string, t0: int, states: seq<Sys>,
                                                steps: seq<Step>, k: nat)
    requires IsRun(hash, t0, states, steps) && k < |states|
    requires forall i :: 0 <= i < |steps| && i < |states| ==> Clean(states[i], steps[i])
    ensures Gapless(states[k])
  {
    hide *;
    if k == 0 {
      FirstIsGapless(hash, t0, states, steps);
    } else {
      CleanRunLosesNothing(hash, t0, states, steps, k - 1);
      RunInv(hash, t0, states, steps, k - 1);
      StepOfRun(hash, t0, states, steps, k - 1);
      GaplessStep(hash, t0, states[k - 1], steps[k - 1]);
    }
  }

  lemma FirstIsGapless(hash: Event -> string, t0: int, states: seq<Sys>, steps: seq<Step>)
    requires IsRun(hash, t0, states, steps)
    ensures states != [] && Gapless(states[0])
  {
    hide Allowed, Next;
    EmptyQueueIsGapless(states[0]);
  }

  // ---- When no poll has more than the stream has brought ----

  // The stream has brought everything that has been recorded, and nothing older is still queued.
  ghost predicate StreamLeads(s: Sys) {
    && 0 <= s.delivered <= |s.log| && (forall e :: e in s.m.ledger.recorded ==> e in s.log[..s.delivered])
    && (s.m.queue != [] ==> Newest(s.m, s.m.queue[0].ts))
  }

  // A poll that brings a silent, followed stream more of the last second is not interrupted by a later line.
  ghost predicate StaysLevel(hash: Event -> string, s: Sys, lines: seq<Line>, arrivals: seq<seq<Line>>) {
    var events := Batch(hash, s.m, lines);
    s.m.synchronized && s.m.timedOut && events != [] && !Newer(s.m, LastOf(events)) ==>
      LevelUntil(arrivals, |events| - 1, s.m.lastTs.value)
  }

  // What can be said of a poll before it is answered: it has no more of the log than the stream has got to.
  ghost predicate Led(hash: Event -> string, s: Sys, step: Step) {
    step.Answer? ==> step.n <= s.delivered && StaysLevel(hash, s, step.lines, step.arrivals)
  }

  lemma LeadingAnswer(t0: int, s: Sys, h: int, n: nat, since: int, lines: seq<Line>)
    requires InvAt(t0, s, h) && StreamLeads(s) && Answers(t0, s, n, since, lines) && n <= s.delivered
    ensures forall e :: e in Parse(lines) ==> e in s.log[..s.delivered] && e.ts >= t0
  {
    hide Parse, Coherent, InOrder, Distinct, QueueIsLive;
    AnswerHolds(t0, s, h, n, since, lines);
    assert s.log[..n] <= s.log[..s.delivered];
  }

  lemma PollMovesOn(hash: Event -> string, t0: int, s: Sys, h: int, n: nat, since: int, lines: seq<Line>,
                    arrivals: seq<seq<Line>>)
    requires InvAt(t0, s, h) && Allowed(t0, s, Answer(n, since, lines, arrivals))
    ensures
      var d := AfterPoll(hash, s, lines, arrivals).delivered;
      0 <= s.delivered <= d <= |s.log| && forall e :: e in s.log[..s.delivered] ==> e in s.log[..d]
  {
    hide InvAt, Allowed, Poll, AfterPoll, CameIn, Parse, PlaceAfter, InOrder, Distinct;
    ArrivedAre(hash, t0, s, h, n, since, lines, arrivals);
    AfterPollIs(hash, s, lines, arrivals);
    assert s.log[..s.delivered] <= s.log[..AfterPoll(hash, s, lines, arrivals).delivered];
  }

  lemma LeadingSilenceIsTimely(t0: int, s: Sys, h: int, n: nat, since: int, lines: seq<Line>,
                               arrivals: seq<seq<Line>>, events: seq<Event>, d: int)
    requires InvAt(t0, s, h) && Allowed(t0, s, Answer(n, since, lines, arrivals))
    requires s.m.synchronized && s.m.lastTs.Some? && events != [] && 0 <= s.delivered <= d <= |s.log|
    requires forall e :: e in events ==> e in s.log[..s.delivered]
    requires LevelUntil(arrivals, |events| - 1, s.m.lastTs.value)
    ensures TimelySilence(s, events, arrivals, d)
  {
    PartsOfInv(t0, s, h);
    PartsOfAnswer(t0, s, n, since, lines, arrivals);
    LastSecondIsRecorded(t0, s, h);
    assert s.log[..s.delivered] <= s.log[..d];
    hide InvAt, Allowed, InOrder, Coherent, QueueIsLive, RecordedUpTo, Arriving, LevelUntil, Answers, Parse, Brings;
    forall k: nat, e | k < |events| && e in Arriving(arrivals, k) ensures e !in events {
      ArrivingAreLater(s.log, s.delivered, arrivals, k, s.m.lastTs.value);
      NotOnBothSides(s.log, s.delivered, e);
    }
  }

  lemma NotOnBothSides(log: seq<Event>, d: int, e: Event)
    requires Distinct(log) && 0 <= d <= |log| && e in log[d..]
    ensures e !in log[..d]
  {
  }

  lemma LeadingAnswerIsTimely(hash: Event -> string, t0: int, s: Sys, h: int, n: nat, since: int, lines: seq<Line>,
                              arrivals: seq<seq<Line>>)
    requires InvAt(t0, s, h) && StreamLeads(s) && Allowed(t0, s, Answer(n, since, lines, arrivals))
    requires Led(hash, s, Answer(n, since, lines, arrivals))
    ensures Timely(hash, s, lines, arrivals)
    ensures Batch(hash, s.m, lines) != [] ==> forall e :: e in Batch(hash, s.m, lines) ==> e in s.log[..s.delivered]
  {
    var events := Batch(hash, s.m, lines);
    PartsOfInv(t0, s, h);
    PartsOfAnswer(t0, s, n, since, lines, arrivals);
    LeadingAnswer(t0, s, h, n, since, lines);
    PollMovesOn(hash, t0, s, h, n, since, lines, arrivals);
    BatchMeans(hash, s.m, lines);
    hide InvAt, Batch, AfterPoll, Allowed, Parse, Coherent, InOrder, Distinct, QueueIsLive, TimelySilence, LevelUntil;
    if s.m.synchronized && s.m.timedOut && events != [] && !Newer(s.m, LastOf(events)) {
      LeadingSilenceIsTimely(t0, s, h, n, since, lines, arrivals, events,
                             AfterPoll(hash, s, lines, arrivals).delivered);
    }
  }

  lemma FirstQueuedIsNewest(s: Sys, more: seq<Event>, last: Event, m': Merge, d: int)
    requires InOrder(s.log) && Brought(s.log, s.delivered, more, d) && last in s.log[..s.delivered]
    requires m'.lastTs == Some(last.ts) && m'.queue == s.m.queue + more
    requires s.m.queue != [] ==> last.ts <= s.m.queue[0].ts
    ensures m'.queue != [] ==> Newest(m', m'.queue[0].ts)
  {
    if s.m.queue == [] && more != [] {
      assert more[0] in more;
      var k :| s.delivered <= k < d && s.log[k] == more[0];
    }
  }

  lemma StillLeads(s: Sys, m': Merge, s': Sys)
    requires 0 <= s'.delivered <= |s.log| && s'.log == s.log && s'.m == m'.(arrivals := [])
    requires forall e :: e in m'.ledger.recorded ==> e in s.log[..s'.delivered]
    requires m'.queue != [] ==> Newest(m', m'.queue[0].ts)
    ensures StreamLeads(s')
  {
  }

  lemma LeadingPollOnly(hash: Event -> string, t0: int, s: Sys, h: int, n: nat, since: int, lines: seq<Line>,
                        arrivals: seq<seq<Line>>)
    requires InvAt(t0, s, h) && StreamLeads(s) && Allowed(t0, s, Answer(n, since, lines, arrivals))
    requires n <= s.delivered && (!s.m.synchronized || s.m.timedOut) && Batch(hash, s.m, lines) != []
    requires s.m.synchronized ==> Newer(s.m, LastOf(Batch(hash, s.m, lines)))
    requires !HandsOver(s.m, LastOf(Batch(hash, s.m, lines)))
    ensures StreamLeads(AfterPoll(hash, s, lines, arrivals))
  {
    var last := Batch(hash, s.m, lines)[|Batch(hash, s.m, lines)| - 1];
    PartsOfInv(t0, s, h);
    PartsOfAnswer(t0, s, n, since, lines, arrivals);
    LastOfBatchPolled(hash, s.m, lines);
    LeadingAnswer(t0, s, h, n, since, lines);
    hide InvAt, Batch, Poll, Parse, Distinct, Coherent, Allowed, AfterPoll, CameIn, PlaceAfter, Newest, InOrder,
         Answers, QueueIsLive, RecordedUpTo, Brought;
    PollMovesOn(hash, t0, s, h, n, since, lines, arrivals);
    PollOnlyRecords(hash, t0, s, h, n, since, lines, arrivals);
    ArrivedAre(hash, t0, s, h, n, since, lines, arrivals);
    AfterPollIs(hash, s, lines, arrivals);
    var (m', s') := (Poll(hash, s.m.(arrivals := arrivals), lines), AfterPoll(hash, s, lines, arrivals));
    FirstQueuedIsNewest(s, Parse(CameIn(arrivals, m'.arrivals)), last, m', s'.delivered);
    hide StreamLeads;
    StillLeads(s, m', s');
  }

  lemma LeadingSwitch(hash: Event -> string, t0: int, s: Sys, h: int, n: nat, since: int, lines: seq<Line>,
                      arrivals: seq<seq<Line>>)
    requires InvAt(t0, s, h) && StreamLeads(s) && Allowed(t0, s, Answer(n, since, lines, arrivals))
    requires n <= s.delivered && (!s.m.synchronized || s.m.timedOut) && Batch(hash, s.m, lines) != []
    requires HandsOver(s.m, LastOf(Batch(hash, s.m, lines)))
    ensures StreamLeads(AfterPoll(hash, s, lines, arrivals))
  {
    PartsOfInv(t0, s, h);
    PartsOfAnswer(t0, s, n, since, lines, arrivals);
    LeadingAnswer(t0, s, h, n, since, lines);
    LaterThanQueued(s.m, Batch(hash, s.m, lines));
    var s' := AfterPoll(hash, s, lines, arrivals);
    PollMovesOn(hash, t0, s, h, n, since, lines, arrivals);
    var more := PollSwitches(hash, t0, s, h, n, since, lines, arrivals);
    hide InvAt, Batch, Poll, Parse, InOrder, Distinct, Coherent, AfterPoll, Allowed, Newest, QueueIsLive, RecordedUpTo,
         CameIn, LeftToStream, Brought, Answers;
    forall e | e in s'.m.ledger.recorded ensures e in s.log[..s'.delivered] {
      if e in s.m.queue + more {
        QueueAndMoreWanted(t0, s, more, s'.delivered, e);
      }
    }
    hide StreamLeads;
    StillLeads(s, s'.m, s');
  }

  lemma LeadingSilence(hash: Event -> string, t0: int, s: Sys, h: int, n: nat, since: int, lines: seq<Line>,
                       arrivals: seq<seq<Line>>)
    requires InvAt(t0, s, h) && StreamLeads(s) && Allowed(t0, s, Answer(n, since, lines, arrivals))
    requires s.m.synchronized && s.m.timedOut && Batch(hash, s.m, lines) != []
    requires s.m.lastTs.Some? && !Newer(s.m, LastOf(Batch(hash, s.m, lines)))
    requires LevelUntil(arrivals, |Batch(hash, s.m, lines)| - 1, s.m.lastTs.value)
    requires forall e :: e in Batch(hash, s.m, lines) ==> e in s.log[..s.delivered]
    ensures StreamLeads(AfterPoll(hash, s, lines, arrivals))
  {
    hide *;
    PartsOfInv(t0, s, h);
    var h' := FoundAgainKeepsInv(hash, t0, s, h, n, since, lines, arrivals);
    var s' := AfterPoll(hash, s, lines, arrivals);
    PartsOfInv(t0, s', h');
    RecordedBefore(t0, s', h');
    StillLeads(s', s'.m, s');
  }

  lemma RecordedBefore(t0: int, s: Sys, h: int)
    requires RecordedUpTo(t0, s, h) && h <= s.delivered <= |s.log|
    ensures forall e :: e in s.m.ledger.recorded ==> e in s.log[..s.delivered]
  {
    assert s.log[..h] <= s.log[..s.delivered];
  }

  lemma LeadingLineFollowed(s: Sys, e: Event, s': Sys)
    requires StreamLeads(s) && s.delivered < |s.log| && e == s.log[s.delivered] && s'.m.queue == []
    requires s'.log == s.log && s'.delivered == s.delivered + 1
    requires s'.m.ledger.recorded == s.m.ledger.recorded + [e]
    ensures StreamLeads(s')
  {
    assert s.log[..s.delivered + 1] == s.log[..s.delivered] + [e];
  }

  lemma LeadingLineQueued(s: Sys, e: Event, s': Sys)
    requires InOrder(s.log) && Coherent(s.m) && StreamLeads(s) && s.delivered < |s.log| && e == s.log[s.delivered]
    requires s'.log == s.log && s'.delivered == s.delivered + 1 && s'.m == s.m.(queue := s.m.queue + [e])
    ensures StreamLeads(s')
  {
    assert s.log[..s.delivered + 1] == s.log[..s.delivered] + [e];
    if s.m.lastTs.Some? {
      var last := s.m.ledger.recorded[|s.m.ledger.recorded| - 1];
      assert last in s.m.ledger.recorded;
      var i :| 0 <= i < s.delivered && s.log[i] == last;
      assert s.log[i].ts <= s.log[s.delivered].ts;
    }
  }

  lemma LeadingLine(hash: Event -> string, t0: int, s: Sys, h: int, line: Line)
    requires InvAt(t0, s, h) && StreamLeads(s) && Allowed(t0, s, Stream(line))
    ensures StreamLeads(Next(hash, s, Stream(line)))
  {
    OneLine(s.log, s.delivered, line);
    PartsOfInv(t0, s, h);
    hide InvAt, InOrder, Coherent, Distinct, QueueIsLive, RecordedUpTo, Parse, PlaceAfter;
    match line
    case Good(e) =>
      if s.m.synchronized {
        FollowOnlyRecords(s.m, e);
        LeadingLineFollowed(s, e, Next(hash, s, Stream(line)));
      } else {
        LeadingLineQueued(s, e, Next(hash, s, Stream(line)));
      }
    case Restarted(at) =>
      assert s.log[..s.delivered] <= s.log[..at];
    case _ =>
  }

  // A poll that has no more than the stream has brought is timely, and leaves the stream in the lead.
  lemma LeadingStreamIsTimely(hash: Event -> string, t0: int, s: Sys, step: Step)
    requires Inv(t0, s) && StreamLeads(s) && Allowed(t0, s, step) && Led(hash, s, step)
    ensures Enabled(hash, t0, s, step) && StreamLeads(Next(hash, s, step))
  {
    var h :| InvAt(t0, s, h);
    hide InvAt, Batch, AfterPoll, Timely, LevelUntil, Brings, Parse;
    match step
    case Appear(e) =>
      assert 0 <= s.delivered <= |s.log| && (s.log + [e])[..s.delivered] == s.log[..s.delivered];
    case Stream(line) =>
      LeadingLine(hash, t0, s, h, line);
    case Answer(n, since, lines, arrivals) =>
      LeadingAnswerIsTimely(hash, t0, s, h, n, since, lines, arrivals);
      LedAnswerLeads(hash, t0, s, h, n, since, lines, arrivals);
    case Silence =>
  }

  lemma LedAnswerLeads(hash: Event -> string, t0: int, s: Sys, h: int, n: nat, since: int, lines: seq<Line>,
                       arrivals: seq<seq<Line>>)
    requires InvAt(t0, s, h) && StreamLeads(s) && Allowed(t0, s, Answer(n, since, lines, arrivals))
    requires Led(hash, s, Answer(n, since, lines, arrivals))
    ensures StreamLeads(AfterPoll(hash, s, lines, arrivals))
  {
    LeadingAnswerIsTimely(hash, t0, s, h, n, since, lines, arrivals);
    hide InvAt, Batch, AfterPoll, Timely, LevelUntil, StreamLeads, Allowed;
    if (s.m.synchronized && !s.m.timedOut) || Batch(hash, s.m, lines) == [] {
      StaleKeeps(hash, t0, s, h, lines, arrivals);
    } else if s.m.synchronized && !Newer(s.m, LastOf(Batch(hash, s.m, lines))) {
      LeadingSilence(hash, t0, s, h, n, since, lines, arrivals);
    } else if HandsOver(s.m, LastOf(Batch(hash, s.m, lines))) {
      LeadingSwitch(hash, t0, s, h, n, since, lines, arrivals);
    } else {
      LeadingPollOnly(hash, t0, s, h, n, since, lines, arrivals);
    }
  }

  // A run of whatever server and network may do, in which every poll is led by the stream.
  ghost predicate IsLedRun(hash: Event -> string, t0: int, states: seq<Sys>, steps: seq<Step>) {
    && IsAllowedRun(hash, t0, states, steps)
    && forall i :: 0 <= i < |steps| ==> Led(hash, states[i], steps[i])
  }

  lemma StepOfLedRun(hash: Event -> string, t0: int, states: seq<Sys>, steps: seq<Step>, i: nat)
    requires IsLedRun(hash, t0, states, steps) && i < |steps|
    ensures |states| == |steps| + 1 && Allowed(t0, states[i], steps[i]) && Led(hash, states[i], steps[i])
    ensures states[i + 1] == Next(hash, states[i], steps[i])
  {
    hide Allowed, Led, Next;
  }

  lemma LedAtFirst(t0: int, s: Sys)
    requires Init(s)
    ensures Inv(t0, s) && StreamLeads(s)
  {
    InitInv(t0, s);
  }

  lemma {:induction false} LedRunStaysLed(hash: Event -> string, t0: int, states: seq<Sys>, steps: seq<Step>, k: nat)
    requires IsLedRun(hash, t0, states, steps) && k < |states|
    ensures |states| == |steps| + 1 && Inv(t0, states[k]) && StreamLeads(states[k])
    ensures k < |steps| ==> Enabled(hash, t0, states[k], steps[k])
  {
    hide Inv, StreamLeads, Enabled, Allowed, Led, Next, Init;
    if k == 0 {
      LedAtFirst(t0, states[0]);
    } else {
      LedRunStaysLed(hash, t0, states, steps, k - 1);
      StepOfLedRun(hash, t0, states, steps, k - 1);
      LeadingStreamIsTimely(hash, t0, states[k - 1], steps[k - 1]);
      StepKeepsInv(hash, t0, states[k - 1], steps[k - 1]);
    }
    if k < |steps| {
      StepOfLedRun(hash, t0, states, steps, k);
      LeadingStreamIsTimely(hash, t0, states[k], steps[k]);
    }
  }

  // Over every run in which each poll has no more of the log than the stream has got to, what is recorded is
  // in time order, has no event twice, and is exactly what a followed stream has got to, but for events that
  // a switch passed over after the stream had skipped them; with clean connections there are none.
  lemma LedRunIsExact(hash: Event -> string, t0: int, states: seq<Sys>, steps: seq<Step>, k: nat)
    requires IsLedRun(hash, t0, states, steps) && k < |states|
    ensures IsRun(hash, t0, states, steps) && Exact(t0, states[k])
    ensures (forall i :: 0 <= i < |steps| && i < |states| ==> Clean(states[i], steps[i])) ==> states[k].lost == {}
  {
    hide Inv, StreamLeads, Enabled, Allowed, Led, Next, Init, Exact, Clean, Gapless;
    forall i | 0 <= i < |steps| ensures Enabled(hash, t0, states[i], steps[i]) {
      LedRunStaysLed(hash, t0, states, steps, i);
    }
    EveryRunIsExact(hash, t0, states, steps, k);
    if forall i :: 0 <= i < |steps| && i < |states| ==> Clean(states[i], steps[i]) {
      CleanRunLosesNothing(hash, t0, states, steps, k);
      GaplessLost(states[k]);
    }
  }

  // ---- What a switch leaves out ----

  // The events that come in during a poll.
  function CameDuring(hash: Event -> string, s: Sys, lines: seq<Line>, arrivals: seq<seq<Line>>): seq<Event> {
    Parse(CameIn(arrivals, Poll(hash, s.m.(arrivals := arrivals), lines).arrivals))
  }

  lemma MissedIsNotRecorded(t0: int, s: Sys, polled: seq<Event>, more: seq<Event>, s': Sys, e: Event)
    requires QueueIsLive(t0, s) && Coherent(s.m) && Switches(s, polled, more, s') && Newest(s.m, s.m.queue[0].ts)
    requires Missed(s, s'.delivered, more, e) && e.ts > s.m.queue[0].ts
    ensures e !in s'.m.ledger.recorded
  {
    hide InOrder, Distinct, Brought, LeftToStream;
  }

  lemma LeftOutIsMissed(t0: int, s: Sys, polled: seq<Event>, more: seq<Event>, s': Sys, e: Event)
    requires QueueIsLive(t0, s) && Switches(s, polled, more, s')
    requires e in s'.lost && e !in s.lost
    ensures Missed(s, s'.delivered, more, e) && e.ts > s.m.queue[0].ts
  {
    hide InOrder, Distinct, Brought, Newest;
  }

  lemma WantedIsRecordedOrLost(t0: int, s: Sys, n: nat, polled: seq<Event>, last: Event, more: seq<Event>, s': Sys,
                               e: Event)
    requires InOrder(s.log) && QueueIsLive(t0, s) && Switches(s, polled, more, s') && Covers(t0, s, n, polled)
    requires last in polled && last.ts > s.m.queue[0].ts && 0 <= s'.delivered <= |s.log|
    requires e in s.log[..s'.delivered] && e.ts >= t0
    ensures e in s'.m.ledger.recorded || e in s'.lost
  {
    var i :| 0 <= i < s'.delivered && s.log[i] == e;
    hide InOrder, QueueIsLive, Switches, Covers;
    SwitchMissesNothing(t0, s, n, polled, last, more, s', i);
  }

  lemma LeftOutExactly(t0: int, s: Sys, n: nat, polled: seq<Event>, last: Event, more: seq<Event>, s': Sys, e: Event)
    requires InOrder(s.log) && QueueIsLive(t0, s) && Coherent(s.m) && Switches(s, polled, more, s')
    requires Covers(t0, s, n, polled) && last in polled && last.ts > s.m.queue[0].ts && Newest(s.m, s.m.queue[0].ts)
    requires 0 <= s'.delivered <= |s.log| && e in s.log[..s'.delivered] && e.ts >= t0 && e !in s.lost
    ensures e !in s'.m.ledger.recorded <==> Missed(s, s'.delivered, more, e) && e.ts > s.m.queue[0].ts
  {
    assert s.m.queue != [];
    hide InOrder, QueueIsLive, Coherent, Switches, Covers, Missed, Newest;
    WantedIsRecordedOrLost(t0, s, n, polled, last, more, s', e);
    if e !in s'.m.ledger.recorded {
      LeftOutIsMissed(t0, s, polled, more, s', e);
    } else if Missed(s, s'.delivered, more, e) && e.ts > s.m.queue[0].ts {
      MissedIsNotRecorded(t0, s, polled, more, s', e);
    }
  }

  lemma SwitchLeavesOutAt(hash: Event -> string, t0: int, s: Sys, h: int, n: nat, since: int, lines: seq<Line>,
                          arrivals: seq<seq<Line>>)
    requires InvAt(t0, s, h) && Allowed(t0, s, Answer(n, since, lines, arrivals))
    requires (!s.m.synchronized || s.m.timedOut) && Batch(hash, s.m, lines) != []
    requires HandsOver(s.m, LastOf(Batch(hash, s.m, lines))) && Newest(s.m, s.m.queue[0].ts)
    ensures
      var (s', more) := (AfterPoll(hash, s, lines, arrivals), CameDuring(hash, s, lines, arrivals));
      && s.delivered <= s'.delivered <= |s.log| && 0 <= s'.delivered
      && forall e :: e in s.log[..s'.delivered] && e.ts >= t0 && e !in s.lost ==>
           (e !in s'.m.ledger.recorded <==> Missed(s, s'.delivered, more, e) && e.ts > s.m.queue[0].ts)
  {
    hide *;
    PartsOfInv(t0, s, h);
    PartsOfAnswer(t0, s, n, since, lines, arrivals);
    var s' := AfterPoll(hash, s, lines, arrivals);
    var last := Batch(hash, s.m, lines)[|Batch(hash, s.m, lines)| - 1];
    var more := CameDuring(hash, s, lines, arrivals);
    LaterThanQueued(s.m, Batch(hash, s.m, lines));
    var came := PollSwitches(hash, t0, s, h, n, since, lines, arrivals);
    CameDuringIs(hash, s, lines, arrivals);
    LastOfBatchPolled(hash, s.m, lines);
    AnswerHolds(t0, s, h, n, since, lines);
    SwitchBounds(t0, s, h, n, Parse(lines), more, s');
    AllLeftOutExactly(t0, s, n, Parse(lines), last, more, s');
  }

  lemma AllLeftOutExactly(t0: int, s: Sys, n: nat, polled: seq<Event>, last: Event, more: seq<Event>, s': Sys)
    requires InOrder(s.log) && QueueIsLive(t0, s) && Coherent(s.m) && s.m.queue != [] && Switches(s, polled, more, s')
    requires Covers(t0, s, n, polled) && last in polled && last.ts > s.m.queue[0].ts && Newest(s.m, s.m.queue[0].ts)
    requires 0 <= s'.delivered <= |s.log|
    ensures forall e :: e in s.log[..s'.delivered] && e.ts >= t0 && e !in s.lost ==>
              (e !in s'.m.ledger.recorded <==> Missed(s, s'.delivered, more, e) && e.ts > s.m.queue[0].ts)
  {
    hide *;
    forall e | e in s.log[..s'.delivered] && e.ts >= t0 && e !in s.lost
      ensures e !in s'.m.ledger.recorded <==> Missed(s, s'.delivered, more, e) && e.ts > s.m.queue[0].ts
    {
      LeftOutExactly(t0, s, n, polled, last, more, s', e);
    }
  }

  // A switch that finds no older line queued leaves out a wanted event, not lost before, if and only if the
  // stream has missed it since lines have been queued and it is later than the first queued second.
  lemma SwitchLeavesOutExactly(hash: Event -> string, t0: int, s: Sys, n: nat, since: int, lines: seq<Line>,
                               arrivals: seq<seq<Line>>)
    requires Inv(t0, s) && Allowed(t0, s, Answer(n, since, lines, arrivals))
    requires (!s.m.synchronized || s.m.timedOut) && Batch(hash, s.m, lines) != []
    requires HandsOver(s.m, LastOf(Batch(hash, s.m, lines))) && Newest(s.m, s.m.queue[0].ts)
    ensures
      var (s', more) := (AfterPoll(hash, s, lines, arrivals), CameDuring(hash, s, lines, arrivals));
      && s.delivered <= s'.delivered <= |s.log| && 0 <= s'.delivered
      && forall e :: e in s.log[..s'.delivered] && e.ts >= t0 && e !in s.lost ==>
           (e !in s'.m.ledger.recorded <==> Missed(s, s'.delivered, more, e) && e.ts > s.m.queue[0].ts)
  {
    var h :| InvAt(t0, s, h);
    hide *;
    SwitchLeavesOutAt(hash, t0, s, h, n, since, lines, arrivals);
  }

  lemma CameDuringIs(hash: Event -> string, s: Sys, lines: seq<Line>, arrivals: seq<seq<Line>>)
    ensures CameDuring(hash, s, lines, arrivals)
         == Parse(CameIn(arrivals, Poll(hash, s.m.(arrivals := arrivals), lines).arrivals))
  {
  }

  // Such a switch completes the record, but for what was lost before, if and only if nothing that the stream
  // has missed since lines have been queued is later than the first queued second.
  lemma SwitchLosesNothingExactly(hash: Event -> string, t0: int, s: Sys, n: nat, since: int, lines: seq<Line>,
                                  arrivals: seq<seq<Line>>)
    requires Inv(t0, s) && Allowed(t0, s, Answer(n, since, lines, arrivals))
    requires (!s.m.synchronized || s.m.timedOut) && Batch(hash, s.m, lines) != []
    requires HandsOver(s.m, LastOf(Batch(hash, s.m, lines))) && Newest(s.m, s.m.queue[0].ts)
    ensures
      var (s', more) := (AfterPoll(hash, s, lines, arrivals), CameDuring(hash, s, lines, arrivals));
      && 0 <= s'.delivered <= |s.log|
      && ((forall e :: e in s.log[..s'.delivered] && e.ts >= t0 && e !in s.lost ==> e in s'.m.ledger.recorded)
          <==> (forall e :: Missed(s, s'.delivered, more, e) && e !in s.lost ==> e.ts <= s.m.queue[0].ts))
  {
    SwitchLeavesOutExactly(hash, t0, s, n, since, lines, arrivals);
    var h :| InvAt(t0, s, h);
    hide *;
    PartsOfInv(t0, s, h);
    LaterThanQueued(s.m, Batch(hash, s.m, lines));
    var (s', more) := (AfterPoll(hash, s, lines, arrivals), CameDuring(hash, s, lines, arrivals));
    forall e | Missed(s, s'.delivered, more, e) ensures e in s.log[..s'.delivered] && e.ts >= t0 {
      MissedIsWanted(t0, s, s'.delivered, more, e);
    }
  }

  lemma MissedIsWanted(t0: int, s: Sys, d: int, more: seq<Event>, e: Event)
    requires QueueIsLive(t0, s) && Missed(s, d, more, e)
    ensures e in s.log[..d] && e.ts >= t0
  {
    var i :| s.first <= i < d && s.log[i] == e;
    assert s.log[..d][i] == e;
  }

  // ---- Catching up ----

  lemma NewerThanLastSecond(m: Merge, ts: int, e: Event)
    requires Coherent(m) && Newest(m, ts) && e.ts > ts
    ensures Fresh(m, e)
  {
  }

  // An answer that goes past the second of the first queued line leaves something to hand on.
  lemma CaughtUpHandsOver(hash: Event -> string, t0: int, s: Sys, h: int, n: nat, since: int, lines: seq<Line>)
    requires InvAt(t0, s, h) && Answers(t0, s, n, since, lines)
    requires s.m.queue != [] && Newest(s.m, s.m.queue[0].ts)
    requires n > 0 && s.log[n - 1].ts > s.m.queue[0].ts >= t0
    ensures Batch(hash, s.m, lines) != [] && HandsOver(s.m, LastOf(Batch(hash, s.m, lines)))
  {
    var e := s.log[n - 1];
    assert s.log[..n][n - 1] == e;
    assert since <= e.ts;
    hide Batch, Parse, Distinct, Coherent, InOrder, RecordedUpTo, QueueIsLive;
    BatchMeans(hash, s.m, lines);
    NewerThanLastSecond(s.m, s.m.queue[0].ts, e);
    LastIsNoOlder(Batch(hash, s.m, lines), e);
  }

  lemma FirstQueuedIsWanted(t0: int, s: Sys)
    requires QueueIsLive(t0, s) && s.m.queue != []
    ensures s.m.queue[0].ts >= t0
  {
    hide InOrder, Distinct;
    assert s.m.queue[0] in s.m.queue;
    var i :| s.first <= i < s.delivered && s.log[i] == s.m.queue[0];
  }

  lemma CaughtUpAt(hash: Event -> string, t0: int, s: Sys, h: int, n: nat, since: int, lines: seq<Line>,
                   arrivals: seq<seq<Line>>)
    requires InvAt(t0, s, h) && Allowed(t0, s, Answer(n, since, lines, arrivals))
    requires !s.m.synchronized && !s.m.timedOut && s.m.queue != [] && Newest(s.m, s.m.queue[0].ts)
    requires n > 0 && s.log[n - 1].ts > s.m.queue[0].ts
    ensures
      var s' := AfterPoll(hash, s, lines, arrivals);
      && Batch(hash, s.m, lines) != [] && HandsOver(s.m, LastOf(Batch(hash, s.m, lines)))
      && s'.m.synchronized && s'.m.queue == [] && s.delivered <= s'.delivered
  {
    hide *;
    PartsOfInv(t0, s, h);
    PartsOfAnswer(t0, s, n, since, lines, arrivals);
    FirstQueuedIsWanted(t0, s);
    CaughtUpHandsOver(hash, t0, s, h, n, since, lines);
    var more := PollSwitches(hash, t0, s, h, n, since, lines, arrivals);
    PollMovesOn(hash, t0, s, h, n, since, lines, arrivals);
  }

  // Catching up ends polling: the source follows the stream from then on; and the record is exact if and only
  // if the stream has by then got to what had been recorded and to what was polled up to the first queued second.
  lemma CaughtUpPollSwitches(hash: Event -> string, t0: int, s: Sys, n: nat, since: int, lines: seq<Line>,
                             arrivals: seq<seq<Line>>)
    requires Inv(t0, s) && Allowed(t0, s, Answer(n, since, lines, arrivals))
    requires !s.m.synchronized && !s.m.timedOut && s.m.queue != [] && Newest(s.m, s.m.queue[0].ts)
    requires n > 0 && s.log[n - 1].ts > s.m.queue[0].ts
    ensures
      var s' := AfterPoll(hash, s, lines, arrivals);
      && s'.m.synchronized && s'.m.queue == [] && s.delivered <= s'.delivered
      && (Exact(t0, s') <==> GotTo(s, Parse(lines), s'.delivered))
      && (StreamLeads(s) && n <= s.delivered ==> Exact(t0, s'))
  {
    var h :| InvAt(t0, s, h);
    hide InvAt, Batch, Parse, AfterPoll, Exact, Inv, StreamLeads, Allowed, Newest, GotTo;
    CaughtUpAt(hash, t0, s, h, n, since, lines, arrivals);
    TimelyExactly(hash, t0, s, n, since, lines, arrivals);
    if StreamLeads(s) && n <= s.delivered {
      LeadingAnswerIsTimely(hash, t0, s, h, n, since, lines, arrivals);
    }
  }
}
