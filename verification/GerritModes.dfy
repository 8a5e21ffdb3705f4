/** When the source follows the stream and when it takes the stream for silent: what each step does to the two
    flags, and how a source that has restarted a silent stream gets back to following it. */
module GerritModes {
  import opened Prelude
  import opened Sorting
  import opened GerritLedger
  import opened GerritMerge
  import opened GerritExactness
  import opened GerritLimits
  import opened GerritStream
  import opened GerritRuns
  import opened GerritPolls
  import opened GerritTimeliness

  // ---- What a poll brings ----

  // An event of a later second than any recorded one.
  ghost predicate BringsNewer(m: Merge, polled: seq<Event>) {
    exists e :: e in polled && (m.lastTs.Some? ==> e.ts > m.lastTs.value)
  }

  // An event that has not been recorded and is not too old to be.
  ghost predicate BringsMore(m: Merge, polled: seq<Event>) { exists e :: e in polled && Fresh(m, e) }

  // One that is later than the second of the first queued line.
  ghost predicate CatchesUp(m: Merge, polled: seq<Event>) {
    m.queue != [] && exists e :: e in polled && Fresh(m, e) && e.ts > m.queue[0].ts
  }

  lemma BatchTells(hash: Event -> string, m: Merge, lines: seq<Line>)
    requires Coherent(m) && Distinct(Parse(lines))
    ensures
      var events := Batch(hash, m, lines);
      && (events != [] <==> BringsMore(m, Parse(lines)))
      && (events != [] && Newer(m, LastOf(events)) <==> BringsNewer(m, Parse(lines)))
      && (events != [] && HandsOver(m, LastOf(events)) <==> CatchesUp(m, Parse(lines)))
  {
    var events := Batch(hash, m, lines);
    BatchMeans(hash, m, lines);
    assert events != [] ==> events[|events| - 1] in events;
    forall e | e in Parse(lines) && (m.lastTs.Some? ==> e.ts > m.lastTs.value) ensures Fresh(m, e) {
      NewerIsFresh(m, e);
    }
    hide Batch, Parse, Coherent, Distinct, Fresh;
    forall e | e in events ensures events != [] && LastOf(events) >= e.ts {
      LastIsNoOlder(events, e);
    }
    hide InOrder;
    assert forall e :: e in Parse(lines) && Fresh(m, e) ==> e in events;
  }

  lemma NewerIsFresh(m: Merge, e: Event)
    requires Coherent(m) && (m.lastTs.Some? ==> e.ts > m.lastTs.value)
    ensures Fresh(m, e)
  {
  }

  // ---- The flags during a poll ----

  lemma UnfollowedYieldKeepsFlags(m: Merge, e: Event)
    requires !m.synchronized
    ensures !Yield(Emit(m, e)).synchronized && Yield(Emit(m, e)).timedOut == m.timedOut
  {
    EmitOnlyRecords(m, e);
    hide *;
    YieldOfUnfollowed(Emit(m, e));
  }

  lemma YieldOfUnfollowed(m: Merge)
    requires !m.synchronized
    ensures !Yield(m).synchronized && Yield(m).timedOut == m.timedOut
  {
    YieldQueues(m);
    hide Yield;
  }

  lemma {:induction false} UnfollowedBatchKeepsFlags(m: Merge, events: seq<Event>)
    requires !m.synchronized
    ensures !EmitAll(m, events).synchronized && EmitAll(m, events).timedOut == m.timedOut
  {
    hide Yield, Emit;
    if events != [] {
      var n := |events| - 1;
      UnfollowedBatchKeepsFlags(m, events[..n]);
      UnfollowedYieldKeepsFlags(EmitAll(m, events[..n]), events[n]);
    }
  }

  lemma {:induction false} UnfollowedDrainKeepsFlags(m: Merge, i: nat)
    requires !m.synchronized
    ensures !Drain(m, i).synchronized && Drain(m, i).timedOut == m.timedOut
    decreases |m.arrivals|, if i < |m.queue| then |m.queue| - i else 0
  {
    hide *;
    DrainIs(m, i);
    if i < |m.queue| {
      var e := m.queue[i];
      if m.lastTs == Some(e.ts) && e in m.lastSecond {
        UnfollowedDrainKeepsFlags(m, i + 1);
      } else {
        OneMoreTakesFromFront(m, e);
        UnfollowedYieldKeepsFlags(m, e);
        UnfollowedDrainKeepsFlags(Yield(Emit(m, e)), i + 1);
      }
    }
  }

  lemma {:induction false} FollowedLinesKeepSilence(m: Merge, lines: seq<Line>)
    requires m.synchronized
    ensures StreamLines(m, lines).timedOut <==> m.timedOut && FollowedOf(lines) == []
  {
    if lines != [] {
      var init := lines[..|lines| - 1];
      FollowedLinesKeepSilence(m, init);
      FollowedLines(m, init);
    }
  }

  lemma YieldKeepsSilence(m: Merge)
    requires m.synchronized
    ensures Yield(m).timedOut <==> m.timedOut && Arriving(m.arrivals, 0) == []
  {
    if m.arrivals != [] {
      FollowedLinesKeepSilence(m.(arrivals := m.arrivals[1..]), m.arrivals[0]);
    }
  }

  // A silent stream that is followed while a batch is handed on counts as silent until it brings an event.
  lemma {:induction false} BatchKeepsSilence(m: Merge, events: seq<Event>)
    requires m.synchronized
    ensures EmitAll(m, events).timedOut <==>
            m.timedOut && forall k: nat :: k < |events| ==> Arriving(m.arrivals, k) == []
  {
    if events != [] {
      var n := |events| - 1;
      var m1 := EmitAll(m, events[..n]);
      assert EmitAll(m, events) == Yield(Emit(m1, events[n]));
      hide EmitAll, Emit, Yield, Arriving, UnbrokenUntil, From, Woven;
      BatchKeepsSilence(m, events[..n]);
      assert Yield(Emit(m1, events[n])).timedOut <==> m1.timedOut && Arriving(m.arrivals, n) == [] by {
        OneMoreKeepsSilence(m, events, m1);
      }
    }
  }

  lemma OneMoreKeepsSilence(m: Merge, events: seq<Event>, m1: Merge)
    requires m.synchronized && events != [] && m1 == EmitAll(m, events[..|events| - 1])
    ensures
      var n := |events| - 1;
      Yield(Emit(m1, events[n])).timedOut <==> m1.timedOut && Arriving(m.arrivals, n) == []
  {
    var n := |events| - 1;
    WovenIsHandedOn(m, events[..n]);
    UnbrokenOneMore(m.arrivals, n);
    hide EmitAll, Yield, UnbrokenUntil, Woven;
    EmitOnlyRecords(m1, events[n]);
    if m1.synchronized {
      YieldKeepsSilence(Emit(m1, events[n]));
    } else {
      YieldOfUnfollowed(Emit(m1, events[n]));
      NothingArrives(m.arrivals, n);
    }
  }

  lemma SavingKeepsFlags(m: Merge)
    ensures SaveTs(m).synchronized == m.synchronized && SaveTs(m).timedOut == m.timedOut && SaveTs(m).queue == m.queue
  {
  }

  // A poll that handles a batch while no stream is followed, or restarts the stream.
  lemma UnfollowedPollFlags(hash: Event -> string, m: Merge, lines: seq<Line>)
    requires (!m.synchronized || m.timedOut) && Batch(hash, m, lines) != []
    requires !m.synchronized || Newer(m, LastOf(Batch(hash, m, lines)))
    ensures
      var (m', last) := (Poll(hash, m, lines), LastOf(Batch(hash, m, lines)));
      && (m'.timedOut <==> m.timedOut && !Newer(m, last))
      && (m'.synchronized <==> HandsOver(m, last) && !(m.timedOut && Newer(m, last)))
      && (HandsOver(m, last) ==> m'.queue == [])
  {
    var events := Batch(hash, m, lines);
    var m1 := Opened(m, LastOf(events));
    OpenedFlags(m, LastOf(events));
    hide Batch, Poll, EmitAll, UpTo, Drain, Opened;
    if HandsOver(m, LastOf(events)) {
      HandOverIs(hash, m, lines);
      var early := UpTo(events, m.queue[0].ts);
      UnfollowedBatchKeepsFlags(m1, early);
      UnfollowedDrainKeepsFlags(EmitAll(m1, early), 0);
    } else {
      PollOnlyIs(hash, m, lines);
      UnfollowedBatchKeepsFlags(m1, events);
    }
  }

  lemma OpenedFlags(m: Merge, ts: int)
    ensures
      var m1 := Opened(m, ts);
      && (m1.timedOut <==> m.timedOut && !Newer(m, ts)) && m1.queue == m.queue
      && (m1.synchronized <==> m.synchronized && !(m.timedOut && Newer(m, ts)))
  {
  }

  // A poll that brings a silent, followed stream nothing newer.
  lemma SilentPollFlags(hash: Event -> string, m: Merge, lines: seq<Line>)
    requires m.synchronized && m.timedOut && m.queue == [] && Batch(hash, m, lines) != []
    requires !Newer(m, LastOf(Batch(hash, m, lines)))
    ensures
      var (m', n) := (Poll(hash, m, lines), |Batch(hash, m, lines)|);
      && (m'.timedOut <==> forall k: nat :: k < n ==> Arriving(m.arrivals, k) == [])
      && (m'.synchronized <==> UnbrokenUntil(m.arrivals, n))
  {
    var events := Batch(hash, m, lines);
    PollOnlyIs(hash, m, lines);
    OpenedFlags(m, LastOf(events));
    assert Opened(m, LastOf(events)) == m;
    BatchKeepsSilence(m, events);
    WovenIsHandedOn(m, events);
    SavingKeepsFlags(EmitAll(m, events));
    hide Batch, Poll, EmitAll, Woven, Arriving, UnbrokenUntil, From, Opened;
  }

  // ---- The flags after each step ----

  // The poll is not thrown away: no stream is followed, or a silent one, and there is something to hand on.
  ghost predicate IsHandled(m: Merge, polled: seq<Event>) { (!m.synchronized || m.timedOut) && BringsMore(m, polled) }

  // An event comes in and is followed while the batch is handed on.
  ghost predicate IsInterrupted(hash: Event -> string, m: Merge, lines: seq<Line>, arrivals: seq<seq<Line>>) {
    m.synchronized && exists k: nat :: k < |Batch(hash, m, lines)| && Arriving(arrivals, k) != []
  }

  // The stream counts as silent from a silence on, until a followed event comes in or a poll brings a newer one.
  // A poll with a newer event gives up a silent stream; without one, the stream is followed until it is started
  // again; and a source that follows no stream, or a stream that is not silent, does so once a poll catches up.
  lemma FlagsExactly(hash: Event -> string, t0: int, s: Sys, step: Step)
    requires Inv(t0, s) && Allowed(t0, s, step)
    ensures
      Next(hash, s, step).m.timedOut <==>
        match step
        case Silence => true
        case Stream(Good(_)) => s.m.timedOut && !s.m.synchronized
        case Answer(_, _, lines, arrivals) =>
          s.m.timedOut && !BringsNewer(s.m, Parse(lines)) && !IsInterrupted(hash, s.m, lines, arrivals)
        case _ => s.m.timedOut
    ensures
      Next(hash, s, step).m.synchronized <==>
        match step
        case Stream(Restarted(_)) => false
        case Answer(_, _, lines, arrivals) =>
          if !IsHandled(s.m, Parse(lines)) then s.m.synchronized
          else if s.m.timedOut && BringsNewer(s.m, Parse(lines)) then false
          else if s.m.synchronized then UnbrokenUntil(arrivals, |Batch(hash, s.m, lines)|)
          else CatchesUp(s.m, Parse(lines))
        case _ => s.m.synchronized
  {
    var h :| InvAt(t0, s, h);
    match step
    case Answer(n, since, lines, arrivals) =>
      AnswerFlags(hash, t0, s, h, n, since, lines, arrivals);
    case Stream(line) =>
      StreamIs(hash, s, line);
      hide InvAt, Next;
    case _ =>
  }

  lemma AnswerFlags(hash: Event -> string, t0: int, s: Sys, h: int, n: nat, since: int, lines: seq<Line>,
                    arrivals: seq<seq<Line>>)
    requires InvAt(t0, s, h) && Allowed(t0, s, Answer(n, since, lines, arrivals))
    ensures
      var m' := AfterPoll(hash, s, lines, arrivals).m;
      && (m'.timedOut <==>
            s.m.timedOut && !BringsNewer(s.m, Parse(lines)) && !IsInterrupted(hash, s.m, lines, arrivals))
      && (m'.synchronized <==>
            if !IsHandled(s.m, Parse(lines)) then s.m.synchronized
            else if s.m.timedOut && BringsNewer(s.m, Parse(lines)) then false
            else if s.m.synchronized then UnbrokenUntil(arrivals, |Batch(hash, s.m, lines)|)
            else CatchesUp(s.m, Parse(lines)))
      && (CatchesUp(s.m, Parse(lines)) ==> m'.queue == [])
  {
    PartsOfInv(t0, s, h);
    PartsOfAnswer(t0, s, n, since, lines, arrivals);
    BatchTells(hash, s.m, lines);
    hide InvAt, Allowed, BringsMore, BringsNewer, CatchesUp, Coherent, InOrder, Distinct, Parse, Batch, AfterPoll, Poll;
    hide Arriving, UnbrokenUntil, QueueIsLive, RecordedUpTo, Answers, Brings;
    var m := s.m.(arrivals := arrivals);
    AfterPollIs(hash, s, lines, arrivals);
    SameBatch(hash, s.m, m, lines);
    if (s.m.synchronized && !s.m.timedOut) || Batch(hash, s.m, lines) == [] {
      StaleKeeps(hash, t0, s, h, lines, arrivals);
    } else {
      SameQuestions(s.m, m, LastOf(Batch(hash, s.m, lines)));
      if s.m.synchronized && !Newer(s.m, LastOf(Batch(hash, s.m, lines))) {
        SilentPollFlags(hash, m, lines);
      } else {
        UnfollowedPollFlags(hash, m, lines);
      }
    }
  }

  // ---- Recovery ----

  // A poll that finds the stream silent and brings a newer event gives the stream up and forgets the silence.
  lemma RestartForgetsSilence(hash: Event -> string, t0: int, s: Sys, step: Step)
    requires Inv(t0, s) && Allowed(t0, s, step) && step.Answer?
    requires s.m.timedOut && BringsNewer(s.m, Parse(step.lines))
    ensures !Next(hash, s, step).m.synchronized && !Next(hash, s, step).m.timedOut
  {
    FlagsExactly(hash, t0, s, step);
    NewerIsMore(t0, s, Parse(step.lines));
    hide Next, Inv, BringsNewer, BringsMore;
  }

  lemma NewerIsMore(t0: int, s: Sys, polled: seq<Event>)
    requires Inv(t0, s) && BringsNewer(s.m, polled)
    ensures BringsMore(s.m, polled)
  {
    var h :| InvAt(t0, s, h);
    var e :| e in polled && (s.m.lastTs.Some? ==> e.ts > s.m.lastTs.value);
    PartsOfInv(t0, s, h);
    NewerIsFresh(s.m, e);
  }

  lemma {:induction false} OnlySilenceTimesOut(hash: Event -> string, t0: int, states: seq<Sys>, steps: seq<Step>,
                                               i: nat, k: nat)
    requires IsRun(hash, t0, states, steps) && i <= k < |states| && !states[i].m.timedOut
    requires forall j :: i <= j < k && j < |steps| ==> !steps[j].Silence?
    ensures !states[k].m.timedOut
  {
    hide Next, Inv, Enabled, IsAllowedRun;
    if i < k {
      OnlySilenceTimesOut(hash, t0, states, steps, i, k - 1);
      RunInv(hash, t0, states, steps, k - 1);
      StepOfRun(hash, t0, states, steps, k - 1);
      SilenceStaysAway(hash, t0, states[k - 1], steps[k - 1]);
    }
  }

  lemma SilenceStaysAway(hash: Event -> string, t0: int, s: Sys, step: Step)
    requires Inv(t0, s) && Enabled(hash, t0, s, step) && !s.m.timedOut && !step.Silence?
    ensures !Next(hash, s, step).m.timedOut
  {
    hide Timely;
    FlagsExactly(hash, t0, s, step);
    hide *;
  }

  // Over every run: after a silent stream has been given up, and as long as it is not silent again, the next poll
  // that catches up with the queue makes the source follow the stream.
  lemma RecoversFromSilence(hash: Event -> string, t0: int, states: seq<Sys>, steps: seq<Step>, i: nat, k: nat)
    requires IsRun(hash, t0, states, steps) && i < k < |steps| && k < |states|
    requires steps[i].Answer? && states[i].m.timedOut && BringsNewer(states[i].m, Parse(steps[i].lines))
    requires forall j :: i < j < k ==> !steps[j].Silence?
    requires steps[k].Answer? && !states[k].m.synchronized && CatchesUp(states[k].m, Parse(steps[k].lines))
    ensures |states| == |steps| + 1
    ensures !states[i + 1].m.synchronized && !states[i + 1].m.timedOut
    ensures states[k + 1].m.synchronized && !states[k + 1].m.timedOut && states[k + 1].m.queue == []
    ensures Exact(t0, states[k + 1])
  {
    hide *;
    RunInv(hash, t0, states, steps, i);
    StepOfRun(hash, t0, states, steps, i);
    EnabledIsAllowed(hash, t0, states[i], steps[i]);
    RestartForgetsSilence(hash, t0, states[i], steps[i]);
    OnlySilenceTimesOut(hash, t0, states, steps, i + 1, k);
    RunInv(hash, t0, states, steps, k);
    StepOfRun(hash, t0, states, steps, k);
    EnabledIsAllowed(hash, t0, states[k], steps[k]);
    CatchingUpFollows(hash, t0, states[k], steps[k]);
    EveryRunIsExact(hash, t0, states, steps, k + 1);
  }

  lemma EnabledIsAllowed(hash: Event -> string, t0: int, s: Sys, step: Step)
    requires Enabled(hash, t0, s, step)
    ensures Allowed(t0, s, step)
  {
    hide Allowed, Timely;
  }

  lemma CatchingUpFollows(hash: Event -> string, t0: int, s: Sys, step: Step)
    requires Inv(t0, s) && Allowed(t0, s, step) && step.Answer?
    requires !s.m.timedOut && !s.m.synchronized && CatchesUp(s.m, Parse(step.lines))
    ensures
      var m' := Next(hash, s, step).m;
      m'.synchronized && !m'.timedOut && m'.queue == []
  {
    var h :| InvAt(t0, s, h);
    AnswerIs(hash, s, step);
    hide InvAt, Allowed, Next, AfterPoll, Parse, Fresh, BringsNewer, Batch;
    AnswerFlags(hash, t0, s, h, step.n, step.since, step.lines, step.arrivals);
  }
}
