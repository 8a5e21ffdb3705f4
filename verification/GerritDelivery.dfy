/** Over whole runs every recorded event is handed on once; and when the order of handing on is that of time. */
module GerritDelivery {
  import opened Prelude
  import opened Sorting
  import opened GerritLedger
  import opened GerritMerge
  import opened GerritExactness
  import opened GerritRuns
  import opened GerritTimeliness

  // ---- The ledger of the source only ever takes the steps of GerritLedger ----

  lemma LineKeepsLedger(m: Merge, line: Line)
    ensures BecomesLater(m.ledger, StreamLine(m, line).ledger)
  {
    StaysAsIs(m.ledger);
    match line
    case Good(e) => OneMore(m.ledger, m.ledger, Followed(e));
    case WriteDone(i) => OneMore(m.ledger, m.ledger, Written(i));
    case _ =>
  }

  lemma {:induction false} LinesKeepLedger(m: Merge, lines: seq<Line>)
    ensures BecomesLater(m.ledger, StreamLines(m, lines).ledger)
  {
    if lines == [] {
      StaysAsIs(m.ledger);
    } else {
      hide BecomesLater, StreamLine;
      var init := StreamLines(m, lines[..|lines| - 1]);
      LinesKeepLedger(m, lines[..|lines| - 1]);
      LineKeepsLedger(init, lines[|lines| - 1]);
      LaterStill(m.ledger, init.ledger, StreamLines(m, lines).ledger);
    }
  }

  lemma EmitAndYieldKeepLedger(m: Merge, e: Event)
    ensures BecomesLater(m.ledger, Yield(Emit(m, e)).ledger)
  {
    hide BecomesLater;
    var m1 := Emit(m, e);
    StaysAsIs(m.ledger);
    OneMore(m.ledger, m.ledger, Polled(e));
    if m1.arrivals != [] {
      LinesKeepLedger(m1.(arrivals := m1.arrivals[1..]), m1.arrivals[0]);
      LaterStill(m.ledger, m1.ledger, Yield(m1).ledger);
    }
  }

  lemma {:induction false} EmitAllKeepsLedger(m: Merge, events: seq<Event>)
    ensures BecomesLater(m.ledger, EmitAll(m, events).ledger)
  {
    if events == [] {
      StaysAsIs(m.ledger);
    } else {
      hide BecomesLater, Yield, Emit;
      var init := EmitAll(m, events[..|events| - 1]);
      EmitAllKeepsLedger(m, events[..|events| - 1]);
      EmitAndYieldKeepLedger(init, events[|events| - 1]);
      LaterStill(m.ledger, init.ledger, EmitAll(m, events).ledger);
    }
  }

  lemma {:induction false} DrainKeepsLedger(m: Merge, i: nat)
    ensures BecomesLater(m.ledger, Drain(m, i).ledger)
    decreases |m.arrivals|, if i < |m.queue| then |m.queue| - i else 0
  {
    if i >= |m.queue| {
      StaysAsIs(m.ledger);
    } else {
      hide BecomesLater, Yield;
      var e := m.queue[i];
      if m.lastTs == Some(e.ts) && e in m.lastSecond {
        DrainKeepsLedger(m, i + 1);
      } else {
        var m1 := Yield(Emit(m, e));
        YieldConsumes(Emit(m, e));
        EmitAndYieldKeepLedger(m, e);
        if m.arrivals == [] {
          assert m1 == Emit(m, e) && m1.queue == m.queue;
        }
        DrainKeepsLedger(m1, i + 1);
        LaterStill(m.ledger, m1.ledger, Drain(m1, i + 1).ledger);
      }
    }
  }

  lemma BatchKeepsLedger(m: Merge, events: seq<Event>)
    requires events != []
    ensures BecomesLater(m.ledger, TakeBatch(m, events).ledger)
  {
    hide BecomesLater, EmitAll, Drain, UpTo;
    var m1 := Opened(m, events[|events| - 1].ts);
    var early := if HandsOver(m1, events[|events| - 1].ts) then UpTo(events, m1.queue[0].ts) else events;
    EmitAllKeepsLedger(m1, early);
    var m2 := EmitAll(m1, early);
    OneMore(m.ledger, m2.ledger, Saves(m2.lastTs));
    DrainKeepsLedger(m2, 0);
    var m3 := Drain(m2, 0);
    LaterStill(m.ledger, m2.ledger, m3.ledger);
    OneMore(m.ledger, m3.ledger, Saves(m3.lastTs));
  }

  lemma StepKeepsLedger(hash: Event -> string, s: Sys, step: Step)
    ensures BecomesLater(s.m.ledger, Next(hash, s, step).m.ledger)
  {
    hide BecomesLater, Batch, TakeBatch;
    StaysAsIs(s.m.ledger);
    match step
    case Stream(line) => LineKeepsLedger(s.m, line);
    case Answer(_, _, lines, arrivals) =>
      var m := s.m.(arrivals := arrivals);
      if Batch(hash, m, lines) != [] {
        BatchKeepsLedger(m, Batch(hash, m, lines));
      }
    case _ =>
  }

  lemma {:induction false} RunKeepsLedger(hash: Event -> string, t0: int, states: seq<Sys>, steps: seq<Step>, k: nat)
    requires IsAllowedRun(hash, t0, states, steps) && k < |states|
    ensures BecomesLater(EMPTY, states[k].m.ledger)
  {
    hide BecomesLater, Allowed, Next;
    if k == 0 {
      StaysAsIs(EMPTY);
    } else {
      RunKeepsLedger(hash, t0, states, steps, k - 1);
      StepKeepsLedger(hash, states[k - 1], steps[k - 1]);
      LaterStill(EMPTY, states[k - 1].m.ledger, states[k].m.ledger);
    }
  }

  // Over every run of whatever server and network may do, what has been handed on and what waits for its
  // timestamp to be written is exactly what has been recorded, each event counted once. There is a history hs
  // of the ledger such that, while the record is exact, nothing has been handed on twice and, once nothing
  // waits, everything in time order if and only if hs never hands an event on while one of an earlier second
  // waits.
  lemma EveryRunHandsOnOnce(hash: Event -> string, t0: int, states: seq<Sys>, steps: seq<Step>, k: nat)
    returns (hs: seq<Happening>)
    requires IsAllowedRun(hash, t0, states, steps) && k < |states|
    ensures
      var l := states[k].m.ledger;
      && l == Run(EMPTY, hs) && multiset(l.recorded) == multiset(l.handed) + multiset(l.pending)
      && (Exact(t0, states[k]) ==> Distinct(l.handed))
      && (Exact(t0, states[k]) && l.pending == [] ==>
            (InOrder(l.handed) <==> forall i :: 0 <= i < |hs| ==> !Overtakes(Run(EMPTY, hs[..i]), hs[i])))
  {
    RunKeepsLedger(hash, t0, states, steps, k);
    hs :| Run(EMPTY, hs) == states[k].m.ledger;
    hide IsAllowedRun, Run, Overtakes, InOrder, Distinct;
    RecordedOnceHandedOnce(hs);
    if Exact(t0, states[k]) && Run(EMPTY, hs).pending == [] {
      HandingOnOrderExactly(hs);
    }
  }

  // ---- When an event is handed on ----

  // A line of a followed stream is handed on at once when a write of its second has been started before, and waits
  // for its own write otherwise; a write that is done hands on the event that waits for it; other lines hand on
  // nothing.
  lemma LineHandsOnExactly(hash: Event -> string, s: Sys, line: Line)
    ensures
      var (l, l') := (s.m.ledger, Next(hash, s, Stream(line)).m.ledger);
      match line
      case Good(e) =>
        if !s.m.synchronized then l' == l && Next(hash, s, Stream(line)).m.queue == s.m.queue + [e]
        else
          && l'.recorded == l.recorded + [e] && l'.saved == Some(e.ts)
          && if l.saved == Some(e.ts) then l'.handed == l.handed + [e] && l'.pending == l.pending
             else l'.handed == l.handed && l'.pending == l.pending + [e]
      case WriteDone(i) =>
        if i >= |l.pending| then l' == l
        else
          && l'.recorded == l.recorded && l'.saved == l.saved && l'.handed == l.handed + [l.pending[i]]
          && |l'.pending| == |l.pending| - 1
          && (forall j :: 0 <= j < i ==> l'.pending[j] == l.pending[j])
          && (forall j :: i < j < |l.pending| ==> l'.pending[j - 1] == l.pending[j])
      case _ => l' == l
  {
  }

  function Writes(n: nat): seq<Line> { if n == 0 then [] else Writes(n - 1) + [WriteDone(0)] }

  lemma {:induction false} WritesHandOn(m: Merge, n: nat)
    requires n <= |m.ledger.pending|
    ensures StreamLines(m, Writes(n)).ledger
         == m.ledger.(handed := m.ledger.handed + m.ledger.pending[..n], pending := m.ledger.pending[n..])
  {
    if n > 0 {
      var (lines, m1) := (Writes(n), StreamLines(m, Writes(n - 1)));
      assert lines[..|lines| - 1] == Writes(n - 1) && lines[|lines| - 1] == WriteDone(0);
      assert StreamLines(m, lines) == StreamLine(m1, WriteDone(0));
      WritesHandOn(m, n - 1);
      FirstWriteHandsOn(m1);
      hide StreamLines, StreamLine, Writes;
      TakenOneByOne(m.ledger.handed, m.ledger.pending, n);
    }
  }

  lemma FirstWriteHandsOn(m: Merge)
    requires m.ledger.pending != []
    ensures
      var l := m.ledger;
      StreamLine(m, WriteDone(0)).ledger == l.(handed := l.handed + [l.pending[0]], pending := l.pending[1..])
  {
    assert m.ledger.pending[..0] + m.ledger.pending[1..] == m.ledger.pending[1..];
  }

  lemma TakenOneByOne(handed: seq<Event>, pending: seq<Event>, n: nat)
    requires 0 < n <= |pending|
    ensures handed + pending[..n] == handed + pending[..n - 1] + [pending[n - 1..][0]]
    ensures pending[n - 1..][1..] == pending[n..]
  {
  }

  // Over every run, once the writes that are under way are done, everything recorded has been handed on.
  lemma EveryRecordIsHandedOn(hash: Event -> string, t0: int, states: seq<Sys>, steps: seq<Step>, k: nat)
    requires IsAllowedRun(hash, t0, states, steps) && k < |states|
    ensures
      var (l, m') := (states[k].m.ledger, StreamLines(states[k].m, Writes(|states[k].m.ledger.pending|)));
      && m'.ledger.pending == [] && m'.ledger.recorded == l.recorded
      && m'.ledger.handed == l.handed + l.pending && multiset(m'.ledger.handed) == multiset(l.recorded)
  {
    hide IsAllowedRun, StreamLines, Exact;
    var l := states[k].m.ledger;
    WritesHandOn(states[k].m, |l.pending|);
    assert l.pending[..|l.pending|] == l.pending;
    var hs := EveryRunHandsOnOnce(hash, t0, states, steps, k);
  }

  // Whatever waits after a poll has waited before.
  predicate NothingNewWaits(m: Merge, m': Merge) { multiset(m'.ledger.pending) <= multiset(m.ledger.pending) }

  lemma UnfollowedLineHandsOn(m: Merge, line: Line)
    requires !m.synchronized
    ensures !StreamLine(m, line).synchronized && NothingNewWaits(m, StreamLine(m, line))
  {
    match line
    case WriteDone(i) =>
      if i < |m.ledger.pending| {
        OneTaken(m.ledger.pending, i);
      }
    case _ =>
  }

  lemma OneTaken(pending: seq<Event>, i: nat)
    requires i < |pending|
    ensures multiset(pending[..i] + pending[i + 1..]) <= multiset(pending)
  {
    assert pending == pending[..i] + ([pending[i]] + pending[i + 1..]);
  }

  lemma {:induction false} UnfollowedLinesHandOn(m: Merge, lines: seq<Line>)
    requires !m.synchronized
    ensures !StreamLines(m, lines).synchronized && NothingNewWaits(m, StreamLines(m, lines))
  {
    hide StreamLine;
    if lines != [] {
      UnfollowedLinesHandOn(m, lines[..|lines| - 1]);
      UnfollowedLineHandsOn(StreamLines(m, lines[..|lines| - 1]), lines[|lines| - 1]);
    }
  }

  lemma UnfollowedYieldHandsOn(m: Merge, e: Event)
    requires !m.synchronized
    ensures !Yield(Emit(m, e)).synchronized && NothingNewWaits(m, Yield(Emit(m, e)))
  {
    var m1 := Emit(m, e);
    if m1.arrivals != [] {
      UnfollowedLinesHandOn(m1.(arrivals := m1.arrivals[1..]), m1.arrivals[0]);
    }
  }

  lemma {:induction false} UnfollowedBatchHandsOn(m: Merge, events: seq<Event>)
    requires !m.synchronized
    ensures !EmitAll(m, events).synchronized && NothingNewWaits(m, EmitAll(m, events))
  {
    hide Yield, Emit;
    if events != [] {
      var n := |events| - 1;
      UnfollowedBatchHandsOn(m, events[..n]);
      UnfollowedYieldHandsOn(EmitAll(m, events[..n]), events[n]);
    }
  }

  lemma {:induction false} UnfollowedDrainHandsOn(m: Merge, i: nat)
    requires !m.synchronized
    ensures NothingNewWaits(m, Drain(m, i))
    decreases |m.arrivals|, if i < |m.queue| then |m.queue| - i else 0
  {
    if i < |m.queue| {
      var e := m.queue[i];
      if m.lastTs == Some(e.ts) && e in m.lastSecond {
        UnfollowedDrainHandsOn(m, i + 1);
      } else {
        YieldConsumes(Emit(m, e));
        UnfollowedYieldHandsOn(m, e);
        UnfollowedDrainHandsOn(Yield(Emit(m, e)), i + 1);
        hide Yield;
      }
    }
  }

  lemma UnfollowedPollHandsOn(hash: Event -> string, m: Merge, lines: seq<Line>)
    requires !m.synchronized
    ensures NothingNewWaits(m, Poll(hash, m, lines))
  {
    var events := Batch(hash, m, lines);
    if events != [] {
      var m1 := Opened(m, LastOf(events));
      hide Batch, Poll, EmitAll, UpTo, Drain;
      if HandsOver(m, LastOf(events)) {
        HandOverIs(hash, m, lines);
        var early := UpTo(events, m.queue[0].ts);
        UnfollowedBatchHandsOn(m1, early);
        UnfollowedDrainHandsOn(EmitAll(m1, early), 0);
      } else {
        PollOnlyIs(hash, m, lines);
        UnfollowedBatchHandsOn(m1, events);
      }
    }
  }

  lemma {:induction false} RunOnlyRecordsMore(l: Ledger, hs: seq<Happening>)
    ensures multiset(l.recorded) <= multiset(Run(l, hs).recorded)
  {
    if hs != [] { RunOnlyRecordsMore(l, hs[..|hs| - 1]); }
  }

  lemma NothingElseIsLeft(l: Ledger, l': Ledger)
    requires multiset(l.recorded) == multiset(l.handed) + multiset(l.pending)
    requires multiset(l'.recorded) == multiset(l'.handed) + multiset(l'.pending)
    requires multiset(l.recorded) <= multiset(l'.recorded) && multiset(l'.pending) <= multiset(l.pending)
    ensures multiset(l.handed) + (multiset(l'.recorded) - multiset(l.recorded)) <= multiset(l'.handed)
  {
  }

  // Over every run, all that a poll of an unsynchronized source records, queued lines included, has been handed on
  // when the poll is over.
  lemma PolledIsHandedOn(hash: Event -> string, t0: int, states: seq<Sys>, steps: seq<Step>, k: nat)
    requires IsAllowedRun(hash, t0, states, steps) && k < |steps|
    requires steps[k].Answer? && !states[k].m.synchronized
    ensures
      var (l, l') := (states[k].m.ledger, states[k + 1].m.ledger);
      multiset(l.handed) + (multiset(l'.recorded) - multiset(l.recorded)) <= multiset(l'.handed)
  {
    var (s, s', step) := (states[k], states[k + 1], steps[k]);
    assert s' == Next(hash, s, step);
    StepKeepsLedger(hash, s, step);
    AnswerHandsOn(hash, s, step);
    hide Next;
    var hs :| Run(s.m.ledger, hs) == s'.m.ledger;
    RunOnlyRecordsMore(s.m.ledger, hs);
    hide *;
    var before := EveryRunHandsOnOnce(hash, t0, states, steps, k);
    var after := EveryRunHandsOnOnce(hash, t0, states, steps, k + 1);
    NothingElseIsLeft(s.m.ledger, s'.m.ledger);
  }

  lemma AnswerHandsOn(hash: Event -> string, s: Sys, step: Step)
    requires step.Answer? && !s.m.synchronized
    ensures NothingNewWaits(s.m, Next(hash, s, step).m)
  {
    hide Poll;
    UnfollowedPollHandsOn(hash, s.m.(arrivals := step.arrivals), step.lines);
  }
}
