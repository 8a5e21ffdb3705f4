/** What the source saves for a later run of the service, and what that run still knows of the last second. */
module GerritRestart {
  import opened Prelude
  import opened Sorting
  import opened GerritLedger
  import opened GerritMerge
  import opened GerritExactness
  import opened GerritRuns

  // ---- The saved timestamp ----

  predicate LastIsSaved(m: Merge) { m.ledger.saved == m.lastTs }

  lemma LineSavesLast(m: Merge, line: Line)
    requires LastIsSaved(m)
    ensures LastIsSaved(StreamLine(m, line))
  {
  }

  lemma PollSavesLast(hash: Event -> string, m: Merge, lines: seq<Line>)
    requires LastIsSaved(m)
    ensures LastIsSaved(Poll(hash, m, lines))
  {
    var events := Batch(hash, m, lines);
    if (!m.synchronized || m.timedOut) && events != [] {
      hide Batch, Poll, EmitAll, UpTo, Drain, Opened;
      if HandsOver(m, LastOf(events)) {
        HandOverIs(hash, m, lines);
      } else {
        PollOnlyIs(hash, m, lines);
      }
    }
  }

  lemma StepSavesLast(hash: Event -> string, s: Sys, step: Step)
    requires LastIsSaved(s.m)
    ensures LastIsSaved(Next(hash, s, step).m)
  {
    match step
    case Stream(line) => LineSavesLast(s.m, line);
    case Answer(_, _, lines, arrivals) =>
      hide Poll;
      PollSavesLast(hash, s.m.(arrivals := arrivals), lines);
    case _ =>
  }

  // Over every run, a write of the last timestamp has been started whenever no line and no poll is being handled.
  lemma {:induction false} RunSavesLast(hash: Event -> string, t0: int, states: seq<Sys>, steps: seq<Step>, k: nat)
    requires IsAllowedRun(hash, t0, states, steps) && k < |states|
    ensures states[k].m.ledger.saved == states[k].m.lastTs
  {
    hide Next, Allowed;
    if k > 0 {
      RunSavesLast(hash, t0, states, steps, k - 1);
      StepSavesLast(hash, states[k - 1], steps[k - 1]);
    }
  }

  // ---- The saved hashes ----

  function HashesOf(hash: Event -> string, events: seq<Event>): seq<string> {
    seq(|events|, i requires 0 <= i < |events| => hash(events[i]))
  }

  // A stop saves the hashes of the events of the last second that this run of the service has recorded, and
  // nothing if there are none; the next run starts with them and the last timestamp.
  function Reloaded(hash: Event -> string, m: Merge): Merge {
    Merge(m.lastTs, [], if m.lastSecond == [] then None else Some(HashesOf(hash, m.lastSecond)), [], false, false,
          EMPTY, [])
  }

  // An event of the last second that only the hashes of an earlier run tell of.
  ghost predicate OnlyByHash(hash: Event -> string, m: Merge, e: Event) {
    && m.lastTs == Some(e.ts) && m.hashes.Some? && hash(e) in m.hashes.value
    && forall x :: x in m.lastSecond ==> hash(x) != hash(e)
  }

  lemma HashesMean(hash: Event -> string, events: seq<Event>, h: string)
    ensures h in HashesOf(hash, events) <==> exists e :: e in events && hash(e) == h
  {
    if e :| e in events && hash(e) == h {
      var i :| 0 <= i < |events| && events[i] == e;
      assert HashesOf(hash, events)[i] == h;
    }
  }

  // What the next run takes for received: events of earlier seconds, and those of the last second with the hash of
  // one that the run before it has recorded.
  lemma ReloadedSeesExactly(hash: Event -> string, m: Merge, e: Event)
    ensures Seen(hash, Reloaded(hash, m), e) <==>
      m.lastTs.Some? &&
      (e.ts < m.lastTs.value ||
       (e.ts == m.lastTs.value && exists x :: x in m.lastSecond && hash(x) == hash(e)))
  {
    HashesMean(hash, m.lastSecond, hash(e));
  }

  // The batch of the first poll of the next run: what is polled of the last second and later, in time order, but for
  // the events of the last second with the hash of one that the run before it has recorded.
  lemma FirstBatchAfterRestart(hash: Event -> string, m: Merge, lines: seq<Line>)
    ensures
      var events := Batch(hash, Reloaded(hash, m), lines);
      && InOrder(events)
      && (Distinct(Parse(lines)) ==> Distinct(events))
      && (forall e :: e in events <==>
            && e in Parse(lines)
            && (m.lastTs.Some? ==>
                  && e.ts >= m.lastTs.value
                  && (e.ts == m.lastTs.value ==> forall x :: x in m.lastSecond ==> hash(x) != hash(e))))
  {
    var m' := Reloaded(hash, m);
    var (unseen, events) := (Unseen(hash, m', Parse(lines)), Batch(hash, m', lines));
    UnseenMeans(hash, m', Parse(lines));
    ByTimeIsTotal();
    SortSorts(ByTime(), unseen);
    forall i, j | 0 <= i < j < |events| ensures events[i].ts <= events[j].ts {
      assert ByTime()(events[i], events[j]);
    }
    if Distinct(unseen) {
      DistinctPermutes(unseen, events);
    }
    forall e ensures e in events <==> e in Parse(lines) && !Seen(hash, m', e) {
      assert e in events <==> e in multiset(events);
      assert e in unseen <==> e in multiset(unseen);
    }
    hide Reloaded, Seen, Batch, Parse, Unseen;
    forall e {
      ReloadedSeesExactly(hash, m, e);
    }
  }

  // The next run knows every event that this run would not take again if and only if none of the last second is
  // known by the hash of an earlier run alone.
  lemma RestartRemembersExactly(hash: Event -> string, m: Merge)
    ensures (forall e :: Seen(hash, m, e) ==> Seen(hash, Reloaded(hash, m), e)) <==>
            (forall e :: !OnlyByHash(hash, m, e))
  {
    forall e ensures Seen(hash, m, e) && !Seen(hash, Reloaded(hash, m), e) <==> OnlyByHash(hash, m, e) {
      ReloadedSeesExactly(hash, m, e);
      hide Reloaded;
    }
    hide Seen, Reloaded, OnlyByHash;
  }

  // ---- How long loaded hashes count ----

  // Either the loaded hashes are gone or the last second is still the one they were loaded for.
  predicate Fades(m: Merge, m': Merge) {
    m'.hashes.None? || (m'.hashes == m.hashes && m'.lastTs == m.lastTs)
  }

  lemma {:induction false} LinesFade(m: Merge, lines: seq<Line>)
    ensures Fades(m, StreamLines(m, lines))
  {
    if lines != [] { LinesFade(m, lines[..|lines| - 1]); }
  }

  lemma YieldFades(m: Merge)
    ensures Fades(m, Yield(m))
  {
    if m.arrivals != [] { LinesFade(m.(arrivals := m.arrivals[1..]), m.arrivals[0]); }
  }

  lemma {:induction false} BatchFades(m: Merge, events: seq<Event>)
    ensures Fades(m, EmitAll(m, events))
  {
    if events != [] {
      var n := |events| - 1;
      BatchFades(m, events[..n]);
      YieldFades(Emit(EmitAll(m, events[..n]), events[n]));
      hide Yield;
    }
  }

  lemma {:induction false} DrainFades(m: Merge, i: nat)
    ensures Fades(m, Drain(m, i))
    decreases |m.arrivals|, if i < |m.queue| then |m.queue| - i else 0
  {
    if i < |m.queue| {
      var e := m.queue[i];
      if m.lastTs == Some(e.ts) && e in m.lastSecond {
        DrainFades(m, i + 1);
      } else {
        YieldConsumes(Emit(m, e));
        YieldFades(Emit(m, e));
        DrainFades(Yield(Emit(m, e)), i + 1);
        hide Yield;
      }
    }
  }

  lemma PollFades(hash: Event -> string, m: Merge, lines: seq<Line>)
    ensures Fades(m, Poll(hash, m, lines))
  {
    var events := Batch(hash, m, lines);
    if (!m.synchronized || m.timedOut) && events != [] {
      var m1 := Opened(m, LastOf(events));
      hide Batch, Poll, EmitAll, UpTo, Drain;
      if HandsOver(m, LastOf(events)) {
        HandOverIs(hash, m, lines);
        var early := UpTo(events, m.queue[0].ts);
        BatchFades(m1, early);
        DrainFades(EmitAll(m1, early), 0);
      } else {
        PollOnlyIs(hash, m, lines);
        BatchFades(m1, events);
      }
    }
  }

  lemma StepFades(hash: Event -> string, s: Sys, step: Step)
    ensures Fades(s.m, Next(hash, s, step).m)
  {
    match step
    case Answer(_, _, lines, arrivals) =>
      PollFades(hash, s.m.(arrivals := arrivals), lines);
      hide Poll;
    case _ =>
  }

  // A run of the service from any state, such as one that has loaded hashes.
  ghost predicate Follows(hash: Event -> string, states: seq<Sys>, steps: seq<Step>) {
    && |states| == |steps| + 1
    && forall i :: 0 <= i < |steps| ==> states[i + 1] == Next(hash, states[i], steps[i])
  }

  // However the run goes on, a loaded hash never hides an event of another second than the one it was saved for.
  lemma {:induction false} LoadedHashesFade(hash: Event -> string, states: seq<Sys>, steps: seq<Step>, k: nat)
    requires Follows(hash, states, steps) && k < |states|
    ensures Fades(states[0].m, states[k].m)
    ensures forall e :: OnlyByHash(hash, states[k].m, e) ==>
      && states[0].m.lastTs == Some(e.ts) && states[0].m.hashes.Some? && hash(e) in states[0].m.hashes.value
  {
    hide Next;
    if k > 0 {
      LoadedHashesFade(hash, states, steps, k - 1);
      StepFades(hash, states[k - 1], steps[k - 1]);
    }
  }

  // Two stops in a row without a new event in between: the second one saves no hashes, and the third run takes an
  // event again that the first one has recorded.
  lemma SecondRestartForgets(hash: Event -> string)
    ensures
      var x := Event(101, "x");
      var m := Emit(Merge(None, [], None, [], false, false, EMPTY, []), x);
      && m.ledger.recorded == [x] && Seen(hash, Reloaded(hash, m), x)
      && !Seen(hash, Reloaded(hash, Reloaded(hash, m)), x)
  {
    var x := Event(101, "x");
    var m := Emit(Merge(None, [], None, [], false, false, EMPTY, []), x);
    assert x in m.lastSecond;
    ReloadedSeesExactly(hash, m, x);
    ReloadedSeesExactly(hash, Reloaded(hash, m), x);
  }
}
