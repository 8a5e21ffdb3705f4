/** Where the stream has got to in the server's log: every event it brings is the next one there, and a stream
    process that is started again may go on at a later place. */
module GerritStream {
  import opened Prelude
  import opened Sorting
  import opened GerritLedger
  import opened GerritMerge
  import opened GerritExactness

  function PlaceAfter(d: int, lines: seq<Line>): int {
    if lines == [] then d
    else
      var n := |lines| - 1;
      match lines[n]
      case Good(_) => PlaceAfter(d, lines[..n]) + 1
      case Restarted(at) => at
      case _ => PlaceAfter(d, lines[..n])
  }

  // What can come in when the stream has got to place d of the log.
  predicate BringsNext(log: seq<Event>, d: int, line: Line) {
    && 0 <= d <= |log|
    && match line
       case Good(e) => d < |log| && log[d] == e
       case Restarted(at) => d <= at <= |log|
       case _ => true
  }

  predicate Brings(log: seq<Event>, d: int, lines: seq<Line>) {
    if lines == [] then 0 <= d <= |log|
    else
      var n := |lines| - 1;
      Brings(log, d, lines[..n]) && BringsNext(log, PlaceAfter(d, lines[..n]), lines[n])
  }

  lemma {:induction false} BringsFirst(log: seq<Event>, d: int, lines: seq<Line>, more: seq<Line>)
    requires Brings(log, d, lines + more)
    ensures Brings(log, d, lines)
    ensures PlaceAfter(d, lines + more) == PlaceAfter(PlaceAfter(d, lines), more)
    ensures Brings(log, PlaceAfter(d, lines), more)
  {
    if more == [] {
      assert lines + more == lines;
      PlaceIsInLog(log, d, lines);
    } else {
      var n := |more| - 1;
      assert (lines + more)[..|lines| + n] == lines + more[..n];
      BringsFirst(log, d, lines, more[..n]);
    }
  }

  lemma {:induction false} PlaceIsInLog(log: seq<Event>, d: int, lines: seq<Line>)
    requires Brings(log, d, lines)
    ensures 0 <= d <= PlaceAfter(d, lines) <= |log|
  {
    if lines != [] {
      PlaceIsInLog(log, d, lines[..|lines| - 1]);
    }
  }

  lemma OneLine(log: seq<Event>, d: int, line: Line)
    ensures Brings(log, d, [line]) <==> BringsNext(log, d, line)
    ensures PlaceAfter(d, [line]) == match line case Good(_) => d + 1 case Restarted(at) => at case _ => d
    ensures Parse([line]) == match line case Good(e) => [e] case _ => []
  {
    assert [line][..0] == [];
    assert Brings(log, d, []) <==> 0 <= d <= |log|;
    assert PlaceAfter(d, []) == d;
    assert Parse([]) == [];
  }

  // ---- What the stream has brought ----

  // more are events of the log between two places, in order and without repetition.
  ghost predicate Brought(log: seq<Event>, d: int, more: seq<Event>, d': int) {
    && 0 <= d <= d' <= |log| && InOrder(more) && Distinct(more)
    && forall e :: e in more ==> e in log[d..d']
  }

  lemma ComesLater(log: seq<Event>, c: int, d: int, q: Event, k: int)
    requires InOrder(log) && Distinct(log) && 0 <= c <= d <= k < |log| && q in log[c..d]
    ensures q.ts <= log[k].ts && q != log[k]
  {
    var i :| c <= i < d && log[i] == q;
  }

  lemma TwoPartsInOrder(a: seq<Event>, b: seq<Event>)
    requires InOrder(a) && Distinct(a) && InOrder(b) && Distinct(b)
    requires forall x, y :: x in a && y in b ==> x.ts <= y.ts && x != y
    ensures InOrder(a + b) && Distinct(a + b)
  {
  }

  // Two stretches of the log, one after the other.
  lemma BroughtJoins(log: seq<Event>, c: int, queue: seq<Event>, d: int, more: seq<Event>, d': int)
    requires InOrder(log) && Distinct(log) && Brought(log, c, queue, d) && Brought(log, d, more, d')
    ensures Brought(log, c, queue + more, d')
  {
    forall x, y | x in queue && y in more ensures x.ts <= y.ts && x != y {
      var k :| d <= k < d' && log[k] == y;
      ComesLater(log, c, d, x, k);
    }
    TwoPartsInOrder(queue, more);
    hide InOrder, Distinct;
    forall e | e in queue + more ensures e in log[c..d'] {
      if e in queue {
        var i :| c <= i < d && log[i] == e;
      } else {
        var i :| d <= i < d' && log[i] == e;
      }
    }
  }

  lemma NothingBrought(log: seq<Event>, d: int, d': int)
    requires 0 <= d <= d' <= |log|
    ensures Brought(log, d, [], d')
  {
  }

  lemma OneSlice(log: seq<Event>, d: int)
    requires 0 <= d < |log|
    ensures log[d..d + 1] == [log[d]] && log[d..d] == []
  {
  }

  lemma OneBrought(log: seq<Event>, d: int)
    requires 0 <= d < |log|
    ensures Brought(log, d, [log[d]], d + 1)
  {
  }

  lemma {:induction false} LinesAreBrought(log: seq<Event>, d: int, lines: seq<Line>)
    requires InOrder(log) && Distinct(log) && Brings(log, d, lines)
    ensures Brought(log, d, Parse(lines), PlaceAfter(d, lines))
  {
    hide InOrder, Distinct, Brought;
    if lines == [] {
      NothingBrought(log, d, d);
    } else {
      var (init, line) := (lines[..|lines| - 1], lines[|lines| - 1]);
      var c := PlaceAfter(d, init);
      LinesAreBrought(log, d, init);
      match line
      case Good(e) =>
        OneBrought(log, c);
        BroughtJoins(log, d, Parse(init), c, [e], c + 1);
      case Restarted(at) =>
        NothingBrought(log, c, at);
        BroughtJoins(log, d, Parse(init), c, [], at);
      case _ =>
        assert Parse(init) + [] == Parse(init);
    }
  }

  // The lines skip nothing.
  predicate SkipsNothing(d: int, lines: seq<Line>) { PlaceAfter(d, lines) == d + |Parse(lines)| }

  lemma {:induction false} LinesBringAll(log: seq<Event>, d: int, lines: seq<Line>)
    requires Brings(log, d, lines)
    ensures PlaceAfter(d, lines) >= d + |Parse(lines)|
    ensures SkipsNothing(d, lines) ==>
      0 <= d <= d + |Parse(lines)| <= |log| && Parse(lines) == log[d..d + |Parse(lines)|]
  {
    PlaceIsInLog(log, d, lines);
    if lines != [] {
      LinesBringAll(log, d, lines[..|lines| - 1]);
    }
  }

  lemma {:induction false} FirstSkipNothing(log: seq<Event>, d: int, lines: seq<Line>, more: seq<Line>)
    requires Brings(log, d, lines + more) && SkipsNothing(d, lines + more)
    ensures SkipsNothing(d, lines)
  {
    BringsFirst(log, d, lines, more);
    LinesBringAll(log, d, lines);
    LinesBringAll(log, PlaceAfter(d, lines), more);
    ParseJoins(lines, more);
  }

  // ---- The lines of several yields ----

  function Flat(arrivals: seq<seq<Line>>): seq<Line> {
    if arrivals == [] then [] else arrivals[0] + Flat(arrivals[1..])
  }

  lemma {:induction false} ParseJoins(a: seq<Line>, b: seq<Line>)
    ensures Parse(a + b) == Parse(a) + Parse(b)
  {
    if b == [] {
      assert a + b == a;
    } else {
      var n := |b| - 1;
      assert (a + b)[..|a| + n] == a + b[..n];
      ParseJoins(a, b[..n]);
    }
  }

  lemma {:induction false} ComingIsFlat(arrivals: seq<seq<Line>>)
    ensures Coming(arrivals) == Parse(Flat(arrivals))
  {
    if arrivals != [] {
      ComingIsFlat(arrivals[1..]);
      ParseJoins(arrivals[0], Flat(arrivals[1..]));
    }
  }

  lemma {:induction false} FlatJoins(a: seq<seq<Line>>, b: seq<seq<Line>>)
    ensures Flat(a + b) == Flat(a) + Flat(b)
  {
    if a == [] {
      assert a + b == b;
    } else {
      assert (a + b)[1..] == a[1..] + b;
      FlatJoins(a[1..], b);
      assert (a[0] + Flat(a[1..])) + Flat(b) == a[0] + (Flat(a[1..]) + Flat(b));
    }
  }

  // The lines that have come in once only rest is still to come.
  function CameIn(arrivals: seq<seq<Line>>, rest: seq<seq<Line>>): seq<Line> {
    if |rest| <= |arrivals| then Flat(arrivals[..|arrivals| - |rest|]) else []
  }

  predicate EndsIn(arrivals: seq<seq<Line>>, rest: seq<seq<Line>>) {
    |rest| <= |arrivals| && arrivals[|arrivals| - |rest|..] == rest
  }

  lemma EndsInChains(a: seq<seq<Line>>, b: seq<seq<Line>>, c: seq<seq<Line>>)
    requires EndsIn(a, b) && EndsIn(b, c)
    ensures EndsIn(a, c)
  {
    assert a[|a| - |b|..][|b| - |c|..] == a[|a| - |c|..];
  }

  lemma EndsInItself(a: seq<seq<Line>>)
    ensures EndsIn(a, a)
  {
    assert a[0..] == a;
  }

  lemma YieldTakesFromFront(m: Merge)
    ensures EndsIn(m.arrivals, Yield(m).arrivals)
  {
    YieldConsumes(m);
  }

  lemma {:induction false} EmitAllTakesFromFront(m: Merge, events: seq<Event>)
    ensures EndsIn(m.arrivals, EmitAll(m, events).arrivals)
  {
    if events != [] {
      hide Yield, EndsIn;
      var n := |events| - 1;
      var m1 := EmitAll(m, events[..n]);
      EmitAllTakesFromFront(m, events[..n]);
      YieldTakesFromFront(Emit(m1, events[n]));
      EndsInChains(m.arrivals, m1.arrivals, EmitAll(m, events).arrivals);
    } else {
      EndsInItself(m.arrivals);
    }
  }

  lemma OneMoreTakesFromFront(m: Merge, e: Event)
    ensures
      var m1 := Yield(Emit(m, e));
      && EndsIn(m.arrivals, m1.arrivals)
      && (|m1.arrivals| < |m.arrivals| || (m1.arrivals == m.arrivals && m1.queue == m.queue))
  {
    EmitOnlyRecords(m, e);
    hide *;
    YieldConsumes(Emit(m, e));
    YieldTakesFromFront(Emit(m, e));
  }

  lemma DrainIs(m: Merge, i: nat)
    ensures Drain(m, i) ==
      if i >= |m.queue| then m
      else if m.lastTs == Some(m.queue[i].ts) && m.queue[i] in m.lastSecond then Drain(m, i + 1)
      else Drain(Yield(Emit(m, m.queue[i])), i + 1)
  {
    hide Yield, Emit;
  }

  lemma {:induction false} DrainTakesFromFront(m: Merge, i: nat)
    ensures EndsIn(m.arrivals, Drain(m, i).arrivals)
    decreases |m.arrivals|, if i < |m.queue| then |m.queue| - i else 0
  {
    hide *;
    DrainIs(m, i);
    if i >= |m.queue| {
      EndsInItself(m.arrivals);
    } else {
      var e := m.queue[i];
      if m.lastTs == Some(e.ts) && e in m.lastSecond {
        DrainTakesFromFront(m, i + 1);
      } else {
        var m1 := Yield(Emit(m, e));
        OneMoreTakesFromFront(m, e);
        DrainTakesFromFront(m1, i + 1);
        EndsInChains(m.arrivals, m1.arrivals, Drain(m1, i + 1).arrivals);
      }
    }
  }

  lemma PollTakesFromFront(hash: Event -> string, m: Merge, lines: seq<Line>)
    ensures EndsIn(m.arrivals, Poll(hash, m, lines).arrivals)
  {
    var events := Batch(hash, m, lines);
    EndsInItself(m.arrivals);
    if (!m.synchronized || m.timedOut) && events != [] {
      var m1 := Opened(m, LastOf(events));
      hide Batch, EmitAll, Drain, UpTo, EndsIn;
      var early := if HandsOver(m1, LastOf(events)) then UpTo(events, m1.queue[0].ts) else events;
      EmitAllTakesFromFront(m1, early);
      var m2 := EmitAll(m1, early);
      DrainTakesFromFront(m2, 0);
      EndsInChains(m.arrivals, m2.arrivals, Drain(m2, 0).arrivals);
    }
  }

  // The lines that came in are the first of those that were to come.
  lemma CameInFirst(log: seq<Event>, d: int, arrivals: seq<seq<Line>>, rest: seq<seq<Line>>)
    requires Brings(log, d, Flat(arrivals)) && EndsIn(arrivals, rest)
    ensures Brings(log, d, CameIn(arrivals, rest)) && Coming(arrivals) == Parse(CameIn(arrivals, rest)) + Coming(rest)
    ensures PlaceAfter(d, Flat(arrivals)) == PlaceAfter(PlaceAfter(d, CameIn(arrivals, rest)), Flat(rest))
    ensures Brings(log, PlaceAfter(d, CameIn(arrivals, rest)), Flat(rest))
    ensures Flat(arrivals) == CameIn(arrivals, rest) + Flat(rest)
  {
    var first := arrivals[..|arrivals| - |rest|];
    assert arrivals == first + rest;
    FlatJoins(first, rest);
    BringsFirst(log, d, Flat(first), Flat(rest));
    ComingIsFlat(arrivals);
    ComingIsFlat(rest);
    ParseJoins(Flat(first), Flat(rest));
  }
}
