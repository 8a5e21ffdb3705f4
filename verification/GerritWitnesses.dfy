/** Runs that server and network allow and in which the merge falls short: a line overtaken by a switch, a line of
    a second that polls have gone past, a silent stream that speaks up during a poll, and a lossy connection. */
module GerritWitnesses {
  import opened Prelude
  import opened Sorting
  import opened GerritLedger
  import opened GerritMerge
  import opened GerritExactness
  import opened GerritLimits
  import opened GerritStream
  import opened GerritRuns
  import opened GerritPolls
  import opened GerritSilence
  import opened GerritTimeliness
  import opened GerritTheorems

  const X := Event(101, "x")
  const U := Event(101, "u")
  const Y := Event(102, "y")
  const V := Event(102, "v")
  const W := Event(102, "w")
  const Z := Event(103, "z")

  const IDLE := Merge(None, [], None, [], false, false, EMPTY, [])

  // ---- Building runs ----

  ghost predicate EndsAt(hash: Event -> string, states: seq<Sys>, steps: seq<Step>, s: Sys) {
    IsAllowedRun(hash, 100, states, steps) && states[|steps|] == s
  }

  lemma Begins(hash: Event -> string) returns (states: seq<Sys>)
    ensures EndsAt(hash, states, [], Sys([], 0, 0, {}, IDLE))
    ensures IsLedRun(hash, 100, states, [])
  {
    NothingInOrder();
    hide InOrder, Distinct, Allowed, Next, Led;
    states := [Sys([], 0, 0, {}, IDLE)];
  }

  lemma GoesOn(hash: Event -> string, states: seq<Sys>, steps: seq<Step>, s: Sys, step: Step)
    returns (states': seq<Sys>)
    requires EndsAt(hash, states, steps, s) && Allowed(100, s, step)
    ensures states' == states + [Next(hash, s, step)]
    ensures EndsAt(hash, states', steps + [step], Next(hash, s, step))
    ensures IsLedRun(hash, 100, states, steps) && Led(hash, s, step) ==> IsLedRun(hash, 100, states', steps + [step])
  {
    hide Allowed, Next, Led, Init;
    states' := states + [Next(hash, s, step)];
    var steps' := steps + [step];
    forall i | 0 <= i < |steps'| ensures Allowed(100, states'[i], steps'[i])
                                      && states'[i + 1] == Next(hash, states'[i], steps'[i])
    {
      assert i < |steps| ==> states'[i] == states[i] && states'[i + 1] == states[i + 1] && steps'[i] == steps[i];
    }
    if IsLedRun(hash, 100, states, steps) && Led(hash, s, step) {
      forall i | 0 <= i < |steps'| ensures Led(hash, states'[i], steps'[i]) {
        assert i < |steps| ==> states'[i] == states[i] && steps'[i] == steps[i];
      }
    }
  }

  lemma Appears(hash: Event -> string, states: seq<Sys>, steps: seq<Step>, s: Sys, e: Event) returns (states': seq<Sys>)
    requires EndsAt(hash, states, steps, s)
    requires e !in s.log && 100 <= e.ts && (s.log != [] ==> s.log[|s.log| - 1].ts <= e.ts)
    ensures EndsAt(hash, states', steps + [Appear(e)], s.(log := s.log + [e]))
    ensures IsLedRun(hash, 100, states, steps) ==> IsLedRun(hash, 100, states', steps + [Appear(e)])
  {
    hide EndsAt, IsLedRun;
    states' := GoesOn(hash, states, steps, s, Appear(e));
  }

  lemma IsQueued(hash: Event -> string, states: seq<Sys>, steps: seq<Step>, s: Sys, e: Event)
    returns (states': seq<Sys>)
    requires EndsAt(hash, states, steps, s) && !s.m.synchronized
    requires 0 <= s.delivered < |s.log| && s.log[s.delivered] == e
    ensures EndsAt(hash, states', steps + [Stream(Good(e))],
                   s.(delivered := s.delivered + 1, m := s.m.(queue := s.m.queue + [e])))
    ensures IsLedRun(hash, 100, states, steps) ==> IsLedRun(hash, 100, states', steps + [Stream(Good(e))])
  {
    OneLine(s.log, s.delivered, Good(e));
    hide EndsAt, IsLedRun, PlaceAfter;
    states' := GoesOn(hash, states, steps, s, Stream(Good(e)));
  }

  lemma IsFollowed(hash: Event -> string, states: seq<Sys>, steps: seq<Step>, s: Sys, e: Event)
    returns (states': seq<Sys>, s': Sys)
    requires EndsAt(hash, states, steps, s) && s.m.synchronized
    requires 0 <= s.delivered < |s.log| && s.log[s.delivered] == e
    ensures EndsAt(hash, states', steps + [Stream(Good(e))], s')
    ensures s'.m.ledger.recorded == s.m.ledger.recorded + [e]
  {
    hide EndsAt, IsLedRun, PlaceAfter, Follow;
    FollowOnlyRecords(s.m, e);
    states' := GoesOn(hash, states, steps, s, Stream(Good(e)));
    s' := Next(hash, s, Stream(Good(e)));
  }

  // The stream process is started again and goes on at the end of the log.
  lemma StartsAgain(hash: Event -> string, states: seq<Sys>, steps: seq<Step>, s: Sys) returns (states': seq<Sys>)
    requires EndsAt(hash, states, steps, s) && !s.m.synchronized && s.m.queue != [] && 0 <= s.delivered <= |s.log|
    ensures EndsAt(hash, states', steps + [Stream(Restarted(|s.log|))], s.(delivered := |s.log|))
    ensures IsLedRun(hash, 100, states, steps) ==> IsLedRun(hash, 100, states', steps + [Stream(Restarted(|s.log|))])
  {
    OneLine(s.log, s.delivered, Restarted(|s.log|));
    hide EndsAt, IsLedRun, PlaceAfter;
    states' := GoesOn(hash, states, steps, s, Stream(Restarted(|s.log|)));
  }

  lemma NoPollKeepsInv(hash: Event -> string, states: seq<Sys>, steps: seq<Step>, s: Sys)
    requires EndsAt(hash, states, steps, s) && forall step :: step in steps ==> !step.Answer?
    ensures Inv(100, s)
  {
    hide Allowed, Next, Inv, Init;
    RunInv(hash, 100, states, steps, |steps|);
  }

  lemma NoneComesIn(hash: Event -> string, s: Sys, lines: seq<Line>)
    ensures
      var s' := AfterPoll(hash, s, lines, []);
      s'.log == s.log && s'.delivered == s.delivered
    ensures Parse(CameIn([], Poll(hash, s.m.(arrivals := []), lines).arrivals)) == []
  {
    AfterPollIs(hash, s, lines, []);
    hide Poll, AfterPoll;
    assert Flat([]) == [];
  }

  // What a poll does that ends polling, when no line comes in meanwhile.
  lemma Switched(hash: Event -> string, s: Sys, n: nat, since: int, lines: seq<Line>) returns (s': Sys)
    requires Inv(100, s) && Allowed(100, s, Answer(n, since, lines, []))
    requires !s.m.synchronized && !s.m.timedOut && s.m.queue != [] && Newest(s.m, s.m.queue[0].ts)
    requires n > 0 && s.log[n - 1].ts > s.m.queue[0].ts
    ensures s' == AfterPoll(hash, s, lines, []) == Next(hash, s, Answer(n, since, lines, []))
    ensures s'.log == s.log && s'.delivered == s.delivered && s'.m.synchronized && s'.m.queue == [] && Coherent(s'.m)
    ensures RecordedBySwitch(s, Parse(lines), [], s'.m.ledger.recorded)
  {
    var h :| InvAt(100, s, h);
    PartsOfInv(100, s, h);
    PartsOfAnswer(100, s, n, since, lines, []);
    FirstQueuedIsWanted(100, s);
    CaughtUpHandsOver(hash, 100, s, h, n, since, lines);
    hide *;
    s' := AfterPoll(hash, s, lines, []);
    AnswerIs(hash, s, Answer(n, since, lines, []));
    NoneComesIn(hash, s, lines);
    var more := PollSwitches(hash, 100, s, h, n, since, lines, []);
    SwitchedIs(s, Parse(lines), more, s');
  }

  lemma SwitchedIs(s: Sys, polled: seq<Event>, more: seq<Event>, s': Sys)
    requires Switches(s, polled, more, s')
    ensures s'.log == s.log && RecordedBySwitch(s, polled, more, s'.m.ledger.recorded)
  {
    hide RecordedBySwitch, Brought, LeftToStream;
  }

  // ---- Lines ----

  lemma ParsesTo(e: Event)
    ensures Parse([Good(e)]) == [e]
  {
    assert [Good(e)][..0] == [];
    assert Parse([]) == [];
  }

  lemma ParsesToTwo(d: Event, e: Event)
    ensures Parse([Good(d), Good(e)]) == [d, e]
  {
    ParsesTo(d);
    assert [Good(d), Good(e)][..1] == [Good(d)];
  }

  lemma ParsesToThree(c: Event, d: Event, e: Event)
    ensures Parse([Good(c), Good(d), Good(e)]) == [c, d, e]
  {
    ParsesToTwo(c, d);
    assert [Good(c), Good(d), Good(e)][..2] == [Good(c), Good(d)];
  }

  lemma ParsesToFour(b: Event, c: Event, d: Event, e: Event)
    ensures Parse([Good(b), Good(c), Good(d), Good(e)]) == [b, c, d, e]
  {
    ParsesToThree(b, c, d);
    assert [Good(b), Good(c), Good(d), Good(e)][..3] == [Good(b), Good(c), Good(d)];
  }

  // ---- A switch overtakes the stream ----

  // The stream has brought x, a poll x, u and z; the switch records x and u, and then the stream brings u.
  function OvertakingSteps(): seq<Step> {
    [Appear(X), Appear(U), Appear(Z), Stream(Good(X)),
     Answer(3, 100, [Good(X), Good(U), Good(Z)], []), Stream(Good(U))]
  }

  lemma BeforeOvertaking(hash: Event -> string) returns (states: seq<Sys>)
    ensures EndsAt(hash, states, OvertakingSteps()[..4], Sys([X, U, Z], 1, 0, {}, IDLE.(queue := [X])))
  {
    hide EndsAt, IsLedRun;
    states := Begins(hash);
    states := Appears(hash, states, [], Sys([], 0, 0, {}, IDLE), X);
    states := Appears(hash, states, [] + [Appear(X)], Sys([] + [X], 0, 0, {}, IDLE), U);
    states := Appears(hash, states, [] + [Appear(X)] + [Appear(U)], Sys([] + [X] + [U], 0, 0, {}, IDLE), Z);
    states := IsQueued(hash, states, [] + [Appear(X)] + [Appear(U)] + [Appear(Z)],
                       Sys([] + [X] + [U] + [Z], 0, 0, {}, IDLE), X);
    assert [] + [Appear(X)] + [Appear(U)] + [Appear(Z)] + [Stream(Good(X))] == OvertakingSteps()[..4];
    assert [] + [X] + [U] + [Z] == [X, U, Z] && IDLE.queue + [X] == [X];
  }

  lemma OvertakingAnswer(s: Sys)
    requires s == Sys([X, U, Z], 1, 0, {}, IDLE.(queue := [X]))
    ensures Allowed(100, s, OvertakingSteps()[4])
  {
    ParsesToThree(X, U, Z);
    assert s.log[..3] == [X, U, Z];
    assert Flat([]) == [];
  }

  lemma OvertakenOnRecord(s: Sys, recorded: seq<Event>)
    requires s.m == IDLE.(queue := [X])
    requires RecordedBySwitch(s, Parse([Good(X), Good(U), Good(Z)]), [], recorded)
    ensures U in recorded
  {
    ParsesToThree(X, U, Z);
  }

  lemma OvertakenLineIsRepeated(hash: Event -> string) returns (states: seq<Sys>)
    ensures IsAllowedRun(hash, 100, states, OvertakingSteps())
    ensures !Distinct(states[6].m.ledger.recorded)
  {
    states := BeforeOvertaking(hash);
    var s := Sys([X, U, Z], 1, 0, {}, IDLE.(queue := [X]));
    var answer := OvertakingSteps()[4];
    hide Inv, AfterPoll, Allowed, EndsAt, RecordedBySwitch, Parse, Coherent, Distinct;
    NoPollKeepsInv(hash, states, OvertakingSteps()[..4], s);
    OvertakingAnswer(s);
    var s' := Switched(hash, s, 3, 100, [Good(X), Good(U), Good(Z)]);
    OvertakenOnRecord(s, s'.m.ledger.recorded);
    states := GoesOn(hash, states, OvertakingSteps()[..4], s, answer);
    var s'': Sys;
    states, s'' := IsFollowed(hash, states, OvertakingSteps()[..4] + [answer], s', U);
    assert OvertakingSteps()[..4] + [answer] + [Stream(Good(U))] == OvertakingSteps();
    RecordedAgain(s'.m.ledger.recorded, U);
  }

  lemma RecordedAgain(recorded: seq<Event>, e: Event)
    requires e in recorded
    ensures !Distinct(recorded + [e])
  {
    var i :| 0 <= i < |recorded| && recorded[i] == e;
    assert (recorded + [e])[i] == (recorded + [e])[|recorded|];
  }

  // ---- Polls overtake the stream while nothing is queued ----

  // Polls have brought x and y before the stream's own line for x comes in; the next poll switches.
  function LateSteps(): seq<Step> {
    [Appear(X), Appear(Y), Answer(2, 100, [Good(X), Good(Y)], []), Stream(Good(X)), Appear(Z),
     Answer(3, 102, [Good(Y), Good(Z)], [])]
  }

  lemma BatchEndsWith(hash: Event -> string, m: Merge, lines: seq<Line>, e: Event)
    requires Coherent(m) && Distinct(Parse(lines)) && e in Parse(lines) && Fresh(m, e)
    requires forall x :: x in Parse(lines) ==> x.ts <= e.ts
    ensures Batch(hash, m, lines) != [] && LastOf(Batch(hash, m, lines)) == e.ts
  {
    var events := Batch(hash, m, lines);
    BatchMeans(hash, m, lines);
    hide Batch, Parse, Coherent, Distinct, Fresh, InOrder;
    LastIsNoOlder(events, e);
    assert events[|events| - 1] in events;
  }

  // What a poll does while no line is queued and none comes in.
  lemma Polled(hash: Event -> string, s: Sys, n: nat, since: int, lines: seq<Line>) returns (s': Sys)
    requires Inv(100, s) && Allowed(100, s, Answer(n, since, lines, []))
    requires !s.m.synchronized && s.m.queue == [] && Batch(hash, s.m, lines) != []
    ensures s' == AfterPoll(hash, s, lines, []) == Next(hash, s, Answer(n, since, lines, []))
    ensures s'.log == s.log && s'.delivered == s.delivered && !s'.m.synchronized && s'.m.queue == []
    ensures Coherent(s'.m) && s'.m.lastTs == Some(LastOf(Batch(hash, s.m, lines)))
    ensures forall e :: e in Parse(lines) && Newest(s.m, e.ts) ==> e in s'.m.ledger.recorded
  {
    var h :| InvAt(100, s, h);
    assert !HandsOver(s.m, LastOf(Batch(hash, s.m, lines)));
    hide *;
    s' := AfterPoll(hash, s, lines, []);
    AnswerIs(hash, s, Answer(n, since, lines, []));
    NoneComesIn(hash, s, lines);
    PollOnlyRecords(hash, 100, s, h, n, since, lines, []);
    AfterPollIs(hash, s, lines, []);
    IgnoresArrivals(Poll(hash, s.m.(arrivals := []), lines), s'.m);
    assert s.m.queue + [] == [];
  }

  lemma BeforeTheFirstPoll(hash: Event -> string) returns (states: seq<Sys>)
    ensures EndsAt(hash, states, LateSteps()[..2], Sys([X, Y], 0, 0, {}, IDLE))
  {
    hide EndsAt, IsLedRun;
    states := Begins(hash);
    states := Appears(hash, states, [], Sys([], 0, 0, {}, IDLE), X);
    states := Appears(hash, states, [] + [Appear(X)], Sys([] + [X], 0, 0, {}, IDLE), Y);
    assert [] + [Appear(X)] + [Appear(Y)] == LateSteps()[..2];
    assert [] + [X] + [Y] == [X, Y];
  }

  lemma FirstAnswer(hash: Event -> string)
    ensures Allowed(100, Sys([X, Y], 0, 0, {}, IDLE), LateSteps()[2])
    ensures Batch(hash, IDLE, [Good(X), Good(Y)]) != [] && LastOf(Batch(hash, IDLE, [Good(X), Good(Y)])) == 102
    ensures Parse([Good(X), Good(Y)]) == [X, Y]
  {
    ParsesToTwo(X, Y);
    assert [X, Y][..2] == [X, Y];
    assert Flat([]) == [];
    NothingInOrder();
    assert Coherent(IDLE);
    BatchEndsWith(hash, IDLE, [Good(X), Good(Y)], Y);
  }

  lemma FirstPoll(hash: Event -> string) returns (states: seq<Sys>, s: Sys)
    ensures EndsAt(hash, states, LateSteps()[..3], s) && s.log == [X, Y] && s.delivered == 0
    ensures !s.m.synchronized && s.m.queue == [] && Coherent(s.m) && s.m.lastTs == Some(102)
    ensures X in s.m.ledger.recorded && Y in s.m.ledger.recorded
  {
    var (idle, answer) := (Sys([X, Y], 0, 0, {}, IDLE), LateSteps()[2]);
    hide Inv, AfterPoll, Allowed, EndsAt, Parse, Coherent, Batch;
    states := BeforeTheFirstPoll(hash);
    NoPollKeepsInv(hash, states, LateSteps()[..2], idle);
    FirstAnswer(hash);
    s := Polled(hash, idle, 2, 100, [Good(X), Good(Y)]);
    states := GoesOn(hash, states, LateSteps()[..2], idle, answer);
    assert LateSteps()[..2] + [answer] == LateSteps()[..3];
  }

  lemma LateLineIsQueued(hash: Event -> string) returns (states: seq<Sys>, s: Sys)
    ensures EndsAt(hash, states, LateSteps()[..5], s) && s.log == [X, Y, Z] && s.delivered == 1
    ensures !s.m.synchronized && s.m.queue == [X] && Coherent(s.m) && s.m.lastTs == Some(102)
    ensures X in s.m.ledger.recorded && Y in s.m.ledger.recorded
  {
    var s0: Sys;
    states, s0 := FirstPoll(hash);
    hide EndsAt, IsLedRun, InOrder, Distinct;
    states := IsQueued(hash, states, LateSteps()[..3], s0, X);
    var s1 := s0.(delivered := s0.delivered + 1, m := s0.m.(queue := s0.m.queue + [X]));
    states := Appears(hash, states, LateSteps()[..3] + [Stream(Good(X))], s1, Z);
    s := s1.(log := s1.log + [Z]);
    assert LateSteps()[..3] + [Stream(Good(X))] + [Appear(Z)] == LateSteps()[..5];
  }

  lemma LastAnswer(s: Sys)
    requires s.log == [X, Y, Z] && s.delivered == 1 && s.m.lastTs == Some(102)
    ensures Allowed(100, s, LateSteps()[5])
  {
    ParsesToTwo(Y, Z);
    assert s.log[..3] == [X, Y, Z];
    assert Flat([]) == [];
  }

  lemma LateLineComesBack(hash: Event -> string, m: Merge)
    requires Coherent(m) && !m.synchronized && m.queue == [X] && m.lastTs == Some(102) && X in m.ledger.recorded
    ensures
      var after := Poll(hash, m, [Good(Y), Good(Z)]).ledger.recorded;
      !InOrder(after) && !Distinct(after)
  {
    ParsesToTwo(Y, Z);
    assert Fresh(m, Z);
    BatchEndsWith(hash, m, [Good(Y), Good(Z)], Z);
    CoherentEndsAtLast(m);
    hide Batch, Poll, Parse, Coherent, InOrder, Fresh;
    LateLineComesOut(hash, m, [Good(Y), Good(Z)]);
    var (before, after) := (m.ledger.recorded, Poll(hash, m, [Good(Y), Good(Z)]).ledger.recorded);
    hide *;
    EndsOutOfOrder(before, X, after);
    RecordedAgain(before, X);
    RepeatedAtFirst(before + [X], after);
  }

  lemma LateLineIsRepeated(hash: Event -> string) returns (states: seq<Sys>)
    ensures IsAllowedRun(hash, 100, states, LateSteps())
    ensures !InOrder(states[6].m.ledger.recorded) && !Distinct(states[6].m.ledger.recorded)
  {
    var s: Sys;
    states, s := LateLineIsQueued(hash);
    LastAnswer(s);
    hide AfterPoll, Allowed, Coherent, Poll, InOrder, Distinct, Newest, EndsAt;
    IgnoresArrivals(s.m, s.m.(arrivals := []));
    LateLineComesBack(hash, s.m.(arrivals := []));
    AnswerIs(hash, s, LateSteps()[5]);
    AfterPollIs(hash, s, [Good(Y), Good(Z)], []);
    states := GoesOn(hash, states, LateSteps()[..5], s, LateSteps()[5]);
    assert LateSteps()[..5] + [LateSteps()[5]] == LateSteps();
  }

  lemma RepeatedAtFirst(some: seq<Event>, all: seq<Event>)
    requires !Distinct(some) && some <= all
    ensures !Distinct(all)
  {
    var i, j :| 0 <= i < j < |some| && some[i] == some[j];
    assert all[i] == all[j];
  }

  // ---- A silent stream speaks up while it is polled ----

  // The connection is replaced between x and y and misses v and w, which the switch passes over. The stream
  // falls silent; a poll brings v and w, and z comes in between the two.
  function SilentSteps(): seq<Step> {
    [Appear(X), Stream(Good(X)), Appear(V), Appear(W), Stream(Restarted(3)), Appear(Y), Stream(Good(Y)),
     Answer(4, 100, [Good(X), Good(V), Good(W), Good(Y)], []), Silence, Appear(Z),
     Answer(4, 102, [Good(V), Good(W), Good(Y)], [[Good(Z)]])]
  }

  lemma LinesMissed(hash: Event -> string) returns (states: seq<Sys>)
    ensures EndsAt(hash, states, SilentSteps()[..5], Sys([X, V, W], 3, 0, {}, IDLE.(queue := [X])))
  {
    hide EndsAt, IsLedRun;
    var s := Sys([], 0, 0, {}, IDLE);
    states := Begins(hash);
    states := Appears(hash, states, [], s, X);
    states := IsQueued(hash, states, [] + [Appear(X)], s.(log := [] + [X]), X);
    s := Sys([] + [X], 1, 0, {}, IDLE.(queue := IDLE.queue + [X]));
    states := Appears(hash, states, [] + [Appear(X)] + [Stream(Good(X))], s, V);
    states := Appears(hash, states, [] + [Appear(X)] + [Stream(Good(X))] + [Appear(V)], s.(log := s.log + [V]), W);
    var steps := [] + [Appear(X)] + [Stream(Good(X))] + [Appear(V)] + [Appear(W)];
    s := s.(log := s.log + [V] + [W]);
    states := StartsAgain(hash, states, steps, s);
    assert steps + [Stream(Restarted(3))] == SilentSteps()[..5];
    assert s.log == [X, V, W] && IDLE.queue + [X] == [X];
  }

  lemma BeforeTheSwitch(hash: Event -> string) returns (states: seq<Sys>)
    ensures EndsAt(hash, states, SilentSteps()[..7], Sys([X, V, W, Y], 4, 0, {}, IDLE.(queue := [X, Y])))
  {
    hide EndsAt, IsLedRun;
    var (steps, s) := (SilentSteps()[..5], Sys([X, V, W], 3, 0, {}, IDLE.(queue := [X])));
    states := LinesMissed(hash);
    states := Appears(hash, states, steps, s, Y);
    states := IsQueued(hash, states, steps + [Appear(Y)], s.(log := s.log + [Y]), Y);
    assert steps + [Appear(Y)] + [Stream(Good(Y))] == SilentSteps()[..7];
    assert s.log + [Y] == [X, V, W, Y] && s.m.queue + [Y] == [X, Y];
  }

  lemma SwitchOnRecord(m: Merge)
    requires Coherent(m) && forall e :: e in m.ledger.recorded <==> e in {X, Y}
    ensures m.lastTs == Some(102) && V !in m.ledger.recorded && W !in m.ledger.recorded && Y in m.ledger.recorded
  {
    assert Y in m.ledger.recorded;
    assert m.ledger.recorded[|m.ledger.recorded| - 1] in m.ledger.recorded;
  }

  lemma SwitchingAnswer(s: Sys)
    requires s == Sys([X, V, W, Y], 4, 0, {}, IDLE.(queue := [X, Y]))
    ensures Allowed(100, s, SilentSteps()[7])
  {
    ParsesToFour(X, V, W, Y);
    assert s.log[..4] == [X, V, W, Y];
    assert Flat([]) == [];
  }

  lemma OnlyQueuedOnRecord(s: Sys, recorded: seq<Event>)
    requires s == Sys([X, V, W, Y], 4, 0, {}, IDLE.(queue := [X, Y]))
    requires RecordedBySwitch(s, Parse([Good(X), Good(V), Good(W), Good(Y)]), [], recorded)
    ensures forall e :: e in recorded <==> e in {X, Y}
  {
    ParsesToFour(X, V, W, Y);
    hide Parse;
    assert s.m.queue + [] == [X, Y];
  }

  lemma LossySwitch(hash: Event -> string) returns (states: seq<Sys>, s: Sys)
    ensures EndsAt(hash, states, SilentSteps()[..8], s) && s.log == [X, V, W, Y] && s.delivered == 4
    ensures s.m.synchronized && s.m.queue == [] && Coherent(s.m) && s.m.lastTs == Some(102)
    ensures V !in s.m.ledger.recorded && W !in s.m.ledger.recorded && Y in s.m.ledger.recorded
  {
    states := BeforeTheSwitch(hash);
    var before := Sys([X, V, W, Y], 4, 0, {}, IDLE.(queue := [X, Y]));
    hide Inv, AfterPoll, Allowed, EndsAt, Parse, Coherent, RecordedBySwitch;
    NoPollKeepsInv(hash, states, SilentSteps()[..7], before);
    SwitchingAnswer(before);
    s := Switched(hash, before, 4, 100, [Good(X), Good(V), Good(W), Good(Y)]);
    OnlyQueuedOnRecord(before, s.m.ledger.recorded);
    SwitchOnRecord(s.m);
    states := GoesOn(hash, states, SilentSteps()[..7], before, SilentSteps()[7]);
    assert SilentSteps()[..7] + [SilentSteps()[7]] == SilentSteps()[..8];
  }

  lemma FallsSilent(hash: Event -> string) returns (states: seq<Sys>, s: Sys)
    ensures EndsAt(hash, states, SilentSteps()[..10], s) && s.log == [X, V, W, Y, Z] && s.delivered == 4
    ensures s.m.synchronized && s.m.timedOut && s.m.queue == [] && Coherent(s.m) && s.m.lastTs == Some(102)
    ensures V !in s.m.ledger.recorded && W !in s.m.ledger.recorded && Y in s.m.ledger.recorded
  {
    var s0: Sys;
    states, s0 := LossySwitch(hash);
    hide EndsAt, IsLedRun, InOrder, Distinct;
    assert Allowed(100, s0, Silence);
    states := GoesOn(hash, states, SilentSteps()[..8], s0, Silence);
    var s1 := s0.(m := s0.m.(timedOut := true));
    states := Appears(hash, states, SilentSteps()[..8] + [Silence], s1, Z);
    s := s1.(log := s1.log + [Z]);
    assert SilentSteps()[..8] + [Silence] + [Appear(Z)] == SilentSteps()[..10];
  }

  lemma LineBetween()
    ensures Arriving([[Good(Z)]], 0) == [Z] && NotOlder([[Good(Z)]], 102)
    ensures forall n: nat :: n > 0 ==> !LevelUntil([[Good(Z)]], n, 102)
  {
    assert [Good(Z)][..0] == [];
    assert FollowedOf([Good(Z)]) == FollowedOf([]) + [Z];
    assert Arriving([[Good(Z)]], 0) == [Z];
    assert Z in Arriving([[Good(Z)]], 0);
    assert forall k: nat :: k > 0 ==> Arriving([[Good(Z)]], k) == [];
  }

  lemma BatchOfTwo(hash: Event -> string, m: Merge)
    requires Coherent(m) && m.lastTs == Some(102)
    requires V !in m.ledger.recorded && W !in m.ledger.recorded && Y in m.ledger.recorded
    ensures
      var events := Batch(hash, m, [Good(V), Good(W), Good(Y)]);
      |events| >= 2 && LastOf(events) == 102 && Distinct(Parse([Good(V), Good(W), Good(Y)]))
  {
    var lines := [Good(V), Good(W), Good(Y)];
    ParsesToThree(V, W, Y);
    assert Fresh(m, V) && Fresh(m, W);
    BatchEndsWith(hash, m, lines, W);
    BatchMeans(hash, m, lines);
    hide Batch, Parse, Coherent, Fresh;
    assert V in Batch(hash, m, lines) && W in Batch(hash, m, lines);
  }

  lemma PolledOfSilence(s: Sys)
    requires s.log == [X, V, W, Y, Z] && s.delivered == 4 && s.m.lastTs == Some(102)
    ensures Allowed(100, s, SilentSteps()[10])
  {
    ParsesToThree(V, W, Y);
    assert s.log[..4] == [X, V, W, Y];
    OneLine(s.log, 4, Good(Z));
    assert Flat([[Good(Z)]]) == [Good(Z)] + Flat([]) == [Good(Z)];
  }

  lemma LineComesBetween(hash: Event -> string, m: Merge)
    requires Coherent(m) && m.synchronized && m.timedOut && m.queue == [] && m.lastTs == Some(102)
    requires V !in m.ledger.recorded && W !in m.ledger.recorded && Y in m.ledger.recorded
    requires m.arrivals == [[Good(Z)]]
    ensures !InOrder(Poll(hash, m, [Good(V), Good(W), Good(Y)]).ledger.recorded)
  {
    hide *;
    BatchOfTwo(hash, m);
    LineBetween();
    SilentPollOrderExactly(hash, m, [Good(V), Good(W), Good(Y)]);
  }

  lemma SilentPollIsOvertaken(hash: Event -> string) returns (states: seq<Sys>)
    ensures IsAllowedRun(hash, 100, states, SilentSteps())
    ensures !InOrder(states[11].m.ledger.recorded)
  {
    var s: Sys;
    states, s := FallsSilent(hash);
    PolledOfSilence(s);
    hide AfterPoll, Allowed, Coherent, Poll, InOrder, Distinct, EndsAt;
    IgnoresArrivals(s.m, s.m.(arrivals := [[Good(Z)]]));
    LineComesBetween(hash, s.m.(arrivals := [[Good(Z)]]));
    AnswerIs(hash, s, SilentSteps()[10]);
    AfterPollIs(hash, s, [Good(V), Good(W), Good(Y)], [[Good(Z)]]);
    states := GoesOn(hash, states, SilentSteps()[..10], s, SilentSteps()[10]);
    assert SilentSteps()[..10] + [SilentSteps()[10]] == SilentSteps();
  }

  // ---- A lossy connection ----

  // The connection is replaced between x and z and misses y, which the poll brings and the switch passes over.
  function LossySteps(): seq<Step> {
    [Appear(X), Stream(Good(X)), Appear(Y), Stream(Restarted(2)), Appear(Z), Stream(Good(Z)),
     Answer(3, 100, [Good(X), Good(Y), Good(Z)], [])]
  }

  lemma BeforeTheLoss(hash: Event -> string) returns (states: seq<Sys>)
    ensures EndsAt(hash, states, LossySteps()[..6], Sys([X, Y, Z], 3, 0, {}, IDLE.(queue := [X, Z])))
    ensures IsLedRun(hash, 100, states, LossySteps()[..6])
  {
    hide EndsAt, IsLedRun;
    var s := Sys([], 0, 0, {}, IDLE);
    states := Begins(hash);
    states := Appears(hash, states, [], s, X);
    states := IsQueued(hash, states, [] + [Appear(X)], s.(log := [] + [X]), X);
    s := Sys([] + [X], 1, 0, {}, IDLE.(queue := IDLE.queue + [X]));
    states := Appears(hash, states, [] + [Appear(X)] + [Stream(Good(X))], s, Y);
    s := s.(log := s.log + [Y]);
    states := StartsAgain(hash, states, [] + [Appear(X)] + [Stream(Good(X))] + [Appear(Y)], s);
    s := s.(delivered := 2);
    var steps := [] + [Appear(X)] + [Stream(Good(X))] + [Appear(Y)] + [Stream(Restarted(2))];
    states := Appears(hash, states, steps, s, Z);
    states := IsQueued(hash, states, steps + [Appear(Z)], s.(log := s.log + [Z]), Z);
    assert steps + [Appear(Z)] + [Stream(Good(Z))] == LossySteps()[..6];
    assert s.log + [Z] == [X, Y, Z] && s.m.queue + [Z] == [X, Z];
  }

  lemma LossyAnswer(hash: Event -> string, s: Sys)
    requires s == Sys([X, Y, Z], 3, 0, {}, IDLE.(queue := [X, Z]))
    ensures Allowed(100, s, LossySteps()[6]) && Led(hash, s, LossySteps()[6])
    ensures Y in Parse(LossySteps()[6].lines)
  {
    ParsesToThree(X, Y, Z);
    assert s.log[..3] == [X, Y, Z];
    assert Flat([]) == [];
  }

  lemma LossOnRecord(s: Sys, recorded: seq<Event>)
    requires s.m == IDLE.(queue := [X, Z])
    requires RecordedBySwitch(s, Parse([Good(X), Good(Y), Good(Z)]), [], recorded)
    ensures Y !in recorded
  {
    ParsesToThree(X, Y, Z);
  }

  lemma LossyReconnectLoses(hash: Event -> string) returns (states: seq<Sys>)
    ensures IsLedRun(hash, 100, states, LossySteps())
    ensures
      var s := states[7];
      && s.m.synchronized && 0 <= s.delivered <= |s.log|
      && Y in Parse(LossySteps()[6].lines) && Y in s.log[..s.delivered] && Y !in s.m.ledger.recorded
  {
    states := BeforeTheLoss(hash);
    var before := Sys([X, Y, Z], 3, 0, {}, IDLE.(queue := [X, Z]));
    var answer := LossySteps()[6];
    hide Inv, AfterPoll, Allowed, Led, EndsAt, Parse, Coherent, RecordedBySwitch;
    NoPollKeepsInv(hash, states, LossySteps()[..6], before);
    LossyAnswer(hash, before);
    var s := Switched(hash, before, 3, 100, [Good(X), Good(Y), Good(Z)]);
    LossOnRecord(before, s.m.ledger.recorded);
    assert s.log[..3][1] == Y;
    states := GoesOn(hash, states, LossySteps()[..6], before, answer);
    assert LossySteps()[..6] + [answer] == LossySteps();
  }
}
