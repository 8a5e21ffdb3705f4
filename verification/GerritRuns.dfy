/** The change source against a Gerrit server: events appear in the server's log, lines arrive on the stream,
    polls are answered out of order, the stream falls silent and is started again. The invariant of its runs, and
    the steps other than polls. */
module GerritRuns {
  import opened Prelude
  import opened Sorting
  import opened GerritLedger
  import opened GerritMerge
  import opened GerritExactness
  import opened GerritLimits
  import opened GerritStream

  // The server's event log; how much of it has come in on the stream or was missed by it; a place in it since
  // which lines have been queued; the events that a switch to the stream passed over and that have not been
  // recorded since; and the source.
  datatype Sys = Sys(log: seq<Event>, delivered: int, first: int, lost: set<Event>, m: Merge)

  datatype Step =
    | Appear(e: Event)
    | Stream(line: Line)
    | Answer(n: nat, since: int, lines: seq<Line>, arrivals: seq<seq<Line>>)
    | Silence

  // What a poll sent now would ask for: events from the last second on, or else from the start of the service.
  function Since(t0: int, m: Merge): int { if m.lastTs.Some? then m.lastTs.value else t0 }

  // The answer to a poll is taken when the log has n events and comes in any order. It was asked for at some
  // earlier time, so it may reach further back than a poll sent now.
  ghost predicate Answers(t0: int, s: Sys, n: nat, since: int, lines: seq<Line>) {
    && n <= |s.log| && Distinct(Parse(lines)) && t0 <= since <= Since(t0, s.m)
    && forall e :: e in Parse(lines) <==> e in s.log[..n] && e.ts >= since
  }

  // Missed by the stream on its way to place d, since lines have been queued.
  predicate Missed(s: Sys, d: int, arrived: seq<Event>, e: Event) {
    0 <= s.first <= d <= |s.log| && e in s.log[s.first..d] && e !in s.m.queue && e !in arrived
  }

  predicate Skipped(s: Sys, e: Event) { Missed(s, s.delivered, [], e) }

  // The events that a switch to the stream leaves to the stream: those later than the first queued second.
  function LeftToStream(s: Sys, d: int): set<Event> {
    set e | e in s.log && 0 <= s.first <= d <= |s.log| && e in s.log[s.first..d]
            && s.m.queue != [] && e.ts > s.m.queue[0].ts
  }

  function Moved(s: Sys, delivered: int, m: Merge, lost: set<Event>): Sys {
    Sys(s.log, delivered, if m.queue == [] then delivered else s.first, lost, m)
  }

  // Only a switch to the stream empties the queue. Lines still to come when the poll is over come later.
  function AfterPoll(hash: Event -> string, s: Sys, lines: seq<Line>, arrivals: seq<seq<Line>>): Sys {
    var m' := Poll(hash, s.m.(arrivals := arrivals), lines);
    var d' := PlaceAfter(s.delivered, CameIn(arrivals, m'.arrivals));
    var lost := if s.m.queue != [] && m'.queue == [] then s.lost + LeftToStream(s, d') else s.lost;
    Moved(s, d', m'.(arrivals := []), set e | e in lost && e !in m'.ledger.recorded)
  }

  function Next(hash: Event -> string, s: Sys, step: Step): Sys {
    match step
    case Appear(e) => s.(log := s.log + [e])
    case Stream(line) => Moved(s, PlaceAfter(s.delivered, [line]), StreamLine(s.m, line), s.lost)
    case Answer(_, _, lines, arrivals) => AfterPoll(hash, s, lines, arrivals)
    case Silence => s.(m := s.m.(timedOut := true))
  }

  // What the server and the network do. New events are never older than earlier ones, nor than the start of
  // the service, and no two are equal. A stream that is started again may have missed a part of the log.
  ghost predicate Allowed(t0: int, s: Sys, step: Step) {
    match step
    case Appear(e) => e !in s.log && t0 <= e.ts && (s.log != [] ==> s.log[|s.log| - 1].ts <= e.ts)
    case Stream(line) => BringsNext(s.log, s.delivered, line)
    case Answer(n, since, lines, arrivals) =>
      Answers(t0, s, n, since, lines) && Brings(s.log, s.delivered, Flat(arrivals))
    case Silence => true
  }

  // ---- Polls that do not overtake the stream ----

  // By place d the stream has got to everything recorded and everything polled up to the first queued second.
  ghost predicate GotTo(s: Sys, polled: seq<Event>, d: int) {
    && 0 <= d <= |s.log| && s.m.queue != []
    && (forall e :: e in s.m.ledger.recorded ==> e in s.log[..d])
    && (forall e :: e in polled && e.ts <= s.m.queue[0].ts ==> e in s.log[..d])
  }

  // A switch finds no queued line older than what has been recorded; and when the stream is followed from then
  // on, it has got by then to what the poll brings.
  ghost predicate TimelySwitch(s: Sys, polled: seq<Event>, last: int, d: int) {
    && s.m.queue != [] && Newest(s.m, s.m.queue[0].ts)
    && (!(s.m.timedOut && Newer(s.m, last)) ==> GotTo(s, polled, d))
  }

  // While a batch with nothing newer is handed on, a silent stream is still followed until it is started again.
  // No later line is followed before the last event of the batch is out, and no event of the batch is followed;
  // and a stream still followed at the end has got to all of it.
  ghost predicate TimelySilence(s: Sys, events: seq<Event>, arrivals: seq<seq<Line>>, d: int) {
    && events != [] && s.m.lastTs.Some? && LevelUntil(arrivals, |events| - 1, s.m.lastTs.value)
    && (forall k: nat, e :: k < |events| && e in Arriving(arrivals, k) ==> e !in events)
    && (UnbrokenUntil(arrivals, |events|) ==> 0 <= d <= |s.log| && forall e :: e in events ==> e in s.log[..d])
  }

  // The poll does not overtake the stream.
  ghost predicate Timely(hash: Event -> string, s: Sys, lines: seq<Line>, arrivals: seq<seq<Line>>) {
    var (events, d) := (Batch(hash, s.m, lines), AfterPoll(hash, s, lines, arrivals).delivered);
    (!s.m.synchronized || s.m.timedOut) && events != [] ==>
      && (s.m.synchronized && !Newer(s.m, LastOf(events)) ==> TimelySilence(s, events, arrivals, d))
      && (HandsOver(s.m, LastOf(events)) ==> TimelySwitch(s, Parse(lines), LastOf(events), d))
  }

  ghost predicate Enabled(hash: Event -> string, t0: int, s: Sys, step: Step) {
    Allowed(t0, s, step) && (step.Answer? ==> Timely(hash, s, step.lines, step.arrivals))
  }

  ghost predicate Init(s: Sys) {
    && InOrder(s.log) && Distinct(s.log) && s.delivered == s.first == |s.log| && s.lost == {}
    && s.m == Merge(None, [], s.m.hashes, [], false, false, EMPTY, [])
    && (s.m.hashes.Some? ==> s.m.hashes.value == [])
  }

  // A run of whatever server and network may do.
  ghost predicate IsAllowedRun(hash: Event -> string, t0: int, states: seq<Sys>, steps: seq<Step>) {
    && |states| == |steps| + 1 && Init(states[0])
    && forall i :: 0 <= i < |steps| ==>
         Allowed(t0, states[i], steps[i]) && states[i + 1] == Next(hash, states[i], steps[i])
  }

  // A run of which every poll is timely.
  ghost predicate IsRun(hash: Event -> string, t0: int, states: seq<Sys>, steps: seq<Step>) {
    && IsAllowedRun(hash, t0, states, steps)
    && forall i :: 0 <= i < |steps| ==> Enabled(hash, t0, states[i], steps[i])
  }

  // ---- The invariant ----

  // The events among the first h that are not older than the service have been recorded, but for the lost.
  ghost predicate RecordedUpTo(t0: int, s: Sys, h: int) {
    && 0 <= h <= |s.log|
    && (forall e :: e in s.m.ledger.recorded || e in s.lost <==> e in s.log[..h] && e.ts >= t0)
    && (forall e :: e in s.lost ==> e !in s.m.ledger.recorded)
  }

  // The queue holds lines of the log, in order, from where the stream has been since it holds any.
  ghost predicate QueueIsLive(t0: int, s: Sys) {
    && Brought(s.log, s.first, s.m.queue, s.delivered) && (s.m.queue == [] ==> s.first == s.delivered)
    && (forall i :: s.first <= i < |s.log| ==> t0 <= s.log[i].ts)
    && (forall e :: e in s.lost ==> e in s.log[..s.delivered])
  }

  ghost predicate InvAt(t0: int, s: Sys, h: int) {
    && InOrder(s.log) && Distinct(s.log)
    && s.m.arrivals == [] && Coherent(s.m)
    && QueueIsLive(t0, s) && RecordedUpTo(t0, s, h)
    && (s.m.synchronized ==> s.m.queue == [] && h == s.delivered)
  }

  ghost predicate Inv(t0: int, s: Sys) { exists h :: InvAt(t0, s, h) }

  lemma PartsOfInv(t0: int, s: Sys, h: int)
    requires InvAt(t0, s, h)
    ensures InOrder(s.log) && Distinct(s.log) && s.m.arrivals == [] && Coherent(s.m)
    ensures QueueIsLive(t0, s) && RecordedUpTo(t0, s, h) && 0 <= s.first <= s.delivered <= |s.log| && 0 <= h <= |s.log|
    ensures s.m.synchronized ==> s.m.queue == [] && h == s.delivered
  {
  }

  lemma InvFromParts(t0: int, s: Sys, h: int)
    requires InOrder(s.log) && Distinct(s.log) && s.m.arrivals == [] && Coherent(s.m)
    requires QueueIsLive(t0, s) && RecordedUpTo(t0, s, h)
    requires s.m.synchronized ==> s.m.queue == [] && h == s.delivered
    ensures InvAt(t0, s, h)
  {
  }

  lemma LastSecondIsRecorded(t0: int, s: Sys, h: int)
    requires InvAt(t0, s, h) && s.m.lastTs.Some?
    ensures exists i :: 0 <= i < h && s.log[i].ts == s.m.lastTs.value >= t0
    ensures forall i :: h <= i < |s.log| ==> s.m.lastTs.value <= s.log[i].ts
  {
    var e := s.m.ledger.recorded[|s.m.ledger.recorded| - 1];
    assert e in s.m.ledger.recorded;
    assert e in s.log[..h];
    var i :| 0 <= i < h && s.log[i] == e;
  }

  lemma LaterIsFresh(t0: int, s: Sys, h: int, i: int)
    requires InvAt(t0, s, h) && h <= i < |s.log|
    ensures Fresh(s.m, s.log[i]) && (s.log[i].ts >= t0 ==> s.log[i].ts >= Since(t0, s.m)) && s.log[i] !in s.lost
  {
    if s.m.lastTs.Some? {
      LastSecondIsRecorded(t0, s, h);
    }
    assert s.log[i] !in s.log[..h];
  }

  lemma EarlierIsKnown(t0: int, s: Sys, h: int, i: int)
    requires RecordedUpTo(t0, s, h) && 0 <= i < h && s.log[i].ts >= t0
    ensures s.log[i] in s.m.ledger.recorded || s.log[i] in s.lost
  {
    assert s.log[..h][i] == s.log[i];
  }

  // ---- Steps other than polls ----

  lemma LogGrows(log: seq<Event>, e: Event)
    requires InOrder(log) && Distinct(log) && e !in log && (log != [] ==> log[|log| - 1].ts <= e.ts)
    ensures InOrder(log + [e]) && Distinct(log + [e])
  {
  }

  lemma QueueStaysLive(t0: int, s: Sys, e: Event)
    requires QueueIsLive(t0, s) && t0 <= e.ts
    ensures QueueIsLive(t0, s.(log := s.log + [e]))
  {
    assert (s.log + [e])[s.first..s.delivered] == s.log[s.first..s.delivered];
    assert (s.log + [e])[..s.delivered] == s.log[..s.delivered];
  }

  lemma RecordStays(t0: int, s: Sys, h: int, e: Event)
    requires RecordedUpTo(t0, s, h)
    ensures RecordedUpTo(t0, s.(log := s.log + [e]), h)
  {
    assert (s.log + [e])[..h] == s.log[..h];
  }

  lemma AppearKeepsInv(t0: int, s: Sys, h: int, e: Event)
    requires InvAt(t0, s, h)
    requires e !in s.log && t0 <= e.ts && (s.log != [] ==> s.log[|s.log| - 1].ts <= e.ts)
    ensures InvAt(t0, s.(log := s.log + [e]), h)
  {
    hide InOrder, Distinct, Coherent, QueueIsLive, RecordedUpTo;
    LogGrows(s.log, e);
    QueueStaysLive(t0, s, e);
    RecordStays(t0, s, h, e);
  }

  // Lines from the place the stream has got to join the queue.
  lemma QueueJoined(t0: int, s: Sys, more: seq<Event>, s': Sys)
    requires QueueIsLive(t0, s) && InOrder(s.log) && Distinct(s.log)
    requires s'.log == s.log && Brought(s.log, s.delivered, more, s'.delivered) && s'.m.queue == s.m.queue + more
    requires s'.first == (if s'.m.queue == [] then s'.delivered else s.first)
    requires forall e :: e in s'.lost ==> e in s.lost
    ensures QueueIsLive(t0, s')
  {
    BroughtJoins(s.log, s.first, s.m.queue, s.delivered, more, s'.delivered);
    NothingInOrder();
    hide InOrder, Distinct;
    assert s'.log[..s.delivered] <= s'.log[..s'.delivered];
  }

  lemma NothingInOrder()
    ensures InOrder([]) && Distinct<Event>([])
  {
  }

  lemma LineRecorded(t0: int, s: Sys, s': Sys)
    requires RecordedUpTo(t0, s, s.delivered) && 0 <= s.delivered < |s.log| && s.log[s.delivered].ts >= t0
    requires s'.log == s.log && s'.lost == s.lost && s.log[s.delivered] !in s.lost
    requires s'.m.ledger.recorded == s.m.ledger.recorded + [s.log[s.delivered]]
    ensures RecordedUpTo(t0, s', s.delivered + 1)
  {
    assert s.log[..s.delivered + 1] == s.log[..s.delivered] + [s.log[s.delivered]];
  }

  lemma NoQueueIsLive(t0: int, s: Sys, s': Sys)
    requires QueueIsLive(t0, s) && s.m.queue == [] && s'.m.queue == []
    requires s'.log == s.log && s.delivered <= s'.delivered == s'.first <= |s.log|
    requires forall e :: e in s'.lost ==> e in s.lost
    ensures QueueIsLive(t0, s')
  {
    assert s'.log[..s.delivered] <= s'.log[..s'.delivered];
  }

  lemma SynchronizedLineKeepsInv(t0: int, s: Sys, h: int, e: Event)
    requires InvAt(t0, s, h) && s.m.synchronized && s.delivered < |s.log| && e == s.log[s.delivered]
    ensures InvAt(t0, Moved(s, s.delivered + 1, StreamLine(s.m, Good(e)), s.lost), s.delivered + 1)
  {
    var s' := Moved(s, s.delivered + 1, Follow(s.m, e), s.lost);
    LaterIsFresh(t0, s, h, s.delivered);
    FollowOnlyRecords(s.m, e);
    NoQueueIsLive(t0, s, s');
    assert s.log[s.delivered].ts >= t0;
    hide Coherent, InOrder, Distinct, QueueIsLive, Follow, RecordedUpTo;
    FollowKeepsCoherent(s.m, e);
    LineRecorded(t0, s, s');
  }

  lemma RecordedIgnores(t0: int, s: Sys, s': Sys, h: int)
    requires RecordedUpTo(t0, s, h)
    requires s'.log == s.log && s'.lost == s.lost && s'.m.ledger.recorded == s.m.ledger.recorded
    ensures RecordedUpTo(t0, s', h)
  {
  }

  // The queue grows, or the stream is started again; nothing is recorded.
  lemma UnfollowedKeepsInv(t0: int, s: Sys, h: int, more: seq<Event>, d: int, m': Merge)
    requires InvAt(t0, s, h) && Brought(s.log, s.delivered, more, d)
    requires m' == s.m.(queue := s.m.queue + more, synchronized := false)
    ensures InvAt(t0, Moved(s, d, m', s.lost), h)
  {
    var s' := Moved(s, d, m', s.lost);
    PartsOfInv(t0, s, h);
    assert Coherent(m') by { assert Coherent(s.m); }
    hide InvAt, QueueIsLive, InOrder, Distinct, RecordedUpTo, Coherent, Brought;
    QueueJoined(t0, s, more, s');
    RecordedIgnores(t0, s, s', h);
    InvFromParts(t0, s', h);
  }

  lemma NoiseKeepsInv(t0: int, s: Sys, h: int, line: Line)
    requires InvAt(t0, s, h) && !line.Good? && !line.Restarted?
    ensures InvAt(t0, Moved(s, s.delivered, StreamLine(s.m, line), s.lost), h)
  {
    hide InOrder, Distinct, Brought;
  }

  // Where the stream is after this line.
  function PlaceOf(d: int, line: Line): int { match line case Good(_) => d + 1 case Restarted(at) => at case _ => d }

  lemma QueueingIs(m: Merge, e: Event)
    requires !m.synchronized
    ensures StreamLine(m, Good(e)) == m.(queue := m.queue + [e], synchronized := false)
  {
  }

  lemma UnsynchronizedLineKeepsInv(t0: int, s: Sys, h: int, e: Event)
    requires InvAt(t0, s, h) && !s.m.synchronized && s.delivered < |s.log| && e == s.log[s.delivered]
    ensures InvAt(t0, Moved(s, s.delivered + 1, StreamLine(s.m, Good(e)), s.lost), h)
  {
    hide *;
    PartsOfInv(t0, s, h);
    OneBrought(s.log, s.delivered);
    QueueingIs(s.m, e);
    UnfollowedKeepsInv(t0, s, h, [e], s.delivered + 1, StreamLine(s.m, Good(e)));
  }

  lemma RestartKeepsInv(t0: int, s: Sys, h: int, at: nat)
    requires InvAt(t0, s, h) && s.delivered <= at <= |s.log|
    ensures InvAt(t0, Moved(s, at, StreamLine(s.m, Restarted(at)), s.lost), h)
  {
    PartsOfInv(t0, s, h);
    hide InvAt, Moved;
    NothingBrought(s.log, s.delivered, at);
    assert s.m.queue + [] == s.m.queue;
    UnfollowedKeepsInv(t0, s, h, [], at, StreamLine(s.m, Restarted(at)));
  }

  lemma LineKeepsInv(t0: int, s: Sys, h: int, line: Line)
    requires InvAt(t0, s, h) && BringsNext(s.log, s.delivered, line)
    ensures InvAt(t0, Moved(s, PlaceOf(s.delivered, line), StreamLine(s.m, line), s.lost),
                  if s.m.synchronized && line.Good? then s.delivered + 1 else h)
  {
    hide InvAt, StreamLine, Moved;
    match line
    case Good(e) =>
      if s.m.synchronized {
        SynchronizedLineKeepsInv(t0, s, h, e);
      } else {
        UnsynchronizedLineKeepsInv(t0, s, h, e);
      }
    case Restarted(at) =>
      RestartKeepsInv(t0, s, h, at);
    case _ =>
      NoiseKeepsInv(t0, s, h, line);
  }

  lemma FirstMovesOn(t0: int, s: Sys, h: int, line: Line)
    requires InvAt(t0, s, h) && BringsNext(s.log, s.delivered, line)
    ensures
      var first := Moved(s, PlaceOf(s.delivered, line), StreamLine(s.m, line), s.lost).first;
      && s.first <= first
      && (h <= s.first ==> (if s.m.synchronized && line.Good? then s.delivered + 1 else h) <= first)
  {
    PartsOfInv(t0, s, h);
    hide InvAt, Follow;
    if s.m.synchronized && line.Good? {
      FollowOnlyRecords(s.m, line.event);
    }
  }

  lemma StreamIs(hash: Event -> string, s: Sys, line: Line)
    ensures Next(hash, s, Stream(line)) == Moved(s, PlaceOf(s.delivered, line), StreamLine(s.m, line), s.lost)
  {
    OneLine(s.log, s.delivered, line);
    hide PlaceAfter, StreamLine, Moved;
  }

  lemma StreamKeepsInv(hash: Event -> string, t0: int, s: Sys, h: int, line: Line) returns (h': int)
    requires InvAt(t0, s, h) && BringsNext(s.log, s.delivered, line)
    ensures InvAt(t0, Next(hash, s, Stream(line)), h')
    ensures h <= s.first ==> h' <= Next(hash, s, Stream(line)).first
    ensures s.first <= Next(hash, s, Stream(line)).first
  {
    hide *;
    StreamIs(hash, s, line);
    LineKeepsInv(t0, s, h, line);
    FirstMovesOn(t0, s, h, line);
    h' := if s.m.synchronized && line.Good? then s.delivered + 1 else h;
  }

  lemma SilenceKeepsInv(t0: int, s: Sys, h: int)
    requires InvAt(t0, s, h)
    ensures InvAt(t0, s.(m := s.m.(timedOut := true)), h)
  {
  }

  lemma InitInv(t0: int, s: Sys)
    requires Init(s)
    ensures Inv(t0, s)
  {
    NothingInOrder();
    hide InOrder, Distinct;
    assert InvAt(t0, s, 0);
  }
}
