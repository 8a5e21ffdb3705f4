/** Merging Gerrit's polled event log with its live stream: the state of the change source as a value, and
    what a stream line and a poll do to it. */
module GerritMerge {
  import opened Prelude
  import opened Sorting
  import opened GerritLedger

  // A received line: not JSON, JSON without a type or a timestamp, or an event. Between two lines the
  // timestamp write of a waiting event may finish, or the stream process be started again; its lines go on
  // at some place of the server's log.
  datatype Line = Unparsable | NotAnEvent | Good(event: Event) | WriteDone(i: nat) | Restarted(at: nat)

  // ledger is what has become of the events accepted so far. arrivals is the environment: the stream lines
  // that come in at each of the coming yields.
  datatype Merge = Merge(
    lastTs: Option<int>,
    lastSecond: seq<Event>,
    hashes: Option<seq<string>>,
    queue: seq<Event>,
    synchronized: bool,
    timedOut: bool,
    ledger: Ledger,
    arrivals: seq<seq<Line>>)

  function Parse(lines: seq<Line>): seq<Event> {
    if lines == [] then []
    else Parse(lines[..|lines| - 1]) +
         (match lines[|lines| - 1] case Good(e) => [e] case _ => [])
  }

  function Record(m: Merge, e: Event): Merge {
    if m.lastTs != Some(e.ts) then m.(lastTs := Some(e.ts), lastSecond := [e], hashes := None)
    else m.(lastSecond := m.lastSecond + [e])
  }

  // A polled or queued event is recorded and handed on.
  function Emit(m: Merge, e: Event): Merge { Record(m, e).(ledger := Keep(m.ledger, Polled(e))) }

  // A line of a followed stream is recorded; it is handed on once its timestamp is written.
  function Follow(m: Merge, e: Event): Merge {
    Record(m.(timedOut := false), e).(ledger := Keep(m.ledger, Followed(e)))
  }

  function StreamLine(m: Merge, line: Line): Merge {
    match line
    case Good(e) => if !m.synchronized then m.(queue := m.queue + [e]) else Follow(m, e)
    case WriteDone(i) => m.(ledger := Keep(m.ledger, Written(i)))
    case Restarted(_) => m.(synchronized := false)
    case _ => m
  }

  function StreamLines(m: Merge, lines: seq<Line>): Merge {
    if lines == [] then m else StreamLine(StreamLines(m, lines[..|lines| - 1]), lines[|lines| - 1])
  }

  // Giving up control lets the next batch of stream lines in.
  function Yield(m: Merge): Merge {
    if m.arrivals == [] then m else StreamLines(m.(arrivals := m.arrivals[1..]), m.arrivals[0])
  }

  // An event of an earlier second, or one of the last second that has been handed on.
  predicate Seen(hash: Event -> string, m: Merge, e: Event) {
    m.lastTs.Some? &&
    (e.ts < m.lastTs.value ||
     (e.ts == m.lastTs.value && ((m.hashes.Some? && hash(e) in m.hashes.value) || e in m.lastSecond)))
  }

  function Unseen(hash: Event -> string, m: Merge, events: seq<Event>): seq<Event> {
    if events == [] then []
    else
      var n := |events| - 1;
      Unseen(hash, m, events[..n]) + if Seen(hash, m, events[n]) then [] else [events[n]]
  }

  function ByTime(): (Event, Event) -> bool { (x: Event, y: Event) => x.ts <= y.ts }

  function UpTo(events: seq<Event>, ts: int): seq<Event> {
    if events == [] then []
    else
      var n := |events| - 1;
      UpTo(events[..n], ts) + if events[n].ts <= ts then [events[n]] else []
  }

  // Hands on one event after the other, yielding after each.
  function EmitAll(m: Merge, events: seq<Event>): Merge {
    if events == [] then m else Yield(Emit(EmitAll(m, events[..|events| - 1]), events[|events| - 1]))
  }

  // Hands on the queue from entry i, which may grow meanwhile.
  function Drain(m: Merge, i: nat): Merge
    decreases |m.arrivals|, if i < |m.queue| then |m.queue| - i else 0
  {
    if i >= |m.queue| then m
    else
      var e := m.queue[i];
      if m.lastTs == Some(e.ts) && e in m.lastSecond then Drain(m, i + 1)
      else
        YieldConsumes(Emit(m, e));
        Drain(Yield(Emit(m, e)), i + 1)
  }

  lemma {:induction false} StreamLinesKeepArrivals(m: Merge, lines: seq<Line>)
    ensures StreamLines(m, lines).arrivals == m.arrivals
  {
    if lines != [] { StreamLinesKeepArrivals(m, lines[..|lines| - 1]); }
  }

  lemma YieldConsumes(m: Merge)
    ensures if m.arrivals == [] then Yield(m) == m else Yield(m).arrivals == m.arrivals[1..]
  {
    if m.arrivals != [] { StreamLinesKeepArrivals(m.(arrivals := m.arrivals[1..]), m.arrivals[0]); }
  }

  function Batch(hash: Event -> string, m: Merge, lines: seq<Line>): seq<Event> {
    Sort(ByTime(), Unseen(hash, m, Parse(lines)))
  }

  predicate Newer(m: Merge, ts: int) { m.lastTs.Some? ==> ts > m.lastTs.value }

  // The state in which a batch is handed on: a timed-out stream that missed newer events is restarted.
  function Opened(m: Merge, ts: int): Merge {
    if m.timedOut && Newer(m, ts) then m.(synchronized := false, timedOut := false) else m
  }

  predicate HandsOver(m: Merge, ts: int) { m.queue != [] && ts > m.queue[0].ts }

  function SaveTs(m: Merge): Merge { m.(ledger := Keep(m.ledger, Saves(m.lastTs))) }

  function TakeBatch(m: Merge, events: seq<Event>): Merge
    requires events != []
  {
    var last := events[|events| - 1].ts;
    var restart := m.timedOut && Newer(m, last);
    var m1 := Opened(m, last);
    if !HandsOver(m1, last) then SaveTs(EmitAll(m1, events))
    else
      var m2 := Drain(EmitAll(m1, UpTo(events, m1.queue[0].ts)), 0);
      SaveTs(m2.(queue := [], synchronized := if restart then m2.synchronized else true))
  }

  function Poll(hash: Event -> string, m: Merge, lines: seq<Line>): Merge {
    var events := Batch(hash, m, lines);
    if (m.synchronized && !m.timedOut) || events == [] then m else TakeBatch(m, events)
  }
}
