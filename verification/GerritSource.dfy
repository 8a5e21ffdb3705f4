/** The change source itself: its fields, and the methods that a stream line and a poll answer run. */
module GerritSources {
  import opened Prelude
  import opened Sorting
  import opened GerritLedger
  import opened GerritMerge

  class GerritChangeSource {
    var lastEventTs: Option<int>
    var lastSecondEvents: seq<Event>
    // Of events handed on by an earlier run of the service.
    var lastSecondEventHashes: Option<seq<string>>
    var queuedStreamEvents: seq<Event>
    var isSynchronized: bool
    var streamMessagesTimeout: bool
    var lastEventTsSaved: Option<int>
    // Lines of the followed stream whose timestamp is being written; what has been handed on; what has been
    // recorded, in that order; and the stream lines that will come in at each of the coming yields.
    var waiting: seq<Event>
    var received: seq<Event>
    ghost var recorded: seq<Event>
    var arrivals: seq<seq<Line>>
    // Whether there is a poll connector.
    const polls: bool

    ghost function View(): Merge
      reads this
    {
      Merge(lastEventTs, lastSecondEvents, lastSecondEventHashes, queuedStreamEvents, isSynchronized,
            streamMessagesTimeout, Ledger(recorded, received, waiting, lastEventTsSaved), arrivals)
    }

    constructor (polls: bool)
      ensures this.polls == polls
      ensures View() == Merge(None, [], Some([]), [], !polls, false, EMPTY, [])
    {
      this.polls := polls;
      lastEventTs, lastSecondEvents, lastSecondEventHashes := None, [], Some([]);
      queuedStreamEvents, isSynchronized, streamMessagesTimeout := [], !polls, false;
      lastEventTsSaved, waiting, received, recorded, arrivals := None, [], [], [], [];
    }

    method RecordLastSecondEvent(event: Event, ts: int)
      requires ts == event.ts
      modifies this
      ensures View() == Record(old(View()), event)
    {
      if lastEventTs != Some(ts) {
        lastEventTs := Some(ts);
        lastSecondEvents := [];
        lastSecondEventHashes := None;
      }
      lastSecondEvents := lastSecondEvents + [event];
    }

    method EventReceived(event: Event)
      modifies `received
      ensures received == old(received) + [event]
    {
      received := received + [event];
    }

    // Starts a write of the last timestamp, unless one has been started for it before.
    method UpdateLastEventTs() returns (writes: bool)
      modifies `lastEventTsSaved
      ensures writes == (old(lastEventTsSaved) != lastEventTs) && lastEventTsSaved == lastEventTs
    {
      writes := lastEventTs != lastEventTsSaved;
      if writes {
        lastEventTsSaved := lastEventTs;
      }
    }

    method StreamProcessStarted()
      modifies `isSynchronized
      ensures isSynchronized == (old(isSynchronized) && !polls)
    {
      if !polls {
        return;
      }
      isSynchronized := false;
    }

    method LineReceivedStream(line: Line)
      requires line.Restarted? ==> polls
      modifies this
      ensures View() == StreamLine(old(View()), line)
    {
      match line
      case Good(event) =>
        if !isSynchronized {
          queuedStreamEvents := queuedStreamEvents + [event];
          return;
        }
        streamMessagesTimeout := false;
        RecordLastSecondEvent(event, event.ts);
        recorded := recorded + [event];
        var writes := UpdateLastEventTs();
        if writes {
          waiting := waiting + [event];
        } else {
          EventReceived(event);
        }
      case WriteDone(i) =>
        WriteFinished(i);
      case Restarted(_) =>
        StreamProcessStarted();
      case _ =>
    }

    // What follows the write of a waiting line's timestamp.
    method WriteFinished(i: nat)
      modifies this
      ensures View() == StreamLine(old(View()), WriteDone(i))
    {
      if i < |waiting| {
        var event := waiting[i];
        waiting := waiting[..i] + waiting[i + 1..];
        EventReceived(event);
      }
    }

    method YieldControl()
      requires polls
      modifies this
      ensures View() == Yield(old(View()))
    {
      if arrivals != [] {
        var lines := arrivals[0];
        arrivals := arrivals[1..];
        ghost var m := View();
        for i := 0 to |lines|
          invariant View() == StreamLines(m, lines[..i])
        {
          assert lines[..i + 1][..i] == lines[..i];
          LineReceivedStream(lines[i]);
        }
        assert lines[..|lines|] == lines;
      }
    }

    method FilterOutAlreadyReceivedEvents(hash: Event -> string, events: seq<Event>) returns (filtered: seq<Event>)
      ensures filtered == Unseen(hash, View(), events)
    {
      if lastEventTs == None {
        NoneSeen(hash, View(), events);
        return events;
      }
      filtered := [];
      for i := 0 to |events|
        invariant filtered == Unseen(hash, View(), events[..i])
      {
        assert events[..i + 1][..i] == events[..i];
        var event := events[i];
        if event.ts < lastEventTs.value {
          continue;
        }
        if event.ts == lastEventTs.value {
          if lastSecondEventHashes.Some? {
            if hash(event) in lastSecondEventHashes.value {
              continue;
            }
          }
          if event in lastSecondEvents {
            continue;
          }
        }
        filtered := filtered + [event];
      }
      assert events[..|events|] == events;
    }

    static method ParseLines(lines: seq<Line>) returns (events: seq<Event>)
      ensures events == Parse(lines)
    {
      events := [];
      for i := 0 to |lines|
        invariant events == Parse(lines[..i])
      {
        assert lines[..i + 1][..i] == lines[..i];
        match lines[i]
        case Good(event) => events := events + [event];
        case _ => events := events + [];
      }
      assert lines[..|lines|] == lines;
    }

    method LinesReceivedPoll(hash: Event -> string, lines: seq<Line>)
      requires polls
      modifies this
      ensures View() == Poll(hash, old(View()), lines)
    {
      if isSynchronized && !streamMessagesTimeout {
        return;
      }
      hide Parse, Unseen, Sort, TakeBatch;
      var parsed := ParseLines(lines);
      var unseen := FilterOutAlreadyReceivedEvents(hash, parsed);
      var events := Sort(ByTime(), unseen);
      if events != [] {
        SubmitBatch(events);
      }
    }

    // The rest of the poll handler, once there is a batch.
    method SubmitBatch(events: seq<Event>)
      requires polls
      requires events != []
      modifies this
      ensures View() == TakeBatch(old(View()), events)
    {
      hide UpTo, EmitAll, Drain;
      var maxEventTs := events[|events| - 1].ts;
      var gotNewer := true;
      if lastEventTs != None {
        gotNewer := maxEventTs > lastEventTs.value;
      }
      var needsStreamRestart := false;
      if streamMessagesTimeout && gotNewer {
        isSynchronized, streamMessagesTimeout, needsStreamRestart := false, false, true;
      }
      ghost var m1 := View();
      assert m1 == Opened(old(View()), maxEventTs);
      if queuedStreamEvents == [] || maxEventTs <= queuedStreamEvents[0].ts {
        HandOnAll(events);
        var _ := UpdateLastEventTs();
        return;
      }
      var firstQueuedTs := queuedStreamEvents[0].ts;
      HandOnUpTo(events, firstQueuedTs);
      DrainQueue();
      queuedStreamEvents := [];
      if !needsStreamRestart {
        isSynchronized := true;
      }
      var _ := UpdateLastEventTs();
    }

    // The loops of LinesReceivedPoll.
    method HandOnAll(events: seq<Event>)
      requires polls
      modifies this
      ensures View() == EmitAll(old(View()), events)
    {
      ghost var m := View();
      for i := 0 to |events|
        invariant View() == EmitAll(m, events[..i])
      {
        assert events[..i + 1][..i] == events[..i];
        HandOn(events[i]);
      }
      assert events[..|events|] == events;
    }

    method HandOnUpTo(events: seq<Event>, firstQueuedTs: int)
      requires polls
      modifies this
      ensures View() == EmitAll(old(View()), UpTo(events, firstQueuedTs))
    {
      ghost var m := View();
      for i := 0 to |events|
        invariant View() == EmitAll(m, UpTo(events[..i], firstQueuedTs))
      {
        UpToOneMore(events, i, firstQueuedTs);
        if events[i].ts <= firstQueuedTs {
          EmitAllOneMore(m, UpTo(events[..i], firstQueuedTs), events[i]);
          HandOn(events[i]);
        }
      }
      assert events[..|events|] == events;
    }

    method HandOn(event: Event)
      requires polls
      modifies this
      ensures View() == Yield(Emit(old(View()), event))
    {
      RecordLastSecondEvent(event, event.ts);
      recorded := recorded + [event];
      EventReceived(event);
      YieldControl();
    }

    method DrainQueue()
      requires polls
      modifies this
      ensures View() == Drain(old(View()), 0)
    {
      ghost var m := View();
      var i := 0;
      while i < |queuedStreamEvents|
        invariant Drain(View(), i) == Drain(m, 0)
        decreases |arrivals|, |queuedStreamEvents| - i
      {
        var event := queuedStreamEvents[i];
        if lastEventTs == Some(event.ts) && event in lastSecondEvents {
          i := i + 1;
          continue;
        }
        ghost var before := View();
        YieldConsumes(Emit(before, event));
        HandOn(event);
        YieldWithoutArrivals(before, event);
        i := i + 1;
      }
    }
  }

  lemma {:induction false} NoneSeen(hash: Event -> string, m: Merge, events: seq<Event>)
    requires m.lastTs == None
    ensures Unseen(hash, m, events) == events
  {
    if events != [] {
      NoneSeen(hash, m, events[..|events| - 1]);
    }
  }

  lemma UpToOneMore(events: seq<Event>, i: nat, ts: int)
    requires i < |events|
    ensures UpTo(events[..i + 1], ts)
         == if events[i].ts <= ts then UpTo(events[..i], ts) + [events[i]] else UpTo(events[..i], ts)
  {
    assert events[..i + 1][..i] == events[..i];
  }

  lemma EmitAllOneMore(m: Merge, events: seq<Event>, e: Event)
    ensures EmitAll(m, events + [e]) == Yield(Emit(EmitAll(m, events), e))
  {
    assert (events + [e])[..|events|] == events;
  }

  lemma YieldWithoutArrivals(m: Merge, e: Event)
    ensures m.arrivals == [] ==> Yield(Emit(m, e)).queue == m.queue
  {
  }
}
