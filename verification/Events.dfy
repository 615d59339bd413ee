/** The ring of recent events (events.go:13-48). */
module Events {
  const MAX_EVENTS := 256

  datatype Event = Event(time: int, level: string, message: string, attrs: map<string, string>)

  function Recent(history: seq<Event>): seq<Event> {
    if |history| <= MAX_EVENTS then history else history[|history| - MAX_EVENTS..]
  }

  class EventLog {
    var events: seq<Event>
    var next: nat
    ghost var history: seq<Event>

    constructor ()
      ensures Valid() && history == []
    {
      events, next, history := [], 0, [];
    }

    /** Read from `next` around, the ring holds the most recent events. */
    ghost predicate Valid()
      reads this
    {
      && next <= |events| <= MAX_EVENTS && (|events| < MAX_EVENTS ==> next == 0 && |history| == |events|)
      && next < MAX_EVENTS && events[next..] + events[..next] == Recent(history)
    }

    method Add(event: Event)
      requires Valid()
      modifies this
      ensures Valid() && history == old(history) + [event]
    {
      hide Recent;
      history := history + [event];
      if |events| < MAX_EVENTS {
        Appended(old(history), event, events);
        events := events + [event];
        return;
      }
      Overwritten(old(history), event, events, next);
      events := events[next := event];
      next := (next + 1) % MAX_EVENTS;
    }

    /** The events kept, oldest first. */
    method List() returns (list: seq<Event>)
      requires Valid()
      ensures list == Recent(history)
      ensures list == if |history| <= 256 then history else history[|history| - 256..]
    {
      list := events[next..] + events[..next];
    }
  }

  /** Until the ring is full, events are added at the end. */
  lemma Appended(history: seq<Event>, event: Event, events: seq<Event>)
    requires |events| < MAX_EVENTS && |history| == |events| && events[0..] + events[..0] == Recent(history)
    ensures (events + [event])[0..] + (events + [event])[..0] == Recent(history + [event])
  {
    assert events[0..] + events[..0] == events;
    var more := events + [event];
    assert more[0..] + more[..0] == more;
  }

  lemma RecentNext(history: seq<Event>, event: Event)
    requires |Recent(history)| == MAX_EVENTS
    ensures Recent(history + [event]) == Recent(history)[1..] + [event]
  {
  }

  lemma RingNext(events: seq<Event>, next: nat, event: Event)
    requires |events| == MAX_EVENTS && next < MAX_EVENTS
    ensures
      var ring, first := events[next := event], (next + 1) % MAX_EVENTS;
      ring[first..] + ring[..first] == (events[next..] + events[..next])[1..] + [event]
  {
    if next + 1 == |events| {
      RingWraps(events, next, event);
      assert (next + 1) % MAX_EVENTS == 0;
    } else {
      RingMoves(events, next, event);
      assert (next + 1) % MAX_EVENTS == next + 1;
    }
  }

  lemma RingWraps<T>(events: seq<T>, next: nat, event: T)
    requires next + 1 == |events|
    ensures
      var ring := events[next := event];
      ring[0..] + ring[..0] == (events[next..] + events[..next])[1..] + [event]
  {
    var ring := events[next := event];
    assert events[next..] == [events[next]];
    assert (events[next..] + events[..next])[1..] == events[..next];
    assert ring == events[..next] + [event] && ring[0..] + ring[..0] == ring;
  }

  lemma RingMoves<T>(events: seq<T>, next: nat, event: T)
    requires next + 1 < |events|
    ensures
      var ring := events[next := event];
      ring[next + 1..] + ring[..next + 1] == (events[next..] + events[..next])[1..] + [event]
  {
    var ring := events[next := event];
    assert ring[next + 1..] == events[next + 1..];
    assert ring[..next + 1] == events[..next] + [event];
    assert events[next..] == [events[next]] + events[next + 1..];
    assert (events[next..] + events[..next])[1..] == events[next + 1..] + events[..next];
    assert events[next + 1..] + (events[..next] + [event]) == events[next + 1..] + events[..next] + [event];
  }

  /** Overwriting the oldest entry of a full ring and moving on drops the oldest event and adds the new one. */
  lemma Overwritten(history: seq<Event>, event: Event, events: seq<Event>, next: nat)
    requires |events| == MAX_EVENTS && next < MAX_EVENTS && events[next..] + events[..next] == Recent(history)
    ensures
      var ring, first := events[next := event], (next + 1) % MAX_EVENTS;
      ring[first..] + ring[..first] == Recent(history + [event])
  {
    RecentNext(history, event);
    RingNext(events, next, event);
  }
}
