/**
 The two buffers of packages/logging/src/logging-and-telemetry.ts. Until a logger is attached, bus
 listeners and `track` calls wait in one queue; until the device id is known, `track` calls that got
 past the first queue wait in a second one.
 */
module TelemetryBuffer {
  import opened Prelude

  /** What waits in `pendingBusEvents`: a bus listener that will track events, or a `track` callback. */
  datatype Callback<E> = Listener(name: E, tracks: seq<E>) | Deliver(event: E)

  /** The event of a `track` callback, the name of a listener, and the `track` calls it will make. */
  function Event<E>(c: Callback<E>): seq<E> {
    if c.Deliver? then [c.event] else []
  }

  function Name<E>(c: Callback<E>): seq<E> {
    if c.Listener? then [c.name] else []
  }

  function Tracks<E>(c: Callback<E>): seq<E> {
    if c.Listener? then c.tracks else []
  }

  /** The events of the `track` callbacks in a queue. */
  function Waiting<E>(q: seq<Callback<E>>): seq<E> {
    if q == [] then [] else Event(q[0]) + Waiting(q[1..])
  }

  /** The listeners in a queue. */
  function Listening<E>(q: seq<Callback<E>>): seq<E> {
    if q == [] then [] else Name(q[0]) + Listening(q[1..])
  }

  /** The `track` calls that the listeners in a queue are going to make. */
  function Calls<E>(q: seq<Callback<E>>): seq<E> {
    if q == [] then [] else Tracks(q[0]) + Calls(q[1..])
  }

  /** The callbacks that draining a queue runs, counting those it appends on the way. */
  function Work<E>(q: seq<Callback<E>>): nat {
    if q == [] then 0 else 1 + |Tracks(q[0])| + Work(q[1..])
  }

  lemma {:induction false} Snoc<E>(q: seq<Callback<E>>, c: Callback<E>)
    ensures Waiting(q + [c]) == Waiting(q) + Event(c)
    ensures Listening(q + [c]) == Listening(q) + Name(c)
    ensures Calls(q + [c]) == Calls(q) + Tracks(c)
    ensures Work(q + [c]) == Work(q) + 1 + |Tracks(c)|
    decreases |q|
  {
    var r := q + [c];
    if q == [] {
      assert r == [c] && r[1..] == [];
      Assoc(Event(c), [], []);
      Assoc(Name(c), [], []);
      Assoc(Tracks(c), [], []);
    } else {
      assert r[0] == q[0] && r[1..] == q[1..] + [c];
      Snoc(q[1..], c);
      Assoc(Event(q[0]), Waiting(q[1..]), Event(c));
      Assoc(Name(q[0]), Listening(q[1..]), Name(c));
      Assoc(Tracks(q[0]), Calls(q[1..]), Tracks(c));
    }
  }

  class LoggingAndTelemetry<E(==)> {
    var loggerAttached: bool
    var isBufferingBusEvents: bool
    var isBufferingTelemetryEvents: bool
    var pendingBusEvents: seq<Callback<E>>
    var pendingTelemetryEvents: seq<E>
    /** What reached the analytics target, and which listeners ran. */
    var delivered: seq<E>
    var heard: seq<E>

    /** Every `track` call and every bus event so far. */
    ghost var tracked: seq<E>
    ghost var emitted: seq<E>

    /** Nothing is lost, duplicated or reordered between the call and the target. */
    ghost predicate InOrder()
      reads this
    {
      && delivered + (Waiting(pendingBusEvents) + pendingTelemetryEvents) == tracked
      && heard + Listening(pendingBusEvents) == emitted
    }

    ghost predicate Valid()
      reads this
    {
      && InOrder()
      && (isBufferingBusEvents ==> pendingTelemetryEvents == [])
      && (!isBufferingBusEvents ==> pendingBusEvents == [])
      && (!isBufferingTelemetryEvents ==> pendingTelemetryEvents == [])
    }

    constructor Setup()
      ensures Valid() && isBufferingBusEvents && isBufferingTelemetryEvents
      ensures tracked == emitted == [] && !loggerAttached
    {
      loggerAttached, isBufferingBusEvents, isBufferingTelemetryEvents := false, true, true;
      pendingBusEvents, pendingTelemetryEvents, delivered, heard := [], [], [], [];
      tracked, emitted := [], [];
    }

    method Track(event: E)
      requires Valid()
      modifies `pendingBusEvents, `pendingTelemetryEvents, `delivered, `tracked
      ensures Valid() && tracked == old(tracked) + [event]
      ensures isBufferingBusEvents ==>
                delivered == old(delivered) && pendingBusEvents == old(pendingBusEvents) + [Deliver(event)]
      ensures isBufferingBusEvents ==>
                && Calls(pendingBusEvents) == Calls(old(pendingBusEvents))
                && Listening(pendingBusEvents) == Listening(old(pendingBusEvents))
                && Work(pendingBusEvents) == Work(old(pendingBusEvents)) + 1
      ensures !isBufferingBusEvents ==> pendingBusEvents == old(pendingBusEvents)
      ensures !isBufferingBusEvents && isBufferingTelemetryEvents ==>
                delivered == old(delivered) && pendingTelemetryEvents == old(pendingTelemetryEvents) + [event]
      ensures isBufferingBusEvents || !isBufferingTelemetryEvents ==>
                pendingTelemetryEvents == old(pendingTelemetryEvents)
      ensures !isBufferingBusEvents && !isBufferingTelemetryEvents ==> delivered == old(delivered) + [event]
    {
      tracked := tracked + [event];
      if isBufferingBusEvents {
        Snoc(pendingBusEvents, Deliver(event));
        pendingBusEvents := pendingBusEvents + [Deliver(event)];
      } else if isBufferingTelemetryEvents {
        pendingTelemetryEvents := pendingTelemetryEvents + [event];
      } else {
        delivered := delivered + [event];
      }
    }

    /** The body of a bus listener, as far as telemetry is concerned. */
    method RunListener(name: E, tracks: seq<E>)
      requires Valid()
      modifies `pendingBusEvents, `pendingTelemetryEvents, `delivered, `tracked
      ensures Valid() && tracked == old(tracked) + tracks
      ensures isBufferingBusEvents ==>
                && delivered == old(delivered)
                && Calls(pendingBusEvents) == Calls(old(pendingBusEvents))
                && Listening(pendingBusEvents) == Listening(old(pendingBusEvents))
                && Work(pendingBusEvents) == Work(old(pendingBusEvents)) + |tracks|
    {
      for i := 0 to |tracks|
        invariant Valid() && tracked == old(tracked) + tracks[..i]
        invariant isBufferingBusEvents ==>
                    && delivered == old(delivered)
                    && Calls(pendingBusEvents) == Calls(old(pendingBusEvents))
                    && Listening(pendingBusEvents) == Listening(old(pendingBusEvents))
                    && Work(pendingBusEvents) == Work(old(pendingBusEvents)) + i
      {
        Track(tracks[i]);
      }
      assert tracks[..|tracks|] == tracks;
    }

    /** The wrapper that `onBus` puts around every listener. */
    method Emit(name: E, tracks: seq<E>)
      requires Valid()
      modifies this
      ensures Valid() && emitted == old(emitted) + [name]
      ensures tracked == old(tracked) + (if isBufferingBusEvents then [] else tracks)
      ensures isBufferingBusEvents ==> Calls(pendingBusEvents) == Calls(old(pendingBusEvents)) + tracks
      ensures isBufferingBusEvents == old(isBufferingBusEvents)
      ensures isBufferingTelemetryEvents == old(isBufferingTelemetryEvents)
      ensures loggerAttached == old(loggerAttached)
    {
      emitted := emitted + [name];
      if isBufferingBusEvents {
        Snoc(pendingBusEvents, Listener(name, tracks));
        pendingBusEvents := pendingBusEvents + [Listener(name, tracks)];
        return;
      }
      heard := heard + [name];
      RunListener(name, tracks);
    }

    /** Take the first pending callback off the queue and run it. */
    method RunPendingEvent()
      requires Valid() && pendingBusEvents != []
      modifies `pendingBusEvents, `pendingTelemetryEvents, `delivered, `heard, `tracked
      ensures Valid()
      ensures tracked == old(tracked) + Tracks(old(pendingBusEvents[0]))
      ensures Calls(pendingBusEvents) == Calls(old(pendingBusEvents[1..]))
      ensures Work(pendingBusEvents) < Work(old(pendingBusEvents))
    {
      var pendingEvent, rest := pendingBusEvents[0], pendingBusEvents[1..];
      Assoc(delivered, Event(pendingEvent), Waiting(rest) + pendingTelemetryEvents);
      Assoc(Event(pendingEvent), Waiting(rest), pendingTelemetryEvents);
      Assoc(heard, Name(pendingEvent), Listening(rest));
      pendingBusEvents := rest;
      match pendingEvent {
        case Deliver(event) =>
          delivered := delivered + [event];
          Assoc(tracked, [], []);
        case Listener(name, tracks) =>
          heard := heard + [name];
          RunListener(name, tracks);
      }
    }

    /**
     Running a listener appends to the queue that is being drained. The loop still ends, because a
     listener that waited is worth more than the callbacks it leaves behind.
     */
    method RunAndClearPendingBusEvents()
      requires Valid()
      modifies this
      ensures Valid() && !isBufferingBusEvents && pendingBusEvents == []
      ensures tracked == old(tracked) + Calls(old(pendingBusEvents)) && emitted == old(emitted)
      ensures isBufferingTelemetryEvents == old(isBufferingTelemetryEvents)
      ensures loggerAttached == old(loggerAttached)
      ensures old(isBufferingBusEvents) ==> delivered == tracked && heard == emitted
    {
      while pendingBusEvents != []
        invariant Valid() && isBufferingBusEvents == old(isBufferingBusEvents)
        invariant isBufferingTelemetryEvents == old(isBufferingTelemetryEvents)
        invariant loggerAttached == old(loggerAttached) && emitted == old(emitted)
        invariant tracked + Calls(pendingBusEvents) == old(tracked) + Calls(old(pendingBusEvents))
        decreases Work(pendingBusEvents)
      {
        Assoc(tracked, Tracks(pendingBusEvents[0]), Calls(pendingBusEvents[1..]));
        RunPendingEvent();
      }
      isBufferingBusEvents := false;
    }

    method RunAndClearPendingTelemetryEvents()
      requires Valid()
      modifies this
      ensures Valid() && !isBufferingTelemetryEvents
      ensures tracked == old(tracked) && emitted == old(emitted)
      ensures isBufferingBusEvents == old(isBufferingBusEvents)
      ensures loggerAttached == old(loggerAttached)
      ensures pendingBusEvents == old(pendingBusEvents)
      ensures !isBufferingBusEvents ==> delivered == tracked
    {
      while pendingTelemetryEvents != []
        invariant Valid() && isBufferingBusEvents == old(isBufferingBusEvents)
        invariant loggerAttached == old(loggerAttached)
        invariant tracked == old(tracked) && emitted == old(emitted) && pendingBusEvents == old(pendingBusEvents)
        decreases |pendingTelemetryEvents|
      {
        delivered := delivered + [pendingTelemetryEvents[0]];
        pendingTelemetryEvents := pendingTelemetryEvents[1..];
      }
      isBufferingTelemetryEvents := false;
    }

    /** The rest of `setupTelemetry`, once the device id is known or was given up on. */
    method DeviceIdResolved(identify: E)
      requires Valid()
      modifies this
      ensures Valid() && !isBufferingTelemetryEvents
      ensures tracked == old(tracked) + [identify] && emitted == old(emitted)
      ensures Calls(pendingBusEvents) == Calls(old(pendingBusEvents))
      ensures loggerAttached == old(loggerAttached)
      ensures isBufferingBusEvents == old(isBufferingBusEvents)
      ensures !isBufferingBusEvents ==> delivered == tracked
    {
      Track(identify);
      RunAndClearPendingTelemetryEvents();
    }

    method AttachLogger() returns (ok: bool)
      requires Valid()
      modifies this
      ensures Valid() && ok == !old(loggerAttached) && loggerAttached
      ensures emitted == old(emitted)
      ensures !ok ==> tracked == old(tracked) && isBufferingBusEvents == old(isBufferingBusEvents)
      ensures !ok ==> pendingBusEvents == old(pendingBusEvents)
      ensures ok ==> !isBufferingBusEvents && tracked == old(tracked) + Calls(old(pendingBusEvents))
      ensures isBufferingTelemetryEvents == old(isBufferingTelemetryEvents)
    {
      if loggerAttached {
        return false;
      }
      loggerAttached := true;
      RunAndClearPendingBusEvents();
      return true;
    }

    method Flush(sessionEnded: E)
      requires Valid()
      modifies this
      ensures Valid() && !isBufferingBusEvents && emitted == old(emitted)
      ensures tracked == old(tracked) + [sessionEnded] + Calls(old(pendingBusEvents))
      ensures isBufferingTelemetryEvents == old(isBufferingTelemetryEvents)
      ensures loggerAttached == old(loggerAttached)
    {
      Snoc(pendingBusEvents, Deliver(sessionEnded));
      Track(sessionEnded);
      RunAndClearPendingBusEvents();
    }

    method DetachLogger(sessionEnded: E)
      requires Valid()
      modifies this
      ensures Valid() && !loggerAttached && !isBufferingBusEvents && emitted == old(emitted)
      ensures tracked == old(tracked) + [sessionEnded] + Calls(old(pendingBusEvents))
      ensures isBufferingTelemetryEvents == old(isBufferingTelemetryEvents)
    {
      loggerAttached := false;
      Flush(sessionEnded);
    }

    /** What has been tracked and emitted, and what the listeners that wait are going to track. */
    ghost function Seen(): Progress<E>
      reads this
    {
      Progress(loggerAttached, isBufferingBusEvents, Calls(pendingBusEvents), tracked, emitted)
    }

    method Take(step: Happening<E>)
      requires Valid()
      modifies this
      ensures Valid() && Seen() == After(old(Seen()), step)
      ensures step.Attach? && !old(loggerAttached) ==> !isBufferingBusEvents
      ensures !old(isBufferingBusEvents) ==> !isBufferingBusEvents
      ensures isBufferingTelemetryEvents == (old(isBufferingTelemetryEvents) && !step.DeviceId?)
    {
      match step {
        case BusEvent(name, tracks) => Emit(name, tracks);
        case Attach => var ok := AttachLogger();
        case Detach(sessionEnded) => DetachLogger(sessionEnded);
        case Close(sessionEnded) => Flush(sessionEnded);
        case DeviceId(identify) => DeviceIdResolved(identify);
      }
    }

    /**
     Every reachable state, whichever of the logger and the device id comes first: what was delivered,
     what waits for the logger and what waits for the device id are the `track` calls in order; and
     once both have come, everything tracked has been delivered.
     */
    method Perform(steps: seq<Happening<E>>)
      requires Valid()
      modifies this
      ensures InOrder() && Seen() == Happen(old(Seen()), steps)
      ensures heard <= emitted && delivered <= tracked
      ensures !isBufferingBusEvents && !isBufferingTelemetryEvents ==> delivered == tracked
      ensures !isBufferingBusEvents ==> heard == emitted
      ensures !old(loggerAttached) && Happened(steps) ==> delivered == tracked
    {
      var attached, resolved := false, false;
      for i := 0 to |steps|
        invariant Valid() && Happen(Seen(), steps[i..]) == Happen(old(Seen()), steps)
        invariant attached == exists j :: 0 <= j < i && steps[j].Attach?
        invariant resolved == exists j :: 0 <= j < i && steps[j].DeviceId?
        invariant !old(loggerAttached) ==>
                    (loggerAttached ==> !isBufferingBusEvents) && (attached ==> !isBufferingBusEvents)
        invariant resolved ==> !isBufferingTelemetryEvents
      {
        assert steps[i..][0] == steps[i] && steps[i..][1..] == steps[i + 1..];
        Take(steps[i]);
        attached := attached || steps[i].Attach?;
        resolved := resolved || steps[i].DeviceId?;
      }
      assert steps[|steps|..] == [];
    }
  }

  /** The logger was attached and the device id resolved, in either order. */
  ghost predicate Happened<E>(steps: seq<Happening<E>>) {
    && (exists i :: 0 <= i < |steps| && steps[i].Attach?)
    && (exists i :: 0 <= i < |steps| && steps[i].DeviceId?)
  }

  /** What happens from outside; `Close` is a call of `flush` that leaves the logger attached. */
  datatype Happening<E> =
    | BusEvent(name: E, tracks: seq<E>)
    | Attach
    | Detach(sessionEnded: E)
    | Close(sessionEnded: E)
    | DeviceId(identify: E)

  // ---------- what the happenings track ----------

  /** `waiting` is what the listeners in the queue are going to track. */
  datatype Progress<E> = Progress(attached: bool, buffering: bool, waiting: seq<E>, tracked: seq<E>, emitted: seq<E>)

  function After<E>(p: Progress<E>, step: Happening<E>): Progress<E> {
    match step
    case BusEvent(name, tracks) =>
      var q := p.(emitted := p.emitted + [name]);
      if p.buffering then q.(waiting := p.waiting + tracks) else q.(tracked := p.tracked + tracks)
    case Attach =>
      if p.attached then p
      else p.(attached := true, buffering := false, tracked := p.tracked + p.waiting, waiting := [])
    case Detach(sessionEnded) =>
      Progress(false, false, [], p.tracked + [sessionEnded] + p.waiting, p.emitted)
    case Close(sessionEnded) =>
      p.(buffering := false, waiting := [], tracked := p.tracked + [sessionEnded] + p.waiting)
    case DeviceId(identify) => p.(tracked := p.tracked + [identify])
  }

  function Happen<E>(p: Progress<E>, steps: seq<Happening<E>>): Progress<E>
    decreases |steps|
  {
    if steps == [] then p else Happen(After(p, steps[0]), steps[1..])
  }

  /** The events that a happening is there to track, and the bus event it is. */
  function Made<E>(step: Happening<E>): seq<E> {
    match step
    case BusEvent(_, tracks) => tracks
    case Attach => []
    case Detach(sessionEnded) => [sessionEnded]
    case Close(sessionEnded) => [sessionEnded]
    case DeviceId(identify) => [identify]
  }

  function Emitted<E>(step: Happening<E>): seq<E> {
    if step.BusEvent? then [step.name] else []
  }

  function AllMade<E>(steps: seq<Happening<E>>): seq<E> {
    if steps == [] then [] else Made(steps[0]) + AllMade(steps[1..])
  }

  function AllEmitted<E>(steps: seq<Happening<E>>): seq<E> {
    if steps == [] then [] else Emitted(steps[0]) + AllEmitted(steps[1..])
  }

  lemma AfterTracksOnce<E>(p: Progress<E>, step: Happening<E>)
    ensures var q := After(p, step);
            multiset(q.tracked) + multiset(q.waiting)
            == multiset(p.tracked) + multiset(p.waiting) + multiset(Made(step))
  {
    match step {
      case BusEvent(_, tracks) =>
        SumOfParts(p.waiting, tracks);
        SumOfParts(p.tracked, tracks);
      case Attach => SumOfParts(p.tracked, p.waiting);
      case Detach(sessionEnded) =>
        SumOfParts(p.tracked + [sessionEnded], p.waiting);
        SumOfParts(p.tracked, [sessionEnded]);
      case Close(sessionEnded) =>
        SumOfParts(p.tracked + [sessionEnded], p.waiting);
        SumOfParts(p.tracked, [sessionEnded]);
      case DeviceId(identify) => SumOfParts(p.tracked, [identify]);
    }
  }

  lemma SumOfParts<E>(a: seq<E>, b: seq<E>)
    ensures multiset(a + b) == multiset(a) + multiset(b)
  {}

  lemma AfterTracks<E>(p: Progress<E>, step: Happening<E>)
    requires !p.buffering ==> p.waiting == []
    ensures var q := After(p, step);
            && (!q.buffering ==> q.waiting == [])
            && q.emitted == p.emitted + Emitted(step)
            && (!p.buffering ==> !q.buffering && q.tracked == p.tracked + Made(step))
  {
    Assoc(p.tracked, Made(step), []);
  }

  /**
   Every event is tracked once, or is going to be by a listener that waits; bus events are emitted in
   their order; and without buffering everything is tracked in its order.
   */
  lemma {:induction false} EverythingIsTracked<E>(p: Progress<E>, steps: seq<Happening<E>>)
    requires !p.buffering ==> p.waiting == []
    ensures var q := Happen(p, steps);
            && q.emitted == p.emitted + AllEmitted(steps)
            && multiset(q.tracked) + multiset(q.waiting)
               == multiset(p.tracked) + multiset(p.waiting) + multiset(AllMade(steps))
            && (!q.buffering ==> q.waiting == [])
            && (!p.buffering ==> q.tracked == p.tracked + AllMade(steps))
    decreases |steps|
  {
    if steps != [] {
      var q := After(p, steps[0]);
      AfterTracks(p, steps[0]);
      AfterTracksOnce(p, steps[0]);
      SumOfParts(Made(steps[0]), AllMade(steps[1..]));
      EverythingIsTracked(q, steps[1..]);
      Assoc(p.emitted, Emitted(steps[0]), AllEmitted(steps[1..]));
      Assoc(p.tracked, Made(steps[0]), AllMade(steps[1..]));
    }
  }
}
