/**
 The fixed-window throttle of `ThrottledAnalytics` (packages/logging/src/analytics-helpers.ts). The
 clock is a parameter: each event offered reads it when the window is checked, when a new window is
 stamped, and when the event is handed to the target.
 */
module Throttle {

  datatype Options = Options(rate: int, timeframe: nat)

  datatype Readings = Readings(check: int, stamp: int, send: int)

  /** What the target sees, with the window it was counted in and its number in that window. */
  datatype Emission = Emission(time: int, window: int, number: int)

  datatype State = State(count: int, timestamp: int, emitted: seq<Emission>)

  function Limit(o: Options): int {
    if o.rate > 1 then o.rate else 1
  }

  function Emit(s: State, time: int): State {
    State(s.count + 1, s.timestamp, s.emitted + [Emission(time, s.timestamp, s.count + 1)])
  }

  function Offer(o: Options, s: State, r: Readings): State {
    if r.check - s.timestamp > o.timeframe then Emit(State(0, r.stamp, s.emitted), r.send)
    else if s.count < o.rate then Emit(s, r.send)
    else s
  }

  function OfferAll(o: Options, s: State, rs: seq<Readings>): State
    decreases |rs|
  {
    if rs == [] then s else OfferAll(o, Offer(o, s, rs[0]), rs[1..])
  }

  predicate Monotone(rs: seq<Readings>) {
    && (forall i :: 0 <= i < |rs| ==> rs[i].check <= rs[i].stamp <= rs[i].send)
    && (forall i :: 0 < i < |rs| ==> rs[i - 1].send <= rs[i].check)
  }

  /** Neighbouring emissions share a window, or the later one opened the next window. */
  predicate Follows(o: Options, a: Emission, b: Emission) {
    && a.time <= b.time
    && ((b.window == a.window && b.number == a.number + 1) ||
        (b.window > a.window + o.timeframe && b.number == 1 && a.time <= b.window <= b.time))
  }

  predicate Windowed(o: Options, es: seq<Emission>) {
    && (forall i :: 0 <= i < |es| ==> 1 <= es[i].number <= Limit(o))
    && (forall i :: 0 < i < |es| ==> Follows(o, es[i - 1], es[i]))
  }

  /** The state is that of the last emission, which the clock has passed. */
  predicate Valid(o: Options, s: State, now: int) {
    && 0 <= s.count
    && Windowed(o, s.emitted)
    && (s.emitted != [] ==>
          var last := s.emitted[|s.emitted| - 1];
          last.window == s.timestamp && last.number == s.count && last.time <= now)
  }

  lemma OfferKeepsValid(o: Options, s: State, r: Readings)
    requires Valid(o, s, r.check) && r.check <= r.stamp <= r.send
    ensures Valid(o, Offer(o, s, r), r.send)
  {
    var t := Offer(o, s, r);
    if t != s && s.emitted != [] {
      assert t.emitted == s.emitted + [t.emitted[|s.emitted|]];
      assert Follows(o, s.emitted[|s.emitted| - 1], t.emitted[|s.emitted|]);
    }
  }

  lemma {:induction false} RunKeepsValid(o: Options, s: State, rs: seq<Readings>, now: int)
    requires Valid(o, s, now) && Monotone(rs) && (rs != [] ==> now <= rs[0].check)
    ensures Windowed(o, OfferAll(o, s, rs).emitted)
    decreases |rs|
  {
    if rs != [] {
      OfferKeepsValid(o, s, rs[0]);
      RunKeepsValid(o, Offer(o, s, rs[0]), rs[1..], rs[0].send);
    }
  }

  /** Two emissions are numbered in one window, or a whole window boundary lies between them. */
  lemma {:induction false} Apart(o: Options, es: seq<Emission>, i: nat, j: nat)
    requires Windowed(o, es) && i <= j < |es|
    ensures es[i].time <= es[j].time && es[i].window <= es[j].window
    ensures es[i].window == es[j].window ==> es[j].number == es[i].number + (j - i)
    ensures es[i].window < es[j].window ==>
              es[i].window + o.timeframe < es[j].window && es[i].time <= es[j].window <= es[j].time
    decreases j
  {
    if i < j {
      Apart(o, es, i, j - 1);
      assert Follows(o, es[j - 1], es[j]);
    }
  }

  /** No window forwards more than `max(rate, 1)` events, and windows start more than a timeframe apart. */
  lemma WindowBound(o: Options, es: seq<Emission>, i: nat, j: nat)
    requires Windowed(o, es) && i <= j < |es|
    ensures es[i].window == es[j].window ==> j - i + 1 <= Limit(o)
    ensures es[i].window != es[j].window ==> es[j].window - es[i].window > o.timeframe
  {
    Apart(o, es, i, j);
  }

  lemma IntervalBound(o: Options, es: seq<Emission>, i: nat, j: nat)
    requires Windowed(o, es) && i <= j < |es|
    requires es[j].time - es[i].time <= o.timeframe
    ensures j - i + 1 <= 2 * Limit(o)
  {
    var m := Limit(o);
    if j - i >= 2 * m {
      WindowBound(o, es, i, i + m);
      WindowBound(o, es, i + m, i + 2 * m);
      Apart(o, es, i, i + m);
      Apart(o, es, i + m, i + 2 * m);
      Apart(o, es, i + 2 * m, j);
    }
  }

  /**
   Over every run with a monotone clock, from any restored state with a non-negative count: every
   closed interval as long as the timeframe sees at most `2 * max(rate, 1)` forwarded events.
   */
  lemma SlidingWindowBound(o: Options, count: nat, timestamp: int, rs: seq<Readings>, i: nat, j: nat)
    requires Monotone(rs)
    requires i <= j < |OfferAll(o, State(count, timestamp, []), rs).emitted|
    ensures var es := OfferAll(o, State(count, timestamp, []), rs).emitted;
            && (es[j].time - es[i].time <= o.timeframe ==> j - i + 1 <= 2 * Limit(o))
            && (es[i].window == es[j].window ==> j - i + 1 <= Limit(o))
            && (es[i].window != es[j].window ==> es[j].window - es[i].window > o.timeframe)
  {
    var s := State(count, timestamp, []);
    RunKeepsValid(o, s, rs, if rs == [] then 0 else rs[0].check);
    var es := OfferAll(o, s, rs).emitted;
    WindowBound(o, es, i, j);
    if es[j].time - es[i].time <= o.timeframe {
      IntervalBound(o, es, i, j);
    }
  }

  /** The factor two is needed: a burst at the end of one window meets the start of the next. */
  lemma TwoWindowsCanMeet(rate: nat, timeframe: nat) returns (rs: seq<Readings>)
    requires rate >= 1
    ensures Monotone(rs)
    ensures var es := OfferAll(Options(rate, timeframe), State(0, 0, []), rs).emitted;
            |es| == 2 * rate && (timeframe >= 1 ==> es[2 * rate - 1].time - es[0].time <= timeframe)
  {
    var o := Options(rate, timeframe);
    var first := seq(rate, _ => Readings(timeframe, timeframe, timeframe));
    var second := seq(rate, _ => Readings(timeframe + 1, timeframe + 1, timeframe + 1));
    rs := first + second;
    Burst(o, State(0, 0, []), timeframe, rate);
    var t := OfferAll(o, State(0, 0, []), first);
    var r := Readings(timeframe + 1, timeframe + 1, timeframe + 1);
    assert second == [r] + seq(rate - 1, _ => r);
    Burst(o, Offer(o, t, r), timeframe + 1, rate - 1);
    OfferAllAppend(o, State(0, 0, []), first, second);
    RunKeepsValid(o, State(0, 0, []), rs, timeframe);
  }

  lemma {:induction false} OfferAllAppend(o: Options, s: State, a: seq<Readings>, b: seq<Readings>)
    ensures OfferAll(o, s, a + b) == OfferAll(o, OfferAll(o, s, a), b)
    decreases |a|
  {
    if a == [] {
      assert a + b == b;
    } else {
      assert (a + b)[1..] == a[1..] + b;
      OfferAllAppend(o, Offer(o, s, a[0]), a[1..], b);
    }
  }

  /** Offers at one moment of an unfinished window all get through while the rate lasts. */
  lemma {:induction false} Burst(o: Options, s: State, now: int, n: nat)
    requires now - s.timestamp <= o.timeframe && s.count + n <= o.rate
    ensures var t := OfferAll(o, s, seq(n, _ => Readings(now, now, now)));
            && t.count == s.count + n && t.timestamp == s.timestamp
            && |t.emitted| == |s.emitted| + n && s.emitted <= t.emitted
            && (n > 0 ==> t.emitted[|t.emitted| - 1].time == now && t.emitted[|s.emitted|].time == now)
    decreases n
  {
    var rs := seq(n, _ => Readings(now, now, now));
    if n > 0 {
      assert rs[1..] == seq(n - 1, _ => Readings(now, now, now));
      Burst(o, Offer(o, s, rs[0]), now, n - 1);
    }
  }

  /** Within one window exactly as many events are forwarded as the rate leaves room for. */
  lemma {:induction false} WindowIsFilled(o: Options, s: State, rs: seq<Readings>)
    requires 0 <= s.count && forall i :: 0 <= i < |rs| ==> rs[i].check - s.timestamp <= o.timeframe
    ensures var t := OfferAll(o, s, rs); var room := if o.rate > s.count then o.rate - s.count else 0;
            && |t.emitted| == |s.emitted| + (if |rs| < room then |rs| else room)
            && t.timestamp == s.timestamp && t.count == s.count + (|t.emitted| - |s.emitted|)
    decreases |rs|
  {
    if rs != [] {
      assert forall i :: 0 <= i < |rs| - 1 ==> rs[1..][i] == rs[i + 1];
      WindowIsFilled(o, Offer(o, s, rs[0]), rs[1..]);
    }
  }

  /** Behind the end of a window the next event is forwarded and opens the next one. */
  lemma NextWindowOpens(o: Options, s: State, r: Readings)
    requires r.check - s.timestamp > o.timeframe
    ensures Offer(o, s, r) == State(1, r.stamp, s.emitted + [Emission(r.send, r.stamp, 1)])
  {}

  class ThrottledAnalytics {
    const throttle: Options
    var count: int
    var timestamp: int
    ghost var emitted: seq<Emission>

    ghost function View(): State
      reads this
    {
      State(count, timestamp, emitted)
    }

    /** A restored state is whatever the metadata file held. */
    constructor (throttle: Options, count: int, timestamp: int)
      ensures this.throttle == throttle && View() == State(count, timestamp, [])
    {
      this.throttle, this.count, this.timestamp, emitted := throttle, count, timestamp, [];
    }

    method ShouldEmitAnalyticsEvent(check: int, stamp: int) returns (emit: bool)
      modifies this
      ensures emitted == old(emitted)
      ensures check - old(timestamp) > throttle.timeframe ==> emit && count == 0 && timestamp == stamp
      ensures check - old(timestamp) <= throttle.timeframe ==>
                count == old(count) && timestamp == old(timestamp) && emit == (count < throttle.rate)
    {
      if check - timestamp > throttle.timeframe {
        timestamp := stamp;
        count := 0;
        return true;
      }
      return count < throttle.rate;
    }

    method Apply(r: Readings)
      modifies this
      ensures View() == Offer(throttle, old(View()), r)
    {
      var emit := ShouldEmitAnalyticsEvent(r.check, r.stamp);
      if emit {
        emitted := emitted + [Emission(r.send, timestamp, count + 1)];
        count := count + 1;
      }
    }

    /** The queue is enabled: the events it held are offered one after the other. */
    method ApplyAll(rs: seq<Readings>)
      modifies this
      ensures View() == OfferAll(throttle, old(View()), rs)
    {
      for i := 0 to |rs|
        invariant OfferAll(throttle, View(), rs[i..]) == OfferAll(throttle, old(View()), rs)
      {
        assert rs[i..][1..] == rs[i + 1..];
        Apply(rs[i]);
      }
      assert rs[|rs|..] == [];
    }
  }
}
