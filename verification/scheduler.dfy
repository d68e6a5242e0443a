/** The scheduler: interval selection, the periodic ticker and the event loop of `main`. */
module Scheduler {
  import opened Wrappers
  import opened Seqs

  const DefaultIntervalMinutes: int := 10
  const NanosPerMinute: int := 60_000_000_000
  const TwoTo64: int := 0x1_0000_0000_0000_0000
  const MinInt64: int := -0x8000_0000_0000_0000
  const MaxInt64: int := 0x7fff_ffff_ffff_ffff

  /** Go's `int` and `time.Duration` on a 64-bit platform. */
  type Int64 = x: int | MinInt64 <= x <= MaxInt64

  /** The interval in minutes: the parsed setting when it parsed, else the default. The
      parse itself is an input; a value of zero or below is kept as it is. */
  function IntervalMinutes(parsed: Option<Int64>): (m: Int64)
    ensures parsed.None? ==> m == DefaultIntervalMinutes
    ensures parsed.Some? ==> m == parsed.value
  {
    match parsed
    case None => DefaultIntervalMinutes
    case Some(v) => v
  }

  /** Two's-complement wrap-around of a 64-bit signed product. */
  function WrapInt64(x: int): (r: Int64)
    ensures (r - x) % TwoTo64 == 0
    ensures MinInt64 <= x <= MaxInt64 ==> r == x
  {
    var u := x % TwoTo64;
    if u > MaxInt64 then u - TwoTo64 else u
  }

  /** The tick period in nanoseconds, `time.Duration(minutes) * time.Minute`, which
      wraps around on overflow. */
  function TickPeriod(minutes: Int64): (d: Int64)
    ensures (d - minutes * NanosPerMinute) % TwoTo64 == 0
    ensures minutes * NanosPerMinute <= MaxInt64 && minutes * NanosPerMinute >= MinInt64 ==> d == minutes * NanosPerMinute
  {
    WrapInt64(minutes * NanosPerMinute)
  }

  /** The ticker delivers ticks only for a positive period: Go's `time.Tick` gives no
      channel for any other, and a receive from no channel never completes. */
  predicate TickerLive(period: Int64) {
    period > 0
  }

  /** The largest interval, 153722867 minutes, whose period fits in an int64. */
  const MaxTickMinutes: int := MaxInt64 / NanosPerMinute

  /** The largest interval, 307445734 minutes, whose product with one minute is below 2^64. */
  const MaxWrapMinutes: int := (TwoTo64 - 1) / NanosPerMinute

  /** Every positive interval that does not overflow gives a live ticker. */
  lemma PositiveIntervalTicks(minutes: Int64)
    requires 0 < minutes <= MaxTickMinutes
    ensures TickerLive(TickPeriod(minutes))
    ensures TickPeriod(minutes) == minutes * NanosPerMinute
  {
  }

  /** An interval from -153722867 to 0 gives no ticker. */
  lemma NonPositiveIntervalNeverTicks(minutes: Int64)
    requires -MaxTickMinutes <= minutes <= 0
    ensures !TickerLive(TickPeriod(minutes))
  {
  }

  /** An interval from 153722868 to 307445734 overflows to a negative period: no ticker. */
  lemma OverflowingIntervalNeverTicks(minutes: Int64)
    requires MaxTickMinutes < minutes <= MaxWrapMinutes
    ensures TickPeriod(minutes) == minutes * NanosPerMinute - TwoTo64
    ensures !TickerLive(TickPeriod(minutes))
  {
    var x := minutes * NanosPerMinute;
    assert MaxInt64 < x < TwoTo64;
    assert x % TwoTo64 == x;
  }

  /** An interval from -307445734 to -153722868 wraps to a positive period, between about
      292 years and about 34 seconds: the ticker is live. */
  lemma UnderflowingIntervalTicks(minutes: Int64)
    requires -MaxWrapMinutes <= minutes < -MaxTickMinutes
    ensures TickPeriod(minutes) == minutes * NanosPerMinute + TwoTo64
    ensures TickerLive(TickPeriod(minutes))
  {
    var x := minutes * NanosPerMinute;
    assert -TwoTo64 < x < MinInt64;
    assert x % TwoTo64 == x + TwoTo64;
  }

  /** The ends of the wrap bands: -307445734 minutes gives a period of about 34 seconds,
      and 307445735 minutes, just past the negative band, a live period of about 26 seconds. */
  lemma WrapBandEnds()
    ensures TickPeriod(-MaxWrapMinutes) == 33_709_551_616
    ensures TickPeriod(MaxWrapMinutes + 1) == 26_290_448_384
    ensures TickerLive(TickPeriod(MaxWrapMinutes + 1))
  {
    assert MaxWrapMinutes == 307445734;
    assert -MaxWrapMinutes * NanosPerMinute == -18446744040000000000;
    assert (MaxWrapMinutes + 1) * NanosPerMinute == 18446744100000000000;
  }

  /** What wakes the loop. */
  datatype Event = Tick | Shutdown

  /** What the loop does. */
  datatype Action = RunCycle | Exit

  /** The loop after its first cycle: each delivered tick runs one cycle, the first
      shutdown exits and nothing after it is looked at. Ticks from a dead ticker are
      never delivered. */
  function Await(live: bool, events: seq<Event>): (t: seq<Action>)
    ensures Exit in t <==> Shutdown in events
    ensures forall i :: 0 <= i < |t| && t[i] == Exit ==> i == |t| - 1
    ensures Count(t, RunCycle) == (if live then Count(events[..FirstIndex(events, Shutdown)], Tick) else 0)
    decreases |events|
  {
    if |events| == 0 then []
    else if events[0] == Shutdown then [Exit]
    else
      var rest := Await(live, events[1..]);
      TicksBeforeShutdown(events);
      if live then
        CountCons(RunCycle, rest, RunCycle);
        [RunCycle] + rest
      else rest
  }

  /** A leading tick adds one to the ticks before the first shutdown. */
  lemma TicksBeforeShutdown(events: seq<Event>)
    requires |events| > 0 && events[0] == Tick
    ensures Count(events[..FirstIndex(events, Shutdown)], Tick)
         == 1 + Count(events[1..][..FirstIndex(events[1..], Shutdown)], Tick)
    ensures Shutdown in events <==> Shutdown in events[1..]
  {
    var k := FirstIndex(events[1..], Shutdown);
    assert events == [Tick] + events[1..];
    assert events[..k + 1] == [Tick] + events[1..][..k];
    CountCons(Tick, events[1..][..k], Tick);
  }

  /** The whole loop of `main`: one cycle before any tick, then `Await`. */
  function Loop(live: bool, events: seq<Event>): (t: seq<Action>)
    ensures |t| > 0 && t[0] == RunCycle
    ensures Exit in t <==> Shutdown in events
    ensures forall i :: 0 <= i < |t| && t[i] == Exit ==> i == |t| - 1
    ensures Count(t, RunCycle) == 1 + (if live then Count(events[..FirstIndex(events, Shutdown)], Tick) else 0)
  {
    var rest := Await(live, events);
    CountCons(RunCycle, rest, RunCycle);
    [RunCycle] + rest
  }

  /** Events after the first shutdown change nothing. */
  lemma {:induction false} ShutdownIsFinal(live: bool, before: seq<Event>, after: seq<Event>)
    requires Shutdown !in before
    ensures Await(live, before + [Shutdown] + after) == Await(live, before + [Shutdown])
    decreases |before|
  {
    if |before| > 0 {
      assert (before + [Shutdown] + after)[1..] == before[1..] + [Shutdown] + after;
      assert (before + [Shutdown])[1..] == before[1..] + [Shutdown];
      ShutdownIsFinal(live, before[1..], after);
    } else {
      assert (before + [Shutdown] + after)[0] == Shutdown;
    }
  }
}
