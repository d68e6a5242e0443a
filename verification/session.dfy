/** A whole process run: the loop of `main` driving cycles whose lookup and update are
    resolved by the observer and the updater against one configuration. */
module Session {
  import opened Wrappers
  import Observer
  import Updater
  import Cycle
  import Scheduler
  import Seqs

  /** The outside world's answers during one cycle: the echo GET and the provider exchange
      (the latter consulted only if the updater runs). */
  datatype Sample = Sample(fetch: Observer.Fetch, exchange: Updater.Exchange)

  /** The updater's verdict as the cycle sees it: success, or the error text it logs. */
  function Outcome(a: Updater.Attempt): (r: Result<(), string>)
    ensures r.Success? <==> a.outcome.Success?
    ensures r.Failure? ==> r.error == Updater.ErrorText(a.outcome.error)
  {
    match a.outcome
    case Success(_) => Success(())
    case Failure(e) => Failure(Updater.ErrorText(e))
  }

  /** The updater call a cycle makes from adopted address `lastIp`, if it makes one. */
  function CycleAttempt(c: Updater.Config, lastIp: string, s: Sample): (a: Option<Updater.Attempt>)
    ensures a.Some? <==> s.fetch.Body? && s.fetch.text != lastIp
    ensures a.Some? && a.value.sent.Some? ==> a.value.sent.value.body.content == s.fetch.text
  {
    match Observer.CurrentIp(s.fetch)
    case Failure(_) => None
    case Success(ip) => if ip == lastIp then None else Some(Updater.UpdateRecord(c, ip, s.exchange))
  }

  /** What one cycle observes once the observer and updater have run. */
  function Observe(c: Updater.Config, s: Sample): (o: Cycle.Observation)
    ensures o.lookup.Success? <==> s.fetch.Body?
    ensures o.lookup.Success? ==> o.lookup.value == s.fetch.text
    ensures !s.fetch.Body? ==> o.lookup == Observer.CurrentIp(s.fetch)
    ensures s.fetch.Body? ==>
      (o.update.Success? <==> Updater.Complete(c) && s.exchange.Decoded? && s.exchange.response.success)
    ensures s.fetch.Body? && o.update.Failure? ==>
      o.update.error == Updater.ErrorText(Updater.UpdateRecord(c, s.fetch.text, s.exchange).outcome.error)
  {
    var lookup := Observer.CurrentIp(s.fetch);
    match lookup
    case Failure(_) => Cycle.Observation(lookup, Success(()))  // not consulted
    case Success(ip) => Cycle.Observation(lookup, Outcome(Updater.UpdateRecord(c, ip, s.exchange)))
  }

  function Observations(c: Updater.Config, samples: seq<Sample>): (obs: seq<Cycle.Observation>)
    ensures |obs| == |samples|
    ensures forall j :: 0 <= j < |samples| ==> obs[j] == Observe(c, samples[j])
  {
    seq(|samples|, j requires 0 <= j < |samples| => Observe(c, samples[j]))
  }

  /** Consecutive cycles from process start, one per sample. */
  function Cycles(c: Updater.Config, samples: seq<Sample>): Cycle.Trace {
    Cycle.Runs(Cycle.InitialLastIp, Observations(c, samples))
  }

  /** In every cycle of a process, the updater call made from the last confirmed address
      happens exactly when the cycle logs an invocation; its PUT carries the looked-up
      address the cycle logs, its verdict decides the log, and a failure logs its error text. */
  lemma CycleLogsItsAttempt(c: Updater.Config, samples: seq<Sample>, j: nat)
    requires j < |samples|
    ensures var t := Cycles(c, samples);
            var a := CycleAttempt(c, Cycle.LastConfirmed(Cycle.InitialLastIp, t.logs[..j]), samples[j]);
            && (a.Some? <==> Cycle.Invoked(t.logs[j]))
            && (a.Some? ==> t.logs[j].ip == samples[j].fetch.text)
            && (a.Some? && a.value.sent.Some? ==> a.value.sent.value.body.content == t.logs[j].ip)
            && (a.Some? ==> (t.logs[j].Updated? <==> a.value.outcome.Success?))
            && (t.logs[j].UpdateFailed? ==> a.Some? && t.logs[j].cause == Updater.ErrorText(a.value.outcome.error))
  {
    var obs := Observations(c, samples);
    Cycle.EachCycleSeesLastConfirmed(Cycle.InitialLastIp, obs);
    assert obs[j] == Observe(c, samples[j]);
  }

  /** With a setting missing, every update fails, so the process never adopts an address
      and its last adopted address stays empty however many cycles run. */
  lemma IncompleteConfigNeverAdopts(c: Updater.Config, samples: seq<Sample>)
    requires !Updater.Complete(c)
    ensures Cycles(c, samples).lastIp == Cycle.InitialLastIp
    ensures forall j :: 0 <= j < |samples| ==> !Cycles(c, samples).logs[j].Updated?
  {
    var obs := Observations(c, samples);
    assert forall j :: 0 <= j < |obs| ==> obs[j].lookup.Success? ==> obs[j].update.Failure? by {
      forall j | 0 <= j < |obs| ensures obs[j].lookup.Success? ==> obs[j].update.Failure? {
        assert obs[j] == Observe(c, samples[j]);
      }
    }
    Cycle.FailingUpdaterNeverAdopts(Cycle.InitialLastIp, obs);
  }

  /** Number of cycles `main` runs for a parse result of the interval setting and a
      sequence of loop events. */
  function CyclesRun(parsed: Option<Scheduler.Int64>, events: seq<Scheduler.Event>): (n: nat)
    ensures n >= 1
  {
    var period := Scheduler.TickPeriod(Scheduler.IntervalMinutes(parsed));
    Seqs.Count(Scheduler.Loop(Scheduler.TickerLive(period), events), Scheduler.RunCycle)
  }

  /** An unparsable interval falls back to ten minutes: one cycle at start and one per tick
      before the first shutdown. */
  lemma DefaultIntervalCountsTicks(events: seq<Scheduler.Event>)
    ensures CyclesRun(None, events) == 1 + Seqs.Count(events[..Seqs.FirstIndex(events, Scheduler.Shutdown)], Scheduler.Tick)
  {
    Scheduler.PositiveIntervalTicks(Scheduler.DefaultIntervalMinutes);
  }

  /** An interval from -153722867 to 0 is used as it is, which leaves no ticker: the process
      runs its first cycle and then only waits for shutdown. */
  lemma NonPositiveIntervalRunsOnce(v: Scheduler.Int64, events: seq<Scheduler.Event>)
    requires -Scheduler.MaxTickMinutes <= v <= 0
    ensures CyclesRun(Some(v), events) == 1
  {
    Scheduler.NonPositiveIntervalNeverTicks(v);
  }

  /** An interval from 153722868 to 307445734 minutes overflows to a negative period: the
      process runs its first cycle only. */
  lemma OverflowingIntervalRunsOnce(v: Scheduler.Int64, events: seq<Scheduler.Event>)
    requires Scheduler.MaxTickMinutes < v <= Scheduler.MaxWrapMinutes
    ensures CyclesRun(Some(v), events) == 1
  {
    Scheduler.OverflowingIntervalNeverTicks(v);
  }

  /** An interval from -307445734 to -153722868 minutes wraps to a positive period: every
      tick before the first shutdown runs a cycle. */
  lemma UnderflowingIntervalCountsTicks(v: Scheduler.Int64, events: seq<Scheduler.Event>)
    requires -Scheduler.MaxWrapMinutes <= v < -Scheduler.MaxTickMinutes
    ensures CyclesRun(Some(v), events) == 1 + Seqs.Count(events[..Seqs.FirstIndex(events, Scheduler.Shutdown)], Scheduler.Tick)
  {
    Scheduler.UnderflowingIntervalTicks(v);
  }

  /** The process: the cycles `main` runs, in order, each using the next sample and acting
      on the address of the most recent successful update before it. */
  function Process(c: Updater.Config, parsed: Option<Scheduler.Int64>, events: seq<Scheduler.Event>, samples: seq<Sample>): (t: Cycle.Trace)
    requires |samples| >= CyclesRun(parsed, events)
    ensures |t.logs| == CyclesRun(parsed, events)
    ensures t.logs[0] == Cycle.Run(Cycle.InitialLastIp, Observe(c, samples[0])).log
    ensures t.lastIp == Cycle.LastConfirmed(Cycle.InitialLastIp, t.logs)
    ensures forall j :: 0 <= j < |t.logs| ==>
      t.logs[j] == Cycle.Run(Cycle.LastConfirmed(Cycle.InitialLastIp, t.logs[..j]), Observe(c, samples[j])).log
  {
    var n := CyclesRun(parsed, events);
    var obs := Observations(c, samples[..n]);
    Cycle.FinalIsLastConfirmed(Cycle.InitialLastIp, obs);
    Cycle.EachCycleSeesLastConfirmed(Cycle.InitialLastIp, obs);
    assert Cycle.Runs(Cycle.InitialLastIp, obs).logs[..0] == [];
    Cycles(c, samples[..n])
  }
}
