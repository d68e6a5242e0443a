/** The check-and-update cycle: one `run` as a pure step over the last adopted address,
    and the fold of that step over a sequence of cycles. */
module Cycle {
  import opened Wrappers

  /** The last address successfully propagated; empty when the process starts. */
  const InitialLastIp: string := ""

  /** What one cycle sees: the echo lookup (an address or an error text) and the updater's
      outcome (success or its error text), consulted only when the updater is invoked. */
  datatype Observation = Observation(lookup: Result<string, string>, update: Result<(), string>)

  /** The line a cycle logs, one per way the cycle can end. */
  datatype Log =
    | LookupError(cause: string)  // the echo lookup failed
    | Unchanged(ip: string)       // the address equals the last adopted one
    | UpdateFailed(ip: string, cause: string)  // the updater was invoked and failed
    | Updated(ip: string)         // the updater was invoked and succeeded

  /** The updater was invoked in this cycle. */
  predicate Invoked(l: Log) {
    l.UpdateFailed? || l.Updated?
  }

  datatype Step = Step(lastIp: string, log: Log)

  /** One cycle from last adopted address `lastIp`. */
  function Run(lastIp: string, o: Observation): (s: Step)
    // a failed lookup ends the cycle
    ensures s.log.LookupError? <==> o.lookup.Failure?
    ensures s.log.LookupError? ==> s.log.cause == o.lookup.error
    ensures !s.log.LookupError? ==> s.log.ip == o.lookup.value
    // the updater runs exactly when a looked-up address differs from the adopted one
    ensures Invoked(s.log) <==> o.lookup.Success? && o.lookup.value != lastIp
    ensures s.log.Updated? <==> Invoked(s.log) && o.update.Success?
    ensures s.log.UpdateFailed? ==> s.log.cause == o.update.error
    // the adopted address changes only through a successful update, and then to its address
    ensures s.log.Updated? ==> s.lastIp == s.log.ip
    ensures !s.log.Updated? ==> s.lastIp == lastIp
  {
    match o.lookup
    case Failure(cause) => Step(lastIp, LookupError(cause))
    case Success(ip) =>
      if lastIp == ip then Step(lastIp, Unchanged(ip))
      else if o.update.Failure? then Step(lastIp, UpdateFailed(ip, o.update.error))
      else Step(ip, Updated(ip))
  }

  /** The adopted address at the end and the log of every cycle. */
  datatype Trace = Trace(lastIp: string, logs: seq<Log>)

  /** Consecutive cycles from adopted address `lastIp`, one per observation. */
  function Runs(lastIp: string, obs: seq<Observation>): (t: Trace)
    ensures |t.logs| == |obs|
    decreases |obs|
  {
    if |obs| == 0 then Trace(lastIp, [])
    else
      var s := Run(lastIp, obs[0]);
      var rest := Runs(s.lastIp, obs[1..]);
      Trace(rest.lastIp, [s.log] + rest.logs)
  }

  /** Reference definition of the adopted address after a history of cycles: the address
      of the most recent successful update, or `init` when there was none. */
  function LastConfirmed(init: string, logs: seq<Log>): string
    decreases |logs|
  {
    if |logs| == 0 then init
    else if logs[|logs| - 1].Updated? then logs[|logs| - 1].ip
    else LastConfirmed(init, logs[..|logs| - 1])
  }

  lemma {:induction false} LastConfirmedPrepend(init: string, l: Log, logs: seq<Log>)
    ensures LastConfirmed(init, [l] + logs) == LastConfirmed(LastConfirmed(init, [l]), logs)
    decreases |logs|
  {
    if |logs| > 0 {
      var n := |logs| - 1;
      assert ([l] + logs)[..|[l] + logs| - 1] == [l] + logs[..n];
      LastConfirmedPrepend(init, l, logs[..n]);
    } else {
      assert [l] + logs == [l];
    }
  }

  /** The state the fold carries is exactly the reference definition applied to the logs. */
  lemma {:induction false} FinalIsLastConfirmed(init: string, obs: seq<Observation>)
    ensures Runs(init, obs).lastIp == LastConfirmed(init, Runs(init, obs).logs)
    decreases |obs|
  {
    if |obs| > 0 {
      var s := Run(init, obs[0]);
      FinalIsLastConfirmed(s.lastIp, obs[1..]);
      LastConfirmedPrepend(init, s.log, Runs(s.lastIp, obs[1..]).logs);
      assert [s.log][..0] == [];
    }
  }

  /** Every cycle in a history behaves as a single cycle from the address of the most recent
      successful update before it: the updater is invoked at cycle `j` exactly when that
      cycle's lookup succeeded with a different address, so a failed update is retried
      and an adopted address is never pushed again while it stays current. */
  lemma {:induction false} EachCycleSeesLastConfirmed(init: string, obs: seq<Observation>)
    ensures forall j :: 0 <= j < |obs| ==>
      Runs(init, obs).logs[j] == Run(LastConfirmed(init, Runs(init, obs).logs[..j]), obs[j]).log
    ensures forall j :: 0 <= j < |obs| ==>
      (Invoked(Runs(init, obs).logs[j]) <==>
        obs[j].lookup.Success? && obs[j].lookup.value != LastConfirmed(init, Runs(init, obs).logs[..j]))
    decreases |obs|
  {
    if |obs| > 0 {
      var s := Run(init, obs[0]);
      var rest := Runs(s.lastIp, obs[1..]);
      var logs := Runs(init, obs).logs;
      EachCycleSeesLastConfirmed(s.lastIp, obs[1..]);
      forall j | 0 <= j < |obs|
        ensures logs[j] == Run(LastConfirmed(init, logs[..j]), obs[j]).log
      {
        if j == 0 {
          assert logs[..0] == [];
        } else {
          PrefixAfterFirst(init, s.log, rest.logs, j);
          assert logs[j] == rest.logs[j - 1];
          assert obs[j] == obs[1..][j - 1];
        }
      }
    }
  }

  /** The most recent successful update before cycle `j` of a history that starts with `l`
      is the one before cycle `j - 1` of the rest, starting from where `l` left off. */
  lemma PrefixAfterFirst(init: string, l: Log, rest: seq<Log>, j: nat)
    requires 0 < j <= |rest|
    ensures LastConfirmed(init, ([l] + rest)[..j])
         == LastConfirmed(if l.Updated? then l.ip else init, rest[..j - 1])
  {
    assert ([l] + rest)[..j] == [l] + rest[..j - 1];
    LastConfirmedPrepend(init, l, rest[..j - 1]);
    assert [l][..0] == [];
  }

  /** All lookups either failed or returned `ip`. */
  predicate SteadyAt(ip: string, obs: seq<Observation>) {
    forall j :: 0 <= j < |obs| ==> obs[j].lookup.Success? ==> obs[j].lookup.value == ip
  }

  /** Once `ip` is adopted, cycles that keep seeing `ip` never invoke the updater. */
  lemma {:induction false} SettledStaysQuiet(ip: string, obs: seq<Observation>)
    requires SteadyAt(ip, obs)
    ensures Runs(ip, obs).lastIp == ip
    ensures forall j :: 0 <= j < |obs| ==> !Invoked(Runs(ip, obs).logs[j])
    decreases |obs|
  {
    if |obs| > 0 {
      assert SteadyAt(ip, obs[1..]) by {
        forall j | 0 <= j < |obs| - 1 ensures obs[1..][j] == obs[j + 1] { }
      }
      SettledStaysQuiet(ip, obs[1..]);
    }
  }

  /** While the address stays at `ip`, a successful update to it is followed by no further
      call of the updater; in particular, when every update succeeds, the updater runs at most once. */
  lemma {:induction false} SteadyAddressUpdatedOnce(init: string, ip: string, obs: seq<Observation>)
    requires SteadyAt(ip, obs)
    ensures forall i, j :: 0 <= i < j < |obs| && Runs(init, obs).logs[i].Updated? ==> !Invoked(Runs(init, obs).logs[j])
    ensures (forall j :: 0 <= j < |obs| ==> obs[j].update.Success?) ==>
      forall i, j :: 0 <= i < j < |obs| && Invoked(Runs(init, obs).logs[i]) ==> !Invoked(Runs(init, obs).logs[j])
    decreases |obs|
  {
    if |obs| > 0 {
      var s := Run(init, obs[0]);
      var logs := Runs(init, obs).logs;
      var rest := Runs(s.lastIp, obs[1..]);
      assert SteadyAt(ip, obs[1..]) by {
        forall j | 0 <= j < |obs| - 1 ensures obs[1..][j] == obs[j + 1] { }
      }
      SteadyAddressUpdatedOnce(s.lastIp, ip, obs[1..]);
      if s.log.Updated? {
        SettledStaysQuiet(ip, obs[1..]);
      }
      forall i, j | 0 <= i < j < |obs| && logs[i].Updated?
        ensures !Invoked(logs[j])
      {
        assert logs[j] == rest.logs[j - 1];
        if i > 0 {
          assert logs[i] == rest.logs[i - 1];
        }
      }
    }
  }

  /** While every update of a new address fails, each cycle seeing it invokes the updater
      again and the adopted address does not move. */
  lemma {:induction false} FailedUpdateIsRetried(init: string, ip: string, obs: seq<Observation>)
    requires ip != init
    requires forall j :: 0 <= j < |obs| ==> obs[j].lookup == Success(ip) && obs[j].update.Failure?
    ensures Runs(init, obs).lastIp == init
    ensures forall j :: 0 <= j < |obs| ==> Runs(init, obs).logs[j] == UpdateFailed(ip, obs[j].update.error)
    decreases |obs|
  {
    if |obs| > 0 {
      assert forall j :: 0 <= j < |obs| - 1 ==> obs[1..][j] == obs[j + 1];
      FailedUpdateIsRetried(init, ip, obs[1..]);
    }
  }

  /** When the updater never succeeds, no address is ever adopted. */
  lemma {:induction false} FailingUpdaterNeverAdopts(init: string, obs: seq<Observation>)
    requires forall j :: 0 <= j < |obs| ==> obs[j].lookup.Success? ==> obs[j].update.Failure?
    ensures Runs(init, obs).lastIp == init
    ensures forall j :: 0 <= j < |obs| ==> !Runs(init, obs).logs[j].Updated?
    decreases |obs|
  {
    if |obs| > 0 {
      assert forall j :: 0 <= j < |obs| - 1 ==> obs[1..][j] == obs[j + 1];
      FailingUpdaterNeverAdopts(init, obs[1..]);
    }
  }

  /** Until the first successful update, a lookup returning the starting address is "no
      change"; the process starts from the empty address, so an empty echo body is skipped. */
  lemma StartingAddressIsNoChange(init: string, obs: seq<Observation>, j: nat)
    requires j < |obs|
    requires obs[j].lookup == Success(init)
    requires forall i :: 0 <= i < j ==> !Runs(init, obs).logs[i].Updated?
    ensures Runs(init, obs).logs[j] == Unchanged(init)
  {
    var logs := Runs(init, obs).logs;
    EachCycleSeesLastConfirmed(init, obs);
    NoUpdateKeepsInit(init, logs[..j]);
  }

  lemma EmptyBodyBeforeFirstUpdateIsNoChange(obs: seq<Observation>, j: nat)
    requires j < |obs|
    requires obs[j].lookup == Success("")
    requires forall i :: 0 <= i < j ==> !Runs(InitialLastIp, obs).logs[i].Updated?
    ensures Runs(InitialLastIp, obs).logs[j] == Unchanged("")
  {
    StartingAddressIsNoChange(InitialLastIp, obs, j);
  }

  lemma {:induction false} NoUpdateKeepsInit(init: string, logs: seq<Log>)
    requires forall i :: 0 <= i < |logs| ==> !logs[i].Updated?
    ensures LastConfirmed(init, logs) == init
    decreases |logs|
  {
    if |logs| > 0 {
      NoUpdateKeepsInit(init, logs[..|logs| - 1]);
    }
  }

  /** The end-to-end scenario: a first cycle adopts the echoed address, the next one skips. */
  lemma FirstAddressAdoptedThenSkipped(ip: string, second: Result<(), string>)
    requires ip != ""
    ensures Runs(InitialLastIp, [Observation(Success(ip), Success(())), Observation(Success(ip), second)])
         == Trace(ip, [Updated(ip), Unchanged(ip)])
  {
    var obs := [Observation(Success(ip), Success(())), Observation(Success(ip), second)];
    assert obs[1..][1..] == [];
    assert Runs(ip, obs[1..]) == Trace(ip, [Unchanged(ip)]);
  }
}
