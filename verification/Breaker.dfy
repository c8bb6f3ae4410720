/**
 The circuit breaker, and what its state says about the calls it has seen.
 The log records the calls and resets in the order in which they reach the breaker; `Observe` is the breaker as a function of the log.
 */
module Breaker {
  import opened Domain

  datatype CircuitState = Closed | Open | HalfOpen

  datatype Config = Config(failureThreshold: nat, resetTimeoutMs: nat, successThreshold: nat)

  // A call asks to start, or a started call ends well or badly, or an operator resets; calls may overlap in any way.
  datatype Event = Asked(at: Time) | Succeeded(at: Time) | FailedCall(at: Time) | WasReset(at: Time)

  datatype View = View(state: CircuitState, failureCount: nat, successCount: nat, nextAttempt: Time)

  // A threshold below one acts like one: the first failure (or probe success) reaches it.
  function Limit(threshold: nat): nat {
    if threshold < 1 then 1 else threshold
  }

  const FRESH := View(Closed, 0, 0, 0)

  function Probed(v: View, now: Time): View {
    if v.state == Open && now >= v.nextAttempt then v.(state := HalfOpen, successCount := 0) else v
  }

  function AfterSuccess(v: View, cfg: Config): View {
    match v.state
    case HalfOpen =>
      if v.successCount + 1 >= cfg.successThreshold
      then v.(state := Closed, failureCount := 0, successCount := 0)
      else v.(successCount := v.successCount + 1)
    case Closed => v.(failureCount := 0)
    case Open => v
  }

  function AfterFailure(v: View, cfg: Config, now: Time): View {
    var failed := v.(failureCount := v.failureCount + 1);
    if v.state == HalfOpen || failed.failureCount >= cfg.failureThreshold
    then failed.(state := Open, nextAttempt := now + cfg.resetTimeoutMs)
    else failed
  }

  function Next(v: View, cfg: Config, e: Event): View {
    match e
    case Asked(at) => Probed(v, at)
    case Succeeded(at) => AfterSuccess(v, cfg)
    case FailedCall(at) => AfterFailure(v, cfg, at)
    case WasReset(at) => FRESH
  }

  function Observe(cfg: Config, log: seq<Event>): View {
    if log == [] then FRESH else Next(Observe(cfg, log[..|log|-1]), cfg, log[|log|-1])
  }

  // ---------- what can be read off the log alone ----------

  /** Failures at the end of the log since the last success or reset, asks not counted. */
  function FailuresInARow(log: seq<Event>): nat {
    if log == [] then 0
    else
      var front := log[..|log|-1];
      match log[|log|-1]
      case FailedCall(_) => FailuresInARow(front) + 1
      case Asked(_) => FailuresInARow(front)
      case _ => 0
  }

  /** When the last failure of the log was, if it has one after its last reset. */
  function LastFailure(log: seq<Event>): Option<Time> {
    if log == [] then None
    else
      match log[|log|-1]
      case FailedCall(at) => Some(at)
      case WasReset(_) => None
      case _ => LastFailure(log[..|log|-1])
  }

  function Successes(log: seq<Event>): nat {
    if log == [] then 0 else Successes(log[..|log|-1]) + if log[|log|-1].Succeeded? then 1 else 0
  }

  /** Event i lets the first call through after the timeout, and nothing since was a failure or a reset. */
  ghost predicate ProbedAt(cfg: Config, log: seq<Event>, i: nat) {
    i < |log| && log[i].Asked?
    && LastFailure(log[..i]).Some? && log[i].at >= LastFailure(log[..i]).value + cfg.resetTimeoutMs
    && forall j | i < j < |log| :: !log[j].FailedCall? && !log[j].WasReset?
  }

  /** What the breaker's fields say about its log. */
  ghost predicate Explains(cfg: Config, log: seq<Event>, v: View) {
    (v.state == Closed <==> v.failureCount < Limit(cfg.failureThreshold))
    && (v.state == Closed ==> v.failureCount == FailuresInARow(log))
    && (v.state == Open ==> LastFailure(log).Some? && v.nextAttempt == LastFailure(log).value + cfg.resetTimeoutMs)
    && (v.state == HalfOpen ==>
          v.successCount < Limit(cfg.successThreshold)
          && exists i: nat :: ProbedAt(cfg, log, i) && v.successCount == Successes(log[i+1..]))
  }

  /** The breaker refines its history: CLOSED holds exactly below the failure threshold, and then counts the failures in a
      row; OPEN lasts until the timeout after the last failure; HALF_OPEN counts the successes since its probe, no failure
      having come in between. */
  lemma {:induction false} BreakerExplainsLog(cfg: Config, log: seq<Event>)
    ensures Explains(cfg, log, Observe(cfg, log))
    decreases |log|
  {
    if log != [] {
      var front, e := log[..|log|-1], log[|log|-1];
      BreakerExplainsLog(cfg, front);
      var before, after := Observe(cfg, front), Observe(cfg, log);
      if after.state == HalfOpen {
        if before.state == HalfOpen {
          var i: nat :| ProbedAt(cfg, front, i) && before.successCount == Successes(front[i+1..]);
          assert log == front + [e];
          ProbeGoesOn(cfg, front, e, i);
        } else {
          var i := |log| - 1;
          assert log[..i] == front && log[i+1..] == [];
          assert ProbedAt(cfg, log, i) && after.successCount == Successes(log[i+1..]);
        }
      }
    }
  }

  lemma ProbeGoesOn(cfg: Config, front: seq<Event>, e: Event, i: nat)
    requires ProbedAt(cfg, front, i) && !e.FailedCall? && !e.WasReset?
    ensures ProbedAt(cfg, front + [e], i)
    ensures Successes((front + [e])[i+1..]) == Successes(front[i+1..]) + if e.Succeeded? then 1 else 0
  {
    var log := front + [e];
    assert log[..i] == front[..i];
    assert log[i+1..] == front[i+1..] + [e];
    assert (front[i+1..] + [e])[..|front[i+1..]|] == front[i+1..];
  }

  /** Without a reset, the breaker closes only after a probe that came no sooner than the timeout after the last failure,
      followed by the required number of successes with no failure in between. */
  lemma ClosingNeedsSuccesses(cfg: Config, log: seq<Event>, e: Event)
    requires !e.WasReset? && Observe(cfg, log).state != Closed && Observe(cfg, log + [e]).state == Closed
    ensures exists i: nat :: ProbedAt(cfg, log + [e], i)
                             && Successes((log + [e])[i+1..]) == Limit(cfg.successThreshold)
  {
    BreakerExplainsLog(cfg, log);
    assert (log + [e])[..|log|] == log;
    var v := Observe(cfg, log);
    assert v.state == HalfOpen && e.Succeeded?;
    var i: nat :| ProbedAt(cfg, log, i) && v.successCount == Successes(log[i+1..]);
    ProbeGoesOn(cfg, log, e, i);
  }

  /** From a probe of an OPEN breaker on, as long as no failure and no reset comes in, it is HALF_OPEN until the required number
      of successes is reached, and CLOSED from then on. */
  lemma {:induction false} SuccessesClose(cfg: Config, log: seq<Event>, i: nat)
    requires ProbedAt(cfg, log, i) && Observe(cfg, log[..i]).state == Open
    ensures var v := Observe(cfg, log);
            if Successes(log[i+1..]) >= Limit(cfg.successThreshold) then v.state == Closed
            else v.state == HalfOpen && v.successCount == Successes(log[i+1..])
    decreases |log|
  {
    var front, e := log[..|log|-1], log[|log|-1];
    if i == |log| - 1 {
      BreakerExplainsLog(cfg, front);
      assert log[..i] == front && log[i+1..] == [];
    } else {
      assert front[..i] == log[..i] && log == front + [e];
      assert forall j | i < j < |front| :: front[j] == log[j];
      SuccessesClose(cfg, front, i);
      ProbeGoesOn(cfg, front, e, i);
    }
  }

  /** The breaker trips exactly on the failure that completes a threshold's worth of failures in a row. */
  lemma TripsOnThreshold(cfg: Config, log: seq<Event>, at: Time)
    requires Observe(cfg, log).state == Closed
    ensures Observe(cfg, log + [FailedCall(at)]).state == Open
            <==> FailuresInARow(log + [FailedCall(at)]) == Limit(cfg.failureThreshold)
  {
    BreakerExplainsLog(cfg, log);
    assert (log + [FailedCall(at)])[..|log|] == log;
  }

  class CircuitBreaker {
    const cfg: Config
    var state: CircuitState
    var failureCount: nat
    var successCount: nat
    var nextAttempt: Time
    ghost var log: seq<Event>

    ghost predicate Valid()
      reads this
    {
      View(state, failureCount, successCount, nextAttempt) == Observe(cfg, log)
    }

    constructor (cfg: Config)
      ensures Valid() && log == [] && this.cfg == cfg && state == Closed
    {
      this.cfg := cfg;
      state, failureCount, successCount, nextAttempt := Closed, 0, 0, 0;
      log := [];
    }

    method GetState(now: Time) returns (current: CircuitState)
      requires Valid()
      modifies this
      ensures Valid() && log == old(log) + [Asked(now)] && current == state
      ensures old(state) == Open ==>
                LastFailure(old(log)).Some?
                && (current == HalfOpen <==> now >= LastFailure(old(log)).value + cfg.resetTimeoutMs)
      ensures old(state) != Open ==> current == old(state)
    {
      BreakerExplainsLog(cfg, log);
      if state == Open && now >= nextAttempt {
        state := HalfOpen;
        successCount := 0;
      }
      log := log + [Asked(now)];
      assert log[..|log|-1] == old(log);
      current := state;
    }

    /** The start of a call: refused while OPEN, with the least number of whole seconds, one or more, after which the next
        attempt is due. The clock is read again (`later`) to work out the wait. */
    method StartCall(now: Time, later: Time) returns (allowed: bool, retryAfterSec: int)
      requires Valid()
      modifies this
      ensures Valid() && log == old(log) + [Asked(now)]
      ensures allowed <==> (old(state) == Open ==>
                              LastFailure(old(log)).Some? && now >= LastFailure(old(log)).value + cfg.resetTimeoutMs)
      ensures allowed <==> state != Open
      ensures !allowed ==> now < nextAttempt <= later + 1000 * retryAfterSec && retryAfterSec >= 1
      ensures !allowed && retryAfterSec > 1 ==> later + 1000 * (retryAfterSec - 1) < nextAttempt
    {
      var current := GetState(now);
      allowed := current != Open;
      retryAfterSec := 0;
      if !allowed {
        BreakerExplainsLog(cfg, old(log));
        assert log[..|log|-1] == old(log);
        var seconds := (nextAttempt - later + 999) / 1000;
        retryAfterSec := if seconds < 1 then 1 else seconds;
      }
    }

    method OnSuccess(now: Time)
      requires Valid()
      modifies this
      ensures Valid() && log == old(log) + [Succeeded(now)]
      ensures old(state) == Closed ==> state == Closed && failureCount == 0
      ensures old(state) == Open ==> state == Open && nextAttempt == old(nextAttempt)
    {
      if state == HalfOpen {
        successCount := successCount + 1;
        if successCount >= cfg.successThreshold {
          state := Closed;
          failureCount := 0;
          successCount := 0;
        }
      } else if state == Closed {
        failureCount := 0;
      }
      log := log + [Succeeded(now)];
      assert log[..|log|-1] == old(log);
    }

    method OnFailure(now: Time)
      requires Valid()
      modifies this
      ensures Valid() && log == old(log) + [FailedCall(now)]
      ensures old(state) != Closed ==> state == Open && nextAttempt == now + cfg.resetTimeoutMs
      ensures old(state) == Closed ==> (state == Open <==> FailuresInARow(log) == Limit(cfg.failureThreshold))
    {
      BreakerExplainsLog(cfg, log);
      if state == Closed {
        TripsOnThreshold(cfg, log, now);
      }
      failureCount := failureCount + 1;
      if state == HalfOpen || failureCount >= cfg.failureThreshold {
        state := Open;
        nextAttempt := now + cfg.resetTimeoutMs;
      }
      log := log + [FailedCall(now)];
      assert log[..|log|-1] == old(log);
    }

    method Reset(now: Time)
      requires Valid()
      modifies this
      ensures Valid() && log == old(log) + [WasReset(now)] && state == Closed
    {
      state, failureCount, successCount, nextAttempt := Closed, 0, 0, 0;
      log := log + [WasReset(now)];
      assert log[..|log|-1] == old(log);
    }
  }
}
