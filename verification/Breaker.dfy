/** The circuit breaker (`internal/llm/breaker.go`): its fields refine what the trace of requests and
    recorded outcomes says. Time is a number the caller passes. */
module CircuitBreaker {
  datatype Circuit = Closed | Open | HalfOpen

  datatype Fields = Fields(state: Circuit, failures: nat, openedAt: int)

  const NEW := Fields(Closed, 0, 0)

  datatype Event = Request(now: int) | Success | Failure(now: int)

  datatype Settings = Settings(threshold: int, cooldown: int)

  // ---------- One atomic operation ----------

  predicate Admits(b: Fields, cfg: Settings, now: int) {
    b.state == Closed || (b.state == Open && now - b.openedAt >= cfg.cooldown)
  }

  function After(b: Fields, cfg: Settings, e: Event): Fields {
    match e
    case Request(now) => if b.state == Open && Admits(b, cfg, now) then b.(state := HalfOpen) else b
    case Success => b.(state := Closed, failures := 0)
    case Failure(now) =>
      if b.failures + 1 >= cfg.threshold then Fields(Open, b.failures + 1, now) else b.(failures := b.failures + 1)
  }

  class Breaker {
    const cfg: Settings
    var state: Circuit
    var failures: nat
    var openedAt: int
    var lastErr: string

    ghost function Value(): Fields
      reads this
    {
      Fields(state, failures, openedAt)
    }

    constructor (threshold: int, cooldown: int)
      ensures cfg == Settings(threshold, cooldown) && Value() == NEW
    {
      cfg := Settings(threshold, cooldown);
      state, failures, openedAt, lastErr := Closed, 0, 0, "";
    }

    /** Whether a request may proceed; an open circuit past its cooldown lets one probe through. */
    method Allow(now: int) returns (ok: bool)
      modifies this
      ensures ok <==> Admits(old(Value()), cfg, now)
      ensures Value() == After(old(Value()), cfg, Request(now)) && lastErr == old(lastErr)
    {
      if state == Closed {
        return true;
      }
      match state {
        case Closed => return true;
        case Open =>
          if now - openedAt >= cfg.cooldown {
            state := HalfOpen;
            return true;
          }
          return false;
        case HalfOpen => return false;
      }
    }

    method RecordSuccess()
      modifies this
      ensures Value() == After(old(Value()), cfg, Success) && lastErr == ""
    {
      failures := 0;
      lastErr := "";
      state := Closed;
    }

    method RecordFailure(now: int, err: string)
      modifies this
      ensures Value() == After(old(Value()), cfg, Failure(now)) && lastErr == err
    {
      failures := failures + 1;
      lastErr := err;
      if failures >= cfg.threshold {
        state := Open;
        openedAt := now;
      }
    }
  }

  // ---------- What the trace says ----------

  type Trace = seq<Event>

  function Replay(cfg: Settings, t: Trace): Fields {
    if t == [] then NEW else After(Replay(cfg, t[..|t| - 1]), cfg, t[|t| - 1])
  }

  /** Failures recorded since the last success. */
  function FailuresSinceSuccess(t: Trace): nat {
    if t == [] then 0
    else match t[|t| - 1]
      case Request(_) => FailuresSinceSuccess(t[..|t| - 1])
      case Success => 0
      case Failure(_) => FailuresSinceSuccess(t[..|t| - 1]) + 1
  }

  /** When the latest failure was recorded; 0 if there was none. */
  function LatestFailure(t: Trace): int {
    if t == [] then 0
    else match t[|t| - 1]
      case Failure(now) => now
      case _ => LatestFailure(t[..|t| - 1])
  }

  /** Since the last recorded outcome, a request came after the cooldown. */
  predicate Probed(cfg: Settings, t: Trace) {
    t != [] && match t[|t| - 1]
      case Request(now) => Probed(cfg, t[..|t| - 1]) || now - LatestFailure(t[..|t| - 1]) >= cfg.cooldown
      case _ => false
  }

  /** Requests admitted since the last recorded outcome. */
  function AdmittedSinceOutcome(cfg: Settings, t: Trace): nat {
    if t == [] || !t[|t| - 1].Request? then 0
    else
      var before := t[..|t| - 1];
      AdmittedSinceOutcome(cfg, before) + if Admits(Replay(cfg, before), cfg, t[|t| - 1].now) then 1 else 0
  }

  /** After any history the breaker is closed exactly when the failures since the last success are below the
      threshold, and otherwise half-open exactly when a probe has been let through since the last outcome. */
  lemma {:induction false} RefinesTrace(cfg: Settings, t: Trace)
    requires cfg.threshold >= 1
    ensures
      var b := Replay(cfg, t);
      && b.failures == FailuresSinceSuccess(t)
      && (b.state == Closed <==> FailuresSinceSuccess(t) < cfg.threshold)
      && (b.state == HalfOpen <==> FailuresSinceSuccess(t) >= cfg.threshold && Probed(cfg, t))
      && (b.state != Closed ==> b.openedAt == LatestFailure(t))
  {
    if t == [] {
    } else {
      RefinesTrace(cfg, t[..|t| - 1]);
    }
  }

  /** A request is admitted exactly when failures are below the threshold, or it is the first one at least a
      cooldown after the latest failure. */
  lemma AdmittedIff(cfg: Settings, t: Trace, now: int)
    requires cfg.threshold >= 1
    ensures Admits(Replay(cfg, t), cfg, now) <==>
      || FailuresSinceSuccess(t) < cfg.threshold
      || (!Probed(cfg, t) && now - LatestFailure(t) >= cfg.cooldown)
  {
    RefinesTrace(cfg, t);
  }

  /** While tripped, one request is admitted between two recorded outcomes if any comes after the cooldown,
      and none otherwise. */
  lemma {:induction false} OneProbe(cfg: Settings, t: Trace)
    requires cfg.threshold >= 1 && FailuresSinceSuccess(t) >= cfg.threshold
    ensures AdmittedSinceOutcome(cfg, t) == if Probed(cfg, t) then 1 else 0
  {
    if t == [] || !t[|t| - 1].Request? {
    } else {
      OneProbe(cfg, t[..|t| - 1]);
      AdmittedIff(cfg, t[..|t| - 1], t[|t| - 1].now);
    }
  }

  /** A probe whose outcome is never recorded blocks every later request, however late. */
  lemma {:induction false} UnrecordedProbeBlocks(cfg: Settings, t: Trace, later: Trace, now: int)
    requires cfg.threshold >= 1 && FailuresSinceSuccess(t) >= cfg.threshold && Probed(cfg, t)
    requires forall e :: e in later ==> e.Request?
    ensures !Admits(Replay(cfg, t + later), cfg, now)
    ensures FailuresSinceSuccess(t + later) >= cfg.threshold && Probed(cfg, t + later)
  {
    if later == [] {
      assert t + later == t;
    } else {
      var before := later[..|later| - 1];
      UnrecordedProbeBlocks(cfg, t, before, now);
      assert (t + later)[..|t + later| - 1] == t + before;
    }
    AdmittedIff(cfg, t + later, now);
  }

  /** The threshold must be positive: only then is the closed state what the failure count says on every history. */
  lemma ThresholdMatters(cfg: Settings)
    ensures (forall t :: Replay(cfg, t).state == Closed <==> FailuresSinceSuccess(t) < cfg.threshold) <==> cfg.threshold >= 1
  {
    if cfg.threshold >= 1 {
      forall t
        ensures Replay(cfg, t).state == Closed <==> FailuresSinceSuccess(t) < cfg.threshold
      {
        RefinesTrace(cfg, t);
      }
    } else {
      assert Replay(cfg, []).state == Closed && FailuresSinceSuccess([]) == 0;
    }
  }
}
