/**
  The module-level tables of tool dispatch and the operations that update them in place, each
  tied to one step of the system in `Dispatching`.
*/
module ToolDispatch {
  import opened Wrappers
  import opened RateLimits
  import opened Breakers
  import opened Dispatching

  class ToolDispatcher {
    var registry: set<string>
    var rateLimitPerMin: int
    var perToolRateLimits: map<string, int>
    var rateWindows: map<string, seq<real>>
    var circuitBreaker: map<string, Breaker>
    var openThreshold: int
    var resetS: real
    var callLog: seq<LogEntry>

    /** The log is a deque of bounded length. */
    ghost predicate Valid()
      reads this
    {
      |callLog| <= LOG_LENGTH
    }

    ghost function Abstract(): State
      reads this
    {
      State(Config(registry, rateLimitPerMin, perToolRateLimits, openThreshold, resetS),
            rateWindows, circuitBreaker, callLog)
    }

    constructor (registry: set<string>, rateLimitPerMin: int, openThreshold: int, resetS: real, ghost start: real)
      ensures Valid() && Abstract() ==
              Run(Config(registry, rateLimitPerMin, map[], openThreshold, resetS), start, []).Current()
    {
      this.registry, this.rateLimitPerMin, this.openThreshold, this.resetS :=
        registry, rateLimitPerMin, openThreshold, resetS;
      perToolRateLimits, rateWindows, circuitBreaker, callLog := map[], map[], map[], [];
    }

    method SetPerToolRateLimit(tool: string, limitPerMin: int)
      modifies this
      ensures Abstract() == Apply(old(Abstract()), SetRateLimit(tool, limitPerMin))
    {
      perToolRateLimits := perToolRateLimits[tool := if limitPerMin < 1 then 1 else limitPerMin];
    }

    method SetCircuitBreakerThresholds(threshold: Option<int>, reset: Option<real>)
      modifies this
      ensures Abstract() == Apply(old(Abstract()), SetThresholds(threshold, reset))
    {
      if threshold.Some? {
        openThreshold := if threshold.value < 1 then 1 else threshold.value;
      }
      if reset.Some? {
        resetS := if reset.value < 1.0 then 1.0 else reset.value;
      }
    }

    /** True if the circuit lets the call through; an expired circuit is reset on the way. */
    method CheckBreaker(tool: string, now: real) returns (passes: bool)
      modifies this
      ensures passes <==> !Refuses(old(Abstract()).BreakerOf(tool), now, resetS)
      ensures Abstract() == if passes then ProbeBreaker(old(Abstract()), tool, now) else old(Abstract())
    {
      if tool !in circuitBreaker {
        return true;
      }
      var state := circuitBreaker[tool];
      if state.open {
        if now - state.openedAt < resetS {
          return false;
        }
        circuitBreaker := circuitBreaker[tool := Breaker(0, false, state.openedAt)];
      }
      return true;
    }

    /** Records a finished call; true if this opened the circuit. */
    method RecordOutcome(tool: string, success: bool, now: real) returns (trips: bool)
      modifies this
      ensures circuitBreaker == old(circuitBreaker)[
                tool := AfterRecord(old(Abstract()).BreakerOf(tool), success, now, openThreshold)]
      ensures Abstract() == old(Abstract()).(breakers := circuitBreaker)
      ensures trips <==> Opens(old(Abstract()).BreakerOf(tool), success, openThreshold)
      ensures success ==> !trips && circuitBreaker[tool].failures == 0 && !circuitBreaker[tool].open
      ensures !success ==> circuitBreaker[tool].failures == old(Abstract()).BreakerOf(tool).failures + 1
    {
      trips := false;
      var state := if tool in circuitBreaker then circuitBreaker[tool] else Breaker(0, false, 0.0);
      if success {
        state := state.(failures := 0, open := false);
      } else {
        state := state.(failures := state.failures + 1);
        if state.failures >= openThreshold && !state.open {
          state := state.(open := true, openedAt := now);
          trips := true;
        }
      }
      circuitBreaker := circuitBreaker[tool := state];
    }

    /** The sliding window: old timestamps are popped from the front, then the rest counted. */
    method CheckRateLimit(tool: string, now: real) returns (admitted: bool)
      modifies this
      ensures admitted <==> Admits(old(Abstract()).WindowOf(tool), now, old(Abstract()).config.LimitOf(tool))
      ensures Abstract() == CheckRate(old(Abstract()), tool, now)
    {
      var limit := if tool in perToolRateLimits then perToolRateLimits[tool] else rateLimitPerMin;
      var window := if tool in rateWindows then rateWindows[tool] else [];
      while window != [] && now - window[0] > 60.0
        invariant Evict(window, now) == Evict(old(Abstract()).WindowOf(tool), now)
      {
        window := window[1..];
      }
      admitted := |window| < limit;
      if admitted {
        window := window + [now];
      }
      rateWindows := rateWindows[tool := window];
    }

    /** Everything before the tool is awaited. */
    method BeginDispatch(tool: string, checkNow: real, rateNow: real) returns (verdict: Verdict)
      modifies this
      ensures verdict == VerdictOf(old(Abstract()), tool, checkNow, rateNow)
      ensures Abstract() == Apply(old(Abstract()), Begin(tool, checkNow, rateNow))
    {
      if tool !in registry {
        return UnknownTool;
      }
      var passes := CheckBreaker(tool, checkNow);
      if !passes {
        return CircuitOpen;
      }
      var admitted := CheckRateLimit(tool, rateNow);
      return if admitted then Admitted else RateLimited;
    }

    /**
      Everything after it: the breaker learns the outcome and the bounded log one entry.  When
      the arguments are no dictionary, listing their keys raises between the two: no entry.
    */
    method FinishDispatch(tool: string, outcome: Outcome, keyed: bool, now: real)
      returns (entry: Option<LogEntry>, trips: bool)
      requires Valid()
      modifies this
      ensures Valid()
      ensures entry == if keyed then Some(LogEntry(tool, outcome.LoggedStatus())) else None
      ensures outcome.Returned? ==>
                !trips && Abstract().BreakerOf(tool).failures == 0 && !Abstract().BreakerOf(tool).open
      ensures outcome == TimedOut || outcome == Raised ==>
                Abstract().BreakerOf(tool).failures == old(Abstract()).BreakerOf(tool).failures + 1
      ensures trips <==> Opens(old(Abstract()).BreakerOf(tool), outcome.Returned?, old(openThreshold))
      ensures Abstract() == Apply(old(Abstract()), Finish(tool, outcome, keyed, now))
    {
      hide AfterRecord; hide Opens;
      var status;
      match outcome {
        case Returned(s, tooLong) =>
          status := if tooLong then Partial else s;
          trips := RecordOutcome(tool, true, now);
        case TimedOut =>
          status := Error;
          trips := RecordOutcome(tool, false, now);
        case Raised =>
          status := Error;
          trips := RecordOutcome(tool, false, now);
      }
      if !keyed {
        return None, trips;
      }
      AppendEntry(LogEntry(tool, status));
      entry := Some(LogEntry(tool, status));
    }

    /** Appending to the bounded deque. */
    method AppendEntry(logged: LogEntry)
      requires Valid()
      modifies this`callLog
      ensures Valid() && callLog == Push(old(callLog), logged)
    {
      assert (callLog + [logged])[1..] == if callLog == [] then [] else callLog[1..] + [logged];
      if |callLog| == LOG_LENGTH {
        callLog := callLog[1..];
      }
      callLog := callLog + [logged];
    }
  }
}
