/**
  What the circuit breaker guarantees over whole runs of dispatch, with any number of calls
  in flight, and what dispatch conserves.
*/
module Circuits {
  import opened Wrappers
  import opened Slices
  import opened Intervals
  import opened RateLimits
  import opened Breakers
  import opened Dispatching

  // ----- the breaker of one tool, step by step -----

  predicate ResetsNow(r: Run, tool: string)
    requires !r.Empty()
  {
    r.Last().Begin? && r.Last().tool == tool && tool in r.Before().Current().config.registry
    && Resets(r.Before().Current().BreakerOf(tool), r.Last().checkNow, r.Before().Current().config.reset)
  }

  predicate FinishesNow(r: Run, tool: string)
    requires !r.Empty()
  {
    r.Last().Finish? && r.Last().tool == tool
  }

  lemma BreakerStep(r: Run, tool: string)
    requires !r.Empty()
    ensures var before, after := r.Before().Current().BreakerOf(tool), r.Current().BreakerOf(tool);
            if FinishesNow(r, tool)
            then after == AfterRecord(
                            before, r.Last().outcome.Returned?, r.Last().now, r.Before().Current().config.threshold)
            else after == if ResetsNow(r, tool) then before.(open := false, failures := 0) else before
  {
    hide AfterCheck; hide Admits; hide AfterRecord;
  }

  /**
    What happened to a tool's breaker, in order: failures, each with the threshold in force
    when it was recorded, successes, and half-open resets.
  */
  datatype Mark = Fail(threshold: int) | Success | Reset

  function MarksNow(r: Run, tool: string): seq<Mark>
    requires !r.Empty()
  {
    if FinishesNow(r, tool)
    then [if r.Last().outcome.Returned? then Mark.Success else Fail(r.Before().Current().config.threshold)]
    else if ResetsNow(r, tool) then [Reset]
    else []
  }

  function Marks(r: Run, tool: string): seq<Mark>
    decreases |r.events|
  {
    if r.Empty() then [] else Marks(r.Before(), tool) + MarksNow(r, tool)
  }

  /** The length of the run of failures that ends the marks. */
  function FailureRun(marks: seq<Mark>): (n: nat)
    ensures n <= |marks|
  {
    if marks == [] || !marks[|marks| - 1].Fail? then 0 else 1 + FailureRun(marks[..|marks| - 1])
  }

  lemma FailureRunSnoc(marks: seq<Mark>, m: Mark)
    ensures FailureRun(marks + [m]) == if m.Fail? then FailureRun(marks) + 1 else 0
  {
    assert (marks + [m])[..|marks|] == marks;
  }

  /** Whatever is in flight, and however settings change, the count is the current failure run. */
  lemma {:induction false} CountIsFailureRun(r: Run, tool: string)
    ensures r.Current().BreakerOf(tool).failures == FailureRun(Marks(r, tool))
    decreases |r.events|
  {
    if !r.Empty() {
      CountIsFailureRun(r.Before(), tool);
      BreakerStep(r, tool);
      var marks := Marks(r.Before(), tool);
      if FinishesNow(r, tool) || ResetsNow(r, tool) {
        FailureRunSnoc(marks, MarksNow(r, tool)[0]);
        assert MarksNow(r, tool) == [MarksNow(r, tool)[0]];
      } else {
        assert marks + [] == marks;
      }
    }
  }

  /** Some failure of the current run reached the threshold in force when it was recorded. */
  ghost predicate Tripped(marks: seq<Mark>) {
    exists j :: |marks| - FailureRun(marks) <= j < |marks| && TripsAt(marks, j)
  }

  ghost predicate TripsAt(marks: seq<Mark>, j: int)
    requires 0 <= j < |marks|
  {
    marks[j].Fail? && FailureRun(marks[..j + 1]) >= marks[j].threshold
  }

  lemma TrippedSnoc(marks: seq<Mark>, m: Mark)
    ensures Tripped(marks + [m]) <==> m.Fail? && (Tripped(marks) || FailureRun(marks) + 1 >= m.threshold)
  {
    FailureRunSnoc(marks, m);
    var after := marks + [m];
    assert after[..|marks| + 1] == after;
    forall j | 0 <= j < |marks| ensures TripsAt(after, j) <==> TripsAt(marks, j) {
      assert after[..j + 1] == marks[..j + 1];
    }
    if m.Fail? && FailureRun(marks) + 1 >= m.threshold {
      assert TripsAt(after, |marks|);
    }
  }

  /** The exact law of the open flag, over every run and whatever settings change. */
  lemma {:induction false} OpenIffTripped(r: Run, tool: string)
    ensures r.Current().BreakerOf(tool).open <==> Tripped(Marks(r, tool))
    decreases |r.events|
  {
    if !r.Empty() {
      hide Tripped; hide FailureRun; hide ResetsNow;
      OpenIffTripped(r.Before(), tool);
      CountIsFailureRun(r.Before(), tool);
      BreakerStep(r, tool);
      var marks := Marks(r.Before(), tool);
      if FinishesNow(r, tool) || ResetsNow(r, tool) {
        TrippedSnoc(marks, MarksNow(r, tool)[0]);
        assert MarksNow(r, tool) == [MarksNow(r, tool)[0]];
      } else {
        assert marks + [] == marks;
      }
    }
  }

  /** A change of threshold that jumps over the tool's current failure count. */
  predicate Straddles(failures: nat, before: int, after: int) {
    before <= failures < after || after <= failures < before
  }

  /** No change of the threshold so far straddled the tool's count at that moment. */
  predicate Steady(r: Run, tool: string)
    decreases |r.events|
  {
    r.Empty()
    || (Steady(r.Before(), tool)
        && !Straddles(r.Before().Current().BreakerOf(tool).failures,
                      r.Before().Current().config.threshold, r.Current().config.threshold))
  }

  ghost predicate OpenIsThresholdReached(r: Run, tool: string) {
    r.Current().BreakerOf(tool).open <==> FailureRun(Marks(r, tool)) >= r.Current().config.threshold
  }

  /** The threshold never drops below one. */
  lemma {:induction false} ThresholdPositive(r: Run)
    requires r.config.threshold >= 1
    ensures r.Current().config.threshold >= 1
    decreases |r.events|
  {
    if !r.Empty() {
      ThresholdPositive(r.Before());
    }
  }

  /**
    Under every interleaving the circuit is open exactly when the failure run has reached the
    threshold, as long as no change of the threshold straddles the count ...
  */
  lemma {:induction false} OpenIffThresholdReached(r: Run, tool: string)
    requires r.config.threshold >= 1 && Steady(r, tool)
    ensures OpenIsThresholdReached(r, tool)
    decreases |r.events|
  {
    CountIsFailureRun(r, tool);
    if !r.Empty() {
      CountIsFailureRun(r.Before(), tool);
      OpenIffThresholdReached(r.Before(), tool);
      ThresholdPositive(r.Before());
      BreakerStep(r, tool);
      ThresholdStep(r);
    }
  }

  lemma ThresholdStep(r: Run)
    requires !r.Empty()
    ensures !r.Last().SetThresholds? ==>
              r.Current().config.threshold == r.Before().Current().config.threshold
              && r.Current().config.reset == r.Before().Current().config.reset
  {
  }

  /** ... and the first change that does straddle it breaks the equivalence. */
  lemma {:induction false} StraddlingBreaksIt(r: Run, tool: string)
    requires r.config.threshold >= 1 && !r.Empty() && Steady(r.Before(), tool) && !Steady(r, tool)
    ensures !OpenIsThresholdReached(r, tool)
  {
    CountIsFailureRun(r, tool);
    CountIsFailureRun(r.Before(), tool);
    OpenIffThresholdReached(r.Before(), tool);
    BreakerStep(r, tool);
    ThresholdStep(r);
  }

  /** Raising the threshold above the failures of an open circuit. */
  lemma RaisedAbove(r: Run, tool: string, threshold: int)
    requires r.Valid() && r.Current().BreakerOf(tool).open
    requires r.Current().config.threshold <= r.Current().BreakerOf(tool).failures < threshold
    ensures var s := After(r, [SetThresholds(Some(threshold), None)]);
            s.Valid() && !Steady(s, tool) && s.Current().BreakerOf(tool).open && !OpenIsThresholdReached(s, tool)
  {
    var s := After(r, [SetThresholds(Some(threshold), None)]);
    OneMore(r, SetThresholds(Some(threshold), None));
    BreakerStep(s, tool);
    CountIsFailureRun(s, tool);
  }

  /** Such a run: open after one failure when the threshold has just become two. */
  lemma RaisedThresholdLeavesOpen()
    ensures var config := Config({"t"}, 60, map[], 1, 60.0);
            var r := Run(config, 0.0,
                         [Begin("t", 1.0, 1.0), Finish("t", Raised, true, 2.0), SetThresholds(Some(2), None)]);
            r.Valid() && !Steady(r, "t") && r.Current().BreakerOf("t").open && !OpenIsThresholdReached(r, "t")
  {
    var config := Config({"t"}, 60, map[], 1, 60.0);
    var e1, e2, e3 := Begin("t", 1.0, 1.0), Finish("t", Raised, true, 2.0), SetThresholds(Some(2), None);
    hide Run.Valid; hide Run.Clock; hide Run.Admissions; hide Run.InFlight; hide Run.Current; hide Run.AdmitsNow;
    hide ResetsNow; hide Steady; hide OpenIsThresholdReached;
    StartFacts(config, 0.0, "t");
    CallAdmitted(Run(config, 0.0, []), "t", 1.0);
    assert [] + [e1] == [e1] && [e1] + [e2] == [e1, e2] && [e1, e2] + [e3] == [e1, e2, e3];
    CallFails(Run(config, 0.0, [e1]), "t", 2.0);
    RaisedAbove(Run(config, 0.0, [e1, e2]), "t", 2);
  }

  /** The step opens a closed circuit, which is when the open event is published. */
  predicate OpensNow(r: Run, tool: string)
    requires !r.Empty()
  {
    FinishesNow(r, tool)
    && Opens(r.Before().Current().BreakerOf(tool), r.Last().outcome.Returned?, r.Before().Current().config.threshold)
  }

  function OpenEvents(r: Run, tool: string): nat
    decreases |r.events|
  {
    if r.Empty() then 0 else OpenEvents(r.Before(), tool) + if OpensNow(r, tool) then 1 else 0
  }

  function Flips(r: Run, tool: string, from: bool): nat
    decreases |r.events|
  {
    if r.Empty() then 0
    else Flips(r.Before(), tool, from)
         + if r.Before().Current().BreakerOf(tool).open == from && r.Current().BreakerOf(tool).open != from
           then 1 else 0
  }

  /** One open event for every change from closed to open; and the changes alternate. */
  lemma {:induction false} OpenEventsAreFlips(r: Run, tool: string)
    ensures OpenEvents(r, tool) == Flips(r, tool, false)
    ensures OpenEvents(r, tool) == Flips(r, tool, true) + if r.Current().BreakerOf(tool).open then 1 else 0
    decreases |r.events|
  {
    if !r.Empty() {
      OpenEventsAreFlips(r.Before(), tool);
      BreakerStep(r, tool);
    }
  }

  // ----- which outcomes count -----

  /** Every call of the tool that has finished gave a result, with any status. */
  ghost predicate OnlyReturns(r: Run, tool: string) {
    forall i :: 0 <= i < |r.events| && r.events[i].Finish? && r.events[i].tool == tool ==>
      r.events[i].outcome.Returned?
  }

  lemma {:induction false} ReturnsCountNothing(r: Run, tool: string)
    requires OnlyReturns(r, tool)
    ensures r.Current().BreakerOf(tool).failures == 0 && !r.Current().BreakerOf(tool).open
    decreases |r.events|
  {
    if !r.Empty() {
      assert OnlyReturns(r.Before(), tool);
      ReturnsCountNothing(r.Before(), tool);
      BreakerStep(r, tool);
    }
  }

  /** A tool whose calls all return is never refused by its breaker, even if every result is an error. */
  lemma ErrorResultsNeverTrip(r: Run, tool: string, checkNow: real, rateNow: real)
    requires OnlyReturns(r, tool)
    ensures VerdictOf(r.Current(), tool, checkNow, rateNow) != CircuitOpen
  {
    ReturnsCountNothing(r, tool);
  }

  /** The calls of the tool that timed out or raised since its last result or half-open reset. */
  function FailuresSince(r: Run, tool: string): nat
    decreases |r.events|
  {
    if r.Empty() then 0
    else
      match r.Last()
      case Finish(t, Returned(_, _), _, _) => if t == tool then 0 else FailuresSince(r.Before(), tool)
      case Finish(t, TimedOut, _, _) => FailuresSince(r.Before(), tool) + if t == tool then 1 else 0
      case Finish(t, Raised, _, _) => FailuresSince(r.Before(), tool) + if t == tool then 1 else 0
      case _ => if ResetsNow(r, tool) then 0 else FailuresSince(r.Before(), tool)
  }

  /** In every run that is what the breaker counts. */
  lemma {:induction false} CountIsFailuresSince(r: Run, tool: string)
    ensures r.Current().BreakerOf(tool).failures == FailuresSince(r, tool)
    decreases |r.events|
  {
    if !r.Empty() {
      hide ResetsNow;
      CountIsFailuresSince(r.Before(), tool);
      BreakerStep(r, tool);
      NoResetAtFinish(r, tool);
    }
  }

  lemma NoResetAtFinish(r: Run, tool: string)
    requires !r.Empty()
    ensures r.Last().Finish? ==> !ResetsNow(r, tool)
  {
  }

  /** Any result ends a run of failures and closes the circuit, also one with status error. */
  lemma ReturnCloses(r: Run, tool: string, status: Dispatching.Status, tooLong: bool, keyed: bool, now: real)
    requires !r.Empty() && r.Last() == Finish(tool, Returned(status, tooLong), keyed, now)
    ensures r.Current().BreakerOf(tool).failures == 0 && !r.Current().BreakerOf(tool).open
  {
    BreakerStep(r, tool);
  }

  /** When the failure finished that opened the circuit, if it is open. */
  function OpenedTime(r: Run, tool: string): real
    decreases |r.events|
  {
    if r.Empty() then 0.0
    else if r.Current().BreakerOf(tool).open && !r.Before().Current().BreakerOf(tool).open then r.Clock()
    else OpenedTime(r.Before(), tool)
  }

  lemma {:induction false} OpenedAtIs(r: Run, tool: string)
    ensures r.Current().BreakerOf(tool).openedAt == OpenedTime(r, tool)
    decreases |r.events|
  {
    if !r.Empty() {
      hide ResetsNow;
      OpenedAtIs(r.Before(), tool);
      BreakerStep(r, tool);
    }
  }

  /**
    In every run the breaker refuses a dispatch exactly if the tool is known, some failure of
    the current run reached its threshold, and the reset time has not passed since the failure
    that opened the circuit.
  */
  lemma RefusedIff(r: Run, tool: string, checkNow: real, rateNow: real)
    ensures VerdictOf(r.Current(), tool, checkNow, rateNow) == CircuitOpen <==>
            tool in r.config.registry && Tripped(Marks(r, tool))
            && checkNow - OpenedTime(r, tool) < r.Current().config.reset
  {
    hide Tripped; hide Run.Current;
    OpenIffTripped(r, tool);
    OpenedAtIs(r, tool);
    RegistryStays(r);
  }

  /** The status under which each kind of outcome is logged. */
  lemma LoggedByKind(r: Run, tool: string, outcome: Outcome, now: real)
    requires !r.Empty() && r.Last() == Finish(tool, outcome, true, now)
    ensures var log := r.Current().callLog;
            log != [] && log[|log| - 1] ==
            LogEntry(tool, match outcome
                           case Returned(status, false) => status
                           case Returned(_, true) => Partial
                           case TimedOut => Error
                           case Raised => Error)
  {
  }

  // ----- half-open -----

  /** The run with more steps taken. */
  function After(r: Run, more: seq<Event>): Run {
    r.(events := r.events + more)
  }

  lemma AfterStep(r: Run, more: seq<Event>)
    requires more != []
    ensures !After(r, more).Empty() && After(r, more).Last() == more[|more| - 1]
    ensures After(r, more).Before() == After(r, more[..|more| - 1])
  {
    assert (r.events + more)[..|r.events + more| - 1] == r.events + more[..|more| - 1];
  }

  lemma AfterNothing(r: Run)
    ensures After(r, []) == r
  {
    assert r.events + [] == r.events;
  }

  /** No call of the tool finishes in these steps. */
  ghost predicate NoFinish(more: seq<Event>, tool: string) {
    forall i :: 0 <= i < |more| && more[i].Finish? ==> more[i].tool != tool
  }

  /**
    Half-open is not limited to one probe: from the reset on, and until a call of the tool
    finishes, the breaker refuses no dispatch, however many there are and whatever else happens.
  */
  lemma {:induction false} HalfOpenRefusesNobody(
    r: Run, tool: string, more: seq<Event>, checkNow: real, rateNow: real)
    requires !r.Empty() && ResetsNow(r, tool) && NoFinish(more, tool)
    ensures VerdictOf(After(r, more).Current(), tool, checkNow, rateNow) != CircuitOpen
  {
    ClosedUntilFinish(r, tool, more);
  }

  lemma {:induction false} ClosedUntilFinish(r: Run, tool: string, more: seq<Event>)
    requires !r.Empty() && ResetsNow(r, tool) && NoFinish(more, tool)
    ensures !After(r, more).Current().BreakerOf(tool).open
    decreases |more|
  {
    if more == [] {
      AfterNothing(r);
      BreakerStep(r, tool);
    } else {
      ClosedUntilFinish(r, tool, more[..|more| - 1]);
      AfterStep(r, more);
      BreakerStep(After(r, more), tool);
    }
  }

  /** The breaker lets a call through at that time. */
  predicate Passes(b: Breaker, now: real, reset: real) {
    !b.open || Resets(b, now, reset)
  }

  lemma BelowLimit(r: Run, tool: string, now: real)
    requires r.Valid() && |r.Admissions(tool)| < r.Current().config.LimitOf(tool)
    ensures Admits(r.Current().WindowOf(tool), now, r.Current().config.LimitOf(tool))
  {
    WindowsTrack(r, tool);
    TracksLength(r.Admissions(tool), r.Current().WindowOf(tool), r.Clock());
    EvictShorter(r.Current().WindowOf(tool), now);
  }

  lemma TracksLength(history: seq<real>, window: seq<real>, clock: real)
    requires Tracks(history, window, clock)
    ensures |window| <= |history|
  {
  }

  lemma {:induction false} EvictShorter(window: seq<real>, now: real)
    ensures |Evict(window, now)| <= |window|
    decreases |window|
  {
    if window != [] && now - window[0] > WINDOW_SECONDS {
      EvictShorter(window[1..], now);
    }
  }

  lemma OneMore(r: Run, e: Event)
    ensures After(r, [e]).events == r.events + [e] && After(r, [e]).Before() == r && After(r, [e]).Last() == e
    ensures !After(r, [e]).Empty()
  {
    AfterStep(r, [e]);
    AfterNothing(r);
    assert [e][..0] == [];
  }

  /** A call that the breaker and the limiter let through, seen from the run. */
  lemma CallAdmitted(r: Run, tool: string, now: real)
    requires r.Valid() && r.Clock() <= now && tool in r.Current().config.registry
    requires |r.Admissions(tool)| < r.Current().config.LimitOf(tool)
    requires Passes(r.Current().BreakerOf(tool), now, r.Current().config.reset)
    ensures var s, b := After(r, [Begin(tool, now, now)]), r.Current().BreakerOf(tool);
            && s.Valid() && !s.Empty() && s.Before() == r && s.AdmitsNow(tool) && s.Clock() == now
            && (b.open ==> ResetsNow(s, tool))
            && s.Admissions(tool) == r.Admissions(tool) + [now] && s.InFlight() == r.InFlight() + multiset{tool}
            && s.Current().BreakerOf(tool) == (if b.open then b.(open := false, failures := 0) else b)
            && s.Current().config == r.Current().config
  {
    OneMore(r, Begin(tool, now, now));
    BelowLimit(r, tool, now);
    hide Admits; hide AfterCheck; hide Evict;
  }

  lemma CallFails(r: Run, tool: string, now: real)
    requires r.Valid() && r.Clock() <= now && tool in r.InFlight()
    ensures var s := After(r, [Finish(tool, Raised, true, now)]);
            && s.Valid() && !s.Empty() && s.Before() == r && s.Clock() == now
            && s.Admissions(tool) == r.Admissions(tool) && s.InFlight() == r.InFlight() - multiset{tool}
            && s.Current().BreakerOf(tool)
               == AfterRecord(r.Current().BreakerOf(tool), false, now, r.Current().config.threshold)
            && s.Current().config == r.Current().config
  {
    OneMore(r, Finish(tool, Raised, true, now));
    hide AfterRecord;
    assert r.Admissions(tool) + [] == r.Admissions(tool);
  }

  /** A process at its start. */
  lemma StartFacts(config: Config, start: real, tool: string)
    ensures var r := Run(config, start, []);
            && r.Valid() && r.Clock() == start && r.Admissions(tool) == [] && r.InFlight() == multiset{}
            && r.Current().BreakerOf(tool) == CLOSED && r.Current().config == config
  {
  }

  /** Such a run: after one reset two calls are admitted, and both are in flight together. */
  lemma TwoProbesAtOnce()
    ensures var config := Config({"t"}, 60, map[], 1, 60.0);
            var r := Run(config, 0.0, [Begin("t", 1.0, 1.0), Finish("t", Raised, true, 2.0), Begin("t", 62.0, 62.0)]);
            var e := After(r, [Begin("t", 63.0, 63.0)]);
            && e.Valid() && ResetsNow(r, "t") && r.AdmitsNow("t") && e.AdmitsNow("t")
            && e.InFlight()["t"] == 2
  {
    var config := Config({"t"}, 60, map[], 1, 60.0);
    var e1, e2, e3 := Begin("t", 1.0, 1.0), Finish("t", Raised, true, 2.0), Begin("t", 62.0, 62.0);
    hide Run.Valid; hide Run.Clock; hide Run.Admissions; hide Run.InFlight; hide Run.Current; hide Run.AdmitsNow;
    hide ResetsNow;
    StartFacts(config, 0.0, "t");
    CallAdmitted(Run(config, 0.0, []), "t", 1.0);
    assert [] + [e1] == [e1] && [e1] + [e2] == [e1, e2] && [e1, e2] + [e3] == [e1, e2, e3];
    CallFails(Run(config, 0.0, [e1]), "t", 2.0);
    CallAdmitted(Run(config, 0.0, [e1, e2]), "t", 62.0);
    CallAdmitted(Run(config, 0.0, [e1, e2, e3]), "t", 63.0);
  }

  /** The marks that these further steps leave on the tool's breaker. */
  function MarksOf(r: Run, more: seq<Event>, tool: string): seq<Mark> {
    if more == [] then []
    else
      AfterStep(r, more);
      MarksOf(r, more[..|more| - 1], tool) + MarksNow(After(r, more), tool)
  }

  lemma {:induction false} MarksExtend(r: Run, more: seq<Event>, tool: string)
    ensures Marks(After(r, more), tool) == Marks(r, tool) + MarksOf(r, more, tool)
    decreases |more|
  {
    if more == [] {
      AfterNothing(r);
    } else {
      AfterStep(r, more);
      MarksExtend(r, more[..|more| - 1], tool);
    }
  }

  /** A failure run never reaches back over a reset. */
  lemma {:induction false} FailureRunSince(marks: seq<Mark>, since: seq<Mark>)
    requires marks != [] && marks[|marks| - 1] == Reset
    ensures FailureRun(marks + since) == FailureRun(since)
  {
    if since == [] {
      assert marks + since == marks;
    } else {
      FailureRunSince(marks, since[..|since| - 1]);
      assert (marks + since)[..|marks + since| - 1] == marks + since[..|since| - 1];
    }
  }

  ghost predicate NoThresholdChange(more: seq<Event>) {
    forall i :: 0 <= i < |more| ==> !more[i].SetThresholds?
  }

  /**
    After a half-open reset, with the thresholds left alone, the circuit is open again exactly
    when the run of failures since that reset has reached the threshold.
  */
  lemma {:induction false} ReopensIff(r: Run, tool: string, more: seq<Event>)
    requires !r.Empty() && ResetsNow(r, tool) && NoThresholdChange(more)
    requires r.Current().config.threshold >= 1
    ensures After(r, more).Current().config.threshold == r.Current().config.threshold
    ensures After(r, more).Current().BreakerOf(tool).open <==>
            FailureRun(MarksOf(r, more, tool)) >= r.Current().config.threshold
    decreases |more|
  {
    hide *;
    if more == [] {
      ReopensNothing(r, tool);
    } else {
      var init, e := more[..|more| - 1], After(r, more);
      MarksUnfold(r, more, tool);
      ReopensIff(r, tool, init);
      ThresholdStep(e);
      CountSince(r, tool, init);
      ReopenStep(e, tool, MarksOf(r, init, tool), r.Current().config.threshold);
    }
  }

  lemma ReopensNothing(r: Run, tool: string)
    requires !r.Empty() && ResetsNow(r, tool)
    ensures After(r, []) == r && FailureRun(MarksOf(r, [], tool)) == 0 && !r.Current().BreakerOf(tool).open
  {
    AfterNothing(r);
    BreakerStep(r, tool);
  }

  lemma MarksUnfold(r: Run, more: seq<Event>, tool: string)
    requires more != []
    ensures var init, e := more[..|more| - 1], After(r, more);
            && !e.Empty() && e.Before() == After(r, init)
            && MarksOf(r, more, tool) == MarksOf(r, init, tool) + MarksNow(e, tool)
            && (NoThresholdChange(more) ==> NoThresholdChange(init) && !e.Last().SetThresholds?)
  {
    hide MarksNow;
    AfterStep(r, more);
  }

  /** One step keeps the law, whatever came before the marks. */
  lemma ReopenStep(e: Run, tool: string, marks: seq<Mark>, t: int)
    requires !e.Empty() && e.Before().Current().config.threshold == t && t >= 1
    requires e.Before().Current().BreakerOf(tool).failures == FailureRun(marks)
    requires e.Before().Current().BreakerOf(tool).open <==> FailureRun(marks) >= t
    ensures e.Current().BreakerOf(tool).open <==> FailureRun(marks + MarksNow(e, tool)) >= t
  {
    hide FailureRun; hide Resets; hide Run.Current;
    BreakerStep(e, tool);
    var now := MarksNow(e, tool);
    if now == [] {
      assert marks + now == marks;
    } else {
      assert now == [now[0]];
      FailureRunSnoc(marks, now[0]);
    }
  }

  lemma CountSince(r: Run, tool: string, more: seq<Event>)
    requires !r.Empty() && ResetsNow(r, tool)
    ensures After(r, more).Current().BreakerOf(tool).failures == FailureRun(MarksOf(r, more, tool))
  {
    CountIsFailureRun(After(r, more), tool);
    MarksExtend(r, more, tool);
    FailureRunSince(Marks(r, tool), MarksOf(r, more, tool));
  }

  /** So the next dispatch is refused by the breaker exactly then, while the opening is recent. */
  lemma ShutsAgainIff(r: Run, tool: string, more: seq<Event>, checkNow: real, rateNow: real)
    requires !r.Empty() && ResetsNow(r, tool) && NoThresholdChange(more)
    requires r.Current().config.threshold >= 1
    ensures var s := After(r, more).Current();
            VerdictOf(s, tool, checkNow, rateNow) == CircuitOpen <==>
            FailureRun(MarksOf(r, more, tool)) >= r.Current().config.threshold
            && checkNow - s.BreakerOf(tool).openedAt < s.config.reset
  {
    ReopensIff(r, tool, more);
    RegistryStays(r);
    RegistryStays(r.Before());
    RegistryStays(After(r, more));
  }

  lemma {:induction false} RegistryStays(r: Run)
    ensures r.Current().config.registry == r.config.registry
    decreases |r.events|
  {
    if !r.Empty() {
      RegistryStays(r.Before());
    }
  }

  /** The caller dispatches nothing more to the tool in these steps. */
  ghost predicate NoBegin(more: seq<Event>, tool: string) {
    forall i :: 0 <= i < |more| && more[i].Begin? ==> more[i].tool != tool
  }

  ghost predicate FailsIn(more: seq<Event>, tool: string) {
    exists i :: 0 <= i < |more| && more[i].Finish? && more[i].tool == tool && !more[i].outcome.Returned?
  }

  /** A lone probe leaves at most one mark, and a failure exactly when it failed. */
  lemma {:induction false} ProbeMarks(r: Run, tool: string, more: seq<Event>)
    requires After(r, more).Valid() && r.InFlight()[tool] == 1 && NoBegin(more, tool)
    ensures |MarksOf(r, more, tool)| + After(r, more).InFlight()[tool] == 1
    ensures FailureRun(MarksOf(r, more, tool)) == if FailsIn(more, tool) then 1 else 0
    decreases |more|
  {
    hide *;
    if more == [] {
      ProbeNothing(r, tool);
    } else {
      var init, e := more[..|more| - 1], After(r, more);
      ProbeUnfolds(r, tool, more);
      ClockStep(e);
      ProbeMarks(r, tool, init);
      ProbeStep(e, tool);
      FailsInStep(more, tool);
      var marks, now := MarksOf(r, init, tool), MarksNow(e, tool);
      if now == [] {
        assert marks + [] == marks;
      } else {
        assert now == [now[0]];
        FailureRunSnoc(marks, now[0]);
      }
    }
  }

  lemma ProbeNothing(r: Run, tool: string)
    ensures After(r, []) == r && MarksOf(r, [], tool) == [] && FailureRun([]) == 0 && !FailsIn([], tool)
  {
    AfterNothing(r);
  }

  lemma ProbeUnfolds(r: Run, tool: string, more: seq<Event>)
    requires more != [] && NoBegin(more, tool)
    ensures var init, e := more[..|more| - 1], After(r, more);
            && NoBegin(init, tool) && !e.Empty() && e.Before() == After(r, init) && e.Last() == more[|more| - 1]
            && !(e.Last().Begin? && e.Last().tool == tool)
            && MarksOf(r, more, tool) == MarksOf(r, init, tool) + MarksNow(e, tool)
  {
    hide MarksNow;
    AfterStep(r, more);
  }

  lemma ProbeStep(e: Run, tool: string)
    requires e.Valid() && !e.Empty() && !(e.Last().Begin? && e.Last().tool == tool)
    ensures var fails := e.Last().Finish? && e.Last().tool == tool && !e.Last().outcome.Returned?;
            && |MarksNow(e, tool)| == (if FinishesNow(e, tool) then 1 else 0)
            && (fails <==> MarksNow(e, tool) != [] && MarksNow(e, tool)[0].Fail?)
    ensures e.InFlight()[tool] == e.Before().InFlight()[tool] - |MarksNow(e, tool)|
  {
    FlightStep(e, tool);
  }

  lemma FailsInStep(more: seq<Event>, tool: string)
    requires more != []
    ensures var last := more[|more| - 1];
            FailsIn(more, tool) <==>
            FailsIn(more[..|more| - 1], tool) || (last.Finish? && last.tool == tool && !last.outcome.Returned?)
  {
    var init := more[..|more| - 1];
    if FailsIn(init, tool) {
      var i :| 0 <= i < |init| && init[i].Finish? && init[i].tool == tool && !init[i].outcome.Returned?;
      assert more[i] == init[i];
    }
    if FailsIn(more, tool) {
      var i :| 0 <= i < |more| && more[i].Finish? && more[i].tool == tool && !more[i].outcome.Returned?;
      assert i < |init| ==> init[i] == more[i];
    }
  }

  /**
    "One probe, then shut", for a probe that is the only call of the tool in flight and a caller
    that holds back further ones: the next dispatch is refused exactly if the threshold is one
    and the probe has failed by then.
  */
  lemma OneProbeThenShutIff(r: Run, tool: string, more: seq<Event>, checkNow: real, rateNow: real)
    requires !r.Empty() && ResetsNow(r, tool) && r.AdmitsNow(tool) && r.InFlight()[tool] == 1
    requires After(r, more).Valid() && NoBegin(more, tool) && NoThresholdChange(more)
    requires r.Current().config.threshold >= 1
    ensures var s := After(r, more).Current();
            VerdictOf(s, tool, checkNow, rateNow) == CircuitOpen <==>
            r.Current().config.threshold == 1 && FailsIn(more, tool)
            && checkNow - s.BreakerOf(tool).openedAt < s.config.reset
  {
    hide *;
    ShutsAgainIff(r, tool, more, checkNow, rateNow);
    ProbeMarks(r, tool, more);
  }

  // ----- conservation -----

  lemma FlightStep(r: Run, tool: string)
    requires !r.Empty() && r.Valid()
    ensures r.InFlight()[tool] == r.Before().InFlight()[tool]
              + (if r.AdmitsNow(tool) then 1 else 0) - (if FinishesNow(r, tool) then 1 else 0)
    ensures FinishesNow(r, tool) ==> r.Before().InFlight()[tool] >= 1
    ensures r.Admissions(tool) ==
              r.Before().Admissions(tool) + if r.AdmitsNow(tool) then [r.Clock()] else []
    ensures r.AdmitsNow(tool) && r.Before().Current().BreakerOf(tool).open ==> ResetsNow(r, tool)
  {
    hide Admits; hide AfterCheck;
  }

  lemma ConservationEmpty(r: Run, tool: string)
    requires r.Empty()
    ensures |r.Admissions(tool)| == r.InFlight()[tool] + FinishesOf(r.Finishes(), tool)
    ensures Recorded(Marks(r, tool)) == FinishesOf(r.Finishes(), tool)
  {
  }

  /** Admitted calls are in flight or finished; each finished call is recorded once. */
  lemma {:induction false} Conservation(r: Run, tool: string)
    requires r.Valid()
    ensures |r.Admissions(tool)| == r.InFlight()[tool] + FinishesOf(r.Finishes(), tool)
    ensures Recorded(Marks(r, tool)) == FinishesOf(r.Finishes(), tool)
    decreases |r.events|
  {
    if !r.Empty() {
      hide *;
      ClockStep(r);
      Conservation(r.Before(), tool);
      FlightStep(r, tool);
      FinishStep(r, tool);
      MarkStep(r, tool);
    } else {
      ConservationEmpty(r, tool);
    }
  }

  lemma MarkStep(r: Run, tool: string)
    requires !r.Empty()
    ensures Recorded(Marks(r, tool)) == Recorded(Marks(r.Before(), tool)) + if FinishesNow(r, tool) then 1 else 0
  {
    var before, marks := Marks(r.Before(), tool), MarksNow(r, tool);
    if marks == [] {
      assert Marks(r, tool) == before;
    } else {
      assert marks == [marks[0]];
      RecordedSnoc(before, marks[0]);
    }
  }

  function Recorded(marks: seq<Mark>): nat {
    if marks == [] then 0 else Recorded(marks[..|marks| - 1]) + if marks[|marks| - 1] == Reset then 0 else 1
  }

  lemma RecordedSnoc(marks: seq<Mark>, m: Mark)
    ensures Recorded(marks + [m]) == Recorded(marks) + if m == Reset then 0 else 1
  {
    assert (marks + [m])[..|marks|] == marks;
  }

  lemma FinishStep(r: Run, tool: string)
    requires !r.Empty()
    ensures FinishesOf(r.Finishes(), tool) ==
            FinishesOf(r.Before().Finishes(), tool) + if FinishesNow(r, tool) then 1 else 0
  {
    var calls := r.Before().Finishes();
    if r.Last().Finish? {
      assert r.Finishes()[..|calls|] == calls;
    } else {
      assert r.Finishes() == calls;
    }
  }

  // ----- the call log -----

  /** The entries of the calls whose arguments are a dictionary, in finishing order. */
  function Logged(calls: seq<FinishedCall>): seq<LogEntry> {
    if calls == [] then []
    else
      var last := calls[|calls| - 1];
      Logged(calls[..|calls| - 1]) + if last.keyed then [last.entry] else []
  }

  /** ... and where those calls stand in that order. */
  function KeyedPositions(calls: seq<FinishedCall>): (p: seq<nat>)
    ensures forall i :: 0 <= i < |p| ==> p[i] < |calls| && calls[p[i]].keyed
  {
    if calls == [] then []
    else
      KeyedPositions(calls[..|calls| - 1]) + if calls[|calls| - 1].keyed then [|calls| - 1] else []
  }

  function Positions(from: nat, to: nat): seq<nat>
    requires from <= to
  {
    seq(to - from, i requires 0 <= i < to - from => from + i)
  }

  lemma {:induction false} LoggedAt(calls: seq<FinishedCall>)
    ensures |Logged(calls)| == |KeyedPositions(calls)|
    ensures forall i :: 0 <= i < |Logged(calls)| ==> Logged(calls)[i] == calls[KeyedPositions(calls)[i]].entry
  {
    if calls != [] {
      LoggedAt(calls[..|calls| - 1]);
    }
  }

  /** Which of the finished calls the log holds. */
  function Kept(calls: seq<FinishedCall>): seq<nat> {
    LastSlice(KeyedPositions(calls), LOG_LENGTH)
  }

  /** In every run the log holds the last 500 calls with a dictionary of arguments, in finishing order. */
  lemma LogIsLastKeyed(r: Run)
    ensures r.Current().callLog == LastSlice(Logged(r.Finishes()), LOG_LENGTH)
    ensures var kept := Kept(r.Finishes());
            && |r.Current().callLog| == |kept|
            && forall i :: 0 <= i < |kept| ==>
                 kept[i] < |r.Finishes()| && r.Current().callLog[i] == r.Finishes()[kept[i]].entry
  {
    LogIsLoggedTail(r);
    LoggedAt(r.Finishes());
  }

  lemma {:induction false} LogIsLoggedTail(r: Run)
    ensures r.Current().callLog == LastSlice(Logged(r.Finishes()), LOG_LENGTH)
    decreases |r.events|
  {
    if !r.Empty() {
      LogIsLoggedTail(r.Before());
      var before, all := r.Before().Finishes(), r.Finishes();
      if r.Last().Finish? {
        assert all[..|all| - 1] == before;
        if r.Last().keyed {
          PushLast(Logged(before), all[|all| - 1].entry);
        }
      } else {
        assert all == before;
      }
    }
  }

  lemma PushLast(entries: seq<LogEntry>, e: LogEntry)
    ensures Push(LastSlice(entries, LOG_LENGTH), e) == LastSlice(entries + [e], LOG_LENGTH)
  {
  }

  /** The log is what it is meant to be: the last 500 finished calls. */
  ghost predicate HoldsLastFinished(calls: seq<FinishedCall>) {
    Kept(calls) == LastSlice(Positions(0, |calls|), LOG_LENGTH)
  }

  /** All of the last 500 finished calls, or of all there are, carried a dictionary of arguments. */
  ghost predicate LastAreKeyed(calls: seq<FinishedCall>) {
    forall i :: 0 <= i < |calls| && |calls| - LOG_LENGTH <= i ==> calls[i].keyed
  }

  lemma {:induction false} KeyedTail(calls: seq<FinishedCall>, from: nat)
    requires from <= |calls| && forall i :: from <= i < |calls| ==> calls[i].keyed
    ensures KeyedPositions(calls) == KeyedPositions(calls[..from]) + Positions(from, |calls|)
    decreases |calls|
  {
    var n := |calls| - 1;
    if from == |calls| {
      assert calls[..from] == calls;
    } else {
      KeyedTail(calls[..n], from);
      assert calls[..n][..from] == calls[..from];
      assert Positions(from, |calls|) == Positions(from, n) + [n];
    }
  }

  /** It is, exactly when each of those calls carried one; an argument of another type leaves a gap. */
  lemma HoldsLastFinishedIff(calls: seq<FinishedCall>)
    ensures HoldsLastFinished(calls) <==> LastAreKeyed(calls)
  {
    hide KeyedPositions;
    var n := |calls|;
    var from := if n > LOG_LENGTH then n - LOG_LENGTH else 0;
    var last := LastSlice(Positions(0, n), LOG_LENGTH);
    assert last == Positions(from, n);
    if LastAreKeyed(calls) {
      KeyedTail(calls, from);
      if from == 0 {
        NoPositions(calls[..from]);
      }
    }
    if HoldsLastFinished(calls) {
      forall i | from <= i < n ensures calls[i].keyed {
        assert last[i - from] == i;
        assert i in Kept(calls);
      }
    }
  }

  /** Then the log is, entry by entry, what finished last. */
  lemma LogIsLastFinishes(r: Run)
    requires LastAreKeyed(r.Finishes())
    ensures var calls, log := r.Finishes(), r.Current().callLog;
            && |log| == (if |calls| < 500 then |calls| else 500)
            && forall i :: 0 <= i < |log| ==> log[i] == calls[|calls| - |log| + i].entry
  {
    hide *;
    LogIsLastKeyed(r);
    HoldsLastFinishedIff(r.Finishes());
    LastPositions(r.Finishes());
  }

  lemma LastPositions(calls: seq<FinishedCall>)
    requires HoldsLastFinished(calls)
    ensures var n := if |calls| < 500 then |calls| else 500;
            |Kept(calls)| == n && forall i :: 0 <= i < n ==> Kept(calls)[i] == |calls| - n + i
  {
    hide Kept;
  }

  lemma NoPositions(calls: seq<FinishedCall>)
    requires calls == []
    ensures KeyedPositions(calls) == []
  {
  }

  /** Such a run: the failure is counted by the breaker and missing from the log. */
  lemma FinishedButNotLogged()
    ensures var r := Run(Config({"t"}, 60, map[], 5, 60.0), 0.0,
                         [Begin("t", 1.0, 1.0), Finish("t", Raised, false, 2.0)]);
            && r.Valid() && r.Current().BreakerOf("t").failures == 1 && |r.Finishes()| == 1
            && r.Current().callLog == [] && !HoldsLastFinished(r.Finishes())
  {
    var config := Config({"t"}, 60, map[], 5, 60.0);
    var e1, e2 := Begin("t", 1.0, 1.0), Finish("t", Raised, false, 2.0);
    assert [] + [e1] == [e1] && [e1] + [e2] == [e1, e2];
    hide *;
    StartFacts(config, 0.0, "t");
    CallAdmitted(Run(config, 0.0, []), "t", 1.0);
    UnkeyedFails(Run(config, 0.0, [e1]), "t", 2.0);
    NothingFinished(Run(config, 0.0, [e1]), Run(config, 0.0, []));
  }

  lemma NothingFinished(r: Run, start: Run)
    requires start.Empty() && !r.Empty() && r.Before() == start && r.Last().Begin?
    ensures r.Finishes() == [] && r.Current().callLog == []
  {
    hide AfterCheck; hide Admits; hide Refuses; hide AfterProbe;
  }

  /** A call fails whose arguments are no dictionary. */
  lemma UnkeyedFails(r: Run, tool: string, now: real)
    requires r.Valid() && r.Clock() <= now && tool in r.InFlight() && r.Finishes() == []
    requires r.Current().BreakerOf(tool) == CLOSED && r.Current().config.threshold > 1
    ensures var s := After(r, [Finish(tool, Raised, false, now)]);
            && s.Valid() && s.Current().BreakerOf(tool).failures == 1 && |s.Finishes()| == 1
            && s.Current().callLog == r.Current().callLog && !HoldsLastFinished(s.Finishes())
  {
    OneMore(r, Finish(tool, Raised, false, now));
    var s := After(r, [Finish(tool, Raised, false, now)]);
    assert s.Finishes() == [FinishedCall(LogEntry(tool, Status.Error), false)];
    HoldsLastFinishedIff(s.Finishes());
    hide HoldsLastFinished;
  }

  /**
    A refused dispatch takes no slot and adds no log entry; one refused for an unknown tool or
    by an open circuit changes nothing at all, and one refused by the limiter changes neither
    the log nor, beyond the half-open reset, the breaker, nor anything of other tools.
  */
  lemma {:induction false} RefusalLeavesNoTrace(r: Run, tool: string, checkNow: real, rateNow: real)
    requires r.Valid() && r.Clock() <= checkNow <= rateNow
    requires VerdictOf(r.Current(), tool, checkNow, rateNow) != Admitted
    ensures var after := r.(events := r.events + [Begin(tool, checkNow, rateNow)]);
            && after.Valid() && after.InFlight() == r.InFlight() && after.Finishes() == r.Finishes()
            && after.Current().callLog == r.Current().callLog
            && (forall t :: after.Admissions(t) == r.Admissions(t))
            && (forall t :: t != tool ==> after.Current().WindowOf(t) == r.Current().WindowOf(t)
                                          && after.Current().BreakerOf(t) == r.Current().BreakerOf(t))
            && (VerdictOf(r.Current(), tool, checkNow, rateNow) != RateLimited ==> after.Current() == r.Current())
  {
    var after := r.(events := r.events + [Begin(tool, checkNow, rateNow)]);
    assert after.Before() == r;
    hide AfterCheck; hide Admits; hide AfterProbe; hide Refuses;
    forall t ensures after.Admissions(t) == r.Admissions(t) {
      assert !after.AdmitsNow(t);
    }
    assert after.Finishes() == r.Finishes();
  }
}
