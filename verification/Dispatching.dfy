/**
  Tool dispatch as a step system.  `Begin` is everything a dispatch does before it awaits the
  tool and `Finish` everything it does afterwards; between the two, any other steps may come.
*/
module Dispatching {
  import opened Wrappers
  import opened Slices
  import opened Intervals
  import opened RateLimits
  import opened Breakers

  datatype Status = Success | Error | Partial

  /** What awaiting the tool gives: a result (perhaps too long to keep whole), a timeout or an exception. */
  datatype Outcome = Returned(status: Status, tooLong: bool) | TimedOut | Raised {
    function LoggedStatus(): Status {
      if !Returned? then Error else if tooLong then Partial else status
    }
  }

  datatype LogEntry = LogEntry(tool: string, status: Status)

  /** A call that has finished.  Unless it is keyed, its arguments are no dictionary and logging it raises. */
  datatype FinishedCall = FinishedCall(entry: LogEntry, keyed: bool)

  const LOG_LENGTH: nat := 500

  datatype Config = Config(
    registry: set<string>, globalLimit: int, limits: map<string, int>, threshold: int, reset: real)
  {
    function LimitOf(tool: string): int {
      if tool in limits then limits[tool] else globalLimit
    }
  }

  datatype State = State(
    config: Config, windows: map<string, seq<real>>, breakers: map<string, Breaker>, callLog: seq<LogEntry>)
  {
    function WindowOf(tool: string): seq<real> {
      if tool in windows then windows[tool] else []
    }

    function BreakerOf(tool: string): Breaker {
      if tool in breakers then breakers[tool] else CLOSED
    }
  }

  datatype Verdict = UnknownTool | CircuitOpen | RateLimited | Admitted

  datatype Event =
    | Begin(tool: string, checkNow: real, rateNow: real)
    | Finish(tool: string, outcome: Outcome, keyed: bool, now: real)
    | SetRateLimit(tool: string, limitPerMin: int)
    | SetThresholds(openThreshold: Option<int>, resetS: Option<real>)

  /** The newest entries of a bounded deque after one more append. */
  function Push(log: seq<LogEntry>, entry: LogEntry): seq<LogEntry> {
    LastSlice(log + [entry], LOG_LENGTH)
  }

  function ProbeBreaker(s: State, tool: string, now: real): State {
    if tool in s.breakers
    then s.(breakers := s.breakers[tool := AfterProbe(s.breakers[tool], now, s.config.reset)])
    else s
  }

  function CheckRate(s: State, tool: string, now: real): State {
    s.(windows := s.windows[tool := AfterCheck(s.WindowOf(tool), now, s.config.LimitOf(tool))])
  }

  function VerdictOf(s: State, tool: string, checkNow: real, rateNow: real): Verdict {
    if tool !in s.config.registry then UnknownTool
    else if Refuses(s.BreakerOf(tool), checkNow, s.config.reset) then CircuitOpen
    else if !Admits(s.WindowOf(tool), rateNow, s.config.LimitOf(tool)) then RateLimited
    else Admitted
  }

  function AtLeast(floor: int, n: int): int {
    if n < floor then floor else n
  }

  function AtLeastReal(floor: real, r: real): real {
    if r < floor then floor else r
  }

  function Apply(s: State, e: Event): State {
    match e
    case Begin(tool, checkNow, rateNow) =>
      var v := VerdictOf(s, tool, checkNow, rateNow);
      if v == UnknownTool || v == CircuitOpen then s
      else CheckRate(ProbeBreaker(s, tool, checkNow), tool, rateNow)
    case Finish(tool, outcome, keyed, now) =>
      s.(breakers := s.breakers[tool := AfterRecord(s.BreakerOf(tool), outcome.Returned?, now, s.config.threshold)],
         callLog := if keyed then Push(s.callLog, LogEntry(tool, outcome.LoggedStatus())) else s.callLog)
    case SetRateLimit(tool, limit) =>
      s.(config := s.config.(limits := s.config.limits[tool := AtLeast(1, limit)]))
    case SetThresholds(threshold, reset) =>
      s.(config := s.config.(
           threshold := if threshold.Some? then AtLeast(1, threshold.value) else s.config.threshold,
           reset := if reset.Some? then AtLeastReal(1.0, reset.value) else s.config.reset))
  }

  // ----- runs -----

  /** A process that starts with empty tables at time `start` and then takes these steps. */
  datatype Run = Run(config: Config, start: real, events: seq<Event>) {
    predicate Empty() {
      events == []
    }

    function Last(): Event
      requires !Empty()
    {
      events[|events| - 1]
    }

    function Before(): Run
      requires !Empty()
    {
      this.(events := events[..|events| - 1])
    }

    function Current(): State
      decreases |events|
    {
      if Empty() then State(config, map[], map[], []) else Apply(Before().Current(), Last())
    }

    function Clock(): real
      decreases |events|
    {
      if Empty() then start
      else match Last()
           case Begin(_, _, rateNow) => rateNow
           case Finish(_, _, _, now) => now
           case _ => Before().Clock()
    }

    /** The last step admits a call of `tool`. */
    predicate AdmitsNow(tool: string)
      requires !Empty()
    {
      Last().Begin? && Last().tool == tool
      && VerdictOf(Before().Current(), tool, Last().checkNow, Last().rateNow) == Admitted
    }

    /** When the admitted calls of a tool were admitted. */
    function Admissions(tool: string): seq<real>
      decreases |events|
    {
      if Empty() then []
      else Before().Admissions(tool) + if AdmitsNow(tool) then [Last().rateNow] else []
    }

    /** The finished calls of all tools, in finishing order. */
    function Finishes(): seq<FinishedCall>
      decreases |events|
    {
      if Empty() then []
      else Before().Finishes()
           + if Last().Finish?
             then [FinishedCall(LogEntry(Last().tool, Last().outcome.LoggedStatus()), Last().keyed)]
             else []
    }

    /** The calls that have begun and not finished. */
    function InFlight(): multiset<string>
      decreases |events|
    {
      if Empty() then multiset{}
      else if Last().Begin? && AdmitsNow(Last().tool) then Before().InFlight() + multiset{Last().tool}
      else if Last().Finish? then Before().InFlight() - multiset{Last().tool}
      else Before().InFlight()
    }

    /** The clock never goes back, and only a call in flight finishes. */
    ghost predicate Valid()
      decreases |events|
    {
      !Empty() ==>
        && Before().Valid()
        && (Last().Begin? ==> Before().Clock() <= Last().checkNow <= Last().rateNow)
        && (Last().Finish? ==> Before().Clock() <= Last().now && Last().tool in Before().InFlight())
    }
  }

  function FinishesOf(calls: seq<FinishedCall>, tool: string): nat {
    if calls == [] then 0
    else FinishesOf(calls[..|calls| - 1], tool) + if calls[|calls| - 1].entry.tool == tool then 1 else 0
  }

  // ----- the limiter, over every run -----

  /** The last step reaches the limiter of `tool`. */
  predicate ChecksRate(r: Run, tool: string)
    requires !r.Empty()
  {
    r.Last().Begin? && r.Last().tool == tool
    && var v := VerdictOf(r.Before().Current(), tool, r.Last().checkNow, r.Last().rateNow);
       v == RateLimited || v == Admitted
  }

  lemma WindowStep(r: Run, tool: string)
    requires !r.Empty()
    ensures var b := r.Before();
            && r.Current().WindowOf(tool) ==
               (if ChecksRate(r, tool)
                then AfterCheck(b.Current().WindowOf(tool), r.Last().rateNow, b.Current().config.LimitOf(tool))
                else b.Current().WindowOf(tool))
            && r.Admissions(tool) ==
               (if ChecksRate(r, tool)
                   && Admits(b.Current().WindowOf(tool), r.Last().rateNow, b.Current().config.LimitOf(tool))
                then b.Admissions(tool) + [r.Last().rateNow]
                else b.Admissions(tool))
  {
    hide AfterCheck; hide Admits; hide Refuses; hide AfterProbe; hide AfterRecord;
    assert r.Before().Admissions(tool) + [] == r.Before().Admissions(tool);
  }

  lemma ClockStep(r: Run)
    requires r.Valid() && !r.Empty()
    ensures r.Before().Valid() && r.Before().Clock() <= r.Clock()
    ensures r.Last().Begin? ==> r.Before().Clock() <= r.Last().checkNow <= r.Last().rateNow == r.Clock()
    ensures r.Last().Finish? ==> r.Last().now == r.Clock() && r.Last().tool in r.Before().InFlight()
  {
  }

  /** In every run the window of every tool tracks that tool's admissions. */
  lemma {:induction false} WindowsTrack(r: Run, tool: string)
    requires r.Valid()
    ensures Tracks(r.Admissions(tool), r.Current().WindowOf(tool), r.Clock())
    decreases |r.events|
  {
    if !r.Empty() {
      hide *;
      var b := r.Before();
      ClockStep(r);
      WindowsTrack(b, tool);
      WindowStep(r, tool);
      TracksLater(b.Admissions(tool), b.Current().WindowOf(tool), b.Clock(), r.Clock());
      WindowDecidesLikeHistory(
        b.Admissions(tool), b.Current().WindowOf(tool), r.Clock(), b.Current().config.LimitOf(tool));
      assert ChecksRate(r, tool) ==> r.Last().Begin?;
    }
  }

  /**
    Refinement over every run, whatever the limits are and however they change: a dispatch
    that passes the breaker is admitted exactly when fewer than the limit were admitted, in
    the full history, during the last 60 seconds.
  */
  lemma {:induction false} LimiterRefinesHistory(r: Run, tool: string, checkNow: real, rateNow: real)
    requires r.Valid() && r.Clock() <= checkNow <= rateNow
    requires tool in r.Current().config.registry
    requires !Refuses(r.Current().BreakerOf(tool), checkNow, r.Current().config.reset)
    ensures VerdictOf(r.Current(), tool, checkNow, rateNow) == Admitted <==>
            CountIn(r.Admissions(tool), rateNow - 60.0, rateNow) < r.Current().config.LimitOf(tool)
  {
    hide Admits; hide CountIn; hide Tracks; hide Run.Current; hide Run.Admissions; hide Run.Valid; hide AfterCheck;
    WindowsTrack(r, tool);
    TracksLater(r.Admissions(tool), r.Current().WindowOf(tool), r.Clock(), rateNow);
    WindowDecidesLikeHistory(
      r.Admissions(tool), r.Current().WindowOf(tool), rateNow, r.Current().config.LimitOf(tool));
  }

  /** A limit set for a tool is in force from then on, at least one, and for no other tool. */
  lemma LimitTakesEffect(r: Run, tool: string, limit: int)
    requires !r.Empty() && r.Last() == SetRateLimit(tool, limit)
    ensures var before, after := r.Before().Current(), r.Current();
            && after.config.LimitOf(tool) == (if limit >= 1 then limit else 1)
            && (forall t :: t != tool ==> after.config.LimitOf(t) == before.config.LimitOf(t))
            && after == before.(config := before.config.(limits := after.config.limits))
  {
  }

  /** So are the thresholds that are given, floored at one failure and one second; those left out stay. */
  lemma ThresholdsTakeEffect(r: Run, threshold: Option<int>, reset: Option<real>)
    requires !r.Empty() && r.Last() == SetThresholds(threshold, reset)
    ensures var before, after := r.Before().Current(), r.Current();
            && (threshold.Some? ==> after.config.threshold == if threshold.value >= 1 then threshold.value else 1)
            && (threshold.None? ==> after.config.threshold == before.config.threshold)
            && (reset.Some? ==> after.config.reset == if reset.value >= 1.0 then reset.value else 1.0)
            && (reset.None? ==> after.config.reset == before.config.reset)
            && after.windows == before.windows && after.breakers == before.breakers
            && after.callLog == before.callLog && after.config.limits == before.config.limits
  {
  }

  /** The limit of the tool was never above m. */
  ghost predicate LimitsAtMost(r: Run, tool: string, m: int)
    decreases |r.events|
  {
    r.Current().config.LimitOf(tool) <= m && (!r.Empty() ==> LimitsAtMost(r.Before(), tool, m))
  }

  lemma {:induction false} AdmissionsAdmissible(r: Run, tool: string, m: int)
    requires r.Valid() && LimitsAtMost(r, tool, m)
    ensures Admissible(r.Admissions(tool), m)
    decreases |r.events|
  {
    if !r.Empty() {
      var b := r.Before();
      AdmissionsAdmissible(b, tool, m);
      WindowStep(r, tool);
      if ChecksRate(r, tool) {
        LimiterRefinesHistory(b, tool, r.Last().checkNow, r.Last().rateNow);
        assert Recent(b.Admissions(tool), r.Last().rateNow) ==
               CountIn(b.Admissions(tool), r.Last().rateNow - 60.0, r.Last().rateNow);
        if r.AdmitsNow(tool) {
          AdmissibleSnoc(b.Admissions(tool), m, r.Last().rateNow);
        }
      }
    }
  }

  /** However the limit changes: if it was never above m, no closed 60-second interval holds more admissions. */
  lemma RateBound(r: Run, tool: string, m: int, start: real)
    requires r.Valid() && LimitsAtMost(r, tool, m)
    ensures CountIn(r.Admissions(tool), start, start + 60.0) <= if m > 0 then m else 0
  {
    WindowsTrack(r, tool);
    AdmissionsAdmissible(r, tool, m);
    IntervalBound(r.Admissions(tool), m, start);
  }

  /** The limit of a tool is never touched during the run. */
  ghost predicate FixedLimit(r: Run, tool: string) {
    forall i :: 0 <= i < |r.events| ==> !(r.events[i].SetRateLimit? && r.events[i].tool == tool)
  }

  lemma {:induction false} LimitStays(r: Run, tool: string)
    requires FixedLimit(r, tool)
    ensures r.Current().config.LimitOf(tool) == r.config.LimitOf(tool)
    ensures LimitsAtMost(r, tool, r.config.LimitOf(tool))
    decreases |r.events|
  {
    if !r.Empty() {
      assert FixedLimit(r.Before(), tool);
      LimitStays(r.Before(), tool);
    }
  }

  /** In particular, with a fixed limit, no more than that. */
  lemma FixedRateBound(r: Run, tool: string, start: real)
    requires r.Valid() && FixedLimit(r, tool)
    ensures CountIn(r.Admissions(tool), start, start + 60.0) <=
            if r.config.LimitOf(tool) > 0 then r.config.LimitOf(tool) else 0
  {
    LimitStays(r, tool);
    RateBound(r, tool, r.config.LimitOf(tool), start);
  }
}
