/**
  How often a tool that always fails is invoked: a bound for every run and every interleaving,
  and runs that reach it.
*/
module Outages {
  import opened Wrappers
  import opened Intervals
  import opened RateLimits
  import opened Breakers
  import opened Dispatching
  import opened Circuits

  ghost predicate FixedThresholds(r: Run) {
    forall i :: 0 <= i < |r.events| ==> !r.events[i].SetThresholds?
  }

  ghost predicate AlwaysFails(r: Run, tool: string) {
    forall i :: 0 <= i < |r.events| && r.events[i].Finish? && r.events[i].tool == tool ==>
      !r.events[i].outcome.Returned?
  }

  /** Never more than `most` calls of the tool are in flight; those of other tools are not limited. */
  ghost predicate AtMostInFlight(r: Run, tool: string, most: nat)
    decreases |r.events|
  {
    r.InFlight()[tool] <= most && (!r.Empty() ==> AtMostInFlight(r.Before(), tool, most))
  }

  ghost predicate Outage(r: Run, tool: string, most: nat) {
    && r.Valid() && FixedThresholds(r) && r.config.threshold >= 1
    && AlwaysFails(r, tool) && AtMostInFlight(r, tool, most)
  }

  lemma {:induction false} ThresholdsStay(r: Run)
    requires FixedThresholds(r)
    ensures r.Current().config.threshold == r.config.threshold
    ensures r.Current().config.reset == r.config.reset
    decreases |r.events|
  {
    if !r.Empty() {
      assert FixedThresholds(r.Before());
      ThresholdsStay(r.Before());
      ThresholdStep(r);
    }
  }

  lemma {:induction false} FixedIsSteady(r: Run, tool: string)
    requires FixedThresholds(r)
    ensures Steady(r, tool)
    decreases |r.events|
  {
    if !r.Empty() {
      assert FixedThresholds(r.Before());
      FixedIsSteady(r.Before(), tool);
      ThresholdStep(r);
    }
  }

  /** Admissions `gap` apart in the sequence are at least R apart in time. */
  ghost predicate Spaced(s: seq<real>, gap: nat, reset: real) {
    forall i, j :: 0 <= i <= j < |s| && j == i + gap ==> s[j] >= s[i] + reset
  }

  /** How many calls can get through before the circuit shuts. */
  function Gap(threshold: nat, most: nat): nat
    requires threshold >= 1
  {
    threshold - 1 + most
  }

  /**
    While the circuit is closed, only the last admissions, those that count as failures or are
    still in flight, may be younger than R; while it is open, every admission came before the
    opening.
  */
  ghost predicate Paced(s: seq<real>, b: Breaker, inFlight: nat, clock: real, gap: nat, reset: real) {
    && Spaced(s, gap, reset)
    && (if b.open
        then b.openedAt <= clock && forall i :: 0 <= i < |s| ==> s[i] <= b.openedAt
        else b.failures + inFlight <= gap && forall i :: 0 <= i < |s| - b.failures - inFlight ==> s[i] + reset <= clock)
  }

  lemma {:induction false} OutagePaced(r: Run, tool: string, most: nat)
    requires Outage(r, tool, most)
    ensures Paced(r.Admissions(tool), r.Current().BreakerOf(tool), r.InFlight()[tool], r.Clock(),
                  Gap(r.config.threshold, most), r.config.reset)
    decreases |r.events|
  {
    if !r.Empty() {
      OutageBefore(r, tool, most);
      OutagePaced(r.Before(), tool, most);
      hide Spaced; hide Outage; hide Paced;
      OutageStep(r, tool, most);
    }
  }

  lemma OutageBefore(r: Run, tool: string, most: nat)
    requires Outage(r, tool, most) && !r.Empty()
    ensures Outage(r.Before(), tool, most)
    ensures r.InFlight()[tool] <= most
    ensures FinishesNow(r, tool) ==> !r.Last().outcome.Returned?
  {
    ClockStep(r);
  }

  lemma OutageStep(r: Run, tool: string, most: nat)
    requires Outage(r, tool, most) && !r.Empty() && r.config.threshold >= 1
    requires Paced(r.Before().Admissions(tool), r.Before().Current().BreakerOf(tool), r.Before().InFlight()[tool],
                   r.Before().Clock(), Gap(r.config.threshold, most), r.config.reset)
    ensures Paced(r.Admissions(tool), r.Current().BreakerOf(tool), r.InFlight()[tool], r.Clock(),
                  Gap(r.config.threshold, most), r.config.reset)
  {
    hide *;
    var b := r.Before();
    OutageFacts(r, tool, most);
    OutageBreaker(r, tool, most);
    WindowsTrack(b, tool);
    TracksBelow(b.Admissions(tool), b.Current().WindowOf(tool), b.Clock());
    BreakerStep(r, tool);
    FlightStep(r, tool);
    ClockStep(r);
    var checkNow := if r.Last().Begin? then r.Last().checkNow else r.Clock();
    var resets, admits, fails := ResetsNow(r, tool), r.AdmitsNow(tool), FinishesNow(r, tool);
    PacedStep(b.Admissions(tool), b.Current().BreakerOf(tool), b.InFlight()[tool], b.Clock(), r.Clock(),
              r.config.threshold, most, r.config.reset, resets, admits, fails, checkNow);
    assert b.Admissions(tool) + [] == b.Admissions(tool);
  }

  lemma TracksBelow(history: seq<real>, window: seq<real>, clock: real)
    requires Tracks(history, window, clock)
    ensures forall i :: 0 <= i < |history| ==> history[i] <= clock
  {
  }

  lemma OutageFacts(r: Run, tool: string, most: nat)
    requires Outage(r, tool, most) && !r.Empty()
    ensures r.Valid() && r.Before().Valid() && r.config.threshold >= 1
    ensures r.InFlight()[tool] <= most && r.Before().InFlight()[tool] <= most
    ensures FinishesNow(r, tool) ==> r.Last().Finish? && !r.Last().outcome.Returned?
    ensures ResetsNow(r, tool) || r.AdmitsNow(tool) ==> r.Last().Begin?
    ensures ResetsNow(r, tool) ==>
              Resets(r.Before().Current().BreakerOf(tool), r.Last().checkNow, r.Before().Current().config.reset)
  {
    OutageBefore(r, tool, most);
  }

  lemma OutageBreaker(r: Run, tool: string, most: nat)
    requires Outage(r, tool, most) && !r.Empty()
    ensures r.Before().Current().config.threshold == r.config.threshold
    ensures r.Before().Current().config.reset == r.config.reset
    ensures r.Before().Current().BreakerOf(tool).open <==>
            r.Before().Current().BreakerOf(tool).failures >= r.config.threshold
  {
    var b := r.Before();
    assert FixedThresholds(b);
    ThresholdsStay(b);
    FixedIsSteady(b, tool);
    OpenIffThresholdReached(b, tool);
    CountIsFailureRun(b, tool);
  }

  /** The arithmetic of one step, freed of the run. */
  lemma PacedStep(
    s: seq<real>, b: Breaker, inFlight: nat, clock: real, later: real, t: nat, most: nat, reset: real,
    resets: bool, admits: bool, fails: bool, checkNow: real)
    requires t >= 1 && Paced(s, b, inFlight, clock, Gap(t, most), reset)
    requires b.open <==> b.failures >= t
    requires clock <= checkNow <= later
    requires resets ==> Resets(b, checkNow, reset)
    requires admits && b.open ==> resets
    requires !(fails && (admits || resets)) && (fails ==> inFlight >= 1)
    requires inFlight <= most && (admits ==> inFlight < most)
    requires forall i :: 0 <= i < |s| ==> s[i] <= clock
    ensures Paced(if admits then s + [later] else s,
                  if fails then AfterRecord(b, false, later, t)
                  else if resets then b.(open := false, failures := 0) else b,
                  inFlight + (if admits then 1 else 0) - (if fails then 1 else 0), later, Gap(t, most), reset)
  {
  }

  lemma {:induction false} SpacedFar(s: seq<real>, t: nat, reset: real, i: nat, k: nat)
    requires Spaced(s, t, reset) && i + t * k < |s|
    ensures s[i + t * k] >= s[i] + k as real * reset
    decreases k
  {
    if k > 0 {
      assert t * k == t * (k - 1) + t;
      SpacedFar(s, t, reset, i, k - 1);
      var j := i + t * (k - 1);
      assert s[j + t] >= s[j] + reset;
    }
  }

  /**
    A tool that always fails, with never more than c calls of it in flight, is invoked at most
    (T + c - 1) * (floor(L / R) + 1) times in any closed interval of length L, over every run.
  */
  lemma OutageBound(r: Run, tool: string, most: nat, start: real, length: real)
    requires Outage(r, tool, most) && r.config.reset > 0.0 && length >= 0.0
    ensures CountIn(r.Admissions(tool), start, start + length) <=
            (r.config.threshold - 1 + most) * ((length / r.config.reset).Floor + 1)
  {
    hide *;
    OutageThreshold(r, tool, most);
    WindowsTrack(r, tool);
    TracksSorted(r.Admissions(tool), r.Current().WindowOf(tool), r.Clock());
    OutagePaced(r, tool, most);
    var gap := Gap(r.config.threshold, most);
    PacedSpaced(r.Admissions(tool), r.Current().BreakerOf(tool), r.InFlight()[tool], r.Clock(), gap, r.config.reset);
    SpacedBound(r.Admissions(tool), gap, r.config.reset, start, length);
  }

  /** In particular T * (floor(L / R) + 1) times, if calls of the tool never overlap. */
  lemma LoneOutageBound(r: Run, tool: string, start: real, length: real)
    requires Outage(r, tool, 1) && r.config.reset > 0.0 && length >= 0.0
    ensures CountIn(r.Admissions(tool), start, start + length) <=
            r.config.threshold * ((length / r.config.reset).Floor + 1)
  {
    OutageBound(r, tool, 1, start, length);
  }

  lemma TracksSorted(history: seq<real>, window: seq<real>, clock: real)
    requires Tracks(history, window, clock)
    ensures Sorted(history)
  {
  }

  lemma PacedSpaced(s: seq<real>, b: Breaker, inFlight: nat, clock: real, gap: nat, reset: real)
    requires Paced(s, b, inFlight, clock, gap, reset)
    ensures Spaced(s, gap, reset)
  {
  }

  lemma OutageThreshold(r: Run, tool: string, most: nat)
    requires Outage(r, tool, most)
    ensures r.Valid() && r.config.threshold >= 1
    ensures Gap(r.config.threshold, most) == r.config.threshold - 1 + most
  {
  }

  lemma QuotientBound(length: real, reset: real)
    requires reset > 0.0
    ensures length < ((length / reset).Floor + 1) as real * reset
  {
    var q := length / reset;
    assert q * reset == length;
    assert q < (q.Floor + 1) as real;
  }

  /** Sorted times with that spacing: no interval of length L holds more than the bound. */
  lemma SpacedBound(s: seq<real>, t: nat, reset: real, start: real, length: real)
    requires Sorted(s) && Spaced(s, t, reset) && reset > 0.0 && length >= 0.0
    ensures CountIn(s, start, start + length) <= t * ((length / reset).Floor + 1)
  {
    hide CountIn; hide Sorted; hide Spaced;
    var k := (length / reset).Floor + 1;
    QuotientBound(length, reset);
    assert length / reset >= 0.0;
    assert t * k >= 0;
    if CountIn(s, start, start + length) > t * k {
      var i := CountSpan(s, start, start + length, t * k);
      SpacedFar(s, t, reset, i, k);
    }
  }

  // ----- runs that reach the bound -----

  /** A run of an outage, as far as its next steps depend on it. */
  ghost predicate Stage(
    r: Run, config: Config, tool: string, most: nat, admissions: seq<real>, inFlight: nat, b: Breaker, clock: real)
  {
    && r.config == config == r.Current().config && Outage(r, tool, most)
    && r.Admissions(tool) == admissions && r.InFlight()[tool] == inFlight
    && r.Current().BreakerOf(tool) == b && r.Clock() == clock
  }

  /** The failures it counts once a call got through. */
  function CountsFrom(b: Breaker): nat {
    if b.open then 0 else b.failures
  }

  /** One more call gets through. */
  lemma Dispatched(
    r: Run, config: Config, tool: string, most: nat, admissions: seq<real>, inFlight: nat, b: Breaker, clock: real,
    now: real)
    returns (s: Run)
    requires Stage(r, config, tool, most, admissions, inFlight, b, clock) && clock <= now
    requires tool in config.registry && |admissions| < config.LimitOf(tool) && inFlight < most
    requires Passes(b, now, config.reset)
    ensures Stage(s, config, tool, most, admissions + [now], inFlight + 1,
                  if b.open then b.(open := false, failures := 0) else b, now)
  {
    s := After(r, [Begin(tool, now, now)]);
    CallAdmitted(r, tool, now);
    FixedMore(r, Begin(tool, now, now), tool);
    hide Run.Admissions; hide Run.InFlight; hide Run.Current; hide Run.Clock;
  }

  /** One call in flight fails. */
  lemma Failed(
    r: Run, config: Config, tool: string, most: nat, admissions: seq<real>, inFlight: nat, b: Breaker, clock: real,
    now: real)
    returns (s: Run)
    requires Stage(r, config, tool, most, admissions, inFlight, b, clock) && clock <= now && inFlight > 0
    ensures Stage(s, config, tool, most, admissions, inFlight - 1, AfterRecord(b, false, now, config.threshold), now)
  {
    s := After(r, [Finish(tool, Raised, true, now)]);
    CallFails(r, tool, now);
    FixedMore(r, Finish(tool, Raised, true, now), tool);
    hide Run.Admissions; hide Run.InFlight; hide Run.Current; hide Run.Clock; hide AfterRecord;
  }

  lemma FixedMore(r: Run, e: Event, tool: string)
    requires FixedThresholds(r) && AlwaysFails(r, tool) && !e.SetThresholds?
    requires e.Finish? ==> !e.outcome.Returned?
    ensures FixedThresholds(After(r, [e])) && AlwaysFails(After(r, [e]), tool)
  {
  }

  function Copies(n: nat, t: real): seq<real> {
    seq(n, i => t)
  }

  lemma CopiesMore(s: seq<real>, n: nat, t: real)
    ensures s + Copies(n, t) + [t] == s + Copies(n + 1, t)
    ensures s + Copies(0, t) == s
  {
  }

  /** n calls, each failing before the next, without reaching the threshold. */
  lemma {:induction false} Solos(
    r: Run, config: Config, tool: string, most: nat, admissions: seq<real>, b: Breaker, clock: real, now: real, n: nat)
    returns (s: Run, after: Breaker, later: real)
    requires Stage(r, config, tool, most, admissions, 0, b, clock) && clock <= now && most > 0
    requires tool in config.registry && |admissions| + n <= config.LimitOf(tool)
    requires Passes(b, now, config.reset) && CountsFrom(b) + n < config.threshold
    ensures Stage(s, config, tool, most, admissions + Copies(n, now), 0, after, later) && later <= now
    ensures Passes(after, now, config.reset) && CountsFrom(after) == CountsFrom(b) + n
    decreases n
  {
    hide Stage;
    CopiesMore(admissions, 0, now);
    if n == 0 {
      s, after, later := r, b, clock;
    } else {
      var mid, between, then' := Solos(r, config, tool, most, admissions, b, clock, now, n - 1);
      CopiesMore(admissions, n - 1, now);
      var begun := Dispatched(mid, config, tool, most, admissions + Copies(n - 1, now), 0, between, then', now);
      var closed := if between.open then between.(open := false, failures := 0) else between;
      s := Failed(begun, config, tool, most, admissions + Copies(n, now), 1, closed, now, now);
      after, later := AfterRecord(closed, false, now, config.threshold), now;
    }
  }

  /** n calls that are in flight together. */
  lemma {:induction false} Group(
    r: Run, config: Config, tool: string, most: nat, admissions: seq<real>, b: Breaker, clock: real, now: real, n: nat)
    returns (s: Run, after: Breaker, later: real)
    requires Stage(r, config, tool, most, admissions, 0, b, clock) && clock <= now && n <= most
    requires tool in config.registry && |admissions| + n <= config.LimitOf(tool)
    requires Passes(b, now, config.reset)
    ensures Stage(s, config, tool, most, admissions + Copies(n, now), n, after, later) && later <= now
    ensures Passes(after, now, config.reset) && CountsFrom(after) == CountsFrom(b) && (n > 0 ==> !after.open)
    decreases n
  {
    hide Stage;
    CopiesMore(admissions, 0, now);
    if n == 0 {
      s, after, later := r, b, clock;
    } else {
      var mid, between, then' := Group(r, config, tool, most, admissions, b, clock, now, n - 1);
      CopiesMore(admissions, n - 1, now);
      s := Dispatched(mid, config, tool, most, admissions + Copies(n - 1, now), n - 1, between, then', now);
      after, later := if between.open then between.(open := false, failures := 0) else between, now;
    }
  }

  /** The calls in flight all fail, and the first failure opens the circuit. */
  lemma {:induction false} Drain(
    r: Run, config: Config, tool: string, most: nat, admissions: seq<real>, n: nat, b: Breaker, clock: real, now: real)
    returns (s: Run, after: Breaker)
    requires Stage(r, config, tool, most, admissions, n, b, clock) && clock <= now && n > 0
    requires if b.open then b.openedAt == now else b.failures + 1 >= config.threshold
    ensures Stage(s, config, tool, most, admissions, 0, after, now) && after.open && after.openedAt == now
    decreases n
  {
    hide Stage;
    s := Failed(r, config, tool, most, admissions, n, b, clock, now);
    after := AfterRecord(b, false, now, config.threshold);
    if n > 1 {
      s, after := Drain(s, config, tool, most, admissions, n - 1, after, now, now);
    }
  }

  /** All the calls one closing of the circuit lets through, at one moment. */
  lemma Burst(
    r: Run, config: Config, tool: string, most: nat, admissions: seq<real>, b: Breaker, clock: real, now: real)
    returns (s: Run, after: Breaker)
    requires Stage(r, config, tool, most, admissions, 0, b, clock) && clock <= now
    requires config.threshold >= 1 && most >= 1 && tool in config.registry
    requires |admissions| + Gap(config.threshold, most) <= config.LimitOf(tool)
    requires Passes(b, now, config.reset) && CountsFrom(b) == 0
    ensures Stage(s, config, tool, most, admissions + Copies(Gap(config.threshold, most), now), 0, after, now)
    ensures after.open && after.openedAt == now
  {
    hide Stage;
    var t := config.threshold;
    var later, then';
    s, after, later := Solos(r, config, tool, most, admissions, b, clock, now, t - 1);
    var grown := admissions + Copies(t - 1, now);
    s, after, then' := Group(s, config, tool, most, grown, after, later, now, most);
    assert grown + Copies(most, now) == admissions + Copies(Gap(t, most), now);
    s, after := Drain(s, config, tool, most, admissions + Copies(Gap(t, most), now), most, after, then', now);
  }

  function Sum(gap: nat, n: nat): nat {
    if n == 0 then 0 else Sum(gap, n - 1) + gap
  }

  lemma {:induction false} SumIsProduct(gap: nat, n: nat)
    ensures Sum(gap, n) == gap * n
  {
    if n > 0 {
      SumIsProduct(gap, n - 1);
      assert gap * (n - 1) + gap == gap * n;
    }
  }

  /** When the k-th reset after the start is due. */
  function ResetTime(reset: real, k: nat): real {
    if k == 0 then 0.0 else ResetTime(reset, k - 1) + reset
  }

  lemma {:induction false} ResetTimeIsProduct(reset: real, k: nat)
    ensures ResetTime(reset, k) == k as real * reset
  {
    if k > 0 {
      ResetTimeIsProduct(reset, k - 1);
      assert (k - 1) as real * reset + reset == k as real * reset;
    }
  }

  lemma {:induction false} ResetTimePositive(reset: real, k: nat)
    requires reset > 0.0
    ensures ResetTime(reset, k) >= 0.0
  {
    if k > 0 {
      ResetTimePositive(reset, k - 1);
    }
  }

  /** k + 1 bursts, one reset time apart. */
  lemma {:induction false} Bursts(config: Config, tool: string, most: nat, k: nat)
    returns (r: Run, admissions: seq<real>, b: Breaker)
    requires config.threshold >= 1 && most >= 1 && tool in config.registry && config.reset > 0.0
    requires Sum(Gap(config.threshold, most), k + 1) <= config.LimitOf(tool)
    ensures Stage(r, config, tool, most, admissions, 0, b, ResetTime(config.reset, k))
    ensures b.open && b.openedAt == ResetTime(config.reset, k)
    ensures |admissions| == Sum(Gap(config.threshold, most), k + 1)
    ensures forall i :: 0 <= i < |admissions| ==> 0.0 <= admissions[i] <= ResetTime(config.reset, k)
    decreases k
  {
    hide Stage; hide Gap; hide Config.LimitOf;
    var gap, now := Gap(config.threshold, most), ResetTime(config.reset, k);
    if k == 0 {
      NothingYet(config, tool, most);
      r, b := Burst(Run(config, 0.0, []), config, tool, most, [], CLOSED, 0.0, 0.0);
      admissions := [] + Copies(gap, 0.0);
    } else {
      ResetTimePositive(config.reset, k - 1);
      var earlier;
      r, earlier, b := Bursts(config, tool, most, k - 1);
      r, b := Burst(r, config, tool, most, earlier, b, ResetTime(config.reset, k - 1), now);
      admissions := earlier + Copies(gap, now);
    }
  }

  lemma NothingYet(config: Config, tool: string, most: nat)
    requires config.threshold >= 1
    ensures Stage(Run(config, 0.0, []), config, tool, most, [], 0, CLOSED, 0.0)
  {
  }

  lemma {:induction false} AllIn(s: seq<real>, low: real, high: real)
    requires forall i :: 0 <= i < |s| ==> low <= s[i] <= high
    ensures CountIn(s, low, high) == |s|
  {
    if s != [] {
      AllIn(s[..|s| - 1], low, high);
    }
  }

  lemma Whole(k: nat, reset: real)
    requires reset > 0.0
    ensures (k as real * reset / reset).Floor == k
  {
    assert k as real * reset / reset == k as real;
  }

  lemma StageConfig(
    r: Run, config: Config, tool: string, most: nat, admissions: seq<real>, inFlight: nat, b: Breaker, clock: real)
    requires Stage(r, config, tool, most, admissions, inFlight, b, clock)
    ensures Outage(r, tool, most) && r.config == config && r.Admissions(tool) == admissions
  {
  }

  /**
    The bound is reached: for every threshold, reset time, number of calls in flight and k there
    is an outage in which an interval of k reset times holds (T + c - 1) * (k + 1) admissions.
  */
  lemma OutageBoundReached(threshold: nat, most: nat, reset: real, k: nat) returns (r: Run)
    requires threshold >= 1 && most >= 1 && reset > 0.0
    ensures Outage(r, "t", most) && r.config.threshold == threshold && r.config.reset == reset
    ensures CountIn(r.Admissions("t"), 0.0, k as real * reset) == (threshold - 1 + most) * (k + 1)
    ensures (k as real * reset / reset).Floor == k
  {
    hide Outage; hide Sum; hide ResetTime; hide CountIn; hide Stage; hide Run.Admissions;
    var gap := threshold - 1 + most;
    var config := Config({"t"}, Sum(gap, k + 1), map[], threshold, reset);
    var admissions, b;
    r, admissions, b := Bursts(config, "t", most, k);
    StageConfig(r, config, "t", most, admissions, 0, b, ResetTime(reset, k));
    AllIn(admissions, 0.0, ResetTime(reset, k));
    ResetTimeIsProduct(reset, k);
    SumIsProduct(gap, k + 1);
    Whole(k, reset);
  }
}
