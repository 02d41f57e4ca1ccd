/**
  What happens to the steps of a task, as values: steps run together in slices, and steps run
  one after another until one of them stops the task.
*/
module Courses {
  import opened Wrappers
  import opened Conversations
  import opened StepExecution

  /** All chat calls made for these steps. */
  ghost function AskedOf(cores: seq<Core>): nat {
    if cores == [] then 0 else AskedOf(cores[..|cores| - 1]) + cores[|cores| - 1].asked
  }

  lemma {:induction false} AskedUpdate(cores: seq<Core>, i: nat, c: Core)
    requires i < |cores|
    ensures AskedOf(cores[i := c]) == AskedOf(cores) - cores[i].asked + c.asked
  {
    var n := |cores| - 1;
    if i < n {
      assert cores[i := c][..n] == cores[..n][i := c];
      AskedUpdate(cores[..n], i, c);
    } else {
      assert cores[i := c][..n] == cores[..n];
    }
  }

  /** All envelopes that these steps have received. */
  ghost function Received(cores: seq<Core>): multiset<Envelope> {
    if cores == [] then multiset{} else Received(cores[..|cores| - 1]) + multiset(cores[|cores| - 1].received)
  }

  lemma {:induction false} ReceivedUpdate(cores: seq<Core>, i: nat, c: Core)
    requires i < |cores| && cores[i].received <= c.received
    ensures Received(cores[i := c]) == Received(cores) + multiset(c.received[|cores[i].received|..])
  {
    var n, later := |cores| - 1, cores[i := c];
    hide *;
    ReceivedSnoc(cores);
    ReceivedSnoc(later);
    UpdateSplits(cores, i, c);
    var more := multiset(c.received[|cores[i].received|..]);
    if i < n {
      ReceivedUpdate(cores[..n], i, c);
    } else {
      TailCounts(cores[i].received, c.received);
    }
    SumGrows(Received(cores[..n]), multiset(cores[n].received),
             Received(later[..n]), multiset(later[n].received), more);
  }

  lemma UpdateSplits(cores: seq<Core>, i: nat, c: Core)
    requires i < |cores|
    ensures var n, later := |cores| - 1, cores[i := c];
            if i < n then later[..n] == cores[..n][i := c] && later[n] == cores[n] && cores[..n][i] == cores[i]
            else later[..n] == cores[..n] && later[n] == c
  {
  }

  lemma SumGrows(
    head: multiset<Envelope>, last: multiset<Envelope>, laterHead: multiset<Envelope>, laterLast: multiset<Envelope>,
    more: multiset<Envelope>)
    requires (laterHead == head + more && laterLast == last) || (laterHead == head && laterLast == last + more)
    ensures laterHead + laterLast == (head + last) + more
  {
  }

  lemma ReceivedSnoc(cores: seq<Core>)
    requires cores != []
    ensures Received(cores) == Received(cores[..|cores| - 1]) + multiset(cores[|cores| - 1].received)
  {
  }

  lemma TailCounts(own: seq<Envelope>, later: seq<Envelope>)
    requires own <= later
    ensures multiset(later) == multiset(own) + multiset(later[|own|..])
  {
    assert later == own + later[|own|..];
  }

  /** If a step and the trace have grown by the same envelopes, the trace still holds what all steps received. */
  lemma ReceivedStep(
    before: seq<Core>, after: seq<Core>, i: nat, escalations: seq<Envelope>, later: seq<Envelope>)
    requires i < |before| == |after| && after == before[i := after[i]]
    requires Logged(escalations, before[i].received, later, after[i].received)
    requires multiset(escalations) == Received(before)
    ensures multiset(later) == Received(after)
  {
    ReceivedUpdate(before, i, after[i]);
  }

  /** One of the steps has received a BLOCK. */
  ghost predicate BlockIn(cores: seq<Core>) {
    exists i :: 0 <= i < |cores| && Block in cores[i].received
  }

  lemma {:induction false} BlockIffReceived(cores: seq<Core>)
    ensures Block in Received(cores) <==> BlockIn(cores)
  {
    if cores != [] {
      var n := |cores| - 1;
      BlockIffReceived(cores[..n]);
      if Block in cores[n].received {
        assert BlockIn(cores);
      } else if BlockIn(cores[..n]) {
        var i :| 0 <= i < n && Block in cores[..n][i].received;
        assert Block in cores[i].received;
      } else if BlockIn(cores) {
        var i :| 0 <= i < |cores| && Block in cores[i].received;
        assert i < n ==> Block in cores[..n][i].received;
      }
    }
  }

  ghost function OutputsOf(cores: seq<Core>): (r: seq<Option<Output>>)
    ensures |r| == |cores| && forall i :: 0 <= i < |r| ==> r[i] == cores[i].output
  {
    seq(|cores|, i requires 0 <= i < |cores| => cores[i].output)
  }

  /** A step is complete exactly when it has an output. */
  ghost predicate Consistent(cores: seq<Core>) {
    forall i :: 0 <= i < |cores| ==> (cores[i].status == Complete <==> cores[i].output.Some?)
  }

  lemma CourseKeeps(job: Job, c: Core)
    requires c.status != Complete && c.output == None
    ensures var (after, outcome) := RunCourse(job, c);
            && (after.status == Complete <==> after.output.Some?)
            && (outcome == Succeeded <==> after.status == Complete)
            && (outcome == FailedStep ==> after.status == Failed)
  {
    hide RunCourse; hide Adds;
    CourseAdvances(job, c);
  }

  lemma CourseAsked(job: Job, c: Core)
    ensures RunCourse(job, c).0.asked <= c.asked + job.settings.StepBudget()
  {
    hide RunCourse; hide Adds;
    CourseAdvances(job, c);
  }

  // ----- steps run together -----

  /** What is known of the steps run together: how each will end has not changed since the start. */
  ghost predicate OnCourse(
    jobs: seq<Job>, before: seq<Core>, now: seq<Core>, batch: set<nat>, courses: map<nat, Course>)
  {
    && |jobs| == |before| == |now| && courses.Keys == batch
    && (forall i :: i in batch ==>
          i < |now| && courses[i].Valid()
          && Rest(jobs[i], courses[i], now[i]) == RunCourse(jobs[i], before[i]))
    && (forall i :: 0 <= i < |now| && i !in batch ==> now[i] == before[i])
  }

  /** Every step of the batch has run its course alone, and no other step has changed. */
  ghost predicate AllRun(jobs: seq<Job>, before: seq<Core>, after: seq<Core>, batch: set<nat>) {
    && |jobs| == |before| == |after|
    && forall i :: 0 <= i < |after| ==>
         after[i] == if i in batch then RunCourse(jobs[i], before[i]).0 else before[i]
  }

  /** The slices that all the steps run together have left. */
  ghost function TotalLeft(settings: Settings, courses: map<nat, Course>, n: nat): nat {
    if n == 0 then 0
    else TotalLeft(settings, courses, n - 1) + if n - 1 in courses then SlicesLeft(settings, courses[n - 1]) else 0
  }

  lemma {:induction false} TotalDrops(
    settings: Settings, courses: map<nat, Course>, i: nat, next: Course, n: nat)
    requires i in courses && SlicesLeft(settings, next) < SlicesLeft(settings, courses[i])
    ensures TotalLeft(settings, courses[i := next], n) <= TotalLeft(settings, courses, n)
    ensures i < n ==> TotalLeft(settings, courses[i := next], n) < TotalLeft(settings, courses, n)
  {
    hide SlicesLeft;
    if n > 0 {
      TotalDrops(settings, courses, i, next, n - 1);
    }
  }

  lemma CourseStep(
    jobs: seq<Job>, before: seq<Core>, now: seq<Core>, later: seq<Core>, batch: set<nat>,
    courses: map<nat, Course>, i: nat, next: Course)
    requires OnCourse(jobs, before, now, batch, courses) && i in batch && next.Valid()
    requires i < |now| && |later| == |now| && later == now[i := later[i]]
    requires Rest(jobs[i], next, later[i]) == Rest(jobs[i], courses[i], now[i])
    ensures OnCourse(jobs, before, later, batch, courses[i := next])
  {
    hide Rest; hide RunCourse;
  }

  lemma CoursesBegin(jobs: seq<Job>, before: seq<Core>, batch: set<nat>)
    requires |jobs| == |before| && forall i :: i in batch ==> i < |before|
    ensures OnCourse(jobs, before, before, batch, map i | i in batch :: Waiting)
  {
    hide RunCourse;
  }

  lemma CoursesEnd(
    jobs: seq<Job>, before: seq<Core>, now: seq<Core>, batch: set<nat>, courses: map<nat, Course>)
    requires OnCourse(jobs, before, now, batch, courses) && forall i :: i in batch ==> courses[i].Over?
    ensures AllRun(jobs, before, now, batch)
  {
    hide RunCourse;
  }

  lemma AllRunConsistent(jobs: seq<Job>, before: seq<Core>, after: seq<Core>, batch: set<nat>)
    requires AllRun(jobs, before, after, batch) && Consistent(before)
    requires forall i :: i in batch ==> i < |before| && before[i].status == Pending
    ensures Consistent(after)
  {
    hide RunCourse;
    forall i | 0 <= i < |after| ensures after[i].status == Complete <==> after[i].output.Some? {
      if i in batch {
        CourseKeeps(jobs[i], before[i]);
      }
    }
  }

  /** Together the steps of the batch make no more calls than one budget for each. */
  lemma {:induction false} AllRunAsked(
    jobs: seq<Job>, before: seq<Core>, after: seq<Core>, batch: set<nat>, settings: Settings)
    requires AllRun(jobs, before, after, batch)
    requires forall i :: 0 <= i < |jobs| ==> jobs[i].settings == settings
    ensures AskedOf(after) <= AskedOf(before) + |batch| * settings.StepBudget()
  {
    hide RunCourse; hide Settings.StepBudget;
    if after != [] {
      var n := |after| - 1;
      assert AllRun(jobs[..n], before[..n], after[..n], batch - {n}) by {
        PrefixRun(jobs, before, after, batch);
      }
      AllRunAsked(jobs[..n], before[..n], after[..n], batch - {n}, settings);
      if n in batch {
        CourseAsked(jobs[n], before[n]);
        MinusOne(batch, n, settings.StepBudget());
      } else {
        assert batch - {n} == batch;
      }
    }
  }

  /** ... and exactly that, if each of them spends its budget. */
  lemma {:induction false} AllRunAskedFully(
    jobs: seq<Job>, before: seq<Core>, after: seq<Core>, batch: set<nat>, settings: Settings)
    requires AllRun(jobs, before, after, batch) && forall i :: i in batch ==> i < |after|
    requires forall i :: i in batch ==> after[i].asked == before[i].asked + settings.StepBudget()
    ensures AskedOf(after) == AskedOf(before) + |batch| * settings.StepBudget()
  {
    hide RunCourse; hide Settings.StepBudget;
    if after == [] {
      assert batch == {};
    } else {
      var n := |after| - 1;
      assert AllRun(jobs[..n], before[..n], after[..n], batch - {n}) by {
        PrefixRun(jobs, before, after, batch);
      }
      AllRunAskedFully(jobs[..n], before[..n], after[..n], batch - {n}, settings);
      if n in batch {
        MinusOne(batch, n, settings.StepBudget());
      } else {
        assert batch - {n} == batch;
      }
    }
  }

  lemma PrefixRun(jobs: seq<Job>, before: seq<Core>, after: seq<Core>, batch: set<nat>)
    requires AllRun(jobs, before, after, batch) && after != []
    ensures var n := |after| - 1; AllRun(jobs[..n], before[..n], after[..n], batch - {n})
  {
    hide RunCourse;
  }

  lemma MinusOne(batch: set<nat>, n: nat, more: nat)
    requires n in batch
    ensures |batch| * more == |batch - {n}| * more + more
  {
    assert |batch| == |batch - {n}| + 1;
    OneMoreStep(|batch - {n}|, more);
  }

  lemma OneMoreStep(k: nat, budget: nat)
    ensures (k + 1) * budget == k * budget + budget
  {
  }

  // ----- steps run one after another -----

  /** How a step counts when the sequential phase comes to it: a complete one is passed over. */
  ghost function Outcome(job: Job, c: Core): StepOutcome {
    if c.status == Complete then Succeeded else RunCourse(job, c).1
  }

  ghost function Outcomes(jobs: seq<Job>, start: seq<Core>): (r: seq<StepOutcome>)
    requires |jobs| == |start|
    ensures |r| == |start| && forall i :: 0 <= i < |r| ==> r[i] == Outcome(jobs[i], start[i])
  {
    seq(|start|, i requires 0 <= i < |start| => Outcome(jobs[i], start[i]))
  }

  /** The steps after the phase has gone through the first n: those not complete yet were run. */
  ghost function Passed(jobs: seq<Job>, start: seq<Core>, n: nat): (r: seq<Core>)
    requires |jobs| == |start|
    ensures |r| == |start|
    ensures forall i :: 0 <= i < |r| ==>
              r[i] == if i < n && start[i].status != Complete then RunCourse(jobs[i], start[i]).0 else start[i]
  {
    seq(|start|, i requires 0 <= i < |start| =>
      if i < n && start[i].status != Complete then RunCourse(jobs[i], start[i]).0 else start[i])
  }

  /** How many of the first n steps were run. */
  ghost function Incomplete(start: seq<Core>, n: nat): (k: nat)
    requires n <= |start|
    ensures k <= n
  {
    if n == 0 then 0 else Incomplete(start, n - 1) + if start[n - 1].status == Complete then 0 else 1
  }

  lemma PassedNothing(jobs: seq<Job>, start: seq<Core>)
    requires |jobs| == |start|
    ensures Passed(jobs, start, 0) == start
  {
    hide RunCourse;
  }

  lemma PassedStep(jobs: seq<Job>, start: seq<Core>, i: nat)
    requires |jobs| == |start| && i < |start|
    ensures Passed(jobs, start, i)[i] == start[i]
    ensures Passed(jobs, start, i + 1) ==
            if start[i].status == Complete then Passed(jobs, start, i)
            else Passed(jobs, start, i)[i := RunCourse(jobs[i], start[i]).0]
  {
    hide RunCourse;
  }

  lemma {:induction false} PassedAsked(jobs: seq<Job>, start: seq<Core>, n: nat, settings: Settings)
    requires |jobs| == |start| && n <= |start|
    requires forall i :: 0 <= i < |jobs| ==> jobs[i].settings == settings
    ensures AskedOf(Passed(jobs, start, n)) <= AskedOf(start) + Incomplete(start, n) * settings.StepBudget()
  {
    hide Passed; hide AskedOf; hide RunCourse; hide Settings.StepBudget;
    if n == 0 {
      PassedNothing(jobs, start);
    } else {
      PassedAsked(jobs, start, n - 1, settings);
      PassedStep(jobs, start, n - 1);
      AskedUpdate(Passed(jobs, start, n - 1), n - 1, RunCourse(jobs[n - 1], start[n - 1]).0);
      CourseAsked(jobs[n - 1], start[n - 1]);
      OneMoreStep(Incomplete(start, n - 1), settings.StepBudget());
    }
  }

  /** If no step is complete at the start and each spends its budget, all of it is used up. */
  lemma {:induction false} PassedAskedFully(jobs: seq<Job>, start: seq<Core>, n: nat, settings: Settings)
    requires |jobs| == |start| && n <= |start| && forall i :: 0 <= i < |start| ==> start[i].status != Complete
    requires forall i :: 0 <= i < n ==> RunCourse(jobs[i], start[i]).0.asked == start[i].asked + settings.StepBudget()
    ensures AskedOf(Passed(jobs, start, n)) == AskedOf(start) + n * settings.StepBudget()
  {
    hide Passed; hide AskedOf; hide RunCourse; hide Settings.StepBudget;
    if n == 0 {
      PassedNothing(jobs, start);
    } else {
      PassedAskedFully(jobs, start, n - 1, settings);
      PassedStep(jobs, start, n - 1);
      AskedUpdate(Passed(jobs, start, n - 1), n - 1, RunCourse(jobs[n - 1], start[n - 1]).0);
      OneMoreStep(n - 1, settings.StepBudget());
    }
  }

  /** Whether some step has received a BLOCK by the time the phase has passed each of them. */
  ghost function Blocks(jobs: seq<Job>, start: seq<Core>): (r: seq<bool>)
    requires |jobs| == |start|
    ensures |r| == |start| && forall i :: 0 <= i < |r| ==> r[i] == BlockBy(jobs, start, i + 1)
  {
    seq(|start|, i requires 0 <= i < |start| => BlockBy(jobs, start, i + 1))
  }

  ghost predicate BlockBy(jobs: seq<Job>, start: seq<Core>, n: nat)
    requires |jobs| == |start|
  {
    BlockIn(Passed(jobs, start, n))
  }

  /** Someone has received a BLOCK exactly if a step had one at the start or one that was run received it. */
  lemma BlockedIff(jobs: seq<Job>, start: seq<Core>, n: nat)
    requires |jobs| == |start|
    ensures BlockIn(Passed(jobs, start, n)) <==>
            BlockIn(start)
            || exists i :: 0 <= i < |start| && i < n && start[i].status != Complete
                           && Block in RunCourse(jobs[i], start[i]).0.received
  {
    hide RunCourse; hide Advanced;
    var after := Passed(jobs, start, n);
    forall i | 0 <= i < |start|
      ensures Block in after[i].received <==>
              Block in start[i].received
              || (i < n && start[i].status != Complete && Block in RunCourse(jobs[i], start[i]).0.received)
    {
      CourseAdds(jobs[i], start[i]);
    }
  }

  lemma CourseAdds(job: Job, c: Core)
    ensures c.received <= RunCourse(job, c).0.received
    ensures Quiet(job.replies) ==> RunCourse(job, c).0.received == c.received
  {
    hide RunCourse; hide Quiet;
    CourseAdvances(job, c);
  }

  /** The phase stops at a step that raises, and at one that fails without a fallback or after a BLOCK. */
  predicate Stops(abort: bool, outcome: StepOutcome, blocked: bool) {
    outcome == Crashed || (outcome == FailedStep && (abort || blocked))
  }

  /** The phase stops at none of the first n. */
  ghost predicate NoStop(abort: bool, outcomes: seq<StepOutcome>, blocks: seq<bool>, n: nat) {
    n <= |outcomes| == |blocks| && forall i :: 0 <= i < n ==> !Stops(abort, outcomes[i], blocks[i])
  }

  /** The first step the phase would stop at, or their number. */
  function FirstStop(abort: bool, outcomes: seq<StepOutcome>, blocks: seq<bool>): (k: nat)
    requires |outcomes| == |blocks|
    ensures k <= |outcomes| && (forall i :: 0 <= i < k ==> !Stops(abort, outcomes[i], blocks[i]))
    ensures k < |outcomes| ==> Stops(abort, outcomes[k], blocks[k])
  {
    if outcomes == [] || Stops(abort, outcomes[0], blocks[0]) then 0
    else 1 + FirstStop(abort, outcomes[1..], blocks[1..])
  }

  /** The first step that does not succeed, or their number. */
  function FirstTrouble(outcomes: seq<StepOutcome>): (k: nat)
    ensures k <= |outcomes| && (forall i :: 0 <= i < k ==> outcomes[i] == Succeeded)
    ensures k < |outcomes| ==> outcomes[k] != Succeeded
  {
    if outcomes == [] || outcomes[0] != Succeeded then 0 else 1 + FirstTrouble(outcomes[1..])
  }

  /**
    After a phase that could reach the first `reached` steps and passed n of them, all steps are
    complete exactly when the first `reached` succeed and the others were complete before.
  */
  lemma AllCompleteIff(jobs: seq<Job>, start: seq<Core>, n: nat, reached: nat)
    requires |jobs| == |start| && Consistent(start) && n <= reached <= |start|
    requires n < reached ==> exists i :: 0 <= i < n && Outcomes(jobs, start)[i] != Succeeded
    ensures (forall i :: 0 <= i < |start| ==> Passed(jobs, start, n)[i].status == Complete) <==>
            FirstTrouble(Outcomes(jobs, start)) >= reached
            && forall i :: reached <= i < |start| ==> start[i].status == Complete
  {
    hide RunCourse; hide FirstTrouble;
    var after, outcomes := Passed(jobs, start, n), Outcomes(jobs, start);
    forall i | 0 <= i < n ensures after[i].status == Complete <==> outcomes[i] == Succeeded {
      if start[i].status != Complete {
        CourseKeeps(jobs[i], start[i]);
      }
    }
    var k := FirstTrouble(outcomes);
    assert k < |outcomes| ==> outcomes[k] != Succeeded;
  }
}
