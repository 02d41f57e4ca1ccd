/**
  A whole orchestrated run: the optional parallel phase for plan steps without dependencies,
  the sequential loop, and the final synthesis, with every model reply left arbitrary.
*/
module TaskRuns {
  import opened Wrappers
  import opened Conversations
  import opened StepExecution
  import opened Plans
  import opened Courses
  import D = Dependencies
  import K = Kahn
  import L = Levels
  import TG = TaskGraphs

  datatype TaskStatus = RunningSteps | Blocked | FailedTask | Aborted | Validating | Finished

  ghost predicate DistinctSteps(steps: seq<StepRecord>) {
    forall i, j :: 0 <= i < j < |steps| ==> steps[i] != steps[j]
  }

  ghost function Cores(steps: seq<StepRecord>): (c: seq<Core>)
    reads steps
    ensures |c| == |steps| && forall i :: 0 <= i < |c| ==> c[i] == steps[i].Snapshot()
  {
    seq(|steps|, i requires 0 <= i < |steps| reads steps => steps[i].Snapshot())
  }

  ghost function Outputs(steps: seq<StepRecord>): seq<Option<Output>>
    reads steps
  {
    OutputsOf(Cores(steps))
  }

  /** All chat calls made for the steps of a task. */
  ghost function Asked(steps: seq<StepRecord>): nat
    reads steps
  {
    AskedOf(Cores(steps))
  }

  ghost function Agents(steps: seq<StepRecord>): (a: seq<string>)
    reads steps
    ensures |a| == |steps| && forall i :: 0 <= i < |a| ==> a[i] == steps[i].agent
  {
    seq(|steps|, i requires 0 <= i < |steps| reads steps => steps[i].agent)
  }

  ghost function Inputs(steps: seq<StepRecord>): (r: seq<Input>)
    reads steps
    ensures |r| == |steps| && forall i :: 0 <= i < |r| ==> r[i] == steps[i].input
  {
    seq(|steps|, i requires 0 <= i < |steps| reads steps => steps[i].input)
  }

  /** What each step is to do, if these are the agents. */
  ghost function JobsWith(steps: seq<StepRecord>, settings: Settings, agents: seq<string>): (jobs: seq<Job>)
    requires |agents| == |steps|
    ensures |jobs| == |steps|
    ensures forall i :: 0 <= i < |jobs| ==>
              jobs[i] == steps[i].JobWith(settings, settings.ModelFor(agents[i])) && jobs[i].settings == settings
  {
    seq(|steps|, i requires 0 <= i < |steps| => steps[i].JobWith(settings, settings.ModelFor(agents[i])))
  }

  ghost function Jobs(steps: seq<StepRecord>, settings: Settings): seq<Job>
    reads steps
  {
    JobsWith(steps, settings, Agents(steps))
  }

  /** For a complex task a worker's step goes to the reasoner. */
  function Upgraded(agent: string, upgrade: bool): string {
    if agent == "worker" && upgrade then "reasoner" else agent
  }

  function UpgradedAll(agents: seq<string>, upgrade: bool): (r: seq<string>)
    ensures |r| == |agents| && forall i :: 0 <= i < |r| ==> r[i] == Upgraded(agents[i], upgrade)
  {
    seq(|agents|, i requires 0 <= i < |agents| => Upgraded(agents[i], upgrade))
  }

  // ----- the streams of a task -----

  /** What each step will receive: the replies to its chat calls, and what its attempts find. */
  datatype Streams = Streams(replies: (nat, nat) -> Reply, setups: (nat, nat) -> Setup)

  function StreamOf<T>(f: (nat, nat) -> T, i: nat): nat -> T {
    (k: nat) => f(i, k)
  }

  function AgentsOf(plan: Plan): (r: seq<string>)
    ensures |r| == |plan.steps| && forall i :: 0 <= i < |r| ==> r[i] == plan.steps[i].agent
  {
    seq(|plan.steps|, i requires 0 <= i < |plan.steps| => plan.steps[i].agent)
  }

  /** The jobs of the plan's steps, if these are the agents. */
  ghost function PlanJobs(plan: Plan, settings: Settings, streams: Streams, agents: seq<string>): (jobs: seq<Job>)
    requires |agents| == |plan.steps|
    ensures |jobs| == |plan.steps|
    ensures forall i :: 0 <= i < |jobs| ==>
              jobs[i] == Job(settings, settings.ModelFor(agents[i]), plan.steps[i].action,
                             StreamOf(streams.replies, i), StreamOf(streams.setups, i))
  {
    seq(|plan.steps|, i requires 0 <= i < |plan.steps| =>
      Job(settings, settings.ModelFor(agents[i]), plan.steps[i].action,
          StreamOf(streams.replies, i), StreamOf(streams.setups, i)))
  }

  const FRESH: Core := Core(Pending, None, 0, 0, 0, 0, [], [])

  ghost function AllFresh(n: nat): (r: seq<Core>)
    ensures |r| == n && forall i :: 0 <= i < n ==> r[i] == FRESH
  {
    seq(n, i => FRESH)
  }

  lemma {:induction false} AllFreshAsked(n: nat)
    ensures AskedOf(AllFresh(n)) == 0 && Consistent(AllFresh(n))
    ensures Received(AllFresh(n)) == multiset{} && !BlockIn(AllFresh(n))
  {
    if n > 0 {
      AllFreshAsked(n - 1);
      assert AllFresh(n)[..n - 1] == AllFresh(n - 1);
    }
  }

  /** The first record with a root's id: the one the dispatcher of the parallel phase finds. */
  predicate IsRoot(plan: Plan, i: nat)
    requires i < |plan.steps|
  {
    && Text(plan.steps[i].stepId) in RootIds(plan)
    && forall j :: 0 <= j < i ==> Text(plan.steps[j].stepId) != Text(plan.steps[i].stepId)
  }

  // ----- the sequential phase, as values -----

  /** What one pass of the sequential loop leads to. */
  datatype Pass = GoOn | Stop | Raise

  ghost predicate StartedIn(log: seq<Start>, i: nat) {
    exists k :: 0 <= k < |log| && log[k].index == i
  }

  /** The steps in the log are those of the first n that were not complete at the start. */
  ghost predicate Covers(log: seq<Start>, start: seq<Core>, n: nat)
    requires n <= |start|
  {
    && |log| == Incomplete(start, n)
    && forall i: nat :: StartedIn(log, i) <==> i < n && start[i].status != Complete
  }

  lemma LogCount(log: seq<Start>, start: seq<Core>, n: nat)
    requires n <= |start| && Covers(log, start, n)
    ensures |log| == Incomplete(start, n)
  {
  }

  lemma CoversNothing(start: seq<Core>)
    ensures Covers([], start, 0)
  {
  }

  lemma CoversStep(log: seq<Start>, start: seq<Core>, n: nat, e: Start)
    requires n < |start| && Covers(log, start, n) && e.index == n
    ensures start[n].status == Complete ==> Covers(log, start, n + 1)
    ensures start[n].status != Complete ==> Covers(log + [e], start, n + 1)
  {
    forall i: nat ensures StartedIn(log + [e], i) <==> StartedIn(log, i) || i == n {
      if StartedIn(log, i) {
        var k :| 0 <= k < |log| && log[k].index == i;
        assert (log + [e])[k].index == i;
      }
      if i == n {
        assert (log + [e])[|log|].index == i;
      }
    }
  }

  /** Without a fallback every step before the current one is complete. */
  lemma EarlierAreComplete(jobs: seq<Job>, start: seq<Core>, n: nat)
    requires |jobs| == |start| && Consistent(start) && NoStop(true, Outcomes(jobs, start), Blocks(jobs, start), n)
    ensures forall i :: 0 <= i < n ==> Passed(jobs, start, n)[i].output.Some?
  {
    hide RunCourse; hide BlockIn;
    forall i | 0 <= i < n ensures Passed(jobs, start, n)[i].output.Some? {
      assert !Stops(true, Outcomes(jobs, start)[i], Blocks(jobs, start)[i]);
      if start[i].status != Complete {
        CourseKeeps(jobs[i], start[i]);
      }
    }
  }

  function Least(a: nat, b: nat): nat {
    if a < b then a else b
  }

  lemma LeastIs(a: nat, b: nat)
    ensures Least(a, b) <= a && Least(a, b) <= b && (Least(a, b) == a || Least(a, b) == b)
  {
  }

  /** How the phase ends: after how many steps, raising or not, and with which status. */
  datatype PhaseEnd = PhaseEnd(upTo: nat, crashed: bool, status: TaskStatus)

  /** It ends at its first stop, or at the cap, or with the last step. */
  function EndOf(settings: Settings, abort: bool, outcomes: seq<StepOutcome>, blocks: seq<bool>): PhaseEnd
    requires |outcomes| == |blocks|
  {
    var k, reached := FirstStop(abort, outcomes, blocks), Least(|outcomes|, settings.StepCap());
    if k < reached then PhaseEnd(k + 1, outcomes[k] == Crashed, StatusAt(outcomes[k], blocks[k]))
    else PhaseEnd(reached, false, if reached < |outcomes| then Aborted else RunningSteps)
  }

  function StatusAt(outcome: StepOutcome, blocked: bool): TaskStatus {
    if outcome == Crashed then RunningSteps else if blocked then Blocked else FailedTask
  }

  lemma EndsCapped(settings: Settings, abort: bool, outcomes: seq<StepOutcome>, blocks: seq<bool>, i: nat)
    requires NoStop(abort, outcomes, blocks, i) && i == settings.StepCap() < |outcomes|
    ensures EndOf(settings, abort, outcomes, blocks) == PhaseEnd(i, false, Aborted)
    ensures i <= Least(|outcomes|, settings.StepCap())
  {
    hide FirstStop; hide Stops;
  }

  lemma EndsThrough(settings: Settings, abort: bool, outcomes: seq<StepOutcome>, blocks: seq<bool>)
    requires NoStop(abort, outcomes, blocks, |outcomes|) && |outcomes| <= settings.StepCap()
    ensures EndOf(settings, abort, outcomes, blocks) == PhaseEnd(|outcomes|, false, RunningSteps)
    ensures |outcomes| <= Least(|outcomes|, settings.StepCap())
  {
    hide FirstStop; hide Stops;
  }

  lemma EndsAfter(
    settings: Settings, abort: bool, outcomes: seq<StepOutcome>, blocks: seq<bool>, i: nat,
    pass: Pass, status: TaskStatus)
    requires NoStop(abort, outcomes, blocks, i) && i < |outcomes| && i < settings.StepCap()
    requires PassIs(abort, outcomes[i], blocks[i], pass, status)
    ensures pass == GoOn ==> NoStop(abort, outcomes, blocks, i + 1) && status == RunningSteps
    ensures pass != GoOn ==> EndOf(settings, abort, outcomes, blocks) == PhaseEnd(i + 1, pass == Raise, status)
    ensures i + 1 <= Least(|outcomes|, settings.StepCap())
  {
    hide FirstStop;
  }

  /** What a pass leads to, and the status it leaves. */
  predicate PassIs(abort: bool, outcome: StepOutcome, blocked: bool, pass: Pass, status: TaskStatus) {
    match pass
    case GoOn => status == RunningSteps && !Stops(abort, outcome, blocked)
    case Raise => status == RunningSteps && outcome == Crashed
    case Stop => outcome == FailedStep && (abort || blocked) && status == if blocked then Blocked else FailedTask
  }

  /** What each status in which the phase can end says about the steps. */
  lemma StatusIff(settings: Settings, abort: bool, outcomes: seq<StepOutcome>, blocks: seq<bool>)
    requires |outcomes| == |blocks|
    ensures var status, reached := EndOf(settings, abort, outcomes, blocks).status,
                                   Least(|outcomes|, settings.StepCap());
            && (status == Blocked <==>
                exists i :: 0 <= i < reached && outcomes[i] == FailedStep && blocks[i]
                            && forall j :: 0 <= j < i ==>
                                 outcomes[j] != Crashed && (abort ==> outcomes[j] == Succeeded))
            && (status == FailedTask <==>
                abort && exists i :: 0 <= i < reached && outcomes[i] == FailedStep && !blocks[i]
                                     && forall j :: 0 <= j < i ==> outcomes[j] == Succeeded)
            && (status == Aborted <==> reached < |outcomes| && NoStop(abort, outcomes, blocks, reached))
  {
    hide FirstStop;
    var k := FirstStop(abort, outcomes, blocks);
    assert k < |outcomes| ==> Stops(abort, outcomes[k], blocks[k]);
    assert forall j :: 0 <= j < k ==> !Stops(abort, outcomes[j], blocks[j]);
    assert forall i :: 0 <= i < |outcomes| && outcomes[i] == FailedStep && (abort || blocks[i]) ==> k <= i;
  }

  /** Without a fallback the first step that does not succeed decides how the phase ends. */
  ghost predicate Decided(settings: Settings, outcomes: seq<StepOutcome>, blocks: seq<bool>, end: PhaseEnd)
    requires |outcomes| == |blocks|
  {
    var k, reached := FirstTrouble(outcomes), Least(|outcomes|, settings.StepCap());
    && end.upTo == (if k < reached then k + 1 else reached)
    && (end.crashed <==> k < reached && outcomes[k] == Crashed)
    && (end.status == FailedTask <==> k < reached && outcomes[k] == FailedStep && !blocks[k])
    && (end.status == Blocked <==> k < reached && outcomes[k] == FailedStep && blocks[k])
    && (end.status == Aborted <==> k >= reached && reached < |outcomes|)
    && (!end.crashed ==> (end.status == RunningSteps <==> k == |outcomes| == reached))
  }

  lemma TroubleDecides(settings: Settings, outcomes: seq<StepOutcome>, blocks: seq<bool>)
    requires |outcomes| == |blocks|
    ensures Decided(settings, outcomes, blocks, EndOf(settings, true, outcomes, blocks))
  {
    hide FirstTrouble; hide FirstStop;
    var k, stop := FirstTrouble(outcomes), FirstStop(true, outcomes, blocks);
    assert k < |outcomes| ==> Stops(true, outcomes[k], blocks[k]);
    assert stop < |outcomes| ==> Stops(true, outcomes[stop], blocks[stop]);
    assert stop == k;
  }

  /** A pending record of the plan's i-th step. */
  ghost predicate IsRecord(plan: Plan, streams: Streams, i: nat, r: StepRecord)
    requires i < |plan.steps|
    reads r
  {
    && r.Snapshot() == FRESH && r.input == NoInput
    && r.stepId == plan.steps[i].stepId && r.action == plan.steps[i].action && r.agent == plan.steps[i].agent
    && r.replies == StreamOf(streams.replies, i) && r.setups == StreamOf(streams.setups, i)
  }

  class TaskRun {
    const plan: Plan
    const steps: seq<StepRecord>
    const trace: Trace
    var status: TaskStatus

    ghost predicate Valid()
      reads trace, steps
    {
      && |steps| == |plan.steps| && DistinctSteps(steps)
      && (forall i :: 0 <= i < |steps| ==> steps[i].stepId == plan.steps[i].stepId)
      && Consistent(Cores(steps)) && Recorded()
    }

    /** The trace holds exactly the envelopes that the steps have received. */
    ghost predicate Recorded()
      reads trace, steps
    {
      multiset(trace.escalations) == Received(Cores(steps))
    }

    /** So the test for a BLOCK sees the one of any step. */
    lemma BlockSeen()
      requires Recorded()
      ensures Block in trace.escalations <==> BlockIn(Cores(steps))
    {
      hide Cores;
      BlockIffReceived(Cores(steps));
      assert Block in multiset(trace.escalations) <==> Block in trace.escalations;
    }

    /** Each step will receive its part of the streams. */
    ghost predicate Follows(streams: Streams) {
      |steps| == |plan.steps| && forall i :: 0 <= i < |steps| ==>
        steps[i].action == plan.steps[i].action && steps[i].replies == StreamOf(streams.replies, i)
        && steps[i].setups == StreamOf(streams.setups, i)
    }

    /** One pending record per plan step. */
    constructor (plan: Plan, streams: Streams)
      ensures this.plan == plan && Valid() && fresh(trace) && fresh(steps)
      ensures status == RunningSteps && NoInputs() && trace.escalations == []
      ensures Cores(steps) == AllFresh(|plan.steps|) && Agents(steps) == AgentsOf(plan)
      ensures Follows(streams)
    {
      hide IsRecord;
      var records: seq<StepRecord> := [];
      for i := 0 to |plan.steps|
        invariant |records| == i && fresh(records) && DistinctSteps(records)
        invariant forall j :: 0 <= j < i ==> IsRecord(plan, streams, j, records[j])
      {
        var p := plan.steps[i];
        var record := new StepRecord(
          p.stepId, p.action, p.agent, StreamOf(streams.replies, i), StreamOf(streams.setups, i));
        NewRecord(plan, streams, i, record);
        records := records + [record];
      }
      this.plan, this.steps, this.status := plan, records, RunningSteps;
      this.trace := new Trace();
      new;
      NewTask(streams);
    }

    static lemma NewRecord(plan: Plan, streams: Streams, i: nat, r: StepRecord)
      requires i < |plan.steps| && r.Snapshot() == FRESH && r.input == NoInput
      requires r.stepId == plan.steps[i].stepId && r.action == plan.steps[i].action
      requires r.agent == plan.steps[i].agent
      requires r.replies == StreamOf(streams.replies, i) && r.setups == StreamOf(streams.setups, i)
      ensures IsRecord(plan, streams, i, r)
    {
    }

    lemma NewTask(streams: Streams)
      requires |steps| == |plan.steps| && DistinctSteps(steps)
      requires forall j :: 0 <= j < |steps| ==> IsRecord(plan, streams, j, steps[j])
      requires trace.escalations == []
      ensures Valid() && NoInputs() && Follows(streams)
      ensures Cores(steps) == AllFresh(|plan.steps|) && Agents(steps) == AgentsOf(plan)
    {
      hide DistinctSteps; hide StreamOf; hide Consistent; hide Received;
      AllFreshAsked(|plan.steps|);
      forall j | 0 <= j < |steps| ensures Cores(steps)[j] == FRESH && Agents(steps)[j] == plan.steps[j].agent {
        assert IsRecord(plan, streams, j, steps[j]);
      }
      assert Cores(steps) == AllFresh(|plan.steps|);
    }

    /** Runs step i; every other step is left alone. */
    method RunStep(i: nat, settings: Settings) returns (r: StepOutcome)
      requires DistinctSteps(steps) && i < |steps| && Recorded()
      modifies trace, steps[i]
      ensures Recorded() && old(trace.escalations) <= trace.escalations
      ensures (Cores(steps)[i], r) ==
              RunCourse(steps[i].JobWith(settings, settings.ModelFor(steps[i].agent)), old(Cores(steps)[i]))
      ensures Cores(steps) == old(Cores(steps))[i := Cores(steps)[i]]
      ensures Inputs(steps) == old(Inputs(steps)) && Agents(steps) == old(Agents(steps))
    {
      hide RunCourse; hide StepRecord.EndedBy; hide Received; hide StepRecord.Snapshot;
      ghost var before, escalations := Cores(steps), trace.escalations;
      OwnList(i);
      r := steps[i].ExecuteStep(trace, settings);
      OwnList(i);
      assert Cores(steps)[i] == steps[i].Snapshot();
      ReceivedStep(before, Cores(steps), i, escalations, trace.escalations);
    }

    lemma OwnList(i: nat)
      requires i < |steps|
      ensures Cores(steps)[i].received == steps[i].received
    {
    }

    // ----- the parallel phase -----

    /** No step has been given an input yet. */
    ghost predicate NoInputs()
      reads steps
    {
      forall i :: 0 <= i < |steps| ==> steps[i].input == NoInput
    }

    /** One slice of step i; every other step is left alone. */
    method ResumeAt(i: nat, settings: Settings, at: Course) returns (next: Course)
      requires DistinctSteps(steps) && i < |steps| && at.Valid() && !at.Over? && Recorded()
      modifies trace, steps[i]
      ensures Recorded() && old(trace.escalations) <= trace.escalations
      ensures next.Valid() && SlicesLeft(settings, next) < SlicesLeft(settings, at)
      ensures Cores(steps) == old(Cores(steps))[i := Cores(steps)[i]]
      ensures Rest(Jobs(steps, settings)[i], next, Cores(steps)[i]) ==
              Rest(Jobs(steps, settings)[i], at, old(Cores(steps)[i]))
      ensures Inputs(steps) == old(Inputs(steps)) && Agents(steps) == old(Agents(steps))
    {
      hide Rest; hide SlicesLeft; hide StepRecord.Snapshot; hide StepRecord.JobWith;
      hide Settings.ModelFor; hide Received;
      ghost var before, escalations := Cores(steps), trace.escalations;
      OwnList(i);
      next := steps[i].Resume(trace, settings, at);
      OwnList(i);
      assert Cores(steps)[i] == steps[i].Snapshot();
      ReceivedStep(before, Cores(steps), i, escalations, trace.escalations);
    }

    /**
      Awaits the steps of the batch together.  At every moment any of them that is not over may
      be resumed, so the slices come in every possible order; each step ends in every field as
      if it had run alone.
    */
    method RunTogether(settings: Settings, batch: set<nat>)
      requires DistinctSteps(steps) && Recorded() && forall i :: i in batch ==> i < |steps|
      modifies trace, steps
      ensures Recorded() && old(trace.escalations) <= trace.escalations
      ensures AllRun(Jobs(steps, settings), old(Cores(steps)), Cores(steps), batch)
      ensures Inputs(steps) == old(Inputs(steps)) && Agents(steps) == old(Agents(steps))
    {
      hide OnCourse; hide Rest; hide SlicesLeft; hide TotalLeft; hide DistinctSteps; hide AllRun; hide Recorded;
      hide Cores; hide Inputs; hide Agents;
      ghost var before, jobs := Cores(steps), Jobs(steps, settings);
      var courses: map<nat, Course> := map i | i in batch :: Waiting;
      var active := batch;
      CoursesBegin(jobs, before, batch);
      while active != {}
        invariant courses.Keys == batch && active <= batch
        invariant forall i :: i in batch ==> courses[i].Valid() && (i in active <==> !courses[i].Over?)
        invariant OnCourse(jobs, before, Cores(steps), batch, courses)
        invariant Inputs(steps) == old(Inputs(steps)) && Agents(steps) == old(Agents(steps))
        invariant Recorded() && old(trace.escalations) <= trace.escalations
        decreases TotalLeft(settings, courses, |steps|)
      {
        var i :| i in active;
        ghost var now := Cores(steps);
        var next := ResumeAt(i, settings, courses[i]);
        CourseStep(jobs, before, now, Cores(steps), batch, courses, i, next);
        TotalDrops(settings, courses, i, next, |steps|);
        courses := courses[i := next];
        if next.Over? {
          active := active - {i};
        }
      }
      CoursesEnd(jobs, before, Cores(steps), batch, courses);
    }

    /** The first record whose id has this text. */
    method FirstWithId(id: string) returns (i: nat)
      requires exists j :: 0 <= j < |steps| && Text(steps[j].stepId) == id
      ensures i < |steps| && Text(steps[i].stepId) == id
      ensures forall j :: 0 <= j < i ==> Text(steps[j].stepId) != id
    {
      hide Text;
      i := 0;
      while Text(steps[i].stepId) != id
        invariant i < |steps| && forall j :: 0 <= j < i ==> Text(steps[j].stepId) != id
        invariant exists j :: i <= j < |steps| && Text(steps[j].stepId) == id
        decreases |steps| - i
      {
        i := i + 1;
      }
    }

    /** The steps that the dispatcher matches: the first record with each id in `ids`. */
    ghost predicate Matched(ids: set<string>, i: nat)
      requires i < |steps|
    {
      Text(steps[i].stepId) in ids && forall j :: 0 <= j < i ==> Text(steps[j].stepId) != Text(steps[i].stepId)
    }

    ghost predicate HasRecord(id: string) {
      exists j :: 0 <= j < |steps| && Text(steps[j].stepId) == id
    }

    /** The steps a level of node ids stands for: the matching records that are still pending. */
    method MatchingSteps(level: seq<string>) returns (batch: set<nat>)
      requires forall id :: id in level ==> HasRecord(id)
      ensures forall i: nat ::
                i in batch <==> i < |steps| && Matched(L.Elements(level), i) && steps[i].status == Pending
      ensures |batch| <= |level|
    {
      hide Matched; hide Text; hide L.Elements; hide HasRecord;
      batch := {};
      forall i | 0 <= i < |steps| ensures !Matched(L.Elements(level[..0]), i) {
        NothingMatched(level[..0], i);
      }
      for k := 0 to |level|
        invariant forall i: nat ::
                    i in batch <==> i < |steps| && Matched(L.Elements(level[..k]), i) && steps[i].status == Pending
        invariant |batch| <= k
      {
        RecordOf(level[k]);
        var first := FirstWithId(level[k]);
        forall i | 0 <= i < |steps|
          ensures Matched(L.Elements(level[..k + 1]), i) <==> Matched(L.Elements(level[..k]), i) || i == first
        {
          MatchedStep(level, k, first, i);
        }
        if steps[first].status == Pending {
          batch := batch + {first};
        }
      }
      assert level[..|level|] == level;
    }

    lemma RecordOf(id: string)
      ensures HasRecord(id) <==> exists j :: 0 <= j < |steps| && Text(steps[j].stepId) == id
    {
    }

    lemma NothingMatched(level: seq<string>, i: nat)
      requires level == [] && i < |steps|
      ensures !Matched(L.Elements(level), i)
    {
    }

    lemma MatchedStep(level: seq<string>, k: nat, first: nat, i: nat)
      requires k < |level| && first < |steps| && i < |steps| && Text(steps[first].stepId) == level[k]
      requires forall j :: 0 <= j < first ==> Text(steps[j].stepId) != level[k]
      ensures Matched(L.Elements(level[..k + 1]), i) <==> Matched(L.Elements(level[..k]), i) || i == first
    {
      hide Text;
      assert level[..k + 1] == level[..k] + [level[k]];
    }

    /** The graph of the root nodes alone, which depend on nothing, and its levels: one, if there are any. */
    method RootGraph(planGraph: TG.TaskGraph<string, Output>)
      returns (g: TG.TaskGraph<string, Output>, levels: seq<seq<D.Id>>)
      requires forall id :: id in RootIds(plan) ==> id in planGraph.nodes
      ensures L.Layered(TG.DepsOf(g.nodes), levels) && |levels| <= 1
      ensures RootIds(plan) == if levels == [] then {} else L.Elements(levels[0])
      ensures levels != [] ==> |levels[0]| == |RootIds(plan)|
    {
      hide RootIds; hide D.Acyclic; hide L.Layered; hide L.Elements; hide D.Closed; hide TG.IsDictionary;
      var ids, list := RootIds(plan), [];
      ghost var done: set<string> := {};
      while ids != {}
        invariant ids + done == RootIds(plan)
        invariant forall id :: id in done <==> id in TG.Ids<string, Output>(list)
        invariant forall i :: 0 <= i < |list| ==> list[i].dependsOn == []
        decreases ids
      {
        var id :| id in ids;
        if id in planGraph.nodes {
          var node := new TG.TaskNode<string, Output>(id, planGraph.nodes[id].task, []);
          assert TG.Ids(list + [node]) == TG.Ids(list) + [id];
          list := list + [node];
        }
        ids, done := ids - {id}, done + {id};
      }
      var r;
      r, g := TG.TaskGraph<string, Output>.Build(list);
      EdgelessNodes(list, g.order, g.nodes);
      var found := g.TopologicalLevels();
      levels := found.value;
      assert TG.DepsOf(g.nodes).Keys == RootIds(plan);
      OneLevel(TG.DepsOf(g.nodes), levels);
    }

    static lemma EdgelessNodes(
      list: seq<TG.TaskNode<string, Output>>, order: seq<D.Id>, nodes: TG.NodeMap<string, Output>)
      requires TG.IsDictionary(list, order, nodes) && forall i :: 0 <= i < |list| ==> list[i].dependsOn == []
      ensures forall n :: n in nodes <==> n in TG.Ids(list)
      ensures forall n :: n in nodes ==> TG.DepsOf(nodes)[n] == []
      ensures D.Closed(TG.DepsOf(nodes)) && D.Acyclic(TG.DepsOf(nodes))
    {
      var deps := TG.DepsOf(nodes);
      forall n | n in deps ensures deps[n] == [] {
        var i :| TG.LastAt(list, n, i) && nodes[n] == list[i];
      }
      forall n | n in deps ensures !D.OnCycle(deps, n) {
        K.OnCycleIsDependency(deps, n);
      }
    }

    static lemma OneLevel(deps: D.Deps, levels: seq<seq<D.Id>>)
      requires L.Layered(deps, levels) && forall n :: n in deps ==> deps[n] == []
      ensures |levels| <= 1
      ensures deps.Keys == if levels == [] then {} else L.Elements(levels[0])
      ensures levels != [] ==> |levels[0]| == |deps.Keys|
    {
      L.EdgelessHasOneLevel(deps, levels);
      L.UptoAll(deps, levels);
      if levels != [] {
        assert L.Upto(levels, 1) == L.Upto(levels, 0) + L.Elements(levels[0]);
        K.DistinctCardinality(levels[0]);
      }
    }

    /**
      The parallel phase.  The roots form the only level of their graph, so all of them are
      awaited together; for every order of their slices each matching pending record ends as it
      would have ended alone, no other record changes, and there are no more chat calls than
      roots times the calls of one step.
    */
    method RunRoots(settings: Settings, planGraph: TG.TaskGraph<string, Output>)
      returns (ghost batch: set<nat>)
      requires Valid() && NoInputs()
      requires forall id :: id in RootIds(plan) ==> id in planGraph.nodes
      modifies trace, steps
      ensures Valid() && NoInputs() && Agents(steps) == old(Agents(steps))
      ensures forall i: nat ::
                i in batch <==> i < |steps| && Matched(RootIds(plan), i) && old(steps[i].status) == Pending
      ensures AllRun(Jobs(steps, settings), old(Cores(steps)), Cores(steps), batch)
      ensures |batch| <= |RootIds(plan)|
      ensures Asked(steps) <= old(Asked(steps)) + |RootIds(plan)| * settings.StepBudget()
      ensures old(trace.escalations) <= trace.escalations
    {
      hide *;
      var g, levels := RootGraph(planGraph);
      NoRootMatches();
      batch := {};
      if levels == [] {
        NothingRun(settings);
        return;
      }
      LevelHasRecords(levels[0]);
      var found := MatchingSteps(levels[0]);
      batch := found;
      RunBatch(settings, found);
      BatchBudget(|found|, |RootIds(plan)|, settings.StepBudget());
    }

    /** Runs pending steps together. */
    method RunBatch(settings: Settings, batch: set<nat>)
      requires Valid() && NoInputs()
      requires forall i :: i in batch ==> i < |steps| && steps[i].status == Pending
      modifies trace, steps
      ensures Valid() && NoInputs() && Agents(steps) == old(Agents(steps))
      ensures AllRun(Jobs(steps, settings), old(Cores(steps)), Cores(steps), batch)
      ensures Asked(steps) <= old(Asked(steps)) + |batch| * settings.StepBudget()
      ensures old(trace.escalations) <= trace.escalations
    {
      hide RunCourse; hide Settings.StepBudget; hide AskedOf; hide AllRun; hide DistinctSteps; hide Recorded;
      hide Consistent; hide NoInputs;
      ghost var before, inputs := Cores(steps), Inputs(steps);
      SameInputs(inputs);
      RunTogether(settings, batch);
      SameInputs(inputs);
      AllRunConsistent(Jobs(steps, settings), before, Cores(steps), batch);
      AllRunAsked(Jobs(steps, settings), before, Cores(steps), batch, settings);
    }

    lemma SameInputs(inputs: seq<Input>)
      requires Inputs(steps) == inputs
      ensures NoInputs() <==> forall i :: 0 <= i < |inputs| ==> inputs[i] == NoInput
    {
    }

    lemma NothingRun(settings: Settings)
      ensures AllRun(Jobs(steps, settings), Cores(steps), Cores(steps), {})
    {
      hide RunCourse;
    }

    lemma NoRootMatches()
      ensures RootIds(plan) == {} ==> forall i :: 0 <= i < |steps| ==> !Matched(RootIds(plan), i)
    {
    }

    lemma LevelHasRecords(level: seq<string>)
      requires Valid() && L.Elements(level) == RootIds(plan)
      ensures forall id :: id in level ==> HasRecord(id)
    {
      hide Text;
      forall id | id in level ensures HasRecord(id) {
        assert id in L.Elements(level);
        var j :| 0 <= j < |plan.steps| && plan.steps[j].dependsOn == [] && id == Text(plan.steps[j].stepId);
        assert Text(steps[j].stepId) == id;
      }
    }

    static lemma BatchBudget(started: nat, roots: nat, budget: nat)
      requires started <= roots
      ensures started * budget <= roots * budget
    {
    }

    // ----- the sequential phase -----

    /** The map from step ids to the outputs there are; a later step overwrites an earlier one. */
    method DepMap() returns (depMap: map<int, Output>)
      requires Valid()
      ensures forall id :: id in depMap <==> OutputFor(plan, Outputs(steps), id).Some?
      ensures forall id :: id in depMap ==> OutputFor(plan, Outputs(steps), id) == Some(depMap[id])
    {
      hide Consistent; hide DistinctSteps; hide LastWithId; hide OutputFor; hide Cores; hide Recorded;
      depMap := map[];
      ghost var outputs := Outputs(steps);
      forall id { NothingFound(outputs, id); }
      for j := 0 to |steps|
        invariant forall id :: (id in depMap <==> Found(outputs, j, id).Some?)
                               && (id in depMap ==> Found(outputs, j, id) == Some(depMap[id]))
      {
        OutputAt(j);
        ghost var before := depMap;
        if steps[j].output.Some? {
          depMap := depMap[steps[j].stepId := steps[j].output.value];
        }
        forall id
          ensures (id in depMap <==> Found(outputs, j + 1, id).Some?)
                  && (id in depMap ==> Found(outputs, j + 1, id) == Some(depMap[id]))
        {
          FoundStep(outputs, j, id);
          assert id in before <==> Found(outputs, j, id).Some?;
        }
      }
      forall id { FoundAll(outputs, id); }
    }

    /** The output that the first n steps contribute for an id. */
    ghost function Found(outputs: seq<Option<Output>>, n: nat, id: int): Option<Output>
      requires |outputs| == |plan.steps| && n <= |outputs|
    {
      LastWithIdInRange(plan.steps[..n], Known(outputs)[..n], id);
      var j := LastWithId(plan.steps[..n], Known(outputs)[..n], id);
      if j.Some? then outputs[j.value] else None
    }

    lemma NothingFound(outputs: seq<Option<Output>>, id: int)
      requires |outputs| == |plan.steps|
      ensures Found(outputs, 0, id) == None
    {
    }

    lemma FoundStep(outputs: seq<Option<Output>>, n: nat, id: int)
      requires |outputs| == |plan.steps| && n < |outputs|
      ensures Found(outputs, n + 1, id) ==
              if plan.steps[n].stepId == id && outputs[n].Some? then outputs[n] else Found(outputs, n, id)
    {
      assert plan.steps[..n + 1][..n] == plan.steps[..n] && Known(outputs)[..n + 1][..n] == Known(outputs)[..n];
    }

    lemma FoundAll(outputs: seq<Option<Output>>, id: int)
      requires |outputs| == |plan.steps|
      ensures Found(outputs, |outputs|, id) == OutputFor(plan, outputs, id)
    {
      assert plan.steps[..|outputs|] == plan.steps && Known(outputs)[..|outputs|] == Known(outputs);
    }

    lemma OutputAt(j: nat)
      requires j < |steps|
      ensures Outputs(steps)[j] == steps[j].output
    {
      assert Cores(steps)[j] == steps[j].Snapshot();
    }

    /** The input of step i: nothing without dependencies, one output alone, or a list of outputs. */
    method BuildInput(i: nat) returns (input: Input)
      requires Valid() && i < |steps|
      ensures input == InputFor(plan, Outputs(steps), i)
    {
      var deps := DepsById(plan, steps[i].stepId);
      if deps == [] {
        return NoInput;
      }
      var depMap := DepMap();
      var ordered: seq<Output> := [];
      for k := 0 to |deps|
        invariant ordered == Gather(plan, Outputs(steps), deps[..k])
      {
        assert deps[..k + 1][..k] == deps[..k];
        if deps[k] in depMap {
          ordered := ordered + [depMap[deps[k]]];
        }
      }
      assert deps[..|deps|] == deps;
      return Pack(ordered);
    }

    /** No step from i on has been given an input yet, and each still has its agent. */
    ghost predicate UntouchedFrom(i: nat, agents: seq<string>)
      requires |agents| == |steps|
      reads steps
    {
      forall j :: i <= j < |steps| ==> steps[j].input == NoInput && steps[j].agent == agents[j]
    }

    static lemma UpgradeIs(agent: string, upgrade: bool)
      ensures Upgraded(agent, upgrade) == if agent == "worker" && upgrade then "reasoner" else agent
    {
    }

    /** The step's input and agent, before it is executed. */
    method FeedStep(i: nat, step: StepRecord, upgrade: bool) returns (ghost e: Start)
      requires Valid() && i < |steps| && step == steps[i]
      modifies step`input, step`agent
      ensures e == Start(i, InputFor(plan, old(Outputs(steps)), i), old(Outputs(steps)))
      ensures Cores(steps) == old(Cores(steps))
      ensures Inputs(steps) == old(Inputs(steps))[i := e.input]
      ensures Agents(steps) == old(Agents(steps))[i := Upgraded(old(step.agent), upgrade)]
    {
      hide InputFor; hide Consistent; hide OutputsOf; hide Upgraded; hide Received;
      UpgradeIs(step.agent, upgrade);
      var input := BuildInput(i);
      e := Start(i, input, Outputs(steps));
      step.input := input;
      if step.agent == "worker" && upgrade {
        step.agent := "reasoner";
      }
    }

    /** One pass of the loop body that runs a step: its input, the agent upgrade, the execution. */
    method StartStep(i: nat, settings: Settings, upgrade: bool, ghost agents: seq<string>)
      returns (r: StepOutcome, ghost e: Start)
      requires Valid() && i < |steps| && steps[i].output == None
      requires |agents| == |steps| && UntouchedFrom(i, agents)
      modifies trace, steps[i]
      ensures Valid() && UntouchedFrom(i + 1, agents)
      ensures e == Start(i, InputFor(plan, old(Outputs(steps)), i), old(Outputs(steps)))
      ensures steps[i].input == e.input && steps[i].agent == Upgraded(old(steps[i].agent), upgrade)
      ensures steps[i].agent == if old(steps[i].agent) == "worker" && upgrade then "reasoner" else old(steps[i].agent)
      ensures (Cores(steps)[i], r) ==
              RunCourse(JobsWith(steps, settings, UpgradedAll(agents, upgrade))[i], old(Cores(steps)[i]))
      ensures Cores(steps) == old(Cores(steps))[i := Cores(steps)[i]]
      ensures r == Succeeded <==> steps[i].output.Some?
      ensures r == FailedStep ==> steps[i].status == Failed
      ensures old(trace.escalations) <= trace.escalations
    {
      hide RunCourse; hide Received; hide Outputs; hide Settings.ModelFor; hide InputFor; hide Upgraded;
      hide UntouchedFrom; hide DistinctSteps; hide Consistent; hide Cores; hide Inputs; hide Agents; hide JobsWith;
      hide UpgradedAll;
      UpgradeIs(steps[i].agent, upgrade);
      ghost var before := Cores(steps);
      AgentAt(i, agents);
      BeforeStart(i);
      e := FeedStep(i, steps[i], upgrade);
      ghost var inputs, agentsNow := Inputs(steps), Agents(steps);
      r := RunStep(i, settings);
      assert steps[i].input == inputs[i] && steps[i].agent == agentsNow[i];
      StillUntouched(i, agents, inputs, agentsNow);
      CourseKeeps(JobsWith(steps, settings, UpgradedAll(agents, upgrade))[i], before[i]);
      StillConsistent(i, before);
    }

    lemma BeforeStart(i: nat)
      requires Valid() && i < |steps| && steps[i].output == None
      ensures Cores(steps)[i].status != Complete && Cores(steps)[i].output == None
    {
      assert Cores(steps)[i] == steps[i].Snapshot();
    }

    /** One step changed, consistently: the task is still valid. */
    lemma StillConsistent(i: nat, before: seq<Core>)
      requires i < |steps| == |before| && Consistent(before)
      requires Cores(steps) == before[i := Cores(steps)[i]]
      requires Cores(steps)[i].status == Complete <==> Cores(steps)[i].output.Some?
      ensures Consistent(Cores(steps))
      ensures steps[i].output == Cores(steps)[i].output && steps[i].status == Cores(steps)[i].status
    {
      assert Cores(steps)[i] == steps[i].Snapshot();
    }

    lemma AgentAt(i: nat, agents: seq<string>)
      requires |agents| == |steps| && UntouchedFrom(i, agents)
      ensures forall j :: i <= j < |steps| ==> Inputs(steps)[j] == NoInput && Agents(steps)[j] == agents[j]
    {
    }

    lemma StillUntouched(i: nat, agents: seq<string>, inputs: seq<Input>, agentsNow: seq<string>)
      requires |agents| == |steps| && Inputs(steps) == inputs && Agents(steps) == agentsNow
      requires forall j :: i < j < |steps| ==> inputs[j] == NoInput && agentsNow[j] == agents[j]
      ensures UntouchedFrom(i + 1, agents)
    {
      forall j | i + 1 <= j < |steps| ensures steps[j].input == NoInput && steps[j].agent == agents[j] {
        assert steps[j].input == inputs[j] && steps[j].agent == agentsNow[j];
      }
    }

    /** What the sequential loop has done so far. */
    ghost predicate Followed(settings: Settings, log: seq<Start>, upTo: nat) {
      && |log| <= upTo && |log| <= settings.StepCap()
      && (forall k :: 0 <= k < |log| ==> StartRule(plan, log[k]) && log[k].index < upTo)
      && (forall k, l :: 0 <= k < l < |log| ==> log[k].index < log[l].index)
    }

    lemma FollowOn(settings: Settings, log: seq<Start>, i: nat, e: Start)
      requires Followed(settings, log, i) && i < settings.StepCap()
      requires StartRule(plan, e) && e.index == i
      ensures Followed(settings, log + [e], i + 1)
    {
      hide StartRule;
    }

    lemma FollowedLater(settings: Settings, log: seq<Start>, i: nat, k: nat)
      requires Followed(settings, log, i) && i <= k
      ensures Followed(settings, log, k)
    {
      hide StartRule;
    }

    /** Everything known between two passes, but for the outcomes so far. */
    ghost predicate Passing(
      settings: Settings, jobs: seq<Job>, start: seq<Core>, agents: seq<string>, n: nat, log: seq<Start>)
      requires |jobs| == |start| == |agents| == |steps| && n <= |steps|
      reads steps
    {
      && Cores(steps) == Passed(jobs, start, n) && UntouchedFrom(n, agents)
      && Followed(settings, log, n) && Covers(log, start, n)
    }

    lemma NothingPassed(settings: Settings, jobs: seq<Job>)
      requires NoInputs() && |jobs| == |steps|
      ensures Passing(settings, jobs, Cores(steps), Agents(steps), 0, [])
      ensures Unstopped(jobs, Cores(steps), 0)
    {
      hide RunCourse; hide StartRule; hide BlockIn;
      PassedNothing(jobs, Cores(steps));
      CoversNothing(Cores(steps));
    }

    /** A step that is already complete is passed over. */
    lemma PassOver(
      settings: Settings, jobs: seq<Job>, start: seq<Core>, agents: seq<string>, i: nat, log: seq<Start>)
      requires |jobs| == |start| == |agents| == |steps| && i < |steps|
      requires Passing(settings, jobs, start, agents, i, log) && start[i].status == Complete
      ensures Passing(settings, jobs, start, agents, i + 1, log)
    {
      hide RunCourse; hide StartRule; hide Covers; hide Passed; hide Cores;
      PassedStep(jobs, start, i);
      CoversStep(log, start, i, Start(i, NoInput, []));
    }

    lemma PassStarted(
      settings: Settings, jobs: seq<Job>, start: seq<Core>, agents: seq<string>, i: nat, log: seq<Start>, e: Start)
      requires |jobs| == |start| == |agents| == |steps| && i < |steps| && i < settings.StepCap()
      requires Followed(settings, log, i) && Covers(log, start, i)
      requires StartRule(plan, e) && e.index == i && start[i].status != Complete
      requires UntouchedFrom(i + 1, agents)
      requires Cores(steps) == Passed(jobs, start, i)[i := RunCourse(jobs[i], start[i]).0]
      ensures Passing(settings, jobs, start, agents, i + 1, log + [e])
    {
      hide RunCourse; hide StartRule; hide Covers; hide Passed; hide Cores;
      PassedStep(jobs, start, i);
      CoversStep(log, start, i, e);
      FollowOn(settings, log, i, e);
    }

    lemma StartFollowsRule(
      settings: Settings, jobs: seq<Job>, start: seq<Core>, agents: seq<string>, i: nat, log: seq<Start>)
      requires |jobs| == |start| == |agents| == |steps| == |plan.steps| && i < |steps| && Consistent(start)
      requires Passing(settings, jobs, start, agents, i, log) && start[i].status != Complete
      requires Unstopped(jobs, start, i)
      ensures StartRule(plan, Start(i, InputFor(plan, Outputs(steps), i), Outputs(steps)))
      ensures steps[i].output == None && steps[i].Snapshot() == start[i]
    {
      hide RunCourse; hide InputFor; hide Blocks; hide Stops;
      PassedStep(jobs, start, i);
      assert Cores(steps)[i] == start[i];
      if plan.abortOnFailure {
        EarlierAreComplete(jobs, start, i);
      }
    }

    /** Decides, after a failed step, whether the loop stops. */
    method AfterFailure() returns (stop: bool)
      requires status == RunningSteps
      modifies this`status
      ensures stop <==> Block in trace.escalations || plan.abortOnFailure
      ensures status == if Block in trace.escalations then Blocked
                        else if plan.abortOnFailure then FailedTask else RunningSteps
    {
      if Block in trace.escalations {
        status := Blocked;
        return true;
      }
      if plan.abortOnFailure {
        status := FailedTask;
        return true;
      }
      return false;
    }

    /** One pass of the sequential loop, within the cap. */
    method SequentialPass(
      i: nat, settings: Settings, upgrade: bool,
      ghost jobs: seq<Job>, ghost start: seq<Core>, ghost agents: seq<string>, ghost before: seq<Start>)
      returns (pass: Pass, ghost log: seq<Start>)
      requires Valid() && |start| == |agents| == |steps| && i < |steps| && i < settings.StepCap()
      requires jobs == JobsWith(steps, settings, UpgradedAll(agents, upgrade)) && Consistent(start)
      requires status == RunningSteps && Passing(settings, jobs, start, agents, i, before)
      requires Unstopped(jobs, start, i)
      modifies this`status, trace, steps
      ensures Valid() && Passing(settings, jobs, start, agents, i + 1, log)
      ensures PassOf(jobs, start, i, pass)
      ensures old(trace.escalations) <= trace.escalations
    {
      hide *;
      log := before;
      SameLength();
      CompleteAt(settings, jobs, start, agents, i, before);
      if steps[i].status == Complete {
        PassOver(settings, jobs, start, agents, i, log);
        PassTaken(jobs, start, i, GoOn);
        return GoOn, log;
      }
      StartFollowsRule(settings, jobs, start, agents, i, log);
      PassingParts(settings, jobs, start, agents, i, log);
      var r;
      ghost var e;
      r, e := StartStep(i, settings, upgrade, agents);
      PassStarted(settings, jobs, start, agents, i, log, e);
      log := log + [e];
      BlockedNow(settings, jobs, start, agents, i, log);
      pass := GoOn;
      if r == Crashed {
        pass := Raise;
      } else if r == FailedStep {
        var stop := AfterFailure();
        pass := if stop then Stop else GoOn;
      }
      PassTaken(jobs, start, i, pass);
    }

    /** What the pass of step i led to. */
    ghost predicate PassOf(jobs: seq<Job>, start: seq<Core>, i: nat, pass: Pass)
      requires |jobs| == |start| && i < |start|
      reads this`status
    {
      PassIs(plan.abortOnFailure, Outcomes(jobs, start)[i], Blocks(jobs, start)[i], pass, status)
    }

    lemma PassTaken(jobs: seq<Job>, start: seq<Core>, i: nat, pass: Pass)
      requires |jobs| == |start| && i < |start|
      requires var outcome, blocked := Outcomes(jobs, start)[i], Blocks(jobs, start)[i];
               && pass == (if outcome == Crashed then Raise
                           else if outcome == FailedStep && (plan.abortOnFailure || blocked) then Stop else GoOn)
               && status == if pass != Stop then RunningSteps else if blocked then Blocked else FailedTask
      ensures PassOf(jobs, start, i, pass)
    {
      hide Outcomes; hide Blocks;
    }

    /** After step i the test for a BLOCK says whether any step has received one by then. */
    lemma BlockedNow(
      settings: Settings, jobs: seq<Job>, start: seq<Core>, agents: seq<string>, i: nat, log: seq<Start>)
      requires Valid() && |jobs| == |start| == |agents| == |steps| && i < |steps|
      requires Passing(settings, jobs, start, agents, i + 1, log)
      ensures Block in trace.escalations <==> Blocks(jobs, start)[i]
    {
      hide Passed; hide Cores; hide Followed; hide Covers; hide BlockIn;
      BlockSeen();
    }

    lemma SameLength()
      requires Valid()
      ensures |steps| == |plan.steps| && Consistent(Cores(steps))
    {
    }

    lemma OutputCount()
      ensures |Outputs(steps)| == |steps|
    {
    }

    lemma CompleteAt(
      settings: Settings, jobs: seq<Job>, start: seq<Core>, agents: seq<string>, i: nat, log: seq<Start>)
      requires |jobs| == |start| == |agents| == |steps| && i < |steps|
      requires Passing(settings, jobs, start, agents, i, log)
      ensures steps[i].status == start[i].status && Cores(steps)[i] == start[i]
      ensures Outcomes(jobs, start)[i] ==
              if start[i].status == Complete then Succeeded else RunCourse(jobs[i], start[i]).1
    {
      hide RunCourse; hide StartRule;
      PassedStep(jobs, start, i);
      assert steps[i].Snapshot() == Cores(steps)[i];
    }

    lemma PassingParts(
      settings: Settings, jobs: seq<Job>, start: seq<Core>, agents: seq<string>, i: nat, log: seq<Start>)
      requires |jobs| == |start| == |agents| == |steps| && i <= |steps|
      requires Passing(settings, jobs, start, agents, i, log)
      ensures Cores(steps) == Passed(jobs, start, i) && UntouchedFrom(i, agents)
      ensures Followed(settings, log, i) && Covers(log, start, i)
    {
    }

    /**
      The sequential loop; `crashed` if an exception escaped.  After it the first `upTo` steps
      have run in order, each one that was not complete exactly as its streams say, and the
      others are as they were.
    */
    method RunSequential(settings: Settings, upgrade: bool)
      returns (crashed: bool, ghost log: seq<Start>, ghost upTo: nat)
      requires Valid() && NoInputs() && status == RunningSteps
      modifies this`status, trace, steps
      ensures Valid() && upTo <= Least(|steps|, settings.StepCap())
      ensures var start := old(Cores(steps));
              var jobs := JobsWith(steps, settings, UpgradedAll(old(Agents(steps)), upgrade));
              && Cores(steps) == Passed(jobs, start, upTo)
              && Followed(settings, log, upTo) && Covers(log, start, upTo)
              && PhaseEnd(upTo, crashed, status) ==
                 EndOf(settings, plan.abortOnFailure, Outcomes(jobs, start), Blocks(jobs, start))
      ensures Asked(steps) <= old(Asked(steps)) + |log| * settings.StepBudget()
    {
      crashed, log, upTo := SequentialLoop(settings, upgrade);
      hide RunCourse; hide StartRule; hide Settings.StepBudget; hide AskedOf; hide Passed; hide EndOf; hide Followed;
      hide Covers; hide Least; hide Recorded;
      ghost var jobs := JobsWith(steps, settings, UpgradedAll(old(Agents(steps)), upgrade));
      LeastIs(|steps|, settings.StepCap());
      LogCount(log, old(Cores(steps)), upTo);
      PassedAsked(jobs, old(Cores(steps)), upTo, settings);
    }

    /** What the sequential loop has done when it ends. */
    ghost predicate Ended(
      settings: Settings, jobs: seq<Job>, start: seq<Core>, log: seq<Start>, upTo: nat, crashed: bool)
      requires |jobs| == |start| == |steps|
      reads this`status, steps
    {
      && upTo <= Least(|steps|, settings.StepCap()) && Cores(steps) == Passed(jobs, start, upTo)
      && Followed(settings, log, upTo) && Covers(log, start, upTo)
      && PhaseEnd(upTo, crashed, status) ==
         EndOf(settings, plan.abortOnFailure, Outcomes(jobs, start), Blocks(jobs, start))
    }

    /** The phase would not have stopped at any of the first n steps. */
    ghost predicate Unstopped(jobs: seq<Job>, start: seq<Core>, n: nat)
      requires |jobs| == |start|
    {
      NoStop(plan.abortOnFailure, Outcomes(jobs, start), Blocks(jobs, start), n)
    }

    lemma EndedAt(
      settings: Settings, jobs: seq<Job>, start: seq<Core>, agents: seq<string>, log: seq<Start>, i: nat)
      requires |jobs| == |start| == |agents| == |steps| && i <= |steps|
      requires Passing(settings, jobs, start, agents, i, log) && Unstopped(jobs, start, i)
      requires if i < |steps| then i == settings.StepCap() && status == Aborted
               else i <= settings.StepCap() && status == RunningSteps
      ensures Ended(settings, jobs, start, log, i, false)
    {
      hide EndOf; hide Least; hide Followed; hide Covers; hide Passed; hide Outcomes; hide Blocks; hide NoStop;
      hide Settings.StepCap;
      if i < |steps| {
        EndsCapped(settings, plan.abortOnFailure, Outcomes(jobs, start), Blocks(jobs, start), i);
      } else {
        EndsThrough(settings, plan.abortOnFailure, Outcomes(jobs, start), Blocks(jobs, start));
      }
    }

    lemma EndedAfter(
      settings: Settings, jobs: seq<Job>, start: seq<Core>, agents: seq<string>, log: seq<Start>, i: nat, pass: Pass)
      requires |jobs| == |start| == |agents| == |steps| && i < |steps| && i < settings.StepCap()
      requires Passing(settings, jobs, start, agents, i + 1, log) && Unstopped(jobs, start, i)
      requires PassOf(jobs, start, i, pass)
      ensures pass == GoOn ==> Unstopped(jobs, start, i + 1) && status == RunningSteps
      ensures pass != GoOn ==> Ended(settings, jobs, start, log, i + 1, pass == Raise)
    {
      hide EndOf; hide Least; hide Followed; hide Covers; hide Passed; hide Outcomes; hide Blocks; hide NoStop;
      hide Settings.StepCap; hide PassIs;
      EndsAfter(settings, plan.abortOnFailure, Outcomes(jobs, start), Blocks(jobs, start), i, pass, status);
    }

    method SequentialLoop(settings: Settings, upgrade: bool)
      returns (crashed: bool, ghost log: seq<Start>, ghost upTo: nat)
      requires Valid() && NoInputs() && status == RunningSteps
      modifies this`status, trace, steps
      ensures Valid()
      ensures Ended(settings, JobsWith(steps, settings, UpgradedAll(old(Agents(steps)), upgrade)),
                    old(Cores(steps)), log, upTo, crashed)
    {
      hide *;
      ghost var start, agents := Cores(steps), Agents(steps);
      ghost var jobs := JobsWith(steps, settings, UpgradedAll(agents, upgrade));
      log := [];
      SameLength();
      NothingPassed(settings, jobs);
      for i := 0 to |steps|
        invariant Valid() && status == RunningSteps && i <= settings.StepCap()
        invariant Passing(settings, jobs, start, agents, i, log) && Unstopped(jobs, start, i)
      {
        if i + 1 > settings.StepCap() {
          status := Aborted;
          EndedAt(settings, jobs, start, agents, log, i);
          return false, log, i;
        }
        var pass;
        pass, log := SequentialPass(i, settings, upgrade, jobs, start, agents, log);
        EndedAfter(settings, jobs, start, agents, log, i, pass);
        if pass != GoOn {
          return pass == Raise, log, i + 1;
        }
      }
      EndedAt(settings, jobs, start, agents, log, |steps|);
      return false, log, |steps|;
    }
  }
}
