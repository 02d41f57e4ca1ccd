/**
  From the plan to the final answer: what a whole run ends with, as a function of what the
  model will reply, and what it costs.
*/
module WholeRuns {
  import opened Wrappers
  import opened Conversations
  import opened StepExecution
  import opened Plans
  import opened Courses
  import opened TaskRuns
  import TG = TaskGraphs

  /** What the environment decides besides the step streams. */
  datatype World = World(
    plan: Option<Plan>, upgrade: bool, allowParallel: bool,
    finalReply: Reply, hasFallbackModel: bool, fallbackReply: Reply, isFinal: string -> bool)
  {
    /** The calls of the final synthesis: a second one if the first raises and there is another model. */
    function SynthesisCalls(): nat {
      if !finalReply.Said? && hasFallbackModel then 2 else 1
    }

    /** The reply holds a text that is a final answer. */
    predicate Answers(r: Reply) {
      r.Said? && r.text != "" && isFinal(r.text)
    }
  }

  datatype Ending = Answered | Errored

  /** The final answer: the synthesis, or the outputs of the completed steps as they are. */
  datatype FinalAnswer = Synthesised(text: string) | Assembled(outputs: map<int, Output>)

  /** The roots are run together before anything else. */
  ghost predicate GoesParallel(world: World, plan: Plan) {
    |RootIds(plan)| > 1 && world.allowParallel && Acceptable(plan)
  }

  /** The steps when the sequential phase begins, as their streams say. */
  ghost function AfterRoots(world: World, plan: Plan, settings: Settings, streams: Streams): (r: seq<Core>)
    ensures |r| == |plan.steps|
    ensures forall i :: 0 <= i < |r| ==>
              r[i] == if GoesParallel(world, plan) && IsRoot(plan, i)
                      then RunCourse(PlanJobs(plan, settings, streams, AgentsOf(plan))[i], FRESH).0 else FRESH
  {
    seq(|plan.steps|, i requires 0 <= i < |plan.steps| =>
      if GoesParallel(world, plan) && IsRoot(plan, i)
      then RunCourse(PlanJobs(plan, settings, streams, AgentsOf(plan))[i], FRESH).0 else FRESH)
  }

  ghost function SequentialJobs(world: World, plan: Plan, settings: Settings, streams: Streams): (jobs: seq<Job>)
    ensures |jobs| == |plan.steps|
  {
    PlanJobs(plan, settings, streams, UpgradedAll(AgentsOf(plan), world.upgrade))
  }

  /** The steps when the sequential phase has gone through the first n. */
  ghost function FinalCores(world: World, plan: Plan, settings: Settings, streams: Streams, n: nat): (r: seq<Core>)
    ensures |r| == |plan.steps|
  {
    Passed(SequentialJobs(world, plan, settings, streams), AfterRoots(world, plan, settings, streams), n)
  }

  /** How each step counts in the sequential phase, as its streams say. */
  ghost function RunOutcomes(world: World, plan: Plan, settings: Settings, streams: Streams): (r: seq<StepOutcome>)
    ensures |r| == |plan.steps|
  {
    Outcomes(SequentialJobs(world, plan, settings, streams), AfterRoots(world, plan, settings, streams))
  }

  /** Whether some step has received a BLOCK by the time the sequential phase has passed each of them. */
  ghost function RunBlocks(world: World, plan: Plan, settings: Settings, streams: Streams): (r: seq<bool>)
    ensures |r| == |plan.steps|
  {
    Blocks(SequentialJobs(world, plan, settings, streams), AfterRoots(world, plan, settings, streams))
  }

  /** How the sequential phase ends, as the streams say. */
  ghost function RunEnd(world: World, plan: Plan, settings: Settings, streams: Streams): (end: PhaseEnd) {
    EndOf(settings, plan.abortOnFailure, RunOutcomes(world, plan, settings, streams),
          RunBlocks(world, plan, settings, streams))
  }

  /** The chat calls of a whole run, as the streams say. */
  ghost function RunCalls(world: World, plan: Plan, settings: Settings, streams: Streams): nat {
    var end := RunEnd(world, plan, settings, streams);
    2 + AskedOf(FinalCores(world, plan, settings, streams, end.upTo))
    + if end.crashed then 0 else world.SynthesisCalls()
  }

  ghost function ParallelRoots(world: World, plan: Plan): nat {
    if GoesParallel(world, plan) then |RootIds(plan)| else 0
  }

  /** Whatever the streams are, the calls are bounded by the plan and the caps alone. */
  ghost function RunBudget(world: World, plan: Plan, settings: Settings): int {
    4 + (ParallelRoots(world, plan) + Least(|plan.steps|, settings.StepCap())) * settings.StepBudget()
  }

  /** The outputs of the completed steps, by id, when the sequential phase has ended. */
  ghost function RunOutputs(world: World, plan: Plan, settings: Settings, streams: Streams): map<int, Output> {
    OutputsById(plan, OutputsOf(
      FinalCores(world, plan, settings, streams, RunEnd(world, plan, settings, streams).upTo)))
  }

  /** Of steps that share an id the last completed one counts. */
  ghost function OutputsById(plan: Plan, outputs: seq<Option<Output>>): map<int, Output>
    requires |outputs| == |plan.steps|
  {
    map i | 0 <= i < |plan.steps| && OutputFor(plan, outputs, plan.steps[i].stepId).Some? ::
      plan.steps[i].stepId := OutputFor(plan, outputs, plan.steps[i].stepId).value
  }

  /** The answer of a run: a final text of the first call, else of the second if there is one, else the outputs. */
  ghost function RunAnswer(world: World, plan: Plan, settings: Settings, streams: Streams): FinalAnswer {
    if world.Answers(world.finalReply) then Synthesised(world.finalReply.text)
    else if !world.finalReply.Said? && world.hasFallbackModel && world.Answers(world.fallbackReply)
    then Synthesised(world.fallbackReply.text)
    else Assembled(RunOutputs(world, plan, settings, streams))
  }

  ghost predicate AllComplete(steps: seq<StepRecord>)
    reads steps
  {
    forall i :: 0 <= i < |steps| ==> steps[i].status == Complete
  }

  /** Planning is done: the parallel phase, if there is one. */
  method RunParallel(t: TaskRun, world: World, settings: Settings, ghost streams: Streams)
    requires t.Valid() && t.NoInputs() && Cores(t.steps) == AllFresh(|t.plan.steps|)
    requires Agents(t.steps) == AgentsOf(t.plan)
    requires Jobs(t.steps, settings) == PlanJobs(t.plan, settings, streams, AgentsOf(t.plan))
    modifies t.trace, t.steps
    ensures t.Valid() && t.NoInputs() && Agents(t.steps) == AgentsOf(t.plan)
    ensures Cores(t.steps) == AfterRoots(world, t.plan, settings, streams)
    ensures Asked(t.steps) <= ParallelRoots(world, t.plan) * settings.StepBudget()
  {
    hide *;
    FreshFacts(t);
    ParallelIs(world, t.plan);
    if |RootIds(t.plan)| > 1 && world.allowParallel {
      var graph, _ := BuildGraphFromPlan(t.plan);
      if graph.Ok? {
        RootsInGraph(t.plan, graph.value);
        RunRootsOf(t, world, settings, streams, graph.value);
        return;
      }
    }
    NoRoots(world, t.plan, settings, streams);
  }

  method RunRootsOf(
    t: TaskRun, ghost world: World, settings: Settings, ghost streams: Streams, graph: TG.TaskGraph<string, Output>)
    requires t.Valid() && t.NoInputs() && Cores(t.steps) == AllFresh(|t.plan.steps|)
    requires Agents(t.steps) == AgentsOf(t.plan)
    requires Jobs(t.steps, settings) == PlanJobs(t.plan, settings, streams, AgentsOf(t.plan))
    requires GoesParallel(world, t.plan) && forall id :: id in RootIds(t.plan) ==> id in graph.nodes
    modifies t.trace, t.steps
    ensures t.Valid() && t.NoInputs() && Agents(t.steps) == AgentsOf(t.plan)
    ensures Cores(t.steps) == AfterRoots(world, t.plan, settings, streams)
    ensures Asked(t.steps) <= ParallelRoots(world, t.plan) * settings.StepBudget()
  {
    hide *;
    FreshFacts(t);
    ParallelIs(world, t.plan);
    JobsNow(t, settings);
    ghost var batch := t.RunRoots(settings, graph);
    JobsNow(t, settings);
    RootsAre(t, world, settings, streams, batch);
  }

  lemma ParallelIs(world: World, plan: Plan)
    ensures GoesParallel(world, plan) <==> |RootIds(plan)| > 1 && world.allowParallel && Acceptable(plan)
    ensures ParallelRoots(world, plan) == if GoesParallel(world, plan) then |RootIds(plan)| else 0
  {
    hide RootIds; hide Acceptable;
  }

  lemma FreshFacts(t: TaskRun)
    requires |t.steps| == |t.plan.steps| && Cores(t.steps) == AllFresh(|t.plan.steps|)
    ensures Asked(t.steps) == 0
    ensures forall i :: 0 <= i < |t.steps| ==> t.steps[i].status == Pending
  {
    AllFreshAsked(|t.plan.steps|);
    forall i | 0 <= i < |t.steps| ensures t.steps[i].status == Pending {
      assert t.steps[i].Snapshot() == Cores(t.steps)[i] == FRESH;
    }
  }

  lemma NoRoots(world: World, plan: Plan, settings: Settings, streams: Streams)
    requires !GoesParallel(world, plan)
    ensures AfterRoots(world, plan, settings, streams) == AllFresh(|plan.steps|)
  {
    hide RunCourse; hide GoesParallel;
  }

  lemma RootsAre(t: TaskRun, world: World, settings: Settings, streams: Streams, batch: set<nat>)
    requires GoesParallel(world, t.plan) && t.Valid()
    requires forall i: nat :: i in batch <==> i < |t.steps| && t.Matched(RootIds(t.plan), i)
    requires AllRun(PlanJobs(t.plan, settings, streams, AgentsOf(t.plan)), AllFresh(|t.plan.steps|),
                    Cores(t.steps), batch)
    ensures Cores(t.steps) == AfterRoots(world, t.plan, settings, streams)
  {
    hide RunCourse; hide GoesParallel; hide RootIds; hide Text; hide Consistent;
    forall i: nat | i < |t.steps| ensures i in batch <==> IsRoot(t.plan, i) {
    }
  }

  /**
    One run: complexity, planning, the optional parallel phase, the sequential phase, the final
    synthesis.  `calls` counts every chat call; `log` is what the sequential phase started,
    `upTo` how many steps it came to, and `stopped` the status in which it ended.
  */
  method RunTask(world: World, settings: Settings, streams: Streams)
    returns (ending: Ending, task: Option<TaskRun>, answer: Option<FinalAnswer>,
             ghost calls: nat, ghost log: seq<Start>, ghost upTo: nat, ghost stopped: TaskStatus)
    ensures world.plan.None? ==> ending == Errored && calls == 2 && task == None
    ensures world.plan.Some? ==>
              task.Some? && fresh(task.value) && task.value.plan == world.plan.value && task.value.Valid()
              && |task.value.steps| == |world.plan.value.steps| && task.value.Follows(streams)
    ensures world.plan.Some? ==> calls <= RunBudget(world, world.plan.value, settings)
    ensures world.plan.Some? ==> calls == RunCalls(world, world.plan.value, settings, streams)
    ensures world.plan.Some? ==>
              calls == 2 + Asked(task.value.steps) + if ending == Answered then world.SynthesisCalls() else 0
    ensures world.plan.Some? ==> task.value.Followed(settings, log, |world.plan.value.steps|)
    ensures world.plan.Some? && Ordered(world.plan.value) && world.plan.value.abortOnFailure ==>
              forall k :: 0 <= k < |log| ==> SafeStart(world.plan.value, log[k])
    ensures ending == Answered ==> task.Some? && task.value.status == Finished
    ensures ending == Errored && task.Some? ==> task.value.status == FailedTask
    ensures world.plan.Some? ==>
              RanAsStreamed(world, settings, streams, task.value, log, PhaseEnd(upTo, ending == Errored, stopped))
              && EndsAsStreamed(world, settings, streams, task.value, PhaseEnd(upTo, ending == Errored, stopped))
    ensures ending == Answered ==> answer == Some(RunAnswer(world, world.plan.value, settings, streams))
  {
    hide *;
    calls, log, task, answer, upTo, stopped := 2, [], None, None, 0, RunningSteps;
    if world.plan.None? {
      return Errored, None, None, calls, log, upTo, stopped;
    }
    var t, crashed;
    t, crashed, log, upTo, stopped := RunPhases(world.plan.value, world, settings, streams);
    task, calls := Some(t), calls + Asked(t.steps);
    CallsAre(world, settings, streams, t, log, PhaseEnd(upTo, crashed, stopped));
    if crashed {
      t.status := FailedTask;
      return Errored, task, None, calls, log, upTo, stopped;
    }
    var final;
    ghost var asked;
    final, asked := Synthesise(t, world);
    calls := calls + asked;
    AnswerIs(world, settings, streams, t, log, PhaseEnd(upTo, crashed, stopped), final);
    return Answered, task, Some(final), calls, log, upTo, stopped;
  }

  /**
    The last phase, whatever the status is by then: the first model is asked, another one only
    if that call raises, and without a final text the outputs are the answer.
  */
  method Synthesise(t: TaskRun, world: World) returns (answer: FinalAnswer, ghost asked: nat)
    requires t.Valid()
    modifies t`status
    ensures t.status == Finished && asked == world.SynthesisCalls() <= 2
    ensures |Outputs(t.steps)| == |t.plan.steps|
    ensures var assembled := Assembled(OutputsById(t.plan, Outputs(t.steps)));
            match world.finalReply
            case Said(text, _) =>
              asked == 1 && answer == if text != "" && world.isFinal(text) then Synthesised(text) else assembled
            case _ =>
              if world.hasFallbackModel
              then asked == 2
                   && match world.fallbackReply
                      case Said(text, _) =>
                        answer == if text != "" && world.isFinal(text) then Synthesised(text) else assembled
                      case _ => answer == assembled
              else asked == 1 && answer == assembled
  {
    hide *;
    t.status := Validating;
    t.SameLength();
    t.OutputCount();
    CallsOfSynthesis(world);
    var outputs := t.DepMap();
    AssemblesIs(t, outputs);
    var rawFinal := "";
    asked := 1;
    match world.finalReply {
      case Said(text, _) =>
        rawFinal := text;
      case _ =>
        if world.hasFallbackModel {
          asked := 2;
          if world.fallbackReply.Said? {
            rawFinal := world.fallbackReply.text;
          }
        }
    }
    answer := if rawFinal != "" && world.isFinal(rawFinal) then Synthesised(rawFinal) else Assembled(outputs);
    t.status := Finished;
  }

  lemma CallsOfSynthesis(world: World)
    ensures world.SynthesisCalls() == if world.finalReply.Said? || !world.hasFallbackModel then 1 else 2
  {
  }

  /** The parallel and the sequential phase. */
  method RunPhases(plan: Plan, world: World, settings: Settings, streams: Streams)
    returns (t: TaskRun, crashed: bool, ghost log: seq<Start>, ghost upTo: nat, ghost stopped: TaskStatus)
    ensures fresh(t) && fresh(t.steps) && fresh(t.trace) && t.plan == plan && t.Valid()
    ensures |t.steps| == |plan.steps| == |Outputs(t.steps)| && t.Follows(streams)
    ensures 4 + Asked(t.steps) <= RunBudget(world, plan, settings) && t.Followed(settings, log, |plan.steps|)
    ensures Ordered(plan) && plan.abortOnFailure ==> forall k :: 0 <= k < |log| ==> SafeStart(plan, log[k])
    ensures RanAsStreamed(world, settings, streams, t, log, PhaseEnd(upTo, crashed, stopped))
    ensures EndsAsStreamed(world, settings, streams, t, PhaseEnd(upTo, crashed, stopped))
  {
    hide *;
    t := new TaskRun(plan, streams);
    t.SameLength();
    JobsAre(t, settings, streams, AgentsOf(plan));
    JobsAre(t, settings, streams, UpgradedAll(AgentsOf(plan), world.upgrade));
    JobsNow(t, settings);
    RunParallel(t, world, settings, streams);
    t.SameLength();
    crashed, log, upTo := t.RunSequential(settings, world.upgrade);
    stopped := t.status;
    ghost var start := AfterRoots(world, plan, settings, streams);
    ghost var jobs := SequentialJobs(world, plan, settings, streams);
    SequentialJobsAre(world, plan, settings, streams);
    ghost var end := PhaseEnd(upTo, crashed, stopped);
    RanIs(world, settings, streams, t, log, end);
    LeastIs(|plan.steps|, settings.StepCap());
    LogWithin(log, start, upTo, Least(|plan.steps|, settings.StepCap()));
    BudgetAdds(world, plan, settings, |log|);
    t.FollowedLater(settings, log, upTo, |plan.steps|);
    AllSafe(t, settings, log, |plan.steps|);
    CompleteWhen(world, settings, streams, t, log, end);
    t.OutputCount();
  }

  /** The steps, the log and the way the sequential phase ended are what the streams say. */
  ghost predicate RanAsStreamed(
    world: World, settings: Settings, streams: Streams, t: TaskRun, log: seq<Start>, end: PhaseEnd)
    reads t.steps
  {
    && end == RunEnd(world, t.plan, settings, streams)
    && end.upTo <= Least(|t.plan.steps|, settings.StepCap())
    && Covers(log, AfterRoots(world, t.plan, settings, streams), end.upTo)
    && Cores(t.steps) == FinalCores(world, t.plan, settings, streams, end.upTo)
  }

  lemma RanIs(world: World, settings: Settings, streams: Streams, t: TaskRun, log: seq<Start>, end: PhaseEnd)
    requires && end == RunEnd(world, t.plan, settings, streams)
             && end.upTo <= Least(|t.plan.steps|, settings.StepCap())
             && Covers(log, AfterRoots(world, t.plan, settings, streams), end.upTo)
             && Cores(t.steps) == FinalCores(world, t.plan, settings, streams, end.upTo)
    ensures RanAsStreamed(world, settings, streams, t, log, end)
  {
    hide AfterRoots; hide Least; hide Covers; hide Cores; hide FinalCores; hide RunEnd;
  }

  lemma CallsAre(world: World, settings: Settings, streams: Streams, t: TaskRun, log: seq<Start>, end: PhaseEnd)
    requires RanAsStreamed(world, settings, streams, t, log, end)
    ensures RunCalls(world, t.plan, settings, streams) ==
            2 + Asked(t.steps) + if end.crashed then 0 else world.SynthesisCalls()
  {
    hide AfterRoots; hide Least; hide Covers; hide Cores; hide FinalCores; hide RunEnd; hide AskedOf;
  }

  /**
    Without a fallback the first step whose streams let it fail or raise decides how the phase
    ends.  For every plan, all steps are complete exactly if each step that the cap lets the
    phase reach succeeds and the others were completed by the parallel phase.
  */
  ghost predicate EndsAsStreamed(
    world: World, settings: Settings, streams: Streams, t: TaskRun, end: PhaseEnd)
    reads t.steps
  {
    var outcomes, start := RunOutcomes(world, t.plan, settings, streams), AfterRoots(world, t.plan, settings, streams);
    var reached := Least(|start|, settings.StepCap());
    && (t.plan.abortOnFailure ==>
          Decided(settings, outcomes, RunBlocks(world, t.plan, settings, streams), end))
    && (AllComplete(t.steps) <==>
        FirstTrouble(outcomes) >= reached && forall i :: reached <= i < |start| ==> start[i].status == Complete)
  }

  lemma AssemblesIs(t: TaskRun, outputs: map<int, Output>)
    requires |Outputs(t.steps)| == |t.plan.steps|
    requires forall id :: id in outputs <==> OutputFor(t.plan, Outputs(t.steps), id).Some?
    requires forall id :: id in outputs ==> OutputFor(t.plan, Outputs(t.steps), id) == Some(outputs[id])
    ensures outputs == OutputsById(t.plan, Outputs(t.steps))
  {
    hide OutputFor; hide Outputs; hide OutputsById;
    var all := OutputsById(t.plan, Outputs(t.steps));
    forall id ensures (id in outputs <==> id in all) && (id in outputs ==> outputs[id] == all[id]) {
      OutputsByIdAt(t.plan, Outputs(t.steps), id);
    }
  }

  lemma OutputsByIdAt(plan: Plan, outputs: seq<Option<Output>>, id: int)
    requires |outputs| == |plan.steps|
    ensures var all := OutputsById(plan, outputs);
            && (id in all <==> OutputFor(plan, outputs, id).Some?)
            && (id in all ==> OutputFor(plan, outputs, id) == Some(all[id]))
  {
    LastWithIdInRange(plan.steps, Known(outputs), id);
    hide LastWithId;
    if OutputFor(plan, outputs, id).Some? {
      var j := LastWithId(plan.steps, Known(outputs), id).value;
      assert 0 <= j < |plan.steps| && plan.steps[j].stepId == id;
      hide OutputFor;
      assert OutputFor(plan, outputs, plan.steps[j].stepId).Some?;
      assert id in OutputsById(plan, outputs);
    }
  }

  lemma AnswerIs(
    world: World, settings: Settings, streams: Streams, t: TaskRun, log: seq<Start>, end: PhaseEnd,
    answer: FinalAnswer)
    requires RanAsStreamed(world, settings, streams, t, log, end) && |Outputs(t.steps)| == |t.plan.steps|
    requires var assembled := Assembled(OutputsById(t.plan, Outputs(t.steps)));
             match world.finalReply
             case Said(text, _) =>
               answer == if text != "" && world.isFinal(text) then Synthesised(text) else assembled
             case _ =>
               if world.hasFallbackModel
               then match world.fallbackReply
                    case Said(text, _) =>
                      answer == if text != "" && world.isFinal(text) then Synthesised(text) else assembled
                    case _ => answer == assembled
               else answer == assembled
    ensures answer == RunAnswer(world, t.plan, settings, streams)
  {
    hide FinalCores; hide RunEnd; hide Covers; hide AfterRoots; hide OutputsById; hide Cores; hide Least;
  }

  // ----- the final answer -----

  /** Whose text is the answer, and when it is the outputs of the completed steps. */
  lemma WhoAnswers(world: World, plan: Plan, settings: Settings, streams: Streams, text: string)
    ensures world.finalReply.Said? ==>
              (RunAnswer(world, plan, settings, streams) == Synthesised(text) <==>
               world.finalReply.text == text && text != "" && world.isFinal(text))
    ensures !world.finalReply.Said? ==>
              (RunAnswer(world, plan, settings, streams) == Synthesised(text) <==>
               world.hasFallbackModel && world.fallbackReply.Said? && world.fallbackReply.text == text
               && text != "" && world.isFinal(text))
    ensures (forall t :: RunAnswer(world, plan, settings, streams) != Synthesised(t)) ==>
              RunAnswer(world, plan, settings, streams) == Assembled(RunOutputs(world, plan, settings, streams))
  {
    hide RunOutputs;
    assert RunAnswer(world, plan, settings, streams).Synthesised? ==>
      RunAnswer(world, plan, settings, streams) == Synthesised(RunAnswer(world, plan, settings, streams).text);
  }

  /** If the first call answers, what the other model would say makes no difference, and it is not asked. */
  lemma FallbackUnasked(world: World, plan: Plan, settings: Settings, streams: Streams, other: Reply)
    requires world.finalReply.Said?
    ensures var w := world.(fallbackReply := other);
            && RunAnswer(w, plan, settings, streams) == RunAnswer(world, plan, settings, streams)
            && RunCalls(w, plan, settings, streams) == RunCalls(world, plan, settings, streams)
            && RunEnd(w, plan, settings, streams) == RunEnd(world, plan, settings, streams)
  {
    hide RootIds; hide Acceptable; hide IsRoot; hide RunCourse; hide EndOf; hide AskedOf; hide Passed; hide Outcomes;
    hide Blocks; hide OutputFor; hide Settings.ModelFor; hide StreamOf; hide Upgraded;
    var w := world.(fallbackReply := other);
    assert AfterRoots(w, plan, settings, streams) == AfterRoots(world, plan, settings, streams);
  }

  /** The model of a step: a complex task's worker steps go to the reasoner, but not in the parallel phase. */
  lemma ModelOfStep(world: World, plan: Plan, settings: Settings, streams: Streams, i: nat)
    requires i < |plan.steps|
    ensures var agent := plan.steps[i].agent;
            && SequentialJobs(world, plan, settings, streams)[i].model ==
               settings.ModelFor(if agent == "worker" && world.upgrade then "reasoner" else agent)
            && PlanJobs(plan, settings, streams, AgentsOf(plan))[i].model == settings.ModelFor(agent)
  {
    hide Settings.ModelFor; hide StreamOf;
  }

  /** Some step is run in the parallel phase exactly if it is allowed, and the plan acceptable with several roots. */
  lemma RootsRunIff(world: World, plan: Plan, settings: Settings, streams: Streams)
    ensures (exists i :: 0 <= i < |plan.steps| && AfterRoots(world, plan, settings, streams)[i].status != Pending) <==>
            |RootIds(plan)| > 1 && world.allowParallel && Acceptable(plan)
  {
    hide RunCourse; hide RootIds; hide Acceptable; hide IsRoot; hide Settings.ModelFor; hide StreamOf;
    hide Adds;
    var start := AfterRoots(world, plan, settings, streams);
    var batch := RootsRun(world, plan, settings, streams);
    forall i: nat | i in batch ensures start[i].status != Pending {
      CourseAdvances(PlanJobs(plan, settings, streams, AgentsOf(plan))[i], FRESH);
    }
    if GoesParallel(world, plan) {
      assert |batch| > 0;
      var i :| i in batch;
      assert start[i].status != Pending;
    }
  }

  lemma JobsAre(t: TaskRun, settings: Settings, streams: Streams, agents: seq<string>)
    requires t.Follows(streams) && |agents| == |t.plan.steps| == |t.steps|
    ensures JobsWith(t.steps, settings, agents) == PlanJobs(t.plan, settings, streams, agents)
  {
    hide Settings.ModelFor; hide StreamOf;
  }

  lemma JobsNow(t: TaskRun, settings: Settings)
    ensures Jobs(t.steps, settings) == JobsWith(t.steps, settings, Agents(t.steps))
  {
  }

  lemma SequentialJobsAre(world: World, plan: Plan, settings: Settings, streams: Streams)
    ensures var jobs, start := SequentialJobs(world, plan, settings, streams),
                               AfterRoots(world, plan, settings, streams);
            && jobs == PlanJobs(plan, settings, streams, UpgradedAll(AgentsOf(plan), world.upgrade))
            && RunOutcomes(world, plan, settings, streams) == Outcomes(jobs, start)
            && RunBlocks(world, plan, settings, streams) == Blocks(jobs, start)
            && RunEnd(world, plan, settings, streams) ==
               EndOf(settings, plan.abortOnFailure, Outcomes(jobs, start), Blocks(jobs, start))
            && forall n: nat :: FinalCores(world, plan, settings, streams, n) == Passed(jobs, start, n)
  {
    hide Settings.ModelFor; hide StreamOf; hide RunCourse; hide Upgraded; hide EndOf; hide BlockIn;
  }

  lemma LogWithin(log: seq<Start>, start: seq<Core>, upTo: nat, cap: nat)
    requires upTo <= |start| && Covers(log, start, upTo) && upTo <= cap
    ensures |log| <= cap
  {
  }

  lemma CompleteWhen(
    world: World, settings: Settings, streams: Streams, t: TaskRun, log: seq<Start>, end: PhaseEnd)
    requires RanAsStreamed(world, settings, streams, t, log, end) && |t.steps| == |t.plan.steps|
    ensures EndsAsStreamed(world, settings, streams, t, end)
  {
    hide RunCourse; hide FirstTrouble; hide FirstStop; hide Covers; hide Decided; hide AfterRoots; hide SequentialJobs;
    hide BlockIn; hide Consistent; hide AllComplete;
    var start, jobs := AfterRoots(world, t.plan, settings, streams), SequentialJobs(world, t.plan, settings, streams);
    var outcomes, blocks := Outcomes(jobs, start), Blocks(jobs, start);
    RootsConsistent(world, t.plan, settings, streams);
    StoppedAt(settings, t.plan.abortOnFailure, outcomes, blocks);
    AllCompleteIff(jobs, start, end.upTo, Least(|start|, settings.StepCap()));
    CompleteIs(t);
    if t.plan.abortOnFailure {
      TroubleDecides(settings, outcomes, blocks);
    }
  }

  lemma StoppedAt(settings: Settings, abort: bool, outcomes: seq<StepOutcome>, blocks: seq<bool>)
    requires |outcomes| == |blocks|
    ensures var upTo, reached := EndOf(settings, abort, outcomes, blocks).upTo, Least(|outcomes|, settings.StepCap());
            && upTo <= reached
            && (upTo < reached ==> exists i :: 0 <= i < upTo && outcomes[i] != Succeeded)
  {
    hide FirstStop;
    var k := FirstStop(abort, outcomes, blocks);
    assert k < |outcomes| ==> Stops(abort, outcomes[k], blocks[k]);
  }

  lemma RootsConsistent(world: World, plan: Plan, settings: Settings, streams: Streams)
    ensures Consistent(AfterRoots(world, plan, settings, streams))
  {
    hide RunCourse; hide GoesParallel; hide IsRoot;
    var start := AfterRoots(world, plan, settings, streams);
    forall i | 0 <= i < |start| ensures start[i].status == Complete <==> start[i].output.Some? {
      CourseKeeps(PlanJobs(plan, settings, streams, AgentsOf(plan))[i], FRESH);
    }
  }

  lemma CompleteIs(t: TaskRun)
    ensures AllComplete(t.steps) <==> forall i :: 0 <= i < |t.steps| ==> Cores(t.steps)[i].status == Complete
  {
    forall i | 0 <= i < |t.steps| ensures Cores(t.steps)[i].status == t.steps[i].status {
      assert Cores(t.steps)[i] == t.steps[i].Snapshot();
    }
  }

  lemma RootsInGraph(plan: Plan, g: TG.TaskGraph<string, Output>)
    requires IsGraphOf(plan, TG.DepsOf(g.nodes))
    ensures forall id :: id in RootIds(plan) ==> id in g.nodes
  {
    hide Text;
    forall id | id in RootIds(plan) ensures id in g.nodes {
      var i :| 0 <= i < |plan.steps| && plan.steps[i].dependsOn == [] && id == Text(plan.steps[i].stepId);
      var last := LastStep(plan, i);
      assert id in TG.DepsOf(g.nodes);
    }
  }

  lemma LastStep(plan: Plan, i: nat) returns (last: nat)
    requires i < |plan.steps|
    ensures IsLast(plan, last) && plan.steps[last].stepId == plan.steps[i].stepId
    decreases |plan.steps| - i
  {
    if j :| i < j < |plan.steps| && plan.steps[j].stepId == plan.steps[i].stepId {
      last := LastStep(plan, j);
    } else {
      last := i;
    }
  }

  lemma AllSafe(t: TaskRun, settings: Settings, log: seq<Start>, n: nat)
    requires t.Followed(settings, log, n)
    ensures Ordered(t.plan) && t.plan.abortOnFailure ==> forall k :: 0 <= k < |log| ==> SafeStart(t.plan, log[k])
  {
    hide Ordered; hide StartRule; hide SafeStart;
    if Ordered(t.plan) && t.plan.abortOnFailure {
      forall k | 0 <= k < |log| ensures SafeStart(t.plan, log[k]) {
        DependencySafety(t.plan, log[k]);
      }
    }
  }

  lemma BudgetAdds(world: World, plan: Plan, settings: Settings, started: nat)
    requires started <= Least(|plan.steps|, settings.StepCap())
    ensures 4 + ParallelRoots(world, plan) * settings.StepBudget() + started * settings.StepBudget()
            <= RunBudget(world, plan, settings)
  {
    hide ParallelRoots; hide Settings.StepBudget; hide Settings.StepCap; hide Least;
    var r, cap, budget := ParallelRoots(world, plan), Least(|plan.steps|, settings.StepCap()), settings.StepBudget();
    assert started * budget <= cap * budget;
    assert (r + cap) * budget == r * budget + cap * budget;
  }

  /** If no reply holds an envelope, no step ever counts as blocked. */
  lemma QuietNeverBlocks(world: World, plan: Plan, settings: Settings, streams: Streams)
    requires forall i: nat, k: nat :: EnvelopeIn(streams.replies(i, k)) == []
    ensures forall i :: 0 <= i < |plan.steps| ==> !RunBlocks(world, plan, settings, streams)[i]
  {
    hide RunCourse; hide GoesParallel; hide IsRoot; hide EnvelopeIn; hide Settings.ModelFor; hide Upgraded;
    var start, jobs := AfterRoots(world, plan, settings, streams), SequentialJobs(world, plan, settings, streams);
    forall i | 0 <= i < |start|
      ensures start[i].received == [] && RunCourse(jobs[i], start[i]).0.received == []
    {
      CourseAdds(PlanJobs(plan, settings, streams, AgentsOf(plan))[i], FRESH);
      CourseAdds(jobs[i], start[i]);
    }
    forall i | 0 <= i < |start| ensures !Blocks(jobs, start)[i] {
      BlockedIff(jobs, start, i + 1);
    }
  }

  // ----- runs in which no step ever succeeds -----

  /** How a run ends when every call gets the same reply, and that reply never completes a step. */
  function VainStatus(plan: Plan, settings: Settings, reply: Reply): TaskStatus {
    if plan.steps == [] then RunningSteps
    else if EnvelopeIn(reply) == [Block] && settings.Retries() > 0 && settings.Turns() > 0 then Blocked
    else if plan.abortOnFailure then FailedTask
    else if |plan.steps| > settings.StepCap() then Aborted
    else RunningSteps
  }

  /** For every plan and all settings such a run is answered and finished, whatever stopped its steps. */
  method RunInVain(plan: Plan, settings: Settings, reply: Reply)
    returns (task: TaskRun, ghost upTo: nat, ghost stopped: TaskStatus)
    requires NeverCompletes(reply)
    ensures fresh(task) && task.plan == plan && |task.steps| == |plan.steps| && task.status == Finished
    ensures upTo <= |plan.steps| && forall i :: 0 <= i < upTo ==> task.steps[i].status == Failed
    ensures stopped == VainStatus(plan, settings, reply)
    ensures upTo == if stopped == Blocked || stopped == FailedTask then 1 else Least(|plan.steps|, settings.StepCap())
  {
    hide *;
    var world := World(Some(plan), false, false, Said("", NotJson), false, HttpError, text => false);
    var streams := Streams((i, k) => reply, (i, k) => Setup(false, None));
    var ending, t, answer;
    ghost var calls, log;
    ending, t, answer, calls, log, upTo, stopped := RunTask(world, settings, streams);
    VainSteps(world, plan, settings, streams, reply, upTo);
    VainEnd(world, plan, settings, streams, reply);
    StepsFailed(world, settings, streams, t.value, log, PhaseEnd(upTo, ending == Errored, stopped));
    task := t.value;
  }

  lemma VainSteps(world: World, plan: Plan, settings: Settings, streams: Streams, reply: Reply, n: nat)
    requires !world.allowParallel && NeverCompletes(reply)
    requires (forall i: nat, k: nat :: streams.replies(i, k) == reply)
    requires (forall i: nat, k: nat :: !streams.setups(i, k).compress)
    ensures forall i :: 0 <= i < |plan.steps| ==>
              && RunOutcomes(world, plan, settings, streams)[i] == FailedStep
              && (RunBlocks(world, plan, settings, streams)[i] <==>
                  EnvelopeIn(reply) == [Block] && settings.Retries() > 0 && settings.Turns() > 0)
              && (i < n ==> FinalCores(world, plan, settings, streams, n)[i].status == Failed)
  {
    hide RunCourse; hide Settings.ModelFor; hide Upgraded; hide RootIds; hide Acceptable; hide IsRoot;
    hide EnvelopeIn; hide NeverCompletes; hide Settings.Turns; hide Settings.Retries;
    var start, jobs := AfterRoots(world, plan, settings, streams), SequentialJobs(world, plan, settings, streams);
    forall i | 0 <= i < |start|
      ensures start[i] == FRESH && AlwaysSays(jobs[i], reply)
    {
      assert jobs[i].replies == StreamOf(streams.replies, i) && jobs[i].setups == StreamOf(streams.setups, i);
    }
    forall i | 0 <= i < |start|
      ensures RunCourse(jobs[i], start[i]).1 == FailedStep && RunCourse(jobs[i], start[i]).0.status == Failed
      ensures Block in RunCourse(jobs[i], start[i]).0.received <==>
              EnvelopeIn(reply) == [Block] && settings.Retries() > 0 && settings.Turns() > 0
    {
      AlwaysFails(jobs[i], start[i], reply);
    }
    forall i | 0 <= i < |start|
      ensures Blocks(jobs, start)[i] <==> EnvelopeIn(reply) == [Block] && settings.Retries() > 0 && settings.Turns() > 0
    {
      BlockedIff(jobs, start, i + 1);
      assert Block in RunCourse(jobs[0], start[0]).0.received <==>
             EnvelopeIn(reply) == [Block] && settings.Retries() > 0 && settings.Turns() > 0;
    }
  }

  lemma VainEnd(world: World, plan: Plan, settings: Settings, streams: Streams, reply: Reply)
    requires forall i :: 0 <= i < |plan.steps| ==>
               && RunOutcomes(world, plan, settings, streams)[i] == FailedStep
               && (RunBlocks(world, plan, settings, streams)[i] <==>
                   EnvelopeIn(reply) == [Block] && settings.Retries() > 0 && settings.Turns() > 0)
    ensures var end := RunEnd(world, plan, settings, streams);
            && !end.crashed && end.status == VainStatus(plan, settings, reply)
            && end.upTo == if end.status == Blocked || end.status == FailedTask then 1
                           else Least(|plan.steps|, settings.StepCap())
  {
    hide RunOutcomes; hide RunBlocks; hide FirstStop; hide EnvelopeIn; hide Settings.Turns; hide Settings.Retries;
    var outcomes, blocks := RunOutcomes(world, plan, settings, streams), RunBlocks(world, plan, settings, streams);
    var k := FirstStop(plan.abortOnFailure, outcomes, blocks);
    assert plan.steps != [] ==> outcomes[0] == FailedStep;
    assert k < |outcomes| ==> Stops(plan.abortOnFailure, outcomes[k], blocks[k]);
    assert k > 0 ==> !Stops(plan.abortOnFailure, outcomes[0], blocks[0]);
  }

  lemma StepsFailed(world: World, settings: Settings, streams: Streams, t: TaskRun, log: seq<Start>, end: PhaseEnd)
    requires RanAsStreamed(world, settings, streams, t, log, end) && |t.steps| == |t.plan.steps|
    requires forall i :: 0 <= i < end.upTo && i < |t.plan.steps| ==>
               FinalCores(world, t.plan, settings, streams, end.upTo)[i].status == Failed
    ensures end == RunEnd(world, t.plan, settings, streams) && end.upTo <= |t.plan.steps|
    ensures forall i :: 0 <= i < end.upTo ==> t.steps[i].status == Failed
  {
    hide FinalCores; hide RunEnd; hide Covers;
    forall i | 0 <= i < end.upTo ensures t.steps[i].status == Failed {
      assert Cores(t.steps)[i] == t.steps[i].Snapshot();
    }
  }

  /** FAILED: a run without fallback whose only step fails, for all settings. */
  method FailedRunEndsFinished(settings: Settings) returns (task: TaskRun, ghost stopped: TaskStatus)
    ensures fresh(task) && task.plan.abortOnFailure && |task.steps| == 1 && task.steps[0].status == Failed
    ensures stopped == FailedTask && task.status == Finished
  {
    ghost var upTo;
    task, upTo, stopped := RunInVain(Plan([PlanStep(1, "worker", "a", [])], true), settings, Said("", NotJson));
  }

  /** BLOCKED, although there is a fallback: a BLOCK is received, for all settings that let a step make a call. */
  method BlockedRunEndsFinished(settings: Settings) returns (task: TaskRun, ghost stopped: TaskStatus)
    requires settings.Retries() > 0 && settings.Turns() > 0
    ensures fresh(task) && !task.plan.abortOnFailure && |task.steps| == 1 && task.steps[0].status == Failed
    ensures stopped == Blocked && task.status == Finished
  {
    ghost var upTo;
    task, upTo, stopped :=
      RunInVain(Plan([PlanStep(1, "worker", "a", [])], false), settings, Said("", Enveloped(Block)));
  }

  /** ABORTED: one step more than the cap, for all settings. */
  method AbortedRunEndsFinished(settings: Settings) returns (task: TaskRun, ghost stopped: TaskStatus)
    ensures fresh(task) && |task.steps| == (if settings.maxSteps >= 1 then settings.maxSteps else 1) + 1
    ensures stopped == Aborted && task.status == Finished
  {
    var steps := seq(settings.StepCap() + 1, i => PlanStep(i + 1, "worker", "a", []));
    ghost var upTo;
    task, upTo, stopped := RunInVain(Plan(steps, false), settings, Said("", NotJson));
  }

  // ----- runs that use up the budget -----

  /** Distinct members of s have distinct texts, and these are just the ids. */
  lemma {:induction false} SameCount(s: set<nat>, ids: set<string>, texts: seq<string>)
    requires forall i :: i in s ==> i < |texts| && texts[i] in ids
    requires forall i, j :: i in s && j in s && i != j ==> texts[i] != texts[j]
    requires forall id :: id in ids ==> exists i :: i in s && texts[i] == id
    ensures |s| == |ids|
    decreases s
  {
    if s == {} {
      assert ids == {};
    } else {
      var i :| i in s;
      forall id | id in ids - {texts[i]} ensures exists j :: j in s - {i} && texts[j] == id {
        var j :| j in s && texts[j] == id;
        assert j in s - {i};
      }
      SameCount(s - {i}, ids - {texts[i]}, texts);
      assert |s| == |s - {i}| + 1 && |ids| == |ids - {texts[i]}| + 1;
    }
  }

  /** There is one record for each root id. */
  lemma RootCount(plan: Plan) returns (batch: set<nat>)
    ensures forall i: nat :: i in batch <==> i < |plan.steps| && IsRoot(plan, i)
    ensures |batch| == |RootIds(plan)|
  {
    batch := set i: nat | i < |plan.steps| && IsRoot(plan, i);
    var texts := seq(|plan.steps|, i requires 0 <= i < |plan.steps| => Text(plan.steps[i].stepId));
    hide Text; hide RootIds;
    forall id | id in RootIds(plan) ensures exists i :: i in batch && texts[i] == id {
      var first := RootRecord(plan, id);
      assert first in batch && texts[first] == id;
    }
    SameCount(batch, RootIds(plan), texts);
  }

  lemma RootRecord(plan: Plan, id: string) returns (first: nat)
    requires id in RootIds(plan)
    ensures first < |plan.steps| && IsRoot(plan, first) && Text(plan.steps[first].stepId) == id
  {
    hide Text;
    var i :| 0 <= i < |plan.steps| && plan.steps[i].dependsOn == [] && Text(plan.steps[i].stepId) == id;
    first := FirstWithText(plan, i);
  }

  lemma FirstWithText(plan: Plan, i: nat) returns (first: nat)
    requires i < |plan.steps|
    ensures first <= i && Text(plan.steps[first].stepId) == Text(plan.steps[i].stepId)
    ensures forall j :: 0 <= j < first ==> Text(plan.steps[j].stepId) != Text(plan.steps[first].stepId)
  {
    hide Text;
    if j :| 0 <= j < i && Text(plan.steps[j].stepId) == Text(plan.steps[i].stepId) {
      first := FirstWithText(plan, j);
    } else {
      first := i;
    }
  }

  /** When the whole budget can be used up: an aborting plan needs steps that succeed on their last call. */
  predicate CanSpendAll(plan: Plan, settings: Settings) {
    || !plan.abortOnFailure || Least(|plan.steps|, settings.StepCap()) <= 1
    || settings.Retries() == 0 || settings.Turns() > 0
  }

  /** Only then must they succeed. */
  predicate MustSucceed(plan: Plan, settings: Settings) {
    plan.abortOnFailure && Least(|plan.steps|, settings.StepCap()) > 1 && settings.Retries() > 0
  }

  /** The calls of step i in both phases together. */
  function CallsOf(plan: Plan, settings: Settings, parallel: bool, i: nat): nat {
    if parallel && i < |plan.steps| && IsRoot(plan, i) then settings.StepBudget() + settings.StepBudget()
    else settings.StepBudget()
  }

  function SpendingReply(plan: Plan, settings: Settings, parallel: bool, i: nat, k: nat): Reply {
    if MustSucceed(plan, settings) && k + 1 == CallsOf(plan, settings, parallel, i) then Said("", Terminal)
    else TOOL_CALL
  }

  /** Each step calls tools to the end of its budget, and succeeds with its last call if it must. */
  ghost predicate Spending(plan: Plan, settings: Settings, parallel: bool, streams: Streams) {
    && (forall i: nat, k: nat :: streams.replies(i, k) == SpendingReply(plan, settings, parallel, i, k))
    && (forall i: nat, k: nat :: streams.setups(i, k).compress)
  }

  lemma SpendingCalls(
    plan: Plan, settings: Settings, parallel: bool, streams: Streams, agents: seq<string>, i: nat, from: nat, to: nat)
    requires Spending(plan, settings, parallel, streams) && |agents| == |plan.steps| && i < |plan.steps|
    requires MustSucceed(plan, settings) ==> to < CallsOf(plan, settings, parallel, i)
    ensures CallsTools(PlanJobs(plan, settings, streams, agents)[i], from, to)
  {
    hide Settings.ModelFor; hide MustSucceed; hide CallsOf;
    var job := PlanJobs(plan, settings, streams, agents)[i];
    forall k: nat | from <= k < to ensures job.replies(k) == TOOL_CALL {
      assert job.replies(k) == streams.replies(i, k) == SpendingReply(plan, settings, parallel, i, k);
    }
    forall k: nat ensures job.setups(k).compress {
      assert job.setups(k) == streams.setups(i, k);
    }
  }

  /** The roots that are run together spend their budgets, and fail. */
  lemma RootsSpend(world: World, plan: Plan, settings: Settings, streams: Streams)
    requires Spending(plan, settings, GoesParallel(world, plan), streams)
    ensures AskedOf(AfterRoots(world, plan, settings, streams)) ==
            ParallelRoots(world, plan) * settings.StepBudget()
    ensures forall i :: 0 <= i < |plan.steps| ==>
              var c := AfterRoots(world, plan, settings, streams)[i];
              c.status != Complete
              && c.asked == if GoesParallel(world, plan) && IsRoot(plan, i) then settings.StepBudget() else 0
  {
    hide RunCourse; hide RootIds; hide GoesParallel; hide IsRoot; hide AskedOf; hide CallsTools; hide StreamOf;
    hide Settings.ModelFor; hide SpendingReply; hide Spending;
    var start, roots := AfterRoots(world, plan, settings, streams), PlanJobs(plan, settings, streams, AgentsOf(plan));
    AllFreshAsked(|plan.steps|);
    var batch := RootsRun(world, plan, settings, streams);
    forall i | i in batch ensures start[i].asked == settings.StepBudget() && start[i].status == Failed {
      SomeBudget(plan, settings, i);
      SpendingCalls(plan, settings, true, streams, AgentsOf(plan), i, 0, settings.StepBudget());
      CapsAreReached(roots[i], FRESH);
    }
    AllRunAskedFully(roots, AllFresh(|plan.steps|), start, batch, settings);
  }

  /** The steps of the parallel phase as a batch. */
  lemma RootsRun(world: World, plan: Plan, settings: Settings, streams: Streams) returns (batch: set<nat>)
    ensures forall i: nat :: i in batch <==> i < |plan.steps| && GoesParallel(world, plan) && IsRoot(plan, i)
    ensures |batch| == ParallelRoots(world, plan)
    ensures AllRun(PlanJobs(plan, settings, streams, AgentsOf(plan)), AllFresh(|plan.steps|),
                   AfterRoots(world, plan, settings, streams), batch)
  {
    hide RunCourse; hide RootIds; hide GoesParallel; hide IsRoot; hide Settings.ModelFor; hide StreamOf;
    if GoesParallel(world, plan) {
      batch := RootCount(plan);
    } else {
      batch := {};
    }
  }

  lemma SomeBudget(plan: Plan, settings: Settings, i: nat)
    requires i < |plan.steps| && IsRoot(plan, i)
    ensures settings.Retries() > 0 ==> settings.StepBudget() > 0
    ensures MustSucceed(plan, settings) ==> settings.StepBudget() < CallsOf(plan, settings, true, i)
  {
    hide IsRoot;
    assert settings.Retries() > 0 ==> settings.Retries() * (settings.Turns() + 1) >= 1 * (settings.Turns() + 1);
  }

  /** Each step spends its budget in the sequential phase, and succeeds exactly if it must. */
  lemma StepSpends(world: World, plan: Plan, settings: Settings, streams: Streams, i: nat)
    requires Spending(plan, settings, GoesParallel(world, plan), streams) && CanSpendAll(plan, settings)
    requires i < |plan.steps|
    ensures var job, c := SequentialJobs(world, plan, settings, streams)[i],
                          AfterRoots(world, plan, settings, streams)[i];
            && RunCourse(job, c).0.asked == c.asked + settings.StepBudget()
            && RunCourse(job, c).1 == if MustSucceed(plan, settings) then Succeeded else FailedStep
  {
    hide RunCourse; hide RootIds; hide GoesParallel; hide IsRoot; hide AskedOf; hide CallsTools; hide StreamOf;
    hide Settings.ModelFor; hide Spending; hide AfterRoots; hide Least; hide Settings.StepBudget;
    hide Settings.Turns; hide Settings.Retries; hide Upgraded;
    RootsSpend(world, plan, settings, streams);
    var agents := UpgradedAll(AgentsOf(plan), world.upgrade);
    var job, c := SequentialJobs(world, plan, settings, streams)[i], AfterRoots(world, plan, settings, streams)[i];
    var parallel, budget := GoesParallel(world, plan), settings.StepBudget();
    assert CallsOf(plan, settings, parallel, i) == c.asked + budget;
    if MustSucceed(plan, settings) {
      BudgetIsPositive(settings);
      SpendingCalls(plan, settings, parallel, streams, agents, i, c.asked, c.asked + budget - 1);
      LastReply(plan, settings, parallel, streams, agents, i);
      SucceedsOnLastCall(job, c);
    } else {
      SpendingCalls(plan, settings, parallel, streams, agents, i, c.asked, c.asked + budget);
      CapsAreReached(job, c);
    }
  }

  lemma BudgetIsPositive(settings: Settings)
    ensures settings.Retries() > 0 <==> settings.StepBudget() > 0
  {
    assert settings.Retries() > 0 ==> settings.Retries() * (settings.Turns() + 1) >= 1 * (settings.Turns() + 1);
  }

  lemma LastReply(
    plan: Plan, settings: Settings, parallel: bool, streams: Streams, agents: seq<string>, i: nat)
    requires Spending(plan, settings, parallel, streams) && |agents| == |plan.steps| && i < |plan.steps|
    requires MustSucceed(plan, settings) && CallsOf(plan, settings, parallel, i) > 0
    ensures PlanJobs(plan, settings, streams, agents)[i].replies(CallsOf(plan, settings, parallel, i) - 1) ==
            Said("", Terminal)
  {
    hide Settings.ModelFor; hide MustSucceed; hide CallsOf;
    var k := CallsOf(plan, settings, parallel, i) - 1;
    assert streams.replies(i, k) == SpendingReply(plan, settings, parallel, i, k);
  }

  /** Such streams use up the whole budget. */
  lemma EveryStepSpends(world: World, plan: Plan, settings: Settings, streams: Streams)
    requires Spending(plan, settings, GoesParallel(world, plan), streams) && CanSpendAll(plan, settings)
    requires world.SynthesisCalls() == 2
    ensures RunCalls(world, plan, settings, streams) == RunBudget(world, plan, settings)
    ensures !RunEnd(world, plan, settings, streams).crashed
  {
    hide *;
    RootsSpend(world, plan, settings, streams);
    forall i | 0 <= i < |plan.steps| { StepSpends(world, plan, settings, streams, i); }
    SequentialJobsAre(world, plan, settings, streams);
    var start, jobs := AfterRoots(world, plan, settings, streams), SequentialJobs(world, plan, settings, streams);
    forall i | 0 <= i < |plan.steps|
      ensures RunOutcomes(world, plan, settings, streams)[i] ==
              if MustSucceed(plan, settings) then Succeeded else FailedStep
    {
      OutcomeAt(jobs, start, i);
    }
    SpendingIsQuiet(plan, settings, GoesParallel(world, plan), streams);
    QuietNeverBlocks(world, plan, settings, streams);
    SpendingEnds(world, plan, settings, streams);
    LeastIs(|plan.steps|, settings.StepCap());
    PassedAskedFully(jobs, start, RunEnd(world, plan, settings, streams).upTo, settings);
    SpentIs(world, plan, settings, streams);
  }

  lemma OutcomeAt(jobs: seq<Job>, start: seq<Core>, i: nat)
    requires |jobs| == |start| && i < |start| && start[i].status != Complete
    ensures Outcomes(jobs, start)[i] == RunCourse(jobs[i], start[i]).1
  {
    hide RunCourse;
  }

  lemma SpendingIsQuiet(plan: Plan, settings: Settings, parallel: bool, streams: Streams)
    requires Spending(plan, settings, parallel, streams)
    ensures forall i: nat, k: nat :: EnvelopeIn(streams.replies(i, k)) == []
  {
    hide MustSucceed; hide CallsOf;
    forall i: nat, k: nat ensures EnvelopeIn(streams.replies(i, k)) == [] {
      assert streams.replies(i, k) == SpendingReply(plan, settings, parallel, i, k);
    }
  }

  /** No step raises, and the phase goes on until there is nothing left to spend. */
  lemma SpendingEnds(world: World, plan: Plan, settings: Settings, streams: Streams)
    requires forall i :: 0 <= i < |plan.steps| ==>
               RunOutcomes(world, plan, settings, streams)[i] ==
               (if MustSucceed(plan, settings) then Succeeded else FailedStep)
    requires forall i :: 0 <= i < |plan.steps| ==> !RunBlocks(world, plan, settings, streams)[i]
    ensures var end, reached := RunEnd(world, plan, settings, streams), Least(|plan.steps|, settings.StepCap());
            !end.crashed && end.upTo <= reached && (end.upTo == reached || settings.StepBudget() == 0)
  {
    hide RunOutcomes; hide RunBlocks; hide FirstStop;
    var outcomes, blocks := RunOutcomes(world, plan, settings, streams), RunBlocks(world, plan, settings, streams);
    var k := FirstStop(plan.abortOnFailure, outcomes, blocks);
    assert k < |outcomes| ==> Stops(plan.abortOnFailure, outcomes[k], blocks[k]);
    assert k > 0 ==> !Stops(plan.abortOnFailure, outcomes[0], blocks[0]);
    assert settings.Retries() == 0 ==> settings.StepBudget() == 0;
  }

  lemma SpentIs(world: World, plan: Plan, settings: Settings, streams: Streams)
    requires world.SynthesisCalls() == 2
    requires var end, reached := RunEnd(world, plan, settings, streams), Least(|plan.steps|, settings.StepCap());
             !end.crashed && (end.upTo == reached || settings.StepBudget() == 0)
    requires AskedOf(FinalCores(world, plan, settings, streams, RunEnd(world, plan, settings, streams).upTo)) ==
             ParallelRoots(world, plan) * settings.StepBudget()
             + RunEnd(world, plan, settings, streams).upTo * settings.StepBudget()
    ensures RunCalls(world, plan, settings, streams) == RunBudget(world, plan, settings)
  {
    hide FinalCores; hide ParallelRoots; hide RunEnd; hide AskedOf; hide Settings.StepBudget; hide Least;
    var roots, reached, budget :=
      ParallelRoots(world, plan), Least(|plan.steps|, settings.StepCap()), settings.StepBudget();
    assert (roots + reached) * budget == roots * budget + reached * budget;
  }

  /** A run that uses up its budget, for all settings and every plan that can, with and without the parallel phase. */
  method SpendWholeBudget(plan: Plan, settings: Settings, allowParallel: bool)
    returns (world: World, ending: Ending, ghost calls: nat)
    requires CanSpendAll(plan, settings)
    ensures world.plan == Some(plan) && world.allowParallel == allowParallel
    ensures ending == Answered && calls == RunBudget(world, plan, settings)
  {
    hide *;
    world := World(Some(plan), false, allowParallel, HttpError, true, HttpError, text => false);
    var graph, _ := BuildGraphFromPlan(plan);
    var parallel := |RootIds(plan)| > 1 && allowParallel && graph.Ok?;
    ParallelIs(world, plan);
    var streams := Streams(
      (i: nat, k: nat) => SpendingReply(plan, settings, parallel, i, k), (i, k) => Setup(true, None));
    TwoCalls(world);
    SpendingIs(plan, settings, parallel, streams);
    EveryStepSpends(world, plan, settings, streams);
    var t, answer;
    ghost var log, upTo, stopped;
    ending, t, answer, calls, log, upTo, stopped := RunTask(world, settings, streams);
    EndIs(world, settings, streams, t.value, log, PhaseEnd(upTo, ending == Errored, stopped));
  }

  lemma TwoCalls(world: World)
    requires world.finalReply == HttpError && world.hasFallbackModel
    ensures world.SynthesisCalls() == 2
  {
  }

  lemma SpendingIs(plan: Plan, settings: Settings, parallel: bool, streams: Streams)
    requires (forall i: nat, k: nat :: streams.replies(i, k) == SpendingReply(plan, settings, parallel, i, k))
    requires (forall i: nat, k: nat :: streams.setups(i, k) == Setup(true, None))
    ensures Spending(plan, settings, parallel, streams)
  {
    hide SpendingReply;
  }

  lemma EndIs(world: World, settings: Settings, streams: Streams, t: TaskRun, log: seq<Start>, end: PhaseEnd)
    requires RanAsStreamed(world, settings, streams, t, log, end)
    ensures end == RunEnd(world, t.plan, settings, streams)
  {
    hide RunEnd; hide FinalCores; hide Covers; hide AfterRoots;
  }

  /** No other plan can: without a turn no step succeeds, so an aborting run is over after one step. */
  lemma BudgetOutOfReach(world: World, plan: Plan, settings: Settings, streams: Streams)
    requires !CanSpendAll(plan, settings)
    ensures RunCalls(world, plan, settings, streams) < RunBudget(world, plan, settings)
  {
    hide *;
    CannotSpendAll(plan, settings);
    var start, jobs := AfterRoots(world, plan, settings, streams), SequentialJobs(world, plan, settings, streams);
    SequentialJobsAre(world, plan, settings, streams);
    OverAfterOne(world, plan, settings, streams);
    var roots := PlanJobs(plan, settings, streams, AgentsOf(plan));
    var batch := RootsRun(world, plan, settings, streams);
    AllFreshAsked(|plan.steps|);
    AllRunAsked(roots, AllFresh(|plan.steps|), start, batch, settings);
    PassedAsked(jobs, start, 1, settings);
    CallsBelow(world, plan, settings, streams, Incomplete(start, 1));
  }

  lemma CannotSpendAll(plan: Plan, settings: Settings)
    requires !CanSpendAll(plan, settings)
    ensures plan.abortOnFailure && Least(|plan.steps|, settings.StepCap()) > 1 && |plan.steps| > 1
    ensures settings.Turns() == 0 && settings.StepBudget() > 0
  {
    BudgetIsPositive(settings);
  }

  lemma OverAfterOne(world: World, plan: Plan, settings: Settings, streams: Streams)
    requires plan.abortOnFailure && Least(|plan.steps|, settings.StepCap()) > 0 && |plan.steps| > 0
    requires settings.Turns() == 0
    ensures RunEnd(world, plan, settings, streams).upTo == 1
  {
    hide RunAttempts; hide GoesParallel; hide IsRoot; hide Advanced; hide FirstTrouble; hide EndOf; hide BlockIn;
    hide Settings.ModelFor; hide Settings.Turns; hide Settings.Retries; hide Upgraded;
    var start, jobs := AfterRoots(world, plan, settings, streams), SequentialJobs(world, plan, settings, streams);
    var root := PlanJobs(plan, settings, streams, AgentsOf(plan))[0];
    NoTurnsNoSuccess(root, FRESH.(status := Running), settings.Retries());
    CourseKeeps(root, FRESH);
    NoTurnsNoSuccess(jobs[0], start[0].(status := Running), settings.Retries());
    var outcomes := RunOutcomes(world, plan, settings, streams);
    assert outcomes[0] != Succeeded;
    TroubleDecides(settings, outcomes, RunBlocks(world, plan, settings, streams));
  }

  lemma CallsBelow(world: World, plan: Plan, settings: Settings, streams: Streams, run: nat)
    requires RunEnd(world, plan, settings, streams).upTo == 1 && run <= 1
    requires AskedOf(FinalCores(world, plan, settings, streams, 1)) <=
             ParallelRoots(world, plan) * settings.StepBudget() + run * settings.StepBudget()
    requires Least(|plan.steps|, settings.StepCap()) > 1 && settings.StepBudget() > 0
    ensures RunCalls(world, plan, settings, streams) < RunBudget(world, plan, settings)
  {
    hide FinalCores; hide ParallelRoots; hide RunEnd; hide AskedOf; hide Settings.StepBudget; hide Least;
    var roots, reached, budget :=
      ParallelRoots(world, plan), Least(|plan.steps|, settings.StepCap()), settings.StepBudget();
    assert (roots + reached) * budget == roots * budget + reached * budget;
    assert run * budget <= budget by {
      assert run == 0 || run == 1;
    }
    assert reached * budget == (reached - 2) * budget + 2 * budget;
  }
}
