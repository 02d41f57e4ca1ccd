/**
  Plans: what a step is fed from the outputs of the steps it depends on, and the task graph
  that is built from a plan.
*/
module Plans {
  import opened Wrappers
  import opened Slices
  import opened StepExecution
  import D = Dependencies
  import TG = TaskGraphs

  /** A normalised plan step. */
  datatype PlanStep = PlanStep(stepId: int, agent: string, action: string, dependsOn: seq<int>)

  datatype Plan = Plan(steps: seq<PlanStep>, abortOnFailure: bool)

  // ----- inputs from outputs -----

  /** The last of the listed steps with this id, among those that satisfy `known`. */
  function LastWithId(steps: seq<PlanStep>, known: seq<bool>, id: int): Option<nat>
    requires |known| == |steps|
  {
    if steps == [] then None
    else
      var n := |steps| - 1;
      if steps[n].stepId == id && known[n] then Some(n) else LastWithId(steps[..n], known[..n], id)
  }

  lemma {:induction false} LastWithIdFound(steps: seq<PlanStep>, known: seq<bool>, id: int, j: nat)
    requires |known| == |steps| && j < |steps| && steps[j].stepId == id && known[j]
    requires forall k :: j < k < |steps| ==> steps[k].stepId != id
    ensures LastWithId(steps, known, id) == Some(j)
    decreases |steps|
  {
    var n := |steps| - 1;
    if j < n {
      LastWithIdFound(steps[..n], known[..n], id, j);
    }
  }

  lemma {:induction false} LastWithIdInRange(steps: seq<PlanStep>, known: seq<bool>, id: int)
    requires |known| == |steps|
    ensures LastWithId(steps, known, id).Some? ==>
              LastWithId(steps, known, id).value < |steps|
              && steps[LastWithId(steps, known, id).value].stepId == id
              && known[LastWithId(steps, known, id).value]
    decreases |steps|
  {
    if steps != [] {
      var n := |steps| - 1;
      LastWithIdInRange(steps[..n], known[..n], id);
    }
  }

  ghost function Known(outputs: seq<Option<Output>>): (k: seq<bool>)
    ensures |k| == |outputs| && forall i :: 0 <= i < |k| ==> k[i] == outputs[i].Some?
  {
    seq(|outputs|, i requires 0 <= i < |outputs| => outputs[i].Some?)
  }

  /** The output a dependency contributes: that of the last step with this id that has one. */
  ghost function OutputFor(plan: Plan, outputs: seq<Option<Output>>, id: int): Option<Output>
    requires |outputs| == |plan.steps|
  {
    LastWithIdInRange(plan.steps, Known(outputs), id);
    var j := LastWithId(plan.steps, Known(outputs), id);
    if j.Some? then outputs[j.value] else None
  }

  ghost function Gather(plan: Plan, outputs: seq<Option<Output>>, deps: seq<int>): seq<Output>
    requires |outputs| == |plan.steps|
  {
    if deps == [] then []
    else
      var o := OutputFor(plan, outputs, deps[|deps| - 1]);
      Gather(plan, outputs, deps[..|deps| - 1]) + if o.Some? then [o.value] else []
  }

  function Pack(outputs: seq<Output>): Input {
    if |outputs| == 1 then Single(outputs[0]) else Many(outputs)
  }

  function All(n: nat): (k: seq<bool>)
    ensures |k| == n && forall i :: 0 <= i < n ==> k[i]
  {
    seq(n, i => true)
  }

  /** The dependencies found for a step by its id: those of the last plan step that carries it. */
  function DepsById(plan: Plan, id: int): seq<int> {
    LastWithIdInRange(plan.steps, All(|plan.steps|), id);
    var j := LastWithId(plan.steps, All(|plan.steps|), id);
    if j.Some? then plan.steps[j.value].dependsOn else []
  }

  /** The input of step i, given the outputs there are when it starts. */
  ghost function InputFor(plan: Plan, outputs: seq<Option<Output>>, i: nat): Input
    requires |outputs| == |plan.steps| && i < |plan.steps|
  {
    var deps := DepsById(plan, plan.steps[i].stepId);
    if deps == [] then NoInput else Pack(Gather(plan, outputs, deps))
  }

  /** The output for an id is that of the last step with this id that has one. */
  lemma OutputForIff(plan: Plan, outputs: seq<Option<Output>>, id: int, o: Output)
    requires |outputs| == |plan.steps|
    ensures OutputFor(plan, outputs, id) == Some(o) <==>
            exists j :: 0 <= j < |outputs| && plan.steps[j].stepId == id && outputs[j] == Some(o)
                        && forall k :: j < k < |outputs| && plan.steps[k].stepId == id ==> outputs[k] == None
  {
    LastKnown(plan.steps, Known(outputs), id);
  }

  lemma {:induction false} LastKnown(steps: seq<PlanStep>, known: seq<bool>, id: int)
    requires |known| == |steps|
    ensures var j := LastWithId(steps, known, id);
            && (j.Some? ==> j.value < |steps| && steps[j.value].stepId == id && known[j.value])
            && forall k :: 0 <= k < |steps| && (j.Some? ==> j.value < k) && steps[k].stepId == id ==> !known[k]
    decreases |steps|
  {
    if steps != [] {
      LastKnown(steps[..|steps| - 1], known[..|steps| - 1], id);
    }
  }

  /** The dependencies of a step are those of the last plan step with its id. */
  lemma DepsAreOfLast(plan: Plan, i: nat)
    requires i < |plan.steps| && forall k :: i < k < |plan.steps| ==> plan.steps[k].stepId != plan.steps[i].stepId
    ensures DepsById(plan, plan.steps[i].stepId) == plan.steps[i].dependsOn
  {
    LastWithIdFound(plan.steps, All(|plan.steps|), plan.steps[i].stepId, i);
  }

  /** Whatever is missing, the outputs found are fed in listed order. */
  lemma {:induction false} GatherIsFound(plan: Plan, outputs: seq<Option<Output>>, deps: seq<int>)
    requires |outputs| == |plan.steps|
    ensures Mapped(Gather(plan, outputs, deps), o => Some(o)) ==
            Mapped(Filtered(deps, d => |outputs| == |plan.steps| && OutputFor(plan, outputs, d).Some?),
                   d => if |outputs| == |plan.steps| then OutputFor(plan, outputs, d) else None)
  {
    hide OutputFor;
    if deps != [] {
      GatherIsFound(plan, outputs, deps[..|deps| - 1]);
    }
  }

  /** Nothing for a step without dependencies, one output alone, and otherwise the list of those found. */
  lemma InputKinds(plan: Plan, outputs: seq<Option<Output>>, i: nat)
    requires |outputs| == |plan.steps| && i < |plan.steps|
    requires forall k :: i < k < |plan.steps| ==> plan.steps[k].stepId != plan.steps[i].stepId
    ensures var deps := plan.steps[i].dependsOn;
            var found := Gather(plan, outputs, deps);
            InputFor(plan, outputs, i) ==
            if deps == [] then NoInput else if |found| == 1 then Single(found[0]) else Many(found)
  {
    hide Gather;
    DepsAreOfLast(plan, i);
  }

  /** Distinct ids, and every dependency listed before its user. */
  ghost predicate Ordered(plan: Plan) {
    && (forall i, j :: 0 <= i < j < |plan.steps| ==> plan.steps[i].stepId != plan.steps[j].stepId)
    && (forall i, d :: 0 <= i < |plan.steps| && d in plan.steps[i].dependsOn ==> ListedBefore(plan, i, d))
  }

  ghost predicate ListedBefore(plan: Plan, i: int, d: int)
    requires 0 <= i < |plan.steps|
  {
    exists j :: 0 <= j < i && plan.steps[j].stepId == d
  }

  ghost function PositionOf(plan: Plan, i: nat, d: int): (j: nat)
    requires i < |plan.steps| && ListedBefore(plan, i, d)
    ensures j < i && plan.steps[j].stepId == d
  {
    var j :| 0 <= j < i && plan.steps[j].stepId == d;
    j
  }

  /** In an ordered plan, when all earlier steps are done, nothing is missing and nothing reordered. */
  lemma {:induction false} GatherIsComplete(plan: Plan, outputs: seq<Option<Output>>, i: nat, deps: seq<int>)
    requires Ordered(plan) && |outputs| == |plan.steps| && i < |plan.steps|
    requires forall d :: d in deps ==> ListedBefore(plan, i, d)
    requires forall j :: 0 <= j < i ==> outputs[j].Some?
    ensures |Gather(plan, outputs, deps)| == |deps|
    ensures forall k :: 0 <= k < |deps| ==>
              Some(Gather(plan, outputs, deps)[k]) == outputs[PositionOf(plan, i, deps[k])]
    decreases |deps|
  {
    if deps != [] {
      var n := |deps| - 1;
      var init, last := deps[..n], deps[n];
      forall d | d in init ensures ListedBefore(plan, i, d) {
        assert d in deps;
      }
      assert last in deps;
      GatherIsComplete(plan, outputs, i, init);
      OutputIsThere(plan, outputs, i, last);
      hide Ordered; hide ListedBefore; hide OutputFor; hide PositionOf; hide Known;
      forall k | 0 <= k < |deps|
        ensures Some(Gather(plan, outputs, deps)[k]) == outputs[PositionOf(plan, i, deps[k])]
      {
        if k < n {
          assert init[k] == deps[k];
          assert Gather(plan, outputs, deps)[k] == Gather(plan, outputs, init)[k];
        }
      }
    }
  }

  lemma OutputIsThere(plan: Plan, outputs: seq<Option<Output>>, i: nat, d: int)
    requires Ordered(plan) && |outputs| == |plan.steps| && i < |plan.steps| && ListedBefore(plan, i, d)
    requires forall j :: 0 <= j < i ==> outputs[j].Some?
    ensures OutputFor(plan, outputs, d) == outputs[PositionOf(plan, i, d)]
    ensures outputs[PositionOf(plan, i, d)].Some?
  {
    var j := PositionOf(plan, i, d);
    LastWithIdFound(plan.steps, Known(outputs), d, j);
  }

  /** One step started by the sequential loop: which, on what input, and the outputs at that moment. */
  datatype Start = Start(index: nat, input: Input, outputs: seq<Option<Output>>)

  /** Each start follows the completion of all earlier steps, and feeds in all dependencies in order. */
  ghost predicate SafeStart(plan: Plan, e: Start) {
    && e.index < |plan.steps| && |e.outputs| == |plan.steps|
    && e.outputs[e.index] == None
    && (forall j :: 0 <= j < e.index ==> e.outputs[j].Some?)
    && var deps := plan.steps[e.index].dependsOn;
       && (forall d :: d in deps ==> ListedBefore(plan, e.index, d))
       && (deps == [] ==> e.input == NoInput)
       && (|deps| == 1 ==> exists o :: e.input == Single(o) && Some(o) == e.outputs[PositionOf(plan, e.index, deps[0])])
       && (|deps| > 1 ==> e.input.Many? && |e.input.outputs| == |deps|
                          && forall k :: 0 <= k < |deps| ==>
                               Some(e.input.outputs[k]) == e.outputs[PositionOf(plan, e.index, deps[k])])
  }

  /** What the loop guarantees of a start for any plan at all. */
  ghost predicate StartRule(plan: Plan, e: Start) {
    && e.index < |plan.steps| && |e.outputs| == |plan.steps|
    && e.outputs[e.index] == None
    && (plan.abortOnFailure ==> forall j :: 0 <= j < e.index ==> e.outputs[j].Some?)
    && e.input == InputFor(plan, e.outputs, e.index)
  }

  /** For an ordered plan with the abort fallback the rule gives dependency safety. */
  lemma DependencySafety(plan: Plan, e: Start)
    requires Ordered(plan) && plan.abortOnFailure && StartRule(plan, e)
    ensures SafeStart(plan, e)
  {
    var deps := plan.steps[e.index].dependsOn;
    LastWithIdFound(plan.steps, All(|plan.steps|), plan.steps[e.index].stepId, e.index);
    GatherIsComplete(plan, e.outputs, e.index, deps);
    if |deps| == 1 {
      assert e.input == Single(Gather(plan, e.outputs, deps)[0]);
    }
  }

  // ----- ids as texts -----

  function Digits(n: nat): string {
    if n < 10 then ["0123456789"[n]] else Digits(n / 10) + ["0123456789"[n % 10]]
  }

  function Text(n: int): string {
    if n < 0 then "-" + Digits(-n) else Digits(n)
  }

  function DigitValue(c: char): int {
    c as int - '0' as int
  }

  function DigitsValue(s: string): int {
    if s == "" then 0 else 10 * DigitsValue(s[..|s| - 1]) + DigitValue(s[|s| - 1])
  }

  lemma {:induction false} DigitsRoundTrip(n: nat)
    ensures DigitsValue(Digits(n)) == n
    ensures Digits(n) != "" && Digits(n)[0] != '-'
  {
    if n >= 10 {
      DigitsRoundTrip(n / 10);
      assert Digits(n)[..|Digits(n)| - 1] == Digits(n / 10);
    }
  }

  function Value(s: string): int {
    if s != "" && s[0] == '-' then -DigitsValue(s[1..]) else DigitsValue(s)
  }

  /** Reading an id back from its text; so different ids have different texts. */
  lemma TextRoundTrip(n: int)
    ensures Value(Text(n)) == n
  {
    hide Digits; hide DigitsValue;
    DigitsRoundTrip(if n < 0 then -n else n);
    if n < 0 {
      assert ("-" + Digits(-n))[1..] == Digits(-n);
    }
  }

  // ----- the plan as a task graph -----

  /** The dependencies of a graph node; the falsy id 0 is dropped. */
  function NodeDeps(deps: seq<int>): seq<string> {
    if deps == [] then []
    else NodeDeps(deps[..|deps| - 1]) + if deps[|deps| - 1] == 0 then [] else [Text(deps[|deps| - 1])]
  }

  lemma {:induction false} NodeDepsHas(deps: seq<int>, t: string)
    ensures t in NodeDeps(deps) <==> exists d :: d in deps && d != 0 && Text(d) == t
  {
    if deps != [] {
      var n := |deps| - 1;
      NodeDepsHas(deps[..n], t);
      assert deps == deps[..n] + [deps[n]];
    }
  }

  /** The step is the last one with its id, the one a dictionary by id keeps. */
  ghost predicate IsLast(plan: Plan, i: int) {
    0 <= i < |plan.steps| && forall j :: i < j < |plan.steps| ==> plan.steps[j].stepId != plan.steps[i].stepId
  }

  ghost predicate IsStep(plan: Plan, id: int) {
    exists i :: IsLast(plan, i) && plan.steps[i].stepId == id
  }

  /** The step with id a lists b among its dependencies. */
  ghost predicate Lists(plan: Plan, a: int, b: int) {
    exists i :: IsLast(plan, i) && plan.steps[i].stepId == a && b in plan.steps[i].dependsOn
  }

  /** A cycle of the plan itself: c[0] depends on c[1], and so on, back to c[0]. */
  ghost predicate PlanCycle(plan: Plan, c: seq<int>) {
    && |c| > 1 && c[0] == c[|c| - 1]
    && forall i, j :: 0 <= i < j < |c| && j == i + 1 ==> Lists(plan, c[i], c[j])
  }

  /** What the factory asks of a plan: references are known, except to 0, and every cycle runs through step 0. */
  ghost predicate Acceptable(plan: Plan) {
    && (forall a, b :: Lists(plan, a, b) && b != 0 ==> IsStep(plan, b))
    && (forall c :: PlanCycle(plan, c) ==> 0 in c)
  }

  /** The relation of the graph built from a plan. */
  ghost predicate IsGraphOf(plan: Plan, deps: D.Deps) {
    && (forall t :: t in deps ==> IsStep(plan, Value(t)) && Text(Value(t)) == t)
    && (forall i :: IsLast(plan, i) ==>
          var t := Text(plan.steps[i].stepId);
          t in deps && deps[t] == NodeDeps(plan.steps[i].dependsOn))
  }

  lemma GraphLink(plan: Plan, deps: D.Deps, a: int, t: string)
    requires IsGraphOf(plan, deps) && Text(a) in deps
    ensures t in deps[Text(a)] <==> exists b :: Lists(plan, a, b) && b != 0 && Text(b) == t
  {
    TextRoundTrip(a);
    var i :| IsLast(plan, i) && plan.steps[i].stepId == a;
    NodeDepsHas(plan.steps[i].dependsOn, t);
    forall b ensures Lists(plan, a, b) <==> b in plan.steps[i].dependsOn {
      OneLast(plan, i, a, b);
    }
  }

  lemma OneLast(plan: Plan, i: int, a: int, b: int)
    requires IsLast(plan, i) && plan.steps[i].stepId == a
    ensures Lists(plan, a, b) <==> b in plan.steps[i].dependsOn
  {
    if Lists(plan, a, b) {
      var j :| IsLast(plan, j) && plan.steps[j].stepId == a && b in plan.steps[j].dependsOn;
      assert j == i;
    }
  }

  /** A chain of the graph, read back, is a chain of the plan whose later members are not 0. */
  lemma ChainBack(plan: Plan, deps: D.Deps, c: seq<D.Id>, i: nat)
    requires IsGraphOf(plan, deps) && D.Chain(deps, c) && i + 1 < |c|
    ensures Lists(plan, Value(c[i]), Value(c[i + 1])) && Value(c[i + 1]) != 0
  {
    assert c[i + 1] in deps[c[i]];
    GraphLink(plan, deps, Value(c[i]), c[i + 1]);
    var b :| Lists(plan, Value(c[i]), b) && b != 0 && Text(b) == c[i + 1];
    TextRoundTrip(b);
  }

  lemma CycleBack(plan: Plan, deps: D.Deps, n: D.Id)
    requires IsGraphOf(plan, deps) && D.OnCycle(deps, n)
    ensures exists c :: PlanCycle(plan, c) && 0 !in c
  {
    var c :| D.ChainBetween(deps, n, n, c) && |c| > 1;
    var d := seq(|c|, i requires 0 <= i < |c| => Value(c[i]));
    CycleOfValues(plan, deps, c, d);
  }

  lemma CycleOfValues(plan: Plan, deps: D.Deps, c: seq<D.Id>, d: seq<int>)
    requires IsGraphOf(plan, deps) && D.Chain(deps, c) && |c| > 1 && c[0] == c[|c| - 1]
    requires |d| == |c| && forall i :: 0 <= i < |c| ==> d[i] == Value(c[i])
    ensures PlanCycle(plan, d) && 0 !in d
  {
    hide Value; hide Lists; hide IsGraphOf; hide D.Chain;
    forall i, j | 0 <= i < j < |d| && j == i + 1 ensures Lists(plan, d[i], d[j]) && d[j] != 0 {
      ChainBack(plan, deps, c, i);
    }
    forall i | 0 <= i < |d| ensures d[i] != 0 {
      ChainBack(plan, deps, c, if i > 0 then i - 1 else |c| - 2);
    }
  }

  lemma CycleForth(plan: Plan, deps: D.Deps, c: seq<int>)
    requires IsGraphOf(plan, deps) && PlanCycle(plan, c) && 0 !in c
    ensures exists n :: n in deps && D.OnCycle(deps, n)
  {
    var t := seq(|c|, i requires 0 <= i < |c| => Text(c[i]));
    CycleOfTexts(plan, deps, c, t);
    assert D.ChainBetween(deps, t[0], t[0], t);
    assert D.OnCycle(deps, t[0]);
  }

  lemma CycleOfTexts(plan: Plan, deps: D.Deps, c: seq<int>, t: seq<D.Id>)
    requires IsGraphOf(plan, deps) && PlanCycle(plan, c) && 0 !in c
    requires |t| == |c| && forall i :: 0 <= i < |c| ==> t[i] == Text(c[i])
    ensures D.Chain(deps, t) && t[0] == t[|t| - 1]
  {
    hide Lists; hide Text; hide IsGraphOf; hide IsStep;
    forall i | 0 <= i < |t| ensures t[i] in deps {
      CycleMember(plan, c, i);
      InGraph(plan, deps, c[i]);
    }
    forall i, j | 0 <= i < j < |t| && j == i + 1 ensures t[j] in deps[t[i]] {
      GraphLink(plan, deps, c[i], t[j]);
      assert Lists(plan, c[i], c[j]) && c[j] != 0;
    }
  }

  lemma CycleMember(plan: Plan, c: seq<int>, i: nat)
    requires PlanCycle(plan, c) && i < |c|
    ensures IsStep(plan, c[i])
  {
    assert Lists(plan, c[0], c[1]);
    if 0 < i < |c| - 1 {
      assert Lists(plan, c[i], c[i + 1]);
    }
  }

  lemma InGraph(plan: Plan, deps: D.Deps, id: int)
    requires IsGraphOf(plan, deps)
    ensures Text(id) in deps <==> IsStep(plan, id)
  {
    TextRoundTrip(id);
  }

  /** The graph of a plan is accepted exactly when the plan is acceptable. */
  lemma AcceptedIffAcceptable(plan: Plan, deps: D.Deps)
    requires IsGraphOf(plan, deps)
    ensures D.Closed(deps) && D.Acyclic(deps) <==> Acceptable(plan)
  {
    hide Text; hide Value; hide D.OnCycle;
    if Acceptable(plan) {
      forall n, t | n in deps && t in deps[n] ensures t in deps {
        GraphLink(plan, deps, Value(n), t);
        var b :| Lists(plan, Value(n), b) && b != 0 && Text(b) == t;
        InGraph(plan, deps, b);
      }
      forall n | n in deps ensures !D.OnCycle(deps, n) {
        if D.OnCycle(deps, n) {
          CycleBack(plan, deps, n);
        }
      }
    }
    if D.Closed(deps) && D.Acyclic(deps) {
      forall a, b | Lists(plan, a, b) && b != 0 ensures IsStep(plan, b) {
        InGraph(plan, deps, a);
        GraphLink(plan, deps, a, Text(b));
        InGraph(plan, deps, b);
      }
      forall c | PlanCycle(plan, c) ensures 0 in c {
        if 0 !in c {
          CycleForth(plan, deps, c);
        }
      }
    }
  }

  /** Two steps that wait for each other make an acceptable plan, if one of them is step 0. */
  lemma ZeroCycleAccepted()
    ensures var plan := Plan([PlanStep(0, "worker", "a", [1]), PlanStep(1, "worker", "b", [0])], true);
            PlanCycle(plan, [0, 1, 0]) && Acceptable(plan)
  {
    var plan := Plan([PlanStep(0, "worker", "a", [1]), PlanStep(1, "worker", "b", [0])], true);
    assert IsLast(plan, 0) && IsLast(plan, 1);
    assert Lists(plan, 0, 1) && Lists(plan, 1, 0);
    assert IsStep(plan, 1);
    forall a, b | Lists(plan, a, b) ensures (a == 0 && b == 1) || (a == 1 && b == 0) {
    }
    forall c | PlanCycle(plan, c) ensures 0 in c {
      assert Lists(plan, c[0], c[1]);
    }
  }

  method PlanNodes(plan: Plan) returns (list: seq<TG.TaskNode<string, Output>>)
    ensures fresh(list) && NodesOf(plan, list)
    ensures forall i :: 0 <= i < |list| ==> list[i].task == plan.steps[i].action
  {
    hide Text; hide NodeDeps;
    list := [];
    for i := 0 to |plan.steps|
      invariant |list| == i && fresh(list)
      invariant forall j :: 0 <= j < i ==>
                  list[j].nodeId == Text(plan.steps[j].stepId) && list[j].task == plan.steps[j].action
                  && list[j].dependsOn == NodeDeps(plan.steps[j].dependsOn)
    {
      var step := plan.steps[i];
      var node := new TG.TaskNode<string, Output>(Text(step.stepId), step.action, NodeDeps(step.dependsOn));
      list := list + [node];
    }
  }

  /** The nodes of the list are those of the plan's steps. */
  ghost predicate NodesOf(plan: Plan, list: seq<TG.TaskNode<string, Output>>) {
    |list| == |plan.steps| && forall i :: 0 <= i < |list| ==>
      list[i].nodeId == Text(plan.steps[i].stepId) && list[i].dependsOn == NodeDeps(plan.steps[i].dependsOn)
  }

  lemma LastNodeIsLastStep(plan: Plan, list: seq<TG.TaskNode<string, Output>>, t: D.Id, i: int)
    requires NodesOf(plan, list) && TG.LastAt(list, t, i)
    ensures IsLast(plan, i) && t == Text(plan.steps[i].stepId) && Value(t) == plan.steps[i].stepId
    ensures list[i].dependsOn == NodeDeps(plan.steps[i].dependsOn)
  {
    hide Text; hide NodeDeps; hide Value;
    TextRoundTrip(plan.steps[i].stepId);
    forall j | i < j < |plan.steps| ensures plan.steps[j].stepId != plan.steps[i].stepId {
      assert list[j].nodeId == Text(plan.steps[j].stepId);
    }
  }

  lemma KeyIsStep(
    plan: Plan, list: seq<TG.TaskNode<string, Output>>, order: seq<D.Id>, nodes: TG.NodeMap<string, Output>, t: D.Id)
    requires NodesOf(plan, list) && TG.IsDictionary(list, order, nodes) && t in nodes
    ensures IsStep(plan, Value(t)) && Text(Value(t)) == t
  {
    hide NodesOf; hide IsLast; hide Text; hide Value;
    var i :| TG.LastAt(list, t, i) && nodes[t] == list[i];
    LastNodeIsLastStep(plan, list, t, i);
  }

  lemma LastStepIsKept(
    plan: Plan, list: seq<TG.TaskNode<string, Output>>, order: seq<D.Id>, nodes: TG.NodeMap<string, Output>, i: int)
    requires NodesOf(plan, list) && TG.IsDictionary(list, order, nodes) && IsLast(plan, i)
    ensures var t := Text(plan.steps[i].stepId);
            t in nodes && nodes[t].dependsOn == NodeDeps(plan.steps[i].dependsOn)
  {
    hide Text; hide Value; hide NodeDeps;
    var t := Text(plan.steps[i].stepId);
    assert TG.Ids(list)[i] == t;
    assert t in TG.Ids(list) && t in order && t in nodes;
    var k :| TG.LastAt(list, t, k) && nodes[t] == list[k];
    LastNodeIsLastStep(plan, list, t, k);
    TextRoundTrip(plan.steps[i].stepId);
    assert k == i;
  }

  lemma DictionaryIsGraph(
    plan: Plan, list: seq<TG.TaskNode<string, Output>>, order: seq<D.Id>, nodes: TG.NodeMap<string, Output>)
    requires NodesOf(plan, list) && TG.IsDictionary(list, order, nodes)
    ensures IsGraphOf(plan, TG.DepsOf(nodes))
  {
    hide NodesOf; hide TG.IsDictionary; hide Text; hide Value; hide NodeDeps; hide IsStep;
    var deps := TG.DepsOf(nodes);
    forall t | t in deps ensures IsStep(plan, Value(t)) && Text(Value(t)) == t {
      KeyIsStep(plan, list, order, nodes, t);
    }
    forall i | IsLast(plan, i)
      ensures Text(plan.steps[i].stepId) in deps
      ensures deps[Text(plan.steps[i].stepId)] == NodeDeps(plan.steps[i].dependsOn)
    {
      LastStepIsKept(plan, list, order, nodes, i);
    }
  }

  /** The plan's graph, or the reason why there is none. */
  method BuildGraphFromPlan(plan: Plan)
    returns (r: Result<TG.TaskGraph<string, Output>, TG.GraphError>, ghost g: TG.TaskGraph<string, Output>)
    ensures fresh(g) && IsGraphOf(plan, TG.DepsOf(g.nodes))
    ensures r.Ok? <==> Acceptable(plan)
    ensures r.Ok? ==> r.value == g
    ensures r.Err? && !D.Closed(TG.DepsOf(g.nodes)) ==> r.error.UnknownDependency?
    ensures r.Err? && D.Closed(TG.DepsOf(g.nodes)) ==> r.error.CycleDetected?
  {
    hide *;
    var list := PlanNodes(plan);
    var built;
    r, built := TG.TaskGraph<string, Output>.Build(list);
    g := built;
    DictionaryIsGraph(plan, list, g.order, g.nodes);
    AcceptedIffAcceptable(plan, TG.DepsOf(g.nodes));
  }

  /** The ids of the steps without dependencies. */
  function RootIds(plan: Plan): set<string> {
    set i | 0 <= i < |plan.steps| && plan.steps[i].dependsOn == [] :: Text(plan.steps[i].stepId)
  }
}
