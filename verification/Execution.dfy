/**
  What a run of a task graph returns, defined without levels, concurrency or order: a result
  map explains itself when every entry follows from the entries of the node's dependencies.
*/
module Execution {
  import opened Wrappers
  import opened Slices
  import opened Dependencies

  /** What awaiting the dispatcher for one node gives: a value, or an exception's text. */
  datatype Outcome<+V> = Returned(value: V) | Raised(error: string)

  datatype Status = Complete | Failed | Skipped

  datatype NodeResult<+V> = NodeResult(
    nodeId: Id, status: Status, value: Option<V>, error: Option<string>, dependencyErrors: seq<string>)
  {
    predicate Succeeded() {
      status == Complete
    }

    function ErrorText(): string {
      if error.Some? && error.value != "" then error.value
      else match status case Complete => "complete" case Failed => "failed" case Skipped => "skipped"
    }
  }

  type Results<V> = map<Id, NodeResult<V>>

  function DependencyError<V>(d: Id, results: Results<V>): seq<string> {
    if d in results && !results[d].Succeeded()
    then ["dep '" + d + "' failed: " + results[d].ErrorText()]
    else []
  }

  /** One message for each listed dependency that did not complete, in listed order. */
  function DependencyErrors<V>(ds: seq<Id>, results: Results<V>): seq<string> {
    if ds == [] then []
    else DependencyErrors(ds[..|ds| - 1], results) + DependencyError(ds[|ds| - 1], results)
  }

  function SkippedResult<V>(n: Id, errors: seq<string>): NodeResult<V> {
    NodeResult(n, Skipped, None, Some("Skipped due to dependency failure(s)"), errors)
  }

  function RunOne<V>(n: Id, outcome: Outcome<V>): NodeResult<V> {
    match outcome
    case Returned(value) => NodeResult(n, Complete, Some(value), None, [])
    case Raised(error) => NodeResult(n, Failed, None, Some(error), [])
  }

  /** The result of a node whose dependencies already have theirs. */
  function ResultOf<V>(n: Id, ds: seq<Id>, outcome: Outcome<V>, skip: bool, results: Results<V>): NodeResult<V> {
    var errors := DependencyErrors(ds, results);
    if errors != [] && skip then SkippedResult(n, errors) else RunOne(n, outcome)
  }

  type Outcomes<V> = map<Id, Outcome<V>>

  /** The entry of n follows from the entries of its dependencies. */
  ghost predicate Justified<V>(deps: Deps, outcomes: Outcomes<V>, skip: bool, results: Results<V>, n: Id)
    requires n in deps && n in outcomes
  {
    n in results && results[n] == ResultOf(n, deps[n], outcomes[n], skip, results)
  }

  ghost predicate Explains<V>(deps: Deps, outcomes: Outcomes<V>, skip: bool, results: Results<V>)
    requires deps.Keys == outcomes.Keys
  {
    && results.Keys == deps.Keys
    && forall n {:trigger Justified(deps, outcomes, skip, results, n)} ::
         n in deps ==> Justified(deps, outcomes, skip, results, n)
  }

  /** The same, for a map that so far covers only part of the graph. */
  ghost predicate ExplainsPart<V>(deps: Deps, outcomes: Outcomes<V>, skip: bool, results: Results<V>)
    requires deps.Keys == outcomes.Keys
  {
    && results.Keys <= deps.Keys
    && (forall n, d :: n in results && d in deps[n] ==> d in results)
    && forall n {:trigger Justified(deps, outcomes, skip, results, n)} ::
         n in results ==> Justified(deps, outcomes, skip, results, n)
  }

  lemma ErrorsAreLocal<V>(ds: seq<Id>, r1: Results<V>, r2: Results<V>)
    requires forall d :: d in ds ==> d in r1 && d in r2 && r1[d] == r2[d]
    ensures DependencyErrors(ds, r1) == DependencyErrors(ds, r2)
  {
  }

  /** One message for each listed dependency that failed or was skipped, in listed order, with its error. */
  lemma {:induction false} OneMessageEach<V>(ds: seq<Id>, results: Results<V>)
    ensures DependencyErrors(ds, results) ==
            Mapped(Filtered(ds, d => d in results && results[d].status != Complete),
                   d => "dep '" + d + "' failed: "
                        + if d !in results then ""
                          else if results[d].error.Some? && results[d].error.value != "" then results[d].error.value
                          else if results[d].status == Failed then "failed" else "skipped")
  {
    if ds != [] {
      OneMessageEach(ds[..|ds| - 1], results);
    }
  }

  /** There are errors exactly when some listed dependency did not complete. */
  lemma ErrorsMeanFailure<V>(ds: seq<Id>, results: Results<V>)
    ensures DependencyErrors(ds, results) != [] <==>
            exists d :: d in ds && d in results && !results[d].Succeeded()
  {
    if ds != [] {
      ErrorsMeanFailure(ds[..|ds| - 1], results);
      assert ds == ds[..|ds| - 1] + [ds[|ds| - 1]];
    }
  }

  lemma {:induction false} AgreeWhenSettled<V>(
    deps: Deps, outcomes: Outcomes<V>, skip: bool, r1: Results<V>, r2: Results<V>, k: nat, n: Id)
    requires deps.Keys == outcomes.Keys && Closed(deps)
    requires Explains(deps, outcomes, skip, r1) && Explains(deps, outcomes, skip, r2)
    requires n in Settled(deps, k)
    ensures r1[n] == r2[n]
    decreases k
  {
    SettledBelow(deps, n, k);
    forall d | d in deps[n] ensures d in r1 && d in r2 && r1[d] == r2[d] {
      AgreeWhenSettled(deps, outcomes, skip, r1, r2, k - 1, d);
    }
    ErrorsAreLocal(deps[n], r1, r2);
    assert Justified(deps, outcomes, skip, r1, n) && Justified(deps, outcomes, skip, r2, n);
  }

  /** Results computed from an explained part, for nodes that only need that part, extend it. */
  lemma {:induction false} ExtendPart<V>(
    deps: Deps, outcomes: Outcomes<V>, skip: bool, base: Results<V>, more: Results<V>)
    requires deps.Keys == outcomes.Keys && ExplainsPart(deps, outcomes, skip, base)
    requires more.Keys <= deps.Keys && base.Keys !! more.Keys
    requires forall n, d :: n in more && d in deps[n] ==> d in base
    requires forall n :: n in more ==> more[n] == ResultOf(n, deps[n], outcomes[n], skip, base)
    ensures ExplainsPart(deps, outcomes, skip, base + more)
  {
    hide DependencyErrors;
    var all := base + more;
    forall n | n in all ensures Justified(deps, outcomes, skip, all, n) {
      assert n in base ==> Justified(deps, outcomes, skip, base, n);
      assert forall d :: d in deps[n] ==> d in base && all[d] == base[d];
      ErrorsAreLocal(deps[n], base, all);
    }
  }

  /** Confluence: on an acyclic graph the outcomes alone determine the whole result map. */
  lemma {:induction false} ResultsAreUnique<V>(
    deps: Deps, outcomes: Outcomes<V>, skip: bool, r1: Results<V>, r2: Results<V>)
    requires deps.Keys == outcomes.Keys && Closed(deps) && Acyclic(deps)
    requires Explains(deps, outcomes, skip, r1) && Explains(deps, outcomes, skip, r2)
    ensures r1 == r2
  {
    AcyclicSettles(deps);
    forall n | n in deps ensures r1[n] == r2[n] {
      AgreeWhenSettled(deps, outcomes, skip, r1, r2, |deps.Keys|, n);
    }
  }

  /** Run the nodes one at a time, in the given order. */
  function RunInOrder<V>(deps: Deps, outcomes: Outcomes<V>, skip: bool, order: seq<Id>): Results<V>
    requires forall n :: n in order ==> n in deps && n in outcomes
  {
    if order == [] then map[]
    else
      var n := order[|order| - 1];
      var before := RunInOrder(deps, outcomes, skip, order[..|order| - 1]);
      before[n := ResultOf(n, deps[n], outcomes[n], skip, before)]
  }

  lemma {:induction false} RunInOrderStep<V>(deps: Deps, outcomes: Outcomes<V>, skip: bool, order: seq<Id>, k: nat)
    requires deps.Keys == outcomes.Keys && TopologicalOrder(deps, order) && k <= |order|
    ensures forall n :: n in order[..k] ==> n in deps
    ensures var results := RunInOrder(deps, outcomes, skip, order[..k]);
            && (forall n :: n in results <==> n in order[..k])
            && ExplainsPart(deps, outcomes, skip, results)
  {
    hide *;
    if k == 0 {
      RunNothing(deps, outcomes, skip, order);
    } else {
      RunInOrderStep(deps, outcomes, skip, order, k - 1);
      OrderFacts(deps, order, k - 1);
      RunOneMore(deps, outcomes, skip, order[..k - 1], order[k - 1]);
    }
  }

  lemma RunNothing<V>(deps: Deps, outcomes: Outcomes<V>, skip: bool, order: seq<Id>)
    requires deps.Keys == outcomes.Keys
    ensures var results := RunInOrder(deps, outcomes, skip, order[..0]);
            results == map[] && ExplainsPart(deps, outcomes, skip, results)
  {
  }

  lemma OrderFacts(deps: Deps, order: seq<Id>, i: nat)
    requires TopologicalOrder(deps, order) && i < |order|
    ensures order[i] in deps && order[i] !in order[..i]
    ensures forall n :: n in order[..i] ==> n in deps
    ensures forall d :: d in deps[order[i]] ==> d in order[..i]
    ensures order[..i + 1] == order[..i] + [order[i]]
  {
  }

  lemma RunOneMore<V>(deps: Deps, outcomes: Outcomes<V>, skip: bool, order: seq<Id>, last: Id)
    requires deps.Keys == outcomes.Keys && last in deps && (forall n :: n in order ==> n in deps)
    requires var before := RunInOrder(deps, outcomes, skip, order);
             && (forall n :: n in before <==> n in order) && ExplainsPart(deps, outcomes, skip, before)
    requires last !in order && forall d :: d in deps[last] ==> d in order
    ensures var results := RunInOrder(deps, outcomes, skip, order + [last]);
            && (forall n :: n in results <==> n in order + [last])
            && ExplainsPart(deps, outcomes, skip, results)
  {
    var before := RunInOrder(deps, outcomes, skip, order);
    assert (order + [last])[..|order|] == order;
    hide ExplainsPart; hide DependencyErrors;
    var r := ResultOf(last, deps[last], outcomes[last], skip, before);
    assert RunInOrder(deps, outcomes, skip, order + [last]) == before[last := r] == before + map[last := r];
    hide RunInOrder; hide ResultOf;
    ExtendPart(deps, outcomes, skip, before, map[last := r]);
  }

  /** Running one node at a time, in any topological order, explains itself too. */
  lemma SequentialExplains<V>(deps: Deps, outcomes: Outcomes<V>, skip: bool, order: seq<Id>)
    requires deps.Keys == outcomes.Keys && TopologicalOrder(deps, order)
    ensures Explains(deps, outcomes, skip, RunInOrder(deps, outcomes, skip, order))
  {
    RunInOrderStep(deps, outcomes, skip, order, |order|);
    assert order[..|order|] == order;
    hide RunInOrder; hide ResultOf;
  }

  /** Every self-explaining result map is the one a sequential run computes. */
  lemma {:induction false} SequentialIsTheResult<V>(
    deps: Deps, outcomes: Outcomes<V>, skip: bool, order: seq<Id>, results: Results<V>)
    requires deps.Keys == outcomes.Keys && Closed(deps) && Acyclic(deps)
    requires TopologicalOrder(deps, order) && Explains(deps, outcomes, skip, results)
    ensures results == RunInOrder(deps, outcomes, skip, order)
  {
    SequentialExplains(deps, outcomes, skip, order);
    ResultsAreUnique(deps, outcomes, skip, results, RunInOrder(deps, outcomes, skip, order));
  }

  /** Some node that n depends on, directly or not, has a dispatcher that raises. */
  ghost predicate FailsUpstream<V>(deps: Deps, outcomes: Outcomes<V>, n: Id) {
    exists m :: m in outcomes && outcomes[m].Raised? && DependsOn(deps, n, m)
  }

  lemma FailsUpstreamStep<V>(deps: Deps, outcomes: Outcomes<V>, n: Id)
    requires deps.Keys == outcomes.Keys && Closed(deps) && n in deps
    ensures FailsUpstream(deps, outcomes, n) <==>
            exists d :: d in deps[n] && (outcomes[d].Raised? || FailsUpstream(deps, outcomes, d))
  {
    if FailsUpstream(deps, outcomes, n) {
      var m :| m in outcomes && outcomes[m].Raised? && DependsOn(deps, n, m);
      var c :| ChainBetween(deps, n, m, c) && |c| > 1;
      assert c[1] in deps[c[0]];
      if |c| > 2 {
        assert ChainBetween(deps, c[1], m, c[1..]);
        assert DependsOn(deps, c[1], m);
      }
    }
    if d :| d in deps[n] && (outcomes[d].Raised? || FailsUpstream(deps, outcomes, d)) {
      if outcomes[d].Raised? {
        assert ChainBetween(deps, n, d, [n, d]);
        assert DependsOn(deps, n, d);
      } else {
        var m :| m in outcomes && outcomes[m].Raised? && DependsOn(deps, d, m);
        var c :| ChainBetween(deps, d, m, c) && |c| > 1;
        assert ChainBetween(deps, n, m, [n] + c);
        assert DependsOn(deps, n, m);
      }
    }
  }

  /** The status a node must end with, said by its transitive dependencies alone. */
  ghost function ExpectedStatus<V>(deps: Deps, outcomes: Outcomes<V>, skip: bool, n: Id): Status
    requires n in outcomes
  {
    if skip && FailsUpstream(deps, outcomes, n) then Skipped
    else if outcomes[n].Raised? then Failed
    else Complete
  }

  lemma {:induction false} StatusStep<V>(
    deps: Deps, outcomes: Outcomes<V>, skip: bool, results: Results<V>, n: Id)
    requires deps.Keys == outcomes.Keys && Closed(deps) && Explains(deps, outcomes, skip, results)
    requires n in deps
    requires forall d :: d in deps[n] ==> results[d].status == ExpectedStatus(deps, outcomes, skip, d)
    ensures results[n].status == ExpectedStatus(deps, outcomes, skip, n)
  {
    FailsUpstreamStep(deps, outcomes, n);
    ErrorsMeanFailure(deps[n], results);
    assert Justified(deps, outcomes, skip, results, n);
    if skip {
      assert forall d :: d in deps[n] ==>
        (!results[d].Succeeded() <==> outcomes[d].Raised? || FailsUpstream(deps, outcomes, d));
    }
  }

  lemma {:induction false} StatusWhenSettled<V>(
    deps: Deps, outcomes: Outcomes<V>, skip: bool, results: Results<V>, k: nat, n: Id)
    requires deps.Keys == outcomes.Keys && Closed(deps) && Explains(deps, outcomes, skip, results)
    requires n in Settled(deps, k)
    ensures results[n].status == ExpectedStatus(deps, outcomes, skip, n)
    decreases k
  {
    SettledBelow(deps, n, k);
    forall d | d in deps[n] ensures results[d].status == ExpectedStatus(deps, outcomes, skip, d) {
      StatusWhenSettled(deps, outcomes, skip, results, k - 1, d);
    }
    StatusStep(deps, outcomes, skip, results, n);
  }

  /**
    A node is skipped exactly when something upstream fails, failed exactly when only its own
    dispatcher does, and complete, with the dispatcher's value, exactly when neither does.
  */
  lemma {:induction false} StatusTheorem<V>(
    deps: Deps, outcomes: Outcomes<V>, skip: bool, results: Results<V>, n: Id)
    requires deps.Keys == outcomes.Keys && Closed(deps) && Acyclic(deps) && n in deps
    requires Explains(deps, outcomes, skip, results)
    ensures results[n].nodeId == n
    ensures results[n].status == Skipped <==> skip && FailsUpstream(deps, outcomes, n)
    ensures results[n].status == Failed <==>
            !(skip && FailsUpstream(deps, outcomes, n)) && outcomes[n].Raised?
    ensures results[n].status == Complete <==>
            !(skip && FailsUpstream(deps, outcomes, n)) && outcomes[n].Returned?
    ensures results[n].status == Complete ==> results[n].value == Some(outcomes[n].value)
    ensures results[n].status == Failed ==> results[n].error == Some(outcomes[n].error)
    ensures results[n].status == Complete ==> results[n].error == None
    ensures results[n].status == Failed ==> results[n].value == None
    ensures results[n].status == Skipped ==>
              results[n].value == None && results[n].error == Some("Skipped due to dependency failure(s)")
              && results[n].dependencyErrors == DependencyErrors(deps[n], results)
    ensures results[n].dependencyErrors != [] <==> results[n].status == Skipped
  {
    AcyclicSettles(deps);
    StatusWhenSettled(deps, outcomes, skip, results, |deps.Keys|, n);
    assert Justified(deps, outcomes, skip, results, n);
  }

  /** The counts and error texts reported about a result map. */
  datatype Summary = Summary(
    total: nat, completed: nat, failed: nat, skipped: nat, success: bool, errors: map<Id, Option<string>>)

  function WithStatus<V>(results: Results<V>, status: Status): set<Id> {
    set n | n in results && results[n].status == status
  }

  function Summarize<V>(results: Results<V>): Summary {
    var failed := WithStatus(results, Failed);
    var skipped := WithStatus(results, Skipped);
    Summary(|results|, |WithStatus(results, Complete)|, |failed|, |skipped|, |failed| == 0 && |skipped| == 0,
            map n | n in failed :: results[n].error)
  }

  lemma SummaryAddsUp<V>(results: Results<V>)
    ensures var s := Summarize(results);
            && s.completed + s.failed + s.skipped == s.total
            && (s.success <==> s.completed == s.total)
  {
    var done, failed, skipped :=
      WithStatus(results, Complete), WithStatus(results, Failed), WithStatus(results, Skipped);
    assert results.Keys == done + failed + skipped;
    assert |done + failed| == |done| + |failed|;
    assert |done + failed + skipped| == |done + failed| + |skipped|;
  }

  /** The nodes expected to end with a status, by their transitive dependencies alone. */
  ghost function Expected<V>(deps: Deps, outcomes: Outcomes<V>, skip: bool, status: Status): set<Id>
    requires deps.Keys == outcomes.Keys
  {
    set n | n in deps && ExpectedStatus(deps, outcomes, skip, n) == status
  }

  /** Each count of the summary is the number of nodes expected to end that way. */
  lemma {:induction false} SummaryCounts<V>(deps: Deps, outcomes: Outcomes<V>, skip: bool, results: Results<V>)
    requires deps.Keys == outcomes.Keys && Closed(deps) && Acyclic(deps)
    requires Explains(deps, outcomes, skip, results)
    ensures var s := Summarize(results);
            && s.total == |deps|
            && s.completed == |Expected(deps, outcomes, skip, Complete)|
            && s.failed == |Expected(deps, outcomes, skip, Failed)|
            && s.skipped == |Expected(deps, outcomes, skip, Skipped)|
            && s.errors.Keys == Expected(deps, outcomes, skip, Failed)
            && forall n :: n in s.errors ==> s.errors[n] == Some(outcomes[n].error)
  {
    hide Explains; hide Closed; hide Acyclic; hide FailsUpstream;
    ExplainsKeys(deps, outcomes, skip, results);
    forall n | n in deps
      ensures results[n].status == ExpectedStatus(deps, outcomes, skip, n)
      ensures results[n].status == Failed ==> results[n].error == Some(outcomes[n].error)
    {
      StatusTheorem(deps, outcomes, skip, results, n);
    }
    assert |results.Keys| == |deps.Keys|;
    assert WithStatus(results, Complete) == Expected(deps, outcomes, skip, Complete);
    assert WithStatus(results, Failed) == Expected(deps, outcomes, skip, Failed);
    assert WithStatus(results, Skipped) == Expected(deps, outcomes, skip, Skipped);
  }

  lemma SuccessMeansAllComplete<V>(results: Results<V>)
    ensures Summarize(results).success <==> forall n :: n in results ==> results[n].status == Complete
  {
    if Summarize(results).success {
      forall n | n in results ensures results[n].status == Complete {
        assert n !in WithStatus(results, Failed) && n !in WithStatus(results, Skipped);
      }
    } else {
      var n :| n in WithStatus(results, Failed) + WithStatus(results, Skipped);
    }
  }

  /** A run is reported as a success exactly when no dispatcher raises, whatever the skip flag. */
  lemma SuccessMeansNothingRaised<V>(deps: Deps, outcomes: Outcomes<V>, skip: bool, results: Results<V>)
    requires deps.Keys == outcomes.Keys && Closed(deps) && Acyclic(deps)
    requires Explains(deps, outcomes, skip, results)
    ensures Summarize(results).success <==> forall n :: n in deps ==> outcomes[n].Returned?
  {
    hide Explains; hide Closed; hide Acyclic; hide Summarize;
    ExplainsKeys(deps, outcomes, skip, results);
    SuccessMeansAllComplete(results);
    forall n | n in deps
      ensures results[n].status == Complete <==> !(skip && FailsUpstream(deps, outcomes, n)) && outcomes[n].Returned?
    {
      StatusTheorem(deps, outcomes, skip, results, n);
    }
  }

  lemma ExplainsKeys<V>(deps: Deps, outcomes: Outcomes<V>, skip: bool, results: Results<V>)
    requires deps.Keys == outcomes.Keys && Explains(deps, outcomes, skip, results)
    ensures results.Keys == deps.Keys
  {
  }
}
