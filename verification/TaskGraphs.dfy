/**
  The asynchronous DAG executor: construction with its two refusals, and execution level by
  level with the calls of one level interleaved in any way at all.
*/
module TaskGraphs {
  import opened Wrappers
  import opened Dependencies
  import opened Execution
  import opened Kahn
  import opened Levels

  class TaskNode<T, V> {
    const nodeId: Id
    const task: T
    const dependsOn: seq<Id>
    var result: Option<NodeResult<V>>

    constructor (nodeId: Id, task: T, dependsOn: seq<Id>)
      ensures this.nodeId == nodeId && this.task == task && this.dependsOn == dependsOn && result == None
    {
      this.nodeId, this.task, this.dependsOn, this.result := nodeId, task, dependsOn, None;
    }
  }

  datatype GraphError = UnknownDependency(node: Id, dependency: Id) | CycleDetected(stuck: seq<Id>)

  type NodeMap<T, V> = map<Id, TaskNode<T, V>>

  function DepsOf<T, V>(nodes: NodeMap<T, V>): Deps {
    map n | n in nodes :: nodes[n].dependsOn
  }

  function Ids<T, V>(list: seq<TaskNode<T, V>>): seq<Id> {
    seq(|list|, i requires 0 <= i < |list| => list[i].nodeId)
  }

  ghost predicate LastAt<T, V>(list: seq<TaskNode<T, V>>, n: Id, i: int) {
    0 <= i < |list| && list[i].nodeId == n && forall j :: i < j < |list| ==> list[j].nodeId != n
  }

  /** The dictionary built from a list: distinct ids in order of first appearance, last node wins. */
  ghost predicate IsDictionary<T, V>(list: seq<TaskNode<T, V>>, order: seq<Id>, nodes: NodeMap<T, V>) {
    && order == FirstSeen(Ids(list))
    && (forall n :: n in nodes <==> n in order)
    && (forall n :: n in nodes ==> exists i :: LastAt(list, n, i) && nodes[n] == list[i])
  }

  function FirstSeen(ids: seq<Id>): (r: seq<Id>)
    ensures forall n :: n in r <==> n in ids
    ensures Distinct(r)
  {
    if ids == [] then []
    else
      var r := FirstSeen(ids[..|ids| - 1]);
      assert ids == ids[..|ids| - 1] + [ids[|ids| - 1]];
      if ids[|ids| - 1] in r then r else r + [ids[|ids| - 1]]
  }

  lemma EarlierIn(ids: seq<Id>, b: nat)
    requires b < |ids|
    ensures b < |ids| - 1 ==> ids[b] in ids[..|ids| - 1]
  {
    if b < |ids| - 1 {
      assert ids[..|ids| - 1][b] == ids[b];
    }
  }

  /** Of two ids the one that the list mentions first comes first. */
  lemma {:induction false} FirstSeenOrder(ids: seq<Id>, i: nat, j: nat, b: nat)
    requires i < j < |FirstSeen(ids)| && b < |ids| && ids[b] == FirstSeen(ids)[j]
    ensures exists a :: 0 <= a < b && ids[a] == FirstSeen(ids)[i]
    decreases |ids|
  {
    var n := |ids| - 1;
    var init := ids[..n];
    EarlierIn(ids, b);
    if j == |FirstSeen(init)| {
      assert FirstSeen(ids)[i] in init;
    } else if b < n {
      FirstSeenOrder(init, i, j, b);
    } else {
      assert FirstSeen(ids)[j] in init;
      var c :| 0 <= c < n && init[c] == FirstSeen(ids)[j];
      FirstSeenOrder(init, i, j, c);
    }
  }

  lemma NotClosed(deps: Deps, n: Id, d: Id)
    requires n in deps && d in deps[n] && d !in deps
    ensures !Closed(deps)
  {
  }

  /** What a run reports while it goes: a dispatcher call begins, or its result is stored. */
  datatype Event = Started(node: Id) | Finished(node: Id)

  ghost function Occurs(log: seq<Event>, e: Event): nat {
    multiset(log)[e]
  }

  /** Every call starts only after the calls of all its dependencies have finished. */
  ghost predicate StartsAfterDependencies(deps: Deps, log: seq<Event>) {
    forall i, d :: 0 <= i < |log| && log[i].Started? && log[i].node in deps && d in deps[log[i].node] ==>
      Finished(d) in log[..i]
  }

  /** The log holds one start for each node of `started`, one finish for each of `finished`. */
  ghost predicate LogHolds(started: set<Id>, finished: set<Id>, log: seq<Event>) {
    forall n ::
      && Occurs(log, Started(n)) == (if n in started then 1 else 0)
      && Occurs(log, Finished(n)) == (if n in finished then 1 else 0)
  }

  /** The nodes whose dispatcher was called. */
  ghost function Called<V>(results: Results<V>): set<Id> {
    set n | n in results && results[n].status != Skipped
  }

  /** One start and one finish for each node that was not skipped, and nothing else. */
  ghost predicate LogsEachCallOnce<V>(results: Results<V>, log: seq<Event>) {
    LogHolds(Called(results), Called(results), log)
  }

  lemma LogStart(started: set<Id>, finished: set<Id>, log: seq<Event>, n: Id)
    requires LogHolds(started, finished, log) && n !in started
    ensures LogHolds(started + {n}, finished, log + [Started(n)])
  {
  }

  lemma LogFinish(started: set<Id>, finished: set<Id>, log: seq<Event>, n: Id)
    requires LogHolds(started, finished, log) && n !in finished
    ensures LogHolds(started, finished + {n}, log + [Finished(n)])
  {
  }

  lemma LogJoin(s1: set<Id>, log1: seq<Event>, s2: set<Id>, log2: seq<Event>)
    requires LogHolds(s1, s1, log1) && LogHolds(s2, s2, log2) && s1 !! s2
    ensures LogHolds(s1 + s2, s1 + s2, log1 + log2)
  {
    forall e ensures Occurs(log1 + log2, e) == Occurs(log1, e) + Occurs(log2, e) {
    }
  }

  lemma LogMember(started: set<Id>, finished: set<Id>, log: seq<Event>, e: Event)
    requires LogHolds(started, finished, log)
    ensures e in log <==> if e.Started? then e.node in started else e.node in finished
  {
    assert e in log <==> Occurs(log, e) > 0;
  }

  /** Appending a level whose nodes only depend on calls already finished keeps the order. */
  lemma {:induction false} JoinOrder(deps: Deps, log1: seq<Event>, s2: set<Id>, log2: seq<Event>)
    requires StartsAfterDependencies(deps, log1) && LogHolds(s2, s2, log2)
    requires forall n, d :: n in s2 && n in deps && d in deps[n] ==> Finished(d) in log1
    ensures StartsAfterDependencies(deps, log1 + log2)
  {
    var log := log1 + log2;
    forall i, d | 0 <= i < |log| && log[i].Started? && log[i].node in deps && d in deps[log[i].node]
      ensures Finished(d) in log[..i]
    {
      if i < |log1| {
        assert log[..i] == log1[..i];
      } else {
        assert log[i] == log2[i - |log1|];
        LogMember(s2, s2, log2, log[i]);
        assert log1 == log[..i][..|log1|];
      }
    }
  }

  class TaskGraph<T, V> {
    const order: seq<Id>
    const nodes: NodeMap<T, V>

    ghost predicate Valid() {
      && Distinct(order)
      && (forall n :: n in order <==> n in nodes)
      && (forall n :: n in nodes ==> nodes[n].nodeId == n)
      && Closed(DepsOf(nodes))
    }

    /** The dictionary comprehension that starts TaskGraph.__init__ (brain/graph.py). */
    constructor (list: seq<TaskNode<T, V>>)
      ensures IsDictionary(list, order, nodes)
      ensures Distinct(order) && forall n :: n in nodes ==> nodes[n].nodeId == n
    {
      var ids: seq<Id>, byId: NodeMap<T, V> := [], map[];
      for i := 0 to |list|
        invariant IsDictionary(list[..i], ids, byId)
      {
        DictionaryStep(list, i, ids, byId);
        ids := if list[i].nodeId in ids then ids else ids + [list[i].nodeId];
        byId := byId[list[i].nodeId := list[i]];
      }
      assert list[..|list|] == list;
      order, nodes := ids, byId;
    }

    static lemma DictionaryStep(list: seq<TaskNode<T, V>>, i: nat, ids: seq<Id>, byId: NodeMap<T, V>)
      requires i < |list| && IsDictionary(list[..i], ids, byId)
      ensures IsDictionary(list[..i + 1], if list[i].nodeId in ids then ids else ids + [list[i].nodeId],
                           byId[list[i].nodeId := list[i]])
    {
      hide FirstSeen; hide Ids;
      SeenStep(list, i);
      var id := list[i].nodeId;
      var laterIds := if id in ids then ids else ids + [id];
      var later := byId[id := list[i]];
      KeysStep(id, list[i], ids, byId, laterIds, later);
      ValuesStep(list, i, list[..i], list[..i + 1], byId, later);
    }

    static lemma KeysStep(
      id: Id, node: TaskNode<T, V>, ids: seq<Id>, byId: NodeMap<T, V>, laterIds: seq<Id>, later: NodeMap<T, V>)
      requires forall n :: n in byId <==> n in ids
      requires laterIds == (if id in ids then ids else ids + [id]) && later == byId[id := node]
      ensures forall n :: n in later <==> n in laterIds
    {
    }

    static lemma ValuesStep(
      list: seq<TaskNode<T, V>>, i: nat, before: seq<TaskNode<T, V>>, after: seq<TaskNode<T, V>>,
      byId: NodeMap<T, V>, later: NodeMap<T, V>)
      requires i < |list| && before == list[..i] && after == list[..i + 1]
      requires later == byId[list[i].nodeId := list[i]]
      requires forall n :: n in byId ==> exists j :: LastAt(before, n, j) && byId[n] == before[j]
      ensures forall n :: n in later ==> exists j :: LastAt(after, n, j) && later[n] == after[j]
    {
      forall n | n in later ensures exists j :: LastAt(after, n, j) && later[n] == after[j] {
        LastStep(list, i, before, after, byId, n);
      }
    }

    static lemma SeenStep(list: seq<TaskNode<T, V>>, i: nat)
      requires i < |list|
      ensures var ids := FirstSeen(Ids(list[..i]));
              FirstSeen(Ids(list[..i + 1])) == if list[i].nodeId in ids then ids else ids + [list[i].nodeId]
    {
      var before, after := Ids(list[..i]), Ids(list[..i + 1]);
      assert after[..i] == before && after[i] == list[i].nodeId;
    }

    static lemma LastStep(
      list: seq<TaskNode<T, V>>, i: nat, before: seq<TaskNode<T, V>>, after: seq<TaskNode<T, V>>,
      byId: NodeMap<T, V>, n: Id)
      requires i < |list| && before == list[..i] && after == list[..i + 1]
      requires n != list[i].nodeId ==> n in byId && exists j :: LastAt(before, n, j) && byId[n] == before[j]
      ensures n in byId[list[i].nodeId := list[i]]
      ensures exists j :: LastAt(after, n, j) && byId[list[i].nodeId := list[i]][n] == after[j]
    {
      if n == list[i].nodeId {
        assert LastAt(after, n, i);
      } else {
        var j :| LastAt(before, n, j) && byId[n] == before[j];
        assert LastAt(after, n, j);
      }
    }

    /** The first unknown reference, in dictionary order and then in listed order. */
    ghost predicate IsFirstUnknown(n: Id, d: Id) {
      exists i, j :: UnknownAt(i, j) && order[i] == n && nodes[n].dependsOn[j] == d
    }

    ghost predicate UnknownAt(i: int, j: int) {
      && 0 <= i < |order| && order[i] in nodes && 0 <= j < |nodes[order[i]].dependsOn|
      && nodes[order[i]].dependsOn[j] !in nodes
      && KnownUpTo(i)
      && (forall b :: 0 <= b < j ==> nodes[order[i]].dependsOn[b] in nodes)
    }

    ghost predicate KnownUpTo(i: int) {
      forall a, d :: 0 <= a < i <= |order| && order[a] in nodes && d in nodes[order[a]].dependsOn ==> d in nodes
    }

    /** Every dependency must be a node. */
    method ValidateIds() returns (error: Option<GraphError>)
      requires forall n :: n in order <==> n in nodes
      requires forall n :: n in nodes ==> nodes[n].nodeId == n
      ensures error == None <==> Closed(DepsOf(nodes))
      ensures error.Some? ==> error.value.UnknownDependency? &&
                              IsFirstUnknown(error.value.node, error.value.dependency)
    {
      for i := 0 to |order|
        invariant KnownUpTo(i)
      {
        var node := nodes[order[i]];
        for j := 0 to |node.dependsOn|
          invariant forall b :: 0 <= b < j ==> node.dependsOn[b] in nodes
        {
          var dep := node.dependsOn[j];
          if dep !in nodes {
            assert UnknownAt(i, j) && order[i] == node.nodeId;
            NotClosed(DepsOf(nodes), order[i], dep);
            return Some(UnknownDependency(node.nodeId, dep));
          }
        }
      }
      return None;
    }

    /**
      Construction.  It is refused for the first unknown reference, else for a cycle, naming
      exactly the nodes on a cycle or depending on one; an acyclic graph is never refused.
    */
    static method Build(list: seq<TaskNode<T, V>>) returns (r: Result<TaskGraph<T, V>, GraphError>, g: TaskGraph<T, V>)
      ensures fresh(g) && IsDictionary(list, g.order, g.nodes)
      ensures r.Ok? <==> Closed(DepsOf(g.nodes)) && Acyclic(DepsOf(g.nodes))
      ensures r.Ok? ==> r.value == g && g.Valid()
      ensures r.Err? && !Closed(DepsOf(g.nodes)) ==>
                r.error.UnknownDependency? && g.IsFirstUnknown(r.error.node, r.error.dependency)
      ensures r.Err? && Closed(DepsOf(g.nodes)) ==>
                r.error == CycleDetected(Select(g.order, CycleCone(DepsOf(g.nodes)))) && r.error.stuck != []
    {
      g := new TaskGraph(list);
      var unknown := g.ValidateIds();
      if unknown.Some? {
        return Err(unknown.value), g;
      }
      var levels := g.TopologicalLevels();
      if levels.Err? {
        return Err(levels.error), g;
      }
      return Ok(g), g;
    }

    /** The levels of an acyclic graph: each node once, at the height of its longest chain. */
    method TopologicalLevels() returns (r: Result<seq<seq<Id>>, GraphError>)
      requires Valid()
      ensures r.Ok? <==> Acyclic(DepsOf(nodes))
      ensures r.Ok? ==> Layered(DepsOf(nodes), r.value)
      ensures r.Err? ==> r.error == CycleDetected(Select(order, CycleCone(DepsOf(nodes)))) && r.error.stuck != []
    {
      var levels := KahnLevels(order, DepsOf(nodes));
      if levels.Err? {
        return Err(CycleDetected(levels.error));
      }
      LayersAreLayered(DepsOf(nodes), levels.value);
      return Ok(levels.value);
    }

    /** What each node's dispatcher call gives, for the whole graph. */
    ghost function OutcomesOf(dispatcher: (Id, T) -> Outcome<V>): Outcomes<V> {
      map n | n in nodes :: dispatcher(n, nodes[n].task)
    }

    ghost predicate Stored(results: Results<V>)
      reads nodes.Values
    {
      forall n :: n in results && n in nodes ==> nodes[n].result == Some(results[n])
    }

    method CollectErrors(node: TaskNode<T, V>, results: Results<V>) returns (errors: seq<string>)
      ensures errors == DependencyErrors(node.dependsOn, results)
    {
      errors := [];
      for j := 0 to |node.dependsOn|
        invariant errors == DependencyErrors(node.dependsOn[..j], results)
      {
        var dep := node.dependsOn[j];
        assert node.dependsOn[..j + 1][..j] == node.dependsOn[..j];
        if dep in results && !results[dep].Succeeded() {
          errors := errors + ["dep '" + dep + "' failed: " + results[dep].ErrorText()];
        }
      }
      assert node.dependsOn[..|node.dependsOn|] == node.dependsOn;
    }

    ghost predicate Blocked(n: Id, skip: bool, results: Results<V>)
      requires n in nodes
    {
      skip && DependencyErrors(nodes[n].dependsOn, results) != []
    }

    /** Decides one node of a level: skipped at once, or gathered to run. */
    method AdmitNode(n: Id, skip: bool, ghost base: Results<V>, results: Results<V>)
      returns (skipped: Option<NodeResult<V>>)
      requires n in nodes && forall m :: m in nodes ==> nodes[m].nodeId == m
      requires forall d :: d in nodes[n].dependsOn ==> d in base && d in results && results[d] == base[d]
      modifies nodes[n]
      ensures skipped.Some? <==> Blocked(n, skip, base)
      ensures skipped.Some? ==> skipped.value == SkippedResult(n, DependencyErrors(nodes[n].dependsOn, base))
      ensures nodes[n].result == if skipped.Some? then skipped else old(nodes[n].result)
      ensures forall m :: m in nodes && m != n ==> nodes[m].result == old(nodes[m].result)
    {
      var node := nodes[n];
      ErrorsAreLocal(node.dependsOn, base, results);
      var errors := CollectErrors(node, results);
      skipped := None;
      if errors != [] && skip {
        skipped := Some(SkippedResult(n, errors));
        node.result := skipped;
      }
    }

    /** `skipped` holds the skip results of exactly the blocked nodes among `ids`. */
    ghost predicate AreSkips(ids: set<Id>, skip: bool, base: Results<V>, skipped: Results<V>)
      requires forall n :: n in ids ==> n in nodes
    {
      && (forall n :: n in skipped <==> n in ids && Blocked(n, skip, base))
      && (forall n :: n in skipped ==> skipped[n] == SkippedResult(n, DependencyErrors(nodes[n].dependsOn, base)))
    }

    /** A level half decided: `seen` are done, and either skipped or gathered in `batch`. */
    ghost predicate Admitted(
      seen: set<Id>, skip: bool, base: Results<V>, results: Results<V>, skipped: Results<V>, batch: seq<Id>)
    {
      && seen <= nodes.Keys && seen !! base.Keys
      && results == base + skipped && AreSkips(seen, skip, base, skipped)
      && Distinct(batch) && (forall n :: n in batch <==> n in seen && !Blocked(n, skip, base))
    }

    lemma NothingAdmitted(skip: bool, base: Results<V>)
      ensures Admitted({}, skip, base, base, map[], [])
    {
      assert base == base + map[];
    }

    lemma SkipStep(
      ids: set<Id>, n: Id, skip: bool, base: Results<V>, skipped: Results<V>, r: Option<NodeResult<V>>)
      requires n in nodes && n !in ids && ids <= nodes.Keys
      requires AreSkips(ids, skip, base, skipped)
      requires r.Some? <==> Blocked(n, skip, base)
      requires r.Some? ==> r.value == SkippedResult(n, DependencyErrors(nodes[n].dependsOn, base))
      ensures n !in skipped
      ensures AreSkips(ids + {n}, skip, base, if r.Some? then skipped[n := r.value] else skipped)
    {
    }

    lemma AdmitStep(
      seen: set<Id>, n: Id, skip: bool, base: Results<V>, results: Results<V>, skipped: Results<V>, batch: seq<Id>,
      r: Option<NodeResult<V>>)
      requires n in nodes && n !in seen && n !in base
      requires Admitted(seen, skip, base, results, skipped, batch)
      requires r.Some? <==> Blocked(n, skip, base)
      requires r.Some? ==> r.value == SkippedResult(n, DependencyErrors(nodes[n].dependsOn, base))
      ensures r.Some? ==> Admitted(seen + {n}, skip, base, results[n := r.value], skipped[n := r.value], batch)
      ensures r.None? ==> Admitted(seen + {n}, skip, base, results, skipped, batch + [n])
    {
      hide AreSkips; hide Admitted; hide Blocked; hide DependencyErrors; hide Distinct;
      AdmittedParts(seen, skip, base, results, skipped, batch);
      SkipStep(seen, n, skip, base, skipped, r);
      BatchStep(seen, n, skip, base, batch);
      if r.Some? {
        assert results[n := r.value] == base + skipped[n := r.value];
        AdmittedParts(seen + {n}, skip, base, results[n := r.value], skipped[n := r.value], batch);
      } else {
        AdmittedParts(seen + {n}, skip, base, results, skipped, batch + [n]);
      }
    }

    /** The gathered nodes: those decided and not blocked. */
    ghost predicate Gathered(seen: set<Id>, skip: bool, base: Results<V>, batch: seq<Id>)
      requires seen <= nodes.Keys
    {
      Distinct(batch) && forall n :: n in batch <==> n in seen && !Blocked(n, skip, base)
    }

    lemma AdmittedParts(
      seen: set<Id>, skip: bool, base: Results<V>, results: Results<V>, skipped: Results<V>, batch: seq<Id>)
      ensures Admitted(seen, skip, base, results, skipped, batch) <==>
              && seen <= nodes.Keys && seen !! base.Keys
              && results == base + skipped && AreSkips(seen, skip, base, skipped)
              && Gathered(seen, skip, base, batch)
    {
      hide AreSkips; hide Blocked; hide Distinct;
    }

    lemma BatchStep(seen: set<Id>, n: Id, skip: bool, base: Results<V>, batch: seq<Id>)
      requires n in nodes && n !in seen && seen <= nodes.Keys && Gathered(seen, skip, base, batch)
      ensures Blocked(n, skip, base) ==> Gathered(seen + {n}, skip, base, batch)
      ensures !Blocked(n, skip, base) ==> Gathered(seen + {n}, skip, base, batch + [n])
    {
      hide Blocked;
    }

    lemma AdmittedAgrees(
      seen: set<Id>, skip: bool, base: Results<V>, results: Results<V>, skipped: Results<V>, batch: seq<Id>, d: Id)
      requires Admitted(seen, skip, base, results, skipped, batch) && d in base
      ensures d in results && results[d] == base[d]
    {
    }

    /** First half of a level: nodes with failed dependencies are skipped, the rest are gathered. */
    method AdmitLevel(level: seq<Id>, skip: bool, base: Results<V>)
      returns (results: Results<V>, batch: seq<Id>, ghost skipped: Results<V>)
      requires Distinct(level) && forall n :: n in level ==> n in nodes && n !in base
      requires forall n, d :: n in level && d in nodes[n].dependsOn ==> d in base
      requires forall n :: n in nodes ==> nodes[n].nodeId == n
      requires Stored(base)
      modifies nodes.Values
      ensures Admitted(Elements(level), skip, base, results, skipped, batch)
      ensures Stored(results)
    {
      hide Blocked; hide Admitted; hide Distinct; hide DependencyErrors;
      NothingAdmitted(skip, base);
      results, batch, skipped := base, [], map[];
      ghost var seen := {};
      for i := 0 to |level|
        invariant forall n :: n in seen <==> n in level[..i]
        invariant Admitted(seen, skip, base, results, skipped, batch)
        invariant Stored(results)
      {
        var n := level[i];
        NextIsNew(level, i);
        forall d | d in nodes[n].dependsOn ensures d in base && d in results && results[d] == base[d] {
          AdmittedAgrees(seen, skip, base, results, skipped, batch, d);
        }
        var r := AdmitNode(n, skip, base, results);
        AdmitStep(seen, n, skip, base, results, skipped, batch, r);
        if r.Some? {
          results, skipped := results[n := r.value], skipped[n := r.value];
        } else {
          batch := batch + [n];
        }
        seen := seen + {n};
      }
      assert level[..|level|] == level;
      assert seen == Elements(level);
    }

    /**
      Awaits all the calls of a level together.  At every moment any waiting call may start
      and any running call may finish; the results come back in the order of `batch`.
    */
    method RunBatch(batch: seq<Id>, dispatcher: (Id, T) -> Outcome<V>, ghost base: Results<V>)
      returns (levelResults: seq<NodeResult<V>>, ghost log: seq<Event>)
      requires forall n :: n in batch ==> n in nodes && n !in base
      requires forall n :: n in nodes ==> nodes[n].nodeId == n
      requires Stored(base)
      modifies nodes.Values
      ensures |levelResults| == |batch|
      ensures forall i :: 0 <= i < |batch| ==>
                levelResults[i] == RunOne(batch[i], dispatcher(batch[i], nodes[batch[i]].task))
                && nodes[batch[i]].result == Some(levelResults[i])
      ensures Stored(base)
      ensures LogHolds(Elements(batch), Elements(batch), log)
    {
      hide InFlight; hide Stored; hide RunOne; hide Elements;
      var waiting: set<Id>, running: set<Id>, got: Results<V> := (set n | n in batch), {}, map[];
      log := [];
      assert got.Keys == {};
      NothingInFlight(batch, waiting);
      NothingStored();
      while waiting != {} || running != {}
        invariant InFlight(Elements(batch), waiting, running, got.Keys, log)
        invariant forall n :: n in got ==> n in nodes && got[n] == RunOne(n, dispatcher(n, nodes[n].task))
        invariant Stored(base) && Stored(got)
        decreases waiting, running
      {
        if {
          case waiting != {} =>
            var n :| n in waiting;
            StartOne(Elements(batch), waiting, running, got.Keys, log, n);
            waiting, running, log := waiting - {n}, running + {n}, log + [Started(n)];
          case running != {} =>
            var n :| n in running;
            FinishOne(Elements(batch), waiting, running, got.Keys, log, n);
            MemberOf(batch, n);
            var r := AwaitCall(n, dispatcher, base, got);
            assert got[n := r].Keys == got.Keys + {n};
            running, got, log := running - {n}, got[n := r], log + [Finished(n)];
        }
      }
      AllDone(batch, got.Keys, log);
      levelResults := seq(|batch|, i requires 0 <= i < |batch| && batch[i] in got => got[batch[i]]);
      StoredEach(batch, got);
    }

    /** The calls of a batch: not begun yet, running, or done; and the log so far. */
    static ghost predicate InFlight(
      batch: set<Id>, waiting: set<Id>, running: set<Id>, done: set<Id>, log: seq<Event>)
    {
      && waiting !! running && running !! done && waiting !! done && waiting + running + done == batch
      && LogHolds(running + done, done, log)
    }

    static lemma NothingInFlight(batch: seq<Id>, waiting: set<Id>)
      requires forall n :: n in waiting <==> n in batch
      ensures InFlight(Elements(batch), waiting, {}, {}, [])
    {
      EmptyLog();
    }

    static lemma StartOne(batch: set<Id>, waiting: set<Id>, running: set<Id>, done: set<Id>, log: seq<Event>, n: Id)
      requires InFlight(batch, waiting, running, done, log) && n in waiting
      ensures InFlight(batch, waiting - {n}, running + {n}, done, log + [Started(n)])
    {
      LogStart(running + done, done, log, n);
      assert running + {n} + done == running + done + {n};
    }

    static lemma FinishOne(batch: set<Id>, waiting: set<Id>, running: set<Id>, done: set<Id>, log: seq<Event>, n: Id)
      requires InFlight(batch, waiting, running, done, log) && n in running
      ensures InFlight(batch, waiting, running - {n}, done + {n}, log + [Finished(n)])
      ensures n in batch && n !in done
    {
      LogFinish(running + done, done, log, n);
      assert running - {n} + (done + {n}) == running + done;
    }

    static lemma MemberOf(batch: seq<Id>, n: Id)
      ensures n in Elements(batch) <==> n in batch
    {
    }

    static lemma AllDone(batch: seq<Id>, done: set<Id>, log: seq<Event>)
      requires InFlight(Elements(batch), {}, {}, done, log)
      ensures done == Elements(batch) && LogHolds(Elements(batch), Elements(batch), log)
      ensures forall n :: n in batch <==> n in done
    {
    }

    /** One call returns or raises, and its result is stored on the node. */
    method AwaitCall(n: Id, dispatcher: (Id, T) -> Outcome<V>, ghost base: Results<V>, ghost got: Results<V>)
      returns (r: NodeResult<V>)
      requires n in nodes && n !in base && n !in got
      requires forall m :: m in nodes ==> nodes[m].nodeId == m
      requires Stored(base) && Stored(got)
      modifies nodes[n]
      ensures r == RunOne(n, dispatcher(n, nodes[n].task))
      ensures Stored(base) && Stored(got[n := r])
    {
      r := RunOne(n, dispatcher(n, nodes[n].task));
      nodes[n].result := Some(r);
    }

    lemma NothingStored()
      ensures Stored(map[])
    {
    }

    lemma StoredEach(batch: seq<Id>, got: Results<V>)
      requires Stored(got) && forall n :: n in batch ==> n in nodes && n in got
      ensures forall i :: 0 <= i < |batch| ==> nodes[batch[i]].result == Some(got[batch[i]])
    {
    }

    static lemma EmptyLog()
      ensures LogHolds({}, {}, [])
    {
    }

    /** Everything known between two levels. */
    ghost predicate Progress(
      outcomes: Outcomes<V>, skip: bool, results: Results<V>, log: seq<Event>)
      requires outcomes.Keys == nodes.Keys
      reads nodes.Values
    {
      && ExplainsPart(DepsOf(nodes), outcomes, skip, results)
      && Stored(results)
      && LogsEachCallOnce(results, log)
      && StartsAfterDependencies(DepsOf(nodes), log)
    }

    /** Stores the gathered results of a level. */
    method Collect(batch: seq<Id>, levelResults: seq<NodeResult<V>>, base: Results<V>) returns (results: Results<V>)
      requires Distinct(batch) && |levelResults| == |batch|
      requires forall i :: 0 <= i < |batch| ==> levelResults[i].nodeId == batch[i] && batch[i] !in base
      ensures results.Keys == base.Keys + Elements(batch)
      ensures forall n :: n in base ==> results[n] == base[n]
      ensures forall i :: 0 <= i < |batch| ==> results[batch[i]] == levelResults[i]
    {
      results := base;
      for i := 0 to |batch|
        invariant results.Keys == base.Keys + Elements(batch[..i])
        invariant forall n :: n in base ==> results[n] == base[n]
        invariant forall j :: 0 <= j < i ==> batch[j] in results && results[batch[j]] == levelResults[j]
      {
        results := results[levelResults[i].nodeId := levelResults[i]];
        assert batch[..i + 1] == batch[..i] + [batch[i]];
      }
      assert batch[..|batch|] == batch;
    }

    lemma LevelResult(
      outcomes: Outcomes<V>, skip: bool, level: set<Id>, n: Id,
      base: Results<V>, skipped: Results<V>, batch: seq<Id>, admitted: Results<V>, results: Results<V>)
      requires outcomes.Keys == nodes.Keys && n in level && n in nodes
      requires Admitted(level, skip, base, admitted, skipped, batch)
      requires n in admitted ==> n in results && results[n] == admitted[n]
      requires n in batch ==> n in results && results[n] == RunOne(n, outcomes[n])
      ensures n in results && results[n] == ResultOf(n, nodes[n].dependsOn, outcomes[n], skip, base)
      ensures results[n].status != Skipped <==> n in batch
    {
      hide DependencyErrors;
    }

    lemma AdmittedSets(
      skip: bool, level: set<Id>,
      base: Results<V>, skipped: Results<V>, batch: seq<Id>, admitted: Results<V>)
      requires Admitted(level, skip, base, admitted, skipped, batch)
      ensures level <= nodes.Keys && level !! base.Keys && Distinct(batch) && Elements(batch) <= level
      ensures admitted.Keys + Elements(batch) == base.Keys + level
      ensures admitted.Keys !! Elements(batch)
      ensures forall n :: n in base ==> n in admitted && admitted[n] == base[n]
    {
      hide Blocked; hide Distinct;
      SkipsWithin(level, skip, base, skipped);
      forall n | n in level ensures n in admitted || n in batch {
        if n !in batch {
          assert Blocked(n, skip, base);
        }
      }
    }

    lemma SkipsWithin(ids: set<Id>, skip: bool, base: Results<V>, skipped: Results<V>)
      requires ids <= nodes.Keys && AreSkips(ids, skip, base, skipped)
      ensures skipped.Keys <= ids
      ensures forall n :: n in ids ==> (n in skipped <==> Blocked(n, skip, base))
    {
    }

    static lemma CalledExtends(base: Results<V>, results: Results<V>, level: set<Id>, ran: set<Id>)
      requires results.Keys == base.Keys + level && level !! base.Keys && ran <= level
      requires forall n :: n in base ==> results[n] == base[n]
      requires forall n :: n in level ==> (results[n].status != Skipped <==> n in ran)
      ensures Called(results) == Called(base) + ran
    {
    }

    /** The results of a level: skips for the blocked nodes, the outcome for the others. */
    lemma LevelExtends(
      outcomes: Outcomes<V>, skip: bool, level: set<Id>,
      base: Results<V>, skipped: Results<V>, batch: seq<Id>, admitted: Results<V>, results: Results<V>)
      requires outcomes.Keys == nodes.Keys
      requires ExplainsPart(DepsOf(nodes), outcomes, skip, base)
      requires forall n, d :: n in level && n in nodes && d in nodes[n].dependsOn ==> d in base
      requires Admitted(level, skip, base, admitted, skipped, batch)
      requires results.Keys == admitted.Keys + Elements(batch)
      requires forall n :: n in admitted ==> results[n] == admitted[n]
      requires forall n :: n in batch ==> n in results && results[n] == RunOne(n, outcomes[n])
      ensures ExplainsPart(DepsOf(nodes), outcomes, skip, results)
      ensures Called(results) == Called(base) + Elements(batch)
    {
      hide ExplainsPart; hide ResultOf; hide Admitted; hide RunOne; hide Called; hide Distinct;
      AdmittedSets(skip, level, base, skipped, batch, admitted);
      forall n | n in level
        ensures n in results && results[n] == ResultOf(n, nodes[n].dependsOn, outcomes[n], skip, base)
        ensures results[n].status != Skipped <==> n in batch
      {
        LevelResult(outcomes, skip, level, n, base, skipped, batch, admitted, results);
      }
      hide Elements;
      CalledExtends(base, results, level, Elements(batch));
      var more := LevelPart(base, level, results);
      LevelGiven(level, base);
      ExtendPart(DepsOf(nodes), outcomes, skip, base, more);
    }

    static lemma LevelPart(base: Results<V>, level: set<Id>, results: Results<V>) returns (more: Results<V>)
      requires results.Keys == base.Keys + level && level !! base.Keys
      requires forall n :: n in base ==> results[n] == base[n]
      ensures results == base + more && more.Keys == level && forall n :: n in level ==> more[n] == results[n]
    {
      more := map n | n in level :: results[n];
    }

    lemma LevelGiven(level: set<Id>, base: Results<V>)
      requires forall n, d :: n in level && n in nodes && d in nodes[n].dependsOn ==> d in base
      ensures forall n, d :: n in level && n in DepsOf(nodes) && d in DepsOf(nodes)[n] ==> d in base
    {
    }

    /** A node that is not blocked has only dependencies whose dispatcher was called. */
    lemma UnblockedDependency(outcomes: Outcomes<V>, skip: bool, base: Results<V>, n: Id, d: Id)
      requires outcomes.Keys == nodes.Keys && ExplainsPart(DepsOf(nodes), outcomes, skip, base)
      requires n in nodes && !Blocked(n, skip, base) && d in nodes[n].dependsOn && d in base
      ensures d in Called(base)
    {
      if skip {
        ErrorsMeanFailure(nodes[n].dependsOn, base);
      } else {
        hide DependencyErrors;
        assert Justified(DepsOf(nodes), outcomes, skip, base, d);
      }
    }

    /** One level: skip, gather, run interleaved, store. */
    method ExecuteLevel(
      level: seq<Id>, dispatcher: (Id, T) -> Outcome<V>, skip: bool, base: Results<V>, ghost before: seq<Event>)
      returns (results: Results<V>, ghost log: seq<Event>)
      requires Valid() && Progress(OutcomesOf(dispatcher), skip, base, before)
      requires Distinct(level) && forall n :: n in level ==> n in nodes && n !in base
      requires forall n, d :: n in level && d in nodes[n].dependsOn ==> d in base
      modifies nodes.Values
      ensures Progress(OutcomesOf(dispatcher), skip, results, log)
      ensures results.Keys == base.Keys + Elements(level)
    {
      hide Blocked; hide Admitted; hide ExplainsPart; hide Stored; hide LogHolds; hide StartsAfterDependencies;
      hide Distinct; hide Called;
      ghost var outcomes, deps := OutcomesOf(dispatcher), DepsOf(nodes);
      var admitted, batch;
      ghost var skipped;
      admitted, batch, skipped := AdmitLevel(level, skip, base);
      AdmittedSets(skip, Elements(level), base, skipped, batch, admitted);
      var levelResults;
      ghost var levelLog;
      levelResults, levelLog := RunBatch(batch, dispatcher, admitted);
      results := Collect(batch, levelResults, admitted);
      LevelExtends(outcomes, skip, Elements(level), base, skipped, batch, admitted, results);
      log := before + levelLog;
      StoredJoin(admitted, batch, levelResults, results);
      LevelLogged(outcomes, skip, Elements(level), base, skipped, batch, admitted, before, levelLog);
    }

    /** The log of a level, after the log so far. */
    lemma LevelLogged(
      outcomes: Outcomes<V>, skip: bool, level: set<Id>, base: Results<V>, skipped: Results<V>, batch: seq<Id>,
      admitted: Results<V>, before: seq<Event>, levelLog: seq<Event>)
      requires outcomes.Keys == nodes.Keys && ExplainsPart(DepsOf(nodes), outcomes, skip, base)
      requires Admitted(level, skip, base, admitted, skipped, batch) && base.Keys !! Elements(batch)
      requires forall n, d :: n in level && n in nodes && d in nodes[n].dependsOn ==> d in base
      requires LogHolds(Called(base), Called(base), before) && StartsAfterDependencies(DepsOf(nodes), before)
      requires LogHolds(Elements(batch), Elements(batch), levelLog)
      ensures LogHolds(Called(base) + Elements(batch), Called(base) + Elements(batch), before + levelLog)
      ensures StartsAfterDependencies(DepsOf(nodes), before + levelLog)
    {
      hide Blocked; hide Admitted; hide ExplainsPart; hide LogHolds; hide StartsAfterDependencies; hide Called;
      var deps := DepsOf(nodes);
      CalledApart(base, Elements(batch));
      LogJoin(Called(base), before, Elements(batch), levelLog);
      forall n, d | n in Elements(batch) && n in deps && d in deps[n] ensures Finished(d) in before {
        AdmittedUnblocked(skip, level, base, skipped, batch, admitted, n);
        UnblockedDependency(outcomes, skip, base, n, d);
        LogMember(Called(base), Called(base), before, Finished(d));
      }
      JoinOrder(deps, before, Elements(batch), levelLog);
    }

    lemma AdmittedUnblocked(
      skip: bool, level: set<Id>, base: Results<V>, skipped: Results<V>, batch: seq<Id>, admitted: Results<V>, n: Id)
      requires Admitted(level, skip, base, admitted, skipped, batch) && n in batch
      ensures n in nodes && n in level && !Blocked(n, skip, base)
    {
    }

    static lemma CalledApart(base: Results<V>, ran: set<Id>)
      requires base.Keys !! ran
      ensures Called(base) !! ran
    {
    }

    lemma StoredJoin(admitted: Results<V>, batch: seq<Id>, levelResults: seq<NodeResult<V>>, results: Results<V>)
      requires Stored(admitted) && |levelResults| == |batch| && forall n :: n in batch ==> n in nodes
      requires results.Keys == admitted.Keys + Elements(batch)
      requires forall n :: n in admitted ==> results[n] == admitted[n]
      requires forall i :: 0 <= i < |batch| ==>
                 nodes[batch[i]].result == Some(levelResults[i]) && results[batch[i]] == levelResults[i]
      ensures Stored(results)
    {
    }

    /**
      Executes the graph.  For every dispatcher and every interleaving of the calls of a level
      the result map is the one that explains itself, each node keeps its own result, each
      node that is not skipped is called once, and only after all its dependencies finished.
    */
    method Execute(dispatcher: (Id, T) -> Outcome<V>, skip: bool)
      returns (r: Result<Results<V>, GraphError>, ghost log: seq<Event>)
      requires Valid()
      modifies nodes.Values
      ensures r.Ok? <==> Acyclic(DepsOf(nodes))
      ensures r.Ok? ==> Explains(DepsOf(nodes), OutcomesOf(dispatcher), skip, r.value)
      ensures r.Ok? ==> forall order :: TopologicalOrder(DepsOf(nodes), order) ==>
                r.value == RunInOrder(DepsOf(nodes), OutcomesOf(dispatcher), skip, order)
      ensures r.Ok? ==> forall n :: n in nodes ==> nodes[n].result == Some(r.value[n])
      ensures r.Ok? ==> LogsEachCallOnce(r.value, log) && StartsAfterDependencies(DepsOf(nodes), log)
    {
      hide Acyclic;
      var levels := TopologicalLevels();
      log := [];
      if levels.Err? {
        return Err(levels.error), log;
      }
      ghost var outcomes, deps := OutcomesOf(dispatcher), DepsOf(nodes);
      var results: Results<V> := map[];
      NoProgress(outcomes, skip);
      for k := 0 to |levels.value|
        invariant Progress(outcomes, skip, results, log)
        invariant results.Keys == Upto(levels.value, k)
      {
        hide Progress; hide Layered;
        LevelNeedsLower(levels.value, k);
        results, log := ExecuteLevel(levels.value[k], dispatcher, skip, results, log);
      }
      UptoAll(deps, levels.value);
      PartIsWhole(outcomes, skip, results);
      SameAsSequential(outcomes, skip, results);
      return Ok(results), log;
    }

    lemma SameAsSequential(outcomes: Outcomes<V>, skip: bool, results: Results<V>)
      requires Valid() && outcomes.Keys == nodes.Keys && Acyclic(DepsOf(nodes))
      requires Explains(DepsOf(nodes), outcomes, skip, results)
      ensures forall order :: TopologicalOrder(DepsOf(nodes), order) ==>
                results == RunInOrder(DepsOf(nodes), outcomes, skip, order)
    {
      hide Explains; hide Acyclic; hide RunInOrder; hide Closed;
      forall order | TopologicalOrder(DepsOf(nodes), order)
        ensures results == RunInOrder(DepsOf(nodes), outcomes, skip, order)
      {
        SequentialIsTheResult(DepsOf(nodes), outcomes, skip, order, results);
      }
    }

    lemma LevelNeedsLower(levels: seq<seq<Id>>, k: nat)
      requires Valid() && Layered(DepsOf(nodes), levels) && k < |levels|
      ensures Distinct(levels[k])
      ensures forall n :: n in levels[k] ==> n in nodes && n !in Upto(levels, k)
      ensures forall n, d :: n in levels[k] && d in nodes[n].dependsOn ==> d in Upto(levels, k)
    {
      forall n | n in levels[k]
        ensures n in nodes && n !in Upto(levels, k)
        ensures forall d :: d in nodes[n].dependsOn ==> d in Upto(levels, k)
      {
        LevelIsNew(DepsOf(nodes), levels, n, k);
        forall d | d in nodes[n].dependsOn ensures d in Upto(levels, k) {
          DependencyIsLower(DepsOf(nodes), levels, n, k, d);
        }
      }
    }

    lemma NoProgress(outcomes: Outcomes<V>, skip: bool)
      requires outcomes.Keys == nodes.Keys
      ensures Progress(outcomes, skip, map[], [])
    {
      assert Called<V>(map[]) == {};
    }

    lemma PartIsWhole(outcomes: Outcomes<V>, skip: bool, results: Results<V>)
      requires outcomes.Keys == nodes.Keys && Stored(results)
      requires ExplainsPart(DepsOf(nodes), outcomes, skip, results)
      requires results.Keys == nodes.Keys
      ensures Explains(DepsOf(nodes), outcomes, skip, results)
      ensures forall n :: n in nodes ==> nodes[n].result == Some(results[n])
    {
      hide ResultOf;
    }
  }
}
