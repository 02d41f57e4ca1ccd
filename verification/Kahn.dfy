/**
  Kahn's algorithm on a mutable in-degree table, with duplicate edges, two queues and a list
  of levels, proved against the longest-chain and cycle notions of `Dependencies`.
*/
module Kahn {
  import opened Wrappers
  import opened Slices
  import opened Dependencies

  ghost predicate Distinct(s: seq<Id>) {
    forall i, j :: 0 <= i < j < |s| ==> s[i] != s[j]
  }

  /** The ids that are in `s`, in the order of `ids`. */
  function Select(ids: seq<Id>, s: set<Id>): seq<Id> {
    if ids == [] then []
    else Select(ids[..|ids| - 1], s) + if ids[|ids| - 1] in s then [ids[|ids| - 1]] else []
  }

  /** Selecting keeps the order. */
  lemma {:induction false} SelectFilters(ids: seq<Id>, s: set<Id>)
    ensures Select(ids, s) == Filtered(ids, n => n in s)
  {
    if ids != [] {
      SelectFilters(ids[..|ids| - 1], s);
    }
  }

  lemma SelectElements(ids: seq<Id>, s: set<Id>)
    ensures forall n :: n in Select(ids, s) <==> n in ids && n in s
  {
    if ids != [] {
      SelectElements(ids[..|ids| - 1], s);
      assert ids == ids[..|ids| - 1] + [ids[|ids| - 1]];
    }
  }

  ghost function CycleCone(deps: Deps): set<Id> {
    set n | n in deps && InCycleCone(deps, n)
  }

  // ----- counting dependencies that are still to run -----

  /** How often x occurs in s. */
  ghost function Times(s: seq<Id>, x: Id): nat {
    multiset(s)[x]
  }

  lemma TimesSnoc(s: seq<Id>, i: nat, x: Id)
    requires i < |s|
    ensures Times(s[..i + 1], x) == Times(s[..i], x) + if s[i] == x then 1 else 0
    ensures Times(s[..i + 1], x) <= Times(s, x)
  {
    assert s[..i + 1] == s[..i] + [s[i]];
    assert s == s[..i + 1] + s[i + 1..];
  }

  /** The entries of a dependency list, duplicates counted, that are not done. */
  function Remaining(ds: seq<Id>, done: set<Id>): nat {
    if ds == [] then 0
    else Remaining(ds[..|ds| - 1], done) + if ds[|ds| - 1] in done then 0 else 1
  }

  lemma RemainingAfter(ds: seq<Id>, done: set<Id>, n: Id)
    requires n !in done
    ensures Remaining(ds, done) == Remaining(ds, done + {n}) + Times(ds, n)
  {
    if ds != [] {
      RemainingAfter(ds[..|ds| - 1], done, n);
      assert ds == ds[..|ds| - 1] + [ds[|ds| - 1]];
    }
  }

  lemma RemainingZero(ds: seq<Id>, done: set<Id>)
    ensures Remaining(ds, done) == 0 <==> forall d :: d in ds ==> d in done
  {
    if ds != [] {
      RemainingZero(ds[..|ds| - 1], done);
      assert ds == ds[..|ds| - 1] + [ds[|ds| - 1]];
    }
  }

  lemma RemainingAll(ds: seq<Id>)
    ensures Remaining(ds, {}) == |ds|
  {
  }

  lemma TimesEmpty(x: Id)
    ensures Times([], x) == 0
  {
  }

  lemma TimesMember(s: seq<Id>, x: Id)
    ensures Times(s, x) > 0 <==> x in s
  {
  }

  type Children = map<Id, seq<Id>>

  function ChildrenOf(children: Children, n: Id): seq<Id> {
    if n in children then children[n] else []
  }

  /** How often n is listed as a child of d. */
  ghost function Listed(children: Children, d: Id, n: Id): nat {
    Times(ChildrenOf(children, d), n)
  }

  /** n is listed as a child of d as often as n's dependency list names d. */
  ghost predicate Inverts(deps: Deps, children: Children) {
    forall d, n :: Listed(children, d, n) == if n in deps then Times(deps[n], d) else 0
  }

  ghost predicate Counts(deps: Deps, inDegree: map<Id, nat>, done: set<Id>) {
    && inDegree.Keys == deps.Keys
    && forall n :: n in deps ==> inDegree[n] == Remaining(deps[n], done)
  }

  /** Counts one node's dependency list, an entry at a time. */
  method CountNode(n: Id, ds: seq<Id>, inDegree: map<Id, nat>, children: Children)
    returns (degree: map<Id, nat>, kids: Children)
    requires n in inDegree
    ensures degree == inDegree[n := inDegree[n] + |ds|]
    ensures forall d, m :: Listed(kids, d, m) == Listed(children, d, m) + if m == n then Times(ds, d) else 0
  {
    hide Times; hide Listed; hide ChildrenOf;
    degree, kids := inDegree, children;
    assert ds[..0] == [];
    forall d { TimesEmpty(d); }
    for j := 0 to |ds|
      invariant degree == inDegree[n := inDegree[n] + j]
      invariant forall d, m :: Listed(kids, d, m) ==
                               Listed(children, d, m) + if m == n then Times(ds[..j], d) else 0
    {
      degree := degree[n := degree[n] + 1];
      ghost var before := kids;
      kids := kids[ds[j] := ChildrenOf(kids, ds[j]) + [n]];
      forall d, m ensures Listed(kids, d, m) == Listed(before, d, m) + if m == n && d == ds[j] then 1 else 0 {
        ListOneMore(before, ds[j], n, d, m);
      }
      forall d { TimesSnoc(ds, j, d); }
    }
    assert ds[..|ds|] == ds;
  }

  lemma NothingListed(d: Id, n: Id)
    ensures Listed(map[], d, n) == 0
  {
  }

  lemma ListOneMore(children: Children, parent: Id, child: Id, d: Id, m: Id)
    ensures Listed(children[parent := ChildrenOf(children, parent) + [child]], d, m) ==
            Listed(children, d, m) + if m == child && d == parent then 1 else 0
  {
  }

  /** The first pass of Kahn's algorithm: in-degrees and the reversed edges, with multiplicity. */
  method CountDependencies(ids: seq<Id>, deps: Deps) returns (inDegree: map<Id, nat>, children: Children)
    requires Distinct(ids) && (forall n :: n in ids <==> n in deps)
    ensures Counts(deps, inDegree, {})
    ensures Inverts(deps, children)
  {
    hide Times; hide Listed; hide ChildrenOf; hide Distinct; hide Counts; hide Inverts;
    inDegree := map n | n in deps :: 0;
    children := map[];
    forall d, n { NothingListed(d, n); }
    ghost var seen := {};
    for i := 0 to |ids|
      invariant forall n :: n in seen <==> n in ids[..i]
      invariant inDegree.Keys == deps.Keys
      invariant forall n :: n in deps ==> inDegree[n] == if n in seen then |deps[n]| else 0
      invariant forall d, n :: Listed(children, d, n) == if n in deps && n in seen then Times(deps[n], d) else 0
    {
      NextIsNew(ids, i);
      inDegree, children := CountNode(ids[i], deps[ids[i]], inDegree, children);
      seen := seen + {ids[i]};
    }
    assert ids[..|ids|] == ids;
    CountingDone(deps, inDegree, children);
  }

  lemma CountingDone(deps: Deps, inDegree: map<Id, nat>, children: Children)
    requires inDegree.Keys == deps.Keys && forall n :: n in deps ==> inDegree[n] == |deps[n]|
    requires forall d, n :: Listed(children, d, n) == if n in deps then Times(deps[n], d) else 0
    ensures Counts(deps, inDegree, {}) && Inverts(deps, children)
  {
    forall n | n in deps ensures inDegree[n] == Remaining(deps[n], {}) {
      RemainingAll(deps[n]);
    }
  }

  lemma NextIsNew(ids: seq<Id>, i: nat)
    requires i < |ids| && Distinct(ids)
    ensures ids[i] !in ids[..i]
    ensures forall n :: n in ids[..i + 1] <==> n in ids[..i] || n == ids[i]
  {
    assert ids[..i + 1] == ids[..i] + [ids[i]];
  }

  /** `queue` lists, once each, the nodes outside `known` with nothing left to wait for. */
  ghost predicate Ready(deps: Deps, inDegree: map<Id, nat>, known: set<Id>, queue: seq<Id>)
    requires inDegree.Keys == deps.Keys
  {
    && Distinct(queue)
    && forall n :: n in queue <==> n in deps && n !in known && inDegree[n] == 0
  }

  method ReleaseChild(ghost deps: Deps, ghost known: set<Id>, child: Id, inDegree: map<Id, nat>, nextQueue: seq<Id>)
    returns (degree: map<Id, nat>, queue: seq<Id>)
    requires child in deps && child !in known
    requires inDegree.Keys == deps.Keys && inDegree[child] > 0
    requires Ready(deps, inDegree, known, nextQueue)
    ensures degree == inDegree[child := inDegree[child] - 1]
    ensures Ready(deps, degree, known, queue)
  {
    degree, queue := inDegree[child := inDegree[child] - 1], nextQueue;
    if degree[child] == 0 {
      queue := queue + [child];
    }
  }

  /** One scheduled node releases its children; those that become free join the next level. */
  method ReleaseChildren(
    ghost deps: Deps, ghost done: set<Id>, ghost known: set<Id>,
    n: Id, kids: seq<Id>, inDegree: map<Id, nat>, nextQueue: seq<Id>)
    returns (degree: map<Id, nat>, queue: seq<Id>)
    requires Counts(deps, inDegree, done) && n !in done
    requires forall m :: Times(kids, m) == if m in deps then Times(deps[m], n) else 0
    requires forall m :: m in kids ==> m !in known
    requires Ready(deps, inDegree, known, nextQueue)
    ensures Counts(deps, degree, done + {n}) && degree.Keys == deps.Keys
    ensures Ready(deps, degree, known, queue)
  {
    hide Times; hide Remaining; hide Ready;
    degree, queue := inDegree, nextQueue;
    assert kids[..0] == [];
    forall m { TimesEmpty(m); }
    forall m | m in deps
      ensures inDegree[m] == Remaining(deps[m], done + {n}) + Times(kids, m)
    {
      RemainingAfter(deps[m], done, n);
    }
    for i := 0 to |kids|
      invariant degree.Keys == deps.Keys
      invariant forall m :: m in deps ==> degree[m] + Times(kids[..i], m) == inDegree[m]
      invariant Ready(deps, degree, known, queue)
    {
      forall m { TimesSnoc(kids, i, m); }
      TimesMember(kids, kids[i]);
      degree, queue := ReleaseChild(deps, known, kids[i], degree, queue);
    }
    assert kids[..|kids|] == kids;
  }

  /** `level` lists the nodes of height k, once each. */
  ghost predicate IsLayer(deps: Deps, k: nat, level: seq<Id>) {
    && Distinct(level)
    && forall n :: n in level <==> n in Settled(deps, k + 1) && n !in Settled(deps, k)
  }

  /** The nodes free once `done` is done, when all of `done` is known. */
  lemma ReadyIsNextLayer(deps: Deps, inDegree: map<Id, nat>, k: nat, queue: seq<Id>)
    requires Counts(deps, inDegree, Settled(deps, k))
    requires Ready(deps, inDegree, Settled(deps, k), queue)
    ensures IsLayer(deps, k, queue)
  {
    SettledGrows(deps, k);
    forall n | n in deps
      ensures inDegree[n] == 0 <==> n in Settled(deps, k + 1)
    {
      RemainingZero(deps[n], Settled(deps, k));
    }
  }

  /** Children of a node that is not done cannot be known yet. */
  lemma KidsAreNew(deps: Deps, done: set<Id>, known: set<Id>, children: Children, n: Id)
    requires Inverts(deps, children) && n !in done
    requires forall m, d :: m in known && m in deps && d in deps[m] ==> d in done
    ensures forall m :: m in ChildrenOf(children, n) ==> m !in known
    ensures forall m :: Times(ChildrenOf(children, n), m) == if m in deps then Times(deps[m], n) else 0
  {
    forall m ensures Times(ChildrenOf(children, n), m) == if m in deps then Times(deps[m], n) else 0 {
      assert Listed(children, n, m) == Times(ChildrenOf(children, n), m);
    }
    forall m | m in ChildrenOf(children, n) ensures m !in known {
      TimesMember(ChildrenOf(children, n), m);
      TimesMember(deps[m], n);
    }
  }

  /**
    Drains one level of the queue: everything in `known` but not `done`.  What becomes free
    is queued for the next level.
  */
  method DrainLevel(
    ghost deps: Deps, ghost done: set<Id>, ghost known: set<Id>,
    children: Children, inDegree: map<Id, nat>, queue: seq<Id>)
    returns (degree: map<Id, nat>, level: seq<Id>, nextQueue: seq<Id>)
    requires Counts(deps, inDegree, done) && Inverts(deps, children)
    requires done <= known && Distinct(queue) && forall n :: n in queue <==> n in known && n !in done
    requires forall m, d :: m in known && m in deps && d in deps[m] ==> d in done
    requires forall m :: m in deps && m !in known ==> inDegree[m] > 0
    ensures level == queue
    ensures Counts(deps, degree, known)
    ensures Ready(deps, degree, known, nextQueue)
  {
    hide Inverts; hide Counts; hide Ready; hide ChildrenOf; hide Times; hide Distinct;
    degree, level, nextQueue := inDegree, [], [];
    NoneReady(deps, inDegree, done, known);
    ghost var finished := done;
    var rest := queue;
    while rest != []
      invariant |level| <= |queue| && level == queue[..|level|] && rest == queue[|level|..]
      invariant forall n :: n in finished <==> n in done || n in level
      invariant Counts(deps, degree, finished) && degree.Keys == deps.Keys
      invariant Ready(deps, degree, known, nextQueue)
    {
      var n := rest[0];
      NextIsNew(queue, |level|);
      KidsAreNew(deps, finished, known, children, n);
      degree, nextQueue :=
        ReleaseChildren(deps, finished, known, n, ChildrenOf(children, n), degree, nextQueue);
      level, rest, finished := level + [n], rest[1..], finished + {n};
    }
    assert level == queue;
    assert finished == known;
  }

  lemma NoneReady(deps: Deps, inDegree: map<Id, nat>, done: set<Id>, known: set<Id>)
    requires Counts(deps, inDegree, done)
    requires forall m :: m in deps && m !in known ==> inDegree[m] > 0
    ensures inDegree.Keys == deps.Keys && Ready(deps, inDegree, known, [])
  {
  }

  ghost predicate AreLayers(deps: Deps, levels: seq<seq<Id>>) {
    forall k :: 0 <= k < |levels| ==> IsLayer(deps, k, levels[k]) && levels[k] != []
  }

  lemma DistinctCardinality(s: seq<Id>)
    requires Distinct(s)
    ensures |set n | n in s| == |s|
  {
    if s != [] {
      var init := s[..|s| - 1];
      DistinctCardinality(init);
      assert (set n | n in s) == (set n | n in init) + {s[|s| - 1]};
    }
  }

  lemma {:induction false} TotalIsSettled(deps: Deps, levels: seq<seq<Id>>)
    requires AreLayers(deps, levels)
    ensures Total(levels) == |Settled(deps, |levels|)|
  {
    if levels != [] {
      var k := |levels| - 1;
      var last := levels[k];
      TotalIsSettled(deps, levels[..k]);
      DistinctCardinality(last);
      SettledGrows(deps, k);
      assert IsLayer(deps, k, last);
      assert Settled(deps, k + 1) == Settled(deps, k) + set n | n in last;
    }
  }

  lemma AddLayer(deps: Deps, levels: seq<seq<Id>>, level: seq<Id>)
    requires AreLayers(deps, levels) && IsLayer(deps, |levels|, level) && level != []
    ensures AreLayers(deps, levels + [level])
  {
    forall k | 0 <= k < |levels| + 1 ensures IsLayer(deps, k, (levels + [level])[k]) {
      if k < |levels| {
        assert (levels + [level])[k] == levels[k];
      }
    }
  }

  /** The number of nodes still to be settled after k rounds. */
  ghost function Left(deps: Deps, k: nat): nat {
    |deps.Keys - Settled(deps, k)|
  }

  lemma FewerLeft(deps: Deps, k: nat, n: Id)
    requires n in Settled(deps, k + 1) && n !in Settled(deps, k)
    ensures Left(deps, k + 1) < Left(deps, k)
  {
    hide Settled;
    SettledGrows(deps, k);
    SettledWithin(deps, k + 1);
    ProperSubset(deps.Keys - Settled(deps, k + 1), deps.Keys - Settled(deps, k), n);
  }

  lemma ProperSubset<T>(a: set<T>, b: set<T>, x: T)
    requires a <= b && x in b && x !in a
    ensures |a| < |b|
  {
    assert b == a + (b - a);
    assert x in b - a;
    assert |b - a| > 0;
  }

  /** What holds between two levels: `levels` are peeled off, `queue` is the next one. */
  ghost predicate Peeled(deps: Deps, levels: seq<seq<Id>>, inDegree: map<Id, nat>, queue: seq<Id>) {
    && AreLayers(deps, levels)
    && Counts(deps, inDegree, Settled(deps, |levels|))
    && IsLayer(deps, |levels|, queue)
  }

  method PeelLevel(
    ghost deps: Deps, children: Children, levels: seq<seq<Id>>, inDegree: map<Id, nat>, queue: seq<Id>)
    returns (levels': seq<seq<Id>>, degree: map<Id, nat>, nextQueue: seq<Id>)
    requires Peeled(deps, levels, inDegree, queue) && Inverts(deps, children) && queue != []
    ensures levels' == levels + [queue]
    ensures Peeled(deps, levels', degree, nextQueue)
    ensures Left(deps, |levels'|) < Left(deps, |levels|)
  {
    hide Settled; hide Counts; hide AreLayers; hide IsLayer; hide Inverts; hide Ready; hide Distinct; hide Left;
    ghost var k := |levels|;
    LayerFacts(deps, inDegree, k);
    LayerParts(deps, k, queue);
    AddLayer(deps, levels, queue);
    FewerLeft(deps, k, queue[0]);
    var level;
    degree, level, nextQueue :=
      DrainLevel(deps, Settled(deps, k), Settled(deps, k + 1), children, inDegree, queue);
    levels' := levels + [level];
    ReadyIsNextLayer(deps, degree, k + 1, nextQueue);
  }

  lemma LayerParts(deps: Deps, k: nat, level: seq<Id>)
    requires IsLayer(deps, k, level)
    ensures Distinct(level)
    ensures forall n :: n in level <==> n in Settled(deps, k + 1) && n !in Settled(deps, k)
  {
    hide Settled;
  }

  /** The outer loop of Kahn's algorithm: peel off level after level until the queue runs dry. */
  method PeelLevels(ids: seq<Id>, deps: Deps) returns (inDegree: map<Id, nat>, levels: seq<seq<Id>>)
    requires Distinct(ids) && (forall n :: n in ids <==> n in deps)
    ensures AreLayers(deps, levels)
    ensures Counts(deps, inDegree, Settled(deps, |levels|))
    ensures Settled(deps, |levels| + 1) == Settled(deps, |levels|)
  {
    var children;
    inDegree, children := CountDependencies(ids, deps);
    levels := [];
    var queue := FreeNodes(ids, deps, inDegree);
    ReadyIsNextLayer(deps, inDegree, 0, queue);
    assert Peeled(deps, levels, inDegree, queue);
    while queue != []
      invariant Peeled(deps, levels, inDegree, queue)
      decreases Left(deps, |levels|)
    {
      levels, inDegree, queue := PeelLevel(deps, children, levels, inDegree, queue);
    }
    DryQueue(deps, |levels|, queue);
  }

  lemma DryQueue(deps: Deps, k: nat, queue: seq<Id>)
    requires IsLayer(deps, k, queue) && queue == []
    ensures Settled(deps, k + 1) == Settled(deps, k)
  {
    SettledGrows(deps, k);
  }

  /**
    Kahn's algorithm.  It succeeds exactly on acyclic graphs; a refusal names, in dictionary
    order, exactly the nodes on a cycle or depending on one.
  */
  method KahnLevels(ids: seq<Id>, deps: Deps) returns (r: Result<seq<seq<Id>>, seq<Id>>)
    requires Distinct(ids) && (forall n :: n in ids <==> n in deps) && Closed(deps)
    ensures r.Ok? <==> Acyclic(deps)
    ensures r.Ok? ==> AreLayers(deps, r.value) && Settled(deps, |r.value|) == deps.Keys
    ensures r.Err? ==> r.error == Select(ids, CycleCone(deps)) && r.error != []
  {
    hide Settled; hide Acyclic; hide CycleCone; hide Select; hide Counts; hide AreLayers; hide Distinct;
    var inDegree, levels := PeelLevels(ids, deps);
    AllScheduled(ids, deps, levels);
    StuckAreCone(deps, inDegree, |levels|);
    if Total(levels) != |ids| {
      var stuck := StillWaiting(ids, deps, inDegree);
      UncoveredMeansCycle(ids, deps, |levels|);
      return Err(stuck);
    }
    CoveredMeansAcyclic(deps, |levels|);
    return Ok(levels);
  }

  /** What the cycle error lists is on a cycle, all of it, exactly when nothing outside depends on one. */
  lemma ReportIsCyclesIff(ids: seq<Id>, deps: Deps)
    requires forall n :: n in ids <==> n in deps
    ensures (forall n :: n in Select(ids, CycleCone(deps)) ==> OnCycle(deps, n)) <==> CyclesAreClosed(deps)
  {
    hide OnCycle; hide InCycleCone; hide CyclesAreClosed;
    SelectElements(ids, CycleCone(deps));
    ConeIsCyclesIff(deps);
  }

  /** Such a graph: a depends on itself and b on a; the error lists both, and b is on no cycle. */
  lemma ReportNamesInnocent()
    ensures var deps := map["a" := ["a"], "b" := ["a"]];
            Closed(deps) && Select(["a", "b"], CycleCone(deps)) == ["a", "b"] && !OnCycle(deps, "b")
  {
    var deps := map["a" := ["a"], "b" := ["a"]];
    assert ChainBetween(deps, "a", "a", ["a", "a"]);
    assert OnCycle(deps, "a");
    StepIntoCycle(deps, "a", "a");
    StepIntoCycle(deps, "b", "a");
    OnCycleIsDependency(deps, "b");
    SelectAll(["a", "b"], CycleCone(deps));
  }

  lemma OnCycleIsDependency(deps: Deps, n: Id)
    ensures OnCycle(deps, n) ==> exists m :: m in deps && n in deps[m]
  {
    if OnCycle(deps, n) {
      var c :| ChainBetween(deps, n, n, c) && |c| > 1;
      assert c[|c| - 1] in deps[c[|c| - 2]];
    }
  }

  lemma {:induction false} SelectAll(ids: seq<Id>, s: set<Id>)
    requires forall n :: n in ids ==> n in s
    ensures Select(ids, s) == ids
  {
    if ids != [] {
      SelectAll(ids[..|ids| - 1], s);
    }
  }

  lemma UncoveredMeansCycle(ids: seq<Id>, deps: Deps, k: nat)
    requires (forall n :: n in ids <==> n in deps)
    requires Settled(deps, k) <= deps.Keys && Settled(deps, k) != deps.Keys
    requires forall n :: n in deps ==> (n in Settled(deps, k) <==> n !in CycleCone(deps))
    ensures !Acyclic(deps) && Select(ids, CycleCone(deps)) != []
  {
    var n :| n in deps && n !in Settled(deps, k);
    SelectElements(ids, CycleCone(deps));
    assert n in Select(ids, CycleCone(deps));
    ConeMeansCyclic(deps, n);
  }

  lemma CoveredMeansAcyclic(deps: Deps, k: nat)
    requires Settled(deps, k) == deps.Keys
    requires forall n :: n in deps ==> (n in Settled(deps, k) <==> n !in CycleCone(deps))
    ensures Acyclic(deps)
  {
    forall n | n in deps ensures !OnCycle(deps, n) {
      if OnCycle(deps, n) {
        OnCycleInCone(deps, n);
      }
    }
  }

  lemma LayerFacts(deps: Deps, inDegree: map<Id, nat>, k: nat)
    requires Counts(deps, inDegree, Settled(deps, k))
    ensures Settled(deps, k) <= Settled(deps, k + 1) <= deps.Keys
    ensures forall m, d :: m in Settled(deps, k + 1) && m in deps && d in deps[m] ==> d in Settled(deps, k)
    ensures forall m :: m in deps && m !in Settled(deps, k + 1) ==> inDegree[m] > 0
  {
    SettledGrows(deps, k);
    SettledWithin(deps, k + 1);
    forall m | m in deps && m !in Settled(deps, k + 1) ensures inDegree[m] > 0 {
      RemainingZero(deps[m], Settled(deps, k));
    }
  }

  /** The scheduled total reaches the number of nodes exactly when every node has settled. */
  lemma AllScheduled(ids: seq<Id>, deps: Deps, levels: seq<seq<Id>>)
    requires Distinct(ids) && (forall n :: n in ids <==> n in deps) && AreLayers(deps, levels)
    ensures Total(levels) == |ids| <==> Settled(deps, |levels|) == deps.Keys
    ensures Settled(deps, |levels|) <= deps.Keys
  {
    TotalIsSettled(deps, levels);
    SettledWithin(deps, |levels|);
    SameSize(Settled(deps, |levels|), deps.Keys);
    DistinctCardinality(ids);
    assert (set n | n in ids) == deps.Keys;
  }

  method FreeNodes(ids: seq<Id>, ghost deps: Deps, inDegree: map<Id, nat>) returns (queue: seq<Id>)
    requires Distinct(ids) && (forall n :: n in ids <==> n in deps) && inDegree.Keys == deps.Keys
    ensures Ready(deps, inDegree, {}, queue)
  {
    queue := [];
    for i := 0 to |ids|
      invariant Distinct(queue)
      invariant forall n :: n in queue <==> n in ids[..i] && inDegree[n] == 0
    {
      assert ids[..i + 1] == ids[..i] + [ids[i]];
      if inDegree[ids[i]] == 0 {
        queue := queue + [ids[i]];
      }
    }
    assert ids[..|ids|] == ids;
  }

  method StillWaiting(ids: seq<Id>, ghost deps: Deps, inDegree: map<Id, nat>) returns (stuck: seq<Id>)
    requires (forall n :: n in ids <==> n in deps) && inDegree.Keys == deps.Keys
    ensures stuck == Select(ids, set n | n in deps && inDegree[n] > 0)
  {
    stuck := [];
    ghost var waiting := set n | n in deps && inDegree[n] > 0;
    for i := 0 to |ids|
      invariant stuck == Select(ids[..i], waiting)
    {
      assert ids[..i + 1][..i] == ids[..i];
      if inDegree[ids[i]] > 0 {
        stuck := stuck + [ids[i]];
      }
    }
    assert ids[..|ids|] == ids;
  }

  lemma SameSize(a: set<Id>, b: set<Id>)
    requires a <= b
    ensures |a| == |b| <==> a == b
  {
    assert b == a + (b - a);
    if a != b {
      var x :| x in b - a;
      assert |b - a| > 0;
    }
  }

  /** When the queue runs dry, the nodes with a positive in-degree are the cycle cone. */
  lemma StuckAreCone(deps: Deps, inDegree: map<Id, nat>, k: nat)
    requires Closed(deps) && Counts(deps, inDegree, Settled(deps, k))
    requires Settled(deps, k + 1) == Settled(deps, k)
    ensures (set n | n in deps && inDegree[n] > 0) == CycleCone(deps)
    ensures forall n :: n in deps ==> (n in Settled(deps, k) <==> n !in CycleCone(deps))
  {
    hide Settled; hide InCycleCone; hide Remaining;
    forall n | n in deps
      ensures inDegree[n] > 0 <==> InCycleCone(deps, n)
      ensures n in Settled(deps, k) <==> !InCycleCone(deps, n)
    {
      RemainingZero(deps[n], Settled(deps, k));
      SettledFixpoint(deps, k, n);
      StuckIsCone(deps, k, n);
    }
  }

  lemma SettledFixpoint(deps: Deps, k: nat, n: Id)
    requires n in deps && Settled(deps, k + 1) == Settled(deps, k)
    ensures n in Settled(deps, k) <==> forall d :: d in deps[n] ==> d in Settled(deps, k)
  {
  }
}
