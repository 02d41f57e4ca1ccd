/**
  The dependency relation of a task graph, seen without any algorithm: chains, cycles and
  the length of the longest chain below a node.  Duplicate entries in a dependency list are
  allowed throughout.
*/
module Dependencies {
  type Id = string
  type Deps = map<Id, seq<Id>>

  /** Every dependency is itself a node. */
  ghost predicate Closed(deps: Deps) {
    forall n, d :: n in deps && d in deps[n] ==> d in deps
  }

  /** c[0] depends on c[1], which depends on c[2], and so on. */
  ghost predicate Chain(deps: Deps, c: seq<Id>) {
    && c != []
    && (forall i :: 0 <= i < |c| ==> c[i] in deps)
    && (forall i, j :: 0 <= i < j < |c| && j == i + 1 ==> c[j] in deps[c[i]])
  }

  ghost predicate ChainFrom(deps: Deps, n: Id, c: seq<Id>) {
    Chain(deps, c) && c[0] == n
  }

  ghost predicate ChainBetween(deps: Deps, n: Id, m: Id, c: seq<Id>) {
    ChainFrom(deps, n, c) && c[|c| - 1] == m
  }

  /** n is m, or depends on m directly or through other nodes. */
  ghost predicate Reaches(deps: Deps, n: Id, m: Id) {
    exists c :: ChainBetween(deps, n, m, c)
  }

  ghost predicate DependsOn(deps: Deps, n: Id, m: Id) {
    exists c :: ChainBetween(deps, n, m, c) && |c| > 1
  }

  ghost predicate OnCycle(deps: Deps, n: Id) {
    DependsOn(deps, n, n)
  }

  ghost predicate Acyclic(deps: Deps) {
    forall n :: n in deps ==> !OnCycle(deps, n)
  }

  /** The nodes that lie on a cycle or depend, however indirectly, on one that does. */
  ghost predicate InCycleCone(deps: Deps, n: Id) {
    exists m :: Reaches(deps, n, m) && OnCycle(deps, m)
  }

  /** The longest chain that starts at n has exactly `height` links. */
  ghost predicate HasHeight(deps: Deps, n: Id, height: nat) {
    && (exists c :: ChainFrom(deps, n, c) && |c| == height + 1)
    && (forall c :: ChainFrom(deps, n, c) ==> |c| <= height + 1)
  }

  /** The nodes whose dependencies can be cleared away in k rounds. */
  ghost function Settled(deps: Deps, k: nat): set<Id> {
    if k == 0 then {}
    else
      var below := Settled(deps, k - 1);
      set n | n in deps && forall d :: d in deps[n] ==> d in below
  }

  lemma SettledBelow(deps: Deps, n: Id, k: nat)
    requires n in Settled(deps, k)
    ensures k > 0 && n in deps && forall d :: d in deps[n] ==> d in Settled(deps, k - 1)
  {
  }

  lemma SettledGrows(deps: Deps, k: nat)
    ensures Settled(deps, k) <= Settled(deps, k + 1)
  {
    if k > 0 {
      SettledGrows(deps, k - 1);
    }
  }

  /** Settled in k rounds: no chain from the node has more than k nodes. */
  lemma {:induction false} SettledBoundsChains(deps: Deps, n: Id, k: nat, c: seq<Id>)
    requires n in Settled(deps, k) && ChainFrom(deps, n, c)
    ensures |c| <= k
    decreases k
  {
    if |c| > 1 {
      var rest := c[1..];
      assert forall i :: 0 <= i < |rest| ==> rest[i] == c[i + 1];
      assert c[1] in deps[c[0]];
      SettledBoundsChains(deps, c[1], k - 1, rest);
    }
  }

  /** Not settled in k rounds: some chain from the node has k + 1 nodes. */
  lemma {:induction false} UnsettledHasChain(deps: Deps, n: Id, k: nat) returns (c: seq<Id>)
    requires Closed(deps) && n in deps && n !in Settled(deps, k)
    ensures ChainFrom(deps, n, c) && |c| == k + 1
    decreases k
  {
    if k == 0 {
      c := [n];
    } else {
      var d :| d in deps[n] && d !in Settled(deps, k - 1);
      var rest := UnsettledHasChain(deps, d, k - 1);
      c := [n] + rest;
    }
  }

  /** The k-th layer is exactly the set of nodes of height k. */
  lemma LayerIsHeight(deps: Deps, n: Id, k: nat)
    requires Closed(deps) && n in deps
    ensures n in Settled(deps, k + 1) && n !in Settled(deps, k) <==> HasHeight(deps, n, k)
  {
    if n in Settled(deps, k + 1) && n !in Settled(deps, k) {
      var c := UnsettledHasChain(deps, n, k);
      forall c | ChainFrom(deps, n, c) ensures |c| <= k + 1 {
        SettledBoundsChains(deps, n, k + 1, c);
      }
    }
    if HasHeight(deps, n, k) {
      if n !in Settled(deps, k + 1) {
        var c := UnsettledHasChain(deps, n, k + 1);
        assert false;
      }
      if n in Settled(deps, k) {
        var c :| ChainFrom(deps, n, c) && |c| == k + 1;
        SettledBoundsChains(deps, n, k, c);
      }
    }
  }

  lemma {:induction false} Pigeonhole(s: set<Id>, c: seq<Id>) returns (i: nat, j: nat)
    requires |c| > |s| && forall k :: 0 <= k < |c| ==> c[k] in s
    ensures i < j < |c| && c[i] == c[j]
    decreases |s|
  {
    var last := c[|c| - 1];
    if k :| 0 <= k < |c| - 1 && c[k] == last {
      i, j := k, |c| - 1;
    } else {
      i, j := Pigeonhole(s - {last}, c[..|c| - 1]);
    }
  }

  /** A chain with more nodes than the graph runs into a cycle. */
  lemma LongChainMeetsCycle(deps: Deps, n: Id, c: seq<Id>)
    requires ChainFrom(deps, n, c) && |c| > |deps.Keys|
    ensures InCycleCone(deps, n)
  {
    var i, j := Pigeonhole(deps.Keys, c);
    var lead, loop := c[..i + 1], c[i..j + 1];
    assert ChainBetween(deps, n, c[i], lead);
    assert ChainBetween(deps, c[i], c[i], loop) && |loop| > 1;
    assert OnCycle(deps, c[i]);
  }

  lemma {:induction false} ConeNeverSettles(deps: Deps, n: Id, k: nat)
    requires InCycleCone(deps, n)
    ensures n !in Settled(deps, k)
    decreases k
  {
    if n in Settled(deps, k) {
      var d := ConeStep(deps, n);
      ConeNeverSettles(deps, d, k - 1);
    }
  }

  /** Every node of the cone has a dependency in the cone. */
  lemma ConeStep(deps: Deps, n: Id) returns (d: Id)
    requires InCycleCone(deps, n)
    ensures n in deps && d in deps[n] && InCycleCone(deps, d)
  {
    var m :| Reaches(deps, n, m) && OnCycle(deps, m);
    var c :| ChainBetween(deps, n, m, c);
    if |c| > 1 {
      d := c[1];
      assert ChainBetween(deps, d, m, c[1..]);
      assert Reaches(deps, d, m);
    } else {
      var loop :| ChainBetween(deps, m, m, loop) && |loop| > 1;
      d := loop[1];
      assert ChainBetween(deps, d, m, loop[1..]);
      assert Reaches(deps, d, m);
    }
  }

  /** Once a round clears nothing new, what is left is the cycle cone. */
  lemma {:induction false} StuckIsCone(deps: Deps, k: nat, n: Id)
    requires Closed(deps) && n in deps
    requires Settled(deps, k + 1) == Settled(deps, k)
    ensures n in Settled(deps, k) <==> !InCycleCone(deps, n)
  {
    hide Settled; hide InCycleCone; hide ChainFrom; hide Closed;
    if InCycleCone(deps, n) {
      ConeNeverSettles(deps, n, k);
    }
    if n !in Settled(deps, k) {
      SettledStops(deps, k, k + |deps.Keys|);
      var c := UnsettledHasChain(deps, n, k + |deps.Keys|);
      LongChainMeetsCycle(deps, n, c);
    }
  }

  lemma {:induction false} SettledStops(deps: Deps, k: nat, m: nat)
    requires Settled(deps, k + 1) == Settled(deps, k) && k <= m
    ensures Settled(deps, m) == Settled(deps, k)
    decreases m
  {
    if k < m {
      SettledStops(deps, k, m - 1);
      assert Settled(deps, m) == Settled(deps, k + 1);
    }
  }

  lemma ConeMeansCyclic(deps: Deps, n: Id)
    requires InCycleCone(deps, n)
    ensures !Acyclic(deps)
  {
    var m :| Reaches(deps, n, m) && OnCycle(deps, m);
    var c :| ChainBetween(deps, n, m, c);
    assert c[|c| - 1] in deps;
  }

  lemma OnCycleInCone(deps: Deps, n: Id)
    requires n in deps && OnCycle(deps, n)
    ensures InCycleCone(deps, n)
  {
    assert ChainBetween(deps, n, n, [n]);
    assert Reaches(deps, n, n);
  }

  /** Whatever depends on a node of a cycle directly is on a cycle itself. */
  ghost predicate CyclesAreClosed(deps: Deps) {
    forall n, d :: n in deps && d in deps[n] && OnCycle(deps, d) ==> OnCycle(deps, n)
  }

  /** The cone is no more than the cycles exactly when no edge leads into a cycle from outside. */
  lemma ConeIsCyclesIff(deps: Deps)
    ensures (forall n :: n in deps && InCycleCone(deps, n) ==> OnCycle(deps, n)) <==> CyclesAreClosed(deps)
  {
    hide OnCycle; hide InCycleCone;
    if CyclesAreClosed(deps) {
      forall n | n in deps && InCycleCone(deps, n) ensures OnCycle(deps, n) {
        var m, c := ConePath(deps, n);
        CycleSpreads(deps, c);
      }
    }
    if forall n :: n in deps && InCycleCone(deps, n) ==> OnCycle(deps, n) {
      forall n, d | n in deps && d in deps[n] && OnCycle(deps, d) ensures OnCycle(deps, n) {
        StepIntoCycle(deps, n, d);
      }
    }
  }

  lemma ConePath(deps: Deps, n: Id) returns (m: Id, c: seq<Id>)
    requires InCycleCone(deps, n)
    ensures ChainBetween(deps, n, m, c) && OnCycle(deps, m)
  {
    m :| Reaches(deps, n, m) && OnCycle(deps, m);
    c :| ChainBetween(deps, n, m, c);
  }

  lemma {:induction false} CycleSpreads(deps: Deps, c: seq<Id>)
    requires CyclesAreClosed(deps) && Chain(deps, c) && OnCycle(deps, c[|c| - 1])
    ensures OnCycle(deps, c[0])
  {
    hide OnCycle;
    if |c| > 1 {
      assert c[1] in deps[c[0]];
      CycleSpreads(deps, c[1..]);
    }
  }

  lemma StepIntoCycle(deps: Deps, n: Id, d: Id)
    requires n in deps && d in deps[n] && OnCycle(deps, d)
    ensures InCycleCone(deps, n)
  {
    var loop :| ChainBetween(deps, d, d, loop) && |loop| > 1;
    assert ChainBetween(deps, n, d, [n, d]);
    assert Reaches(deps, n, d);
  }

  /** In an acyclic graph everything settles. */
  lemma AcyclicSettles(deps: Deps)
    requires Closed(deps) && Acyclic(deps)
    ensures Settled(deps, |deps.Keys|) == deps.Keys
  {
    forall n | n in deps ensures n in Settled(deps, |deps.Keys|) {
      if n !in Settled(deps, |deps.Keys|) {
        var c := UnsettledHasChain(deps, n, |deps.Keys|);
        LongChainMeetsCycle(deps, n, c);
        ConeMeansCyclic(deps, n);
      }
    }
    SettledWithin(deps, |deps.Keys|);
  }

  lemma SettledWithin(deps: Deps, k: nat)
    ensures Settled(deps, k) <= deps.Keys
  {
  }

  /**
    `slot` runs every node in some round, and each node strictly after what it depends on;
    `rounds` is the number of rounds.
  */
  ghost predicate IsSchedule(deps: Deps, slot: map<Id, nat>, rounds: nat) {
    && slot.Keys == deps.Keys
    && (forall n :: n in deps ==> slot[n] < rounds)
    && (forall n, d :: n in deps && d in deps[n] && d in slot ==> slot[d] < slot[n])
  }

  lemma {:induction false} ChainNeedsSlots(deps: Deps, slot: map<Id, nat>, rounds: nat, c: seq<Id>)
    requires IsSchedule(deps, slot, rounds) && Chain(deps, c)
    ensures |c| <= slot[c[0]] + 1
  {
    if |c| > 1 {
      assert c[1] in deps[c[0]];
      ChainNeedsSlots(deps, slot, rounds, c[1..]);
    }
  }

  /** No schedule can have fewer rounds than the height of any node plus one. */
  lemma HeightBoundsSchedules(deps: Deps, n: Id, height: nat, slot: map<Id, nat>, rounds: nat)
    requires n in deps && HasHeight(deps, n, height) && IsSchedule(deps, slot, rounds)
    ensures height < rounds
  {
    var c :| ChainFrom(deps, n, c) && |c| == height + 1;
    ChainNeedsSlots(deps, slot, rounds, c);
  }

  /** Distinct nodes, each listed after all the nodes it depends on. */
  ghost predicate InDependencyOrder(deps: Deps, order: seq<Id>) {
    && (forall n :: n in order ==> n in deps)
    && (forall i, j :: 0 <= i < j < |order| ==> order[i] != order[j])
    && (forall i, d :: 0 <= i < |order| && order[i] in deps && d in deps[order[i]] ==> d in order[..i])
  }

  /** ... and every node is listed. */
  ghost predicate TopologicalOrder(deps: Deps, order: seq<Id>) {
    InDependencyOrder(deps, order) && forall n :: n in deps ==> n in order
  }
}
