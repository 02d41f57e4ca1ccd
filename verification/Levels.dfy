/**
  What the levels of an acyclic graph are, in terms of chains only, and why no schedule that
  runs in rounds can have fewer of them.
*/
module Levels {
  import opened Dependencies
  import opened Kahn

  /** Levels by height: what Kahn's algorithm promises, in terms of chains only. */
  ghost predicate Layered(deps: Deps, levels: seq<seq<Id>>) {
    && (forall k :: 0 <= k < |levels| ==> levels[k] != [] && Distinct(levels[k]))
    && (forall k, n :: 0 <= k < |levels| ==> (n in levels[k] <==> n in deps && HasHeight(deps, n, k)))
    && (forall n {:trigger Placed(levels, n)} :: n in deps ==> Placed(levels, n))
  }

  ghost predicate Placed(levels: seq<seq<Id>>, n: Id) {
    exists k :: 0 <= k < |levels| && n in levels[k]
  }

  lemma LayersAreLayered(deps: Deps, levels: seq<seq<Id>>)
    requires Closed(deps) && AreLayers(deps, levels) && Settled(deps, |levels|) == deps.Keys
    ensures Layered(deps, levels)
  {
    forall k, n | 0 <= k < |levels|
      ensures n in levels[k] <==> n in deps && HasHeight(deps, n, k)
    {
      assert IsLayer(deps, k, levels[k]);
      if n in deps {
        LayerIsHeight(deps, n, k);
      }
      SettledWithin(deps, k + 1);
    }
    forall n | n in deps ensures Placed(levels, n) {
      var k := FirstRound(deps, n, |levels|);
      assert IsLayer(deps, k, levels[k]);
    }
  }

  lemma FirstRound(deps: Deps, n: Id, bound: nat) returns (k: nat)
    requires n in Settled(deps, bound)
    ensures k < bound && n in Settled(deps, k + 1) && n !in Settled(deps, k)
  {
    k := 0;
    while n !in Settled(deps, k + 1)
      invariant k < bound && n !in Settled(deps, k)
      decreases bound - k
    {
      if k + 1 == bound { assert false; }
      k := k + 1;
    }
  }

  lemma {:induction false} HeightIsUnique(deps: Deps, n: Id, j: nat, k: nat)
    requires HasHeight(deps, n, j) && HasHeight(deps, n, k)
    ensures j == k
  {
    var c :| ChainFrom(deps, n, c) && |c| == j + 1;
    var d :| ChainFrom(deps, n, d) && |d| == k + 1;
    assert |c| <= k + 1 && |d| <= j + 1;
  }

  function Flatten(levels: seq<seq<Id>>): seq<Id> {
    if levels == [] then [] else Flatten(levels[..|levels| - 1]) + levels[|levels| - 1]
  }

  /** The node is on one of the first k levels. */
  ghost predicate PlacedBelow(levels: seq<seq<Id>>, k: nat, n: Id)
    requires k <= |levels|
  {
    exists j :: 0 <= j < k && n in levels[j]
  }

  /** Layered levels hold every node exactly once. */
  lemma EachNodeOnce(deps: Deps, levels: seq<seq<Id>>)
    requires Layered(deps, levels)
    ensures multiset(Flatten(levels)) == multiset(deps.Keys)
  {
    forall n ensures multiset(Flatten(levels))[n] == multiset(deps.Keys)[n] {
      hide *;
      AllPlaced(deps, levels, n);
      OccurrencesInLevels(deps, levels, |levels|, n);
      assert levels[..|levels|] == levels;
    }
  }

  lemma AllPlaced(deps: Deps, levels: seq<seq<Id>>, n: Id)
    requires Layered(deps, levels)
    ensures PlacedBelow(levels, |levels|, n) <==> n in deps
  {
    hide HasHeight; hide Distinct;
    if n in deps {
      assert Placed(levels, n);
    }
  }

  lemma {:induction false} OccurrencesInLevels(deps: Deps, levels: seq<seq<Id>>, upTo: nat, n: Id)
    requires Layered(deps, levels) && upTo <= |levels|
    ensures multiset(Flatten(levels[..upTo]))[n] == if PlacedBelow(levels, upTo, n) then 1 else 0
  {
    hide *;
    if upTo == 0 {
      FlattenNothing(levels, n);
    } else {
      OccurrencesInLevels(deps, levels, upTo - 1, n);
      FlattenLevel(levels, upTo - 1, n);
      OnlyHere(deps, levels, upTo - 1, n);
      OccursOnce(levels[upTo - 1], n);
    }
  }

  lemma FlattenNothing(levels: seq<seq<Id>>, n: Id)
    ensures Flatten(levels[..0]) == [] && !PlacedBelow(levels, 0, n)
  {
  }

  lemma FlattenLevel(levels: seq<seq<Id>>, k: nat, n: Id)
    requires k < |levels|
    ensures multiset(Flatten(levels[..k + 1]))[n] == multiset(Flatten(levels[..k]))[n] + multiset(levels[k])[n]
    ensures PlacedBelow(levels, k + 1, n) <==> PlacedBelow(levels, k, n) || n in levels[k]
  {
    assert levels[..k + 1][..k] == levels[..k];
    assert Flatten(levels[..k + 1]) == Flatten(levels[..k]) + levels[k];
  }

  lemma OnlyHere(deps: Deps, levels: seq<seq<Id>>, k: nat, n: Id)
    requires Layered(deps, levels) && k < |levels|
    ensures Distinct(levels[k]) && (n in levels[k] ==> !PlacedBelow(levels, k, n))
  {
    hide HasHeight; hide Distinct;
    if n in levels[k] && PlacedBelow(levels, k, n) {
      var j :| 0 <= j < k && n in levels[j];
      HeightIsUnique(deps, n, j, k);
    }
  }

  lemma OccursOnce(s: seq<Id>, n: Id)
    requires Distinct(s)
    ensures multiset(s)[n] == if n in s then 1 else 0
  {
    if s != [] {
      OccursOnce(s[..|s| - 1], n);
      assert s == s[..|s| - 1] + [s[|s| - 1]];
    }
  }

  /** No level-by-level schedule of the same graph has fewer rounds, and the levels are one. */
  lemma FewestRounds(deps: Deps, levels: seq<seq<Id>>, slot: map<Id, nat>, rounds: nat)
    requires Closed(deps) && Layered(deps, levels) && IsSchedule(deps, slot, rounds)
    ensures |levels| <= rounds
  {
    if |levels| > 0 {
      var top := |levels| - 1;
      var n := levels[top][0];
      assert n in levels[top];
      HeightBoundsSchedules(deps, n, top, slot, rounds);
    }
  }

  lemma LevelsAreSchedule(deps: Deps, levels: seq<seq<Id>>, slot: map<Id, nat>)
    requires Closed(deps) && Layered(deps, levels)
    requires slot.Keys == deps.Keys && forall n :: n in slot ==> HasHeight(deps, n, slot[n])
    ensures IsSchedule(deps, slot, |levels|)
  {
    hide HasHeight;
    forall n | n in deps ensures slot[n] < |levels| {
      var k := LevelOf(deps, levels, n);
      HeightIsUnique(deps, n, k, slot[n]);
    }
    forall n, d | n in deps && d in deps[n] && d in slot ensures slot[d] < slot[n] {
      HeightDrops(deps, n, slot[n], d, slot[d]);
    }
  }

  ghost function Elements(s: seq<Id>): set<Id> {
    set n | n in s
  }

  /** The nodes of the first k levels. */
  ghost function Upto(levels: seq<seq<Id>>, k: nat): set<Id>
    requires k <= |levels|
  {
    if k == 0 then {} else Upto(levels, k - 1) + Elements(levels[k - 1])
  }

  lemma UptoHas(levels: seq<seq<Id>>, k: nat, j: nat, n: Id)
    requires j < k <= |levels| && n in levels[j]
    ensures n in Upto(levels, k)
  {
  }

  lemma UptoFrom(levels: seq<seq<Id>>, k: nat, n: Id) returns (j: nat)
    requires k <= |levels| && n in Upto(levels, k)
    ensures j < k && n in levels[j]
  {
    if n in levels[k - 1] {
      j := k - 1;
    } else {
      j := UptoFrom(levels, k - 1, n);
    }
  }

  lemma LevelOf(deps: Deps, levels: seq<seq<Id>>, n: Id) returns (k: nat)
    requires Layered(deps, levels) && n in deps
    ensures k < |levels| && n in levels[k] && HasHeight(deps, n, k)
  {
    assert Placed(levels, n);
    k :| 0 <= k < |levels| && n in levels[k];
  }

  /** What a node depends on is on a lower level. */
  lemma {:induction false} DependencyIsLower(deps: Deps, levels: seq<seq<Id>>, n: Id, k: nat, d: Id)
    requires Closed(deps) && Layered(deps, levels) && k < |levels| && n in levels[k]
    requires n in deps && d in deps[n]
    ensures d in Upto(levels, k)
  {
    var j := LevelOf(deps, levels, d);
    HeightDrops(deps, n, k, d, j);
    UptoHas(levels, k, j, d);
  }

  lemma HeightDrops(deps: Deps, n: Id, k: nat, d: Id, j: nat)
    requires n in deps && d in deps[n] && HasHeight(deps, n, k) && HasHeight(deps, d, j)
    ensures j < k
  {
    var c :| ChainFrom(deps, d, c) && |c| == j + 1;
    assert ChainFrom(deps, n, [n] + c);
  }

  /** A node of level k is on no lower level. */
  lemma {:induction false} LevelIsNew(deps: Deps, levels: seq<seq<Id>>, n: Id, k: nat)
    requires Layered(deps, levels) && k < |levels| && n in levels[k]
    ensures n in deps && n !in Upto(levels, k)
  {
    assert HasHeight(deps, n, k);
    if n in Upto(levels, k) {
      var j := UptoFrom(levels, k, n);
      assert HasHeight(deps, n, j);
      HeightIsUnique(deps, n, j, k);
    }
  }

  lemma UptoAll(deps: Deps, levels: seq<seq<Id>>)
    requires Layered(deps, levels)
    ensures Upto(levels, |levels|) == deps.Keys
  {
    hide *;
    forall n ensures n in Upto(levels, |levels|) <==> n in deps {
      if n in deps {
        var k := LevelOf(deps, levels, n);
        UptoHas(levels, |levels|, k, n);
      }
      if n in Upto(levels, |levels|) {
        var j := UptoFrom(levels, |levels|, n);
        LevelIsNew(deps, levels, n, j);
      }
    }
  }

  lemma {:induction false} FlattenUpto(levels: seq<seq<Id>>, k: nat)
    requires k <= |levels|
    ensures forall n :: n in Flatten(levels[..k]) <==> n in Upto(levels, k)
  {
    if k > 0 {
      FlattenUpto(levels, k - 1);
      assert levels[..k][..k - 1] == levels[..k - 1];
    }
  }

  /** Reading the levels one after another gives a topological order, so there always is one. */
  lemma FlattenIsTopological(deps: Deps, levels: seq<seq<Id>>)
    requires Closed(deps) && Layered(deps, levels)
    ensures TopologicalOrder(deps, Flatten(levels))
  {
    FlattenInOrder(deps, levels, |levels|);
    FlattenUpto(levels, |levels|);
    UptoAll(deps, levels);
    assert levels[..|levels|] == levels;
    hide InDependencyOrder;
  }

  lemma {:induction false} FlattenInOrder(deps: Deps, levels: seq<seq<Id>>, k: nat)
    requires Closed(deps) && Layered(deps, levels) && k <= |levels|
    ensures InDependencyOrder(deps, Flatten(levels[..k]))
  {
    if k > 0 {
      FlattenInOrder(deps, levels, k - 1);
      FlattenUpto(levels, k - 1);
      var last := levels[k - 1];
      forall n | n in last
        ensures n in deps && n !in Upto(levels, k - 1)
        ensures forall d :: d in deps[n] ==> d in Upto(levels, k - 1)
      {
        LevelIsNew(deps, levels, n, k - 1);
        forall d | d in deps[n] ensures d in Upto(levels, k - 1) {
          DependencyIsLower(deps, levels, n, k - 1, d);
        }
      }
      assert levels[..k][..k - 1] == levels[..k - 1];
      assert Flatten(levels[..k]) == Flatten(levels[..k - 1]) + last;
      hide Layered; hide Flatten; hide Upto; hide InDependencyOrder;
      AppendLevel(deps, Flatten(levels[..k - 1]), last);
    }
  }

  lemma AppendLevel(deps: Deps, order: seq<Id>, level: seq<Id>)
    requires InDependencyOrder(deps, order) && Distinct(level)
    requires forall n :: n in level ==> n in deps && n !in order && forall d :: d in deps[n] ==> d in order
    ensures InDependencyOrder(deps, order + level)
  {
    var all := order + level;
    forall i, j | 0 <= i < j < |all| ensures all[i] != all[j] {
      if i < |order| <= j {
        assert all[i] in order && all[j] in level;
      }
    }
    forall i, d | 0 <= i < |all| && all[i] in deps && d in deps[all[i]] ensures d in all[..i] {
      if i < |order| {
        assert all[..i] == order[..i];
      } else {
        assert all[i] == level[i - |order|];
        assert all[..i][..|order|] == order;
      }
    }
  }

  lemma HeightHasDependency(deps: Deps, n: Id, k: nat)
    requires HasHeight(deps, n, k) && k > 0
    ensures n in deps && deps[n] != []
  {
    var c :| ChainFrom(deps, n, c) && |c| == k + 1;
    assert c[1] in deps[c[0]];
  }

  /** Without any edge there is at most one level. */
  lemma EdgelessHasOneLevel(deps: Deps, levels: seq<seq<Id>>)
    requires Layered(deps, levels) && forall n :: n in deps ==> deps[n] == []
    ensures |levels| <= 1
  {
    if |levels| > 1 {
      var n := levels[1][0];
      assert n in levels[1];
      HeightHasDependency(deps, n, 1);
    }
  }
}
