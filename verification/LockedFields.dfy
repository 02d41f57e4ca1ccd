/**
  The gate that keeps locked configuration fields out of automatic changes, and the loop that
  applies a batch of proposals through it.
*/
module LockedFields {
  import opened Wrappers
  import opened JsonTrees
  import opened ConfigMerge

  const IEP_LOCKED_FIELDS: set<string> := {
    "crossover_probability_explore_ceiling", "crossover_probability_exploit_floor",
    "crossover_probability_explore", "crossover_probability_exploit",
    "critic_gate_max_passes", "latent_ensemble_min_variants", "halt_over_hallucinate",
    "fix_log_critical_ceiling", "critical_ceiling",
    "approval_required_for", "credential_touch", "production_deploy",
    "auto_apply_risk_floor", "allow_destructive_actions", "secrets_hygiene",
    "auto_apply_eligible", "blast_radius"
  }

  /** The key occurs somewhere under nested objects of j. */
  predicate Mentions(j: Json, key: string) {
    j.Object? && (key in j.fields || exists k :: k in j.fields && Mentions(j.fields[k], key))
  }

  /** ... that is, some path that ends with the key leads to a value. */
  lemma {:induction false} MentionsIffPath(j: Json, key: string)
    ensures Mentions(j, key) <==> exists p :: Lookup(j, p + [key]).Some?
  {
    if Mentions(j, key) {
      var p := MentionedPath(j, key);
    }
    if p :| Lookup(j, p + [key]).Some? {
      PathMentioned(j, p, key);
    }
  }

  lemma MentionedPath(j: Json, key: string) returns (p: Path)
    requires Mentions(j, key)
    ensures Lookup(j, p + [key]).Some?
  {
    if key in j.fields {
      p := [];
      assert Lookup(j, [key]) == Lookup(j.fields[key], []);
    } else {
      var k :| k in j.fields && Mentions(j.fields[k], key);
      var rest := MentionedPath(j.fields[k], key);
      p := [k] + rest;
      assert (p + [key])[1..] == rest + [key];
    }
  }

  lemma PathMentioned(j: Json, p: Path, key: string)
    requires Lookup(j, p + [key]).Some?
    ensures Mentions(j, key)
    decreases |p|
  {
    if p != [] {
      assert (p + [key])[1..] == p[1..] + [key];
      PathMentioned(j.fields[p[0]], p[1..], key);
    }
  }

  // ----- keys that the walk does not see -----

  /** One step down a tree, into an object or into an array. */
  datatype Step = Key(name: string) | Item(index: nat)

  function Follow(j: Json, steps: seq<Step>): Option<Json>
    decreases |steps|
  {
    if steps == [] then Some(j)
    else
      match steps[0]
      case Key(name) => if j.Object? && name in j.fields then Follow(j.fields[name], steps[1..]) else None
      case Item(index) => if j.Array? && index < |j.items| then Follow(j.items[index], steps[1..]) else None
  }

  /** The key occurs after these steps, anywhere in the tree. */
  predicate OccursAt(j: Json, steps: seq<Step>, key: string) {
    Follow(j, steps + [Key(key)]).Some?
  }

  predicate UnderArray(steps: seq<Step>) {
    exists i :: 0 <= i < |steps| && steps[i].Item?
  }

  function Keys(p: Path): seq<Step> {
    seq(|p|, i requires 0 <= i < |p| => Key(p[i]))
  }

  lemma {:induction false} FollowIsLookup(j: Json, p: Path)
    ensures Follow(j, Keys(p)) == Lookup(j, p)
    decreases |p|
  {
    if p != [] {
      assert Keys(p)[1..] == Keys(p[1..]);
      if j.Object? && p[0] in j.fields {
        FollowIsLookup(j.fields[p[0]], p[1..]);
      }
    }
  }

  /** The walk sees a key exactly when some occurrence of it is not under an array. */
  lemma SeenIffOutsideArrays(j: Json, key: string)
    ensures Mentions(j, key) <==> exists steps :: OccursAt(j, steps, key) && !UnderArray(steps)
  {
    MentionsIffPath(j, key);
    if p :| Lookup(j, p + [key]).Some? {
      FollowIsLookup(j, p + [key]);
      assert Keys(p + [key]) == Keys(p) + [Key(key)];
      assert OccursAt(j, Keys(p), key) && !UnderArray(Keys(p));
    }
    if steps: seq<Step> :| OccursAt(j, steps, key) && !UnderArray(steps) {
      var p := seq(|steps|, i requires 0 <= i < |steps| => if steps[i].Key? then steps[i].name else "");
      assert forall i :: 0 <= i < |steps| ==> steps[i] == Key(p[i]);
      assert Keys(p + [key]) == steps + [Key(key)];
      FollowIsLookup(j, p + [key]);
    }
  }

  /** So a key that is somewhere in the tree escapes the walk exactly when all its occurrences are under arrays. */
  lemma EscapesIffUnderArrays(j: Json, key: string)
    requires exists steps :: OccursAt(j, steps, key)
    ensures !Mentions(j, key) <==> forall steps :: OccursAt(j, steps, key) ==> UnderArray(steps)
  {
    SeenIffOutsideArrays(j, key);
  }

  function Touched(patch: Json): set<string> {
    set x | x in IEP_LOCKED_FIELDS && Mentions(patch, x)
  }

  lemma MentionedIsTouched(patch: Json, key: string)
    requires key in IEP_LOCKED_FIELDS && Mentions(patch, key)
    ensures Touched(patch) != {}
  {
    assert key in Touched(patch);
  }

  /** The recursive key walk; its loop takes the items in any order. */
  method Walk(node: Json, before: set<string>) returns (touched: set<string>)
    ensures touched == before + Touched(node)
    decreases node
  {
    touched := before;
    if !node.Object? {
      return;
    }
    var keys := node.fields.Keys;
    ghost var done := {};
    while keys != {}
      invariant done + keys == node.fields.Keys && done !! keys
      invariant forall x :: x in touched <==> x in before || (x in IEP_LOCKED_FIELDS && SeenIn(node, done, x))
      decreases keys
    {
      var key :| key in keys;
      if key in IEP_LOCKED_FIELDS {
        touched := touched + {key};
      }
      touched := Walk(node.fields[key], touched);
      SeenStep(node, done, key);
      keys, done := keys - {key}, done + {key};
    }
    assert done == node.fields.Keys;
    forall x ensures SeenIn(node, done, x) <==> Mentions(node, x) {
    }
  }

  ghost predicate SeenIn(node: Json, done: set<string>, x: string)
    requires node.Object?
  {
    exists k :: k in done && k in node.fields && (k == x || Mentions(node.fields[k], x))
  }

  lemma SeenStep(node: Json, done: set<string>, key: string)
    requires node.Object? && key in node.fields
    ensures forall x :: SeenIn(node, done + {key}, x) <==>
              SeenIn(node, done, x) || key == x || Mentions(node.fields[key], x)
  {
    forall x ensures SeenIn(node, done + {key}, x) <==>
              SeenIn(node, done, x) || key == x || Mentions(node.fields[key], x)
    {
      if SeenIn(node, done, x) {
        var k :| k in done && k in node.fields && (k == x || Mentions(node.fields[k], x));
        assert k in done + {key};
      }
      if key == x || Mentions(node.fields[key], x) {
        assert key in done + {key};
      }
    }
  }

  // ----- one patch -----

  ghost predicate EndsLocked(p: Path) {
    p != [] && p[|p| - 1] in IEP_LOCKED_FIELDS
  }

  /** A patch that touches no locked field leads nowhere on a path to one. */
  lemma UntouchedPath(patch: Json, p: Path)
    requires Touched(patch) == {} && EndsLocked(p)
    ensures Lookup(patch, p) == None
  {
    if Lookup(patch, p).Some? {
      var init, key := p[..|p| - 1], p[|p| - 1];
      assert p == init + [key];
      PathMentioned(patch, init, key);
      MentionedIsTouched(patch, key);
    }
  }

  /** Merging such a patch keeps or removes a locked value, and which of the two is decided by `Blocks`. */
  lemma UntouchedMerge(config: Json, patch: Json, p: Path)
    requires Touched(patch) == {} && EndsLocked(p)
    ensures Lookup(Merge(config, patch), p) == if Blocks(patch, p) then None else Lookup(config, p)
  {
    UntouchedPath(patch, p);
    MergeLookup(config, patch, p);
  }

  // ----- a batch -----

  datatype Proposal = Proposal(id: string, patch: Json, risk: string)

  /** What happens to one proposal. */
  datatype Decision = BlockedByLock(fields: set<string>) | RejectedByCritique | Kept | Applied

  function Decide(p: Proposal, autoApply: bool, approved: bool): Decision {
    if autoApply && Touched(p.patch) != {} then BlockedByLock(Touched(p.patch))
    else if !approved then RejectedByCritique
    else if autoApply && p.risk == "low" then Applied
    else Kept
  }

  /** The stored configuration as a dictionary: a missing or non-dictionary file counts as empty. */
  function Effective(file: Option<Json>): Json {
    if file.Some? && file.value.Object? then file.value else EMPTY
  }

  /** The patch of an applied proposal that changes the file at all. */
  predicate Writes(p: Proposal) {
    p.patch.Object? && p.patch.fields != map[]
  }

  function FileAfter(file: Option<Json>, p: Proposal, d: Decision): Option<Json> {
    if d == Applied && Writes(p) then Some(Merge(Effective(file), p.patch)) else file
  }

  function BatchFile(file: Option<Json>, proposals: seq<Proposal>, autoApply: bool, approvals: seq<bool>): Option<Json>
    requires |approvals| == |proposals|
  {
    if proposals == [] then file
    else
      var n := |proposals| - 1;
      FileAfter(BatchFile(file, proposals[..n], autoApply, approvals[..n]), proposals[n],
                Decide(proposals[n], autoApply, approvals[n]))
  }

  // ----- which proposals reach the configuration -----

  ghost predicate MentionsLocked(patch: Json) {
    exists key :: key in IEP_LOCKED_FIELDS && Mentions(patch, key)
  }

  /** Approved, of low risk, and without a locked field. */
  ghost predicate MayApply(p: Proposal, approved: bool) {
    approved && p.risk == "low" && !MentionsLocked(p.patch)
  }

  /** The patches of those proposals, in order. */
  ghost function Applicable(proposals: seq<Proposal>, approvals: seq<bool>): seq<Json>
    requires |approvals| == |proposals|
  {
    if proposals == [] then []
    else
      var n := |proposals| - 1;
      Applicable(proposals[..n], approvals[..n])
      + if MayApply(proposals[n], approvals[n]) then [proposals[n].patch] else []
  }

  /** Non-empty dictionaries merged one after another over the file; a file without a dictionary starts empty. */
  ghost function MergedOver(file: Option<Json>, patches: seq<Json>): Option<Json> {
    if patches == [] then file
    else
      var before, patch := MergedOver(file, patches[..|patches| - 1]), patches[|patches| - 1];
      if !patch.Object? || patch.fields == map[] then before
      else if before.Some? && before.value.Object? then Some(Merge(before.value, patch))
      else Some(Merge(Object(map[]), patch))
  }

  /** What is decided about a proposal, case by case. */
  lemma DecisionIff(p: Proposal, autoApply: bool, approved: bool)
    ensures var d := Decide(p, autoApply, approved);
            && (d == Applied <==> autoApply && MayApply(p, approved))
            && (d.BlockedByLock? <==> autoApply && MentionsLocked(p.patch))
            && (d.BlockedByLock? ==>
                  forall key :: key in d.fields <==> key in IEP_LOCKED_FIELDS && Mentions(p.patch, key))
            && (d == RejectedByCritique <==> !approved && !(autoApply && MentionsLocked(p.patch)))
            && (d == Kept <==> approved && !(autoApply && (MentionsLocked(p.patch) || p.risk == "low")))
  {
    hide Mentions;
    if key :| key in IEP_LOCKED_FIELDS && Mentions(p.patch, key) {
      MentionedIsTouched(p.patch, key);
    }
    if Touched(p.patch) != {} {
      var key :| key in Touched(p.patch);
    }
  }

  /** With auto-apply the file is the old one with exactly the applicable patches merged over it, in order. */
  lemma {:induction false} BatchMergesApplicable(file: Option<Json>, proposals: seq<Proposal>, approvals: seq<bool>)
    requires |approvals| == |proposals|
    ensures BatchFile(file, proposals, true, approvals) == MergedOver(file, Applicable(proposals, approvals))
    decreases |proposals|
  {
    if proposals != [] {
      hide MayApply; hide Decide;
      var n := |proposals| - 1;
      BatchMergesApplicable(file, proposals[..n], approvals[..n]);
      DecisionIff(proposals[n], true, approvals[n]);
      var before, patch := Applicable(proposals[..n], approvals[..n]), proposals[n].patch;
      assert before + [] == before;
      MergedSnoc(file, before, patch);
    }
  }

  lemma MergedSnoc(file: Option<Json>, patches: seq<Json>, patch: Json)
    ensures var before := MergedOver(file, patches);
            MergedOver(file, patches + [patch]) ==
            if patch.Object? && patch.fields != map[] then Some(Merge(Effective(before), patch)) else before
  {
    assert (patches + [patch])[..|patches|] == patches;
  }

  function Without<T>(items: seq<T>, i: nat): seq<T>
    requires i < |items|
  {
    items[..i] + items[i + 1..]
  }

  lemma {:induction false} ApplicableWithout(proposals: seq<Proposal>, approvals: seq<bool>, i: nat)
    requires |approvals| == |proposals| && i < |proposals| && !MayApply(proposals[i], approvals[i])
    ensures Applicable(Without(proposals, i), Without(approvals, i)) == Applicable(proposals, approvals)
    decreases |proposals|
  {
    hide MayApply; hide Applicable; hide Without;
    var n := |proposals| - 1;
    ApplicableStep(proposals, approvals);
    WithoutStep(proposals, i);
    WithoutStep(approvals, i);
    if i < n {
      ApplicableWithout(proposals[..n], approvals[..n], i);
      ApplicableStep(Without(proposals, i), Without(approvals, i));
    }
  }

  lemma WithoutStep<T>(items: seq<T>, i: nat)
    requires i < |items|
    ensures var n, left := |items| - 1, Without(items, i);
            && |left| == n
            && (i == n ==> left == items[..n])
            && (i < n ==> left[..n - 1] == Without(items[..n], i) && left[n - 1] == items[n])
  {
  }

  lemma ApplicableStep(proposals: seq<Proposal>, approvals: seq<bool>)
    requires |approvals| == |proposals| && proposals != []
    ensures var n := |proposals| - 1;
            Applicable(proposals, approvals) ==
            if MayApply(proposals[n], approvals[n])
            then Applicable(proposals[..n], approvals[..n]) + [proposals[n].patch]
            else Applicable(proposals[..n], approvals[..n])
  {
    hide MayApply;
  }

  /** So any other proposal can be dropped from a batch without changing the file. */
  lemma OthersCanBeDropped(file: Option<Json>, proposals: seq<Proposal>, approvals: seq<bool>, i: nat)
    requires |approvals| == |proposals| && i < |proposals| && !MayApply(proposals[i], approvals[i])
    ensures BatchFile(file, Without(proposals, i), true, Without(approvals, i)) ==
            BatchFile(file, proposals, true, approvals)
  {
    hide *;
    ApplicableWithout(proposals, approvals, i);
    WithoutLength(proposals, i);
    WithoutLength(approvals, i);
    BatchMergesApplicable(file, proposals, approvals);
    BatchMergesApplicable(file, Without(proposals, i), Without(approvals, i));
  }

  lemma WithoutLength<T>(items: seq<T>, i: nat)
    requires i < |items|
    ensures |Without(items, i)| == |items| - 1
  {
  }

  /** And a batch of applicable proposals alone is merged from left to right. */
  lemma {:induction false} AllAreMerged(file: Option<Json>, proposals: seq<Proposal>, approvals: seq<bool>)
    requires |approvals| == |proposals|
    requires forall i :: 0 <= i < |proposals| ==> MayApply(proposals[i], approvals[i])
    ensures BatchFile(file, proposals, true, approvals) ==
            MergedOver(file, seq(|proposals|, i requires 0 <= i < |proposals| => proposals[i].patch))
  {
    hide MayApply; hide MergedOver; hide BatchFile;
    BatchMergesApplicable(file, proposals, approvals);
    AllApplicable(proposals, approvals);
    assert Applicable(proposals, approvals) ==
           seq(|proposals|, i requires 0 <= i < |proposals| => proposals[i].patch);
  }

  lemma {:induction false} AllApplicable(proposals: seq<Proposal>, approvals: seq<bool>)
    requires |approvals| == |proposals|
    requires forall i :: 0 <= i < |proposals| ==> MayApply(proposals[i], approvals[i])
    ensures |Applicable(proposals, approvals)| == |proposals|
    ensures forall i :: 0 <= i < |proposals| ==> Applicable(proposals, approvals)[i] == proposals[i].patch
    decreases |proposals|
  {
    hide MayApply;
    if proposals != [] {
      AllApplicable(proposals[..|proposals| - 1], approvals[..|proposals| - 1]);
    }
  }

  class EvolutionStore {
    var configFile: Option<Json>

    constructor (configFile: Option<Json>)
      ensures this.configFile == configFile
    {
      this.configFile := configFile;
    }

    method ApplyRuntimePatch(patch: Fields)
      modifies this
      ensures configFile == Some(Merge(Effective(old(configFile)), Object(patch)))
    {
      var current: Fields := map[];
      if configFile.Some? && configFile.value.Object? {
        current := configFile.value.fields;
      }
      var merged := MergeDicts(current, patch);
      configFile := Some(Object(merged));
    }

    /** The batch loop; `approvals` are the verdicts of the critique pipeline. */
    method ApplyProposals(proposals: seq<Proposal>, autoApply: bool, approvals: seq<bool>)
      returns (results: seq<Decision>)
      requires |approvals| == |proposals|
      modifies this
      ensures |results| == |proposals|
      ensures forall i :: 0 <= i < |results| ==> results[i] == Decide(proposals[i], autoApply, approvals[i])
      ensures forall i :: 0 <= i < |results| ==>
                && (results[i] == Applied <==> autoApply && MayApply(proposals[i], approvals[i]))
                && (results[i].BlockedByLock? <==> autoApply && MentionsLocked(proposals[i].patch))
      ensures configFile == BatchFile(old(configFile), proposals, autoApply, approvals)
      ensures configFile ==
              if autoApply then MergedOver(old(configFile), Applicable(proposals, approvals)) else old(configFile)
    {
      hide MayApply; hide MentionsLocked;
      results := [];
      for i := 0 to |proposals|
        invariant |results| == i
        invariant forall j :: 0 <= j < i ==> results[j] == Decide(proposals[j], autoApply, approvals[j])
        invariant configFile == BatchFile(old(configFile), proposals[..i], autoApply, approvals[..i])
      {
        var proposal := proposals[i];
        assert proposals[..i + 1][..i] == proposals[..i] && approvals[..i + 1][..i] == approvals[..i];
        if autoApply {
          var touched := Walk(proposal.patch, {});
          if touched != {} {
            results := results + [BlockedByLock(touched)];
            continue;
          }
        }
        if !approvals[i] {
          results := results + [RejectedByCritique];
          continue;
        }
        if autoApply && proposal.risk == "low" {
          if proposal.patch.Object? && proposal.patch.fields != map[] {
            ApplyRuntimePatch(proposal.patch.fields);
          }
          results := results + [Applied];
        } else {
          results := results + [Kept];
        }
      }
      assert proposals[..|proposals|] == proposals && approvals[..|approvals|] == approvals;
      forall i | 0 <= i < |results| { DecisionIff(proposals[i], autoApply, approvals[i]); }
      BatchMergesApplicable(old(configFile), proposals, approvals);
      ManualBatchWritesNothing(old(configFile), proposals, approvals);
    }
  }

  /** A setting changes only if an applicable patch holds something at its path or cuts it off. */
  lemma {:induction false} ChangeHasProposal(
    file: Option<Json>, proposals: seq<Proposal>, approvals: seq<bool>, path: Path)
    requires |approvals| == |proposals|
    requires At(BatchFile(file, proposals, true, approvals), path) != At(file, path)
    ensures exists i :: 0 <= i < |proposals| && MayApply(proposals[i], approvals[i])
                        && (Lookup(proposals[i].patch, path).Some? || Blocks(proposals[i].patch, path))
    decreases |proposals|
  {
    var n := |proposals| - 1;
    hide MayApply; hide Decide; hide Lookup; hide Blocks;
    DecisionIff(proposals[n], true, approvals[n]);
    var before := BatchFile(file, proposals[..n], true, approvals[..n]);
    if At(before, path) != At(file, path) {
      ChangeHasProposal(file, proposals[..n], approvals[..n], path);
      var i :| 0 <= i < n && MayApply(proposals[..n][i], approvals[..n][i])
               && (Lookup(proposals[..n][i].patch, path).Some? || Blocks(proposals[..n][i].patch, path));
      assert MayApply(proposals[i], approvals[i]);
    } else {
      MergeLookup(Effective(before), proposals[n].patch, path);
    }
  }

  /** Every field that configs/guardrails.yaml declares untouchable is locked, and so are the two it bounds. */
  lemma GuardrailsAreLocked(p: Proposal, approved: bool, key: string)
    requires key in {"crossover_probability_explore_ceiling", "crossover_probability_exploit_floor",
                     "crossover_probability_explore", "crossover_probability_exploit",
                     "critic_gate_max_passes", "latent_ensemble_min_variants", "halt_over_hallucinate",
                     "fix_log_critical_ceiling", "critical_ceiling", "approval_required_for", "auto_apply_risk_floor",
                     "allow_destructive_actions", "secrets_hygiene", "credential_touch", "production_deploy",
                     "blast_radius", "auto_apply_eligible"}
    requires Mentions(p.patch, key)
    ensures Decide(p, true, approved).BlockedByLock? && key in Decide(p, true, approved).fields
  {
    hide Mentions;
    MentionedIsTouched(p.patch, key);
  }

  ghost function At(file: Option<Json>, p: Path): Option<Json> {
    Lookup(Effective(file), p)
  }

  /** The proposal is applied and puts a non-object strictly above the end of the path. */
  predicate Cuts(p: Proposal, autoApply: bool, approved: bool, path: Path) {
    Decide(p, autoApply, approved) == Applied && Writes(p) && Blocks(p.patch, path)
  }

  lemma LockedStep(file: Option<Json>, p: Proposal, autoApply: bool, approved: bool, path: Path)
    requires EndsLocked(path)
    ensures At(FileAfter(file, p, Decide(p, autoApply, approved)), path) ==
            if Cuts(p, autoApply, approved, path) then None else At(file, path)
  {
    var d := Decide(p, autoApply, approved);
    if d == Applied && Writes(p) {
      UntouchedMerge(Effective(file), p.patch, path);
    }
  }

  /**
    Whatever a batch holds and whichever proposals the critique approves, a locked field at any
    depth afterwards has exactly its value from before, or is gone; and it is gone exactly when
    it was absent already or some applied patch put a non-object over an object above it.
  */
  lemma {:induction false} LockedFieldsSurvive(
    file: Option<Json>, proposals: seq<Proposal>, autoApply: bool, approvals: seq<bool>, path: Path)
    requires |approvals| == |proposals| && EndsLocked(path)
    ensures At(BatchFile(file, proposals, autoApply, approvals), path) ==
            if exists i :: 0 <= i < |proposals| && Cuts(proposals[i], autoApply, approvals[i], path)
            then None else At(file, path)
    decreases |proposals|
  {
    if proposals != [] {
      var n := |proposals| - 1;
      LockedFieldsSurvive(file, proposals[..n], autoApply, approvals[..n], path);
      var before := BatchFile(file, proposals[..n], autoApply, approvals[..n]);
      LockedStep(before, proposals[n], autoApply, approvals[n], path);
      if i :| 0 <= i < n && Cuts(proposals[..n][i], autoApply, approvals[..n][i], path) {
        assert Cuts(proposals[i], autoApply, approvals[i], path);
      }
      if i :| 0 <= i < |proposals| && Cuts(proposals[i], autoApply, approvals[i], path) {
        assert i == n || Cuts(proposals[..n][i], autoApply, approvals[..n][i], path);
      }
    }
  }

  /** Such a batch: a low-risk patch that mentions no locked field passes the gate and removes one. */
  lemma UngatedPatchRemovesLockedField()
    ensures var config := Object(map["evolution" := Object(map["blast_radius" := Num(1.0)])]);
            var p := Proposal("p", Object(map["evolution" := Null]), "low");
            var path := ["evolution", "blast_radius"];
            && EndsLocked(path) && Touched(p.patch) == {} && Decide(p, true, true) == Applied
            && At(Some(config), path) == Some(Num(1.0))
            && At(BatchFile(Some(config), [p], true, [true]), path) == None
  {
    var inner := Object(map["blast_radius" := Num(1.0)]);
    var config := Object(map["evolution" := inner]);
    var p := Proposal("p", Object(map["evolution" := Null]), "low");
    var path := ["evolution", "blast_radius"];
    assert path[1..] == ["blast_radius"];
    assert Lookup(inner, ["blast_radius"]) == Some(Num(1.0));
    forall x | x in IEP_LOCKED_FIELDS ensures !Mentions(p.patch, x) {
      assert !Mentions(Null, x);
    }
    assert Decide(p, true, true) == Applied;
    assert "evolution" in p.patch.fields;
    assert Cuts([p][0], true, [true][0], path);
    LockedFieldsSurvive(Some(config), [p], true, [true], path);
  }

  /** A locked field inside a list passes the gate, and the patch is applied. */
  lemma LockedFieldInListPasses()
    ensures var patch := Object(map["rules" := Array([Object(map["blast_radius" := Num(9.0)])])]);
            && OccursAt(patch, [Key("rules"), Item(0)], "blast_radius") && "blast_radius" in IEP_LOCKED_FIELDS
            && Touched(patch) == {} && Decide(Proposal("p", patch, "low"), true, true) == Applied
  {
    var inner := Object(map["blast_radius" := Num(9.0)]);
    var rules := Array([inner]);
    var patch := Object(map["rules" := rules]);
    var steps := [Key("rules"), Item(0), Key("blast_radius")];
    assert [Key("rules"), Item(0)] + [Key("blast_radius")] == steps;
    assert steps[1..] == [Item(0), Key("blast_radius")] && steps[1..][1..] == [Key("blast_radius")];
    assert Follow(inner, [Key("blast_radius")]) == Some(Num(9.0));
    assert Follow(rules, steps[1..]) == Some(Num(9.0));
    forall x | x in IEP_LOCKED_FIELDS ensures !Mentions(patch, x) {
      assert !Mentions(rules, x);
    }
  }

  /** Without auto-apply the configuration file is never written. */
  lemma {:induction false} ManualBatchWritesNothing(
    file: Option<Json>, proposals: seq<Proposal>, approvals: seq<bool>)
    requires |approvals| == |proposals|
    ensures BatchFile(file, proposals, false, approvals) == file
    decreases |proposals|
  {
    if proposals != [] {
      var n := |proposals| - 1;
      ManualBatchWritesNothing(file, proposals[..n], approvals[..n]);
    }
  }
}
