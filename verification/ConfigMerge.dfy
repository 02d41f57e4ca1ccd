/**
  The merging loops of the repository, each proved to compute `JsonTrees.Merge`, and the fold
  that layers the bundled default files.
*/
module ConfigMerge {
  import opened Wrappers
  import opened JsonTrees

  type Fields = map<string, Json>

  /** Fields of `base` overwritten by those of `over` whose key is in `keys`. */
  ghost function MergeSome(base: Fields, over: Fields, keys: set<string>): Fields {
    map k | k in base.Keys + (over.Keys * keys) ::
      if k in over && k in keys then Merged(base, over, k) else base[k]
  }

  ghost function Merged(base: Fields, over: Fields, k: string): Json
    requires k in over
  {
    if k in base then Merge(base[k], over[k]) else over[k]
  }

  lemma MergeSomeStep(base: Fields, over: Fields, done: set<string>, k: string)
    requires k in over && k !in done
    ensures MergeSome(base, over, done)[k := Merged(base, over, k)] == MergeSome(base, over, done + {k})
    ensures k in MergeSome(base, over, done) <==> k in base
    ensures k in base ==> MergeSome(base, over, done)[k] == base[k]
  {
  }

  lemma MergeAll(base: Fields, over: Fields)
    ensures Object(MergeSome(base, over, over.Keys)) == Merge(Object(base), Object(over))
    ensures MergeSome(base, over, {}) == base
  {
    assert MergeSome(base, over, over.Keys) == Merge(Object(base), Object(over)).fields;
  }

  /** The dictionary merge of the configuration and the evolver: the items in any order. */
  method MergeDicts(base: Fields, override: Fields) returns (out: Fields)
    ensures Object(out) == Merge(Object(base), Object(override))
    decreases Object(override)
  {
    hide MergeSome;
    out := base;
    var keys := override.Keys;
    ghost var done := {};
    MergeAll(base, override);
    while keys != {}
      invariant done + keys == override.Keys && done !! keys
      invariant out == MergeSome(base, override, done)
      decreases keys
    {
      var key :| key in keys;
      var value := override[key];
      MergeSomeStep(base, override, done, key);
      if value.Object? && key in out && out[key].Object? {
        var inner := MergeDicts(out[key].fields, value.fields);
        out := out[key := Object(inner)];
      } else {
        out := out[key := value];
      }
      keys, done := keys - {key}, done + {key};
    }
    assert done == override.Keys;
  }

  /** The deep merge behind the json_merge tool, which accepts any two values. */
  method DeepMerge(base: Json, overlay: Json) returns (merged: Json)
    ensures merged == Merge(base, overlay)
    decreases overlay
  {
    if !(base.Object? && overlay.Object?) {
      return overlay;
    }
    hide MergeSome;
    var fields := base.fields;
    var keys := overlay.fields.Keys;
    ghost var done := {};
    MergeAll(base.fields, overlay.fields);
    while keys != {}
      invariant done + keys == overlay.fields.Keys && done !! keys
      invariant fields == MergeSome(base.fields, overlay.fields, done)
      decreases keys
    {
      var k :| k in keys;
      var v := overlay.fields[k];
      MergeSomeStep(base.fields, overlay.fields, done, k);
      if k in base.fields {
        v := DeepMerge(base.fields[k], v);
      }
      fields := fields[k := v];
      keys, done := keys - {k}, done + {k};
    }
    assert done == overlay.fields.Keys;
    merged := Object(fields);
  }

  // ----- layering the bundled defaults -----

  /** A bundled file: absent, unreadable, or parsed. */
  datatype Document = Missing | Broken | Parsed(value: Json)

  predicate Truthy(j: Json) {
    match j
    case Object(fields) => fields != map[]
    case Array(items) => items != []
    case Str(text) => text != ""
    case Num(number) => number != 0.0
    case Bool(flag) => flag
    case Null => false
  }

  /** What a document contributes: only a dictionary counts, and a falsy document is an empty one. */
  function Layer(d: Document): Json {
    if d.Parsed? && Truthy(d.value) && d.value.Object? then d.value else EMPTY
  }

  function Layered(docs: seq<Document>): Json {
    if docs == [] then EMPTY else Merge(Layered(docs[..|docs| - 1]), Layer(docs[|docs| - 1]))
  }

  method BundleDefaults(docs: seq<Document>) returns (merged: Fields)
    ensures Object(merged) == Layered(docs)
  {
    merged := map[];
    for i := 0 to |docs|
      invariant Object(merged) == Layered(docs[..i])
    {
      assert docs[..i + 1][..i] == docs[..i];
      MergeEmpty(Object(merged));
      if docs[i].Parsed? {
        var data := if Truthy(docs[i].value) then docs[i].value else EMPTY;
        if data.Object? {
          merged := MergeDicts(merged, data.fields);
        }
      }
    }
    assert docs[..|docs|] == docs;
  }

  /** The dictionaries among the parsed documents, in order. */
  function Dictionaries(docs: seq<Document>): seq<Json> {
    if docs == [] then []
    else
      Dictionaries(docs[..|docs| - 1])
      + match docs[|docs| - 1]
        case Parsed(Object(fields)) => [Object(fields)]
        case _ => []
  }

  function MergeAllOf(trees: seq<Json>): Json {
    if trees == [] then Object(map[]) else Merge(MergeAllOf(trees[..|trees| - 1]), trees[|trees| - 1])
  }

  /** The defaults are all dictionaries merged from left to right; nothing else contributes. */
  lemma {:induction false} DefaultsAreMerged(docs: seq<Document>)
    ensures Layered(docs) == MergeAllOf(Dictionaries(docs)) && Layered(docs).Object?
  {
    if docs != [] {
      var n := |docs| - 1;
      DefaultsAreMerged(docs[..n]);
      MergeEmpty(Layered(docs[..n]));
      var before := Dictionaries(docs[..n]);
      assert before + [] == before;
      if docs[n].Parsed? && docs[n].value.Object? {
        assert (before + [docs[n].value])[..|before|] == before;
      }
    }
  }

  /** A document is silent below the top exactly if it is no dictionary, or says nothing there. */
  lemma SilentIff(d: Document, p: Path)
    requires p != []
    ensures Silent(d, p) <==>
            d.Parsed? && d.value.Object? ==> Lookup(d.value, p) == None && !Blocks(d.value, p)
  {
  }

  /** A document that neither holds anything at the path nor cuts it off with a non-object. */
  predicate Silent(d: Document, p: Path) {
    Lookup(Layer(d), p) == None && !Blocks(Layer(d), p)
  }

  /**
    Every setting is decided by the last document that says something about its path: a value
    that is no object stands, a document that cuts the path off leaves nothing there, and an
    object is merged over the object that the earlier documents left, if they did.
  */
  lemma {:induction false} LastSpeakerWins(docs: seq<Document>, i: nat, p: Path)
    requires i < |docs| && !Silent(docs[i], p)
    requires forall j :: i < j < |docs| ==> Silent(docs[j], p)
    ensures var spoken, before := Lookup(Layer(docs[i]), p), Lookup(Layered(docs[..i]), p);
            Lookup(Layered(docs), p) ==
            if spoken.None? then None
            else if spoken.value.Object? && before.Some? && before.value.Object?
            then Some(Merge(before.value, spoken.value))
            else spoken
    decreases |docs|
  {
    var n := |docs| - 1;
    MergeLookup(Layered(docs[..n]), Layer(docs[n]), p);
    if i < n {
      assert docs[..n][i] == docs[i] && docs[..n][..i] == docs[..i];
      LastSpeakerWins(docs[..n], i, p);
      assert Silent(docs[n], p);
    }
  }

  /** A setting about which no document says anything is absent. */
  lemma {:induction false} NobodySpeaks(docs: seq<Document>, p: Path)
    requires p != [] && forall j :: 0 <= j < |docs| ==> Silent(docs[j], p)
    ensures Lookup(Layered(docs), p) == None
  {
    if docs != [] {
      var n := |docs| - 1;
      MergeLookup(Layered(docs[..n]), Layer(docs[n]), p);
      NobodySpeaks(docs[..n], p);
      assert Silent(docs[n], p);
    }
  }
}
