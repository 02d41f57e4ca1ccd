/**
  JSON-like trees, looking a value up by its path of keys, and the right-biased deep merge:
  what it puts at every path, and its algebra.
*/
module JsonTrees {
  import opened Wrappers

  datatype Json =
    | Object(fields: map<string, Json>)
    | Array(items: seq<Json>)
    | Str(text: string)
    | Num(number: real)
    | Bool(flag: bool)
    | Null

  type Path = seq<string>

  const EMPTY: Json := Object(map[])

  /** Objects merge key by key; anything else is replaced by the right operand. */
  function Merge(base: Json, over: Json): Json {
    if base.Object? && over.Object? then
      Object(map k | k in base.fields.Keys + over.fields.Keys ::
               if k !in over.fields then base.fields[k]
               else if k !in base.fields then over.fields[k]
               else Merge(base.fields[k], over.fields[k]))
    else over
  }

  /** Follow keys through nested objects. */
  function Lookup(j: Json, p: Path): Option<Json> {
    if p == [] then Some(j)
    else if j.Object? && p[0] in j.fields then Lookup(j.fields[p[0]], p[1..])
    else None
  }

  /** Somewhere strictly above the end of the path, j holds something that is not an object. */
  predicate Blocks(j: Json, p: Path) {
    p != [] && (!j.Object? || (p[0] in j.fields && Blocks(j.fields[p[0]], p[1..])))
  }

  lemma {:induction false} BlocksIsPrefix(j: Json, p: Path)
    ensures Blocks(j, p) <==>
            exists i :: 0 <= i < |p| && Lookup(j, p[..i]).Some? && !Lookup(j, p[..i]).value.Object?
    decreases |p|
  {
    if p != [] && j.Object? && p[0] in j.fields {
      var child := j.fields[p[0]];
      BlocksIsPrefix(child, p[1..]);
      forall i | 1 <= i <= |p| ensures Lookup(j, p[..i]) == Lookup(child, p[1..][..i - 1]) {
        assert p[..i][1..] == p[1..][..i - 1];
      }
      if i :| 0 <= i < |p| && Lookup(j, p[..i]).Some? && !Lookup(j, p[..i]).value.Object? {
        assert i > 0;
        assert !Lookup(child, p[1..][..i - 1]).value.Object?;
      }
      if i :| 0 <= i < |p[1..]| && Lookup(child, p[1..][..i]).Some? && !Lookup(child, p[1..][..i]).value.Object? {
        assert Lookup(j, p[..i + 1]) == Lookup(child, p[1..][..i]);
      }
    } else if p != [] {
      if !j.Object? {
        assert Lookup(j, p[..0]) == Some(j);
      } else {
        forall i | 1 <= i <= |p| ensures Lookup(j, p[..i]) == None {
          assert p[..i][0] == p[0];
        }
      }
    }
  }

  /** The value a merge must leave at a path, read off the two operands. */
  function MergedAt(base: Json, over: Json, p: Path): Option<Json> {
    var b, o := Lookup(base, p), Lookup(over, p);
    if o.Some? then
      if o.value.Object? && b.Some? && b.value.Object? then Some(Merge(b.value, o.value)) else o
    else if Blocks(over, p) then None
    else b
  }

  /** At every path, at every depth, the merge holds exactly that value. */
  lemma {:induction false} MergeLookup(base: Json, over: Json, p: Path)
    ensures Lookup(Merge(base, over), p) == MergedAt(base, over, p)
    decreases |p|
  {
    if p != [] && base.Object? && over.Object? && p[0] in base.fields && p[0] in over.fields {
      MergeLookup(base.fields[p[0]], over.fields[p[0]], p[1..]);
    }
  }

  lemma {:induction false} MergeIdempotent(a: Json)
    ensures Merge(a, a) == a
  {
    if a.Object? {
      forall k | k in a.fields ensures Merge(a.fields[k], a.fields[k]) == a.fields[k] {
        MergeIdempotent(a.fields[k]);
      }
      assert Merge(a, a).fields == a.fields;
    }
  }

  /** Applying the same patch again changes nothing. */
  lemma {:induction false} MergeAbsorbs(base: Json, patch: Json)
    ensures Merge(Merge(base, patch), patch) == Merge(base, patch)
    decreases patch
  {
    if base.Object? && patch.Object? {
      var once := Merge(base, patch);
      forall k | k in patch.fields
        ensures Merge(once.fields[k], patch.fields[k]) == once.fields[k]
      {
        if k in base.fields {
          MergeAbsorbs(base.fields[k], patch.fields[k]);
        } else {
          MergeIdempotent(patch.fields[k]);
        }
      }
      assert Merge(once, patch).fields == once.fields;
    } else {
      MergeIdempotent(patch);
    }
  }

  lemma MergeEmpty(a: Json)
    requires a.Object?
    ensures Merge(a, EMPTY) == a && Merge(EMPTY, a) == a
  {
    assert Merge(a, EMPTY).fields == a.fields;
    assert Merge(EMPTY, a).fields == a.fields;
  }

  /** Wherever two objects meet, c has every key that a has. */
  predicate Covers(c: Json, a: Json)
    decreases a
  {
    a.Object? && c.Object? ==>
      forall k :: k in a.fields ==> k in c.fields && Covers(c.fields[k], a.fields[k])
  }

  lemma {:induction false} MergeIsRightIffCovers(a: Json, c: Json)
    ensures Merge(a, c) == c <==> Covers(c, a)
    decreases a
  {
    if a.Object? && c.Object? {
      forall k | k in a.fields && k in c.fields
        ensures Merge(a.fields[k], c.fields[k]) == c.fields[k] <==> Covers(c.fields[k], a.fields[k])
      {
        MergeIsRightIffCovers(a.fields[k], c.fields[k]);
      }
      var m := Merge(a, c);
      if Covers(c, a) {
        assert m.fields == c.fields;
      }
      if m == c {
        forall k | k in a.fields ensures k in c.fields && Covers(c.fields[k], a.fields[k]) {
          assert k in m.fields;
          assert m.fields[k] == Merge(a.fields[k], c.fields[k]);
        }
      }
    }
  }

  /** No non-object in the middle sits where both outer operands have objects, unless it is harmless. */
  predicate Associates(a: Json, b: Json, c: Json)
    decreases a
  {
    a.Object? && c.Object? ==>
      if b.Object? then
        forall k :: k in a.fields && k in b.fields && k in c.fields ==>
          Associates(a.fields[k], b.fields[k], c.fields[k])
      else Covers(c, a)
  }

  /** The merge associates exactly on those triples. */
  lemma {:induction false} MergeAssociatesIff(a: Json, b: Json, c: Json)
    ensures Merge(Merge(a, b), c) == Merge(a, Merge(b, c)) <==> Associates(a, b, c)
    decreases a
  {
    if a.Object? && c.Object? {
      if b.Object? {
        var l, r := Merge(Merge(a, b), c), Merge(a, Merge(b, c));
        forall k | k in a.fields && k in b.fields && k in c.fields
          ensures l.fields[k] == r.fields[k] <==> Associates(a.fields[k], b.fields[k], c.fields[k])
        {
          MergeAssociatesIff(a.fields[k], b.fields[k], c.fields[k]);
        }
        assert l.fields.Keys == r.fields.Keys;
        forall k | k in l.fields && !(k in a.fields && k in b.fields && k in c.fields)
          ensures l.fields[k] == r.fields[k]
        {
        }
        if Associates(a, b, c) {
          assert l.fields == r.fields;
        }
      } else {
        MergeIsRightIffCovers(a, c);
      }
    }
  }
}
