/** Option, Result and Python's slices, shared by the other modules. */
module Wrappers {
  datatype Option<+T> = None | Some(value: T)

  datatype Result<+T, +E> = Ok(value: T) | Err(error: E)
}

module Slices {
  /** The slice xs[-keep:], for every integer keep. */
  function LastSlice<T>(xs: seq<T>, keep: int): seq<T> {
    if keep > 0 then (if keep >= |xs| then xs else xs[|xs| - keep..])
    else if -keep >= |xs| then [] else xs[-keep..]
  }

  /** The slice xs[:n], for every integer n. */
  function FirstSlice<T>(xs: seq<T>, n: int): seq<T> {
    if n >= 0 then (if n >= |xs| then xs else xs[..n])
    else if -n >= |xs| then [] else xs[..|xs| + n]
  }

  /** The elements to keep, in order. */
  function Filtered<T>(xs: seq<T>, keep: T -> bool): seq<T> {
    if xs == [] then []
    else Filtered(xs[..|xs| - 1], keep) + if keep(xs[|xs| - 1]) then [xs[|xs| - 1]] else []
  }

  /** ... and where they stand. */
  function Places<T>(xs: seq<T>, keep: T -> bool): seq<nat> {
    if xs == [] then []
    else Places(xs[..|xs| - 1], keep) + if keep(xs[|xs| - 1]) then [|xs| - 1] else []
  }

  /** Filtering keeps exactly the places of the elements to keep, from left to right. */
  lemma FilteredAre<T>(xs: seq<T>, keep: T -> bool)
    ensures var kept, places := Filtered(xs, keep), Places(xs, keep);
            && |kept| == |places|
            && (forall i :: 0 <= i < |places| ==> places[i] < |xs| && kept[i] == xs[places[i]])
            && (forall i, j :: 0 <= i < j < |places| ==> places[i] < places[j])
            && (forall p :: 0 <= p < |xs| ==> (p in places <==> keep(xs[p])))
  {
    hide Filtered; hide Places;
    PlacesOfKept(xs, keep);
    PlacesSorted(xs, keep);
    forall p | 0 <= p < |xs| ensures p in Places(xs, keep) <==> keep(xs[p]) {
      PlaceIff(xs, keep, p);
    }
  }

  lemma {:induction false} PlacesOfKept<T>(xs: seq<T>, keep: T -> bool)
    ensures |Filtered(xs, keep)| == |Places(xs, keep)|
    ensures forall i :: 0 <= i < |Places(xs, keep)| ==>
              Places(xs, keep)[i] < |xs| && Filtered(xs, keep)[i] == xs[Places(xs, keep)[i]]
  {
    if xs != [] {
      PlacesOfKept(xs[..|xs| - 1], keep);
    }
  }

  lemma {:induction false} PlacesSorted<T>(xs: seq<T>, keep: T -> bool)
    ensures forall i :: 0 <= i < |Places(xs, keep)| ==> Places(xs, keep)[i] < |xs|
    ensures forall i, j :: 0 <= i < j < |Places(xs, keep)| ==> Places(xs, keep)[i] < Places(xs, keep)[j]
  {
    if xs != [] {
      PlacesSorted(xs[..|xs| - 1], keep);
    }
  }

  lemma {:induction false} PlaceIff<T>(xs: seq<T>, keep: T -> bool, p: nat)
    requires p < |xs|
    ensures p in Places(xs, keep) <==> keep(xs[p])
    decreases |xs|
  {
    var n := |xs| - 1;
    if p < n {
      PlaceIff(xs[..n], keep, p);
    } else {
      PlacesSorted(xs[..n], keep);
    }
  }

  lemma PlacesStep<T>(xs: seq<T>, keep: T -> bool)
    requires xs != []
    ensures var n := |xs| - 1;
            && Filtered(xs, keep) ==
               (if keep(xs[n]) then Filtered(xs[..n], keep) + [xs[n]] else Filtered(xs[..n], keep))
            && Places(xs, keep) == (if keep(xs[n]) then Places(xs[..n], keep) + [n] else Places(xs[..n], keep))
  {
  }

  function Mapped<S, T>(xs: seq<S>, f: S -> T): (r: seq<T>)
    ensures |r| == |xs| && forall i :: 0 <= i < |r| ==> r[i] == f(xs[i])
  {
    seq(|xs|, i requires 0 <= i < |xs| => f(xs[i]))
  }

  function Reversed<T>(xs: seq<T>): (r: seq<T>)
    ensures |r| == |xs| && forall i :: 0 <= i < |r| ==> r[i] == xs[|xs| - 1 - i]
  {
    seq(|xs|, i requires 0 <= i < |xs| => xs[|xs| - 1 - i])
  }

  lemma ReversedSnoc<T>(xs: seq<T>, x: T)
    ensures Reversed(xs + [x]) == [x] + Reversed(xs)
  {
  }

  /** The elements of all parts together. */
  function Total<T>(parts: seq<seq<T>>): nat {
    if parts == [] then 0 else Total(parts[..|parts| - 1]) + |parts[|parts| - 1]|
  }
}
