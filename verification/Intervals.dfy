/** Counting the points of a time-ordered sequence that fall in a closed interval. */
module Intervals {
  ghost predicate Sorted(s: seq<real>) {
    forall i, j :: 0 <= i < j < |s| ==> s[i] <= s[j]
  }

  function CountIn(s: seq<real>, low: real, high: real): nat {
    if s == [] then 0
    else CountIn(s[..|s| - 1], low, high) + if low <= s[|s| - 1] <= high then 1 else 0
  }

  /** A wider interval, on the points below `cap`, holds at least as many. */
  lemma CountWiden(s: seq<real>, low: real, high: real, low': real, cap: real)
    requires low' <= low && forall i :: 0 <= i < |s| ==> s[i] <= cap
    ensures CountIn(s, low, high) <= CountIn(s, low', cap)
  {
  }

  /** More than m points in the interval: some m + 1 consecutive ones start and end in it. */
  lemma {:induction false} CountSpan(s: seq<real>, low: real, high: real, m: nat) returns (i: nat)
    requires Sorted(s) && CountIn(s, low, high) > m
    ensures i + m < |s| && low <= s[i] && s[i + m] <= high
  {
    var init := s[..|s| - 1];
    if CountIn(init, low, high) > m {
      i := CountSpan(init, low, high, m);
    } else {
      CountTail(init, low, high);
      i := |s| - 1 - m;
    }
  }

  /** The points from `low` on end the sequence, so counting up to there reaches back that far. */
  lemma {:induction false} CountTail(s: seq<real>, low: real, high: real)
    requires Sorted(s)
    ensures CountIn(s, low, high) <= |s|
    ensures forall k :: |s| - CountIn(s, low, high) <= k < |s| ==> low <= s[k]
  {
    if s != [] {
      var init := s[..|s| - 1];
      CountTail(init, low, high);
      if CountIn(s, low, high) > 0 {
        CountBelow(init, low, high);
        assert s[|s| - 1] >= low;
      }
      forall k | |s| - CountIn(s, low, high) <= k < |s| ensures low <= s[k] {
        if k < |s| - 1 && |init| - CountIn(init, low, high) <= k {
          assert init[k] == s[k];
        }
      }
    }
  }

  lemma {:induction false} CountBelow(s: seq<real>, low: real, high: real)
    ensures CountIn(s, low, high) > 0 ==> exists k :: 0 <= k < |s| && low <= s[k]
  {
    if s != [] {
      var init := s[..|s| - 1];
      CountBelow(init, low, high);
      if CountIn(init, low, high) > 0 {
        var k :| 0 <= k < |init| && low <= init[k];
        assert s[k] == init[k];
      }
    }
  }
}
