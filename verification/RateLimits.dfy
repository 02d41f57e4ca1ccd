/**
  The sliding-window limiter: a window that forgets timestamps as they leave the last 60
  seconds, against a limiter that remembers every admission for ever.
*/
module RateLimits {
  import opened Intervals

  const WINDOW_SECONDS: real := 60.0

  /** Drop timestamps from the front while they are older than the window. */
  function Evict(window: seq<real>, now: real): seq<real> {
    if window != [] && now - window[0] > WINDOW_SECONDS then Evict(window[1..], now) else window
  }

  function Admits(window: seq<real>, now: real, limit: int): bool {
    |Evict(window, now)| < limit
  }

  function AfterCheck(window: seq<real>, now: real, limit: int): seq<real> {
    if Admits(window, now, limit) then Evict(window, now) + [now] else Evict(window, now)
  }

  /** The reference: count the admissions of the last 60 seconds in the full history. */
  function Recent(history: seq<real>, now: real): nat {
    CountIn(history, now - WINDOW_SECONDS, now)
  }

  /** The window is a suffix of the history, and what it lacks is older than 60 seconds. */
  ghost predicate Tracks(history: seq<real>, window: seq<real>, clock: real) {
    && Sorted(history) && (forall i :: 0 <= i < |history| ==> history[i] <= clock)
    && |window| <= |history| && window == history[|history| - |window|..]
    && (forall i :: 0 <= i < |history| - |window| ==> clock - history[i] > WINDOW_SECONDS)
  }

  lemma TracksLater(history: seq<real>, window: seq<real>, clock: real, later: real)
    requires Tracks(history, window, clock) && clock <= later
    ensures Tracks(history, window, later)
  {
  }

  lemma {:induction false} EvictTracks(history: seq<real>, window: seq<real>, now: real)
    requires Tracks(history, window, now)
    ensures Tracks(history, Evict(window, now), now)
    ensures var kept := Evict(window, now);
            forall i :: |history| - |kept| <= i < |history| ==> now - history[i] <= WINDOW_SECONDS
    decreases |window|
  {
    if window != [] {
      assert window[0] == history[|history| - |window|];
      if now - window[0] > WINDOW_SECONDS {
        assert window[1..] == history[|history| - |window| + 1..];
        EvictTracks(history, window[1..], now);
      }
    }
  }

  /** Counting in a history whose first `stale` points are too old and the others recent enough. */
  lemma {:induction false} CountSplit(history: seq<real>, now: real, stale: nat)
    requires stale <= |history|
    requires forall i :: 0 <= i < stale ==> now - history[i] > WINDOW_SECONDS
    requires forall i :: stale <= i < |history| ==> now - history[i] <= WINDOW_SECONDS && history[i] <= now
    ensures Recent(history, now) == |history| - stale
  {
    if history != [] {
      var init := history[..|history| - 1];
      CountSplit(init, now, if stale < |history| then stale else stale - 1);
    }
  }

  /** Refinement: the evicting window and the full history take the same decision. */
  lemma WindowDecidesLikeHistory(history: seq<real>, window: seq<real>, now: real, limit: int)
    requires Tracks(history, window, now)
    ensures Admits(window, now, limit) <==> Recent(history, now) < limit
    ensures Tracks(if Admits(window, now, limit) then history + [now] else history,
                   AfterCheck(window, now, limit), now)
  {
    EvictTracks(history, window, now);
    var kept := Evict(window, now);
    CountSplit(history, now, |history| - |kept|);
    if Admits(window, now, limit) {
      assert (history + [now])[|history| - |kept|..] == kept + [now];
    }
  }

  /** Each admission found fewer than `limit` others in the 60 seconds before it. */
  ghost predicate Admissible(history: seq<real>, limit: int) {
    forall j :: 0 <= j < |history| ==> Recent(history[..j], history[j]) < limit
  }

  lemma AdmissibleSnoc(history: seq<real>, limit: int, now: real)
    requires Admissible(history, limit) && Recent(history, now) < limit
    ensures Admissible(history + [now], limit)
  {
    forall j | 0 <= j < |history| + 1
      ensures Recent((history + [now])[..j], (history + [now])[j]) < limit
    {
      assert (history + [now])[..j] == history[..j];
      assert history[..|history|] == history;
    }
  }

  /** Then no closed interval of 60 seconds, wherever it lies, holds more than `limit`. */
  lemma {:induction false} IntervalBound(history: seq<real>, limit: int, start: real)
    requires Sorted(history) && Admissible(history, limit)
    ensures CountIn(history, start, start + WINDOW_SECONDS) <= if limit > 0 then limit else 0
  {
    if history != [] {
      var n := |history| - 1;
      var init, last := history[..n], history[n];
      if start <= last <= start + WINDOW_SECONDS {
        CountWiden(init, start, start + WINDOW_SECONDS, last - WINDOW_SECONDS, last);
      } else {
        forall j | 0 <= j < |init| ensures Recent(init[..j], init[j]) < limit {
          assert init[..j] == history[..j];
        }
        IntervalBound(init, limit, start);
      }
    }
  }
}
