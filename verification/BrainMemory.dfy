/**
  The compacting record store: a file that keeps only its newest lines, against an unbounded
  log of everything ever stored.
*/
module BrainMemory {
  import opened Wrappers
  import opened Slices

  datatype Record = Record(ts: real, task: string, result: string, improved: Option<string>, tags: seq<string>)

  /** A line of the file: blank, not parseable, a record, or JSON that is no object. */
  datatype Line = Blank | Malformed | Entry(record: Record) | Bare(text: string)

  /** The record a store writes: the texts cut to their maximal lengths. */
  function Stored(now: real, task: string, result: string, improved: Option<string>, tags: seq<string>): Record {
    Record(now, FirstSlice(task, 500), FirstSlice(result, 1000),
           if improved.Some? && improved.value != "" then Some(FirstSlice(improved.value, 500)) else None,
           FirstSlice(tags, 10))
  }

  /** Each text in its own field, cut to its own length; an empty improvement counts as none. */
  lemma StoredFields(now: real, task: string, result: string, improved: Option<string>, tags: seq<string>)
    ensures var r := Stored(now, task, result, improved, tags);
            && r.ts == now
            && r.task == (if |task| > 500 then task[..500] else task)
            && r.result == (if |result| > 1000 then result[..1000] else result)
            && (r.improved == None <==> improved == None || improved == Some(""))
            && (improved.Some? && improved.value != "" ==>
                  r.improved == Some(if |improved.value| > 500 then improved.value[..500] else improved.value))
            && r.tags == (if |tags| > 10 then tags[..10] else tags)
  {
  }

  /** What a file holds after writing the joined lines and a line feed: for no lines, one blank line. */
  function Written(lines: seq<Line>): seq<Line> {
    if lines == [] then [Blank] else lines
  }

  /** One compaction: nothing up to the cap, otherwise the last lines. */
  function Compact(file: seq<Line>, maxEntries: int): seq<Line> {
    if |file| <= maxEntries then file else Written(LastSlice(file, maxEntries))
  }

  function FileAfter(file: seq<Line>, stored: seq<Record>, maxEntries: int): seq<Line> {
    if stored == [] then file
    else Compact(FileAfter(file, stored[..|stored| - 1], maxEntries) + [Entry(stored[|stored| - 1])], maxEntries)
  }

  function Entries(stored: seq<Record>): seq<Line> {
    seq(|stored|, i requires 0 <= i < |stored| => Entry(stored[i]))
  }

  lemma TailStep(log: seq<Line>, e: Line, maxEntries: int)
    requires maxEntries >= 1
    ensures Compact(LastSlice(log, maxEntries) + [e], maxEntries) == LastSlice(log + [e], maxEntries)
    ensures Compact(log + [e], maxEntries) == LastSlice(log + [e], maxEntries)
    ensures |log| <= maxEntries ==> LastSlice(log, maxEntries) == log
  {
    var tail := LastSlice(log, maxEntries);
    if |log| >= maxEntries {
      assert (tail + [e])[1..] == (log + [e])[|log| + 1 - maxEntries..];
    }
  }

  lemma LastSliceIs(log: seq<Line>, maxEntries: int)
    requires maxEntries >= 1
    ensures LastSlice(log, maxEntries) == if |log| > maxEntries then log[|log| - maxEntries..] else log
  {
  }

  /** After any stores the file is the last lines of the unbounded log ... */
  lemma {:induction false} FileIsLogTail(file: seq<Line>, stored: seq<Record>, maxEntries: int)
    requires maxEntries >= 1 && (stored != [] || |file| <= maxEntries)
    ensures FileAfter(file, stored, maxEntries) == LastSlice(file + Entries(stored), maxEntries)
    ensures var log := file + Entries(stored);
            FileAfter(file, stored, maxEntries) == if |log| > maxEntries then log[|log| - maxEntries..] else log
    decreases |stored|
  {
    LastSliceIs(file + Entries(stored), maxEntries);
    if stored == [] {
      assert file + Entries(stored) == file;
    } else {
      hide Compact; hide LastSlice;
      var n := |stored| - 1;
      var log := file + Entries(stored[..n]);
      assert file + Entries(stored) == log + [Entry(stored[n])];
      TailStep(log, Entry(stored[n]), maxEntries);
      if n > 0 || |file| <= maxEntries {
        FileIsLogTail(file, stored[..n], maxEntries);
      } else {
        assert log == file;
      }
    }
  }

  /** ... except with a cap of zero, where the slice keeps everything and the file never shrinks. */
  lemma {:induction false} ZeroCapNeverCompacts(file: seq<Line>, stored: seq<Record>)
    ensures FileAfter(file, stored, 0) == file + Entries(stored)
    decreases |stored|
  {
    if stored == [] {
      assert file + Entries(stored) == file;
    } else {
      var n := |stored| - 1;
      ZeroCapNeverCompacts(file, stored[..n]);
      assert file + Entries(stored) == file + Entries(stored[..n]) + [Entry(stored[n])];
    }
  }

  /** The file keeps within its cap, whatever is stored, exactly for a cap of at least one. */
  lemma CapHoldsIff(maxEntries: int)
    ensures (forall stored :: |FileAfter([], stored, maxEntries)| <= maxEntries) <==> maxEntries >= 1
  {
    if maxEntries >= 1 {
      forall stored ensures |FileAfter([], stored, maxEntries)| <= maxEntries {
        FileIsLogTail([], stored, maxEntries);
      }
    } else {
      var one := [Record(0.0, "", "", None, [])];
      assert one[..0] == [];
      assert FileAfter([], [], maxEntries) == [];
      assert |FileAfter([], one, maxEntries)| == 1;
    }
  }

  // ----- reading -----

  lemma TakeWhole(xs: seq<Line>, rest: seq<Line>)
    ensures FirstSlice(xs + rest, |xs|) == xs
  {
  }

  lemma TakeAll(xs: seq<Line>, n: nat)
    requires |xs| <= n
    ensures FirstSlice(xs, n) == xs
  {
  }

  /** The line is taken: a value that has no time stamp is asked for none, or asking it raises. */
  predicate Wanted(l: Line, since: Option<real>) {
    l.Bare? || (l.Entry? && (since.None? || l.record.ts >= since.value))
  }

  /** The wanted lines, newest first. */
  function Newest(file: seq<Line>, since: Option<real>): seq<Line> {
    if file == [] then []
    else
      var last := file[|file| - 1];
      Picked(last, since) + Newest(file[..|file| - 1], since)
  }

  function Picked(l: Line, since: Option<real>): seq<Line> {
    if Wanted(l, since) then [l] else []
  }

  lemma NewestStep(file: seq<Line>, since: Option<real>)
    requires file != []
    ensures var n := |file| - 1;
            var l, before := file[n], Newest(file[..n], since);
            Newest(file, since) ==
            if l.Bare? || (l.Entry? && (since == None || since.value <= l.record.ts)) then [l] + before else before
  {
    assert [] + Newest(file[..|file| - 1], since) == Newest(file[..|file| - 1], since);
  }

  /** A load looks at the newest lines first, and takes those not older than the time limit. */
  lemma {:induction false} NewestFirst(file: seq<Line>, since: Option<real>)
    ensures Newest(file, since) ==
            Reversed(Filtered(file, (l: Line) =>
              l.Bare? || (l.Entry? && (since == None || since.value <= l.record.ts))))
  {
    if file != [] {
      NewestFirst(file[..|file| - 1], since);
      hide Newest; hide Reversed; hide Filtered; hide Wanted;
      var keep := (l: Line) => l.Bare? || (l.Entry? && (since == None || since.value <= l.record.ts));
      var n := |file| - 1;
      NewestStep(file, since);
      PlacesStep(file, keep);
      ReversedSnoc(Filtered(file[..n], keep), file[n]);
    }
  }

  /** Without a time limit as many as are asked for, but at least one, if there are so many. */
  lemma LoadedIs(file: seq<Line>, limit: int)
    ensures var all, n := Newest(file, None), if limit > 1 then limit else 1;
            Loaded(file, limit, None) == if |all| > n then all[..n] else all
  {
    hide Newest;
  }

  /** The limit is compared after a record is taken, so at least one is. */
  function AtLeastOne(limit: int): nat {
    if limit < 1 then 1 else limit
  }

  predicate HasBare(lines: seq<Line>) {
    exists i :: 0 <= i < |lines| && lines[i].Bare?
  }

  /** Asking one of these lines for its time stamp raises, and then nothing at all is returned. */
  predicate Spoils(lines: seq<Line>, since: Option<real>) {
    since.Some? && HasBare(lines)
  }

  function Loaded(file: seq<Line>, limit: int, since: Option<real>): seq<Line> {
    var got := FirstSlice(Newest(file, since), AtLeastOne(limit));
    if Spoils(got, since) then [] else got
  }

  lemma {:induction false} NewestConcat(older: seq<Line>, newer: seq<Line>, since: Option<real>)
    ensures Newest(older + newer, since) == Newest(newer, since) + Newest(older, since)
  {
    if newer == [] {
      assert older + newer == older;
      assert Newest(newer, since) + Newest(older, since) == Newest(older, since);
    } else {
      hide Newest;
      var n := |newer| - 1;
      var mid := older + newer[..n];
      assert older + newer == mid + [newer[n]];
      assert newer == newer[..n] + [newer[n]];
      NewestConcat(older, newer[..n], since);
      NewestSnoc(mid, newer[n], since);
      NewestSnoc(newer[..n], newer[n], since);
      Associates(Picked(newer[n], since), Newest(newer[..n], since), Newest(older, since));
    }
  }

  lemma Associates(a: seq<Line>, b: seq<Line>, c: seq<Line>)
    ensures a + (b + c) == (a + b) + c
  {
  }

  lemma NewestOfNothing(file: seq<Line>, since: Option<real>)
    requires file == []
    ensures Newest(file, since) == []
  {
  }

  lemma NewestSnoc(file: seq<Line>, l: Line, since: Option<real>)
    ensures Newest(file + [l], since) == Picked(l, since) + Newest(file, since)
  {
    assert (file + [l])[..|file|] == file;
  }

  /**
    Loading from the kept tail answers as the whole log would exactly when the tail alone fills
    the limit, or nothing wanted was dropped, or a line raises before the end of the tail, or
    nothing in the tail is wanted and a line of the dropped part raises.
  */
  lemma LoadAgreesIff(dropped: seq<Line>, kept: seq<Line>, limit: int, since: Option<real>)
    ensures Loaded(kept, limit, since) == Loaded(dropped + kept, limit, since) <==>
            || |Newest(kept, since)| >= AtLeastOne(limit) || Newest(dropped, since) == []
            || Spoils(Newest(kept, since), since)
            || (Newest(kept, since) == [] && Spoils(FirstSlice(Newest(dropped, since), AtLeastOne(limit)), since))
  {
    NewestConcat(dropped, kept, since);
    hide Newest; hide AtLeastOne;
    assert AtLeastOne(limit) >= 1 by { AtLeastOneIs(limit); }
    PrefixAgrees(Newest(kept, since), Newest(dropped, since), AtLeastOne(limit), since);
  }

  lemma AtLeastOneIs(limit: int)
    ensures AtLeastOne(limit) >= 1
  {
  }

  lemma PrefixAgrees(a: seq<Line>, b: seq<Line>, n: nat, since: Option<real>)
    requires n >= 1
    ensures var one, all := FirstSlice(a, n), FirstSlice(a + b, n);
            (if Spoils(one, since) then [] else one) == (if Spoils(all, since) then [] else all) <==>
            |a| >= n || b == [] || Spoils(a, since) || (a == [] && Spoils(FirstSlice(b, n), since))
  {
    var one, all := FirstSlice(a, n), FirstSlice(a + b, n);
    if |a| >= n {
      assert one == all;
    } else if b == [] {
      assert a + b == a;
    } else {
      assert one == a && |all| > |a|;
      if Spoils(a, since) {
        SpoilsMore(a, all, since);
      }
      if a == [] {
        assert a + b == b;
      }
    }
  }

  lemma SpoilsMore(a: seq<Line>, all: seq<Line>, since: Option<real>)
    requires Spoils(a, since) && a <= all
    ensures Spoils(all, since)
  {
    var i :| 0 <= i < |a| && a[i].Bare?;
    assert all[i].Bare?;
  }

  lemma {:induction false} NewestOfEntries(file: seq<Line>)
    requires forall i :: 0 <= i < |file| ==> file[i].Entry?
    ensures |Newest(file, None)| == |file|
  {
    if file != [] {
      NewestOfEntries(file[..|file| - 1]);
    }
  }

  /** A store that started empty loads up to its cap as if nothing had ever been dropped. */
  lemma LoadRefinesLog(stored: seq<Record>, maxEntries: int, limit: int)
    requires 1 <= maxEntries && limit <= maxEntries
    ensures Loaded(FileAfter([], stored, maxEntries), limit, None) == Loaded(Entries(stored), limit, None)
  {
    hide FileAfter; hide Newest; hide FirstSlice; hide Loaded; hide Spoils;
    FileIsLogTail([], stored, maxEntries);
    var log := Entries(stored);
    assert [] + log == log;
    if |log| > maxEntries {
      var cut := |log| - maxEntries;
      assert log == log[..cut] + log[cut..];
      NewestOfEntries(log[cut..]);
      LoadAgreesIff(log[..cut], log[cut..], limit, None);
    }
  }

  /** The loaded lines that are fresh and relevant, in the same order; one that is no record raises instead. */
  function Matches(lines: seq<Line>, relevant: Record -> bool, cutoff: real): seq<Line> {
    if lines == [] then []
    else Matches(lines[..|lines| - 1], relevant, cutoff) + Matched(lines[|lines| - 1], relevant, cutoff)
  }

  function Matched(l: Line, relevant: Record -> bool, cutoff: real): seq<Line> {
    if l.Bare? || (l.Entry? && !(cutoff != 0.0 && l.record.ts < cutoff) && relevant(l.record)) then [l] else []
  }

  /** The records found are the relevant ones that are not older than the cutoff, if there is one. */
  lemma {:induction false} MatchesFilter(lines: seq<Line>, relevant: Record -> bool, cutoff: real)
    ensures Matches(lines, relevant, cutoff) ==
            Filtered(lines, (l: Line) =>
              l.Bare? || (l.Entry? && relevant(l.record) && (cutoff == 0.0 || cutoff <= l.record.ts)))
  {
    if lines != [] {
      MatchesFilter(lines[..|lines| - 1], relevant, cutoff);
    }
  }

  const SCAN: int := 200

  /** A search with keywords looks at the newest 200 lines and takes as many matches as a load would. */
  lemma FoundIs(file: seq<Line>, relevant: Record -> bool, topK: int, cutoff: real)
    ensures var matches, n := Matches(Loaded(file, 200, None), relevant, cutoff), if topK > 1 then topK else 1;
            var got := if |matches| > n then matches[..n] else matches;
            Found(file, true, relevant, topK, cutoff) ==
            if exists i :: 0 <= i < |got| && got[i].Bare? then None else Some(got)
    ensures Found(file, false, relevant, topK, cutoff) == Some(Loaded(file, topK, None))
  {
    hide Loaded; hide Matches;
  }

  /** What a search finds; nothing, not even an empty list, if it comes to a line that raises. */
  function Found(file: seq<Line>, hasKeywords: bool, relevant: Record -> bool, topK: int, cutoff: real)
    : Option<seq<Line>>
  {
    if !hasKeywords then Some(Loaded(file, topK, None))
    else
      var got := FirstSlice(Matches(Loaded(file, SCAN, None), relevant, cutoff), AtLeastOne(topK));
      if HasBare(got) then None else Some(got)
  }

  /** With a cap of at least the 200 scanned, search answers as it would on the whole log. */
  lemma SearchRefinesLog(
    stored: seq<Record>, maxEntries: int, hasKeywords: bool, relevant: Record -> bool, topK: int, cutoff: real)
    requires maxEntries >= 200 && (hasKeywords || topK <= maxEntries)
    ensures Found(FileAfter([], stored, maxEntries), hasKeywords, relevant, topK, cutoff) ==
            Found(Entries(stored), hasKeywords, relevant, topK, cutoff)
  {
    hide Loaded; hide Matches; hide FileAfter; hide FirstSlice;
    LoadRefinesLog(stored, maxEntries, if hasKeywords then SCAN else topK);
  }

  class Store {
    const maxEntries: int
    var file: seq<Line>

    constructor (maxEntries: int, file: seq<Line>)
      ensures this.maxEntries == maxEntries && this.file == file
    {
      this.maxEntries, this.file := maxEntries, file;
    }

    method Append(now: real, task: string, result: string, improved: Option<string>, tags: seq<string>)
      modifies this
      ensures file == FileAfter(old(file), [Stored(now, task, result, improved, tags)], maxEntries)
    {
      file := file + [Entry(Stored(now, task, result, improved, tags))];
      MaybeCompact();
    }

    method MaybeCompact()
      modifies this
      ensures file == Compact(old(file), maxEntries)
    {
      if |file| <= maxEntries {
        return;
      }
      file := Written(LastSlice(file, maxEntries));
    }

    /** Newest first, with an early exit at the limit; any exception leads to an empty list. */
    method LoadAll(limit: int, since: Option<real>) returns (lines: seq<Line>)
      ensures lines == Loaded(file, limit, since)
    {
      hide Newest; hide FirstSlice; hide HasBare; hide AtLeastOne;
      lines := [];
      var i := |file|;
      assert file[..|file|] == file;
      NothingBare();
      AtLeastOneIs(limit);
      while i > 0
        invariant 0 <= i <= |file| && |lines| < AtLeastOne(limit) && (since.Some? ==> !HasBare(lines))
        invariant Newest(file, since) == lines + Newest(file[..i], since)
      {
        i := i - 1;
        assert file[..i + 1] == file[..i] + [file[i]];
        NewestSnoc(file[..i], file[i], since);
        Associates(lines, Picked(file[i], since), Newest(file[..i], since));
        var line := file[i];
        if line.Blank? || line.Malformed? {
          continue;
        }
        if since.Some? && line.Entry? && line.record.ts < since.value {
          continue;
        }
        BareSnoc(lines, line);
        if since.Some? && line.Bare? {
          TakeMore(lines + [line], Newest(file[..i], since), AtLeastOne(limit));
          BareStays(lines + [line], FirstSlice(Newest(file, since), AtLeastOne(limit)));
          return [];
        }
        lines := lines + [line];
        LimitReached(|lines|, limit);
        if |lines| >= limit {
          TakeWhole(lines, Newest(file[..i], since));
          return;
        }
      }
      NewestOfNothing(file[..i], since);
      assert lines + [] == lines;
      TakeAll(lines, AtLeastOne(limit));
    }

    /** Scans at most 200 records; `relevant` says whether a record contains some keyword. */
    method Search(hasKeywords: bool, relevant: Record -> bool, topK: int, cutoff: real)
      returns (found: Option<seq<Line>>)
      ensures found == Found(file, hasKeywords, relevant, topK, cutoff)
    {
      hide Matches; hide FirstSlice; hide HasBare; hide AtLeastOne; hide Loaded;
      if !hasKeywords {
        var newest := LoadAll(topK, None);
        return Some(newest);
      }
      var matches: seq<Line> := [];
      var lines := LoadAll(SCAN, None);
      NothingBare();
      AtLeastOneIs(topK);
      MatchesNothing(lines, relevant, cutoff);
      for i := 0 to |lines|
        invariant matches == Matches(lines[..i], relevant, cutoff) && |matches| < AtLeastOne(topK)
        invariant !HasBare(matches)
      {
        var line := lines[i];
        MatchesStep(lines, i, relevant, cutoff);
        assert matches + [] == matches;
        BareSnoc(matches, line);
        if line.Bare? {
          MatchesPrefix(lines, i + 1, relevant, cutoff);
          PrefixSplit(matches + [line], Matches(lines, relevant, cutoff));
          TakeMore(matches + [line], Matches(lines, relevant, cutoff)[|matches| + 1..], AtLeastOne(topK));
          BareStays(matches + [line], FirstSlice(Matches(lines, relevant, cutoff), AtLeastOne(topK)));
          return None;
        }
        if !line.Entry? || (cutoff != 0.0 && line.record.ts < cutoff) {
          continue;
        }
        if relevant(line.record) {
          matches := matches + [line];
          LimitReached(|matches|, topK);
          if |matches| >= topK {
            MatchesPrefix(lines, i + 1, relevant, cutoff);
            PrefixSplit(matches, Matches(lines, relevant, cutoff));
            TakeWhole(matches, Matches(lines, relevant, cutoff)[|matches|..]);
            return Some(matches);
          }
        }
      }
      assert lines[..|lines|] == lines;
      TakeAll(matches, AtLeastOne(topK));
      return Some(matches);
    }
  }

  lemma NothingBare()
    ensures !HasBare([])
  {
  }

  lemma BareSnoc(lines: seq<Line>, l: Line)
    ensures HasBare(lines + [l]) <==> HasBare(lines) || l.Bare?
  {
    if HasBare(lines) {
      var i :| 0 <= i < |lines| && lines[i].Bare?;
      assert (lines + [l])[i].Bare?;
    }
    if l.Bare? {
      assert (lines + [l])[|lines|].Bare?;
    }
  }

  lemma BareStays(lines: seq<Line>, more: seq<Line>)
    requires HasBare(lines) && lines <= more
    ensures HasBare(more)
  {
    var i :| 0 <= i < |lines| && lines[i].Bare?;
    assert more[i].Bare?;
  }

  lemma PrefixSplit(xs: seq<Line>, all: seq<Line>)
    requires xs <= all
    ensures all == xs + all[|xs|..]
  {
  }

  lemma TakeMore(xs: seq<Line>, rest: seq<Line>, n: nat)
    requires |xs| <= n
    ensures xs <= FirstSlice(xs + rest, n)
  {
  }

  lemma LimitReached(n: nat, limit: int)
    requires n >= 1 && n <= AtLeastOne(limit)
    ensures n >= limit <==> n == AtLeastOne(limit)
  {
  }

  lemma MatchesNothing(lines: seq<Line>, relevant: Record -> bool, cutoff: real)
    ensures Matches(lines[..0], relevant, cutoff) == []
  {
  }

  lemma MatchesStep(lines: seq<Line>, i: nat, relevant: Record -> bool, cutoff: real)
    requires i < |lines|
    ensures Matches(lines[..i + 1], relevant, cutoff) ==
            Matches(lines[..i], relevant, cutoff) + Matched(lines[i], relevant, cutoff)
  {
    assert lines[..i + 1][..i] == lines[..i];
  }

  lemma {:induction false} MatchesPrefix(lines: seq<Line>, n: nat, relevant: Record -> bool, cutoff: real)
    requires n <= |lines|
    ensures Matches(lines[..n], relevant, cutoff) <= Matches(lines, relevant, cutoff)
    decreases |lines|
  {
    if n < |lines| {
      MatchesPrefix(lines[..|lines| - 1], n, relevant, cutoff);
      assert lines[..|lines| - 1][..n] == lines[..n];
    } else {
      assert lines[..n] == lines;
    }
  }
}
