/**
  Prompt compression: lines sorted into sections, sections emitted by priority within a
  character budget, and the one that no longer fits cut short.
*/
module Compression {
  import opened Wrappers
  import opened Slices

  datatype Section = Task | Plan | DomainConstraints | Preamble | Context | Memory

  const PRIORITY: seq<Section> := [Task, Plan, DomainConstraints, Preamble, Context, Memory]

  /** Recognises a section header; stripping and upper-casing are left to the caller. */
  type Headers = string -> Option<Section>

  // ----- lines -----

  /** The line boundaries of str.splitlines; a carriage return and a line feed together count as one. */
  predicate IsBreak(c: char) {
    || c == '\n' || c == '\r' || c == '\U{0b}' || c == '\U{0c}' || c == '\U{1c}'
    || c == '\U{1d}' || c == '\U{1e}' || c == '\U{85}' || c == '\U{2028}' || c == '\U{2029}'
  }

  /** The length of the first line. */
  function LineLength(s: string): (n: nat)
    ensures n <= |s| && (forall i :: 0 <= i < n ==> !IsBreak(s[i])) && (n < |s| ==> IsBreak(s[n]))
  {
    if s == "" || IsBreak(s[0]) then 0 else 1 + LineLength(s[1..])
  }

  /** The length of the boundary at the start of s, if there is one. */
  function BreakLength(s: string): (n: nat)
    ensures n <= |s| && (s != "" ==> n > 0)
  {
    if s == "" then 0 else if "\r\n" <= s then 2 else 1
  }

  function SplitLines(s: string): seq<string>
    decreases |s|
  {
    if s == "" then []
    else
      var rest := s[LineLength(s)..];
      [s[..LineLength(s)]] + SplitLines(rest[BreakLength(rest)..])
  }

  /** A text of one character: the ten boundaries of str.splitlines, by code point, end an empty line. */
  lemma Boundaries(c: char)
    ensures SplitLines([c]) ==
            if c as int in {0x0A, 0x0B, 0x0C, 0x0D, 0x1C, 0x1D, 0x1E, 0x85, 0x2028, 0x2029} then [""] else [[c]]
  {
    BreakCodes(c);
    hide IsBreak;
    assert [c][0..] == [c] && [c][1..] == [] && [c][..1] == [c] && [c][..0] == [];
    assert LineLength([c]) == if IsBreak(c) then 0 else 1;
    assert BreakLength([c]) == 1 && BreakLength([]) == 0;
    SplitNothing();
  }

  lemma BreakCodes(c: char)
    ensures IsBreak(c) <==> c as int in {0x0A, 0x0B, 0x0C, 0x0D, 0x1C, 0x1D, 0x1E, 0x85, 0x2028, 0x2029}
  {
  }

  /** No boundary at the end and none of two characters: joining the lines loses no character. */
  ghost predicate Plain(s: string) {
    (s != "" ==> !IsBreak(s[|s| - 1])) && forall i: int :: !PairAt(s, i)
  }

  predicate PairAt(s: string, i: int) {
    0 <= i < |s| - 1 && s[i] == '\r' && s[i + 1] == '\n'
  }

  lemma {:induction false} JoinFront(parts: seq<string>, separator: string)
    requires |parts| > 1
    ensures Join(parts, separator) == parts[0] + separator + Join(parts[1..], separator)
    decreases |parts|
  {
    var n := |parts| - 1;
    if n > 1 {
      JoinFront(parts[..n], separator);
      assert parts[..n][1..] == parts[1..][..n - 1];
    } else {
      assert parts == [parts[0], parts[1]] && parts[..1] == [parts[0]] && parts[1..] == [parts[1]];
    }
  }

  /** The lines joined again are never longer than the text, and as long exactly for a plain text. */
  lemma {:induction false} JoinedLines(s: string)
    ensures |Join(SplitLines(s), "\n")| <= |s|
    ensures |Join(SplitLines(s), "\n")| == |s| <==> Plain(s)
    decreases |s|
  {
    hide *;
    if s == "" {
      JoinedNothing();
    } else {
      var n, b, more := FirstLine(s);
      if more == "" {
        LastLine(s);
      } else {
        SplitPlain(s, n, b);
        JoinedLines(more);
      }
    }
  }

  lemma JoinedNothing()
    ensures Join(SplitLines(""), "\n") == "" && Plain("")
  {
  }

  lemma FirstLine(s: string) returns (n: nat, b: nat, more: string)
    requires s != ""
    ensures n == LineLength(s) <= |s| && b == BreakLength(s[n..]) && n + b <= |s| && more == s[n..][b..]
    ensures |more| == |s| - n - b < |s| && (more != "" ==> b > 0)
    ensures Join(SplitLines(s), "\n") == if more == "" then s[..n] else s[..n] + "\n" + Join(SplitLines(more), "\n")
  {
    n := LineLength(s);
    b := BreakLength(s[n..]);
    more := s[n..][b..];
    assert SplitLines(s) == [s[..n]] + SplitLines(more);
    if more != "" {
      assert SplitLines(s)[1..] == SplitLines(more);
      JoinFront(SplitLines(s), "\n");
    } else {
      assert SplitLines(s) == [s[..n]];
    }
  }

  lemma LastLine(s: string)
    requires s != "" && LineLength(s) + BreakLength(s[LineLength(s)..]) == |s|
    ensures LineLength(s) == |s| <==> Plain(s)
  {
    hide LineLength; hide BreakLength;
    var n := LineLength(s);
    if n < |s| {
      BoundaryPair(s, n);
      assert n == |s| - 1 || s[|s| - 1] == '\n';
    } else {
      NoReturnInside(s, n);
    }
  }

  lemma SplitPlain(s: string, n: nat, b: nat)
    requires n < |s| && n == LineLength(s) && b == BreakLength(s[n..]) && n + b < |s|
    ensures Plain(s) <==> b == 1 && Plain(s[n..][b..])
  {
    hide PairAt; hide IsBreak; hide LineLength; hide BreakLength;
    var more := s[n..][b..];
    assert more != "" && more[|more| - 1] == s[|s| - 1];
    BoundaryPair(s, n);
    NoReturnInside(s, n);
    forall i: int ensures PairAt(s, i) <==> (b == 2 && i == n) || PairAt(more, i - n - b) {
      PairBeyond(s, n, b, i);
    }
    forall i: int ensures PairAt(more, i) ==> PairAt(s, i + n + b) {
      PairBeyond(s, n, b, i + n + b);
    }
  }

  lemma NoReturnInside(s: string, n: nat)
    requires n == LineLength(s)
    ensures forall i :: 0 <= i < n ==> s[i] != '\r'
  {
    hide LineLength;
  }

  lemma BoundaryPair(s: string, n: nat)
    requires n < |s| && n == LineLength(s)
    ensures BreakLength(s[n..]) == if PairAt(s, n) then 2 else 1
  {
    hide IsBreak; hide LineLength;
    var rest := s[n..];
    assert rest[0] == s[n] && (|rest| > 1 ==> rest[1] == s[n + 1]);
    assert "\r\n"[0] == '\r' && "\r\n"[1] == '\n';
  }

  lemma PairBeyond(s: string, n: nat, b: nat, i: int)
    requires n < |s| && (forall k :: 0 <= k < n ==> s[k] != '\r')
    requires b == (if PairAt(s, n) then 2 else 1) && n + b < |s|
    ensures PairAt(s, i) <==> (b == 2 && i == n) || PairAt(s[n..][b..], i - n - b)
  {
    if n + b <= i < |s| {
      assert s[n..][b..][i - n - b] == s[i];
      if i + 1 < |s| {
        assert s[n..][b..][i - n - b + 1] == s[i + 1];
      }
    }
  }

  // ----- sections -----

  /** The section that is current after these lines. */
  function Current(lines: seq<string>, header: Headers): Section {
    if lines == [] then Preamble
    else
      var h := header(lines[|lines| - 1]);
      if h.Some? then h.value else Current(lines[..|lines| - 1], header)
  }

  /** The lines of a section, in their original order. */
  function LinesOf(lines: seq<string>, header: Headers, s: Section): seq<string> {
    if lines == [] then []
    else
      LinesOf(lines[..|lines| - 1], header, s)
      + if Current(lines, header) == s then [lines[|lines| - 1]] else []
  }

  /** The last header so far is the one at j. */
  ghost predicate LastHeaderAt(lines: seq<string>, header: Headers, j: int, s: Section) {
    0 <= j < |lines| && header(lines[j]) == Some(s) && NoHeader(lines[j + 1..], header)
  }

  ghost predicate NoHeader(lines: seq<string>, header: Headers) {
    forall k :: 0 <= k < |lines| ==> header(lines[k]) == None
  }

  /** A section is current exactly if the last header so far is its own, or if it is the preamble and there is none. */
  lemma {:induction false} CurrentIff(lines: seq<string>, header: Headers, s: Section)
    ensures Current(lines, header) == s <==>
            (exists j :: LastHeaderAt(lines, header, j, s)) || (s == Preamble && NoHeader(lines, header))
  {
    if lines != [] {
      var n := |lines| - 1;
      CurrentIff(lines[..n], header, s);
      assert lines == lines[..n] + [lines[n]];
      if header(lines[n]) == None {
        forall j ensures LastHeaderAt(lines, header, j, s) <==> LastHeaderAt(lines[..n], header, j, s) {
          HeaderStays(lines, header, j, s);
        }
      } else {
        assert !NoHeader(lines, header);
        assert lines[n + 1..] == [];
        forall j ensures LastHeaderAt(lines, header, j, s) <==> j == n && header(lines[n]) == Some(s) {
          if 0 <= j < n {
            assert lines[j + 1..][n - j - 1] == lines[n];
          }
        }
        assert LastHeaderAt(lines, header, n, s) <==> header(lines[n]) == Some(s);
      }
    }
  }

  lemma HeaderStays(lines: seq<string>, header: Headers, j: int, s: Section)
    requires lines != [] && header(lines[|lines| - 1]) == None
    ensures var n := |lines| - 1;
            LastHeaderAt(lines, header, j, s) <==> LastHeaderAt(lines[..n], header, j, s)
  {
    var n := |lines| - 1;
    if 0 <= j < n {
      assert lines[j + 1..] == lines[..n][j + 1..] + [lines[n]];
    }
  }

  function SectionAt(lines: seq<string>, header: Headers, p: nat): Section
    requires p < |lines|
  {
    Current(lines[..p + 1], header)
  }

  /** Where the lines of a section stand in the prompt: at and below its headers, up to the next one. */
  function LinePlaces(lines: seq<string>, header: Headers, s: Section): seq<nat> {
    if lines == [] then []
    else
      LinePlaces(lines[..|lines| - 1], header, s)
      + if Current(lines, header) == s then [|lines| - 1] else []
  }

  lemma {:induction false} LinesOfAre(lines: seq<string>, header: Headers, s: Section)
    ensures var places, section := LinePlaces(lines, header, s), LinesOf(lines, header, s);
            && |places| == |section|
            && (forall i :: 0 <= i < |places| ==> places[i] < |lines| && section[i] == lines[places[i]])
            && (forall i, j :: 0 <= i < j < |places| ==> places[i] < places[j])
            && (forall p :: 0 <= p < |lines| ==> (p in places <==> SectionAt(lines, header, p) == s))
  {
    if lines != [] {
      var n := |lines| - 1;
      LinesOfAre(lines[..n], header, s);
      hide Current; hide LinesOf; hide LinePlaces; hide SectionAt;
      LinesOfUnfold(lines, header, s);
      forall p | 0 <= p < n ensures SectionAt(lines[..n], header, p) == SectionAt(lines, header, p) {
        SameSection(lines, header, p, n);
      }
    }
  }

  lemma SameSection(lines: seq<string>, header: Headers, p: nat, n: nat)
    requires p < n <= |lines|
    ensures SectionAt(lines[..n], header, p) == SectionAt(lines, header, p)
  {
    assert lines[..n][..p + 1] == lines[..p + 1];
  }

  lemma LinesOfUnfold(lines: seq<string>, header: Headers, s: Section)
    requires lines != []
    ensures var n, here := |lines| - 1, Current(lines, header) == s;
            && LinesOf(lines, header, s) == LinesOf(lines[..n], header, s) + (if here then [lines[n]] else [])
            && LinePlaces(lines, header, s) == LinePlaces(lines[..n], header, s) + (if here then [n] else [])
            && (here <==> SectionAt(lines, header, n) == s)
  {
    assert lines[..|lines|] == lines;
  }

  /** How often a line occurs in a section. */
  ghost function Times(lines: seq<string>, header: Headers, s: Section, line: string): nat {
    multiset(LinesOf(lines, header, s))[line]
  }

  lemma TimesStep(lines: seq<string>, header: Headers, s: Section, line: string)
    requires lines != []
    ensures Times(lines, header, s, line) ==
            Times(lines[..|lines| - 1], header, s, line)
            + if Current(lines, header) == s && lines[|lines| - 1] == line then 1 else 0
  {
  }

  lemma NoTimes(header: Headers, s: Section, line: string)
    ensures Times([], header, s, line) == 0
  {
  }

  /** Every line is in exactly one section: nothing is lost and nothing duplicated. */
  lemma {:induction false} SectionsPartition(lines: seq<string>, header: Headers, line: string)
    ensures multiset(lines)[line] ==
            Times(lines, header, Task, line) + Times(lines, header, Plan, line)
            + Times(lines, header, DomainConstraints, line) + Times(lines, header, Preamble, line)
            + Times(lines, header, Context, line) + Times(lines, header, Memory, line)
  {
    hide *;
    if lines == [] {
      forall s { NoTimes(header, s, line); }
    } else {
      SectionsPartition(lines[..|lines| - 1], header, line);
      assert lines == lines[..|lines| - 1] + [lines[|lines| - 1]];
      TimesStep(lines, header, Task, line);
      TimesStep(lines, header, Plan, line);
      TimesStep(lines, header, DomainConstraints, line);
      TimesStep(lines, header, Preamble, line);
      TimesStep(lines, header, Context, line);
      TimesStep(lines, header, Memory, line);
    }
  }

  function Join(parts: seq<string>, separator: string): string {
    if parts == [] then ""
    else if |parts| == 1 then parts[0]
    else Join(parts[..|parts| - 1], separator) + separator + parts[|parts| - 1]
  }

  lemma JoinLength(parts: seq<string>, separator: string)
    ensures |Join(parts, separator)| == Total(parts) + if parts == [] then 0 else (|parts| - 1) * |separator|
  {
    if |parts| > 1 {
      JoinLength(parts[..|parts| - 1], separator);
    } else if |parts| == 1 {
      assert parts[..0] == [];
    }
  }

  /** The non-empty section texts among the first n of the priority order. */
  function Contents(lines: seq<string>, header: Headers, n: nat): (r: seq<string>)
    requires n <= |PRIORITY|
    ensures |r| <= n && forall i :: 0 <= i < |r| ==> r[i] != ""
  {
    if n == 0 then []
    else
      var text := Join(LinesOf(lines, header, PRIORITY[n - 1]), "\n");
      Contents(lines, header, n - 1) + if text == "" then [] else [text]
  }

  function Marker(): (m: string)
    ensures |m| == 40
  {
    "\n[... compressed for context window ...]"
  }

  function Cut(text: string, budget: int): string {
    FirstSlice(text, budget - 50) + Marker()
  }

  /** `parts` is what the budget lets through: all texts whole, or a prefix whole and one cut. */
  ghost predicate Emitted(texts: seq<string>, maxChars: int, parts: seq<string>) {
    || (parts == texts && (texts == [] || Total(texts) <= maxChars))
    || exists k :: CutAt(texts, maxChars, k) && parts == texts[..k] + [Cut(texts[k], maxChars - Total(texts[..k]))]
  }

  /** The first text that does not fit is the one at k. */
  ghost predicate CutAt(texts: seq<string>, maxChars: int, k: int) {
    && 0 <= k < |texts| && (k > 0 ==> Total(texts[..k]) <= maxChars)
    && Total(texts[..k]) + |texts[k]| > maxChars
  }

  function SectionOf(sections: map<Section, seq<string>>, s: Section): seq<string> {
    if s in sections then sections[s] else []
  }

  /** The lines sorted into a dictionary of sections. */
  method Sort(lines: seq<string>, header: Headers) returns (sections: map<Section, seq<string>>)
    ensures forall s :: SectionOf(sections, s) == LinesOf(lines, header, s)
  {
    sections := map[];
    var current := Preamble;
    for i := 0 to |lines|
      invariant current == Current(lines[..i], header)
      invariant forall s :: SectionOf(sections, s) == LinesOf(lines[..i], header, s)
    {
      assert lines[..i + 1][..i] == lines[..i];
      var h := header(lines[i]);
      if h.Some? {
        current := h.value;
      }
      sections := sections[current := SectionOf(sections, current) + [lines[i]]];
    }
    assert lines[..|lines|] == lines;
  }

  /** The non-empty section texts of a prompt, in priority order. */
  function Texts(prompt: string, header: Headers): (texts: seq<string>)
    ensures |texts| <= |PRIORITY|
  {
    Contents(SplitLines(prompt), header, |PRIORITY|)
  }

  // ----- what is sacrificed first -----

  /** The sections that come before a section, the most important one first. */
  function Before(s: Section): seq<Section> {
    match s
    case Task => []
    case Plan => [Task]
    case DomainConstraints => [Task, Plan]
    case Preamble => [Task, Plan, DomainConstraints]
    case Context => [Task, Plan, DomainConstraints, Preamble]
    case Memory => [Task, Plan, DomainConstraints, Preamble, Context]
  }

  function SectionText(lines: seq<string>, header: Headers, s: Section): string {
    Join(LinesOf(lines, header, s), "\n")
  }

  /** The non-empty texts of these sections. */
  function TextsOf(lines: seq<string>, header: Headers, order: seq<Section>): seq<string> {
    if order == [] then []
    else
      var n := |order| - 1;
      var text := SectionText(lines, header, order[n]);
      TextsOf(lines, header, order[..n]) + if text == "" then [] else [text]
  }

  /** Where the text of a section stands among all of them. */
  function Place(lines: seq<string>, header: Headers, s: Section): nat {
    |TextsOf(lines, header, Before(s))|
  }

  lemma {:induction false} ContentsAreTexts(lines: seq<string>, header: Headers, n: nat)
    requires n <= |PRIORITY|
    ensures Contents(lines, header, n) == TextsOf(lines, header, PRIORITY[..n])
  {
    hide LinesOf; hide Join;
    if n > 0 {
      ContentsAreTexts(lines, header, n - 1);
      assert PRIORITY[..n][..n - 1] == PRIORITY[..n - 1];
    }
  }

  /** The texts stand in the order TASK, PLAN, DOMAIN CONSTRAINTS, PREAMBLE, CONTEXT, MEMORY. */
  lemma TextsInOrder(prompt: string, header: Headers)
    ensures Texts(prompt, header) ==
            TextsOf(SplitLines(prompt), header, [Task, Plan, DomainConstraints, Preamble, Context, Memory])
  {
    hide TextsOf; hide Contents;
    ContentsAreTexts(SplitLines(prompt), header, |PRIORITY|);
    assert PRIORITY[..|PRIORITY|] == [Task, Plan, DomainConstraints, Preamble, Context, Memory];
  }

  lemma {:induction false} TextsPrefix(lines: seq<string>, header: Headers, order: seq<Section>, more: seq<Section>)
    requires order <= more
    ensures TextsOf(lines, header, order) <= TextsOf(lines, header, more)
    decreases |more|
  {
    hide SectionText;
    if |order| < |more| {
      assert order <= more[..|more| - 1];
      TextsPrefix(lines, header, order, more[..|more| - 1]);
    } else {
      assert order == more;
    }
  }

  /** The text of a section stands at its place. */
  lemma TextAtPlace(prompt: string, header: Headers, s: Section)
    requires SectionText(SplitLines(prompt), header, s) != ""
    ensures var lines, texts := SplitLines(prompt), Texts(prompt, header);
            && Place(lines, header, s) < |texts| && texts[Place(lines, header, s)] == SectionText(lines, header, s)
  {
    hide *;
    var lines := SplitLines(prompt);
    TextsInOrder(prompt, header);
    PlaceIs(lines, header, s);
    TextsPrefix(lines, header, Before(s) + [s], [Task, Plan, DomainConstraints, Preamble, Context, Memory]);
  }

  lemma PlaceIs(lines: seq<string>, header: Headers, s: Section)
    ensures Place(lines, header, s) == |TextsOf(lines, header, Before(s))|
    ensures SectionText(lines, header, s) != "" ==>
              TextsOf(lines, header, Before(s) + [s]) ==
              TextsOf(lines, header, Before(s)) + [SectionText(lines, header, s)]
    ensures Before(s) + [s] <= [Task, Plan, DomainConstraints, Preamble, Context, Memory]
  {
    hide SectionText;
    var upTo := Before(s) + [s];
    assert upTo[..|upTo| - 1] == Before(s);
  }

  lemma PlacesInOrder(lines: seq<string>, header: Headers, a: Section, b: Section)
    requires a in Before(b) && SectionText(lines, header, a) != ""
    ensures Place(lines, header, a) < Place(lines, header, b)
  {
    hide SectionText; hide TextsOf;
    PlaceIs(lines, header, a);
    assert Before(a) + [a] <= Before(b);
    TextsPrefix(lines, header, Before(a) + [a], Before(b));
  }

  /** Some of the section is emitted, whole or cut. */
  ghost predicate Emits(lines: seq<string>, header: Headers, parts: seq<string>, s: Section) {
    SectionText(lines, header, s) != "" && Place(lines, header, s) < |parts|
  }

  /** If anything of a section is emitted, every section before it is emitted whole, and before it. */
  ghost predicate InPriority(lines: seq<string>, header: Headers, parts: seq<string>) {
    forall a, b :: Emits(lines, header, parts, b) && a in Before(b) && SectionText(lines, header, a) != "" ==>
      && Place(lines, header, a) < Place(lines, header, b)
      && parts[Place(lines, header, a)] == SectionText(lines, header, a)
  }

  lemma EmittedInPriority(prompt: string, header: Headers, maxChars: int, parts: seq<string>)
    requires Emitted(Texts(prompt, header), maxChars, parts)
    ensures InPriority(SplitLines(prompt), header, parts)
  {
    hide SectionText; hide Texts; hide SplitLines; hide Place; hide Before; hide Cut; hide Total;
    var lines := SplitLines(prompt);
    forall a, b | Emits(lines, header, parts, b) && a in Before(b) && SectionText(lines, header, a) != ""
      ensures Place(lines, header, a) < Place(lines, header, b)
      ensures parts[Place(lines, header, a)] == SectionText(lines, header, a)
    {
      PlacesInOrder(lines, header, a, b);
      TextAtPlace(prompt, header, a);
    }
  }

  /** A task section that fits is emitted whole, at the head of the output, whatever else the prompt holds. */
  lemma TaskComesFirst(prompt: string, header: Headers, maxChars: int, parts: seq<string>)
    requires Emitted(Texts(prompt, header), maxChars, parts)
    ensures var task := SectionText(SplitLines(prompt), header, Task);
            task != "" && |task| <= maxChars ==> parts != [] && parts[0] == task && task <= Join(parts, "\n\n")
  {
    hide SectionText; hide Texts; hide SplitLines; hide Cut; hide Join;
    var task := SectionText(SplitLines(prompt), header, Task);
    if task != "" && |task| <= maxChars {
      TextAtPlace(prompt, header, Task);
      var texts := Texts(prompt, header);
      assert texts[0] == task && texts[..0] == [];
      if k :| CutAt(texts, maxChars, k) && parts == texts[..k] + [Cut(texts[k], maxChars - Total(texts[..k]))] {
        assert k > 0;
      }
      HeadOfJoin(parts, "\n\n");
    }
  }

  /** A section that fits together with those before it is emitted whole. */
  lemma WholeIfFits(prompt: string, header: Headers, maxChars: int, parts: seq<string>, s: Section)
    requires Emitted(Texts(prompt, header), maxChars, parts)
    ensures var lines := SplitLines(prompt);
            SectionText(lines, header, s) != "" && Total(TextsOf(lines, header, Before(s) + [s])) <= maxChars ==>
              Place(lines, header, s) < |parts| && parts[Place(lines, header, s)] == SectionText(lines, header, s)
  {
    hide *;
    var lines, texts := SplitLines(prompt), Texts(prompt, header);
    if SectionText(lines, header, s) != "" && Total(TextsOf(lines, header, Before(s) + [s])) <= maxChars {
      TextsInOrder(prompt, header);
      PlaceIs(lines, header, s);
      TextAtPlace(prompt, header, s);
      TextsPrefix(lines, header, Before(s) + [s], [Task, Plan, DomainConstraints, Preamble, Context, Memory]);
      PrefixIsWhole(texts, maxChars, parts, Place(lines, header, s), TextsOf(lines, header, Before(s) + [s]));
    }
  }

  lemma PrefixIsWhole(texts: seq<string>, maxChars: int, parts: seq<string>, k: nat, upTo: seq<string>)
    requires Emitted(texts, maxChars, parts) && upTo <= texts && |upTo| == k + 1 && Total(upTo) <= maxChars
    ensures k < |parts| && parts[k] == texts[k]
  {
    hide Cut; hide Total;
    if j :| CutAt(texts, maxChars, j) && parts == texts[..j] + [Cut(texts[j], maxChars - Total(texts[..j]))] {
      if j <= k {
        assert upTo[..j] == texts[..j] && upTo[j] == texts[j];
        PrefixTotal(upTo, j);
      }
    }
  }

  lemma {:induction false} HeadOfJoin(parts: seq<string>, separator: string)
    requires parts != []
    ensures parts[0] <= Join(parts, separator)
    decreases |parts|
  {
    if |parts| > 1 {
      HeadOfJoin(parts[..|parts| - 1], separator);
    }
  }

  /**
    The text that is cut keeps its head: all but the 50 characters that the marker may take of
    what is left.  With less than 50 left, the slice counts from the end of the text.
  */
  lemma CutKeepsHead(text: string, left: int)
    ensures var kept := if left >= 50 then (if left - 50 < |text| then left - 50 else |text|)
                        else if |text| + left > 50 then |text| + left - 50 else 0;
            Cut(text, left) == text[..kept] + "\n[... compressed for context window ...]"
  {
  }

  /** The compressed prompt. */
  method CompressPrompt(prompt: string, header: Headers, maxChars: int)
    returns (out: string, ghost parts: seq<string>)
    ensures |prompt| <= maxChars ==> out == prompt
    ensures |prompt| > maxChars ==> Emitted(Texts(prompt, header), maxChars, parts) && out == Join(parts, "\n\n")
    ensures |out| <= maxChars <==> |prompt| <= maxChars || WithinLimit(Texts(prompt, header), maxChars)
    ensures Texts(prompt, header) != [] && NothingCut(Texts(prompt, header), maxChars) ==> |out| <= maxChars + 10
    ensures |prompt| > maxChars ==> InPriority(SplitLines(prompt), header, parts)
    ensures var task := SectionText(SplitLines(prompt), header, Task);
            |prompt| > maxChars && task != "" && |task| <= maxChars ==> task <= out
  {
    hide *;
    if |prompt| <= maxChars {
      return prompt, [];
    }
    out, parts := EmitSections(prompt, header, maxChars);
    AtMostSix(prompt, header);
    WithinLimitIff(Texts(prompt, header), maxChars, parts);
    EmittedInPriority(prompt, header, maxChars, parts);
    TaskComesFirst(prompt, header, maxChars, parts);
  }

  lemma AtMostSix(prompt: string, header: Headers)
    ensures |Texts(prompt, header)| <= 6
  {
  }

  method EmitSections(prompt: string, header: Headers, maxChars: int)
    returns (out: string, ghost parts: seq<string>)
    ensures Emitted(Texts(prompt, header), maxChars, parts) && out == Join(parts, "\n\n")
  {
    hide *;
    var lines := SplitLines(prompt);
    TextsAre(prompt, header);
    var sections := Sort(lines, header);
    var resultParts: seq<string> := [];
    var budget := maxChars;
    NoContents(lines, header);
    for n := 0 to |PRIORITY|
      invariant resultParts == Contents(lines, header, n)
      invariant budget == maxChars - Total(resultParts)
      invariant resultParts == [] || budget >= 0
    {
      var section := PRIORITY[n];
      var content := Join(SectionOf(sections, section), "\n");
      ContentsStep(lines, header, n);
      if content == "" {
        continue;
      }
      TotalSnoc(resultParts, content);
      if |content| <= budget {
        resultParts := resultParts + [content];
        budget := budget - |content|;
      } else {
        CutHere(lines, header, n, maxChars, resultParts, content);
        resultParts := resultParts + [FirstSlice(content, budget - 50) + Marker()];
        return Join(resultParts, "\n\n"), resultParts;
      }
    }
    AllWhole(resultParts, maxChars);
    return Join(resultParts, "\n\n"), resultParts;
  }

  lemma TextsAre(prompt: string, header: Headers)
    ensures Texts(prompt, header) == Contents(SplitLines(prompt), header, |PRIORITY|)
  {
  }

  lemma NoContents(lines: seq<string>, header: Headers)
    ensures Contents(lines, header, 0) == [] && Total<char>([]) == 0
  {
  }

  lemma ContentsStep(lines: seq<string>, header: Headers, n: nat)
    requires n < |PRIORITY|
    ensures var text := Join(LinesOf(lines, header, PRIORITY[n]), "\n");
            Contents(lines, header, n + 1) == Contents(lines, header, n) + if text == "" then [] else [text]
  {
    hide Join; hide LinesOf;
  }

  lemma TotalSnoc(parts: seq<string>, text: string)
    ensures Total(parts + [text]) == Total(parts) + |text|
  {
    assert (parts + [text])[..|parts|] == parts;
  }

  lemma CutHere(
    lines: seq<string>, header: Headers, n: nat, maxChars: int, parts: seq<string>, content: string)
    requires n < |PRIORITY| && parts == Contents(lines, header, n)
    requires parts + [content] == Contents(lines, header, n + 1)
    requires parts == [] || Total(parts) <= maxChars
    requires Total(parts) + |content| > maxChars
    ensures Emitted(Contents(lines, header, |PRIORITY|), maxChars,
                    parts + [FirstSlice(content, maxChars - Total(parts) - 50) + Marker()])
  {
    hide *;
    ContentsPrefix(lines, header, n + 1, |PRIORITY|);
    EmittedCut(Contents(lines, header, |PRIORITY|), maxChars, parts, content);
  }

  lemma EmittedCut(texts: seq<string>, maxChars: int, parts: seq<string>, content: string)
    requires parts + [content] <= texts
    requires parts == [] || Total(parts) <= maxChars
    requires Total(parts) + |content| > maxChars
    ensures Emitted(texts, maxChars, parts + [FirstSlice(content, maxChars - Total(parts) - 50) + Marker()])
  {
    hide Total; hide FirstSlice; hide Marker;
    var k := |parts|;
    assert texts[..k] == parts;
    assert texts[k] == (parts + [content])[k];
    assert CutAt(texts, maxChars, k);
    assert Cut(texts[k], maxChars - Total(texts[..k])) == FirstSlice(content, maxChars - Total(parts) - 50) + Marker();
  }

  lemma AllWhole(texts: seq<string>, maxChars: int)
    requires texts == [] || Total(texts) <= maxChars
    ensures Emitted(texts, maxChars, texts)
  {
  }

  lemma ContentsPrefix(lines: seq<string>, header: Headers, m: nat, n: nat)
    requires m <= n <= |PRIORITY|
    ensures Contents(lines, header, m) <= Contents(lines, header, n)
  {
  }

  // ----- how much there is to emit -----

  /** How many of these sections hold a line. */
  function Used(lines: seq<string>, header: Headers, order: seq<Section>): nat {
    if order == [] then 0
    else
      var n := |order| - 1;
      Used(lines, header, order[..n]) + if LinesOf(lines, header, order[n]) == [] then 0 else 1
  }

  /** The characters of these sections, without line feeds. */
  function Chars(lines: seq<string>, header: Headers, order: seq<Section>): nat {
    if order == [] then 0
    else
      var n := |order| - 1;
      Chars(lines, header, order[..n]) + Total(LinesOf(lines, header, order[n]))
  }

  /** The lines of these sections. */
  function Count(lines: seq<string>, header: Headers, order: seq<Section>): nat {
    if order == [] then 0
    else
      var n := |order| - 1;
      Count(lines, header, order[..n]) + |LinesOf(lines, header, order[n])|
  }

  /** The joined text of a section has one line feed less than lines. */
  lemma {:induction false} ContentsTotal(lines: seq<string>, header: Headers, n: nat)
    requires n <= |PRIORITY|
    ensures Total(Contents(lines, header, n)) + Used(lines, header, PRIORITY[..n]) ==
            Chars(lines, header, PRIORITY[..n]) + Count(lines, header, PRIORITY[..n])
  {
    hide *;
    if n == 0 {
      NothingTotal(lines, header);
      NoContents(lines, header);
    } else {
      ContentsTotal(lines, header, n - 1);
      PrefixStep(PRIORITY, n);
      SumsUnfold(lines, header, PRIORITY[..n - 1], PRIORITY[n - 1]);
      var section := LinesOf(lines, header, PRIORITY[n - 1]);
      JoinLines(section);
      ContentsStep(lines, header, n - 1);
      var before := Contents(lines, header, n - 1);
      assert before + [] == before;
      TotalSnoc(before, Join(section, "\n"));
    }
  }

  lemma PrefixStep<T>(s: seq<T>, n: nat)
    requires 0 < n <= |s|
    ensures s[..n] == s[..n - 1] + [s[n - 1]]
  {
  }

  lemma NothingTotal(lines: seq<string>, header: Headers)
    ensures Total<char>([]) == 0 && Used(lines, header, []) == 0
    ensures Chars(lines, header, []) == 0 && Count(lines, header, []) == 0
  {
  }

  lemma SumsUnfold(lines: seq<string>, header: Headers, order: seq<Section>, s: Section)
    ensures var section := LinesOf(lines, header, s);
            && Used(lines, header, order + [s]) == Used(lines, header, order) + (if section == [] then 0 else 1)
            && Chars(lines, header, order + [s]) == Chars(lines, header, order) + Total(section)
            && Count(lines, header, order + [s]) == Count(lines, header, order) + |section|
  {
    hide LinesOf; hide Total;
    assert (order + [s])[..|order|] == order;
  }

  lemma JoinLines(lines: seq<string>)
    ensures |Join(lines, "\n")| == Total(lines) + |lines| - if lines == [] then 0 else 1
  {
    JoinLength(lines, "\n");
    var n := |lines|;
    assert |"\n"| == 1 && (n - 1) * 1 == n - 1;
  }

  lemma LinesOfStep(lines: seq<string>, header: Headers, s: Section)
    requires lines != []
    ensures var init, last := lines[..|lines| - 1], lines[|lines| - 1];
            && |LinesOf(lines, header, s)| ==
               |LinesOf(init, header, s)| + (if Current(lines, header) == s then 1 else 0)
            && Total(LinesOf(lines, header, s)) ==
               Total(LinesOf(init, header, s)) + (if Current(lines, header) == s then |last| else 0)
  {
    hide Total;
    var init, last := lines[..|lines| - 1], lines[|lines| - 1];
    TotalSnoc(LinesOf(init, header, s), last);
    assert LinesOf(init, header, s) + [] == LinesOf(init, header, s);
  }

  predicate Distinct(order: seq<Section>) {
    forall i, j :: 0 <= i < j < |order| ==> order[i] != order[j]
  }

  lemma {:induction false} SumsStep(lines: seq<string>, header: Headers, order: seq<Section>)
    requires lines != [] && Distinct(order)
    ensures var init, here := lines[..|lines| - 1], Current(lines, header) in order;
            && Count(lines, header, order) == Count(init, header, order) + (if here then 1 else 0)
            && Chars(lines, header, order) == Chars(init, header, order) + (if here then |lines[|lines| - 1]| else 0)
  {
    var init := lines[..|lines| - 1];
    if order == [] {
      NothingTotal(lines, header);
      NothingTotal(init, header);
    } else {
      var n := |order| - 1;
      LastIsNew(order);
      hide *;
      SumsStep(lines, header, order[..n]);
      LinesOfStep(lines, header, order[n]);
      SumsUnfold(lines, header, order[..n], order[n]);
      SumsUnfold(init, header, order[..n], order[n]);
    }
  }

  lemma LastIsNew(order: seq<Section>)
    requires Distinct(order) && order != []
    ensures var n := |order| - 1;
            Distinct(order[..n]) && order == order[..n] + [order[n]] && order[n] !in order[..n]
  {
  }

  lemma AllInOrder(s: Section)
    ensures s in PRIORITY && Distinct(PRIORITY)
  {
    assert s == PRIORITY[match s
                         case Task => 0
                         case Plan => 1
                         case DomainConstraints => 2
                         case Preamble => 3
                         case Context => 4
                         case Memory => 5];
  }

  lemma {:induction false} NoSums(header: Headers, order: seq<Section>)
    ensures Count([], header, order) == 0 && Chars([], header, order) == 0
  {
    if order != [] {
      NoSums(header, order[..|order| - 1]);
    }
  }

  /** Together the six sections have the lines and the characters of the prompt. */
  lemma {:induction false} SectionsHoldAll(lines: seq<string>, header: Headers)
    ensures Count(lines, header, PRIORITY) == |lines|
    ensures Chars(lines, header, PRIORITY) == Total(lines)
  {
    hide Count; hide Chars; hide Current; hide Distinct;
    if lines == [] {
      NoSums(header, PRIORITY);
    } else {
      SectionsHoldAll(lines[..|lines| - 1], header);
      AllInOrder(Current(lines, header));
      SumsStep(lines, header, PRIORITY);
    }
  }

  /** The texts of a prompt are shorter than its joined lines by one character for every section but one. */
  lemma TextsTotal(prompt: string, header: Headers)
    requires SplitLines(prompt) != []
    ensures Total(Texts(prompt, header)) + Used(SplitLines(prompt), header, PRIORITY) ==
            |Join(SplitLines(prompt), "\n")| + 1
  {
    hide *;
    var lines := SplitLines(prompt);
    TextsAre(prompt, header);
    ContentsTotal(lines, header, |PRIORITY|);
    assert PRIORITY[..|PRIORITY|] == PRIORITY;
    SectionsHoldAll(lines, header);
    JoinLines(lines);
  }

  /** Everything is emitted whole. */
  predicate NothingCut(texts: seq<string>, maxChars: int) {
    texts == [] || Total(texts) <= maxChars
  }

  /**
    A prompt over the limit, with any text to emit, is emitted whole exactly when its joined
    lines are over by less than the number of sections that hold them.
  */
  lemma NothingCutIffJoined(prompt: string, header: Headers, maxChars: int)
    requires |prompt| > maxChars && Texts(prompt, header) != []
    ensures NothingCut(Texts(prompt, header), maxChars) <==>
            |Join(SplitLines(prompt), "\n")| - maxChars < Used(SplitLines(prompt), header, PRIORITY)
  {
    hide Texts; hide Used; hide Join; hide Total;
    SomeLines(prompt, header);
    TextsTotal(prompt, header);
  }

  /**
    For a plain prompt these are the characters of the prompt: it is emitted whole exactly when
    it is over by less than the number of its sections.
  */
  lemma NothingCutIff(prompt: string, header: Headers, maxChars: int)
    requires |prompt| > maxChars && Plain(prompt) && Texts(prompt, header) != []
    ensures NothingCut(Texts(prompt, header), maxChars) <==>
            |prompt| - maxChars < Used(SplitLines(prompt), header, PRIORITY)
  {
    hide *;
    JoinedLines(prompt);
    NothingCutIffJoined(prompt, header, maxChars);
  }

  lemma SomeLines(prompt: string, header: Headers)
    requires Texts(prompt, header) != []
    ensures SplitLines(prompt) != []
  {
    NoTexts(header, |PRIORITY|);
  }

  lemma NoTexts(header: Headers, n: nat)
    requires n <= |PRIORITY|
    ensures Contents([], header, n) == []
  {
  }

  // ----- the length of the output -----

  /** The length of what is emitted when the text at k is cut. */
  lemma CutLength(texts: seq<string>, maxChars: int, k: nat)
    requires |texts| <= 6 && CutAt(texts, maxChars, k)
    ensures var left := maxChars - Total(texts[..k]);
            var out := Join(texts[..k] + [Cut(texts[k], left)], "\n\n");
            if left >= 50 then |out| == maxChars - 10 + 2 * k && |out| <= maxChars
            else |out| > maxChars
  {
    hide Marker; hide Join;
    var left := maxChars - Total(texts[..k]);
    var parts := texts[..k] + [Cut(texts[k], left)];
    assert parts[..k] == texts[..k];
    JoinLength(parts, "\n\n");
  }

  /**
    Everything fits together with its separators, or the section that is cut meets a remaining
    budget of at least 50.
  */
  ghost predicate WithinLimit(texts: seq<string>, maxChars: int) {
    if exists k :: CutAt(texts, maxChars, k)
    then exists k :: CutAt(texts, maxChars, k) && maxChars - Total(texts[..k]) >= 50
    else Total(texts) + (if texts == [] then 0 else 2 * (|texts| - 1)) <= maxChars
  }

  /** What is emitted stays within the limit exactly then; emitted whole, it is at most 10 over. */
  lemma WithinLimitIff(texts: seq<string>, maxChars: int, parts: seq<string>)
    requires |texts| <= 6 && Emitted(texts, maxChars, parts)
    ensures |Join(parts, "\n\n")| <= maxChars <==> WithinLimit(texts, maxChars)
    ensures texts != [] && NothingCut(texts, maxChars) ==> |Join(parts, "\n\n")| <= maxChars + 10
  {
    hide Join; hide Total; hide Cut;
    SeparatorsTotal(texts);
    if k :| CutAt(texts, maxChars, k) {
      CutLength(texts, maxChars, k);
      CutExceeds(texts, maxChars, k);
      forall j | CutAt(texts, maxChars, j) ensures j == k {
        CutIsUnique(texts, maxChars, k, j);
      }
      assert parts == texts[..k] + [Cut(texts[k], maxChars - Total(texts[..k]))];
    } else {
      assert parts == texts;
    }
  }

  lemma SeparatorsTotal(texts: seq<string>)
    ensures |Join(texts, "\n\n")| == Total(texts) + if texts == [] then 0 else 2 * (|texts| - 1)
  {
    JoinLength(texts, "\n\n");
    assert |"\n\n"| == 2;
  }

  lemma CutExceeds(texts: seq<string>, maxChars: int, k: int)
    requires CutAt(texts, maxChars, k)
    ensures texts != [] && Total(texts) > maxChars
  {
    PrefixTotal(texts, k);
  }

  lemma {:induction false} PrefixTotal(texts: seq<string>, k: nat)
    requires k < |texts|
    ensures Total(texts[..k]) + |texts[k]| <= Total(texts)
    decreases |texts|
  {
    var n := |texts| - 1;
    if k < n {
      PrefixTotal(texts[..n], k);
      assert texts[..n][..k] == texts[..k];
    }
  }

  lemma CutIsUnique(texts: seq<string>, maxChars: int, j: nat, k: nat)
    requires CutAt(texts, maxChars, j) && CutAt(texts, maxChars, k)
    ensures j == k
  {
    if j < k {
      assert texts[..k][..j] == texts[..j];
      PrefixTotal(texts[..k], j);
    } else if k < j {
      assert texts[..j][..k] == texts[..k];
      PrefixTotal(texts[..j], k);
    }
  }

  // ----- a prompt that compression makes longer -----

  function ExampleHeaders(line: string): Option<Section> {
    if line == "TASK:" then Some(Task) else if line == "PLAN:" then Some(Plan) else None
  }

  const EXAMPLE: string := "TASK:\nPLAN:"

  lemma LineLengthIs(s: string, n: nat)
    requires n <= |s| && (forall i :: 0 <= i < n ==> !IsBreak(s[i])) && (n < |s| ==> IsBreak(s[n]))
    ensures LineLength(s) == n
  {
  }

  lemma SplitFirst(line: string, boundary: string, more: string)
    requires line != "" && forall c :: c in line ==> !IsBreak(c)
    requires boundary == "\n" || (boundary == "" && more == "")
    ensures SplitLines(line + boundary + more) == [line] + SplitLines(more)
  {
    var s := line + boundary + more;
    LineLengthIs(s, |line|);
    hide IsBreak; hide LineLength;
    assert s[..|line|] == line && s[|line|..] == boundary + more;
    assert (boundary + more)[|boundary|..] == more;
  }

  lemma WordsHoldNoBreak()
    ensures (forall c :: c in "TASK:" ==> !IsBreak(c)) && forall c :: c in "PLAN:" ==> !IsBreak(c)
  {
  }

  lemma SplitNothing()
    ensures SplitLines("") == []
  {
  }

  lemma ExampleLines()
    ensures SplitLines(EXAMPLE) == ["TASK:", "PLAN:"]
  {
    hide SplitLines; hide IsBreak; hide LineLength; hide BreakLength;
    WordsHoldNoBreak();
    SplitNothing();
    SplitFirst("TASK:", "\n", "PLAN:");
    assert EXAMPLE == "TASK:" + "\n" + "PLAN:";
    SplitFirst("PLAN:", "", "");
    assert "PLAN:" == "PLAN:" + "" + "";
  }

  lemma ExampleSection(s: Section)
    ensures LinesOf(["TASK:", "PLAN:"], ExampleHeaders, s) ==
            if s == Task then ["TASK:"] else if s == Plan then ["PLAN:"] else []
  {
    var lines := ["TASK:", "PLAN:"];
    assert lines[..1] == ["TASK:"] && ["TASK:"][..0] == [];
    assert Current(lines[..1], ExampleHeaders) == Task && Current(lines, ExampleHeaders) == Plan;
  }

  lemma ExampleTexts()
    ensures Texts(EXAMPLE, ExampleHeaders) == ["TASK:", "PLAN:"]
  {
    hide SplitLines; hide LinesOf; hide Current; hide ExampleHeaders;
    ExampleLines();
    var lines := ["TASK:", "PLAN:"];
    forall s { ExampleSection(s); }
    NoContents(lines, ExampleHeaders);
    ContentsStep(lines, ExampleHeaders, 0);
    ContentsStep(lines, ExampleHeaders, 1);
    ContentsStep(lines, ExampleHeaders, 2);
    ContentsStep(lines, ExampleHeaders, 3);
    ContentsStep(lines, ExampleHeaders, 4);
    ContentsStep(lines, ExampleHeaders, 5);
  }

  lemma ExampleEmitted(parts: seq<string>)
    ensures |EXAMPLE| == 11
    ensures Emitted(Texts(EXAMPLE, ExampleHeaders), 10, parts) ==> |Join(parts, "\n\n")| == 12
  {
    ExampleTexts();
    hide Texts; hide Contents; hide Join;
    var texts := ["TASK:", "PLAN:"];
    assert texts[..1] == ["TASK:"] && texts[..0] == [] && ["TASK:"][..0] == [];
    assert Total(texts) == 10;
    forall k ensures !CutAt(texts, 10, k) {
      assert k == 0 || k == 1 || !(0 <= k < 2);
    }
    JoinLength(texts, "\n\n");
  }

  /** A prompt of eleven characters that a limit of ten turns into one of twelve. */
  method CompressedIsLonger() returns (out: string)
    ensures |EXAMPLE| == 11 && |out| == 12
  {
    hide *;
    ghost var parts;
    out, parts := CompressPrompt(EXAMPLE, ExampleHeaders, 10);
    ExampleEmitted(parts);
  }
}
