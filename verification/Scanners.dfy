// The bracket scanners and the blanking that keeps line numbers: `_closing`, `_split_parameters`, `_ts_parameters` and
// `ts_declarations` in tools/check_english.py.
module Scanners {
  import opened Wrappers

  // ------------------------------------------------------------------ the closing bracket

  function Turn(c: char, opener: char, closer: char): int {
    if c == opener then 1 else if c == closer then -1 else 0
  }

  /** How many brackets a text leaves open. */
  function Depth(text: string, opener: char, closer: char): int {
    if text == [] then 0
    else Depth(text[..|text| - 1], opener, closer) + Turn(text[|text| - 1], opener, closer)
  }

  /** At `i` a closer brings the depth counted from `start` back to 0. */
  predicate ClosesAt(text: string, start: nat, i: int, opener: char, closer: char) {
    start <= i < |text| && text[i] == closer && opener != closer && DepthAfter(text, start, i, opener, closer) == 0
  }

  /** The depth counted from `start`, just after `i`. */
  function DepthAfter(text: string, start: nat, i: nat, opener: char, closer: char): int
    requires start <= i < |text|
  {
    Depth(text[start..i + 1], opener, closer)
  }

  lemma DepthNext(text: string, start: nat, i: nat, opener: char, closer: char)
    requires start <= i < |text|
    ensures DepthAfter(text, start, i, opener, closer) ==
              Depth(text[start..i], opener, closer) + Turn(text[i], opener, closer)
  {
    var part := text[start..i + 1];
    assert part[..|part| - 1] == text[start..i] && part[|part| - 1] == text[i];
  }

  /** The first such index, or -1 when there is none. */
  method Closing(text: string, start: nat, opener: char, closer: char) returns (index: int)
    ensures index == -1 || ClosesAt(text, start, index, opener, closer)
    ensures forall i :: ClosesAt(text, start, i, opener, closer) ==> index != -1 && index <= i
  {
    var depth := 0;
    var i := start;
    while i < |text|
      invariant start <= i
      invariant i <= |text| ==> depth == Depth(text[start..i], opener, closer)
      invariant forall j :: ClosesAt(text, start, j, opener, closer) ==> i <= j
      decreases |text| - i
    {
      DepthNext(text, start, i, opener, closer);
      if text[i] == opener {
        depth := depth + 1;
      } else if text[i] == closer {
        depth := depth - 1;
        if depth == 0 { return i; }
      }
      i := i + 1;
    }
    index := -1;
  }

  /** From an opening bracket, that index is where the depth first returns to 0: everything before it, from the bracket
      on, is inside. */
  lemma {:induction false} InsideUntilClosed(text: string, start: nat, i: nat, opener: char, closer: char)
    requires start <= i < |text| && text[start] == opener != closer
    requires forall j :: start <= j < i ==> !ClosesAt(text, start, j, opener, closer)
    ensures forall j :: start <= j < i ==> DepthAfter(text, start, j, opener, closer) > 0
    ensures DepthAfter(text, start, i, opener, closer) >= 0
    ensures ClosesAt(text, start, i, opener, closer) <==> DepthAfter(text, start, i, opener, closer) == 0
    decreases i - start
  {
    DepthNext(text, start, i, opener, closer);
    if i == start {
      assert text[start..start] == [];
    } else {
      InsideUntilClosed(text, start, i - 1, opener, closer);
    }
  }

  /** Where a character stands in a text. */
  function Places(text: string, c: char): set<nat> {
    set i: nat | i < |text| && text[i] == c
  }

  lemma PlacesNext(text: string, c: char)
    requires text != []
    ensures |Places(text, c)| == |Places(text[..|text| - 1], c)| + if text[|text| - 1] == c then 1 else 0
  {
    var n := |text| - 1;
    assert Places(text, c) == Places(text[..n], c) + if text[n] == c then {n} else {};
  }

  /** The depth is the number of openers less the number of closers. */
  lemma {:induction false} DepthCounts(text: string, opener: char, closer: char)
    requires opener != closer
    ensures Depth(text, opener, closer) == |Places(text, opener)| - |Places(text, closer)|
  {
    if text != [] {
      DepthCounts(text[..|text| - 1], opener, closer);
      PlacesNext(text, opener);
      PlacesNext(text, closer);
    }
  }

  // ------------------------------------------------------------------ splitting at commas

  function TurnAny(c: char): int {
    if c in "([{" then 1 else if c in ")]}" then -1 else 0
  }

  /** The depth in brackets of any kind: one kind may close another. */
  function Level(text: string): int {
    if text == [] then 0 else Level(text[..|text| - 1]) + TurnAny(text[|text| - 1])
  }

  /** The level is the number of opening brackets of the three kinds less the number of closing ones. */
  lemma {:induction false} LevelCounts(text: string)
    ensures Level(text) ==
              |Places(text, '(')| + |Places(text, '[')| + |Places(text, '{')|
              - |Places(text, ')')| - |Places(text, ']')| - |Places(text, '}')|
  {
    if text != [] {
      LevelCounts(text[..|text| - 1]);
      hide Places;
      PlacesNext(text, '(');
      PlacesNext(text, '[');
      PlacesNext(text, '{');
      PlacesNext(text, ')');
      PlacesNext(text, ']');
      PlacesNext(text, '}');
      var c := text[|text| - 1];
      assert c in "([{" <==> c == '(' || c == '[' || c == '{';
      assert c in ")]}" <==> c == ')' || c == ']' || c == '}';
    } else {
      assert Places("", '(') == Places("", '[') == Places("", '{') == {};
      assert Places("", ')') == Places("", ']') == Places("", '}') == {};
    }
  }

  /** A comma, or the end, outside every bracket. */
  predicate CutsAt(text: string, i: int) {
    0 <= i <= |text| && (i == |text| || text[i] == ',') && Level(text[..i]) == 0
  }

  datatype Fragment = Fragment(offset: nat, text: string)

  /** Just after the last cut before `n`. */
  function Begin(text: string, n: nat): (begin: nat)
    ensures begin <= n
  {
    if n == 0 then 0 else if CutsAt(text, n - 1) then n else Begin(text, n - 1)
  }

  /** The fragments that end before `n`. */
  function FragmentsBefore(text: string, n: nat): seq<Fragment>
    requires n <= |text| + 1
  {
    if n == 0 then []
    else
      var before := FragmentsBefore(text, n - 1);
      if CutsAt(text, n - 1) then before + [Fragment(Begin(text, n - 1), text[Begin(text, n - 1)..n - 1])] else before
  }

  function Fragments(text: string): seq<Fragment> {
    FragmentsBefore(text, |text| + 1)
  }

  lemma LevelNext(text: string, i: nat)
    requires i < |text|
    ensures Level(text[..i + 1]) == Level(text[..i]) + TurnAny(text[i])
  {
    assert text[..i + 1][..i] == text[..i];
  }

  method SplitParameters(text: string) returns (fragments: seq<Fragment>)
    ensures fragments == Fragments(text)
  {
    var depth, begin := 0, 0;
    fragments := [];
    assert text[..0] == [];
    for index := 0 to |text| + 1
      invariant index <= |text| ==> depth == Level(text[..index])
      invariant fragments == FragmentsBefore(text, index)
      invariant begin == Begin(text, index)
    {
      if index < |text| { LevelNext(text, index); }
      var c := (text + ",")[index];
      if c == '(' || c == '[' || c == '{' {
        depth := depth + 1;
      } else if c == ')' || c == ']' || c == '}' {
        depth := depth - 1;
      } else if c == ',' && depth == 0 {
        fragments := fragments + [Fragment(begin, text[begin..index])];
        begin := index + 1;
      }
    }
  }

  function End(f: Fragment): nat {
    f.offset + |f.text|
  }

  predicate SomeEnds(fragments: seq<Fragment>, i: nat) {
    exists k :: 0 <= k < |fragments| && End(fragments[k]) == i
  }

  /** The fragment sits at its offset, ends at a cut and holds none. */
  predicate Sits(text: string, f: Fragment) {
    && End(f) <= |text| && text[f.offset..End(f)] == f.text && CutsAt(text, End(f))
    && forall i :: f.offset <= i < End(f) ==> !CutsAt(text, i)
  }

  lemma {:induction false} FragmentsSit(text: string, n: nat)
    requires n <= |text| + 1
    ensures forall k :: 0 <= k < |FragmentsBefore(text, n)| ==> Sits(text, FragmentsBefore(text, n)[k])
    ensures forall i :: Begin(text, n) <= i < n ==> !CutsAt(text, i)
  {
    if n > 0 { FragmentsSit(text, n - 1); }
  }

  lemma {:induction false} FragmentsFollow(text: string, n: nat)
    requires n <= |text| + 1
    ensures var fs := FragmentsBefore(text, n);
            && (forall k :: 0 <= k < |fs| ==> fs[k].offset == if k == 0 then 0 else End(fs[k - 1]) + 1)
            && Begin(text, n) == if fs == [] then 0 else End(fs[|fs| - 1]) + 1
  {
    if n > 0 { FragmentsFollow(text, n - 1); }
  }

  /** Fragments end at every comma outside brackets and nowhere else, each at the offset it is reported with, one after
      the other. */
  lemma FragmentsCutAtCommas(text: string)
    ensures var fs := Fragments(text);
            && (forall k :: 0 <= k < |fs| ==> Sits(text, fs[k]))
            && (forall k :: 0 <= k < |fs| ==> fs[k].offset == if k == 0 then 0 else End(fs[k - 1]) + 1)
            && (forall i :: CutsAt(text, i) ==> SomeEnds(fs, i))
  {
    FragmentsSit(text, |text| + 1);
    FragmentsFollow(text, |text| + 1);
    forall i | CutsAt(text, i) ensures SomeEnds(Fragments(text), i) {
      EveryCutEnds(text, |text| + 1, i);
    }
  }

  lemma {:induction false} EveryCutEnds(text: string, n: nat, i: nat)
    requires i < n <= |text| + 1 && CutsAt(text, i)
    ensures SomeEnds(FragmentsBefore(text, n), i)
  {
    var fs := FragmentsBefore(text, n);
    if i == n - 1 {
      assert End(fs[|fs| - 1]) == i;
    } else {
      EveryCutEnds(text, n - 1, i);
      var k :| 0 <= k < |FragmentsBefore(text, n - 1)| && End(FragmentsBefore(text, n - 1)[k]) == i;
      assert fs[k] == FragmentsBefore(text, n - 1)[k];
    }
  }

  function Join(fragments: seq<Fragment>): string {
    if fragments == [] then ""
    else if |fragments| == 1 then fragments[0].text
    else Join(fragments[..|fragments| - 1]) + "," + fragments[|fragments| - 1].text
  }

  lemma Stitch(text: string, begin: nat, end: nat)
    requires 0 < begin <= end && CutsAt(text, begin - 1) && CutsAt(text, end)
    ensures text[..begin - 1] + "," + text[begin..end] == text[..end]
  {}

  lemma {:induction false} JoinIsPrefix(text: string, n: nat)
    requires n <= |text| + 1
    ensures var fs, begin := FragmentsBefore(text, n), Begin(text, n);
            && (fs == [] <==> begin == 0)
            && (begin > 0 ==> Join(fs) == text[..begin - 1] && CutsAt(text, begin - 1))
  {
    if n > 0 {
      hide CutsAt;
      JoinIsPrefix(text, n - 1);
      if CutsAt(text, n - 1) {
        var before, begin := FragmentsBefore(text, n - 1), Begin(text, n - 1);
        var fs := FragmentsBefore(text, n);
        assert fs[..|fs| - 1] == before;
        if begin > 0 { Stitch(text, begin, n - 1); }
      }
    }
  }

  /** Joining the fragments with commas gives the text back exactly when its brackets come out even. */
  lemma FragmentsJoinBack(text: string)
    ensures Join(Fragments(text)) == text <==> Level(text) == 0
  {
    assert text[..|text|] == text;
    JoinIsPrefix(text, |text| + 1);
  }

  // ------------------------------------------------------------------ blanking

  /** Where a comment or a string stands. */
  datatype Span = Span(begin: nat, end: nat)

  predicate Spans(spans: seq<Span>, from: nat, length: nat) {
    spans == [] || (from <= spans[0].begin <= spans[0].end <= length && Spans(spans[1..], spans[0].end, length))
  }

  function Blank(text: string): string {
    seq(|text|, i requires 0 <= i < |text| => if text[i] == '\n' then '\n' else ' ')
  }

  /** The content from `from` on, each span blanked but for its line feeds. */
  function Blanked(content: string, spans: seq<Span>, from: nat): string
    requires from <= |content| && Spans(spans, from, |content|)
    decreases |spans|
  {
    if spans == [] then content[from..]
    else
      content[from..spans[0].begin] + Blank(content[spans[0].begin..spans[0].end])
      + Blanked(content, spans[1..], spans[0].end)
  }

  predicate InSpan(spans: seq<Span>, i: nat) {
    exists k :: 0 <= k < |spans| && spans[k].begin <= i < spans[k].end
  }

  lemma {:induction false} SpansAreAfter(spans: seq<Span>, from: nat, length: nat)
    requires Spans(spans, from, length)
    ensures forall k :: 0 <= k < |spans| ==> from <= spans[k].begin
    decreases |spans|
  {
    if spans != [] { SpansAreAfter(spans[1..], spans[0].end, length); }
  }

  /** Blanking changes nothing but the characters of the spans, and never a line feed or a position. */
  lemma {:induction false} BlankedKeepsPositions(content: string, spans: seq<Span>, from: nat)
    requires from <= |content| && Spans(spans, from, |content|)
    ensures var b := Blanked(content, spans, from);
            && |b| == |content| - from
            && forall i :: from <= i < |content| ==>
                 b[i - from] == if InSpan(spans, i) && content[i] != '\n' then ' ' else content[i]
    decreases |spans|
  {
    if spans != [] {
      var s, rest := spans[0], spans[1..];
      BlankedKeepsPositions(content, rest, s.end);
      SpansAreAfter(rest, s.end, |content|);
      var b := Blanked(content, spans, from);
      forall i | from <= i < |content|
        ensures b[i - from] == if InSpan(spans, i) && content[i] != '\n' then ' ' else content[i]
      {
        if i < s.end {
          assert !InSpan(rest, i);
          assert InSpan(spans, i) <==> s.begin <= i;
        } else {
          assert InSpan(spans, i) <==> InSpan(rest, i) by {
            if k :| 0 <= k < |rest| && rest[k].begin <= i < rest[k].end { assert spans[k + 1] == rest[k]; }
          }
          assert b[i - from] == Blanked(content, rest, s.end)[i - s.end];
        }
      }
    }
  }

  function LineFeeds(text: string): nat {
    if text == [] then 0 else LineFeeds(text[..|text| - 1]) + if text[|text| - 1] == '\n' then 1 else 0
  }

  /** The line of a position, from 1. */
  function LineOf(text: string, position: nat): nat
    requires position <= |text|
  {
    LineFeeds(text[..position]) + 1
  }

  /** That is one more than the line feeds before it. */
  lemma {:induction false} LineFeedsCount(text: string)
    ensures LineFeeds(text) == |Places(text, '\n')|
  {
    if text != [] {
      LineFeedsCount(text[..|text| - 1]);
      PlacesNext(text, '\n');
    }
  }

  lemma {:induction false} SameLineFeeds(a: string, b: string)
    requires |a| == |b| && forall i :: 0 <= i < |a| ==> (a[i] == '\n' <==> b[i] == '\n')
    ensures LineFeeds(a) == LineFeeds(b)
  {
    if a != [] { SameLineFeeds(a[..|a| - 1], b[..|b| - 1]); }
  }

  /** Every line number read off the blanked text is the content's own. */
  lemma BlankingKeepsLines(content: string, spans: seq<Span>, position: nat)
    requires Spans(spans, 0, |content|) && position <= |content|
    ensures |Blanked(content, spans, 0)| == |content|
    ensures LineOf(Blanked(content, spans, 0), position) == LineOf(content, position)
  {
    BlankedKeepsPositions(content, spans, 0);
    var b := Blanked(content, spans, 0);
    hide Blanked, Spans;
    assert forall i :: 0 <= i < |content| ==> (b[i] == '\n' <==> content[i] == '\n');
    hide InSpan;
    SameLineFeeds(b[..position], content[..position]);
  }

  // ------------------------------------------------------------------ parameters

  /** Where the parameter pattern finds a name in a fragment, if it does: an expression of its own. */
  datatype Found = Found(at: nat, name: string)

  type Pattern = string -> Option<Found>

  ghost predicate FindsNames(pattern: Pattern) {
    forall fragment: string :: pattern(fragment).Some? ==> Stands(fragment, 0, |fragment|, pattern(fragment).value)
  }

  lemma SliceOfSlice(text: string, a: nat, b: nat, c: nat, d: nat)
    requires a <= b <= |text| && c <= d <= b - a
    ensures text[a..b][c..d] == text[a + c..a + d]
  {
    var part := text[a..b];
    assert |part[c..d]| == |text[a + c..a + d]|;
    forall i | 0 <= i < d - c ensures part[c..d][i] == text[a + c..a + d][i] {
      assert part[c..d][i] == part[c + i] == text[a + c + i];
    }
  }

  /** The names found in these fragments, at their positions in a text whose list begins at `base`. */
  function Parameters(fragments: seq<Fragment>, base: nat, pattern: Pattern): seq<Found> {
    if fragments == [] then []
    else
      var last := fragments[|fragments| - 1];
      var found := pattern(last.text);
      Parameters(fragments[..|fragments| - 1], base, pattern)
      + if found.Some? then [Found(base + last.offset + found.value.at, found.value.name)] else []
  }

  /** `_ts_parameters`: nothing when the list opened at `open` never closes. */
  method TsParameters(blanked: string, open: nat, pattern: Pattern) returns (found: seq<Found>)
    requires open < |blanked|
    ensures (forall i :: !ClosesAt(blanked, open, i, '(', ')')) ==> found == []
    ensures forall close: int :: FirstClose(blanked, open, close) ==>
              open < close && found == Parameters(Fragments(blanked[open + 1..close]), open + 1, pattern)
  {
    found := [];
    var close := Closing(blanked, open, '(', ')');
    if close < 0 { return; }
    DepthNext(blanked, open, open, '(', ')');
    assert blanked[open..open] == [] && close > open;
    var fragments := SplitParameters(blanked[open + 1..close]);
    for i := 0 to |fragments|
      invariant found == Parameters(fragments[..i], open + 1, pattern)
    {
      assert fragments[..i + 1][..i] == fragments[..i];
      var hit := pattern(fragments[i].text);
      if hit.Some? {
        found := found + [Found(open + 1 + fragments[i].offset + hit.value.at, hit.value.name)];
      }
    }
    assert fragments[..|fragments|] == fragments;
  }

  ghost predicate FirstClose(text: string, open: nat, close: int) {
    ClosesAt(text, open, close, '(', ')') && forall i :: ClosesAt(text, open, i, '(', ')') ==> close <= i
  }

  /** The name stands in the text there, within these bounds. */
  predicate Stands(text: string, base: nat, end: nat, f: Found) {
    && base <= f.at && f.at + |f.name| <= end && end <= |text|
    && text[f.at..f.at + |f.name|] == f.name && ' ' !in f.name
  }

  lemma FoundStands(text: string, base: nat, end: nat, fragment: Fragment, f: Found)
    requires base <= end <= |text| && Sits(text[base..end], fragment)
    requires Stands(fragment.text, 0, |fragment.text|, f)
    ensures Stands(text, base, end, Found(base + fragment.offset + f.at, f.name))
  {
    SliceOfSlice(text[base..end], fragment.offset, End(fragment), f.at, f.at + |f.name|);
    SliceOfSlice(text, base, end, fragment.offset + f.at, fragment.offset + f.at + |f.name|);
  }

  lemma {:induction false} SomeParametersStand(text: string, base: nat, end: nat, fragments: seq<Fragment>,
                                               pattern: Pattern)
    requires base <= end <= |text| && FindsNames(pattern)
    requires forall k :: 0 <= k < |fragments| ==> Sits(text[base..end], fragments[k])
    ensures forall f :: f in Parameters(fragments, base, pattern) ==> Stands(text, base, end, f)
  {
    hide Stands, Sits;
    if fragments != [] {
      var last := fragments[|fragments| - 1];
      SomeParametersStand(text, base, end, fragments[..|fragments| - 1], pattern);
      if pattern(last.text).Some? { FoundStands(text, base, end, last, pattern(last.text).value); }
    }
  }

  /** Every reported parameter stands in the text at its reported position. */
  lemma ParametersStand(text: string, base: nat, end: nat, pattern: Pattern)
    requires base <= end <= |text| && FindsNames(pattern)
    ensures forall f :: f in Parameters(Fragments(text[base..end]), base, pattern) ==> Stands(text, base, end, f)
  {
    FragmentsCutAtCommas(text[base..end]);
    SomeParametersStand(text, base, end, Fragments(text[base..end]), pattern);
  }

  /** A name read off the blanked text stands in the content at the same position and line: no comment or string was
      read. */
  lemma NamesStandInTheContent(content: string, spans: seq<Span>, f: Found)
    requires Spans(spans, 0, |content|)
    requires Stands(Blanked(content, spans, 0), 0, |Blanked(content, spans, 0)|, f)
    ensures Stands(content, 0, |content|, f)
    ensures forall i :: f.at <= i < f.at + |f.name| && content[i] != '\n' ==> !InSpan(spans, i)
    ensures LineOf(Blanked(content, spans, 0), f.at) == LineOf(content, f.at)
  {
    hide LineOf, Blanked, Spans;
    BlankedKeepsPositions(content, spans, 0);
    BlankingKeepsLines(content, spans, f.at);
    var b, at, name := Blanked(content, spans, 0), f.at, f.name;
    forall i | at <= i < at + |name| ensures content[i] == name[i - at] && (content[i] != '\n' ==> !InSpan(spans, i)) {
      assert b[i] == b[at..at + |name|][i - at] == name[i - at];
    }
  }
}
