// Reading a diff without context: `added_lines` in tools/check_english.py.
module Diffs {
  import opened Wrappers
  import opened Lines

  // ------------------------------------------------------------------ the two kinds of line that are read

  const HEADER := "+++ "
  const NAMED := "+++ b/"

  predicate IsHeader(line: string) { HEADER <= line }

  /** The file a header names: none when it does not begin with `b/`. */
  function PathOf(line: string): Option<string> {
    if NAMED <= line then Some(line[6..]) else None
  }

  /** How many digits a text begins with. */
  function DigitsAhead(text: string): (n: nat)
    ensures n <= |text| && (forall i :: 0 <= i < n ==> IsDigit(text[i])) && (n < |text| ==> !IsDigit(text[n]))
  {
    if text == "" || !IsDigit(text[0]) then 0 else 1 + DigitsAhead(text[1..])
  }

  /** A number and what follows it. */
  function TakeNumber(text: string): Option<(int, string)> {
    var n := DigitsAhead(text);
    match ParseNat(text[..n])
    case None => None
    case Some(value) => Some((value, text[n..]))
  }

  /** `12` or `12,3`, and what follows; a number alone counts 1. */
  function TakeRange(text: string): Option<((int, int), string)> {
    match TakeNumber(text)
    case None => None
    case Some((start, rest)) =>
      if rest == "" || rest[0] != ',' then Some(((start, 1), rest))
      else match TakeNumber(rest[1..])
        case None => Some(((start, 1), rest))
        case Some((count, after)) => Some(((start, count), after))
  }

  function After(prefix: string, text: string): Option<string> {
    if prefix <= text then Some(text[|prefix|..]) else None
  }

  /** The first line and the number of lines a hunk has in the new file. */
  function HunkOf(line: string): Option<(int, int)> {
    match After("@@ -", line)
    case None => None
    case Some(text) =>
      match TakeRange(text)
      case None => None
      case Some((_, afterOld)) =>
        match After(" +", afterOld)
        case None => None
        case Some(newer) =>
          match TakeRange(newer)
          case None => None
          case Some((range, afterNew)) => if " @@" <= afterNew then Some(range) else None
  }

  // ------------------------------------------------------------------ reading

  /** How a line reads as a hunk: `HunkOf`, kept apart from the reading itself. */
  type Hunks = string -> Option<(int, int)>

  type Added = map<string, set<int>>

  /** The file being read, and the lines found so far. */
  datatype Reading = Reading(path: Option<string>, added: Added)

  /** `range(start, start + count)`. */
  function Range(start: int, count: int): (range: set<int>)
    ensures forall n :: n in range <==> start <= n < start + count
    decreases if count < 0 then 0 else count
  {
    if count <= 0 then {} else Range(start, count - 1) + {start + count - 1}
  }

  function At(added: Added, path: string): set<int> {
    if path in added then added[path] else {}
  }

  function ReadLine(h: Hunks, r: Reading, line: string): Reading {
    if IsHeader(line) then Reading(PathOf(line), r.added)
    else if r.path.Some? && h(line).Some? then
      var (start, count) := h(line).value;
      Reading(r.path, r.added[r.path.value := At(r.added, r.path.value) + Range(start, count)])
    else r
  }

  function ReadLines(h: Hunks, r: Reading, lines: seq<string>): Reading {
    if lines == [] then r else ReadLine(h, ReadLines(h, r, lines[..|lines| - 1]), lines[|lines| - 1])
  }

  const START := Reading(None, map[])

  method AddedLines(diff: string) returns (added: Added)
    ensures added == ReadLines(HunkOf, START, SplitLines(diff)).added
  {
    var lines := SplitLines(diff);
    var path: Option<string> := None;
    added := map[];
    for i := 0 to |lines|
      invariant Reading(path, added) == ReadLines(HunkOf, START, lines[..i])
    {
      assert lines[..i + 1][..i] == lines[..i];
      path, added := OneLine(HunkOf, path, added, lines[i]);
    }
    assert lines[..|lines|] == lines;
  }

  method OneLine(h: Hunks, path: Option<string>, added: Added, line: string)
    returns (path': Option<string>, added': Added)
    ensures Reading(path', added') == ReadLine(h, Reading(path, added), line)
  {
    path', added' := path, added;
    if IsHeader(line) {
      path' := PathOf(line);
    } else if path.Some? {
      var hunk := h(line);
      if hunk.Some? {
        if path.value !in added' { added' := added'[path.value := {}]; }
        added' := added'[path.value := added'[path.value] + Range(hunk.value.0, hunk.value.1)];
      }
    }
  }

  // ------------------------------------------------------------------ what is read, on any input

  /** The last header before line `i`, or -1. */
  function HeaderBefore(lines: seq<string>, i: nat): (j: int)
    requires i <= |lines|
    ensures -1 <= j < i && (j >= 0 ==> IsHeader(lines[j]))
    ensures forall k :: j < k < i ==> !IsHeader(lines[k])
  {
    if i == 0 then -1 else if IsHeader(lines[i - 1]) then i - 1 else HeaderBefore(lines, i - 1)
  }

  /** The file that line `i` is about. */
  function FileAt(lines: seq<string>, i: nat): Option<string>
    requires i <= |lines|
  {
    var j := HeaderBefore(lines, i);
    if j < 0 then None else PathOf(lines[j])
  }

  /** Line `i` is a hunk of this file that covers line `n` of it. */
  predicate Covers(h: Hunks, lines: seq<string>, i: nat, path: string, n: int)
    requires i < |lines|
  {
    && !IsHeader(lines[i]) && h(lines[i]).Some? && FileAt(lines, i) == Some(path)
    && n in Range(h(lines[i]).value.0, h(lines[i]).value.1)
  }

  lemma {:induction false} ReadPath(h: Hunks, lines: seq<string>, i: nat)
    requires i <= |lines|
    ensures ReadLines(h, START, lines[..i]).path == FileAt(lines, i)
  {
    if i > 0 {
      ReadPath(h, lines, i - 1);
      assert lines[..i][..i - 1] == lines[..i - 1];
    }
  }

  /** Some line before `i` is a hunk of this file that covers line `n` of it. */
  predicate CoveredBefore(h: Hunks, lines: seq<string>, i: nat, path: string, n: int)
    requires i <= |lines|
  {
    exists k :: 0 <= k < i && Covers(h, lines, k, path, n)
  }

  lemma {:induction false} ReadsExactlyBefore(h: Hunks, lines: seq<string>, i: nat, path: string, n: int)
    requires i <= |lines|
    ensures n in At(ReadLines(h, START, lines[..i]).added, path) <==> CoveredBefore(h, lines, i, path, n)
  {
    if i == 0 {
      assert lines[..0] == [];
    } else {
      hide Covers, ReadLines, At, CoveredBefore;
      ReadsExactlyBefore(h, lines, i - 1, path, n);
      NextLineAdds(h, lines, i - 1, path, n);
      CoveredNext(h, lines, i, path, n);
    }
  }

  lemma CoveredNext(h: Hunks, lines: seq<string>, i: nat, path: string, n: int)
    requires 0 < i <= |lines|
    ensures CoveredBefore(h, lines, i, path, n) <==>
              CoveredBefore(h, lines, i - 1, path, n) || Covers(h, lines, i - 1, path, n)
  {
    hide Covers;
    if k :| 0 <= k < i && Covers(h, lines, k, path, n) { assert k < i - 1 || k == i - 1; }
  }

  lemma NextLineAdds(h: Hunks, lines: seq<string>, i: nat, path: string, n: int)
    requires i < |lines|
    ensures n in At(ReadLines(h, START, lines[..i + 1]).added, path) <==>
              n in At(ReadLines(h, START, lines[..i]).added, path) || Covers(h, lines, i, path, n)
  {
    ReadPath(h, lines, i);
    assert lines[..i + 1][..i] == lines[..i];
    LineAdds(h, ReadLines(h, START, lines[..i]), lines[i], path, n);
  }

  lemma LineAdds(h: Hunks, r: Reading, line: string, path: string, n: int)
    ensures n in At(ReadLine(h, r, line).added, path) <==>
              || n in At(r.added, path)
              || (!IsHeader(line) && h(line).Some? && r.path == Some(path)
                  && n in Range(h(line).value.0, h(line).value.1))
  {}

  /** Whatever the diff: a line is reported for a file exactly when a hunk covers it and the last header before that
      hunk names the file. */
  lemma ReadsExactly(diff: string, path: string, n: int)
    ensures var lines := SplitLines(diff);
            n in At(ReadLines(HunkOf, START, lines).added, path) <==>
              exists k :: 0 <= k < |lines| && Covers(HunkOf, lines, k, path, n)
  {
    var lines := SplitLines(diff);
    assert lines[..|lines|] == lines;
    ReadsExactlyBefore(HunkOf, lines, |lines|, path, n);
  }
}
