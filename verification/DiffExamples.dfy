// What goes wrong when a printed diff is read back, one input for each way.
module DiffExamples {
  import opened Wrappers
  import opened Lines
  import opened Diffs
  import opened DiffHeaders
  import opened PrintedDiffs
  import Utf8

  // ------------------------------------------------------------------ what goes wrong

  function First(changed: string): Hunk { Hunk(0, 0, 1, 1, "", [changed]) }

  function Second(): Hunk { Hunk(1, 0, 5, 1, "", []) }

  function TwoHunks(path: string, changed: string): FileDiff {
    FileDiff([], path, [First(changed), Second()])
  }

  function RealPiece(path: string, h: Hunk): Piece {
    Piece(HunkLine(h), path, Real(h.start, h.count))
  }

  lemma PlainHunk(path: string, h: Hunk)
    requires h.heading == ""
    ensures HunkPieces(path, h) == [RealPiece(path, h)] + Label(SplitAll(h.changed), path, Changed)
  {
    assert HeadingLines(h) == [""] by { SplitOne(""); assert SplitAll([""]) == SplitLines("\n") + SplitAll([""][1..]); }
    assert h.(heading := "") == h;
    hide HunkLine, SplitAll, HeadingLines;
    assert [""][1..] + SplitAll(h.changed) == SplitAll(h.changed);
  }

  lemma HunksPair(path: string, a: Hunk, b: Hunk)
    ensures HunksPieces(path, [a, b]) == HunkPieces(path, a) + HunkPieces(path, b)
  {
    hide HunkPieces;
    assert [a, b][..1] == [a] && [a][..0] == [];
    assert HunksPieces(path, [a]) == HunkPieces(path, a);
  }

  function TwoHunksLines(path: string, changed: string): seq<string> {
    [HeaderLine(path), HunkLine(First(changed))] + SplitAll([changed]) + [HunkLine(Second())]
  }

  lemma TwoHunksPieces(path: string, changed: string)
    ensures var f := TwoHunks(path, changed);
            Preamble(f) + Body(f) ==
              [HeaderPiece(path), RealPiece(path, First(changed))]
              + Label(SplitAll([changed]), path, Changed) + [RealPiece(path, Second())]
  {
    var f := TwoHunks(path, changed);
    var a, b := First(changed), Second();
    PlainHunk(path, a);
    PlainHunk(path, b);
    assert SplitAll([]) == [] && Preamble(f) == [];
    assert a.changed == [changed] && b.changed == [] && f.hunks == [a, b] && f.path == path;
    assert HeaderPieces(f) == [HeaderPiece(path)];
    hide HunkLine, SplitAll, HunkPieces, HunksPieces, First, Second, TwoHunks, Preamble, HeaderPieces, HeaderPiece;
    hide RealPiece;
    HunksPair(path, a, b);
    assert Label([], path, Changed) == [];
  }

  lemma TwoHunksRead(path: string, changed: string)
    ensures var f := TwoHunks(path, changed); Texts(Preamble(f) + Body(f)) == TwoHunksLines(path, changed)
  {
    TwoHunksPieces(path, changed);
    hide HunkLine, SplitAll, First, Second, TwoHunks, Preamble, Body;
    var start, last := [HeaderPiece(path), RealPiece(path, First(changed))], [RealPiece(path, Second())];
    var middle := Label(SplitAll([changed]), path, Changed);
    TextsLabel(SplitAll([changed]), path, Changed);
    TextsConcat(start + middle, last);
    TextsConcat(start, middle);
  }

  lemma OneFile(f: FileDiff)
    ensures DiffPieces([f]) == Preamble(f) + Body(f)
  {
    assert [f][..0] == [];
    hide Preamble, Body;
  }

  lemma TwoFiles(f: FileDiff, g: FileDiff)
    ensures DiffPieces([f, g]) == (Preamble(f) + Body(f)) + (Preamble(g) + Body(g))
  {
    OneFile(f);
    assert [f, g][..1] == [f];
    hide Preamble, Body;
  }

  lemma SecondAdds(files: seq<FileDiff>, path: string, changed: string)
    requires files == [TwoHunks(path, changed)]
    ensures FileAdds(files, path, 5)
  {
    assert files[0].path == path && files[0].hunks[1] == Second();
  }

  lemma HeaderBeforeIs(lines: seq<string>, k: nat, h: nat)
    requires h < k <= |lines| && IsHeader(lines[h]) && forall i :: h < i < k ==> !IsHeader(lines[i])
    ensures HeaderBefore(lines, k) == h
  {}

  /** Behind a header that names another file, or none, a hunk is not reported. */
  lemma HiddenBehind(lines: seq<string>, path: string, n: int)
    requires |lines| >= 3 && IsHeader(lines[0]) && HunkOf(lines[1]).Some?
    requires n !in Range(HunkOf(lines[1]).value.0, HunkOf(lines[1]).value.1)
    requires IsHeader(lines[|lines| - 2]) && PathOf(lines[|lines| - 2]) != Some(path)
    requires forall i :: 2 <= i < |lines| - 1 ==> HunkOf(lines[i]).None?
    ensures forall k :: 0 <= k < |lines| ==> !Covers(HunkOf, lines, k, path, n)
  {
    hide HunkOf, IsHeader, PathOf;
    HeaderBeforeIs(lines, |lines| - 1, |lines| - 2);
  }

  /** The last piece of this line is read as a header that does not name the file. */
  predicate Hides(path: string, changed: string) {
    var pieces := SplitAll([changed]);
    && |pieces| > 0 && IsHeader(pieces[|pieces| - 1]) && PathOf(pieces[|pieces| - 1]) != Some(path)
    && forall i :: 0 <= i < |pieces| ==> HunkOf(pieces[i]).None?
  }

  lemma LinesHide(path: string, changed: string)
    requires Hides(path, changed)
    ensures var lines := TwoHunksLines(path, changed);
            forall k :: 0 <= k < |lines| ==> !Covers(HunkOf, lines, k, path, 5)
  {
    HunkReads(First(changed));
    HeaderIsFair(path);
    var lines, changes := TwoHunksLines(path, changed), SplitAll([changed]);
    hide HunkOf, HunkLine, SplitAll, IsHeader, PathOf, Covers;
    assert |lines| == |changes| + 3 && lines[0] == HeaderLine(path) && lines[1] == HunkLine(First(changed));
    assert lines[|lines| - 2] == changes[|changes| - 1];
    assert forall i :: 2 <= i < |lines| - 1 ==> lines[i] == changes[i - 2];
    hide TwoHunksLines;
    HiddenBehind(lines, path, 5);
  }

  /** After a changed line whose last piece is such a header, the second hunk's line is added and not reported. */
  lemma NextHunkIsHidden(path: string, changed: string)
    requires Hides(path, changed)
    ensures FileAdds([TwoHunks(path, changed)], path, 5) && 5 !in At(ReadBack([TwoHunks(path, changed)]), path)
  {
    var f := TwoHunks(path, changed);
    SecondAdds([f], path, changed);
    OneFile(f);
    hide HunkOf, Hides, FileAdds, Covers, DiffPieces, Body, Preamble, ReadBack, Texts, TwoHunks, TwoHunksLines;
    TwoHunksRead(path, changed);
    TextsLength(DiffPieces([f]));
    LinesHide(path, changed);
    ReportedIsRead([f], path, 5);
  }

  /** An added line `++ x` prints as a header, and the hunk after it is lost. */
  lemma HeaderLikeLineHidesHunks(path: string)
    ensures FileAdds([TwoHunks(path, "+++ x")], path, 5) && 5 !in At(ReadBack([TwoHunks(path, "+++ x")]), path)
  {
    SplitOne("+++ x");
    NextHunkIsHidden(path, "+++ x");
  }

  /** So is it after a quiet line with a break inside and `+++ x` behind the break. */
  lemma InnerBreakHidesHunks(path: string)
    ensures var changed := "+a" + "\U{2028}" + "+++ x";
            && Quiet(changed)
            && FileAdds([TwoHunks(path, changed)], path, 5) && 5 !in At(ReadBack([TwoHunks(path, changed)]), path)
  {
    var changed := "+a" + "\U{2028}" + "+++ x";
    assert changed[1] == 'a';
    InnerBreakSplits("+a", "+++ x");
    assert Quiet("+a") && Quiet(changed);
    assert Hides(path, changed);
    NextHunkIsHidden(path, changed);
  }

  lemma InnerBreakSplits(a: string, b: string)
    requires Unbroken(a) && Unbroken(b)
    ensures SplitAll([a + "\U{2028}" + b]) == [a, b]
  {
    SplitAllNext(a + "\U{2028}" + b, []);
    SplitNothing();
    hide SplitAll, SplitLines, Unbroken;
    BothSplit(a, b);
    assert [a + "\U{2028}" + b] + [] == [a + "\U{2028}" + b];
  }

  lemma SplitNothing()
    ensures SplitAll([]) == []
  {}

  lemma BothSplit(a: string, b: string)
    requires Unbroken(a) && Unbroken(b)
    ensures SplitLines((a + "\U{2028}" + b) + "\n") == [a, b]
  {
    hide SplitLines, Unbroken;
    var rest := "\U{2028}" + (b + "\n");
    RestSplits(b);
    SplitAfter(a, rest);
    assert a + rest == (a + "\U{2028}" + b) + "\n";
    assert a + "" == a;
  }

  lemma RestSplits(b: string)
    requires Unbroken(b)
    ensures SplitLines("\U{2028}" + (b + "\n")) == ["", b]
  {
    var rest := "\U{2028}" + (b + "\n");
    assert FirstBreak(rest) == 0 && rest[1..] == b + "\n" && rest[..0] == "";
    SplitStep(rest);
    SplitOne(b);
    SplitAllNext(b, []);
    assert SplitAll([]) == [] && [b] + [] == [b];
  }

  /** A line separator followed by a hunk line. */
  function InnerHunk(): string { "+a" + "\U{2028}" + "@@ -0,0 +9 @@" }

  lemma InnerHunkSplits()
    ensures SplitAll([InnerHunk()]) == ["+a", "@@ -0,0 +9 @@"]
  {
    assert Unbroken("+a") && Unbroken("@@ -0,0 +9 @@");
    InnerBreakSplits("+a", "@@ -0,0 +9 @@");
  }

  lemma CoveredBehind(lines: seq<string>, path: string, n: int)
    requires |lines| > 3 && IsHeader(lines[0]) && PathOf(lines[0]) == Some(path)
    requires !IsHeader(lines[1]) && !IsHeader(lines[2]) && !IsHeader(lines[3]) && HunkOf(lines[3]) == Some((n, 1))
    ensures Covers(HunkOf, lines, 3, path, n)
  {
    hide HunkOf, IsHeader, PathOf;
    HeaderBeforeIs(lines, 3, 0);
  }

  lemma InnerHunkLines(path: string, changed: string, mark: string, inner: string, n: int)
    requires Plain(path) && SplitAll([changed]) == [mark, inner]
    requires !IsHeader(mark) && !IsHeader(inner) && HunkOf(inner) == Some((n, 1))
    ensures var lines := TwoHunksLines(path, changed); |lines| > 3 && Covers(HunkOf, lines, 3, path, n)
  {
    var lines := TwoHunksLines(path, changed);
    HunkReads(First(changed));
    HeaderReads(path);
    PlainIsRead(path);
    hide HunkOf, HunkLine, SplitAll, IsHeader, PathOf, HeaderLine;
    assert lines[0] == HeaderLine(path) && lines[1] == HunkLine(First(changed));
    assert lines[2] == mark && lines[3] == inner;
    hide TwoHunksLines, ReadAs, Plain;
    CoveredBehind(lines, path, n);
  }

  lemma NoHeader()
    ensures !IsHeader("+a")
  {
    assert |"+a"| < |HEADER|;
  }

  /** And such a changed line reports a line that nobody added. */
  lemma InnerHunkReportsMore(path: string)
    requires Plain(path)
    ensures var f := TwoHunks(path, InnerHunk()); 9 in At(ReadBack([f]), path) && !FileAdds([f], path, 9)
  {
    var f := TwoHunks(path, InnerHunk());
    OnlyTwoLines(path, InnerHunk(), 9);
    OneFile(f);
    hide HunkOf, Covers, FileAdds, DiffPieces, Body, Preamble, ReadBack, Texts, TwoHunks, TwoHunksLines, InnerHunk;
    hide Plain, SplitAll, IsHeader;
    TwoHunksRead(path, InnerHunk());
    TextsLength(DiffPieces([f]));
    InnerHunkSplits();
    InnerHunkReads();
    NoHeader();
    InnerHunkLines(path, InnerHunk(), "+a", "@@ -0,0 +9 @@", 9);
    ReportedIsRead([f], path, 9);
  }

  lemma InnerHunkReads()
    ensures !IsHeader("@@ -0,0 +9 @@") && HunkOf("@@ -0,0 +9 @@") == Some((9, 1))
  {
    var h := Hunk(0, 0, 9, 1, "", []);
    assert Decimal(0) == "0" && Decimal(9) == "9";
    assert HunkLine(h) == "@@ -0,0 +9 @@";
    HunkReads(h);
  }

  lemma OnlyTwoLines(path: string, changed: string, n: int)
    requires n != 1 && n != 5
    ensures !FileAdds([TwoHunks(path, changed)], path, n)
  {}

  // ------------------------------------------------------------------ paths whose header does not read as them

  lemma QuietExample(path: string)
    ensures QuietPreambles([TwoHunks(path, "+x")]) && QuietChanges([TwoHunks(path, "+x")])
    ensures forall n :: FileAdds([TwoHunks(path, "+x")], path, n) <==> n == 1 || n == 5
  {
    var f := TwoHunks(path, "+x");
    assert SplitAll([]) == [];
    SplitOne("+x");
    assert Quiet("+x");
    assert FileAdds([f], path, 1) && FileAdds([f], path, 5) by {
      assert [f][0].path == path && f.hunks[0].start == 1 && f.hunks[1].start == 5;
    }
    forall n | n != 1 && n != 5 ensures !FileAdds([f], path, n) { OnlyTwoLines(path, "+x", n); }
    OneFile(f);
    TwoHunksPieces(path, "+x");
    hide HunkLine, Quiet, SplitAll, FileAdds, DiffPieces, Body, HeaderPiece;
  }

  lemma ExampleReads(path: string, name: string, n: int)
    ensures n in At(ReadBack([TwoHunks(path, "+x")]), name) <==> ReadAs(path) == Some(name) && (n == 1 || n == 5)
  {
    var files := [TwoHunks(path, "+x")];
    QuietExample(path);
    hide QuietPreambles, QuietChanges, FileAdds, ReadBack, ReadAs;
    QuietDiffReads(files, name, n);
    assert files[0].path == path;
  }

  /** The lines of a file with a space in its path are reported under a name that ends in a tab. */
  lemma SpacedFileIsRenamed(path: string)
    requires ' ' in path && !Quoted(path)
    ensures var f := TwoHunks(path, "+x");
            FileAdds([f], path, 5) && 5 !in At(ReadBack([f]), path) && 5 in At(ReadBack([f]), path + "\t")
  {
    QuietExample(path);
    ExampleReads(path, path, 5);
    ExampleReads(path, path + "\t", 5);
    PlainIsRead(path);
  }

  /** Those of a file whose path is quoted are not reported at all. */
  lemma QuotedFileIsSkipped(path: string, name: string)
    requires Quoted(path)
    ensures var f := TwoHunks(path, "+x"); FileAdds([f], path, 5) && 5 !in At(ReadBack([f]), name)
  {
    QuietExample(path);
    ExampleReads(path, name, 5);
  }

  lemma SpacedExample()
    ensures HeaderLine("a b.py") == "+++ b/a b.py\t" && ' ' in "a b.py" && !Quoted("a b.py")
  {
    assert "a b.py"[1] == ' ';
  }

  lemma EncodeNext(c: char, rest: string)
    ensures Utf8.Encode([c] + rest) == Utf8.EncodeChar(c) + Utf8.Encode(rest)
  {
    assert ([c] + rest)[1..] == rest;
  }

  lemma EncodedExample()
    ensures Utf8.Encode(['b', '/', '\U{E9}', '.', 'p', 'y']) == [0x62, 0x2F, 0xC3, 0xA9, 0x2E, 0x70, 0x79]
  {
    EncodeNext('y', []);
    EncodeNext('p', ['y']);
    EncodeNext('.', ['p', 'y']);
    EncodeNext('\U{E9}', ['.', 'p', 'y']);
    EncodeNext('/', ['\U{E9}', '.', 'p', 'y']);
    EncodeNext('b', ['/', '\U{E9}', '.', 'p', 'y']);
    assert Utf8.Encode([]) == [];
  }

  lemma EscapeNext(b: Utf8.Byte, rest: seq<Utf8.Byte>)
    ensures AllEscaped([b] + rest) == Escaped(b) + AllEscaped(rest)
  {
    assert ([b] + rest)[1..] == rest;
  }

  lemma EscapedBytes()
    ensures Escaped(0x62) == "b" && Escaped(0x2F) == "/" && Escaped(0x2E) == "." && Escaped(0x70) == "p"
    ensures Escaped(0x79) == "y" && Escaped(0xC3) == "\\303" && Escaped(0xA9) == "\\251" && AllEscaped([]) == ""
  {}

  lemma EscapedEnd()
    ensures AllEscaped([0x2E, 0x70, 0x79]) == "." + ("p" + "y")
  {
    EscapedBytes();
    hide AllEscaped, Escaped;
    EscapeNext(0x79, []);
    assert [0x79] + [] == [0x79] && "y" + "" == "y";
    EscapeNext(0x70, [0x79]);
    EscapeNext(0x2E, [0x70] + [0x79]);
    assert [0x2E] + ([0x70] + [0x79]) == [0x2E, 0x70, 0x79];
  }

  const ESCAPED := "b" + ("/" + ("\\303" + ("\\251" + ("." + ("p" + "y")))))

  lemma EscapedExample()
    ensures AllEscaped([0x62, 0x2F, 0xC3, 0xA9, 0x2E, 0x70, 0x79]) == ESCAPED
  {
    EscapedBytes();
    hide AllEscaped, Escaped;
    EscapedEnd();
    var end: seq<Utf8.Byte> := [0x2E, 0x70, 0x79];
    EscapeNext(0xA9, end);
    EscapeNext(0xC3, [0xA9] + end);
    EscapeNext(0x2F, [0xC3] + ([0xA9] + end));
    EscapeNext(0x62, [0x2F] + ([0xC3] + ([0xA9] + end)));
    assert [0x62] + ([0x2F] + ([0xC3] + ([0xA9] + end))) == [0x62, 0x2F, 0xC3, 0xA9, 0x2E, 0x70, 0x79];
  }

  const ACCENTED := ['\U{E9}', '.', 'p', 'y']

  lemma QuotedText()
    ensures AllEscaped(Utf8.Encode("b/" + ACCENTED)) == ESCAPED
  {
    assert "b/" + ACCENTED == ['b', '/', '\U{E9}', '.', 'p', 'y'];
    hide AllEscaped, Utf8.Encode;
    EncodedExample();
    EscapedExample();
  }

  lemma QuotedExample()
    ensures Quoted(ACCENTED) && HeaderLine(ACCENTED) == HEADER + ("\"" + ESCAPED + "\"") + ""
  {
    assert NeedsQuotes(ACCENTED[0]) && Quoted(ACCENTED) && ' ' !in ACCENTED;
    hide AllEscaped, Utf8.Encode, NeedsQuotes, Quoted;
    QuotedText();
  }

  // ------------------------------------------------------------------ two wrongs that make a right

  /** The first hunk of each file ends in the other file's header. */
  function Swapped(x: string, y: string): seq<FileDiff> {
    [TwoHunks(x, NAMED + y), TwoHunks(y, NAMED + x)]
  }

  /** A changed line of one file that reads as another's header. */
  function OtherPiece(path: string, other: string): Piece {
    Piece(NAMED + other, path, Changed)
  }

  lemma PlainHeader(path: string)
    requires Plain(path)
    ensures HeaderLine(path) == NAMED + path
  {
    assert HEADER + ("b/" + path) + "" == NAMED + path;
  }

  lemma PlainHeaderSplits(path: string)
    requires Plain(path)
    ensures SplitAll([NAMED + path]) == [NAMED + path]
  {
    PlainHeader(path);
    HeaderIsUnbroken(path);
    SplitOne(NAMED + path);
  }

  function Half(x: string, y: string): seq<Piece> {
    [HeaderPiece(x), RealPiece(x, First(NAMED + y)), OtherPiece(x, y), RealPiece(x, Second())]
  }

  lemma HalfSwapped(x: string, y: string)
    requires Plain(y)
    ensures var f := TwoHunks(x, NAMED + y); Preamble(f) + Body(f) == Half(x, y)
  {
    PlainHeaderSplits(y);
    hide HunkLine, SplitAll, Body, Preamble, First, Second, TwoHunks;
    TwoHunksPieces(x, NAMED + y);
  }

  lemma SwappedPieces(x: string, y: string)
    requires Plain(x) && Plain(y)
    ensures DiffPieces(Swapped(x, y)) == Half(x, y) + Half(y, x)
  {
    hide Body, Preamble, TwoHunks, DiffPieces, Half;
    HalfSwapped(x, y);
    HalfSwapped(y, x);
    TwoFiles(TwoHunks(x, NAMED + y), TwoHunks(y, NAMED + x));
  }

  /** Lines 1 and 5, of both files. */
  predicate OneOrFive(x: string, y: string, path: string, n: int) {
    (path == x || path == y) && (n == 1 || n == 5)
  }

  predicate HeaderOf(line: string, path: string) {
    IsHeader(line) && PathOf(line) == Some(path)
  }

  predicate HunkAt(line: string, n: int) {
    !IsHeader(line) && HunkOf(line) == Some((n, 1))
  }

  predicate HalfLines(x: string, y: string, lines: seq<string>) {
    |lines| == 4 && HeaderOf(lines[0], x) && HunkAt(lines[1], 1) && HeaderOf(lines[2], y) && HunkAt(lines[3], 5)
  }

  predicate SwappedLines(x: string, y: string, lines: seq<string>) {
    |lines| == 8 && HalfLines(x, y, lines[..4]) && HalfLines(y, x, lines[4..])
  }

  /** Which lines of a swapped diff are hunks, of which line, and under which header they stand. */
  predicate Stands(lines: seq<string>, k: nat, path: string, n: int)
    requires k < |lines|
  {
    HunkAt(lines[k], n) && FileAt(lines, k) == Some(path)
  }

  lemma SwappedStands(x: string, y: string, lines: seq<string>)
    requires SwappedLines(x, y, lines)
    ensures |lines| == 8 && IsHeader(lines[0]) && IsHeader(lines[2]) && IsHeader(lines[4]) && IsHeader(lines[6])
    ensures Stands(lines, 1, x, 1) && Stands(lines, 3, y, 5) && Stands(lines, 5, y, 1) && Stands(lines, 7, x, 5)
  {
    assert forall i :: 0 <= i < 4 ==> lines[..4][i] == lines[i] && lines[4..][i] == lines[i + 4];
    hide HunkOf, IsHeader, PathOf;
    HeaderBeforeIs(lines, 1, 0);
    HeaderBeforeIs(lines, 3, 2);
    HeaderBeforeIs(lines, 5, 4);
    HeaderBeforeIs(lines, 7, 6);
  }

  lemma StandsCovers(lines: seq<string>, k: nat, own: string, line: int, path: string, n: int)
    requires k < |lines| && Stands(lines, k, own, line)
    ensures Covers(HunkOf, lines, k, path, n) <==> path == own && n == line
  {
    hide HunkOf, IsHeader, FileAt;
  }

  lemma SwappedCovers(x: string, y: string, lines: seq<string>, path: string, n: int)
    requires SwappedLines(x, y, lines)
    ensures FileAt(lines, 3) == Some(y)
    ensures OneOrFive(x, y, path, n) <==> exists k :: 0 <= k < |lines| && Covers(HunkOf, lines, k, path, n)
  {
    SwappedStands(x, y, lines);
    StandsCovers(lines, 1, x, 1, path, n);
    StandsCovers(lines, 3, y, 5, path, n);
    StandsCovers(lines, 5, y, 1, path, n);
    StandsCovers(lines, 7, x, 5, path, n);
    assert !Covers(HunkOf, lines, 0, path, n) && !Covers(HunkOf, lines, 2, path, n);
    assert !Covers(HunkOf, lines, 4, path, n) && !Covers(HunkOf, lines, 6, path, n);
    hide Covers, IsHeader, SwappedLines, FileAt;
    if k :| 0 <= k < |lines| && Covers(HunkOf, lines, k, path, n) {
      assert k == 1 || k == 3 || k == 5 || k == 7;
    }
  }

  lemma TwoHunksAdd(path: string, changed: string, n: int)
    ensures Adds(TwoHunks(path, changed).hunks, n) <==> n == 1 || n == 5
  {
    var f := TwoHunks(path, changed);
    assert f.hunks[0].start == 1 && f.hunks[1].start == 5;
  }

  lemma SwappedAdds(x: string, y: string, path: string, n: int)
    ensures FileAdds(Swapped(x, y), path, n) <==> OneOrFive(x, y, path, n)
  {
    var files := Swapped(x, y);
    TwoHunksAdd(x, NAMED + y, n);
    TwoHunksAdd(y, NAMED + x, n);
    assert files[0].path == x && files[1].path == y;
    hide Adds;
  }

  lemma HeaderPiecesRead(path: string, other: string)
    requires Plain(path)
    ensures HeaderOf(HeaderPiece(path).line, path) && HeaderOf(OtherPiece(other, path).line, path)
  {
    HeaderIsFair(path);
    PlainIsRead(path);
    PlainHeader(path);
  }

  lemma RealPieceReads(path: string, h: Hunk)
    requires h.count == 1
    ensures HunkAt(RealPiece(path, h).line, h.start)
  {
    HunkReads(h);
  }

  lemma HalfReads(x: string, y: string)
    requires Plain(x) && Plain(y)
    ensures HalfLines(x, y, Texts(Half(x, y)))
  {
    TextsLength(Half(x, y));
    hide Texts, HeaderOf, HunkAt, HunkLine, First, Second, RealPiece, HeaderPiece, OtherPiece;
    HeaderPiecesRead(x, y);
    HeaderPiecesRead(y, x);
    StartsAndEnds(NAMED + y);
    RealPieceReads(x, First(NAMED + y));
    RealPieceReads(x, Second());
  }

  lemma SwappedRead(x: string, y: string)
    requires Plain(x) && Plain(y)
    ensures SwappedLines(x, y, Texts(DiffPieces(Swapped(x, y))))
  {
    SwappedPieces(x, y);
    hide DiffPieces, Texts, HeaderOf, HunkAt, Swapped, Half;
    HalfReads(x, y);
    HalfReads(y, x);
    TextsConcat(Half(x, y), Half(y, x));
    var a, b := Texts(Half(x, y)), Texts(Half(y, x));
    assert (a + b)[..4] == a && (a + b)[4..] == b;
  }

  lemma StartsAndEnds(changed: string)
    ensures First(changed).start == First(changed).count == Second().count == 1 && Second().start == 5
  {}

  lemma SwappedIsFair(x: string, y: string)
    requires Plain(x) && Plain(y) && x != y
    ensures var files := Swapped(x, y);
            DistinctPaths(files) && DisjointHunks(files) && QuietPreambles(files)
  {
    var files := Swapped(x, y);
    assert files[0].path == x && files[1].path == y && files[0].preamble == files[1].preamble == [];
    assert files[0].hunks[0] == First(NAMED + y) && files[1].hunks[0] == First(NAMED + x);
    assert files[0].hunks[1] == files[1].hunks[1] == Second();
    assert SplitAll([]) == [];
  }

  lemma SecondIsThird(x: string, y: string)
    ensures var pieces := Half(x, y) + Half(y, x); |pieces| == 8 && AddsLines(pieces[3]) && pieces[3].path == x
  {}

  /** Hunks under the wrong header do not make the reading wrong when they trade places: here the second hunk of each
      file stands under the other's header and covers the same lines. */
  lemma SwappedHunksReadRight(x: string, y: string)
    requires Plain(x) && Plain(y) && x != y
    ensures var files := Swapped(x, y);
            && DistinctPaths(files) && DisjointHunks(files) && QuietPreambles(files)
            && ReadRight(files) && !AllUnderOwnHeaders(files)
  {
    hide DiffPieces, Swapped, Texts, Covers, FileAdds, HunkOf, Half, SwappedLines, ReadBack, Plain;
    hide DistinctPaths, DisjointHunks, QuietPreambles;
    var files := Swapped(x, y);
    SwappedIsFair(x, y);
    SwappedRead(x, y);
    TextsLength(DiffPieces(files));
    forall path, n ensures n in At(ReadBack(files), path) <==> FileAdds(files, path, n) {
      ReportedIsRead(files, path, n);
      SwappedCovers(x, y, Texts(DiffPieces(files)), path, n);
      SwappedAdds(x, y, path, n);
    }
    SwappedHunkIsElsewhere(x, y);
  }

  lemma SwappedHunkIsElsewhere(x: string, y: string)
    requires Plain(x) && Plain(y) && x != y
    ensures !AllUnderOwnHeaders(Swapped(x, y))
  {
    hide DiffPieces, Swapped, Texts, HunkOf, Half, SwappedLines, Plain, FileAt;
    var pieces := DiffPieces(Swapped(x, y));
    SwappedRead(x, y);
    SwappedPieces(x, y);
    SecondIsThird(x, y);
    TextsLength(pieces);
    SwappedCovers(x, y, Texts(pieces), x, 1);
    assert AddsLines(pieces[3]) && !UnderOwnHeader(pieces, 3);
  }

  /** A range may leave out its count, which is then 1; without a new range there is no hunk. */
  lemma HunksRead()
    ensures HunkOf("@@ -5 +7 @@") == Some((7, 1))
    ensures HunkOf("@@ -5,2 +7,0 @@ def f():") == Some((7, 0))
    ensures HunkOf("@@ -5,2 @@") == None
  {
    hide HunkOf;
    CountLeftOut();
    CountZero();
    NoNewRange();
  }

  lemma CountLeftOut()
    ensures HunkOf("@@ -5 +7 @@") == Some((7, 1))
  {
    hide HunkOf, HunkMark;
    MarksAre();
    var h := Hunk(5, 1, 7, 1, "", []);
    HunkReads(h);
    assert HunkLine(h) == HunkMark(h);
  }

  lemma CountZero()
    ensures HunkOf("@@ -5,2 +7,0 @@ def f():") == Some((7, 0))
  {
    hide HunkOf, HunkMark;
    MarksAre();
    var h := Hunk(5, 2, 7, 0, " def f():", []);
    HunkReads(h);
    assert "@@ -5,2 +7,0 @@" + " def f():" == "@@ -5,2 +7,0 @@ def f():";
  }

  lemma MarksAre()
    ensures HunkMark(Hunk(5, 1, 7, 1, "", [])) == "@@ -5 +7 @@"
    ensures HunkMark(Hunk(5, 2, 7, 0, " def f():", [])) == "@@ -5,2 +7,0 @@"
    ensures PrintRange(5, 2) == "5,2"
  {
    assert Decimal(5) == "5" && Decimal(7) == "7" && Decimal(2) == "2" && Decimal(0) == "0";
    assert "@@ -" + "5" + " +" + "7" + " @@" == "@@ -5 +7 @@";
    assert "@@ -" + "5,2" + " +" + "7,0" + " @@" == "@@ -5,2 +7,0 @@";
  }

  lemma NoNewRange()
    ensures HunkOf("@@ -5,2 @@") == None
  {
    MarksAre();
    hide PrintRange, TakeRange;
    RangeReads(5, 2, " @@");
    assert "5,2" + " @@" == "5,2 @@";
    AfterReads("@@ -", "5,2 @@");
    assert "@@ -" + "5,2 @@" == "@@ -5,2 @@";
    assert " @@"[1] == '@';
  }
}
