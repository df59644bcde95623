// Reading back a diff as git prints it, and exactly when that gives the lines each file adds: `added_lines` in
// tools/check_english.py.
module PrintedDiffs {
  import opened Wrappers
  import opened Lines
  import opened Diffs
  import opened DiffHeaders

  // ------------------------------------------------------------------ printing

  /** A hunk without context: where it starts in each file, how many lines, the heading, the changed lines. */
  datatype Hunk = Hunk(oldStart: nat, oldCount: nat, start: nat, count: nat, heading: string, changed: seq<string>)

  /** One file of a diff: the lines before its header, its path in the new tree, its hunks. */
  datatype FileDiff = FileDiff(preamble: seq<string>, path: string, hunks: seq<Hunk>)

  /** A count of 1 is not printed. */
  function PrintRange(start: nat, count: nat): string {
    if count == 1 then Decimal(start) else Decimal(start) + "," + Decimal(count)
  }

  function HunkMark(h: Hunk): string {
    "@@ -" + PrintRange(h.oldStart, h.oldCount) + " +" + PrintRange(h.start, h.count) + " @@"
  }

  function HunkLine(h: Hunk): string {
    HunkMark(h) + h.heading
  }

  function HunkLines(hunks: seq<Hunk>): seq<string> {
    if hunks == [] then []
    else
      var last := hunks[|hunks| - 1];
      HunkLines(hunks[..|hunks| - 1]) + [HunkLine(last)] + last.changed
  }

  function DiffLines(files: seq<FileDiff>): seq<string> {
    if files == [] then []
    else
      var last := files[|files| - 1];
      DiffLines(files[..|files| - 1]) + last.preamble + BodyLines(last)
  }

  /** A file without hunks has no header either. */
  function BodyLines(f: FileDiff): seq<string> {
    (if f.hunks == [] then [] else [HeaderLine(f.path)]) + HunkLines(f.hunks)
  }

  // ------------------------------------------------------------------ how printed lines read

  lemma {:induction false} DigitsAheadOf(digits: string, rest: string)
    requires (forall i :: 0 <= i < |digits| ==> IsDigit(digits[i])) && (rest == "" || !IsDigit(rest[0]))
    ensures DigitsAhead(digits + rest) == |digits|
  {
    if digits == "" {
      assert digits + rest == rest;
    } else {
      assert (digits + rest)[1..] == digits[1..] + rest;
      DigitsAheadOf(digits[1..], rest);
    }
  }

  lemma NumberReads(n: nat, rest: string)
    requires rest == "" || !IsDigit(rest[0])
    ensures TakeNumber(Decimal(n) + rest) == Some((n, rest))
  {
    DigitsAheadOf(Decimal(n), rest);
    ParseNatDecimal(n);
    assert (Decimal(n) + rest)[..|Decimal(n)|] == Decimal(n) && (Decimal(n) + rest)[|Decimal(n)|..] == rest;
  }

  lemma RangeReads(start: nat, count: nat, rest: string)
    requires rest != "" && !IsDigit(rest[0]) && rest[0] != ','
    ensures TakeRange(PrintRange(start, count) + rest) == Some(((start, count), rest))
  {
    if count == 1 {
      NumberReads(start, rest);
    } else {
      var tail := "," + (Decimal(count) + rest);
      assert PrintRange(start, count) + rest == Decimal(start) + tail;
      NumberReads(start, tail);
      assert tail[1..] == Decimal(count) + rest;
      NumberReads(count, rest);
    }
  }

  lemma AfterReads(prefix: string, text: string)
    ensures After(prefix, prefix + text) == Some(text)
  {}

  /** A printed hunk line reads as its range in the new file, whatever its heading. */
  lemma HunkReads(h: Hunk)
    ensures HunkOf(HunkLine(h)) == Some((h.start, h.count)) && !IsHeader(HunkLine(h))
  {
    var tail := " @@" + h.heading;
    var newer := PrintRange(h.start, h.count) + tail;
    var older := PrintRange(h.oldStart, h.oldCount) + (" +" + newer);
    assert HunkLine(h) == "@@ -" + older;
    assert tail[0] == ' ' && (" +" + newer)[0] == ' ' && HunkLine(h)[0] == '@';
    hide HunkLine, PrintRange, TakeRange;
    RangeReads(h.start, h.count, tail);
    AfterReads(" +", newer);
    RangeReads(h.oldStart, h.oldCount, " +" + newer);
    AfterReads("@@ -", older);
  }

  /** A line that is neither a header nor a hunk. */
  predicate Quiet(line: string) {
    !IsHeader(line) && HunkOf(line).None?
  }

  /** A changed line is quiet exactly when it does not add a text that begins with two pluses and a space. */
  lemma ChangedLineIsQuiet(mark: char, text: string)
    requires mark in "+-\\"
    ensures Quiet([mark] + text) <==> !(mark == '+' && "++ " <= text)
  {
    var line := [mark] + text;
    assert line[0] == mark;
    assert !("@@ -" <= line);
    assert IsHeader(line) <==> mark == '+' && "++ " <= text by {
      if "++ " <= text { assert line[..4] == [mark] + text[..3]; }
      if IsHeader(line) { assert line[1..4] == "++ " && text[..3] == line[1..4]; }
    }
  }

  // ------------------------------------------------------------------ the pieces a printed diff splits into

  /** What a piece comes from: before a file's header, that header, the start of a hunk line, or what follows, the rest
      of a heading or changed lines, which may break anywhere. */
  datatype Kind = Before | Header | Real(start: nat, count: nat) | Changed

  datatype Piece = Piece(line: string, path: string, kind: Kind)

  function Label(lines: seq<string>, path: string, kind: Kind): seq<Piece> {
    seq(|lines|, i requires 0 <= i < |lines| => Piece(lines[i], path, kind))
  }

  function Texts(pieces: seq<Piece>): seq<string> {
    seq(|pieces|, i requires 0 <= i < |pieces| => pieces[i].line)
  }

  function HeadingLines(h: Hunk): (lines: seq<string>)
    ensures lines != []
  {
    SplitLines(h.heading + "\n")
  }

  function HunkPieces(path: string, h: Hunk): seq<Piece> {
    var heading := HeadingLines(h);
    [Piece(HunkLine(h.(heading := heading[0])), path, Real(h.start, h.count))]
    + Label(heading[1..] + SplitAll(h.changed), path, Changed)
  }

  function HunksPieces(path: string, hunks: seq<Hunk>): seq<Piece> {
    if hunks == [] then [] else HunksPieces(path, hunks[..|hunks| - 1]) + HunkPieces(path, hunks[|hunks| - 1])
  }

  function HeaderPiece(path: string): Piece {
    Piece(HeaderLine(path), path, Header)
  }

  function HeaderPieces(f: FileDiff): seq<Piece> {
    if f.hunks == [] then [] else [HeaderPiece(f.path)]
  }

  /** What stands from a file's header on. */
  function Body(f: FileDiff): seq<Piece> {
    HeaderPieces(f) + HunksPieces(f.path, f.hunks)
  }

  function Preamble(f: FileDiff): seq<Piece> {
    Label(SplitAll(f.preamble), f.path, Before)
  }

  function DiffPieces(files: seq<FileDiff>): seq<Piece> {
    if files == [] then []
    else DiffPieces(files[..|files| - 1]) + Preamble(files[|files| - 1]) + Body(files[|files| - 1])
  }

  lemma DiffPiecesNext(files: seq<FileDiff>)
    requires files != []
    ensures var front, last := files[..|files| - 1], files[|files| - 1];
            DiffPieces(files) == DiffPieces(front) + Preamble(last) + Body(last)
  {}

  lemma DiffPiecesSplit(files: seq<FileDiff>)
    requires files != []
    ensures var front, last := files[..|files| - 1], files[|files| - 1];
            DiffPieces(files) == DiffPieces(front) + (Preamble(last) + Body(last))
  {
    hide Preamble, Body;
  }

  lemma TextsConcat(a: seq<Piece>, b: seq<Piece>)
    ensures Texts(a + b) == Texts(a) + Texts(b)
  {}

  lemma TextsLabel(lines: seq<string>, path: string, kind: Kind)
    ensures Texts(Label(lines, path, kind)) == lines
  {}

  lemma SplitOne(line: string)
    requires Unbroken(line)
    ensures SplitAll([line]) == [line]
  {
    SplitFirst(line, "");
    assert line + "\n" + "" == line + "\n";
    assert SplitAll([line][1..]) == [];
  }

  lemma DecimalIsUnbroken(n: nat)
    ensures Unbroken(Decimal(n))
  {
    assert forall c :: IsDigit(c) ==> !IsBreak(c);
  }

  lemma MarkIsUnbroken(h: Hunk)
    ensures Unbroken(HunkMark(h))
  {
    DecimalIsUnbroken(h.oldStart);
    DecimalIsUnbroken(h.oldCount);
    DecimalIsUnbroken(h.start);
    DecimalIsUnbroken(h.count);
    assert Unbroken("@@ -") && Unbroken(" +") && Unbroken(" @@") && Unbroken(",");
    hide IsBreak, Decimal;
    assert Unbroken(PrintRange(h.oldStart, h.oldCount)) && Unbroken(PrintRange(h.start, h.count));
  }

  lemma SameMark(h: Hunk, heading: string)
    ensures HunkLine(h.(heading := heading)) == HunkMark(h) + heading
  {}

  lemma SplitAllNext(line: string, lines: seq<string>)
    ensures SplitAll([line] + lines) == SplitLines(line + "\n") + SplitAll(lines)
  {
    assert ([line] + lines)[1..] == lines;
  }

  lemma PiecesRead(path: string, h: Hunk)
    ensures Texts(HunkPieces(path, h)) ==
              [HunkLine(h.(heading := HeadingLines(h)[0]))] + (HeadingLines(h)[1..] + SplitAll(h.changed))
  {
    hide SplitAll, HunkLine, HeadingLines;
    var rest := HeadingLines(h)[1..] + SplitAll(h.changed);
    var first := Piece(HunkLine(h.(heading := HeadingLines(h)[0])), path, Real(h.start, h.count));
    TextsLabel(rest, path, Changed);
    TextsConcat([first], Label(rest, path, Changed));
  }

  lemma LineReads(h: Hunk)
    ensures SplitLines(HunkLine(h) + "\n") == [HunkLine(h.(heading := HeadingLines(h)[0]))] + HeadingLines(h)[1..]
  {
    SameMark(h, HeadingLines(h)[0]);
    SameMark(h, h.heading);
    hide SplitLines, Unbroken, HunkMark, HunkLine;
    MarkIsUnbroken(h);
    SplitAfter(HunkMark(h), h.heading + "\n");
    assert HunkMark(h) + (h.heading + "\n") == HunkLine(h) + "\n";
  }

  lemma HunkLineSplits(path: string, h: Hunk)
    ensures SplitAll([HunkLine(h)] + h.changed) == Texts(HunkPieces(path, h))
  {
    hide SplitLines, SplitAll, HunkLine, HeadingLines, HunkPieces, Texts;
    PiecesRead(path, h);
    LineReads(h);
    SplitAllNext(HunkLine(h), h.changed);
  }

  lemma {:induction false} HunksSplit(path: string, hunks: seq<Hunk>)
    ensures SplitAll(HunkLines(hunks)) == Texts(HunksPieces(path, hunks))
  {
    if hunks != [] {
      hide SplitAll, HunkPieces, Texts, HunkLine;
      var front, last := hunks[..|hunks| - 1], hunks[|hunks| - 1];
      HunksSplit(path, front);
      HunkLineSplits(path, last);
      SplitAllConcat(HunkLines(front), [HunkLine(last)] + last.changed);
      assert HunkLines(hunks) == HunkLines(front) + ([HunkLine(last)] + last.changed);
      TextsConcat(HunksPieces(path, front), HunkPieces(path, last));
    }
  }

  lemma HeaderSplits(f: FileDiff)
    ensures SplitAll(if f.hunks == [] then [] else [HeaderLine(f.path)]) == Texts(HeaderPieces(f))
  {
    if f.hunks != [] {
      HeaderIsUnbroken(f.path);
      SplitOne(HeaderLine(f.path));
    }
  }

  lemma BodySplits(f: FileDiff)
    ensures SplitAll(BodyLines(f)) == Texts(Body(f))
  {
    var header := if f.hunks == [] then [] else [HeaderLine(f.path)];
    HeaderSplits(f);
    hide SplitAll, HunkLines, HunksPieces, HeaderPieces, Texts, HeaderLine;
    HunksSplit(f.path, f.hunks);
    SplitAllConcat(header, HunkLines(f.hunks));
    TextsConcat(HeaderPieces(f), HunksPieces(f.path, f.hunks));
  }

  lemma {:induction false} DiffSplits(files: seq<FileDiff>)
    ensures SplitAll(DiffLines(files)) == Texts(DiffPieces(files))
  {
    if files != [] {
      var front, last := files[..|files| - 1], files[|files| - 1];
      var start, body := DiffLines(front), BodyLines(last);
      DiffPiecesNext(files);
      assert DiffLines(files) == start + last.preamble + body;
      BodySplits(last);
      TextsLabel(SplitAll(last.preamble), last.path, Before);
      hide SplitAll, Texts, Body, BodyLines, DiffLines, DiffPieces;
      DiffSplits(front);
      SplitAllConcat(start + last.preamble, body);
      SplitAllConcat(start, last.preamble);
      TextsConcat(DiffPieces(front) + Preamble(last), Body(last));
      TextsConcat(DiffPieces(front), Preamble(last));
    }
  }

  /** A printed diff splits into its pieces, wherever its lines break further. */
  lemma PrintedSplits(files: seq<FileDiff>)
    ensures SplitLines(Terminated(DiffLines(files))) == Texts(DiffPieces(files))
  {
    SplitAllTerminated(DiffLines(files));
    DiffSplits(files);
  }

  // ------------------------------------------------------------------ what the pieces are

  /** What is known of a piece; changed pieces may be anything. */
  predicate Fair(p: Piece) {
    match p.kind
    case Before => Quiet(p.line)
    case Header => p == HeaderPiece(p.path)
    case Real(start, count) => !IsHeader(p.line) && HunkOf(p.line) == Some((start, count))
    case Changed => true
  }

  predicate AllFair(pieces: seq<Piece>) {
    forall k :: 0 <= k < |pieces| ==> Fair(pieces[k])
  }

  /** Lines before a header are quiet, however they break. */
  predicate QuietPreambles(files: seq<FileDiff>) {
    forall i :: 0 <= i < |files| ==> AllFair(Preamble(files[i]))
  }

  lemma AllFairConcat(a: seq<Piece>, b: seq<Piece>)
    requires AllFair(a) && AllFair(b)
    ensures AllFair(a + b)
  {
    hide Fair;
  }

  lemma ChangedAreFair(lines: seq<string>, path: string)
    ensures AllFair(Label(lines, path, Changed))
  {
    hide HunkOf, IsHeader;
  }

  lemma OneHunkIsFair(path: string, h: Hunk)
    ensures AllFair(HunkPieces(path, h))
  {
    HunkReads(h.(heading := HeadingLines(h)[0]));
    hide HunkOf, HunkLine, HeadingLines, SplitAll, Label, IsHeader;
    var first := Piece(HunkLine(h.(heading := HeadingLines(h)[0])), path, Real(h.start, h.count));
    assert Fair(first);
    ChangedAreFair(HeadingLines(h)[1..] + SplitAll(h.changed), path);
    AllFairConcat([first], Label(HeadingLines(h)[1..] + SplitAll(h.changed), path, Changed));
  }

  lemma {:induction false} HunksAreFair(path: string, hunks: seq<Hunk>)
    ensures AllFair(HunksPieces(path, hunks))
  {
    if hunks != [] {
      hide AllFair, HunkPieces;
      var front, last := hunks[..|hunks| - 1], hunks[|hunks| - 1];
      HunksAreFair(path, front);
      OneHunkIsFair(path, last);
      AllFairConcat(HunksPieces(path, front), HunkPieces(path, last));
    }
  }

  lemma FileIsFair(f: FileDiff)
    requires AllFair(Preamble(f))
    ensures AllFair(Preamble(f) + Body(f))
  {
    HunksAreFair(f.path, f.hunks);
    HeaderIsFair(f.path);
    assert AllFair(HeaderPieces(f));
    hide AllFair, HunksPieces, Preamble, HeaderPieces;
    AllFairConcat(HeaderPieces(f), HunksPieces(f.path, f.hunks));
    AllFairConcat(Preamble(f), Body(f));
  }

  lemma FrontIsQuiet(files: seq<FileDiff>)
    requires files != [] && QuietPreambles(files)
    ensures QuietPreambles(files[..|files| - 1]) && AllFair(Preamble(files[|files| - 1]))
  {}

  lemma {:induction false} PiecesAreFair(files: seq<FileDiff>)
    requires QuietPreambles(files)
    ensures AllFair(DiffPieces(files))
  {
    if files != [] {
      var front, last := files[..|files| - 1], files[|files| - 1];
      hide AllFair, Preamble, Body, DiffPieces;
      FrontIsQuiet(files);
      PiecesAreFair(front);
      FileIsFair(last);
      AllFairConcat(DiffPieces(front), Preamble(last) + Body(last));
      DiffPiecesSplit(files);
    }
  }

  lemma HeaderIsFair(path: string)
    ensures Fair(HeaderPiece(path)) && IsHeader(HeaderPiece(path).line)
    ensures PathOf(HeaderPiece(path).line) == ReadAs(path)
  {
    HeaderReads(path);
  }

  // ------------------------------------------------------------------ what files add

  /** The lines the hunks add to the file. */
  predicate Adds(hunks: seq<Hunk>, n: int) {
    exists i :: 0 <= i < |hunks| && hunks[i].start <= n < hunks[i].start + hunks[i].count
  }

  /** Some file of this path adds this line. */
  predicate FileAdds(files: seq<FileDiff>, path: string, n: int) {
    exists i :: 0 <= i < |files| && files[i].path == path && Adds(files[i].hunks, n)
  }

  /** The piece is a hunk of this file, and the hunk has this line. */
  predicate RealAt(p: Piece, path: string, n: int) {
    p.kind.Real? && p.path == path && p.kind.start <= n < p.kind.start + p.kind.count
  }

  predicate SomeReal(pieces: seq<Piece>, path: string, n: int) {
    exists k :: 0 <= k < |pieces| && RealAt(pieces[k], path, n)
  }

  lemma SomeRealConcat(a: seq<Piece>, b: seq<Piece>, path: string, n: int)
    ensures SomeReal(a + b, path, n) <==> SomeReal(a, path, n) || SomeReal(b, path, n)
  {
    hide RealAt;
    if SomeReal(a, path, n) {
      var k :| 0 <= k < |a| && RealAt(a[k], path, n);
      assert (a + b)[k] == a[k];
    }
    if SomeReal(b, path, n) {
      var k :| 0 <= k < |b| && RealAt(b[k], path, n);
      assert (a + b)[|a| + k] == b[k];
    }
  }

  lemma AddsNext(hunks: seq<Hunk>, n: int)
    requires hunks != []
    ensures var last := hunks[|hunks| - 1];
            Adds(hunks, n) <==> Adds(hunks[..|hunks| - 1], n) || last.start <= n < last.start + last.count
  {
    assert hunks == hunks[..|hunks| - 1] + [hunks[|hunks| - 1]];
  }

  lemma {:induction false} HunksAdd(path: string, hunks: seq<Hunk>, other: string, n: int)
    ensures SomeReal(HunksPieces(path, hunks), other, n) <==> other == path && Adds(hunks, n)
  {
    if hunks != [] {
      AddsNext(hunks, n);
      hide HunkPieces, SomeReal, Adds;
      var front, last := hunks[..|hunks| - 1], hunks[|hunks| - 1];
      HunksAdd(path, front, other, n);
      SomeRealConcat(HunksPieces(path, front), HunkPieces(path, last), other, n);
      OneHunkAdds(path, last, other, n);
    }
  }

  lemma OneHunkAdds(path: string, h: Hunk, other: string, n: int)
    ensures SomeReal(HunkPieces(path, h), other, n) <==> other == path && h.start <= n < h.start + h.count
  {
    hide HunkLine, HeadingLines, SplitAll;
    assert HunkPieces(path, h)[0].kind == Real(h.start, h.count);
  }

  lemma FileAddsNext(files: seq<FileDiff>, path: string, n: int)
    requires files != []
    ensures var f := files[|files| - 1];
            FileAdds(files, path, n) <==>
              FileAdds(files[..|files| - 1], path, n) || (f.path == path && Adds(f.hunks, n))
  {
    assert files == files[..|files| - 1] + [files[|files| - 1]];
  }

  /** The hunks among the pieces are those of the files. */
  lemma {:induction false} PiecesAdd(files: seq<FileDiff>, path: string, n: int)
    ensures SomeReal(DiffPieces(files), path, n) <==> FileAdds(files, path, n)
  {
    if files != [] {
      DiffPiecesNext(files);
      FileAddsNext(files, path, n);
      hide SomeReal, HunksPieces, Adds, FileAdds, DiffPieces, HeaderPiece;
      var front, last := files[..|files| - 1], files[|files| - 1];
      PiecesAdd(front, path, n);
      HunksAdd(last.path, last.hunks, path, n);
      var header := HeaderPieces(last);
      SomeRealConcat(DiffPieces(front) + Preamble(last), Body(last), path, n);
      SomeRealConcat(DiffPieces(front), Preamble(last), path, n);
      SomeRealConcat(header, HunksPieces(last.path, last.hunks), path, n);
      NoReal(header, path, n);
      NoReal(Preamble(last), path, n);
    }
  }

  lemma NoReal(pieces: seq<Piece>, path: string, n: int)
    requires forall k :: 0 <= k < |pieces| ==> !pieces[k].kind.Real?
    ensures !SomeReal(pieces, path, n)
  {}

  // ------------------------------------------------------------------ whose header comes last

  lemma {:induction false} HeaderBeforeSame(a: seq<string>, b: seq<string>, k: nat)
    requires k <= |a| && k <= |b| && forall i :: 0 <= i < k ==> a[i] == b[i]
    ensures HeaderBefore(a, k) == HeaderBefore(b, k)
  {
    if k > 0 { HeaderBeforeSame(a, b, k - 1); }
  }

  /** Every piece belongs to a file of the diff. */
  lemma {:induction false} HunksOwned(path: string, hunks: seq<Hunk>)
    ensures forall k :: 0 <= k < |HunksPieces(path, hunks)| ==>
              HunksPieces(path, hunks)[k].path == path && !HunksPieces(path, hunks)[k].kind.Header?
  {
    if hunks != [] {
      hide HunkLine, HeadingLines, SplitAll;
      HunksOwned(path, hunks[..|hunks| - 1]);
    }
  }

  lemma BodyOwned(f: FileDiff)
    ensures forall k :: 0 <= k < |Body(f)| ==> Body(f)[k].path == f.path
    ensures Body(f) != [] ==> Body(f)[0] == HeaderPiece(f.path)
  {
    HunksOwned(f.path, f.hunks);
  }

  predicate InDiff(files: seq<FileDiff>, path: string) {
    exists i :: 0 <= i < |files| && files[i].path == path
  }

  lemma {:induction false} PiecesOwned(files: seq<FileDiff>)
    ensures forall k :: 0 <= k < |DiffPieces(files)| ==> InDiff(files, DiffPieces(files)[k].path)
  {
    if files != [] {
      hide Body, HunksPieces;
      var front, last := files[..|files| - 1], files[|files| - 1];
      PiecesOwned(front);
      BodyOwned(last);
      assert files[|files| - 1].path == last.path;
      forall path | InDiff(front, path) ensures InDiff(files, path) {
        var i :| 0 <= i < |front| && front[i].path == path;
        assert files[i] == front[i];
      }
    }
  }

  /** The last header-like piece before a hunk or a changed piece belongs to the same file. */
  lemma {:induction false} HeaderIsOwn(files: seq<FileDiff>, k: nat)
    requires QuietPreambles(files) && k < |DiffPieces(files)|
    requires DiffPieces(files)[k].kind.Real? || DiffPieces(files)[k].kind.Changed?
    ensures var pieces := DiffPieces(files);
            var h := HeaderBefore(Texts(pieces), k);
            h >= 0 && pieces[h].path == pieces[k].path
  {
    var pieces, front, last := DiffPieces(files), files[..|files| - 1], files[|files| - 1];
    var before := DiffPieces(front);
    DiffPiecesNext(files);
    if k < |before| {
      HeaderIsOwn(front, k);
      HeaderBeforeSame(Texts(before), Texts(pieces), k);
    } else {
      BodyOwned(last);
      hide Body, DiffPieces;
      HeaderInBody(before + Preamble(last), last, k);
    }
  }

  lemma HeaderInBody(start: seq<Piece>, f: FileDiff, k: nat)
    requires |start| <= k < |start + Body(f)| && !(start + Body(f))[k].kind.Header?
    ensures var pieces := start + Body(f);
            var h := HeaderBefore(Texts(pieces), k);
            h >= 0 && pieces[h].path == pieces[k].path
  {
    var pieces := start + Body(f);
    BodyOwned(f);
    hide Body;
    assert pieces[|start|] == Body(f)[0] && pieces[k] == Body(f)[k - |start|];
    HeaderIsFair(f.path);
    TextsLength(pieces);
    hide Texts, IsHeader;
    var h := HeaderBefore(Texts(pieces), k);
    assert h >= |start|;
    assert pieces[h] == Body(f)[h - |start|];
  }

  // ------------------------------------------------------------------ exactly when the reading is right

  function ReadBack(files: seq<FileDiff>): Added {
    ReadLines(HunkOf, START, SplitLines(Terminated(DiffLines(files)))).added
  }

  /** Every line is reported for a file exactly when the file adds it. */
  ghost predicate ReadRight(files: seq<FileDiff>) {
    forall path, n :: n in At(ReadBack(files), path) <==> FileAdds(files, path, n)
  }

  ghost predicate Reported(pieces: seq<Piece>, path: string, n: int) {
    exists k :: 0 <= k < |pieces| && Covers(HunkOf, Texts(pieces), k, path, n)
  }

  lemma ReportedIsRead(files: seq<FileDiff>, path: string, n: int)
    ensures n in At(ReadBack(files), path) <==> Reported(DiffPieces(files), path, n)
  {
    hide DiffPieces, DiffLines, Covers, ReadLines, Texts;
    PrintedSplits(files);
    ReadsExactly(Terminated(DiffLines(files)), path, n);
    TextsLength(DiffPieces(files));
  }

  lemma TextsLength(pieces: seq<Piece>)
    ensures |Texts(pieces)| == |pieces| && forall k :: 0 <= k < |pieces| ==> Texts(pieces)[k] == pieces[k].line
  {}

  /** Whatever a piece is read as a hunk of, that file adds those lines. */
  ghost predicate NothingForeign(files: seq<FileDiff>) {
    forall k, path, n :: 0 <= k < |DiffPieces(files)| && Covers(HunkOf, Texts(DiffPieces(files)), k, path, n) ==>
      FileAdds(files, path, n)
  }

  /** The last header-like piece before this one names its own file. */
  predicate UnderOwnHeader(pieces: seq<Piece>, k: nat)
    requires k < |pieces|
  {
    FileAt(Texts(pieces), k) == Some(pieces[k].path)
  }

  /** Each hunk stands under its own file's header, or other pieces report its lines. */
  ghost predicate NothingLost(files: seq<FileDiff>) {
    forall k, n :: 0 <= k < |DiffPieces(files)| && RealAt(DiffPieces(files)[k], DiffPieces(files)[k].path, n) ==>
      UnderOwnHeader(DiffPieces(files), k) || Reported(DiffPieces(files), DiffPieces(files)[k].path, n)
  }

  lemma RealIsCoveredAs(pieces: seq<Piece>, k: nat, path: string, n: int)
    requires AllFair(pieces) && k < |pieces| && RealAt(pieces[k], pieces[k].path, n)
    requires FileAt(Texts(pieces), k) == Some(path)
    ensures Covers(HunkOf, Texts(pieces), k, path, n)
  {
    hide HunkOf, IsHeader, FileAt;
    assert Fair(pieces[k]);
  }

  /** On any printed diff with quiet preambles, however its changed lines and headings break: reading it back is right
      exactly when no piece is read as a hunk of lines that its file does not add, and each hunk that adds lines stands
      under its own file's header or has its lines reported by other pieces. */
  lemma ReadRightExactlyWhen(files: seq<FileDiff>)
    requires QuietPreambles(files)
    ensures ReadRight(files) <==> NothingForeign(files) && NothingLost(files)
  {
    hide DiffPieces, FileAdds, Covers, RealAt, UnderOwnHeader, ReadBack, Texts, QuietPreambles;
    var pieces := DiffPieces(files);
    PiecesAreFair(files);
    forall path, n
      ensures n in At(ReadBack(files), path) <==> Reported(pieces, path, n)
      ensures SomeReal(pieces, path, n) <==> FileAdds(files, path, n)
    {
      ReportedIsRead(files, path, n);
      PiecesAdd(files, path, n);
    }
    if ReadRight(files) {
      forall k, n | 0 <= k < |pieces| && RealAt(pieces[k], pieces[k].path, n)
        ensures Reported(pieces, pieces[k].path, n)
      {
        assert SomeReal(pieces, pieces[k].path, n);
      }
    }
    if NothingForeign(files) && NothingLost(files) {
      forall path, n ensures n in At(ReadBack(files), path) <==> FileAdds(files, path, n) {
        NothingLostReports(files, path, n);
      }
    }
  }

  lemma NothingLostReports(files: seq<FileDiff>, path: string, n: int)
    requires AllFair(DiffPieces(files)) && NothingForeign(files) && NothingLost(files)
    requires SomeReal(DiffPieces(files), path, n) <==> FileAdds(files, path, n)
    ensures Reported(DiffPieces(files), path, n) <==> FileAdds(files, path, n)
  {
    hide DiffPieces, FileAdds, Covers, Texts, AllFair;
    var pieces := DiffPieces(files);
    if FileAdds(files, path, n) {
      var k :| 0 <= k < |pieces| && RealAt(pieces[k], path, n);
      if UnderOwnHeader(pieces, k) { RealIsCoveredAs(pieces, k, path, n); }
    }
  }

  // ------------------------------------------------------------------ when headers decide alone

  /** No piece of a changed line reads as a hunk: behind its mark a line can only do so after an inner break. */
  predicate NoHunkInside(files: seq<FileDiff>) {
    forall k :: 0 <= k < |DiffPieces(files)| && DiffPieces(files)[k].kind.Changed? ==>
      HunkOf(DiffPieces(files)[k].line).None?
  }

  /** No header-like piece names another file of the diff: neither a piece of a changed line, nor a header with a tab
      that stands for a file so named. */
  predicate NoOtherHeader(files: seq<FileDiff>) {
    forall k :: 0 <= k < |DiffPieces(files)| ==> Innocent(files, DiffPieces(files)[k])
  }

  predicate Innocent(files: seq<FileDiff>, p: Piece) {
    IsHeader(p.line) && PathOf(p.line).Some? && InDiff(files, PathOf(p.line).value) ==> PathOf(p.line).value == p.path
  }

  predicate DistinctPaths(files: seq<FileDiff>) {
    forall i, j :: 0 <= i < j < |files| ==> files[i].path != files[j].path
  }

  predicate Apart(a: Hunk, b: Hunk) {
    a.start + a.count <= b.start || b.start + b.count <= a.start || a.count == 0 || b.count == 0
  }

  predicate AllApart(hunks: seq<Hunk>) {
    forall i, j :: 0 <= i < j < |hunks| ==> Apart(hunks[i], hunks[j])
  }

  /** The hunks of one file have no line in common. */
  predicate DisjointHunks(files: seq<FileDiff>) {
    forall f :: 0 <= f < |files| ==> AllApart(files[f].hunks)
  }

  predicate Overlap(p: Piece, q: Piece, path: string, n: int) {
    RealAt(p, path, n) && RealAt(q, path, n)
  }

  /** No two of these pieces are hunks of one file with a line in common. */
  ghost predicate NoOverlap(pieces: seq<Piece>) {
    forall k, l, path, n :: 0 <= k < l < |pieces| ==> !Overlap(pieces[k], pieces[l], path, n)
  }

  lemma NoOverlapConcat(a: seq<Piece>, b: seq<Piece>)
    requires NoOverlap(a) && NoOverlap(b)
    requires forall path, n :: !(SomeReal(a, path, n) && SomeReal(b, path, n))
    ensures NoOverlap(a + b)
  {
    hide RealAt;
    forall k, l, path, n | 0 <= k < l < |a + b| ensures !Overlap((a + b)[k], (a + b)[l], path, n) {
      if k < |a| <= l {
        assert (a + b)[k] == a[k] && (a + b)[l] == b[l - |a|];
        assert RealAt(a[k], path, n) ==> SomeReal(a, path, n);
        assert RealAt(b[l - |a|], path, n) ==> SomeReal(b, path, n);
      } else if l < |a| {
        assert (a + b)[k] == a[k] && (a + b)[l] == a[l];
      } else {
        assert (a + b)[k] == b[k - |a|] && (a + b)[l] == b[l - |a|];
      }
    }
  }

  lemma {:induction false} HunksDoNotOverlap(path: string, hunks: seq<Hunk>)
    requires AllApart(hunks)
    ensures NoOverlap(HunksPieces(path, hunks))
  {
    if hunks != [] {
      hide NoOverlap, SomeReal, HunkPieces;
      var front, last := hunks[..|hunks| - 1], hunks[|hunks| - 1];
      HunksDoNotOverlap(path, front);
      assert NoOverlap(HunkPieces(path, last)) by { OneHunkDoesNotOverlap(path, last); }
      forall other, n
        ensures !(SomeReal(HunksPieces(path, front), other, n) && SomeReal(HunkPieces(path, last), other, n))
      {
        HunksAdd(path, front, other, n);
        OneHunkAdds(path, last, other, n);
        assert forall i :: 0 <= i < |front| ==> front[i] == hunks[i] && Apart(hunks[i], hunks[|hunks| - 1]);
      }
      NoOverlapConcat(HunksPieces(path, front), HunkPieces(path, last));
    }
  }

  lemma OneHunkDoesNotOverlap(path: string, h: Hunk)
    ensures NoOverlap(HunkPieces(path, h))
  {
    hide HunkLine, HeadingLines, SplitAll;
  }

  lemma {:induction false} PiecesDoNotOverlap(files: seq<FileDiff>)
    requires DistinctPaths(files) && DisjointHunks(files)
    ensures NoOverlap(DiffPieces(files))
  {
    if files == [] {
      NothingOverlaps([]);
    } else {
      FrontToo(files);
      hide NoOverlap, DiffPieces, DistinctPaths, DisjointHunks;
      PiecesDoNotOverlap(files[..|files| - 1]);
      LastDoesNotOverlap(files);
    }
  }

  lemma LastDoesNotOverlap(files: seq<FileDiff>)
    requires files != [] && DistinctPaths(files) && AllApart(files[|files| - 1].hunks)
    requires NoOverlap(DiffPieces(files[..|files| - 1]))
    ensures NoOverlap(DiffPieces(files))
  {
    var before, last := DiffPieces(files[..|files| - 1]), files[|files| - 1];
    var mine := Preamble(last) + Body(last);
    hide NoOverlap, SomeReal, Body, DistinctPaths, Preamble, DiffPieces, AllApart;
    DiffPiecesSplit(files);
    BodyDoesNotOverlap(last);
    forall path, n ensures !(SomeReal(before, path, n) && SomeReal(mine, path, n)) { NotInLast(files, path, n); }
    NoOverlapConcat(before, mine);
  }

  lemma NotInLast(files: seq<FileDiff>, path: string, n: int)
    requires files != [] && DistinctPaths(files)
    ensures var front, last := files[..|files| - 1], files[|files| - 1];
            !(SomeReal(DiffPieces(front), path, n) && SomeReal(Preamble(last) + Body(last), path, n))
  {
    hide SomeReal, DistinctPaths, Preamble, Body, DiffPieces, FileAdds;
    PiecesAdd(files[..|files| - 1], path, n);
    OwnLines(files[|files| - 1], path, n);
    if FileAdds(files[..|files| - 1], path, n) { NotLast(files, path, n); }
  }

  lemma FrontToo(files: seq<FileDiff>)
    requires files != [] && DistinctPaths(files) && DisjointHunks(files)
    ensures DistinctPaths(files[..|files| - 1]) && DisjointHunks(files[..|files| - 1])
    ensures AllApart(files[|files| - 1].hunks)
  {}

  lemma NotLast(files: seq<FileDiff>, path: string, n: int)
    requires files != [] && DistinctPaths(files) && FileAdds(files[..|files| - 1], path, n)
    ensures path != files[|files| - 1].path
  {}

  lemma OwnLines(f: FileDiff, path: string, n: int)
    ensures SomeReal(Preamble(f) + Body(f), path, n) ==> path == f.path
  {
    hide SomeReal, HunksPieces;
    var header := HeaderPieces(f);
    SomeRealConcat(Preamble(f), Body(f), path, n);
    SomeRealConcat(header, HunksPieces(f.path, f.hunks), path, n);
    HunksAdd(f.path, f.hunks, path, n);
    NoReal(header, path, n);
    NoReal(Preamble(f), path, n);
  }

  lemma BodyDoesNotOverlap(f: FileDiff)
    requires AllApart(f.hunks)
    ensures NoOverlap(Preamble(f) + Body(f))
  {
    var header := HeaderPieces(f);
    HunksDoNotOverlap(f.path, f.hunks);
    NothingOverlaps(Preamble(f) + header);
    hide NoOverlap, SomeReal, HunksPieces;
    forall path, n ensures !SomeReal(Preamble(f) + header, path, n) { NoReal(Preamble(f) + header, path, n); }
    NoOverlapConcat(Preamble(f) + header, HunksPieces(f.path, f.hunks));
    assert Preamble(f) + Body(f) == Preamble(f) + header + HunksPieces(f.path, f.hunks);
  }

  lemma NothingOverlaps(pieces: seq<Piece>)
    requires forall k :: 0 <= k < |pieces| ==> !pieces[k].kind.Real?
    ensures NoOverlap(pieces)
  {}

  /** Without such headers a hunk is read for its own file, for a file that is not in the diff, or for none. */
  lemma HunkIsReadForOwn(files: seq<FileDiff>, k: nat)
    requires QuietPreambles(files) && NoOtherHeader(files) && k < |DiffPieces(files)|
    requires DiffPieces(files)[k].kind.Real?
    ensures var pieces := DiffPieces(files);
            var path := FileAt(Texts(pieces), k);
            path.Some? && InDiff(files, path.value) ==> path.value == pieces[k].path
  {
    var pieces := DiffPieces(files);
    HeaderIsOwn(files, k);
    PiecesAreFair(files);
    TextsLength(pieces);
    var h := HeaderBefore(Texts(pieces), k);
    HeaderIsFair(pieces[h].path);
    hide DiffPieces, HunkOf, Texts;
    assert IsHeader(pieces[h].line) && Innocent(files, pieces[h]);
  }

  /** With no hunk inside a changed line: reading the diff back is right when the last header-like piece before each
      hunk that adds lines names its own file. */
  lemma OwnHeadersSuffice(files: seq<FileDiff>)
    requires QuietPreambles(files) && NoHunkInside(files) && AllUnderOwnHeaders(files)
    ensures ReadRight(files)
  {
    hide DiffPieces, HunkOf, Texts, FileAdds, ReadRight, NoHunkInside, QuietPreambles;
    var pieces := DiffPieces(files);
    TextsLength(pieces);
    ReadRightExactlyWhen(files);
    forall k, path, n | 0 <= k < |pieces| && Covers(HunkOf, Texts(pieces), k, path, n)
      ensures FileAdds(files, path, n)
    {
      OnlyRealIsCovered(files, k, path, n);
      assert AddsLines(pieces[k]) && UnderOwnHeader(pieces, k);
    }
  }

  /** And exactly then, for distinct paths and disjoint hunks, when no header-like piece names another file of the
      diff. */
  lemma OwnHeadersDecide(files: seq<FileDiff>)
    requires QuietPreambles(files) && DistinctPaths(files) && DisjointHunks(files)
    requires NoHunkInside(files) && NoOtherHeader(files)
    ensures ReadRight(files) <==> AllUnderOwnHeaders(files)
  {
    hide DiffPieces, HunkOf, Texts, ReadRight, DistinctPaths, DisjointHunks;
    hide NoHunkInside, NoOtherHeader, QuietPreambles;
    var pieces := DiffPieces(files);
    if ReadRight(files) {
      ReadRightExactlyWhen(files);
      forall k | 0 <= k < |pieces| && AddsLines(pieces[k]) ensures UnderOwnHeader(pieces, k) {
        LostIsNotReported(files, k);
      }
    }
    if AllUnderOwnHeaders(files) { OwnHeadersSuffice(files); }
  }

  /** A hunk that adds a line. */
  predicate AddsLines(p: Piece) {
    p.kind.Real? && p.kind.count > 0
  }

  /** The last header-like piece before each hunk that adds lines names the hunk's own file. */
  predicate AllUnderOwnHeaders(files: seq<FileDiff>) {
    forall k :: 0 <= k < |DiffPieces(files)| && AddsLines(DiffPieces(files)[k]) ==> UnderOwnHeader(DiffPieces(files), k)
  }

  /** Only hunks are read as hunks. */
  lemma OnlyRealIsCovered(files: seq<FileDiff>, k: nat, path: string, n: int)
    requires QuietPreambles(files) && NoHunkInside(files) && k < |DiffPieces(files)|
    requires Covers(HunkOf, Texts(DiffPieces(files)), k, path, n)
    ensures var p := DiffPieces(files)[k]; p.kind.Real? && p.kind.count > 0 && RealAt(p, p.path, n)
    ensures path == DiffPieces(files)[k].path ==> FileAdds(files, path, n)
  {
    var pieces := DiffPieces(files);
    PiecesAreFair(files);
    TextsLength(pieces);
    HeaderIsFair(pieces[k].path);
    hide DiffPieces, HunkOf, Texts, FileAdds;
    assert Fair(pieces[k]);
    if path == pieces[k].path {
      assert SomeReal(pieces, path, n);
      PiecesAdd(files, path, n);
    }
  }

  /** A hunk that is not under its own header loses its first line: only another hunk of its file could report it. */
  lemma LostIsNotReported(files: seq<FileDiff>, k: nat)
    requires QuietPreambles(files) && DistinctPaths(files) && DisjointHunks(files)
    requires NoHunkInside(files) && NoOtherHeader(files)
    requires NothingLost(files)
    requires k < |DiffPieces(files)| && AddsLines(DiffPieces(files)[k])
    ensures UnderOwnHeader(DiffPieces(files), k)
  {
    hide DiffPieces, HunkOf, Texts, QuietPreambles, DistinctPaths, DisjointHunks, NoHunkInside, NoOtherHeader, Covers;
    var pieces := DiffPieces(files);
    var p, n := pieces[k], pieces[k].kind.start;
    assert RealAt(p, p.path, n);
    PiecesDoNotOverlap(files);
    if Reported(pieces, p.path, n) {
      TextsLength(pieces);
      var l :| 0 <= l < |pieces| && Covers(HunkOf, Texts(pieces), l, p.path, n);
      OnlyOwnReports(files, k, l, n);
      OnlyOneHas(pieces, k, l, p.path, n);
    }
  }

  lemma OnlyOneHas(pieces: seq<Piece>, k: nat, l: nat, path: string, n: int)
    requires NoOverlap(pieces) && k < |pieces| && l < |pieces|
    requires RealAt(pieces[k], path, n) && RealAt(pieces[l], path, n)
    ensures k == l
  {
    assert k < l ==> !Overlap(pieces[k], pieces[l], path, n);
    assert l < k ==> !Overlap(pieces[l], pieces[k], path, n);
  }

  /** What is reported for a file of the diff is reported by a hunk of the file, under its own header. */
  lemma OnlyOwnReports(files: seq<FileDiff>, k: nat, l: nat, n: int)
    requires QuietPreambles(files) && NoHunkInside(files) && NoOtherHeader(files)
    requires k < |DiffPieces(files)| && l < |DiffPieces(files)|
    requires |Texts(DiffPieces(files))| == |DiffPieces(files)|
    requires Covers(HunkOf, Texts(DiffPieces(files)), l, DiffPieces(files)[k].path, n)
    ensures RealAt(DiffPieces(files)[l], DiffPieces(files)[k].path, n) && UnderOwnHeader(DiffPieces(files), l)
  {
    hide DiffPieces, HunkOf, Texts, QuietPreambles, NoHunkInside, NoOtherHeader;
    OnlyRealIsCovered(files, l, DiffPieces(files)[k].path, n);
    HunkIsReadForOwn(files, l);
    PiecesOwned(files);
  }

  // ------------------------------------------------------------------ quiet diffs

  /** Every piece of a changed line, and of a heading behind a break, is neither a header nor a hunk. */
  predicate QuietChanges(files: seq<FileDiff>) {
    forall k :: 0 <= k < |DiffPieces(files)| && DiffPieces(files)[k].kind.Changed? ==> Quiet(DiffPieces(files)[k].line)
  }

  /** In a quiet diff each hunk stands under its own file's header, whatever that reads as. */
  lemma QuietHeaders(files: seq<FileDiff>, k: nat)
    requires QuietPreambles(files) && k < |DiffPieces(files)| && DiffPieces(files)[k].kind.Real?
    requires QuietChanges(files)
    ensures FileAt(Texts(DiffPieces(files)), k) == ReadAs(DiffPieces(files)[k].path)
  {
    var pieces := DiffPieces(files);
    HeaderIsOwn(files, k);
    PiecesAreFair(files);
    TextsLength(pieces);
    var h := HeaderBefore(Texts(pieces), k);
    HeaderIsFair(pieces[h].path);
    hide DiffPieces, HunkOf, Texts, HeaderPiece;
    assert Fair(pieces[h]) && IsHeader(pieces[h].line);
  }

  lemma QuietHasNoHunkInside(files: seq<FileDiff>)
    requires QuietChanges(files)
    ensures NoHunkInside(files)
  {}

  /** Some file that is read as `path` adds this line. */
  predicate AddedAs(files: seq<FileDiff>, path: string, n: int) {
    exists i :: 0 <= i < |files| && ReadAs(files[i].path) == Some(path) && FileAdds(files, files[i].path, n)
  }

  lemma FileAddsAs(files: seq<FileDiff>, own: string, path: string, n: int)
    requires FileAdds(files, own, n) && ReadAs(own) == Some(path)
    ensures AddedAs(files, path, n)
  {
    var i :| 0 <= i < |files| && files[i].path == own && Adds(files[i].hunks, n);
    assert files[i].path == own;
  }

  /** What is read of a quiet diff: under each name, the lines of the files whose header reads as that name. */
  lemma QuietDiffReads(files: seq<FileDiff>, path: string, n: int)
    requires QuietPreambles(files) && QuietChanges(files)
    ensures n in At(ReadBack(files), path) <==> AddedAs(files, path, n)
  {
    hide DiffPieces, HunkOf, Texts, FileAdds, ReadBack, NoHunkInside, QuietPreambles, QuietChanges, ReadAs;
    var pieces := DiffPieces(files);
    TextsLength(pieces);
    ReportedIsRead(files, path, n);
    QuietHasNoHunkInside(files);
    if Reported(pieces, path, n) {
      var k :| 0 <= k < |pieces| && Covers(HunkOf, Texts(pieces), k, path, n);
      OnlyRealIsCovered(files, k, path, n);
      QuietHeaders(files, k);
      RealAdds(files, k, n);
      FileAddsAs(files, pieces[k].path, path, n);
    }
    if AddedAs(files, path, n) {
      var i :| 0 <= i < |files| && ReadAs(files[i].path) == Some(path) && FileAdds(files, files[i].path, n);
      PiecesAdd(files, files[i].path, n);
      var k :| 0 <= k < |pieces| && RealAt(pieces[k], files[i].path, n);
      QuietHeaders(files, k);
      PiecesAreFair(files);
      RealIsCoveredAs(pieces, k, path, n);
    }
  }

  lemma RealAdds(files: seq<FileDiff>, k: nat, n: int)
    requires k < |DiffPieces(files)| && RealAt(DiffPieces(files)[k], DiffPieces(files)[k].path, n)
    ensures FileAdds(files, DiffPieces(files)[k].path, n)
  {
    hide DiffPieces, FileAdds;
    PiecesAdd(files, DiffPieces(files)[k].path, n);
  }

  /** The header of each file that adds lines reads as the file's own path. */
  predicate PlainPaths(files: seq<FileDiff>) {
    forall i, j :: 0 <= i < |files| && 0 <= j < |files[i].hunks| && files[i].hunks[j].count > 0 ==> Plain(files[i].path)
  }

  /** A quiet diff is read right exactly when no file that adds lines has a space in its path or a path that is
      quoted. */
  lemma PrintedDiffReads(files: seq<FileDiff>)
    requires QuietPreambles(files) && QuietChanges(files)
    ensures ReadRight(files) <==> PlainPaths(files)
  {
    hide ReadBack, QuietPreambles, QuietChanges, FileAdds, Plain, ReadAs;
    forall path, n ensures n in At(ReadBack(files), path) <==> AddedAs(files, path, n) {
      QuietDiffReads(files, path, n);
    }
    if PlainPaths(files) {
      forall path, n ensures AddedAs(files, path, n) <==> FileAdds(files, path, n) { PlainAddsAs(files, path, n); }
    }
    if ReadRight(files) {
      forall i, j | 0 <= i < |files| && 0 <= j < |files[i].hunks| && files[i].hunks[j].count > 0
        ensures Plain(files[i].path)
      {
        assert FileAdds(files, files[i].path, files[i].hunks[j].start) by { HunkAdds(files, i, j); }
        PlainIsRead(files[i].path);
        ReadUnderOwnName(files, files[i].path, files[i].hunks[j].start);
      }
    }
  }

  lemma HunkAdds(files: seq<FileDiff>, i: nat, j: nat)
    requires i < |files| && j < |files[i].hunks| && files[i].hunks[j].count > 0
    ensures FileAdds(files, files[i].path, files[i].hunks[j].start)
  {
    assert Adds(files[i].hunks, files[i].hunks[j].start);
  }

  lemma PlainAddsAs(files: seq<FileDiff>, path: string, n: int)
    requires PlainPaths(files)
    ensures AddedAs(files, path, n) <==> FileAdds(files, path, n)
  {
    forall own | FileAdds(files, own, n) ensures ReadAs(own) == Some(own) {
      var i :| 0 <= i < |files| && files[i].path == own && Adds(files[i].hunks, n);
      var j :| 0 <= j < |files[i].hunks|
               && files[i].hunks[j].start <= n < files[i].hunks[j].start + files[i].hunks[j].count;
      PlainIsRead(own);
    }
    hide FileAdds, PlainPaths, ReadAs;
    if FileAdds(files, path, n) { FileAddsAs(files, path, path, n); }
  }

  /** If each line is reported for the files that add it alone, no file is read under another name: its lines would have
      to be reported by a third one. */
  lemma ReadUnderOwnName(files: seq<FileDiff>, path: string, n: int)
    requires forall name, m :: AddedAs(files, name, m) <==> FileAdds(files, name, m)
    requires FileAdds(files, path, n)
    ensures ReadAs(path) == Some(path)
  {
    hide FileAdds, ReadAs;
    var i :| 0 <= i < |files| && ReadAs(files[i].path) == Some(path) && FileAdds(files, files[i].path, n);
    var own := files[i].path;
    if own != path {
      var j :| 0 <= j < |files| && ReadAs(files[j].path) == Some(own) && FileAdds(files, files[j].path, n);
      ReadAsTwice(own, path);
    }
  }
}
