// Text as tools/check_english.py reads and writes it: lines, their breaks, and decimal numbers.
module Lines {
  import opened Wrappers

  // ------------------------------------------------------------------ lines

  /** Every character at which `str.splitlines` ends a line. */
  predicate IsBreak(c: char) {
    '\n' <= c <= '\r' || '\U{1C}' <= c <= '\U{1E}' || c == '\U{85}' || c == '\U{2028}' || c == '\U{2029}'
  }

  predicate Unbroken(text: string) {
    forall i :: 0 <= i < |text| ==> !IsBreak(text[i])
  }

  function FirstBreak(text: string): (n: nat)
    ensures n <= |text| && Unbroken(text[..n]) && (n < |text| ==> IsBreak(text[n]))
  {
    if text == [] || IsBreak(text[0]) then 0 else 1 + FirstBreak(text[1..])
  }

  /** `str.splitlines`: a carriage return and line feed end one line together, the last line needs no break. */
  function SplitLines(text: string): seq<string>
    decreases |text|
  {
    var n := FirstBreak(text);
    if text == [] then []
    else if n == |text| then [text]
    else
      [text[..n]] + SplitLines(text[NextLine(text, n)..])
  }

  /** Where the line after the break at `n` begins. */
  function NextLine(text: string, n: nat): (next: nat)
    requires n < |text|
    ensures n < next <= |text|
  {
    if text[n] == '\r' && n + 1 < |text| && text[n + 1] == '\n' then n + 2 else n + 1
  }

  /** Each line followed by a line feed. */
  function Terminated(lines: seq<string>): string {
    if lines == [] then "" else lines[0] + "\n" + Terminated(lines[1..])
  }

  lemma {:induction false} FirstBreakAt(line: string, rest: string)
    requires Unbroken(line)
    ensures FirstBreak(line + "\n" + rest) == |line|
  {
    var text := line + "\n" + rest;
    if line != [] {
      assert text[0] == line[0];
      FirstBreakAt(line[1..], rest);
      assert text[1..] == line[1..] + "\n" + rest;
    }
  }

  lemma SplitFirst(line: string, rest: string)
    requires Unbroken(line)
    ensures SplitLines(line + "\n" + rest) == [line] + SplitLines(rest)
  {
    var text := line + "\n" + rest;
    FirstBreakAt(line, rest);
    assert text[|line|] == '\n';
    assert text[..|line|] == line && text[|line| + 1..] == rest;
  }

  lemma {:induction false} FirstBreakAfter(start: string, rest: string)
    requires Unbroken(start)
    ensures FirstBreak(start + rest) == |start| + FirstBreak(rest)
  {
    if start == "" {
      assert start + rest == rest;
    } else {
      assert (start + rest)[0] == start[0] && (start + rest)[1..] == start[1..] + rest;
      FirstBreakAfter(start[1..], rest);
    }
  }

  lemma SplitStep(text: string)
    requires FirstBreak(text) < |text|
    ensures var n := FirstBreak(text); SplitLines(text) == [text[..n]] + SplitLines(text[NextLine(text, n)..])
  {}

  lemma SliceAfter(start: string, rest: string, n: nat)
    requires n <= |rest|
    ensures (start + rest)[..|start| + n] == start + rest[..n] && (start + rest)[|start| + n..] == rest[n..]
  {}

  lemma SliceWithin(text: string, rest: string, n: nat)
    requires n <= |text|
    ensures (text + rest)[..n] == text[..n] && (text + rest)[n..] == text[n..] + rest
  {}

  lemma NextLineAfter(start: string, rest: string, n: nat)
    requires n < |rest|
    ensures NextLine(start + rest, |start| + n) == |start| + NextLine(rest, n)
  {}

  lemma NextLineWithin(text: string, rest: string, n: nat)
    requires n < |text| && text[|text| - 1] == '\n'
    ensures NextLine(text + rest, n) == NextLine(text, n)
  {}

  /** A start without breaks only lengthens the first line. */
  lemma SplitAfter(start: string, rest: string)
    requires Unbroken(start) && rest != ""
    ensures SplitLines(rest) != []
    ensures SplitLines(start + rest) == [start + SplitLines(rest)[0]] + SplitLines(rest)[1..]
  {
    hide SplitLines, FirstBreak, Unbroken, IsBreak, NextLine;
    FirstBreakAfter(start, rest);
    var n, text := FirstBreak(rest), start + rest;
    SplitLast(rest);
    SplitLast(text);
    if n < |rest| {
      var next := NextLine(rest, n);
      SplitStep(rest);
      SplitStep(text);
      SliceAfter(start, rest, n);
      SliceAfter(start, rest, next);
      NextLineAfter(start, rest, n);
      assert SplitLines(rest) == [rest[..n]] + SplitLines(rest[next..]);
    }
  }

  lemma SplitLast(text: string)
    ensures SplitLines("") == []
    ensures text != "" && FirstBreak(text) == |text| ==> SplitLines(text) == [text]
  {}

  lemma {:induction false} HasBreak(text: string, i: nat)
    requires i < |text| && IsBreak(text[i])
    ensures FirstBreak(text) <= i
  {
    var n := FirstBreak(text);
    assert forall j :: 0 <= j < n ==> text[..n][j] == text[j];
  }

  lemma {:induction false} FirstBreakWithin(text: string, rest: string)
    requires FirstBreak(text) < |text|
    ensures FirstBreak(text + rest) == FirstBreak(text)
  {
    assert (text + rest)[0] == text[0] && (text + rest)[1..] == text[1..] + rest;
    if !IsBreak(text[0]) { FirstBreakWithin(text[1..], rest); }
  }

  /** The lines of a text that ends with a line feed, and then those of what follows. */
  lemma {:induction false} SplitJoins(text: string, rest: string)
    requires text != "" && text[|text| - 1] == '\n'
    ensures SplitLines(text + rest) == SplitLines(text) + SplitLines(rest)
    decreases |text|
  {
    hide SplitLines, FirstBreak, Unbroken, NextLine;
    HasBreak(text, |text| - 1);
    hide IsBreak;
    var n, whole := FirstBreak(text), text + rest;
    FirstBreakWithin(text, rest);
    SplitStep(text);
    SplitStep(whole);
    NextLineWithin(text, rest, n);
    var next := NextLine(text, n);
    SliceWithin(text, rest, n);
    SliceWithin(text, rest, next);
    if next < |text| {
      LastStays(text, next);
      SplitJoins(text[next..], rest);
    } else {
      SplitLast("");
      assert text[next..] == "" && "" + rest == rest;
    }
  }

  lemma LastStays(text: string, next: nat)
    requires next < |text|
    ensures text[next..] != "" && text[next..][|text[next..]| - 1] == text[|text| - 1]
  {}

  /** The lines that printed lines split into: each may break further. */
  function SplitAll(lines: seq<string>): seq<string> {
    if lines == [] then [] else SplitLines(lines[0] + "\n") + SplitAll(lines[1..])
  }

  lemma {:induction false} SplitAllTerminated(lines: seq<string>)
    ensures SplitLines(Terminated(lines)) == SplitAll(lines)
  {
    if lines != [] {
      SplitAllTerminated(lines[1..]);
      SplitJoins(lines[0] + "\n", Terminated(lines[1..]));
    }
  }

  lemma {:induction false} SplitAllConcat(a: seq<string>, b: seq<string>)
    ensures SplitAll(a + b) == SplitAll(a) + SplitAll(b)
  {
    if a == [] {
      assert a + b == b;
    } else {
      assert (a + b)[1..] == a[1..] + b;
      SplitAllConcat(a[1..], b);
    }
  }

  lemma {:induction false} SplitTerminated(lines: seq<string>)
    requires forall i :: 0 <= i < |lines| ==> Unbroken(lines[i])
    ensures SplitLines(Terminated(lines)) == lines
  {
    if lines != [] {
      SplitTerminated(lines[1..]);
      SplitFirst(lines[0], Terminated(lines[1..]));
    }
  }

  lemma {:induction false} SplitUnbroken(text: string)
    ensures forall i :: 0 <= i < |SplitLines(text)| ==> Unbroken(SplitLines(text)[i])
    decreases |text|
  {
    var n := FirstBreak(text);
    if n < |text| {
      SplitUnbroken(text[NextLine(text, n)..]);
    } else {
      assert text[..n] == text;
    }
  }

  /** The characters that end a line. */
  lemma BreaksAre(c: char)
    ensures IsBreak(c) <==> c in "\n\U{0B}\U{0C}\r\U{1C}\U{1D}\U{1E}\U{85}\U{2028}\U{2029}"
  {
    var breaks := "\n\U{0B}\U{0C}\r\U{1C}\U{1D}\U{1E}\U{85}\U{2028}\U{2029}";
    assert breaks[0] == '\n' && breaks[1] == '\U{0B}' && breaks[2] == '\U{0C}' && breaks[3] == '\r';
    assert breaks[4] == '\U{1C}' && breaks[5] == '\U{1D}' && breaks[6] == '\U{1E}';
    assert breaks[7] == '\U{85}' && breaks[8] == '\U{2028}' && breaks[9] == '\U{2029}';
  }

  lemma {:induction false} FirstBreakIs(line: string, rest: string)
    requires Unbroken(line) && (rest == "" || IsBreak(rest[0]))
    ensures FirstBreak(line + rest) == |line|
  {
    FirstBreakAfter(line, rest);
  }

  lemma SplitNone(line: string)
    requires Unbroken(line)
    ensures SplitLines(line) == if line == "" then [] else [line]
  {
    hide SplitLines, FirstBreak, Unbroken;
    FirstBreakIs(line, "");
    assert line + "" == line;
    SplitLast(line);
  }

  lemma SplitBreak(line: string, c: char, rest: string)
    requires Unbroken(line) && IsBreak(c) && !(c == '\r' && rest != "" && rest[0] == '\n')
    ensures SplitLines(line + [c] + rest) == [line] + SplitLines(rest)
  {
    hide SplitLines, FirstBreak, Unbroken;
    var text, after := line + [c] + rest, [c] + rest;
    assert text == line + after;
    FirstBreakIs(line, after);
    hide IsBreak;
    SplitStep(text);
    NextLineAfter(line, after, 0);
    SliceAfter(line, after, 0);
    SliceAfter(line, after, 1);
    assert after[1..] == rest && line + after[..0] == line;
  }

  lemma SplitPair(line: string, rest: string)
    requires Unbroken(line)
    ensures SplitLines(line + "\r\n" + rest) == [line] + SplitLines(rest)
  {
    hide SplitLines, FirstBreak, Unbroken;
    var text, after := line + "\r\n" + rest, "\r\n" + rest;
    assert text == line + after;
    FirstBreakIs(line, after);
    hide IsBreak;
    SplitStep(text);
    NextLineAfter(line, after, 0);
    SliceAfter(line, after, 0);
    SliceAfter(line, after, 2);
    assert after[2..] == rest && line + after[..0] == line;
  }

  /** How any text splits: at its first break, where a carriage return takes a line feed with it. */
  lemma SplitAt(line: string, c: char, rest: string)
    requires Unbroken(line)
    ensures IsBreak(c) && !(c == '\r' && rest != "" && rest[0] == '\n') ==>
              SplitLines(line + [c] + rest) == [line] + SplitLines(rest)
    ensures SplitLines(line + "\r\n" + rest) == [line] + SplitLines(rest)
    ensures SplitLines(line) == if line == "" then [] else [line]
  {
    hide SplitLines, Unbroken, IsBreak;
    if IsBreak(c) && !(c == '\r' && rest != "" && rest[0] == '\n') { SplitBreak(line, c, rest); }
    SplitPair(line, rest);
    SplitNone(line);
  }

  // ------------------------------------------------------------------ the last tab

  /** Where `rpartition("\t")` cuts: the last tab, or -1. */
  function LastTab(line: string): (n: int)
    ensures -1 <= n < |line|
    ensures n >= 0 ==> line[n] == '\t'
    ensures forall i :: n < i < |line| ==> line[i] != '\t'
  {
    if line == [] then -1 else if line[|line| - 1] == '\t' then |line| - 1 else LastTab(line[..|line| - 1])
  }

  // ------------------------------------------------------------------ numbers

  predicate IsDigit(c: char) { '0' <= c <= '9' }

  function Decimal(n: nat): (text: string)
    ensures text != [] && forall i :: 0 <= i < |text| ==> IsDigit(text[i])
  {
    var last := [('0' as int + n % 10) as char];
    if n < 10 then last else Decimal(n / 10) + last
  }

  /** Digits, with single underscores allowed between them. */
  function ParseNat(text: string): Option<int>
    decreases |text|
  {
    if text == [] || !IsDigit(text[|text| - 1]) then None
    else
      var digit := text[|text| - 1] as int - '0' as int;
      var front := text[..|text| - 1];
      if front == [] then Some(digit)
      else match ParseNat(if front[|front| - 1] == '_' then front[..|front| - 1] else front)
        case None => None
        case Some(n) => Some(10 * n + digit)
  }

  predicate IsBlank(c: char) { c == ' ' || c == '\t' || IsBreak(c) }

  function Strip(text: string): string
    decreases |text|
  {
    if text != [] && IsBlank(text[0]) then Strip(text[1..])
    else if text != [] && IsBlank(text[|text| - 1]) then Strip(text[..|text| - 1])
    else text
  }

  /** `int(text)`; `None` stands for its `ValueError`. */
  function ParseInt(text: string): Option<int> {
    var t := Strip(text);
    if t != [] && t[0] == '-' then
      match ParseNat(t[1..])
      case None => None
      case Some(n) => Some(-n)
    else
      match ParseNat(if t != [] && t[0] == '+' then t[1..] else t)
      case None => None
      case Some(n) => Some(n)
  }

  lemma {:induction false} ParseNatDecimal(n: nat)
    ensures ParseNat(Decimal(n)) == Some(n)
  {
    if n >= 10 {
      ParseNatDecimal(n / 10);
      var text := Decimal(n);
      assert text[..|text| - 1] == Decimal(n / 10);
    }
  }

  /** What is printed in decimal reads back. */
  lemma ParseDecimal(n: nat)
    ensures ParseInt(Decimal(n)) == Some(n)
  {
    ParseNatDecimal(n);
    var text := Decimal(n);
    assert IsDigit(text[0]) && IsDigit(text[|text| - 1]);
  }

  lemma DigitIs(d: nat)
    requires d < 10
    ensures "0123456789"[d] == ('0' as int + d) as char
  {}

  /** What is printed are the digits. */
  lemma DecimalDigits(n: nat, d: nat)
    requires d < 10
    ensures Decimal(d) == ["0123456789"[d]]
    ensures n > 0 ==> Decimal(10 * n + d) == Decimal(n) + ["0123456789"[d]]
  {
    DigitIs(d);
    assert (10 * n + d) / 10 == n && (10 * n + d) % 10 == d;
  }

  lemma ParseNatNext(text: string, c: char)
    requires IsDigit(c)
    ensures ParseNat([c]) == Some(c as int - '0' as int)
    ensures ParseNat(text).Some? ==>
              ParseNat(text + [c]) == Some(10 * ParseNat(text).value + (c as int - '0' as int))
  {
    assert [c][..0] == "";
    assert (text + [c])[..|text|] == text;
  }

  lemma ParseNatStep(text: string)
    requires |text| > 1 && IsDigit(text[|text| - 1])
    ensures var digit, front := text[|text| - 1] as int - '0' as int, text[..|text| - 1];
            var before := ParseNat(if front[|front| - 1] == '_' then front[..|front| - 1] else front);
            ParseNat(text) == if before.None? then None else Some(10 * before.value + digit)
  {}

  lemma ParseNatUnder(text: string, c: char)
    requires IsDigit(c) && ParseNat(text).Some?
    ensures ParseNat(text + ['_', c]) == Some(10 * ParseNat(text).value + (c as int - '0' as int))
  {
    hide ParseNat;
    var under, whole := text + ['_'], text + ['_', c];
    ParseNatStep(whole);
    assert whole[..|whole| - 1] == under && whole[|whole| - 1] == c;
    assert under[..|under| - 1] == text && under[|under| - 1] == '_';
  }

  /** How digits read as a number: the last digit counts once, what is before it ten times, and an underscore may stand
      between the two. */
  lemma DigitsRead(text: string, c: char, d: nat)
    requires d < 10 && c == "0123456789"[d]
    ensures ParseNat([c]) == Some(d)
    ensures ParseNat(text).Some? ==> ParseNat(text + [c]) == Some(10 * ParseNat(text).value + d)
    ensures ParseNat(text).Some? ==> ParseNat(text + ['_', c]) == Some(10 * ParseNat(text).value + d)
  {
    DigitIs(d);
    hide ParseNat;
    ParseNatNext(text, c);
    if ParseNat(text).Some? { ParseNatUnder(text, c); }
  }

  /** Any other text is no number: an empty one, or one that ends otherwise. */
  lemma OthersFail(text: string)
    ensures ParseNat("") == None
    ensures text != "" && text[|text| - 1] !in "0123456789" ==> ParseNat(text) == None
  {
    if text != "" && IsDigit(text[|text| - 1]) { DigitIs(text[|text| - 1] as int - '0' as int); }
  }

  lemma Signed(sign: char, digits: string)
    requires sign in "+-" && digits != "" && IsDigit(digits[|digits| - 1])
    ensures var text := [sign] + digits; text[1..] == digits && Strip(text) == text
  {}

  lemma PlainIsStripped(digits: string)
    requires digits != "" && IsDigit(digits[0]) && IsDigit(digits[|digits| - 1])
    ensures Strip(digits) == digits && digits[0] != '-' && digits[0] != '+'
  {}

  /** A sign before the digits counts, and only a minus sign changes the number. */
  lemma SignsRead(digits: string)
    requires digits != "" && IsDigit(digits[0]) && IsDigit(digits[|digits| - 1])
    ensures ParseInt(digits) == ParseNat(digits)
    ensures ParseInt("+" + digits) == ParseNat(digits)
    ensures ParseInt("-" + digits) == if ParseNat(digits).None? then None else Some(-ParseNat(digits).value)
  {
    hide ParseNat, IsBreak, Strip;
    Signed('+', digits);
    Signed('-', digits);
    PlainIsStripped(digits);
  }
}
