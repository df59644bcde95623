// The header git prints for a file of a diff, and how `added_lines` in tools/check_english.py reads it.
module DiffHeaders {
  import opened Wrappers
  import opened Lines
  import opened Diffs
  import Utf8

  // ------------------------------------------------------------------ printing

  /** A character for which a path is printed in quotes: a control character, a quote, a backslash, anything outside
      ASCII. */
  predicate NeedsQuotes(c: char) {
    c < ' ' || c == '"' || c == '\\' || c >= '\U{7F}'
  }

  predicate Quoted(path: string) {
    exists i :: 0 <= i < |path| && NeedsQuotes(path[i])
  }

  function Octal(n: nat): char
    requires n < 8
  {
    ('0' as int + n) as char
  }

  /** A byte of a quoted path, as a C string literal has it. */
  function Escaped(b: Utf8.Byte): (text: string)
    ensures forall i :: 0 <= i < |text| ==> ' ' <= text[i] <= '~'
  {
    if b == 0x07 then "\\a"
    else if b == 0x08 then "\\b"
    else if b == 0x09 then "\\t"
    else if b == 0x0A then "\\n"
    else if b == 0x0B then "\\v"
    else if b == 0x0C then "\\f"
    else if b == 0x0D then "\\r"
    else if b == 0x22 then "\\\""
    else if b == 0x5C then "\\\\"
    else if b < 0x20 || b >= 0x7F then ['\\', Octal(b / 64), Octal(b / 8 % 8), Octal(b % 8)]
    else [b as char]
  }

  function AllEscaped(bytes: seq<Utf8.Byte>): (text: string)
    ensures forall i :: 0 <= i < |text| ==> ' ' <= text[i] <= '~'
  {
    if bytes == [] then "" else Escaped(bytes[0]) + AllEscaped(bytes[1..])
  }

  /** A path with a space is followed by a tab, quoted or not. */
  function HeaderLine(path: string): string {
    "+++ "
    + (if Quoted(path) then "\"" + AllEscaped(Utf8.Encode("b/" + path)) + "\"" else "b/" + path)
    + (if ' ' in path then "\t" else "")
  }

  // ------------------------------------------------------------------ reading

  /** A path whose header reads as itself. */
  predicate Plain(path: string) {
    !Quoted(path) && ' ' !in path
  }

  /** Under which name the lines of a file are reported: a path with a space gets the tab, a quoted one is skipped. */
  function ReadAs(path: string): Option<string> {
    if Quoted(path) then None else if ' ' in path then Some(path + "\t") else Some(path)
  }

  lemma HeaderReads(path: string)
    ensures IsHeader(HeaderLine(path)) && PathOf(HeaderLine(path)) == ReadAs(path)
  {
    var line := HeaderLine(path);
    assert line[..4] == "+++ ";
    if Quoted(path) {
      assert line[4] == '"' && NAMED[4] == 'b';
    } else {
      var end := if ' ' in path then "\t" else "";
      assert HEADER + ("b/" + path) + end == NAMED + (path + end);
      assert line == NAMED + (path + end);
      assert line[..6] == NAMED && line[6..] == path + end;
      assert path + "" == path;
    }
  }

  /** Exactly the plain paths are read back. */
  lemma PlainIsRead(path: string)
    ensures ReadAs(path) == Some(path) <==> Plain(path)
  {
    assert |path + "\t"| == |path| + 1;
  }

  /** No file is reported under the name of one whose lines are reported under another name. */
  lemma ReadAsTwice(path: string, name: string)
    requires ReadAs(path) == Some(name) && name != path
    ensures forall other :: ReadAs(other) == Some(path) ==> false
  {
    forall other | ReadAs(other) == Some(path) ensures false {
      assert ' ' in path;
      assert other != path;
      assert path[|path| - 1] == '\t' && NeedsQuotes('\t');
    }
  }

  lemma PrintableIsUnbroken(text: string)
    requires forall i :: 0 <= i < |text| ==> ' ' <= text[i] <= '~'
    ensures Unbroken(text)
  {}

  /** Every character that would break the header is quoted. */
  lemma HeaderIsUnbroken(path: string)
    ensures Unbroken(HeaderLine(path))
  {
    PrintableIsUnbroken("b/");
    PrintableIsUnbroken("+++ ");
    PrintableIsUnbroken("\"");
    assert Unbroken("\t");
    if Quoted(path) {
      PrintableIsUnbroken(AllEscaped(Utf8.Encode("b/" + path)));
    } else {
      assert forall c: char :: IsBreak(c) ==> NeedsQuotes(c);
      assert Unbroken(path);
    }
    hide IsBreak, AllEscaped;
  }
}
