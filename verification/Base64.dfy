// Base 64, section 4 of RFC 4648, with padding.
module Base64 {
  import opened Wrappers
  import opened Utf8

  function Letter(n: int): char
    requires 0 <= n < 64
  {
    if n < 26 then ('A' as int + n) as char
    else if n < 52 then ('a' as int + n - 26) as char
    else if n < 62 then ('0' as int + n - 52) as char
    else if n == 62 then '+'
    else '/'
  }

  /** The value of a letter, or -1. */
  function Value(c: char): (n: int)
    ensures -1 <= n < 64
  {
    if 'A' <= c <= 'Z' then c as int - 'A' as int
    else if 'a' <= c <= 'z' then c as int - 'a' as int + 26
    else if '0' <= c <= '9' then c as int - '0' as int + 52
    else if c == '+' then 62
    else if c == '/' then 63
    else -1
  }

  lemma LetterHasValue(n: int)
    requires 0 <= n < 64
    ensures Value(Letter(n)) == n && Letter(n) != '='
  {}

  function Encode(bytes: seq<Byte>): string
    decreases |bytes|
  {
    if bytes == [] then ""
    else if |bytes| == 1 then [Letter(bytes[0] / 4), Letter(bytes[0] % 4 * 16), '=', '=']
    else if |bytes| == 2 then
      [Letter(bytes[0] / 4), Letter(bytes[0] % 4 * 16 + bytes[1] / 16), Letter(bytes[1] % 16 * 4), '=']
    else
      [Letter(bytes[0] / 4), Letter(bytes[0] % 4 * 16 + bytes[1] / 16),
       Letter(bytes[1] % 16 * 4 + bytes[2] / 64), Letter(bytes[2] % 64)] + Encode(bytes[3..])
  }

  /** The bytes of four letters, the last ones perhaps padding. */
  function DecodeFour(a: char, b: char, c: char, d: char): Option<seq<Byte>> {
    var v, w, x, y := Value(a), Value(b), Value(c), Value(d);
    if v < 0 || w < 0 then None
    else if c == '=' && d == '=' then Some([v * 4 + w / 16])
    else if x < 0 then None
    else if d == '=' then Some([v * 4 + w / 16, w % 16 * 16 + x / 4])
    else if y < 0 then None
    else Some([v * 4 + w / 16, w % 16 * 16 + x / 4, x % 4 * 64 + y])
  }

  /** Only the last four letters may be padded. */
  function Decode(text: string): Option<seq<Byte>>
    decreases |text|
  {
    if text == "" then Some([])
    else if |text| < 4 then None
    else
      match DecodeFour(text[0], text[1], text[2], text[3])
      case None => None
      case Some(bytes) =>
        if |text| > 4 && |bytes| < 3 then None
        else match Decode(text[4..])
          case None => None
          case Some(rest) => Some(bytes + rest)
  }

  /** Three bytes as four groups of six bits, and back. */
  lemma Regroup(a: Byte, b: Byte, c: Byte)
    ensures var v, w, x, y := a / 4, a % 4 * 16 + b / 16, b % 16 * 4 + c / 64, c % 64;
            && 0 <= v < 64 && 0 <= w < 64 && 0 <= x < 64 && 0 <= y < 64
            && v * 4 + w / 16 == a && w % 16 * 16 + x / 4 == b && x % 4 * 64 + y == c
  {}

  lemma FourDecode(a: Byte, b: Byte, c: Byte)
    ensures DecodeFour(Letter(a / 4), Letter(a % 4 * 16 + b / 16), Letter(b % 16 * 4 + c / 64), Letter(c % 64)) ==
              Some([a, b, c])
  {
    hide Letter, Value;
    Regroup(a, b, c);
    LetterHasValue(a / 4);
    LetterHasValue(a % 4 * 16 + b / 16);
    LetterHasValue(b % 16 * 4 + c / 64);
    LetterHasValue(c % 64);
  }

  lemma ThreeDecode(a: Byte, b: Byte)
    ensures DecodeFour(Letter(a / 4), Letter(a % 4 * 16 + b / 16), Letter(b % 16 * 4), '=') == Some([a, b])
  {
    hide Letter;
    Regroup(a, b, 0);
    LetterHasValue(a / 4);
    LetterHasValue(a % 4 * 16 + b / 16);
    LetterHasValue(b % 16 * 4);
  }

  lemma TwoDecode(a: Byte)
    ensures DecodeFour(Letter(a / 4), Letter(a % 4 * 16), '=', '=') == Some([a])
  {
    LetterHasValue(a / 4);
    LetterHasValue(a % 4 * 16);
  }

  /** A last group, alone. */
  lemma LastDecodes(text: string, bytes: seq<Byte>)
    requires |text| == 4 && DecodeFour(text[0], text[1], text[2], text[3]) == Some(bytes)
    ensures Decode(text) == Some(bytes)
  {
    assert text[4..] == "";
    assert bytes + [] == bytes;
  }

  lemma GroupDecodes(text: string, rest: string, a: Byte, b: Byte, c: Byte, bytes: seq<Byte>)
    requires |text| == 4 && DecodeFour(text[0], text[1], text[2], text[3]) == Some([a, b, c])
    requires Decode(rest) == Some(bytes)
    ensures Decode(text + rest) == Some([a, b, c] + bytes)
  {
    assert (text + rest)[4..] == rest;
  }

  /** Every byte string decodes from its encoding. */
  lemma {:induction false} RoundTrip(bytes: seq<Byte>)
    ensures Decode(Encode(bytes)) == Some(bytes)
    decreases |bytes|
  {
    hide DecodeFour, Letter, Value;
    if |bytes| == 1 {
      TwoDecode(bytes[0]);
      assert bytes == [bytes[0]];
      LastDecodes(Encode(bytes), bytes);
    } else if |bytes| == 2 {
      ThreeDecode(bytes[0], bytes[1]);
      assert bytes == [bytes[0], bytes[1]];
      LastDecodes(Encode(bytes), bytes);
    } else if bytes != [] {
      FourDecode(bytes[0], bytes[1], bytes[2]);
      RoundTrip(bytes[3..]);
      GroupDecodes(Encode(bytes)[..4], Encode(bytes[3..]), bytes[0], bytes[1], bytes[2], bytes[3..]);
      assert Encode(bytes) == Encode(bytes)[..4] + Encode(bytes[3..]);
      assert bytes == [bytes[0], bytes[1], bytes[2]] + bytes[3..];
    }
  }

  // ------------------------------------------------------------------ the letters

  const CAPITALS := "ABCDEFGHIJKLMNOPQRSTUVWXYZ"
  const SMALL := "abcdefghijklmnopqrstuvwxyz"
  const DIGITS := "0123456789"
  const ALPHABET := CAPITALS + SMALL + DIGITS + "+/"

  type Six = n: int | 0 <= n < 64

  lemma LettersAre(n: Six)
    ensures |ALPHABET| == 64 && Letter(n) == ALPHABET[n]
  {
    assert |CAPITALS + SMALL| == 52 && |CAPITALS + SMALL + DIGITS| == 62;
    if n < 26 {
      assert CAPITALS[n] == ('A' as int + n) as char;
    } else if n < 52 {
      assert SMALL[n - 26] == ('a' as int + n - 26) as char;
    } else if n < 62 {
      assert DIGITS[n - 52] == ('0' as int + n - 52) as char;
    }
  }

  lemma SixBits(high: int, low: int, x: int, y: Six)
    requires 0 <= x && 64 * high + low == 64 * x + y && 0 <= low < 64
    ensures high == x && low == y
  {}

  lemma ThreeGroups(a: Byte, b: Byte, c: Byte, v: Six, w: Six, x: Six, y: Six)
    requires (a * 256 + b) * 256 + c == ((v * 64 + w) * 64 + x) * 64 + y
    ensures a / 4 == v && a % 4 * 16 + b / 16 == w && b % 16 * 4 + c / 64 == x && c % 64 == y
  {
    SixBits((a * 256 + b) * 4 + c / 64, c % 64, (v * 64 + w) * 64 + x, y);
    SixBits(a * 16 + b / 16, b % 16 * 4 + c / 64, v * 64 + w, x);
    SixBits(a / 4, a % 4 * 16 + b / 16, v, w);
  }

  lemma GroupsWritten(a: Byte, b: Byte, c: Byte, v: Six, w: Six, x: Six, y: Six, rest: seq<Byte>)
    requires a / 4 == v && a % 4 * 16 + b / 16 == w && b % 16 * 4 + c / 64 == x && c % 64 == y
    ensures Encode([a, b, c] + rest) == [Letter(v), Letter(w), Letter(x), Letter(y)] + Encode(rest)
  {
    hide Letter;
    var bytes := [a, b, c] + rest;
    assert |bytes| >= 3 && bytes[0] == a && bytes[1] == b && bytes[2] == c && bytes[3..] == rest;
  }

  /** Three bytes are written as the four letters of their twenty-four bits. */
  lemma ThreeBytes(a: Byte, b: Byte, c: Byte, v: Six, w: Six, x: Six, y: Six, rest: seq<Byte>)
    requires (a * 256 + b) * 256 + c == ((v * 64 + w) * 64 + x) * 64 + y
    ensures |ALPHABET| == 64
    ensures Encode([a, b, c] + rest) == [ALPHABET[v], ALPHABET[w], ALPHABET[x], ALPHABET[y]] + Encode(rest)
  {
    hide Letter, Encode;
    ThreeGroups(a, b, c, v, w, x, y);
    GroupsWritten(a, b, c, v, w, x, y, rest);
    LettersAre(v);
    LettersAre(w);
    LettersAre(x);
    LettersAre(y);
  }

  /** Two bytes at the end are filled up with two zero bits and padding. */
  lemma TwoBytes(a: Byte, b: Byte, v: Six, w: Six, x: Six)
    requires (a * 256 + b) * 4 == (v * 64 + w) * 64 + x
    ensures |ALPHABET| == 64 && Encode([a, b]) == [ALPHABET[v], ALPHABET[w], ALPHABET[x], '=']
  {
    ThreeGroups(a, b, 0, v, w, x, 0);
    assert Encode([a, b]) == [Letter(v), Letter(w), Letter(x), '='];
    hide Letter, Encode;
    LettersAre(v);
    LettersAre(w);
    LettersAre(x);
  }

  /** One byte with four zero bits. */
  lemma OneByte(a: Byte, v: Six, w: Six)
    requires a * 16 == v * 64 + w
    ensures |ALPHABET| == 64 && Encode([a]) == [ALPHABET[v], ALPHABET[w], '=', '=']
  {
    SixBits(a / 4, a % 4 * 16, v, w);
    assert Encode([a]) == [Letter(v), Letter(w), '=', '='];
    hide Letter, Encode;
    LettersAre(v);
    LettersAre(w);
  }
}
