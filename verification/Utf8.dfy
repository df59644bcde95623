// Strict UTF-8, sections 3 and 4 of RFC 3629: what `bytes.decode("utf-8")` accepts and `str.encode("utf-8")` writes.
module Utf8 {
  import opened Wrappers

  type Byte = b: int | 0 <= b < 256

  // ------------------------------------------------------------------ groups of six bits

  function Two(x: int, y: int): int { x * 0x40 + y }

  function Three(x: int, y: int, z: int): int { x * 0x1000 + y * 0x40 + z }

  function Four(x: int, y: int, z: int, w: int): int { x * 0x4_0000 + y * 0x1000 + z * 0x40 + w }

  lemma GroupsOfTwo(x: int, y: int)
    requires 0 <= x && 0 <= y < 0x40
    ensures Two(x, y) / 0x40 == x && Two(x, y) % 0x40 == y
  {}

  lemma GroupsOfThree(x: int, y: int, z: int)
    requires 0 <= x && 0 <= y < 0x40 && 0 <= z < 0x40
    ensures var n := Three(x, y, z); n / 0x1000 == x && n / 0x40 % 0x40 == y && n % 0x40 == z
  {
    assert Three(x, y, z) == Two(Two(x, y), z);
    GroupsOfTwo(Two(x, y), z);
    GroupsOfTwo(x, y);
  }

  lemma GroupsOfFour(x: int, y: int, z: int, w: int)
    requires 0 <= x && 0 <= y < 0x40 && 0 <= z < 0x40 && 0 <= w < 0x40
    ensures var n := Four(x, y, z, w);
            n / 0x4_0000 == x && n / 0x1000 % 0x40 == y && n / 0x40 % 0x40 == z && n % 0x40 == w
  {
    var m := Three(x, y, z);
    assert Four(x, y, z, w) == Two(m, w);
    GroupsOfTwo(m, w);
    GroupsOfThree(x, y, z);
    assert Two(m, w) / 0x1000 == m / 0x40 && Two(m, w) / 0x4_0000 == m / 0x1000;
    GroupsOfTwo(x, y);
    assert m == Two(Two(x, y), z);
    GroupsOfTwo(Two(x, y), z);
  }

  lemma Regroup(n: int)
    requires 0 <= n
    ensures Two(n / 0x40, n % 0x40) == n
    ensures Three(n / 0x1000, n / 0x40 % 0x40, n % 0x40) == n
    ensures Four(n / 0x4_0000, n / 0x1000 % 0x40, n / 0x40 % 0x40, n % 0x40) == n
  {
    var m := n / 0x40;
    var k := m / 0x40;
    assert k == n / 0x1000 && k / 0x40 == n / 0x4_0000;
    assert n == m * 0x40 + n % 0x40 && m == k * 0x40 + m % 0x40 && k == k / 0x40 * 0x40 + k % 0x40;
  }

  // ------------------------------------------------------------------ encoding

  function EncodeChar(c: char): (bytes: seq<Byte>)
    ensures 1 <= |bytes| <= 4
  {
    var n := c as int;
    if n < 0x80 then [n]
    else if n < 0x800 then [0xC0 + n / 0x40, 0x80 + n % 0x40]
    else if n < 0x1_0000 then [0xE0 + n / 0x1000, 0x80 + n / 0x40 % 0x40, 0x80 + n % 0x40]
    else [0xF0 + n / 0x4_0000, 0x80 + n / 0x1000 % 0x40, 0x80 + n / 0x40 % 0x40, 0x80 + n % 0x40]
  }

  function Encode(text: string): seq<Byte> {
    if text == "" then [] else EncodeChar(text[0]) + Encode(text[1..])
  }

  // ------------------------------------------------------------------ decoding

  predicate Tail(b: Byte) { 0x80 <= b < 0xC0 }

  function Bits(b: Byte, mark: int): int { b - mark }

  /** Characters are neither surrogates nor above U+10FFFF. */
  predicate IsScalar(n: int) { 0 <= n < 0xD800 || 0xE000 <= n < 0x11_0000 }

  /** The first character and how many bytes it takes; nothing when the bytes begin no character: overlong forms and
      surrogates are refused. */
  function DecodeFirst(bytes: seq<Byte>): Option<(char, nat)>
    requires bytes != []
  {
    var a := bytes[0];
    if a < 0x80 then Some((a as char, 1))
    else if 0xC2 <= a < 0xE0 && |bytes| >= 2 && Tail(bytes[1]) then
      Some((Two(Bits(a, 0xC0), Bits(bytes[1], 0x80)) as char, 2))
    else if 0xE0 <= a < 0xF0 && |bytes| >= 3 && Tail(bytes[1]) && Tail(bytes[2]) then
      var n := Three(Bits(a, 0xE0), Bits(bytes[1], 0x80), Bits(bytes[2], 0x80));
      if n < 0x800 || !IsScalar(n) then None else Some((n as char, 3))
    else if 0xF0 <= a && |bytes| >= 4 && Tail(bytes[1]) && Tail(bytes[2]) && Tail(bytes[3]) then
      var n := Four(Bits(a, 0xF0), Bits(bytes[1], 0x80), Bits(bytes[2], 0x80), Bits(bytes[3], 0x80));
      if n < 0x1_0000 || !IsScalar(n) then None else Some((n as char, 4))
    else None
  }

  function Decode(bytes: seq<Byte>): Option<string>
    decreases |bytes|
  {
    if bytes == [] then Some("")
    else
      match DecodeFirst(bytes)
      case None => None
      case Some((c, n)) =>
        if n == 0 || n > |bytes| then None
        else match Decode(bytes[n..])
          case None => None
          case Some(rest) => Some([c] + rest)
  }

  // ------------------------------------------------------------------ they undo each other

  lemma FirstReencodes(bytes: seq<Byte>)
    requires bytes != [] && DecodeFirst(bytes).Some?
    ensures var (c, n) := DecodeFirst(bytes).value;
            0 < n <= |bytes| && EncodeChar(c) == bytes[..n]
  {
    var (c, n) := DecodeFirst(bytes).value;
    if n == 2 {
      GroupsOfTwo(Bits(bytes[0], 0xC0), Bits(bytes[1], 0x80));
    } else if n == 3 {
      GroupsOfThree(Bits(bytes[0], 0xE0), Bits(bytes[1], 0x80), Bits(bytes[2], 0x80));
    } else if n == 4 {
      GroupsOfFour(Bits(bytes[0], 0xF0), Bits(bytes[1], 0x80), Bits(bytes[2], 0x80), Bits(bytes[3], 0x80));
    }
  }

  lemma TwoDecode(c: char, bytes: seq<Byte>)
    requires 0x80 <= c as int < 0x800 && EncodeChar(c) <= bytes
    ensures DecodeFirst(bytes) == Some((c, 2))
  {
    var n := c as int;
    assert bytes[0] == 0xC0 + n / 0x40 && bytes[1] == 0x80 + n % 0x40;
    Regroup(n);
    hide Two;
  }

  lemma ThreeDecode(c: char, bytes: seq<Byte>)
    requires 0x800 <= c as int < 0x1_0000 && EncodeChar(c) <= bytes
    ensures DecodeFirst(bytes) == Some((c, 3))
  {
    var n := c as int;
    assert bytes[0] == 0xE0 + n / 0x1000 && bytes[1] == 0x80 + n / 0x40 % 0x40 && bytes[2] == 0x80 + n % 0x40;
    Regroup(n);
    hide Three;
  }

  lemma FourDecode(c: char, bytes: seq<Byte>)
    requires 0x1_0000 <= c as int && EncodeChar(c) <= bytes
    ensures DecodeFirst(bytes) == Some((c, 4))
  {
    var n := c as int;
    assert bytes[0] == 0xF0 + n / 0x4_0000 && bytes[1] == 0x80 + n / 0x1000 % 0x40;
    assert bytes[2] == 0x80 + n / 0x40 % 0x40 && bytes[3] == 0x80 + n % 0x40;
    Regroup(n);
    hide Four;
  }

  lemma FirstDecodes(c: char, rest: seq<Byte>)
    ensures DecodeFirst(EncodeChar(c) + rest) == Some((c, |EncodeChar(c)|))
  {
    var bytes := EncodeChar(c) + rest;
    if c as int < 0x80 {
      assert bytes[0] == c as int;
    } else if c as int < 0x800 {
      TwoDecode(c, bytes);
    } else if c as int < 0x1_0000 {
      ThreeDecode(c, bytes);
    } else {
      FourDecode(c, bytes);
    }
  }

  /** Bytes that decode are the encoding of what they decode to. */
  lemma {:induction false} DecodedEncodes(bytes: seq<Byte>)
    requires Decode(bytes).Some?
    ensures Encode(Decode(bytes).value) == bytes
    decreases |bytes|
  {
    hide DecodeFirst, EncodeChar;
    if bytes != [] {
      FirstReencodes(bytes);
      var (c, n) := DecodeFirst(bytes).value;
      DecodedEncodes(bytes[n..]);
      var text := Decode(bytes).value;
      assert text[0] == c && text[1..] == Decode(bytes[n..]).value;
      assert bytes == bytes[..n] + bytes[n..];
    }
  }

  /** Every text decodes from its encoding. */
  lemma {:induction false} EncodedDecodes(text: string)
    ensures Decode(Encode(text)) == Some(text)
  {
    if text != "" {
      FirstDecodes(text[0], Encode(text[1..]));
      EncodedDecodes(text[1..]);
      var n := |EncodeChar(text[0])|;
      assert Encode(text)[n..] == Encode(text[1..]);
      assert text == [text[0]] + text[1..];
    }
  }

  lemma EncodeInjective(a: string, b: string)
    requires Encode(a) == Encode(b)
    ensures a == b
  {
    EncodedDecodes(a);
    EncodedDecodes(b);
  }

  lemma CharWithoutNul(c: char)
    requires c != '\0'
    ensures 0 !in EncodeChar(c)
  {}

  lemma {:induction false} EncodeWithoutNul(text: string)
    requires '\0' !in text
    ensures 0 !in Encode(text)
  {
    if text != "" {
      CharWithoutNul(text[0]);
      EncodeWithoutNul(text[1..]);
    }
  }

  lemma CharEncodes(c: char)
    ensures Encode([c]) == EncodeChar(c)
  {
    assert [c][1..] == "" && EncodeChar(c) + [] == EncodeChar(c);
  }

  lemma {:induction false} EncodeConcat(a: string, b: string)
    ensures Encode(a + b) == Encode(a) + Encode(b)
  {
    if a == "" {
      assert a + b == b;
    } else {
      assert (a + b)[1..] == a[1..] + b;
      EncodeConcat(a[1..], b);
    }
  }

  lemma FirstEncodes(c: char, rest: string)
    ensures Encode([c] + rest) == EncodeChar(c) + Encode(rest)
  {
    CharEncodes(c);
    EncodeConcat([c], rest);
  }

  /** The examples of section 7 of RFC 3629. */
  lemma SectionSeven()
    ensures Encode("A\U{2262}\U{0391}.") == [0x41, 0xE2, 0x89, 0xA2, 0xCE, 0x91, 0x2E]
    ensures Encode("\U{233B4}") == [0xF0, 0xA3, 0x8E, 0xB4]
  {
    assert EncodeChar('A') == [0x41];
    assert EncodeChar('\U{2262}') == [0xE2, 0x89, 0xA2];
    assert EncodeChar('\U{0391}') == [0xCE, 0x91];
    assert EncodeChar('.') == [0x2E];
    assert EncodeChar('\U{233B4}') == [0xF0, 0xA3, 0x8E, 0xB4];
    hide Encode, EncodeChar;
    CharEncodes('\U{233B4}');
    CharEncodes('.');
    FirstEncodes('\U{0391}', ".");
    FirstEncodes('\U{2262}', "\U{0391}.");
    FirstEncodes('A', "\U{2262}\U{0391}.");
    assert ['\U{0391}'] + "." == "\U{0391}." && ['\U{2262}'] + "\U{0391}." == "\U{2262}\U{0391}.";
    assert ['A'] + "\U{2262}\U{0391}." == "A\U{2262}\U{0391}.";
  }
}
