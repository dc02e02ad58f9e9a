/** What the quoting of a path stands for: percent-decoding of its bytes in UTF-8 gives it back. */
module UriDecoding {
  import opened Uris

  // The characters that section 2.3 of RFC 3986 leaves unreserved, and the slash.
  const LETTERS: set<char> := set c: char | 'a' <= c <= 'z' || 'A' <= c <= 'Z'
  const DIGITS: set<char> := {'0', '1', '2', '3', '4', '5', '6', '7', '8', '9'}
  const MARKS: set<char> := {'-', '.', '_', '~', '/'}

  lemma KeptAreUnreserved(c: char)
    ensures Kept(c) <==> c in LETTERS || c in DIGITS || c in MARKS
  {
  }

  function HexValue(c: char): nat {
    if '0' <= c <= '9' then c as int - '0' as int
    else if 'A' <= c <= 'F' then c as int - 'A' as int + 10
    else 0
  }

  // The byte that a percent sign and two digits stand for.
  function ByteAt(s: string, i: nat): nat
    requires i + 3 <= |s|
  {
    16 * HexValue(s[i + 1]) + HexValue(s[i + 2])
  }

  function ToChar(x: nat): char {
    if x < 0xD800 || 0xE000 <= x < 0x11_0000 then x as char else '?'
  }

  // Of a byte that leads a character of several bytes, and of one that continues it, the lower bits.
  function Unquote(s: string): string {
    if s == "" then ""
    else if s[0] != '%' || |s| < 3 then [s[0]] + Unquote(s[1..])
    else
      var lead := ByteAt(s, 0);
      if lead < 0x80 then [ToChar(lead)] + Unquote(s[3..])
      else if lead < 0xE0 && |s| >= 6 then
        [ToChar(lead % 0x20 * 0x40 + ByteAt(s, 3) % 0x40)] + Unquote(s[6..])
      else if lead < 0xF0 && |s| >= 9 then
        [ToChar(lead % 0x10 * 0x1000 + ByteAt(s, 3) % 0x40 * 0x40 + ByteAt(s, 6) % 0x40)] + Unquote(s[9..])
      else if |s| >= 12 then
        [ToChar(lead % 0x8 * 0x4_0000 + ByteAt(s, 3) % 0x40 * 0x1000 + ByteAt(s, 6) % 0x40 * 0x40 + ByteAt(s, 9) % 0x40)]
        + Unquote(s[12..])
      else [s[0]] + Unquote(s[1..])
  }

  lemma HexRoundTrip(n: nat)
    requires n < 16
    ensures HexValue(HexDigit(n)) == n
  {
  }

  // The escaped byte stands at place `i`.
  predicate EscapedAt(s: string, i: nat, byte: nat)
    requires byte < 256
  {
    i + 3 <= |s| && s[i..i + 3] == Escaped(byte)
  }

  lemma ReadsEscaped(s: string, i: nat, byte: nat)
    requires byte < 256 && EscapedAt(s, i, byte)
    ensures s[i] == '%' && ByteAt(s, i) == byte
  {
    hide HexValue, HexDigit;
    var e := s[i..i + 3];
    assert s[i] == e[0] && s[i + 1] == e[1] && s[i + 2] == e[2];
    HexRoundTrip(byte / 16);
    HexRoundTrip(byte % 16);
  }

  lemma TwoBytes(x: nat)
    requires 0x80 <= x < 0x800
    ensures 0x80 <= 0xC0 + x / 0x40 < 0xE0 && 0x80 + x % 0x40 < 256
    ensures (0xC0 + x / 0x40) % 0x20 * 0x40 + (0x80 + x % 0x40) % 0x40 == x
  {
  }

  lemma ThreeBytes(x: nat)
    requires 0x800 <= x < 0x1_0000
    ensures 0xE0 <= 0xE0 + x / 0x1000 < 0xF0 && 0x80 + x / 0x40 % 0x40 < 256 && 0x80 + x % 0x40 < 256
    ensures (0xE0 + x / 0x1000) % 0x10 * 0x1000 + (0x80 + x / 0x40 % 0x40) % 0x40 * 0x40 + (0x80 + x % 0x40) % 0x40 == x
  {
    assert x / 0x1000 == x / 0x40 / 0x40;
  }

  lemma FourBytes(x: nat)
    requires 0x1_0000 <= x < 0x11_0000
    ensures 0xF0 <= 0xF0 + x / 0x4_0000 < 256 && 0x80 + x / 0x1000 % 0x40 < 256
    ensures 0x80 + x / 0x40 % 0x40 < 256 && 0x80 + x % 0x40 < 256
    ensures (0xF0 + x / 0x4_0000) % 0x8 * 0x4_0000 + (0x80 + x / 0x1000 % 0x40) % 0x40 * 0x1000
          + (0x80 + x / 0x40 % 0x40) % 0x40 * 0x40 + (0x80 + x % 0x40) % 0x40 == x
  {
    assert x / 0x1000 == x / 0x40 / 0x40;
    assert x / 0x4_0000 == x / 0x1000 / 0x40;
  }

  lemma UnquoteShort(c: char, rest: string)
    requires !Kept(c) && c as int < 0x800
    ensures Unquote(EscapedChar(c) + rest) == [c] + Unquote(rest)
  {
    hide Escaped, HexValue, Kept;
    var x, s := c as int, EscapedChar(c) + rest;
    EscapedLengths();
    if x < 0x80 {
      assert EscapedAt(s, 0, x);
      ReadsEscaped(s, 0, x);
      assert s[3..] == rest;
    } else {
      TwoBytes(x);
      assert EscapedAt(s, 0, 0xC0 + x / 0x40) && EscapedAt(s, 3, 0x80 + x % 0x40);
      ReadsEscaped(s, 0, 0xC0 + x / 0x40);
      ReadsEscaped(s, 3, 0x80 + x % 0x40);
      assert s[6..] == rest;
    }
  }

  lemma UnquoteThree(c: char, rest: string)
    requires 0x800 <= c as int < 0x1_0000
    ensures Unquote(EscapedChar(c) + rest) == [c] + Unquote(rest)
  {
    hide Escaped, HexValue, ByteAt;
    var x, s := c as int, EscapedChar(c) + rest;
    EscapedLengths();
    ThreeBytes(x);
    assert EscapedAt(s, 0, 0xE0 + x / 0x1000) && EscapedAt(s, 3, 0x80 + x / 0x40 % 0x40) && EscapedAt(s, 6, 0x80 + x % 0x40);
    ReadsEscaped(s, 0, 0xE0 + x / 0x1000);
    ReadsEscaped(s, 3, 0x80 + x / 0x40 % 0x40);
    ReadsEscaped(s, 6, 0x80 + x % 0x40);
    assert s[9..] == rest;
  }

  lemma UnquoteFour(c: char, rest: string)
    requires 0x1_0000 <= c as int
    ensures Unquote(EscapedChar(c) + rest) == [c] + Unquote(rest)
  {
    hide Escaped, HexValue, ByteAt;
    var x, s := c as int, EscapedChar(c) + rest;
    EscapedLengths();
    FourBytes(x);
    assert EscapedAt(s, 0, 0xF0 + x / 0x4_0000) && EscapedAt(s, 3, 0x80 + x / 0x1000 % 0x40)
      && EscapedAt(s, 6, 0x80 + x / 0x40 % 0x40) && EscapedAt(s, 9, 0x80 + x % 0x40);
    ReadsEscaped(s, 0, 0xF0 + x / 0x4_0000);
    ReadsEscaped(s, 3, 0x80 + x / 0x1000 % 0x40);
    ReadsEscaped(s, 6, 0x80 + x / 0x40 % 0x40);
    ReadsEscaped(s, 9, 0x80 + x % 0x40);
    assert s[12..] == rest;
  }

  lemma UnquoteEscaped(c: char, rest: string)
    requires !Kept(c)
    ensures Unquote(EscapedChar(c) + rest) == [c] + Unquote(rest)
  {
    hide Unquote, EscapedChar, Kept;
    if c as int < 0x800 { UnquoteShort(c, rest); } else if c as int < 0x1_0000 { UnquoteThree(c, rest); } else { UnquoteFour(c, rest); }
  }

  lemma EscapedLengths()
    ensures forall n: nat :: n < 256 ==> |Escaped(n)| == 3
  {
  }

  /** Unquoting inverts quoting, on all texts. */
  lemma {:induction false} UnquoteQuote(s: string)
    ensures Unquote(Quote(s)) == s
  {
    if s != "" {
      UnquoteQuote(s[1..]);
      hide Unquote, Quote, EscapedChar, Kept;
      if Kept(s[0]) { UnquoteKept(s[0], Quote(s[1..])); } else { UnquoteEscaped(s[0], Quote(s[1..])); }
      assert Quote(s) == QuoteChar(s[0]) + Quote(s[1..]) by { QuoteFirst(s); }
      assert s == [s[0]] + s[1..];
    }
  }

  lemma QuoteFirst(s: string)
    requires s != ""
    ensures Quote(s) == QuoteChar(s[0]) + Quote(s[1..])
  {
  }

  lemma UnquoteKept(c: char, rest: string)
    requires Kept(c)
    ensures Unquote([c] + rest) == [c] + Unquote(rest)
  {
    assert ([c] + rest)[1..] == rest;
  }

  /** The path that a file URI stands for is the one it was made of; only the missing unquoting keeps
      `local_path_from_uri` from finding every file. A bare path passes through it. */
  lemma UriStandsForPath(path: string)
    requires Absolute(path)
    ensures Unquote(LocalPath(AsUri(path))) == path
    ensures LocalPath(path) == path
  {
    ReadsQuoted(path);
    UnquoteQuote(path);
  }
}
