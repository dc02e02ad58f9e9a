/** File URIs, as `Path.as_uri` makes them and `urlparse` takes them apart. */
module Uris {

  type Uri = string

  // Unreserved characters of section 2.3 of RFC 3986.
  predicate Unreserved(c: char) {
    'a' <= c <= 'z' || 'A' <= c <= 'Z' || '0' <= c <= '9' || c == '_' || c == '.' || c == '-' || c == '~'
  }

  predicate Kept(c: char) {
    Unreserved(c) || c == '/'
  }

  predicate Clean(s: string) {
    forall i :: 0 <= i < |s| ==> Kept(s[i])
  }

  function HexDigit(n: nat): char
    requires n < 16
  {
    if n < 10 then '0' + n as char else 'A' + (n - 10) as char
  }

  function Escaped(byte: nat): string
    requires byte < 256
  {
    ['%', HexDigit(byte / 16), HexDigit(byte % 16)]
  }

  // The bytes of the character in UTF-8, each escaped.
  function EscapedChar(c: char): string {
    var x := c as int;
    if x < 0x80 then Escaped(x)
    else if x < 0x800 then Escaped(0xC0 + x / 0x40) + Escaped(0x80 + x % 0x40)
    else if x < 0x1_0000 then
      Escaped(0xE0 + x / 0x1000) + Escaped(0x80 + x / 0x40 % 0x40) + Escaped(0x80 + x % 0x40)
    else
      Escaped(0xF0 + x / 0x4_0000) + Escaped(0x80 + x / 0x1000 % 0x40) + Escaped(0x80 + x / 0x40 % 0x40)
      + Escaped(0x80 + x % 0x40)
  }

  function QuoteChar(c: char): string {
    if Kept(c) then [c] else EscapedChar(c)
  }

  function Quote(s: string): string {
    if s == "" then "" else QuoteChar(s[0]) + Quote(s[1..])
  }

  function AsUri(path: string): Uri {
    "file://" + Quote(path)
  }

  // What comes before the first character that is one of `stops`.
  function Upto(s: string, stops: set<char>): string {
    if s == "" || s[0] in stops then "" else [s[0]] + Upto(s[1..], stops)
  }

  lemma {:induction false} UptoIsPrefix(s: string, stops: set<char>)
    ensures |Upto(s, stops)| <= |s| && Upto(s, stops) == s[..|Upto(s, stops)|]
    ensures (forall i :: 0 <= i < |s| ==> s[i] !in stops) ==> Upto(s, stops) == s
  {
    if s != "" && s[0] !in stops {
      UptoIsPrefix(s[1..], stops);
      assert forall i :: 0 <= i < |s[1..]| ==> s[1..][i] == s[i + 1];
    }
  }

  // The rest of a URI behind its scheme: an authority if "//" starts it, a path, a query, a fragment.
  function PathPart(rest: string): string {
    var path :=
      if "//" <= rest then
        UptoIsPrefix(rest[2..], {'/', '?', '#'});
        rest[2 + |Upto(rest[2..], {'/', '?', '#'})|..]
      else rest;
    Upto(Upto(path, {'#'}), {'?'})
  }

  // `local_path_from_uri`: the path of a file URI, as it stands; other URIs pass through.
  function LocalPath(uri: Uri): string {
    if "file:" <= uri then PathPart(uri[5..]) else uri
  }

  // ---------------------------------------------------------------- quoting

  lemma QuoteCharShape(c: char)
    ensures Kept(c) ==> QuoteChar(c) == [c]
    ensures !Kept(c) ==> |QuoteChar(c)| >= 3 && QuoteChar(c)[0] == '%'
    ensures forall i :: 0 <= i < |QuoteChar(c)| ==> Kept(QuoteChar(c)[i]) || QuoteChar(c)[i] == '%'
    ensures forall i :: 0 <= i < |QuoteChar(c)| && QuoteChar(c)[i] == '/' ==> c == '/'
  {
    hide Kept;
    forall n: nat | n < 256
      ensures forall i :: 0 <= i < |Escaped(n)| ==> (Kept(Escaped(n)[i]) || Escaped(n)[i] == '%') && Escaped(n)[i] != '/'
    {
      DigitsAreKept(n / 16);
      DigitsAreKept(n % 16);
    }
  }

  lemma DigitsAreKept(n: nat)
    requires n < 16
    ensures Kept(HexDigit(n)) && HexDigit(n) != '/'
  {
  }

  /** A path is its own quoting exactly if all its characters are kept; any other one gets longer,
      and its quoting is again one that quoting changes. */
  lemma {:induction false} QuoteUnchangedIffClean(s: string)
    ensures Clean(s) ==> Quote(s) == s
    ensures !Clean(s) ==> |Quote(s)| > |s| && !Clean(Quote(s)) && '%' in Quote(s)
    ensures |Quote(s)| >= |s|
  {
    if s != "" {
      var head, rest := QuoteChar(s[0]), s[1..];
      QuoteUnchangedIffClean(rest);
      QuoteCharShape(s[0]);
      hide Kept, QuoteChar;
      assert Clean(s) <==> Kept(s[0]) && Clean(rest) by {
        assert forall i :: 0 <= i < |rest| ==> rest[i] == s[i + 1];
      }
      assert Quote(s) == head + Quote(rest);
      if !Clean(s) {
        assert exists i :: 0 <= i < |Quote(s)| && Quote(s)[i] == '%' by {
          if !Kept(s[0]) {
            assert Quote(s)[0] == '%';
          } else {
            var i :| 0 <= i < |Quote(rest)| && Quote(rest)[i] == '%';
            assert Quote(s)[|head| + i] == '%';
          }
        }
        PercentIsNotKept();
      }
    }
  }

  lemma PercentIsNotKept()
    ensures !Kept('%')
  {
  }

  lemma {:induction false} QuoteOfConcat(a: string, b: string)
    ensures Quote(a + b) == Quote(a) + Quote(b)
  {
    hide QuoteChar;
    if a == "" {
      assert a + b == b;
    } else {
      assert (a + b)[1..] == a[1..] + b;
      QuoteOfConcat(a[1..], b);
    }
  }

  lemma {:induction false} QuoteCharacters(s: string)
    ensures forall i :: 0 <= i < |Quote(s)| ==> Kept(Quote(s)[i]) || Quote(s)[i] == '%'
    ensures '/' !in s ==> '/' !in Quote(s)
  {
    hide Kept, QuoteChar;
    if s != "" {
      QuoteCharacters(s[1..]);
      QuoteCharShape(s[0]);
      assert forall i :: 0 <= i < |s[1..]| ==> s[1..][i] == s[i + 1];
    }
  }

  predicate Absolute(path: string) {
    path != "" && path[0] == '/'
  }

  lemma QuotedShape(path: string)
    requires Absolute(path)
    ensures Absolute(Quote(path))
    ensures forall i :: 0 <= i < |Quote(path)| ==> Quote(path)[i] != '?' && Quote(path)[i] != '#'
  {
    QuoteCharacters(path);
    assert !Kept('?') && !Kept('#');
    hide Kept;
    assert Quote(path) == QuoteChar('/') + Quote(path[1..]);
    QuoteCharShape('/');
  }

  // With an empty authority, and neither query nor fragment, the path is all of it.
  lemma PathPartOf(q: string)
    requires Absolute(q) && forall i :: 0 <= i < |q| ==> q[i] != '?' && q[i] != '#'
    ensures PathPart("//" + q) == q
  {
    var rest := "//" + q;
    assert rest[2..] == q && "//" <= rest;
    assert Upto(q, {'/', '?', '#'}) == "";
    UptoIsPrefix(q, {'#'});
    UptoIsPrefix(q, {'?'});
  }

  // A file URI gives back the quoted path: nothing undoes the quoting.
  lemma ReadsQuoted(path: string)
    requires Absolute(path)
    ensures LocalPath(AsUri(path)) == Quote(path)
  {
    hide Quote, PathPart;
    var q := Quote(path);
    QuotedShape(path);
    PathPartOf(q);
    assert AsUri(path)[5..] == "//" + q;
    assert AsUri(path)[..5] == "file:";
  }

  /** A file written to a path is looked for at that path, through its URI, if and only if every
      character of the path is unreserved or a slash. */
  lemma UriRoundTripIffClean(path: string)
    requires Absolute(path)
    ensures LocalPath(AsUri(path)) == path <==> Clean(path)
  {
    ReadsQuoted(path);
    QuoteUnchangedIffClean(path);
  }
}
