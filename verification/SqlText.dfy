/** Splitting a table body on its top-level commas, and SQL string literals. */
module SqlText {
  import opened Wrappers

  // ---------------------------------------------------------------- top-level commas

  function Delta(c: char): int {
    if c == '(' then 1 else if c == ')' then -1 else 0
  }

  // Opening minus closing parentheses.
  function Depth(s: string): int {
    if s == "" then 0 else Delta(s[0]) + Depth(s[1..])
  }

  // How deep a place is: the opening parentheses before it less the closing ones.
  lemma {:induction false} DepthCounts(s: string)
    ensures Depth(s) + multiset(s)[')'] == multiset(s)['(']
  {
    if s != "" {
      DepthCounts(s[1..]);
      assert s == [s[0]] + s[1..];
    }
  }

  // The fragments still to come, from depth `d` with `buf` collected so far.
  function SplitFrom(body: string, d: int, buf: string): seq<string>
    decreases |body|
  {
    if body == "" then (if buf != "" then [buf] else [])
    else if body[0] == ',' && d == 0 then [buf] + SplitFrom(body[1..], 0, "")
    else SplitFrom(body[1..], d + Delta(body[0]), buf + [body[0]])
  }

  function Split(body: string): seq<string> {
    SplitFrom(body, 0, "")
  }

  method SplitTopLevel(body: string) returns (out: seq<string>)
    ensures out == Split(body)
  {
    out := [];
    var depth := 0;
    var buf := "";
    for i := 0 to |body|
      invariant Split(body) == out + SplitFrom(body[i..], depth, buf)
    {
      var ch := body[i];
      assert body[i..][1..] == body[i + 1..];
      if ch == '(' {
        depth := depth + 1;
        buf := buf + [ch];
      } else if ch == ')' {
        depth := depth - 1;
        buf := buf + [ch];
      } else if ch == ',' && depth == 0 {
        assert out + ([buf] + SplitFrom(body[i + 1..], 0, "")) == (out + [buf]) + SplitFrom(body[i + 1..], 0, "");
        out := out + [buf];
        buf := "";
      } else {
        buf := buf + [ch];
      }
    }
    if buf != "" { out := out + [buf]; }
  }

  function Join(fs: seq<string>): string {
    if fs == [] then "" else if |fs| == 1 then fs[0] else fs[0] + "," + Join(fs[1..])
  }

  // The body ends in a comma outside all parentheses.
  predicate TrailingComma(body: string, d: int) {
    body != "" && body[|body| - 1] == ',' && d + Depth(body[..|body| - 1]) == 0
  }

  lemma TrailingCommaStep(body: string, d: int)
    requires |body| > 1
    ensures TrailingComma(body, d) <==> TrailingComma(body[1..], d + Delta(body[0]))
  {
    assert body[..|body| - 1][1..] == body[1..][..|body| - 2];
  }

  function Tail(body: string, d: int): string {
    if TrailingComma(body, d) then "," else ""
  }

  lemma JoinOneMore(f: string, fs: seq<string>, tail: string)
    requires fs != []
    ensures Join([f] + fs) + tail == f + "," + (Join(fs) + tail)
  {
    assert ([f] + fs)[1..] == fs;
    assert f + "," + Join(fs) + tail == f + "," + (Join(fs) + tail);
  }

  lemma {:induction false} SplitFromJoins(body: string, d: int, buf: string)
    ensures Join(SplitFrom(body, d, buf)) + Tail(body, d) == buf + body
    ensures SplitFrom(body, d, buf) == [] <==> body == "" && buf == ""
    decreases |body|
  {
    if body == "" {
      assert Join(SplitFrom(body, d, buf)) == buf;
    } else {
      var rest := body[1..];
      assert body == [body[0]] + rest;
      if rest == "" { assert body[..0] == ""; } else { TrailingCommaStep(body, d); }
      if body[0] == ',' && d == 0 {
        SplitFromJoins(rest, 0, "");
        assert rest != "" ==> Tail(body, d) == Tail(rest, 0);
        if rest == "" {
          assert SplitFrom(body, d, buf) == [buf] && Tail(body, d) == "," == body;
        } else {
          hide Tail, TrailingComma, Join;
          JoinOneMore(buf, SplitFrom(rest, 0, ""), Tail(rest, 0));
          assert buf + "," + ("" + rest) == buf + body;
        }
      } else {
        assert Tail(body, d) == Tail(rest, d + Delta(body[0]));
        SplitFromJoins(rest, d + Delta(body[0]), buf + [body[0]]);
        assert (buf + [body[0]]) + rest == buf + body;
      }
    }
  }

  /** Joining the fragments with commas restores the body, up to one trailing top-level comma. */
  lemma JoinOfSplit(body: string)
    ensures Join(Split(body)) + Tail(body, 0) == body
  {
    SplitFromJoins(body, 0, "");
    assert "" + body == body;
  }

  // No comma of the fragment lies outside all parentheses.
  predicate NoTopComma(f: string, d: int) {
    f == "" || (!(f[0] == ',' && d == 0) && NoTopComma(f[1..], d + Delta(f[0])))
  }

  predicate Fragments(fs: seq<string>) {
    && (forall i :: 0 <= i < |fs| ==> NoTopComma(fs[i], 0))
    && (forall i :: 0 <= i < |fs| - 1 ==> Depth(fs[i]) == 0)
    && (fs != [] ==> fs[|fs| - 1] != "")
  }

  lemma {:induction false} SplitThrough(f: string, rest: string, d: int, buf: string)
    requires NoTopComma(f, d)
    ensures SplitFrom(f + rest, d, buf) == SplitFrom(rest, d + Depth(f), buf + f)
    decreases |f|
  {
    if f == "" {
      assert f + rest == rest && buf + f == buf;
    } else {
      assert (f + rest)[1..] == f[1..] + rest;
      SplitThrough(f[1..], rest, d + Delta(f[0]), buf + [f[0]]);
      assert (buf + [f[0]]) + f[1..] == buf + f;
    }
  }

  lemma {:induction false} SplitOfJoin(fs: seq<string>)
    requires Fragments(fs)
    ensures Split(Join(fs)) == fs
  {
    if |fs| == 1 {
      SplitThrough(fs[0], "", 0, "");
      assert fs[0] + "" == fs[0] && "" + fs[0] == fs[0];
    } else if |fs| > 1 {
      var tail := "," + Join(fs[1..]);
      SplitThrough(fs[0], tail, 0, "");
      assert fs[0] + "," + Join(fs[1..]) == fs[0] + tail && "" + fs[0] == fs[0];
      assert tail[1..] == Join(fs[1..]);
      SplitOfJoin(fs[1..]);
    }
  }

  lemma {:induction false} NoTopCommaOfAppended(f: string, c: char, d: int)
    requires NoTopComma(f, d) && !(c == ',' && d + Depth(f) == 0)
    ensures NoTopComma(f + [c], d) && Depth(f + [c]) == Depth(f) + Delta(c)
  {
    if f == "" {
      assert f + [c] == [c];
    } else {
      assert (f + [c])[1..] == f[1..] + [c];
      NoTopCommaOfAppended(f[1..], c, d + Delta(f[0]));
    }
  }

  // What every split gives: fragments without top-level commas, all but the last balanced.
  ghost predicate Shaped(fs: seq<string>) {
    && (forall i :: 0 <= i < |fs| ==> NoTopComma(fs[i], 0))
    && (forall i :: 0 <= i < |fs| - 1 ==> Depth(fs[i]) == 0)
  }

  lemma ShapedOneMore(f: string, fs: seq<string>)
    requires NoTopComma(f, 0) && Depth(f) == 0 && Shaped(fs)
    ensures Shaped([f] + fs)
  {
    var all := [f] + fs;
    assert forall i :: 0 < i < |all| ==> all[i] == fs[i - 1];
  }

  lemma {:induction false} SplitFromShape(body: string, buf: string)
    requires NoTopComma(buf, 0)
    ensures Shaped(SplitFrom(body, Depth(buf), buf))
    decreases |body|
  {
    if body != "" {
      if body[0] == ',' && Depth(buf) == 0 {
        SplitFromShape(body[1..], "");
        ShapedOneMore(buf, SplitFrom(body[1..], 0, ""));
      } else {
        NoTopCommaOfAppended(buf, body[0], 0);
        SplitFromShape(body[1..], buf + [body[0]]);
      }
    }
  }

  lemma {:induction false} DepthOfConcat(a: string, b: string)
    ensures Depth(a + b) == Depth(a) + Depth(b)
  {
    if a == "" { assert a + b == b; } else { assert (a + b)[1..] == a[1..] + b; DepthOfConcat(a[1..], b); }
  }

  lemma {:induction false} EmptyLastTrails(fs: seq<string>)
    requires |fs| >= 2 && fs[|fs| - 1] == "" && forall i :: 0 <= i < |fs| - 1 ==> Depth(fs[i]) == 0
    ensures TrailingComma(Join(fs), 0)
  {
    var s := Join(fs);
    if |fs| == 2 {
      assert Join(fs[1..]) == "";
      assert s[..|s| - 1] == fs[0];
    } else {
      EmptyLastTrails(fs[1..]);
      var t := Join(fs[1..]);
      assert s[..|s| - 1] == fs[0] + "," + t[..|t| - 1];
      DepthOfConcat(fs[0] + ",", t[..|t| - 1]);
      DepthOfConcat(fs[0], ",");
    }
  }

  /** Splitting inverts joining on exactly these lists: every fragment free of top-level commas,
      all but the last balanced, and the last not empty. */
  lemma SplitInvertsJoinIff(fs: seq<string>)
    ensures Split(Join(fs)) == fs <==> Fragments(fs)
  {
    if Fragments(fs) {
      SplitOfJoin(fs);
    } else if Split(Join(fs)) == fs {
      SplitFromShape(Join(fs), "");
      assert Shaped(fs);
      JoinOfSplit(Join(fs));
      assert Tail(Join(fs), 0) == "" by { assert |Join(fs) + Tail(Join(fs), 0)| == |Join(fs)|; }
      if fs != [] && fs[|fs| - 1] == "" {
        if |fs| >= 2 { EmptyLastTrails(fs); }
      }
    }
  }

  // ---------------------------------------------------------------- string literals

  function Escape(v: string): string {
    if v == "" then "" else (if v[0] == '\'' then "''" else [v[0]]) + Escape(v[1..])
  }

  function Quoted(v: string): string {
    "'" + Escape(v) + "'"
  }

  // Replacement of doubled quotes by single ones, left to right.
  function Unescape(s: string): string {
    if |s| < 2 then s
    else if s[0] == '\'' && s[1] == '\'' then "'" + Unescape(s[2..])
    else [s[0]] + Unescape(s[1..])
  }

  // A literal's body: characters that are no quotes, and doubled quotes.
  predicate IsBody(b: string) {
    b == "" ||
    (b[0] != '\'' && IsBody(b[1..])) ||
    (|b| >= 2 && b[0] == '\'' && b[1] == '\'' && IsBody(b[2..]))
  }

  // The shortest body that a closing quote and a semicolon follow, and what comes after.
  function ReadBody(t: string): Option<(string, string)> {
    if |t| >= 2 && t[0] == '\'' && t[1] == ';' then Some(("", t[2..]))
    else if t == "" then None
    else if t[0] != '\'' then
      (match ReadBody(t[1..])
       case None => None
       case Some((b, rest)) => Some(([t[0]] + b, rest)))
    else if |t| >= 2 && t[1] == '\'' then
      (match ReadBody(t[2..])
       case None => None
       case Some((b, rest)) => Some(("''" + b, rest)))
    else None
  }

  function ReadLiteral(t: string): Option<(string, string)> {
    if t != "" && t[0] == '\'' then ReadBody(t[1..]) else None
  }

  lemma {:induction false} ReadBodyFinds(b: string, rest: string)
    requires IsBody(b)
    ensures ReadBody(b + "';" + rest) == Some((b, rest))
    decreases |b|
  {
    var t := b + "';" + rest;
    if b == "" {
      assert t == "';" + rest && t[2..] == rest;
    } else if b[0] != '\'' {
      assert t[1..] == b[1..] + "';" + rest;
      ReadBodyFinds(b[1..], rest);
      assert [b[0]] + b[1..] == b;
    } else {
      assert t[2..] == b[2..] + "';" + rest;
      ReadBodyFinds(b[2..], rest);
      assert "''" + b[2..] == b;
    }
  }

  lemma LongerBody(c: char, b: string)
    requires IsBody(b) && c != '\''
    ensures IsBody([c] + b)
  {
    assert ([c] + b)[1..] == b;
  }

  lemma DoubledBody(b: string)
    requires IsBody(b)
    ensures IsBody("''" + b)
  {
    assert ("''" + b)[2..] == b;
  }

  // The text is a body with a quote and a semicolon behind, and then the rest.
  predicate Reads(t: string, b: string, rest: string) {
    IsBody(b) && t == b + "';" + rest
  }

  lemma ReadsLonger(head: string, t: string, b: string, rest: string)
    requires Reads(t, b, rest) && IsBody(head + b)
    ensures Reads(head + t, head + b, rest)
  {
    assert head + t == (head + b) + "';" + rest;
  }

  lemma {:induction false} ReadBodyGives(t: string)
    ensures match ReadBody(t) case None => true case Some((b, rest)) => Reads(t, b, rest)
    decreases |t|
  {
    hide IsBody, Reads;
    if |t| >= 2 && t[0] == '\'' && t[1] == ';' {
      EmptyRead(t);
    } else if t != "" && t[0] != '\'' {
      ReadBodyGives(t[1..]);
      if ReadBody(t[1..]).Some? {
        var (b, rest) := ReadBody(t[1..]).value;
        assert t == [t[0]] + t[1..];
        ReadIsBody(t[1..], b, rest);
        LongerBody(t[0], b);
        ReadsLonger([t[0]], t[1..], b, rest);
      }
    } else if |t| >= 2 && t[1] == '\'' {
      ReadBodyGives(t[2..]);
      if ReadBody(t[2..]).Some? {
        var (b, rest) := ReadBody(t[2..]).value;
        assert t == "''" + t[2..];
        ReadIsBody(t[2..], b, rest);
        DoubledBody(b);
        ReadsLonger("''", t[2..], b, rest);
      }
    }
  }

  lemma ReadIsBody(t: string, b: string, rest: string)
    requires Reads(t, b, rest)
    ensures IsBody(b)
  {
  }

  lemma EmptyRead(t: string)
    requires |t| >= 2 && t[0] == '\'' && t[1] == ';'
    ensures Reads(t, "", t[2..])
  {
    assert t == "" + "';" + t[2..];
  }

  /** The literal pattern reads a body exactly where a well-formed one stands between quotes with a
      semicolon behind; there is at most one. */
  lemma LiteralReadIff(t: string, b: string, rest: string)
    ensures ReadLiteral(t) == Some((b, rest)) <==> IsBody(b) && t == "'" + b + "';" + rest
  {
    if IsBody(b) && t == "'" + b + "';" + rest {
      assert t[1..] == b + "';" + rest;
      ReadBodyFinds(b, rest);
    }
    if ReadLiteral(t) == Some((b, rest)) {
      ReadBodyGives(t[1..]);
      assert t == "'" + t[1..];
    }
  }

  lemma {:induction false} EscapeRoundTrip(v: string)
    ensures IsBody(Escape(v)) && Unescape(Escape(v)) == v
  {
    if v != "" {
      EscapeRoundTrip(v[1..]);
      var e := Escape(v[1..]);
      if v[0] == '\'' {
        assert Escape(v)[2..] == e;
      } else {
        assert Escape(v)[1..] == e;
        if e == "" { assert v[1..] == "" && Escape(v) == [v[0]]; }
      }
    }
  }

  lemma {:induction false} UnescapeRoundTrip(b: string)
    requires IsBody(b)
    ensures Escape(Unescape(b)) == b
    decreases |b|
  {
    if b != "" {
      if b[0] != '\'' {
        UnescapeRoundTrip(b[1..]);
        if |b| == 1 { assert b == [b[0]] && Escape(b) == [b[0]] + Escape(b[1..]); }
        assert Unescape(b) == [b[0]] + Unescape(b[1..]);
        assert ([b[0]] + Unescape(b[1..]))[1..] == Unescape(b[1..]);
      } else {
        UnescapeRoundTrip(b[2..]);
        assert ("'" + Unescape(b[2..]))[1..] == Unescape(b[2..]);
      }
    }
  }

  /** Whatever string is quoted, and whatever follows its statement, reading it back by the literal
      pattern and undoubling its quotes returns it; and every body that can be read is the quoting
      of the string it stands for. */
  lemma QuotingRoundTrips(v: string, b: string, rest: string)
    ensures ReadLiteral(Quoted(v) + ";" + rest) == Some((Escape(v), rest)) && Unescape(Escape(v)) == v
    ensures IsBody(b) ==> Quoted(Unescape(b)) == "'" + b + "'"
  {
    EscapeRoundTrip(v);
    assert Quoted(v) + ";" + rest == "'" + Escape(v) + "';" + rest;
    LiteralReadIff(Quoted(v) + ";" + rest, Escape(v), rest);
    if IsBody(b) { UnescapeRoundTrip(b); }
  }
}
