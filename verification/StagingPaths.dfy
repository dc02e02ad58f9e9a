/** Names of staged files. */
module StagingPaths {
  import opened Uris

  type Path = string

  // The directory of a job under the resolved staging root.
  type Root = p: Path | Absolute(p) witness "/"

  function SlashToUnderscore(s: string): string {
    if s == "" then "" else [if s[0] == '/' then '_' else s[0]] + SlashToUnderscore(s[1..])
  }

  // Removal of "..", left to right.
  function DropDotDot(s: string): string {
    if |s| < 2 then s
    else if s[0] == '.' && s[1] == '.' then DropDotDot(s[2..])
    else [s[0]] + DropDotDot(s[1..])
  }

  function SafeName(name: string): string {
    DropDotDot(SlashToUnderscore(name))
  }

  function ExtractPath(root: Path, name: string): Path {
    root + "/extract/" + SafeName(name) + ".parquet"
  }

  function ComputePath(root: Path, name: string): Path {
    root + "/compute/" + SafeName(name) + ".parquet"
  }

  function TempOf(dest: Path): Path {
    dest + ".tmp"
  }

  // The names under which the compute step stages its tables.
  const PRIMARY := "primary"

  function AuxName(name: string): string {
    "aux_" + name
  }

  // No "/" and no ".." in the name: it is used as it is.
  predicate Plain(name: string) {
    '/' !in name && forall i :: 0 <= i < |name| - 1 ==> !(name[i] == '.' && name[i + 1] == '.')
  }

  lemma {:induction false} SlashToUnderscoreShape(s: string)
    ensures |SlashToUnderscore(s)| == |s|
    ensures '/' !in s ==> SlashToUnderscore(s) == s
  {
    if s != "" {
      SlashToUnderscoreShape(s[1..]);
      assert forall c :: c in s[1..] ==> c in s;
    }
  }

  lemma {:induction false} NoDotDotKept(s: string)
    requires forall i :: 0 <= i < |s| - 1 ==> !(s[i] == '.' && s[i + 1] == '.')
    ensures DropDotDot(s) == s
  {
    if |s| >= 2 {
      assert forall i :: 0 <= i < |s[1..]| ==> s[1..][i] == s[i + 1];
      NoDotDotKept(s[1..]);
    }
  }

  lemma PlainIsSafe(name: string)
    requires Plain(name)
    ensures SafeName(name) == name
  {
    SlashToUnderscoreShape(name);
    NoDotDotKept(name);
  }

  lemma Framed(pre: string, a: string, b: string, post: string)
    requires pre + a + post == pre + b + post
    ensures a == b
  {
    var x, y := pre + a + post, pre + b + post;
    assert |a| == |b|;
    assert a == x[|pre|..|pre| + |a|] && b == y[|pre|..|pre| + |b|];
  }

  lemma SameSuffix(a: string, b: string, post: string)
    requires a + post == b + post
    ensures a == b
  {
    assert a == (a + post)[..|a|] && b == (b + post)[..|b|];
  }

  // Distinct safe names have distinct files.
  lemma PathsFollowNames(root: Path, a: string, b: string)
    ensures ExtractPath(root, a) == ExtractPath(root, b) <==> SafeName(a) == SafeName(b)
    ensures ComputePath(root, a) == ComputePath(root, b) <==> SafeName(a) == SafeName(b)
  {
    if ExtractPath(root, a) == ExtractPath(root, b) { Framed(root + "/extract/", SafeName(a), SafeName(b), ".parquet"); }
    if ComputePath(root, a) == ComputePath(root, b) { Framed(root + "/compute/", SafeName(a), SafeName(b), ".parquet"); }
  }

  // No file of one directory is a file, or the temporary of a file, of the other.
  lemma DirectoriesApart(root: Path, a: string, b: string)
    ensures ExtractPath(root, a) != ComputePath(root, b)
    ensures TempOf(ExtractPath(root, a)) != ComputePath(root, b)
    ensures ExtractPath(root, a) != TempOf(ComputePath(root, b))
  {
    var i := |root| + 1;
    assert ExtractPath(root, a)[i] == 'e' && TempOf(ExtractPath(root, a))[i] == 'e';
    assert ComputePath(root, b)[i] == 'c' && TempOf(ComputePath(root, b))[i] == 'c';
  }

  lemma TempIsNoDestination(root: Path, a: string, b: string)
    ensures TempOf(ExtractPath(root, a)) != ExtractPath(root, b)
    ensures TempOf(ComputePath(root, a)) != ComputePath(root, b)
  {
    var e, f := TempOf(ExtractPath(root, a)), ExtractPath(root, b);
    assert e[|e| - 1] == 'p' && f[|f| - 1] == 't';
    var c, d := TempOf(ComputePath(root, a)), ComputePath(root, b);
    assert c[|c| - 1] == 'p' && d[|d| - 1] == 't';
  }

  lemma PrimaryIsNoAux(name: string)
    ensures SafeName(AuxName(name)) != SafeName(PRIMARY)
  {
    PlainIsSafe(PRIMARY);
    var s := SlashToUnderscore(AuxName(name));
    assert AuxName(name)[0] == 'a';
    assert s[0] == 'a';
    assert DropDotDot(s)[0] == 'a';
  }

  // ---------------------------------------------------------------- where a URI leads

  // The file that is opened for a path handed over as a URI.
  function ReadPath(path: Path): Path {
    LocalPath(AsUri(path))
  }

  // Staged files end in ".parquet", their temporaries do not.
  predicate IsDest(p: Path) {
    p != "" && p[|p| - 1] == 't'
  }

  lemma DestsAndTemps(p: Path)
    ensures !IsDest(TempOf(p))
  {
    assert TempOf(p)[|TempOf(p)| - 1] == 'p';
  }

  lemma {:induction false} DropDotDotKeeps(s: string)
    ensures forall c :: c in DropDotDot(s) ==> c in s
  {
    if |s| >= 2 {
      if s[0] == '.' && s[1] == '.' { DropDotDotKeeps(s[2..]); } else { DropDotDotKeeps(s[1..]); }
    }
  }

  lemma {:induction false} SlashesGone(s: string)
    ensures '/' !in SlashToUnderscore(s)
  {
    if s != "" { SlashesGone(s[1..]); }
  }

  lemma SafeNameIsOneComponent(name: string)
    ensures '/' !in SafeName(name)
  {
    SlashesGone(name);
    DropDotDotKeeps(SlashToUnderscore(name));
  }

  // A path is split at its last slash in one way only.
  lemma OneLastSlash(d: string, n: string, e: string, m: string)
    requires '/' !in n && '/' !in m && d + "/" + n == e + "/" + m
    ensures d == e && n == m
  {
    LastSlashNoLater(d, n, e, m);
    LastSlashNoLater(e, m, d, n);
    var p := d + "/" + n;
    assert d == p[..|d|] && e == p[..|e|] && n == p[|d| + 1..] && m == p[|e| + 1..];
  }

  lemma LastSlashNoLater(d: string, n: string, e: string, m: string)
    requires '/' !in n && d + "/" + n == e + "/" + m
    ensures |e| <= |d|
  {
    var p := d + "/" + n;
    assert forall i :: |d| < i < |p| ==> p[i] in n;
    assert (e + "/" + m)[|e|] == '/';
  }

  lemma CleanConcat(a: string, b: string)
    ensures Clean(a + b) <==> Clean(a) && Clean(b)
  {
    hide Kept;
    assert forall i :: 0 <= i < |a| ==> (a + b)[i] == a[i];
    assert forall i :: 0 <= i < |b| ==> (a + b)[|a| + i] == b[i];
  }

  lemma SuffixIsClean()
    ensures Clean(".parquet")
  {
  }

  // What becomes of a directory and a file name, for `kind` either of the two directories.
  lemma QuotedParts(root: Path, kind: string, name: string)
    requires Clean(kind)
    ensures Quote(root + kind + name + ".parquet") == Quote(root) + kind + Quote(name) + ".parquet"
    ensures Clean(root + kind + name + ".parquet") <==> Clean(root) && Clean(name)
  {
    hide Quote, Clean;
    QuoteOfConcat(root + kind + name, ".parquet");
    QuoteOfConcat(root + kind, name);
    QuoteOfConcat(root, kind);
    SuffixIsClean();
    QuoteUnchangedIffClean(kind);
    QuoteUnchangedIffClean(".parquet");
    CleanConcat(root + kind + name, ".parquet");
    CleanConcat(root + kind, name);
    CleanConcat(root, kind);
  }

  /** The file opened for a staged table: that of the path, quoted. It is the one written if and
      only if all characters of the job's directory and of the safe name are unreserved or slashes. */
  lemma OpenedPath(root: Root, name: string)
    ensures ReadPath(ExtractPath(root, name)) == Quote(root) + "/extract/" + Quote(SafeName(name)) + ".parquet"
    ensures ReadPath(ComputePath(root, name)) == Quote(root) + "/compute/" + Quote(SafeName(name)) + ".parquet"
    ensures Clean(ExtractPath(root, name)) <==> Clean(root) && Clean(SafeName(name))
    ensures Clean(ComputePath(root, name)) <==> Clean(root) && Clean(SafeName(name))
    ensures ReadPath(ExtractPath(root, name)) == ExtractPath(root, name) <==> Clean(root) && Clean(SafeName(name))
    ensures ReadPath(ComputePath(root, name)) == ComputePath(root, name) <==> Clean(root) && Clean(SafeName(name))
  {
    hide SafeName, Quote, LocalPath, AsUri, Kept;
    assert Clean("/extract/") && Clean("/compute/") by {
      assert Kept('/') && Kept('e') && Kept('x') && Kept('t') && Kept('r') && Kept('a') && Kept('c') && Kept('o')
        && Kept('m') && Kept('p') && Kept('u') by { LettersKept(); }
    }
    QuotedParts(root, "/extract/", SafeName(name));
    QuotedParts(root, "/compute/", SafeName(name));
    ReadsQuoted(ExtractPath(root, name));
    ReadsQuoted(ComputePath(root, name));
    UriRoundTripIffClean(ExtractPath(root, name));
    UriRoundTripIffClean(ComputePath(root, name));
  }

  lemma LettersKept()
    ensures Kept('/') && Kept('e') && Kept('x') && Kept('t') && Kept('r') && Kept('a') && Kept('c') && Kept('o')
      && Kept('m') && Kept('p') && Kept('u')
  {
  }

  lemma Regroup(a: string, c: string)
    ensures a + "/extract/" + c + ".parquet" == a + "/extract" + "/" + (c + ".parquet")
    ensures a + "/compute/" + c + ".parquet" == a + "/compute" + "/" + (c + ".parquet")
  {
    assert "/extract/" == "/extract" + "/" && "/compute/" == "/compute" + "/";
  }

  // Both directories' paths, split at the last slash.
  lemma SplitPaths(root: Root, name: string)
    ensures ExtractPath(root, name) == root + "/extract" + "/" + (SafeName(name) + ".parquet")
    ensures ComputePath(root, name) == root + "/compute" + "/" + (SafeName(name) + ".parquet")
    ensures ReadPath(ExtractPath(root, name)) == Quote(root) + "/extract" + "/" + (Quote(SafeName(name)) + ".parquet")
    ensures ReadPath(ComputePath(root, name)) == Quote(root) + "/compute" + "/" + (Quote(SafeName(name)) + ".parquet")
    ensures '/' !in SafeName(name) + ".parquet" && '/' !in Quote(SafeName(name)) + ".parquet"
  {
    hide SafeName, Quote, LocalPath, AsUri;
    OpenedPath(root, name);
    Regroup(root, SafeName(name));
    Regroup(Quote(root), Quote(SafeName(name)));
    SafeNameIsOneComponent(name);
    QuoteCharacters(SafeName(name));
  }

  // If an opened file of one directory is a written one, it is so by directory and by name.
  lemma OpenedIsWritten(root: Root, a: string, b: string)
    ensures ReadPath(ExtractPath(root, a)) == ExtractPath(root, b) <==> Quote(root) == root && Quote(SafeName(a)) == SafeName(b)
    ensures ReadPath(ComputePath(root, a)) == ComputePath(root, b) <==> Quote(root) == root && Quote(SafeName(a)) == SafeName(b)
    ensures ReadPath(ComputePath(root, a)) != ExtractPath(root, b)
    ensures ReadPath(ExtractPath(root, a)) != ComputePath(root, b)
  {
    hide SafeName, Quote, ReadPath, ExtractPath, ComputePath;
    SplitPaths(root, a);
    SplitPaths(root, b);
    var q, n := Quote(SafeName(a)) + ".parquet", SafeName(b) + ".parquet";
    if ReadPath(ExtractPath(root, a)) == ExtractPath(root, b) {
      OneLastSlash(Quote(root) + "/extract", q, root + "/extract", n);
      SameSuffix(Quote(root), root, "/extract");
      SameSuffix(Quote(SafeName(a)), SafeName(b), ".parquet");
    }
    if ReadPath(ComputePath(root, a)) == ComputePath(root, b) {
      OneLastSlash(Quote(root) + "/compute", q, root + "/compute", n);
      SameSuffix(Quote(root), root, "/compute");
      SameSuffix(Quote(SafeName(a)), SafeName(b), ".parquet");
    }
    var d, e := Quote(root) + "/compute", root + "/extract";
    assert d[|d| - 1] == 'e' && e[|e| - 1] == 't';
    if ReadPath(ComputePath(root, a)) == ExtractPath(root, b) { OneLastSlash(d, q, e, n); }
    var x, y := Quote(root) + "/extract", root + "/compute";
    assert x[|x| - 1] == 't' && y[|y| - 1] == 'e';
    if ReadPath(ExtractPath(root, a)) == ComputePath(root, b) { OneLastSlash(x, q, y, n); }
  }

  lemma DestsAreDests(root: Root, name: string)
    ensures IsDest(ExtractPath(root, name)) && IsDest(ComputePath(root, name))
    ensures IsDest(ReadPath(ExtractPath(root, name))) && IsDest(ReadPath(ComputePath(root, name)))
  {
    hide SafeName, Quote, LocalPath, AsUri;
    OpenedPath(root, name);
  }

  // ---------------------------------------------------------------- names the view check accepts

  function WithoutUnderscores(s: string): string {
    if s == "" then "" else (if s[0] == '_' then "" else [s[0]]) + WithoutUnderscores(s[1..])
  }

  // `name.replace("_", "").isalnum()`, for the given notion of alphanumeric character.
  predicate ViewNameOk(alnum: char -> bool, name: string) {
    WithoutUnderscores(name) != "" && forall c :: c in WithoutUnderscores(name) ==> alnum(c)
  }

  lemma {:induction false} KeptCharacters(s: string, c: char)
    requires c in s && c != '_'
    ensures c in WithoutUnderscores(s)
  {
    if s[0] != c { KeptCharacters(s[1..], c); }
  }

  /** Dataset names that the view check accepts have files of their own. */
  lemma AcceptedNamesInjective(alnum: char -> bool, root: Path, a: string, b: string)
    requires !alnum('/') && !alnum('.')
    requires ViewNameOk(alnum, a) && ViewNameOk(alnum, b)
    ensures ExtractPath(root, a) == ExtractPath(root, b) <==> a == b
  {
    forall name | ViewNameOk(alnum, name) ensures SafeName(name) == name {
      if '/' in name { KeptCharacters(name, '/'); }
      if '.' in name { KeptCharacters(name, '.'); }
      PlainIsSafe(name);
    }
    PathsFollowNames(root, a, b);
  }

  /** So do auxiliary names without "/" and "..". */
  lemma PlainAuxInjective(root: Path, a: string, b: string)
    requires Plain(a) && Plain(b)
    ensures ComputePath(root, AuxName(a)) == ComputePath(root, AuxName(b)) <==> a == b
  {
    forall n | Plain(n) ensures SafeName(AuxName(n)) == AuxName(n) {
      assert forall i :: 0 <= i < |n| ==> AuxName(n)[i + 4] == n[i];
      PlainIsSafe(AuxName(n));
    }
    PathsFollowNames(root, AuxName(a), AuxName(b));
    if AuxName(a) == AuxName(b) { assert a == AuxName(a)[4..] == AuxName(b)[4..] == b; }
  }

  // Auxiliary names in general do not.
  lemma AuxNamesCollide(root: Path)
    ensures ComputePath(root, AuxName("a/b")) == ComputePath(root, AuxName("a_b"))
  {
    var s, t := AuxName("a/b"), AuxName("a_b");
    assert s == "aux_a/b" && t == "aux_a_b";
    SlashToUnderscoreShape(t);
    assert SlashToUnderscore("b") == "b";
    assert SlashToUnderscore("/b") == "_b";
    assert SlashToUnderscore("a/b") == "a_b";
    assert s[4..] == "a/b" && s[3..][1..] == s[4..] && s[2..][1..] == s[3..] && s[1..][1..] == s[2..];
    assert SlashToUnderscore(s[3..]) == "_a_b";
    assert SlashToUnderscore(s[2..]) == "x_a_b";
    assert SlashToUnderscore(s[1..]) == "ux_a_b";
    assert SlashToUnderscore(s) == t;
  }

  // A name that the staging directories take as it is, and whose file is looked for elsewhere.
  lemma SpacedNameIsNotFound(root: Root)
    ensures Plain("top 10") && ReadPath(ComputePath(root, AuxName("top 10"))) != ComputePath(root, AuxName("top 10"))
  {
    hide SafeName, ReadPath, ComputePath, Clean;
    assert AuxName("top 10") == "aux_top 10";
    SpaceStays("aux_top 10");
    OpenedPath(root, "aux_top 10");
  }

  lemma SpaceStays(name: string)
    requires name == "aux_top 10"
    ensures !Clean(SafeName(name))
  {
    PlainIsSafe(name);
    assert name[7] == ' ' && !Kept(' ');
  }

  // ---------------------------------------------------------------- names stay in their directory

  lemma {:induction false} NoDotDotLeft(s: string)
    ensures var t := DropDotDot(s);
      && (forall i :: 0 <= i < |t| - 1 ==> !(t[i] == '.' && t[i + 1] == '.'))
      && (t != "" && t[0] == '.' ==> |s| >= 1 && s[0] == '.')
  {
    if |s| >= 2 {
      if s[0] == '.' && s[1] == '.' {
        NoDotDotLeft(s[2..]);
      } else {
        var rest := DropDotDot(s[1..]);
        NoDotDotLeft(s[1..]);
        assert forall i :: 1 <= i < |[s[0]] + rest| ==> ([s[0]] + rest)[i] == rest[i - 1];
      }
    }
  }

  // Removing pairs of dots removes nothing else, and an even number of dots.
  lemma {:induction false} OnlyDotsDropped(s: string, c: char)
    ensures c != '.' ==> Occurrences(DropDotDot(s), c) == Occurrences(s, c)
    ensures (|s| - |DropDotDot(s)|) % 2 == 0
  {
    if |s| >= 2 {
      if s[0] == '.' && s[1] == '.' { OnlyDotsDropped(s[2..], c); } else { OnlyDotsDropped(s[1..], c); }
      assert s[1..][1..] == s[2..];
    }
  }

  function Occurrences(s: string, c: char): nat {
    if s == "" then 0 else (if s[0] == c then 1 else 0) + Occurrences(s[1..], c)
  }

  /** Whatever the name, its file is in the job's directory: what is used of it has no slash and no
      "..", and it has lost nothing but pairs of dots and slashes. */
  lemma SafeNameStaysInside(name: string)
    ensures Plain(SafeName(name))
    ensures forall c :: c != '.' && c != '/' && c != '_' ==> Occurrences(SafeName(name), c) == Occurrences(name, c)
    ensures Occurrences(SafeName(name), '_') == Occurrences(name, '_') + Occurrences(name, '/')
    ensures (|name| - |SafeName(name)|) % 2 == 0
  {
    var t := SlashToUnderscore(name);
    NoDotDotLeft(t);
    SafeNameIsOneComponent(name);
    hide DropDotDot, SlashToUnderscore, Occurrences;
    forall c: char ensures (c != '.' ==> Occurrences(SafeName(name), c) == Occurrences(t, c)) && (|t| - |SafeName(name)|) % 2 == 0 {
      OnlyDotsDropped(t, c);
    }
    SlashToUnderscoreShape(name);
    forall c: char
      ensures Occurrences(t, c) ==
        if c == '/' then 0 else if c == '_' then Occurrences(name, '_') + Occurrences(name, '/') else Occurrences(name, c)
    {
      SlashesCounted(name, c);
    }
  }

  lemma {:induction false} SlashesCounted(s: string, c: char)
    ensures Occurrences(SlashToUnderscore(s), c) ==
      if c == '/' then 0 else if c == '_' then Occurrences(s, '_') + Occurrences(s, '/') else Occurrences(s, c)
  {
    if s != "" { SlashesCounted(s[1..], c); }
  }

  /** The view check accepts a name if and only if it has a character other than the underscore and all
      such characters are alphanumeric. */
  lemma ViewNameOkIff(alnum: char -> bool, name: string)
    ensures ViewNameOk(alnum, name) <==> (exists c :: c in name && c != '_') && forall c :: c in name && c != '_' ==> alnum(c)
  {
    WithoutUnderscoresHas(name);
    if WithoutUnderscores(name) != "" { assert WithoutUnderscores(name)[0] in WithoutUnderscores(name); }
  }

  lemma {:induction false} WithoutUnderscoresHas(s: string)
    ensures forall c :: c in WithoutUnderscores(s) <==> c in s && c != '_'
  {
    if s != "" {
      WithoutUnderscoresHas(s[1..]);
      assert s == [s[0]] + s[1..];
    }
  }
}
