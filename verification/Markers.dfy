/** The scan for causal marker phrases: at each position the longest marker that stands on word
    boundaries, from left to right without overlaps. */
module Markers {
  import opened Wrappers
  import opened Sorting
  import opened Spans

  // Lower-casing is taken to keep the length; `alnum` says which characters are alphanumeric.
  datatype Input = Input(text: string, lowered: string, markers: seq<string>, alnum: char -> bool)

  predicate Valid(x: Input) {
    |x.lowered| == |x.text|
  }

  // Indexing the first character of an empty marker raises.
  datatype Failure = IndexError

  predicate LongerFirst(a: string, b: string) {
    |a| >= |b|
  }

  predicate OccursAt(x: Input, i: nat, phrase: string) {
    i + |phrase| <= |x.lowered| && x.lowered[i..i + |phrase|] == phrase
  }

  // Word characters at the ends of the phrase do not continue outside it.
  predicate OnBoundaries(x: Input, i: nat, phrase: string)
    requires phrase != "" && OccursAt(x, i, phrase)
  {
    var before := if i > 0 then x.lowered[i - 1] else ' ';
    var after := if i + |phrase| < |x.lowered| then x.lowered[i + |phrase|] else ' ';
    !(x.alnum(phrase[0]) && x.alnum(before)) && !(x.alnum(phrase[|phrase| - 1]) && x.alnum(after))
  }

  predicate Matches(x: Input, i: nat, phrase: string) {
    phrase != "" && OccursAt(x, i, phrase) && OnBoundaries(x, i, phrase)
  }

  /** A marker matches where the lowered text has it and neither of its ends is in the middle of a word. */
  lemma MatchesOutsideWords(x: Input, i: nat, m: string)
    requires m != "" && !x.alnum(' ')
    ensures Matches(x, i, m) <==>
      && i + |m| <= |x.lowered| && (forall k :: 0 <= k < |m| ==> x.lowered[i + k] == m[k])
      && (i > 0 ==> !(x.alnum(x.lowered[i - 1]) && x.alnum(x.lowered[i])))
      && (i + |m| < |x.lowered| ==> !(x.alnum(x.lowered[i + |m| - 1]) && x.alnum(x.lowered[i + |m|])))
  {
    if i + |m| <= |x.lowered| {
      assert x.lowered[i..i + |m|] == m <==> forall k :: 0 <= k < |m| ==> x.lowered[i + k] == m[k];
    }
  }

  datatype Probe = Hit(phrase: string) | Miss | Crash

  function ProbeAt(x: Input, i: nat, phrases: seq<string>): Probe {
    if phrases == [] then Miss
    else if !OccursAt(x, i, phrases[0]) then ProbeAt(x, i, phrases[1..])
    else if phrases[0] == "" then Crash
    else if OnBoundaries(x, i, phrases[0]) then Hit(phrases[0])
    else ProbeAt(x, i, phrases[1..])
  }

  function SpanAt(x: Input, i: nat, length: nat): EntitySpan
    requires Valid(x) && i + length <= |x.text|
  {
    EntitySpan(x.text[i..i + length], "causal_marker", "rule_based", i, i + length, 1.0, None)
  }

  lemma {:induction false} HitMatches(x: Input, i: nat, phrases: seq<string>)
    ensures var p := ProbeAt(x, i, phrases);
      && (p.Hit? ==> p.phrase in phrases && Matches(x, i, p.phrase))
      && (p.Miss? ==> forall m :: m in phrases ==> !Matches(x, i, m))
      && (p.Crash? ==> "" in phrases)
  {
    if phrases != [] { HitMatches(x, i, phrases[1..]); }
  }

  function ScanFrom(x: Input, phrases: seq<string>, i: nat): Result<seq<EntitySpan>, Failure>
    requires Valid(x) && i <= |x.text|
    decreases |x.text| - i
  {
    if i == |x.text| then Ok([])
    else
      HitMatches(x, i, phrases);
      match ProbeAt(x, i, phrases)
      case Crash => Err(IndexError)
      case Miss => ScanFrom(x, phrases, i + 1)
      case Hit(phrase) =>
        match ScanFrom(x, phrases, i + |phrase|)
        case Err(e) => Err(e)
        case Ok(rest) => Ok([SpanAt(x, i, |phrase|)] + rest)
  }

  function Scan(x: Input): Result<seq<EntitySpan>, Failure>
    requires Valid(x)
  {
    ScanFrom(x, Sort(x.markers, LongerFirst), 0)
  }

  // The inner loop as written, with its test against the spans used so far: a clash ends the
  // search at this position. That it is `ProbeAt`, which has no such test, shows it never fires.
  method TryPosition(x: Input, i: nat, phrases: seq<string>, used: seq<(nat, nat)>) returns (p: Probe)
    requires forall u :: u in used ==> u.1 <= i
    ensures p == ProbeAt(x, i, phrases)
  {
    var k := 0;
    while k < |phrases|
      invariant 0 <= k <= |phrases|
      invariant ProbeAt(x, i, phrases) == ProbeAt(x, i, phrases[k..])
    {
      var phrase := phrases[k];
      assert phrases[k..][0] == phrase && phrases[k..][1..] == phrases[k + 1..];
      k := k + 1;
      if !OccursAt(x, i, phrase) { continue; }
      if phrase == "" { return Crash; }
      if !OnBoundaries(x, i, phrase) { continue; }
      var clash := false;
      for j := 0 to |used|
        invariant !clash
      {
        assert used[j] in used;
        if !(i + |phrase| <= used[j].0 || i >= used[j].1) { clash := true; }
      }
      if clash { return Miss; }
      return Hit(phrase);
    }
    return Miss;
  }

  // The whole scan is what was found so far followed by the scan from position `i`.
  ghost predicate Continues(x: Input, phrases: seq<string>, found: seq<EntitySpan>, i: nat)
    requires Valid(x) && i <= |x.text|
  {
    match ScanFrom(x, phrases, i)
    case Err(e) => ScanFrom(x, phrases, 0) == Err(e)
    case Ok(rest) => ScanFrom(x, phrases, 0) == Ok(found + rest)
  }

  lemma ScanStarts(x: Input, phrases: seq<string>)
    requires Valid(x)
    ensures Continues(x, phrases, [], 0)
  {
    if ScanFrom(x, phrases, 0).Ok? { assert [] + ScanFrom(x, phrases, 0).value == ScanFrom(x, phrases, 0).value; }
  }

  lemma ScanSteps(x: Input, phrases: seq<string>, found: seq<EntitySpan>, i: nat)
    requires Valid(x) && i < |x.text| && Continues(x, phrases, found, i)
    ensures match ProbeAt(x, i, phrases)
      case Crash => ScanFrom(x, phrases, 0) == Err(IndexError)
      case Miss => Continues(x, phrases, found, i + 1)
      case Hit(phrase) =>
        phrase != "" && i + |phrase| <= |x.text| && Continues(x, phrases, found + [SpanAt(x, i, |phrase|)], i + |phrase|)
  {
    HitMatches(x, i, phrases);
    var p := ProbeAt(x, i, phrases);
    if p.Hit? && ScanFrom(x, phrases, i + |p.phrase|).Ok? {
      var rest := ScanFrom(x, phrases, i + |p.phrase|).value;
      var s := SpanAt(x, i, |p.phrase|);
      assert found + ([s] + rest) == (found + [s]) + rest;
    }
  }

  method Extract(x: Input) returns (r: Result<seq<EntitySpan>, Failure>)
    requires Valid(x)
    ensures r == Scan(x)
  {
    if x.text == "" { return Ok([]); }
    var phrases := Sort(x.markers, LongerFirst);
    var found: seq<EntitySpan> := [];
    var used: seq<(nat, nat)> := [];
    var i, n := 0, |x.text|;
    ScanStarts(x, phrases);
    hide Sort, ProbeAt, ScanFrom, Continues;
    while i < n
      invariant 0 <= i <= n
      invariant forall u :: u in used ==> u.1 <= i
      invariant Continues(x, phrases, found, i)
      decreases n - i
    {
      ScanSteps(x, phrases, found, i);
      var p := TryPosition(x, i, phrases, used);
      if p.Crash? { return Err(IndexError); }
      if p.Hit? {
        var pl := |p.phrase|;
        found := found + [SpanAt(x, i, pl)];
        used := used + [(i, i + pl)];
        i := i + pl;
      } else {
        i := i + 1;
      }
    }
    ScanEnds(x, phrases, found);
    return Ok(found);
  }

  lemma ScanEnds(x: Input, phrases: seq<string>, found: seq<EntitySpan>)
    requires Valid(x) && Continues(x, phrases, found, |x.text|)
    ensures ScanFrom(x, phrases, 0) == Ok(found)
  {
    assert found + [] == found;
  }

  // ---------------------------------------------------------------- what the spans are

  // Every span stands where a marker matches and is the longest marker to match there.
  ghost predicate IsLongest(x: Input, s: EntitySpan) {
    && Valid(x) && 0 <= s.charStart < s.charEnd <= |x.text| && s.text == x.text[s.charStart..s.charEnd]
    && s.spanType == "causal_marker" && s.sourceModel == "rule_based" && s.confidence == 1.0 && s.seedAnchor == None
    && (exists m :: m in x.markers && |m| == s.charEnd - s.charStart && Matches(x, s.charStart, m))
    && (forall m :: m in x.markers && Matches(x, s.charStart, m) ==> |m| <= s.charEnd - s.charStart)
  }

  ghost predicate Covers(spans: seq<EntitySpan>, p: int) {
    exists k :: 0 <= k < |spans| && spans[k].charStart <= p < spans[k].charEnd
  }

  lemma {:induction false} HitIsLongest(x: Input, i: nat, phrases: seq<string>)
    requires Sorted(phrases, LongerFirst)
    ensures var p := ProbeAt(x, i, phrases);
      p.Hit? ==> forall m :: m in phrases && Matches(x, i, m) ==> |m| <= |p.phrase|
  {
    if phrases != [] {
      HitIsLongest(x, i, phrases[1..]);
      var p := ProbeAt(x, i, phrases);
      if p == Hit(phrases[0]) && Matches(x, i, phrases[0]) {
        forall m | m in phrases ensures |m| <= |p.phrase| {
          var k :| 0 <= k < |phrases| && phrases[k] == m;
          assert k > 0 ==> LongerFirst(phrases[0], phrases[k]);
        }
      }
    }
  }

  lemma {:induction false} CoversAfter(first: EntitySpan, rest: seq<EntitySpan>, p: int)
    ensures Covers([first] + rest, p) <==> first.charStart <= p < first.charEnd || Covers(rest, p)
  {
    var spans := [first] + rest;
    assert spans[0] == first && forall k :: 0 < k < |spans| ==> spans[k] == rest[k - 1];
    if Covers(rest, p) {
      var k :| 0 <= k < |rest| && rest[k].charStart <= p < rest[k].charEnd;
      assert spans[k + 1] == rest[k];
    }
  }

  ghost predicate InOrderFrom(x: Input, spans: seq<EntitySpan>, i: int) {
    && (forall k :: 0 <= k < |spans| ==> i <= spans[k].charStart && IsLongest(x, spans[k]))
    && (forall k, l :: 0 <= k < l < |spans| ==> spans[k].charEnd <= spans[l].charStart)
  }

  // Every match of a marker from position `i` on starts inside one of the spans.
  ghost predicate AllMatchesCovered(x: Input, spans: seq<EntitySpan>, i: int) {
    forall p: nat, m :: i <= p && m in x.markers && Matches(x, p, m) ==> Covers(spans, p)
  }

  lemma FirstAndRest(x: Input, first: EntitySpan, rest: seq<EntitySpan>, i: int)
    requires first.charStart == i && IsLongest(x, first)
    requires InOrderFrom(x, rest, first.charEnd) && AllMatchesCovered(x, rest, first.charEnd)
    ensures InOrderFrom(x, [first] + rest, i) && AllMatchesCovered(x, [first] + rest, i)
  {
    hide IsLongest, Matches, Covers;
    assert first.charStart <= first.charEnd by { LongestIsOrdered(x, first); }
    var spans := [first] + rest;
    assert forall k :: 0 < k < |spans| ==> spans[k] == rest[k - 1];
    forall p: nat, m | i <= p && m in x.markers && Matches(x, p, m) ensures Covers(spans, p) {
      CoversAfter(first, rest, p);
    }
  }

  lemma LongestIsOrdered(x: Input, s: EntitySpan)
    requires IsLongest(x, s)
    ensures s.charStart < s.charEnd
  {
  }

  lemma HitIsTheSpan(x: Input, i: nat, phrases: seq<string>)
    requires Valid(x) && i <= |x.text| && ProbeAt(x, i, phrases).Hit?
    requires Sorted(phrases, LongerFirst) && forall m :: m in phrases <==> m in x.markers
    ensures var phrase := ProbeAt(x, i, phrases).phrase;
      phrase != "" && i + |phrase| <= |x.text| && IsLongest(x, SpanAt(x, i, |phrase|))
  {
    HitMatches(x, i, phrases);
    HitIsLongest(x, i, phrases);
  }

  lemma {:induction false} ScanFromSpans(x: Input, phrases: seq<string>, i: nat)
    requires Valid(x) && i <= |x.text|
    requires Sorted(phrases, LongerFirst) && forall m :: m in phrases <==> m in x.markers
    ensures ScanFrom(x, phrases, i).Ok? ==>
      InOrderFrom(x, ScanFrom(x, phrases, i).value, i) && AllMatchesCovered(x, ScanFrom(x, phrases, i).value, i)
    decreases |x.text| - i
  {
    hide ProbeAt, IsLongest, Sorted, Matches, OccursAt, Covers;
    if i == |x.text| {
      EndHasNoMatch(x);
    } else {
      HitMatches(x, i, phrases);
      match ProbeAt(x, i, phrases)
      case Crash =>
      case Miss => ScanFromSpans(x, phrases, i + 1);
      case Hit(phrase) =>
        HitIsTheSpan(x, i, phrases);
        ScanFromSpans(x, phrases, i + |phrase|);
        hide InOrderFrom, AllMatchesCovered;
        if ScanFrom(x, phrases, i + |phrase|).Ok? {
          FirstAndRest(x, SpanAt(x, i, |phrase|), ScanFrom(x, phrases, i + |phrase|).value, i);
        }
    }
  }

  lemma EndHasNoMatch(x: Input)
    requires Valid(x)
    ensures AllMatchesCovered(x, [], |x.text|)
  {
  }

  /** The spans found are ordered and disjoint, each is the longest marker matching at its start,
      and every place where some marker matches lies inside one of them. */
  lemma ScanFindsLongestMarkers(x: Input)
    requires Valid(x)
    ensures Scan(x).Ok? ==>
      InOrderFrom(x, Scan(x).value, 0) && AllMatchesCovered(x, Scan(x).value, 0)
  {
    SortSorts(x.markers, LongerFirst);
    SortKeepsElements(x.markers, LongerFirst);
    ScanFromSpans(x, Sort(x.markers, LongerFirst), 0);
  }

  // ---------------------------------------------------------------- the empty marker

  predicate NonEmpty(m: string) {
    m != ""
  }

  lemma {:induction false} OnlyEmpty(phrases: seq<string>)
    requires forall m :: m in phrases ==> m == ""
    ensures Filter(NonEmpty, phrases) == []
  {
    if phrases != [] {
      assert phrases[0] in phrases && forall m :: m in phrases[1..] ==> m in phrases;
      OnlyEmpty(phrases[1..]);
    }
  }

  lemma {:induction false} ProbeWithoutEmpty(x: Input, i: nat, phrases: seq<string>)
    requires Sorted(phrases, LongerFirst) && i <= |x.lowered|
    ensures ProbeAt(x, i, phrases) == match ProbeAt(x, i, Filter(NonEmpty, phrases))
      case Hit(p) => Hit(p)
      case Miss => if "" in phrases then Crash else Miss
      case Crash => Crash
  {
    if phrases != [] {
      ProbeWithoutEmpty(x, i, phrases[1..]);
      if phrases[0] == "" {
        assert forall k :: 0 < k < |phrases| ==> LongerFirst(phrases[0], phrases[k]);
        assert forall m :: m in phrases ==> m == "";
        OnlyEmpty(phrases);
      }
    }
  }

  ghost predicate Tiles(spans: seq<EntitySpan>, i: int, n: int) {
    forall p :: i <= p < n ==> Covers(spans, p)
  }

  lemma TilesAfterHit(first: EntitySpan, rest: seq<EntitySpan>, i: nat, n: nat)
    requires first.charStart == i < first.charEnd <= n
    ensures Tiles([first] + rest, i, n) <==> Tiles(rest, first.charEnd, n)
  {
    forall p ensures Covers([first] + rest, p) <==> i <= p < first.charEnd || Covers(rest, p) { CoversAfter(first, rest, p); }
    hide Covers;
    if Tiles([first] + rest, i, n) {
      forall p | first.charEnd <= p < n ensures Covers(rest, p) { assert Covers([first] + rest, p); }
    }
  }

  lemma NoTilesAfterMiss(spans: seq<EntitySpan>, i: nat, n: nat)
    requires i < n && forall k :: 0 <= k < |spans| ==> i + 1 <= spans[k].charStart
    ensures !Tiles(spans, i, n)
  {
    assert !Covers(spans, i);
  }

  lemma ScanUnfolds(x: Input, phrases: seq<string>, i: nat)
    requires Valid(x) && i < |x.text|
    ensures match ProbeAt(x, i, phrases)
      case Crash => ScanFrom(x, phrases, i) == Err(IndexError)
      case Miss => ScanFrom(x, phrases, i) == ScanFrom(x, phrases, i + 1)
      case Hit(phrase) =>
        && phrase != "" && i + |phrase| <= |x.text|
        && ScanFrom(x, phrases, i) ==
          match ScanFrom(x, phrases, i + |phrase|)
          case Err(e) => Err(e)
          case Ok(rest) => Ok([SpanAt(x, i, |phrase|)] + rest)
  {
    HitMatches(x, i, phrases);
    hide ProbeAt;
  }

  lemma NoEmptyLeft(phrases: seq<string>)
    ensures "" !in Filter(NonEmpty, phrases)
  {
    FilterElements(NonEmpty, phrases);
  }

  lemma {:induction false} ScanWithoutEmpty(x: Input, phrases: seq<string>, i: nat)
    requires Valid(x) && i <= |x.text| && Sorted(phrases, LongerFirst) && "" in phrases
    ensures var some := ScanFrom(x, Filter(NonEmpty, phrases), i);
      && some.Ok?
      && (forall k :: 0 <= k < |some.value| ==> i <= some.value[k].charStart)
      && (ScanFrom(x, phrases, i) == if Tiles(some.value, i, |x.text|) then some else Err(IndexError))
    decreases |x.text| - i
  {
    var fewer := Filter(NonEmpty, phrases);
    NoEmptyLeft(phrases);
    if i < |x.text| {
      HitMatches(x, i, fewer);
      ProbeWithoutEmpty(x, i, phrases);
      ScanUnfolds(x, fewer, i);
      ScanUnfolds(x, phrases, i);
      hide ProbeAt, Filter, Sorted, LongerFirst, NonEmpty, Tiles, ScanFrom;
      match ProbeAt(x, i, fewer)
      case Crash => assert false;
      case Miss =>
        hide Matches;
        ScanWithoutEmpty(x, phrases, i + 1);
        NoTilesAfterMiss(ScanFrom(x, fewer, i).value, i, |x.text|);
      case Hit(phrase) =>
        hide Matches;
        ScanWithoutEmpty(x, phrases, i + |phrase|);
        TilesAfterHit(SpanAt(x, i, |phrase|), ScanFrom(x, fewer, i + |phrase|).value, i, |x.text|);
    }
  }

  /** An empty marker makes the scan raise exactly when the other markers' spans leave some
      character of the text uncovered; without one the scan never raises. */
  lemma RaisesIffEmptyMarkerIsReached(x: Input)
    requires Valid(x)
    ensures var some := Scan(x.(markers := Filter(NonEmpty, x.markers)));
      && some.Ok?
      && Scan(x) == if "" !in x.markers || Tiles(some.value, 0, |x.text|) then some else Err(IndexError)
  {
    var phrases := Sort(x.markers, LongerFirst);
    SortSorts(x.markers, LongerFirst);
    SortKeepsElements(x.markers, LongerFirst);
    FilterSort(NonEmpty, x.markers, LongerFirst);
    SameScan(x, x.(markers := Filter(NonEmpty, x.markers)), Filter(NonEmpty, phrases), 0);
    if "" in x.markers {
      ScanWithoutEmpty(x, phrases, 0);
    } else {
      NothingToFilter(phrases);
      NeverCrashes(x, phrases, 0);
    }
  }

  lemma {:induction false} NothingToFilter(phrases: seq<string>)
    requires "" !in phrases
    ensures Filter(NonEmpty, phrases) == phrases
  {
    if phrases != [] { NothingToFilter(phrases[1..]); }
  }

  lemma {:induction false} NeverCrashes(x: Input, phrases: seq<string>, i: nat)
    requires Valid(x) && i <= |x.text| && "" !in phrases
    ensures ScanFrom(x, phrases, i).Ok?
    decreases |x.text| - i
  {
    if i < |x.text| {
      HitMatches(x, i, phrases);
      match ProbeAt(x, i, phrases)
      case Crash =>
      case Miss => NeverCrashes(x, phrases, i + 1);
      case Hit(phrase) => NeverCrashes(x, phrases, i + |phrase|);
    }
  }

  // The scan looks at the markers only through the sorted list it is given.
  lemma {:induction false} SameProbe(x: Input, y: Input, phrases: seq<string>, i: nat)
    requires x.text == y.text && x.lowered == y.lowered && x.alnum == y.alnum
    ensures ProbeAt(x, i, phrases) == ProbeAt(y, i, phrases)
  {
    if phrases != [] { SameProbe(x, y, phrases[1..], i); }
  }

  lemma {:induction false} SameScan(x: Input, y: Input, phrases: seq<string>, i: nat)
    requires Valid(x) && x.text == y.text && x.lowered == y.lowered && x.alnum == y.alnum && i <= |x.text|
    ensures ScanFrom(x, phrases, i) == ScanFrom(y, phrases, i)
    decreases |x.text| - i
  {
    if i < |x.text| {
      SameProbe(x, y, phrases, i);
      HitMatches(x, i, phrases);
      match ProbeAt(x, i, phrases)
      case Crash =>
      case Miss => SameScan(x, y, phrases, i + 1);
      case Hit(phrase) => SameScan(x, y, phrases, i + |phrase|);
    }
  }
}
