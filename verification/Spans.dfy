/** Resolving overlaps between typed spans: greedy by score. */
module Spans {
  import opened Wrappers
  import opened Sorting

  datatype EntitySpan = EntitySpan(
    text: string, spanType: string, sourceModel: string, charStart: int, charEnd: int,
    confidence: real, seedAnchor: Option<string>)

  const TYPE_SPECIFICITY: map<string, real> := map[
    "causal_marker" := 120.0, "quantitative_claim" := 95.0, "concept" := 85.0, "attribute" := 82.0,
    "event" := 80.0, "actor_role" := 78.0, "policy_reference" := 76.0, "temporal_qualifier" := 74.0,
    "entity_name" := 72.0, "PERSON" := 55.0, "ORG" := 55.0, "GPE" := 52.0, "DATE" := 50.0,
    "MONEY" := 50.0, "CARDINAL" := 45.0, "PROPER_NOUN" := 40.0]

  function Score(s: EntitySpan): real {
    (if s.spanType in TYPE_SPECIFICITY then TYPE_SPECIFICITY[s.spanType] else 60.0) + s.confidence
  }

  // Higher score first, then earlier start, then earlier end.
  predicate ByScore(a: EntitySpan, b: EntitySpan) {
    var x, y := Score(a), Score(b);
    x > y || (x == y && (a.charStart < b.charStart || (a.charStart == b.charStart && a.charEnd <= b.charEnd)))
  }

  predicate ByStart(a: EntitySpan, b: EntitySpan) {
    a.charStart <= b.charStart
  }

  predicate Overlaps(a: EntitySpan, b: EntitySpan) {
    !(a.charEnd <= b.charStart || a.charStart >= b.charEnd)
  }

  predicate Clashes(span: EntitySpan, kept: seq<EntitySpan>) {
    exists i :: 0 <= i < |kept| && Overlaps(span, kept[i])
  }

  // Keep each span, in order, that overlaps nothing kept before it.
  function Greedy(ordered: seq<EntitySpan>): seq<EntitySpan> {
    if ordered == [] then []
    else
      var kept, span := Greedy(ordered[..|ordered| - 1]), ordered[|ordered| - 1];
      if Clashes(span, kept) then kept else kept + [span]
  }

  function Merge(spans: seq<EntitySpan>): seq<EntitySpan> {
    Sort(Greedy(Sort(spans, ByScore)), ByStart)
  }

  method MergeEntitySpans(spans: seq<EntitySpan>) returns (merged: seq<EntitySpan>)
    ensures merged == Merge(spans)
  {
    if spans == [] { return []; }
    var ordered := Sort(spans, ByScore);
    var kept: seq<EntitySpan> := [];
    for i := 0 to |ordered|
      invariant kept == Greedy(ordered[..i])
    {
      assert ordered[..i + 1][..i] == ordered[..i];
      var clash := false;
      for k := 0 to |kept|
        invariant clash <==> exists j :: 0 <= j < k && Overlaps(ordered[i], kept[j])
      {
        if Overlaps(ordered[i], kept[k]) { clash := true; }
      }
      if !clash { kept := kept + [ordered[i]]; }
    }
    assert ordered[..|ordered|] == ordered;
    merged := Sort(kept, ByStart);
  }

  // ---------------------------------------------------------------- the greedy set

  // A set of positions is greedy if it holds exactly those that overlap no earlier member.
  ghost predicate IsGreedy(o: seq<EntitySpan>, keep: set<int>) {
    && (forall i :: i in keep ==> 0 <= i < |o|)
    && (forall i :: 0 <= i < |o| ==> (i in keep <==> forall j :: j in keep && j < i ==> !Overlaps(o[i], o[j])))
  }

  function Select(o: seq<EntitySpan>, keep: set<int>): seq<EntitySpan> {
    if o == [] then []
    else Select(o[..|o| - 1], keep) + if |o| - 1 in keep then [o[|o| - 1]] else []
  }

  lemma {:induction false} AgreeUpto(o: seq<EntitySpan>, k: set<int>, l: set<int>, i: nat)
    requires IsGreedy(o, k) && IsGreedy(o, l) && i < |o|
    ensures i in k <==> i in l
  {
    forall j | 0 <= j < i ensures j in k <==> j in l { AgreeUpto(o, k, l, j); }
  }

  lemma {:induction false} SelectMembers(o: seq<EntitySpan>, keep: set<int>)
    ensures forall j :: j in keep && 0 <= j < |o| ==> o[j] in Select(o, keep)
    ensures forall s :: s in Select(o, keep) ==> exists j :: 0 <= j < |o| && j in keep && o[j] == s
  {
    if o != [] {
      var init := o[..|o| - 1];
      SelectMembers(init, keep);
      assert forall j :: 0 <= j < |init| ==> init[j] == o[j];
    }
  }

  lemma {:induction false} SelectSame(o: seq<EntitySpan>, k: set<int>, l: set<int>)
    requires forall i :: 0 <= i < |o| ==> (i in k <==> i in l)
    ensures Select(o, k) == Select(o, l)
  {
    if o != [] { SelectSame(o[..|o| - 1], k, l); }
  }

  lemma ClashesAsSet(span: EntitySpan, o: seq<EntitySpan>, keep: set<int>)
    requires forall j :: j in keep ==> 0 <= j < |o|
    ensures Clashes(span, Select(o, keep)) <==> exists j :: j in keep && Overlaps(span, o[j])
  {
    SelectMembers(o, keep);
    var kept := Select(o, keep);
    if Clashes(span, kept) {
      var i :| 0 <= i < |kept| && Overlaps(span, kept[i]);
      assert kept[i] in kept;
    }
    if j :| j in keep && Overlaps(span, o[j]) {
      var i :| 0 <= i < |kept| && kept[i] == o[j];
    }
  }

  lemma ExtendGreedySet(o: seq<EntitySpan>, before: set<int>, keep: set<int>)
    requires o != [] && IsGreedy(o[..|o| - 1], before)
    requires var n := |o| - 1; keep == if exists j :: j in before && Overlaps(o[n], o[j]) then before else before + {n}
    ensures IsGreedy(o, keep)
  {
    var init, n := o[..|o| - 1], |o| - 1;
    forall i | 0 <= i < n ensures i in keep <==> forall j :: j in keep && j < i ==> !Overlaps(o[i], o[j]) {
      assert init[i] == o[i] && (i in keep <==> i in before);
      assert forall j :: j in before && j < i ==> (j in keep && init[j] == o[j]);
    }
  }

  lemma {:induction false} GreedySetExists(o: seq<EntitySpan>) returns (keep: set<int>)
    ensures IsGreedy(o, keep) && Select(o, keep) == Greedy(o)
  {
    if o == [] {
      keep := {};
    } else {
      var init, n := o[..|o| - 1], |o| - 1;
      var before := GreedySetExists(init);
      ClashesAsSet(o[n], init, before);
      assert forall j :: j in before ==> init[j] == o[j];
      keep := if Clashes(o[n], Greedy(init)) then before else before + {n};
      ExtendGreedySet(o, before, keep);
      SelectSame(init, before, keep);
    }
  }

  /** What is kept is the one set of spans that contains a span exactly when it overlaps no kept
      span before it in the score order; so every dropped span overlaps a kept one before it. */
  lemma GreedyIsUnique(spans: seq<EntitySpan>, keep: set<int>)
    ensures var o := Sort(spans, ByScore);
      IsGreedy(o, keep) ==> Merge(spans) == Sort(Select(o, keep), ByStart)
    ensures exists k :: IsGreedy(Sort(spans, ByScore), k)
  {
    var o := Sort(spans, ByScore);
    var k := GreedySetExists(o);
    if IsGreedy(o, keep) {
      forall i | 0 <= i < |o| ensures i in k <==> i in keep { AgreeUpto(o, k, keep, i); }
      SelectSame(o, k, keep);
    }
  }

  // ---------------------------------------------------------------- disjoint, sorted, from the input

  ghost predicate Apart(xs: seq<EntitySpan>) {
    forall i, j :: 0 <= i < |xs| && 0 <= j < |xs| && i != j ==> !Overlaps(xs[i], xs[j])
  }

  lemma OrdersAreTotal()
    ensures Total(ByScore) && Transitive(ByScore) && Total(ByStart) && Transitive(ByStart)
  {
  }

  lemma {:induction false} GreedyFromInput(o: seq<EntitySpan>)
    ensures multiset(Greedy(o)) <= multiset(o)
    ensures forall i :: 0 <= i < |Greedy(o)| ==> exists k :: 0 <= k < |o| && o[k] == Greedy(o)[i]
  {
    hide Clashes;
    if o != [] {
      var init, span := o[..|o| - 1], o[|o| - 1];
      assert o == init + [span];
      GreedyFromInput(init);
      var kept := Greedy(init);
      assert Greedy(o) == if Clashes(span, kept) then kept else kept + [span];
      hide Greedy;
      assert multiset(kept + [span]) == multiset(kept) + multiset{span} && multiset(o) == multiset(init) + multiset{span};
      assert o[|o| - 1] == span;
      forall i | 0 <= i < |kept| ensures exists k :: 0 <= k < |init| && o[k] == kept[i] {
        var k :| 0 <= k < |init| && init[k] == kept[i];
        assert o[k] == kept[i];
      }
    }
  }

  lemma {:induction false} GreedyApart(o: seq<EntitySpan>)
    ensures Apart(Greedy(o))
  {
    if o != [] { GreedyApart(o[..|o| - 1]); }
  }

  lemma {:induction false} GreedySorted(o: seq<EntitySpan>)
    requires Sorted(o, ByScore)
    ensures Sorted(Greedy(o), ByScore)
  {
    hide Clashes, ByScore;
    if o != [] {
      var init := o[..|o| - 1];
      assert Sorted(init, ByScore);
      GreedySorted(init);
      GreedyFromInput(init);
      forall i | 0 <= i < |Greedy(init)| ensures ByScore(Greedy(init)[i], o[|o| - 1]) {
        var k :| 0 <= k < |init| && init[k] == Greedy(init)[i];
        assert ByScore(o[k], o[|o| - 1]);
      }
    }
  }

  lemma {:induction false} GreedyOfApart(o: seq<EntitySpan>)
    requires Apart(o)
    ensures Greedy(o) == o
  {
    if o != [] {
      var init := o[..|o| - 1];
      assert forall i :: 0 <= i < |init| ==> init[i] == o[i];
      GreedyOfApart(init);
      assert o == init + [o[|o| - 1]];
    }
  }

  lemma {:induction false} TwoPlaces(xs: seq<EntitySpan>, a: EntitySpan)
    requires multiset(xs)[a] >= 2
    ensures exists i, j :: 0 <= i < j < |xs| && xs[i] == a && xs[j] == a
  {
    var init, last := xs[..|xs| - 1], xs[|xs| - 1];
    assert xs == init + [last];
    if last == a {
      assert a in multiset(init);
      var i :| 0 <= i < |init| && init[i] == a;
      assert xs[i] == a && xs[|xs| - 1] == a;
    } else {
      TwoPlaces(init, a);
      var i, j :| 0 <= i < j < |init| && init[i] == a && init[j] == a;
      assert xs[i] == a && xs[j] == a;
    }
  }

  lemma ApartOfPermutation(xs: seq<EntitySpan>, ys: seq<EntitySpan>)
    requires Apart(xs) && multiset(xs) == multiset(ys)
    ensures Apart(ys)
  {
    forall i, j | 0 <= i < |ys| && 0 <= j < |ys| && i != j ensures !Overlaps(ys[i], ys[j]) {
      if ys[i] == ys[j] {
        if i < j { CountsTwice(ys, i, j); } else { CountsTwice(ys, j, i); }
        TwoPlaces(xs, ys[i]);
      } else {
        assert ys[i] in multiset(ys) && ys[j] in multiset(ys);
        assert ys[i] in multiset(xs) && ys[j] in multiset(xs);
        var k, l :| 0 <= k < |xs| && 0 <= l < |xs| && xs[k] == ys[i] && xs[l] == ys[j];
      }
    }
  }

  lemma FollowOn(m: seq<EntitySpan>)
    requires Sorted(m, ByStart) && Apart(m) && forall i :: 0 <= i < |m| ==> m[i].charStart < m[i].charEnd
    ensures forall i, j :: 0 <= i < j < |m| ==> m[i].charEnd <= m[j].charStart
  {
    forall i, j | 0 <= i < j < |m| ensures m[i].charEnd <= m[j].charStart {
      assert ByStart(m[i], m[j]) && !Overlaps(m[i], m[j]);
    }
  }

  /** The result lists spans of the input by start, no two overlapping, each as often as at most
      the input has it; non-empty ones then follow one another without touching. */
  lemma MergedAreDisjoint(spans: seq<EntitySpan>)
    ensures var m := Merge(spans);
      && (forall i, j :: 0 <= i < j < |m| ==> m[i].charStart <= m[j].charStart)
      && Apart(m) && multiset(m) <= multiset(spans)
      && ((forall s :: s in spans ==> s.charStart < s.charEnd) ==>
            forall i, j :: 0 <= i < j < |m| ==> m[i].charEnd <= m[j].charStart)
  {
    var o := Sort(spans, ByScore);
    var m := Merge(spans);
    OrdersAreTotal();
    hide Sort, Greedy, Score, Apart;
    SortPermutes(spans, ByScore);
    GreedyFromInput(o);
    GreedyApart(o);
    SortPermutes(Greedy(o), ByStart);
    SortSorts(Greedy(o), ByStart);
    ApartOfPermutation(Greedy(o), m);
    forall i, j | 0 <= i < j < |m| ensures m[i].charStart <= m[j].charStart { assert ByStart(m[i], m[j]); }
    if forall s :: s in spans ==> s.charStart < s.charEnd {
      forall i | 0 <= i < |m| ensures m[i].charStart < m[i].charEnd {
        assert m[i] in multiset(m) && m[i] in multiset(spans);
      }
      FollowOn(m);
    }
  }

  /** Merging is idempotent, for all spans. */
  lemma MergeIdempotent(spans: seq<EntitySpan>)
    ensures Merge(Merge(spans)) == Merge(spans)
  {
    var g := Greedy(Sort(spans, ByScore));
    var m := Merge(spans);
    var again := Sort(m, ByScore);
    OrdersAreTotal();
    SortSorts(spans, ByScore);
    GreedyApart(Sort(spans, ByScore));
    GreedySorted(Sort(spans, ByScore));
    SortPermutes(g, ByStart);
    SortPermutes(m, ByScore);
    ApartOfPermutation(g, again);
    GreedyOfApart(again);
    forall a ensures Filter(Class(ByStart, a), Sort(again, ByStart)) == Filter(Class(ByStart, a), m) {
      var c := Class(ByStart, a);
      SortStable(again, ByStart, a);
      FilterSort(c, m, ByScore);
      SortStable(g, ByStart, a);
      FilterSorted(c, g, ByScore);
      SortOfSorted(Filter(c, g), ByScore);
    }
    SortSorts(again, ByStart);
    SortSorts(g, ByStart);
    SortedByClasses(Sort(again, ByStart), m, ByStart);
  }

  // ---------------------------------------------------------------- what is dropped, and why

  // The kept span beats the other: a higher composite score, or an equal one and an earlier start,
  // or also an equal start and an end that is not later.
  predicate Outranks(k: EntitySpan, s: EntitySpan) {
    var kept := (if k.spanType in TYPE_SPECIFICITY then TYPE_SPECIFICITY[k.spanType] else 60.0) + k.confidence;
    var lost := (if s.spanType in TYPE_SPECIFICITY then TYPE_SPECIFICITY[s.spanType] else 60.0) + s.confidence;
    || kept > lost
    || (kept == lost && k.charStart < s.charStart)
    || (kept == lost && k.charStart == s.charStart && k.charEnd <= s.charEnd)
  }

  lemma {:induction false} DroppedByGreedy(o: seq<EntitySpan>, s: EntitySpan)
    requires Sorted(o, Outranks) && multiset(Greedy(o))[s] < multiset(o)[s]
    ensures exists k :: k in Greedy(o) && Overlaps(s, k) && Outranks(k, s)
  {
    hide Outranks, Overlaps;
    var init, x := o[..|o| - 1], o[|o| - 1];
    var kept := Greedy(init);
    assert o == init + [x];
    assert multiset(kept + [x]) == multiset(kept) + multiset{x} && multiset(o) == multiset(init) + multiset{x};
    if multiset(kept)[s] < multiset(init)[s] {
      DroppedByGreedy(init, s);
      var k :| k in kept && Overlaps(s, k) && Outranks(k, s);
      assert k in Greedy(o);
    } else {
      GreedyFromInput(init);
      assert multiset(kept)[s] <= multiset(init)[s];
      assert s == x && Clashes(x, kept);
      var i :| 0 <= i < |kept| && Overlaps(x, kept[i]);
      var j :| 0 <= j < |init| && init[j] == kept[i];
      assert Outranks(o[j], o[|o| - 1]);
      assert kept[i] in Greedy(o);
    }
  }

  /** A span is dropped only for one that is kept, overlaps it and outranks it by the composite score. */
  lemma DroppedIsOutranked(spans: seq<EntitySpan>, s: EntitySpan)
    requires multiset(Merge(spans))[s] < multiset(spans)[s]
    ensures exists k :: k in Merge(spans) && k.charStart < s.charEnd && s.charStart < k.charEnd && Outranks(k, s)
  {
    var o := Sort(spans, ByScore);
    OrdersAreTotal();
    SortSorts(spans, ByScore);
    SortPermutes(spans, ByScore);
    SortPermutes(Greedy(o), ByStart);
    forall i, j | 0 <= i < j < |o| ensures Outranks(o[i], o[j]) { assert ByScore(o[i], o[j]); }
    hide Sort, Greedy, Outranks, ByScore;
    DroppedByGreedy(o, s);
    var k :| k in Greedy(o) && Overlaps(s, k) && Outranks(k, s);
    assert k in multiset(Greedy(o)) && k in multiset(Merge(spans));
  }
}
