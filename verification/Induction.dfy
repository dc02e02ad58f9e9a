/** Inducing predicates from extracted edges, and attaching the edges to them.

    A language model groups the predicate surfaces into clusters; its answer is an arbitrary value. */
module Induction {
  import opened Wrappers
  import opened Sorting

  datatype Edge = Edge(subjectRef: string, surface: string, objectRef: string,
                       subjectType: string, objectType: string, confidence: real)

  datatype Cluster = Cluster(canonical: string, members: seq<string>)

  // `surfaces` are listed in sorted order by the program; `domains` and `ranges` are the counted
  // types, one entry per edge that has one, in the order met.
  datatype Induced = Induced(
    canonical: string, surfaces: set<string>, domains: seq<string>, ranges: seq<string>,
    support: nat, totalConfidence: real)

  type Mapping = map<string, string>

  // ---------------------------------------------------------------- canonical names

  function MapMembers(m: Mapping, members: seq<string>, canonical: string): Mapping
    decreases |members|
  {
    if members == [] then m else MapMembers(m[members[0] := canonical], members[1..], canonical)
  }

  // Later clusters override earlier ones; one whose name is blank once normalised is skipped.
  function MapClusters(m: Mapping, clusters: seq<Cluster>, normalise: string -> string): Mapping
    decreases |clusters|
  {
    if clusters == [] then m
    else
      var c := normalise(clusters[0].canonical);
      MapClusters(if c == "" then m else MapMembers(m, clusters[0].members, c), clusters[1..], normalise)
  }

  // A surface in no cluster stands for itself.
  function WithDefaults(m: Mapping, edges: seq<Edge>): Mapping
    decreases |edges|
  {
    if edges == [] then m
    else
      var s := edges[0].surface;
      WithDefaults(if s in m then m else m[s := s], edges[1..])
  }

  function MappingOf(edges: seq<Edge>, clusters: seq<Cluster>, normalise: string -> string): Mapping {
    WithDefaults(MapClusters(map[], clusters, normalise), edges)
  }

  function Canon(m: Mapping, e: Edge): string {
    if e.surface in m then m[e.surface] else e.surface
  }

  lemma {:induction false} DefaultsCoverEdges(m: Mapping, edges: seq<Edge>)
    ensures forall e :: e in edges ==> e.surface in WithDefaults(m, edges)
    ensures forall s :: s in m ==> s in WithDefaults(m, edges) && WithDefaults(m, edges)[s] == m[s]
    decreases |edges|
  {
    if edges != [] {
      var s := edges[0].surface;
      DefaultsCoverEdges(if s in m then m else m[s := s], edges[1..]);
    }
  }

  // ---------------------------------------------------------------- grouping

  function HasCanon(m: Mapping, c: string): Edge -> bool {
    (e: Edge) => Canon(m, e) == c
  }

  function GroupOf(m: Mapping, edges: seq<Edge>, c: string): seq<Edge> {
    Filter(HasCanon(m, c), edges)
  }

  // The canonical names in the order in which their first edges come.
  function Order(m: Mapping, edges: seq<Edge>): seq<string> {
    if edges == [] then []
    else
      var init, c := Order(m, edges[..|edges| - 1]), Canon(m, edges[|edges| - 1]);
      if c in init then init else init + [c]
  }

  function SubjectTypes(group: seq<Edge>): seq<string> {
    if group == [] then []
    else SubjectTypes(group[..|group| - 1]) + if group[|group| - 1].subjectType != "" then [group[|group| - 1].subjectType] else []
  }

  function ObjectTypes(group: seq<Edge>): seq<string> {
    if group == [] then []
    else ObjectTypes(group[..|group| - 1]) + if group[|group| - 1].objectType != "" then [group[|group| - 1].objectType] else []
  }

  function TotalConfidence(group: seq<Edge>): real {
    if group == [] then 0.0 else TotalConfidence(group[..|group| - 1]) + group[|group| - 1].confidence
  }

  function Surfaces(m: Mapping, c: string): set<string> {
    set s | s in m && m[s] == c
  }

  function InducedFor(m: Mapping, edges: seq<Edge>, c: string): Induced {
    var group := GroupOf(m, edges, c);
    Induced(c, Surfaces(m, c), SubjectTypes(group), ObjectTypes(group), |group|, TotalConfidence(group))
  }

  function InducedUpto(m: Mapping, edges: seq<Edge>, order: seq<string>, minSupport: int): seq<Induced> {
    if order == [] then []
    else
      var c := order[|order| - 1];
      InducedUpto(m, edges, order[..|order| - 1], minSupport) +
      if |GroupOf(m, edges, c)| < minSupport then [] else [InducedFor(m, edges, c)]
  }

  function Induce(edges: seq<Edge>, clusters: seq<Cluster>, normalise: string -> string, minSupport: int): seq<Induced> {
    var m := MappingOf(edges, clusters, normalise);
    InducedUpto(m, edges, Order(m, edges), minSupport)
  }

  // The dictionary holds every non-empty group.
  ghost predicate Grouped(m: Mapping, edges: seq<Edge>, grouped: map<string, seq<Edge>>) {
    && (forall c :: c in grouped <==> c in Order(m, edges))
    && (forall c :: c in grouped ==> grouped[c] == GroupOf(m, edges, c))
    && (forall c :: c !in grouped ==> GroupOf(m, edges, c) == [])
  }

  lemma GroupedOneMore(m: Mapping, edges: seq<Edge>, e: Edge, grouped: map<string, seq<Edge>>)
    requires Grouped(m, edges, grouped)
    ensures var c := Canon(m, e);
      Grouped(m, edges + [e], grouped[c := (if c in grouped then grouped[c] else []) + [e]])
  {
    assert (edges + [e])[..|edges|] == edges;
    var next := Order(m, edges + [e]);
    assert next == Order(m, edges) || next == Order(m, edges) + [Canon(m, e)];
    forall d ensures GroupOf(m, edges + [e], d) == GroupOf(m, edges, d) + if d == Canon(m, e) then [e] else [] {
      FilterAppended(HasCanon(m, d), edges, e);
    }
  }

  method GroupEdges(m: Mapping, edges: seq<Edge>) returns (grouped: map<string, seq<Edge>>, order: seq<string>)
    ensures order == Order(m, edges) && Grouped(m, edges, grouped)
  {
    grouped, order := map[], [];
    for i := 0 to |edges|
      invariant order == Order(m, edges[..i]) && Grouped(m, edges[..i], grouped)
    {
      hide GroupOf, Canon;
      var e := edges[i];
      var c := Canon(m, e);
      GroupedOneMore(m, edges[..i], e, grouped);
      assert edges[..i + 1] == edges[..i] + [e] && edges[..i + 1][..i] == edges[..i];
      if c !in grouped { order := order + [c]; }
      grouped := grouped[c := (if c in grouped then grouped[c] else []) + [e]];
    }
    assert edges[..|edges|] == edges;
  }

  method CanonicalizePredicates(edges: seq<Edge>, clusters: seq<Cluster>, normalise: string -> string) returns (m: Mapping)
    ensures m == MappingOf(edges, clusters, normalise)
  {
    m := map[];
    for i := 0 to |clusters|
      invariant MapClusters(m, clusters[i..], normalise) == MapClusters(map[], clusters, normalise)
    {
      ghost var before := m;
      var members := clusters[i].members;
      var canonical := normalise(clusters[i].canonical);
      assert clusters[i..][1..] == clusters[i + 1..];
      if canonical == "" { continue; }
      for k := 0 to |members|
        invariant MapMembers(m, members[k..], canonical) == MapMembers(before, members, canonical)
      {
        assert members[k..][1..] == members[k + 1..];
        m := m[members[k] := canonical];
      }
    }
    ghost var named := m;
    for i := 0 to |edges|
      invariant WithDefaults(m, edges[i..]) == WithDefaults(named, edges)
    {
      assert edges[i..][1..] == edges[i + 1..];
      if edges[i].surface !in m { m := m[edges[i].surface := edges[i].surface]; }
    }
  }

  method InduceSchema(edges: seq<Edge>, clusters: seq<Cluster>, normalise: string -> string, minSupport: int)
      returns (induced: seq<Induced>)
    ensures induced == Induce(edges, clusters, normalise, minSupport)
  {
    if edges == [] { return []; }
    var m := CanonicalizePredicates(edges, clusters, normalise);
    var grouped, order := GroupEdges(m, edges);
    induced := [];
    for i := 0 to |order|
      invariant induced == InducedUpto(m, edges, order[..i], minSupport)
    {
      hide GroupOf, SubjectTypes, ObjectTypes, TotalConfidence, Surfaces, Order;
      assert order[..i + 1][..i] == order[..i] && order[i] in order;
      var group := grouped[order[i]];
      if |group| >= minSupport {
        var domains, ranges, total := CountTypes(group);
        induced := induced + [Induced(order[i], Surfaces(m, order[i]), domains, ranges, |group|, total)];
      }
    }
    assert order[..|order|] == order;
  }

  method CountTypes(group: seq<Edge>) returns (domains: seq<string>, ranges: seq<string>, total: real)
    ensures domains == SubjectTypes(group) && ranges == ObjectTypes(group) && total == TotalConfidence(group)
  {
    domains, ranges, total := [], [], 0.0;
    for i := 0 to |group|
      invariant domains == SubjectTypes(group[..i]) && ranges == ObjectTypes(group[..i])
      invariant total == TotalConfidence(group[..i])
    {
      assert group[..i + 1][..i] == group[..i];
      if group[i].subjectType != "" { domains := domains + [group[i].subjectType]; }
      if group[i].objectType != "" { ranges := ranges + [group[i].objectType]; }
      total := total + group[i].confidence;
    }
    assert group[..|group|] == group;
  }

  lemma {:induction false} FilterAppended<T>(p: T -> bool, xs: seq<T>, x: T)
    ensures Filter(p, xs + [x]) == Filter(p, xs) + if p(x) then [x] else []
  {
    if xs == [] {
      assert xs + [x] == [x] && [x][1..] == [];
    } else {
      assert (xs + [x])[1..] == xs[1..] + [x];
      FilterAppended(p, xs[1..], x);
    }
  }

  // ---------------------------------------------------------------- the groups partition the edges

  function GroupSizes(m: Mapping, edges: seq<Edge>, order: seq<string>): nat {
    if order == [] then 0
    else GroupSizes(m, edges, order[..|order| - 1]) + |GroupOf(m, edges, order[|order| - 1])|
  }

  lemma {:induction false} OneMoreEdge(m: Mapping, edges: seq<Edge>, e: Edge, order: seq<string>)
    requires forall i, j :: 0 <= i < j < |order| ==> order[i] != order[j]
    ensures GroupSizes(m, edges + [e], order) == GroupSizes(m, edges, order) + if Canon(m, e) in order then 1 else 0
  {
    if order != [] {
      var init, c := order[..|order| - 1], order[|order| - 1];
      assert order == init + [c];
      assert forall i :: 0 <= i < |init| ==> init[i] == order[i];
      OneMoreEdge(m, edges, e, init);
      FilterAppended(HasCanon(m, c), edges, e);
    }
  }

  /** Each canonical name is listed once, its group is not empty, and the sizes of the groups add
      up to the number of edges: every edge is in exactly one group, that of its canonical name. */
  lemma {:induction false} GroupsPartition(m: Mapping, edges: seq<Edge>)
    ensures var order := Order(m, edges);
      && (forall i, j :: 0 <= i < j < |order| ==> order[i] != order[j])
      && (forall c :: c in order <==> GroupOf(m, edges, c) != [])
      && GroupSizes(m, edges, order) == |edges|
  {
    if edges != [] {
      var init, e := edges[..|edges| - 1], edges[|edges| - 1];
      assert edges == init + [e];
      GroupsPartition(m, init);
      var before, c := Order(m, init), Canon(m, e);
      forall d ensures GroupOf(m, edges, d) == GroupOf(m, init, d) + if d == c then [e] else [] {
        FilterAppended(HasCanon(m, d), init, e);
      }
      OneMoreEdge(m, init, e, before);
      if c !in before { assert (before + [c])[..|before|] == before; }
    }
  }

  // The total of a group is the sum of its edges' confidences.
  lemma {:induction false} ConfidencesAdd(xs: seq<Edge>, ys: seq<Edge>, e: Edge)
    ensures TotalConfidence([e]) == e.confidence
    ensures TotalConfidence(xs + ys) == TotalConfidence(xs) + TotalConfidence(ys)
    decreases |ys|
  {
    assert [e][..0] == [];
    if ys == [] {
      assert xs + ys == xs;
    } else {
      assert (xs + ys)[..|xs + ys| - 1] == xs + ys[..|ys| - 1];
      ConfidencesAdd(xs, ys[..|ys| - 1], e);
    }
  }

  // ---------------------------------------------------------------- surfaces lead back

  function AddSurfaces(s2c: Mapping, p: Induced): Mapping {
    s2c + (map s | s in p.surfaces :: p.canonical)
  }

  // `surface_to_canonical`, as the pipeline builds it from the induced predicates.
  function SurfaceMap(induced: seq<Induced>): Mapping {
    if induced == [] then map[]
    else AddSurfaces(SurfaceMap(induced[..|induced| - 1]), induced[|induced| - 1])
  }

  predicate Survives(m: Mapping, edges: seq<Edge>, c: string, minSupport: int) {
    minSupport <= |GroupOf(m, edges, c)|
  }

  lemma {:induction false} SurfaceMapUpto(m: Mapping, edges: seq<Edge>, order: seq<string>, minSupport: int)
    ensures var s2c := SurfaceMap(InducedUpto(m, edges, order, minSupport));
      forall s :: s in s2c <==> s in m && m[s] in order && Survives(m, edges, m[s], minSupport)
    ensures var s2c := SurfaceMap(InducedUpto(m, edges, order, minSupport));
      forall s :: s in s2c ==> s2c[s] == m[s]
  {
    if order != [] {
      var init, c := order[..|order| - 1], order[|order| - 1];
      assert order == init + [c];
      SurfaceMapUpto(m, edges, init, minSupport);
      var before, all := InducedUpto(m, edges, init, minSupport), InducedUpto(m, edges, order, minSupport);
      if Survives(m, edges, c, minSupport) {
        assert all[..|all| - 1] == before;
        assert SurfaceMap(all) == AddSurfaces(SurfaceMap(before), InducedFor(m, edges, c));
        hide SurfaceMap, InducedUpto;
      } else {
        assert all == before;
      }
    }
  }

  /** Whatever the model answers, looking an edge's surface up in the surfaces of the induced
      predicates finds the canonical name of its group, exactly when that group has the support. */
  lemma SurfacesLeadBack(edges: seq<Edge>, clusters: seq<Cluster>, normalise: string -> string, minSupport: int, e: Edge)
    requires e in edges
    ensures var m := MappingOf(edges, clusters, normalise);
      var s2c := SurfaceMap(Induce(edges, clusters, normalise, minSupport));
      && (e.surface in s2c <==> Survives(m, edges, Canon(m, e), minSupport))
      && (e.surface in s2c ==> s2c[e.surface] == Canon(m, e))
  {
    var m := MappingOf(edges, clusters, normalise);
    DefaultsCoverEdges(MapClusters(map[], clusters, normalise), edges);
    GroupsPartition(m, edges);
    SurfaceMapUpto(m, edges, Order(m, edges), minSupport);
    FilterElements(HasCanon(m, Canon(m, e)), edges);
    assert e in GroupOf(m, edges, Canon(m, e));
  }

  // Records of groups with the support, one for each canonical name, all from `order`.
  ghost predicate Recorded(m: Mapping, edges: seq<Edge>, order: seq<string>, minSupport: int, out: seq<Induced>) {
    && (forall i :: 0 <= i < |out| ==> out[i].canonical in order)
    && (forall i :: 0 <= i < |out| ==> out[i] == InducedFor(m, edges, out[i].canonical))
    && (forall i :: 0 <= i < |out| ==> Survives(m, edges, out[i].canonical, minSupport))
    && (forall i, j :: 0 <= i < j < |out| ==> out[i].canonical != out[j].canonical)
  }

  lemma {:induction false} InducedAt(m: Mapping, edges: seq<Edge>, order: seq<string>, minSupport: int)
    requires forall i, j :: 0 <= i < j < |order| ==> order[i] != order[j]
    ensures Recorded(m, edges, order, minSupport, InducedUpto(m, edges, order, minSupport))
  {
    if order != [] {
      var init, c := order[..|order| - 1], order[|order| - 1];
      assert forall i :: 0 <= i < |init| ==> init[i] == order[i];
      assert order == init + [c] && c !in init;
      InducedAt(m, edges, init, minSupport);
      hide Survives, GroupOf, InducedFor, Surfaces, Recorded;
      var before := InducedUpto(m, edges, init, minSupport);
      RecordedOneMore(m, edges, init, c, minSupport, before);
      SurvivesIff(m, edges, c, minSupport);
    }
  }

  lemma RecordedOneMore(m: Mapping, edges: seq<Edge>, order: seq<string>, c: string, minSupport: int, before: seq<Induced>)
    requires Recorded(m, edges, order, minSupport, before) && c !in order
    ensures Recorded(m, edges, order + [c], minSupport, before)
    ensures Survives(m, edges, c, minSupport) ==> Recorded(m, edges, order + [c], minSupport, before + [InducedFor(m, edges, c)])
  {
    hide Survives, GroupOf, InducedFor, Surfaces;
    CanonicalOfRecord(m, edges, c);
  }

  lemma CanonicalOfRecord(m: Mapping, edges: seq<Edge>, c: string)
    ensures InducedFor(m, edges, c).canonical == c
  {
  }

  lemma SurvivesIff(m: Mapping, edges: seq<Edge>, c: string, minSupport: int)
    ensures Survives(m, edges, c, minSupport) <==> !(|GroupOf(m, edges, c)| < minSupport)
  {
  }

  // Different predicates have no surface in common.
  lemma SurfacesDisjoint(edges: seq<Edge>, clusters: seq<Cluster>, normalise: string -> string, minSupport: int, i: nat, j: nat)
    requires i < j < |Induce(edges, clusters, normalise, minSupport)|
    ensures var out := Induce(edges, clusters, normalise, minSupport); out[i].surfaces !! out[j].surfaces
  {
    var m := MappingOf(edges, clusters, normalise);
    GroupsPartition(m, edges);
    InducedAt(m, edges, Order(m, edges), minSupport);
    var out := Induce(edges, clusters, normalise, minSupport);
    assert out[i].surfaces == Surfaces(m, out[i].canonical) && out[j].surfaces == Surfaces(m, out[j].canonical);
  }

  // ---------------------------------------------------------------- majority types

  function Count(ts: seq<string>, t: string): nat {
    if ts == [] then 0 else Count(ts[..|ts| - 1], t) + if ts[|ts| - 1] == t then 1 else 0
  }

  // `Counter.most_common(1)`: among equal counts the one met first.
  function MostCommon(ts: seq<string>, upto: nat): string
    requires 0 < upto <= |ts|
  {
    if upto == 1 then ts[0]
    else
      var best := MostCommon(ts, upto - 1);
      if Count(ts, ts[upto - 1]) > Count(ts, best) then ts[upto - 1] else best
  }

  function Dominant(ts: seq<string>, minShare: real): Option<string> {
    if ts == [] then None
    else
      var top := MostCommon(ts, |ts|);
      if Count(ts, top) as real / |ts| as real >= minShare then Some(top) else None
  }

  // The most common type is counted as often as any other, and more often than those met before it.
  lemma {:induction false} MostCommonIsTop(ts: seq<string>, upto: nat)
    requires 0 < upto <= |ts|
    ensures var top := MostCommon(ts, upto);
      && (forall i :: 0 <= i < upto ==> Count(ts, ts[i]) <= Count(ts, top))
      && exists i :: 0 <= i < upto && ts[i] == top && forall j :: 0 <= j < i ==> Count(ts, ts[j]) < Count(ts, top)
  {
    if upto > 1 {
      MostCommonIsTop(ts, upto - 1);
      if MostCommon(ts, upto) != MostCommon(ts, upto - 1) { assert ts[upto - 1] == MostCommon(ts, upto); }
    }
  }

  lemma {:induction false} TwoCounts(ts: seq<string>, s: string, t: string)
    requires s != t
    ensures Count(ts, s) + Count(ts, t) <= |ts|
  {
    if ts != [] { TwoCounts(ts[..|ts| - 1], s, t); }
  }

  lemma {:induction false} CountedIsThere(ts: seq<string>, t: string)
    requires Count(ts, t) > 0
    ensures exists i :: 0 <= i < |ts| && ts[i] == t
  {
    if ts[|ts| - 1] != t {
      CountedIsThere(ts[..|ts| - 1], t);
      var i :| 0 <= i < |ts| - 1 && ts[..|ts| - 1][i] == t;
      assert ts[i] == t;
    }
  }

  /** With a share above one half there is no tie to break: a type is dominant if and only if it
      has the share, in whatever order the types were counted. */
  lemma DominantIffShare(ts: seq<string>, minShare: real, t: string)
    requires minShare > 0.5
    ensures Dominant(ts, minShare) == Some(t) <==> ts != [] && Count(ts, t) as real / |ts| as real >= minShare
  {
    if ts != [] {
      var top := MostCommon(ts, |ts|);
      MostCommonIsTop(ts, |ts|);
      if Count(ts, t) as real / |ts| as real >= minShare {
        AtLeastShare(Count(ts, t), |ts|, minShare);
        CountedIsThere(ts, t);
        if top != t { TwoCounts(ts, top, t); }
      }
    }
  }

  lemma AtLeastShare(n: nat, total: nat, share: real)
    requires total > 0 && share > 0.5 && n as real / total as real >= share
    ensures 2 * n > total && n > 0
  {
    assert n as real == (n as real / total as real) * total as real;
    assert n as real > 0.5 * total as real;
  }

  // ---------------------------------------------------------------- attachment

  const MIN_SHARE := 0.6

  function OrThing(t: Option<string>): string {
    if t.Some? then t.value else "Thing"
  }

  function DomainRange(p: Induced): (string, string) {
    (OrThing(Dominant(p.domains, MIN_SHARE)), OrThing(Dominant(p.ranges, MIN_SHARE)))
  }

  // The type that at least six tenths of the counted have, or else "Thing".
  ghost predicate IsTypeOf(t: string, counted: seq<string>) {
    if exists d :: d in counted && 10 * Count(counted, d) >= 6 * |counted|
    then 10 * Count(counted, t) >= 6 * |counted|
    else t == "Thing"
  }

  lemma DominantBySixTenths(counted: seq<string>)
    ensures IsTypeOf(OrThing(Dominant(counted, MIN_SHARE)), counted)
    ensures forall t :: IsTypeOf(t, counted) ==> t == OrThing(Dominant(counted, MIN_SHARE))
  {
    forall t | counted != [] ensures Dominant(counted, MIN_SHARE) == Some(t) <==> 10 * Count(counted, t) >= 6 * |counted| {
      DominantIffShare(counted, MIN_SHARE, t);
      SixTenthsIff(Count(counted, t), |counted|);
    }
    if counted != [] && Dominant(counted, MIN_SHARE).Some? {
      CountedIsThere(counted, Dominant(counted, MIN_SHARE).value);
    }
  }

  lemma SixTenthsIff(n: nat, total: nat)
    requires total > 0
    ensures n as real / total as real >= MIN_SHARE <==> 10 * n >= 6 * total
  {
    if n as real / total as real >= MIN_SHARE { SixTenths(n, total); }
    if 10 * n >= 6 * total {
      assert n as real >= 0.6 * total as real;
      assert n as real / total as real >= (0.6 * total as real) / total as real == 0.6;
    }
  }

  /** Domain and range of a predicate are the types that six tenths of its subjects and of its objects
      have, and "Thing" where there is none. */
  lemma TypesBySixTenths(p: Induced)
    ensures IsTypeOf(DomainRange(p).0, p.domains) && IsTypeOf(DomainRange(p).1, p.ranges)
    ensures forall d, r :: IsTypeOf(d, p.domains) && IsTypeOf(r, p.ranges) ==> (d, r) == DomainRange(p)
  {
    hide IsTypeOf, Dominant;
    DominantBySixTenths(p.domains);
    DominantBySixTenths(p.ranges);
  }

  // The edges that the pipeline attaches to a predicate: those of the dominant types.
  function OfTypes(types: (string, string)): Edge -> bool {
    (e: Edge) => (e.subjectType, e.objectType) == types
  }

  // The edges of the pipeline: an asset without a concept has the type "asset".
  predicate Typed(edges: seq<Edge>) {
    forall e :: e in edges ==> e.subjectType != "" && e.objectType != ""
  }

  lemma {:induction false} Overlap(group: seq<Edge>, types: (string, string))
    requires Typed(group)
    ensures |SubjectTypes(group)| == |group| == |ObjectTypes(group)|
    ensures Count(SubjectTypes(group), types.0) + Count(ObjectTypes(group), types.1)
         <= |group| + |Filter(OfTypes(types), group)|
  {
    if group != [] {
      var init, e := group[..|group| - 1], group[|group| - 1];
      assert group == init + [e];
      assert forall x :: x in init ==> x in group;
      assert e in group;
      Overlap(init, types);
      FilterAppended(OfTypes(types), init, e);
      assert SubjectTypes(group)[..|init|] == SubjectTypes(init);
      assert ObjectTypes(group)[..|init|] == ObjectTypes(init);
    }
  }

  lemma SixTenths(n: nat, total: nat)
    requires total > 0 && n as real / total as real >= MIN_SHARE
    ensures 10 * n >= 6 * total
  {
    assert n as real == (n as real / total as real) * total as real;
    assert n as real >= 0.6 * total as real;
  }

  datatype Attachment = Attachment(edge: Edge, canonical: string, types: (string, string))

  function Ranges(induced: seq<Induced>): map<string, (string, string)> {
    if induced == [] then map[]
    else Ranges(induced[..|induced| - 1])[induced[|induced| - 1].canonical := DomainRange(induced[|induced| - 1])]
  }

  // The attachment of one edge, if it gets one.
  function AttachmentOf(e: Edge, s2c: Mapping, ranges: map<string, (string, string)>): seq<Attachment> {
    if e.surface in s2c && s2c[e.surface] in ranges && (e.subjectType, e.objectType) == ranges[s2c[e.surface]]
    then [Attachment(e, s2c[e.surface], ranges[s2c[e.surface]])] else []
  }

  function Attach(edges: seq<Edge>, s2c: Mapping, ranges: map<string, (string, string)>): seq<Attachment> {
    if edges == [] then []
    else Attach(edges[..|edges| - 1], s2c, ranges) + AttachmentOf(edges[|edges| - 1], s2c, ranges)
  }

  method AttachEdges(edges: seq<Edge>, induced: seq<Induced>) returns (attachments: seq<Attachment>)
    ensures attachments == Attach(edges, SurfaceMap(induced), Ranges(induced))
  {
    var s2c: Mapping := map[];
    var ranges: map<string, (string, string)> := map[];
    for i := 0 to |induced|
      invariant s2c == SurfaceMap(induced[..i]) && ranges == Ranges(induced[..i])
    {
      assert induced[..i + 1][..i] == induced[..i];
      s2c := AddSurfaces(s2c, induced[i]);
      ranges := ranges[induced[i].canonical := DomainRange(induced[i])];
    }
    assert induced[..|induced|] == induced;
    attachments := [];
    for i := 0 to |edges|
      invariant attachments == Attach(edges[..i], s2c, ranges)
    {
      assert edges[..i + 1][..i] == edges[..i];
      var e := edges[i];
      if e.surface !in s2c { continue; }
      var c := s2c[e.surface];
      if c !in ranges { continue; }
      if (e.subjectType, e.objectType) != ranges[c] { continue; }
      attachments := attachments + [Attachment(e, c, ranges[c])];
    }
    assert edges[..|edges|] == edges;
  }

  // The edges attached to a predicate, in order.
  function AttachedTo(attachments: seq<Attachment>, c: string): seq<Edge> {
    if attachments == [] then []
    else
      var last := attachments[|attachments| - 1];
      AttachedTo(attachments[..|attachments| - 1], c) + if last.canonical == c then [last.edge] else []
  }

  lemma {:induction false} RangesAt(induced: seq<Induced>, i: nat)
    requires i < |induced| && forall j, k :: 0 <= j < k < |induced| ==> induced[j].canonical != induced[k].canonical
    ensures induced[i].canonical in Ranges(induced) && Ranges(induced)[induced[i].canonical] == DomainRange(induced[i])
    decreases |induced|
  {
    hide DomainRange;
    if i < |induced| - 1 {
      var init := induced[..|induced| - 1];
      assert forall j :: 0 <= j < |init| ==> init[j] == induced[j];
      RangesAt(init, i);
    }
  }

  lemma OneMoreAttached(before: seq<Attachment>, e: Edge, s2c: Mapping, ranges: map<string, (string, string)>, c: string)
    requires c in ranges
    ensures AttachedTo(before + AttachmentOf(e, s2c, ranges), c) == AttachedTo(before, c) +
      if e.surface in s2c && s2c[e.surface] == c && OfTypes(ranges[c])(e) then [e] else []
  {
    var one := AttachmentOf(e, s2c, ranges);
    if one == [] { assert before + one == before; } else { assert (before + one)[..|before|] == before; }
  }

  lemma {:induction false} AttachedWithTypes(edges: seq<Edge>, s2c: Mapping, ranges: map<string, (string, string)>)
    ensures forall a :: a in Attach(edges, s2c, ranges) ==>
      && a.edge in edges && a.edge.surface in s2c && a.canonical == s2c[a.edge.surface]
      && a.canonical in ranges && a.types == ranges[a.canonical] == (a.edge.subjectType, a.edge.objectType)
  {
    if edges != [] { AttachedWithTypes(edges[..|edges| - 1], s2c, ranges); }
  }

  // Of the edges whose surfaces lead to their groups, those of the predicate's types are attached.
  lemma {:induction false} CountsAttached(
      m: Mapping, edges: seq<Edge>, s2c: Mapping, ranges: map<string, (string, string)>, c: string)
    requires c in ranges && forall e :: e in edges ==>
      (e.surface in s2c ==> s2c[e.surface] == Canon(m, e)) && (Canon(m, e) == c ==> e.surface in s2c)
    ensures AttachedTo(Attach(edges, s2c, ranges), c) == Filter(OfTypes(ranges[c]), GroupOf(m, edges, c))
  {
    if edges != [] {
      var init, e := edges[..|edges| - 1], edges[|edges| - 1];
      assert edges == init + [e] && e in edges && forall x :: x in init ==> x in edges;
      CountsAttached(m, init, s2c, ranges, c);
      FilterAppended(HasCanon(m, c), init, e);
      FilterAppended(OfTypes(ranges[c]), GroupOf(m, init, c), e);
      assert GroupOf(m, edges, c) == if Canon(m, e) == c then GroupOf(m, init, c) + [e] else GroupOf(m, init, c);
      OneMoreAttached(Attach(init, s2c, ranges), e, s2c, ranges, c);
      hide Filter, Canon, AttachedTo, AttachmentOf;
    }
  }

  lemma OneFifthOfGroup(m: Mapping, edges: seq<Edge>, c: string)
    requires Typed(edges)
    requires var p := InducedFor(m, edges, c);
      Dominant(p.domains, MIN_SHARE).Some? && Dominant(p.ranges, MIN_SHARE).Some?
    ensures var p := InducedFor(m, edges, c);
      5 * |Filter(OfTypes(DomainRange(p)), GroupOf(m, edges, c))| >= p.support
  {
    var group := GroupOf(m, edges, c);
    FilterElements(HasCanon(m, c), edges);
    var types := DomainRange(InducedFor(m, edges, c));
    Overlap(group, types);
    DominantIffShare(SubjectTypes(group), MIN_SHARE, types.0);
    DominantIffShare(ObjectTypes(group), MIN_SHARE, types.1);
    SixTenths(Count(SubjectTypes(group), types.0), |group|);
    SixTenths(Count(ObjectTypes(group), types.1), |group|);
  }

  /** The edges of an induced predicate that have its types are attached to it, in order, and no other
      edge is; if domain and range are both dominant, that is at least one fifth of its edges. */
  lemma OneFifthAttached(edges: seq<Edge>, clusters: seq<Cluster>, normalise: string -> string, minSupport: int, i: nat)
    requires Typed(edges) && i < |Induce(edges, clusters, normalise, minSupport)|
    ensures var m := MappingOf(edges, clusters, normalise);
      var induced := Induce(edges, clusters, normalise, minSupport);
      var p := induced[i];
      var attached := AttachedTo(Attach(edges, SurfaceMap(induced), Ranges(induced)), p.canonical);
      && attached == Filter(OfTypes(DomainRange(p)), GroupOf(m, edges, p.canonical))
      && (Dominant(p.domains, MIN_SHARE).Some? && Dominant(p.ranges, MIN_SHARE).Some? ==> 5 * |attached| >= p.support)
  {
    var m := MappingOf(edges, clusters, normalise);
    var induced := Induce(edges, clusters, normalise, minSupport);
    var p := induced[i];
    GroupsPartition(m, edges);
    InducedAt(m, edges, Order(m, edges), minSupport);
    RangesAt(induced, i);
    hide Induce, SurfaceMap, Ranges, GroupOf, Attach, AttachedTo, Filter, Dominant;
    forall e | e in edges
      ensures var s2c := SurfaceMap(induced);
        (e.surface in s2c ==> s2c[e.surface] == Canon(m, e)) && (Canon(m, e) == p.canonical ==> e.surface in s2c)
    {
      SurfacesLeadBack(edges, clusters, normalise, minSupport, e);
    }
    CountsAttached(m, edges, SurfaceMap(induced), Ranges(induced), p.canonical);
    if Dominant(p.domains, MIN_SHARE).Some? && Dominant(p.ranges, MIN_SHARE).Some? {
      OneFifthOfGroup(m, edges, p.canonical);
    }
  }
}
