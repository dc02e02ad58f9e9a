/** What the clusters of the language model do to the induced predicates. */
module InductionNames {
  import opened Wrappers
  import opened Sorting
  import opened Induction

  type Normalise = string -> string

  // The cluster gives the surface a name.
  predicate Names(c: Cluster, normalise: Normalise, s: string) {
    s in c.members && normalise(c.canonical) != ""
  }

  // Position `i` holds the last cluster that does.
  ghost predicate NamedLastBy(clusters: seq<Cluster>, normalise: Normalise, s: string, i: nat) {
    && i < |clusters| && Names(clusters[i], normalise, s)
    && forall j :: i < j < |clusters| ==> !Names(clusters[j], normalise, s)
  }

  ghost predicate Unnamed(clusters: seq<Cluster>, normalise: Normalise, s: string) {
    forall i :: 0 <= i < |clusters| ==> !Names(clusters[i], normalise, s)
  }

  // The name of a surface, by the last cluster that names it, or else the surface itself.
  function NameOf(clusters: seq<Cluster>, normalise: Normalise, s: string): string {
    if clusters == [] then s
    else if Names(clusters[|clusters| - 1], normalise, s) then normalise(clusters[|clusters| - 1].canonical)
    else NameOf(clusters[..|clusters| - 1], normalise, s)
  }

  lemma {:induction false} NameByPosition(clusters: seq<Cluster>, normalise: Normalise, s: string, i: nat)
    ensures NamedLastBy(clusters, normalise, s, i) ==> NameOf(clusters, normalise, s) == normalise(clusters[i].canonical)
    ensures Unnamed(clusters, normalise, s) ==> NameOf(clusters, normalise, s) == s
  {
    if clusters != [] {
      var init := clusters[..|clusters| - 1];
      assert forall j :: 0 <= j < |init| ==> init[j] == clusters[j];
      NameByPosition(init, normalise, s, i);
    }
  }

  lemma {:induction false} LastNamingExists(clusters: seq<Cluster>, normalise: Normalise, s: string)
    ensures Unnamed(clusters, normalise, s) || exists i: nat :: NamedLastBy(clusters, normalise, s, i)
  {
    if clusters != [] {
      var init, n := clusters[..|clusters| - 1], |clusters| - 1;
      assert forall j :: 0 <= j < n ==> init[j] == clusters[j];
      LastNamingExists(init, normalise, s);
      if Names(clusters[n], normalise, s) {
        assert NamedLastBy(clusters, normalise, s, n);
      } else if i: nat :| NamedLastBy(init, normalise, s, i) {
        assert NamedLastBy(clusters, normalise, s, i);
      }
    }
  }

  // ---------------------------------------------------------------- the mapping

  lemma {:induction false} MembersMapped(m: Mapping, members: seq<string>, canonical: string, s: string)
    ensures var r := MapMembers(m, members, canonical);
      && (s in r <==> s in m || s in members)
      && (s in r ==> r[s] == if s in members then canonical else m[s])
    decreases |members|
  {
    if members != [] {
      MembersMapped(m[members[0] := canonical], members[1..], canonical, s);
      assert members == [members[0]] + members[1..];
    }
  }

  lemma {:induction false} ClustersMapped(m: Mapping, clusters: seq<Cluster>, normalise: Normalise, s: string, i: nat)
    ensures var r := MapClusters(m, clusters, normalise);
      && (NamedLastBy(clusters, normalise, s, i) ==> s in r && r[s] == normalise(clusters[i].canonical))
      && (Unnamed(clusters, normalise, s) ==> (s in r <==> s in m) && (s in m ==> r[s] == m[s]))
    decreases |clusters|
  {
    if clusters != [] {
      var c, rest := clusters[0], clusters[1..];
      var name := normalise(c.canonical);
      var next := if name == "" then m else MapMembers(m, c.members, name);
      assert forall j :: 0 <= j < |rest| ==> rest[j] == clusters[j + 1];
      MembersMapped(m, c.members, name, s);
      hide MapMembers;
      ClustersMapped(next, rest, normalise, s, if i > 0 then i - 1 else 0);
      if NamedLastBy(clusters, normalise, s, i) {
        if i > 0 { assert NamedLastBy(rest, normalise, s, i - 1); } else { assert Unnamed(rest, normalise, s); }
      }
      if Unnamed(clusters, normalise, s) { assert Unnamed(rest, normalise, s); }
    }
  }

  lemma {:induction false} DefaultsAdded(m: Mapping, edges: seq<Edge>, s: string)
    ensures var r := WithDefaults(m, edges);
      && (s in r <==> s in m || exists e :: e in edges && e.surface == s)
      && (s in r ==> r[s] == if s in m then m[s] else s)
    decreases |edges|
  {
    if edges != [] {
      var e := edges[0];
      DefaultsAdded(if e.surface in m then m else m[e.surface := e.surface], edges[1..], s);
      assert edges == [e] + edges[1..];
    }
  }

  /** A surface that clusters name has the name given by the last of them; any other surface of the
      edges stands for itself; and nothing else is mapped. */
  lemma MappingByPosition(edges: seq<Edge>, clusters: seq<Cluster>, normalise: Normalise, s: string, i: nat)
    ensures var m := MappingOf(edges, clusters, normalise);
      && (NamedLastBy(clusters, normalise, s, i) ==> s in m && m[s] == normalise(clusters[i].canonical))
      && (Unnamed(clusters, normalise, s) ==>
            && (s in m <==> exists e :: e in edges && e.surface == s)
            && (s in m ==> m[s] == s))
  {
    hide MapClusters, WithDefaults;
    ClustersMapped(map[], clusters, normalise, s, i);
    DefaultsAdded(MapClusters(map[], clusters, normalise), edges, s);
  }

  lemma MappingByName(edges: seq<Edge>, clusters: seq<Cluster>, normalise: Normalise, s: string)
    ensures var m := MappingOf(edges, clusters, normalise);
      && (s in m <==> !Unnamed(clusters, normalise, s) || exists e :: e in edges && e.surface == s)
      && (s in m ==> m[s] == NameOf(clusters, normalise, s))
  {
    hide MappingOf, NameOf;
    LastNamingExists(clusters, normalise, s);
    if i: nat :| NamedLastBy(clusters, normalise, s, i) {
      MappingByPosition(edges, clusters, normalise, s, i);
      NameByPosition(clusters, normalise, s, i);
    } else {
      MappingByPosition(edges, clusters, normalise, s, 0);
      NameByPosition(clusters, normalise, s, 0);
    }
  }

  // ---------------------------------------------------------------- the induced predicates

  // Edges whose surface has the name.
  function HasName(clusters: seq<Cluster>, normalise: Normalise, c: string): Edge -> bool {
    (e: Edge) => NameOf(clusters, normalise, e.surface) == c
  }

  function EdgesNamed(edges: seq<Edge>, clusters: seq<Cluster>, normalise: Normalise, c: string): seq<Edge> {
    Filter(HasName(clusters, normalise, c), edges)
  }

  lemma GroupByName(edges: seq<Edge>, clusters: seq<Cluster>, normalise: Normalise, c: string)
    ensures var m := MappingOf(edges, clusters, normalise);
      && (forall e :: e in edges ==> Canon(m, e) == NameOf(clusters, normalise, e.surface))
      && GroupOf(m, edges, c) == EdgesNamed(edges, clusters, normalise, c)
  {
    var m := MappingOf(edges, clusters, normalise);
    hide MappingOf, NameOf;
    forall e | e in edges ensures Canon(m, e) == NameOf(clusters, normalise, e.surface) {
      MappingByName(edges, clusters, normalise, e.surface);
    }
    FilterSame(HasCanon(m, c), HasName(clusters, normalise, c), edges);
  }

  lemma {:induction false} EverySurvivorIsInduced(m: Mapping, edges: seq<Edge>, order: seq<string>, minSupport: int, c: string)
    requires c in order && Survives(m, edges, c, minSupport)
    ensures InducedFor(m, edges, c) in InducedUpto(m, edges, order, minSupport)
  {
    var init, last := order[..|order| - 1], order[|order| - 1];
    assert order == init + [last];
    SurvivesIff(m, edges, last, minSupport);
    hide Survives, GroupOf, InducedFor;
    if last != c { EverySurvivorIsInduced(m, edges, init, minSupport, c); }
  }

  // The predicate of a name: what it says of the edges whose surfaces have that name.
  ghost predicate Summarises(p: Induced, edges: seq<Edge>, clusters: seq<Cluster>, normalise: Normalise) {
    var group := EdgesNamed(edges, clusters, normalise, p.canonical);
    && p.support == |group| && p.totalConfidence == TotalConfidence(group)
    && p.domains == SubjectTypes(group) && p.ranges == ObjectTypes(group)
    && forall s :: s in p.surfaces <==>
         && NameOf(clusters, normalise, s) == p.canonical
         && (!Unnamed(clusters, normalise, s) || exists e :: e in edges && e.surface == s)
  }

  lemma RecordSummarises(edges: seq<Edge>, clusters: seq<Cluster>, normalise: Normalise, c: string)
    ensures Summarises(InducedFor(MappingOf(edges, clusters, normalise), edges, c), edges, clusters, normalise)
  {
    var m := MappingOf(edges, clusters, normalise);
    hide MappingOf, NameOf, GroupOf, EdgesNamed, Unnamed;
    GroupByName(edges, clusters, normalise, c);
    var p := InducedFor(m, edges, c);
    forall s
      ensures s in p.surfaces <==>
        && NameOf(clusters, normalise, s) == p.canonical
        && (!Unnamed(clusters, normalise, s) || exists e :: e in edges && e.surface == s)
    {
      MappingByName(edges, clusters, normalise, s);
    }
  }

  /** Every name that enough edges have, and no other, has one induced predicate, which summarises just
      these edges and lists all surfaces of that name. */
  lemma InducedByName(edges: seq<Edge>, clusters: seq<Cluster>, normalise: Normalise, minSupport: int, c: string)
    ensures var out := Induce(edges, clusters, normalise, minSupport);
      && (forall i, j :: 0 <= i < j < |out| ==> out[i].canonical != out[j].canonical)
      && (forall i :: 0 <= i < |out| ==> Summarises(out[i], edges, clusters, normalise))
      && ((exists i :: 0 <= i < |out| && out[i].canonical == c) <==>
            var n := |EdgesNamed(edges, clusters, normalise, c)|; n > 0 && n >= minSupport)
  {
    var m := MappingOf(edges, clusters, normalise);
    var out := Induce(edges, clusters, normalise, minSupport);
    GroupsPartition(m, edges);
    InducedAt(m, edges, Order(m, edges), minSupport);
    GroupByName(edges, clusters, normalise, c);
    hide MappingOf, InducedFor, GroupOf, EdgesNamed, Summarises, InducedUpto, Order;
    forall i | 0 <= i < |out| ensures Summarises(out[i], edges, clusters, normalise) {
      RecordSummarises(edges, clusters, normalise, out[i].canonical);
    }
    if c in Order(m, edges) && Survives(m, edges, c, minSupport) {
      EverySurvivorIsInduced(m, edges, Order(m, edges), minSupport, c);
      CanonicalOfRecord(m, edges, c);
    }
  }

  /** Two edges are in one induced predicate if and only if their surfaces have one name, and enough
      edges have it. */
  lemma TogetherIffSameName(edges: seq<Edge>, clusters: seq<Cluster>, normalise: Normalise, minSupport: int, d: Edge, e: Edge)
    requires d in edges && e in edges
    ensures var out := Induce(edges, clusters, normalise, minSupport);
      (exists i :: 0 <= i < |out| && d.surface in out[i].surfaces && e.surface in out[i].surfaces) <==>
        var c := NameOf(clusters, normalise, d.surface);
        c == NameOf(clusters, normalise, e.surface) && |EdgesNamed(edges, clusters, normalise, c)| >= minSupport
  {
    var c := NameOf(clusters, normalise, d.surface);
    InducedByName(edges, clusters, normalise, minSupport, c);
    FilterElements(HasName(clusters, normalise, c), edges);
    assert d in EdgesNamed(edges, clusters, normalise, c);
    hide Induce, NameOf, EdgesNamed, SubjectTypes, ObjectTypes, TotalConfidence, Unnamed;
    var out := Induce(edges, clusters, normalise, minSupport);
    if i :| 0 <= i < |out| && out[i].canonical == c { assert Summarises(out[i], edges, clusters, normalise); }
  }
}
