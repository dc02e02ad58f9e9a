/** Three-colour depth-first search for a directed cycle. */
module Cycles {

  type Node = string
  type Edges = seq<(Node, Node)>

  datatype Color = White | Gray | Black

  ghost predicate Walk(edges: Edges, p: seq<Node>) {
    forall i :: 0 <= i < |p| - 1 ==> (p[i], p[i + 1]) in edges
  }

  // A closed walk with at least one edge; a self-loop is one.
  ghost predicate IsCycle(edges: Edges, p: seq<Node>) {
    |p| >= 2 && p[0] == p[|p| - 1] && Walk(edges, p)
  }

  ghost predicate HasCycle(edges: Edges) {
    exists p :: IsCycle(edges, p)
  }

  // No cycle meets the set.
  ghost predicate Acyclic(edges: Edges, s: set<Node>) {
    forall p, i :: IsCycle(edges, p) && 0 <= i < |p| ==> p[i] !in s
  }

  // A node all of whose successors are on no cycle is on none.
  lemma AddFinished(edges: Edges, s: set<Node>, u: Node)
    requires Acyclic(edges, s)
    requires forall e :: e in edges && e.0 == u ==> e.1 in s
    ensures Acyclic(edges, s + {u})
  {
    forall p, i | IsCycle(edges, p) && 0 <= i < |p| ensures p[i] !in s + {u} {
      var k := if i == |p| - 1 then 0 else i;
      assert p[k] == p[i] && (p[k], p[k + 1]) in edges && p[k + 1] !in s;
    }
  }

  lemma AllFinished(edges: Edges, s: set<Node>)
    requires Acyclic(edges, s) && forall e :: e in edges ==> e.0 in s
    ensures !HasCycle(edges)
  {
    forall p ensures !IsCycle(edges, p) {
      assert |p| >= 2 && Walk(edges, p) ==> (p[0], p[1]) in edges;
    }
  }

  // The gray nodes, in order, are the walk from the start of the search to the node being visited.
  lemma ClosingEdge(edges: Edges, path: seq<Node>, v: Node)
    requires path != [] && Walk(edges, path) && v in path && (path[|path| - 1], v) in edges
    ensures HasCycle(edges)
  {
    var i :| 0 <= i < |path| && path[i] == v;
    var cycle := path[i..] + [v];
    forall k | 0 <= k < |cycle| - 1 ensures (cycle[k], cycle[k + 1]) in edges {
      assert cycle[k] == path[i + k];
      if k < |path| - i - 1 { assert cycle[k + 1] == path[i + k + 1]; }
    }
    assert IsCycle(edges, cycle);
  }

  lemma ExtendWalk(edges: Edges, path: seq<Node>, u: Node)
    requires Walk(edges, path) && (path != [] ==> (path[|path| - 1], u) in edges)
    ensures Walk(edges, path + [u])
  {
  }

  lemma ShorterWalk(edges: Edges, path: seq<Node>, u: Node)
    requires Walk(edges, path + [u])
    ensures Walk(edges, path)
  {
    assert forall i :: 0 <= i < |path| ==> (path + [u])[i] == path[i];
  }

  lemma NothingFinished(edges: Edges)
    ensures Walk(edges, []) && Acyclic(edges, {})
  {
  }

  method ReadEdges(edges: Edges) returns (adj: map<Node, seq<Node>>, nodes: set<Node>)
    ensures forall n :: n in nodes <==> exists e :: e in edges && (n == e.0 || n == e.1)
    ensures forall u :: u in adj ==> forall v :: v in adj[u] ==> (u, v) in edges
    ensures forall e :: e in edges ==> e.0 in adj && e.1 in adj[e.0]
  {
    adj, nodes := map[], {};
    for i := 0 to |edges|
      invariant forall n :: n in nodes <==> exists k :: 0 <= k < i && (n == edges[k].0 || n == edges[k].1)
      invariant forall k :: 0 <= k < i ==> edges[k].0 in adj && edges[k].1 in adj[edges[k].0]
      invariant forall u :: u in adj ==> forall v :: v in adj[u] ==> (u, v) in edges
    {
      var (u, v) := edges[i];
      nodes := nodes + {u} + {v};
      adj := adj[u := (if u in adj then adj[u] else []) + [v]];
      assert (u, v) == edges[i];
    }
  }

  class Search {
    ghost const edges: Edges
    const adj: map<Node, seq<Node>>
    const nodes: set<Node>
    var color: map<Node, Color>

    ghost predicate GraphRead() {
      && (forall e :: e in edges ==> e.0 in nodes && e.1 in nodes)
      && (forall u :: u in adj ==> forall v :: v in adj[u] ==> (u, v) in edges)
      && (forall e :: e in edges ==> e.0 in adj && e.1 in adj[e.0])
    }

    ghost function Colored(c: Color): set<Node>
      reads this
    {
      set n | n in color && color[n] == c
    }

    // Gray nodes form the current path; black nodes are finished.
    ghost predicate Valid(path: seq<Node>)
      reads this
    {
      && GraphRead() && color.Keys == nodes
      && (forall n :: n in Colored(Gray) <==> n in path)
      && Walk(edges, path)
      && Acyclic(edges, Colored(Black))
    }

    function Next(u: Node): seq<Node> {
      if u in adj then adj[u] else []
    }

    constructor (edges: Edges)
      ensures this.edges == edges && Valid([]) && Colored(White) == nodes && fresh(this)
      ensures forall n :: n in nodes <==> exists e :: e in edges && (n == e.0 || n == e.1)
    {
      var successors, endpoints := ReadEdges(edges);
      this.edges, adj, nodes := edges, successors, endpoints;
      color := map n | n in endpoints :: White;
      new;
      NothingFinished(edges);
      hide Walk, Acyclic;
      assert Colored(Black) == {} && Colored(Gray) == {};
    }

    method Visit(u: Node, ghost path: seq<Node>) returns (found: bool)
      requires Valid(path) && u in color && color[u] == White
      requires path != [] ==> (path[|path| - 1], u) in edges
      modifies this`color
      ensures found ==> HasCycle(edges)
      ensures !found ==> Valid(path) && u in Colored(Black)
      ensures !found ==> old(Colored(Black)) <= Colored(Black) && Colored(White) < old(Colored(White))
      decreases Colored(White)
    {
      hide Acyclic, HasCycle, Walk;
      ExtendWalk(edges, path, u);
      ghost var white, black := Colored(White), Colored(Black);
      color := color[u := Gray];
      ghost var here := path + [u];
      assert Colored(White) == white - {u} && Colored(Black) == black;
      assert forall n :: n in Colored(Gray) <==> n in here;
      var next := Next(u);
      for i := 0 to |next|
        invariant Valid(here) && black <= Colored(Black) && Colored(White) <= white - {u}
        invariant forall k :: 0 <= k < i ==> next[k] in Colored(Black)
      {
        var v := next[i];
        assert v in adj[u];
        if color[v] == Gray {
          assert v in Colored(Gray);
          ClosingEdge(edges, here, v);
          return true;
        }
        if color[v] == White {
          var deeper := Visit(v, here);
          if deeper { return true; }
        }
      }
      Finish(u, path);
      return false;
    }

    // `color[u] = BLACK`: the node leaves the path.
    method Finish(u: Node, ghost path: seq<Node>)
      requires Valid(path + [u]) && u !in path
      requires forall k :: 0 <= k < |Next(u)| ==> Next(u)[k] in Colored(Black)
      modifies this`color
      ensures Valid(path) && Colored(Black) == old(Colored(Black)) + {u} && Colored(White) == old(Colored(White))
    {
      hide Acyclic, HasCycle;
      ghost var done, gray, white := Colored(Black), Colored(Gray), Colored(White);
      forall e | e in edges && e.0 == u ensures e.1 in done {
        var k :| 0 <= k < |Next(u)| && Next(u)[k] == e.1;
        assert Next(u)[k] in Colored(Black);
      }
      AddFinished(edges, done, u);
      assert u in path + [u];
      assert u in gray;
      assert Walk(edges, path) by { ShorterWalk(edges, path, u); }
      color := color[u := Black];
      assert Colored(Black) == done + {u} && Colored(Gray) == gray - {u} && Colored(White) == white;
    }
  }

  /** True exactly when the edge list contains a directed cycle. */
  method DirectedGraphHasCycle(edges: Edges) returns (r: bool)
    ensures r <==> HasCycle(edges)
  {
    var s := new Search(edges);
    var todo := s.nodes;
    while todo != {}
      invariant s.Valid([]) && todo <= s.nodes
      invariant s.nodes - todo <= s.Colored(Black)
      decreases todo
    {
      var n :| n in todo;
      if s.color[n] == White {
        var found := s.Visit(n, []);
        if found { return true; }
      }
      assert n !in s.Colored(Gray);
      todo := todo - {n};
    }
    AllFinished(edges, s.Colored(Black));
    return false;
  }
}
