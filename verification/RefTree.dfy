/**
  The tree of references built while a Ptr is reset: nodes with sets of children, cycles included.
 */
module RefTree {

  type Node = nat
  type Graph = map<Node, set<Node>>

  ghost predicate Closed(g: Graph) {
    forall a, b :: a in g && b in g[a] ==> b in g
  }

  ghost predicate Edge(g: Graph, a: Node, b: Node) {
    a in g && b in g[a]
  }

  ghost predicate IsPath(g: Graph, path: seq<Node>) {
    forall i :: 0 <= i < |path| - 1 ==> Edge(g, path[i], path[i + 1])
  }

  ghost predicate Joins(g: Graph, path: seq<Node>, a: Node, b: Node) {
    |path| > 0 && path[0] == a && path[|path| - 1] == b && IsPath(g, path)
  }

  /** A path of any length, also none at all. */
  ghost predicate Reaches(g: Graph, a: Node, b: Node) {
    exists path :: Joins(g, path, a, b)
  }

  /** A path of at least one edge. */
  ghost predicate Leads(g: Graph, a: Node, b: Node) {
    exists c :: Edge(g, a, c) && Reaches(g, c, b)
  }

  ghost predicate ClosedSet(g: Graph, nodes: set<Node>) {
    forall a, b :: a in nodes && Edge(g, a, b) ==> b in nodes
  }

  lemma ReachesSelf(g: Graph, a: Node)
    ensures Reaches(g, a, a)
  {
    assert Joins(g, [a], a, a);
  }

  lemma LeadsOrSame(g: Graph, a: Node, b: Node)
    requires Reaches(g, a, b) && a != b
    ensures Leads(g, a, b)
  {
    var path :| Joins(g, path, a, b);
    assert Edge(g, path[0], path[1]);
    assert Joins(g, path[1..], path[1], b) by { TailIsPath(g, path); }
  }

  lemma LeadsReaches(g: Graph, a: Node, b: Node)
    requires Leads(g, a, b)
    ensures Reaches(g, a, b)
  {
    var c :| Edge(g, a, c) && Reaches(g, c, b);
    var path :| Joins(g, path, c, b);
    var longer := [a] + path;
    assert forall i :: 0 < i < |longer| - 1 ==> longer[i] == path[i - 1] && Edge(g, path[i - 1], path[i]);
    assert Joins(g, longer, a, b);
  }

  lemma TailIsPath(g: Graph, path: seq<Node>)
    requires |path| > 1 && IsPath(g, path)
    ensures IsPath(g, path[1..])
  {
    forall i | 0 <= i < |path[1..]| - 1
      ensures Edge(g, path[1..][i], path[1..][i + 1])
    {
      assert Edge(g, path[i + 1], path[i + 2]);
    }
  }

  /** Paths do not leave a closed set. */
  lemma {:induction false} StaysInside(g: Graph, nodes: set<Node>, path: seq<Node>)
    requires ClosedSet(g, nodes) && |path| > 0 && path[0] in nodes && IsPath(g, path)
    ensures path[|path| - 1] in nodes
    decreases |path|
  {
    if |path| == 1 {
    } else {
      assert Edge(g, path[0], path[1]);
      TailIsPath(g, path);
      StaysInside(g, nodes, path[1..]);
    }
  }

  /** The search has followed every child of the nodes of a set and not met p. */
  ghost predicate Settled(g: Graph, nodes: set<Node>, visited: set<Node>, p: Node) {
    forall a :: a in nodes ==> a in g && p !in g[a] && g[a] <= visited
  }

  lemma SettledMeansNoPath(g: Graph, node: Node, visited: set<Node>, p: Node)
    requires node in visited && Settled(g, visited, visited, p)
    ensures !Leads(g, node, p)
  {
    var others := visited - {p};
    if Leads(g, node, p) {
      var c :| Edge(g, node, c) && Reaches(g, c, p);
      var path :| Joins(g, path, c, p);
      assert ClosedSet(g, others);
      StaysInside(g, others, path);
    }
  }

  /** IsReachable with the set of visited nodes handed on from call to call. */
  method Search(g: Graph, node: Node, p: Node, visited: set<Node>) returns (found: bool, seen: set<Node>)
    requires Closed(g) && node in g && node !in visited && visited <= g.Keys
    ensures visited + {node} <= seen <= g.Keys
    ensures if found then Leads(g, node, p) else Settled(g, seen - visited, seen, p)
    decreases g.Keys - visited
  {
    seen := visited + {node};
    var children := g[node];
    while children != {}
      invariant visited + {node} <= seen <= g.Keys && children <= g[node]
      invariant Settled(g, seen - visited - {node}, seen, p)
      invariant p !in g[node] - children && g[node] - children <= seen
      decreases children
    {
      var rt :| rt in children;
      assert Edge(g, node, rt);
      if rt == p {
        ReachesSelf(g, p);
        return true, seen;
      }
      if rt !in seen {
        var before := seen;
        var deeper;
        deeper, seen := Search(g, rt, p, seen);
        if deeper {
          LeadsReaches(g, rt, p);
          return true, seen;
        }
        assert seen - visited - {node} == (seen - before) + (before - visited - {node});
      }
      children := children - {rt};
    }
    assert seen - visited == (seen - visited - {node}) + {node};
    found := false;
  }

  /** IsReachable answers whether a non-empty path leads to p, on every finite graph. */
  method IsReachable(g: Graph, node: Node, p: Node) returns (found: bool)
    requires Closed(g) && node in g
    ensures found <==> Leads(g, node, p)
  {
    var seen;
    found, seen := Search(g, node, p, {});
    if !found {
      assert seen - {} == seen;
      SettledMeansNoPath(g, node, seen, p);
    }
  }
}
