/** Undirected graphs, their walks, and the worklist search that finds a connected component. */
module Graphs {
  type Node = string

  /** The adjacency dictionary behind a simple undirected graph. */
  datatype Graph = Graph(adj: map<Node, set<Node>>)

  /** Every neighbour is a node, adjacency is symmetric, and no node is its own neighbour. */
  ghost predicate Valid(g: Graph) {
    && (forall v | v in g.adj :: g.adj[v] <= g.adj.Keys && v !in g.adj[v])
    && (forall v, w | v in g.adj && w in g.adj[v] :: w in g.adj && v in g.adj[w])
  }

  ghost predicate HasEdge(g: Graph, v: Node, w: Node) {
    v in g.adj && w in g.adj[v]
  }

  /** `p` is a non-empty walk along edges of `g`. */
  ghost predicate IsWalk(g: Graph, p: seq<Node>) {
    && |p| > 0
    && (if |p| == 1 then p[0] in g.adj else IsWalk(g, p[..|p| - 1]) && HasEdge(g, p[|p| - 2], p[|p| - 1]))
  }

  ghost predicate Walk(g: Graph, p: seq<Node>, a: Node, b: Node) {
    IsWalk(g, p) && p[0] == a && p[|p| - 1] == b
  }

  ghost predicate Connected(g: Graph, a: Node, b: Node) {
    exists p :: Walk(g, p, a, b)
  }

  ghost predicate CrossesEdge(p: seq<Node>, u: Node, w: Node) {
    exists i | 0 < i < |p| :: {p[i - 1], p[i]} == {u, w}
  }

  ghost function Component(g: Graph, a: Node): set<Node> {
    set v | v in g.adj && Connected(g, a, v)
  }

  function RemoveNode(g: Graph, d: Node): Graph {
    Graph(map v | v in g.adj && v != d :: g.adj[v] - {d})
  }

  function RemoveEdge(g: Graph, u: Node, w: Node): Graph {
    Graph(map v | v in g.adj ::
            if v == u then g.adj[v] - {w} else if v == w then g.adj[v] - {u} else g.adj[v])
  }

  // ---- walks ----

  lemma {:induction false} WalkNodesExist(g: Graph, p: seq<Node>)
    requires Valid(g) && IsWalk(g, p)
    ensures forall v | v in p :: v in g.adj
  {
    if |p| > 1 {
      WalkNodesExist(g, p[..|p| - 1]);
      assert p == p[..|p| - 1] + [p[|p| - 1]];
    }
  }

  lemma SelfConnected(g: Graph, a: Node)
    requires a in g.adj
    ensures Connected(g, a, a)
  {
    assert Walk(g, [a], a, a);
  }

  lemma StepConnected(g: Graph, a: Node, v: Node, w: Node)
    requires Connected(g, a, v) && HasEdge(g, v, w)
    ensures Connected(g, a, w)
  {
    var p :| Walk(g, p, a, v);
    assert (p + [w])[..|p|] == p;
    assert Walk(g, p + [w], a, w);
  }

  lemma {:induction false} WalkJoin(g: Graph, a: Node, b: Node, q: seq<Node>, c: Node)
    requires Connected(g, a, b) && Walk(g, q, b, c)
    ensures Connected(g, a, c)
    decreases |q|
  {
    if |q| > 1 {
      WalkJoin(g, a, b, q[..|q| - 1], q[|q| - 2]);
      StepConnected(g, a, q[|q| - 2], c);
    }
  }

  lemma Transitive(g: Graph, a: Node, b: Node, c: Node)
    requires Connected(g, a, b) && Connected(g, b, c)
    ensures Connected(g, a, c)
  {
    var q :| Walk(g, q, b, c);
    WalkJoin(g, a, b, q, c);
  }

  lemma {:induction false} WalkBack(g: Graph, p: seq<Node>, a: Node, b: Node)
    requires Valid(g) && Walk(g, p, a, b)
    ensures Connected(g, b, a)
    decreases |p|
  {
    if |p| == 1 {
      SelfConnected(g, a);
    } else {
      var x := p[|p| - 2];
      WalkBack(g, p[..|p| - 1], a, x);
      SelfConnected(g, b);
      StepConnected(g, b, b, x);
      Transitive(g, b, x, a);
    }
  }

  lemma Symmetric(g: Graph, a: Node, b: Node)
    requires Valid(g) && Connected(g, a, b)
    ensures Connected(g, b, a)
  {
    var p :| Walk(g, p, a, b);
    WalkBack(g, p, a, b);
  }

  // ---- searching ----

  /** A set that holds the start and is closed under adjacency holds everything reachable. */
  lemma {:induction false} ClosedHoldsWalk(g: Graph, s: set<Node>, p: seq<Node>)
    requires IsWalk(g, p) && p[0] in s
    requires forall v | v in s && v in g.adj :: g.adj[v] <= s
    ensures p[|p| - 1] in s
    decreases |p|
  {
    if |p| > 1 {
      ClosedHoldsWalk(g, s, p[..|p| - 1]);
    }
  }

  /** Worklist search: the nodes joined to `source` by a walk, and no others. */
  method ConnectedComponent(g: Graph, source: Node) returns (seen: set<Node>)
    requires Valid(g) && source in g.adj
    ensures seen == Component(g, source)
  {
    seen := {source};
    var frontier := {source};
    SelfConnected(g, source);
    while frontier != {}
      invariant source in seen && frontier <= seen <= g.adj.Keys
      invariant forall v | v in seen :: Connected(g, source, v)
      invariant forall v | v in seen - frontier :: g.adj[v] <= seen
      decreases g.adj.Keys - seen, frontier
    {
      var v :| v in frontier;
      var unseen := g.adj[v] - seen;
      forall w | w in unseen
        ensures Connected(g, source, w)
      {
        StepConnected(g, source, v, w);
      }
      seen := seen + unseen;
      frontier := frontier - {v} + unseen;
    }
    forall v | v in g.adj && Connected(g, source, v)
      ensures v in seen
    {
      var p :| Walk(g, p, source, v);
      ClosedHoldsWalk(g, seen, p);
    }
  }

  // ---- deleting a node or an edge ----

  lemma RemovalsValid(g: Graph, u: Node, w: Node)
    requires Valid(g)
    ensures Valid(RemoveNode(g, u))
    ensures Valid(RemoveEdge(g, u, w))
  {
  }

  lemma EdgeWithoutNode(g: Graph, d: Node, x: Node, y: Node)
    requires Valid(g)
    ensures HasEdge(RemoveNode(g, d), x, y) <==> HasEdge(g, x, y) && x != d && y != d
  {
  }

  /** The walks of the graph without `d` are the walks of `g` that avoid `d`. */
  lemma {:induction false} WalkWithoutNode(g: Graph, d: Node, p: seq<Node>)
    requires Valid(g)
    ensures IsWalk(RemoveNode(g, d), p) <==> IsWalk(g, p) && d !in p
  {
    if |p| > 1 {
      var q, x, y := p[..|p| - 1], p[|p| - 2], p[|p| - 1];
      WalkWithoutNode(g, d, q);
      EdgeWithoutNode(g, d, x, y);
      assert p == q + [y] && x in q;
    }
  }

  /** The walks of the graph without the edge are the walks of `g` that never cross it. */
  lemma {:induction false} WalkWithoutEdge(g: Graph, u: Node, w: Node, p: seq<Node>)
    requires Valid(g) && u != w
    ensures IsWalk(RemoveEdge(g, u, w), p) <==> IsWalk(g, p) && !CrossesEdge(p, u, w)
  {
    if |p| > 1 {
      var q, x, y := p[..|p| - 1], p[|p| - 2], p[|p| - 1];
      WalkWithoutEdge(g, u, w, q);
      assert HasEdge(RemoveEdge(g, u, w), x, y) <==> HasEdge(g, x, y) && {x, y} != {u, w};
      assert CrossesEdge(p, u, w) <==> CrossesEdge(q, u, w) || {x, y} == {u, w} by {
        if CrossesEdge(p, u, w) && {x, y} != {u, w} {
          var i :| 0 < i < |p| && {p[i - 1], p[i]} == {u, w};
          assert 0 < i < |q| && q[i - 1] == p[i - 1] && q[i] == p[i];
        }
        if CrossesEdge(q, u, w) {
          var i :| 0 < i < |q| && {q[i - 1], q[i]} == {u, w};
          assert 0 < i < |p| && q[i - 1] == p[i - 1] && q[i] == p[i];
        }
      }
    }
  }

  /** After deleting an edge, a walk of `g` still joins its ends or both ends touch the deleted edge's sides. */
  lemma {:induction false} EdgeRemovalSplit(g: Graph, u: Node, w: Node, p: seq<Node>, a: Node, b: Node)
    requires Valid(g) && u != w && HasEdge(g, u, w) && Walk(g, p, a, b)
    ensures var h := RemoveEdge(g, u, w);
            Connected(h, a, b)
            || ((Connected(h, u, a) || Connected(h, w, a)) && (Connected(h, u, b) || Connected(h, w, b)))
    decreases |p|
  {
    var h := RemoveEdge(g, u, w);
    RemovalsValid(g, u, w);
    if |p| == 1 {
      SelfConnected(h, a);
    } else {
      var x := p[|p| - 2];
      EdgeRemovalSplit(g, u, w, p[..|p| - 1], a, x);
      if {x, b} == {u, w} {
        assert b == u || b == w;
        SelfConnected(h, b);
        if Connected(h, a, x) {
          Symmetric(h, a, x);
        }
      } else {
        assert HasEdge(h, x, b);
        if Connected(h, a, x) {
          StepConnected(h, a, x, b);
        } else if Connected(h, u, x) {
          StepConnected(h, u, x, b);
        } else {
          StepConnected(h, w, x, b);
        }
      }
    }
  }
}
