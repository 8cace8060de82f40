/** Finite directed graphs given as successor maps, and reachability along paths.

    A vertex without an entry has no successors, as in `graph.get(node, set())`. */
module Graphs {

  type Graph = map<string, set<string>>

  function Successors(g: Graph, x: string): set<string> {
    if x in g then g[x] else {}
  }

  /** Keys and everything that occurs as a successor. */
  function Vertices(g: Graph): set<string> {
    g.Keys + set x, y | x in g && y in g[x] :: y
  }

  /** `p` lists the vertices after x on a path from x to y. */
  ghost predicate IsPath(g: Graph, x: string, p: seq<string>, y: string)
    decreases |p|
  {
    if p == [] then x == y
    else p[0] in Successors(g, x) && IsPath(g, p[0], p[1..], y)
  }

  /** A path of length zero or more leads from x to y. */
  ghost predicate Reach(g: Graph, x: string, y: string) {
    exists p :: IsPath(g, x, p, y)
  }

  /** A path of length one or more leads from x to y. */
  ghost predicate ReachPlus(g: Graph, x: string, y: string) {
    exists z :: z in Successors(g, x) && Reach(g, z, y)
  }

  ghost predicate Mutual(g: Graph, x: string, y: string) {
    Reach(g, x, y) && Reach(g, y, x)
  }

  ghost predicate Acyclic(g: Graph) {
    forall x :: !ReachPlus(g, x, x)
  }

  ghost predicate Closed(g: Graph, s: set<string>) {
    forall x, y :: x in s && y in Successors(g, x) ==> y in s
  }

  lemma ReachSelf(g: Graph, x: string)
    ensures Reach(g, x, x)
  {
    assert IsPath(g, x, [], x);
  }

  lemma ReachEdge(g: Graph, x: string, y: string)
    requires y in Successors(g, x)
    ensures Reach(g, x, y)
    ensures ReachPlus(g, x, y)
  {
    ReachSelf(g, y);
    assert IsPath(g, x, [y], y);
  }

  lemma {:induction false} PathConcat(g: Graph, x: string, p: seq<string>, y: string, q: seq<string>, z: string)
    requires IsPath(g, x, p, y) && IsPath(g, y, q, z)
    ensures IsPath(g, x, p + q, z)
    decreases |p|
  {
    if p == [] {
      assert p + q == q;
    } else {
      PathConcat(g, p[0], p[1..], y, q, z);
      assert (p + q)[1..] == p[1..] + q;
    }
  }

  lemma ReachTransitive(g: Graph, x: string, y: string, z: string)
    requires Reach(g, x, y) && Reach(g, y, z)
    ensures Reach(g, x, z)
  {
    var p :| IsPath(g, x, p, y);
    var q :| IsPath(g, y, q, z);
    PathConcat(g, x, p, y, q, z);
  }

  /** Splits a path at its first edge. */
  lemma ReachStep(g: Graph, x: string, y: string)
    ensures Reach(g, x, y) <==> x == y || ReachPlus(g, x, y)
  {
    if Reach(g, x, y) && x != y {
      var p :| IsPath(g, x, p, y);
      assert p[0] in Successors(g, x) && IsPath(g, p[0], p[1..], y);
    }
    if x == y {
      ReachSelf(g, x);
    }
    if ReachPlus(g, x, y) {
      var z :| z in Successors(g, x) && Reach(g, z, y);
      ReachEdge(g, x, z);
      ReachTransitive(g, x, z, y);
    }
  }

  lemma ReachPlusTransitive(g: Graph, x: string, y: string, z: string)
    requires Reach(g, x, y) && ReachPlus(g, y, z)
    ensures ReachPlus(g, x, z)
  {
    ReachStep(g, x, y);
    if x != y {
      var w :| w in Successors(g, x) && Reach(g, w, y);
      ReachStep(g, y, z);
      ReachTransitive(g, w, y, z);
    }
  }

  /** A path that starts inside a set and ends outside leaves the set along some edge. */
  lemma {:induction false} ExitOfPath(g: Graph, x: string, p: seq<string>, y: string, s: set<string>)
    returns (a: string, b: string)
    requires IsPath(g, x, p, y) && x in s && y !in s
    ensures a in s && b !in s && b in Successors(g, a)
    ensures Reach(g, x, a) && Reach(g, b, y)
    decreases |p|
  {
    if p[0] in s {
      a, b := ExitOfPath(g, p[0], p[1..], y, s);
      ReachEdge(g, x, p[0]);
      ReachTransitive(g, x, p[0], a);
    } else {
      a, b := x, p[0];
      ReachSelf(g, x);
    }
  }

  lemma ExitEdge(g: Graph, x: string, y: string, s: set<string>) returns (a: string, b: string)
    requires Reach(g, x, y) && x in s && y !in s
    ensures a in s && b !in s && b in Successors(g, a)
    ensures Reach(g, x, a) && Reach(g, b, y)
  {
    var p :| IsPath(g, x, p, y);
    a, b := ExitOfPath(g, x, p, y, s);
  }

  lemma ClosedReach(g: Graph, s: set<string>, x: string, y: string)
    requires Closed(g, s) && x in s && Reach(g, x, y)
    ensures y in s
  {
    if y !in s {
      var a, b := ExitEdge(g, x, y, s);
      assert false;
    }
  }

  lemma ReachStaysInVertices(g: Graph, x: string, y: string)
    requires Reach(g, x, y) && x != y
    ensures x in g && y in Vertices(g)
  {
    ReachStep(g, x, y);
    var z :| z in Successors(g, x) && Reach(g, z, y);
    ClosedReach(g, Vertices(g), x, y);
  }
}
