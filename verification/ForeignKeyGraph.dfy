/** The foreign-key graph: a table maps to the set of tables that it references. */
module ForeignKeyGraph {

  type Graph = map<string, set<string>>

  /** A missing table has no references, as a missing key of a Go map has none. */
  function Successors(g: Graph, n: string): set<string> {
    if n in g then g[n] else {}
  }

  function Vertices(g: Graph): set<string> {
    g.Keys + set n, m | n in g && m in g[n] :: m
  }

  /** p lists the tables visited after x on a walk along references from x to y. */
  ghost predicate IsPath(g: Graph, p: seq<string>, x: string, y: string) {
    if p == [] then x == y
    else p[0] in Successors(g, x) && IsPath(g, p[1..], p[0], y)
  }

  ghost predicate Reach(g: Graph, x: string, y: string) {
    exists p :: IsPath(g, p, x, y)
  }

  ghost predicate Mutual(g: Graph, x: string, y: string) {
    Reach(g, x, y) && Reach(g, y, x)
  }

  ghost predicate Closed(g: Graph, s: set<string>) {
    forall n, m :: n in s && m in Successors(g, n) ==> m in s
  }

  /** A nonempty set of tables that is a class of mutual reachability: its members
      reach each other and no other table can be added. */
  ghost predicate IsComponent(g: Graph, s: set<string>) {
    && s != {}
    && forall x, y {:trigger Mutual(g, x, y)} :: x in s ==> (y in s <==> Mutual(g, x, y))
  }

  /** x lies on a cycle: one of its references leads back to it. */
  ghost predicate OnCycle(g: Graph, x: string) {
    exists m :: m in Successors(g, x) && Reach(g, m, x)
  }

  lemma ReachSelf(g: Graph, x: string)
    ensures Reach(g, x, x)
  {
    assert IsPath(g, [], x, x);
  }

  lemma ReachFrom(g: Graph, x: string, m: string, y: string)
    requires m in Successors(g, x) && Reach(g, m, y)
    ensures Reach(g, x, y)
  {
    var p :| IsPath(g, p, m, y);
    assert ([m] + p)[1..] == p;
    assert IsPath(g, [m] + p, x, y);
  }

  lemma ReachEdge(g: Graph, x: string, y: string)
    requires y in Successors(g, x)
    ensures Reach(g, x, y)
  {
    ReachSelf(g, y);
    ReachFrom(g, x, y, y);
  }

  lemma ReachStep(g: Graph, x: string, y: string)
    requires Reach(g, x, y) && x != y
    ensures exists m :: m in Successors(g, x) && Reach(g, m, y)
  {
    var p :| IsPath(g, p, x, y);
    assert IsPath(g, p[1..], p[0], y);
  }

  lemma {:induction false} PathReach(g: Graph, p: seq<string>, x: string, y: string, z: string)
    requires IsPath(g, p, x, y) && Reach(g, y, z)
    ensures Reach(g, x, z)
  {
    if p != [] {
      PathReach(g, p[1..], p[0], y, z);
      ReachFrom(g, x, p[0], z);
    }
  }

  lemma ReachTransitive(g: Graph, x: string, y: string, z: string)
    requires Reach(g, x, y) && Reach(g, y, z)
    ensures Reach(g, x, z)
  {
    var p :| IsPath(g, p, x, y);
    PathReach(g, p, x, y, z);
  }

  lemma {:induction false} ClosedPath(g: Graph, s: set<string>, p: seq<string>, x: string, y: string)
    requires Closed(g, s) && x in s && IsPath(g, p, x, y)
    ensures y in s
  {
    if p != [] {
      ClosedPath(g, s, p[1..], p[0], y);
    }
  }

  /** What a closed set contains, it keeps. */
  lemma ClosedReach(g: Graph, s: set<string>, x: string, y: string)
    requires Closed(g, s) && x in s && Reach(g, x, y)
    ensures y in s
  {
    var p :| IsPath(g, p, x, y);
    ClosedPath(g, s, p, x, y);
  }

  /** A class of mutual reachability is determined by any of its members. */
  lemma ComponentsMeetOnlyIfEqual(g: Graph, s: set<string>, t: set<string>, x: string)
    requires IsComponent(g, s) && IsComponent(g, t) && x in s && x in t
    ensures s == t
  {
    forall y
      ensures y in s <==> y in t
    {
      assert (Mutual(g, x, y) ==> y in s) && (!Mutual(g, x, y) ==> y !in s);
    }
  }

  /** Two different mutually reachable tables lie on a cycle. */
  lemma MutualOnCycle(g: Graph, x: string, y: string)
    requires Mutual(g, x, y) && x != y
    ensures OnCycle(g, x)
  {
    ReachStep(g, x, y);
    var m :| m in Successors(g, x) && Reach(g, m, y);
    ReachTransitive(g, m, y, x);
  }
}
