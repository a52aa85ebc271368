/** The precheck that finds cyclic foreign-key groups: Tarjan's algorithm over
    mutable maps and an explicit stack. */
module ForeignKeyCycles {
  import opened Ordering
  import opened ForeignKeyGraph

  /** The variables that the recursive closure shares, as one value. */
  datatype Dfs = Dfs(
    index: nat,
    stack: seq<string>,
    indexes: map<string, nat>,
    lowlink: map<string, nat>,
    components: seq<seq<string>>)

  /** Tables whose component has been decided. */
  function Done(d: Dfs): set<string> {
    d.indexes.Keys - Members(d.stack)
  }

  ghost predicate StackOrdered(d: Dfs) {
    && (forall i :: 0 <= i < |d.stack| ==> d.stack[i] in d.indexes)
    && (forall i, j :: 0 <= i < j < |d.stack| ==> d.indexes[d.stack[i]] < d.indexes[d.stack[j]])
  }

  ghost predicate Numbered(g: Graph, d: Dfs) {
    && d.indexes.Keys == d.lowlink.Keys <= Vertices(g)
    && forall n :: n in d.indexes ==> d.indexes[n] < d.index
  }

  /** Every table on the stack reaches the tables above it. */
  ghost predicate StackReaches(g: Graph, d: Dfs) {
    forall i, j {:trigger Reach(g, d.stack[i], d.stack[j])} ::
      0 <= i <= j < |d.stack| ==> Reach(g, d.stack[i], d.stack[j])
  }

  /** y reaches a table, not numbered higher, that is still being explored. */
  ghost predicate OpenBelow(g: Graph, indexes: map<string, nat>, open: set<string>, y: string) {
    exists x :: x in open && x in indexes && y in indexes && indexes[x] <= indexes[y] && Reach(g, y, x)
  }

  ghost predicate ReachesOpen(g: Graph, d: Dfs, open: set<string>) {
    forall y {:trigger OpenBelow(g, d.indexes, open, y)} :: y in d.stack ==> OpenBelow(g, d.indexes, open, y)
  }

  /** All references of a table whose exploration ended have been visited. */
  ghost predicate Explored(g: Graph, d: Dfs, open: set<string>) {
    forall n, m :: n in d.indexes && n !in open && m in Successors(g, n) ==> m in d.indexes
  }

  /** comps lists, without repetition, exactly the components of more than one table within done. */
  ghost predicate ListsComponents(g: Graph, done: set<string>, comps: seq<seq<string>>) {
    && (forall c :: c in comps ==>
          Sorted(c) && Distinct(c) && |c| > 1 && IsComponent(g, Members(c)) && Members(c) <= done)
    && (forall i, j :: 0 <= i < j < |comps| ==> Members(comps[i]) !! Members(comps[j]))
    && (forall x, y :: x in done && Mutual(g, x, y) && x != y ==> exists c :: c in comps && x in c)
  }

  ghost predicate Inv(g: Graph, d: Dfs, open: set<string>) {
    && StackOrdered(d) && Numbered(g, d)
    && open <= Members(d.stack)
    && StackReaches(g, d) && ReachesOpen(g, d, open)
    && Explored(g, d, open)
    && Closed(g, Done(d))
    && ListsComponents(g, Done(d), d.components)
  }

  /** Nothing recorded earlier is overwritten and the old stack stays below the new part. */
  ghost predicate Extends(d: Dfs, e: Dfs) {
    && d.stack <= e.stack
    && (forall n :: n in d.indexes ==> n in e.indexes && e.indexes[n] == d.indexes[n])
    && (forall n :: n in d.lowlink ==> n in e.lowlink && e.lowlink[n] == d.lowlink[n])
  }

  /** low is at most the number of every table in below that is referenced from above. */
  ghost predicate LowBounds(g: Graph, indexes: map<string, nat>, below: seq<string>, above: seq<string>, low: nat) {
    forall x, y :: x in above && y in below && y in Successors(g, x) && y in indexes ==> low <= indexes[y]
  }

  /** What a finished exploration of node tells its caller. */
  ghost predicate Finished(g: Graph, d: Dfs, e: Dfs, node: string) {
    && Extends(d, e)
    && node in e.indexes && node in e.lowlink && node !in d.indexes
    && e.lowlink[node] <= e.indexes[node]
    && (forall n :: n in d.indexes ==> d.indexes[n] < e.indexes[node])
    && LowBounds(g, e.indexes, d.stack, e.stack[|d.stack|..], e.lowlink[node])
    && if e.stack == d.stack then e.lowlink[node] == e.indexes[node]
       else LowReached(g, e.indexes, d.stack, node, e.lowlink[node])
  }

  /** What the exploration of node, begun in state d, has recorded after the references in seen. */
  ghost predicate Progress(g: Graph, d: Dfs, e: Dfs, node: string, seen: seq<string>) {
    && Extends(d, e)
    && |d.stack| < |e.stack| && e.stack[|d.stack|] == node
    && node !in d.indexes && node !in d.lowlink
    && node in e.indexes && node in e.lowlink && e.lowlink[node] <= e.indexes[node]
    && (forall n :: n in d.indexes ==> d.indexes[n] < e.indexes[node])
    && LowReached(g, e.indexes, e.stack, node, e.lowlink[node])
    && LowBounds(g, e.indexes, d.stack, e.stack[|d.stack| + 1..], e.lowlink[node])
    && (forall m :: m in seen ==> m in e.indexes && (m in d.stack ==> e.lowlink[node] <= e.indexes[m]))
  }

  ghost predicate Exploring(g: Graph, d: Dfs, e: Dfs, node: string, open: set<string>, seen: seq<string>) {
    Progress(g, d, e, node, seen) && Inv(g, e, open + {node})
  }

  function Enter(d: Dfs, node: string): Dfs {
    Dfs(d.index + 1, d.stack + [node], d.indexes[node := d.index], d.lowlink[node := d.index], d.components)
  }

  lemma EnterShape(g: Graph, d: Dfs, node: string, open: set<string>)
    requires StackOrdered(d) && Numbered(g, d) && Explored(g, d, open)
    requires node in Vertices(g) && node !in d.indexes
    ensures var e := Enter(d, node);
      StackOrdered(e) && Numbered(g, e) && Explored(g, e, open + {node}) && Done(e) == Done(d) && Extends(d, e)
  {}

  lemma EnterStackReaches(g: Graph, d: Dfs, node: string, open: set<string>)
    requires StackReaches(g, d) && ReachesOpen(g, d, open)
    requires forall x :: x in open ==> Reach(g, x, node)
    ensures StackReaches(g, Enter(d, node))
  {
    var e := Enter(d, node);
    ReachSelf(g, node);
    forall i | 0 <= i < |d.stack|
      ensures Reach(g, d.stack[i], node)
    {
      var y := d.stack[i];
      assert OpenBelow(g, d.indexes, open, y);
      var x :| x in open && Reach(g, y, x);
      ReachTransitive(g, y, x, node);
    }
    forall i, j | 0 <= i <= j < |e.stack|
      ensures Reach(g, e.stack[i], e.stack[j])
    {
      assert j < |d.stack| ==> Reach(g, d.stack[i], d.stack[j]);
    }
  }

  lemma EnterReachesOpen(g: Graph, d: Dfs, node: string, open: set<string>)
    requires StackOrdered(d) && ReachesOpen(g, d, open) && node !in d.indexes
    ensures ReachesOpen(g, Enter(d, node), open + {node})
  {
    var e := Enter(d, node);
    ReachSelf(g, node);
    forall y | y in e.stack
      ensures OpenBelow(g, e.indexes, open + {node}, y)
    {
      if y in d.stack {
        assert OpenBelow(g, d.indexes, open, y);
        var x :| x in open && x in d.indexes && d.indexes[x] <= d.indexes[y] && Reach(g, y, x);
        assert x in open + {node} && x in e.indexes && e.indexes[x] <= e.indexes[y];
      } else {
        assert y == node && y in open + {node};
      }
    }
  }

  lemma EnterExplores(g: Graph, d: Dfs, node: string, open: set<string>)
    requires Inv(g, d, open) && node in Vertices(g) && node !in d.indexes
    requires forall x :: x in open ==> Reach(g, x, node)
    ensures Exploring(g, d, Enter(d, node), node, open, [])
  {
    EnterShape(g, d, node, open);
    EnterStackReaches(g, d, node, open);
    EnterReachesOpen(g, d, node, open);
    ReachSelf(g, node);
    var e := Enter(d, node);
    assert node in e.stack;
  }

  lemma ChildLowBounds(g: Graph, d: Dfs, e: Dfs, f: Dfs, low: nat, node: string)
    requires d.stack <= e.stack <= f.stack && |d.stack| < |e.stack| && Extends(e, f)
    requires node in e.lowlink && LowBounds(g, e.indexes, d.stack, e.stack[|d.stack| + 1..], e.lowlink[node])
    requires LowBounds(g, f.indexes, e.stack, f.stack[|e.stack|..], low)
    requires forall n :: n in d.stack ==> n in e.indexes
    ensures LowBounds(g, f.indexes, d.stack, f.stack[|d.stack| + 1..], if low < e.lowlink[node] then low
      else e.lowlink[node])
  {
    assert f.stack[|d.stack| + 1..] == e.stack[|d.stack| + 1..] + f.stack[|e.stack|..];
    assert forall y :: y in d.stack ==> y in e.stack;
  }

  /** The number kept for node is that of a table on the stack which node reaches. */
  ghost predicate LowReached(g: Graph, indexes: map<string, nat>, stack: seq<string>, node: string, low: nat) {
    exists z :: z in stack && z in indexes && indexes[z] == low && Reach(g, node, z)
  }

  lemma ChildLowReached(g: Graph, e: Dfs, f: Dfs, node: string, m: string)
    requires Finished(g, e, f, m) && m in Successors(g, node)
    requires node in e.indexes && node in e.lowlink && e.lowlink[node] <= e.indexes[node]
    requires LowReached(g, e.indexes, e.stack, node, e.lowlink[node])
    ensures LowReached(g, f.indexes, f.stack, node, if f.lowlink[m] < e.lowlink[node] then f.lowlink[m]
      else e.lowlink[node])
  {
    if f.lowlink[m] < e.lowlink[node] {
      var z :| z in e.stack && z in f.indexes && f.indexes[z] == f.lowlink[m] && Reach(g, m, z);
      ReachFrom(g, node, m, z);
      assert z in f.stack;
    } else {
      var z :| z in e.stack && z in e.indexes && e.indexes[z] == e.lowlink[node] && Reach(g, node, z);
      assert z in f.stack && f.indexes[z] == e.indexes[z];
    }
  }

  /** node's number after its reference m is known to reach as low as low. */
  function Lower(e: Dfs, node: string, low: nat): Dfs
    requires node in e.lowlink
  {
    if low < e.lowlink[node] then e.(lowlink := e.lowlink[node := low]) else e
  }

  lemma ChildProgress(g: Graph, d: Dfs, e: Dfs, f: Dfs, node: string, seen: seq<string>, m: string)
    requires Progress(g, d, e, node, seen) && Finished(g, e, f, m) && m in Successors(g, node)
    requires forall n :: n in d.stack ==> n in d.indexes
    requires forall n :: n in e.stack ==> n in e.indexes
    ensures node in f.lowlink && Progress(g, d, Lower(f, node, f.lowlink[m]), node, seen + [m])
  {
    ChildLowBounds(g, d, e, f, f.lowlink[m], node);
    ChildLowReached(g, e, f, node, m);
  }

  /** The caller's view once a reference that had not been visited is finished. */
  lemma ChildFinished(g: Graph, d: Dfs, e: Dfs, f: Dfs, node: string, open: set<string>, seen: seq<string>, m: string)
    requires Exploring(g, d, e, node, open, seen) && m in Successors(g, node)
    requires Inv(g, f, open + {node}) && Finished(g, e, f, m)
    requires forall n :: n in d.stack ==> n in d.indexes
    ensures node in f.lowlink && Exploring(g, d, Lower(f, node, f.lowlink[m]), node, open, seen + [m])
  {
    ChildProgress(g, d, e, f, node, seen, m);
    LowerKeepsInv(g, f, Lower(f, node, f.lowlink[m]), open + {node});
  }

  lemma LowerKeepsInv(g: Graph, f: Dfs, h: Dfs, open: set<string>)
    requires Inv(g, f, open)
    requires h == f.(lowlink := h.lowlink) && h.lowlink.Keys == f.lowlink.Keys
    ensures Inv(g, h, open)
  {
    assert Done(h) == Done(f);
  }

  lemma VisitedProgress(g: Graph, d: Dfs, e: Dfs, h: Dfs, node: string, seen: seq<string>, m: string)
    requires Progress(g, d, e, node, seen) && m in Successors(g, node) && m in e.indexes
    requires h == if m in e.stack then Lower(e, node, e.indexes[m]) else e
    ensures Progress(g, d, h, node, seen + [m])
  {
    ReachEdge(g, node, m);
    assert forall y :: y in d.stack ==> y in e.stack;
  }

  /** The caller's view of a reference that was already visited. */
  lemma VisitedReference(g: Graph, d: Dfs, e: Dfs, h: Dfs, node: string, open: set<string>, seen: seq<string>,
                         m: string)
    requires Exploring(g, d, e, node, open, seen) && m in Successors(g, node) && m in e.indexes
    requires h == if m in e.stack then Lower(e, node, e.indexes[m]) else e
    ensures Exploring(g, d, h, node, open, seen + [m])
  {
    VisitedProgress(g, d, e, h, node, seen, m);
    LowerKeepsInv(g, e, h, open + {node});
  }

  /** A table below node on the stack has a smaller number, and conversely. */
  lemma BelowIsSmaller(d: Dfs, e: Dfs, node: string, z: string)
    requires StackOrdered(e) && d.stack <= e.stack && |d.stack| < |e.stack| && e.stack[|d.stack|] == node
    requires z in e.stack
    ensures e.indexes[z] < e.indexes[node] <==> z in d.stack
  {
    assert forall i :: 0 <= i < |d.stack| ==> d.stack[i] == e.stack[i] && e.indexes[d.stack[i]] < e.indexes[node];
    var i :| 0 <= i < |e.stack| && e.stack[i] == z;
    assert i < |d.stack| ==> z == d.stack[i];
  }

  lemma KeptReachesOpen(g: Graph, d: Dfs, e: Dfs, node: string, open: set<string>, z: string)
    requires StackOrdered(e) && ReachesOpen(g, e, open + {node})
    requires z in e.stack && node in e.indexes && e.indexes[z] < e.indexes[node] && Reach(g, node, z)
    ensures ReachesOpen(g, e, open)
  {
    assert OpenBelow(g, e.indexes, open + {node}, z);
    var w :| w in open + {node} && w in e.indexes && e.indexes[w] <= e.indexes[z] && Reach(g, z, w);
    forall y | y in e.stack
      ensures OpenBelow(g, e.indexes, open, y)
    {
      assert OpenBelow(g, e.indexes, open + {node}, y);
      var x :| x in open + {node} && x in e.indexes && e.indexes[x] <= e.indexes[y] && Reach(g, y, x);
      if x == node {
        ReachTransitive(g, y, node, z);
        ReachTransitive(g, y, z, w);
        assert w in open;
      }
    }
  }

  /** node stays on the stack: it reaches a table below it. */
  lemma KeepOnStack(g: Graph, d: Dfs, e: Dfs, node: string, open: set<string>, seen: seq<string>)
    requires Exploring(g, d, e, node, open, seen) && e.lowlink[node] != e.indexes[node]
    requires forall m :: m in Successors(g, node) ==> m in seen
    requires open <= Members(d.stack)
    ensures Inv(g, e, open) && Finished(g, d, e, node)
  {
    var z :| z in e.stack && z in e.indexes && e.indexes[z] == e.lowlink[node] && Reach(g, node, z);
    BelowIsSmaller(d, e, node, z);
    assert LowReached(g, e.indexes, d.stack, node, e.lowlink[node]);
    KeptReachesOpen(g, d, e, node, open, z);
    assert e.stack[|d.stack|..] == [node] + e.stack[|d.stack| + 1..];
  }

  /** The tables above node's entry stack, node included. */
  function Above(d: Dfs, e: Dfs): set<string>
    requires |d.stack| <= |e.stack|
  {
    Members(e.stack[|d.stack|..])
  }

  lemma AbovePartition(d: Dfs, e: Dfs)
    requires d.stack <= e.stack && StackOrdered(e)
    ensures forall y :: y in e.stack <==> y in d.stack || y in Above(d, e)
    ensures Above(d, e) !! Members(d.stack)
    ensures e.indexes.Keys - Members(d.stack) == Done(e) + Above(d, e)
  {
    assert e.stack == d.stack + e.stack[|d.stack|..];
    forall y | y in Above(d, e)
      ensures y !in d.stack
    {
      var i :| |d.stack| <= i < |e.stack| && e.stack[i] == y;
      assert forall j :: 0 <= j < |d.stack| ==> d.stack[j] == e.stack[j] && e.indexes[e.stack[j]] < e.indexes[y];
    }
  }

  /** When node reaches nothing below itself, the decided tables and those above it are closed. */
  lemma AboveClosed(g: Graph, d: Dfs, e: Dfs, node: string, open: set<string>, seen: seq<string>)
    requires Progress(g, d, e, node, seen) && StackOrdered(e)
    requires Explored(g, e, open + {node}) && Closed(g, Done(e))
    requires e.lowlink[node] == e.indexes[node]
    requires forall m :: m in Successors(g, node) ==> m in seen
    requires open <= Members(d.stack) && forall n :: n in d.stack ==> n in d.indexes
    ensures Closed(g, Done(e) + Above(d, e))
  {
    AbovePartition(d, e);
    assert e.stack[|d.stack|..] == [node] + e.stack[|d.stack| + 1..];
    forall x, m | x in Above(d, e) && m in Successors(g, x)
      ensures m in Done(e) + Above(d, e)
    {
      assert m in e.indexes;
      assert m !in d.stack;
    }
  }

  lemma AboveMutual(g: Graph, d: Dfs, e: Dfs, node: string, open: set<string>, y: string)
    requires d.stack <= e.stack && |d.stack| < |e.stack| && e.stack[|d.stack|] == node && StackOrdered(e)
    requires StackReaches(g, e) && ReachesOpen(g, e, open + {node})
    requires open <= Members(d.stack) && Closed(g, Done(e) + Above(d, e))
    requires y in Above(d, e)
    ensures Mutual(g, node, y)
  {
    AbovePartition(d, e);
    var i :| |d.stack| <= i < |e.stack| && e.stack[i] == y;
    assert Reach(g, e.stack[|d.stack|], e.stack[i]);
    assert OpenBelow(g, e.indexes, open + {node}, y);
    var x :| x in open + {node} && Reach(g, y, x);
    ClosedReach(g, Done(e) + Above(d, e), y, x);
  }

  lemma AboveIsComponent(g: Graph, d: Dfs, e: Dfs, node: string, open: set<string>)
    requires d.stack <= e.stack && |d.stack| < |e.stack| && e.stack[|d.stack|] == node && StackOrdered(e)
    requires StackReaches(g, e) && ReachesOpen(g, e, open + {node})
    requires open <= Members(d.stack) && Closed(g, Done(e)) && Closed(g, Done(e) + Above(d, e))
    ensures IsComponent(g, Above(d, e))
  {
    assert e.stack[|d.stack|..][0] == node && node in Above(d, e);
    forall x, y | x in Above(d, e)
      ensures y in Above(d, e) <==> Mutual(g, x, y)
    {
      AboveMutual(g, d, e, node, open, x);
      if y in Above(d, e) {
        AboveMutual(g, d, e, node, open, y);
        ReachTransitive(g, x, node, y);
        ReachTransitive(g, y, node, x);
      } else if Mutual(g, x, y) {
        AbovePartition(d, e);
        assert x !in Done(e);
        ClosedReach(g, Done(e) + Above(d, e), x, y);
        ClosedReach(g, Done(e), y, x);
      }
    }
  }

  lemma MembersOfPermutation(a: seq<string>, b: seq<string>)
    requires multiset(a) == multiset(b)
    ensures Members(a) == Members(b) && |a| == |b|
  {
    assert forall n :: n in a <==> n in multiset(a);
    assert forall n :: n in b <==> n in multiset(b);
    assert |multiset(a)| == |a| && |multiset(b)| == |b|;
  }

  lemma OnlyMember(c: seq<string>, x: string, y: string)
    requires x in c && y in c && x != y
    ensures |c| > 1
  {}

  /** Adding one more decided component keeps the list exact. */
  lemma ListOneMore(g: Graph, done: set<string>, comps: seq<seq<string>>, c: seq<string>, comps': seq<seq<string>>)
    requires ListsComponents(g, done, comps) && Closed(g, done)
    requires Sorted(c) && Distinct(c) && IsComponent(g, Members(c)) && Members(c) !! done
    requires comps' == if |c| > 1 then comps + [c] else comps
    ensures ListsComponents(g, done + Members(c), comps')
  {
    forall i, j | 0 <= i < j < |comps'|
      ensures Members(comps'[i]) !! Members(comps'[j])
    {
      assert comps'[i] in comps;
    }
    forall x, y | x in done + Members(c) && Mutual(g, x, y) && x != y
      ensures exists k :: k in comps' && x in k
    {
      if x in Members(c) {
        OnlyMember(c, x, y);
        assert c in comps';
      } else {
        var k :| k in comps && x in k;
        assert k in comps';
      }
    }
  }

  lemma PopReachesOpen(g: Graph, d: Dfs, e: Dfs, open: set<string>)
    requires ReachesOpen(g, d, open) && Extends(d, e)
    ensures ReachesOpen(g, e.(stack := d.stack), open)
  {
    forall y | y in d.stack
      ensures OpenBelow(g, e.indexes, open, y)
    {
      assert OpenBelow(g, d.indexes, open, y);
      var x :| x in open && x in d.indexes && y in d.indexes && d.indexes[x] <= d.indexes[y] && Reach(g, y, x);
      assert x in e.indexes && e.indexes[x] <= e.indexes[y];
    }
  }

  /** Taking node and everything above it off the stack decides exactly their component. */
  lemma PopDecides(g: Graph, d: Dfs, e: Dfs, node: string, open: set<string>, seen: seq<string>,
                   c: seq<string>, comps: seq<seq<string>>)
    requires Progress(g, d, e, node, seen) && StackOrdered(e) && StackReaches(g, e) && ReachesOpen(g, e, open + {node})
    requires Explored(g, e, open + {node}) && Closed(g, Done(e)) && ListsComponents(g, Done(e), e.components)
    requires open <= Members(d.stack) && forall n :: n in d.stack ==> n in d.indexes
    requires e.lowlink[node] == e.indexes[node]
    requires forall m :: m in Successors(g, node) ==> m in seen
    requires Sorted(c) && multiset(c) == multiset(e.stack[|d.stack|..])
    requires comps == if |c| > 1 then e.components + [c] else e.components
    ensures var f := e.(stack := d.stack, components := comps); Closed(g, Done(f)) && ListsComponents(g, Done(f), comps)
  {
    AboveClosed(g, d, e, node, open, seen);
    AboveIsComponent(g, d, e, node, open);
    AbovePartition(d, e);
    MembersOfPermutation(c, e.stack[|d.stack|..]);
    assert Distinct(e.stack[|d.stack|..]);
    SameMultisetDistinct(c, e.stack[|d.stack|..]);
    ListOneMore(g, Done(e), e.components, c, comps);
    assert Done(e.(stack := d.stack, components := comps)) == Done(e) + Above(d, e);
  }

  lemma PopStack(g: Graph, d: Dfs, e: Dfs, open: set<string>)
    requires StackReaches(g, d) && ReachesOpen(g, d, open) && Extends(d, e)
    ensures StackReaches(g, e.(stack := d.stack)) && ReachesOpen(g, e.(stack := d.stack), open)
  {
    PopReachesOpen(g, d, e, open);
  }

  /** node and everything above it leave the stack as one component. */
  lemma PopComponent(g: Graph, d: Dfs, e: Dfs, node: string, open: set<string>, seen: seq<string>,
                     c: seq<string>, comps: seq<seq<string>>)
    requires Inv(g, d, open) && Exploring(g, d, e, node, open, seen)
    requires e.lowlink[node] == e.indexes[node]
    requires forall m :: m in Successors(g, node) ==> m in seen
    requires Sorted(c) && multiset(c) == multiset(e.stack[|d.stack|..])
    requires comps == if |c| > 1 then e.components + [c] else e.components
    ensures var f := e.(stack := d.stack, components := comps); Inv(g, f, open) && Finished(g, d, f, node)
  {
    PopDecides(g, d, e, node, open, seen, c, comps);
    PopStack(g, d, e, open);
  }

  // ----- the search as a function of its variables -----

  /** A Go map of numbers reads 0 at a missing key. */
  function Number(m: map<string, nat>, n: string): nat {
    if n in m then m[n] else 0
  }

  function LowerTo(d: Dfs, node: string, low: nat): Dfs {
    if low < Number(d.lowlink, node) then d.(lowlink := d.lowlink[node := low]) else d
  }

  /** The part of the stack below the topmost occurrence of node. */
  function Below(stack: seq<string>, node: string): (r: seq<string>)
    ensures r <= stack
  {
    if stack == [] then []
    else if stack[|stack| - 1] == node then stack[..|stack| - 1]
    else Below(stack[..|stack| - 1], node)
  }

  function CloseOff(d: Dfs, node: string): Dfs {
    if Number(d.lowlink, node) != Number(d.indexes, node) then d
    else
      var rest := Below(d.stack, node);
      var component := SortNames(d.stack[|rest|..]);
      d.(stack := rest, components := if |component| > 1 then d.components + [component] else d.components)
  }

  function Unvisited(g: Graph, d: Dfs): set<string> {
    Vertices(g) - d.indexes.Keys
  }

  /** strongConnect on a table that has not been visited. */
  ghost function Visit(g: Graph, d: Dfs, node: string): (r: Dfs)
    requires node in Vertices(g) && node !in d.indexes
    ensures d.indexes.Keys <= r.indexes.Keys
    decreases Unvisited(g, d), 0, 0
  {
    assert node in Unvisited(g, d) && node !in Unvisited(g, Enter(d, node));
    CloseOff(FollowAll(g, Enter(d, node), node, SortedListing(Successors(g, node))), node)
  }

  /** The loop over node's references. */
  ghost function FollowAll(g: Graph, d: Dfs, node: string, refs: seq<string>): (r: Dfs)
    requires forall m :: m in refs ==> m in Vertices(g)
    ensures d.indexes.Keys <= r.indexes.Keys
    decreases Unvisited(g, d), 2, |refs|
  {
    if refs == [] then d
    else
      var e := Follow(g, d, node, refs[0]);
      assert Unvisited(g, e) <= Unvisited(g, d);
      FollowAll(g, e, node, refs[1..])
  }

  ghost function Follow(g: Graph, d: Dfs, node: string, m: string): (r: Dfs)
    requires m in Vertices(g)
    ensures d.indexes.Keys <= r.indexes.Keys
    decreases Unvisited(g, d), 1, 0
  {
    if m !in d.indexes then
      var e := Visit(g, d, m);
      LowerTo(e, node, Number(e.lowlink, m))
    else if m in d.stack then LowerTo(d, node, Number(d.indexes, m))
    else d
  }

  lemma FollowAllUnfolds(g: Graph, d: Dfs, node: string, refs: seq<string>, i: nat)
    requires i < |refs| && forall m :: m in refs ==> m in Vertices(g)
    ensures FollowAll(g, d, node, refs[i..]) == FollowAll(g, Follow(g, d, node, refs[i]), node, refs[i + 1..])
  {
    assert refs[i..][1..] == refs[i + 1..];
  }

  /** The outer loop over all tables in order. */
  ghost function Search(g: Graph, d: Dfs, nodes: seq<string>): (r: Dfs)
    requires forall n :: n in nodes ==> n in Vertices(g)
    decreases nodes
  {
    if nodes == [] then d
    else Search(g, if nodes[0] in d.indexes then d else Visit(g, d, nodes[0]), nodes[1..])
  }

  // ----- what the search keeps -----

  lemma LowerToIsLower(e: Dfs, node: string, low: nat)
    requires node in e.lowlink
    ensures LowerTo(e, node, low) == Lower(e, node, low)
  {}

  lemma BelowPosition(stack: seq<string>, node: string, k: nat)
    requires Distinct(stack) && k < |stack| && stack[k] == node
    ensures Below(stack, node) == stack[..k]
  {
    var top := |stack| - 1;
    if stack[top] != node {
      BelowPosition(stack[..top], node, k);
    }
  }

  lemma CloseOffPops(e: Dfs, node: string, k: nat)
    requires Distinct(e.stack) && k < |e.stack| && e.stack[k] == node
    requires Number(e.lowlink, node) == Number(e.indexes, node)
    ensures CloseOff(e, node) == e.(stack := e.stack[..k], components := CloseOff(e, node).components)
    ensures var c := SortNames(e.stack[k..]);
      CloseOff(e, node).components == if |c| > 1 then e.components + [c] else e.components
  {
    BelowPosition(e.stack, node, k);
  }

  /** Closing a component takes the stack back to where node's exploration found it. */
  lemma CloseOffShape(e: Dfs, node: string, before: seq<string>) returns (c: seq<string>)
    requires Distinct(e.stack) && before + [node] <= e.stack && Number(e.lowlink, node) == Number(e.indexes, node)
    ensures Sorted(c) && multiset(c) == multiset(e.stack[|before|..])
    ensures CloseOff(e, node) == e.(stack := before, components := if |c| > 1 then e.components + [c] else e.components)
  {
    CloseOffPops(e, node, |before|);
    c := SortNames(e.stack[|before|..]);
    assert e.stack[..|before|] == before;
  }

  lemma CloseOffKeeps(g: Graph, d: Dfs, e: Dfs, node: string, open: set<string>, seen: seq<string>)
    requires Inv(g, d, open) && Exploring(g, d, e, node, open, seen)
    requires forall m :: m in Successors(g, node) ==> m in seen
    ensures Inv(g, CloseOff(e, node), open) && Finished(g, d, CloseOff(e, node), node)
  {
    if e.lowlink[node] != e.indexes[node] {
      KeepOnStack(g, d, e, node, open, seen);
    } else {
      var c := CloseOffShape(e, node, d.stack);
      PopComponent(g, d, e, node, open, seen, c, if |c| > 1 then e.components + [c] else e.components);
    }
  }

  lemma ReachNeighbor(g: Graph, open: set<string>, node: string, m: string)
    requires m in Successors(g, node) && forall x :: x in open ==> Reach(g, x, node)
    ensures forall x :: x in open + {node} ==> Reach(g, x, m)
  {
    ReachEdge(g, node, m);
    forall x | x in open
      ensures Reach(g, x, m)
    {
      ReachTransitive(g, x, node, m);
    }
  }

  lemma {:induction false} FollowKeeps(g: Graph, d: Dfs, e: Dfs, node: string, open: set<string>, seen: seq<string>,
                                       m: string)
    requires StackOrdered(d) && Exploring(g, d, e, node, open, seen)
    requires m in Successors(g, node) && m in Vertices(g) && forall x :: x in open ==> Reach(g, x, node)
    ensures Exploring(g, d, Follow(g, e, node, m), node, open, seen + [m])
    decreases Unvisited(g, e), 1, 0
  {
    if m !in e.indexes {
      ReachNeighbor(g, open, node, m);
      VisitKeeps(g, e, m, open + {node});
      var f := Visit(g, e, m);
      ChildFinished(g, d, e, f, node, open, seen, m);
      LowerToIsLower(f, node, f.lowlink[m]);
    } else {
      VisitedReference(g, d, e, Follow(g, e, node, m), node, open, seen, m);
    }
  }

  lemma UnvisitedShrinks(g: Graph, e: Dfs, f: Dfs)
    requires e.indexes.Keys <= f.indexes.Keys
    ensures Unvisited(g, f) <= Unvisited(g, e)
  {}

  lemma {:induction false} FollowAllKeeps(g: Graph, d: Dfs, e: Dfs, node: string, open: set<string>, seen: seq<string>,
                                          refs: seq<string>)
    requires StackOrdered(d) && Exploring(g, d, e, node, open, seen)
    requires forall x :: x in open ==> Reach(g, x, node)
    requires forall m :: m in refs ==> m in Successors(g, node) && m in Vertices(g)
    ensures Exploring(g, d, FollowAll(g, e, node, refs), node, open, seen + refs)
    decreases Unvisited(g, e), 2, |refs|
  {
    if refs == [] {
      assert seen + refs == seen;
    } else {
      FollowKeeps(g, d, e, node, open, seen, refs[0]);
      var f := Follow(g, e, node, refs[0]);
      UnvisitedShrinks(g, e, f);
      FollowAllKeeps(g, d, f, node, open, seen + [refs[0]], refs[1..]);
      MoveHead(seen, refs);
    }
  }

  /** Exploring a new table keeps the invariant and finishes that table. */
  lemma {:induction false} VisitKeeps(g: Graph, d: Dfs, node: string, open: set<string>)
    requires Inv(g, d, open) && node in Vertices(g) && node !in d.indexes
    requires forall x :: x in open ==> Reach(g, x, node)
    ensures Inv(g, Visit(g, d, node), open) && Finished(g, d, Visit(g, d, node), node)
    decreases Unvisited(g, d), 0, 0
  {
    EnterExplores(g, d, node, open);
    var e := Enter(d, node);
    assert node in Unvisited(g, d) && node !in Unvisited(g, e);
    var refs := SortedListing(Successors(g, node));
    FollowAllKeeps(g, d, e, node, open, [], refs);
    assert [] + refs == refs;
    CloseOffKeeps(g, d, FollowAll(g, e, node, refs), node, open, refs);
  }

  const START := Dfs(0, [], map[], map[], [])

  lemma StartInv(g: Graph)
    ensures Inv(g, START, {})
  {}

  lemma {:induction false} SearchKeeps(g: Graph, d: Dfs, nodes: seq<string>)
    requires Inv(g, d, {}) && forall n :: n in nodes ==> n in Vertices(g)
    ensures var r := Search(g, d, nodes);
      Inv(g, r, {}) && d.indexes.Keys <= r.indexes.Keys && forall n :: n in nodes ==> n in r.indexes
    decreases nodes
  {
    if nodes != [] {
      var e := if nodes[0] in d.indexes then d else Visit(g, d, nodes[0]);
      if nodes[0] !in d.indexes {
        VisitKeeps(g, d, nodes[0], {});
      }
      SearchKeeps(g, e, nodes[1..]);
    }
  }

  function JoinComma(names: seq<string>): string {
    if names == [] then ""
    else if |names| == 1 then names[0]
    else names[0] + "," + JoinComma(names[1..])
  }

  /** What detectForeignKeyCycles returns. */
  ghost function DetectedCycles(g: Graph): seq<seq<string>> {
    SortBy(JoinComma, Search(g, START, SortedListing(g.Keys)).components)
  }

  lemma NothingOpenMeansEmptyStack(g: Graph, d: Dfs)
    requires ReachesOpen(g, d, {})
    ensures d.stack == []
  {
    assert d.stack != [] ==> d.stack[0] in Members(d.stack);
    assert forall y :: y in d.stack ==> OpenBelow(g, d.indexes, {}, y);
    assert Members(d.stack) == {};
  }

  lemma DisjointFromDistinct(comps: seq<seq<string>>, sorted: seq<seq<string>>)
    requires forall i, j :: 0 <= i < j < |comps| ==> Members(comps[i]) !! Members(comps[j])
    requires forall c :: c in comps ==> c != []
    requires multiset(sorted) == multiset(comps)
    ensures forall i, j :: 0 <= i < j < |sorted| ==> Members(sorted[i]) !! Members(sorted[j])
  {
    forall i, j | 0 <= i < j < |comps|
      ensures comps[i] != comps[j]
    {
      assert comps[i] in comps && comps[i][0] in Members(comps[i]);
    }
    SameMultisetDistinct(comps, sorted);
    forall i, j | 0 <= i < j < |sorted|
      ensures Members(sorted[i]) !! Members(sorted[j])
    {
      assert sorted[i] in multiset(comps) && sorted[j] in multiset(comps);
      var k :| 0 <= k < |comps| && comps[k] == sorted[i];
      var l :| 0 <= l < |comps| && comps[l] == sorted[j];
      assert k != l;
    }
  }

  lemma SearchListsAll(g: Graph) returns (comps: seq<seq<string>>)
    ensures comps == Search(g, START, SortedListing(g.Keys)).components
    ensures forall c :: c in comps ==> Sorted(c) && Distinct(c) && |c| > 1 && IsComponent(g, Members(c))
    ensures forall i, j :: 0 <= i < j < |comps| ==> Members(comps[i]) !! Members(comps[j])
    ensures forall x, y :: Mutual(g, x, y) && x != y ==> exists c :: c in comps && x in c
  {
    StartInv(g);
    var nodes := SortedListing(g.Keys);
    SearchKeeps(g, START, nodes);
    var d := Search(g, START, nodes);
    NothingOpenMeansEmptyStack(g, d);
    comps := d.components;
    forall x, y | Mutual(g, x, y) && x != y
      ensures exists c :: c in comps && x in c
    {
      ReachStep(g, x, y);
      assert x in g.Keys && x in nodes;
      assert x in Done(d);
    }
  }

  /** The precheck reports exactly the mutual-reachability classes of more than one table:
      none is wrong, none can be enlarged, none is missed, none is repeated. */
  lemma DetectsExactlyTheCycles(g: Graph)
    ensures forall c :: c in DetectedCycles(g) ==> Sorted(c) && Distinct(c) && |c| > 1 && IsComponent(g, Members(c))
    ensures var r := DetectedCycles(g); forall i, j :: 0 <= i < j < |r| ==> Members(r[i]) !! Members(r[j])
    ensures forall s :: IsComponent(g, s) && |s| > 1 ==> exists c :: c in DetectedCycles(g) && Members(c) == s
    ensures SortedBy(JoinComma, DetectedCycles(g))
  {
    var comps := SearchListsAll(g);
    var r := DetectedCycles(g);
    assert forall c :: c in r <==> c in multiset(comps);
    DisjointFromDistinct(comps, r);
    forall s | IsComponent(g, s) && |s| > 1
      ensures exists c :: c in r && Members(c) == s
    {
      var x :| x in s;
      assert s - {x} != {} by {
        assert |s - {x}| == |s| - 1;
      }
      var y :| y in s - {x};
      assert Mutual(g, x, y);
      var c :| c in comps && x in c;
      ComponentsMeetOnlyIfEqual(g, Members(c), s, x);
      assert c in r;
    }
  }

  ghost predicate Flags(stack: seq<string>, onStack: map<string, bool>) {
    forall n :: n in stack <==> n in onStack && onStack[n]
  }

  /** One pop: the flag of the top is cleared and the pop of node, if further down, is still to come. */
  lemma PopTop(before: seq<string>, stack: seq<string>, onStack: map<string, bool>, node: string)
    requires stack != [] && stack <= before && Distinct(stack) && Flags(stack, onStack) && node in stack
    ensures var last := stack[|stack| - 1];
      var rest := stack[..|stack| - 1];
      && Distinct(rest) && Flags(rest, onStack[last := false]) && Members(rest) <= Members(stack)
      && rest == before[..|rest|]
      && multiset(before[|rest|..]) == multiset(before[|stack|..]) + multiset{last}
      && if last == node then Below(stack, node) == rest
         else node in rest && Below(rest, node) == Below(stack, node)
  {
    var k := |stack| - 1;
    assert stack == stack[..k] + [stack[k]];
    assert before[k..] == [before[k]] + before[k + 1..];
  }

  lemma PushFlags(stack: seq<string>, onStack: map<string, bool>, node: string)
    requires Distinct(stack) && Flags(stack, onStack) && node !in stack
    ensures Distinct(stack + [node]) && Flags(stack + [node], onStack[node := true])
    ensures Members(stack + [node]) == Members(stack) + {node}
  {}

  /** The precheck's graph search. Its fields are the variables that the recursive closure captures. */
  class CycleDetector {
    const dependencies: Graph
    var index: nat
    var stack: seq<string>
    var onStack: map<string, bool>
    var indexes: map<string, nat>
    var lowlink: map<string, nat>
    var components: seq<seq<string>>

    constructor (dependencies: Graph)
      ensures this.dependencies == dependencies
      ensures State() == START && Flagged()
    {
      this.dependencies := dependencies;
      index, stack, onStack := 0, [], map[];
      indexes, lowlink, components := map[], map[], [];
    }

    ghost function State(): (d: Dfs)
      reads this
    {
      Dfs(index, stack, indexes, lowlink, components)
    }

    /** The onStack flags agree with a stack that holds no table twice. */
    ghost predicate Flagged()
      reads this
    {
      Distinct(stack) && Flags(stack, onStack) && Members(stack) <= indexes.Keys == lowlink.Keys
    }

    /** The pop loop: takes node and everything above it off the stack. */
    method PopThrough(node: string) returns (component: seq<string>)
      requires Flagged() && node in stack
      modifies this
      ensures Flagged() && State() == old(State()).(stack := Below(old(stack), node))
      ensures |stack| < old(|stack|)
      ensures multiset(component) == multiset(old(stack)[|stack|..])
    {
      ghost var before := stack;
      component := [];
      while true
        invariant stack <= before && node in stack
        invariant Flagged() && Below(stack, node) == Below(before, node)
        invariant multiset(component) == multiset(before[|stack|..])
        invariant State() == old(State()).(stack := stack)
        decreases |stack|
      {
        PopTop(before, stack, onStack, node);
        var last := stack[|stack| - 1];
        stack := stack[..|stack| - 1];
        onStack := onStack[last := false];
        component := component + [last];
        if last == node {
          break;
        }
      }
    }

    /** The first lines of strongConnect: node is numbered and put on the stack. */
    method EnterTable(node: string)
      requires Flagged() && node !in indexes
      modifies this
      ensures Flagged() && State() == Enter(old(State()), node)
    {
      PushFlags(stack, onStack, node);
      indexes := indexes[node := index];
      lowlink := lowlink[node := index];
      index := index + 1;
      stack := stack + [node];
      onStack := onStack[node := true];
    }

    /** strongConnect: explores a table that has not been visited. */
    method StrongConnect(node: string)
      requires Flagged() && node in Vertices(dependencies) && node !in indexes
      modifies this
      ensures Flagged() && State() == Visit(dependencies, old(State()), node)
      ensures old(stack) <= stack && node in indexes
      decreases Unvisited(dependencies, State()), 0
    {
      EnterTable(node);
      ghost var d := State();
      assert node in old(Unvisited(dependencies, State())) && node !in Unvisited(dependencies, d);

      var neighbors := SortedNames(Successors(dependencies, node));
      var i := 0;
      while i < |neighbors|
        invariant 0 <= i <= |neighbors|
        invariant forall m :: m in neighbors ==> m in Vertices(dependencies)
        invariant Flagged() && d.stack <= stack && d.indexes.Keys <= indexes.Keys
        invariant FollowAll(dependencies, State(), node, neighbors[i..]) == FollowAll(dependencies, d, node, neighbors)
      {
        UnvisitedShrinks(dependencies, d, State());
        FollowAllUnfolds(dependencies, State(), node, neighbors, i);
        FollowReference(node, neighbors[i]);
        i := i + 1;
      }

      BelowKeepsPrefix(stack, d.stack, node);
      CloseComponent(node);
    }

    /** The end of strongConnect: node either stays on the stack or closes a component. */
    method CloseComponent(node: string)
      requires Flagged() && node in stack
      modifies this
      ensures Flagged() && State() == CloseOff(old(State()), node)
    {
      if lowlink[node] != indexes[node] {
        return;
      }
      ghost var e := State();
      var component := PopThrough(node);
      SortSegment(component, e.stack, |stack|);
      component := SortNames(component);
      if |component| > 1 {
        components := components + [component];
      }
    }

    /** One round of the loop over node's references. */
    method FollowReference(node: string, neighbor: string)
      requires Flagged() && node in indexes && neighbor in Vertices(dependencies)
      modifies this
      ensures Flagged() && State() == Follow(dependencies, old(State()), node, neighbor)
      ensures old(stack) <= stack
      decreases Unvisited(dependencies, State()), 1
    {
      if neighbor !in indexes {
        StrongConnect(neighbor);
        if lowlink[neighbor] < lowlink[node] {
          lowlink := lowlink[node := lowlink[neighbor]];
        }
      } else if neighbor in onStack && onStack[neighbor] && indexes[neighbor] < lowlink[node] {
        lowlink := lowlink[node := indexes[neighbor]];
      }
    }

    /** detectForeignKeyCycles, on a detector that has not been used. */
    method Detect() returns (cycles: seq<seq<string>>)
      requires State() == START && Flagged()
      modifies this
      ensures cycles == DetectedCycles(dependencies)
    {
      var nodes := SortedNames(dependencies.Keys);
      var i := 0;
      while i < |nodes|
        invariant 0 <= i <= |nodes| && Flagged()
        invariant Search(dependencies, State(), nodes[i..]) == Search(dependencies, START, nodes)
      {
        if nodes[i] !in indexes {
          StrongConnect(nodes[i]);
        }
        i := i + 1;
      }
      cycles := SortBy(JoinComma, components);
    }
  }

  /** Popping through the entry of node keeps what was below that entry. */
  lemma BelowKeepsPrefix(stack: seq<string>, entered: seq<string>, node: string)
    requires entered <= stack && entered != [] && entered[|entered| - 1] == node && Distinct(stack)
    ensures Below(stack, node) == entered[..|entered| - 1]
  {
    BelowPosition(stack, node, |entered| - 1);
  }

  lemma SortSegment(component: seq<string>, stack: seq<string>, k: nat)
    requires k <= |stack| && Distinct(stack) && multiset(component) == multiset(stack[k..])
    ensures SortNames(component) == SortNames(stack[k..])
  {
    var c, d := SortNames(component), SortNames(stack[k..]);
    SameMultisetDistinct(c, stack[k..]);
    SameMultisetDistinct(d, stack[k..]);
    assert forall x :: x in c <==> x in multiset(d);
    SortedListingUnique(c, d);
  }
}
