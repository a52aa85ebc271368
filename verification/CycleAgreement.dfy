/** The precheck and the copy order judge the same foreign-key graph: they must
    agree on which tables are in the way. */
module CycleAgreement {
  import opened Ordering
  import opened ForeignKeyGraph
  import opened ForeignKeyCycles
  import DependencySort

  /** The graph that both loaders build: references among the listed tables, no self-references. */
  ghost predicate Loaded(g: Graph, tables: seq<string>) {
    && g.Keys == Members(tables)
    && forall n, m :: m in Successors(g, n) ==> m in tables && m != n
  }

  lemma OnCycleListed(g: Graph, x: string)
    requires OnCycle(g, x) && x !in Successors(g, x)
    ensures exists c :: c in DetectedCycles(g) && x in c
  {
    var m :| m in Successors(g, x) && Reach(g, m, x);
    ReachEdge(g, x, m);
    var comps := SearchListsAll(g);
    assert Mutual(g, x, m);
    var c :| c in comps && x in c;
    assert c in multiset(comps);
    assert c in DetectedCycles(g);
  }

  lemma ListedOnCycle(g: Graph, c: seq<string>, x: string)
    requires c in DetectedCycles(g) && x in c
    ensures OnCycle(g, x)
  {
    DetectsExactlyTheCycles(g);
    var y := if c[0] == x then c[1] else c[0];
    assert y in Members(c) && Mutual(g, x, y);
    MutualOnCycle(g, x, y);
  }

  lemma CycleNotEmpty(g: Graph, c: seq<string>)
    requires c in DetectedCycles(g)
    ensures c != []
  {
    DetectsExactlyTheCycles(g);
  }

  /** Kahn's leftovers are exactly the tables that lead into a component reported by Tarjan. */
  lemma LeftoversLeadToCycles(g: Graph, tables: seq<string>, ordered: seq<string>, remaining: seq<string>)
    requires Loaded(g, tables) && DependencySort.KahnResult(g, tables, ordered, remaining)
    ensures forall t :: t in remaining <==> exists c, x :: c in DetectedCycles(g) && x in c && Reach(g, t, x)
  {
    DependencySort.KahnRemainingExactly(g, tables, ordered, remaining);
    forall t
      ensures t in remaining <==> exists c, x :: c in DetectedCycles(g) && x in c && Reach(g, t, x)
    {
      if t in remaining {
        var x :| Reach(g, t, x) && (OnCycle(g, x) || x !in tables);
        assert Closed(g, Members(tables));
        ClosedReach(g, Members(tables), t, x);
        OnCycleListed(g, x);
      }
      if exists c, x :: c in DetectedCycles(g) && x in c && Reach(g, t, x) {
        var c, x :| c in DetectedCycles(g) && x in c && Reach(g, t, x);
        ListedOnCycle(g, c, x);
        var m :| m in Successors(g, x) && Reach(g, m, x);
        assert x in Members(tables);
        if t !in tables {
          ReachStep(g, t, x);
        }
      }
    }
  }

  /** The two detectors agree on whether a schema is cyclic, and the copy order never
      places a table that the precheck reports. */
  lemma DetectorsAgree(g: Graph, tables: seq<string>, ordered: seq<string>, remaining: seq<string>)
    requires Loaded(g, tables) && DependencySort.KahnResult(g, tables, ordered, remaining)
    ensures remaining == [] <==> DetectedCycles(g) == []
    ensures forall c, t :: c in DetectedCycles(g) && t in c ==> t in remaining
  {
    LeftoversLeadToCycles(g, tables, ordered, remaining);
    var cycles := DetectedCycles(g);
    forall c, t | c in cycles && t in c
      ensures t in remaining
    {
      ReachSelf(g, t);
    }
    if cycles != [] {
      CycleNotEmpty(g, cycles[0]);
      assert cycles[0] in cycles && cycles[0][0] in cycles[0];
    }
    if remaining != [] {
      assert remaining[0] in remaining;
    }
  }
}
