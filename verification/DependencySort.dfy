/** The order in which tables are copied: Kahn's algorithm with a sorted ready list. */
module DependencySort {
  import opened Ordering
  import opened ForeignKeyGraph

  /** t can be placed next: it is listed, not yet placed, and its references are. */
  ghost predicate Available(g: Graph, tables: seq<string>, placed: set<string>, t: string) {
    t in tables && t !in placed && Successors(g, t) <= placed
  }

  /** Every table of the order is the least one available at its place. */
  ghost predicate Greedy(g: Graph, tables: seq<string>, order: seq<string>) {
    forall i :: 0 <= i < |order| ==>
      && Available(g, tables, Members(order[..i]), order[i])
      && forall t :: Available(g, tables, Members(order[..i]), t) ==> !Less(t, order[i])
  }

  ghost predicate Stuck(g: Graph, tables: seq<string>, placed: set<string>) {
    forall t :: !Available(g, tables, placed, t)
  }

  /** The tables that were not placed, in input order. */
  function Pending(tables: seq<string>, placed: set<string>): (r: seq<string>)
    ensures forall t :: t in r <==> t in tables && t !in placed
  {
    if tables == [] then []
    else (if tables[0] in placed then [] else [tables[0]]) + Pending(tables[1..], placed)
  }

  /** What the sort returns: a greedy order of all that can be placed, then the rest by name. */
  ghost predicate KahnResult(g: Graph, tables: seq<string>, ordered: seq<string>, remaining: seq<string>) {
    exists order ::
      && Greedy(g, tables, order) && Stuck(g, tables, Members(order))
      && remaining == SortNames(Pending(tables, Members(order)))
      && ordered == order + remaining
  }

  // ----- the sort -----

  /** A Go map of lists reads an empty list at a missing key. */
  function Listed(dependents: map<string, seq<string>>, d: string): seq<string> {
    if d in dependents then dependents[d] else []
  }

  /** The listed tables that reference d. */
  function Dependents(g: Graph, tables: seq<string>, d: string): set<string> {
    set t | t in tables && d in Successors(g, t)
  }

  ghost predicate ListsDependents(g: Graph, tables: seq<string>, dependents: map<string, seq<string>>) {
    forall d {:trigger Listed(dependents, d)} :: Members(Listed(dependents, d)) == Dependents(g, tables, d)
  }

  lemma OneMoreTable(g: Graph, tables: seq<string>, t: string, before: map<string, seq<string>>, after: map<string,
                     seq<string>>)
    requires ListsDependents(g, tables, before)
    requires forall d :: Listed(after, d) == Listed(before, d) + if d in Successors(g, t) then [t] else []
    ensures ListsDependents(g, tables + [t], after)
  {
    forall d
      ensures Members(Listed(after, d)) == Dependents(g, tables + [t], d)
    {
      var one := if d in Successors(g, t) then [t] else [];
      assert Members(Listed(before, d) + one) == Members(Listed(before, d)) + Members(one);
      assert Dependents(g, tables + [t], d) == Dependents(g, tables, d) + Members(one);
    }
  }

  lemma SortedDependents(g: Graph, tables: seq<string>, before: map<string, seq<string>>, after: map<string,
                         seq<string>>)
    requires ListsDependents(g, tables, before)
    requires after == map d | d in before :: SortNames(before[d])
    ensures ListsDependents(g, tables, after)
  {
    forall d
      ensures Members(Listed(after, d)) == Dependents(g, tables, d)
    {
      assert Members(Listed(before, d)) == Dependents(g, tables, d);
      assert d in before ==> Listed(after, d) == SortNames(before[d]);
    }
  }

  method AddReferences(table: string, refs: set<string>, dependents: map<string, seq<string>>)
    returns (dependents': map<string, seq<string>>)
    ensures forall d :: Listed(dependents', d) == Listed(dependents, d) + if d in refs then [table] else []
  {
    dependents' := dependents;
    var rest := refs;
    while rest != {}
      invariant rest <= refs
      invariant forall d :: Listed(dependents', d) == Listed(dependents, d) + if d in refs && d !in rest then [table]
                  else []
    {
      var dep :| dep in rest;
      dependents' := dependents'[dep := Listed(dependents', dep) + [table]];
      rest := rest - {dep};
    }
  }

  method IndexDependencies(tables: seq<string>, dependencies: Graph)
    returns (remainingDependencies: map<string, set<string>>, dependents: map<string, seq<string>>)
    ensures remainingDependencies == Left(dependencies, tables, {})
    ensures ListsDependents(dependencies, tables, dependents)
  {
    remainingDependencies, dependents := map[], map[];
    for i := 0 to |tables|
      invariant remainingDependencies == Left(dependencies, tables[..i], {})
      invariant ListsDependents(dependencies, tables[..i], dependents)
    {
      assert tables[..i + 1] == tables[..i] + [tables[i]];
      LeftOneMore(dependencies, tables[..i], tables[i]);
      remainingDependencies := remainingDependencies[tables[i] := Successors(dependencies, tables[i])];
      var extended := AddReferences(tables[i], Successors(dependencies, tables[i]), dependents);
      OneMoreTable(dependencies, tables[..i], tables[i], dependents, extended);
      dependents := extended;
    }
    assert tables[..|tables|] == tables;
    var sorted := map d | d in dependents :: SortNames(dependents[d]);
    SortedDependents(dependencies, tables, dependents, sorted);
    dependents := sorted;
  }

  /** What is left of every table's references once some tables are placed. */
  function Left(g: Graph, tables: seq<string>, placed: set<string>): map<string, set<string>> {
    map t | t in tables :: Successors(g, t) - placed
  }

  predicate Free(left: map<string, set<string>>, t: string) {
    t in left && left[t] == {}
  }

  /** The ready list holds every table that can be placed, and otherwise only placed ones. */
  ghost predicate ReadyFor(left: map<string, set<string>>, placed: set<string>, ready: seq<string>) {
    && (forall t :: t in ready ==> Free(left, t))
    && (forall t :: Free(left, t) && t !in placed ==> t in ready)
  }

  lemma LeftOneMore(g: Graph, tables: seq<string>, t: string)
    ensures Left(g, tables + [t], {}) == Left(g, tables, {})[t := Successors(g, t)]
  {
    assert Successors(g, t) - {} == Successors(g, t);
  }

  /** left once current is deleted from the references of the tables in gone. */
  function Without(left: map<string, set<string>>, current: string, gone: set<string>): map<string, set<string>> {
    map t | t in left :: if t in gone then left[t] - {current} else left[t]
  }

  lemma WithoutOneMore(left: map<string, set<string>>, current: string, gone: set<string>, t: string)
    requires t in left
    ensures var w := Without(left, current, gone);
      Without(left, current, gone + {t}) == w[t := w[t] - {current}]
  {
    assert left[t] - {current} - {current} == left[t] - {current};
  }

  /** The loop over the dependents of current: deletes it from their references and
      collects the tables that this leaves without any. */
  method DeleteReferences(left: map<string, set<string>>, ready: seq<string>, current: string, dependents: seq<string>)
    returns (left': map<string, set<string>>, ready': seq<string>)
    requires Members(dependents) <= left.Keys
    ensures left' == Without(left, current, Members(dependents))
    ensures ready <= ready'
    ensures forall t :: t in ready' ==> t in ready || Free(left', t)
    ensures forall t :: t in Members(dependents) && Free(left', t) ==> t in ready'
  {
    left', ready' := left, ready;
    for i := 0 to |dependents|
      invariant left' == Without(left, current, Members(dependents[..i]))
      invariant ready <= ready'
      invariant forall t :: t in ready' ==> t in ready || Free(left', t)
      invariant forall t :: t in Members(dependents[..i]) && Free(left', t) ==> t in ready'
    {
      var dependent := dependents[i];
      assert dependents[..i + 1] == dependents[..i] + [dependent];
      assert Members(dependents[..i + 1]) == Members(dependents[..i]) + {dependent};
      assert dependent in Members(dependents);
      WithoutOneMore(left, current, Members(dependents[..i]), dependent);
      left' := left'[dependent := left'[dependent] - {current}];
      if left'[dependent] == {} {
        ready' := ready' + [dependent];
      }
    }
    assert dependents[..|dependents|] == dependents;
  }

  lemma LeftAfter(g: Graph, tables: seq<string>, placed: set<string>, current: string)
    ensures Without(Left(g, tables, placed), current, Dependents(g, tables, current))
      == Left(g, tables, placed + {current})
  {
    var left, left' := Left(g, tables, placed), Left(g, tables, placed + {current});
    forall t | t in tables
      ensures left'[t] == left[t] - {current}
      ensures t !in Dependents(g, tables, current) ==> left'[t] == left[t]
    {}
  }

  /** Deleting the placed head of the ready list keeps the list right. */
  lemma ReadyAfter(left: map<string, set<string>>, placed: set<string>, ready: seq<string>, gone: set<string>,
                   ready': seq<string>)
    requires ready != [] && ready[0] !in placed && ReadyFor(left, placed, ready)
    requires var left' := Without(left, ready[0], gone);
      && (forall t :: t in ready' ==> t in ready[1..] || Free(left', t))
      && (forall t :: t in gone && Free(left', t) ==> t in ready')
    requires ready[1..] <= ready'
    ensures ReadyFor(Without(left, ready[0], gone), placed + {ready[0]}, ready')
  {
    var left' := Without(left, ready[0], gone);
    assert ready == [ready[0]] + ready[1..];
    forall t | t in ready'
      ensures Free(left', t)
    {
      assert t in ready[1..] ==> t in ready && Free(left, t);
    }
    forall t | Free(left', t) && t !in placed + {ready[0]}
      ensures t in ready'
    {
      assert t !in gone ==> Free(left, t) && t in ready;
    }
  }

  /** The head of the sorted ready list is the least table that can be placed. */
  lemma PlaceLeast(g: Graph, tables: seq<string>, ordered: seq<string>, ready: seq<string>)
    requires Greedy(g, tables, ordered) && Sorted(ready) && ready != [] && ready[0] !in ordered
    requires ReadyFor(Left(g, tables, Members(ordered)), Members(ordered), ready)
    ensures Greedy(g, tables, ordered + [ready[0]])
  {
    var longer := ordered + [ready[0]];
    var left := Left(g, tables, Members(ordered));
    assert forall i :: 0 <= i <= |ordered| ==> longer[..i] == ordered[..i];
    assert ordered[..|ordered|] == ordered;
    assert ready[0] in ready && Free(left, ready[0]);
    assert forall d :: d in Successors(g, ready[0]) && d !in Members(ordered) ==> d in left[ready[0]];
    assert Available(g, tables, Members(ordered), ready[0]);
    forall t | Available(g, tables, Members(ordered), t)
      ensures !Less(t, ready[0])
    {
      assert Free(left, t) && t in ready;
      SortedHeadLeast(ready, t);
    }
  }

  lemma NothingReady(g: Graph, tables: seq<string>, placed: set<string>)
    requires ReadyFor(Left(g, tables, placed), placed, [])
    ensures Stuck(g, tables, placed)
  {
    forall t
      ensures !Available(g, tables, placed, t)
    {
      if Available(g, tables, placed, t) {
        assert Free(Left(g, tables, placed), t);
      }
    }
  }

  method InitialReady(tables: seq<string>, left: map<string, set<string>>) returns (ready: seq<string>)
    requires left.Keys == Members(tables)
    ensures Sorted(ready) && ReadyFor(left, {}, ready)
  {
    ready := [];
    for i := 0 to |tables|
      invariant forall t :: t in ready <==> t in tables[..i] && left[t] == {}
    {
      if left[tables[i]] == {} {
        ready := ready + [tables[i]];
      }
    }
    ready := SortNames(ready);
  }

  /** One round of the main loop that places the head of the ready list. */
  lemma PlaceStep(g: Graph, tables: seq<string>, ordered: seq<string>, ready: seq<string>, ready': seq<string>)
    requires Greedy(g, tables, ordered) && Sorted(ready) && ready != [] && ready[0] !in ordered
    requires ReadyFor(Left(g, tables, Members(ordered)), Members(ordered), ready)
    requires ready[1..] <= ready'
    requires var left' := Without(Left(g, tables, Members(ordered)), ready[0], Dependents(g, tables, ready[0]));
      && (forall t :: t in ready' ==> t in ready[1..] || Free(left', t))
      && (forall t :: t in Dependents(g, tables, ready[0]) && Free(left', t) ==> t in ready')
    ensures Greedy(g, tables, ordered + [ready[0]])
    ensures Members(ordered + [ready[0]]) == Members(ordered) + {ready[0]}
    ensures var placed := Members(ordered + [ready[0]]);
      && Without(Left(g, tables, Members(ordered)), ready[0], Dependents(g, tables, ready[0]))
         == Left(g, tables, placed)
      && ReadyFor(Left(g, tables, placed), placed, SortNames(ready'))
  {
    var placed := Members(ordered);
    PlaceLeast(g, tables, ordered, ready);
    LeftAfter(g, tables, placed, ready[0]);
    ReadyAfter(Left(g, tables, placed), placed, ready, Dependents(g, tables, ready[0]), ready');
    assert Members(ordered + [ready[0]]) == placed + {ready[0]};
  }

  /** The main loop: places tables until none is ready. */
  method PlaceTables(tables: seq<string>, dependencies: Graph) returns (ordered: seq<string>, processed: set<string>)
    ensures processed == Members(ordered)
    ensures Greedy(dependencies, tables, ordered) && Stuck(dependencies, tables, processed)
  {
    var left, dependents := IndexDependencies(tables, dependencies);
    var ready := InitialReady(tables, left);
    ordered, processed := [], {};
    while ready != []
      invariant processed == Members(ordered)
      invariant Greedy(dependencies, tables, ordered)
      invariant left == Left(dependencies, tables, processed)
      invariant Sorted(ready) && ReadyFor(left, processed, ready)
      decreases Members(tables) - processed, |ready|
    {
      var current := ready[0];
      assert current in ready && current in Members(tables);
      if current in processed {
        assert ready == [current] + ready[1..];
        ready := ready[1..];
      } else {
        var left', ready' := DeleteReferences(left, ready[1..], current, Listed(dependents, current));
        PlaceStep(dependencies, tables, ordered, ready, ready');
        processed := processed + {current};
        ordered := ordered + [current];
        left, ready := left', SortNames(ready');
      }
    }
    NothingReady(dependencies, tables, processed);
  }

  lemma PendingOneMore(tables: seq<string>, t: string, placed: set<string>)
    ensures Pending(tables + [t], placed) == Pending(tables, placed) + if t in placed then [] else [t]
  {
    if tables != [] {
      assert (tables + [t])[1..] == tables[1..] + [t];
    }
  }

  method CollectPending(tables: seq<string>, processed: set<string>) returns (remaining: seq<string>)
    ensures remaining == Pending(tables, processed)
  {
    remaining := [];
    for i := 0 to |tables|
      invariant remaining == Pending(tables[..i], processed)
    {
      assert tables[..i + 1] == tables[..i] + [tables[i]];
      PendingOneMore(tables[..i], tables[i], processed);
      if tables[i] !in processed {
        remaining := remaining + [tables[i]];
      }
    }
    assert tables[..|tables|] == tables;
  }

  /** sortTableNamesByDependenciesDetailed. */
  method SortTablesByDependencies(tables: seq<string>, dependencies: Graph)
    returns (ordered: seq<string>, remaining: seq<string>)
    ensures KahnResult(dependencies, tables, ordered, remaining)
  {
    var processed;
    ordered, processed := PlaceTables(tables, dependencies);
    if |ordered| == |tables| {
      AllPlaced(dependencies, tables, ordered);
      assert ordered == ordered + [];
      return ordered, [];
    }
    remaining := CollectPending(tables, processed);
    remaining := SortNames(remaining);
    ordered := ordered + remaining;
  }

  lemma {:induction false} GreedyDistinct(g: Graph, tables: seq<string>, order: seq<string>)
    requires Greedy(g, tables, order)
    ensures Distinct(order) && Members(order) <= Members(tables)
  {
    forall i, j | 0 <= i < j < |order|
      ensures order[i] != order[j]
    {
      assert Available(g, tables, Members(order[..j]), order[j]);
      assert order[..j][i] == order[i];
    }
  }

  /** As many placed tables as listed ones leave nothing pending. */
  lemma AllPlaced(g: Graph, tables: seq<string>, order: seq<string>)
    requires Greedy(g, tables, order) && |order| == |tables|
    ensures Pending(tables, Members(order)) == [] && SortNames(Pending(tables, Members(order))) == []
  {
    GreedyDistinct(g, tables, order);
    DistinctSize(order);
    DistinctSize(tables);
    SubsetSameSize(Members(order), Members(tables));
    var pending := Pending(tables, Members(order));
    assert forall t :: t in pending ==> t in Members(tables);
    assert forall t :: t !in pending;
    assert forall i :: 0 <= i < |pending| ==> pending[i] in pending;
    assert |SortNames(pending)| == |pending|;
  }

  lemma SubsetSameSize<T>(a: set<T>, b: set<T>)
    requires a <= b && |a| >= |b|
    ensures a == b
  {
    assert b == a + (b - a) && |b| == |a| + |b - a|;
  }

  // ----- what the sort promises -----

  /** q lists all tables once, each after everything that it references. */
  ghost predicate Topological(g: Graph, tables: seq<string>, q: seq<string>) {
    && Distinct(q) && Members(q) == Members(tables)
    && forall i :: 0 <= i < |q| ==> Successors(g, q[i]) <= Members(q[..i])
  }

  /** A cycle, or a table that is not listed, can be reached from t. */
  ghost predicate Blocked(g: Graph, tables: seq<string>, t: string) {
    exists x :: Reach(g, t, x) && (OnCycle(g, x) || x !in tables)
  }

  lemma PendingCount(tables: seq<string>, placed: set<string>, t: string)
    ensures multiset(Pending(tables, placed))[t] == if t in placed then 0 else multiset(tables)[t]
  {
    if tables != [] {
      assert tables == [tables[0]] + tables[1..];
      PendingCount(tables[1..], placed, t);
    }
  }

  lemma PlacedAndPendingCount(tables: seq<string>, order: seq<string>, t: string)
    requires Distinct(tables) && Distinct(order) && Members(order) <= Members(tables)
    ensures multiset(order)[t] + multiset(Pending(tables, Members(order)))[t] == multiset(tables)[t]
  {
    PendingCount(tables, Members(order), t);
    DistinctCounts(order);
    DistinctCounts(tables);
    assert t in order <==> t in multiset(order);
    assert t in tables <==> t in multiset(tables);
    assert t in order ==> t in Members(order);
  }

  lemma PlacedAndPendingPermute(tables: seq<string>, order: seq<string>, remaining: seq<string>)
    requires Distinct(tables) && Distinct(order) && Members(order) <= Members(tables)
    requires remaining == SortNames(Pending(tables, Members(order)))
    ensures multiset(order + remaining) == multiset(tables)
  {
    assert multiset(order + remaining) == multiset(order) + multiset(remaining);
    forall t
      ensures multiset(order + remaining)[t] == multiset(tables)[t]
    {
      PlacedAndPendingCount(tables, order, t);
    }
  }

  /** No table is lost, added or repeated. */
  lemma KahnPermutation(g: Graph, tables: seq<string>, ordered: seq<string>, remaining: seq<string>)
    requires Distinct(tables) && KahnResult(g, tables, ordered, remaining)
    ensures multiset(ordered) == multiset(tables)
  {
    var order :| Greedy(g, tables, order) && remaining == SortNames(Pending(tables, Members(order)))
      && ordered == order + remaining;
    GreedyDistinct(g, tables, order);
    PlacedAndPendingPermute(tables, order, remaining);
  }

  /** Without leftovers every table comes after its references. */
  lemma KahnTopological(g: Graph, tables: seq<string>, ordered: seq<string>)
    requires KahnResult(g, tables, ordered, [])
    ensures Greedy(g, tables, ordered) && Topological(g, tables, ordered)
  {
    var order :| Greedy(g, tables, order) && [] == SortNames(Pending(tables, Members(order))) && ordered == order + [];
    assert ordered == order;
    GreedyDistinct(g, tables, order);
    var pending := Pending(tables, Members(order));
    assert forall t :: t !in SortNames(pending) && t !in pending;
    forall i | 0 <= i < |ordered|
      ensures Successors(g, ordered[i]) <= Members(ordered[..i])
    {
      assert Available(g, tables, Members(ordered[..i]), ordered[i]);
    }
  }

  lemma FirstDifference(a: seq<string>, b: seq<string>) returns (i: nat)
    requires |a| == |b|
    ensures i <= |a| && a[..i] == b[..i] && (i < |a| ==> a[i] != b[i])
  {
    i := 0;
    while i < |a| && a[i] == b[i]
      invariant i <= |a| && a[..i] == b[..i]
    {
      i := i + 1;
    }
  }

  /** Of all the orders that respect the references, the sort picks the lexicographically least. */
  lemma KahnLexLeast(g: Graph, tables: seq<string>, ordered: seq<string>, q: seq<string>)
    requires KahnResult(g, tables, ordered, []) && Topological(g, tables, q)
    ensures ordered == q
         || exists i :: 0 <= i < |ordered| && i < |q| && ordered[..i] == q[..i] && Less(ordered[i], q[i])
  {
    KahnTopological(g, tables, ordered);
    DistinctSize(ordered);
    DistinctSize(q);
    assert Members(ordered) == Members(q);
    var i := FirstDifference(ordered, q);
    if i < |q| {
      assert q[i] !in q[..i] && q[i] in Members(q);
      assert Available(g, tables, Members(ordered[..i]), q[i]);
      LessIsStrictTotal(ordered[i], q[i], q[i]);
    } else {
      assert ordered == ordered[..i] && q == q[..i];
    }
  }

  /** In a greedy order references point strictly backwards, so nothing before t leaves the order or comes back. */
  lemma {:induction false} GreedyPathBack(g: Graph, tables: seq<string>, order: seq<string>, p: seq<string>, i: nat,
                                          y: string)
    requires Greedy(g, tables, order) && i < |order| && IsPath(g, p, order[i], y)
    ensures exists j :: 0 <= j <= i && order[j] == y && (p != [] ==> j < i)
  {
    if p != [] {
      assert Available(g, tables, Members(order[..i]), order[i]);
      assert p[0] in order[..i];
      var k :| 0 <= k < i && order[k] == p[0];
      GreedyPathBack(g, tables, order, p[1..], k, y);
    }
  }

  lemma PlacedNotBlocked(g: Graph, tables: seq<string>, order: seq<string>, i: nat)
    requires Greedy(g, tables, order) && i < |order|
    ensures !Blocked(g, tables, order[i])
  {
    GreedyDistinct(g, tables, order);
    forall x | Reach(g, order[i], x)
      ensures x in tables && !OnCycle(g, x)
    {
      var p :| IsPath(g, p, order[i], x);
      GreedyPathBack(g, tables, order, p, i, x);
      var j :| 0 <= j <= i && order[j] == x;
      assert x in Members(order);
      forall m | m in Successors(g, x) && Reach(g, m, x)
        ensures false
      {
        var q :| IsPath(g, q, m, x);
        assert ([m] + q)[1..] == q;
        GreedyPathBack(g, tables, order, [m] + q, j, x);
      }
    }
  }

  /** Tables that a search may still enter. */
  function Fresh(tables: seq<string>, trail: set<string>): set<string> {
    Members(tables) - trail
  }

  /** From a table that cannot be placed, following unplaced references ends in a cycle or outside. */
  lemma {:induction false} UnplacedBlocked(g: Graph, tables: seq<string>, placed: set<string>, t: string,
                                           trail: set<string>)
    requires Stuck(g, tables, placed) && placed <= Members(tables) && t in tables && t !in placed
    requires forall u :: u in trail ==> exists m :: m in Successors(g, u) && Reach(g, m, t)
    ensures Blocked(g, tables, t)
    decreases Fresh(tables, trail)
  {
    ReachSelf(g, t);
    if t in trail {
      assert OnCycle(g, t);
    } else {
      assert !Available(g, tables, placed, t);
      var m :| m in Successors(g, t) && m !in placed;
      ReachSelf(g, m);
      ReachEdge(g, t, m);
      if m in tables {
        forall u | u in trail + {t}
          ensures exists k :: k in Successors(g, u) && Reach(g, k, m)
        {
          if u in trail {
            var k :| k in Successors(g, u) && Reach(g, k, t);
            ReachTransitive(g, k, t, m);
          }
        }
        assert t in Fresh(tables, trail) && t !in Fresh(tables, trail + {t});
        UnplacedBlocked(g, tables, placed, m, trail + {t});
        var x :| Reach(g, m, x) && (OnCycle(g, x) || x !in tables);
        ReachFrom(g, t, m, x);
      }
    }
  }

  /** The leftovers are exactly the tables from which a cycle (or an unlisted table) can be reached, by
      name. */
  lemma KahnRemainingExactly(g: Graph, tables: seq<string>, ordered: seq<string>, remaining: seq<string>)
    requires KahnResult(g, tables, ordered, remaining)
    ensures forall t :: t in remaining <==> t in tables && Blocked(g, tables, t)
    ensures Sorted(remaining)
  {
    var order :| Greedy(g, tables, order) && Stuck(g, tables, Members(order))
      && remaining == SortNames(Pending(tables, Members(order))) && ordered == order + remaining;
    GreedyDistinct(g, tables, order);
    forall t | t in tables
      ensures t in remaining <==> Blocked(g, tables, t)
    {
      assert t in remaining <==> t !in order;
      if t in order {
        var i :| 0 <= i < |order| && order[i] == t;
        PlacedNotBlocked(g, tables, order, i);
      } else {
        UnplacedBlocked(g, tables, Members(order), t, {});
      }
    }
  }
}
