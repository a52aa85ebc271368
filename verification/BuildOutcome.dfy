/** When a stream can be built: what the metadata cache serves, and the exact conditions under
    which the builder succeeds. */
module BuildOutcome {
  import opened Ordering
  import opened Wrappers
  import opened SqlText
  import opened RowReplay
  import opened BinlogBatches
  import opened CommittedTransactions

  // ----- the metadata cache -----

  /** A row event whose table has the cache key. */
  predicate Fills(e: StreamEvent, key: string, c: Context) {
    RoleOf(e, c.opts) == RowData && TableKey(e.schema, e.table) == key
  }

  /** The first row event for a cache key. */
  function FirstFor(events: seq<StreamEvent>, key: string, c: Context): (i: nat)
    ensures i <= |events| && forall j :: 0 <= j < i ==> !Fills(events[j], key, c)
    ensures i < |events| ==> Fills(events[i], key, c)
    decreases |events|
  {
    if events == [] then 0
    else
      var last := |events| - 1;
      var i := FirstFor(events[..last], key, c);
      assert forall j :: 0 <= j < last ==> events[..last][j] == events[j];
      if i < last || Fills(events[last], key, c) then i else |events|
  }

  function Own(e: StreamEvent, c: Context): Option<Metadata> {
    c.loader(e.schema, e.table)
  }

  /** The metadata that row event i gets: the reading for the first row event with its key. */
  function Served(events: seq<StreamEvent>, i: nat, c: Context): Option<Metadata>
    requires i < |events| && RoleOf(events[i], c.opts) == RowData
  {
    Own(events[FirstFor(events, TableKey(events[i].schema, events[i].table), c)], c)
  }

  /** The cache holds, for each key seen, the reading for its first row event. */
  ghost predicate CacheIs(cache: map<string, Metadata>, seen: seq<StreamEvent>, c: Context) {
    forall key {:trigger FirstFor(seen, key, c)} ::
      var f := FirstFor(seen, key, c);
      if f < |seen| then key in cache && Own(seen[f], c) == Some(cache[key]) else key !in cache
  }

  lemma FirstForOneMore(seen: seq<StreamEvent>, e: StreamEvent, key: string, c: Context)
    ensures var f := FirstFor(seen, key, c);
      FirstFor(seen + [e], key, c) == if f < |seen| || Fills(e, key, c) then f else |seen| + 1
  {
    assert (seen + [e])[..|seen|] == seen;
  }

  /** What a step does to the cache. */
  lemma CacheAfter(s: BuildState, e: StreamEvent, t: BuildState, c: Context)
    requires Step(s, e, c.opts, c.policy, c.loader) == Ok(t)
    ensures RoleOf(e, c.opts) != RowData ==> t.cache == s.cache
    ensures RoleOf(e, c.opts) == RowData ==>
      var m := MetadataFor(s.cache, e, c.loader); m.Some? && t.cache == s.cache[TableKey(e.schema, e.table) := m.value]
  {}

  lemma CacheIsStep(cache: map<string, Metadata>, seen: seq<StreamEvent>, e: StreamEvent, after: map<string, Metadata>,
                    c: Context)
    requires CacheIs(cache, seen, c)
    requires RoleOf(e, c.opts) != RowData ==> after == cache
    requires RoleOf(e, c.opts) == RowData ==>
      var m := MetadataFor(cache, e, c.loader); m.Some? && after == cache[TableKey(e.schema, e.table) := m.value]
    ensures CacheIs(after, seen + [e], c)
  {
    var own := TableKey(e.schema, e.table);
    assert FirstFor(seen, own, c) <= |seen|;
    forall key
      ensures var f := FirstFor(seen + [e], key, c);
        if f < |seen + [e]| then key in after && Own((seen + [e])[f], c) == Some(after[key]) else key !in after
    {
      FirstForOneMore(seen, e, key, c);
    }
  }

  lemma FoldOneMore(s: BuildState, seen: seq<StreamEvent>, e: StreamEvent, c: Context)
    ensures Fold(s, seen + [e], c.opts, c.policy, c.loader)
         == match Fold(s, seen, c.opts, c.policy, c.loader)
            case Err(error) => Err(error)
            case Ok(t) => Step(t, e, c.opts, c.policy, c.loader)
  {
    FoldSplit(s, seen, [e], c);
    assert [e][1..] == [];
  }

  lemma {:induction false} FoldCacheIs(seen: seq<StreamEvent>, s: BuildState, c: Context)
    requires Fold(EMPTY, seen, c.opts, c.policy, c.loader) == Ok(s)
    ensures CacheIs(s.cache, seen, c)
    decreases |seen|
  {
    if seen != [] {
      var last := |seen| - 1;
      SplitLast(seen);
      FoldOneMore(EMPTY, seen[..last], seen[last], c);
      var before := Fold(EMPTY, seen[..last], c.opts, c.policy, c.loader).value;
      FoldCacheIs(seen[..last], before, c);
      CacheAfter(before, seen[last], s, c);
      CacheIsStep(before.cache, seen[..last], seen[last], s.cache, c);
    }
  }

  lemma {:induction false} FirstForPrefix(events: seq<StreamEvent>, i: nat, key: string, c: Context)
    requires i < |events|
    ensures FirstFor(events[..i], key, c) < i ==> FirstFor(events, key, c) == FirstFor(events[..i], key, c)
    ensures FirstFor(events[..i], key, c) == i && Fills(events[i], key, c) ==> FirstFor(events, key, c) == i
  {
    var f, g := FirstFor(events[..i], key, c), FirstFor(events, key, c);
    assert forall j :: 0 <= j < i ==> events[..i][j] == events[j];
    assert g < i ==> Fills(events[..i][g], key, c);
  }

  /** Whenever the builder comes to a row event, it compiles it with the served metadata. */
  lemma ServedIsUsed(events: seq<StreamEvent>, i: nat, s: BuildState, c: Context)
    requires i < |events| && RoleOf(events[i], c.opts) == RowData
    requires Fold(EMPTY, events[..i], c.opts, c.policy, c.loader) == Ok(s)
    ensures MetadataFor(s.cache, events[i], c.loader) == Served(events, i, c)
  {
    var key := TableKey(events[i].schema, events[i].table);
    FoldCacheIs(events[..i], s, c);
    FirstForPrefix(events, i, key, c);
    assert FirstFor(events[..i], key, c) <= i;
  }

  ghost predicate EachServedOwn(events: seq<StreamEvent>, c: Context) {
    forall i :: 0 <= i < |events| && RoleOf(events[i], c.opts) == RowData ==> Served(events, i, c) == Own(events[i], c)
  }

  /** For every stream: the cache, whose key ignores case, serves every row event its own table's
      metadata exactly when tables that share a key have the same metadata. */
  lemma CacheRightIff(events: seq<StreamEvent>, c: Context)
    ensures EachServedOwn(events, c) <==> SameMetadataPerKey(events, c)
  {
    if SameMetadataPerKey(events, c) {
      forall i | 0 <= i < |events| && RoleOf(events[i], c.opts) == RowData
        ensures Served(events, i, c) == Own(events[i], c)
      {
        assert Alike(events[FirstFor(events, TableKey(events[i].schema, events[i].table), c)], events[i], c);
      }
    }
    if EachServedOwn(events, c) {
      forall i, j | 0 <= i < |events| && 0 <= j < |events|
        ensures Alike(events[i], events[j], c)
      {
        if RoleOf(events[i], c.opts) == RowData && RoleOf(events[j], c.opts) == RowData
           && TableKey(events[i].schema, events[i].table) == TableKey(events[j].schema, events[j].table) {
          assert Served(events, i, c) == Served(events, j, c);
        }
      }
    }
  }

  // ----- when the builder succeeds -----

  /** Nothing about the event alone stands in its way: a row event compiles with its own table's
      metadata, and a DDL statement is ignored, or safe and to be applied. */
  predicate Acceptable(e: StreamEvent, c: Context) {
    match RoleOf(e, c.opts)
    case Unsupported => false
    case RowData => Own(e, c).Some?
      && CompileRows(e.kind.rowKind, e.schema, e.table, e.rows, Own(e, c).value, c.policy).Ok?
    case DdlPoint(ddlClass) => c.opts.applyDdl == "ignore" || (c.opts.applyDdl == "apply" && ddlClass == Safe)
    case _ => true
  }

  predicate Mixes(e: StreamEvent, f: StreamEvent, c: Context) {
    RoleOf(e, c.opts) == RowData && RoleOf(f, c.opts).DdlPoint?
  }

  /** Every event is acceptable alone, and no stream has both rows and DDL. */
  ghost predicate Buildable(events: seq<StreamEvent>, c: Context) {
    && (forall i {:trigger Acceptable(events[i], c)} :: 0 <= i < |events| ==> Acceptable(events[i], c))
    && (forall i, j {:trigger Mixes(events[i], events[j], c)} :: 0 <= i < |events| && 0 <= j < |events|
          ==> !Mixes(events[i], events[j], c))
  }

  /** The builder has noted a first row and a first DDL event exactly when it has seen one. */
  ghost predicate Noted(s: BuildState, seen: seq<StreamEvent>, c: Context) {
    && (s.firstRow.Some? <==> exists i :: 0 <= i < |seen| && RoleOf(seen[i], c.opts) == RowData)
    && (s.firstDdl.Some? <==> exists i :: 0 <= i < |seen| && RoleOf(seen[i], c.opts).DdlPoint?)
  }

  lemma NotedStep(s: BuildState, seen: seq<StreamEvent>, e: StreamEvent, t: BuildState, c: Context)
    requires Noted(s, seen, c) && Step(s, e, c.opts, c.policy, c.loader) == Ok(t)
    ensures Noted(t, seen + [e], c)
  {
    var all := seen + [e];
    assert forall i :: 0 <= i < |seen| ==> all[i] == seen[i];
    assert all[|seen|] == e;
  }

  lemma BuildableOneMore(seen: seq<StreamEvent>, e: StreamEvent, c: Context)
    ensures Buildable(seen + [e], c) <==>
      && Buildable(seen, c) && Acceptable(e, c)
      && (RoleOf(e, c.opts) == RowData ==> forall i :: 0 <= i < |seen| ==> !RoleOf(seen[i], c.opts).DdlPoint?)
      && (RoleOf(e, c.opts).DdlPoint? ==> forall i :: 0 <= i < |seen| ==> RoleOf(seen[i], c.opts) != RowData)
  {
    var all := seen + [e];
    assert all[|seen|] == e;
    if Buildable(all, c) {
      forall i | 0 <= i < |seen|
        ensures Acceptable(seen[i], c) && !Mixes(seen[i], e, c) && !Mixes(e, seen[i], c)
      {
        assert all[i] == seen[i];
        assert !Mixes(all[i], all[|seen|], c) && !Mixes(all[|seen|], all[i], c);
      }
      forall i, j | 0 <= i < |seen| && 0 <= j < |seen|
        ensures !Mixes(seen[i], seen[j], c)
      {
        assert !Mixes(all[i], all[j], c);
      }
    }
  }

  /** One step succeeds exactly when the event is acceptable and of the kind seen so far. */
  lemma StepOkIff(s: BuildState, e: StreamEvent, c: Context)
    requires RoleOf(e, c.opts) == RowData ==> MetadataFor(s.cache, e, c.loader) == Own(e, c)
    ensures Step(s, e, c.opts, c.policy, c.loader).Ok? <==>
      && Acceptable(e, c) && (RoleOf(e, c.opts) == RowData ==> s.firstDdl.None?)
         && (RoleOf(e, c.opts).DdlPoint? ==> s.firstRow.None?)
  {}

  lemma {:induction false} FoldOkIff(events: seq<StreamEvent>, k: nat, c: Context)
    requires k <= |events| && SameMetadataPerKey(events, c)
    ensures var r := Fold(EMPTY, events[..k], c.opts, c.policy, c.loader);
      (r.Ok? <==> Buildable(events[..k], c)) && (r.Ok? ==> Noted(r.value, events[..k], c))
  {
    if k > 0 {
      FoldOkIff(events, k - 1, c);
      TakeOneMore(events, k - 1);
      var seen, e := events[..k - 1], events[k - 1];
      FoldOneMore(EMPTY, seen, e, c);
      BuildableOneMore(seen, e, c);
      var r := Fold(EMPTY, seen, c.opts, c.policy, c.loader);
      if r.Ok? {
        if RoleOf(e, c.opts) == RowData {
          ServedIsUsed(events, k - 1, r.value, c);
          CacheRightIff(events, c);
        }
        StepOkIff(r.value, e, c);
        if Step(r.value, e, c.opts, c.policy, c.loader).Ok? {
          NotedStep(r.value, seen, e, Step(r.value, e, c.opts, c.policy, c.loader).value, c);
        }
      }
    }
  }

  /** When tables that share a cache key have the same metadata, a stream can be built exactly when
      each event is acceptable alone, rows and DDL are not mixed and no transaction is left open;
      the result is then the committed transactions. */
  lemma BuildSucceedsIff(events: seq<StreamEvent>, c: Context)
    requires Parsed(c) && SameMetadataPerKey(events, c)
    ensures Build(events, c.opts, c.loader).Ok? <==> Buildable(events, c) && Open(events, c) == []
    ensures Build(events, c.opts, c.loader).Ok? ==> Build(events, c.opts, c.loader) == Ok(Committed(events, c))
  {
    WholeSlice(events);
    FoldOkIff(events, |events|, c);
    if Fold(EMPTY, events, c.opts, c.policy, c.loader).Ok? {
      assert events[..0] == [] && events[0..] == events;
      FoldMeans(EMPTY, events, 0, c);
    }
  }

  // ----- restarts compose -----

  lemma BuildableParts(a: seq<StreamEvent>, b: seq<StreamEvent>, c: Context)
    requires Buildable(a + b, c)
    ensures Buildable(a, c) && Buildable(b, c)
  {
    var all := a + b;
    forall i | 0 <= i < |a|
      ensures Acceptable(a[i], c) && all[i] == a[i]
    {
      assert Acceptable(all[i], c);
    }
    forall i | 0 <= i < |b|
      ensures Acceptable(b[i], c) && all[|a| + i] == b[i]
    {
      assert Acceptable(all[|a| + i], c);
    }
    forall i, j | 0 <= i < |a| && 0 <= j < |a|
      ensures !Mixes(a[i], a[j], c)
    {
      assert !Mixes(all[i], all[j], c);
    }
    forall i, j | 0 <= i < |b| && 0 <= j < |b|
      ensures !Mixes(b[i], b[j], c)
    {
      assert !Mixes(all[|a| + i], all[|a| + j], c);
    }
  }

  /** Cutting the stream where no transaction is open cuts the result there: building the
      rest gives exactly the remaining batches, so a restart loses and repeats nothing. */
  lemma BuildCut(a: seq<StreamEvent>, b: seq<StreamEvent>, c: Context)
    requires Parsed(c) && SameMetadataPerKey(a + b, c) && CleanCut(a, c)
    requires Build(a + b, c.opts, c.loader).Ok?
    ensures Build(a, c.opts, c.loader) == Ok(Committed(a, c)) && Build(b, c.opts, c.loader).Ok?
    ensures Build(a + b, c.opts, c.loader).value == Build(a, c.opts, c.loader).value + Build(b, c.opts, c.loader).value
  {
    assert (a + b)[..|a|] == a && (a + b)[|a|..] == b;
    SameMetadataPart(a + b, 0, |a|, c);
    SameMetadataPart(a + b, |a|, |a + b|, c);
    BuildSucceedsIff(a + b, c);
    BuildableParts(a, b, c);
    CommittedAppend(a, b, c);
    BuildSucceedsIff(a, c);
    BuildSucceedsIff(b, c);
  }

  // ----- two tables with one key -----

  /** One column for table T, two for every other table. */
  function TwinLoader(schema: string, table: string): Option<Metadata> {
    Some(if table == "T" then TableMetadata(["a"], [0]) else TableMetadata(["a", "b"], [0]))
  }

  const TWIN_OPTIONS := Options("fail", "ignore", {})

  function TwinInsert(table: string, pos: nat, row: Row): StreamEvent {
    StreamEvent(RowsEvent(WriteRows), "b.000001", pos, 0, "s", table, "", [row])
  }

  function TwinCommit(pos: nat): StreamEvent {
    StreamEvent(XidEvent, "b.000001", pos, 0, "", "", "", [])
  }

  lemma CompileOneInsert(schema: string, table: string, row: Row, m: Metadata)
    ensures CompileRows(WriteRows, schema, table, [row], m, Fail)
      == if |row| == |m.columns| then Ok([ApplyEvent(schema, table, Insert(Plain, row), false)])
        else Err(ColumnCountMismatch)
  {
    assert [row][1..] == [];
    assert CompileAll(WriteRows, schema, table, [], m, Fail) == Ok([]);
    assert [ApplyEvent(schema, table, Insert(Plain, row), false)] + []
      == [ApplyEvent(schema, table, Insert(Plain, row), false)];
  }

  /** A transaction that inserts one row of the right width can be built. */
  lemma TwinTransaction(table: string, pos: nat, row: Row) returns (s: BuildState)
    requires |row| == |TwinLoader("s", table).value.columns|
    ensures Fold(EMPTY, [TwinInsert(table, pos, row), TwinCommit(pos + 10)], TWIN_OPTIONS, Fail, TwinLoader) == Ok(s)
    ensures s.pending == [] && s.firstDdl.None? && TableKey("s", table) in s.cache
    ensures s.cache[TableKey("s", table)] == TwinLoader("s", table).value
  {
    var m := TwinLoader("s", table).value;
    var w, x := TwinInsert(table, pos, row), TwinCommit(pos + 10);
    CompileOneInsert("s", table, row, m);
    var t := Step(EMPTY, w, TWIN_OPTIONS, Fail, TwinLoader).value;
    s := CommitStep(t, x);
    assert Step(t, x, TWIN_OPTIONS, Fail, TwinLoader) == Ok(s);
    assert [w, x][1..] == [x] && [x][1..] == [];
    assert Fold(s, [], TWIN_OPTIONS, Fail, TwinLoader) == Ok(s);
    assert Fold(t, [x], TWIN_OPTIONS, Fail, TwinLoader) == Ok(s);
  }

  /** Two tables whose names differ only in case: each transaction can be built alone, but the
      stream of both cannot, because the second is compiled with the first one's columns. */
  lemma CaseTwinsFail()
    ensures var first := [TwinInsert("T", 10, [Null]), TwinCommit(20)];
      var second := [TwinInsert("t", 30, [Null, Null]), TwinCommit(40)];
      && Build(first, TWIN_OPTIONS, TwinLoader).Ok? && Build(second, TWIN_OPTIONS, TwinLoader).Ok?
      && Build(first + second, TWIN_OPTIONS, TwinLoader) == Err(CompileFailed(second[0], ColumnCountMismatch))
  {
    var first := [TwinInsert("T", 10, [Null]), TwinCommit(20)];
    var second := [TwinInsert("t", 30, [Null, Null]), TwinCommit(40)];
    var s := TwinTransaction("T", 10, [Null]);
    var t := TwinTransaction("t", 30, [Null, Null]);
    assert ToLower("T") == ToLower("t");
    CompileOneInsert("s", "t", [Null, Null], TwinLoader("s", "T").value);
    assert Step(s, second[0], TWIN_OPTIONS, Fail, TwinLoader) == Err(CompileFailed(second[0], ColumnCountMismatch));
    FoldSplit(EMPTY, first, second, Context(TWIN_OPTIONS, Fail, TwinLoader));
  }
}
