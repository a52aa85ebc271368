/** What a binlog stream means without a builder: which transactions committed, in which
    order, with which statements. The builder is proved to produce exactly these. */
module CommittedTransactions {
  import opened Ordering
  import opened Wrappers
  import opened RowReplay
  import opened BinlogBatches

  /** The options and the source tables' metadata that stay fixed while a stream is read. */
  datatype Context = Context(opts: Options, policy: ConflictPolicy, loader: Loader)

  predicate Boundary(e: StreamEvent, c: Context) {
    RoleOf(e, c.opts) in {CommitPoint, RollbackPoint}
  }

  /** The statements that the event stands for, compiled with its own table's metadata. */
  function StatementsOf(e: StreamEvent, c: Context): seq<ApplyEvent> {
    if RoleOf(e, c.opts) != RowData then []
    else
      match c.loader(e.schema, e.table)
      case None => []
      case Some(m) =>
        match CompileRows(e.kind.rowKind, e.schema, e.table, e.rows, m, c.policy)
        case Err(_) => []
        case Ok(events) => events
  }

  function Statements(events: seq<StreamEvent>, c: Context): seq<ApplyEvent>
    decreases |events|
  {
    if events == [] then []
    else Statements(events[..|events| - 1], c) + StatementsOf(events[|events| - 1], c)
  }

  /** Where the transaction that is open at the end of the stream began. */
  function OpenedAt(events: seq<StreamEvent>, c: Context): (i: nat)
    ensures i <= |events|
    ensures i == 0 || Boundary(events[i - 1], c)
    ensures forall k :: i <= k < |events| ==> !Boundary(events[k], c)
    decreases |events|
  {
    if events == [] || Boundary(events[|events| - 1], c) then |events|
    else
      var i := OpenedAt(events[..|events| - 1], c);
      assert forall k :: 0 <= k < |events| - 1 ==> events[k] == events[..|events| - 1][k];
      i
  }

  /** The statements of the transaction that is open at the end of the stream. */
  function Open(events: seq<StreamEvent>, c: Context): seq<ApplyEvent> {
    Statements(events[OpenedAt(events, c)..], c)
  }

  /** The batch, if any, that the event at the end of the stream completes. */
  function Completed(before: seq<StreamEvent>, e: StreamEvent, c: Context): seq<Batch> {
    match RoleOf(e, c.opts)
    case CommitPoint =>
      if Open(before, c) == [] then [] else [Batch(e.file, e.pos, e.timestamp, RowPayload(Open(before, c)))]
    case DdlPoint(_) =>
      if c.opts.applyDdl == "apply" then [Batch(e.file, e.pos, e.timestamp, DdlPayload(e.schema, e.query))] else []
    case _ => []
  }

  /** The committed transactions of the stream, in commit order. */
  function Committed(events: seq<StreamEvent>, c: Context): seq<Batch>
    decreases |events|
  {
    if events == [] then []
    else
      var last := |events| - 1;
      Committed(events[..last], c) + Completed(events[..last], events[last], c)
  }

  /** If the two are row events whose tables share a cache key, they have the same metadata. */
  predicate Alike(e: StreamEvent, f: StreamEvent, c: Context) {
    RoleOf(e, c.opts) == RowData && RoleOf(f, c.opts) == RowData
      && TableKey(e.schema, e.table) == TableKey(f.schema, f.table)
    ==> c.loader(e.schema, e.table) == c.loader(f.schema, f.table)
  }

  ghost predicate SameMetadataPerKey(events: seq<StreamEvent>, c: Context) {
    forall i, j {:trigger Alike(events[i], events[j], c)} ::
      0 <= i < |events| && 0 <= j < |events| ==> Alike(events[i], events[j], c)
  }

  /** For every row event of the stream a cached entry is that event's own metadata. */
  ghost predicate CacheRight(cache: map<string, Metadata>, events: seq<StreamEvent>, c: Context) {
    forall i :: 0 <= i < |events| && RoleOf(events[i], c.opts) == RowData
      && TableKey(events[i].schema, events[i].table) in cache
      ==> c.loader(events[i].schema, events[i].table) == Some(cache[TableKey(events[i].schema, events[i].table)])
  }

  /** Pending and batches are what the events read so far mean. */
  ghost predicate Means(s: BuildState, seen: seq<StreamEvent>, c: Context) {
    s.pending == Open(seen, c) && s.batches == Committed(seen, c)
  }

  lemma OpenOneMore(seen: seq<StreamEvent>, e: StreamEvent, c: Context)
    ensures Open(seen + [e], c) == if Boundary(e, c) then [] else Open(seen, c) + StatementsOf(e, c)
    ensures Committed(seen + [e], c) == Committed(seen, c) + Completed(seen, e, c)
  {
    var all := seen + [e];
    assert all[..|seen|] == seen;
    if Boundary(e, c) {
      assert all[|all|..] == [];
    } else {
      var i := OpenedAt(seen, c);
      var tail := all[i..];
      assert OpenedAt(all, c) == i;
      assert tail == seen[i..] + [e] && tail[..|tail| - 1] == seen[i..];
    }
  }

  lemma CacheStep(cache: map<string, Metadata>, events: seq<StreamEvent>, k: nat, m: Metadata, c: Context)
    requires k < |events| && RoleOf(events[k], c.opts) == RowData
    requires CacheRight(cache, events, c) && SameMetadataPerKey(events, c)
    requires c.loader(events[k].schema, events[k].table) == Some(m)
    ensures CacheRight(cache[TableKey(events[k].schema, events[k].table) := m], events, c)
  {
    assert forall i :: 0 <= i < |events| ==> Alike(events[i], events[k], c);
  }

  lemma RowStepAdds(s: BuildState, e: StreamEvent, c: Context)
    requires RoleOf(e, c.opts) == RowData && RowStep(s, e, c.policy, c.loader).Ok?
    requires TableKey(e.schema, e.table) in s.cache
      ==> c.loader(e.schema, e.table) == Some(s.cache[TableKey(e.schema, e.table)])
    ensures c.loader(e.schema, e.table).Some?
    ensures var t := RowStep(s, e, c.policy, c.loader).value;
      && t.pending == s.pending + StatementsOf(e, c) && t.batches == s.batches
      && t.cache == s.cache[TableKey(e.schema, e.table) := c.loader(e.schema, e.table).value]
  {}

  /** Any other successful step: what it does to pending and batches. */
  lemma OtherStepAdds(s: BuildState, seen: seq<StreamEvent>, e: StreamEvent, c: Context)
    requires RoleOf(e, c.opts) != RowData && Step(s, e, c.opts, c.policy, c.loader).Ok?
    requires s.pending == Open(seen, c)
    ensures var t := Step(s, e, c.opts, c.policy, c.loader).value;
      && t.pending == (if Boundary(e, c) then [] else s.pending)
      && t.batches == s.batches + Completed(seen, e, c)
      && t.cache == s.cache
  {
    assert s.batches + [] == s.batches;
  }

  /** One successful step of the builder keeps the meaning. */
  lemma StepMeans(s: BuildState, seen: seq<StreamEvent>, all: seq<StreamEvent>, k: nat, c: Context)
    requires k < |all| && Means(s, seen, c) && CacheRight(s.cache, all, c) && SameMetadataPerKey(all, c)
    requires Step(s, all[k], c.opts, c.policy, c.loader).Ok?
    ensures var t := Step(s, all[k], c.opts, c.policy, c.loader).value;
      Means(t, seen + [all[k]], c) && CacheRight(t.cache, all, c)
  {
    var e := all[k];
    OpenOneMore(seen, e, c);
    if RoleOf(e, c.opts) == RowData {
      RowStepAdds(s, e, c);
      CacheStep(s.cache, all, k, c.loader(e.schema, e.table).value, c);
      assert Committed(seen, c) + [] == Committed(seen, c);
    } else {
      OtherStepAdds(s, seen, e, c);
      assert s.pending + [] == s.pending;
    }
  }

  lemma {:induction false} FoldMeans(s: BuildState, all: seq<StreamEvent>, k: nat, c: Context)
    requires k <= |all| && Means(s, all[..k], c) && CacheRight(s.cache, all, c) && SameMetadataPerKey(all, c)
    requires Fold(s, all[k..], c.opts, c.policy, c.loader).Ok?
    ensures var t := Fold(s, all[k..], c.opts, c.policy, c.loader).value;
      Means(t, all, c) && CacheRight(t.cache, all, c)
    decreases |all| - k
  {
    if k == |all| {
      assert all[..k] == all;
    } else {
      TakeOneMore(all, k);
      StepMeans(s, all[..k], all, k, c);
      FoldMeans(Step(s, all[k], c.opts, c.policy, c.loader).value, all, k + 1, c);
    }
  }

  /** The policy is the one that the options name. */
  predicate Parsed(c: Context) {
    ParsePolicy(c.opts.conflictPolicy) == Some(c.policy)
  }

  /** A successful build is exactly the committed transactions of the stream, in order, and
      leaves no transaction open. */
  lemma BuildIsCommitted(events: seq<StreamEvent>, c: Context)
    requires Parsed(c) && SameMetadataPerKey(events, c)
    requires Build(events, c.opts, c.loader).Ok?
    ensures Build(events, c.opts, c.loader).value == Committed(events, c)
    ensures Open(events, c) == []
  {
    assert events[..0] == [] && events[0..] == events;
    FoldMeans(EMPTY, events, 0, c);
  }

  // ----- what the batches are -----

  /** The events [i, j) are one whole transaction, committed by event j. */
  ghost predicate Transaction(events: seq<StreamEvent>, i: nat, j: nat, c: Context) {
    && i <= j < |events| && RoleOf(events[j], c.opts) == CommitPoint
    && (i == 0 || Boundary(events[i - 1], c))
    && forall k :: i <= k < j ==> !Boundary(events[k], c)
  }

  lemma TransactionLater(before: seq<StreamEvent>, e: StreamEvent, i: nat, j: nat, c: Context)
    requires j < |before|
    ensures Transaction(before, i, j, c) <==> Transaction(before + [e], i, j, c)
    ensures i <= j ==> (before + [e])[i..j] == before[i..j]
    ensures (before + [e])[j] == before[j]
  {
    var all := before + [e];
    assert forall k :: 0 <= k < |before| ==> all[k] == before[k];
  }

  /** A whole transaction that the last event commits is the one that was open before it. */
  lemma TransactionNow(before: seq<StreamEvent>, e: StreamEvent, i: nat, c: Context)
    requires i <= |before|
    ensures Transaction(before + [e], i, |before|, c)
      <==> RoleOf(e, c.opts) == CommitPoint && i == OpenedAt(before, c)
    ensures (before + [e])[i..|before|] == before[i..]
  {
    var all := before + [e];
    assert forall k :: 0 <= k < |before| ==> all[k] == before[k];
    var o := OpenedAt(before, c);
    assert o < i ==> !Boundary(before[i - 1], c);
    assert i < o ==> Boundary(before[o - 1], c);
  }

  /** b holds the statements of the transaction [i, j), all of them and no others, and ends at its commit. */
  ghost predicate BatchOf(events: seq<StreamEvent>, b: Batch, i: nat, j: nat, c: Context) {
    && Transaction(events, i, j, c)
    && b == Batch(events[j].file, events[j].pos, events[j].timestamp, RowPayload(Statements(events[i..j], c)))
  }

  /** Every batch of rows is one committed transaction; so rolled-back rows are in none, and none is empty. */
  lemma {:induction false} RowBatchIsTransaction(events: seq<StreamEvent>, b: Batch, c: Context)
    requires b in Committed(events, c) && b.payload.RowPayload?
    ensures b.Count() > 0
    ensures exists i: nat, j: nat :: BatchOf(events, b, i, j, c)
    decreases |events|
  {
    var last := |events| - 1;
    var before, e := events[..last], events[last];
    SplitLast(events);
    if b in Committed(before, c) {
      RowBatchIsTransaction(before, b, c);
      var i: nat, j: nat :| BatchOf(before, b, i, j, c);
      TransactionLater(before, e, i, j, c);
      assert BatchOf(events, b, i, j, c);
    } else {
      var i := OpenedAt(before, c);
      TransactionNow(before, e, i, c);
      assert BatchOf(events, b, i, last, c);
    }
  }

  /** Every committed transaction with a statement has its batch. */
  lemma {:induction false} TransactionHasBatch(events: seq<StreamEvent>, b: Batch, i: nat, j: nat, c: Context)
    requires BatchOf(events, b, i, j, c) && Statements(events[i..j], c) != []
    ensures b in Committed(events, c)
    decreases |events|
  {
    var last := |events| - 1;
    var before, e := events[..last], events[last];
    SplitLast(events);
    if j < last {
      TransactionLater(before, e, i, j, c);
      TransactionHasBatch(before, b, i, j, c);
    } else {
      TransactionNow(before, e, i, c);
    }
  }

  // ----- DDL and rows never mix -----

  ghost predicate OneKind(s: BuildState) {
    && (s.firstRow.None? ==> s.pending == [] && forall b :: b in s.batches ==> b.payload.DdlPayload?)
    && (s.firstDdl.None? ==> forall b :: b in s.batches ==> b.payload.RowPayload?)
    && (s.firstRow.None? || s.firstDdl.None?)
  }

  lemma {:induction false} FoldOneKind(s: BuildState, events: seq<StreamEvent>, c: Context)
    requires OneKind(s) && Fold(s, events, c.opts, c.policy, c.loader).Ok?
    ensures OneKind(Fold(s, events, c.opts, c.policy, c.loader).value)
    decreases |events|
  {
    if events != [] {
      FoldOneKind(Step(s, events[0], c.opts, c.policy, c.loader).value, events[1..], c);
    }
  }

  /** A successful build is all DDL or all rows. */
  lemma BuildOneKind(events: seq<StreamEvent>, c: Context)
    requires Parsed(c) && Build(events, c.opts, c.loader).Ok?
    ensures var bs := Build(events, c.opts, c.loader).value;
      (forall b :: b in bs ==> b.payload.DdlPayload?) || (forall b :: b in bs ==> b.payload.RowPayload?)
  {
    FoldOneKind(EMPTY, events, c);
  }

  // ----- restarts compose -----

  lemma {:induction false} FoldSplit(s: BuildState, a: seq<StreamEvent>, b: seq<StreamEvent>, c: Context)
    ensures Fold(s, a + b, c.opts, c.policy, c.loader)
      == match Fold(s, a, c.opts, c.policy, c.loader)
         case Err(e) => Err(e)
         case Ok(t) => Fold(t, b, c.opts, c.policy, c.loader)
    decreases |a|
  {
    if a == [] {
      assert a + b == b;
    } else {
      assert (a + b)[1..] == a[1..] + b;
      var first := Step(s, a[0], c.opts, c.policy, c.loader);
      if first.Ok? {
        FoldSplit(first.value, a[1..], b, c);
      }
    }
  }

  /** No transaction is open at the end of the stream. */
  predicate CleanCut(events: seq<StreamEvent>, c: Context) {
    Open(events, c) == []
  }

  lemma CutAtBoundary(events: seq<StreamEvent>, c: Context)
    requires events == [] || Boundary(events[|events| - 1], c)
    ensures CleanCut(events, c)
  {
    assert events[|events|..] == [];
  }

  lemma CompletedSame(x: seq<StreamEvent>, y: seq<StreamEvent>, e: StreamEvent, c: Context)
    requires Open(x, c) == Open(y, c)
    ensures Completed(x, e, c) == Completed(y, e, c)
  {}

  lemma CommittedAppendOne(a: seq<StreamEvent>, b: seq<StreamEvent>, e: StreamEvent, c: Context)
    requires Committed(a + b, c) == Committed(a, c) + Committed(b, c) && Open(a + b, c) == Open(b, c)
    ensures Committed(a + (b + [e]), c) == Committed(a, c) + Committed(b + [e], c)
    ensures Open(a + (b + [e]), c) == Open(b + [e], c)
  {
    AppendAssociative(a, b, [e]);
    OpenOneMore(b, e, c);
    OpenOneMore(a + b, e, c);
    CompletedSame(a + b, b, e, c);
    AppendAssociative(Committed(a, c), Committed(b, c), Completed(b, e, c));
  }

  lemma {:induction false} CommittedAppend(a: seq<StreamEvent>, b: seq<StreamEvent>, c: Context)
    requires CleanCut(a, c)
    ensures Committed(a + b, c) == Committed(a, c) + Committed(b, c)
    ensures Open(a + b, c) == Open(b, c)
    decreases |b|
  {
    if b == [] {
      assert a + b == a;
      CutAtBoundary(b, c);
    } else {
      SplitLast(b);
      CommittedAppend(a, b[..|b| - 1], c);
      CommittedAppendOne(a, b[..|b| - 1], b[|b| - 1], c);
    }
  }

  lemma SameMetadataPart(events: seq<StreamEvent>, i: nat, j: nat, c: Context)
    requires i <= j <= |events| && SameMetadataPerKey(events, c)
    ensures SameMetadataPerKey(events[i..j], c)
  {
    var part := events[i..j];
    forall k, l | 0 <= k < |part| && 0 <= l < |part|
      ensures Alike(part[k], part[l], c)
    {
      assert Alike(events[i + k], events[i + l], c);
    }
  }

  lemma {:induction false} DdlBeforeRows(s: BuildState, events: seq<StreamEvent>, k: nat, c: Context)
    requires k < |events| && Fold(s, events, c.opts, c.policy, c.loader).Ok? && RoleOf(events[k], c.opts).DdlPoint?
    ensures s.firstRow.None? && forall i :: 0 <= i < k ==> RoleOf(events[i], c.opts) != RowData
    decreases |events|
  {
    if k > 0 {
      DdlBeforeRows(Step(s, events[0], c.opts, c.policy, c.loader).value, events[1..], k - 1, c);
      assert forall i :: 1 <= i < k ==> events[i] == events[1..][i - 1];
    }
  }

  lemma {:induction false} NoRowsNothingOpen(events: seq<StreamEvent>, c: Context)
    requires forall i :: 0 <= i < |events| ==> RoleOf(events[i], c.opts) != RowData
    ensures Open(events, c) == []
    decreases |events|
  {
    if events == [] {
      CutAtBoundary(events, c);
    } else {
      SplitLast(events);
      NoRowsNothingOpen(events[..|events| - 1], c);
      OpenOneMore(events[..|events| - 1], events[|events| - 1], c);
    }
  }

  /** Every batch of a successful build, of rows or of DDL, ends where no transaction is open. */
  lemma BatchEndIsCut(events: seq<StreamEvent>, k: nat, c: Context)
    requires Parsed(c) && Build(events, c.opts, c.loader).Ok?
    requires k < |events| && Completed(events[..k], events[k], c) != []
    ensures CleanCut(events[..k + 1], c)
  {
    TakeOneMore(events, k);
    if Boundary(events[k], c) {
      CutAtBoundary(events[..k + 1], c);
    } else {
      DdlBeforeRows(EMPTY, events, k, c);
      NoRowsNothingOpen(events[..k + 1], c);
    }
  }
}
