/** What each event of a stream does to the transactions read so far, told from its own text: which
    query commits, which rolls back, which is refused. */
module StreamMeaning {
  import opened SqlText
  import opened Spelling
  import opened RowReplay
  import opened BinlogBatches
  import opened CommittedTransactions
  import opened BuildOutcome

  /** The event ends a transaction and keeps it. */
  ghost predicate Commits(e: StreamEvent) {
    e.kind.XidEvent? || (e.kind.QueryEvent? && Spells(e.query, "COMMIT"))
  }

  ghost predicate RollsBack(e: StreamEvent) {
    e.kind.QueryEvent? && Spells(e.query, "ROLLBACK")
  }

  /** BEGIN, and queries without text. */
  ghost predicate SaysNothing(e: StreamEvent) {
    e.kind.QueryEvent? && (Spells(e.query, "BEGIN") || Blanks(e.query))
  }

  lemma NothingAdded<T>(s: seq<T>)
    ensures s + [] == s
  {}

  /** A ROLLBACK drops what is open: it is in no batch, now or later. */
  lemma RollbackDrops(a: seq<StreamEvent>, e: StreamEvent, c: Context)
    requires RollsBack(e)
    ensures Committed(a + [e], c) == Committed(a, c) && Open(a + [e], c) == []
  {
    KeywordIff(e.query);
    OpenOneMore(a, e, c);
    NothingAdded(Committed(a, c));
  }

  /** A COMMIT or an XID makes what is open, if there is anything, the one new batch, with the
      event's own position as its end. */
  lemma CommitKeeps(a: seq<StreamEvent>, e: StreamEvent, c: Context)
    requires Commits(e)
    ensures Open(a + [e], c) == []
    ensures Committed(a + [e], c) == Committed(a, c)
      + if Open(a, c) == [] then [] else [Batch(e.file, e.pos, e.timestamp, RowPayload(Open(a, c)))]
  {
    KeywordIff(e.query);
    OpenOneMore(a, e, c);
  }

  lemma BeginKeeps(a: seq<StreamEvent>, e: StreamEvent, c: Context)
    requires SaysNothing(e)
    ensures Committed(a + [e], c) == Committed(a, c) && Open(a + [e], c) == Open(a, c)
  {
    KeywordIff(e.query);
    OpenOneMore(a, e, c);
    NothingAdded(Committed(a, c));
    NothingAdded(Open(a, c));
  }

  // ----- what a refusal names -----

  predicate Touches(e: StreamEvent, opts: Options) {
    var role := RoleOf(e, opts); role == CommitPoint || role == RollbackPoint || role == RowData
  }

  /** The last row event of a stream that ends within a transaction. */
  ghost predicate LastRow(seen: seq<StreamEvent>, file: string, pos: nat, opts: Options) {
    exists i {:trigger seen[i]} :: 0 <= i < |seen| && RoleOf(seen[i], opts) == RowData && seen[i].file == file
      && seen[i].pos == pos && forall j {:trigger seen[j]} :: i < j < |seen| ==> !Touches(seen[j], opts)
  }

  lemma LastRowNext(seen: seq<StreamEvent>, e: StreamEvent, file: string, pos: nat, opts: Options)
    ensures RoleOf(e, opts) == RowData && e.file == file && e.pos == pos ==> LastRow(seen + [e], file, pos, opts)
    ensures !Touches(e, opts) && LastRow(seen, file, pos, opts) ==> LastRow(seen + [e], file, pos, opts)
  {
    assert (seen + [e])[|seen|] == e;
    assert forall i :: 0 <= i < |seen| ==> (seen + [e])[i] == seen[i];
  }

  /** What the builder has noted for its refusals. */
  ghost predicate Noted(seen: seq<StreamEvent>, s: BuildState, opts: Options) {
    && (s.pending != [] ==> LastRow(seen, s.pendingFile, s.pendingPos, opts))
    && (s.firstDdl.Some? ==> s.firstDdl.value in seen && RoleOf(s.firstDdl.value, opts).DdlPoint?)
    && (s.firstRow.Some? ==> s.firstRow.value in seen && RoleOf(s.firstRow.value, opts) == RowData)
  }

  lemma NotedNext(seen: seq<StreamEvent>, s: BuildState, e: StreamEvent, opts: Options, policy: ConflictPolicy,
                  loader: Loader)
    requires Noted(seen, s, opts) && Step(s, e, opts, policy, loader).Ok?
    ensures Noted(seen + [e], Step(s, e, opts, policy, loader).value, opts)
  {
    LastRowNext(seen, e, s.pendingFile, s.pendingPos, opts);
    LastRowNext(seen, e, e.file, e.pos, opts);
  }

  /** What is refused is in the stream, and is what the refusal calls it. */
  ghost predicate Truthful(events: seq<StreamEvent>, error: BuildError, opts: Options) {
    match error
    case UnsafeDdlWindow(ddl, row) =>
      ddl in events && row in events && RoleOf(ddl, opts).DdlPoint? && RoleOf(row, opts) == RowData
    case IncompleteTransaction(file, pos) => LastRow(events, file, pos, opts)
    case UnsupportedQuery(e) => e in events && RoleOf(e, opts) == Unsupported
    case DdlBlocked(e) => e in events && RoleOf(e, opts).DdlPoint?
    case RiskyDdlBlocked(e) => e in events && RoleOf(e, opts) == DdlPoint(Risky)
    case MetadataUnavailable(e) => e in events && RoleOf(e, opts) == RowData
    case CompileFailed(e, _) => e in events && RoleOf(e, opts) == RowData
    case _ => true
  }

  lemma StepTruthful(seen: seq<StreamEvent>, s: BuildState, e: StreamEvent, opts: Options, policy: ConflictPolicy,
                     loader: Loader)
    requires Noted(seen, s, opts) && Step(s, e, opts, policy, loader).Err?
    ensures Truthful(seen + [e], Step(s, e, opts, policy, loader).error, opts)
      && !Step(s, e, opts, policy, loader).error.IncompleteTransaction?
  {}

  lemma {:induction false} FoldNotes(seen: seq<StreamEvent>, s: BuildState, rest: seq<StreamEvent>, opts: Options,
                                     policy: ConflictPolicy, loader: Loader)
    requires Noted(seen, s, opts)
    ensures var r := Fold(s, rest, opts, policy, loader);
      if r.Ok? then Noted(seen + rest, r.value, opts) else Truthful(seen + rest, r.error, opts)
    decreases |rest|
  {
    if rest == [] {
      NothingAdded(seen);
    } else {
      var e := rest[0];
      assert seen + rest == seen + [e] + rest[1..];
      var next := Step(s, e, opts, policy, loader);
      if next.Ok? {
        NotedNext(seen, s, e, opts, policy, loader);
        FoldNotes(seen + [e], next.value, rest[1..], opts, policy, loader);
      } else {
        StepTruthful(seen, s, e, opts, policy, loader);
        TruthfulMore(seen + [e], rest[1..], next.error, opts);
      }
    }
  }

  lemma TruthfulMore(a: seq<StreamEvent>, b: seq<StreamEvent>, error: BuildError, opts: Options)
    requires Truthful(a, error, opts) && !error.IncompleteTransaction?
    ensures Truthful(a + b, error, opts)
  {}

  /** Every refusal names the event that is at fault; that of a stream which ends within a transaction,
      the position of the last row event. */
  lemma RefusalNames(events: seq<StreamEvent>, c: Context)
    requires Build(events, c.opts, c.loader).Err?
    ensures Truthful(events, Build(events, c.opts, c.loader).error, c.opts)
  {
    var policy := ParsePolicy(c.opts.conflictPolicy);
    if policy.Some? {
      FoldNotes([], EMPTY, events, c.opts, policy.value, c.loader);
      assert [] + events == events;
    }
  }

  // ----- rows -----

  /** The table is one of the excluded ones, whose names are lower-cased. */
  ghost predicate Excluded(e: StreamEvent, c: Context) {
    exists name :: name in c.opts.excludeTables && NoUpper(name) && EqualFold(e.schema + "." + e.table, name)
  }

  lemma KeyIsFolded(schema: string, table: string, name: string)
    requires NoUpper(name)
    ensures TableKey(schema, table) == name <==> EqualFold(schema + "." + table, name)
  {
    LowerIsFold(schema + "." + table, name);
    assert ToLower(schema + "." + table) == TableKey(schema, table);
  }

  /** A row event of a table that is not excluded opens a transaction or goes on with it. */
  lemma RowsAreOpen(a: seq<StreamEvent>, e: StreamEvent, c: Context)
    requires e.kind.RowsEvent? && forall name :: name in c.opts.excludeTables ==> NoUpper(name)
    ensures Committed(a + [e], c) == Committed(a, c)
    ensures Excluded(e, c) ==> Open(a + [e], c) == Open(a, c)
    ensures !Excluded(e, c) && Own(e, c).Some? ==>
      var compiled := CompileRows(e.kind.rowKind, e.schema, e.table, e.rows, Own(e, c).value, c.policy);
      compiled.Ok? ==> Open(a + [e], c) == Open(a, c) + compiled.value
  {
    var key := TableKey(e.schema, e.table);
    if Excluded(e, c) {
      var name :| name in c.opts.excludeTables && NoUpper(name) && EqualFold(e.schema + "." + e.table, name);
      KeyIsFolded(e.schema, e.table, name);
    } else if key in c.opts.excludeTables {
      KeyIsFolded(e.schema, e.table, key);
    }
    OpenOneMore(a, e, c);
    NothingAdded(Committed(a, c));
    NothingAdded(Open(a, c));
  }

  // ----- what is refused -----

  /** A stream with a schema statement builds only if those are ignored, or applied and each of
      them is spelled as a safe one; and never with any other query. */
  lemma QueriesOfABuild(events: seq<StreamEvent>, i: nat, c: Context)
    requires Parsed(c) && SameMetadataPerKey(events, c) && Build(events, c.opts, c.loader).Ok?
    requires i < |events| && events[i].kind.QueryEvent?
    ensures var e := events[i];
      || Commits(e) || RollsBack(e) || SaysNothing(e)
      || (StartsLikeDdl(e.query) &&
          (c.opts.applyDdl == "ignore" || (c.opts.applyDdl == "apply" && SpellsSafe(e.query))))
  {
    BuildSucceedsIff(events, c);
    assert Acceptable(events[i], c);
    KeywordIff(events[i].query);
    DdlIff(events[i].query);
  }

  /** A safe schema statement that is applied is the one new batch; an ignored one is none. */
  lemma DdlKeeps(a: seq<StreamEvent>, e: StreamEvent, c: Context)
    requires e.kind.QueryEvent? && StartsLikeDdl(e.query)
    ensures Open(a + [e], c) == Open(a, c)
    ensures Committed(a + [e], c) == Committed(a, c)
      + if c.opts.applyDdl == "apply" then [Batch(e.file, e.pos, e.timestamp, DdlPayload(e.schema, e.query))] else []
  {
    DdlIff(e.query);
    OpenOneMore(a, e, c);
    NothingAdded(Open(a, c));
  }
}
