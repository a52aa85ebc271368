/** What a row event does to a destination in any state, under each conflict policy, told on rows and
    keys alone; and what a conflict does to its transaction. */
module ConflictMeaning {
  import opened Wrappers
  import opened RowReplay
  import opened BinlogBatches
  import opened CommittedTransactions
  import opened BuildOutcome
  import opened BinlogApply

  // ----- one change -----

  /** A required change that meets nothing: a conflict under policy fail, passed over otherwise. */
  function Missed(policy: ConflictPolicy, t: Table): Replay {
    if policy == Fail then Conflict else Finished(t)
  }

  predicate FitsTable(t: Table, c: Change) {
    match c
    case Inserted(row) => |row| == |t.meta.columns|
    case Deleted(row) => t.Keyed? && |row| == |t.meta.columns|
    case Updated(oldRow, newRow) => t.Keyed? && |oldRow| == |newRow| == |t.meta.columns|
  }

  function KeyIn(t: Table, row: Row): Key
    requires |row| == |t.meta.columns|
  {
    Project(row, t.meta.keyOrdinals)
  }

  /** The change, applied to a table that need not be its before-image. */
  function Resolve(policy: ConflictPolicy, t: Table, c: Change): (r: Replay)
    requires FitsTable(t, c)
    ensures r.Finished? ==> r.table.meta == t.meta && (r.table.Keyed? <==> t.Keyed?)
  {
    match c
    case Inserted(row) =>
      if t.Keyless? then Finished(t.(bag := t.bag + multiset{row}))
      else if KeyIn(t, row) !in t.rows then Finished(t.(rows := t.rows[KeyIn(t, row) := row]))
      else
        (match policy
         case Fail => Rejected(DuplicateKey)
         case SourceWins => Finished(t.(rows := t.rows[KeyIn(t, row) := row]))
         case DestWins => Finished(t))
    case Deleted(row) =>
      if KeyIn(t, row) in t.rows then Finished(t.(rows := t.rows - {KeyIn(t, row)})) else Missed(policy, t)
    case Updated(oldRow, newRow) =>
      var k, l := KeyIn(t, oldRow), KeyIn(t, newRow);
      if k !in t.rows || t.rows[k] == newRow then Missed(policy, t)
      else if k == l then Finished(t.(rows := t.rows[k := newRow]))
      else if l in t.rows then Rejected(DuplicateKey)
      else Finished(t.(rows := (t.rows - {k})[l := newRow]))
  }

  lemma ResolveKeepsValid(policy: ConflictPolicy, t: Table, c: Change)
    requires t.Valid() && FitsTable(t, c) && Resolve(policy, t, c).Finished?
    ensures Resolve(policy, t, c).table.Valid()
  {}

  /** One compiled statement does what Resolve says. */
  lemma CompileOneResolves(kind: RowEventKind, schema: string, table: string, rows: seq<Row>, t: Table,
                           policy: ConflictPolicy)
    requires Stride(kind) <= |rows| && t.Valid() && FitsTable(t, Changes(kind, rows)[0])
    ensures var e := CompileOne(kind, schema, table, rows, t.meta, policy);
      && e.Ok?
      && match Exec(t, e.value.statement)
         case Failed(error) => Resolve(policy, t, Changes(kind, rows)[0]) == Rejected(error)
         case Done(t', affected) =>
           Resolve(policy, t, Changes(kind, rows)[0])
           == if e.value.requireRowsAffected && affected == 0 then Conflict else Finished(t')
  {
    if kind == DeleteRows {
      DeleteResolves(t, rows[0]);
    } else if kind == UpdateRows {
      UpdateResolves(t, rows[0], rows[1]);
    }
  }

  lemma DeleteResolves(t: Table, row: Row)
    requires t.Valid() && t.Keyed? && |row| == |t.meta.columns|
    ensures ExecDelete(t, WhereFromRow(row, KeyOrdinals(t.meta)))
         == if KeyIn(t, row) in t.rows then Done(t.(rows := t.rows - {KeyIn(t, row)}), 1) else Done(t, 0)
  {
    WhereSelectsKey(t, row);
    assert t.rows - {} == t.rows;
  }

  lemma UpdateResolves(t: Table, oldRow: Row, newRow: Row)
    requires t.Valid() && t.Keyed? && |oldRow| == |newRow| == |t.meta.columns|
    ensures var k, l := KeyIn(t, oldRow), KeyIn(t, newRow);
      var r := ExecUpdate(t, newRow, WhereFromRow(oldRow, KeyOrdinals(t.meta)));
      && (k !in t.rows ==> r == Done(t, 0))
      && (k in t.rows && k != l && l in t.rows ==> r == Failed(DuplicateKey))
      && (k in t.rows && k == l ==> r == Done(t.(rows := t.rows[k := newRow]), if t.rows[k] == newRow then 0 else 1))
      && (k in t.rows && k != l && l !in t.rows ==> r == Done(t.(rows := (t.rows - {k})[l := newRow]), 1))
  {
    WhereSelectsKey(t, oldRow);
    var k := KeyIn(t, oldRow);
    if k in t.rows && k == KeyIn(t, newRow) {
      assert (t.rows - {k})[k := newRow] == t.rows[k := newRow];
    }
  }

  // ----- a row event -----

  ghost predicate FitAll(t: Table, cs: seq<Change>) {
    forall i {:trigger FitsTable(t, cs[i])} :: 0 <= i < |cs| ==> FitsTable(t, cs[i])
  }

  lemma FitLater(t: Table, t': Table, cs: seq<Change>)
    requires FitAll(t, cs) && cs != [] && t'.meta == t.meta && (t'.Keyed? <==> t.Keyed?)
    ensures FitAll(t', cs[1..])
  {
    forall i | 0 <= i < |cs[1..]|
      ensures FitsTable(t', cs[1..][i])
    {
      assert FitsTable(t, cs[i + 1]);
    }
  }

  ghost function ResolveAll(policy: ConflictPolicy, t: Table, cs: seq<Change>): Replay
    requires FitAll(t, cs)
    decreases |cs|
  {
    if cs == [] then Finished(t)
    else
      assert FitsTable(t, cs[0]);
      match Resolve(policy, t, cs[0])
      case Finished(t') => FitLater(t, t', cs); ResolveAll(policy, t', cs[1..])
      case Conflict => Conflict
      case Rejected(error) => Rejected(error)
  }

  lemma {:induction false} CompileAllResolves(kind: RowEventKind, schema: string, table: string, rows: seq<Row>,
                                              t: Table, policy: ConflictPolicy)
    requires t.Valid() && FitAll(t, Changes(kind, rows))
    ensures var events := CompileAll(kind, schema, table, rows, t.meta, policy);
      events.Ok? && ExecAll(t, events.value) == ResolveAll(policy, t, Changes(kind, rows))
    decreases |rows|
  {
    if |rows| >= Stride(kind) {
      var cs, rest := Changes(kind, rows), rows[Stride(kind)..];
      assert FitsTable(t, cs[0]);
      FitLater(t, t, cs);
      CompileOneResolves(kind, schema, table, rows, t, policy);
      assert cs[1..] == Changes(kind, rest);
      CompileAllResolves(kind, schema, table, rest, t, policy);
      if Resolve(policy, t, cs[0]).Finished? {
        ResolveKeepsValid(policy, t, cs[0]);
        FitLater(t, Resolve(policy, t, cs[0]).table, cs);
        CompileAllResolves(kind, schema, table, rest, Resolve(policy, t, cs[0]).table, policy);
      }
    }
  }

  /** Every row image has the table's width. */
  predicate FullRows(rows: seq<Row>, m: Metadata) {
    forall i :: 0 <= i < |rows| ==> |rows[i]| == |m.columns|
  }

  lemma {:induction false} ChangesFit(kind: RowEventKind, rows: seq<Row>, t: Table)
    requires t.Valid() && FullRows(rows, t.meta) && (kind != WriteRows ==> t.Keyed?)
    ensures FitAll(t, Changes(kind, rows))
    decreases |rows|
  {
    if |rows| >= Stride(kind) {
      var rest := rows[Stride(kind)..];
      assert FullRows(rest, t.meta);
      ChangesFit(kind, rest, t);
      var cs := Changes(kind, rows);
      assert cs[1..] == Changes(kind, rest);
      forall i | 0 <= i < |cs|
        ensures FitsTable(t, cs[i])
      {
        assert i > 0 ==> cs[i] == cs[1..][i - 1] && FitsTable(t, cs[1..][i - 1]);
      }
    }
  }

  lemma {:induction false} CompileAllWidths(kind: RowEventKind, schema: string, table: string, rows: seq<Row>,
                                            m: Metadata, policy: ConflictPolicy)
    requires kind == UpdateRows ==> |rows| % 2 == 0
    ensures CompileAll(kind, schema, table, rows, m, policy).Ok? <==> FullRows(rows, m)
    decreases |rows|
  {
    if |rows| >= Stride(kind) {
      var rest := rows[Stride(kind)..];
      CompileAllWidths(kind, schema, table, rest, m, policy);
      assert rows == rows[..Stride(kind)] + rest;
      assert FullRows(rows, m) <==> FullRows(rows[..Stride(kind)], m) && FullRows(rest, m);
      assert forall i :: 0 <= i < Stride(kind) ==> rows[..Stride(kind)][i] == rows[i];
    }
  }

  /** When a row event compiles: the table has a key unless rows are only inserted, update images
      come in pairs, and every image has all columns. */
  lemma CompilesIff(kind: RowEventKind, schema: string, table: string, rows: seq<Row>, m: Metadata,
                    policy: ConflictPolicy)
    ensures CompileRows(kind, schema, table, rows, m, policy).Ok?
       <==> (kind != WriteRows ==> m.keyOrdinals != []) && (kind == UpdateRows ==> |rows| % 2 == 0) && FullRows(rows, m)
  {
    if kind == UpdateRows ==> |rows| % 2 == 0 {
      CompileAllWidths(kind, schema, table, rows, m, policy);
    }
  }

  /** The statements of a row event do to any valid table what the changes mean under the policy. */
  lemma EventResolves(kind: RowEventKind, schema: string, table: string, rows: seq<Row>, t: Table,
                      policy: ConflictPolicy)
    requires t.Valid() && CompileRows(kind, schema, table, rows, t.meta, policy).Ok?
    ensures FitAll(t, Changes(kind, rows))
    ensures ExecAll(t, CompileRows(kind, schema, table, rows, t.meta, policy).value)
         == ResolveAll(policy, t, Changes(kind, rows))
  {
    CompilesIff(kind, schema, table, rows, t.meta, policy);
    ChangesFit(kind, rows, t);
    CompileAllResolves(kind, schema, table, rows, t, policy);
  }

  // ----- the destination -----

  /** The outcome of one table's statements as that of their transaction. */
  function TxOutcome(db: Database, name: Name, r: Replay): Result<Database, TxError> {
    match r
    case Finished(t) => Ok(db[name := t])
    case Conflict => Err(ZeroRows)
    case Rejected(error) => Err(Sql(error))
  }

  lemma {:induction false} OneTableOutcome(db: Database, name: Name, events: seq<ApplyEvent>)
    requires name in db && forall i :: 0 <= i < |events| ==> (events[i].schema, events[i].table) == name
    ensures ExecEvents(db, events) == TxOutcome(db, name, ExecAll(db[name], events))
    decreases |events|
  {
    if events == [] {
      assert db[name := db[name]] == db;
    } else if Exec(db[name], events[0].statement).Done? {
      var t := Exec(db[name], events[0].statement).table;
      OneTableOutcome(db[name := t], name, events[1..]);
      var r := ExecAll(t, events[1..]);
      if r.Finished? {
        assert db[name := t][name := r.table] == db[name := r.table];
      }
    }
  }

  lemma {:induction false} ForOneTable(kind: RowEventKind, schema: string, table: string, rows: seq<Row>, m: Metadata,
                                       policy: ConflictPolicy)
    requires CompileAll(kind, schema, table, rows, m, policy).Ok?
    ensures var events := CompileAll(kind, schema, table, rows, m, policy).value;
      forall i :: 0 <= i < |events| ==> (events[i].schema, events[i].table) == (schema, table)
    decreases |rows|
  {
    if |rows| >= Stride(kind) {
      ForOneTable(kind, schema, table, rows[Stride(kind)..], m, policy);
    }
  }

  /** A row event on a destination in any state: its statements, run in one transaction, give what
      the changes mean under the policy, or fail on the first that conflicts. */
  lemma RowEventResolves(db: Database, e: StreamEvent, c: Context)
    requires RoleOf(e, c.opts) == RowData && Acceptable(e, c)
    requires (e.schema, e.table) in db && db[(e.schema, e.table)].Valid()
    requires Own(e, c) == Some(db[(e.schema, e.table)].meta)
    ensures var t, cs := db[(e.schema, e.table)], Changes(e.kind.rowKind, e.rows);
      && FitAll(t, cs)
      && ExecEvents(db, StatementsOf(e, c)) == TxOutcome(db, (e.schema, e.table), ResolveAll(c.policy, t, cs))
  {
    var t := db[(e.schema, e.table)];
    EventResolves(e.kind.rowKind, e.schema, e.table, e.rows, t, c.policy);
    ForOneTable(e.kind.rowKind, e.schema, e.table, e.rows, t.meta, c.policy);
    OneTableOutcome(db, (e.schema, e.table), StatementsOf(e, c));
  }

  /** The policies by their names: an insert onto a row that is there. */
  lemma HeldInsert(db: Database, e: StreamEvent, row: Row, c: Context)
    requires Parsed(c) && RoleOf(e, c.opts) == RowData && e.kind == RowsEvent(WriteRows) && e.rows == [row]
    requires var name := (e.schema, e.table);
      && name in db && db[name].Valid() && db[name].Keyed? && Own(e, c) == Some(db[name].meta)
      && |row| == |db[name].meta.columns| && KeyIn(db[name], row) in db[name].rows
    ensures var name, k := (e.schema, e.table), KeyIn(db[(e.schema, e.table)], row);
      ExecEvents(db, StatementsOf(e, c))
      == if c.opts.conflictPolicy == "source-wins" then Ok(db[name := db[name].(rows := db[name].rows[k := row])])
         else if c.opts.conflictPolicy == "dest-wins" then Ok(db)
         else Err(Sql(DuplicateKey))
  {
    var t := db[(e.schema, e.table)];
    CompilesIff(WriteRows, e.schema, e.table, e.rows, t.meta, c.policy);
    RowEventResolves(db, e, c);
    assert e.rows[1..] == [];
    var cs := Changes(WriteRows, e.rows);
    assert cs == [Inserted(row)] && cs[1..] == [];
    assert db[(e.schema, e.table) := t] == db;
  }

  // ----- its transaction -----

  /** A batch whose statements conflict is never durable, nor is any behind it: the tables and the
      checkpoint row stay as the batches in front of it left them. */
  lemma ConflictIsNotDurable(before: Durable, after: Durable, batches: seq<Batch>, start: Mark, limit: nat, end: RunEnd,
                             k: nat, j: nat)
    requires WindowRun(before, after, batches, start, limit, end, k)
    requires j < |batches| && CommitTo(before, batches, j).Ok? && batches[j].Count() > 0
    requires ExecEvents(CommitTo(before, batches, j).value.tables, batches[j].payload.events).Err?
    ensures k <= j
  {
    if j < k {
      StopsCommitting(before, batches, j, k);
    }
  }

  lemma {:induction false} StopsCommitting(d: Durable, batches: seq<Batch>, j: nat, k: nat)
    requires RowsOnly(batches) && j < k <= |batches| && CommitTo(d, batches, k).Ok?
    ensures CommitTo(d, batches, j).Ok? && Commit(CommitTo(d, batches, j).value, batches[j]).Ok?
    decreases k
  {
    if j < k - 1 {
      StopsCommitting(d, batches, j, k - 1);
    }
  }
}
