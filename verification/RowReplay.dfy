/** Row changes of the source, the keyed statements that replay them, and what
    those statements do to a destination table. */
module RowReplay {
  import opened Wrappers

  /** A column value; the statements compare values with the null-safe <=>. */
  datatype Value = Null | Scalar(text: string)

  type Row = seq<Value>
  type Key = seq<Value>

  /** keyOrdinals is empty for a table without a primary key. */
  datatype TableMetadata = TableMetadata(columns: seq<string>, keyOrdinals: seq<nat>) {
    predicate WellFormed() {
      forall i :: 0 <= i < |keyOrdinals| ==> keyOrdinals[i] < |columns|
    }
  }

  type Metadata = m: TableMetadata | m.WellFormed() witness TableMetadata([], [])

  datatype ConflictPolicy = Fail | SourceWins | DestWins

  datatype InsertMode = Plain | Ignore | Upsert

  datatype Condition = Equal(ordinal: nat, value: Value)

  /** A generated statement as its parsed form. */
  datatype Statement =
    | Insert(mode: InsertMode, row: Row)
    | Update(row: Row, where: seq<Condition>)
    | Delete(where: seq<Condition>)

  datatype CompileError = ColumnCountMismatch | KeylessReplay | OddUpdateRows

  datatype RowEventKind = WriteRows | UpdateRows | DeleteRows

  // ----- compilation -----

  function AllOrdinals(n: nat): (r: seq<nat>)
    ensures |r| == n && forall i :: 0 <= i < n ==> r[i] == i
  {
    seq(n, i => i)
  }

  function KeyOrdinals(m: Metadata): seq<nat> {
    if m.keyOrdinals != [] then m.keyOrdinals else AllOrdinals(|m.columns|)
  }

  /** The values of the row at the given ordinals. */
  function Project(row: Row, ordinals: seq<nat>): Key
    requires forall i :: 0 <= i < |ordinals| ==> ordinals[i] < |row|
  {
    seq(|ordinals|, i requires 0 <= i < |ordinals| => row[ordinals[i]])
  }

  function WhereFromRow(row: Row, ordinals: seq<nat>): seq<Condition>
    requires forall i :: 0 <= i < |ordinals| ==> ordinals[i] < |row|
  {
    seq(|ordinals|, i requires 0 <= i < |ordinals| => Equal(ordinals[i], row[ordinals[i]]))
  }

  function InsertModeFor(policy: ConflictPolicy): InsertMode {
    match policy
    case Fail => Plain
    case DestWins => Ignore
    case SourceWins => Upsert
  }

  function BuildInsert(m: Metadata, row: Row, policy: ConflictPolicy): Result<Statement, CompileError> {
    if |row| != |m.columns| then Err(ColumnCountMismatch) else Ok(Insert(InsertModeFor(policy), row))
  }

  function BuildDelete(m: Metadata, row: Row): Result<Statement, CompileError>
  {
    if |row| != |m.columns| then Err(ColumnCountMismatch) else Ok(Delete(WhereFromRow(row, KeyOrdinals(m))))
  }

  function BuildUpdate(m: Metadata, oldRow: Row, newRow: Row): Result<Statement, CompileError>
  {
    if |oldRow| != |m.columns| || |newRow| != |m.columns| then Err(ColumnCountMismatch)
    else Ok(Update(newRow, WhereFromRow(oldRow, KeyOrdinals(m))))
  }

  /** A statement for one table, and whether touching no row counts as a conflict. */
  datatype ApplyEvent = ApplyEvent(schema: string, table: string, statement: Statement, requireRowsAffected: bool)

  /** The statements of a row event, row by row (for an update: pair by pair), or the first error. */
  function CompileRows(kind: RowEventKind, schema: string, table: string, rows: seq<Row>,
                       m: Metadata, policy: ConflictPolicy): Result<seq<ApplyEvent>, CompileError>
  {
    if kind != WriteRows && m.keyOrdinals == [] then Err(KeylessReplay)
    else if kind == UpdateRows && |rows| % 2 != 0 then Err(OddUpdateRows)
    else CompileAll(kind, schema, table, rows, m, policy)
  }

  /** The number of rows that one change of the given kind takes. */
  function Stride(kind: RowEventKind): nat {
    if kind == UpdateRows then 2 else 1
  }

  function CompileOne(kind: RowEventKind, schema: string, table: string, rows: seq<Row>,
                      m: Metadata, policy: ConflictPolicy): Result<ApplyEvent, CompileError>
    requires Stride(kind) <= |rows|
  {
    var built := match kind
      case WriteRows => BuildInsert(m, rows[0], policy)
      case DeleteRows => BuildDelete(m, rows[0])
      case UpdateRows => BuildUpdate(m, rows[0], rows[1]);
    match built
    case Err(e) => Err(e)
    case Ok(statement) => Ok(ApplyEvent(schema, table, statement, kind != WriteRows && policy == Fail))
  }

  function CompileAll(kind: RowEventKind, schema: string, table: string, rows: seq<Row>,
                      m: Metadata, policy: ConflictPolicy): Result<seq<ApplyEvent>, CompileError>
  {
    if |rows| < Stride(kind) then Ok([])
    else
      match CompileOne(kind, schema, table, rows, m, policy)
      case Err(e) => Err(e)
      case Ok(first) =>
        match CompileAll(kind, schema, table, rows[Stride(kind)..], m, policy)
        case Err(e) => Err(e)
        case Ok(rest) => Ok([first] + rest)
  }

  /** sqlEventsForRows: the loops over the rows of one event. */
  method SqlEventsForRows(kind: RowEventKind, schema: string, table: string, rows: seq<Row>,
                          m: Metadata, policy: ConflictPolicy)
    returns (r: Result<seq<ApplyEvent>, CompileError>)
    ensures r == CompileRows(kind, schema, table, rows, m, policy)
  {
    if kind != WriteRows && m.keyOrdinals == [] {
      return Err(KeylessReplay);
    }
    if kind == UpdateRows && |rows| % 2 != 0 {
      return Err(OddUpdateRows);
    }
    var out: seq<ApplyEvent> := [];
    var i := 0;
    assert rows[0..] == rows;
    PrependNone(CompileAll(kind, schema, table, rows, m, policy));
    while i + Stride(kind) <= |rows|
      invariant 0 <= i <= |rows|
      invariant CompileAll(kind, schema, table, rows, m, policy)
        == Prepend(out, CompileAll(kind, schema, table, rows[i..], m, policy))
    {
      var built := CompileOne(kind, schema, table, rows[i..], m, policy);
      assert rows[i..][Stride(kind)..] == rows[i + Stride(kind)..];
      if built.Err? {
        return Err(built.error);
      }
      PrependOne(out, built.value, CompileAll(kind, schema, table, rows[i + Stride(kind)..], m, policy));
      out := out + [built.value];
      i := i + Stride(kind);
    }
    assert out + [] == out;
    return Ok(out);
  }

  function Prepend(head: seq<ApplyEvent>, tail: Result<seq<ApplyEvent>, CompileError>): Result<seq<ApplyEvent>,
    CompileError> {
    match tail
    case Err(e) => Err(e)
    case Ok(events) => Ok(head + events)
  }

  lemma PrependNone(tail: Result<seq<ApplyEvent>, CompileError>)
    ensures Prepend([], tail) == tail
  {
    if tail.Ok? {
      assert [] + tail.value == tail.value;
    }
  }

  lemma PrependOne(head: seq<ApplyEvent>, e: ApplyEvent, tail: Result<seq<ApplyEvent>, CompileError>)
    ensures Prepend(head, Prepend([e], tail)) == Prepend(head + [e], tail)
  {
    if tail.Ok? {
      assert head + ([e] + tail.value) == head + [e] + tail.value;
    }
  }

  // ----- what the statements do -----

  /** A destination table. A keyed table holds one row per key; a table without a key is a bag. */
  datatype Table =
    | Keyed(meta: Metadata, rows: map<Key, Row>)
    | Keyless(meta: Metadata, bag: multiset<Row>)
  {
    ghost predicate Valid() {
      && (Keyed? <==> meta.keyOrdinals != [])
      && (Keyed? ==> forall k :: k in rows ==> |rows[k]| == |meta.columns| && Project(rows[k], meta.keyOrdinals) == k)
    }
  }

  datatype SqlError = DuplicateKey | WrongColumnCount | NoKey

  /** The outcome of a statement: the new table and the number of rows that it changed. */
  datatype Execution = Done(table: Table, affected: nat) | Failed(error: SqlError)

  predicate Matches(row: Row, where: seq<Condition>) {
    forall i :: 0 <= i < |where| ==> where[i].ordinal < |row| && row[where[i].ordinal] == where[i].value
  }

  function MatchingKeys(rows: map<Key, Row>, where: seq<Condition>): set<Key> {
    set k | k in rows && Matches(rows[k], where)
  }

  function ExecInsert(t: Table, mode: InsertMode, row: Row): Execution
  {
    if |row| != |t.meta.columns| then Failed(WrongColumnCount)
    else if t.Keyless? then Done(t.(bag := t.bag + multiset{row}), 1)
    else
      var k := Project(row, t.meta.keyOrdinals);
      if k !in t.rows then Done(t.(rows := t.rows[k := row]), 1)
      else
        match mode
        case Plain => Failed(DuplicateKey)
        case Ignore => Done(t, 0)
        case Upsert => Done(t.(rows := t.rows[k := row]), if t.rows[k] == row then 0 else 2)
  }

  /** All matching rows get all columns of the new row; the row count is that of changed rows. */
  function ExecUpdate(t: Table, row: Row, where: seq<Condition>): Execution
  {
    if t.Keyless? then Failed(NoKey)
    else if |row| != |t.meta.columns| then Failed(WrongColumnCount)
    else
      var matching := MatchingKeys(t.rows, where);
      var k := Project(row, t.meta.keyOrdinals);
      if matching == {} then Done(t, 0)
      else if |matching| > 1 || (k !in matching && k in t.rows) then Failed(DuplicateKey)
      else Done(t.(rows := (t.rows - matching)[k := row]), if k in t.rows && t.rows[k] == row then 0 else 1)
  }

  function ExecDelete(t: Table, where: seq<Condition>): Execution {
    if t.Keyless? then Failed(NoKey)
    else
      var matching := MatchingKeys(t.rows, where);
      Done(t.(rows := t.rows - matching), |matching|)
  }

  function Exec(t: Table, s: Statement): Execution
  {
    match s
    case Insert(mode, row) => ExecInsert(t, mode, row)
    case Update(row, where) => ExecUpdate(t, row, where)
    case Delete(where) => ExecDelete(t, where)
  }

  // ----- what the source did -----

  datatype Change = Inserted(row: Row) | Updated(oldRow: Row, newRow: Row) | Deleted(row: Row)

  ghost predicate Holds(t: Table, row: Row) {
    && t.Keyed? && |row| == |t.meta.columns|
    && Project(row, t.meta.keyOrdinals) in t.rows
    && t.rows[Project(row, t.meta.keyOrdinals)] == row
  }

  /** The change can happen to the table: inserted keys are new, old images are what the
      table holds, an update changes the row and does not run into another row's key. */
  ghost predicate Possible(t: Table, c: Change) {
    && t.Valid()
    && match c
       case Inserted(row) =>
         |row| == |t.meta.columns| && (t.Keyed? ==> Project(row, t.meta.keyOrdinals) !in t.rows)
       case Deleted(row) => Holds(t, row)
       case Updated(oldRow, newRow) =>
         && Holds(t, oldRow) && |newRow| == |t.meta.columns| && newRow != oldRow
         && (Project(newRow, t.meta.keyOrdinals) == Project(oldRow, t.meta.keyOrdinals)
             || Project(newRow, t.meta.keyOrdinals) !in t.rows)
  }

  ghost function AfterChange(t: Table, c: Change): Table
    requires Possible(t, c)
  {
    match c
    case Inserted(row) =>
      if t.Keyless? then t.(bag := t.bag + multiset{row})
      else t.(rows := t.rows[Project(row, t.meta.keyOrdinals) := row])
    case Deleted(row) => t.(rows := t.rows - {Project(row, t.meta.keyOrdinals)})
    case Updated(oldRow, newRow) =>
      t.(rows := (t.rows - {Project(oldRow, t.meta.keyOrdinals)})[Project(newRow, t.meta.keyOrdinals) := newRow])
  }

  /** The changes that a row event records: update images come in pairs. */
  function Changes(kind: RowEventKind, rows: seq<Row>): seq<Change> {
    if |rows| < Stride(kind) then []
    else
      var first := match kind
        case WriteRows => Inserted(rows[0])
        case DeleteRows => Deleted(rows[0])
        case UpdateRows => Updated(rows[0], rows[1]);
      [first] + Changes(kind, rows[Stride(kind)..])
  }

  ghost predicate AllPossible(t: Table, cs: seq<Change>)
    decreases |cs|
  {
    cs == [] || (Possible(t, cs[0]) && AllPossible(AfterChange(t, cs[0]), cs[1..]))
  }

  ghost function AfterChanges(t: Table, cs: seq<Change>): Table
    requires AllPossible(t, cs)
    decreases |cs|
  {
    if cs == [] then t else AfterChanges(AfterChange(t, cs[0]), cs[1..])
  }

  // ----- compilation preserves meaning -----

  lemma WhereMatchesKey(row: Row, other: Row, ordinals: seq<nat>)
    requires forall i :: 0 <= i < |ordinals| ==> ordinals[i] < |row|
    requires |other| == |row|
    ensures Matches(other, WhereFromRow(row, ordinals)) <==> Project(other, ordinals) == Project(row, ordinals)
  {
    var where := WhereFromRow(row, ordinals);
    if Matches(other, where) {
      forall i | 0 <= i < |ordinals|
        ensures other[ordinals[i]] == row[ordinals[i]]
      {
        assert where[i] == Equal(ordinals[i], row[ordinals[i]]);
      }
    } else {
      var i :| 0 <= i < |where| && other[where[i].ordinal] != where[i].value;
      assert Project(other, ordinals)[i] != Project(row, ordinals)[i];
    }
  }

  /** The generated condition selects the row with the old image's key, and only that one. */
  lemma WhereSelectsKey(t: Table, row: Row)
    requires t.Valid() && t.Keyed? && |row| == |t.meta.columns|
    ensures MatchingKeys(t.rows, WhereFromRow(row, KeyOrdinals(t.meta)))
         == if Project(row, t.meta.keyOrdinals) in t.rows then {Project(row, t.meta.keyOrdinals)} else {}
  {
    forall k | k in t.rows
      ensures Matches(t.rows[k], WhereFromRow(row, t.meta.keyOrdinals)) <==> k == Project(row, t.meta.keyOrdinals)
    {
      WhereMatchesKey(row, t.rows[k], t.meta.keyOrdinals);
    }
  }

  lemma ChangeKeepsValid(t: Table, c: Change)
    requires Possible(t, c)
    ensures AfterChange(t, c).Valid() && AfterChange(t, c).meta == t.meta
  {}

  /** One compiled statement does to the before-image what the change did, whatever the
      policy, and touches a row. */
  lemma CompileOneMeaning(kind: RowEventKind, schema: string, table: string, rows: seq<Row>, t: Table,
                          policy: ConflictPolicy)
    requires Stride(kind) <= |rows| && Possible(t, Changes(kind, rows)[0])
    ensures var e := CompileOne(kind, schema, table, rows, t.meta, policy);
      && e.Ok?
      && Exec(t, e.value.statement).Done?
      && Exec(t, e.value.statement).table == AfterChange(t, Changes(kind, rows)[0])
      && Exec(t, e.value.statement).affected == 1
  {
    if kind != WriteRows {
      WhereSelectsKey(t, rows[0]);
    }
  }

  /** Executes statements one after the other; a required change that touches no row is a conflict. */
  datatype Replay = Finished(table: Table) | Conflict | Rejected(error: SqlError)

  function ExecAll(t: Table, events: seq<ApplyEvent>): Replay
    decreases |events|
  {
    if events == [] then Finished(t)
    else
      match Exec(t, events[0].statement)
      case Failed(error) => Rejected(error)
      case Done(t', affected) =>
        if events[0].requireRowsAffected && affected == 0 then Conflict else ExecAll(t', events[1..])
  }

  lemma {:induction false} CompileAllMeaning(kind: RowEventKind, schema: string, table: string, rows: seq<Row>,
                                             t: Table, policy: ConflictPolicy)
    requires t.Valid() && AllPossible(t, Changes(kind, rows))
    ensures var events := CompileAll(kind, schema, table, rows, t.meta, policy);
      events.Ok? && ExecAll(t, events.value) == Finished(AfterChanges(t, Changes(kind, rows)))
    decreases |rows|
  {
    if |rows| >= Stride(kind) {
      var cs := Changes(kind, rows);
      CompileOneMeaning(kind, schema, table, rows, t, policy);
      ChangeKeepsValid(t, cs[0]);
      assert cs[1..] == Changes(kind, rows[Stride(kind)..]);
      CompileAllMeaning(kind, schema, table, rows[Stride(kind)..], AfterChange(t, cs[0]), policy);
    }
  }

  /** Executing the statements compiled from a row event on the table's before-image yields
      the after-image, without error and without a zero-row conflict. */
  lemma CompileMeaning(kind: RowEventKind, schema: string, table: string, rows: seq<Row>, t: Table,
                       policy: ConflictPolicy)
    requires t.Valid() && AllPossible(t, Changes(kind, rows))
    requires kind != WriteRows ==> t.Keyed?
    requires kind == UpdateRows ==> |rows| % 2 == 0
    ensures var events := CompileRows(kind, schema, table, rows, t.meta, policy);
      events.Ok? && ExecAll(t, events.value) == Finished(AfterChanges(t, Changes(kind, rows)))
  {
    CompileAllMeaning(kind, schema, table, rows, t, policy);
  }

  /** An update or delete touches no row exactly when the table lacks the old image's key, or
      (update only) already holds the new image under it. */
  lemma ZeroRowsIff(kind: RowEventKind, schema: string, table: string, rows: seq<Row>, t: Table, policy: ConflictPolicy)
    requires t.Valid() && t.Keyed? && kind != WriteRows && Stride(kind) <= |rows|
    requires forall i :: 0 <= i < Stride(kind) ==> |rows[i]| == |t.meta.columns|
    ensures var k := Project(rows[0], t.meta.keyOrdinals);
      var e := CompileOne(kind, schema, table, rows, t.meta, policy);
      && e.Ok?
      && ((Exec(t, e.value.statement).Done? && Exec(t, e.value.statement).affected == 0)
          <==> k !in t.rows || (kind == UpdateRows && t.rows[k] == rows[1]))
  {
    WhereSelectsKey(t, rows[0]);
  }
}
