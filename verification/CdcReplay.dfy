/** Replaying logged row changes into a destination: the statements of one event, and what
    replaying a stretch of the log again does. */
module CdcReplay {
  import opened Wrappers
  import R = RowReplay

  /** A row as its JSON object: absent columns are null. */
  type JsonRow = map<string, R.Value>

  datatype Event = Event(id: nat, table: string, operation: string, oldRow: Option<JsonRow>, newRow: Option<JsonRow>)

  datatype TableInfo = TableInfo(columns: seq<string>, keyColumns: seq<string>)

  /** The destination tables of one database; every table has one unique key. */
  type Catalog = map<string, TableInfo>

  /** A stored row is found by its table and its key values. */
  datatype Address = Address(table: string, key: seq<R.Value>)

  type Db = map<Address, JsonRow>

  function Column(row: JsonRow, column: string): R.Value {
    if column in row then row[column] else R.Null
  }

  /** RowToValues: one value for each destination column. */
  function Values(row: JsonRow, info: TableInfo): JsonRow {
    map c | c in info.columns :: Column(row, c)
  }

  function KeyOf(row: JsonRow, info: TableInfo): (key: seq<R.Value>)
    ensures |key| == |info.keyColumns| && forall i :: 0 <= i < |key| ==> key[i] == Column(row, info.keyColumns[i])
  {
    seq(|info.keyColumns|, i requires 0 <= i < |info.keyColumns| => Column(row, info.keyColumns[i]))
  }

  // ----- the WHERE clause -----

  datatype Condition = IsNull(column: string) | NullSafeEqual(column: string, value: R.Value)

  predicate Holds(condition: Condition, row: JsonRow) {
    match condition
    case IsNull(c) => Column(row, c) == R.Null
    case NullSafeEqual(c, v) => Column(row, c) == v
  }

  ghost predicate Selects(where: seq<Condition>, row: JsonRow) {
    forall i :: 0 <= i < |where| ==> Holds(where[i], row)
  }

  /** buildWhereFromRow. */
  method BuildWhereFromRow(row: JsonRow, info: TableInfo) returns (where: seq<Condition>)
    ensures |where| == |info.keyColumns|
    ensures forall other :: Selects(where, other) <==> KeyOf(other, info) == KeyOf(row, info)
  {
    where := [];
    for i := 0 to |info.keyColumns|
      invariant |where| == i
      invariant forall j :: 0 <= j < i ==>
                  where[j] == var c := info.keyColumns[j]; if Column(row, c) == R.Null then IsNull(c)
                    else NullSafeEqual(c, Column(row, c))
    {
      var c := info.keyColumns[i];
      where := where + [if Column(row, c) == R.Null then IsNull(c) else NullSafeEqual(c, Column(row, c))];
    }
    forall other
      ensures Selects(where, other) <==> KeyOf(other, info) == KeyOf(row, info)
    {
      var a, b := KeyOf(other, info), KeyOf(row, info);
      assert forall j :: 0 <= j < |where| ==> (Holds(where[j], other) <==> a[j] == b[j]);
      if Selects(where, other) {
        assert forall j :: 0 <= j < |a| ==> Holds(where[j], other);
        assert a == b;
      }
    }
  }

  // ----- one event -----

  datatype ApplyError = UnknownTable | UnknownOperation | MissingRow | DuplicateKey

  /** The statement of an event. */
  datatype Op = Put(at: Address, row: JsonRow) | Set(at: Address, to: Address, row: JsonRow) | Drop(at: Address)

  /** applyEvent up to the statement: INSERT and UPDATE need the new row, DELETE the old one; an
      UPDATE without an old row looks for the new row's key. */
  function Decode(catalog: Catalog, e: Event): Result<Op, ApplyError> {
    if e.table !in catalog then Err(UnknownTable)
    else
      var info := catalog[e.table];
      if e.operation == "INSERT" then
        if e.newRow.None? then Err(MissingRow)
        else Ok(Put(Address(e.table, KeyOf(e.newRow.value, info)), Values(e.newRow.value, info)))
      else if e.operation == "UPDATE" then
        if e.newRow.None? then Err(MissingRow)
        else
          var keyRow := if e.oldRow.None? then e.newRow.value else e.oldRow.value;
          Ok(Set(Address(e.table, KeyOf(keyRow, info)), Address(e.table, KeyOf(e.newRow.value, info)),
            Values(e.newRow.value, info)))
      else if e.operation == "DELETE" then
        if e.oldRow.None? then Err(MissingRow) else Ok(Drop(Address(e.table, KeyOf(e.oldRow.value, info))))
      else Err(UnknownOperation)
  }

  /** What the destination does with the statement. No statement checks how many rows it met. */
  function Exec(policy: R.ConflictPolicy, db: Db, op: Op): Result<Db, ApplyError> {
    match op
    case Put(at, row) =>
      if at !in db then Ok(db[at := row])
      else if policy == R.Fail then Err(DuplicateKey)
      else Ok(if policy == R.SourceWins then db[at := row] else db)
    case Set(at, to, row) =>
      if at !in db then Ok(db)
      else if at == to then Ok(db[at := row])
      else if to in db then Err(DuplicateKey)
      else Ok((db - {at})[to := row])
    case Drop(at) => Ok(db - {at})
  }

  function ApplyEvent(policy: R.ConflictPolicy, catalog: Catalog, db: Db, e: Event): Result<Db, ApplyError> {
    var op := Decode(catalog, e);
    if op.Err? then Err(op.error) else Exec(policy, db, op.value)
  }

  // ----- replaying a stretch of a log -----

  /** The configuration of a replay: policy, destination tables, and the tables it keeps. */
  datatype Replayer = Replayer(policy: R.ConflictPolicy, catalog: Catalog, keeps: Event -> bool)

  /** Applies the kept events from a up to b, stopping at the first error. */
  function Replay(r: Replayer, log: seq<Event>, a: nat, b: nat, db: Db): Result<Db, ApplyError>
    requires a <= b <= |log|
    decreases b
  {
    if a == b then Ok(db)
    else
      var before := Replay(r, log, a, b - 1, db);
      if before.Err? then before
      else if !r.keeps(log[b - 1]) then before
      else ApplyEvent(r.policy, r.catalog, before.value, log[b - 1])
  }

  lemma {:induction false} ReplaySplit(r: Replayer, log: seq<Event>, a: nat, b: nat, c: nat, db: Db)
    requires a <= b <= c <= |log| && Replay(r, log, a, b, db).Ok?
    ensures Replay(r, log, a, c, db) == Replay(r, log, b, c, Replay(r, log, a, b, db).value)
    decreases c
  {
    if b < c {
      ReplaySplit(r, log, a, b, c - 1, db);
    }
  }

  // ----- the source -----

  /** What the change that was logged did to the source, or None when it cannot have happened. */
  function SourceStep(db: Db, op: Op): Option<Db> {
    match op
    case Put(at, row) => if at in db then None else Some(db[at := row])
    case Set(at, to, row) =>
      if at !in db || (to != at && to in db) then None else Some((db - {at})[to := row])
    case Drop(at) => if at in db then Some(db - {at}) else None
  }

  /** The source after the first h events, as far as the kept tables go. */
  function SourceAt(r: Replayer, log: seq<Event>, h: nat, start: Db): Option<Db>
    requires h <= |log|
  {
    if h == 0 then Some(start)
    else
      var before := SourceAt(r, log, h - 1, start);
      if before.None? || !r.keeps(log[h - 1]) then before
      else
        var op := Decode(r.catalog, log[h - 1]);
        if op.Err? then None else SourceStep(before.value, op.value)
  }

  /** A log that changes could have written, starting from the given tables. */
  ghost predicate ValidLog(r: Replayer, log: seq<Event>, start: Db) {
    SourceAt(r, log, |log|, start).Some?
  }

  /** No kept update moves a row to another key. */
  ghost predicate KeyPreserving(r: Replayer, log: seq<Event>) {
    forall i {:trigger log[i]} :: 0 <= i < |log| && r.keeps(log[i]) ==>
      var op := Decode(r.catalog, log[i]);
      op.Ok? && op.value.Set? ==> op.value.at == op.value.to
  }

  lemma {:induction false} ValidPrefix(r: Replayer, log: seq<Event>, h: nat, k: nat, start: Db)
    requires h <= k <= |log| && SourceAt(r, log, k, start).Some?
    ensures SourceAt(r, log, h, start).Some?
    decreases k
  {
    if h < k {
      ValidPrefix(r, log, h, k - 1, start);
    }
  }

  /** On a destination that equals the source, replaying follows the source exactly, under every
      policy and with key-changing updates. */
  lemma {:induction false} ReplayFollows(r: Replayer, log: seq<Event>, a: nat, b: nat, start: Db)
    requires a <= b <= |log| && ValidLog(r, log, start)
    ensures SourceAt(r, log, a, start).Some? && SourceAt(r, log, b, start).Some?
    ensures Replay(r, log, a, b, SourceAt(r, log, a, start).value) == Ok(SourceAt(r, log, b, start).value)
    decreases b
  {
    ValidPrefix(r, log, a, |log|, start);
    ValidPrefix(r, log, b, |log|, start);
    if a < b {
      ReplayFollows(r, log, a, b - 1, start);
      var before := SourceAt(r, log, b - 1, start).value;
      if r.keeps(log[b - 1]) {
        var op := Decode(r.catalog, log[b - 1]).value;
        if op.Set? && op.at == op.to {
          assert (before - {op.at})[op.to := op.row] == before[op.at := op.row];
        }
      }
    }
  }

  // ----- what a stretch does to one address -----

  /** Nothing; a new row if there is one; a row in any case; a row if there is none; no row. */
  datatype Action = Same | Change(row: JsonRow) | Give(row: JsonRow) | Default(row: JsonRow) | Gone

  function Act(action: Action, row: Option<JsonRow>): Option<JsonRow> {
    match action
    case Same => row
    case Change(r) => if row.Some? then Some(r) else None
    case Give(r) => Some(r)
    case Default(r) => if row.Some? then row else Some(r)
    case Gone => None
  }

  function Lookup(db: Db, at: Address): Option<JsonRow> {
    if at in db then Some(db[at]) else None
  }

  /** The action followed by one statement for that address. */
  function Then(policy: R.ConflictPolicy, action: Action, op: Op): Action {
    match op
    case Put(_, row) =>
      (match action
       case Same => if policy == R.SourceWins then Give(row) else Default(row)
       case _ => Give(row))
    case Set(_, _, row) =>
      (match action
       case Same => Change(row)
       case Change(_) => Change(row)
       case Give(_) => Give(row)
       case Default(_) => Give(row)
       case Gone => Gone)
    case Drop(_) => Gone
  }

  predicate Concerns(r: Replayer, e: Event, at: Address) {
    r.keeps(e) && Decode(r.catalog, e).Ok? && Decode(r.catalog, e).value.at == at
  }

  /** What replaying the events from a up to b does at an address. */
  function ActionOf(r: Replayer, log: seq<Event>, a: nat, b: nat, at: Address): Action
    requires a <= b <= |log|
    decreases b
  {
    if a == b then Same
    else
      var before := ActionOf(r, log, a, b - 1, at);
      if Concerns(r, log[b - 1], at) then Then(r.policy, before, Decode(r.catalog, log[b - 1]).value) else before
  }

  /** What an action says about the source's row at both ends of the stretch. */
  predicate Fits(action: Action, from: bool, to: bool) {
    match action
    case Same => from == to
    case Change(_) => from && to
    case Give(_) => to
    case Default(_) => !from && to
    case Gone => !to
  }

  lemma SourceStepAt(r: Replayer, log: seq<Event>, b: nat, start: Db, at: Address)
    requires b < |log| && ValidLog(r, log, start) && KeyPreserving(r, log)
    ensures SourceAt(r, log, b, start).Some? && SourceAt(r, log, b + 1, start).Some?
    ensures var before, after := SourceAt(r, log, b, start).value, SourceAt(r, log, b + 1, start).value;
      if Concerns(r, log[b], at) then
        match Decode(r.catalog, log[b]).value
        case Put(_, _) => at !in before && at in after
        case Set(_, _, _) => at in before && at in after
        case Drop(_) => at in before && at !in after
      else at in before <==> at in after
  {
    ValidPrefix(r, log, b, |log|, start);
    ValidPrefix(r, log, b + 1, |log|, start);
  }

  lemma {:induction false} ActionFits(r: Replayer, log: seq<Event>, a: nat, b: nat, start: Db, at: Address)
    requires a <= b <= |log| && ValidLog(r, log, start) && KeyPreserving(r, log)
    ensures SourceAt(r, log, a, start).Some? && SourceAt(r, log, b, start).Some?
    ensures Fits(ActionOf(r, log, a, b, at), at in SourceAt(r, log, a, start).value,
      at in SourceAt(r, log, b, start).value)
    decreases b
  {
    ValidPrefix(r, log, a, |log|, start);
    if a < b {
      ActionFits(r, log, a, b - 1, start, at);
      SourceStepAt(r, log, b - 1, start, at);
    }
  }

  /** One more statement does what Then says. */
  lemma ThenActs(policy: R.ConflictPolicy, action: Action, op: Op, db: Db, db': Db, row: Option<JsonRow>)
    requires Lookup(db, op.at) == Act(action, row) && Exec(policy, db, op) == Ok(db')
    requires op.Set? ==> op.at == op.to
    requires op.Put? ==> action.Same? || action.Gone?
    ensures Lookup(db', op.at) == Act(Then(policy, action, op), row)
    ensures forall at :: at != op.at ==> Lookup(db', at) == Lookup(db, at)
  {}

  /** A replay that succeeds does at each address what the actions say. */
  lemma {:induction false} ReplayActs(r: Replayer, log: seq<Event>, a: nat, b: nat, start: Db, db: Db, at: Address)
    requires a <= b <= |log| && ValidLog(r, log, start) && KeyPreserving(r, log) && Replay(r, log, a, b, db).Ok?
    ensures Lookup(Replay(r, log, a, b, db).value, at) == Act(ActionOf(r, log, a, b, at), Lookup(db, at))
    decreases b
  {
    if a < b {
      ReplayActs(r, log, a, b - 1, start, db, at);
      if r.keeps(log[b - 1]) {
        ActionFits(r, log, a, b - 1, start, at);
        SourceStepAt(r, log, b - 1, start, at);
        var op := Decode(r.catalog, log[b - 1]).value;
        var before := Replay(r, log, a, b - 1, db).value;
        if op.at == at {
          ThenActs(r.policy, ActionOf(r, log, a, b - 1, at), op, before, Replay(r, log, a, b, db).value,
            Lookup(db, at));
        }
      }
    }
  }

  /** Under source-wins and dest-wins no statement of a key-preserving log fails, on any tables. */
  lemma {:induction false} ReplaySucceeds(r: Replayer, log: seq<Event>, a: nat, b: nat, start: Db, db: Db)
    requires a <= b <= |log| && ValidLog(r, log, start) && KeyPreserving(r, log) && r.policy != R.Fail
    ensures Replay(r, log, a, b, db).Ok?
    decreases b
  {
    if a < b {
      ReplaySucceeds(r, log, a, b - 1, start, db);
      ValidPrefix(r, log, b, |log|, start);
    }
  }

  lemma {:induction false} ActionsCompose(r: Replayer, log: seq<Event>, a: nat, b: nat, c: nat, start: Db, at: Address,
                                          row: Option<JsonRow>)
    requires a <= b <= c <= |log| && ValidLog(r, log, start) && KeyPreserving(r, log)
    ensures Act(ActionOf(r, log, a, c, at), row)
      == Act(ActionOf(r, log, b, c, at), Act(ActionOf(r, log, a, b, at), row))
    decreases c
  {
    if b < c {
      ActionsCompose(r, log, a, b, c - 1, start, at, row);
      if Concerns(r, log[c - 1], at) {
        ActionFits(r, log, a, b, start, at);
        ActionFits(r, log, a, c - 1, start, at);
        ActionFits(r, log, b, c - 1, start, at);
        SourceStepAt(r, log, c - 1, start, at);
      }
    }
  }

  // ----- replaying again -----

  /** A stretch replayed before a longer one that contains it leaves no trace. */
  lemma ActionAbsorbs(first: Action, again: Action, row: Option<JsonRow>, p: bool, q: bool, s: bool)
    requires Fits(first, p, q) && Fits(again, q, s)
    ensures Act(again, Act(first, Act(again, row))) == Act(again, Act(first, row))
  {}

  lemma SameDb(x: Db, y: Db)
    requires forall at {:trigger Lookup(x, at)} :: Lookup(x, at) == Lookup(y, at)
    ensures x == y
  {
    forall at
      ensures at in x <==> at in y
      ensures at in x && at in y ==> x[at] == y[at]
    {
      assert Lookup(x, at) == Lookup(y, at);
    }
  }

  /** At-least-once delivery is harmless: on any tables, replaying events b to c and then events a
      to d around them gives what replaying a to d alone gives. */
  lemma ReplayAbsorbs(r: Replayer, log: seq<Event>, a: nat, b: nat, c: nat, d: nat, start: Db, db: Db)
    requires a <= b <= c <= d <= |log| && ValidLog(r, log, start) && KeyPreserving(r, log) && r.policy != R.Fail
    ensures var once := Replay(r, log, b, c, db);
      once.Ok? && Replay(r, log, a, d, db).Ok? && Replay(r, log, a, d, once.value) == Replay(r, log, a, d, db)
  {
    ReplaySucceeds(r, log, b, c, start, db);
    ReplaySucceeds(r, log, a, d, start, db);
    var once := Replay(r, log, b, c, db).value;
    ReplaySucceeds(r, log, a, d, start, once);
    forall at
      ensures Lookup(Replay(r, log, a, d, once).value, at) == Lookup(Replay(r, log, a, d, db).value, at)
    {
      AbsorbsAt(r, log, a, b, c, d, start, db, once, at);
    }
    SameDb(Replay(r, log, a, d, once).value, Replay(r, log, a, d, db).value);
  }

  lemma AbsorbsAt(r: Replayer, log: seq<Event>, a: nat, b: nat, c: nat, d: nat, start: Db, db: Db, once: Db,
                  at: Address)
    requires a <= b <= c <= d <= |log| && ValidLog(r, log, start) && KeyPreserving(r, log)
    requires Replay(r, log, b, c, db) == Ok(once) && Replay(r, log, a, d, db).Ok? && Replay(r, log, a, d, once).Ok?
    ensures Lookup(Replay(r, log, a, d, once).value, at) == Lookup(Replay(r, log, a, d, db).value, at)
  {
    var row := Lookup(db, at);
    ReplayActs(r, log, b, c, start, db, at);
    ReplayActs(r, log, a, d, start, db, at);
    ReplayActs(r, log, a, d, start, once, at);
    ActionsAround(r, log, a, b, c, d, start, at, row);
  }

  lemma ActionsAround(r: Replayer, log: seq<Event>, a: nat, b: nat, c: nat, d: nat, start: Db, at: Address,
                      row: Option<JsonRow>)
    requires a <= b <= c <= d <= |log| && ValidLog(r, log, start) && KeyPreserving(r, log)
    ensures Act(ActionOf(r, log, a, d, at), Act(ActionOf(r, log, b, c, at), row))
      == Act(ActionOf(r, log, a, d, at), row)
  {
    var first, again := ActionOf(r, log, a, b, at), ActionOf(r, log, b, c, at);
    var replayed := Act(again, row);
    ActionsCompose(r, log, a, c, d, start, at, row);
    ActionsCompose(r, log, a, c, d, start, at, replayed);
    ActionsCompose(r, log, a, b, c, start, at, row);
    ActionsCompose(r, log, a, b, c, start, at, replayed);
    ActionFits(r, log, a, b, start, at);
    ActionFits(r, log, b, c, start, at);
    ActionAbsorbs(first, again, row, at in SourceAt(r, log, a, start).value, at in SourceAt(r, log, b, start).value,
      at in SourceAt(r, log, c, start).value);
  }

  /** A crash before the checkpoint is saved does not change the final state: any stretch that
      ends at the destination's position can be applied again. */
  lemma ReplayAgain(r: Replayer, log: seq<Event>, a: nat, h: nat, start: Db)
    requires a <= h <= |log| && ValidLog(r, log, start) && KeyPreserving(r, log) && r.policy != R.Fail
    ensures SourceAt(r, log, h, start).Some?
    ensures var here := SourceAt(r, log, h, start).value; Replay(r, log, a, h, here) == Ok(here)
  {
    ReplayFollows(r, log, a, h, start);
    ReplayAbsorbs(r, log, a, a, h, h, start, SourceAt(r, log, a, start).value);
  }

  // ----- policy fail -----

  /** The first statement for an address. */
  function FirstOp(r: Replayer, log: seq<Event>, a: nat, b: nat, at: Address): Option<Op>
    requires a <= b <= |log|
    decreases b
  {
    if a == b then None
    else
      var before := FirstOp(r, log, a, b - 1, at);
      if before.Some? then before
      else if Concerns(r, log[b - 1], at) then Some(Decode(r.catalog, log[b - 1]).value)
      else None
  }

  lemma {:induction false} FirstIsAction(r: Replayer, log: seq<Event>, a: nat, b: nat, at: Address)
    requires a <= b <= |log|
    ensures FirstOp(r, log, a, b, at).None? <==> ActionOf(r, log, a, b, at).Same?
    decreases b
  {
    if a < b {
      FirstIsAction(r, log, a, b - 1, at);
    }
  }

  predicate InsertsFirst(r: Replayer, log: seq<Event>, a: nat, b: nat, at: Address)
    requires a <= b <= |log|
  {
    var first := FirstOp(r, log, a, b, at);
    first.Some? && first.value.Put?
  }

  /** Under policy fail a stretch can be replayed exactly when no address whose first statement is
      an INSERT holds a row. */
  lemma {:induction false} FailReplayIff(r: Replayer, log: seq<Event>, a: nat, b: nat, start: Db, db: Db)
    requires a <= b <= |log| && ValidLog(r, log, start) && KeyPreserving(r, log) && r.policy == R.Fail
    ensures Replay(r, log, a, b, db).Ok? <==> forall at {:trigger InsertsFirst(r, log, a, b, at)} ::
                                                InsertsFirst(r, log, a, b, at) ==> at !in db
    decreases b
  {
    if a < b {
      FailReplayIff(r, log, a, b - 1, start, db);
      if Replay(r, log, a, b - 1, db).Err? {
        var at :| InsertsFirst(r, log, a, b - 1, at) && at in db;
        assert InsertsFirst(r, log, a, b, at);
      } else if r.keeps(log[b - 1]) {
        ValidPrefix(r, log, b, |log|, start);
        var op := Decode(r.catalog, log[b - 1]).value;
        FailStep(r, log, a, b, start, db, op);
        forall at | at != op.at || FirstOp(r, log, a, b - 1, at).Some?
          ensures InsertsFirst(r, log, a, b, at) ==> at !in db
        {
          assert InsertsFirst(r, log, a, b, at) == InsertsFirst(r, log, a, b - 1, at);
        }
      } else {
        assert forall at :: InsertsFirst(r, log, a, b, at) == InsertsFirst(r, log, a, b - 1, at);
      }
    }
  }

  lemma FailStep(r: Replayer, log: seq<Event>, a: nat, b: nat, start: Db, db: Db, op: Op)
    requires a < b <= |log| && ValidLog(r, log, start) && KeyPreserving(r, log) && r.policy == R.Fail
    requires Replay(r, log, a, b - 1, db).Ok? && r.keeps(log[b - 1]) && Decode(r.catalog, log[b - 1]) == Ok(op)
    ensures Replay(r, log, a, b, db).Ok?
      <==> (InsertsFirst(r, log, a, b, op.at) && FirstOp(r, log, a, b - 1, op.at).None? ==> op.at !in db)
  {
    ReplayActs(r, log, a, b - 1, start, db, op.at);
    FirstIsAction(r, log, a, b - 1, op.at);
    ActionFits(r, log, a, b - 1, start, op.at);
    SourceStepAt(r, log, b - 1, start, op.at);
    var before := Replay(r, log, a, b - 1, db).value;
    assert Lookup(before, op.at) == Act(ActionOf(r, log, a, b - 1, op.at), Lookup(db, op.at));
  }
}
