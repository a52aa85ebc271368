/** The source as its own changes make it, told on the logged JSON rows and the tables' columns
    alone; and what the replay's statements mean in the same terms. */
module CdcSource {
  import opened Wrappers
  import opened SqlText
  import opened Spelling
  import opened CdcReplay
  import opened CdcRun
  import opened CdcConvergence

  // ----- rows and keys -----

  /** The value that a JSON row gives a column: absent columns are null. */
  predicate Gives(row: JsonRow, column: string, value: R.Value) {
    if column in row then value == row[column] else value == R.Null
  }

  /** stored has exactly the table's columns, each with the value of the JSON row. */
  ghost predicate Stores(stored: JsonRow, row: JsonRow, info: TableInfo) {
    && (forall c :: c in stored <==> c in info.columns)
    && forall c {:trigger stored[c]} :: c in info.columns ==> c in stored && Gives(row, c, stored[c])
  }

  /** at is where the table keeps a row with this JSON row's key. */
  ghost predicate KeptAt(at: Address, e: Event, row: JsonRow, info: TableInfo) {
    && at.table == e.table && |at.key| == |info.keyColumns|
    && forall i {:trigger at.key[i]} :: 0 <= i < |at.key| ==> Gives(row, info.keyColumns[i], at.key[i])
  }

  lemma KeptAtIs(at: Address, e: Event, row: JsonRow, info: TableInfo)
    ensures KeptAt(at, e, row, info) <==> at == Address(e.table, KeyOf(row, info))
  {
    if KeptAt(at, e, row, info) {
      assert forall i :: 0 <= i < |at.key| ==> at.key[i] == KeyOf(row, info)[i];
    }
  }

  lemma StoresIs(stored: JsonRow, row: JsonRow, info: TableInfo)
    ensures Stores(stored, row, info) <==> stored == Values(row, info)
  {
    var values := Values(row, info);
    if Stores(stored, row, info) {
      assert stored.Keys == values.Keys;
      assert forall c :: c in info.columns ==> stored[c] == values[c];
    }
  }

  /** Elsewhere than at the two addresses nothing changed. */
  ghost predicate SameBut(db: Db, db': Db, x: Address, y: Address) {
    forall at {:trigger at in db} {:trigger at in db'} :: at != x && at != y ==>
      (at in db <==> at in db') && (at in db ==> db[at] == db'[at])
  }

  // ----- what the source did -----

  /** A new row is there, with the values of the event's new row. */
  ghost predicate Added(db: Db, db': Db, e: Event, info: TableInfo, at: Address) {
    && e.newRow.Some? && KeptAt(at, e, e.newRow.value, info)
    && at !in db && at in db' && Stores(db'[at], e.newRow.value, info) && SameBut(db, db', at, at)
  }

  /** The row with the old row's key has become the new row; without an old row it is the one with
      the new row's key. */
  ghost predicate Replaced(db: Db, db': Db, e: Event, info: TableInfo, from: Address, to: Address) {
    && e.newRow.Some? && KeptAt(to, e, e.newRow.value, info)
    && KeptAt(from, e, if e.oldRow.Some? then e.oldRow.value else e.newRow.value, info)
    && from in db && (to == from || (to !in db && from !in db'))
    && to in db' && Stores(db'[to], e.newRow.value, info) && SameBut(db, db', from, to)
  }

  /** The row with the old row's key is gone. */
  ghost predicate Removed(db: Db, db': Db, e: Event, info: TableInfo, at: Address) {
    e.oldRow.Some? && KeptAt(at, e, e.oldRow.value, info) && at in db && at !in db' && SameBut(db, db', at, at)
  }

  /** One change of the source, as its log event records it. */
  ghost predicate Changed(catalog: Catalog, db: Db, e: Event, db': Db) {
    e.table in catalog
    && var info := catalog[e.table];
       || (e.operation == "INSERT" && exists at :: Added(db, db', e, info, at))
       || (e.operation == "UPDATE" && exists from, to :: Replaced(db, db', e, info, from, to))
       || (e.operation == "DELETE" && exists at :: Removed(db, db', e, info, at))
  }

  lemma SameButIs(db: Db, db': Db, x: Address, y: Address, other: Db)
    requires SameBut(db, db', x, y) && SameBut(db, other, x, y)
    requires (x in db' <==> x in other) && (x in db' ==> db'[x] == other[x])
    requires (y in db' <==> y in other) && (y in db' ==> db'[y] == other[y])
    ensures db' == other
  {
    forall at
      ensures at in db' <==> at in other
      ensures at in db' && at in other ==> db'[at] == other[at]
    {
      assert at != x && at != y ==> (at in db <==> at in db') && (at in db <==> at in other);
    }
  }

  /** The source's step in the replay's terms is that change. */
  lemma ChangedIs(catalog: Catalog, db: Db, e: Event, db': Db)
    ensures Changed(catalog, db, e, db')
       <==> Decode(catalog, e).Ok? && SourceStep(db, Decode(catalog, e).value) == Some(db')
  {
    if e.table in catalog {
      var info := catalog[e.table];
      if e.operation == "INSERT" {
        InsertIs(catalog, db, e, db', info);
      } else if e.operation == "UPDATE" {
        UpdateIs(catalog, db, e, db', info);
      } else if e.operation == "DELETE" {
        DeleteIs(catalog, db, e, db', info);
      }
    }
  }

  lemma InsertIs(catalog: Catalog, db: Db, e: Event, db': Db, info: TableInfo)
    requires e.table in catalog && info == catalog[e.table] && e.operation == "INSERT"
    ensures (exists at :: Added(db, db', e, info, at))
       <==> Decode(catalog, e).Ok? && SourceStep(db, Decode(catalog, e).value) == Some(db')
  {
    if e.newRow.Some? {
      var n := e.newRow.value;
      var at := Address(e.table, KeyOf(n, info));
      KeptAtIs(at, e, n, info);
      StoresIs(Values(n, info), n, info);
      if x :| Added(db, db', e, info, x) {
        KeptAtIs(x, e, n, info);
        StoresIs(db'[x], n, info);
        SameButIs(db, db', at, at, db[at := Values(n, info)]);
      }
      if SourceStep(db, Put(at, Values(n, info))) == Some(db') {
        assert Added(db, db', e, info, at);
      }
    }
  }

  lemma UpdateIs(catalog: Catalog, db: Db, e: Event, db': Db, info: TableInfo)
    requires e.table in catalog && info == catalog[e.table] && e.operation == "UPDATE"
    ensures (exists from, to :: Replaced(db, db', e, info, from, to))
       <==> Decode(catalog, e).Ok? && SourceStep(db, Decode(catalog, e).value) == Some(db')
  {
    if e.newRow.Some? {
      var n := e.newRow.value;
      var o := if e.oldRow.Some? then e.oldRow.value else n;
      var from, to := Address(e.table, KeyOf(o, info)), Address(e.table, KeyOf(n, info));
      KeptAtIs(from, e, o, info);
      KeptAtIs(to, e, n, info);
      StoresIs(Values(n, info), n, info);
      if x, y :| Replaced(db, db', e, info, x, y) {
        KeptAtIs(x, e, o, info);
        KeptAtIs(y, e, n, info);
        StoresIs(db'[y], n, info);
        SameButIs(db, db', from, to, (db - {from})[to := Values(n, info)]);
      }
      if SourceStep(db, Set(from, to, Values(n, info))) == Some(db') {
        assert Replaced(db, db', e, info, from, to);
      }
    }
  }

  lemma DeleteIs(catalog: Catalog, db: Db, e: Event, db': Db, info: TableInfo)
    requires e.table in catalog && info == catalog[e.table] && e.operation == "DELETE"
    ensures (exists at :: Removed(db, db', e, info, at))
       <==> Decode(catalog, e).Ok? && SourceStep(db, Decode(catalog, e).value) == Some(db')
  {
    if e.oldRow.Some? {
      var at := Address(e.table, KeyOf(e.oldRow.value, info));
      KeptAtIs(at, e, e.oldRow.value, info);
      if x :| Removed(db, db', e, info, x) {
        KeptAtIs(x, e, e.oldRow.value, info);
        SameButIs(db, db', at, at, db - {at});
      }
      if SourceStep(db, Drop(at)) == Some(db') {
        assert Removed(db, db', e, info, at);
      }
    }
  }

  // ----- a whole log -----

  /** states[i] is the source when it had logged i events, as far as the kept tables go. */
  ghost predicate Recorded(keeps: Event -> bool, catalog: Catalog, log: seq<Event>, states: seq<Db>) {
    |states| == |log| + 1
    && forall i {:trigger log[i]} :: 0 <= i < |log| ==>
         if keeps(log[i]) then Changed(catalog, states[i], log[i], states[i + 1]) else states[i + 1] == states[i]
  }

  lemma {:induction false} RecordedAt(r: Replayer, log: seq<Event>, states: seq<Db>, h: nat)
    requires Recorded(r.keeps, r.catalog, log, states) && h <= |log|
    ensures SourceAt(r, log, h, states[0]) == Some(states[h])
  {
    if h > 0 {
      RecordedAt(r, log, states, h - 1);
      var e := log[h - 1];
      if r.keeps(e) {
        ChangedIs(r.catalog, states[h - 1], e, states[h]);
      }
    }
  }

  lemma {:induction false} RecordedUpTo(r: Replayer, log: seq<Event>, start: Db, n: nat) returns (states: seq<Db>)
    requires ValidLog(r, log, start) && n <= |log|
    ensures Recorded(r.keeps, r.catalog, log[..n], states) && states[0] == start
    ensures SourceAt(r, log, n, start) == Some(states[n])
  {
    ValidPrefix(r, log, n, |log|, start);
    if n == 0 {
      return [start];
    }
    var before := RecordedUpTo(r, log, start, n - 1);
    ValidPrefix(r, log, n - 1, |log|, start);
    var next := SourceAt(r, log, n, start).value;
    states := before + [next];
    if r.keeps(log[n - 1]) {
      ChangedIs(r.catalog, before[n - 1], log[n - 1], next);
    }
    forall i | 0 <= i < n
      ensures if r.keeps(log[..n][i]) then Changed(r.catalog, states[i], log[..n][i], states[i + 1])
              else states[i + 1] == states[i]
    {
      assert i < n - 1 ==> log[..n][i] == log[..n - 1][i];
    }
  }

  /** A log is valid exactly when some run of changes of the source recorded it. */
  lemma ValidIffRecorded(r: Replayer, log: seq<Event>, start: Db)
    ensures ValidLog(r, log, start)
       <==> exists states :: Recorded(r.keeps, r.catalog, log, states) && states[0] == start
  {
    if ValidLog(r, log, start) {
      var states := RecordedUpTo(r, log, start, |log|);
      assert log[..|log|] == log;
    }
    if states :| Recorded(r.keeps, r.catalog, log, states) && states[0] == start {
      RecordedAt(r, log, states, |log|);
    }
  }

  /** Replaying a stretch on the source's own rows gives the source's own rows. */
  lemma ReplayFollowsSource(r: Replayer, log: seq<Event>, states: seq<Db>, a: nat, b: nat)
    requires Recorded(r.keeps, r.catalog, log, states) && a <= b <= |log|
    ensures Replay(r, log, a, b, states[a]) == Ok(states[b])
  {
    RecordedAt(r, log, states, a);
    RecordedAt(r, log, states, b);
    RecordedAt(r, log, states, |log|);
    ReplayFollows(r, log, a, b, states[0]);
  }

  /** A batch that reads to the end of the log leaves the destination with the source's rows. */
  lemma CaughtUpWithSource(r: Replayer, states: seq<Db>, w: World, schema: string, m: nat)
    requires Recorded(r.keeps, r.catalog, LogOf(w, schema).events, states) && At(r, states[0], w, schema, m)
    ensures var log, saved := LogOf(w, schema), Saved(w.file, schema);
      var batch := Applied(r, log.events, First(log, saved), |log.events|, DestOf(w, schema), saved, None);
      !batch.stopped && batch.db == states[|log.events|]
  {
    RecordedAt(r, LogOf(w, schema).events, states, |LogOf(w, schema).events|);
    CaughtUp(r, states[0], w, schema, m);
  }

  // ----- what a statement does to any destination -----

  /** The event is for a known table and has the rows that its operation needs. */
  ghost predicate Complete(catalog: Catalog, e: Event) {
    && e.table in catalog && e.operation in {"INSERT", "UPDATE", "DELETE"}
    && (e.operation == "DELETE" ==> e.oldRow.Some?) && (e.operation != "DELETE" ==> e.newRow.Some?)
  }

  /** An event that is not complete fails on every destination, and a complete one only on a held key. */
  lemma CompleteIff(policy: R.ConflictPolicy, catalog: Catalog, db: Db, e: Event)
    ensures var r := ApplyEvent(policy, catalog, db, e);
      Complete(catalog, e) <==> r.Ok? || r.error == DuplicateKey
  {}

  /** An INSERT: a free key takes the row; a held one fails, takes the row, or stays, by policy. */
  lemma InsertMeans(policy: R.ConflictPolicy, catalog: Catalog, db: Db, e: Event, at: Address)
    requires Complete(catalog, e) && e.operation == "INSERT" && KeptAt(at, e, e.newRow.value, catalog[e.table])
    ensures var r := ApplyEvent(policy, catalog, db, e);
      if at in db && policy == R.Fail then r == Err(DuplicateKey)
      else if at in db && policy == R.DestWins then r == Ok(db)
      else
        && r.Ok? && at in r.value
        && Stores(r.value[at], e.newRow.value, catalog[e.table]) && SameBut(db, r.value, at, at)
  {
    KeptAtIs(at, e, e.newRow.value, catalog[e.table]);
    StoresIs(Values(e.newRow.value, catalog[e.table]), e.newRow.value, catalog[e.table]);
  }

  /** An UPDATE: an absent row is passed over, a taken new key fails, otherwise the row becomes the
      new one, under every policy. */
  lemma UpdateMeans(policy: R.ConflictPolicy, catalog: Catalog, db: Db, e: Event, from: Address, to: Address)
    requires Complete(catalog, e) && e.operation == "UPDATE" && KeptAt(to, e, e.newRow.value, catalog[e.table])
    requires KeptAt(from, e, if e.oldRow.Some? then e.oldRow.value else e.newRow.value, catalog[e.table])
    ensures var r := ApplyEvent(policy, catalog, db, e);
      if from !in db then r == Ok(db)
      else if to != from && to in db then r == Err(DuplicateKey)
      else
        && r.Ok? && to in r.value && (to != from ==> from !in r.value)
        && Stores(r.value[to], e.newRow.value, catalog[e.table]) && SameBut(db, r.value, from, to)
  {
    KeptAtIs(to, e, e.newRow.value, catalog[e.table]);
    KeptAtIs(from, e, if e.oldRow.Some? then e.oldRow.value else e.newRow.value, catalog[e.table]);
    StoresIs(Values(e.newRow.value, catalog[e.table]), e.newRow.value, catalog[e.table]);
  }

  /** A DELETE: the row with the old row's key is gone, if there was one. */
  lemma DeleteMeans(policy: R.ConflictPolicy, catalog: Catalog, db: Db, e: Event, at: Address)
    requires Complete(catalog, e) && e.operation == "DELETE" && KeptAt(at, e, e.oldRow.value, catalog[e.table])
    ensures var r := ApplyEvent(policy, catalog, db, e); r.Ok? && at !in r.value && SameBut(db, r.value, at, at)
  {
    KeptAtIs(at, e, e.oldRow.value, catalog[e.table]);
  }

  // ----- the filters -----

  /** The table of the event is in the list, up to case; the lists hold lower-cased names. */
  ghost predicate Listed(names: set<string>, schema: string, e: Event) {
    exists name :: name in names && EqualFold(schema + "." + e.table, name)
  }

  ghost predicate Lowered(names: set<string>) {
    forall name :: name in names ==> NoUpper(name)
  }

  /** A table is replicated when it is listed for inclusion, or nothing is, and it is not excluded;
      so without filters every table is. */
  lemma KeptIff(only: set<string>, never: set<string>, schema: string, e: Event)
    requires Lowered(only) && Lowered(never)
    ensures CdcRun.Kept(only, never, schema)(e)
       <==> (only == {} || Listed(only, schema, e)) && !Listed(never, schema, e)
  {
    var key := ToLower(schema) + "." + ToLower(e.table);
    assert ToLower(schema + "." + e.table) == key;
    forall name | NoUpper(name)
      ensures key == name <==> EqualFold(schema + "." + e.table, name)
    {
      LowerIsFold(schema + "." + e.table, name);
    }
    LoweredKey(schema, e.table);
  }

  lemma LoweredKey(schema: string, table: string)
    ensures NoUpper(ToLower(schema) + "." + ToLower(table))
  {}
}
