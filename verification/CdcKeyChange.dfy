/** Replaying logs that move rows to other keys: exactly when a stretch can be applied again, and
    what is left of the tables if it can. */
module CdcKeyChange {
  import opened Wrappers
  import opened CdcReplay

  type Keys = set<Address>

  // ----- the replay on key sets alone -----

  /** The addresses that hold a row before event i, when those in keys did before event a. */
  function Occupied(r: Replayer, log: seq<Event>, a: nat, i: nat, keys: Keys): Keys
    requires a <= i <= |log|
    decreases i
  {
    if a == i then keys
    else
      var before := Occupied(r, log, a, i - 1, keys);
      if !r.keeps(log[i - 1]) || Decode(r.catalog, log[i - 1]).Err? then before
      else
        match Decode(r.catalog, log[i - 1]).value
        case Put(at, _) => before + {at}
        case Set(at, to, _) => if at in before then before - {at} + {to} else before
        case Drop(at) => before - {at}
  }

  /** Event i moves a row onto an address that is taken, or, under policy fail, inserts one there. */
  predicate Collides(r: Replayer, log: seq<Event>, a: nat, i: nat, keys: Keys)
    requires a <= i < |log|
  {
    var taken := Occupied(r, log, a, i, keys);
    r.keeps(log[i]) && Decode(r.catalog, log[i]).Ok?
    && match Decode(r.catalog, log[i]).value
       case Put(at, _) => r.policy == R.Fail && at in taken
       case Set(at, to, _) => at != to && at in taken && to in taken
       case Drop(_) => false
  }

  ghost predicate Collision(r: Replayer, log: seq<Event>, a: nat, b: nat, keys: Keys)
    requires a <= b <= |log|
  {
    exists i {:trigger Collides(r, log, a, i, keys)} :: a <= i < b && Collides(r, log, a, i, keys)
  }

  /** The keys decide: on any tables and under every policy a stretch of a valid log, key-changing
      or not, can be replayed exactly when no event in it collides. */
  lemma {:induction false} ReplayOkIff(r: Replayer, log: seq<Event>, a: nat, b: nat, start: Db, db: Db)
    requires a <= b <= |log| && ValidLog(r, log, start)
    ensures Replay(r, log, a, b, db).Ok? <==> !Collision(r, log, a, b, db.Keys)
    ensures Replay(r, log, a, b, db).Ok? ==> Replay(r, log, a, b, db).value.Keys == Occupied(r, log, a, b, db.Keys)
    decreases b
  {
    if a < b {
      ReplayOkIff(r, log, a, b - 1, start, db);
      ValidPrefix(r, log, b, |log|, start);
      if Replay(r, log, a, b - 1, db).Ok? {
        assert Replay(r, log, a, b, db).Err? <==> Collides(r, log, a, b - 1, db.Keys);
      }
    }
  }

  // ----- applying a stretch again -----

  /** Every row of db is a row of the tables here, or one that the source had at that point. */
  ghost predicate FromHere(db: Db, here: Db, source: Db) {
    forall at {:trigger at in db} :: at in db
      ==> (at in here && db[at] == here[at]) || (at in source && db[at] == source[at])
  }

  lemma StepFromHere(policy: R.ConflictPolicy, op: Op, db: Db, db': Db, here: Db, source: Db, source': Db)
    requires FromHere(db, here, source) && Exec(policy, db, op) == Ok(db') && SourceStep(source, op) == Some(source')
    ensures FromHere(db', here, source')
  {}

  lemma {:induction false} ReplayFromHere(r: Replayer, log: seq<Event>, a: nat, b: nat, start: Db, here: Db)
    requires a <= b <= |log| && ValidLog(r, log, start) && Replay(r, log, a, b, here).Ok?
    ensures SourceAt(r, log, b, start).Some?
      && FromHere(Replay(r, log, a, b, here).value, here, SourceAt(r, log, b, start).value)
    decreases b
  {
    ValidPrefix(r, log, b, |log|, start);
    if a < b {
      ReplayFromHere(r, log, a, b - 1, start, here);
      if r.keeps(log[b - 1]) {
        StepFromHere(r.policy, Decode(r.catalog, log[b - 1]).value, Replay(r, log, a, b - 1, here).value,
          Replay(r, log, a, b, here).value,
                     here, SourceAt(r, log, b - 1, start).value, SourceAt(r, log, b, start).value);
      }
    }
  }

  /** A stretch of a valid log, applied again to the tables at its own end, fails exactly on a
      collision. Otherwise no row is added or altered: the result is the part of the tables
      whose keys stay occupied, so the stretch is harmless exactly when it vacates no key. */
  lemma ReapplyIff(r: Replayer, log: seq<Event>, a: nat, h: nat, start: Db)
    requires a <= h <= |log| && ValidLog(r, log, start)
    ensures SourceAt(r, log, h, start).Some?
    ensures var here := SourceAt(r, log, h, start).value;
      var again, kept := Replay(r, log, a, h, here), Occupied(r, log, a, h, here.Keys);
      && (again.Ok? <==> !Collision(r, log, a, h, here.Keys))
      && (again.Ok? ==> kept <= here.Keys && again.value == map at | at in kept :: here[at])
      && (again == Ok(here) <==> !Collision(r, log, a, h, here.Keys) && kept == here.Keys)
  {
    ValidPrefix(r, log, h, |log|, start);
    var here := SourceAt(r, log, h, start).value;
    ReplayOkIff(r, log, a, h, start, here);
    if Replay(r, log, a, h, here).Ok? {
      ReplayFromHere(r, log, a, h, start, here);
      PartOf(Replay(r, log, a, h, here).value, here);
    }
  }

  lemma PartOf(db: Db, here: Db)
    requires FromHere(db, here, here)
    ensures db.Keys <= here.Keys && db == map at | at in db.Keys :: here[at]
    ensures db == here <==> db.Keys == here.Keys
  {
    forall at | at in db.Keys
      ensures at in here && db[at] == here[at]
    {
      assert at in db;
    }
  }

  // ----- examples -----

  const CATALOG: Catalog := map["t" := TableInfo(["id"], ["id"])]

  function RowOf(id: string): JsonRow {
    map["id" := R.Scalar(id)]
  }

  function Cell(id: string): Address {
    Address("t", [R.Scalar(id)])
  }

  function Everything(policy: R.ConflictPolicy): Replayer {
    Replayer(policy, CATALOG, (e: Event) => true)
  }

  function Inserted(n: nat, id: string): Event {
    Event(n, "t", "INSERT", None, Some(RowOf(id)))
  }

  function Updated(n: nat, from: string, to: string): Event {
    Event(n, "t", "UPDATE", Some(RowOf(from)), Some(RowOf(to)))
  }

  function Deleted(n: nat, id: string): Event {
    Event(n, "t", "DELETE", Some(RowOf(id)), None)
  }

  lemma DecodeOne(n: nat, id: string, to: string)
    ensures Decode(CATALOG, Inserted(n, id)) == Ok(Put(Cell(id), RowOf(id)))
    ensures Decode(CATALOG, Updated(n, id, to)) == Ok(Set(Cell(id), Cell(to), RowOf(to)))
    ensures Decode(CATALOG, Deleted(n, id)) == Ok(Drop(Cell(id)))
  {
    var info := CATALOG["t"];
    assert KeyOf(RowOf(id), info) == [R.Scalar(id)] && KeyOf(RowOf(to), info) == [R.Scalar(to)];
    assert Values(RowOf(id), info) == RowOf(id) && Values(RowOf(to), info) == RowOf(to);
  }

  /** A row moves away and its key is filled again: the stretch fails when it is applied again. */
  lemma MoveAndRefillFails(policy: R.ConflictPolicy)
    ensures var r, log, start := Everything(policy), [Updated(1, "1", "2"), Inserted(2, "1")],
      map[Cell("1") := RowOf("1")];
      && ValidLog(r, log, start)
      && Replay(r, log, 0, 2, SourceAt(r, log, 2, start).value) == Err(DuplicateKey)
  {
    var r, log, start := Everything(policy), [Updated(1, "1", "2"), Inserted(2, "1")], map[Cell("1") := RowOf("1")];
    DecodeOne(1, "1", "2");
    DecodeOne(2, "1", "2");
    var moved := (start - {Cell("1")})[Cell("2") := RowOf("2")];
    assert SourceAt(r, log, 1, start) == Some(moved);
    assert SourceAt(r, log, 2, start) == Some(moved[Cell("1") := RowOf("1")]);
    assert Replay(r, log, 0, 1, moved[Cell("1") := RowOf("1")]) == Err(DuplicateKey);
  }

  /** The steps of the example, on any two rows. */
  lemma DropThenMove(policy: R.ConflictPolicy, one: Address, two: Address, x: JsonRow, y: JsonRow)
    requires one != two
    ensures SourceStep(map[one := x, two := y], Drop(one)) == Some(map[two := y])
    ensures SourceStep(map[two := y], Set(two, one, x)) == Some(map[one := x])
    ensures Exec(policy, map[one := x], Drop(one)) == Ok(map[]) && Exec(policy, map[], Set(two, one, x)) == Ok(map[])
  {
    var start: Db := map[one := x, two := y];
    assert start - {one} == map[two := y];
    var rest: Db := map[two := y];
    assert rest - {two} == map[];
    var last: Db := map[one := x];
    assert last - {one} == map[];
  }

  /** A key is vacated and another row moves there: applied again, the stretch succeeds under every
      policy and loses the row. */
  lemma DeleteAndMoveLosesRow(policy: R.ConflictPolicy)
    ensures var r, log, start := Everything(policy), [Deleted(1, "1"), Updated(2, "2", "1")],
      map[Cell("1") := RowOf("1"), Cell("2") := RowOf("2")];
      && ValidLog(r, log, start) && SourceAt(r, log, 2, start) == Some(map[Cell("1") := RowOf("1")])
      && Replay(r, log, 0, 2, SourceAt(r, log, 2, start).value) == Ok(map[])
  {
    var r, log, start := Everything(policy), [Deleted(1, "1"), Updated(2, "2", "1")],
      map[Cell("1") := RowOf("1"), Cell("2") := RowOf("2")];
    DecodeOne(1, "1", "1");
    DecodeOne(2, "2", "1");
    assert Cell("1") != Cell("2") by {
      assert Cell("1").key[0] != Cell("2").key[0];
    }
    DropThenMove(policy, Cell("1"), Cell("2"), RowOf("1"), RowOf("2"));
    assert SourceAt(r, log, 1, start) == Some(map[Cell("2") := RowOf("2")]);
    assert SourceAt(r, log, 2, start) == Some(map[Cell("1") := RowOf("1")]);
    assert Replay(r, log, 0, 1, map[Cell("1") := RowOf("1")]) == Ok(map[]);
  }
}
