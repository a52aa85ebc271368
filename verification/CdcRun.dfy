/** A CDC run: for every database one batch of log events is applied, then the checkpoint is
    saved, then the log is purged up to it. */
module CdcRun {
  import opened Wrappers
  import opened CdcReplay
  import opened SqlText

  const DEFAULT_BATCH_SIZE := 1000

  datatype Options = Options(
    policy: R.ConflictPolicy, resume: bool, batchSize: int, maxEvents: nat,
    includeTables: set<string>, excludeTables: set<string>)

  /** The log table of a database: everything ever written to it, and how much of that is deleted. */
  datatype Log = Log(events: seq<Event>, purged: nat)

  /** The destination, the checkpoint file and the log tables, by database; and, for the theorems
      only, the ids of the events that were ever applied to each database. */
  datatype World = World(dest: map<string, Db>, file: map<string, nat>, logs: map<string, Log>, done: map<string,
                         set<nat>>)

  /** What becomes of one database in a run: the read fails; the run ends, by an error or a crash,
      when so many events are applied; the save fails; the run ends behind the save; the purge
      fails; or nothing goes wrong. */
  datatype Fate = Goes | ReadFails | StopsAfter(applied: nat) | SaveFails | StopsSaved | PurgeFails

  /** IncludeTables and ExcludeTables, by lower-cased schema.table. */
  function Kept(only: set<string>, never: set<string>, schema: string): Event -> bool {
    (e: Event) => var key := ToLower(schema) + "." + ToLower(e.table); (only == {} || key in only) && key !in never
  }

  function ReplayerFor(opts: Options, catalogs: map<string, Catalog>, schema: string): Replayer {
    Replayer(opts.policy, if schema in catalogs then catalogs[schema] else map[],
      Kept(opts.includeTables, opts.excludeTables, schema))
  }

  function Saved(checkpoint: map<string, nat>, schema: string): nat {
    if schema in checkpoint then checkpoint[schema] else 0
  }

  function DestOf(w: World, schema: string): Db {
    if schema in w.dest then w.dest[schema] else map[]
  }

  function DoneOf(w: World, schema: string): set<nat> {
    if schema in w.done then w.done[schema] else {}
  }

  function LogOf(w: World, schema: string): Log {
    if schema in w.logs then w.logs[schema] else Log([], 0)
  }

  /** The ids grow: events become visible in the order of their ids. */
  ghost predicate Increasing(log: seq<Event>) {
    forall i, j {:trigger log[i], log[j]} :: 0 <= i < j < |log| ==> log[i].id < log[j].id
  }

  /** The first event from i on with a greater id. */
  function After(log: seq<Event>, id: nat, i: nat): (q: nat)
    requires i <= |log|
    ensures i <= q <= |log|
    decreases |log| - i
  {
    if i == |log| || log[i].id > id then i else After(log, id, i + 1)
  }

  /** SELECT ... WHERE cdc_id > from ORDER BY cdc_id LIMIT n, on the entries that are left. */
  function First(log: Log, from: nat): (q: nat)
    ensures q <= |log.events|
  {
    After(log.events, from, if log.purged <= |log.events| then log.purged else |log.events|)
  }

  function BatchEnd(total: nat, q: nat, n: nat): (b: nat)
    requires q <= total
    ensures q <= b <= total && b - q <= n
  {
    if n <= total - q then q + n else total
  }

  // ----- one batch -----

  /** What a batch has done: the tables, the noted id, how many events and which were applied. */
  datatype Batch = Batch(db: Db, at: nat, applied: nat, done: set<nat>, stopped: bool)

  /** One event of a batch: filtered, refused, or applied with its id noted. */
  function NextEvent(r: Replayer, before: Batch, e: Event, stop: Option<nat>): Batch {
    if before.stopped || !r.keeps(e) then before
    else if stop == Some(before.applied) then before.(stopped := true)
    else
      var next := ApplyEvent(r.policy, r.catalog, before.db, e);
      if next.Err? then before.(stopped := true)
        else Batch(next.value, e.id, before.applied + 1, before.done + {e.id}, false)
  }

  /** The events from a up to b. */
  function Applied(r: Replayer, log: seq<Event>, a: nat, b: nat, db: Db, at: nat, stop: Option<nat>): Batch
    requires a <= b <= |log|
    decreases b
  {
    if a == b then Batch(db, at, 0, {}, false)
      else NextEvent(r, Applied(r, log, a, b - 1, db, at, stop), log[b - 1], stop)
  }

  function StopOf(fate: Fate): Option<nat> {
    match fate
    case StopsAfter(k) => Some(k)
    case _ => None
  }

  /** How a run goes on after one database. */
  datatype End = GoesOn | Enough | Error

  datatype Progress = Progress(world: World, checkpoint: map<string, nat>, total: nat, last: nat)

  /** The events that one database may contribute: a batch, cut to what MaxEvents leaves. */
  function Cut(opts: Options, total: nat, q: nat, b: nat): (c: Option<nat>)
    requires q <= b && (opts.maxEvents > 0 ==> total <= opts.maxEvents)
    ensures c.Some? ==> q <= c.value <= b && (opts.maxEvents > 0 ==> total + (c.value - q) <= opts.maxEvents)
  {
    if opts.maxEvents > 0 && total + (b - q) > opts.maxEvents then
      var remaining := opts.maxEvents - total;
      if remaining == 0 then None else Some(q + remaining)
    else Some(b)
  }

  function Limit(opts: Options): nat {
    if opts.batchSize <= 0 then DEFAULT_BATCH_SIZE else opts.batchSize
  }

  lemma {:induction false} AppliedAtMost(r: Replayer, log: seq<Event>, a: nat, b: nat, db: Db, at: nat,
                                         stop: Option<nat>)
    requires a <= b <= |log|
    ensures Applied(r, log, a, b, db, at, stop).applied <= b - a
    decreases b
  {
    if a < b {
      AppliedAtMost(r, log, a, b - 1, db, at, stop);
    }
  }

  predicate WithinMax(opts: Options, total: nat) {
    opts.maxEvents > 0 ==> total <= opts.maxEvents
  }

  /** One database: read, cut, apply, save, purge. */
  function OneDatabase(opts: Options, catalogs: map<string, Catalog>, p: Progress, schema: string,
                       fate: Fate): (next: (Progress, End))
    requires WithinMax(opts, p.total)
    ensures WithinMax(opts, next.0.total)
  {
    var log := LogOf(p.world, schema);
    var q := First(log, Saved(p.checkpoint, schema));
    var b := BatchEnd(|log.events|, q, Limit(opts));
    if fate.ReadFails? then (p, Error)
    else if q == b then (p, GoesOn)
    else
      var c := Cut(opts, p.total, q, b);
      if c.None? then (p, Enough)
      else
        var r := ReplayerFor(opts, catalogs, schema);
        var batch := Applied(r, log.events, q, c.value, DestOf(p.world, schema), Saved(p.checkpoint, schema),
          StopOf(fate));
        AppliedAtMost(r, log.events, q, c.value, DestOf(p.world, schema), Saved(p.checkpoint, schema), StopOf(fate));
        Finish(p, schema, log, batch, fate)
  }

  /** The world with one database's rows and applied events as a batch leaves them. */
  function Touched(w: World, schema: string, batch: Batch): World {
    if batch.applied == 0 then w
    else w.(dest := w.dest[schema := batch.db], done := w.done[schema := DoneOf(w, schema) + batch.done])
  }

  /** One more applied event. */
  function TouchedOnce(w: World, schema: string, db: Db, id: nat): World {
    w.(dest := w.dest[schema := db], done := w.done[schema := DoneOf(w, schema) + {id}])
  }

  lemma Overwritten<T>(m: map<string, T>, schema: string, x: T, y: T)
    ensures m[schema := x][schema := y] == m[schema := y]
  {}

  lemma TouchedMore(w: World, schema: string, before: Batch, after: Batch, id: nat)
    requires after.applied == before.applied + 1 && after.done == before.done + {id}
      && (before.applied == 0 ==> before.done == {})
    ensures Touched(w, schema, after) == TouchedOnce(Touched(w, schema, before), schema, after.db, id)
  {
    assert DoneOf(w, schema) + after.done == DoneOf(w, schema) + before.done + {id};
    if before.applied > 0 {
      Overwritten(w.dest, schema, before.db, after.db);
      Overwritten(w.done, schema, DoneOf(w, schema) + before.done, DoneOf(w, schema) + after.done);
    } else {
      assert after.done == {id};
    }
  }

  lemma NextEventAdds(r: Replayer, before: Batch, e: Event, stop: Option<nat>)
    ensures var after := NextEvent(r, before, e, stop);
      if after.applied > before.applied then after.applied == before.applied + 1 && after.done == before.done + {e.id}
      else after == before.(stopped := after.stopped)
  {}

  /** Save and purge behind a batch. */
  function Finish(p: Progress, schema: string, log: Log, batch: Batch, fate: Fate): (next: (Progress, End))
    ensures next.0.total == p.total + batch.applied
  {
    var world := Touched(p.world, schema, batch);
    var checkpoint := if batch.applied > 0 then p.checkpoint[schema := batch.at] else p.checkpoint;
    var done := Progress(world, checkpoint, p.total + batch.applied, if batch.applied > 0 && batch.at > p.last
      then batch.at else p.last);
    if batch.stopped || fate.SaveFails? then (done, Error)
    else
      var saved := done.(world := world.(file := checkpoint));
      if fate.StopsSaved? then (saved, Error)
      else if fate.PurgeFails? then (saved, GoesOn)
      else (saved.(world := saved.world.(logs := saved.world.logs[schema := Purged(log, Saved(checkpoint, schema))])),
        GoesOn)
  }

  /** DELETE ... WHERE cdc_id <= id. */
  function Purged(log: Log, id: nat): Log {
    var q := After(log.events, id, 0);
    log.(purged := if q > log.purged then q else log.purged)
  }

  function FateAt(fates: seq<Fate>, i: nat): Fate {
    if i < |fates| then fates[i] else Goes
  }

  /** The databases from i on. */
  function Databases(opts: Options, catalogs: map<string, Catalog>, p: Progress, schemas: seq<string>, i: nat,
                     fates: seq<Fate>): (Progress, bool)
    requires i <= |schemas| && WithinMax(opts, p.total)
    decreases |schemas| - i
  {
    if i == |schemas| then (p, true)
    else
      var (next, end) := OneDatabase(opts, catalogs, p, schemas[i], FateAt(fates, i));
      match end
      case Error => (next, false)
      case Enough => (next, true)
      case GoesOn => Databases(opts, catalogs, next, schemas, i + 1, fates)
  }

  function Begin(opts: Options, w: World): Progress {
    Progress(w, if opts.resume then w.file else map[], 0, 0)
  }

  /** Run, with the final progress and whether it returned without error. */
  function RunOf(opts: Options, catalogs: map<string, Catalog>, w: World, schemas: seq<string>,
                 fates: seq<Fate>): (Progress, bool) {
    Databases(opts, catalogs, Begin(opts, w), schemas, 0, fates)
  }

  // ----- the run as it is executed -----

  class Replicator {
    var dest: map<string, Db>
    var file: map<string, nat>
    var logs: map<string, Log>
    ghost var done: map<string, set<nat>>

    ghost function Now(): World
      reads this
    {
      World(dest, file, logs, done)
    }

    /** The body of the loop over a batch, behind the batch so far. */
    method ApplyOne(r: Replayer, schema: string, e: Event, at: nat, applied: nat, stop: Option<nat>,
                    ghost before: Batch)
      returns (id: nat, count: nat, stopped: bool)
      requires before.db == DestOf(Now(), schema) && (before.at, before.applied, before.stopped) == (at, applied, false)
      modifies this`dest, this`done
      ensures var after := NextEvent(r, before, e, stop);
        && (id, count, stopped) == (after.at, after.applied, after.stopped) && DestOf(Now(), schema) == after.db
        && Now() == if count > applied then TouchedOnce(old(Now()), schema, after.db, e.id) else old(Now())
    {
      id, count, stopped := at, applied, false;
      if !r.keeps(e) {
        return;
      }
      var next := ApplyEvent(r.policy, r.catalog, if schema in dest then dest[schema] else map[], e);
      if stop == Some(applied) || next.Err? {
        stopped := true;
        return;
      }
      dest := dest[schema := next.value];
      done := done[schema := DoneOf(Now(), schema) + {e.id}];
      id, count := e.id, applied + 1;
    }

    /** The loop over one batch. */
    method ApplyEvents(r: Replayer, schema: string, log: seq<Event>, a: nat, b: nat, at: nat, stop: Option<nat>)
      returns (id: nat, applied: nat, stopped: bool)
      requires a <= b <= |log|
      modifies this`dest, this`done
      ensures var batch := Applied(r, log, a, b, DestOf(old(Now()), schema), at, stop);
        (id, applied, stopped) == (batch.at, batch.applied, batch.stopped)
          && Now() == Touched(old(Now()), schema, batch)
    {
      id, applied, stopped := at, 0, false;
      ghost var before := Now();
      ghost var batch := Batch(DestOf(before, schema), at, 0, {}, false);
      for i := a to b
        invariant !stopped && batch == Applied(r, log, a, i, DestOf(before, schema), at, stop)
        invariant (batch.at, batch.applied, batch.stopped) == (id, applied, false)
          && (applied == 0 ==> batch.done == {})
        invariant batch.db == DestOf(Now(), schema) && Now() == Touched(before, schema, batch)
      {
        ghost var last := batch;
        id, applied, stopped := ApplyOne(r, schema, log[i], id, applied, stop, last);
        batch := NextEvent(r, last, log[i], stop);
        NextEventAdds(r, last, log[i], stop);
        if batch.applied > last.applied {
          TouchedMore(before, schema, last, batch, log[i].id);
        }
        if stopped {
          StopsHere(r, log, a, i + 1, b, DestOf(before, schema), at, stop);
          return;
        }
      }
    }

    /** Saves the checkpoint, then purges the log. */
    method SaveAndPurge(schema: string, log: Log, checkpoint: map<string, nat>, fate: Fate) returns (end: End)
      modifies this`file, this`logs
      ensures end == if fate.SaveFails? || fate.StopsSaved? then Error else GoesOn
      ensures file == if fate.SaveFails? then old(file) else checkpoint
      ensures logs == if fate.SaveFails? || fate.StopsSaved? || fate.PurgeFails? then old(logs)
                      else old(logs)[schema := Purged(log, Saved(checkpoint, schema))]
    {
      if fate.SaveFails? {
        return Error;
      }
      file := checkpoint;
      if fate.StopsSaved? {
        return Error;
      }
      if !fate.PurgeFails? {
        logs := logs[schema := Purged(log, Saved(checkpoint, schema))];
      }
      return GoesOn;
    }

    /** Run. */
    method Run(opts: Options, catalogs: map<string, Catalog>, schemas: seq<string>, fates: seq<Fate>)
      returns (ok: bool, total: nat, last: nat)
      modifies this
      ensures var (p, fine) := RunOf(opts, catalogs, old(Now()), schemas, fates);
        Now() == p.world && ok == fine && total == p.total && last == p.last
    {
      var checkpoint: map<string, nat> := if opts.resume then file else map[];
      total, last := 0, 0;
      for i := 0 to |schemas|
        invariant WithinMax(opts, total)
        invariant Databases(opts, catalogs, Progress(Now(), checkpoint, total, last), schemas, i, fates)
               == RunOf(opts, catalogs, old(Now()), schemas, fates)
      {
        var end;
        ghost var before := Progress(Now(), checkpoint, total, last);
        checkpoint, total, last, end := Database(opts, catalogs, schemas[i], FateAt(fates, i), checkpoint, total, last);
        assert (Progress(Now(), checkpoint, total, last), end)
          == OneDatabase(opts, catalogs, before, schemas[i], FateAt(fates, i));
        if end == Error {
          return false, total, last;
        }
        if end == Enough {
          return true, total, last;
        }
      }
      return true, total, last;
    }

    /** The body of the loop over the databases. */
    method Database(opts: Options, catalogs: map<string, Catalog>, schema: string, fate: Fate, before: map<string, nat>,
                    total0: nat, last0: nat)
      returns (checkpoint: map<string, nat>, total: nat, last: nat, end: End)
      requires WithinMax(opts, total0)
      modifies this
      ensures (Progress(Now(), checkpoint, total, last), end)
           == OneDatabase(opts, catalogs, Progress(old(Now()), before, total0, last0), schema, fate)
    {
      checkpoint, total, last := before, total0, last0;
      if fate.ReadFails? {
        return checkpoint, total, last, Error;
      }
      var log := if schema in logs then logs[schema] else Log([], 0);
      var q := First(log, Saved(checkpoint, schema));
      var b := BatchEnd(|log.events|, q, Limit(opts));
      if q == b {
        return checkpoint, total, last, GoesOn;
      }
      if opts.maxEvents > 0 && total + (b - q) > opts.maxEvents {
        var remaining := opts.maxEvents - total;
        if remaining == 0 {
          return checkpoint, total, last, Enough;
        }
        b := q + remaining;
      }
      checkpoint, total, last, end := CopyBatch(ReplayerFor(opts, catalogs, schema), schema, log, q, b, fate,
        checkpoint, total, last);
    }

    /** Applies, saves and purges one batch. */
    method CopyBatch(r: Replayer, schema: string, log: Log, q: nat, b: nat, fate: Fate, before: map<string, nat>,
                     total0: nat, last0: nat)
      returns (checkpoint: map<string, nat>, total: nat, last: nat, end: End)
      requires q <= b <= |log.events|
      modifies this
      ensures var batch := Applied(r, log.events, q, b, DestOf(old(Now()), schema), Saved(before, schema),
        StopOf(fate));
        (Progress(Now(), checkpoint, total, last), end)
          == Finish(Progress(old(Now()), before, total0, last0), schema, log, batch, fate)
    {
      checkpoint, total, last := before, total0, last0;
      var id, applied, stopped := ApplyEvents(r, schema, log.events, q, b, Saved(checkpoint, schema), StopOf(fate));
      if applied > 0 {
        checkpoint := checkpoint[schema := id];
        if id > last {
          last := id;
        }
      }
      total := total + applied;
      if stopped {
        return checkpoint, total, last, Error;
      }
      end := SaveAndPurge(schema, log, checkpoint, fate);
    }
  }

  lemma {:induction false} StopsHere(r: Replayer, log: seq<Event>, a: nat, k: nat, b: nat, db: Db, at: nat,
                                     stop: Option<nat>)
    requires a <= k <= b <= |log| && Applied(r, log, a, k, db, at, stop).stopped
    ensures Applied(r, log, a, b, db, at, stop) == Applied(r, log, a, k, db, at, stop)
    decreases b
  {
    if k < b {
      StopsHere(r, log, a, k, b - 1, db, at, stop);
    }
  }
}
