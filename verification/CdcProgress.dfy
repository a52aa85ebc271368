/** When CDC runs get on: the exact condition under which a run moves its checkpoint, and under which
    repeated runs reach the source. */
module CdcProgress {
  import opened Wrappers
  import opened CdcReplay
  import opened CdcKeyChange
  import opened CdcRun
  import opened CdcConvergence
  import opened CdcSafety

  // ----- an undisturbed batch -----

  /** It stops exactly when the replay fails. */
  lemma {:induction false} StopsIff(r: Replayer, log: seq<Event>, a: nat, b: nat, db: Db, at: nat)
    requires a <= b <= |log|
    ensures var batch, replay := Applied(r, log, a, b, db, at, None), Replay(r, log, a, b, db);
      (batch.stopped <==> replay.Err?) && (replay.Ok? ==> batch.db == replay.value)
    decreases b
  {
    if a < b {
      StopsIff(r, log, a, b - 1, db, at);
    }
  }

  /** One of the events is kept by the filters. */
  ghost predicate KeepsOne(r: Replayer, log: seq<Event>, a: nat, b: nat)
    requires a <= b <= |log|
  {
    exists i {:trigger log[i]} :: a <= i < b && r.keeps(log[i])
  }

  lemma {:induction false} AppliesIff(r: Replayer, log: seq<Event>, a: nat, b: nat, db: Db, at: nat)
    requires a <= b <= |log| && !Applied(r, log, a, b, db, at, None).stopped
    ensures Applied(r, log, a, b, db, at, None).applied > 0 <==> KeepsOne(r, log, a, b)
    ensures Applied(r, log, a, b, db, at, None).applied == 0
      ==> Applied(r, log, a, b, db, at, None) == Batch(db, at, 0, {}, false)
    decreases b
  {
    if a < b {
      AppliesIff(r, log, a, b - 1, db, at);
      assert KeepsOne(r, log, a, b) <==> KeepsOne(r, log, a, b - 1) || r.keeps(log[b - 1]);
    }
  }

  /** A purge up to the checkpoint does not change where the next read starts. */
  lemma PurgeKeepsFirst(log: Log, saved: nat)
    requires Increasing(log.events) && log.purged <= |log.events|
    ensures First(Purged(log, saved), saved) == First(log, saved)
  {
    var q, z := First(log, saved), After(log.events, saved, 0);
    AfterSplits(log.events, saved, log.purged);
    AfterSplits(log.events, saved, 0);
    if z > log.purged {
      AfterIs(log.events, saved, log.purged, z);
      AfterIs(log.events, saved, z, z);
    }
  }

  /** The batch that an undisturbed run reads from a database: the events [q, c); None when the run
      leaves the database alone. */
  function BatchOf(opts: Options, p: CdcRun.Progress, schema: string): (batch: Option<(nat, nat)>)
    requires WithinMax(opts, p.total)
    ensures batch.Some? ==> batch.value.0 <= batch.value.1 <= |LogOf(p.world, schema).events|
  {
    var log := LogOf(p.world, schema);
    var q := First(log, Saved(p.checkpoint, schema));
    var b := BatchEnd(|log.events|, q, Limit(opts));
    if q == b then None
    else
      var c := Cut(opts, p.total, q, b);
      if c.None? then None else Some((q, c.value))
  }

  /** How much a run reads: the entries left behind the checkpoint, cut to the batch size, which is 1000
      unless a positive one is given, and to what MaxEvents leaves; nothing when that is nothing. */
  lemma BatchIs(opts: Options, p: CdcRun.Progress, schema: string)
    requires WithinMax(opts, p.total)
    ensures var q := First(LogOf(p.world, schema), Saved(p.checkpoint, schema));
      var rest := |LogOf(p.world, schema).events| - q;
      var size := if opts.batchSize > 0 then opts.batchSize else 1000;
      match BatchOf(opts, p, schema)
      case None => rest == 0 || (opts.maxEvents > 0 && p.total == opts.maxEvents)
      case Some((from, to)) =>
        && from == q && 0 < to - q <= rest && to - q <= size
        && (opts.maxEvents > 0 ==> p.total + (to - q) <= opts.maxEvents)
        && (to - q == rest || to - q == size || (opts.maxEvents > 0 && p.total + (to - q) == opts.maxEvents))
  {}

  lemma UndisturbedFinish(p: CdcRun.Progress, schema: string, log: Log, batch: Batch)
    requires log == LogOf(p.world, schema) && p.checkpoint == p.world.file
    ensures var next := Finish(p, schema, log, batch, Goes).0.world;
      && Saved(next.file, schema) == (if batch.applied == 0
         || batch.stopped then Saved(p.world.file, schema) else batch.at)
      && LogOf(next, schema) == (if batch.stopped then log else Purged(log, Saved(next.file, schema)))
      && (batch.applied == 0 ==> next.dest == p.world.dest)
  {}

  /** The exact condition of progress, for every valid log, policy and limit: an undisturbed batch,
      also one that MaxEvents cuts, moves the checkpoint exactly when it holds an event that the
      filters keep and no event in it collides with the rows in the destination. A batch that
      holds none leaves destination and checkpoint alone, and the next run reads it again. */
  lemma ProgressIff(opts: Options, catalogs: map<string, Catalog>, p: CdcRun.Progress, schema: string, start: Db)
    requires WithinMax(opts, p.total) && p.checkpoint == p.world.file
    requires var log := LogOf(p.world, schema);
      && GoodIds(log.events) && log.purged <= |log.events|
      && ValidLog(ReplayerFor(opts, catalogs, schema), log.events, start)
    ensures var log, saved, db := LogOf(p.world, schema), Saved(p.world.file, schema), DestOf(p.world, schema);
      var r, next := ReplayerFor(opts, catalogs, schema), OneDatabase(opts, catalogs, p, schema, Goes).0.world;
      match BatchOf(opts, p, schema)
      case None => next == p.world
      case Some((q, c)) =>
        && (Saved(next.file, schema) != saved
            <==> KeepsOne(r, log.events, q, c) && !Collision(r, log.events, q, c, db.Keys))
        && (!KeepsOne(r, log.events, q, c) ==> next.dest == p.world.dest && First(LogOf(next, schema), saved) == q)
  {
    var log, saved, db := LogOf(p.world, schema), Saved(p.world.file, schema), DestOf(p.world, schema);
    var r := ReplayerFor(opts, catalogs, schema);
    var read := BatchOf(opts, p, schema);
    if read.Some? {
      BatchMoves(r, log, saved, db, read.value.0, read.value.1, start);
      UndisturbedFinish(p, schema, log, Applied(r, log.events, read.value.0, read.value.1, db, saved, None));
    }
  }

  lemma BatchMoves(r: Replayer, log: Log, saved: nat, db: Db, q: nat, c: nat, start: Db)
    requires GoodIds(log.events) && log.purged <= |log.events| && ValidLog(r, log.events, start)
    requires q == First(log, saved) && q <= c <= |log.events|
    ensures var batch := Applied(r, log.events, q, c, db, saved, None);
      && (batch.stopped <==> Collision(r, log.events, q, c, db.Keys))
      && (!batch.stopped ==> (batch.applied > 0 <==> KeepsOne(r, log.events, q, c)))
      && (batch.applied > 0 ==> batch.at > saved)
      && (!KeepsOne(r, log.events, q, c) ==> batch.applied == 0 && !batch.stopped)
      && First(Purged(log, saved), saved) == q
  {
    var batch := Applied(r, log.events, q, c, db, saved, None);
    StopsIff(r, log.events, q, c, db, saved);
    ReplayOkIff(r, log.events, q, c, start, db);
    if !batch.stopped {
      AppliesIff(r, log.events, q, c, db, saved);
    }
    var k := BatchApplies(r, log.events, q, c, db, saved, None);
    if batch.applied > 0 {
      BatchAhead(r, log, saved, c, batch, k);
    }
    if !KeepsOne(r, log.events, q, c) {
      NothingKept(r, log.events, q, c, db, saved);
    }
    PurgeKeepsFirst(log, saved);
  }

  lemma {:induction false} NothingKept(r: Replayer, log: seq<Event>, a: nat, b: nat, db: Db, at: nat)
    requires a <= b <= |log| && !KeepsOne(r, log, a, b)
    ensures Applied(r, log, a, b, db, at, None) == Batch(db, at, 0, {}, false)
    ensures Replay(r, log, a, b, db) == Ok(db)
    decreases b
  {
    if a < b {
      assert !r.keeps(log[b - 1]) && !KeepsOne(r, log, a, b - 1);
      NothingKept(r, log, a, b - 1, db, at);
    }
  }

  // ----- repeated runs over a log that does not grow -----

  /** How many events an undisturbed run over one database reads at most. */
  function PageOf(opts: Options): (n: nat)
    ensures n >= 1
  {
    if 0 < opts.maxEvents < Limit(opts) then opts.maxEvents else Limit(opts)
  }

  /** One undisturbed run over one database. */
  function Once(opts: Options, catalogs: map<string, Catalog>, w: World, schema: string): World {
    RunOf(opts, catalogs, w, [schema], []).0.world
  }

  function Repeated(opts: Options, catalogs: map<string, Catalog>, w: World, schema: string, n: nat): World {
    if n == 0 then w else Once(opts, catalogs, Repeated(opts, catalogs, w, schema, n - 1), schema)
  }

  /** Where the next run starts to read. */
  function PositionOf(w: World, schema: string): (q: nat)
    ensures q <= |LogOf(w, schema).events|
  {
    First(LogOf(w, schema), Saved(w.file, schema))
  }

  /** The position behind the last kept event of [q, c). */
  function LastKept(r: Replayer, log: seq<Event>, q: nat, c: nat): (k: nat)
    requires q <= c <= |log|
    ensures q <= k <= c && (q < k ==> r.keeps(log[k - 1])) && !KeepsOne(r, log, k, c)
    decreases c
  {
    if q == c || r.keeps(log[c - 1]) then c
    else
      var k := LastKept(r, log, q, c - 1);
      assert KeepsOne(r, log, k, c) ==> KeepsOne(r, log, k, c - 1);
      k
  }

  lemma LastKeptIs(r: Replayer, log: seq<Event>, q: nat, c: nat, k: nat)
    requires q <= k <= c <= |log| && (q < k ==> r.keeps(log[k - 1])) && !KeepsOne(r, log, k, c)
    ensures k == LastKept(r, log, q, c)
  {
    var l := LastKept(r, log, q, c);
    assert (q < l ==> r.keeps(log[l - 1])) && (q < k ==> r.keeps(log[k - 1]));
  }

  lemma OnceIs(opts: Options, catalogs: map<string, Catalog>, w: World, schema: string)
    ensures Once(opts, catalogs, w, schema) == OneDatabase(opts, catalogs, Begin(opts, w), schema, Goes).0.world
  {
    var (next, end) := OneDatabase(opts, catalogs, Begin(opts, w), schema, Goes);
    assert Databases(opts, catalogs, next, [schema], 1, []) == (next, true);
    assert FateAt([], 0) == Goes;
  }

  lemma PageRead(opts: Options, w: World, schema: string)
    requires opts.resume
    ensures var q, n := PositionOf(w, schema), |LogOf(w, schema).events|;
      BatchOf(opts, Begin(opts, w), schema) == if q == n then None else Some((q, BatchEnd(n, q, PageOf(opts))))
  {}

  /** What one undisturbed run does to the database. */
  lemma OnceMoves(setting: Setting, opts: Options, w: World, schema: string, m: nat) returns (m': nat)
    requires Uses(setting, opts) && opts.resume && schema in setting.starts
    requires At(ReplayerOf(setting, schema), setting.starts[schema], w, schema, m)
    ensures var r, log, next := ReplayerOf(setting, schema), LogOf(w, schema).events,
      Once(opts, setting.catalogs, w, schema);
      && At(r, setting.starts[schema], next, schema, m') && LogOf(next, schema).events == log
      && PositionOf(next, schema)
         == LastKept(r, log, PositionOf(w, schema), BatchEnd(|log|, PositionOf(w, schema), PageOf(opts)))
  {
    var r, p, q := ReplayerOf(setting, schema), Begin(opts, w), PositionOf(w, schema);
    var log, saved, db := LogOf(w, schema), Saved(w.file, schema), DestOf(w, schema);
    OnceIs(opts, setting.catalogs, w, schema);
    PageRead(opts, w, schema);
    if q == |log.events| {
      return m;
    }
    var c := BatchEnd(|log.events|, q, PageOf(opts));
    var batch := Applied(r, log.events, q, c, db, saved, None);
    m' := FinishKeeps(r, setting.starts[schema], p, schema, c, Goes, m);
    UndisturbedFinish(p, schema, log, batch);
    NeverStops(r, log.events, q, c, db, saved, setting.starts[schema]);
    PositionBehind(r, setting.starts[schema], log, saved, db, q, c, batch);
  }

  lemma PositionBehind(r: Replayer, start: Db, log: Log, saved: nat, db: Db, q: nat, c: nat, batch: Batch)
    requires GoodLog(r, log.events, start) && log.purged <= After(log.events, saved, 0)
    requires q == First(log, saved) && q <= c <= |log.events|
    requires batch == Applied(r, log.events, q, c, db, saved, None) && !batch.stopped
    ensures var saved' := if batch.applied == 0 then saved else batch.at;
      First(Purged(log, saved'), saved') == LastKept(r, log.events, q, c)
  {
    var k, j := BatchReached(r, log.events, q, c, db, saved, None);
    LastKeptIs(r, log.events, q, c, k);
    FirstIsAfter(log, saved);
    if batch.applied == 0 {
      PurgeKeepsFirst(log, saved);
    } else {
      AfterOwnId(log.events, k - 1);
      FirstIsAfter(Purged(log, batch.at), batch.at);
    }
  }

  /** A page of filtered events, at or behind q, with a kept event behind it. */
  ghost predicate Gap(r: Replayer, log: seq<Event>, q: nat, page: nat) {
    exists g: nat :: GapAt(r, log, q, page, g)
  }

  ghost predicate GapAt(r: Replayer, log: seq<Event>, q: nat, page: nat, g: nat) {
    q <= g && g + page <= |log| && !KeepsOne(r, log, g, g + page) && KeepsOne(r, log, g + page, |log|)
  }

  lemma NotBeyondGap(r: Replayer, log: seq<Event>, q0: nat, q: nat, page: nat, g: nat)
    requires GapAt(r, log, q0, page, g) && q <= g
    ensures LastKept(r, log, q, BatchEnd(|log|, q, page)) <= g
  {
    var c := BatchEnd(|log|, q, page);
    var k := LastKept(r, log, q, c);
    assert q < k ==> r.keeps(log[k - 1]);
  }

  lemma StuckIsGap(r: Replayer, log: seq<Event>, q0: nat, q: nat, page: nat)
    requires q0 <= q <= |log| && KeepsOne(r, log, q, |log|) && LastKept(r, log, q, BatchEnd(|log|, q, page)) == q
    ensures GapAt(r, log, q0, page, q)
  {
    var c := BatchEnd(|log|, q, page);
    var i :| q <= i < |log| && r.keeps(log[i]);
    assert c <= i && c == q + page;
  }

  lemma GetsOn(r: Replayer, log: seq<Event>, q0: nat, q: nat, page: nat)
    requires !Gap(r, log, q0, page) && q0 <= q <= |log| && KeepsOne(r, log, q, |log|) && page >= 1
    ensures q < LastKept(r, log, q, BatchEnd(|log|, q, page))
  {
    if LastKept(r, log, q, BatchEnd(|log|, q, page)) == q {
      StuckIsGap(r, log, q0, q, page);
    }
  }

  /** How far n runs get. */
  lemma {:induction false} RunsMove(setting: Setting, opts: Options, w: World, schema: string, m: nat, n: nat)
    returns (m': nat)
    requires Uses(setting, opts) && opts.resume && schema in setting.starts
    requires At(ReplayerOf(setting, schema), setting.starts[schema], w, schema, m)
    ensures var r, log, q := ReplayerOf(setting, schema), LogOf(w, schema).events, PositionOf(w, schema);
      var next := Repeated(opts, setting.catalogs, w, schema, n);
      && At(r, setting.starts[schema], next, schema, m') && LogOf(next, schema).events == log
         && q <= PositionOf(next, schema)
      && (forall g {:trigger GapAt(r, log, q, PageOf(opts), g)} :: GapAt(r, log, q, PageOf(opts), g)
            ==> PositionOf(next, schema) <= g)
      && (!Gap(r, log, q, PageOf(opts)) && KeepsOne(r, log, PositionOf(next, schema), |log|)
         ==> q + n <= PositionOf(next, schema))
  {
    m' := m;
    if n > 0 {
      var m0 := RunsMove(setting, opts, w, schema, m, n - 1);
      var before := Repeated(opts, setting.catalogs, w, schema, n - 1);
      m' := OnceMoves(setting, opts, before, schema, m0);
      MovesOn(ReplayerOf(setting, schema), LogOf(w, schema).events, PositionOf(w, schema), PositionOf(before, schema),
        PageOf(opts), n);
    }
  }

  lemma MovesOn(r: Replayer, log: seq<Event>, q0: nat, q: nat, page: nat, n: nat)
    requires page >= 1 && n > 0 && q0 <= q <= |log|
    requires forall g {:trigger GapAt(r, log, q0, page, g)} :: GapAt(r, log, q0, page, g) ==> q <= g
    requires !Gap(r, log, q0, page) && KeepsOne(r, log, q, |log|) ==> q0 + n - 1 <= q
    ensures var k := LastKept(r, log, q, BatchEnd(|log|, q, page));
      && q0 <= k
      && (forall g {:trigger GapAt(r, log, q0, page, g)} :: GapAt(r, log, q0, page, g) ==> k <= g)
      && (!Gap(r, log, q0, page) && KeepsOne(r, log, k, |log|) ==> q0 + n <= k)
  {
    var k := LastKept(r, log, q, BatchEnd(|log|, q, page));
    forall g | GapAt(r, log, q0, page, g)
      ensures k <= g
    {
      NotBeyondGap(r, log, q0, q, page, g);
    }
    if !Gap(r, log, q0, page) && KeepsOne(r, log, k, |log|) {
      assert KeepsOne(r, log, q, |log|);
      GetsOn(r, log, q0, q, page);
    }
  }

  /** Repeated undisturbed runs over a log that does not grow leave no kept event behind the
      checkpoint exactly when the log has no page of filtered events in front of a kept one; the
      destination then equals the source. Otherwise the checkpoint never passes that page. */
  lemma CatchUpIff(setting: Setting, opts: Options, w: World, schema: string, m: nat, n: nat)
    requires Uses(setting, opts) && opts.resume && schema in setting.starts && n >= |LogOf(w, schema).events|
    requires At(ReplayerOf(setting, schema), setting.starts[schema], w, schema, m)
    ensures var r, log := ReplayerOf(setting, schema), LogOf(w, schema).events;
      var next, gap := Repeated(opts, setting.catalogs, w, schema, n), Gap(r, log, PositionOf(w, schema), PageOf(opts));
      && LogOf(next, schema).events == log && (!KeepsOne(r, log, PositionOf(next, schema), |log|) <==> !gap)
      && (!gap ==> Some(DestOf(next, schema)) == SourceAt(r, log, |log|, setting.starts[schema]))
      && forall g {:trigger GapAt(r, log, PositionOf(w, schema), PageOf(opts), g)} ::
           GapAt(r, log, PositionOf(w, schema), PageOf(opts), g) ==> PositionOf(next, schema) <= g
  {
    var r, log, q := ReplayerOf(setting, schema), LogOf(w, schema).events, PositionOf(w, schema);
    var m' := RunsMove(setting, opts, w, schema, m, n);
    var next := Repeated(opts, setting.catalogs, w, schema, n);
    if Gap(r, log, q, PageOf(opts)) {
      var g: nat :| GapAt(r, log, q, PageOf(opts), g);
      var i :| g + PageOf(opts) <= i < |log| && r.keeps(log[i]);
    } else {
      NothingLeftIsSource(r, setting.starts[schema], next, schema, m');
    }
  }

  lemma NothingLeftIsSource(r: Replayer, start: Db, w: World, schema: string, m: nat)
    requires At(r, start, w, schema, m)
      && !KeepsOne(r, LogOf(w, schema).events, PositionOf(w, schema), |LogOf(w, schema).events|)
    ensures Some(DestOf(w, schema)) == SourceAt(r, LogOf(w, schema).events, |LogOf(w, schema).events|, start)
  {
    var log, saved, db := LogOf(w, schema), Saved(w.file, schema), DestOf(w, schema);
    FirstIsAfter(log, saved);
    ReachesLater(r, start, log, saved, db, m, |log.events|);
    NothingKept(r, log.events, PositionOf(w, schema), |log.events|, db, saved);
  }
}
