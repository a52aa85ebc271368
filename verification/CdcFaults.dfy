/** What a run's purges, failed queries and a missing checkpoint amount to, and what it reports. */
module CdcFaults {
  import opened Ordering
  import opened Wrappers
  import opened CdcReplay
  import opened CdcRun
  import opened CdcConvergence

  // ----- one database -----

  /** What one database contributes, told on what the run knows of it: a batch, or none and how the
      run goes on. */
  function Contribution(opts: Options, catalogs: map<string, Catalog>, total: nat, saved: nat, log: Log, db: Db,
                        schema: string, fate: Fate): (Option<Batch>, End)
    requires WithinMax(opts, total)
  {
    var q := First(log, saved);
    var b := BatchEnd(|log.events|, q, Limit(opts));
    if fate.ReadFails? then (None, Error)
    else if q == b then (None, GoesOn)
    else
      var c := Cut(opts, total, q, b);
      if c.None? then (None, Enough)
      else (Some(Applied(ReplayerFor(opts, catalogs, schema), log.events, q, c.value, db, saved, StopOf(fate))), GoesOn)
  }

  function ContributionTo(opts: Options, catalogs: map<string, Catalog>, p: CdcRun.Progress, schema: string,
                          fate: Fate): (Option<Batch>, End)
    requires WithinMax(opts, p.total)
  {
    Contribution(opts, catalogs, p.total, Saved(p.checkpoint, schema), LogOf(p.world, schema), DestOf(p.world, schema),
      schema, fate)
  }

  lemma DatabaseIs(opts: Options, catalogs: map<string, Catalog>, p: CdcRun.Progress, schema: string, fate: Fate)
    requires WithinMax(opts, p.total)
    ensures var (batch, end) := ContributionTo(opts, catalogs, p, schema, fate);
      OneDatabase(opts, catalogs, p, schema, fate)
      == if batch.None? then (p, end) else Finish(p, schema, LogOf(p.world, schema), batch.value, fate)
  {}

  // ----- the purge -----

  /** Exactly the entries up to the id are gone, and those that were gone before. */
  lemma PurgedIff(log: Log, id: nat, i: nat)
    requires Increasing(log.events) && log.purged <= |log.events| && i < |log.events|
    ensures i < Purged(log, id).purged <==> i < log.purged || log.events[i].id <= id
  {
    var q := After(log.events, id, 0);
    AfterSplits(log.events, id, 0);
    assert q < i ==> log.events[q].id < log.events[i].id;
  }

  function Mend(fate: Fate): Fate {
    if fate.PurgeFails? then Goes else fate
  }

  /** The same run with every purge working. */
  function Mended(fates: seq<Fate>): seq<Fate> {
    seq(|fates|, i requires 0 <= i < |fates| => Mend(fates[i]))
  }

  /** Alike but for the log tables. */
  predicate LogsAside(p: CdcRun.Progress, q: CdcRun.Progress) {
    q == p.(world := p.world.(logs := q.world.logs))
  }

  ghost predicate SameLogsFrom(p: CdcRun.Progress, q: CdcRun.Progress, schemas: seq<string>, i: nat) {
    forall j {:trigger schemas[j]} :: i <= j < |schemas| ==> LogOf(p.world, schemas[j]) == LogOf(q.world, schemas[j])
  }

  lemma FinishPurgeAside(p: CdcRun.Progress, q: CdcRun.Progress, schema: string, batch: Batch, fate: Fate)
    requires LogsAside(p, q) && LogOf(p.world, schema) == LogOf(q.world, schema)
    ensures var log := LogOf(p.world, schema);
      var a, b := Finish(p, schema, log, batch, fate), Finish(q, schema, log, batch, Mend(fate));
      && a.1 == b.1 && LogsAside(a.0, b.0)
      && forall s :: s != schema ==>
                       LogOf(a.0.world, s) == LogOf(p.world, s) && LogOf(b.0.world, s) == LogOf(q.world, s)
  {}

  lemma OnePurgeAside(opts: Options, catalogs: map<string, Catalog>, p: CdcRun.Progress, q: CdcRun.Progress,
                      schema: string, fate: Fate)
    requires WithinMax(opts, p.total) && LogsAside(p, q) && LogOf(p.world, schema) == LogOf(q.world, schema)
    ensures var a := OneDatabase(opts, catalogs, p, schema, fate);
      var b := OneDatabase(opts, catalogs, q, schema, Mend(fate));
      && a.1 == b.1 && LogsAside(a.0, b.0)
      && forall s :: s != schema ==>
                       LogOf(a.0.world, s) == LogOf(p.world, s) && LogOf(b.0.world, s) == LogOf(q.world, s)
  {
    DatabaseIs(opts, catalogs, p, schema, fate);
    DatabaseIs(opts, catalogs, q, schema, Mend(fate));
    var batch := ContributionTo(opts, catalogs, p, schema, fate).0;
    if batch.Some? {
      FinishPurgeAside(p, q, schema, batch.value, fate);
    }
  }

  lemma {:induction false} PurgesAside(opts: Options, catalogs: map<string, Catalog>, p: CdcRun.Progress,
                                       q: CdcRun.Progress, schemas: seq<string>, i: nat, fates: seq<Fate>)
    requires i <= |schemas| && Distinct(schemas) && WithinMax(opts, p.total)
    requires LogsAside(p, q) && SameLogsFrom(p, q, schemas, i)
    ensures var a, b := Databases(opts, catalogs, p, schemas, i, fates),
                        Databases(opts, catalogs, q, schemas, i, Mended(fates));
      a.1 == b.1 && LogsAside(a.0, b.0)
    decreases |schemas| - i
  {
    if i < |schemas| {
      var fate := FateAt(fates, i);
      assert FateAt(Mended(fates), i) == Mend(fate);
      OnePurgeAside(opts, catalogs, p, q, schemas[i], fate);
      var a := OneDatabase(opts, catalogs, p, schemas[i], fate);
      var b := OneDatabase(opts, catalogs, q, schemas[i], Mend(fate));
      if a.1 == GoesOn {
        PurgesAside(opts, catalogs, a.0, b.0, schemas, i + 1, fates);
      }
    }
  }

  /** A failed purge does not end the run, and leaves no trace but in the log tables. */
  lemma FailedPurgeIsHarmless(opts: Options, catalogs: map<string, Catalog>, w: World, schemas: seq<string>,
                              fates: seq<Fate>)
    requires Distinct(schemas)
    ensures var a, b := RunOf(opts, catalogs, w, schemas, fates), RunOf(opts, catalogs, w, schemas, Mended(fates));
      a.1 == b.1 && LogsAside(a.0, b.0)
  {
    var p := Begin(opts, w);
    PurgesAside(opts, catalogs, p, p, schemas, 0, fates);
  }

  // ----- success -----

  lemma FinishSaves(p: CdcRun.Progress, schema: string, log: Log, batch: Batch, fate: Fate)
    ensures var (next, end) := Finish(p, schema, log, batch, fate);
      end != Enough && (end == GoesOn ==> next.world.file == next.checkpoint)
  {}

  lemma OneSucceeds(opts: Options, catalogs: map<string, Catalog>, p: CdcRun.Progress, schema: string, fate: Fate)
    requires WithinMax(opts, p.total)
    ensures var (next, end) := OneDatabase(opts, catalogs, p, schema, fate);
      end != Error ==> && (p.world.file == p.checkpoint ==> next.world.file == next.checkpoint)
                       && !fate.ReadFails? && (end == Enough ==> next.total == opts.maxEvents && opts.maxEvents > 0)
  {
    DatabaseIs(opts, catalogs, p, schema, fate);
    var batch := ContributionTo(opts, catalogs, p, schema, fate).0;
    if batch.Some? {
      FinishSaves(p, schema, LogOf(p.world, schema), batch.value, fate);
    }
  }

  /** From database i on: all were read, unless MaxEvents was reached, and what was noted is saved. */
  lemma {:induction false} SucceedsFrom(opts: Options, catalogs: map<string, Catalog>, p: CdcRun.Progress,
                                        schemas: seq<string>, i: nat, fates: seq<Fate>)
    requires i <= |schemas| && WithinMax(opts, p.total)
    ensures var (after, ok) := Databases(opts, catalogs, p, schemas, i, fates);
      ok ==> && ((opts.maxEvents > 0 && after.total == opts.maxEvents)
                 || forall j :: i <= j < |schemas| ==> !FateAt(fates, j).ReadFails?)
             && (p.world.file == p.checkpoint ==> after.world.file == after.checkpoint)
    decreases |schemas| - i
  {
    if i < |schemas| {
      var (next, end) := OneDatabase(opts, catalogs, p, schemas[i], FateAt(fates, i));
      OneSucceeds(opts, catalogs, p, schemas[i], FateAt(fates, i));
      if end == GoesOn {
        SucceedsFrom(opts, catalogs, next, schemas, i + 1, fates);
      }
    }
  }

  /** A resumed run that returns without error could read every database, unless it applied MaxEvents
      events, and the checkpoint file has all that it noted. */
  lemma SuccessMeans(opts: Options, catalogs: map<string, Catalog>, w: World, schemas: seq<string>, fates: seq<Fate>)
    requires opts.resume && RunOf(opts, catalogs, w, schemas, fates).1
    ensures var after := RunOf(opts, catalogs, w, schemas, fates).0;
      && ((opts.maxEvents > 0 && after.total == opts.maxEvents)
          || forall j :: 0 <= j < |schemas| ==> !FateAt(fates, j).ReadFails?)
      && after.world.file == after.checkpoint
  {
    SucceedsFrom(opts, catalogs, Begin(opts, w), schemas, 0, fates);
  }

  // ----- the reported id -----

  /** No checkpoint that has moved lies beyond the reported id, and one of those of the databases in
      front of i has it. */
  ghost predicate Reported(before: map<string, nat>, p: CdcRun.Progress, schemas: seq<string>, i: nat)
    requires i <= |schemas|
  {
    && (forall s :: Saved(p.checkpoint, s) == Saved(before, s) || Saved(p.checkpoint, s) <= p.last)
    && (p.last == 0 || exists j {:trigger schemas[j]} :: 0 <= j < i && Saved(p.checkpoint, schemas[j]) == p.last)
  }

  lemma FinishReports(p: CdcRun.Progress, schema: string, batch: Batch, fate: Fate)
    ensures var next := Finish(p, schema, LogOf(p.world, schema), batch, fate).0;
      && (forall s :: s != schema ==> Saved(next.checkpoint, s) == Saved(p.checkpoint, s))
      && next.last >= p.last && (next.last == p.last || next.last == Saved(next.checkpoint, schema))
      && (Saved(next.checkpoint, schema) == Saved(p.checkpoint, schema) || Saved(next.checkpoint, schema) <= next.last)
  {}

  lemma ReportedNext(before: map<string, nat>, p: CdcRun.Progress, schemas: seq<string>, i: nat, next: CdcRun.Progress)
    requires i < |schemas| && Distinct(schemas) && Reported(before, p, schemas, i)
    requires forall s :: s != schemas[i] ==> Saved(next.checkpoint, s) == Saved(p.checkpoint, s)
    requires next.last >= p.last && (next.last == p.last || next.last == Saved(next.checkpoint, schemas[i]))
    requires Saved(next.checkpoint, schemas[i]) == Saved(p.checkpoint, schemas[i])
      || Saved(next.checkpoint, schemas[i]) <= next.last
    ensures Reported(before, next, schemas, i + 1)
  {
    if next.last == p.last && p.last > 0 {
      var j :| 0 <= j < i && Saved(p.checkpoint, schemas[j]) == p.last;
      assert Saved(next.checkpoint, schemas[j]) == p.last;
    }
  }

  lemma {:induction false} ReportedFrom(opts: Options, catalogs: map<string, Catalog>, before: map<string, nat>,
                                        p: CdcRun.Progress, schemas: seq<string>, i: nat, fates: seq<Fate>)
    requires i <= |schemas| && Distinct(schemas) && WithinMax(opts, p.total) && Reported(before, p, schemas, i)
    ensures Reported(before, Databases(opts, catalogs, p, schemas, i, fates).0, schemas, |schemas|)
    decreases |schemas| - i
  {
    if i < |schemas| {
      var (next, end) := OneDatabase(opts, catalogs, p, schemas[i], FateAt(fates, i));
      DatabaseIs(opts, catalogs, p, schemas[i], FateAt(fates, i));
      var batch := ContributionTo(opts, catalogs, p, schemas[i], FateAt(fates, i)).0;
      if batch.Some? {
        FinishReports(p, schemas[i], batch.value, FateAt(fates, i));
      }
      ReportedNext(before, p, schemas, i, next);
      if end == GoesOn {
        ReportedFrom(opts, catalogs, before, next, schemas, i + 1, fates);
      }
    }
  }

  /** The id that a run reports is the greatest of the checkpoints that it moved, or zero. */
  lemma LastIsGreatest(opts: Options, catalogs: map<string, Catalog>, w: World, schemas: seq<string>, fates: seq<Fate>)
    requires Distinct(schemas)
    ensures Reported(Begin(opts, w).checkpoint, RunOf(opts, catalogs, w, schemas, fates).0, schemas, |schemas|)
  {
    ReportedFrom(opts, catalogs, Begin(opts, w).checkpoint, Begin(opts, w), schemas, 0, fates);
  }

  // ----- runs without --resume -----

  /** Alike but for the checkpoint file, which neither has written, or both. */
  predicate FileAside(p: CdcRun.Progress, q: CdcRun.Progress, f: map<string, nat>, g: map<string, nat>) {
    && q == p.(world := p.world.(file := q.world.file))
    && (p.world.file == q.world.file || (p.world.file == f && q.world.file == g))
  }

  lemma FinishFileAside(p: CdcRun.Progress, q: CdcRun.Progress, f: map<string, nat>, g: map<string, nat>,
                        schema: string, batch: Batch, fate: Fate)
    requires FileAside(p, q, f, g)
    ensures var a, b := Finish(p, schema, LogOf(p.world, schema), batch, fate),
                        Finish(q, schema, LogOf(q.world, schema), batch, fate);
      a.1 == b.1 && FileAside(a.0, b.0, f, g)
  {}

  lemma SameContribution(opts: Options, catalogs: map<string, Catalog>, p: CdcRun.Progress, q: CdcRun.Progress,
                         schema: string, fate: Fate)
    requires WithinMax(opts, p.total) && q == p.(world := p.world.(file := q.world.file))
    ensures ContributionTo(opts.(resume := true), catalogs, q, schema, fate)
         == ContributionTo(opts, catalogs, p, schema, fate)
  {
    assert ReplayerFor(opts.(resume := true), catalogs, schema) == ReplayerFor(opts, catalogs, schema);
  }

  lemma OneFileAside(opts: Options, catalogs: map<string, Catalog>, p: CdcRun.Progress, q: CdcRun.Progress,
                     f: map<string, nat>, g: map<string, nat>, schema: string, fate: Fate)
    requires WithinMax(opts, p.total) && FileAside(p, q, f, g)
    ensures var a := OneDatabase(opts, catalogs, p, schema, fate);
      var b := OneDatabase(opts.(resume := true), catalogs, q, schema, fate);
      a.1 == b.1 && FileAside(a.0, b.0, f, g)
  {
    DatabaseIs(opts, catalogs, p, schema, fate);
    DatabaseIs(opts.(resume := true), catalogs, q, schema, fate);
    SameContribution(opts, catalogs, p, q, schema, fate);
    var batch := ContributionTo(opts, catalogs, p, schema, fate).0;
    if batch.Some? {
      FinishFileAside(p, q, f, g, schema, batch.value, fate);
    }
  }

  lemma {:induction false} FilesAside(opts: Options, catalogs: map<string, Catalog>, p: CdcRun.Progress,
                                      q: CdcRun.Progress, f: map<string, nat>, g: map<string, nat>,
                                      schemas: seq<string>, i: nat, fates: seq<Fate>)
    requires i <= |schemas| && WithinMax(opts, p.total) && FileAside(p, q, f, g)
    ensures var a := Databases(opts, catalogs, p, schemas, i, fates);
      var b := Databases(opts.(resume := true), catalogs, q, schemas, i, fates);
      a.1 == b.1 && FileAside(a.0, b.0, f, g)
    decreases |schemas| - i
  {
    if i < |schemas| {
      var fate := FateAt(fates, i);
      OneFileAside(opts, catalogs, p, q, f, g, schemas[i], fate);
      var a := OneDatabase(opts, catalogs, p, schemas[i], fate);
      var b := OneDatabase(opts.(resume := true), catalogs, q, schemas[i], fate);
      if a.1 == GoesOn {
        FilesAside(opts, catalogs, a.0, b.0, f, g, schemas, i + 1, fates);
      }
    }
  }

  /** Without --resume a run does what a resumed run does that finds no checkpoint file; the old file
      stays until the first save. */
  lemma NoResumeIsFresh(opts: Options, catalogs: map<string, Catalog>, w: World, schemas: seq<string>, fates: seq<Fate>)
    requires !opts.resume
    ensures var a := RunOf(opts, catalogs, w, schemas, fates);
      var b := RunOf(opts.(resume := true), catalogs, w.(file := map[]), schemas, fates);
      a.1 == b.1 && FileAside(a.0, b.0, w.file, map[])
  {
    FilesAside(opts, catalogs, Begin(opts, w), Begin(opts.(resume := true), w.(file := map[])), w.file, map[], schemas,
      0, fates);
  }
}
