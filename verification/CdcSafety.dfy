/** What is never lost: for every log and every policy, whatever fails, the purge stays behind the
    checkpoint, the checkpoint behind the applied events, and no event that the filters keep is
    purged or passed without having been applied. */
module CdcSafety {
  import opened Wrappers
  import opened CdcReplay
  import opened CdcRun
  import opened CdcConvergence

  // ----- what a batch applied -----

  /** The kept events of [a, k) are applied, and the noted id is that of the last of them. */
  ghost predicate AppliedUpTo(r: Replayer, log: seq<Event>, a: nat, b: nat, batch: Batch, k: nat)
    requires a <= b <= |log|
  {
    && a <= k <= b && (batch.applied > 0 <==> a < k)
    && (a < k ==> batch.at == log[k - 1].id && batch.at in batch.done)
    && forall i {:trigger log[i]} :: a <= i < k && r.keeps(log[i]) ==> log[i].id in batch.done
  }

  lemma {:induction false} BatchApplies(r: Replayer, log: seq<Event>, a: nat, b: nat, db: Db, at: nat,
                                        stop: Option<nat>) returns (k: nat)
    requires a <= b <= |log|
    ensures AppliedUpTo(r, log, a, b, Applied(r, log, a, b, db, at, stop), k)
    ensures !Applied(r, log, a, b, db, at, stop).stopped ==> forall i :: k <= i < b ==> !r.keeps(log[i])
    decreases b
  {
    if a == b {
      return a;
    }
    k := BatchApplies(r, log, a, b - 1, db, at, stop);
    if Applied(r, log, a, b, db, at, stop).applied > Applied(r, log, a, b - 1, db, at, stop).applied {
      k := b;
    }
  }

  // ----- one database -----

  ghost predicate GoodIds(log: seq<Event>) {
    Increasing(log) && forall i {:trigger log[i]} :: 0 <= i < |log| ==> log[i].id > 0
  }

  /** The checkpoint is the id of an applied event, or zero; and every kept event that is purged,
      or at or behind the checkpoint, was applied. */
  ghost predicate Behind(keeps: Event -> bool, log: Log, saved: nat, done: set<nat>) {
    && GoodIds(log.events) && log.purged <= |log.events|
    && (saved == 0 || (saved in done && exists k {:trigger log.events[k]} :: 0 <= k < |log.events|
                                          && log.events[k].id == saved))
    && forall i {:trigger log.events[i]} :: 0 <= i < |log.events| && keeps(log.events[i])
         && (i < log.purged || log.events[i].id <= saved)
         ==> log.events[i].id in done
  }

  /** Nothing beyond the checkpoint is purged. */
  ghost predicate PurgedBehind(log: Log, saved: nat) {
    log.purged <= |log.events| && forall i {:trigger log.events[i]} :: 0 <= i < log.purged ==> log.events[i].id <= saved
  }

  lemma BehindMore(keeps: Event -> bool, log: Log, saved: nat, done: set<nat>, more: set<nat>)
    requires Behind(keeps, log, saved, done)
    ensures Behind(keeps, log, saved, done + more)
  {}

  /** What a read leaves out is purged or behind the checkpoint. */
  lemma FirstSkips(log: Log, saved: nat)
    requires GoodIds(log.events) && log.purged <= |log.events|
    ensures forall i {:trigger log.events[i]} :: 0 <= i < First(log, saved)
              ==> i < log.purged || log.events[i].id <= saved
  {
    AfterSplits(log.events, saved, log.purged);
  }

  /** The checkpoint behind a batch. */
  lemma BatchBehind(r: Replayer, log: Log, saved: nat, done: set<nat>, b: nat, batch: Batch, k: nat)
    requires Behind(r.keeps, log, saved, done) && First(log, saved) <= b <= |log.events|
    requires AppliedUpTo(r, log.events, First(log, saved), b, batch, k) && batch.applied > 0
    ensures Behind(r.keeps, log, batch.at, done + batch.done)
  {
    FirstSkips(log, saved);
    assert forall i :: k <= i < |log.events| ==> log.events[k - 1].id < log.events[i].id;
    forall i | 0 <= i < |log.events| && r.keeps(log.events[i]) && (i < log.purged || log.events[i].id <= batch.at)
      ensures log.events[i].id in done + batch.done
    {
    }
  }

  lemma PurgeBehind(keeps: Event -> bool, log: Log, saved: nat, done: set<nat>)
    requires Behind(keeps, log, saved, done)
    ensures Behind(keeps, Purged(log, saved), saved, done)
  {
    AfterSplits(log.events, saved, 0);
  }

  lemma PurgedOn(log: Log, saved: nat, saved': nat)
    requires PurgedBehind(log, saved) && saved <= saved'
    ensures PurgedBehind(log, saved')
  {}

  // ----- a whole run -----

  /** One database in the course of a run, with its checkpoint in memory and in the file. */
  ghost predicate SafeAt(keeps: Event -> bool, p: CdcRun.Progress, s: string) {
    && Behind(keeps, LogOf(p.world, s), Saved(p.checkpoint, s), DoneOf(p.world, s))
    && Behind(keeps, LogOf(p.world, s), Saved(p.world.file, s), DoneOf(p.world, s))
  }

  /** The next checkpoint of a batch lies ahead. */
  lemma BatchAhead(r: Replayer, log: Log, saved: nat, b: nat, batch: Batch, k: nat)
    requires GoodIds(log.events) && log.purged <= |log.events| && First(log, saved) <= b <= |log.events|
    requires AppliedUpTo(r, log.events, First(log, saved), b, batch, k) && batch.applied > 0
    ensures saved < batch.at
  {
    var q := First(log, saved);
    AfterSplits(log.events, saved, log.purged);
    assert q < k - 1 ==> log.events[q].id < log.events[k - 1].id;
  }

  /** What the end of a batch makes of one database. */
  lemma FinishSafe(r: Replayer, p: CdcRun.Progress, schema: string, b: nat, batch: Batch, fate: Fate, k: nat)
    requires var log := LogOf(p.world, schema);
      && SafeAt(r.keeps, p, schema) && First(log, Saved(p.checkpoint, schema)) <= b <= |log.events|
      && AppliedUpTo(r, log.events, First(log, Saved(p.checkpoint, schema)), b, batch, k)
    ensures SafeAt(r.keeps, Finish(p, schema, LogOf(p.world, schema), batch, fate).0, schema)
  {
    var log, saved, done := LogOf(p.world, schema), Saved(p.checkpoint, schema), DoneOf(p.world, schema);
    var next := Finish(p, schema, log, batch, fate).0;
    if batch.applied > 0 {
      BatchBehind(r, log, saved, done, b, batch, k);
      BehindMore(r.keeps, log, Saved(p.world.file, schema), done, batch.done);
    }
    PurgeBehind(r.keeps, log, Saved(next.checkpoint, schema), DoneOf(next.world, schema));
  }

  /** The order of purge and checkpoint, in a run that began with the checkpoint of the file. */
  ghost predicate LevelAt(p: CdcRun.Progress, s: string) {
    PurgedBehind(LogOf(p.world, s), Saved(p.world.file, s)) && Saved(p.world.file, s) <= Saved(p.checkpoint, s)
  }

  lemma FinishLevelAt(r: Replayer, p: CdcRun.Progress, schema: string, b: nat, batch: Batch, fate: Fate, k: nat)
    requires var log := LogOf(p.world, schema);
      && SafeAt(r.keeps, p, schema) && First(log, Saved(p.checkpoint, schema)) <= b <= |log.events|
      && AppliedUpTo(r, log.events, First(log, Saved(p.checkpoint, schema)), b, batch, k)
    requires LevelAt(p, schema)
    ensures LevelAt(Finish(p, schema, LogOf(p.world, schema), batch, fate).0, schema)
  {
    var log, saved := LogOf(p.world, schema), Saved(p.checkpoint, schema);
    var next := Finish(p, schema, log, batch, fate).0;
    if batch.applied > 0 {
      BatchAhead(r, log, saved, b, batch, k);
    }
    PurgedOn(log, Saved(p.world.file, schema), Saved(next.checkpoint, schema));
    PurgeStays(log, Saved(next.checkpoint, schema));
  }

  lemma PurgeStays(log: Log, saved: nat)
    requires GoodIds(log.events) && PurgedBehind(log, saved)
    ensures PurgedBehind(Purged(log, saved), saved)
  {
    AfterSplits(log.events, saved, 0);
  }

  lemma FinishElsewhereViews(p: CdcRun.Progress, schema: string, log: Log, batch: Batch, fate: Fate, s: string)
    requires s != schema
    ensures var next := Finish(p, schema, log, batch, fate).0;
      && LogOf(next.world, s) == LogOf(p.world, s) && DoneOf(next.world, s) == DoneOf(p.world, s)
      && Saved(next.checkpoint, s) == Saved(p.checkpoint, s)
      && (Saved(next.world.file, s) == Saved(p.world.file, s) || Saved(next.world.file, s) == Saved(p.checkpoint, s))
  {}

  lemma FinishElsewhereSafe(keeps: Event -> bool, p: CdcRun.Progress, schema: string, log: Log, batch: Batch,
                            fate: Fate, s: string)
    requires s != schema && SafeAt(keeps, p, s)
    ensures SafeAt(keeps, Finish(p, schema, log, batch, fate).0, s)
    ensures LevelAt(p, s) ==> LevelAt(Finish(p, schema, log, batch, fate).0, s)
  {
    FinishElsewhereViews(p, schema, log, batch, fate, s);
    if LevelAt(p, s) {
      PurgedOn(LogOf(p.world, s), Saved(p.world.file, s), Saved(p.checkpoint, s));
    }
  }

  function Keeps(setting: Setting, s: string): Event -> bool {
    CdcRun.Kept(setting.only, setting.never, s)
  }

  ghost predicate Safe(setting: Setting, p: CdcRun.Progress) {
    forall s {:trigger SafeAt(Keeps(setting, s), p, s)} :: s in setting.starts ==> SafeAt(Keeps(setting, s), p, s)
  }

  ghost predicate Level(setting: Setting, p: CdcRun.Progress) {
    forall s {:trigger LevelAt(p, s)} :: s in setting.starts ==> LevelAt(p, s)
  }

  lemma BatchSafe(setting: Setting, p: CdcRun.Progress, schema: string, b: nat, fate: Fate, next: CdcRun.Progress)
    requires schema in setting.starts && Safe(setting, p)
    requires var log := LogOf(p.world, schema);
      var q := First(log, Saved(p.checkpoint, schema));
      && q <= b <= |log.events|
      && next == Finish(p, schema, log,
         Applied(ReplayerOf(setting, schema), log.events, q, b, DestOf(p.world, schema), Saved(p.checkpoint, schema),
           StopOf(fate)), fate).0
    ensures Safe(setting, next) && (Level(setting, p) ==> Level(setting, next))
  {
    var r, log, saved := ReplayerOf(setting, schema), LogOf(p.world, schema), Saved(p.checkpoint, schema);
    var batch := Applied(r, log.events, First(log, saved), b, DestOf(p.world, schema), saved, StopOf(fate));
    var k := BatchApplies(r, log.events, First(log, saved), b, DestOf(p.world, schema), saved, StopOf(fate));
    assert SafeAt(Keeps(setting, schema), p, schema);
    FinishSafe(r, p, schema, b, batch, fate, k);
    forall s | s in setting.starts
      ensures SafeAt(Keeps(setting, s), next, s) && (LevelAt(p, s) ==> LevelAt(next, s))
    {
      assert SafeAt(Keeps(setting, s), p, s);
      if s != schema {
        FinishElsewhereSafe(Keeps(setting, s), p, schema, log, batch, fate, s);
      } else if LevelAt(p, s) {
        FinishLevelAt(r, p, schema, b, batch, fate, k);
      }
    }
  }

  lemma DatabaseSafe(setting: Setting, opts: Options, p: CdcRun.Progress, schema: string, fate: Fate)
    returns (next: CdcRun.Progress, end: End)
    requires Uses(setting, opts) && WithinMax(opts, p.total) && schema in setting.starts && Safe(setting, p)
    ensures (next, end) == OneDatabase(opts, setting.catalogs, p, schema, fate)
    ensures Safe(setting, next) && (Level(setting, p) ==> Level(setting, next))
  {
    var b := DatabaseIs(setting, opts, p, schema, fate);
    next, end := OneDatabase(opts, setting.catalogs, p, schema, fate).0,
      OneDatabase(opts, setting.catalogs, p, schema, fate).1;
    if b.Some? {
      BatchSafe(setting, p, schema, b.value, fate, next);
    }
  }

  lemma {:induction false} DatabasesSafe(setting: Setting, opts: Options, p: CdcRun.Progress, schemas: seq<string>,
                                         i: nat, fates: seq<Fate>)
    returns (after: CdcRun.Progress)
    requires i <= |schemas| && Uses(setting, opts) && WithinMax(opts, p.total)
      && (forall s :: s in schemas ==> s in setting.starts)
    requires Safe(setting, p)
    ensures after == Databases(opts, setting.catalogs, p, schemas, i, fates).0
    ensures Safe(setting, after) && (Level(setting, p) ==> Level(setting, after))
    decreases |schemas| - i
  {
    after := p;
    if i < |schemas| {
      var next, end := DatabaseSafe(setting, opts, p, schemas[i], FateAt(fates, i));
      after := next;
      if end == GoesOn {
        after := DatabasesSafe(setting, opts, next, schemas, i + 1, fates);
      }
    }
  }

  // ----- any number of runs -----

  ghost predicate SafeWorld(setting: Setting, w: World) {
    forall s {:trigger LogOf(w, s)} :: s in setting.starts
      ==> Behind(Keeps(setting, s), LogOf(w, s), Saved(w.file, s), DoneOf(w, s))
  }

  ghost predicate LevelWorld(setting: Setting, w: World) {
    forall s {:trigger LogOf(w, s)} :: s in setting.starts ==> PurgedBehind(LogOf(w, s), Saved(w.file, s))
  }

  /** A run without --resume starts from nothing, which is safe as well. */
  lemma BeginSafe(setting: Setting, opts: Options, w: World)
    requires SafeWorld(setting, w)
    ensures Safe(setting, Begin(opts, w)) && (opts.resume && LevelWorld(setting, w) ==> Level(setting, Begin(opts, w)))
  {
    forall s | s in setting.starts
      ensures SafeAt(Keeps(setting, s), Begin(opts, w), s)
    {
      assert Behind(Keeps(setting, s), LogOf(w, s), Saved(w.file, s), DoneOf(w, s));
    }
    if opts.resume && LevelWorld(setting, w) {
      forall s | s in setting.starts
        ensures LevelAt(Begin(opts, w), s)
      {
        assert PurgedBehind(LogOf(w, s), Saved(w.file, s));
      }
    }
  }

  lemma GrowBehind(keeps: Event -> bool, log: Log, more: Log, saved: nat, done: set<nat>)
    requires Behind(keeps, log, saved, done) && GoodIds(more.events) && log.events <= more.events
      && more.purged == log.purged
    ensures Behind(keeps, more, saved, done) && (PurgedBehind(log, saved) ==> PurgedBehind(more, saved))
  {
    assert forall i :: 0 <= i < |log.events| ==> log.events[i] == more.events[i];
    if saved > 0 {
      var k :| 0 <= k < |log.events| && log.events[k].id == saved;
      assert more.events[k].id == saved;
      assert forall i :: |log.events| <= i < |more.events| ==> more.events[k].id < more.events[i].id;
    }
  }

  ghost predicate GoodHistories(setting: Setting) {
    forall s {:trigger s in setting.starts} :: s in setting.starts
      ==> s in setting.history && GoodIds(setting.history[s])
  }

  lemma TurnSafe(setting: Setting, w: World, turn: Turn)
    requires GoodHistories(setting) && Allowed(setting, w, turn) && Written(setting, w) && SafeWorld(setting, w)
    ensures SafeWorld(setting, Turned(setting, w, turn))
    ensures Resumes(turn) && LevelWorld(setting, w) ==> LevelWorld(setting, Turned(setting, w, turn))
  {
    var next := Turned(setting, w, turn);
    if turn.Runs? {
      BeginSafe(setting, turn.opts, w);
      var after := DatabasesSafe(setting, turn.opts, Begin(turn.opts, w), turn.schemas, 0, turn.fates);
      RunSafe(setting, after);
    } else {
      forall s | s in setting.starts
        ensures Behind(Keeps(setting, s), LogOf(next, s), Saved(next.file, s), DoneOf(next, s))
        ensures PurgedBehind(LogOf(w, s), Saved(w.file, s)) ==> PurgedBehind(LogOf(next, s), Saved(next.file, s))
      {
        assert LogOf(w, s).events <= setting.history[s];
        GrowBehind(Keeps(setting, s), LogOf(w, s), LogOf(next, s), Saved(w.file, s), DoneOf(w, s));
      }
    }
  }

  lemma RunSafe(setting: Setting, p: CdcRun.Progress)
    requires Safe(setting, p)
    ensures SafeWorld(setting, p.world) && (Level(setting, p) ==> LevelWorld(setting, p.world))
  {
    forall s | s in setting.starts
      ensures Behind(Keeps(setting, s), LogOf(p.world, s), Saved(p.world.file, s), DoneOf(p.world, s))
    {
      assert SafeAt(Keeps(setting, s), p, s);
    }
    forall s | s in setting.starts && Level(setting, p)
      ensures PurgedBehind(LogOf(p.world, s), Saved(p.world.file, s))
    {
      assert LevelAt(p, s);
    }
  }

  /** Over any runs, with --resume or without, failures, crashes and writes, for every log and every
      policy: the checkpoint of each database is zero or the id of an applied event, and every
      kept event that is purged or that the checkpoint has reached was applied. If all runs
      resume, the purge also stays at or behind the checkpoint. */
  lemma {:induction false} NothingLost(setting: Setting, w: World, turns: seq<Turn>)
    requires GoodHistories(setting) && Fresh(setting, w) && Turns(setting, w, turns).Some?
    ensures SafeWorld(setting, Turns(setting, w, turns).value) && Written(setting, Turns(setting, w, turns).value)
    ensures AllResume(turns) ==> LevelWorld(setting, Turns(setting, w, turns).value)
    decreases |turns|
  {
    if turns == [] {
      forall s | s in setting.starts
        ensures LogOf(w, s) == Log([], 0) && Saved(w.file, s) == 0
      {
        assert DestOf(w, s) == setting.starts[s];
      }
    } else {
      var last := |turns| - 1;
      NothingLost(setting, w, turns[..last]);
      assert AllResume(turns) ==> AllResume(turns[..last]);
      TurnSafe(setting, Turns(setting, w, turns[..last]).value, turns[last]);
      TurnWrites(setting, Turns(setting, w, turns[..last]).value, turns[last]);
    }
  }
}
