/** At-least-once delivery converges: over any runs, failures and crashes, a destination that
    replays from its checkpoint reaches the source. */
module CdcConvergence {
  import opened Wrappers
  import opened CdcReplay
  import opened CdcRun

  // ----- positions and ids -----

  lemma {:induction false} AfterIs(log: seq<Event>, id: nat, i: nat, q: nat)
    requires Increasing(log) && i <= q <= |log| && (forall j :: i <= j < q ==> log[j].id <= id)
      && (q < |log| ==> log[q].id > id)
    ensures After(log, id, i) == q
    decreases |log| - i
  {
    if i < q {
      AfterIs(log, id, i + 1, q);
    }
  }

  lemma {:induction false} AfterSplits(log: seq<Event>, id: nat, i: nat)
    requires Increasing(log) && i <= |log|
    ensures var q := After(log, id, i);
      (forall j :: i <= j < q ==> log[j].id <= id) && (q < |log| ==> log[q].id > id)
    decreases |log| - i
  {
    if i < |log| && log[i].id <= id {
      AfterSplits(log, id, i + 1);
    }
  }

  /** The position behind an event is found by its id. */
  lemma AfterOwnId(log: seq<Event>, k: nat)
    requires Increasing(log) && k < |log|
    ensures After(log, log[k].id, 0) == k + 1
  {
    assert forall j :: 0 <= j < k ==> log[j].id < log[k].id;
    AfterIs(log, log[k].id, 0, k + 1);
  }

  /** A read starts behind the checkpoint when no more than that is purged. */
  lemma FirstIsAfter(log: Log, id: nat)
    requires Increasing(log.events) && log.purged <= After(log.events, id, 0)
    ensures First(log, id) == After(log.events, id, 0)
  {
    var q := After(log.events, id, 0);
    AfterSplits(log.events, id, 0);
    AfterIs(log.events, id, log.purged, q);
  }

  // ----- what a batch did -----

  /** A batch has replayed up to j, its last kept event is just before k, and it goes to the end
      unless it was stopped. */
  ghost predicate Reached(r: Replayer, log: seq<Event>, a: nat, b: nat, db: Db, at: nat, batch: Batch, k: nat, j: nat)
    requires a <= b <= |log|
  {
    && a <= k <= j <= b && (!batch.stopped ==> j == b)
    && Replay(r, log, a, k, db) == Ok(batch.db) && Replay(r, log, a, j, db) == Ok(batch.db)
    && (forall i :: k <= i < j ==> !r.keeps(log[i]))
    && (batch.applied > 0 <==> a < k) && batch.at == (if a < k then log[k - 1].id else at)
    && (a < k ==> r.keeps(log[k - 1])) && (a == k ==> batch.db == db)
  }

  lemma {:induction false} BatchReached(r: Replayer, log: seq<Event>, a: nat, b: nat, db: Db, at: nat,
                                        stop: Option<nat>) returns (k: nat, j: nat)
    requires a <= b <= |log|
    ensures Reached(r, log, a, b, db, at, Applied(r, log, a, b, db, at, stop), k, j)
    decreases b
  {
    if a == b {
      return a, a;
    }
    k, j := BatchReached(r, log, a, b - 1, db, at, stop);
    var before := Applied(r, log, a, b - 1, db, at, stop);
    if !before.stopped {
      if !r.keeps(log[b - 1]) {
        j := b;
      } else if !Applied(r, log, a, b, db, at, stop).stopped {
        k, j := b, b;
      }
    }
  }

  // ----- one database -----

  /** A log that the source's triggers could have written, under a policy that lets every replay pass. */
  ghost predicate GoodLog(r: Replayer, log: seq<Event>, start: Db) {
    && Increasing(log) && (forall i :: 0 <= i < |log| ==> log[i].id > 0)
    && ValidLog(r, log, start) && KeyPreserving(r, log) && r.policy != R.Fail
  }

  /** The invariant of one database: what is purged is at or behind the checkpoint, and replaying
      from the checkpoint up to some point m of the log turns the destination into the source as
      it was there. */
  ghost predicate Reaches(r: Replayer, start: Db, log: Log, saved: nat, db: Db, m: nat) {
    && GoodLog(r, log.events, start)
    && var c := After(log.events, saved, 0);
       && log.purged <= c <= m <= |log.events| && saved == (if c == 0 then 0 else log.events[c - 1].id)
       && SourceAt(r, log.events, m, start).Some?
       && Replay(r, log.events, c, m, db) == Ok(SourceAt(r, log.events, m, start).value)
  }

  /** Then the same holds for every later point. */
  lemma ReachesLater(r: Replayer, start: Db, log: Log, saved: nat, db: Db, m: nat, h: nat)
    requires Reaches(r, start, log, saved, db, m) && m <= h <= |log.events|
    ensures Reaches(r, start, log, saved, db, h)
  {
    ReplayFollows(r, log.events, m, h, start);
    ReplaySplit(r, log.events, After(log.events, saved, 0), m, h, db);
  }

  /** A batch that ends before its save: the next run replays over it. */
  lemma UnsavedReaches(r: Replayer, start: Db, log: Log, saved: nat, db: Db, m: nat, j: nat, db': Db) returns (m': nat)
    requires Reaches(r, start, log, saved, db, m)
    requires After(log.events, saved, 0) <= j <= |log.events|
      && Replay(r, log.events, After(log.events, saved, 0), j, db) == Ok(db')
    ensures Reaches(r, start, log, saved, db', m') && m <= m' && j <= m'
  {
    var c := After(log.events, saved, 0);
    m' := if j <= m then m else j;
    ReachesLater(r, start, log, saved, db, m, m');
    ReplayAbsorbs(r, log.events, c, c, j, m', start, db);
  }

  /** A batch that is saved: the next run starts behind its last kept event. */
  lemma SavedReaches(r: Replayer, start: Db, log: Log, saved: nat, db: Db, m: nat, k: nat, db': Db) returns (m': nat)
    requires Reaches(r, start, log, saved, db, m)
    requires After(log.events, saved, 0) < k <= |log.events|
      && Replay(r, log.events, After(log.events, saved, 0), k, db) == Ok(db')
    ensures Reaches(r, start, log, log.events[k - 1].id, db', m') && m <= m' && k <= m'
  {
    var c := After(log.events, saved, 0);
    m' := if k <= m then m else k;
    ReachesLater(r, start, log, saved, db, m, m');
    ReplaySplit(r, log.events, c, k, m', db);
    AfterOwnId(log.events, k - 1);
  }

  lemma PurgedReaches(r: Replayer, start: Db, log: Log, saved: nat, db: Db, m: nat)
    requires Reaches(r, start, log, saved, db, m)
    ensures Reaches(r, start, Purged(log, saved), saved, db, m)
  {}

  /** One database of a world. */
  ghost predicate At(r: Replayer, start: Db, w: World, schema: string, m: nat) {
    Reaches(r, start, LogOf(w, schema), Saved(w.file, schema), DestOf(w, schema), m)
  }

  lemma FinishViews(p: CdcRun.Progress, schema: string, batch: Batch, fate: Fate)
    requires p.checkpoint == p.world.file && (batch.applied == 0 ==> batch.db == DestOf(p.world, schema))
    ensures var log := LogOf(p.world, schema);
      var next := Finish(p, schema, log, batch, fate).0.world;
      var saved := if batch.applied == 0 || batch.stopped || fate.SaveFails? then Saved(p.world.file, schema)
        else batch.at;
      && DestOf(next, schema) == batch.db && Saved(next.file, schema) == saved
      && LogOf(next, schema) == if batch.stopped || fate.SaveFails? || fate.StopsSaved? || fate.PurgeFails? then log
         else Purged(log, saved)
  {}

  lemma FinishKeeps(r: Replayer, start: Db, p: CdcRun.Progress, schema: string, b: nat, fate: Fate, m: nat)
    returns (m': nat)
    requires At(r, start, p.world, schema, m) && p.checkpoint == p.world.file
    requires var log := LogOf(p.world, schema);
      First(log, Saved(p.checkpoint, schema)) <= b <= |log.events|
    ensures var log := LogOf(p.world, schema);
      var batch := Applied(r, log.events, First(log, Saved(p.checkpoint, schema)), b, DestOf(p.world, schema),
        Saved(p.checkpoint, schema), StopOf(fate));
      At(r, start, Finish(p, schema, log, batch, fate).0.world, schema, m') && m <= m'
  {
    var log, saved, db := LogOf(p.world, schema), Saved(p.checkpoint, schema), DestOf(p.world, schema);
    var a := First(log, saved);
    FirstIsAfter(log, saved);
    var batch := Applied(r, log.events, a, b, db, saved, StopOf(fate));
    var k, j := BatchReached(r, log.events, a, b, db, saved, StopOf(fate));
    FinishViews(p, schema, batch, fate);
    m' := BatchReaches(r, start, log, saved, db, m, batch, b, k, j, fate.SaveFails?);
  }

  /** What a batch leads to, before and after a purge. */
  lemma BatchReaches(r: Replayer, start: Db, log: Log, saved: nat, db: Db, m: nat, batch: Batch, b: nat, k: nat, j: nat,
                     lost: bool) returns (m': nat)
    requires Reaches(r, start, log, saved, db, m) && After(log.events, saved, 0) <= b <= |log.events|
    requires Reached(r, log.events, After(log.events, saved, 0), b, db, saved, batch, k, j)
    ensures m <= m'
    ensures var saved' := if batch.applied == 0 || batch.stopped || lost then saved else batch.at;
      Reaches(r, start, log, saved', batch.db, m') && Reaches(r, start, Purged(log, saved'), saved', batch.db, m')
  {
    if batch.applied == 0 {
      m' := m;
      PurgedReaches(r, start, log, saved, db, m);
    } else if batch.stopped || lost {
      m' := UnsavedReaches(r, start, log, saved, db, m, j, batch.db);
      PurgedReaches(r, start, log, saved, batch.db, m');
    } else {
      m' := SavedReaches(r, start, log, saved, db, m, k, batch.db);
      PurgedReaches(r, start, log, batch.at, batch.db, m');
    }
  }

  // ----- a whole run -----

  /** What does not change between runs: policy, filters, destination tables, where the databases
      started, and everything that their logs will ever hold. */
  datatype Setting = Setting(
    policy: R.ConflictPolicy, only: set<string>, never: set<string>, catalogs: map<string, Catalog>,
    starts: map<string, Db>, history: map<string, seq<Event>>)

  function ReplayerOf(setting: Setting, schema: string): Replayer {
    Replayer(setting.policy, if schema in setting.catalogs then setting.catalogs[schema] else map[],
      CdcRun.Kept(setting.only, setting.never, schema))
  }

  ghost predicate Uses(setting: Setting, opts: Options) {
    opts.policy == setting.policy && opts.includeTables == setting.only && opts.excludeTables == setting.never
  }

  /** Every database satisfies the invariant, with its point m in marks. */
  ghost predicate WorldHolds(setting: Setting, w: World, marks: map<string, nat>) {
    forall s {:trigger At(ReplayerOf(setting, s), setting.starts[s], w, s, marks[s])} ::
      s in setting.starts && s in marks ==> At(ReplayerOf(setting, s), setting.starts[s], w, s, marks[s])
  }

  ghost predicate Grows(setting: Setting, before: map<string, nat>, after: map<string, nat>) {
    before.Keys == after.Keys == setting.starts.Keys && forall s :: s in before ==> before[s] <= after[s]
  }

  /** The databases that a step does not touch look the same. */
  ghost predicate SameElsewhere(schema: string, w: World, w': World) {
    forall s :: s != schema ==>
      LogOf(w', s) == LogOf(w, s) && Saved(w'.file, s) == Saved(w.file, s) && DestOf(w', s) == DestOf(w, s)
  }

  lemma ElsewhereHolds(setting: Setting, schema: string, w: World, w': World, marks: map<string, nat>, m: nat)
    requires WorldHolds(setting, w, marks) && SameElsewhere(schema, w, w') && schema in setting.starts
      && schema in marks
    requires At(ReplayerOf(setting, schema), setting.starts[schema], w', schema, m)
    ensures WorldHolds(setting, w', marks[schema := m])
  {
    var marks' := marks[schema := m];
    forall s | s in setting.starts && s in marks'
      ensures At(ReplayerOf(setting, s), setting.starts[s], w', s, marks'[s])
    {
      assert s != schema ==> At(ReplayerOf(setting, s), setting.starts[s], w, s, marks[s]);
    }
  }

  lemma FinishElsewhere(p: CdcRun.Progress, schema: string, log: Log, batch: Batch, fate: Fate)
    requires p.checkpoint == p.world.file
    ensures SameElsewhere(schema, p.world, Finish(p, schema, log, batch, fate).0.world)
  {}

  /** A step either leaves everything as it is or applies some batch and finishes it. */
  lemma DatabaseIs(setting: Setting, opts: Options, p: CdcRun.Progress, schema: string, fate: Fate)
    returns (b: Option<nat>)
    requires Uses(setting, opts) && WithinMax(opts, p.total)
    ensures var log := LogOf(p.world, schema);
      var q := First(log, Saved(p.checkpoint, schema));
      if b.None? then OneDatabase(opts, setting.catalogs, p, schema, fate).0 == p
      else
        && q <= b.value <= |log.events|
        && OneDatabase(opts, setting.catalogs, p, schema, fate)
           == Finish(p, schema, log,
             Applied(ReplayerOf(setting, schema), log.events, q, b.value, DestOf(p.world, schema),
               Saved(p.checkpoint, schema), StopOf(fate)), fate)
  {
    var log := LogOf(p.world, schema);
    var q := First(log, Saved(p.checkpoint, schema));
    var end := BatchEnd(|log.events|, q, Limit(opts));
    b := if fate.ReadFails? || q == end then None else Cut(opts, p.total, q, end);
  }

  lemma BatchKeeps(setting: Setting, p: CdcRun.Progress, schema: string, b: nat, fate: Fate, marks: map<string, nat>,
                   next: World)
    returns (marks': map<string, nat>)
    requires p.checkpoint == p.world.file
    requires schema in setting.starts && marks.Keys == setting.starts.Keys && WorldHolds(setting, p.world, marks)
    requires var log := LogOf(p.world, schema);
      var q := First(log, Saved(p.checkpoint, schema));
      && q <= b <= |log.events|
      && next == Finish(p, schema, log,
         Applied(ReplayerOf(setting, schema), log.events, q, b, DestOf(p.world, schema), Saved(p.checkpoint, schema),
           StopOf(fate)), fate).0.world
    ensures WorldHolds(setting, next, marks') && Grows(setting, marks, marks')
  {
    var r := ReplayerOf(setting, schema);
    assert At(r, setting.starts[schema], p.world, schema, marks[schema]);
    var m := FinishKeeps(r, setting.starts[schema], p, schema, b, fate, marks[schema]);
    var log := LogOf(p.world, schema);
    FinishElsewhere(p, schema, log,
      Applied(r, log.events, First(log, Saved(p.checkpoint, schema)), b, DestOf(p.world, schema),
        Saved(p.checkpoint, schema), StopOf(fate)), fate);
    ElsewhereHolds(setting, schema, p.world, next, marks, m);
    marks' := marks[schema := m];
  }

  lemma FinishLevel(p: CdcRun.Progress, schema: string, log: Log, batch: Batch, fate: Fate)
    requires p.checkpoint == p.world.file
    ensures var (next, end) := Finish(p, schema, log, batch, fate);
      end != Error ==> next.checkpoint == next.world.file
  {}

  lemma DatabaseKeeps(setting: Setting, opts: Options, p: CdcRun.Progress, schema: string, fate: Fate,
                      marks: map<string, nat>)
    returns (marks': map<string, nat>, next: CdcRun.Progress, end: End)
    requires Uses(setting, opts) && WithinMax(opts, p.total) && p.checkpoint == p.world.file
    requires schema in setting.starts && marks.Keys == setting.starts.Keys && WorldHolds(setting, p.world, marks)
    ensures (next, end) == OneDatabase(opts, setting.catalogs, p, schema, fate)
    ensures WorldHolds(setting, next.world, marks') && Grows(setting, marks, marks')
      && (end != Error ==> next.checkpoint == next.world.file)
  {
    var b := DatabaseIs(setting, opts, p, schema, fate);
    next, end := OneDatabase(opts, setting.catalogs, p, schema, fate).0,
      OneDatabase(opts, setting.catalogs, p, schema, fate).1;
    if b.None? {
      marks' := marks;
    } else {
      marks' := BatchKeeps(setting, p, schema, b.value, fate, marks, next.world);
      var log := LogOf(p.world, schema);
      FinishLevel(p, schema, log,
        Applied(ReplayerOf(setting, schema), log.events, First(log, Saved(p.checkpoint, schema)), b.value,
          DestOf(p.world, schema), Saved(p.checkpoint, schema), StopOf(fate)), fate);
    }
  }

  lemma {:induction false} DatabasesKeep(setting: Setting, opts: Options, p: CdcRun.Progress, schemas: seq<string>,
                                         i: nat, fates: seq<Fate>, marks: map<string, nat>)
    returns (marks': map<string, nat>)
    requires i <= |schemas| && Uses(setting, opts) && WithinMax(opts, p.total) && p.checkpoint == p.world.file
    requires (forall s :: s in schemas ==> s in setting.starts) && marks.Keys == setting.starts.Keys
      && WorldHolds(setting, p.world, marks)
    ensures WorldHolds(setting, Databases(opts, setting.catalogs, p, schemas, i, fates).0.world, marks')
      && Grows(setting, marks, marks')
    decreases |schemas| - i
  {
    marks' := marks;
    if i < |schemas| {
      var next, end;
      marks', next, end := DatabaseKeeps(setting, opts, p, schemas[i], FateAt(fates, i), marks);
      if end == GoesOn {
        var middle := marks';
        marks' := DatabasesKeep(setting, opts, next, schemas, i + 1, fates, middle);
      }
    }
  }

  // ----- any number of runs, with the source writing between them -----

  datatype Turn = Runs(opts: Options, schemas: seq<string>, fates: seq<Fate>) | Writes(schema: string, upTo: nat)

  /** A run of this setting over some of its databases, or a log growing along its history. */
  ghost predicate Allowed(setting: Setting, w: World, turn: Turn) {
    match turn
    case Runs(opts, schemas, _) => Uses(setting, opts) && forall s :: s in schemas ==> s in setting.starts
    case Writes(s, upTo) =>
      s in setting.starts && s in setting.history && |LogOf(w, s).events| <= upTo <= |setting.history[s]|
  }

  predicate Resumes(turn: Turn) {
    turn.Runs? ==> turn.opts.resume
  }

  predicate AllResume(turns: seq<Turn>) {
    forall i :: 0 <= i < |turns| ==> Resumes(turns[i])
  }

  ghost function Turned(setting: Setting, w: World, turn: Turn): World
    requires Allowed(setting, w, turn)
  {
    match turn
    case Runs(opts, schemas, fates) => RunOf(opts, setting.catalogs, w, schemas, fates).0.world
    case Writes(s, upTo) => w.(logs := w.logs[s := LogOf(w, s).(events := setting.history[s][..upTo])])
  }

  ghost function Turns(setting: Setting, w: World, turns: seq<Turn>): Option<World>
    decreases |turns|
  {
    if turns == [] then Some(w)
    else
      var before, turn := Turns(setting, w, turns[..|turns| - 1]), turns[|turns| - 1];
      if before.None? || !Allowed(setting, before.value, turn) then None else Some(Turned(setting, before.value, turn))
  }

  ghost predicate GoodSetting(setting: Setting) {
    forall s {:trigger setting.starts[s]} :: s in setting.starts ==>
      s in setting.history && GoodLog(ReplayerOf(setting, s), setting.history[s], setting.starts[s])
  }

  lemma {:induction false} PrefixReplays(r: Replayer, long: seq<Event>, n: nat, a: nat, b: nat, db: Db)
    requires a <= b <= n <= |long|
    ensures Replay(r, long[..n], a, b, db) == Replay(r, long, a, b, db)
    decreases b
  {
    if a < b {
      PrefixReplays(r, long, n, a, b - 1, db);
    }
  }

  lemma {:induction false} PrefixSource(r: Replayer, long: seq<Event>, n: nat, h: nat, start: Db)
    requires h <= n <= |long|
    ensures SourceAt(r, long[..n], h, start) == SourceAt(r, long, h, start)
    decreases h
  {
    if h > 0 {
      PrefixSource(r, long, n, h - 1, start);
    }
  }

  lemma GoodPrefix(r: Replayer, long: seq<Event>, n: nat, start: Db)
    requires GoodLog(r, long, start) && n <= |long|
    ensures GoodLog(r, long[..n], start)
  {
    PrefixSource(r, long, n, n, start);
    ValidPrefix(r, long, n, |long|, start);
  }

  /** A growing log keeps the invariant. */
  lemma WriteReaches(r: Replayer, start: Db, long: seq<Event>, n: nat, upTo: nat, purged: nat, saved: nat, db: Db,
                     m: nat)
    requires GoodLog(r, long, start) && n <= upTo <= |long|
    requires Reaches(r, start, Log(long[..n], purged), saved, db, m)
    ensures Reaches(r, start, Log(long[..upTo], purged), saved, db, m)
  {
    GoodPrefix(r, long, upTo, start);
    var c := After(long[..n], saved, 0);
    if c == 0 {
      AfterIs(long[..upTo], saved, 0, 0);
    } else {
      assert long[..n][c - 1] == long[..upTo][c - 1];
      AfterOwnId(long[..upTo], c - 1);
    }
    PrefixSource(r, long, n, m, start);
    PrefixSource(r, long, upTo, m, start);
    PrefixReplays(r, long, n, c, m, db);
    PrefixReplays(r, long, upTo, c, m, db);
  }

  /** The logs hold a beginning of their history. */
  ghost predicate Written(setting: Setting, w: World) {
    forall s {:trigger LogOf(w, s)} :: s in setting.starts && s in setting.history
      ==> LogOf(w, s).events <= setting.history[s]
  }

  /** A growing log keeps the invariant of its database. */
  lemma WriteKeepsAt(r: Replayer, start: Db, long: seq<Event>, w: World, s: string, upTo: nat, w': World, m: nat)
    requires GoodLog(r, long, start) && LogOf(w, s).events <= long && |LogOf(w, s).events| <= upTo <= |long|
    requires LogOf(w', s) == LogOf(w, s).(events := long[..upTo]) && Saved(w'.file, s) == Saved(w.file, s)
      && DestOf(w', s) == DestOf(w, s)
    requires At(r, start, w, s, m)
    ensures At(r, start, w', s, m)
  {
    var log := LogOf(w, s);
    assert log == Log(long[..|log.events|], log.purged);
    WriteReaches(r, start, long, |log.events|, upTo, log.purged, Saved(w.file, s), DestOf(w, s), m);
  }

  lemma TurnKeeps(setting: Setting, w: World, turn: Turn, marks: map<string, nat>) returns (marks': map<string, nat>)
    requires GoodSetting(setting) && Allowed(setting, w, turn) && Written(setting, w) && Resumes(turn)
    requires marks.Keys == setting.starts.Keys && WorldHolds(setting, w, marks)
    ensures Grows(setting, marks, marks') && WorldHolds(setting, Turned(setting, w, turn), marks')
  {
    match turn
    case Runs(opts, schemas, fates) =>
      marks' := DatabasesKeep(setting, opts, Begin(opts, w), schemas, 0, fates, marks);
    case Writes(s, upTo) =>
      marks' := marks;
      WriteKeeps(setting, w, s, upTo, marks);
  }

  lemma WriteKeeps(setting: Setting, w: World, s: string, upTo: nat, marks: map<string, nat>)
    requires GoodSetting(setting) && Allowed(setting, w, Writes(s, upTo)) && Written(setting, w)
    requires marks.Keys == setting.starts.Keys && WorldHolds(setting, w, marks)
    ensures WorldHolds(setting, Turned(setting, w, Writes(s, upTo)), marks)
  {
    var r, start, next := ReplayerOf(setting, s), setting.starts[s], Turned(setting, w, Writes(s, upTo));
    assert At(r, start, w, s, marks[s]) && LogOf(w, s).events <= setting.history[s];
    WriteKeepsAt(r, start, setting.history[s], w, s, upTo, next, marks[s]);
    ElsewhereHolds(setting, s, w, next, marks, marks[s]);
    assert marks[s := marks[s]] == marks;
  }

  lemma DatabaseKeepsLogs(opts: Options, catalogs: map<string, Catalog>, p: CdcRun.Progress, schema: string, fate: Fate,
                          s: string)
    requires WithinMax(opts, p.total)
    ensures LogOf(OneDatabase(opts, catalogs, p, schema, fate).0.world, s).events == LogOf(p.world, s).events
  {}

  lemma {:induction false} LogsStay(opts: Options, catalogs: map<string, Catalog>, p: CdcRun.Progress,
                                    schemas: seq<string>, i: nat, fates: seq<Fate>, s: string)
    returns (after: CdcRun.Progress)
    requires i <= |schemas| && WithinMax(opts, p.total)
    ensures after == Databases(opts, catalogs, p, schemas, i, fates).0
      && LogOf(after.world, s).events == LogOf(p.world, s).events
    decreases |schemas| - i
  {
    after := p;
    if i < |schemas| {
      var (next, end) := OneDatabase(opts, catalogs, p, schemas[i], FateAt(fates, i));
      DatabaseKeepsLogs(opts, catalogs, p, schemas[i], FateAt(fates, i), s);
      after := next;
      if end == GoesOn {
        after := LogsStay(opts, catalogs, next, schemas, i + 1, fates, s);
      }
    }
  }

  lemma TurnWrites(setting: Setting, w: World, turn: Turn)
    requires Allowed(setting, w, turn) && Written(setting, w)
    ensures Written(setting, Turned(setting, w, turn))
  {
    forall s | s in setting.starts && s in setting.history
      ensures LogOf(Turned(setting, w, turn), s).events <= setting.history[s]
    {
      assert LogOf(w, s).events <= setting.history[s];
      if turn.Runs? {
        var after := LogsStay(turn.opts, setting.catalogs, Begin(turn.opts, w), turn.schemas, 0, turn.fates, s);
      }
    }
  }

  ghost predicate Fresh(setting: Setting, w: World) {
    w.file == map[] && forall s {:trigger DestOf(w, s)} :: s in setting.starts
                         ==> DestOf(w, s) == setting.starts[s] && LogOf(w, s) == Log([], 0)
  }

  /** Over any resumed runs, failures, crashes and writes, in every database nothing behind the
      checkpoint is purged, and replaying from the checkpoint leads to the source. */
  lemma {:induction false} AlwaysOnCourse(setting: Setting, w: World, turns: seq<Turn>)
    returns (marks: map<string, nat>)
    requires GoodSetting(setting) && Fresh(setting, w) && Turns(setting, w, turns).Some? && AllResume(turns)
    ensures marks.Keys == setting.starts.Keys
    ensures WorldHolds(setting, Turns(setting, w, turns).value, marks)
      && Written(setting, Turns(setting, w, turns).value)
    decreases |turns|
  {
    if turns == [] {
      marks := map s | s in setting.starts :: 0;
      forall s | s in setting.starts
        ensures At(ReplayerOf(setting, s), setting.starts[s], w, s, 0) && LogOf(w, s).events == []
      {
        assert DestOf(w, s) == setting.starts[s];
        GoodPrefix(ReplayerOf(setting, s), setting.history[s], 0, setting.starts[s]);
        assert setting.history[s][..0] == [];
      }
    } else {
      var before, turn := Turns(setting, w, turns[..|turns| - 1]).value, turns[|turns| - 1];
      var marks0 := AlwaysOnCourse(setting, w, turns[..|turns| - 1]);
      marks := TurnKeeps(setting, before, turn, marks0);
      TurnWrites(setting, before, turn);
    }
  }

  /** A batch that reads to the end of the log makes the destination equal to the source. */
  lemma CaughtUp(r: Replayer, start: Db, w: World, schema: string, m: nat)
    requires At(r, start, w, schema, m)
    ensures var log, saved := LogOf(w, schema), Saved(w.file, schema);
      var batch := Applied(r, log.events, First(log, saved), |log.events|, DestOf(w, schema), saved, None);
      !batch.stopped && Some(batch.db) == SourceAt(r, log.events, |log.events|, start)
  {
    var log, saved, db := LogOf(w, schema), Saved(w.file, schema), DestOf(w, schema);
    FirstIsAfter(log, saved);
    ReachesLater(r, start, log, saved, db, m, |log.events|);
    NeverStops(r, log.events, First(log, saved), |log.events|, db, saved, start);
    var k, j := BatchReached(r, log.events, First(log, saved), |log.events|, db, saved, None);
  }

  lemma {:induction false} NeverStops(r: Replayer, log: seq<Event>, a: nat, b: nat, db: Db, at: nat, start: Db)
    requires a <= b <= |log| && GoodLog(r, log, start)
    ensures !Applied(r, log, a, b, db, at, None).stopped
    decreases b
  {
    if a < b {
      NeverStops(r, log, a, b - 1, db, at, start);
      ValidPrefix(r, log, b, |log|, start);
    }
  }

  /** No run applies more than MaxEvents. */
  lemma {:induction false} NeverAboveMax(opts: Options, catalogs: map<string, Catalog>, p: CdcRun.Progress,
                                         schemas: seq<string>, i: nat, fates: seq<Fate>)
    requires i <= |schemas| && WithinMax(opts, p.total)
    ensures WithinMax(opts, Databases(opts, catalogs, p, schemas, i, fates).0.total)
    decreases |schemas| - i
  {
    if i < |schemas| {
      var (next, end) := OneDatabase(opts, catalogs, p, schemas[i], FateAt(fates, i));
      if end == GoesOn {
        NeverAboveMax(opts, catalogs, next, schemas, i + 1, fates);
      }
    }
  }
}
