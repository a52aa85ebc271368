/** Policy fail over runs: once an INSERT meets a row that its own earlier application left, every
    later resumed run fails there. */
module CdcBlocked {
  import opened Wrappers
  import opened CdcReplay
  import opened CdcKeyChange
  import opened CdcRun
  import opened CdcConvergence
  import opened CdcSafety
  import opened CdcProgress

  /** Event i, still to be read, inserts a row where there is one, and no event in front of it that
      is still to be read touches that row. */
  ghost predicate Blocked(r: Replayer, log: Log, saved: nat, db: Db, i: nat) {
    && Increasing(log.events) && log.purged <= |log.events| && First(log, saved) <= i < |log.events|
    && BlockedFrom(r, log.events, First(log, saved), db, i)
  }

  ghost predicate BlockedFrom(r: Replayer, log: seq<Event>, q: nat, db: Db, i: nat)
    requires q <= i < |log|
  {
    && r.keeps(log[i]) && Decode(r.catalog, log[i]).Ok? && Decode(r.catalog, log[i]).value.Put?
    && Decode(r.catalog, log[i]).value.at in db
    && forall j {:trigger log[j]} :: q <= j < i ==> !Concerns(r, log[j], Decode(r.catalog, log[i]).value.at)
  }

  // ----- one batch -----

  /** The row stays, and the batch gets no further than event i. */
  lemma {:induction false} BatchStays(r: Replayer, log: seq<Event>, a: nat, c: nat, db: Db, at: nat, stop: Option<nat>,
                                      i: nat) returns (k: nat)
    requires r.policy == R.Fail && a <= c <= |log| && a <= i < |log| && BlockedFrom(r, log, a, db, i)
    ensures var batch := Applied(r, log, a, c, db, at, stop);
      && BlockedFrom(r, log, a, batch.db, i) && (i < c ==> batch.stopped)
      && a <= k <= c && k <= i && (batch.applied > 0 <==> a < k) && (a < k ==> batch.at == log[k - 1].id)
    decreases c
  {
    if a == c {
      return a;
    }
    k := BatchStays(r, log, a, c - 1, db, at, stop, i);
    var before, after := Applied(r, log, a, c - 1, db, at, stop), Applied(r, log, a, c, db, at, stop);
    assert c - 1 < i ==> !Concerns(r, log[c - 1], Decode(r.catalog, log[i]).value.at);
    if after.applied > before.applied {
      k := c;
    }
  }

  lemma BehindLast(log: Log, saved: nat, k: nat)
    requires Increasing(log.events) && log.purged < k <= |log.events|
    ensures First(log, log.events[k - 1].id) == k
  {
    AfterIs(log.events, log.events[k - 1].id, log.purged, k);
  }

  /** Whatever becomes of the batch and of its save. */
  lemma FinishBlocked(r: Replayer, p: CdcRun.Progress, schema: string, c: nat, fate: Fate, i: nat)
    requires r.policy == R.Fail && p.checkpoint == p.world.file
    requires var log, saved := LogOf(p.world, schema), Saved(p.checkpoint, schema);
      Blocked(r, log, saved, DestOf(p.world, schema), i) && First(log, saved) <= c <= |log.events|
    ensures var log, saved := LogOf(p.world, schema), Saved(p.checkpoint, schema);
      var batch := Applied(r, log.events, First(log, saved), c, DestOf(p.world, schema), saved, StopOf(fate));
      var next := Finish(p, schema, log, batch, fate).0.world;
      Blocked(r, LogOf(next, schema), Saved(next.file, schema), DestOf(next, schema), i)
  {
    var log, saved, db := LogOf(p.world, schema), Saved(p.checkpoint, schema), DestOf(p.world, schema);
    var q := First(log, saved);
    var batch := Applied(r, log.events, q, c, db, saved, StopOf(fate));
    var k := BatchStays(r, log.events, q, c, db, saved, StopOf(fate), i);
    if batch.applied == 0 {
      var n, j := BatchReached(r, log.events, q, c, db, saved, StopOf(fate));
    }
    FinishViews(p, schema, batch, fate);
    ReadsOn(log, saved, q, k);
    PurgeKeepsFirst(log, saved);
    if q < k {
      PurgeKeepsFirst(log, batch.at);
    }
  }

  /** The next read starts behind the last applied event. */
  lemma ReadsOn(log: Log, saved: nat, q: nat, k: nat)
    requires Increasing(log.events) && log.purged <= |log.events| && q == First(log, saved) && q <= k <= |log.events|
    ensures q < k ==> First(log, log.events[k - 1].id) == k
  {
    if q < k {
      BehindLast(log, saved, k);
    }
  }

  // ----- any number of runs -----

  ghost predicate BlockedAt(r: Replayer, w: World, schema: string, i: nat) {
    Blocked(r, LogOf(w, schema), Saved(w.file, schema), DestOf(w, schema), i)
  }

  lemma DatabaseBlocked(setting: Setting, opts: Options, p: CdcRun.Progress, schema: string, fate: Fate, s: string,
                        i: nat)
    returns (next: CdcRun.Progress, end: End)
    requires Uses(setting, opts) && setting.policy == R.Fail && WithinMax(opts, p.total) && p.checkpoint == p.world.file
    requires BlockedAt(ReplayerOf(setting, s), p.world, s, i)
    ensures (next, end) == OneDatabase(opts, setting.catalogs, p, schema, fate)
    ensures BlockedAt(ReplayerOf(setting, s), next.world, s, i) && (end != Error ==> next.checkpoint == next.world.file)
  {
    var b := DatabaseIs(setting, opts, p, schema, fate);
    next, end := OneDatabase(opts, setting.catalogs, p, schema, fate).0,
      OneDatabase(opts, setting.catalogs, p, schema, fate).1;
    if b.Some? {
      var log, saved := LogOf(p.world, schema), Saved(p.checkpoint, schema);
      var batch := Applied(ReplayerOf(setting, schema), log.events, First(log, saved), b.value, DestOf(p.world, schema),
        saved, StopOf(fate));
      FinishLevel(p, schema, log, batch, fate);
      if s == schema {
        FinishBlocked(ReplayerOf(setting, s), p, s, b.value, fate, i);
      } else {
        FinishElsewhere(p, schema, log, batch, fate);
      }
    }
  }

  lemma {:induction false} DatabasesBlocked(setting: Setting, opts: Options, p: CdcRun.Progress, schemas: seq<string>,
                                            n: nat, fates: seq<Fate>, s: string, i: nat)
    returns (after: CdcRun.Progress)
    requires n <= |schemas| && Uses(setting, opts) && setting.policy == R.Fail && WithinMax(opts, p.total)
      && p.checkpoint == p.world.file
    requires BlockedAt(ReplayerOf(setting, s), p.world, s, i)
    ensures after == Databases(opts, setting.catalogs, p, schemas, n, fates).0
      && BlockedAt(ReplayerOf(setting, s), after.world, s, i)
    decreases |schemas| - n
  {
    after := p;
    if n < |schemas| {
      var next, end := DatabaseBlocked(setting, opts, p, schemas[n], FateAt(fates, n), s, i);
      after := next;
      if end == GoesOn {
        after := DatabasesBlocked(setting, opts, next, schemas, n + 1, fates, s, i);
      }
    }
  }

  lemma GrowBlocked(r: Replayer, log: Log, more: Log, saved: nat, db: Db, i: nat)
    requires Blocked(r, log, saved, db, i) && Increasing(more.events) && log.events <= more.events
      && more.purged == log.purged
    ensures Blocked(r, more, saved, db, i)
  {
    var q := First(log, saved);
    assert forall j :: 0 <= j < |log.events| ==> log.events[j] == more.events[j];
    AfterSplits(log.events, saved, log.purged);
    AfterIs(more.events, saved, log.purged, q);
  }

  lemma TurnBlocked(setting: Setting, w: World, turn: Turn, s: string, i: nat)
    requires setting.policy == R.Fail && Allowed(setting, w, turn) && Resumes(turn) && Written(setting, w)
    requires s in setting.starts && s in setting.history && Increasing(setting.history[s])
    requires BlockedAt(ReplayerOf(setting, s), w, s, i)
    ensures BlockedAt(ReplayerOf(setting, s), Turned(setting, w, turn), s, i)
  {
    if turn.Runs? {
      var after := DatabasesBlocked(setting, turn.opts, Begin(turn.opts, w), turn.schemas, 0, turn.fates, s, i);
    } else {
      assert LogOf(w, s).events <= setting.history[s];
      GrowBlocked(ReplayerOf(setting, s), LogOf(w, s), LogOf(Turned(setting, w, turn), s), Saved(w.file, s),
        DestOf(w, s), i);
    }
  }

  /** For good: over any resumed runs with any limits, failures, crashes and writes, the row stays,
      and the checkpoint stays in front of the event. */
  lemma {:induction false} BlockedForGood(setting: Setting, w: World, turns: seq<Turn>, s: string, i: nat)
    requires setting.policy == R.Fail && Turns(setting, w, turns).Some? && AllResume(turns) && Written(setting, w)
    requires s in setting.starts && s in setting.history && Increasing(setting.history[s])
    requires BlockedAt(ReplayerOf(setting, s), w, s, i)
    ensures BlockedAt(ReplayerOf(setting, s), Turns(setting, w, turns).value, s, i)
      && Written(setting, Turns(setting, w, turns).value)
    decreases |turns|
  {
    if turns != [] {
      var last := |turns| - 1;
      assert Resumes(turns[last]) && AllResume(turns[..last]);
      BlockedForGood(setting, w, turns[..last], s, i);
      var before := Turns(setting, w, turns[..last]).value;
      TurnBlocked(setting, before, turns[last], s, i);
      TurnWrites(setting, before, turns[last]);
    }
  }

  // ----- when a run leaves such an event -----

  lemma TouchedStep(policy: R.ConflictPolicy, op: Op, db: Db, db': Db, source: Db, source': Db, at: Address)
    requires Exec(policy, db, op) == Ok(db') && SourceStep(source, op) == Some(source')
    requires op.at == at || (at in db ==> at in source)
    ensures at in db' ==> at in source'
  {}

  /** An address that an event concerned holds a row in the replay only if it does in the source. */
  lemma {:induction false} TouchedFollows(r: Replayer, log: seq<Event>, a: nat, b: nat, start: Db, db: Db, at: Address,
                                          t: nat)
    requires a <= t < b <= |log| && ValidLog(r, log, start) && Replay(r, log, a, b, db).Ok? && Concerns(r, log[t], at)
    ensures SourceAt(r, log, b, start).Some?
    ensures at in Replay(r, log, a, b, db).value ==> at in SourceAt(r, log, b, start).value
    decreases b
  {
    ValidPrefix(r, log, b, |log|, start);
    ValidPrefix(r, log, b - 1, |log|, start);
    if t < b - 1 {
      TouchedFollows(r, log, a, b - 1, start, db, at, t);
    }
    if r.keeps(log[b - 1]) {
      TouchedStep(r.policy, Decode(r.catalog, log[b - 1]).value, Replay(r, log, a, b - 1, db).value,
        Replay(r, log, a, b, db).value,
                  SourceAt(r, log, b - 1, start).value, SourceAt(r, log, b, start).value, at);
    }
  }

  /** Where a batch stops for an error. */
  lemma {:induction false} StopsAt(r: Replayer, log: seq<Event>, a: nat, c: nat, db: Db, at: nat) returns (i: nat)
    requires a <= c <= |log| && Applied(r, log, a, c, db, at, None).stopped
    ensures a <= i < c && r.keeps(log[i])
    ensures var batch := Applied(r, log, a, c, db, at, None);
      Replay(r, log, a, i, db) == Ok(batch.db) && ApplyEvent(r.policy, r.catalog, batch.db, log[i]).Err?
    decreases c
  {
    if Applied(r, log, a, c - 1, db, at, None).stopped {
      i := StopsAt(r, log, a, c - 1, db, at);
    } else {
      i := c - 1;
      StopsIff(r, log, a, c - 1, db, at);
    }
  }

  /** A batch that stops on an INSERT leaves the destination blocked there. */
  lemma StopBlocks(r: Replayer, log: seq<Event>, a: nat, i: nat, start: Db, db: Db, after: Db)
    requires a <= i < |log| && ValidLog(r, log, start) && r.policy == R.Fail && r.keeps(log[i])
    requires Replay(r, log, a, i, db) == Ok(after) && ApplyEvent(r.policy, r.catalog, after, log[i]).Err?
    requires Decode(r.catalog, log[i]).Ok? && Decode(r.catalog, log[i]).value.Put?
    ensures BlockedFrom(r, log, a, after, i)
  {
    ValidPrefix(r, log, i, |log|, start);
    ValidPrefix(r, log, i + 1, |log|, start);
    var at := Decode(r.catalog, log[i]).value.at;
    forall j | a <= j < i
      ensures !Concerns(r, log[j], at)
    {
      if Concerns(r, log[j], at) {
        TouchedFollows(r, log, a, i, start, db, at, j);
      }
    }
  }

  lemma InsertFails(r: Replayer, log: seq<Event>, i: nat, start: Db, db: Db)
    requires i < |log| && ValidLog(r, log, start) && KeyPreserving(r, log) && r.keeps(log[i])
    requires ApplyEvent(r.policy, r.catalog, db, log[i]).Err?
    ensures Decode(r.catalog, log[i]).Ok? && Decode(r.catalog, log[i]).value.Put?
  {
    ValidPrefix(r, log, i + 1, |log|, start);
  }

  /** Under policy fail, on a key-preserving log: an undisturbed run fails on its batch [q, c) exactly
      when it leaves the destination blocked at an event of the batch, and so for good. */
  lemma FailsForGoodIff(opts: Options, catalogs: map<string, Catalog>, p: CdcRun.Progress, schema: string, start: Db)
    requires WithinMax(opts, p.total) && p.checkpoint == p.world.file && opts.policy == R.Fail
    requires var r, log := ReplayerFor(opts, catalogs, schema), LogOf(p.world, schema);
      && GoodIds(log.events) && log.purged <= |log.events|
      && ValidLog(r, log.events, start) && KeyPreserving(r, log.events)
    ensures var r, next := ReplayerFor(opts, catalogs, schema), OneDatabase(opts, catalogs, p, schema, Goes).0.world;
      match BatchOf(opts, p, schema)
      case None => true
      case Some((q, c)) =>
        Collision(r, LogOf(p.world, schema).events, q, c, DestOf(p.world, schema).Keys)
        <==> exists i: nat :: i < c && BlockedAt(r, next, schema, i)
  {
    var r, log, saved, db := ReplayerFor(opts, catalogs, schema), LogOf(p.world, schema), Saved(p.world.file, schema),
      DestOf(p.world, schema);
    var read := BatchOf(opts, p, schema);
    if read.Some? {
      var (q, c) := read.value;
      var batch := Applied(r, log.events, q, c, db, saved, None);
      BatchMoves(r, log, saved, db, q, c, start);
      var next := Finish(p, schema, log, batch, Goes).0.world;
      assert next == OneDatabase(opts, catalogs, p, schema, Goes).0.world;
      AfterBatch(r, p, schema, q, c, batch);
      if batch.stopped {
        var i := StopsAt(r, log.events, q, c, db, saved);
        InsertFails(r, log.events, i, start, batch.db);
        StopBlocks(r, log.events, q, i, start, db, batch.db);
        assert BlockedAt(r, next, schema, i);
      }
    }
  }

  /** The next read behind an undisturbed batch. */
  lemma AfterBatch(r: Replayer, p: CdcRun.Progress, schema: string, q: nat, c: nat, batch: Batch)
    requires p.checkpoint == p.world.file
    requires var log, saved := LogOf(p.world, schema), Saved(p.world.file, schema);
      && GoodIds(log.events) && log.purged <= |log.events| && q == First(log, saved) && q <= c <= |log.events|
      && batch == Applied(r, log.events, q, c, DestOf(p.world, schema), saved, None)
    ensures var log, next := LogOf(p.world, schema), Finish(p, schema, LogOf(p.world, schema), batch, Goes).0.world;
      && DestOf(next, schema) == batch.db && LogOf(next, schema).events == log.events
         && LogOf(next, schema).purged <= |log.events|
      && (if batch.stopped then PositionOf(next, schema) == q
          else PositionOf(next, schema) <= c && !KeepsOne(r, log.events, PositionOf(next, schema), c))
  {
    var log, saved, db := LogOf(p.world, schema), Saved(p.world.file, schema), DestOf(p.world, schema);
    var k, j := BatchReached(r, log.events, q, c, db, saved, None);
    FinishViews(p, schema, batch, Goes);
    ReadsOn(log, saved, q, k);
    PurgeKeepsFirst(log, saved);
    if q < k {
      PurgeKeepsFirst(log, batch.at);
    }
  }
}
