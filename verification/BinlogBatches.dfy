/** From a stream of binlog events to the batches of statements of its committed transactions. */
module BinlogBatches {
  import opened Wrappers
  import opened SqlText
  import opened RowReplay

  /** Reads the live metadata of a table; None when the read fails. */
  type Loader = (string, string) -> Option<Metadata>

  datatype EventKind = QueryEvent | XidEvent | RowsEvent(rowKind: RowEventKind)

  datatype StreamEvent = StreamEvent(
    kind: EventKind, file: string, pos: nat, timestamp: nat,
    schema: string, table: string, query: string, rows: seq<Row>)

  datatype Options = Options(conflictPolicy: string, applyDdl: string, excludeTables: set<string>)

  datatype Payload = RowPayload(events: seq<ApplyEvent>) | DdlPayload(schema: string, query: string)

  datatype Batch = Batch(endFile: string, endPos: nat, endTimestamp: nat, payload: Payload) {
    function Count(): nat {
      if payload.RowPayload? then |payload.events| else 1
    }
  }

  datatype BuildError =
    | InvalidPolicy
    | UnsupportedQuery(event: StreamEvent)
    | UnsafeDdlWindow(ddl: StreamEvent, row: StreamEvent)
    | DdlBlocked(event: StreamEvent)
    | RiskyDdlBlocked(event: StreamEvent)
    | UnsupportedApplyDdl
    | MetadataUnavailable(event: StreamEvent)
    | CompileFailed(event: StreamEvent, error: CompileError)
    | IncompleteTransaction(file: string, pos: nat)

  /** normalizeConflictPolicy and validateConflictPolicy. */
  function ParsePolicy(value: string): Option<ConflictPolicy> {
    if TrimSpace(value) == "" || value == "fail" then Some(Fail)
    else if value == "source-wins" then Some(SourceWins)
    else if value == "dest-wins" then Some(DestWins)
    else None
  }

  function TableKey(schema: string, table: string): string {
    ToLower(schema) + "." + ToLower(table)
  }

  datatype Role = Skip | CommitPoint | RollbackPoint | RowData | DdlPoint(ddlClass: DdlClass) | Unsupported

  function RoleOf(e: StreamEvent, opts: Options): Role {
    match e.kind
    case XidEvent => CommitPoint
    case RowsEvent(_) => if TableKey(e.schema, e.table) in opts.excludeTables then Skip else RowData
    case QueryEvent =>
      match ClassifyQuery(e.query)
      case Blank => Skip
      case Begin => Skip
      case Commit => CommitPoint
      case Rollback => RollbackPoint
      case Ddl(ddlClass) => DdlPoint(ddlClass)
      case Other => Unsupported
  }

  // ----- the builder as a function of its variables -----

  datatype BuildState = BuildState(
    cache: map<string, Metadata>,
    pending: seq<ApplyEvent>, pendingFile: string, pendingPos: nat,
    batches: seq<Batch>,
    firstDdl: Option<StreamEvent>, firstRow: Option<StreamEvent>)

  const EMPTY := BuildState(map[], [], "", 0, [], None, None)

  function CommitStep(s: BuildState, e: StreamEvent): BuildState {
    if s.pending == [] then s
    else s.(batches := s.batches + [Batch(e.file, e.pos, e.timestamp, RowPayload(s.pending))],
            pending := [], pendingFile := "", pendingPos := 0)
  }

  function DdlStep(s: BuildState, e: StreamEvent, ddlClass: DdlClass, opts: Options): Result<BuildState, BuildError> {
    if s.firstRow.Some? then Err(UnsafeDdlWindow(e, s.firstRow.value))
    else
      var t := if s.firstDdl.None? then s.(firstDdl := Some(e)) else s;
      if opts.applyDdl == "ignore" then Ok(t)
      else if opts.applyDdl == "warn" then Err(DdlBlocked(e))
      else if opts.applyDdl == "apply" then
        if ddlClass != Safe then Err(RiskyDdlBlocked(e))
        else Ok(t.(batches := t.batches + [Batch(e.file, e.pos, e.timestamp, DdlPayload(e.schema, e.query))]))
      else Err(UnsupportedApplyDdl)
  }

  /** The metadata that a row event is compiled with: the cached entry, else a fresh reading. */
  function MetadataFor(cache: map<string, Metadata>, e: StreamEvent, loader: Loader): Option<Metadata> {
    var key := TableKey(e.schema, e.table);
    if key in cache then Some(cache[key]) else loader(e.schema, e.table)
  }

  function RowStep(s: BuildState, e: StreamEvent, policy: ConflictPolicy, loader: Loader): Result<BuildState,
    BuildError>
    requires e.kind.RowsEvent?
  {
    var t := if s.firstRow.None? then s.(firstRow := Some(e)) else s;
    if t.firstDdl.Some? then Err(UnsafeDdlWindow(t.firstDdl.value, e))
    else
      match MetadataFor(t.cache, e, loader)
      case None => Err(MetadataUnavailable(e))
      case Some(m) =>
        match CompileRows(e.kind.rowKind, e.schema, e.table, e.rows, m, policy)
        case Err(error) => Err(CompileFailed(e, error))
        case Ok(events) =>
          Ok(t.(cache := t.cache[TableKey(e.schema, e.table) := m], pending := t.pending + events,
            pendingFile := e.file, pendingPos := e.pos))
  }

  function Step(s: BuildState, e: StreamEvent, opts: Options, policy: ConflictPolicy,
                loader: Loader): Result<BuildState, BuildError> {
    match RoleOf(e, opts)
    case Skip => Ok(s)
    case CommitPoint => Ok(CommitStep(s, e))
    case RollbackPoint => Ok(s.(pending := [], pendingFile := "", pendingPos := 0))
    case DdlPoint(ddlClass) => DdlStep(s, e, ddlClass, opts)
    case RowData => RowStep(s, e, policy, loader)
    case Unsupported => Err(UnsupportedQuery(e))
  }

  function Fold(s: BuildState, events: seq<StreamEvent>, opts: Options, policy: ConflictPolicy,
                loader: Loader): Result<BuildState, BuildError>
    decreases |events|
  {
    if events == [] then Ok(s)
    else
      match Step(s, events[0], opts, policy, loader)
      case Err(error) => Err(error)
      case Ok(t) => Fold(t, events[1..], opts, policy, loader)
  }

  function Build(events: seq<StreamEvent>, opts: Options, loader: Loader): Result<seq<Batch>, BuildError> {
    match ParsePolicy(opts.conflictPolicy)
    case None => Err(InvalidPolicy)
    case Some(policy) =>
      match Fold(EMPTY, events, opts, policy, loader)
      case Err(error) => Err(error)
      case Ok(s) =>
        if s.pending != [] then Err(IncompleteTransaction(s.pendingFile, s.pendingPos)) else Ok(s.batches)
  }

  /** buildApplyBatches. */
  method BuildApplyBatches(events: seq<StreamEvent>, opts: Options, loader: Loader)
    returns (r: Result<seq<Batch>, BuildError>)
    ensures r == Build(events, opts, loader)
  {
    var parsed := ParsePolicy(opts.conflictPolicy);
    if parsed.None? {
      return Err(InvalidPolicy);
    }
    var policy := parsed.value;
    var cache: map<string, Metadata> := map[];
    var pending: seq<ApplyEvent> := [];
    var pendingFile, pendingPos := "", 0;
    var batches: seq<Batch> := [];
    var firstDdl, firstRow: Option<StreamEvent> := None, None;
    assert events[0..] == events;
    for i := 0 to |events|
      invariant Fold(BuildState(cache, pending, pendingFile, pendingPos, batches, firstDdl, firstRow), events[i..],
        opts, policy, loader)
        == Fold(EMPTY, events, opts, policy, loader)
    {
      var event := events[i];
      ghost var s := BuildState(cache, pending, pendingFile, pendingPos, batches, firstDdl, firstRow);
      assert events[i..][0] == event && events[i..][1..] == events[i + 1..];
      match RoleOf(event, opts) {
        case Skip =>
        case CommitPoint =>
          if pending != [] {
            batches := batches + [Batch(event.file, event.pos, event.timestamp, RowPayload(pending))];
            pending, pendingFile, pendingPos := [], "", 0;
          }
        case RollbackPoint =>
          pending, pendingFile, pendingPos := [], "", 0;
        case Unsupported =>
          return Err(UnsupportedQuery(event));
        case DdlPoint(ddlClass) =>
          if firstRow.Some? {
            return Err(UnsafeDdlWindow(event, firstRow.value));
          }
          if firstDdl.None? {
            firstDdl := Some(event);
          }
          if opts.applyDdl == "ignore" {
          } else if opts.applyDdl == "warn" {
            return Err(DdlBlocked(event));
          } else if opts.applyDdl == "apply" {
            if ddlClass != Safe {
              return Err(RiskyDdlBlocked(event));
            }
            batches := batches + [Batch(event.file, event.pos, event.timestamp, DdlPayload(event.schema, event.query))];
          } else {
            return Err(UnsupportedApplyDdl);
          }
        case RowData =>
          if firstRow.None? {
            firstRow := Some(event);
          }
          if firstDdl.Some? {
            return Err(UnsafeDdlWindow(firstDdl.value, event));
          }
          var key := TableKey(event.schema, event.table);
          if key !in cache {
            var loaded := loader(event.schema, event.table);
            if loaded.None? {
              return Err(MetadataUnavailable(event));
            }
            cache := cache[key := loaded.value];
          }
          assert cache == cache[key := cache[key]];
          var compiled := SqlEventsForRows(event.kind.rowKind, event.schema, event.table, event.rows, cache[key],
            policy);
          if compiled.Err? {
            return Err(CompileFailed(event, compiled.error));
          }
          pending, pendingFile, pendingPos := pending + compiled.value, event.file, event.pos;
      }
      assert Step(s, event, opts, policy, loader)
        == Ok(BuildState(cache, pending, pendingFile, pendingPos, batches, firstDdl, firstRow));
    }
    if pending != [] {
      return Err(IncompleteTransaction(pendingFile, pendingPos));
    }
    return Ok(batches);
  }
}
