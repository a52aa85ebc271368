/** The chunked table hash of verify, and the verdict built on it. SHA-256 and the JSON form
    of a row are taken as injective: a digest is modelled by what was hashed. */
module TableHash {
  import opened Ordering
  import opened Wrappers
  import opened Decimal
  import opened Keyset

  /** A row after value normalisation: one text per column. */
  type Canonical = seq<string>

  datatype Item = Byte(c: char) | Sum(digest: Digest)

  datatype Digest = RowSum(row: Canonical) | Sha(content: seq<Item>)

  datatype Mode = Hash | FullHash

  const DEFAULT_CHUNK_SIZE := 2000

  function ModeName(mode: Mode): string {
    match mode
    case Hash => "hash"
    case FullHash => "full-hash"
  }

  function Text(s: string): seq<Item> {
    seq(|s|, i requires 0 <= i < |s| => Byte(s[i]))
  }

  // ----- what is written into the hashers -----

  function RowItems(row: Canonical): seq<Item> {
    Text("r:") + [Sum(RowSum(row))] + Text("\n")
  }

  function ChunkRowItems(row: Canonical): seq<Item> {
    [Sum(RowSum(row))] + Text("\n")
  }

  /** The rows from a up to b, written into the table's hasher or into a chunk's. */
  function Written(mode: Mode, rows: seq<Canonical>, a: nat, b: nat): seq<Item>
    requires a <= b <= |rows|
    decreases b
  {
    if a == b then []
    else Written(mode, rows, a, b - 1) + if mode == Hash then RowItems(rows[b - 1]) else ChunkRowItems(rows[b - 1])
  }

  function ChunkHead(index: nat, size: nat): string {
    "chunk:" + Format(index) + " rows:" + Format(size) + " digest:"
  }

  /** What one chunk adds to the table's hasher. */
  function ChunkItems(mode: Mode, index: nat, rows: seq<Canonical>, a: nat, b: nat): seq<Item>
    requires a <= b <= |rows|
  {
    if mode == Hash then Written(mode, rows, a, b)
    else Text(ChunkHead(index, b - a)) + [Sum(Sha(Written(mode, rows, a, b)))] + Text("\n")
  }

  function ChunkWriter(mode: Mode, rows: seq<Canonical>): (nat, nat, nat) -> seq<Item> {
    (index: nat, a: nat, b: nat) => if a <= b <= |rows| then ChunkItems(mode, index, rows, a, b) else []
  }

  /** What the chunks from row q on add, when a chunk adds emit(index, from, to). */
  function Chunked<T>(emit: (nat, nat, nat) -> seq<T>, total: nat, n: nat, q: nat, index: nat): seq<T>
    requires n >= 1 && q <= total
    decreases total - q
  {
    if q == total then []
    else
      var end := q + PageSize(total, n, q);
      emit(index, q, end) + Chunked(emit, total, n, end, index + 1)
  }

  function TrailerText(mode: Mode, rows: nat, chunks: nat): string {
    "mode:" + ModeName(mode) + " rows:" + Format(rows) + " chunks:" + Format(chunks) + "\n"
  }

  /** The hash of a table with the given canonical rows in key order. */
  function TableDigest(mode: Mode, rows: seq<Canonical>, n: nat): Digest
    requires n >= 1
  {
    Sha(Chunked(ChunkWriter(mode, rows), |rows|, n, 0, 0) + Text(TrailerText(mode, |rows|, Chunks(|rows|, n))))
  }

  function CanonicalRows(rows: seq<Row>, normalize: Row -> Canonical): (r: seq<Canonical>)
    ensures |r| == |rows|
  {
    seq(|rows|, i requires 0 <= i < |rows| => normalize(rows[i]))
  }

  /** The inner loop: hashes the rows of one chunk, which is the page from row q on. */
  method HashChunk(page: seq<Row>, normalize: Row -> Canonical, mode: Mode, tableHasher: seq<Item>,
                   ghost rows: seq<Canonical>, ghost q: nat)
    returns (tableHasher': seq<Item>, chunkHasher: seq<Item>)
    requires q + |page| <= |rows| && forall i :: 0 <= i < |page| ==> rows[q + i] == normalize(page[i])
    ensures mode == Hash ==> tableHasher' == tableHasher + Written(mode, rows, q, q + |page|)
    ensures mode == FullHash ==> tableHasher' == tableHasher && chunkHasher == Written(mode, rows, q, q + |page|)
  {
    tableHasher', chunkHasher := tableHasher, [];
    for i := 0 to |page|
      invariant mode == Hash ==> tableHasher' == tableHasher + Written(mode, rows, q, q + i)
      invariant mode == FullHash ==> tableHasher' == tableHasher && chunkHasher == Written(mode, rows, q, q + i)
    {
      var row := normalize(page[i]);
      if mode == Hash {
        AppendAssociative(tableHasher, Written(mode, rows, q, q + i), RowItems(row));
        tableHasher' := tableHasher' + RowItems(row);
      } else {
        chunkHasher := chunkHasher + ChunkRowItems(row);
      }
    }
  }

  /** One chunk, as the loop of hashChunkedTable writes it. */
  method WriteChunk(page: seq<Row>, normalize: Row -> Canonical, mode: Mode, index: nat, tableHasher: seq<Item>,
                    ghost rows: seq<Canonical>, ghost q: nat)
    returns (tableHasher': seq<Item>)
    requires q + |page| <= |rows| && forall i :: 0 <= i < |page| ==> rows[q + i] == normalize(page[i])
    ensures tableHasher' == tableHasher + ChunkItems(mode, index, rows, q, q + |page|)
  {
    var chunkHasher;
    tableHasher', chunkHasher := HashChunk(page, normalize, mode, tableHasher, rows, q);
    if mode == FullHash {
      tableHasher' := tableHasher' + (Text(ChunkHead(index, |page|)) + [Sum(Sha(chunkHasher))] + Text("\n"));
    }
  }

  /** What is written up to row q and what the rows left will add make up the whole. */
  ghost predicate Halfway(whole: seq<Item>,
                          emit: (nat, nat, nat) -> seq<Item>, total: nat, n: nat, q: nat, tableHasher: seq<Item>,
                            chunks: nat)
    requires n >= 1 && q <= total
  {
    tableHasher + Chunked(emit, total, n, q, chunks) == whole
  }

  lemma ChunkKeepsHalfway(whole: seq<Item>, emit: (nat, nat, nat) -> seq<Item>, total: nat, n: nat, q: nat,
                          tableHasher: seq<Item>, chunks: nat)
    requires n >= 1 && q < total && Halfway(whole, emit, total, n, q, tableHasher, chunks)
    ensures var end := q + PageSize(total, n, q);
      Halfway(whole, emit, total, n, end, tableHasher + emit(chunks, q, end), chunks + 1)
  {
    var end := q + PageSize(total, n, q);
    AppendAssociative(tableHasher, emit(chunks, q, end), Chunked(emit, total, n, end, chunks + 1));
  }

  ghost predicate Normalized(rows: seq<Row>, normalize: Row -> Canonical, canonical: seq<Canonical>) {
    |canonical| == |rows| && forall i {:trigger normalize(rows[i])} :: 0 <= i < |rows|
                               ==> canonical[i] == normalize(rows[i])
  }

  ghost predicate Emits(emit: (nat, nat, nat) -> seq<Item>, mode: Mode, rows: seq<Canonical>) {
    forall i: nat, a: nat, b: nat {:trigger ChunkItems(mode, i, rows, a, b)} :: a <= b <= |rows|
      ==> emit(i, a, b) == ChunkItems(mode, i, rows, a, b)
  }

  /** The body of the chunk loop: reads the next page and writes it as a chunk. */
  method NextChunk(rows: seq<Row>, cols: KeyColumns, cursor: Option<Key>, n: nat, mode: Mode,
                   normalize: Row -> Canonical,
                   chunks: nat, tableHasher: seq<Item>,
                   ghost canonical: seq<Canonical>, ghost emit: (nat, nat, nat) -> seq<Item>, ghost q: nat)
    returns (chunkRows: nat, lastKey: Option<Key>, tableHasher': seq<Item>)
    requires KeyOrdered(rows, cols) && n >= 1 && q == Position(rows, cols, cursor)
    requires Normalized(rows, normalize, canonical) && Emits(emit, mode, canonical)
    ensures chunkRows == PageSize(|rows|, n, q)
    ensures chunkRows > 0 ==>
              Position(rows, cols, lastKey) == q + chunkRows
                && tableHasher' == tableHasher + emit(chunks, q, q + chunkRows)
    ensures chunkRows == 0 ==> tableHasher' == tableHasher
  {
    var page;
    page, lastKey := ReadPage(rows, cols, cursor, n);
    if page == [] {
      return 0, None, tableHasher;
    }
    PageNormalized(rows, normalize, canonical, q, page);
    tableHasher' := WriteChunk(page, normalize, mode, chunks, tableHasher, canonical, q);
    chunkRows := |page|;
  }

  lemma PageNormalized(rows: seq<Row>, normalize: Row -> Canonical, canonical: seq<Canonical>, q: nat, page: seq<Row>)
    requires Normalized(rows, normalize, canonical) && q + |page| <= |rows| && page == rows[q..q + |page|]
    ensures forall i :: 0 <= i < |page| ==> canonical[q + i] == normalize(page[i])
  {
    forall i | 0 <= i < |page|
      ensures canonical[q + i] == normalize(page[i])
    {
      assert page[i] == rows[q + i];
      assert canonical[q + i] == normalize(rows[q + i]);
    }
  }

  ghost predicate Counted(total: nat, n: nat, q: nat, chunks: nat)
    requires n >= 1 && q <= total
  {
    chunks + Chunks(total - q, n) == Chunks(total, n)
  }

  lemma CountedOneMore(total: nat, n: nat, q: nat, chunks: nat)
    requires n >= 1 && q <= total && Counted(total, n, q, chunks)
    ensures q < total ==> Counted(total, n, q + PageSize(total, n, q), chunks + 1)
  {}

  lemma NothingWritten(emit: (nat, nat, nat) -> seq<Item>, total: nat, n: nat)
    requires n >= 1
    ensures Halfway(Chunked(emit, total, n, 0, 0), emit, total, n, 0, [], 0) && Counted(total, n, 0, 0)
  {
    assert [] + Chunked(emit, total, n, 0, 0) == Chunked(emit, total, n, 0, 0);
  }

  lemma AllWritten(whole: seq<Item>, emit: (nat, nat, nat) -> seq<Item>, total: nat, n: nat, tableHasher: seq<Item>,
                   chunks: nat)
    requires n >= 1 && Halfway(whole, emit, total, n, total, tableHasher, chunks) && Counted(total, n, total, chunks)
    ensures tableHasher == whole && chunks == Chunks(total, n)
  {
    assert tableHasher + [] == tableHasher;
  }

  /** The chunk loop of hashChunkedTable. */
  method WriteChunks(rows: seq<Row>, cols: KeyColumns, n: nat, mode: Mode, normalize: Row -> Canonical,
                     ghost canonical: seq<Canonical>, ghost emit: (nat, nat, nat) -> seq<Item>)
    returns (tableHasher: seq<Item>, totalRows: nat, chunks: nat)
    requires KeyOrdered(rows, cols) && n >= 1
    requires Normalized(rows, normalize, canonical) && Emits(emit, mode, canonical)
    ensures tableHasher == Chunked(emit, |rows|, n, 0, 0) && totalRows == |rows| && chunks == Chunks(|rows|, n)
  {
    var cursor: Option<Key> := None;
    tableHasher, totalRows, chunks := [], 0, 0;
    ghost var whole := Chunked(emit, |rows|, n, 0, 0);
    NothingWritten(emit, |rows|, n);
    StartsAtZero(rows, cols);
    while true
      invariant totalRows == Position(rows, cols, cursor)
      invariant Halfway(whole, emit, |rows|, n, totalRows, tableHasher, chunks)
      invariant Counted(|rows|, n, totalRows, chunks)
      decreases |rows| - totalRows
    {
      CountedOneMore(|rows|, n, totalRows, chunks);
      var chunkRows, lastKey, written :=
        NextChunk(rows, cols, cursor, n, mode, normalize, chunks, tableHasher, canonical, emit, totalRows);
      if chunkRows == 0 {
        break;
      }
      ChunkKeepsHalfway(whole, emit, |rows|, n, totalRows, tableHasher, chunks);
      tableHasher := written;
      totalRows := totalRows + chunkRows;
      chunks := chunks + 1;
      cursor := lastKey;
      if chunkRows < n {
        break;
      }
    }
    AllWritten(whole, emit, |rows|, n, tableHasher, chunks);
  }

  /** hashChunkedTable, on the rows that the queries read, in key order. */
  method HashChunkedTable(rows: seq<Row>, cols: KeyColumns, size: int, mode: Mode, normalize: Row -> Canonical)
    returns (digest: Digest)
    requires KeyOrdered(rows, cols)
    ensures digest == TableDigest(mode, CanonicalRows(rows, normalize), if size < 1 then DEFAULT_CHUNK_SIZE else size)
  {
    var n: nat := if size < 1 then DEFAULT_CHUNK_SIZE else size;
    ghost var canonical := CanonicalRows(rows, normalize);
    var tableHasher, totalRows,
      chunks := WriteChunks(rows, cols, n, mode, normalize, canonical, ChunkWriter(mode, canonical));
    digest := Sha(tableHasher + Text(TrailerText(mode, totalRows, chunks)));
  }

  // ----- the hash determines the rows -----

  /** The digests among the first k written items, in order. */
  function DigestsTo(items: seq<Item>, k: nat): seq<Digest>
    requires k <= |items|
  {
    if k == 0 then []
    else DigestsTo(items, k - 1) + if items[k - 1].Sum? then [items[k - 1].digest] else []
  }

  function Digests(items: seq<Item>): seq<Digest> {
    DigestsTo(items, |items|)
  }

  lemma {:induction false} DigestsPrefix(a: seq<Item>, b: seq<Item>, k: nat)
    requires k <= |a|
    ensures DigestsTo(a + b, k) == DigestsTo(a, k)
  {
    if k > 0 {
      DigestsPrefix(a, b, k - 1);
    }
  }

  lemma {:induction false} DigestsAppend(a: seq<Item>, b: seq<Item>, k: nat)
    requires k <= |b|
    ensures DigestsTo(a + b, |a| + k) == Digests(a) + DigestsTo(b, k)
  {
    if k == 0 {
      DigestsPrefix(a, b, |a|);
    } else {
      DigestsAppend(a, b, k - 1);
    }
  }

  lemma Appended(a: seq<Item>, b: seq<Item>)
    ensures Digests(a + b) == Digests(a) + Digests(b)
  {
    DigestsAppend(a, b, |b|);
  }

  lemma {:induction false} NoDigestInText(s: string, k: nat)
    requires k <= |s|
    ensures DigestsTo(Text(s), k) == []
  {
    if k > 0 {
      NoDigestInText(s, k - 1);
    }
  }

  /** One digest between two texts. */
  lemma OneDigest(s: string, d: Digest, t: string)
    ensures Digests(Text(s) + [Sum(d)] + Text(t)) == [d]
  {
    Appended(Text(s) + [Sum(d)], Text(t));
    Appended(Text(s), [Sum(d)]);
    NoDigestInText(s, |s|);
    NoDigestInText(t, |t|);
    assert DigestsTo([Sum(d)], 0) == [];
  }

  function RowSums(rows: seq<Canonical>, a: nat, b: nat): (r: seq<Digest>)
    requires a <= b <= |rows|
    ensures |r| == b - a && forall i :: 0 <= i < b - a ==> r[i] == RowSum(rows[a + i])
  {
    seq(b - a, i requires 0 <= i < b - a => RowSum(rows[a + i]))
  }

  lemma RowDigest(mode: Mode, row: Canonical)
    ensures Digests(if mode == Hash then RowItems(row) else ChunkRowItems(row)) == [RowSum(row)]
  {
    OneDigest("r:", RowSum(row), "\n");
    OneDigest("", RowSum(row), "\n");
    assert Text("") + [Sum(RowSum(row))] == [Sum(RowSum(row))];
  }

  lemma {:induction false} RowDigests(mode: Mode, rows: seq<Canonical>, a: nat, b: nat)
    requires a <= b <= |rows|
    ensures Digests(Written(mode, rows, a, b)) == RowSums(rows, a, b)
    decreases b
  {
    if a < b {
      RowDigests(mode, rows, a, b - 1);
      Appended(Written(mode, rows, a, b - 1), if mode == Hash then RowItems(rows[b - 1])
        else ChunkRowItems(rows[b - 1]));
      RowDigest(mode, rows[b - 1]);
    }
  }

  /** The digests that one chunk shows. */
  function ChunkShows(mode: Mode, rows: seq<Canonical>): (nat, nat, nat) -> seq<Digest> {
    (index: nat, a: nat, b: nat) =>
      if !(a <= b <= |rows|) then [] else if mode == Hash then RowSums(rows, a, b) else [Sha(Written(mode, rows, a, b))]
  }

  /** The digests that show in the content of a table's hash. */
  function Shown(mode: Mode, rows: seq<Canonical>, n: nat): seq<Digest>
    requires n >= 1
  {
    Chunked(ChunkShows(mode, rows), |rows|, n, 0, 0)
  }

  lemma ChunkDigests(mode: Mode, index: nat, rows: seq<Canonical>, a: nat, b: nat)
    ensures Digests(ChunkWriter(mode, rows)(index, a, b)) == ChunkShows(mode, rows)(index, a, b)
  {
    if a <= b <= |rows| {
      if mode == Hash {
        RowDigests(mode, rows, a, b);
      } else {
        OneDigest(ChunkHead(index, b - a), Sha(Written(mode, rows, a, b)), "\n");
      }
    }
  }

  ghost predicate Additive(read: seq<Item> -> seq<Digest>) {
    read([]) == [] && forall a, b {:trigger read(a + b)} :: read(a + b) == read(a) + read(b)
  }

  /** An additive reading of the whole is made up of its readings of the chunks. */
  lemma {:induction false} ReadChunked(read: seq<Item> -> seq<Digest>, emit: (nat, nat, nat) -> seq<Item>,
                                       shows: (nat, nat, nat) -> seq<Digest>, total: nat, n: nat, q: nat, index: nat)
    requires n >= 1 && q <= total && Additive(read)
    requires forall i: nat, a: nat, b: nat {:trigger emit(i, a, b)} :: read(emit(i, a, b)) == shows(i, a, b)
    ensures read(Chunked(emit, total, n, q, index)) == Chunked(shows, total, n, q, index)
    decreases total - q
  {
    if q < total {
      ReadChunked(read, emit, shows, total, n, q + PageSize(total, n, q), index + 1);
    }
  }

  lemma BodyDigests(mode: Mode, rows: seq<Canonical>, n: nat)
    requires n >= 1
    ensures Digests(Chunked(ChunkWriter(mode, rows), |rows|, n, 0, 0)) == Shown(mode, rows, n)
  {
    forall a, b
      ensures Digests(a + b) == Digests(a) + Digests(b)
    {
      Appended(a, b);
    }
    forall i: nat, a: nat, b: nat
      ensures Digests(ChunkWriter(mode, rows)(i, a, b)) == ChunkShows(mode, rows)(i, a, b)
    {
      ChunkDigests(mode, i, rows, a, b);
    }
    ReadChunked(Digests, ChunkWriter(mode, rows), ChunkShows(mode, rows), |rows|, n, 0, 0);
  }

  lemma RowSumsInjective(a: seq<Canonical>, b: seq<Canonical>, q: nat, c: nat, d: nat)
    requires q <= c <= |a| && q <= d <= |b| && RowSums(a, q, c) == RowSums(b, q, d)
    ensures c == d && forall i :: q <= i < c ==> a[i] == b[i]
  {
    assert |RowSums(a, q, c)| == |RowSums(b, q, d)|;
    forall i | q <= i < c
      ensures a[i] == b[i]
    {
      assert RowSums(a, q, c)[i - q] == RowSum(a[i]) && RowSums(b, q, d)[i - q] == RowSum(b[i]);
    }
  }

  /** The shown digests from row q on. */
  function ShownFrom(mode: Mode, rows: seq<Canonical>, n: nat, q: nat, index: nat): seq<Digest>
    requires n >= 1 && q <= |rows|
  {
    Chunked(ChunkShows(mode, rows), |rows|, n, q, index)
  }

  /** With mode hash these are the row digests, whatever the chunks. */
  lemma {:induction false} HashShowsRows(rows: seq<Canonical>, n: nat, q: nat, index: nat)
    requires n >= 1 && q <= |rows|
    ensures ShownFrom(Hash, rows, n, q, index) == RowSums(rows, q, |rows|)
    decreases |rows| - q
  {
    if q < |rows| {
      var end := q + PageSize(|rows|, n, q);
      HashShowsRows(rows, n, end, index + 1);
      assert RowSums(rows, q, |rows|) == RowSums(rows, q, end) + RowSums(rows, end, |rows|);
    }
  }

  lemma ChunkSumInjective(a: seq<Canonical>, b: seq<Canonical>, q: nat, c: nat, d: nat)
    requires q <= c <= |a| && q <= d <= |b| && Written(FullHash, a, q, c) == Written(FullHash, b, q, d)
    ensures c == d && forall i :: q <= i < c ==> a[i] == b[i]
  {
    RowDigests(FullHash, a, q, c);
    RowDigests(FullHash, b, q, d);
    RowSumsInjective(a, b, q, c, d);
  }

  /** With mode full-hash the chunk digests determine the chunks. */
  lemma {:induction false} FullHashInjective(a: seq<Canonical>, b: seq<Canonical>, n: nat, q: nat, index: nat,
                                             shown: seq<Digest>)
    requires n >= 1 && q <= |a| && q <= |b|
      && shown == ShownFrom(FullHash, a, n, q, index) == ShownFrom(FullHash, b, n, q, index)
    ensures |a| == |b| && forall i :: q <= i < |a| ==> a[i] == b[i]
    decreases |shown|
  {
    if shown == [] {
      FirstSum(a, n, q, index, shown);
      FirstSum(b, n, q, index, shown);
    } else {
      var end := SameChunk(a, b, n, q, index, shown);
      FullHashInjective(a, b, n, end, index + 1, shown[1..]);
    }
  }

  /** Equal digests begin with an equal chunk. */
  lemma SameChunk(a: seq<Canonical>, b: seq<Canonical>, n: nat, q: nat, index: nat, shown: seq<Digest>)
    returns (end: nat)
    requires n >= 1 && q <= |a| && q <= |b| && shown != []
    requires shown == ShownFrom(FullHash, a, n, q, index) == ShownFrom(FullHash, b, n, q, index)
    ensures q <= end <= |a| && end <= |b| && forall i :: q <= i < end ==> a[i] == b[i]
    ensures shown[1..] == ShownFrom(FullHash, a, n, end, index + 1) == ShownFrom(FullHash, b, n, end, index + 1)
  {
    FirstSum(a, n, q, index, shown);
    FirstSum(b, n, q, index, shown);
    end := q + PageSize(|a|, n, q);
    ChunkSumInjective(a, b, q, end, q + PageSize(|b|, n, q));
  }

  lemma FirstSum(rows: seq<Canonical>, n: nat, q: nat, index: nat, shown: seq<Digest>)
    requires n >= 1 && q <= |rows| && shown == ShownFrom(FullHash, rows, n, q, index)
    ensures shown == [] <==> q == |rows|
    ensures var end := q + PageSize(|rows|, n, q);
      shown != [] ==>
        shown[0] == Sha(Written(FullHash, rows, q, end)) && shown[1..] == ShownFrom(FullHash, rows, n, end, index + 1)
  {
    if q < |rows| {
      var end := q + PageSize(|rows|, n, q);
      HeadApart(Sha(Written(FullHash, rows, q, end)), ShownFrom(FullHash, rows, n, end, index + 1));
    }
  }

  lemma HeadApart(head: Digest, tail: seq<Digest>)
    ensures [head] + tail != [] && ([head] + tail)[0] == head && ([head] + tail)[1..] == tail
  {}

  lemma WholeDigests(mode: Mode, rows: seq<Canonical>, n: nat)
    requires n >= 1
    ensures Digests(TableDigest(mode, rows, n).content) == Shown(mode, rows, n)
  {
    var s := TrailerText(mode, |rows|, Chunks(|rows|, n));
    BodyDigests(mode, rows, n);
    Appended(Chunked(ChunkWriter(mode, rows), |rows|, n, 0, 0), Text(s));
    NoDigestInText(s, |s|);
  }

  /** Equal hashes mean equal canonical rows in key order, and conversely, in either mode and
      for every chunk size. */
  lemma DigestEqualIff(mode: Mode, a: seq<Canonical>, b: seq<Canonical>, n: nat)
    requires n >= 1
    ensures TableDigest(mode, a, n) == TableDigest(mode, b, n) <==> a == b
  {
    if TableDigest(mode, a, n) == TableDigest(mode, b, n) {
      WholeDigests(mode, a, n);
      WholeDigests(mode, b, n);
      if mode == Hash {
        HashShowsRows(a, n, 0, 0);
        HashShowsRows(b, n, 0, 0);
        RowSumsInjective(a, b, 0, |a|, |b|);
      } else {
        FullHashInjective(a, b, n, 0, 0, Shown(FullHash, a, n));
      }
    }
  }

  /** The two modes, each with its own chunk size, give the same verdict on two tables. */
  lemma ModesAgree(a: seq<Canonical>, b: seq<Canonical>, n: nat, m: nat)
    requires n >= 1 && m >= 1
    ensures TableDigest(Hash, a, n) == TableDigest(Hash, b, n)
      <==> TableDigest(FullHash, a, m) == TableDigest(FullHash, b, m)
  {
    DigestEqualIff(Hash, a, b, n);
    DigestEqualIff(FullHash, a, b, m);
  }

  /** The physical order of the rows does not matter. */
  lemma OrderIndependent(mode: Mode, a: seq<Row>, b: seq<Row>, cols: KeyColumns, normalize: Row -> Canonical, n: nat)
    requires n >= 1 && KeyOrdered(a, cols) && KeyOrdered(b, cols) && Members(a) == Members(b)
    ensures TableDigest(mode, CanonicalRows(a, normalize), n) == TableDigest(mode, CanonicalRows(b, normalize), n)
  {
    KeyOrderUnique(a, b, cols);
  }

  // ----- comparing two databases -----

  datatype DiffKind = MissingInDestination | MissingInSource | HashMismatch

  datatype Diff = Diff(kind: DiffKind, table: string, sourceHash: Option<Digest>, destHash: Option<Digest>)

  /** What has to be reported about one table name, if anything. */
  function DiffFor(source: map<string, Digest>, dest: map<string, Digest>, table: string): Option<Diff> {
    if table in source && table !in dest then Some(Diff(MissingInDestination, table, Some(source[table]), None))
    else if table !in source && table in dest then Some(Diff(MissingInSource, table, None, Some(dest[table])))
    else if table in source && source[table] != dest[table] then
      Some(Diff(HashMismatch, table, Some(source[table]), Some(dest[table])))
    else None
  }

  predicate Due(source: map<string, Digest>, dest: map<string, Digest>, tables: set<string>, diff: Diff) {
    diff.table in tables && DiffFor(source, dest, diff.table) == Some(diff)
  }

  /** The diffs list exactly what there is to report about the given tables, once each. */
  ghost predicate Reports(source: map<string, Digest>, dest: map<string, Digest>, tables: set<string>,
                          diffs: seq<Diff>) {
    && (forall d :: d in diffs <==> Due(source, dest, tables, d))
    && (forall i, j :: 0 <= i < j < |diffs| ==> diffs[i].table != diffs[j].table)
  }

  lemma ReportOne(source: map<string, Digest>, dest: map<string, Digest>, tables: set<string>, diffs: seq<Diff>,
                  table: string)
    requires Reports(source, dest, tables, diffs) && table !in tables
    ensures var diff := DiffFor(source, dest, table);
      Reports(source, dest, tables + {table}, if diff.Some? then diffs + [diff.value] else diffs)
  {
    assert forall i :: 0 <= i < |diffs| ==> diffs[i] in diffs && Due(source, dest, tables, diffs[i]);
  }

  /** The diffs that visiting the tables in this order adds. */
  function DiffsIn(source: map<string, Digest>, dest: map<string, Digest>, order: seq<string>): seq<Diff>
    decreases |order|
  {
    if order == [] then []
    else
      var found, diff := DiffsIn(source, dest, order[..|order| - 1]), DiffFor(source, dest, order[|order| - 1]);
      if diff.Some? then found + [diff.value] else found
  }

  /** How many of the visited tables are among the given ones. */
  function CountIn(keys: set<string>, order: seq<string>): (n: nat)
    ensures n <= |order|
    decreases |order|
  {
    if order == [] then 0 else CountIn(keys, order[..|order| - 1]) + if order[|order| - 1] in keys then 1 else 0
  }

  lemma {:induction false} VisitReports(source: map<string, Digest>, dest: map<string, Digest>, order: seq<string>)
    requires Distinct(order)
    ensures Reports(source, dest, Members(order), DiffsIn(source, dest, order))
    decreases |order|
  {
    if order != [] {
      var last := |order| - 1;
      VisitReports(source, dest, order[..last]);
      SplitLast(order);
      ReportOne(source, dest, Members(order[..last]), DiffsIn(source, dest, order[..last]), order[last]);
      assert Members(order) == Members(order[..last]) + {order[last]};
    }
  }

  lemma MembersLast(order: seq<string>)
    requires Distinct(order) && order != []
    ensures var last := |order| - 1;
      Distinct(order[..last]) && order[last] !in Members(order[..last])
        && Members(order) == Members(order[..last]) + {order[last]}
  {
    SplitLast(order);
  }

  lemma OneMore(done: set<string>, keys: set<string>, x: string)
    requires x !in done
    ensures |(done + {x}) * keys| == |done * keys| + (if x in keys then 1 else 0)
    ensures |(done + {x}) - keys| == |done - keys| + (if x in keys then 0 else 1)
  {
    if x in keys {
      assert (done + {x}) * keys == done * keys + {x} && (done + {x}) - keys == done - keys;
    } else {
      assert (done + {x}) * keys == done * keys && (done + {x}) - keys == done - keys + {x};
    }
  }

  lemma {:induction false} CountSizes(keys: set<string>, order: seq<string>)
    requires Distinct(order)
    ensures CountIn(keys, order) == |Members(order) * keys| && |order| - CountIn(keys, order) == |Members(order) - keys|
    decreases |order|
  {
    if order != [] {
      var last := |order| - 1;
      CountSizes(keys, order[..last]);
      MembersLast(order);
      OneMore(Members(order[..last]), keys, order[last]);
    }
  }

  /** The order in which a range over a map's keys visits them. */
  method AnyOrder(keys: set<string>) returns (order: seq<string>)
    ensures Distinct(order) && Members(order) == keys
  {
    order := [];
    var rest := keys;
    while rest != {}
      invariant rest <= keys && Distinct(order) && forall t :: t in order <==> t in keys && t !in rest
    {
      var t :| t in rest;
      order := order + [t];
      rest := rest - {t};
    }
  }

  /** The first loop: everything in the source, in an arbitrary order. */
  method CompareSourceTables(source: map<string, Digest>, dest: map<string, Digest>, order: seq<string>)
    returns (diffs: seq<Diff>, compared: nat, missing: nat, mismatches: nat)
    requires Members(order) == source.Keys
    ensures diffs == DiffsIn(source, dest, order)
    ensures compared == CountIn(dest.Keys, order) && compared + missing == |order| && missing + mismatches == |diffs|
  {
    diffs, compared, missing, mismatches := [], 0, 0, 0;
    for i := 0 to |order|
      invariant diffs == DiffsIn(source, dest, order[..i])
      invariant compared == CountIn(dest.Keys, order[..i]) && compared + missing == i && missing + mismatches == |diffs|
    {
      var table := order[i];
      TakeOneMore(order, i);
      assert order[..i + 1][..i] == order[..i];
      assert table in Members(order);
      if table !in dest {
        diffs := diffs + [Diff(MissingInDestination, table, Some(source[table]), None)];
        missing := missing + 1;
      } else {
        compared := compared + 1;
        if source[table] != dest[table] {
          diffs := diffs + [Diff(HashMismatch, table, Some(source[table]), Some(dest[table]))];
          mismatches := mismatches + 1;
        }
      }
    }
    WholeSlice(order);
  }

  /** What the second loop adds. */
  function DestOnly(source: map<string, Digest>, dest: map<string, Digest>, order: seq<string>): seq<Diff>
    requires forall t :: t in order ==> t in dest
    decreases |order|
  {
    if order == [] then []
    else
      var table := order[|order| - 1];
      DestOnly(source, dest, order[..|order| - 1])
      + if table in source then [] else [Diff(MissingInSource, table, None, Some(dest[table]))]
  }

  lemma {:induction false} DestOnlyReports(source: map<string, Digest>, dest: map<string, Digest>, found: seq<Diff>,
                                           order: seq<string>)
    requires Distinct(order) && (forall t :: t in order ==> t in dest)
    requires Reports(source, dest, source.Keys, found)
    ensures Reports(source, dest, source.Keys + Members(order), found + DestOnly(source, dest, order))
    ensures |DestOnly(source, dest, order)| == |order| - CountIn(source.Keys, order)
    decreases |order|
  {
    if order == [] {
      assert source.Keys + Members(order) == source.Keys && found + DestOnly(source, dest, order) == found;
    } else {
      var last := |order| - 1;
      var before, x := order[..last], order[last];
      MembersLast(order);
      assert forall t :: t in before ==> t in order;
      DestOnlyReports(source, dest, found, before);
      DestOnlyStep(source, dest, Members(before), found, DestOnly(source, dest, before), x);
    }
  }

  lemma DestOnlyStep(source: map<string, Digest>, dest: map<string, Digest>, done: set<string>, found: seq<Diff>,
                     more: seq<Diff>, x: string)
    requires x in dest && x !in done && Reports(source, dest, source.Keys + done, found + more)
    ensures Reports(source, dest, source.Keys + (done + {x}),
        found + (more + if x in source then [] else [Diff(MissingInSource, x, None, Some(dest[x]))]))
  {
    if x in source {
      assert source.Keys + (done + {x}) == source.Keys + done;
      assert more + [] == more;
    } else {
      assert source.Keys + (done + {x}) == source.Keys + done + {x};
      ReportOne(source, dest, source.Keys + done, found + more, x);
      AppendAssociative(found, more, [Diff(MissingInSource, x, None, Some(dest[x]))]);
    }
  }

  /** The second loop: what only the destination has. */
  method AddDestOnlyTables(source: map<string, Digest>, dest: map<string, Digest>, order: seq<string>, found: seq<Diff>)
    returns (diffs: seq<Diff>, missing: nat)
    requires Members(order) == dest.Keys
    ensures forall t :: t in order ==> t in dest
    ensures diffs == found + DestOnly(source, dest, order) && missing == |order| - CountIn(source.Keys, order)
  {
    assert forall t :: t in order ==> t in Members(order);
    diffs, missing := found, 0;
    for i := 0 to |order|
      invariant diffs == found + DestOnly(source, dest, order[..i]) && missing == i - CountIn(source.Keys, order[..i])
    {
      var table := order[i];
      TakeOneMore(order, i);
      assert order[..i + 1][..i] == order[..i];
      if table !in source {
        AppendAssociative(found, DestOnly(source, dest, order[..i]),
          [Diff(MissingInSource, table, None, Some(dest[table]))]);
        diffs := diffs + [Diff(MissingInSource, table, None, Some(dest[table]))];
        missing := missing + 1;
      }
    }
    WholeSlice(order);
  }

  /** diffTableHashes. */
  method DiffTableHashes(source: map<string, Digest>, dest: map<string, Digest>)
    returns (diffs: seq<Diff>, compared: nat, missingDestination: nat, missingSource: nat, mismatches: nat)
    ensures Reports(source, dest, source.Keys + dest.Keys, diffs)
    ensures compared == |source.Keys * dest.Keys|
    ensures missingDestination == |source.Keys - dest.Keys| && missingSource == |dest.Keys - source.Keys|
    ensures missingDestination + missingSource + mismatches == |diffs|
  {
    var first := AnyOrder(source.Keys);
    diffs, compared, missingDestination, mismatches := CompareSourceTables(source, dest, first);
    VisitReports(source, dest, first);
    CountSizes(dest.Keys, first);
    var second := AnyOrder(dest.Keys);
    ghost var found := diffs;
    diffs, missingSource := AddDestOnlyTables(source, dest, second, diffs);
    DestOnlyReports(source, dest, found, second);
    CountSizes(source.Keys, second);
  }

  function TableOf(diff: Diff): string { diff.table }

  function TablesOf(diffs: seq<Diff>): seq<string> {
    seq(|diffs|, i requires 0 <= i < |diffs| => diffs[i].table)
  }

  /** sortDiffs within one database makes the report independent of the map order. */
  lemma ReportUnique(source: map<string, Digest>, dest: map<string, Digest>, tables: set<string>, a: seq<Diff>,
                     b: seq<Diff>)
    requires Reports(source, dest, tables, a) && Reports(source, dest, tables, b)
    ensures SortBy(TableOf, a) == SortBy(TableOf, b)
  {
    var c, d := SortBy(TableOf, a), SortBy(TableOf, b);
    SortedReport(source, dest, tables, a);
    SortedReport(source, dest, tables, b);
    forall t
      ensures t in TablesOf(c) <==> t in TablesOf(d)
    {
      if t in TablesOf(c) {
        SameTables(source, dest, tables, c, d, t);
      }
      if t in TablesOf(d) {
        SameTables(source, dest, tables, d, c, t);
      }
    }
    SortedListingUnique(TablesOf(c), TablesOf(d));
    ReportByTables(source, dest, tables, c, d);
  }

  lemma ReportByTables(source: map<string, Digest>, dest: map<string, Digest>, tables: set<string>, c: seq<Diff>,
                       d: seq<Diff>)
    requires Reports(source, dest, tables, c) && Reports(source, dest, tables, d) && TablesOf(c) == TablesOf(d)
    ensures c == d
  {
    assert |c| == |TablesOf(c)| == |d|;
    forall i | 0 <= i < |c|
      ensures c[i] == d[i]
    {
      assert c[i] in c && d[i] in d && TablesOf(c)[i] == TablesOf(d)[i];
    }
  }

  lemma SortedReport(source: map<string, Digest>, dest: map<string, Digest>, tables: set<string>, diffs: seq<Diff>)
    requires Reports(source, dest, tables, diffs)
    ensures var sorted := SortBy(TableOf, diffs);
      Reports(source, dest, tables, sorted) && Sorted(TablesOf(sorted)) && Distinct(TablesOf(sorted))
  {
    var sorted := SortBy(TableOf, diffs);
    SameElements(sorted, diffs);
    forall i, j | 0 <= i < j < |sorted|
      ensures sorted[i].table != sorted[j].table
    {
      assert sorted[i] in sorted && sorted[j] in sorted && sorted[i] != sorted[j];
    }
    assert forall i, j :: 0 <= i < j < |sorted| ==> !Less(TableOf(sorted[j]), TableOf(sorted[i]));
  }

  lemma SameElements(a: seq<Diff>, b: seq<Diff>)
    requires multiset(a) == multiset(b) && Distinct(TablesOf(b))
    ensures (forall x :: x in a <==> x in b) && Distinct(a)
  {
    assert forall x :: x in a <==> x in multiset(a);
    assert forall x :: x in b <==> x in multiset(b);
    assert forall i :: 0 <= i < |b| ==> TablesOf(b)[i] == b[i].table;
    SameMultisetDistinct(a, b);
  }

  lemma SameTables(source: map<string, Digest>, dest: map<string, Digest>, tables: set<string>, c: seq<Diff>,
                   d: seq<Diff>, t: string)
    requires Reports(source, dest, tables, c) && Reports(source, dest, tables, d) && t in TablesOf(c)
    ensures t in TablesOf(d)
  {
    var i :| 0 <= i < |c| && c[i].table == t;
    assert c[i] in c && c[i] in d;
    var j :| 0 <= j < |d| && d[j] == c[i];
    assert TablesOf(d)[j] == t;
  }

  lemma Reported(source: map<string, Digest>, dest: map<string, Digest>, tables: set<string>, diffs: seq<Diff>,
                 t: string)
    requires Reports(source, dest, tables, diffs) && t in tables
    ensures DiffFor(source, dest, t).Some? ==> DiffFor(source, dest, t).value in diffs
  {
    assert DiffFor(source, dest, t).Some? ==> Due(source, dest, tables, DiffFor(source, dest, t).value);
  }

  /** What the listed diffs say: tables that one side lacks, and common tables whose digests differ,
      each with the digests that there are. */
  lemma ReportMeans(source: map<string, Digest>, dest: map<string, Digest>, diffs: seq<Diff>, t: string)
    requires Reports(source, dest, source.Keys + dest.Keys, diffs)
    ensures t in source && t !in dest <==> exists d :: d in diffs && d.table == t && d.kind == MissingInDestination
    ensures t in dest && t !in source <==> exists d :: d in diffs && d.table == t && d.kind == MissingInSource
    ensures t in source && t in dest && source[t] != dest[t]
       <==> exists d :: d in diffs && d.table == t && d.kind == HashMismatch
    ensures forall d :: d in diffs && d.table == t ==>
                      && d.sourceHash == (if t in source then Some(source[t]) else None)
                      && d.destHash == if t in dest then Some(dest[t]) else None
  {
    if t in source.Keys + dest.Keys {
      Reported(source, dest, source.Keys + dest.Keys, diffs, t);
    }
    assert forall d :: d in diffs && d.table == t ==> Due(source, dest, source.Keys + dest.Keys, d);
  }

  type Database = map<string, seq<Canonical>>

  function TableDigests(mode: Mode, db: Database, n: nat): map<string, Digest>
    requires n >= 1
  {
    map t | t in db :: TableDigest(mode, db[t], n)
  }

  /** The verdict: nothing is reported exactly when both sides have the same tables with the
      same canonical rows, whatever the mode and the chunk size. */
  lemma NoDiffsIff(mode: Mode, source: Database, dest: Database, n: nat, diffs: seq<Diff>)
    requires n >= 1
    requires Reports(TableDigests(mode, source, n), TableDigests(mode, dest, n), source.Keys + dest.Keys, diffs)
    ensures diffs == [] <==> source == dest
  {
    var s, d := TableDigests(mode, source, n), TableDigests(mode, dest, n);
    if diffs == [] {
      forall t | t in source.Keys + dest.Keys
        ensures t in source && t in dest && source[t] == dest[t]
      {
        Reported(s, d, source.Keys + dest.Keys, diffs, t);
        assert DiffFor(s, d, t) == None;
        assert t in s && t in d && s[t] == d[t];
        DigestEqualIff(mode, source[t], dest[t], n);
      }
      assert source.Keys == dest.Keys;
    } else {
      assert diffs[0] in diffs;
    }
  }
}
