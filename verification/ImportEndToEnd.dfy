/** From a vendor file to product rows: registering splits it, any number of invocations
    commit it, and a completed job has every row of the body stored or refused once. */
module ImportEndToEnd {
  import opened FileRows
  import opened ChunkBoundaries
  import opened VendorCsv
  import opened ProductStore
  import opened ImportTables
  import opened ImportMachine
  import opened ImportInvariant
  import opened ImportTheorems
  import opened ImportLanding

  function ChunkRows(bs: seq<ChunkBoundary>): (chunks: seq<Chunk>)
    ensures |chunks| == |bs|
  {
    seq(|bs|, i requires 0 <= i < |bs| =>
      Chunk(bs[i].startOffset, bs[i].endOffset, bs[i].startOffset, None, 0, 0, 0, 0, Pending))
  }

  /** The state registration commits: one job row and one chunk row per range. */
  function Register(now: nat, products: Table, bs: seq<ChunkBoundary>): State {
    State(now, Job(JobRunning, 0, 0, 0), ChunkRows(bs), products, map[],
          seq(|bs|, i => []), seq(|bs|, i => None))
  }

  /** What the import needs of the table it starts from: no product of the file's SKUs
      written by this job or a later one. */
  ghost predicate NotYetWritten(cfg: Config, from: nat, rows: map<string, ProductRow>) {
    forall p, sku :: SkuAt(cfg, from, p, sku) && sku in rows ==> Older(cfg, rows[sku].origin)
  }

  lemma {:induction false} LaterChunks(file: Bytes, from: nat, target: nat, bs: seq<ChunkBoundary>, i: nat, j: nat)
    requires from <= |file| && Splits(file, from, target, bs) && i < j < |bs|
    ensures bs[i].endOffset <= bs[j].startOffset
    decreases j
  {
    ChunksPartition(file, from, target, bs, j - 1);
    if i < j - 1 { LaterChunks(file, from, target, bs, i, j - 1); }
  }

  /** What registration commits is where the machine starts: a running job over chunks that
      stand in the body on row boundaries, end to start. */
  lemma RegisterIsRegistered(cfg: Config, now: nat, products: Table, target: nat, bs: seq<ChunkBoundary>)
    requires cfg.Valid() && Splits(cfg.file, FirstRow(cfg.file), target, bs)
    ensures var s := Register(now, products, bs);
            && Registered(cfg, s) && Inv(cfg, s) && Disjoint(cfg, FirstRow(cfg.file), s.chunks)
            && s.chunks == ChunkRows(bs) && s.job == Job(JobRunning, 0, 0, 0)
  {
    var from := FirstRow(cfg.file);
    forall i | 0 <= i < |bs|
      ensures bs[i].startOffset < bs[i].endOffset <= |cfg.file|
      ensures IsCut(cfg.file, from, |cfg.file|, bs[i].startOffset) && IsCut(cfg.file, from, |cfg.file|, bs[i].endOffset)
    {
      ChunksPartition(cfg.file, from, target, bs, i);
    }
    RegisteredOk(cfg, Register(now, products, bs));
    forall i, j | 0 <= i < j < |bs| ensures bs[i].endOffset <= bs[j].startOffset {
      LaterChunks(cfg.file, from, target, bs, i, j);
    }
  }

  lemma RegisterLands(cfg: Config, now: nat, products: Table, target: nat, bs: seq<ChunkBoundary>, earlier: set<string>)
    requires cfg.Valid() && Splits(cfg.file, FirstRow(cfg.file), target, bs)
    requires NotYetWritten(cfg, FirstRow(cfg.file), products.rows)
    ensures Registered(cfg, Register(now, products, bs))
    ensures Landing(cfg, FirstRow(cfg.file), earlier, Register(now, products, bs))
  {
    RegisterIsRegistered(cfg, now, products, target, bs);
  }

  /** The chunk a row of the body falls in. */
  lemma {:induction false} ChunkHolding(file: Bytes, from: nat, target: nat, bs: seq<ChunkBoundary>, at: nat) returns (i: nat)
    requires from <= at < |file| && Splits(file, from, target, bs)
    ensures i < |bs| && bs[i].startOffset <= at < bs[i].endOffset
    decreases |bs|
  {
    if at < bs[0].endOffset {
      i := 0;
    } else {
      var j := ChunkHolding(file, bs[0].endOffset, target, bs[1..], at);
      i := j + 1;
    }
  }

  /** Which row of a range starts at a boundary inside it. */
  lemma RowIndex(file: Bytes, from: nat, until: nat, at: nat) returns (k: nat)
    requires until <= |file| && IsCut(file, from, until, at) && at < until
    ensures k < |Rows(file, from, until)| && RowStart(file, from, until, k) == at
  {
    RowsConcat(file, from, at, until);
    k := |Rows(file, from, at)|;
    ResumeAt(file, from, at, k);
    if 0 < k { assert Rows(file, from, until)[k - 1] == Rows(file, from, at)[k - 1]; }
  }

  /** The batch a committed line was committed in. */
  lemma {:induction false} BatchHolding(batches: seq<Batch>, k: nat) returns (b: nat, j: nat)
    requires k < |Committed(batches)|
    ensures b < |batches| && j < |batches[b].lines| && batches[b].lines[j] == Committed(batches)[k]
    decreases |batches|
  {
    var init, last := batches[..|batches| - 1], batches[|batches| - 1];
    assert batches == init + [last];
    if k < |Committed(init)| {
      b, j := BatchHolding(init, k);
    } else {
      b, j := |init|, k - |Committed(init)|;
    }
  }

  /** The row at `at` was committed: read, exactly if it is within the reader's cap, priced,
      and if it was stored its product is as it landed. */
  predicate CommittedAt(cfg: Config, earlier: set<string>, s: State, at: nat, line: Line)
    requires at < |cfg.file|
  {
    && line.start == at && line.end == RowEnd(cfg.file, at, |cfg.file|)
    && Held(TextAt(cfg, at), line.text, cfg.cap, cfg.window)
    && Priced(cfg, line.text, line.verdict)
    && Landed(cfg, earlier, s.products.rows, line)
  }

  lemma LineInChunk(cfg: Config, c: Chunk, batches: seq<Batch>, at: nat) returns (b: nat, j: nat)
    requires ChunkOk(cfg, c, batches) && c.startOffset <= at < c.nextOffset
    requires at == c.startOffset || cfg.file[at - 1] == NEWLINE
    ensures b < |batches| && j < |batches[b].lines|
    ensures batches[b].lines[j].start == at && LineOk(cfg, c.endOffset, batches[b].lines[j])
  {
    TilesFlatten(cfg, c.endOffset, c.startOffset, c.nextOffset, batches);
    LinesAreRows(cfg, c.endOffset, c.startOffset, c.nextOffset, Committed(batches));
    var k := RowIndex(cfg.file, c.startOffset, c.nextOffset, at);
    assert IsRow(cfg, c.startOffset, c.nextOffset, Committed(batches)[k], k);
    b, j := BatchHolding(batches, k);
    TiledLine(cfg, c.endOffset, c.startOffset, c.nextOffset, batches, b, j);
  }

  /** A row the checkpoint has passed stands in one of the chunk's batches, read to its end. */
  lemma LineBehind(cfg: Config, from: nat, s: State, i: nat, at: nat) returns (b: nat, j: nat)
    requires Inv(cfg, s) && Disjoint(cfg, from, s.chunks) && i < |s.chunks|
    requires RowAt(cfg, from, at) && s.chunks[i].startOffset <= at < s.chunks[i].nextOffset
    ensures b < |s.log[i]| && j < |s.log[i][b].lines|
    ensures var line := s.log[i][b].lines[j];
            && line.start == at && line.end == RowEnd(cfg.file, at, |cfg.file|)
            && Held(TextAt(cfg, at), line.text, cfg.cap, cfg.window)
  {
    var c := s.chunks[i];
    assert ChunkOk(cfg, c, s.log[i]);
    b, j := LineInChunk(cfg, c, s.log[i], at);
    RowEndWithin(cfg.file, at, c.endOffset, |cfg.file|);
  }

  lemma WholeChunk(cfg: Config, from: nat, earlier: set<string>, s: State, i: nat, at: nat) returns (line: Line)
    requires Landing(cfg, from, earlier, s) && i < |s.chunks|
    requires s.chunks[i].nextOffset == s.chunks[i].endOffset
    requires RowAt(cfg, from, at) && s.chunks[i].startOffset <= at < s.chunks[i].endOffset
    ensures InLog(s, line) && CommittedAt(cfg, earlier, s, at, line)
  {
    var b, j := LineBehind(cfg, from, s, i, at);
    line := s.log[i][b].lines[j];
    assert BatchOk(cfg, earlier, s.products.rows, s.log[i][b]);
  }

  lemma {:induction false} UpsertsCount(cfg: Config, lines: seq<Line>)
    ensures |Upserts(cfg, lines)| + RefusedCount(lines) == |lines|
    decreases |lines|
  {
    if lines != [] { UpsertsCount(cfg, lines[..|lines| - 1]); }
  }

  /** With no SKU repeated, every committed line counts once, as stored or as refused. */
  lemma {:induction false} BatchesCount(cfg: Config, batches: seq<Batch>)
    requires forall b :: 0 <= b < |batches| ==> DistinctSkus(Upserts(cfg, batches[b].lines))
    ensures ProcessedIn(cfg, batches) + RefusedIn(batches) == |Committed(batches)|
    decreases |batches|
  {
    if batches != [] {
      var init, last := batches[..|batches| - 1], batches[|batches| - 1];
      assert batches == init + [last];
      BatchesCount(cfg, init);
      UpsertsCount(cfg, last.lines);
      CountDistinct(Upserts(cfg, last.lines));
    }
  }

  lemma ChunkCounts(cfg: Config, from: nat, earlier: set<string>, s: State, i: nat)
    requires Landing(cfg, from, earlier, s) && i < |s.chunks| && s.chunks[i].nextOffset == s.chunks[i].endOffset
    ensures var c := s.chunks[i];
            && c.startOffset <= c.endOffset <= |cfg.file|
            && c.rowsProcessed + c.rowsRejected == |Rows(cfg.file, c.startOffset, c.endOffset)|
  {
    var c := s.chunks[i];
    assert ChunkOk(cfg, c, s.log[i]);
    forall b | 0 <= b < |s.log[i]| ensures DistinctSkus(Upserts(cfg, s.log[i][b].lines)) {
      assert BatchOk(cfg, earlier, s.products.rows, s.log[i][b]);
    }
    BatchesCount(cfg, s.log[i]);
    TilesFlatten(cfg, c.endOffset, c.startOffset, c.nextOffset, s.log[i]);
    LinesAreRows(cfg, c.endOffset, c.startOffset, c.nextOffset, Committed(s.log[i]));
  }

  /** Chunk `i` starts where the one before it ended, and its counters count its rows. */
  predicate Linked(cfg: Config, from: nat, chunks: seq<Chunk>, i: nat)
    requires i < |chunks|
  {
    var c := chunks[i];
    && from <= c.startOffset <= c.endOffset <= |cfg.file|
    && c.startOffset == (if i == 0 then from else chunks[i - 1].endOffset)
    && IsCut(cfg.file, from, |cfg.file|, c.startOffset)
    && c.rowsProcessed + c.rowsRejected == |Rows(cfg.file, c.startOffset, c.endOffset)|
  }

  /** The chunks' rows add up to the body's. */
  lemma {:induction false} RowsAddUp(cfg: Config, from: nat, chunks: seq<Chunk>)
    requires from <= |cfg.file|
    requires forall i :: 0 <= i < |chunks| ==> Linked(cfg, from, chunks, i)
    ensures var end := if chunks == [] then from else chunks[|chunks| - 1].endOffset;
            from <= end <= |cfg.file| && TotalProcessed(chunks) + TotalRejected(chunks) == |Rows(cfg.file, from, end)|
    decreases |chunks|
  {
    if chunks != [] {
      var init, last := chunks[..|chunks| - 1], chunks[|chunks| - 1];
      assert chunks == init + [last];
      assert Linked(cfg, from, chunks, |init|);
      forall i | 0 <= i < |init| ensures Linked(cfg, from, init, i) {
        assert Linked(cfg, from, chunks, i);
      }
      RowsAddUp(cfg, from, init);
      RowsConcat(cfg.file, from, last.startOffset, last.endOffset);
    }
  }

  predicate SameRanges(chunks: seq<Chunk>, bs: seq<ChunkBoundary>) {
    && |chunks| == |bs|
    && forall i :: 0 <= i < |bs| ==> chunks[i].startOffset == bs[i].startOffset && chunks[i].endOffset == bs[i].endOffset
  }

  /** The chunk rows of a registered import keep the ranges they were registered with. */
  lemma RangesStay(cfg: Config, now: nat, products: Table, bs: seq<ChunkBoundary>, acts: seq<Action>)
    requires cfg.Valid() && Inv(cfg, Register(now, products, bs))
    ensures SameRanges(Run(cfg, Register(now, products, bs), acts).chunks, bs)
  {
    var s0 := Register(now, products, bs);
    NeverGoesBack(cfg, s0, acts);
    var s := Run(cfg, s0, acts);
    forall i | 0 <= i < |bs|
      ensures s.chunks[i].startOffset == bs[i].startOffset && s.chunks[i].endOffset == bs[i].endOffset
    {
      assert Advances(s0.chunks[i], s.chunks[i]);
    }
  }

  lemma RangeLinked(file: Bytes, from: nat, target: nat, bs: seq<ChunkBoundary>, i: nat)
    requires from <= |file| && Splits(file, from, target, bs) && i < |bs|
    ensures from <= bs[i].startOffset <= bs[i].endOffset <= |file| && IsCut(file, from, |file|, bs[i].startOffset)
    ensures bs[i].startOffset == (if i == 0 then from else bs[i - 1].endOffset)
  {
    ChunksPartition(file, from, target, bs, i);
    if 0 < i { ChunksPartition(file, from, target, bs, i - 1); }
  }

  lemma ChunkLinked(cfg: Config, from: nat, earlier: set<string>, target: nat, bs: seq<ChunkBoundary>, s: State, i: nat)
    requires from <= |cfg.file| && Splits(cfg.file, from, target, bs) && SameRanges(s.chunks, bs)
    requires Landing(cfg, from, earlier, s) && i < |bs| && s.chunks[i].nextOffset == s.chunks[i].endOffset
    ensures Linked(cfg, from, s.chunks, i)
  {
    ChunkCounts(cfg, from, earlier, s, i);
    RangeLinked(cfg.file, from, target, bs, i);
  }

  lemma BodyCounted(cfg: Config, from: nat, earlier: set<string>, target: nat, bs: seq<ChunkBoundary>, s: State)
    requires from <= |cfg.file| && Splits(cfg.file, from, target, bs) && SameRanges(s.chunks, bs)
    requires Landing(cfg, from, earlier, s)
    requires forall i :: 0 <= i < |s.chunks| ==> s.chunks[i].nextOffset == s.chunks[i].endOffset
    ensures TotalProcessed(s.chunks) + TotalRejected(s.chunks) == |Rows(cfg.file, from, |cfg.file|)|
  {
    forall i | 0 <= i < |s.chunks| ensures Linked(cfg, from, s.chunks, i) {
      ChunkLinked(cfg, from, earlier, target, bs, s, i);
    }
    LinkedAddUp(cfg, from, target, bs, s.chunks);
  }

  lemma LinkedAddUp(cfg: Config, from: nat, target: nat, bs: seq<ChunkBoundary>, chunks: seq<Chunk>)
    requires from <= |cfg.file| && Splits(cfg.file, from, target, bs) && SameRanges(chunks, bs)
    requires forall i :: 0 <= i < |chunks| ==> Linked(cfg, from, chunks, i)
    ensures TotalProcessed(chunks) + TotalRejected(chunks) == |Rows(cfg.file, from, |cfg.file|)|
  {
    RowsAddUp(cfg, from, chunks);
    if |bs| > 0 { ChunksPartition(cfg.file, from, target, bs, |bs| - 1); }
  }

  /** What the end-to-end results need: a body in which no SKU repeats, over a table, and
      beside other users of it, that no later job writes those SKUs in. An earlier job's
      stragglers may: `earlier` is the SKUs they reach. */
  ghost predicate Undisturbed(cfg: Config, earlier: set<string>, products: Table, acts: seq<Action>) {
    && OncePerSku(cfg, FirstRow(cfg.file))
    && NotYetWritten(cfg, FirstRow(cfg.file), products.rows)
    && forall k :: 0 <= k < |acts| ==> LeavesAlone(cfg, FirstRow(cfg.file), earlier, acts[k])
  }

  /** End to end: for a file in which no SKU repeats, whatever the chunk size, the lengths of
      its rows and the run, a completed job has committed every row of the body. Each
      stored row's product carries that row's provenance and exactly the values priced in
      the batch that committed it, or was skipped as unchanged and still holds them unless
      an earlier job's offer came after; and the counters add up to the rows of the body. */
  lemma {:induction false} EndToEnd(cfg: Config, now: nat, products: Table, target: nat, bs: seq<ChunkBoundary>,
                                    acts: seq<Action>, earlier: set<string>)
    requires cfg.Valid() && Splits(cfg.file, FirstRow(cfg.file), target, bs)
    requires Undisturbed(cfg, earlier, products, acts)
    requires Run(cfg, Register(now, products, bs), acts).job.status == JobCompleted
    ensures var s := Run(cfg, Register(now, products, bs), acts);
            && (forall at :: RowAt(cfg, FirstRow(cfg.file), at) ==>
                  exists line :: InLog(s, line) && CommittedAt(cfg, earlier, s, at, line))
            && s.job.rowsProcessed + s.job.rowsRejected == |Rows(cfg.file, FirstRow(cfg.file), |cfg.file|)|
  {
    var from := FirstRow(cfg.file);
    var s0 := Register(now, products, bs);
    RegisterLands(cfg, now, products, target, bs, earlier);
    RunLands(cfg, from, earlier, s0, acts);
    CompletedIsWhole(cfg, s0, acts);
    RangesStay(cfg, now, products, bs, acts);
    var s := Run(cfg, s0, acts);
    BodyCounted(cfg, from, earlier, target, bs, s);
    forall at | RowAt(cfg, from, at)
      ensures exists line :: InLog(s, line) && CommittedAt(cfg, earlier, s, at, line)
    {
      var i := ChunkHolding(cfg.file, from, target, bs, at);
      var line := WholeChunk(cfg, from, earlier, s, i, at);
    }
  }

  /** A parsed row, refused by the rules or stored under its own sku, with its own name,
      category and stock unless an earlier job's offer reached the product it left as it was. */
  predicate StoredAs(cfg: Config, earlier: set<string>, rows: map<string, ProductRow>, row: VendorRow, line: Line) {
    line.verdict.Stored? ==>
      && line.verdict.sku == row.sku && row.sku in rows
      && (rows[row.sku].origin == Own(cfg, line) || row.sku !in earlier ==>
            && rows[row.sku].values.name == row.name
            && rows[row.sku].values.category == row.category
            && rows[row.sku].values.stockQuantity == row.stockQuantity)
  }

  predicate FollowsRow(cfg: Config, earlier: set<string>, rows: map<string, ProductRow>, line: Line) {
    match ParseVendorRow(line.text)
    case Ok(row) => StoredAs(cfg, earlier, rows, row, line)
    case Rejected(_) => line.verdict.Refused?
  }

  lemma LineStoredAs(cfg: Config, earlier: set<string>, s: State, at: nat, line: Line, row: VendorRow)
    requires at < |cfg.file| && CommittedAt(cfg, earlier, s, at, line) && cfg.parse(line.text) == Ok(row)
    ensures StoredAs(cfg, earlier, s.products.rows, row, line)
  {
  }

  /** The same for the vendor's own row format, down to the columns of each row: a row within
      the cap is read exactly, and a longer one is stored, if at all, as its cut text reads. */
  lemma {:induction false} VendorFileLands(cfg: Config, now: nat, products: Table, target: nat, bs: seq<ChunkBoundary>,
                                           acts: seq<Action>, earlier: set<string>, at: nat)
    requires forall text :: cfg.parse(text) == ParseVendorRow(text)
    requires cfg.Valid() && Splits(cfg.file, FirstRow(cfg.file), target, bs)
    requires Undisturbed(cfg, earlier, products, acts)
    requires Run(cfg, Register(now, products, bs), acts).job.status == JobCompleted
    requires RowAt(cfg, FirstRow(cfg.file), at)
    ensures var s := Run(cfg, Register(now, products, bs), acts);
            exists line ::
              && InLog(s, line) && CommittedAt(cfg, earlier, s, at, line)
              && (|TextAt(cfg, at)| <= cfg.cap ==> line.text == TextAt(cfg, at))
              && FollowsRow(cfg, earlier, s.products.rows, line)
  {
    EndToEnd(cfg, now, products, target, bs, acts, earlier);
    var s := Run(cfg, Register(now, products, bs), acts);
    var line :| InLog(s, line) && CommittedAt(cfg, earlier, s, at, line);
    assert cfg.parse(line.text) == ParseVendorRow(line.text);
    if ParseVendorRow(line.text).Ok? { LineStoredAs(cfg, earlier, s, at, line, ParseVendorRow(line.text).row); }
  }
}
