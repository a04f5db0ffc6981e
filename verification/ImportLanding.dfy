/** From committed lines to product rows: what a file without repeated SKUs leaves behind. */
module ImportLanding {
  import opened FileRows
  import opened ProductStore
  import opened ImportTables
  import opened ImportMachine
  import opened ImportInvariant
  import opened ImportTheorems

  /** A row of the body that begins at `from` starts at `at`. */
  predicate RowAt(cfg: Config, from: nat, at: nat) {
    at < |cfg.file| && IsCut(cfg.file, from, |cfg.file|, at)
  }

  function TextAt(cfg: Config, at: nat): Bytes
    requires at < |cfg.file|
  {
    RowText(cfg.file, at, RowEnd(cfg.file, at, |cfg.file|))
  }

  /** Reading the row at `at` may hold this text of it, and the text sells `sku`. */
  predicate SellsAs(cfg: Config, at: nat, kept: Bytes, sku: string)
    requires at < |cfg.file|
  {
    && Held(TextAt(cfg, at), kept, cfg.cap, cfg.window)
    && var parsed := cfg.parse(kept); parsed.Ok? && parsed.row.sku == sku
  }

  /** The row at `at` sells `sku`: as its text reads, or, above the reader's cap, as any text
      it may be cut to reads. */
  ghost predicate SkuAt(cfg: Config, from: nat, at: nat, sku: string) {
    RowAt(cfg, from, at) && exists kept :: SellsAs(cfg, at, kept, sku)
  }

  /** No SKU of the body repeats. */
  ghost predicate OncePerSku(cfg: Config, from: nat) {
    forall p, q, sku :: SkuAt(cfg, from, p, sku) && SkuAt(cfg, from, q, sku) ==> p == q
  }

  /** The chunks stand in the body on row boundaries and do not overlap. */
  ghost predicate Disjoint(cfg: Config, from: nat, chunks: seq<Chunk>) {
    && (forall i :: 0 <= i < |chunks| ==>
          IsCut(cfg.file, from, |cfg.file|, chunks[i].startOffset) && IsCut(cfg.file, from, |cfg.file|, chunks[i].endOffset))
    && (forall i, j :: 0 <= i < j < |chunks| ==> chunks[i].endOffset <= chunks[j].startOffset)
  }

  /** What the other users of the table may do while the import runs: an upsert of one of
      the file's SKUs is an earlier job's, and of a SKU in `earlier`. */
  ghost predicate LeavesAlone(cfg: Config, from: nat, earlier: set<string>, a: Action) {
    a.OtherUpsert? ==>
      forall k, p :: 0 <= k < |a.offers| && SkuAt(cfg, from, p, a.offers[k].sku) ==>
        a.offers[k].origin.job < cfg.jobId && a.offers[k].sku in earlier
  }

  predicate LinesPriced(cfg: Config, lines: seq<Line>) {
    forall k :: 0 <= k < |lines| ==> Priced(cfg, lines[k].text, lines[k].verdict)
  }

  /** The line was committed. */
  ghost predicate InLog(s: State, line: Line) {
    exists i, b, k :: 0 <= i < |s.log| && 0 <= b < |s.log[i]| && 0 <= k < |s.log[i][b].lines| && s.log[i][b].lines[k] == line
  }

  predicate AllPriced(cfg: Config, workers: map<nat, Worker>) {
    forall w :: w in workers ==> LinesPriced(cfg, workers[w].lines)
  }

  /** A line's own provenance. */
  function Own(cfg: Config, line: Line): Option<Provenance> {
    Some(Provenance(cfg.jobId, line.start))
  }

  /** A stored line's product: either the line was written, and the row carries its
      provenance and exactly its values; or it was skipped as no change, and the row still
      holds those values unless an earlier job's offer has reached it since. */
  predicate Landed(cfg: Config, earlier: set<string>, rows: map<string, ProductRow>, line: Line) {
    line.verdict.Stored? ==>
      && line.verdict.sku in rows
      && var row := rows[line.verdict.sku];
      && (row.origin == Own(cfg, line) || Older(cfg, row.origin))
      && (row.origin == Own(cfg, line) || line.verdict.sku !in earlier ==> row.values == line.verdict.values)
  }

  ghost predicate Taken(chunks: seq<Chunk>, at: nat) {
    exists i :: 0 <= i < |chunks| && chunks[i].startOffset <= at < chunks[i].nextOffset
  }

  predicate Older(cfg: Config, origin: Option<Provenance>) {
    origin.None? || origin.value.job < cfg.jobId
  }

  /** A product whose line is still to come has not been written by this job or a later one. */
  ghost predicate Awaiting(cfg: Config, from: nat, chunks: seq<Chunk>, rows: map<string, ProductRow>) {
    forall p, sku :: SkuAt(cfg, from, p, sku) && !Taken(chunks, p) && sku in rows ==> Older(cfg, rows[sku].origin)
  }

  ghost predicate BatchOk(cfg: Config, earlier: set<string>, rows: map<string, ProductRow>, batch: Batch) {
    && LinesPriced(cfg, batch.lines)
    && DistinctSkus(Upserts(cfg, batch.lines))
    && forall k :: 0 <= k < |batch.lines| ==> Landed(cfg, earlier, rows, batch.lines[k])
  }

  ghost predicate LogOk(cfg: Config, earlier: set<string>, s: State) {
    forall i, b :: 0 <= i < |s.log| && 0 <= b < |s.log[i]| ==> BatchOk(cfg, earlier, s.products.rows, s.log[i][b])
  }

  /** The invariant, over chunks that divide the body, with every line in hand priced. */
  ghost predicate Grounded(cfg: Config, from: nat, s: State) {
    && Inv(cfg, s)
    && Disjoint(cfg, from, s.chunks)
    && AllPriced(cfg, s.workers)
  }

  ghost predicate Landing(cfg: Config, from: nat, earlier: set<string>, s: State) {
    && Grounded(cfg, from, s)
    && LogOk(cfg, earlier, s)
    && Awaiting(cfg, from, s.chunks, s.products.rows)
  }

  /** An offset rows may start at: where the range starts, or just past a newline. */
  predicate AfterBreak(cfg: Config, from: nat, at: nat) {
    at == from || (0 < at <= |cfg.file| && cfg.file[at - 1] == NEWLINE)
  }

  lemma {:induction false} LineWithin(cfg: Config, limit: nat, from: nat, upTo: nat, lines: seq<Line>, k: nat)
    requires LinesOk(cfg, limit, from, upTo, lines) && k < |lines|
    ensures LineOk(cfg, limit, lines[k]) && from <= lines[k].start < lines[k].end <= upTo
    ensures AfterBreak(cfg, from, lines[k].start)
    ensures forall j :: k < j < |lines| ==> lines[k].end <= lines[j].start
    decreases |lines|
  {
    var init, last := lines[..|lines| - 1], lines[|lines| - 1];
    assert lines == init + [last];
    LinesAdvance(cfg, limit, from, last.start, init);
    LinesStop(cfg, limit, from, last.start, init);
    if k < |init| { LineWithin(cfg, limit, from, last.start, init, k); }
  }

  lemma {:induction false} BatchWithin(cfg: Config, limit: nat, from: nat, upTo: nat, batches: seq<Batch>, b: nat)
    requires Tiles(cfg, limit, from, upTo, batches) && b < |batches|
    ensures LinesOk(cfg, limit, batches[b].seen, batches[b].next, batches[b].lines)
    ensures from <= batches[b].seen <= batches[b].next <= upTo
    ensures AfterBreak(cfg, from, batches[b].seen)
    decreases |batches|
  {
    var init, last := batches[..|batches| - 1], batches[|batches| - 1];
    assert batches == init + [last];
    LinesAdvance(cfg, limit, last.seen, last.next, last.lines);
    TilesAdvance(cfg, limit, from, last.seen, init);
    LinesStop(cfg, limit, last.seen, last.next, last.lines);
    if b < |init| { BatchWithin(cfg, limit, from, last.seen, init, b); }
  }

  lemma {:induction false} TilesAdvance(cfg: Config, limit: nat, from: nat, upTo: nat, batches: seq<Batch>)
    requires Tiles(cfg, limit, from, upTo, batches)
    ensures from <= upTo
    ensures upTo == limit || AfterBreak(cfg, from, upTo)
    decreases |batches|
  {
    if batches != [] {
      var last := batches[|batches| - 1];
      TilesAdvance(cfg, limit, from, last.seen, batches[..|batches| - 1]);
      LinesAdvance(cfg, limit, last.seen, last.next, last.lines);
      LinesStop(cfg, limit, last.seen, last.next, last.lines);
    }
  }

  /** A stored line names the SKU of the row of the body it was read from. */
  lemma LineSells(cfg: Config, from: nat, limit: nat, line: Line)
    requires LineOk(cfg, limit, line) && Priced(cfg, line.text, line.verdict)
    requires RowAt(cfg, from, line.start) && IsCut(cfg.file, from, |cfg.file|, limit)
    requires line.verdict.Stored?
    ensures SkuAt(cfg, from, line.start, line.verdict.sku)
  {
    RowEndWithin(cfg.file, line.start, limit, |cfg.file|);
    assert SellsAs(cfg, line.start, line.text, line.verdict.sku);
  }

  lemma UpsertsAt(cfg: Config, lines: seq<Line>, k: nat) returns (at: nat)
    requires k < |lines| && lines[k].verdict.Stored?
    ensures at < |Upserts(cfg, lines)|
    ensures Upserts(cfg, lines)[at]
         == ProductUpsert(lines[k].verdict.sku, lines[k].verdict.values, Provenance(cfg.jobId, lines[k].start))
    decreases |lines|
  {
    var init, last := lines[..|lines| - 1], lines[|lines| - 1];
    assert lines == init + [last];
    if k < |init| { at := UpsertsAt(cfg, init, k); } else { at := |Upserts(cfg, init)|; }
  }

  lemma UpsertsFrom(cfg: Config, lines: seq<Line>, at: nat) returns (k: nat)
    requires at < |Upserts(cfg, lines)|
    ensures k < |lines| && lines[k].verdict.Stored?
    ensures Upserts(cfg, lines)[at]
         == ProductUpsert(lines[k].verdict.sku, lines[k].verdict.values, Provenance(cfg.jobId, lines[k].start))
    decreases |lines|
  {
    var init, last := lines[..|lines| - 1], lines[|lines| - 1];
    assert lines == init + [last];
    if at < |Upserts(cfg, init)| { k := UpsertsFrom(cfg, init, at); } else { k := |init|; }
  }

  /** Every stored line of these lines sells under the SKU of its own row of the body. */
  ghost predicate Sells(cfg: Config, from: nat, lines: seq<Line>) {
    forall k {:trigger lines[k]} :: 0 <= k < |lines| && lines[k].verdict.Stored? ==>
      SkuAt(cfg, from, lines[k].start, lines[k].verdict.sku)
  }

  lemma LinesSell(cfg: Config, from: nat, limit: nat, seen: nat, upTo: nat, lines: seq<Line>)
    requires OncePerSku(cfg, from) && LinesOk(cfg, limit, seen, upTo, lines) && LinesPriced(cfg, lines)
    requires IsCut(cfg.file, from, |cfg.file|, limit)
    requires from <= seen && AfterBreak(cfg, from, seen)
    ensures Sells(cfg, from, lines)
  {
    forall k {:trigger lines[k]} | 0 <= k < |lines| && lines[k].verdict.Stored?
      ensures SkuAt(cfg, from, lines[k].start, lines[k].verdict.sku)
    {
      LineWithin(cfg, limit, seen, upTo, lines, k);
      LineSells(cfg, from, limit, lines[k]);
    }
  }

  /** Lines of distinct rows make distinct products: nothing is deduplicated away. */
  lemma {:induction false} DistinctUpserts(cfg: Config, from: nat, limit: nat, seen: nat, upTo: nat, lines: seq<Line>)
    requires OncePerSku(cfg, from) && LinesOk(cfg, limit, seen, upTo, lines) && Sells(cfg, from, lines)
    ensures DistinctSkus(Upserts(cfg, lines))
    ensures |Upserts(cfg, lines)| + RefusedCount(lines) == |lines|
    decreases |lines|
  {
    if lines != [] {
      var init, last := lines[..|lines| - 1], lines[|lines| - 1];
      assert lines == init + [last];
      forall k {:trigger init[k]} | 0 <= k < |init| && init[k].verdict.Stored?
        ensures SkuAt(cfg, from, init[k].start, init[k].verdict.sku)
      {
        assert init[k] == lines[k];
      }
      DistinctUpserts(cfg, from, limit, seen, last.start, init);
      if last.verdict.Stored? {
        forall at | 0 <= at < |Upserts(cfg, init)|
          ensures Upserts(cfg, init)[at].sku != last.verdict.sku
        {
          var k := UpsertsFrom(cfg, init, at);
          LineWithin(cfg, limit, seen, last.start, init, k);
          assert lines[k] == init[k] && lines[|init|] == last;
        }
      }
    }
  }

  lemma {:induction false} DedupeDistinct(batch: seq<ProductUpsert>)
    requires DistinctSkus(batch)
    ensures Dedupe(batch) == batch
  {
    if batch != [] {
      var init, last := batch[..|batch| - 1], batch[|batch| - 1];
      assert batch == init + [last];
      DedupeDistinct(init);
      assert Position(init, last.sku) == |init|;
    }
  }

  /** Upserts of other SKUs leave a SKU's row alone, and do not create it. */
  lemma {:induction false} Untouched(table: Table, offers: seq<ProductUpsert>, sku: string)
    requires forall k :: 0 <= k < |offers| ==> offers[k].sku != sku
    ensures sku in UpsertRows(table, offers).rows <==> sku in table.rows
    ensures sku in table.rows ==> UpsertRows(table, offers).rows[sku] == table.rows[sku]
  {
    if offers != [] { Untouched(table, offers[..|offers| - 1], sku); }
  }

  /** A line that commits lands: its product had not been written by this job yet. */
  lemma LineLands(cfg: Config, from: nat, earlier: set<string>, chunks: seq<Chunk>, table: Table, lines: seq<Line>, k: nat)
    requires Awaiting(cfg, from, chunks, table.rows) && Sells(cfg, from, lines)
    requires DistinctSkus(Upserts(cfg, lines))
    requires k < |lines| && !Taken(chunks, lines[k].start)
    ensures Landed(cfg, earlier, UpsertRows(table, Upserts(cfg, lines)).rows, lines[k])
  {
    if lines[k].verdict.Stored? {
      var at := UpsertsAt(cfg, lines, k);
      var offer := Upserts(cfg, lines)[at];
      StatementAt(table, Upserts(cfg, lines), offer.sku);
      assert offer.sku in Skus(Upserts(cfg, lines));
      assert SkuAt(cfg, from, lines[k].start, offer.sku);
    }
  }

  /** A line of another row stays as it landed. */
  lemma LineStays(cfg: Config, from: nat, earlier: set<string>, table: Table, lines: seq<Line>, line: Line)
    requires OncePerSku(cfg, from) && Sells(cfg, from, lines)
    requires Landed(cfg, earlier, table.rows, line) && (line.verdict.Stored? ==> SkuAt(cfg, from, line.start, line.verdict.sku))
    requires forall k :: 0 <= k < |lines| ==> lines[k].start != line.start
    ensures Landed(cfg, earlier, UpsertRows(table, Upserts(cfg, lines)).rows, line)
  {
    if line.verdict.Stored? {
      forall at | 0 <= at < |Upserts(cfg, lines)| ensures Upserts(cfg, lines)[at].sku != line.verdict.sku {
        var k := UpsertsFrom(cfg, lines, at);
        assert lines[k].start != line.start;
      }
      Untouched(table, Upserts(cfg, lines), line.verdict.sku);
    }
  }

  ghost predicate Bounded(chunks: seq<Chunk>) {
    forall i :: 0 <= i < |chunks| ==> chunks[i].startOffset <= chunks[i].nextOffset <= chunks[i].endOffset
  }

  lemma InvBounds(cfg: Config, s: State)
    requires Inv(cfg, s)
    ensures Bounded(s.chunks)
  {
    forall i | 0 <= i < |s.chunks|
      ensures s.chunks[i].startOffset <= s.chunks[i].nextOffset <= s.chunks[i].endOffset
    {
      assert ChunkOk(cfg, s.chunks[i], s.log[i]);
    }
  }

  lemma NotTaken(cfg: Config, from: nat, chunks: seq<Chunk>, i: nat, at: nat)
    requires Disjoint(cfg, from, chunks) && Bounded(chunks) && i < |chunks|
    requires chunks[i].nextOffset <= at < chunks[i].endOffset
    ensures !Taken(chunks, at)
  {
  }

  /** An offset inside a chunk that a row may start at, seen from the body. */
  lemma CutInBody(cfg: Config, from: nat, c: Chunk, at: nat)
    requires c.endOffset <= |cfg.file| && c.startOffset <= at < c.endOffset
    requires IsCut(cfg.file, from, |cfg.file|, c.startOffset)
    requires AfterBreak(cfg, c.startOffset, at)
    ensures from <= at && AfterBreak(cfg, from, at)
  {
  }

  lemma TiledLine(cfg: Config, limit: nat, from: nat, upTo: nat, batches: seq<Batch>, b: nat, k: nat)
    requires Tiles(cfg, limit, from, upTo, batches) && b < |batches| && k < |batches[b].lines|
    ensures var line := batches[b].lines[k];
            && LineOk(cfg, limit, line) && from <= line.start < upTo
            && AfterBreak(cfg, from, line.start)
  {
    BatchWithin(cfg, limit, from, upTo, batches, b);
    LineWithin(cfg, limit, batches[b].seen, batches[b].next, batches[b].lines, k);
  }

  /** A committed line is of a row before its chunk's checkpoint, and sells its SKU. */
  lemma ChunkLine(cfg: Config, from: nat, c: Chunk, batches: seq<Batch>, b: nat, k: nat)
    requires OncePerSku(cfg, from) && ChunkOk(cfg, c, batches)
    requires IsCut(cfg.file, from, |cfg.file|, c.startOffset) && IsCut(cfg.file, from, |cfg.file|, c.endOffset)
    requires b < |batches| && k < |batches[b].lines| && LinesPriced(cfg, batches[b].lines)
    ensures var line := batches[b].lines[k];
            && c.startOffset <= line.start < c.nextOffset
            && (line.verdict.Stored? ==> SkuAt(cfg, from, line.start, line.verdict.sku))
  {
    TiledLine(cfg, c.endOffset, c.startOffset, c.nextOffset, batches, b, k);
    var line := batches[b].lines[k];
    if line.verdict.Stored? {
      CutInBody(cfg, from, c, line.start);
      LineSells(cfg, from, c.endOffset, line);
    }
  }

  lemma LoggedLine(cfg: Config, from: nat, earlier: set<string>, s: State, i: nat, b: nat, k: nat)
    requires Landing(cfg, from, earlier, s) && OncePerSku(cfg, from)
    requires i < |s.log| && b < |s.log[i]| && k < |s.log[i][b].lines|
    ensures var line := s.log[i][b].lines[k];
            && Taken(s.chunks, line.start)
            && (line.verdict.Stored? ==> SkuAt(cfg, from, line.start, line.verdict.sku))
  {
    assert ChunkOk(cfg, s.chunks[i], s.log[i]);
    assert BatchOk(cfg, earlier, s.products.rows, s.log[i][b]);
    ChunkLine(cfg, from, s.chunks[i], s.log[i], b, k);
  }

  /** What an invocation about to win a commit is holding. */
  lemma BatchInHand(cfg: Config, from: nat, c: Chunk, batches: seq<Batch>, worker: Worker)
    requires OncePerSku(cfg, from) && ChunkOk(cfg, c, batches) && ClaimOk(cfg, c, worker)
    requires IsCut(cfg.file, from, |cfg.file|, c.startOffset) && IsCut(cfg.file, from, |cfg.file|, c.endOffset)
    requires LinesPriced(cfg, worker.lines) && worker.lines != [] && c.nextOffset == worker.seen
    ensures Sells(cfg, from, worker.lines)
    ensures DistinctSkus(Upserts(cfg, worker.lines)) && Dedupe(Upserts(cfg, worker.lines)) == Upserts(cfg, worker.lines)
    ensures forall k :: 0 <= k < |worker.lines| ==> c.nextOffset <= worker.lines[k].start < worker.pos <= c.endOffset
  {
    LinesAdvance(cfg, c.endOffset, worker.seen, worker.pos, worker.lines);
    CutInBody(cfg, from, c, worker.seen);
    LinesSell(cfg, from, c.endOffset, worker.seen, worker.pos, worker.lines);
    DistinctUpserts(cfg, from, c.endOffset, worker.seen, worker.pos, worker.lines);
    DedupeDistinct(Upserts(cfg, worker.lines));
    forall k | 0 <= k < |worker.lines|
      ensures c.nextOffset <= worker.lines[k].start < worker.pos <= c.endOffset
    {
      LineWithin(cfg, c.endOffset, worker.seen, worker.pos, worker.lines, k);
    }
  }

  lemma Holding(cfg: Config, from: nat, s: State, w: nat)
    requires Grounded(cfg, from, s) && OncePerSku(cfg, from) && MayCommit(cfg, s, w)
    requires s.chunks[s.workers[w].chunk].nextOffset == s.workers[w].seen
    ensures var worker := s.workers[w];
            && LinesPriced(cfg, worker.lines) && Sells(cfg, from, worker.lines)
            && DistinctSkus(Upserts(cfg, worker.lines)) && Dedupe(Upserts(cfg, worker.lines)) == Upserts(cfg, worker.lines)
            && forall k :: 0 <= k < |worker.lines| ==>
                 worker.seen <= worker.lines[k].start < worker.pos && !Taken(s.chunks, worker.lines[k].start)
  {
    var worker := s.workers[w];
    var i := worker.chunk;
    assert WorkerOk(cfg, s.chunks, worker) && ChunkOk(cfg, s.chunks[i], s.log[i]);
    BatchInHand(cfg, from, s.chunks[i], s.log[i], worker);
    InvBounds(cfg, s);
    forall k | 0 <= k < |worker.lines| ensures !Taken(s.chunks, worker.lines[k].start) {
      NotTaken(cfg, from, s.chunks, i, worker.lines[k].start);
    }
  }

  lemma OldBatchStays(cfg: Config, from: nat, earlier: set<string>, s: State, lines: seq<Line>, i: nat, b: nat)
    requires Landing(cfg, from, earlier, s) && OncePerSku(cfg, from) && Sells(cfg, from, lines)
    requires forall k :: 0 <= k < |lines| ==> !Taken(s.chunks, lines[k].start)
    requires i < |s.log| && b < |s.log[i]|
    ensures BatchOk(cfg, earlier, UpsertRows(s.products, Upserts(cfg, lines)).rows, s.log[i][b])
  {
    var batch := s.log[i][b];
    assert BatchOk(cfg, earlier, s.products.rows, batch);
    forall k | 0 <= k < |batch.lines|
      ensures Landed(cfg, earlier, UpsertRows(s.products, Upserts(cfg, lines)).rows, batch.lines[k])
    {
      LoggedLine(cfg, from, earlier, s, i, b, k);
      LineStays(cfg, from, earlier, s.products, lines, batch.lines[k]);
    }
  }

  lemma NewBatchLands(cfg: Config, from: nat, earlier: set<string>, chunks: seq<Chunk>, table: Table, batch: Batch)
    requires Awaiting(cfg, from, chunks, table.rows) && Sells(cfg, from, batch.lines)
    requires LinesPriced(cfg, batch.lines) && DistinctSkus(Upserts(cfg, batch.lines))
    requires forall k :: 0 <= k < |batch.lines| ==> !Taken(chunks, batch.lines[k].start)
    ensures BatchOk(cfg, earlier, UpsertRows(table, Upserts(cfg, batch.lines)).rows, batch)
  {
    forall k | 0 <= k < |batch.lines|
      ensures Landed(cfg, earlier, UpsertRows(table, Upserts(cfg, batch.lines)).rows, batch.lines[k])
    {
      LineLands(cfg, from, earlier, chunks, table, batch.lines, k);
    }
  }

  lemma LogGrows(cfg: Config, from: nat, earlier: set<string>, s: State, i: nat, batch: Batch)
    requires Landing(cfg, from, earlier, s) && OncePerSku(cfg, from) && i < |s.log|
    requires Sells(cfg, from, batch.lines)
    requires LinesPriced(cfg, batch.lines) && DistinctSkus(Upserts(cfg, batch.lines))
    requires forall k :: 0 <= k < |batch.lines| ==> !Taken(s.chunks, batch.lines[k].start)
    ensures LogOk(cfg, earlier, s.(products := UpsertRows(s.products, Upserts(cfg, batch.lines)), log := s.log[i := s.log[i] + [batch]]))
  {
    var rows := UpsertRows(s.products, Upserts(cfg, batch.lines)).rows;
    var log := s.log[i := s.log[i] + [batch]];
    NewBatchLands(cfg, from, earlier, s.chunks, s.products, batch);
    forall j, b | 0 <= j < |log| && 0 <= b < |log[j]| ensures BatchOk(cfg, earlier, rows, log[j][b]) {
      if b < |s.log[j]| { OldBatchStays(cfg, from, earlier, s, batch.lines, j, b); }
    }
  }

  lemma CommitLands(cfg: Config, from: nat, earlier: set<string>, s: State, w: nat)
    requires Landing(cfg, from, earlier, s) && OncePerSku(cfg, from) && MayCommit(cfg, s, w)
    requires s.chunks[s.workers[w].chunk].nextOffset == s.workers[w].seen
    ensures LogOk(cfg, earlier, DoCommit(cfg, s, w))
  {
    var worker := s.workers[w];
    Holding(cfg, from, s, w);
    LogGrows(cfg, from, earlier, s, worker.chunk, Batch(worker.seen, worker.pos, worker.lines));
  }

  lemma CommitAwaits(cfg: Config, from: nat, earlier: set<string>, s: State, w: nat)
    requires Landing(cfg, from, earlier, s) && OncePerSku(cfg, from) && MayCommit(cfg, s, w)
    requires s.chunks[s.workers[w].chunk].nextOffset == s.workers[w].seen
    ensures Awaiting(cfg, from, DoCommit(cfg, s, w).chunks, DoCommit(cfg, s, w).products.rows)
  {
    var t := DoCommit(cfg, s, w);
    var worker := s.workers[w];
    var c := s.chunks[worker.chunk];
    assert ChunkOk(cfg, c, s.log[worker.chunk]);
    Holding(cfg, from, s, w);
    forall p, sku | SkuAt(cfg, from, p, sku) && !Taken(t.chunks, p) && sku in t.products.rows
      ensures Older(cfg, t.products.rows[sku].origin)
    {
      assert t.chunks[worker.chunk].nextOffset == worker.pos;
      forall at | 0 <= at < |Upserts(cfg, worker.lines)| ensures Upserts(cfg, worker.lines)[at].sku != sku {
        var k := UpsertsFrom(cfg, worker.lines, at);
        assert worker.lines[k].start != p;
      }
      Untouched(s.products, Upserts(cfg, worker.lines), sku);
      if Taken(s.chunks, p) { TakenStays(s.chunks, worker.chunk, t.chunks[worker.chunk], p); }
    }
  }

  lemma TakenStays(chunks: seq<Chunk>, i: nat, d: Chunk, at: nat)
    requires i < |chunks| && Advances(chunks[i], d) && Taken(chunks, at)
    ensures Taken(chunks[i := d], at)
  {
    var j :| 0 <= j < |chunks| && chunks[j].startOffset <= at < chunks[j].nextOffset;
    assert chunks[i := d][j].startOffset <= at < chunks[i := d][j].nextOffset;
  }

  lemma TakenMovesOn(s: State, t: State, at: nat)
    requires MovedOn(s, t) && Taken(s.chunks, at)
    ensures Taken(t.chunks, at)
  {
    var i :| 0 <= i < |s.chunks| && s.chunks[i].startOffset <= at < s.chunks[i].nextOffset;
    assert Advances(s.chunks[i], t.chunks[i]);
    assert t.chunks[i].startOffset <= at < t.chunks[i].nextOffset;
  }

  lemma DisjointStays(cfg: Config, from: nat, s: State, t: State)
    requires MovedOn(s, t) && Disjoint(cfg, from, s.chunks)
    ensures Disjoint(cfg, from, t.chunks)
  {
    forall i | 0 <= i < |s.chunks|
      ensures t.chunks[i].startOffset == s.chunks[i].startOffset && t.chunks[i].endOffset == s.chunks[i].endOffset
    {
      assert Advances(s.chunks[i], t.chunks[i]);
    }
  }

  lemma ReaderStaysPriced(cfg: Config, s: State, a: Action)
    requires AllPriced(cfg, s.workers) && (a.Claim? || a.Read? || a.Commit?)
    ensures AllPriced(cfg, Step(cfg, s, a).workers)
  {
    if a.w in s.workers { assert LinesPriced(cfg, s.workers[a.w].lines); }
  }

  lemma EnderStaysPriced(cfg: Config, s: State, a: Action)
    requires AllPriced(cfg, s.workers) && (a.Release? || a.Refresh? || a.Complete? || a.Return?)
    ensures AllPriced(cfg, Step(cfg, s, a).workers)
  {
  }

  lemma FailureStaysPriced(cfg: Config, s: State, a: Action)
    requires AllPriced(cfg, s.workers) && (a.Throw? || a.RecordFailure? || a.GiveUp? || a.Kill?)
    ensures AllPriced(cfg, Step(cfg, s, a).workers)
  {
  }

  lemma OtherStaysPriced(cfg: Config, s: State, a: Action)
    requires AllPriced(cfg, s.workers)
    requires a.Tick? || a.Start? || a.SweepComplete? || a.SweepFail? || a.OtherUpsert? || a.OtherInsert?
    ensures AllPriced(cfg, Step(cfg, s, a).workers)
  {
  }

  lemma LinesStayPriced(cfg: Config, s: State, a: Action)
    requires AllPriced(cfg, s.workers)
    ensures AllPriced(cfg, Step(cfg, s, a).workers)
  {
    if a.Claim? || a.Read? || a.Commit? {
      ReaderStaysPriced(cfg, s, a);
    } else if a.Release? || a.Refresh? || a.Complete? || a.Return? {
      EnderStaysPriced(cfg, s, a);
    } else if a.Throw? || a.RecordFailure? || a.GiveUp? || a.Kill? {
      FailureStaysPriced(cfg, s, a);
    } else {
      OtherStaysPriced(cfg, s, a);
    }
  }

  /** Offers of earlier jobs leave a row of this job alone, and an older row older. */
  lemma {:induction false} EarlierOffers(cfg: Config, table: Table, offers: seq<ProductUpsert>, sku: string)
    requires forall k :: 0 <= k < |offers| && offers[k].sku == sku ==> offers[k].origin.job < cfg.jobId
    ensures var rows := UpsertRows(table, offers).rows;
            && (sku in table.rows ==> sku in rows)
            && (sku in table.rows && !Older(cfg, table.rows[sku].origin) ==> rows[sku] == table.rows[sku])
            && (sku in rows && (sku in table.rows ==> Older(cfg, table.rows[sku].origin)) ==> Older(cfg, rows[sku].origin))
  {
    if offers != [] { EarlierOffers(cfg, table, offers[..|offers| - 1], sku); }
  }

  lemma LineOutlives(cfg: Config, from: nat, earlier: set<string>, table: Table, offers: seq<ProductUpsert>, line: Line)
    requires Landed(cfg, earlier, table.rows, line) && (line.verdict.Stored? ==> SkuAt(cfg, from, line.start, line.verdict.sku))
    requires LeavesAlone(cfg, from, earlier, OtherUpsert(offers))
    ensures Landed(cfg, earlier, UpsertRows(table, offers).rows, line)
  {
    if line.verdict.Stored? {
      EarlierOffers(cfg, table, offers, line.verdict.sku);
      if line.verdict.sku !in earlier { Untouched(table, offers, line.verdict.sku); }
    }
  }

  lemma UpsertLands(cfg: Config, from: nat, earlier: set<string>, s: State, offers: seq<ProductUpsert>)
    requires Landing(cfg, from, earlier, s) && OncePerSku(cfg, from) && LeavesAlone(cfg, from, earlier, OtherUpsert(offers))
    ensures var t := s.(products := UpsertRows(s.products, offers));
            LogOk(cfg, earlier, t) && Awaiting(cfg, from, t.chunks, t.products.rows)
  {
    var rows := UpsertRows(s.products, offers).rows;
    forall i, b | 0 <= i < |s.log| && 0 <= b < |s.log[i]| ensures BatchOk(cfg, earlier, rows, s.log[i][b]) {
      var batch := s.log[i][b];
      assert BatchOk(cfg, earlier, s.products.rows, batch);
      forall k | 0 <= k < |batch.lines| ensures Landed(cfg, earlier, rows, batch.lines[k]) {
        LoggedLine(cfg, from, earlier, s, i, b, k);
        LineOutlives(cfg, from, earlier, s.products, offers, batch.lines[k]);
      }
    }
    forall p, sku | SkuAt(cfg, from, p, sku) && !Taken(s.chunks, p) && sku in rows
      ensures Older(cfg, rows[sku].origin)
    {
      EarlierOffers(cfg, s.products, offers, sku);
    }
  }

  lemma InsertLands(cfg: Config, from: nat, earlier: set<string>, s: State, sku: string, row: ProductRow)
    requires LogOk(cfg, earlier, s) && Awaiting(cfg, from, s.chunks, s.products.rows)
    requires sku !in s.products.rows && row.origin.None?
    ensures var rows := s.products.rows[sku := row];
            && Awaiting(cfg, from, s.chunks, rows)
            && forall i, b :: 0 <= i < |s.log| && 0 <= b < |s.log[i]| ==> BatchOk(cfg, earlier, rows, s.log[i][b])
  {
    var rows := s.products.rows[sku := row];
    forall i, b | 0 <= i < |s.log| && 0 <= b < |s.log[i]| ensures BatchOk(cfg, earlier, rows, s.log[i][b]) {
      assert BatchOk(cfg, earlier, s.products.rows, s.log[i][b]);
    }
  }

  /** Any other step leaves products and log alone, and commits nothing. */
  lemma QuietStep(cfg: Config, s: State, a: Action)
    requires !a.OtherUpsert? && !a.OtherInsert?
    requires a.Commit? && MayCommit(cfg, s, a.w) ==> s.chunks[s.workers[a.w].chunk].nextOffset != s.workers[a.w].seen
    ensures Step(cfg, s, a).products == s.products && Step(cfg, s, a).log == s.log
  {
  }

  lemma QuietFollows(cfg: Config, from: nat, earlier: set<string>, s: State, a: Action)
    requires Landing(cfg, from, earlier, s) && !a.OtherUpsert? && !a.OtherInsert?
    requires a.Commit? && MayCommit(cfg, s, a.w) ==> s.chunks[s.workers[a.w].chunk].nextOffset != s.workers[a.w].seen
    ensures LogOk(cfg, earlier, Step(cfg, s, a))
    ensures Awaiting(cfg, from, Step(cfg, s, a).chunks, Step(cfg, s, a).products.rows)
  {
    QuietStep(cfg, s, a);
    StepMovesOn(cfg, s, a);
    StillAwaiting(cfg, from, s, Step(cfg, s, a));
  }

  lemma StillAwaiting(cfg: Config, from: nat, s: State, t: State)
    requires MovedOn(s, t) && t.products == s.products && Awaiting(cfg, from, s.chunks, s.products.rows)
    ensures Awaiting(cfg, from, t.chunks, t.products.rows)
  {
    forall p, sku | SkuAt(cfg, from, p, sku) && !Taken(t.chunks, p) && sku in t.products.rows
      ensures Older(cfg, t.products.rows[sku].origin)
    {
      if Taken(s.chunks, p) { TakenMovesOn(s, t, p); }
    }
  }

  lemma InsertFollows(cfg: Config, from: nat, earlier: set<string>, s: State, sku: string, values: Values)
    requires LogOk(cfg, earlier, s) && Awaiting(cfg, from, s.chunks, s.products.rows)
    ensures var t := Step(cfg, s, OtherInsert(sku, values));
            LogOk(cfg, earlier, t) && Awaiting(cfg, from, t.chunks, t.products.rows)
  {
    if sku !in s.products.rows {
      InsertLands(cfg, from, earlier, s, sku, ProductRow(s.products.nextId, values, None));
    }
  }

  lemma OtherFollows(cfg: Config, from: nat, earlier: set<string>, s: State, a: Action)
    requires Landing(cfg, from, earlier, s) && OncePerSku(cfg, from) && LeavesAlone(cfg, from, earlier, a)
    requires a.OtherUpsert? || a.OtherInsert?
    ensures LogOk(cfg, earlier, Step(cfg, s, a))
    ensures Awaiting(cfg, from, Step(cfg, s, a).chunks, Step(cfg, s, a).products.rows)
  {
    if a.OtherUpsert? {
      UpsertLands(cfg, from, earlier, s, a.offers);
    } else {
      InsertFollows(cfg, from, earlier, s, a.sku, a.values);
    }
  }

  lemma ProductsFollow(cfg: Config, from: nat, earlier: set<string>, s: State, a: Action)
    requires Landing(cfg, from, earlier, s) && OncePerSku(cfg, from) && LeavesAlone(cfg, from, earlier, a)
    ensures LogOk(cfg, earlier, Step(cfg, s, a))
    ensures Awaiting(cfg, from, Step(cfg, s, a).chunks, Step(cfg, s, a).products.rows)
  {
    if a.OtherUpsert? || a.OtherInsert? {
      OtherFollows(cfg, from, earlier, s, a);
    } else if a.Commit? && MayCommit(cfg, s, a.w) && s.chunks[s.workers[a.w].chunk].nextOffset == s.workers[a.w].seen {
      CommitLands(cfg, from, earlier, s, a.w);
      CommitAwaits(cfg, from, earlier, s, a.w);
    } else {
      QuietFollows(cfg, from, earlier, s, a);
    }
  }

  lemma StepGrounded(cfg: Config, from: nat, s: State, a: Action)
    requires cfg.Valid() && Grounded(cfg, from, s)
    ensures Grounded(cfg, from, Step(cfg, s, a))
  {
    StepKeeps(cfg, s, a);
    StepMovesOn(cfg, s, a);
    DisjointStays(cfg, from, s, Step(cfg, s, a));
    LinesStayPriced(cfg, s, a);
  }

  lemma StepLands(cfg: Config, from: nat, earlier: set<string>, s: State, a: Action)
    requires cfg.Valid() && Landing(cfg, from, earlier, s) && OncePerSku(cfg, from) && LeavesAlone(cfg, from, earlier, a)
    ensures Landing(cfg, from, earlier, Step(cfg, s, a))
  {
    ProductsFollow(cfg, from, earlier, s, a);
    StepGrounded(cfg, from, s, a);
  }

  lemma {:induction false} RunLands(cfg: Config, from: nat, earlier: set<string>, s: State, acts: seq<Action>)
    requires cfg.Valid() && Landing(cfg, from, earlier, s) && OncePerSku(cfg, from)
    requires forall k :: 0 <= k < |acts| ==> LeavesAlone(cfg, from, earlier, acts[k])
    ensures Landing(cfg, from, earlier, Run(cfg, s, acts))
    decreases |acts|
  {
    if acts != [] {
      RunLands(cfg, from, earlier, s, acts[..|acts| - 1]);
      StepLands(cfg, from, earlier, Run(cfg, s, acts[..|acts| - 1]), acts[|acts| - 1]);
    }
  }

  /** A commit writes no SKU of a row committed before it. */
  lemma CommitMisses(cfg: Config, from: nat, s: State, w: nat, at: nat, sku: string)
    requires Grounded(cfg, from, s) && OncePerSku(cfg, from) && MayCommit(cfg, s, w)
    requires s.chunks[s.workers[w].chunk].nextOffset == s.workers[w].seen
    requires SkuAt(cfg, from, at, sku) && Taken(s.chunks, at) && sku in s.products.rows
    ensures var rows := DoCommit(cfg, s, w).products.rows; sku in rows && rows[sku] == s.products.rows[sku]
  {
    Holding(cfg, from, s, w);
    var lines := s.workers[w].lines;
    forall j | 0 <= j < |Upserts(cfg, lines)| ensures Upserts(cfg, lines)[j].sku != sku {
      var k := UpsertsFrom(cfg, lines, j);
      assert lines[k].start != at;
    }
    Untouched(s.products, Upserts(cfg, lines), sku);
  }

  lemma OthersMiss(cfg: Config, from: nat, earlier: set<string>, s: State, a: Action, at: nat, sku: string)
    requires LeavesAlone(cfg, from, earlier, a) && (a.OtherUpsert? || a.OtherInsert?)
    requires SkuAt(cfg, from, at, sku) && sku in s.products.rows && !Older(cfg, s.products.rows[sku].origin)
    ensures sku in Step(cfg, s, a).products.rows && Step(cfg, s, a).products.rows[sku] == s.products.rows[sku]
  {
    if a.OtherUpsert? { EarlierOffers(cfg, s.products, a.offers, sku); }
  }

  /** A row that is this job's own is out of reach of every step that follows: its line is
      committed, no other line sells its SKU, and an earlier job's offers do not beat it. */
  lemma OwnRowStays(cfg: Config, from: nat, earlier: set<string>, s: State, a: Action, at: nat, sku: string)
    requires Landing(cfg, from, earlier, s) && OncePerSku(cfg, from) && LeavesAlone(cfg, from, earlier, a)
    requires SkuAt(cfg, from, at, sku) && Taken(s.chunks, at)
    requires sku in s.products.rows && !Older(cfg, s.products.rows[sku].origin)
    ensures sku in Step(cfg, s, a).products.rows && Step(cfg, s, a).products.rows[sku] == s.products.rows[sku]
  {
    if a.OtherUpsert? || a.OtherInsert? {
      OthersMiss(cfg, from, earlier, s, a, at, sku);
    } else if a.Commit? && MayCommit(cfg, s, a.w) && s.chunks[s.workers[a.w].chunk].nextOffset == s.workers[a.w].seen {
      CommitMisses(cfg, from, s, a.w, at, sku);
    } else {
      QuietStep(cfg, s, a);
    }
  }

  lemma {:induction false} OwnRowOutlives(cfg: Config, from: nat, earlier: set<string>, s: State, acts: seq<Action>, at: nat, sku: string)
    requires cfg.Valid() && Landing(cfg, from, earlier, s) && OncePerSku(cfg, from)
    requires forall k :: 0 <= k < |acts| ==> LeavesAlone(cfg, from, earlier, acts[k])
    requires SkuAt(cfg, from, at, sku) && Taken(s.chunks, at)
    requires sku in s.products.rows && !Older(cfg, s.products.rows[sku].origin)
    ensures var t := Run(cfg, s, acts);
            sku in t.products.rows && t.products.rows[sku] == s.products.rows[sku] && Taken(t.chunks, at)
    decreases |acts|
  {
    if acts != [] {
      var init, a := acts[..|acts| - 1], acts[|acts| - 1];
      OwnRowOutlives(cfg, from, earlier, s, init, at, sku);
      RunLands(cfg, from, earlier, s, init);
      var mid := Run(cfg, s, init);
      OwnRowStays(cfg, from, earlier, mid, a, at, sku);
      StepMovesOn(cfg, mid, a);
      TakenMovesOn(mid, Step(cfg, mid, a), at);
    }
  }

  /** A line that was written, and not skipped, keeps exactly its row in every later state,
      whatever earlier jobs still offer. */
  lemma {:induction false} WrittenLineStays(cfg: Config, from: nat, earlier: set<string>, s: State, acts: seq<Action>,
                                            i: nat, b: nat, k: nat)
    requires cfg.Valid() && Landing(cfg, from, earlier, s) && OncePerSku(cfg, from)
    requires forall k :: 0 <= k < |acts| ==> LeavesAlone(cfg, from, earlier, acts[k])
    requires i < |s.log| && b < |s.log[i]| && k < |s.log[i][b].lines|
    requires var line := s.log[i][b].lines[k];
             line.verdict.Stored? && line.verdict.sku in s.products.rows && s.products.rows[line.verdict.sku].origin == Own(cfg, line)
    ensures var line := s.log[i][b].lines[k];
            var rows := Run(cfg, s, acts).products.rows;
            && line.verdict.sku in rows && rows[line.verdict.sku] == s.products.rows[line.verdict.sku]
            && rows[line.verdict.sku].values == line.verdict.values
  {
    var line := s.log[i][b].lines[k];
    LoggedLine(cfg, from, earlier, s, i, b, k);
    assert BatchOk(cfg, earlier, s.products.rows, s.log[i][b]);
    assert Landed(cfg, earlier, s.products.rows, line);
    OwnRowOutlives(cfg, from, earlier, s, acts, line.start, line.verdict.sku);
  }
}
