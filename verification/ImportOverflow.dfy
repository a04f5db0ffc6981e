/** Stock the parser accepts and its column cannot hold: what one such row does to the batch,
    the chunk and the job it is in. */
module ImportOverflow {
  import opened FileRows
  import opened ChunkBoundaries
  import opened Decimal
  import opened VendorCsv
  import opened ProductStore
  import opened ImportTables
  import opened ImportMachine
  import opened ImportInvariant
  import opened ImportTheorems
  import opened ImportLanding
  import opened ImportEndToEnd

  function OfferOf(cfg: Config, line: Line): ProductUpsert
    requires line.verdict.Stored?
  {
    ProductUpsert(line.verdict.sku, line.verdict.values, Provenance(cfg.jobId, line.start))
  }

  /** Line `k` is stored and no later line of the batch is stored under its SKU. */
  predicate LastOfItsSku(lines: seq<Line>, k: nat) {
    && k < |lines| && lines[k].verdict.Stored?
    && forall j :: k < j < |lines| && lines[j].verdict.Stored? ==> lines[j].verdict.sku != lines[k].verdict.sku
  }

  predicate Keeps(cfg: Config, lines: seq<Line>, k: nat, offer: ProductUpsert) {
    LastOfItsSku(lines, k) && offer == OfferOf(cfg, lines[k])
  }

  lemma PutMembers(offers: seq<ProductUpsert>, offer: ProductUpsert, row: ProductUpsert)
    requires DistinctSkus(offers)
    ensures row in Put(offers, offer) <==> row == offer || (row in offers && row.sku != offer.sku)
  {
    var at, rows := Position(offers, offer.sku), Put(offers, offer);
    assert rows[at] == offer;
    if row in offers && row.sku != offer.sku {
      var k :| 0 <= k < |offers| && offers[k] == row;
      assert rows[k] == row;
    }
    if row in rows && row != offer {
      var k :| 0 <= k < |rows| && rows[k] == row;
      assert offers[k] == row && offers[k].sku in Skus(offers);
    }
  }

  /** The statement's rows are the batch's lines, each the last stored under its SKU. */
  lemma {:induction false} KeptAreLast(cfg: Config, lines: seq<Line>, offer: ProductUpsert)
    ensures offer in Dedupe(Upserts(cfg, lines)) <==> exists k: nat :: Keeps(cfg, lines, k, offer)
    decreases |lines|
  {
    if lines != [] {
      var init, last := lines[..|lines| - 1], lines[|lines| - 1];
      assert lines == init + [last];
      KeptAreLast(cfg, init, offer);
      if last.verdict.Stored? {
        var offers := Upserts(cfg, init) + [OfferOf(cfg, last)];
        assert offers[..|offers| - 1] == Upserts(cfg, init);
        PutMembers(Dedupe(Upserts(cfg, init)), OfferOf(cfg, last), offer);
      } else {
        assert Upserts(cfg, lines) == Upserts(cfg, init);
      }
      LastGrows(cfg, init, last, offer);
    }
  }

  lemma LastGrows(cfg: Config, init: seq<Line>, last: Line, offer: ProductUpsert)
    ensures (exists k: nat :: Keeps(cfg, init + [last], k, offer))
            <==> if last.verdict.Stored?
                 then offer == OfferOf(cfg, last)
                      || (offer.sku != last.verdict.sku && exists k: nat :: Keeps(cfg, init, k, offer))
                 else exists k: nat :: Keeps(cfg, init, k, offer)
  {
    var lines := init + [last];
    forall k: nat | k < |init|
      ensures Keeps(cfg, lines, k, offer)
              <==> Keeps(cfg, init, k, offer) && (last.verdict.Stored? ==> offer.sku != last.verdict.sku)
    {
      assert lines[k] == init[k] && lines[|init|] == last;
      assert forall j :: k < j < |init| ==> lines[j] == init[j];
    }
    assert last.verdict.Stored? ==> Keeps(cfg, lines, |init|, OfferOf(cfg, last));
  }

  predicate Oversized(line: Line) {
    line.verdict.Stored? && 2_147_483_647 < line.verdict.values.stockQuantity
  }

  /** When the commit of a batch throws: exactly if a line it would store, the last of its
      SKU in the batch, has more stock than the column holds. */
  lemma CommitThrowsIff(cfg: Config, s: State, w: nat)
    requires BatchDue(cfg, s, w)
    ensures !MayCommit(cfg, s, w)
            <==> exists k: nat :: LastOfItsSku(s.workers[w].lines, k) && Oversized(s.workers[w].lines[k])
  {
    StorableIff(cfg, s.workers[w].lines);
  }

  lemma StorableIff(cfg: Config, lines: seq<Line>)
    ensures Storable(Dedupe(Upserts(cfg, lines))) <==> forall k: nat :: LastOfItsSku(lines, k) ==> !Oversized(lines[k])
  {
    var rows := Dedupe(Upserts(cfg, lines));
    forall k: nat | LastOfItsSku(lines, k) ensures OfferOf(cfg, lines[k]) in rows {
      KeptAreLast(cfg, lines, OfferOf(cfg, lines[k]));
      assert Keeps(cfg, lines, k, OfferOf(cfg, lines[k]));
    }
    forall at | 0 <= at < |rows| ensures exists k: nat :: Keeps(cfg, lines, k, rows[at]) {
      KeptAreLast(cfg, lines, rows[at]);
    }
  }

  ghost predicate BatchFits(cfg: Config, batch: Batch) {
    LinesPriced(cfg, batch.lines) && Storable(Dedupe(Upserts(cfg, batch.lines)))
  }

  /** Whatever was committed was priced, and the table could hold it. */
  ghost predicate LogFits(cfg: Config, s: State) {
    && |s.chunks| == |s.log| == |s.holders|
    && AllPriced(cfg, s.workers)
    && forall i, b :: 0 <= i < |s.log| && 0 <= b < |s.log[i]| ==> BatchFits(cfg, s.log[i][b])
  }

  lemma CommitFits(cfg: Config, s: State, w: nat)
    requires LogFits(cfg, s)
    ensures var log := DoCommit(cfg, s, w).log;
            forall i, b :: 0 <= i < |log| && 0 <= b < |log[i]| ==> BatchFits(cfg, log[i][b])
  {
    var log := DoCommit(cfg, s, w).log;
    if MayCommit(cfg, s, w) {
      var worker := s.workers[w];
      assert BatchFits(cfg, Batch(worker.seen, worker.pos, worker.lines));
      forall i, b | 0 <= i < |log| && 0 <= b < |log[i]| ensures BatchFits(cfg, log[i][b]) {
        if b < |s.log[i]| { assert BatchFits(cfg, s.log[i][b]); }
      }
    }
  }

  lemma OthersCommitNothing(cfg: Config, s: State, a: Action)
    requires !a.Commit?
    ensures Step(cfg, s, a).log == s.log
  {
  }

  lemma {:induction false} RunFits(cfg: Config, s: State, acts: seq<Action>)
    requires cfg.Valid() && Inv(cfg, s) && LogFits(cfg, s)
    ensures Inv(cfg, Run(cfg, s, acts)) && LogFits(cfg, Run(cfg, s, acts))
    decreases |acts|
  {
    if acts != [] {
      var init, a := acts[..|acts| - 1], acts[|acts| - 1];
      RunFits(cfg, s, init);
      var mid := Run(cfg, s, init);
      StepKeeps(cfg, mid, a);
      LinesStayPriced(cfg, mid, a);
      if a.Commit? { CommitFits(cfg, mid, a.w); } else { OthersCommitNothing(cfg, mid, a); }
    }
  }

  /** However the row at `at` is held, the parser accepts it, the rules do not refuse it, and
      its stock is more than the column holds. */
  ghost predicate OversizedAt(cfg: Config, at: nat)
    requires at < |cfg.file|
  {
    forall kept :: Held(TextAt(cfg, at), kept, cfg.cap, cfg.window) ==>
      var parsed := cfg.parse(kept);
      parsed.Ok? && 2_147_483_647 < parsed.row.stockQuantity && !cfg.rules(parsed.row, None)
  }

  /** In the vendor's format that is every row, within the cap, with a stock above the column's
      bound and up to the parser's, whatever its other fields, that the rules do not refuse. */
  lemma PrintedOversized(cfg: Config, at: nat, row: VendorRow, quotes: seq<bool>)
    requires forall text :: cfg.parse(text) == ParseVendorRow(text)
    requires IsTrimmed(row.sku) && IsTrimmed(row.name) && IsTrimmed(row.category) && Printable(FieldsOf(row), quotes)
    requires at < |cfg.file| && TextAt(cfg, at) == Print(FieldsOf(row), quotes) && |TextAt(cfg, at)| <= cfg.cap
    requires row.vendorPriceCents <= MAX_SAFE_INTEGER && !cfg.rules(row, None)
    ensures OversizedAt(cfg, at) <==> 2_147_483_647 < row.stockQuantity <= 9_007_199_254_740_991
  {
    RowRoundTrip(row, quotes);
    assert Held(TextAt(cfg, at), TextAt(cfg, at), cfg.cap, cfg.window);
  }

  /** In a body where no SKU repeats, a line of a batch is the last of its SKU. */
  lemma LastInItsBatch(cfg: Config, from: nat, s: State, i: nat, b: nat, k: nat)
    requires OncePerSku(cfg, from) && Inv(cfg, s) && LogFits(cfg, s) && Disjoint(cfg, from, s.chunks)
    requires i < |s.chunks| && b < |s.log[i]| && k < |s.log[i][b].lines| && s.log[i][b].lines[k].verdict.Stored?
    ensures LastOfItsSku(s.log[i][b].lines, k)
  {
    var c, batch := s.chunks[i], s.log[i][b];
    assert ChunkOk(cfg, c, s.log[i]) && BatchFits(cfg, batch);
    BatchWithin(cfg, c.endOffset, c.startOffset, c.nextOffset, s.log[i], b);
    LineWithin(cfg, c.endOffset, batch.seen, batch.next, batch.lines, k);
    ChunkLine(cfg, from, c, s.log[i], b, k);
    forall j | k < j < |batch.lines| && batch.lines[j].verdict.Stored?
      ensures batch.lines[j].verdict.sku != batch.lines[k].verdict.sku
    {
      ChunkLine(cfg, from, c, s.log[i], b, j);
      assert batch.lines[k].start < batch.lines[j].start;
    }
  }

  lemma NeverBehind(cfg: Config, from: nat, s: State, at: nat)
    requires OncePerSku(cfg, from) && Inv(cfg, s) && LogFits(cfg, s) && Disjoint(cfg, from, s.chunks)
    requires RowAt(cfg, from, at) && OversizedAt(cfg, at)
    ensures !Taken(s.chunks, at)
  {
    if Taken(s.chunks, at) {
      var i :| 0 <= i < |s.chunks| && s.chunks[i].startOffset <= at < s.chunks[i].nextOffset;
      var b, j := LineBehind(cfg, from, s, i, at);
      assert BatchFits(cfg, s.log[i][b]);
      var lines := s.log[i][b].lines;
      assert Priced(cfg, lines[j].text, lines[j].verdict) && Oversized(lines[j]);
      LastInItsBatch(cfg, from, s, i, b, j);
      StorableIff(cfg, lines);
    }
  }

  /** One row whose stock is accepted and cannot be stored: in a file where no SKU repeats, no
      run commits it. Its chunk's checkpoint never passes it, every batch that reaches it
      throws, and the job is never completed. */
  lemma {:induction false} OversizedRowBlocks(cfg: Config, now: nat, products: Table, target: nat, bs: seq<ChunkBoundary>,
                                              acts: seq<Action>, at: nat)
    requires cfg.Valid() && Splits(cfg.file, FirstRow(cfg.file), target, bs)
    requires OncePerSku(cfg, FirstRow(cfg.file)) && RowAt(cfg, FirstRow(cfg.file), at) && OversizedAt(cfg, at)
    ensures var s := Run(cfg, Register(now, products, bs), acts);
            !Taken(s.chunks, at) && s.job.status != JobCompleted
  {
    var from, s0 := FirstRow(cfg.file), Register(now, products, bs);
    RegisterIsRegistered(cfg, now, products, target, bs);
    RunFits(cfg, s0, acts);
    NeverGoesBack(cfg, s0, acts);
    var s := Run(cfg, s0, acts);
    DisjointStays(cfg, from, s0, s);
    NeverBehind(cfg, from, s, at);
    RangesStay(cfg, now, products, bs, acts);
    var i := ChunkHolding(cfg.file, from, target, bs, at);
    if s.job.status == JobCompleted { CompletedIsWhole(cfg, s0, acts); }
  }
}
