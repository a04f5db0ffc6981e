/** What becomes of a committed line's values: its product follows the offers other users of
    the table make of its SKU, and nothing else, so whether the values stay is decided by them. */
module LineValues {
  import opened FileRows
  import opened ProductStore
  import opened ArrivalOrder
  import opened ImportTables
  import opened ImportMachine
  import opened ImportInvariant
  import opened ImportTheorems
  import opened ImportLanding
  import opened ChunkBoundaries
  import opened ImportEndToEnd

  /** The offers of one SKU an action makes: a statement that throws makes none. */
  function OffersOf(a: Action, sku: string): seq<ProductUpsert> {
    if a.OtherUpsert? && DistinctSkus(a.offers) && Storable(a.offers) then OffersFor(a.offers, sku) else []
  }

  /** ... and a run, in arrival order. */
  function OffersIn(acts: seq<Action>, sku: string): seq<ProductUpsert> {
    if acts == [] then []
    else OffersIn(acts[..|acts| - 1], sku) + OffersOf(acts[|acts| - 1], sku)
  }

  /** A row of the body that is committed, and whose product is there. */
  ghost predicate Settled(cfg: Config, from: nat, s: State, at: nat, sku: string) {
    SkuAt(cfg, from, at, sku) && Taken(s.chunks, at) && sku in s.products.rows
  }

  lemma OfferNone(row: ProductRow)
    ensures OfferAll(row, []) == row
  {
  }

  lemma OtherStep(cfg: Config, s: State, a: Action, sku: string)
    requires sku in s.products.rows && (a.OtherUpsert? || a.OtherInsert?)
    ensures var rows := Step(cfg, s, a).products.rows;
            sku in rows && rows[sku] == OfferAll(s.products.rows[sku], OffersOf(a, sku))
  {
    if a.OtherUpsert? { RowsIndependent(s.products, a.offers, sku); }
    OfferNone(s.products.rows[sku]);
  }

  /** One step: the product of a committed row takes what others offer it, and no more. */
  lemma StepFollows(cfg: Config, from: nat, s: State, a: Action, at: nat, sku: string)
    requires Grounded(cfg, from, s) && OncePerSku(cfg, from) && Settled(cfg, from, s, at, sku)
    ensures Settled(cfg, from, Step(cfg, s, a), at, sku)
    ensures Step(cfg, s, a).products.rows[sku] == OfferAll(s.products.rows[sku], OffersOf(a, sku))
  {
    StepMovesOn(cfg, s, a);
    TakenMovesOn(s, Step(cfg, s, a), at);
    if a.OtherUpsert? || a.OtherInsert? {
      OtherStep(cfg, s, a, sku);
    } else {
      OfferNone(s.products.rows[sku]);
      if a.Commit? && MayCommit(cfg, s, a.w) && s.chunks[s.workers[a.w].chunk].nextOffset == s.workers[a.w].seen {
        CommitMisses(cfg, from, s, a.w, at, sku);
      } else {
        QuietStep(cfg, s, a);
      }
    }
  }

  /** Over any run, whoever else writes and whatever they offer: once its row is committed, a
      product is what others' offers make of the row as it was. */
  lemma {:induction false} ProductFollows(cfg: Config, from: nat, s: State, acts: seq<Action>, at: nat, sku: string)
    requires cfg.Valid() && Grounded(cfg, from, s) && OncePerSku(cfg, from) && Settled(cfg, from, s, at, sku)
    ensures Grounded(cfg, from, Run(cfg, s, acts)) && Settled(cfg, from, Run(cfg, s, acts), at, sku)
    ensures Run(cfg, s, acts).products.rows[sku] == OfferAll(s.products.rows[sku], OffersIn(acts, sku))
    decreases |acts|
  {
    if acts == [] {
      OfferNone(s.products.rows[sku]);
    } else {
      var init, a := acts[..|acts| - 1], acts[|acts| - 1];
      ProductFollows(cfg, from, s, init, at, sku);
      var mid := Run(cfg, s, init);
      StepFollows(cfg, from, mid, a, at, sku);
      StepGrounded(cfg, from, mid, a);
      OfferConcat(s.products.rows[sku], OffersIn(init, sku), OffersOf(a, sku));
    }
  }

  /** A statement offers a SKU at most once. */
  lemma {:induction false} OneOffer(offers: seq<ProductUpsert>, sku: string)
    requires DistinctSkus(offers)
    ensures |OffersFor(offers, sku)| <= 1
    ensures sku !in Skus(offers) ==> OffersFor(offers, sku) == []
  {
    if offers != [] {
      var init := offers[..|offers| - 1];
      SkusSnoc(offers);
      assert offers[|offers| - 1].sku !in Skus(init);
      OneOffer(init, sku);
    }
  }

  /** An offer that leaves a row with these values as it is. */
  predicate Harmless(row: ProductRow, offer: ProductUpsert) {
    offer.values == row.values || !Beats(offer, row)
  }

  ghost predicate AllHarmless(row: ProductRow, offers: seq<ProductUpsert>) {
    forall offer :: offer in offers ==> Harmless(row, offer)
  }

  lemma {:induction false} HarmlessChangesNothing(row: ProductRow, offers: seq<ProductUpsert>)
    requires AllHarmless(row, offers)
    ensures OfferAll(row, offers) == row
    decreases |offers|
  {
    if offers != [] {
      var init, last := offers[..|offers| - 1], offers[|offers| - 1];
      assert offers == init + [last];
      HarmlessChangesNothing(row, init);
      assert last in offers;
    }
  }

  /** The product holds these values in every state of the run. */
  ghost predicate HoldsThroughout(cfg: Config, s: State, acts: seq<Action>, sku: string, values: Values) {
    forall n :: 0 <= n <= |acts| ==> HoldsAt(Run(cfg, s, acts[..n]), sku, values)
  }

  predicate HoldsAt(s: State, sku: string, values: Values) {
    sku in s.products.rows && s.products.rows[sku].values == values
  }

  lemma ThroughoutInit(cfg: Config, s: State, acts: seq<Action>, sku: string, values: Values)
    requires acts != []
    ensures HoldsThroughout(cfg, s, acts, sku, values)
            <==> HoldsThroughout(cfg, s, acts[..|acts| - 1], sku, values) && HoldsAt(Run(cfg, s, acts), sku, values)
  {
    var init := acts[..|acts| - 1];
    forall n | 0 <= n <= |init| ensures init[..n] == acts[..n] { }
    assert acts[..|acts|] == acts;
    if HoldsThroughout(cfg, s, acts, sku, values) {
      forall n | 0 <= n <= |init| ensures HoldsAt(Run(cfg, s, init[..n]), sku, values) {
        assert HoldsAt(Run(cfg, s, acts[..n]), sku, values);
      }
      assert HoldsAt(Run(cfg, s, acts[..|acts|]), sku, values);
    } else {
      var n :| 0 <= n <= |acts| && !HoldsAt(Run(cfg, s, acts[..n]), sku, values);
      if n < |acts| { assert !HoldsAt(Run(cfg, s, init[..n]), sku, values); }
    }
  }

  /** When a committed line's values hold, over a run: in every state of it, if and only if
      they hold to begin with and every offer others make of the SKU either has the same
      values or does not get past the provenance the row then has. */
  lemma {:induction false} ValuesHoldIff(cfg: Config, from: nat, s: State, acts: seq<Action>, at: nat, sku: string, values: Values)
    requires cfg.Valid() && Grounded(cfg, from, s) && OncePerSku(cfg, from) && Settled(cfg, from, s, at, sku)
    ensures HoldsThroughout(cfg, s, acts, sku, values)
            <==> s.products.rows[sku].values == values && AllHarmless(s.products.rows[sku], OffersIn(acts, sku))
    decreases |acts|
  {
    var row := s.products.rows[sku];
    if acts == [] {
      assert acts[..0] == [];
      assert HoldsThroughout(cfg, s, acts, sku, values) ==> HoldsAt(Run(cfg, s, acts[..0]), sku, values);
    } else {
      var init, a := acts[..|acts| - 1], acts[|acts| - 1];
      ValuesHoldIff(cfg, from, s, init, at, sku, values);
      ThroughoutInit(cfg, s, acts, sku, values);
      ProductFollows(cfg, from, s, acts, at, sku);
      if row.values == values && AllHarmless(row, OffersIn(init, sku)) {
        LastOfferDecides(row, OffersIn(init, sku), a, sku);
      }
    }
  }

  lemma LastOfferDecides(row: ProductRow, before: seq<ProductUpsert>, a: Action, sku: string)
    requires AllHarmless(row, before)
    ensures OfferAll(row, before + OffersOf(a, sku)).values == row.values <==> AllHarmless(row, before + OffersOf(a, sku))
  {
    var more := OffersOf(a, sku);
    HarmlessChangesNothing(row, before);
    OfferConcat(row, before, more);
    if a.OtherUpsert? && DistinctSkus(a.offers) { OneOffer(a.offers, sku); }
    OfferNone(row);
    if more != [] {
      assert more[..0] == [];
      assert OfferAll(row, more) == Offer(row, more[0]);
      assert more[0] in before + more;
    }
  }

  lemma {:induction false} OffersForFrom(offers: seq<ProductUpsert>, sku: string)
    ensures forall offer :: offer in OffersFor(offers, sku) ==> offer in offers && offer.sku == sku
  {
    if offers != [] {
      var init := offers[..|offers| - 1];
      assert offers == init + [offers[|offers| - 1]];
      OffersForFrom(init, sku);
    }
  }

  ghost predicate AllLeaveAlone(cfg: Config, from: nat, earlier: set<string>, acts: seq<Action>) {
    forall k :: 0 <= k < |acts| ==> LeavesAlone(cfg, from, earlier, acts[k])
  }

  /** What others may offer one of the file's SKUs is an earlier job's, and of a SKU in `earlier`. */
  lemma {:induction false} OffersAreEarlier(cfg: Config, from: nat, earlier: set<string>, acts: seq<Action>, at: nat, sku: string)
    requires AllLeaveAlone(cfg, from, earlier, acts) && SkuAt(cfg, from, at, sku)
    ensures forall offer :: offer in OffersIn(acts, sku) ==> offer.origin.job < cfg.jobId && sku in earlier
    decreases |acts|
  {
    if acts != [] {
      var init, a := acts[..|acts| - 1], acts[|acts| - 1];
      OffersAreEarlier(cfg, from, earlier, init, at, sku);
      assert LeavesAlone(cfg, from, earlier, a);
      if a.OtherUpsert? {
        OffersForFrom(a.offers, sku);
        forall offer | offer in OffersOf(a, sku) ensures offer.origin.job < cfg.jobId && sku in earlier {
          var k :| 0 <= k < |a.offers| && a.offers[k] == offer;
        }
      }
    }
  }

  lemma LogSettled(cfg: Config, from: nat, earlier: set<string>, s: State, line: Line)
    requires Landing(cfg, from, earlier, s) && OncePerSku(cfg, from) && InLog(s, line) && line.verdict.Stored?
    ensures Settled(cfg, from, s, line.start, line.verdict.sku) && Landed(cfg, earlier, s.products.rows, line)
  {
    var i, b, k :| 0 <= i < |s.log| && 0 <= b < |s.log[i]| && 0 <= k < |s.log[i][b].lines| && s.log[i][b].lines[k] == line;
    LoggedLine(cfg, from, earlier, s, i, b, k);
    assert BatchOk(cfg, earlier, s.products.rows, s.log[i][b]);
  }

  /** An earlier job's offer of other values that the row would take. */
  function Straggler(sku: string, row: ProductRow, values: Values): ProductUpsert {
    ProductUpsert(sku, values.(name := values.name + "*", stockQuantity := 0),
                  if row.origin.None? then Provenance(0, 0)
                  else Provenance(row.origin.value.job, row.origin.value.offset + 1))
  }

  /** ... is one statement of one row, and takes the values away. */
  lemma StragglerWins(cfg: Config, from: nat, earlier: set<string>, s: State, sku: string, values: Values)
    requires sku in s.products.rows && sku in earlier
    requires Older(cfg, s.products.rows[sku].origin) && 0 < cfg.jobId
    ensures var acts := [OtherUpsert([Straggler(sku, s.products.rows[sku], values)])];
            AllLeaveAlone(cfg, from, earlier, acts) && !HoldsAt(Run(cfg, s, acts), sku, values)
  {
    var offer := Straggler(sku, s.products.rows[sku], values);
    var acts := [OtherUpsert([offer])];
    assert acts[..0] == [] && [offer][..0] == [];
    assert Run(cfg, s, acts[..0]) == s;
    assert UpsertRows(s.products, [offer][..0]) == s.products;
    assert UpsertRows(s.products, [offer]) == UpsertRow(s.products, offer);
    assert |offer.values.name| == |values.name| + 1;
  }

  lemma OutOfReach(cfg: Config, from: nat, earlier: set<string>, s: State, acts: seq<Action>, at: nat, sku: string, values: Values)
    requires cfg.Valid() && Grounded(cfg, from, s) && OncePerSku(cfg, from) && Settled(cfg, from, s, at, sku)
    requires HoldsAt(s, sku, values) && (!Older(cfg, s.products.rows[sku].origin) || sku !in earlier)
    requires AllLeaveAlone(cfg, from, earlier, acts)
    ensures HoldsAt(Run(cfg, s, acts), sku, values)
  {
    OffersAreEarlier(cfg, from, earlier, acts, at, sku);
    HarmlessChangesNothing(s.products.rows[sku], OffersIn(acts, sku));
    ProductFollows(cfg, from, s, acts, at, sku);
  }

  /** Every run that leaves the file's SKUs to this job and earlier ones ends with the line's
      product holding its values. */
  ghost predicate IsFinal(cfg: Config, from: nat, earlier: set<string>, s: State, line: Line)
    requires line.verdict.Stored?
  {
    forall acts :: AllLeaveAlone(cfg, from, earlier, acts) ==> HoldsAt(Run(cfg, s, acts), line.verdict.sku, line.verdict.values)
  }

  /** When a committed line's values are final: its product holds them at the end of every
      run that leaves the file's SKUs to this job and earlier ones, if and only if the line
      was written, or no earlier job reaches its SKU. A line skipped as unchanged, whose SKU
      an earlier job may still offer, can always be overwritten. */
  lemma {:induction false} LineIsFinalIff(cfg: Config, from: nat, earlier: set<string>, s: State, line: Line)
    requires cfg.Valid() && 0 < cfg.jobId && OncePerSku(cfg, from) && Landing(cfg, from, earlier, s)
    requires InLog(s, line) && line.verdict.Stored?
    ensures line.verdict.sku in s.products.rows
    ensures IsFinal(cfg, from, earlier, s, line)
            <==> s.products.rows[line.verdict.sku].origin == Own(cfg, line) || line.verdict.sku !in earlier
  {
    LogSettled(cfg, from, earlier, s, line);
    SettledIsFinalIff(cfg, from, earlier, s, line);
  }

  lemma {:induction false} SettledIsFinalIff(cfg: Config, from: nat, earlier: set<string>, s: State, line: Line)
    requires cfg.Valid() && 0 < cfg.jobId && OncePerSku(cfg, from) && Grounded(cfg, from, s) && line.verdict.Stored?
    requires Settled(cfg, from, s, line.start, line.verdict.sku) && Landed(cfg, earlier, s.products.rows, line)
    ensures IsFinal(cfg, from, earlier, s, line)
            <==> s.products.rows[line.verdict.sku].origin == Own(cfg, line) || line.verdict.sku !in earlier
  {
    var sku, values := line.verdict.sku, line.verdict.values;
    if s.products.rows[sku].origin == Own(cfg, line) || sku !in earlier {
      forall acts | AllLeaveAlone(cfg, from, earlier, acts) ensures HoldsAt(Run(cfg, s, acts), sku, values) {
        OutOfReach(cfg, from, earlier, s, acts, line.start, sku, values);
      }
    } else {
      StragglerWins(cfg, from, earlier, s, sku, values);
    }
  }

  lemma LineHolds(cfg: Config, from: nat, chunks: seq<Chunk>, table: Table, lines: seq<Line>, k: nat)
    requires Awaiting(cfg, from, chunks, table.rows) && Sells(cfg, from, lines) && DistinctSkus(Upserts(cfg, lines))
    requires k < |lines| && lines[k].verdict.Stored? && !Taken(chunks, lines[k].start)
    ensures var rows := UpsertRows(table, Upserts(cfg, lines)).rows;
            lines[k].verdict.sku in rows && rows[lines[k].verdict.sku].values == lines[k].verdict.values
  {
    var at := UpsertsAt(cfg, lines, k);
    var offer := Upserts(cfg, lines)[at];
    StatementAt(table, Upserts(cfg, lines), offer.sku);
    assert offer.sku in Skus(Upserts(cfg, lines));
    assert SkuAt(cfg, from, lines[k].start, offer.sku);
  }

  /** A commit leaves each of its stored lines' products with exactly the line's values. */
  lemma CommitHolds(cfg: Config, from: nat, earlier: set<string>, s: State, w: nat, k: nat)
    requires Landing(cfg, from, earlier, s) && OncePerSku(cfg, from) && MayCommit(cfg, s, w)
    requires s.chunks[s.workers[w].chunk].nextOffset == s.workers[w].seen
    requires k < |s.workers[w].lines| && s.workers[w].lines[k].verdict.Stored?
    ensures var line := s.workers[w].lines[k];
            HoldsAt(DoCommit(cfg, s, w), line.verdict.sku, line.verdict.values)
  {
    Holding(cfg, from, s, w);
    LineHolds(cfg, from, s.chunks, s.products, s.workers[w].lines, k);
  }

  lemma CommitLogs(cfg: Config, s: State, w: nat, k: nat)
    requires MayCommit(cfg, s, w) && s.chunks[s.workers[w].chunk].nextOffset == s.workers[w].seen
    requires k < |s.workers[w].lines|
    ensures InLog(DoCommit(cfg, s, w), s.workers[w].lines[k])
  {
    var worker, t := s.workers[w], DoCommit(cfg, s, w);
    var batches := s.log[worker.chunk] + [Batch(worker.seen, worker.pos, worker.lines)];
    assert t.log[worker.chunk] == batches;
    assert t.log[worker.chunk][|batches| - 1].lines[k] == worker.lines[k];
  }

  /** What is known of a line its commit has just put in the log. */
  ghost predicate JustCommitted(cfg: Config, from: nat, t: State, line: Line) {
    && line.verdict.Stored? && Grounded(cfg, from, t) && Settled(cfg, from, t, line.start, line.verdict.sku)
    && HoldsAt(t, line.verdict.sku, line.verdict.values)
    && (t.products.rows[line.verdict.sku].origin == Own(cfg, line) || Older(cfg, t.products.rows[line.verdict.sku].origin))
  }

  lemma FreshIsSettled(cfg: Config, from: nat, earlier: set<string>, t: State, line: Line)
    requires Landing(cfg, from, earlier, t) && OncePerSku(cfg, from) && InLog(t, line) && line.verdict.Stored?
    requires HoldsAt(t, line.verdict.sku, line.verdict.values)
    ensures JustCommitted(cfg, from, t, line)
  {
    LogSettled(cfg, from, earlier, t, line);
  }

  lemma CommitSettles(cfg: Config, from: nat, earlier: set<string>, s: State, w: nat, k: nat)
    requires cfg.Valid() && Landing(cfg, from, earlier, s) && OncePerSku(cfg, from) && MayCommit(cfg, s, w)
    requires s.chunks[s.workers[w].chunk].nextOffset == s.workers[w].seen
    requires k < |s.workers[w].lines| && s.workers[w].lines[k].verdict.Stored?
    ensures JustCommitted(cfg, from, Step(cfg, s, Commit(w)), s.workers[w].lines[k])
  {
    StepLands(cfg, from, earlier, s, Commit(w));
    StepIsCommit(cfg, s, w);
    CommitLogs(cfg, s, w, k);
    CommitHolds(cfg, from, earlier, s, w, k);
    FreshIsSettled(cfg, from, earlier, Step(cfg, s, Commit(w)), s.workers[w].lines[k]);
  }

  /** From the commit of a line on, whoever else writes: its values hold in every state of a
      run if and only if every offer others make of its SKU either has the same values or
      does not get past the provenance the commit left the row with, the line's own if it
      was written and an earlier one if it was skipped. */
  lemma {:induction false} CommittedValuesHoldIff(cfg: Config, from: nat, earlier: set<string>, s: State, w: nat, k: nat, acts: seq<Action>)
    requires cfg.Valid() && Landing(cfg, from, earlier, s) && OncePerSku(cfg, from) && MayCommit(cfg, s, w)
    requires s.chunks[s.workers[w].chunk].nextOffset == s.workers[w].seen
    requires k < |s.workers[w].lines| && s.workers[w].lines[k].verdict.Stored?
    ensures var line, t := s.workers[w].lines[k], Step(cfg, s, Commit(w));
            && JustCommitted(cfg, from, t, line)
            && (HoldsThroughout(cfg, t, acts, line.verdict.sku, line.verdict.values)
                <==> AllHarmless(t.products.rows[line.verdict.sku], OffersIn(acts, line.verdict.sku)))
  {
    CommitSettles(cfg, from, earlier, s, w, k);
    JustCommittedHoldsIff(cfg, from, Step(cfg, s, Commit(w)), s.workers[w].lines[k], acts);
  }

  lemma JustCommittedHoldsIff(cfg: Config, from: nat, t: State, line: Line, acts: seq<Action>)
    requires cfg.Valid() && OncePerSku(cfg, from) && JustCommitted(cfg, from, t, line)
    ensures HoldsThroughout(cfg, t, acts, line.verdict.sku, line.verdict.values)
            <==> AllHarmless(t.products.rows[line.verdict.sku], OffersIn(acts, line.verdict.sku))
  {
    ValuesHoldIff(cfg, from, t, acts, line.start, line.verdict.sku, line.verdict.values);
  }

  /** ... for every row of a completed import, whatever the chunk size and the run. */
  lemma {:induction false} CompletedIsFinalIff(cfg: Config, now: nat, products: Table, target: nat, bs: seq<ChunkBoundary>,
                                               acts: seq<Action>, earlier: set<string>, at: nat)
    requires cfg.Valid() && 0 < cfg.jobId && Splits(cfg.file, FirstRow(cfg.file), target, bs)
    requires Undisturbed(cfg, earlier, products, acts)
    requires Run(cfg, Register(now, products, bs), acts).job.status == JobCompleted
    requires RowAt(cfg, FirstRow(cfg.file), at)
    ensures var s := Run(cfg, Register(now, products, bs), acts);
            exists line ::
              && InLog(s, line) && CommittedAt(cfg, earlier, s, at, line)
              && (line.verdict.Stored? ==>
                    (IsFinal(cfg, FirstRow(cfg.file), earlier, s, line)
                     <==> s.products.rows[line.verdict.sku].origin == Own(cfg, line) || line.verdict.sku !in earlier))
  {
    var from := FirstRow(cfg.file);
    EndToEnd(cfg, now, products, target, bs, acts, earlier);
    RegisterLands(cfg, now, products, target, bs, earlier);
    RunLands(cfg, from, earlier, Register(now, products, bs), acts);
    var s := Run(cfg, Register(now, products, bs), acts);
    var line :| InLog(s, line) && CommittedAt(cfg, earlier, s, at, line);
    if line.verdict.Stored? { LineIsFinalIff(cfg, from, earlier, s, line); }
  }
}
