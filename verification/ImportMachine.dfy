/** A vendor import as a state machine: one job, its chunks, and any number of worker
    invocations that step in any order, are killed anywhere, overrun their leases, are
    delivered twice, or lose their chunk to another. Every statement is one atomic step.
    `log` and `holders` are history: what was committed, and who claimed a chunk last. */
module ImportMachine {
  import opened FileRows
  import opened VendorCsv
  import opened ProductStore
  import opened ImportTables

  /** What pricing made of one row: the product to store, or a row counted as rejected. */
  datatype Verdict = Stored(sku: string, values: Values) | Refused

  datatype Line = Line(start: nat, end: nat, text: Bytes, verdict: Verdict)
  datatype Batch = Batch(seen: nat, next: nat, lines: seq<Line>)

  datatype Ending = NotClaimed | Completed | OutOfTime | Superseded | Thrown | Killed
  datatype Pc = Started | Reading | HandingOff | Refreshed | Closing | Failing | GivingUp | Finished(ending: Ending)

  /** One invocation: `seen` is the checkpoint its batch expects, `pos` where it has read to. */
  datatype Worker = Worker(chunk: nat, pc: Pc, claimed: bool, lease: nat, seen: nat, pos: nat, lines: seq<Line>,
                           claimedOffset: nat, claimedFailures: nat, claimedMeasure: nat)

  /** What the rules charge for a row, and the version of them that did. */
  datatype Charge = Charge(basePriceCents: nat, pricingRulesVersion: nat)

  /** `parse` reads one row; the vendor format is `VendorCsv.ParseVendorRow`. `rules` is what
      the price rules may make of a parsed row while the import runs: none is a refusal. */
  datatype Config = Config(file: Bytes, jobId: nat, batchSize: nat, leaseMs: nat, maxFailures: nat, cap: nat, window: nat,
                           parse: Bytes -> RowOutcome, rules: (VendorRow, Option<Charge>) -> bool)
  {
    /** What the environment schema demands of these settings. */
    predicate Valid() { 1 <= batchSize && 1 <= leaseMs && 1 <= maxFailures }
  }

  datatype State = State(now: nat, job: Job, chunks: seq<Chunk>, products: Table, workers: map<nat, Worker>,
                         log: seq<seq<Batch>>, holders: seq<Option<nat>>)

  datatype Action =
    | Tick(elapsed: nat)
    | Start(w: nat, chunk: nat)
    | Claim(w: nat)
    | Read(w: nat, text: Bytes, verdict: Verdict)
    | Commit(w: nat)
    | Release(w: nat)
    | Refresh(w: nat)
    | Complete(w: nat)
    | Return(w: nat)
    | Throw(w: nat)
    | RecordFailure(w: nat)
    | GiveUp(w: nat)
    | Kill(w: nat)
    | SweepComplete
    | SweepFail
    | OtherUpsert(offers: seq<ProductUpsert>)
    | OtherInsert(sku: string, values: Values)

  /** The verdict is a product of this row, at this charge. */
  predicate SoldAs(row: VendorRow, charge: Charge, verdict: Verdict) {
    verdict == Stored(row.sku, Values(row.name, row.category, charge.basePriceCents, row.stockQuantity,
                                      Some(charge.pricingRulesVersion)))
  }

  /** A row that does not parse is refused; one that does is stored under its own sku, name,
      category and stock at what the rules charge for it, or refused if they refuse it. */
  predicate Priced(cfg: Config, text: Bytes, verdict: Verdict) {
    match cfg.parse(text)
    case Rejected(_) => verdict.Refused?
    case Ok(row) =>
      if verdict.Refused? then cfg.rules(row, None)
      else
        && verdict.values.pricingRulesVersion.Some?
        && var charge := Charge(verdict.values.basePriceCents, verdict.values.pricingRulesVersion.value);
        cfg.rules(row, Some(charge)) && SoldAs(row, charge, verdict)
  }

  /** One row of a range that ends at `limit`, as an invocation may read it. */
  predicate LineOk(cfg: Config, limit: nat, line: Line) {
    && line.start < line.end <= limit <= |cfg.file|
    && line.end == RowEnd(cfg.file, line.start, limit)
    && Held(RowText(cfg.file, line.start, line.end), line.text, cfg.cap, cfg.window)
  }

  /** `lines` are the rows of `[from, upTo)`, each once and in order. */
  predicate LinesOk(cfg: Config, limit: nat, from: nat, upTo: nat, lines: seq<Line>)
    decreases |lines|
  {
    if lines == [] then from == upTo
    else
      var last := lines[|lines| - 1];
      last.end == upTo && LineOk(cfg, limit, last) && LinesOk(cfg, limit, from, last.start, lines[..|lines| - 1])
  }

  /** `batches` tile `[from, upTo)` without a gap or an overlap. */
  predicate Tiles(cfg: Config, limit: nat, from: nat, upTo: nat, batches: seq<Batch>)
    decreases |batches|
  {
    if batches == [] then from == upTo
    else
      var last := batches[|batches| - 1];
      && last.next == upTo && last.lines != []
      && LinesOk(cfg, limit, last.seen, last.next, last.lines)
      && Tiles(cfg, limit, from, last.seen, batches[..|batches| - 1])
  }

  function Upserts(cfg: Config, lines: seq<Line>): seq<ProductUpsert> {
    if lines == [] then []
    else
      var last := lines[|lines| - 1];
      Upserts(cfg, lines[..|lines| - 1])
      + if last.verdict.Stored?
        then [ProductUpsert(last.verdict.sku, last.verdict.values, Provenance(cfg.jobId, last.start))]
        else []
  }

  function RefusedCount(lines: seq<Line>): nat {
    if lines == [] then 0
    else RefusedCount(lines[..|lines| - 1]) + if lines[|lines| - 1].verdict.Refused? then 1 else 0
  }

  function ProcessedIn(cfg: Config, batches: seq<Batch>): nat {
    if batches == [] then 0
    else ProcessedIn(cfg, batches[..|batches| - 1]) + |Skus(Upserts(cfg, batches[|batches| - 1].lines))|
  }

  function RefusedIn(batches: seq<Batch>): nat {
    if batches == [] then 0
    else RefusedIn(batches[..|batches| - 1]) + RefusedCount(batches[|batches| - 1].lines)
  }

  /** Work left in a chunk: bytes to commit, and failures it may still have. */
  function ChunkMeasure(maxFailures: nat, chunk: Chunk): nat {
    (if chunk.nextOffset <= chunk.endOffset then chunk.endOffset - chunk.nextOffset else 0)
    + (if chunk.failures <= maxFailures then maxFailures - chunk.failures else 0)
  }

  function Measure(maxFailures: nat, chunks: seq<Chunk>): nat {
    if chunks == [] then 0
    else Measure(maxFailures, chunks[..|chunks| - 1]) + ChunkMeasure(maxFailures, chunks[|chunks| - 1])
  }

  predicate At(s: State, w: nat, pc: Pc) {
    w in s.workers && s.workers[w].pc == pc && s.workers[w].chunk < |s.chunks| == |s.log| == |s.holders|
  }

  function Goto(s: State, w: nat, pc: Pc): State
    requires w in s.workers
  {
    s.(workers := s.workers[w := s.workers[w].(pc := pc)])
  }

  function DoClaim(cfg: Config, s: State, w: nat): State {
    if w !in s.workers || s.workers[w].pc != Started then s
    else if At(s, w, Started) && Claimable(s.chunks[s.workers[w].chunk], s.now) then
      var i := s.workers[w].chunk;
      var chunk := s.chunks[i];
      var worker := Worker(i, Reading, true, LeaseEnd(s.now, cfg.leaseMs), chunk.nextOffset, chunk.nextOffset, [],
                           chunk.nextOffset, chunk.failures, Measure(cfg.maxFailures, s.chunks));
      s.(chunks := s.chunks[i := Claimed(chunk, s.now, cfg.leaseMs)],
         holders := s.holders[i := Some(w)],
         workers := s.workers[w := worker])
    else Goto(s, w, Finished(NotClaimed))
  }

  predicate MayRead(cfg: Config, s: State, w: nat, text: Bytes, verdict: Verdict) {
    && At(s, w, Reading)
    && var worker := s.workers[w];
       var limit := s.chunks[worker.chunk].endOffset;
    && |worker.lines| < cfg.batchSize
    && worker.pos < limit <= |cfg.file|
    && Priced(cfg, text, verdict)
    && LineOk(cfg, limit, Line(worker.pos, RowEnd(cfg.file, worker.pos, limit), text, verdict))
  }

  function DoRead(cfg: Config, s: State, w: nat, text: Bytes, verdict: Verdict): State {
    if !MayRead(cfg, s, w, text, verdict) then s
    else
      var worker := s.workers[w];
      var end := RowEnd(cfg.file, worker.pos, s.chunks[worker.chunk].endOffset);
      var lines := worker.lines + [Line(worker.pos, end, text, verdict)];
      s.(workers := s.workers[w := worker.(pos := end, lines := lines)])
  }

  /** The batch in hand is full, or the last one. */
  predicate BatchDue(cfg: Config, s: State, w: nat) {
    && At(s, w, Reading)
    && s.workers[w].lines != []
    && (|s.workers[w].lines| == cfg.batchSize || s.workers[w].pos == s.chunks[s.workers[w].chunk].endOffset)
  }

  /** Due, and the table can hold its rows; otherwise the statement throws, nothing is written,
      and all that is left to the invocation is `Throw`. */
  predicate MayCommit(cfg: Config, s: State, w: nat) {
    BatchDue(cfg, s, w) && Storable(Dedupe(Upserts(cfg, s.workers[w].lines)))
  }

  /** The product write and the compare-and-set are one transaction; refused, it rolls back. */
  function DoCommit(cfg: Config, s: State, w: nat): State {
    if !MayCommit(cfg, s, w) then s
    else
      var worker := s.workers[w];
      var i := worker.chunk;
      if s.chunks[i].nextOffset != worker.seen then Goto(s, w, Finished(Superseded))
      else
        var rows := Dedupe(Upserts(cfg, worker.lines));
        s.(products := UpsertRows(s.products, rows),
           chunks := s.chunks[i := Checkpointed(s.chunks[i], worker.pos, |rows|, RefusedCount(worker.lines))],
           log := s.log[i := s.log[i] + [Batch(worker.seen, worker.pos, worker.lines)]],
           workers := s.workers[w := worker.(seen := worker.pos, lines := [])])
  }

  predicate MayRelease(s: State, w: nat) {
    && At(s, w, Reading)
    && s.workers[w].lines == []
    && s.workers[w].claimedOffset < s.workers[w].pos < s.chunks[s.workers[w].chunk].endOffset
  }

  function DoRelease(s: State, w: nat): State {
    if !MayRelease(s, w) then s
    else
      var i := s.workers[w].chunk;
      var t := Goto(s, w, HandingOff);
      if Releasable(s.chunks[i], s.workers[w].lease)
      then t.(chunks := s.chunks[i := Released(s.chunks[i])], holders := s.holders[i := None])
      else t
  }

  predicate MayRefresh(s: State, w: nat) {
    At(s, w, Reading) && s.workers[w].lines == [] && s.workers[w].pos == s.chunks[s.workers[w].chunk].endOffset
  }

  function DoRefresh(s: State, w: nat): State {
    if !MayRefresh(s, w) then s else Goto(s, w, Refreshed).(job := RefreshJobProgress(s.job, s.chunks))
  }

  function DoComplete(s: State, w: nat): State {
    if !At(s, w, Refreshed) then s else Goto(s, w, Closing).(job := CompleteJobIfDone(s.job, s.chunks))
  }

  function DoReturn(s: State, w: nat): State {
    if At(s, w, HandingOff) then Goto(s, w, Finished(OutOfTime))
    else if At(s, w, Closing) then Goto(s, w, Finished(Completed))
    else s
  }

  predicate Alive(s: State, w: nat) { w in s.workers && !s.workers[w].pc.Finished? }

  function DoThrow(s: State, w: nat): State {
    if Alive(s, w) && s.workers[w].pc != Failing && s.workers[w].pc != GivingUp then Goto(s, w, Failing) else s
  }

  function DoRecordFailure(cfg: Config, s: State, w: nat): State {
    if w !in s.workers || s.workers[w].pc != Failing then s
    else if !At(s, w, Failing) then Goto(s, w, Finished(Thrown))
    else
      var i := s.workers[w].chunk;
      var chunk := FailureRecorded(s.chunks[i], cfg.maxFailures);
      Goto(s, w, if chunk.status == Failed then GivingUp else Finished(Thrown)).(chunks := s.chunks[i := chunk])
  }

  function DoGiveUp(s: State, w: nat): State {
    if !At(s, w, GivingUp) then s else Goto(s, w, Finished(Thrown)).(job := FailJobIfExhausted(s.job, s.chunks))
  }

  /** An action that is not enabled changes nothing, so every sequence of actions is a run. An
      upsert of several rows is one statement, which names a SKU once. */
  function Step(cfg: Config, s: State, a: Action): State {
    match a
    case Tick(elapsed) => s.(now := s.now + elapsed)
    case Start(w, chunk) =>
      if w in s.workers then s
      else s.(workers := s.workers[w := Worker(chunk, Started, false, 0, 0, 0, [], 0, 0, 0)])
    case Claim(w) => DoClaim(cfg, s, w)
    case Read(w, text, verdict) => DoRead(cfg, s, w, text, verdict)
    case Commit(w) => DoCommit(cfg, s, w)
    case Release(w) => DoRelease(s, w)
    case Refresh(w) => DoRefresh(s, w)
    case Complete(w) => DoComplete(s, w)
    case Return(w) => DoReturn(s, w)
    case Throw(w) => DoThrow(s, w)
    case RecordFailure(w) => DoRecordFailure(cfg, s, w)
    case GiveUp(w) => DoGiveUp(s, w)
    case Kill(w) => if Alive(s, w) then Goto(s, w, Finished(Killed)) else s
    case SweepComplete => s.(job := CompleteJobIfDone(s.job, s.chunks))
    case SweepFail => s.(job := FailJobIfExhausted(s.job, s.chunks))
    case OtherUpsert(offers) =>
      if DistinctSkus(offers) && Storable(offers) then s.(products := UpsertRows(s.products, offers)) else s
    case OtherInsert(sku, values) =>
      if sku in s.products.rows || MAX_STOCK < values.stockQuantity then s
      else s.(products := Table(s.products.rows[sku := ProductRow(s.products.nextId, values, None)], s.products.nextId + 1))
  }

  function Run(cfg: Config, s: State, acts: seq<Action>): State {
    if acts == [] then s else Step(cfg, Run(cfg, s, acts[..|acts| - 1]), acts[|acts| - 1])
  }

  /** A job just registered: one pending chunk per range, nothing committed, nobody working. */
  predicate Registered(cfg: Config, s: State) {
    && s.job == Job(JobRunning, 0, 0, 0)
    && s.workers == map[]
    && |s.chunks| == |s.log| == |s.holders|
    && forall i :: 0 <= i < |s.chunks| ==>
         var c := s.chunks[i];
         && c == Chunk(c.startOffset, c.endOffset, c.startOffset, None, 0, 0, 0, 0, Pending)
         && c.startOffset < c.endOffset <= |cfg.file|
         && s.log[i] == [] && s.holders[i] == None
  }
}
