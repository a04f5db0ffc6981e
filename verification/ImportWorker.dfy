/** `ProcessChunkCommand` as the program it is: one invocation's loop over its rows, with
    anything else in the system stepping between its statements, and with a fault possible
    at each. Every path through it is a run of the import machine. */
module ImportWorker {
  import opened FileRows
  import opened ReadRangeLines
  import opened VendorCsv
  import opened ProductStore
  import opened ImportTables
  import opened ImportMachine
  import opened ImportInvariant
  import opened ImportTheorems

  datatype ClaimedChunk = ClaimedChunk(nextOffset: nat, endOffset: nat, leaseUntil: nat)
  datatype Totals = Totals(rowsProcessed: nat, rowsRejected: nat)
  datatype OpenBatch = OpenBatch(rows: seq<ProductUpsert>, seenOffset: nat, nextOffset: nat, rejected: nat)
  datatype ChunkOutcome = ChunkOutcome(claimed: bool, superseded: bool, exhausted: bool, totals: Totals)

  /** What the price rules make of a parsed row; a `RulesFault` is nobody's row's fault. */
  datatype Calculation = Calculated(basePriceCents: nat, pricingRulesVersion: nat) | RowFault | RulesFault

  /** Everything an invocation does not decide: what others do before the statement with a
      given number, whether that statement throws, whether the budget is spent after a given
      row, what the rules say, and how the file's stream is cut into windows. Statements 0
      and 1 are the two that record a failure, and 2 is the claim. */
  datatype World = World(others: nat -> seq<Action>, faults: nat -> bool, late: nat -> bool,
                         calculate: VendorRow -> Calculation, windows: (nat, nat) -> seq<Bytes>)

  /** Invocation `w` takes no part in these actions. */
  predicate ByOthers(w: nat, acts: seq<Action>) {
    forall k :: 0 <= k < |acts| ==> ByOther(w, acts[k])
  }

  predicate ByOther(w: nat, a: Action) {
    a.Tick? || a.SweepComplete? || a.SweepFail? || a.OtherUpsert? || a.OtherInsert? || a.w != w
  }

  /** The calculator says what the rules may say. */
  ghost predicate Prices(cfg: Config, calculate: VendorRow -> Calculation) {
    forall row :: match calculate(row)
      case RulesFault => true
      case RowFault => cfg.rules(row, None)
      case Calculated(cents, version) => cfg.rules(row, Some(Charge(cents, version)))
  }

  ghost predicate Fits(world: World, cfg: Config, w: nat) {
    && (forall k: nat :: ByOthers(w, world.others(k)))
    && Prices(cfg, world.calculate)
    && forall from: nat, until: nat :: from < until <= |cfg.file| ==>
         IsStream(cfg.file, from, until, cfg.window, world.windows(from, until))
  }

  /** One row priced: stored or refused, or none because the rules themselves are at fault. */
  function Price(cfg: Config, calculate: VendorRow -> Calculation, text: Bytes): (verdict: Option<Verdict>)
    requires Prices(cfg, calculate)
    ensures verdict.Some? ==> Priced(cfg, text, verdict.value)
  {
    var parsed := cfg.parse(text);
    if !parsed.Ok? then Some(Refused)
    else
      match calculate(parsed.row)
      case RulesFault => None
      case RowFault => Some(Refused)
      case Calculated(cents, version) =>
        Some(Stored(parsed.row.sku, Values(parsed.row.name, parsed.row.category, cents, parsed.row.stockQuantity, Some(version))))
  }

  predicate RulesAtFault(cfg: Config, calculate: VendorRow -> Calculation, text: Bytes) {
    var parsed := cfg.parse(text);
    parsed.Ok? && calculate(parsed.row).RulesFault?
  }

  /** A row is left without a price exactly when it parses and the rules are at fault. */
  lemma PricedUnlessFault(cfg: Config, calculate: VendorRow -> Calculation, text: Bytes)
    requires Prices(cfg, calculate)
    ensures Price(cfg, calculate, text).None? <==> RulesAtFault(cfg, calculate, text)
  {
  }

  /** How a batch's commit went: a statement threw, the chunk was lost, or the new totals. */
  datatype CommitResult = Faulted | Lost | Into(totals: Totals)

  /** One turn of the loop: on to the next row, or out of the loop. */
  datatype Turn = More(batch: OpenBatch, totals: Totals) | Left(outcome: Option<ChunkOutcome>)

  /** How an invocation that returned this, or threw, stands in the machine. */
  function EndingOf(outcome: Option<ChunkOutcome>): Ending {
    if outcome.None? then Thrown
    else if !outcome.value.claimed then NotClaimed
    else if outcome.value.superseded then Superseded
    else if outcome.value.exhausted then OutOfTime
    else Completed
  }

  /** The batch a commit by `w` would move the checkpoint by; none if it would be refused. */
  function Moved(cfg: Config, s: State, w: nat): seq<Batch> {
    if MayCommit(cfg, s, w) && s.chunks[s.workers[w].chunk].nextOffset == s.workers[w].seen
    then [Batch(s.workers[w].seen, s.workers[w].pos, s.workers[w].lines)]
    else []
  }

  /** The batches invocation `w` itself committed in a run. */
  function CommittedBy(cfg: Config, s: State, acts: seq<Action>, w: nat): seq<Batch>
    decreases |acts|
  {
    if acts == [] then []
    else
      var init, last := acts[..|acts| - 1], acts[|acts| - 1];
      CommittedBy(cfg, s, init, w) + if last == Commit(w) then Moved(cfg, Run(cfg, s, init), w) else []
  }

  predicate Stands(s: State, i: nat, end: nat) {
    i < |s.chunks| == |s.log| == |s.holders| && s.chunks[i].endOffset == end
  }

  /** What an invocation's own batches amount to: they tile what it has committed of its
      chunk, and its totals are the sums over exactly them. */
  predicate Tally(cfg: Config, s: State, w: nat, i: nat, end: nat, mine: seq<Batch>, totals: Totals) {
    && Stands(s, i, end) && w in s.workers && s.workers[w].chunk == i
    && Tiles(cfg, end, s.workers[w].claimedOffset, s.workers[w].seen, mine)
    && totals == Totals(ProcessedIn(cfg, mine), RefusedIn(mine))
  }

  /** The batch an invocation holds, from the rows it has read since its last commit. */
  function BatchOf(cfg: Config, worker: Worker): OpenBatch {
    OpenBatch(Upserts(cfg, worker.lines), worker.seen, worker.pos, RefusedCount(worker.lines))
  }

  /** The variables of the loop, against where the machine has this invocation. */
  predicate Filling(cfg: Config, worker: Worker, claimed: ClaimedChunk, batch: OpenBatch) {
    && worker.pc == Reading && worker.claimed
    && worker.claimedOffset == claimed.nextOffset && worker.lease == claimed.leaseUntil
    && worker.claimedOffset <= worker.seen <= worker.pos
    && (worker.lines != [] ==> worker.seen < worker.pos)
    && batch == BatchOf(cfg, worker)
    && |worker.lines| == |batch.rows| + batch.rejected
    && claimed.endOffset <= |cfg.file|
    && LinesOk(cfg, claimed.endOffset, worker.seen, worker.pos, worker.lines)
  }

  lemma StepStands(cfg: Config, s: State, a: Action, i: nat, end: nat)
    requires Stands(s, i, end)
    ensures Stands(Step(cfg, s, a), i, end)
  {
  }

  lemma StepLeavesWorker(cfg: Config, s: State, w: nat, a: Action)
    requires ByOther(w, a) && w in s.workers
    ensures w in Step(cfg, s, a).workers && Step(cfg, s, a).workers[w] == s.workers[w]
  {
  }

  lemma {:induction false} OthersLeaveWorker(cfg: Config, s: State, w: nat, i: nat, end: nat, acts: seq<Action>)
    requires ByOthers(w, acts) && w in s.workers
    ensures w in Run(cfg, s, acts).workers && Run(cfg, s, acts).workers[w] == s.workers[w]
    ensures Stands(s, i, end) ==> Stands(Run(cfg, s, acts), i, end)
    decreases |acts|
  {
    if acts != [] {
      var init, last := acts[..|acts| - 1], acts[|acts| - 1];
      assert acts == init + [last];
      OthersLeaveWorker(cfg, s, w, i, end, init);
      var t := Run(cfg, s, init);
      StepLeavesWorker(cfg, t, w, last);
      if Stands(t, i, end) { StepStands(cfg, t, last, i, end); }
    }
  }

  lemma {:induction false} RunConcat(cfg: Config, s: State, left: seq<Action>, right: seq<Action>)
    ensures Run(cfg, s, left + right) == Run(cfg, Run(cfg, s, left), right)
    decreases |right|
  {
    if right == [] {
      assert left + right == left;
    } else {
      var init, last := right[..|right| - 1], right[|right| - 1];
      RunConcat(cfg, s, left, init);
      assert (left + right)[..|left + right| - 1] == left + init;
    }
  }

  lemma RunSnoc(cfg: Config, s: State, acts: seq<Action>, a: Action, w: nat)
    ensures Run(cfg, s, acts + [a]) == Step(cfg, Run(cfg, s, acts), a)
    ensures CommittedBy(cfg, s, acts + [a], w)
         == CommittedBy(cfg, s, acts, w) + if a == Commit(w) then Moved(cfg, Run(cfg, s, acts), w) else []
  {
    assert (acts + [a])[..|acts|] == acts;
  }

  lemma {:induction false} OthersCommitTheirOwn(cfg: Config, s: State, acts: seq<Action>, w: nat, others: seq<Action>)
    requires ByOthers(w, others)
    ensures CommittedBy(cfg, s, acts + others, w) == CommittedBy(cfg, s, acts, w)
    decreases |others|
  {
    if others == [] {
      assert acts + others == acts;
    } else {
      var init, last := others[..|others| - 1], others[|others| - 1];
      assert acts + others == acts + init + [last];
      OthersCommitTheirOwn(cfg, s, acts, w, init);
      RunSnoc(cfg, s, acts + init, last, w);
    }
  }

  lemma WorkersRemain(cfg: Config, s: State, a: Action, w: nat)
    requires w in s.workers
    ensures w in Step(cfg, s, a).workers
  {
  }

  /** An invocation nobody has started has committed nothing. */
  lemma {:induction false} NotStartedNoBatches(cfg: Config, s: State, acts: seq<Action>, w: nat)
    requires w !in Run(cfg, s, acts).workers
    ensures CommittedBy(cfg, s, acts, w) == []
    decreases |acts|
  {
    if acts != [] {
      var init := acts[..|acts| - 1];
      if w in Run(cfg, s, init).workers { WorkersRemain(cfg, Run(cfg, s, init), acts[|acts| - 1], w); }
      NotStartedNoBatches(cfg, s, init, w);
    }
  }

  lemma ClaimableHasRows(cfg: Config, s0: State, acts: seq<Action>, i: nat)
    requires cfg.Valid() && Registered(cfg, s0)
    requires var s := Run(cfg, s0, acts); i < |s.chunks| && Claimable(s.chunks[i], s.now)
    ensures var s := Run(cfg, s0, acts);
            Stands(s, i, s.chunks[i].endOffset) && s.chunks[i].nextOffset < s.chunks[i].endOffset <= |cfg.file|
  {
    RegisteredOk(cfg, s0);
    RunKeeps(cfg, s0, acts);
    var s := Run(cfg, s0, acts);
    ClaimedRow(cfg, s.chunks[i], s.log[i], s.now);
  }

  /** Where a claim that is won leaves the loop: nothing committed yet, and rows to read. */
  lemma ClaimStarts(cfg: Config, s: State, w: nat, i: nat)
    requires w in s.workers && s.workers[w].pc == Started && s.workers[w].chunk == i
    requires i < |s.chunks| == |s.log| == |s.holders| && Claimable(s.chunks[i], s.now) && s.chunks[i].endOffset <= |cfg.file|
    ensures var t := DoClaim(cfg, s, w);
            var claimed := ClaimedChunk(s.chunks[i].nextOffset, s.chunks[i].endOffset, LeaseEnd(s.now, cfg.leaseMs));
            && Tally(cfg, t, w, i, claimed.endOffset, [], Totals(0, 0))
            && Filling(cfg, t.workers[w], claimed, EmptyBatch(claimed.nextOffset))
  {
  }

  /** One more row in the batch. */
  lemma RowTaken(cfg: Config, worker: Worker, claimed: ClaimedChunk, batch: OpenBatch, line: Line)
    requires Filling(cfg, worker, claimed, batch)
    requires LineOk(cfg, claimed.endOffset, line) && line.start == worker.pos
    ensures Filling(cfg, worker.(pos := line.end, lines := worker.lines + [line]), claimed, Grown(cfg, batch, line))
  {
    assert (worker.lines + [line])[..|worker.lines|] == worker.lines;
    LinesSnoc(cfg, claimed.endOffset, worker.seen, worker.lines, line);
  }

  /** A row read, from where the loop stands. */
  lemma RowTallies(cfg: Config, s: State, w: nat, i: nat, claimed: ClaimedChunk, batch: OpenBatch,
                   mine: seq<Batch>, totals: Totals, line: Line)
    requires Tally(cfg, s, w, i, claimed.endOffset, mine, totals) && Filling(cfg, s.workers[w], claimed, batch)
    requires |batch.rows| + batch.rejected < cfg.batchSize && line.start == s.workers[w].pos
    requires LineOk(cfg, claimed.endOffset, line) && Priced(cfg, line.text, line.verdict)
    ensures MayRead(cfg, s, w, line.text, line.verdict)
    ensures var t := DoRead(cfg, s, w, line.text, line.verdict);
            && Tally(cfg, t, w, i, claimed.endOffset, mine, totals) && t.workers[w].pos == line.end
            && Filling(cfg, t.workers[w], claimed, Grown(cfg, batch, line))
  {
    RowTaken(cfg, s.workers[w], claimed, batch, line);
  }

  function Grown(cfg: Config, batch: OpenBatch, line: Line): OpenBatch {
    if line.verdict.Refused? then batch.(nextOffset := line.end, rejected := batch.rejected + 1)
    else batch.(nextOffset := line.end,
                rows := batch.rows + [ProductUpsert(line.verdict.sku, line.verdict.values, Provenance(cfg.jobId, line.start))])
  }

  /** One more batch behind the checkpoint. */
  lemma BatchCommitted(cfg: Config, end: nat, from: nat, mine: seq<Batch>, worker: Worker)
    requires Tiles(cfg, end, from, worker.seen, mine)
    requires worker.lines != [] && LinesOk(cfg, end, worker.seen, worker.pos, worker.lines)
    ensures var b := Batch(worker.seen, worker.pos, worker.lines);
            && Tiles(cfg, end, from, worker.pos, mine + [b])
            && ProcessedIn(cfg, mine + [b]) == ProcessedIn(cfg, mine) + |Skus(Upserts(cfg, worker.lines))|
            && RefusedIn(mine + [b]) == RefusedIn(mine) + RefusedCount(worker.lines)
  {
    var b := Batch(worker.seen, worker.pos, worker.lines);
    assert (mine + [b])[..|mine|] == mine;
  }

  /** What a commit leaves the loop with: thrown, nothing has changed; refused, the
      invocation has lost the chunk; otherwise its totals have grown by the batch and it
      starts an empty one. */
  predicate CommitLeft(cfg: Config, t: State, w: nat, i: nat, claimed: ClaimedChunk, batch: OpenBatch, totals: Totals,
                       mine: seq<Batch>, pos: nat, stored: Option<nat>, thrown: bool)
  {
    if thrown then
      stored.None? && Tally(cfg, t, w, i, claimed.endOffset, mine, totals)
      && Filling(cfg, t.workers[w], claimed, batch)
    else if stored.None? then
      Tally(cfg, t, w, i, claimed.endOffset, mine, totals) && t.workers[w].pc == Finished(Superseded)
    else
      && Tally(cfg, t, w, i, claimed.endOffset, mine,
               Totals(totals.rowsProcessed + stored.value, totals.rowsRejected + batch.rejected))
      && Filling(cfg, t.workers[w], claimed, EmptyBatch(batch.nextOffset))
      && t.workers[w].pos == pos && claimed.nextOffset < pos
  }

  lemma CommitIsDue(cfg: Config, s: State, w: nat, i: nat, claimed: ClaimedChunk, batch: OpenBatch, mine: seq<Batch>, totals: Totals)
    requires Tally(cfg, s, w, i, claimed.endOffset, mine, totals) && Filling(cfg, s.workers[w], claimed, batch)
    requires 0 < |batch.rows| + batch.rejected
    requires |batch.rows| + batch.rejected == cfg.batchSize || s.workers[w].pos == claimed.endOffset
    ensures BatchDue(cfg, s, w) && (MayCommit(cfg, s, w) <==> Storable(Dedupe(batch.rows)))
  {
  }

  lemma CommitLoses(cfg: Config, s: State, w: nat, i: nat, claimed: ClaimedChunk, batch: OpenBatch, mine: seq<Batch>, totals: Totals)
    requires Tally(cfg, s, w, i, claimed.endOffset, mine, totals)
    requires MayCommit(cfg, s, w) && s.chunks[i].nextOffset != s.workers[w].seen
    ensures Moved(cfg, s, w) == []
    ensures CommitLeft(cfg, DoCommit(cfg, s, w), w, i, claimed, batch, totals, mine, s.workers[w].pos, None, false)
  {
    StepStands(cfg, s, Commit(w), i, claimed.endOffset);
  }

  lemma CommitWins(cfg: Config, s: State, w: nat, i: nat, claimed: ClaimedChunk, batch: OpenBatch, mine: seq<Batch>, totals: Totals)
    requires Tally(cfg, s, w, i, claimed.endOffset, mine, totals) && Filling(cfg, s.workers[w], claimed, batch)
    requires MayCommit(cfg, s, w) && s.chunks[i].nextOffset == s.workers[w].seen
    ensures Moved(cfg, s, w) != []
    ensures CommitLeft(cfg, DoCommit(cfg, s, w), w, i, claimed, batch, totals, mine + Moved(cfg, s, w), s.workers[w].pos,
                       Some(|Skus(batch.rows)|), false)
  {
    StepStands(cfg, s, Commit(w), i, claimed.endOffset);
    CommitMoves(cfg, s, w);
    BatchCommitted(cfg, claimed.endOffset, s.workers[w].claimedOffset, mine, s.workers[w]);
    EmptiedFills(cfg, s.workers[w], claimed, batch);
  }

  /** A commit, from where the loop stands, leaves it as its outcome says. */
  lemma {:induction false} CommitTallies(cfg: Config, s: State, w: nat, i: nat, claimed: ClaimedChunk, batch: OpenBatch,
                      mine: seq<Batch>, totals: Totals)
    requires Tally(cfg, s, w, i, claimed.endOffset, mine, totals) && Filling(cfg, s.workers[w], claimed, batch)
    requires 0 < |batch.rows| + batch.rejected
    requires |batch.rows| + batch.rejected == cfg.batchSize || s.workers[w].pos == claimed.endOffset
    ensures BatchDue(cfg, s, w) && (MayCommit(cfg, s, w) <==> Storable(Dedupe(batch.rows)))
    ensures var moved := Moved(cfg, s, w);
            CommitLeft(cfg, DoCommit(cfg, s, w), w, i, claimed, batch, totals, mine + moved, s.workers[w].pos,
                       if moved == [] then None else Some(|Skus(batch.rows)|), !MayCommit(cfg, s, w))
  {
    CommitIsDue(cfg, s, w, i, claimed, batch, mine, totals);
    assert mine + [] == mine;
    if MayCommit(cfg, s, w) {
      if s.chunks[i].nextOffset == s.workers[w].seen {
        CommitWins(cfg, s, w, i, claimed, batch, mine, totals);
      } else {
        CommitLoses(cfg, s, w, i, claimed, batch, mine, totals);
      }
    }
  }

  lemma CommitMoves(cfg: Config, s: State, w: nat)
    requires MayCommit(cfg, s, w) && s.chunks[s.workers[w].chunk].nextOffset == s.workers[w].seen
    ensures var worker := s.workers[w];
            && DoCommit(cfg, s, w).workers == s.workers[w := worker.(seen := worker.pos, lines := [])]
            && Moved(cfg, s, w) == [Batch(worker.seen, worker.pos, worker.lines)]
  {
  }

  lemma EmptiedFills(cfg: Config, worker: Worker, claimed: ClaimedChunk, batch: OpenBatch)
    requires Filling(cfg, worker, claimed, batch)
    ensures Filling(cfg, worker.(seen := worker.pos, lines := []), claimed, EmptyBatch(batch.nextOffset))
  {
  }

  /** Row `k` of a faithful reading is a row as the machine reads it. */
  lemma ReadLineOk(cfg: Config, from: nat, until: nat, lines: seq<RangeLine>, k: nat)
    requires from < until <= |cfg.file| && ReadsAs(cfg.file, from, until, cfg.cap, cfg.window, lines) && k < |lines|
    ensures RowStart(cfg.file, from, until, k) < until
    ensures LineOk(cfg, until, Line(RowStart(cfg.file, from, until, k), lines[k].endOffset, lines[k].line, Refused))
    ensures RowStart(cfg.file, from, until, k + 1) == lines[k].endOffset
  {
    ResumeAt(cfg.file, from, until, k);
  }

  /** Where the reader stands once it has yielded `k` rows. */
  function Upto(from: nat, lines: seq<RangeLine>, k: nat): nat
    requires k <= |lines|
  {
    if k == 0 then from else lines[k - 1].endOffset
  }

  /** Each row is one the machine may read where the one before it ended, and the last ends
      the range. */
  ghost predicate LinedUp(cfg: Config, from: nat, until: nat, lines: seq<RangeLine>) {
    && Upto(from, lines, |lines|) == until
    && forall k :: 0 <= k < |lines| ==>
         && Upto(from, lines, k) < until
         && LineOk(cfg, until, Line(Upto(from, lines, k), lines[k].endOffset, lines[k].line, Refused))
  }

  lemma ReadingLinesUp(cfg: Config, from: nat, until: nat, lines: seq<RangeLine>)
    requires from < until <= |cfg.file| && ReadsAs(cfg.file, from, until, cfg.cap, cfg.window, lines)
    ensures LinedUp(cfg, from, until, lines)
  {
    forall k | 0 <= k < |lines|
      ensures Upto(from, lines, k) < until
      ensures LineOk(cfg, until, Line(Upto(from, lines, k), lines[k].endOffset, lines[k].line, Refused))
    {
      ReadLineOk(cfg, from, until, lines, k);
    }
    ResumeAt(cfg.file, from, until, |lines|);
  }

  lemma HistoryInStep(cfg: Config, s0: State, acts: seq<Action>)
    requires cfg.Valid() && Registered(cfg, s0)
    ensures var s := Run(cfg, s0, acts); |s.chunks| == |s.log| == |s.holders|
  {
    RegisteredOk(cfg, s0);
    RunKeeps(cfg, s0, acts);
  }

  function EmptyBatch(at: nat): OpenBatch {
    OpenBatch([], at, at, 0)
  }

  /** The ingestion tables and the products table, and where every invocation stands.
      `trace` is how they got here from the job's registration. */
  class ImportStore {
    const cfg: Config
    ghost const start: State
    ghost var trace: seq<Action>
    var now: nat
    var job: Job
    var chunks: seq<Chunk>
    var products: Table
    var workers: map<nat, Worker>
    var log: seq<seq<Batch>>
    var holders: seq<Option<nat>>

    ghost function Snapshot(): State
      reads this
    {
      State(now, job, chunks, products, workers, log, holders)
    }

    /** The store is what some run from registration leaves. */
    ghost predicate Valid()
      reads this
    {
      cfg.Valid() && cfg.cap == MAX_ROW_CHARS && Registered(cfg, start) && Snapshot() == Run(cfg, start, trace)
    }

    ghost function Mine(w: nat): seq<Batch>
      reads this
    {
      CommittedBy(cfg, start, trace, w)
    }

    constructor (cfg: Config, s: State)
      requires cfg.Valid() && cfg.cap == MAX_ROW_CHARS && Registered(cfg, s)
      ensures Valid() && this.cfg == cfg && start == s && trace == []
    {
      this.cfg, start, trace := cfg, s, [];
      now, job, chunks, products := s.now, s.job, s.chunks, s.products;
      workers, log, holders := s.workers, s.log, s.holders;
    }

    /** Anything the rest of the system does before the `k`-th statement of invocation `w`. */
    method Meanwhile(world: World, k: nat, ghost w: nat, ghost i: nat, ghost end: nat) returns (fault: bool)
      requires Valid() && w in workers && Fits(world, cfg, w)
      modifies this
      ensures Valid() && Mine(w) == old(Mine(w)) && fault == world.faults(k) && old(trace) <= trace
      ensures w in workers && workers[w] == old(workers[w])
      ensures Stands(old(Snapshot()), i, end) ==> Stands(Snapshot(), i, end)
    {
      var acts := world.others(k);
      fault := world.faults(k);
      assert ByOthers(w, acts);
      OthersLeaveWorker(cfg, Snapshot(), w, i, end, acts);
      RunConcat(cfg, start, trace, acts);
      OthersCommitTheirOwn(cfg, start, trace, w, acts);
      var t := Run(cfg, State(now, job, chunks, products, workers, log, holders), acts);
      now, job, chunks, products := t.now, t.job, t.chunks, t.products;
      workers, log, holders := t.workers, t.log, t.holders;
      trace := trace + acts;
    }

    method ClaimChunk(w: nat, i: nat) returns (claimed: Option<ClaimedChunk>)
      requires Valid() && w in workers && workers[w].pc == Started && workers[w].chunk == i && Mine(w) == []
      modifies this
      ensures Valid() && trace == old(trace) + [Claim(w)] && Snapshot() == DoClaim(cfg, old(Snapshot()), w)
      ensures Mine(w) == []
      ensures claimed.None? ==> w in workers && workers[w].pc == Finished(NotClaimed)
      ensures claimed.Some? ==>
                && Tally(cfg, Snapshot(), w, i, claimed.value.endOffset, [], Totals(0, 0))
                && Filling(cfg, workers[w], claimed.value, EmptyBatch(claimed.value.nextOffset))
                && claimed.value.nextOffset < claimed.value.endOffset <= |cfg.file|
    {
      HistoryInStep(cfg, start, trace);
      RunSnoc(cfg, start, trace, Claim(w), w);
      if i < |chunks| && Claimable(chunks[i], now) {
        ClaimableHasRows(cfg, start, trace, i);
        ClaimStarts(cfg, Snapshot(), w, i);
      }
      trace := trace + [Claim(w)];
      claimed := ClaimRow(w, i);
    }

    /** Status, lease and attempt change together, in one update that matches a claimable row. */
    method ClaimRow(w: nat, i: nat) returns (claimed: Option<ClaimedChunk>)
      requires w in workers && workers[w].pc == Started && workers[w].chunk == i && |chunks| == |log| == |holders|
      modifies this`chunks, this`holders, this`workers
      ensures Snapshot() == DoClaim(cfg, old(Snapshot()), w)
      ensures claimed == if i < |old(chunks)| && Claimable(old(chunks)[i], now)
                         then Some(ClaimedChunk(old(chunks)[i].nextOffset, old(chunks)[i].endOffset, LeaseEnd(now, cfg.leaseMs)))
                         else None
    {
      if i < |chunks| && Claimable(chunks[i], now) {
        var c := chunks[i];
        var lease := LeaseEnd(now, cfg.leaseMs);
        workers := workers[w := Worker(i, Reading, true, lease, c.nextOffset, c.nextOffset, [],
                                       c.nextOffset, c.failures, Measure(cfg.maxFailures, chunks))];
        chunks := chunks[i := c.(status := Running, leaseUntil := Some(lease), attempts := c.attempts + 1)];
        holders := holders[i := Some(w)];
        claimed := Some(ClaimedChunk(c.nextOffset, c.endOffset, lease));
      } else {
        workers := workers[w := workers[w].(pc := Finished(NotClaimed))];
        claimed := None;
      }
    }

    /** Moves the checkpoint if it is still where the batch began. */
    method CheckpointBatch(i: nat, seenOffset: nat, nextOffset: nat, processed: nat, rejected: nat) returns (moved: bool)
      requires i < |chunks|
      modifies this`chunks
      ensures moved == (old(chunks)[i].nextOffset == seenOffset)
      ensures chunks == if moved then old(chunks)[i := Checkpointed(old(chunks)[i], nextOffset, processed, rejected)]
                        else old(chunks)
    {
      var c := chunks[i];
      moved := c.nextOffset == seenOffset;
      if moved {
        chunks := chunks[i := c.(nextOffset := nextOffset,
                                 rowsProcessed := c.rowsProcessed + processed,
                                 rowsRejected := c.rowsRejected + rejected,
                                 status := if nextOffset >= c.endOffset then Done else c.status)];
      }
    }

    /** The product write and the checkpoint as one transaction: the rows are written, and
        a refused compare-and-set takes them back; a row the table cannot hold throws. */
    method Transaction(i: nat, batch: OpenBatch) returns (stored: Option<nat>, thrown: bool)
      requires i < |chunks|
      modifies this`chunks, this`products
      ensures thrown <==> !Storable(Dedupe(batch.rows))
      ensures stored == if !thrown && old(chunks)[i].nextOffset == batch.seenOffset then Some(|Skus(batch.rows)|) else None
      ensures products == if stored.Some? then UpsertRows(old(products), Dedupe(batch.rows)) else old(products)
      ensures chunks ==
                if stored.None? then old(chunks)
                else old(chunks)[i := Checkpointed(old(chunks)[i], batch.nextOffset, |Dedupe(batch.rows)|, batch.rejected)]
    {
      DedupeCounts(batch.rows);
      var rows := Dedupe(batch.rows);
      if !Storable(rows) { return None, true; }
      var before := products;
      products := UpsertRows(products, rows);
      var moved := CheckpointBatch(i, batch.seenOffset, batch.nextOffset, |rows|, batch.rejected);
      if moved {
        stored := Some(|rows|);
      } else {
        products := before;
        stored := None;
      }
      thrown := false;
    }

    method Commit(w: nat, i: nat, batch: OpenBatch) returns (stored: Option<nat>, thrown: bool)
      requires Valid() && BatchDue(cfg, Snapshot(), w)
      requires workers[w].chunk == i && batch == BatchOf(cfg, workers[w])
      modifies this
      ensures Valid() && trace == old(trace) + [ImportMachine.Commit(w)]
      ensures Snapshot() == DoCommit(cfg, old(Snapshot()), w)
      ensures Mine(w) == old(Mine(w)) + Moved(cfg, old(Snapshot()), w)
      ensures thrown <==> !MayCommit(cfg, old(Snapshot()), w)
      ensures stored == if Moved(cfg, old(Snapshot()), w) == [] then None else Some(|Skus(batch.rows)|)
    {
      RunSnoc(cfg, start, trace, ImportMachine.Commit(w), w);
      trace := trace + [ImportMachine.Commit(w)];
      stored, thrown := CommitRows(w, i, batch);
    }

    /** The transaction, and how the invocation stands after it. */
    method CommitRows(w: nat, i: nat, batch: OpenBatch) returns (stored: Option<nat>, thrown: bool)
      requires BatchDue(cfg, Snapshot(), w)
      requires workers[w].chunk == i && batch == BatchOf(cfg, workers[w])
      modifies this`chunks, this`products, this`log, this`workers
      ensures Snapshot() == DoCommit(cfg, old(Snapshot()), w)
      ensures thrown <==> !MayCommit(cfg, old(Snapshot()), w)
      ensures stored == if Moved(cfg, old(Snapshot()), w) == [] then None else Some(|Skus(batch.rows)|)
    {
      stored, thrown := Transaction(i, batch);
      var worker := workers[w];
      if stored.Some? {
        log := log[i := log[i] + [Batch(worker.seen, worker.pos, worker.lines)]];
        workers := workers[w := worker.(seen := worker.pos, lines := [])];
      } else if !thrown {
        workers := workers[w := worker.(pc := Finished(Superseded))];
      }
    }

    /** Has an effect only on a row that still carries this invocation's lease. */
    method ReleaseChunk(w: nat, i: nat, leaseUntil: nat)
      requires Valid() && MayRelease(Snapshot(), w) && workers[w].chunk == i && workers[w].lease == leaseUntil
      modifies this
      ensures Valid() && trace == old(trace) + [Release(w)] && Snapshot() == DoRelease(old(Snapshot()), w)
      ensures chunks == if old(chunks)[i].status == Running && old(chunks)[i].leaseUntil == Some(leaseUntil)
                        then old(chunks)[i := old(chunks)[i].(status := Pending, leaseUntil := None)] else old(chunks)
      ensures Mine(w) == old(Mine(w))
    {
      RunSnoc(cfg, start, trace, Release(w), w);
      trace := trace + [Release(w)];
      if chunks[i].status == Running && chunks[i].leaseUntil == Some(leaseUntil) {
        chunks := chunks[i := chunks[i].(status := Pending, leaseUntil := None)];
        holders := holders[i := None];
      }
      workers := workers[w := workers[w].(pc := HandingOff)];
    }

    method RefreshJobProgress(w: nat)
      requires Valid() && MayRefresh(Snapshot(), w)
      modifies this`job, this`workers, this`trace
      ensures Valid() && trace == old(trace) + [Refresh(w)] && Snapshot() == DoRefresh(old(Snapshot()), w)
      ensures Mine(w) == old(Mine(w))
    {
      RunSnoc(cfg, start, trace, Refresh(w), w);
      trace := trace + [Refresh(w)];
      if job.status == JobRunning {
        job := job.(chunksDone := CountDone(chunks), rowsProcessed := TotalProcessed(chunks), rowsRejected := TotalRejected(chunks));
      }
      workers := workers[w := workers[w].(pc := Refreshed)];
    }

    method CompleteJobIfDone(w: nat)
      requires Valid() && At(Snapshot(), w, Refreshed)
      modifies this`job, this`workers, this`trace
      ensures Valid() && trace == old(trace) + [Complete(w)] && Snapshot() == DoComplete(old(Snapshot()), w)
      ensures Mine(w) == old(Mine(w))
    {
      RunSnoc(cfg, start, trace, Complete(w), w);
      trace := trace + [Complete(w)];
      if job.status == JobRunning && AllDone(chunks) {
        job := Job(JobCompleted, CountDone(chunks), TotalProcessed(chunks), TotalRejected(chunks));
      }
      workers := workers[w := workers[w].(pc := Closing)];
    }

    method RecordChunkFailure(w: nat, i: nat) returns (exhausted: bool)
      requires Valid() && w in workers && workers[w].pc == Failing && workers[w].chunk == i
      requires |chunks| == |log| == |holders|
      modifies this`chunks, this`workers, this`trace
      ensures Valid() && trace == old(trace) + [RecordFailure(w)] && Snapshot() == DoRecordFailure(cfg, old(Snapshot()), w)
      ensures Mine(w) == old(Mine(w))
      ensures w in workers && workers[w].pc == if exhausted then GivingUp else Finished(Thrown)
      ensures workers[w].chunk == i && (exhausted ==> At(Snapshot(), w, GivingUp))
    {
      RunSnoc(cfg, start, trace, RecordFailure(w), w);
      trace := trace + [RecordFailure(w)];
      exhausted := CountFailure(i);
      workers := workers[w := workers[w].(pc := if exhausted then GivingUp else Finished(Thrown))];
    }

    method CountFailure(i: nat) returns (exhausted: bool)
      modifies this`chunks
      ensures chunks == if i < |old(chunks)| then old(chunks)[i := FailureRecorded(old(chunks)[i], cfg.maxFailures)] else old(chunks)
      ensures exhausted <==> i < |chunks| && chunks[i].status == Failed
    {
      exhausted := false;
      if i < |chunks| {
        var c := chunks[i];
        chunks := chunks[i := c.(failures := c.failures + 1,
                                 status := if c.failures + 1 >= cfg.maxFailures then Failed else c.status)];
        exhausted := chunks[i].status == Failed;
      }
    }

    method FailJobIfExhausted(w: nat)
      requires Valid() && At(Snapshot(), w, GivingUp)
      modifies this`job, this`workers, this`trace
      ensures Valid() && trace == old(trace) + [GiveUp(w)] && Snapshot() == DoGiveUp(old(Snapshot()), w)
      ensures Mine(w) == old(Mine(w))
    {
      RunSnoc(cfg, start, trace, GiveUp(w), w);
      trace := trace + [GiveUp(w)];
      if job.status == JobRunning && Exhausted(chunks) {
        job := job.(status := JobFailed, chunksDone := CountDone(chunks));
      }
      workers := workers[w := workers[w].(pc := Finished(Thrown))];
    }

    /** Invocation `w` is between two statements of its loop, holding `batch`. */
    ghost predicate Working(w: nat, i: nat, claimed: ClaimedChunk, batch: OpenBatch, totals: Totals)
      reads this
    {
      && Valid() && Tally(cfg, Snapshot(), w, i, claimed.endOffset, Mine(w), totals)
      && Filling(cfg, workers[w], claimed, batch)
    }

    /** Invocation `w` returned: it ended as it says, and its totals are its batches'. */
    ghost predicate Returned(w: nat, i: nat, outcome: ChunkOutcome)
      reads this
    {
      && Valid() && w in workers && workers[w].pc == Finished(EndingOf(Some(outcome)))
      && (!outcome.claimed ==> Mine(w) == [] && outcome.totals == Totals(0, 0))
      && (outcome.claimed ==>
            && i < |chunks| && Tally(cfg, Snapshot(), w, i, chunks[i].endOffset, Mine(w), outcome.totals)
            && (EndingOf(Some(outcome)) == Completed ==> workers[w].seen == chunks[i].endOffset)
            && (EndingOf(Some(outcome)) == OutOfTime ==> workers[w].seen < chunks[i].endOffset))
    }

    /** Invocation `w` threw and its failure is recorded, unless recording it threw too. */
    predicate GaveWay(world: World, worker: Worker) {
      worker.pc == Finished(Thrown) || (worker.pc == Finished(Killed) && (world.faults(0) || world.faults(1)))
    }

    /** Invocation `w` has thrown out of its loop. */
    ghost predicate Threw(w: nat, i: nat)
      reads this
    {
      && Valid() && w in workers && workers[w].chunk == i
      && !workers[w].pc.Finished? && workers[w].pc != Failing && workers[w].pc != GivingUp
    }

    ghost predicate Ended(w: nat, i: nat, outcome: Option<ChunkOutcome>)
      reads this
    {
      if outcome.None? then Threw(w, i) else Returned(w, i, outcome.value)
    }

    method ReadRow(w: nat, text: Bytes, verdict: Verdict)
      requires Valid() && MayRead(cfg, Snapshot(), w, text, verdict)
      modifies this`workers, this`trace
      ensures Valid() && trace == old(trace) + [Read(w, text, verdict)]
      ensures Snapshot() == DoRead(cfg, old(Snapshot()), w, text, verdict) && Mine(w) == old(Mine(w))
    {
      RunSnoc(cfg, start, trace, Read(w, text, verdict), w);
      trace := trace + [Read(w, text, verdict)];
      var worker := workers[w];
      var end := RowEnd(cfg.file, worker.pos, chunks[worker.chunk].endOffset);
      workers := workers[w := worker.(pos := end, lines := worker.lines + [Line(worker.pos, end, text, verdict)])];
    }

    method TakeRow(w: nat, i: nat, line: RangeLine, rowStart: nat, calculate: VendorRow -> Calculation,
                   ghost claimed: ClaimedChunk, batch: OpenBatch, ghost totals: Totals) returns (grown: Option<OpenBatch>)
      requires Working(w, i, claimed, batch, totals) && |batch.rows| + batch.rejected < cfg.batchSize
      requires rowStart == workers[w].pos < claimed.endOffset
      requires LineOk(cfg, claimed.endOffset, Line(rowStart, line.endOffset, line.line, Refused))
      requires Prices(cfg, calculate)
      modifies this`workers, this`trace
      ensures grown.None? <==> RulesAtFault(cfg, calculate, line.line)
      ensures grown.None? ==> Working(w, i, claimed, batch, totals)
      ensures grown.Some? ==>
                && Working(w, i, claimed, grown.value, totals) && workers[w].pos == line.endOffset
                && |grown.value.rows| + grown.value.rejected == |batch.rows| + batch.rejected + 1
    {
      PricedUnlessFault(cfg, calculate, line.line);
      var priced := Price(cfg, calculate, line.line);
      if priced.None? { return None; }
      ghost var row := Line(rowStart, line.endOffset, line.line, priced.value);
      RowTallies(cfg, Snapshot(), w, i, claimed, batch, Mine(w), totals, row);
      ghost var t := DoRead(cfg, Snapshot(), w, line.line, priced.value);
      ReadRow(w, line.line, priced.value);
      assert Snapshot() == t;
      grown := Some(Grown(cfg, batch, Line(rowStart, line.endOffset, line.line, priced.value)));
    }

    method CommitBatch(w: nat, i: nat, batch: OpenBatch, ghost claimed: ClaimedChunk, ghost totals: Totals)
      returns (stored: Option<nat>, thrown: bool)
      requires Working(w, i, claimed, batch, totals) && 0 < |batch.rows| + batch.rejected
      requires |batch.rows| + batch.rejected == cfg.batchSize || workers[w].pos == claimed.endOffset
      modifies this
      ensures Valid() && (thrown <==> !Storable(Dedupe(batch.rows)))
      ensures CommitLeft(cfg, Snapshot(), w, i, claimed, batch, totals, Mine(w), old(workers[w].pos), stored, thrown)
    {
      CommitTallies(cfg, Snapshot(), w, i, claimed, batch, Mine(w), totals);
      stored, thrown := Commit(w, i, batch);
    }

    method CommitInto(w: nat, i: nat, claimed: ClaimedChunk, batch: OpenBatch, totals: Totals, world: World, k: nat)
      returns (result: CommitResult)
      requires Working(w, i, claimed, batch, totals) && Fits(world, cfg, w)
      requires 0 < |batch.rows| + batch.rejected
      requires |batch.rows| + batch.rejected == cfg.batchSize || workers[w].pos == claimed.endOffset
      modifies this
      ensures result.Faulted? ==> Threw(w, i) && (world.faults(k) || !Storable(Dedupe(batch.rows)))
      ensures !Storable(Dedupe(batch.rows)) ==> result.Faulted?
      ensures result.Lost? ==>
                && Valid() && Tally(cfg, Snapshot(), w, i, claimed.endOffset, Mine(w), totals)
                && workers[w].pc == Finished(Superseded)
      ensures result.Into? ==>
                && Working(w, i, claimed, EmptyBatch(batch.nextOffset), result.totals)
                && workers[w].pos == old(workers[w].pos) && claimed.nextOffset < workers[w].pos
    {
      var fault := Meanwhile(world, k, w, i, claimed.endOffset);
      if fault { return Faulted; }
      var stored, thrown := CommitBatch(w, i, batch, claimed, totals);
      if thrown { return Faulted; }
      if stored.None? { return Lost; }
      result := Into(Totals(totals.rowsProcessed + stored.value, totals.rowsRejected + batch.rejected));
    }

    /** Invocation `w` has left its loop, with nothing in hand. */
    ghost predicate Leaving(w: nat, i: nat, end: nat, totals: Totals, pc: Pc)
      reads this
    {
      && Valid() && Tally(cfg, Snapshot(), w, i, end, Mine(w), totals)
      && workers[w].pc == pc && workers[w].seen == workers[w].pos
    }

    /** The budget ran out between two batches: the chunk is released and the rest of it left. */
    method HandOff(w: nat, i: nat, claimed: ClaimedChunk, ghost batch: OpenBatch, totals: Totals, world: World, k: nat)
      returns (outcome: Option<ChunkOutcome>)
      requires Working(w, i, claimed, batch, totals) && Fits(world, cfg, w)
      requires workers[w].lines == [] && claimed.nextOffset < workers[w].pos < claimed.endOffset
      modifies this
      ensures Ended(w, i, outcome)
      ensures outcome.None? ==> world.faults(k) || world.faults(k + 1)
      ensures outcome.Some? ==>
                && outcome == Some(ChunkOutcome(true, false, true, totals))
                && exists n :: |old(trace)| <= n < |trace| && trace[n] == Release(w)
    {
      var fault := Meanwhile(world, k, w, i, claimed.endOffset);
      if fault { return None; }
      ghost var n := |trace|;
      ReleaseChunk(w, i, claimed.leaseUntil);
      outcome := Reenqueue(w, i, claimed.endOffset, totals, world, k + 1);
      assert trace[n] == Release(w);
    }

    method Reenqueue(w: nat, i: nat, ghost end: nat, totals: Totals, world: World, k: nat) returns (outcome: Option<ChunkOutcome>)
      requires Leaving(w, i, end, totals, HandingOff) && Fits(world, cfg, w) && workers[w].seen < end
      modifies this
      ensures Ended(w, i, outcome) && old(trace) <= trace
      ensures outcome == if world.faults(k) then None else Some(ChunkOutcome(true, false, true, totals))
    {
      var fault := Meanwhile(world, k, w, i, end);
      if fault { return None; }
      Return(w);
      outcome := Some(ChunkOutcome(true, false, true, totals));
    }

    method Return(w: nat)
      requires Valid() && (At(Snapshot(), w, HandingOff) || At(Snapshot(), w, Closing))
      modifies this`workers, this`trace
      ensures Valid() && trace == old(trace) + [ImportMachine.Return(w)] && Snapshot() == DoReturn(old(Snapshot()), w)
      ensures Mine(w) == old(Mine(w))
    {
      RunSnoc(cfg, start, trace, ImportMachine.Return(w), w);
      trace := trace + [ImportMachine.Return(w)];
      workers := workers[w := workers[w].(pc := Finished(if workers[w].pc == HandingOff then OutOfTime else Completed))];
    }

    /** The last two statements: the job's progress, then whether it is complete. */
    method Finish(w: nat, i: nat, ghost claimed: ClaimedChunk, ghost batch: OpenBatch, totals: Totals, world: World, k: nat)
      returns (outcome: Option<ChunkOutcome>)
      requires Working(w, i, claimed, batch, totals) && Fits(world, cfg, w)
      requires workers[w].lines == [] && workers[w].pos == claimed.endOffset
      modifies this
      ensures Ended(w, i, outcome)
      ensures outcome == if world.faults(k) || world.faults(k + 1) then None else Some(ChunkOutcome(true, false, false, totals))
    {
      var fault := Meanwhile(world, k, w, i, claimed.endOffset);
      if fault { return None; }
      RefreshJobProgress(w);
      outcome := Close(w, i, claimed.endOffset, totals, world, k + 1);
    }

    method Close(w: nat, i: nat, ghost end: nat, totals: Totals, world: World, k: nat) returns (outcome: Option<ChunkOutcome>)
      requires Leaving(w, i, end, totals, Refreshed) && Fits(world, cfg, w) && workers[w].seen == end
      modifies this
      ensures Ended(w, i, outcome)
      ensures outcome == if world.faults(k) then None else Some(ChunkOutcome(true, false, false, totals))
    {
      var fault := Meanwhile(world, k, w, i, end);
      if fault { return None; }
      CompleteJobIfDone(w);
      Return(w);
      outcome := Some(ChunkOutcome(true, false, false, totals));
    }

    /** One turn of the loop: the row joins the batch; a full batch is committed; and
        between batches, with the budget spent and bytes left, the chunk is handed off. */
    method NextRow(w: nat, i: nat, claimed: ClaimedChunk, line: RangeLine, rowStart: nat, batch: OpenBatch, totals: Totals,
                   world: World, k: nat) returns (turn: Turn)
      requires Working(w, i, claimed, batch, totals) && Fits(world, cfg, w)
      requires |batch.rows| + batch.rejected < cfg.batchSize && rowStart == workers[w].pos < claimed.endOffset
      requires LineOk(cfg, claimed.endOffset, Line(rowStart, line.endOffset, line.line, Refused))
      modifies this
      ensures turn.More? ==>
                && Working(w, i, claimed, turn.batch, turn.totals) && workers[w].pos == line.endOffset
                && |turn.batch.rows| + turn.batch.rejected < cfg.batchSize
      ensures turn.Left? ==> Ended(w, i, turn.outcome)
      ensures var full := |batch.rows| + batch.rejected + 1 == cfg.batchSize;
              var late := world.late(k) && line.endOffset < claimed.endOffset;
              && (turn.More? ==>
                    if full then turn.batch == EmptyBatch(line.endOffset) && !late
                    else turn.totals == totals && |turn.batch.rows| + turn.batch.rejected == |batch.rows| + batch.rejected + 1)
              && (turn.Left? && turn.outcome.Some? ==> full && (turn.outcome.value.superseded || (turn.outcome.value.exhausted && late)))
    {
      var fault := Meanwhile(world, 4 * k + 3, w, i, claimed.endOffset);
      if fault { return Left(None); }
      var grown := TakeRow(w, i, line, rowStart, world.calculate, claimed, batch, totals);
      if grown.None? { return Left(None); }
      if |grown.value.rows| + grown.value.rejected < cfg.batchSize { return More(grown.value, totals); }

      var committed := CommitInto(w, i, claimed, grown.value, totals, world, 4 * k + 4);
      if committed.Faulted? { return Left(None); }
      if committed.Lost? { return Left(Some(ChunkOutcome(true, true, false, totals))); }
      turn := More(EmptyBatch(line.endOffset), committed.totals);
      if world.late(k) && line.endOffset < claimed.endOffset {
        var outcome := HandOff(w, i, claimed, turn.batch, turn.totals, world, 4 * k + 5);
        turn := Left(outcome);
      }
    }

    /** After the last row: what is left in the batch, then the job's own row. */
    method LastBatch(w: nat, i: nat, claimed: ClaimedChunk, batch: OpenBatch, totals: Totals, world: World, k: nat)
      returns (outcome: Option<ChunkOutcome>)
      requires Working(w, i, claimed, batch, totals) && Fits(world, cfg, w)
      requires workers[w].pos == claimed.endOffset
      modifies this
      ensures Ended(w, i, outcome)
    {
      if 0 < |batch.rows| + batch.rejected {
        var committed := CommitInto(w, i, claimed, batch, totals, world, 4 * k + 3);
        if committed.Faulted? { return None; }
        if committed.Lost? { return Some(ChunkOutcome(true, true, false, totals)); }
        outcome := Finish(w, i, claimed, EmptyBatch(batch.nextOffset), committed.totals, world, 4 * k + 4);
      } else {
        outcome := Finish(w, i, claimed, batch, totals, world, 4 * k + 4);
      }
    }

    /** The rows of the claimed range, until they are all committed, the chunk is lost, the
        budget is spent, or something throws. */
    method FillBatches(w: nat, i: nat, claimed: ClaimedChunk, world: World) returns (outcome: Option<ChunkOutcome>)
      requires Working(w, i, claimed, EmptyBatch(claimed.nextOffset), Totals(0, 0)) && Fits(world, cfg, w)
      requires claimed.nextOffset < claimed.endOffset && workers[w].pos == claimed.nextOffset
      modifies this
      ensures Ended(w, i, outcome)
    {
      var from, until := claimed.nextOffset, claimed.endOffset;
      var lines := ReadRangeLines.ReadRangeLines(cfg.file, from, until, world.windows(from, until), cfg.window);
      ReadingLinesUp(cfg, from, until, lines);
      var turn := TakeRows(w, i, claimed, lines, world);
      if turn.Left? { return turn.outcome; }
      outcome := LastBatch(w, i, claimed, turn.batch, turn.totals, world, |lines|);
    }

    method TakeRows(w: nat, i: nat, claimed: ClaimedChunk, lines: seq<RangeLine>, world: World) returns (turn: Turn)
      requires Working(w, i, claimed, EmptyBatch(claimed.nextOffset), Totals(0, 0)) && Fits(world, cfg, w)
      requires LinedUp(cfg, claimed.nextOffset, claimed.endOffset, lines) && workers[w].pos == claimed.nextOffset
      modifies this
      ensures turn.More? ==> Working(w, i, claimed, turn.batch, turn.totals) && workers[w].pos == claimed.endOffset
      ensures turn.Left? ==> Ended(w, i, turn.outcome)
    {
      var rowStart := claimed.nextOffset;
      turn := More(EmptyBatch(rowStart), Totals(0, 0));
      for k := 0 to |lines|
        invariant turn.More? && Working(w, i, claimed, turn.batch, turn.totals)
        invariant |turn.batch.rows| + turn.batch.rejected < cfg.batchSize
        invariant rowStart == workers[w].pos == Upto(claimed.nextOffset, lines, k)
      {
        turn := NextRow(w, i, claimed, lines[k], rowStart, turn.batch, turn.totals, world, k);
        if turn.Left? { return; }
        rowStart := lines[k].endOffset;
      }
    }

    /** None is a throw out of the loop, which `Process` catches. */
    method ClaimAndRun(w: nat, i: nat, world: World) returns (outcome: Option<ChunkOutcome>)
      requires Valid() && w in workers && workers[w].pc == Started && workers[w].chunk == i
      requires Mine(w) == [] && Fits(world, cfg, w)
      modifies this
      ensures Ended(w, i, outcome)
    {
      var fault := Meanwhile(world, 2, w, i, 0);
      if fault { return None; }
      var claimed := ClaimChunk(w, i);
      if claimed.None? { return Some(ChunkOutcome(false, false, false, Totals(0, 0))); }
      outcome := FillBatches(w, i, claimed.value, world);
    }

    /** One delivery of a chunk to a worker, `w` naming the invocation. Whatever happens in
        between and wherever it throws, the whole of it is a run of the machine, and what it
        returns is the truth about the batches it committed. None: it threw. */
    method Process(w: nat, i: nat, world: World) returns (outcome: Option<ChunkOutcome>)
      requires Valid() && w !in workers && Fits(world, cfg, w)
      modifies this
      ensures Valid()
      ensures outcome.Some? ==> Returned(w, i, outcome.value)
      ensures outcome.None? ==> w in workers && GaveWay(world, workers[w])
    {
      NotStartedNoBatches(cfg, start, trace, w);
      RunSnoc(cfg, start, trace, Start(w, i), w);
      trace := trace + [Start(w, i)];
      workers := workers[w := Worker(i, Started, false, 0, 0, 0, [], 0, 0, 0)];

      outcome := ClaimAndRun(w, i, world);
      if outcome.None? { Caught(w, i, world); }
    }

    /** A throw is recorded on the chunk, which gives up once it has spent its failures. A
        second throw, while recording the first, ends the invocation as a kill would. */
    method Caught(w: nat, i: nat, world: World)
      requires Threw(w, i) && Fits(world, cfg, w)
      modifies this
      ensures Valid() && w in workers && GaveWay(world, workers[w])
    {
      RunSnoc(cfg, start, trace, Throw(w), w);
      trace := trace + [Throw(w)];
      workers := workers[w := workers[w].(pc := Failing)];
      var fault := Meanwhile(world, 0, w, i, 0);
      if fault { Die(w); return; }
      HistoryInStep(cfg, start, trace);
      var exhausted := RecordChunkFailure(w, i);
      if exhausted { Exhaust(w, i, world); }
    }

    method Exhaust(w: nat, i: nat, world: World)
      requires Valid() && At(Snapshot(), w, GivingUp) && workers[w].chunk == i && Fits(world, cfg, w)
      modifies this
      ensures Valid() && w in workers && GaveWay(world, workers[w])
    {
      var fault := Meanwhile(world, 1, w, i, chunks[i].endOffset);
      if fault { Die(w); } else { FailJobIfExhausted(w); }
    }

    method Die(w: nat)
      requires Valid() && Alive(Snapshot(), w)
      modifies this`workers, this`trace
      ensures Valid() && workers == old(workers)[w := old(workers)[w].(pc := Finished(Killed))]
    {
      RunSnoc(cfg, start, trace, Kill(w), w);
      trace := trace + [Kill(w)];
      workers := workers[w := workers[w].(pc := Finished(Killed))];
    }
  }
}
