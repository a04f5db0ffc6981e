/** What every step of an import keeps. */
module ImportInvariant {
  import opened FileRows
  import opened ProductStore
  import opened ImportTables
  import opened ImportMachine

  /** A chunk row against its history: the committed batches tile what is before the
      checkpoint, the counters are sums over exactly those batches, and status `done`,
      a spent failure budget and a finished range stand in the only order they can. */
  predicate ChunkOk(cfg: Config, c: Chunk, batches: seq<Batch>) {
    && c.startOffset < c.endOffset <= |cfg.file|
    && IsCut(cfg.file, c.startOffset, c.endOffset, c.nextOffset)
    && Tiles(cfg, c.endOffset, c.startOffset, c.nextOffset, batches)
    && c.rowsProcessed == ProcessedIn(cfg, batches)
    && c.rowsRejected == RefusedIn(batches)
    && (c.status == Done ==> c.nextOffset == c.endOffset)
    && (c.nextOffset == c.endOffset ==> c.status == Done || c.status == Failed)
    && (c.failures >= cfg.maxFailures ==> c.status == Done || c.status == Failed)
    && (c.status == Pending ==> c.leaseUntil.None?)
  }

  /** What only ever moves forward on a chunk row. */
  predicate Advances(c: Chunk, d: Chunk) {
    && d.startOffset == c.startOffset && d.endOffset == c.endOffset
    && c.nextOffset <= d.nextOffset && c.failures <= d.failures
  }

  predicate Progressed(c: Chunk, worker: Worker) {
    c.nextOffset > worker.claimedOffset || c.failures > worker.claimedFailures
  }

  /** What having got this far says about the row. */
  predicate PcFits(c: Chunk, worker: Worker, pc: Pc) {
    match pc
    case Started => false
    case HandingOff => worker.claimedOffset < worker.seen
    case Refreshed => worker.seen == c.endOffset
    case Closing => worker.seen == c.endOffset
    case GivingUp => Progressed(c, worker)
    case Finished(ending) => ending == Killed || (ending != NotClaimed && Progressed(c, worker))
    case _ => true
  }

  /** An invocation that claimed its chunk, against the chunk's row. */
  predicate ClaimOk(cfg: Config, c: Chunk, worker: Worker) {
    && c.startOffset <= worker.claimedOffset <= worker.seen <= worker.pos <= c.endOffset <= |cfg.file|
    && worker.claimedOffset < c.endOffset
    && worker.seen <= c.nextOffset
    && worker.claimedFailures <= c.failures && worker.claimedFailures < cfg.maxFailures
    && IsCut(cfg.file, c.startOffset, c.endOffset, worker.pos)
    && LinesOk(cfg, c.endOffset, worker.seen, worker.pos, worker.lines)
    && |worker.lines| <= cfg.batchSize
    && PcFits(c, worker, worker.pc)
  }

  /** An invocation that has claimed nothing. */
  predicate Unclaimed(worker: Worker) {
    worker.pc.Started? || worker.pc.Failing? || worker.pc.GivingUp?
    || worker.pc == Finished(NotClaimed) || worker.pc == Finished(Thrown) || worker.pc == Finished(Killed)
  }

  predicate MeasureOk(measure: nat, c: Chunk, worker: Worker) {
    measure <= worker.claimedMeasure && (Progressed(c, worker) ==> measure < worker.claimedMeasure)
  }

  predicate WorkerOk(cfg: Config, chunks: seq<Chunk>, worker: Worker) {
    if !worker.claimed then Unclaimed(worker)
    else
      && worker.chunk < |chunks|
      && ClaimOk(cfg, chunks[worker.chunk], worker)
      && MeasureOk(Measure(cfg.maxFailures, chunks), chunks[worker.chunk], worker)
  }

  predicate MayStillRelease(worker: Worker) { worker.claimed && worker.pc == Reading }

  /** A lease that has not run out is the row's own, and its holder is the last claimant. */
  predicate LeaseOk(now: nat, c: Chunk, holder: Option<nat>, w: nat, worker: Worker) {
    MayStillRelease(worker) ==>
      && (worker.lease < now || c.leaseUntil == Some(worker.lease))
      && (c.leaseUntil == Some(worker.lease) ==> holder == Some(w))
  }

  predicate JobOk(job: Job, chunks: seq<Chunk>) {
    job.status == JobCompleted ==>
      && (forall i :: 0 <= i < |chunks| ==> chunks[i].nextOffset == chunks[i].endOffset)
      && job.chunksDone == |chunks|
      && job.rowsProcessed == TotalProcessed(chunks)
      && job.rowsRejected == TotalRejected(chunks)
  }

  predicate ChunksOk(cfg: Config, s: State) {
    && |s.chunks| == |s.log| == |s.holders|
    && forall i :: 0 <= i < |s.chunks| ==> ChunkOk(cfg, s.chunks[i], s.log[i])
  }

  predicate WorkersOk(cfg: Config, s: State) {
    forall w :: w in s.workers ==> WorkerOk(cfg, s.chunks, s.workers[w])
  }

  predicate LeasesOk(s: State)
    requires |s.chunks| == |s.holders|
  {
    forall w :: w in s.workers && s.workers[w].chunk < |s.chunks| ==>
      LeaseOk(s.now, s.chunks[s.workers[w].chunk], s.holders[s.workers[w].chunk], w, s.workers[w])
  }

  predicate Inv(cfg: Config, s: State) {
    ChunksOk(cfg, s) && WorkersOk(cfg, s) && LeasesOk(s) && JobOk(s.job, s.chunks)
  }

  lemma {:induction false} MeasureAt(maxFailures: nat, chunks: seq<Chunk>, i: nat, d: Chunk)
    requires i < |chunks|
    ensures Measure(maxFailures, chunks[i := d]) + ChunkMeasure(maxFailures, chunks[i])
         == Measure(maxFailures, chunks) + ChunkMeasure(maxFailures, d)
  {
    var n := |chunks| - 1;
    if i < n {
      MeasureAt(maxFailures, chunks[..n], i, d);
      assert chunks[i := d][..n] == chunks[..n][i := d];
    } else {
      assert chunks[i := d][..n] == chunks[..n];
    }
  }

  /** A row that moves forward leaves every invocation's claims about it standing. */
  lemma WorkerSurvives(cfg: Config, chunks: seq<Chunk>, i: nat, d: Chunk, worker: Worker)
    requires i < |chunks| && Advances(chunks[i], d) && d.nextOffset <= d.endOffset
    requires WorkerOk(cfg, chunks, worker)
    ensures WorkerOk(cfg, chunks[i := d], worker)
  {
    if worker.claimed {
      MeasureAt(cfg.maxFailures, chunks, i, d);
    }
  }

  function WithChunk(s: State, i: nat, d: Chunk, batches: seq<Batch>, holder: Option<nat>): State
    requires i < |s.chunks| == |s.log| == |s.holders|
  {
    s.(chunks := s.chunks[i := d], log := s.log[i := batches], holders := s.holders[i := holder])
  }

  /** One chunk row, with its history, replaced by a row that moved forward. */
  lemma ChunkStep(cfg: Config, s: State, i: nat, d: Chunk, batches: seq<Batch>, holder: Option<nat>)
    requires Inv(cfg, s) && i < |s.chunks|
    requires ChunkOk(cfg, d, batches) && Advances(s.chunks[i], d)
    requires forall w :: w in s.workers && s.workers[w].chunk == i ==> LeaseOk(s.now, d, holder, w, s.workers[w])
    requires s.job.status == JobCompleted ==>
               d.nextOffset == s.chunks[i].nextOffset
               && d.rowsProcessed == s.chunks[i].rowsProcessed && d.rowsRejected == s.chunks[i].rowsRejected
    ensures Inv(cfg, WithChunk(s, i, d, batches, holder))
  {
    var t := WithChunk(s, i, d, batches, holder);
    forall w | w in t.workers ensures WorkerOk(cfg, t.chunks, t.workers[w]) {
      WorkerSurvives(cfg, s.chunks, i, d, s.workers[w]);
    }
    if s.job.status == JobCompleted {
      SameTotals(s.chunks, t.chunks);
    }
  }

  /** One invocation moved on its own. */
  lemma WorkerStep(cfg: Config, s: State, w: nat, worker: Worker)
    requires Inv(cfg, s) && WorkerOk(cfg, s.chunks, worker)
    requires worker.chunk < |s.chunks| ==> LeaseOk(s.now, s.chunks[worker.chunk], s.holders[worker.chunk], w, worker)
    ensures Inv(cfg, s.(workers := s.workers[w := worker]))
  {
  }

  lemma PcStep(cfg: Config, s: State, w: nat, pc: Pc)
    requires Inv(cfg, s) && w in s.workers && pc != Reading
    requires var worker := s.workers[w];
             if worker.claimed then worker.chunk < |s.chunks| ==> PcFits(s.chunks[worker.chunk], worker, pc)
             else Unclaimed(worker.(pc := pc))
    ensures Inv(cfg, Goto(s, w, pc))
  {
    assert WorkerOk(cfg, s.chunks, s.workers[w]);
    WorkerStep(cfg, s, w, s.workers[w].(pc := pc));
  }

  /** The job row moved on its own. */
  lemma JobStep(cfg: Config, s: State, job: Job)
    requires Inv(cfg, s) && JobOk(job, s.chunks)
    ensures Inv(cfg, s.(job := job))
  {
  }

  lemma CompleteKeepsJob(cfg: Config, s: State)
    requires Inv(cfg, s)
    ensures JobOk(CompleteJobIfDone(s.job, s.chunks), s.chunks)
  {
    if AllDone(s.chunks) {
      AllDoneCounts(s.chunks);
      forall i | 0 <= i < |s.chunks| ensures s.chunks[i].nextOffset == s.chunks[i].endOffset {
        assert ChunkOk(cfg, s.chunks[i], s.log[i]);
      }
    }
  }

  /** A new lease runs out later than every lease that has already run out. */
  lemma LeaseEndLater(now: nat, leaseMs: nat)
    requires 1 <= leaseMs
    ensures LeaseEnd(now, leaseMs) >= now
  {
    var t := now + leaseMs * 1000;
    assert t / 1000 * 1000 > t - 1000;
  }

  lemma ClaimedRow(cfg: Config, c: Chunk, batches: seq<Batch>, now: nat)
    requires cfg.Valid() && ChunkOk(cfg, c, batches) && Claimable(c, now)
    ensures var d := Claimed(c, now, cfg.leaseMs);
            && Advances(c, d) && ChunkOk(cfg, d, batches)
            && d.nextOffset < d.endOffset && d.failures < cfg.maxFailures
  {
  }

  function Claimant(cfg: Config, s: State, i: nat): Worker
    requires i < |s.chunks|
  {
    var c := s.chunks[i];
    Worker(i, Reading, true, LeaseEnd(s.now, cfg.leaseMs), c.nextOffset, c.nextOffset, [],
           c.nextOffset, c.failures, Measure(cfg.maxFailures, s.chunks))
  }

  /** The row a won claim leaves, before the invocation that won it moves ... */
  lemma ClaimedChunkKeeps(cfg: Config, s: State, w: nat, i: nat)
    requires cfg.Valid() && Inv(cfg, s) && w in s.workers && !s.workers[w].claimed
    requires i < |s.chunks| && Claimable(s.chunks[i], s.now)
    ensures Inv(cfg, WithChunk(s, i, Claimed(s.chunks[i], s.now, cfg.leaseMs), s.log[i], Some(w)))
  {
    var c := s.chunks[i];
    assert ChunkOk(cfg, c, s.log[i]);
    ClaimedRow(cfg, c, s.log[i], s.now);
    var d := Claimed(c, s.now, cfg.leaseMs);
    LeaseEndLater(s.now, cfg.leaseMs);
    forall u | u in s.workers && s.workers[u].chunk == i
      ensures LeaseOk(s.now, d, Some(w), u, s.workers[u])
    {
      assert LeaseOk(s.now, c, s.holders[i], u, s.workers[u]);
    }
    ChunkStep(cfg, s, i, d, s.log[i], Some(w));
  }

  /** ... and that invocation. */
  lemma ClaimantOk(cfg: Config, s: State, w: nat, i: nat)
    requires cfg.Valid() && Inv(cfg, s) && i < |s.chunks| && Claimable(s.chunks[i], s.now)
    ensures var d := Claimed(s.chunks[i], s.now, cfg.leaseMs);
            WorkerOk(cfg, s.chunks[i := d], Claimant(cfg, s, i)) && LeaseOk(s.now, d, Some(w), w, Claimant(cfg, s, i))
  {
    assert ChunkOk(cfg, s.chunks[i], s.log[i]);
    ClaimedRow(cfg, s.chunks[i], s.log[i], s.now);
    MeasureAt(cfg.maxFailures, s.chunks, i, Claimed(s.chunks[i], s.now, cfg.leaseMs));
  }

  lemma WonClaimKeeps(cfg: Config, s: State, w: nat, i: nat)
    requires cfg.Valid() && Inv(cfg, s) && w in s.workers && !s.workers[w].claimed
    requires i < |s.chunks| && Claimable(s.chunks[i], s.now)
    ensures var d := Claimed(s.chunks[i], s.now, cfg.leaseMs);
            var t := WithChunk(s, i, d, s.log[i], Some(w));
            Inv(cfg, t.(workers := t.workers[w := Claimant(cfg, s, i)]))
  {
    ClaimedChunkKeeps(cfg, s, w, i);
    ClaimantOk(cfg, s, w, i);
    WorkerStep(cfg, WithChunk(s, i, Claimed(s.chunks[i], s.now, cfg.leaseMs), s.log[i], Some(w)), w, Claimant(cfg, s, i));
  }

  lemma ClaimKeeps(cfg: Config, s: State, w: nat)
    requires cfg.Valid() && Inv(cfg, s)
    ensures Inv(cfg, DoClaim(cfg, s, w))
  {
    if w in s.workers && s.workers[w].pc == Started {
      var i := s.workers[w].chunk;
      assert WorkerOk(cfg, s.chunks, s.workers[w]);
      if i < |s.chunks| && Claimable(s.chunks[i], s.now) {
        WonClaimKeeps(cfg, s, w, i);
        assert s.log[i := s.log[i]] == s.log;
      } else {
        PcStep(cfg, s, w, Finished(NotClaimed));
      }
    }
  }

  lemma ReadOn(cfg: Config, c: Chunk, worker: Worker, line: Line)
    requires ClaimOk(cfg, c, worker) && worker.pc == Reading && |worker.lines| < cfg.batchSize
    requires LineOk(cfg, c.endOffset, line) && line.start == worker.pos
    ensures ClaimOk(cfg, c, worker.(pos := line.end, lines := worker.lines + [line]))
  {
    assert (worker.lines + [line])[..|worker.lines|] == worker.lines;
  }

  lemma ReadKeeps(cfg: Config, s: State, w: nat, text: FileRows.Bytes, verdict: Verdict)
    requires Inv(cfg, s)
    ensures Inv(cfg, DoRead(cfg, s, w, text, verdict))
  {
    if MayRead(cfg, s, w, text, verdict) {
      var worker := s.workers[w];
      var c := s.chunks[worker.chunk];
      assert WorkerOk(cfg, s.chunks, worker);
      ReadOn(cfg, c, worker, Line(worker.pos, RowEnd(cfg.file, worker.pos, c.endOffset), text, verdict));
      WorkerStep(cfg, s, w, DoRead(cfg, s, w, text, verdict).workers[w]);
    }
  }

  lemma TilesSnoc(cfg: Config, limit: nat, from: nat, batches: seq<Batch>, batch: Batch)
    requires Tiles(cfg, limit, from, batch.seen, batches)
    requires batch.lines != [] && LinesOk(cfg, limit, batch.seen, batch.next, batch.lines)
    ensures Tiles(cfg, limit, from, batch.next, batches + [batch])
    ensures ProcessedIn(cfg, batches + [batch]) == ProcessedIn(cfg, batches) + |Skus(Upserts(cfg, batch.lines))|
    ensures RefusedIn(batches + [batch]) == RefusedIn(batches) + RefusedCount(batch.lines)
  {
    assert (batches + [batch])[..|batches|] == batches;
  }

  lemma {:induction false} LinesAdvance(cfg: Config, limit: nat, from: nat, upTo: nat, lines: seq<Line>)
    requires LinesOk(cfg, limit, from, upTo, lines)
    ensures from <= upTo && (lines != [] ==> from < upTo)
  {
    if lines != [] {
      LinesAdvance(cfg, limit, from, lines[|lines| - 1].start, lines[..|lines| - 1]);
    }
  }

  function AfterCommit(cfg: Config, c: Chunk, worker: Worker): Chunk {
    Checkpointed(c, worker.pos, |Dedupe(Upserts(cfg, worker.lines))|, RefusedCount(worker.lines))
  }

  /** The row a won commit leaves ... */
  lemma CommittedRow(cfg: Config, c: Chunk, batches: seq<Batch>, worker: Worker)
    requires ChunkOk(cfg, c, batches) && ClaimOk(cfg, c, worker)
    requires worker.lines != [] && c.nextOffset == worker.seen
    ensures c.nextOffset < worker.pos <= c.endOffset && Advances(c, AfterCommit(cfg, c, worker))
    ensures ChunkOk(cfg, AfterCommit(cfg, c, worker), batches + [Batch(worker.seen, worker.pos, worker.lines)])
  {
    LinesAdvance(cfg, c.endOffset, worker.seen, worker.pos, worker.lines);
    DedupeCounts(Upserts(cfg, worker.lines));
    TilesSnoc(cfg, c.endOffset, c.startOffset, batches, Batch(worker.seen, worker.pos, worker.lines));
  }

  /** ... and the invocation that won it. */
  lemma Committer(cfg: Config, c: Chunk, worker: Worker)
    requires ClaimOk(cfg, c, worker) && worker.pc == Reading && c.nextOffset < worker.pos
    ensures ClaimOk(cfg, AfterCommit(cfg, c, worker), worker.(seen := worker.pos, lines := []))
  {
  }

  /** A completed job has nothing left to commit. */
  lemma StillRunning(cfg: Config, s: State, i: nat)
    requires Inv(cfg, s) && i < |s.chunks| && s.chunks[i].nextOffset < s.chunks[i].endOffset
    ensures s.job.status != JobCompleted
  {
  }

  function Committing(cfg: Config, s: State, w: nat): State
    requires At(s, w, Reading)
  {
    var worker := s.workers[w];
    var i := worker.chunk;
    WithChunk(s, i, AfterCommit(cfg, s.chunks[i], worker), s.log[i] + [Batch(worker.seen, worker.pos, worker.lines)], s.holders[i])
  }

  function Emptied(worker: Worker): Worker {
    worker.(seen := worker.pos, lines := [])
  }

  lemma CommittedChunkKeeps(cfg: Config, s: State, w: nat)
    requires Inv(cfg, s) && MayCommit(cfg, s, w)
    requires s.chunks[s.workers[w].chunk].nextOffset == s.workers[w].seen
    ensures Inv(cfg, Committing(cfg, s, w))
  {
    var worker := s.workers[w];
    var i := worker.chunk;
    var c := s.chunks[i];
    assert WorkerOk(cfg, s.chunks, worker) && ChunkOk(cfg, c, s.log[i]);
    CommittedRow(cfg, c, s.log[i], worker);
    StillRunning(cfg, s, i);
    var d := AfterCommit(cfg, c, worker);
    forall u | u in s.workers && s.workers[u].chunk == i
      ensures LeaseOk(s.now, d, s.holders[i], u, s.workers[u])
    {
      assert LeaseOk(s.now, c, s.holders[i], u, s.workers[u]);
    }
    ChunkStep(cfg, s, i, d, s.log[i] + [Batch(worker.seen, worker.pos, worker.lines)], s.holders[i]);
  }

  lemma EmptiedKeeps(cfg: Config, s: State, w: nat)
    requires Inv(cfg, s) && MayCommit(cfg, s, w) && Inv(cfg, Committing(cfg, s, w))
    requires s.chunks[s.workers[w].chunk].nextOffset == s.workers[w].seen
    ensures var t := Committing(cfg, s, w);
            Inv(cfg, t.(workers := t.workers[w := Emptied(s.workers[w])]))
  {
    var worker := s.workers[w];
    var c := s.chunks[worker.chunk];
    assert WorkerOk(cfg, s.chunks, worker) && ChunkOk(cfg, c, s.log[worker.chunk]);
    CommittedRow(cfg, c, s.log[worker.chunk], worker);
    Committer(cfg, c, worker);
    var t := Committing(cfg, s, w);
    assert WorkerOk(cfg, t.chunks, t.workers[w]);
    WorkerStep(cfg, t, w, Emptied(worker));
  }

  lemma CommitIs(cfg: Config, s: State, w: nat)
    requires MayCommit(cfg, s, w) && s.chunks[s.workers[w].chunk].nextOffset == s.workers[w].seen
    ensures var t := Committing(cfg, s, w);
            DoCommit(cfg, s, w)
            == t.(workers := t.workers[w := Emptied(s.workers[w])])
                .(products := UpsertRows(s.products, Dedupe(Upserts(cfg, s.workers[w].lines))))
  {
    var i := s.workers[w].chunk;
    assert s.holders[i := s.holders[i]] == s.holders;
  }

  lemma WonCommitKeeps(cfg: Config, s: State, w: nat)
    requires Inv(cfg, s) && MayCommit(cfg, s, w)
    requires s.chunks[s.workers[w].chunk].nextOffset == s.workers[w].seen
    ensures Inv(cfg, DoCommit(cfg, s, w))
  {
    CommittedChunkKeeps(cfg, s, w);
    EmptiedKeeps(cfg, s, w);
    CommitIs(cfg, s, w);
    var t := Committing(cfg, s, w);
    ProductsFree(cfg, t.(workers := t.workers[w := Emptied(s.workers[w])]),
                 UpsertRows(s.products, Dedupe(Upserts(cfg, s.workers[w].lines))));
  }

  lemma CommitKeeps(cfg: Config, s: State, w: nat)
    requires Inv(cfg, s)
    ensures Inv(cfg, DoCommit(cfg, s, w))
  {
    if MayCommit(cfg, s, w) {
      if s.chunks[s.workers[w].chunk].nextOffset == s.workers[w].seen {
        WonCommitKeeps(cfg, s, w);
      } else {
        assert WorkerOk(cfg, s.chunks, s.workers[w]);
        PcStep(cfg, s, w, Finished(Superseded));
      }
    }
  }

  /** The products table plays no part in the invariant. */
  lemma ProductsFree(cfg: Config, s: State, products: Table)
    requires Inv(cfg, s)
    ensures Inv(cfg, s.(products := products))
  {
  }

  lemma ReleaseKeeps(cfg: Config, s: State, w: nat)
    requires Inv(cfg, s)
    ensures Inv(cfg, DoRelease(s, w))
  {
    if MayRelease(s, w) {
      var worker := s.workers[w];
      var i := worker.chunk;
      assert WorkerOk(cfg, s.chunks, worker);
      assert worker.seen == worker.pos;
      var t := Goto(s, w, HandingOff);
      PcStep(cfg, s, w, HandingOff);
      if Releasable(s.chunks[i], worker.lease) {
        assert LeaseOk(s.now, s.chunks[i], s.holders[i], w, worker);
        assert ChunkOk(cfg, s.chunks[i], s.log[i]);
        var d := Released(s.chunks[i]);
        forall u | u in t.workers && t.workers[u].chunk == i
          ensures LeaseOk(t.now, d, None, u, t.workers[u])
        {
          assert LeaseOk(t.now, t.chunks[i], t.holders[i], u, t.workers[u]);
        }
        ChunkStep(cfg, t, i, d, t.log[i], None);
        assert t.log[i := t.log[i]] == t.log;
      }
    }
  }

  lemma RefreshKeeps(cfg: Config, s: State, w: nat)
    requires Inv(cfg, s)
    ensures Inv(cfg, DoRefresh(s, w))
  {
    if MayRefresh(s, w) {
      assert WorkerOk(cfg, s.chunks, s.workers[w]);
      PcStep(cfg, s, w, Refreshed);
      JobStep(cfg, Goto(s, w, Refreshed), RefreshJobProgress(s.job, s.chunks));
    }
  }

  lemma CompleteKeeps(cfg: Config, s: State, w: nat)
    requires Inv(cfg, s)
    ensures Inv(cfg, DoComplete(s, w))
  {
    if At(s, w, Refreshed) {
      assert WorkerOk(cfg, s.chunks, s.workers[w]);
      PcStep(cfg, s, w, Closing);
      CompleteKeepsJob(cfg, s);
      JobStep(cfg, Goto(s, w, Closing), CompleteJobIfDone(s.job, s.chunks));
    }
  }

  lemma FailedRow(cfg: Config, c: Chunk, batches: seq<Batch>, worker: Worker)
    requires ChunkOk(cfg, c, batches)
    ensures var d := FailureRecorded(c, cfg.maxFailures);
            && Advances(c, d) && ChunkOk(cfg, d, batches)
            && (ClaimOk(cfg, c, worker) && worker.pc == Failing ==>
                  ClaimOk(cfg, d, worker.(pc := GivingUp)) && ClaimOk(cfg, d, worker.(pc := Finished(Thrown))))
  {
  }

  lemma RecordFailureKeeps(cfg: Config, s: State, w: nat)
    requires Inv(cfg, s)
    ensures Inv(cfg, DoRecordFailure(cfg, s, w))
  {
    if w in s.workers && s.workers[w].pc == Failing {
      var worker := s.workers[w];
      assert WorkerOk(cfg, s.chunks, worker);
      var i := worker.chunk;
      if i < |s.chunks| {
        var c := s.chunks[i];
        var d := FailureRecorded(c, cfg.maxFailures);
        FailedRow(cfg, c, s.log[i], worker);
        forall u | u in s.workers && s.workers[u].chunk == i
          ensures LeaseOk(s.now, d, s.holders[i], u, s.workers[u])
        {
          assert LeaseOk(s.now, c, s.holders[i], u, s.workers[u]);
        }
        ChunkStep(cfg, s, i, d, s.log[i], s.holders[i]);
        assert s.holders[i := s.holders[i]] == s.holders && s.log[i := s.log[i]] == s.log;
        var t := WithChunk(s, i, d, s.log[i], s.holders[i]);
        assert WorkerOk(cfg, t.chunks, t.workers[w]);
        WorkerStep(cfg, t, w, DoRecordFailure(cfg, s, w).workers[w]);
      } else {
        PcStep(cfg, s, w, Finished(Thrown));
      }
    }
  }

  lemma GiveUpKeeps(cfg: Config, s: State, w: nat)
    requires Inv(cfg, s)
    ensures Inv(cfg, DoGiveUp(s, w))
  {
    if At(s, w, GivingUp) {
      assert WorkerOk(cfg, s.chunks, s.workers[w]);
      PcStep(cfg, s, w, Finished(Thrown));
      JobStep(cfg, Goto(s, w, Finished(Thrown)), FailJobIfExhausted(s.job, s.chunks));
    }
  }

  lemma ReturnKeeps(cfg: Config, s: State, w: nat)
    requires Inv(cfg, s)
    ensures Inv(cfg, DoReturn(s, w))
  {
    if At(s, w, HandingOff) {
      assert WorkerOk(cfg, s.chunks, s.workers[w]);
      PcStep(cfg, s, w, Finished(OutOfTime));
    } else if At(s, w, Closing) {
      assert WorkerOk(cfg, s.chunks, s.workers[w]);
      PcStep(cfg, s, w, Finished(Completed));
    }
  }

  lemma ThrowKeeps(cfg: Config, s: State, w: nat)
    requires Inv(cfg, s)
    ensures Inv(cfg, DoThrow(s, w))
  {
    if Alive(s, w) {
      assert WorkerOk(cfg, s.chunks, s.workers[w]);
      PcStep(cfg, s, w, Failing);
    }
  }

  lemma KillKeeps(cfg: Config, s: State, w: nat)
    requires Inv(cfg, s) && Alive(s, w)
    ensures Inv(cfg, Goto(s, w, Finished(Killed)))
  {
    assert WorkerOk(cfg, s.chunks, s.workers[w]);
    PcStep(cfg, s, w, Finished(Killed));
  }

  lemma TickKeeps(cfg: Config, s: State, elapsed: nat)
    requires Inv(cfg, s)
    ensures Inv(cfg, s.(now := s.now + elapsed))
  {
    var t := s.(now := s.now + elapsed);
    forall w | w in t.workers && t.workers[w].chunk < |t.chunks|
      ensures LeaseOk(t.now, t.chunks[t.workers[w].chunk], t.holders[t.workers[w].chunk], w, t.workers[w])
    {
      assert LeaseOk(s.now, s.chunks[s.workers[w].chunk], s.holders[s.workers[w].chunk], w, s.workers[w]);
    }
  }

  lemma SweepKeeps(cfg: Config, s: State)
    requires Inv(cfg, s)
    ensures Inv(cfg, s.(job := CompleteJobIfDone(s.job, s.chunks)))
    ensures Inv(cfg, s.(job := FailJobIfExhausted(s.job, s.chunks)))
  {
    CompleteKeepsJob(cfg, s);
    JobStep(cfg, s, CompleteJobIfDone(s.job, s.chunks));
    JobStep(cfg, s, FailJobIfExhausted(s.job, s.chunks));
  }

  lemma StartKeeps(cfg: Config, s: State, w: nat, chunk: nat)
    requires Inv(cfg, s)
    ensures Inv(cfg, Step(cfg, s, Start(w, chunk)))
  {
    WorkerStep(cfg, s, w, Worker(chunk, Started, false, 0, 0, 0, [], 0, 0, 0));
  }

  lemma ReaderStepKeeps(cfg: Config, s: State, a: Action)
    requires cfg.Valid() && Inv(cfg, s)
    requires a.Start? || a.Claim? || a.Read? || a.Commit? || a.Release? || a.Refresh? || a.Complete?
    ensures Inv(cfg, Step(cfg, s, a))
  {
    match a
    case Start(w, chunk) => StartKeeps(cfg, s, w, chunk);
    case Claim(w) => ClaimKeeps(cfg, s, w);
    case Read(w, text, verdict) => ReadKeeps(cfg, s, w, text, verdict);
    case Commit(w) => CommitKeeps(cfg, s, w);
    case Release(w) => ReleaseKeeps(cfg, s, w);
    case Refresh(w) => RefreshKeeps(cfg, s, w);
    case Complete(w) => CompleteKeeps(cfg, s, w);
  }

  lemma ProductStepKeeps(cfg: Config, s: State, a: Action)
    requires Inv(cfg, s) && (a.OtherUpsert? || a.OtherInsert?)
    ensures Inv(cfg, Step(cfg, s, a))
  {
    var products := Step(cfg, s, a).products;
    assert Step(cfg, s, a) == s.(products := products);
    ProductsFree(cfg, s, products);
  }

  lemma OtherStepKeeps(cfg: Config, s: State, a: Action)
    requires Inv(cfg, s)
    requires a.Tick? || a.SweepComplete? || a.SweepFail? || a.OtherUpsert? || a.OtherInsert?
    ensures Inv(cfg, Step(cfg, s, a))
  {
    match a
    case Tick(elapsed) => TickKeeps(cfg, s, elapsed);
    case SweepComplete => SweepKeeps(cfg, s);
    case SweepFail => SweepKeeps(cfg, s);
    case OtherUpsert(_) => ProductStepKeeps(cfg, s, a);
    case OtherInsert(_, _) => ProductStepKeeps(cfg, s, a);
  }

  /** Every step of every participant keeps the invariant. */
  lemma StepKeeps(cfg: Config, s: State, a: Action)
    requires cfg.Valid() && Inv(cfg, s)
    ensures Inv(cfg, Step(cfg, s, a))
  {
    match a
    case Return(w) => ReturnKeeps(cfg, s, w);
    case Throw(w) => ThrowKeeps(cfg, s, w);
    case RecordFailure(w) => RecordFailureKeeps(cfg, s, w);
    case GiveUp(w) => GiveUpKeeps(cfg, s, w);
    case Kill(w) => if Alive(s, w) { KillKeeps(cfg, s, w); }
    case Start(_, _) => ReaderStepKeeps(cfg, s, a);
    case Claim(_) => ReaderStepKeeps(cfg, s, a);
    case Read(_, _, _) => ReaderStepKeeps(cfg, s, a);
    case Commit(_) => ReaderStepKeeps(cfg, s, a);
    case Release(_) => ReaderStepKeeps(cfg, s, a);
    case Refresh(_) => ReaderStepKeeps(cfg, s, a);
    case Complete(_) => ReaderStepKeeps(cfg, s, a);
    case _ => OtherStepKeeps(cfg, s, a);
  }

  lemma RegisteredOk(cfg: Config, s: State)
    requires cfg.Valid() && Registered(cfg, s)
    ensures Inv(cfg, s)
  {
  }

  /** The invariant holds in every state of every run. */
  lemma {:induction false} RunKeeps(cfg: Config, s: State, acts: seq<Action>)
    requires cfg.Valid() && Inv(cfg, s)
    ensures Inv(cfg, Run(cfg, s, acts))
    decreases |acts|
  {
    if acts != [] {
      RunKeeps(cfg, s, acts[..|acts| - 1]);
      StepKeeps(cfg, Run(cfg, s, acts[..|acts| - 1]), acts[|acts| - 1]);
    }
  }
}
