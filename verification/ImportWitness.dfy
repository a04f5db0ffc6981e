/** One small import, step by step from registration to completion, and what may still
    happen after it: the runs behind what is claimed not to hold. */
module ImportWitness {
  import opened FileRows
  import opened ChunkBoundaries
  import opened VendorCsv
  import opened ProductStore
  import opened ImportTables
  import opened ImportMachine
  import opened ImportTheorems
  import opened ImportLanding
  import opened ImportEndToEnd

  const AS_BEFORE := Values("mug", "kitchen", 500, 7, Some(3))
  const OTHER := Values("mug", "kitchen", 450, 7, Some(2))

  /** A header and one row, imported by job 5; a chunk gives up at its first failure. */
  const CFG := Config("h\nm", 5, 1, 1, 1, 10, 10, (text: Bytes) => Ok(VendorRow("m", "mug", "kitchen", 500, 7)),
                      (_, _) => true)
  const SPLIT := [ChunkBoundary(0, 2, 3)]

  /** The product as job 1 stored it. */
  const BEFORE := Table(map["m" := ProductRow(1, AS_BEFORE, Some(Provenance(1, 2)))], 2)
  const LINE := Line(2, 3, "m", Stored("m", AS_BEFORE))

  /** Job 1 was followed by job 2, whose straggler commits its own row of the product late. */
  const LATE := OtherUpsert([ProductUpsert("m", OTHER, Provenance(2, 2))])

  lemma FileOfOneRow()
    ensures CFG.Valid() && FirstRow(CFG.file) == 2 && Splits(CFG.file, 2, 1, SPLIT)
    ensures RowEnd(CFG.file, 2, 3) == 3 && RowText(CFG.file, 2, 3) == "m"
  {
    RowEndUnique(CFG.file, 0, 3, 2);
    assert Splits(CFG.file, 3, 1, SPLIT[1..]);
    assert CFG.file[2..3] == "m";
  }

  lemma OneMore(s: State, acts: seq<Action>, a: Action)
    ensures Run(CFG, s, acts + [a]) == Step(CFG, Run(CFG, s, acts), a)
  {
    assert (acts + [a])[..|acts|] == acts;
  }

  function Start0(): State { Register(0, BEFORE, SPLIT) }

  function Invocation(pc: Pc, seen: nat, pos: nat, lines: seq<Line>): Worker {
    Worker(0, pc, true, 1000, seen, pos, lines, 2, 0, 2)
  }

  function Row(next: nat, rows: nat, status: ChunkStatus, failures: nat): Chunk {
    Chunk(2, 3, next, Some(1000), 1, failures, rows, 0, status)
  }

  function At0(job: Job, chunk: Chunk, worker: Worker, log: seq<Batch>, nextId: nat): State {
    State(0, job, [chunk], Table(BEFORE.rows, nextId), map[0 := worker], [log], [Some(0)])
  }

  const RUNNING := Job(JobRunning, 0, 0, 0)

  lemma ClaimedFirst()
    ensures Run(CFG, Start0(), [Start(0, 0), Claim(0)]) == At0(RUNNING, Row(2, 0, Running, 0), Invocation(Reading, 2, 2, []), [], 2)
  {
    var s := Start0();
    OneMore(s, [], Start(0, 0));
    assert [] + [Start(0, 0)] == [Start(0, 0)];
    OneMore(s, [Start(0, 0)], Claim(0));
    assert [Start(0, 0)] + [Claim(0)] == [Start(0, 0), Claim(0)];
    var t := Run(CFG, s, [Start(0, 0)]);
    assert t.workers == map[0 := Worker(0, Started, false, 0, 0, 0, [], 0, 0, 0)];
    assert t.chunks == [Chunk(2, 3, 2, None, 0, 0, 0, 0, Pending)];
    assert Measure(1, t.chunks[..0]) == 0;
    assert Measure(1, t.chunks) == 2;
    assert LeaseEnd(0, 1) == 1000;
    var u := Step(CFG, t, Claim(0));
    assert u.workers == map[0 := Invocation(Reading, 2, 2, [])];
    assert u.chunks == [Row(2, 0, Running, 0)];
    assert u.log == [[]] && u.holders == [Some(0)];
  }

  const HELD := [Start(0, 0), Claim(0), Read(0, "m", Stored("m", AS_BEFORE))]
  const BATCH := Batch(2, 3, [LINE])

  lemma ReadNext()
    ensures Run(CFG, Start0(), HELD) == At0(RUNNING, Row(2, 0, Running, 0), Invocation(Reading, 2, 3, [LINE]), [], 2)
  {
    ClaimedFirst();
    FileOfOneRow();
    OneMore(Start0(), [Start(0, 0), Claim(0)], HELD[2]);
    assert [Start(0, 0), Claim(0)] + [HELD[2]] == HELD;
    var s := Run(CFG, Start0(), [Start(0, 0), Claim(0)]);
    assert MayRead(CFG, s, 0, "m", Stored("m", AS_BEFORE));
    assert [] + [LINE] == [LINE];
    assert Step(CFG, s, HELD[2]).workers == map[0 := Invocation(Reading, 2, 3, [LINE])];
  }

  const OFFER := ProductUpsert("m", AS_BEFORE, Provenance(5, 2))

  lemma OneUpsert()
    ensures Dedupe(Upserts(CFG, [LINE])) == [OFFER] && RefusedCount([LINE]) == 0
  {
    assert [LINE][..0] == [];
    assert Upserts(CFG, []) == [] && RefusedCount([]) == 0;
    assert Upserts(CFG, [LINE]) == [] + [OFFER] == [OFFER];
    DedupeDistinct([OFFER]);
  }

  lemma UpsertOne(table: Table, offer: ProductUpsert)
    ensures UpsertRows(table, [offer]) == UpsertRow(table, offer)
  {
    assert [offer][..0] == [];
    assert UpsertRows(table, []) == table;
  }

  lemma UnchangedIsSkipped()
    ensures UpsertRows(BEFORE, [OFFER]) == Table(BEFORE.rows, 3)
  {
    UpsertOne(BEFORE, OFFER);
    assert BEFORE.rows["m" := BEFORE.rows["m"]] == BEFORE.rows;
  }

  lemma CommittedNext()
    ensures Run(CFG, Start0(), HELD + [Commit(0)]) == At0(RUNNING, Row(3, 1, Done, 0), Invocation(Reading, 3, 3, []), [BATCH], 3)
  {
    ReadNext();
    OneMore(Start0(), HELD, Commit(0));
    StepIsCommit(CFG, Run(CFG, Start0(), HELD), 0);
    CommitsIt(Run(CFG, Start0(), HELD));
  }

  /** What a commit that wins does to the state, field by field. */
  lemma CommitEffect(cfg: Config, s: State, w: nat, rows: seq<ProductUpsert>, refused: nat, after: State)
    requires MayCommit(cfg, s, w) && s.chunks[s.workers[w].chunk].nextOffset == s.workers[w].seen
    requires rows == Dedupe(Upserts(cfg, s.workers[w].lines)) && refused == RefusedCount(s.workers[w].lines)
    requires var worker := s.workers[w];
             var i := worker.chunk;
             after ==
               s.(products := UpsertRows(s.products, rows),
                  chunks := s.chunks[i := Checkpointed(s.chunks[i], worker.pos, |rows|, refused)],
                  log := s.log[i := s.log[i] + [Batch(worker.seen, worker.pos, worker.lines)]],
                  workers := s.workers[w := worker.(seen := worker.pos, lines := [])])
    ensures DoCommit(cfg, s, w) == after
  {
  }

  lemma CommitsIt(s: State)
    requires s == At0(RUNNING, Row(2, 0, Running, 0), Invocation(Reading, 2, 3, [LINE]), [], 2)
    ensures DoCommit(CFG, s, 0) == At0(RUNNING, Row(3, 1, Done, 0), Invocation(Reading, 3, 3, []), [BATCH], 3)
  {
    MayCommitIt(s);
    OneUpsert();
    UnchangedIsSkipped();
    EffectAt0(s);
    CommitEffect(CFG, s, 0, [OFFER], 0, At0(RUNNING, Row(3, 1, Done, 0), Invocation(Reading, 3, 3, []), [BATCH], 3));
  }

  lemma MayCommitIt(s: State)
    requires s == At0(RUNNING, Row(2, 0, Running, 0), Invocation(Reading, 2, 3, [LINE]), [], 2)
    ensures MayCommit(CFG, s, 0) && s.workers[0].lines == [LINE]
  {
  }

  lemma EffectAt0(s: State)
    requires s == At0(RUNNING, Row(2, 0, Running, 0), Invocation(Reading, 2, 3, [LINE]), [], 2)
    ensures s.(products := Table(BEFORE.rows, 3),
               chunks := s.chunks[0 := Checkpointed(s.chunks[0], 3, 1, 0)],
               log := s.log[0 := s.log[0] + [BATCH]],
               workers := s.workers[0 := s.workers[0].(seen := 3, lines := [])])
         == At0(RUNNING, Row(3, 1, Done, 0), Invocation(Reading, 3, 3, []), [BATCH], 3)
  {
    assert s.workers[0 := s.workers[0].(seen := 3, lines := [])] == map[0 := Invocation(Reading, 3, 3, [])];
    assert s.chunks[0 := Checkpointed(s.chunks[0], 3, 1, 0)] == [Row(3, 1, Done, 0)];
    assert [] + [BATCH] == [BATCH];
    assert s.log[0 := s.log[0] + [BATCH]] == [[BATCH]];
  }

  const COMPLETED := Job(JobCompleted, 1, 1, 0)
  const WHOLE := HELD + [Commit(0)] + [Refresh(0)] + [Complete(0)]

  lemma OneDoneChunk()
    ensures var chunks := [Row(3, 1, Done, 0)];
            AllDone(chunks) && CountDone(chunks) == 1 && TotalProcessed(chunks) == 1 && TotalRejected(chunks) == 0
  {
    assert [Row(3, 1, Done, 0)][..0] == [];
  }

  lemma RefreshesIt(s: State)
    requires s == At0(RUNNING, Row(3, 1, Done, 0), Invocation(Reading, 3, 3, []), [BATCH], 3)
    ensures Step(CFG, s, Refresh(0)) == At0(Job(JobRunning, 1, 1, 0), Row(3, 1, Done, 0), Invocation(Refreshed, 3, 3, []), [BATCH], 3)
  {
    OneDoneChunk();
    assert DoRefresh(s, 0).workers == map[0 := Invocation(Refreshed, 3, 3, [])];
  }

  lemma CompletesIt(s: State)
    requires s == At0(Job(JobRunning, 1, 1, 0), Row(3, 1, Done, 0), Invocation(Refreshed, 3, 3, []), [BATCH], 3)
    ensures Step(CFG, s, Complete(0)) == At0(COMPLETED, Row(3, 1, Done, 0), Invocation(Closing, 3, 3, []), [BATCH], 3)
  {
    OneDoneChunk();
    assert DoComplete(s, 0).workers == map[0 := Invocation(Closing, 3, 3, [])];
  }

  lemma RefreshedNext()
    ensures Run(CFG, Start0(), HELD + [Commit(0)] + [Refresh(0)])
         == At0(Job(JobRunning, 1, 1, 0), Row(3, 1, Done, 0), Invocation(Refreshed, 3, 3, []), [BATCH], 3)
  {
    CommittedNext();
    OneMore(Start0(), HELD + [Commit(0)], Refresh(0));
    RefreshesIt(Run(CFG, Start0(), HELD + [Commit(0)]));
  }

  lemma CompletedNext()
    ensures Run(CFG, Start0(), WHOLE) == At0(COMPLETED, Row(3, 1, Done, 0), Invocation(Closing, 3, 3, []), [BATCH], 3)
  {
    RefreshedNext();
    OneMore(Start0(), HELD + [Commit(0)] + [Refresh(0)], Complete(0));
    CompletesIt(Run(CFG, Start0(), HELD + [Commit(0)] + [Refresh(0)]));
  }

  /** The import runs to its end: every theorem about a completed job has this one to hold of. */
  lemma RunsToCompletion()
    ensures Registered(CFG, Start0())
    ensures Run(CFG, Start0(), WHOLE) == At0(COMPLETED, Row(3, 1, Done, 0), Invocation(Closing, 3, 3, []), [BATCH], 3)
  {
    CompletedNext();
  }

  const LATECOMER := Worker(0, Failing, false, 0, 0, 0, [], 0, 0, 0)

  lemma RecordsIt(s: State)
    requires s.chunks == [Row(3, 1, Done, 0)] && |s.log| == |s.holders| == 1
    requires 1 in s.workers && s.workers[1] == LATECOMER
    ensures DoRecordFailure(CFG, s, 1).chunks == [Row(3, 1, Failed, 1)] && DoRecordFailure(CFG, s, 1).job == s.job
  {
  }

  /** `done` is not final: an invocation that starts after the job completed, and throws,
      leaves the chunk failed and the job completed with a count of done chunks too high. */
  lemma DoneChunkFails()
    ensures var late := [Start(1, 0)] + [Throw(1)] + [RecordFailure(1)];
            var s, t := Run(CFG, Start0(), WHOLE), Run(CFG, Run(CFG, Start0(), WHOLE), late);
            && s.job == t.job == COMPLETED && t.job.chunksDone == 1
            && s.chunks == [Row(3, 1, Done, 0)] && t.chunks == [Row(3, 1, Failed, 1)] && CountDone(t.chunks) == 0
  {
    RunsToCompletion();
    LateThrow(Run(CFG, Start0(), WHOLE));
  }

  lemma LateThrow(s: State)
    requires s.chunks == [Row(3, 1, Done, 0)] && |s.log| == |s.holders| == 1 && 1 !in s.workers
    ensures var t := Run(CFG, s, [Start(1, 0)] + [Throw(1)] + [RecordFailure(1)]);
            t.job == s.job && t.chunks == [Row(3, 1, Failed, 1)] && CountDone(t.chunks) == 0
  {
    OneMore(s, [], Start(1, 0));
    assert [] + [Start(1, 0)] == [Start(1, 0)];
    OneMore(s, [Start(1, 0)], Throw(1));
    OneMore(s, [Start(1, 0)] + [Throw(1)], RecordFailure(1));
    var u := Run(CFG, s, [Start(1, 0)] + [Throw(1)]);
    assert u == s.(workers := s.workers[1 := LATECOMER]);
    RecordsIt(u);
    assert [Row(3, 1, Failed, 1)][..0] == [];
  }

  /** And "exactly the values" is not either: the row was skipped as unchanged, so it kept
      job 1's provenance, and the late row of job 2, older than this job, replaced it. */
  lemma SkippedLineIsOverwritten()
    ensures Undisturbed(CFG, {"m"}, BEFORE, WHOLE + [LATE])
    ensures Splits(CFG.file, FirstRow(CFG.file), 1, SPLIT)
    ensures var s := Run(CFG, Start0(), WHOLE + [LATE]);
            && s.job.status == JobCompleted && InLog(s, LINE)
            && "m" in s.products.rows && s.products.rows["m"].values == OTHER != LINE.verdict.values
  {
    RunsToCompletion();
    OneMore(Start0(), WHOLE, LATE);
    LateRowWins(Run(CFG, Start0(), WHOLE));
    RestOfIt();
  }

  lemma LateRowWins(s: State)
    requires s.products.rows == BEFORE.rows && s.log == [[BATCH]]
    ensures var t := Step(CFG, s, LATE);
            t.job == s.job && InLog(t, LINE) && "m" in t.products.rows && t.products.rows["m"].values == OTHER
  {
    UpsertOne(s.products, ProductUpsert("m", OTHER, Provenance(2, 2)));
    assert Step(CFG, s, LATE).log[0][0].lines[0] == LINE;
  }

  lemma RestOfIt()
    ensures Undisturbed(CFG, {"m"}, BEFORE, WHOLE + [LATE])
    ensures Splits(CFG.file, FirstRow(CFG.file), 1, SPLIT)
  {
    FileOfOneRow();
    OneRowOnly();
  }

  lemma OneRowOnly()
    ensures forall p: nat, sku :: SkuAt(CFG, 2, p, sku) ==> p == 2 && sku == "m"
  {
  }
}
