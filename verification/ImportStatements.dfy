/** What each statement of an import does to the rows it matches, column by column, as the
    machine takes it: who wins a claim, what a release gives back, when a chunk is done or
    gives up, and when a job ends. */
module ImportStatements {
  import opened ProductStore
  import opened ImportTables
  import opened ImportMachine
  import opened ImportInvariant

  /** No chunk but `i` has changed. */
  predicate OnlyChunk(s: State, t: State, i: nat) {
    |t.chunks| == |s.chunks| && forall j :: 0 <= j < |s.chunks| && j != i ==> t.chunks[j] == s.chunks[j]
  }

  /** A claim by a started invocation wins exactly if its chunk is pending, or running with no
      lease or one that has run out. The winner holds the row's new lease, whole milliseconds
      and at most one short of the time asked for, and resumes at the checkpoint. */
  lemma ClaimWinsIff(cfg: Config, s: State, u: nat)
    requires At(s, u, Started)
    ensures var i, t := s.workers[u].chunk, Step(cfg, s, Claim(u));
            var c := s.chunks[i];
            && u in t.workers && OnlyChunk(s, t, i)
            && (t.workers[u].pc == Reading <==>
                  c.status == Pending || (c.status == Running && (c.leaseUntil.None? || c.leaseUntil.value < s.now)))
            && (t.workers[u].pc == Reading ==>
                  var worker, lease := t.workers[u], t.workers[u].lease;
                  && t.chunks[i] == c.(status := Running, leaseUntil := Some(lease), attempts := c.attempts + 1)
                  && lease % 1000 == 0 && s.now + cfg.leaseMs * 1000 < lease + 1000 && lease <= s.now + cfg.leaseMs * 1000
                  && worker.claimed && worker.chunk == i && worker.seen == worker.pos == c.nextOffset && worker.lines == []
                  && t.holders[i] == Some(u))
            && (t.workers[u].pc != Reading ==> t.workers[u].pc == Finished(NotClaimed) && t.chunks == s.chunks)
  {
    var c := s.chunks[s.workers[u].chunk];
    LeaseIsWhole(s.now, cfg.leaseMs);
  }

  lemma LeaseIsWhole(now: nat, leaseMs: nat)
    ensures var lease := LeaseEnd(now, leaseMs);
            lease % 1000 == 0 && now + leaseMs * 1000 < lease + 1000 && lease <= now + leaseMs * 1000
  {
    var t := now + leaseMs * 1000;
    assert LeaseEnd(now, leaseMs) == t / 1000 * 1000;
  }

  /** The worker's own lease is the row's. */
  predicate HoldsChunk(s: State, w: nat) {
    && w in s.workers && s.workers[w].chunk < |s.chunks|
    && s.chunks[s.workers[w].chunk].status == Running
    && s.chunks[s.workers[w].chunk].leaseUntil == Some(s.workers[w].lease)
  }

  /** A release gives back exactly what its invocation still holds: the row is pending with
      no lease and otherwise as it was; under another lease, or not running, nothing changes. */
  lemma ReleaseFrees(cfg: Config, s: State, w: nat)
    requires MayRelease(s, w)
    ensures var i, t := s.workers[w].chunk, Step(cfg, s, Release(w));
            && (HoldsChunk(s, w) ==>
                  OnlyChunk(s, t, i) && t.chunks[i] == s.chunks[i].(status := Pending, leaseUntil := None))
            && (!HoldsChunk(s, w) ==> t.chunks == s.chunks)
            && t.workers[w].pc == HandingOff
  {
  }

  /** ... so the hand-off works: whatever the clock, the next invocation started for the chunk
      claims it at once, and resumes where the released one stopped. */
  lemma ReleasedIsClaimed(cfg: Config, s: State, w: nat, elapsed: nat, u: nat)
    requires MayRelease(s, w) && HoldsChunk(s, w)
    requires u in s.workers && s.workers[u].pc == Started && s.workers[u].chunk == s.workers[w].chunk
    ensures var i := s.workers[w].chunk;
            var t := Step(cfg, Step(cfg, Step(cfg, s, Release(w)), Tick(elapsed)), Claim(u));
            && |t.chunks| == |s.chunks| && u in t.workers
            && t.workers[u].pc == Reading && t.workers[u].seen == t.workers[u].pos == s.chunks[i].nextOffset
            && t.chunks[i].status == Running && t.chunks[i].leaseUntil == Some(t.workers[u].lease)
            && t.chunks[i].nextOffset == s.chunks[i].nextOffset && t.chunks[i].attempts == s.chunks[i].attempts + 1
  {
    ReleaseFrees(cfg, s, w);
    var released := Step(cfg, s, Release(w));
    assert released.workers[u] == s.workers[u];
    var later := Step(cfg, released, Tick(elapsed));
    assert At(later, u, Started);
    ClaimWinsIff(cfg, later, u);
  }

  function StoredSkus(lines: seq<Line>): set<string> {
    set k | 0 <= k < |lines| && lines[k].verdict.Stored? :: lines[k].verdict.sku
  }

  function RefusedLines(lines: seq<Line>): set<nat> {
    set k: nat | k < |lines| && lines[k].verdict.Refused?
  }

  lemma {:induction false} RefusedCounted(lines: seq<Line>)
    ensures RefusedCount(lines) == |RefusedLines(lines)|
    decreases |lines|
  {
    if lines != [] {
      var init, last := lines[..|lines| - 1], lines[|lines| - 1];
      assert lines == init + [last];
      RefusedCounted(init);
      LinesSnoc(init, last);
    }
  }

  lemma {:induction false} StoredCounted(cfg: Config, lines: seq<Line>)
    ensures Skus(Upserts(cfg, lines)) == StoredSkus(lines)
    decreases |lines|
  {
    if lines != [] {
      var init, last := lines[..|lines| - 1], lines[|lines| - 1];
      assert lines == init + [last];
      StoredCounted(cfg, init);
      LinesSnoc(init, last);
      if last.verdict.Stored? {
        var offers := Upserts(cfg, lines);
        assert offers[..|offers| - 1] == Upserts(cfg, init) && offers[|offers| - 1].sku == last.verdict.sku;
        SkusSnoc(offers);
      } else {
        assert Upserts(cfg, lines) == Upserts(cfg, init);
      }
    }
  }

  lemma LinesSnoc(init: seq<Line>, last: Line)
    ensures StoredSkus(init + [last]) == StoredSkus(init) + if last.verdict.Stored? then {last.verdict.sku} else {}
    ensures RefusedLines(init + [last]) == RefusedLines(init) + if last.verdict.Refused? then {|init|} else {}
  {
    var lines := init + [last];
    assert lines[|init|] == last;
    assert forall k :: 0 <= k < |init| ==> lines[k] == init[k];
  }

  /** A commit moves the checkpoint exactly if it is where the batch began: past the batch,
      counting its distinct SKUs and its refused rows, and to `done` at the chunk's end.
      Otherwise it writes nothing and its invocation has lost the chunk. */
  lemma CommitMovesIff(cfg: Config, s: State, w: nat)
    requires MayCommit(cfg, s, w)
    ensures var worker, i, t := s.workers[w], s.workers[w].chunk, Step(cfg, s, Commit(w));
            var c := s.chunks[i];
            if c.nextOffset == worker.seen then
              && OnlyChunk(s, t, i)
              && t.chunks[i] == c.(nextOffset := worker.pos,
                                   rowsProcessed := c.rowsProcessed + |StoredSkus(worker.lines)|,
                                   rowsRejected := c.rowsRejected + |RefusedLines(worker.lines)|,
                                   status := if worker.pos < c.endOffset then c.status else Done)
            else
              t.chunks == s.chunks && t.products == s.products && t.log == s.log && t.workers[w].pc == Finished(Superseded)
  {
    StoredCounted(cfg, s.workers[w].lines);
    RefusedCounted(s.workers[w].lines);
    DedupeCounts(Upserts(cfg, s.workers[w].lines));
  }

  /** A recorded failure counts once, and fails the chunk exactly from the bound on, whatever
      its status; its invocation goes on to the job exactly if the chunk is then failed. */
  lemma FailureCounts(cfg: Config, s: State, w: nat)
    requires At(s, w, Failing)
    ensures var i, t := s.workers[w].chunk, Step(cfg, s, RecordFailure(w));
            var c := s.chunks[i];
            && OnlyChunk(s, t, i)
            && t.chunks[i] == c.(failures := c.failures + 1,
                                 status := if c.failures + 1 < cfg.maxFailures then c.status else Failed)
            && t.workers[w].pc == if t.chunks[i].status == Failed then GivingUp else Finished(Thrown)
  {
  }

  function DoneChunks(chunks: seq<Chunk>): set<nat> {
    set i: nat | i < |chunks| && chunks[i].status == Done
  }

  lemma {:induction false} DoneCounted(chunks: seq<Chunk>)
    ensures CountDone(chunks) == |DoneChunks(chunks)|
  {
    if chunks != [] {
      var init, last := chunks[..|chunks| - 1], chunks[|chunks| - 1];
      assert chunks == init + [last];
      DoneCounted(init);
      assert DoneChunks(chunks) == DoneChunks(init) + if last.status == Done then {|init|} else {};
    }
  }

  /** The row counters add up, part by part. */
  lemma {:induction false} TotalsAdd(left: seq<Chunk>, right: seq<Chunk>)
    ensures TotalProcessed(left + right) == TotalProcessed(left) + TotalProcessed(right)
    ensures TotalRejected(left + right) == TotalRejected(left) + TotalRejected(right)
    ensures |right| == 1 ==> TotalProcessed(right) == right[0].rowsProcessed && TotalRejected(right) == right[0].rowsRejected
    decreases |right|
  {
    if right == [] {
      assert left + right == left;
    } else {
      var init := right[..|right| - 1];
      TotalsAdd(left, init);
      assert (left + right)[..|left + right| - 1] == left + init;
    }
  }

  /** How a job may end: completed exactly when it is running and every chunk is done, with
      the counters of all its chunks; failed exactly when it is running, every chunk is done
      or failed and some chunk failed, with its row counters as they were. */
  lemma JobEndsIff(cfg: Config, s: State)
    ensures var chunks, completed, failed := s.chunks, Step(cfg, s, SweepComplete).job, Step(cfg, s, SweepFail).job;
            && (if s.job.status == JobRunning && forall i :: 0 <= i < |chunks| ==> chunks[i].status == Done
                then completed == Job(JobCompleted, |chunks|, TotalProcessed(chunks), TotalRejected(chunks))
                else completed == s.job)
            && (if s.job.status == JobRunning
                   && (forall i :: 0 <= i < |chunks| ==> chunks[i].status in {Done, Failed})
                   && exists i :: 0 <= i < |chunks| && chunks[i].status == Failed
                then failed == s.job.(status := JobFailed, chunksDone := |DoneChunks(chunks)|)
                else failed == s.job)
  {
    DoneCounted(s.chunks);
    if AllDone(s.chunks) { AllDoneCounts(s.chunks); }
  }

  /** A refresh counts again, and only while the job runs. */
  lemma RefreshRecounts(cfg: Config, s: State, w: nat)
    requires MayRefresh(s, w)
    ensures var job := Step(cfg, s, Refresh(w)).job;
            if s.job.status == JobRunning
            then job == Job(JobRunning, |DoneChunks(s.chunks)|, TotalProcessed(s.chunks), TotalRejected(s.chunks))
            else job == s.job
  {
    DoneCounted(s.chunks);
  }

  /** An invocation's own last statements are the sweep's. */
  lemma InvocationEndsJob(cfg: Config, s: State, w: nat)
    ensures At(s, w, Refreshed) ==> Step(cfg, s, Complete(w)).job == Step(cfg, s, SweepComplete).job
    ensures At(s, w, GivingUp) ==> Step(cfg, s, GiveUp(w)).job == Step(cfg, s, SweepFail).job
  {
  }
}
