/** The two ingestion tables, and each statement the ingestion module runs on them as the
    effect it has on the row it matches. Instants are microseconds. */
module ImportTables {
  import opened ProductStore

  datatype ChunkStatus = Pending | Running | Done | Failed
  datatype JobStatus = JobRunning | JobPaused | JobCompleted | JobFailed | JobAborted

  datatype Chunk = Chunk(startOffset: nat, endOffset: nat, nextOffset: nat, leaseUntil: Option<nat>,
                         attempts: nat, failures: nat, rowsProcessed: nat, rowsRejected: nat, status: ChunkStatus)

  datatype Job = Job(status: JobStatus, chunksDone: nat, rowsProcessed: nat, rowsRejected: nat)

  /** The lease a claim takes, truncated to milliseconds because the holder proves itself
      with the value it read back. */
  function LeaseEnd(now: nat, leaseMs: nat): nat {
    (now + leaseMs * 1000) / 1000 * 1000
  }

  predicate Claimable(chunk: Chunk, now: nat) {
    chunk.status == Pending
    || (chunk.status == Running && (chunk.leaseUntil.None? || chunk.leaseUntil.value < now))
  }

  function Claimed(chunk: Chunk, now: nat, leaseMs: nat): Chunk {
    chunk.(status := Running, leaseUntil := Some(LeaseEnd(now, leaseMs)), attempts := chunk.attempts + 1)
  }

  function Checkpointed(chunk: Chunk, nextOffset: nat, processed: nat, rejected: nat): Chunk {
    chunk.(nextOffset := nextOffset,
           rowsProcessed := chunk.rowsProcessed + processed,
           rowsRejected := chunk.rowsRejected + rejected,
           status := if nextOffset >= chunk.endOffset then Done else chunk.status)
  }

  /** Only the invocation whose lease the row still carries gives it back. */
  predicate Releasable(chunk: Chunk, lease: nat) {
    chunk.status == Running && chunk.leaseUntil == Some(lease)
  }

  function Released(chunk: Chunk): Chunk {
    chunk.(status := Pending, leaseUntil := None)
  }

  /** No guard on the status: a chunk that is done can become failed. */
  function FailureRecorded(chunk: Chunk, maxFailures: nat): Chunk {
    chunk.(failures := chunk.failures + 1,
           status := if chunk.failures + 1 >= maxFailures then Failed else chunk.status)
  }

  function CountDone(chunks: seq<Chunk>): nat {
    if chunks == [] then 0
    else CountDone(chunks[..|chunks| - 1]) + if chunks[|chunks| - 1].status == Done then 1 else 0
  }

  function TotalProcessed(chunks: seq<Chunk>): nat {
    if chunks == [] then 0 else TotalProcessed(chunks[..|chunks| - 1]) + chunks[|chunks| - 1].rowsProcessed
  }

  function TotalRejected(chunks: seq<Chunk>): nat {
    if chunks == [] then 0 else TotalRejected(chunks[..|chunks| - 1]) + chunks[|chunks| - 1].rowsRejected
  }

  predicate AllDone(chunks: seq<Chunk>) {
    forall i :: 0 <= i < |chunks| ==> chunks[i].status == Done
  }

  /** Every chunk is at its end, one way or the other, and not all of them done. */
  predicate Exhausted(chunks: seq<Chunk>) {
    && (forall i :: 0 <= i < |chunks| ==> chunks[i].status == Done || chunks[i].status == Failed)
    && exists i :: 0 <= i < |chunks| && chunks[i].status == Failed
  }

  function RefreshJobProgress(job: Job, chunks: seq<Chunk>): Job {
    if job.status != JobRunning then job
    else job.(chunksDone := CountDone(chunks), rowsProcessed := TotalProcessed(chunks), rowsRejected := TotalRejected(chunks))
  }

  /** Status and counters change together, over chunks that are all done. */
  function CompleteJobIfDone(job: Job, chunks: seq<Chunk>): Job {
    if job.status == JobRunning && AllDone(chunks)
    then Job(JobCompleted, CountDone(chunks), TotalProcessed(chunks), TotalRejected(chunks))
    else job
  }

  /** Unlike completion, giving up leaves the row counters as the last refresh left them. */
  function FailJobIfExhausted(job: Job, chunks: seq<Chunk>): Job {
    if job.status == JobRunning && Exhausted(chunks)
    then job.(status := JobFailed, chunksDone := CountDone(chunks))
    else job
  }

  lemma {:induction false} AllDoneCounts(chunks: seq<Chunk>)
    requires AllDone(chunks)
    ensures CountDone(chunks) == |chunks|
  {
    if chunks != [] { AllDoneCounts(chunks[..|chunks| - 1]); }
  }

  lemma {:induction false} SameTotals(chunks: seq<Chunk>, after: seq<Chunk>)
    requires |chunks| == |after|
    requires forall i :: 0 <= i < |chunks| ==>
               after[i].rowsProcessed == chunks[i].rowsProcessed && after[i].rowsRejected == chunks[i].rowsRejected
    ensures TotalProcessed(after) == TotalProcessed(chunks) && TotalRejected(after) == TotalRejected(chunks)
  {
    if chunks != [] {
      SameTotals(chunks[..|chunks| - 1], after[..|after| - 1]);
    }
  }

  /** Once no chunk is pending or running, one sweep over the job takes it out of running:
      completed when every chunk is done, failed when one gave up. */
  lemma {:induction false} SweepSettles(job: Job, chunks: seq<Chunk>)
    requires job.status == JobRunning
    requires forall i :: 0 <= i < |chunks| ==> chunks[i].status != Pending && chunks[i].status != Running
    ensures var swept := FailJobIfExhausted(CompleteJobIfDone(job, chunks), chunks);
            swept.status == if AllDone(chunks) then JobCompleted else JobFailed
  {
    if !AllDone(chunks) {
      var i :| 0 <= i < |chunks| && chunks[i].status != Done;
      assert chunks[i].status == Failed;
    }
  }
}
