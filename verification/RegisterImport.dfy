/** Registering a vendor file: a job, its chunks as the file divides, and a delivery for
    each, under the two unique indexes that refuse a file twice and a vendor's second open
    import. */
module RegisterImport {
  import opened FileRows
  import opened ChunkBoundaries
  import opened ProductStore
  import opened ImportTables
  import opened ImportEndToEnd

  datatype ImportJob = ImportJob(vendor: string, fileSha256: string, chunksTotal: nat, job: Job)
  datatype Outcome = Accepted(jobId: nat, chunksTotal: nat) | VendorBusy | DuplicateFile

  /** A paused import still holds its vendor. */
  predicate Open(job: Job) { job.status == JobRunning || job.status == JobPaused }

  predicate Busy(jobs: map<nat, ImportJob>, vendor: string) {
    exists id :: id in jobs && jobs[id].vendor == vendor && Open(jobs[id].job)
  }

  predicate Known(jobs: map<nat, ImportJob>, sha: string) {
    exists id :: id in jobs && jobs[id].fileSha256 == sha
  }

  /** The two unique indexes. */
  ghost predicate Unique(jobs: map<nat, ImportJob>) {
    && (forall i, j :: i in jobs && j in jobs && jobs[i].fileSha256 == jobs[j].fileSha256 ==> i == j)
    && forall i, j :: i in jobs && j in jobs && jobs[i].vendor == jobs[j].vendor && Open(jobs[i].job) && Open(jobs[j].job) ==> i == j
  }

  class Registry {
    var jobs: map<nat, ImportJob>
    var chunks: map<nat, seq<Chunk>>
    var nextId: nat

    ghost predicate Valid()
      reads this
    {
      Unique(jobs) && jobs.Keys == chunks.Keys && forall id :: id in jobs ==> id < nextId && jobs[id].chunksTotal == |chunks[id]|
    }

    constructor ()
      ensures Valid() && jobs == map[]
    {
      jobs, chunks, nextId := map[], map[], 0;
    }

    /** Refused exactly when an index refuses it, and then nothing is kept. Accepted, the
        job is running over the one division of the file's body the target gives, nothing
        of it committed, and every chunk is delivered once, after the rows are there. */
    method Execute(vendor: string, file: Bytes, sha: string, chunkBytes: nat)
      returns (outcome: Outcome, enqueued: seq<nat>, ghost boundaries: seq<ChunkBoundary>)
      requires Valid()
      modifies this
      ensures Valid()
      ensures outcome.Accepted? <==> forall id :: id in old(jobs) ==>
                && old(jobs)[id].fileSha256 != sha
                && !(old(jobs)[id].vendor == vendor && old(jobs)[id].job.status in {JobRunning, JobPaused})
      ensures outcome.VendorBusy? ==> old(Busy(jobs, vendor))
      ensures outcome.DuplicateFile? ==> old(Known(jobs, sha))
      ensures !outcome.Accepted? ==> jobs == old(jobs) && chunks == old(chunks) && enqueued == []
      ensures outcome.Accepted? ==>
                && Splits(file, FirstRow(file), chunkBytes, boundaries)
                && outcome == Accepted(old(nextId), |boundaries|)
                && jobs == old(jobs)[old(nextId) := ImportJob(vendor, sha, |boundaries|, Job(JobRunning, 0, 0, 0))]
                && chunks == old(chunks)[old(nextId) := ChunkRows(boundaries)]
                && enqueued == seq(|boundaries|, k => k)
    {
      var split := ChunkBoundaries.ChunkBoundaries(file, chunkBytes);
      boundaries, enqueued := split, [];
      var id := nextId;
      nextId := nextId + 1;
      if Known(jobs, sha) { return DuplicateFile, [], split; }
      if Busy(jobs, vendor) { return VendorBusy, [], split; }
      jobs := jobs[id := ImportJob(vendor, sha, |split|, Job(JobRunning, 0, 0, 0))];
      chunks := chunks[id := ChunkRows(split)];
      for k := 0 to |split|
        invariant enqueued == seq(k, i => i)
      {
        enqueued := enqueued + [split[k].chunkIndex];
      }
      outcome := Accepted(id, |split|);
    }
  }
}
