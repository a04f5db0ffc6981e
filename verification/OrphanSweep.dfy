/** The reconciler's sweep of abandoned imports: jobs with nothing left to run are settled,
    and the chunks of the others that no worker holds are offered again. */
module OrphanSweep {
  import opened ProductStore
  import opened ImportTables

  /** The query's limit. */
  const LIMIT := 1_000

  datatype ChunkKey = ChunkKey(jobId: nat, chunkIndex: nat)

  datatype Tables = Tables(now: nat, jobs: map<nat, Job>, updatedAt: map<nat, nat>, chunks: map<nat, seq<Chunk>>)
  {
    /** The chunks' foreign key, and the columns every job has. */
    predicate Valid() { jobs.Keys == updatedAt.Keys == chunks.Keys }
  }

  function Ago(now: nat, grace: nat): int { now - grace }

  /** The job is running and has not moved for the grace period, and its chunk is pending or
      held under a lease that ran out at least as long ago. */
  predicate IsOrphan(t: Tables, grace: nat, key: ChunkKey)
    requires t.Valid()
  {
    && key.jobId in t.jobs && t.jobs[key.jobId].status == JobRunning && t.updatedAt[key.jobId] < Ago(t.now, grace)
    && key.chunkIndex < |t.chunks[key.jobId]|
    && var chunk := t.chunks[key.jobId][key.chunkIndex];
       chunk.status == Pending
       || (chunk.status == Running && (chunk.leaseUntil.None? || chunk.leaseUntil.value < Ago(t.now, grace)))
  }

  /** What the query answers: orphans, all of them unless there are too many for one run. */
  ghost predicate IsAnswer(t: Tables, grace: nat, keys: seq<ChunkKey>)
    requires t.Valid()
  {
    && |keys| <= LIMIT
    && (forall k :: 0 <= k < |keys| ==> IsOrphan(t, grace, keys[k]))
    && (|keys| < LIMIT ==> forall key :: IsOrphan(t, grace, key) ==> key in keys)
  }

  /** The filter is the claim's guard, a grace ago: a chunk of a running job that has stood
      still for the grace is an orphan exactly when a claim would have taken it back then. */
  lemma OrphanIff(t: Tables, grace: nat, key: ChunkKey)
    requires t.Valid() && key.jobId in t.jobs && key.chunkIndex < |t.chunks[key.jobId]|
    ensures IsOrphan(t, grace, key) <==>
              && t.jobs[key.jobId].status == JobRunning && t.updatedAt[key.jobId] + grace < t.now
              && Claimable(t.chunks[key.jobId][key.chunkIndex], t.now - grace)
  {
  }

  /** An orphan is a chunk a claim would take. */
  lemma OrphanIsClaimable(t: Tables, grace: nat, key: ChunkKey)
    requires t.Valid() && IsOrphan(t, grace, key)
    ensures Claimable(t.chunks[key.jobId][key.chunkIndex], t.now)
  {
  }

  /** A job completed if every chunk is done, failed if none is left to run. */
  function Settled(job: Job, chunks: seq<Chunk>): Job {
    FailJobIfExhausted(CompleteJobIfDone(job, chunks), chunks)
  }

  /** What a sweep leaves running has a chunk still to run. */
  lemma {:induction false} StillRunningHasWork(job: Job, chunks: seq<Chunk>)
    ensures Settled(job, chunks).status == JobRunning ==>
              && job == Settled(job, chunks)
              && exists i :: 0 <= i < |chunks| && (chunks[i].status == Pending || chunks[i].status == Running)
    ensures job.status != JobRunning ==> Settled(job, chunks) == job
  {
    if Settled(job, chunks).status == JobRunning
       && forall i :: 0 <= i < |chunks| ==> chunks[i].status != Pending && chunks[i].status != Running {
      SweepSettles(job, chunks);
    }
  }

  /** The jobs in `done` have been settled, and the others are as they were. */
  ghost predicate SettledSome(before: map<nat, Job>, jobs: map<nat, Job>, chunks: map<nat, seq<Chunk>>, done: set<nat>) {
    && jobs.Keys == before.Keys == chunks.Keys
    && forall id :: id in jobs ==> jobs[id] == if id in done then Settled(before[id], chunks[id]) else before[id]
  }

  /** A job that was not running is settled as it is. */
  lemma AllSettled(before: map<nat, Job>, jobs: map<nat, Job>, chunks: map<nat, seq<Chunk>>, done: set<nat>, running: seq<nat>)
    requires SettledSome(before, jobs, chunks, done)
    requires forall id :: id in running <==> id in before && before[id].status == JobRunning
    requires forall i :: 0 <= i < |running| ==> running[i] in done
    ensures forall id :: id in jobs ==> jobs[id] == Settled(before[id], chunks[id])
  {
    forall id | id in jobs ensures jobs[id] == Settled(before[id], chunks[id]) {
      StillRunningHasWork(before[id], chunks[id]);
    }
  }

  class Reconciler {
    var now: nat
    var jobs: map<nat, Job>
    var updatedAt: map<nat, nat>
    var chunks: map<nat, seq<Chunk>>

    function Contents(): Tables
      reads this
    {
      Tables(now, jobs, updatedAt, chunks)
    }

    constructor (t: Tables)
      requires t.Valid()
      ensures Contents() == t
    {
      now, jobs, updatedAt, chunks := t.now, t.jobs, t.updatedAt, t.chunks;
    }

    method Settle(id: nat) returns (settled: bool, givenUp: bool)
      requires Contents().Valid() && id in jobs
      modifies this`jobs, this`updatedAt
      ensures Contents().Valid() && jobs == old(jobs)[id := Settled(old(jobs)[id], chunks[id])]
      ensures settled == (old(jobs)[id].status == JobRunning && AllDone(chunks[id]))
      ensures givenUp == (old(jobs)[id].status == JobRunning && !settled && Exhausted(chunks[id]))
      ensures updatedAt == if settled || givenUp then old(updatedAt)[id := now] else old(updatedAt)
    {
      settled := jobs[id].status == JobRunning && AllDone(chunks[id]);
      jobs := jobs[id := CompleteJobIfDone(jobs[id], chunks[id])];
      if !settled {
        givenUp := jobs[id].status == JobRunning && Exhausted(chunks[id]);
        jobs := jobs[id := FailJobIfExhausted(jobs[id], chunks[id])];
      } else {
        givenUp := false;
      }
      if settled || givenUp { updatedAt := updatedAt[id := now]; }
    }

    method SettleAll(running: seq<nat>)
      requires Contents().Valid()
      requires forall id :: id in running <==> id in jobs && jobs[id].status == JobRunning
      modifies this`jobs, this`updatedAt
      ensures Contents().Valid() && jobs.Keys == old(jobs).Keys
      ensures forall id :: id in jobs ==> jobs[id] == Settled(old(jobs)[id], chunks[id])
    {
      ghost var done: set<nat> := {};
      for j := 0 to |running|
        invariant Contents().Valid() && SettledSome(old(jobs), jobs, chunks, done)
        invariant forall i :: 0 <= i < j ==> running[i] in done
      {
        var _, _ := SettleOne(running[j], old(jobs), done);
        done := done + {running[j]};
      }
      AllSettled(old(jobs), jobs, chunks, done, running);
    }

    method SettleOne(id: nat, ghost before: map<nat, Job>, ghost done: set<nat>) returns (settled: bool, givenUp: bool)
      requires Contents().Valid() && id in jobs && SettledSome(before, jobs, chunks, done)
      modifies this`jobs, this`updatedAt
      ensures Contents().Valid() && SettledSome(before, jobs, chunks, done + {id})
    {
      SettledTwice(before[id], chunks[id]);
      settled, givenUp := Settle(id);
    }

    /** A publish that fails strands only its own chunk, until the next sweep. */
    method Reoffer(orphans: seq<ChunkKey>, reaches: nat -> bool) returns (enqueued: nat, published: seq<ChunkKey>)
      ensures enqueued == |published| && forall key :: key in published ==> key in orphans
      ensures (forall k :: reaches(k)) ==> forall key :: key in orphans ==> key in published
    {
      enqueued, published := 0, [];
      for k := 0 to |orphans|
        invariant enqueued == |published|
        invariant forall key :: key in published ==> key in orphans
        invariant (forall i :: reaches(i)) ==> forall i :: 0 <= i < k ==> orphans[i] in published
      {
        if reaches(k) {
          published := published + [orphans[k]];
          enqueued := enqueued + 1;
        }
      }
    }

    /** Every running job is settled or has work left, and what is published is claimable. */
    method Execute(graceMs: nat, running: seq<nat>, query: Tables -> seq<ChunkKey>, reaches: nat -> bool)
      returns (enqueued: nat, published: seq<ChunkKey>)
      requires Contents().Valid()
      requires forall id :: id in running <==> id in jobs && jobs[id].status == JobRunning
      requires forall t: Tables :: t.Valid() ==> IsAnswer(t, graceMs * 1000, query(t))
      modifies this`jobs, this`updatedAt
      ensures Contents().Valid() && jobs.Keys == old(jobs).Keys
      ensures forall id :: id in jobs ==> jobs[id] == Settled(old(jobs)[id], chunks[id])
      ensures enqueued == |published|
      ensures forall key :: key in published ==>
                IsOrphan(Contents(), graceMs * 1000, key) && Claimable(chunks[key.jobId][key.chunkIndex], now)
      ensures |query(Contents())| < 1_000 && (forall k :: reaches(k)) ==>
                forall key :: IsOrphan(Contents(), graceMs * 1000, key) ==> key in published
    {
      SettleAll(running);
      var orphans := query(Contents());
      enqueued, published := Reoffer(orphans, reaches);
      forall key | key in published
        ensures IsOrphan(Contents(), graceMs * 1000, key) && Claimable(chunks[key.jobId][key.chunkIndex], now)
      {
        OrphanIsClaimable(Contents(), graceMs * 1000, key);
      }
    }
  }

  /** Settling a job again changes nothing. */
  lemma SettledTwice(job: Job, chunks: seq<Chunk>)
    ensures Settled(Settled(job, chunks), chunks) == Settled(job, chunks)
  {
  }
}
