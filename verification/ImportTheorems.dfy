/** What holds of a vendor import in every reachable state, and over every run. */
module ImportTheorems {
  import opened FileRows
  import opened ProductStore
  import opened ImportTables
  import opened ImportMachine
  import opened ImportInvariant

  /** The committed lines of a chunk, batch after batch. */
  function Committed(batches: seq<Batch>): seq<Line> {
    if batches == [] then [] else Committed(batches[..|batches| - 1]) + batches[|batches| - 1].lines
  }

  lemma LinesSnoc(cfg: Config, limit: nat, from: nat, lines: seq<Line>, line: Line)
    requires LinesOk(cfg, limit, from, line.start, lines) && LineOk(cfg, limit, line)
    ensures LinesOk(cfg, limit, from, line.end, lines + [line])
  {
    assert (lines + [line])[..|lines|] == lines;
  }

  lemma {:induction false} LinesConcat(cfg: Config, limit: nat, from: nat, mid: nat, upTo: nat, left: seq<Line>, right: seq<Line>)
    requires LinesOk(cfg, limit, from, mid, left) && LinesOk(cfg, limit, mid, upTo, right)
    ensures LinesOk(cfg, limit, from, upTo, left + right)
    decreases |right|
  {
    if right == [] {
      assert left + right == left;
    } else {
      var init, last := right[..|right| - 1], right[|right| - 1];
      assert right == init + [last];
      LinesConcat(cfg, limit, from, mid, last.start, left, init);
      LinesSnoc(cfg, limit, from, left + init, last);
      Regroup(left, init, [last]);
    }
  }

  lemma {:induction false} RefusedConcat(left: seq<Line>, right: seq<Line>)
    ensures RefusedCount(left + right) == RefusedCount(left) + RefusedCount(right)
    decreases |right|
  {
    if right == [] {
      assert left + right == left;
    } else {
      var init, last := right[..|right| - 1], right[|right| - 1];
      RefusedConcat(left, init);
      assert (left + right)[..|left + right| - 1] == left + init;
    }
  }

  lemma {:induction false} TilesFlatten(cfg: Config, limit: nat, from: nat, upTo: nat, batches: seq<Batch>)
    requires Tiles(cfg, limit, from, upTo, batches)
    ensures LinesOk(cfg, limit, from, upTo, Committed(batches))
    ensures RefusedIn(batches) == RefusedCount(Committed(batches))
    decreases |batches|
  {
    if batches != [] {
      var init, last := batches[..|batches| - 1], batches[|batches| - 1];
      TilesFlatten(cfg, limit, from, last.seen, init);
      LinesConcat(cfg, limit, from, last.seen, upTo, Committed(init), last.lines);
      RefusedConcat(Committed(init), last.lines);
    }
  }

  /** Line `k` is row `k` of the range: same bytes, same end, text kept within the cap. */
  ghost predicate AreRows(cfg: Config, from: nat, upTo: nat, lines: seq<Line>)
    requires from <= upTo <= |cfg.file|
  {
    && |lines| == |Rows(cfg.file, from, upTo)|
    && forall k :: 0 <= k < |lines| ==> IsRow(cfg, from, upTo, lines[k], k)
  }

  predicate IsRow(cfg: Config, from: nat, upTo: nat, line: Line, k: nat)
    requires from <= upTo <= |cfg.file| && k < |Rows(cfg.file, from, upTo)|
  {
    var row := Rows(cfg.file, from, upTo)[k];
    && line.start == RowStart(cfg.file, from, upTo, k) && line.end == row.endOffset
    && Held(row.line, line.text, cfg.cap, cfg.window)
  }

  /** A row of a range is the same row of a longer one. */
  lemma RowStays(cfg: Config, from: nat, mid: nat, upTo: nat, line: Line, k: nat)
    requires from <= mid <= upTo <= |cfg.file| && k < |Rows(cfg.file, from, mid)|
    requires Rows(cfg.file, from, mid) <= Rows(cfg.file, from, upTo)
    requires IsRow(cfg, from, mid, line, k)
    ensures IsRow(cfg, from, upTo, line, k)
  {
    assert Rows(cfg.file, from, mid)[k] == Rows(cfg.file, from, upTo)[k];
    if 0 < k { assert Rows(cfg.file, from, mid)[k - 1] == Rows(cfg.file, from, upTo)[k - 1]; }
  }

  lemma LastIsRow(cfg: Config, from: nat, last: Line, k: nat)
    requires from <= last.start < last.end <= |cfg.file| && k == |Rows(cfg.file, from, last.start)|
    requires RowStart(cfg.file, from, last.start, k) == last.start
    requires Rows(cfg.file, from, last.end)
          == Rows(cfg.file, from, last.start) + [RangeLine(RowText(cfg.file, last.start, last.end), last.end)]
    requires Held(RowText(cfg.file, last.start, last.end), last.text, cfg.cap, cfg.window)
    ensures IsRow(cfg, from, last.end, last, k)
  {
    if 0 < k { assert Rows(cfg.file, from, last.start)[k - 1] == Rows(cfg.file, from, last.end)[k - 1]; }
  }

  lemma RowsAppend(cfg: Config, limit: nat, from: nat, last: Line, lines: seq<Line>)
    requires from <= last.start && LineOk(cfg, limit, last) && AreRows(cfg, from, last.start, lines)
    requires last.start == from || cfg.file[last.start - 1] == NEWLINE
    ensures AreRows(cfg, from, last.end, lines + [last])
  {
    RowsSnoc(cfg.file, from, last.start, last.end);
    forall k | 0 <= k < |lines| ensures IsRow(cfg, from, last.end, lines[k], k) {
      RowStays(cfg, from, last.start, last.end, lines[k], k);
    }
    ResumeAt(cfg.file, from, last.start, |lines|);
    RowEndUnique(cfg.file, last.start, last.end, last.end);
    LastIsRow(cfg, from, last, |lines|);
  }

  /** Where a list of lines stops, the file has a row boundary. */
  lemma LinesStop(cfg: Config, limit: nat, from: nat, upTo: nat, lines: seq<Line>)
    requires LinesOk(cfg, limit, from, upTo, lines)
    ensures lines == [] ==> upTo == from
    ensures lines != [] ==> 0 < upTo <= limit <= |cfg.file| && (upTo == limit || cfg.file[upTo - 1] == NEWLINE)
  {
  }

  lemma {:induction false} LinesAreRows(cfg: Config, limit: nat, from: nat, upTo: nat, lines: seq<Line>)
    requires upTo <= |cfg.file| && LinesOk(cfg, limit, from, upTo, lines)
    ensures from <= upTo && AreRows(cfg, from, upTo, lines)
    decreases |lines|
  {
    if lines != [] {
      var init, last := lines[..|lines| - 1], lines[|lines| - 1];
      assert lines == init + [last];
      LinesAreRows(cfg, limit, from, last.start, init);
      LinesStop(cfg, limit, from, last.start, init);
      RowsAppend(cfg, limit, from, last, init);
    }
  }

  /** Exactly once. However invocations race, overrun, repeat or die: the committed lines
      of a chunk are the rows of its range before the checkpoint, each once and in order,
      in batches that tile that range; and its counters are sums over those batches, of
      the distinct SKUs stored and of the rows refused. */
  lemma {:induction false} ExactlyOnce(cfg: Config, s0: State, acts: seq<Action>, i: nat)
    requires cfg.Valid() && Registered(cfg, s0) && i < |Run(cfg, s0, acts).chunks|
    ensures var s := Run(cfg, s0, acts);
            && |s.log| == |s.chunks|
            && var c, batches := s.chunks[i], s.log[i];
            && c.startOffset <= c.nextOffset <= c.endOffset <= |cfg.file|
            && IsCut(cfg.file, c.startOffset, c.endOffset, c.nextOffset)
            && Tiles(cfg, c.endOffset, c.startOffset, c.nextOffset, batches)
            && AreRows(cfg, c.startOffset, c.nextOffset, Committed(batches))
            && c.rowsProcessed == ProcessedIn(cfg, batches)
            && c.rowsRejected == RefusedCount(Committed(batches))
  {
    RegisteredOk(cfg, s0);
    RunKeeps(cfg, s0, acts);
    var s := Run(cfg, s0, acts);
    var c := s.chunks[i];
    assert ChunkOk(cfg, c, s.log[i]);
    TilesFlatten(cfg, c.endOffset, c.startOffset, c.nextOffset, s.log[i]);
    LinesAreRows(cfg, c.endOffset, c.startOffset, c.nextOffset, Committed(s.log[i]));
  }

  /** A chunk row only moves forward, and what was committed stays committed. */
  predicate MovedOn(s: State, t: State) {
    && |t.chunks| == |s.chunks| == |t.log| == |s.log|
    && forall i :: 0 <= i < |s.chunks| ==> Advances(s.chunks[i], t.chunks[i]) && s.log[i] <= t.log[i]
  }

  lemma CommitMovesOn(cfg: Config, s: State, w: nat)
    requires Inv(cfg, s)
    ensures MovedOn(s, DoCommit(cfg, s, w))
  {
    if MayCommit(cfg, s, w) {
      assert WorkerOk(cfg, s.chunks, s.workers[w]);
    }
  }

  lemma StepIsCommit(cfg: Config, s: State, w: nat)
    ensures Step(cfg, s, Commit(w)) == DoCommit(cfg, s, w)
  {
  }

  lemma ClaimMovesOn(cfg: Config, s: State, w: nat)
    requires |s.chunks| == |s.log|
    ensures MovedOn(s, DoClaim(cfg, s, w)) && MovedOn(s, DoRelease(s, w)) && MovedOn(s, DoRecordFailure(cfg, s, w))
  {
  }

  lemma OthersStandStill(cfg: Config, s: State, a: Action)
    requires !a.Claim? && !a.Commit? && !a.Release? && !a.RecordFailure?
    ensures Step(cfg, s, a).chunks == s.chunks && Step(cfg, s, a).log == s.log
  {
  }

  lemma StepMovesOn(cfg: Config, s: State, a: Action)
    requires Inv(cfg, s)
    ensures MovedOn(s, Step(cfg, s, a))
  {
    match a
    case Claim(w) => ClaimMovesOn(cfg, s, w);
    case Commit(w) => CommitMovesOn(cfg, s, w);
    case Release(w) => ClaimMovesOn(cfg, s, w);
    case RecordFailure(w) => ClaimMovesOn(cfg, s, w);
    case _ => OthersStandStill(cfg, s, a);
  }

  lemma {:induction false} NeverGoesBack(cfg: Config, s: State, acts: seq<Action>)
    requires cfg.Valid() && Inv(cfg, s)
    ensures MovedOn(s, Run(cfg, s, acts))
    decreases |acts|
  {
    if acts != [] {
      var before := Run(cfg, s, acts[..|acts| - 1]);
      NeverGoesBack(cfg, s, acts[..|acts| - 1]);
      RunKeeps(cfg, s, acts[..|acts| - 1]);
      StepMovesOn(cfg, before, acts[|acts| - 1]);
      forall i | 0 <= i < |s.chunks|
        ensures Advances(s.chunks[i], Run(cfg, s, acts).chunks[i]) && s.log[i] <= Run(cfg, s, acts).log[i]
      {
        assert Advances(s.chunks[i], before.chunks[i]) && s.log[i] <= before.log[i];
      }
    }
  }

  lemma {:induction false} MeasureFalls(maxFailures: nat, chunks: seq<Chunk>, after: seq<Chunk>)
    requires |chunks| == |after|
    requires forall i :: 0 <= i < |chunks| ==> Advances(chunks[i], after[i])
    ensures Measure(maxFailures, after) <= Measure(maxFailures, chunks)
    decreases |chunks|
  {
    if chunks != [] { MeasureFalls(maxFailures, chunks[..|chunks| - 1], after[..|after| - 1]); }
  }

  /** An invocation's claim, once made, stays as it was made. */
  predicate ClaimStands(s: State, t: State, w: nat) {
    w in s.workers && s.workers[w].claimed ==>
      w in t.workers && t.workers[w].claimed && t.workers[w].claimedMeasure == s.workers[w].claimedMeasure
  }

  lemma ReaderKeepsClaims(cfg: Config, s: State, a: Action, w: nat)
    requires a.Claim? || a.Read? || a.Commit?
    requires w in s.workers && s.workers[w].claimed ==> s.workers[w].pc != Started
    ensures ClaimStands(s, Step(cfg, s, a), w)
  {
  }

  lemma EnderKeepsClaims(cfg: Config, s: State, a: Action, w: nat)
    requires a.Release? || a.Refresh? || a.Complete? || a.Return?
    ensures ClaimStands(s, Step(cfg, s, a), w)
  {
  }

  lemma FailureKeepsClaims(cfg: Config, s: State, a: Action, w: nat)
    requires a.Throw? || a.RecordFailure? || a.GiveUp? || a.Kill?
    ensures ClaimStands(s, Step(cfg, s, a), w)
  {
  }

  lemma OtherKeepsClaims(cfg: Config, s: State, a: Action, w: nat)
    requires a.Tick? || a.Start? || a.SweepComplete? || a.SweepFail? || a.OtherUpsert? || a.OtherInsert?
    ensures ClaimStands(s, Step(cfg, s, a), w)
  {
  }

  lemma StepKeepsClaims(cfg: Config, s: State, a: Action, w: nat)
    requires w in s.workers && s.workers[w].claimed ==> s.workers[w].pc != Started
    ensures ClaimStands(s, Step(cfg, s, a), w)
  {
    if a.Claim? || a.Read? || a.Commit? {
      ReaderKeepsClaims(cfg, s, a, w);
    } else if a.Release? || a.Refresh? || a.Complete? || a.Return? {
      EnderKeepsClaims(cfg, s, a, w);
    } else if a.Throw? || a.RecordFailure? || a.GiveUp? || a.Kill? {
      FailureKeepsClaims(cfg, s, a, w);
    } else {
      OtherKeepsClaims(cfg, s, a, w);
    }
  }

  lemma {:induction false} RunKeepsClaims(cfg: Config, s: State, acts: seq<Action>, w: nat)
    requires cfg.Valid() && Inv(cfg, s)
    ensures ClaimStands(s, Run(cfg, s, acts), w)
    decreases |acts|
  {
    if acts != [] {
      RunKeepsClaims(cfg, s, acts[..|acts| - 1], w);
      RunKeeps(cfg, s, acts[..|acts| - 1]);
      var before := Run(cfg, s, acts[..|acts| - 1]);
      if w in before.workers { assert WorkerOk(cfg, before.chunks, before.workers[w]); }
      StepKeepsClaims(cfg, before, acts[|acts| - 1], w);
    }
  }

  /** Invocation `w` ended by itself, having claimed its chunk. */
  predicate RanItsCourse(s: State, w: nat) {
    w in s.workers && s.workers[w].claimed && s.workers[w].pc.Finished? && s.workers[w].pc.ending != Killed
  }

  lemma CourseCosts(cfg: Config, s: State, w: nat)
    requires Inv(cfg, s) && RanItsCourse(s, w)
    ensures Measure(cfg.maxFailures, s.chunks) < s.workers[w].claimedMeasure
  {
    assert WorkerOk(cfg, s.chunks, s.workers[w]);
  }

  lemma RunShrinks(cfg: Config, s: State, acts: seq<Action>)
    requires cfg.Valid() && Inv(cfg, s)
    ensures Measure(cfg.maxFailures, Run(cfg, s, acts).chunks) <= Measure(cfg.maxFailures, s.chunks)
  {
    NeverGoesBack(cfg, s, acts);
    MeasureFalls(cfg.maxFailures, s.chunks, Run(cfg, s, acts).chunks);
  }

  /** The measure of work left never rises, and every invocation that claims its chunk and
      is not killed leaves it strictly smaller than when it claimed, however it ends:
      finished, out of time, superseded or thrown. */
  lemma {:induction false} InvocationCosts(cfg: Config, s0: State, before: seq<Action>, w: nat, after: seq<Action>)
    requires cfg.Valid() && Registered(cfg, s0)
    ensures var s := Run(cfg, s0, before);
            var claimed := Step(cfg, s, Claim(w));
            var t := Run(cfg, claimed, after);
            && Measure(cfg.maxFailures, t.chunks) <= Measure(cfg.maxFailures, claimed.chunks) <= Measure(cfg.maxFailures, s.chunks)
            && (ClaimedHere(s, claimed, w) && RanItsCourse(t, w)
                ==> Measure(cfg.maxFailures, t.chunks) < Measure(cfg.maxFailures, s.chunks))
  {
    RegisteredOk(cfg, s0);
    RunKeeps(cfg, s0, before);
    ClaimCosts(cfg, Run(cfg, s0, before), w, after);
  }

  predicate ClaimedHere(s: State, t: State, w: nat) {
    w in s.workers && !s.workers[w].claimed && w in t.workers && t.workers[w].claimed
  }

  lemma ClaimStamps(cfg: Config, s: State, w: nat)
    requires ClaimedHere(s, DoClaim(cfg, s, w), w)
    ensures DoClaim(cfg, s, w).workers[w].claimedMeasure == Measure(cfg.maxFailures, s.chunks)
  {
  }

  lemma ClaimCosts(cfg: Config, s: State, w: nat, after: seq<Action>)
    requires cfg.Valid() && Inv(cfg, s)
    ensures var claimed := DoClaim(cfg, s, w);
            var t := Run(cfg, claimed, after);
            && Measure(cfg.maxFailures, t.chunks) <= Measure(cfg.maxFailures, claimed.chunks) <= Measure(cfg.maxFailures, s.chunks)
            && (ClaimedHere(s, claimed, w) && RanItsCourse(t, w)
                ==> Measure(cfg.maxFailures, t.chunks) < Measure(cfg.maxFailures, s.chunks))
  {
    ClaimKeeps(cfg, s, w);
    ClaimMovesOn(cfg, s, w);
    var claimed := DoClaim(cfg, s, w);
    MeasureFalls(cfg.maxFailures, s.chunks, claimed.chunks);
    RunShrinks(cfg, claimed, after);
    if ClaimedHere(s, claimed, w) {
      ClaimStamps(cfg, s, w);
      RunKeepsClaims(cfg, claimed, after, w);
      RunKeeps(cfg, claimed, after);
      if RanItsCourse(Run(cfg, claimed, after), w) { CourseCosts(cfg, Run(cfg, claimed, after), w); }
    }
  }

  /** A job leaves `running` at most once, and never changes again. */
  lemma {:induction false} JobFinal(cfg: Config, s: State, acts: seq<Action>)
    requires s.job.status != JobRunning
    ensures Run(cfg, s, acts).job == s.job
    decreases |acts|
  {
    if acts != [] { JobFinal(cfg, s, acts[..|acts| - 1]); }
  }

  /** `completed` means every chunk committed to its end, and in every state the job is
      ever completed in its row counters are the sums over its chunks. */
  lemma {:induction false} CompletedIsWhole(cfg: Config, s0: State, acts: seq<Action>)
    requires cfg.Valid() && Registered(cfg, s0) && Run(cfg, s0, acts).job.status == JobCompleted
    ensures var s := Run(cfg, s0, acts);
            && (forall i :: 0 <= i < |s.chunks| ==> s.chunks[i].nextOffset == s.chunks[i].endOffset)
            && s.job.chunksDone == |s.chunks|
            && s.job.rowsProcessed == TotalProcessed(s.chunks)
            && s.job.rowsRejected == TotalRejected(s.chunks)
  {
    RegisteredOk(cfg, s0);
    RunKeeps(cfg, s0, acts);
  }

  /** A chunk committed to its end can only have failures recorded on it: it is not claimed,
      committed or released again. */
  lemma WholeChunkStep(cfg: Config, s: State, a: Action, i: nat)
    requires cfg.Valid() && Inv(cfg, s) && i < |s.chunks| && s.chunks[i].nextOffset == s.chunks[i].endOffset
    ensures var t := Step(cfg, s, a);
            |t.chunks| == |s.chunks|
            && (t.chunks[i] == s.chunks[i] || t.chunks[i] == FailureRecorded(s.chunks[i], cfg.maxFailures))
  {
    assert ChunkOk(cfg, s.chunks[i], s.log[i]);
    match a
    case Claim(w) => EndedChunkIsLeft(cfg, s, w, i);
    case Commit(w) => WholeChunkKeepsOut(cfg, s, w, i);
    case Release(w) => EndedChunkIsLeft(cfg, s, w, i);
    case RecordFailure(w) => FailureIsRecorded(cfg, s, w, i);
    case _ => OthersStandStill(cfg, s, a);
  }

  lemma EndedChunkIsLeft(cfg: Config, s: State, w: nat, i: nat)
    requires i < |s.chunks| && (s.chunks[i].status == Done || s.chunks[i].status == Failed)
    ensures |DoClaim(cfg, s, w).chunks| == |s.chunks| && DoClaim(cfg, s, w).chunks[i] == s.chunks[i]
    ensures |DoRelease(s, w).chunks| == |s.chunks| && DoRelease(s, w).chunks[i] == s.chunks[i]
  {
  }

  lemma FailureIsRecorded(cfg: Config, s: State, w: nat, i: nat)
    requires i < |s.chunks|
    ensures var t := DoRecordFailure(cfg, s, w);
            |t.chunks| == |s.chunks|
            && (t.chunks[i] == s.chunks[i] || t.chunks[i] == FailureRecorded(s.chunks[i], cfg.maxFailures))
  {
  }

  lemma WholeChunkKeepsOut(cfg: Config, s: State, w: nat, i: nat)
    requires cfg.Valid() && Inv(cfg, s) && i < |s.chunks| && s.chunks[i].nextOffset == s.chunks[i].endOffset
    ensures |DoCommit(cfg, s, w).chunks| == |s.chunks| && DoCommit(cfg, s, w).chunks[i] == s.chunks[i]
  {
    if MayCommit(cfg, s, w) && s.workers[w].chunk == i {
      var worker := s.workers[w];
      assert WorkerOk(cfg, s.chunks, worker);
      LinesStop(cfg, s.chunks[i].endOffset, worker.seen, worker.pos, worker.lines);
      LinesAdvance(cfg, s.chunks[i].endOffset, worker.seen, worker.pos, worker.lines);
    }
  }

  /** When `done` is final: a chunk that is done is, after any run, still done if and only if
      no failure was recorded on it since or its failures are still below the bound, and
      otherwise it is failed. */
  lemma {:induction false} DoneStaysIff(cfg: Config, s: State, acts: seq<Action>, i: nat)
    requires cfg.Valid() && Inv(cfg, s) && i < |s.chunks| && s.chunks[i].status == Done
    ensures var t := Run(cfg, s, acts);
            && |t.chunks| == |s.chunks| && t.chunks[i].nextOffset == t.chunks[i].endOffset
            && s.chunks[i].failures <= t.chunks[i].failures
            && t.chunks[i].status ==
                 if t.chunks[i].failures == s.chunks[i].failures || t.chunks[i].failures < cfg.maxFailures then Done else Failed
    decreases |acts|
  {
    if acts == [] {
      assert ChunkOk(cfg, s.chunks[i], s.log[i]);
    } else {
      var init := acts[..|acts| - 1];
      DoneStaysIff(cfg, s, init, i);
      RunKeeps(cfg, s, init);
      WholeChunkStep(cfg, Run(cfg, s, init), acts[|acts| - 1], i);
    }
  }

  /** A release takes effect exactly when the row is running under the invocation's own lease,
      which then ends, and only the current holder's is: an invocation that has overrun its
      lease never frees a chunk another has claimed since. */
  lemma {:induction false} ReleaseIsHolders(cfg: Config, s0: State, acts: seq<Action>, w: nat)
    requires cfg.Valid() && Registered(cfg, s0)
    ensures var s := Run(cfg, s0, acts);
            MayRelease(s, w) ==>
              var i, chunks := s.workers[w].chunk, DoRelease(s, w).chunks;
              && (chunks != s.chunks <==> s.chunks[i].status == Running && s.chunks[i].leaseUntil == Some(s.workers[w].lease))
              && (chunks != s.chunks ==>
                    && s.holders[i] == Some(w)
                    && chunks == s.chunks[i := s.chunks[i].(status := Pending, leaseUntil := None)])
  {
    RegisteredOk(cfg, s0);
    RunKeeps(cfg, s0, acts);
    var s := Run(cfg, s0, acts);
    if MayRelease(s, w) {
      assert WorkerOk(cfg, s.chunks, s.workers[w]);
      assert LeaseOk(s.now, s.chunks[s.workers[w].chunk], s.holders[s.workers[w].chunk], w, s.workers[w]);
    }
  }

  /** At most one invocation that can still release holds the row's current lease. */
  lemma {:induction false} LeaseExclusive(cfg: Config, s0: State, acts: seq<Action>, u: nat, w: nat)
    requires cfg.Valid() && Registered(cfg, s0)
    requires var s := Run(cfg, s0, acts);
             && u in s.workers && w in s.workers
             && MayStillRelease(s.workers[u]) && MayStillRelease(s.workers[w])
             && s.workers[u].chunk == s.workers[w].chunk < |s.chunks|
             && s.chunks[s.workers[u].chunk].leaseUntil == Some(s.workers[u].lease) == Some(s.workers[w].lease)
    ensures u == w
  {
    RegisteredOk(cfg, s0);
    RunKeeps(cfg, s0, acts);
    var s := Run(cfg, s0, acts);
    var i := s.workers[u].chunk;
    assert LeaseOk(s.now, s.chunks[i], s.holders[i], u, s.workers[u]);
    assert LeaseOk(s.now, s.chunks[i], s.holders[i], w, s.workers[w]);
  }
}
