/** `chunkBoundaries`: a vendor file split into byte ranges, and what reading the
    ranges back amounts to. */
module ChunkBoundaries {
  import opened FileRows
  import opened ReadRangeLines

  datatype ChunkBoundary = ChunkBoundary(chunkIndex: nat, startOffset: nat, endOffset: nat)

  /** How much of the file is searched for the header's newline, and the scan's step. */
  const HEAD: nat := 64 * 1024
  const BOM: Bytes := ['\U{EF}', '\U{BB}', '\U{BF}']

  /** Where `at` or later the next newline stands; minus one if there is none. */
  method IndexOf(buffer: Bytes, at: nat) returns (found: int)
    requires at <= |buffer|
    ensures found == -1 ==> NEWLINE !in buffer[at..]
    ensures found != -1 ==> at <= found < |buffer| && buffer[found] == NEWLINE && NEWLINE !in buffer[at..found]
  {
    found := at;
    while found < |buffer|
      invariant at <= found <= |buffer| && NEWLINE !in buffer[at..found]
    {
      if buffer[found] == NEWLINE { return; }
      found := found + 1;
    }
    found := -1;
  }

  /** The offset just past the header line: where a file's body begins. */
  function BodyStart(file: Bytes): (at: nat)
    ensures at <= |file|
  {
    if file == [] then 0 else RowEnd(file, 0, |file|)
  }

  /** What the code takes for the start of the body: the header's newline counts only
      within the head of the file, and otherwise the file has no body at all. */
  function FirstRow(file: Bytes): (at: nat)
    ensures at <= |file|
  {
    if BodyStart(file) <= HEAD then BodyStart(file) else |file|
  }

  method FirstRowOffset(file: Bytes) returns (at: nat)
    ensures at == FirstRow(file)
  {
    var head := file[..if |file| <= HEAD then |file| else HEAD];
    var afterBom := if |head| >= |BOM| && head[..|BOM|] == BOM then |BOM| else 0;
    assert NEWLINE !in head[..afterBom];
    var newline := IndexOf(head, afterBom);
    if newline == -1 {
      at := |file|;
      assert head[..afterBom] + head[afterBom..] == head;
      assert forall k :: 0 <= k < |head| ==> file[k] == head[k];
      if 0 < |file| <= HEAD { RowEndUnique(file, 0, |file|, |file|); }
    } else {
      at := newline + 1;
      assert head[..afterBom] + head[afterBom..newline] == head[..newline];
      assert forall k :: 0 <= k < newline ==> file[k] == head[..newline][k];
      RowEndUnique(file, 0, |file|, newline + 1);
    }
  }

  method NextNewlineAfter(file: Bytes, from: nat) returns (end: nat)
    requires from < |file|
    ensures end == RowEnd(file, from, |file|)
  {
    var at := from;
    while at < |file|
      invariant from <= at && NEWLINE !in file[from..if at < |file| then at else |file|]
    {
      var buffer := file[at..if HEAD <= |file| - at then at + HEAD else |file|];
      var found := IndexOf(buffer, 0);
      if found != -1 {
        end := at + found + 1;
        assert file[from..at] + buffer[..found] == file[from..end - 1];
        assert forall k :: from <= k < end - 1 ==> file[k] == file[from..end - 1][k - from];
        RowEndUnique(file, from, |file|, end);
        return;
      }
      assert file[from..at] + buffer == file[from..at + |buffer|];
      assert buffer == buffer[0..];
      at := at + HEAD;
    }
    end := |file|;
    assert forall k :: from <= k < end ==> file[k] == file[from..end][k - from];
    RowEndUnique(file, from, |file|, end);
  }

  /** `bs` cuts `[from, |file|)` into consecutive chunks, each the shortest run of whole
      rows that is longer than the target, the last one excepted. */
  ghost predicate Splits(file: Bytes, from: nat, target: nat, bs: seq<ChunkBoundary>)
    requires from <= |file|
    decreases |bs|
  {
    if from == |file| then bs == []
    else
      && bs != []
      && bs[0].startOffset == from
      && bs[0].endOffset == (if from + target >= |file| then |file| else RowEnd(file, from + target, |file|))
      && Splits(file, bs[0].endOffset, target, bs[1..])
  }

  ghost predicate Numbered(bs: seq<ChunkBoundary>) {
    forall i :: 0 <= i < |bs| ==> bs[i].chunkIndex == i
  }

  /** Splitting further: a partial split followed by a split of what is left. */
  ghost predicate SplitsTo(file: Bytes, from: nat, mid: nat, target: nat, bs: seq<ChunkBoundary>)
    requires from <= mid <= |file|
  {
    forall rest :: Splits(file, mid, target, rest) ==> Splits(file, from, target, bs + rest)
  }

  lemma SplitsSnoc(file: Bytes, from: nat, mid: nat, target: nat, bs: seq<ChunkBoundary>, next: ChunkBoundary)
    requires from <= mid < |file| && SplitsTo(file, from, mid, target, bs)
    requires next.startOffset == mid
    requires next.endOffset == (if mid + target >= |file| then |file| else RowEnd(file, mid + target, |file|))
    ensures SplitsTo(file, from, next.endOffset, target, bs + [next])
  {
    forall rest | Splits(file, next.endOffset, target, rest)
      ensures Splits(file, from, target, (bs + [next]) + rest)
    {
      assert ([next] + rest)[1..] == rest;
      assert Splits(file, mid, target, [next] + rest);
      assert (bs + [next]) + rest == bs + ([next] + rest);
    }
  }

  method ChunkBoundaries(file: Bytes, targetBytes: nat) returns (boundaries: seq<ChunkBoundary>)
    ensures Splits(file, FirstRow(file), targetBytes, boundaries) && Numbered(boundaries)
  {
    var size := |file|;
    var start := FirstRowOffset(file);
    if start >= size { return []; }

    boundaries := [];
    var chunkStart: nat := start;
    assert SplitsTo(file, start, start, targetBytes, boundaries) by {
      assert forall rest: seq<ChunkBoundary> :: [] + rest == rest;
    }

    while true
      invariant start <= chunkStart < size
      invariant Numbered(boundaries)
      invariant SplitsTo(file, start, chunkStart, targetBytes, boundaries)
      decreases size - chunkStart
    {
      var target := chunkStart + targetBytes;
      if target >= size {
        SplitsSnoc(file, start, chunkStart, targetBytes, boundaries, ChunkBoundary(|boundaries|, chunkStart, size));
        boundaries := boundaries + [ChunkBoundary(|boundaries|, chunkStart, size)];
        assert Splits(file, size, targetBytes, []) && boundaries + [] == boundaries;
        return;
      }

      var end := NextNewlineAfter(file, target);
      SplitsSnoc(file, start, chunkStart, targetBytes, boundaries, ChunkBoundary(|boundaries|, chunkStart, end));
      boundaries := boundaries + [ChunkBoundary(|boundaries|, chunkStart, end)];
      if end >= size {
        assert Splits(file, size, targetBytes, []) && boundaries + [] == boundaries;
        return;
      }
      chunkStart := end;
    }
  }

  /** The chunks partition the body: they start and end on row boundaries, meet end to
      start, are never empty, and every one but the last is longer than the target, by no
      more than the row that takes it there. */
  lemma {:induction false} ChunksPartition(file: Bytes, from: nat, target: nat, bs: seq<ChunkBoundary>, i: nat)
    requires from <= |file| && Splits(file, from, target, bs) && i < |bs|
    ensures from <= bs[i].startOffset < bs[i].endOffset <= |file|
    ensures bs[0].startOffset == from
    ensures IsCut(file, from, |file|, bs[i].startOffset) && IsCut(file, from, |file|, bs[i].endOffset)
    ensures if i + 1 < |bs| then bs[i].endOffset == bs[i + 1].startOffset else bs[i].endOffset == |file|
    ensures i + 1 < |bs| ==> bs[i].endOffset - bs[i].startOffset > target
    ensures forall at :: bs[i].startOffset + target <= at < bs[i].endOffset - 1 ==> file[at] != '\n'
    decreases |bs|
  {
    if 0 < i {
      ChunksPartition(file, bs[0].endOffset, target, bs[1..], i - 1);
    } else if 1 < |bs| {
      ChunksPartition(file, bs[0].endOffset, target, bs[1..], 0);
    }
  }

  /** Two splits of one file for one target are the same split. */
  lemma {:induction false} SplitUnique(file: Bytes, from: nat, target: nat, bs: seq<ChunkBoundary>, cs: seq<ChunkBoundary>)
    requires from <= |file| && Splits(file, from, target, bs) && Splits(file, from, target, cs)
    ensures |bs| == |cs|
    ensures forall i :: 0 <= i < |bs| ==> bs[i].startOffset == cs[i].startOffset && bs[i].endOffset == cs[i].endOffset
    decreases |bs|
  {
    if from < |file| {
      SplitUnique(file, bs[0].endOffset, target, bs[1..], cs[1..]);
      forall i | 0 < i < |bs|
        ensures bs[i].startOffset == cs[i].startOffset && bs[i].endOffset == cs[i].endOffset
      {
        assert bs[i] == bs[1..][i - 1] && cs[i] == cs[1..][i - 1];
      }
    }
  }

  function Concat(readings: seq<seq<RangeLine>>): seq<RangeLine> {
    if readings == [] then [] else readings[0] + Concat(readings[1..])
  }

  /** Chunking and reading compose: whatever the target and however each chunk's bytes
      arrive, the chunks' readings laid end to end are a reading of the whole body. */
  lemma {:induction false} ChunkedReading(file: Bytes, from: nat, target: nat, bs: seq<ChunkBoundary>,
                                          cap: nat, window: nat, readings: seq<seq<RangeLine>>)
    requires from <= |file| && Splits(file, from, target, bs)
    requires |readings| == |bs|
    requires forall i :: 0 <= i < |bs| ==>
               && bs[i].startOffset <= bs[i].endOffset <= |file|
               && ReadsAs(file, bs[i].startOffset, bs[i].endOffset, cap, window, readings[i])
    ensures ReadsAs(file, from, |file|, cap, window, Concat(readings))
    decreases |bs|
  {
    if from < |file| {
      var mid := bs[0].endOffset;
      forall i | 0 <= i < |bs| - 1
        ensures bs[1..][i].startOffset <= bs[1..][i].endOffset <= |file|
        ensures ReadsAs(file, bs[1..][i].startOffset, bs[1..][i].endOffset, cap, window, readings[1..][i])
      {
        assert bs[1..][i] == bs[i + 1] && readings[1..][i] == readings[i + 1];
      }
      ChunkedReading(file, mid, target, bs[1..], cap, window, readings[1..]);
      ReadsConcat(file, from, mid, |file|, cap, window, readings[0], Concat(readings[1..]));
    }
  }

  /** The rows that are chunked are the rows of the body exactly when the header line fits
      in the head of the file or nothing follows it; a longer header takes the whole body
      with it. */
  lemma BodyCoveredIff(file: Bytes)
    ensures Rows(file, FirstRow(file), |file|) == Rows(file, BodyStart(file), |file|)
            <==> BodyStart(file) <= 65_536 || BodyStart(file) == |file|
  {
    if BodyStart(file) < |file| {
      assert Rows(file, BodyStart(file), |file|) != [];
    }
    assert Rows(file, |file|, |file|) == [];
  }

  function Blank(n: nat): (s: Bytes)
    ensures |s| == n && forall k :: 0 <= k < n ==> s[k] == 'x'
  {
    seq(n, _ => 'x')
  }

  /** A file whose header line is one byte too long: it has a row, and no chunk. */
  lemma LongHeaderLosesBody()
    ensures var file := Blank(HEAD) + "\n" + "row";
            Rows(file, BodyStart(file), |file|) != [] && Splits(file, FirstRow(file), 1, [])
  {
    var file := Blank(HEAD) + "\n" + "row";
    RowEndUnique(file, 0, |file|, HEAD + 1);
  }
}
