/** `readRangeLines`: one chunk's rows read back through bounded windows. */
module ReadRangeLines {
  import opened FileRows

  /** The reader's cap on the text of one row. */
  const MAX_ROW_CHARS: nat := 1024 * 1024

  function Flatten(windows: seq<Bytes>): Bytes {
    if windows == [] then [] else Flatten(windows[..|windows| - 1]) + windows[|windows| - 1]
  }

  /** A split of `[from, to)` into read windows of at most `window` bytes each. */
  predicate IsStream(file: Bytes, from: nat, until: nat, window: nat, windows: seq<Bytes>)
    requires from <= until <= |file|
  {
    Flatten(windows) == file[from..until] && forall w :: w in windows ==> |w| <= window
  }

  /** A piece is taken whole or not at all: taken while what is held is under the cap. */
  function Keep(cap: nat, pending: Bytes, next: Bytes): Bytes {
    if |pending| >= cap then pending else pending + next
  }

  lemma {:induction false} FlattenPrefix(windows: seq<Bytes>, k: nat)
    requires k <= |windows|
    ensures Flatten(windows[..k]) <= Flatten(windows)
    decreases |windows| - k
  {
    if k < |windows| {
      FlattenPrefix(windows, k + 1);
      assert windows[..k + 1][..k] == windows[..k];
    } else {
      assert windows[..k] == windows;
    }
  }

  /** Window `k` is the bytes of the file it claims to be. */
  lemma WindowAt(file: Bytes, from: nat, until: nat, windows: seq<Bytes>, k: nat)
    requires from <= until <= |file| && Flatten(windows) == file[from..until] && k < |windows|
    ensures var scanned := from + |Flatten(windows[..k])|;
            && scanned + |windows[k]| <= until
            && IsAt(file, scanned, windows[k])
            && |Flatten(windows[..k + 1])| == |Flatten(windows[..k])| + |windows[k]|
  {
    FlattenPrefix(windows, k + 1);
    assert windows[..k + 1][..k] == windows[..k];
    var before := Flatten(windows[..k]);
    var through := Flatten(windows[..k + 1]);
    assert through == before + windows[k];
    assert through == file[from..until][..|through|];
    assert windows[k] == through[|before|..];
  }

  predicate NoBreak(file: Bytes, at: nat, end: nat) {
    end <= |file| && forall k :: at <= k < end ==> file[k] != NEWLINE
  }

  /** `bytes` are the bytes of the file from `at` on. */
  predicate IsAt(file: Bytes, at: nat, bytes: Bytes) {
    at + |bytes| <= |file| && forall k :: 0 <= k < |bytes| ==> bytes[k] == file[at + k]
  }

  /** `Held` for the bytes `[at, end)` of the file. */
  predicate HeldAt(file: Bytes, cap: nat, window: nat, at: nat, end: nat, kept: Bytes) {
    && at + |kept| <= end <= |file|
    && IsAt(file, at, kept)
    && (if end - at <= cap then |kept| == end - at else cap <= |kept| < cap + window)
  }

  /** `read` is the row that starts at `at`, terminated, with its text kept in bound. */
  predicate TookRow(file: Bytes, cap: nat, window: nat, at: nat, read: RangeLine) {
    && at < read.endOffset <= |file|
    && file[read.endOffset - 1] == NEWLINE
    && NoBreak(file, at, read.endOffset - 1)
    && HeldAt(file, cap, window, at, read.endOffset - 1, read.line)
  }

  function ResumeOffset(from: nat, lines: seq<RangeLine>): nat {
    if lines == [] then from else lines[|lines| - 1].endOffset
  }

  /** `lines` are consecutive rows from `from` on. */
  ghost predicate TookRows(file: Bytes, from: nat, cap: nat, window: nat, lines: seq<RangeLine>)
    decreases |lines|
  {
    lines == [] ||
    (var n := |lines| - 1;
     && TookRows(file, from, cap, window, lines[..n])
     && TookRow(file, cap, window, ResumeOffset(from, lines[..n]), lines[n]))
  }

  /** The reader's state after the bytes before `at`: every row yielded so far, and what
      was kept of the row it is inside of. */
  ghost predicate Scanned(file: Bytes, from: nat, cap: nat, window: nat, lines: seq<RangeLine>,
                          at: nat, pending: Bytes)
  {
    var lineStart := ResumeOffset(from, lines);
    && lineStart <= at <= |file|
    && TookRows(file, from, cap, window, lines)
    && NoBreak(file, lineStart, at)
    && HeldAt(file, cap, window, lineStart, at, pending)
  }

  lemma {:induction false} KeepPiece(file: Bytes, from: nat, cap: nat, window: nat, lines: seq<RangeLine>,
                  at: nat, pending: Bytes, end: nat, piece: Bytes)
    requires Scanned(file, from, cap, window, lines, at, pending)
    requires IsAt(file, at, piece) && end == at + |piece| && |piece| <= window && NoBreak(file, at, end)
    ensures Scanned(file, from, cap, window, lines, end, Keep(cap, pending, piece))
  {
  }

  lemma TakeRow(file: Bytes, from: nat, cap: nat, window: nat, lines: seq<RangeLine>,
                at: nat, pending: Bytes, piece: Bytes)
    requires Scanned(file, from, cap, window, lines, at, pending)
    requires IsAt(file, at, piece) && |piece| <= window && NoBreak(file, at, at + |piece|)
    requires at + |piece| < |file| && file[at + |piece|] == NEWLINE
    ensures var end := at + |piece| + 1;
            Scanned(file, from, cap, window, lines + [RangeLine(Keep(cap, pending, piece), end)], end, [])
  {
    var end := at + |piece| + 1;
    KeepPiece(file, from, cap, window, lines, at, pending, end - 1, piece);
    var read := RangeLine(Keep(cap, pending, piece), end);
    assert (lines + [read])[..|lines|] == lines;
  }

  lemma HeldInRow(file: Bytes, cap: nat, window: nat, at: nat, end: nat, kept: Bytes)
    requires HeldAt(file, cap, window, at, end, kept)
    ensures Held(file[at..end], kept, cap, window)
  {
    assert file[at..end][..|kept|] == kept;
  }

  /** One more row, whose text ends at `textEnd`, read after the rows up to `at`. */
  lemma AppendRow(file: Bytes, from: nat, cap: nat, window: nat, lines: seq<RangeLine>,
                  at: nat, textEnd: nat, read: RangeLine)
    requires from <= at < read.endOffset <= |file| && IsCut(file, from, read.endOffset, at)
    requires ReadsAs(file, from, at, cap, window, lines)
    requires NoBreak(file, at, read.endOffset - 1) && HeldAt(file, cap, window, at, textEnd, read.line)
    requires textEnd == if file[read.endOffset - 1] == NEWLINE then read.endOffset - 1 else read.endOffset
    ensures ReadsAs(file, from, read.endOffset, cap, window, lines + [read])
  {
    RowsSnoc(file, from, at, read.endOffset);
    HeldInRow(file, cap, window, at, textEnd, read.line);
  }

  /** What was taken row by row is a reading of the range up to the last row's end. */
  lemma {:induction false} ScannedReads(file: Bytes, from: nat, cap: nat, window: nat, lines: seq<RangeLine>)
    requires from <= |file|
    requires TookRows(file, from, cap, window, lines)
    ensures from <= ResumeOffset(from, lines) <= |file|
    ensures lines == [] || file[ResumeOffset(from, lines) - 1] == NEWLINE
    ensures ReadsAs(file, from, ResumeOffset(from, lines), cap, window, lines)
    decreases |lines|
  {
    if lines != [] {
      var n := |lines| - 1;
      ScannedReads(file, from, cap, window, lines[..n]);
      var at, end := ResumeOffset(from, lines[..n]), lines[n].endOffset;
      AppendRow(file, from, cap, window, lines[..n], at, end - 1, lines[n]);
      assert lines[..n] + [lines[n]] == lines;
    }
  }

  lemma PartOfView(file: Bytes, at: nat, view: Bytes, cut: nat, end: nat)
    requires IsAt(file, at, view) && cut <= end <= |view|
    ensures IsAt(file, at + cut, view[cut..end])
  {
  }

  lemma RowInView(file: Bytes, from: nat, cap: nat, window: nat, lines: seq<RangeLine>,
                  scanned: nat, view: Bytes, cut: nat, i: nat, pending: Bytes)
    requires cut <= i < |view| <= window && IsAt(file, scanned, view) && view[i] == NEWLINE
    requires Scanned(file, from, cap, window, lines, scanned + cut, pending) && NoBreak(file, scanned + cut, scanned + i)
    ensures var end := scanned + i + 1;
            Scanned(file, from, cap, window, lines + [RangeLine(Keep(cap, pending, view[cut..i]), end)], end, [])
  {
    PartOfView(file, scanned, view, cut, i);
    TakeRow(file, from, cap, window, lines, scanned + cut, pending, view[cut..i]);
  }

  lemma RestOfView(file: Bytes, from: nat, cap: nat, window: nat, lines: seq<RangeLine>,
                   scanned: nat, view: Bytes, cut: nat, pending: Bytes)
    requires cut <= |view| <= window && IsAt(file, scanned, view)
    requires Scanned(file, from, cap, window, lines, scanned + cut, pending) && NoBreak(file, scanned + cut, scanned + |view|)
    ensures Scanned(file, from, cap, window, lines, scanned + |view|, Keep(cap, pending, view[cut..]))
  {
    PartOfView(file, scanned, view, cut, |view|);
    KeepPiece(file, from, cap, window, lines, scanned + cut, pending, scanned + |view|, view[cut..]);
  }

  /** The rows that end inside one window; `pending` carries over to the next. */
  method ScanWindow(view: Bytes, scanned: nat, cap: nat, lines0: seq<RangeLine>, lineStart0: nat, pending0: Bytes,
                    ghost file: Bytes, ghost from: nat, ghost window: nat)
    returns (lines: seq<RangeLine>, lineStart: nat, pending: Bytes)
    requires Scanned(file, from, cap, window, lines0, scanned, pending0) && lineStart0 == ResumeOffset(from, lines0)
    requires |view| <= window && IsAt(file, scanned, view)
    ensures Scanned(file, from, cap, window, lines, scanned + |view|, pending) && lineStart == ResumeOffset(from, lines)
  {
    lines, lineStart, pending := lines0, lineStart0, pending0;
    var cut: nat := 0;
    for i := 0 to |view|
      invariant cut <= i
      invariant Scanned(file, from, cap, window, lines, scanned + cut, pending)
      invariant lineStart == ResumeOffset(from, lines)
      invariant NoBreak(file, scanned + cut, scanned + i)
    {
      assert view[i] == file[scanned + i];
      if view[i] == NEWLINE {
        var endOffset := scanned + i + 1;
        RowInView(file, from, cap, window, lines, scanned, view, cut, i, pending);
        pending := Keep(cap, pending, view[cut..i]);
        lines, pending := lines + [RangeLine(pending, endOffset)], [];
        lineStart := endOffset;
        cut := i + 1;
      }
    }
    var rest := view[cut..];
    RestOfView(file, from, cap, window, lines, scanned, view, cut, pending);
    pending := Keep(cap, pending, rest);
  }

  /** The end of the range: what is pending is its last row, unless it ended on a newline. */
  lemma LastRow(file: Bytes, from: nat, until: nat, cap: nat, window: nat, lines: seq<RangeLine>, pending: Bytes)
    requires from < until <= |file| && Scanned(file, from, cap, window, lines, until, pending)
    ensures var rows := if ResumeOffset(from, lines) < until then lines + [RangeLine(pending, until)] else lines;
            ReadsAs(file, from, until, cap, window, rows)
  {
    ScannedReads(file, from, cap, window, lines);
    var lineStart := ResumeOffset(from, lines);
    if lineStart < until { AppendRow(file, from, cap, window, lines, lineStart, until, RangeLine(pending, until)); }
  }

  method ReadRangeLines(file: Bytes, from: nat, until: nat, windows: seq<Bytes>, ghost window: nat)
    returns (lines: seq<RangeLine>)
    requires from < until ==> until <= |file| && IsStream(file, from, until, window, windows)
    ensures from >= until ==> lines == []
    ensures from < until ==> ReadsAs(file, from, until, 1_048_576, window, lines)
  {
    lines := [];
    if from >= until { return; }

    var pending: Bytes := [];
    var lineStart: nat := from;
    var scanned: nat := from;

    for k := 0 to |windows|
      invariant scanned == from + |Flatten(windows[..k])| && scanned <= until
      invariant Scanned(file, from, MAX_ROW_CHARS, window, lines, scanned, pending)
      invariant lineStart == ResumeOffset(from, lines)
    {
      WindowAt(file, from, until, windows, k);
      lines, lineStart, pending := ScanWindow(windows[k], scanned, MAX_ROW_CHARS, lines, lineStart, pending, file, from, window);
      scanned := scanned + |windows[k]|;
    }

    assert windows[..|windows|] == windows;
    LastRow(file, from, until, MAX_ROW_CHARS, window, lines, pending);
    if lineStart < until {
      lines := lines + [RangeLine(pending, until)];
    }
  }
}
