/** What the rows of a byte range are, independently of how anybody reads them.

    A file is a sequence of characters, one per byte. A row ends just past its
    newline; the last row of a range may end without one, where the range does. */
module FileRows {
  type Bytes = string

  const NEWLINE := '\n'

  /** A row's text, and the offset of the first byte that is not its own. */
  datatype RangeLine = RangeLine(line: Bytes, endOffset: nat)

  /** The offset just past the row that starts at `at`. */
  function RowEnd(file: Bytes, at: nat, until: nat): (end: nat)
    requires at < until <= |file|
    ensures at < end <= until
    ensures end == until || file[end - 1] == NEWLINE
    ensures forall k :: at <= k < end - 1 ==> file[k] != NEWLINE
    decreases until - at
  {
    if file[at] == NEWLINE || at + 1 == until then at + 1 else RowEnd(file, at + 1, until)
  }

  /** The bytes of the row `[at, end)` without its terminator. */
  function RowText(file: Bytes, at: nat, end: nat): Bytes
    requires at < end <= |file|
  {
    if file[end - 1] == NEWLINE then file[at..end - 1] else file[at..end]
  }

  /** The rows of `[from, to)`, in file order. */
  function Rows(file: Bytes, from: nat, until: nat): seq<RangeLine>
    requires from <= until <= |file|
    decreases until - from
  {
    if from == until then []
    else
      var end := RowEnd(file, from, until);
      [RangeLine(RowText(file, from, end), end)] + Rows(file, end, until)
  }

  /** An offset a row of the range may start or end at. */
  predicate IsCut(file: Bytes, from: nat, until: nat, at: nat)
    requires until <= |file|
  {
    from <= at <= until && (at == from || at == until || file[at - 1] == NEWLINE)
  }

  lemma {:induction false} RowEndUnique(file: Bytes, at: nat, until: nat, end: nat)
    requires at < end <= until <= |file|
    requires end == until || file[end - 1] == NEWLINE
    requires forall k :: at <= k < end - 1 ==> file[k] != NEWLINE
    ensures RowEnd(file, at, until) == end
    decreases until - at
  {
    if at + 1 < end {
      RowEndUnique(file, at + 1, until, end);
    }
  }

  /** Where the row ends does not depend on where the range ends, if that is past it. */
  lemma RowEndWithin(file: Bytes, at: nat, mid: nat, until: nat)
    requires at < mid <= until <= |file|
    requires IsCut(file, at, until, mid)
    ensures RowEnd(file, at, mid) == RowEnd(file, at, until)
  {
    RowEndUnique(file, at, until, RowEnd(file, at, mid));
  }

  lemma Regroup<T>(a: seq<T>, b: seq<T>, c: seq<T>)
    ensures a + b + c == a + (b + c)
  {
  }

  /** Ranges that meet at a row boundary read as their union does. */
  lemma {:induction false} RowsConcat(file: Bytes, from: nat, mid: nat, until: nat)
    requires from <= mid <= until <= |file|
    requires IsCut(file, from, until, mid)
    ensures Rows(file, from, mid) + Rows(file, mid, until) == Rows(file, from, until)
    decreases mid - from
  {
    if from < mid {
      RowEndWithin(file, from, mid, until);
      var end := RowEnd(file, from, mid);
      RowsConcat(file, end, mid, until);
      Regroup([RangeLine(RowText(file, from, end), end)], Rows(file, end, mid), Rows(file, mid, until));
    }
  }

  /** Extending a range that ends on a boundary by one row appends that row. */
  lemma RowsSnoc(file: Bytes, from: nat, at: nat, end: nat)
    requires from <= at < end <= |file|
    requires IsCut(file, from, end, at)
    requires forall k :: at <= k < end - 1 ==> file[k] != NEWLINE
    ensures Rows(file, from, end) == Rows(file, from, at) + [RangeLine(RowText(file, at, end), end)]
  {
    RowsConcat(file, from, at, end);
    RowEndUnique(file, at, end, end);
    assert Rows(file, end, end) == [];
  }

  /** Where row `k` starts: where the row before it ended. */
  function RowStart(file: Bytes, from: nat, until: nat, k: nat): nat
    requires from <= until <= |file| && k <= |Rows(file, from, until)|
  {
    if k == 0 then from else Rows(file, from, until)[k - 1].endOffset
  }

  /** Every row end is a boundary, a restart there yields exactly the rows that are
      left, and the rows tile the range: each starts where the one before it ended. */
  lemma {:induction false} ResumeAt(file: Bytes, from: nat, until: nat, k: nat)
    requires from <= until <= |file| && k <= |Rows(file, from, until)|
    ensures IsCut(file, from, until, RowStart(file, from, until, k))
    ensures Rows(file, RowStart(file, from, until, k), until) == Rows(file, from, until)[k..]
    ensures k < |Rows(file, from, until)| ==>
              var at := RowStart(file, from, until, k);
              var row := Rows(file, from, until)[k];
              && at < until && row.endOffset == RowEnd(file, at, until)
              && row.line == RowText(file, at, row.endOffset)
    ensures k == |Rows(file, from, until)| ==> RowStart(file, from, until, k) == until
    decreases k
  {
    if 0 < k {
      var end := RowEnd(file, from, until);
      ResumeAt(file, end, until, k - 1);
      assert RowStart(file, end, until, k - 1) == RowStart(file, from, until, k);
    }
  }

  /** What a reader that bounds its memory keeps of one row: the whole row when it is
      within `cap`, and otherwise a prefix that overshoots the cap by less than a window. */
  predicate Held(row: Bytes, kept: Bytes, cap: nat, window: nat) {
    && kept <= row
    && (|row| <= cap ==> kept == row)
    && (|row| > cap ==> cap <= |kept| < cap + window)
  }

  /** `lines` is a faithful reading of `[from, to)`: every row once, in order, with its
      true end offset, and its text kept within the bound. */
  ghost predicate ReadsAs(file: Bytes, from: nat, until: nat, cap: nat, window: nat, lines: seq<RangeLine>)
    requires from <= until <= |file|
  {
    var rows := Rows(file, from, until);
    && |lines| == |rows|
    && forall k :: 0 <= k < |lines| ==>
         lines[k].endOffset == rows[k].endOffset && Held(rows[k].line, lines[k].line, cap, window)
  }

  /** Readings of ranges that meet at a boundary concatenate to a reading of the union. */
  lemma ReadsConcat(file: Bytes, from: nat, mid: nat, until: nat, cap: nat, window: nat,
                    left: seq<RangeLine>, right: seq<RangeLine>)
    requires from <= mid <= until <= |file| && IsCut(file, from, until, mid)
    requires ReadsAs(file, from, mid, cap, window, left)
    requires ReadsAs(file, mid, until, cap, window, right)
    ensures ReadsAs(file, from, until, cap, window, left + right)
  {
    RowsConcat(file, from, mid, until);
  }
}
