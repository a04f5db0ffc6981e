/** Rows against the bytes they came from: nothing of a file is lost between them. */
module RowTexts {
  import opened FileRows

  /** The rows' texts, a newline after each. */
  function Rejoined(rows: seq<RangeLine>): Bytes {
    if rows == [] then [] else rows[0].line + ['\n'] + Rejoined(rows[1..])
  }

  /** Rows are what newlines separate: none holds one, and put together again they are the
      bytes of the range, but for the newline its last row may lack. */
  lemma {:induction false} RowsRejoin(file: Bytes, from: nat, until: nat)
    requires from <= until <= |file|
    ensures forall row :: row in Rows(file, from, until) ==> '\n' !in row.line
    ensures Rejoined(Rows(file, from, until))
         == file[from..until] + if from == until || file[until - 1] == '\n' then [] else ['\n']
    decreases until - from
  {
    RowsHoldNoNewline(file, from, until);
    if from < until {
      var end := RowEnd(file, from, until);
      RowsRejoin(file, end, until);
      RejoinedFirst(RangeLine(RowText(file, from, end), end), Rows(file, end, until));
      FirstRejoins(file, from, end, until);
    }
  }

  lemma {:induction false} RowsHoldNoNewline(file: Bytes, from: nat, until: nat)
    requires from <= until <= |file|
    ensures forall row :: row in Rows(file, from, until) ==> '\n' !in row.line
    decreases until - from
  {
    if from < until {
      var end := RowEnd(file, from, until);
      RowsHoldNoNewline(file, end, until);
      var text := RowText(file, from, end);
      forall k | 0 <= k < |text| ensures text[k] != '\n' { assert text[k] == file[from + k]; }
    }
  }

  lemma RejoinedFirst(first: RangeLine, rest: seq<RangeLine>)
    ensures Rejoined([first] + rest) == first.line + ['\n'] + Rejoined(rest)
  {
    assert ([first] + rest)[1..] == rest;
  }

  /** The first row's bytes, and the range's without them. */
  lemma FirstRejoins(file: Bytes, from: nat, end: nat, until: nat)
    requires from < end <= until <= |file| && (end == until || file[end - 1] == NEWLINE)
    ensures var last := if end == until || file[until - 1] == '\n' then [] else ['\n'];
            RowText(file, from, end) + ['\n'] + (file[end..until] + last)
            == file[from..until] + if file[until - 1] == '\n' then [] else ['\n']
  {
    if file[end - 1] == '\n' {
      assert RowText(file, from, end) + ['\n'] == file[from..end];
      assert file[from..end] + file[end..until] == file[from..until];
    } else {
      assert RowText(file, from, end) == file[from..until] && file[end..until] == [];
    }
  }
}
