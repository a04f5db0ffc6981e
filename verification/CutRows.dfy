/** What becomes of a row too long to hold: the reader keeps the front of it, and the parser
    judges what was kept. */
module CutRows {
  import opened Decimal
  import opened FileRows
  import opened ReadRangeLines
  import opened VendorCsv

  /** The commas that end a field, quoted ones not counted. */
  function Separators(text: string, quoted: bool): nat
    decreases |text|
  {
    if text == [] then 0
    else if quoted then
      if text[0] != QUOTE then Separators(text[1..], true)
      else if 1 < |text| && text[1] == QUOTE then Separators(text[2..], true)
      else Separators(text[1..], false)
    else if text[0] == QUOTE then Separators(text[1..], true)
    else (if text[0] == COMMA then 1 else 0) + Separators(text[1..], false)
  }

  lemma {:induction false} ColumnsCounted(text: string, field: string, quoted: bool)
    ensures |Split(text, field, quoted)| == 1 + Separators(text, quoted)
    decreases |text|
  {
    if text == [] {
    } else if quoted {
      if text[0] != QUOTE { ColumnsCounted(text[1..], field + [text[0]], true); }
      else if 1 < |text| && text[1] == QUOTE { ColumnsCounted(text[2..], field + [QUOTE], true); }
      else { ColumnsCounted(text[1..], field, false); }
    } else if text[0] == QUOTE {
      ColumnsCounted(text[1..], field, true);
    } else if text[0] == COMMA {
      ColumnsCounted(text[1..], "", false);
    } else {
      ColumnsCounted(text[1..], field + [text[0]], false);
    }
  }

  /** Cutting a row never adds a column. */
  lemma {:induction false} CutNoMoreColumns(kept: string, row: string, quoted: bool)
    requires kept <= row
    ensures Separators(kept, quoted) <= Separators(row, quoted)
    decreases |kept|
  {
    if kept != [] {
      if quoted && kept[0] == QUOTE && 1 < |row| && row[1] == QUOTE {
        if 1 < |kept| { CutNoMoreColumns(kept[2..], row[2..], true); }
      } else {
        CutNoMoreColumns(kept[1..], row[1..], if kept[0] == QUOTE then !quoted else quoted);
      }
    }
  }

  /** A row is refused on its column count exactly when it does not have four separators,
      and the text of a row that was cut is judged by the separators it kept: a row of too
      few columns is always refused, and one of too many only if a fifth separator was kept. */
  lemma RefusedOnColumnsIff(row: string, kept: string, cap: nat, window: nat)
    requires Held(row, kept, cap, window)
    ensures ParseVendorRow(kept) == Rejected(Columns) <==> Separators(WithoutCr(kept), false) != 4
    ensures Separators(row, false) < 4 ==> ParseVendorRow(kept) == Rejected(Columns)
  {
    ColumnsCounted(WithoutCr(kept), "", false);
    CutNoMoreColumns(WithoutCr(kept), row, false);
  }

  /** One more character adds at most the separator it is. */
  lemma {:induction false} OneMore(text: string, c: char, quoted: bool)
    ensures Separators(text, quoted) <= Separators(text + [c], quoted) <= Separators(text, quoted) + 1
    ensures c != COMMA ==> Separators(text + [c], quoted) == Separators(text, quoted)
    decreases |text|
  {
    var more := text + [c];
    if text == [] {
      assert more[1..] == [];
    } else {
      assert more[1..] == text[1..] + [c];
      if quoted && text[0] == QUOTE && 1 < |text| && text[1] == QUOTE {
        assert more[2..] == text[2..] + [c];
        OneMore(text[2..], c, true);
      } else if quoted && text[0] == QUOTE && |text| == 1 {
        assert text[1..] == [] && |more| == 2;
        assert more[1..][1..] == [] && more[2..] == [];
      } else {
        OneMore(text[1..], c, if text[0] == QUOTE then !quoted else quoted);
      }
    }
  }

  lemma CrIsNoSeparator(text: string)
    ensures Separators(WithoutCr(text), false) == Separators(text, false)
  {
    if text != [] && text[|text| - 1] == '\r' {
      assert text == WithoutCr(text) + ['\r'];
      OneMore(WithoutCr(text), '\r', false);
    }
  }

  /** The least and the most of a row a reader may hold. */
  function Least(row: string, cap: nat): nat {
    if |row| <= cap then |row| else cap
  }

  function Most(row: string, cap: nat, window: nat): nat
    requires 0 < window
  {
    if |row| <= cap || |row| < cap + window then |row| else cap + window - 1
  }

  /** Between too few separators and too many there is a prefix with just enough. */
  lemma {:induction false} SomewhereFour(row: string, least: nat, most: nat) returns (n: nat)
    requires least <= most <= |row| && Separators(row[..least], false) <= 4 <= Separators(row[..most], false)
    ensures least <= n <= most && Separators(row[..n], false) == 4
    decreases most - least
  {
    if Separators(row[..least], false) == 4 {
      n := least;
    } else {
      assert least < most;
      OneMore(row[..least], row[least], false);
      assert row[..least] + [row[least]] == row[..least + 1];
      n := SomewhereFour(row, least + 1, most);
    }
  }

  lemma HeldColumns(row: string, kept: string, cap: nat, window: nat)
    requires Held(row, kept, cap, window) && 0 < window
    ensures Least(row, cap) <= |kept| <= Most(row, cap, window) && kept == row[..|kept|]
    ensures Separators(row[..Least(row, cap)], false) <= Separators(kept, false) <= Separators(row[..Most(row, cap, window)], false)
  {
    CutNoMoreColumns(row[..Least(row, cap)], kept, false);
    CutNoMoreColumns(kept, row[..Most(row, cap, window)], false);
  }

  /** A row is refused on its columns however it is cut, by any fall of the windows, exactly
      when the most that may be held of it has too few separators or the least already has
      too many. For a row within the cap both are the row. */
  lemma RefusedHoweverCutIff(row: string, cap: nat, window: nat)
    requires 0 < window
    ensures (forall kept :: Held(row, kept, cap, window) ==> ParseVendorRow(kept) == Rejected(Columns))
            <==> Separators(row[..Most(row, cap, window)], false) < 4 || 4 < Separators(row[..Least(row, cap)], false)
  {
    var least, most := Least(row, cap), Most(row, cap, window);
    if Separators(row[..most], false) < 4 || 4 < Separators(row[..least], false) {
      forall kept | Held(row, kept, cap, window) ensures ParseVendorRow(kept) == Rejected(Columns) {
        HeldColumns(row, kept, cap, window);
        CrIsNoSeparator(kept);
        RefusedOnColumnsIff(row, kept, cap, window);
      }
    } else {
      var n := SomewhereFour(row, least, most);
      assert Held(row, row[..n], cap, window);
      CrIsNoSeparator(row[..n]);
      RefusedOnColumnsIff(row, row[..n], cap, window);
    }
  }

  function Spaces(n: nat): (s: string)
    ensures |s| == n && forall k :: 0 <= k < n ==> s[k] == ' '
  {
    seq(n, _ => ' ')
  }

  lemma {:induction false} TrimSpaces(text: string, n: nat)
    requires IsTrimmed(text)
    ensures Trim(text + Spaces(n)) == text
    decreases n
  {
    if n == 0 {
      assert text + Spaces(0) == text;
    } else {
      var padded := text + Spaces(n);
      assert padded[..|padded| - 1] == text + Spaces(n - 1);
      TrimSpaces(text, n - 1);
    }
  }

  /** The row's fields, the last one padded. */
  function Padded(row: VendorRow, n: nat): (fields: seq<string>)
    ensures |fields| == 5
  {
    FieldsOf(row)[4 := Render(row.stockQuantity) + Spaces(n)]
  }

  lemma BareStock(row: VendorRow, n: nat)
    ensures IsBare(Padded(row, n)[4]) && IsTrimmed(Render(row.stockQuantity))
  {
    var digits := Render(row.stockQuantity);
    assert forall k :: 0 <= k < |digits| ==> IsDigit(digits[k]);
    assert IsDigit(digits[0]) && IsDigit(digits[|digits| - 1]);
    var stock := digits + Spaces(n);
    forall k | 0 <= k < |stock| ensures stock[k] != QUOTE && stock[k] != COMMA {
      if k < |digits| { assert IsDigit(stock[k]); }
    }
  }

  lemma {:induction false} TrimAllAt(fields: seq<string>, k: nat)
    requires k < |fields|
    ensures TrimAll(fields)[k] == Trim(fields[k])
    decreases |fields|
  {
    if k > 0 { TrimAllAt(fields[1..], k - 1); }
  }

  lemma TrimPadded(row: VendorRow, n: nat)
    requires IsTrimmed(row.sku) && IsTrimmed(row.name) && IsTrimmed(row.category)
    ensures TrimAll(Padded(row, n)) == FieldsOf(row)
  {
    forall k | 0 <= k < 5 ensures TrimAll(Padded(row, n))[k] == FieldsOf(row)[k] {
      TrimAllAt(Padded(row, n), k);
      TrimField(row, n, k);
    }
  }

  lemma TrimField(row: VendorRow, n: nat, k: nat)
    requires IsTrimmed(row.sku) && IsTrimmed(row.name) && IsTrimmed(row.category) && k < 5
    ensures Trim(Padded(row, n)[k]) == FieldsOf(row)[k]
  {
    if k == 3 {
      PriceTextReads(row.vendorPriceCents);
      TrimsToItself(PriceText(row.vendorPriceCents));
    } else if k == 4 {
      BareStock(row, n);
      TrimSpaces(Render(row.stockQuantity), n);
    } else {
      TrimsToItself(FieldsOf(row)[k]);
    }
  }

  lemma TrimsToItself(text: string)
    requires IsTrimmed(text)
    ensures Trim(text) == text
  {
  }

  /** A row followed by any number of spaces reads as the row. */
  lemma PaddedReads(row: VendorRow, quotes: seq<bool>, n: nat)
    requires IsTrimmed(row.sku) && IsTrimmed(row.name) && IsTrimmed(row.category)
    requires Printable(FieldsOf(row), quotes) && !quotes[4]
    ensures ParseVendorRow(Print(Padded(row, n), quotes)) == Expected(row)
  {
    var padded := Padded(row, n);
    var line := Print(padded, quotes);
    BareStock(row, n);
    PrintEnds(padded, quotes);
    SplitPrint(padded, quotes);
    TrimPadded(row, n);
    ParsePrinted(row);
  }

  lemma {:induction false} PrintPads(fields: seq<string>, quotes: seq<bool>, more: string)
    requires 0 < |fields| == |quotes| && !quotes[|quotes| - 1]
    ensures Print(fields[|fields| - 1 := fields[|fields| - 1] + more], quotes) == Print(fields, quotes) + more
    decreases |fields|
  {
    var padded := fields[|fields| - 1 := fields[|fields| - 1] + more];
    if |fields| > 1 {
      PrintPads(fields[1..], quotes[1..], more);
      assert padded[1..] == fields[1..][|fields| - 2 := fields[|fields| - 1] + more];
      var first := PrintField(fields[0], quotes[0]) + [COMMA];
      assert first + Print(fields[1..], quotes[1..]) + more == first + (Print(fields[1..], quotes[1..]) + more);
    }
  }

  lemma {:induction false} PrintSnoc(fields: seq<string>, quotes: seq<bool>, last: string)
    requires 0 < |fields| == |quotes|
    ensures Print(fields + [last], quotes + [false]) == Print(fields, quotes) + ([COMMA] + last)
    decreases |fields|
  {
    var first := PrintField(fields[0], quotes[0]);
    var rest, flags := (fields + [last])[1..], (quotes + [false])[1..];
    assert Print(fields + [last], quotes + [false]) == first + [COMMA] + Print(rest, flags);
    assert rest == fields[1..] + [last] && flags == quotes[1..] + [false];
    if |fields| == 1 {
      assert rest == [last] && Print(rest, flags) == last;
      Regroup(first, [COMMA], last);
    } else {
      PrintSnoc(fields[1..], quotes[1..], last);
      Regroup(first + [COMMA], Print(fields[1..], quotes[1..]), [COMMA] + last);
    }
  }

  /** A row, then spaces past the cap, then one column too many. */
  function Overlong(row: VendorRow, quotes: seq<bool>): string
    requires |quotes| == 5
  {
    Print(Padded(row, MAX_ROW_CHARS), quotes) + ",x"
  }

  lemma OverlongIsRefused(row: VendorRow, quotes: seq<bool>)
    requires Printable(FieldsOf(row), quotes) && !quotes[4]
    ensures ParseVendorRow(Overlong(row, quotes)) == Rejected(Columns)
  {
    var padded := Padded(row, MAX_ROW_CHARS);
    BareStock(row, MAX_ROW_CHARS);
    PrintSnoc(padded, quotes, "x");
    SplitPrint(padded + ["x"], quotes + [false]);
    assert Overlong(row, quotes) == Print(padded + ["x"], quotes + [false]);
  }

  /** The front of it, up to the cap, is the row and spaces only. */
  lemma OverlongFront(row: VendorRow, quotes: seq<bool>, n: nat)
    requires Printable(FieldsOf(row), quotes) && !quotes[4]
    requires |Print(FieldsOf(row), quotes)| + n == MAX_ROW_CHARS
    ensures |Overlong(row, quotes)| > MAX_ROW_CHARS
    ensures Overlong(row, quotes)[..MAX_ROW_CHARS] == Print(Padded(row, n), quotes)
  {
    var line := Print(FieldsOf(row), quotes);
    PrintPads(FieldsOf(row), quotes, Spaces(MAX_ROW_CHARS));
    PrintPads(FieldsOf(row), quotes, Spaces(n));
    Front(line, Spaces(MAX_ROW_CHARS), ",x", Spaces(n));
  }

  lemma Front(line: string, more: string, end: string, part: string)
    requires |part| <= |more| && part == more[..|part|]
    ensures (line + more + end)[..|line| + |part|] == line + part
  {
  }

  /** A cut row is not always refused: held to the cap, in one window or many, this row of six
      columns reads as the five good ones it starts with, and is stored as them. */
  lemma CutRowIsStored(row: VendorRow, quotes: seq<bool>, window: nat)
    requires IsTrimmed(row.sku) && IsTrimmed(row.name) && IsTrimmed(row.category)
    requires Printable(FieldsOf(row), quotes) && !quotes[4]
    requires |Print(FieldsOf(row), quotes)| <= MAX_ROW_CHARS && 0 < window
    ensures |Overlong(row, quotes)| > MAX_ROW_CHARS && ParseVendorRow(Overlong(row, quotes)) == Rejected(Columns)
    ensures var kept := Overlong(row, quotes)[..MAX_ROW_CHARS];
            Held(Overlong(row, quotes), kept, MAX_ROW_CHARS, window) && ParseVendorRow(kept) == Expected(row)
  {
    OverlongIsRefused(row, quotes);
    var n: nat := MAX_ROW_CHARS - |Print(FieldsOf(row), quotes)|;
    OverlongFront(row, quotes, n);
    PaddedReads(row, quotes, n);
  }
}
