/** One line of a vendor file as text: splitting it into fields, and the fields into a row. */
module VendorCsv {
  import opened Decimal
  import opened FileRows

  const QUOTE := '"'
  const COMMA := ','

  /** The fields left to read, given the text read into the current one. */
  function Split(rest: string, field: string, quoted: bool): (fields: seq<string>)
    ensures fields != []
    decreases |rest|
  {
    if rest == [] then [field]
    else if quoted then
      if rest[0] != QUOTE then Split(rest[1..], field + [rest[0]], true)
      else if 1 < |rest| && rest[1] == QUOTE then Split(rest[2..], field + [QUOTE], true)
      else Split(rest[1..], field, false)
    else if rest[0] == QUOTE then Split(rest[1..], field, true)
    else if rest[0] == COMMA then [field] + Split(rest[1..], "", false)
    else Split(rest[1..], field + [rest[0]], false)
  }

  method SplitCsvLine(line: string) returns (fields: seq<string>)
    ensures fields == Split(line, "", false)
  {
    fields := [];
    var field := "";
    var quoted := false;
    var i := 0;
    assert line[0..] == line;
    while i < |line|
      invariant 0 <= i <= |line|
      invariant fields + Split(line[i..], field, quoted) == Split(line, "", false)
    {
      var c := line[i];
      assert line[i..][0] == c && line[i..][1..] == line[i + 1..];
      if quoted {
        if c != QUOTE {
          field := field + [c];
        } else if i + 1 < |line| && line[i + 1] == QUOTE {
          assert line[i..][2..] == line[i + 2..];
          field := field + [QUOTE];
          i := i + 1;
        } else {
          quoted := false;
        }
      } else if c == QUOTE {
        quoted := true;
      } else if c == COMMA {
        assert fields + ([field] + Split(line[i + 1..], "", false))
            == fields + [field] + Split(line[i + 1..], "", false);
        fields := fields + [field];
        field := "";
      } else {
        field := field + [c];
      }
      i := i + 1;
    }
    fields := fields + [field];
  }

  /** Each quote of the text doubled. */
  function Escaped(text: string): string {
    if text == [] then [] else EscapedChar(text[0]) + Escaped(text[1..])
  }

  function EscapedChar(c: char): string {
    if c == QUOTE then [QUOTE, QUOTE] else [c]
  }

  /** A field that may be printed without quotes, section 2 of RFC 4180. */
  predicate IsBare(field: string) { QUOTE !in field && COMMA !in field }

  function PrintField(field: string, quote: bool): string {
    if quote then [QUOTE] + Escaped(field) + [QUOTE] else field
  }

  /** One line of a file: the fields, each quoted or not, with commas between them. */
  function Print(fields: seq<string>, quotes: seq<bool>): string
    requires 0 < |fields| == |quotes|
  {
    var first := PrintField(fields[0], quotes[0]);
    if |fields| == 1 then first else first + [COMMA] + Print(fields[1..], quotes[1..])
  }

  predicate Printable(fields: seq<string>, quotes: seq<bool>) {
    0 < |fields| == |quotes| && forall k :: 0 <= k < |fields| ==> quotes[k] || IsBare(fields[k])
  }

  lemma {:induction false} SplitQuoted(text: string, rest: string, field: string)
    requires rest == [] || rest[0] != QUOTE
    ensures Split(Escaped(text) + ([QUOTE] + rest), field, true) == Split(rest, field + text, false)
    decreases |text|
  {
    var end := [QUOTE] + rest;
    if text == [] {
      QuotedEnd(rest, field);
      assert Escaped(text) + end == end && field + text == field;
    } else {
      var c, more := text[0], text[1..];
      QuotedChar(c, Escaped(more) + end, field);
      SplitQuoted(more, rest, field + [c]);
      Regroup(EscapedChar(c), Escaped(more), end);
      Regroup(field, [c], more);
      assert [c] + more == text;
    }
  }

  lemma QuotedEnd(rest: string, field: string)
    requires rest == [] || rest[0] != QUOTE
    ensures Split([QUOTE] + rest, field, true) == Split(rest, field, false)
  {
    assert ([QUOTE] + rest)[1..] == rest;
  }

  /** Inside quotes, a character as it was escaped is read as itself. */
  lemma QuotedChar(c: char, tail: string, field: string)
    ensures Split(EscapedChar(c) + tail, field, true) == Split(tail, field + [c], true)
  {
    var line := EscapedChar(c) + tail;
    if c == QUOTE {
      assert line[2..] == tail;
    } else {
      assert line[1..] == tail;
    }
  }

  lemma {:induction false} SplitBare(text: string, rest: string, field: string)
    requires IsBare(text)
    ensures Split(text + rest, field, false) == Split(rest, field + text, false)
    decreases |text|
  {
    if text == [] {
      assert text + rest == rest && field + text == field;
    } else {
      SplitBare(text[1..], rest, field + [text[0]]);
      assert field + [text[0]] + text[1..] == field + text;
      assert (text + rest)[1..] == text[1..] + rest;
    }
  }

  lemma SplitField(field: string, quote: bool, rest: string)
    requires (quote || IsBare(field)) && (rest == [] || rest[0] != QUOTE)
    ensures Split(PrintField(field, quote) + rest, "", false) == Split(rest, field, false)
  {
    assert "" + field == field;
    if quote {
      SplitQuoted(field, rest, "");
      assert (PrintField(field, quote) + rest)[1..] == Escaped(field) + ([QUOTE] + rest);
    } else {
      SplitBare(field, rest, "");
    }
  }

  /** Splitting undoes printing, for every list of fields and every choice of quoting. */
  lemma {:induction false} SplitPrint(fields: seq<string>, quotes: seq<bool>)
    requires Printable(fields, quotes)
    ensures Split(Print(fields, quotes), "", false) == fields
    decreases |fields|
  {
    var first := PrintField(fields[0], quotes[0]);
    if |fields| == 1 {
      SplitField(fields[0], quotes[0], []);
      assert first + [] == first;
    } else {
      SplitPrint(fields[1..], quotes[1..]);
      var rest := [COMMA] + Print(fields[1..], quotes[1..]);
      SplitField(fields[0], quotes[0], rest);
      assert rest[1..] == Print(fields[1..], quotes[1..]);
      assert first + rest == Print(fields, quotes);
    }
  }

  /** The fields with a comma after each but the last. */
  function Commas(fields: seq<string>): string {
    if fields == [] then [] else if |fields| == 1 then fields[0] else fields[0] + [','] + Commas(fields[1..])
  }

  /** A line without quotes splits at its commas, and at nothing else. */
  lemma {:induction false} PlainSplits(rest: string, field: string)
    requires '"' !in rest && ',' !in field
    ensures Commas(Split(rest, field, false)) == field + rest
    ensures forall k :: 0 <= k < |Split(rest, field, false)| ==> ',' !in Split(rest, field, false)[k]
    decreases |rest|
  {
    if rest == [] {
      assert field + rest == field;
    } else if rest[0] == ',' {
      PlainSplits(rest[1..], "");
      var more := Split(rest[1..], "", false);
      assert ([field] + more)[1..] == more && "" + rest[1..] == rest[1..];
      assert field + [','] + rest[1..] == field + rest;
    } else {
      PlainSplits(rest[1..], field + [rest[0]]);
      assert field + [rest[0]] + rest[1..] == field + rest;
    }
  }

  /** What `String.prototype.trim` strips. */
  predicate IsSpace(c: char) {
    '\t' <= c <= '\r' || c == ' ' || c == '\U{A0}' || c == '\U{1680}' || '\U{2000}' <= c <= '\U{200A}'
    || c == '\U{2028}' || c == '\U{2029}' || c == '\U{202F}' || c == '\U{205F}' || c == '\U{3000}' || c == '\U{FEFF}'
  }

  function Trim(s: string): string {
    if s == [] then []
    else if IsSpace(s[0]) then Trim(s[1..])
    else if IsSpace(s[|s| - 1]) then Trim(s[..|s| - 1])
    else s
  }

  predicate IsTrimmed(s: string) { s != [] && !IsSpace(s[0]) && !IsSpace(s[|s| - 1]) }

  function TrimAll(fields: seq<string>): (trimmed: seq<string>)
    ensures |trimmed| == |fields|
  {
    if fields == [] then [] else [Trim(fields[0])] + TrimAll(fields[1..])
  }

  lemma {:induction false} TrimAllTrimmed(fields: seq<string>)
    requires forall k :: 0 <= k < |fields| ==> IsTrimmed(fields[k])
    ensures TrimAll(fields) == fields
  {
    if fields != [] { TrimAllTrimmed(fields[1..]); }
  }

  /** What is trimmed off is space, and what is left neither starts nor ends with any. */
  lemma {:induction false} TrimTakesSpace(s: string) returns (left: string, right: string)
    ensures s == left + Trim(s) + right
    ensures forall k :: 0 <= k < |left| ==> IsSpace(left[k])
    ensures forall k :: 0 <= k < |right| ==> IsSpace(right[k])
    ensures Trim(s) == [] || IsTrimmed(Trim(s))
    decreases |s|
  {
    left, right := [], [];
    if s == [] {
    } else if IsSpace(s[0]) {
      left, right := TrimTakesSpace(s[1..]);
      left := [s[0]] + left;
      assert s == [s[0]] + s[1..];
    } else if IsSpace(s[|s| - 1]) {
      left, right := TrimTakesSpace(s[..|s| - 1]);
      right := right + [s[|s| - 1]];
      assert s == s[..|s| - 1] + [s[|s| - 1]];
    }
  }

  datatype VendorRow = VendorRow(sku: string, name: string, category: string, vendorPriceCents: nat, stockQuantity: nat)
  datatype Rejection = Columns | EmptySku | EmptyName | EmptyCategory | BadPrice | BadStock | PriceRange | StockRange
  datatype RowOutcome = Ok(row: VendorRow) | Rejected(reason: Rejection)

  /** How many digits the text starts with. */
  function Span(s: string): (n: nat)
    ensures n <= |s| && (forall k :: 0 <= k < n ==> IsDigit(s[k])) && (n == |s| || !IsDigit(s[n]))
  {
    if s == [] || !IsDigit(s[0]) then 0 else 1 + Span(s[1..])
  }

  /** Digits, and at most two fraction places. */
  predicate IsPrice(s: string) {
    var n := Span(s);
    0 < n && (n == |s| || (s[n] == '.' && IsDigits(s[n + 1..]) && |s| - n <= 3))
  }

  function Fraction(price: string): string
    requires IsPrice(price)
  {
    var n := Span(price);
    if n == |price| then [] else price[n + 1..]
  }

  function PadEnd2(fraction: string): string {
    if |fraction| == 0 then "00" else if |fraction| == 1 then fraction + "0" else fraction
  }

  /** The digits read as one integer, the fraction padded to two places. */
  function CentsOf(price: string): nat
    requires IsPrice(price)
  {
    Value(price[..Span(price)] + PadEnd2(Fraction(price)))
  }

  function FieldRejection(fields: seq<string>): (rejection: seq<Rejection>)
    requires |fields| == 5
    ensures rejection == [] ==> IsPrice(fields[3]) && IsDigits(fields[4])
  {
    if fields[0] == "" then [EmptySku]
    else if fields[1] == "" then [EmptyName]
    else if fields[2] == "" then [EmptyCategory]
    else if !IsPrice(fields[3]) then [BadPrice]
    else if !IsDigits(fields[4]) then [BadStock]
    else []
  }

  function WithoutCr(line: string): string {
    if line != [] && line[|line| - 1] == '\r' then line[..|line| - 1] else line
  }

  function ParseFields(fields: seq<string>): RowOutcome
    requires |fields| == 5
  {
    var rejection := FieldRejection(fields);
    if rejection != [] then Rejected(rejection[0])
    else
      var cents := CentsOf(fields[3]);
      var stock := Value(fields[4]);
      if cents > MAX_SAFE_INTEGER then Rejected(PriceRange)
      else if stock > MAX_SAFE_INTEGER then Rejected(StockRange)
      else Ok(VendorRow(fields[0], fields[1], fields[2], cents, stock))
  }

  function ParseVendorRow(line: string): RowOutcome {
    var raw := Split(WithoutCr(line), "", false);
    if |raw| != 5 then Rejected(Columns) else ParseFields(TrimAll(raw))
  }

  /** The decimal number a price text denotes. */
  function Denoted(price: string): real
    requires IsPrice(price)
  {
    var n := Span(price);
    var fraction := Fraction(price);
    Value(price[..n]) as real
    + (if |fraction| == 0 then 0.0
       else if |fraction| == 1 then Value(fraction) as real / 10.0
       else Value(fraction) as real / 100.0)
  }

  /** Which texts are prices, and of how many cents: digits, or digits, a point and one or two
      digits more. */
  lemma PricesRead(whole: string, fraction: string)
    requires IsDigits(whole) && forall k :: 0 <= k < |fraction| ==> IsDigit(fraction[k])
    ensures IsPrice(whole) && CentsOf(whole) == 100 * Value(whole)
    ensures IsPrice(whole + "." + fraction) <==> 1 <= |fraction| <= 2
    ensures |fraction| == 1 ==> CentsOf(whole + "." + fraction) == 100 * Value(whole) + 10 * Value(fraction)
    ensures |fraction| == 2 ==> CentsOf(whole + "." + fraction) == 100 * Value(whole) + Value(fraction)
  {
    WholePrice(whole);
    PointPrice(whole, fraction);
    if 1 <= |fraction| <= 2 { PointCents(whole, fraction); }
  }

  lemma WholePrice(whole: string)
    requires IsDigits(whole)
    ensures IsPrice(whole) && CentsOf(whole) == 100 * Value(whole)
  {
    SpanOf(whole, []);
    assert whole + [] == whole && whole[..|whole|] == whole;
    ValueSnoc2(whole, '0', '0');
  }

  lemma PointPrice(whole: string, fraction: string)
    requires IsDigits(whole) && forall k :: 0 <= k < |fraction| ==> IsDigit(fraction[k])
    ensures var price := whole + "." + fraction;
            && Span(price) == |whole| && price[..|whole|] == whole && price[|whole| + 1..] == fraction
            && (IsPrice(price) <==> 1 <= |fraction| <= 2)
  {
    SpanOf(whole, "." + fraction);
    var price := whole + "." + fraction;
    assert price == whole + ("." + fraction);
    assert price[|whole| + 1..] == fraction && price[..|whole|] == whole;
  }

  lemma CentsFrom(whole: string, fraction: string)
    requires IsDigits(whole) && IsDigits(fraction) && |fraction| <= 2
    ensures IsPrice(whole + "." + fraction)
    ensures IsDigits(whole + PadEnd2(fraction)) && CentsOf(whole + "." + fraction) == Value(whole + PadEnd2(fraction))
  {
    PointPrice(whole, fraction);
  }

  lemma PadsTo(fraction: string)
    requires IsDigits(fraction) && |fraction| <= 2
    ensures |PadEnd2(fraction)| == 2 && IsDigits(PadEnd2(fraction))
    ensures 10 * DigitValue(PadEnd2(fraction)[0]) + DigitValue(PadEnd2(fraction)[1])
         == (if |fraction| == 1 then 10 else 1) * Value(fraction)
  {
    assert fraction[..0] == [] && Value(fraction[..0]) == 0;
    if |fraction| == 2 { assert fraction[..1][..0] == []; }
  }

  lemma PointCents(whole: string, fraction: string)
    requires IsDigits(whole) && IsDigits(fraction) && |fraction| <= 2
    ensures IsPrice(whole + "." + fraction)
    ensures CentsOf(whole + "." + fraction) == 100 * Value(whole) + (if |fraction| == 1 then 10 else 1) * Value(fraction)
  {
    CentsFrom(whole, fraction);
    PadsTo(fraction);
    TwoMoreDigits(whole, PadEnd2(fraction));
  }

  lemma TwoMoreDigits(whole: string, two: string)
    requires (forall k :: 0 <= k < |whole| ==> IsDigit(whole[k])) && |two| == 2 && IsDigits(two)
    ensures IsDigits(whole + two) && Value(whole + two) == 100 * Value(whole) + (10 * DigitValue(two[0]) + DigitValue(two[1]))
  {
    ValueSnoc2(whole, two[0], two[1]);
    assert two == [two[0], two[1]];
  }

  lemma {:induction false} SpanOf(digits: string, rest: string)
    requires (forall k :: 0 <= k < |digits| ==> IsDigit(digits[k])) && (rest == [] || !IsDigit(rest[0]))
    ensures Span(digits + rest) == |digits|
  {
    if digits == [] {
      assert digits + rest == rest;
    } else {
      SpanOf(digits[1..], rest);
      assert (digits + rest)[1..] == digits[1..] + rest;
    }
  }

  predicate HasPoint(price: string, whole: string, fraction: string) {
    price == whole + "." + fraction && IsDigits(whole) && IsDigits(fraction) && |fraction| <= 2
  }

  /** ... and only those. */
  lemma PriceIsDecimal(price: string)
    requires IsPrice(price)
    ensures IsDigits(price) || exists whole, fraction :: HasPoint(price, whole, fraction)
  {
    var n := Span(price);
    if n < |price| {
      assert price == price[..n] + "." + price[n + 1..];
      assert HasPoint(price, price[..n], price[n + 1..]);
    }
  }

  /** A row of five trimmed fields is accepted exactly when the first three say something, the
      fourth is a price and the fifth a whole number, both exact; and its values are theirs.
      Otherwise the first thing wrong with it is the reason. */
  lemma AcceptedIff(fields: seq<string>)
    requires |fields| == 5
    ensures ParseFields(fields).Ok? <==>
              && fields[0] != "" && fields[1] != "" && fields[2] != ""
              && IsPrice(fields[3]) && CentsOf(fields[3]) <= 9_007_199_254_740_991
              && IsDigits(fields[4]) && Value(fields[4]) <= 9_007_199_254_740_991
    ensures ParseFields(fields) == Rejected(EmptySku) <==> fields[0] == ""
    ensures ParseFields(fields) == Rejected(EmptyName) <==> fields[0] != "" && fields[1] == ""
    ensures ParseFields(fields) == Rejected(EmptyCategory) <==> fields[0] != "" && fields[1] != "" && fields[2] == ""
    ensures ParseFields(fields) in {Rejected(BadPrice), Rejected(BadStock), Rejected(PriceRange), Rejected(StockRange)} ==>
              (ParseFields(fields) == Rejected(BadPrice) <==> !IsPrice(fields[3]))
              && (ParseFields(fields) == Rejected(BadStock) <==> IsPrice(fields[3]) && !IsDigits(fields[4]))
              && (ParseFields(fields) == Rejected(PriceRange) ==> CentsOf(fields[3]) > 9_007_199_254_740_991)
    ensures ParseFields(fields).Ok? ==>
              ParseFields(fields).row == VendorRow(fields[0], fields[1], fields[2], CentsOf(fields[3]), Value(fields[4]))
  {
  }

  lemma ValueSnoc2(s: string, c: char, d: char)
    requires (forall k :: 0 <= k < |s| ==> IsDigit(s[k])) && IsDigit(c) && IsDigit(d)
    ensures Value(s + [c, d]) == 100 * Value(s) + 10 * DigitValue(c) + DigitValue(d)
  {
    ValueSnoc(s, c);
    ValueSnoc(s + [c], d);
    assert s + [c] + [d] == s + [c, d];
  }

  /** Cents are exact: a hundred times the decimal, for every price the contract allows. */
  lemma CentsExact(price: string)
    requires IsPrice(price)
    ensures CentsOf(price) as real == 100.0 * Denoted(price)
  {
    var n := Span(price);
    var whole, fraction := price[..n], Fraction(price);
    var padded := PadEnd2(fraction);
    ValueSnoc2(whole, padded[0], padded[1]);
    assert whole + padded == whole + [padded[0], padded[1]];
    if |fraction| == 1 {
      assert fraction == [] + [fraction[0]];
      ValueSnoc([], fraction[0]);
    } else if |fraction| == 2 {
      assert fraction == [] + [fraction[0], fraction[1]];
      ValueSnoc2([], fraction[0], fraction[1]);
    }
  }

  /** A price in cents as the vendor would write it. */
  function PriceText(cents: nat): string {
    Render(cents / 100) + "." + [Digit(cents / 10 % 10), Digit(cents % 10)]
  }

  lemma {:induction false} SpanStops(s: string, n: nat)
    requires n <= |s| && (forall k :: 0 <= k < n ==> IsDigit(s[k])) && (n == |s| || !IsDigit(s[n]))
    ensures Span(s) == n
  {
  }

  lemma TwoPlaces(whole: string, c: char, d: char)
    requires IsDigits(whole) && IsDigit(c) && IsDigit(d)
    ensures var text := whole + "." + [c, d];
            IsPrice(text) && CentsOf(text) == 100 * Value(whole) + 10 * DigitValue(c) + DigitValue(d)
  {
    var text := whole + "." + [c, d];
    SpanStops(text, |whole|);
    assert text[|whole| + 1..] == [c, d];
    assert text[..|whole|] == whole;
    ValueSnoc2(whole, c, d);
  }

  lemma PriceTextReads(cents: nat)
    ensures IsPrice(PriceText(cents)) && CentsOf(PriceText(cents)) == cents
    ensures IsTrimmed(PriceText(cents))
  {
    var whole, c, d := Render(cents / 100), Digit(cents / 10 % 10), Digit(cents % 10);
    TwoPlaces(whole, c, d);
    ValueOfRender(cents / 100);
    Places(cents);
    assert IsDigit(whole[0]) && PriceText(cents)[0] == whole[0];
  }

  lemma Places(cents: nat)
    ensures 100 * (cents / 100) + 10 * (cents / 10 % 10) + cents % 10 == cents
  {
    var tens := cents / 10;
    var whole := tens / 10;
    assert cents == 10 * tens + cents % 10 && tens == 10 * whole + tens % 10;
    Hundreds(cents, whole);
  }

  lemma Hundreds(cents: nat, whole: nat)
    requires 100 * whole <= cents < 100 * whole + 100
    ensures cents / 100 == whole
  {
  }

  function FieldsOf(row: VendorRow): seq<string> {
    [row.sku, row.name, row.category, PriceText(row.vendorPriceCents), Render(row.stockQuantity)]
  }

  lemma {:induction false} PrintEnds(fields: seq<string>, quotes: seq<bool>)
    requires Printable(fields, quotes)
    requires fields[|fields| - 1] != [] && fields[|fields| - 1][|fields[|fields| - 1]| - 1] != '\r'
    ensures Print(fields, quotes) != [] && Print(fields, quotes)[|Print(fields, quotes)| - 1] != '\r'
    decreases |fields|
  {
    if 1 < |fields| {
      PrintEnds(fields[1..], quotes[1..]);
    }
  }

  function Expected(row: VendorRow): RowOutcome {
    if row.vendorPriceCents > MAX_SAFE_INTEGER then Rejected(PriceRange)
    else if row.stockQuantity > MAX_SAFE_INTEGER then Rejected(StockRange)
    else Ok(row)
  }

  lemma ParsePrinted(row: VendorRow)
    requires IsTrimmed(row.sku) && IsTrimmed(row.name) && IsTrimmed(row.category)
    ensures ParseFields(FieldsOf(row)) == Expected(row)
  {
    PriceTextReads(row.vendorPriceCents);
    ValueOfRender(row.stockQuantity);
  }

  lemma ParseSplit(line: string, row: VendorRow)
    requires IsTrimmed(row.sku) && IsTrimmed(row.name) && IsTrimmed(row.category)
    requires Split(WithoutCr(line), "", false) == FieldsOf(row)
    ensures ParseVendorRow(line) == Expected(row)
  {
    ParsePrinted(row);
    PriceTextReads(row.vendorPriceCents);
    TrimAllTrimmed(FieldsOf(row));
  }

  /** Parsing undoes printing: a trimmed row, however it is quoted and whichever line
      ending it has, comes back exactly, and is rejected exactly when a number in it is
      above the largest safe integer. */
  lemma {:induction false} RowRoundTrip(row: VendorRow, quotes: seq<bool>)
    requires IsTrimmed(row.sku) && IsTrimmed(row.name) && IsTrimmed(row.category)
    requires Printable(FieldsOf(row), quotes)
    ensures var line := Print(FieldsOf(row), quotes);
            ParseVendorRow(line) == ParseVendorRow(line + "\r") == Expected(row)
  {
    var line := Print(FieldsOf(row), quotes);
    PrintEnds(FieldsOf(row), quotes);
    SplitPrint(FieldsOf(row), quotes);
    ParseSplit(line, row);
    assert WithoutCr(line + "\r") == line == WithoutCr(line);
    ParseSplit(line + "\r", row);
  }
}
