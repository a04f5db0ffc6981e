/** A vendor price taken through the active ingestion rules, a rule at a time, each step
    floored to whole cents and refused outside the exact range. */
module BasePrice {
  import opened Decimal
  import opened VendorCsv
  import opened ProductStore

  const BPS := 10_000

  datatype Event = AdjustCents(value: int) | AdjustPercentBps(value: int)
  {
    /** A percentage takes off the whole price at most. */
    predicate WellFormed() { AdjustPercentBps? ==> -10_000 <= value }
  }

  datatype Facts = Facts(category: string, vendorPriceCents: int, stockQuantity: int)
  datatype RuleType = Ingestion | Promotional

  /** A row of the rules table; its condition is any predicate on the facts. */
  datatype RuleRow = RuleRow(id: nat, kind: RuleType, priority: int, active: bool, updatedAt: nat,
                             fires: Facts -> bool, event: Event)

  predicate IsActive(row: RuleRow) { row.active && row.kind == Ingestion }

  /** Highest priority first, and between equals the lowest id. */
  predicate Before(some: RuleRow, other: RuleRow) {
    some.priority > other.priority || (some.priority == other.priority && some.id <= other.id)
  }

  ghost predicate IsSorted(rows: seq<RuleRow>) {
    forall j, k :: 0 <= j < k < |rows| ==> Before(rows[j], rows[k])
  }

  function Active(rows: seq<RuleRow>): seq<RuleRow> {
    if rows == [] then []
    else (if IsActive(rows[0]) then [rows[0]] else []) + Active(rows[1..])
  }

  /** `row` put where it belongs in a sorted list. */
  function Placed(row: RuleRow, rows: seq<RuleRow>): seq<RuleRow> {
    if rows == [] || Before(row, rows[0]) then [row] + rows else [rows[0]] + Placed(row, rows[1..])
  }

  function Sorted(rows: seq<RuleRow>): seq<RuleRow> {
    if rows == [] then [] else Placed(rows[0], Sorted(rows[1..]))
  }

  lemma {:induction false} PlacedSorts(row: RuleRow, rows: seq<RuleRow>)
    requires IsSorted(rows)
    ensures IsSorted(Placed(row, rows)) && multiset(Placed(row, rows)) == multiset{row} + multiset(rows)
  {
    if rows == [] {
    } else if Before(row, rows[0]) {
      assert [row] + rows == [row] + rows;
    } else {
      PlacedSorts(row, rows[1..]);
      var rest := Placed(row, rows[1..]);
      assert rows == [rows[0]] + rows[1..];
      forall k | 0 <= k < |rest| ensures Before(rows[0], rest[k]) {
        assert rest[k] in multiset(rest);
        assert rest[k] == row || rest[k] in rows[1..];
      }
    }
  }

  lemma {:induction false} SortedIsSorted(rows: seq<RuleRow>)
    ensures IsSorted(Sorted(rows)) && multiset(Sorted(rows)) == multiset(rows)
  {
    if rows != [] {
      SortedIsSorted(rows[1..]);
      PlacedSorts(rows[0], Sorted(rows[1..]));
      assert rows == [rows[0]] + rows[1..];
    }
  }

  ghost predicate DistinctIds(rows: seq<RuleRow>) {
    forall j, k :: 0 <= j < k < |rows| ==> rows[j].id != rows[k].id
  }

  /** A sorted list of rules with distinct ids is the only sorted list of those rules, so
      however the rows are read and whichever sort is used, the chain is the same. */
  lemma {:induction false} SortedOnce(some: seq<RuleRow>, other: seq<RuleRow>)
    requires IsSorted(some) && IsSorted(other) && multiset(some) == multiset(other) && DistinctIds(some)
    ensures some == other
    decreases |some|
  {
    assert |multiset(some)| == |some| && |multiset(other)| == |other|;
    if some != [] {
      assert some[0] in multiset(some);
      assert some[0] in other;
      assert other[0] in multiset(other);
      assert other[0] in some;
      HeadsAgree(some, other);
      TailOf(some);
      TailOf(other);
      SortedOnce(some[1..], other[1..]);
    }
  }

  lemma TailOf(rows: seq<RuleRow>)
    requires rows != []
    ensures multiset(rows[1..]) == multiset(rows) - multiset{rows[0]}
  {
    assert rows == [rows[0]] + rows[1..];
  }

  lemma HeadsAgree(some: seq<RuleRow>, other: seq<RuleRow>)
    requires IsSorted(some) && IsSorted(other) && DistinctIds(some) && some != [] && other != []
    requires some[0] in other && other[0] in some
    ensures some[0] == other[0]
  {
    var j :| 0 <= j < |other| && other[j] == some[0];
    var k :| 0 <= k < |some| && some[k] == other[0];
    assert Before(other[0], some[0]);
    assert Before(some[0], other[0]);
  }

  lemma {:induction false} ActiveOf(rows: seq<RuleRow>)
    ensures forall row :: multiset(Active(rows))[row] == if IsActive(row) then multiset(rows)[row] else 0
    ensures forall row :: row in Active(rows) ==> row in rows
  {
    if rows != [] {
      ActiveOf(rows[1..]);
      assert rows == [rows[0]] + rows[1..];
    }
  }

  lemma {:induction false} ActiveDistinct(rows: seq<RuleRow>)
    requires DistinctIds(rows)
    ensures DistinctIds(Active(rows))
  {
    if rows != [] {
      var rest := rows[1..];
      ActiveDistinct(rest);
      ActiveOf(rest);
      forall k | 0 <= k < |Active(rest)| ensures Active(rest)[k].id != rows[0].id {
        var row := Active(rest)[k];
        assert row in Active(rest);
        var i :| 0 <= i < |rest| && rest[i] == row;
        assert rows[i + 1] == rest[i];
      }
    }
  }

  lemma ActivePermutes(some: seq<RuleRow>, other: seq<RuleRow>)
    requires multiset(some) == multiset(other)
    ensures multiset(Active(some)) == multiset(Active(other))
  {
    ActiveOf(some);
    ActiveOf(other);
    forall row ensures multiset(Active(some))[row] == multiset(Active(other))[row] {}
  }

  lemma PermutedDistinct(some: seq<RuleRow>, other: seq<RuleRow>)
    requires multiset(some) == multiset(other) && DistinctIds(some)
    ensures DistinctIds(other)
  {
    forall j, k | 0 <= j < k < |other| ensures other[j].id != other[k].id {
      assert other[j] in multiset(some) && other[k] in multiset(some);
      var a :| 0 <= a < |some| && some[a] == other[j];
      var b :| 0 <= b < |some| && some[b] == other[k];
      if a == b {
        TwiceCounts(other, j, k);
        OnceCounts(some, a);
      }
    }
  }

  lemma TwiceCounts(rows: seq<RuleRow>, j: nat, k: nat)
    requires j < k < |rows| && rows[j] == rows[k]
    ensures multiset(rows)[rows[j]] >= 2
  {
    assert rows == rows[..j] + [rows[j]] + rows[j + 1..k] + [rows[k]] + rows[k + 1..];
  }

  lemma OnceCounts(rows: seq<RuleRow>, a: nat)
    requires a < |rows| && DistinctIds(rows)
    ensures multiset(rows)[rows[a]] == 1
  {
    var left, right := rows[..a], rows[a + 1..];
    assert rows == left + [rows[a]] + right;
    assert rows[a] !in left && rows[a] !in right by {
      forall k | 0 <= k < |right| ensures right[k] != rows[a] { assert right[k] == rows[a + 1 + k]; }
    }
  }

  /** The chain of rules a set of rows compiles to. */
  function Chain(rows: seq<RuleRow>): seq<RuleRow> {
    Sorted(Active(rows))
  }

  /** The order the rows are read in decides nothing, as long as ids are distinct. */
  lemma ChainIgnoresOrder(some: seq<RuleRow>, other: seq<RuleRow>)
    requires multiset(some) == multiset(other) && DistinctIds(some)
    ensures Chain(some) == Chain(other)
  {
    ActivePermutes(some, other);
    SortedIsSorted(Active(some));
    SortedIsSorted(Active(other));
    ActiveDistinct(some);
    PermutedDistinct(Active(some), Chain(some));
    SortedOnce(Chain(some), Chain(other));
  }

  /** The rules that fire on the facts, in the order of the chain. */
  function Fired(chain: seq<RuleRow>, facts: Facts): seq<RuleRow> {
    if chain == [] then []
    else (if chain[0].fires(facts) then [chain[0]] else []) + Fired(chain[1..], facts)
  }

  /** Highest priority first, and within a priority the lowest id first; no rule twice. */
  ghost predicate InRuleOrder(rows: seq<RuleRow>) {
    forall j, k :: 0 <= j < k < |rows| ==>
      rows[j].priority > rows[k].priority || (rows[j].priority == rows[k].priority && rows[j].id < rows[k].id)
  }

  /** The chain is the active ingestion rules, each once, in rule order. */
  lemma ChainLists(rows: seq<RuleRow>)
    requires forall j, k :: 0 <= j < k < |rows| ==> rows[j].id != rows[k].id
    ensures InRuleOrder(Chain(rows))
    ensures forall row :: row in Chain(rows) <==> row in rows && row.active && row.kind == Ingestion
  {
    var chain := Chain(rows);
    ActiveOf(rows);
    ActiveDistinct(rows);
    SortedIsSorted(Active(rows));
    PermutedDistinct(Active(rows), chain);
    forall j, k | 0 <= j < k < |chain|
      ensures chain[j].priority > chain[k].priority || (chain[j].priority == chain[k].priority && chain[j].id < chain[k].id)
    {
      assert Before(chain[j], chain[k]) && chain[j].id != chain[k].id;
    }
    forall row ensures row in chain <==> row in rows && row.active && row.kind == Ingestion {
      assert row in chain <==> multiset(Active(rows))[row] > 0;
      assert row in rows <==> multiset(rows)[row] > 0;
    }
  }

  lemma {:induction false} FiredInOrder(chain: seq<RuleRow>, facts: Facts)
    requires InRuleOrder(chain)
    ensures InRuleOrder(Fired(chain, facts))
    ensures forall row :: row in Fired(chain, facts) <==> row in chain && row.fires(facts)
  {
    if chain != [] {
      var rest := Fired(chain[1..], facts);
      FiredInOrder(chain[1..], facts);
      forall k | 0 <= k < |rest|
        ensures chain[0].priority > rest[k].priority || (chain[0].priority == rest[k].priority && chain[0].id < rest[k].id)
      {
        assert rest[k] in chain[1..];
      }
    }
  }

  /** The rules a row is priced by are the active ingestion rules that fire on it, each once,
      the highest priority first and then the lowest id. */
  lemma RulesRunInOrder(rows: seq<RuleRow>, facts: Facts)
    requires forall j, k :: 0 <= j < k < |rows| ==> rows[j].id != rows[k].id
    ensures InRuleOrder(Fired(Chain(rows), facts))
    ensures forall row :: row in Fired(Chain(rows), facts) <==> row in rows && row.active && row.kind == Ingestion && row.fires(facts)
  {
    ChainLists(rows);
    FiredInOrder(Chain(rows), facts);
  }

  /** A rule the engine reports, with the priority it was given: its rank from the end. */
  datatype Result = Result(priority: nat, rule: RuleRow)

  ghost predicate IsRanked(chain: seq<RuleRow>, facts: Facts, r: Result) {
    exists k :: 0 <= k < |chain| && chain[k].fires(facts) && r == Result(|chain| - k, chain[k])
  }

  ghost predicate Reports(chain: seq<RuleRow>, facts: Facts, results: seq<Result>) {
    && (forall j, k :: 0 <= j < k < |results| ==> results[j].priority > results[k].priority)
    && (forall j :: 0 <= j < |results| ==> IsRanked(chain, facts, results[j]))
    && forall k :: 0 <= k < |chain| && chain[k].fires(facts) ==> Result(|chain| - k, chain[k]) in results
  }

  function RulesOf(results: seq<Result>): seq<RuleRow> {
    if results == [] then [] else [results[0].rule] + RulesOf(results[1..])
  }

  /** Given ranks, which no two rules share, an engine that reports the highest priority
      first has no choice: it reports the chain. */
  lemma {:induction false} RanksFixTheOrder(chain: seq<RuleRow>, facts: Facts, results: seq<Result>)
    requires Reports(chain, facts, results)
    ensures RulesOf(results) == Fired(chain, facts)
  {
    if chain != [] {
      var rest := chain[1..];
      if chain[0].fires(facts) {
        var first := Result(|chain|, chain[0]);
        assert Result(|chain| - 0, chain[0]) in results;
        var j :| 0 <= j < |results| && results[j] == first;
        assert IsRanked(chain, facts, results[0]);
        assert j == 0;
        ReportsRest(chain, facts, results, results[1..]);
        RanksFixTheOrder(rest, facts, results[1..]);
      } else {
        ReportsRest(chain, facts, results, results);
        RanksFixTheOrder(rest, facts, results);
      }
    }
  }

  lemma RankedInRest(chain: seq<RuleRow>, facts: Facts, r: Result)
    requires chain != [] && IsRanked(chain, facts, r) && (chain[0].fires(facts) ==> r.priority < |chain|)
    ensures IsRanked(chain[1..], facts, r)
  {
    var k :| 0 <= k < |chain| && chain[k].fires(facts) && r == Result(|chain| - k, chain[k]);
    assert k != 0;
    assert chain[1..][k - 1] == chain[k];
  }

  lemma ReportsRest(chain: seq<RuleRow>, facts: Facts, results: seq<Result>, tail: seq<Result>)
    requires chain != [] && Reports(chain, facts, results)
    requires if chain[0].fires(facts)
             then results != [] && results[0] == Result(|chain|, chain[0]) && tail == results[1..]
             else tail == results
    ensures Reports(chain[1..], facts, tail)
  {
    var rest := chain[1..];
    forall j | 0 <= j < |tail| ensures IsRanked(rest, facts, tail[j]) {
      assert tail[j] in results;
      RankedInRest(chain, facts, tail[j]);
    }
    forall k | 0 <= k < |rest| && rest[k].fires(facts) ensures Result(|rest| - k, rest[k]) in tail {
      assert chain[k + 1] == rest[k];
      var r := Result(|chain| - (k + 1), chain[k + 1]);
      assert r in results;
      var i :| 0 <= i < |results| && results[i] == r;
      if chain[0].fires(facts) { assert i != 0 && tail[i - 1] == r; }
    }
  }

  /** One step, floored; `/` floors whatever the sign, and the source never divides a
      negative amount. */
  function Apply(cents: int, event: Event): int {
    match event
    case AdjustCents(value) => cents + value
    case AdjustPercentBps(value) => cents * (BPS + value) / BPS
  }

  /** The price after the first `k` rules. */
  function After(cents: int, results: seq<RuleRow>, k: nat): int
    requires k <= |results|
  {
    if k == 0 then cents else Apply(After(cents, results, k - 1), results[k - 1].event)
  }

  predicate InRange(cents: int) { 0 <= cents <= MAX_SAFE_INTEGER }

  datatype Fault = OfRow | OfRules
  datatype PricingOutcome = Priced(basePriceCents: nat, version: nat) | Unpriced(fault: Fault, rejectedBy: Option<nat>)

  /** What a row must be before any rule sees it. */
  predicate FactsOk(row: Facts) {
    Trim(row.category) != [] && InRange(row.vendorPriceCents) && InRange(row.stockQuantity)
  }

  /** What the rules make of an exact price: it is accepted exactly when it stays in range
      after every rule, and otherwise the first rule that takes it out is named. */
  ghost predicate Explains(outcome: PricingOutcome, cents: int, results: seq<RuleRow>, version: nat) {
    match outcome
    case Priced(basePriceCents, v) =>
      && v == version && basePriceCents == After(cents, results, |results|)
      && forall k :: 0 <= k <= |results| ==> InRange(After(cents, results, k))
    case Unpriced(fault, rejectedBy) =>
      fault == OfRow &&
      exists k :: 0 < k <= |results| && !InRange(After(cents, results, k)) && rejectedBy == Some(results[k - 1].id)
        && forall j :: 0 <= j < k ==> InRange(After(cents, results, j))
  }

  function NewestVersion(rows: seq<RuleRow>): (version: nat)
    ensures forall k :: 0 <= k < |rows| ==> rows[k].updatedAt <= version
    ensures rows != [] ==> exists k :: 0 <= k < |rows| && rows[k].updatedAt == version
  {
    if rows == [] then 0
    else if rows[0].updatedAt > NewestVersion(rows[1..]) then rows[0].updatedAt else NewestVersion(rows[1..])
  }

  /** Rules that compile: at least one active, and none with a malformed adjustment. */
  predicate Compiles(rows: seq<RuleRow>) {
    Active(rows) != [] && forall k :: 0 <= k < |rows| ==> IsActive(rows[k]) ==> rows[k].event.WellFormed()
  }

  /** Rules compile exactly when some ingestion rule is active, and no active one takes off more
      than the whole price. */
  lemma CompilesIff(rows: seq<RuleRow>)
    ensures Compiles(rows) <==>
              && (exists row :: row in rows && row.active && row.kind == Ingestion)
              && forall row :: row in rows && row.active && row.kind == Ingestion && row.event.AdjustPercentBps? ==>
                   -10_000 <= row.event.value
  {
    ActiveOf(rows);
    if Active(rows) != [] { assert multiset(Active(rows))[Active(rows)[0]] > 0; }
    forall row | row in rows && row.active && row.kind == Ingestion ensures Active(rows) != [] {
      assert multiset(Active(rows))[row] > 0;
    }
  }

  /** An outcome a calculator built from these rows may give on these facts. */
  ghost predicate Calculates(rows: seq<RuleRow>, row: Facts, outcome: PricingOutcome) {
    Explains(outcome, row.vendorPriceCents, Fired(Chain(rows), row.(category := Trim(row.category))), NewestVersion(Active(rows)))
  }

  /** A row is priced exactly when no step takes it below nothing or above an exact amount. */
  lemma PricedIffInRange(rows: seq<RuleRow>, row: Facts, outcome: PricingOutcome)
    requires Calculates(rows, row, outcome)
    ensures var results := Fired(Chain(rows), row.(category := Trim(row.category)));
            outcome.Priced? <==>
              forall k :: 0 <= k <= |results| ==> 0 <= After(row.vendorPriceCents, results, k) <= 9_007_199_254_740_991
  {
    var results := Fired(Chain(rows), row.(category := Trim(row.category)));
    if outcome.Unpriced? {
      var k :| 0 < k <= |results| && !InRange(After(row.vendorPriceCents, results, k));
      assert !(0 <= After(row.vendorPriceCents, results, k) <= 9_007_199_254_740_991);
    } else {
      forall k | 0 <= k <= |results| ensures 0 <= After(row.vendorPriceCents, results, k) <= 9_007_199_254_740_991 {
        assert InRange(After(row.vendorPriceCents, results, k));
      }
    }
  }

  class BasePriceCalculator {
    ghost const rows: seq<RuleRow>
    const chain: seq<RuleRow>
    const version: nat
    var spent: bool

    /** The calculator is the one these rows compile to. */
    ghost predicate Valid() {
      Compiles(rows) && chain == Chain(rows) && version == NewestVersion(Active(rows))
    }

    constructor (rows: seq<RuleRow>)
      requires Compiles(rows)
      ensures Valid() && this.rows == rows && !spent
    {
      this.rows := rows;
      chain, version, spent := Chain(rows), NewestVersion(Active(rows)), false;
    }

    /** A row whose facts are unusable is the row's fault and never reaches the engine; an
        engine that fails once is at fault for every row after it. */
    method Calculate(row: Facts, engineFails: bool) returns (outcome: PricingOutcome)
      requires Valid()
      modifies this`spent
      ensures spent == (old(spent) || (FactsOk(row) && engineFails))
      ensures (Trim(row.category) == [] || !(0 <= row.vendorPriceCents <= 9_007_199_254_740_991)
               || !(0 <= row.stockQuantity <= 9_007_199_254_740_991)) ==> outcome == Unpriced(OfRow, None)
      ensures FactsOk(row) && spent ==> outcome == Unpriced(OfRules, None)
      ensures FactsOk(row) && !spent ==> Calculates(rows, row, outcome)
    {
      if !FactsOk(row) { return Unpriced(OfRow, None); }
      if spent || engineFails {
        spent := true;
        return Unpriced(OfRules, None);
      }
      var results := Fired(chain, row.(category := Trim(row.category)));
      var cents := row.vendorPriceCents;
      for k := 0 to |results|
        invariant cents == After(row.vendorPriceCents, results, k)
        invariant forall j :: 0 <= j <= k ==> InRange(After(row.vendorPriceCents, results, j))
      {
        var next := Apply(cents, results[k].event);
        assert next == After(row.vendorPriceCents, results, k + 1);
        if !InRange(next) { return Unpriced(OfRow, Some(results[k].id)); }
        cents := next;
      }
      outcome := Priced(cents, version);
    }
  }

  /** The factor a rule multiplies the price by. */
  function Factor(event: Event): real {
    match event
    case AdjustCents(_) => 1.0
    case AdjustPercentBps(value) => (10_000 + value) as real / 10_000.0
  }

  function ExactStep(price: real, event: Event): real {
    if event.AdjustCents? then price + event.value as real else price * Factor(event)
  }

  /** The price without any rounding. */
  function ExactAfter(price: real, results: seq<RuleRow>): real
    decreases |results|
  {
    if results == [] then price
    else ExactAfter(ExactStep(price, results[0].event), results[1..])
  }

  /** The same chain with every step floored. */
  function FlooredAfter(cents: int, results: seq<RuleRow>): int
    decreases |results|
  {
    if results == [] then cents else FlooredAfter(Apply(cents, results[0].event), results[1..])
  }

  function LaterFactors(results: seq<RuleRow>): real {
    if results == [] then 1.0 else Factor(results[0].event) * LaterFactors(results[1..])
  }

  /** For every percentage step, the product of the factors of the steps after it, added up. */
  function Slack(results: seq<RuleRow>): real {
    if results == [] then 0.0
    else (if results[0].event.AdjustPercentBps? then LaterFactors(results[1..]) else 0.0) + Slack(results[1..])
  }

  predicate AllWellFormed(results: seq<RuleRow>) {
    forall k :: 0 <= k < |results| ==> results[k].event.WellFormed()
  }

  predicate NoPercentage(results: seq<RuleRow>) {
    forall k :: 0 <= k < |results| ==> results[k].event.AdjustCents?
  }

  lemma {:induction false} FactorsNotNegative(results: seq<RuleRow>)
    requires AllWellFormed(results)
    ensures 0.0 <= LaterFactors(results)
  {
    if results != [] {
      FactorsNotNegative(results[1..]);
      var f, rest := Factor(results[0].event), LaterFactors(results[1..]);
      assert results[0].event.WellFormed();
      assert 0.0 <= f;
      ProductNotNegative(f, rest);
    }
  }

  lemma ProductNotNegative(a: real, b: real)
    requires 0.0 <= a && 0.0 <= b
    ensures 0.0 <= a * b
  {
  }

  lemma ProductMonotone(a: real, b: real, c: real)
    requires a <= b && 0.0 <= c
    ensures a * c <= b * c
  {
    ProductNotNegative(b - a, c);
    assert (b - a) * c == b * c - a * c;
  }

  lemma ScaledCents(cents: int, n: int)
    ensures cents as real * (n as real / 10_000.0) == (cents * n) as real / 10_000.0
  {
    assert (cents * n) as real == cents as real * n as real;
  }

  lemma PercentageStep(price: real, cents: int, error: real, n: nat)
    requires cents as real <= price <= cents as real + error
    ensures var f, floored := n as real / 10_000.0, (cents * n / BPS) as real;
            floored <= price * f < floored + error * f + 1.0
  {
    var f := n as real / 10_000.0;
    ScaledCents(cents, n);
    FloorBounds(cents * n);
    ProductMonotone(cents as real, price, f);
    ProductMonotone(price, cents as real + error, f);
    assert (cents as real + error) * f == cents as real * f + error * f;
  }

  /** One step: flooring loses less than a cent, and an error carried in is scaled. */
  lemma StepError(price: real, cents: int, error: real, event: Event)
    requires event.WellFormed() && cents as real <= price <= cents as real + error
    ensures var exact := ExactStep(price, event);
            var floored := Apply(cents, event) as real;
            if event.AdjustCents? then floored <= exact <= floored + error
            else floored <= exact && exact < floored + error * Factor(event) + 1.0
  {
    if event.AdjustPercentBps? {
      PercentageStep(price, cents, error, 10_000 + event.value);
    }
  }

  lemma FloorBounds(n: int)
    ensures (n / BPS) as real <= n as real / 10_000.0 < (n / BPS) as real + 1.0
  {
    var q := n / BPS;
    assert q * 10_000 <= n < q * 10_000 + 10_000;
    assert (q * 10_000) as real == q as real * 10_000.0;
  }

  /** A percentage step in front of a chain whose own error is bounded. */
  lemma PercentageInFront(error: real, f: real, carried: real, later: real, slack: real, exact: real, floored: real, strict: bool)
    requires 0.0 <= later && carried < error * f + 1.0
    requires exact <= floored + carried * later + slack
    requires if strict then exact < floored + carried * later + slack else later == 1.0
    ensures exact < floored + error * (f * later) + (later + slack)
  {
    if strict {
      ProductMonotone(carried, error * f + 1.0, later);
      assert (error * f + 1.0) * later == error * (f * later) + later;
    } else {
      assert carried * later == carried && error * (f * later) == error * f;
    }
  }

  /** The error a chain ends with, from the error it starts with. */
  ghost predicate Bounded(exact: real, floored: real, error: real, results: seq<RuleRow>) {
    var bound := floored + error * LaterFactors(results) + Slack(results);
    && floored <= exact <= bound
    && (if NoPercentage(results) then Slack(results) == 0.0 && LaterFactors(results) == 1.0 else exact < bound)
  }

  lemma PercentageBounded(exact: real, floored: real, error: real, carried: real, results: seq<RuleRow>)
    requires results != [] && results[0].event.AdjustPercentBps? && Bounded(exact, floored, carried, results[1..])
    requires carried < error * Factor(results[0].event) + 1.0 && 0.0 <= LaterFactors(results[1..])
    ensures Bounded(exact, floored, error, results)
  {
    var rest := results[1..];
    PercentageInFront(error, Factor(results[0].event), carried, LaterFactors(rest), Slack(rest), exact, floored, !NoPercentage(rest));
  }

  lemma {:induction false} ErrorBound(price: real, cents: int, error: real, results: seq<RuleRow>)
    requires AllWellFormed(results) && cents as real <= price <= cents as real + error
    ensures Bounded(ExactAfter(price, results), FlooredAfter(cents, results) as real, error, results)
    decreases |results|
  {
    if results != [] {
      var event, rest := results[0].event, results[1..];
      assert event.WellFormed();
      StepError(price, cents, error, event);
      var exact, floored := ExactStep(price, event), Apply(cents, event);
      if event.AdjustCents? {
        ErrorBound(exact, floored, error, rest);
        CentsInFront(ExactAfter(exact, rest), FlooredAfter(floored, rest) as real, error, results);
      } else {
        FactorsNotNegative(rest);
        ErrorBound(exact, floored, exact - floored as real, rest);
        PercentageBounded(ExactAfter(exact, rest), FlooredAfter(floored, rest) as real, error, exact - floored as real, results);
      }
    }
  }

  lemma CentsInFront(exact: real, floored: real, error: real, results: seq<RuleRow>)
    requires results != [] && results[0].event.AdjustCents? && Bounded(exact, floored, error, results[1..])
    ensures Bounded(exact, floored, error, results)
  {
    assert LaterFactors(results) == LaterFactors(results[1..]) && Slack(results) == Slack(results[1..]);
    assert NoPercentage(results) <==> NoPercentage(results[1..]) by {
      assert forall k :: 0 <= k < |results[1..]| ==> results[1..][k] == results[k + 1];
      if NoPercentage(results[1..]) {
        forall k | 0 <= k < |results| ensures results[k].event.AdjustCents? {
          if k > 0 { assert results[1..][k - 1] == results[k]; }
        }
      }
    }
  }

  lemma {:induction false} AfterIsFloored(cents: int, results: seq<RuleRow>, k: nat)
    requires k <= |results|
    ensures After(cents, results, k) == FlooredAfter(cents, results[..k])
    decreases k
  {
    if k == 0 {
      assert results[..0] == [];
    } else {
      AfterIsFloored(cents, results, k - 1);
      FlooredSnoc(cents, results[..k - 1], results[k - 1]);
      assert results[..k - 1] + [results[k - 1]] == results[..k];
    }
  }

  lemma {:induction false} FlooredSnoc(cents: int, results: seq<RuleRow>, last: RuleRow)
    ensures FlooredAfter(cents, results + [last]) == Apply(FlooredAfter(cents, results), last.event)
    decreases |results|
  {
    if results == [] {
      assert [last][1..] == [];
    } else {
      FlooredSnoc(Apply(cents, results[0].event), results[1..], last);
      assert (results + [last])[1..] == results[1..] + [last];
    }
  }

  /** A base price is never above the price with no rounding, and below it by less than the
      sum, over the percentage rules that fired, of the product of the factors after each;
      with no percentage rule it is exact. */
  lemma BasePriceIsWithinSlack(row: Facts, results: seq<RuleRow>, version: nat, outcome: PricingOutcome)
    requires AllWellFormed(results) && outcome.Priced? && Explains(outcome, row.vendorPriceCents, results, version)
    ensures var exact := ExactAfter(row.vendorPriceCents as real, results);
            var base := outcome.basePriceCents as real;
            && base <= exact
            && (NoPercentage(results) ==> base == exact)
            && (!NoPercentage(results) ==> exact < base + Slack(results))
  {
    var price := row.vendorPriceCents;
    AfterIsFloored(price, results, |results|);
    assert results[..|results|] == results;
    ErrorBound(price as real, price, 0.0, results);
  }

  lemma {:induction false} FiredFrom(chain: seq<RuleRow>, facts: Facts)
    ensures forall row :: row in Fired(chain, facts) ==> row in chain
  {
    if chain != [] { FiredFrom(chain[1..], facts); }
  }

  /** Rules that compile never fire a malformed adjustment. */
  lemma CompiledRulesFireWellFormed(rows: seq<RuleRow>, facts: Facts)
    requires Compiles(rows)
    ensures AllWellFormed(Fired(Chain(rows), facts))
  {
    var results := Fired(Chain(rows), facts);
    forall k | 0 <= k < |results| ensures results[k].event.WellFormed() {
      var row := results[k];
      assert row in results;
      FiredFrom(Chain(rows), facts);
      SortedIsSorted(Active(rows));
      ActiveOf(rows);
      assert row in multiset(Chain(rows));
      assert row in multiset(Active(rows));
      assert multiset(Active(rows))[row] > 0;
      var i :| 0 <= i < |rows| && rows[i] == row;
    }
  }

  /** Every base price a calculator gives is within the slack of its chain: never above the
      exact price, below it by less than what its percentage steps can lose, and exact when
      none fired. */
  lemma CalculatorIsWithinSlack(rows: seq<RuleRow>, row: Facts, outcome: PricingOutcome)
    requires Compiles(rows) && Calculates(rows, row, outcome) && outcome.Priced?
    ensures var results := Fired(Chain(rows), row.(category := Trim(row.category)));
            var exact := ExactAfter(row.vendorPriceCents as real, results);
            var base := outcome.basePriceCents as real;
            && base <= exact
            && (NoPercentage(results) ==> base == exact)
            && (!NoPercentage(results) ==> exact < base + Slack(results))
  {
    var facts := row.(category := Trim(row.category));
    CompiledRulesFireWellFormed(rows, facts);
    BasePriceIsWithinSlack(row, Fired(Chain(rows), facts), NewestVersion(Active(rows)), outcome);
  }

  lemma NewestVersionOf(some: seq<RuleRow>, other: seq<RuleRow>)
    requires multiset(some) == multiset(other)
    ensures NewestVersion(some) <= NewestVersion(other)
  {
    if some != [] {
      var k :| 0 <= k < |some| && some[k].updatedAt == NewestVersion(some);
      assert some[k] in multiset(other);
    }
  }

  /** A price, its rules and their version leave one outcome. */
  lemma ExplainsOnce(one: PricingOutcome, two: PricingOutcome, cents: int, results: seq<RuleRow>, version: nat)
    requires Explains(one, cents, results, version) && Explains(two, cents, results, version)
    ensures one == two
  {
  }

  /** The same rules read in any order make the same calculator: the same rules compile, and
      every row has the same outcome under them, price, rejection and version alike. */
  lemma CalculatorIgnoresOrder(some: seq<RuleRow>, other: seq<RuleRow>, row: Facts, one: PricingOutcome, two: PricingOutcome)
    requires multiset(some) == multiset(other) && DistinctIds(some) && Compiles(some)
    requires Calculates(some, row, one) && Calculates(other, row, two)
    ensures Compiles(other) && one == two
  {
    ChainIgnoresOrder(some, other);
    ActivePermutes(some, other);
    NewestVersionOf(Active(some), Active(other));
    NewestVersionOf(Active(other), Active(some));
    ExplainsOnce(one, two, row.vendorPriceCents, Fired(Chain(some), row.(category := Trim(row.category))), NewestVersion(Active(some)));
    CompilesInAnyOrder(some, other);
  }

  lemma CompilesInAnyOrder(some: seq<RuleRow>, other: seq<RuleRow>)
    requires multiset(some) == multiset(other) && Compiles(some)
    ensures Compiles(other)
  {
    ActivePermutes(some, other);
    assert |multiset(Active(some))| == |Active(some)| && |multiset(Active(other))| == |Active(other)|;
    forall k | 0 <= k < |other| && IsActive(other[k]) ensures other[k].event.WellFormed() {
      assert other[k] in multiset(some);
      var i :| 0 <= i < |some| && some[i] == other[k];
    }
  }

  /** Priority decides the price: a dollar on before ten percent off, in whichever order the
      two rules are read. */
  lemma PriorityDecides()
    ensures var on := RuleRow(1, Ingestion, 10, true, 0, _ => true, AdjustCents(100));
            var off := RuleRow(2, Ingestion, 1, true, 0, _ => true, AdjustPercentBps(-1_000));
            var row := Facts("kitchen", 1_000, 7);
            && Calculates([off, on], row, Priced(990, 0)) && Calculates([on, off], row, Priced(990, 0))
  {
    var on := RuleRow(1, Ingestion, 10, true, 0, _ => true, AdjustCents(100));
    var off := RuleRow(2, Ingestion, 1, true, 0, _ => true, AdjustPercentBps(-1_000));
    TwoRules(on, off, Facts("kitchen", 1_000, 7));
  }

  lemma OneRule(rule: RuleRow, facts: Facts)
    requires rule.active && rule.kind == Ingestion && rule.fires(facts)
    ensures Active([rule]) == [rule] && Sorted([rule]) == [rule] && Fired([rule], facts) == [rule]
    ensures NewestVersion([rule]) == rule.updatedAt
  {
    var none: seq<RuleRow> := [];
    assert [rule][1..] == none && [rule] + none == [rule];
    assert Active(none) == none && Sorted(none) == none && Fired(none, facts) == none && NewestVersion(none) == 0;
  }

  lemma TwoAtOnce(first: RuleRow, second: RuleRow, facts: Facts)
    requires first.active && first.kind == Ingestion && second.active && second.kind == Ingestion
    requires first.fires(facts) && second.fires(facts)
    ensures Active([first, second]) == [first, second] && Sorted([first, second]) == Placed(first, [second])
    ensures Fired([first, second], facts) == [first, second]
    ensures first.updatedAt == second.updatedAt ==> NewestVersion([first, second]) == first.updatedAt
  {
    assert [first, second][1..] == [second] && [first] + [second] == [first, second];
    OneRule(first, facts);
    OneRule(second, facts);
  }

  lemma TwoRules(on: RuleRow, off: RuleRow, row: Facts)
    requires on.active && on.kind == Ingestion && off.active && off.kind == Ingestion
    requires on.priority == 10 && off.priority == 1 && on.updatedAt == off.updatedAt == 0
    requires on.event == AdjustCents(100) && off.event == AdjustPercentBps(-1_000) && row.vendorPriceCents == 1_000
    requires forall facts :: on.fires(facts) && off.fires(facts)
    ensures Calculates([off, on], row, Priced(990, 0)) && Calculates([on, off], row, Priced(990, 0))
  {
    var facts, results := row.(category := Trim(row.category)), [on, off];
    OneRule(on, facts);
    OneRule(off, facts);
    TwoAtOnce(off, on, facts);
    TwoAtOnce(on, off, facts);
    assert [on][1..] == [];
    assert Placed(off, [on]) == [on] + Placed(off, []) == results && Placed(on, [off]) == [on] + [off] == results;
    TwoSteps(on, off);
  }

  lemma TwoSteps(on: RuleRow, off: RuleRow)
    requires on.event == AdjustCents(100) && off.event == AdjustPercentBps(-1_000)
    ensures Explains(Priced(990, 0), 1_000, [on, off], 0)
  {
    var results := [on, off];
    assert After(1_000, results, 0) == 1_000 && After(1_000, results, 1) == 1_100 && After(1_000, results, 2) == 990;
    forall k | 0 <= k <= |results| ensures InRange(After(1_000, results, k)) {
      assert k == 0 || k == 1 || k == 2;
    }
  }
}
