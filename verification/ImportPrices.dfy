/** From the vendor's price to the stored one: what the floored rule chain costs a product of
    a completed import. */
module ImportPrices {
  import opened FileRows
  import opened ChunkBoundaries
  import opened VendorCsv
  import opened ProductStore
  import opened ImportTables
  import opened ImportMachine
  import opened ImportLanding
  import opened ImportEndToEnd
  import BasePrice

  type Rules = seq<BasePrice.RuleRow>

  function FactsOf(row: VendorRow): BasePrice.Facts {
    BasePrice.Facts(row.category, row.vendorPriceCents, row.stockQuantity)
  }

  /** A calculator built from these rows may charge this for the row. */
  ghost predicate ChargedBy(rules: Rules, row: VendorRow, charge: Charge) {
    && BasePrice.Compiles(rules)
    && BasePrice.Calculates(rules, FactsOf(row), BasePrice.Priced(charge.basePriceCents, charge.pricingRulesVersion))
  }

  /** What the import's calculators charge is what the rules table, as it stood at one of its
      revisions, says. */
  ghost predicate ChargesBy(cfg: Config, revisions: seq<Rules>) {
    forall row, charge :: cfg.rules(row, Some(charge)) ==>
      exists k :: 0 <= k < |revisions| && ChargedBy(revisions[k], row, charge)
  }

  /** `cents` is the row's price under these rules but for rounding: never above the exact
      price, below it by less than the slack of the rules that fired, and exact when no
      percentage did. */
  ghost predicate WithinSlack(rules: Rules, row: VendorRow, cents: nat) {
    var results := BasePrice.Fired(BasePrice.Chain(rules), FactsOf(row).(category := Trim(row.category)));
    var exact := BasePrice.ExactAfter(row.vendorPriceCents as real, results);
    var base := cents as real;
    && base <= exact
    && (BasePrice.NoPercentage(results) ==> base == exact)
    && (!BasePrice.NoPercentage(results) ==> exact < base + BasePrice.Slack(results))
  }

  /** The values carry the version of a revision, and are priced by it within its slack. */
  ghost predicate FairlyPriced(revisions: seq<Rules>, row: VendorRow, values: Values) {
    exists k :: 0 <= k < |revisions|
                && values.pricingRulesVersion == Some(BasePrice.NewestVersion(BasePrice.Active(revisions[k])))
                && WithinSlack(revisions[k], row, values.basePriceCents)
  }

  lemma PricedFairly(cfg: Config, revisions: seq<Rules>, row: VendorRow, text: Bytes, verdict: Verdict)
    requires ChargesBy(cfg, revisions) && cfg.parse(text) == Ok(row)
    requires Priced(cfg, text, verdict) && verdict.Stored?
    ensures FairlyPriced(revisions, row, verdict.values)
  {
    var charge := Charge(verdict.values.basePriceCents, verdict.values.pricingRulesVersion.value);
    assert cfg.rules(row, Some(charge));
    var k :| 0 <= k < |revisions| && ChargedBy(revisions[k], row, charge);
    var outcome := BasePrice.Priced(charge.basePriceCents, charge.pricingRulesVersion);
    BasePrice.CalculatorIsWithinSlack(revisions[k], FactsOf(row), outcome);
    assert WithinSlack(revisions[k], row, charge.basePriceCents);
  }

  /** The row at a line, and its product, are priced within the slack of a revision: the line
      always, the product wherever no earlier job's offer has reached it. */
  ghost predicate ChargedFairly(cfg: Config, revisions: seq<Rules>, earlier: set<string>, rows: map<string, ProductRow>, line: Line) {
    var parsed := ParseVendorRow(line.text);
    parsed.Ok? && line.verdict.Stored? ==>
      && FairlyPriced(revisions, parsed.row, line.verdict.values)
      && line.verdict.sku in rows
      && (rows[line.verdict.sku].origin == Own(cfg, line) || line.verdict.sku !in earlier ==>
            FairlyPriced(revisions, parsed.row, rows[line.verdict.sku].values))
  }

  /** A completed import of a file in which no SKU repeats: each row is refused, or its product
      is stored with its own columns at a base price within the slack of its vendor price. */
  lemma {:induction false} VendorPricesLand(cfg: Config, revisions: seq<Rules>, now: nat, products: Table, target: nat,
                                            bs: seq<ChunkBoundary>, acts: seq<Action>, earlier: set<string>, at: nat)
    requires forall text :: cfg.parse(text) == ParseVendorRow(text)
    requires ChargesBy(cfg, revisions)
    requires cfg.Valid() && Splits(cfg.file, FirstRow(cfg.file), target, bs)
    requires Undisturbed(cfg, earlier, products, acts)
    requires Run(cfg, Register(now, products, bs), acts).job.status == JobCompleted
    requires RowAt(cfg, FirstRow(cfg.file), at)
    ensures var s := Run(cfg, Register(now, products, bs), acts);
            exists line ::
              && InLog(s, line) && CommittedAt(cfg, earlier, s, at, line)
              && FollowsRow(cfg, earlier, s.products.rows, line)
              && ChargedFairly(cfg, revisions, earlier, s.products.rows, line)
  {
    VendorFileLands(cfg, now, products, target, bs, acts, earlier, at);
    var s := Run(cfg, Register(now, products, bs), acts);
    var line :| InLog(s, line) && CommittedAt(cfg, earlier, s, at, line) && FollowsRow(cfg, earlier, s.products.rows, line);
    LineChargedFairly(cfg, revisions, earlier, s, at, line);
  }

  lemma LineChargedFairly(cfg: Config, revisions: seq<Rules>, earlier: set<string>, s: State, at: nat, line: Line)
    requires cfg.parse(line.text) == ParseVendorRow(line.text) && ChargesBy(cfg, revisions)
    requires at < |cfg.file| && CommittedAt(cfg, earlier, s, at, line)
    ensures ChargedFairly(cfg, revisions, earlier, s.products.rows, line)
  {
    if ParseVendorRow(line.text).Ok? && line.verdict.Stored? {
      PricedFairly(cfg, revisions, ParseVendorRow(line.text).row, line.text, line.verdict);
    }
  }
}
