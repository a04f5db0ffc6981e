/** The read-model entry of a product: how it is priced, how it is stored as the text fields
    of a hash, and what the storefront's reader makes of those fields. */
module ProductEntries {
  import opened Decimal
  import opened VendorCsv
  import opened ProductStore
  import opened EffectivePrice

  /** A row as `ProductSourceRepository.read` returns it, with its candidate promotions. */
  datatype SourceRow = SourceRow(id: nat, sku: string, name: string, category: string, basePriceCents: nat,
                                 stockQuantity: nat, pricingRulesVersion: Option<nat>,
                                 productPromotion: Option<Candidate>, categoryPromotion: Option<Candidate>)

  datatype ProductEntry = ProductEntry(id: nat, sku: string, name: string, category: string, basePriceCents: nat,
                                       effectivePriceCents: nat, stockQuantity: nat,
                                       promotionId: Option<nat>, promotionName: Option<string>,
                                       pricingRulesVersion: Option<nat>)

  datatype Applied = Applied(promotion: Candidate, effectivePriceCents: nat)

  /** The rules see a candidate only if it can be priced. */
  function PricedCandidate(base: nat, promotion: Option<Candidate>): Option<Applied> {
    if promotion.None? then None
    else
      var outcome := Calculate(base, promotion.value);
      if outcome.Unpriceable? then None else Some(Applied(promotion.value, outcome.effectivePriceCents))
  }

  function CentsOf(applied: Option<Applied>): Option<nat> {
    if applied.None? then None else Some(applied.value.effectivePriceCents)
  }

  /** The promotion the rules selected among the candidates that could be priced. */
  function AppliedTo(rules: seq<Rule>, row: SourceRow): Option<Applied> {
    var product := PricedCandidate(row.basePriceCents, row.productPromotion);
    var category := PricedCandidate(row.basePriceCents, row.categoryPromotion);
    var level := Select(rules, Facts(row.category, row.stockQuantity, row.basePriceCents, CentsOf(product), CentsOf(category)));
    if level == Some(Product) then product else if level == Some(Category) then category else None
  }

  function Price(rules: seq<Rule>, row: SourceRow): ProductEntry {
    var applied := AppliedTo(rules, row);
    ProductEntry(row.id, row.sku, row.name, row.category, row.basePriceCents,
                 if applied.None? then row.basePriceCents else applied.value.effectivePriceCents,
                 row.stockQuantity,
                 if applied.None? then None else Some(applied.value.promotion.id),
                 if applied.None? then None else Some(applied.value.promotion.name),
                 row.pricingRulesVersion)
  }

  /** Whatever the rules say, an entry is priced within `[0, base]`; it names a promotion
      exactly when one made its price, that promotion is one of the row's two candidates,
      and a percentage leaves the ceiling of what remains. */
  lemma {:induction false} PriceIsExplained(rules: seq<Rule>, row: SourceRow)
    ensures var entry := Price(rules, row);
            && entry.effectivePriceCents <= entry.basePriceCents == row.basePriceCents
            && entry.promotionId.Some? == entry.promotionName.Some?
            && (entry.promotionId.None? ==> entry.effectivePriceCents == row.basePriceCents)
            && (entry.promotionId.Some? ==>
                  exists promotion ::
                    && (row.productPromotion == Some(promotion) || row.categoryPromotion == Some(promotion))
                    && entry.promotionId == Some(promotion.id) && entry.promotionName == Some(promotion.name)
                    && Calculate(row.basePriceCents, promotion) == Priced(entry.effectivePriceCents)
                    && (promotion.discountType == "percentage" ==>
                          IsCeiling(entry.effectivePriceCents,
                                    row.basePriceCents * (FULL_DISCOUNT_BASIS_POINTS - promotion.value))))
  {
    var applied := AppliedTo(rules, row);
    if applied.Some? {
      PricedExactly(row.basePriceCents, applied.value.promotion);
      assert row.productPromotion == Some(applied.value.promotion) || row.categoryPromotion == Some(applied.value.promotion);
    }
  }

  /** What a promotion would sell the product at; none if there is none or it has no price. */
  function PriceUnder(base: nat, promotion: Option<Candidate>): Option<nat> {
    if promotion.Some? && Calculate(base, promotion.value).Priced?
    then Some(Calculate(base, promotion.value).effectivePriceCents) else None
  }

  /** What the rules are shown of a row. */
  function FactsOf(row: SourceRow): Facts {
    Facts(row.category, row.stockQuantity, row.basePriceCents,
          PriceUnder(row.basePriceCents, row.productPromotion), PriceUnder(row.basePriceCents, row.categoryPromotion))
  }

  /** The entry is sold under this promotion at the price it makes, or, if it makes none, at
      the base price and under no promotion. */
  predicate SoldUnder(row: SourceRow, promotion: Option<Candidate>, entry: ProductEntry) {
    if promotion.Some? && Calculate(row.basePriceCents, promotion.value).Priced? then
      && entry.promotionId == Some(promotion.value.id) && entry.promotionName == Some(promotion.value.name)
      && entry.effectivePriceCents == Calculate(row.basePriceCents, promotion.value).effectivePriceCents
    else
      entry.promotionId.None? && entry.promotionName.None? && entry.effectivePriceCents == row.basePriceCents
  }

  /** The rules choose: a firing rule with none above it sells the product under the promotion
      of its level, the product's own or its category's; with no rule firing, and under a
      promotion that cannot be priced, it sells at its base price. All else is the row's. */
  lemma {:induction false} PriceFollowsRules(rules: seq<Rule>, row: SourceRow)
    ensures var entry := Price(rules, row);
            && entry.id == row.id && entry.sku == row.sku && entry.name == row.name && entry.category == row.category
            && entry.basePriceCents == row.basePriceCents && entry.stockQuantity == row.stockQuantity
            && entry.pricingRulesVersion == row.pricingRulesVersion
    ensures (forall r :: r in rules ==> !r.fires(FactsOf(row))) ==> SoldUnder(row, None, Price(rules, row))
    ensures (exists r :: r in rules && r.fires(FactsOf(row))) ==>
              exists winner :: Decides(rules, FactsOf(row), winner)
                && SoldUnder(row, if winner.level == Product then row.productPromotion else row.categoryPromotion, Price(rules, row))
  {
    var product := PricedCandidate(row.basePriceCents, row.productPromotion);
    var category := PricedCandidate(row.basePriceCents, row.categoryPromotion);
    assert FactsOf(row) == Facts(row.category, row.stockQuantity, row.basePriceCents, CentsOf(product), CentsOf(category));
    SelectDecides(rules, FactsOf(row));
  }

  /** ... so a rule that fires above every other firing rule decides alone. */
  lemma SoleWinnerPrices(rules: seq<Rule>, row: SourceRow, winner: Rule)
    requires winner in rules && winner.fires(FactsOf(row))
    requires forall r :: r in rules && r.fires(FactsOf(row)) && r != winner ==> r.priority < winner.priority
    ensures SoldUnder(row, if winner.level == Product then row.productPromotion else row.categoryPromotion, Price(rules, row))
  {
    PriceFollowsRules(rules, row);
    var other :| Decides(rules, FactsOf(row), other)
                 && SoldUnder(row, if other.level == Product then row.productPromotion else row.categoryPromotion, Price(rules, row));
    assert other.priority >= winner.priority;
  }

  /** The fields of the Redis hash. */
  datatype Field = Id | Sku | Name | CategoryName | BasePrice | Effective | Stock | UpdatedAt
                 | PromotionId | PromotionName | RulesVersion

  type Hash = map<Field, string>

  /** `HSET`: a later pair overwrites an earlier one of the same field. */
  function HashSet(fields: seq<(Field, string)>): Hash {
    if fields == [] then map[]
    else HashSet(fields[..|fields| - 1])[fields[|fields| - 1].0 := fields[|fields| - 1].1]
  }

  lemma HashSnoc(fields: seq<(Field, string)>, pair: (Field, string))
    ensures HashSet(fields + [pair]) == HashSet(fields)[pair.0 := pair.1]
  {
    assert (fields + [pair])[..|fields|] == fields;
  }

  /** The hash an entry is stored as; `stamp` is the token's instant as text. */
  function Stored(entry: ProductEntry, stamp: string): Hash {
    var required := map[][Id := Render(entry.id)][Sku := entry.sku][Name := entry.name][CategoryName := entry.category]
                    [BasePrice := Render(entry.basePriceCents)][Effective := Render(entry.effectivePriceCents)]
                    [Stock := Render(entry.stockQuantity)][UpdatedAt := stamp];
    var promoted := if entry.promotionId.None? || entry.promotionName.None? then required
                    else required[PromotionId := Render(entry.promotionId.value)][PromotionName := entry.promotionName.value];
    if entry.pricingRulesVersion.None? then promoted
    else promoted[RulesVersion := Render(entry.pricingRulesVersion.value)]
  }

  /** The hash also carries the rules version, when the product has one, and the token's instant. */
  lemma StoredVersion(entry: ProductEntry, stamp: string)
    ensures var hash := Stored(entry, stamp);
            && UpdatedAt in hash && hash[UpdatedAt] == stamp
            && (RulesVersion in hash <==> entry.pricingRulesVersion.Some?)
            && (RulesVersion in hash ==> hash[RulesVersion] == Render(entry.pricingRulesVersion.value))
  {
  }

  method Push(fields: seq<(Field, string)>, field: Field, text: string) returns (pushed: seq<(Field, string)>)
    ensures pushed == fields + [(field, text)] && HashSet(pushed) == HashSet(fields)[field := text]
  {
    pushed := fields + [(field, text)];
    HashSnoc(fields, (field, text));
  }

  method FieldsOf(entry: ProductEntry, stamp: string) returns (fields: seq<(Field, string)>)
    ensures HashSet(fields) == Stored(entry, stamp)
  {
    fields := Push([], Id, Render(entry.id));
    fields := Push(fields, Sku, entry.sku);
    fields := Push(fields, Name, entry.name);
    fields := Push(fields, CategoryName, entry.category);
    fields := Push(fields, BasePrice, Render(entry.basePriceCents));
    fields := Push(fields, Effective, Render(entry.effectivePriceCents));
    fields := Push(fields, Stock, Render(entry.stockQuantity));
    fields := Push(fields, UpdatedAt, stamp);
    if entry.promotionId.Some? && entry.promotionName.Some? {
      fields := Push(fields, PromotionId, Render(entry.promotionId.value));
      fields := Push(fields, PromotionName, entry.promotionName.value);
    }
    if entry.pricingRulesVersion.Some? {
      fields := Push(fields, RulesVersion, Render(entry.pricingRulesVersion.value));
    }
  }

  datatype StoredProduct = StoredProduct(id: nat, sku: string, name: string, category: string, basePriceCents: nat,
                                         effectivePriceCents: nat, stockQuantity: nat,
                                         promotionId: Option<nat>, promotionName: Option<string>)

  /** Digits only, and a whole number that is exact. */
  function Digits(text: string): Option<nat> {
    if IsDigits(text) && Value(text) <= MAX_SAFE_INTEGER then Some(Value(text)) else None
  }

  predicate IsBlank(text: string) { Trim(text) == [] }

  /** Absent or blank both mean no promotion. */
  function Optional(hash: Hash, field: Field): Option<string> {
    if field in hash && !IsBlank(hash[field]) then Some(hash[field]) else None
  }

  predicate HasRequired(hash: Hash) {
    {Id, Sku, Name, CategoryName, BasePrice, Effective, Stock} <= hash.Keys
  }

  /** The reader's three refinements. */
  predicate Refined(p: StoredProduct) {
    && p.promotionId.None? == p.promotionName.None?
    && p.effectivePriceCents <= p.basePriceCents
    && (p.promotionId.None? ==> p.effectivePriceCents == p.basePriceCents)
  }

  /** The reader's parse; none is a refused hash. */
  function Parse(hash: Hash): Option<StoredProduct> {
    if !HasRequired(hash) then None
    else
      var id, base, effective, stock := Digits(hash[Id]), Digits(hash[BasePrice]), Digits(hash[Effective]), Digits(hash[Stock]);
      var promotionText := Optional(hash, PromotionId);
      var promotionId := if promotionText.None? then None else Digits(promotionText.value);
      if id.None? || base.None? || effective.None? || stock.None? || (promotionText.Some? && promotionId.None?) then None
      else
        var p := StoredProduct(id.value, hash[Sku], hash[Name], hash[CategoryName], base.value, effective.value, stock.value,
                               promotionId, Optional(hash, PromotionName));
        if Refined(p) then Some(p) else None
  }

  function ViewOf(entry: ProductEntry): StoredProduct {
    StoredProduct(entry.id, entry.sku, entry.name, entry.category, entry.basePriceCents, entry.effectivePriceCents,
                  entry.stockQuantity, entry.promotionId, entry.promotionName)
  }

  /** Exact numbers, and a promotion with a name to show. */
  predicate Legible(entry: ProductEntry) {
    && entry.id <= 9_007_199_254_740_991 && entry.basePriceCents <= 9_007_199_254_740_991
    && entry.stockQuantity <= 9_007_199_254_740_991
    && (entry.promotionId.Some? && entry.promotionName.Some? ==>
          entry.promotionId.value <= 9_007_199_254_740_991 && !IsBlank(entry.promotionName.value))
  }

  lemma DigitsOfRender(n: nat)
    ensures Digits(Render(n)) == if n <= MAX_SAFE_INTEGER then Some(n) else None
    ensures !IsBlank(Render(n))
  {
    ValueOfRender(n);
    TrimDigits(Render(n));
  }

  lemma TrimDigits(text: string)
    requires IsDigits(text)
    ensures Trim(text) == text
  {
    assert !IsSpace(text[0]) && !IsSpace(text[|text| - 1]);
  }

  /** `hash` holds `entry`. */
  predicate Holds(hash: Hash, entry: ProductEntry) {
    && HasRequired(hash)
    && hash[Id] == Render(entry.id) && hash[Sku] == entry.sku && hash[Name] == entry.name
    && hash[CategoryName] == entry.category && hash[BasePrice] == Render(entry.basePriceCents)
    && hash[Effective] == Render(entry.effectivePriceCents) && hash[Stock] == Render(entry.stockQuantity)
    && (entry.promotionId.None? || entry.promotionName.None? ==> PromotionId !in hash && PromotionName !in hash)
    && (entry.promotionId.Some? && entry.promotionName.Some? ==>
          && PromotionId in hash && hash[PromotionId] == Render(entry.promotionId.value)
          && PromotionName in hash && hash[PromotionName] == entry.promotionName.value)
  }

  lemma StoredHolds(entry: ProductEntry, stamp: string)
    ensures Holds(Stored(entry, stamp), entry)
  {
  }

  lemma HeldPromotion(hash: Hash, entry: ProductEntry)
    requires Holds(hash, entry) && entry.promotionId.Some? == entry.promotionName.Some?
    ensures Optional(hash, PromotionId) == if entry.promotionId.None? then None else Some(Render(entry.promotionId.value))
    ensures Optional(hash, PromotionName)
         == if entry.promotionName.None? || IsBlank(entry.promotionName.value) then None else entry.promotionName
  {
    if entry.promotionId.Some? { DigitsOfRender(entry.promotionId.value); }
  }

  lemma HeldParses(hash: Hash, entry: ProductEntry)
    requires Holds(hash, entry) && entry.promotionId.Some? == entry.promotionName.Some?
    requires entry.effectivePriceCents <= entry.basePriceCents
    requires entry.promotionId.None? ==> entry.effectivePriceCents == entry.basePriceCents
    ensures Parse(hash) == if Legible(entry) then Some(ViewOf(entry)) else None
  {
    HeldPromotion(hash, entry);
    DigitsOfRender(entry.id);
    DigitsOfRender(entry.basePriceCents);
    DigitsOfRender(entry.effectivePriceCents);
    DigitsOfRender(entry.stockQuantity);
    if entry.promotionId.Some? { DigitsOfRender(entry.promotionId.value); }
  }

  /** The entry the pricer builds passes every refinement and parses back to itself, exactly
      when its numbers are exact and the promotion it names has a name that is not blank;
      otherwise the reader refuses it. */
  lemma EntryReadsBack(rules: seq<Rule>, row: SourceRow, stamp: string)
    ensures var entry := Price(rules, row);
            Parse(Stored(entry, stamp)) == if Legible(entry) then Some(ViewOf(entry)) else None
  {
    PriceIsExplained(rules, row);
    StoredHolds(Price(rules, row), stamp);
    HeldParses(Stored(Price(rules, row), stamp), Price(rules, row));
  }

  /** What the tables hold: exact numbers, and promotions whose names say something. */
  predicate Sound(row: SourceRow) {
    && row.id <= MAX_SAFE_INTEGER && row.basePriceCents <= MAX_SAFE_INTEGER && row.stockQuantity <= MAX_SAFE_INTEGER
    && SoundCandidate(row.productPromotion) && SoundCandidate(row.categoryPromotion)
  }

  predicate SoundCandidate(promotion: Option<Candidate>) {
    promotion.Some? ==> promotion.value.id <= MAX_SAFE_INTEGER && !IsBlank(promotion.value.name)
  }

  /** So for rows as the tables hold them the reader never refuses an entry: whatever the
      rules, it passes every refinement and parses back to what was priced. */
  lemma SoundRowReadsBack(rules: seq<Rule>, row: SourceRow, stamp: string)
    requires Sound(row)
    ensures Parse(Stored(Price(rules, row), stamp)) == Some(ViewOf(Price(rules, row)))
  {
    PriceIsExplained(rules, row);
    EntryReadsBack(rules, row, stamp);
  }

  /** A name that was trimmed and found not empty is not blank. */
  lemma TrimmedIsNotBlank(name: string)
    requires IsTrimmed(name)
    ensures !IsBlank(name)
  {
    assert Trim(name) == name;
  }
}
