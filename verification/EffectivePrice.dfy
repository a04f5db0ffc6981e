/** What a promotion makes of a base price, and which candidate promotion the rules select. */
module EffectivePrice {
  import opened Decimal
  import opened ProductStore

  const FULL_DISCOUNT_BASIS_POINTS := 10_000

  datatype Candidate = Candidate(id: nat, name: string, discountType: string, value: int)

  datatype PricingOutcome = Priced(effectivePriceCents: nat) | Unpriceable(reason: Reason)
  datatype Reason = UnknownType | BasePriceOutOfRange | ValueNotPositive | AboveFullDiscount

  /** Whole cents off: for a percentage the fraction of a cent is not taken off. */
  function DiscountCents(discountType: string, base: nat, value: nat): nat {
    if discountType == "percentage" then PercentageCents(base, value) else value
  }

  function PercentageCents(base: nat, value: nat): (cents: nat)
    ensures cents * FULL_DISCOUNT_BASIS_POINTS <= base * value < (cents + 1) * FULL_DISCOUNT_BASIS_POINTS
  {
    base * value / FULL_DISCOUNT_BASIS_POINTS
  }

  predicate IsSafe(n: int) { -(MAX_SAFE_INTEGER as int) <= n <= MAX_SAFE_INTEGER }

  function Calculate(base: int, promotion: Candidate): PricingOutcome {
    if promotion.discountType != "percentage" && promotion.discountType != "fixed" then Unpriceable(UnknownType)
    else if !IsSafe(base) || base < 0 then Unpriceable(BasePriceOutOfRange)
    else if !IsSafe(promotion.value) || promotion.value <= 0 then Unpriceable(ValueNotPositive)
    else if promotion.discountType == "percentage" && promotion.value > FULL_DISCOUNT_BASIS_POINTS then
      Unpriceable(AboveFullDiscount)
    else
      var cents := DiscountCents(promotion.discountType, base, promotion.value);
      Priced(if cents > base then 0 else base - cents)
  }

  /** The smallest whole number of cents that is at least `cents / 10000`. */
  ghost predicate IsCeiling(r: int, cents: int) {
    (r - 1) * FULL_DISCOUNT_BASIS_POINTS < cents <= r * FULL_DISCOUNT_BASIS_POINTS
  }

  lemma FlooredDiscountIsCeiling(base: nat, value: nat)
    requires value <= FULL_DISCOUNT_BASIS_POINTS
    ensures PercentageCents(base, value) <= base
    ensures IsCeiling(base - PercentageCents(base, value), base * (FULL_DISCOUNT_BASIS_POINTS - value))
  {
    var cents, product := PercentageCents(base, value), base * value;
    assert product <= base * FULL_DISCOUNT_BASIS_POINTS;
    assert base * (FULL_DISCOUNT_BASIS_POINTS - value) == base * FULL_DISCOUNT_BASIS_POINTS - product;
  }

  /** A promotion is priced exactly when its type is known, its value is one the type can
      mean, and the base price is exact; the price is then within `[0, base]`, for a
      percentage the ceiling of what is left, and for a fixed amount what is left or free. */
  lemma {:induction false} PricedExactly(base: int, promotion: Candidate)
    ensures Calculate(base, promotion).Priced? <==>
              && promotion.discountType in ["percentage", "fixed"]
              && 0 <= base <= 9_007_199_254_740_991 && 0 < promotion.value <= 9_007_199_254_740_991
              && (promotion.discountType == "percentage" ==> promotion.value <= 10_000)
    ensures Calculate(base, promotion).Priced? ==>
              var cents := Calculate(base, promotion).effectivePriceCents;
              && cents <= base
              && (promotion.discountType == "percentage" ==>
                    (cents - 1) * 10_000 < base * (10_000 - promotion.value) <= cents * 10_000)
              && (promotion.discountType == "fixed" ==>
                    (promotion.value >= base ==> cents == 0) && (promotion.value <= base ==> cents + promotion.value == base))
  {
    if Calculate(base, promotion).Priced? && promotion.discountType == "percentage" {
      FlooredDiscountIsCeiling(base, promotion.value);
    }
  }

  datatype Level = Product | Category
  datatype Facts = Facts(category: string, stockQuantity: int, basePriceCents: int,
                         productPriceCents: Option<nat>, categoryPriceCents: Option<nat>)

  /** An active promotion rule; its condition is any predicate on the facts. */
  datatype Rule = Rule(priority: int, level: Level, fires: Facts -> bool)

  /** The rules that fire, as the engine lists them. */
  function Fired(rules: seq<Rule>, facts: Facts): seq<Rule> {
    if rules == [] then []
    else (if rules[0].fires(facts) then [rules[0]] else []) + Fired(rules[1..], facts)
  }

  /** The first of the highest priority. */
  function Best(results: seq<Rule>): Option<Rule> {
    if results == [] then None
    else
      var before := Best(results[..|results| - 1]);
      var last := results[|results| - 1];
      if before.None? || last.priority > before.value.priority then Some(last) else before
  }

  function Select(rules: seq<Rule>, facts: Facts): Option<Level> {
    var winner := Best(Fired(rules, facts));
    if winner.None? then None else Some(winner.value.level)
  }

  /** The winner is the first of the results with none above it; there is one if there is any. */
  lemma {:induction false} BestIsHighest(results: seq<Rule>)
    ensures Best(results).None? <==> results == []
    ensures Best(results).Some? ==>
              (exists k :: 0 <= k < |results| && results[k] == Best(results).value
                           && forall j :: 0 <= j < k ==> results[j].priority < results[k].priority)
              && forall k :: 0 <= k < |results| ==> results[k].priority <= Best(results).value.priority
    decreases |results|
  {
    if results != [] {
      var init, last := results[..|results| - 1], results[|results| - 1];
      BestIsHighest(init);
      assert results == init + [last];
      assert results[|results| - 1] == last;
    }
  }

  /** What fires is what is there and matches the facts. */
  lemma {:induction false} FiredMatch(rules: seq<Rule>, facts: Facts)
    ensures forall r :: r in Fired(rules, facts) <==> r in rules && r.fires(facts)
  {
    if rules != [] { FiredMatch(rules[1..], facts); }
  }

  /** A rule that fires, with none of the firing rules above it. */
  ghost predicate Decides(rules: seq<Rule>, facts: Facts, winner: Rule) {
    && winner in rules && winner.fires(facts)
    && forall r :: r in rules && r.fires(facts) ==> r.priority <= winner.priority
  }

  /** The level selected is that of a rule that decides; none, exactly when no rule fires. */
  lemma SelectDecides(rules: seq<Rule>, facts: Facts)
    ensures Select(rules, facts).None? <==> forall r :: r in rules ==> !r.fires(facts)
    ensures Select(rules, facts).Some? ==>
              exists winner :: Decides(rules, facts, winner) && Select(rules, facts) == Some(winner.level)
  {
    var results := Fired(rules, facts);
    FiredMatch(rules, facts);
    BestIsHighest(results);
    if results == [] {
      forall r | r in rules ensures !r.fires(facts) { assert r !in results; }
    } else {
      assert results[0] in rules && results[0].fires(facts);
      var k :| 0 <= k < |results| && results[k] == Best(results).value;
      assert results[k] in results;
      forall r | r in rules && r.fires(facts) ensures r.priority <= results[k].priority { assert r in results; }
      assert Decides(rules, facts, results[k]);
    }
  }

  /** Between rules that share no priority, neither the order the rules were added in nor
      the order the engine reports them in decides: only the set that fired does. */
  lemma SelectIgnoresOrder(some: seq<Rule>, other: seq<Rule>)
    requires forall r :: r in some <==> r in other
    requires forall j, k :: 0 <= j < |some| && 0 <= k < |some| && some[j].priority == some[k].priority ==> some[j] == some[k]
    ensures Best(some) == Best(other)
  {
    BestIsHighest(some);
    BestIsHighest(other);
    if some != [] {
      assert some[0] in other;
      var k :| 0 <= k < |other| && other[k] == Best(other).value;
      assert other[k] in some;
      var j :| 0 <= j < |some| && some[j] == Best(some).value;
      assert some[j] in other;
    }
    assert other != [] ==> other[0] in some;
  }
}
