/** When the newest of the rows offered for a SKU wins whatever order they arrive in: the
    exact condition, for any number of offers and any repetition of them. */
module ArrivalOrder {
  import opened ProductStore

  /** `arrived` is an order the offers may arrive in, each at least once. */
  ghost predicate Arrival(arrived: seq<ProductUpsert>, offers: seq<ProductUpsert>) {
    forall offer :: offer in arrived <==> offer in offers
  }

  /** None of the offers is later, and none of the same provenance says something else. */
  ghost predicate IsNewestOffer(newest: ProductUpsert, offers: seq<ProductUpsert>) {
    newest in offers && forall offer :: offer in offers ==>
      && !Later(offer.origin, newest.origin)
      && (offer.origin == newest.origin ==> offer.values == newest.values)
  }

  /** No offer of other values is later than `origin`. */
  ghost predicate Unchallenged(origin: Option<Provenance>, values: Values, offers: seq<ProductUpsert>) {
    forall offer :: offer in offers && offer.values != values ==> origin.Some? && !Later(offer.origin, origin.value)
  }

  /** Wherever the newest values may be found before the newest offer arrives, in the stored
      row or in an offer the row would take, no other offer is later than that. */
  ghost predicate CannotLose(row: ProductRow, newest: ProductUpsert, offers: seq<ProductUpsert>) {
    if !Beats(newest, row) then row.values == newest.values
    else
      && (row.values == newest.values ==> Unchallenged(row.origin, newest.values, offers))
      && forall offer :: offer in offers && offer.values == newest.values && Beats(offer, row) ==>
           Unchallenged(Some(offer.origin), newest.values, offers)
  }

  /** What stays true of a row that only takes these offers. */
  ghost predicate OnCourse(row: ProductRow, newest: ProductUpsert, offers: seq<ProductUpsert>, now: ProductRow) {
    && NotBefore(now.origin, row.origin)
    && if now.values == newest.values then Unchallenged(now.origin, newest.values, offers) else Beats(newest, now)
  }

  lemma OfferKeepsCourse(row: ProductRow, newest: ProductUpsert, offers: seq<ProductUpsert>, now: ProductRow, offer: ProductUpsert)
    requires IsNewestOffer(newest, offers) && Beats(newest, row) && CannotLose(row, newest, offers)
    requires OnCourse(row, newest, offers, now) && offer in offers
    ensures OnCourse(row, newest, offers, Offer(now, offer))
    ensures now.values == newest.values || offer == newest ==> Offer(now, offer).values == newest.values
  {
    if Offer(now, offer) != now {
      assert Beats(offer, row);
    }
  }

  lemma {:induction false} StaysOnCourse(row: ProductRow, newest: ProductUpsert, offers: seq<ProductUpsert>, arrived: seq<ProductUpsert>)
    requires IsNewestOffer(newest, offers) && Beats(newest, row) && CannotLose(row, newest, offers)
    requires forall offer :: offer in arrived ==> offer in offers
    ensures OnCourse(row, newest, offers, OfferAll(row, arrived))
    ensures newest in arrived ==> OfferAll(row, arrived).values == newest.values
    decreases |arrived|
  {
    if arrived != [] {
      var init, last := arrived[..|arrived| - 1], arrived[|arrived| - 1];
      assert arrived == init + [last];
      StaysOnCourse(row, newest, offers, init);
      OfferKeepsCourse(row, newest, offers, OfferAll(row, init), last);
    }
  }

  /** A row none of the offers is later than takes none of them. */
  lemma {:induction false} NoneTaken(row: ProductRow, arrived: seq<ProductUpsert>)
    requires forall offer :: offer in arrived ==> !Beats(offer, row)
    ensures OfferAll(row, arrived) == row
    decreases |arrived|
  {
    if arrived != [] {
      var init := arrived[..|arrived| - 1];
      assert arrived == init + [arrived[|arrived| - 1]];
      NoneTaken(row, init);
    }
  }

  /** Offers of the values a row already has change nothing. */
  lemma {:induction false} NoChange(row: ProductRow, arrived: seq<ProductUpsert>)
    requires forall offer :: offer in arrived ==> offer.values == row.values
    ensures OfferAll(row, arrived) == row
    decreases |arrived|
  {
    if arrived != [] {
      var init := arrived[..|arrived| - 1];
      assert arrived == init + [arrived[|arrived| - 1]];
      NoChange(row, init);
    }
  }

  /** Once an offer of other values is taken, offers of other values keep it that way. */
  lemma {:induction false} Displaced(row: ProductRow, values: Values, arrived: seq<ProductUpsert>)
    requires forall offer :: offer in arrived ==> offer.values != values
    requires row.values != values || exists offer :: offer in arrived && Beats(offer, row)
    ensures OfferAll(row, arrived).values != values
    decreases |arrived|
  {
    if arrived != [] {
      var init, last := arrived[..|arrived| - 1], arrived[|arrived| - 1];
      assert arrived == init + [last];
      if row.values != values || exists offer :: offer in init && Beats(offer, row) {
        Displaced(row, values, init);
      } else {
        NoneTaken(row, init);
      }
    }
  }

  function Of(values: Values, offers: seq<ProductUpsert>): (some: seq<ProductUpsert>)
    ensures forall offer :: offer in some <==> offer in offers && offer.values == values
  {
    if offers == [] then [] else (if offers[0].values == values then [offers[0]] else []) + Of(values, offers[1..])
  }

  function Others(values: Values, offers: seq<ProductUpsert>): (some: seq<ProductUpsert>)
    ensures forall offer :: offer in some <==> offer in offers && offer.values != values
  {
    if offers == [] then [] else (if offers[0].values != values then [offers[0]] else []) + Others(values, offers[1..])
  }

  lemma {:induction false} OfferConcat(row: ProductRow, left: seq<ProductUpsert>, right: seq<ProductUpsert>)
    ensures OfferAll(row, left + right) == OfferAll(OfferAll(row, left), right)
    decreases |right|
  {
    if right == [] {
      assert left + right == left;
    } else {
      var init := right[..|right| - 1];
      OfferConcat(row, left, init);
      assert (left + right)[..|left + right| - 1] == left + init;
    }
  }

  /** An offer of the newest values, then the rest of them, then everything else. */
  function Losing(first: ProductUpsert, offers: seq<ProductUpsert>): seq<ProductUpsert> {
    [first] + Of(first.values, offers) + Others(first.values, offers)
  }

  /** ... loses them, if an offer of other values is later than where they are first found. */
  lemma LosingLoses(row: ProductRow, first: ProductUpsert, offers: seq<ProductUpsert>)
    requires first in offers && Beats(first, row)
    requires !Unchallenged(if row.values == first.values then row.origin else Some(first.origin), first.values, offers)
    ensures Arrival(Losing(first, offers), offers) && OfferAll(row, Losing(first, offers)).values != first.values
  {
    var same, others := Of(first.values, offers), Others(first.values, offers);
    OfferConcat(row, [first] + same, others);
    OfferConcat(row, [first], same);
    assert [first][..0] == [];
    var taken := OfferAll(row, [first]);
    assert taken == Offer(row, first);
    NoChange(taken, same);
    Displaced(taken, first.values, others);
  }

  /** The newest offer wins, in every order the offers may arrive in and however often, if
      and only if it cannot lose. */
  lemma NewestWinsIff(row: ProductRow, newest: ProductUpsert, offers: seq<ProductUpsert>)
    requires IsNewestOffer(newest, offers)
    ensures (forall arrived :: Arrival(arrived, offers) ==> OfferAll(row, arrived).values == newest.values)
            <==> CannotLose(row, newest, offers)
  {
    if !Beats(newest, row) {
      NoneTaken(row, offers);
      assert Arrival(offers, offers);
      forall arrived | Arrival(arrived, offers) ensures OfferAll(row, arrived) == row { NoneTaken(row, arrived); }
    } else if CannotLose(row, newest, offers) {
      forall arrived | Arrival(arrived, offers) ensures OfferAll(row, arrived).values == newest.values {
        StaysOnCourse(row, newest, offers, arrived);
      }
    } else if row.values == newest.values && !Unchallenged(row.origin, newest.values, offers) {
      LosingLoses(row, newest, offers);
    } else {
      var first :| first in offers && first.values == newest.values && Beats(first, row)
                   && !Unchallenged(Some(first.origin), newest.values, offers);
      LaterChallenge(row, first, offers);
      LosingLoses(row, first, offers);
    }
  }

  /** What is later than an offer the row would take is later than the row. */
  lemma LaterChallenge(row: ProductRow, first: ProductUpsert, offers: seq<ProductUpsert>)
    requires Beats(first, row) && !Unchallenged(Some(first.origin), first.values, offers)
    ensures !Unchallenged(row.origin, first.values, offers)
  {
  }
}
