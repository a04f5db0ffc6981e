/** The products table and `upsertMany`: which row a SKU ends with. */
module ProductStore {
  datatype Option<+T> = None | Some(value: T)

  /** The columns a vendor row sets; the rules version of a product made by hand is null. */
  datatype Values = Values(name: string, category: string, basePriceCents: nat, stockQuantity: nat,
                           pricingRulesVersion: Option<nat>)
  /** Where a row came from: the import job, and the row's offset in the job's file. */
  datatype Provenance = Provenance(job: nat, offset: nat)
  datatype ProductRow = ProductRow(id: nat, values: Values, origin: Option<Provenance>)
  datatype ProductUpsert = ProductUpsert(sku: string, values: Values, origin: Provenance)

  predicate Later(a: Provenance, b: Provenance) {
    a.job > b.job || (a.job == b.job && a.offset > b.offset)
  }

  predicate NotBefore(a: Option<Provenance>, b: Option<Provenance>) {
    b.None? || (a.Some? && !Later(b.value, a.value))
  }

  /** The provenance half of the update's guard; a product made by hand has none. */
  predicate Beats(offer: ProductUpsert, row: ProductRow) {
    row.origin.None? || Later(offer.origin, row.origin.value)
  }

  /** What a conflicting offer makes of a stored row: equal values are not rewritten. */
  function Offer(row: ProductRow, offer: ProductUpsert): ProductRow {
    if Beats(offer, row) && row.values != offer.values
    then ProductRow(row.id, offer.values, Some(offer.origin))
    else row
  }

  datatype Table = Table(rows: map<string, ProductRow>, nextId: nat)

  /** One row of the statement; a conflict draws an id from the sequence as well. */
  function UpsertRow(table: Table, offer: ProductUpsert): Table {
    var row := if offer.sku in table.rows
               then Offer(table.rows[offer.sku], offer)
               else ProductRow(table.nextId, offer.values, Some(offer.origin));
    Table(table.rows[offer.sku := row], table.nextId + 1)
  }

  function UpsertRows(table: Table, offers: seq<ProductUpsert>): Table {
    if offers == [] then table
    else UpsertRow(UpsertRows(table, offers[..|offers| - 1]), offers[|offers| - 1])
  }

  /** The largest `integer`, the type of the stock column. */
  const MAX_STOCK := 2_147_483_647

  /** The table can hold these rows: the statement throws if one has a larger stock. */
  predicate Storable(offers: seq<ProductUpsert>) {
    forall k :: 0 <= k < |offers| ==> offers[k].values.stockQuantity <= MAX_STOCK
  }

  predicate DistinctSkus(offers: seq<ProductUpsert>) {
    forall i, j :: 0 <= i < j < |offers| ==> offers[i].sku != offers[j].sku
  }

  function Skus(offers: seq<ProductUpsert>): set<string> {
    set k | 0 <= k < |offers| :: offers[k].sku
  }

  /** Where the sku stands in a list, or the list's length. */
  function Position(offers: seq<ProductUpsert>, sku: string): (at: nat)
    ensures at <= |offers| && (at < |offers| ==> offers[at].sku == sku)
    ensures at == |offers| ==> sku !in Skus(offers)
  {
    if offers == [] then 0
    else if offers[0].sku == sku then 0
    else
      var at := Position(offers[1..], sku);
      assert at == |offers[1..]| ==> forall k :: 0 < k < |offers| ==> offers[k].sku == offers[1..][k - 1].sku != sku;
      1 + at
  }

  /** `Map.set`: a key keeps its place and takes the last value. */
  function Put(offers: seq<ProductUpsert>, offer: ProductUpsert): seq<ProductUpsert> {
    var at := Position(offers, offer.sku);
    if at < |offers| then offers[at := offer] else offers + [offer]
  }

  function Dedupe(batch: seq<ProductUpsert>): (rows: seq<ProductUpsert>)
    ensures DistinctSkus(rows) && Skus(rows) == Skus(batch)
  {
    if batch == [] then []
    else
      var n := |batch| - 1;
      var before := Dedupe(batch[..n]);
      var rows := Put(before, batch[n]);
      assert Skus(rows) == Skus(batch) by { PutSkus(before, batch[n]); SkusSnoc(batch); }
      rows
  }

  lemma SkusSnoc(batch: seq<ProductUpsert>)
    requires batch != []
    ensures Skus(batch) == Skus(batch[..|batch| - 1]) + {batch[|batch| - 1].sku}
  {
    var n := |batch| - 1;
    forall sku | sku in Skus(batch) ensures sku in Skus(batch[..n]) + {batch[n].sku} {
      var k :| 0 <= k < |batch| && batch[k].sku == sku;
      if k < n { assert batch[..n][k].sku == sku; }
    }
    forall sku | sku in Skus(batch[..n]) ensures sku in Skus(batch) {
      var k :| 0 <= k < n && batch[..n][k].sku == sku;
      assert batch[k].sku == sku;
    }
  }

  lemma PutSkus(offers: seq<ProductUpsert>, offer: ProductUpsert)
    requires DistinctSkus(offers)
    ensures DistinctSkus(Put(offers, offer)) && Skus(Put(offers, offer)) == Skus(offers) + {offer.sku}
  {
    var at := Position(offers, offer.sku);
    var rows := Put(offers, offer);
    if at < |offers| {
      assert forall k :: 0 <= k < |offers| ==> rows[k].sku == offers[k].sku;
      assert offers[at].sku in Skus(offers);
    } else {
      forall k | 0 <= k < |offers| ensures offers[k].sku != offer.sku {
        assert offers[k].sku in Skus(offers);
      }
      assert rows[..|rows| - 1] == offers;
      SkusSnoc(rows);
    }
  }

  /** Each row kept is the last of the batch with its SKU. */
  lemma {:induction false} DedupeKeepsLast(batch: seq<ProductUpsert>, k: nat)
    requires k < |batch| && forall j :: k < j < |batch| ==> batch[j].sku != batch[k].sku
    ensures batch[k] in Dedupe(batch)
    decreases |batch|
  {
    var n := |batch| - 1;
    var before := Dedupe(batch[..n]);
    if k < n {
      DedupeKeepsLast(batch[..n], k);
      var i :| 0 <= i < |before| && before[i] == batch[k];
      assert Put(before, batch[n])[i] == batch[k];
    } else {
      assert Put(before, batch[n])[Position(before, batch[n].sku)] == batch[n];
    }
  }

  /** As many rows as the batch has SKUs: what `rows_processed` grows by. */
  lemma {:induction false} DedupeCounts(batch: seq<ProductUpsert>)
    ensures |Dedupe(batch)| == |Skus(batch)|
  {
    CountDistinct(Dedupe(batch));
  }

  lemma {:induction false} CountDistinct(rows: seq<ProductUpsert>)
    requires DistinctSkus(rows)
    ensures |Skus(rows)| == |rows|
  {
    if rows != [] {
      var n := |rows| - 1;
      CountDistinct(rows[..n]);
      SkusSnoc(rows);
      assert rows[n].sku !in Skus(rows[..n]);
    }
  }

  /** Over any run of upserts no row is lost, no id changes, and the stored provenance
      of a SKU never goes back. */
  lemma {:induction false} ProvenanceGrows(table: Table, offers: seq<ProductUpsert>, sku: string)
    requires sku in table.rows
    ensures var after := UpsertRows(table, offers).rows;
            sku in after && after[sku].id == table.rows[sku].id
            && NotBefore(after[sku].origin, table.rows[sku].origin)
  {
    if offers != [] {
      ProvenanceGrows(table, offers[..|offers| - 1], sku);
    }
  }

  /** What the statement does to one of its rows, whatever its other rows are. */
  lemma {:induction false} StatementAt(table: Table, offers: seq<ProductUpsert>, sku: string)
    requires DistinctSkus(offers)
    ensures var after := UpsertRows(table, offers);
            && after.rows.Keys == table.rows.Keys + Skus(offers)
            && (sku in table.rows && sku !in Skus(offers) ==> after.rows[sku] == table.rows[sku])
            && (forall k {:trigger offers[k]} :: 0 <= k < |offers| && offers[k].sku == sku ==>
                  if sku in table.rows then after.rows[sku] == Offer(table.rows[sku], offers[k])
                  else after.rows[sku].values == offers[k].values && after.rows[sku].origin == Some(offers[k].origin))
  {
    if offers != [] {
      var n := |offers| - 1;
      StatementAt(table, offers[..n], sku);
      SkusSnoc(offers);
      forall k | 0 <= k < n && offers[k].sku == sku ensures offers[..n][k] == offers[k] { }
      assert offers[n].sku !in Skus(offers[..n]);
    }
  }

  /** Replaying the batch just applied changes no row. */
  lemma ReplayHarmless(table: Table, batch: seq<ProductUpsert>)
    ensures var once := UpsertRows(table, Dedupe(batch));
            UpsertRows(once, Dedupe(batch)).rows == once.rows
  {
    var rows := Dedupe(batch);
    var once := UpsertRows(table, rows);
    var twice := UpsertRows(once, rows);
    StatementAt(table, rows, "");
    StatementAt(once, rows, "");
    forall sku | sku in once.rows ensures twice.rows[sku] == once.rows[sku] {
      StatementAt(table, rows, sku);
      StatementAt(once, rows, sku);
      if sku in Skus(rows) {
        var k :| 0 <= k < |rows| && rows[k].sku == sku;
        assert twice.rows[sku] == Offer(once.rows[sku], rows[k]);
      }
    }
  }

  /** The offers one SKU receives, in arrival order. */
  function OffersFor(offers: seq<ProductUpsert>, sku: string): seq<ProductUpsert> {
    if offers == [] then []
    else
      var before := OffersFor(offers[..|offers| - 1], sku);
      if offers[|offers| - 1].sku == sku then before + [offers[|offers| - 1]] else before
  }

  function OfferAll(row: ProductRow, offers: seq<ProductUpsert>): ProductRow {
    if offers == [] then row else Offer(OfferAll(row, offers[..|offers| - 1]), offers[|offers| - 1])
  }

  /** A SKU's row depends on its own offers only, however batches mix it with others. */
  lemma {:induction false} RowsIndependent(table: Table, offers: seq<ProductUpsert>, sku: string)
    requires sku in table.rows
    ensures sku in UpsertRows(table, offers).rows
    ensures UpsertRows(table, offers).rows[sku] == OfferAll(table.rows[sku], OffersFor(offers, sku))
  {
    if offers != [] {
      var n := |offers| - 1;
      RowsIndependent(table, offers[..n], sku);
      var before := OffersFor(offers[..n], sku);
      assert (before + [offers[n]])[..|before|] == before;
    }
  }

  /** Everything a SKU was ever offered, and the row it started as, differ in values
      whenever they differ in provenance, and agree when they agree in it. */
  predicate PairwiseDistinct(row: ProductRow, offers: seq<ProductUpsert>) {
    && (forall i, j :: 0 <= i < |offers| && 0 <= j < |offers| ==>
          (offers[i].origin == offers[j].origin <==> offers[i].values == offers[j].values))
    && (forall i :: 0 <= i < |offers| ==>
          (row.origin == Some(offers[i].origin) <==> row.values == offers[i].values))
  }

  /** `after` is the newest of the row it started as and the offers it received. */
  predicate IsNewest(row: ProductRow, offers: seq<ProductUpsert>, after: ProductRow) {
    && after.id == row.id
    && (after == row || exists k :: 0 <= k < |offers| && after.values == offers[k].values && after.origin == Some(offers[k].origin))
    && NotBefore(after.origin, row.origin)
    && forall k :: 0 <= k < |offers| ==> NotBefore(after.origin, Some(offers[k].origin))
  }

  /** With values pairwise distinct, any arrival order ends at the greatest provenance. */
  lemma {:induction false} NewestWins(row: ProductRow, offers: seq<ProductUpsert>)
    requires PairwiseDistinct(row, offers)
    ensures IsNewest(row, offers, OfferAll(row, offers))
  {
    if offers != [] {
      var n := |offers| - 1;
      var before := offers[..n];
      NewestWins(row, before);
      var mid, after := OfferAll(row, before), OfferAll(row, offers);
      if mid != row {
        var k :| 0 <= k < n && mid.values == before[k].values && mid.origin == Some(before[k].origin);
        assert offers[k] == before[k];
      }
      if after != mid {
        assert after.values == offers[n].values && after.origin == Some(offers[n].origin);
      }
      forall k | 0 <= k < |offers| ensures NotBefore(after.origin, Some(offers[k].origin)) {
        if k < n { assert before[k] == offers[k]; }
      }
    }
  }

  /** ... so two orders of the same offers, duplicates included, end at the same row. */
  lemma ArrivalOrderIrrelevant(row: ProductRow, left: seq<ProductUpsert>, right: seq<ProductUpsert>)
    requires PairwiseDistinct(row, left)
    requires forall offer :: offer in left <==> offer in right
    ensures OfferAll(row, left) == OfferAll(row, right)
  {
    forall i | 0 <= i < |right| ensures right[i] in left { assert right[i] in right; }
    NewestWins(row, left);
    NewestWins(row, right);
    var a, b := OfferAll(row, left), OfferAll(row, right);
    if a != row {
      var k :| 0 <= k < |left| && a.values == left[k].values && a.origin == Some(left[k].origin);
      assert left[k] in right;
    }
    if b != row {
      var k :| 0 <= k < |right| && b.values == right[k].values && b.origin == Some(right[k].origin);
      assert right[k] in left;
    }
  }

  lemma OfferTwo(row: ProductRow, first: ProductUpsert, second: ProductUpsert)
    ensures OfferAll(row, [first, second]) == Offer(Offer(row, first), second)
  {
    assert [first, second][..1] == [first] && [first][..0] == [];
    assert OfferAll(row, [first]) == Offer(OfferAll(row, []), first);
  }

  /** Without that, order can matter. Of two offers the newer one always wins if it comes
      last. If it comes first, its values are lost exactly when it was skipped as no change,
      which left its provenance behind, and the older one still gets past the row's. The
      rows also part, in provenance alone, when both offer one and the same change. */
  lemma TwoOffersCommuteIff(row: ProductRow, older: ProductUpsert, newer: ProductUpsert)
    requires Later(newer.origin, older.origin)
    ensures Beats(newer, row) ==> OfferAll(row, [older, newer]).values == newer.values
    ensures OfferAll(row, [newer, older]).values == OfferAll(row, [older, newer]).values
            <==> !(Beats(older, row) && row.values == newer.values && row.values != older.values)
    ensures OfferAll(row, [newer, older]) == OfferAll(row, [older, newer])
            <==> !(Beats(older, row) && row.values != older.values
                   && (row.values == newer.values || older.values == newer.values))
  {
    OfferTwo(row, older, newer);
    OfferTwo(row, newer, older);
  }

  /** The table is not a register of the newest row: here the newest offer, an unchanged
      re-import, is overwritten by an older row of the same file that arrives after it. */
  lemma NewestOfferCanLose()
    ensures var same := Values("mug", "kitchen", 500, 7, Some(3));
            var stale := Values("mug", "kitchen", 400, 7, Some(3));
            var row := ProductRow(1, same, Some(Provenance(1, 0)));
            var newest, older := ProductUpsert("m", same, Provenance(2, 90)), ProductUpsert("m", stale, Provenance(2, 10));
            OfferAll(row, [newest, older]).values == stale
  {
    var same := Values("mug", "kitchen", 500, 7, Some(3));
    var stale := Values("mug", "kitchen", 400, 7, Some(3));
    var newest, older := ProductUpsert("m", same, Provenance(2, 90)), ProductUpsert("m", stale, Provenance(2, 10));
    OfferTwo(ProductRow(1, same, Some(Provenance(1, 0))), newest, older);
  }

  class ProductTable {
    var rows: map<string, ProductRow>
    var nextId: nat

    ghost predicate Valid()
      reads this
    {
      && (forall sku :: sku in rows ==> rows[sku].id < nextId)
      && (forall a, b :: a in rows && b in rows && a != b ==> rows[a].id != rows[b].id)
    }

    ghost function Snapshot(): Table
      reads this
    {
      Table(rows, nextId)
    }

    constructor ()
      ensures Valid() && Snapshot() == Table(map[], 1)
    {
      rows, nextId := map[], 1;
    }

    /** One row of the statement; the id comes back exactly if the row was written. */
    method WriteRow(offer: ProductUpsert) returns (returned: Option<nat>)
      requires Valid()
      modifies this
      ensures Valid() && Snapshot() == UpsertRow(old(Snapshot()), offer)
      ensures returned.Some? <==>
                (offer.sku in old(rows) ==> Beats(offer, old(rows)[offer.sku]) && old(rows)[offer.sku].values != offer.values)
      ensures returned.Some? ==> returned.value == rows[offer.sku].id
      ensures forall sku :: sku in old(rows) ==> sku in rows && rows[sku].id == old(rows[sku].id)
    {
      returned := None;
      if offer.sku !in rows {
        returned := Some(nextId);
        rows := rows[offer.sku := ProductRow(nextId, offer.values, Some(offer.origin))];
      } else if Beats(offer, rows[offer.sku]) && rows[offer.sku].values != offer.values {
        returned := Some(rows[offer.sku].id);
        rows := rows[offer.sku := ProductRow(rows[offer.sku].id, offer.values, Some(offer.origin))];
      } else {
        assert rows[offer.sku := rows[offer.sku]] == rows;
      }
      nextId := nextId + 1;
    }

    /** Stores a batch and names the product of every distinct SKU in it: the written ones
        as the statement returns them, the skipped ones looked up afterwards. None: a row
        does not fit its column, the statement threw, and nothing was stored. */
    method UpsertMany(batch: seq<ProductUpsert>) returns (ids: Option<seq<nat>>)
      requires Valid()
      modifies this
      ensures Valid() && (ids.Some? <==> Storable(Dedupe(batch)))
      ensures Snapshot() == if ids.Some? then UpsertRows(old(Snapshot()), Dedupe(batch)) else old(Snapshot())
      ensures ids.Some? ==> |ids.value| == |Skus(batch)| && Named(Dedupe(batch), ids.value)
    {
      var distinct := [];
      for i := 0 to |batch|
        invariant distinct == Dedupe(batch[..i])
      {
        distinct := Put(distinct, batch[i]);
        assert batch[..i + 1][..i] == batch[..i];
      }
      assert batch[..|batch|] == batch;
      DedupeCounts(batch);
      if !Storable(distinct) { return None; }
      var stored := Store(distinct);
      ids := Some(stored);
    }

    /** One id for each row, its own product's. */
    ghost predicate Named(distinct: seq<ProductUpsert>, ids: seq<nat>)
      reads this
    {
      && |ids| == |distinct|
      && (forall k :: 0 <= k < |ids| ==> distinct[k].sku in rows && ids[k] == rows[distinct[k].sku].id)
      && forall i, j :: 0 <= i < j < |ids| ==> ids[i] != ids[j]
    }

    /** The statement, row by row, and what it returned by SKU. */
    method WriteRows(distinct: seq<ProductUpsert>) returns (byTheirSku: map<string, nat>)
      requires Valid()
      modifies this
      ensures Valid() && Snapshot() == UpsertRows(old(Snapshot()), distinct)
      ensures forall k :: 0 <= k < |distinct| ==> distinct[k].sku in rows
      ensures forall sku :: sku in byTheirSku ==> sku in rows && byTheirSku[sku] == rows[sku].id
    {
      byTheirSku := map[];
      for i := 0 to |distinct|
        invariant Valid() && Snapshot() == UpsertRows(old(Snapshot()), distinct[..i])
        invariant forall k :: 0 <= k < i ==> distinct[k].sku in rows
        invariant forall sku :: sku in byTheirSku ==> sku in rows && byTheirSku[sku] == rows[sku].id
      {
        assert distinct[..i + 1][..i] == distinct[..i];
        var returned := WriteRow(distinct[i]);
        if returned.Some? { byTheirSku := byTheirSku[distinct[i].sku := returned.value]; }
      }
      assert distinct[..|distinct|] == distinct;
    }

    method Store(distinct: seq<ProductUpsert>) returns (ids: seq<nat>)
      requires Valid() && DistinctSkus(distinct)
      modifies this
      ensures Valid() && Snapshot() == UpsertRows(old(Snapshot()), distinct) && Named(distinct, ids)
    {
      var byTheirSku := WriteRows(distinct);
      ids := [];
      for i := 0 to |distinct|
        invariant |ids| == i
        invariant forall k :: 0 <= k < i ==> distinct[k].sku in rows && ids[k] == rows[distinct[k].sku].id
      {
        var sku := distinct[i].sku;
        ids := ids + [if sku in byTheirSku then byTheirSku[sku] else rows[sku].id];
      }
    }
  }
}
