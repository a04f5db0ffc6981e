/** Products and promotions together, from the constraints on their tables to the text in
    Redis: what a read joins is one sound row per product, and every entry a storefront can
    show is the price that one row had at the entry's token. */
module PromotedCatalogue {
  import opened Decimal
  import opened ProductStore
  import opened EffectivePrice
  import opened ProductEntries
  import opened ReadModel
  import Promotions
  import Recompute

  /** What a read selects of a product's own row. */
  datatype Columns = Columns(sku: string, name: string, category: string, basePriceCents: nat, stockQuantity: nat,
                             pricingRulesVersion: Option<nat>)

  /** The products the promotions refer to, with exact numbers and categories that are not blank. */
  predicate Fits(columns: map<nat, Columns>, t: Promotions.PromotionTable) {
    && columns.Keys == t.products.Keys && t.nextId <= MAX_SAFE_INTEGER
    && forall id :: id in columns ==>
         && columns[id].category == t.products[id] != ""
         && id <= MAX_SAFE_INTEGER && columns[id].basePriceCents <= MAX_SAFE_INTEGER && columns[id].stockQuantity <= MAX_STOCK
  }

  function CandidateOf(t: Promotions.PromotionTable, id: Option<nat>): Option<Candidate> {
    if id.None? || id.value !in t.rows then None
    else
      var p := t.rows[id.value];
      Some(Candidate(id.value, p.name, p.discountType, p.value))
  }

  function RowOf(t: Promotions.PromotionTable, c: Columns, id: nat, promotions: (Option<nat>, Option<nat>)): SourceRow {
    SourceRow(id, c.sku, c.name, c.category, c.basePriceCents, c.stockQuantity, c.pricingRulesVersion,
              CandidateOf(t, promotions.0), CandidateOf(t, promotions.1))
  }

  /** The rows the read's two left joins return for one product. */
  function JoinedRows(t: Promotions.PromotionTable, columns: map<nat, Columns>, at: nat, id: nat): set<SourceRow>
    requires id in t.products && id in columns
  {
    set promotions | promotions in Promotions.ReadRows(t, at, id) :: RowOf(t, columns[id], id, promotions)
  }

  ghost function AnyOf(ids: set<nat>): Option<nat> {
    if ids == {} then None else var id :| id in ids; Some(id)
  }

  /** What reading every product at one instant returns. */
  ghost function Read(t: Promotions.PromotionTable, columns: map<nat, Columns>, at: nat): (source: Recompute.Catalogue)
    requires Fits(columns, t)
    ensures source.Keys == columns.Keys && Recompute.CatalogueOk(source)
  {
    map id | id in columns ::
      RowOf(t, columns[id], id, (AnyOf(Promotions.ForProduct(t, at, id)), AnyOf(Promotions.ForCategory(t, at, columns[id].category))))
  }

  ghost function Table(history: seq<Promotions.Action>): Promotions.PromotionTable {
    Promotions.Run(Promotions.EMPTY, history)
  }

  /** In a reachable table the joins leave each product one row. */
  lemma JoinedIsRead(history: seq<Promotions.Action>, columns: map<nat, Columns>, at: nat, id: nat)
    requires Fits(columns, Table(history)) && id in columns
    ensures JoinedRows(Table(history), columns, at, id) == {Read(Table(history), columns, at)[id]}
  {
    var t := Table(history);
    Promotions.ReadIsOneRow(history, at, id);
    var one := (AnyOf(Promotions.ForProduct(t, at, id)), AnyOf(Promotions.ForCategory(t, at, columns[id].category)));
    assert one in Promotions.ReadRows(t, at, id);
    assert Promotions.ReadRows(t, at, id) == {one};
  }

  lemma CandidateIsSound(history: seq<Promotions.Action>, id: Option<nat>)
    requires Promotions.Named(history) && Table(history).nextId <= MAX_SAFE_INTEGER
    ensures SoundCandidate(CandidateOf(Table(history), id))
  {
    if id.Some? && id.value in Table(history).rows {
      Promotions.RunKeeps(Promotions.EMPTY, history);
      assert Promotions.RowOk(Table(history), id.value);
      Promotions.NamesAreNotBlank(history, id.value);
    }
  }

  /** ... and it is sound: a read never returns a row whose entry the reader would refuse. */
  lemma ReadIsSound(history: seq<Promotions.Action>, columns: map<nat, Columns>, at: nat, id: nat)
    requires Promotions.Named(history) && Fits(columns, Table(history)) && id in columns
    ensures Sound(Read(Table(history), columns, at)[id])
  {
    var t := Table(history);
    CandidateIsSound(history, AnyOf(Promotions.ForProduct(t, at, id)));
    CandidateIsSound(history, AnyOf(Promotions.ForCategory(t, at, columns[id].category)));
  }

  /** `source` is what a read of tables some writes led to returns at `at`. */
  ghost predicate WasRead(history: seq<Promotions.Action>, columns: map<nat, Columns>, at: nat, source: Recompute.Catalogue) {
    Promotions.Named(history) && Fits(columns, Table(history)) && source == Read(Table(history), columns, at)
  }

  /** PostgreSQL, as the writes that led to it and the products it holds, beside the handlers
      and the index. */
  datatype State = State(history: seq<Promotions.Action>, columns: map<nat, Columns>, store: Recompute.State)

  /** `Write` is any writes of promotions and products, or none: the clock alone changes what
      a read returns when it reaches the start or end of a promotion. `source` is what one
      returns from then on. */
  datatype Action =
    | Write(promotions: seq<Promotions.Action>, columns: map<nat, Columns>, source: Recompute.Catalogue, elapsed: nat)
    | Handle(a: Recompute.Action)

  ghost predicate MayWrite(s: State, history: seq<Promotions.Action>, columns: map<nat, Columns>,
                           source: Recompute.Catalogue, elapsed: nat)
  {
    && 0 < elapsed && Recompute.CatalogueOk(source) && Recompute.IdsAreNew(s.store, source)
    && WasRead(history, columns, s.store.now + elapsed, source)
  }

  ghost function Step(rules: seq<Rule>, s: State, a: Action): State {
    match a
    case Write(promotions, columns, source, elapsed) =>
      if !MayWrite(s, s.history + promotions, columns, source, elapsed) then s
      else State(s.history + promotions, columns, Recompute.Step(rules, s.store, Recompute.Change(source, elapsed)))
    case Handle(a) =>
      if a.Read? || a.Stamp? || a.Deliver? then s.(store := Recompute.Step(rules, s.store, a)) else s
  }

  ghost function Run(rules: seq<Rule>, s: State, acts: seq<Action>): State {
    if acts == [] then s else Step(rules, Run(rules, s, acts[..|acts| - 1]), acts[|acts| - 1])
  }

  /** An empty Redis beside tables some writes led to. */
  ghost predicate Starts(s: State) {
    WasRead(s.history, s.columns, s.store.now, s.store.source) && Recompute.Fresh(s.store)
  }

  /** The step the handlers' own machine takes: a change, their own, or none. */
  ghost function Projected(s: State, a: Action): (more: seq<Recompute.Action>)
    ensures |more| <= 1
  {
    match a
    case Write(promotions, columns, source, elapsed) =>
      if MayWrite(s, s.history + promotions, columns, source, elapsed) then [Recompute.Change(source, elapsed)] else []
    case Handle(a) => if a.Read? || a.Stamp? || a.Deliver? then [a] else []
  }

  ghost function Projection(rules: seq<Rule>, s: State, acts: seq<Action>): seq<Recompute.Action> {
    if acts == [] then []
    else
      var init := acts[..|acts| - 1];
      Projection(rules, s, init) + Projected(Run(rules, s, init), acts[|acts| - 1])
  }

  lemma StoreSteps(rules: seq<Rule>, s: State, a: Action)
    ensures var more := Projected(s, a);
            Step(rules, s, a).store == if more == [] then s.store else Recompute.Step(rules, s.store, more[0])
  {
  }

  lemma RunMore(rules: seq<Rule>, store: Recompute.State, before: seq<Recompute.Action>, more: seq<Recompute.Action>)
    requires |more| <= 1
    ensures Recompute.Run(rules, store, before + more)
         == if more == [] then Recompute.Run(rules, store, before)
            else Recompute.Step(rules, Recompute.Run(rules, store, before), more[0])
  {
    if more == [] {
      assert before + more == before;
    } else {
      assert (before + more)[..|before|] == before;
    }
  }

  lemma StepProjects(rules: seq<Rule>, s: State, a: Action, before: seq<Recompute.Action>, store: Recompute.State)
    requires s.store == Recompute.Run(rules, store, before)
    ensures Step(rules, s, a).store == Recompute.Run(rules, store, before + Projected(s, a))
  {
    StoreSteps(rules, s, a);
    RunMore(rules, store, before, Projected(s, a));
  }

  /** A run of the whole is a run of the handlers against what the tables showed. */
  lemma {:induction false} RunProjects(rules: seq<Rule>, s: State, acts: seq<Action>)
    ensures Run(rules, s, acts).store == Recompute.Run(rules, s.store, Projection(rules, s, acts))
    decreases |acts|
  {
    if acts != [] {
      var init := acts[..|acts| - 1];
      RunProjects(rules, s, init);
      StepProjects(rules, Run(rules, s, init), acts[|acts| - 1], Projection(rules, s, init), s.store);
    }
  }

  /** ... of the tables as they once stood on the way to `history`. */
  ghost predicate OnceRead(history: seq<Promotions.Action>, at: nat, source: Recompute.Catalogue) {
    exists past, columns :: past <= history && WasRead(past, columns, at, source)
  }

  /** Whatever was shown, at any instant, satisfies `was`. */
  ghost predicate AllShown(shown: map<nat, Recompute.Catalogue>, was: (nat, Recompute.Catalogue) -> bool) {
    forall at :: at in shown ==> was(at, shown[at])
  }

  lemma HandlersShowNothing(rules: seq<Rule>, store: Recompute.State, a: Recompute.Action)
    requires a.Read? || a.Stamp? || a.Deliver?
    ensures Recompute.Step(rules, store, a).shown == store.shown
  {
  }

  lemma ChangeShows(rules: seq<Rule>, store: Recompute.State, source: Recompute.Catalogue, elapsed: nat)
    requires Recompute.CatalogueOk(source) && Recompute.IdsAreNew(store, source) && 0 < elapsed
    ensures Recompute.Step(rules, store, Recompute.Change(source, elapsed)).shown == store.shown[store.now + elapsed := source]
  {
  }

  lemma StepShows(rules: seq<Rule>, s: State, a: Action, was: (nat, Recompute.Catalogue) -> bool)
    requires AllShown(s.store.shown, was)
    requires a.Write? && MayWrite(s, s.history + a.promotions, a.columns, a.source, a.elapsed) ==> was(s.store.now + a.elapsed, a.source)
    ensures AllShown(Step(rules, s, a).store.shown, was)
  {
    match a
    case Write(promotions, columns, source, elapsed) =>
      if MayWrite(s, s.history + promotions, columns, source, elapsed) { ChangeShows(rules, s.store, source, elapsed); }
    case Handle(a) =>
      if a.Read? || a.Stamp? || a.Deliver? { HandlersShowNothing(rules, s.store, a); }
  }

  lemma WriteIsRead(s: State, a: Action, history: seq<Promotions.Action>)
    requires a.Write? && MayWrite(s, s.history + a.promotions, a.columns, a.source, a.elapsed)
    requires s.history + a.promotions <= history
    ensures OnceRead(history, s.store.now + a.elapsed, a.source)
  {
  }

  lemma HistoryGrows(rules: seq<Rule>, s: State, a: Action)
    ensures s.history <= Step(rules, s, a).history
    ensures a.Write? && MayWrite(s, s.history + a.promotions, a.columns, a.source, a.elapsed) ==>
              Step(rules, s, a).history == s.history + a.promotions
  {
  }

  /** Whatever was ever shown was read from the tables as they stood then. */
  lemma {:induction false} RunReads(rules: seq<Rule>, s: State, acts: seq<Action>, history: seq<Promotions.Action>)
    requires Starts(s) && Run(rules, s, acts).history <= history
    ensures AllShown(Run(rules, s, acts).store.shown, (at, source) => OnceRead(history, at, source))
    decreases |acts|
  {
    if acts == [] {
      assert OnceRead(history, s.store.now, s.store.source);
    } else {
      var init, a := acts[..|acts| - 1], acts[|acts| - 1];
      var mid := Run(rules, s, init);
      HistoryGrows(rules, mid, a);
      RunReads(rules, s, init, history);
      if a.Write? && MayWrite(mid, mid.history + a.promotions, a.columns, a.source, a.elapsed) { WriteIsRead(mid, a, history); }
      StepShows(rules, mid, a, (at, source) => OnceRead(history, at, source));
    }
  }

  /** The promotion was active at `at`, for this product or its category, and no other was
      for the same target. */
  ghost predicate AppliesAlone(t: Promotions.PromotionTable, at: nat, id: nat, category: string, promotion: nat) {
    && promotion in Promotions.ActiveAt(t, at)
    && (t.rows[promotion].productId == Some(id) || t.rows[promotion].category == Some(category))
    && forall other :: other in Promotions.ActiveAt(t, at) && Promotions.SameTarget(t.rows[other], t.rows[promotion]) ==>
         other == promotion
  }

  /** A row's two candidates: the promotion active then for the product itself, and the one
      active then for its category; none where there is none. */
  ghost predicate Sides(t: Promotions.PromotionTable, at: nat, id: nat, category: string, row: SourceRow) {
    && (row.productPromotion.Some? ==>
          var c := row.productPromotion.value;
          && c.id in Promotions.ActiveAt(t, at) && t.rows[c.id].productId == Some(id)
          && c == Candidate(c.id, t.rows[c.id].name, t.rows[c.id].discountType, t.rows[c.id].value))
    && (row.productPromotion.None? ==> forall p :: p in Promotions.ActiveAt(t, at) ==> t.rows[p].productId != Some(id))
    && (row.categoryPromotion.Some? ==>
          var c := row.categoryPromotion.value;
          && c.id in Promotions.ActiveAt(t, at) && t.rows[c.id].category == Some(category)
          && c == Candidate(c.id, t.rows[c.id].name, t.rows[c.id].discountType, t.rows[c.id].value))
    && (row.categoryPromotion.None? ==> forall p :: p in Promotions.ActiveAt(t, at) ==> t.rows[p].category != Some(category))
  }

  lemma AnyIsOne(ids: set<nat>)
    ensures AnyOf(ids).Some? ==> AnyOf(ids).value in ids
  {
  }

  lemma ReadHasSides(t: Promotions.PromotionTable, columns: map<nat, Columns>, at: nat, id: nat)
    requires Fits(columns, t) && id in columns
    ensures Sides(t, at, id, columns[id].category, Read(t, columns, at)[id])
  {
    var own, shared := Promotions.ForProduct(t, at, id), Promotions.ForCategory(t, at, columns[id].category);
    AnyIsOne(own);
    AnyIsOne(shared);
    forall p | p in Promotions.ActiveAt(t, at) && t.rows[p].productId == Some(id) ensures own != {} { assert p in own; }
    forall p | p in Promotions.ActiveAt(t, at) && t.rows[p].category == Some(columns[id].category) ensures shared != {} {
      assert p in shared;
    }
  }

  /** The entry is what the tables said of the product at `at`: priced from the one row the
      read joins, under a promotion that applied then or at the base price, and legible. */
  ghost predicate Stands(rules: seq<Rule>, t: Promotions.PromotionTable, columns: map<nat, Columns>, at: nat, id: nat,
                         entry: ProductEntry)
  {
    && id in columns && id in t.products
    && (exists row :: JoinedRows(t, columns, at, id) == {row} && Sides(t, at, id, columns[id].category, row) && entry == Price(rules, row))
    && (match entry.promotionId
        case None => entry.effectivePriceCents == columns[id].basePriceCents
        case Some(promotion) =>
          && AppliesAlone(t, at, id, columns[id].category, promotion)
          && Calculate(columns[id].basePriceCents, CandidateOf(t, Some(promotion)).value) == Priced(entry.effectivePriceCents))
    && forall stamp :: Parse(Stored(entry, stamp)) == Some(ViewOf(entry))
  }

  lemma ActiveAlone(history: seq<Promotions.Action>, at: nat, id: nat, category: string, promotion: nat)
    requires promotion in Promotions.ActiveAt(Table(history), at)
    requires Table(history).rows[promotion].productId == Some(id) || Table(history).rows[promotion].category == Some(category)
    ensures AppliesAlone(Table(history), at, id, category, promotion)
  {
    forall other | other in Promotions.ActiveAt(Table(history), at)
                   && Promotions.SameTarget(Table(history).rows[other], Table(history).rows[promotion])
      ensures other == promotion
    {
      Promotions.OnePerTarget(history, at, other, promotion);
    }
  }

  lemma PricedStands(rules: seq<Rule>, history: seq<Promotions.Action>, columns: map<nat, Columns>, at: nat, id: nat)
    requires Promotions.Named(history) && Fits(columns, Table(history)) && id in columns
    ensures Stands(rules, Table(history), columns, at, id, Price(rules, Read(Table(history), columns, at)[id]))
  {
    var t := Table(history);
    var row := Read(t, columns, at)[id];
    var entry := Price(rules, row);
    JoinedIsRead(history, columns, at, id);
    ReadIsSound(history, columns, at, id);
    forall stamp ensures Parse(Stored(entry, stamp)) == Some(ViewOf(entry)) { SoundRowReadsBack(rules, row, stamp); }
    ReadHasSides(t, columns, at, id);
    PromotionStands(rules, history, columns, at, id);
  }

  lemma PromotionStands(rules: seq<Rule>, history: seq<Promotions.Action>, columns: map<nat, Columns>, at: nat, id: nat)
    requires Fits(columns, Table(history)) && id in columns
    ensures var t := Table(history);
            var entry := Price(rules, Read(t, columns, at)[id]);
            match entry.promotionId
            case None => entry.effectivePriceCents == columns[id].basePriceCents
            case Some(promotion) =>
              && AppliesAlone(t, at, id, columns[id].category, promotion)
              && Calculate(columns[id].basePriceCents, CandidateOf(t, Some(promotion)).value) == Priced(entry.effectivePriceCents)
  {
    var t := Table(history);
    var row := Read(t, columns, at)[id];
    PriceIsExplained(rules, row);
    AnyIsOne(Promotions.ForProduct(t, at, id));
    AnyIsOne(Promotions.ForCategory(t, at, columns[id].category));
    var entry := Price(rules, row);
    if entry.promotionId.Some? {
      var promotion :| (row.productPromotion == Some(promotion) || row.categoryPromotion == Some(promotion))
                       && entry.promotionId == Some(promotion.id)
                       && Calculate(row.basePriceCents, promotion) == Priced(entry.effectivePriceCents);
      ActiveAlone(history, at, id, columns[id].category, promotion.id);
    }
  }

  /** What the storefront shows, end to end: under every interleaving of promotion writes,
      product writes and the clock with handlers that read at one instant and deliver later,
      each entry is the price of the one row the read joined at the entry's token, under the
      one promotion of its target active then or at the base price, and it parses back; and a
      product without an entry is unlisted. */
  lemma {:induction false} ShownIsPromoted(rules: seq<Rule>, s0: State, acts: seq<Action>, id: nat)
    requires Starts(s0)
    ensures var s := Run(rules, s0, acts);
            var ix := s.store.index;
            if id !in ix.entries then Unlisted(ix, id)
            else
              && id in ix.tokens && Listed(ix, id, ix.entries[id])
              && exists past, columns ::
                   past <= s.history && Stands(rules, Table(past), columns, ix.tokens[id].at, id, ix.entries[id])
  {
    var s := Run(rules, s0, acts);
    RunProjects(rules, s0, acts);
    RunReads(rules, s0, acts, s.history);
    Recompute.CacheAgrees(rules, s0.store, Projection(rules, s0, acts), id);
    if id in s.store.index.entries {
      var at := s.store.index.tokens[id].at;
      assert OnceRead(s.history, at, s.store.shown[at]);
      var past, columns :| past <= s.history && WasRead(past, columns, at, s.store.shown[at]);
      PricedStands(rules, past, columns, at, id);
    }
  }
}
