/** Rebuilding the read model from a catalogue that stands still, through the same scripts
    and beside whatever the index already holds. */
module Rebuild {
  import opened ProductStore
  import opened EffectivePrice
  import opened ProductEntries
  import opened ReadModel
  import opened ReadModelStore
  import opened Recompute

  const PAGE := 1_000

  /** A keyset page over `ids`: the first of them past `afterId`, in order, at most `PAGE`. */
  ghost predicate IsPage(ids: set<nat>, afterId: nat, page: seq<nat>) {
    && |page| <= PAGE
    && (forall k :: 0 <= k < |page| ==> page[k] in ids && afterId < page[k])
    && (forall j, k :: 0 <= j < k < |page| ==> page[j] < page[k])
    && (forall id :: id in ids && afterId < id ==> id in page || (|page| == PAGE && page[|page| - 1] < id))
  }

  /** The rows a read of `ids` returns: each product that exists, once, in any order. */
  ghost predicate IsRead(source: Catalogue, ids: seq<nat>, rows: seq<SourceRow>) {
    && (forall k :: 0 <= k < |rows| ==> rows[k].id in ids && rows[k].id in source && rows[k] == source[rows[k].id])
    && (forall id :: id in ids && id in source ==> exists k :: 0 <= k < |rows| && rows[k].id == id)
  }

  /** What PostgreSQL and Redis answer during the rebuild: the instant and the rows of the
      `k`-th read, keyset pages, the members of a category's set, and the pages of a scan. */
  datatype World = World(clock: nat -> nat, rows: (nat, seq<nat>) -> seq<SourceRow>,
                         page: nat -> seq<nat>, categoryPage: (string, nat) -> seq<nat>,
                         members: set<nat> -> seq<nat>, scan: set<nat> -> seq<seq<nat>>)

  function InCategory(source: Catalogue, category: string): set<nat> {
    set id | id in source && source[id].category == category
  }

  /** `ZRANGE` over a whole set: every member once. */
  ghost predicate IsListing(ids: set<nat>, listed: seq<nat>) {
    multiset(listed) == multiset(ids)
  }

  /** `SCAN`: every key there from first to last is in some page; others may be, and twice. */
  ghost predicate Scans(ids: set<nat>, pages: seq<seq<nat>>) {
    forall id :: id in ids ==> exists p :: 0 <= p < |pages| && id in pages[p]
  }

  ghost predicate Fits(world: World, source: Catalogue, since: nat) {
    && (forall k :: since <= world.clock(k))
    && (forall k, ids :: IsRead(source, ids, world.rows(k, ids)))
    && (forall afterId :: IsPage(source.Keys, afterId, world.page(afterId)))
    && (forall ids :: IsListing(ids, world.members(ids)) && Scans(ids, world.scan(ids)))
    && (forall category, afterId :: IsPage(InCategory(source, category), afterId, world.categoryPage(category, afterId)))
  }

  /** The product's newest message says what the catalogue says. */
  predicate Current(rules: seq<Rule>, source: Catalogue, winners: map<nat, Message>, id: nat)
    requires CatalogueOk(source)
  {
    id in winners && winners[id] == Recomputed(rules, source, winners[id].at, id)
  }

  /** Whatever is not what the catalogue says was read before the rebuild began. */
  predicate Behind(rules: seq<Rule>, source: Catalogue, winners: map<nat, Message>, since: nat)
    requires CatalogueOk(source)
  {
    forall id :: id in winners ==> winners[id].at < since || Current(rules, source, winners, id)
  }

  /** Any index a run of handlers has left is one a rebuild may start from, at any later
      instant: it shows its winning messages, all of them read before then. */
  lemma ReachableIsBehind(rules: seq<Rule>, s0: State, acts: seq<Action>, source: Catalogue, since: nat)
    requires Fresh(s0) && CatalogueOk(source) && Run(rules, s0, acts).now < since
    ensures var s := Run(rules, s0, acts);
            Shows(s.index, Winners(s.delivered)) && Behind(rules, source, Winners(s.delivered), since)
  {
    RunKeeps(rules, s0, acts);
    var s := Run(rules, s0, acts);
    DeliveredWellFormed(rules, s.shown, s.delivered);
    RunShows(s.delivered);
    var winners := Winners(s.delivered);
    forall id | id in winners ensures winners[id].at < since {
      WinnerIsNewest(s.delivered, id);
      var k :| 0 <= k < |s.delivered| && s.delivered[k] == winners[id];
      assert True(rules, s.shown, s.delivered[k]);
    }
  }

  /** A batch of recomputes made at one instant, as the products see it. */
  lemma {:induction false} BatchWins(rules: seq<Rule>, source: Catalogue, start: map<nat, Message>, at: nat, ms: seq<Message>, id: nat)
    requires CatalogueOk(source)
    requires forall k :: 0 <= k < |ms| ==> ms[k] == Recomputed(rules, source, at, ms[k].Id())
    ensures Winner(WinnersFrom(start, ms), id)
         == if (exists k :: 0 <= k < |ms| && ms[k].Id() == id) && !NewestIsOld(Winner(start, id), Recomputed(rules, source, at, id))
            then Some(Recomputed(rules, source, at, id)) else Winner(start, id)
    decreases |ms|
  {
    if ms != [] {
      var init, m := ms[..|ms| - 1], ms[|ms| - 1];
      BatchWins(rules, source, start, at, init, id);
      assert ms == init + [m];
      assert ms[|ms| - 1].Id() == m.Id();
    }
  }

  /** A recompute made since the rebuild began leaves its products current. */
  lemma BatchIsCurrent(rules: seq<Rule>, source: Catalogue, start: map<nat, Message>, since: nat, at: nat, ms: seq<Message>, id: nat)
    requires CatalogueOk(source) && Behind(rules, source, start, since) && since <= at
    requires forall k :: 0 <= k < |ms| ==> ms[k] == Recomputed(rules, source, at, ms[k].Id())
    ensures var after := WinnersFrom(start, ms);
            if exists k :: 0 <= k < |ms| && ms[k].Id() == id then Current(rules, source, after, id)
            else Winner(after, id) == Winner(start, id)
  {
    BatchWins(rules, source, start, at, ms, id);
  }

  /** From `start` to `after`, exactly the products of `ids` were brought up to date. */
  ghost predicate BroughtUp(rules: seq<Rule>, source: Catalogue, start: map<nat, Message>, after: map<nat, Message>, ids: set<nat>)
    requires CatalogueOk(source)
  {
    forall id: nat :: if id in ids then Current(rules, source, after, id) else Winner(after, id) == Winner(start, id)
  }

  lemma BatchBringsUp(rules: seq<Rule>, source: Catalogue, start: map<nat, Message>, since: nat, at: nat, ms: seq<Message>)
    requires CatalogueOk(source) && Behind(rules, source, start, since) && since <= at
    requires forall k :: 0 <= k < |ms| ==> ms[k] == Recomputed(rules, source, at, ms[k].Id())
    ensures var after := WinnersFrom(start, ms);
            BroughtUp(rules, source, start, after, IdsOf(ms)) && Behind(rules, source, after, since)
  {
    var after := WinnersFrom(start, ms);
    var ids := IdsOf(ms);
    forall id: nat
      ensures if id in ids then Current(rules, source, after, id) else Winner(after, id) == Winner(start, id)
    {
      BatchIsCurrent(rules, source, start, since, at, ms, id);
    }
    forall id | id in after ensures after[id].at < since || Current(rules, source, after, id) {
      assert id in ids || Winner(after, id) == Winner(start, id);
    }
  }

  lemma BroughtUpTwice(rules: seq<Rule>, source: Catalogue, start: map<nat, Message>, mid: map<nat, Message>,
                       after: map<nat, Message>, some: set<nat>, more: set<nat>)
    requires CatalogueOk(source)
    requires BroughtUp(rules, source, start, mid, some) && BroughtUp(rules, source, mid, after, more)
    ensures BroughtUp(rules, source, start, after, some + more)
  {
    forall id: nat
      ensures if id in some + more then Current(rules, source, after, id) else Winner(after, id) == Winner(start, id)
    {
      assert if id in some then Current(rules, source, mid, id) else Winner(mid, id) == Winner(start, id);
      assert if id in more then Current(rules, source, after, id) else Winner(after, id) == Winner(mid, id);
    }
  }

  /** The writes of one handler: an entry per row found. */
  function Writes(rules: seq<Rule>, rows: seq<SourceRow>, at: nat): (ms: seq<Message>)
    ensures |ms| == |rows| && forall k :: 0 <= k < |ms| ==> ms[k] == Write(Price(rules, rows[k]), at)
  {
    if rows == [] then [] else [Write(Price(rules, rows[0]), at)] + Writes(rules, rows[1..], at)
  }

  /** Its removals: one per id asked for that no row came back for. */
  function Removals(ids: seq<nat>, found: set<nat>, at: nat): (ms: seq<Message>)
    ensures forall k :: 0 <= k < |ms| ==> ms[k].Remove? && ms[k].at == at && ms[k].gone in ids && ms[k].gone !in found
    ensures forall id :: id in ids && id !in found ==> Remove(id, at) in ms
  {
    if ids == [] then []
    else (if ids[0] in found then [] else [Remove(ids[0], at)]) + Removals(ids[1..], found, at)
  }

  function Found(rows: seq<SourceRow>): set<nat> {
    set k | 0 <= k < |rows| :: rows[k].id
  }

  function IdsOf(ms: seq<Message>): set<nat> {
    set k | 0 <= k < |ms| :: ms[k].Id()
  }

  predicate AllRecomputed(rules: seq<Rule>, source: Catalogue, at: nat, ms: seq<Message>)
    requires CatalogueOk(source)
  {
    forall k :: 0 <= k < |ms| ==> ms[k] == Recomputed(rules, source, at, ms[k].Id())
  }

  lemma WritesRecompute(rules: seq<Rule>, source: Catalogue, ids: seq<nat>, rows: seq<SourceRow>, at: nat)
    requires CatalogueOk(source) && IsRead(source, ids, rows)
    ensures AllRecomputed(rules, source, at, Writes(rules, rows, at))
    ensures IdsOf(Writes(rules, rows, at)) == Found(rows)
    ensures forall id :: id in Found(rows) <==> id in ids && id in source
  {
    var ms := Writes(rules, rows, at);
    forall k | 0 <= k < |ms| ensures ms[k].Id() == rows[k].id {}
  }

  lemma RemovalsRecompute(rules: seq<Rule>, source: Catalogue, ids: seq<nat>, found: set<nat>, at: nat)
    requires CatalogueOk(source) && forall id :: id in found <==> id in ids && id in source
    ensures AllRecomputed(rules, source, at, Removals(ids, found, at))
    ensures found + IdsOf(Removals(ids, found, at)) == Elems(ids)
  {
    var ms := Removals(ids, found, at);
    forall id | id in ids && id !in found ensures id in IdsOf(ms) {
      var k :| 0 <= k < |ms| && ms[k] == Remove(id, at);
      assert ms[k].Id() == id;
    }
  }

  /** A strictly increasing page lists each of its ids once. */
  lemma {:induction false} IncreasingOnce(page: seq<nat>)
    requires forall j, k :: 0 <= j < k < |page| ==> page[j] < page[k]
    ensures multiset(page) == multiset(Elems(page)) && |Elems(page)| == |page|
    decreases |page|
  {
    if page != [] {
      var init, last := page[..|page| - 1], page[|page| - 1];
      IncreasingOnce(init);
      assert page == init + [last];
      assert Elems(page) == Elems(init) + {last};
    }
  }

  function UpTo(ids: set<nat>, afterId: nat): set<nat> {
    set id | id in ids && id <= afterId
  }

  /** What one page further on adds. */
  ghost predicate PageAdds(ids: set<nat>, afterId: nat, page: seq<nat>)
    requires page != []
  {
    var upTo := UpTo(ids, page[|page| - 1]);
    && upTo == UpTo(ids, afterId) + Elems(page) && UpTo(ids, afterId) !! Elems(page)
    && multiset(upTo) == multiset(UpTo(ids, afterId)) + multiset(page)
    && |upTo| == |UpTo(ids, afterId)| + |page|
    && |ids - upTo| < |ids - UpTo(ids, afterId)|
  }

  lemma NextPage(ids: set<nat>, afterId: nat, page: seq<nat>)
    requires IsPage(ids, afterId, page) && page != []
    ensures PageAdds(ids, afterId, page)
  {
    IncreasingOnce(page);
    var last := page[|page| - 1];
    assert last in Elems(page);
    assert forall id :: id in UpTo(ids, last) && afterId < id ==> id in Elems(page);
    forall id | id in Elems(page) ensures id in UpTo(ids, last) && id !in UpTo(ids, afterId) {
      var k :| 0 <= k < |page| && page[k] == id;
    }
    assert UpTo(ids, last) == UpTo(ids, afterId) + Elems(page);
    SubsetsShrink(ids - UpTo(ids, last), ids - UpTo(ids, afterId));
  }

  lemma SubsetsShrink(some: set<nat>, all: set<nat>)
    requires some < all
    ensures |some| < |all|
  {
    assert all == some + (all - some) && all - some != {};
  }

  /** The command: it knows the source and the read model only through their statements.
      `winners` and `handed` are history: what each product's newest message says, and every
      id given to the recompute, as often as it was. */
  class RebuildCommand {
    const store: Store
    const rules: seq<Rule>
    const source: Catalogue
    const world: World
    ghost const since: nat
    var calls: nat
    ghost var winners: map<nat, Message>
    ghost var handed: multiset<nat>

    ghost predicate Valid()
      reads this, store
    {
      && CatalogueOk(source) && 0 !in source && Fits(world, source, since)
      && store.Valid() && Shows(store.Contents(), winners) && Behind(rules, source, winners, since)
    }

    /** An index that any run may have left, all of it read before the rebuild begins or
        already saying what the catalogue says. */
    constructor (store: Store, rules: seq<Rule>, source: Catalogue, world: World, ghost since: nat, ghost winners: map<nat, Message>)
      requires CatalogueOk(source) && 0 !in source && Fits(world, source, since)
      requires store.Valid() && Shows(store.Contents(), winners) && Behind(rules, source, winners, since)
      ensures Valid() && this.store == store && this.rules == rules && this.source == source && this.winners == winners
    {
      this.store, this.rules, this.source, this.world, this.since, this.winners := store, rules, source, world, since, winners;
      calls, handed := 0, multiset{};
    }

    /** Sends one script per message and keeps account of what they say. */
    method Send(ms: seq<Message>, ghost at: nat)
      requires Valid() && since <= at && AllRecomputed(rules, source, at, ms)
      modifies store, this`winners
      ensures Valid() && store.ready == old(store.ready)
      ensures BroughtUp(rules, source, old(winners), winners, IdsOf(ms))
    {
      BatchBringsUp(rules, source, winners, since, at, ms);
      ApplyAllShows(store.Contents(), winners, ms);
      var _ := store.AppliedAll(ms);
      winners := WinnersFrom(winners, ms);
    }

    /** Reads the batch at one instant, writes what was found and removes the rest. */
    method Handle(productIds: seq<nat>)
      requires Valid()
      modifies store, this`winners, this`calls, this`handed
      ensures Valid() && store.ready == old(store.ready) && handed == old(handed) + multiset(productIds)
      ensures BroughtUp(rules, source, old(winners), winners, Elems(productIds))
    {
      var at, rows := world.clock(calls), world.rows(calls, productIds);
      calls, handed := calls + 1, handed + multiset(productIds);
      WritesRecompute(rules, source, productIds, rows, at);
      RemovalsRecompute(rules, source, productIds, Found(rows), at);
      ghost var start := winners;
      Send(Writes(rules, rows, at), at);
      ghost var mid := winners;
      Send(Removals(productIds, Found(rows), at), at);
      BroughtUpTwice(rules, source, start, mid, winners, Found(rows), IdsOf(Removals(productIds, Found(rows), at)));
    }

    ghost function Paged(category: Option<string>): set<nat> {
      if category.None? then source.Keys else InCategory(source, category.value)
    }

    method FetchPage(category: Option<string>, afterId: nat) returns (page: seq<nat>)
      requires Fits(world, source, since)
      ensures if page == [] then UpTo(Paged(category), afterId) == Paged(category) else PageAdds(Paged(category), afterId, page)
    {
      page := if category.None? then world.page(afterId) else world.categoryPage(category.value, afterId);
      assert IsPage(Paged(category), afterId, page);
      if page == [] {
        assert UpTo(Paged(category), afterId) == Paged(category);
      } else {
        NextPage(Paged(category), afterId, page);
      }
    }

    /** So far `handled` was handed over and brought up to date, each id once, and no more. */
    ghost predicate Progress(start: map<nat, Message>, before: multiset<nat>, handled: set<nat>)
      reads this, store
    {
      Valid() && handed == before + multiset(handled) && BroughtUp(rules, source, start, winners, handled)
    }

    /** One turn: the next page, recomputed; none when the source is exhausted. */
    method TakePage(category: Option<string>, afterId: nat, ghost start: map<nat, Message>, ghost before: multiset<nat>)
      returns (productIds: seq<nat>)
      requires Progress(start, before, UpTo(Paged(category), afterId))
      modifies store, this`winners, this`calls, this`handed
      ensures store.ready == old(store.ready)
      ensures productIds == [] ==> UpTo(Paged(category), afterId) == Paged(category) && Progress(start, before, Paged(category))
      ensures productIds != [] ==>
                Progress(start, before, UpTo(Paged(category), productIds[|productIds| - 1]))
                && PageAdds(Paged(category), afterId, productIds)
    {
      productIds := FetchPage(category, afterId);
      if productIds == [] { return; }
      TurnPage(productIds, start, before, UpTo(Paged(category), afterId), UpTo(Paged(category), productIds[|productIds| - 1]));
    }

    /** The products of one page, after those already handled. */
    method TurnPage(productIds: seq<nat>, ghost start: map<nat, Message>, ghost before: multiset<nat>,
                    ghost handled: set<nat>, ghost next: set<nat>)
      requires Progress(start, before, handled)
      requires next == handled + Elems(productIds) && multiset(next) == multiset(handled) + multiset(productIds)
      modifies store, this`winners, this`calls, this`handed
      ensures Progress(start, before, next) && store.ready == old(store.ready)
    {
      HandleMore(productIds, start, handled);
    }

    method HandleMore(productIds: seq<nat>, ghost start: map<nat, Message>, ghost handled: set<nat>)
      requires Valid() && BroughtUp(rules, source, start, winners, handled)
      modifies store, this`winners, this`calls, this`handed
      ensures Valid() && store.ready == old(store.ready) && handed == old(handed) + multiset(productIds)
      ensures BroughtUp(rules, source, start, winners, handled + Elems(productIds))
    {
      ghost var mid := winners;
      Handle(productIds);
      BroughtUpTwice(rules, source, start, mid, winners, handled, Elems(productIds));
    }

    /** Every id of the source, page by page, once. */
    method RecomputePages(category: Option<string>) returns (seen: nat, handled: set<nat>)
      requires Valid()
      modifies store, this`winners, this`calls, this`handed
      ensures Progress(old(winners), old(handed), Paged(category)) && store.ready == old(store.ready)
      ensures handled == Paged(category) && seen == |handled|
    {
      var afterId := 0;
      seen, handled := 0, {};
      assert UpTo(Paged(category), 0) == {};
      while true
        invariant Progress(old(winners), old(handed), UpTo(Paged(category), afterId)) && store.ready == old(store.ready)
        invariant handled == UpTo(Paged(category), afterId) && seen == |handled|
        decreases |Paged(category) - UpTo(Paged(category), afterId)|
      {
        var productIds := TakePage(category, afterId, old(winners), old(handed));
        if productIds == [] { return; }
        handled := handled + Elems(productIds);
        seen := seen + |productIds|;
        afterId := productIds[|productIds| - 1];
      }
    }

    /** Whatever the index still lists and the source no longer holds is recomputed, which
        removes it. */
    method DropOrphans() returns (dropped: nat, ghost gone: set<nat>)
      requires Valid()
      modifies store, this`winners, this`calls, this`handed
      ensures Valid() && store.ready == old(store.ready) && |handed| == old(|handed|) + dropped
      ensures gone !! source.Keys && old(store.entries).Keys <= source.Keys + gone
      ensures BroughtUp(rules, source, old(winners), winners, gone)
    {
      ghost var keys, start := store.entries.Keys, winners;
      var pages := world.scan(store.entries.Keys);
      assert Scans(keys, pages);
      dropped, gone := 0, {};
      for p := 0 to |pages|
        invariant Valid() && store.ready == old(store.ready) && |handed| == old(|handed|) + dropped
        invariant gone !! source.Keys && BroughtUp(rules, source, start, winners, gone)
        invariant forall q :: 0 <= q < p ==> Elems(pages[q]) <= source.Keys + gone
      {
        var orphans := Missing(pages[p], source.Keys);
        if |orphans| > 0 {
          HandleMore(orphans, start, gone);
          dropped, gone := dropped + |orphans|, gone + Elems(orphans);
        }
        assert Elems(pages[p]) <= source.Keys + gone by {
          if |orphans| == 0 { assert Elems(orphans) == {}; }
        }
      }
      forall id | id in keys ensures id in source.Keys + gone {
        var p :| 0 <= p < |pages| && id in pages[p];
        assert id in Elems(pages[p]);
      }
    }

    /** The index is the priced catalogue and nothing else. */
    ghost predicate Exact()
      reads this, store
      requires CatalogueOk(source)
    {
      forall id: nat :: if id in source then Listed(store.Contents(), id, Price(rules, source[id])) else Unlisted(store.Contents(), id)
    }

    /** Against a catalogue that stands still, and from any index a run may have left, the
        rebuild ends with exactly the priced catalogue, every orphan tombstoned, and only
        then opens the storefront. */
    method RebuildAll()
      requires Valid()
      modifies store, this`winners, this`calls, this`handed
      ensures Valid() && store.ready && Exact()
      ensures forall id :: id in old(store.entries) && id !in source ==>
                id in store.Contents().tokens && store.Contents().tokens[id].category == ""
    {
      ghost var start, before := winners, store.Contents();
      var products, _ := RecomputePages(None);
      ghost var mid, between := winners, store.Contents();
      var dropped, gone := DropOrphans();
      RebuiltExactly(rules, source, start, before, mid, between, winners, store.Contents(), gone);
      store.ready := true;
    }

    /** Whatever the source has in the category, and whatever its sorted set lists besides:
        each recomputed once, which leaves the set exactly the source's. */
    method RebuildCategory(category: string) returns (total: nat)
      requires Valid() && category != ""
      modifies store, this`winners, this`calls, this`handed
      ensures store.ready == old(store.ready)
      ensures CategoryRebuilt(category, old(winners), old(store.Contents()), old(handed), total)
    {
      ghost var start, before, was := winners, store.Contents(), handed;
      var recomputed, handled := RecomputePages(Some(category));
      var more := FinishCategory(category, handled, start, before, was);
      total := recomputed + more;
    }

    ghost predicate CategoryRebuilt(category: string, start: map<nat, Message>, before: Index, was: multiset<nat>, total: nat)
      reads this, store
    {
      && Valid() && UnionRecomputed(rules, source, category, start, before, winners, was, handed, total)
      && Members(store.Contents(), category) == InCategory(source, category)
    }

    /** What the set lists and the source does not, after the source's own. */
    method FinishCategory(category: string, handled: set<nat>, ghost start: map<nat, Message>, ghost before: Index,
                          ghost was: multiset<nat>) returns (more: nat)
      requires handled == InCategory(source, category) && Progress(start, was, handled) && Shows(before, start)
      modifies store, this`winners, this`calls, this`handed
      ensures store.ready == old(store.ready)
      ensures CategoryRebuilt(category, start, before, was, |handled| + more)
    {
      ghost var mid, between := winners, store.Contents();
      more := RecomputeListed(category, handled);
      CategoryDone(rules, source, category, start, before, mid, between, winners, store.Contents(),
                   Members(between, category) - handled, was);
    }

    method RecomputeListed(category: string, handled: set<nat>) returns (more: nat)
      requires Valid()
      modifies store, this`winners, this`calls, this`handed
      ensures Valid() && store.ready == old(store.ready)
      ensures var left := old(Members(store.Contents(), category)) - handled;
              && more == |left| && handed == old(handed) + multiset(left)
              && BroughtUp(rules, source, old(winners), winners, left)
    {
      var members := Members(Index(map[], map[], store.scores, map[]), category);
      var listed := world.members(members);
      assert IsListing(members, listed);
      var left := Missing(listed, handled);
      ListedOnce(members, listed, handled);
      RecomputeLeft(left);
      more := |left|;
    }

    /** The ids left over, a page at a time. */
    method RecomputeLeft(left: seq<nat>)
      requires Valid()
      modifies store, this`winners, this`calls, this`handed
      ensures Valid() && store.ready == old(store.ready) && handed == old(handed) + multiset(left)
      ensures BroughtUp(rules, source, old(winners), winners, Elems(left))
    {
      ghost var start := winners;
      var from := 0;
      assert left[..0] == [];
      while from < |left|
        invariant from <= |left| && Valid() && store.ready == old(store.ready)
        invariant handed == old(handed) + multiset(left[..from])
        invariant BroughtUp(rules, source, start, winners, Elems(left[..from]))
      {
        var upTo := if from + PAGE < |left| then from + PAGE else |left|;
        HandleMore(left[from..upTo], start, Elems(left[..from]));
        Sliced(left, from, upTo);
        from := upTo;
      }
      assert left[..|left|] == left;
    }
  }

  lemma Sliced(ids: seq<nat>, from: nat, upTo: nat)
    requires from <= upTo <= |ids|
    ensures Elems(ids[..upTo]) == Elems(ids[..from]) + Elems(ids[from..upTo])
    ensures multiset(ids[..upTo]) == multiset(ids[..from]) + multiset(ids[from..upTo])
  {
    assert ids[..upTo] == ids[..from] + ids[from..upTo];
  }

  /** The products a category's sorted set lists. */
  function Members(ix: Index, category: string): set<nat> {
    set key | key in ix.scores && key.0 == category :: key.1
  }

  lemma OnceInRest(ids: seq<nat>)
    requires ids != [] && forall id :: multiset(ids)[id] <= 1
    ensures forall id :: multiset(ids[1..])[id] <= 1
    ensures ids[0] !in Elems(ids[1..]) && Elems(ids) == {ids[0]} + Elems(ids[1..])
  {
    assert ids == [ids[0]] + ids[1..];
    assert multiset(ids) == multiset{ids[0]} + multiset(ids[1..]);
    forall id ensures multiset(ids[1..])[id] <= 1 {
      assert multiset(ids)[id] <= 1;
    }
    assert ids[0] !in ids[1..] by { assert multiset(ids)[ids[0]] <= 1; }
  }

  lemma {:induction false} MissingOnce(ids: seq<nat>, present: set<nat>)
    requires forall id :: multiset(ids)[id] <= 1
    ensures multiset(Missing(ids, present)) == multiset(Elems(ids) - present)
    ensures |Missing(ids, present)| == |Elems(ids) - present|
  {
    if ids != [] {
      OnceInRest(ids);
      MissingOnce(ids[1..], present);
      var rest := Missing(ids[1..], present);
      if ids[0] in present {
        assert Elems(ids) - present == Elems(ids[1..]) - present;
      } else {
        assert multiset([ids[0]] + rest) == multiset{ids[0]} + multiset(rest);
        assert Elems(ids) - present == {ids[0]} + (Elems(ids[1..]) - present);
      }
    }
  }

  lemma ListedOnce(members: set<nat>, listed: seq<nat>, handled: set<nat>)
    requires IsListing(members, listed)
    ensures Elems(Missing(listed, handled)) == members - handled
    ensures multiset(Missing(listed, handled)) == multiset(members - handled)
    ensures |Missing(listed, handled)| == |members - handled|
  {
    forall id ensures (id in listed <==> id in members) && multiset(listed)[id] <= 1 {
      assert multiset(listed)[id] == multiset(members)[id];
    }
    assert Elems(listed) == members;
    MissingOnce(listed, handled);
  }

  lemma DisjointAdds(some: set<nat>, more: set<nat>)
    requires some !! more
    ensures |some + more| == |some| + |more| && multiset(some + more) == multiset(some) + multiset(more)
  {
  }

  lemma CategoryExact(rules: seq<Rule>, source: Catalogue, category: string, start: map<nat, Message>, before: Index,
                      mid: map<nat, Message>, between: Index, after: map<nat, Message>, ix: Index, left: set<nat>)
    requires CatalogueOk(source) && Shows(before, start) && Shows(between, mid) && Shows(ix, after)
    requires BroughtUp(rules, source, start, mid, InCategory(source, category))
    requires left == Members(between, category) - InCategory(source, category)
    requires BroughtUp(rules, source, mid, after, left)
    ensures InCategory(source, category) + left == InCategory(source, category) + Members(before, category)
    ensures Members(ix, category) == InCategory(source, category)
  {
    forall id: nat
      ensures id in InCategory(source, category) + left <==> id in InCategory(source, category) + Members(before, category)
      ensures id in Members(ix, category) <==> id in InCategory(source, category)
    {
      MemberOf(before, start, category, id);
      MemberOf(between, mid, category, id);
      MemberOf(ix, after, category, id);
      assert if id in InCategory(source, category) then Current(rules, source, mid, id) else Winner(mid, id) == Winner(start, id);
      assert if id in left then Current(rules, source, after, id) else Winner(after, id) == Winner(mid, id);
    }
  }

  /** From `start`: `total` ids, the source's in the category and those listed before, were
      handed over once each and brought up to date. */
  ghost predicate UnionRecomputed(rules: seq<Rule>, source: Catalogue, category: string, start: map<nat, Message>, before: Index,
                                  after: map<nat, Message>, was: multiset<nat>, handed: multiset<nat>, total: nat)
    requires CatalogueOk(source)
  {
    var ids := InCategory(source, category) + Members(before, category);
    total == |ids| && handed == was + multiset(ids) && BroughtUp(rules, source, start, after, ids)
  }

  /** The two passes as one: each id of the union once, all of them brought up to date. */
  lemma CategoryDone(rules: seq<Rule>, source: Catalogue, category: string, start: map<nat, Message>, before: Index,
                     mid: map<nat, Message>, between: Index, after: map<nat, Message>, ix: Index, left: set<nat>, was: multiset<nat>)
    requires CatalogueOk(source) && Shows(before, start) && Shows(between, mid) && Shows(ix, after)
    requires BroughtUp(rules, source, start, mid, InCategory(source, category))
    requires left == Members(between, category) - InCategory(source, category)
    requires BroughtUp(rules, source, mid, after, left)
    ensures Members(ix, category) == InCategory(source, category)
    ensures UnionRecomputed(rules, source, category, start, before, after, was,
                            was + multiset(InCategory(source, category)) + multiset(left), |InCategory(source, category)| + |left|)
  {
    BroughtUpTwice(rules, source, start, mid, after, InCategory(source, category), left);
    CategoryExact(rules, source, category, start, before, mid, between, after, ix, left);
    DisjointAdds(InCategory(source, category), left);
  }

  lemma MemberOf(ix: Index, winners: map<nat, Message>, category: string, id: nat)
    requires Shows(ix, winners)
    ensures id in Members(ix, category) <==> id in winners && winners[id].Write? && winners[id].entry.category == category
  {
    assert ShowsProduct(ix, id, Winner(winners, id));
    if (category, id) in ix.scores {
      assert (category, id).1 in Members(ix, category);
    }
  }

  function Missing(ids: seq<nat>, present: set<nat>): (missing: seq<nat>)
    ensures Elems(missing) == Elems(ids) - present
  {
    if ids == [] then []
    else
      var rest := Missing(ids[1..], present);
      assert Elems(ids) == {ids[0]} + Elems(ids[1..]);
      if ids[0] in present then rest else
        assert Elems([ids[0]] + rest) == {ids[0]} + Elems(rest);
        [ids[0]] + rest
  }

  lemma RebuiltExactly(rules: seq<Rule>, source: Catalogue, start: map<nat, Message>, before: Index,
                       mid: map<nat, Message>, between: Index, after: map<nat, Message>, ix: Index, gone: set<nat>)
    requires CatalogueOk(source) && Shows(before, start) && Shows(between, mid) && Shows(ix, after)
    requires BroughtUp(rules, source, start, mid, source.Keys) && BroughtUp(rules, source, mid, after, gone)
    requires gone !! source.Keys && between.entries.Keys <= source.Keys + gone
    ensures forall id: nat :: if id in source then Listed(ix, id, Price(rules, source[id])) else Unlisted(ix, id)
    ensures forall id :: id in before.entries && id !in source ==> id in ix.tokens && ix.tokens[id].category == ""
  {
    forall id: nat
      ensures if id in source then Listed(ix, id, Price(rules, source[id])) else Unlisted(ix, id)
      ensures id in before.entries && id !in source ==> id in ix.tokens && ix.tokens[id].category == ""
    {
      assert ShowsProduct(before, id, Winner(start, id));
      assert ShowsProduct(between, id, Winner(mid, id));
      assert ShowsProduct(ix, id, Winner(after, id));
      assert if id in source.Keys then Current(rules, source, mid, id) else Winner(mid, id) == Winner(start, id);
      assert if id in gone then Current(rules, source, after, id) else Winner(after, id) == Winner(mid, id);
    }
  }
}
