/** The Redis read model: an entry, two scores and a token per product, moved together by two
    scripts that let the newest read of PostgreSQL win. */
module ReadModel {
  import opened Decimal
  import opened ProductStore
  import opened ProductEntries

  /** A removed product's token names no category. */
  datatype Token = Token(at: nat, category: string)

  datatype Index = Index(tokens: map<nat, Token>, entries: map<nat, ProductEntry>,
                         scores: map<(string, nat), nat>, allProducts: map<nat, nat>)

  /** One script call, with the instant its caller read PostgreSQL at. */
  datatype Message = Write(entry: ProductEntry, at: nat) | Remove(gone: nat, at: nat)
  {
    function Id(): nat { if Write? then entry.id else gone }
    function Stamp(): Token { Token(at, if Write? then entry.category else "") }
    predicate WellFormed() { Write? ==> entry.category != "" }
  }

  predicate Refuses(ix: Index, m: Message) {
    m.Id() in ix.tokens && m.at <= ix.tokens[m.Id()].at
  }

  /** The scores once the product has left the category its token names. */
  function Unscored(ix: Index, id: nat, stays: string): map<(string, nat), nat> {
    if id in ix.tokens && ix.tokens[id].category != "" && ix.tokens[id].category != stays
    then ix.scores - {(ix.tokens[id].category, id)} else ix.scores
  }

  function Apply(ix: Index, m: Message): Index {
    if Refuses(ix, m) then ix
    else
      match m
      case Write(entry, at) =>
        Index(ix.tokens[entry.id := m.Stamp()], ix.entries[entry.id := entry],
              Unscored(ix, entry.id, entry.category)[(entry.category, entry.id) := entry.effectivePriceCents],
              ix.allProducts[entry.id := entry.effectivePriceCents])
      case Remove(id, at) =>
        Index(ix.tokens[id := m.Stamp()], ix.entries - {id}, Unscored(ix, id, ""), ix.allProducts - {id})
  }

  function ApplyAll(ix: Index, ms: seq<Message>): Index {
    if ms == [] then ix else Apply(ApplyAll(ix, ms[..|ms| - 1]), ms[|ms| - 1])
  }

  const EMPTY := Index(map[], map[], map[], map[])

  predicate WellFormedAll(ms: seq<Message>) {
    forall k :: 0 <= k < |ms| ==> ms[k].WellFormed()
  }

  /** The message that stands for each product: the first to arrive of the newest. */
  function WinnersFrom(start: map<nat, Message>, ms: seq<Message>): map<nat, Message> {
    if ms == [] then start
    else
      var before, m := WinnersFrom(start, ms[..|ms| - 1]), ms[|ms| - 1];
      if m.Id() in before && m.at <= before[m.Id()].at then before else before[m.Id() := m]
  }

  function Winners(ms: seq<Message>): map<nat, Message> {
    WinnersFrom(map[], ms)
  }

  function Winner(winners: map<nat, Message>, id: nat): Option<Message> {
    if id in winners then Some(winners[id]) else None
  }

  predicate NewestIsOld(winner: Option<Message>, m: Message) { winner.Some? && m.at <= winner.value.at }

  /** One product, in all four keys, is exactly what one message says: listed with its
      price in its own category and in the whole catalogue, or nowhere. */
  ghost predicate Listed(ix: Index, id: nat, entry: ProductEntry) {
    && id in ix.entries && ix.entries[id] == entry && entry.id == id && entry.category != ""
    && id in ix.allProducts && ix.allProducts[id] == entry.effectivePriceCents
    && (entry.category, id) in ix.scores && ix.scores[(entry.category, id)] == entry.effectivePriceCents
    && forall c :: (c, id) in ix.scores ==> c == entry.category
  }

  ghost predicate Unlisted(ix: Index, id: nat) {
    id !in ix.entries && id !in ix.allProducts && forall c :: (c, id) !in ix.scores
  }

  ghost predicate ShowsProduct(ix: Index, id: nat, winner: Option<Message>) {
    match winner
    case None => id !in ix.tokens && Unlisted(ix, id)
    case Some(m) =>
      && m.Id() == id && id in ix.tokens && ix.tokens[id] == m.Stamp()
      && if m.Write? then Listed(ix, id, m.entry) else Unlisted(ix, id)
  }

  /** The index is exactly what the winning messages say, and nothing else is in it. */
  ghost predicate Shows(ix: Index, winners: map<nat, Message>) {
    forall id: nat :: ShowsProduct(ix, id, Winner(winners, id))
  }

  lemma ApplyElsewhere(ix: Index, m: Message, id: nat, winner: Option<Message>)
    requires id != m.Id() && ShowsProduct(ix, id, winner)
    ensures ShowsProduct(Apply(ix, m), id, winner)
  {
  }

  lemma ApplyHere(ix: Index, m: Message, winner: Option<Message>)
    requires m.WellFormed() && ShowsProduct(ix, m.Id(), winner)
    ensures ShowsProduct(Apply(ix, m), m.Id(), if NewestIsOld(winner, m) then winner else Some(m))
  {
  }

  lemma {:induction false} ApplyAllShows(ix: Index, start: map<nat, Message>, ms: seq<Message>)
    requires Shows(ix, start) && WellFormedAll(ms)
    ensures Shows(ApplyAll(ix, ms), WinnersFrom(start, ms))
    decreases |ms|
  {
    if ms != [] {
      var init, m := ms[..|ms| - 1], ms[|ms| - 1];
      ApplyAllShows(ix, start, init);
      var mid, winners := ApplyAll(ix, init), WinnersFrom(start, init);
      forall id: nat ensures ShowsProduct(Apply(mid, m), id, Winner(WinnersFrom(start, ms), id)) {
        assert ShowsProduct(mid, id, Winner(winners, id));
        if id == m.Id() { ApplyHere(mid, m, Winner(winners, id)); } else { ApplyElsewhere(mid, m, id, Winner(winners, id)); }
      }
    }
  }

  /** What each product's own messages came to, in a run from an empty Redis. */
  lemma RunShows(ms: seq<Message>)
    requires WellFormedAll(ms)
    ensures Shows(ApplyAll(EMPTY, ms), Winners(ms))
  {
    assert Shows(EMPTY, map[]);
    ApplyAllShows(EMPTY, map[], ms);
  }

  /** A product's winner is a message that was applied, and none of its messages is newer. */
  lemma {:induction false} WinnerIsNewest(ms: seq<Message>, id: nat)
    ensures id in Winners(ms) <==> exists k :: 0 <= k < |ms| && ms[k].Id() == id
    ensures id in Winners(ms) ==> Winners(ms)[id] in ms && Winners(ms)[id].Id() == id
    ensures forall k :: 0 <= k < |ms| && ms[k].Id() == id ==> ms[k].at <= Winners(ms)[id].at
    decreases |ms|
  {
    if ms != [] {
      var init, m := ms[..|ms| - 1], ms[|ms| - 1];
      WinnerIsNewest(init, id);
      assert ms == init + [m];
      assert ms[|ms| - 1] == m;
    }
  }

  /** Two messages read at one instant for one product say the same thing. */
  ghost predicate Consistent(ms: seq<Message>) {
    forall j, k :: 0 <= j < |ms| && 0 <= k < |ms| && ms[j].Id() == ms[k].Id() && ms[j].at == ms[k].at ==> ms[j] == ms[k]
  }

  lemma SameMessagesSameWinners(some: seq<Message>, other: seq<Message>, id: nat)
    requires Consistent(some) && forall m :: m in some <==> m in other
    ensures Winner(Winners(some), id) == Winner(Winners(other), id)
  {
    WinnerIsNewest(some, id);
    WinnerIsNewest(other, id);
    if id in Winners(some) {
      assert Winners(some)[id] in other;
    }
    if id in Winners(other) {
      assert Winners(other)[id] in some;
    }
  }

  lemma ShowsOnlyOne(some: Index, other: Index, winners: map<nat, Message>)
    requires Shows(some, winners) && Shows(other, winners)
    ensures some == other
  {
    forall id: nat ensures SameAt(some, other, id) {
      assert ShowsProduct(some, id, Winner(winners, id)) && ShowsProduct(other, id, Winner(winners, id));
    }
    SameEverywhere(some, other);
  }

  ghost predicate SameAt(some: Index, other: Index, id: nat) {
    && (id in some.tokens <==> id in other.tokens) && (id in some.tokens ==> some.tokens[id] == other.tokens[id])
    && (id in some.entries <==> id in other.entries) && (id in some.entries ==> some.entries[id] == other.entries[id])
    && (id in some.allProducts <==> id in other.allProducts)
    && (id in some.allProducts ==> some.allProducts[id] == other.allProducts[id])
    && forall c :: ((c, id) in some.scores <==> (c, id) in other.scores)
         && ((c, id) in some.scores ==> some.scores[(c, id)] == other.scores[(c, id)])
  }

  lemma SameEverywhere(some: Index, other: Index)
    requires forall id: nat :: SameAt(some, other, id)
    ensures some == other
  {
    forall id: nat ensures (id in some.tokens <==> id in other.tokens) && (id in some.tokens ==> some.tokens[id] == other.tokens[id]) {
      assert SameAt(some, other, id);
    }
    forall id: nat ensures (id in some.entries <==> id in other.entries) && (id in some.entries ==> some.entries[id] == other.entries[id]) {
      assert SameAt(some, other, id);
    }
    forall id: nat
      ensures (id in some.allProducts <==> id in other.allProducts)
           && (id in some.allProducts ==> some.allProducts[id] == other.allProducts[id])
    {
      assert SameAt(some, other, id);
    }
    forall key: (string, nat)
      ensures (key in some.scores <==> key in other.scores) && (key in some.scores ==> some.scores[key] == other.scores[key])
    {
      assert SameAt(some, other, key.1);
      assert (key.0, key.1) == key;
    }
    assert some.tokens == other.tokens;
    assert some.entries == other.entries;
    assert some.allProducts == other.allProducts;
    assert some.scores == other.scores;
  }

  /** The same writes and removals, in any order and each any number of times, leave the
      same tokens, entries and sorted sets. */
  lemma OrderIndependent(some: seq<Message>, other: seq<Message>)
    requires WellFormedAll(some) && Consistent(some) && forall m :: m in some <==> m in other
    ensures ApplyAll(EMPTY, some) == ApplyAll(EMPTY, other)
  {
    assert WellFormedAll(other) by {
      forall k | 0 <= k < |other| ensures other[k].WellFormed() { assert other[k] in some; }
    }
    RunShows(some);
    RunShows(other);
    forall id: nat ensures ShowsProduct(ApplyAll(EMPTY, other), id, Winner(Winners(some), id)) {
      SameMessagesSameWinners(some, other, id);
      assert ShowsProduct(ApplyAll(EMPTY, other), id, Winner(Winners(other), id));
    }
    ShowsOnlyOne(ApplyAll(EMPTY, some), ApplyAll(EMPTY, other), Winners(some));
  }

  /** In every reachable index a product has an entry iff its token names a category, iff
      the whole catalogue lists it, iff that one category does and no other, and both
      scores are the entry's effective price. */
  lemma {:induction false} IndexInvariant(ms: seq<Message>, id: nat)
    requires WellFormedAll(ms)
    ensures var ix := ApplyAll(EMPTY, ms);
            && (id in ix.entries <==> id in ix.tokens && ix.tokens[id].category != "")
            && (id in ix.entries <==> id in ix.allProducts)
            && (forall c :: (c, id) in ix.scores <==> id in ix.entries && ix.tokens[id].category == c)
            && (id in ix.entries ==>
                  var entry := ix.entries[id];
                  && entry.id == id && ix.tokens[id].category == entry.category
                  && ix.allProducts[id] == entry.effectivePriceCents
                  && ix.scores[(entry.category, id)] == entry.effectivePriceCents)
  {
    RunShows(ms);
    assert ShowsProduct(ApplyAll(EMPTY, ms), id, Winner(Winners(ms), id));
  }

  /** No message takes a product's token back. */
  lemma TokensGrow(ix: Index, m: Message, id: nat)
    requires id in ix.tokens
    ensures id in Apply(ix, m).tokens && ix.tokens[id].at <= Apply(ix, m).tokens[id].at
    ensures m.Id() in Apply(ix, m).tokens && m.at <= Apply(ix, m).tokens[m.Id()].at
  {
  }

  lemma FirstOfTwo(some: Message, other: Message)
    requires some.Id() == other.Id() && some.at == other.at
    ensures Winner(Winners([some, other]), some.Id()) == Some(some)
  {
    var empty: map<nat, Message> := map[];
    assert [some, other][..1] == [some] && [some][..0] == [];
    assert WinnersFrom(empty, [some]) == empty[some.Id() := some];
  }

  /** Two calls for one product commute exactly when neither is a different answer with the
      same token. */
  lemma TwoCommuteIff(some: Message, other: Message)
    requires some.WellFormed() && other.WellFormed() && some.Id() == other.Id()
    ensures ApplyAll(EMPTY, [some, other]) == ApplyAll(EMPTY, [other, some]) <==> some.at != other.at || some == other
  {
    var one, two := [some, other], [other, some];
    RunShows(one);
    RunShows(two);
    assert one[..1] == [some] && two[..1] == [other] && [some][..0] == [] && [other][..0] == [];
    var id := some.Id();
    assert ShowsProduct(ApplyAll(EMPTY, one), id, Winner(Winners(one), id));
    assert ShowsProduct(ApplyAll(EMPTY, two), id, Winner(Winners(two), id));
    if some.at != other.at {
      assert forall m :: m in one <==> m in two;
      OrderIndependent(one, two);
    } else {
      FirstOfTwo(some, other);
      FirstOfTwo(other, some);
    }
  }
}
